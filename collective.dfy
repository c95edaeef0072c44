/**
 * The collective minimum reduction (`comm.min`) that the linearizers use to
 * agree across processes on whether a step succeeded. The message passing
 * behind it is not modelled: a reduction is the minimum over the flag of
 * this process and the flags the other processes contribute.
 */
module Collective {

  /** The minimum of a non-empty sequence of per-process flags. */
  function MinOf(flags: seq<int>): (m: int)
    requires |flags| > 0
    ensures m in flags
    ensures forall k :: 0 <= k < |flags| ==> m <= flags[k]
  {
    if |flags| == 1 then flags[0]
    else
      var rest := MinOf(flags[1..]);
      if flags[0] <= rest then flags[0] else rest
  }

  /** What `comm.min(own)` returns on this process, `peers` being the other processes' flags. */
  function CommMin(own: int, peers: seq<int>): int
  {
    MinOf([own] + peers)
  }

  /** A success flag: 1 for success, 0 for failure. */
  predicate IsFlag(x: int)
  {
    x == 0 || x == 1
  }

  /**
   * With success flags, the reduction is 0 exactly when some process,
   * this one or a peer, failed.
   */
  lemma CommMinZeroIffAnyFailed(own: int, peers: seq<int>)
    requires IsFlag(own) && forall k :: 0 <= k < |peers| ==> IsFlag(peers[k])
    ensures CommMin(own, peers) == 0 <==> (own == 0 || exists k :: 0 <= k < |peers| && peers[k] == 0)
  {
    var all := [own] + peers;
    if CommMin(own, peers) == 0 {
      var w :| 0 <= w < |all| && all[w] == 0;
      if w > 0 {
        assert peers[w - 1] == 0;
      }
    }
  }

  /**
   * All processes agree: whichever rank r performs the reduction, contributing
   * its own flag while the others contribute theirs, the result is the minimum
   * over every process's flag.
   */
  lemma {:induction false} CommMinAgrees(flags: seq<int>, r: nat)
    requires r < |flags|
    ensures CommMin(flags[r], flags[..r] + flags[r + 1..]) == MinOf(flags)
  {
    var view := [flags[r]] + (flags[..r] + flags[r + 1..]);
    var a, b := MinOf(view), MinOf(flags);
    assert |view| == |flags|;
    // Every flag of `flags` occurs in `view` and vice versa.
    forall k | 0 <= k < |flags| ensures a <= flags[k] {
      if k < r {
        assert view[k + 1] == flags[k];
      } else if k == r {
        assert view[0] == flags[k];
      } else {
        assert view[k] == flags[k];
      }
    }
    forall k | 0 <= k < |view| ensures b <= view[k] {
      if k == 0 {
        assert view[k] == flags[r];
      } else if k <= r {
        assert view[k] == flags[k - 1];
      } else {
        assert view[k] == flags[k];
      }
    }
    var ia :| 0 <= ia < |view| && view[ia] == a;
    var ib :| 0 <= ib < |flags| && flags[ib] == b;
    assert a <= flags[ib];
    assert b <= view[ia];
  }
}
