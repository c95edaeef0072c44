/**
 * What the Newton driver promises, stated over its functional reference
 * (`Newton.ExecuteRun`, which `Newton.NewtonMethod.Execute` is proved to
 * follow): the call order, one iteration per `true` answer of the loop
 * guard, the final verdict, and which exception escapes.
 */
module NewtonProperties {
  import opened Wrappers
  import opened Newton

  /** The kinds of calls the properties count. */
  datatype Kind =
    | BeginCall     // `newtonBegin`
    | BeginStepCall // `newtonBeginStep`
    | TrueAnswer    // a loop-guard query that answered true
    | Verdict       // `newtonFail` or `newtonSucceed`

  predicate Is(e: Event, kind: Kind)
  {
    match kind
    case BeginCall => e.Begin?
    case BeginStepCall => e.BeginStep?
    case TrueAnswer => e.Proceed? && e.answer
    case Verdict => e.Fail? || e.Succeed?
  }

  /** The number of events of t of the given kind. */
  function Count(t: seq<Event>, kind: Kind): (n: nat)
    ensures n <= |t|
  {
    if t == [] then 0 else (if Is(t[0], kind) then 1 else 0) + Count(t[1..], kind)
  }

  /** The number of true entries of s. */
  function Trues(s: seq<bool>): (n: nat)
    ensures n <= |s|
  {
    if s == [] then 0 else (if s[0] then 1 else 0) + Trues(s[1..])
  }

  /** The exception that leaves the driver when the call e raises x. */
  function Escaping(e: Event, x: Exc): Exc
  {
    if e.EndStep? then EndStepEscape(x) else x
  }

  /** t is a sequence of complete iterations leading from iterate u to uEnd. */
  predicate Cycles(t: seq<Event>, u: Solution, uEnd: Solution)
    decreases |t|
  {
    if |t| < 7 then t == [] && uEnd == u
    else t[4].UpdateErrors? && |t[4].delta| == |u| && t[..7] == Cycle(u, t[4].delta) && Cycles(t[7..], Updated(u, t[4].delta), uEnd)
  }

  /** The calls after the loop guard answered false at iterate uEnd. */
  function Tail(uEnd: Solution, ok: bool): seq<Event>
  {
    [Proceed(uEnd, false), End, Converged(ok), if ok then Succeed else Fail]
  }

  /** Complete iterations from u to uEnd, then the loop exit and the verdict. */
  predicate NormalTrace(t: seq<Event>, u: Solution, uEnd: Solution, ok: bool)
  {
    |t| >= 4 && Cycles(t[..|t| - 4], u, uEnd) && t[|t| - 4..] == Tail(uEnd, ok)
  }

  // ---------------------------------------------------------------------
  // Helpers.

  lemma {:induction false} CountAppend(a: seq<Event>, b: seq<Event>, kind: Kind)
    ensures Count(a + b, kind) == Count(a, kind) + Count(b, kind)
    decreases |a|
  {
    if a == [] {
      assert a + b == b;
    } else {
      assert (a + b)[1..] == a[1..] + b;
      CountAppend(a[1..], b, kind);
    }
  }

  /** Which entries of a cycle are which calls. */
  lemma CycleEntries(u: Solution, delta: Solution, k: nat)
    requires k < 7 && |delta| == |u|
    ensures Is(Cycle(u, delta)[k], TrueAnswer) <==> k == 0
    ensures Is(Cycle(u, delta)[k], BeginStepCall) <==> k == 1
    ensures Cycle(u, delta)[k].EndStep? <==> k == 6
    ensures !Is(Cycle(u, delta)[k], BeginCall) && !Is(Cycle(u, delta)[k], Verdict)
  {
  }

  lemma {:induction false} CountSingle(e: Event, kind: Kind)
    ensures Count([e], kind) == if Is(e, kind) then 1 else 0
  {
    assert [e][1..] == [];
  }

  /** The calls m to 5 of an iteration, when none of them raises. */
  lemma {:induction false} StepsRunning(sc: Script, es: seq<Event>, p: nat, u: Solution, delta: Solution, m: nat)
    requires m <= 6 && |delta| == |u|
    ensures var r := StepsRun(sc, es, p, u, delta, m);
      r.status.Running? ==> r.events == es + Cycle(u, delta)[m + 1..] && r.u == Updated(u, delta) && r.proceedCalls == p
    decreases 6 - m
  {
    if m < 6 && Raise(sc, |es|).None? {
      var es1 := es + [Cycle(u, delta)[m + 1]];
      StepsRunning(sc, es1, p, u, delta, m + 1);
      assert Cycle(u, delta)[m + 1..] == [Cycle(u, delta)[m + 1]] + Cycle(u, delta)[m + 2..];
    }
  }

  /** Calls m to 5 of an iteration only append to the trace. */
  lemma {:induction false} StepsPrefix(sc: Script, es: seq<Event>, p: nat, u: Solution, delta: Solution, m: nat)
    requires m <= 6 && |delta| == |u|
    ensures var r := StepsRun(sc, es, p, u, delta, m);
      |r.events| >= |es| && r.events[..|es|] == es && r.proceedCalls == p
    decreases 6 - m
  {
    if m < 6 && Raise(sc, |es|).None? {
      StepsPrefix(sc, es + [Cycle(u, delta)[m + 1]], p, u, delta, m + 1);
    }
  }

  /** Calls m to 5 of an iteration hold a begin-step only if m is 0, and no loop-guard query, begin or verdict. */
  lemma {:induction false} StepsCounts(sc: Script, es: seq<Event>, p: nat, u: Solution, delta: Solution, m: nat)
    requires m <= 6 && |delta| == |u|
    ensures var r := StepsRun(sc, es, p, u, delta, m);
      |r.events| >= |es| &&
      var t := r.events[|es|..];
      Count(t, BeginCall) == 0 && Count(t, TrueAnswer) == 0 && Count(t, Verdict) == 0 &&
      Count(t, BeginStepCall) == (if m == 0 then 1 else 0)
    decreases 6 - m
  {
    var r := StepsRun(sc, es, p, u, delta, m);
    StepsPrefix(sc, es, p, u, delta, m);
    if m < 6 {
      var e := Cycle(u, delta)[m + 1];
      var es1 := es + [e];
      CycleEntries(u, delta, m + 1);
      if Raise(sc, |es|).None? {
        assert r == StepsRun(sc, es1, p, u, delta, m + 1);
        StepsCounts(sc, es1, p, u, delta, m + 1);
        StepsPrefix(sc, es1, p, u, delta, m + 1);
        SplitAfter(r.events, es, [e]);
        var t1 := r.events[|es1|..];
        forall kind: Kind ensures Count(r.events[|es|..], kind) == (if Is(e, kind) then 1 else 0) + Count(t1, kind) {
          CountAppend([e], t1, kind);
          CountSingle(e, kind);
        }
      } else {
        assert r.events[|es|..] == [e];
        forall kind: Kind ensures Count(r.events[|es|..], kind) == if Is(e, kind) then 1 else 0 {
          CountSingle(e, kind);
        }
      }
    } else {
      assert r.events[|es|..] == [];
    }
  }

  /** An iteration that throws throws what its last call raised, translated if that was the end-step. */
  lemma {:induction false} StepsThrown(sc: Script, es: seq<Event>, p: nat, u: Solution, delta: Solution, m: nat)
    requires m <= 6 && |delta| == |u|
    ensures var r := StepsRun(sc, es, p, u, delta, m);
      r.status.Threw? ==>
        |r.events| > |es| && Raise(sc, |r.events| - 1).Some? &&
        r.status.exc == Escaping(r.events[|r.events| - 1], Raise(sc, |r.events| - 1).value)
    decreases 6 - m
  {
    if m < 6 {
      CycleEntries(u, delta, m + 1);
      if Raise(sc, |es|).None? {
        StepsThrown(sc, es + [Cycle(u, delta)[m + 1]], p, u, delta, m + 1);
      }
    }
  }

  /** No event of s is of the given kind. */
  lemma {:induction false} CountZero(s: seq<Event>, kind: Kind)
    requires forall k :: 0 <= k < |s| ==> !Is(s[k], kind)
    ensures Count(s, kind) == 0
    decreases |s|
  {
    if s != [] {
      CountZero(s[1..], kind);
    }
  }

  /** Only event i of s is of the given kind. */
  lemma {:induction false} CountOne(s: seq<Event>, kind: Kind, i: nat)
    requires i < |s| && Is(s[i], kind)
    requires forall k :: 0 <= k < |s| && k != i ==> !Is(s[k], kind)
    ensures Count(s, kind) == 1
    decreases |s|
  {
    if i == 0 {
      CountZero(s[1..], kind);
    } else {
      CountOne(s[1..], kind, i - 1);
    }
  }

  /** One loop-guard answer and one begin-step per cycle, no begin and no verdict. */
  lemma CycleCounts(u: Solution, delta: Solution)
    requires |delta| == |u|
    ensures Count(Cycle(u, delta), BeginCall) == 0 && Count(Cycle(u, delta), Verdict) == 0
    ensures Count(Cycle(u, delta), BeginStepCall) == 1 && Count(Cycle(u, delta), TrueAnswer) == 1
  {
    var c := Cycle(u, delta);
    forall k | 0 <= k < 7
      ensures (Is(c[k], TrueAnswer) <==> k == 0) && (Is(c[k], BeginStepCall) <==> k == 1) && !Is(c[k], BeginCall) && !Is(c[k], Verdict)
    {
      CycleEntries(u, delta, k);
    }
    CountZero(c, BeginCall);
    CountZero(c, Verdict);
    CountOne(c, BeginStepCall, 1);
    CountOne(c, TrueAnswer, 0);
  }

  lemma {:induction false} CyclesCounts(t: seq<Event>, u: Solution, uEnd: Solution)
    requires Cycles(t, u, uEnd)
    ensures Count(t, BeginCall) == 0 && Count(t, Verdict) == 0
    ensures Count(t, BeginStepCall) == Count(t, TrueAnswer)
    decreases |t|
  {
    if |t| >= 7 {
      var c := Cycle(u, t[4].delta);
      CyclesCounts(t[7..], Updated(u, t[4].delta), uEnd);
      assert t == c + t[7..];
      CountAppend(c, t[7..], BeginCall);
      CountAppend(c, t[7..], Verdict);
      CountAppend(c, t[7..], BeginStepCall);
      CountAppend(c, t[7..], TrueAnswer);
      CycleCounts(u, t[4].delta);
    }
  }

  lemma {:induction false} CountPair(a: Event, b: Event, kind: Kind)
    ensures Count([a, b], kind) == (if Is(a, kind) then 1 else 0) + (if Is(b, kind) then 1 else 0)
  {
    assert [a, b][1..] == [b];
    CountSingle(b, kind);
  }

  lemma {:induction false} CountTriple(a: Event, b: Event, c: Event, kind: Kind)
    ensures Count([a, b, c], kind) == (if Is(a, kind) then 1 else 0) + (if Is(b, kind) then 1 else 0) + (if Is(c, kind) then 1 else 0)
  {
    assert [a, b, c][1..] == [b, c];
    CountPair(b, c, kind);
  }

  /** The calls after the loop: end, then the convergence query, then the verdict, cut at the first that raises. */
  lemma FinishShape(sc: Script, es: seq<Event>, p: nat, u: Solution)
    ensures var r := FinishRun(sc, es, p, u); var c := |es|;
      r.proceedCalls == p && r.u == u && !r.status.Running? &&
      if Raise(sc, c).Some? then r.events == es + [End] && r.status == Threw(Raise(sc, c).value)
      else if Raise(sc, c + 1).Some? then r.events == es + [End, Converged(false)] && r.status == Threw(Raise(sc, c + 1).value)
      else (r.events == es + Tail(u, sc.converged)[1..] &&
        r.status == if Raise(sc, c + 2).Some? then Threw(Raise(sc, c + 2).value) else Returned(sc.converged))
  {
    assert Tail(u, sc.converged)[1..] == [End, Converged(sc.converged), if sc.converged then Succeed else Fail];
  }

  /** The calls after the loop hold no begin, begin-step or true answer; a verdict, if any, is the last call. */
  lemma FinishCounts(sc: Script, es: seq<Event>, p: nat, u: Solution)
    ensures var r := FinishRun(sc, es, p, u);
      |r.events| > |es| && r.events[..|es|] == es &&
      var t := r.events[|es|..];
      Count(t, BeginCall) == 0 && Count(t, BeginStepCall) == 0 && Count(t, TrueAnswer) == 0 &&
      Count(t, Verdict) == (if Is(r.events[|r.events| - 1], Verdict) then 1 else 0)
  {
    var r := FinishRun(sc, es, p, u);
    var c := |es|;
    FinishShape(sc, es, p, u);
    var t := r.events[|es|..];
    if Raise(sc, c).Some? {
      assert t == [End];
      forall kind: Kind ensures Count(t, kind) == if Is(End, kind) then 1 else 0 {
        CountSingle(End, kind);
      }
    } else if Raise(sc, c + 1).Some? {
      assert t == [End, Converged(false)];
      forall kind: Kind ensures Count(t, kind) == (if Is(End, kind) then 1 else 0) + (if Is(Converged(false), kind) then 1 else 0) {
        CountPair(End, Converged(false), kind);
      }
    } else {
      var v := if sc.converged then Succeed else Fail;
      assert t == [End, Converged(sc.converged), v];
      forall kind: Kind
        ensures Count(t, kind) == (if Is(End, kind) then 1 else 0) + (if Is(Converged(sc.converged), kind) then 1 else 0) + (if Is(v, kind) then 1 else 0)
      {
        CountTriple(End, Converged(sc.converged), v, kind);
      }
    }
  }

  lemma {:induction false} CountPositive(s: seq<Event>, kind: Kind, i: nat)
    requires i < |s| && Is(s[i], kind)
    ensures Count(s, kind) >= 1
    decreases |s|
  {
    if i > 0 {
      CountPositive(s[1..], kind, i - 1);
    }
  }

  // ---------------------------------------------------------------------
  // One round: the loop guard and, when it answers true, one iteration.

  /** A round starts with the loop-guard query and only appends to the trace. */
  lemma RoundPrefix(sc: Script, es: seq<Event>, p: nat, u: Solution)
    ensures var r := RoundRun(sc, es, p, u);
      |r.events| > |es| && r.events[..|es| + 1] == es + [Proceed(u, Raise(sc, |es|).None? && Answer(sc, p))]
  {
    var es1 := es + [Proceed(u, Raise(sc, |es|).None? && Answer(sc, p))];
    if Raise(sc, |es|).None? {
      if Answer(sc, p) {
        StepsPrefix(sc, es1, p + 1, u, Solved(sc, |es1| + 2, |u|), 0);
      } else {
        FinishShape(sc, es1, p + 1, u);
      }
    }
  }

  /** After its loop-guard query a round holds no begin and no true answer, and one begin-step exactly when the guard said true. */
  lemma RoundRestCounts(sc: Script, es: seq<Event>, p: nat, u: Solution)
    ensures var r := RoundRun(sc, es, p, u);
      var answer := Raise(sc, |es|).None? && Answer(sc, p);
      |r.events| > |es| &&
      var t1 := r.events[|es| + 1..];
      Count(t1, BeginCall) == 0 && Count(t1, TrueAnswer) == 0 && Count(t1, BeginStepCall) == (if answer then 1 else 0)
  {
    var r := RoundRun(sc, es, p, u);
    var es1 := es + [Proceed(u, Raise(sc, |es|).None? && Answer(sc, p))];
    if Raise(sc, |es|).Some? {
      assert r.events == es1;
      assert r.events[|es| + 1..] == [];
    } else if !Answer(sc, p) {
      assert r == FinishRun(sc, es1, p + 1, u);
      FinishCounts(sc, es1, p + 1, u);
    } else {
      assert r == StepsRun(sc, es1, p + 1, u, Solved(sc, |es1| + 2, |u|), 0);
      StepsCounts(sc, es1, p + 1, u, Solved(sc, |es1| + 2, |u|), 0);
    }
  }

  /** A round has no begin, and as many begin-steps as true answers: one if the script answers true, else none. */
  lemma RoundCounts(sc: Script, es: seq<Event>, p: nat, u: Solution)
    ensures var r := RoundRun(sc, es, p, u);
      |r.events| > |es| &&
      var t := r.events[|es|..];
      Count(t, BeginCall) == 0 && Count(t, BeginStepCall) == Count(t, TrueAnswer) <= (if Answer(sc, p) then 1 else 0)
  {
    var r := RoundRun(sc, es, p, u);
    RoundPrefix(sc, es, p, u);
    RoundRestCounts(sc, es, p, u);
    var e := Proceed(u, Raise(sc, |es|).None? && Answer(sc, p));
    var t, t1 := r.events[|es|..], r.events[|es| + 1..];
    SplitAfter(r.events, es, [e]);
    CountAppend([e], t1, BeginCall);
    CountAppend([e], t1, BeginStepCall);
    CountAppend([e], t1, TrueAnswer);
  }

  /** After its loop-guard query a round holds a verdict only as its last call, and then only one. */
  lemma RoundRestVerdicts(sc: Script, es: seq<Event>, p: nat, u: Solution)
    ensures var r := RoundRun(sc, es, p, u);
      |r.events| > |es| &&
      Count(r.events[|es| + 1..], Verdict) == (if Is(r.events[|r.events| - 1], Verdict) then 1 else 0)
  {
    var r := RoundRun(sc, es, p, u);
    var es1 := es + [Proceed(u, Raise(sc, |es|).None? && Answer(sc, p))];
    RoundPrefix(sc, es, p, u);
    var t1 := r.events[|es1|..];
    if Raise(sc, |es|).Some? {
      assert r.events == es1;
      assert t1 == [];
    } else if !Answer(sc, p) {
      assert r == FinishRun(sc, es1, p + 1, u);
      FinishCounts(sc, es1, p + 1, u);
    } else {
      var delta := Solved(sc, |es1| + 2, |u|);
      assert r == StepsRun(sc, es1, p + 1, u, delta, 0);
      StepsPrefix(sc, es1, p + 1, u, delta, 0);
      StepsCounts(sc, es1, p + 1, u, delta, 0);
      assert r.events[|r.events| - 1] == t1[|t1| - 1];
      if Is(t1[|t1| - 1], Verdict) {
        CountPositive(t1, Verdict, |t1| - 1);
      }
    }
  }

  /** A round holds a verdict only as its last call, and then only one. */
  lemma RoundVerdicts(sc: Script, es: seq<Event>, p: nat, u: Solution)
    ensures var r := RoundRun(sc, es, p, u);
      |r.events| > |es| &&
      Count(r.events[|es|..], Verdict) == (if Is(r.events[|r.events| - 1], Verdict) then 1 else 0)
  {
    var r := RoundRun(sc, es, p, u);
    RoundPrefix(sc, es, p, u);
    RoundRestVerdicts(sc, es, p, u);
    var e := Proceed(u, Raise(sc, |es|).None? && Answer(sc, p));
    SplitAfter(r.events, es, [e]);
    CountAppend([e], r.events[|es| + 1..], Verdict);
  }

  /** A round that throws throws what its last call raised, translated if that call was an end-step. */
  lemma RoundThrown(sc: Script, es: seq<Event>, p: nat, u: Solution)
    ensures var r := RoundRun(sc, es, p, u);
      r.status.Threw? ==>
        |r.events| > |es| && Raise(sc, |r.events| - 1).Some? &&
        r.status.exc == Escaping(r.events[|r.events| - 1], Raise(sc, |r.events| - 1).value)
  {
    var es1 := es + [Proceed(u, Raise(sc, |es|).None? && Answer(sc, p))];
    if Raise(sc, |es|).None? {
      if !Answer(sc, p) {
        FinishShape(sc, es1, p + 1, u);
      } else {
        StepsThrown(sc, es1, p + 1, u, Solved(sc, |es1| + 2, |u|), 0);
      }
    }
  }

  /** A round that goes on was one complete iteration. */
  lemma RoundRunning(sc: Script, es: seq<Event>, p: nat, u: Solution)
    ensures var r := RoundRun(sc, es, p, u); var delta := Solved(sc, |es| + 3, |u|);
      r.status.Running? ==>
        Answer(sc, p) && r.events == es + Cycle(u, delta) && r.u == Updated(u, delta) && r.proceedCalls == p + 1
  {
    var delta := Solved(sc, |es| + 3, |u|);
    var es1 := es + [Proceed(u, Raise(sc, |es|).None? && Answer(sc, p))];
    if Raise(sc, |es|).None? && Answer(sc, p) {
      StepsRunning(sc, es1, p + 1, u, delta, 0);
      assert es1 + Cycle(u, delta)[1..] == es + Cycle(u, delta);
    } else if Raise(sc, |es|).None? {
      FinishShape(sc, es1, p + 1, u);
    }
  }

  /** A round that returns was the loop guard answering false, then the calls after the loop. */
  lemma RoundReturned(sc: Script, es: seq<Event>, p: nat, u: Solution)
    ensures var r := RoundRun(sc, es, p, u);
      r.status.Returned? ==>
        r.events == es + Tail(u, sc.converged) && r.status.ok == sc.converged && r.u == u
  {
    var es1 := es + [Proceed(u, Raise(sc, |es|).None? && Answer(sc, p))];
    if Raise(sc, |es|).None? && !Answer(sc, p) {
      FinishShape(sc, es1, p + 1, u);
      assert es1 + Tail(u, sc.converged)[1..] == es + Tail(u, sc.converged);
    } else if Raise(sc, |es|).None? {
      StepsPrefix(sc, es1, p + 1, u, Solved(sc, |es1| + 2, |u|), 0);
    }
  }

  /** A trace that starts with es + mid continues after es with mid. */
  lemma SplitAfter(whole: seq<Event>, es: seq<Event>, mid: seq<Event>)
    requires |whole| >= |es| + |mid| && whole[..|es| + |mid|] == es + mid
    ensures whole[|es|..] == mid + whole[|es| + |mid|..]
  {
    assert whole == (es + mid) + whole[|es| + |mid|..];
  }

  /** A complete iteration in front of a normal trace from its result is a normal trace. */
  lemma NormalTraceCons(u: Solution, delta: Solution, t: seq<Event>, uEnd: Solution, ok: bool)
    requires |delta| == |u| && NormalTrace(t, Updated(u, delta), uEnd, ok)
    ensures NormalTrace(Cycle(u, delta) + t, u, uEnd, ok)
  {
    var cy := Cycle(u, delta);
    var whole := cy + t;
    var body := whole[..|whole| - 4];
    assert body == cy + t[..|t| - 4];
    assert body[4] == UpdateErrors(u, u, delta);
    assert body[..7] == cy && body[7..] == t[..|t| - 4];
    assert whole[|whole| - 4..] == t[|t| - 4..];
  }

  // ---------------------------------------------------------------------
  // The loop.

  /** The loop only appends to the trace. */
  lemma {:induction false} LoopPrefix(sc: Script, es: seq<Event>, p: nat, u: Solution)
    requires p <= |sc.proceed|
    ensures var r := LoopRun(sc, es, p, u);
      |r.events| > |es| && r.events[..|es|] == es
    decreases |sc.proceed| - p
  {
    var r1 := RoundRun(sc, es, p, u);
    RoundPrefix(sc, es, p, u);
    assert r1.events[..|es|] == es by {
      assert r1.events[..|es|] == r1.events[..|es| + 1][..|es|];
    }
    if r1.status.Running? {
      var r := LoopRun(sc, r1.events, r1.proceedCalls, r1.u);
      LoopPrefix(sc, r1.events, r1.proceedCalls, r1.u);
      assert r.events[..|es|] == r.events[..|r1.events|][..|es|];
    }
  }

  /**
   * The loop never calls newtonBegin, calls newtonBeginStep exactly once per
   * true answer of the loop guard, and so at most as often as the script
   * answers true from the p-th query on.
   */
  lemma {:induction false} LoopCounts(sc: Script, es: seq<Event>, p: nat, u: Solution)
    requires p <= |sc.proceed|
    ensures var r := LoopRun(sc, es, p, u);
      |r.events| > |es| &&
      var t := r.events[|es|..];
      Count(t, BeginCall) == 0 && Count(t, BeginStepCall) == Count(t, TrueAnswer) <= Trues(sc.proceed[p..])
    decreases |sc.proceed| - p
  {
    var r := LoopRun(sc, es, p, u);
    var r1 := RoundRun(sc, es, p, u);
    RoundCounts(sc, es, p, u);
    if Answer(sc, p) {
      assert sc.proceed[p..][0] == sc.proceed[p] && sc.proceed[p..][1..] == sc.proceed[p + 1..];
    }
    if r1.status.Running? {
      RoundRunning(sc, es, p, u);
      RoundPrefix(sc, es, p, u);
      LoopPrefix(sc, r1.events, r1.proceedCalls, r1.u);
      LoopCounts(sc, r1.events, r1.proceedCalls, r1.u);
      var t1, t2 := r1.events[|es|..], r.events[|r1.events|..];
      assert r == LoopRun(sc, r1.events, r1.proceedCalls, r1.u);
      assert r.events[|es|..] == t1 + t2;
      CountAppend(t1, t2, BeginCall);
      CountAppend(t1, t2, BeginStepCall);
      CountAppend(t1, t2, TrueAnswer);
    }
  }

  /** The loop's trace holds a verdict only as its last call, and then only one. */
  lemma {:induction false} LoopVerdicts(sc: Script, es: seq<Event>, p: nat, u: Solution)
    requires p <= |sc.proceed|
    ensures var r := LoopRun(sc, es, p, u);
      |r.events| > |es| &&
      Count(r.events[|es|..], Verdict) == (if Is(r.events[|r.events| - 1], Verdict) then 1 else 0)
    decreases |sc.proceed| - p
  {
    var r := LoopRun(sc, es, p, u);
    var r1 := RoundRun(sc, es, p, u);
    RoundVerdicts(sc, es, p, u);
    if r1.status.Running? {
      RoundRunning(sc, es, p, u);
      CycleEntries(u, Solved(sc, |es| + 3, |u|), 6);
      LoopPrefix(sc, r1.events, r1.proceedCalls, r1.u);
      LoopVerdicts(sc, r1.events, r1.proceedCalls, r1.u);
      var t1, t2 := r1.events[|es|..], r.events[|r1.events|..];
      assert r.events[|es|..] == t1 + t2;
      CountAppend(t1, t2, Verdict);
    }
  }

  /** A loop that throws throws what its last call raised, translated if that call was an end-step. */
  lemma {:induction false} LoopThrown(sc: Script, es: seq<Event>, p: nat, u: Solution)
    requires p <= |sc.proceed|
    ensures var r := LoopRun(sc, es, p, u);
      r.status.Threw? ==>
        |r.events| > |es| && Raise(sc, |r.events| - 1).Some? &&
        r.status.exc == Escaping(r.events[|r.events| - 1], Raise(sc, |r.events| - 1).value)
    decreases |sc.proceed| - p
  {
    var r1 := RoundRun(sc, es, p, u);
    RoundThrown(sc, es, p, u);
    LoopPrefix(sc, es, p, u);
    if r1.status.Running? {
      LoopThrown(sc, r1.events, r1.proceedCalls, r1.u);
    }
  }

  /** A loop that returns ran complete iterations from u, then its guard said false, then came the verdict. */
  lemma {:induction false} LoopNormalExit(sc: Script, es: seq<Event>, p: nat, u: Solution)
    requires p <= |sc.proceed|
    ensures var r := LoopRun(sc, es, p, u);
      r.status.Returned? ==>
        |r.events| > |es| && r.status.ok == sc.converged &&
        NormalTrace(r.events[|es|..], u, r.u, r.status.ok)
    decreases |sc.proceed| - p
  {
    var r := LoopRun(sc, es, p, u);
    var r1 := RoundRun(sc, es, p, u);
    if r1.status.Returned? {
      RoundReturned(sc, es, p, u);
      var t := r.events[|es|..];
      assert t == Tail(u, sc.converged) && t[..|t| - 4] == [];
    } else if r1.status.Running? {
      var delta := Solved(sc, |es| + 3, |u|);
      RoundRunning(sc, es, p, u);
      LoopNormalExit(sc, r1.events, r1.proceedCalls, r1.u);
      if r.status.Returned? {
        var t2 := r.events[|r1.events|..];
        LoopPrefix(sc, r1.events, r1.proceedCalls, r1.u);
        SplitAfter(r.events, es, Cycle(u, delta));
        NormalTraceCons(u, delta, t2, r.u, r.status.ok);
      }
    }
  }

  // ---------------------------------------------------------------------
  // The driver: `execute` around `execute_`.

  /** `execute_` starts with newtonBegin and only appends to the trace. */
  lemma InnerPrefix(sc: Script, es: seq<Event>, p: nat, u: Solution)
    requires p <= |sc.proceed|
    ensures var r := InnerRun(sc, es, p, u);
      |r.events| > |es| && r.events[..|es| + 1] == es + [Begin(u)]
  {
    if Raise(sc, |es|).None? {
      LoopPrefix(sc, es + [Begin(u)], p, u);
    }
  }

  /**
   * newtonBegin is called exactly once, as the first call; newtonBeginStep
   * is called exactly once per true answer of the loop guard, hence at most
   * as often as the script answers true.
   */
  lemma ExecuteCounts(sc: Script, es: seq<Event>, p: nat, u: Solution)
    requires p <= |sc.proceed|
    ensures var r := ExecuteRun(sc, es, p, u);
      |r.events| > |es| && r.events[..|es|] == es && r.events[|es|] == Begin(u) &&
      var t := r.events[|es|..];
      Count(t, BeginCall) == 1 && Count(t, BeginStepCall) == Count(t, TrueAnswer) <= Trues(sc.proceed[p..])
  {
    var inner := InnerRun(sc, es, p, u);
    var r := ExecuteRun(sc, es, p, u);
    var es1 := es + [Begin(u)];
    InnerPrefix(sc, es, p, u);
    var t0 := inner.events[|es1|..];
    SplitAfter(inner.events, es, [Begin(u)]);
    if Raise(sc, |es|).None? {
      LoopCounts(sc, es1, p, u);
    } else {
      assert t0 == [];
    }
    forall kind: Kind ensures Count(inner.events[|es|..], kind) == (if Is(Begin(u), kind) then 1 else 0) + Count(t0, kind) {
      CountAppend([Begin(u)], t0, kind);
      CountSingle(Begin(u), kind);
    }
    if r != inner {
      assert r.events[|es|..] == inner.events[|es|..] + [Fail];
      forall kind: Kind ensures Count(r.events[|es|..], kind) == Count(inner.events[|es|..], kind) + (if Is(Fail, kind) then 1 else 0) {
        CountAppend(inner.events[|es|..], [Fail], kind);
        CountSingle(Fail, kind);
      }
    }
  }

  /** What `execute_` throws is what its last call raised, translated if that call was an end-step. */
  lemma InnerThrown(sc: Script, es: seq<Event>, p: nat, u: Solution)
    requires p <= |sc.proceed|
    ensures var r := InnerRun(sc, es, p, u);
      r.status.Threw? ==>
        |r.events| > |es| && Raise(sc, |r.events| - 1).Some? &&
        r.status.exc == Escaping(r.events[|r.events| - 1], Raise(sc, |r.events| - 1).value)
  {
    if Raise(sc, |es|).None? {
      LoopThrown(sc, es + [Begin(u)], p, u);
    }
  }

  /**
   * Whatever escapes `execute` is what its last controller call raised,
   * translated to NumericalProblem if that call was newtonEndStep and the
   * exception a Dune one; a NumericalProblem escapes only from newtonFail.
   */
  lemma ExecuteThrown(sc: Script, es: seq<Event>, p: nat, u: Solution)
    requires p <= |sc.proceed|
    ensures var r := ExecuteRun(sc, es, p, u);
      r.status.Threw? ==>
        |r.events| > |es| && Raise(sc, |r.events| - 1).Some? &&
        r.status.exc == Escaping(r.events[|r.events| - 1], Raise(sc, |r.events| - 1).value) &&
        (r.status.exc == NumericalProblem ==> r.events[|r.events| - 1] == Fail)
  {
    InnerThrown(sc, es, p, u);
    InnerPrefix(sc, es, p, u);
  }

  /**
   * A Dune exception from newtonEndStep ends the solve with newtonFail and
   * false, unless newtonFail itself raises.
   */
  lemma EndStepDuneFails(sc: Script, es: seq<Event>, p: nat, u: Solution)
    requires p <= |sc.proceed|
    requires var inner := InnerRun(sc, es, p, u);
      inner.status.Threw? && |inner.events| > 0 && inner.events[|inner.events| - 1].EndStep? &&
      Raise(sc, |inner.events| - 1).Some? && IsDune(Raise(sc, |inner.events| - 1).value)
    ensures var inner := InnerRun(sc, es, p, u); var r := ExecuteRun(sc, es, p, u);
      r.events == inner.events + [Fail] &&
      r.status == if Raise(sc, |inner.events|).Some? then Threw(Raise(sc, |inner.events|).value) else Returned(false)
  {
    InnerThrown(sc, es, p, u);
  }

  /** Inside `execute_`, a verdict call can only be the last call. */
  lemma InnerVerdicts(sc: Script, es: seq<Event>, p: nat, u: Solution)
    requires p <= |sc.proceed|
    ensures var r := InnerRun(sc, es, p, u);
      |r.events| > |es| &&
      Count(r.events[|es|..], Verdict) == (if Is(r.events[|r.events| - 1], Verdict) then 1 else 0)
  {
    var r := InnerRun(sc, es, p, u);
    var es1 := es + [Begin(u)];
    InnerPrefix(sc, es, p, u);
    SplitAfter(r.events, es, [Begin(u)]);
    var t0 := r.events[|es1|..];
    if Raise(sc, |es|).None? {
      LoopVerdicts(sc, es1, p, u);
      if t0 != [] {
        assert r.events[|r.events| - 1] == t0[|t0| - 1];
      }
    } else {
      assert t0 == [];
    }
    CountAppend([Begin(u)], t0, Verdict);
    CountSingle(Begin(u), Verdict);
  }

  /** A normal trace ends with the verdict matching the convergence answer. */
  lemma NormalTraceLast(t: seq<Event>, u: Solution, uEnd: Solution, ok: bool)
    requires NormalTrace(t, u, uEnd, ok)
    ensures |t| >= 4 && t[|t| - 1] == (if ok then Succeed else Fail)
  {
    assert t[|t| - 1] == t[|t| - 4..][3];
  }

  /** When `execute_` returns, it returns the convergence answer after the matching verdict call. */
  lemma InnerReturned(sc: Script, es: seq<Event>, p: nat, u: Solution)
    requires p <= |sc.proceed|
    ensures var r := InnerRun(sc, es, p, u);
      r.status.Returned? ==>
        |r.events| > |es| + 1 && r.status.ok == sc.converged &&
        r.events[|r.events| - 1] == (if r.status.ok then Succeed else Fail)
  {
    var r := InnerRun(sc, es, p, u);
    var es1 := es + [Begin(u)];
    if Raise(sc, |es|).None? {
      assert r == LoopRun(sc, es1, p, u);
      LoopNormalExit(sc, es1, p, u);
      if r.status.Returned? {
        var t := r.events[|es1|..];
        NormalTraceLast(t, u, r.u, r.status.ok);
        assert r.events[|r.events| - 1] == t[|t| - 1];
      }
    }
  }

  /**
   * When `execute` returns, its last call is newtonSucceed (returning true,
   * which requires convergence) or newtonFail (returning false). It is the
   * only verdict call, unless the verdict call before it raised a
   * NumericalProblem, which `execute` answers with newtonFail.
   */
  lemma ExecuteVerdict(sc: Script, es: seq<Event>, p: nat, u: Solution)
    requires p <= |sc.proceed|
    ensures var r := ExecuteRun(sc, es, p, u);
      r.status.Returned? ==>
        |r.events| > |es| + 1 &&
        r.events[|r.events| - 1] == (if r.status.ok then Succeed else Fail) &&
        (r.status.ok ==> sc.converged) &&
        var n := Count(r.events[|es|..], Verdict);
        (n == 1 || (n == 2 && Is(r.events[|r.events| - 2], Verdict) && Raise(sc, |r.events| - 2) == Some(NumericalProblem)))
  {
    var inner := InnerRun(sc, es, p, u);
    var r := ExecuteRun(sc, es, p, u);
    InnerVerdicts(sc, es, p, u);
    if inner.status != Threw(NumericalProblem) {
      InnerReturned(sc, es, p, u);
    } else if r.status.Returned? {
      InnerThrown(sc, es, p, u);
      assert r.events[|es|..] == inner.events[|es|..] + [Fail];
      CountAppend(inner.events[|es|..], [Fail], Verdict);
      CountSingle(Fail, Verdict);
    }
  }

  /**
   * With a controller that never raises, `execute` returns whether the
   * controller converged, after newtonBegin, complete iterations leading
   * from the initial solution to the final one, the loop guard answering
   * false, newtonEnd, the convergence query and the one verdict.
   */
  lemma ExecuteNormalExit(sc: Script, es: seq<Event>, p: nat, u: Solution)
    requires p <= |sc.proceed| && sc.raises == map[]
    ensures var r := ExecuteRun(sc, es, p, u);
      r.status == Returned(sc.converged) &&
      |r.events| > |es| && r.events[|es|] == Begin(u) && NormalTrace(r.events[|es| + 1..], u, r.u, sc.converged)
  {
    var es1 := es + [Begin(u)];
    var r := LoopRun(sc, es1, p, u);
    LoopThrown(sc, es1, p, u);
    LoopNormalExit(sc, es1, p, u);
    LoopPrefix(sc, es1, p, u);
    assert r.events[|es|] == es1[|es|];
  }
}
