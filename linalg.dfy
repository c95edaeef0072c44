/**
 * Dense blocks of the global linear system and the automatic-differentiation
 * (AD) value type. Scalars are mathematical reals (no IEEE rounding).
 *
 * The pointwise operations are total: an entry missing from the second
 * operand counts as zero, and the shape of the result is that of the first
 * operand. Every vector and block the linearizers form has numEq entries
 * (numEq x numEq for a block), so this only fixes a value where C++ has a
 * fixed-size type.
 */
module Linalg {

  /** The equation values of one DOF (a row block of the residual). */
  type Vec = seq<real>

  /** A dense numEq x numEq block of the Jacobian; entry [eq][pv]. */
  type Block = seq<seq<real>>

  /**
   * An AD value: a value and its partial derivatives with respect to the
   * primary variables of the focus DOF.
   */
  datatype Eval = Eval(value: real, derivatives: seq<real>)

  /** One AD value per equation (the `RateVector` of a cell). */
  type AdVec = seq<Eval>

  predicate IsBlock(b: Block, n: nat)
  {
    |b| == n && forall r :: 0 <= r < n ==> |b[r]| == n
  }

  /** numEq components, each with numEq derivatives. */
  predicate IsAdVec(a: AdVec, n: nat)
  {
    |a| == n && forall k :: 0 <= k < n ==> |a[k].derivatives| == n
  }

  function Zero(n: nat): (r: Vec)
    ensures |r| == n
  {
    seq(n, k => 0.0)
  }

  function ZeroBlock(n: nat): (r: Block)
    ensures |r| == n
  {
    Rows(n, Zero(n))
  }
  function Rows(k: nat, v: Vec): (r: Block)
    ensures |r| == k
  {
    seq(k, r => v)
  }

  /** Entry k of v, zero past its end. */
  function Entry(v: Vec, k: nat): real
  {
    if k < |v| then v[k] else 0.0
  }

  function Add(a: Vec, b: Vec): (r: Vec)
    ensures |r| == |a|
  {
    seq(|a|, k requires 0 <= k < |a| => a[k] + Entry(b, k))
  }

  function Sub(a: Vec, b: Vec): (r: Vec)
    ensures |r| == |a|
  {
    seq(|a|, k requires 0 <= k < |a| => a[k] - Entry(b, k))
  }

  /** Row r of b, empty past its end. */
  function RowOf(b: Block, r: nat): Vec
  {
    if r < |b| then b[r] else []
  }

  function BlockAdd(a: Block, b: Block): (r: Block)
    ensures |r| == |a|
  {
    seq(|a|, k requires 0 <= k < |a| => Add(a[k], RowOf(b, k)))
  }

  /** Every entry of v multiplied by s. */
  function Scaled(v: Vec, s: real): (r: Vec)
    ensures |r| == |v|
  {
    seq(|v|, k requires 0 <= k < |v| => v[k] * s)
  }

  /** Every entry of b multiplied by s (`bMat *= s`). */
  function BlockScaled(b: Block, s: real): (r: Block)
    ensures |r| == |b|
  {
    seq(|b|, k requires 0 <= k < |b| => Scaled(b[k], s))
  }

  /** `bMat *= -1.0`. */
  function Negated(b: Block): Block
  {
    BlockScaled(b, -1.0)
  }

  /** Every value and every derivative of a multiplied by s (`adres *= s`). */
  function AdScaled(a: AdVec, s: real): (r: AdVec)
    ensures |r| == |a|
  {
    seq(|a|, k requires 0 <= k < |a| => EvalScaled(a[k], s))
  }

  /** An AD value with its value and every derivative multiplied by s. */
  function EvalScaled(e: Eval, s: real): Eval
  {
    Eval(e.value * s, Scaled(e.derivatives, s))
  }

  /** The plain values of an AD vector. */
  function ValueOf(a: AdVec): (r: Vec)
    ensures |r| == |a|
  {
    seq(|a|, k requires 0 <= k < |a| => a[k].value)
  }

  /** The local Jacobian block of an AD vector: [eq][pv] is derivative pv of component eq. */
  function JacobianOf(a: AdVec): (r: Block)
    ensures |r| == |a|
  {
    seq(|a|, k requires 0 <= k < |a| => a[k].derivatives)
  }

  // ---------------------------------------------------------------------
  // Entries of the pointwise operations.

  lemma ZeroAt(n: nat, k: nat)
    requires k < n
    ensures Zero(n)[k] == 0.0
  {
  }

  lemma RowsAt(m: nat, v: Vec, k: nat)
    requires k < m
    ensures Rows(m, v)[k] == v
  {
  }

  lemma AddAt(a: Vec, b: Vec, k: nat)
    requires k < |a|
    ensures Add(a, b)[k] == a[k] + Entry(b, k)
  {
  }

  lemma SubAt(a: Vec, b: Vec, k: nat)
    requires k < |a|
    ensures Sub(a, b)[k] == a[k] - Entry(b, k)
  {
  }

  lemma BlockAddAt(a: Block, b: Block, k: nat)
    requires k < |a|
    ensures BlockAdd(a, b)[k] == Add(a[k], RowOf(b, k))
  {
  }

  lemma ScaledAt(v: Vec, s: real, k: nat)
    requires k < |v|
    ensures Scaled(v, s)[k] == v[k] * s
  {
  }

  lemma BlockScaledAt(b: Block, s: real, k: nat)
    requires k < |b|
    ensures BlockScaled(b, s)[k] == Scaled(b[k], s)
  {
  }

  lemma AdScaledAt(a: AdVec, s: real, k: nat)
    requires k < |a|
    ensures AdScaled(a, s)[k] == EvalScaled(a[k], s)
  {
  }

  lemma ValueOfAt(a: AdVec, k: nat)
    requires k < |a|
    ensures ValueOf(a)[k] == a[k].value
  {
  }

  lemma JacobianOfAt(a: AdVec, k: nat)
    requires k < |a|
    ensures JacobianOf(a)[k] == a[k].derivatives
  {
  }

  // ---------------------------------------------------------------------
  // Algebra of the pointwise operations.

  lemma ScaledShapes(a: AdVec, s: real, n: nat)
    requires IsAdVec(a, n)
    ensures IsAdVec(AdScaled(a, s), n)
    ensures |ValueOf(AdScaled(a, s))| == n
    ensures IsBlock(JacobianOf(AdScaled(a, s)), n)
  {
    var sa := AdScaled(a, s);
    forall k | 0 <= k < n ensures |sa[k].derivatives| == n && |JacobianOf(sa)[k]| == n {
      AdScaledAt(a, s, k);
      JacobianOfAt(sa, k);
    }
  }

  lemma ZeroBlockShape(n: nat)
    ensures IsBlock(ZeroBlock(n), n)
  {
    forall r | 0 <= r < n ensures |ZeroBlock(n)[r]| == n {
      RowsAt(n, Zero(n), r);
    }
  }

  lemma ZeroAdd(x: Vec)
    ensures Add(Zero(|x|), x) == x
  {
    var l := Add(Zero(|x|), x);
    forall k | 0 <= k < |x| ensures l[k] == x[k] {
      AddAt(Zero(|x|), x, k);
      ZeroAt(|x|, k);
    }
  }

  lemma ZeroBlockAdd(x: Block, n: nat)
    requires IsBlock(x, n)
    ensures BlockAdd(ZeroBlock(n), x) == x
  {
    var l := BlockAdd(ZeroBlock(n), x);
    forall r | 0 <= r < n ensures l[r] == x[r] {
      BlockAddAt(ZeroBlock(n), x, r);
      RowsAt(n, Zero(n), r);
      ZeroAdd(x[r]);
    }
  }

  lemma NegatedShape(x: Block, n: nat)
    requires IsBlock(x, n)
    ensures IsBlock(Negated(x), n)
  {
    forall r | 0 <= r < n ensures |Negated(x)[r]| == n {
      BlockScaledAt(x, -1.0, r);
    }
  }

  /** Taking c away from zero and then adding v is v minus c. */
  lemma SubFromZeroThenAdd(c: Vec, v: Vec)
    requires |c| == |v|
    ensures Add(Sub(Zero(|v|), c), v) == Sub(v, c)
  {
    var n := |v|;
    var l, r := Add(Sub(Zero(n), c), v), Sub(v, c);
    forall k | 0 <= k < n ensures l[k] == r[k] {
      var d := Sub(Zero(n), c);
      AddAt(d, v, k);
      SubAt(Zero(n), c, k);
      SubAt(v, c, k);
      ZeroAt(n, k);
      assert l[k] == d[k] + v[k] && d[k] == 0.0 - c[k] && r[k] == v[k] - c[k];
    }
  }

  lemma SubSelf(v: Vec)
    ensures Sub(v, v) == Zero(|v|)
  {
    var l := Sub(v, v);
    forall k | 0 <= k < |v| ensures l[k] == Zero(|v|)[k] {
      SubAt(v, v, k);
      ZeroAt(|v|, k);
    }
  }

  lemma AddZero(x: Vec)
    ensures Add(x, Zero(|x|)) == x
  {
    var l := Add(x, Zero(|x|));
    forall k | 0 <= k < |x| ensures l[k] == x[k] {
      AddAt(x, Zero(|x|), k);
      ZeroAt(|x|, k);
    }
  }

  lemma AddAssoc(a: Vec, b: Vec, c: Vec)
    requires |a| == |b| == |c|
    ensures Add(Add(a, b), c) == Add(a, Add(b, c))
  {
    var l, r := Add(Add(a, b), c), Add(a, Add(b, c));
    forall k | 0 <= k < |a| ensures l[k] == r[k] {
      AddAt(Add(a, b), c, k);
      AddAt(a, b, k);
      AddAt(a, Add(b, c), k);
      AddAt(b, c, k);
    }
  }

  lemma AddComm(a: Vec, b: Vec)
    requires |a| == |b|
    ensures Add(a, b) == Add(b, a)
  {
    var l, r := Add(a, b), Add(b, a);
    forall k | 0 <= k < |a| ensures l[k] == r[k] {
      AddAt(a, b, k);
      AddAt(b, a, k);
    }
  }

  lemma BlockAddAssoc(a: Block, b: Block, c: Block, n: nat)
    requires IsBlock(a, n) && IsBlock(b, n) && IsBlock(c, n)
    ensures BlockAdd(BlockAdd(a, b), c) == BlockAdd(a, BlockAdd(b, c))
  {
    var l, r := BlockAdd(BlockAdd(a, b), c), BlockAdd(a, BlockAdd(b, c));
    forall k | 0 <= k < n ensures l[k] == r[k] {
      BlockAddAt(BlockAdd(a, b), c, k);
      BlockAddAt(a, b, k);
      BlockAddAt(a, BlockAdd(b, c), k);
      BlockAddAt(b, c, k);
      AddAssoc(a[k], b[k], c[k]);
    }
  }

  lemma BlockAddShape(a: Block, b: Block, n: nat)
    requires IsBlock(a, n)
    ensures IsBlock(BlockAdd(a, b), n)
  {
    forall k | 0 <= k < n ensures |BlockAdd(a, b)[k]| == n {
      BlockAddAt(a, b, k);
    }
  }

  /** x + (-x) is the zero block. */
  lemma BlockAddNegated(x: Block, n: nat)
    requires IsBlock(x, n)
    ensures BlockAdd(x, Negated(x)) == ZeroBlock(n)
  {
    var l := BlockAdd(x, Negated(x));
    forall r | 0 <= r < n ensures l[r] == ZeroBlock(n)[r] {
      BlockAddAt(x, Negated(x), r);
      BlockScaledAt(x, -1.0, r);
      RowsAt(n, Zero(n), r);
      var row := l[r];
      forall k | 0 <= k < n ensures row[k] == Zero(n)[k] {
        AddAt(x[r], Scaled(x[r], -1.0), k);
        ScaledAt(x[r], -1.0, k);
        ZeroAt(n, k);
      }
    }
  }

  lemma BlockAddZero(x: Block, n: nat)
    requires IsBlock(x, n)
    ensures BlockAdd(x, ZeroBlock(n)) == x
  {
    var l := BlockAdd(x, ZeroBlock(n));
    forall r | 0 <= r < n ensures l[r] == x[r] {
      BlockAddAt(x, ZeroBlock(n), r);
      RowsAt(n, Zero(n), r);
      var row := l[r];
      forall k | 0 <= k < n ensures row[k] == x[r][k] {
        AddAt(x[r], Zero(n), k);
        ZeroAt(n, k);
      }
    }
  }

  lemma BlockAddComm(a: Block, b: Block, n: nat)
    requires IsBlock(a, n) && IsBlock(b, n)
    ensures BlockAdd(a, b) == BlockAdd(b, a)
  {
    var l, r := BlockAdd(a, b), BlockAdd(b, a);
    forall k | 0 <= k < n ensures l[k] == r[k] {
      BlockAddAt(a, b, k);
      BlockAddAt(b, a, k);
      AddComm(a[k], b[k]);
    }
  }

  // ---------------------------------------------------------------------
  // Sums of blocks.

  predicate AllBlocks(fs: seq<Block>, n: nat)
  {
    forall l :: 0 <= l < |fs| ==> IsBlock(fs[l], n)
  }

  /** s plus every block of fs, added left to right. */
  function BlockTotal(s: Block, fs: seq<Block>): (t: Block)
    ensures |t| == |s|
    decreases |fs|
  {
    if fs == [] then s else BlockAdd(BlockTotal(s, fs[..|fs| - 1]), fs[|fs| - 1])
  }

  /** The negation of every block of fs. */
  function Negateds(fs: seq<Block>): (gs: seq<Block>)
    ensures |gs| == |fs|
  {
    seq(|fs|, l requires 0 <= l < |fs| => Negated(fs[l]))
  }

  lemma {:induction false} BlockTotalShape(s: Block, fs: seq<Block>, n: nat)
    requires IsBlock(s, n)
    ensures IsBlock(BlockTotal(s, fs), n)
    decreases |fs|
  {
    if fs != [] {
      BlockTotalShape(s, fs[..|fs| - 1], n);
      BlockAddShape(BlockTotal(s, fs[..|fs| - 1]), fs[|fs| - 1], n);
    }
  }

  /** A block added to the start of a sum can be added at its end instead. */
  lemma {:induction false} BlockTotalShift(x: Block, f: Block, ys: seq<Block>, n: nat)
    requires IsBlock(x, n) && IsBlock(f, n) && AllBlocks(ys, n)
    ensures BlockTotal(BlockAdd(x, f), ys) == BlockAdd(BlockTotal(x, ys), f)
    decreases |ys|
  {
    if ys != [] {
      var front, y := ys[..|ys| - 1], ys[|ys| - 1];
      var t := BlockTotal(x, front);
      BlockTotalShift(x, f, front, n);
      BlockTotalShape(x, front, n);
      BlockAddAssoc(t, f, y, n);
      BlockAddComm(f, y, n);
      BlockAddAssoc(t, y, f, n);
    }
  }

  /** Adding every block of fs and then every negation of them gives back s. */
  lemma {:induction false} BlockTotalNegated(s: Block, fs: seq<Block>, n: nat)
    requires IsBlock(s, n) && AllBlocks(fs, n)
    ensures BlockTotal(BlockTotal(s, fs), Negateds(fs)) == s
    decreases |fs|
  {
    if fs != [] {
      var front, f := fs[..|fs| - 1], fs[|fs| - 1];
      var t := BlockTotal(s, front);
      assert Negateds(fs)[..|fs| - 1] == Negateds(front);
      BlockTotalShape(s, front, n);
      NegatedShape(f, n);
      assert AllBlocks(Negateds(front), n) by {
        forall l | 0 <= l < |front| ensures IsBlock(Negateds(front)[l], n) {
          NegatedShape(front[l], n);
        }
      }
      BlockTotalShift(t, f, Negateds(front), n);
      BlockTotalNegated(s, front, n);
      BlockAddAssoc(s, f, Negated(f), n);
      BlockAddNegated(f, n);
      BlockAddZero(s, n);
    }
  }
}
