/**
 * The Ecl linearizer: the finite-volume linearizer extended by the time
 * index derivatives are taken with respect to. It hands that focus to the
 * element context before every local linearization and adds the local
 * residuals and Jacobian blocks of the element into the global system.
 *
 * The base linearizer is not part of this model: its domain and auxiliary
 * passes are recorded as calls, and the local linearizer of an element is
 * an input that maps the context's focus time index to the element's local
 * system.
 */
module Ecl {
  import opened Integers
  import opened Linalg
  import Tpfa
  import opened BlackoilContext

  /**
   * What the local linearizer computes for one element: one residual per
   * primary DOF, and `jacobian[d][p]`, the block coupling DOF d of the
   * stencil with primary DOF p.
   */
  datatype LocalSystem = LocalSystem(residual: seq<Vec>, jacobian: seq<seq<Block>>)

  /** How the local linearizer ended: with the element's local system, or by raising. */
  datatype LocalResult = Linearized(system: LocalSystem) | LocalRaised(e: Tpfa.Exc)

  /**
   * An element as the scatter sees it: the global space index of each DOF of
   * its stencil at time index 0 (the primary DOFs first) and its local
   * linearization as a function of the focus time index, which may raise
   * (the element context's own checks included).
   */
  datatype Element = Element(numPrimaryDof: nat, globalIndex: seq<nat>, linearize: Unsigned -> LocalResult)

  /** The local system matches the element's stencil. */
  predicate WfLocal(elem: Element, local: LocalSystem)
  {
    |local.residual| == elem.numPrimaryDof &&
    |local.jacobian| == |elem.globalIndex| &&
    forall d :: 0 <= d < |local.jacobian| ==> |local.jacobian[d]| == elem.numPrimaryDof
  }

  /** The element fits a global system with numRows DOFs, whatever the focus. */
  predicate WfElement(elem: Element, numRows: nat)
  {
    elem.numPrimaryDof <= |elem.globalIndex| &&
    (forall k :: 0 <= k < |elem.globalIndex| ==> elem.globalIndex[k] < numRows) &&
    forall focus: Unsigned :: elem.linearize(focus).Linearized? ==> WfLocal(elem, elem.linearize(focus).system)
  }

  /** The indices gi[lo..hi] are pairwise different. */
  predicate Distinct(gi: seq<nat>, lo: nat, hi: nat)
    requires lo <= hi <= |gi|
  {
    forall a, b :: lo <= a < b < hi ==> gi[a] != gi[b]
  }

  /** Row j of every block column: column p of the local Jacobian. */
  function Column(jacobian: seq<seq<Block>>, p: nat): (col: seq<Block>)
    requires forall d :: 0 <= d < |jacobian| ==> p < |jacobian[d]|
    ensures |col| == |jacobian| && forall d :: 0 <= d < |col| ==> col[d] == jacobian[d][p]
  {
    seq(|jacobian|, d requires 0 <= d < |jacobian| => jacobian[d][p])
  }

  // ---------------------------------------------------------------------
  // The scatter, as passes over the primary DOFs p.. and the DOFs d..

  /** The residual after the residuals of primary DOFs p.. are added to their rows. */
  function ResidualPass(res: seq<Vec>, gi: seq<nat>, r: seq<Vec>, p: nat): (out: seq<Vec>)
    requires p <= |r| <= |gi|
    requires forall k :: 0 <= k < |gi| ==> gi[k] < |res|
    ensures |out| == |res|
    decreases |r| - p
  {
    if p == |r| then res
    else ResidualPass(res[gi[p] := Add(res[gi[p]], r[p])], gi, r, p + 1)
  }

  /** The blocks after blocks (gi[d], c) accumulate col[d] for the DOFs d.. */
  function ColumnPass(blocks: Tpfa.Blocks, n: nat, gi: seq<nat>, col: seq<Block>, c: nat, d: nat): Tpfa.Blocks
    requires d <= |gi| == |col|
    decreases |gi| - d
  {
    if d == |gi| then blocks
    else ColumnPass(Tpfa.AddToBlock(blocks, n, gi[d], c, col[d]), n, gi, col, c, d + 1)
  }

  /** The blocks after the Jacobian columns of primary DOFs p.. are scattered. */
  function JacobianPass(blocks: Tpfa.Blocks, n: nat, gi: seq<nat>, jac: seq<seq<Block>>, np: nat, p: nat): Tpfa.Blocks
    requires p <= np <= |gi| == |jac|
    requires forall d :: 0 <= d < |jac| ==> np <= |jac[d]|
    decreases np - p
  {
    if p == np then blocks
    else JacobianPass(ColumnPass(blocks, n, gi, Column(jac, p), gi[p], 0), n, gi, jac, np, p + 1)
  }

  // ---------------------------------------------------------------------
  // What the passes compute.

  /** A residual row no primary DOF p.. maps to is left unchanged. */
  lemma {:induction false} ResidualPassOutside(res: seq<Vec>, gi: seq<nat>, r: seq<Vec>, p: nat, g: nat)
    requires p <= |r| <= |gi|
    requires forall k :: 0 <= k < |gi| ==> gi[k] < |res|
    requires g < |res| && forall q :: p <= q < |r| ==> gi[q] != g
    ensures ResidualPass(res, gi, r, p)[g] == res[g]
    decreases |r| - p
  {
    if p < |r| {
      ResidualPassOutside(res[gi[p] := Add(res[gi[p]], r[p])], gi, r, p + 1, g);
    }
  }

  /** With distinct rows, the row of primary DOF q gains exactly its residual. */
  lemma {:induction false} ResidualPassAt(res: seq<Vec>, gi: seq<nat>, r: seq<Vec>, p: nat, q: nat)
    requires p <= q < |r| <= |gi| && Distinct(gi, p, |r|)
    requires forall k :: 0 <= k < |gi| ==> gi[k] < |res|
    ensures ResidualPass(res, gi, r, p)[gi[q]] == Add(res[gi[q]], r[q])
    decreases |r| - p
  {
    var next := res[gi[p] := Add(res[gi[p]], r[p])];
    if q == p {
      ResidualPassOutside(next, gi, r, p + 1, gi[p]);
    } else {
      ResidualPassAt(next, gi, r, p + 1, q);
    }
  }

  /** A column pass into column c keeps every block it does not address. */
  lemma {:induction false} ColumnPassOutside(blocks: Tpfa.Blocks, n: nat, gi: seq<nat>, col: seq<Block>, c: nat, d: nat, key: (nat, nat))
    requires d <= |gi| == |col|
    requires key.1 != c || forall e :: d <= e < |gi| ==> gi[e] != key.0
    ensures var out := ColumnPass(blocks, n, gi, col, c, d);
      (key in out <==> key in blocks) && (key in blocks ==> out[key] == blocks[key])
    decreases |gi| - d
  {
    if d < |gi| {
      ColumnPassOutside(Tpfa.AddToBlock(blocks, n, gi[d], c, col[d]), n, gi, col, c, d + 1, key);
    }
  }

  /** With distinct rows, block (gi[e], c) gains exactly col[e]. */
  lemma {:induction false} ColumnPassAt(blocks: Tpfa.Blocks, n: nat, gi: seq<nat>, col: seq<Block>, c: nat, d: nat, e: nat)
    requires d <= e < |gi| == |col| && Distinct(gi, d, |gi|)
    ensures Tpfa.BlockAt(ColumnPass(blocks, n, gi, col, c, d), n, gi[e], c) == BlockAdd(Tpfa.BlockAt(blocks, n, gi[e], c), col[e])
    decreases |gi| - d
  {
    var next := Tpfa.AddToBlock(blocks, n, gi[d], c, col[d]);
    if e == d {
      ColumnPassOutside(next, n, gi, col, c, d + 1, (gi[e], c));
      assert (gi[e], c) in next;
    } else {
      assert gi[d] != gi[e];
      assert Tpfa.BlockAt(next, n, gi[e], c) == Tpfa.BlockAt(blocks, n, gi[e], c);
      ColumnPassAt(next, n, gi, col, c, d + 1, e);
    }
  }

  /** The Jacobian scatter keeps every block outside the columns of primary DOFs p.. and outside the stencil's rows. */
  lemma {:induction false} JacobianPassOutside(blocks: Tpfa.Blocks, n: nat, gi: seq<nat>, jac: seq<seq<Block>>, np: nat, p: nat, key: (nat, nat))
    requires p <= np <= |gi| == |jac|
    requires forall d :: 0 <= d < |jac| ==> np <= |jac[d]|
    requires (forall q :: p <= q < np ==> gi[q] != key.1) || (forall e :: 0 <= e < |gi| ==> gi[e] != key.0)
    ensures var out := JacobianPass(blocks, n, gi, jac, np, p);
      (key in out <==> key in blocks) && (key in blocks ==> out[key] == blocks[key])
    decreases np - p
  {
    if p < np {
      ColumnPassOutside(blocks, n, gi, Column(jac, p), gi[p], 0, key);
      JacobianPassOutside(ColumnPass(blocks, n, gi, Column(jac, p), gi[p], 0), n, gi, jac, np, p + 1, key);
    }
  }

  /**
   * With a stencil of distinct DOFs, block (gi[d], gi[q]) gains exactly the
   * local block jac[d][q], for every DOF d and every primary DOF q from p on.
   */
  lemma {:induction false} JacobianPassAt(blocks: Tpfa.Blocks, n: nat, gi: seq<nat>, jac: seq<seq<Block>>, np: nat, p: nat, d: nat, q: nat)
    requires p <= q < np <= |gi| == |jac| && d < |gi| && Distinct(gi, 0, |gi|)
    requires forall e :: 0 <= e < |jac| ==> np <= |jac[e]|
    ensures Tpfa.BlockAt(JacobianPass(blocks, n, gi, jac, np, p), n, gi[d], gi[q]) ==
      BlockAdd(Tpfa.BlockAt(blocks, n, gi[d], gi[q]), jac[d][q])
    decreases np - p
  {
    var next := ColumnPass(blocks, n, gi, Column(jac, p), gi[p], 0);
    if q == p {
      JacobianPassOutside(next, n, gi, jac, np, p + 1, (gi[d], gi[q]));
      ColumnPassAt(blocks, n, gi, Column(jac, p), gi[p], 0, d);
    } else {
      ColumnPassOutside(blocks, n, gi, Column(jac, p), gi[p], 0, (gi[d], gi[q]));
      JacobianPassAt(next, n, gi, jac, np, p + 1, d, q);
    }
  }

  // ---------------------------------------------------------------------
  // The linearizer.

  /** A call into the base linearizer, which this model does not cover. */
  datatype BaseCall = LinearizeDomainPass | LinearizeAuxiliaryEquations

  class EclLinearizer {
    /** numEq: the size of a Jacobian block. */
    const numEq: nat
    /** The element context of the (single modelled) thread. */
    const elementCtx: BlackoilElementContext
    var focusTimeIndex: Signed
    var residual: seq<Vec>
    var jacobian: Tpfa.Blocks
    var baseCalls: seq<BaseCall>

    /**
     * The C++ constructor leaves `focusTimeIndex_` uninitialized; the model
     * takes that indeterminate value as a parameter.
     */
    constructor (numEq: nat, elementCtx: BlackoilElementContext, residual: seq<Vec>, jacobian: Tpfa.Blocks, focusTimeIndex: Signed)
      ensures this.numEq == numEq && this.elementCtx == elementCtx
      ensures this.residual == residual && this.jacobian == jacobian && this.focusTimeIndex == focusTimeIndex
      ensures baseCalls == []
    {
      this.numEq := numEq;
      this.elementCtx := elementCtx;
      this.residual := residual;
      this.jacobian := jacobian;
      this.focusTimeIndex := focusTimeIndex;
      baseCalls := [];
    }

    /**
     * `linearizeDomain`: stores the focus, then runs the base domain pass,
     * whose outcome (`NumericalIssue` when a process failed) is given as
     * `baseOutcome` and escapes unchanged.
     */
    method LinearizeDomain(focusTimeIdx: Unsigned, baseOutcome: Tpfa.Status) returns (status: Tpfa.Status)
      modifies this
      ensures focusTimeIndex == ToSigned(focusTimeIdx) && ToUnsigned(focusTimeIndex) == focusTimeIdx
      ensures baseCalls == old(baseCalls) + [LinearizeDomainPass]
      ensures status == baseOutcome
      ensures residual == old(residual) && jacobian == old(jacobian)
    {
      focusTimeIndex := ToSigned(focusTimeIdx);
      UnsignedRoundTrip(focusTimeIdx);
      baseCalls := baseCalls + [LinearizeDomainPass];
      status := baseOutcome;
    }

    /**
     * `linearize`: the domain pass with the given focus, then the auxiliary
     * equations, in that order; an exception of the domain pass escapes
     * before the auxiliary equations run. `domainOutcome` and `auxOutcome`
     * are the outcomes of the two base passes. C++ callers that omit the
     * argument pass 0.
     */
    method Linearize(focusTimeIdx: Unsigned, domainOutcome: Tpfa.Status, auxOutcome: Tpfa.Status) returns (status: Tpfa.Status)
      modifies this
      ensures ToUnsigned(focusTimeIndex) == focusTimeIdx
      ensures domainOutcome.Raised? ==> status == domainOutcome && baseCalls == old(baseCalls) + [LinearizeDomainPass]
      ensures domainOutcome.Done? ==>
        status == auxOutcome && baseCalls == old(baseCalls) + [LinearizeDomainPass, LinearizeAuxiliaryEquations]
      ensures residual == old(residual) && jacobian == old(jacobian)
    {
      status := LinearizeDomain(focusTimeIdx, domainOutcome);
      if status.Raised? {
        return;
      }
      baseCalls := baseCalls + [LinearizeAuxiliaryEquations];
      status := auxOutcome;
    }

    /** The inner scatter loop: block (gi[d], globI) accumulates col[d] for every DOF d. */
    method ScatterColumn(gi: seq<nat>, col: seq<Block>, globI: nat)
      requires |gi| == |col|
      modifies this
      ensures jacobian == ColumnPass(old(jacobian), numEq, gi, col, globI, 0)
      ensures residual == old(residual) && focusTimeIndex == old(focusTimeIndex) && baseCalls == old(baseCalls)
    {
      var d := 0;
      while d < |gi|
        invariant d <= |gi| && residual == old(residual) && focusTimeIndex == old(focusTimeIndex) && baseCalls == old(baseCalls)
        invariant ColumnPass(jacobian, numEq, gi, col, globI, d) == ColumnPass(old(jacobian), numEq, gi, col, globI, 0)
      {
        jacobian := Tpfa.AddToBlock(jacobian, numEq, gi[d], globI, col[d]);
        d := d + 1;
      }
    }

    /**
     * `linearizeElement_`: focuses the element context on the linearizer's
     * time index, linearizes the element locally under that focus, and adds
     * residual p to row gi[p] and local block (d, p) to block (gi[d], gi[p])
     * for every primary DOF p and every DOF d of the stencil. When the local
     * linearizer raises, the exception escapes before the scatter.
     */
    method LinearizeElement(elem: Element) returns (outcome: LocalResult)
      requires WfElement(elem, |residual|)
      modifies this, elementCtx
      ensures elementCtx.FocusTimeIndex() == ToUnsigned(focusTimeIndex)
      ensures outcome == elem.linearize(ToUnsigned(focusTimeIndex))
      ensures elementCtx.priVars == old(elementCtx.priVars) && elementCtx.intQuants == old(elementCtx.intQuants)
      ensures focusTimeIndex == old(focusTimeIndex) && baseCalls == old(baseCalls)
      ensures outcome.LocalRaised? ==> residual == old(residual) && jacobian == old(jacobian)
      ensures outcome.Linearized? ==>
        && residual == ResidualPass(old(residual), elem.globalIndex, outcome.system.residual, 0)
        && jacobian == JacobianPass(old(jacobian), numEq, elem.globalIndex, outcome.system.jacobian, elem.numPrimaryDof, 0)
    {
      elementCtx.SetFocusTimeIndex(ToUnsigned(focusTimeIndex));
      outcome := elem.linearize(elementCtx.FocusTimeIndex());
      if outcome.LocalRaised? {
        return;
      }
      var local := outcome.system;
      assert WfLocal(elem, local);
      Scatter(elem.globalIndex, local, elem.numPrimaryDof);
    }

    /**
     * The scatter loop of `linearizeElement_`: for every primary DOF p in
     * order, residual p goes into row gi[p] and local block (d, p) into block
     * (gi[d], gi[p]) for every DOF d.
     */
    method Scatter(gi: seq<nat>, local: LocalSystem, np: nat)
      requires np <= |gi| == |local.jacobian| && np == |local.residual|
      requires forall k :: 0 <= k < |gi| ==> gi[k] < |residual|
      requires forall d :: 0 <= d < |local.jacobian| ==> np <= |local.jacobian[d]|
      modifies this
      ensures focusTimeIndex == old(focusTimeIndex) && baseCalls == old(baseCalls)
      ensures residual == ResidualPass(old(residual), gi, local.residual, 0)
      ensures jacobian == JacobianPass(old(jacobian), numEq, gi, local.jacobian, np, 0)
    {
      var p := 0;
      while p < np
        invariant p <= np && |residual| == |old(residual)|
        invariant focusTimeIndex == old(focusTimeIndex) && baseCalls == old(baseCalls)
        invariant ResidualPass(residual, gi, local.residual, p) == ResidualPass(old(residual), gi, local.residual, 0)
        invariant JacobianPass(jacobian, numEq, gi, local.jacobian, np, p) == JacobianPass(old(jacobian), numEq, gi, local.jacobian, np, 0)
      {
        ScatterPrimary(gi, local, np, p);
        p := p + 1;
      }
    }

    /**
     * The loop body of `linearizeElement_` for primary DOF p: its residual
     * goes into row gi[p], its Jacobian column into column gi[p]; both passes
     * then go on from p + 1.
     */
    method ScatterPrimary(gi: seq<nat>, local: LocalSystem, np: nat, p: nat)
      requires p < np <= |gi| == |local.jacobian| && np == |local.residual|
      requires forall k :: 0 <= k < |gi| ==> gi[k] < |residual|
      requires forall d :: 0 <= d < |local.jacobian| ==> np <= |local.jacobian[d]|
      modifies this
      ensures |residual| == |old(residual)|
      ensures focusTimeIndex == old(focusTimeIndex) && baseCalls == old(baseCalls)
      ensures ResidualPass(residual, gi, local.residual, p + 1) == ResidualPass(old(residual), gi, local.residual, p)
      ensures JacobianPass(jacobian, numEq, gi, local.jacobian, np, p + 1) == JacobianPass(old(jacobian), numEq, gi, local.jacobian, np, p)
    {
      var globI := gi[p];
      residual := residual[globI := Add(residual[globI], local.residual[p])];
      ScatterColumn(gi, Column(local.jacobian, p), globI);
    }
  }
}
