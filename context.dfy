/**
 * The Blackoil element context: the element context of the finite-volume
 * discretization extended by the time index the automatic differentiation
 * is focused on. Per DOF of the current stencil and per time index it holds
 * primary variables and intensive quantities; the base context that builds
 * the stencil and sizes these tables is not part of this model, so the
 * tables are given to the constructor.
 */
module BlackoilContext {
  import opened Integers

  /** The primary variables of one DOF at one time index. */
  type PrimaryVariables = seq<real>

  /**
   * What an intensive-quantities update was given: the primary variables of
   * its slot, the slot, and the focus time index. The fluid physics that
   * turns these into quantities is not modelled.
   */
  datatype IntensiveQuantities =
    | NotEvaluated
    | Evaluated(priVars: PrimaryVariables, dofIdx: nat, timeIdx: nat, focusTimeIdx: Signed)

  /** Two slot tables with the same number of time indices per DOF. */
  predicate SameShape<T, U>(a: seq<seq<T>>, b: seq<seq<U>>)
  {
    |a| == |b| && forall d :: 0 <= d < |a| ==> |a[d]| == |b[d]|
  }

  /** The slot table with slot (d, t) holding v and every other slot as before. */
  function Written<T>(slots: seq<seq<T>>, d: nat, t: nat, v: T): (r: seq<seq<T>>)
    requires d < |slots| && t < |slots[d]|
    ensures SameShape(r, slots)
    ensures r[d][t] == v
    ensures forall e, s :: 0 <= e < |r| && 0 <= s < |r[e]| && (e != d || s != t) ==> r[e][s] == slots[e][s]
  {
    slots[d := slots[d][t := v]]
  }

  /** Writing one slot twice keeps the second value only. */
  lemma WrittenTwice<T>(slots: seq<seq<T>>, d: nat, t: nat, v: T, w: T)
    requires d < |slots| && t < |slots[d]|
    ensures Written(Written(slots, d, t, v), d, t, w) == Written(slots, d, t, w)
  {
    var a := Written(Written(slots, d, t, v), d, t, w);
    var b := Written(slots, d, t, w);
    assert forall e :: 0 <= e < |a| ==> a[e] == b[e];
  }

  /** Writes to two different slots commute. */
  lemma WrittenCommute<T>(slots: seq<seq<T>>, d: nat, t: nat, v: T, d': nat, t': nat, w: T)
    requires d < |slots| && t < |slots[d]| && d' < |slots| && t' < |slots[d']|
    requires d != d' || t != t'
    ensures Written(Written(slots, d, t, v), d', t', w) == Written(Written(slots, d', t', w), d, t, v)
  {
    var a := Written(Written(slots, d, t, v), d', t', w);
    var b := Written(Written(slots, d', t', w), d, t, v);
    assert forall e :: 0 <= e < |a| ==> a[e] == b[e];
  }

  /**
   * The debug-build guard of `updateSingleIntQuants_`: with the storage term
   * cached and first-iteration storage recycled, only the intensive
   * quantities of time index 0 may be updated.
   */
  predicate RejectsUpdate(debugChecks: bool, enableStorageCache: bool, recycleFirstIterationStorage: bool, timeIdx: nat)
  {
    debugChecks && enableStorageCache && timeIdx != 0 && recycleFirstIterationStorage
  }

  class BlackoilElementContext {
    /** Built without NDEBUG: the logic_error check is compiled in. */
    const debugChecks: bool
    /** The base context's storage-cache switch. */
    const enableStorageCache: bool
    var focusTimeIdx: Signed
    var priVars: seq<seq<PrimaryVariables>>
    var intQuants: seq<seq<IntensiveQuantities>>

    ghost predicate Valid()
      reads this
    {
      SameShape(priVars, intQuants)
    }

    /** A fresh context is focused on time index 0. */
    constructor (debugChecks: bool, enableStorageCache: bool, slots: seq<seq<PrimaryVariables>>)
      ensures Valid()
      ensures this.debugChecks == debugChecks && this.enableStorageCache == enableStorageCache
      ensures FocusTimeIndex() == 0 && priVars == slots
      ensures forall d, t :: 0 <= d < |intQuants| && 0 <= t < |intQuants[d]| ==> intQuants[d][t] == NotEvaluated
    {
      this.debugChecks := debugChecks;
      this.enableStorageCache := enableStorageCache;
      focusTimeIdx := 0;
      priVars := slots;
      intQuants := seq(|slots|, d requires 0 <= d < |slots| => seq(|slots[d]|, _ => NotEvaluated));
    }

    /** `focusTimeIndex()`: the `int` field read back as `unsigned`. */
    function FocusTimeIndex(): Unsigned
      reads this
    {
      ToUnsigned(focusTimeIdx)
    }

    /** `setFocusTimeIndex`: the next read of the focus returns timeIdx; nothing else changes. */
    method SetFocusTimeIndex(timeIdx: Unsigned)
      modifies this
      ensures FocusTimeIndex() == timeIdx
      ensures priVars == old(priVars) && intQuants == old(intQuants)
    {
      focusTimeIdx := ToSigned(timeIdx);
      UnsignedRoundTrip(timeIdx);
    }

    /**
     * `updateSingleIntQuants_`: unless the debug guard rejects the time
     * index, slot (dofIdx, timeIdx) takes the primary variables and its
     * intensive quantities are updated for the current focus; every other
     * slot and the focus stay as they were. A rejected call changes nothing.
     */
    method UpdateSingleIntQuants(pv: PrimaryVariables, dofIdx: nat, timeIdx: nat, recycleFirstIterationStorage: bool)
      returns (thrown: bool)
      requires Valid() && dofIdx < |priVars| && timeIdx < |priVars[dofIdx]|
      modifies this
      ensures Valid() && focusTimeIdx == old(focusTimeIdx)
      ensures thrown == RejectsUpdate(debugChecks, enableStorageCache, recycleFirstIterationStorage, timeIdx)
      ensures thrown ==> priVars == old(priVars) && intQuants == old(intQuants)
      ensures !thrown ==>
        priVars == Written(old(priVars), dofIdx, timeIdx, pv) &&
        intQuants == Written(old(intQuants), dofIdx, timeIdx, Evaluated(pv, dofIdx, timeIdx, focusTimeIdx))
    {
      if debugChecks && enableStorageCache && timeIdx != 0 && recycleFirstIterationStorage {
        return true;
      }
      priVars := Written(priVars, dofIdx, timeIdx, pv);
      intQuants := Written(intQuants, dofIdx, timeIdx, Evaluated(priVars[dofIdx][timeIdx], dofIdx, timeIdx, focusTimeIdx));
      thrown := false;
    }
  }
}
