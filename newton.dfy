/**
 * The Newton driver (`NewtonMethod::execute` and `execute_`).
 *
 * The driver is a small state machine over a pluggable controller that takes
 * every strategic decision. Here the controller is a scripted object: it
 * answers `newtonProceed` from a fixed list, `newtonConverged` with a fixed
 * flag, writes a scripted correction in `newtonSolveLinear`, sets the new
 * iterate to `last - delta` in `newtonUpdate`, and raises a scripted
 * exception at chosen calls. It records every call it receives, with the
 * vectors passed to it, as an event trace.
 *
 * The specification is the functional reference `ExecuteRun`, which says
 * which events the controller sees, what the driver returns or throws and
 * what the solution becomes. The lemmas below it state what the driver
 * promises: the call order, one iteration per `true` answer, exactly one of
 * `newtonSucceed`/`newtonFail` at the end, and the translation of exceptions.
 */
module Newton {
  import opened Wrappers

  /**
   * Exceptions a controller call can raise. `NumericalProblem` is the
   * recoverable failure of the simulator; `DuneError` is any other
   * `Dune::Exception`; `OtherError` is any exception outside that hierarchy.
   */
  datatype Exc = NumericalProblem | DuneError | OtherError

  /** Is e caught by `catch (const Dune::Exception &)`? */
  predicate IsDune(e: Exc)
  {
    e != OtherError
  }

  /** What the end-of-step handler lets escape: every Dune exception becomes a NumericalProblem. */
  function EndStepEscape(e: Exc): (t: Exc)
    ensures IsDune(e) ==> t == NumericalProblem
    ensures !IsDune(e) ==> t == e
  {
    if IsDune(e) then NumericalProblem else e
  }

  /** A solution vector, or a correction to one. */
  type Solution = seq<real>

  /** `deltaU = 0`: the zero vector of length n. */
  function Cleared(n: nat): (z: Solution)
    ensures |z| == n && forall k :: 0 <= k < n ==> z[k] == 0.0
  {
    seq(n, _ => 0.0)
  }

  /** The iterate `last - delta` that the update step forms. */
  function Updated(last: Solution, delta: Solution): (v: Solution)
    requires |delta| == |last|
    ensures |v| == |last| && forall k :: 0 <= k < |last| ==> v[k] == last[k] - delta[k]
  {
    seq(|last|, k requires 0 <= k < |last| => last[k] - delta[k])
  }

  /** One call into the controller, with the vectors it was given. */
  datatype Event =
    | Begin(u: Solution)
    | Proceed(u: Solution, answer: bool)
    | BeginStep
    | Assemble
    | SolveLinear(deltaIn: Solution)
    | UpdateErrors(cur: Solution, last: Solution, delta: Solution)
    | Update(cur: Solution, last: Solution, delta: Solution)
    | EndStep(cur: Solution, last: Solution)
    | End
    | Converged(answer: bool)
    | Fail
    | Succeed

  /**
   * The controller's script: the answers of successive `newtonProceed` calls
   * (false once they run out), the answer of `newtonConverged`, the exception
   * raised by the call with a given position in the trace, and entry k of the
   * correction written by the `newtonSolveLinear` call at a given position.
   */
  datatype Script = Script(proceed: seq<bool>, converged: bool, raises: map<nat, Exc>, solve: (nat, nat) -> real)

  /** The exception the call at trace position c raises, if any. */
  function Raise(sc: Script, c: nat): Option<Exc>
  {
    if c in sc.raises then Some(sc.raises[c]) else None
  }

  /** The answer of the p-th `newtonProceed` call. */
  predicate Answer(sc: Script, p: nat)
  {
    p < |sc.proceed| && sc.proceed[p]
  }

  /** The correction of length n written by the solve call at trace position c. */
  function Solved(sc: Script, c: nat, n: nat): (d: Solution)
    ensures |d| == n
  {
    seq(n, k requires 0 <= k < n => sc.solve(c, k))
  }

  /** How a run of the driver, or part of it, ends. */
  datatype Status = Running | Returned(ok: bool) | Threw(exc: Exc)

  /** A run: how it ended, the controller's trace, `newtonProceed` calls so far, the solution. */
  datatype Run = Run(status: Status, events: seq<Event>, proceedCalls: nat, u: Solution)

  /**
   * The calls of one iteration from iterate u with correction delta, in
   * order: the loop guard answering true, begin-step, assemble, the solve
   * (into a zeroed correction), the error update and the solution update
   * (both while the current iterate still equals the last one), and the
   * end-step (with the updated iterate).
   */
  function Cycle(u: Solution, delta: Solution): (t: seq<Event>)
    requires |delta| == |u|
    ensures |t| == 7
  {
    [Proceed(u, true), BeginStep, Assemble, SolveLinear(Cleared(|u|)), UpdateErrors(u, u, delta), Update(u, u, delta), EndStep(Updated(u, delta), u)]
  }

  /**
   * Calls m to 5 of an iteration (entries m + 1 to 6 of its cycle). The iteration stops at the first call that
   * raises; only an exception from `newtonEndStep` is translated, and the
   * update has taken effect only once `newtonUpdate` has returned.
   */
  function StepsRun(sc: Script, es: seq<Event>, p: nat, u: Solution, delta: Solution, m: nat): (r: Run)
    requires m <= 6 && |delta| == |u|
    ensures r.status.Running? || r.status.Threw?
    decreases 6 - m
  {
    if m == 6 then Run(Running, es, p, Updated(u, delta))
    else
      var es1 := es + [Cycle(u, delta)[m + 1]];
      match Raise(sc, |es|)
      case Some(e) => Run(Threw(if m == 5 then EndStepEscape(e) else e), es1, p, if m == 5 then Updated(u, delta) else u)
      case None => StepsRun(sc, es1, p, u, delta, m + 1)
  }

  /** One iteration after `newtonProceed` said true; the solve call is the third. */
  function IterationRun(sc: Script, es: seq<Event>, p: nat, u: Solution): Run
  {
    StepsRun(sc, es, p, u, Solved(sc, |es| + 2, |u|), 0)
  }

  /** `newtonEnd`, `newtonConverged`, then `newtonFail` and false or `newtonSucceed` and true. */
  function FinishRun(sc: Script, es: seq<Event>, p: nat, u: Solution): Run
  {
    var c := |es|;
    if Raise(sc, c).Some? then Run(Threw(Raise(sc, c).value), es + [End], p, u)
    else if Raise(sc, c + 1).Some? then Run(Threw(Raise(sc, c + 1).value), es + [End, Converged(false)], p, u)
    else
      var es1 := es + [End, Converged(sc.converged), if sc.converged then Succeed else Fail];
      if Raise(sc, c + 2).Some? then Run(Threw(Raise(sc, c + 2).value), es1, p, u)
      else Run(Returned(sc.converged), es1, p, u)
  }

  /**
   * One test of the loop guard and, when it answers true, one iteration;
   * Running means the loop goes on. When it answers false the calls after
   * the loop follow.
   */
  function RoundRun(sc: Script, es: seq<Event>, p: nat, u: Solution): (r: Run)
    ensures r.status.Running? ==> r.proceedCalls == p + 1 <= |sc.proceed|
  {
    var c := |es|;
    var answer := Raise(sc, c).None? && Answer(sc, p);
    var es1 := es + [Proceed(u, answer)];
    if Raise(sc, c).Some? then Run(Threw(Raise(sc, c).value), es1, p + 1, u)
    else if !answer then FinishRun(sc, es1, p + 1, u)
    else IterationRun(sc, es1, p + 1, u)
  }

  /** The `while (ctl.newtonProceed(uCurrentIter))` loop and what follows it. */
  function LoopRun(sc: Script, es: seq<Event>, p: nat, u: Solution): (r: Run)
    requires p <= |sc.proceed|
    ensures !r.status.Running?
    decreases |sc.proceed| - p
  {
    var r := RoundRun(sc, es, p, u);
    if r.status.Running? then LoopRun(sc, r.events, r.proceedCalls, r.u) else r
  }

  /** `execute_`: `newtonBegin`, then the loop. */
  function InnerRun(sc: Script, es: seq<Event>, p: nat, u: Solution): Run
    requires p <= |sc.proceed|
  {
    var es1 := es + [Begin(u)];
    if Raise(sc, |es|).Some? then Run(Threw(Raise(sc, |es|).value), es1, p, u)
    else LoopRun(sc, es1, p, u)
  }

  /** `execute`: a NumericalProblem escaping `execute_` becomes `newtonFail` and false. */
  function ExecuteRun(sc: Script, es: seq<Event>, p: nat, u: Solution): Run
    requires p <= |sc.proceed|
  {
    var r := InnerRun(sc, es, p, u);
    if r.status != Threw(NumericalProblem) then r
    else
      var failed := Raise(sc, |r.events|);
      Run(if failed.Some? then Threw(failed.value) else Returned(false), r.events + [Fail], r.proceedCalls, r.u)
  }

  /** A controller answering and raising from a script, recording every call. */
  class ScriptedController {
    const script: Script
    var events: seq<Event>
    var proceedCalls: nat

    constructor (script: Script)
      ensures this.script == script && events == [] && proceedCalls == 0
    {
      this.script := script;
      events := [];
      proceedCalls := 0;
    }

    /** Records a call and raises what the script says for its position. */
    method Record(e: Event) returns (raised: Option<Exc>)
      modifies this
      ensures events == old(events) + [e] && proceedCalls == old(proceedCalls)
      ensures raised == Raise(script, |old(events)|)
    {
      raised := Raise(script, |events|);
      events := events + [e];
    }

    method NewtonBegin(u: Solution) returns (raised: Option<Exc>)
      modifies this
      ensures events == old(events) + [Begin(u)] && proceedCalls == old(proceedCalls)
      ensures raised == Raise(script, |old(events)|)
    {
      raised := Record(Begin(u));
    }

    method NewtonProceed(u: Solution) returns (proceed: bool, raised: Option<Exc>)
      modifies this
      ensures raised == Raise(script, |old(events)|)
      ensures proceed == (raised.None? && Answer(script, old(proceedCalls)))
      ensures events == old(events) + [Proceed(u, proceed)] && proceedCalls == old(proceedCalls) + 1
    {
      raised := Raise(script, |events|);
      proceed := raised.None? && Answer(script, proceedCalls);
      events := events + [Proceed(u, proceed)];
      proceedCalls := proceedCalls + 1;
    }

    method NewtonBeginStep() returns (raised: Option<Exc>)
      modifies this
      ensures events == old(events) + [BeginStep] && proceedCalls == old(proceedCalls)
      ensures raised == Raise(script, |old(events)|)
    {
      raised := Record(BeginStep);
    }

    method NewtonAssemble() returns (raised: Option<Exc>)
      modifies this
      ensures events == old(events) + [Assemble] && proceedCalls == old(proceedCalls)
      ensures raised == Raise(script, |old(events)|)
    {
      raised := Record(Assemble);
    }

    /** Writes the scripted correction into delta, unless the call raises. */
    method NewtonSolveLinear(delta: array<real>) returns (raised: Option<Exc>)
      modifies this, delta
      ensures events == old(events) + [SolveLinear(old(delta[..]))] && proceedCalls == old(proceedCalls)
      ensures raised == Raise(script, |old(events)|)
      ensures delta[..] == if raised.Some? then old(delta[..]) else Solved(script, |old(events)|, delta.Length)
    {
      var c := |events|;
      raised := Record(SolveLinear(delta[..]));
      if raised.None? {
        forall k | 0 <= k < delta.Length {
          delta[k] := script.solve(c, k);
        }
      }
    }

    method NewtonUpdateErrors(cur: Solution, last: Solution, delta: Solution) returns (raised: Option<Exc>)
      modifies this
      ensures events == old(events) + [UpdateErrors(cur, last, delta)] && proceedCalls == old(proceedCalls)
      ensures raised == Raise(script, |old(events)|)
    {
      raised := Record(UpdateErrors(cur, last, delta));
    }

    /** Sets cur to last - delta, unless the call raises. */
    method NewtonUpdate(cur: array<real>, last: array<real>, delta: array<real>) returns (raised: Option<Exc>)
      requires cur != last && cur != delta && last.Length == cur.Length && delta.Length == cur.Length
      modifies this, cur
      ensures events == old(events) + [Update(old(cur[..]), last[..], delta[..])] && proceedCalls == old(proceedCalls)
      ensures raised == Raise(script, |old(events)|)
      ensures cur[..] == if raised.Some? then old(cur[..]) else Updated(last[..], delta[..])
    {
      ghost var l, d := last[..], delta[..];
      raised := Record(Update(cur[..], last[..], delta[..]));
      if raised.None? {
        forall k | 0 <= k < cur.Length {
          cur[k] := last[k] - delta[k];
        }
        assert last[..] == l && delta[..] == d;
      }
    }

    method NewtonEndStep(cur: Solution, last: Solution) returns (raised: Option<Exc>)
      modifies this
      ensures events == old(events) + [EndStep(cur, last)] && proceedCalls == old(proceedCalls)
      ensures raised == Raise(script, |old(events)|)
    {
      raised := Record(EndStep(cur, last));
    }

    method NewtonEnd() returns (raised: Option<Exc>)
      modifies this
      ensures events == old(events) + [End] && proceedCalls == old(proceedCalls)
      ensures raised == Raise(script, |old(events)|)
    {
      raised := Record(End);
    }

    method NewtonConverged() returns (converged: bool, raised: Option<Exc>)
      modifies this
      ensures raised == Raise(script, |old(events)|)
      ensures converged == (raised.None? && script.converged)
      ensures events == old(events) + [Converged(converged)] && proceedCalls == old(proceedCalls)
    {
      raised := Raise(script, |events|);
      converged := raised.None? && script.converged;
      events := events + [Converged(converged)];
    }

    method NewtonFail() returns (raised: Option<Exc>)
      modifies this
      ensures events == old(events) + [Fail] && proceedCalls == old(proceedCalls)
      ensures raised == Raise(script, |old(events)|)
    {
      raised := Record(Fail);
    }

    method NewtonSucceed() returns (raised: Option<Exc>)
      modifies this
      ensures events == old(events) + [Succeed] && proceedCalls == old(proceedCalls)
      ensures raised == Raise(script, |old(events)|)
    {
      raised := Record(Succeed);
    }
  }

  /** The driver. `solution` is the model's current solution, which the driver borrows. */
  class NewtonMethod {
    const solution: array<real>

    constructor (solution: array<real>)
      ensures this.solution == solution
    {
      this.solution := solution;
    }

    /** `execute`: runs `execute_` and turns a NumericalProblem into `newtonFail` and false. */
    method Execute(ctl: ScriptedController) returns (r: Status)
      requires ctl.proceedCalls <= |ctl.script.proceed|
      modifies ctl, solution
      ensures var run := ExecuteRun(ctl.script, old(ctl.events), old(ctl.proceedCalls), old(solution[..]));
        r == run.status && ctl.events == run.events && ctl.proceedCalls == run.proceedCalls && solution[..] == run.u
    {
      r := ExecuteInner(ctl);
      if r == Threw(NumericalProblem) {
        var raised := ctl.NewtonFail();
        if raised.Some? {
          return Threw(raised.value);
        }
        return Returned(false);
      }
    }

    /** `execute_`: the controller-driven iteration loop. */
    method ExecuteInner(ctl: ScriptedController) returns (r: Status)
      requires ctl.proceedCalls <= |ctl.script.proceed|
      modifies ctl, solution
      ensures var run := InnerRun(ctl.script, old(ctl.events), old(ctl.proceedCalls), old(solution[..]));
        r == run.status && ctl.events == run.events && ctl.proceedCalls == run.proceedCalls && solution[..] == run.u
    {
      var n := solution.Length;
      var uLast := new real[n](k requires 0 <= k < n reads solution => solution[k]);
      var deltaU := new real[n](_ => 0.0);
      ghost var sc := ctl.script;
      ghost var es1 := old(ctl.events) + [Begin(solution[..])];
      var raised := ctl.NewtonBegin(solution[..]);
      if raised.Some? {
        return Threw(raised.value);
      }
      ghost var goal := LoopRun(sc, es1, ctl.proceedCalls, solution[..]);
      while true
        invariant ctl.proceedCalls <= |sc.proceed|
        invariant LoopRun(sc, ctl.events, ctl.proceedCalls, solution[..]) == goal
        decreases |sc.proceed| - ctl.proceedCalls
      {
        ghost var es, p, u := ctl.events, ctl.proceedCalls, solution[..];
        r := Pass(ctl, uLast, deltaU);
        assert LoopRun(sc, es, p, u) == if r.Running? then LoopRun(sc, ctl.events, ctl.proceedCalls, solution[..]) else RoundRun(sc, es, p, u);
        if !r.Running? {
          return;
        }
      }
    }

    /** One test of the loop guard and, when it says true, one iteration. */
    method Pass(ctl: ScriptedController, uLast: array<real>, deltaU: array<real>) returns (r: Status)
      requires uLast != solution && deltaU != solution && uLast != deltaU
      requires uLast.Length == solution.Length && deltaU.Length == solution.Length
      requires ctl.proceedCalls <= |ctl.script.proceed|
      modifies ctl, solution, uLast, deltaU
      ensures var run := RoundRun(ctl.script, old(ctl.events), old(ctl.proceedCalls), old(solution[..]));
        r == run.status && ctl.events == run.events && ctl.proceedCalls == run.proceedCalls && solution[..] == run.u
    {
      var proceed, raised := ctl.NewtonProceed(solution[..]);
      if raised.Some? {
        return Threw(raised.value);
      }
      if !proceed {
        r := Finish(ctl);
        return;
      }
      r := Iterate(ctl, uLast, deltaU);
    }

    /** The loop body after `newtonProceed` said true. */
    method Iterate(ctl: ScriptedController, uLast: array<real>, deltaU: array<real>) returns (r: Status)
      requires uLast != solution && deltaU != solution && uLast != deltaU
      requires uLast.Length == solution.Length && deltaU.Length == solution.Length
      modifies ctl, solution, uLast, deltaU
      ensures var run := IterationRun(ctl.script, old(ctl.events), old(ctl.proceedCalls), old(solution[..]));
        r == run.status && ctl.events == run.events && ctl.proceedCalls == run.proceedCalls && solution[..] == run.u
    {
      ghost var sc, p, u := ctl.script, ctl.proceedCalls, solution[..];
      ghost var delta := Solved(sc, |ctl.events| + 2, |u|);
      ghost var goal := StepsRun(sc, ctl.events, p, u, delta, 0);
      var raised := ctl.NewtonBeginStep();
      if raised.Some? {
        return Threw(raised.value);
      }
      assert StepsRun(sc, ctl.events, p, u, delta, 1) == goal;
      forall k | 0 <= k < solution.Length {
        uLast[k] := solution[k];
      }
      assert uLast[..] == u;
      raised := ctl.NewtonAssemble();
      if raised.Some? {
        return Threw(raised.value);
      }
      assert StepsRun(sc, ctl.events, p, u, delta, 2) == goal;
      forall k | 0 <= k < deltaU.Length {
        deltaU[k] := 0.0;
      }
      assert deltaU[..] == Cleared(|u|);
      raised := ctl.NewtonSolveLinear(deltaU);
      if raised.Some? {
        return Threw(raised.value);
      }
      assert StepsRun(sc, ctl.events, p, u, delta, 3) == goal;
      assert solution[..] == u && uLast[..] == u && deltaU[..] == delta;
      raised := ctl.NewtonUpdateErrors(solution[..], uLast[..], deltaU[..]);
      if raised.Some? {
        return Threw(raised.value);
      }
      assert StepsRun(sc, ctl.events, p, u, delta, 4) == goal;
      raised := ctl.NewtonUpdate(solution, uLast, deltaU);
      if raised.Some? {
        return Threw(raised.value);
      }
      assert StepsRun(sc, ctl.events, p, u, delta, 5) == goal;
      raised := ctl.NewtonEndStep(solution[..], uLast[..]);
      if raised.Some? {
        return Threw(EndStepEscape(raised.value));
      }
      return Running;
    }

    /** After the loop: `newtonEnd`, then `newtonConverged`, then `newtonFail` and false or `newtonSucceed` and true. */
    method Finish(ctl: ScriptedController) returns (r: Status)
      modifies ctl
      ensures var run := FinishRun(ctl.script, old(ctl.events), old(ctl.proceedCalls), solution[..]);
        r == run.status && ctl.events == run.events && ctl.proceedCalls == run.proceedCalls
    {
      var raised := ctl.NewtonEnd();
      if raised.Some? {
        return Threw(raised.value);
      }
      var converged;
      converged, raised := ctl.NewtonConverged();
      if raised.Some? {
        return Threw(raised.value);
      }
      if !converged {
        raised := ctl.NewtonFail();
      } else {
        raised := ctl.NewtonSucceed();
      }
      if raised.Some? {
        return Threw(raised.value);
      }
      return Returned(converged);
    }
  }
}
