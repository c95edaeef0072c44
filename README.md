# Nonlinear solve and Jacobian assembly of a porous-media simulator

This project models four pieces of the engine that solves the nonlinear
equations of a porous-media flow simulator, and proves what each promises.

- **The TPFA linearizer.** TPFA is the two-point flux approximation. The
  linearizer builds the sparsity pattern of the Jacobian lazily, once. It
  also builds a neighbour table and a transmissibility table, aligned with
  each other. On every linearization it clears the system and assembles the
  residual and the block Jacobian cell by cell. The storage term goes
  through a per-cell storage cache. Each flux adds a block to the diagonal
  and the negated block to the neighbour's row. The processes then agree
  on success by a minimum reduction, and every process raises
  `NumericalIssue` when any one failed.
- **The Newton driver.** `execute` runs the controller-driven iteration
  loop. Each iteration runs begin step, assemble, solve, update errors,
  update and end step. A Dune exception from the end-step call becomes a
  `NumericalProblem`. `execute` answers a `NumericalProblem` with
  `newtonFail` and `false`.
- **The Ecl linearizer.** It stores the focus time index and hands it to
  the element context before each element is linearized locally. It then
  adds the local residuals and Jacobian blocks into the global system.
- **The Blackoil element context.** It holds the focus time index (0 when
  the context is created). It writes primary variables per (DOF, time
  index) slot. A debug-build guard rejects non-zero time indices when the
  storage term is cached and first-iteration storage is recycled.

Modules and files:

- `wrappers.dfy` — `Option`.
- `linalg.dfy` — vectors, blocks, AD values, pointwise arithmetic.
- `collective.dfy` — the `comm.min` reduction.
- `tpfa.dfy` and `tpfa_props.dfy` — the TPFA linearizer and the properties
  of what it assembles.
- `newton.dfy` and `newton_props.dfy` — the Newton driver, the scripted
  controller, the reference run and its properties.
- `integers.dfy` — C++ `int`/`unsigned` conversions.
- `context.dfy` — the element context.
- `ecl.dfy` — the Ecl linearizer.

The classes keep the source's state.

- `Tpfa.TpfaLinearizer` has the matrix, the pattern, the residual and the
  tables.
- `Newton.NewtonMethod` has the solution array. Its loop works on arrays
  `uLastIter` and `deltaU`.
- `Newton.ScriptedController` records every call it receives.
- `BlackoilContext.BlackoilElementContext` has the focus and the slot
  tables.
- `Ecl.EclLinearizer` has the focus, the residual and the Jacobian.

Each method is proved against a specification function. For example,
`Newton.NewtonMethod.Execute` is proved equal to `Newton.ExecuteRun`, and
`Ecl.EclLinearizer.LinearizeElement` to `Ecl.ResidualPass` and
`Ecl.JacobianPass`. Lemmas then state what those functions mean.

Physics and collaborators are inputs:

- storage and flux terms, transmissibilities, the well model and auxiliary
  modules (fields of `Tpfa.Simulator`);
- a controller's answers, its linear solves and the exceptions it raises
  (`Newton.Script`);
- the local linearization of an element as a function of the focus
  (`Ecl.Element`);
- the flags of the other processes (a `peers` parameter).

Scalars are mathematical reals.

## Model

| member | source | states |
|---|---|---|
| Collective.MinOf | opm/models/discretization/common/tpfalinearizer.hh:200 | The reduction result is one of the flags and no flag is smaller. |
| Collective.CommMinZeroIffAnyFailed | opm/models/discretization/common/tpfalinearizer.hh:181-203 | With 0/1 success flags, the reduced flag is 0 exactly when this process or some peer failed. |
| Collective.CommMinAgrees | opm/models/discretization/common/tpfalinearizer.hh:200 | Every rank, contributing its own flag, obtains the same minimum over all flags. |
| Tpfa.StencilPatternMembership | opm/models/discretization/common/tpfalinearizer.hh:311-328 | Reservoir pattern row i holds x exactly when some element has i as a primary DOF and x in its stencil. |
| Tpfa.TpfaLinearizer.ReservoirPattern | opm/models/discretization/common/tpfalinearizer.hh:312-328 | The element/primary-DOF/DOF insertion loops build exactly the stencil pattern. |
| Tpfa.TpfaLinearizer.ExtendedPattern | opm/models/discretization/common/tpfalinearizer.hh:335-337 | The first exception an `addNeighbors` call raises escapes, in module order; with none, the full pattern is the reservoir pattern after every module's `addNeighbors`, in module order. |
| Tpfa.TpfaLinearizer.SparsityPattern | opm/models/discretization/common/tpfalinearizer.hh:310-337 | The reservoir pattern is the stencil pattern, and the full pattern is built unless an auxiliary module raises, whose exception is reported. |
| Tpfa.FirstRaise | opm/models/discretization/common/tpfalinearizer.hh:335-337 | A loop of calls that may raise lets escape exactly the first exception: none when no call raises, otherwise that of the earliest call that raises. |
| Tpfa.AscendingListsSet | opm/models/discretization/common/tpfalinearizer.hh:355-356 | A set is listed exactly, strictly ascending, as `std::set` iterates it. |
| Tpfa.TpfaLinearizer.AscendingElements | opm/models/discretization/common/tpfalinearizer.hh:355-356 | The set's elements are listed in ascending order. |
| Tpfa.NeighbourRow | opm/models/discretization/common/tpfalinearizer.hh:347-356 | Neighbour row i is strictly ascending and never holds i. It holds j exactly when j differs from i and some element couples primary DOF i with j. Auxiliary modules cannot add to it. |
| Tpfa.TpfaLinearizer.RowTransmissibilities | opm/models/discretization/common/tpfalinearizer.hh:357-363 | The first exception a `transmissibility` call raises escapes, in the neighbours' order; with none, one transmissibility per neighbour, in the neighbours' order. |
| Tpfa.TpfaLinearizer.Tables | opm/models/discretization/common/tpfalinearizer.hh:350-365 | `neighbours_` lists each erased reservoir row in ascending order, and `trans_` is aligned with it entry by entry. When a transmissibility raises, the exception is the first in row order; the raising row's neighbours are appended and its transmissibilities are not. |
| Tpfa.TpfaLinearizer.EraseSelf | opm/models/discretization/common/tpfalinearizer.hh:347-349 | Each cell leaves its own reservoir row; the rows, listed ascending, are the neighbour table. |
| Tpfa.TpfaLinearizer.NeighbourTables | opm/models/discretization/common/tpfalinearizer.hh:347-365 | The tables are the neighbour table with aligned transmissibilities, or, when a transmissibility raises, complete up to the raising row, with that row's neighbours appended. |
| Tpfa.TpfaLinearizer.CreateMatrix | opm/models/discretization/common/tpfalinearizer.hh:304-366 | An `addNeighbors` exception escapes before anything changes. Otherwise the matrix is reserved with the full pattern, its blocks zero, and the structure count grows by one. The neighbour table then excludes self-entries and auxiliary neighbours and the transmissibilities are aligned, unless a transmissibility raised: then that exception escapes with the tables filled up to the raising row. |
| Tpfa.TpfaLinearizer.Init | opm/models/discretization/common/tpfalinearizer.hh:130-134 | Binds the simulator and drops the matrix. |
| Tpfa.TpfaLinearizer.EraseMatrix | opm/models/discretization/common/tpfalinearizer.hh:143-146 | Drops the matrix, so the next domain linearization rebuilds the structure. |
| Tpfa.TpfaLinearizer.SetLinearizationType | opm/models/discretization/common/tpfalinearizer.hh:258-260 | The stored linearization type becomes the argument. |
| Tpfa.TpfaLinearizer.GetLinearizationType | opm/models/discretization/common/tpfalinearizer.hh:262-264 | Returns the stored linearization type. |
| Tpfa.TpfaLinearizer.ResetSystem | opm/models/discretization/common/tpfalinearizer.hh:369-374 | Every residual row becomes zero and every block of the Jacobian is cleared. |
| Tpfa.TpfaLinearizer.InitFirstIteration | opm/models/discretization/common/tpfalinearizer.hh:293-301 | Builds the matrix and sizes the residual to one zero row per DOF. An exception of the structure build escapes, in the order the build makes its calls, and the residual is left as it was; after a transmissibility raise the matrix is reserved with the full pattern and the tables are filled up to the raising row. |
| Tpfa.TpfaLinearizer.SetResAndJacobi | opm/models/discretization/common/tpfalinearizer.hh:377-391 | `res[eq]` is the value of AD component eq and `bMat[eq][pv]` its derivative pv, for all eq, pv below numEq. |
| Tpfa.TpfaLinearizer.AddStorage | opm/models/discretization/common/tpfalinearizer.hh:405-425 | The storage term, scaled by volume/dt, refreshes the cache on iteration 0. The row loses the cached storage and gains the fresh one. Block (i, i) gains the storage derivative. Fails exactly when the storage term raises. |
| Tpfa.TpfaLinearizer.AddFlux | opm/models/discretization/common/tpfalinearizer.hh:440-455 | The flux value goes to row i only, its derivative block to (i, i), and the exact negation of that block to (j, i). Fails exactly when the flux term raises, and then changes nothing. |
| Tpfa.TpfaLinearizer.AddFluxes | opm/models/discretization/common/tpfalinearizer.hh:437-456 | The neighbour loop equals the reference flux pass, which stops at the first flux that raises. |
| Tpfa.FluxPassRuns | opm/models/discretization/common/tpfalinearizer.hh:438-456 | The flux loop completes exactly when every flux term of the cell evaluates. |
| Tpfa.FluxPassRow | opm/models/discretization/common/tpfalinearizer.hh:438-451 | A completed flux loop leaves residual row i with the values of all its fluxes. |
| Tpfa.FluxPassBlocks | opm/models/discretization/common/tpfalinearizer.hh:438-454 | A completed flux loop leaves column i with the blocks of all its fluxes. |
| Tpfa.TpfaLinearizer.LinearizeCell | opm/models/discretization/common/tpfalinearizer.hh:403-456 | The loop body for cell i succeeds exactly when its storage and flux terms evaluate. It then updates cache entry i, residual row i and column i as specified. |
| Tpfa.TpfaLinearizer.PassCell | opm/models/discretization/common/tpfalinearizer.hh:402-457 | One more cell of the loop extends the assembled prefix of cache, residual and Jacobian by that cell. |
| Tpfa.TpfaLinearizer.AssembleCells | opm/models/discretization/common/tpfalinearizer.hh:398-457 | The cell loop succeeds exactly when every cell evaluates. It then yields the updated cache, the assembled residual and the assembled blocks. |
| Tpfa.TpfaLinearizer.Assemble | opm/models/discretization/common/tpfalinearizer.hh:394-464 | `linearize_` clears the system, assembles all cells, then applies the well model. It succeeds exactly when nothing raised. The result is the reference pass result. |
| Tpfa.TpfaLinearizer.LinearizeDomain | opm/models/discretization/common/tpfalinearizer.hh:173-204 | Builds the structure only when no matrix exists. An exception of that build escapes as itself, before the assembly and the reduction, with the cache and the residual untouched; after a transmissibility raise the matrix stays reserved with the full pattern and the tables are filled up to the raising row. Otherwise `NumericalIssue` is raised exactly when the minimum of the success flags over the processes is 0, and nothing else is raised. |
| Tpfa.TpfaLinearizer.LinearizeAuxiliaryEquations | opm/models/discretization/common/tpfalinearizer.hh:213-238 | Equals the reference auxiliary pass: module by module, with a per-module reduction. |
| Tpfa.TpfaLinearizer.Linearize | opm/models/discretization/common/tpfalinearizer.hh:157-161 | The domain, then the auxiliary equations. An exception of the structure build escapes as itself, leaving the reserved matrix and partial tables after a transmissibility raise, and a failed domain reduction raises `NumericalIssue`, before any auxiliary module runs. |
| TpfaProperties.AuxiliaryPassOutcome | opm/models/discretization/common/tpfalinearizer.hh:220-237 | The auxiliary pass ends normally, with `NumericalIssue`, or with an exception that is not a std::exception. |
| TpfaProperties.AuxiliaryPassAgreement | opm/models/discretization/common/tpfalinearizer.hh:222-236 | After module m, the pass stops with `NumericalIssue` exactly when m raised or a peer failed. Otherwise it continues with module m+1. |
| TpfaProperties.ColumnConservation | opm/models/discretization/common/tpfalinearizer.hh:425-454 | In one column, the diagonal block plus the blocks of all targets adds up to the storage block. |
| TpfaProperties.AssembledPattern | opm/models/discretization/common/tpfalinearizer.hh:425-454 | The assembled Jacobian has block (r, c) exactly when c is a DOF and r is c itself or a DOF sharing an element in which c is primary. |
| TpfaProperties.AssembledWithinPattern | opm/models/discretization/common/tpfalinearizer.hh:454 | With symmetric stencils, every DOF primary in some element and auxiliary modules that only add, every block the cell loop writes lies in the reserved pattern. |
| TpfaProperties.AuxiliaryNeighborsGrow | opm/models/discretization/common/tpfalinearizer.hh:335-337 | Auxiliary modules that only add keep every row of the reservoir pattern in the full pattern. |
| TpfaProperties.AssembledDiagonal | opm/models/discretization/common/tpfalinearizer.hh:425-452 | Block (i, i) is the storage derivative plus every flux derivative of cell i. |
| TpfaProperties.AssembledOffDiagonal | opm/models/discretization/common/tpfalinearizer.hh:449-454 | Block (j, i) of neighbour j is exactly the negated flux derivative towards j. |
| TpfaProperties.AssembledColumnConservation | opm/models/discretization/common/tpfalinearizer.hh:402-457 | In column i, the diagonal block and the neighbours' blocks add up to the storage derivative. |
| TpfaProperties.ResidualRowSplit | opm/models/discretization/common/tpfalinearizer.hh:423-451 | Residual row i is the fresh storage minus the cached storage plus the sum of the flux values. |
| TpfaProperties.FirstIterationResidual | opm/models/discretization/common/tpfalinearizer.hh:420-424 | On Newton iteration 0 the storage contribution cancels, so row i is the sum of the flux values only. |
| TpfaProperties.LaterIterationResidual | opm/models/discretization/common/tpfalinearizer.hh:420-424 | On a later iteration row i is the fresh storage minus the time step's cached storage plus the fluxes, and the cache is kept. |
| Newton.EndStepEscape | dumux/nonlinear/newtonmethod.hh:226-234 | A Dune exception from `newtonEndStep` escapes as `NumericalProblem`. Any other exception passes through. |
| Newton.Cleared | dumux/nonlinear/newtonmethod.hh:203 | `deltaU = 0`: every entry is zero. |
| Newton.Updated | dumux/nonlinear/newtonmethod.hh:219-223 | The iterate the scripted update forms: `last - delta`, entry by entry. |
| Newton.LoopRun | dumux/nonlinear/newtonmethod.hh:161-256 | The reference run of the loop always ends, by returning or by throwing. |
| Newton.ScriptedController.NewtonSolveLinear | dumux/nonlinear/newtonmethod.hh:205-207 | Records the zeroed `deltaU` it receives, then writes the scripted correction unless it raises. |
| Newton.ScriptedController.NewtonUpdate | dumux/nonlinear/newtonmethod.hh:223 | Records the vectors it receives, then sets the current iterate to `last - delta` unless it raises. |
| Newton.NewtonMethod.Execute | dumux/nonlinear/newtonmethod.hh:106-117 | Status, controller trace and solution equal those of the reference `ExecuteRun`. A `NumericalProblem` becomes `newtonFail` and false. |
| Newton.NewtonMethod.ExecuteInner | dumux/nonlinear/newtonmethod.hh:144-256 | `execute_` equals the reference `InnerRun`: `newtonBegin`, then the loop while `newtonProceed` answers true. |
| Newton.NewtonMethod.Pass | dumux/nonlinear/newtonmethod.hh:161-256 | One evaluation of the loop guard, then one iteration or the end of the solve. |
| Newton.NewtonMethod.Iterate | dumux/nonlinear/newtonmethod.hh:165-234 | One iteration, equal to the reference steps. `uLastIter` is copied from the current iterate and `deltaU` zeroed before the solve. Update errors come before update. A Dune exception from end step is translated. |
| Newton.NewtonMethod.Finish | dumux/nonlinear/newtonmethod.hh:238-255 | `newtonEnd`, then `newtonConverged`, then exactly one of `newtonFail` with false or `newtonSucceed` with true. |
| NewtonProperties.LoopCounts | dumux/nonlinear/newtonmethod.hh:161-235 | `newtonBeginStep` runs exactly once per true answer of `newtonProceed`. There are at most as many as the script's true answers. |
| NewtonProperties.LoopNormalExit | dumux/nonlinear/newtonmethod.hh:161-256 | A loop that returns produces complete iterations in call order, each from the previous iterate, then the false answer, `newtonEnd`, the convergence query and the matching verdict. |
| NewtonProperties.ExecuteCounts | dumux/nonlinear/newtonmethod.hh:153-165 | `newtonBegin` is the first call and is made exactly once. Iterations equal the true answers of `newtonProceed`. Zero iterations are possible. |
| NewtonProperties.ExecuteNormalExit | dumux/nonlinear/newtonmethod.hh:144-256 | With a controller that never raises, `execute` returns the convergence answer. The trace is `newtonBegin`, whole iterations in call order leading from the initial to the final solution, then the exit and the single verdict. |
| NewtonProperties.ExecuteVerdict | dumux/nonlinear/newtonmethod.hh:106-117 | When `execute` returns, its last call is `newtonSucceed` (true, and only if converged) or `newtonFail` (false). It is the only verdict call, unless the verdict before it raised `NumericalProblem`. |
| NewtonProperties.ExecuteThrown | dumux/nonlinear/newtonmethod.hh:106-117 | Whatever escapes `execute` is what its last controller call raised, translated when that call was `newtonEndStep`. A `NumericalProblem` escapes only from `newtonFail`. |
| NewtonProperties.EndStepDuneFails | dumux/nonlinear/newtonmethod.hh:111-116 | A Dune exception from `newtonEndStep` ends `execute` with `newtonFail` and false, unless `newtonFail` itself raises. |
| Integers.ToSigned | ebos/blackoilelementcontext.hh:63-64 | The stored `int` is the one congruent to the `unsigned` modulo 2^32. |
| Integers.ToUnsigned | ebos/blackoilelementcontext.hh:71-72 | The returned `unsigned` is the one congruent to the `int` modulo 2^32. |
| Integers.UnsignedRoundTrip | ebos/blackoilelementcontext.hh:63-72 | An `unsigned` stored in an `int` field reads back unchanged. |
| BlackoilContext.BlackoilElementContext.constructor | ebos/blackoilelementcontext.hh:50-54 | A new context is focused on time index 0. |
| BlackoilContext.BlackoilElementContext.SetFocusTimeIndex | ebos/blackoilelementcontext.hh:63-72 | The next `focusTimeIndex()` returns the value set. The slots are unchanged. |
| BlackoilContext.BlackoilElementContext.UpdateSingleIntQuants | ebos/blackoilelementcontext.hh:75-84 | Throws exactly when the debug guard is compiled in, storage caching is on, timeIdx != 0 and first-iteration storage is recycled; a rejected call writes no slot. Otherwise slot (dofIdx, timeIdx) takes the primary variables and is updated with the current focus. Every other slot and the focus are unchanged. |
| BlackoilContext.Written | ebos/blackoilelementcontext.hh:82 | The written slot holds the new value and every other slot its old one. |
| BlackoilContext.WrittenTwice | ebos/blackoilelementcontext.hh:82 | Writing one slot twice keeps only the second value. |
| BlackoilContext.WrittenCommute | ebos/blackoilelementcontext.hh:82 | Writes to different slots commute. |
| Ecl.EclLinearizer.LinearizeDomain | ebos/ecllinearizer.hh:64-68 | Stores the focus, so it reads back as the argument. Then runs the base domain pass, whose outcome escapes unchanged. |
| Ecl.EclLinearizer.Linearize | ebos/ecllinearizer.hh:58-62 | The domain pass with the given focus, then the auxiliary equations, in that order. An exception of the domain pass escapes and the auxiliary equations are not run. |
| Ecl.EclLinearizer.LinearizeElement | ebos/ecllinearizer.hh:72-104 | The context is focused on the linearizer's focus. The element is linearized under that focus. If that raises, the exception escapes and the residual and Jacobian are unchanged. Otherwise they become the reference scatter passes of its local system. The context's slots are untouched by the scatter itself. |
| Ecl.EclLinearizer.Scatter | ebos/ecllinearizer.hh:87-100 | The scatter loop leaves the residual and the Jacobian equal to the reference passes over all primary DOFs, and changes nothing else. |
| Ecl.EclLinearizer.ScatterPrimary | ebos/ecllinearizer.hh:88-99 | One primary DOF's residual and Jacobian column are added, and both reference passes go on from the next primary DOF. |
| Ecl.EclLinearizer.ScatterColumn | ebos/ecllinearizer.hh:95-99 | The inner loop adds local block (d, p) to block (gi[d], gi[p]) for every DOF d. |
| Ecl.Column | ebos/ecllinearizer.hh:98 | Column p of the local Jacobian: entry d is `jacobian(d, p)`. |
| Ecl.ResidualPassOutside | ebos/ecllinearizer.hh:87-92 | A residual row that no primary DOF maps to is unchanged. |
| Ecl.ResidualPassAt | ebos/ecllinearizer.hh:87-92 | With distinct global indices, row gi[q] gains exactly the local residual of primary DOF q. |
| Ecl.ColumnPassOutside | ebos/ecllinearizer.hh:95-99 | A block the inner loop does not address is unchanged, both in presence and in value. |
| Ecl.ColumnPassAt | ebos/ecllinearizer.hh:95-99 | With distinct global indices, block (gi[e], c) gains exactly local block e. |
| Ecl.JacobianPassOutside | ebos/ecllinearizer.hh:87-100 | A block outside the rows of the stencil or the columns of the primary DOFs is unchanged. |
| Ecl.JacobianPassAt | ebos/ecllinearizer.hh:87-100 | With distinct global indices, block (gi[d], gi[q]) gains exactly `jacobian(d, q)`. The row comes from the DOF d and the column from the primary DOF q. |

## Left out

- OpenMP parallelism of the TPFA cell loop and the Ecl linearization mutex: the loops are modelled sequentially, one thread and one element context.
- MPI behind `comm.min`: a reduction is the minimum of this process's flag and the flags passed in for the other processes.
- Logging, `verbose` output, the wall-clock timers and their percentage printout.
- IEEE floating point: scalars are reals, and `dt == 0` (which divides by zero in the storage factor) is excluded by the simulator's well-formedness.
- Physics: storage and flux terms, transmissibilities, the well model, auxiliary modules' `linearize`/`addNeighbors`, intensive-quantities evaluation and the AD `Evaluation` type are inputs. `SparseMatrixAdapter` becomes a map from (row, column) to block, and `commit`/`finalize` are not modelled.
- The dead `well_local` branch of `linearize_`: the constant is `false`, so the well model's `addReseroirSourceTerms` is always the path taken.
- Tpfa.TpfaLinearizer.AddFluxes: the neighbour counter is a `short` in the source; it is an unbounded `nat` here, so rows with more than 32767 neighbours are not modelled as overflowing.
- Tpfa.TpfaLinearizer.RowTransmissibilities: the transmissibility loop also counts with a `short loc`; it is an unbounded `nat` here, so rows with more than 32767 neighbours are not modelled as overflowing.
- Allocation failures (`jacobian_.reset`, `reserve`, `residual_.resize`) are not modelled: only the collaborators' exceptions (`addNeighbors`, `transmissibility`) can make the structure build raise.
- Tpfa.TpfaLinearizer.LinearizeDomain: after the structure build raised in a transmissibility, the object holds a matrix with partial tables; `CreateMatrix`, `InitFirstIteration`, `LinearizeDomain` and `Linearize` state that state (`Tpfa.TablesUpToRaise`), but the model requires complete tables for a further linearization, where the source would read past the tables' end.
- `neighbours_` and `trans_` are `SparseTable`s, which are not part of this model; each structure build is modelled as filling them afresh.
- TpfaProperties.AssembledWithinPattern: writes outside the reserved pattern are not detected by the model, which stores any block that is written; the lemma shows there are none under its hypotheses (symmetric stencils, every DOF primary, auxiliary modules that only add).
- The outcomes of the base linearizer's domain and auxiliary passes are parameters of `Ecl.EclLinearizer.Linearize`, since the base linearizer is not part of this model. The recorded base passes keep the residual and the Jacobian unchanged in the model; in the source the base domain pass assembles them, element by element through `linearizeElement_`.
- Tpfa.TpfaLinearizer.LinearizeDomain: when `linearize_` raises, the partly written residual and Jacobian are left unspecified; only the success flag and the outcome are stated.
- Tpfa.TpfaLinearizer.Linearize: only the failure of the domain reduction is stated; the auxiliary outcome is stated by `LinearizeAuxiliaryEquations`.
- The TPFA cell loop body works on values passed in and returned (static methods) rather than on the object's fields, to keep proofs small; the loop order and the in-place effect are the same.
- The base classes `FvBaseLinearizer` and `FvBaseElementContext`: the Ecl linearizer records calls to the base domain and auxiliary passes without modelling them, and the element context's slot tables are given to its constructor.
- Ecl.EclLinearizer.LinearizeElement: the local linearizer's own updates of the element context (stencil, intensive quantities) are part of the input function, not modelled; the scatter's pointwise meaning is proved for stencils with distinct global indices.
- The C++ `EclLinearizer` constructor leaves `focusTimeIndex_` uninitialized; the model takes the indeterminate value as a constructor argument.
- The default argument `focusTimeIdx = 0` of `linearize`/`linearizeDomain` is modelled as callers passing 0.
- Newton controllers: a scripted controller takes the place of the real ones; it answers `newtonProceed` from a list, `newtonConverged` with a fixed flag, solves by a scripted correction, and raises scripted exceptions. Exceptions are grouped as `NumericalProblem`, other Dune exceptions and others, `NumericalProblem` being treated as a Dune exception.
- Newton.NewtonMethod.Execute: where an exception escapes in the middle of an iteration the solution is stated as the reference run's, which keeps the previous iterate unless the update already took place; the assembler's matrix and residual are not modelled.
- `execute` as written calls `newtonFail` again when the final `newtonSucceed` or `newtonFail` of `execute_` raises `NumericalProblem`; the model keeps this (see `NewtonProperties.ExecuteVerdict`).
