/**
 * The two-point flux approximation (TPFA) linearizer: it builds the sparsity
 * pattern and the neighbour/transmissibility tables once, assembles the
 * residual and the block Jacobian cell by cell, and agrees with the other
 * processes on whether the assembly succeeded.
 *
 * The physics (storage and flux terms, transmissibilities, auxiliary modules,
 * the well model) are inputs held by a `Simulator` value; a call that may
 * raise an exception returns `None` or an `Effect` with `raised` set, or
 * comes with a companion input giving the exception it raises, if any.
 */
module Tpfa {
  import opened Wrappers
  import opened Linalg
  import opened Collective

  /** One element's stencil: global DOF indices, the first `numPrimaryDof` of them primary. */
  datatype Stencil = Stencil(numPrimaryDof: nat, dofs: seq<nat>)

  /** Exceptions as far as the linearizer tells them apart; `ForeignError` does not derive from std::exception. */
  datatype Exc = NumericalIssue | StdError | ForeignError

  predicate IsStdException(e: Exc)
  {
    !e.ForeignError?
  }

  /** The blocks of the Jacobian; a block that is not stored is zero. */
  type Blocks = map<(nat, nat), Block>


  /** The system after an external collaborator wrote into it, and what it raised, if anything. */
  datatype Effect = Effect(residual: seq<Vec>, blocks: Blocks, raised: Option<Exc>)

  /** An auxiliary module (e.g. a well model with equations of its own). */
  datatype AuxiliaryModule = AuxiliaryModule(
    addNeighbors: seq<set<nat>> -> seq<set<nat>>,
    /** The exception `addNeighbors` raises on a pattern, if any. */
    addNeighborsRaises: seq<set<nat>> -> Option<Exc>,
    linearize: (Blocks, seq<Vec>) -> Effect)

  /** What the linearizer reads from the simulator, the model and the problem. */
  datatype Simulator = Simulator(
    numEq: nat,
    numTotalDof: nat,
    elements: seq<Stencil>,
    auxiliaryModules: seq<AuxiliaryModule>,
    transmissibility: (nat, nat) -> real,
    /** The exception `transmissibility` raises for a pair of cells, if any. */
    transmissibilityRaises: (nat, nat) -> Option<Exc>,
    timeStepSize: real,
    dofTotalVolume: nat -> real,
    computeStorage: nat -> Option<AdVec>,
    computeFlux: (nat, nat) -> Option<AdVec>,
    addReservoirSourceTerms: (seq<Vec>, Blocks) -> Effect)

  datatype Scheme = FullyImplicit | OtherScheme(id: nat)

  /** Which scheme is linearized and which time index derivatives are taken with respect to. */
  datatype LinearizationType = LinearizationType(scheme: Scheme, time: nat)

  /** How a linearization call ended: normally, or by raising an exception. */
  datatype Status = Done | Raised(e: Exc)

  predicate WfStencil(st: Stencil, n: nat)
  {
    st.numPrimaryDof <= |st.dofs| && forall k :: 0 <= k < |st.dofs| ==> st.dofs[k] < n
  }

  predicate WfElements(elems: seq<Stencil>, n: nat)
  {
    forall e :: 0 <= e < |elems| ==> WfStencil(elems[e], n)
  }

  /**
   * What the C++ types and the grid guarantee: stencils index existing DOFs,
   * AD results have numEq components with numEq derivatives, collaborators
   * keep the residual's size, and the time step is not zero.
   */
  ghost predicate WfSimulator(sim: Simulator)
  {
    && WfElements(sim.elements, sim.numTotalDof)
    && sim.timeStepSize != 0.0
    && StorageShaped(sim)
    && FluxesShaped(sim)
    && (forall r, b :: |sim.addReservoirSourceTerms(r, b).residual| == |r|)
    && (forall m, b, r :: 0 <= m < |sim.auxiliaryModules| ==> |sim.auxiliaryModules[m].linearize(b, r).residual| == |r|)
  }

  /** Storage terms have numEq components with numEq derivatives each. */
  ghost predicate StorageShaped(sim: Simulator)
  {
    forall i :: sim.computeStorage(i).Some? ==> IsAdVec(sim.computeStorage(i).value, sim.numEq)
  }

  /** Flux terms have numEq components with numEq derivatives each. */
  ghost predicate FluxesShaped(sim: Simulator)
  {
    forall i, j :: sim.computeFlux(i, j).Some? ==> IsAdVec(sim.computeFlux(i, j).value, sim.numEq)
  }

  function BlockAt(blocks: Blocks, n: nat, r: nat, c: nat): Block
  {
    if (r, c) in blocks then blocks[(r, c)] else ZeroBlock(n)
  }

  /** `addToBlock(r, c, b)`: block (r, c) accumulates b. */
  function AddToBlock(blocks: Blocks, n: nat, r: nat, c: nat, b: Block): Blocks
  {
    blocks[(r, c) := BlockAdd(BlockAt(blocks, n, r, c), b)]
  }

  // ---------------------------------------------------------------------
  // Sparsity pattern and neighbour tables.

  function Elems(s: seq<nat>): set<nat>
  {
    set x | x in s
  }

  /** The pattern after the first `a` primary DOFs of `st` took in every DOF of the stencil. */
  function AddStencilRows(p: seq<set<nat>>, st: Stencil, a: nat): (q: seq<set<nat>>)
    requires a <= st.numPrimaryDof <= |st.dofs|
    requires forall k :: 0 <= k < |st.dofs| ==> st.dofs[k] < |p|
    ensures |q| == |p|
    decreases a
  {
    if a == 0 then p
    else
      var q := AddStencilRows(p, st, a - 1);
      var row := st.dofs[a - 1];
      q[row := q[row] + Elems(st.dofs)]
  }

  /** The pattern built from the stencils of `elems`, visited in order. */
  function StencilPattern(n: nat, elems: seq<Stencil>): (p: seq<set<nat>>)
    requires WfElements(elems, n)
    ensures |p| == n
    decreases |elems|
  {
    if elems == [] then seq(n, _ => {})
    else
      var last := elems[|elems| - 1];
      AddStencilRows(StencilPattern(n, elems[..|elems| - 1]), last, last.numPrimaryDof)
  }

  /** The reservoir pattern: the union of the stencils, before auxiliary modules add to it. */
  function BasePattern(sim: Simulator): (p: seq<set<nat>>)
    requires WfElements(sim.elements, sim.numTotalDof)
    ensures |p| == sim.numTotalDof
  {
    StencilPattern(sim.numTotalDof, sim.elements)
  }

  /** The pattern after the auxiliary modules `mods` added their neighbours, in order. */
  function WithAuxiliaryNeighbors(p: seq<set<nat>>, mods: seq<AuxiliaryModule>): seq<set<nat>>
    decreases |mods|
  {
    if mods == [] then p
    else mods[|mods| - 1].addNeighbors(WithAuxiliaryNeighbors(p, mods[..|mods| - 1]))
  }

  /** The pattern the Jacobian is reserved with. */
  function FullPattern(sim: Simulator): seq<set<nat>>
    requires WfElements(sim.elements, sim.numTotalDof)
  {
    WithAuxiliaryNeighbors(BasePattern(sim), sim.auxiliaryModules)
  }

  // ---------------------------------------------------------------------
  // Exceptions while the structure is built.

  /** The first exception in `raises`, if any: what escapes a loop whose k-th call raises `raises[k]`. */
  function FirstRaise(raises: seq<Option<Exc>>): (r: Option<Exc>)
    ensures r.None? <==> forall k :: 0 <= k < |raises| ==> raises[k].None?
    ensures r.Some? ==> exists k :: 0 <= k < |raises| && raises[k] == r && forall j :: 0 <= j < k ==> raises[j].None?
    decreases |raises|
  {
    if raises == [] then None
    else
      var front := raises[..|raises| - 1];
      assert forall k :: 0 <= k < |front| ==> front[k] == raises[k];
      var r := FirstRaise(front);
      if r.Some? then r else raises[|raises| - 1]
  }

  /** Once a prefix of the calls raised, the whole loop raises the same exception. */
  lemma FirstRaisePrefix(raises: seq<Option<Exc>>, k: nat)
    requires k <= |raises| && FirstRaise(raises[..k]).Some?
    ensures FirstRaise(raises) == FirstRaise(raises[..k])
  {
    var r := FirstRaise(raises[..k]);
    var j :| 0 <= j < k && raises[..k][j] == r && forall i :: 0 <= i < j ==> raises[..k][i].None?;
    assert raises[j] == r;
    var j' :| 0 <= j' < |raises| && raises[j'] == FirstRaise(raises) && forall i :: 0 <= i < j' ==> raises[i].None?;
    if j' < j {
      assert raises[..k][j'] == raises[j'];
    }
  }

  /** The first k + 1 calls raise what the first k raise, or else what call k raises. */
  lemma FirstRaiseStep(raises: seq<Option<Exc>>, k: nat)
    requires k < |raises|
    ensures FirstRaise(raises[..k + 1]) == if FirstRaise(raises[..k]).Some? then FirstRaise(raises[..k]) else raises[k]
  {
    assert raises[..k + 1][..k] == raises[..k];
  }

  /** What each auxiliary module's `addNeighbors` raises, on the pattern the modules before it left. */
  function NeighborsRaises(p: seq<set<nat>>, mods: seq<AuxiliaryModule>): seq<Option<Exc>>
  {
    seq(|mods|, k requires 0 <= k < |mods| => mods[k].addNeighborsRaises(WithAuxiliaryNeighbors(p, mods[..k])))
  }

  /** What escapes the auxiliary modules' `addNeighbors` calls. */
  function NeighborsRaise(p: seq<set<nat>>, mods: seq<AuxiliaryModule>): Option<Exc>
  {
    FirstRaise(NeighborsRaises(p, mods))
  }

  /** What each `transmissibility(i, cells[k])` raises. */
  function RowTransRaises(sim: Simulator, i: nat, cells: seq<nat>): seq<Option<Exc>>
  {
    seq(|cells|, k requires 0 <= k < |cells| => sim.transmissibilityRaises(i, cells[k]))
  }

  /** What escapes the transmissibility calls of cell i, neighbours in the order of `cells`. */
  function RowTransRaise(sim: Simulator, i: nat, cells: seq<nat>): Option<Exc>
  {
    FirstRaise(RowTransRaises(sim, i, cells))
  }

  /** What the transmissibility calls of each row of `rows` raise. */
  function TableRaises(sim: Simulator, rows: seq<seq<nat>>): seq<Option<Exc>>
  {
    seq(|rows|, i requires 0 <= i < |rows| => RowTransRaise(sim, i, rows[i]))
  }

  /** What escapes filling the transmissibility table for `rows`, row by row. */
  function TablesRaise(sim: Simulator, rows: seq<seq<nat>>): Option<Exc>
  {
    FirstRaise(TableRaises(sim, rows))
  }

  /** The least element of a non-empty set. */
  ghost function SetMin(s: set<nat>): (m: nat)
    requires s != {}
    ensures m in s && forall x :: x in s ==> m <= x
  {
    var x :| x in s;
    assert forall y :: y in s ==> y == x || y in s - {x};
    if s - {x} == {} then x
    else
      var m := SetMin(s - {x});
      if x <= m then x else m
  }

  /** The elements of s in ascending order, as std::set iterates them. */
  ghost function Ascending(s: set<nat>): seq<nat>
    decreases s
  {
    if s == {} then []
    else
      var m := SetMin(s);
      [m] + Ascending(s - {m})
  }

  /** Ascending(s) lists exactly the elements of s, strictly increasing. */
  lemma {:induction false} AscendingListsSet(s: set<nat>)
    ensures forall x :: x in Ascending(s) <==> x in s
    ensures forall a, b :: 0 <= a < b < |Ascending(s)| ==> Ascending(s)[a] < Ascending(s)[b]
    decreases s
  {
    if s != {} {
      var m := SetMin(s);
      var rest := Ascending(s - {m});
      AscendingListsSet(s - {m});
      assert Ascending(s) == [m] + rest;
      forall a, b | 0 <= a < b < |Ascending(s)| ensures Ascending(s)[a] < Ascending(s)[b] {
        if a > 0 {
          assert Ascending(s)[a] == rest[a - 1] && Ascending(s)[b] == rest[b - 1];
        } else {
          assert Ascending(s)[b] == rest[b - 1] && rest[b - 1] in s - {m};
        }
      }
    }
  }

  /** `neighbours_`: row i lists the reservoir pattern's row i without i itself, ascending. */
  ghost function NeighbourTable(sim: Simulator): (t: seq<seq<nat>>)
    requires WfElements(sim.elements, sim.numTotalDof)
    ensures |t| == sim.numTotalDof
  {
    var p := BasePattern(sim);
    seq(sim.numTotalDof, i requires 0 <= i < sim.numTotalDof => Ascending(p[i] - {i}))
  }

  /** What escapes building the structure: the auxiliary modules' `addNeighbors`, then the transmissibilities. */
  ghost function StructureRaise(sim: Simulator): Option<Exc>
    requires WfElements(sim.elements, sim.numTotalDof)
  {
    var aux := NeighborsRaise(BasePattern(sim), sim.auxiliaryModules);
    if aux.Some? then aux else TablesRaise(sim, NeighbourTable(sim))
  }

  /** `trans_` is aligned with `nbrs`: entry [i][loc] is the transmissibility between cell i and neighbour nbrs[i][loc]. */
  predicate TransAligned(sim: Simulator, nbrs: seq<seq<nat>>, tr: seq<seq<real>>)
  {
    && |tr| == |nbrs|
    && (forall i :: 0 <= i < |nbrs| ==> |tr[i]| == |nbrs[i]|)
    && (forall i, loc :: 0 <= i < |nbrs| && 0 <= loc < |nbrs[i]| ==>
          tr[i][loc] == sim.transmissibility(i, nbrs[i][loc]))
  }

  /** The tables are complete: the neighbour table of the grid, with the transmissibilities aligned. */
  ghost predicate TablesBuilt(sim: Simulator, nbrs: seq<seq<nat>>, tr: seq<seq<real>>)
    requires WfElements(sim.elements, sim.numTotalDof)
  {
    nbrs == NeighbourTable(sim) && TransAligned(sim, nbrs, tr)
  }

  /**
   * The tables as the transmissibilities of row |tr| left them by raising e:
   * that row's neighbours are appended, the rows before it are complete.
   */
  ghost predicate TablesUpToRaise(sim: Simulator, nbrs: seq<seq<nat>>, tr: seq<seq<real>>, e: Exc)
    requires WfElements(sim.elements, sim.numTotalDof)
  {
    && |tr| + 1 == |nbrs| <= sim.numTotalDof
    && (forall k :: 0 <= k < |nbrs| ==> nbrs[k] == NeighbourTable(sim)[k])
    && TransAligned(sim, nbrs[..|tr|], tr)
    && Some(e) == RowTransRaise(sim, |tr|, nbrs[|tr|])
  }

  /** Element e has a primary DOF with index i and a DOF with index x in its stencil. */
  ghost predicate Couples(elems: seq<Stencil>, i: nat, x: nat)
  {
    exists e, a, b :: 0 <= e < |elems| && 0 <= a < elems[e].numPrimaryDof && a < |elems[e].dofs|
      && 0 <= b < |elems[e].dofs| && elems[e].dofs[a] == i && elems[e].dofs[b] == x
  }

  lemma {:induction false} AddStencilRowsMembership(p: seq<set<nat>>, st: Stencil, a: nat, i: nat, x: nat)
    requires a <= st.numPrimaryDof <= |st.dofs|
    requires forall k :: 0 <= k < |st.dofs| ==> st.dofs[k] < |p|
    requires i < |p|
    ensures x in AddStencilRows(p, st, a)[i] <==>
            (x in p[i] || (x in st.dofs && exists k :: 0 <= k < a && st.dofs[k] == i))
    decreases a
  {
    if a > 0 {
      AddStencilRowsMembership(p, st, a - 1, i, x);
    }
  }

  /** Element `last` has i as a primary DOF and x in its stencil. */
  ghost predicate StencilCouples(st: Stencil, i: nat, x: nat)
  {
    x in st.dofs && exists a :: 0 <= a < st.numPrimaryDof && a < |st.dofs| && st.dofs[a] == i
  }

  lemma CouplesSplit(elems: seq<Stencil>, i: nat, x: nat)
    requires elems != []
    ensures Couples(elems, i, x) <==>
            Couples(elems[..|elems| - 1], i, x) || StencilCouples(elems[|elems| - 1], i, x)
  {
    var m := |elems| - 1;
    var front, last := elems[..m], elems[m];
    if Couples(elems, i, x) {
      var e, a, b :| 0 <= e < |elems| && 0 <= a < elems[e].numPrimaryDof && a < |elems[e].dofs|
        && 0 <= b < |elems[e].dofs| && elems[e].dofs[a] == i && elems[e].dofs[b] == x;
      if e < m {
        assert front[e] == elems[e];
      }
    }
    if Couples(front, i, x) {
      var e, a, b :| 0 <= e < |front| && 0 <= a < front[e].numPrimaryDof && a < |front[e].dofs|
        && 0 <= b < |front[e].dofs| && front[e].dofs[a] == i && front[e].dofs[b] == x;
      assert elems[e] == front[e];
    }
    if StencilCouples(last, i, x) {
      var a :| 0 <= a < last.numPrimaryDof && a < |last.dofs| && last.dofs[a] == i;
      var b :| 0 <= b < |last.dofs| && last.dofs[b] == x;
      assert elems[m].dofs[a] == i && elems[m].dofs[b] == x;
    }
  }

  /**
   * Row i of the reservoir pattern holds x exactly when some element has i
   * as a primary DOF and x in its stencil.
   */
  lemma {:induction false} StencilPatternMembership(n: nat, elems: seq<Stencil>, i: nat, x: nat)
    requires WfElements(elems, n) && i < n
    ensures x in StencilPattern(n, elems)[i] <==> Couples(elems, i, x)
    decreases |elems|
  {
    if elems != [] {
      var m := |elems| - 1;
      var front, last := elems[..m], elems[m];
      assert WfElements(front, n);
      StencilPatternMembership(n, front, i, x);
      AddStencilRowsMembership(StencilPattern(n, front), last, last.numPrimaryDof, i, x);
      CouplesSplit(elems, i, x);
    }
  }

  /**
   * The neighbour table: row i is strictly ascending, never holds i, and holds
   * j exactly when some element has i as a primary DOF and j in its stencil.
   */
  lemma NeighbourRow(sim: Simulator, i: nat, j: nat)
    requires WfElements(sim.elements, sim.numTotalDof) && i < sim.numTotalDof
    ensures i !in NeighbourTable(sim)[i]
    ensures j in NeighbourTable(sim)[i] <==> j != i && Couples(sim.elements, i, j)
    ensures forall a, b :: 0 <= a < b < |NeighbourTable(sim)[i]| ==> NeighbourTable(sim)[i][a] < NeighbourTable(sim)[i][b]
  {
    StencilPatternMembership(sim.numTotalDof, sim.elements, i, j);
    AscendingListsSet(BasePattern(sim)[i] - {i});
  }

  // ---------------------------------------------------------------------
  // Column accumulation: what the cell loop does to one column of the
  // Jacobian, independent of where the blocks come from.

  /** The rows of column i written by a storage block and flux blocks towards the first k targets of ts. */
  function ColumnRows(i: nat, ts: seq<nat>, k: nat): (rows: set<nat>)
    requires k <= |ts|
    ensures i in rows
    decreases k
  {
    if k == 0 then {i} else ColumnRows(i, ts, k - 1) + {ts[k - 1]}
  }

  /**
   * Block (r, i) after storage block s went to (i, i) and, for each of the
   * first k flux blocks fs[l], fs[l] went to (i, i) and its negation to (ts[l], i).
   */
  function ColumnBlock(n: nat, i: nat, s: Block, fs: seq<Block>, ts: seq<nat>, k: nat, r: nat): Block
    requires k <= |fs| && k <= |ts|
    decreases k
  {
    if k == 0 then (if r == i then BlockAdd(ZeroBlock(n), s) else ZeroBlock(n))
    else
      var prev := ColumnBlock(n, i, s, fs, ts, k - 1, r);
      var diag := if r == i then BlockAdd(prev, fs[k - 1]) else prev;
      if r == ts[k - 1] then BlockAdd(diag, Negated(fs[k - 1])) else diag
  }

  /** One step of the flux loop: f to (i, i), then its negation to (j, i). */
  function FluxStep(blocks: Blocks, n: nat, i: nat, f: Block, j: nat): Blocks
  {
    AddToBlock(AddToBlock(blocks, n, i, i, f), n, j, i, Negated(f))
  }

  /** `start` after the storage block and the first k flux steps of cell i, in order. */
  function Accumulate(start: Blocks, n: nat, i: nat, s: Block, fs: seq<Block>, ts: seq<nat>, k: nat): Blocks
    requires k <= |fs| && k <= |ts|
    decreases k
  {
    if k == 0 then AddToBlock(start, n, i, i, s)
    else FluxStep(Accumulate(start, n, i, s, fs, ts, k - 1), n, i, fs[k - 1], ts[k - 1])
  }

  lemma AddToBlockKeys(blocks: Blocks, n: nat, r: nat, c: nat, b: Block, key: (nat, nat))
    ensures key in AddToBlock(blocks, n, r, c, b) <==> key in blocks || key == (r, c)
  {
  }

  lemma FluxStepKeys(blocks: Blocks, n: nat, i: nat, f: Block, j: nat, key: (nat, nat))
    ensures key in FluxStep(blocks, n, i, f, j) <==> key in blocks || key == (i, i) || key == (j, i)
  {
    AddToBlockKeys(blocks, n, i, i, f, key);
    AddToBlockKeys(AddToBlock(blocks, n, i, i, f), n, j, i, Negated(f), key);
  }

  /** Block (r, i) after one flux step of cell i towards j. */
  lemma FluxStepAt(blocks: Blocks, n: nat, i: nat, f: Block, j: nat, r: nat)
    ensures BlockAt(FluxStep(blocks, n, i, f, j), n, r, i) ==
      var diag := if r == i then BlockAdd(BlockAt(blocks, n, r, i), f) else BlockAt(blocks, n, r, i);
      if r == j then BlockAdd(diag, Negated(f)) else diag
  {
    var mid := AddToBlock(blocks, n, i, i, f);
    assert BlockAt(mid, n, r, i) == if r == i then BlockAdd(BlockAt(blocks, n, r, i), f) else BlockAt(blocks, n, r, i);
  }

  /** A flux step of cell i keeps every block outside column i. */
  lemma FluxStepOutside(blocks: Blocks, n: nat, i: nat, f: Block, j: nat, key: (nat, nat))
    requires key.1 != i && key in blocks
    ensures key in FluxStep(blocks, n, i, f, j) && FluxStep(blocks, n, i, f, j)[key] == blocks[key]
  {
    assert key in AddToBlock(blocks, n, i, i, f) && AddToBlock(blocks, n, i, i, f)[key] == blocks[key];
  }

  /** Accumulating into an empty column i writes exactly the rows ColumnRows of it. */
  lemma {:induction false} AccumulateColumnRows(start: Blocks, n: nat, i: nat, s: Block, fs: seq<Block>, ts: seq<nat>, k: nat, r: nat)
    requires k <= |fs| && k <= |ts|
    requires forall q: nat :: (q, i) !in start
    ensures (r, i) in Accumulate(start, n, i, s, fs, ts, k) <==> r in ColumnRows(i, ts, k)
    decreases k
  {
    if k > 0 {
      AccumulateColumnRows(start, n, i, s, fs, ts, k - 1, r);
      FluxStepKeys(Accumulate(start, n, i, s, fs, ts, k - 1), n, i, fs[k - 1], ts[k - 1], (r, i));
    } else {
      AddToBlockKeys(start, n, i, i, s, (r, i));
    }
  }

  /** Accumulating into an empty column i leaves block ColumnBlock in row r of it. */
  lemma {:induction false} AccumulateColumn(start: Blocks, n: nat, i: nat, s: Block, fs: seq<Block>, ts: seq<nat>, k: nat, r: nat)
    requires k <= |fs| && k <= |ts|
    requires forall q: nat :: (q, i) !in start
    ensures BlockAt(Accumulate(start, n, i, s, fs, ts, k), n, r, i) == ColumnBlock(n, i, s, fs, ts, k, r)
    decreases k
  {
    if k == 0 {
      assert (r, i) !in start;
    } else {
      AccumulateColumn(start, n, i, s, fs, ts, k - 1, r);
      FluxStepAt(Accumulate(start, n, i, s, fs, ts, k - 1), n, i, fs[k - 1], ts[k - 1], r);
    }
  }

  /** Accumulation for cell i adds no key outside column i. */
  lemma {:induction false} AccumulateOutsideKeys(start: Blocks, n: nat, i: nat, s: Block, fs: seq<Block>, ts: seq<nat>, k: nat, key: (nat, nat))
    requires k <= |fs| && k <= |ts| && key.1 != i
    ensures key in Accumulate(start, n, i, s, fs, ts, k) <==> key in start
    decreases k
  {
    if k > 0 {
      AccumulateOutsideKeys(start, n, i, s, fs, ts, k - 1, key);
      FluxStepKeys(Accumulate(start, n, i, s, fs, ts, k - 1), n, i, fs[k - 1], ts[k - 1], key);
    } else {
      AddToBlockKeys(start, n, i, i, s, key);
    }
  }

  /** Accumulation for cell i changes no block outside column i. */
  lemma {:induction false} AccumulateOutside(start: Blocks, n: nat, i: nat, s: Block, fs: seq<Block>, ts: seq<nat>, k: nat, key: (nat, nat))
    requires k <= |fs| && k <= |ts| && key.1 != i && key in start
    ensures key in Accumulate(start, n, i, s, fs, ts, k) && Accumulate(start, n, i, s, fs, ts, k)[key] == start[key]
    decreases k
  {
    if k > 0 {
      AccumulateOutside(start, n, i, s, fs, ts, k - 1, key);
      FluxStepOutside(Accumulate(start, n, i, s, fs, ts, k - 1), n, i, fs[k - 1], ts[k - 1], key);
    }
  }

  // ---------------------------------------------------------------------
  // The assembly pass.

  /** The flux terms between cell i and its first k neighbours evaluate without raising. */
  ghost predicate FluxesEvaluate(sim: Simulator, nbrs: seq<seq<nat>>, i: nat, k: nat)
    requires i < |nbrs| && k <= |nbrs[i]|
  {
    forall loc :: 0 <= loc < k ==> sim.computeFlux(i, nbrs[i][loc]).Some?
  }

  /** Cell i's storage term and all its flux terms evaluate without raising. */
  ghost predicate CellEvaluates(sim: Simulator, nbrs: seq<seq<nat>>, i: nat)
    requires i < |nbrs|
  {
    sim.computeStorage(i).Some? && FluxesEvaluate(sim, nbrs, i, |nbrs[i]|)
  }

  ghost predicate CellsEvaluate(sim: Simulator, nbrs: seq<seq<nat>>, upto: nat)
    requires upto <= |nbrs|
  {
    forall c :: 0 <= c < upto ==> CellEvaluates(sim, nbrs, c)
  }

  /** The storage term of cell i scaled by volume / dt (empty when it raises). */
  function StorageTerm(sim: Simulator, i: nat): AdVec
    requires sim.timeStepSize != 0.0
  {
    match sim.computeStorage(i)
    case Some(a) => AdScaled(a, sim.dofTotalVolume(i) / sim.timeStepSize)
    case None => []
  }

  /**
   * The flux term between cell i and its neighbour nbrs[i][loc], scaled by
   * their transmissibility (empty when it raises).
   */
  function FluxTerm(sim: Simulator, nbrs: seq<seq<nat>>, i: nat, loc: nat): AdVec
    requires i < |nbrs| && loc < |nbrs[i]|
  {
    match sim.computeFlux(i, nbrs[i][loc])
    case Some(a) => AdScaled(a, sim.transmissibility(i, nbrs[i][loc]))
    case None => []
  }

  /** The storage cache entry of cell i after a pass: refreshed on Newton iteration 0, kept otherwise. */
  function CachedStorage(sim: Simulator, cache: seq<Vec>, numIterations: nat, i: nat): Vec
    requires i < |cache| && sim.timeStepSize != 0.0
  {
    if numIterations == 0 then ValueOf(StorageTerm(sim, i)) else cache[i]
  }

  /**
   * Residual row i after cell i subtracted the cached storage `cached`, added
   * its fresh storage term and the values of its first k flux terms.
   */
  function ResidualRow(sim: Simulator, nbrs: seq<seq<nat>>, cached: Vec, i: nat, k: nat): (row: Vec)
    requires i < |nbrs| && k <= |nbrs[i]| && sim.timeStepSize != 0.0
    ensures |row| == sim.numEq
    decreases k
  {
    if k == 0 then Add(Sub(Zero(sim.numEq), cached), ValueOf(StorageTerm(sim, i)))
    else Add(ResidualRow(sim, nbrs, cached, i, k - 1), ValueOf(FluxTerm(sim, nbrs, i, k - 1)))
  }

  /** The derivative block of cell i's storage term. */
  function StorageBlock(sim: Simulator, i: nat): Block
    requires sim.timeStepSize != 0.0
  {
    JacobianOf(StorageTerm(sim, i))
  }

  /** The derivative blocks of cell i's flux terms, in the order of its neighbours. */
  function FluxBlocks(sim: Simulator, nbrs: seq<seq<nat>>, i: nat): (fs: seq<Block>)
    requires i < |nbrs|
    ensures |fs| == |nbrs[i]|
  {
    seq(|nbrs[i]|, loc requires 0 <= loc < |nbrs[i]| => JacobianOf(FluxTerm(sim, nbrs, i, loc)))
  }

  /** `blocks` after the loop body of cell i wrote column i. */
  function CellBlocks(blocks: Blocks, sim: Simulator, nbrs: seq<seq<nat>>, i: nat): Blocks
    requires i < |nbrs| && sim.timeStepSize != 0.0
  {
    Accumulate(blocks, sim.numEq, i, StorageBlock(sim, i), FluxBlocks(sim, nbrs, i), nbrs[i], |nbrs[i]|)
  }

  /** The blocks stored once cells 0 .. k-1 wrote their columns: rows ColumnRows of each such column c. */
  function ColumnsKeys(nbrs: seq<seq<nat>>, k: nat): set<(nat, nat)>
    requires k <= |nbrs|
  {
    set c: nat, r: nat | c < k && r in ColumnRows(c, nbrs[c], |nbrs[c]|) :: (r, c)
  }

  /**
   * The Jacobian once cells 0 .. k-1 wrote their columns into a cleared
   * matrix: block (r, c) is stored for c < k and r among the rows of column
   * c, and holds ColumnBlock for cell c's storage and flux blocks.
   */
  function AssembledColumns(sim: Simulator, nbrs: seq<seq<nat>>, k: nat): Blocks
    requires k <= |nbrs| && sim.timeStepSize != 0.0
  {
    map key | key in ColumnsKeys(nbrs, k) ::
      ColumnBlock(sim.numEq, key.1, StorageBlock(sim, key.1), FluxBlocks(sim, nbrs, key.1), nbrs[key.1], |nbrs[key.1]|, key.0)
  }

  /** The Jacobian blocks after the loop over all cells. */
  function AssembledBlocks(sim: Simulator, nbrs: seq<seq<nat>>): Blocks
    requires sim.timeStepSize != 0.0
  {
    AssembledColumns(sim, nbrs, |nbrs|)
  }

  /** The loop body of cell k extends the Jacobian of cells 0 .. k-1 by column k. */
  lemma AssembledColumnsStep(sim: Simulator, nbrs: seq<seq<nat>>, k: nat)
    requires k < |nbrs| && sim.timeStepSize != 0.0
    ensures CellBlocks(AssembledColumns(sim, nbrs, k), sim, nbrs, k) == AssembledColumns(sim, nbrs, k + 1)
  {
    var n, start, next := sim.numEq, AssembledColumns(sim, nbrs, k), AssembledColumns(sim, nbrs, k + 1);
    var s, fs, ts := StorageBlock(sim, k), FluxBlocks(sim, nbrs, k), nbrs[k];
    var got := Accumulate(start, n, k, s, fs, ts, |ts|);
    forall q: nat ensures (q, k) !in start {
      assert (q, k) !in ColumnsKeys(nbrs, k);
    }
    forall key: (nat, nat) ensures key in got <==> key in next {
      if key.1 == k {
        AccumulateColumnRows(start, n, k, s, fs, ts, |ts|, key.0);
        if key.0 in ColumnRows(k, ts, |ts|) {
          assert key in ColumnsKeys(nbrs, k + 1);
        }
      } else {
        AccumulateOutsideKeys(start, n, k, s, fs, ts, |ts|, key);
        if key in ColumnsKeys(nbrs, k + 1) {
          assert key in ColumnsKeys(nbrs, k);
        }
        if key in ColumnsKeys(nbrs, k) {
          assert key in ColumnsKeys(nbrs, k + 1);
        }
      }
    }
    forall key | key in got ensures got[key] == next[key] {
      if key.1 == k {
        AccumulateColumn(start, n, k, s, fs, ts, |ts|, key.0);
      } else {
        AccumulateOutsideKeys(start, n, k, s, fs, ts, |ts|, key);
        AccumulateOutside(start, n, k, s, fs, ts, |ts|, key);
      }
    }
  }

  /** The storage cache after a complete pass. */
  function UpdatedCache(sim: Simulator, cache: seq<Vec>, numIterations: nat): seq<Vec>
    requires sim.timeStepSize != 0.0
  {
    seq(|cache|, i requires 0 <= i < |cache| => CachedStorage(sim, cache, numIterations, i))
  }

  /** The residual after the loop over all cells. */
  function AssembledResidual(sim: Simulator, nbrs: seq<seq<nat>>, cache: seq<Vec>, numIterations: nat): seq<Vec>
    requires |nbrs| == |cache| && sim.timeStepSize != 0.0
  {
    seq(|nbrs|, i requires 0 <= i < |nbrs| =>
      ResidualRow(sim, nbrs, CachedStorage(sim, cache, numIterations, i), i, |nbrs[i]|))
  }

  /** The system after the loop over all cells and the well model's source terms. */
  function PassResult(sim: Simulator, nbrs: seq<seq<nat>>, cache: seq<Vec>, numIterations: nat): Effect
    requires |nbrs| == |cache| && sim.timeStepSize != 0.0
  {
    sim.addReservoirSourceTerms(AssembledResidual(sim, nbrs, cache, numIterations), AssembledBlocks(sim, nbrs))
  }

  /** A pass raises nothing: every cell evaluates and the well model does not raise. */
  ghost predicate PassSucceeds(sim: Simulator, nbrs: seq<seq<nat>>, cache: seq<Vec>, numIterations: nat)
    requires |nbrs| == |cache| && sim.timeStepSize != 0.0
  {
    CellsEvaluate(sim, nbrs, |nbrs|) && PassResult(sim, nbrs, cache, numIterations).raised.None?
  }

  /** The flags the other processes contribute to the reduction after auxiliary module m. */
  function PeerFlags(auxPeers: seq<seq<int>>, m: nat): seq<int>
  {
    if m < |auxPeers| then auxPeers[m] else []
  }

  /**
   * The loop over the auxiliary modules from module m on: each linearizes into
   * the system; a std::exception is caught and reduced across processes, and a
   * failure anywhere raises `NumericalIssue` before the next module; any other
   * exception escapes unreduced.
   */
  function AuxiliaryPass(mods: seq<AuxiliaryModule>, blocks: Blocks, residual: seq<Vec>,
                         auxPeers: seq<seq<int>>, m: nat): (Status, Blocks, seq<Vec>)
    decreases |mods| - m
  {
    if m >= |mods| then (Done, blocks, residual)
    else
      var eff := mods[m].linearize(blocks, residual);
      if eff.raised.Some? && !IsStdException(eff.raised.value) then (Raised(eff.raised.value), eff.blocks, eff.residual)
      else
        var succeeded := if eff.raised.None? then 1 else 0;
        if CommMin(succeeded, PeerFlags(auxPeers, m)) == 0 then (Raised(NumericalIssue), eff.blocks, eff.residual)
        else AuxiliaryPass(mods, eff.blocks, eff.residual, auxPeers, m + 1)
  }

  lemma AscendingStep(s: set<nat>, r: seq<nat>, rest: set<nat>, m: nat)
    requires r + Ascending(rest) == Ascending(s)
    requires m in rest && forall x :: x in rest ==> m <= x
    ensures (r + [m]) + Ascending(rest - {m}) == Ascending(s)
  {
    AscendingFromLeast(rest, m);
    assert (r + [m]) + Ascending(rest - {m}) == r + ([m] + Ascending(rest - {m}));
  }

  lemma TransAlignedAppend(sim: Simulator, nbrs: seq<seq<nat>>, tr: seq<seq<real>>, cells: seq<nat>, loctrans: seq<real>)
    requires TransAligned(sim, nbrs, tr)
    requires |loctrans| == |cells|
    requires forall loc :: 0 <= loc < |cells| ==> loctrans[loc] == sim.transmissibility(|nbrs|, cells[loc])
    ensures TransAligned(sim, nbrs + [cells], tr + [loctrans])
  {
    var nb, t := nbrs + [cells], tr + [loctrans];
    forall i, loc | 0 <= i < |nb| && 0 <= loc < |nb[i]| && loc < |t[i]|
      ensures t[i][loc] == sim.transmissibility(i, nb[i][loc])
    {
      if i < |nbrs| {
        assert nb[i] == nbrs[i] && t[i] == tr[i];
      }
    }
  }

  /** Each row of `rows` in ascending order. */
  ghost function AscendingRows(rows: seq<set<nat>>): seq<seq<nat>>
  {
    seq(|rows|, k requires 0 <= k < |rows| => Ascending(rows[k]))
  }

  lemma AscendingRowsAppend(rows: seq<set<nat>>, g: nat, cells: seq<nat>)
    requires g < |rows| && cells == Ascending(rows[g])
    ensures AscendingRows(rows[..g + 1]) == AscendingRows(rows[..g]) + [cells]
  {
    var l, r := AscendingRows(rows[..g + 1]), AscendingRows(rows[..g]) + [cells];
    forall k | 0 <= k < |l| ensures l[k] == r[k] {
      assert rows[..g + 1][k] == rows[k];
      if k < g {
        assert rows[..g][k] == rows[k];
      }
    }
  }

  /** One more flux step of cell i is one more step of its accumulation. */
  lemma FluxLoopStep(sim: Simulator, nbrs: seq<seq<nat>>, i: nat, start: Blocks, loc: nat)
    requires i < |nbrs| && loc < |nbrs[i]| && sim.timeStepSize != 0.0
    ensures Accumulate(start, sim.numEq, i, StorageBlock(sim, i), FluxBlocks(sim, nbrs, i), nbrs[i], loc + 1)
         == FluxStep(Accumulate(start, sim.numEq, i, StorageBlock(sim, i), FluxBlocks(sim, nbrs, i), nbrs[i], loc),
                     sim.numEq, i, JacobianOf(FluxTerm(sim, nbrs, i, loc)), nbrs[i][loc])
  {
  }

  /** The first k entries of `done` followed by the entries of `rest` from k on. */
  function Spliced<T>(done: seq<T>, rest: seq<T>, k: nat): (s: seq<T>)
    requires k <= |done| == |rest|
    ensures |s| == |done|
  {
    done[..k] + rest[k..]
  }

  lemma SplicedAt<T>(done: seq<T>, rest: seq<T>, k: nat, j: nat)
    requires k <= |done| == |rest| && j < |done|
    ensures Spliced(done, rest, k)[j] == if j < k then done[j] else rest[j]
  {
  }

  /** Taking one more entry from `done` is one update. */
  lemma SplicedStep<T>(done: seq<T>, rest: seq<T>, k: nat)
    requires k < |done| == |rest|
    ensures Spliced(done, rest, k + 1) == Spliced(done, rest, k)[k := done[k]]
  {
    var l, r := Spliced(done, rest, k + 1), Spliced(done, rest, k)[k := done[k]];
    forall j | 0 <= j < |done| ensures l[j] == r[j] {
      SplicedAt(done, rest, k + 1, j);
      SplicedAt(done, rest, k, j);
    }
  }

  lemma SplicedEnds<T>(done: seq<T>, rest: seq<T>)
    requires |done| == |rest|
    ensures Spliced(done, rest, 0) == rest && Spliced(done, rest, |done|) == done
  {
  }

  /**
   * The flux loop of cell i from neighbour number loc on, applied to residual
   * row `row` and blocks `b`: whether it ran to the end, and the row and the
   * blocks it left.
   */
  function FluxPass(sim: Simulator, nbrs: seq<seq<nat>>, i: nat, row: Vec, b: Blocks, loc: nat): (bool, Vec, Blocks)
    requires i < |nbrs|
    decreases |nbrs[i]| - loc
  {
    if loc >= |nbrs[i]| then (true, row, b)
    else if sim.computeFlux(i, nbrs[i][loc]).None? then (false, row, b)
    else
      var f := FluxTerm(sim, nbrs, i, loc);
      FluxPass(sim, nbrs, i, Add(row, ValueOf(f)), FluxStep(b, sim.numEq, i, JacobianOf(f), nbrs[i][loc]), loc + 1)
  }

  /**
   * Run from neighbour number loc on, after the first loc flux terms of cell i
   * evaluated, the flux loop completes exactly when all of them evaluate.
   */
  lemma {:induction false} FluxPassRuns(sim: Simulator, nbrs: seq<seq<nat>>, i: nat, row: Vec, b: Blocks, loc: nat)
    requires i < |nbrs| && loc <= |nbrs[i]|
    requires FluxesEvaluate(sim, nbrs, i, loc)
    ensures FluxPass(sim, nbrs, i, row, b, loc).0 <==> FluxesEvaluate(sim, nbrs, i, |nbrs[i]|)
    decreases |nbrs[i]| - loc
  {
    if loc < |nbrs[i]| {
      if sim.computeFlux(i, nbrs[i][loc]).None? {
        assert !FluxesEvaluate(sim, nbrs, i, |nbrs[i]|);
      } else {
        var f := FluxTerm(sim, nbrs, i, loc);
        FluxesEvaluateStep(sim, nbrs, i, loc);
        FluxPassRuns(sim, nbrs, i, Add(row, ValueOf(f)), FluxStep(b, sim.numEq, i, JacobianOf(f), nbrs[i][loc]), loc + 1);
      }
    }
  }

  /** One evaluated flux term: the pass goes on from the next neighbour with the term added. */
  lemma FluxPassStep(sim: Simulator, nbrs: seq<seq<nat>>, i: nat, row: Vec, b: Blocks, loc: nat)
    requires i < |nbrs| && loc < |nbrs[i]| && sim.computeFlux(i, nbrs[i][loc]).Some?
    ensures var f := FluxTerm(sim, nbrs, i, loc);
      FluxPass(sim, nbrs, i, row, b, loc)
      == FluxPass(sim, nbrs, i, Add(row, ValueOf(f)), FluxStep(b, sim.numEq, i, JacobianOf(f), nbrs[i][loc]), loc + 1)
  {
  }

  /** A completed flux pass of cell i left residual row i with the values of all its flux terms. */
  predicate RowDone(out: (bool, Vec, Blocks), sim: Simulator, nbrs: seq<seq<nat>>, cached: Vec, i: nat)
    requires sim.timeStepSize != 0.0 && i < |nbrs|
  {
    out.0 ==> out.1 == ResidualRow(sim, nbrs, cached, i, |nbrs[i]|)
  }

  /**
   * Run from the residual row after the first loc flux terms of cell i, a flux
   * loop that completes leaves residual row i with the values of all of them.
   */
  /** The flux pass of cell i from neighbour number loc, on the residual row accumulated before it. */
  function RowPass(sim: Simulator, nbrs: seq<seq<nat>>, i: nat, cached: Vec, loc: nat, b: Blocks): (bool, Vec, Blocks)
    requires sim.timeStepSize != 0.0 && i < |nbrs| && loc <= |nbrs[i]|
  {
    FluxPass(sim, nbrs, i, ResidualRow(sim, nbrs, cached, i, loc), b, loc)
  }

  lemma RowPassStep(sim: Simulator, nbrs: seq<seq<nat>>, i: nat, cached: Vec, loc: nat, b: Blocks)
    requires sim.timeStepSize != 0.0 && i < |nbrs| && loc < |nbrs[i]| && sim.computeFlux(i, nbrs[i][loc]).Some?
    ensures var f := FluxTerm(sim, nbrs, i, loc);
      RowPass(sim, nbrs, i, cached, loc, b) == RowPass(sim, nbrs, i, cached, loc + 1, FluxStep(b, sim.numEq, i, JacobianOf(f), nbrs[i][loc]))
  {
    FluxPassStep(sim, nbrs, i, ResidualRow(sim, nbrs, cached, i, loc), b, loc);
  }

  lemma {:induction false} FluxPassRow(sim: Simulator, nbrs: seq<seq<nat>>, i: nat, cached: Vec, loc: nat, b: Blocks)
    requires sim.timeStepSize != 0.0 && i < |nbrs| && loc <= |nbrs[i]|
    ensures RowDone(RowPass(sim, nbrs, i, cached, loc, b), sim, nbrs, cached, i)
    decreases |nbrs[i]| - loc
  {
    if loc < |nbrs[i]| && sim.computeFlux(i, nbrs[i][loc]).Some? {
      var f := FluxTerm(sim, nbrs, i, loc);
      RowPassStep(sim, nbrs, i, cached, loc, b);
      FluxPassRow(sim, nbrs, i, cached, loc + 1, FluxStep(b, sim.numEq, i, JacobianOf(f), nbrs[i][loc]));
    }
  }

  /** A completed flux pass of cell i left the blocks of all its flux terms in column i. */
  predicate BlocksDone(out: (bool, Vec, Blocks), start: Blocks, sim: Simulator, nbrs: seq<seq<nat>>, i: nat)
    requires sim.timeStepSize != 0.0 && i < |nbrs|
  {
    out.0 ==> out.2 == CellBlocks(start, sim, nbrs, i)
  }

  /** The flux pass of cell i from neighbour number loc, on the blocks accumulated before it. */
  function BlocksPass(sim: Simulator, nbrs: seq<seq<nat>>, i: nat, start: Blocks, loc: nat, row: Vec): (bool, Vec, Blocks)
    requires sim.timeStepSize != 0.0 && i < |nbrs| && loc <= |nbrs[i]|
  {
    FluxPass(sim, nbrs, i, row, Accumulate(start, sim.numEq, i, StorageBlock(sim, i), FluxBlocks(sim, nbrs, i), nbrs[i], loc), loc)
  }

  lemma BlocksPassStep(sim: Simulator, nbrs: seq<seq<nat>>, i: nat, start: Blocks, loc: nat, row: Vec)
    requires sim.timeStepSize != 0.0 && i < |nbrs| && loc < |nbrs[i]| && sim.computeFlux(i, nbrs[i][loc]).Some?
    ensures BlocksPass(sim, nbrs, i, start, loc, row) == BlocksPass(sim, nbrs, i, start, loc + 1, Add(row, ValueOf(FluxTerm(sim, nbrs, i, loc))))
  {
    FluxPassStep(sim, nbrs, i, row, Accumulate(start, sim.numEq, i, StorageBlock(sim, i), FluxBlocks(sim, nbrs, i), nbrs[i], loc), loc);
    FluxLoopStep(sim, nbrs, i, start, loc);
  }

  /**
   * Run from the blocks after the first loc flux terms of cell i, a flux loop
   * that completes leaves column i with the blocks of all of them.
   */
  lemma {:induction false} FluxPassBlocks(sim: Simulator, nbrs: seq<seq<nat>>, i: nat, start: Blocks, loc: nat, row: Vec)
    requires sim.timeStepSize != 0.0 && i < |nbrs| && loc <= |nbrs[i]|
    ensures BlocksDone(BlocksPass(sim, nbrs, i, start, loc, row), start, sim, nbrs, i)
    decreases |nbrs[i]| - loc
  {
    if loc < |nbrs[i]| && sim.computeFlux(i, nbrs[i][loc]).Some? {
      var row' := Add(row, ValueOf(FluxTerm(sim, nbrs, i, loc)));
      BlocksPassStep(sim, nbrs, i, start, loc, row);
      FluxPassBlocks(sim, nbrs, i, start, loc + 1, row');
    }
  }

  /** One more cell that evaluates extends the evaluated prefix. */
  lemma CellsEvaluateStep(sim: Simulator, nbrs: seq<seq<nat>>, k: nat)
    requires k < |nbrs|
    requires CellsEvaluate(sim, nbrs, k) && CellEvaluates(sim, nbrs, k)
    ensures CellsEvaluate(sim, nbrs, k + 1)
  {
  }

  /** One more flux term of cell i that evaluates extends the evaluated prefix. */
  lemma FluxesEvaluateStep(sim: Simulator, nbrs: seq<seq<nat>>, i: nat, loc: nat)
    requires i < |nbrs| && loc < |nbrs[i]|
    requires FluxesEvaluate(sim, nbrs, i, loc) && sim.computeFlux(i, nbrs[i][loc]).Some?
    ensures FluxesEvaluate(sim, nbrs, i, loc + 1)
  {
  }

  /** `count` zero rows of n entries. */
  function ZeroRows(count: nat, n: nat): (rows: seq<Vec>)
    ensures |rows| == count
  {
    if count == 0 then [] else ZeroRows(count - 1, n) + [Zero(n)]
  }

  lemma {:induction false} ZeroRowsAt(count: nat, n: nat)
    ensures forall c :: 0 <= c < count ==> ZeroRows(count, n)[c] == Zero(n)
  {
    if count > 0 {
      ZeroRowsAt(count - 1, n);
    }
  }

  /** Listing a set in ascending order starts with its least element. */
  lemma AscendingFromLeast(s: set<nat>, m: nat)
    requires m in s && forall x :: x in s ==> m <= x
    ensures Ascending(s) == [m] + Ascending(s - {m})
  {
    assert SetMin(s) == m;
  }

  // ---------------------------------------------------------------------
  // The linearizer object.

  class TpfaLinearizer {
    /** `simulatorPtr_`; None until `Init`. */
    var simulator: Option<Simulator>
    /** Whether `jacobian_` holds a matrix. */
    var hasMatrix: bool
    /** The sparsity pattern the matrix was reserved with: row r lists the columns of its blocks. */
    var pattern: seq<set<nat>>
    /** The blocks of the matrix. */
    var blocks: Blocks
    var residual: seq<Vec>
    var linearizationType: LinearizationType
    var neighbours: seq<seq<nat>>
    var trans: seq<seq<real>>
    /** How often the matrix structure was built. */
    ghost var structureBuilds: nat

    /** Once a matrix exists, the tables and the pattern are those of the simulator's grid. */
    ghost predicate Valid()
      reads this
    {
      && simulator.Some?
      && WfSimulator(simulator.value)
      && (hasMatrix ==>
            && pattern == FullPattern(simulator.value)
            && neighbours == NeighbourTable(simulator.value)
            && TransAligned(simulator.value, neighbours, trans)
            && |residual| == simulator.value.numTotalDof)
    }

    constructor ()
      ensures simulator.None? && !hasMatrix && structureBuilds == 0
      ensures linearizationType == LinearizationType(FullyImplicit, 0)
    {
      simulator := None;
      hasMatrix, pattern, blocks := false, [], map[];
      residual := [];
      linearizationType := LinearizationType(FullyImplicit, 0);
      neighbours, trans := [], [];
      structureBuilds := 0;
    }

    /** Binds the simulator and drops any matrix, deferring the structure build to the next linearization. */
    method Init(sim: Simulator)
      requires WfSimulator(sim)
      modifies this`simulator, this`hasMatrix
      ensures Valid() && simulator == Some(sim) && !hasMatrix
    {
      simulator := Some(sim);
      EraseMatrix();
    }

    /** Drops the matrix so that the next linearization rebuilds the structure. */
    method EraseMatrix()
      modifies this`hasMatrix
      ensures !hasMatrix
    {
      hasMatrix := false;
    }

    method SetLinearizationType(t: LinearizationType)
      modifies this`linearizationType
      ensures linearizationType == t
    {
      linearizationType := t;
    }

    method GetLinearizationType() returns (t: LinearizationType)
      ensures t == linearizationType
    {
      t := linearizationType;
    }

    /**
     * Writes the values of `resid` into `res` and its derivatives into `bMat`:
     * `res[eq]` is the value of component eq and `bMat[eq][pv]` its derivative pv.
     */
    static method SetResAndJacobi(numEq: nat, resid: AdVec) returns (res: Vec, bMat: Block)
      requires IsAdVec(resid, numEq)
      ensures |res| == numEq && forall eq :: 0 <= eq < numEq ==> res[eq] == resid[eq].value
      ensures IsBlock(bMat, numEq)
      ensures forall eq, pv :: 0 <= eq < numEq && 0 <= pv < numEq ==> bMat[eq][pv] == resid[eq].derivatives[pv]
      ensures res == ValueOf(resid) && bMat == JacobianOf(resid)
    {
      res := Zero(numEq);
      bMat := ZeroBlock(numEq);
      ZeroBlockShape(numEq);
      for eqIdx := 0 to numEq
        invariant |res| == numEq
        invariant forall eq :: 0 <= eq < eqIdx ==> res[eq] == resid[eq].value
      {
        res := res[eqIdx := resid[eqIdx].value];
      }
      for eqIdx := 0 to numEq
        invariant IsBlock(bMat, numEq)
        invariant forall eq, pv :: 0 <= eq < eqIdx && 0 <= pv < numEq ==> bMat[eq][pv] == resid[eq].derivatives[pv]
      {
        for pvIdx := 0 to numEq
          invariant IsBlock(bMat, numEq)
          invariant forall eq, pv :: 0 <= eq < eqIdx && 0 <= pv < numEq ==> bMat[eq][pv] == resid[eq].derivatives[pv]
          invariant forall pv :: 0 <= pv < pvIdx ==> bMat[eqIdx][pv] == resid[eqIdx].derivatives[pv]
        {
          bMat := bMat[eqIdx := bMat[eqIdx][pvIdx := resid[eqIdx].derivatives[pvIdx]]];
        }
      }
      forall eq | 0 <= eq < numEq ensures res[eq] == ValueOf(resid)[eq] && bMat[eq] == JacobianOf(resid)[eq] {
        ValueOfAt(resid, eq);
        JacobianOfAt(resid, eq);
      }
    }

    /** The reservoir pattern: every primary DOF of every element takes in the element's whole stencil. */
    static method ReservoirPattern(n: nat, elements: seq<Stencil>) returns (sparsityPattern: seq<set<nat>>)
      requires WfElements(elements, n)
      ensures sparsityPattern == StencilPattern(n, elements)
    {
      sparsityPattern := seq(n, _ => {});
      for e := 0 to |elements|
        invariant WfElements(elements[..e], n)
        invariant sparsityPattern == StencilPattern(n, elements[..e])
      {
        var st := elements[e];
        ghost var start := sparsityPattern;
        for primaryDofIdx := 0 to st.numPrimaryDof
          invariant sparsityPattern == AddStencilRows(start, st, primaryDofIdx)
        {
          var myIdx := st.dofs[primaryDofIdx];
          ghost var before := sparsityPattern;
          for dofIdx := 0 to |st.dofs|
            invariant |sparsityPattern| == |before|
            invariant forall k :: 0 <= k < |before| ==>
              sparsityPattern[k] == if k == myIdx then before[k] + Elems(st.dofs[..dofIdx]) else before[k]
          {
            assert Elems(st.dofs[..dofIdx + 1]) == Elems(st.dofs[..dofIdx]) + {st.dofs[dofIdx]} by {
              assert st.dofs[..dofIdx + 1] == st.dofs[..dofIdx] + [st.dofs[dofIdx]];
            }
            sparsityPattern := sparsityPattern[myIdx := sparsityPattern[myIdx] + {st.dofs[dofIdx]}];
          }
          assert st.dofs[..|st.dofs|] == st.dofs;
          assert sparsityPattern == before[myIdx := before[myIdx] + Elems(st.dofs)];
        }
        assert elements[..e + 1][..e] == elements[..e];
      }
      assert elements[..|elements|] == elements;
    }

    /** The elements of s in ascending order, least first. */
    static method AscendingElements(s: set<nat>) returns (r: seq<nat>)
      ensures r == Ascending(s)
    {
      r := [];
      var rest := s;
      while rest != {}
        invariant r + Ascending(rest) == Ascending(s)
        decreases rest
      {
        var m :| m in rest && forall x :: x in rest ==> m <= x;
        AscendingStep(s, r, rest, m);
        r := r + [m];
        rest := rest - {m};
      }
    }

    /**
     * The transmissibilities between cell globI and each of `cells`, in the
     * order of `cells`, or the exception the first failing call raises.
     */
    static method RowTransmissibilities(sim: Simulator, globI: nat, cells: seq<nat>)
      returns (raised: Option<Exc>, loctrans: seq<real>)
      ensures raised == RowTransRaise(sim, globI, cells)
      ensures |loctrans| == |cells|
      ensures raised.None? ==> forall loc :: 0 <= loc < |cells| ==> loctrans[loc] == sim.transmissibility(globI, cells[loc])
    {
      ghost var raises := RowTransRaises(sim, globI, cells);
      loctrans := seq(|cells|, _ => 0.0);
      for loc := 0 to |cells|
        invariant |loctrans| == |cells|
        invariant FirstRaise(raises[..loc]).None?
        invariant forall k :: 0 <= k < loc ==> loctrans[k] == sim.transmissibility(globI, cells[k])
      {
        FirstRaiseStep(raises, loc);
        raised := sim.transmissibilityRaises(globI, cells[loc]);
        if raised.Some? {
          FirstRaisePrefix(raises, loc + 1);
          return;
        }
        loctrans := loctrans[loc := sim.transmissibility(globI, cells[loc])];
      }
      raised := None;
      assert raises[..|cells|] == raises;
    }

    /**
     * Builds the matrix: the Jacobian is reserved with the reservoir pattern
     * extended by the auxiliary modules, and its blocks start out zero; the
     * neighbour table lists each cell's reservoir neighbours other than itself,
     * ascending, and the transmissibility table is aligned with it.
     * An exception from `addNeighbors` escapes before the matrix is replaced;
     * one from `transmissibility` escapes with the matrix reserved and the
     * tables filled up to the row that raised.
     */
    method CreateMatrix() returns (status: Status)
      requires simulator.Some? && WfSimulator(simulator.value)
      modifies this`hasMatrix, this`pattern, this`blocks, this`neighbours, this`trans, this`structureBuilds
      ensures NeighborsRaise(BasePattern(simulator.value), simulator.value.auxiliaryModules).Some? ==>
        && status == Raised(NeighborsRaise(BasePattern(simulator.value), simulator.value.auxiliaryModules).value)
        && hasMatrix == old(hasMatrix) && pattern == old(pattern) && blocks == old(blocks)
        && neighbours == old(neighbours) && trans == old(trans) && structureBuilds == old(structureBuilds)
      ensures NeighborsRaise(BasePattern(simulator.value), simulator.value.auxiliaryModules).None? ==>
        && hasMatrix && pattern == FullPattern(simulator.value) && blocks == map[]
        && structureBuilds == old(structureBuilds) + 1
        && TablesRaise(simulator.value, NeighbourTable(simulator.value)) == (if status.Done? then None else Some(status.e))
        && (status.Done? ==> TablesBuilt(simulator.value, neighbours, trans))
        && (status.Raised? ==> TablesUpToRaise(simulator.value, neighbours, trans, status.e))
    {
      var sim := simulator.value;
      var raised, reservoirSparsityPattern, sparsityPattern := SparsityPattern(sim);
      if raised.Some? {
        return Raised(raised.value);
      }
      hasMatrix, pattern, blocks := true, sparsityPattern, map[];
      structureBuilds := structureBuilds + 1;

      var nbrs, tr;
      raised, nbrs, tr := NeighbourTables(sim, reservoirSparsityPattern);
      neighbours, trans := nbrs, tr;
      if raised.Some? {
        status := Raised(raised.value);
      } else {
        status := Done;
      }
    }

    /**
     * The reservoir pattern and the full pattern after the auxiliary modules
     * added their neighbours, or the exception the first failing module raises.
     */
    static method SparsityPattern(sim: Simulator)
      returns (raised: Option<Exc>, reservoir: seq<set<nat>>, full: seq<set<nat>>)
      requires WfElements(sim.elements, sim.numTotalDof)
      ensures reservoir == BasePattern(sim)
      ensures raised == NeighborsRaise(BasePattern(sim), sim.auxiliaryModules)
      ensures raised.None? ==> full == FullPattern(sim)
    {
      reservoir := ReservoirPattern(sim.numTotalDof, sim.elements);
      raised, full := ExtendedPattern(sim, reservoir);
    }

    /**
     * `neighbours_` and `trans_` built from the reservoir pattern, or the
     * exception the first failing transmissibility raises, with the tables
     * filled up to the row that raised.
     */
    static method NeighbourTables(sim: Simulator, reservoir: seq<set<nat>>)
      returns (raised: Option<Exc>, nbrs: seq<seq<nat>>, tr: seq<seq<real>>)
      requires WfElements(sim.elements, sim.numTotalDof) && reservoir == BasePattern(sim)
      ensures raised == TablesRaise(sim, NeighbourTable(sim))
      ensures raised.None? ==> TablesBuilt(sim, nbrs, tr)
      ensures raised.Some? ==> TablesUpToRaise(sim, nbrs, tr, raised.value)
    {
      var erased := EraseSelf(sim, reservoir);
      raised, nbrs, tr := Tables(sim, erased);
      ghost var table := NeighbourTable(sim);
      assert forall k :: 0 <= k < |nbrs| ==> nbrs[k] == AscendingRows(erased)[k];
    }

    /** Erases each cell from its own row of the reservoir pattern; listed ascending, the rows are the neighbour table. */
    static method EraseSelf(sim: Simulator, reservoir: seq<set<nat>>) returns (erased: seq<set<nat>>)
      requires WfElements(sim.elements, sim.numTotalDof) && reservoir == BasePattern(sim)
      ensures |erased| == sim.numTotalDof
      ensures forall k :: 0 <= k < |erased| ==> erased[k] == reservoir[k] - {k}
      ensures AscendingRows(erased) == NeighbourTable(sim)
    {
      erased := reservoir;
      for globI := 0 to sim.numTotalDof
        invariant |erased| == sim.numTotalDof
        invariant forall k :: 0 <= k < globI ==> erased[k] == reservoir[k] - {k}
        invariant forall k :: globI <= k < sim.numTotalDof ==> erased[k] == reservoir[k]
      {
        erased := erased[globI := erased[globI] - {globI}];
      }
      ghost var table := NeighbourTable(sim);
      assert forall k :: 0 <= k < sim.numTotalDof ==> AscendingRows(erased)[k] == table[k];
    }

    /**
     * The pattern after each auxiliary module, in order, added its neighbours,
     * or the exception the first failing module raises.
     */
    static method ExtendedPattern(sim: Simulator, reservoir: seq<set<nat>>)
      returns (raised: Option<Exc>, sparsityPattern: seq<set<nat>>)
      ensures raised == NeighborsRaise(reservoir, sim.auxiliaryModules)
      ensures raised.None? ==> sparsityPattern == WithAuxiliaryNeighbors(reservoir, sim.auxiliaryModules)
    {
      sparsityPattern := reservoir;
      var mods := sim.auxiliaryModules;
      ghost var raises := NeighborsRaises(reservoir, mods);
      for auxModIdx := 0 to |mods|
        invariant sparsityPattern == WithAuxiliaryNeighbors(reservoir, mods[..auxModIdx])
        invariant FirstRaise(raises[..auxModIdx]).None?
      {
        FirstRaiseStep(raises, auxModIdx);
        raised := mods[auxModIdx].addNeighborsRaises(sparsityPattern);
        if raised.Some? {
          FirstRaisePrefix(raises, auxModIdx + 1);
          return;
        }
        assert mods[..auxModIdx + 1][..auxModIdx] == mods[..auxModIdx];
        sparsityPattern := mods[auxModIdx].addNeighbors(sparsityPattern);
      }
      raised := None;
      assert mods[..|mods|] == mods;
      assert raises[..|mods|] == raises;
    }

    /**
     * `neighbours_` and `trans_` from the reservoir pattern with each cell's
     * own entry erased. When a transmissibility raises, the row of neighbours
     * that raised is already appended and its transmissibilities are not.
     */
    static method Tables(sim: Simulator, erased: seq<set<nat>>)
      returns (raised: Option<Exc>, nbrs: seq<seq<nat>>, tr: seq<seq<real>>)
      ensures raised == TablesRaise(sim, AscendingRows(erased))
      ensures |nbrs| <= |erased| && forall k :: 0 <= k < |nbrs| ==> nbrs[k] == Ascending(erased[k])
      ensures raised.None? ==> nbrs == AscendingRows(erased) && TransAligned(sim, nbrs, tr)
      ensures raised.Some? ==>
        && |tr| + 1 == |nbrs|
        && TransAligned(sim, nbrs[..|tr|], tr)
        && raised == RowTransRaise(sim, |tr|, nbrs[|tr|])
    {
      ghost var raises := TableRaises(sim, AscendingRows(erased));
      nbrs, tr := [], [];
      for globI := 0 to |erased|
        invariant nbrs == AscendingRows(erased[..globI])
        invariant TransAligned(sim, nbrs, tr)
        invariant FirstRaise(raises[..globI]).None?
      {
        var cells := AscendingElements(erased[globI]);
        AscendingRowsAppend(erased, globI, cells);
        nbrs := nbrs + [cells];
        FirstRaiseStep(raises, globI);
        var loctrans;
        raised, loctrans := RowTransmissibilities(sim, globI, cells);
        if raised.Some? {
          FirstRaisePrefix(raises, globI + 1);
          assert nbrs[..|tr|] == AscendingRows(erased[..globI]);
          return;
        }
        TransAlignedAppend(sim, nbrs[..globI], tr, cells, loctrans);
        assert nbrs[..globI] + [cells] == nbrs;
        tr := tr + [loctrans];
      }
      raised := None;
      assert erased[..|erased|] == erased;
      assert raises[..|erased|] == raises;
    }

    /** `residual_ = 0.0; jacobian_->clear()`: every residual row and every block becomes zero. */
    method ResetSystem()
      requires Valid() && hasMatrix
      modifies this`residual, this`blocks
      ensures Valid()
      ensures residual == ZeroRows(|old(residual)|, simulator.value.numEq)
      ensures blocks == map[]
    {
      var n := simulator.value.numEq;
      residual := ZeroRows(|residual|, n);
      blocks := map[];
    }

    /**
     * Builds the matrix and sizes the residual to one zero row per DOF; when
     * the structure build raises, the residual is left as it was.
     */
    method InitFirstIteration() returns (status: Status)
      requires simulator.Some? && WfSimulator(simulator.value)
      modifies this`residual, this`hasMatrix, this`pattern, this`blocks, this`neighbours, this`trans, this`structureBuilds
      ensures status.Done? <==> StructureRaise(simulator.value).None?
      ensures status.Raised? ==> Some(status.e) == StructureRaise(simulator.value) && residual == old(residual)
      ensures NeighborsRaise(BasePattern(simulator.value), simulator.value.auxiliaryModules).Some? ==>
        unchanged(this)
      ensures NeighborsRaise(BasePattern(simulator.value), simulator.value.auxiliaryModules).None? ==>
        && hasMatrix && pattern == FullPattern(simulator.value) && blocks == map[]
        && structureBuilds == old(structureBuilds) + 1
        && (status.Raised? ==> TablesUpToRaise(simulator.value, neighbours, trans, status.e))
      ensures status.Done? ==> Valid() && residual == ZeroRows(simulator.value.numTotalDof, simulator.value.numEq)
    {
      status := CreateMatrix();
      if status.Raised? {
        return;
      }
      var sim := simulator.value;
      var previous := residual;
      residual := seq(sim.numTotalDof, i requires 0 <= i < sim.numTotalDof =>
        if i < |previous| then previous[i] else Zero(sim.numEq));
      ResetSystem();
    }

    /**
     * The storage part of the loop body for cell globI, on residual row `row`
     * and Jacobian blocks `b`: the storage term, scaled by volume / dt,
     * refreshes the storage cache on Newton iteration 0; the row loses the
     * cached storage and gains the fresh one, and block (globI, globI) gains
     * its derivatives. `ok` is false when the storage term raised.
     */
    static method AddStorage(sim: Simulator, globI: nat, numIterations: nat, cache: seq<Vec>, row: Vec, b: Blocks)
      returns (ok: bool, cacheOut: seq<Vec>, rowOut: Vec, bOut: Blocks)
      requires StorageShaped(sim) && sim.timeStepSize != 0.0 && globI < |cache|
      ensures |cacheOut| == |cache| && |rowOut| == |row|
      ensures ok <==> sim.computeStorage(globI).Some?
      ensures ok ==> cacheOut == cache[globI := CachedStorage(sim, cache, numIterations, globI)]
      ensures ok ==> rowOut == Add(Sub(row, cacheOut[globI]), ValueOf(StorageTerm(sim, globI)))
      ensures ok ==> bOut == AddToBlock(b, sim.numEq, globI, globI, StorageBlock(sim, globI))
    {
      var n := sim.numEq;
      var storage := sim.computeStorage(globI);
      if storage.None? {
        return false, cache, row, b;
      }
      var storefac := sim.dofTotalVolume(globI) / sim.timeStepSize;
      ScaledShapes(storage.value, storefac, n);
      var adres := AdScaled(storage.value, storefac);
      var res, bMat := SetResAndJacobi(n, adres);
      cacheOut := cache;
      if numIterations == 0 {
        cacheOut := cacheOut[globI := res];
      }
      rowOut := Sub(row, cacheOut[globI]);
      rowOut := Add(rowOut, res);
      bOut := AddToBlock(b, n, globI, globI, bMat);
      ok := true;
    }

    /**
     * One step of the flux loop for cell globI: the flux term to its neighbour
     * number loc, scaled by the stored transmissibility, goes into `row` and
     * its derivatives into block (globI, globI), negated into block
     * (neighbour, globI). `ok` is false when the flux term raised.
     */
    static method AddFlux(sim: Simulator, nbrs: seq<seq<nat>>, tr: seq<seq<real>>, globI: nat, loc: nat, row: Vec, b: Blocks)
      returns (ok: bool, rowOut: Vec, bOut: Blocks)
      requires FluxesShaped(sim) && TransAligned(sim, nbrs, tr)
      requires globI < |nbrs| && loc < |nbrs[globI]|
      ensures |rowOut| == |row|
      ensures ok <==> sim.computeFlux(globI, nbrs[globI][loc]).Some?
      ensures !ok ==> rowOut == row && bOut == b
      ensures ok ==> rowOut == Add(row, ValueOf(FluxTerm(sim, nbrs, globI, loc)))
      ensures ok ==> bOut == FluxStep(b, sim.numEq, globI, JacobianOf(FluxTerm(sim, nbrs, globI, loc)), nbrs[globI][loc])
    {
      var n := sim.numEq;
      var globJ := nbrs[globI][loc];
      var flux := sim.computeFlux(globI, globJ);
      if flux.None? {
        return false, row, b;
      }
      var t := tr[globI][loc];
      ScaledShapes(flux.value, t, n);
      var adres := AdScaled(flux.value, t);
      var res, bMat := SetResAndJacobi(n, adres);
      rowOut := Add(row, res);
      bOut := AddToBlock(b, n, globI, globI, bMat);
      bMat := Negated(bMat);
      bOut := AddToBlock(bOut, n, globJ, globI, bMat);
      ok := true;
    }

    /**
     * The flux loop for cell globI: every flux term of the cell, in the order
     * of the neighbour table, goes into `row` and column globI of `b`; the
     * loop stops at the first flux term that raises. FluxPassComplete says
     * what the result holds.
     */
    static method AddFluxes(sim: Simulator, nbrs: seq<seq<nat>>, tr: seq<seq<real>>, globI: nat, row: Vec, b: Blocks)
      returns (ok: bool, rowOut: Vec, bOut: Blocks)
      requires FluxesShaped(sim) && TransAligned(sim, nbrs, tr) && globI < |nbrs|
      ensures |rowOut| == |row|
      ensures (ok, rowOut, bOut) == FluxPass(sim, nbrs, globI, row, b, 0)
    {
      rowOut, bOut := row, b;
      var numNeighbours := |nbrs[globI]|;
      for loc := 0 to numNeighbours
        invariant |rowOut| == |row|
        invariant FluxPass(sim, nbrs, globI, rowOut, bOut, loc) == FluxPass(sim, nbrs, globI, row, b, 0)
      {
        ok, rowOut, bOut := AddFlux(sim, nbrs, tr, globI, loc, rowOut, bOut);
        if !ok {
          return;
        }
      }
      ok := true;
    }

    /**
     * The loop body of the assembly for cell globI, on residual `res` and
     * blocks `b`: the storage term (through the storage cache) and every flux
     * term go into residual row globI, and their derivatives into column globI
     * of the Jacobian. `ok` is false when a term raised.
     */
    static method LinearizeCell(sim: Simulator, nbrs: seq<seq<nat>>, tr: seq<seq<real>>, globI: nat,
                                numIterations: nat, cache: seq<Vec>, res: seq<Vec>, b: Blocks)
      returns (ok: bool, cacheOut: seq<Vec>, resOut: seq<Vec>, bOut: Blocks)
      requires StorageShaped(sim) && FluxesShaped(sim) && sim.timeStepSize != 0.0 && TransAligned(sim, nbrs, tr)
      requires globI < |res| && |cache| == |res| == |nbrs|
      requires res[globI] == Zero(sim.numEq)
      ensures |resOut| == |res| && |cacheOut| == |cache|
      ensures ok <==> CellEvaluates(sim, nbrs, globI)
      ensures ok ==> cacheOut == cache[globI := CachedStorage(sim, cache, numIterations, globI)]
      ensures ok ==> resOut == res[globI := ResidualRow(sim, nbrs, cacheOut[globI], globI, |nbrs[globI]|)]
      ensures ok ==> bOut == CellBlocks(b, sim, nbrs, globI)
    {
      var row;
      ok, cacheOut, row, bOut := AddStorage(sim, globI, numIterations, cache, res[globI], b);
      if ok {
        FluxPassRuns(sim, nbrs, globI, row, bOut, 0);
        FluxPassRow(sim, nbrs, globI, cacheOut[globI], 0, bOut);
        FluxPassBlocks(sim, nbrs, globI, b, 0, row);
        ok, row, bOut := AddFluxes(sim, nbrs, tr, globI, row, bOut);
      }
      resOut := res[globI := row];
    }

    /**
     * The loop body of the cell loop for cell globI, on the state the loop
     * left after cells 0 .. globI-1: the storage cache and the residual hold
     * the final entries of those cells and the initial ones of the others,
     * and the Jacobian holds their columns. When cell globI evaluates, the
     * state is the one after cells 0 .. globI.
     */
    static method PassCell(sim: Simulator, nbrs: seq<seq<nat>>, tr: seq<seq<real>>, numIterations: nat,
                           cache: seq<Vec>, res: seq<Vec>, globI: nat, cacheCur: seq<Vec>, resCur: seq<Vec>, bCur: Blocks)
      returns (ok: bool, cacheOut: seq<Vec>, resOut: seq<Vec>, bOut: Blocks)
      requires StorageShaped(sim) && FluxesShaped(sim) && sim.timeStepSize != 0.0 && TransAligned(sim, nbrs, tr)
      requires |cache| == |res| == |nbrs| && res == ZeroRows(|res|, sim.numEq) && globI < |nbrs|
      requires cacheCur == Spliced(UpdatedCache(sim, cache, numIterations), cache, globI)
      requires resCur == Spliced(AssembledResidual(sim, nbrs, cache, numIterations), res, globI)
      requires bCur == AssembledColumns(sim, nbrs, globI)
      ensures |cacheOut| == |cache| && |resOut| == |res|
      ensures ok <==> CellEvaluates(sim, nbrs, globI)
      ensures ok ==> cacheOut == Spliced(UpdatedCache(sim, cache, numIterations), cache, globI + 1)
      ensures ok ==> resOut == Spliced(AssembledResidual(sim, nbrs, cache, numIterations), res, globI + 1)
      ensures ok ==> bOut == AssembledColumns(sim, nbrs, globI + 1)
    {
      ghost var cacheDone, resDone := UpdatedCache(sim, cache, numIterations), AssembledResidual(sim, nbrs, cache, numIterations);
      SplicedAt(resDone, res, globI, globI);
      ZeroRowsAt(|res|, sim.numEq);
      SplicedAt(cacheDone, cache, globI, globI);
      SplicedStep(cacheDone, cache, globI);
      SplicedStep(resDone, res, globI);
      ok, cacheOut, resOut, bOut := LinearizeCell(sim, nbrs, tr, globI, numIterations, cacheCur, resCur, bCur);
      if ok {
        AssembledColumnsStep(sim, nbrs, globI);
      }
    }

    /**
     * The loop over all cells of `linearize_`, from zero rows and no blocks.
     * `ok` is false when some cell's storage or flux term raised; the loop
     * stops there.
     */
    static method AssembleCells(sim: Simulator, nbrs: seq<seq<nat>>, tr: seq<seq<real>>,
                                numIterations: nat, cache: seq<Vec>, res: seq<Vec>)
      returns (ok: bool, cacheOut: seq<Vec>, resOut: seq<Vec>, bOut: Blocks)
      requires StorageShaped(sim) && FluxesShaped(sim) && sim.timeStepSize != 0.0 && TransAligned(sim, nbrs, tr)
      requires |cache| == |res| == |nbrs| && res == ZeroRows(|res|, sim.numEq)
      ensures |cacheOut| == |cache| && |resOut| == |res|
      ensures ok <==> CellsEvaluate(sim, nbrs, |nbrs|)
      ensures ok ==> cacheOut == UpdatedCache(sim, cache, numIterations)
      ensures ok ==> resOut == AssembledResidual(sim, nbrs, cache, numIterations)
      ensures ok ==> bOut == AssembledBlocks(sim, nbrs)
    {
      var numCells := |nbrs|;
      SplicedEnds(UpdatedCache(sim, cache, numIterations), cache);
      SplicedEnds(AssembledResidual(sim, nbrs, cache, numIterations), res);
      cacheOut, resOut, bOut := cache, res, map[];
      assert AssembledColumns(sim, nbrs, 0) == map[];
      for globI := 0 to numCells
        invariant CellsEvaluate(sim, nbrs, globI)
        invariant cacheOut == Spliced(UpdatedCache(sim, cache, numIterations), cache, globI)
        invariant resOut == Spliced(AssembledResidual(sim, nbrs, cache, numIterations), res, globI)
        invariant bOut == AssembledColumns(sim, nbrs, globI)
      {
        var cellOk;
        cellOk, cacheOut, resOut, bOut := PassCell(sim, nbrs, tr, numIterations, cache, res, globI, cacheOut, resOut, bOut);
        if !cellOk {
          return false, cacheOut, resOut, bOut;
        }
        CellsEvaluateStep(sim, nbrs, globI);
      }
      ok := true;
    }

    /**
     * `linearize_`: clears the system, assembles every cell, then lets the
     * well model add its source terms. `ok` is false when anything raised.
     */
    method Assemble(numIterations: nat, cache: seq<Vec>) returns (ok: bool, cacheOut: seq<Vec>)
      requires Valid() && hasMatrix && |cache| == |residual|
      modifies this`residual, this`blocks
      ensures Valid() && hasMatrix
      ensures |cacheOut| == |cache|
      ensures ok <==> PassSucceeds(simulator.value, neighbours, cache, numIterations)
      ensures CellsEvaluate(simulator.value, neighbours, |neighbours|) ==>
        && cacheOut == UpdatedCache(simulator.value, cache, numIterations)
        && residual == PassResult(simulator.value, neighbours, cache, numIterations).residual
        && blocks == PassResult(simulator.value, neighbours, cache, numIterations).blocks
    {
      ResetSystem();
      var sim := simulator.value;
      var res, b;
      ok, cacheOut, res, b := AssembleCells(sim, neighbours, trans, numIterations, cache, residual);
      residual, blocks := res, b;
      if !ok {
        return;
      }
      var eff := simulator.value.addReservoirSourceTerms(residual, blocks);
      residual := eff.residual;
      blocks := eff.blocks;
      ok := eff.raised.None?;
    }

    /**
     * `linearizeDomain`: builds the matrix on first use, runs the assembly,
     * and reduces its success over all processes; any failure anywhere makes
     * every process raise `NumericalIssue`. The structure build runs outside
     * the guarded assembly: an exception it raises escapes as itself, before
     * the assembly and the reduction.
     */
    method LinearizeDomain(numIterations: nat, cache: seq<Vec>, peers: seq<int>) returns (status: Status, cacheOut: seq<Vec>)
      requires Valid() && |cache| == simulator.value.numTotalDof
      modifies this`residual, this`hasMatrix, this`pattern, this`blocks, this`neighbours, this`trans, this`structureBuilds
      ensures simulator == old(simulator) && |cacheOut| == |cache|
      ensures !old(hasMatrix) && StructureRaise(simulator.value).Some? ==>
        && status == Raised(StructureRaise(simulator.value).value)
        && cacheOut == cache && residual == old(residual)
      ensures !old(hasMatrix) && NeighborsRaise(BasePattern(simulator.value), simulator.value.auxiliaryModules).Some? ==>
        Valid() && unchanged(this)
      ensures !old(hasMatrix) && NeighborsRaise(BasePattern(simulator.value), simulator.value.auxiliaryModules).None? &&
              status.Raised? && StructureRaise(simulator.value).Some? ==>
        && hasMatrix && pattern == FullPattern(simulator.value) && blocks == map[]
        && structureBuilds == old(structureBuilds) + 1
        && TablesUpToRaise(simulator.value, neighbours, trans, status.e)
      ensures old(hasMatrix) || StructureRaise(simulator.value).None? ==>
        && Valid() && hasMatrix
        && structureBuilds == old(structureBuilds) + (if !old(hasMatrix) then 1 else 0)
        && (status == Done || status == Raised(NumericalIssue))
        && (status == Raised(NumericalIssue) <==>
              CommMin(if PassSucceeds(simulator.value, neighbours, cache, numIterations) then 1 else 0, peers) == 0)
        && (CellsEvaluate(simulator.value, neighbours, |neighbours|) ==>
              && cacheOut == UpdatedCache(simulator.value, cache, numIterations)
              && residual == PassResult(simulator.value, neighbours, cache, numIterations).residual
              && blocks == PassResult(simulator.value, neighbours, cache, numIterations).blocks)
    {
      if !hasMatrix {
        status := InitFirstIteration();
        if status.Raised? {
          return status, cache;
        }
      }
      var ok;
      ok, cacheOut := Assemble(numIterations, cache);
      var succeeded := if ok then 1 else 0;
      succeeded := CommMin(succeeded, peers);
      if succeeded == 0 {
        status := Raised(NumericalIssue);
      } else {
        status := Done;
      }
    }

    /**
     * `linearizeAuxiliaryEquations`: each auxiliary module in turn linearizes
     * into the system; a std::exception is reduced over all processes and a
     * failure anywhere raises `NumericalIssue`; any other exception escapes.
     */
    method LinearizeAuxiliaryEquations(auxPeers: seq<seq<int>>) returns (status: Status)
      requires Valid() && hasMatrix
      modifies this`residual, this`blocks
      ensures Valid() && hasMatrix
      ensures (status, blocks, residual)
           == AuxiliaryPass(simulator.value.auxiliaryModules, old(blocks), old(residual), auxPeers, 0)
    {
      var mods := simulator.value.auxiliaryModules;
      for auxModIdx := 0 to |mods|
        invariant Valid() && hasMatrix
        invariant AuxiliaryPass(mods, blocks, residual, auxPeers, auxModIdx)
               == AuxiliaryPass(mods, old(blocks), old(residual), auxPeers, 0)
      {
        var eff := mods[auxModIdx].linearize(blocks, residual);
        residual := eff.residual;
        blocks := eff.blocks;
        if eff.raised.Some? && !IsStdException(eff.raised.value) {
          return Raised(eff.raised.value);
        }
        var succeeded := if eff.raised.None? then 1 else 0;
        succeeded := CommMin(succeeded, PeerFlags(auxPeers, auxModIdx));
        if succeeded == 0 {
          return Raised(NumericalIssue);
        }
      }
      status := Done;
    }

    /**
     * `linearize`: the domain, then the auxiliary equations; a failure of the
     * domain, including of its structure build, raises before the auxiliary
     * modules run.
     */
    method Linearize(numIterations: nat, cache: seq<Vec>, peers: seq<int>, auxPeers: seq<seq<int>>)
      returns (status: Status, cacheOut: seq<Vec>)
      requires Valid() && |cache| == simulator.value.numTotalDof
      modifies this`residual, this`hasMatrix, this`pattern, this`blocks, this`neighbours, this`trans, this`structureBuilds
      ensures simulator == old(simulator) && |cacheOut| == |cache|
      ensures !old(hasMatrix) && StructureRaise(simulator.value).Some? ==>
        status == Raised(StructureRaise(simulator.value).value) && residual == old(residual)
      ensures !old(hasMatrix) && NeighborsRaise(BasePattern(simulator.value), simulator.value.auxiliaryModules).None? &&
              status.Raised? && StructureRaise(simulator.value).Some? ==>
        && hasMatrix && pattern == FullPattern(simulator.value) && blocks == map[]
        && TablesUpToRaise(simulator.value, neighbours, trans, status.e)
      ensures old(hasMatrix) || StructureRaise(simulator.value).None? ==>
        && Valid() && hasMatrix
        && structureBuilds == old(structureBuilds) + (if !old(hasMatrix) then 1 else 0)
        && (CommMin(if PassSucceeds(simulator.value, neighbours, cache, numIterations) then 1 else 0, peers) == 0 ==>
              status == Raised(NumericalIssue))
    {
      status, cacheOut := LinearizeDomain(numIterations, cache, peers);
      if status.Done? {
        status := LinearizeAuxiliaryEquations(auxPeers);
      }
    }
  }
}
