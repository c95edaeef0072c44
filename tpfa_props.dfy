/**
 * What the TPFA assembly pass computes, stated without reference to the
 * order in which the loop writes: the Jacobian has a block in column i
 * exactly for cell i and its neighbours, the diagonal block is the storage
 * derivative plus every flux derivative, the block of neighbour j is the
 * negated flux derivative towards j, so each column adds up to the storage
 * derivative (the flux derivatives cancel); residual row i is the fresh
 * storage minus the cached storage plus every flux value.
 */
module TpfaProperties {
  import opened Wrappers
  import opened Linalg
  import opened Collective
  import opened Tpfa

  // ---------------------------------------------------------------------
  // One column.

  lemma {:induction false} ColumnRowsMembership(i: nat, ts: seq<nat>, k: nat, r: nat)
    requires k <= |ts|
    ensures r in ColumnRows(i, ts, k) <==> r == i || r in ts[..k]
    decreases k
  {
    if k > 0 {
      ColumnRowsMembership(i, ts, k - 1, r);
      assert ts[..k] == ts[..k - 1] + [ts[k - 1]];
    }
  }

  /** A row that is neither i nor one of the first k targets holds a zero block. */
  lemma {:induction false} ColumnOther(n: nat, i: nat, s: Block, fs: seq<Block>, ts: seq<nat>, k: nat, r: nat)
    requires k <= |fs| && k <= |ts| && r != i && r !in ts[..k]
    ensures ColumnBlock(n, i, s, fs, ts, k, r) == ZeroBlock(n)
    decreases k
  {
    if k > 0 {
      assert ts[..k - 1] == ts[..k][..k - 1];
      assert ts[k - 1] in ts[..k];
      ColumnOther(n, i, s, fs, ts, k - 1, r);
    }
  }

  /** When i is none of the targets, the diagonal block is s plus the first k flux blocks. */
  lemma {:induction false} ColumnDiagonal(n: nat, i: nat, s: Block, fs: seq<Block>, ts: seq<nat>, k: nat)
    requires k <= |fs| && k <= |ts| && IsBlock(s, n) && i !in ts[..k]
    ensures ColumnBlock(n, i, s, fs, ts, k, i) == BlockTotal(s, fs[..k])
    decreases k
  {
    if k == 0 {
      ZeroBlockAdd(s, n);
    } else {
      assert ts[..k - 1] == ts[..k][..k - 1];
      assert ts[k - 1] in ts[..k];
      assert fs[..k][..k - 1] == fs[..k - 1];
      ColumnDiagonal(n, i, s, fs, ts, k - 1);
    }
  }

  /**
   * When the targets are distinct and differ from i, the block of target
   * ts[l] is the negated flux block fs[l].
   */
  lemma {:induction false} ColumnOffDiagonal(n: nat, i: nat, s: Block, fs: seq<Block>, ts: seq<nat>, k: nat, l: nat)
    requires l < k <= |fs| && k <= |ts| && IsBlock(fs[l], n)
    requires i !in ts[..k]
    requires forall a, b :: 0 <= a < b < k ==> ts[a] != ts[b]
    ensures ColumnBlock(n, i, s, fs, ts, k, ts[l]) == Negated(fs[l])
    decreases k
  {
    assert ts[l] in ts[..k];
    assert ts[..k - 1] == ts[..k][..k - 1];
    if l == k - 1 {
      assert ts[l] !in ts[..k - 1];
      ColumnOther(n, i, s, fs, ts, k - 1, ts[l]);
      NegatedShape(fs[l], n);
      ZeroBlockAdd(Negated(fs[l]), n);
    } else {
      ColumnOffDiagonal(n, i, s, fs, ts, k - 1, l);
    }
  }

  /** The blocks of the rows ts, in order, in column i after all |ts| flux steps. */
  function TargetBlocks(n: nat, i: nat, s: Block, fs: seq<Block>, ts: seq<nat>): (bs: seq<Block>)
    requires |fs| == |ts|
    ensures |bs| == |ts|
  {
    seq(|ts|, l requires 0 <= l < |ts| => ColumnBlock(n, i, s, fs, ts, |ts|, ts[l]))
  }

  /**
   * Conservation in one column: the diagonal block plus the blocks of all
   * targets is the storage block s.
   */
  lemma ColumnConservation(n: nat, i: nat, s: Block, fs: seq<Block>, ts: seq<nat>)
    requires |fs| == |ts| && IsBlock(s, n) && AllBlocks(fs, n)
    requires i !in ts
    requires forall a, b :: 0 <= a < b < |ts| ==> ts[a] != ts[b]
    ensures BlockTotal(ColumnBlock(n, i, s, fs, ts, |ts|, i), TargetBlocks(n, i, s, fs, ts)) == s
  {
    assert ts[..|ts|] == ts && fs[..|fs|] == fs;
    ColumnDiagonal(n, i, s, fs, ts, |ts|);
    assert TargetBlocks(n, i, s, fs, ts) == Negateds(fs) by {
      forall l | 0 <= l < |ts| ensures TargetBlocks(n, i, s, fs, ts)[l] == Negateds(fs)[l] {
        ColumnOffDiagonal(n, i, s, fs, ts, |ts|, l);
      }
    }
    BlockTotalNegated(s, fs, n);
  }

  // ---------------------------------------------------------------------
  // The Jacobian after the cell loop.

  /** Block (r, c) of the assembled Jacobian, for r the cell c or one of its neighbours. */
  lemma AssembledBlockAt(sim: Simulator, nbrs: seq<seq<nat>>, c: nat, r: nat)
    requires c < |nbrs| && sim.timeStepSize != 0.0 && (r == c || r in nbrs[c])
    ensures BlockAt(AssembledBlocks(sim, nbrs), sim.numEq, r, c)
         == ColumnBlock(sim.numEq, c, StorageBlock(sim, c), FluxBlocks(sim, nbrs, c), nbrs[c], |nbrs[c]|, r)
  {
    ColumnRowsMembership(c, nbrs[c], |nbrs[c]|, r);
    assert nbrs[c][..|nbrs[c]|] == nbrs[c];
    assert (r, c) in ColumnsKeys(nbrs, |nbrs|);
  }

  /**
   * The Jacobian the pass assembles has block (r, c) exactly when c is a
   * DOF and r is c itself or a DOF that shares an element with c, c being
   * primary there.
   */
  lemma AssembledPattern(sim: Simulator, r: nat, c: nat)
    requires WfElements(sim.elements, sim.numTotalDof) && sim.timeStepSize != 0.0
    ensures (r, c) in AssembledBlocks(sim, NeighbourTable(sim)) <==>
            c < sim.numTotalDof && (r == c || Couples(sim.elements, c, r))
  {
    var nbrs := NeighbourTable(sim);
    if c < sim.numTotalDof {
      NeighbourRow(sim, c, r);
      ColumnRowsMembership(c, nbrs[c], |nbrs[c]|, r);
      assert nbrs[c][..|nbrs[c]|] == nbrs[c];
      if r == c && Couples(sim.elements, c, r) {
        StencilPatternMembership(sim.numTotalDof, sim.elements, c, c);
      }
      if (r, c) in AssembledBlocks(sim, nbrs) {
        assert r in ColumnRows(c, nbrs[c], |nbrs[c]|);
      }
      if r in ColumnRows(c, nbrs[c], |nbrs[c]|) {
        assert (r, c) in ColumnsKeys(nbrs, |nbrs|);
      }
    }
  }

  /** Each auxiliary module's `addNeighbors` keeps the number of rows and only adds to each row. */
  ghost predicate OnlyAdds(mods: seq<AuxiliaryModule>)
  {
    forall m, q :: 0 <= m < |mods| ==>
      |mods[m].addNeighbors(q)| == |q| && forall k :: 0 <= k < |q| ==> q[k] <= mods[m].addNeighbors(q)[k]
  }

  /** Auxiliary modules that only add keep every row of the pattern they extend. */
  lemma {:induction false} AuxiliaryNeighborsGrow(p: seq<set<nat>>, mods: seq<AuxiliaryModule>, r: nat)
    requires OnlyAdds(mods) && r < |p|
    ensures |WithAuxiliaryNeighbors(p, mods)| == |p| && p[r] <= WithAuxiliaryNeighbors(p, mods)[r]
    decreases |mods|
  {
    if mods != [] {
      var front := mods[..|mods| - 1];
      assert OnlyAdds(front) by {
        forall m | 0 <= m < |front| ensures front[m] == mods[m] { }
      }
      AuxiliaryNeighborsGrow(p, front, r);
    }
  }

  /** Every stencil relation runs both ways: if i couples with x, x couples with i. */
  ghost predicate SymmetricStencils(elems: seq<Stencil>)
  {
    forall i, x :: Couples(elems, i, x) ==> Couples(elems, x, i)
  }

  /** Every DOF is a primary DOF of some element, as every cell is in TPFA. */
  ghost predicate EveryDofPrimary(elems: seq<Stencil>, n: nat)
  {
    forall i :: 0 <= i < n ==> Couples(elems, i, i)
  }

  /**
   * Every block the cell loop writes was reserved: with symmetric stencils,
   * every DOF primary somewhere, and auxiliary modules that only add, block
   * (r, c) of the assembled Jacobian has c in row r of the full pattern.
   */
  lemma AssembledWithinPattern(sim: Simulator, r: nat, c: nat)
    requires WfElements(sim.elements, sim.numTotalDof) && sim.timeStepSize != 0.0
    requires SymmetricStencils(sim.elements) && EveryDofPrimary(sim.elements, sim.numTotalDof)
    requires OnlyAdds(sim.auxiliaryModules)
    requires (r, c) in AssembledBlocks(sim, NeighbourTable(sim))
    ensures r < |FullPattern(sim)| && c in FullPattern(sim)[r]
  {
    AssembledPattern(sim, r, c);
    assert Couples(sim.elements, r, c);
    var e, a, b :| 0 <= e < |sim.elements| && 0 <= a < sim.elements[e].numPrimaryDof && a < |sim.elements[e].dofs|
      && 0 <= b < |sim.elements[e].dofs| && sim.elements[e].dofs[a] == r && sim.elements[e].dofs[b] == c;
    assert WfStencil(sim.elements[e], sim.numTotalDof);
    StencilPatternMembership(sim.numTotalDof, sim.elements, r, c);
    AuxiliaryNeighborsGrow(BasePattern(sim), sim.auxiliaryModules, r);
  }

  /** Facts about one cell's neighbour row that the column lemmas need. */
  lemma NeighbourRowDistinct(sim: Simulator, i: nat)
    requires WfElements(sim.elements, sim.numTotalDof) && i < sim.numTotalDof
    ensures i !in NeighbourTable(sim)[i]
    ensures forall a, b :: 0 <= a < b < |NeighbourTable(sim)[i]| ==> NeighbourTable(sim)[i][a] != NeighbourTable(sim)[i][b]
  {
    NeighbourRow(sim, i, i);
  }

  /** The diagonal block of cell i is its storage derivative plus all its flux derivatives. */
  lemma AssembledDiagonal(sim: Simulator, i: nat)
    requires WfSimulator(sim) && i < sim.numTotalDof && sim.computeStorage(i).Some?
    ensures BlockAt(AssembledBlocks(sim, NeighbourTable(sim)), sim.numEq, i, i)
         == BlockTotal(StorageBlock(sim, i), FluxBlocks(sim, NeighbourTable(sim), i))
  {
    var nbrs := NeighbourTable(sim);
    NeighbourRowDistinct(sim, i);
    StorageShape(sim, i);
    AssembledBlockAt(sim, nbrs, i, i);
    assert nbrs[i][..|nbrs[i]|] == nbrs[i];
    var fs := FluxBlocks(sim, nbrs, i);
    assert fs[..|fs|] == fs;
    ColumnDiagonal(sim.numEq, i, StorageBlock(sim, i), fs, nbrs[i], |nbrs[i]|);
  }

  /** The block of cell i's neighbour number l in column i is the negated flux derivative towards it. */
  lemma AssembledOffDiagonal(sim: Simulator, i: nat, l: nat)
    requires WfSimulator(sim) && i < sim.numTotalDof && l < |NeighbourTable(sim)[i]|
    requires sim.computeFlux(i, NeighbourTable(sim)[i][l]).Some?
    ensures BlockAt(AssembledBlocks(sim, NeighbourTable(sim)), sim.numEq, NeighbourTable(sim)[i][l], i)
         == Negated(FluxBlocks(sim, NeighbourTable(sim), i)[l])
  {
    var nbrs := NeighbourTable(sim);
    NeighbourRowDistinct(sim, i);
    FluxShape(sim, nbrs, i, l);
    AssembledBlockAt(sim, nbrs, i, nbrs[i][l]);
    assert nbrs[i][..|nbrs[i]|] == nbrs[i];
    ColumnOffDiagonal(sim.numEq, i, StorageBlock(sim, i), FluxBlocks(sim, nbrs, i), nbrs[i], |nbrs[i]|, l);
  }

  /**
   * Conservation: when cell i's storage and flux terms evaluate, the blocks
   * of column i (the diagonal one, then those of its neighbours in order)
   * add up to the storage derivative: what leaves cell i towards a
   * neighbour arrives there.
   */
  lemma AssembledColumnConservation(sim: Simulator, i: nat)
    requires WfSimulator(sim) && i < sim.numTotalDof && CellEvaluates(sim, NeighbourTable(sim), i)
    ensures
      var nbrs, a := NeighbourTable(sim), AssembledBlocks(sim, NeighbourTable(sim));
      BlockTotal(BlockAt(a, sim.numEq, i, i), seq(|nbrs[i]|, l requires 0 <= l < |nbrs[i]| => BlockAt(a, sim.numEq, nbrs[i][l], i)))
        == StorageBlock(sim, i)
  {
    var nbrs, a := NeighbourTable(sim), AssembledBlocks(sim, NeighbourTable(sim));
    var n, s, fs, ts := sim.numEq, StorageBlock(sim, i), FluxBlocks(sim, nbrs, i), nbrs[i];
    NeighbourRowDistinct(sim, i);
    StorageShape(sim, i);
    assert AllBlocks(fs, n) by {
      forall l | 0 <= l < |fs| ensures IsBlock(fs[l], n) {
        FluxShape(sim, nbrs, i, l);
      }
    }
    AssembledBlockAt(sim, nbrs, i, i);
    var column := seq(|ts|, l requires 0 <= l < |ts| => BlockAt(a, n, ts[l], i));
    assert column == TargetBlocks(n, i, s, fs, ts) by {
      forall l | 0 <= l < |ts| ensures column[l] == TargetBlocks(n, i, s, fs, ts)[l] {
        AssembledBlockAt(sim, nbrs, i, ts[l]);
      }
    }
    ColumnConservation(n, i, s, fs, ts);
  }

  lemma StorageShape(sim: Simulator, i: nat)
    requires WfSimulator(sim) && sim.computeStorage(i).Some?
    ensures IsBlock(StorageBlock(sim, i), sim.numEq)
    ensures |ValueOf(StorageTerm(sim, i))| == sim.numEq
  {
    ScaledShapes(sim.computeStorage(i).value, sim.dofTotalVolume(i) / sim.timeStepSize, sim.numEq);
  }

  lemma FluxShape(sim: Simulator, nbrs: seq<seq<nat>>, i: nat, l: nat)
    requires FluxesShaped(sim) && i < |nbrs| && l < |nbrs[i]| && sim.computeFlux(i, nbrs[i][l]).Some?
    ensures IsBlock(FluxBlocks(sim, nbrs, i)[l], sim.numEq)
    ensures |ValueOf(FluxTerm(sim, nbrs, i, l))| == sim.numEq
  {
    ScaledShapes(sim.computeFlux(i, nbrs[i][l]).value, sim.transmissibility(i, nbrs[i][l]), sim.numEq);
  }

  // ---------------------------------------------------------------------
  // The residual after the cell loop.

  /** The values of cell i's first k flux terms, added up from zero. */
  function FluxValues(sim: Simulator, nbrs: seq<seq<nat>>, i: nat, k: nat): (v: Vec)
    requires i < |nbrs| && k <= |nbrs[i]|
    ensures |v| == sim.numEq
    decreases k
  {
    if k == 0 then Zero(sim.numEq) else Add(FluxValues(sim, nbrs, i, k - 1), ValueOf(FluxTerm(sim, nbrs, i, k - 1)))
  }

  /** Residual row i is the fresh storage minus the cached storage, plus the values of its flux terms. */
  lemma {:induction false} ResidualRowSplit(sim: Simulator, nbrs: seq<seq<nat>>, cached: Vec, i: nat, k: nat)
    requires WfSimulator(sim) && i < |nbrs| && k <= |nbrs[i]| && |cached| == sim.numEq
    requires sim.computeStorage(i).Some? && FluxesEvaluate(sim, nbrs, i, k)
    ensures ResidualRow(sim, nbrs, cached, i, k)
         == Add(Sub(ValueOf(StorageTerm(sim, i)), cached), FluxValues(sim, nbrs, i, k))
    decreases k
  {
    var v := ValueOf(StorageTerm(sim, i));
    StorageShape(sim, i);
    if k == 0 {
      SubFromZeroThenAdd(cached, v);
      AddZero(Sub(v, cached));
    } else {
      ResidualRowSplit(sim, nbrs, cached, i, k - 1);
      FluxShape(sim, nbrs, i, k - 1);
      AddAssoc(Sub(v, cached), FluxValues(sim, nbrs, i, k - 1), ValueOf(FluxTerm(sim, nbrs, i, k - 1)));
    }
  }

  /**
   * On the first Newton iteration of a time step the storage cache is
   * refreshed before it is subtracted, so residual row i holds only the sum
   * of the flux values.
   */
  lemma FirstIterationResidual(sim: Simulator, nbrs: seq<seq<nat>>, cache: seq<Vec>, i: nat)
    requires WfSimulator(sim) && |nbrs| == |cache| && i < |nbrs| && CellEvaluates(sim, nbrs, i)
    ensures AssembledResidual(sim, nbrs, cache, 0)[i] == FluxValues(sim, nbrs, i, |nbrs[i]|)
  {
    var v := ValueOf(StorageTerm(sim, i));
    StorageShape(sim, i);
    ResidualRowSplit(sim, nbrs, v, i, |nbrs[i]|);
    SubSelf(v);
    ZeroAdd(FluxValues(sim, nbrs, i, |nbrs[i]|));
  }

  /** On a later iteration the cached storage is the one of the time step's first iteration. */
  lemma LaterIterationResidual(sim: Simulator, nbrs: seq<seq<nat>>, cache: seq<Vec>, numIterations: nat, i: nat)
    requires WfSimulator(sim) && |nbrs| == |cache| && i < |nbrs| && CellEvaluates(sim, nbrs, i)
    requires numIterations > 0 && |cache[i]| == sim.numEq
    ensures AssembledResidual(sim, nbrs, cache, numIterations)[i]
         == Add(Sub(ValueOf(StorageTerm(sim, i)), cache[i]), FluxValues(sim, nbrs, i, |nbrs[i]|))
    ensures UpdatedCache(sim, cache, numIterations)[i] == cache[i]
  {
    ResidualRowSplit(sim, nbrs, cache[i], i, |nbrs[i]|);
  }

  // ---------------------------------------------------------------------
  // The auxiliary modules.

  /**
   * The auxiliary pass ends normally, with `NumericalIssue`, or with an
   * exception that does not derive from std::exception (which is never
   * reduced across processes).
   */
  lemma {:induction false} AuxiliaryPassOutcome(mods: seq<AuxiliaryModule>, blocks: Blocks, residual: seq<Vec>,
                                                auxPeers: seq<seq<int>>, m: nat)
    ensures var st := AuxiliaryPass(mods, blocks, residual, auxPeers, m).0;
      st == Done || st == Raised(NumericalIssue) || (st.Raised? && !IsStdException(st.e))
    decreases |mods| - m
  {
    if m < |mods| {
      var eff := mods[m].linearize(blocks, residual);
      AuxiliaryPassOutcome(mods, eff.blocks, eff.residual, auxPeers, m + 1);
    }
  }

  /**
   * After module m linearized without a foreign exception, and with every
   * process reporting a success flag: when module m raised or another process
   * failed, the pass ends there with `NumericalIssue` before the next module
   * runs; otherwise it goes on with the next module.
   */
  lemma AuxiliaryPassAgreement(mods: seq<AuxiliaryModule>, blocks: Blocks, residual: seq<Vec>,
                               auxPeers: seq<seq<int>>, m: nat)
    requires m < |mods|
    requires var eff := mods[m].linearize(blocks, residual); eff.raised.None? || IsStdException(eff.raised.value)
    requires forall k :: 0 <= k < |PeerFlags(auxPeers, m)| ==> IsFlag(PeerFlags(auxPeers, m)[k])
    ensures var eff := mods[m].linearize(blocks, residual);
      if eff.raised.Some? || 0 in PeerFlags(auxPeers, m)
      then AuxiliaryPass(mods, blocks, residual, auxPeers, m) == (Raised(NumericalIssue), eff.blocks, eff.residual)
      else AuxiliaryPass(mods, blocks, residual, auxPeers, m) == AuxiliaryPass(mods, eff.blocks, eff.residual, auxPeers, m + 1)
  {
    var eff := mods[m].linearize(blocks, residual);
    var succeeded := if eff.raised.None? then 1 else 0;
    var peers := PeerFlags(auxPeers, m);
    CommMinZeroIffAnyFailed(succeeded, peers);
    if 0 in peers {
      var k :| 0 <= k < |peers| && peers[k] == 0;
    }
  }
}
