/**
 * The heuristic as a whole (src/main.c:443-664): generation fills the queue,
 * admission grows the lists within the error budget, and the redundancy
 * pass removes the products the others cover.  What the three phases keep
 * together is stated against the lists the heuristic starts from.
 */
module Heuristic {
  import opened Cube
  import opened Queue
  import opened PlaLists
  import opened Generation
  import opened Admission
  import opened Redundancy

  /** Every generated entry is well formed for admission. */
  lemma GeneratedWellFormed(lists: seq<seq<Cube>>, offs: seq<set<Minterm>>, ct: nat, w: nat, n: Node)
    requires |lists| == |offs|
    requires forall k :: 0 <= k < |lists| ==> AllOfWidth(lists[k], w)
    requires n in AllCands(lists, |lists|, offs, ct, w)
    ensures WellFormed(n.data, offs, w) && n.data.valid
  {
    AllCandsFrom(lists, |lists|, offs, ct, w, n);
    GeneratedFacts(n, lists[n.data.outputF], n.data.outputF, offs[n.data.outputF], ct, w);
  }

  /** The queue that generation leaves holds only well-formed entries. */
  lemma GeneratedQueueOk(q: PriorityQueue, lists: seq<seq<Cube>>, offs: seq<set<Minterm>>, ct: nat, w: nat)
    requires |lists| == |offs|
    requires forall k :: 0 <= k < |lists| ==> AllOfWidth(lists[k], w)
    requires q.Valid() && q.contents == multiset{} + Bag(AllCands(lists, |lists|, offs, ct, w))
    ensures QueueOk(q, offs, w)
  {
    BagIsMultiset(AllCands(lists, |lists|, offs, ct, w));
    forall e | e in q.contents ensures WellFormed(e.data, offs, w) {
      GeneratedWellFormed(lists, offs, ct, w, e);
    }
  }

  /** The redundancy pass keeps an output's ledger, with one counter less per removed product. */
  lemma PruneKeeps(L: seq<Cube>, n: int, err: int, L0: seq<Cube>, n0: int,
                   off: set<Minterm>, dc: set<Minterm>, w: nat)
    requires AllOfWidth(L, w) && OutputLedger(L, n, err, L0, n0, off, dc, w)
    ensures AllOfWidth(Prune(L), w) && Irredundant(Prune(L))
    ensures OutputLedger(Prune(L), n - (|L| - |Prune(L)|), err, L0, n0, off, dc, w)
  {
    var P := Prune(L);
    PruneUnion(L);
    PruneIrredundant(L);
    IrredundantNoDuplicates(P);
    PruneFromMembers([], L);
    forall k | 0 <= k < |P| ensures |P[k]| == w {
      assert P[k] in P;
    }
  }

  /** The ledger of every output after the redundancy pass. */
  lemma LedgerPrune(lists: seq<seq<Cube>>, counts: seq<int>, errs: seq<int>, lists0: seq<seq<Cube>>, n0: seq<int>,
                    offs: seq<set<Minterm>>, dcs: seq<set<Minterm>>, w: nat,
                    lists': seq<seq<Cube>>, counts': seq<int>)
    requires LedgerOf(lists, counts, errs, lists0, n0, offs, dcs, w)
    requires |lists'| == |lists| && |counts'| == |counts|
    requires forall o :: 0 <= o < |lists| ==> lists'[o] == Prune(lists[o])
    requires forall o :: 0 <= o < |lists| ==> counts'[o] == counts[o] - (|lists[o]| - |Prune(lists[o])|)
    ensures LedgerOf(lists', counts', errs, lists0, n0, offs, dcs, w)
    ensures forall o :: 0 <= o < |lists'| ==> Irredundant(lists'[o])
  {
    forall o | 0 <= o < |lists|
      ensures AllOfWidth(lists'[o], w) && Irredundant(lists'[o])
      ensures OutputLedger(lists'[o], counts'[o], errs[o], lists0[o], n0[o], offs[o], dcs[o], w)
    {
      assert OutputLedger(lists[o], counts[o], errs[o], lists0[o], n0[o], offs[o], dcs[o], w);
      PruneKeeps(lists[o], counts[o], errs[o], lists0[o], n0[o], offs[o], dcs[o], w);
    }
  }

  /**
   * The approximation (src/main.c:443-664) over the lists g holds: the
   * outcome for every output is a list without redundant products that
   * covers at least the starting function, whose error against the off-set
   * has grown by at most current_errors, within the budget.  The counters
   * are checked against their values after generation.
   */
  method Approximate(g: CubeLists, offs: seq<set<Minterm>>, dcs: seq<set<Minterm>>, ct: nat, mode: ErrorMode, w: nat)
      returns (errs: array<int>, total: nat)
    requires g.Valid() && |offs| == |dcs| == |g.lists|
    requires forall o :: 0 <= o < |g.lists| ==> AllOfWidth(g.lists[o], w)
    modifies g, g.nCubes
    ensures fresh(errs)
    ensures Ledger(g, errs, old(g.lists), Counted(old(g.nCubes[..]), old(g.lists), |old(g.lists)|, offs, ct, w), offs, dcs, w)
    ensures Budget(errs, total, ct, mode)
    ensures forall o :: 0 <= o < |g.lists| ==> Irredundant(g.lists[o])
  {
    var q := new PriorityQueue();
    ghost var lists0 := g.lists;
    GenerateCandidates(g, offs, ct, w, q);
    GeneratedQueueOk(q, lists0, offs, ct, w);
    ghost var n0 := g.nCubes[..];
    errs, total := Admit(g, q, offs, dcs, ct, mode, w);
    ghost var lists1 := g.lists;
    ghost var counts1 := g.nCubes[..];
    ghost var errs1 := errs[..];
    PruneAll(g);
    assert errs[..] == errs1;
    LedgerPrune(lists1, counts1, errs1, lists0, n0, offs, dcs, w, g.lists, g.nCubes[..]);
  }

  /**
   * The error bound of the heuristic: when the off-set is the complement of
   * the starting lists' function (src/main.c:803-807), the error of the final
   * list of an output, |union ∩ off \ dc|, is at most current_errors[o];
   * the starting function is still covered, and N_CUBES[o] stays at least the
   * list's length.
   */
  lemma ErrorBound(L: seq<Cube>, n: int, err: int, L0: seq<Cube>, n0: int,
                   off: set<Minterm>, dc: set<Minterm>, w: nat)
    requires off == AllMinterms(w) - UnionSet(L0)
    requires OutputLedger(L, n, err, L0, n0, off, dc, w) && n0 >= |L0|
    ensures |ErrorSet(L, off, dc)| <= err
    ensures UnionSet(L0) <= UnionSet(L)
    ensures n >= |L|
  {
    assert ErrorSet(L0, off, dc) == {};
  }

  /** Every output's final error is at most its current_errors counter. */
  lemma OutputErrorBound(lists: seq<seq<Cube>>, counts: seq<int>, errs: seq<int>, lists0: seq<seq<Cube>>, n0: seq<int>,
                         offs: seq<set<Minterm>>, dcs: seq<set<Minterm>>, w: nat, o: nat)
    requires LedgerOf(lists, counts, errs, lists0, n0, offs, dcs, w)
    requires o < |lists| && offs[o] == AllMinterms(w) - UnionSet(lists0[o]) && n0[o] >= |lists0[o]|
    ensures |ErrorSet(lists[o], offs[o], dcs[o])| <= errs[o]
  {
    assert OutputLedger(lists[o], counts[o], errs[o], lists0[o], n0[o], offs[o], dcs[o], w);
    ErrorBound(lists[o], counts[o], errs[o], lists0[o], n0[o], offs[o], dcs[o], w);
  }

  /** In per-output mode every output's final error is at most ct. */
  lemma MultipleOutputBound(lists: seq<seq<Cube>>, counts: seq<int>, errs: seq<int>, lists0: seq<seq<Cube>>, n0: seq<int>,
                            offs: seq<set<Minterm>>, dcs: seq<set<Minterm>>, w: nat, total: int, ct: nat, o: nat)
    requires LedgerOf(lists, counts, errs, lists0, n0, offs, dcs, w) && BudgetOf(errs, total, ct, MultipleOutput)
    requires o < |lists| && offs[o] == AllMinterms(w) - UnionSet(lists0[o]) && n0[o] >= |lists0[o]|
    ensures |ErrorSet(lists[o], offs[o], dcs[o])| <= ct
  {
    OutputErrorBound(lists, counts, errs, lists0, n0, offs, dcs, w, o);
  }

  /** The error over outputs 0..k-1: the sum of |union ∩ off \ dc| per output. */
  function TotalError(lists: seq<seq<Cube>>, offs: seq<set<Minterm>>, dcs: seq<set<Minterm>>, k: nat): int
    requires k <= |lists| == |offs| == |dcs|
  {
    if k == 0 then 0 else TotalError(lists, offs, dcs, k - 1) + |ErrorSet(lists[k - 1], offs[k - 1], dcs[k - 1])|
  }

  /** Per-output errors bounded by the counters sum to at most the counters' sum. */
  lemma {:induction false} TotalErrorBound(lists: seq<seq<Cube>>, offs: seq<set<Minterm>>, dcs: seq<set<Minterm>>,
                                           errs: seq<int>, k: nat)
    requires k <= |lists| == |offs| == |dcs| == |errs|
    requires forall o :: 0 <= o < |lists| ==> |ErrorSet(lists[o], offs[o], dcs[o])| <= errs[o]
    ensures TotalError(lists, offs, dcs, k) <= Sum(errs[..k])
    decreases k
  {
    if k > 0 {
      TotalErrorBound(lists, offs, dcs, errs, k - 1);
      assert errs[..k][..k - 1] == errs[..k - 1];
    }
  }

  /** In global mode the error summed over all outputs is at most ct. */
  lemma GlobalOutputBound(lists: seq<seq<Cube>>, counts: seq<int>, errs: seq<int>, lists0: seq<seq<Cube>>, n0: seq<int>,
                          offs: seq<set<Minterm>>, dcs: seq<set<Minterm>>, w: nat, total: int, ct: nat)
    requires LedgerOf(lists, counts, errs, lists0, n0, offs, dcs, w) && BudgetOf(errs, total, ct, GlobalOutput)
    requires forall o :: 0 <= o < |lists| ==> offs[o] == AllMinterms(w) - UnionSet(lists0[o]) && n0[o] >= |lists0[o]|
    ensures TotalError(lists, offs, dcs, |lists|) <= ct
  {
    forall o | 0 <= o < |lists| ensures |ErrorSet(lists[o], offs[o], dcs[o])| <= errs[o] {
      OutputErrorBound(lists, counts, errs, lists0, n0, offs, dcs, w, o);
    }
    TotalErrorBound(lists, offs, dcs, errs, |lists|);
    assert errs[..|lists|] == errs;
  }
}
