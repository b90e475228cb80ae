/**
 * The admission phase of the heuristic (src/main.c:541-602): candidates
 * leave the queue best first; a valid one whose effective error fits the
 * budget is accepted.  Accepting a candidate clears the valid flag of the
 * queued entries it makes redundant (invalidateRedundantInQueue), removes the
 * list products it covers (removeCoveredProducts) and appends its cube to its
 * output's list.
 */
module Admission {
  import opened Cube
  import opened Queue
  import opened PlaLists
  import opened Generation

  /** error_mode: a budget of ct per output, or ct over all outputs together. */
  datatype ErrorMode = MultipleOutput | GlobalOutput

  /**
   * What generation records in a candidate: it belongs to one of the
   * outputs, its cube has w literals, offset_inters is the cube's
   * intersection with its output's off-set, and compl_min is its size.
   */
  predicate WellFormed(c: Candidate, offs: seq<set<Minterm>>, w: nat) {
    && c.outputF < |offs|
    && |c.cube| == w
    && c.offsetInters == Inters(c.cube, offs[c.outputF])
    && c.complMin == |c.offsetInters|
  }

  /** Every entry a queue holds is well formed. */
  ghost predicate QueueOk(q: PriorityQueue, offs: seq<set<Minterm>>, w: nat)
    reads q, q.nodes
  {
    q.Valid() && forall e :: e in q.contents ==> WellFormed(e.data, offs, w)
  }

  /**
   * effective_minterms (src/main.c:551-554): compl_min less the off-set
   * minterms of the candidate that lie in the output's dc-set.
   */
  function Effective(c: Candidate, dc: set<Minterm>): int {
    c.complMin - |c.offsetInters * dc|
  }

  /** The off-set minterms outside the dc-set that a list of cubes covers. */
  function ErrorSet(L: seq<Cube>, off: set<Minterm>, dc: set<Minterm>): set<Minterm> {
    UnionSet(L) * off - dc
  }

  /**
   * The effective error of a well-formed candidate is the number of off-set
   * minterms outside the dc-set its cube covers, so it is never negative and
   * the abort at src/main.c:556-561 cannot happen.
   */
  lemma EffectiveIsAddedError(c: Candidate, offs: seq<set<Minterm>>, w: nat, dc: set<Minterm>)
    requires WellFormed(c, offs, w)
    ensures Effective(c, dc) == |CubeSet(c.cube) * offs[c.outputF] - dc|
    ensures Effective(c, dc) >= 0
  {
    IntersIsConjunction(c.cube, offs[c.outputF]);
    var a := c.offsetInters;
    assert a == a * dc + (a - dc);
    assert (a * dc) * (a - dc) == {};
  }

  /* ---------------------------------------------------------------------- */
  /* invalidateRedundantInQueue (src/main.c:177-190)                         */
  /* ---------------------------------------------------------------------- */

  /** A queued candidate d is redundant once c is accepted: same output, and same source product or same cube. */
  predicate Redundant(c: Candidate, d: Candidate) {
    d.outputF == c.outputF && (d.productNumber == c.productNumber || d.cube == c.cube)
  }

  /** The slot after invalidation: a redundant entry loses its valid flag, nothing else changes. */
  function Cleared(n: Node, c: Candidate): (r: Node)
    ensures r.priority == n.priority
    ensures r.data.valid == (n.data.valid && !Redundant(c, n.data))
    ensures r.data.(valid := n.data.valid) == n.data
  {
    if Redundant(c, n.data) then Node(n.priority, n.data.(valid := false)) else n
  }

  /** Equal priorities slot by slot keep the heap order. */
  lemma SamePriorities(a: seq<Node>, b: seq<Node>, n: nat)
    requires |a| == |b| && HeapOrdered(a, n)
    requires forall k :: 1 <= k <= n && k < |a| ==> b[k].priority == a[k].priority
    ensures HeapOrdered(b, n)
  {
    forall k | 2 <= k <= n && k < |b| ensures Edge(b, k) {
      assert Edge(a, k);
    }
  }

  /**
   * Clearing slots 1..n keeps the heap order and every entry well formed,
   * and leaves no valid entry that c makes redundant.
   */
  lemma ClearedElements(a: seq<Node>, b: seq<Node>, n: nat, c: Candidate, offs: seq<set<Minterm>>, w: nat)
    requires |a| == |b| && (n < |a| || n == 0) && HeapOrdered(a, n)
    requires forall k :: 1 <= k <= n ==> b[k] == Cleared(a[k], c)
    requires forall e :: e in Elements(a, n) ==> WellFormed(e.data, offs, w)
    ensures HeapOrdered(b, n)
    ensures forall e :: e in Elements(b, n) ==> WellFormed(e.data, offs, w) && (e.data.valid ==> !Redundant(c, e.data))
  {
    SamePriorities(a, b, n);
    ElementsMembers(a, n);
    ElementsMembers(b, n);
    forall e | e in Elements(b, n) ensures WellFormed(e.data, offs, w) && (e.data.valid ==> !Redundant(c, e.data)) {
      var k :| 1 <= k <= n && b[k] == e;
      assert a[k] in Elements(a, n);
    }
  }

  /** The loop of invalidateRedundantInQueue over slots 1..len, in place. */
  method ClearSlots(nodes: array<Node>, len: nat, c: Candidate)
    requires len < nodes.Length || len == 0
    modifies nodes
    ensures forall k :: 1 <= k <= len ==> nodes[k] == Cleared(old(nodes[k]), c)
    ensures forall k :: 0 <= k < nodes.Length && !(1 <= k <= len) ==> nodes[k] == old(nodes[k])
  {
    for i := 1 to len + 1
      invariant forall k :: 1 <= k < i ==> nodes[k] == Cleared(old(nodes[k]), c)
      invariant forall k :: 0 <= k < nodes.Length && !(1 <= k < i) ==> nodes[k] == old(nodes[k])
    {
      var d := nodes[i].data;
      if d.outputF == c.outputF && (d.productNumber == c.productNumber || d.cube == c.cube) {
        nodes[i] := Node(nodes[i].priority, d.(valid := false));
      }
    }
  }

  /** The queue after clearing slots 1..len of a queue whose slots were a. */
  lemma ClearedQueue(q: PriorityQueue, a: seq<Node>, c: Candidate, offs: seq<set<Minterm>>, w: nat)
    requires q.size == q.nodes.Length && (q.len < q.size || (q.len == 0 && q.size == 0))
    requires |a| == q.nodes.Length && HeapOrdered(a, q.len)
    requires forall e :: e in Elements(a, q.len) ==> WellFormed(e.data, offs, w)
    requires forall k :: 1 <= k <= q.len ==> q.nodes[k] == Cleared(a[k], c)
    requires q.contents == Elements(q.nodes[..], q.len)
    ensures QueueOk(q, offs, w)
    ensures forall e :: e in q.contents ==> e.data.valid ==> !Redundant(c, e.data)
  {
    ClearedElements(a, q.nodes[..], q.len, c, offs, w);
  }

  /**
   * invalidateRedundantInQueue: clear, in place, the valid flag of every
   * queued entry that c makes redundant; priorities, len and the other
   * entries are unchanged, so the heap stays ordered.
   */
  method InvalidateRedundant(c: Candidate, q: PriorityQueue, ghost offs: seq<set<Minterm>>, ghost w: nat)
    requires QueueOk(q, offs, w)
    modifies q, q.nodes
    ensures QueueOk(q, offs, w)
    ensures q.nodes == old(q.nodes) && q.len == old(q.len) && q.size == old(q.size)
    ensures forall k :: 1 <= k <= q.len ==> q.nodes[k] == Cleared(old(q.nodes[k]), c)
    ensures forall k :: 0 <= k < q.nodes.Length && !(1 <= k <= q.len) ==> q.nodes[k] == old(q.nodes[k])
    ensures forall e :: e in q.contents ==> e.data.valid ==> !Redundant(c, e.data)
  {
    ghost var a := q.nodes[..];
    assert q.contents == Elements(a, q.len);
    ClearSlots(q.nodes, q.len, c);
    q.contents := Elements(q.nodes[..], q.len);
    ClearedQueue(q, a, c, offs, w);
  }

  /* ---------------------------------------------------------------------- */
  /* removeCoveredProducts (src/main.c:198-210)                              */
  /* ---------------------------------------------------------------------- */

  /** The products of L that c does not cover, in their order. */
  function Uncovered(c: Cube, L: seq<Cube>): seq<Cube>
    requires AllOfWidth(L, |c|)
  {
    if |L| == 0 then []
    else Uncovered(c, L[..|L| - 1]) + (if Covers(c, L[|L| - 1]) == NoRelation then [L[|L| - 1]] else [])
  }

  /** The survivors are a subsequence of L: exactly the products c does not cover, in order. */
  lemma {:induction false} UncoveredMembers(c: Cube, L: seq<Cube>)
    requires AllOfWidth(L, |c|)
    ensures |Uncovered(c, L)| <= |L|
    ensures forall x :: x in Uncovered(c, L) <==> x in L && Covers(c, x) == NoRelation
    ensures NoDuplicates(L) ==> NoDuplicates(Uncovered(c, L))
    ensures c !in Uncovered(c, L)
    decreases |L|
  {
    CoversReflexive(c);
    if |L| > 0 {
      var init := L[..|L| - 1];
      var last := L[|L| - 1];
      UncoveredMembers(c, init);
      assert L == init + [last];
      if NoDuplicates(L) {
        assert NoDuplicates(init);
        assert last !in init;
      }
    }
  }

  /** What c leaves of L, with c added, covers what L and c covered. */
  lemma {:induction false} UncoveredUnion(c: Cube, L: seq<Cube>)
    requires AllOfWidth(L, |c|)
    ensures UnionSet(Uncovered(c, L)) + CubeSet(c) == UnionSet(L) + CubeSet(c)
    decreases |L|
  {
    if |L| > 0 {
      var init := L[..|L| - 1];
      var last := L[|L| - 1];
      UncoveredUnion(c, init);
      var u := Uncovered(c, init);
      var tail := if Covers(c, last) == NoRelation then [last] else [];
      assert Uncovered(c, L) == u + tail;
      UnionSetConcat(u, tail);
      assert UnionSet(L) == UnionSet(init) + CubeSet(last);
      if Covers(c, last) == NoRelation {
        assert UnionSet(tail) == UnionSet([]) + CubeSet(last);
      } else {
        assert UnionSet(tail) == {};
        CoversIffContains(c, last);
      }
    }
  }

  /**
   * removeCoveredProducts: walk list o and remove every product that c
   * covers, strictly or as an equal, decrementing N_CUBES[o] once per
   * removal.  It returns how many products it removed.
   */
  method RemoveCovered(c: Cube, o: nat, g: CubeLists) returns (removed: nat)
    requires g.Valid() && o < |g.lists| && AllOfWidth(g.lists[o], |c|)
    modifies g, g.nCubes
    ensures g.Valid()
    ensures g.lists == old(g.lists)[o := Uncovered(c, old(g.lists[o]))]
    ensures removed == |old(g.lists[o])| - |Uncovered(c, old(g.lists[o]))|
    ensures g.nCubes[o] == old(g.nCubes[o]) - removed
    ensures forall j :: 0 <= j < g.nCubes.Length && j != o ==> g.nCubes[j] == old(g.nCubes[j])
  {
    var L := g.lists[o];
    var kept: seq<Cube> := [];
    removed := 0;
    for k := 0 to |L|
      modifies g.nCubes
      invariant kept == Uncovered(c, L[..k])
      invariant removed == k - |kept|
      invariant g.nCubes[o] == old(g.nCubes[o]) - removed
      invariant forall j :: 0 <= j < g.nCubes.Length && j != o ==> g.nCubes[j] == old(g.nCubes[j])
    {
      assert L[..k + 1] == L[..k] + [L[k]];
      assert L[..k + 1][..k] == L[..k];
      UncoveredMembers(c, L[..k]);
      var ret := CompareCubes(c, L[k]);
      if ret != NoRelation {
        g.Count(o, -1);
        removed := removed + 1;
      } else {
        kept := kept + [L[k]];
      }
    }
    assert L[..|L|] == L;
    g.Replace(o, kept);
  }

  /* ---------------------------------------------------------------------- */
  /* The admission loop (src/main.c:541-602)                                 */
  /* ---------------------------------------------------------------------- */

  /**
   * What admission keeps for one output against its start (L0, n0): no
   * duplicate product when the start had none, the starting minterms still
   * covered, the extra error bounded by err, and N_CUBES[o] - |CUBE_LIST[o]|
   * unchanged.
   */
  ghost predicate OutputLedger(L: seq<Cube>, n: int, err: int, L0: seq<Cube>, n0: int,
                               off: set<Minterm>, dc: set<Minterm>, w: nat)
  {
    && (NoDuplicates(L0) ==> NoDuplicates(L))
    && UnionSet(L0) <= UnionSet(L)
    && |ErrorSet(L, off, dc)| <= |ErrorSet(L0, off, dc)| + err
    && n - |L| == n0 - |L0|
  }

  /** Removing what c covers and appending c adds exactly c's minterms to the list's. */
  lemma AcceptUnion(c: Cube, L: seq<Cube>)
    requires AllOfWidth(L, |c|)
    ensures UnionSet(Uncovered(c, L) + [c]) == UnionSet(L) + CubeSet(c)
  {
    UncoveredUnion(c, L);
    UnionSetConcat(Uncovered(c, L), [c]);
    assert UnionSet([c]) == UnionSet([]) + CubeSet(c);
  }

  /**
   * The list after acceptance keeps the widths, and has no duplicate product
   * when the list before had none.
   */
  lemma AcceptShape(c: Cube, L: seq<Cube>, w: nat)
    requires |c| == w && AllOfWidth(L, w)
    ensures AllOfWidth(Uncovered(c, L) + [c], w)
    ensures NoDuplicates(L) ==> NoDuplicates(Uncovered(c, L) + [c])
    ensures |Uncovered(c, L)| <= |L|
  {
    var u := Uncovered(c, L);
    UncoveredMembers(c, L);
    forall k | 0 <= k < |u| ensures |u[k]| == w {
      assert u[k] in u;
    }
  }

  /** Adding minterms a to a cover adds at most |a * off - dc| error minterms. */
  lemma ErrorGrowth(before: set<Minterm>, a: set<Minterm>, off: set<Minterm>, dc: set<Minterm>)
    ensures |(before + a) * off - dc| <= |before * off - dc| + |a * off - dc|
  {
    assert (before + a) * off - dc == (before * off - dc) + (a * off - dc);
  }

  /**
   * Accepting c on a list keeps the ledger, with the error grown by c's
   * effective error: the list's minterms become exactly the old ones plus
   * c's, and no product is duplicated.
   */
  lemma AcceptKeeps(L: seq<Cube>, n: int, err: int, L0: seq<Cube>, n0: int,
                    off: set<Minterm>, dc: set<Minterm>, w: nat, c: Candidate, offs: seq<set<Minterm>>)
    requires WellFormed(c, offs, w) && off == offs[c.outputF]
    requires AllOfWidth(L, w) && OutputLedger(L, n, err, L0, n0, off, dc, w)
    ensures AllOfWidth(Uncovered(c.cube, L) + [c.cube], w)
    ensures OutputLedger(Uncovered(c.cube, L) + [c.cube], n - (|L| - |Uncovered(c.cube, L)|) + 1,
                         err + Effective(c, dc), L0, n0, off, dc, w)
  {
    var after := Uncovered(c.cube, L) + [c.cube];
    AcceptUnion(c.cube, L);
    AcceptShape(c.cube, L, w);
    EffectiveIsAddedError(c, offs, w, dc);
    ErrorGrowth(UnionSet(L), CubeSet(c.cube), off, dc);
    assert ErrorSet(after, off, dc) == (UnionSet(L) + CubeSet(c.cube)) * off - dc;
  }

  /** The per-output ledger of every output, over the lists, the counters and the errors. */
  ghost predicate LedgerOf(lists: seq<seq<Cube>>, counts: seq<int>, errs: seq<int>, lists0: seq<seq<Cube>>, n0: seq<int>,
                           offs: seq<set<Minterm>>, dcs: seq<set<Minterm>>, w: nat)
  {
    && |lists| == |counts| == |errs| == |lists0| == |n0| == |offs| == |dcs|
    && (forall o :: 0 <= o < |lists| ==> AllOfWidth(lists[o], w))
    && forall o {:trigger OutputLedger(lists[o], counts[o], errs[o], lists0[o], n0[o], offs[o], dcs[o], w)} :: 0 <= o < |lists| ==>
         OutputLedger(lists[o], counts[o], errs[o], lists0[o], n0[o], offs[o], dcs[o], w)
  }

  /** The ledger of CUBE_LIST, N_CUBES and current_errors. */
  ghost predicate Ledger(g: CubeLists, errs: array<int>, lists0: seq<seq<Cube>>, n0: seq<int>,
                         offs: seq<set<Minterm>>, dcs: seq<set<Minterm>>, w: nat)
    reads g, g.nCubes, errs
  {
    g.Valid() && LedgerOf(g.lists, g.nCubes[..], errs[..], lists0, n0, offs, dcs, w)
  }

  /** The budget over current_errors. */
  ghost predicate Budget(errs: array<int>, total: int, ct: nat, mode: ErrorMode)
    reads errs
  {
    BudgetOf(errs[..], total, ct, mode)
  }

  /** Accepting c updates its own output's ledger and leaves the others as they were. */
  lemma LedgerUpdate(lists: seq<seq<Cube>>, counts: seq<int>, errs: seq<int>, lists0: seq<seq<Cube>>, n0: seq<int>,
                     offs: seq<set<Minterm>>, dcs: seq<set<Minterm>>, w: nat, c: Candidate)
    requires LedgerOf(lists, counts, errs, lists0, n0, offs, dcs, w) && WellFormed(c, offs, w)
    ensures var o := c.outputF; var L := lists[o];
      LedgerOf(lists[o := Uncovered(c.cube, L) + [c.cube]],
               counts[o := counts[o] - (|L| - |Uncovered(c.cube, L)|) + 1],
               errs[o := errs[o] + Effective(c, dcs[o])], lists0, n0, offs, dcs, w)
  {
    var o := c.outputF;
    var L := lists[o];
    var lists' := lists[o := Uncovered(c.cube, L) + [c.cube]];
    var counts' := counts[o := counts[o] - (|L| - |Uncovered(c.cube, L)|) + 1];
    var errs' := errs[o := errs[o] + Effective(c, dcs[o])];
    assert OutputLedger(L, counts[o], errs[o], lists0[o], n0[o], offs[o], dcs[o], w);
    AcceptKeeps(L, counts[o], errs[o], lists0[o], n0[o], offs[o], dcs[o], w, c, offs);
    forall j | 0 <= j < |lists'| ensures AllOfWidth(lists'[j], w) {
      if j != o {
        assert lists'[j] == lists[j];
      }
    }
    forall j | 0 <= j < |lists'|
      ensures OutputLedger(lists'[j], counts'[j], errs'[j], lists0[j], n0[j], offs[j], dcs[j], w)
    {
      if j != o {
        assert OutputLedger(lists[j], counts[j], errs[j], lists0[j], n0[j], offs[j], dcs[j], w);
        assert lists'[j] == lists[j] && counts'[j] == counts[j] && errs'[j] == errs[j];
      }
    }
  }

  /** The sum of the counters. */
  function Sum(s: seq<int>): int {
    if |s| == 0 then 0 else Sum(s[..|s| - 1]) + s[|s| - 1]
  }

  lemma {:induction false} SumUpdate(s: seq<int>, o: nat, v: int)
    requires o < |s|
    ensures Sum(s[o := v]) == Sum(s) - s[o] + v
    decreases |s|
  {
    var t := s[o := v];
    if o < |s| - 1 {
      assert t[..|t| - 1] == s[..|s| - 1][o := v];
      SumUpdate(s[..|s| - 1], o, v);
    } else {
      assert t[..|t| - 1] == s[..|s| - 1];
    }
  }

  /**
   * The budget: no counter negative, total_error their sum, each counter at
   * most ct per output or the total at most ct over all outputs.
   */
  ghost predicate BudgetOf(errs: seq<int>, total: int, ct: nat, mode: ErrorMode) {
    && (forall o :: 0 <= o < |errs| ==> errs[o] >= 0)
    && total == Sum(errs)
    && (mode == MultipleOutput ==> forall o :: 0 <= o < |errs| ==> errs[o] <= ct)
    && (mode == GlobalOutput ==> total <= ct)
  }

  /** Accepting c keeps the ledger for the lists, counters and errors after acceptance. */
  lemma AcceptStep(lists: seq<seq<Cube>>, counts: seq<int>, errs: seq<int>, lists0: seq<seq<Cube>>, n0: seq<int>,
                   offs: seq<set<Minterm>>, dcs: seq<set<Minterm>>, w: nat, c: Candidate,
                   lists': seq<seq<Cube>>, counts': seq<int>, errs': seq<int>)
    requires LedgerOf(lists, counts, errs, lists0, n0, offs, dcs, w) && WellFormed(c, offs, w)
    requires AcceptedFrom(c, Effective(c, dcs[c.outputF]), lists, counts, errs, lists', counts', errs')
    ensures LedgerOf(lists', counts', errs', lists0, n0, offs, dcs, w)
  {
    LedgerUpdate(lists, counts, errs, lists0, n0, offs, dcs, w, c);
  }

  /** Charging eff to output o within the budget keeps the budget, with total_error grown by eff. */
  lemma ChargeStep(errs: seq<int>, total: int, ct: nat, mode: ErrorMode, o: nat, eff: nat, errs': seq<int>)
    requires BudgetOf(errs, total, ct, mode) && o < |errs|
    requires mode == MultipleOutput ==> eff + errs[o] <= ct
    requires mode == GlobalOutput ==> total + eff <= ct
    requires errs' == errs[o := errs[o] + eff]
    ensures BudgetOf(errs', total + eff, ct, mode)
  {
    SumUpdate(errs, o, errs[o] + eff);
  }

  /** Counters that differ from counts only at o, by d. */
  lemma CountsAfter(a: array<int>, counts: seq<int>, o: nat, d: int)
    requires a.Length == |counts| && o < |counts|
    requires a[o] == counts[o] + d
    requires forall j :: 0 <= j < a.Length && j != o ==> a[j] == counts[j]
    ensures a[..] == counts[o := counts[o] + d]
  {
  }

  /** current_errors[o] += eff. */
  method Charge(errs: array<int>, o: nat, eff: nat)
    requires o < errs.Length
    modifies errs
    ensures errs[..] == old(errs[..])[o := old(errs[o]) + eff]
  {
    errs[o] := errs[o] + eff;
  }

  /**
   * The lists, counters and errors after accepting c with effective error
   * eff: c's list loses the products c covers and gains c at its end, its
   * counter drops by one per removed product and grows by one, its error
   * grows by eff, and every other output is as it was.
   */
  ghost predicate AcceptedFrom(c: Candidate, eff: int, lists: seq<seq<Cube>>, counts: seq<int>, errs: seq<int>,
                               lists': seq<seq<Cube>>, counts': seq<int>, errs': seq<int>)
  {
    var o := c.outputF;
    && o < |lists| == |counts| == |errs|
    && AllOfWidth(lists[o], |c.cube|)
    && var u := Uncovered(c.cube, lists[o]);
    && lists' == lists[o := u + [c.cube]]
    && counts' == counts[o := counts[o] - (|lists[o]| - |u|) + 1]
    && errs' == errs[o := errs[o] + eff]
  }

  /**
   * removeCoveredProducts followed by the insertion of c at the tail of
   * CUBE_LIST[o] (src/main.c:575-581): list o loses the products c covers
   * and gains c, and N_CUBES[o] drops by one per removed product and grows
   * by one.
   */
  method Extend(c: Cube, o: nat, g: CubeLists)
    requires g.Valid() && o < |g.lists| && AllOfWidth(g.lists[o], |c|)
    modifies g, g.nCubes
    ensures g.Valid()
    ensures g.lists == old(g.lists)[o := Uncovered(c, old(g.lists[o])) + [c]]
    ensures g.nCubes[..] == old(g.nCubes[..])[o := old(g.nCubes[o]) - (|old(g.lists[o])| - |Uncovered(c, old(g.lists[o]))|) + 1]
  {
    ghost var counts := g.nCubes[..];
    var removed := RemoveCovered(c, o, g);
    g.Append(o, c);
    CountsAfter(g.nCubes, counts, o, 1 - removed as int);
  }

  /**
   * The acceptance branch (src/main.c:569-583): charge the effective error to
   * the output, invalidate the redundant queued entries, remove the covered
   * list products and append the cube.  The counter of the output drops by
   * one per removed product and grows by one for the appended cube.
   */
  method Accept(c: Candidate, eff: nat, g: CubeLists, q: PriorityQueue, errs: array<int>,
                ghost lists0: seq<seq<Cube>>, ghost n0: seq<int>, ghost offs: seq<set<Minterm>>,
                ghost dcs: seq<set<Minterm>>, ghost w: nat, ghost total: int, ghost ct: nat, ghost mode: ErrorMode)
    requires errs != g.nCubes && Ledger(g, errs, lists0, n0, offs, dcs, w) && Budget(errs, total, ct, mode)
    requires QueueOk(q, offs, w) && WellFormed(c, offs, w) && eff == Effective(c, dcs[c.outputF])
    requires mode == MultipleOutput ==> eff + errs[c.outputF] <= ct
    requires mode == GlobalOutput ==> total + eff <= ct
    modifies g, g.nCubes, q, q.nodes, errs
    ensures Ledger(g, errs, lists0, n0, offs, dcs, w) && Budget(errs, total + eff, ct, mode)
    ensures QueueOk(q, offs, w) && q.nodes == old(q.nodes) && q.len == old(q.len)
    ensures AcceptedFrom(c, eff, old(g.lists), old(g.nCubes[..]), old(errs[..]), g.lists, g.nCubes[..], errs[..])
    ensures forall e :: e in q.contents ==> e.data.valid ==> !Redundant(c, e.data)
  {
    var o := c.outputF;
    ghost var lists := g.lists;
    ghost var counts := g.nCubes[..];
    ghost var errs0 := errs[..];
    Charge(errs, o, eff);
    ghost var errs1 := errs[..];
    InvalidateRedundant(c, q, offs, w);
    Extend(c.cube, o, g);
    assert errs[..] == errs1;
    assert AcceptedFrom(c, eff, lists, counts, errs0, g.lists, g.nCubes[..], errs[..]);
    AcceptStep(lists, counts, errs0, lists0, n0, offs, dcs, w, c, g.lists, g.nCubes[..], errs[..]);
    ChargeStep(errs0, total, ct, mode, o, eff, errs[..]);
  }

  /** The budget test of src/main.c:564-566: eff fits the output's budget, or the global one. */
  predicate Fits(eff: int, err: int, total: int, ct: nat, mode: ErrorMode) {
    && (mode == MultipleOutput ==> eff + err <= ct)
    && (mode == GlobalOutput ==> total + eff <= ct)
  }

  /**
   * One popped entry (src/main.c:548-583): an invalidated entry, or one whose
   * effective error does not fit the budget, is dropped and changes nothing;
   * any other is accepted as Accept states, and the total grows by its
   * effective error.
   */
  method Consider(c: Candidate, g: CubeLists, q: PriorityQueue, errs: array<int>, total: nat,
                  dcs: seq<set<Minterm>>, ct: nat, mode: ErrorMode,
                  ghost lists0: seq<seq<Cube>>, ghost n0: seq<int>, ghost offs: seq<set<Minterm>>, ghost w: nat)
      returns (accepted: bool, total': nat)
    requires errs != g.nCubes && Ledger(g, errs, lists0, n0, offs, dcs, w) && Budget(errs, total, ct, mode)
    requires QueueOk(q, offs, w) && WellFormed(c, offs, w)
    modifies g, g.nCubes, q, q.nodes, errs
    ensures Ledger(g, errs, lists0, n0, offs, dcs, w) && Budget(errs, total', ct, mode)
    ensures QueueOk(q, offs, w) && q.nodes == old(q.nodes) && q.len == old(q.len)
    ensures accepted <==> c.valid && Fits(Effective(c, dcs[c.outputF]), old(errs[c.outputF]), total, ct, mode)
    ensures !accepted ==>
      && g.lists == old(g.lists) && g.nCubes[..] == old(g.nCubes[..]) && errs[..] == old(errs[..])
      && total' == total && q.nodes[..] == old(q.nodes[..]) && q.contents == old(q.contents)
    ensures accepted ==> total' == total + Effective(c, dcs[c.outputF])
    ensures accepted ==> AcceptedFrom(c, Effective(c, dcs[c.outputF]), old(g.lists), old(g.nCubes[..]), old(errs[..]),
                                      g.lists, g.nCubes[..], errs[..])
  {
    accepted, total' := false, total;
    if !c.valid {
      return;
    }
    var o := c.outputF;
    var eff := c.complMin - |c.offsetInters * dcs[o]|;
    EffectiveIsAddedError(c, offs, w, dcs[o]);
    if eff < 0 {
      assert false;
    }
    if !Fits(eff, errs[o], total, ct, mode) {
      return;
    }
    Accept(c, eff, g, q, errs, lists0, n0, offs, dcs, w, total, ct, mode);
    accepted, total' := true, total + eff;
  }

  /**
   * The ledger holds at the start (src/main.c:535-541): the calloc'd
   * current_errors are all zero, and they sum to total_error = 0.
   */
  lemma LedgerStart(lists: seq<seq<Cube>>, counts: seq<int>, errs: seq<int>,
                    offs: seq<set<Minterm>>, dcs: seq<set<Minterm>>, w: nat)
    requires |lists| == |counts| == |errs| == |offs| == |dcs|
    requires forall o :: 0 <= o < |lists| ==> AllOfWidth(lists[o], w)
    requires forall o :: 0 <= o < |errs| ==> errs[o] == 0
    ensures LedgerOf(lists, counts, errs, lists, counts, offs, dcs, w)
    ensures Sum(errs) == 0
  {
    SumZero(errs);
  }

  /** Counters that are all zero sum to zero. */
  lemma {:induction false} SumZero(s: seq<int>)
    requires forall o :: 0 <= o < |s| ==> s[o] == 0
    ensures Sum(s) == 0
    decreases |s|
  {
    if |s| > 0 {
      SumZero(s[..|s| - 1]);
    }
  }

  /**
   * The admission loop: pop until the queue is empty or, for the global
   * budget, the total error has reached ct; skip invalid candidates, reject
   * the ones whose effective error exceeds the budget, accept the rest.
   * It returns current_errors and total_error.
   */
  method Admit(g: CubeLists, q: PriorityQueue, offs: seq<set<Minterm>>, dcs: seq<set<Minterm>>,
               ct: nat, mode: ErrorMode, ghost w: nat)
      returns (errs: array<int>, total: nat)
    requires g.Valid() && |offs| == |dcs| == |g.lists|
    requires forall o :: 0 <= o < |g.lists| ==> AllOfWidth(g.lists[o], w)
    requires QueueOk(q, offs, w)
    modifies g, g.nCubes, q, q.nodes
    ensures fresh(errs)
    ensures Ledger(g, errs, old(g.lists), old(g.nCubes[..]), offs, dcs, w)
    ensures Budget(errs, total, ct, mode)
    ensures QueueOk(q, offs, w) && q.nodes == old(q.nodes)
    ensures mode == MultipleOutput ==> q.len == 0
    ensures mode == GlobalOutput ==> q.len == 0 || total >= ct
  {
    errs := new int[|g.lists|](_ => 0);
    total := 0;
    ghost var lists0 := g.lists;
    ghost var n0 := g.nCubes[..];
    LedgerStart(lists0, n0, errs[..], offs, dcs, w);
    while q.len > 0
      invariant fresh(errs)
      invariant Ledger(g, errs, lists0, n0, offs, dcs, w) && Budget(errs, total, ct, mode)
      invariant QueueOk(q, offs, w) && q.nodes == old(q.nodes)
      decreases q.len
    {
      if mode == GlobalOutput && total >= ct {
        break;
      }
      var c := q.Pop();
      var accepted;
      accepted, total := Consider(c, g, q, errs, total, dcs, ct, mode, lists0, n0, offs, w);
    }
  }
}
