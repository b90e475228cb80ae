/**
 * Candidate generation, the first phase of the approximation heuristic
 * (src/main.c:451-518).  For every output o and every product p of its list,
 * each defined literal is relaxed to a don't-care in turn.  The relaxed cube r
 * is queued when it adds between 1 and ct off-set minterms and is not already
 * in the list; its priority is the number of list products it strictly
 * covers divided by the off-set minterms it adds.
 */
module Generation {
  import opened Cube
  import opened Queue
  import opened PlaLists

  /**
   * The off-set minterms a cube covers: the conjunction of the cube's
   * function with the off-set (bddAnd in src/main.c:470).
   */
  function Inters(r: Cube, off: set<Minterm>): (s: set<Minterm>)
    ensures s <= off
  {
    set m | m in off && InCube(m, r)
  }

  lemma IntersIsConjunction(r: Cube, off: set<Minterm>)
    ensures Inters(r, off) == CubeSet(r) * off
  {
  }

  /** The indices of the list products that r strictly covers. */
  function StrictIndices(r: Cube, L: seq<Cube>): set<int>
    requires AllOfWidth(L, |r|)
  {
    set k | 0 <= k < |L| && Covers(r, L[k]) == StrictlyCovers
  }

  /** How many list products r strictly covers, counted left to right. */
  function CountStrict(r: Cube, L: seq<Cube>): nat
    requires AllOfWidth(L, |r|)
  {
    if |L| == 0 then 0
    else CountStrict(r, L[..|L| - 1]) + (if Covers(r, L[|L| - 1]) == StrictlyCovers then 1 else 0)
  }

  /** covered_prod is the number of list products r strictly covers. */
  lemma {:induction false} CountStrictIsCardinality(r: Cube, L: seq<Cube>)
    requires AllOfWidth(L, |r|)
    ensures CountStrict(r, L) == |StrictIndices(r, L)|
  {
    if |L| > 0 {
      var init := L[..|L| - 1];
      CountStrictIsCardinality(r, init);
      assert StrictIndices(r, L)
          == StrictIndices(r, init) + (if Covers(r, L[|L| - 1]) == StrictlyCovers then {|L| - 1} else {});
    }
  }

  /**
   * The comparison loop of generation (src/main.c:476-489): count the list
   * products r strictly covers, and give -1 as soon as one equals r.
   */
  method CountCovered(r: Cube, L: seq<Cube>) returns (covered: int)
    requires AllOfWidth(L, |r|)
    ensures covered == if r in L then -1 else CountStrict(r, L)
  {
    covered := 0;
    for k := 0 to |L|
      invariant covered == CountStrict(r, L[..k])
      invariant r !in L[..k]
    {
      var ret := CompareCubes(r, L[k]);
      CoversPointwise(r, L[k]);
      assert L[..k + 1] == L[..k] + [L[k]];
      assert L[..k + 1][..k] == L[..k];
      if ret == StrictlyCovers {
        covered := covered + 1;
      } else if ret == Equal {
        return -1;
      }
    }
    assert L[..|L|] == L;
  }

  /**
   * The queue entry for relaxation r of product p of output o, with
   * inter = r ∩ off-set: priority covered/|inter|, valid set.
   */
  function MakeNode(r: Cube, o: nat, p: nat, inter: set<Minterm>, covered: nat): Node
    requires |inter| > 0
  {
    Node(covered as real / |inter| as real, Candidate(r, o, covered, |inter|, p, true, inter))
  }

  /**
   * Position i of product p is defined, and relaxing it adds between 1 and ct
   * off-set minterms and gives a cube that is not in the list.
   */
  predicate Qualifies(L: seq<Cube>, p: nat, i: nat, off: set<Minterm>, ct: nat)
    requires p < |L| && i < |L[p]|
  {
    var r := L[p][i := DC];
    L[p][i] != DC && 0 < |Inters(r, off)| <= ct && r !in L
  }

  /** The entry queued for a qualifying relaxation of position i of product p. */
  function NodeFor(L: seq<Cube>, o: nat, p: nat, i: nat, off: set<Minterm>, ct: nat): Node
    requires p < |L| && i < |L[p]| && AllOfWidth(L, |L[p]|)
    requires Qualifies(L, p, i, off, ct)
  {
    var r := L[p][i := DC];
    MakeNode(r, o, p, Inters(r, off), CountStrict(r, L))
  }

  /** Relaxing position i of product p: one entry when it qualifies, none otherwise. */
  function PositionCands(L: seq<Cube>, o: nat, p: nat, i: nat, off: set<Minterm>, ct: nat): seq<Node>
    requires p < |L| && i < |L[p]| && AllOfWidth(L, |L[p]|)
  {
    if Qualifies(L, p, i, off, ct) then [NodeFor(L, o, p, i, off, ct)] else []
  }

  /** The entries pushed for positions 0..i-1 of product p. */
  function CubeCands(L: seq<Cube>, o: nat, p: nat, i: nat, off: set<Minterm>, ct: nat): seq<Node>
    requires p < |L| && i <= |L[p]| && AllOfWidth(L, |L[p]|)
  {
    if i == 0 then [] else CubeCands(L, o, p, i - 1, off, ct) + PositionCands(L, o, p, i - 1, off, ct)
  }

  /** The entries pushed for products 0..p-1 of output o. */
  function ListCands(L: seq<Cube>, o: nat, p: nat, off: set<Minterm>, ct: nat, n: nat): seq<Node>
    requires p <= |L| && AllOfWidth(L, n)
  {
    if p == 0 then [] else ListCands(L, o, p - 1, off, ct, n) + CubeCands(L, o, p - 1, |L[p - 1]|, off, ct)
  }

  /** The entries pushed for outputs 0..o-1, in push order. */
  function AllCands(lists: seq<seq<Cube>>, o: nat, offs: seq<set<Minterm>>, ct: nat, n: nat): seq<Node>
    requires o <= |lists| == |offs|
    requires forall k :: 0 <= k < |lists| ==> AllOfWidth(lists[k], n)
  {
    if o == 0 then []
    else AllCands(lists, o - 1, offs, ct, n) + ListCands(lists[o - 1], o - 1, |lists[o - 1]|, offs[o - 1], ct, n)
  }

  /* ---------------------------------------------------------------------- */
  /* What a queued candidate is                                              */
  /* ---------------------------------------------------------------------- */

  /** n is the entry for a qualifying relaxation of some position of some product of L. */
  ghost predicate Generated(n: Node, L: seq<Cube>, o: nat, off: set<Minterm>, ct: nat, w: nat)
    requires AllOfWidth(L, w)
  {
    exists p, i :: 0 <= p < |L| && 0 <= i < w && Qualifies(L, p, i, off, ct) && n == NodeFor(L, o, p, i, off, ct)
  }

  lemma {:induction false} CubeCandsMembers(L: seq<Cube>, o: nat, p: nat, i: nat, off: set<Minterm>, ct: nat, n: Node)
    requires p < |L| && i <= |L[p]| && AllOfWidth(L, |L[p]|)
    ensures n in CubeCands(L, o, p, i, off, ct) <==>
      exists j :: 0 <= j < i && Qualifies(L, p, j, off, ct) && n == NodeFor(L, o, p, j, off, ct)
    decreases i
  {
    if i > 0 {
      CubeCandsMembers(L, o, p, i - 1, off, ct, n);
      var prev := CubeCands(L, o, p, i - 1, off, ct);
      var here := PositionCands(L, o, p, i - 1, off, ct);
      assert CubeCands(L, o, p, i, off, ct) == prev + here;
      if n in here {
        assert Qualifies(L, p, i - 1, off, ct) && n == NodeFor(L, o, p, i - 1, off, ct);
      }
      if exists j :: 0 <= j < i && Qualifies(L, p, j, off, ct) && n == NodeFor(L, o, p, j, off, ct) {
        var j :| 0 <= j < i && Qualifies(L, p, j, off, ct) && n == NodeFor(L, o, p, j, off, ct);
        if j < i - 1 {
          assert n in prev;
        } else {
          assert n in here;
        }
      }
    }
  }

  lemma {:induction false} ListCandsMembers(L: seq<Cube>, o: nat, p: nat, off: set<Minterm>, ct: nat, w: nat, n: Node)
    requires p <= |L| && AllOfWidth(L, w)
    ensures n in ListCands(L, o, p, off, ct, w) <==>
      exists q, i :: 0 <= q < p && 0 <= i < w && Qualifies(L, q, i, off, ct) && n == NodeFor(L, o, q, i, off, ct)
    decreases p
  {
    if p > 0 {
      ListCandsMembers(L, o, p - 1, off, ct, w, n);
      CubeCandsMembers(L, o, p - 1, |L[p - 1]|, off, ct, n);
      var prev := ListCands(L, o, p - 1, off, ct, w);
      var here := CubeCands(L, o, p - 1, |L[p - 1]|, off, ct);
      assert ListCands(L, o, p, off, ct, w) == prev + here;
      if n in here {
        var i :| 0 <= i < |L[p - 1]| && Qualifies(L, p - 1, i, off, ct) && n == NodeFor(L, o, p - 1, i, off, ct);
        assert 0 <= p - 1 < p && 0 <= i < w;
      }
      if exists q, i :: 0 <= q < p && 0 <= i < w && Qualifies(L, q, i, off, ct) && n == NodeFor(L, o, q, i, off, ct) {
        var q, i :| 0 <= q < p && 0 <= i < w && Qualifies(L, q, i, off, ct) && n == NodeFor(L, o, q, i, off, ct);
        if q < p - 1 {
          assert n in prev;
        } else {
          assert n in here;
        }
      }
    }
  }

  /** The candidates of one output are exactly the qualifying single-literal relaxations. */
  lemma OutputCandidates(L: seq<Cube>, o: nat, off: set<Minterm>, ct: nat, w: nat, n: Node)
    requires AllOfWidth(L, w)
    ensures n in ListCands(L, o, |L|, off, ct, w) <==> Generated(n, L, o, off, ct, w)
  {
    ListCandsMembers(L, o, |L|, off, ct, w, n);
  }

  /**
   * A candidate differs from its source product in exactly one position,
   * which was defined and is now a don't-care; it adds between 1 and ct
   * off-set minterms, records how many list products it strictly covers and
   * the index of its source, is valid, and is not already in the list.
   */
  lemma GeneratedFacts(n: Node, L: seq<Cube>, o: nat, off: set<Minterm>, ct: nat, w: nat)
    requires AllOfWidth(L, w) && Generated(n, L, o, off, ct, w)
    ensures var c := n.data;
      && c.productNumber < |L| && |c.cube| == w
      && (exists i :: 0 <= i < w && L[c.productNumber][i] != DC && c.cube[i] == DC
            && forall j :: 0 <= j < w && j != i ==> c.cube[j] == L[c.productNumber][j])
      && 0 < c.complMin <= ct
      && c.offsetInters == Inters(c.cube, off) && c.complMin == |c.offsetInters|
      && c.coveredProd == |StrictIndices(c.cube, L)|
      && c.cube !in L
      && c.valid && c.outputF == o
      && n.priority == c.coveredProd as real / c.complMin as real
  {
    var p, i :| 0 <= p < |L| && 0 <= i < w && Qualifies(L, p, i, off, ct) && n == NodeFor(L, o, p, i, off, ct);
    assert n.data.cube[i] == DC;
    CountStrictIsCardinality(n.data.cube, L);
  }

  /** With no error budget nothing qualifies, so nothing is queued. */
  lemma NoCandidatesWithoutBudget(lists: seq<seq<Cube>>, o: nat, offs: seq<set<Minterm>>, ct: nat, w: nat)
    requires o <= |lists| == |offs|
    requires forall k :: 0 <= k < |lists| ==> AllOfWidth(lists[k], w)
    requires ct == 0
    ensures AllCands(lists, o, offs, ct, w) == []
  {
    if o > 0 {
      NoCandidatesWithoutBudget(lists, o - 1, offs, ct, w);
      var L := lists[o - 1];
      var nodes := ListCands(L, o - 1, |L|, offs[o - 1], ct, w);
      if nodes != [] {
        var n := nodes[0];
        ListCandsMembers(L, o - 1, |L|, offs[o - 1], ct, w, n);
        assert false;
      }
    }
  }

  /** Every entry for outputs below o was generated for its own output's list. */
  lemma AllCandsFrom(lists: seq<seq<Cube>>, o: nat, offs: seq<set<Minterm>>, ct: nat, w: nat, n: Node)
    requires o <= |lists| == |offs|
    requires forall k :: 0 <= k < |lists| ==> AllOfWidth(lists[k], w)
    requires n in AllCands(lists, o, offs, ct, w)
    ensures n.data.outputF < o && Generated(n, lists[n.data.outputF], n.data.outputF, offs[n.data.outputF], ct, w)
  {
    if n in AllCands(lists, o - 1, offs, ct, w) {
      AllCandsFrom(lists, o - 1, offs, ct, w, n);
    } else {
      var L := lists[o - 1];
      OutputCandidates(L, o - 1, offs[o - 1], ct, w, n);
      var p, i :| 0 <= p < |L| && 0 <= i < w && Qualifies(L, p, i, offs[o - 1], ct) && n == NodeFor(L, o - 1, p, i, offs[o - 1], ct);
    }
  }

  /* ---------------------------------------------------------------------- */
  /* The generation loops                                                    */
  /* ---------------------------------------------------------------------- */

  /** The entries of one position, as a multiset. */
  lemma PositionBag(L: seq<Cube>, o: nat, p: nat, i: nat, off: set<Minterm>, ct: nat, base: multiset<Node>)
    requires p < |L| && i < |L[p]| && AllOfWidth(L, |L[p]|)
    ensures Qualifies(L, p, i, off, ct) ==> base + Bag(PositionCands(L, o, p, i, off, ct)) == base + multiset{NodeFor(L, o, p, i, off, ct)}
    ensures !Qualifies(L, p, i, off, ct) ==> base + Bag(PositionCands(L, o, p, i, off, ct)) == base
  {
  }

  /**
   * One position of the innermost loop (src/main.c:464-513): relax defined
   * literal i of product p, and push the relaxation when it qualifies.  The
   * count of pushed entries, each of which N_CUBES[o] counts, and the queue
   * go from their values after positions 0..i-1 to those after 0..i.
   */
  method TryRelax(L: seq<Cube>, o: nat, p: nat, i: nat, off: set<Minterm>, ct: nat, q: PriorityQueue,
                  count: nat, ghost base: multiset<Node>) returns (next: nat)
    requires p < |L| && i < |L[p]| && AllOfWidth(L, |L[p]|)
    requires q.Valid()
    requires count == |CubeCands(L, o, p, i, off, ct)|
    requires q.contents == base + Bag(CubeCands(L, o, p, i, off, ct))
    modifies q, q.nodes
    ensures next == |CubeCands(L, o, p, i + 1, off, ct)|
    ensures q.Valid()
    ensures q.nodes == old(q.nodes) || fresh(q.nodes)
    ensures q.contents == base + Bag(CubeCands(L, o, p, i + 1, off, ct))
  {
    CubeCandsStep(L, o, p, i, off, ct, base);
    PositionBag(L, o, p, i, off, ct, q.contents);
    next := count;
    var trial := L[p];
    if trial[i] == One || trial[i] == Zero {
      trial := trial[i := DC];
      var intersect := Inters(trial, off);
      var complemented := |intersect|;
      if complemented <= ct && complemented > 0 {
        var covered := CountCovered(trial, L);
        if covered >= 0 {
          var node := MakeNode(trial, o, p, intersect, covered);
          assert node == NodeFor(L, o, p, i, off, ct);
          q.Push(node.priority, node.data);
          next := count + 1;
        }
      }
    }
  }

  /** One more position adds that position's entries, at the end. */
  lemma CubeCandsStep(L: seq<Cube>, o: nat, p: nat, i: nat, off: set<Minterm>, ct: nat, base: multiset<Node>)
    requires p < |L| && i < |L[p]| && AllOfWidth(L, |L[p]|)
    ensures base + Bag(CubeCands(L, o, p, i, off, ct)) + Bag(PositionCands(L, o, p, i, off, ct))
         == base + Bag(CubeCands(L, o, p, i + 1, off, ct))
  {
    BagConcat(CubeCands(L, o, p, i, off, ct), PositionCands(L, o, p, i, off, ct));
  }

  /** Before the first position nothing has been added. */
  lemma CubeCandsNone(L: seq<Cube>, o: nat, p: nat, off: set<Minterm>, ct: nat, base: multiset<Node>)
    requires p < |L| && AllOfWidth(L, |L[p]|)
    ensures base + Bag(CubeCands(L, o, p, 0, off, ct)) == base
  {
  }

  /** The innermost loop (src/main.c:460-514): every position of product p. */
  method GenerateForProduct(L: seq<Cube>, o: nat, p: nat, off: set<Minterm>, ct: nat, q: PriorityQueue)
      returns (count: nat)
    requires p < |L| && AllOfWidth(L, |L[p]|)
    requires q.Valid()
    modifies q, q.nodes
    ensures count == |CubeCands(L, o, p, |L[p]|, off, ct)|
    ensures q.Valid()
    ensures q.nodes == old(q.nodes) || fresh(q.nodes)
    ensures q.contents == old(q.contents) + Bag(CubeCands(L, o, p, |L[p]|, off, ct))
  {
    CubeCandsNone(L, o, p, off, ct, q.contents);
    count := 0;
    for i := 0 to |L[p]|
      invariant count == |CubeCands(L, o, p, i, off, ct)|
      invariant q.Valid()
      invariant q.nodes == old(q.nodes) || fresh(q.nodes)
      invariant q.contents == old(q.contents) + Bag(CubeCands(L, o, p, i, off, ct))
    {
      count := TryRelax(L, o, p, i, off, ct, q, count, old(q.contents));
    }
  }

  /** One more product adds that product's entries, at the end. */
  lemma ListCandsStep(L: seq<Cube>, o: nat, p: nat, off: set<Minterm>, ct: nat, w: nat, base: multiset<Node>)
    requires p < |L| && AllOfWidth(L, w)
    ensures base + Bag(ListCands(L, o, p, off, ct, w)) + Bag(CubeCands(L, o, p, |L[p]|, off, ct))
         == base + Bag(ListCands(L, o, p + 1, off, ct, w))
  {
    BagConcat(ListCands(L, o, p, off, ct, w), CubeCands(L, o, p, |L[p]|, off, ct));
  }

  /** Before the first product nothing has been added. */
  lemma ListCandsNone(L: seq<Cube>, o: nat, off: set<Minterm>, ct: nat, w: nat, base: multiset<Node>)
    requires AllOfWidth(L, w)
    ensures base + Bag(ListCands(L, o, 0, off, ct, w)) == base
  {
  }

  /**
   * The loop over the products of output o (src/main.c:453-517). It returns
   * how many candidates it queued, the amount N_CUBES[o] grows by.
   */
  method GenerateForOutput(L: seq<Cube>, o: nat, off: set<Minterm>, ct: nat, w: nat, q: PriorityQueue)
      returns (total: nat)
    requires AllOfWidth(L, w)
    requires q.Valid()
    modifies q, q.nodes
    ensures q.Valid()
    ensures q.nodes == old(q.nodes) || fresh(q.nodes)
    ensures total == |ListCands(L, o, |L|, off, ct, w)|
    ensures q.contents == old(q.contents) + Bag(ListCands(L, o, |L|, off, ct, w))
  {
    ListCandsNone(L, o, off, ct, w, q.contents);
    total := 0;
    for p := 0 to |L|
      invariant total == |ListCands(L, o, p, off, ct, w)|
      invariant q.Valid()
      invariant q.nodes == old(q.nodes) || fresh(q.nodes)
      invariant q.contents == old(q.contents) + Bag(ListCands(L, o, p, off, ct, w))
    {
      var count := GenerateForProduct(L, o, p, off, ct, q);
      total := total + count;
      ListCandsStep(L, o, p, off, ct, w, old(q.contents));
    }
  }

  /** One more output adds that output's entries, at the end. */
  lemma AllCandsStep(lists: seq<seq<Cube>>, o: nat, offs: seq<set<Minterm>>, ct: nat, n: nat, base: multiset<Node>)
    requires o < |lists| == |offs|
    requires forall k :: 0 <= k < |lists| ==> AllOfWidth(lists[k], n)
    ensures base + Bag(AllCands(lists, o, offs, ct, n)) + Bag(ListCands(lists[o], o, |lists[o]|, offs[o], ct, n))
         == base + Bag(AllCands(lists, o + 1, offs, ct, n))
  {
    BagConcat(AllCands(lists, o, offs, ct, n), ListCands(lists[o], o, |lists[o]|, offs[o], ct, n));
  }

  /** Before the first output nothing has been added. */
  lemma AllCandsNone(lists: seq<seq<Cube>>, offs: seq<set<Minterm>>, ct: nat, n: nat, base: multiset<Node>)
    requires |lists| == |offs|
    requires forall k :: 0 <= k < |lists| ==> AllOfWidth(lists[k], n)
    ensures base + Bag(AllCands(lists, 0, offs, ct, n)) == base
  {
  }

  /** How many entries generation queues for output k. */
  ghost function Queued(lists: seq<seq<Cube>>, offs: seq<set<Minterm>>, ct: nat, w: nat, k: nat): nat
    requires k < |lists| == |offs|
    requires forall j :: 0 <= j < |lists| ==> AllOfWidth(lists[j], w)
  {
    |ListCands(lists[k], k, |lists[k]|, offs[k], ct, w)|
  }

  /** The counters after generating for outputs 0..o-1, against their starting values n0. */
  ghost function Counted(n0: seq<int>, lists: seq<seq<Cube>>, o: nat, offs: seq<set<Minterm>>, ct: nat, w: nat): (c: seq<int>)
    requires o <= |lists| == |offs| == |n0|
    requires forall j :: 0 <= j < |lists| ==> AllOfWidth(lists[j], w)
    ensures |c| == |n0|
  {
    seq(|n0|, k requires 0 <= k < |n0| => if k < o then n0[k] + Queued(lists, offs, ct, w, k) else n0[k])
  }

  /** The counters after generating for outputs 0..o-1, against their starting values n0. */
  ghost predicate CountedUpTo(c: array<int>, n0: seq<int>, lists: seq<seq<Cube>>, o: nat, offs: seq<set<Minterm>>, ct: nat, w: nat)
    requires |n0| == c.Length && o <= |lists| == |offs| == c.Length
    requires forall j :: 0 <= j < |lists| ==> AllOfWidth(lists[j], w)
    reads c
  {
    && (forall k :: 0 <= k < o ==> c[k] == n0[k] + Queued(lists, offs, ct, w, k))
    && (forall k :: o <= k < c.Length ==> c[k] == n0[k])
  }

  /** The counters, read as a sequence, are the ones Counted describes. */
  lemma CountedAll(c: array<int>, n0: seq<int>, lists: seq<seq<Cube>>, o: nat, offs: seq<set<Minterm>>, ct: nat, w: nat)
    requires |n0| == c.Length && o <= |lists| == |offs| == c.Length
    requires forall j :: 0 <= j < |lists| ==> AllOfWidth(lists[j], w)
    requires CountedUpTo(c, n0, lists, o, offs, ct, w)
    ensures c[..] == Counted(n0, lists, o, offs, ct, w)
  {
  }

  /**
   * One iteration of the loop over the outputs: generate for output o, and
   * count every queued candidate in N_CUBES[o] (src/main.c:505).
   */
  method OutputStep(g: CubeLists, lists: seq<seq<Cube>>, o: nat, offs: seq<set<Minterm>>, ct: nat, w: nat, q: PriorityQueue,
                    ghost base: multiset<Node>, ghost n0: seq<int>)
    requires g.Valid() && g.lists == lists && o < |lists| == |offs| && |n0| == g.nCubes.Length
    requires forall j :: 0 <= j < |lists| ==> AllOfWidth(lists[j], w)
    requires q.Valid()
    requires q.contents == base + Bag(AllCands(lists, o, offs, ct, w))
    requires CountedUpTo(g.nCubes, n0, lists, o, offs, ct, w)
    modifies q, q.nodes, g.nCubes
    ensures q.Valid()
    ensures q.nodes == old(q.nodes) || fresh(q.nodes)
    ensures q.contents == base + Bag(AllCands(lists, o + 1, offs, ct, w))
    ensures CountedUpTo(g.nCubes, n0, lists, o + 1, offs, ct, w)
  {
    var total := GenerateForOutput(lists[o], o, offs[o], ct, w, q);
    g.Count(o, total);
    AllCandsStep(lists, o, offs, ct, w, base);
  }

  /** The whole generation phase (src/main.c:451-518): all outputs, in order. */
  method GenerateCandidates(g: CubeLists, offs: seq<set<Minterm>>, ct: nat, w: nat, q: PriorityQueue)
    requires g.Valid() && |offs| == |g.lists|
    requires forall k :: 0 <= k < |g.lists| ==> AllOfWidth(g.lists[k], w)
    requires q.Valid()
    modifies q, q.nodes, g.nCubes
    ensures q.Valid()
    ensures q.nodes == old(q.nodes) || fresh(q.nodes)
    ensures g.nCubes[..] == Counted(old(g.nCubes[..]), g.lists, |g.lists|, offs, ct, w)
    ensures q.contents == old(q.contents) + Bag(AllCands(g.lists, |g.lists|, offs, ct, w))
  {
    var lists := g.lists;
    ghost var n0 := g.nCubes[..];
    AllCandsNone(lists, offs, ct, w, q.contents);
    for o := 0 to |lists|
      invariant q.Valid()
      invariant q.nodes == old(q.nodes) || fresh(q.nodes)
      invariant CountedUpTo(g.nCubes, n0, lists, o, offs, ct, w)
      invariant q.contents == old(q.contents) + Bag(AllCands(lists, o, offs, ct, w))
    {
      OutputStep(g, lists, o, offs, ct, w, q, old(q.contents), n0);
    }
    CountedAll(g.nCubes, n0, lists, |lists|, offs, ct, w);
  }
}
