/**
 * The redundancy pass of heuristic (src/main.c:629-664): for every output,
 * every product that the OR of the other products still in the list covers
 * is removed, visiting the products in list order.  Removing the visited
 * entry leaves its successor pointer intact, so the walk goes on with the
 * product that followed it.
 */
module Redundancy {
  import opened Cube
  import opened PlaLists

  /** The OR of every product of L except the one at position i. */
  function Others(L: seq<Cube>, i: nat): set<Minterm>
    requires i < |L|
  {
    UnionSet(L[..i]) + UnionSet(L[i + 1..])
  }

  /** No product of L is covered by the OR of the others. */
  ghost predicate Irredundant(L: seq<Cube>) {
    forall i :: 0 <= i < |L| ==> !(CubeSet(L[i]) <= Others(L, i))
  }

  /**
   * The pass over one list, with kept the products already visited and
   * kept, and rest the ones still to visit: the head of rest is dropped
   * exactly when the OR of kept and the tail of rest covers it.
   */
  function PruneFrom(kept: seq<Cube>, rest: seq<Cube>): seq<Cube>
    decreases |rest|
  {
    if |rest| == 0 then kept
    else if CubeSet(rest[0]) <= UnionSet(kept + rest[1..]) then PruneFrom(kept, rest[1..])
    else PruneFrom(kept + [rest[0]], rest[1..])
  }

  /** The list the pass leaves for output list L. */
  function Prune(L: seq<Cube>): seq<Cube> {
    PruneFrom([], L)
  }

  /** The OR of a list is the OR of its head and of its tail. */
  lemma UnionFront(r: seq<Cube>)
    requires |r| > 0
    ensures UnionSet(r) == CubeSet(r[0]) + UnionSet(r[1..])
  {
    UnionSetConcat([r[0]], r[1..]);
    assert [r[0]] + r[1..] == r;
    assert UnionSet([r[0]]) == UnionSet([]) + CubeSet(r[0]);
  }

  /** Others of a list with one more product at the end. */
  lemma OthersSnoc(kept: seq<Cube>, c: Cube, i: nat)
    requires i < |kept|
    ensures Others(kept + [c], i) == Others(kept, i) + CubeSet(c)
  {
    var k := kept + [c];
    assert k[..i] == kept[..i];
    assert k[i + 1..] == kept[i + 1..] + [c];
    UnionSetConcat(kept[i + 1..], [c]);
    assert UnionSet([c]) == UnionSet([]) + CubeSet(c);
  }

  /** The last product of a list: its others are the products before it. */
  lemma OthersLast(kept: seq<Cube>, c: Cube)
    ensures Others(kept + [c], |kept|) == UnionSet(kept)
  {
    var k := kept + [c];
    assert k[..|kept|] == kept;
    assert k[|kept| + 1..] == [];
  }

  /* ---------------------------------------------------------------------- */
  /* The pass keeps the function                                             */
  /* ---------------------------------------------------------------------- */

  /** Each output's minterm union is what it was before the pass. */
  lemma {:induction false} PruneFromUnion(kept: seq<Cube>, rest: seq<Cube>)
    ensures UnionSet(PruneFrom(kept, rest)) == UnionSet(kept + rest)
    decreases |rest|
  {
    if |rest| > 0 {
      var r0 := rest[0];
      var tail := rest[1..];
      if CubeSet(r0) <= UnionSet(kept + tail) {
        PruneFromUnion(kept, tail);
        UnionFront(rest);
        UnionSetConcat(kept, rest);
        UnionSetConcat(kept, tail);
      } else {
        PruneFromUnion(kept + [r0], tail);
        assert kept + [r0] + tail == kept + rest;
      }
    } else {
      assert kept + rest == kept;
    }
  }

  /** The pass does not change the OR of the list. */
  lemma PruneUnion(L: seq<Cube>)
    ensures UnionSet(Prune(L)) == UnionSet(L)
  {
    PruneFromUnion([], L);
    assert [] + L == L;
  }

  /** Every product the pass keeps was in the list. */
  lemma {:induction false} PruneFromMembers(kept: seq<Cube>, rest: seq<Cube>)
    ensures forall c :: c in PruneFrom(kept, rest) ==> c in kept || c in rest
    ensures |PruneFrom(kept, rest)| <= |kept| + |rest|
    decreases |rest|
  {
    if |rest| > 0 {
      PruneFromMembers(kept, rest[1..]);
      PruneFromMembers(kept + [rest[0]], rest[1..]);
    }
  }

  /* ---------------------------------------------------------------------- */
  /* The pass leaves no redundant product                                    */
  /* ---------------------------------------------------------------------- */

  /** No kept product is covered by the other kept products together with rest. */
  ghost predicate KeptIrredundant(kept: seq<Cube>, rest: seq<Cube>) {
    forall i :: 0 <= i < |kept| ==> !(CubeSet(kept[i]) <= Others(kept, i) + UnionSet(rest))
  }

  /** Visiting the head of rest keeps the invariant, whether the head is dropped or kept. */
  lemma VisitKeeps(kept: seq<Cube>, rest: seq<Cube>)
    requires |rest| > 0 && KeptIrredundant(kept, rest)
    ensures CubeSet(rest[0]) <= UnionSet(kept + rest[1..]) ==> KeptIrredundant(kept, rest[1..])
    ensures !(CubeSet(rest[0]) <= UnionSet(kept + rest[1..])) ==> KeptIrredundant(kept + [rest[0]], rest[1..])
  {
    var r0 := rest[0];
    var tail := rest[1..];
    UnionFront(rest);
    if !(CubeSet(r0) <= UnionSet(kept + tail)) {
      var k := kept + [r0];
      forall i | 0 <= i < |k| ensures !(CubeSet(k[i]) <= Others(k, i) + UnionSet(tail)) {
        if i < |kept| {
          OthersSnoc(kept, r0, i);
        } else {
          OthersLast(kept, r0);
          UnionSetConcat(kept, tail);
        }
      }
    }
  }

  lemma {:induction false} PruneFromIrredundant(kept: seq<Cube>, rest: seq<Cube>)
    requires KeptIrredundant(kept, rest)
    ensures Irredundant(PruneFrom(kept, rest))
    decreases |rest|
  {
    if |rest| == 0 {
      assert UnionSet(rest) == {};
    } else {
      VisitKeeps(kept, rest);
      if CubeSet(rest[0]) <= UnionSet(kept + rest[1..]) {
        PruneFromIrredundant(kept, rest[1..]);
      } else {
        PruneFromIrredundant(kept + [rest[0]], rest[1..]);
      }
    }
  }

  /** After the pass no remaining product is contained in the OR of the other remaining products. */
  lemma PruneIrredundant(L: seq<Cube>)
    ensures Irredundant(Prune(L))
  {
    PruneFromIrredundant([], L);
  }

  /** A product that occurs again later in the list is covered by the others. */
  lemma DuplicateCovered(L: seq<Cube>, i: nat, j: nat)
    requires i < j < |L| && L[i] == L[j]
    ensures CubeSet(L[i]) <= Others(L, i)
  {
    var tail := L[i + 1..];
    assert tail[j - i - 1] == L[j];
    UnionSetMembers(tail);
  }

  /** A list without redundant products has no duplicates either. */
  lemma IrredundantNoDuplicates(L: seq<Cube>)
    requires Irredundant(L)
    ensures NoDuplicates(L)
  {
    forall i, j | 0 <= i < j < |L| ensures L[i] != L[j] {
      if L[i] == L[j] {
        DuplicateCovered(L, i, j);
        assert false;
      }
    }
  }

  /* ---------------------------------------------------------------------- */
  /* A second pass removes nothing                                           */
  /* ---------------------------------------------------------------------- */

  /** In a list without redundant products, the head of rest is not covered by kept and the tail. */
  lemma IrredundantHead(kept: seq<Cube>, rest: seq<Cube>)
    requires |rest| > 0 && Irredundant(kept + rest)
    ensures !(CubeSet(rest[0]) <= UnionSet(kept + rest[1..]))
  {
    var L := kept + rest;
    var i := |kept|;
    assert L[i] == rest[0] && L[..i] == kept && L[i + 1..] == rest[1..];
    UnionSetConcat(kept, rest[1..]);
    assert !(CubeSet(L[i]) <= Others(L, i));
  }

  lemma {:induction false} PruneFromIdentity(kept: seq<Cube>, rest: seq<Cube>)
    requires Irredundant(kept + rest)
    ensures PruneFrom(kept, rest) == kept + rest
    decreases |rest|
  {
    if |rest| > 0 {
      var k2 := kept + [rest[0]];
      assert k2 + rest[1..] == kept + rest;
      PruneFromIdentity(k2, rest[1..]);
      IrredundantHead(kept, rest);
      assert PruneFrom(kept, rest) == PruneFrom(k2, rest[1..]);
    }
  }

  /** The pass leaves a list without redundant products as it is. */
  lemma PruneIdentity(L: seq<Cube>)
    requires Irredundant(L)
    ensures Prune(L) == L
  {
    assert [] + L == L;
    PruneFromIdentity([], L);
  }

  /** Running the pass twice gives what running it once gives. */
  lemma PruneIdempotent(L: seq<Cube>)
    ensures Prune(Prune(L)) == Prune(L)
  {
    PruneIrredundant(L);
    PruneIdentity(Prune(L));
  }

  /* ---------------------------------------------------------------------- */
  /* The loops                                                               */
  /* ---------------------------------------------------------------------- */

  /**
   * The inner walk (src/main.c:640-651): the OR of every entry of the list
   * other than the visited one, starting from the constant zero.
   */
  method OrOthers(cur: seq<Cube>, p: nat) returns (f: set<Minterm>)
    requires p < |cur|
    ensures f == Others(cur, p)
  {
    f := {};
    for k := 0 to |cur|
      invariant k <= p ==> f == UnionSet(cur[..k])
      invariant k > p ==> f == UnionSet(cur[..p]) + UnionSet(cur[p + 1..k])
    {
      if k != p {
        if k < p {
          assert cur[..k + 1][..k] == cur[..k];
        } else {
          assert cur[p + 1..k + 1][..k - p - 1] == cur[p + 1..k];
        }
        f := f + CubeSet(cur[k]);
      }
    }
    assert cur[p + 1..|cur|] == cur[p + 1..];
  }

  /** Visiting the entry at position p: drop it when the others cover it (src/main.c:653-658). */
  method Visit(g: CubeLists, o: nat, p: nat) returns (dropped: bool)
    requires g.Valid() && o < |g.lists| && p < |g.lists[o]|
    modifies g, g.nCubes
    ensures g.Valid()
    ensures var cur := old(g.lists[o]);
      && (dropped <==> CubeSet(cur[p]) <= UnionSet(cur[..p] + cur[p + 1..]))
      && g.lists == old(g.lists)[o := if dropped then cur[..p] + cur[p + 1..] else cur]
    ensures g.nCubes[o] == old(g.nCubes[o]) - (if dropped then 1 else 0)
    ensures forall j :: 0 <= j < g.nCubes.Length && j != o ==> g.nCubes[j] == old(g.nCubes[j])
  {
    var cur := g.lists[o];
    var f := OrOthers(cur, p);
    UnionSetConcat(cur[..p], cur[p + 1..]);
    dropped := CubeSet(cur[p]) <= f;
    if dropped {
      g.Replace(o, cur[..p] + cur[p + 1..]);
      g.Count(o, -1);
    }
  }

  /** One step of the walk, on the specification. */
  lemma VisitStep(cur: seq<Cube>, p: nat, dropped: bool)
    requires p < |cur|
    requires dropped <==> CubeSet(cur[p]) <= UnionSet(cur[..p] + cur[p + 1..])
    ensures dropped ==> var next := cur[..p] + cur[p + 1..];
      PruneFrom(next[..p], next[p..]) == PruneFrom(cur[..p], cur[p..])
    ensures !dropped ==> PruneFrom(cur[..p + 1], cur[p + 1..]) == PruneFrom(cur[..p], cur[p..])
  {
    var rest := cur[p..];
    assert rest[0] == cur[p] && rest[1..] == cur[p + 1..];
    var next := cur[..p] + cur[p + 1..];
    assert next[..p] == cur[..p] && next[p..] == cur[p + 1..];
    assert cur[..p + 1] == cur[..p] + [cur[p]];
  }

  /**
   * The outer walk over list o: it leaves Prune of the list and takes one
   * off N_CUBES[o] per removed product.
   */
  method PruneOutput(g: CubeLists, o: nat)
    requires g.Valid() && o < |g.lists|
    modifies g, g.nCubes
    ensures g.Valid()
    ensures g.lists == old(g.lists)[o := Prune(old(g.lists[o]))]
    ensures g.nCubes[o] == old(g.nCubes[o]) - (|old(g.lists[o])| - |Prune(old(g.lists[o]))|)
    ensures forall j :: 0 <= j < g.nCubes.Length && j != o ==> g.nCubes[j] == old(g.nCubes[j])
  {
    ghost var L := g.lists[o];
    var p := 0;
    assert L[..0] == [] && L[0..] == L;
    while p < |g.lists[o]|
      invariant g.Valid() && |g.lists| == |old(g.lists)| && p <= |g.lists[o]|
      invariant g.lists == old(g.lists)[o := g.lists[o]]
      invariant PruneFrom(g.lists[o][..p], g.lists[o][p..]) == Prune(L)
      invariant g.nCubes[o] == old(g.nCubes[o]) - (|L| - |g.lists[o]|)
      invariant forall j :: 0 <= j < g.nCubes.Length && j != o ==> g.nCubes[j] == old(g.nCubes[j])
      decreases |g.lists[o]| - p
    {
      ghost var cur := g.lists[o];
      var dropped := Visit(g, o, p);
      VisitStep(cur, p, dropped);
      if !dropped {
        p := p + 1;
      }
    }
    assert g.lists[o][p..] == [] && g.lists[o][..p] == g.lists[o];
  }

  /** The pass over every output (src/main.c:629-664). */
  method PruneAll(g: CubeLists)
    requires g.Valid()
    modifies g, g.nCubes
    ensures g.Valid() && |g.lists| == |old(g.lists)|
    ensures forall o :: 0 <= o < |g.lists| ==> g.lists[o] == Prune(old(g.lists[o]))
    ensures forall o :: 0 <= o < |g.lists| ==>
      g.nCubes[o] == old(g.nCubes[o]) - (|old(g.lists[o])| - |Prune(old(g.lists[o]))|)
  {
    for o := 0 to |g.lists|
      invariant g.Valid() && |g.lists| == |old(g.lists)|
      invariant forall j :: 0 <= j < o ==> g.lists[j] == Prune(old(g.lists[j]))
      invariant forall j :: 0 <= j < o ==>
        g.nCubes[j] == old(g.nCubes[j]) - (|old(g.lists[j])| - |Prune(old(g.lists[j]))|)
      invariant forall j :: o <= j < |g.lists| ==> g.lists[j] == old(g.lists[j]) && g.nCubes[j] == old(g.nCubes[j])
    {
      PruneOutput(g, o);
    }
  }
}
