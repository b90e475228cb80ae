/**
 * The ternary cube model shared by the PLA reader, the approximation engine
 * and the PLA writer.  A cube (product term) is a sequence of literals; the
 * Boolean function a cube or a list of cubes denotes is the finite set of
 * minterms (fully specified input assignments) that satisfy it.  These sets
 * stand in for the BDDs the program builds with its decision-diagram package.
 */
module Cube {

  /** One input literal; the program stores these as the integers 0, 1 and 2. */
  datatype Lit = Zero | One | DC

  type Cube = seq<Lit>

  /** A fully specified input assignment. */
  type Minterm = seq<bool>

  /** The integer code the program uses for a literal. */
  function Code(l: Lit): (r: int)
    ensures 0 <= r <= 2
    ensures l == DC <==> r == 2
    ensures l == One <==> r == 1
  {
    match l
    case Zero => 0
    case One => 1
    case DC => 2
  }

  /** The integer row the program keeps for a cube. */
  function Codes(c: Cube): (r: seq<int>)
    ensures |r| == |c|
    ensures forall i :: 0 <= i < |c| ==> r[i] == Code(c[i])
  {
    seq(|c|, i requires 0 <= i < |c| => Code(c[i]))
  }

  lemma CodesInjective(a: Cube, b: Cube)
    requires Codes(a) == Codes(b)
    ensures a == b
  {
    assert |a| == |b|;
    forall i | 0 <= i < |a| ensures a[i] == b[i] {
      assert Code(a[i]) == Codes(a)[i] == Codes(b)[i] == Code(b[i]);
    }
  }

  /** m satisfies every literal of c that is not a don't-care. */
  predicate InCube(m: Minterm, c: Cube) {
    |m| == |c| && forall i :: 0 <= i < |c| && c[i] != DC ==> m[i] == (c[i] == One)
  }

  /**
   * The minterms of a cube: the function construct_product and read_product
   * build, one literal at a time, as a conjunction of variables.
   */
  function CubeSet(c: Cube): (s: set<Minterm>)
    ensures forall m :: m in s <==> InCube(m, c)
    decreases |c|
  {
    if |c| == 0 then
      assert forall m :: InCube(m, c) ==> m == [];
      {[]}
    else
      var rest := CubeSet(c[1..]);
      var s := (if c[0] != One then set m | m in rest :: [false] + m else {})
             + (if c[0] != Zero then set m | m in rest :: [true] + m else {});
      assert forall m :: InCube(m, c) ==> m in s by {
        forall m | InCube(m, c) ensures m in s {
          var t := m[1..];
          assert InCube(t, c[1..]);
          assert t in rest;
          assert m == [m[0]] + t;
          if m[0] {
            assert c[0] != Zero;
            assert [true] + t in set m' | m' in rest :: [true] + m';
          } else {
            assert c[0] != One;
            assert [false] + t in set m' | m' in rest :: [false] + m';
          }
        }
      }
      s
  }

  /** The tautology over n variables (the decision-diagram package's "one"). */
  function AllMinterms(n: nat): (s: set<Minterm>)
    ensures forall m :: m in s <==> |m| == n
  {
    CubeSet(seq(n, _ => DC))
  }

  /** The assignment that sets every don't-care of c to false. */
  function Witness(c: Cube): (m: Minterm)
    ensures InCube(m, c)
  {
    seq(|c|, i requires 0 <= i < |c| => c[i] == One)
  }

  /** The disjunction of a list of cubes, built by OR-ing their functions. */
  function UnionSet(cs: seq<Cube>): set<Minterm>
  {
    if |cs| == 0 then {} else UnionSet(cs[..|cs| - 1]) + CubeSet(cs[|cs| - 1])
  }

  /** A minterm is in the disjunction exactly when one of the cubes has it. */
  lemma {:induction false} UnionSetMembers(cs: seq<Cube>)
    ensures forall m :: m in UnionSet(cs) <==> exists k :: 0 <= k < |cs| && InCube(m, cs[k])
    decreases |cs|
  {
    if |cs| > 0 {
      var init := cs[..|cs| - 1];
      UnionSetMembers(init);
      forall m ensures m in UnionSet(cs) <==> exists k :: 0 <= k < |cs| && InCube(m, cs[k]) {
        if m in UnionSet(init) {
          var k :| 0 <= k < |init| && InCube(m, init[k]);
          assert cs[k] == init[k];
        }
        if exists k :: 0 <= k < |cs| && InCube(m, cs[k]) {
          var k :| 0 <= k < |cs| && InCube(m, cs[k]);
          if k < |cs| - 1 {
            assert init[k] == cs[k];
          }
        }
      }
    }
  }

  lemma UnionSetConcat(a: seq<Cube>, b: seq<Cube>)
    ensures UnionSet(a + b) == UnionSet(a) + UnionSet(b)
  {
    UnionSetMembers(a);
    UnionSetMembers(b);
    UnionSetMembers(a + b);
    forall m ensures m in UnionSet(a + b) <==> m in UnionSet(a) + UnionSet(b) {
      if m in UnionSet(a + b) {
        var k :| 0 <= k < |a + b| && InCube(m, (a + b)[k]);
        if k >= |a| {
          assert b[k - |a|] == (a + b)[k];
        }
      }
      if m in UnionSet(b) {
        var k :| 0 <= k < |b| && InCube(m, b[k]);
        assert (a + b)[|a| + k] == b[k];
      }
      if m in UnionSet(a) {
        var k :| 0 <= k < |a| && InCube(m, a[k]);
        assert (a + b)[k] == a[k];
      }
    }
  }

  /** No two cubes of the list are equal. */
  predicate NoDuplicates(cs: seq<Cube>) {
    forall i, j :: 0 <= i < j < |cs| ==> cs[i] != cs[j]
  }

  /** Every cube of the list has n literals. */
  predicate AllOfWidth(cs: seq<Cube>, n: nat) {
    forall k :: 0 <= k < |cs| ==> |cs[k]| == n
  }

  /* ---------------------------------------------------------------------- */
  /* covers (src/main.c:156-168)                                             */
  /* ---------------------------------------------------------------------- */

  /** The three-way answer of covers: 0, 1 and 2 in the program. */
  datatype Relation = NoRelation | StrictlyCovers | Equal

  /**
   * covers(a, b): NoRelation as soon as a defined literal of a differs from b;
   * otherwise StrictlyCovers if a has a don't-care where b is defined, and
   * Equal when neither happens.
   */
  function Covers(a: Cube, b: Cube): Relation
    requires |a| == |b|
  {
    if |a| == 0 then Equal
    else if a[0] != DC && a[0] != b[0] then NoRelation
    else
      var rest := Covers(a[1..], b[1..]);
      if rest == NoRelation then NoRelation
      else if a[0] == DC && b[0] != DC then StrictlyCovers
      else rest
  }

  /**
   * The loop of covers (src/main.c:156-168): a flag that drops from Equal to
   * StrictlyCovers at the first don't-care of a facing a defined literal of
   * b, and an early NoRelation at the first defined literal of a that
   * disagrees with b.
   */
  method CompareCubes(a: Cube, b: Cube) returns (r: Relation)
    requires |a| == |b|
    ensures r == Covers(a, b)
  {
    CoversPointwise(a, b);
    var equals := Equal;
    for i := 0 to |a|
      invariant forall k :: 0 <= k < i ==> a[k] == DC || a[k] == b[k]
      invariant equals == Equal <==> a[..i] == b[..i]
      invariant equals != NoRelation
    {
      if a[i] == DC && b[i] != DC {
        equals := StrictlyCovers;
      } else if a[i] != DC && a[i] != b[i] {
        assert !(a[i] == DC || a[i] == b[i]);
        return NoRelation;
      }
      assert a[..i + 1] == a[..i] + [a[i]] && b[..i + 1] == b[..i] + [b[i]];
    }
    assert a[..|a|] == a && b[..|b|] == b;
    r := equals;
  }

  /** Covers is not NoRelation exactly when every defined literal of a agrees with b. */
  lemma {:induction false} CoversPointwise(a: Cube, b: Cube)
    requires |a| == |b|
    ensures Covers(a, b) != NoRelation <==> forall i :: 0 <= i < |a| ==> a[i] == DC || a[i] == b[i]
    ensures Covers(a, b) == Equal <==> a == b
    decreases |a|
  {
    if |a| > 0 {
      CoversPointwise(a[1..], b[1..]);
      assert forall i :: 1 <= i < |a| ==> a[i] == a[1..][i - 1] && b[i] == b[1..][i - 1];
      if a[1..] == b[1..] && a[0] == b[0] {
        assert a == [a[0]] + a[1..] && b == [b[0]] + b[1..];
      }
    }
  }

  /** covers(a, a) == 2. */
  lemma CoversReflexive(a: Cube)
    ensures Covers(a, a) == Equal
  {
    CoversPointwise(a, a);
  }

  /** covers(a, b) != 0 exactly when every minterm of b is a minterm of a. */
  lemma CoversIffContains(a: Cube, b: Cube)
    requires |a| == |b|
    ensures Covers(a, b) != NoRelation <==> CubeSet(b) <= CubeSet(a)
  {
    CoversPointwise(a, b);
    if Covers(a, b) == NoRelation {
      var i :| 0 <= i < |a| && a[i] != DC && a[i] != b[i];
      var m := Witness(b)[i := a[i] != One];
      assert InCube(m, b);
      assert !InCube(m, a);
      assert m in CubeSet(b) && m !in CubeSet(a);
    }
  }

  /** covers(a, b) == 1 exactly when b's minterms are a proper subset of a's. */
  lemma CoversStrictIff(a: Cube, b: Cube)
    requires |a| == |b|
    ensures Covers(a, b) == StrictlyCovers <==> CubeSet(b) < CubeSet(a)
  {
    CoversIffContains(a, b);
    CoversPointwise(a, b);
    if Covers(a, b) == StrictlyCovers {
      var i :| 0 <= i < |a| && a[i] != b[i];
      assert a[i] == DC;
      var m := Witness(a)[i := b[i] != One];
      assert InCube(m, a);
      assert !InCube(m, b);
      assert m in CubeSet(a) && m !in CubeSet(b);
    }
  }

  /** covers is antisymmetric: covers(a, b) == 1 implies covers(b, a) == 0. */
  lemma CoversAsymmetric(a: Cube, b: Cube)
    requires |a| == |b|
    ensures Covers(a, b) == StrictlyCovers ==> Covers(b, a) == NoRelation
  {
    CoversStrictIff(a, b);
    CoversIffContains(b, a);
  }

  /** The non-symmetric example: [DC, 1] strictly covers [0, 1], not the other way round. */
  lemma CoversExample()
    ensures Covers([DC, One], [Zero, One]) == StrictlyCovers
    ensures Covers([Zero, One], [DC, One]) == NoRelation
  {
  }
}
