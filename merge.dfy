/**
 * mergeToPLA (src/main.c:71-116): the per-output product lists become one
 * matrix with a row per distinct input part.  The lists are visited output by
 * output, each in list order; a product whose input part already has a row
 * sets its output's column of that row to 1, any other product gets a new row
 * holding its input codes and a 1 in its output's column.  The matrix is
 * allocated with one zeroed row per unit of N_CUBES.
 */
module Merge {
  import opened Cube
  import opened PlaLists
  import Admission

  /** A product of output o's list. */
  datatype Entry = Entry(o: nat, cube: Cube)

  /** The products of one list, tagged with their output. */
  function Tagged(o: nat, L: seq<Cube>): (r: seq<Entry>)
    ensures |r| == |L| && forall k :: 0 <= k < |L| ==> r[k] == Entry(o, L[k])
  {
    seq(|L|, k requires 0 <= k < |L| => Entry(o, L[k]))
  }

  /** The products of outputs 0..o-1 in the order the merge visits them. */
  function Entries(lists: seq<seq<Cube>>, o: nat): seq<Entry>
    requires o <= |lists|
  {
    if o == 0 then [] else Entries(lists, o - 1) + Tagged(o - 1, lists[o - 1])
  }

  /** The visit order holds every product of every output below o, and nothing else. */
  lemma {:induction false} EntriesMembers(lists: seq<seq<Cube>>, o: nat)
    requires o <= |lists|
    ensures forall e :: e in Entries(lists, o) <==> e.o < o && e.cube in lists[e.o]
    decreases o
  {
    if o > 0 {
      EntriesMembers(lists, o - 1);
      var t := Tagged(o - 1, lists[o - 1]);
      forall e ensures e in t <==> e.o == o - 1 && e.cube in lists[o - 1] {
        if e.o == o - 1 && e.cube in lists[o - 1] {
          var k :| 0 <= k < |lists[o - 1]| && lists[o - 1][k] == e.cube;
          assert t[k] == e;
        }
      }
    }
  }

  /** The number of products of outputs a..b-1. */
  lemma {:induction false} EntriesGrow(lists: seq<seq<Cube>>, a: nat, b: nat)
    requires a < b <= |lists|
    ensures |Entries(lists, a)| + |lists[a]| <= |Entries(lists, b)|
    decreases b - a
  {
    if a + 1 < b {
      EntriesGrow(lists, a + 1, b);
    }
  }

  /** Every row has n columns. */
  predicate Shaped(rows: seq<seq<int>>, n: nat) {
    forall i :: 0 <= i < |rows| ==> |rows[i]| == n
  }

  /** The index of the first row whose first w columns are key, or |rows| when there is none. */
  function FirstMatch(rows: seq<seq<int>>, key: seq<int>, w: nat, from: nat): (i: nat)
    requires from <= |rows| && forall k :: 0 <= k < |rows| ==> |rows[k]| >= w
    ensures from <= i <= |rows|
    ensures i < |rows| ==> rows[i][..w] == key
    ensures forall j :: from <= j < i ==> rows[j][..w] != key
    decreases |rows| - from
  {
    if from == |rows| then from
    else if rows[from][..w] == key then from
    else FirstMatch(rows, key, w, from + 1)
  }

  /** The input parts of the rows. */
  function Inputs(rows: seq<seq<int>>, w: nat): (r: seq<seq<int>>)
    requires forall k :: 0 <= k < |rows| ==> |rows[k]| >= w
    ensures |r| == |rows| && forall k :: 0 <= k < |rows| ==> r[k] == rows[k][..w]
  {
    seq(|rows|, k requires 0 <= k < |rows| => rows[k][..w])
  }

  /** A row for a product of output o: its input codes, then 1 in column o and 0 elsewhere. */
  function NewRow(c: Cube, o: nat, numOut: nat): (r: seq<int>)
    requires o < numOut
    ensures |r| == |c| + numOut && r[..|c|] == Codes(c)
    ensures forall j :: |c| <= j < |r| ==> r[j] == (if j == |c| + o then 1 else 0)
  {
    Codes(c) + seq(numOut, j => if j == o then 1 else 0)
  }

  /** What the merge does with one product. */
  function MergeStep(rows: seq<seq<int>>, e: Entry, w: nat, numOut: nat): (r: seq<seq<int>>)
    requires Shaped(rows, w + numOut) && e.o < numOut && |e.cube| == w
    ensures Shaped(r, w + numOut)
  {
    var i := FirstMatch(rows, Codes(e.cube), w, 0);
    if i < |rows| then rows[i := rows[i][w + e.o := 1]]
    else rows + [NewRow(e.cube, e.o, numOut)]
  }

  /** The entries are products of outputs below numOut with w inputs. */
  predicate Fits(es: seq<Entry>, w: nat, numOut: nat) {
    forall k :: 0 <= k < |es| ==> es[k].o < numOut && |es[k].cube| == w
  }

  /** The rows after merging the entries in order. */
  function MergeAll(es: seq<Entry>, w: nat, numOut: nat): (r: seq<seq<int>>)
    requires Fits(es, w, numOut)
    ensures Shaped(r, w + numOut)
    decreases |es|
  {
    if |es| == 0 then [] else MergeStep(MergeAll(es[..|es| - 1], w, numOut), es[|es| - 1], w, numOut)
  }

  /** The matrix mergeToPLA builds from the lists. */
  function Merged(lists: seq<seq<Cube>>, w: nat): seq<seq<int>>
    requires forall o :: 0 <= o < |lists| ==> AllOfWidth(lists[o], w)
  {
    EntriesFit(lists, |lists|, w);
    MergeAll(Entries(lists, |lists|), w, |lists|)
  }

  lemma EntriesFit(lists: seq<seq<Cube>>, o: nat, w: nat)
    requires o <= |lists| && forall j :: 0 <= j < |lists| ==> AllOfWidth(lists[j], w)
    ensures Fits(Entries(lists, o), w, |lists|)
  {
    EntriesMembers(lists, o);
    var es := Entries(lists, o);
    forall k | 0 <= k < |es| ensures es[k].o < |lists| && |es[k].cube| == w {
      assert es[k] in es;
      var L := lists[es[k].o];
      var p :| 0 <= p < |L| && L[p] == es[k].cube;
    }
  }

  /* ---------------------------------------------------------------------- */
  /* The rows, in order of first occurrence                                  */
  /* ---------------------------------------------------------------------- */

  /** The input codes of the entries. */
  function Keys(es: seq<Entry>): (r: seq<seq<int>>)
    ensures |r| == |es| && forall k :: 0 <= k < |es| ==> r[k] == Codes(es[k].cube)
  {
    seq(|es|, k requires 0 <= k < |es| => Codes(es[k].cube))
  }

  /** The distinct elements of s, each where it first occurs. */
  function Dedup(s: seq<seq<int>>): seq<seq<int>>
    decreases |s|
  {
    if |s| == 0 then [] else
      var d := Dedup(s[..|s| - 1]);
      if s[|s| - 1] in d then d else d + [s[|s| - 1]]
  }

  /** Dedup keeps exactly the elements of s, once each. */
  lemma {:induction false} DedupFacts(s: seq<seq<int>>)
    ensures forall x :: x in Dedup(s) <==> x in s
    ensures forall i, j :: 0 <= i < j < |Dedup(s)| ==> Dedup(s)[i] != Dedup(s)[j]
    ensures |Dedup(s)| <= |s|
    decreases |s|
  {
    if |s| > 0 {
      var init := s[..|s| - 1];
      DedupFacts(init);
      assert s == init + [s[|s| - 1]];
    }
  }

  /** A matching row exists exactly when the key is among the input parts. */
  lemma FirstMatchIn(rows: seq<seq<int>>, key: seq<int>, w: nat)
    requires forall k :: 0 <= k < |rows| ==> |rows[k]| >= w
    ensures FirstMatch(rows, key, w, 0) < |rows| <==> key in Inputs(rows, w)
  {
    var i := FirstMatch(rows, key, w, 0);
    if key in Inputs(rows, w) {
      var j :| 0 <= j < |rows| && Inputs(rows, w)[j] == key;
      assert rows[j][..w] == key;
    }
  }

  /** The input parts of the merged rows are the products' input parts, deduplicated, in visit order. */
  lemma {:induction false} MergeInputs(es: seq<Entry>, w: nat, numOut: nat)
    requires Fits(es, w, numOut)
    ensures Inputs(MergeAll(es, w, numOut), w) == Dedup(Keys(es))
    decreases |es|
  {
    if |es| > 0 {
      var init := es[..|es| - 1];
      var e := es[|es| - 1];
      var rows := MergeAll(init, w, numOut);
      MergeInputs(init, w, numOut);
      assert Keys(es)[..|es| - 1] == Keys(init);
      FirstMatchIn(rows, Codes(e.cube), w);
      var i := FirstMatch(rows, Codes(e.cube), w, 0);
      var r := MergeStep(rows, e, w, numOut);
      if i < |rows| {
        forall k | 0 <= k < |rows| ensures r[k][..w] == rows[k][..w] {
          if k == i {
            assert rows[i][w + e.o := 1][..w] == rows[i][..w];
          }
        }
        assert Inputs(r, w) == Inputs(rows, w);
      } else {
        assert Inputs(r, w) == Inputs(rows, w) + [Codes(e.cube)];
      }
    }
  }

  /** Row i, column w + o is 1 exactly when an entry of output o has row i's input part, and 0 otherwise. */
  ghost predicate ColumnsMean(rows: seq<seq<int>>, es: seq<Entry>, w: nat, numOut: nat)
    requires Shaped(rows, w + numOut)
  {
    forall i, j :: 0 <= i < |rows| && w <= j < w + numOut ==>
      && (rows[i][j] == 0 || rows[i][j] == 1)
      && (rows[i][j] == 1 <==> exists e :: e in es && e.o == j - w && Codes(e.cube) == rows[i][..w])
  }

  /** Merging one more product keeps the column meaning. */
  lemma ColumnsStep(rows: seq<seq<int>>, es: seq<Entry>, e: Entry, w: nat, numOut: nat)
    requires Shaped(rows, w + numOut) && e.o < numOut && |e.cube| == w
    requires ColumnsMean(rows, es, w, numOut)
    requires forall i, j :: 0 <= i < j < |rows| ==> rows[i][..w] != rows[j][..w]
    requires forall x :: x in es ==> Codes(x.cube) in Inputs(rows, w)
    ensures ColumnsMean(MergeStep(rows, e, w, numOut), es + [e], w, numOut)
  {
    var key := Codes(e.cube);
    var i0 := FirstMatch(rows, key, w, 0);
    var r := MergeStep(rows, e, w, numOut);
    var es' := es + [e];
    FirstMatchIn(rows, key, w);
    forall i, j | 0 <= i < |r| && w <= j < w + numOut
      ensures && (r[i][j] == 0 || r[i][j] == 1)
              && (r[i][j] == 1 <==> exists x :: x in es' && x.o == j - w && Codes(x.cube) == r[i][..w])
    {
      if i < |rows| {
        assert r[i][..w] == rows[i][..w] by {
          if i == i0 {
            assert rows[i][w + e.o := 1][..w] == rows[i][..w];
          }
        }
        if i == i0 {
          if j == w + e.o {
            assert e in es' && e.o == j - w && Codes(e.cube) == r[i][..w];
          } else {
            assert r[i][j] == rows[i][j];
          }
        } else {
          assert r[i] == rows[i];
          assert rows[i][..w] != key by {
            if i0 < |rows| {
              assert rows[i0][..w] == key;
            } else {
              assert Inputs(rows, w)[i] == rows[i][..w];
            }
          }
        }
      } else {
        assert i0 == |rows| && r[i] == NewRow(e.cube, e.o, numOut);
        assert forall x :: x in es ==> Codes(x.cube) != key;
        if j == w + e.o {
          assert e in es' && e.o == j - w && Codes(e.cube) == r[i][..w];
        }
      }
    }
  }

  /** The merged rows have distinct input parts, one for every entry, and no more rows than entries. */
  lemma MergeDistinct(es: seq<Entry>, w: nat, numOut: nat)
    requires Fits(es, w, numOut)
    ensures var rows := MergeAll(es, w, numOut);
      && (forall i, j :: 0 <= i < j < |rows| ==> rows[i][..w] != rows[j][..w])
      && (forall x :: x in es ==> Codes(x.cube) in Inputs(rows, w))
      && |rows| <= |es|
  {
    var rows := MergeAll(es, w, numOut);
    MergeInputs(es, w, numOut);
    DedupFacts(Keys(es));
    var ins := Inputs(rows, w);
    forall i, j | 0 <= i < j < |rows| ensures rows[i][..w] != rows[j][..w] {
      assert ins[i] == rows[i][..w] && ins[j] == rows[j][..w];
    }
    forall x | x in es ensures Codes(x.cube) in ins {
      var k :| 0 <= k < |es| && es[k] == x;
      assert Keys(es)[k] == Codes(x.cube);
    }
  }

  /** The merged rows give each output's column its meaning. */
  lemma {:induction false} MergeColumns(es: seq<Entry>, w: nat, numOut: nat)
    requires Fits(es, w, numOut)
    ensures ColumnsMean(MergeAll(es, w, numOut), es, w, numOut)
    decreases |es|
  {
    if |es| > 0 {
      var init := es[..|es| - 1];
      var e := es[|es| - 1];
      MergeColumns(init, w, numOut);
      MergeDistinct(init, w, numOut);
      ColumnsStep(MergeAll(init, w, numOut), init, e, w, numOut);
      assert init + [e] == es;
    }
  }

  /** A cell that says whether output o has an entry with input part key says whether list o has a product with it. */
  lemma ColumnOfList(lists: seq<seq<Cube>>, o: nat, key: seq<int>, has: bool)
    requires o < |lists|
    requires has <==> exists e :: e in Entries(lists, |lists|) && e.o == o && Codes(e.cube) == key
    ensures has <==> exists c :: c in lists[o] && Codes(c) == key
  {
    EntriesMembers(lists, |lists|);
    if has {
      var e :| e in Entries(lists, |lists|) && e.o == o && Codes(e.cube) == key;
      assert e.cube in lists[o];
    }
    if exists c :: c in lists[o] && Codes(c) == key {
      var c :| c in lists[o] && Codes(c) == key;
      assert Entry(o, c) in Entries(lists, |lists|);
    }
  }

  /** Column meaning over the visit order is column meaning over the lists. */
  lemma ColumnsOfLists(rows: seq<seq<int>>, lists: seq<seq<Cube>>, w: nat)
    requires Shaped(rows, w + |lists|) && ColumnsMean(rows, Entries(lists, |lists|), w, |lists|)
    ensures forall i, j :: 0 <= i < |rows| && w <= j < w + |lists| ==>
      && (rows[i][j] == 0 || rows[i][j] == 1)
      && (rows[i][j] == 1 <==> exists c :: c in lists[j - w] && Codes(c) == rows[i][..w])
  {
    forall i, j | 0 <= i < |rows| && w <= j < w + |lists|
      ensures rows[i][j] == 1 <==> exists c :: c in lists[j - w] && Codes(c) == rows[i][..w]
    {
      ColumnOfList(lists, j - w, rows[i][..w], rows[i][j] == 1);
    }
  }

  /**
   * The matrix of mergeToPLA: input parts pairwise distinct, in order of first
   * occurrence over the visit order; column NUM_IN + o of a row is 1 exactly
   * when a product of list o has that input part, and 0 otherwise; every
   * product has its row; and there are at most as many rows as products.
   */
  lemma MergedSpec(lists: seq<seq<Cube>>, w: nat)
    requires forall o :: 0 <= o < |lists| ==> AllOfWidth(lists[o], w)
    ensures var rows := Merged(lists, w);
      && Shaped(rows, w + |lists|)
      && Inputs(rows, w) == Dedup(Keys(Entries(lists, |lists|)))
      && (forall i, j :: 0 <= i < j < |rows| ==> rows[i][..w] != rows[j][..w])
      && (forall i, j :: 0 <= i < |rows| && w <= j < w + |lists| ==>
            && (rows[i][j] == 0 || rows[i][j] == 1)
            && (rows[i][j] == 1 <==> exists c :: c in lists[j - w] && Codes(c) == rows[i][..w]))
      && (forall o, c :: 0 <= o < |lists| && c in lists[o] ==> Codes(c) in Inputs(rows, w))
      && |rows| <= |Entries(lists, |lists|)|
  {
    var es := Entries(lists, |lists|);
    EntriesFit(lists, |lists|, w);
    var rows := MergeAll(es, w, |lists|);
    MergeInputs(es, w, |lists|);
    MergeDistinct(es, w, |lists|);
    MergeColumns(es, w, |lists|);
    ColumnsOfLists(rows, lists, w);
    EntriesMembers(lists, |lists|);
    forall o, c | 0 <= o < |lists| && c in lists[o] ensures Codes(c) in Inputs(rows, w) {
      assert Entry(o, c) in es;
    }
  }

  /* ---------------------------------------------------------------------- */
  /* The loops over the matrix                                               */
  /* ---------------------------------------------------------------------- */

  /** The first n rows of M are rows, and the rows below them are still zero. */
  ghost predicate Holds(M: array2<int>, rows: seq<seq<int>>)
    reads M
  {
    && |rows| <= M.Length0
    && Shaped(rows, M.Length1)
    && (forall i, j :: 0 <= i < |rows| && 0 <= j < M.Length1 ==> M[i, j] == rows[i][j])
    && (forall i, j :: |rows| <= i < M.Length0 && 0 <= j < M.Length1 ==> M[i, j] == 0)
  }

  /** memcmp(M[i], cube, NUM_IN * sizeof(int)) == 0. */
  method SameInputs(M: array2<int>, i: nat, c: Cube) returns (same: bool)
    requires i < M.Length0 && |c| <= M.Length1
    ensures same <==> forall j :: 0 <= j < |c| ==> M[i, j] == Code(c[j])
  {
    for j := 0 to |c|
      invariant forall k :: 0 <= k < j ==> M[i, k] == Code(c[k])
    {
      if M[i, j] != Code(c[j]) {
        return false;
      }
    }
    return true;
  }

  /** memcpy of the cube into the zeroed row n, then the 1 in output column o. */
  method WriteRow(M: array2<int>, n: nat, c: Cube, o: nat, numOut: nat)
    requires n < M.Length0 && M.Length1 == |c| + numOut && o < numOut
    requires forall j :: 0 <= j < M.Length1 ==> M[n, j] == 0
    modifies M
    ensures forall j :: 0 <= j < M.Length1 ==> M[n, j] == NewRow(c, o, numOut)[j]
    ensures forall i, j :: 0 <= i < M.Length0 && i != n && 0 <= j < M.Length1 ==> M[i, j] == old(M[i, j])
  {
    for j := 0 to |c|
      invariant forall k :: 0 <= k < j ==> M[n, k] == Code(c[k])
      invariant forall k :: j <= k < M.Length1 ==> M[n, k] == 0
      invariant forall i, k :: 0 <= i < M.Length0 && i != n && 0 <= k < M.Length1 ==> M[i, k] == old(M[i, k])
    {
      M[n, j] := Code(c[j]);
    }
    M[n, |c| + o] := 1;
  }

  /** The search of the merge loop (src/main.c:91-99): the first row whose input part is the cube's. */
  method FindRow(M: array2<int>, n: nat, c: Cube, w: nat, ghost rows: seq<seq<int>>) returns (i: nat)
    requires |c| == w <= M.Length1 && n == |rows| && Holds(M, rows)
    ensures i == FirstMatch(rows, Codes(c), w, 0)
  {
    var key := Codes(c);
    i := 0;
    while i < n
      invariant i <= n && forall k :: 0 <= k < i ==> rows[k][..w] != key
    {
      var same := SameInputs(M, i, c);
      assert same <==> rows[i][..w] == key by {
        assert forall j :: 0 <= j < w ==> M[i, j] == rows[i][j];
        if same {
          assert forall j :: 0 <= j < w ==> rows[i][..w][j] == key[j];
        }
      }
      if same {
        return;
      }
      i := i + 1;
    }
  }

  /** One product of the merge loop (src/main.c:88-107). */
  method Place(M: array2<int>, n: nat, e: Entry, w: nat, numOut: nat, ghost rows: seq<seq<int>>) returns (next: nat)
    requires M.Length1 == w + numOut && e.o < numOut && |e.cube| == w
    requires n == |rows| && Holds(M, rows)
    requires FirstMatch(rows, Codes(e.cube), w, 0) < |rows| || n < M.Length0
    modifies M
    ensures Holds(M, MergeStep(rows, e, w, numOut)) && next == |MergeStep(rows, e, w, numOut)|
  {
    var i := FindRow(M, n, e.cube, w, rows);
    if i < n {
      M[i, w + e.o] := 1;
      next := n;
    } else {
      WriteRow(M, n, e.cube, e.o, numOut);
      next := n + 1;
    }
  }

  /** The merged row counts at most as many rows as entries. */
  lemma {:induction false} MergeLength(es: seq<Entry>, w: nat, numOut: nat)
    requires Fits(es, w, numOut)
    ensures |MergeAll(es, w, numOut)| <= |es|
    decreases |es|
  {
    if |es| > 0 {
      MergeLength(es[..|es| - 1], w, numOut);
    }
  }

  /** One entry more in the visit order is one more merge step. */
  lemma MergeSnoc(es: seq<Entry>, e: Entry, w: nat, numOut: nat)
    requires Fits(es, w, numOut) && e.o < numOut && |e.cube| == w
    ensures Fits(es + [e], w, numOut)
    ensures MergeAll(es + [e], w, numOut) == MergeStep(MergeAll(es, w, numOut), e, w, numOut)
  {
    assert (es + [e])[..|es|] == es;
    assert forall k :: 0 <= k < |es| ==> es[k] == (es + [e])[k];
  }

  /** One more product of the list, tagged. */
  lemma TaggedSnoc(base: seq<Entry>, o: nat, L: seq<Cube>, k: nat)
    requires k < |L|
    ensures base + Tagged(o, L[..k + 1]) == base + Tagged(o, L[..k]) + [Entry(o, L[k])]
  {
    assert Tagged(o, L[..k + 1]) == Tagged(o, L[..k]) + [Entry(o, L[k])];
  }

  /** max_matrix_row_size (src/main.c:73-75): the sum of the counters, at least the number of products. */
  method RowBudget(g: CubeLists) returns (maxRows: int)
    requires g.Valid()
    requires forall o :: 0 <= o < |g.lists| ==> |g.lists[o]| <= g.nCubes[o]
    ensures maxRows == Admission.Sum(g.nCubes[..]) && maxRows >= |Entries(g.lists, |g.lists|)|
  {
    maxRows := 0;
    for i := 0 to |g.lists|
      invariant maxRows == Admission.Sum(g.nCubes[..i]) && maxRows >= |Entries(g.lists, i)|
    {
      assert g.nCubes[..i + 1][..i] == g.nCubes[..i];
      maxRows := maxRows + g.nCubes[i];
    }
    assert g.nCubes[..|g.lists|] == g.nCubes[..];
  }

  /** The products of output o, merged in list order (src/main.c:83-108). */
  method MergeOutput(M: array2<int>, rowLen: nat, lists: seq<seq<Cube>>, o: nat, w: nat) returns (next: nat)
    requires o < |lists| && forall j :: 0 <= j < |lists| ==> AllOfWidth(lists[j], w)
    requires M.Length1 == w + |lists| && |Entries(lists, |lists|)| <= M.Length0
    requires Fits(Entries(lists, o), w, |lists|)
    requires Holds(M, MergeAll(Entries(lists, o), w, |lists|)) && rowLen == |MergeAll(Entries(lists, o), w, |lists|)|
    modifies M
    ensures Fits(Entries(lists, o + 1), w, |lists|)
    ensures Holds(M, MergeAll(Entries(lists, o + 1), w, |lists|)) && next == |MergeAll(Entries(lists, o + 1), w, |lists|)|
  {
    var numOut := |lists|;
    var L := lists[o];
    ghost var base := Entries(lists, o);
    EntriesFit(lists, o, w);
    EntriesGrow(lists, o, numOut);
    ghost var es := base;
    assert base + Tagged(o, L[..0]) == base;
    next := rowLen;
    for k := 0 to |L|
      invariant es == base + Tagged(o, L[..k]) && |es| == |base| + k
      invariant Fits(es, w, numOut) && Holds(M, MergeAll(es, w, numOut)) && next == |MergeAll(es, w, numOut)|
    {
      var e := Entry(o, L[k]);
      TaggedSnoc(base, o, L, k);
      MergeSnoc(es, e, w, numOut);
      MergeLength(es, w, numOut);
      next := Place(M, next, e, w, numOut, MergeAll(es, w, numOut));
      es := es + [e];
    }
    assert L[..|L|] == L;
  }

  /**
   * mergeToPLA (src/main.c:71-116), without the file it writes: the matrix
   * has Σ N_CUBES zeroed rows of NUM_IN + NUM_OUT columns, and its first
   * rowLen rows are the merged rows.  The source overruns the matrix unless
   * no list is longer than its counter, so that is required.
   */
  method MergeToMatrix(g: CubeLists, w: nat) returns (M: array2<int>, rowLen: nat)
    requires g.Valid()
    requires forall o :: 0 <= o < |g.lists| ==> AllOfWidth(g.lists[o], w) && |g.lists[o]| <= g.nCubes[o]
    ensures fresh(M) && M.Length0 == Admission.Sum(g.nCubes[..]) && M.Length1 == w + |g.lists|
    ensures Holds(M, Merged(g.lists, w)) && rowLen == |Merged(g.lists, w)|
  {
    var lists := g.lists;
    var maxRows := RowBudget(g);
    M := new int[maxRows, w + |lists|]((i, j) => 0);
    EntriesFit(lists, 0, w);
    rowLen := 0;
    for o := 0 to |lists|
      invariant Fits(Entries(lists, o), w, |lists|)
      invariant Holds(M, MergeAll(Entries(lists, o), w, |lists|))
      invariant rowLen == |MergeAll(Entries(lists, o), w, |lists|)|
    {
      rowLen := MergeOutput(M, rowLen, lists, o, w);
    }
  }
}
