/**
 * What getPLAFileData (src/libpla.c:101-158) reports for a file that
 * printMatrixtoFile (src/libpla.c:65-97) wrote: the header lines are
 * skipped, every '0' or '1' of an input part is an input literal, every '1'
 * of an output part is an output literal that adds the row's input literals
 * to the AND count, and no OR counter overflows.
 */
module PlaStats {
  import opened PlaText
  import opened Cube
  import Merge

  /** A text without '.' is scanned character by character, then the rest. */
  lemma {:induction false} CountConcat(st: Counters, a: seq<char>, b: seq<char>)
    requires '.' !in a
    ensures CountText(st, a + b) == CountText(CountText(st, a), b)
    decreases |a|
  {
    if |a| == 0 {
      assert a + b == b;
    } else {
      assert (a + b)[0] == a[0] && (a + b)[1..] == a[1..] + b;
      CountConcat(CountChar(st, a[0]), a[1..], b);
    }
  }

  /** A line that starts with '.' and fits the skip buffer is ignored. */
  lemma DotLineSkipped(st: Counters, body: seq<char>, rest: seq<char>)
    requires |body| < SkipMax && '\n' !in body
    ensures CountText(st, DotLine(body) + rest) == CountText(st, rest)
  {
    var t := DotLine(body) + rest;
    assert t[1..] == body + "\n" + rest;
    LineReadLine(body, rest, SkipMax);
    assert t[1 + |body| + 1..] == rest;
  }

  /** The entries 0 and 1 of v: the literals of an input part. */
  function Lits(v: seq<int>): nat {
    if |v| == 0 then 0 else (if v[0] == 0 || v[0] == 1 then 1 else 0) + Lits(v[1..])
  }

  /** The entries 1 of v: the functions an output part names. */
  function Ones(v: seq<int>): nat {
    if |v| == 0 then 0 else (if v[0] == 1 then 1 else 0) + Ones(v[1..])
  }

  predicate Bits(v: seq<int>) {
    forall j :: 0 <= j < |v| ==> v[j] == 0 || v[j] == 1
  }

  lemma SymbolsNoDot(v: seq<int>)
    ensures '.' !in Symbols(v)
  {
  }

  /** An input part: its '0' and '1' are counted as input literals of the line. */
  lemma {:induction false} InputPhase(st: Counters, v: seq<int>)
    requires !st.output && Codes012(v)
    ensures CountText(st, Symbols(v)) == st.(inN := st.inN + Lits(v), lineLits := st.lineLits + Lits(v))
    decreases |v|
  {
    if |v| > 0 {
      var s := Symbols(v);
      assert s[0] == Symbol(v[0]) && s[1..] == Symbols(v[1..]);
      InputPhase(CountChar(st, s[0]), v[1..]);
    }
  }

  /**
   * An output part: every '1' is an output literal that adds the line's
   * input literals to the AND count; every entry moves to the next function.
   */
  lemma {:induction false} OutputPhase(st: Counters, v: seq<int>)
    requires st.output && !st.overflow && Bits(v) && st.fn + |v| <= |st.orLits|
    ensures var r := CountText(st, Symbols(v));
      r.output && !r.overflow && r.lineLits == st.lineLits && r.inN == st.inN && r.fn == st.fn + |v| &&
      |r.orLits| == |st.orLits| && r.outN == st.outN + Ones(v) && r.andLit == st.andLit + st.lineLits * Ones(v)
    decreases |v|
  {
    if |v| > 0 {
      var s := Symbols(v);
      assert s[0] == Symbol(v[0]) && s[1..] == Symbols(v[1..]);
      var st' := CountChar(st, s[0]);
      OutputPhase(st', v[1..]);
      assert st.lineLits * (1 + Ones(v[1..])) == st.lineLits + st.lineLits * Ones(v[1..]);
    }
  }

  /** A row of the z matrix: every row line starts and ends the scan at the start of a line. */
  lemma RowScan(st: Counters, row: seq<int>, inputs: nat)
    requires inputs < |row| && Codes012(row[..inputs]) && Bits(row[inputs..])
    requires !st.output && st.lineLits == 0 && !st.overflow && |row| - inputs <= |st.orLits|
    ensures '.' !in RowText(row, inputs)
    ensures var r := CountText(st, RowText(row, inputs));
      !r.output && r.lineLits == 0 && !r.overflow && |r.orLits| == |st.orLits| &&
      r.inN == st.inN + Lits(row[..inputs]) && r.outN == st.outN + Ones(row[inputs..]) &&
      r.andLit == st.andLit + Lits(row[..inputs]) * Ones(row[inputs..])
  {
    var A, B := Symbols(row[..inputs]), Symbols(row[inputs..]);
    assert Codes012(row) by {
      forall j | 0 <= j < |row| ensures 0 <= row[j] <= 2 {
        if j < inputs { assert row[j] == row[..inputs][j]; } else { assert row[j] == row[inputs..][j - inputs]; }
      }
    }
    RowLayout(row, inputs);
    SymbolsNoDot(row[..inputs]);
    SymbolsNoDot(row[inputs..]);
    var tail := " " + B + "\n";
    assert RowText(row, inputs) == A + tail;
    CountConcat(st, A, tail);
    InputPhase(st, row[..inputs]);
    var s1 := CountText(st, A);
    var s2 := CountChar(s1, ' ');
    assert tail[1..] == B + "\n";
    assert CountText(s1, tail) == CountText(s2, B + "\n");
    CountConcat(s2, B, "\n");
    OutputPhase(s2, row[inputs..]);
  }

  /** The rows printMatrixtoFile writes: width inputs + outputs, inputs 0/1/2, outputs 0/1. */
  predicate Printable(rows: seq<seq<int>>, inputs: nat, outputs: nat) {
    forall i :: 0 <= i < |rows| ==>
      |rows[i]| == inputs + outputs && Codes012(rows[i][..inputs]) && Bits(rows[i][inputs..])
  }

  /** The input literals of the first k rows. */
  function InLits(rows: seq<seq<int>>, inputs: nat, outputs: nat, k: nat): nat
    requires k <= |rows| && Printable(rows, inputs, outputs)
  {
    if k == 0 then 0 else InLits(rows, inputs, outputs, k - 1) + Lits(rows[k - 1][..inputs])
  }

  /** The output literals of the first k rows. */
  function OutLits(rows: seq<seq<int>>, inputs: nat, outputs: nat, k: nat): nat
    requires k <= |rows| && Printable(rows, inputs, outputs)
  {
    if k == 0 then 0 else OutLits(rows, inputs, outputs, k - 1) + Ones(rows[k - 1][inputs..])
  }

  /** The AND literals of the first k rows: each row's input literals once per output it names. */
  function AndLits(rows: seq<seq<int>>, inputs: nat, outputs: nat, k: nat): nat
    requires k <= |rows| && Printable(rows, inputs, outputs)
  {
    if k == 0 then 0
    else AndLits(rows, inputs, outputs, k - 1) + Lits(rows[k - 1][..inputs]) * Ones(rows[k - 1][inputs..])
  }

  lemma {:induction false} RowsScan(st: Counters, rows: seq<seq<int>>, inputs: nat, outputs: nat, k: nat)
    requires k <= |rows| && Printable(rows, inputs, outputs) && 0 < outputs <= |st.orLits|
    requires !st.output && st.lineLits == 0 && !st.overflow
    ensures '.' !in RowsText(rows, inputs, k)
    ensures var r := CountText(st, RowsText(rows, inputs, k));
      !r.output && r.lineLits == 0 && !r.overflow && |r.orLits| == |st.orLits| &&
      r.inN == st.inN + InLits(rows, inputs, outputs, k) && r.outN == st.outN + OutLits(rows, inputs, outputs, k) &&
      r.andLit == st.andLit + AndLits(rows, inputs, outputs, k)
    decreases k
  {
    if k == 0 {
      assert RowsText(rows, inputs, 0) == [];
    } else {
      RowsScan(st, rows, inputs, outputs, k - 1);
      var P := RowsText(rows, inputs, k - 1);
      CountConcat(st, P, RowText(rows[k - 1], inputs));
      RowScan(CountText(st, P), rows[k - 1], inputs);
    }
  }

  /** The header printMatrixtoFile writes is skipped by the scan. */
  lemma HeaderSkipped(st: Counters, inputs: nat, outputs: nat, R: seq<char>)
    requires |NatText(inputs)| <= 1020 && |NatText(outputs)| <= 1020
    ensures CountText(st, Header(inputs, outputs) + R) == CountText(st, R)
  {
    var a, b := "i " + NatText(inputs), "o " + NatText(outputs);
    NatTextDigits(inputs);
    NatTextDigits(outputs);
    assert '\n' !in a && '\n' !in b by {
      assert forall j :: 0 <= j < |a| ==> a[j] != '\n';
      assert forall j :: 0 <= j < |b| ==> b[j] != '\n';
    }
    assert Header(inputs, outputs) + R == DotLine(a) + (DotLine(b) + R);
    DotLineSkipped(st, a, DotLine(b) + R);
    DotLineSkipped(st, b, R);
  }

  /**
   * getPLAFileData on the file printMatrixtoFile writes: prod_in counts the
   * input literals, prod_out the output literals, tot_product the AND
   * literals, and or_port equals prod_out; the header lines are skipped
   * when their numbers fit the 1024-byte skip buffer.
   */
  lemma PrintedStats(rows: seq<seq<int>>, inputs: nat, outputs: nat, functionOut: nat)
    requires Printable(rows, inputs, outputs) && 0 < outputs <= functionOut
    requires |NatText(inputs)| <= 1020 && |NatText(outputs)| <= 1020
    ensures !CountText(Start(functionOut), MatrixText(rows, inputs, outputs)).overflow
    ensures var n := |rows|;
      FileData(MatrixText(rows, inputs, outputs), functionOut) ==
        Stats(InLits(rows, inputs, outputs, n), OutLits(rows, inputs, outputs, n),
              AndLits(rows, inputs, outputs, n), OutLits(rows, inputs, outputs, n))
  {
    var st := Start(functionOut);
    HeaderSkipped(st, inputs, outputs, RowsText(rows, inputs, |rows|));
    RowsScan(st, rows, inputs, outputs, |rows|);
    OrPortIsProdOut(MatrixText(rows, inputs, outputs), functionOut);
  }

  /** The rows mergeToPLA builds are rows printMatrixtoFile writes as a PLA. */
  lemma MergedPrintable(lists: seq<seq<Cube>>, w: nat)
    requires forall o :: 0 <= o < |lists| ==> AllOfWidth(lists[o], w)
    ensures Printable(Merge.Merged(lists, w), w, |lists|)
  {
    var rows := Merge.Merged(lists, w);
    var keys := Merge.Keys(Merge.Entries(lists, |lists|));
    Merge.MergedSpec(lists, w);
    Merge.DedupFacts(keys);
    forall i | 0 <= i < |rows| ensures Codes012(rows[i][..w]) && Bits(rows[i][w..]) {
      assert rows[i][..w] == Merge.Inputs(rows, w)[i];
      assert rows[i][..w] in keys;
      var k :| 0 <= k < |keys| && keys[k] == rows[i][..w];
      assert forall j :: w <= j < w + |lists| ==> rows[i][w..][j - w] == rows[i][j];
    }
  }

  /**
   * The statistics of the PLA the heuristic writes (src/main.c:666-667):
   * getPLAFileData on the merged matrix counts its literals, and its
   * or_port equals its prod_out.
   */
  lemma MergedStats(lists: seq<seq<Cube>>, w: nat)
    requires forall o :: 0 <= o < |lists| ==> AllOfWidth(lists[o], w)
    requires 0 < |lists| && |NatText(w)| <= 1020 && |NatText(|lists|)| <= 1020
    ensures var rows := Merge.Merged(lists, w);
      var n := |rows|;
      Printable(rows, w, |lists|) &&
      FileData(MatrixText(rows, w, |lists|), |lists|) ==
        Stats(InLits(rows, w, |lists|, n), OutLits(rows, w, |lists|, n),
              AndLits(rows, w, |lists|, n), OutLits(rows, w, |lists|, n))
  {
    MergedPrintable(lists, w);
    PrintedStats(Merge.Merged(lists, w), w, |lists|, |lists|);
  }
}
