/**
 * The PLA text utilities of src/libpla.c over a file's contents as a sequence
 * of characters: convertDCSetPLA rewrites the text in place,
 * printMatrixtoFile produces it from a matrix, and getPLAFileData counts
 * literals and OR terms over it.  The rule of src/main.c that picks one of two
 * results by those counts closes the module.
 */
module PlaText {
  import Admission

  /** fgets(skip_buf, 1024, f) stores at most 1023 characters. */
  const SkipMax: nat := 1023

  /**
   * How many characters fgets consumes from the text t that follows, when it
   * may store n of them: through the first newline, at most n, and no more
   * than the text holds.
   */
  function LineRead(t: seq<char>, n: nat): (k: nat)
    ensures k <= n && k <= |t|
  {
    if n == 0 || |t| == 0 then 0
    else if t[0] == '\n' then 1
    else 1 + LineRead(t[1..], n - 1)
  }

  /** fgets stops after the first newline, after n characters, or at the end of the text. */
  lemma {:induction false} LineReadStops(t: seq<char>, n: nat)
    ensures var k := LineRead(t, n);
      && (forall j :: 0 <= j < k - 1 ==> t[j] != '\n')
      && (k == n || k == |t| || (k > 0 && t[k - 1] == '\n'))
    decreases n
  {
    if n > 0 && |t| > 0 && t[0] != '\n' {
      LineReadStops(t[1..], n - 1);
      var k := LineRead(t, n);
      forall j | 0 <= j < k - 1 ensures t[j] != '\n' {
        if j > 0 {
          assert t[j] == t[1..][j - 1];
        }
      }
    }
  }

  /** What follows the line stored does not change how much fgets consumes. */
  lemma {:induction false} LineReadPrefix(a: seq<char>, b: seq<char>, b': seq<char>, n: nat)
    requires LineRead(a + b, n) == |a| && |b| == |b'|
    ensures LineRead(a + b', n) == |a|
    decreases |a|
  {
    if |a| > 0 && n > 0 && a[0] != '\n' {
      assert (a + b)[1..] == a[1..] + b;
      assert (a + b')[1..] == a[1..] + b';
      LineReadPrefix(a[1..], b, b', n - 1);
    }
  }

  /** A line of fewer than n characters is consumed through its newline. */
  lemma {:induction false} LineReadLine(a: seq<char>, rest: seq<char>, n: nat)
    requires |a| < n && '\n' !in a
    ensures LineRead(a + "\n" + rest, n) == |a| + 1
    decreases |a|
  {
    if |a| > 0 {
      assert (a + "\n" + rest)[1..] == a[1..] + "\n" + rest;
      LineReadLine(a[1..], rest, n - 1);
    }
  }

  /** fgets over an array: it reads from position from onwards. */
  method SkipLine(a: array<char>, from: nat) returns (k: nat)
    requires from <= a.Length
    ensures k == LineRead(a[from..], SkipMax)
  {
    k := 0;
    var stop := false;
    while !stop && k < SkipMax && from + k < a.Length
      invariant k <= SkipMax && from + k <= a.Length
      invariant LineRead(a[from..], SkipMax) == if stop then k else k + LineRead(a[from + k..], SkipMax - k)
      decreases SkipMax - k, if stop then 0 else 1
    {
      var c := a[from + k];
      assert a[from + k..][1..] == a[from + k + 1..];
      k := k + 1;
      if c == '\n' {
        stop := true;
      }
    }
  }

  // ---------------------------------------------------------------- convertDCSetPLA

  /** The rewrite of one character that is not on a skipped line. */
  function DcChar(c: char): char {
    if c == '~' then '0' else if c == '2' then '1' else c
  }

  /** The rewrite applied to every character of a text without a '.'. */
  function DcChars(s: seq<char>): (r: seq<char>)
    ensures |r| == |s| && forall i :: 0 <= i < |s| ==> r[i] == DcChar(s[i])
  {
    seq(|s|, i requires 0 <= i < |s| => DcChar(s[i]))
  }

  /**
   * The text convertDCSetPLA (src/libpla.c:43-59) leaves: a '.' and the
   * characters fgets consumes after it stay as they are, elsewhere '~'
   * becomes '0' and '2' becomes '1'.
   */
  function Converted(s: seq<char>): seq<char>
    decreases |s|
  {
    if |s| == 0 then []
    else if s[0] == '.' then
      var k := 1 + LineRead(s[1..], SkipMax);
      s[..k] + Converted(s[k..])
    else [DcChar(s[0])] + Converted(s[1..])
  }

  /** Length is preserved. */
  lemma {:induction false} ConvertedLength(s: seq<char>)
    ensures |Converted(s)| == |s|
    decreases |s|
  {
    if |s| > 0 {
      if s[0] == '.' {
        ConvertedLength(s[1 + LineRead(s[1..], SkipMax)..]);
      } else {
        ConvertedLength(s[1..]);
      }
    }
  }

  /** Length is preserved, and every character is kept or rewritten by DcChar. */
  lemma {:induction false} ConvertedChars(s: seq<char>)
    ensures |Converted(s)| == |s|
    ensures forall i :: 0 <= i < |s| ==> Converted(s)[i] == s[i] || Converted(s)[i] == DcChar(s[i])
    decreases |s|
  {
    if |s| > 0 {
      if s[0] == '.' {
        var k := 1 + LineRead(s[1..], SkipMax);
        ConvertedChars(s[k..]);
        forall i | k <= i < |s| ensures Converted(s)[i] == s[i] || Converted(s)[i] == DcChar(s[i]) {
          assert Converted(s)[i] == Converted(s[k..])[i - k] && s[k..][i - k] == s[i];
        }
      } else {
        ConvertedChars(s[1..]);
        forall i | 1 <= i < |s| ensures Converted(s)[i] == s[i] || Converted(s)[i] == DcChar(s[i]) {
          assert Converted(s)[i] == Converted(s[1..])[i - 1] && s[1..][i - 1] == s[i];
        }
      }
    }
  }

  /** On text without a '.', every '~' becomes '0' and every '2' becomes '1'. */
  lemma {:induction false} ConvertedPlain(a: seq<char>, rest: seq<char>)
    requires '.' !in a
    ensures Converted(a + rest) == DcChars(a) + Converted(rest)
    decreases |a|
  {
    if |a| > 0 {
      assert (a + rest)[0] == a[0] && (a + rest)[1..] == a[1..] + rest;
      ConvertedPlain(a[1..], rest);
      assert DcChars(a) == [DcChar(a[0])] + DcChars(a[1..]);
    } else {
      assert a + rest == rest;
    }
  }

  /** A '.' line shorter than fgets' buffer is left exactly as it is. */
  lemma ConvertedDotLine(body: seq<char>, rest: seq<char>)
    requires |body| < SkipMax && '\n' !in body
    ensures Converted("." + body + "\n" + rest) == "." + body + "\n" + Converted(rest)
  {
    var s := "." + body + "\n" + rest;
    assert s[1..] == body + "\n" + rest;
    LineReadLine(body, rest, SkipMax);
    var k := |body| + 2;
    assert s[..k] == "." + body + "\n" && s[k..] == rest;
  }

  /** The first step on a text that starts with '.'. */
  lemma ConvertedDot(t: seq<char>, k: nat)
    requires |t| > 0 && t[0] == '.' && k == 1 + LineRead(t[1..], SkipMax)
    ensures Converted(t) == t[..k] + Converted(t[k..])
  {
  }

  /** A '.' line p that fgets consumes whole is kept, and the rest is rewritten on its own. */
  lemma ConvertedAfterSkip(p: seq<char>, r: seq<char>)
    requires |p| > 0 && p[0] == '.' && 1 + LineRead((p + r)[1..], SkipMax) == |p|
    ensures Converted(p + r) == p + Converted(r)
  {
    ConvertedDot(p + r, |p|);
    assert (p + r)[..|p|] == p && (p + r)[|p|..] == r;
  }

  /** Dropping the first character of a concatenation drops it from the left part. */
  lemma TailOfConcat(p: seq<char>, u: seq<char>)
    requires |p| > 0
    ensures (p + u)[1..] == p[1..] + u
  {
  }

  /** A skipped line stays skipped on a second pass. */
  lemma DotIdempotent(p: seq<char>, u: seq<char>)
    requires |p| > 0 && p[0] == '.' && 1 + LineRead((p + u)[1..], SkipMax) == |p|
    requires Converted(Converted(u)) == Converted(u)
    ensures Converted(Converted(p + u)) == Converted(p + u)
  {
    var r := Converted(u);
    ConvertedAfterSkip(p, u);
    ConvertedLength(u);
    TailOfConcat(p, u);
    TailOfConcat(p, r);
    LineReadPrefix(p[1..], u, r, SkipMax);
    ConvertedAfterSkip(p, r);
  }

  /** A rewritten character is left as it is by a second pass. */
  lemma CharIdempotent(s: seq<char>)
    requires |s| > 0 && s[0] != '.'
    requires Converted(Converted(s[1..])) == Converted(s[1..])
    ensures Converted(Converted(s)) == Converted(s)
  {
    var t := [DcChar(s[0])] + Converted(s[1..]);
    assert t[0] != '.' && DcChar(t[0]) == t[0] && t[1..] == Converted(s[1..]);
  }

  /** convertDCSetPLA is idempotent: a second pass changes nothing. */
  lemma {:induction false} ConvertedIdempotent(s: seq<char>)
    ensures Converted(Converted(s)) == Converted(s)
    decreases |s|
  {
    if |s| > 0 {
      if s[0] == '.' {
        var k := 1 + LineRead(s[1..], SkipMax);
        ConvertedIdempotent(s[k..]);
        assert s == s[..k] + s[k..];
        DotIdempotent(s[..k], s[k..]);
      } else {
        ConvertedIdempotent(s[1..]);
        CharIdempotent(s);
      }
    }
  }

  /** Past a '.', the text convertDCSetPLA leaves starts with the consumed characters unchanged. */
  lemma DotSplit(u: seq<char>, k: nat, rest: seq<char>)
    requires |u| > 0 && u[0] == '.' && k == LineRead(u[1..], SkipMax) && Converted(u) == rest
    ensures |rest| >= 1 + k && rest[..1 + k] == u[..1 + k] && Converted(u[1 + k..]) == rest[1 + k..]
  {
  }

  /** Any other character is rewritten by DcChar. */
  lemma CharSplit(u: seq<char>, rest: seq<char>)
    requires |u| > 0 && u[0] != '.' && Converted(u) == rest
    ensures |rest| >= 1 && rest[0] == DcChar(u[0]) && Converted(u[1..]) == rest[1..]
  {
  }

  /**
   * The rewrite has reached position i of the original text s: what lies
   * before i is the final text, what lies after is untouched.
   */
  ghost predicate Converting(a: array<char>, i: nat, s: seq<char>, total: seq<char>)
    reads a
  {
    && i <= a.Length == |s| == |total|
    && (forall j :: i <= j < a.Length ==> a[j] == s[j])
    && (forall j :: 0 <= j < i ==> a[j] == total[j])
    && Converted(s[i..]) == total[i..]
  }

  /** A '.': fgets consumes the rest of the line, which stays as it is. */
  method SkipAt(a: array<char>, i: nat, ghost s: seq<char>, ghost total: seq<char>) returns (next: nat)
    requires i < a.Length && a[i] == '.' && Converting(a, i, s, total)
    ensures i < next && Converting(a, next, s, total)
  {
    assert a[i + 1..] == s[i + 1..];
    var k := SkipLine(a, i + 1);
    assert s[i..][1..] == s[i + 1..];
    DotSplit(s[i..], k, total[i..]);
    assert forall j :: i <= j < i + 1 + k ==> total[j] == total[i..][..1 + k][j - i];
    assert forall j :: i <= j < i + 1 + k ==> s[j] == s[i..][..1 + k][j - i];
    assert s[i..][1 + k..] == s[i + 1 + k..] && total[i..][1 + k..] == total[i + 1 + k..];
    next := i + 1 + k;
  }

  /** Any other character: '~' and '2' are overwritten in place. */
  method RewriteAt(a: array<char>, i: nat, ghost s: seq<char>, ghost total: seq<char>)
    requires i < a.Length && a[i] != '.' && Converting(a, i, s, total)
    modifies a
    ensures Converting(a, i + 1, s, total)
  {
    var ch := a[i];
    CharSplit(s[i..], total[i..]);
    assert s[i..][1..] == s[i + 1..] && total[i..][1..] == total[i + 1..];
    if ch == '~' {
      a[i] := '0';
    } else if ch == '2' {
      a[i] := '1';
    }
  }

  /** convertDCSetPLA (src/libpla.c:30-61) on the file's contents, rewritten in place. */
  method ConvertDcSet(a: array<char>)
    modifies a
    ensures a[..] == Converted(old(a[..]))
  {
    ghost var s := a[..];
    ghost var total := Converted(s);
    ConvertedChars(s);
    var i := 0;
    while i < a.Length
      invariant Converting(a, i, s, total)
      decreases a.Length - i
    {
      if a[i] == '.' {
        i := SkipAt(a, i, s, total);
      } else {
        RewriteAt(a, i, s, total);
        i := i + 1;
      }
    }
    assert a[..] == total;
  }


  // ---------------------------------------------------------------- printMatrixtoFile

  function Digit(d: nat): char
    requires d < 10
  {
    "0123456789"[d]
  }

  /** The decimal digits "%d" prints for a natural number. */
  function NatText(n: nat): (t: seq<char>)
    ensures |t| > 0
  {
    if n < 10 then [Digit(n)] else NatText(n / 10) + [Digit(n % 10)]
  }

  /** Every character "%d" prints for a natural number is a decimal digit. */
  lemma {:induction false} NatTextDigits(n: nat)
    ensures forall j :: 0 <= j < |NatText(n)| ==> '0' <= NatText(n)[j] <= '9'
  {
    if n >= 10 {
      NatTextDigits(n / 10);
      var t, u := NatText(n), NatText(n / 10);
      assert forall j :: 0 <= j < |u| ==> t[j] == u[j];
    }
  }

  /** The number a string of decimal digits denotes, read from the left. */
  function DigitsValue(t: seq<char>): nat
    requires forall j :: 0 <= j < |t| ==> '0' <= t[j] <= '9'
  {
    if |t| == 0 then 0 else 10 * DigitsValue(t[..|t| - 1]) + (t[|t| - 1] as int - '0' as int)
  }

  /** Reading back the digits "%d" prints gives the number. */
  lemma {:induction false} NatTextValue(n: nat)
    ensures forall j :: 0 <= j < |NatText(n)| ==> '0' <= NatText(n)[j] <= '9'
    ensures DigitsValue(NatText(n)) == n
  {
    NatTextDigits(n);
    if n >= 10 {
      NatTextValue(n / 10);
      var t := NatText(n);
      assert t[..|t| - 1] == NatText(n / 10);
    }
  }

  /** "%d" of an integer. */
  function IntText(n: int): seq<char> {
    if n < 0 then "-" + NatText(-n) else NatText(n)
  }

  /** One matrix entry: 2 prints as '-', anything else as "%d". */
  function Cell(v: int): seq<char> {
    if v == 2 then "-" else IntText(v)
  }

  /** The text of the first j entries of a row; a space precedes entry in. */
  function Cells(row: seq<int>, inputs: nat, j: nat): seq<char>
    requires j <= |row|
  {
    if j == 0 then [] else Cells(row, inputs, j - 1) + (if j - 1 == inputs then " " else "") + Cell(row[j - 1])
  }

  function RowText(row: seq<int>, inputs: nat): seq<char> {
    Cells(row, inputs, |row|) + "\n"
  }

  /** The lines of the first k rows. */
  function RowsText(rows: seq<seq<int>>, inputs: nat, k: nat): seq<char>
    requires k <= |rows|
  {
    if k == 0 then [] else RowsText(rows, inputs, k - 1) + RowText(rows[k - 1], inputs)
  }

  /** A line that starts with '.': the header lines ".i n" and ".o m". */
  function DotLine(body: seq<char>): seq<char> {
    "." + body + "\n"
  }

  function Header(inputs: nat, outputs: nat): seq<char> {
    DotLine("i " + IntText(inputs)) + DotLine("o " + IntText(outputs))
  }

  /** The file printMatrixtoFile writes for the given rows. */
  function MatrixText(rows: seq<seq<int>>, inputs: nat, outputs: nat): seq<char> {
    Header(inputs, outputs) + RowsText(rows, inputs, |rows|)
  }

  /** Row i of M, cut to the given width. */
  function RowOf(M: array2<int>, i: nat, width: nat): (row: seq<int>)
    requires i < M.Length0 && width <= M.Length1
    reads M
    ensures |row| == width && forall j :: 0 <= j < width ==> row[j] == M[i, j]
  {
    seq(width, j requires 0 <= j < width reads M => M[i, j])
  }

  /** The first len rows of M. */
  function RowsOf(M: array2<int>, len: nat, width: nat): (rows: seq<seq<int>>)
    requires len <= M.Length0 && width <= M.Length1
    reads M
    ensures |rows| == len && forall i :: 0 <= i < len ==> rows[i] == RowOf(M, i, width)
  {
    seq(len, i requires 0 <= i < len reads M => RowOf(M, i, width))
  }

  /** The character a literal code 0, 1 or 2 prints as. */
  function Symbol(v: int): char {
    if v == 2 then '-' else if v == 1 then '1' else '0'
  }

  function Symbols(v: seq<int>): (r: seq<char>)
    ensures |r| == |v| && forall j :: 0 <= j < |v| ==> r[j] == Symbol(v[j])
  {
    seq(|v|, j requires 0 <= j < |v| => Symbol(v[j]))
  }

  predicate Codes012(v: seq<int>) {
    forall j :: 0 <= j < |v| ==> 0 <= v[j] <= 2
  }

  lemma CellOf(v: int)
    requires 0 <= v <= 2
    ensures Cell(v) == [Symbol(v)]
  {
  }

  lemma SymbolsSnoc(v: seq<int>, x: int)
    ensures Symbols(v + [x]) == Symbols(v) + [Symbol(x)]
  {
  }

  lemma {:induction false} InputCells(row: seq<int>, inputs: nat, j: nat)
    requires j <= |row| && j <= inputs && Codes012(row)
    ensures Cells(row, inputs, j) == Symbols(row[..j])
  {
    if j > 0 {
      InputCells(row, inputs, j - 1);
      var v := row[j - 1];
      CellOf(v);
      assert row[..j] == row[..j - 1] + [v];
      SymbolsSnoc(row[..j - 1], v);
    }
  }

  lemma {:induction false} OutputCells(row: seq<int>, inputs: nat, j: nat)
    requires inputs < j <= |row| && Codes012(row)
    ensures Cells(row, inputs, j) == Symbols(row[..inputs]) + " " + Symbols(row[inputs..j])
  {
    var v := row[j - 1];
    CellOf(v);
    if j - 1 == inputs {
      InputCells(row, inputs, j - 1);
      assert row[inputs..j] == [] + [v];
      SymbolsSnoc([], v);
    } else {
      OutputCells(row, inputs, j - 1);
      assert row[inputs..j] == row[inputs..j - 1] + [v];
      SymbolsSnoc(row[inputs..j - 1], v);
    }
  }

  /**
   * The line of a row of codes 0, 1 and 2 (src/libpla.c:74-96): the input
   * characters, one space, the output characters and a newline, with 2 as
   * '-'.  With no outputs the space is never printed.
   */
  lemma RowLayout(row: seq<int>, inputs: nat)
    requires inputs <= |row| && Codes012(row)
    ensures inputs < |row| ==> RowText(row, inputs) == Symbols(row[..inputs]) + " " + Symbols(row[inputs..]) + "\n"
    ensures inputs == |row| ==> RowText(row, inputs) == Symbols(row) + "\n"
  {
    if inputs < |row| {
      OutputCells(row, inputs, |row|);
    } else {
      InputCells(row, inputs, |row|);
    }
    assert row[..|row|] == row;
  }

  /** One more entry of the row, after the separator printed before it. */
  lemma CellsStep(row: seq<int>, inputs: nat, j: nat, sep: seq<char>)
    requires j < |row| && sep == (if j == inputs then " " else "")
    ensures Cells(row, inputs, j + 1) == Cells(row, inputs, j) + sep + Cell(row[j])
  {
  }

  /** The line of one row (src/libpla.c:76-95). */
  method PrintRow(row: seq<int>, inputs: nat) returns (line: seq<char>)
    ensures line == RowText(row, inputs)
  {
    line := [];
    var j := 0;
    while j < |row|
      invariant j <= |row|
      invariant line == Cells(row, inputs, j)
    {
      var sep := "";
      if j == inputs {
        sep := " ";
      }
      CellsStep(row, inputs, j, sep);
      line := line + sep + Cell(row[j]);
      j := j + 1;
    }
    line := line + "\n";
  }

  lemma RowsTextSnoc(rows: seq<seq<int>>, inputs: nat, i: nat, header: seq<char>)
    requires i < |rows|
    ensures header + RowsText(rows, inputs, i + 1) == header + RowsText(rows, inputs, i) + RowText(rows[i], inputs)
  {
  }

  /**
   * printMatrixtoFile (src/libpla.c:63-99), with the file's contents as the
   * result; the rows of M are read as values first.
   */
  method PrintMatrix(M: array2<int>, len: nat, inputs: nat, outputs: nat) returns (text: seq<char>)
    requires len <= M.Length0 && inputs + outputs <= M.Length1
    ensures text == MatrixText(RowsOf(M, len, inputs + outputs), inputs, outputs)
  {
    var rows := RowsOf(M, len, inputs + outputs);
    ghost var header := Header(inputs, outputs);
    text := ".i " + IntText(inputs) + "\n.o " + IntText(outputs) + "\n";
    var i := 0;
    while i < |rows|
      invariant i <= |rows|
      invariant text == header + RowsText(rows, inputs, i)
    {
      var line := PrintRow(rows[i], inputs);
      RowsTextSnoc(rows, inputs, i, header);
      text := text + line;
      i := i + 1;
    }
  }

  // ---------------------------------------------------------------- getPLAFileData

  /**
   * The scanner's variables: output (past the space), curr_line_literals,
   * curr_function_out, in_n, out_n, tot_product and or_literals; overflow
   * records an increment of or_literals past its function_out entries.
   */
  datatype Counters = Counters(output: bool, lineLits: nat, fn: nat, inN: nat, outN: nat, andLit: nat,
                               orLits: seq<int>, overflow: bool)

  function Start(functionOut: nat): Counters {
    Counters(false, 0, 0, 0, 0, 0, seq(functionOut, _ => 0), false)
  }

  /** One character other than '.' (src/libpla.c:120-144). */
  function CountChar(st: Counters, ch: char): Counters {
    if ch == ' ' then st.(output := true, fn := 0)
    else if ch == '\n' then st.(lineLits := 0, output := false)
    else if !st.output && (ch == '0' || ch == '1') then st.(inN := st.inN + 1, lineLits := st.lineLits + 1)
    else if st.output && ch == '1' then
      var st' := st.(outN := st.outN + 1, andLit := st.andLit + st.lineLits, fn := st.fn + 1);
      if st.fn < |st.orLits| then st'.(orLits := st.orLits[st.fn := st.orLits[st.fn] + 1])
      else st'.(overflow := true)
    else if st.output && ch == '0' then st.(fn := st.fn + 1)
    else st
  }

  /** The scan of a text (src/libpla.c:118-145): a '.' makes fgets consume the rest of its line. */
  function CountText(st: Counters, t: seq<char>): Counters
    decreases |t|
  {
    if |t| == 0 then st
    else if t[0] == '.' then CountText(st, t[1 + LineRead(t[1..], SkipMax)..])
    else CountText(CountChar(st, t[0]), t[1..])
  }

  /** The figures getPLAFileData stores in struct test_stats. */
  datatype Stats = Stats(prodIn: int, prodOut: int, andLit: int, orPort: int)

  /** The statistics of a file (src/libpla.c:147-155). */
  function FileData(t: seq<char>, functionOut: nat): Stats {
    var c := CountText(Start(functionOut), t);
    Stats(c.inN, c.outN, c.andLit, Admission.Sum(c.orLits))
  }

  /** An overflow, once it has happened, is never undone. */
  lemma {:induction false} OverflowSticky(st: Counters, t: seq<char>)
    requires st.overflow
    ensures CountText(st, t).overflow
    decreases |t|
  {
    if |t| > 0 {
      if t[0] == '.' {
        OverflowSticky(st, t[1 + LineRead(t[1..], SkipMax)..]);
      } else {
        OverflowSticky(CountChar(st, t[0]), t[1..]);
      }
    }
  }

  /** One step of the scan, in the method. */
  method CountStep(ch: char, orLiterals: array<int>, output: bool, lineLits: nat, fn: nat,
                   inN: nat, outN: nat, andLit: nat, ghost rest: seq<char>, ghost target: Counters)
      returns (output': bool, lineLits': nat, fn': nat, inN': nat, outN': nat, andLit': nat)
    requires ch != '.'
    requires CountText(Counters(output, lineLits, fn, inN, outN, andLit, orLiterals[..], false), [ch] + rest) == target
    requires !target.overflow
    modifies orLiterals
    ensures CountText(Counters(output', lineLits', fn', inN', outN', andLit', orLiterals[..], false), rest) == target
  {
    ghost var st := Counters(output, lineLits, fn, inN, outN, andLit, orLiterals[..], false);
    assert ([ch] + rest)[1..] == rest;
    output', lineLits', fn', inN', outN', andLit' := output, lineLits, fn, inN, outN, andLit;
    if ch == ' ' {
      output' := true;
      fn' := 0;
    } else if ch == '\n' {
      lineLits' := 0;
      output' := false;
    } else if !output && (ch == '0' || ch == '1') {
      inN' := inN + 1;
      lineLits' := lineLits + 1;
    } else if output && ch == '1' {
      if fn >= orLiterals.Length {
        OverflowSticky(CountChar(st, ch), rest);
        assert false;
      }
      outN' := outN + 1;
      andLit' := andLit + lineLits;
      orLiterals[fn] := orLiterals[fn] + 1;
      fn' := fn + 1;
    } else if output && ch == '0' {
      fn' := fn + 1;
    }
  }

  /** The total of or_literals (src/libpla.c:147-150). */
  method SumArray(a: array<int>) returns (total: int)
    ensures total == Admission.Sum(a[..])
  {
    total := 0;
    var i := 0;
    while i < a.Length
      invariant i <= a.Length && total == Admission.Sum(a[..i])
    {
      assert a[..i + 1][..i] == a[..i];
      total := total + a[i];
      i := i + 1;
    }
    assert a[..] == a[..i];
  }

  /**
   * getPLAFileData (src/libpla.c:101-158) over the file's contents; the
   * precondition rules out the out-of-bounds increment of or_literals.
   */
  method GetPlaFileData(f: array<char>, functionOut: nat) returns (s: Stats)
    requires !CountText(Start(functionOut), f[..]).overflow
    ensures s == FileData(f[..], functionOut)
  {
    ghost var target := CountText(Start(functionOut), f[..]);
    var orLiterals := new int[functionOut](_ => 0);
    var output, lineLits, fn := false, 0, 0;
    var inN, outN, andLit := 0, 0, 0;
    assert orLiterals[..] == Start(functionOut).orLits;
    var i := 0;
    while i < f.Length
      invariant i <= f.Length
      invariant CountText(Counters(output, lineLits, fn, inN, outN, andLit, orLiterals[..], false), f[i..]) == target
      decreases f.Length - i
      modifies orLiterals
    {
      var ch := f[i];
      assert f[i..] == [ch] + f[i + 1..];
      if ch == '.' {
        var k := SkipLine(f, i + 1);
        assert f[i..][1..] == f[i + 1..] && f[i..][1 + k..] == f[i + 1 + k..];
        i := i + 1 + k;
      } else {
        output, lineLits, fn, inN, outN, andLit :=
          CountStep(ch, orLiterals, output, lineLits, fn, inN, outN, andLit, f[i + 1..], target);
        i := i + 1;
      }
    }
    var total := SumArray(orLiterals);
    s := Stats(inN, outN, andLit, total);
  }

  /** When no increment overflows, or_port equals prod_out (src/libpla.c:136-153). */
  lemma {:induction false} CountBalance(st: Counters, t: seq<char>)
    requires !CountText(st, t).overflow
    ensures |CountText(st, t).orLits| == |st.orLits|
    ensures Admission.Sum(CountText(st, t).orLits) - CountText(st, t).outN == Admission.Sum(st.orLits) - st.outN
    decreases |t|
  {
    if |t| > 0 {
      if t[0] == '.' {
        CountBalance(st, t[1 + LineRead(t[1..], SkipMax)..]);
      } else {
        var st' := CountChar(st, t[0]);
        if st'.overflow && !st.overflow {
          OverflowSticky(st', t[1..]);
        }
        if st.overflow {
          OverflowSticky(st, t);
        }
        CountBalance(st', t[1..]);
        if st.output && t[0] == '1' && st.fn < |st.orLits| {
          Admission.SumUpdate(st.orLits, st.fn, st.orLits[st.fn] + 1);
        }
      }
    }
  }

  lemma SumZeros(n: nat)
    ensures Admission.Sum(seq(n, _ => 0)) == 0
  {
    Admission.SumZero(seq(n, _ => 0));
  }

  lemma OrPortIsProdOut(t: seq<char>, functionOut: nat)
    requires !CountText(Start(functionOut), t).overflow
    ensures FileData(t, functionOut).orPort == FileData(t, functionOut).prodOut
  {
    CountBalance(Start(functionOut), t);
    SumZeros(functionOut);
  }

  // ---------------------------------------------------------------- choice of result

  /**
   * The choice between the heuristic's and espresso's result (src/main.c:860-863):
   * fewer OR terms win; on equal OR terms espresso's wins unless it has more
   * AND literals.
   */
  function ChosenPla(heuristic: Stats, espresso: Stats): (r: Stats)
    ensures r == heuristic || r == espresso
    ensures r.orPort <= heuristic.orPort && r.orPort <= espresso.orPort
    ensures heuristic.orPort == espresso.orPort ==> r.andLit <= heuristic.andLit && r.andLit <= espresso.andLit
    ensures (espresso.orPort < heuristic.orPort ||
             (espresso.orPort == heuristic.orPort && espresso.andLit <= heuristic.andLit)) ==> r == espresso
  {
    if heuristic.orPort == espresso.orPort then
      (if espresso.andLit <= heuristic.andLit then espresso else heuristic)
    else
      (if espresso.orPort < heuristic.orPort then espresso else heuristic)
  }
}
