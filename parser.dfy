/**
 * The PLA reader (src/PLAparser.c).  The file is modelled as the sequence of
 * whitespace-free tokens fscanf("%s") returns.  parse first scans the header
 * for ".i" and ".o", then runs a token state machine: a token longer than
 * num_in + num_out holds a whole product line "inputs|outputs"; shorter tokens
 * are concatenated into the input field until it has num_in characters, then
 * into the output field until it has num_out.  Each completed product is
 * decoded by read_product into a cube and its function, and build_bdd ORs the
 * function into the on-set of every output marked '1' and, for a minimized
 * PLA, appends the cube to that output's list.
 */
module PlaParser {
  import opened Cube
  import opened PlaLists
  import PlaText

  // ---------------------------------------------------------------- read_product

  /** The character at position i of a C string; '\0' from its end on. */
  function CharAt(s: seq<char>, i: nat): char {
    if i < |s| then s[i] else '\0'
  }

  /** read_product's reading of one input character (src/PLAparser.c:36-51). */
  function DecodeChar(ch: char): Lit {
    if ch == '-' || ch == '4' || ch == '~' then DC else if ch == '0' then Zero else One
  }

  /** The cube read_product writes for the first n characters of a field. */
  function Decode(s: seq<char>, n: nat): (c: Cube)
    ensures |c| == n && forall i :: 0 <= i < n ==> c[i] == DecodeChar(CharAt(s, i))
  {
    seq(n, i requires 0 <= i < n => DecodeChar(CharAt(s, i)))
  }

  /** The minterms of width n that satisfy c's literals at positions from..n-1. */
  ghost predicate MatchesFrom(m: Minterm, c: Cube, from: nat) {
    |m| == |c| && forall j :: from <= j < |c| && c[j] != DC ==> m[j] == (c[j] == One)
  }

  /**
   * read_product (src/PLAparser.c:25-58): the loop runs from the last input
   * down, writes the code of each position into cube and conjoins the
   * position's literal into f, which starts as the constant one.
   */
  method ReadProduct(input: seq<char>, cube: array<Lit>, numIn: nat) returns (f: set<Minterm>)
    requires cube.Length == numIn
    modifies cube
    ensures cube[..] == Decode(input, numIn)
    ensures f == CubeSet(cube[..])
  {
    ghost var c := Decode(input, numIn);
    f := AllMinterms(numIn);
    var i := numIn;
    while i > 0
      invariant 0 <= i <= numIn
      invariant forall j :: i <= j < numIn ==> cube[j] == c[j]
      invariant forall m :: m in f <==> MatchesFrom(m, c, i)
    {
      i := i - 1;
      var ch := CharAt(input, i);
      if ch == '-' || ch == '4' || ch == '~' {
        cube[i] := DC;
        continue;
      }
      if ch == '0' {
        f := set m | m in f && m[i] == false;
        cube[i] := Zero;
      } else {
        f := set m | m in f && m[i] == true;
        cube[i] := One;
      }
    }
    assert cube[..] == c;
    assert forall m :: m in f <==> InCube(m, c);
  }

  /** A cube printed by printMatrixtoFile (src/libpla.c:83-92) reads back as the same cube. */
  lemma DecodePrinted(c: Cube)
    ensures Decode(PlaText.Symbols(Codes(c)), |c|) == c
  {
    var s := PlaText.Symbols(Codes(c));
    forall i | 0 <= i < |c| ensures DecodeChar(CharAt(s, i)) == c[i] {
      assert s[i] == PlaText.Symbol(Code(c[i]));
    }
  }

  // ---------------------------------------------------------------- build_bdd

  /** What parsing has built: vectorbdd_F, and CUBE_LIST with N_CUBES for a minimized PLA. */
  datatype Built = Built(onSets: seq<set<Minterm>>, lists: seq<seq<Cube>>, counts: seq<int>)

  /** Output i is marked by the output field. */
  predicate Marked(output: seq<char>, i: nat) {
    CharAt(output, i) == '1'
  }

  /** The on-sets after outputs 0..k-1 marked '1' got c's minterms. */
  function OnSetsAfter(F: seq<set<Minterm>>, c: Cube, output: seq<char>, k: nat): (r: seq<set<Minterm>>)
    ensures |r| == |F|
  {
    seq(|F|, i requires 0 <= i < |F| => if i < k && Marked(output, i) then F[i] + CubeSet(c) else F[i])
  }

  /** The lists after c was appended to those of outputs 0..k-1 marked '1'. */
  function ListsAfter(lists: seq<seq<Cube>>, c: Cube, output: seq<char>, k: nat): (r: seq<seq<Cube>>)
    ensures |r| == |lists|
  {
    seq(|lists|, i requires 0 <= i < |lists| => if i < k && Marked(output, i) then lists[i] + [c] else lists[i])
  }

  /** The counters after those of outputs 0..k-1 marked '1' were incremented. */
  function CountsAfter(counts: seq<int>, output: seq<char>, k: nat): (r: seq<int>)
    ensures |r| == |counts|
  {
    seq(|counts|, i requires 0 <= i < |counts| => if i < k && Marked(output, i) then counts[i] + 1 else counts[i])
  }

  /**
   * The effect of build_bdd's loop on outputs 0..k-1 (src/PLAparser.c:70-88):
   * each output marked '1' gets c's minterms in its on-set and, when the PLA
   * is minimized, c at the end of its list and one more in its counter; '0'
   * and every other character leave the output as it was.
   */
  function Distribute(b: Built, c: Cube, output: seq<char>, isMinimized: bool, k: nat): Built {
    if isMinimized then
      Built(OnSetsAfter(b.onSets, c, output, k), ListsAfter(b.lists, c, output, k), CountsAfter(b.counts, output, k))
    else
      b.(onSets := OnSetsAfter(b.onSets, c, output, k))
  }

  /** build_bdd over all num_out outputs. */
  function AddProduct(b: Built, c: Cube, output: seq<char>, isMinimized: bool): Built {
    Distribute(b, c, output, isMinimized, |b.onSets|)
  }

  /** The lists of a minimized PLA agree with its on-sets: each on-set is its list's disjunction. */
  predicate Consistent(b: Built) {
    |b.lists| == |b.onSets| == |b.counts| &&
    forall i :: 0 <= i < |b.onSets| ==> b.onSets[i] == UnionSet(b.lists[i]) && b.counts[i] == |b.lists[i]|
  }

  lemma UnionSetSnoc(L: seq<Cube>, c: Cube)
    ensures UnionSet(L + [c]) == UnionSet(L) + CubeSet(c)
  {
    assert (L + [c])[..|L|] == L;
  }

  /**
   * build_bdd keeps the lists of a minimized PLA consistent with its on-sets
   * (src/PLAparser.c:76-86): the same cube goes into both.
   */
  lemma AddProductConsistent(b: Built, c: Cube, output: seq<char>)
    requires Consistent(b)
    ensures Consistent(AddProduct(b, c, output, true))
  {
    var r := AddProduct(b, c, output, true);
    forall i | 0 <= i < |b.onSets|
      ensures r.onSets[i] == UnionSet(r.lists[i]) && r.counts[i] == |r.lists[i]|
    {
      UnionSetSnoc(b.lists[i], c);
    }
  }

  // ---------------------------------------------------------------- the token state machine

  /** The first index at or after i whose character is not '|'. */
  function SkipBars(t: string, i: nat): (k: nat)
    requires i <= |t|
    ensures i <= k <= |t| && (k < |t| ==> t[k] != '|')
    ensures forall j :: i <= j < k ==> t[j] == '|'
    decreases |t| - i
  {
    if i == |t| || t[i] != '|' then i else SkipBars(t, i + 1)
  }

  /** The first index at or after i whose character is '|', or |t|. */
  function FindBar(t: string, i: nat): (k: nat)
    requires i <= |t|
    ensures i <= k <= |t| && (k < |t| ==> t[k] == '|')
    ensures forall j :: i <= j < k ==> t[j] != '|'
    decreases |t| - i
  {
    if i == |t| || t[i] == '|' then i else FindBar(t, i + 1)
  }

  /**
   * strtok_r(tmp, "|") and strtok_r(NULL, "\n") (src/PLAparser.c:166-169)
   * both find a field: the first run of characters other than '|', and the
   * nonempty rest after the '|' that ends it.  When either is null the
   * program passes a null pointer to strcpy.
   */
  predicate Splits(t: string) {
    var s := SkipBars(t, 0);
    var e := FindBar(t, s);
    s < |t| && e + 1 < |t|
  }

  /** The input field of a whole product line. */
  function InputPart(t: string): string
    requires Splits(t)
  {
    t[SkipBars(t, 0)..FindBar(t, SkipBars(t, 0))]
  }

  /** The output field of a whole product line. */
  function OutputPart(t: string): string
    requires Splits(t)
  {
    t[FindBar(t, SkipBars(t, 0)) + 1..]
  }

  /** A line "inputs|outputs" splits into its two fields. */
  lemma SplitLine(a: string, b: string)
    requires |a| > 0 && |b| > 0 && '|' !in a && a[0] != '|'
    ensures Splits(a + "|" + b) && InputPart(a + "|" + b) == a && OutputPart(a + "|" + b) == b
  {
    var t := a + "|" + b;
    assert SkipBars(t, 0) == 0;
    FindBarAt(t, 0, |a|);
    assert t[..|a|] == a && t[|a| + 1..] == b;
  }

  lemma {:induction false} FindBarAt(t: string, i: nat, k: nat)
    requires i <= k < |t| && t[k] == '|' && forall j :: i <= j < k ==> t[j] != '|'
    ensures FindBar(t, i) == k
    decreases k - i
  {
    if i < k {
      FindBarAt(t, i + 1, k);
    }
  }

  /** Every token longer than a product's two fields can be split. */
  predicate LongSplit(toks: seq<string>, numIn: nat, numOut: nat) {
    forall k :: 0 <= k < |toks| && |toks[k]| > numIn + numOut ==> Splits(toks[k])
  }

  /**
   * The variables of parse's token loop (src/PLAparser.c:149-160): the two
   * phase flags, the characters read into each field, the field buffers, and
   * the global cube that read_product last wrote.
   */
  datatype Reader = Reader(readInput: bool, readOutput: bool, inRead: nat, outRead: nat,
                           input: string, output: string, cube: Cube)

  datatype State = State(reader: Reader, built: Built)

  /** One iteration of the token loop (src/PLAparser.c:161-212). */
  function Step(st: State, tok: string, numIn: nat, numOut: nat, isMinimized: bool): (r: State)
    requires |tok| > numIn + numOut ==> Splits(tok)
  {
    var rd := st.reader;
    if |tok| > numIn + numOut then
      var c := Decode(InputPart(tok), numIn);
      State(rd.(input := InputPart(tok), output := OutputPart(tok), cube := c, readInput := false, readOutput := false),
            AddProduct(st.built, c, OutputPart(tok), isMinimized))
    else if rd.readInput then
      if rd.inRead + |tok| < numIn then
        st.(reader := rd.(inRead := rd.inRead + |tok|, input := rd.input + tok))
      else
        st.(reader := rd.(inRead := 0, input := [], readInput := false, readOutput := true,
                          cube := Decode(rd.input + tok, numIn)))
    else if rd.readOutput then
      if rd.outRead + |tok| < numOut then
        st.(reader := rd.(outRead := rd.outRead + |tok|, output := rd.output + tok))
      else
        State(rd.(outRead := 0, output := [], readInput := true, readOutput := false),
              AddProduct(st.built, rd.cube, rd.output + tok, isMinimized))
    else st
  }

  /** The token loop over all tokens. */
  function Run(st: State, toks: seq<string>, numIn: nat, numOut: nat, isMinimized: bool): State
    requires LongSplit(toks, numIn, numOut)
    decreases |toks|
  {
    if |toks| == 0 then st
    else Run(Step(st, toks[0], numIn, numOut, isMinimized), toks[1..], numIn, numOut, isMinimized)
  }

  // ---------------------------------------------------------------- the header

  /** The first index at or after i whose character is not a decimal digit. */
  function DigitsEnd(t: string, i: nat): (k: nat)
    requires i <= |t|
    ensures i <= k <= |t| && (k < |t| ==> !('0' <= t[k] <= '9'))
    ensures forall j :: i <= j < k ==> '0' <= t[j] <= '9'
    decreases |t| - i
  {
    if i == |t| || !('0' <= t[i] <= '9') then i else DigitsEnd(t, i + 1)
  }

  /** The outcome of fscanf("%d") on the token stream. */
  datatype IntRead = NoInt | IntRead(value: int, rest: seq<string>)

  /**
   * fscanf("%d") (src/PLAparser.c:114, 123): the longest prefix of the next
   * token that is an optional sign and at least one digit; the rest of that
   * token is what the next read sees.  Without such a prefix nothing is read.
   */
  function ScanInt(toks: seq<string>): (r: IntRead)
    ensures r.IntRead? ==> |r.rest| <= |toks|
  {
    if |toks| == 0 then NoInt
    else
      var t := toks[0];
      var s := if |t| > 0 && (t[0] == '-' || t[0] == '+') then 1 else 0;
      var e := DigitsEnd(t, s);
      if e == s then NoInt
      else
        var v: int := PlaText.DigitsValue(t[s..e]);
        IntRead(if s == 1 && t[0] == '-' then -v else v, if e == |t| then toks[1..] else [t[e..]] + toks[1..])
  }

  /** What the header loop leaves: the two sizes, whether ".o" was seen, and the tokens after it. */
  datatype Head = Head(numIn: int, numOut: int, done: bool, rest: seq<string>)

  /**
   * The header loop (src/PLAparser.c:106-142): a token ".i…" reads num_in, a
   * token ".o…" reads num_out and ends the loop; every other token is
   * skipped.  Without ".o" the loop reads to the end of the file.
   */
  function ScanHeader(toks: seq<string>, numIn: int, numOut: int): (h: Head)
    ensures !h.done ==> h.rest == []
    decreases |toks|
  {
    if |toks| == 0 then Head(numIn, numOut, false, [])
    else
      var t := toks[0];
      if |t| >= 2 && t[0] == '.' && t[1] == 'i' then
        match ScanInt(toks[1..])
        case NoInt => ScanHeader(toks[1..], numIn, numOut)
        case IntRead(v, rest) => ScanHeader(rest, v, numOut)
      else if |t| >= 2 && t[0] == '.' && t[1] == 'o' then
        match ScanInt(toks[1..])
        case NoInt => Head(numIn, numOut, true, toks[1..])
        case IntRead(v, rest) => Head(numIn, v, true, rest)
      else ScanHeader(toks[1..], numIn, numOut)
  }

  // ---------------------------------------------------------------- parse

  /** The result of parse: -1, or the sizes and what the token loop built. */
  datatype Outcome = Rejected | Accepted(numIn: nat, numOut: nat, built: Built)

  /**
   * The state the token loop starts from: reading the input field, the
   * on-sets all empty once ".o" allocated them (without ".o" vectorbdd_F
   * keeps what it held), and (initParsedPLA) empty lists with zero counters
   * for a minimized PLA.
   */
  function Initial(numOut: nat, done: bool, onSets0: seq<set<Minterm>>, isMinimized: bool): State {
    State(Reader(true, false, 0, 0, [], [], []),
          Built(if done then seq(numOut, _ => {}) else onSets0,
                if isMinimized then seq(numOut, _ => []) else [],
                if isMinimized then seq(numOut, _ => 0) else []))
  }

  /** No whole product line of the body is missing a field. */
  predicate BodySplits(toks: seq<string>, numIn0: int, numOut0: int) {
    var h := ScanHeader(toks, numIn0, numOut0);
    h.numIn > 0 && h.numOut > 0 ==> LongSplit(h.rest, h.numIn, h.numOut)
  }

  /**
   * parse (src/PLAparser.c:94-220) over the tokens of a file, starting from
   * the values num_in, num_out and vectorbdd_F held before the call.
   */
  function ParseFile(toks: seq<string>, numIn0: int, numOut0: int, onSets0: seq<set<Minterm>>, isMinimized: bool): Outcome
    requires BodySplits(toks, numIn0, numOut0)
  {
    var h := ScanHeader(toks, numIn0, numOut0);
    if h.numIn <= 0 || h.numOut <= 0 then Rejected
    else Accepted(h.numIn, h.numOut, Run(Initial(h.numOut, h.done, onSets0, isMinimized), h.rest, h.numIn, h.numOut, isMinimized).built)
  }

  // ---------------------------------------------------------------- properties of the token loop

  /**
   * The token loop's invariant: the two phases never overlap, each counter
   * is the length of its buffer, the output buffer is empty while the input
   * is read, and a pending product has num_in literals.
   */
  predicate ReaderOk(rd: Reader, numIn: nat) {
    && !(rd.readInput && rd.readOutput)
    && (rd.readInput ==> rd.inRead == |rd.input| && rd.outRead == 0 && rd.output == [])
    && (rd.readOutput ==> rd.outRead == |rd.output| && rd.inRead == 0 && rd.input == [] && |rd.cube| == numIn)
  }

  lemma StepReaderOk(st: State, tok: string, numIn: nat, numOut: nat, isMinimized: bool)
    requires ReaderOk(st.reader, numIn) && (|tok| > numIn + numOut ==> Splits(tok))
    ensures ReaderOk(Step(st, tok, numIn, numOut, isMinimized).reader, numIn)
  {
  }

  /** Run over two stretches of tokens is Run over their concatenation. */
  lemma {:induction false} RunConcat(st: State, A: seq<string>, B: seq<string>, numIn: nat, numOut: nat, isMinimized: bool)
    requires LongSplit(A, numIn, numOut) && LongSplit(B, numIn, numOut)
    ensures LongSplit(A + B, numIn, numOut)
    ensures Run(st, A + B, numIn, numOut, isMinimized) == Run(Run(st, A, numIn, numOut, isMinimized), B, numIn, numOut, isMinimized)
    decreases |A|
  {
    if |A| == 0 {
      assert A + B == B;
    } else {
      assert (A + B)[0] == A[0] && (A + B)[1..] == A[1..] + B;
      RunConcat(Step(st, A[0], numIn, numOut, isMinimized), A[1..], B, numIn, numOut, isMinimized);
    }
  }

  /** The token loop keeps a minimized PLA's lists consistent with its on-sets. */
  lemma {:induction false} RunConsistent(st: State, toks: seq<string>, numIn: nat, numOut: nat)
    requires LongSplit(toks, numIn, numOut) && Consistent(st.built)
    ensures Consistent(Run(st, toks, numIn, numOut, true).built)
    decreases |toks|
  {
    if |toks| > 0 {
      var st' := Step(st, toks[0], numIn, numOut, true);
      if |toks[0]| > numIn + numOut {
        AddProductConsistent(st.built, Decode(InputPart(toks[0]), numIn), OutputPart(toks[0]));
      } else if !st.reader.readInput && st.reader.readOutput && st.reader.outRead + |toks[0]| >= numOut {
        AddProductConsistent(st.built, st.reader.cube, st.reader.output + toks[0]);
      }
      RunConsistent(st', toks[1..], numIn, numOut);
    }
  }

  /**
   * For a minimized PLA (src/PLAparser.c:76-86) whose header has ".o",
   * there is an on-set per output, each the disjunction of the cubes in its
   * list, and N_CUBES counts the list.
   */
  lemma MinimizedConsistent(toks: seq<string>, numIn0: int, numOut0: int, onSets0: seq<set<Minterm>>)
    requires BodySplits(toks, numIn0, numOut0) && ScanHeader(toks, numIn0, numOut0).done
    requires ParseFile(toks, numIn0, numOut0, onSets0, true).Accepted?
    ensures var r := ParseFile(toks, numIn0, numOut0, onSets0, true);
      |r.built.onSets| == r.numOut && Consistent(r.built)
  {
    var h := ScanHeader(toks, numIn0, numOut0);
    var st := Initial(h.numOut, h.done, onSets0, true);
    RunConsistent(st, h.rest, h.numIn, h.numOut);
    RunShape(st, h.rest, h.numIn, h.numOut, true);
  }

  /** The token loop keeps the number of on-sets. */
  lemma {:induction false} RunShape(st: State, toks: seq<string>, numIn: nat, numOut: nat, isMinimized: bool)
    requires LongSplit(toks, numIn, numOut)
    ensures |Run(st, toks, numIn, numOut, isMinimized).built.onSets| == |st.built.onSets|
    decreases |toks|
  {
    if |toks| > 0 {
      RunShape(Step(st, toks[0], numIn, numOut, isMinimized), toks[1..], numIn, numOut, isMinimized);
    }
  }

  /** The loop is waiting for the input field of a new product. */
  predicate Ready(rd: Reader) {
    rd.readInput && !rd.readOutput && rd.inRead == 0 && rd.input == [] && rd.outRead == 0 && rd.output == []
  }

  /**
   * An input field wrapped over two tokens is read as the field in one
   * token (src/PLAparser.c:177-194).
   */
  lemma SplitInputField(st: State, x: string, y: string, numIn: nat, numOut: nat, isMinimized: bool)
    requires ReaderOk(st.reader, numIn) && st.reader.readInput
    requires |x + y| <= numIn + numOut && st.reader.inRead + |x| < numIn
    ensures Step(Step(st, x, numIn, numOut, isMinimized), y, numIn, numOut, isMinimized)
         == Step(st, x + y, numIn, numOut, isMinimized)
  {
    assert st.reader.input + x + y == st.reader.input + (x + y);
  }

  /**
   * An output field wrapped over two tokens is read as the field in one
   * token (src/PLAparser.c:195-211).
   */
  lemma SplitOutputField(st: State, x: string, y: string, numIn: nat, numOut: nat, isMinimized: bool)
    requires ReaderOk(st.reader, numIn) && st.reader.readOutput
    requires |x + y| <= numIn + numOut && st.reader.outRead + |x| < numOut
    ensures Step(Step(st, x, numIn, numOut, isMinimized), y, numIn, numOut, isMinimized)
         == Step(st, x + y, numIn, numOut, isMinimized)
  {
    assert st.reader.output + x + y == st.reader.output + (x + y);
  }

  /**
   * Once a whole product line has switched both phases off
   * (src/PLAparser.c:174-175), tokens no longer than the two fields change
   * nothing; a later whole line is still read.
   */
  lemma AfterWholeLine(st: State, tok: string, numIn: nat, numOut: nat, isMinimized: bool)
    requires !st.reader.readInput && !st.reader.readOutput && (|tok| > numIn + numOut ==> Splits(tok))
    ensures |tok| <= numIn + numOut ==> Step(st, tok, numIn, numOut, isMinimized) == st
    ensures |tok| > numIn + numOut ==>
      Step(st, tok, numIn, numOut, isMinimized).built == AddProduct(st.built, Decode(InputPart(tok), numIn), OutputPart(tok), isMinimized)
  {
  }

  /** A product line of a PLA's body: the input field and the output field. */
  datatype Line = Line(inputs: string, outputs: string)

  /** The lines lie in tokens as fscanf reads them: each field a token. */
  function LineTokens(ls: seq<Line>): seq<string> {
    if |ls| == 0 then [] else [ls[0].inputs, ls[0].outputs] + LineTokens(ls[1..])
  }

  /** Every line has num_in input and num_out output characters. */
  predicate Sized(ls: seq<Line>, numIn: nat, numOut: nat) {
    forall k :: 0 <= k < |ls| ==> |ls[k].inputs| == numIn && |ls[k].outputs| == numOut
  }

  /** The products of the lines, added one after the other. */
  function Products(b: Built, ls: seq<Line>, numIn: nat, isMinimized: bool): Built
    decreases |ls|
  {
    if |ls| == 0 then b
    else Products(AddProduct(b, Decode(ls[0].inputs, numIn), ls[0].outputs, isMinimized), ls[1..], numIn, isMinimized)
  }

  /** Well-formed lines are read one product each, in order. */
  lemma {:induction false} ReadLines(st: State, ls: seq<Line>, numIn: nat, numOut: nat, isMinimized: bool)
    requires Ready(st.reader) && Sized(ls, numIn, numOut) && 0 < numIn && 0 < numOut
    ensures LongSplit(LineTokens(ls), numIn, numOut)
    ensures var r := Run(st, LineTokens(ls), numIn, numOut, isMinimized);
      Ready(r.reader) && r.built == Products(st.built, ls, numIn, isMinimized)
    decreases |ls|
  {
    if |ls| > 0 {
      var a, b := ls[0].inputs, ls[0].outputs;
      var st1 := Step(st, a, numIn, numOut, isMinimized);
      var st2 := Step(st1, b, numIn, numOut, isMinimized);
      assert st.reader.input + a == a && [] + b == b;
      assert st2.built == AddProduct(st.built, Decode(a, numIn), b, isMinimized) && Ready(st2.reader);
      ReadLines(st2, ls[1..], numIn, numOut, isMinimized);
      var T := LineTokens(ls[1..]);
      assert LongSplit([a, b], numIn, numOut);
      RunConcat(st, [a, b], T, numIn, numOut, isMinimized);
      assert Run(st, [a, b], numIn, numOut, isMinimized) == st2 by {
        assert [a, b][0] == a && [a, b][1..] == [b];
        assert [b][0] == b && [b][1..] == [];
        assert Run(st2, [], numIn, numOut, isMinimized) == st2;
        assert Run(st1, [b], numIn, numOut, isMinimized) == Run(st2, [], numIn, numOut, isMinimized);
      }
    }
  }

  /** The header tokens printMatrixtoFile writes. */
  function HeaderTokens(numIn: nat, numOut: nat): seq<string> {
    [".i", PlaText.NatText(numIn), ".o", PlaText.NatText(numOut)]
  }

  lemma ScanNat(n: nat, rest: seq<string>)
    ensures ScanInt([PlaText.NatText(n)] + rest) == IntRead(n, rest)
  {
    var t := PlaText.NatText(n);
    PlaText.NatTextValue(n);
    DigitsAll(t, 0);
    assert t[0..|t|] == t;
    assert ([t] + rest)[1..] == rest;
  }

  lemma {:induction false} DigitsAll(t: string, i: nat)
    requires i <= |t| && forall j :: 0 <= j < |t| ==> '0' <= t[j] <= '9'
    ensures DigitsEnd(t, i) == |t|
    decreases |t| - i
  {
    if i < |t| {
      DigitsAll(t, i + 1);
    }
  }

  /** The header ".i n .o m" sets both sizes and ends the header. */
  lemma ScanPrintedHeader(numIn: nat, numOut: nat, rest: seq<string>, numIn0: int, numOut0: int)
    ensures ScanHeader(HeaderTokens(numIn, numOut) + rest, numIn0, numOut0) == Head(numIn, numOut, true, rest)
  {
    var T := HeaderTokens(numIn, numOut) + rest;
    var a, b := PlaText.NatText(numIn), PlaText.NatText(numOut);
    assert T[1..] == [a] + ([".o", b] + rest);
    ScanNat(numIn, [".o", b] + rest);
    var U := [".o", b] + rest;
    assert U[1..] == [b] + rest;
    ScanNat(numOut, rest);
  }

  /**
   * A PLA with header ".i n .o m" and well-formed product lines parses to
   * the products of its lines, added in order to empty on-sets (and, when
   * minimized, to empty lists).
   */
  lemma ParseWellFormed(numIn: nat, numOut: nat, ls: seq<Line>, numIn0: int, numOut0: int, onSets0: seq<set<Minterm>>,
                        isMinimized: bool)
    requires 0 < numIn && 0 < numOut && Sized(ls, numIn, numOut)
    ensures BodySplits(HeaderTokens(numIn, numOut) + LineTokens(ls), numIn0, numOut0)
    ensures ParseFile(HeaderTokens(numIn, numOut) + LineTokens(ls), numIn0, numOut0, onSets0, isMinimized)
      == Accepted(numIn, numOut, Products(Initial(numOut, true, onSets0, isMinimized).built, ls, numIn, isMinimized))
  {
    ScanPrintedHeader(numIn, numOut, LineTokens(ls), numIn0, numOut0);
    ReadLines(Initial(numOut, true, onSets0, isMinimized), ls, numIn, numOut, isMinimized);
  }

  // ---------------------------------------------------------------- the ParsedPLA object

  /** One more output of build_bdd's loop. */
  lemma DistributeNext(b: Built, c: Cube, output: seq<char>, isMinimized: bool, i: nat)
    requires i < |b.onSets| && (isMinimized ==> i < |b.lists| && i < |b.counts|)
    ensures var d := Distribute(b, c, output, isMinimized, i);
      Distribute(b, c, output, isMinimized, i + 1) ==
        if !Marked(output, i) then d
        else if !isMinimized then d.(onSets := d.onSets[i := d.onSets[i] + CubeSet(c)])
        else Built(d.onSets[i := d.onSets[i] + CubeSet(c)], d.lists[i := d.lists[i] + [c]], d.counts[i := d.counts[i] + 1])
  {
  }

  /** ParsedPLA (src/libpla.h:28-34): the sizes and the on-set of every output. */
  class ParsedPla {
    var numIn: int
    var numOut: int
    var onSets: seq<set<Minterm>>

    /** A ParsedPLA as the caller declares it, holding whatever sizes it holds. */
    constructor (numIn0: int, numOut0: int)
      ensures numIn == numIn0 && numOut == numOut0 && onSets == []
    {
      numIn, numOut, onSets := numIn0, numOut0, [];
    }

    /** The on-sets with, for a minimized PLA, CUBE_LIST and N_CUBES. */
    ghost function Snap(g: CubeLists?): Built
      reads this, g, if g == null then {} else {g.nCubes}
    {
      Built(onSets, if g == null then [] else g.lists, if g == null then [] else g.nCubes[..])
    }

    /**
     * build_bdd (src/PLAparser.c:67-92): the product f of cube goes into the
     * on-set of every output its output field marks with '1' and, for a
     * minimized PLA, a copy of cube onto that output's list.
     */
    method BuildBdd(f: set<Minterm>, output: seq<char>, cube: array<Lit>, isMinimized: bool, g: CubeLists?)
      requires f == CubeSet(cube[..]) && numOut == |onSets|
      requires isMinimized <==> g != null
      requires g != null ==> g.Valid() && |g.lists| == |onSets|
      modifies this, g, if g == null then {} else {g.nCubes}
      ensures numIn == old(numIn) && numOut == old(numOut)
      ensures g != null ==> g.Valid()
      ensures Snap(g) == AddProduct(old(Snap(g)), cube[..], output, isMinimized)
    {
      ghost var b0 := Snap(g);
      ghost var c := cube[..];
      var i := 0;
      while i < numOut
        invariant 0 <= i <= numOut == |onSets| && numIn == old(numIn) && numOut == old(numOut)
        invariant g != null ==> g.Valid() && |g.lists| == |onSets|
        invariant Snap(g) == Distribute(b0, c, output, isMinimized, i)
        modifies this, g, if g == null then {} else {g.nCubes}
      {
        if CharAt(output, i) == '0' {
          DistributeNext(b0, c, output, isMinimized, i);
          i := i + 1;
          continue;
        }
        if CharAt(output, i) == '1' {
          AddTo(i, f, cube, isMinimized, g, output, b0);
        } else {
          DistributeNext(b0, c, output, isMinimized, i);
        }
        i := i + 1;
      }
    }

    /** One output marked '1' in build_bdd (src/PLAparser.c:76-86). */
    method AddTo(i: nat, f: set<Minterm>, cube: array<Lit>, isMinimized: bool, g: CubeLists?,
                 ghost output: seq<char>, ghost b0: Built)
      requires f == CubeSet(cube[..]) && i < |onSets| && Marked(output, i)
      requires isMinimized <==> g != null
      requires g != null ==> g.Valid() && |g.lists| == |onSets|
      requires Snap(g) == Distribute(b0, cube[..], output, isMinimized, i)
      modifies this, g, if g == null then {} else {g.nCubes}
      ensures numIn == old(numIn) && numOut == old(numOut) && |onSets| == old(|onSets|)
      ensures g != null ==> g.Valid() && |g.lists| == |onSets|
      ensures Snap(g) == Distribute(b0, cube[..], output, isMinimized, i + 1)
    {
      DistributeNext(b0, cube[..], output, isMinimized, i);
      onSets := onSets[i := onSets[i] + f];
      if isMinimized {
        g.Append(i, cube[..]);
      }
    }

    /**
     * The header loop (src/PLAparser.c:106-142).  calloc of a negative
     * number of on-sets fails and parse returns -1 at once (src/PLAparser.c:125-131).
     */
    method ReadHeader(toks: seq<string>) returns (failed: bool, done: bool, rest: seq<string>)
      modifies this
      ensures var h := ScanHeader(toks, old(numIn), old(numOut));
        && (failed ==> h.numOut < 0)
        && (!failed ==> numIn == h.numIn && numOut == h.numOut && done == h.done && rest == h.rest)
        && (!failed && done ==> numOut >= 0 && onSets == seq(numOut, _ => {}))
        && (!failed && !done ==> onSets == old(onSets))
    {
      ghost var h := ScanHeader(toks, numIn, numOut);
      failed, done, rest := false, false, toks;
      while !done && |rest| > 0
        invariant done ==> h == Head(numIn, numOut, true, rest) && numOut >= 0 && onSets == seq(numOut, _ => {})
        invariant !done ==> h == ScanHeader(rest, numIn, numOut) && onSets == old(onSets)
        decreases |rest| + (if done then 0 else 1)
      {
        var t := rest[0];
        rest := rest[1..];
        if |t| >= 2 && t[0] == '.' {
          if t[1] == 'i' {
            match ScanInt(rest) {
              case NoInt =>
              case IntRead(v, r) => numIn, rest := v, r;
            }
          } else if t[1] == 'o' {
            match ScanInt(rest) {
              case NoInt =>
              case IntRead(v, r) => numOut, rest := v, r;
            }
            if numOut < 0 {
              return true, done, rest;
            }
            onSets := seq(numOut, _ => {});
            done := true;
          }
        }
      }
    }

    /** One token of the token loop (src/PLAparser.c:161-212). */
    method ReadToken(tok: string, cube: array<Lit>, isMinimized: bool, g: CubeLists?,
                     readInput: bool, readOutput: bool, inRead: nat, outRead: nat,
                     input: string, output: string, f: set<Minterm>, ghost pending: Cube)
      returns (readInput': bool, readOutput': bool, inRead': nat, outRead': nat,
               input': string, output': string, f': set<Minterm>, ghost pending': Cube)
      requires 0 < numIn && 0 < numOut && cube.Length == numIn && |onSets| == numOut
      requires isMinimized <==> g != null
      requires g != null ==> g.Valid() && |g.lists| == numOut
      requires |tok| > numIn + numOut ==> Splits(tok)
      requires readOutput ==> pending == cube[..] && f == CubeSet(cube[..])
      modifies this, cube, g, if g == null then {} else {g.nCubes}
      ensures numIn == old(numIn) && numOut == old(numOut) && |onSets| == numOut
      ensures g != null ==> g.Valid() && |g.lists| == numOut
      ensures readOutput' ==> pending' == cube[..] && f' == CubeSet(cube[..])
      ensures State(Reader(readInput', readOutput', inRead', outRead', input', output', pending'), Snap(g))
           == Step(State(Reader(readInput, readOutput, inRead, outRead, input, output, pending), old(Snap(g))),
                   tok, numIn, numOut, isMinimized)
    {
      readInput', readOutput', inRead', outRead', input', output', f', pending' :=
        readInput, readOutput, inRead, outRead, input, output, f, pending;
      if |tok| > numIn + numOut {
        input' := InputPart(tok);
        output' := OutputPart(tok);
        f' := ReadProduct(input', cube, numIn);
        pending' := cube[..];
        BuildBdd(f', output', cube, isMinimized, g);
        readInput', readOutput' := false, false;
      } else if readInput {
        inRead' := inRead + |tok|;
        if inRead' < numIn {
          input' := input + tok;
        } else {
          input' := input + tok;
          readInput', readOutput', inRead' := false, true, 0;
          f' := ReadProduct(input', cube, numIn);
          pending' := cube[..];
          input' := [];
        }
      } else if readOutput {
        outRead' := outRead + |tok|;
        if outRead' < numOut {
          output' := output + tok;
        } else {
          output' := output + tok;
          readInput', readOutput', outRead' := true, false, 0;
          BuildBdd(f, output', cube, isMinimized, g);
          output' := [];
        }
      }
    }

    /**
     * parse (src/PLAparser.c:94-220) over the tokens of the file: -1 when a
     * size is not positive, otherwise 1 with the on-sets and, for a minimized
     * PLA, the fresh lists and counters that describe the file.
     */
    method Parse(toks: seq<string>, isMinimized: bool) returns (status: int, g: CubeLists?)
      requires BodySplits(toks, numIn, numOut)
      modifies this
      ensures var r := ParseFile(toks, old(numIn), old(numOut), old(onSets), isMinimized);
        && (status == -1 || status == 1)
        && (status == -1 <==> r.Rejected?)
        && (r.Accepted? ==> numIn == r.numIn && numOut == r.numOut && onSets == r.built.onSets)
        && (r.Accepted? && isMinimized ==> g != null && fresh(g) && fresh(g.nCubes) && g.Valid()
                                            && g.lists == r.built.lists && g.nCubes[..] == r.built.counts)
    {
      ghost var h := ScanHeader(toks, numIn, numOut);
      ghost var onSets0 := onSets;
      var failed, done, rest := ReadHeader(toks);
      g := null;
      if failed || numIn <= 0 || numOut <= 0 {
        return -1, g;
      }
      var readInput, readOutput, inRead, outRead := true, false, 0, 0;
      var input, output: string := [], [];
      var cube := new Lit[numIn];
      if isMinimized {
        g := new CubeLists(numOut);
      }
      var f: set<Minterm> := {};
      ghost var pending: Cube := [];
      ghost var init := Initial(h.numOut, h.done, onSets0, isMinimized);
      assert State(Reader(readInput, readOutput, inRead, outRead, input, output, pending), Snap(g)) == init by {
        if isMinimized {
          assert g.nCubes[..] == seq(numOut, _ => 0);
        }
      }
      ghost var target := Run(init, rest, numIn, numOut, isMinimized);
      var k := 0;
      while k < |rest|
        invariant k <= |rest| && numIn == h.numIn && numOut == h.numOut && (|rest| == 0 || |onSets| == numOut)
        invariant cube.Length == numIn && (isMinimized <==> g != null)
        invariant g != null ==> fresh(g) && fresh(g.nCubes) && g.Valid() && |g.lists| == numOut
        invariant readOutput ==> pending == cube[..] && f == CubeSet(cube[..])
        invariant Run(State(Reader(readInput, readOutput, inRead, outRead, input, output, pending), Snap(g)),
                      rest[k..], numIn, numOut, isMinimized) == target
      {
        assert rest[k..][0] == rest[k] && rest[k..][1..] == rest[k + 1..];
        readInput, readOutput, inRead, outRead, input, output, f, pending :=
          ReadToken(rest[k], cube, isMinimized, g, readInput, readOutput, inRead, outRead, input, output, f, pending);
        k := k + 1;
      }
      status := 1;
    }
  }
}
