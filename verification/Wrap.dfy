/** How the chat screen breaks text into rows of at most `width` columns, at
    line breaks and, where it can, at spaces.

    `Wrap` is the client's loops. Its specification also keeps each row as it
    was before trailing space is dropped, so that rows can be put together
    again into the line they came from. */
module Wrapping {
  import opened InputLine

  /** Display columns of a character, and of a row. */
  datatype Measure = Measure(columns: char -> nat, width: nat)

  /** A space takes one column. */
  predicate Usual(m: Measure) { m.columns(' ') == 1 }

  function Width(m: Measure, s: string): nat {
    if s == "" then 0 else Width(m, s[..|s| - 1]) + m.columns(s[|s| - 1])
  }

  predicate Space(c: char) { c == ' ' }

  /** `trim_end_matches(' ')`. */
  function TrimSpaces(s: string): (t: string)
    ensures |t| <= |s| && t == s[..|t|] && forall i :: |t| <= i < |s| ==> s[i] == ' '
    ensures t != "" ==> t[|t| - 1] != ' '
  {
    if s != "" && s[|s| - 1] == ' ' then TrimSpaces(s[..|s| - 1]) else s
  }

  function Visible(m: Measure, word: string): nat { Width(m, TrimSpaces(word)) }

  function Concat(parts: seq<string>): string {
    if parts == [] then "" else Concat(parts[..|parts| - 1]) + parts[|parts| - 1]
  }

  /** `split('\n')`. */
  function Lines(text: string): (lines: seq<string>)
    ensures lines != []
    decreases |text|
  {
    var k := Forth(Break, text, 0);
    if k == |text| then [text] else [text[..k]] + Lines(text[k + 1..])
  }

  /** A word with the space after it, or the last word of a line. */
  ghost predicate Piece(s: string) {
    s != "" && forall i :: 0 <= i < |s| - 1 ==> s[i] != ' '
  }

  /** `split_inclusive(' ')`: the line cut after every space. */
  function Pieces(line: string): (pieces: seq<string>)
    ensures forall p :: p in pieces ==> Piece(p)
    ensures forall i :: 0 <= i < |pieces| - 1 ==> pieces[i] != "" && pieces[i][|pieces[i]| - 1] == ' '
    ensures pieces == [] <==> line == ""
    decreases |line|
  {
    if line == "" then []
    else
      var k := Forth(Space, line, 0);
      if k == |line| then [line] else [line[..k + 1]] + Pieces(line[k + 1..])
  }

  // ------------------------------------------------------------ What wrapping is

  /** A finished row: its part of the line, and whether its end was trimmed. */
  datatype Row = Row(part: string, trimmed: bool)

  function Display(row: Row): string { if row.trimmed then TrimEnd(row.part) else row.part }

  function Displayed(rows: seq<Row>): (shown: seq<string>)
    ensures |shown| == |rows| && forall i :: 0 <= i < |rows| ==> shown[i] == Display(rows[i])
  {
    seq(|rows|, i requires 0 <= i < |rows| => Display(rows[i]))
  }

  function Parts(rows: seq<Row>): (parts: seq<string>)
    ensures |parts| == |rows| && forall i :: 0 <= i < |rows| ==> parts[i] == rows[i].part
  {
    seq(|rows|, i requires 0 <= i < |rows| => rows[i].part)
  }

  datatype State = State(done: seq<Row>, row: string, used: nat)

  const EMPTY: State := State([], "", 0)

  function EndRow(st: State, trimmed: bool): State { State(st.done + [Row(st.row, trimmed)], "", 0) }

  function AddChar(m: Measure, st: State, c: char): State {
    var st := if st.used + m.columns(c) > m.width then EndRow(st, false) else st;
    State(st.done, st.row + [c], st.used + m.columns(c))
  }

  function AddChars(m: Measure, st: State, s: string): State {
    if s == "" then st else AddChar(m, AddChars(m, st, s[..|s| - 1]), s[|s| - 1])
  }

  function Flushed(m: Measure, st: State, word: string): State {
    if st.used + Visible(m, word) > m.width && st.row != "" then EndRow(st, true) else st
  }

  function AddPiece(m: Measure, st: State, word: string): State {
    var st := Flushed(m, st, word);
    if Width(m, word) > m.width then AddChars(m, st, word)
    else State(st.done, st.row + word, st.used + Width(m, word))
  }

  function AddPieces(m: Measure, st: State, pieces: seq<string>): State {
    if pieces == [] then st else AddPiece(m, AddPieces(m, st, pieces[..|pieces| - 1]), pieces[|pieces| - 1])
  }

  function WrapLine(m: Measure, line: string): (rows: seq<Row>)
    ensures rows != []
  {
    EndRow(AddPieces(m, EMPTY, Pieces(line)), true).done
  }

  function WrapLines(m: Measure, lines: seq<string>): seq<Row> {
    if lines == [] then [] else WrapLines(m, lines[..|lines| - 1]) + WrapLine(m, lines[|lines| - 1])
  }

  /** `wrap`, as a function of the text. */
  function Wrapped(m: Measure, text: string): seq<string> { Displayed(WrapLines(m, Lines(text))) }

  // ------------------------------------------------------------- The client's loops

  lemma {:induction false} WidthOfTrimmed(m: Measure, s: string)
    requires Usual(m)
    ensures Width(m, s) == Visible(m, s) + (|s| - |TrimSpaces(s)|)
  {
    if s != "" && s[|s| - 1] == ' ' {
      WidthOfTrimmed(m, s[..|s| - 1]);
    }
  }

  lemma DisplayedSplit(a: seq<Row>, b: seq<Row>)
    ensures Displayed(a + b) == Displayed(a) + Displayed(b)
  {
  }

  /** A word too wide for a row, character by character. */
  method WrapWord(m: Measure, ghost st: State, rows: seq<string>, row: string, used: nat, word: string)
    returns (rows': seq<string>, row': string, used': nat)
    requires rows == Displayed(st.done) && row == st.row && used == st.used
    ensures var now := AddChars(m, st, word);
            rows' == Displayed(now.done) && row' == now.row && used' == now.used
  {
    rows', row', used' := rows, row, used;
    ghost var now := st;
    for j := 0 to |word|
      invariant now == AddChars(m, st, word[..j]) && now.row == row' && now.used == used'
      invariant rows' == Displayed(now.done)
    {
      assert word[..j + 1][..j] == word[..j];
      var c := word[j];
      if used' + m.columns(c) > m.width {
        rows' := rows' + [row'];
        row', used' := "", 0;
      }
      row' := row' + [c];
      used' := used' + m.columns(c);
      now := AddChar(m, now, c);
    }
    assert word[..|word|] == word;
  }

  method WidthOf(m: Measure, word: string) returns (w: nat)
    ensures w == Width(m, word)
  {
    w := 0;
    for j := 0 to |word|
      invariant w == Width(m, word[..j])
    {
      assert word[..j + 1][..j] == word[..j];
      w := w + m.columns(word[j]);
    }
    assert word[..|word|] == word;
  }

  method WrapOne(m: Measure, line: string) returns (rows: seq<string>)
    requires Usual(m)
    ensures rows == Displayed(WrapLine(m, line))
  {
    hide AddChars, Width, TrimEnd, Pieces;
    rows := [];
    var row, used := "", 0;
    var pieces := Pieces(line);
    ghost var st := EMPTY;
    for k := 0 to |pieces|
      invariant st == AddPieces(m, EMPTY, pieces[..k]) && st.row == row && st.used == used
      invariant rows == Displayed(st.done)
    {
      assert pieces[..k + 1][..k] == pieces[..k];
      var word := pieces[k];
      var w := WidthOf(m, word);
      WidthOfTrimmed(m, word);
      var visible := w - (|word| - |TrimSpaces(word)|);
      if used + visible > m.width && row != "" {
        rows := rows + [TrimEnd(row)];
        row, used := "", 0;
      }
      if w > m.width {
        rows, row, used := WrapWord(m, Flushed(m, st, word), rows, row, used, word);
      } else {
        row := row + word;
        used := used + w;
      }
      st := AddPiece(m, st, word);
    }
    assert pieces[..|pieces|] == pieces;
    rows := rows + [TrimEnd(row)];
  }

  method Wrap(m: Measure, text: string) returns (rows: seq<string>)
    requires Usual(m)
    ensures rows == Wrapped(m, text)
  {
    rows := [];
    var lines := Lines(text);
    for i := 0 to |lines|
      invariant rows == Displayed(WrapLines(m, lines[..i]))
    {
      assert lines[..i + 1][..i] == lines[..i];
      var more := WrapOne(m, lines[i]);
      DisplayedSplit(WrapLines(m, lines[..i]), WrapLine(m, lines[i]));
      rows := rows + more;
    }
    assert lines[..|lines|] == lines;
  }

  // --------------------------------------------------------------- Narrow rows

  lemma {:induction false} TrimEndNarrows(m: Measure, s: string)
    ensures Width(m, TrimEnd(s)) <= Width(m, s)
  {
    if s != "" && White(s[|s| - 1]) {
      TrimEndNarrows(m, s[..|s| - 1]);
    }
  }

  lemma {:induction false} WidthSplit(m: Measure, s: string, t: string)
    ensures Width(m, s + t) == Width(m, s) + Width(m, t)
  {
    if t == "" {
      assert s + t == s;
    } else {
      WidthSplit(m, s, t[..|t| - 1]);
      assert (s + t)[..|s + t| - 1] == s + t[..|t| - 1];
    }
  }

  /** Done rows fit, and the row being filled fits but for one last space. */
  ghost predicate Narrow(m: Measure, st: State) { RowsNarrow(m, st.done) && Filling(m, st.row, st.used) }

  ghost predicate RowsNarrow(m: Measure, rows: seq<Row>) {
    forall row :: row in rows ==> Width(m, Display(row)) <= m.width
  }

  ghost predicate Filling(m: Measure, row: string, used: nat) {
    && used == Width(m, row)
    && (used <= m.width || (used == m.width + 1 && row != "" && row[|row| - 1] == ' '))
  }

  lemma EndNarrows(m: Measure, st: State)
    requires Usual(m) && Narrow(m, st)
    ensures Narrow(m, EndRow(st, true))
  {
    TrimEndNarrows(m, st.row);
    if st.used > m.width {
      TrimEndNarrows(m, st.row[..|st.row| - 1]);
    }
  }

  lemma {:induction false} CharsNarrow(m: Measure, st: State, s: string)
    requires Narrow(m, st) && st.used <= m.width
    requires forall c :: c in s ==> m.columns(c) <= m.width
    ensures Narrow(m, AddChars(m, st, s)) && AddChars(m, st, s).used <= m.width
  {
    if s != "" {
      CharsNarrow(m, st, s[..|s| - 1]);
      assert s[|s| - 1] in s;
      CharNarrow(m, AddChars(m, st, s[..|s| - 1]), s[|s| - 1]);
    }
  }

  lemma WidthSnoc(m: Measure, s: string, c: char)
    ensures Width(m, s + [c]) == Width(m, s) + m.columns(c)
  {
    assert (s + [c])[..|s|] == s;
  }

  lemma CharNarrow(m: Measure, st: State, c: char)
    requires Narrow(m, st) && st.used <= m.width && m.columns(c) <= m.width
    ensures Narrow(m, AddChar(m, st, c)) && AddChar(m, st, c).used <= m.width
  {
    WidthSnoc(m, st.row, c);
    WidthSnoc(m, "", c);
    assert Width(m, "") == 0;
    hide Width, TrimEnd;
  }

  lemma PieceNarrow(m: Measure, st: State, word: string)
    requires Usual(m) && Narrow(m, st) && Piece(word)
    requires forall c :: c in word ==> m.columns(c) <= m.width
    ensures Narrow(m, AddPiece(m, st, word))
  {
    hide Narrow, Width, AddChars, TrimEnd;
    var now := Flushed(m, st, word);
    EndNarrows(m, st);
    FlushedRow(m, st, word);
    if Width(m, word) > m.width {
      CharsNarrow(m, now, word);
    } else {
      WordNarrow(m, now, word);
    }
  }

  lemma TrimmedPiece(m: Measure, word: string)
    requires Usual(m) && Piece(word)
    ensures Width(m, word) == Visible(m, word) + if word[|word| - 1] == ' ' then 1 else 0
    ensures TrimSpaces(word) == if word[|word| - 1] == ' ' then word[..|word| - 1] else word
  {
    if word[|word| - 1] == ' ' {
      assert |word| > 1 ==> word[|word| - 2] != ' ';
    }
  }

  ghost predicate Counted(m: Measure, st: State) { st.used == Width(m, st.row) }

  /** A word wider than the screen starts on a row that is still of no width. */
  lemma FlushedEmpty(m: Measure, st: State, word: string)
    requires Usual(m) && Counted(m, st) && Piece(word)
    ensures var now := Flushed(m, st, word);
            && Counted(m, now) && (now.row == "" || now.used + Visible(m, word) <= m.width)
            && (Width(m, word) > m.width ==> now.used == 0)
  {
    TrimmedPiece(m, word);
  }

  lemma FlushedRow(m: Measure, st: State, word: string)
    requires Usual(m) && Narrow(m, st) && Piece(word)
    ensures var now := Flushed(m, st, word);
            && Narrow(m, now) && (now.row == "" || now.used + Visible(m, word) <= m.width)
            && (Width(m, word) > m.width ==> now.used == 0)
  {
    EndNarrows(m, st);
    FlushedEmpty(m, st, word);
  }

  lemma {:induction false} CharsCounted(m: Measure, st: State, s: string)
    requires Counted(m, st)
    ensures Counted(m, AddChars(m, st, s))
  {
    if s != "" {
      CharsCounted(m, st, s[..|s| - 1]);
      WidthSnoc(m, AddChars(m, st, s[..|s| - 1]).row, s[|s| - 1]);
      WidthSnoc(m, "", s[|s| - 1]);
      assert Width(m, "") == 0;
      hide Width;
    }
  }

  lemma {:induction false} PiecesCounted(m: Measure, pieces: seq<string>)
    ensures Counted(m, AddPieces(m, EMPTY, pieces))
  {
    if pieces == [] {
    } else {
      var front, last := pieces[..|pieces| - 1], pieces[|pieces| - 1];
      PiecesCounted(m, front);
      var now := Flushed(m, AddPieces(m, EMPTY, front), last);
      CharsCounted(m, now, last);
      WidthSplit(m, now.row, last);
    }
  }

  lemma WordNarrow(m: Measure, st: State, word: string)
    requires Usual(m) && Narrow(m, st) && Piece(word) && Width(m, word) <= m.width
    requires st.row == "" || st.used + Visible(m, word) <= m.width
    ensures Narrow(m, State(st.done, st.row + word, st.used + Width(m, word)))
  {
    hide TrimSpaces, RowsNarrow, Width;
    WidthSplit(m, st.row, word);
    TrimmedPiece(m, word);
    NoWidth(m);
    var row := st.row + word;
    assert row[|row| - 1] == word[|word| - 1];
  }

  lemma NoWidth(m: Measure)
    ensures Width(m, "") == 0
  {
  }

  lemma {:induction false} ConcatSplit(a: seq<string>, b: seq<string>)
    ensures Concat(a + b) == Concat(a) + Concat(b)
  {
    if b == [] {
      assert a + b == a;
    } else {
      ConcatSplit(a, b[..|b| - 1]);
      assert (a + b)[..|a + b| - 1] == a + b[..|b| - 1];
    }
  }

  lemma ConcatOne(part: string)
    ensures Concat([part]) == part
  {
    assert [part][..0] == [];
  }

  lemma {:induction false} PiecesMakeLine(line: string)
    ensures Concat(Pieces(line)) == line
    decreases |line|
  {
    if line != "" {
      var k := Forth(Space, line, 0);
      if k == |line| {
        ConcatOne(line);
      } else {
        PiecesMakeLine(line[k + 1..]);
        ConcatOne(line[..k + 1]);
        ConcatSplit([line[..k + 1]], Pieces(line[k + 1..]));
      }
    }
  }

  lemma {:induction false} InConcat(parts: seq<string>, part: string, c: char)
    requires part in parts && c in part
    ensures c in Concat(parts)
  {
    if part != parts[|parts| - 1] {
      assert part in parts[..|parts| - 1];
      InConcat(parts[..|parts| - 1], part, c);
    }
  }

  lemma {:induction false} PiecesNarrow(m: Measure, pieces: seq<string>)
    requires Usual(m)
    requires forall p :: p in pieces ==> Piece(p) && forall c :: c in p ==> m.columns(c) <= m.width
    ensures Narrow(m, AddPieces(m, EMPTY, pieces))
  {
    hide Narrow, AddPiece, Piece;
    if pieces == [] {
      EmptyNarrow(m);
    } else {
      var front, last := pieces[..|pieces| - 1], pieces[|pieces| - 1];
      assert last in pieces && forall p :: p in front ==> p in pieces;
      PiecesNarrow(m, front);
      PieceNarrow(m, AddPieces(m, EMPTY, front), last);
    }
  }

  lemma EmptyNarrow(m: Measure)
    ensures Narrow(m, EMPTY)
  {
  }

  lemma LineNarrow(m: Measure, line: string)
    requires Usual(m) && forall c :: c in line ==> m.columns(c) <= m.width
    ensures forall row :: row in WrapLine(m, line) ==> Width(m, Display(row)) <= m.width
  {
    hide Width, Display, Pieces, Piece;
    PiecesMakeLine(line);
    forall p, c | p in Pieces(line) && c in p ensures m.columns(c) <= m.width {
      InConcat(Pieces(line), p, c);
    }
    PiecesNarrow(m, Pieces(line));
    EndNarrows(m, AddPieces(m, EMPTY, Pieces(line)));
  }

  lemma {:induction false} LinesInText(text: string, line: string, c: char)
    requires line in Lines(text) && c in line
    ensures c in text
    decreases |text|
  {
    var k := Forth(Break, text, 0);
    if k < |text| && line != text[..k] {
      LinesInText(text[k + 1..], line, c);
    }
  }

  lemma {:induction false} LinesNarrow(m: Measure, lines: seq<string>)
    requires Usual(m) && forall line, c :: line in lines && c in line ==> m.columns(c) <= m.width
    ensures forall row :: row in WrapLines(m, lines) ==> Width(m, Display(row)) <= m.width
  {
    hide Width, Display, WrapLine;
    if lines != [] {
      assert forall line :: line in lines[..|lines| - 1] ==> line in lines;
      LinesNarrow(m, lines[..|lines| - 1]);
      LineNarrow(m, lines[|lines| - 1]);
    }
  }

  /** No row is wider than the screen, unless one character alone is. */
  lemma NoRowTooWide(m: Measure, text: string)
    requires Usual(m) && forall c :: c in text ==> m.columns(c) <= m.width
    ensures forall row :: row in Wrapped(m, text) ==> Width(m, row) <= m.width
  {
    hide Width, WrapLines, Lines;
    forall line, c | line in Lines(text) && c in line ensures m.columns(c) <= m.width {
      LinesInText(text, line, c);
    }
    LinesNarrow(m, Lines(text));
  }

  // --------------------------------------------------- Nothing lost, no word split

  /** Whether a row may end before character `p` of the line: at a space, or
      within a word that is wider than the screen. */
  ghost predicate GoodCut(m: Measure, line: string, p: nat) {
    && p <= |line|
    && (p == 0 || p == |line| || line[p - 1] == ' ' || line[p] == ' '
        || Width(m, line[Back(Space, line, p)..Forth(Space, line, p)]) > m.width)
  }

  ghost predicate GoodCuts(m: Measure, line: string, parts: seq<string>) {
    parts == [] || (GoodCuts(m, line, parts[..|parts| - 1]) && GoodCut(m, line, |Concat(parts)|))
  }

  /** What was laid out so far is the first `n` characters, well cut. */
  ghost predicate Laid(m: Measure, line: string, st: State, n: nat) {
    && n <= |line| && Concat(Parts(st.done)) + st.row == line[..n]
    && GoodCuts(m, line, Parts(st.done))
  }

  lemma EndLaid(m: Measure, line: string, st: State, n: nat, trimmed: bool)
    requires Laid(m, line, st, n) && GoodCut(m, line, n)
    ensures Laid(m, line, EndRow(st, trimmed), n)
  {
    hide GoodCut;
    var parts := Parts(EndRow(st, trimmed).done);
    assert parts[..|parts| - 1] == Parts(st.done);
    assert Concat(parts) == line[..n];
  }

  lemma InsideWide(m: Measure, line: string, a: nat, n: nat)
    requires a <= n < |line| && (a == 0 || line[a - 1] == ' ')
    requires forall i :: a <= i < n ==> line[i] != ' '
    requires Width(m, line[a..n]) + m.columns(line[n]) > m.width
    ensures GoodCut(m, line, n)
  {
    if line[n] != ' ' {
      BackFrom(Space, line, a, n);
      var f := Forth(Space, line, n);
      assert line[a..f] == line[a..n] + [line[n]] + line[n + 1..f];
      WidthSplit(m, line[a..n] + [line[n]], line[n + 1..f]);
      WidthSnoc(m, line[a..n], line[n]);
    }
  }

  lemma {:induction false} CharsLaid(m: Measure, line: string, st: State, a: nat, n: nat)
    requires a <= n <= |line| && Laid(m, line, st, a) && st.used == 0 && (a == 0 || line[a - 1] == ' ')
    requires forall i :: a <= i < n - 1 ==> line[i] != ' '
    ensures Laid(m, line, AddChars(m, st, line[a..n]), n)
    ensures AddChars(m, st, line[a..n]).used <= Width(m, line[a..n])
  {
    hide Laid, GoodCut;
    if a < n {
      CharsLaid(m, line, st, a, n - 1);
      var now := AddChars(m, st, line[a..n - 1]);
      assert line[a..n][..n - 1 - a] == line[a..n - 1];
      if now.used + m.columns(line[n - 1]) > m.width {
        InsideWide(m, line, a, n - 1);
        EndLaid(m, line, now, n - 1, false);
      }
      CharLaid(m, line, now, n - 1);
    }
  }

  lemma CharLaid(m: Measure, line: string, st: State, n: nat)
    requires n < |line| && Laid(m, line, st, n)
    requires st.used + m.columns(line[n]) > m.width ==> Laid(m, line, EndRow(st, false), n)
    ensures Laid(m, line, AddChar(m, st, line[n]), n + 1)
  {
    hide GoodCuts, Concat;
  }

  lemma WordLaid(m: Measure, line: string, st: State, a: nat, n: nat)
    requires a <= n <= |line| && Laid(m, line, st, a)
    ensures Laid(m, line, State(st.done, st.row + line[a..n], st.used + Width(m, line[a..n])), n)
  {
    hide GoodCuts, Concat, Width;
    assert line[..n] == line[..a] + line[a..n];
  }

  lemma PieceLaid(m: Measure, line: string, st: State, a: nat, n: nat)
    requires Usual(m) && Counted(m, st) && a < n <= |line| && Laid(m, line, st, a)
    requires a == 0 || line[a - 1] == ' '
    requires Piece(line[a..n])
    ensures Laid(m, line, AddPiece(m, st, line[a..n]), n)
  {
    hide Laid, GoodCuts, Concat, Width, TrimSpaces;
    var word := line[a..n];
    assert GoodCut(m, line, a);
    EndLaid(m, line, st, a, true);
    FlushedEmpty(m, st, word);
    assert forall i :: a <= i < n - 1 ==> line[i] == word[i - a];
    var now := Flushed(m, st, word);
    if Width(m, word) > m.width {
      CharsLaid(m, line, now, a, n);
    } else {
      WordLaid(m, line, now, a, n);
    }
  }

  lemma ConcatNone()
    ensures Concat([]) == ""
  {
  }

  lemma {:induction false} PiecesLaid(m: Measure, line: string, k: nat)
    requires Usual(m) && k <= |Pieces(line)|
    ensures var n := |Concat(Pieces(line)[..k])|;
            && Laid(m, line, AddPieces(m, EMPTY, Pieces(line)[..k]), n)
            && (0 < n < |line| ==> line[n - 1] == ' ')
  {
    hide Laid, Counted, Pieces, Width, GoodCut, AddPiece, Piece, Concat;
    var pieces := Pieces(line);
    ConcatNone();
    PiecesMakeLine(line);
    if k == 0 {
      EmptyLaid(m, line);
    } else {
      PiecesLaid(m, line, k - 1);
      assert pieces[..k][..k - 1] == pieces[..k - 1];
      var a, n := |Concat(pieces[..k - 1])|, |Concat(pieces[..k])|;
      PieceAt(line, k - 1);
      PiecesCounted(m, pieces[..k - 1]);
      PieceLaid(m, line, AddPieces(m, EMPTY, pieces[..k - 1]), a, n);
    }
  }

  lemma EmptyLaid(m: Measure, line: string)
    ensures Laid(m, line, EMPTY, 0)
  {
  }

  lemma LastPiece(pieces: seq<string>, k: nat, after: nat)
    requires k < |pieces| && after == |Concat(pieces[k + 1..])|
    requires forall i :: 0 <= i < |pieces| - 1 ==> pieces[i] != "" && pieces[i][|pieces[i]| - 1] == ' '
    ensures after > 0 ==> pieces[k] != "" && pieces[k][|pieces[k]| - 1] == ' '
  {
    if k + 1 == |pieces| {
      assert pieces[k + 1..] == [];
    }
  }

  lemma Between(line: string, before: string, piece: string, after: string)
    requires line == before + piece + after
    ensures line[|before|..|before| + |piece|] == piece
    ensures piece != "" ==> line[|before| + |piece| - 1] == piece[|piece| - 1]
  {
  }

  /** The k-th piece is the part of the line after the pieces before it. */
  lemma PieceAt(line: string, k: nat)
    requires k < |Pieces(line)|
    ensures var pieces := Pieces(line);
            var a, n := |Concat(pieces[..k])|, |Concat(pieces[..k + 1])|;
            && a < n <= |line| && line[a..n] == pieces[k]
            && (n < |line| ==> line[n - 1] == ' ')
  {
    hide Pieces, Concat;
    var pieces := Pieces(line);
    var before, piece, after := Concat(pieces[..k]), pieces[k], Concat(pieces[k + 1..]);
    PiecesMakeLine(line);
    assert pieces[..k + 1] == pieces[..k] + [piece];
    ConcatSplit(pieces[..k], [piece]);
    ConcatOne(piece);
    ConcatSplit(pieces[..k + 1], pieces[k + 1..]);
    assert pieces == pieces[..k + 1] + pieces[k + 1..];
    assert piece in pieces;
    LastPiece(pieces, k, |after|);
    Between(line, before, piece, after);
  }

  /** The rows are the line cut in pieces, each shown without the space at its
      end or as it is; and no word that fits on a row is cut. */
  lemma RowsAreTheLine(m: Measure, line: string)
    requires Usual(m)
    ensures Concat(Parts(WrapLine(m, line))) == line
    ensures GoodCuts(m, line, Parts(WrapLine(m, line)))
    ensures forall row :: row in WrapLine(m, line) ==> Display(row) in {row.part, TrimEnd(row.part)}
  {
    var pieces := Pieces(line);
    assert pieces[..|pieces|] == pieces;
    PiecesMakeLine(line);
    PiecesLaid(m, line, |pieces|);
    EndLaid(m, line, AddPieces(m, EMPTY, pieces), |line|, true);
    assert line[..|line|] == line;
  }

  predicate EndsInSpace(s: string) { s != "" && s[|s| - 1] == ' ' }

  /** Rows end in a space exactly where they are trimmed. */
  ghost predicate TrimmedAtSpaces(rows: seq<Row>) {
    forall row :: row in rows ==> (row.trimmed <==> EndsInSpace(row.part))
  }

  lemma {:induction false} CharsTrimmed(m: Measure, st: State, s: string)
    requires TrimmedAtSpaces(st.done) && !EndsInSpace(st.row) && ' ' !in s
    ensures var after := AddChars(m, st, s); TrimmedAtSpaces(after.done) && !EndsInSpace(after.row)
  {
    if s != "" {
      var front, c := s[..|s| - 1], s[|s| - 1];
      assert c in s && forall d :: d in front ==> d in s;
      CharsTrimmed(m, st, front);
    }
  }

  lemma LastCharTrimmed(m: Measure, st: State, c: char)
    requires TrimmedAtSpaces(st.done) && !EndsInSpace(st.row)
    ensures TrimmedAtSpaces(AddChar(m, st, c).done) && AddChar(m, st, c).row != ""
    ensures EndsInSpace(AddChar(m, st, c).row) <==> c == ' '
  {
  }

  lemma NoSpaceWithoutWidth(m: Measure, st: State)
    requires Usual(m) && Counted(m, st) && st.used == 0
    ensures !EndsInSpace(st.row)
  {
  }

  /** A piece on a row that is empty or ends in a space. */
  lemma PieceTrimmed(m: Measure, st: State, piece: string)
    requires Usual(m) && Counted(m, st) && Piece(piece)
    requires TrimmedAtSpaces(st.done) && (st.row == "" || EndsInSpace(st.row))
    ensures var after := AddPiece(m, st, piece);
            && TrimmedAtSpaces(after.done) && after.row != "" && (EndsInSpace(after.row) <==> EndsInSpace(piece))
  {
    hide Width, TrimSpaces, AddChars;
    var now := Flushed(m, st, piece);
    FlushedEmpty(m, st, piece);
    assert TrimmedAtSpaces(now.done);
    if Width(m, piece) > m.width {
      NoSpaceWithoutWidth(m, now);
      var front, c := piece[..|piece| - 1], piece[|piece| - 1];
      CharsTrimmed(m, now, front);
      LastCharTrimmed(m, AddChars(m, now, front), c);
      AddCharsNext(m, now, piece);
    } else {
      var row := now.row + piece;
      assert row[|row| - 1] == piece[|piece| - 1];
    }
  }

  lemma AddCharsNext(m: Measure, st: State, s: string)
    requires s != ""
    ensures AddChars(m, st, s) == AddChar(m, AddChars(m, st, s[..|s| - 1]), s[|s| - 1])
  {
  }

  lemma {:induction false} PiecesTrimmed(m: Measure, pieces: seq<string>, n: nat)
    requires Usual(m) && n <= |pieces| && forall p :: p in pieces ==> Piece(p)
    requires forall i :: 0 <= i < |pieces| - 1 ==> EndsInSpace(pieces[i])
    ensures var st := AddPieces(m, EMPTY, pieces[..n]);
            && TrimmedAtSpaces(st.done)
            && (n == 0 ==> st.row == "") && (0 < n < |pieces| ==> EndsInSpace(st.row))
  {
    if n > 0 {
      hide AddPiece, Piece, EndsInSpace, TrimmedAtSpaces;
      PiecesTrimmed(m, pieces, n - 1);
      assert pieces[..n][..n - 1] == pieces[..n - 1];
      PiecesCounted(m, pieces[..n - 1]);
      assert pieces[n - 1] in pieces;
      PieceTrimmed(m, AddPieces(m, EMPTY, pieces[..n - 1]), pieces[n - 1]);
    } else {
      NothingTrimmed(pieces);
    }
  }

  lemma NothingTrimmed(pieces: seq<string>)
    ensures pieces[..0] == [] && TrimmedAtSpaces([])
  {
  }

  /** Space is dropped at the end of a row only where the row ends in the space
      between two words, or the line ends: nothing is dropped inside a word,
      however long it is. */
  lemma DroppedBetweenWords(m: Measure, line: string)
    requires Usual(m)
    ensures var rows := WrapLine(m, line);
            && rows[|rows| - 1].trimmed
            && forall i :: 0 <= i < |rows| - 1 ==> (rows[i].trimmed <==> EndsInSpace(rows[i].part))
  {
    hide AddPieces, Pieces, Piece;
    var pieces := Pieces(line);
    assert pieces[..|pieces|] == pieces;
    PiecesTrimmed(m, pieces, |pieces|);
  }

  /** Lines with their line breaks between them. */
  function Joined(lines: seq<string>): string
    requires lines != []
  {
    if |lines| == 1 then lines[0] else lines[0] + "\n" + Joined(lines[1..])
  }

  /** The lines of a text are what stands between its line breaks, empty ones
      too, and each is given at least one row. */
  lemma {:induction false} LinesJoin(m: Measure, text: string)
    ensures Joined(Lines(text)) == text
    ensures forall line :: line in Lines(text) ==> '\n' !in line && |WrapLine(m, line)| > 0
    decreases |text|
  {
    hide WrapLine;
    var k := Forth(Break, text, 0);
    if k < |text| {
      LinesJoin(m, text[k + 1..]);
      assert Lines(text)[1..] == Lines(text[k + 1..]);
      assert text == text[..k] + "\n" + text[k + 1..];
    }
  }

  /** What is not space. */
  function Solids(s: string): string {
    if s == "" then "" else Solids(s[..|s| - 1]) + if White(s[|s| - 1]) then "" else [s[|s| - 1]]
  }

  lemma {:induction false} SolidsSplit(s: string, t: string)
    ensures Solids(s + t) == Solids(s) + Solids(t)
  {
    if t == "" {
      assert s + t == s;
    } else {
      SolidsSplit(s, t[..|t| - 1]);
      assert (s + t)[..|s + t| - 1] == s + t[..|t| - 1];
    }
  }

  lemma {:induction false} TrimKeepsSolids(s: string)
    ensures Solids(TrimEnd(s)) == Solids(s)
  {
    if s != "" && White(s[|s| - 1]) {
      TrimKeepsSolids(s[..|s| - 1]);
    }
  }

  lemma {:induction false} DisplayKeepsSolids(rows: seq<Row>)
    ensures Solids(Concat(Displayed(rows))) == Solids(Concat(Parts(rows)))
  {
    if rows == [] {
      assert Displayed(rows) == Parts(rows);
    } else {
      var front, last := rows[..|rows| - 1], rows[|rows| - 1];
      DisplayKeepsSolids(front);
      TrimKeepsSolids(last.part);
      assert Displayed(rows)[..|rows| - 1] == Displayed(front);
      assert Parts(rows)[..|rows| - 1] == Parts(front);
      SolidsSplit(Concat(Displayed(front)), Display(last));
      SolidsSplit(Concat(Parts(front)), last.part);
    }
  }

  lemma {:induction false} LinesKeepSolids(text: string)
    ensures Solids(Concat(Lines(text))) == Solids(text)
    decreases |text|
  {
    hide Solids, Concat;
    var k := Forth(Break, text, 0);
    if k == |text| {
      ConcatOne(text);
    } else {
      var first, rest := text[..k], text[k + 1..];
      LinesKeepSolids(rest);
      ConcatOne(first);
      ConcatSplit([first], Lines(rest));
      SolidsSplit(first, Concat(Lines(rest)));
      BreakIsWhite(text[k]);
      SolidsSplit(first + [text[k]], rest);
      SolidsSplit(first, [text[k]]);
      assert text == first + [text[k]] + rest;
    }
  }

  lemma BreakIsWhite(c: char)
    requires Break(c)
    ensures Solids([c]) == ""
  {
    assert [c][..0] == "";
  }

  lemma {:induction false} WrapLinesKeepsSolids(m: Measure, lines: seq<string>)
    requires Usual(m)
    ensures Solids(Concat(Parts(WrapLines(m, lines)))) == Solids(Concat(lines))
  {
    hide WrapLine, Solids;
    if lines == [] {
      assert Parts(WrapLines(m, lines)) == lines;
    } else {
      var front, last := lines[..|lines| - 1], lines[|lines| - 1];
      WrapLinesKeepsSolids(m, front);
      RowsAreTheLine(m, last);
      var before, more := WrapLines(m, front), WrapLine(m, last);
      assert Parts(before + more) == Parts(before) + Parts(more);
      ConcatSplit(Parts(before), Parts(more));
      SolidsSplit(Concat(Parts(before)), last);
      SolidsSplit(Concat(front), last);
    }
  }

  /** Every character that is not space is shown, in order. */
  lemma NothingLost(m: Measure, text: string)
    requires Usual(m)
    ensures Solids(Concat(Wrapped(m, text))) == Solids(text)
  {
    DisplayKeepsSolids(WrapLines(m, Lines(text)));
    WrapLinesKeepsSolids(m, Lines(text));
    LinesKeepSolids(text);
  }
}
