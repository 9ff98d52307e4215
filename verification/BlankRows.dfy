/** When wrapping a line wastes a row: a word that fills its row without the
    space after it, or a run of spaces that goes beyond the end of a row. What
    goes over starts the next row, and is a row of its own when the next word no
    longer fits behind it. */
module BlankRows {
  import opened InputLine
  import opened Wrapping
  import opened FewestRows

  ghost predicate HasSolid(s: string) { exists c :: c in s && Solid(c) }

  /** A word that shows something, and the space after it. */
  ghost predicate Wordy(piece: string) { Piece(piece) && HasSolid(piece) }

  ghost predicate HasBlank(rows: seq<Row>) { exists row :: row in rows && Display(row) == "" }

  function Spaces(n: nat): (s: string)
    ensures |s| == n && forall i :: 0 <= i < n ==> s[i] == ' '
  {
    seq(n, _ => ' ')
  }

  lemma {:induction false} SolidIsNoBlank(s: string)
    requires HasSolid(s)
    ensures TrimEnd(s) != ""
  {
    if White(s[|s| - 1]) {
      SolidIsNoBlank(s[..|s| - 1]);
    }
  }

  lemma {:induction false} SpacesAreBlank(n: nat)
    ensures TrimEnd(Spaces(n)) == ""
  {
    if n > 0 {
      assert Spaces(n)[..n - 1] == Spaces(n - 1);
      SpacesAreBlank(n - 1);
    }
  }

  lemma BlankAdded(rows: seq<Row>, row: Row)
    ensures HasBlank(rows + [row]) <==> HasBlank(rows) || Display(row) == ""
  {
    assert forall r :: r in rows ==> r in rows + [row];
    assert row in rows + [row];
    assert forall r :: r in rows + [row] ==> r in rows || r == row;
  }

  lemma SolidStays(before: string, s: string, after: string)
    requires HasSolid(s)
    ensures HasSolid(before + s + after) && HasSolid(before + s) && HasSolid(s + after)
  {
    var c :| c in s && Solid(c);
    assert c in before + s && c in s + after && c in before + s + after;
  }

  lemma WordHasSolid(piece: string)
    requires Wordy(piece)
    ensures HasSolid(TrimSpaces(piece)) && piece != " " && TrimSpaces(piece) != ""
  {
    var c :| c in piece && Solid(c);
    var i :| 0 <= i < |piece| && piece[i] == c;
    assert TrimSpaces(piece)[i] == c;
  }

  // -------------------------------------------------- A run of spaces, and a word

  /** The row holds spaces only, as many as the columns used. */
  ghost predicate AllSpaces(st: State) { st.row == Spaces(st.used) }

  lemma GapAfterSpaces(n: nat)
    ensures Spaces(n) + " " == Spaces(n + 1) && Spaces(1) == " " && Spaces(0) == ""
  {
  }

  /** A run of spaces behind a word: it hangs, or starts a row, or fills one. */
  lemma {:induction false} RunAfterWord(m: Measure, st: State, n: nat)
    requires Usual(m) && Tight(m, st) && HasSolid(st.row) && (n > 0 ==> m.width > 0)
    ensures var mid, p := AddPieces(m, st, Gaps(n)), st.used + n;
            && Tight(m, mid)
            && (p <= m.width + 1 ==> mid.done == st.done && HasSolid(mid.row) && mid.used == p)
            && (m.width + 1 < p <= 2 * m.width + 2 ==>
                  && |mid.done| == |st.done| + 1 && (HasBlank(mid.done) <==> HasBlank(st.done))
                  && AllSpaces(mid) && mid.used == p - m.width - 1)
            && (2 * m.width + 2 < p ==>
                  |mid.done| > |st.done| + 1 && HasBlank(mid.done) && AllSpaces(mid) && mid.used > 0)
  {
    if n > 0 {
      hide AddPiece, HasBlank, HasSolid;
      assert Gaps(n)[..n - 1] == Gaps(n - 1) && Gaps(n)[n - 1] == " ";
      RunAfterWord(m, st, n - 1);
      var mid := AddPieces(m, st, Gaps(n - 1));
      GapPlaced(m, mid);
      GapKeeps(m, mid);
      GapAfterSpaces(mid.used);
    }
  }

  /** One space more: what it does to the row, and what the row it ends shows. */
  lemma GapKeeps(m: Measure, st: State)
    requires Usual(m) && m.width > 0 && Tight(m, st)
    ensures HasSolid(st.row) ==> HasSolid(st.row + " ")
    ensures HasSolid(st.row) ==> (HasBlank(st.done + [Row(st.row, true)]) <==> HasBlank(st.done))
    ensures AllSpaces(st) ==> HasBlank(st.done + [Row(st.row, true)])
  {
    BlankAdded(st.done, Row(st.row, true));
    if HasSolid(st.row) {
      SolidStays("", st.row, " ");
      SolidIsNoBlank(st.row);
      assert "" + st.row == st.row;
    }
    if AllSpaces(st) {
      SpacesAreBlank(st.used);
    }
    hide HasBlank, HasSolid, TrimEnd;
  }

  /** A run of spaces where no word is on the row yet. */
  lemma {:induction false} RunOnBareRow(m: Measure, st: State, n: nat)
    requires Usual(m) && Tight(m, st) && AllSpaces(st) && (n > 0 ==> m.width > 0)
    ensures var mid, p := AddPieces(m, st, Gaps(n)), st.used + n;
            && Tight(m, mid) && AllSpaces(mid)
            && (p <= m.width + 1 ==> mid.done == st.done && mid.used == p)
            && (m.width + 1 < p ==> |mid.done| > |st.done| && HasBlank(mid.done) && mid.used > 0)
  {
    if n > 0 {
      hide AddPiece, HasBlank, HasSolid;
      assert Gaps(n)[..n - 1] == Gaps(n - 1) && Gaps(n)[n - 1] == " ";
      RunOnBareRow(m, st, n - 1);
      var mid := AddPieces(m, st, Gaps(n - 1));
      GapPlaced(m, mid);
      GapKeeps(m, mid);
      BlankAdded(mid.done, Row(mid.row, true));
      GapAfterSpaces(mid.used);
    }
  }

  /** The next word flushes the row it does not fit on, and a brimming one
      fills its own. */
  lemma WordPlaced(m: Measure, st: State, piece: string)
    requires Usual(m) && Tight(m, st) && Counted(m, st) && Wordy(piece) && Visible(m, piece) <= m.width
    ensures var after, flushes := AddPiece(m, st, piece), st.used + Visible(m, piece) > m.width;
            && |after.done| == |st.done| + (if flushes then 1 else 0) + (if Brimming(m, piece) then 1 else 0)
            && (HasBlank(after.done) <==> HasBlank(st.done) || (flushes && TrimEnd(st.row) == ""))
            && (if Brimming(m, piece) then after.row == " " && after.used == 1 else HasSolid(after.row))
  {
    hide HasBlank, TrimEnd, AddChars;
    var now := Flushed(m, st, piece);
    BlankAdded(st.done, Row(st.row, true));
    WordHasSolid(piece);
    SolidStays(now.row, piece, "");
    assert now.row + piece + "" == now.row + piece;
    if Brimming(m, piece) {
      BrimmingFills(m, st, piece);
      SolidStays(now.row, TrimSpaces(piece), "");
      RowShows(now.row + TrimSpaces(piece));
      BlankAdded(now.done, Row(now.row + TrimSpaces(piece), false));
    }
    NoWidth(m);
    hide HasSolid, Width, TrimSpaces;
  }

  lemma RowShows(s: string)
    requires HasSolid(s)
    ensures Display(Row(s, false)) != ""
  {
  }

  lemma SolidAndSpaces(st: State)
    ensures HasSolid(st.row) ==> TrimEnd(st.row) != ""
    ensures AllSpaces(st) ==> TrimEnd(st.row) == ""
  {
    if HasSolid(st.row) {
      SolidIsNoBlank(st.row);
    }
    if AllSpaces(st) {
      SpacesAreBlank(st.used);
    }
  }

  /** Behind a word that ends at column `st.used`, its space counted, a run of
      `n` more spaces and the next word show a blank row exactly when together
      they pass the end of the next row too; and then, and only then, they take
      more rows than they need, the spaces being allowed to hang. */
  lemma RunCostsExactly(m: Measure, st: State, n: nat, piece: string)
    requires Usual(m) && Tight(m, st) && Counted(m, st) && HasSolid(st.row) && (n > 0 ==> m.width > 0)
    requires Wordy(piece) && Visible(m, piece) <= m.width
    ensures var after := AddPiece(m, AddPieces(m, st, Gaps(n)), piece);
            var far := st.used + n + Visible(m, piece);
            var needed := (if far > m.width then 1 else 0) + if Brimming(m, piece) then 1 else 0;
            && (HasBlank(after.done) <==> HasBlank(st.done) || far > 2 * m.width + 1)
            && |after.done| >= |st.done| + needed
            && (|after.done| > |st.done| + needed <==> far > 2 * m.width + 1)
  {
    hide AddPiece, AddPieces, HasBlank, HasSolid, TrimEnd, Wordy, Visible, AllSpaces;
    var mid := AddPieces(m, st, Gaps(n));
    RunAfterWord(m, st, n);
    RunCounted(m, st, n);
    WordPlaced(m, mid, piece);
    SolidAndSpaces(mid);
  }

  /** Where only spaces are on the row, already one column beyond the row suffices. */
  lemma BareRunCostsExactly(m: Measure, st: State, n: nat, piece: string)
    requires Usual(m) && Tight(m, st) && Counted(m, st) && AllSpaces(st) && (n > 0 ==> m.width > 0)
    requires Wordy(piece) && Visible(m, piece) <= m.width
    ensures var after := AddPiece(m, AddPieces(m, st, Gaps(n)), piece);
            var far := st.used + n + Visible(m, piece);
            var needed := if Brimming(m, piece) then 1 else 0;
            && (HasBlank(after.done) <==> HasBlank(st.done) || far > m.width)
            && |after.done| >= |st.done| + needed
            && (|after.done| > |st.done| + needed <==> far > m.width)
  {
    hide AddPiece, AddPieces, HasBlank, HasSolid, TrimEnd, Wordy, Visible, AllSpaces;
    var mid := AddPieces(m, st, Gaps(n));
    RunOnBareRow(m, st, n);
    RunCounted(m, st, n);
    WordPlaced(m, mid, piece);
    SolidAndSpaces(mid);
  }

  lemma {:induction false} RunCounted(m: Measure, st: State, n: nat)
    requires Counted(m, st)
    ensures Counted(m, AddPieces(m, st, Gaps(n)))
  {
    if n > 0 {
      hide AddPiece;
      assert Gaps(n)[..n - 1] == Gaps(n - 1) && Gaps(n)[n - 1] == " ";
      RunCounted(m, st, n - 1);
      PieceCounted(m, AddPieces(m, st, Gaps(n - 1)), " ");
    }
  }

  lemma PieceCounted(m: Measure, st: State, piece: string)
    requires Counted(m, st)
    ensures Counted(m, AddPiece(m, st, piece))
  {
    var now := Flushed(m, st, piece);
    CharsCounted(m, now, piece);
    WidthSplit(m, now.row, piece);
  }

  // ------------------------------------------------------------- A whole line

  /** The line starts, or its last word brims: no word is on the row. */
  ghost predicate Bare(m: Measure, pieces: seq<string>) {
    pieces == [] || Brimming(m, pieces[|pieces| - 1])
  }

  /** The run of spaces before word `k`, or before the end, goes too far: it
      starts at the column where the wrapping of what is before it ends. */
  ghost predicate Spills(m: Measure, pieces: seq<string>, k: nat)
    requires k <= |pieces|
  {
    && (k < |pieces| ==> pieces[k] != " ")
    && var n := TrailingGaps(pieces[..k]);
       var front := pieces[..k - n];
       var far := AddPieces(m, EMPTY, front).used + n;
       if k == |pieces| then Bare(m, front) || far > m.width + 1
       else far + Visible(m, pieces[k]) > if Bare(m, front) then m.width else 2 * m.width + 1
  }

  /** Words that show something and fit, and spaces. */
  ghost predicate Showing(m: Measure, pieces: seq<string>) {
    && (forall p :: p in pieces ==> p == " " || (Wordy(p) && Visible(m, p) <= m.width))
    && (m.width > 0 || SingleSpaced(pieces))
  }

  ghost predicate Stands(m: Measure, st: State, pieces: seq<string>) {
    && Tight(m, st) && Counted(m, st)
    && if Bare(m, pieces) then AllSpaces(st) else HasSolid(st.row)
  }

  lemma SpacesFromStart(m: Measure)
    ensures Stands(m, EMPTY, []) && !HasBlank(EMPTY.done)
  {
    NoWidth(m);
  }

  /** From just after one word to just after the next. */
  lemma NextWordStands(m: Measure, st: State, front: seq<string>, n: nat, piece: string)
    requires Usual(m) && Stands(m, st, front) && (n > 0 ==> m.width > 0)
    requires Wordy(piece) && Visible(m, piece) <= m.width
    ensures var after := AddPiece(m, AddPieces(m, st, Gaps(n)), piece);
            && Stands(m, after, front + Gaps(n) + [piece])
            && (HasBlank(after.done)
                <==> HasBlank(st.done)
                     || st.used + n + Visible(m, piece) > if Bare(m, front) then m.width else 2 * m.width + 1)
  {
    hide AddPiece, AddPieces, HasBlank, HasSolid, Wordy, AllSpaces, Tight;
    if Bare(m, front) {
      BareRunCostsExactly(m, st, n, piece);
      RunOnBareRow(m, st, n);
    } else {
      RunCostsExactly(m, st, n, piece);
      RunAfterWord(m, st, n);
    }
    RunCounted(m, st, n);
    var mid := AddPieces(m, st, Gaps(n));
    PieceCounted(m, mid, piece);
    WordyTight(m, mid, piece);
    WordPlaced(m, mid, piece);
    BrimmedRow(m, mid, piece);
  }

  lemma WordyTight(m: Measure, st: State, piece: string)
    requires Usual(m) && Tight(m, st) && Counted(m, st) && Wordy(piece) && Visible(m, piece) <= m.width
    ensures Tight(m, AddPiece(m, st, piece))
  {
    hide AddPiece;
    PieceTight(m, st, piece);
  }

  lemma BrimmedRow(m: Measure, st: State, piece: string)
    ensures var after := AddPiece(m, st, piece);
            after.row == " " && after.used == 1 ==> AllSpaces(after)
  {
    hide AddPiece;
    GapAfterSpaces(0);
  }

  lemma {:induction false} WordsStand(m: Measure, pieces: seq<string>, k: nat)
    requires Usual(m) && Showing(m, pieces) && k <= |pieces| && (k > 0 ==> pieces[k - 1] != " ")
    ensures var st := AddPieces(m, EMPTY, pieces[..k]);
            && Stands(m, st, pieces[..k])
            && (HasBlank(st.done) <==> exists i: nat :: i < k && Spills(m, pieces, i))
    decreases k
  {
    hide *;
    if k == 0 {
      assert pieces[..0] == [];
      NoCosts(m);
      SpacesFromStart(m);
    } else {
      var piece := pieces[k - 1];
      ShowsAt(m, pieces, k - 1);
      var n := TrailingGaps(pieces[..k - 1]);
      var j := k - 1 - n;
      GapsTrail(pieces[..k - 1]);
      assert pieces[..k - 1][..j] == pieces[..j];
      RunNeedsWidth(m, pieces, j, n);
      WordsStand(m, pieces, j);
      var st := AddPieces(m, EMPTY, pieces[..j]);
      NextWordStands(m, st, pieces[..j], n, piece);
      AddPiecesSplit(m, EMPTY, pieces[..j], Gaps(n));
      assert pieces[..k] == pieces[..j] + Gaps(n) + [piece];
      OnePieceMore(m, EMPTY, pieces[..j] + Gaps(n), piece);
      SpillsSplit(m, pieces, j, n);
    }
  }

  lemma ShowsAt(m: Measure, pieces: seq<string>, i: nat)
    requires Showing(m, pieces) && i < |pieces| && pieces[i] != " "
    ensures Wordy(pieces[i]) && Visible(m, pieces[i]) <= m.width
  {
    hide Wordy, Visible;
    assert pieces[i] in pieces;
  }

  lemma OnePieceMore(m: Measure, st: State, front: seq<string>, piece: string)
    ensures AddPieces(m, st, front + [piece]) == AddPiece(m, AddPieces(m, st, front), piece)
  {
    hide AddPiece;
    assert (front + [piece])[..|front|] == front;
  }

  lemma RunNeedsWidth(m: Measure, pieces: seq<string>, j: nat, n: nat)
    requires Showing(m, pieces) && j + n <= |pieces| && pieces[..j + n] == pieces[..j] + Gaps(n)
    ensures n > 0 ==> m.width > 0
  {
    if n > 0 {
      assert pieces[..j + n][j] == " ";
      assert pieces[j] in pieces;
    }
  }

  /** No word is inside the run, so only its end can spill. */
  lemma SpillsSplit(m: Measure, pieces: seq<string>, j: nat, n: nat)
    requires j + n < |pieces| && pieces[..j + n] == pieces[..j] + Gaps(n) && n == TrailingGaps(pieces[..j + n])
    requires pieces[j + n] != " "
    ensures (exists i: nat :: i < j + n + 1 && Spills(m, pieces, i))
            <==> || (exists i: nat :: i < j && Spills(m, pieces, i))
                 || AddPieces(m, EMPTY, pieces[..j]).used + n + Visible(m, pieces[j + n])
                    > if Bare(m, pieces[..j]) then m.width else 2 * m.width + 1
  {
    hide Bare, AddPieces, TrailingGaps;
    var far := AddPieces(m, EMPTY, pieces[..j]).used + n;
    assert Spills(m, pieces, j + n)
      <==> far + Visible(m, pieces[j + n]) > if Bare(m, pieces[..j]) then m.width else 2 * m.width + 1;
    forall i: nat | j <= i < j + n ensures !Spills(m, pieces, i) {
      assert pieces[i] == pieces[..j + n][i] == Gaps(n)[i - j];
    }
  }

  /** A line of words that fit, with any runs of spaces between, before and
      after them, shows a blank row if and only if one of the runs spills. */
  lemma BlankRowsExactly(m: Measure, line: string)
    requires Usual(m) && Showing(m, Pieces(line))
    ensures HasBlank(WrapLine(m, line))
            <==> exists k: nat :: k <= |Pieces(line)| && Spills(m, Pieces(line), k)
  {
    hide Pieces, HasBlank, HasSolid, TrimEnd, AddPiece, TrailingGaps, Spills, Wordy, Visible;
    var pieces := Pieces(line);
    var n := TrailingGaps(pieces);
    var j := |pieces| - n;
    GapsTrail(pieces);
    assert pieces[..|pieces|] == pieces;
    RunNeedsWidth(m, pieces, j, n);
    WordsStand(m, pieces, j);
    AddPiecesSplit(m, EMPTY, pieces[..j], Gaps(n));
    EndStands(m, AddPieces(m, EMPTY, pieces[..j]), pieces[..j], n);
    EndSpills(m, pieces, j, n);
  }

  lemma EndStands(m: Measure, st: State, front: seq<string>, n: nat)
    requires Usual(m) && Stands(m, st, front) && (n > 0 ==> m.width > 0)
    ensures HasBlank(EndRow(AddPieces(m, st, Gaps(n)), true).done)
            <==> HasBlank(st.done) || Bare(m, front) || st.used + n > m.width + 1
  {
    hide AddPieces, HasBlank, HasSolid, TrimEnd, AllSpaces;
    var mid := AddPieces(m, st, Gaps(n));
    BlankAdded(mid.done, Row(mid.row, true));
    SolidAndSpaces(mid);
    if Bare(m, front) {
      RunOnBareRow(m, st, n);
    } else {
      RunAfterWord(m, st, n);
    }
  }

  lemma EndSpills(m: Measure, pieces: seq<string>, j: nat, n: nat)
    requires j + n == |pieces| && pieces == pieces[..j] + Gaps(n) && n == TrailingGaps(pieces)
    ensures (exists k: nat :: k <= |pieces| && Spills(m, pieces, k))
            <==> || (exists k: nat :: k < j && Spills(m, pieces, k))
                 || Bare(m, pieces[..j]) || AddPieces(m, EMPTY, pieces[..j]).used + n > m.width + 1
  {
    assert pieces[..|pieces|] == pieces;
    assert forall i :: j <= i < j + n ==> pieces[i] == Gaps(n)[i - j];
    assert Spills(m, pieces, |pieces|)
      <==> Bare(m, pieces[..j]) || AddPieces(m, EMPTY, pieces[..j]).used + n > m.width + 1;
  }

  /** Word `i` brims, and the next one takes a whole row. */
  ghost predicate Blanks(m: Measure, pieces: seq<string>, i: int) {
    0 <= i && i + 1 < |pieces| && Brimming(m, pieces[i]) && Visible(m, pieces[i + 1]) == m.width
  }

  lemma NoGapsTrail(pieces: seq<string>, k: nat)
    requires SingleSpaced(pieces) && k <= |pieces|
    ensures TrailingGaps(pieces[..k]) == 0 && pieces[..k - TrailingGaps(pieces[..k])] == pieces[..k]
    ensures SingleSpaced(pieces[..k]) && (k < |pieces| ==> pieces[k] != " ")
  {
    if k > 0 {
      assert pieces[k - 1] in pieces;
    }
    if k < |pieces| {
      assert pieces[k] in pieces;
    }
  }

  lemma SpillsSingleSpaced(m: Measure, pieces: seq<string>, k: nat)
    requires Usual(m) && Showing(m, pieces) && SingleSpaced(pieces) && k <= |pieces| && pieces != []
    ensures Spills(m, pieces, k)
            <==> k > 0 && Brimming(m, pieces[k - 1]) && (k == |pieces| || Visible(m, pieces[k]) == m.width)
  {
    hide AddPieces, HasBlank, HasSolid, Wordy, Brimming, TrailingGaps;
    NoGapsTrail(pieces, k);
    if k > 0 {
      assert pieces[k - 1] in pieces;
    }
    WordsStand(m, pieces, k);
    if k < |pieces| {
      assert pieces[k] in pieces;
    }
    if k > 0 && Brimming(m, pieces[k - 1]) {
      BrimmedAt(m, pieces, k);
    }
    assert k == 0 ==> AddPieces(m, EMPTY, pieces[..k]) == EMPTY by {
      NoCosts(m);
    }
  }

  lemma BrimmedAt(m: Measure, pieces: seq<string>, k: nat)
    requires Usual(m) && Showing(m, pieces) && SingleSpaced(pieces) && 0 < k <= |pieces| && Brimming(m, pieces[k - 1])
    ensures AddPieces(m, EMPTY, pieces[..k]).used == 1
  {
    var front, piece := pieces[..k - 1], pieces[k - 1];
    assert piece in pieces && pieces[..k][..k - 1] == front;
    PiecesCounted(m, front);
    BrimmingFills(m, AddPieces(m, EMPTY, front), piece);
  }

  /** In a single-spaced line that is when a word brims and ends the line, or is
      followed by one that takes a whole row. */
  lemma BlankRowsSingleSpaced(m: Measure, line: string)
    requires Usual(m) && line != "" && Showing(m, Pieces(line)) && SingleSpaced(Pieces(line))
    ensures var pieces := Pieces(line);
            HasBlank(WrapLine(m, line))
            <==> Brimming(m, pieces[|pieces| - 1]) || exists i :: Blanks(m, pieces, i)
  {
    hide Pieces, HasBlank, Showing, SingleSpaced, Spills, WrapLine, Brimming, Visible;
    var pieces := Pieces(line);
    BlankRowsExactly(m, line);
    forall k: nat | k <= |pieces|
      ensures Spills(m, pieces, k)
              <==> k > 0 && Brimming(m, pieces[k - 1]) && (k == |pieces| || Visible(m, pieces[k]) == m.width)
    {
      SpillsSingleSpaced(m, pieces, k);
    }
    assert Spills(m, pieces, |pieces|) <==> Brimming(m, pieces[|pieces| - 1]);
    forall k: nat | k < |pieces|
      ensures Spills(m, pieces, k) <==> Blanks(m, pieces, k - 1)
    {
    }
    assert forall i :: Blanks(m, pieces, i) ==> Spills(m, pieces, i + 1);
  }

  // ---------------------------------------------- Two words, and one, exactly

  lemma {:induction false} PiecesOfGaps(n: nat, word: string)
    requires word != "" && ' ' !in word
    ensures Pieces(Spaces(n) + word) == Gaps(n) + [word]
  {
    if n == 0 {
      assert Spaces(0) + word == word && Gaps(0) + [word] == [word];
      ForthFrom(Space, word, 0, |word|);
    } else {
      var line := Spaces(n) + word;
      ForthFrom(Space, line, 0, 0);
      assert line[..1] == " " && line[1..] == Spaces(n - 1) + word;
      PiecesOfGaps(n - 1, word);
      assert Gaps(n) + [word] == [" "] + (Gaps(n - 1) + [word]);
    }
  }

  lemma {:induction false} PiecesOfSpaces(n: nat)
    ensures Pieces(Spaces(n)) == Gaps(n)
  {
    if n > 0 {
      var line := Spaces(n);
      ForthFrom(Space, line, 0, 0);
      assert line[..1] == " " && line[1..] == Spaces(n - 1);
      PiecesOfSpaces(n - 1);
      assert Gaps(n) == [" "] + Gaps(n - 1);
    }
  }

  /** A word, the space after it, and then the rest. */
  lemma PiecesOfWord(word: string, rest: string)
    requires word != "" && ' ' !in word
    ensures Pieces(word + " " + rest) == [word + " "] + Pieces(rest)
  {
    var line := word + " " + rest;
    ForthFrom(Space, line, 0, |word|);
    assert line[..|word| + 1] == word + " " && line[|word| + 1..] == rest;
  }

  lemma WordAndSpace(m: Measure, word: string)
    requires Usual(m) && word != "" && ' ' !in word
    ensures TrimSpaces(word) == word && TrimSpaces(word + " ") == word
    ensures Visible(m, word + " ") == Width(m, word) == Visible(m, word)
    ensures Width(m, word + " ") == Width(m, word) + 1
    ensures Piece(word) && Piece(word + " ")
  {
    assert word[|word| - 1] in word;
    assert (word + " ")[..|word|] == word;
    assert forall i :: 0 <= i < |word| ==> word[i] in word;
  }

  /** A word that fits and holds no space. */
  ghost predicate Word(m: Measure, word: string) {
    word != "" && ' ' !in word && HasSolid(word) && Width(m, word) <= m.width
  }

  lemma WordFacts(m: Measure, word: string)
    requires Usual(m) && Word(m, word)
    ensures Wordy(word) && TrimSpaces(word) != "" && Visible(m, word) == Width(m, word) <= m.width
    ensures !Brimming(m, word) && word != "" && HasSolid(word)
  {
    WordAndSpace(m, word);
  }

  lemma WordAlone(m: Measure, word: string)
    requires Usual(m) && Word(m, word)
    ensures Width(m, word) == m.width ==> AddPiece(m, EMPTY, word + " ") == State([Row(word, false)], " ", 1)
    ensures Width(m, word) < m.width ==> AddPiece(m, EMPTY, word + " ") == State([], word + " ", Width(m, word) + 1)
  {
    hide Width, HasSolid, TrimSpaces, AddChars;
    WordAndSpace(m, word);
    NothingWide(m);
    if Width(m, word) == m.width {
      hide AddPiece;
      BrimmingFills(m, EMPTY, word + " ");
      assert "" + word == word;
      assert [] + [Row(word, false)] == [Row(word, false)];
    } else {
      assert "" + (word + " ") == word + " ";
    }
  }

  lemma NothingWide(m: Measure)
    ensures Counted(m, EMPTY) && Flushed(m, EMPTY, "") == EMPTY
  {
    NoWidth(m);
  }

  /** The column the first word ends at, the space after it counted, from the
      start of the row which that space is on. */
  ghost function FirstUsed(m: Measure, word: string): nat {
    if Width(m, word) == m.width then 1 else Width(m, word) + 1
  }

  /** Where the wrapping stands after the first word and its space. */
  lemma FirstWord(m: Measure, word: string)
    requires Usual(m) && Word(m, word)
    ensures var st := AddPieces(m, EMPTY, [word + " "]);
            && st.used == FirstUsed(m, word) && Tight(m, st) && Counted(m, st)
            && (if Width(m, word) == m.width then AllSpaces(st) && |st.done| == 1
                else HasSolid(st.row) && |st.done| == 0)
            && !HasBlank(st.done)
  {
    hide AddPieces, AddPiece, Width, HasBlank, Counted, HasSolid, Spaces;
    PiecesCounted(m, [word + " "]);
    OnePieceMore(m, EMPTY, [], word + " ");
    assert [] + [word + " "] == [word + " "];
    NoCosts(m);
    WordAlone(m, word);
    NoBlankYet(word);
    WordFollowed(word);
    GapAfterSpaces(0);
  }

  lemma WordFollowed(word: string)
    requires HasSolid(word)
    ensures HasSolid(word + " ") && word != ""
  {
    SolidStays("", word, " ");
  }

  lemma NoBlankYet(word: string)
    requires HasSolid(word)
    ensures !HasBlank([]) && !HasBlank([Row(word, false)])
  {
    RowShows(word);
    BlankAdded([], Row(word, false));
    assert [] + [Row(word, false)] == [Row(word, false)];
  }

  lemma PiecesOfTwo(first: string, n: nat, second: string)
    requires first != "" && ' ' !in first && second != "" && ' ' !in second
    ensures Pieces(first + Spaces(n + 1) + second) == [first + " "] + Gaps(n) + [second]
  {
    assert first + Spaces(n + 1) + second == first + " " + (Spaces(n) + second);
    PiecesOfWord(first, Spaces(n) + second);
    PiecesOfGaps(n, second);
    assert [first + " "] + Gaps(n) + [second] == [first + " "] + (Gaps(n) + [second]);
  }

  lemma PiecesOfOne(word: string, n: nat)
    requires word != "" && ' ' !in word
    ensures Pieces(word + Spaces(n + 1)) == [word + " "] + Gaps(n)
  {
    assert word + Spaces(n + 1) == word + " " + Spaces(n);
    PiecesOfWord(word, Spaces(n));
    PiecesOfSpaces(n);
  }

  lemma {:induction false} HangingRow(m: Measure, first: string, gaps: nat)
    requires Usual(m) && first != "" && ' ' !in first
    ensures RowWidth(m, [first + " "] + Gaps(gaps)) == Width(m, first)
    ensures Width(m, Concat([first + " "] + Gaps(gaps))) == Width(m, first) + 1 + gaps
  {
    WordAndSpace(m, first);
    if gaps == 0 {
      assert [first + " "] + Gaps(0) == [first + " "];
      ConcatOne(first + " ");
    } else {
      HangingRow(m, first, gaps - 1);
      var row := [first + " "] + Gaps(gaps - 1);
      assert [first + " "] + Gaps(gaps) == row + [" "];
      ConcatPair(m, row, " ");
      assert (Concat(row) + " ")[..|Concat(row)|] == Concat(row);
      OneSpaceWide(m);
    }
  }

  lemma OneRowLayout(m: Measure, row: seq<string>)
    requires row != [] && RowWidth(m, row) <= m.width
    ensures Layout(m, row, [row])
  {
    hide RowWidth;
    FlattenLast([], row);
    assert [] + [row] == [row] && [] + row == row;
  }

  /** The first word with its spaces hanging, and the second below it. */
  lemma TwoRowLayout(m: Measure, first: string, gaps: nat, second: string)
    requires Usual(m) && Word(m, first) && Word(m, second)
    ensures Layout(m, [first + " "] + Gaps(gaps) + [second], [[first + " "] + Gaps(gaps), [second]])
  {
    hide *;
    var row := [first + " "] + Gaps(gaps);
    WordFacts(m, second);
    FirstHangs(m, first, gaps);
    OneRowLayout(m, row);
    OnNewRow(m, row, [row], second);
    assert [row] + [[second]] == [row, [second]];
  }

  /** Only a layout of one row is smaller, and there all spaces count. */
  lemma OneRowHolds(m: Measure, row: seq<string>, second: string, rows: seq<seq<string>>)
    requires Usual(m) && TrimSpaces(second) != "" && Layout(m, row + [second], rows)
    ensures rows != []
    ensures |rows| == 1 ==> Width(m, Concat(row)) + Visible(m, second) <= m.width
  {
    ConcatPair(m, row, second);
    hide Width, Concat, RowWidth, TrimSpaces;
    assert |rows| == 1 ==> [] + [rows[0]] == rows && rows[0] in rows && [] + rows[0] == rows[0];
    FlattenLast([], if rows == [] then [] else rows[0]);
  }

  /** The fewest rows two words take, with their spaces between them. */
  ghost function TwoRows(m: Measure, far: nat): nat { if far > m.width then 2 else 1 }

  lemma TwoWordsNeed(m: Measure, first: string, gaps: nat, second: string, rows: seq<seq<string>>)
    requires Usual(m) && Word(m, first) && Word(m, second)
    requires Layout(m, [first + " "] + Gaps(gaps) + [second], rows)
    ensures |rows| >= TwoRows(m, Width(m, first) + 1 + gaps + Width(m, second))
  {
    hide *;
    WordFacts(m, second);
    FirstHangs(m, first, gaps);
    SpillsTwoRows(m, Width(m, first) + 1 + gaps + Width(m, second));
    OneRowHolds(m, [first + " "] + Gaps(gaps), second, rows);
  }

  lemma FirstEnds(m: Measure, word: string)
    requires Word(m, word)
    ensures FirstUsed(m, word) == if Width(m, word) == m.width then 1 else Width(m, word) + 1
    ensures Width(m, word) <= m.width && (Brimming(m, word + " ") ==> Width(m, word + " ") > m.width)
  {
    hide Width;
  }

  lemma SpillsTwoRows(m: Measure, far: nat)
    ensures TwoRows(m, far) == if far > m.width then 2 else 1
  {
  }

  /** What the wrapping makes of the two words. */
  lemma TwoWordsWrapped(m: Measure, line: string, first: string, n: nat, second: string)
    requires Usual(m) && 0 < m.width && Word(m, first) && Word(m, second)
    requires Pieces(line) == [first + " "] + Gaps(n) + [second]
    ensures var far := Width(m, first) + 1 + n + Width(m, second);
            var wasteful := far > 2 * m.width + if Width(m, first) == m.width then 0 else 1;
            && |WrapLine(m, line)| >= TwoRows(m, far)
            && (wasteful <==> |WrapLine(m, line)| > TwoRows(m, far))
            && (wasteful <==> HasBlank(WrapLine(m, line)))
  {
    hide *;
    WordFacts(m, second);
    FirstWord(m, first);
    FirstEnds(m, first);
    SpillsTwoRows(m, Width(m, first) + 1 + n + Width(m, second));
    var st := AddPieces(m, EMPTY, [first + " "]);
    if Width(m, first) == m.width {
      BareRunCostsExactly(m, st, n, second);
    } else {
      RunCostsExactly(m, st, n, second);
    }
    LineOf(m, line, [first + " "], n, second);
  }

  /** Two words with any number of spaces between them take more rows than they
      need, and show a blank row, if and only if words and spaces together go
      beyond the second row: its last column when the first word fills its row,
      else one space further, the one that hangs. */
  lemma TwoWordsExactly(m: Measure, first: string, spaces: nat, second: string)
    requires Usual(m) && first != "" && ' ' !in first && second != "" && ' ' !in second && spaces > 0
    requires HasSolid(first) && HasSolid(second)
    requires 0 < m.width && Width(m, first) <= m.width && Width(m, second) <= m.width
    ensures var line := first + Spaces(spaces) + second;
            var far := Width(m, first) + spaces + Width(m, second);
            var wasteful := far > 2 * m.width + if Width(m, first) == m.width then 0 else 1;
            && (wasteful <==> exists rows :: Layout(m, Pieces(line), rows) && |rows| < |WrapLine(m, line)|)
            && (wasteful <==> HasBlank(WrapLine(m, line)))
  {
    hide Pieces, Width, HasBlank, HasSolid, Layout, Gaps, WrapLine, Spaces, TwoRows;
    var n := spaces - 1;
    var line := first + Spaces(spaces) + second;
    PiecesOfTwo(first, n, second);
    TwoWordsWrapped(m, line, first, n, second);
    TwoWordsLeast(m, first, n, second);
  }

  lemma TwoWordsLeast(m: Measure, first: string, n: nat, second: string)
    requires Usual(m) && 0 < m.width && Word(m, first) && Word(m, second)
    ensures var pieces, least := [first + " "] + Gaps(n) + [second],
                                 TwoRows(m, Width(m, first) + 1 + n + Width(m, second));
            && (forall rows :: Layout(m, pieces, rows) ==> |rows| >= least)
            && exists rows :: Layout(m, pieces, rows) && |rows| == least
  {
    hide *;
    forall rows | Layout(m, [first + " "] + Gaps(n) + [second], rows)
      ensures |rows| >= TwoRows(m, Width(m, first) + 1 + n + Width(m, second))
    {
      TwoWordsNeed(m, first, n, second, rows);
    }
    SpillsTwoRows(m, Width(m, first) + 1 + n + Width(m, second));
    if Width(m, first) + 1 + n + Width(m, second) > m.width {
      TwoRowLayout(m, first, n, second);
    } else {
      AllOnOneRow(m, first, n, second);
    }
  }

  lemma AllOnOneRow(m: Measure, first: string, n: nat, second: string)
    requires Usual(m) && Word(m, first) && Word(m, second)
    requires Width(m, first) + 1 + n + Width(m, second) <= m.width
    ensures var pieces := [first + " "] + Gaps(n) + [second]; Layout(m, pieces, [pieces])
  {
    hide *;
    WordFacts(m, first);
    WordFacts(m, second);
    FirstHangs(m, first, n);
    ConcatPair(m, [first + " "] + Gaps(n), second);
    OneRowLayout(m, [first + " "] + Gaps(n) + [second]);
  }

  lemma FirstHangs(m: Measure, first: string, gaps: nat)
    requires Usual(m) && Word(m, first)
    ensures RowWidth(m, [first + " "] + Gaps(gaps)) == Width(m, first) <= m.width
    ensures Width(m, Concat([first + " "] + Gaps(gaps))) == Width(m, first) + 1 + gaps
  {
    hide Width, Concat, RowWidth, HasSolid;
    HangingRow(m, first, gaps);
  }

  /** The whole line, when its last word does not brim. */
  lemma LineOf(m: Measure, line: string, front: seq<string>, n: nat, piece: string)
    requires Usual(m) && m.width > 0 && Pieces(line) == front + Gaps(n) + [piece]
    requires Tight(m, AddPieces(m, EMPTY, front)) && Counted(m, AddPieces(m, EMPTY, front))
    requires Wordy(piece) && Width(m, piece) <= m.width && Visible(m, piece) <= m.width
    ensures var after := AddPiece(m, AddPieces(m, AddPieces(m, EMPTY, front), Gaps(n)), piece);
            && |WrapLine(m, line)| == |after.done| + 1
            && (HasBlank(WrapLine(m, line)) <==> HasBlank(after.done))
  {
    var st := AddPieces(m, EMPTY, front);
    var pieces := front + Gaps(n) + [piece];
    assert AddPieces(m, EMPTY, pieces) == AddPiece(m, AddPieces(m, EMPTY, front + Gaps(n)), piece) by {
      assert pieces[..|pieces| - 1] == front + Gaps(n);
    }
    hide AddPieces, AddPiece, HasBlank, HasSolid, Wordy, Pieces, Width;
    AddPiecesSplit(m, EMPTY, front, Gaps(n));
    var mid := AddPieces(m, st, Gaps(n));
    GapsPlaced(m, st, n);
    RunCounted(m, st, n);
    WordPlaced(m, mid, piece);
    var after := AddPiece(m, mid, piece);
    SolidAndSpaces(after);
    BlankAdded(after.done, Row(after.row, true));
  }

  /** One word and the spaces behind it take one row, and show no blank one, if
      and only if they all fit, one space hanging if the word leaves room. */
  lemma OneWordExactly(m: Measure, word: string, spaces: nat)
    requires Usual(m) && word != "" && ' ' !in word && HasSolid(word) && 0 < m.width && Width(m, word) <= m.width
    ensures var line := word + Spaces(spaces);
            var fits := spaces == 0 || Width(m, word) + spaces <= m.width + if Width(m, word) == m.width then 0 else 1;
            && Layout(m, Pieces(line), [Pieces(line)])
            && (fits <==> |WrapLine(m, line)| == 1)
            && (fits <==> !HasBlank(WrapLine(m, line)))
  {
    hide Width, Layout, Pieces, WrapLine, HasBlank, HasSolid, Spaces, Gaps;
    if spaces == 0 {
      assert word + Spaces(0) == word;
      OneBareWord(m, word);
    } else {
      PiecesOfOne(word, spaces - 1);
      OneWordLaid(m, word, spaces - 1);
      OneWordAndSpaces(m, word + Spaces(spaces), word, spaces - 1);
    }
  }

  lemma OneBareWord(m: Measure, word: string)
    requires Usual(m) && 0 < m.width && Word(m, word)
    ensures Layout(m, Pieces(word), [Pieces(word)])
    ensures |WrapLine(m, word)| == 1 && !HasBlank(WrapLine(m, word))
  {
    ForthFrom(Space, word, 0, |word|);
    assert [] + Gaps(0) + [word] == [word] == Pieces(word);
    WordAndSpace(m, word);
    NoCosts(m);
    PiecesCounted(m, []);
    LineOf(m, word, [], 0, word);
    assert AddPieces(m, EMPTY, Gaps(0)) == EMPTY;
    NoBlankYet(word);
    PieceRow(m, word);
    hide Width, HasBlank, HasSolid, TrimSpaces, RowWidth, AddPieces, WrapLine, Pieces;
    OneRowLayout(m, [word]);
  }

  lemma OneWordLaid(m: Measure, word: string, n: nat)
    requires Usual(m) && Word(m, word)
    ensures Layout(m, [word + " "] + Gaps(n), [[word + " "] + Gaps(n)])
  {
    hide *;
    FirstHangs(m, word, n);
    OneRowLayout(m, [word + " "] + Gaps(n));
  }

  lemma OneWordAndSpaces(m: Measure, line: string, word: string, n: nat)
    requires Usual(m) && 0 < m.width && Word(m, word)
    requires Pieces(line) == [word + " "] + Gaps(n)
    ensures var fits := Width(m, word) + n + 1 <= m.width + if Width(m, word) == m.width then 0 else 1;
            && (fits <==> |WrapLine(m, line)| == 1)
            && (fits <==> !HasBlank(WrapLine(m, line)))
  {
    hide Pieces, Width, HasBlank, HasSolid, AddPieces, AddPiece, Gaps, TrimEnd, AllSpaces, Tight;
    var st := AddPieces(m, EMPTY, [word + " "]);
    FirstWord(m, word);
    AddPiecesSplit(m, EMPTY, [word + " "], Gaps(n));
    var mid := AddPieces(m, st, Gaps(n));
    SolidAndSpaces(mid);
    BlankAdded(mid.done, Row(mid.row, true));
    if Width(m, word) == m.width {
      RunOnBareRow(m, st, n);
    } else {
      RunAfterWord(m, st, n);
    }
  }

  // ------------------------------------------------------ Wasted rows, shown

  function Columns(width: nat): Measure { Measure(c => 1, width) }

  lemma {:induction false} EveryColumn(width: nat, s: string)
    ensures Width(Columns(width), s) == |s|
  {
    if s != "" {
      EveryColumn(width, s[..|s| - 1]);
    }
  }

  /** Three columns: "abc xyz" fits on two rows and is given more, one blank. */
  lemma BrimmingWastesARow()
    ensures HasBlank(WrapLine(Columns(3), "abc xyz"))
    ensures exists rows :: Layout(Columns(3), Pieces("abc xyz"), rows) && |rows| < |WrapLine(Columns(3), "abc xyz")|
  {
    hide Width, HasBlank, Layout, Pieces, WrapLine;
    EveryColumn(3, "abc");
    EveryColumn(3, "xyz");
    assert "abc"[0] in "abc" && "xyz"[0] in "xyz";
    assert "abc" + Spaces(1) + "xyz" == "abc xyz";
    TwoWordsExactly(Columns(3), "abc", 1, "xyz");
  }

  /** Four columns: so is a word of three, five spaces, and a word of four. */
  lemma RunWastesARow()
    ensures HasBlank(WrapLine(Columns(4), "abc     efgh"))
    ensures exists rows ::
              Layout(Columns(4), Pieces("abc     efgh"), rows) && |rows| < |WrapLine(Columns(4), "abc     efgh")|
  {
    hide Width, HasBlank, Layout, Pieces, WrapLine;
    EveryColumn(4, "abc");
    EveryColumn(4, "efgh");
    assert "abc"[0] in "abc" && "efgh"[0] in "efgh";
    assert "abc" + Spaces(5) + "efgh" == "abc     efgh";
    TwoWordsExactly(Columns(4), "abc", 5, "efgh");
  }
}
