/** How many rows wrapping a line takes, against every other way of laying its
    words out in order. */
module FewestRows {
  import opened InputLine
  import opened Wrapping

  /** The columns a row of pieces takes: the spaces at its end hang. */
  function RowWidth(m: Measure, row: seq<string>): nat { Visible(m, Concat(row)) }

  function Flatten(rows: seq<seq<string>>): seq<string> {
    if rows == [] then [] else Flatten(rows[..|rows| - 1]) + rows[|rows| - 1]
  }

  /** A way of laying out `pieces` in order, in rows that fit. */
  ghost predicate Layout(m: Measure, pieces: seq<string>, rows: seq<seq<string>>) {
    && Flatten(rows) == pieces
    && forall row :: row in rows ==> row != [] && RowWidth(m, row) <= m.width
  }

  /** A word that fits with a space after it that does not. */
  ghost predicate Brimming(m: Measure, piece: string) { Width(m, piece) > m.width }

  ghost function Brimmings(m: Measure, pieces: seq<string>): nat {
    if pieces == [] then 0
    else Brimmings(m, pieces[..|pieces| - 1]) + if Brimming(m, pieces[|pieces| - 1]) then 1 else 0
  }

  ghost predicate Fitting(m: Measure, pieces: seq<string>) {
    forall p :: p in pieces ==> Piece(p) && Visible(m, p) <= m.width
  }

  lemma FlattenLast(rows: seq<seq<string>>, row: seq<string>)
    ensures Flatten(rows + [row]) == Flatten(rows) + row
  {
    assert (rows + [row])[..|rows|] == rows;
  }

  /** A layout without its last piece: one row less, or the last row shorter. */
  lemma LayoutFront(m: Measure, pieces: seq<string>, rows: seq<seq<string>>) returns (less: seq<seq<string>>)
    requires Usual(m) && pieces != [] && Layout(m, pieces, rows)
    ensures rows != [] && Layout(m, pieces[..|pieces| - 1], less)
    ensures var last := rows[|rows| - 1];
            && last != [] && last[|last| - 1] == pieces[|pieces| - 1]
            && (if |last| == 1 then less == rows[..|rows| - 1]
                else less == rows[..|rows| - 1] + [last[..|last| - 1]])
  {
    hide RowWidth;
    var front, last := rows[..|rows| - 1], rows[|rows| - 1];
    assert last in rows;
    assert pieces == Flatten(front) + last;
    assert forall row :: row in front ==> row in rows;
    var shorter := last[..|last| - 1];
    if |last| == 1 {
      less := front;
      assert Flatten(front) == pieces[..|pieces| - 1];
    } else {
      less := front + [shorter];
      FlattenLast(front, shorter);
      assert Flatten(front) + shorter == pieces[..|pieces| - 1];
      ShorterFits(m, last);
    }
  }

  /** Visible columns never get fewer as a row goes on. */
  lemma {:induction false} VisibleGrows(m: Measure, s: string, more: string)
    requires Usual(m)
    ensures Visible(m, s) <= Visible(m, s + more)
  {
    if more == "" {
      assert s + more == s;
    } else {
      var front := more[..|more| - 1];
      VisibleGrows(m, s, front);
      assert (s + more)[..|s + more| - 1] == s + front;
      WidthOfTrimmed(m, s + front);
    }
  }

  lemma ShorterFits(m: Measure, row: seq<string>)
    requires Usual(m) && row != []
    ensures RowWidth(m, row[..|row| - 1]) <= RowWidth(m, row)
  {
    VisibleGrows(m, Concat(row[..|row| - 1]), row[|row| - 1]);
  }

  lemma {:induction false} WordInRow(m: Measure, st: State, word: string)
    requires st.used + Width(m, word) <= m.width
    ensures AddChars(m, st, word) == State(st.done, st.row + word, st.used + Width(m, word))
  {
    if word == "" {
      assert st.row + word == st.row;
    } else {
      var front := word[..|word| - 1];
      WordInRow(m, st, front);
      assert st.row + word == st.row + front + [word[|word| - 1]];
    }
  }

  /** A brimming word fills its row; its space starts the next. */
  lemma BrimmingFills(m: Measure, st: State, word: string)
    requires Usual(m) && Counted(m, st) && Piece(word) && Visible(m, word) <= m.width && Brimming(m, word)
    ensures var now := Flushed(m, st, word);
            AddPiece(m, st, word) == State(now.done + [Row(now.row + TrimSpaces(word), false)], " ", 1)
    ensures Visible(m, word) == m.width
  {
    var now := Flushed(m, st, word);
    FlushedEmpty(m, st, word);
    TrimmedPiece(m, word);
    var visible := TrimSpaces(word);
    WordInRow(m, now, visible);
    hide Width;
    assert word[..|word| - 1] == visible;
  }

  /** Where the wrapping stands against a layout: at most `bound` rows, and not
      further along in the last. */
  ghost predicate Within(m: Measure, st: State, bound: nat, last: seq<string>) {
    && st.row != "" && |st.done| + 1 <= bound
    && (|st.done| + 1 == bound ==> st.used <= Width(m, Concat(last)))
  }

  lemma {:induction false} TrimAfter(s: string, piece: string)
    requires TrimSpaces(piece) != ""
    ensures TrimSpaces(s + piece) == s + TrimSpaces(piece)
  {
    if piece[|piece| - 1] == ' ' {
      TrimAfter(s, piece[..|piece| - 1]);
      assert (s + piece)[..|s + piece| - 1] == s + piece[..|piece| - 1];
    }
  }

  lemma ConcatPair(m: Measure, row: seq<string>, piece: string)
    ensures Concat(row + [piece]) == Concat(row) + piece
    ensures Width(m, Concat(row + [piece])) == Width(m, Concat(row)) + Width(m, piece)
    ensures TrimSpaces(piece) != "" ==> RowWidth(m, row + [piece]) == Width(m, Concat(row)) + Visible(m, piece)
  {
    assert (row + [piece])[..|row|] == row;
    WidthSplit(m, Concat(row), piece);
    if TrimSpaces(piece) != "" {
      TrimAfter(Concat(row), piece);
      WidthSplit(m, Concat(row), TrimSpaces(piece));
    }
  }

  /** The piece goes on the row that the layout puts it on, or starts the next
      one when the layout is already a row further. */
  lemma SameRow(m: Measure, st: State, piece: string, bound: nat, row: seq<string>)
    requires Usual(m) && Counted(m, st) && Piece(piece)
    requires Within(m, st, bound, row) && RowWidth(m, row + [piece]) <= m.width && TrimSpaces(piece) != ""
    ensures Within(m, AddPiece(m, st, piece), bound + if Brimming(m, piece) then 1 else 0, row + [piece])
  {
    ConcatPair(m, row, piece);
    TrimmedPiece(m, piece);
    if Brimming(m, piece) {
      BrimmingFills(m, st, piece);
    }
    hide Width, Concat, TrimSpaces, RowWidth;
  }

  lemma NextRow(m: Measure, st: State, piece: string, bound: nat, row: seq<string>)
    requires Usual(m) && Counted(m, st) && Piece(piece) && Visible(m, piece) <= m.width
    requires Within(m, st, bound, row) || (st == EMPTY && bound == 0)
    ensures Within(m, AddPiece(m, st, piece), bound + 1 + if Brimming(m, piece) then 1 else 0, [piece])
  {
    ConcatOne(piece);
    TrimmedPiece(m, piece);
    if Brimming(m, piece) {
      BrimmingFills(m, st, piece);
    }
    hide Width, Concat, TrimSpaces;
  }

  lemma SomePieces(m: Measure, pieces: seq<string>, rows: seq<seq<string>>)
    requires Layout(m, pieces, rows) && rows != []
    ensures pieces != []
  {
    assert rows[|rows| - 1] in rows;
  }

  // ------------------------------------------------------------ Runs of spaces

  /** Spaces beyond the one after a word are pieces of their own. */
  function Gaps(n: nat): (gaps: seq<string>)
    ensures |gaps| == n && forall i :: 0 <= i < n ==> gaps[i] == " "
  {
    seq(n, _ => " ")
  }

  function TrailingGaps(pieces: seq<string>): (n: nat)
    ensures n <= |pieces|
  {
    if pieces == [] || pieces[|pieces| - 1] != " " then 0 else TrailingGaps(pieces[..|pieces| - 1]) + 1
  }

  lemma {:induction false} GapsTrail(pieces: seq<string>)
    ensures var n := TrailingGaps(pieces);
            && pieces == pieces[..|pieces| - n] + Gaps(n)
            && (n < |pieces| ==> pieces[|pieces| - n - 1] != " ")
            && (n > 0 ==> pieces[|pieces| - 1] == " ")
  {
    var n := TrailingGaps(pieces);
    if n > 0 {
      var front := pieces[..|pieces| - 1];
      GapsTrail(front);
      assert front[..|front| - (n - 1)] == pieces[..|pieces| - n];
      assert Gaps(n) == Gaps(n - 1) + [" "] && pieces == front + [" "];
    }
  }

  /** A run of `n` such spaces goes round the screen this often, or less. */
  function Rounds(m: Measure, n: nat): nat { (n + m.width) / (m.width + 1) }

  /** Of all the runs. */
  function RunCosts(m: Measure, pieces: seq<string>): nat {
    if pieces == [] then 0
    else
      var n := TrailingGaps(pieces);
      if n == 0 then RunCosts(m, pieces[..|pieces| - 1])
      else RunCosts(m, pieces[..|pieces| - n]) + Rounds(m, n)
  }

  /** One space after every word but perhaps the last, and none before the first. */
  ghost predicate SingleSpaced(pieces: seq<string>) { " " !in pieces }

  lemma {:induction false} SingleSpacedCostsNothing(m: Measure, pieces: seq<string>)
    requires SingleSpaced(pieces)
    ensures RunCosts(m, pieces) == 0
  {
    if pieces != [] {
      assert pieces[|pieces| - 1] in pieces;
      SingleSpacedCostsNothing(m, pieces[..|pieces| - 1]);
    }
  }

  lemma {:induction false} AddPiecesSplit(m: Measure, st: State, a: seq<string>, b: seq<string>)
    ensures AddPieces(m, st, a + b) == AddPieces(m, AddPieces(m, st, a), b)
  {
    hide AddPiece;
    if b == [] {
      assert a + b == a;
    } else {
      AddPiecesSplit(m, st, a, b[..|b| - 1]);
      assert (a + b)[..|a + b| - 1] == a + b[..|b| - 1];
    }
  }

  /** A row is full at the last column, or one space beyond it. */
  ghost predicate Tight(m: Measure, st: State) { st.used <= m.width + 1 && (st.row == "" ==> st.used == 0) }

  lemma {:induction false} PiecesTight(m: Measure, pieces: seq<string>)
    requires Usual(m) && Fitting(m, pieces)
    ensures Tight(m, AddPieces(m, EMPTY, pieces))
  {
    if pieces != [] {
      var front, piece := pieces[..|pieces| - 1], pieces[|pieces| - 1];
      assert piece in pieces && forall p :: p in front ==> p in pieces;
      PiecesTight(m, front);
      PiecesCounted(m, front);
      PieceTight(m, AddPieces(m, EMPTY, front), piece);
    }
  }

  lemma PieceTight(m: Measure, st: State, piece: string)
    requires Usual(m) && Tight(m, st) && Counted(m, st) && Piece(piece) && Visible(m, piece) <= m.width
    ensures Tight(m, AddPiece(m, st, piece))
  {
    FlushedEmpty(m, st, piece);
    TrimmedPiece(m, piece);
    NoWidth(m);
    if Brimming(m, piece) {
      BrimmingFills(m, st, piece);
    }
    hide Width, TrimSpaces;
  }

  lemma GapPlaced(m: Measure, st: State)
    requires Usual(m) && m.width > 0 && Tight(m, st)
    ensures AddPiece(m, st, " ")
            == if st.used > m.width then State(st.done + [Row(st.row, true)], " ", 1)
               else State(st.done, st.row + " ", st.used + 1)
  {
    assert TrimSpaces(" ") == "" && " "[..0] == "";
    assert Width(m, " ") == 1;
  }

  lemma GapAdvances(m: Measure, st: State)
    requires Usual(m) && m.width > 0 && Tight(m, st)
    ensures var next := AddPiece(m, st, " ");
            && Tight(m, next) && next.used > 0
            && |next.done| * (m.width + 1) + next.used == |st.done| * (m.width + 1) + st.used + 1
  {
    GapPlaced(m, st);
    hide AddPiece;
    AtMostTimes(|st.done|, 0, m.width + 1);
  }

  /** Each space of a run moves on by one column, to the next row after the last. */
  lemma {:induction false} GapsPlaced(m: Measure, st: State, n: nat)
    requires Usual(m) && m.width > 0 && Tight(m, st)
    ensures var mid := AddPieces(m, st, Gaps(n));
            && Tight(m, mid) && (n > 0 ==> mid.used > 0)
            && |mid.done| * (m.width + 1) + mid.used == |st.done| * (m.width + 1) + st.used + n
  {
    if n > 0 {
      hide AddPiece, Tight;
      assert Gaps(n)[..n - 1] == Gaps(n - 1) && Gaps(n)[n - 1] == " ";
      GapsPlaced(m, st, n - 1);
      GapAdvances(m, AddPieces(m, st, Gaps(n - 1)));
    }
  }

  lemma AtMostTimes(a: int, b: int, columns: nat)
    ensures a <= b ==> a * columns <= b * columns
    ensures (a + b) * columns == a * columns + b * columns
    ensures (a + 1) * columns == a * columns + columns
  {
    if a <= b {
      assert (b - a) * columns >= 0;
    }
  }

  /** Whoever moves on by `n` columns is at most so many rows further. */
  lemma RunArithmetic(columns: nat, done: nat, used: nat, done': nat, used': nat, bound: nat, n: nat, rounds: nat)
    requires columns > 0 && used <= columns && 0 < used' <= columns && done + 1 <= bound
    requires done' * columns + used' == done * columns + used + n
    requires n <= rounds * columns
    ensures done' + 1 <= bound + rounds
    ensures done' + 1 == bound + rounds ==> done + 1 == bound && used' <= used + n
  {
    AtMostTimes(done, rounds, columns);
    AtMostTimes(bound, rounds, columns);
    AtMostTimes(bound + rounds, done', columns);
    AtMostTimes(bound - 1, rounds, columns);
    AtMostTimes(done + 1, bound - 1, columns);
    AtMostTimes(done, bound - 1, columns);
    AtMostTimes(bound - 1, done, columns);
    Products(columns, done * columns, (done + 1) * columns, done' * columns, (bound - 1) * columns, bound * columns,
             rounds * columns, (bound + rounds) * columns, (bound - 1 + rounds) * columns, done, used, done', used',
             bound, n, rounds);
  }

  /** The same with every product named. */
  lemma Products(
    columns: int, d: int, dd: int, e: int, c: int, b: int, r: int, br: int, cr: int, done: int, used: int, done': int,
    used': int, bound: int, n: int, rounds: int)
    requires 0 < columns && 0 <= used <= columns && 0 < used' <= columns && done + 1 <= bound
    requires e + used' == d + used + n && 0 <= n <= r
    requires dd == d + columns && b == c + columns && br == b + r && cr == c + r
    requires bound + rounds <= done' ==> br <= e
    requires done + 1 <= bound - 1 ==> dd <= c
    requires done <= bound - 1 ==> d <= c
    requires done' == bound - 1 + rounds ==> e == cr
    requires done == bound - 1 ==> d == c
    ensures done' + 1 <= bound + rounds
    ensures done' + 1 == bound + rounds ==> done + 1 == bound && used' <= used + n
  {
  }

  lemma RoundsAreEnough(m: Measure, n: nat)
    ensures n <= Rounds(m, n) * (m.width + 1)
    ensures n > 0 ==> Rounds(m, n) > 0
  {
    var columns := m.width + 1;
    assert n + m.width == (n + m.width) / columns * columns + (n + m.width) % columns;
  }

  /** A layout without a run at its end: fewer rows, or a last row without it. */
  lemma {:induction false} LayoutTrim(m: Measure, front: seq<string>, n: nat, rows: seq<seq<string>>)
    returns (less: seq<seq<string>>)
    requires Usual(m) && Layout(m, front + Gaps(n), rows)
    ensures Layout(m, front, less) && |less| <= |rows|
    ensures less != [] && |less| == |rows| ==>
              Width(m, Concat(rows[|rows| - 1])) == Width(m, Concat(less[|less| - 1])) + n
  {
    hide Layout, Width, Concat, RowWidth, Flatten;
    if n == 0 {
      assert front + Gaps(0) == front;
      less := rows;
    } else {
      assert (front + Gaps(n))[..|front| + n - 1] == front + Gaps(n - 1);
      var shorter := LayoutFront(m, front + Gaps(n), rows);
      less := LayoutTrim(m, front, n - 1, shorter);
      var last := rows[|rows| - 1];
      if |last| > 1 {
        assert last == last[..|last| - 1] + [" "];
        ConcatPair(m, last[..|last| - 1], " ");
        OneSpaceWide(m);
      }
    }
  }

  lemma OneSpaceWide(m: Measure)
    requires Usual(m)
    ensures Width(m, " ") == 1
  {
    assert " "[..0] == "";
  }

  lemma RunOver(m: Measure, st: State, less: seq<seq<string>>, cost: nat, n: nat, rows: seq<seq<string>>)
    requires Usual(m) && m.width > 0 && Tight(m, st) && n > 0
    requires less == [] ==> st == EMPTY && cost == 0
    requires less != [] ==> Within(m, st, |less| + cost, less[|less| - 1])
    requires rows != [] && |less| <= |rows|
    requires less != [] && |less| == |rows| ==>
               Width(m, Concat(rows[|rows| - 1])) == Width(m, Concat(less[|less| - 1])) + n
    ensures Within(m, AddPieces(m, st, Gaps(n)), |rows| + cost + Rounds(m, n), rows[|rows| - 1])
  {
    hide AddPieces, Width, Concat, Rounds;
    var mid := AddPieces(m, st, Gaps(n));
    GapsPlaced(m, st, n);
    RoundsAreEnough(m, n);
    if less == [] {
      RunArithmetic(m.width + 1, 0, 0, |mid.done|, mid.used, 1, n, Rounds(m, n));
      RunFromNothing(m.width + 1, |mid.done|, mid.used, n, Rounds(m, n));
    } else {
      RunArithmetic(m.width + 1, |st.done|, st.used, |mid.done|, mid.used, |less| + cost, n, Rounds(m, n));
    }
  }

  lemma RunFromNothing(columns: nat, done: nat, used: nat, n: nat, rounds: nat)
    requires columns > 0 && used > 0 && done * columns + used == n <= rounds * columns
    ensures done < rounds
  {
    AtMostTimes(rounds, done, columns);
  }

  lemma {:induction false} GapsBrimNot(m: Measure, front: seq<string>, n: nat)
    requires Usual(m) && m.width > 0
    ensures Brimmings(m, front + Gaps(n)) == Brimmings(m, front)
  {
    if n == 0 {
      assert front + Gaps(0) == front;
    } else {
      GapsBrimNot(m, front, n - 1);
      assert (front + Gaps(n))[..|front| + n - 1] == front + Gaps(n - 1);
      OneSpaceWide(m);
      hide Width;
    }
  }

  lemma CountsRun(m: Measure, front: seq<string>, n: nat, less: seq<seq<string>>, rows: seq<seq<string>>)
    requires Usual(m) && m.width > 0 && Fitting(m, front) && n > 0 && rows != [] && |less| <= |rows|
    requires less == [] ==> front == []
    requires less != [] ==>
               Within(m, AddPieces(m, EMPTY, front), |less| + Brimmings(m, front) + RunCosts(m, front),
                      less[|less| - 1])
    requires less != [] && |less| == |rows| ==>
               Width(m, Concat(rows[|rows| - 1])) == Width(m, Concat(less[|less| - 1])) + n
    ensures Within(m, AddPieces(m, EMPTY, front + Gaps(n)),
                   |rows| + Brimmings(m, front + Gaps(n)) + RunCosts(m, front) + Rounds(m, n), rows[|rows| - 1])
  {
    hide Within, Width, Concat, Tight, Rounds, Fitting, AddPieces;
    PiecesTight(m, front);
    AddPiecesSplit(m, EMPTY, front, Gaps(n));
    GapsBrimNot(m, front, n);
    NoCosts(m);
    var cost := Brimmings(m, front) + RunCosts(m, front);
    hide Brimmings, RunCosts;
    RunOver(m, AddPieces(m, EMPTY, front), less, cost, n, rows);
  }

  /** Any layout takes as many rows as the wrapping, or fewer by at most one for
      each brimming word and each round of a run of spaces. */
  lemma {:induction false} Counts(m: Measure, pieces: seq<string>, rows: seq<seq<string>>)
    requires Usual(m) && Fitting(m, pieces) && pieces != [] && Layout(m, pieces, rows)
    requires m.width > 0 || SingleSpaced(pieces)
    ensures rows != []
    ensures Within(m, AddPieces(m, EMPTY, pieces), |rows| + Brimmings(m, pieces) + RunCosts(m, pieces),
                   rows[|rows| - 1])
    decreases |pieces|
  {
    hide Layout, AddPiece, AddPieces, Width, Concat, Within, Piece, Brimmings, TrailingGaps, Rounds;
    var n := TrailingGaps(pieces);
    var _ := LayoutFront(m, pieces, rows);
    GapsTrail(pieces);
    if n == 0 {
      CountsWord(m, pieces, rows);
    } else {
      var front := pieces[..|pieces| - n];
      assert forall p :: p in front ==> p in pieces;
      var less := LayoutTrim(m, front, n, rows);
      if front != [] {
        Counts(m, front, less);
      } else if less != [] {
        SomePieces(m, front, less);
      }
      CountsRun(m, front, n, less, rows);
    }
  }

  lemma NoCosts(m: Measure)
    ensures Brimmings(m, []) == 0 && RunCosts(m, []) == 0 && AddPieces(m, EMPTY, []) == EMPTY
  {
  }

  lemma {:induction false} CountsWord(m: Measure, pieces: seq<string>, rows: seq<seq<string>>)
    requires Usual(m) && Fitting(m, pieces) && pieces != [] && Layout(m, pieces, rows)
    requires m.width > 0 || SingleSpaced(pieces)
    requires TrailingGaps(pieces) == 0
    ensures rows != []
    ensures Within(m, AddPieces(m, EMPTY, pieces), |rows| + Brimmings(m, pieces) + RunCosts(m, pieces),
                   rows[|rows| - 1])
    decreases |pieces|, 0
  {
    hide Layout, AddPiece, Width, RowWidth, Concat, Within, Brimming;
    var front, piece := pieces[..|pieces| - 1], pieces[|pieces| - 1];
    var less := LayoutFront(m, pieces, rows);
    assert piece in pieces && forall p :: p in front ==> p in pieces;
    var last := rows[|rows| - 1];
    LastFits(m, pieces, rows);
    WordIsNoGap(piece);
    var cost := Brimmings(m, front) + RunCosts(m, front);
    assert RunCosts(m, pieces) == RunCosts(m, front);
    hide TrailingGaps, RunCosts;
    NoCosts(m);
    if front == [] {
      if less != [] {
        SomePieces(m, front, less);
      }
    } else {
      Counts(m, front, less);
    }
    PiecesCounted(m, front);
    if |last| == 1 {
      assert last == [piece];
    } else {
      assert last == less[|less| - 1] + [piece];
    }
    WordCounts(m, AddPieces(m, EMPTY, front), piece, less, cost, rows);
  }

  lemma WordCounts(
    m: Measure, st: State, piece: string, less: seq<seq<string>>, cost: nat, rows: seq<seq<string>>)
    requires Usual(m) && Counted(m, st) && Piece(piece) && TrimSpaces(piece) != "" && Visible(m, piece) <= m.width
    requires less == [] ==> st == EMPTY && cost == 0
    requires less != [] ==> Within(m, st, |less| + cost, less[|less| - 1])
    requires rows != [] && RowWidth(m, rows[|rows| - 1]) <= m.width
    requires (|rows| == |less| + 1 && rows[|rows| - 1] == [piece])
             || (less != [] && |rows| == |less| && rows[|rows| - 1] == less[|less| - 1] + [piece])
    ensures Within(m, AddPiece(m, st, piece), |rows| + cost + if Brimming(m, piece) then 1 else 0, rows[|rows| - 1])
  {
    hide AddPiece, Width, RowWidth, Concat, Within, Brimming, Piece, TrimSpaces;
    if |rows| == |less| {
      SameRow(m, st, piece, |less| + cost, less[|less| - 1]);
    } else if less == [] {
      NextRow(m, st, piece, 0, []);
    } else {
      NextRow(m, st, piece, |less| + cost, less[|less| - 1]);
    }
  }

  lemma WordIsNoGap(piece: string)
    requires Piece(piece) && piece != " "
    ensures TrimSpaces(piece) != ""
  {
    if |piece| > 1 {
      assert piece[0] != ' ';
    }
  }

  lemma LastFits(m: Measure, pieces: seq<string>, rows: seq<seq<string>>)
    requires rows != [] && Layout(m, pieces, rows)
    ensures rows[|rows| - 1] != [] && RowWidth(m, rows[|rows| - 1]) <= m.width
  {
    assert rows[|rows| - 1] in rows;
  }

  /** With no brimming word the wrapping is itself a layout. */
  lemma {:induction false} WrappingLays(m: Measure, pieces: seq<string>) returns (rows: seq<seq<string>>)
    requires Usual(m) && Fitting(m, pieces) && pieces != [] && Brimmings(m, pieces) == 0
    ensures var st := AddPieces(m, EMPTY, pieces);
            && Layout(m, pieces, rows) && |rows| == |st.done| + 1
            && Concat(rows[|rows| - 1]) == st.row && st.row != ""
  {
    hide Width, Concat, TrimSpaces, RowWidth, Layout;
    var front, piece := pieces[..|pieces| - 1], pieces[|pieces| - 1];
    assert piece in pieces && forall p :: p in front ==> p in pieces;
    assert front + [piece] == pieces;
    var st := AddPieces(m, EMPTY, front);
    ConcatOne(piece);
    if front == [] {
      NoRows(m);
      OnNewRow(m, [], [], piece);
      rows := [[piece]];
      assert [] + [[piece]] == rows;
    } else {
      rows := WrappingLays(m, front);
      PiecesCounted(m, front);
      if st.used + Visible(m, piece) > m.width {
        OnNewRow(m, front, rows, piece);
        rows := rows + [[piece]];
      } else {
        GoesOn(m, front, rows, piece);
        OnLastRow(m, front, rows, piece);
        rows := rows[..|rows| - 1] + [rows[|rows| - 1] + [piece]];
      }
    }
  }

  lemma NoRows(m: Measure)
    ensures Layout(m, [], [])
  {
  }

  lemma OnNewRow(m: Measure, pieces: seq<string>, rows: seq<seq<string>>, piece: string)
    requires Layout(m, pieces, rows) && Visible(m, piece) <= m.width
    ensures Layout(m, pieces + [piece], rows + [[piece]])
  {
    PieceRow(m, piece);
    FlattenLast(rows, [piece]);
    hide RowWidth, Flatten, Width;
  }

  /** A word that still fits, and any space, keep the last row within its width. */
  lemma GoesOn(m: Measure, pieces: seq<string>, rows: seq<seq<string>>, piece: string)
    requires Usual(m) && Layout(m, pieces, rows) && rows != [] && Piece(piece)
    requires Width(m, Concat(rows[|rows| - 1])) + Visible(m, piece) <= m.width
    ensures RowWidth(m, rows[|rows| - 1] + [piece]) <= m.width
  {
    var last := rows[|rows| - 1];
    assert last in rows;
    ConcatPair(m, last, piece);
    if piece == " " {
      assert (Concat(last) + " ")[..|Concat(last)|] == Concat(last);
    } else {
      WordIsNoGap(piece);
    }
    hide Width, Concat;
  }

  lemma OnLastRow(m: Measure, pieces: seq<string>, rows: seq<seq<string>>, piece: string)
    requires Layout(m, pieces, rows) && rows != [] && RowWidth(m, rows[|rows| - 1] + [piece]) <= m.width
    ensures var before, last := rows[..|rows| - 1], rows[|rows| - 1];
            && Layout(m, pieces + [piece], before + [last + [piece]])
            && Concat(last + [piece]) == Concat(last) + piece
  {
    hide RowWidth, Width, Concat;
    var before, last := rows[..|rows| - 1], rows[|rows| - 1];
    ConcatPair(m, last, piece);
    Appended(rows, piece);
    assert forall row :: row in before ==> row in rows;
    hide Flatten;
  }

  lemma Appended(rows: seq<seq<string>>, piece: string)
    requires rows != []
    ensures var before, last := rows[..|rows| - 1], rows[|rows| - 1];
            Flatten(before + [last + [piece]]) == Flatten(rows) + [piece]
  {
    var before, last := rows[..|rows| - 1], rows[|rows| - 1];
    FlattenLast(before, last + [piece]);
    assert Flatten(before) + (last + [piece]) == Flatten(before) + last + [piece];
  }

  lemma PieceRow(m: Measure, piece: string)
    ensures RowWidth(m, [piece]) == Visible(m, piece)
  {
    ConcatOne(piece);
  }

  lemma PiecesOf(m: Measure, line: string)
    requires line != ""
    ensures Pieces(line) != [] && |WrapLine(m, line)| == |AddPieces(m, EMPTY, Pieces(line)).done| + 1
  {
  }

  /** A single-spaced line whose words all fit with their spaces is wrapped in
      the fewest rows that any layout of its words takes. */
  lemma FewestForTheLine(m: Measure, line: string) returns (best: seq<seq<string>>)
    requires Usual(m) && line != "" && Fitting(m, Pieces(line))
    requires SingleSpaced(Pieces(line)) && Brimmings(m, Pieces(line)) == 0
    ensures Layout(m, Pieces(line), best) && |best| == |WrapLine(m, line)|
    ensures forall rows :: Layout(m, Pieces(line), rows) ==> |WrapLine(m, line)| <= |rows|
  {
    hide Layout, Pieces, AddPieces, WrapLine, Width, Concat;
    PiecesOf(m, line);
    best := WrappingLays(m, Pieces(line));
    SingleSpacedCostsNothing(m, Pieces(line));
    forall rows | Layout(m, Pieces(line), rows) ensures |WrapLine(m, line)| <= |rows| {
      Counts(m, Pieces(line), rows);
    }
  }

  /** In a single-spaced line each brimming word costs at most one row more. */
  lemma BrimmingCostsOneRow(m: Measure, line: string, rows: seq<seq<string>>)
    requires Usual(m) && line != "" && Fitting(m, Pieces(line)) && Layout(m, Pieces(line), rows)
    requires SingleSpaced(Pieces(line))
    ensures |WrapLine(m, line)| <= |rows| + Brimmings(m, Pieces(line))
  {
    hide Layout, Pieces, AddPieces, WrapLine, Width, Concat, Brimmings;
    PiecesOf(m, line);
    SingleSpacedCostsNothing(m, Pieces(line));
    Counts(m, Pieces(line), rows);
  }

  /** In any line a run of spaces costs at most a row for each time it goes
      round the screen, begun rounds counted. */
  lemma RunsCostTheirRounds(m: Measure, line: string, rows: seq<seq<string>>)
    requires Usual(m) && m.width > 0 && line != "" && Fitting(m, Pieces(line)) && Layout(m, Pieces(line), rows)
    ensures |WrapLine(m, line)| <= |rows| + Brimmings(m, Pieces(line)) + RunCosts(m, Pieces(line))
  {
    hide Layout, Pieces, AddPieces, WrapLine, Width, Concat, Brimmings, RunCosts;
    PiecesOf(m, line);
    Counts(m, Pieces(line), rows);
  }
}
