/** The input line: text with a cursor kept as a byte index of its UTF-8 form.

    `Line` is the same editor on characters; every method of `Editor` is
    proved to do to the bytes what the functions on `Line` do to characters. */
module InputLine {
  import opened Wrappers
  import ChatText

  // ------------------------------------------------- An editor on characters

  /** The cursor stands before character `at`. */
  datatype Line = Line(text: string, at: nat)

  ghost predicate Sound(line: Line) { line.at <= |line.text| }

  predicate White(c: char) {
    || '\U{09}' <= c <= '\U{0D}' || c == ' ' || c == '\U{85}' || c == '\U{A0}' || c == '\U{1680}'
    || '\U{2000}' <= c <= '\U{200A}' || c == '\U{2028}' || c == '\U{2029}' || c == '\U{202F}'
    || c == '\U{205F}' || c == '\U{3000}'
  }

  predicate Solid(c: char) { !White(c) }

  predicate Break(c: char) { c == '\n' }

  /** Back from `at` until just after a character that `stop` holds of. */
  function Back(stop: char -> bool, text: string, at: nat): (k: nat)
    requires at <= |text|
    ensures k <= at
    ensures forall i :: k <= i < at ==> !stop(text[i])
    ensures k > 0 ==> stop(text[k - 1])
  {
    if at == 0 || stop(text[at - 1]) then at else Back(stop, text, at - 1)
  }

  /** Forth from `at` until just before a character that `stop` holds of. */
  function Forth(stop: char -> bool, text: string, at: nat): (k: nat)
    requires at <= |text|
    ensures at <= k <= |text|
    ensures forall i :: at <= i < k ==> !stop(text[i])
    ensures k < |text| ==> stop(text[k])
    decreases |text| - at
  {
    if at == |text| || stop(text[at]) then at else Forth(stop, text, at + 1)
  }

  function PreviousWord(line: Line): (k: nat)
    requires Sound(line)
    ensures k <= line.at
  {
    Back(White, line.text, Back(Solid, line.text, line.at))
  }

  function NextWord(line: Line): (k: nat)
    requires Sound(line)
    ensures line.at <= k <= |line.text|
  {
    Forth(White, line.text, Forth(Solid, line.text, line.at))
  }

  /** The text without what lies between `from` and `upto`. */
  function Cut(line: Line, from: nat, upto: nat): Line
    requires from <= upto <= |line.text|
  {
    Line(line.text[..from] + line.text[upto..], from)
  }

  function Put(line: Line, added: string): Line
    requires Sound(line)
  {
    Line(line.text[..line.at] + added + line.text[line.at..], line.at + |added|)
  }

  function Column(line: Line): nat
    requires Sound(line)
  {
    line.at - Back(Break, line.text, line.at)
  }

  /** `column` characters into the line that starts at `start`, or its end. */
  function InLine(text: string, start: nat, column: nat): (k: nat)
    requires start <= |text|
    ensures k <= |text|
  {
    var end := Forth(Break, text, start);
    if start + column <= end then start + column else end
  }

  function LineUp(line: Line): Option<Line>
    requires Sound(line)
  {
    var start := Back(Break, line.text, line.at);
    if start == 0 then None
    else Some(line.(at := InLine(line.text, Back(Break, line.text, start - 1), Column(line))))
  }

  function LineDown(line: Line): Option<Line>
    requires Sound(line)
  {
    var end := Forth(Break, line.text, line.at);
    if end == |line.text| then None
    else Some(line.(at := InLine(line.text, end + 1, Column(line))))
  }

  // -------------------------------------------------------- UTF-8 and slices

  /** Bytes of a character in UTF-8. */
  function Size(c: char): (n: nat)
    ensures 1 <= n <= 4
  {
    if c < '\U{80}' then 1 else if c < '\U{800}' then 2 else if c < '\U{10000}' then 3 else 4
  }

  function Bytes(s: string): nat {
    if s == "" then 0 else Bytes(s[..|s| - 1]) + Size(s[|s| - 1])
  }

  /** Whether byte `b` of `s` is the first of a character, or the end. */
  ghost predicate Boundary(s: string, b: nat) {
    exists n: nat :: n <= |s| && Bytes(s[..n]) == b
  }

  lemma {:induction false} BytesSplit(s: string, t: string)
    ensures Bytes(s + t) == Bytes(s) + Bytes(t)
  {
    if t == "" {
      assert s + t == s;
    } else {
      BytesSplit(s, t[..|t| - 1]);
      assert (s + t)[..|s + t| - 1] == s + t[..|t| - 1];
    }
  }

  lemma {:induction false} BytesGrow(s: string, m: nat, n: nat)
    requires m <= n <= |s|
    ensures Bytes(s[..m]) + (n - m) <= Bytes(s[..n])
    ensures Bytes(s[..n]) == Bytes(s[..m]) + Bytes(s[m..n])
  {
    BytesSplit(s[..m], s[m..n]);
    assert s[..n] == s[..m] + s[m..n];
    if m < n {
      BytesGrow(s, m, n - 1);
      assert s[..n][..n - 1] == s[..n - 1];
      BytesSplit(s[..n - 1], s[n - 1..n]);
    }
  }

  lemma OneBoundary(s: string, m: nat, n: nat)
    requires m <= |s| && n <= |s| && Bytes(s[..m]) == Bytes(s[..n])
    ensures m == n
  {
    if m < n {
      BytesGrow(s, m, n);
    } else {
      BytesGrow(s, n, m);
    }
  }

  /** The characters before byte `b`; slicing elsewhere is an error. */
  function Chars(s: string, b: nat): (n: nat)
    requires Boundary(s, b)
    ensures n <= |s| && Bytes(s[..n]) == b
  {
    if b == Bytes(s) then
      assert s[..|s|] == s; |s|
    else
      assert forall n: nat :: n <= |s| && Bytes(s[..n]) == b ==> n < |s| && s[..|s| - 1][..n] == s[..n] by {
        assert s[..|s|] == s;
      }
      var n := Chars(s[..|s| - 1], b);
      assert s[..|s| - 1][..n] == s[..n]; n
  }

  lemma CharsOf(s: string, n: nat)
    requires n <= |s|
    ensures Boundary(s, Bytes(s[..n])) && Chars(s, Bytes(s[..n])) == n
  {
    assert Boundary(s, Bytes(s[..n]));
    OneBoundary(s, Chars(s, Bytes(s[..n])), n);
  }

  // ------------------------------------------ The string functions it relies on

  function Upto(s: string, b: nat): string
    requires Boundary(s, b)
  {
    s[..Chars(s, b)]
  }

  function From(s: string, b: nat): string
    requires Boundary(s, b)
  {
    s[Chars(s, b)..]
  }

  /** Byte index of the last character that `p` holds of. */
  function RFind(s: string, p: char -> bool): Option<nat> {
    if s == "" then None
    else if p(s[|s| - 1]) then Some(Bytes(s[..|s| - 1]))
    else RFind(s[..|s| - 1], p)
  }

  /** Byte index of the first character that `p` holds of. */
  function Find(s: string, p: char -> bool): Option<nat> {
    if s == "" then None
    else if p(s[0]) then Some(0)
    else match Find(s[1..], p) case None => None case Some(i) => Some(Size(s[0]) + i)
  }

  function TrimEnd(s: string): string {
    if s != "" && White(s[|s| - 1]) then TrimEnd(s[..|s| - 1]) else s
  }

  function TrimStart(s: string): string {
    if s != "" && White(s[0]) then TrimStart(s[1..]) else s
  }

  /** Byte index of the n-th character. */
  function Nth(s: string, n: nat): Option<nat> { if n < |s| then Some(Bytes(s[..n])) else None }

  lemma {:induction false} RFindIsBack(s: string, p: char -> bool, at: nat)
    requires at <= |s|
    ensures var k := Back(p, s, at);
            RFind(s[..at], p) == if k == 0 then None else Some(Bytes(s[..k - 1]))
  {
    if at > 0 {
      assert s[..at][..at - 1] == s[..at - 1];
      if !p(s[at - 1]) {
        RFindIsBack(s, p, at - 1);
      }
    }
  }

  lemma {:induction false} FindIsForth(s: string, p: char -> bool, at: nat)
    requires at <= |s|
    ensures var k := Forth(p, s, at);
            Find(s[at..], p) == if k == |s| then None else Some(Bytes(s[at..k]))
    decreases |s| - at
  {
    if at < |s| {
      assert s[at..][1..] == s[at + 1..];
      var k := Forth(p, s, at);
      if p(s[at]) {
        assert s[at..k] == "";
      } else {
        FindIsForth(s, p, at + 1);
        assert s[at..k] == [s[at]] + s[at + 1..k];
        BytesSplit([s[at]], s[at + 1..k]);
        assert [s[at]][..0] == "";
      }
    }
  }

  lemma {:induction false} TrimEndIsBack(s: string, at: nat)
    requires at <= |s|
    ensures TrimEnd(s[..at]) == s[..Back(Solid, s, at)]
  {
    if at > 0 && White(s[at - 1]) {
      assert s[..at][..at - 1] == s[..at - 1];
      TrimEndIsBack(s, at - 1);
    }
  }

  lemma {:induction false} TrimStartIsForth(s: string, at: nat)
    requires at <= |s|
    ensures TrimStart(s[at..]) == s[Forth(Solid, s, at)..]
    decreases |s| - at
  {
    if at < |s| && White(s[at]) {
      assert s[at..][1..] == s[at + 1..];
      TrimStartIsForth(s, at + 1);
    }
  }

  function ColumnIn(s: string, start: nat, end: nat, column: nat): nat
    requires Boundary(s, start) && Boundary(s, end) && Chars(s, start) <= Chars(s, end)
  {
    match Nth(s[Chars(s, start)..Chars(s, end)], column)
    case None => end
    case Some(i) => start + i
  }

  lemma ColumnInIsInLine(s: string, start: nat, column: nat)
    requires start <= |s|
    ensures var end := Forth(Break, s, start);
            && Boundary(s, Bytes(s[..start])) && Chars(s, Bytes(s[..start])) == start
            && Boundary(s, Bytes(s[..end])) && Chars(s, Bytes(s[..end])) == end
            && ColumnIn(s, Bytes(s[..start]), Bytes(s[..end]), column) == Bytes(s[..InLine(s, start, column)])
  {
    var end := Forth(Break, s, start);
    CharsOf(s, start);
    CharsOf(s, end);
    if start + column < end {
      assert s[start..end][..column] == s[start..start + column];
      BytesGrow(s, start, start + column);
    }
  }

  /** The end of a prefix whose last character has one byte or more. */
  lemma AfterOne(s: string, k: nat)
    requires k <= |s|
    ensures Bytes(s[..k]) == if k == 0 then 0 else Bytes(s[..k - 1]) + Size(s[k - 1])
  {
    if k > 0 {
      assert s[..k][..k - 1] == s[..k - 1];
    }
  }

  lemma WholeBytes(s: string, at: nat)
    requires at <= |s|
    ensures Bytes(s) == Bytes(s[..at]) + Bytes(s[at..])
    ensures Bytes(s[..at]) < Bytes(s) <==> at < |s|
  {
    BytesSplit(s[..at], s[at..]);
    assert s == s[..at] + s[at..] && s[..|s|] == s;
    BytesGrow(s, at, |s|);
  }

  /** The line above ends just before the break that starts this one. */
  lemma LineAbove(s: string, k: nat)
    requires 0 < k <= |s| && Break(s[k - 1])
    ensures Forth(Break, s, Back(Break, s, k - 1)) == k - 1
  {
    hide Back;
    ForthFrom(Break, s, Back(Break, s, k - 1), k - 1);
  }

  /** Byte index of the start of the line that byte `b` is on. */
  function LineStart(s: string, b: nat): nat
    requires Boundary(s, b)
  {
    match RFind(Upto(s, b), Break) case None => 0 case Some(i) => i + 1
  }

  /** How far a search ahead goes, in bytes. */
  function Ahead(s: string, stop: char -> bool): nat { match Find(s, stop) case None => Bytes(s) case Some(i) => i }

  /** Byte index of the end of the line that byte `b` is on. */
  function LineEnd(s: string, b: nat): nat
    requires Boundary(s, b)
  {
    b + Ahead(From(s, b), Break)
  }

  lemma LineStartIsBack(s: string, at: nat)
    requires at <= |s| && Boundary(s, Bytes(s[..at]))
    ensures var k := Back(Break, s, at);
            && Boundary(s, Bytes(s[..k])) && Chars(s, Bytes(s[..k])) == k
            && LineStart(s, Bytes(s[..at])) == Bytes(s[..k])
            && (k == 0 <==> Bytes(s[..k]) == 0)
  {
    hide Bytes, Boundary;
    var k := Back(Break, s, at);
    CharsOf(s, at);
    RFindIsBack(s, Break, at);
    AfterOne(s, k);
    CharsOf(s, k);
  }

  lemma AheadIsForth(s: string, stop: char -> bool, at: nat)
    requires at <= |s|
    ensures Bytes(s[..at]) + Ahead(s[at..], stop) == Bytes(s[..Forth(stop, s, at)])
  {
    hide Bytes, Find;
    var k := Forth(stop, s, at);
    FindIsForth(s, stop, at);
    WholeBytes(s, at);
    BytesGrow(s, at, k);
    if k == |s| {
      assert s[..k] == s;
    }
  }

  lemma LineEndIsForth(s: string, at: nat)
    requires at <= |s| && Boundary(s, Bytes(s[..at]))
    ensures var k := Forth(Break, s, at);
            && Boundary(s, Bytes(s[..k])) && Chars(s, Bytes(s[..k])) == k
            && LineEnd(s, Bytes(s[..at])) == Bytes(s[..k])
            && (k == |s| <==> Find(From(s, Bytes(s[..at])), Break).None?)
  {
    hide Bytes, Find, Forth, Boundary;
    CharsOf(s, at);
    FindIsForth(s, Break, at);
    AheadIsForth(s, Break, at);
    CharsOf(s, Forth(Break, s, at));
  }

  /** The space ahead, in bytes. */
  function Skipped(s: string): int { Bytes(s) - Bytes(TrimStart(s)) }

  lemma SkippedIsForth(s: string, at: nat)
    requires at <= |s|
    ensures var near := Forth(Solid, s, at);
            && Skipped(s[at..]) >= 0 && Boundary(s[at..], Skipped(s[at..]))
            && From(s[at..], Skipped(s[at..])) == s[near..]
            && Bytes(s[..at]) + Skipped(s[at..]) == Bytes(s[..near])
  {
    hide Bytes, TrimStart, Forth, Boundary;
    var near := Forth(Solid, s, at);
    TrimStartIsForth(s, at);
    WholeBytes(s, at);
    WholeBytes(s, near);
    BytesGrow(s, at, near);
    CharsOf(s[at..], near - at);
    assert s[at..][..near - at] == s[at..near];
    assert s[at..][near - at..] == s[near..];
  }

  lemma LineAboveBytes(s: string, k: nat)
    requires 0 < k <= |s| && Break(s[k - 1])
    ensures var up := Back(Break, s, k - 1);
            && Bytes(s[..k]) == Bytes(s[..k - 1]) + 1
            && Boundary(s, Bytes(s[..k - 1])) && Chars(s, Bytes(s[..k - 1])) == k - 1
            && Boundary(s, Bytes(s[..up])) && Chars(s, Bytes(s[..up])) == up
            && LineStart(s, Bytes(s[..k - 1])) == Bytes(s[..up]) && Forth(Break, s, up) == k - 1
  {
    hide Bytes, LineStart, Back, Forth, Boundary;
    AfterOne(s, k);
    CharsOf(s, k - 1);
    LineStartIsBack(s, k - 1);
    LineAbove(s, k);
  }

  lemma LineBelowBytes(s: string, k: nat)
    requires 0 < k <= |s| && Break(s[k - 1])
    ensures var end := Forth(Break, s, k);
            && Bytes(s[..k]) == Bytes(s[..k - 1]) + 1 && Boundary(s, Bytes(s[..k]))
            && LineEnd(s, Bytes(s[..k])) == Bytes(s[..end])
  {
    hide Bytes, LineEnd, Forth, Boundary;
    AfterOne(s, k);
    CharsOf(s, k);
    LineEndIsForth(s, k);
  }

  // ------------------------------------------------------- Slash commands

  const COMMANDS: seq<string> := ["/help", "/status", "/team", "/web", "/cancel", "/handoff", "/exit"]

  datatype Command =
    | Say(text: string)
    | Help
    | Status
    | Team
    | Web
    | Cancel
    | Handoff(note: bool)
    | Exit
    | Unknown(name: string)
    | Nothing

  function Starting(names: seq<string>, text: string): (found: seq<string>)
    ensures forall name :: name in found <==> name in names && text <= name
  {
    if names == [] then []
    else
      var rest := Starting(names[1..], text);
      if text <= names[0] then [names[0]] + rest else rest
  }

  /** What the `/` menu offers: the commands the text could be the start of. */
  function SlashMatches(text: string): seq<string> {
    if !("/" <= text) || (exists c :: c in text && White(c)) then [] else Starting(COMMANDS, text)
  }

  function Trim(s: string): string { TrimEnd(TrimStart(s)) }

  /** The command a submitted text names. */
  function Named(text: string): Command {
    var trimmed := Trim(text);
    if trimmed == "" then Nothing
    else if trimmed == "/help" then Help
    else if trimmed == "/status" then Status
    else if trimmed == "/team" then Team
    else if trimmed == "/web" then Web
    else if trimmed == "/cancel" then Cancel
    else if trimmed == "/handoff" then Handoff(true)
    else if trimmed == "/handoff facts" then Handoff(false)
    else if trimmed == "/exit" || trimmed == "/quit" then Exit
    else if "/" <= trimmed && forall c :: c in trimmed ==> !White(c) then Unknown(trimmed)
    else Say(trimmed)
  }

  // --------------------------------------------------------- The editor itself

  class Editor {
    var text: string
    var cursor: nat

    ghost predicate Valid()
      reads this
    {
      Boundary(text, cursor)
    }

    /** What it is on characters. */
    function Meaning(): (line: Line)
      requires Valid()
      reads this
      ensures Sound(line)
    {
      Line(text, Chars(text, cursor))
    }

    constructor ()
      ensures Valid() && Meaning() == Line("", 0)
    {
      text, cursor := "", 0;
      new;
      assert text[..0] == "";
    }

    method InsertText(added: string)
      requires Valid()
      modifies this
      ensures Valid() && Meaning() == Put(old(Meaning()), added)
    {
      ghost var at := Chars(text, cursor);
      BytesSplit(text[..at], added);
      text := Upto(text, cursor) + added + From(text, cursor);
      cursor := cursor + Bytes(added);
      assert text[..at + |added|] == old(text)[..at] + added;
      CharsOf(text, at + |added|);
    }

    method Insert(c: char)
      requires Valid()
      modifies this
      ensures Valid() && Meaning() == Put(old(Meaning()), [c])
    {
      assert [c][..0] == "";
      InsertText([c]);
    }

    method Paste(pasted: string)
      requires Valid()
      modifies this
      ensures Valid() && Meaning() == Put(old(Meaning()), ChatText.Cleaned(pasted))
    {
      var cleaned := ChatText.Clean(pasted);
      InsertText(cleaned);
    }

    method Backspace()
      requires Valid()
      modifies this
      ensures Valid() && Meaning() == var l := old(Meaning()); if l.at == 0 then l else Cut(l, l.at - 1, l.at)
    {
      var before := Upto(text, cursor);
      if before != "" {
        ghost var at := |before|;
        cursor := cursor - Size(before[|before| - 1]);
        assert before[..at - 1] == text[..at - 1];
        CharsOf(text, at - 1);
        text := Upto(text, cursor) + From(text, cursor)[1..];
        assert text[..at - 1] == before[..at - 1];
        CharsOf(text, at - 1);
      }
    }

    method Left()
      requires Valid()
      modifies `cursor
      ensures Valid() && Meaning() == var l := old(Meaning()); if l.at == 0 then l else l.(at := l.at - 1)
    {
      var before := Upto(text, cursor);
      if before != "" {
        cursor := cursor - Size(before[|before| - 1]);
        assert before[..|before| - 1] == text[..|before| - 1];
        CharsOf(text, |before| - 1);
      }
    }

    method Right()
      requires Valid()
      modifies `cursor
      ensures Valid() && Meaning() == var l := old(Meaning()); if l.at == |l.text| then l else l.(at := l.at + 1)
    {
      var after := From(text, cursor);
      if after != "" {
        ghost var at := Chars(text, cursor);
        cursor := cursor + Size(after[0]);
        assert text[..at + 1][..at] == text[..at];
        CharsOf(text, at + 1);
      }
    }

    method Home()
      requires Valid()
      modifies `cursor
      ensures Valid() && Meaning() == var l := old(Meaning()); l.(at := Back(Break, l.text, l.at))
    {
      LineStartIsBack(text, Chars(text, cursor));
      cursor := LineStart(text, cursor);
    }

    method End()
      requires Valid()
      modifies `cursor
      ensures Valid() && Meaning() == var l := old(Meaning()); l.(at := Forth(Break, l.text, l.at))
    {
      LineEndIsForth(text, Chars(text, cursor));
      cursor := LineEnd(text, cursor);
    }

    method WordLeft()
      requires Valid()
      modifies `cursor
      ensures Valid() && Meaning() == var l := old(Meaning()); l.(at := PreviousWord(l))
    {
      hide Bytes, RFind, Find, TrimStart, TrimEnd, Forth, Back;
      ghost var at := Chars(text, cursor);
      ghost var near := Back(Solid, text, at);
      ghost var k := Back(White, text, near);
      TrimEndIsBack(text, at);
      var trimmed := TrimEnd(Upto(text, cursor));
      RFindIsBack(text, White, near);
      var found := RFind(trimmed, White);
      if found.None? {
        cursor := 0;
      } else {
        assert trimmed[..k - 1] == text[..k - 1];
        CharsOf(trimmed, k - 1);
        cursor := found.value + Size(From(trimmed, found.value)[0]);
      }
      AfterOne(text, k);
      CharsOf(text, k);
    }

    method WordRight()
      requires Valid()
      modifies `cursor
      ensures Valid() && Meaning() == var l := old(Meaning()); l.(at := NextWord(l))
    {
      hide Bytes, Find, Forth, Boundary, Skipped, Ahead;
      ghost var at := Chars(text, cursor);
      ghost var near := Forth(Solid, text, at);
      var after := From(text, cursor);
      SkippedIsForth(text, at);
      var skipped := Skipped(after);
      AheadIsForth(text, White, near);
      cursor := cursor + skipped + Ahead(From(after, skipped), White);
      CharsOf(text, Forth(White, text, near));
    }

    /** Drops the bytes from the cursor to `end`. */
    method ReplaceRange(end: nat)
      requires Valid() && Boundary(text, end) && Chars(text, cursor) <= Chars(text, end)
      modifies `text
      ensures Valid()
      ensures Meaning() == Cut(old(Meaning()), old(Chars(text, cursor)), old(Chars(text, end)))
    {
      ghost var at := Chars(text, cursor);
      text := Upto(text, cursor) + From(text, end);
      assert text[..at] == old(text)[..at];
      CharsOf(text, at);
    }

    method DeleteWordBack()
      requires Valid()
      modifies this
      ensures Valid() && Meaning() == var l := old(Meaning()); Cut(l, PreviousWord(l), l.at)
    {
      var end := cursor;
      WordLeft();
      ReplaceRange(end);
    }

    method DeleteForward()
      requires Valid()
      modifies `text
      ensures Valid()
      ensures Meaning() == var l := old(Meaning()); if l.at == |l.text| then l else Cut(l, l.at, l.at + 1)
    {
      ghost var at := Chars(text, cursor);
      WholeBytes(text, at);
      if cursor < Bytes(text) {
        text := Upto(text, cursor) + From(text, cursor)[1..];
        assert text[..at] == old(text)[..at];
        CharsOf(text, at);
      }
    }

    method KillToEnd()
      requires Valid()
      modifies `text
      ensures Valid() && Meaning() == var l := old(Meaning()); Cut(l, l.at, Forth(Break, l.text, l.at))
    {
      LineEndIsForth(text, Chars(text, cursor));
      ReplaceRange(LineEnd(text, cursor));
    }

    method KillToStart()
      requires Valid()
      modifies this
      ensures Valid() && Meaning() == var l := old(Meaning()); Cut(l, Back(Break, l.text, l.at), l.at)
    {
      var end := cursor;
      Home();
      ReplaceRange(end);
    }

    /** Where the line starts, and how many characters before the cursor. */
    method LineAndColumn() returns (start: nat, column: nat)
      requires Valid()
      ensures column == Column(Meaning())
      ensures var k := Back(Break, text, Chars(text, cursor));
              start == Bytes(text[..k]) && (start == 0 <==> k == 0)
    {
      hide Bytes, LineStart, Back, Boundary;
      LineStartIsBack(text, Chars(text, cursor));
      start := LineStart(text, cursor);
      column := |text[Chars(text, start)..Chars(text, cursor)]|;
    }

    method Up() returns (moved: bool)
      requires Valid()
      modifies `cursor
      ensures Valid()
      ensures moved == LineUp(old(Meaning())).Some?
      ensures Meaning() == if moved then LineUp(old(Meaning())).value else old(Meaning())
    {
      hide Bytes, LineStart, Back, Forth, Boundary, Chars, ColumnIn;
      ghost var k := Back(Break, text, Chars(text, cursor));
      var start, column := LineAndColumn();
      if start == 0 {
        return false;
      }
      LineAboveBytes(text, k);
      var above := LineStart(text, start - 1);
      ghost var up := Back(Break, text, k - 1);
      ColumnInIsInLine(text, up, column);
      cursor := ColumnIn(text, above, start - 1, column);
      CharsOf(text, InLine(text, up, column));
      return true;
    }

    method Down() returns (moved: bool)
      requires Valid()
      modifies `cursor
      ensures Valid()
      ensures moved == LineDown(old(Meaning())).Some?
      ensures Meaning() == if moved then LineDown(old(Meaning())).value else old(Meaning())
    {
      hide Bytes, LineStart, LineEnd, Back, Forth, Boundary, Chars, ColumnIn, Find;
      ghost var at := Chars(text, cursor);
      LineEndIsForth(text, at);
      if Find(From(text, cursor), Break).None? {
        return false;
      }
      var _, column := LineAndColumn();
      var below := LineEnd(text, cursor) + 1;
      ghost var next := Forth(Break, text, at) + 1;
      LineBelowBytes(text, next);
      var end := LineEnd(text, below);
      ColumnInIsInLine(text, next, column);
      cursor := ColumnIn(text, below, end, column);
      CharsOf(text, InLine(text, next, column));
      return true;
    }

    method Set(text: string)
      modifies this
      ensures Valid() && Meaning() == Line(text, |text|)
    {
      this.text := text;
      cursor := Bytes(text);
      assert text[..|text|] == text;
      CharsOf(text, |text|);
    }

    method Clear()
      modifies this
      ensures Valid() && Meaning() == Line("", 0)
    {
      text, cursor := "", 0;
      assert text[..0] == "";
    }

    /** Enter: what the text says to do, leaving the editor empty. */
    method Submit() returns (command: Command)
      modifies this
      ensures command == Named(old(text)) && Valid() && Meaning() == Line("", 0)
    {
      command := Named(text);
      Clear();
    }
  }

  // --------------------------------------------------------- What it promises

  /** The characters with the Unicode property White_Space. */
  const WHITE_SPACE :=
    "\U{09}\U{0A}\U{0B}\U{0C}\U{0D}\U{20}\U{85}\U{A0}\U{1680}\U{2000}\U{2001}\U{2002}\U{2003}\U{2004}\U{2005}"
    + "\U{2006}\U{2007}\U{2008}\U{2009}\U{200A}\U{2028}\U{2029}\U{202F}\U{205F}\U{3000}"

  lemma WhiteExactly(c: char)
    ensures White(c) <==> c in WHITE_SPACE
  {
  }

  function Power2(n: nat): nat { if n == 0 then 1 else 2 * Power2(n - 1) }

  /** How many bits `n` bytes of UTF-8 have room for (section 3 of RFC 3629):
      after the leading bits of the first, six in each of the others. */
  function Room(n: nat): nat
    requires 1 <= n <= 4
  {
    if n == 1 then 7 else 7 - n + 6 * (n - 1)
  }

  /** A character takes the fewest bytes that have room for it. */
  lemma SizeIsLeast(c: char, n: nat)
    requires 1 <= n <= 4
    ensures Size(c) <= n <==> (c as int) < Power2(Room(n))
  {
    assert Power2(7) == 128 && Power2(11) == 0x800 && Power2(16) == 0x1_0000;
    assert Power2(19) == 0x8_0000 && Power2(21) == 0x20_0000;
  }

  lemma BackFrom(stop: char -> bool, text: string, k: nat, at: nat)
    requires k <= at <= |text|
    requires forall i :: k <= i < at ==> !stop(text[i])
    requires k == 0 || stop(text[k - 1])
    ensures Back(stop, text, at) == k
  {
  }

  lemma ForthFrom(stop: char -> bool, text: string, at: nat, k: nat)
    requires at <= k <= |text|
    requires forall i :: at <= i < k ==> !stop(text[i])
    requires k == |text| || stop(text[k])
    ensures Forth(stop, text, at) == k
  {
  }

  /** How long the line at `at` is. */
  function LineLength(text: string, at: nat): nat
    requires at <= |text|
  {
    Forth(Break, text, at) - Back(Break, text, at)
  }

  /** The line above can be left downwards, and that leads back to where one
      came from exactly when the line above was long enough. */
  lemma UpThenDown(line: Line)
    requires Sound(line) && LineUp(line).Some?
    ensures var up := LineUp(line).value;
            && LineDown(up).Some?
            && (LineDown(up).value == line
                <==> Column(line) <= LineLength(line.text, Back(Break, line.text, line.at) - 1))
  {
    hide Back, Forth, Break;
    var text, start := line.text, Back(Break, line.text, line.at);
    var above := Back(Break, text, start - 1);
    var up := LineUp(line).value;
    LineAbove(text, start);
    ForthFrom(Break, text, start - 1, start - 1);
    ForthFrom(Break, text, up.at, start - 1);
    BackFrom(Break, text, above, up.at);
    var last := Forth(Break, text, line.at);
    ForthFrom(Break, text, start, last);
  }

  /** The same downwards. */
  lemma DownThenUp(line: Line)
    requires Sound(line) && LineDown(line).Some?
    ensures var down := LineDown(line).value;
            && LineUp(down).Some?
            && (LineUp(down).value == line
                <==> Column(line) <= LineLength(line.text, Forth(Break, line.text, line.at) + 1))
  {
    hide Back, Forth;
    var text, end := line.text, Forth(Break, line.text, line.at);
    var start := Back(Break, text, line.at);
    var down := LineDown(line).value;
    BackFrom(Break, text, end + 1, end + 1);
    BackFrom(Break, text, end + 1, down.at);
    BackFrom(Break, text, start, end);
    ForthFrom(Break, text, start, end);
  }

  /** How many line breaks lie between two places. */
  function Breaks(text: string, start: nat, end: nat): nat
    requires start <= end <= |text|
  {
    if start == end then 0 else Breaks(text, start, end - 1) + if text[end - 1] == '\n' then 1 else 0
  }

  lemma {:induction false} NoBreaks(text: string, start: nat, end: nat)
    requires start <= end <= |text| && forall i :: start <= i < end ==> text[i] != '\n'
    ensures Breaks(text, start, end) == 0
  {
    if start < end {
      NoBreaks(text, start, end - 1);
    }
  }

  lemma {:induction false} OneBreak(text: string, start: nat, k: nat, end: nat)
    requires start <= k < end <= |text| && text[k] == '\n'
    requires forall i :: start <= i < end && i != k ==> text[i] != '\n'
    ensures Breaks(text, start, end) == 1
  {
    if k == end - 1 {
      NoBreaks(text, start, k);
    } else {
      OneBreak(text, start, k, end - 1);
    }
  }

  /** Up goes to the line above, which is the one with a single line break in
      between, and there to the same column, or as near to it as the line is
      long; only on the first line there is none. */
  lemma UpKeepsColumn(line: Line)
    requires Sound(line)
    ensures LineUp(line).None? <==> forall i :: 0 <= i < line.at ==> line.text[i] != '\n'
    ensures LineUp(line).Some? ==>
              var up := LineUp(line).value;
              && Sound(up) && up.text == line.text && up.at < line.at && Breaks(line.text, up.at, line.at) == 1
              && Column(up) == Min(Column(line), LineLength(line.text, up.at))
  {
    hide Back, Forth, LineLength, Breaks;
    var text, start := line.text, Back(Break, line.text, line.at);
    if start > 0 {
      UpIsAbove(line);
    }
  }

  lemma UpIsAbove(line: Line)
    requires Sound(line) && LineUp(line).Some?
    ensures var up := LineUp(line).value;
            && Sound(up) && up.text == line.text && up.at < line.at && Breaks(line.text, up.at, line.at) == 1
            && Column(up) == Min(Column(line), LineLength(line.text, up.at))
  {
    hide Back, Forth, Breaks;
    var text, start := line.text, Back(Break, line.text, line.at);
    if start > 0 {
      var above := Back(Break, text, start - 1);
      var up := LineUp(line).value;
      ForthFrom(Break, text, above, start - 1);
      BackFrom(Break, text, above, up.at);
      ForthFrom(Break, text, up.at, start - 1);
      OneBreak(text, up.at, start - 1, line.at);
    }
  }

  /** The same downwards. */
  lemma DownKeepsColumn(line: Line)
    requires Sound(line)
    ensures LineDown(line).None? <==> forall i :: line.at <= i < |line.text| ==> line.text[i] != '\n'
    ensures LineDown(line).Some? ==>
              var down := LineDown(line).value;
              && Sound(down) && down.text == line.text && line.at < down.at && Breaks(line.text, line.at, down.at) == 1
              && Column(down) == Min(Column(line), LineLength(line.text, down.at))
  {
    hide Back, Forth;
    var text, end := line.text, Forth(Break, line.text, line.at);
    if end < |text| {
      var down := LineDown(line).value;
      BackFrom(Break, text, end + 1, down.at);
      ForthFrom(Break, text, down.at, Forth(Break, text, end + 1));
      OneBreak(text, line.at, end, down.at);
    }
  }

  /** What is typed goes in where one types, one piece behind the other. */
  lemma PutTwice(line: Line, first: string, second: string)
    requires Sound(line)
    ensures Sound(Put(line, first))
    ensures Put(Put(line, first), second) == Put(line, first + second)
  {
  }

  lemma CutUndoesPut(line: Line, added: string)
    requires Sound(line)
    ensures Cut(Put(line, added), line.at, line.at + |added|) == line
  {
  }

  /** A whole word, and the space after it up to `at`. */
  ghost predicate WordBefore(text: string, k: nat, mid: nat, at: nat) {
    && k <= mid <= at <= |text|
    && (forall i :: k <= i < mid ==> Solid(text[i]))
    && (forall i :: mid <= i < at ==> White(text[i]))
    && (k == 0 || (k < mid && White(text[k - 1])))
  }

  /** A word left, and what it deletes, is a whole word and the space after it. */
  lemma PreviousWordIsWhole(line: Line, k: nat, mid: nat)
    requires Sound(line)
    ensures WordBefore(line.text, k, mid, line.at)
            <==> k == PreviousWord(line) && mid == Back(Solid, line.text, line.at)
  {
    if WordBefore(line.text, k, mid, line.at) {
      hide Back;
      assert mid > 0 ==> Solid(line.text[mid - 1]);
      BackFrom(Solid, line.text, mid, line.at);
      BackFrom(White, line.text, k, mid);
    }
  }

  /** Space, and then a whole word up to `k`. */
  ghost predicate WordAfter(text: string, at: nat, mid: nat, k: nat) {
    && at <= mid <= k <= |text|
    && (forall i :: at <= i < mid ==> White(text[i]))
    && (forall i :: mid <= i < k ==> Solid(text[i]))
    && (k == |text| || (mid < k && White(text[k])))
  }

  lemma NextWordIsWhole(line: Line, mid: nat, k: nat)
    requires Sound(line)
    ensures WordAfter(line.text, line.at, mid, k)
            <==> k == NextWord(line) && mid == Forth(Solid, line.text, line.at)
  {
    if WordAfter(line.text, line.at, mid, k) {
      hide Forth;
      assert mid < |line.text| ==> Solid(line.text[mid]);
      ForthFrom(Solid, line.text, line.at, mid);
      ForthFrom(White, line.text, mid, k);
    }
  }

  /** Every menu entry is a command, and a complete menu of them. */
  lemma MenuOffersCommands(text: string, name: string)
    ensures name in SlashMatches(text)
            <==> name in COMMANDS && "/" <= text && text <= name
  {
    if "/" <= text && text <= name && name in COMMANDS {
      assert forall c :: c in text ==> c in name;
      NoneHasSpace(name);
    }
  }

  lemma NoneHasSpace(name: string)
    requires name in COMMANDS
    ensures forall c :: c in name ==> !White(c)
    ensures Trim(name) == name && name != ""
  {
    assert name[0] == '/';
  }

  /** What each menu entry runs. */
  const RUN: seq<Command> := [Help, Status, Team, Web, Cancel, Handoff(true), Exit]

  lemma NamedCommand(i: nat)
    requires i < |COMMANDS|
    ensures Named(COMMANDS[i]) == RUN[i]
  {
    NoneHasSpace(COMMANDS[i]);
    hide Trim;
  }

  /** Enter on a menu entry runs that entry's command, and no other entry does. */
  lemma MenuRunsItsCommand(text: string, name: string)
    requires name in SlashMatches(text)
    ensures exists i :: 0 <= i < |COMMANDS| && COMMANDS[i] == name && Named(name) == RUN[i]
    ensures forall other :: other in COMMANDS && Named(other) == Named(name) ==> other == name
  {
    hide Named, SlashMatches;
    MenuOffersCommands(text, name);
    var i: nat :| i < |COMMANDS| && COMMANDS[i] == name;
    NamedCommand(i);
    forall other | other in COMMANDS && Named(other) == Named(name) ensures other == name {
      var j: nat :| j < |COMMANDS| && COMMANDS[j] == other;
      NamedCommand(j);
    }
  }

  ghost predicate AllWhite(s: string) { forall c :: c in s ==> White(c) }

  /** Without space at either end. */
  ghost predicate Whole(s: string) { s == "" || (Solid(s[0]) && Solid(s[|s| - 1])) }

  lemma PaddingIsDropped(before: string, said: string, after: string)
    requires AllWhite(before) && AllWhite(after) && Whole(said)
    ensures Trim(before + said + after) == said
  {
    hide TrimStart, TrimEnd, Forth, Back;
    if said == "" {
      AllTrimmed(before + said + after);
    } else {
      StartDropped(before, said + after);
      EndDropped(said, after);
      assert before + said + after == before + (said + after);
    }
  }

  lemma AllTrimmed(text: string)
    requires AllWhite(text)
    ensures Trim(text) == ""
  {
    hide Forth;
    TrimStartIsForth(text, 0);
    ForthFrom(Solid, text, 0, |text|);
    assert text[0..] == text && text[|text|..] == "";
  }

  lemma StartDropped(before: string, rest: string)
    requires AllWhite(before) && rest != "" && Solid(rest[0])
    ensures TrimStart(before + rest) == rest
  {
    hide Forth, TrimStart;
    var text := before + rest;
    TrimStartIsForth(text, 0);
    ForthFrom(Solid, text, 0, |before|);
    assert text[0..] == text && text[|before|..] == rest;
  }

  lemma EndDropped(said: string, after: string)
    requires AllWhite(after) && said != "" && Solid(said[|said| - 1])
    ensures TrimEnd(said + after) == said
  {
    hide Back, TrimEnd;
    var rest := said + after;
    TrimEndIsBack(rest, |rest|);
    BackFrom(Solid, rest, |said|, |rest|);
    assert rest[..|rest|] == rest && rest[..|said|] == said;
  }

  /** Space around what is typed makes no difference: a command word on its own
      is that command, another word behind a slash is an unknown one, and
      everything else is said as it stands. */
  lemma SubmitReads(before: string, said: string, after: string)
    requires AllWhite(before) && AllWhite(after) && Whole(said)
    ensures var command := Named(before + said + after);
            && (command == Nothing <==> said == "")
            && (forall i :: 0 <= i < |COMMANDS| && said == COMMANDS[i] ==> command == RUN[i])
            && (said == "/quit" ==> command == Exit)
            && (said == "/handoff facts" ==> command == Handoff(false))
            && (said !in COMMANDS + ["", "/quit", "/handoff facts"] ==>
                  command == if "/" <= said && (forall c :: c in said ==> Solid(c)) then Unknown(said) else Say(said))
  {
    hide Trim;
    PaddingIsDropped(before, said, after);
  }
}
