/** Untrusted text before it reaches the terminal: `Clean` drops escape
    sequences, shows other controls and bidirectional overrides as U+FFFD,
    expands tabs and drops carriage returns.

    The peeking loops of the client compute a transducer with five states. */
module ChatText {

  const ESC: char := '\U{1B}'
  const BEL: char := '\U{07}'
  const ST8: char := '\U{9C}'
  const REPLACEMENT: char := '\U{FFFD}'

  /** The Unicode category Cc. */
  predicate Control(c: char) { c <= '\U{1F}' || '\U{7F}' <= c <= '\U{9F}' }

  predicate Bidi(c: char) {
    c == '\U{061C}' || c == '\U{200E}' || c == '\U{200F}'
    || '\U{202A}' <= c <= '\U{202E}' || '\U{2066}' <= c <= '\U{2069}'
  }

  predicate Shown(c: char) { c == '\n' || (!Control(c) && !Bidi(c)) }

  predicate StringOpener8(c: char) {
    c == '\U{90}' || c == '\U{98}' || c == '\U{9D}' || c == '\U{9E}' || c == '\U{9F}'
  }

  predicate StringOpener7(c: char) { c == ']' || c == 'P' || c == 'X' || c == '^' || c == '_' }

  /** Parameter and intermediate bytes of a control sequence. */
  predicate CsiMiddle(c: char) { '\U{20}' <= c <= '\U{3F}' }

  datatype State = Ground | Escape | Csi | InString | StringEscape

  function Emit(c: char): string {
    if c == '\n' then "\n"
    else if c == '\t' then "    "
    else if c == '\r' then ""
    else if Control(c) || Bidi(c) then [REPLACEMENT]
    else [c]
  }

  function Move(st: State, c: char): State
    decreases st == StringEscape
  {
    match st
    case Ground =>
      if c == ESC then Escape else if c == '\U{9B}' then Csi else if StringOpener8(c) then InString else Ground
    case Escape => if c == '[' then Csi else if StringOpener7(c) then InString else Ground
    case Csi => if CsiMiddle(c) then Csi else Ground
    case InString => if c == BEL || c == ST8 then Ground else if c == ESC then StringEscape else InString
    case StringEscape => if c == '\\' then Ground else Move(InString, c)
  }

  function Out(st: State, c: char): string {
    if st == Ground && Move(st, c) == Ground then Emit(c) else ""
  }

  /** The state after `text`, and what was let through. */
  function Final(st: State, text: string): State {
    if text == "" then st else Move(Final(st, text[..|text| - 1]), text[|text| - 1])
  }

  function Through(st: State, text: string): string {
    if text == "" then ""
    else Through(st, text[..|text| - 1]) + Out(Final(st, text[..|text| - 1]), text[|text| - 1])
  }

  /** `clean`, as a function of the text. */
  function Cleaned(text: string): string { Through(Ground, text) }

  /** `clean_line`: line breaks become spaces. */
  function CleanedLine(text: string): (line: string)
    ensures |line| == |Cleaned(text)|
    ensures forall i :: 0 <= i < |line| ==> line[i] == if Cleaned(text)[i] == '\n' then ' ' else Cleaned(text)[i]
  {
    var cleaned := Cleaned(text);
    seq(|cleaned|, i requires 0 <= i < |cleaned| => if cleaned[i] == '\n' then ' ' else cleaned[i])
  }

  // ------------------------------------------------------- The client's loops

  /** One iterator shared by every loop. */
  class Chars {
    const text: string
    var at: nat

    constructor (text: string)
      ensures this.text == text && at == 0
    {
      this.text, at := text, 0;
    }

    ghost predicate In(st: State)
      reads this
    {
      at <= |text| && Final(Ground, text[..at]) == st
    }

    /** What the transducer let through so far. */
    ghost function Done(): string
      reads this
      requires at <= |text|
    {
      Through(Ground, text[..at])
    }

    /** Where the outer loop goes on: in the ground state, or at the end. */
    ghost predicate Rested()
      reads this
    {
      at == |text| || In(Ground)
    }

    method Next() returns (c: char)
      requires at < |text|
      modifies this
      ensures at == old(at) + 1 && c == text[old(at)]
      ensures Final(Ground, text[..at]) == Move(old(Final(Ground, text[..at])), c)
      ensures Done() == old(Done()) + Out(old(Final(Ground, text[..at])), c)
    {
      assert text[..at + 1][..at] == text[..at];
      c := text[at];
      at := at + 1;
    }

    method SkipCsi()
      requires In(Csi)
      modifies this
      ensures old(at) <= at <= |text| && Rested() && Done() == old(Done())
    {
      while at < |text|
        invariant old(at) <= at && In(Csi) && Done() == old(Done())
        decreases |text| - at
      {
        var c := Next();
        if !CsiMiddle(c) {
          return;
        }
      }
    }

    method SkipString()
      requires In(InString)
      modifies this
      ensures old(at) <= at <= |text| && Rested() && Done() == old(Done())
    {
      while at < |text|
        invariant old(at) <= at <= |text| && Done() == old(Done())
        invariant In(InString) || (In(StringEscape) && (at < |text| ==> text[at] != '\\'))
        decreases |text| - at
      {
        var c := Next();
        if c == BEL || c == ST8 {
          return;
        }
        if c == ESC && at < |text| && text[at] == '\\' {
          var _ := Next();
          return;
        }
      }
    }

    method SkipEscape()
      requires In(Escape)
      modifies this
      ensures old(at) <= at <= |text| && Rested() && Done() == old(Done())
    {
      if at == |text| {
        return;
      }
      var c := Next();
      if c == '[' {
        SkipCsi();
      } else if StringOpener7(c) {
        SkipString();
      }
    }
  }

  method Clean(text: string) returns (out: string)
    ensures out == Cleaned(text)
  {
    out := "";
    var chars := new Chars(text);
    while chars.at < |text|
      invariant chars.text == text && chars.at <= |text|
      invariant chars.Rested() && out == chars.Done()
      decreases |text| - chars.at
    {
      var c := chars.Next();
      if c == ESC {
        chars.SkipEscape();
      } else if c == '\U{9B}' {
        chars.SkipCsi();
      } else if StringOpener8(c) {
        chars.SkipString();
      } else if c == '\n' {
        out := out + "\n";
      } else if c == '\t' {
        out := out + "    ";
      } else if c == '\r' {
      } else if Control(c) || Bidi(c) {
        out := out + [REPLACEMENT];
      } else {
        out := out + [c];
      }
    }
    assert text[..chars.at] == text;
  }

  // --------------------------------------------------------- What it promises

  /** The characters with the Unicode property Bidi_Control. */
  const BIDI_CONTROLS :=
    "\U{061C}\U{200E}\U{200F}\U{202A}\U{202B}\U{202C}\U{202D}\U{202E}\U{2066}\U{2067}\U{2068}\U{2069}"

  /** In one of the sets C0 and C1, or DELETE; or a bidirectional control. */
  predicate Steers(c: char) {
    c == '\U{7F}' || (c < '\U{0100}' && c as int % 0x80 < 0x20) || c in BIDI_CONTROLS
  }

  lemma SteersExactly(c: char)
    ensures Steers(c) <==> Control(c) || Bidi(c)
    ensures Shown(c) <==> c == '\n' || !Steers(c)
  {
    assert c in BIDI_CONTROLS <==> Bidi(c);
  }

  lemma {:induction false} StateOfPieces(st: State, a: string, b: string)
    ensures Final(st, a + b) == Final(Final(st, a), b)
  {
    hide Move;
    if b == "" {
      assert a + b == a;
    } else {
      StateOfPieces(st, a, b[..|b| - 1]);
      assert (a + b)[..|a + b| - 1] == a + b[..|b| - 1];
    }
  }

  /** Text in pieces is cleaned piece by piece, the state carried over. */
  lemma {:induction false} Pieces(st: State, a: string, b: string)
    ensures Final(st, a + b) == Final(Final(st, a), b)
    ensures Through(st, a + b) == Through(st, a) + Through(Final(st, a), b)
  {
    hide Final, Out;
    StateOfPieces(st, a, b);
    if b == "" {
      assert a + b == a;
    } else {
      Pieces(st, a, b[..|b| - 1]);
      assert (a + b)[..|a + b| - 1] == a + b[..|b| - 1];
    }
  }

  /** Nothing that could steer the terminal comes through. */
  lemma {:induction false} OnlyShownComesThrough(st: State, text: string)
    ensures forall c :: c in Through(st, text) ==> Shown(c)
  {
    if text != "" {
      OnlyShownComesThrough(st, text[..|text| - 1]);
    }
  }

  lemma {:induction false} ShownTextIsUnchanged(text: string)
    requires forall c :: c in text ==> Shown(c)
    ensures Final(Ground, text) == Ground && Cleaned(text) == text
  {
    if text != "" {
      ShownTextIsUnchanged(text[..|text| - 1]);
      assert text[|text| - 1] in text;
    }
  }

  lemma CleaningTwiceIsCleaningOnce(text: string)
    ensures Cleaned(Cleaned(text)) == Cleaned(text)
  {
    OnlyShownComesThrough(Ground, text);
    ShownTextIsUnchanged(Cleaned(text));
  }

  /** Whether `hidden`, met in the ground state, leaves nothing behind. */
  ghost predicate Vanishes(hidden: string) {
    Final(Ground, hidden) == Ground && Cleaned(hidden) == ""
  }

  /** What vanishes does so without touching its neighbours. */
  lemma VanishedBetween(before: string, hidden: string, after: string)
    requires Final(Ground, before) == Ground && Vanishes(hidden)
    ensures Cleaned(before + hidden + after) == Cleaned(before) + Cleaned(after)
  {
    hide Final, Through;
    Pieces(Ground, before + hidden, after);
    Pieces(Ground, before, hidden);
  }

  lemma {:induction false} StaysIn(st: State, text: string)
    requires st == Csi || st == InString
    requires forall c :: c in text ==> Move(st, c) == st
    ensures Final(st, text) == st && Through(st, text) == ""
  {
    if text != "" {
      StaysIn(st, text[..|text| - 1]);
      assert text[|text| - 1] in text;
    }
  }

  lemma OneChar(st: State, c: char)
    ensures Final(st, [c]) == Move(st, c) && Through(st, [c]) == Out(st, c)
  {
    assert [c][..0] == "";
  }

  /** CSI, in its 7-bit or its 8-bit form. */
  function CsiOpener(short: bool): string { if short then ['\U{9B}'] else [ESC, '['] }

  lemma Opens(opener: string, st: State)
    requires (opener == ['\U{9B}'] || opener == [ESC, '[']) ==> st == Csi
    requires opener == ['\U{9B}'] || opener == [ESC, '['] || (StringOpener(opener) && st == InString)
    ensures Final(Ground, opener) == st && Cleaned(opener) == ""
  {
    OpenersOpen(opener);
    OneChar(Ground, opener[0]);
    if |opener| == 2 {
      OneChar(Escape, opener[1]);
      Pieces(Ground, [opener[0]], [opener[1]]);
      assert opener == [opener[0]] + [opener[1]];
    } else {
      assert opener == [opener[0]];
    }
  }

  /** A control sequence (section 5.4 of ECMA-48): parameter bytes, then
      intermediate bytes, then one final byte. */
  lemma ControlSequenceVanishes(short: bool, parameters: string, intermediates: string, final: char)
    requires forall c :: c in parameters ==> '\U{30}' <= c <= '\U{3F}'
    requires forall c :: c in intermediates ==> '\U{20}' <= c <= '\U{2F}'
    requires '\U{40}' <= final <= '\U{7E}'
    ensures Vanishes(CsiOpener(short) + (parameters + intermediates) + [final])
  {
    var middle := parameters + intermediates;
    Opens(CsiOpener(short), Csi);
    StaysIn(Csi, middle);
    OneChar(Csi, final);
    Pieces(Ground, CsiOpener(short), middle);
    Pieces(Ground, CsiOpener(short) + middle, [final]);
  }

  /** What opens a control string: DCS, SOS, OSC, PM and APC (section 8.3 of
      ECMA-48), each in its 7-bit and its 8-bit form. */
  const STRING_OPENERS: seq<string> :=
    ["\U{1B}P", "\U{1B}X", "\U{1B}]", "\U{1B}^", "\U{1B}_", "\U{90}", "\U{98}", "\U{9D}", "\U{9E}", "\U{9F}"]

  predicate StringOpener(opener: string) { opener in STRING_OPENERS }

  lemma OpenersOpen(opener: string)
    ensures StringOpener(opener)
            <==> || (|opener| == 1 && StringOpener8(opener[0]))
                 || (|opener| == 2 && opener[0] == ESC && StringOpener7(opener[1]))
  {
    if |opener| == 1 {
      assert opener == [opener[0]];
    } else if |opener| == 2 {
      assert opener == [opener[0], opener[1]];
    }
  }

  /** STRING TERMINATOR, in its 7-bit or its 8-bit form. */
  function Terminator(short: bool): string { if short then [ST8] else [ESC, '\\'] }

  /** No terminator inside, and no bell. */
  ghost predicate Unended(body: string) {
    && (forall c :: c in body ==> c != ST8 && c != BEL)
    && forall i :: 0 < i < |body| && body[i] == '\\' ==> body[i - 1] != ESC
  }

  lemma {:induction false} UnendedStays(body: string)
    requires Unended(body)
    ensures Through(InString, body) == ""
    ensures Final(InString, body) == if body != "" && body[|body| - 1] == ESC then StringEscape else InString
  {
    if body != "" {
      var front := body[..|body| - 1];
      assert forall c :: c in front ==> c in body;
      UnendedStays(front);
      assert body[|body| - 1] in body;
      if front != "" {
        assert front[|front| - 1] == body[|body| - 2];
      }
    }
  }

  lemma Terminates(st: State, short: bool)
    requires st == InString || st == StringEscape
    ensures Final(st, Terminator(short)) == Ground && Through(st, Terminator(short)) == ""
  {
    if short {
      OneChar(st, ST8);
    } else {
      OneChar(st, ESC);
      OneChar(StringEscape, '\\');
      Pieces(st, [ESC], ['\\']);
      assert Terminator(short) == [ESC] + ['\\'];
    }
  }

  /** A control string (section 5.6 of ECMA-48) whose text has no bell: every
      command string, and any other string, however it is opened and ended. */
  lemma ControlStringVanishes(opener: string, body: string, short: bool)
    requires StringOpener(opener) && Unended(body)
    ensures Vanishes(opener + body + Terminator(short))
  {
    Opens(opener, InString);
    UnendedStays(body);
    Pieces(Ground, opener, body);
    Terminates(Final(InString, body), short);
    Pieces(Ground, opener + body, Terminator(short));
  }

  /** The text of a command string: format effectors and graphic characters. */
  predicate CommandText(c: char) { '\U{08}' <= c <= '\U{0D}' || '\U{20}' <= c <= '\U{7E}' }

  lemma CommandStringVanishes(opener: string, body: string, short: bool)
    requires StringOpener(opener) && forall c :: c in body ==> CommandText(c)
    ensures Vanishes(opener + body + Terminator(short))
  {
    assert forall i :: 0 <= i < |body| ==> body[i] in body;
    ControlStringVanishes(opener, body, short);
  }

  lemma {:induction false} GroundTextShows(text: string)
    requires forall c :: c in text ==> CommandText(c) || c == BEL
    ensures Final(Ground, text) == Ground
    ensures Cleaned(text) == "" <==> forall c :: c in text ==> c == '\r'
  {
    if text != "" {
      var front, last := text[..|text| - 1], text[|text| - 1];
      assert last in text && forall c :: c in front ==> c in text;
      GroundTextShows(front);
      assert forall c :: c in text ==> c in front || c == last;
    }
  }

  /** A string is over at its first bell, even after a lone ESC. */
  lemma UpToBellVanishes(opener: string, quiet: string)
    requires StringOpener(opener) && Unended(quiet)
    ensures Vanishes(opener + (quiet + [BEL]))
  {
    Opens(opener, InString);
    UnendedStays(quiet);
    OneChar(InString, BEL);
    OneChar(StringEscape, BEL);
    hide Final, Through, StringOpener;
    Pieces(InString, quiet, [BEL]);
    Pieces(Ground, opener, quiet + [BEL]);
  }

  /** SOS allows a bell inside its character string, and the removal stops at
      the first one. Such a string vanishes exactly when what follows that bell
      vanishes by itself, its terminator with it. */
  lemma BellEndsAString(opener: string, quiet: string, rest: string, short: bool)
    requires StringOpener(opener) && Unended(quiet)
    ensures var whole := opener + (quiet + [BEL] + rest) + Terminator(short);
            && Final(Ground, whole) == Final(Ground, rest + Terminator(short))
            && Cleaned(whole) == Cleaned(rest + Terminator(short))
            && (Vanishes(whole) <==> Vanishes(rest + Terminator(short)))
  {
    hide Final, Through, StringOpener, Terminator, Unended;
    var hidden := opener + (quiet + [BEL]);
    UpToBellVanishes(opener, quiet);
    Pieces(Ground, hidden, rest + Terminator(short));
    assert opener + (quiet + [BEL] + rest) + Terminator(short) == hidden + (rest + Terminator(short));
  }

  /** With graphic characters, format effectors and bells only, that is when
      nothing but carriage returns follow and the terminator is the 7-bit one. */
  lemma BellEndsAPlainString(opener: string, quiet: string, rest: string, short: bool)
    requires StringOpener(opener) && forall c :: c in quiet ==> CommandText(c)
    requires forall c :: c in rest ==> CommandText(c) || c == BEL
    ensures Vanishes(opener + (quiet + [BEL] + rest) + Terminator(short))
            <==> !short && forall c :: c in rest ==> c == '\r'
  {
    assert forall i :: 0 <= i < |quiet| ==> quiet[i] in quiet;
    BellEndsAString(opener, quiet, rest, short);
    GroundTextShows(rest);
    AfterGround(short);
    hide Final, Through, StringOpener, Terminator;
    Pieces(Ground, rest, Terminator(short));
  }

  lemma AfterGround(short: bool)
    ensures Final(Ground, Terminator(short)) == Ground
    ensures Cleaned(Terminator(short)) == if short then [REPLACEMENT] else ""
  {
    if short {
      OneChar(Ground, ST8);
    } else {
      OneChar(Ground, ESC);
      OneChar(Escape, '\\');
      Pieces(Ground, [ESC], ['\\']);
      assert Terminator(short) == [ESC] + ['\\'];
    }
  }

  /** A string opened by SOS with a bell inside: what follows the bell shows. */
  lemma SosWithBellShows()
    ensures Cleaned([ESC, 'X'] + ("a" + [BEL] + "b") + Terminator(false)) == "b"
  {
    hide Final, Through, Terminator;
    ShownTextIsUnchanged("b");
    AfterGround(false);
    Pieces(Ground, "b", Terminator(false));
    assert Unended("a");
    BellEndsAString([ESC, 'X'], "a", "b", false);
  }

  /** What follows may vanish too: here a control sequence does. */
  lemma SosWithBellVanishes()
    ensures Vanishes([ESC, 'X'] + ("a" + [BEL] + [ESC, '[', 'm']) + Terminator(false))
  {
    hide Final, Through, Terminator;
    ControlSequenceVanishes(false, "", "", 'm');
    var sequence := CsiOpener(false) + ("" + "") + ['m'];
    assert sequence == [ESC, '[', 'm'];
    AfterGround(false);
    Pieces(Ground, sequence, Terminator(false));
    assert Unended("a");
    BellEndsAString([ESC, 'X'], "a", sequence, false);
  }

  // ------------------------------------------------------- Character by character

  /** An escape and any character are gone, and the text goes on behind them,
      exactly when the two open neither a control sequence nor a string. */
  lemma EscapeVanishesExactly(c: char)
    ensures Vanishes([ESC, c]) <==> c != '[' && [ESC, c] !in STRING_OPENERS
  {
    OpenersOpen([ESC, c]);
    OneChar(Ground, ESC);
    OneChar(Escape, c);
    Pieces(Ground, [ESC], [c]);
    assert [ESC, c] == [ESC] + [c];
  }

  /** However malformed, a control sequence is over at the first character that
      is no parameter and no intermediate byte. */
  lemma SequenceEndsExactly(short: bool, middle: string, last: char)
    requires forall c :: c in middle ==> '\U{20}' <= c <= '\U{3F}'
    ensures Vanishes(CsiOpener(short) + middle + [last]) <==> !('\U{20}' <= last <= '\U{3F}')
  {
    Opens(CsiOpener(short), Csi);
    StaysIn(Csi, middle);
    OneChar(Csi, last);
    hide Final, Through;
    Pieces(Ground, CsiOpener(short), middle);
    Pieces(Ground, CsiOpener(short) + middle, [last]);
  }

  /** Whether a character opens something that is skipped. */
  predicate Opening(c: char) { c == ESC || c == '\U{9B}' || [c] in STRING_OPENERS }

  /** What any other character leaves where it stands: itself, four spaces for a
      tab, nothing for a carriage return, and U+FFFD when it could steer the
      terminal; what is around it is cleaned as if it were not there. */
  lemma EachCharacterLeaves(before: string, c: char, after: string)
    requires Final(Ground, before) == Ground && !Opening(c)
    ensures var left :=
              if c == '\t' then "    " else if c == '\r' then ""
              else if c != '\n' && Steers(c) then "\U{FFFD}" else [c];
            Cleaned(before + [c] + after) == Cleaned(before) + left + Cleaned(after)
  {
    OpenersOpen([c]);
    SteersExactly(c);
    OneChar(Ground, c);
    hide Final, Through, Steers;
    Pieces(Ground, before + [c], after);
    Pieces(Ground, before, [c]);
  }
}
