/** Collecting one answer from a provider's event stream: lines of JSON read in
    pieces while the prompt is written, within bounds on every size.

    What a line means is `parse`, which is any function. */
module Proposal {
  import opened Wrappers

  const NEWLINE: byte := 10
  const MAX_OUTPUT := 65_536
  const MAX_FRAME := 1_048_576
  const MAX_STREAM := 8_388_608
  const CHUNK := 65_536

  // ------------------------------------------------------------------ Events

  /** The text of an item: absent or no string, with no UTF-8, or its UTF-8. */
  datatype Text = NoText | Unencodable | Text(utf8: seq<byte>)

  datatype Kind = ErrorItem | AgentMessage | Reasoning | Named(name: string) | Nameless

  datatype Item = NoObject | Item(kind: Kind, text: Text)

  datatype Phase = Started | Updated | Completed

  /** What a usage entry holds: an integer, or anything else. */
  datatype Usage = Count(n: int) | NoCount

  datatype Event =
    | ItemEvent(phase: Phase, item: Item)
    | TurnCompleted(usage: Option<map<string, Usage>>)
    | Opening
    | Failure
    | Unknown

  /** A line: no JSON object, one that the reader itself breaks on, or an event. */
  datatype Parsed = Garbled | Breaks | Heard(event: Event)

  /** A fixed code, or an exception nobody catches. */
  datatype Fault = Rejected(code: string) | Uncaught

  datatype Captured = Captured(
    answer: Option<seq<byte>>, usage: Option<map<string, int>>, completed: bool,
    toolItems: nat, diagnosticItems: nat, rejectedKind: Option<string>)

  const NOTHING: Captured := Captured(None, None, false, 0, 0, None)

  predicate Plain(name: string) {
    1 <= |name| <= 64 && forall c :: c in name ==> 'A' <= c <= 'Z' || 'a' <= c <= 'z' || c == '_'
  }

  const COUNTED: set<string> := {"input_tokens", "cached_input_tokens", "output_tokens"}

  function Allowed(usage: map<string, Usage>): (kept: map<string, int>)
    ensures forall key :: key in kept <==> key in usage && key in COUNTED && usage[key].Count? && usage[key].n >= 0
    ensures forall key :: key in kept ==> kept[key] == usage[key].n
  {
    map key | key in usage && key in COUNTED && usage[key].Count? && usage[key].n >= 0 :: usage[key].n
  }

  function AcceptedAnswer(c: Captured, text: Text): (Captured, Option<Fault>) {
    if text.NoText? then (c, Some(Rejected("invalid_final_answer")))
    else if text.Unencodable? then (c, Some(Uncaught))
    else if |text.utf8| > MAX_OUTPUT then (c, Some(Rejected("oversized_answer")))
    else if c.answer.Some? then (c, Some(Rejected("multiple_messages")))
    else (c.(answer := Some(text.utf8)), None)
  }

  function AcceptedItem(c: Captured, phase: Phase, item: Item): (Captured, Option<Fault>) {
    if item.NoObject? then (c, Some(Uncaught))
    else if item.kind == ErrorItem then (c.(diagnosticItems := c.diagnosticItems + 1), None)
    else if item.kind != AgentMessage && item.kind != Reasoning then
      (c.(toolItems := c.toolItems + 1,
          rejectedKind := if item.kind.Named? && Plain(item.kind.name) then Some(item.kind.name) else c.rejectedKind),
       Some(Rejected("unexpected_tool_or_item")))
    else if phase == Completed && item.kind == AgentMessage then AcceptedAnswer(c, item.text)
    else (c, None)
  }

  /** `Capture.accept`: the new state, and why collecting ends, if it does. */
  function Accepted(c: Captured, event: Event): (Captured, Option<Fault>) {
    if event.ItemEvent? then AcceptedItem(c, event.phase, event.item)
    else if event.TurnCompleted? then
      if event.usage.None? then (c, Some(Uncaught))
      else (c.(usage := Some(Allowed(event.usage.value)), completed := true), None)
    else if event == Failure then (c, Some(Rejected("provider_error")))
    else if event == Opening then (c, None)
    else (c, Some(Rejected("unexpected_event")))
  }

  // -------------------------------------------------------------- The stream

  /** Where the first newline is, or the end. */
  function FirstLine(bytes: seq<byte>): (k: nat)
    ensures k <= |bytes| && NEWLINE !in bytes[..k] && (k < |bytes| ==> bytes[k] == NEWLINE)
  {
    if bytes == [] || bytes[0] == NEWLINE then 0
    else
      var k := FirstLine(bytes[1..]) + 1;
      assert bytes[..k] == [bytes[0]] + bytes[1..][..k - 1];
      k
  }

  datatype Progress = Progress(capture: Captured, fault: Option<Fault>, rest: seq<byte>)

  function Stopped(capture: Captured, fault: Fault): Progress { Progress(capture, Some(fault), []) }

  /** One whole line. */
  function Line(parse: seq<byte> -> Parsed, c: Captured, frame: seq<byte>): (Captured, Option<Fault>) {
    if |frame| > MAX_FRAME then (c, Some(Rejected("oversized_frame")))
    else
      var parsed := parse(frame);
      if parsed == Garbled then (c, Some(Rejected("invalid_frame")))
      else if parsed == Breaks then (c, Some(Uncaught))
      else Accepted(c, parsed.event)
  }

  /** Every whole line of `bytes`, in order, up to the first fault. */
  function Drain(parse: seq<byte> -> Parsed, c: Captured, bytes: seq<byte>): Progress
    decreases |bytes|
  {
    var k := FirstLine(bytes);
    if k == |bytes| then
      if k > MAX_FRAME then Stopped(c, Rejected("oversized_frame")) else Progress(c, None, bytes)
    else
      var (after, fault) := Line(parse, c, bytes[..k]);
      if fault.Some? then Stopped(after, fault.value) else Drain(parse, after, bytes[k + 1..])
  }

  /** How collecting ends: out of time, unable to write, at fault, or well. */
  datatype Ending = TimedOut | WriteFailed | Faulted(fault: Fault) | Collected

  /** The end that a whole stdout and an exit code call for. */
  function Verdict(parse: seq<byte> -> Parsed, stdout: seq<byte>, code: Option<int>): Ending {
    var p := Drain(parse, NOTHING, stdout);
    if p.fault.Some? then Faulted(p.fault.value)
    else if p.rest != [] then Faulted(Rejected("incomplete_frame"))
    else if code.None? then TimedOut
    else if code.value != 0 then Faulted(Rejected("cli_failed"))
    else if !p.capture.completed || p.capture.answer.None? then Faulted(Rejected("missing_result"))
    else Collected
  }

  // ------------------------------------------------------------ The collector

  class Capture {
    var answer: Option<seq<byte>>
    var usage: Option<map<string, int>>
    var completed: bool
    var toolItems: nat
    var diagnosticItems: nat
    var rejectedKind: Option<string>

    function State(): Captured
      reads this
    {
      Captured(answer, usage, completed, toolItems, diagnosticItems, rejectedKind)
    }

    constructor ()
      ensures State() == NOTHING
    {
      answer, usage, completed, toolItems, diagnosticItems, rejectedKind := None, None, false, 0, 0, None;
    }

    method Accept(event: Event) returns (fault: Option<Fault>)
      modifies this
      ensures (State(), fault) == Accepted(old(State()), event)
    {
      if event.ItemEvent? {
        var item := event.item;
        if item.NoObject? {
          return Some(Uncaught);
        }
        if item.kind == ErrorItem {
          diagnosticItems := diagnosticItems + 1;
          return None;
        }
        if item.kind != AgentMessage && item.kind != Reasoning {
          toolItems := toolItems + 1;
          if item.kind.Named? && Plain(item.kind.name) {
            rejectedKind := Some(item.kind.name);
          }
          return Some(Rejected("unexpected_tool_or_item"));
        }
        if event.phase == Completed && item.kind == AgentMessage {
          if item.text.NoText? {
            return Some(Rejected("invalid_final_answer"));
          }
          if item.text.Unencodable? {
            return Some(Uncaught);
          }
          if |item.text.utf8| > MAX_OUTPUT {
            return Some(Rejected("oversized_answer"));
          }
          if answer.Some? {
            return Some(Rejected("multiple_messages"));
          }
          answer := Some(item.text.utf8);
        }
        return None;
      }
      if event.TurnCompleted? {
        if event.usage.None? {
          return Some(Uncaught);
        }
        usage := Some(Allowed(event.usage.value));
        completed := true;
        return None;
      }
      if event == Failure {
        return Some(Rejected("provider_error"));
      }
      if event != Opening {
        return Some(Rejected("unexpected_event"));
      }
      return None;
    }
  }

  lemma {:induction false} FirstLineIs(bytes: seq<byte>, k: nat)
    requires k <= |bytes| && NEWLINE !in bytes[..k] && (k < |bytes| ==> bytes[k] == NEWLINE)
    ensures FirstLine(bytes) == k
  {
    var j := FirstLine(bytes);
    assert forall i :: 0 <= i < j ==> bytes[..j][i] != NEWLINE;
    assert forall i :: 0 <= i < k ==> bytes[..k][i] != NEWLINE;
  }

  /** One line of draining. */
  lemma DrainNext(parse: seq<byte> -> Parsed, c: Captured, bytes: seq<byte>)
    ensures var k := FirstLine(bytes);
            Drain(parse, c, bytes)
            == if k == |bytes| then
                 if k > MAX_FRAME then Stopped(c, Rejected("oversized_frame")) else Progress(c, None, bytes)
               else
                 var (after, fault) := Line(parse, c, bytes[..k]);
                 if fault.Some? then Stopped(after, fault.value) else Drain(parse, after, bytes[k + 1..])
  {
    hide FirstLine, Line;
  }

  lemma LongLine(parse: seq<byte> -> Parsed, c: Captured, frame: seq<byte>)
    requires |frame| > MAX_FRAME
    ensures Line(parse, c, frame) == (c, Some(Rejected("oversized_frame")))
  {
  }

  /** Bytes that come in two parts mean what they mean in one. */
  lemma {:induction false} DrainInTwo(parse: seq<byte> -> Parsed, c: Captured, a: seq<byte>, b: seq<byte>)
    ensures var p := Drain(parse, c, a);
            Drain(parse, c, a + b) == if p.fault.Some? then p else Drain(parse, p.capture, p.rest + b)
    decreases |a|
  {
    hide Line, Drain;
    var k := FirstLine(a);
    DrainNext(parse, c, a);
    DrainNext(parse, c, a + b);
    if k == |a| {
      var n := FirstLine(a + b);
      assert forall i :: 0 <= i < k ==> a[..k][i] != NEWLINE;
      FirstLineBeyond(a, b);
      if k > MAX_FRAME && n < |a + b| {
        LongLine(parse, c, (a + b)[..n]);
      }
    } else {
      assert (a + b)[..k] == a[..k];
      FirstLineIs(a + b, k);
      assert (a + b)[k + 1..] == a[k + 1..] + b;
      var (after, fault) := Line(parse, c, a[..k]);
      if fault.None? {
        DrainInTwo(parse, after, a[k + 1..], b);
      }
    }
  }

  lemma FirstLineBeyond(a: seq<byte>, b: seq<byte>)
    requires FirstLine(a) == |a|
    ensures FirstLine(a + b) >= |a|
  {
    var n := FirstLine(a + b);
    assert forall i :: 0 <= i < |a| ==> a[i] == a[..|a|][i] && (a + b)[i] == a[i];
  }

  lemma LeftOver(parse: seq<byte> -> Parsed, c: Captured, bytes: seq<byte>)
    requires NEWLINE !in bytes && |bytes| <= MAX_FRAME
    ensures Drain(parse, c, bytes) == Progress(c, None, bytes)
  {
    FirstLineIs(bytes, |bytes|);
  }

  /** The lines of a buffer that is never longer than a frame and one read. */
  method DrainLines(parse: seq<byte> -> Parsed, capture: Capture, bytes: seq<byte>)
    returns (fault: Option<Fault>, buffer: seq<byte>)
    requires |bytes| <= MAX_FRAME + CHUNK
    modifies capture
    ensures Progress(capture.State(), fault, buffer) == Drain(parse, old(capture.State()), bytes)
    ensures |buffer| <= MAX_FRAME && NEWLINE !in buffer
  {
    buffer := bytes;
    while NEWLINE in buffer
      invariant Drain(parse, old(capture.State()), bytes) == Drain(parse, capture.State(), buffer)
      decreases |buffer|
    {
      var k := FirstLine(buffer);
      assert k < |buffer|;
      var frame := buffer[..k];
      buffer := buffer[k + 1..];
      if |frame| > MAX_FRAME {
        return Some(Rejected("oversized_frame")), [];
      }
      var parsed := parse(frame);
      if parsed == Garbled {
        return Some(Rejected("invalid_frame")), [];
      }
      if parsed == Breaks {
        return Some(Uncaught), [];
      }
      fault := capture.Accept(parsed.event);
      if fault.Some? {
        return fault, [];
      }
    }
    FirstLineIs(buffer, |buffer|);
    if |buffer| > MAX_FRAME {
      return Some(Rejected("oversized_frame")), [];
    }
    return None, buffer;
  }

  /** One ready pipe: room for some of the prompt, a write that fails, or bytes
      to read, at most one more than `more`. */
  datatype Turn = Writes(room: nat) | Unwritable | Reads(more: nat)

  lemma NextChunk(parse: seq<byte> -> Parsed, c: Captured, buffer: seq<byte>, stdout: seq<byte>, total: nat, n: nat)
    requires total + n <= |stdout|
    ensures var p := Drain(parse, c, buffer + stdout[total..total + n]);
            Drain(parse, c, buffer + stdout[total..])
            == if p.fault.Some? then p else Drain(parse, p.capture, p.rest + stdout[total + n..])
  {
    hide Drain;
    var chunk, rest := stdout[total..total + n], stdout[total + n..];
    assert buffer + stdout[total..] == buffer + chunk + rest;
    DrainInTwo(parse, c, buffer + chunk, rest);
  }

  /** How much the turns have room to write, and to read. */
  function WriteRoom(turns: seq<Turn>): nat {
    if turns == [] then 0
    else
      var last := turns[|turns| - 1];
      WriteRoom(turns[..|turns| - 1]) + if last.Writes? then Min(last.room, CHUNK) else 0
  }

  function ReadRoom(turns: seq<Turn>): nat {
    if turns == [] then 0
    else
      var last := turns[|turns| - 1];
      ReadRoom(turns[..|turns| - 1]) + if last.Reads? then Min(last.more + 1, CHUNK) else 0
  }

  /** The end of the stream can be read among the first `n` turns. */
  ghost predicate EndSeen(turns: seq<Turn>, n: nat, size: nat)
    requires n <= |turns|
  {
    exists j :: 0 <= j < n && turns[j].Reads? && ReadRoom(turns[..j]) >= size
  }

  /** Before the deadline there is room for the whole prompt and the stream. */
  ghost predicate InTime(turns: seq<Turn>, prompt: seq<byte>, stdout: seq<byte>) {
    && Unwritable !in turns && (exists turn :: turn in turns && turn.Writes?) && WriteRoom(turns) >= |prompt|
    && EndSeen(turns, |turns|, |stdout|)
  }

  lemma RoomNext(turns: seq<Turn>, i: nat)
    requires i < |turns|
    ensures WriteRoom(turns[..i + 1])
            == WriteRoom(turns[..i]) + if turns[i].Writes? then Min(turns[i].room, CHUNK) else 0
    ensures ReadRoom(turns[..i + 1])
            == ReadRoom(turns[..i]) + if turns[i].Reads? then Min(turns[i].more + 1, CHUNK) else 0
  {
    assert turns[..i + 1][..i] == turns[..i];
  }

  lemma EndSeenNext(turns: seq<Turn>, i: nat, size: nat)
    requires i < |turns|
    ensures EndSeen(turns, i + 1, size)
            <==> EndSeen(turns, i, size) || (turns[i].Reads? && ReadRoom(turns[..i]) >= size)
  {
    hide ReadRoom;
  }

  /** `collect`: `stdout` is all that the process will ever write and `turns`
      how its pipes get ready; with the last of them the deadline passes. Given
      time and a prompt that can be written, the end is the one that stdout and
      the exit code call for; otherwise it is that or running out of time, or a
      write that fails. */
  method Collect(parse: seq<byte> -> Parsed, capture: Capture, prompt: seq<byte>, stdout: seq<byte>,
                 turns: seq<Turn>, code: Option<int>)
    returns (ending: Ending, written: seq<byte>)
    requires capture.State() == NOTHING
    modifies capture
    ensures written <= prompt
    ensures |stdout| <= MAX_STREAM && ending != TimedOut && ending != WriteFailed
            ==> ending == Verdict(parse, stdout, code)
                && capture.State() == Drain(parse, NOTHING, stdout).capture
    ensures InTime(turns, prompt, stdout) && |stdout| <= MAX_STREAM ==> ending == Verdict(parse, stdout, code)
    ensures ending == WriteFailed ==> Unwritable in turns
    ensures ending == Collected
            ==> && written == prompt && |stdout| <= MAX_STREAM && code == Some(0)
                && Verdict(parse, stdout, code) == Collected
                && capture.State() == Drain(parse, NOTHING, stdout).capture
  {
    hide Drain, FirstLine, WriteRoom, ReadRoom, EndSeen;
    assert turns[..|turns|] == turns;
    NoRoomYet(turns, |stdout|);
    var pending, buffer := prompt, [];
    var total: nat, i: nat := 0, 0;
    var writing, reading := true, true;
    written := [];
    assert [] + stdout[0..] == stdout;
    while writing || reading
      invariant i <= |turns| && total <= |stdout| && total <= MAX_STREAM && |buffer| <= MAX_FRAME
      invariant NEWLINE !in buffer
      invariant written + pending == prompt && (!writing ==> pending == [])
      invariant !reading ==> total == |stdout| && buffer == []
      invariant |written| >= Min(|prompt|, WriteRoom(turns[..i])) && total >= Min(|stdout|, ReadRoom(turns[..i]))
      invariant writing ==> pending != [] || forall k :: 0 <= k < i ==> !turns[k].Writes?
      invariant reading ==> !EndSeen(turns, i, |stdout|)
      invariant Drain(parse, NOTHING, stdout) == Drain(parse, capture.State(), buffer + stdout[total..])
      decreases |turns| - i
    {
      if i == |turns| {
        return TimedOut, written;
      }
      var turn := turns[i];
      RoomNext(turns, i);
      EndSeenNext(turns, i, |stdout|);
      i := i + 1;
      if writing && turn.Unwritable? {
        return WriteFailed, written;
      }
      if writing && turn.Writes? {
        var count := Min(turn.room, Min(CHUNK, |pending|));
        written := written + pending[..count];
        pending := pending[count..];
        writing := pending != [];
      } else if reading && turn.Reads? {
        var n := Min(turn.more + 1, Min(CHUNK, |stdout| - total));
        if n == 0 {
          reading := false;
          assert buffer + stdout[total..] == buffer;
          if buffer != [] {
            LeftOver(parse, capture.State(), buffer);
            return Faulted(Rejected("incomplete_frame")), written;
          }
        } else {
          var chunk := stdout[total..total + n];
          NextChunk(parse, capture.State(), buffer, stdout, total, n);
          total := total + n;
          if total > MAX_STREAM {
            return Faulted(Rejected("oversized_stream")), written;
          }
          var fault;
          fault, buffer := DrainLines(parse, capture, buffer + chunk);
          if fault.Some? {
            return Faulted(fault.value), written;
          }
        }
      }
    }
    assert buffer + stdout[total..] == [];
    LeftOver(parse, capture.State(), []);
    if code.None? {
      return TimedOut, written;
    }
    if code.value != 0 {
      return Faulted(Rejected("cli_failed")), written;
    }
    if !capture.completed || capture.answer.None? {
      return Faulted(Rejected("missing_result")), written;
    }
    return Collected, written;
  }

  lemma NoRoomYet(turns: seq<Turn>, size: nat)
    ensures WriteRoom(turns[..0]) == 0 && ReadRoom(turns[..0]) == 0 && !EndSeen(turns, 0, size)
  {
  }

  // -------------------------------------------------- What a collected answer is

  /** The whole lines of a stream, and what follows the last newline. */
  function Frames(bytes: seq<byte>): seq<seq<byte>>
    decreases |bytes|
  {
    var k := FirstLine(bytes);
    if k == |bytes| then [] else [bytes[..k]] + Frames(bytes[k + 1..])
  }

  function Tail(bytes: seq<byte>): seq<byte>
    decreases |bytes|
  {
    var k := FirstLine(bytes);
    if k == |bytes| then bytes else Tail(bytes[k + 1..])
  }

  /** An event that calls for nothing: no tool, no failure, no odd answer. */
  predicate Harmless(event: Event) {
    match event
    case ItemEvent(phase, item) =>
      && item.Item?
      && (item.kind == ErrorItem || item.kind == Reasoning
          || (item.kind == AgentMessage
              && (phase == Completed ==> item.text.Text? && |item.text.utf8| <= MAX_OUTPUT)))
    case TurnCompleted(usage) => usage.Some?
    case Opening => true
    case _ => false
  }

  predicate HarmlessLine(parse: seq<byte> -> Parsed, frame: seq<byte>) {
    |frame| <= MAX_FRAME && parse(frame).Heard? && Harmless(parse(frame).event)
  }

  predicate IsAnswer(event: Event) {
    event.ItemEvent? && event.phase == Completed && event.item.Item? && event.item.kind == AgentMessage
    && event.item.text.Text?
  }

  /** The answers among the lines, in order. */
  function Answers(parse: seq<byte> -> Parsed, frames: seq<seq<byte>>): seq<seq<byte>> {
    if frames == [] then []
    else
      var parsed := parse(frames[0]);
      (if parsed.Heard? && IsAnswer(parsed.event) then [parsed.event.item.text.utf8] else [])
      + Answers(parse, frames[1..])
  }

  ghost predicate TurnEnds(parse: seq<byte> -> Parsed, frames: seq<seq<byte>>) {
    exists frame :: frame in frames && parse(frame).Heard? && parse(frame).event.TurnCompleted?
  }

  function Held(answer: Option<seq<byte>>): seq<seq<byte>> { if answer.None? then [] else [answer.value] }

  lemma LineExactly(parse: seq<byte> -> Parsed, c: Captured, frame: seq<byte>)
    ensures var (after, fault) := Line(parse, c, frame);
            && (fault.None? <==> HarmlessLine(parse, frame) && |Held(c.answer) + Answers(parse, [frame])| <= 1)
            && (fault.None? ==> && Held(after.answer) == Held(c.answer) + Answers(parse, [frame])
                                && after.completed == (c.completed || TurnEnds(parse, [frame]))
                                && after.toolItems == c.toolItems)
  {
    assert [frame][1..] == [] && [frame][0] == frame;
    assert frame in [frame];
    var some := Answers(parse, [frame]);
    assert c.answer.None? || some == [] ==> |Held(c.answer) + some| <= 1;
    if HarmlessLine(parse, frame) && IsAnswer(parse(frame).event) {
      assert [] + [parse(frame).event.item.text.utf8] == [parse(frame).event.item.text.utf8];
    } else {
      assert HarmlessLine(parse, frame) ==> some == [];
    }
  }

  lemma AnswersFirst(parse: seq<byte> -> Parsed, frame: seq<byte>, rest: seq<seq<byte>>)
    ensures Answers(parse, [frame] + rest) == Answers(parse, [frame]) + Answers(parse, rest)
    ensures TurnEnds(parse, [frame] + rest) <==> TurnEnds(parse, [frame]) || TurnEnds(parse, rest)
  {
    assert ([frame] + rest)[1..] == rest && [frame][1..] == [];
    assert forall f :: f in [frame] + rest <==> f in [frame] || f in rest;
  }

  lemma {:induction false} DrainExactly(parse: seq<byte> -> Parsed, c: Captured, bytes: seq<byte>)
    requires |Held(c.answer)| <= 1
    ensures var p := Drain(parse, c, bytes);
            var answers := Held(c.answer) + Answers(parse, Frames(bytes));
            && (p.fault.None? <==> |Tail(bytes)| <= MAX_FRAME && |answers| <= 1
                                   && forall frame :: frame in Frames(bytes) ==> HarmlessLine(parse, frame))
            && (p.fault.None? ==> && p.rest == Tail(bytes) && Held(p.capture.answer) == answers
                                  && p.capture.completed == (c.completed || TurnEnds(parse, Frames(bytes)))
                                  && p.capture.toolItems == c.toolItems)
    decreases |bytes|
  {
    hide Line, HarmlessLine, TurnEnds, Drain, Frames, Tail, Answers, Held, FirstLine;
    var k := FirstLine(bytes);
    DrainNext(parse, c, bytes);
    FramesNext(bytes);
    if k < |bytes| {
      var frame, rest := bytes[..k], bytes[k + 1..];
      LineExactly(parse, c, frame);
      AnswersFirst(parse, frame, Frames(rest));
      var (after, fault) := Line(parse, c, frame);
      assert Held(c.answer) + (Answers(parse, [frame]) + Answers(parse, Frames(rest)))
             == Held(c.answer) + Answers(parse, [frame]) + Answers(parse, Frames(rest));
      if fault.None? {
        DrainExactly(parse, after, rest);
      }
    } else {
      NoTurnEnds(parse);
      assert Held(c.answer) + [] == Held(c.answer);
    }
  }

  lemma NoTurnEnds(parse: seq<byte> -> Parsed)
    ensures !TurnEnds(parse, []) && Answers(parse, []) == []
  {
  }

  /** An answer is collected exactly when every byte is part of a whole line
      within bounds, every line is an event that calls for nothing else, one of
      them and no more is a completed message, a turn completed, and the
      process exited with 0. That message is the answer, and no tool was used. */
  lemma CollectedExactly(parse: seq<byte> -> Parsed, stdout: seq<byte>, code: Option<int>)
    ensures var frames := Frames(stdout);
            var capture := Drain(parse, NOTHING, stdout).capture;
            && (Verdict(parse, stdout, code) == Collected
                <==> && Tail(stdout) == [] && (forall frame :: frame in frames ==> HarmlessLine(parse, frame))
                     && |Answers(parse, frames)| == 1 && TurnEnds(parse, frames) && code == Some(0))
            && (Verdict(parse, stdout, code) == Collected
                ==> [capture.answer.value] == Answers(parse, frames) && |capture.answer.value| <= MAX_OUTPUT
                    && capture.toolItems == 0)
  {
    hide Drain, Frames, Answers, TurnEnds, HarmlessLine, Tail;
    DrainExactly(parse, NOTHING, stdout);
    assert Held(None) + Answers(parse, Frames(stdout)) == Answers(parse, Frames(stdout));
    if forall frame :: frame in Frames(stdout) ==> HarmlessLine(parse, frame) {
      AnswersAreBounded(parse, Frames(stdout));
    }
  }

  lemma {:induction false} AnswersAreBounded(parse: seq<byte> -> Parsed, frames: seq<seq<byte>>)
    requires forall frame :: frame in frames ==> HarmlessLine(parse, frame)
    ensures forall answer :: answer in Answers(parse, frames) ==> |answer| <= MAX_OUTPUT
  {
    if frames != [] {
      assert frames[0] in frames && forall f :: f in frames[1..] ==> f in frames;
      AnswersAreBounded(parse, frames[1..]);
    }
  }

  /** The lines, each with its newline, and the tail are the stream. */
  lemma {:induction false} FramesMakeStream(bytes: seq<byte>)
    ensures Ended(Frames(bytes)) + Tail(bytes) == bytes && NEWLINE !in Tail(bytes)
    ensures NoNewlines(Frames(bytes))
    decreases |bytes|
  {
    hide FirstLine, Frames, Tail, Ended, NoNewlines;
    var k := FirstLine(bytes);
    FramesNext(bytes);
    NoneEnded();
    if k < |bytes| {
      var frame, more := bytes[..k], bytes[k + 1..];
      FramesMakeStream(more);
      EndedNext(frame, Frames(more));
      NoNewlinesNext(frame, Frames(more));
      assert bytes == frame + [NEWLINE] + more;
      assert frame + [NEWLINE] + Ended(Frames(more)) + Tail(more)
             == frame + [NEWLINE] + (Ended(Frames(more)) + Tail(more));
    } else {
      assert [] + bytes == bytes;
    }
  }

  lemma FramesNext(bytes: seq<byte>)
    ensures var k := FirstLine(bytes);
            if k < |bytes|
            then Frames(bytes) == [bytes[..k]] + Frames(bytes[k + 1..]) && Tail(bytes) == Tail(bytes[k + 1..])
            else Frames(bytes) == [] && Tail(bytes) == bytes && NEWLINE !in bytes
  {
    hide FirstLine, Frames, Tail;
    OneFrameMore(bytes);
    TailOfRest(bytes);
    assert bytes[..|bytes|] == bytes;
  }

  lemma OneFrameMore(bytes: seq<byte>)
    ensures var k := FirstLine(bytes);
            Frames(bytes) == if k == |bytes| then [] else [bytes[..k]] + Frames(bytes[k + 1..])
  {
    hide FirstLine;
  }

  lemma TailOfRest(bytes: seq<byte>)
    ensures var k := FirstLine(bytes); Tail(bytes) == if k == |bytes| then bytes else Tail(bytes[k + 1..])
  {
    hide FirstLine;
  }

  predicate NoNewlines(frames: seq<seq<byte>>) { forall frame :: frame in frames ==> NEWLINE !in frame }

  lemma NoneEnded()
    ensures Ended([]) == [] && NoNewlines([])
  {
  }

  lemma NoNewlinesNext(frame: seq<byte>, frames: seq<seq<byte>>)
    requires NEWLINE !in frame && NoNewlines(frames)
    ensures NoNewlines([frame] + frames)
  {
  }

  lemma EndedNext(frame: seq<byte>, frames: seq<seq<byte>>)
    ensures Ended([frame] + frames) == frame + [NEWLINE] + Ended(frames)
  {
    assert ([frame] + frames)[1..] == frames;
  }

  function Ended(frames: seq<seq<byte>>): seq<byte> {
    if frames == [] then [] else frames[0] + [NEWLINE] + Ended(frames[1..])
  }

  // ------------------------------------------------- What else was captured

  /** The usages that turns ended with, in order. */
  function Usages(parse: seq<byte> -> Parsed, frames: seq<seq<byte>>): seq<map<string, Usage>> {
    if frames == [] then []
    else
      var parsed := parse(frames[0]);
      (if parsed.Heard? && parsed.event.TurnCompleted? && parsed.event.usage.Some?
       then [parsed.event.usage.value] else [])
      + Usages(parse, frames[1..])
  }

  /** How many of the lines are about an error that does not end the turn. */
  function Diagnostics(parse: seq<byte> -> Parsed, frames: seq<seq<byte>>): nat {
    if frames == [] then 0
    else
      var parsed := parse(frames[0]);
      (if parsed.Heard? && parsed.event.ItemEvent? && parsed.event.item.Item? && parsed.event.item.kind == ErrorItem
       then 1 else 0)
      + Diagnostics(parse, frames[1..])
  }

  function LastOr(usages: seq<map<string, Usage>>, before: Option<map<string, int>>): Option<map<string, int>> {
    if usages == [] then before else Some(Allowed(usages[|usages| - 1]))
  }

  lemma LineLeaves(parse: seq<byte> -> Parsed, c: Captured, frame: seq<byte>)
    ensures var (after, fault) := Line(parse, c, frame);
            fault.None? ==>
              && after.usage == LastOr(Usages(parse, [frame]), c.usage)
              && after.diagnosticItems == c.diagnosticItems + Diagnostics(parse, [frame])
              && after.rejectedKind == c.rejectedKind
  {
    hide Allowed;
    assert [frame][1..] == [] && [frame][0] == frame;
    assert Usages(parse, []) == [] && Diagnostics(parse, []) == 0;
  }

  lemma CapturedNext(parse: seq<byte> -> Parsed, frame: seq<byte>, rest: seq<seq<byte>>)
    ensures Usages(parse, [frame] + rest) == Usages(parse, [frame]) + Usages(parse, rest)
    ensures Diagnostics(parse, [frame] + rest) == Diagnostics(parse, [frame]) + Diagnostics(parse, rest)
  {
    assert ([frame] + rest)[1..] == rest && [frame][1..] == [] && [frame][0] == frame;
    assert Usages(parse, []) == [];
  }

  /** Without a fault the usage kept is that of the last turn that ended, every
      error passed over is counted, and no tool was seen. */
  lemma {:induction false} CapturedBeside(parse: seq<byte> -> Parsed, c: Captured, bytes: seq<byte>)
    requires Drain(parse, c, bytes).fault.None?
    ensures var after, frames := Drain(parse, c, bytes).capture, Frames(bytes);
            && after.usage == LastOr(Usages(parse, frames), c.usage)
            && after.diagnosticItems == c.diagnosticItems + Diagnostics(parse, frames)
            && after.rejectedKind == c.rejectedKind
    decreases |bytes|
  {
    hide Line, Allowed, FirstLine;
    var k := FirstLine(bytes);
    if k < |bytes| {
      var frame, rest := bytes[..k], bytes[k + 1..];
      LineLeaves(parse, c, frame);
      var (after, fault) := Line(parse, c, frame);
      CapturedBeside(parse, after, rest);
      CapturedNext(parse, frame, Frames(rest));
    } else {
      assert Usages(parse, []) == [] && Diagnostics(parse, []) == 0;
    }
  }

  // ------------------------------------------------------- Why it is rejected

  /** A completed message, and what its text is. */
  predicate Message(event: Event) {
    event.ItemEvent? && event.phase == Completed && event.item.Item? && event.item.kind == AgentMessage
  }

  predicate ToolOrItem(event: Event) {
    event.ItemEvent? && event.item.Item? && (event.item.kind.Named? || event.item.kind.Nameless?)
  }

  /** The line fails for exactly this reason, whatever was captured before. */
  predicate FailsFor(parse: seq<byte> -> Parsed, c: Captured, frame: seq<byte>, fault: Fault) {
    var parsed := parse(frame);
    if fault == Uncaught then
      && |frame| <= MAX_FRAME
      && (parsed == Breaks
          || (parsed.Heard?
              && ((parsed.event.ItemEvent? && parsed.event.item.NoObject?)
                  || (parsed.event.TurnCompleted? && parsed.event.usage.None?)
                  || (Message(parsed.event) && parsed.event.item.text.Unencodable?))))
    else if fault.code == "oversized_frame" then |frame| > MAX_FRAME
    else if |frame| > MAX_FRAME then false
    else if fault.code == "invalid_frame" then parsed == Garbled
    else if !parsed.Heard? then false
    else if fault.code == "provider_error" then parsed.event == Failure
    else if fault.code == "unexpected_event" then parsed.event == Unknown
    else if fault.code == "unexpected_tool_or_item" then ToolOrItem(parsed.event)
    else if !Message(parsed.event) then false
    else if fault.code == "invalid_final_answer" then parsed.event.item.text.NoText?
    else if !parsed.event.item.text.Text? then false
    else if fault.code == "oversized_answer" then |parsed.event.item.text.utf8| > MAX_OUTPUT
    else if fault.code == "multiple_messages" then |parsed.event.item.text.utf8| <= MAX_OUTPUT && c.answer.Some?
    else false
  }

  /** Every fault of a line has its own reason, and is reported for it alone; an
      unexpected item is counted, and its kind kept when that is a short word. */
  lemma LineFailsExactly(parse: seq<byte> -> Parsed, c: Captured, frame: seq<byte>, fault: Fault)
    ensures Line(parse, c, frame).1 == Some(fault) <==> FailsFor(parse, c, frame, fault)
    ensures fault == Rejected("unexpected_tool_or_item") && FailsFor(parse, c, frame, fault) ==>
              Line(parse, c, frame).0 == ToolSeen(c, parse(frame).event.item.kind)
  {
    hide Allowed, Plain;
    if fault.Uncaught? {
      FailsUncaught(parse, c, frame);
    } else {
      hide Line, FailsFor, ToolSeen;
      FailsRejected(parse, c, frame, fault.code);
      RejectedTool(parse, c, frame);
    }
  }

  /** What is kept of an unexpected item. */
  function ToolSeen(c: Captured, kind: Kind): Captured {
    c.(toolItems := c.toolItems + 1,
       rejectedKind := if kind.Named? && 0 < |kind.name| < 65 && (forall ch :: ch in kind.name ==> ShortWord(ch))
                       then Some(kind.name) else c.rejectedKind)
  }

  lemma FailsUncaught(parse: seq<byte> -> Parsed, c: Captured, frame: seq<byte>)
    ensures Line(parse, c, frame).1 == Some(Uncaught) <==> FailsFor(parse, c, frame, Uncaught)
  {
    hide Allowed, Plain;
  }

  lemma FailsRejected(parse: seq<byte> -> Parsed, c: Captured, frame: seq<byte>, code: string)
    ensures Line(parse, c, frame).1 == Some(Rejected(code)) <==> FailsFor(parse, c, frame, Rejected(code))
  {
    hide Allowed, Plain;
  }

  lemma RejectedTool(parse: seq<byte> -> Parsed, c: Captured, frame: seq<byte>)
    ensures FailsFor(parse, c, frame, Rejected("unexpected_tool_or_item")) ==>
              && parse(frame).Heard? && parse(frame).event.ItemEvent? && parse(frame).event.item.Item?
              && Line(parse, c, frame).0 == ToolSeen(c, parse(frame).event.item.kind)
  {
    hide Line, ToolSeen;
    if FailsFor(parse, c, frame, Rejected("unexpected_tool_or_item")) {
      ToolIsSeen(parse, c, frame);
    }
  }

  lemma ToolIsSeen(parse: seq<byte> -> Parsed, c: Captured, frame: seq<byte>)
    requires |frame| <= MAX_FRAME && parse(frame).Heard? && ToolOrItem(parse(frame).event)
    ensures Line(parse, c, frame).0 == ToolSeen(c, parse(frame).event.item.kind)
  {
    hide Allowed;
  }

  /** ASCII letters and the underscore. */
  predicate ShortWord(ch: char) {
    'A' <= ch <= 'z' && ch !in ['[', '\\', ']', '^', '`']
  }

  /** The three ways to fail after the last line, and a line left unfinished. */
  predicate EndCode(code: string) {
    code == "incomplete_frame" || code == "cli_failed" || code == "missing_result"
  }

  lemma {:induction false} LinesFailOtherwise(parse: seq<byte> -> Parsed, c: Captured, bytes: seq<byte>)
    ensures var fault := Drain(parse, c, bytes).fault;
            fault.Some? && fault.value.Rejected? ==> !EndCode(fault.value.code)
    decreases |bytes|
  {
    hide FirstLine, Line;
    var k := FirstLine(bytes);
    if k < |bytes| {
      var (after, fault) := Line(parse, c, bytes[..k]);
      if fault.Some? {
        LineFailsExactly(parse, c, bytes[..k], fault.value);
      } else {
        LinesFailOtherwise(parse, after, bytes[k + 1..]);
      }
    }
  }

  /** How else collecting ends when no line was at fault: each end for its own
      reason alone. */
  lemma EndsExactly(parse: seq<byte> -> Parsed, stdout: seq<byte>, code: Option<int>)
    ensures var frames, tail, ending := Frames(stdout), Tail(stdout), Verdict(parse, stdout, code);
            var fine := |tail| <= MAX_FRAME && |Answers(parse, frames)| <= 1
                        && forall frame :: frame in frames ==> HarmlessLine(parse, frame);
            && (ending == Faulted(Rejected("incomplete_frame")) <==> fine && tail != [])
            && (ending == TimedOut <==> fine && tail == [] && code == None)
            && (ending == Faulted(Rejected("cli_failed")) <==> fine && tail == [] && code.Some? && code.value != 0)
            && (ending == Faulted(Rejected("missing_result"))
                <==> && fine && tail == [] && code == Some(0)
                     && (!TurnEnds(parse, frames) || Answers(parse, frames) == []))
  {
    hide Drain, Frames, Answers, TurnEnds, HarmlessLine, Tail;
    DrainExactly(parse, NOTHING, stdout);
    LinesFailOtherwise(parse, NOTHING, stdout);
    assert Held(None) + Answers(parse, Frames(stdout)) == Answers(parse, Frames(stdout));
  }
}
