/** The terminal helper's poll loop: two bounded byte queues between a control
    connection and a terminal, fed and drained in arbitrary pieces.

    One `Round` is everything the operating system answers during one turn of
    the loop, and any sequence of rounds is a run. Ghost fields keep what went
    through: nothing is executed from them. */
module TerminalLoop {
  import opened Wrappers
  import opened Framing
  import opened TerminalFrames
  import Base64

  datatype Stage = AtStart | AtExit | AtCommand | AtRead

  datatype Code =
    | ControlClosed | PollFailed | WaitFailed | ResizeFailed | PtyReadFailed | PtyWriteFailed
    | InvalidCommand | InvalidInput | InputQueueFull | InvalidCommandOrderOrSession
    | FrameSize(stage: Stage) | OutputQueueFull(stage: Stage)

  datatype Outcome = Continue | Done | Stopped(code: Code)

  /** What a read, a write or a wait answers; an empty read is the end. */
  datatype Io<+T> = Ready(value: T) | WouldBlock | InputOutput | Failure

  datatype Poll =
    | Interrupted
    | Broken
    | Polled(control: bool, terminalIn: bool, terminalOut: bool, wireOut: bool, wireGone: bool)

  type Chunk = c: seq<byte> | |c| <= READ_SIZE

  datatype Round = Round(
    now: int, waited: Io<Option<Status>>, poll: Poll,
    control: Io<Chunk>, resizes: bool, terminal: Io<Chunk>, taken: Io<nat>, sent: Io<nat>)

  const KILL := "KILL"

  /** The signals relayed for a command, among all that were sent. */
  function Relayed(signals: seq<string>): seq<string> {
    if signals == [] then []
    else
      Relayed(signals[..|signals| - 1])
      + if signals[|signals| - 1] == KILL then [] else [signals[|signals| - 1]]
  }

  lemma RelayedLast(signals: seq<string>, name: string)
    ensures Relayed(signals + [name]) == Relayed(signals) + if name == KILL then [] else [name]
  {
    assert (signals + [name])[..|signals|] == signals;
  }

  /** How often the group was sent SIGKILL. */
  function Kills(signals: seq<string>): nat {
    if signals == [] then 0
    else Kills(signals[..|signals| - 1]) + if signals[|signals| - 1] == KILL then 1 else 0
  }

  lemma KillsLast(signals: seq<string>, name: string)
    ensures Kills(signals + [name]) == Kills(signals) + if name == KILL then 1 else 0
  {
    assert (signals + [name])[..|signals|] == signals;
  }

  lemma CommandsLast(commands: seq<Command>, c: Command)
    ensures AllKeys(commands + [c]) == AllKeys(commands) + Keys(c)
    ensures Answers(commands + [c]) == Answers(commands) + match Answer(c) case Some(r) => [r] case None => []
    ensures AllSends(commands + [c]) == AllSends(commands) + match Sends(c) case Some(name) => [name] case None => []
  {
    hide Keys, Answer, Sends;
    assert (commands + [c])[..|commands|] == commands;
  }

  lemma RepliesLast(replies: seq<Reply>, r: Reply)
    ensures Outputs(replies + [r]) == Outputs(replies) + if r.Output? then [r] else []
    ensures Exits(replies + [r]) == Exits(replies) + if r.Exited? then [r] else []
    ensures ToCommands(replies + [r])
            == ToCommands(replies) + if r.Resized? || r.Signalled? || r.Heartbeat? then [r] else []
    ensures OutputsBeforeExit(replies + [r]) <==>
            OutputsBeforeExit(replies) && (r.Output? ==> Exits(replies) == [])
  {
    assert (replies + [r])[..|replies|] == replies;
  }

  /** A command found after a partial frame ends within the new bytes. */
  lemma TakenWithinChunk(decode: Decoder, partial: seq<byte>, chunk: seq<byte>)
    requires Partial(partial) && Take(decode, partial + chunk).0.Took?
    ensures |Take(decode, partial + chunk).1| < |chunk|
  {
    var bytes := partial + chunk;
    if |partial| >= 4 {
      assert bytes[..4] == partial[..4];
    }
  }

  /** What a command with a session takes off the buffer. */
  lemma TakenIsLongEnough(decode: Decoder, bytes: seq<byte>)
    requires QuotesSession(decode)
    requires Take(decode, bytes).0.Took? && !Take(decode, bytes).0.value.Hello?
    ensures |bytes| - |Take(decode, bytes).1| >= |SessionOf(Take(decode, bytes).0.value)| + 6
  {
    var body := bytes[4..Size(bytes[..4]) + 4];
    assert decode(body) == Some(Take(decode, bytes).0.value);
  }

  /** A parse that follows commands handled before it. */
  function After(commands: seq<Command>, p: Parsed<Command>): Parsed<Command> {
    Parsed(commands + p.commands, p.rest, p.failed)
  }

  lemma ParseTaken(decode: Decoder, bytes: seq<byte>, before: seq<Command>)
    requires Take(decode, bytes).0.Took?
    ensures var (taken, rest) := Take(decode, bytes);
            After(before, Parse(decode, bytes)) == After(before + [taken.value], Parse(decode, rest))
  {
  }

  lemma ParseIncomplete(decode: Decoder, bytes: seq<byte>)
    requires Take(decode, bytes).0.Incomplete?
    ensures Take(decode, bytes).1 == bytes && Parse(decode, bytes) == Parsed([], bytes, false)
  {
  }

  lemma HeardMore(decode: Decoder, heard: seq<byte>, commands: seq<Command>, left: seq<byte>, chunk: seq<byte>)
    requires Parse(decode, heard) == Parsed(commands, left, false)
    ensures Parse(decode, heard + chunk) == After(commands, Parse(decode, left + chunk))
    ensures Partial(left)
  {
    ParseInTwo(decode, heard, chunk);
    NoByteLost(decode, heard);
  }

  lemma NumberedMore(chunks: seq<seq<byte>>, bytes: seq<byte>)
    ensures NumberedOutputs(chunks + [bytes]) == NumberedOutputs(chunks) + [Output(|chunks| + 1, bytes)]
  {
  }

  lemma SessionLength(session: string)
    requires Identifier(session)
    ensures 0 < |session| <= 128
  {
  }

  lemma TakenSizes(decode: Decoder, partial: seq<byte>, chunk: seq<byte>, bytes: seq<byte>)
    requires Partial(partial) && QuotesSession(decode) && Take(decode, bytes).0.Took?
    ensures bytes == partial + chunk ==> |Take(decode, bytes).1| < |chunk|
    ensures !Take(decode, bytes).0.value.Hello? ==>
              |bytes| - |Take(decode, bytes).1| >= |SessionOf(Take(decode, bytes).0.value)| + 6
  {
    hide Take, Partial, QuotesSession;
    if bytes == partial + chunk {
      TakenWithinChunk(decode, partial, chunk);
    }
    if !Take(decode, bytes).0.value.Hello? {
      TakenIsLongEnough(decode, bytes);
    }
  }

  /** How much of a queue a turn takes off: all that the other side has room for. */
  function IntoTerminal(r: Round, queued: nat): nat {
    if r.poll.Polled? && r.poll.terminalOut && r.taken.Ready? then Min(r.taken.value, queued) else 0
  }

  function OntoWire(r: Round, queued: nat): nat {
    if r.poll.Polled? && r.poll.wireOut && r.sent.Ready? then Min(r.sent.value, queued) else 0
  }

  class Helper {
    const session: string
    const decode: Decoder
    const control: Buffer<Command>
    var output: seq<byte>
    var input: seq<byte>
    var termination: Option<int>
    var exitStatus: Option<Status>
    var exitSent: bool
    var eof: bool
    var sequence: nat
    var signals: seq<string>
    ghost var enqueued: seq<Reply>
    ghost var wire: seq<byte>
    ghost var typed: seq<byte>
    ghost var chunks: seq<seq<byte>>
    ghost var heard: seq<byte>
    ghost var commands: seq<Command>

    /** Every byte is accounted for, in both directions, and nothing overflows. */
    ghost predicate Conserved()
      reads this
    {
      && wire + output == Wire(session, enqueued)
      && typed + input == AllKeys(commands)
      && |output| <= MAX_QUEUE && |input| <= MAX_INPUT
    }

    /** What was enqueued: the terminal's bytes in numbered frames, a reply to
        each command that has one, and the exit at most once, after all output. */
    ghost predicate InOrder()
      reads this
    {
      && sequence == |chunks|
      && Outputs(enqueued) == NumberedOutputs(chunks) && OutputsBeforeExit(enqueued)
      && ToCommands(enqueued) == Answers(commands)
      && (exitSent ==> eof && exitStatus.Some?)
      && Exits(enqueued) == (if exitSent then [Exited(exitStatus.value, |chunks|)] else [])
      && (exitStatus.Some? ==> KILL in signals)
      && Framed(session, enqueued)
    }

    ghost predicate Valid()
      reads this
    {
      && Conserved() && InOrder()
      && Identifier(session) && QuotesSession(decode)
    }

    /** Every control byte heard is in a command taken, or waits in the buffer
        for the rest of its frame. */
    ghost predicate Synced()
      reads this, control
    {
      && Parse(decode, heard) == Parsed(commands, control.bytes, false)
      && Relayed(signals) == AllSends(commands)
    }

    constructor (session: string, request: string, pid: nat, decode: Decoder)
      requires Identifier(session) && Identifier(request) && 1 < pid < 0x8000_0000 && QuotesSession(decode)
      ensures Valid() && Synced() && fresh(control)
      ensures enqueued == [Spawned(request, pid)] && wire == [] && typed == [] && chunks == [] && commands == []
      ensures exitStatus.None? && !exitSent && !eof && heard == []
    {
      this.session, this.decode := session, decode;
      control := new Buffer<Command>();
      input, termination, exitStatus, exitSent, eof, sequence, signals := [], None, None, false, false, 0, [];
      wire, typed, chunks, heard, commands := [], [], [], [], [];
      SpawnedIsBounded(session, request, pid);
      output := Encoded(session, Spawned(request, pid)).value;
      enqueued := [Spawned(request, pid)];
      assert [Spawned(request, pid)][..0] == [];
    }

    /** `enqueue`: a frame joins the queue whole, or not at all. */
    method Enqueue(reply: Reply, stage: Stage) returns (code: Option<Code>)
      modifies this`output, this`enqueued
      ensures code.None? <==> Encoded(session, reply).Some?
                              && |old(output)| + |Encoded(session, reply).value| <= MAX_QUEUE
      ensures code.None? ==> output == old(output) + Encoded(session, reply).value
                             && enqueued == old(enqueued) + [reply]
                             && Wire(session, enqueued) == Wire(session, old(enqueued)) + Encoded(session, reply).value
      ensures code.None? && Framed(session, old(enqueued)) && Tellable(reply) ==> Framed(session, enqueued)
      ensures code.Some? ==> output == old(output) && enqueued == old(enqueued)
      ensures code.Some? ==>
                code.value == if Encoded(session, reply).None? then FrameSize(stage) else OutputQueueFull(stage)
    {
      var bytes := Encoded(session, reply);
      if bytes.None? {
        return Some(FrameSize(stage));
      }
      if |output| + |bytes.value| > MAX_QUEUE {
        return Some(OutputQueueFull(stage));
      }
      if Framed(session, enqueued) && Tellable(reply) {
        FramedLast(session, enqueued, reply);
      }
      output := output + bytes.value;
      enqueued := enqueued + [reply];
      assert enqueued[..|enqueued| - 1] == old(enqueued);
      code := None;
    }
  
    method Kill()
      requires Valid()
      modifies this`signals
      ensures Valid() && (old(Synced()) ==> Synced())
      ensures signals == old(signals) + [KILL] && Kills(signals) == Kills(old(signals)) + 1
    {
      hide Wire, AllKeys, Outputs, OutputsBeforeExit, ToCommands, Exits, Answers, Parse, AllSends, Kills, QuotesSession,
           Identifier, Framed;
      RelayedLast(signals, KILL);
      KillsLast(signals, KILL);
      signals := signals + [KILL];
    }

    method TellExit() returns (code: Option<Code>)
      requires Valid() && eof && !exitSent && exitStatus.Some?
      modifies this`exitSent, this`output, this`enqueued
      ensures Valid() && (old(Synced()) ==> Synced())
      ensures old(enqueued) <= enqueued && old(output) <= output
      ensures code.None? ==> exitSent
      ensures code.Some? ==> code.value in {FrameSize(AtExit), OutputQueueFull(AtExit)}
      ensures code.Some? ==> !exitSent
    {
      hide Wire, AllKeys, Outputs, OutputsBeforeExit, ToCommands, Exits, Answers, Parse, AllSends, Kills, QuotesSession,
           Identifier, Framed, Encoded, NumberedOutputs;
      RepliesLast(enqueued, Exited(exitStatus.value, sequence));
      assert Outputs(enqueued) + [] == Outputs(enqueued) && ToCommands(enqueued) + [] == ToCommands(enqueued);
      code := Enqueue(Exited(exitStatus.value, sequence), AtExit);
      if code.None? {
        exitSent := true;
      }
    }

    /** The start of a turn: a due deadline and an ended child both kill the
        group, and the exit is told once all output was read. */
    method CheckExit(now: int, waited: Io<Option<Status>>) returns (code: Option<Code>)
      requires Valid()
      modifies this`signals, this`termination, this`exitStatus, this`exitSent, this`output, this`enqueued
      ensures Valid() && (old(Synced()) ==> Synced())
      ensures var due := old(termination).Some? && now >= old(termination).value;
              var ended := old(exitStatus).None? && waited.Ready? && waited.value.Some?;
              && termination == (if due then None else old(termination))
              && exitStatus == (if ended then waited.value else old(exitStatus))
              && signals == old(signals) + (if due then [KILL] else []) + (if ended then [KILL] else [])
              && Kills(signals) == Kills(old(signals)) + (if due then 1 else 0) + if ended then 1 else 0
      ensures code == Some(WaitFailed) <==> old(exitStatus).None? && !waited.Ready?
      ensures old(exitSent) ==> exitSent && enqueued == old(enqueued) && code.None?
      ensures old(output) <= output
      ensures !eof || old(exitSent) ==> output == old(output) && enqueued == old(enqueued)
      ensures old(enqueued) <= enqueued
      ensures code.None? && eof && exitStatus.Some? ==> exitSent
      ensures code.Some? ==> code.value in {WaitFailed, FrameSize(AtExit), OutputQueueFull(AtExit)}
    {
      hide Wire, AllKeys, Outputs, OutputsBeforeExit, ToCommands, Exits, Answers, Parse, AllSends, Relayed, Kills,
           QuotesSession, Identifier, Framed, NumberedOutputs;
      if termination.Some? && now >= termination.value {
        Kill();
        termination := None;
      }
      if exitStatus.None? {
        match waited {
          case Ready(status) =>
            if status.Some? {
              Kill();
              exitStatus := status;
            }
          case _ =>
            return Some(WaitFailed);
        }
      }
      code := None;
      if eof && !exitSent && exitStatus.Some? {
        code := TellExit();
      }
    }

    /** A command is counted as handled once all it does is done. */
    ghost method Handled(c: Command, before: seq<Reply>)
      requires Carried(c) && Replied(c, before) && Identifier(session) && QuotesSession(decode)
      modifies this`commands
      ensures Valid() && commands == old(commands) + [c]
    {
      hide Wire, AllKeys, Outputs, OutputsBeforeExit, ToCommands, Exits, Answers, Parse, AllSends, Relayed, Kills,
           QuotesSession, Identifier, Framed, NumberedOutputs, Encoded;
      CommandsLast(commands, c);
      if Answer(c).Some? {
        RepliesLast(before, Answer(c).value);
      }
      assert Outputs(before) + [] == Outputs(before) && Exits(before) + [] == Exits(before);
      assert Answers(commands) + [] == Answers(commands);
      commands := commands + [c];
    }

    ghost predicate Carried(c: Command)
      reads this
    {
      && wire + output == Wire(session, enqueued)
      && typed + input == AllKeys(commands) + Keys(c)
      && |output| <= MAX_QUEUE && |input| <= MAX_INPUT
    }

    ghost predicate Replied(c: Command, before: seq<Reply>)
      reads this
    {
      && sequence == |chunks|
      && Outputs(before) == NumberedOutputs(chunks) && OutputsBeforeExit(before)
      && ToCommands(before) == Answers(commands)
      && enqueued == (match Answer(c) case Some(r) => before + [r] case None => before)
      && (exitSent ==> eof && exitStatus.Some?)
      && Exits(before) == (if exitSent then [Exited(exitStatus.value, |chunks|)] else [])
      && (exitStatus.Some? ==> KILL in signals)
      && Framed(session, enqueued)
    }

    /** Bytes to type join the input queue whole, or the helper stops. */
    method TypeIn(data: string) returns (code: Option<Code>)
      modifies this`input
      ensures code.None? <==> Base64.Decode(data).Some? && |Base64.Decode(data).value| <= MAX_INPUT
                              && |old(input)| + |Base64.Decode(data).value| <= MAX_INPUT
      ensures code.None? ==> input == old(input) + Base64.Decode(data).value
      ensures code.Some? ==> input == old(input)
      ensures code.Some? ==> code.value == if Base64.Decode(data).None? then InvalidInput else InputQueueFull
    {
      var bytes := Base64.Decode(data);
      if bytes.None? {
        return Some(InvalidInput);
      }
      if |bytes.value| > MAX_INPUT || |input| + |bytes.value| > MAX_INPUT {
        return Some(InputQueueFull);
      }
      input := input + bytes.value;
      code := None;
    }

    method Relay(name: string)
      requires name != KILL
      modifies this`signals
      ensures signals == old(signals) + [name] && Relayed(signals) == Relayed(old(signals)) + [name]
      ensures Kills(signals) == Kills(old(signals))
    {
      RelayedLast(signals, name);
      KillsLast(signals, name);
      signals := signals + [name];
    }

    /** What an acceptable command does, short of its reply. */
    method CarryOut(c: Command, now: int, resizes: bool) returns (code: Option<Code>)
      requires Acceptable(session, exitStatus.Some?, c)
      requires |input| <= MAX_INPUT
      requires exitStatus.Some? ==> KILL in signals
      modifies this`input, this`signals, this`termination
      ensures |input| <= MAX_INPUT && (exitStatus.Some? ==> KILL in signals)
      ensures code.None? ==> input == old(input) + Keys(c)
      ensures code.None? ==>
                Relayed(signals) == Relayed(old(signals)) + match Sends(c) case Some(n) => [n] case None => []
      ensures code.None? ==> signals == old(signals) + match Sends(c) case Some(n) => [n] case None => []
      ensures Kills(signals) == Kills(old(signals))
      ensures termination == if c.Terminate? then Some(now + c.graceMs) else old(termination)
      ensures code.Some? ==> input == old(input) && signals == old(signals)
      ensures code == Some(ResizeFailed) <==> c.Resize? && !resizes
      ensures code.Some? ==> code.value in {InvalidInput, InputQueueFull, ResizeFailed}
    {
      hide Relayed, Kills, Base64.Decode;
      code := None;
      match c {
        case Input(_, data) =>
          code := TypeIn(data);
        case Resize(_, rows, cols) =>
          if !resizes {
            return Some(ResizeFailed);
          }
        case Signal(_, name) =>
          Relay(name);
        case Terminate(_, graceMs) =>
          Relay("TERM");
          termination := Some(now + graceMs);
        case Ping(_) =>
      }
    }

    /** The reply to a command, if it has one. */
    method Reply(c: Command) returns (code: Option<Code>)
      requires WireValid() && Acceptable(session, exitStatus.Some?, c) && Framed(session, enqueued)
      modifies this`output, this`enqueued
      ensures WireValid()
      ensures code.None? ==> Framed(session, enqueued)
      ensures code.None? ==>
                enqueued == (match Answer(c) case Some(r) => old(enqueued) + [r] case None => old(enqueued))
      ensures code.None? ==> |output| <= |old(output)| + if Answer(c).Some? then |session| + 58 else 0
      ensures code.None? ==> old(output) <= output
      ensures code.Some? ==>
                code.value == OutputQueueFull(AtCommand) && enqueued == old(enqueued) && output == old(output)
    {
      hide Wire, Encoded, QuotesSession;
      code := None;
      if Answer(c).Some? {
        AnswerIsShort(session, c);
        code := Enqueue(Answer(c).value, AtCommand);
      }
    }

    ghost predicate WireValid()
      reads this
    {
      wire + output == Wire(session, enqueued) && |output| <= MAX_QUEUE && Identifier(session) && QuotesSession(decode)
    }

    /** One command: acceptable ones are carried out and answered; anything else
        stops the helper. */
    method Handle(c: Command, now: int, resizes: bool) returns (code: Option<Code>)
      requires Valid()
      modifies this`output, this`enqueued, this`input, this`signals, this`termination, this`commands
      ensures code.None? ==> Valid() && Acceptable(session, exitStatus.Some?, c) && commands == old(commands) + [c]
      ensures code.None? ==> |output| <= |old(output)| + if Answer(c).Some? then |session| + 58 else 0
      ensures code.None? ==>
                Relayed(signals) == Relayed(old(signals)) + match Sends(c) case Some(n) => [n] case None => []
      ensures code.None? ==> termination == if c.Terminate? then Some(now + c.graceMs) else old(termination)
      ensures Kills(signals) == Kills(old(signals))
      ensures code.None? ==> old(input) <= input && old(output) <= output
      ensures old(enqueued) <= enqueued
      ensures code.Some? ==> wire + output == Wire(session, enqueued) && |output| <= MAX_QUEUE
      ensures code.Some? ==>
                code.value in {InvalidCommandOrderOrSession, InvalidInput, InputQueueFull, ResizeFailed,
                               OutputQueueFull(AtCommand)}
    {
      hide Wire, AllKeys, Outputs, OutputsBeforeExit, ToCommands, Exits, Answers, Parse, AllSends, Relayed, Kills,
           QuotesSession, Identifier, Framed, NumberedOutputs, Encoded, Keys, Sends, Answer;
      if !Acceptable(session, exitStatus.Some?, c) {
        return Some(InvalidCommandOrderOrSession);
      }
      ghost var before := enqueued;
      code := CarryOut(c, now, resizes);
      if code.Some? {
        return;
      }
      assert typed + (old(input) + Keys(c)) == (typed + old(input)) + Keys(c);
      code := Reply(c);
      if code.Some? {
        return;
      }
      Handled(c, before);
    }
  
    /** How far the drain loop is: what was parsed is what was handled followed
        by what the buffer still holds. */
    ghost predicate Draining()
      reads this, control
    {
      && Parse(decode, heard) == After(commands, Parse(decode, control.bytes))
      && Relayed(signals) == AllSends(commands)
    }

    /** Bytes from the controller, and every command they complete. The queue
        grows by less than 38,000 bytes whatever the commands are. */
    method HearControl(now: int, read: Io<Chunk>, resizes: bool) returns (code: Option<Code>)
      requires Valid() && Synced()
      modifies this`output, this`enqueued, this`input, this`signals, this`termination, this`commands, this`heard,
               control
      ensures code.None? ==> Valid() && Synced()
      ensures code.None? ==> heard == old(heard) + if read.Ready? then read.value else []
      ensures Kills(signals) == Kills(old(signals))
      ensures code.None? ==> old(input) <= input && (read.Ready? ==> read.value != [])
      ensures code.None? ==> old(output) <= output
      ensures code.None? ==> |output| <= |old(output)| + 37_050
      ensures old(enqueued) <= enqueued
      ensures code.Some? ==> wire + output == Wire(session, enqueued) && |output| <= MAX_QUEUE
      ensures code.Some? ==>
                code.value in {ControlClosed, InvalidCommand, InvalidCommandOrderOrSession, InvalidInput,
                               InputQueueFull, ResizeFailed, OutputQueueFull(AtCommand)}
    {
      hide Wire, AllKeys, Outputs, OutputsBeforeExit, ToCommands, Exits, Answers, Parse, AllSends, Relayed, Kills,
           QuotesSession, Identifier, Framed, NumberedOutputs, Encoded, Take;
      ghost var partial, queued, q := control.bytes, |output|, 0;
      ghost var chunk := if read.Ready? then read.value else [];
      SessionLength(session);
      HeardMore(decode, heard, commands, control.bytes, []);
      assert control.bytes + [] == control.bytes && heard + [] == heard;
      match read {
        case Ready(bytes) =>
          if bytes == [] {
            return Some(ControlClosed);
          }
          HeardMore(decode, heard, commands, control.bytes, bytes);
          control.Append(bytes);
          heard := heard + bytes;
        case WouldBlock =>
        case _ =>
          return Some(ControlClosed);
      }
      while true
        invariant Kills(signals) == Kills(old(signals)) && old(input) <= input && old(output) <= output
        invariant Valid() && Draining() && heard == old(heard) + chunk && old(enqueued) <= enqueued
        invariant (control.bytes == partial + chunk && |output| == queued)
                  || (|control.bytes| <= READ_SIZE && |output| + 9 * |control.bytes| <= queued + 186 + 9 * READ_SIZE)
        decreases |control.bytes|
      {
        ghost var bytes, before := control.bytes, commands;
        var taken := control.TakeCommand(decode);
        match taken {
          case Incomplete =>
            ParseIncomplete(decode, bytes);
            return None;
          case Failed =>
            return Some(InvalidCommand);
          case Took(c) =>
            TakenSizes(decode, partial, chunk, bytes);
            ParseTaken(decode, bytes, before);
            CommandsLast(before, c);
            code := Handle(c, now, resizes);
            if code.Some? {
              return;
            }
        }
      }
    }
  
    /** One read of the terminal: its frame always fits, for the caller reads
        only while the queue was less than half full. */
    method ReadTerminal(read: Io<Chunk>) returns (code: Option<Code>)
      requires Valid() && !eof && |output| + 5669 <= MAX_QUEUE && sequence < 0xFFFF_FFFF_FFFF_FFFF
      modifies this`output, this`enqueued, this`sequence, this`eof, this`chunks
      ensures Valid() && (old(Synced()) ==> Synced())
      ensures old(enqueued) <= enqueued && sequence <= old(sequence) + 1 && old(output) <= output
      ensures chunks == old(chunks) + if read.Ready? && read.value != [] then [read.value] else []
      ensures eof <==> (read.Ready? && read.value == []) || read.InputOutput?
      ensures code == if read.Failure? then Some(PtyReadFailed) else None
    {
      hide Wire, AllKeys, Outputs, OutputsBeforeExit, ToCommands, Exits, Answers, Parse, AllSends, Relayed, Kills,
           QuotesSession, Identifier, Framed, NumberedOutputs, Encoded;
      code := None;
      match read {
        case Ready(bytes) =>
          if bytes == [] {
            eof := true;
          } else {
            NoExitYet();
            sequence := sequence + 1;
            OutputIsBounded(session, sequence, bytes);
            RepliesLast(enqueued, Output(sequence, bytes));
            NumberedMore(chunks, bytes);
            code := Enqueue(Output(sequence, bytes), AtRead);
            chunks := chunks + [bytes];
            assert ToCommands(enqueued) + [] == ToCommands(enqueued) && Exits(enqueued) + [] == Exits(enqueued);
          }
        case InputOutput =>
          eof := true;
        case WouldBlock =>
        case Failure =>
          code := Some(PtyReadFailed);
      }
    }

    lemma NoExitYet()
      requires InOrder() && !eof
      ensures !exitSent && Exits(enqueued) == []
    {
    }

    /** The terminal takes some first part of what waits to be typed. */
    method WriteTerminal(taken: Io<nat>) returns (code: Option<Code>)
      requires Valid()
      modifies this`input, this`typed
      ensures Valid() && (old(Synced()) ==> Synced())
      ensures old(typed) <= typed && typed + input == old(typed) + old(input)
      ensures |typed| == |old(typed)| + if taken.Ready? then Min(taken.value, |old(input)|) else 0
      ensures code == if taken.Ready? || taken.WouldBlock? then None else Some(PtyWriteFailed)
    {
      hide Wire, AllKeys, Outputs, OutputsBeforeExit, ToCommands, Exits, Answers, Parse, AllSends, Relayed, Kills,
           QuotesSession, Identifier, Framed, NumberedOutputs, Encoded;
      match taken {
        case Ready(n) =>
          var k := Min(n, |input|);
          assert typed + input == (typed + input[..k]) + input[k..];
          typed := typed + input[..k];
          input := input[k..];
          code := None;
        case WouldBlock =>
          code := None;
        case _ =>
          code := Some(PtyWriteFailed);
      }
    }

    /** The controller takes some first part of what waits to be sent. */
    method WriteWire(sent: Io<nat>) returns (code: Option<Code>)
      requires Valid()
      modifies this`output, this`wire
      ensures Valid() && (old(Synced()) ==> Synced())
      ensures old(wire) <= wire && wire + output == old(wire) + old(output)
      ensures |wire| == |old(wire)| + if sent.Ready? then Min(sent.value, |old(output)|) else 0
      ensures code == if sent.Ready? || sent.WouldBlock? then None else Some(ControlClosed)
    {
      hide Wire, AllKeys, Outputs, OutputsBeforeExit, ToCommands, Exits, Answers, Parse, AllSends, Relayed, Kills,
           QuotesSession, Identifier, Framed, NumberedOutputs, Encoded;
      match sent {
        case Ready(n) =>
          var k := Min(n, |output|);
          assert wire + output == (wire + output[..k]) + output[k..];
          wire := wire + output[..k];
          output := output[k..];
          code := None;
        case WouldBlock =>
          code := None;
        case _ =>
          code := Some(ControlClosed);
      }
    }

    /** The bytes of one turn: control first, then the terminal, then the queues. */
    method Exchange(r: Round, readTerminal: bool) returns (code: Option<Code>)
      requires Valid() && Synced() && sequence < 0xFFFF_FFFF_FFFF_FFFF && r.poll.Polled?
      requires readTerminal ==> !eof && |output| < MAX_QUEUE / 2
      modifies this`output, this`enqueued, this`input, this`signals, this`termination, this`commands, this`heard,
               this`sequence, this`eof, this`chunks, this`typed, this`wire, control
      ensures wire + output == Wire(session, enqueued) && |output| <= MAX_QUEUE
      ensures old(wire) <= wire && old(enqueued) <= enqueued && sequence <= old(sequence) + 1
      ensures code.None? ==> Valid() && Synced() && old(typed) <= typed
      ensures code.None? ==>
                heard == old(heard) + if r.poll.control && r.control.Ready? then r.control.value else []
      ensures Kills(signals) == Kills(old(signals))
      ensures code.None? ==> |typed| >= |old(typed)| + IntoTerminal(r, |old(input)|)
      ensures code.None? ==> |wire| >= |old(wire)| + OntoWire(r, |old(output)|)
      ensures code.None? ==> !r.poll.wireGone && (r.poll.control && r.control.Ready? ==> r.control.value != [])
      ensures code.None? ==>
                chunks == old(chunks)
                          + if readTerminal && r.poll.terminalIn && r.terminal.Ready? && r.terminal.value != []
                            then [r.terminal.value] else []
      ensures code.Some? ==> code.value != OutputQueueFull(AtRead) && code.value != FrameSize(AtRead)
    {
      hide Wire, AllKeys, Outputs, OutputsBeforeExit, ToCommands, Exits, Answers, Parse, AllSends, Relayed, Kills,
           QuotesSession, Identifier, Framed, NumberedOutputs, Encoded;
      code := None;
      if r.poll.control {
        code := HearControl(r.now, r.control, r.resizes);
        if code.Some? {
          return;
        }
      }
      if readTerminal && r.poll.terminalIn {
        code := ReadTerminal(r.terminal);
        if code.Some? {
          return;
        }
      }
      code := DrainQueues(r);
    }

    method DrainQueues(r: Round) returns (code: Option<Code>)
      requires Valid() && r.poll.Polled?
      modifies this`input, this`typed, this`output, this`wire
      ensures Valid() && (old(Synced()) ==> Synced())
      ensures old(typed) <= typed && old(wire) <= wire
      ensures typed + input == old(typed) + old(input) && wire + output == old(wire) + old(output)
      ensures code.None? ==> |typed| == |old(typed)| + IntoTerminal(r, |old(input)|)
      ensures code.None? ==> |wire| == |old(wire)| + OntoWire(r, |old(output)|)
      ensures code.Some? ==> code.value == PtyWriteFailed || code.value == ControlClosed
      ensures r.poll.wireGone ==> code.Some?
    {
      hide Wire, AllKeys, Outputs, OutputsBeforeExit, ToCommands, Exits, Answers, Parse, AllSends, Relayed, Kills,
           QuotesSession, Identifier, Framed, NumberedOutputs, Encoded;
      code := None;
      if input != [] && r.poll.terminalOut {
        code := WriteTerminal(r.taken);
        if code.Some? {
          return;
        }
      }
      if output != [] && r.poll.wireOut {
        code := WriteWire(r.sent);
        if code.Some? {
          return;
        }
      }
      if r.poll.wireGone {
        code := Some(ControlClosed);
      }
    }

    /** One turn of the loop. */
    method Turn(r: Round) returns (outcome: Outcome)
      requires Valid() && Synced() && sequence < 0xFFFF_FFFF_FFFF_FFFF
      modifies this, control
      ensures wire + output == Wire(session, enqueued) && |output| <= MAX_QUEUE
      ensures old(wire) <= wire && old(enqueued) <= enqueued && sequence <= old(sequence) + 1
      ensures !outcome.Stopped? ==> Valid() && Synced() && old(typed) <= typed
      ensures outcome.Continue? ==>
                heard == old(heard)
                         + if r.poll.Polled? && r.poll.control && r.control.Ready? then r.control.value else []
      ensures outcome.Continue? ==>
                chunks == old(chunks)
                          + if r.poll.Polled? && r.poll.terminalIn && !old(eof) && |old(output)| < MAX_QUEUE / 2
                               && r.terminal.Ready? && r.terminal.value != [] then [r.terminal.value] else []
      ensures Kills(signals) == Kills(old(signals))
                                + (if old(termination).Some? && r.now >= old(termination).value then 1 else 0)
                                + if old(exitStatus).None? && r.waited.Ready? && r.waited.value.Some? then 1 else 0
      ensures outcome.Continue? ==>
                && |typed| >= |old(typed)| + IntoTerminal(r, |old(input)|)
                && |wire| >= |old(wire)| + OntoWire(r, |old(output)|)
      ensures outcome.Continue? ==> !r.poll.Broken? && (r.poll.Polled? ==> !r.poll.wireGone)
      ensures old(exitSent) && old(output) == [] ==> outcome.Done?
      ensures outcome.Done? ==> exitSent && output == []
      ensures outcome.Stopped? ==> outcome.code != OutputQueueFull(AtRead) && outcome.code != FrameSize(AtRead)
    {
      hide Wire, AllKeys, Outputs, OutputsBeforeExit, ToCommands, Exits, Answers, Parse, AllSends, Relayed, Kills,
           QuotesSession, Identifier, Framed, NumberedOutputs, Encoded;
      var code := CheckExit(r.now, r.waited);
      if code.Some? {
        return Stopped(code.value);
      }
      if exitSent && output == [] {
        return Done;
      }
      var readTerminal := !eof && |output| < MAX_QUEUE / 2;
      match r.poll {
        case Interrupted =>
          return Continue;
        case Broken =>
          return Stopped(PollFailed);
        case Polled(_, _, _, _, _) =>
          code := Exchange(r, readTerminal);
          outcome := if code.Some? then Stopped(code.value) else Continue;
      }
    }
  
    /** The loop, over any rounds: when it ends well, everything enqueued is on
        the wire, the last word being the exit with the count of output frames. */
    method Run(rounds: seq<Round>) returns (outcome: Outcome)
      requires Valid() && Synced() && sequence + |rounds| < 0x1_0000_0000_0000_0000
      modifies this, control
      ensures wire + output == Wire(session, enqueued) && |output| <= MAX_QUEUE
      ensures old(wire) <= wire && old(enqueued) <= enqueued
      ensures !outcome.Stopped? ==> Valid() && Synced() && old(typed) <= typed
      ensures outcome.Stopped? ==> outcome.code != OutputQueueFull(AtRead) && outcome.code != FrameSize(AtRead)
      ensures outcome.Done? ==>
                && wire == Wire(session, enqueued)
                && Outputs(enqueued) == NumberedOutputs(chunks)
                && exitStatus.Some? && Exits(enqueued) == [Exited(exitStatus.value, |chunks|)]
      ensures outcome.Done? ==>
                && Hears(session, wire, enqueued)
                && exists i :: 0 <= i < |enqueued| && enqueued[i] == Exited(exitStatus.value, |chunks|)
    {
      hide Wire, AllKeys, Outputs, OutputsBeforeExit, ToCommands, Exits, Answers, Parse, AllSends, Relayed, Kills,
           QuotesSession, Identifier, Framed, Hears, NumberedOutputs, Encoded;
      var i := 0;
      outcome := Continue;
      while i < |rounds|
        invariant 0 <= i <= |rounds|
        invariant Valid() && Synced() && outcome == Continue
        invariant sequence <= old(sequence) + i
        invariant old(wire) <= wire && old(enqueued) <= enqueued && old(typed) <= typed
      {
        outcome := Turn(rounds[i]);
        if outcome != Continue {
          assert wire + [] == wire;
          if outcome == Done {
            WireReadsBack(session, enqueued);
            ExitIsTold(enqueued, Exited(exitStatus.value, |chunks|));
          }
          return;
        }
        i := i + 1;
      }
    }
  }
}
