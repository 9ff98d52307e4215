/** What the terminal helper and its controller say to each other: the replies
    and their texts, the commands, and which commands are acceptable. */
module TerminalFrames {
  import opened Wrappers
  import opened Framing
  import opened Fields
  import Base64

  const MAX_QUEUE := 262_144
  const MAX_INPUT := 8192
  const READ_SIZE := 4096

  /** The system's name of a signal. */
  type SignalName = name: string | PlainText(name)

  datatype Status = Status(code: nat, signal: Option<SignalName>)

  datatype Reply =
    | Spawned(request: string, pid: nat)
    | Output(sequence: nat, data: seq<byte>)
    | Resized(rows: nat, cols: nat)
    | Signalled
    | Heartbeat
    | Exited(status: Status, count: nat)

  datatype Command =
    | Hello(version: nat)
    | Spawn(session: string)
    | Input(session: string, data: string)
    | Resize(session: string, rows: nat, cols: nat)
    | Signal(session: string, name: string)
    | Terminate(session: string, graceMs: nat)
    | Ping(session: string)

  type Decoder = seq<byte> -> Option<Command>

  predicate Identifier(s: string) {
    && 0 < |s| <= 128
    && forall c :: c in s ==> 'a' <= c <= 'z' || 'A' <= c <= 'Z' || '0' <= c <= '9' || c == '-' || c == '_'
  }

  predicate Dimensions(rows: nat, cols: nat) { 1 <= rows <= 500 && 1 <= cols <= 500 }

  predicate Relayable(name: string) { name == "INT" || name == "TERM" || name == "HUP" }

  /** The fields of a reply, their names in order. */
  function Told(session: string, r: Reply): Fields {
    match r
    case Spawned(request, pid) =>
      More("op", Text("spawned"), More("pid", Number(pid), More("process_group", Number(pid),
        More("request_id", Text(request), More("session_id", Text(session), End)))))
    case Output(sequence, data) =>
      More("data", Text(Base64.Encode(data)), More("op", Text("output"), More("sequence", Number(sequence),
        More("session_id", Text(session), End))))
    case Resized(rows, cols) =>
      More("cols", Number(cols), More("op", Text("resized"), More("rows", Number(rows),
        More("session_id", Text(session), End))))
    case Signalled => More("op", Text("signalled"), More("session_id", Text(session), End))
    case Heartbeat =>
      More("op", Text("heartbeat"), More("session_id", Text(session), More("version", Number(1), End)))
    case Exited(status, count) =>
      More("exit_code", Number(status.code), More("op", Text("exited"), More("sequence", Number(count),
        More("session_id", Text(session),
          More("signal", if status.signal.None? then Null else Text(status.signal.value), End)))))
  }

  /** The JSON text of a reply. */
  function Json(session: string, r: Reply): string { Object(Told(session, r)) }

  /** The bytes of a text all of whose characters are ASCII, as these are. */
  function Bytes(text: string): (bytes: seq<byte>)
    ensures |bytes| == |text|
  {
    seq(|text|, i requires 0 <= i < |text| => text[i] as int % 256)
  }

  /** A reply's frame; a body that is too large has none. */
  function Encoded(session: string, r: Reply): Option<seq<byte>> { Frame(Bytes(Json(session, r))) }

  /** The frames of `replies`, one after another. */
  function Wire(session: string, replies: seq<Reply>): seq<byte> {
    if replies == [] then []
    else
      Wire(session, replies[..|replies| - 1])
      + match Encoded(session, replies[|replies| - 1]) case Some(bytes) => bytes case None => []
  }

  function SessionOf(c: Command): string { if c.Hello? then "" else c.session }

  /** Whether a decoder is as careful as one of JSON has to be: a body that
      names a session holds that name between quotes. */
  ghost predicate QuotesSession(decode: Decoder) {
    forall body :: decode(body).Some? && !decode(body).value.Hello? ==>
      |body| >= |SessionOf(decode(body).value)| + 2
  }

  /** Whether the loop takes a command, rather than stopping. */
  predicate Acceptable(session: string, exited: bool, c: Command) {
    match c
    case Input(id, _) => id == session && !exited
    case Resize(id, rows, cols) => id == session && Dimensions(rows, cols)
    case Signal(id, name) => id == session && Relayable(name)
    case Terminate(id, graceMs) => id == session && graceMs <= 2000
    case Ping(id) => id == session
    case _ => false
  }

  /** The reply a command gets at once, if any. */
  function Answer(c: Command): Option<Reply> {
    match c
    case Resize(_, rows, cols) => Some(Resized(rows, cols))
    case Signal(_, _) => Some(Signalled)
    case Ping(_) => Some(Heartbeat)
    case _ => None
  }

  /** The bytes a command types into the terminal. */
  function Keys(c: Command): seq<byte> {
    match c
    case Input(_, data) => (match Base64.Decode(data) case Some(bytes) => bytes case None => [])
    case _ => []
  }

  /** The signal a command sends to the owned process group. */
  function Sends(c: Command): Option<string> {
    match c
    case Signal(_, name) => Some(name)
    case Terminate(_, _) => Some("TERM")
    case _ => None
  }

  function Answers(commands: seq<Command>): seq<Reply> {
    if commands == [] then []
    else
      Answers(commands[..|commands| - 1])
      + match Answer(commands[|commands| - 1]) case Some(r) => [r] case None => []
  }

  function AllKeys(commands: seq<Command>): seq<byte> {
    if commands == [] then [] else AllKeys(commands[..|commands| - 1]) + Keys(commands[|commands| - 1])
  }

  function AllSends(commands: seq<Command>): seq<string> {
    if commands == [] then []
    else
      AllSends(commands[..|commands| - 1])
      + match Sends(commands[|commands| - 1]) case Some(name) => [name] case None => []
  }

  /** The replies to commands among all that were enqueued. */
  function ToCommands(replies: seq<Reply>): seq<Reply> {
    if replies == [] then []
    else
      ToCommands(replies[..|replies| - 1])
      + if replies[|replies| - 1].Resized? || replies[|replies| - 1].Signalled? || replies[|replies| - 1].Heartbeat?
        then [replies[|replies| - 1]] else []
  }

  function Outputs(replies: seq<Reply>): seq<Reply> {
    if replies == [] then []
    else
      Outputs(replies[..|replies| - 1]) + if replies[|replies| - 1].Output? then [replies[|replies| - 1]] else []
  }

  function Exits(replies: seq<Reply>): seq<Reply> {
    if replies == [] then []
    else
      Exits(replies[..|replies| - 1]) + if replies[|replies| - 1].Exited? then [replies[|replies| - 1]] else []
  }

  /** Whether every output frame comes before the exit. */
  ghost predicate OutputsBeforeExit(replies: seq<Reply>) {
    replies == [] ||
    (OutputsBeforeExit(replies[..|replies| - 1])
     && (replies[|replies| - 1].Output? ==> Exits(replies[..|replies| - 1]) == []))
  }

  lemma {:induction false} NoOutputAfterExit(replies: seq<Reply>, i: nat, j: nat)
    requires OutputsBeforeExit(replies) && i < j < |replies| && replies[i].Exited?
    ensures !replies[j].Output?
  {
    if j < |replies| - 1 {
      NoOutputAfterExit(replies[..|replies| - 1], i, j);
    } else {
      ExitIsAmong(replies[..|replies| - 1], i);
    }
  }

  /** The one exit that was told is among the replies. */
  lemma {:induction false} ExitIsTold(replies: seq<Reply>, exit: Reply)
    requires Exits(replies) == [exit]
    ensures exists i :: 0 <= i < |replies| && replies[i] == exit
  {
    var front, last := replies[..|replies| - 1], replies[|replies| - 1];
    if last.Exited? {
      assert Exits(replies)[|Exits(front)|] == last;
    } else {
      ExitIsTold(front, exit);
      var i :| 0 <= i < |front| && front[i] == exit;
      assert replies[i] == exit;
    }
  }

  lemma {:induction false} ExitIsAmong(replies: seq<Reply>, i: nat)
    requires i < |replies| && replies[i].Exited?
    ensures Exits(replies) != []
  {
    if i < |replies| - 1 {
      ExitIsAmong(replies[..|replies| - 1], i);
    }
  }

  /** The bodies of the frames of `replies`. */
  function Contents(session: string, replies: seq<Reply>): seq<seq<byte>> {
    if replies == [] then []
    else
      var last := replies[|replies| - 1];
      Contents(session, replies[..|replies| - 1])
      + if Encoded(session, last).Some? then [Bytes(Json(session, last))] else []
  }

  function Whole(body: seq<byte>): Option<seq<byte>> { Some(body) }

  lemma OneMoreParses(wire: seq<byte>, contents: seq<seq<byte>>, frame: seq<byte>, body: seq<byte>)
    requires Parse(Whole, wire) == Parsed(contents, [], false)
    requires Parse(Whole, frame) == Parsed([body], [], false)
    ensures Parse(Whole, wire + frame) == Parsed(contents + [body], [], false)
  {
    hide Parse, Whole;
    ParseInTwo(Whole, wire, frame);
    assert [] + frame == frame;
  }

  /** Whoever parses the wire gets back every reply's text, whole and in order. */
  lemma {:induction false} WireParses(session: string, replies: seq<Reply>)
    ensures Parse(Whole, Wire(session, replies)) == Parsed(Contents(session, replies), [], false)
  {
    if replies == [] {
      NothingParses();
    } else {
      hide Json, Encoded, Parse, Whole, Bytes;
      var front, last := replies[..|replies| - 1], replies[|replies| - 1];
      WireParses(session, front);
      if Encoded(session, last).Some? {
        OneFrameParses(session, last);
        OneMoreParses(Wire(session, front), Contents(session, front), Encoded(session, last).value,
                      Bytes(Json(session, last)));
      } else {
        assert Wire(session, front) + [] == Wire(session, front);
        assert Contents(session, front) + [] == Contents(session, front);
      }
    }
  }

  lemma OneFrameParses(session: string, r: Reply)
    requires Encoded(session, r).Some?
    ensures Parse(Whole, Encoded(session, r).value) == Parsed([Bytes(Json(session, r))], [], false)
  {
    hide Json;
    var body := Bytes(Json(session, r));
    TakeFrame(Whole, body, [], body);
    assert Frame(body).value + [] == Frame(body).value;
    hide Take;
    assert Parse(Whole, []) == Parsed([], [], false) by { NothingParses(); }
  }

  lemma NothingParses()
    ensures Parse(Whole, []) == Parsed([], [], false)
  {
  }

  /** What was read from the terminal, as frames numbered from 1. */
  function NumberedOutputs(chunks: seq<seq<byte>>): (frames: seq<Reply>)
    ensures |frames| == |chunks|
    ensures forall i :: 0 <= i < |frames| ==> frames[i] == Output(i + 1, chunks[i])
  {
    seq(|chunks|, i requires 0 <= i < |chunks| => Output(i + 1, chunks[i]))
  }

  // ------------------------------------------------------------------- Sizes

  function Power10(k: nat): nat { if k == 0 then 1 else 10 * Power10(k - 1) }

  lemma {:induction false} DecimalLength(n: nat, k: nat)
    requires k > 0 && n < Power10(k)
    ensures |Decimal(n)| <= k
  {
    if n >= 10 {
      DecimalLength(n / 10, k - 1);
    }
  }

  lemma Powers()
    ensures Power10(3) == 1000
    ensures Power10(10) == 10_000_000_000
    ensures Power10(20) == 100_000_000_000_000_000_000
  {
    assert Power10(5) == 100_000;
    assert Power10(8) == 100_000_000;
    assert Power10(11) == 100_000_000_000;
    assert Power10(14) == 100_000_000_000_000;
    assert Power10(17) == 100_000_000_000_000_000;
  }

  lemma {:induction false} TextLength(fields: Fields)
    ensures |WrittenFields(fields)| == if fields.End? then 1 else Width(fields)
  {
    if fields.More? {
      hide Written;
      TextLength(fields.rest);
      WrittenLength(fields);
    }
  }

  /** How long one field's text is, with quotes, colon and what follows it. */
  function Wide(fields: Fields): nat {
    if fields.End? then 0 else |fields.name| + |Written(fields.value)| + 4
  }

  function Next(fields: Fields): Fields { if fields.End? then End else fields.rest }

  function Width(fields: Fields): nat { if fields.End? then 0 else Wide(fields) + Width(fields.rest) }

  lemma OneWide(fields: Fields)
    ensures Width(fields) == Wide(fields) + Width(Next(fields)) && (Next(fields).End? ==> Width(Next(fields)) == 0)
  {
  }

  lemma FiveWide(fields: Fields)
    ensures var second := Next(fields);
            var third := Next(second);
            var fourth := Next(third);
            var fifth := Next(fourth);
            Next(fifth).End? ==>
              Width(fields) == Wide(fields) + Wide(second) + Wide(third) + Wide(fourth) + Wide(fifth)
  {
    hide Wide, Width;
    OneWide(fields);
    OneWide(Next(fields));
    OneWide(Next(Next(fields)));
    OneWide(Next(Next(Next(fields))));
    OneWide(Next(Next(Next(Next(fields)))));
  }

  /** The bytes of a frame, its fields counted one by one. */
  lemma EncodedWidth(session: string, r: Reply)
    ensures var size := Width(Told(session, r)) + 1;
            && (Encoded(session, r).Some? <==> size <= 65_536)
            && (Encoded(session, r).Some? ==> |Encoded(session, r).value| == size + 4)
    ensures var first := Told(session, r);
            Width(first) == Wide(first) + Wide(Next(first)) + Wide(Next(Next(first)))
                            + Wide(Next(Next(Next(first)))) + Wide(Next(Next(Next(Next(first)))))
  {
    hide Wide;
    TextLength(Told(session, r));
    FiveWide(Told(session, r));
  }

  /** A reply to a command is not much longer than the name of its session. */
  lemma AnswerIsShort(session: string, c: Command)
    requires Identifier(session) && Answer(c).Some? && (c.Resize? ==> Dimensions(c.rows, c.cols))
    ensures Encoded(session, Answer(c).value).Some?
    ensures |Encoded(session, Answer(c).value).value| <= |session| + 58
  {
    Powers();
    EncodedWidth(session, Answer(c).value);
    if c.Resize? {
      DecimalLength(c.rows, 3);
      DecimalLength(c.cols, 3);
    }
  }

  /** A full read of the terminal makes a frame of at most 5,669 bytes. */
  lemma OutputIsBounded(session: string, sequence: nat, data: seq<byte>)
    requires Identifier(session) && sequence < 0x1_0000_0000_0000_0000 && |data| <= READ_SIZE
    ensures Encoded(session, Output(sequence, data)).Some?
    ensures |Encoded(session, Output(sequence, data)).value| <= 5669
  {
    Powers();
    EncodedWidth(session, Output(sequence, data));
    DecimalLength(sequence, 20);
    Base64.EncodedLength(data);
  }

  lemma SpawnedIsBounded(session: string, request: string, pid: nat)
    requires Identifier(session) && Identifier(request) && pid < 0x8000_0000
    ensures Encoded(session, Spawned(request, pid)).Some?
    ensures |Encoded(session, Spawned(request, pid)).value| <= 1000
  {
    Powers();
    EncodedWidth(session, Spawned(request, pid));
    DecimalLength(pid, 10);
  }

  /** Which commands are carried out: those of this session, with text to type
      only while the provider runs, sizes of one to 500, three signals, and at
      most two seconds of grace. */
  lemma AcceptedCommands(session: string, exited: bool, c: Command)
    ensures Acceptable(session, exited, c)
            <==> && !c.Hello? && !c.Spawn? && SessionOf(c) == session
                 && (exited ==> !c.Input?)
                 && (c.Resize? ==> 0 < c.rows < 501 && 0 < c.cols < 501)
                 && (c.Signal? ==> c.name in {"INT", "TERM", "HUP"})
                 && (c.Terminate? ==> c.graceMs < 2001)
  {
  }

  // --------------------------------------------------- The controller's side

  /** The text of bytes that are all ASCII. */
  function Ascii(bytes: seq<byte>): (text: string)
    ensures |text| == |bytes| && forall i :: 0 <= i < |bytes| ==> text[i] == (bytes[i] as int) as char
  {
    seq(|bytes|, i requires 0 <= i < |bytes| => (bytes[i] as int) as char)
  }

  /** The fields of a frame's body, found by their names. */
  function FieldsOf(body: seq<byte>): Option<map<string, Value>> { ReadObject(Ascii(body)) }

  function NumberAt(fields: map<string, Value>, name: string): Option<nat> {
    if name in fields && fields[name].Number? then Some(fields[name].n) else None
  }

  function TextAt(fields: map<string, Value>, name: string): Option<string> {
    if name in fields && fields[name].Text? then Some(fields[name].text) else None
  }

  /** A reply as the controller understands it. */
  datatype Heard = Heard(session: string, reply: Reply)

  function Understood(fields: map<string, Value>): Option<Reply> {
    var op := TextAt(fields, "op");
    if op == Some("spawned") then
      var request, pid := TextAt(fields, "request_id"), NumberAt(fields, "pid");
      if request.Some? && pid.Some? && NumberAt(fields, "process_group") == pid
      then Some(Spawned(request.value, pid.value)) else None
    else if op == Some("output") then
      var sequence, data := NumberAt(fields, "sequence"), TextAt(fields, "data");
      if sequence.Some? && data.Some? && Base64.Decode(data.value).Some?
      then Some(Output(sequence.value, Base64.Decode(data.value).value)) else None
    else if op == Some("resized") then
      var rows, cols := NumberAt(fields, "rows"), NumberAt(fields, "cols");
      if rows.Some? && cols.Some? then Some(Resized(rows.value, cols.value)) else None
    else if op == Some("signalled") then Some(Signalled)
    else if op == Some("heartbeat") && NumberAt(fields, "version") == Some(1) then Some(Heartbeat)
    else if op == Some("exited") then
      var code, count := NumberAt(fields, "exit_code"), NumberAt(fields, "sequence");
      var signal := TextAt(fields, "signal");
      if code.None? || count.None? || (signal.Some? && !PlainText(signal.value)) then None
      else Some(Exited(Status(code.value, if signal.None? then None else Some(signal.value)), count.value))
    else None
  }

  function Reads(body: seq<byte>): Option<Heard> {
    var fields := FieldsOf(body);
    if fields.None? then None
    else
      var session, reply := TextAt(fields.value, "session_id"), Understood(fields.value);
      if session.Some? && reply.Some? then Some(Heard(session.value, reply.value)) else None
  }

  /** What only the first frame carries is an identifier. */
  predicate Tellable(r: Reply) { r.Spawned? ==> Identifier(r.request) }

  lemma IdentifierIsPlain(s: string)
    requires Identifier(s)
    ensures PlainText(s)
  {
  }

  lemma DigitIsPlain(v: Base64.digit)
    ensures PlainText([Base64.Digit(v)])
  {
  }

  lemma {:induction false} EncodedIsPlain(bytes: seq<byte>)
    ensures PlainText(Base64.Encode(bytes))
  {
    forall v: Base64.digit ensures PlainText([Base64.Digit(v)]) && Base64.Digit(v) in [Base64.Digit(v)] {
      DigitIsPlain(v);
    }
    if |bytes| > 2 {
      EncodedIsPlain(bytes[3..]);
    }
    hide Base64.Digit, Base64.W, Base64.X, Base64.Y, Base64.Z;
  }

  predicate PlainField(fields: Fields) {
    fields.End? || (PlainText(fields.name) && PlainValue(fields.value))
  }

  lemma OnePlain(fields: Fields)
    requires PlainField(fields) && PlainFields(Next(fields))
    ensures PlainFields(fields)
  {
  }

  lemma FivePlain(fields: Fields)
    requires var second := Next(fields);
             var third := Next(second);
             var fourth := Next(third);
             var fifth := Next(fourth);
             && PlainField(fields) && PlainField(second) && PlainField(third) && PlainField(fourth)
             && PlainField(fifth) && Next(fifth).End?
    ensures PlainFields(fields)
  {
    hide PlainField, PlainFields;
    LastIsPlain();
    OnePlain(Next(Next(Next(Next(fields)))));
    OnePlain(Next(Next(Next(fields))));
    OnePlain(Next(Next(fields)));
    OnePlain(Next(fields));
    OnePlain(fields);
  }

  lemma LastIsPlain()
    ensures PlainFields(End)
  {
  }

  lemma LongNamesArePlain()
    ensures PlainText("process_group") && PlainText("request_id") && PlainText("session_id") && PlainText("exit_code")
  {
  }

  lemma NamesArePlain()
    ensures PlainText("op") && PlainText("pid") && PlainText("data") && PlainText("sequence") && PlainText("cols")
    ensures PlainText("rows") && PlainText("version") && PlainText("signal")
  {
  }

  lemma OpsArePlain()
    ensures PlainText("spawned") && PlainText("output") && PlainText("resized") && PlainText("signalled")
    ensures PlainText("heartbeat") && PlainText("exited")
  {
  }

  lemma ToldIsPlain(session: string, r: Reply)
    requires Identifier(session) && Tellable(r)
    ensures PlainFields(Told(session, r))
  {
    hide PlainText, Identifier, Base64.Encode, PlainFields;
    NamesArePlain();
    LongNamesArePlain();
    OpsArePlain();
    IdentifierIsPlain(session);
    if r.Output? {
      EncodedIsPlain(r.data);
    }
    if r.Spawned? {
      IdentifierIsPlain(r.request);
    }
    FivePlain(Told(session, r));
  }

  // What is read back of up to five fields.
  function Under(fields: Fields, others: map<string, Value>): map<string, Value> {
    if fields.End? then others else others[fields.name := fields.value]
  }

  lemma OneByName(fields: Fields)
    ensures ByName(fields) == Under(fields, ByName(Next(fields)))
  {
  }

  lemma FiveByName(fields: Fields)
    ensures var second := Next(fields);
            var third := Next(second);
            var fourth := Next(third);
            var fifth := Next(fourth);
            Next(fifth).End? ==>
              ByName(fields) == Under(fields, Under(second, Under(third, Under(fourth, Under(fifth, map[])))))
  {
    hide Under, ByName;
    NoneByName();
    OneByName(fields);
    OneByName(Next(fields));
    OneByName(Next(Next(fields)));
    OneByName(Next(Next(Next(fields))));
    OneByName(Next(Next(Next(Next(fields)))));
  }

  lemma NoneByName()
    ensures ByName(End) == map[]
  {
  }

  lemma {:induction false} AsciiReadsBack(text: string)
    requires forall c :: c in text ==> c <= '~'
    ensures Ascii(Bytes(text)) == text
  {
    forall i | 0 <= i < |text| ensures Ascii(Bytes(text))[i] == text[i] {
      assert text[i] in text;
    }
  }

  lemma {:induction false} DecimalIsAscii(n: nat)
    ensures forall c :: c in Decimal(n) ==> c <= '~'
  {
    if n >= 10 {
      DecimalIsAscii(n / 10);
    }
  }

  lemma {:induction false} WrittenIsAscii(fields: Fields)
    requires PlainFields(fields)
    ensures forall c :: c in WrittenFields(fields) ==> c <= '~'
  {
    hide Decimal;
    if fields.More? {
      WrittenIsAscii(fields.rest);
      if fields.value.Number? {
        DecimalIsAscii(fields.value.n);
      }
    }
  }

  /** Every field of every reply is found under its name in the bytes sent, and
      holds what the reply says. */
  lemma FieldsAreFound(session: string, r: Reply)
    requires Identifier(session) && Tellable(r)
    ensures FieldsOf(Bytes(Json(session, r))).Some?
    ensures var fields := FieldsOf(Bytes(Json(session, r))).value;
            && TextAt(fields, "session_id") == Some(session)
            && (r.Spawned? ==>
                  && TextAt(fields, "op") == Some("spawned") && TextAt(fields, "request_id") == Some(r.request)
                  && NumberAt(fields, "pid") == Some(r.pid) && NumberAt(fields, "process_group") == Some(r.pid))
            && (r.Output? ==>
                  && TextAt(fields, "op") == Some("output") && NumberAt(fields, "sequence") == Some(r.sequence)
                  && TextAt(fields, "data") == Some(Base64.Encode(r.data)))
            && (r.Resized? ==>
                  && TextAt(fields, "op") == Some("resized") && NumberAt(fields, "rows") == Some(r.rows)
                  && NumberAt(fields, "cols") == Some(r.cols))
            && (r.Signalled? ==> TextAt(fields, "op") == Some("signalled"))
            && (r.Heartbeat? ==> TextAt(fields, "op") == Some("heartbeat") && NumberAt(fields, "version") == Some(1))
            && (r.Exited? ==>
                  && TextAt(fields, "op") == Some("exited") && NumberAt(fields, "exit_code") == Some(r.status.code)
                  && NumberAt(fields, "sequence") == Some(r.count)
                  && TextAt(fields, "signal") == r.status.signal)
  {
    hide Bytes, Ascii, ReadObject, Object, ByName, PlainFields, Identifier, Base64.Encode, WrittenFields;
    JsonReadsBack(session, r);
    FiveByName(Told(session, r));
  }

  lemma JsonReadsBack(session: string, r: Reply)
    requires Identifier(session) && Tellable(r)
    ensures FieldsOf(Bytes(Json(session, r))) == Some(ByName(Told(session, r)))
  {
    hide Bytes, Ascii, ReadObject, ByName, PlainFields, Identifier, Base64.Encode, WrittenFields;
    ToldIsPlain(session, r);
    WrittenIsAscii(Told(session, r));
    AsciiReadsBack(Json(session, r));
    FieldsReadBack(Told(session, r));
  }

  /** So the controller hears exactly the reply that was sent. */
  lemma ReplyReadsBack(session: string, r: Reply)
    requires Identifier(session) && Tellable(r)
    ensures Reads(Bytes(Json(session, r))) == Some(Heard(session, r))
  {
    hide FieldsOf, Json, Bytes, Identifier, Base64.Encode, Base64.Decode, TextAt, NumberAt;
    FieldsAreFound(session, r);
    if r.Output? {
      Base64.DecodeInvertsEncode(r.data);
    }
    if r.Exited? && r.status.signal.Some? {
      assert PlainText(r.status.signal.value);
    }
  }

  /** Replies that all became frames. */
  ghost predicate Framed(session: string, replies: seq<Reply>) {
    forall r :: r in replies ==> Tellable(r) && Encoded(session, r).Some?
  }

  lemma ContentsNext(session: string, replies: seq<Reply>, r: Reply)
    requires Encoded(session, r).Some?
    ensures Contents(session, replies + [r]) == Contents(session, replies) + [Bytes(Json(session, r))]
  {
    hide Encoded, Json, Bytes;
    assert (replies + [r])[..|replies|] == replies;
  }

  lemma {:induction false} ContentsRead(session: string, replies: seq<Reply>)
    requires Identifier(session) && Framed(session, replies)
    ensures var bodies := Contents(session, replies);
            && |bodies| == |replies|
            && forall i :: 0 <= i < |replies| ==> Reads(bodies[i]) == Some(Heard(session, replies[i]))
  {
    hide Encoded, Json, Reads, Bytes, Identifier, Tellable;
    if replies == [] {
      assert Contents(session, replies) == [];
    } else {
      hide Contents;
      var front, last := replies[..|replies| - 1], replies[|replies| - 1];
      assert last in replies && forall r :: r in front ==> r in replies;
      ContentsRead(session, front);
      ReplyReadsBack(session, last);
      ContentsNext(session, front, last);
      assert replies == front + [last];
    }
  }

  lemma FramedLast(session: string, replies: seq<Reply>, r: Reply)
    requires Framed(session, replies) && Tellable(r) && Encoded(session, r).Some?
    ensures Framed(session, replies + [r])
  {
    hide Encoded;
  }

  lemma NothingFramed(session: string)
    ensures Framed(session, [])
  {
  }

  /** Who reads the wire hears exactly those replies, one after another. */
  ghost predicate Hears(session: string, wire: seq<byte>, replies: seq<Reply>) {
    var parsed := Parse(Whole, wire);
    && parsed.rest == [] && !parsed.failed && |parsed.commands| == |replies|
    && forall i :: 0 <= i < |replies| ==> Reads(parsed.commands[i]) == Some(Heard(session, replies[i]))
  }

  lemma WireReadsBack(session: string, replies: seq<Reply>)
    requires Identifier(session) && Framed(session, replies)
    ensures Hears(session, Wire(session, replies), replies)
  {
    hide Parse, Contents, Reads, Identifier, Framed;
    WireParses(session, replies);
    ContentsRead(session, replies);
  }

  /** What the controller hears back from a command: the size it set, that its
      signal was sent, a sign of life; and nothing from any other command. */
  lemma AnswerIsHeard(session: string, c: Command)
    requires Identifier(session)
    ensures Answer(c).Some? <==> c.Resize? || c.Signal? || c.Ping?
    ensures Answer(c).Some? ==> FieldsOf(Bytes(Json(session, Answer(c).value))).Some?
    ensures Answer(c).Some? ==>
              var fields := FieldsOf(Bytes(Json(session, Answer(c).value))).value;
              && (c.Resize? ==>
                    && TextAt(fields, "op") == Some("resized")
                    && NumberAt(fields, "rows") == Some(c.rows) && NumberAt(fields, "cols") == Some(c.cols))
              && (c.Signal? ==> TextAt(fields, "op") == Some("signalled"))
              && (c.Ping? ==> TextAt(fields, "op") == Some("heartbeat"))
  {
    hide FieldsOf, Json, Bytes, Identifier, TextAt, NumberAt;
    if Answer(c).Some? {
      FieldsAreFound(session, Answer(c).value);
    }
  }

  /** What a command does beside its answer: text is typed as decoded, and a
      termination starts with TERM. */
  lemma CommandsDo(c: Command)
    ensures Keys(c) != [] ==> c.Input? && Base64.Decode(c.data) == Some(Keys(c))
    ensures c.Input? && Base64.Decode(c.data).Some? ==> Base64.Decode(c.data) == Some(Keys(c))
    ensures Sends(c).Some? <==> c.Signal? || c.Terminate?
    ensures Sends(c).Some? ==> Sends(c) == Some(if c.Signal? then c.name else "TERM")
  {
    hide Base64.Decode;
  }
}
