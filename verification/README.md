# Shoestring: verified models of its protocols and guards

Shoestring runs coding agents under a person's eye. This project models five of
its parts, each where the code itself decides something hard, and proves what
they keep over every run.

- **The chat client's connection** (`ChatConnection`, `ChatProtocol`,
  `Transcript`, `Delivery`, `ScreenTexts`): joining, folding numbered events, resending
  unanswered messages, losing the link at any point. Client, links and service
  are one step system; an old link's bytes may be processed at any later time.
- **The terminal helper** (`Framing`, `Base64`, `Fields`,
  `TerminalFrames`, `TerminalLoop`, `Guardian`): length-prefixed frames, a poll loop with two
  bounded queues and partial writes, and the three processes that start and end
  a provider.
- **The keys of the chat screen** (`InputLine`, `ChatKeys`, `KeyTraces`,
  `KeyLaws`): the
  input line on UTF-8 bytes, the layered modes, and what can be sent over any
  run of keys and pushes.
- **Text for the terminal** (`ChatText`, `Wrapping`, `FewestRows`,
  `BlankRows`): stripping
  escape sequences, and breaking lines into rows.
- **The guards of live evaluation** (`Proposal`, `Budget`): collecting one
  bounded answer, and a call ceiling shared by processes that may crash.

Code that changes state in place is a class or a loop here, proved against a
specification function; what the code promises is then proved about that
function. `dafny verify dfyconfig.toml` checks everything.

What the model takes from outside:

- JSON is a function from bytes to values that may fail (`decode`, `parse`).
  The helper's own replies are written out byte for byte, and read back by a
  reader of flat objects; the system's names of signals hold nothing that JSON
  escapes. `QuotesSession` is the one thing assumed of its decoder: a command's text is longer than the
  session name it quotes.
- Readiness of pipes, sizes of partial reads and writes, timeouts, exits,
  replies, losses and crashes are steps or parameters that may take any value.
- A link delivers in order until it is cut. A frame whose write fails may or
  may not have reached the service; bytes that are lost are bytes the service
  never processes. Message ids are distinct.
- The service records a `message_id` once, replays from `after`, ignores
  `after` for another conversation and sends nothing of an old conversation
  after its `handed_off` event (`docs/chat-channel.md`). The one process of a
  channel replies to a request before it takes the next
  (`lib/shoestring_web/channels/chat_channel.ex:279-398`), so a connection's
  replies come in the order of its requests.

Where the code does not do what is expected of it, the code is kept:

- A control string ends at its first bell for the client. ECMA-48 allows a bell
  in the text of an SOS string, and what follows it may then be shown
  (`ChatText.SosWithBellShows`). The string vanishes if and only if what follows
  its first bell vanishes (`ChatText.BellEndsAString`).
- A word exactly as wide as the screen is broken off from the space after it,
  which starts the next row; and a run of spaces that passes the end of a row
  goes on in the next. Either can waste a row and show a blank one
  (`BlankRows.BrimmingWastesARow`, `BlankRows.RunWastesARow`). Single-spaced
  lines without such a word take the fewest rows; otherwise rows are lost at most
  one for each such word and each time a run goes round the screen. A run and
  the word behind it cost a row if and only if they pass the end of a second row
  (`BlankRows.RunCostsExactly`, and for whole lines of one and of two words
  `BlankRows.OneWordExactly`, `BlankRows.TwoWordsExactly`); a line of words that
  fit shows a blank row if and only if one of its runs does
  (`BlankRows.BlankRowsExactly`).
- With help open the popup drawn on top is not the one the next key answers
  when a lesson or an ask came meanwhile (`KeyTraces.LessonOverHelp`); it agrees
  exactly otherwise (`KeyTraces.TopmostTakesTheKey`).
- A denial's reason is bounded to 500 characters, where `docs/chat-channel.md`
  says 500 bytes (`KeyTraces.LongNoteIsSent`). It keeps to bytes if and only if
  every character typed takes one byte, or nothing but white space is typed
  (`KeyTraces.NotesFitExactly`).

## Model

| member | source | states |
|---|---|---|
| `ChatConnection.Connection.constructor` | native/chat_client/src/connection.rs:122-129 | a connection starts with nothing pending and nothing written |
| `ChatConnection.Connection.Open` | native/chat_client/src/connection.rs:151-153 | opening takes reference 1 for the join; kept messages stay |
| `ChatConnection.Connection.Send` | native/chat_client/src/connection.rs:318-328 | an item takes the next reference and is remembered under it whether or not the write goes through; only a write that went through adds its frame to what was written |
| `ChatConnection.Connection.Resend` | native/chat_client/src/connection.rs:205-218 | the loop writes the kept messages in order, up to the first failing write, and changes none of them |
| `ChatConnection.Connection.Take` | native/chat_client/src/connection.rs:258-270 | a message is kept before it is written; any other item is only written |
| `ChatConnection.Connection.Beat` | native/chat_client/src/connection.rs:272-283 | a heartbeat uses up one reference and nothing else |
| `ChatConnection.Connection.Reply` | native/chat_client/src/connection.rs:331-341 | a reply settles the item sent under its reference and drops exactly that message from the kept ones; an unknown reference changes nothing |
| `ChatConnection.WriteKeepsNumbering` | native/chat_client/src/connection.rs:122-129 | no reference is used twice: what is pending is what was written and not yet answered |
| `ChatConnection.ReplySettlesOldest` | native/chat_client/src/connection.rs:331-341 | the next reply settles the oldest unanswered frame, and the numbering stays |
| `ChatConnection.WithoutFirst` | native/chat_client/src/connection.rs:341 | dropping an answered message leaves the later ones, in order |
| `ChatConnection.WatchingSplit` | native/chat_client/src/connection.rs:220-233 | what is watched after two runs of frames is decided by the later one |
| `ChatConnection.SaysSplit` | native/chat_client/src/connection.rs:258-266 | the messages of two runs of items are those of the first and then those of the second |
| `ChatProtocol.RecordedAtMostOnceInOrder` | native/chat_client/src/connection.rs:84-108 | in every run of typing, writes, replies, losses and reconnects, with old connections processed arbitrarily late, a typed message is recorded at most once, and while none is refused the record is a prefix of the typed order |
| `ChatProtocol.UnansweredAreKept` | native/chat_client/src/connection.rs:258-266 | in every run the messages taken from the outbox and not yet answered are exactly the kept ones, in order |
| `ChatProtocol.RecordedExactlyOnceAtRest` | native/chat_client/src/connection.rs:202-218 | with nothing waiting and nothing refused, every typed message is recorded exactly once, in order |
| `ChatProtocol.CanAlwaysFinish` | native/chat_client/src/connection.rs:84-108 | from every state that satisfies the invariant of all runs, some run ends with nothing waiting and every typed message recorded once |
| `ChatProtocol.WatchAgreesWithDetail` | native/chat_client/src/connection.rs:220-233 | once the outbox is drained on a live connection, the last watch or unwatch written on it is the open detail's |
| `ChatProtocol.EachEntryWrittenOnce` | native/chat_client/src/connection.rs:202-266 | every outbox entry is written as itself exactly once over all connections; any other frame repeats a message taken before, or is the watch of the detail that was open when so many entries had been put in the outbox; on one connection the repeated messages come first, then at most one such watch, then entries, and no message is written twice |
| `ChatProtocol.RepliesSettleTheirOwn` | native/chat_client/src/connection.rs:331-341 | on every connection of every run references increase, the pending items are exactly those written and unanswered, and the n-th reply is the one to the n-th frame |
| `ChatProtocol.AcceptedMessagesAreRecorded` | docs/chat-channel.md:84 | in every run an ok answer to a message means that it is recorded |
| `ChatProtocol.RunKeepsMessages` | native/chat_client/src/connection.rs:84-108 | the invariant about messages holds after any run from a state that has it |
| `ChatProtocol.TakeKeepsMessages` | native/chat_client/src/connection.rs:258-266 | taking an item from the outbox keeps the invariant, also when its write fails |
| `ChatProtocol.ResendKeepsMessages` | native/chat_client/src/connection.rs:205-218 | writing one kept message again keeps the invariant |
| `ChatProtocol.ServeKeepsMessages` | docs/chat-channel.md:84 | a frame processed on any connection, however old, keeps the invariant |
| `ChatProtocol.ReadReplyKeepsMessages` | native/chat_client/src/connection.rs:331-341 | reading a reply keeps the invariant |
| `Transcript.Model.constructor` | native/chat_client/src/model.rs:157-164 | an empty conversation |
| `Transcript.Model.Joined` | native/chat_client/src/model.rs:183-201 | a join that names another conversation restarts the numbering and says so; the same one changes only the name |
| `Transcript.Model.ApplyEvents` | native/chat_client/src/model.rs:203-218 | a batch is folded event by event; those without a number or with one already seen are dropped |
| `Transcript.Model.ApplyEvent` | native/chat_client/src/model.rs:220-311 | each kind of event changes entries, numbering, conversation and note mark as the specification of one event says |
| `Transcript.Model.DropNote` | native/chat_client/src/model.rs:272-282 | the loop drops exactly the coordinator's entries at or after the mark |
| `Transcript.ScreenDisplaysHistory` | native/chat_client/src/model.rs:220-311 | after any history the entries are each item's own entry, in order, less the coordinator's messages between a request for a note and the receipt of that note; the mark never exceeds the number of entries |
| `Transcript.NoteRemoved` | native/chat_client/src/model.rs:272-282 | removing from the mark on removes exactly the coordinator's messages since the request was shown |
| `Transcript.NumberingKept` | native/chat_client/src/model.rs:220-311 | only a handoff changes the numbering or the conversation |
| `ScreenTexts.ScreenSays` | native/chat_client/src/model.rs:220-311 | after any history the texts on the screen of each kind, `You`, `Coordinator`, `Tool`, `Inbox`, `Handoff` and `Notice`, are in order exactly what the events of that kind say, less the coordinator's messages a handoff carried over |
| `ScreenTexts.EveryRunSays` | native/chat_client/src/model.rs:203-311 | the same in every run of reconnects, repeats and handoffs: what a person wrote and what was answered is shown once, in order |
| `ScreenTexts.ShowsWhatItSays` | native/chat_client/src/model.rs:223-310 | an event's own entry has the one kind and the text that the event calls for, or there is none |
| `ScreenTexts.CoordinatorIsTheLastOpened` | native/chat_client/src/model.rs:224-230 | the coordinator named is that of the last conversation opened |
| `ScreenTexts.RejoinTells` | native/chat_client/src/model.rs:183-201 | a join that names another conversation adds one notice and restarts the numbering; any other adds nothing |
| `ScreenTexts.CarriedOverHolds` | native/chat_client/src/model.rs:272-297 | a handoff's entry holds the facts and then the note, or why there is none |
| `ScreenTexts.InboxLineHolds` | native/chat_client/src/model.rs:298-309 | an inbox entry names dispatch, purpose, title, worker and state, in that order |
| `ScreenTexts.TurnLineTells` | native/chat_client/src/model.rs:643-661 | only a completed turn passes without a line; any other line says how the turn ended, and why when that is known |
| `ScreenTexts.HeldLineTells` | native/chat_client/src/model.rs:663-680 | a held turn says what it waits for and until when |
| `ScreenTexts.ToolNameIsLast` | native/chat_client/src/model.rs:234-237 | a tool is called by what follows the last `__` of its name |
| `Delivery.EventsAppliedOnceInOrder` | native/chat_client/src/model.rs:203-218 | over any reconnects, overlapping backlogs, repeats and handoffs, the events applied of each conversation are a prefix of its log, each once and in order, as long as `last_sequence` says for the current one |
| `Delivery.ScreenIsTheHistory` | native/chat_client/src/model.rs:203-311 | in every run the screen shows what the applied events display, with the client's own notices between them |
| `Delivery.CaughtUpMeansAll` | docs/chat-channel.md:62-78 | a connection read to its end leaves no gap: the whole current conversation was applied |
| `Delivery.CanAlwaysCatchUp` | docs/chat-channel.md:62-78 | from every state that some run reaches, some run of the connection alone, the logs staying as they are, ends with the whole current conversation applied |
| `Delivery.BatchIsFolded` | native/chat_client/src/model.rs:203-218 | of a batch that starts where the client stands or earlier, the fold applies exactly the unseen events, once each and in order, and the screen and the numbering are theirs |
| `Delivery.ReadJoinKeeps` | native/chat_client/src/model.rs:183-201 | a join reply for the same or a later conversation leaves client and service agreeing on where the client stands |
| `Delivery.ReadBatchKeeps` | native/chat_client/src/model.rs:203-218 | a batch moves the client to where the service says it is, across a handoff too |
| `Delivery.ServiceStepKeeps` | docs/chat-channel.md:113-124 | committing an event or handing off, at any time, keeps what was applied a prefix of each log |
| `Delivery.LinkStepKeeps` | native/chat_client/src/connection.rs:154-200 | connecting with the last number and the conversation, being accepted, being sent a batch or losing the link keeps the agreement |
| `Delivery.RunKeepsNet` | docs/chat-channel.md:62-78 | the invariant of client, link and logs holds after any run |
| `ChatText.Chars.constructor` | native/chat_client/src/text.rs:9-10 | an iterator at the start of the text |
| `ChatText.Chars.Next` | native/chat_client/src/text.rs:11-12 | one character is one step of the transducer |
| `ChatText.Chars.SkipCsi` | native/chat_client/src/text.rs:54-60 | skips to the end of a control sequence, letting nothing through |
| `ChatText.Chars.SkipString` | native/chat_client/src/text.rs:63-74 | skips to the end of a control string, letting nothing through |
| `ChatText.Chars.SkipEscape` | native/chat_client/src/text.rs:36-51 | skips an escape sequence of any kind, letting nothing through |
| `ChatText.Clean` | native/chat_client/src/text.rs:9-27 | the peeking loops compute exactly what the five-state transducer lets through |
| `ChatText.CleanedLine` | native/chat_client/src/text.rs:30-32 | as long as the cleaned text, with every line break a space |
| `ChatText.Pieces` | native/chat_client/src/text.rs:9-74 | cleaning a concatenation is cleaning the parts with the state carried over |
| `ChatText.OnlyShownComesThrough` | native/chat_client/src/text.rs:15-22 | no control character but the line break and no bidirectional override comes through, from any state |
| `ChatText.EachCharacterLeaves` | native/chat_client/src/text.rs:11-23 | met in the ground state a tab leaves four spaces, a carriage return nothing, any other control or bidirectional control exactly one U+FFFD and every other character itself, wherever it stands |
| `ChatText.SteersExactly` | native/chat_client/src/text.rs:18-20 | the characters replaced are the sets C0 and C1, DELETE and the twelve characters with the property Bidi_Control |
| `ChatText.EscapeVanishesExactly` | native/chat_client/src/text.rs:36-51 | an escape and one character vanish, and the text goes on behind them, if and only if the two open neither a control sequence nor a control string |
| `ChatText.ShownTextIsUnchanged` | native/chat_client/src/text.rs:9-27 | text of shown characters only is unchanged |
| `ChatText.CleaningTwiceIsCleaningOnce` | native/chat_client/src/text.rs:9-27 | cleaning is idempotent |
| `ChatText.VanishedBetween` | native/chat_client/src/text.rs:36-74 | what vanishes by itself vanishes between any neighbours without touching them |
| `ChatText.ControlSequenceVanishes` | native/chat_client/src/text.rs:54-60 | every well-formed control sequence (section 5.4 of ECMA-48), 7-bit or 8-bit, vanishes |
| `ChatText.SequenceEndsExactly` | native/chat_client/src/text.rs:54-60 | however malformed, a control sequence is over at the first character that is neither parameter nor intermediate |
| `ChatText.ControlStringVanishes` | native/chat_client/src/text.rs:63-74 | every control string (section 5.6 of ECMA-48) without a bell in it vanishes, however opened and terminated |
| `ChatText.CommandStringVanishes` | native/chat_client/src/text.rs:63-74 | every command string, whose text ECMA-48 limits to graphic characters and format effectors, vanishes |
| `ChatText.BellEndsAString` | native/chat_client/src/text.rs:63-74 | for every control string with a bell, whatever its characters: it leaves on the screen, and in the machine, exactly what the text after its first bell leaves; so it vanishes if and only if that text with the terminator does |
| `ChatText.BellEndsAPlainString` | native/chat_client/src/text.rs:63-74 | with graphic characters, format effectors and bells only, it vanishes if and only if the terminator is the 7-bit one and only carriage returns follow the first bell |
| `ChatText.SosWithBellShows` | native/chat_client/src/text.rs:63-74 | a concrete SOS string with a bell in it leaves text on the screen |
| `ChatText.SosWithBellVanishes` | native/chat_client/src/text.rs:63-74 | another one, with a control sequence behind the bell, vanishes |
| `Framing.HeaderHoldsSize` | native/terminal_helper/src/protocol.rs:54-56 | reading a header gives back the size written |
| `Framing.SizeMakesHeader` | native/terminal_helper/src/protocol.rs:65 | every header is the header of the size it holds |
| `Framing.FirstByteDecides` | native/terminal_helper/src/protocol.rs:54-56 | the header is big-endian: the first byte in which two headers differ tells which frame is longer |
| `Framing.Buffer.constructor` | native/terminal_helper/src/main.rs:139 | an empty control buffer |
| `Framing.Buffer.Append` | native/terminal_helper/src/main.rs:205 | bytes read join the end of the buffer |
| `Framing.Buffer.TakeCommand` | native/terminal_helper/src/protocol.rs:72-87 | takes the first whole frame off the buffer, or leaves it untouched when it is incomplete or bad |
| `Framing.Buffer.Drain` | native/terminal_helper/src/main.rs:209-211 | the loop takes every whole frame, in order, up to the first bad one |
| `Framing.Reader.constructor` | native/terminal_helper/src/protocol.rs:60 | a reader at the start of its bytes |
| `Framing.Reader.ReadExact` | native/terminal_helper/src/protocol.rs:61-62 | reads so many bytes, or fails when there are fewer |
| `Framing.Reader.ReadCommand` | native/terminal_helper/src/protocol.rs:60-70 | reads one frame from a reader |
| `Framing.ReadAgreesWithTake` | native/terminal_helper/src/protocol.rs:60-87 | both ways of reading agree on every byte sequence: the command, the failure, or that more is needed |
| `Framing.ParseInTwo` | native/terminal_helper/src/protocol.rs:72-87 | draining a part and then the rest is draining the whole, unless the part already failed |
| `Framing.ChunksDoNotMatter` | native/terminal_helper/src/main.rs:209-211 | however a stream is cut into reads, the same commands come out, with the same failure or the same bytes left |
| `Framing.ParseInvertsFrames` | native/terminal_helper/src/protocol.rs:49-58 | parsing a sequence of frames gives back what was framed, with nothing left |
| `Framing.NoByteLost` | native/terminal_helper/src/protocol.rs:72-87 | a stream is exactly the frames taken and what is left, which is strictly less than a frame or starts with a bad one |
| `Base64.DecodeInvertsEncode` | native/terminal_helper/src/main.rs:218 | decoding gives back what was encoded, for every byte sequence |
| `Base64.EncodeInvertsDecode` | native/terminal_helper/src/main.rs:218 | a text that decodes is the one that encodes its bytes: no other is taken |
| `Base64.DigitsAreTheAlphabet` | native/terminal_helper/src/main.rs:218 | the digits are those of table 1 of RFC 4648, each with its own value |
| `Base64.SameBits` | native/terminal_helper/src/main.rs:218 | three bytes and their four digits are the same 24 bits |
| `Base64.EncodedLength` | native/terminal_helper/src/main.rs:265-270 | the length of the encoding |
| `TerminalFrames.AnswerIsShort` | native/terminal_helper/src/main.rs:224-257 | a reply to a command is at most 58 bytes longer than the session's name |
| `TerminalFrames.OutputIsBounded` | native/terminal_helper/src/main.rs:265-270 | a full 4096-byte read with any 64-bit number makes a frame of at most 5,669 bytes |
| `TerminalFrames.SpawnedIsBounded` | native/terminal_helper/src/main.rs:146-150 | the first frame is at most 1,000 bytes |
| `TerminalFrames.NoOutputAfterExit` | native/terminal_helper/src/main.rs:163-173 | when outputs all come before the exit, no output frame follows it |
| `TerminalFrames.WireParses` | native/terminal_helper/src/protocol.rs:49-58 | whoever parses the wire gets the texts of the replies enqueued, whole and in order |
| `TerminalFrames.FieldsAreFound` | native/terminal_helper/src/main.rs:146-273 | every field of every reply is found under its own name in the bytes sent and holds what the reply says: exit code, signal and count, number and data, rows and columns, process and request |
| `TerminalFrames.ReplyReadsBack` | native/terminal_helper/src/main.rs:146-273 | a controller that reads the fields by name hears exactly the reply sent, with data decoded |
| `TerminalFrames.WireReadsBack` | native/terminal_helper/src/protocol.rs:49-58 | whoever reads the wire hears exactly the replies enqueued, one after another |
| `TerminalFrames.AnswerIsHeard` | native/terminal_helper/src/main.rs:224-257 | what is heard back from a command is the size it set, that its signal was sent, or a sign of life; other commands have no answer |
| `TerminalFrames.AcceptedCommands` | native/terminal_helper/src/main.rs:212-258 | exactly which commands are carried out |
| `TerminalFrames.CommandsDo` | native/terminal_helper/src/main.rs:212-250 | what a command types and which signal it sends |
| `Fields.FieldsReadBack` | native/terminal_helper/src/main.rs:22-29 | whatever fields are written are read back by name |
| `Fields.DecimalReadsBack` | native/terminal_helper/src/main.rs:22-29 | the digits of a number read back as the number |
| `TerminalLoop.Helper.constructor` | native/terminal_helper/src/main.rs:137-150 | the loop's start: `spawned` is queued, nothing else happened |
| `TerminalLoop.Helper.Enqueue` | native/terminal_helper/src/main.rs:22-29 | a frame joins the queue whole or not at all; it fails exactly when the frame is too large or the queue would pass its bound |
| `TerminalLoop.Helper.Kill` | native/terminal_helper/src/main.rs:153-156 | one SIGKILL is sent to the group, and none of the signals relayed for commands changes |
| `TerminalLoop.Helper.TellExit` | native/terminal_helper/src/main.rs:163-173 | `exited` is queued at most once, after every output frame, with the number of frames |
| `TerminalLoop.Helper.CheckExit` | native/terminal_helper/src/main.rs:153-173 | the top of the loop: SIGKILL is sent once for a deadline that is due, which is then cleared, and once for a child found ended, whose status is kept; a failing wait stops the helper; `exited` is queued when all output was read |
| `TerminalLoop.Helper.TypeIn` | native/terminal_helper/src/main.rs:214-223 | input is decoded and queued whole within its bound, or refused |
| `TerminalLoop.Helper.Relay` | native/terminal_helper/src/main.rs:233-243 | a signal is relayed by its own number |
| `TerminalLoop.Helper.CarryOut` | native/terminal_helper/src/main.rs:214-250 | what a valid command does: bytes to type join the input, a signal is sent, a termination sends TERM and sets the deadline its grace period from now; nothing else touches input, signals or deadline; only a failing resize is a failed resize |
| `TerminalLoop.Helper.Reply` | native/terminal_helper/src/main.rs:224-257 | the reply a command calls for, if any, is queued |
| `TerminalLoop.Helper.Handle` | native/terminal_helper/src/main.rs:212-260 | one command: carried out and answered, its deadline set, or refused with a code |
| `TerminalLoop.Helper.HearControl` | native/terminal_helper/src/main.rs:202-261 | one control read: every whole command in it is handled in order, the incomplete one is kept, and the output queue grows by at most 37,050 bytes |
| `TerminalLoop.Helper.ReadTerminal` | native/terminal_helper/src/main.rs:262-277 | a read of the terminal becomes the next numbered frame and can never find the queue full |
| `TerminalLoop.Helper.WriteTerminal` | native/terminal_helper/src/main.rs:278-286 | as many bytes as the terminal has room for move from the input queue to it, none lost |
| `TerminalLoop.Helper.WriteWire` | native/terminal_helper/src/main.rs:287-295 | as many bytes as the wire has room for move from the output queue to it, none lost |
| `TerminalLoop.Helper.DrainQueues` | native/terminal_helper/src/main.rs:278-298 | both partial writes of a turn move all that there is room for; a wire that is gone stops the helper |
| `TerminalLoop.Helper.Exchange` | native/terminal_helper/src/main.rs:202-298 | what one poll's readiness leads to |
| `TerminalLoop.Helper.Turn` | native/terminal_helper/src/main.rs:152-299 | one turn of the loop keeps: wire and queue are the frames enqueued, terminal and input queue are the decoded inputs, both queues within bounds, outputs numbered 1, 2, 3, ... with the bytes read, control bytes in commands taken or kept; SIGKILL is sent once for a deadline that is due and once for the child's end, and never else |
| `TerminalLoop.Helper.Run` | native/terminal_helper/src/main.rs:152-305 | over any number of turns with arbitrary partial reads and writes: all of that; a terminal read never ends it with a full queue; and `Ok` only with everything flushed, when whoever reads the wire hears every reply enqueued: every byte read from the terminal in numbered frames, and one `exited` with the child's exit code and signal and the number of those frames |
| `Guardian.RunKeepsInv` | native/terminal_helper/src/main.rs:109-133 | the invariant of helper, child and guardian holds over every interleaving with the helper dying anywhere |
| `Guardian.ExecutedOnlyGuarded` | native/terminal_helper/src/process.rs:90-119 | a provider is executed only once the guardian exists |
| `Guardian.AcknowledgedOnlyReady` | native/terminal_helper/src/main.rs:109-133 | the byte that lets the bootstrap go on is sent only once it is ready, and a helper that gives up leaves no child alive |
| `Guardian.NoProviderOutlivesBoth` | native/terminal_helper/src/process.rs:39-59 | once helper and guardian are both gone, no provider was executed or its group was sent SIGKILL, and none runs |
| `Guardian.NeverExecutedUnattended` | native/terminal_helper/src/process.rs:90-119 | after that none is ever executed |
| `Guardian.GuardianFinishes` | native/terminal_helper/src/process.rs:39-59 | however the helper went, or once it waits, even when its byte could not be written: the guardian alone needs at most two steps to be gone, the group killed |
| `Guardian.AwaitBootstrap` | native/terminal_helper/src/process.rs:121-147 | the child is taken for ready exactly when its first eight bytes, read in time, say so; not one byte more is read |
| `InputLine.Editor.constructor` | native/chat_client/src/editor.rs:5-10 | an empty line |
| `InputLine.Editor.InsertText` | native/chat_client/src/editor.rs:66-70 | text goes in at the cursor, which moves behind it |
| `InputLine.Editor.Insert` | native/chat_client/src/editor.rs:59-62 | one character goes in at the cursor |
| `InputLine.Editor.Paste` | native/chat_client/src/editor.rs:66-70 | the cleaned text goes in at the cursor |
| `InputLine.Editor.Backspace` | native/chat_client/src/editor.rs:76-81 | the character before the cursor goes |
| `InputLine.Editor.Left` | native/chat_client/src/editor.rs:83-87 | one character back, or stay at the start |
| `InputLine.Editor.Right` | native/chat_client/src/editor.rs:89-93 | one character on, or stay at the end |
| `InputLine.Editor.Home` | native/chat_client/src/editor.rs:95-97 | to just after the last line break before the cursor |
| `InputLine.Editor.End` | native/chat_client/src/editor.rs:99-103 | to just before the next line break |
| `InputLine.Editor.WordLeft` | native/chat_client/src/editor.rs:106-112 | to the start of the previous word |
| `InputLine.Editor.WordRight` | native/chat_client/src/editor.rs:115-120 | to the end of the next word |
| `InputLine.Editor.ReplaceRange` | native/chat_client/src/editor.rs:123-127 | drops what lies between two boundaries |
| `InputLine.Editor.DeleteWordBack` | native/chat_client/src/editor.rs:123-127 | drops from the start of the previous word to the cursor |
| `InputLine.Editor.DeleteForward` | native/chat_client/src/editor.rs:130-134 | drops the character after the cursor |
| `InputLine.Editor.KillToEnd` | native/chat_client/src/editor.rs:137-143 | drops the rest of the line |
| `InputLine.Editor.KillToStart` | native/chat_client/src/editor.rs:146-150 | drops the line up to the cursor |
| `InputLine.Editor.LineAndColumn` | native/chat_client/src/editor.rs:155-159 | the byte where the line starts and the column in characters |
| `InputLine.Editor.Up` | native/chat_client/src/editor.rs:154-163 | to the same column of the line above or its end; false on the first line |
| `InputLine.Editor.Down` | native/chat_client/src/editor.rs:167-179 | to the same column of the line below or its end; false on the last line |
| `InputLine.Editor.Set` | native/chat_client/src/editor.rs:182-185 | replaces the text, cursor at its end |
| `InputLine.Editor.Clear` | native/chat_client/src/editor.rs:201-204 | empties the line |
| `InputLine.Editor.Submit` | native/chat_client/src/editor.rs:207-227 | the command the text names, leaving the line empty |
| `InputLine.SubmitReads` | native/chat_client/src/editor.rs:207-227 | white space around what is typed makes no difference; nothing is nothing, a command word runs its command, any other single word behind a slash is an unknown command, and everything else is a message, as it stands |
| `InputLine.UpThenDown` | native/chat_client/src/editor.rs:154-179 | after going up one can go down, and is back where one was if and only if the line above was long enough |
| `InputLine.DownThenUp` | native/chat_client/src/editor.rs:154-179 | the same downwards |
| `InputLine.CutUndoesPut` | native/chat_client/src/editor.rs:59-81 | cutting what was put in gives back the line and the cursor |
| `InputLine.PutTwice` | native/chat_client/src/editor.rs:59-70 | what is put in twice stands one behind the other, in the place where one types |
| `InputLine.UpKeepsColumn` | native/chat_client/src/editor.rs:154-163 | up goes over exactly one line break to the same column of that line, or to its end when it is shorter; there is no up exactly on the first line |
| `InputLine.DownKeepsColumn` | native/chat_client/src/editor.rs:167-179 | the same downwards |
| `InputLine.SizeIsLeast` | native/chat_client/src/editor.rs:66-93 | a character takes the fewest bytes whose payload (section 3 of RFC 3629) has room for it |
| `InputLine.WhiteExactly` | native/chat_client/src/editor.rs:106-120 | white space is the 25 characters with the property White_Space |
| `InputLine.PreviousWordIsWhole` | native/chat_client/src/editor.rs:106-112 | from the new cursor to the old there is exactly one whole word and then only white space; nowhere else is that so |
| `InputLine.NextWordIsWhole` | native/chat_client/src/editor.rs:115-120 | the same forwards |
| `InputLine.ColumnInIsInLine` | native/chat_client/src/editor.rs:235-240 | the byte index of a column of a line, or of its end |
| `InputLine.LineStartIsBack` | native/chat_client/src/editor.rs:95-97 | searching bytes backwards for a line break finds the line's first character |
| `InputLine.MenuOffersCommands` | native/chat_client/src/editor.rs:189-199 | the `/` menu offers exactly the commands that the text, a prefix starting with `/`, could become |
| `InputLine.MenuRunsItsCommand` | native/chat_client/src/editor.rs:207-227 | a menu entry submitted runs the command that belongs to it, and no other entry runs that command |
| `InputLine.NamedCommand` | native/chat_client/src/editor.rs:207-227 | each command word runs the command listed for it |
| `ChatKeys.Screen.constructor` | native/chat_client/src/model.rs:157-164 | a screen with nothing open |
| `ChatKeys.Screen.SendAnswer` | native/chat_client/src/main.rs:212-235 | while connected one answer is sent and its ask hidden; otherwise nothing happens |
| `ChatKeys.Screen.AskCancel` | native/chat_client/src/model.rs:504-517 | puts a listed, cancellable dispatch in question |
| `ChatKeys.Screen.AskStart` | native/chat_client/src/model.rs:520-533 | puts a listed, held dispatch in question |
| `ChatKeys.Screen.Select` | native/chat_client/src/model.rs:439-453 | moves the selection within the list |
| `ChatKeys.Screen.DenialKey` | native/chat_client/src/main.rs:246-262 | a key while a denial's reason is typed |
| `ChatKeys.Screen.AskKey` | native/chat_client/src/main.rs:265-283 | a key at an ask |
| `ChatKeys.Screen.AsksKey` | native/chat_client/src/main.rs:246-287 | whether asks take the key, and what they do with it |
| `ChatKeys.Screen.LessonKey` | native/chat_client/src/main.rs:299-308 | a key at an approved lesson |
| `ChatKeys.Screen.QuestionKey` | native/chat_client/src/main.rs:288-333 | whether a lesson or a question takes the key, and what it does with it |
| `ChatKeys.Screen.DetailKey` | native/chat_client/src/main.rs:334-353 | a key at an open detail |
| `ChatKeys.Screen.PopupKey` | native/chat_client/src/main.rs:246-353 | whether anything open above the input line takes the key |
| `ChatKeys.Screen.TabKey` | native/chat_client/src/main.rs:378-384 | Tab changes the focus and selects a dispatch when none is |
| `ChatKeys.Screen.AgentsKey` | native/chat_client/src/main.rs:385-410 | a key while the dispatches have the focus |
| `ChatKeys.Screen.MenuKey` | native/chat_client/src/main.rs:356-377 | whether the `/` menu uses the key up, and what it leaves otherwise |
| `ChatKeys.Screen.ChordKey` | native/chat_client/src/main.rs:426-435 | the editing chords of a shell |
| `ChatKeys.Screen.EditKey` | native/chat_client/src/main.rs:422-485 | an editing key does to the line what its function on characters says |
| `ChatKeys.Screen.Run` | native/chat_client/src/main.rs:451-474 | Enter runs the command the text names and empties the line |
| `ChatKeys.Screen.Edit` | native/chat_client/src/main.rs:422-485 | a key in the input line |
| `ChatKeys.Screen.LineKey` | native/chat_client/src/main.rs:411-416 | an edit that changes the text puts the menu back to its first entry |
| `ChatKeys.Screen.InputKey` | native/chat_client/src/main.rs:354-417 | menu, Tab and line together |
| `ChatKeys.Screen.PlainKey` | native/chat_client/src/main.rs:354-417 | a key when nothing is open above the input line |
| `ChatKeys.Screen.KeyPressed` | native/chat_client/src/main.rs:238-417 | one key changes the whole screen and the outbox exactly as the specification by layers says |
| `ChatKeys.Screen.ApplyLessons` | native/chat_client/src/model.rs:412-429 | the loop marks every lesson seen and queues those new since the first push |
| `ChatKeys.Screen.ApplyAsks` | native/chat_client/src/model.rs:377-401 | a list of asks replaces the old one and forgets answers to unlisted asks |
| `ChatKeys.Screen.KeepSelected` | native/chat_client/src/model.rs:355-361 | the selection survives a push that still lists it, else falls to the first |
| `ChatKeys.Screen.ApplyState` | native/chat_client/src/model.rs:319-374 | one push changes the screen as specified |
| `ChatKeys.Screen.Handle` | native/chat_client/src/main.rs:180-209 | one event of the terminal or connection; with help open a key only closes it |
| `ChatKeys.CurrentAsk` | native/chat_client/src/model.rs:404-408 | an ask neither answered nor put off, and none exactly when there is no such ask |
| `ChatKeys.CurrentIsFirst` | native/chat_client/src/model.rs:404-408 | it is the first of them |
| `ChatKeys.Selected` | native/chat_client/src/model.rs:439-453 | a selection is none exactly when the list is empty, and otherwise listed |
| `ChatKeys.SelectionMoves` | native/chat_client/src/model.rs:439-453 | it is the dispatch so many places from the selected one, or from the first when none is selected, and stops at the ends of the list; moving as far back returns if and only if no end was in the way or one went from one end to the other |
| `KeyLaws.SentExactly` | native/chat_client/src/main.rs:212-474 | in every run an event puts an item in the outbox if and only if a key is pressed, help is closed, and on the screen as it is drawn that key calls for that item: each answer to an ask, each confirmation, watching, and each submitted text |
| `KeyLaws.AnswersAsPressed` | native/chat_client/src/main.rs:265-273 | with an ask drawn and connected, `y` and nothing else allows it, `a` allows the agent where that is offered, `n` denies it |
| `KeyLaws.ChangedExactly` | native/chat_client/src/main.rs:180-417 | in every run a key changes exactly the part of the screen that it is said to change, told by what is drawn: reasons, answers and asks put off, lessons and the three questions, focus, selection and detail, the line, its menu, help and leaving |
| `KeyLaws.PushedExactly` | native/chat_client/src/model.rs:319-429 | a push changes exactly this: the list, the selection when it is not listed any more, the asks and which of them are answered or put off, and it queues each lesson with a code not seen before once, unless it is the first push |
| `KeyLaws.PasteGoesIn` | native/chat_client/src/main.rs:203 | a paste puts shown characters only into the line |
| `KeyLaws.EditingKeys` | native/chat_client/src/main.rs:422-485 | each editing key goes to, drops or types exactly what it stands for, told by where lines and words begin and end |
| `KeyLaws.TypedGoesIn` | native/chat_client/src/main.rs:481 | a text typed key by key goes in before the cursor, in order |
| `KeyLaws.BackspacesTakeBack` | native/chat_client/src/editor.rs:59-81 | backspacing as often as characters were typed gives back line and cursor |
| `KeyLaws.LeftsGoBack` | native/chat_client/src/editor.rs:59-87 | going left as often gives back the cursor, the text typed standing behind it |
| `KeyTraces.TopmostTakesTheKey` | native/chat_client/src/ui.rs:66-274 | in every reachable state with help closed the popup drawn on top is the one that listens; with help open it is help exactly when no lesson and no ask came since |
| `KeyTraces.OrdersAgree` | native/chat_client/src/ui.rs:66-274 | in any state with help closed the popup drawn on top is the one that listens if and only if start and cancel are not both in question with nothing above them |
| `KeyTraces.ListeningTakesTheKey` | native/chat_client/src/main.rs:238-417 | but for Ctrl+C and `A` a key does exactly what the listening layer does with it |
| `KeyTraces.LessonOverHelp` | native/chat_client/src/main.rs:190-194 | a reachable state with help open where a lesson is drawn on top and every key only closes help |
| `KeyTraces.InvAlways` | native/chat_client/src/main.rs:238-417 | in every reachable state start and cancel are never both in question, help is open over nothing else it could hide, and a denial being typed is of an unanswered ask with a bounded reason |
| `KeyTraces.OneItemAtATime` | native/chat_client/src/main.rs:334-396 | an event puts at most one item in the outbox, and the open detail changes exactly as its watch or unwatch says, as `ChatProtocol` supposes |
| `KeyTraces.CancelWasConfirmed` | native/chat_client/src/main.rs:320-333 | every `CancelDispatch` of every run names a dispatch that was listed and cancellable when `c` put it in question, stayed in question whatever changed since, and was confirmed by `y` with that question on top and the screen connected |
| `KeyTraces.StartWasConfirmed` | native/chat_client/src/main.rs:309-319 | the same for every `ConfirmDispatch` and a held dispatch |
| `KeyTraces.RetireWasConfirmed` | native/chat_client/src/main.rs:288-308 | every `RetireLesson` names a lesson that popped up before, was on top when `r` asked about it, and was confirmed by its own `y` |
| `KeyTraces.EachQuestionSendsOnce` | native/chat_client/src/main.rs:288-333 | two sends of one kind come from two separate questions, the second asked after the first send |
| `KeyTraces.PopsUpOnce` | native/chat_client/src/model.rs:412-429 | no lesson pops up twice in a run |
| `KeyTraces.AnsweredOnceWhileListed` | native/chat_client/src/main.rs:212-287 | between any two answers to one ask a push came that listed asks and not this one |
| `KeyTraces.AnswerNeedsUnanswered` | native/chat_client/src/main.rs:212-235 | an answer is sent only while connected, to an ask not yet answered, which it marks answered; its note is not empty and at most 500 characters |
| `KeyTraces.PushForgetsUnlisted` | native/chat_client/src/model.rs:397-400 | after a push that lists asks, the answered and put-off ones are all listed |
| `KeyTraces.LongNoteIsSent` | native/chat_client/src/main.rs:246-262 | this run from the start, an ask put to the person, denied, and 500 two-byte characters typed, sends a note of 1,000 bytes |
| `KeyTraces.NotesFitExactly` | native/chat_client/src/main.rs:246-262 | for every set of characters: all notes of all runs in which only these are typed as reasons keep the documented 500 bytes if and only if each of these characters takes one byte or none of them is solid |
| `KeyTraces.DenialSends` | native/chat_client/src/main.rs:246-262 | every reason of at most 500 characters can be typed from the start and is sent, trimmed, or as no note when nothing is left of it |
| `Wrapping.WrapWord` | native/chat_client/src/ui.rs:659-668 | a word wider than a row goes character by character |
| `Wrapping.WidthOf` | native/chat_client/src/ui.rs:652 | the columns of a word |
| `Wrapping.WrapOne` | native/chat_client/src/ui.rs:649-674 | the loop over the words of one line |
| `Wrapping.Wrap` | native/chat_client/src/ui.rs:646-677 | the client's loops compute the specification's rows |
| `Wrapping.NoRowTooWide` | native/chat_client/src/ui.rs:646-677 | no row is wider than the screen when no single character is |
| `Wrapping.NothingLost` | native/chat_client/src/ui.rs:646-677 | every character that is not white space is shown, in order |
| `Wrapping.RowsAreTheLine` | native/chat_client/src/ui.rs:649-674 | the rows are the line cut in consecutive parts, shown as they are or without the space at their end, and no cut falls inside a word that fits |
| `Wrapping.LinesJoin` | native/chat_client/src/ui.rs:648-650 | the lines of a text with line breaks between them are the text; each, also an empty one, has at least one row |
| `Wrapping.DroppedBetweenWords` | native/chat_client/src/ui.rs:652-674 | space at the end of a row is dropped exactly where the row ends in the space between two words, or the line ends; nothing is dropped inside a word, however long |
| `FewestRows.FewestForTheLine` | native/chat_client/src/ui.rs:646-677 | a single-spaced line whose words all fit with their spaces takes the fewest rows that any layout of its words in order takes, whatever spaces at the ends of rows hang; some layout takes as many |
| `FewestRows.BrimmingCostsOneRow` | native/chat_client/src/ui.rs:655-668 | in a single-spaced line each word that fits while its space does not costs at most one row more |
| `FewestRows.RunsCostTheirRounds` | native/chat_client/src/ui.rs:655-668 | in any line besides those each run of spaces costs at most a row for each time it goes round the screen, begun rounds counted |
| `BlankRows.RunCostsExactly` | native/chat_client/src/ui.rs:655-668 | behind a word, a run of spaces and the next word take a row more than they need, and show a blank one, if and only if together they pass the end of the next row too, one hanging space allowed |
| `BlankRows.BareRunCostsExactly` | native/chat_client/src/ui.rs:655-668 | where no word is on the row yet, if and only if they pass the end of the row |
| `BlankRows.BlankRowsExactly` | native/chat_client/src/ui.rs:655-668 | a line of words that fit, with any runs of spaces before, between and behind them, shows a blank row if and only if one of its runs spills so |
| `BlankRows.BlankRowsSingleSpaced` | native/chat_client/src/ui.rs:659-668 | a single-spaced one does if and only if a word brims and ends the line, or the word after it takes a whole row |
| `BlankRows.TwoWordsExactly` | native/chat_client/src/ui.rs:646-677 | two words with any number of spaces between them are given more rows than some layout takes, and show a blank row, if and only if words and spaces pass the last column of the second row, or one column further when the first word leaves room for a space |
| `BlankRows.OneWordExactly` | native/chat_client/src/ui.rs:646-677 | one word with any number of spaces behind it is given one row, and shows no blank one, if and only if they fit, one space hanging when the word leaves room for it |
| `BlankRows.BrimmingWastesARow` | native/chat_client/src/ui.rs:659-668 | at three columns `abc xyz` is given more rows than it needs and shows a blank one |
| `BlankRows.RunWastesARow` | native/chat_client/src/ui.rs:655-668 | at four columns `abc` and `efgh` with five spaces between them are given more rows than they need and show a blank one |
| `Proposal.Capture.constructor` | tools/planner_eval/codex_proposal.py:46-53 | nothing captured yet |
| `Proposal.Capture.Accept` | tools/planner_eval/codex_proposal.py:55-91 | one event changes the captured state, or ends collecting, as specified |
| `Proposal.Allowed` | tools/planner_eval/codex_proposal.py:81-86 | exactly the allowlisted non-negative integers are kept, with their values |
| `Proposal.DrainInTwo` | tools/planner_eval/codex_proposal.py:144-155 | bytes that come in two parts mean what they mean in one |
| `Proposal.DrainLines` | tools/planner_eval/codex_proposal.py:144-157 | the loop over whole lines; the buffer it is given is at most a frame and one read, and what it leaves at most a frame |
| `Proposal.Collect` | tools/planner_eval/codex_proposal.py:112-167 | given room for the prompt and the stream before the deadline, the end is exactly the one that stdout and the exit code call for, whatever the interleaving of writes and reads and their sizes; otherwise it is that, running out of time, or a write that fails; success means the whole prompt was written, in order, exit code 0 and a stream within bounds |
| `Proposal.CollectedExactly` | tools/planner_eval/codex_proposal.py:112-167 | collecting succeeds if and only if every byte is in a whole bounded line, every line is a harmless event, exactly one is a completed message, a turn completed and the exit code is 0; then that message is the answer, within its bound, and no tool item was seen |
| `Proposal.CapturedBeside` | tools/planner_eval/codex_proposal.py:55-91 | without a fault the usage kept is the allowlisted part of the last turn's, the errors passed over are all counted and no kind is rejected |
| `Proposal.LineFailsExactly` | tools/planner_eval/codex_proposal.py:55-157 | each fault of a line is reported for its own reason and for no other; an unexpected item is counted and its kind kept when it is a short word |
| `Proposal.EndsExactly` | tools/planner_eval/codex_proposal.py:158-167 | when no line is at fault each remaining end, an unfinished line, a timeout, an exit code or a missing result, comes for its own reason alone |
| `Proposal.FramesMakeStream` | tools/planner_eval/codex_proposal.py:145-146 | the lines with their newlines and the tail are the stream |
| `Budget.Charge` | tools/live_eval/provider_budget.py:92-105 | charges a call and strikes the first fault that applies, or refuses an exhausted role |
| `Budget.ClassifiedExactly` | tools/live_eval/provider_budget.py:63-82 | exactly which arguments make a call a review, a plan or work, for both providers |
| `Budget.ChargedIsSound` | tools/live_eval/provider_budget.py:92-105 | charging keeps a ledger within its limits, its ordinals consecutive and its faults accounted for |
| `Budget.LaunchesWithinBudget` | tools/live_eval/provider_budget.py:85-118 | for any number of processes crashing at any step, launches of a role never exceed its charges nor those its limit, and the ledger file is always whole with its first limits |
| `Budget.OrdinalsCountUp` | tools/live_eval/provider_budget.py:96-99 | in every run the recorded ordinals of a role are exactly 1 to its charges, in order |
| `Budget.FaultsAreConserved` | tools/live_eval/provider_budget.py:100-105 | in every run what each fault began with is what it has left and the calls it marked, a call being marked by the first fault that has some left; and so for their sums |
| `Budget.OnlyVersionsGoUncharged` | tools/live_eval/provider_budget.py:63-118 | in every run each launch was of a version query or of arguments classified for a role; per role these were never more than its charges, and launches of anything but `--version` or `-v` never more than the calls recorded |
| `Budget.OneAtATime` | tools/live_eval/provider_budget.py:89-118 | in every run at most one process is between taking the lock and giving it back, and none that is gone holds it |
| `Budget.CallGoesThrough` | tools/live_eval/provider_budget.py:85-118 | whatever crashed before, a waiting call of a role with fewer recorded calls than its limit can be charged and launched, and is recorded with its provider, its role, the next number and whether a failure was injected |

## Left out

- ChatProtocol.RecordedAtMostOnceInOrder: the order is claimed only while no message was refused; a refusal whose reply is lost may be accepted when the message is sent again, so then only at most once is claimed.
- ChatProtocol.CanAlwaysFinish: says that a finishing run exists, not that a fair scheduler finds it; timers and back-off are not modelled.
- FewestRows.FewestForTheLine: compares with layouts that break between words and after spaces, and is about single-spaced lines. Of any other line the rows lost are bounded (`FewestRows.RunsCostTheirRounds`, for a screen of at least one column) and counted exactly for one run and the word behind it and for lines of up to two words; a run that reaches into a row without spilling moves the words after it, which may or may not cost a later row.
- TerminalLoop.Helper.Run: supposes fewer than 2^64 reads of the terminal, the width of its counter.
- Guardian: the guardian process itself is not killed by anyone else; group ids at most 1, refused by both sides, are not modelled.
- The handshake and the checks of a spawn command before the helper's loop, the handover from buffered stdin to raw reads, and the error frame written after the loop.
- Ioctls, terminal modes, descriptor flags, environment allowlists and signal numbers.
- WebSocket and TLS, heartbeat timing, the join's refusal reasons and the wording of reply notices.
- Everything drawn except the order of layers and the breaking of lines; scrolling, notices, the `/status` and `/team` entries and opening the browser.
- `apply_dispatch`: the lines of an open detail; it never changes which detail is open.
- Other fields of dispatches, asks and lessons, which are only shown.
- `message_id`'s randomness is a parameter, present or not; `line_count` only counts lines.
- The argument list of the provider command, stopping its group, and the files of an evaluation run.
- Creating a budget's ledger: the model starts from a whole, new one; power loss, against which the file is synced, is not a step.
- Of the service only what the chat channel promises a client: supervision advice, authority checks, evidence export and the web pages decide nothing that these models rely on.
