/** The conversation as the screen shows it: entries folded from numbered
    events, with a handoff starting the numbering again. */
module Transcript {
  import opened Wrappers
  import opened ChatText

  datatype Kind = You | Coordinator | Tool | Inbox | Notice | Handoff

  datatype Entry = Entry(kind: Kind, text: string)

  /** A conversation event, as decoded; a missing text is empty. */
  datatype Event =
    | Opened(provider: string, model: string)
    | HumanMessage(text: string)
    | CoordinatorMessage(text: string)
    | ToolCalled(tool: string)
    | ToolReturned(isError: bool)
    | TurnEnded(status: string, why: string)
    | TurnHeld(why: string, until: Option<string>)
    | HandoffRequested(withNote: bool)
    | HandedOff(successor: string)
    | HandoffReceived(facts: string, note: Option<string>, noteStatus: string)
    | InboxRecorded(dispatch: string, purpose: string, title: string, worker: string, state: string)
    | Unknown

  /** An event as pushed: one without a sequence is skipped. */
  datatype Numbered = Numbered(sequence: Option<nat>, event: Event)

  /** `noteStart` is where the entries of an outgoing coordinator's note begin. */
  datatype View = View(
    conversation: Option<string>, noteStart: Option<nat>, coordinator: Option<string>,
    entries: seq<Entry>, last: nat)

  const EMPTY: View := View(None, None, None, [], 0)

  const AWAY := "This session continued in a fresh conversation (a handoff) while you were away."

  function ToolName(tool: string): string {
    AfterMark(tool, |tool|)
  }

  /** What follows the last "__" that starts before `n`, or everything. */
  function AfterMark(tool: string, n: nat): string
    requires n <= |tool|
  {
    if n == 0 then tool
    else if n + 1 <= |tool| && tool[n - 1] == '_' && tool[n] == '_' then tool[n + 1..]
    else AfterMark(tool, n - 1)
  }

  function Short(id: string): string { if |id| <= 8 then id else id[..8] }

  function TurnLine(status: string, why: string): Option<string> {
    var reason := if why == "" then "" else " (" + CleanedLine(why) + ")";
    match status
    case "completed" => None
    case "interrupted" => Some("The turn was interrupted.")
    case "failed" => Some("The turn failed" + reason + ".")
    case "uncertain" =>
      Some("The turn's end was not seen" + reason + "; it may have reached the coordinator and is not sent again.")
    case "unsent" => Some("The turn was not sent" + reason + "; send the message again.")
    case other => Some("The turn ended: " + CleanedLine(other) + reason + ".")
  }

  function HeldBecause(why: string): string {
    match why
    case "no_grant" => "the session has no grant (shoestring grant)"
    case "turns_exhausted" => "the grant's turns are used up (shoestring grants extend --turns N)"
    case "context_limit_reached" =>
      "this conversation has reached its text limit; /handoff continues it in a fresh one"
    case "input_too_large" => "the pending input exceeds the turn limit"
    case other => CleanedLine(other)
  }

  function HeldLine(why: string, until: Option<string>): string {
    "Waiting: " + HeldBecause(why) + (match until case Some(t) => ", until " + CleanedLine(t) case None => "") + "."
  }

  function CarriedOver(facts: string, note: Option<string>, noteStatus: string): string {
    CARRIED + Cleaned(facts) + "\n\n"
    + match note
      case Some(n) => "The previous coordinator's note:\n" + Cleaned(n)
      case None => "The previous coordinator wrote no note (" + CleanedLine(noteStatus) + ")."
  }

  const CARRIED :=
    "Carried over from the previous conversation (the coordinator reads this with your next message):\n"
  const TOOL_MARK := "\U{21B3} "
  const REFUSED := "\U{21B3} the tool refused or failed"
  const WITH_NOTE := "Handing off: the coordinator is writing its note for a fresh conversation."
  const FACTS_ONLY := "Handing off: the fresh conversation gets Shoestring's facts only."
  const HANDED_OFF := "Handed off: this session continues in a fresh conversation, with the same grant and agents."

  function InboxLine(dispatch: string, purpose: string, title: string, worker: string, state: string): string {
    "\U{25C6} " + Short(dispatch) + " " + purpose + " \"" + title + "\" on " + worker + " is now " + state
  }

  /** The entry an event shows, if any. */
  function Shows(e: Event): Option<Entry> {
    match e
    case HumanMessage(text) => Some(Entry(You, Cleaned(text)))
    case CoordinatorMessage(text) => Some(Entry(Coordinator, Cleaned(text)))
    case ToolCalled(tool) => Some(Entry(Tool, TOOL_MARK + CleanedLine(ToolName(tool))))
    case ToolReturned(isError) => if isError then Some(Entry(Tool, REFUSED)) else None
    case TurnEnded(status, why) =>
      (match TurnLine(status, why) case Some(line) => Some(Entry(Notice, line)) case None => None)
    case TurnHeld(why, until) => Some(Entry(Notice, HeldLine(why, until)))
    case HandoffRequested(withNote) => Some(Entry(Notice, if withNote then WITH_NOTE else FACTS_ONLY))
    case HandedOff(_) => Some(Entry(Notice, HANDED_OFF))
    case HandoffReceived(facts, note, noteStatus) => Some(Entry(Handoff, CarriedOver(facts, note, noteStatus)))
    case InboxRecorded(dispatch, purpose, title, worker, state) =>
      Some(Entry(Inbox, CleanedLine(InboxLine(dispatch, purpose, title, worker, state))))
    case Opened(_, _) => None
    case Unknown => None
  }

  /** `entries` without the coordinator's from `start` on. */
  function WithoutNote(entries: seq<Entry>, start: nat): seq<Entry> {
    if entries == [] then []
    else
      var n := |entries| - 1;
      WithoutNote(entries[..n], start)
      + if n < start || entries[n].kind != Coordinator then [entries[n]] else []
  }

  function Push(v: View, entry: Entry): View { v.(entries := v.entries + [entry]) }

  /** One event applied, its sequence already noted. */
  function Apply(v: View, e: Event): View {
    var before :=
      match e
      case Opened(provider, model) => v.(coordinator := Some(CleanedLine(provider + ":" + model)))
      case HandoffRequested(withNote) => v.(noteStart := if withNote then Some(|v.entries|) else None)
      case HandedOff(successor) => v.(last := 0, conversation := Some(CleanedLine(successor)))
      case HandoffReceived(_, note, _) =>
        v.(noteStart := None,
           entries := if v.noteStart.Some? && note.Some? then WithoutNote(v.entries, v.noteStart.value) else v.entries)
      case _ => v;
    match Shows(e)
    case Some(entry) => Push(before, entry)
    case None => before
  }

  /** A numbered event that was not applied yet. */
  predicate Fresh(v: View, n: Numbered) { n.sequence.Some? && n.sequence.value > v.last }

  function Deliver(v: View, n: Numbered): View {
    if Fresh(v, n) then Apply(v.(last := n.sequence.value), n.event) else v
  }

  function DeliverAll(v: View, batch: seq<Numbered>): View {
    if batch == [] then v
    else Deliver(DeliverAll(v, batch[..|batch| - 1]), batch[|batch| - 1])
  }

  /** The events of the batch that are applied, as they are reached. */
  function Taken(v: View, batch: seq<Numbered>): seq<Event> {
    if batch == [] then []
    else
      var front, n := batch[..|batch| - 1], batch[|batch| - 1];
      Taken(v, front) + if Fresh(DeliverAll(v, front), n) then [n.event] else []
  }

  /** The join reply named the session's current conversation. */
  function Rejoin(v: View, id: string): View {
    var named := CleanedLine(id);
    (if v.conversation.Some? && v.conversation.value != named
     then Push(v.(last := 0), Entry(Notice, AWAY)) else v).(conversation := Some(named))
  }

  /** The client's model, as far as the conversation goes. */
  class Model {
    var conversation: Option<string>
    var noteStart: Option<nat>
    var coordinator: Option<string>
    var entries: seq<Entry>
    var last: nat

    ghost function Now(): View
      reads this
    {
      View(conversation, noteStart, coordinator, entries, last)
    }

    constructor ()
      ensures Now() == EMPTY
    {
      conversation, noteStart, coordinator, entries, last := None, None, None, [], 0;
    }

    method Add(kind: Kind, text: string)
      modifies this`entries
      ensures Now() == Push(old(Now()), Entry(kind, text))
    {
      entries := entries + [Entry(kind, text)];
    }

    method Joined(id: string)
      modifies this
      ensures Now() == Rejoin(old(Now()), id)
    {
      var named := CleanedLine(id);
      if conversation.Some? && conversation.value != named {
        last := 0;
        Add(Notice, AWAY);
      }
      conversation := Some(named);
    }

    method ApplyEvents(batch: seq<Numbered>)
      modifies this
      ensures Now() == DeliverAll(old(Now()), batch)
    {
      var i := 0;
      while i < |batch|
        invariant 0 <= i <= |batch|
        invariant Now() == DeliverAll(old(Now()), batch[..i])
      {
        assert batch[..i + 1][..i] == batch[..i];
        var n := batch[i];
        i := i + 1;
        if n.sequence.None? {
          continue;
        }
        if n.sequence.value <= last {
          continue;
        }
        last := n.sequence.value;
        ApplyEvent(n.event);
      }
      assert batch[..i] == batch;
    }

    method ApplyEvent(e: Event)
      modifies this
      ensures Now() == Apply(old(Now()), e)
    {
      hide Shows, CleanedLine;
      match e {
        case Opened(provider, model) =>
          coordinator := Some(CleanedLine(provider + ":" + model));
        case HandoffRequested(withNote) =>
          noteStart := if withNote then Some(|entries|) else None;
        case HandedOff(successor) =>
          last := 0;
          conversation := Some(CleanedLine(successor));
        case HandoffReceived(_, note, _) =>
          var start := noteStart;
          noteStart := None;
          if start.Some? && note.Some? {
            DropNote(start.value);
          }
        case _ =>
      }
      var shown := Shows(e);
      if shown.Some? {
        Add(shown.value.kind, shown.value.text);
      }
    }

    method DropNote(start: nat)
      modifies this`entries
      ensures entries == WithoutNote(old(entries), start)
    {
      var kept := [];
      var index := 0;
      while index < |entries|
        invariant 0 <= index <= |entries| && entries == old(entries)
        invariant kept == WithoutNote(entries[..index], start)
      {
        assert entries[..index + 1][..index] == entries[..index];
        if index < start || entries[index].kind != Coordinator {
          kept := kept + [entries[index]];
        }
        index := index + 1;
      }
      assert entries[..index] == entries;
      entries := kept;
    }
  }

  // -------------------------------------- What a history of events displays

  /** What happened to the screen: an event of a conversation, applied under
      its sequence, or an entry of the client's own. */
  datatype Item = Got(conversation: nat, event: Event) | Local(entry: Entry)

  function Entries(item: Item): Option<Entry> {
    match item case Got(_, e) => Shows(e) case Local(entry) => Some(entry)
  }

  /** The entries and the note mark a history leads to, one item at a time. */
  function Replay(h: seq<Item>): View {
    if h == [] then EMPTY
    else
      match h[|h| - 1]
      case Got(_, e) => Apply(Replay(h[..|h| - 1]), e)
      case Local(entry) => Push(Replay(h[..|h| - 1]), entry)
  }

  predicate Asks(item: Item) { item.Got? && item.event.HandoffRequested? }

  predicate Receives(item: Item) { item.Got? && item.event.HandoffReceived? }

  predicate FromCoordinator(item: Item) { item.Got? && item.event.CoordinatorMessage? }

  /** The handoff asked for at `r`, with a note, is still open after `n` items. */
  predicate Open(h: seq<Item>, r: nat, n: nat) {
    && r < n <= |h| && Asks(h[r]) && h[r].event.withNote
    && forall m :: r < m < n ==> !Asks(h[m]) && !Receives(h[m])
  }

  /** A coordinator's message between a request for a note and the receipt of
      that note, which shows it instead. */
  ghost predicate Carried(h: seq<Item>, i: nat) {
    && i < |h| && FromCoordinator(h[i])
    && exists r: nat, j: nat :: r < i < j < |h| && Open(h, r, j) && Receives(h[j]) && h[j].event.note.Some?
  }

  /** What the first `n` items show, said without replaying them. */
  ghost function Displayed(h: seq<Item>, n: nat): seq<Entry>
    requires n <= |h|
  {
    if n == 0 then []
    else Displayed(h, n - 1)
         + if Entries(h[n - 1]).Some? && !Carried(h, n - 1) then [Entries(h[n - 1]).value] else []
  }

  lemma {:induction false} DisplayedSame(h: seq<Item>, k: seq<Item>, n: nat)
    requires n <= |h| <= |k| && h <= k
    requires forall i :: 0 <= i < n ==> Carried(h, i) == Carried(k, i)
    ensures Displayed(h, n) == Displayed(k, n)
  {
    hide Carried;
    if n > 0 {
      DisplayedSame(h, k, n - 1);
    }
  }

  lemma CarriedStays(h: seq<Item>, item: Item, i: nat)
    requires Carried(h, i)
    ensures Carried(h + [item], i)
  {
    var r: nat, j: nat :| r < i < j < |h| && Open(h, r, j) && Receives(h[j]) && h[j].event.note.Some?;
    OpenStays(h, item, r, j);
    assert Receives((h + [item])[j]);
  }

  lemma OpenStays(h: seq<Item>, item: Item, r: nat, n: nat)
    requires n <= |h|
    ensures Open(h + [item], r, n) == Open(h, r, n)
  {
    var k := h + [item];
    assert forall m :: 0 <= m < |h| ==> k[m] == h[m];
  }

  /** One more item hides an earlier message only by receiving an open note. */
  lemma CarriedByLast(h: seq<Item>, item: Item, i: nat)
    requires i < |h| && Carried(h + [item], i) && !Carried(h, i)
    ensures Receives(item) && item.event.note.Some?
    ensures exists r: nat :: r < i && Open(h, r, |h|)
  {
    var k := h + [item];
    var r: nat, j: nat :| r < i < j < |k| && Open(k, r, j) && Receives(k[j]) && k[j].event.note.Some?;
    OpenStays(h, item, r, j);
  }

  lemma CarriedNow(h: seq<Item>, item: Item, r: nat, i: nat)
    requires Open(h, r, |h|) && r < i < |h| && FromCoordinator(h[i])
    requires Receives(item) && item.event.note.Some?
    ensures Carried(h + [item], i)
  {
    var k := h + [item];
    OpenStays(h, item, r, |h|);
    assert Open(k, r, |h|) && Receives(k[|h|]);
  }

  lemma KindOfCoordinator(item: Item)
    requires item.Local? ==> item.entry.kind != Coordinator
    requires Entries(item).Some?
    ensures (Entries(item).value.kind == Coordinator) <==> FromCoordinator(item)
  {
    hide Cleaned, CleanedLine, ToolName, TurnLine, HeldLine, CarriedOver;
  }

  /** The client itself adds notices only. */
  ghost predicate OwnNotices(h: seq<Item>) {
    forall i :: 0 <= i < |h| && h[i].Local? ==> h[i].entry.kind != Coordinator
  }

  lemma {:induction false} NoteRemoved(h: seq<Item>, item: Item, r: nat, n: nat)
    requires OwnNotices(h) && Open(h, r, |h|) && r <= n <= |h|
    requires Receives(item) && item.event.note.Some?
    requires |Displayed(h, n)| >= |Displayed(h, r)|
    ensures WithoutNote(Displayed(h, n), |Displayed(h, r)|) == Displayed(h + [item], n)
    ensures n < |h| ==> |Displayed(h, n + 1)| >= |Displayed(h, r)|
    decreases n
  {
    hide Open, Carried;
    var k, start := h + [item], |Displayed(h, r)|;
    if n == r {
      NothingRemoved(Displayed(h, r), start);
      forall i | 0 <= i < r
        ensures Carried(h, i) == Carried(k, i)
      {
        NotCarriedBefore(h, item, r, i);
      }
      DisplayedSame(h, k, r);
    } else {
      DisplayedGrows(h, r, n - 1);
      NoteRemoved(h, item, r, n - 1);
      NoteRemovedOne(h, item, r, n, start);
    }
  }

  lemma {:induction false} DisplayedGrows(h: seq<Item>, m: nat, n: nat)
    requires m <= n <= |h|
    ensures |Displayed(h, m)| <= |Displayed(h, n)|
  {
    if m < n {
      DisplayedGrows(h, m, n - 1);
    }
  }

  lemma {:induction false} NothingRemoved(entries: seq<Entry>, start: nat)
    requires |entries| <= start
    ensures WithoutNote(entries, start) == entries
  {
    if entries != [] {
      NothingRemoved(entries[..|entries| - 1], start);
    }
  }

  lemma NotCarriedBefore(h: seq<Item>, item: Item, r: nat, i: nat)
    requires Open(h, r, |h|) && i <= r
    ensures Carried(h, i) == Carried(h + [item], i)
  {
    if Carried(h, i) {
      CarriedStays(h, item, i);
    } else if Carried(h + [item], i) {
      CarriedByLast(h, item, i);
    }
  }

  lemma WithoutNoteLast(entries: seq<Entry>, entry: Entry, start: nat)
    ensures WithoutNote(entries + [entry], start)
            == WithoutNote(entries, start) + if |entries| < start || entry.kind != Coordinator then [entry] else []
  {
    assert (entries + [entry])[..|entries|] == entries;
  }

  lemma DisplayedNext(h: seq<Item>, n: nat)
    requires 0 < n <= |h|
    ensures Displayed(h, n)
            == if Entries(h[n - 1]).Some? && !Carried(h, n - 1) then Displayed(h, n - 1) + [Entries(h[n - 1]).value]
               else Displayed(h, n - 1)
  {
  }

  lemma NoteRemovedOne(h: seq<Item>, item: Item, r: nat, n: nat, start: nat)
    requires OwnNotices(h) && Open(h, r, |h|) && r < n <= |h|
    requires Receives(item) && item.event.note.Some?
    requires |Displayed(h, n - 1)| >= start
    requires WithoutNote(Displayed(h, n - 1), start) == Displayed(h + [item], n - 1)
    ensures WithoutNote(Displayed(h, n), start) == Displayed(h + [item], n)
  {
    hide Open, Carried, Entries, FromCoordinator, WithoutNote, Displayed;
    var k, i := h + [item], n - 1;
    CarriedAtLast(h, item, r, i);
    assert k[i] == h[i];
    DisplayedNext(h, n);
    DisplayedNext(k, n);
    if Entries(h[i]).Some? {
      KindOfCoordinator(h[i]);
      WithoutNoteLast(Displayed(h, i), Entries(h[i]).value, start);
    }
  }

  /** From the open request on, every coordinator's message is carried over. */
  lemma CarriedAtLast(h: seq<Item>, item: Item, r: nat, i: nat)
    requires Open(h, r, |h|) && r <= i < |h|
    requires Receives(item) && item.event.note.Some?
    ensures Carried(h + [item], i) <==> FromCoordinator(h[i])
    ensures !Carried(h, i)
  {
    if FromCoordinator(h[i]) {
      CarriedNow(h, item, r, i);
    }
  }

  /** Unless an item receives the note of an open handoff, it leaves what the
      earlier items display alone. */
  lemma EarlierUnchanged(h: seq<Item>, item: Item, n: nat)
    requires n <= |h|
    requires Receives(item) && item.event.note.Some? ==> forall r: nat :: !Open(h, r, |h|)
    ensures Displayed(h + [item], n) == Displayed(h, n)
  {
    hide Open;
    forall i | 0 <= i < n
      ensures Carried(h, i) == Carried(h + [item], i)
    {
      if Carried(h, i) {
        CarriedStays(h, item, i);
      } else if Carried(h + [item], i) {
        CarriedByLast(h, item, i);
      }
    }
    DisplayedSame(h, h + [item], n);
  }

  lemma OpenAfter(h: seq<Item>, item: Item, r: nat)
    ensures Open(h + [item], r, |h| + 1) <==>
            if r == |h| then Asks(item) && item.event.withNote
            else Open(h, r, |h|) && !Asks(item) && !Receives(item)
  {
    var k := h + [item];
    assert forall m :: 0 <= m < |h| ==> k[m] == h[m];
    assert k[|h|] == item;
  }

  /** How the note mark relates to the history: it is where the entries of the
      open request start, and there is none when no request is open. */
  ghost predicate MarkFits(h: seq<Item>, mark: Option<nat>) {
    match mark
    case None => forall r: nat :: !Open(h, r, |h|)
    case Some(start) => exists r: nat :: r < |h| && Open(h, r, |h|) && start == |Displayed(h, r)|
  }

  lemma MarkAfter(h: seq<Item>, item: Item, mark: Option<nat>)
    requires MarkFits(h, mark)
    ensures MarkFits(h + [item],
                     if Asks(item) then (if item.event.withNote then Some(|Displayed(h, |h|)|) else None)
                     else if Receives(item) then None else mark)
  {
    hide Open, Displayed;
    var k := h + [item];
    forall r: nat
      ensures Open(k, r, |k|) <==>
              if r == |h| then Asks(item) && item.event.withNote
              else Open(h, r, |h|) && !Asks(item) && !Receives(item)
    {
      OpenAfter(h, item, r);
    }
    if Asks(item) && item.event.withNote {
      EarlierUnchanged(h, item, |h|);
      assert Open(k, |h|, |k|);
    } else if !Asks(item) && !Receives(item) && mark.Some? {
      var r: nat :| r < |h| && Open(h, r, |h|) && mark.value == |Displayed(h, r)|;
      EarlierUnchanged(h, item, r);
      assert Open(k, r, |k|);
    }
  }

  /** What an item shows, added to what the others display with it. */
  lemma DisplayedLast(h: seq<Item>, item: Item)
    ensures Displayed(h + [item], |h| + 1)
            == Displayed(h + [item], |h|) + if Entries(item).Some? then [Entries(item).value] else []
  {
    var k := h + [item];
    assert k[|h|] == item;
    assert !Carried(k, |h|);
  }

  lemma ReceivedDisplays(h: seq<Item>, item: Item, mark: Option<nat>)
    requires OwnNotices(h) && MarkFits(h, mark)
    ensures Displayed(h + [item], |h|)
            == if Receives(item) && item.event.note.Some? && mark.Some?
               then WithoutNote(Displayed(h, |h|), mark.value)
               else Displayed(h, |h|)
  {
    hide Displayed, WithoutNote, Carried, OwnNotices;
    if Receives(item) && item.event.note.Some? && mark.Some? {
      var r: nat :| r < |h| && Open(h, r, |h|) && mark.value == |Displayed(h, r)|;
      DisplayedGrows(h, r, |h|);
      NoteRemoved(h, item, r, |h|);
    } else {
      EarlierUnchanged(h, item, |h|);
    }
  }

  /** The entries on the screen are exactly what the history displays: every
      item's own entry, in order, less the coordinator's messages that a later
      handoff carried over; and the note mark never lies past their end. */
  lemma {:induction false} ScreenDisplaysHistory(h: seq<Item>)
    requires OwnNotices(h)
    ensures Replay(h).entries == Displayed(h, |h|)
    ensures MarkFits(h, Replay(h).noteStart)
    ensures Replay(h).noteStart.Some? ==> Replay(h).noteStart.value <= |Replay(h).entries|
  {
    if h == [] {
      return;
    }
    var front, item := h[..|h| - 1], h[|h| - 1];
    assert h == front + [item];
    assert OwnNotices(front);
    ScreenDisplaysHistory(front);
    hide Displayed, Replay, Receives, Asks, Entries, MarkFits, WithoutNote;
    ReplayLast(front, item);
    ReceivedDisplays(front, item, Replay(front).noteStart);
    DisplayedLast(front, item);
    MarkAfter(front, item, Replay(front).noteStart);
    MarkInside(h, Replay(h).noteStart);
  }

  lemma ReplayLast(h: seq<Item>, item: Item)
    ensures var before, after := Replay(h), Replay(h + [item]);
            && after.entries
               == (if Receives(item) && item.event.note.Some? && before.noteStart.Some?
                   then WithoutNote(before.entries, before.noteStart.value) else before.entries)
                  + (if Entries(item).Some? then [Entries(item).value] else [])
            && after.noteStart
               == if Asks(item) then (if item.event.withNote then Some(|before.entries|) else None)
                  else if Receives(item) then None else before.noteStart
  {
    hide Shows, WithoutNote, CleanedLine;
    assert (h + [item])[..|h|] == h;
    if item.Got? && Shows(item.event).None? {
      assert Replay(h).entries + [] == Replay(h).entries;
      ShowsNothing(item.event);
    }
  }

  /** What an event does to the entries and the mark depends on nothing else. */
  lemma AppliedAlike(v: View, u: View, e: Event)
    requires v.entries == u.entries && v.noteStart == u.noteStart
    ensures Apply(v, e).entries == Apply(u, e).entries && Apply(v, e).noteStart == Apply(u, e).noteStart
  {
    hide Shows, WithoutNote, CleanedLine;
  }

  /** Only a handoff changes the numbering. */
  lemma NumberingKept(v: View, e: Event)
    ensures Apply(v, e).last == if e.HandedOff? then 0 else v.last
    ensures Apply(v, e).conversation == if e.HandedOff? then Some(CleanedLine(e.successor)) else v.conversation
  {
    hide Shows, WithoutNote, CleanedLine;
  }

  lemma ShowsNothing(e: Event)
    requires Shows(e).None?
    ensures !e.HandoffReceived? && !e.HandoffRequested?
  {
  }

  lemma MarkInside(h: seq<Item>, mark: Option<nat>)
    requires MarkFits(h, mark)
    ensures mark.Some? ==> mark.value <= |Displayed(h, |h|)|
  {
    if mark.Some? {
      var r: nat :| r < |h| && Open(h, r, |h|) && mark.value == |Displayed(h, r)|;
      DisplayedGrows(h, r, |h|);
    }
  }
}
