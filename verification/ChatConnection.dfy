/** One websocket session of the chat client: numbering what is written,
    remembering what waits for a reply, and keeping unanswered messages.

    `Session` and its functions say what each operation does to the state;
    `Connection` is the client's own imperative form, proved against them.
    `ChatProtocol` runs the same functions against a service. */
module ChatConnection {
  import opened Wrappers

  datatype Outgoing =
    | Say(messageId: string, text: string)
    | CancelTurn
    | Watch(dispatch: string)
    | Unwatch
    | CancelDispatch(dispatch: string, reason: string)
    | ConfirmDispatch(dispatch: string)
    | RetireLesson(code: string)
    | Handoff(withNote: bool)
    | DecideAsk(ask: string, decision: string, note: Option<string>)

  /** A frame on the wire: the reference the reply will carry, and the item. */
  datatype Sent = Sent(reference: nat, item: Outgoing)

  /** `last` is the counter behind references (the join took 1), `pending` what
      was sent under each unanswered reference, `written` all that was written. */
  datatype Session = Session(last: nat, pending: map<nat, Outgoing>, written: seq<Sent>)

  const FRESH: Session := Session(1, map[], [])

  function Write(s: Session, item: Outgoing): Session {
    Session(s.last + 1, s.pending[s.last + 1 := item], s.written + [Sent(s.last + 1, item)])
  }

  function WriteAll(s: Session, items: seq<Outgoing>): Session {
    if items == [] then s
    else Write(WriteAll(s, items[..|items| - 1]), items[|items| - 1])
  }

  function Without(items: seq<Outgoing>, gone: Outgoing): (kept: seq<Outgoing>)
    ensures gone !in kept
  {
    if items == [] then []
    else Without(items[..|items| - 1], gone)
         + if items[|items| - 1] == gone then [] else [items[|items| - 1]]
  }

  /** The items of a wire, without their references. */
  function Items(sent: seq<Sent>): (items: seq<Outgoing>)
    ensures |items| == |sent|
    ensures forall i :: 0 <= i < |sent| ==> items[i] == sent[i].item
  {
    seq(|sent|, i requires 0 <= i < |sent| => sent[i].item)
  }

  /** The messages among `items`, in order. */
  function Says(items: seq<Outgoing>): (says: seq<Outgoing>)
    ensures |says| <= |items|
  {
    if items == [] then []
    else Says(items[..|items| - 1])
         + if items[|items| - 1].Say? then [items[|items| - 1]] else []
  }

  /** What is watched after `items`, when `watched` was before them. */
  function Watching(watched: Option<string>, items: seq<Outgoing>): Option<string> {
    if items == [] then watched
    else
      match items[|items| - 1]
      case Watch(id) => Some(id)
      case Unwatch => None
      case _ => Watching(watched, items[..|items| - 1])
  }

  /** What is pending after `sent` was written and nothing of it answered. */
  function PendingOf(sent: seq<Sent>): map<nat, Outgoing> {
    if sent == [] then map[]
    else PendingOf(sent[..|sent| - 1])[sent[|sent| - 1].reference := sent[|sent| - 1].item]
  }

  lemma {:induction false} PendingAt(sent: seq<Sent>, reference: nat) returns (i: nat)
    requires reference in PendingOf(sent)
    ensures i < |sent| && sent[i].reference == reference
  {
    i := |sent| - 1;
    if sent[i].reference != reference {
      i := PendingAt(sent[..i], reference);
    }
  }

  ghost predicate Increasing(sent: seq<Sent>) {
    forall i, j :: 0 <= i < j < |sent| ==> sent[i].reference < sent[j].reference
  }

  /** References handed out so far are distinct, increasing and not above the
      counter; `pending` holds exactly the frames written from `answered` on. */
  ghost predicate Numbered(s: Session, answered: nat) {
    && answered <= |s.written| && 1 <= s.last
    && (forall i :: 0 <= i < |s.written| ==> 1 < s.written[i].reference <= s.last)
    && Increasing(s.written)
    && s.pending == PendingOf(s.written[answered..])
  }

  /** A new reference is not pending, so inserting it overwrites nothing. */
  lemma WriteKeepsNumbering(s: Session, answered: nat, item: Outgoing)
    requires Numbered(s, answered)
    ensures s.last + 1 !in s.pending
    ensures Numbered(Write(s, item), answered)
  {
    var t := Write(s, item);
    assert t.pending == PendingOf(t.written[answered..]) by {
      var waiting := t.written[answered..];
      assert waiting[..|waiting| - 1] == s.written[answered..];
    }
    if s.last + 1 in s.pending {
      var i := PendingAt(s.written[answered..], s.last + 1);
    }
  }

  /** Answering the oldest of increasing references leaves the others pending. */
  lemma {:induction false} PendingWithoutFirst(sent: seq<Sent>)
    requires sent != [] && Increasing(sent)
    ensures sent[0].reference in PendingOf(sent)
    ensures PendingOf(sent)[sent[0].reference] == sent[0].item
    ensures PendingOf(sent) - {sent[0].reference} == PendingOf(sent[1..])
  {
    var front := sent[..|sent| - 1];
    if front == [] {
      assert sent[1..] == [];
    } else {
      PendingWithoutFirst(front);
      assert sent[1..][..|sent| - 2] == front[1..];
    }
  }

  /** The reply to the oldest unanswered frame settles exactly that frame, and a
      second reply under its reference finds nothing. */
  lemma ReplySettlesOldest(s: Session, answered: nat)
    requires Numbered(s, answered) && answered < |s.written|
    ensures var r := s.written[answered].reference;
            && r in s.pending && s.pending[r] == s.written[answered].item
            && r !in (s.pending - {r})
            && Numbered(s.(pending := s.pending - {r}), answered + 1)
  {
    var waiting := s.written[answered..];
    PendingWithoutFirst(waiting);
    assert waiting[1..] == s.written[answered + 1..];
  }

  lemma {:induction false} SaysAmong(items: seq<Outgoing>, o: Outgoing)
    requires o in Says(items)
    ensures o.Say? && o in items
  {
    if o in Says(items[..|items| - 1]) {
      SaysAmong(items[..|items| - 1], o);
    }
  }

  lemma {:induction false} SaysSplit(a: seq<Outgoing>, b: seq<Outgoing>)
    ensures Says(a + b) == Says(a) + Says(b)
  {
    if b == [] {
      assert a + b == a;
    } else {
      SaysSplit(a, b[..|b| - 1]);
      assert (a + b)[..|a + b| - 1] == a + b[..|b| - 1];
    }
  }

  lemma {:induction false} WatchingSplit(watched: Option<string>, a: seq<Outgoing>, b: seq<Outgoing>)
    ensures Watching(watched, a + b) == Watching(Watching(watched, a), b)
  {
    if b == [] {
      assert a + b == a;
    } else {
      WatchingSplit(watched, a, b[..|b| - 1]);
      assert (a + b)[..|a + b| - 1] == a + b[..|b| - 1];
    }
  }

  /** Removing the first of distinct items leaves the rest. */
  lemma {:induction false} WithoutFirst(items: seq<Outgoing>)
    requires items != []
    requires forall i, j :: 0 <= i < j < |items| ==> items[i] != items[j]
    ensures Without(items, items[0]) == items[1..]
  {
    if |items| > 1 {
      var front := items[..|items| - 1];
      WithoutFirst(front);
      assert items[1..] == front[1..] + [items[|items| - 1]];
    }
  }

  lemma {:induction false} WithoutAbsent(items: seq<Outgoing>, gone: Outgoing)
    requires gone !in items
    ensures Without(items, gone) == items
  {
    if items != [] {
      WithoutAbsent(items[..|items| - 1], gone);
      assert items == items[..|items| - 1] + [items[|items| - 1]];
    }
  }

  /** The client's side of a connection. `room` is how many more frames the
      socket takes before a write fails; nothing is known of it in advance. */
  class Connection {
    var unsent: seq<Outgoing>
    var last: nat
    var pending: map<nat, Outgoing>
    var written: seq<Sent>
    var room: nat

    ghost function View(): Session
      reads this
    {
      Session(last, pending, written)
    }

    constructor ()
      ensures unsent == [] && View() == FRESH
    {
      unsent, last, pending, written, room := [], 1, map[], [], 0;
    }

    /** A new socket: references start again and nothing is pending. */
    method Open(socketRoom: nat)
      modifies this
      ensures View() == FRESH && unsent == old(unsent) && room == socketRoom
    {
      last, pending, written, room := 1, map[], [], socketRoom;
    }

    /** Whether it was written; it is pending either way. */
    method Send(item: Outgoing) returns (ok: bool)
      modifies this
      ensures unsent == old(unsent)
      ensures ok == (old(room) > 0) && room == (if ok then old(room) - 1 else 0)
      ensures ok ==> View() == Write(old(View()), item)
      ensures !ok ==> View() == Write(old(View()), item).(written := old(written))
    {
      last := last + 1;
      pending := pending[last := item];
      ok := room > 0;
      if ok {
        written := written + [Sent(last, item)];
        room := room - 1;
      }
    }

    /** After a join every unanswered message is written again, oldest first. */
    method Resend() returns (ok: bool)
      modifies this
      ensures unsent == old(unsent)
      ensures ok == (old(room) >= |unsent|)
      ensures ok ==> View() == WriteAll(old(View()), unsent)
      ensures !ok ==> written == WriteAll(old(View()), unsent[..old(room)]).written
    {
      var todo := unsent;
      var i := 0;
      while i < |todo|
        invariant 0 <= i <= |todo|
        invariant unsent == todo == old(unsent)
        invariant room + i == old(room)
        invariant View() == WriteAll(old(View()), todo[..i])
      {
        assert todo[..i + 1][..i] == todo[..i];
        var sent := Send(todo[i]);
        if !sent {
          return false;
        }
        i := i + 1;
      }
      assert todo[..i] == todo;
      ok := true;
    }

    /** An item from the outbox: a message is kept before it is written. */
    method Take(item: Outgoing) returns (ok: bool)
      modifies this
      ensures unsent == old(unsent) + if item.Say? then [item] else []
      ensures ok == (old(room) > 0)
      ensures ok ==> View() == Write(old(View()), item)
      ensures !ok ==> written == old(written)
    {
      if item.Say? {
        unsent := unsent + [item];
      }
      ok := Send(item);
    }

    /** A heartbeat takes a reference that nothing waits under. */
    method Beat() returns (ok: bool)
      modifies this
      ensures unsent == old(unsent) && pending == old(pending) && written == old(written)
      ensures last == old(last) + 1 && ok == (old(room) > 0)
    {
      last := last + 1;
      ok := room > 0;
      if ok {
        room := room - 1;
      }
    }

    /** A reply: what was sent under its reference is answered, either way. */
    method Reply(reference: nat) returns (settled: Option<Outgoing>)
      modifies this
      ensures last == old(last) && written == old(written) && room == old(room)
      ensures settled.None? <==> reference !in old(pending)
      ensures settled.None? ==> unsent == old(unsent) && pending == old(pending)
      ensures settled.Some? ==>
                && settled.value == old(pending)[reference]
                && pending == old(pending) - {reference}
                && unsent == Without(old(unsent), settled.value)
    {
      if reference !in pending {
        return None;
      }
      var outgoing := pending[reference];
      pending := pending - {reference};
      var kept: seq<Outgoing> := [];
      var i := 0;
      while i < |unsent|
        invariant 0 <= i <= |unsent|
        invariant unsent == old(unsent) && pending == old(pending) - {reference}
        invariant last == old(last) && written == old(written) && room == old(room)
        invariant kept == Without(unsent[..i], outgoing)
      {
        assert unsent[..i + 1][..i] == unsent[..i];
        if unsent[i] != outgoing {
          kept := kept + [unsent[i]];
        }
        i := i + 1;
      }
      assert unsent[..i] == unsent;
      unsent := kept;
      settled := Some(outgoing);
    }
  }
}
