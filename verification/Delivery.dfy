/** A session's conversations, delivered to one client over any number of
    connections, each lost at any point: what the service may push is its
    documented contract, and every run of it is considered.

    A connection's pushes are read in order. What it loses is what the client
    had not read of it. */
module Delivery {
  import opened Wrappers
  import opened ChatText
  import opened Transcript

  /** Which conversation of the session is shown, and how many of its events. */
  datatype Cursor = Cursor(conversation: nat, seen: nat)

  /** `next` is where the service stands after a push. A batch may repeat what
      was sent before, as long as it leaves no gap. */
  datatype Pushed =
    | JoinOk(next: Cursor)
    | Batch(conversation: nat, from: nat, upto: nat, next: Cursor)

  /** What the client named when it joined, what the service pushed since, and
      how much of it the client has read. */
  datatype Link = Link(after: nat, named: Option<string>, stream: seq<Pushed>, read: nat)

  /** `history` and `at` record what the client did; nothing reads them. */
  datatype Net = Net(
    names: seq<string>, logs: seq<seq<Event>>, view: View, link: Option<Link>,
    history: seq<Item>, at: Option<Cursor>)

  datatype Step =
    | Commit(event: Event)
    | HandOff(name: string, first: seq<Event>)
    | Connect
    | AcceptJoin
    | Send(from: nat, upto: nat)
    | Read
    | Lose
    | OwnNotice(entry: Entry)

  predicate Plain(name: string) { forall c :: c in name ==> Shown(c) && c != '\n' }

  function Start(name: string): Net { Net([name], [[]], EMPTY, None, [], None) }

  function Current(n: Net): int { |n.logs| - 1 }

  predicate Ongoing(events: seq<Event>) { forall e :: e in events ==> !e.HandedOff? }

  /** After the event that hands a conversation off comes its successor. */
  function Settle(logs: seq<seq<Event>>, c: nat, seen: nat): Cursor
    requires c < |logs| && seen <= |logs[c]|
  {
    if seen > 0 && logs[c][seen - 1].HandedOff? then Cursor(c + 1, 0) else Cursor(c, seen)
  }

  function Max(a: nat, b: nat): nat { if a < b then b else a }

  function ServiceAt(l: Link): Cursor
    requires l.stream != []
  {
    l.stream[|l.stream| - 1].next
  }

  function Numbering(log: seq<Event>, from: nat, upto: nat): (batch: seq<Numbered>)
    requires from <= upto <= |log|
    ensures |batch| == upto - from
    ensures forall i :: 0 <= i < |batch| ==> batch[i] == Numbered(Some(from + i + 1), log[from + i])
  {
    seq(upto - from, i requires 0 <= i < upto - from => Numbered(Some(from + i + 1), log[from + i]))
  }

  function Gots(c: nat, events: seq<Event>): (items: seq<Item>)
    ensures |items| == |events|
    ensures forall i :: 0 <= i < |items| ==> items[i] == Got(c, events[i])
  {
    seq(|events|, i requires 0 <= i < |events| => Got(c, events[i]))
  }

  predicate Enabled(n: Net, step: Step) {
    && |n.logs| == |n.names| > 0
    && match step
       case Commit(e) => !e.HandedOff?
       case HandOff(name, first) => name !in n.names && Plain(name) && Ongoing(first)
       case Connect => n.link.None?
       case AcceptJoin => n.link.Some? && n.link.value.stream == []
       case Send(from, upto) =>
         && n.link.Some? && n.link.value.stream != []
         && var at := ServiceAt(n.link.value);
            at.conversation < |n.logs| && at.seen <= |n.logs[at.conversation]|
            && from <= at.seen && from < upto <= |n.logs[at.conversation]|
       case Read =>
         && n.link.Some? && n.link.value.read < |n.link.value.stream|
         && (match n.link.value.stream[n.link.value.read]
             case JoinOk(next) => next.conversation < |n.names|
             case Batch(c, from, upto, _) => c < |n.logs| && from <= upto <= |n.logs[c]|)
       case Lose => n.link.Some?
       case OwnNotice(entry) => entry.kind == Notice
  }

  function ReadJoin(n: Net, next: Cursor): Net
    requires next.conversation < |n.names|
  {
    var view := Rejoin(n.view, n.names[next.conversation]);
    n.(view := view,
       history := n.history + if |view.entries| > |n.view.entries| then [Local(Entry(Notice, AWAY))] else [],
       at := if n.at.Some? && n.at.value.conversation == next.conversation then n.at
             else Some(Cursor(next.conversation, 0)))
  }

  function ReadBatch(n: Net, c: nat, from: nat, upto: nat): Net
    requires c < |n.logs| && from <= upto <= |n.logs[c]|
  {
    var batch := Numbering(n.logs[c], from, upto);
    n.(view := DeliverAll(n.view, batch),
       history := n.history + Gots(c, Taken(n.view, batch)),
       at := if n.view.last < upto then Some(Settle(n.logs, c, upto)) else n.at)
  }

  function Apply(n: Net, step: Step): Net
    requires Enabled(n, step)
  {
    match step
    case Commit(e) => n.(logs := n.logs[Current(n) := n.logs[Current(n)] + [e]])
    case HandOff(name, first) =>
      n.(names := n.names + [name],
         logs := n.logs[Current(n) := n.logs[Current(n)] + [HandedOff(name)]] + [first])
    case Connect => n.(link := Some(Link(n.view.last, n.view.conversation, [], 0)))
    case AcceptJoin =>
      var l := n.link.value;
      var same := l.named.None? || l.named.value == n.names[Current(n)];
      n.(link := Some(l.(stream := [JoinOk(Cursor(Current(n), if same then l.after else 0))])))
    case Send(from, upto) =>
      var l := n.link.value;
      var at := ServiceAt(l);
      n.(link := Some(l.(stream := l.stream + [Batch(at.conversation, from, upto,
                                                    Settle(n.logs, at.conversation, Max(at.seen, upto)))])))
    case Read =>
      var l := n.link.value;
      var m := (match l.stream[l.read]
                case JoinOk(next) => ReadJoin(n, next)
                case Batch(c, from, upto, _) => ReadBatch(n, c, from, upto));
      m.(link := Some(l.(read := l.read + 1)))
    case Lose => n.(link := None)
    case OwnNotice(entry) => n.(view := Push(n.view, entry), history := n.history + [Local(entry)])
  }

  predicate Runs(n: Net, steps: seq<Step>)
    decreases |steps|
  {
    steps == [] || (Enabled(n, steps[0]) && Runs(Apply(n, steps[0]), steps[1..]))
  }

  function After(n: Net, steps: seq<Step>): Net
    requires Runs(n, steps)
    decreases |steps|
  {
    if steps == [] then n else After(Apply(n, steps[0]), steps[1..])
  }

  // ------------------------------------------------------------- Invariant

  /** The events of conversation `c` the client applied, in order. */
  function Applied(h: seq<Item>, c: nat): seq<Event> {
    if h == [] then []
    else
      var item := h[|h| - 1];
      Applied(h[..|h| - 1], c) + if item.Got? && item.conversation == c then [item.event] else []
  }

  /** Names tell conversations apart; a conversation ends with the event that
      names its successor, and only the last one has not ended. */
  ghost predicate LogsInv(names: seq<string>, logs: seq<seq<Event>>) {
    && |names| == |logs| > 0
    && (forall c :: 0 <= c < |names| ==> Plain(names[c]))
    && (forall c, d :: 0 <= c < d < |names| ==> names[c] != names[d])
    && (forall c, k :: 0 <= c < |logs| && 0 <= k < |logs[c]| && logs[c][k].HandedOff? ==>
          c + 1 < |names| && k == |logs[c]| - 1 && logs[c][k].successor == names[c + 1])
  }

  predicate Within(logs: seq<seq<Event>>, at: Cursor) {
    && at.conversation < |logs| && at.seen <= |logs[at.conversation]|
    && (at.seen > 0 ==> !logs[at.conversation][at.seen - 1].HandedOff?)
  }

  /** The client stands at `at`: the numbering is that conversation's, and what
      was applied of it is its first `seen` events. */
  ghost predicate ClientInv(n: Net) {
    && OnScreen(n)
    && match n.at
       case None => n.view.conversation == None && n.view.last == 0 && forall c: nat :: Applied(n.history, c) == []
       case Some(at) =>
         && Within(n.logs, at) && at.conversation < |n.names|
         && n.view.conversation == Some(n.names[at.conversation]) && n.view.last == at.seen
         && Applied(n.history, at.conversation) == n.logs[at.conversation][..at.seen]
         && (forall c: nat :: c < at.conversation ==> Applied(n.history, c) <= n.logs[c])
         && (forall c: nat :: c > at.conversation ==> Applied(n.history, c) == [])
  }

  ghost predicate OnScreen(n: Net) {
    && n.view.entries == Replay(n.history).entries
    && n.view.noteStart == Replay(n.history).noteStart
    && OwnNotices(n.history)
  }

  /** A push leaves the service within the logs and leaves no gap. */
  ghost predicate PushFits(logs: seq<seq<Event>>, stream: seq<Pushed>, k: nat)
    requires k < |stream|
  {
    && Within(logs, stream[k].next)
    && (k == 0 <==> stream[k].JoinOk?)
    && (k > 0 ==>
          var at, p := stream[k - 1].next, stream[k];
          && Within(logs, at) && p.conversation == at.conversation
          && p.from <= at.seen && p.from < p.upto <= |logs[at.conversation]|
          && p.next == Settle(logs, at.conversation, Max(at.seen, p.upto)))
  }

  ghost predicate LinkInv(n: Net) {
    n.link.Some? ==>
      && var l := n.link.value;
      && l.read <= |l.stream|
      && (forall k :: 0 <= k < |l.stream| ==> PushFits(n.logs, l.stream, k))
      && (l.read == 0 ==> l.after == n.view.last && l.named == n.view.conversation)
      && (l.read == 0 && l.stream != [] ==>
            var next := l.stream[0].next;
            && (n.at.Some? ==> n.at.value.conversation <= next.conversation)
            && next.conversation < |n.names|
            && next.seen == if l.named.None? || l.named.value == n.names[next.conversation] then l.after else 0)
      && (l.read > 0 ==> n.at == Some(l.stream[l.read - 1].next))
  }

  ghost predicate NetInv(n: Net) {
    LogsInv(n.names, n.logs) && ClientInv(n) && LinkInv(n)
  }

  /** Nothing that was in the logs changes when they grow. */
  ghost predicate Grown(logs: seq<seq<Event>>, grown: seq<seq<Event>>) {
    |logs| <= |grown| && forall c :: 0 <= c < |logs| ==> logs[c] <= grown[c]
  }

  lemma PushStillFits(logs: seq<seq<Event>>, grown: seq<seq<Event>>, stream: seq<Pushed>, k: nat)
    requires Grown(logs, grown) && k < |stream| && PushFits(logs, stream, k)
    ensures PushFits(grown, stream, k)
  {
  }

  lemma GrowthKeeps(n: Net, m: Net)
    requires NetInv(n) && LogsInv(m.names, m.logs) && Grown(n.logs, m.logs) && n.names <= m.names
    requires m == n.(names := m.names, logs := m.logs)
    ensures NetInv(m)
  {
    assert ClientInv(m) by {
      hide Applied, Replay;
      if n.at.Some? {
        assert n.logs[n.at.value.conversation] <= m.logs[n.at.value.conversation];
      }
    }
    if n.link.Some? {
      var stream := n.link.value.stream;
      forall k | 0 <= k < |stream|
        ensures PushFits(m.logs, stream, k)
      {
        PushStillFits(n.logs, m.logs, stream, k);
      }
    }
  }

  lemma ServiceStepKeeps(n: Net, step: Step)
    requires NetInv(n) && Enabled(n, step) && (step.Commit? || step.HandOff?)
    ensures NetInv(Apply(n, step))
  {
    hide ClientInv, LinkInv;
    GrowthKeeps(n, Apply(n, step));
  }

  lemma LinkStepKeeps(n: Net, step: Step)
    requires NetInv(n) && Enabled(n, step) && (step.Connect? || step.AcceptJoin? || step.Send? || step.Lose?)
    ensures NetInv(Apply(n, step))
  {
    hide Applied, Replay;
    var m := Apply(n, step);
    assert ClientInv(m);
    if m.link.Some? && n.link.Some? {
      var stream, grown := n.link.value.stream, m.link.value.stream;
      forall k | 0 <= k < |grown|
        ensures PushFits(m.logs, grown, k)
      {
        if k < |stream| {
          assert PushFits(n.logs, stream, k);
        } else if k > 0 {
          assert PushFits(n.logs, stream, k - 1);
        }
      }
    }
  }

  lemma PlainIsClean(name: string)
    requires Plain(name)
    ensures CleanedLine(name) == name
  {
    ShownTextIsUnchanged(name);
    assert forall i :: 0 <= i < |name| ==> name[i] in name;
  }

  lemma {:induction false} AppliedMore(h: seq<Item>, c: nat, events: seq<Event>, d: nat)
    ensures Applied(h + Gots(c, events), d) == Applied(h, d) + if c == d then events else []
  {
    if events == [] {
      assert h + Gots(c, events) == h;
    } else {
      var front := events[..|events| - 1];
      AppliedMore(h, c, front, d);
      assert (h + Gots(c, events))[..|h| + |front|] == h + Gots(c, front);
      assert events == front + [events[|front|]];
    }
  }

  lemma AppliedLocal(h: seq<Item>, entry: Entry, d: nat)
    ensures Applied(h + [Local(entry)], d) == Applied(h, d)
  {
    assert (h + [Local(entry)])[..|h|] == h;
  }

  /** The events of a batch up to `upto` that a client at `last` has not seen. */
  function Unseen(log: seq<Event>, last: nat, upto: nat): seq<Event>
    requires upto <= |log|
  {
    if last < upto then log[last..upto] else []
  }

  lemma FoldOne(w: View, j: seq<Item>, c: nat, e: Event, sequence: nat)
    requires w.entries == Replay(j).entries && w.noteStart == Replay(j).noteStart && w.last < sequence
    ensures var x, k := Deliver(w, Numbered(Some(sequence), e)), j + [Got(c, e)];
            && x.entries == Replay(k).entries && x.noteStart == Replay(k).noteStart
            && x.last == (if e.HandedOff? then 0 else sequence)
            && x.conversation == if e.HandedOff? then Some(CleanedLine(e.successor)) else w.conversation
  {
    hide Replay, Transcript.Apply, CleanedLine;
    ReplayOne(j, c, e);
    AppliedAlike(w.(last := sequence), Replay(j), e);
    NumberingKept(w.(last := sequence), e);
  }

  lemma DeliverNext(v: View, log: seq<Event>, from: nat, upto: nat)
    requires from < upto <= |log|
    ensures DeliverAll(v, Numbering(log, from, upto))
            == Deliver(DeliverAll(v, Numbering(log, from, upto - 1)), Numbered(Some(upto), log[upto - 1]))
    ensures Taken(v, Numbering(log, from, upto))
            == Taken(v, Numbering(log, from, upto - 1))
               + if Fresh(DeliverAll(v, Numbering(log, from, upto - 1)), Numbered(Some(upto), log[upto - 1]))
                 then [log[upto - 1]] else []
  {
    hide Deliver;
    assert Numbering(log, from, upto)[..upto - 1 - from] == Numbering(log, from, upto - 1);
  }

  lemma UnseenNext(h: seq<Item>, c: nat, log: seq<Event>, last: nat, upto: nat)
    requires last < upto <= |log|
    ensures h + Gots(c, Unseen(log, last, upto)) == (h + Gots(c, Unseen(log, last, upto - 1))) + [Got(c, log[upto - 1])]
    ensures Unseen(log, last, upto) == Unseen(log, last, upto - 1) + [log[upto - 1]]
  {
  }

  /** Of a batch that starts where the client stands or before, exactly the
      events it has not seen are applied, each once and in order; the screen is
      theirs, and the numbering moves along. */
  lemma {:induction false} BatchIsFolded(v: View, h: seq<Item>, log: seq<Event>, c: nat, from: nat, upto: nat)
    requires from <= v.last && from <= upto <= |log|
    requires v.entries == Replay(h).entries && v.noteStart == Replay(h).noteStart
    requires forall k :: 0 <= k < upto - 1 ==> !log[k].HandedOff?
    ensures Taken(v, Numbering(log, from, upto)) == Unseen(log, v.last, upto)
    ensures var w, k := DeliverAll(v, Numbering(log, from, upto)), h + Gots(c, Unseen(log, v.last, upto));
            && w.entries == Replay(k).entries && w.noteStart == Replay(k).noteStart
            && (upto <= v.last ==> w == v)
            && (v.last < upto ==>
                  && w.last == (if log[upto - 1].HandedOff? then 0 else upto)
                  && w.conversation == if log[upto - 1].HandedOff? then Some(CleanedLine(log[upto - 1].successor))
                                       else v.conversation)
    decreases upto
  {
    hide Replay, Deliver, CleanedLine, Gots, Unseen, Numbering, DeliverAll, Taken;
    if upto <= v.last {
      NothingUnseen(v, h, log, c, from, upto);
    } else {
      if from < upto - 1 {
        BatchIsFolded(v, h, log, c, from, upto - 1);
      } else {
        NothingUnseen(v, h, log, c, from, upto - 1);
      }
      DeliverNext(v, log, from, upto);
      UnseenNext(h, c, log, v.last, upto);
      FoldOne(DeliverAll(v, Numbering(log, from, upto - 1)), h + Gots(c, Unseen(log, v.last, upto - 1)),
              c, log[upto - 1], upto);
    }
  }

  lemma {:induction false} NothingUnseen(v: View, h: seq<Item>, log: seq<Event>, c: nat, from: nat, upto: nat)
    requires from <= upto <= |log| && upto <= v.last
    ensures DeliverAll(v, Numbering(log, from, upto)) == v
    ensures Taken(v, Numbering(log, from, upto)) == [] == Unseen(log, v.last, upto)
    ensures h + Gots(c, Unseen(log, v.last, upto)) == h
    decreases upto
  {
    hide Deliver;
    if from < upto {
      NothingUnseen(v, h, log, c, from, upto - 1);
      DeliverNext(v, log, from, upto);
      SeenIsDropped(v, log[upto - 1], upto);
    }
  }

  lemma SeenIsDropped(v: View, e: Event, sequence: nat)
    requires sequence <= v.last
    ensures Deliver(v, Numbered(Some(sequence), e)) == v
  {
  }

  lemma ReplayOne(h: seq<Item>, c: nat, e: Event)
    ensures Replay(h + [Got(c, e)]) == Transcript.Apply(Replay(h), e)
  {
    assert (h + [Got(c, e)])[..|h|] == h;
  }

  lemma ReplayLocal(h: seq<Item>, entry: Entry)
    ensures Replay(h + [Local(entry)]) == Push(Replay(h), entry)
  {
    assert (h + [Local(entry)])[..|h|] == h;
  }

  lemma OnScreenLocal(v: View, h: seq<Item>, entry: Entry)
    requires v.entries == Replay(h).entries && v.noteStart == Replay(h).noteStart && OwnNotices(h)
    requires entry.kind != Coordinator
    ensures var k := h + [Local(entry)];
            && v.entries + [entry] == Replay(k).entries && v.noteStart == Replay(k).noteStart && OwnNotices(k)
  {
    hide Replay;
    ReplayLocal(h, entry);
  }

  /** An entry of the client's own leaves what was applied as it was. */
  lemma LocalKeepsClient(n: Net, entry: Entry)
    requires ClientInv(n) && entry.kind != Coordinator
    ensures ClientInv(n.(view := Push(n.view, entry), history := n.history + [Local(entry)]))
  {
    hide Replay, Applied, OwnNotices;
    OnScreenLocal(n.view, n.history, entry);
    forall c: nat
      ensures Applied(n.history + [Local(entry)], c) == Applied(n.history, c)
    {
      AppliedLocal(n.history, entry, c);
    }
  }

  /** Another conversation than the one shown is counted from its first event. */
  lemma RestartKeepsClient(n: Net, c: nat)
    requires ClientInv(n) && c < |n.names| == |n.logs|
    requires n.at.Some? ==> n.at.value.conversation < c
    ensures ClientInv(n.(view := n.view.(last := 0, conversation := Some(n.names[c])), at := Some(Cursor(c, 0))))
  {
    hide Replay;
    if n.at.Some? {
      var at := n.at.value;
      assert n.logs[at.conversation][..at.seen] <= n.logs[at.conversation];
    }
  }

  lemma ReadJoinKeeps(n: Net, next: Cursor)
    requires NetInv(n) && next.conversation < |n.names|
    requires n.at.Some? ==> n.at.value.conversation <= next.conversation
    requires next.seen == if n.view.conversation.None? || n.view.conversation.value == n.names[next.conversation]
                          then n.view.last else 0
    ensures ClientInv(ReadJoin(n, next)) && ReadJoin(n, next).at == Some(next)
  {
    hide Replay, Applied, OwnNotices, CleanedLine, LinkInv;
    var c := next.conversation;
    PlainIsClean(n.names[c]);
    if n.at.Some? && n.at.value.conversation == c {
      assert n.history + [] == n.history;
    } else {
      RestartKeepsClient(n, c);
      if n.at.Some? {
        assert n.view.conversation.value != n.names[c];
        LocalKeepsClient(n.(view := n.view.(last := 0, conversation := Some(n.names[c])), at := Some(Cursor(c, 0))),
                         Entry(Notice, AWAY));
      } else {
        assert n.history + [] == n.history;
      }
    }
  }

  lemma GotsOwnNotices(h: seq<Item>, c: nat, events: seq<Event>)
    requires OwnNotices(h)
    ensures OwnNotices(h + Gots(c, events))
  {
  }

  lemma BatchOnScreen(n: Net, c: nat, from: nat, upto: nat)
    requires NetInv(n) && n.at.Some? && n.at.value.conversation == c
    requires from <= n.at.value.seen && from < upto <= |n.logs[c]|
    ensures var m := ReadBatch(n, c, from, upto);
            && OnScreen(m)
            && m.history == n.history + Gots(c, Unseen(n.logs[c], n.view.last, upto))
            && (upto <= n.view.last ==> m.view == n.view)
            && (n.view.last < upto ==>
                  && m.view.last == Settle(n.logs, c, upto).seen
                  && m.view.conversation == Some(n.names[Settle(n.logs, c, upto).conversation]))
  {
    hide Replay, Applied, CleanedLine, LinkInv, Gots, Numbering, DeliverAll, Taken, Unseen;
    var log := n.logs[c];
    assert forall k :: 0 <= k < upto - 1 ==> !log[k].HandedOff?;
    BatchIsFolded(n.view, n.history, log, c, from, upto);
    GotsOwnNotices(n.history, c, Unseen(log, n.view.last, upto));
    if log[upto - 1].HandedOff? {
      PlainIsClean(n.names[c + 1]);
    }
  }

  lemma BatchApplied(n: Net, c: nat, upto: nat)
    requires c < |n.logs| && upto <= |n.logs[c]| && n.view.last <= |n.logs[c]|
    ensures var unseen := Unseen(n.logs[c], n.view.last, upto);
            && (forall d: nat :: Applied(n.history + Gots(c, unseen), d)
                                 == Applied(n.history, d) + if c == d then unseen else [])
            && n.logs[c][..n.view.last] + unseen == n.logs[c][..Max(n.view.last, upto)]
  {
    var log, seen := n.logs[c], n.view.last;
    var unseen := Unseen(log, seen, upto);
    forall d: nat
      ensures Applied(n.history + Gots(c, unseen), d) == Applied(n.history, d) + if c == d then unseen else []
    {
      AppliedMore(n.history, c, unseen, d);
    }
    UnseenJoins(log, seen, upto);
  }

  lemma ReadBatchKeeps(n: Net, c: nat, from: nat, upto: nat)
    requires NetInv(n) && n.at.Some? && n.at.value.conversation == c
    requires from <= n.at.value.seen && from < upto <= |n.logs[c]|
    ensures ClientInv(ReadBatch(n, c, from, upto))
    ensures ReadBatch(n, c, from, upto).at == Some(Settle(n.logs, c, Max(n.at.value.seen, upto)))
  {
    hide Replay, Applied, CleanedLine, LinkInv, Gots, Numbering, DeliverAll, Taken, Unseen, OnScreen;
    var log := n.logs[c];
    BatchOnScreen(n, c, from, upto);
    BatchApplied(n, c, upto);
    if n.view.last < upto && log[upto - 1].HandedOff? {
      assert log[..upto] == log;
    }
  }

  lemma UnseenJoins(log: seq<Event>, seen: nat, upto: nat)
    requires upto <= |log| && seen <= |log|
    ensures log[..seen] + Unseen(log, seen, upto) == log[..Max(seen, upto)]
  {
  }

  lemma ReadKeeps(n: Net)
    requires NetInv(n) && Enabled(n, Read)
    ensures NetInv(Apply(n, Read))
  {
    hide Replay, Applied, CleanedLine, LogsInv, Gots, Numbering, DeliverAll, Taken, OwnNotices, Within, Settle;
    var l := n.link.value;
    assert PushFits(n.logs, l.stream, l.read);
    match l.stream[l.read]
    case JoinOk(next) => ReadJoinKeeps(n, next);
    case Batch(c, from, upto, _) =>
      assert PushFits(n.logs, l.stream, l.read - 1);
      ReadBatchKeeps(n, c, from, upto);
  }

  lemma StepKeepsNet(n: Net, step: Step)
    requires NetInv(n) && Enabled(n, step)
    ensures NetInv(Apply(n, step))
  {
    hide Enabled, Apply;
    match step
    case Commit(_) => ServiceStepKeeps(n, step);
    case HandOff(_, _) => ServiceStepKeeps(n, step);
    case Read => ReadKeeps(n);
    case OwnNotice(entry) => NoticeKeeps(n, entry);
    case _ => LinkStepKeeps(n, step);
  }

  lemma NoticeKeeps(n: Net, entry: Entry)
    requires NetInv(n) && Enabled(n, OwnNotice(entry))
    ensures NetInv(Apply(n, OwnNotice(entry)))
  {
    hide Replay, Applied, OwnNotices;
    LocalKeepsClient(n, entry);
  }

  lemma {:induction false} RunKeepsNet(n: Net, steps: seq<Step>)
    requires NetInv(n) && Runs(n, steps)
    ensures NetInv(After(n, steps))
    decreases |steps|
  {
    hide NetInv, Enabled, Apply;
    if steps != [] {
      StepKeepsNet(n, steps[0]);
      RunKeepsNet(Apply(n, steps[0]), steps[1..]);
    }
  }

  // -------------------------------------------------- What holds in every run

  /** In every run, whatever was lost, repeated or handed off: of each
      conversation a prefix of its events was applied, each once and in order;
      for the one shown the numbering says how long that prefix is. */
  lemma EventsAppliedOnceInOrder(name: string, steps: seq<Step>)
    requires Plain(name) && Runs(Start(name), steps)
    ensures var n := After(Start(name), steps);
            && |n.names| == |n.logs|
            && (forall c :: 0 <= c < |n.logs| ==> Applied(n.history, c) <= n.logs[c])
            && (n.at.Some? ==>
                  var c := n.at.value.conversation;
                  && c < |n.logs| && n.view.conversation == Some(n.names[c])
                  && n.view.last <= |n.logs[c]|
                  && Applied(n.history, c) == n.logs[c][..n.view.last])
  {
    hide LinkInv, OnScreen;
    var n := After(Start(name), steps);
    StartHolds(name);
    RunKeepsNet(Start(name), steps);
    forall c | 0 <= c < |n.logs|
      ensures Applied(n.history, c) <= n.logs[c]
    {
      if n.at.Some? && n.at.value.conversation == c {
        assert Applied(n.history, c) == n.logs[c][..n.at.value.seen];
      }
    }
  }

  lemma StartHolds(name: string)
    requires Plain(name)
    ensures NetInv(Start(name))
  {
  }

  /** In every run the screen shows what the applied events display, with the
      client's own notices between them. */
  lemma ScreenIsTheHistory(name: string, steps: seq<Step>)
    requires Plain(name) && Runs(Start(name), steps)
    ensures var n := After(Start(name), steps);
            && n.view.entries == Displayed(n.history, |n.history|)
            && (n.view.noteStart.Some? ==> n.view.noteStart.value <= |n.view.entries|)
  {
    hide LinkInv, Replay, Displayed, LogsInv;
    var n := After(Start(name), steps);
    StartHolds(name);
    RunKeepsNet(Start(name), steps);
    ScreenDisplaysHistory(n.history);
  }

  /** A connection read to its end, when the service has sent all it has, leaves
      no gap: the whole current conversation was applied. */
  lemma CaughtUpMeansAll(name: string, steps: seq<Step>)
    requires Plain(name) && Runs(Start(name), steps)
    requires var n := After(Start(name), steps);
             && n.link.Some? && n.link.value.stream != [] && n.link.value.read == |n.link.value.stream|
             && n.logs != [] && ServiceAt(n.link.value) == Cursor(Current(n), |n.logs[Current(n)]|)
    ensures var n := After(Start(name), steps);
            Applied(n.history, Current(n)) == n.logs[Current(n)]
  {
    hide OnScreen, LogsInv, PushFits, Within, Applied, Runs;
    var n := After(Start(name), steps);
    StartHolds(name);
    RunKeepsNet(Start(name), steps);
    assert n.logs[Current(n)][..|n.logs[Current(n)]|] == n.logs[Current(n)];
  }

  // ------------------------------------------- The client can always catch up

  /** Nothing but the connection: no event is added, no notice of one's own. */
  predicate OfTheLink(step: Step) {
    step == Lose || step == Connect || step == AcceptJoin || step == Read || step.Send?
  }

  /** The steps lead to the whole current conversation applied, logs as they were. */
  ghost predicate CatchesUp(n: Net, steps: seq<Step>) {
    && Runs(n, steps) && (forall s :: s in steps ==> OfTheLink(s))
    && var m := After(n, steps);
       && m.names == n.names && m.logs == n.logs != []
       && Applied(m.history, Current(n)) == n.logs[Current(n)]
  }

  lemma StepThenCatchesUp(n: Net, step: Step, rest: seq<Step>)
    requires Enabled(n, step) && OfTheLink(step) && CatchesUp(Apply(n, step), rest)
    requires Apply(n, step).logs == n.logs && Apply(n, step).names == n.names
    ensures CatchesUp(n, [step] + rest)
  {
    hide Enabled, Apply, Applied, OfTheLink;
    assert ([step] + rest)[1..] == rest;
  }

  /** Joined and read up: one batch is left to send and read, or none. */
  lemma CatchUpJoined(n: Net) returns (steps: seq<Step>)
    requires NetInv(n) && n.link.Some? && n.link.value.stream != []
    requires n.link.value.read == |n.link.value.stream| && ServiceAt(n.link.value).conversation == Current(n)
    ensures CatchesUp(n, steps)
  {
    hide Applied, Replay, OnScreen, DeliverAll, Taken, Gots;
    var c, at := Current(n), ServiceAt(n.link.value);
    assert PushFits(n.logs, n.link.value.stream, |n.link.value.stream| - 1);
    var whole := |n.logs[c]|;
    if at.seen == whole {
      assert n.logs[c][..whole] == n.logs[c];
      steps := [];
    } else {
      var sent := Apply(n, Send(at.seen, whole));
      LinkStepKeeps(n, Send(at.seen, whole));
      var m := Apply(sent, Read);
      ReadKeeps(sent);
      assert m.link.value.read == |m.link.value.stream| && ServiceAt(m.link.value) == Cursor(c, whole);
      assert m.logs[c][..whole] == m.logs[c];
      assert CatchesUp(m, []);
      StepThenCatchesUp(sent, Read, []);
      StepThenCatchesUp(n, Send(at.seen, whole), [Read] + []);
      steps := [Send(at.seen, whole)] + ([Read] + []);
    }
  }

  /** Not connected: the client connects, joins, and reads the reply. */
  lemma CatchUpUnlinked(n: Net) returns (steps: seq<Step>)
    requires NetInv(n) && n.link.None?
    ensures CatchesUp(n, steps)
  {
    hide Applied, Replay, OnScreen, CatchesUp;
    var connected := Apply(n, Connect);
    LinkStepKeeps(n, Connect);
    var joined := Apply(connected, AcceptJoin);
    LinkStepKeeps(connected, AcceptJoin);
    var m := Apply(joined, Read);
    ReadKeeps(joined);
    steps := CatchUpJoined(m);
    StepThenCatchesUp(joined, Read, steps);
    steps := [Read] + steps;
    StepThenCatchesUp(connected, AcceptJoin, steps);
    steps := [AcceptJoin] + steps;
    StepThenCatchesUp(n, Connect, steps);
    steps := [Connect] + steps;
  }

  /** Whatever happened before, the client can catch up: from every net that a
      run reaches, some run of the connection alone ends with the whole current
      conversation applied. */
  lemma CanAlwaysCatchUp(name: string, before: seq<Step>) returns (steps: seq<Step>)
    requires Plain(name) && Runs(Start(name), before)
    ensures CatchesUp(After(Start(name), before), steps)
  {
    hide NetInv, CatchesUp;
    var n := After(Start(name), before);
    StartHolds(name);
    RunKeepsNet(Start(name), before);
    NamesLogs(n);
    if n.link.Some? {
      LinkStepKeeps(n, Lose);
      steps := CatchUpUnlinked(Apply(n, Lose));
      StepThenCatchesUp(n, Lose, steps);
      steps := [Lose] + steps;
    } else {
      steps := CatchUpUnlinked(n);
    }
  }

  lemma NamesLogs(n: Net)
    requires NetInv(n)
    ensures |n.logs| == |n.names| > 0
  {
  }
}
