/** The chat client against the service, over any number of connections.

    Every step of the client, of the service and of the person is one `Step`;
    a run is any sequence of enabled steps. A connection is kept for ever:
    the service may process bytes of an old one at any later time, and bytes
    that are lost are bytes the service never gets to. A write that fails may
    or may not have reached the service, so it is on the wire too. */
module ChatProtocol {
  import opened Wrappers
  import opened ChatConnection

  /** Why an item was written: taken from the outbox, a message written again
      after a reconnect, or the open detail watched again. */
  datatype Origin = Entry(serial: nat) | Again | Reopened(since: nat)

  datatype Answer = Answer(reference: nat, ok: bool)

  /** `read` answers were seen by the client; `first` counts the messages that
      were answered when it opened. */
  datatype Wire = Wire(session: Session, origins: seq<Origin>, answers: seq<Answer>, read: nat, first: nat)

  datatype Phase =
    | Down
    | Joining
    | Resending(todo: seq<Outgoing>)
    | Rewatching(open: Option<string>, since: nat)
    | Live

  /** `queued` is all that was ever put in the outbox, of which `drained` were
      taken; `answered` counts replies to messages; `record` is the service's;
      `refused` tells whether the service ever refused a message; `places[n]`
      is where the n-th entry taken was written. */
  datatype System = System(
    queued: seq<Outgoing>, drained: nat, unsent: seq<Outgoing>, answered: nat,
    detail: Option<string>, phase: Phase, wires: seq<Wire>,
    record: seq<Outgoing>, refused: bool, places: seq<Place>)

  /** The connection an outbox entry was written on, and which frame it was. */
  datatype Place = Place(wire: nat, frame: nat)

  const START: System := System([], 0, [], 0, None, Down, [], [], false, [])

  datatype Step =
    | Press(item: Outgoing)
    | Connect
    | JoinAccepted
    | Resend(fails: bool)
    | ReadDetail
    | Rewatch(fails: bool)
    | Take(fails: bool)
    | Beat(fails: bool)
    | ReadReply
    | Lose
    | Serve(wire: nat, accept: bool)

  function Outbox(s: System): seq<Outgoing>
    requires s.drained <= |s.queued|
  {
    s.queued[s.drained..]
  }

  /** Every message typed so far, in order. */
  function Typed(s: System): seq<Outgoing> { Says(s.queued) }

  /** The typed messages the connection has taken from the outbox. */
  function Taken(s: System): seq<Outgoing>
    requires s.drained <= |s.queued|
  {
    Says(s.queued[..s.drained])
  }

  function Id(o: Outgoing): string { if o.Say? then o.messageId else "" }

  predicate Recorded(record: seq<Outgoing>, o: Outgoing) {
    exists r :: r in record && Id(r) == Id(o)
  }

  function Current(s: System): Wire
    requires s.wires != []
  {
    s.wires[|s.wires| - 1]
  }

  /** How many messages are among a wire's first `n` frames. */
  function Count(w: Wire, n: nat): nat
    requires n <= |w.session.written|
  {
    |Says(Items(w.session.written[..n]))|
  }

  predicate Enabled(s: System, step: Step) {
    && s.drained <= |s.queued|
    && (s.phase != Down ==> s.wires != [])
    && match step
       case Press(item) => item.Say? ==> !Recorded(Typed(s), item)
       case Connect => s.phase == Down
       case JoinAccepted => s.phase == Joining
       case Resend(_) => s.phase.Resending? && s.phase.todo != []
       case ReadDetail => s.phase == Resending([])
       case Rewatch(_) => s.phase.Rewatching?
       case Take(_) => s.phase == Live && s.drained < |s.queued|
       case Beat(_) => s.phase == Live
       case ReadReply => s.phase == Live && Current(s).read < |Current(s).answers|
       case Lose => s.phase != Down
       case Serve(w, _) => w < |s.wires| && |s.wires[w].answers| < |s.wires[w].session.written|
  }

  function Wrote(w: Wire, item: Outgoing, origin: Origin): Wire {
    w.(session := Write(w.session, item), origins := w.origins + [origin])
  }

  function WriteOn(s: System, item: Outgoing, origin: Origin): System
    requires s.wires != []
  {
    s.(wires := s.wires[|s.wires| - 1 := Wrote(Current(s), item, origin)])
  }

  function ServeOn(s: System, at: nat, accept: bool): System
    requires at < |s.wires| && |s.wires[at].answers| < |s.wires[at].session.written|
  {
    var w := s.wires[at];
    var frame := w.session.written[|w.answers|];
    var known := frame.item.Say? && Recorded(s.record, frame.item);
    var ok := known || accept;
    s.(wires := s.wires[at := w.(answers := w.answers + [Answer(frame.reference, ok)])],
       record := if frame.item.Say? && ok && !known then s.record + [frame.item] else s.record,
       refused := s.refused || (frame.item.Say? && !ok))
  }

  function ReadReplyOn(s: System): System
    requires s.wires != [] && Current(s).read < |Current(s).answers|
  {
    var w := Current(s);
    var reference := w.answers[w.read].reference;
    if reference !in w.session.pending then
      s.(wires := s.wires[|s.wires| - 1 := w.(read := w.read + 1)])
    else
      var outgoing := w.session.pending[reference];
      s.(wires := s.wires[|s.wires| - 1 := w.(read := w.read + 1,
                                              session := w.session.(pending := w.session.pending - {reference}))],
         unsent := Without(s.unsent, outgoing),
         answered := s.answered + if outgoing.Say? then 1 else 0)
  }

  function Apply(s: System, step: Step): System
    requires Enabled(s, step)
  {
    match step
    case Press(item) => s.(queued := s.queued + [item], detail := Watching(s.detail, [item]))
    case Connect => s.(phase := Joining, wires := s.wires + [Wire(FRESH, [], [], 0, s.answered)])
    case JoinAccepted => s.(phase := Resending(s.unsent))
    case Resend(fails) =>
      WriteOn(s, s.phase.todo[0], Again).(phase := if fails then Down else Resending(s.phase.todo[1..]))
    case ReadDetail => s.(phase := Rewatching(s.detail, |s.queued|))
    case Rewatch(fails) =>
      (match s.phase.open
       case None => s.(phase := Live)
       case Some(id) => WriteOn(s, Watch(id), Reopened(s.phase.since)).(phase := if fails then Down else Live))
    case Take(fails) =>
      var item := s.queued[s.drained];
      WriteOn(s, item, Entry(s.drained)).(
        drained := s.drained + 1,
        places := s.places + [Place(|s.wires| - 1, |Current(s).session.written|)],
        unsent := s.unsent + (if item.Say? then [item] else []),
        phase := if fails then Down else Live)
    case Beat(fails) =>
      var w := Current(s);
      s.(wires := s.wires[|s.wires| - 1 := w.(session := w.session.(last := w.session.last + 1))],
         phase := if fails then Down else Live)
    case ReadReply => ReadReplyOn(s)
    case Lose => s.(phase := Down)
    case Serve(w, accept) => ServeOn(s, w, accept)
  }

  /** Whether `steps` can be taken from `s`, one after another. */
  predicate Runs(s: System, steps: seq<Step>)
    decreases |steps|
  {
    steps == [] || (Enabled(s, steps[0]) && Runs(Apply(s, steps[0]), steps[1..]))
  }

  function After(s: System, steps: seq<Step>): System
    requires Runs(s, steps)
    decreases |steps|
  {
    if steps == [] then s else After(Apply(s, steps[0]), steps[1..])
  }

  ghost predicate DistinctIds(says: seq<Outgoing>) {
    forall i, j :: 0 <= i < j < |says| ==> Id(says[i]) != Id(says[j])
  }

  /** A wire's frames were answered in order, and its messages are the typed
      ones from `first` on, without a gap. */
  ghost predicate WireInv(w: Wire, taken: seq<Outgoing>) {
    && |w.origins| == |w.session.written|
    && Numbered(w.session, w.read)
    && w.read <= |w.answers| <= |w.session.written|
    && (forall i :: 0 <= i < |w.answers| ==> w.answers[i].reference == w.session.written[i].reference)
    && var says := Says(Items(w.session.written));
       w.first + |says| <= |taken| && says == taken[w.first..w.first + |says|]
  }

  /** Whatever a wire's processed part stands for is among `n` recorded ones. */
  ghost predicate Served(w: Wire, n: nat) {
    |w.answers| <= |w.session.written| && w.first + Count(w, |w.answers|) <= n
  }

  ghost predicate AllWires(wires: seq<Wire>, taken: seq<Outgoing>) {
    forall i :: 0 <= i < |wires| ==> WireInv(wires[i], taken)
  }

  /** Only messages are on the wire, and `todo` completes them. */
  ghost predicate Resent(w: Wire, todo: seq<Outgoing>, taken: seq<Outgoing>)
    requires w.first <= |taken|
  {
    && Says(Items(w.session.written)) == Items(w.session.written)
    && Items(w.session.written) + todo == taken[w.first..]
  }

  /** Every message taken and not answered before this wire is on it. */
  ghost predicate CaughtUp(w: Wire, taken: seq<Outgoing>)
    requires w.first <= |taken|
  {
    Says(Items(w.session.written)) == taken[w.first..]
  }

  ghost predicate PhaseInv(s: System)
    requires s.drained <= |s.queued|
  {
    s.phase != Down ==>
      && s.wires != []
      && var taken := Taken(s);
      && var w := Current(s);
      && WireInv(w, taken)
      && s.answered == w.first + Count(w, w.read)
      && (s.phase != Live ==> w.read == 0)
      && (s.phase == Joining ==> w.session.written == [])
      && (s.phase.Resending? ==> Resent(w, s.phase.todo, taken))
      && (s.phase.Rewatching? ==> Resent(w, [], taken))
      && (s.phase == Live ==> CaughtUp(w, taken))
  }

  /** With no message refused: what is recorded is a prefix of what was taken,
      and holds all that any wire's processed part or any answer stands for. */
  ghost predicate RecordInv(s: System)
    requires s.drained <= |s.queued|
  {
    !s.refused ==>
      && s.record <= Taken(s)
      && s.answered <= |s.record|
      && forall i :: 0 <= i < |s.wires| ==> Served(s.wires[i], |s.record|)
  }

  ghost predicate MessageInv(s: System) {
    && s.drained <= |s.queued|
    && DistinctIds(Typed(s))
    && s.answered <= |Taken(s)|
    && s.unsent == Taken(s)[s.answered..]
    && DistinctIds(s.record)
    && (forall r :: r in s.record ==> r in Taken(s))
    && AllWires(s.wires, Taken(s))
    && PhaseInv(s)
    && RecordInv(s)
  }

  lemma TakenIsPrefix(s: System)
    requires s.drained <= |s.queued|
    ensures Taken(s) <= Typed(s)
    ensures Typed(s) == Taken(s) + Says(Outbox(s))
  {
    SaysSplit(s.queued[..s.drained], Outbox(s));
    assert s.queued == s.queued[..s.drained] + Outbox(s);
  }

  lemma DropAppend<T>(a: seq<T>, b: seq<T>, n: nat)
    requires n <= |a|
    ensures (a + b)[n..] == a[n..] + b
  {
  }

  lemma TakenNext(s: System)
    requires s.drained < |s.queued|
    ensures Says(s.queued[..s.drained + 1]) == Taken(s) + if s.queued[s.drained].Say? then [s.queued[s.drained]] else []
  {
    assert s.queued[..s.drained + 1][..s.drained] == s.queued[..s.drained];
  }

  /** The messages among a wire's first frames come first among its messages. */
  lemma CountNext(w: Wire, n: nat)
    requires n < |w.session.written|
    ensures var item := w.session.written[n].item;
            && Count(w, n + 1) == Count(w, n) + (if item.Say? then 1 else 0)
            && Count(w, n + 1) <= |Says(Items(w.session.written))|
            && (item.Say? ==> Says(Items(w.session.written))[Count(w, n)] == item)
  {
    var all := w.session.written;
    var front := Items(all[..n + 1]);
    assert front[..n] == Items(all[..n]);
    SaysSplit(front, Items(all[n + 1..]));
    assert Items(all) == front + Items(all[n + 1..]);
  }

  lemma CountAll(w: Wire)
    ensures Count(w, |w.session.written|) == |Says(Items(w.session.written))|
  {
    assert w.session.written[..|w.session.written|] == w.session.written;
  }

  lemma WroteOne(w: Wire, item: Outgoing, origin: Origin)
    ensures var v := Wrote(w, item, origin);
            && Items(v.session.written) == Items(w.session.written) + [item]
            && Says(Items(v.session.written)) == Says(Items(w.session.written)) + (if item.Say? then [item] else [])
  {
    var v := Wrote(w, item, origin);
    SaysSplit(Items(w.session.written), [item]);
    assert Items(v.session.written) == Items(w.session.written) + [item];
    assert [item][..0] == [];
  }

  /** A wire keeps its invariant when more messages were taken meanwhile. */
  lemma WireOutlives(w: Wire, taken: seq<Outgoing>, more: seq<Outgoing>)
    requires WireInv(w, taken)
    ensures WireInv(w, taken + more)
  {
    var says := Says(Items(w.session.written));
    assert (taken + more)[w.first..w.first + |says|] == taken[w.first..w.first + |says|];
  }

  /** Writing the next typed message, or anything that is no message, keeps a
      wire in order and changes nothing of what was processed or answered. */
  lemma WroteNext(w: Wire, item: Outgoing, origin: Origin, taken: seq<Outgoing>, more: seq<Outgoing>)
    requires WireInv(w, taken)
    requires var n := w.first + |Says(Items(w.session.written))|;
             item.Say? ==> n < |taken + more| && (taken + more)[n] == item
    ensures WireInv(Wrote(w, item, origin), taken + more)
    ensures Count(Wrote(w, item, origin), w.read) == Count(w, w.read)
    ensures forall n :: Served(w, n) ==> Served(Wrote(w, item, origin), n)
  {
    hide Says, Items, Increasing;
    var v := Wrote(w, item, origin);
    WroteOne(w, item, origin);
    WriteKeepsNumbering(w.session, w.read, item);
    WireOutlives(w, taken, more);
    assert v.session.written[..w.read] == w.session.written[..w.read];
    assert v.session.written[..|w.answers|] == w.session.written[..|w.answers|];
  }

  lemma PressKeepsMessages(s: System, item: Outgoing)
    requires MessageInv(s) && Enabled(s, Press(item))
    ensures MessageInv(Apply(s, Press(item)))
  {
    var t := Apply(s, Press(item));
    assert t.queued[..t.drained] == s.queued[..s.drained];
    assert t.queued[..|s.queued|] == s.queued;
  }

  lemma ConnectKeepsMessages(s: System)
    requires MessageInv(s) && Enabled(s, Connect)
    ensures MessageInv(Apply(s, Connect))
  {
    var t := Apply(s, Connect);
    var w := Current(t);
    assert Items(w.session.written) == [];
    assert WireInv(w, Taken(t));
    assert Served(w, |t.record|) || s.refused;
  }

  lemma ResentNext(w: Wire, todo: seq<Outgoing>, source: seq<Outgoing>)
    requires WireInv(w, Says(source)) && todo != [] && Resent(w, todo, Says(source))
    ensures todo[0].Say?
    ensures WireInv(Wrote(w, todo[0], Again), Says(source))
    ensures Resent(Wrote(w, todo[0], Again), todo[1..], Says(source))
    ensures Count(Wrote(w, todo[0], Again), w.read) == Count(w, w.read)
    ensures forall n :: Served(w, n) ==> Served(Wrote(w, todo[0], Again), n)
  {
    hide Says, Items, Increasing, Numbered, Count, Served;
    var items, taken := Items(w.session.written), Says(source);
    assert items + todo == (items + [todo[0]]) + todo[1..];
    assert todo[0] == taken[w.first..][|items|];
    SaysAmong(source, todo[0]);
    assert taken + [] == taken;
    WroteOne(w, todo[0], Again);
    WroteNext(w, todo[0], Again, taken, []);
  }

  lemma ResendKeepsMessages(s: System, fails: bool)
    requires MessageInv(s) && Enabled(s, Resend(fails))
    ensures MessageInv(Apply(s, Resend(fails)))
  {
    hide WireInv, Resent, CaughtUp, Served, Count, Says, Items;
    var t := Apply(s, Resend(fails));
    ResentNext(Current(s), s.phase.todo, s.queued[..s.drained]);
    OtherWires(s, t);
  }

  /** A step that changes only the current wire, by at most writing on it, keeps
      what is known of the wires and of the record. */
  lemma OtherWires(s: System, t: System)
    requires s.wires != [] && |t.wires| == |s.wires|
    requires t.wires == s.wires[|s.wires| - 1 := Current(t)]
    requires s.drained <= |s.queued| && t.drained <= |t.queued|
    requires Taken(s) <= Taken(t) && s.record == t.record && s.refused == t.refused
    requires AllWires(s.wires, Taken(s)) && RecordInv(s)
    requires WireInv(Current(t), Taken(t))
    requires !s.refused ==> Served(Current(t), |s.record|) && t.answered <= |s.record|
    ensures AllWires(t.wires, Taken(t)) && RecordInv(t)
  {
    forall i | 0 <= i < |t.wires|
      ensures WireInv(t.wires[i], Taken(t))
    {
      if i < |t.wires| - 1 {
        WireOutlives(s.wires[i], Taken(s), Taken(t)[|Taken(s)|..]);
      }
    }
  }

  lemma JoinKeepsMessages(s: System)
    requires MessageInv(s) && Enabled(s, JoinAccepted)
    ensures MessageInv(Apply(s, JoinAccepted))
  {
    hide Numbered, Served;
    assert Items(Current(s).session.written) == [];
  }

  lemma RewatchKeepsMessages(s: System, step: Step)
    requires step.ReadDetail? || step.Rewatch?
    requires MessageInv(s) && Enabled(s, step)
    ensures MessageInv(Apply(s, step))
  {
    hide WireInv, Count, Served, Says, Items;
    var t := Apply(s, step);
    if step.Rewatch? && s.phase.open.Some? {
      var w, item, taken := Current(s), Watch(s.phase.open.value), Taken(s);
      assert taken + [] == taken;
      assert Items(w.session.written) + [] == Items(w.session.written);
      WroteOne(w, item, Reopened(s.phase.since));
      WroteNext(w, item, Reopened(s.phase.since), taken, []);
      OtherWires(s, t);
    } else if step.Rewatch? {
      assert Items(Current(s).session.written) + [] == Items(Current(s).session.written);
    }
  }

  lemma BeatKeepsMessages(s: System, fails: bool)
    requires MessageInv(s) && Enabled(s, Beat(fails))
    ensures MessageInv(Apply(s, Beat(fails)))
  {
    hide Says, Items, DistinctIds, Recorded;
    OtherWires(s, Apply(s, Beat(fails)));
  }

  lemma TakenOnWire(w: Wire, item: Outgoing, origin: Origin, taken: seq<Outgoing>)
    requires WireInv(w, taken) && CaughtUp(w, taken)
    ensures var now := taken + if item.Say? then [item] else [];
            && WireInv(Wrote(w, item, origin), now)
            && CaughtUp(Wrote(w, item, origin), now)
            && Count(Wrote(w, item, origin), w.read) == Count(w, w.read)
            && forall n :: Served(w, n) ==> Served(Wrote(w, item, origin), n)
  {
    hide Says, Items, Numbered, Count, Served;
    var more := if item.Say? then [item] else [];
    WroteOne(w, item, origin);
    WroteNext(w, item, origin, taken, more);
    DropAppend(taken, more, w.first);
  }

  lemma TakeKeepsMessages(s: System, fails: bool)
    requires MessageInv(s) && Enabled(s, Take(fails))
    ensures MessageInv(Apply(s, Take(fails)))
  {
    hide WireInv, Count, Served, Says, Items, Resent, CaughtUp, Recorded;
    var t := Apply(s, Take(fails));
    var item := s.queued[s.drained];
    TakenNext(s);
    TakenOnWire(Current(s), item, Entry(s.drained), Taken(s));
    DropAppend(Taken(s), if item.Say? then [item] else [], s.answered);
    OtherWires(s, t);
  }

  lemma {:induction false} CountGrows(w: Wire, m: nat, n: nat)
    requires m <= n <= |w.session.written|
    ensures Count(w, m) <= Count(w, n)
    decreases n - m
  {
    if m < n {
      CountNext(w, m);
      CountGrows(w, m + 1, n);
    }
  }

  /** The `n`-th frame, when it is a message, is the typed message at its place. */
  lemma FrameIsTaken(w: Wire, n: nat, taken: seq<Outgoing>)
    requires WireInv(w, taken) && n < |w.session.written| && w.session.written[n].item.Say?
    ensures w.first + Count(w, n) < |taken|
    ensures taken[w.first + Count(w, n)] == w.session.written[n].item
    ensures Count(w, n + 1) == Count(w, n) + 1
  {
    hide Says, Items, Numbered, Count;
    CountNext(w, n);
  }

  lemma ReplyOnWire(w: Wire, taken: seq<Outgoing>)
    requires WireInv(w, taken) && w.read < |w.answers|
    ensures var r := w.answers[w.read].reference;
            && r in w.session.pending
            && w.session.pending[r] == w.session.written[w.read].item
            && WireInv(w.(read := w.read + 1, session := w.session.(pending := w.session.pending - {r})), taken)
  {
    hide Says, Items, Increasing;
    ReplySettlesOldest(w.session, w.read);
  }

  lemma ReplyUnsent(source: seq<Outgoing>, answered: nat, item: Outgoing)
    requires var taken := Says(source); DistinctIds(taken) && answered <= |taken|
    requires var taken := Says(source); item.Say? ==> answered < |taken| && taken[answered] == item
    ensures Without(Says(source)[answered..], item) == Says(source)[answered + (if item.Say? then 1 else 0)..]
  {
    hide Says;
    var unsent := Says(source)[answered..];
    if item.Say? {
      WithoutFirst(unsent);
    } else {
      if item in unsent {
        SaysAmong(source, item);
      }
      WithoutAbsent(unsent, item);
    }
  }

  lemma ReadReplyKeepsMessages(s: System)
    requires MessageInv(s) && Enabled(s, ReadReply)
    ensures MessageInv(Apply(s, ReadReply))
  {
    hide WireInv, Says, Items, Count, Without;
    var w, taken := Current(s), Taken(s);
    ReplyOnWire(w, taken);
    ReadReplyCounts(w, taken, |s.record|);
    var item := w.session.pending[w.answers[w.read].reference];
    TakenIsPrefix(s);
    ReplyUnsent(s.queued[..s.drained], s.answered, item);
    OtherWires(s, Apply(s, ReadReply));
  }

  lemma ReadReplyCounts(w: Wire, taken: seq<Outgoing>, recorded: nat)
    requires WireInv(w, taken) && w.read < |w.answers|
    requires w.answers[w.read].reference in w.session.pending
    ensures var r := w.answers[w.read].reference;
            var item := w.session.pending[r];
            var v := w.(read := w.read + 1, session := w.session.(pending := w.session.pending - {r}));
            && Count(v, v.read) == Count(w, w.read) + (if item.Say? then 1 else 0)
            && (item.Say? ==> w.first + Count(w, w.read) < |taken| && taken[w.first + Count(w, w.read)] == item)
            && (Served(w, recorded) ==> Served(v, recorded) && v.first + Count(v, v.read) <= recorded)
  {
    hide Says, Items, Numbered;
    ReplyOnWire(w, taken);
    CountNext(w, w.read);
    CountGrows(w, w.read + 1, |w.answers|);
    if w.session.written[w.read].item.Say? {
      FrameIsTaken(w, w.read, taken);
    }
  }

  /** The service gets the next typed message on a wire whose earlier ones are
      all recorded: it is recorded already, or it is the very next one. */
  lemma NextOrKnown(w: Wire, taken: seq<Outgoing>, record: seq<Outgoing>)
    requires WireInv(w, taken) && |w.answers| < |w.session.written|
    requires DistinctIds(taken) && record <= taken && Served(w, |record|)
    requires w.session.written[|w.answers|].item.Say?
    ensures var at, item := w.first + Count(w, |w.answers|), w.session.written[|w.answers|].item;
            && at < |taken| && taken[at] == item
            && (Recorded(record, item) <==> at < |record|)
            && (at < |record| || at == |record|)
  {
    hide Says, Items, Numbered, Count;
    FrameIsTaken(w, |w.answers|, taken);
    var at := w.first + Count(w, |w.answers|);
    if at < |record| {
      assert record[at] in record;
    }
  }

  lemma ServeWire(w: Wire, taken: seq<Outgoing>, ok: bool)
    requires WireInv(w, taken) && |w.answers| < |w.session.written|
    ensures var frame := w.session.written[|w.answers|];
            var v := w.(answers := w.answers + [Answer(frame.reference, ok)]);
            && WireInv(v, taken)
            && Count(v, |v.answers|) == Count(w, |w.answers|) + (if frame.item.Say? then 1 else 0)
            && (frame.item.Say? ==> frame.item in taken)
  {
    hide Says, Items, Numbered;
    CountNext(w, |w.answers|);
    if w.session.written[|w.answers|].item.Say? {
      FrameIsTaken(w, |w.answers|, taken);
    }
  }

  lemma ServeKeepsMessages(s: System, at: nat, accept: bool)
    requires MessageInv(s) && Enabled(s, Serve(at, accept))
    ensures MessageInv(Apply(s, Serve(at, accept)))
  {
    hide Says, Items, Numbered, Count, Resent, CaughtUp;
    var t := ServeOn(s, at, accept);
    var w, taken := s.wires[at], Taken(s);
    var frame := w.session.written[|w.answers|];
    ServeWire(w, taken, t.wires[at].answers[|w.answers|].ok);
    ServeKeepsPhase(s, at, accept);
    TakenIsPrefix(s);
    if !s.refused && frame.item.Say? {
      NextOrKnown(w, taken, s.record);
    }
  }

  lemma ServeKeepsPhase(s: System, at: nat, accept: bool)
    requires MessageInv(s) && at < |s.wires| && |s.wires[at].answers| < |s.wires[at].session.written|
    ensures var t := ServeOn(s, at, accept);
            t.drained <= |t.queued| && PhaseInv(t)
  {
    hide Says, Items, WireInv;
    var w := s.wires[at];
    ServeWire(w, Taken(s), ServeOn(s, at, accept).wires[at].answers[|w.answers|].ok);
  }

  lemma StepKeepsMessages(s: System, step: Step)
    requires MessageInv(s) && Enabled(s, step)
    ensures MessageInv(Apply(s, step))
  {
    hide Enabled, Apply, MessageInv;
    match step
    case Press(item) => PressKeepsMessages(s, item);
    case Connect => ConnectKeepsMessages(s);
    case JoinAccepted => JoinKeepsMessages(s);
    case Resend(fails) => ResendKeepsMessages(s, fails);
    case ReadDetail => RewatchKeepsMessages(s, step);
    case Rewatch(_) => RewatchKeepsMessages(s, step);
    case Take(fails) => TakeKeepsMessages(s, fails);
    case Beat(fails) => BeatKeepsMessages(s, fails);
    case ReadReply => ReadReplyKeepsMessages(s);
    case Lose => LoseKeepsMessages(s);
    case Serve(w, accept) => ServeKeepsMessages(s, w, accept);
  }

  lemma LoseKeepsMessages(s: System)
    requires MessageInv(s) && Enabled(s, Lose)
    ensures MessageInv(Apply(s, Lose))
  {
    hide WireInv;
  }

  lemma {:induction false} RunKeepsMessages(s: System, steps: seq<Step>)
    requires MessageInv(s) && Runs(s, steps)
    ensures MessageInv(After(s, steps))
    decreases |steps|
  {
    hide MessageInv, Enabled, Apply;
    if steps != [] {
      StepKeepsMessages(s, steps[0]);
      RunKeepsMessages(Apply(s, steps[0]), steps[1..]);
    }
  }

  // ------------------------------------------------- What holds in every run

  /** In every run a typed message is recorded at most once, nothing else is,
      and while none is refused the record is a prefix of the typed order. */
  lemma RecordedAtMostOnceInOrder(steps: seq<Step>)
    requires Runs(START, steps)
    ensures var s := After(START, steps);
            && DistinctIds(s.record)
            && (forall r :: r in s.record ==> r in Typed(s))
            && (!s.refused ==> s.record <= Typed(s))
  {
    hide WireInv;
    RunKeepsMessages(START, steps);
    TakenIsPrefix(After(START, steps));
  }

  /** In every run the messages taken and not answered are kept, in order. */
  lemma UnansweredAreKept(steps: seq<Step>)
    requires Runs(START, steps)
    ensures var s := After(START, steps);
            && s.drained <= |s.queued| && s.answered <= |Taken(s)|
            && s.unsent == Taken(s)[s.answered..]
            && (!s.refused ==> s.answered <= |s.record|)
  {
    hide WireInv;
    RunKeepsMessages(START, steps);
  }

  /** Once nothing waits, every typed message is recorded exactly once. */
  lemma RecordedExactlyOnceAtRest(steps: seq<Step>)
    requires Runs(START, steps)
    requires var s := After(START, steps);
             !s.refused && s.unsent == [] && s.drained == |s.queued|
    ensures After(START, steps).record == Typed(After(START, steps))
  {
    hide WireInv;
    var s := After(START, steps);
    RunKeepsMessages(START, steps);
    TakenIsPrefix(s);
    assert s.queued[..s.drained] == s.queued;
  }

  function Rank(s: System): nat {
    match s.phase case Down => 5 case Joining => 4 case Resending(_) => 3 case Rewatching(_, _) => 2 case Live => 1
  }

  /** The client's or the service's next step towards rest on a connection that
      stays up; none when there is nothing left to do. */
  function Onward(s: System): Option<Step>
    requires s.phase != Down ==> s.wires != []
  {
    match s.phase
    case Down => Some(Connect)
    case Joining => Some(JoinAccepted)
    case Resending(todo) => Some(if todo == [] then ReadDetail else Resend(false))
    case Rewatching(_, _) => Some(Rewatch(false))
    case Live =>
      if s.drained < |s.queued| then Some(Take(false))
      else if |Current(s).answers| < |Current(s).session.written| then Some(Serve(|s.wires| - 1, true))
      else if Current(s).read < |Current(s).answers| then Some(ReadReply)
      else None
  }

  function Todo(s: System): nat { if s.phase.Resending? then |s.phase.todo| else 0 }

  function Unserved(s: System): int {
    if s.wires == [] then 0 else |Current(s).session.written| - |Current(s).answers|
  }

  function Unread(s: System): int {
    if s.wires == [] then 0 else |Current(s).answers| - Current(s).read
  }

  lemma NothingOnwardIsRest(s: System)
    requires MessageInv(s) && Onward(s).None?
    ensures s.unsent == [] && s.drained == |s.queued|
    ensures !s.refused ==> s.record == Typed(s)
  {
    hide Says, Items, Numbered;
    CountAll(Current(s));
    TakenIsPrefix(s);
    assert s.queued[..s.drained] == s.queued;
  }

  lemma OnwardLeads(s: System)
    requires MessageInv(s) && Onward(s).Some?
    ensures Enabled(s, Onward(s).value)
    ensures var t := Apply(s, Onward(s).value);
            && t.refused == s.refused && t.queued == s.queued
            && (Rank(t) < Rank(s)
                || (Rank(t) == Rank(s) && Todo(t) < Todo(s))
                || (Rank(t) == Rank(s) && Todo(t) == Todo(s) &&
                    (s.drained < t.drained <= |t.queued|
                     || (t.drained == s.drained &&
                         (0 <= Unserved(t) < Unserved(s)
                          || (Unserved(t) == Unserved(s) && 0 <= Unread(t) < Unread(s)))))))
  {
    hide Says, Items, Numbered, WireInv, Resent, CaughtUp, Served, RecordInv;
    if s.phase == Live && s.drained == |s.queued| {
      assert WireInv(Current(s), Taken(s));
    }
  }

  /** However many connections were lost before, one that stays up delivers
      everything: from any reachable state some run ends with nothing waiting
      and, had nothing been refused, every typed message recorded once. */
  lemma {:induction false} CanAlwaysFinish(s: System) returns (steps: seq<Step>)
    requires MessageInv(s)
    ensures Runs(s, steps)
    ensures var t := After(s, steps);
            && t.queued == s.queued && t.unsent == [] && t.drained == |t.queued|
            && (!s.refused ==> t.record == Typed(s))
    decreases Rank(s), Todo(s), |s.queued| - s.drained, Unserved(s), Unread(s)
  {
    hide WireInv, AllWires, RecordInv, Enabled, Apply, Says, Onward, Rank, Todo, Unserved, Unread;
    if Onward(s).None? {
      NothingOnwardIsRest(s);
      steps := [];
    } else {
      OnwardLeads(s);
      StepKeepsMessages(s, Onward(s).value);
      var rest := CanAlwaysFinish(Apply(s, Onward(s).value));
      steps := [Onward(s).value] + rest;
      assert steps[1..] == rest;
    }
  }

  // ----------------------------------------------------- What is watched

  /** What the outbox still holds ends with the open detail, and so does what
      the current connection carries followed by the outbox. */
  ghost predicate WatchInv(s: System) {
    && s.drained <= |s.queued|
    && Watching(s.detail, Outbox(s)) == s.detail
    && (s.phase.Rewatching? ==> Watching(s.phase.open, Outbox(s)) == s.detail)
    && (s.phase == Live ==>
          s.wires != [] && Watching(None, Items(Current(s).session.written) + Outbox(s)) == s.detail)
  }

  lemma {:induction false} SaysWatchNothing(watched: Option<string>, items: seq<Outgoing>)
    requires Says(items) == items
    ensures Watching(watched, items) == watched
  {
    if items != [] {
      var front := items[..|items| - 1];
      assert Says(front) == front && items[|items| - 1].Say? by {
        assert |Says(front)| <= |front|;
        assert Says(items)[..|front|] == front;
      }
      SaysWatchNothing(watched, front);
    }
  }

  lemma {:induction false} LastWatchDecides(a: Option<string>, b: Option<string>, items: seq<Outgoing>)
    ensures Watching(a, items) == Watching(b, items) || (Watching(a, items) == a && Watching(b, items) == b)
  {
    if items != [] {
      LastWatchDecides(a, b, items[..|items| - 1]);
    }
  }

  lemma WatchingLast(watched: Option<string>, items: seq<Outgoing>, item: Outgoing)
    ensures Watching(watched, items + [item]) ==
            if item.Watch? then Some(item.dispatch) else if item.Unwatch? then None else Watching(watched, items)
  {
    assert (items + [item])[..|items|] == items;
  }

  lemma PressKeepsWatch(s: System, item: Outgoing)
    requires WatchInv(s) && Enabled(s, Press(item))
    ensures WatchInv(Apply(s, Press(item)))
  {
    hide Items, Watching;
    var t := Apply(s, Press(item));
    assert Outbox(t) == Outbox(s) + [item];
    WatchingLast(s.detail, [], item);
    assert [] + [item] == [item];
    assert Watching(s.detail, []) == s.detail by { WatchingNothing(s.detail); }
    WatchingLast(t.detail, Outbox(s), item);
    if s.phase.Rewatching? {
      WatchingLast(s.phase.open, Outbox(s), item);
    }
    if s.phase == Live {
      var sent := Items(Current(s).session.written);
      WatchingLast(None, sent + Outbox(s), item);
      assert sent + Outbox(t) == (sent + Outbox(s)) + [item];
    }
  }

  lemma WatchingNothing(watched: Option<string>)
    ensures Watching(watched, []) == watched
  {
  }

  lemma OneTaken(detail: Option<string>, sent: seq<Outgoing>, item: Outgoing, rest: seq<Outgoing>)
    requires Watching(detail, [item] + rest) == detail
    ensures Watching(detail, rest) == detail
    ensures sent + ([item] + rest) == (sent + [item]) + rest
  {
    hide Watching;
    WatchingSplit(detail, [item], rest);
    LastWatchDecides(Watching(detail, [item]), detail, rest);
  }

  lemma TakeKeepsWatch(s: System, fails: bool)
    requires WatchInv(s) && Enabled(s, Take(fails))
    ensures WatchInv(Apply(s, Take(fails)))
  {
    hide Items, Watching;
    var t := Apply(s, Take(fails));
    var item := s.queued[s.drained];
    assert Outbox(s) == [item] + Outbox(t);
    OneTaken(s.detail, Items(Current(s).session.written), item, Outbox(t));
    WroteOne(Current(s), item, Entry(s.drained));
  }

  lemma RewatchKeepsWatch(s: System, fails: bool)
    requires MessageInv(s) && WatchInv(s) && Enabled(s, Rewatch(fails))
    ensures WatchInv(Apply(s, Rewatch(fails)))
  {
    hide Items, Watching, Says, WireInv, AllWires, RecordInv;
    var t := Apply(s, Rewatch(fails));
    var sent := Items(Current(s).session.written);
    SaysWatchNothing(None, sent);
    if s.phase.open.Some? {
      WroteOne(Current(s), Watch(s.phase.open.value), Reopened(s.phase.since));
      WatchingLast(None, sent, Watch(s.phase.open.value));
    }
    if t.phase == Live {
      WatchingSplit(None, Items(Current(t).session.written), Outbox(s));
    }
  }

  lemma StepKeepsWatch(s: System, step: Step)
    requires MessageInv(s) && WatchInv(s) && Enabled(s, step)
    ensures WatchInv(Apply(s, step))
  {
    hide Items, Watching, MessageInv;
    match step
    case Press(item) => PressKeepsWatch(s, item);
    case Take(fails) => TakeKeepsWatch(s, fails);
    case Rewatch(fails) => RewatchKeepsWatch(s, fails);
    case _ =>
  }

  lemma {:induction false} RunKeepsWatch(s: System, steps: seq<Step>)
    requires MessageInv(s) && WatchInv(s) && Runs(s, steps)
    ensures WatchInv(After(s, steps))
    decreases |steps|
  {
    hide MessageInv, WatchInv, Enabled, Apply;
    if steps != [] {
      StepKeepsMessages(s, steps[0]);
      StepKeepsWatch(s, steps[0]);
      RunKeepsWatch(Apply(s, steps[0]), steps[1..]);
    }
  }

  /** Once the outbox is drained on a live connection, the last watch or unwatch
      written on it is the open detail's, whatever happened before. */
  lemma WatchAgreesWithDetail(steps: seq<Step>)
    requires Runs(START, steps)
    requires After(START, steps).phase == Live
    requires After(START, steps).drained == |After(START, steps).queued|
    ensures var s := After(START, steps);
            s.wires != [] && Watching(None, Items(Current(s).session.written)) == s.detail
  {
    hide WireInv, Items;
    var s := After(START, steps);
    RunKeepsWatch(START, steps);
    assert Items(Current(s).session.written) + [] == Items(Current(s).session.written);
  }

  // ------------------------------------------- How often an item is written

  /** An entry's own frame; a message taken before; or the detail that was open
      when `since` items had been put in the outbox. */
  predicate OriginFits(queued: seq<Outgoing>, places: seq<Place>, origin: Origin, at: Place, item: Outgoing) {
    match origin
    case Entry(n) => n < |places| && places[n] == at && n < |queued| && queued[n] == item
    case Again => item.Say? && |places| <= |queued| && item in queued[..|places|]
    case Reopened(since) =>
      item.Watch? && since <= |queued| && Watching(None, queued[..since]) == Some(item.dispatch)
  }

  /** On one connection: kept messages, at most one reopened watch, entries. */
  predicate WellOrdered(origins: seq<Origin>) {
    forall j :: 0 <= j < |origins| && !origins[j].Entry? ==> forall i :: 0 <= i < j ==> origins[i].Again?
  }

  ghost predicate FramesFit(queued: seq<Outgoing>, places: seq<Place>, i: nat, w: Wire) {
    && |w.origins| == |w.session.written|
    && WellOrdered(w.origins)
    && forall j :: 0 <= j < |w.origins| ==>
         OriginFits(queued, places, w.origins[j], Place(i, j), w.session.written[j].item)
  }

  predicate HoldsEntry(wires: seq<Wire>, at: Place, n: nat) {
    at.wire < |wires| && at.frame < |wires[at.wire].origins| && wires[at.wire].origins[at.frame] == Entry(n)
  }

  ghost predicate OriginsInv(s: System) {
    && |s.places| == s.drained <= |s.queued|
    && (forall i :: 0 <= i < |s.wires| ==> FramesFit(s.queued, s.places, i, s.wires[i]))
    && (forall n :: 0 <= n < |s.places| ==> HoldsEntry(s.wires, s.places[n], n))
    && PhaseOrigins(s)
  }

  /** What the open detail comes from, and what a connection carries before it
      takes entries. */
  ghost predicate PhaseOrigins(s: System) {
    && s.detail == Watching(None, s.queued)
    && (s.phase.Rewatching? ==>
          s.phase.since <= |s.queued| && s.phase.open == Watching(None, s.queued[..s.phase.since]))
    && (s.phase.Joining? || s.phase.Resending? || s.phase.Rewatching? ==>
          s.wires != [] && forall j :: 0 <= j < |Current(s).origins| ==> Current(s).origins[j].Again?)
  }

  lemma FramesStillFit(queued: seq<Outgoing>, places: seq<Place>, i: nat, w: Wire,
                       queued': seq<Outgoing>, places': seq<Place>)
    requires FramesFit(queued, places, i, w) && queued <= queued' && places <= places' && |places'| <= |queued'|
    ensures FramesFit(queued', places', i, w)
  {
    hide Watching;
    forall j | 0 <= j < |w.origins|
      ensures OriginFits(queued', places', w.origins[j], Place(i, j), w.session.written[j].item)
    {
      if w.origins[j].Reopened? && w.origins[j].since <= |queued| {
        assert queued'[..w.origins[j].since] == queued[..w.origins[j].since];
      }
      assert OriginFits(queued, places, w.origins[j], Place(i, j), w.session.written[j].item);
    }
  }

  /** Steps that write nothing leave every frame where it was. */
  lemma QuietKeepsOrigins(s: System, t: System)
    requires OriginsInv(s) && s.queued <= t.queued && t.places == s.places && t.drained == s.drained
    requires |s.wires| <= |t.wires|
    requires forall i :: 0 <= i < |t.wires| ==>
               if i < |s.wires| then t.wires[i].origins == s.wires[i].origins
                                     && t.wires[i].session.written == s.wires[i].session.written
               else t.wires[i].origins == [] && t.wires[i].session.written == []
    requires PhaseOrigins(t)
    ensures OriginsInv(t)
  {
    hide Watching;
    forall i | 0 <= i < |t.wires|
      ensures FramesFit(t.queued, t.places, i, t.wires[i])
    {
      if i < |s.wires| {
        FramesStillFit(s.queued, s.places, i, s.wires[i], t.queued, t.places);
      }
    }
    forall n | 0 <= n < |t.places|
      ensures HoldsEntry(t.wires, t.places[n], n)
    {
      assert HoldsEntry(s.wires, s.places[n], n);
    }
  }

  lemma WriteKeepsOrigins(s: System, t: System, item: Outgoing, origin: Origin)
    requires OriginsInv(s) && s.wires != []
    requires t.wires == WriteOn(s, item, origin).wires && t.queued == s.queued
    requires match origin
             case Entry(n) =>
               && n == s.drained < |s.queued| && item == s.queued[n] && t.drained == s.drained + 1
               && t.places == s.places + [Place(|s.wires| - 1, |Current(s).session.written|)]
             case Again =>
               && item.Say? && item in s.queued[..s.drained] && t.drained == s.drained && t.places == s.places
               && forall j :: 0 <= j < |Current(s).origins| ==> Current(s).origins[j].Again?
             case Reopened(since) =>
               && since <= |s.queued| && item.Watch? && Watching(None, s.queued[..since]) == Some(item.dispatch)
               && t.drained == s.drained && t.places == s.places
               && forall j :: 0 <= j < |Current(s).origins| ==> Current(s).origins[j].Again?
    requires PhaseOrigins(t)
    ensures OriginsInv(t)
  {
    hide Watching;
    forall i | 0 <= i < |t.wires|
      ensures FramesFit(t.queued, t.places, i, t.wires[i])
    {
      FramesStillFit(s.queued, s.places, i, s.wires[i], t.queued, t.places);
    }
    forall n | 0 <= n < |t.places|
      ensures HoldsEntry(t.wires, t.places[n], n)
    {
      if n < |s.places| {
        assert HoldsEntry(s.wires, s.places[n], n);
      }
    }
  }

  lemma DetailFollows(s: System, item: Outgoing)
    requires PhaseOrigins(s) && Enabled(s, Press(item))
    ensures PhaseOrigins(Apply(s, Press(item)))
  {
    hide Watching;
    WatchingSplit(None, s.queued, [item]);
    if s.phase.Rewatching? {
      assert (s.queued + [item])[..s.phase.since] == s.queued[..s.phase.since];
    }
    var t := Apply(s, Press(item));
    assert t.phase.Rewatching? ==> t.phase.open == Watching(None, t.queued[..t.phase.since]);
    assert s.wires != [] ==> Current(t) == Current(s);
  }

  lemma StepKeepsPhaseOrigins(s: System, step: Step)
    requires Enabled(s, step) && PhaseOrigins(s)
    ensures PhaseOrigins(Apply(s, step))
  {
    hide Recorded, Watching;
    if step.Press? {
      DetailFollows(s, step.item);
    } else {
      var t := Apply(s, step);
      assert s.queued[..|s.queued|] == s.queued;
      assert t.detail == s.detail && t.queued == s.queued;
      assert t.phase.Rewatching? ==> t.phase.open == Watching(None, t.queued[..t.phase.since]);
      if s.phase.Joining? || s.phase.Resending? || s.phase.Rewatching? {
        assert Current(t).origins == Current(s).origins + if step.Resend? then [Again]
          else if step.Rewatch? && s.phase.open.Some? then [Reopened(s.phase.since)] else [];
      } else if step.Connect? {
        assert Current(t).origins == [];
      }
    }
  }

  lemma StartOrigins()
    ensures OriginsInv(START)
  {
  }

  lemma NextWasTaken(s: System)
    requires MessageInv(s) && s.phase.Resending? && s.phase.todo != []
    ensures s.wires != [] && s.phase.todo[0].Say? && s.phase.todo[0] in s.queued[..s.drained]
  {
    hide Says, Items, WireInv, RecordInv, Recorded;
    var taken, items := Taken(s), Items(Current(s).session.written);
    assert WireInv(Current(s), taken);
    FirstBounded(Current(s), taken);
    assert s.phase.todo[0] == (items + s.phase.todo)[|items|];
    assert s.phase.todo[0] == taken[Current(s).first..][|items|];
    SaysAmong(s.queued[..s.drained], s.phase.todo[0]);
  }

  lemma FirstBounded(w: Wire, taken: seq<Outgoing>)
    requires WireInv(w, taken)
    ensures w.first <= |taken|
  {
  }

  lemma ResendKeepsOrigins(s: System, fails: bool)
    requires MessageInv(s) && Enabled(s, Resend(fails)) && OriginsInv(s)
    requires PhaseOrigins(Apply(s, Resend(fails)))
    ensures OriginsInv(Apply(s, Resend(fails)))
  {
    NextWasTaken(s);
    assert forall j :: 0 <= j < |Current(s).origins| ==> Current(s).origins[j].Again?;
    hide MessageInv, OriginsInv, PhaseOrigins;
    WriteKeepsOrigins(s, Apply(s, Resend(fails)), s.phase.todo[0], Again);
  }

  lemma RewatchKeepsOrigins(s: System, fails: bool)
    requires Enabled(s, Rewatch(fails)) && OriginsInv(s)
    requires PhaseOrigins(Apply(s, Rewatch(fails)))
    ensures OriginsInv(Apply(s, Rewatch(fails)))
  {
    hide Watching;
    var t := Apply(s, Rewatch(fails));
    assert forall j :: 0 <= j < |Current(s).origins| ==> Current(s).origins[j].Again?;
    assert s.phase.since <= |s.queued| && s.phase.open == Watching(None, s.queued[..s.phase.since]);
    hide OriginsInv, PhaseOrigins;
    if s.phase.open.Some? {
      WriteKeepsOrigins(s, t, Watch(s.phase.open.value), Reopened(s.phase.since));
    } else {
      QuietKeepsOrigins(s, t);
    }
  }

  lemma UpHasWire(s: System)
    requires MessageInv(s) && s.phase != Down
    ensures s.wires != []
  {
    hide WireInv, Says, Items, RecordInv, AllWires, DistinctIds;
  }

  lemma TakeKeepsOrigins(s: System, fails: bool)
    requires MessageInv(s) && Enabled(s, Take(fails)) && OriginsInv(s)
    requires PhaseOrigins(Apply(s, Take(fails)))
    ensures OriginsInv(Apply(s, Take(fails)))
  {
    hide MessageInv, PhaseOrigins, FramesFit, HoldsEntry;
    UpHasWire(s);
    assert |s.places| == s.drained;
    hide OriginsInv;
    WriteKeepsOrigins(s, Apply(s, Take(fails)), s.queued[s.drained], Entry(s.drained));
  }

  lemma QuietStepKeepsOrigins(s: System, step: Step)
    requires Enabled(s, step) && OriginsInv(s) && PhaseOrigins(Apply(s, step))
    requires !step.Resend? && !step.Rewatch? && !step.Take?
    ensures OriginsInv(Apply(s, step))
  {
    hide OriginsInv, PhaseOrigins, Recorded, Watching;
    QuietKeepsOrigins(s, Apply(s, step));
  }

  lemma StepKeepsOrigins(s: System, step: Step)
    requires MessageInv(s) && Enabled(s, step) && OriginsInv(s)
    ensures OriginsInv(Apply(s, step))
  {
    StepKeepsPhaseOrigins(s, step);
    hide OriginsInv, PhaseOrigins, MessageInv, Enabled, Apply;
    if step.Resend? {
      ResendKeepsOrigins(s, step.fails);
    } else if step.Rewatch? {
      RewatchKeepsOrigins(s, step.fails);
    } else if step.Take? {
      TakeKeepsOrigins(s, step.fails);
    } else {
      QuietStepKeepsOrigins(s, step);
    }
  }

  lemma {:induction false} RunKeepsOrigins(s: System, steps: seq<Step>)
    requires MessageInv(s) && OriginsInv(s) && Runs(s, steps)
    ensures OriginsInv(After(s, steps))
    decreases |steps|
  {
    hide MessageInv, OriginsInv, Enabled, Apply;
    if steps != [] {
      StepKeepsMessages(s, steps[0]);
      StepKeepsOrigins(s, steps[0]);
      RunKeepsOrigins(Apply(s, steps[0]), steps[1..]);
    }
  }

  /** Over all connections every outbox entry taken is written as itself exactly
      once. Any other frame is a message taken before or the watch of a detail
      that was open; on one connection the former come first, each message only
      once, and then at most one of the latter. */
  lemma EachEntryWrittenOnce(steps: seq<Step>)
    requires Runs(START, steps)
    ensures var s := After(START, steps);
            && |s.places| == s.drained <= |s.queued|
            && (forall n :: 0 <= n < s.drained ==> HoldsEntry(s.wires, s.places[n], n))
            && (forall i, j :: 0 <= i < |s.wires| && 0 <= j < |s.wires[i].origins| ==>
                  |s.wires[i].origins| == |s.wires[i].session.written|
                  && OriginFits(s.queued, s.places, s.wires[i].origins[j], Place(i, j),
                                s.wires[i].session.written[j].item))
            && (forall i :: 0 <= i < |s.wires| ==>
                  && WellOrdered(s.wires[i].origins)
                  && DistinctIds(Says(Items(s.wires[i].session.written))))
  {
    hide WireInv, OriginFits, Watching, Says, Items;
    StartOrigins();
    RunKeepsOrigins(START, steps);
    RunKeepsMessages(START, steps);
    var s := After(START, steps);
    forall i | 0 <= i < |s.wires|
      ensures WellOrdered(s.wires[i].origins) && DistinctIds(Says(Items(s.wires[i].session.written)))
    {
      assert FramesFit(s.queued, s.places, i, s.wires[i]);
      OncePerWire(s, i);
    }
    forall i, j | 0 <= i < |s.wires| && 0 <= j < |s.wires[i].origins|
      ensures |s.wires[i].origins| == |s.wires[i].session.written|
      ensures OriginFits(s.queued, s.places, s.wires[i].origins[j], Place(i, j),
                         s.wires[i].session.written[j].item)
    {
      assert FramesFit(s.queued, s.places, i, s.wires[i]);
    }
  }

  lemma OncePerWire(s: System, i: nat)
    requires MessageInv(s) && i < |s.wires|
    ensures DistinctIds(Says(Items(s.wires[i].session.written)))
  {
    hide Says, Items, RecordInv, PhaseInv;
    assert WireInv(s.wires[i], Taken(s));
    TakenIsPrefix(s);
  }

  /** On every connection of every run references are handed out in increasing
      order, what is pending is exactly what was written and not answered, and
      the n-th reply the client reads is the one to the n-th frame. */
  lemma RepliesSettleTheirOwn(steps: seq<Step>, at: nat)
    requires Runs(START, steps) && at < |After(START, steps).wires|
    ensures var w := After(START, steps).wires[at];
            && w.read <= |w.answers| <= |w.session.written|
            && Increasing(w.session.written)
            && w.session.pending == PendingOf(w.session.written[w.read..])
            && forall n :: 0 <= n < |w.answers| ==> w.answers[n].reference == w.session.written[n].reference
  {
    hide Says, Items;
    RunKeepsMessages(START, steps);
    assert WireInv(After(START, steps).wires[at], Taken(After(START, steps)));
  }

  /** An ok reply to a message means that message is recorded. */
  ghost predicate OkMeansRecorded(s: System) {
    forall i, n :: 0 <= i < |s.wires| && 0 <= n < |s.wires[i].answers| && n < |s.wires[i].session.written|
      && s.wires[i].session.written[n].item.Say? && s.wires[i].answers[n].ok
      ==> Recorded(s.record, s.wires[i].session.written[n].item)
  }

  lemma RecordedStays(record: seq<Outgoing>, more: seq<Outgoing>, o: Outgoing)
    requires Recorded(record, o)
    ensures Recorded(record + more, o)
  {
    var r :| r in record && Id(r) == Id(o);
    assert r in record + more;
  }

  lemma ServeKeepsOk(s: System, at: nat, accept: bool)
    requires OkMeansRecorded(s) && at < |s.wires| && |s.wires[at].answers| < |s.wires[at].session.written|
    ensures OkMeansRecorded(ServeOn(s, at, accept))
  {
    hide Recorded;
    var t := ServeOn(s, at, accept);
    forall i, n | 0 <= i < |t.wires| && 0 <= n < |t.wires[i].answers| && n < |t.wires[i].session.written|
      && t.wires[i].session.written[n].item.Say? && t.wires[i].answers[n].ok
      ensures Recorded(t.record, t.wires[i].session.written[n].item)
    {
      var item := t.wires[i].session.written[n].item;
      if n < |s.wires[i].answers| {
        RecordedStays(s.record, t.record[|s.record|..], item);
      } else {
        RecordedLast(s.record, item);
      }
    }
  }

  lemma StepKeepsOk(s: System, step: Step)
    requires MessageInv(s) && Enabled(s, step) && OkMeansRecorded(s)
    ensures OkMeansRecorded(Apply(s, step))
  {
    hide RecordInv, Says, Items, Numbered, CaughtUp, Resent, PhaseInv, Recorded, DistinctIds, Watching;
    if step.Serve? {
      ServeKeepsOk(s, step.wire, step.accept);
    } else {
      forall i | 0 <= i < |s.wires| ensures |s.wires[i].answers| <= |s.wires[i].session.written| {
        assert WireInv(s.wires[i], Taken(s));
      }
      hide MessageInv, WireInv;
    }
  }

  lemma RecordedLast(record: seq<Outgoing>, o: Outgoing)
    ensures Recorded(record + [o], o)
  {
    assert (record + [o])[|record|] in record + [o];
  }

  lemma {:induction false} RunKeepsOk(s: System, steps: seq<Step>)
    requires MessageInv(s) && OkMeansRecorded(s) && Runs(s, steps)
    ensures OkMeansRecorded(After(s, steps))
    decreases |steps|
  {
    hide MessageInv, OkMeansRecorded, Enabled, Apply;
    if steps != [] {
      StepKeepsMessages(s, steps[0]);
      StepKeepsOk(s, steps[0]);
      RunKeepsOk(Apply(s, steps[0]), steps[1..]);
    }
  }

  lemma AcceptedMessagesAreRecorded(steps: seq<Step>)
    requires Runs(START, steps)
    ensures OkMeansRecorded(After(START, steps))
  {
    hide WireInv;
    RunKeepsOk(START, steps);
  }
}
