/** What a person reads on the screen, kind by kind: the texts of the entries of
    each kind, told from the events of the history and not from how they are
    applied. */
module ScreenTexts {
  import opened Wrappers
  import opened ChatText
  import opened Transcript
  import opened Delivery

  /** The texts of the entries of one kind, in order. */
  function Texts(entries: seq<Entry>, kind: Kind): seq<string> {
    if entries == [] then []
    else
      var last := entries[|entries| - 1];
      Texts(entries[..|entries| - 1], kind) + if last.kind == kind then [last.text] else []
  }

  /** What an event says under a kind. */
  function Says(kind: Kind, e: Event): seq<string> {
    match kind
    case You => if e.HumanMessage? then [Cleaned(e.text)] else []
    case Coordinator => if e.CoordinatorMessage? then [Cleaned(e.text)] else []
    case Tool =>
      if e.ToolCalled? then [TOOL_MARK + CleanedLine(ToolName(e.tool))]
      else if e.ToolReturned? && e.isError then [REFUSED]
      else []
    case Inbox =>
      if e.InboxRecorded? then [CleanedLine(InboxLine(e.dispatch, e.purpose, e.title, e.worker, e.state))] else []
    case Handoff => if e.HandoffReceived? then [CarriedOver(e.facts, e.note, e.noteStatus)] else []
    case Notice =>
      if e.TurnEnded? then match TurnLine(e.status, e.why) case Some(line) => [line] case None => []
      else if e.TurnHeld? then [HeldLine(e.why, e.until)]
      else if e.HandoffRequested? then [if e.withNote then WITH_NOTE else FACTS_ONLY]
      else if e.HandedOff? then [HANDED_OFF]
      else []
  }

  /** What one item says under a kind: the client's own entry, or an event, but
      for a coordinator's message that a handoff carried over. */
  ghost function OneSays(h: seq<Item>, i: nat, kind: Kind): seq<string>
    requires i < |h|
  {
    match h[i]
    case Local(entry) => if entry.kind == kind then [entry.text] else []
    case Got(_, e) => if Carried(h, i) then [] else Says(kind, e)
  }

  /** What the first `n` items of a history say under a kind. */
  ghost function Said(h: seq<Item>, n: nat, kind: Kind): seq<string>
    requires n <= |h|
  {
    if n == 0 then [] else Said(h, n - 1, kind) + OneSays(h, n - 1, kind)
  }

  lemma TextsLast(entries: seq<Entry>, entry: Entry, kind: Kind)
    ensures Texts(entries + [entry], kind) == Texts(entries, kind) + if entry.kind == kind then [entry.text] else []
  {
    assert (entries + [entry])[..|entries|] == entries;
  }

  /** An event's own entry is what it says, under the one kind that it has. */
  lemma ShowsWhatItSays(e: Event, kind: Kind)
    ensures Says(kind, e) == match Shows(e)
                             case None => []
                             case Some(entry) => if entry.kind == kind then [entry.text] else []
  {
    hide Cleaned, CleanedLine, ToolName, TurnLine, HeldLine, CarriedOver, InboxLine;
  }

  lemma SaidNext(h: seq<Item>, n: nat, kind: Kind)
    requires 0 < n <= |h|
    ensures Said(h, n, kind) == Said(h, n - 1, kind) + OneSays(h, n - 1, kind)
  {
    hide Carried, Says;
  }

  lemma NothingYet(h: seq<Item>, kind: Kind)
    ensures Said(h, 0, kind) == [] && Displayed(h, 0) == [] && Texts([], kind) == []
  {
  }

  lemma {:induction false} DisplayedSays(h: seq<Item>, n: nat, kind: Kind)
    requires n <= |h|
    ensures Texts(Displayed(h, n), kind) == Said(h, n, kind)
  {
    hide *;
    if n == 0 {
      NothingYet(h, kind);
    } else {
      DisplayedSays(h, n - 1, kind);
      DisplayedNext(h, n);
      SaidNext(h, n, kind);
      OneItemSays(h, n - 1, kind);
      AddsEntry(Displayed(h, n - 1), if Carried(h, n - 1) then None else Entries(h[n - 1]), kind);
    }
  }

  lemma AddsEntry(entries: seq<Entry>, entry: Option<Entry>, kind: Kind)
    ensures Texts(if entry.Some? then entries + [entry.value] else entries, kind)
            == Texts(entries, kind)
               + match entry case None => [] case Some(e) => if e.kind == kind then [e.text] else []
  {
    hide Texts;
    if entry.Some? {
      TextsLast(entries, entry.value, kind);
    }
  }

  lemma OneItemSays(h: seq<Item>, i: nat, kind: Kind)
    requires i < |h|
    ensures OneSays(h, i, kind)
            == match if Carried(h, i) then None else Entries(h[i])
               case None => []
               case Some(entry) => if entry.kind == kind then [entry.text] else []
  {
    hide Shows, Says;
    if h[i].Got? {
      ShowsWhatItSays(h[i].event, kind);
    } else {
      assert !Carried(h, i);
    }
  }

  /** Under each kind the screen shows, in order, exactly what the events and the
      client itself said. */
  lemma ScreenSays(h: seq<Item>, kind: Kind)
    requires OwnNotices(h)
    ensures Texts(Replay(h).entries, kind) == Said(h, |h|, kind)
  {
    hide Displayed, Replay, Said, Texts;
    ScreenDisplaysHistory(h);
    DisplayedSays(h, |h|, kind);
  }

  /** So in every run, whatever is lost or repeated: what a person wrote, what the
      coordinator answered, and all else, is on the screen once and in order. */
  lemma EveryRunSays(name: string, steps: seq<Step>, kind: Kind)
    requires Plain(name) && Runs(Delivery.Start(name), steps)
    ensures var n := After(Delivery.Start(name), steps);
            Texts(n.view.entries, kind) == Said(n.history, |n.history|, kind)
  {
    hide Displayed, Said, Texts, Runs, After;
    ScreenIsTheHistory(name, steps);
    var n := After(Delivery.Start(name), steps);
    DisplayedSays(n.history, |n.history|, kind);
  }

  /** What is kept of who is coordinating. */
  ghost predicate LastOpened(h: seq<Item>, i: nat) {
    && i < |h| && h[i].Got? && h[i].event.Opened?
    && forall j :: i < j < |h| ==> h[j].Got? ==> !h[j].event.Opened?
  }

  lemma {:induction false} CoordinatorIsTheLastOpened(h: seq<Item>, i: nat)
    requires LastOpened(h, i)
    ensures Replay(h).coordinator == Some(CleanedLine(h[i].event.provider + ":" + h[i].event.model))
  {
    hide CleanedLine, Shows, WithoutNote;
    var front := h[..|h| - 1];
    if i < |h| - 1 {
      CoordinatorIsTheLastOpened(front, i);
    }
  }

  /** A join that names another conversation than the one shown says so, once,
      and has it numbered from its start; any other join adds nothing. */
  lemma RejoinTells(v: View, id: string, kind: Kind)
    ensures var w, another := Rejoin(v, id), v.conversation.Some? && v.conversation.value != CleanedLine(id);
            && w.conversation == Some(CleanedLine(id))
            && w.last == (if another then 0 else v.last)
            && w.noteStart == v.noteStart && w.coordinator == v.coordinator
            && Texts(w.entries, kind) == Texts(v.entries, kind) + if another && kind == Notice then [AWAY] else []
  {
    hide CleanedLine, Texts;
    TextsLast(v.entries, Entry(Notice, AWAY), kind);
    assert Texts(v.entries, kind) + [] == Texts(v.entries, kind);
  }

  // ------------------------------------------------------------- The texts

  predicate Splits(text: string, before: string, part: string, rest: string) { text == before + part + rest }

  /** The parts occur in the text, one behind the other. */
  ghost predicate InOrder(text: string, parts: seq<string>)
    decreases |parts|
  {
    parts == [] || exists before, rest :: Splits(text, before, parts[0], rest) && InOrder(rest, parts[1..])
  }

  lemma OneMorePart(before: string, part: string, rest: string, parts: seq<string>)
    requires InOrder(rest, parts)
    ensures InOrder(before + part + rest, [part] + parts)
  {
    var all := [part] + parts;
    assert Splits(before + part + rest, before, all[0], rest);
    assert all[1..] == parts;
  }

  lemma Holds(before: string, part: string, rest: string)
    ensures InOrder(before + part + rest, [part])
  {
    OneMorePart(before, part, rest, []);
    assert [part] + [] == [part];
  }

  /** What a handoff carried over: the facts, and behind them the note, or why
      there is none. */
  lemma CarriedOverHolds(facts: string, note: Option<string>, noteStatus: string)
    ensures InOrder(CarriedOver(facts, note, noteStatus),
                    [Cleaned(facts), if note.Some? then Cleaned(note.value) else CleanedLine(noteStatus)])
  {
    hide Cleaned, CleanedLine, InOrder;
    if note.Some? {
      TwoParts(CarriedOver(facts, note, noteStatus), CARRIED, Cleaned(facts),
               "\n\n" + "The previous coordinator's note:\n", Cleaned(note.value), "");
    } else {
      TwoParts(CarriedOver(facts, note, noteStatus), CARRIED, Cleaned(facts),
               "\n\n" + "The previous coordinator wrote no note (", CleanedLine(noteStatus), ").");
    }
  }

  lemma TwoParts(text: string, before: string, first: string, between: string, second: string, behind: string)
    requires text == before + first + (between + second + behind)
    ensures InOrder(text, [first, second])
  {
    hide InOrder;
    Holds(between, second, behind);
    OneMorePart(before, first, between + second + behind, [second]);
    assert [first] + [second] == [first, second];
  }

  /** An inbox entry names its dispatch, what it is for, its title, where it runs
      and its state, in that order. */
  lemma InboxLineHolds(dispatch: string, purpose: string, title: string, worker: string, state: string)
    ensures InOrder(InboxLine(dispatch, purpose, title, worker, state),
                    [Short(dispatch), purpose, title, worker, state])
  {
    hide InOrder, Short;
    var parts := [Short(dispatch), purpose, title, worker, state];
    Holds(" is now ", state, "");
    OneMorePart("\" on ", worker, " is now " + state + "", [state]);
    var third := "\" on " + worker + (" is now " + state + "");
    OneMorePart(" \"", title, third, [worker] + [state]);
    var second := " \"" + title + third;
    OneMorePart(" ", purpose, second, [title] + ([worker] + [state]));
    var first := " " + purpose + second;
    OneMorePart("\U{25C6} ", Short(dispatch), first, [purpose] + ([title] + ([worker] + [state])));
    assert parts == [Short(dispatch)] + ([purpose] + ([title] + ([worker] + [state])));
    assert InboxLine(dispatch, purpose, title, worker, state) == "\U{25C6} " + Short(dispatch) + first;
  }

  /** Only a completed turn passes without a word; otherwise the line tells how
      the turn ended and why. */
  lemma TurnLineTells(status: string, why: string)
    ensures TurnLine(status, why).None? <==> status == "completed"
    ensures status == "interrupted" ==> InOrder(TurnLine(status, why).value, ["interrupted"])
    ensures status == "failed" ==> InOrder(TurnLine(status, why).value, ["failed"])
    ensures status == "uncertain" ==> InOrder(TurnLine(status, why).value, ["was not seen"])
    ensures status == "unsent" ==> InOrder(TurnLine(status, why).value, ["was not sent"])
    ensures status !in ["completed", "interrupted", "failed", "uncertain", "unsent"] ==>
              InOrder(TurnLine(status, why).value, [CleanedLine(status)])
    ensures status !in ["completed", "interrupted"] && why != "" ==>
              InOrder(TurnLine(status, why).value, [CleanedLine(why)])
  {
    hide InOrder, TurnLine, CleanedLine;
    LineUnlessCompleted(status, why);
    InterruptedTells(why);
    FailedTells(why);
    UncertainTells(why);
    UnsentTells(why);
    if status !in ["completed", "interrupted", "failed", "uncertain", "unsent"] {
      OtherTells(status, why);
    }
  }

  lemma LineUnlessCompleted(status: string, why: string)
    ensures TurnLine(status, why).None? <==> status == "completed"
  {
    hide CleanedLine;
  }

  function Because(why: string): string { if why == "" then "" else " (" + CleanedLine(why) + ")" }

  lemma InterruptedTells(why: string)
    ensures InOrder(TurnLine("interrupted", why).value, ["interrupted"])
  {
    hide CleanedLine, InOrder;
    Holds("The turn was ", "interrupted", ".");
    assert "The turn was " + "interrupted" + "." == "The turn was interrupted.";
  }

  lemma FailedTells(why: string)
    ensures InOrder(TurnLine("failed", why).value, ["failed"])
    ensures why != "" ==> InOrder(TurnLine("failed", why).value, [CleanedLine(why)])
  {
    hide CleanedLine, InOrder;
    TellsWhy("The turn failed", why, ".");
    assert "The turn failed" == "The turn " + "failed";
    Tells("The turn ", "failed", Because(why), ".");
  }

  lemma UncertainTells(why: string)
    ensures InOrder(TurnLine("uncertain", why).value, ["was not seen"])
    ensures why != "" ==> InOrder(TurnLine("uncertain", why).value, [CleanedLine(why)])
  {
    hide CleanedLine, InOrder;
    var before, behind :=
      "The turn's end was not seen", "; it may have reached the coordinator and is not sent again.";
    TellsWhy(before, why, behind);
    assert before == "The turn's end " + "was not seen";
    Tells("The turn's end ", "was not seen", Because(why), behind);
  }

  lemma UnsentTells(why: string)
    ensures InOrder(TurnLine("unsent", why).value, ["was not sent"])
    ensures why != "" ==> InOrder(TurnLine("unsent", why).value, [CleanedLine(why)])
  {
    hide CleanedLine, InOrder;
    TellsWhy("The turn was not sent", why, "; send the message again.");
    assert "The turn was not sent" == "The turn " + "was not sent";
    Tells("The turn ", "was not sent", Because(why), "; send the message again.");
  }

  lemma OtherTells(status: string, why: string)
    requires status !in ["completed", "interrupted", "failed", "uncertain", "unsent"]
    ensures InOrder(TurnLine(status, why).value, [CleanedLine(status)])
    ensures why != "" ==> InOrder(TurnLine(status, why).value, [CleanedLine(why)])
  {
    hide CleanedLine, InOrder;
    TellsWhy("The turn ended: " + CleanedLine(status), why, ".");
    Tells("The turn ended: ", CleanedLine(status), Because(why), ".");
  }

  lemma Tells(before: string, part: string, more: string, behind: string)
    ensures InOrder(before + part + more + behind, [part])
  {
    hide InOrder;
    Holds(before, part, more + behind);
    assert before + part + (more + behind) == before + part + more + behind;
  }

  lemma TellsWhy(before: string, why: string, behind: string)
    ensures why != "" ==> InOrder(before + Because(why) + behind, [CleanedLine(why)])
  {
    hide CleanedLine, InOrder;
    Holds(before + " (", CleanedLine(why), ")" + behind);
    assert (before + " (") + CleanedLine(why) + (")" + behind) == before + (" (" + CleanedLine(why) + ")") + behind;
  }

  /** A held turn says what it waits for, and until when, if that is known. */
  lemma HeldLineTells(why: string, until: Option<string>)
    ensures InOrder(HeldLine(why, until), [HeldBecause(why)])
    ensures until.Some? ==> InOrder(HeldLine(why, until), [HeldBecause(why), CleanedLine(until.value)])
    ensures why !in ["no_grant", "turns_exhausted", "context_limit_reached", "input_too_large"] ==>
              HeldBecause(why) == CleanedLine(why)
  {
    hide InOrder, CleanedLine, HeldBecause;
    HeldForAnother(why);
    if until.Some? {
      TwoParts(HeldLine(why, until), "Waiting: ", HeldBecause(why), ", until ", CleanedLine(until.value), ".");
      Tells("Waiting: ", HeldBecause(why), ", until " + CleanedLine(until.value), ".");
    } else {
      Holds("Waiting: ", HeldBecause(why), ".");
      assert HeldLine(why, until) == "Waiting: " + HeldBecause(why) + ".";
    }
  }

  lemma HeldForAnother(why: string)
    ensures why !in ["no_grant", "turns_exhausted", "context_limit_reached", "input_too_large"] ==>
              HeldBecause(why) == CleanedLine(why)
  {
    hide CleanedLine;
  }

  /** A tool is called by what follows the last "__" of its name, if any. */
  lemma ToolNameIsLast(tool: string)
    ensures var name := ToolName(tool);
            && (name == tool ==> forall i :: 0 <= i < |tool| - 1 ==> !(tool[i] == '_' && tool[i + 1] == '_'))
            && (name != tool ==>
                  var at := |tool| - |name|;
                  && 2 <= at <= |tool| && tool[at - 2] == '_' && tool[at - 1] == '_' && name == tool[at..]
                  && forall i :: at - 1 <= i < |tool| - 1 ==> !(tool[i] == '_' && tool[i + 1] == '_'))
  {
    AfterMarkIsLast(tool, |tool|);
  }

  lemma {:induction false} AfterMarkIsLast(tool: string, n: nat)
    requires n <= |tool|
    requires forall i :: n <= i < |tool| - 1 ==> !(tool[i] == '_' && tool[i + 1] == '_')
    ensures var name := AfterMark(tool, n);
            && (name == tool ==> forall i :: 0 <= i < |tool| - 1 ==> !(tool[i] == '_' && tool[i + 1] == '_'))
            && (name != tool ==>
                  var at := |tool| - |name|;
                  && 2 <= at <= |tool| && tool[at - 2] == '_' && tool[at - 1] == '_' && name == tool[at..]
                  && forall i :: at - 1 <= i < |tool| - 1 ==> !(tool[i] == '_' && tool[i + 1] == '_'))
  {
    if n > 0 && !(n + 1 <= |tool| && tool[n - 1] == '_' && tool[n] == '_') {
      AfterMarkIsLast(tool, n - 1);
    }
  }
}
