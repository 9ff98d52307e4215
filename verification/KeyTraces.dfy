/** What holds over every run of keys, pastes, pushes and connection changes. */
module KeyTraces {
  import opened Wrappers
  import opened ChatConnection
  import opened InputLine
  import opened ChatKeys
  import ChatText

  // ------------------------------------------------------------------- Runs

  lemma ReactKeepsSound(v: View, event: Event)
    requires Sound(v.line)
    ensures Sound(React(v, event).view.line)
  {
    hide Popped, PressPopup, PressAgents, PressTab, PressLine, PressMenu, SlashMatches;
  }

  /** The screen after the first `n` events. */
  ghost function At(events: seq<Event>, n: nat): (v: View)
    requires n <= |events|
    ensures Sound(v.line)
  {
    if n == 0 then OPENED
    else
      ReactKeepsSound(At(events, n - 1), events[n - 1]);
      React(At(events, n - 1), events[n - 1]).view
  }

  /** What the n-th event put in the outbox. */
  ghost function SentAt(events: seq<Event>, n: nat): seq<Outgoing>
    requires n < |events|
  {
    React(At(events, n), events[n]).sent
  }

  ghost predicate Inv(v: View) {
    && !(v.start.Some? && v.confirm.Some?)
    && (v.help ==> v.denial.None? && v.retire.None? && v.start.None? && v.confirm.None? && v.detail.None?)
    && (v.denial.Some? ==> v.denial.value.ask.id !in v.answered && |v.denial.value.reason| <= REASON_LIMIT)
  }

  lemma AsksKeepInv(v: View, key: Key)
    requires Inv(v) && !v.help && TakenByAsks(v, key)
    ensures Inv(PressAsks(v, key).view)
  {
    hide Trim, CurrentAsk;
  }

  lemma QuestionKeepsInv(v: View, key: Key)
    requires Inv(v) && !v.help && Questioned(v)
    ensures Inv(PressQuestion(v, key).view)
  {
  }

  lemma DetailKeepsInv(v: View, key: Key)
    requires Inv(v) && !v.help && v.detail.Some? && v.start.None? && v.confirm.None?
    ensures Inv(PressDetail(v, key).view)
  {
    hide Found, Cancellable;
  }

  lemma PopupKeepsInv(v: View, key: Key)
    requires Inv(v) && !v.help && Popped(v, key)
    ensures Inv(PressPopup(v, key).view)
  {
    hide Inv, PressAsks, PressQuestion, PressDetail, TakenByAsks;
    if TakenByAsks(v, key) {
      AsksKeepInv(v, key);
    } else if Questioned(v) {
      QuestionKeepsInv(v, key);
    } else {
      DetailKeepsInv(v, key);
    }
  }

  lemma AgentsKeepInv(v: View, key: Key)
    requires Inv(v) && !v.help && !Popped(v, key)
    ensures Inv(PressAgents(v, key).view)
  {
    hide Selected, Found;
  }

  lemma PlainKeepsInv(v: View, key: Key, newId: Option<string>)
    requires Inv(v) && !v.help && Sound(v.line) && !Popped(v, key)
    ensures Inv(PressPlain(v, key, newId).view)
  {
    hide PressInput, PressAgents, Shown;
    if v.agentsFocus {
      AgentsKeepInv(v, key);
    }
  }

  lemma StepKeepsInv(v: View, event: Event)
    requires Inv(v) && Sound(v.line)
    ensures Inv(React(v, event).view)
  {
    hide PressPopup, PressPlain, Popped;
    if event.Pressed? && !v.help && !Leaves(event.key) {
      if Popped(v, event.key) {
        PopupKeepsInv(v, event.key);
      } else {
        PlainKeepsInv(v, event.key, event.newId);
      }
    }
  }

  lemma {:induction false} InvAlways(events: seq<Event>, n: nat)
    requires n <= |events|
    ensures Inv(At(events, n))
  {
    hide Inv, React;
    if n == 0 {
      InvAtStart();
    } else {
      InvAlways(events, n - 1);
      StepKeepsInv(At(events, n - 1), events[n - 1]);
    }
  }

  lemma InvAtStart()
    ensures Inv(OPENED)
  {
  }

  // ----------------------------------------- The popup on top takes the next key

  /** With help closed, the two separately written orders agree; and they are
      sure to only because start and cancel are never both in question. */
  lemma OrdersAgree(v: View)
    ensures Inv(v) && !v.help ==> Drawn(v) == Listening(v)
    ensures Inv(v) && v.help ==> (Drawn(v) == Helping <==> v.lessons == [] && Shown(v).None?)
    ensures !v.help ==>
              (Drawn(v) == Listening(v)
               <==> !(v.start.Some? && v.confirm.Some? && v.denial.None? && Shown(v).None? && v.retire.None?
                      && v.lessons == []))
  {
    hide SlashMatches, CurrentAsk;
  }

  /** So in every reachable state the popup on top is the one that listens. */
  lemma TopmostTakesTheKey(events: seq<Event>, n: nat)
    requires n <= |events|
    ensures !At(events, n).help ==> Drawn(At(events, n)) == Listening(At(events, n))
    ensures At(events, n).help ==>
              (Drawn(At(events, n)) == Helping <==> At(events, n).lessons == [] && Shown(At(events, n)).None?)
  {
    hide At, React, Drawn, Listening, Inv;
    InvAlways(events, n);
    OrdersAgree(At(events, n));
  }

  /** What the layer that listens does is all a key does, but for Ctrl+C and
      for `A` while asks are put off. */
  lemma ListeningTakesTheKey(v: View, key: Key, newId: Option<string>)
    requires Sound(v.line) && !Leaves(key) && !Recalls(v, key)
    ensures Press(v, key, newId) ==
            match Listening(v)
            case Denying => PressDenial(v, key)
            case Asking => PressAsk(v, key)
            case Retiring => PressRetire(v, key)
            case NewLesson => PressLesson(v, key)
            case Starting => PressStart(v, key)
            case Cancelling => PressConfirm(v, key)
            case InDetail => PressDetail(v, key)
            case Agents => PressAgents(v, key)
            case Menu => PressMenu(v, key, newId)
            case _ => if key.code == Tab then PressTab(v) else PressLine(v, key, newId)
  {
    hide PressDenial, PressAsk, PressRetire, PressLesson, PressStart, PressConfirm, PressDetail, PressAgents,
         PressMenu, PressTab, PressLine, SlashMatches;
  }

  const ENTER: Event := Pressed(Key(Enter, false, false, false), None)
  const LESSON: Lesson := Lesson("L1", "")
  const HIDDEN: seq<Event> :=
    [StatePush(Push([], [], None)), Pasted("/help"), ENTER, StatePush(Push([], [LESSON], None))]

  lemma PastesHelp(v: View)
    requires v == Pushed(OPENED, Push([], [], None))
    ensures React(v, Pasted("/help")).view == v.(line := Line("/help", 5))
  {
    hide Pushed, ChatText.Cleaned;
    PushIs(OPENED, Push([], [], None));
    assert v.line == Line("", 0) by { KeepsLine(OPENED, Push([], [], None)); }
    ChatText.ShownTextIsUnchanged("/help");
    assert "" + "/help" + "" == "/help";
  }

  lemma KeepsLine(v: View, push: Push)
    ensures Pushed(v, push).line == v.line
  {
  }

  lemma OnlyHelp()
    ensures SlashMatches("/help") != [] && forall name :: name in SlashMatches("/help") ==> name == "/help"
    ensures Named("/help") == Help
  {
    hide SlashMatches;
    MenuOffersCommands("/help", "/help");
    NamedCommand(0);
    forall name | name in SlashMatches("/help") ensures name == "/help" {
      MenuOffersCommands("/help", name);
      assert name[..3] == "/help"[..3] && name[1] == 'h' && name[2] == 'e';
    }
  }

  lemma EnterRuns(v: View, name: string)
    requires Sound(v.line) && name != "" && Named(name) == Help
    requires SlashMatches(v.line.text) != [] && forall other :: other in SlashMatches(v.line.text) ==> other == name
    ensures PressMenu(v, ENTER.key, None).view == v.(help := true, line := Line("", 0), slash := 0)
  {
    hide SlashMatches, Named, Edited, Above, Below;
    var matches := SlashMatches(v.line.text);
    assert matches[Min(v.slash, |matches| - 1)] in matches;
    EnterEmpties(Line(name, |name|));
  }

  lemma EnterRunsHelp(v: View)
    requires v.line == Line("/help", 5) && !v.help && !v.agentsFocus && !Popped(v, ENTER.key)
    ensures React(v, ENTER).view == v.(help := true, line := Line("", 0), slash := 0)
  {
    hide SlashMatches, Popped, PressMenu;
    OnlyHelp();
    EnterRuns(v, "/help");
  }

  lemma EnterEmpties(line: Line)
    requires Sound(line)
    ensures Edited(line, ENTER.key) == Line("", 0)
  {
  }

  lemma HelpOpens(v: View)
    requires v == Pushed(OPENED, Push([], [], None))
    ensures Sound(React(v, Pasted("/help")).view.line)
    ensures var w := React(React(v, Pasted("/help")).view, ENTER).view;
            && Sound(w.line) && w.help && w.loaded && w.seen == {} && w.lessons == []
            && Shown(w).None? && w.denial.None? && w.retire.None?
  {
    hide React;
    PastesHelp(v);
    EnterRunsHelp(v.(line := Line("/help", 5)));
  }

  /** With help open they may not: a lesson that comes then is drawn on top, and
      the key meant for it only closes help. */
  lemma LessonOverHelp(key: Key, newId: Option<string>)
    ensures var v := At(HIDDEN, 4);
            && v.help && Drawn(v) == NewLesson && v.lessons == [LESSON]
            && React(v, Pressed(key, newId)) == Quiet(v.(help := false))
  {
    hide React, Pushed, Drawn;
    var v := Pushed(OPENED, Push([], [], None));
    assert At(HIDDEN, 0) == OPENED;
    KeepsLine(OPENED, Push([], [], None));
    PushIs(OPENED, Push([], [], None));
    assert At(HIDDEN, 1) == v;
    HelpOpens(v);
    var w := React(React(v, Pasted("/help")).view, ENTER).view;
    assert At(HIDDEN, 2) == React(v, Pasted("/help")).view;
    assert At(HIDDEN, 3) == w;
    PushIs(w, Push([], [LESSON], None));
    assert At(HIDDEN, 4) == Pushed(w, Push([], [LESSON], None));
    LessonPops(w, key, newId);
  }

  lemma PushIs(v: View, push: Push)
    requires Sound(v.line)
    ensures React(v, StatePush(push)) == Quiet(Pushed(v, push))
  {
  }

  lemma LessonPops(w: View, key: Key, newId: Option<string>)
    requires w.help && w.loaded && w.seen == {} && w.lessons == [] && Sound(w.line)
    requires Shown(w).None? && w.denial.None? && w.retire.None?
    ensures var v := Pushed(w, Push([], [LESSON], None));
            && v.help && Drawn(v) == NewLesson && v.lessons == [LESSON]
            && React(v, Pressed(key, newId)) == Quiet(v.(help := false))
  {
    assert [LESSON][..0] == [];
    assert PoppedUp([LESSON], {}) == [LESSON];
    assert [] + [LESSON] == [LESSON];
  }

  // --------------------------------------- One event, one item, one open detail

  function OpenDetail(v: View): Option<string> { if v.detail.None? then None else Some(v.detail.value.id) }

  /** An event puts at most one item in the outbox, and the open detail changes
      exactly as the item says. */
  lemma OneItemAtATime(v: View, event: Event)
    requires Sound(v.line)
    ensures var r := React(v, event);
            && |r.sent| <= 1
            && OpenDetail(r.view) == Watching(OpenDetail(v), r.sent)
  {
    hide PressPopup, PressPlain, Popped, SlashMatches;
    if event.Pressed? && !v.help && !Leaves(event.key) {
      if Popped(v, event.key) {
        OneItemFromPopup(v, event.key);
      } else {
        OneItemFromPlain(v, event.key, event.newId);
      }
    }
  }

  ghost predicate OneItem(v: View, r: Reaction) {
    |r.sent| <= 1 && OpenDetail(r.view) == Watching(OpenDetail(v), r.sent)
  }

  lemma WatchesNoMore(watched: Option<string>, sent: seq<Outgoing>)
    requires |sent| <= 1 && forall item :: item in sent ==> !item.Watch? && !item.Unwatch?
    ensures Watching(watched, sent) == watched
  {
    if sent != [] {
      assert sent[0] in sent && sent[..0] == [];
    }
  }

  lemma OneItemFromAsks(v: View, key: Key)
    requires TakenByAsks(v, key)
    ensures OneItem(v, PressAsks(v, key))
  {
    hide Trim, CurrentAsk;
    WatchesNoMore(OpenDetail(v), PressAsks(v, key).sent);
  }

  lemma OneItemFromQuestion(v: View, key: Key)
    requires Questioned(v)
    ensures OneItem(v, PressQuestion(v, key))
  {
  }

  lemma OneItemFromDetail(v: View, key: Key)
    requires v.detail.Some?
    ensures OneItem(v, PressDetail(v, key))
  {
  }

  lemma OneItemFromPopup(v: View, key: Key)
    requires Popped(v, key)
    ensures OneItem(v, PressPopup(v, key))
  {
    hide OneItem, TakenByAsks, Questioned, PressAsks, PressQuestion, PressDetail;
    if TakenByAsks(v, key) {
      OneItemFromAsks(v, key);
    } else if Questioned(v) {
      OneItemFromQuestion(v, key);
    } else {
      OneItemFromDetail(v, key);
    }
  }

  lemma OneItemFromAgents(v: View, key: Key)
    ensures OneItem(v, PressAgents(v, key))
  {
    hide Selected, Found;
  }

  lemma OneItemFromPlain(v: View, key: Key, newId: Option<string>)
    requires Sound(v.line)
    ensures OneItem(v, PressPlain(v, key, newId))
  {
    hide Edited, SlashMatches, Named, PressAgents;
    if v.agentsFocus {
      OneItemFromAgents(v, key);
    } else {
      WatchesNoMore(OpenDetail(v), PressInput(v, key, newId).sent);
    }
  }

  // ------------------------------------------------------------ Cancel and start

  predicate IsKey(event: Event, c: char) { event.Pressed? && event.key.code == Char(c) }

  /** `d`, listed and cancellable, was put in question by `c` at event `j`, and
      has been in question ever since. */
  ghost predicate CancelAsked(events: seq<Event>, j: nat, n: nat, d: Dispatch) {
    && j < n <= |events|
    && IsKey(events[j], 'c') && At(events, j).confirm.None?
    && d in At(events, j).dispatches && Cancellable(d.state)
    && forall k: nat :: j < k <= n ==> At(events, k).confirm == Some(d)
  }

  /** `d`, listed and held, was put in question by `s` at event `j`. */
  ghost predicate StartAsked(events: seq<Event>, j: nat, n: nat, d: Dispatch) {
    && j < n <= |events|
    && IsKey(events[j], 's') && At(events, j).start.None?
    && d in At(events, j).dispatches && d.state == "held"
    && forall k: nat :: j < k <= n ==> At(events, k).start == Some(d)
  }

  /** `lesson` was on top at event `j`, and `r` put its retiring in question. */
  ghost predicate RetireAsked(events: seq<Event>, j: nat, n: nat, lesson: Lesson) {
    && j < n <= |events|
    && IsKey(events[j], 'r') && At(events, j).retire.None?
    && At(events, j).lessons != [] && lesson == At(events, j).lessons[0] && Drawn(At(events, j)) == NewLesson
    && forall k: nat :: j < k <= n ==> At(events, k).retire == Some(lesson)
  }

  /** The three questions: kept, gone, or asked anew by the right key. */
  ghost predicate QuestionMoves(v: View, event: Event, w: View) {
    && (w.confirm == v.confirm || w.confirm.None?
        || (v.confirm.None? && IsKey(event, 'c') && w.confirm.value in v.dispatches
            && Cancellable(w.confirm.value.state)))
    && (w.start == v.start || w.start.None?
        || (v.start.None? && IsKey(event, 's') && w.start.value in v.dispatches && w.start.value.state == "held"))
    && (w.retire == v.retire || w.retire.None?
        || (v.retire.None? && IsKey(event, 'r') && v.lessons != [] && w.retire.value == v.lessons[0]
            && Drawn(v) == NewLesson))
  }

  lemma QuestionMovesItself(v: View, key: Key, newId: Option<string>)
    requires Questioned(v) && v.denial.None? && Shown(v).None?
    ensures QuestionMoves(v, Pressed(key, newId), PressQuestion(v, key).view)
  {
    hide Shown;
  }

  lemma DetailMovesQuestions(v: View, key: Key, newId: Option<string>)
    requires v.detail.Some? && !Questioned(v)
    ensures QuestionMoves(v, Pressed(key, newId), PressDetail(v, key).view)
  {
    hide Drawn;
  }

  lemma PopupMovesQuestions(v: View, key: Key, newId: Option<string>)
    requires Popped(v, key)
    ensures QuestionMoves(v, Pressed(key, newId), PressPopup(v, key).view)
  {
    hide PressAsks, PressQuestion, PressDetail, Drawn, Recalls, Shown;
    if !TakenByAsks(v, key) {
      hide QuestionMoves;
      if Questioned(v) {
        QuestionMovesItself(v, key, newId);
      } else {
        DetailMovesQuestions(v, key, newId);
      }
    }
  }

  lemma AgentsMoveQuestions(v: View, key: Key, newId: Option<string>)
    requires !Popped(v, key)
    ensures QuestionMoves(v, Pressed(key, newId), PressAgents(v, key).view)
  {
    hide Selected, Drawn;
  }

  lemma PlainMovesQuestions(v: View, key: Key, newId: Option<string>)
    requires Sound(v.line) && !Popped(v, key)
    ensures QuestionMoves(v, Pressed(key, newId), PressPlain(v, key, newId).view)
  {
    hide PressInput, PressAgents, Drawn;
    if v.agentsFocus {
      hide QuestionMoves;
      AgentsMoveQuestions(v, key, newId);
    }
  }

  lemma StepMovesQuestions(v: View, event: Event)
    requires Inv(v) && Sound(v.line)
    ensures QuestionMoves(v, event, React(v, event).view)
  {
    hide PressPopup, PressPlain, Popped;
    if event.Pressed? && !v.help && !Leaves(event.key) {
      hide QuestionMoves;
      if Popped(v, event.key) {
        PopupMovesQuestions(v, event.key, event.newId);
      } else {
        PlainMovesQuestions(v, event.key, event.newId);
      }
    }
  }

  lemma MovesAt(events: seq<Event>, n: nat)
    requires n < |events|
    ensures QuestionMoves(At(events, n), events[n], At(events, n + 1))
  {
    hide QuestionMoves, React, Inv;
    InvAlways(events, n);
    StepMovesQuestions(At(events, n), events[n]);
  }

  lemma {:induction false} ConfirmWasAsked(events: seq<Event>, n: nat, d: Dispatch) returns (j: nat)
    requires n <= |events| && At(events, n).confirm == Some(d)
    ensures CancelAsked(events, j, n, d)
  {
    hide React, Drawn;
    assert n > 0;
    MovesAt(events, n - 1);
    if At(events, n - 1).confirm == Some(d) {
      j := ConfirmWasAsked(events, n - 1, d);
    } else {
      j := n - 1;
    }
  }

  lemma {:induction false} StartWasAsked(events: seq<Event>, n: nat, d: Dispatch) returns (j: nat)
    requires n <= |events| && At(events, n).start == Some(d)
    ensures StartAsked(events, j, n, d)
  {
    hide React, Drawn;
    assert n > 0;
    MovesAt(events, n - 1);
    if At(events, n - 1).start == Some(d) {
      j := StartWasAsked(events, n - 1, d);
    } else {
      j := n - 1;
    }
  }

  lemma {:induction false} RetireWasAsked(events: seq<Event>, n: nat, lesson: Lesson) returns (j: nat)
    requires n <= |events| && At(events, n).retire == Some(lesson)
    ensures RetireAsked(events, j, n, lesson)
  {
    hide React, Drawn;
    assert n > 0;
    MovesAt(events, n - 1);
    if At(events, n - 1).retire == Some(lesson) {
      j := RetireWasAsked(events, n - 1, lesson);
    } else {
      j := n - 1;
    }
  }

  /** What must be on the screen for a dispatch or a lesson to be acted on. */
  ghost predicate SentFor(v: View, event: Event, item: Outgoing) {
    && (item.CancelDispatch? ==>
          && IsKey(event, 'y') && v.status == Live && Listening(v) == Cancelling && v.confirm.Some?
          && item.dispatch == v.confirm.value.id)
    && (item.ConfirmDispatch? ==>
          && IsKey(event, 'y') && v.status == Live && Listening(v) == Starting && v.start.Some?
          && item.dispatch == v.start.value.id)
    && (item.RetireLesson? ==>
          && IsKey(event, 'y') && v.status == Live && Listening(v) == Retiring && v.retire.Some?
          && item.code == v.retire.value.code)
  }

  lemma PopupSendsWhatWasAsked(v: View, key: Key)
    requires Popped(v, key)
    ensures forall item :: item in PressPopup(v, key).sent ==> SentFor(v, Pressed(key, None), item)
  {
    hide Trim;
  }

  lemma SendsWhatWasAsked(v: View, event: Event, item: Outgoing)
    requires Sound(v.line) && item in React(v, event).sent
    ensures !v.help && SentFor(v, event, item)
    ensures item.CancelDispatch? ==> React(v, event).view.confirm.None?
    ensures item.ConfirmDispatch? ==> React(v, event).view.start.None?
    ensures item.RetireLesson? ==> React(v, event).view.retire.None?
  {
    hide PressAsks, PressDetail, PressLesson, PressAgents, Edited, SlashMatches, Named, TakenByAsks, Shown;
    AsksSendAnswers(v, event.key);
    if Popped(v, event.key) {
      PopupSendsWhatWasAsked(v, event.key);
    }
  }

  lemma AsksSendAnswers(v: View, key: Key)
    ensures TakenByAsks(v, key) ==> forall item :: item in PressAsks(v, key).sent ==> item.DecideAsk?
    ensures v.detail.Some? ==> forall item :: item in PressDetail(v, key).sent ==> item.Unwatch?
    ensures forall item :: item in PressAgents(v, key).sent ==> item.Watch?
  {
    hide Trim, CurrentAsk, Selected, Found;
  }

  // ------------------------------------------------------- What was sent, and why

  /** Every cancellation names a dispatch that was listed and cancellable when
      its question was asked, that stayed in question until then whatever else
      changed, and that was confirmed by `y` with its question on top. */
  lemma CancelWasConfirmed(events: seq<Event>, n: nat, item: Outgoing) returns (j: nat, d: Dispatch)
    requires n < |events| && item in SentAt(events, n) && item.CancelDispatch?
    ensures CancelAsked(events, j, n, d) && item.dispatch == d.id
    ensures IsKey(events[n], 'y') && At(events, n).status == Live && Drawn(At(events, n)) == Cancelling
    ensures At(events, n + 1).confirm.None?
  {
    hide React, Drawn, Listening;
    SendsWhatWasAsked(At(events, n), events[n], item);
    TopmostTakesTheKey(events, n);
    d := At(events, n).confirm.value;
    j := ConfirmWasAsked(events, n, d);
  }

  lemma StartWasConfirmed(events: seq<Event>, n: nat, item: Outgoing) returns (j: nat, d: Dispatch)
    requires n < |events| && item in SentAt(events, n) && item.ConfirmDispatch?
    ensures StartAsked(events, j, n, d) && item.dispatch == d.id
    ensures IsKey(events[n], 'y') && At(events, n).status == Live && Drawn(At(events, n)) == Starting
    ensures At(events, n + 1).start.None?
  {
    hide React, Drawn, Listening;
    SendsWhatWasAsked(At(events, n), events[n], item);
    TopmostTakesTheKey(events, n);
    d := At(events, n).start.value;
    j := StartWasAsked(events, n, d);
  }

  /** `lesson` popped up with the push at event `p`. */
  ghost predicate PoppedUpAt(events: seq<Event>, p: nat, lesson: Lesson) {
    && p < |events| && events[p].StatePush? && lesson in events[p].push.lessons
    && At(events, p).loaded && lesson.code != "" && lesson.code !in At(events, p).seen
    && lesson.code in At(events, p + 1).seen
  }

  /** And every retirement names a lesson that popped up before, and was shown
      on top when `r` asked about it. */
  lemma RetireWasConfirmed(events: seq<Event>, n: nat, item: Outgoing) returns (p: nat, j: nat, lesson: Lesson)
    requires n < |events| && item in SentAt(events, n) && item.RetireLesson?
    ensures p < j && PoppedUpAt(events, p, lesson)
    ensures RetireAsked(events, j, n, lesson) && item.code == lesson.code
    ensures IsKey(events[n], 'y') && At(events, n).status == Live && Drawn(At(events, n)) == Retiring
    ensures At(events, n + 1).retire.None?
  {
    hide React, Drawn, Listening;
    SendsWhatWasAsked(At(events, n), events[n], item);
    TopmostTakesTheKey(events, n);
    lesson := At(events, n).retire.value;
    j := RetireWasAsked(events, n, lesson);
    p := QueuedWasPushed(events, j, lesson);
  }

  lemma {:induction false} PoppedUpIsNew(lessons: seq<Lesson>, seen: set<string>, lesson: Lesson)
    ensures seen <= SeenAfter(lessons, seen)
    ensures lesson in PoppedUp(lessons, seen) ==>
              && lesson in lessons && lesson.code != "" && lesson.code !in seen
              && lesson.code in SeenAfter(lessons, seen)
  {
    if lessons != [] {
      PoppedUpIsNew(lessons[..|lessons| - 1], seen, lesson);
    }
  }

  lemma {:induction false} QueuedWasPushed(events: seq<Event>, n: nat, lesson: Lesson) returns (p: nat)
    requires n <= |events| && lesson in At(events, n).lessons
    ensures p < n && PoppedUpAt(events, p, lesson)
  {
    hide React, PoppedUpAt;
    assert n > 0;
    var v := At(events, n - 1);
    QueueGrowsByPush(v, events[n - 1], lesson);
    if lesson in v.lessons {
      p := QueuedWasPushed(events, n - 1, lesson);
    } else {
      p := n - 1;
      assert PoppedUpAt(events, p, lesson) by {
        PushPops(events, p, lesson);
      }
    }
  }

  lemma PushPops(events: seq<Event>, p: nat, lesson: Lesson)
    requires p < |events| && events[p].StatePush? && At(events, p).loaded
    requires lesson in PoppedUp(events[p].push.lessons, At(events, p).seen)
    ensures PoppedUpAt(events, p, lesson)
  {
    hide PoppedUp, SeenAfter;
    PoppedUpIsNew(events[p].push.lessons, At(events, p).seen, lesson);
    PushIs(At(events, p), events[p].push);
  }

  lemma QueueGrowsByPush(v: View, event: Event, lesson: Lesson)
    requires Sound(v.line) && lesson in React(v, event).view.lessons
    ensures lesson in v.lessons
            || (event.StatePush? && v.loaded && lesson in PoppedUp(event.push.lessons, v.seen))
  {
    hide PressAsks, PressDetail, PressAgents, TakenByAsks, Edited, SlashMatches, Named, PoppedUp, Shown, Selected;
  }

  lemma {:induction false} SeenStays(events: seq<Event>, m: nat, n: nat)
    requires m <= n <= |events|
    ensures At(events, m).seen <= At(events, n).seen
  {
    hide React;
    if m < n {
      SeenStays(events, m, n - 1);
      SeenGrows(At(events, n - 1), events[n - 1]);
    }
  }

  lemma SeenGrows(v: View, event: Event)
    requires Sound(v.line)
    ensures v.seen <= React(v, event).view.seen
  {
    hide PressAsks, PressDetail, PressAgents, TakenByAsks, Edited, SlashMatches, Named, PoppedUp, SeenAfter, Selected;
    if event.StatePush? {
      PoppedUpIsNew(event.push.lessons, v.seen, LESSON);
    }
  }

  /** No lesson pops up twice. */
  lemma PopsUpOnce(events: seq<Event>, p: nat, q: nat, first: Lesson, second: Lesson)
    requires p < q && PoppedUpAt(events, p, first) && PoppedUpAt(events, q, second)
    ensures first.code != second.code
  {
    hide At, React;
    SeenStays(events, p + 1, q);
  }

  /** Each question that was asked sends at most one item: two cancellations
      come from two separate questions. */
  lemma EachQuestionSendsOnce(events: seq<Event>, m: nat, n: nat, first: Outgoing, second: Outgoing)
    requires m < n < |events| && first in SentAt(events, m) && second in SentAt(events, n)
    ensures first.CancelDispatch? && second.CancelDispatch?
            ==> exists j: nat, d :: m < j && CancelAsked(events, j, n, d) && second.dispatch == d.id
    ensures first.ConfirmDispatch? && second.ConfirmDispatch?
            ==> exists j: nat, d :: m < j && StartAsked(events, j, n, d) && second.dispatch == d.id
    ensures first.RetireLesson? && second.RetireLesson?
            ==> exists j: nat, l :: m < j && RetireAsked(events, j, n, l) && second.code == l.code
  {
    hide React, Drawn, Listening;
    if first.CancelDispatch? && second.CancelDispatch? {
      var _, _ := CancelWasConfirmed(events, m, first);
      var j, d := CancelWasConfirmed(events, n, second);
    }
    if first.ConfirmDispatch? && second.ConfirmDispatch? {
      var _, _ := StartWasConfirmed(events, m, first);
      var j, d := StartWasConfirmed(events, n, second);
    }
    if first.RetireLesson? && second.RetireLesson? {
      var _, _, _ := RetireWasConfirmed(events, m, first);
      var _, j, l := RetireWasConfirmed(events, n, second);
    }
  }

  // --------------------------------------------------------------------- Asks

  /** A push that lists asks, and not this one. */
  predicate Unlists(event: Event, id: string) {
    event.StatePush? && event.push.asks.Some? && id !in Listed(event.push.asks.value)
  }

  /** After a push that lists asks only listed ones are answered or put off. */
  lemma PushForgetsUnlisted(v: View, push: Push)
    requires push.asks.Some?
    ensures var w := Pushed(v, push);
            && w.asks == push.asks.value
            && w.answered == v.answered * Listed(w.asks) && w.later == v.later * Listed(w.asks)
  {
  }

  lemma StaysAnswered(v: View, event: Event, id: string)
    requires Sound(v.line) && id in v.answered && !Unlists(event, id)
    ensures id in React(v, event).view.answered
  {
    hide PressDetail, PressAgents, Questioned, PressQuestion, Edited, SlashMatches, Named, Trim, Selected, Shown;
  }

  lemma OnlyAsksAnswer(v: View, event: Event, item: Outgoing)
    requires Sound(v.line) && item in React(v, event).sent && item.DecideAsk?
    ensures event.Pressed? && TakenByAsks(v, event.key) && React(v, event) == PressAsks(v, event.key)
  {
    hide PressDetail, PressAgents, Edited, SlashMatches, Named, TakenByAsks, PressAsks;
    AsksSendAnswers(v, event.key);
  }

  lemma AnswerNeedsUnanswered(v: View, event: Event, item: Outgoing)
    requires Inv(v) && Sound(v.line) && item in React(v, event).sent && item.DecideAsk?
    ensures v.status == Live && item.ask !in v.answered && item.ask in React(v, event).view.answered
    ensures item.note.Some? ==> item.note.value != "" && |item.note.value| <= REASON_LIMIT
  {
    hide React, Trim;
    OnlyAsksAnswer(v, event, item);
    if v.denial.Some? {
      TrimShortens(v.denial.value.reason);
    }
  }

  lemma {:induction false} TrimShortens(s: string)
    ensures |Trim(s)| <= |s|
  {
    TrimEndShortens(TrimStart(s));
    TrimStartShortens(s);
  }

  lemma {:induction false} TrimEndShortens(s: string)
    ensures |TrimEnd(s)| <= |s|
  {
    if s != "" {
      TrimEndShortens(s[..|s| - 1]);
    }
  }

  lemma {:induction false} TrimStartShortens(s: string)
    ensures |TrimStart(s)| <= |s|
  {
    if s != "" {
      TrimStartShortens(s[1..]);
    }
  }

  lemma {:induction false} AnsweredUntilUnlisted(events: seq<Event>, m: nat, n: nat, id: string)
    requires m <= n <= |events| && id in At(events, m).answered
    requires forall k :: m <= k < n ==> !Unlists(events[k], id)
    ensures id in At(events, n).answered
  {
    hide React, Unlists;
    if m < n {
      AnsweredUntilUnlisted(events, m, n - 1, id);
      StaysAnswered(At(events, n - 1), events[n - 1], id);
    }
  }

  /** An ask is answered at most once for as long as it stays listed: between
      two answers a push came that did not list it. */
  lemma AnsweredOnceWhileListed(events: seq<Event>, m: nat, n: nat, first: Outgoing, second: Outgoing)
    requires m < n < |events| && first in SentAt(events, m) && second in SentAt(events, n)
    requires first.DecideAsk? && second.DecideAsk? && first.ask == second.ask
    ensures exists k :: m < k < n && Unlists(events[k], first.ask)
  {
    hide React, Inv, Unlists;
    InvAlways(events, m);
    InvAlways(events, n);
    AnswerNeedsUnanswered(At(events, m), events[m], first);
    AnswerNeedsUnanswered(At(events, n), events[n], second);
    if forall k :: m < k < n ==> !Unlists(events[k], first.ask) {
      AnsweredUntilUnlisted(events, m + 1, n, first.ask);
    }
  }

  // ---------------------------------------------------- How long a note can be

  const ASK: Ask := Ask("a1", "command", false)

  /** Connected, one ask listed, and `r` pressed at it. */
  const ASKED: seq<Event> :=
    [Connection(Live), StatePush(Push([], [], Some([ASK]))), Pressed(Key(Char('r'), false, false, false), None)]

  function Keys(text: string): (keys: seq<Event>)
    ensures |keys| == |text|
    ensures forall i :: 0 <= i < |text| ==> keys[i] == Pressed(Key(Char(text[i]), false, false, false), None)
  {
    seq(|text|, i requires 0 <= i < |text| => Pressed(Key(Char(text[i]), false, false, false), None))
  }

  /** A whole run that denies the ask with a typed reason. */
  function Denies(reason: string): seq<Event> { ASKED + Keys(reason) + [ENTER] }

  /** The screen with the reason typed so far. */
  function Typing(reason: string): View {
    OPENED.(status := Live, asks := [ASK], loaded := true, denial := Some(Denial(ASK, reason)))
  }

  lemma {:induction false} AtPrefix(a: seq<Event>, b: seq<Event>, n: nat)
    requires n <= |a|
    ensures At(a + b, n) == At(a, n)
  {
    hide React;
    if n > 0 {
      AtPrefix(a, b, n - 1);
    }
  }

  lemma AskIsShown()
    ensures Shown(OPENED.(status := Live, asks := [ASK], loaded := true)) == Some(ASK)
  {
  }

  lemma AskedTypes()
    ensures At(ASKED, 0).denial.None? && At(ASKED, 1).denial.None? && At(ASKED, 2).denial.None?
    ensures At(ASKED, 3) == Typing("")
  {
    var one := OPENED.(status := Live);
    var two := one.(asks := [ASK], loaded := true);
    assert At(ASKED, 0) == OPENED;
    assert At(ASKED, 1) == one;
    PushesAsk(one);
    PushIs(one, Push([], [], Some([ASK])));
    assert At(ASKED, 2) == two;
    AskIsShown();
    hide React, Shown;
    assert At(ASKED, 3) == React(two, ASKED[2]).view;
    RKeyAsks(two);
  }

  lemma PushesAsk(v: View)
    requires v == OPENED.(status := Live)
    ensures Pushed(v, Push([], [], Some([ASK]))) == v.(asks := [ASK], loaded := true)
  {
    assert {} * Listed([ASK]) == {};
    hide Listed;
  }

  lemma RKeyAsks(v: View)
    requires Sound(v.line) && Shown(v) == Some(ASK) && v.denial.None? && !v.help
    ensures React(v, ASKED[2]).view == v.(denial := Some(Denial(ASK, "")))
  {
    hide Shown, PressPlain, SlashMatches;
  }

  lemma OneKeyTyped(reason: string, c: char)
    requires |reason| < REASON_LIMIT
    ensures React(Typing(reason), Pressed(Key(Char(c), false, false, false), None)).view == Typing(reason + [c])
  {
    hide PressPlain, SlashMatches, Shown, Trim;
  }

  lemma {:induction false} ReasonTyped(reason: string, n: nat)
    requires n <= |reason| <= REASON_LIMIT
    ensures At(Denies(reason), 3 + n) == Typing(reason[..n])
  {
    hide React;
    AskedTypes();
    if n == 0 {
      AtPrefix(ASKED, Keys(reason) + [ENTER], 3);
      assert ASKED + (Keys(reason) + [ENTER]) == Denies(reason);
    } else {
      ReasonTyped(reason, n - 1);
      assert Denies(reason)[3 + n - 1] == Keys(reason)[n - 1];
      OneKeyTyped(reason[..n - 1], reason[n - 1]);
      assert reason[..n - 1] + [reason[n - 1]] == reason[..n];
    }
  }

  /** That run sends the reason, trimmed. */
  lemma DenialSends(reason: string)
    requires |reason| <= REASON_LIMIT
    ensures SentAt(Denies(reason), 3 + |reason|)
            == [DecideAsk(ASK.id, "deny", if Trim(reason) == "" then None else Some(Trim(reason)))]
  {
    hide At;
    ReasonTyped(reason, |reason|);
    assert reason[..|reason|] == reason;
    hide PressPlain, SlashMatches, Shown, Trim;
  }

  lemma {:induction false} BytesOfOne(c: char, n: nat)
    ensures Bytes(seq(n, _ => c)) == n * Size(c)
  {
    if n > 0 {
      var s := seq(n, _ => c);
      assert s[..n - 1] == seq(n - 1, _ => c);
      BytesOfOne(c, n - 1);
    }
  }

  lemma TrimmedAlready(s: string)
    requires s != "" && Solid(s[0]) && Solid(s[|s| - 1])
    ensures Trim(s) == s
  {
  }

  /** The documentation bounds a note to 500 bytes, the screen to 500
      characters: this run from the start sends one of 1000 bytes. */
  lemma LongNoteIsSent()
    ensures var note := seq(REASON_LIMIT, _ => '\U{E9}');
            && SentAt(Denies(note), 3 + REASON_LIMIT) == [DecideAsk(ASK.id, "deny", Some(note))]
            && Bytes(note) == 1000
  {
    hide React, Bytes, Trim, SentAt;
    var note := seq(REASON_LIMIT, _ => '\U{E9}');
    DenialSends(note);
    BytesOfOne('\U{E9}', REASON_LIMIT);
    TrimmedAlready(note);
  }

  predicate Types(event: Event) { event.Pressed? && event.key.code.Char? && !event.key.control }

  /** Only `ok` characters are typed into reasons. */
  ghost predicate TypedOnly(ok: char -> bool, events: seq<Event>) {
    forall n: nat ::
      n < |events| && Types(events[n]) && At(events, n).denial.Some? ==> ok(events[n].key.code.c)
  }

  /** Every note of every such run keeps the documented bound. */
  ghost predicate NotesFit(ok: char -> bool) {
    forall events, n: nat, item ::
      n < |events| && TypedOnly(ok, events) && item in SentAt(events, n) && item.DecideAsk? && item.note.Some?
      ==> Bytes(item.note.value) <= 500
  }

  lemma DenialStep(v: View, event: Event, c: char)
    requires Sound(v.line) && React(v, event).view.denial.Some?
    requires c in React(v, event).view.denial.value.reason
    ensures v.denial.Some?
    ensures c in v.denial.value.reason || (event.Pressed? && event.key.code == Char(c) && !event.key.control)
  {
    hide PressQuestion, PressDetail, PressAgents, PressInput, CurrentAsk, Trim;
  }

  lemma {:induction false} ReasonIsTyped(ok: char -> bool, events: seq<Event>, n: nat, c: char)
    requires n <= |events| && TypedOnly(ok, events)
    requires At(events, n).denial.Some? && c in At(events, n).denial.value.reason
    ensures ok(c)
  {
    hide React;
    assert n > 0;
    DenialStep(At(events, n - 1), events[n - 1], c);
    if c in At(events, n - 1).denial.value.reason {
      ReasonIsTyped(ok, events, n - 1, c);
    }
  }

  lemma NoteIsReason(v: View, event: Event, item: Outgoing)
    requires Sound(v.line) && item in React(v, event).sent && item.DecideAsk? && item.note.Some?
    ensures v.denial.Some? && item.note.value == Trim(v.denial.value.reason) && item.note.value != ""
    ensures |v.denial.value.reason| <= REASON_LIMIT ==> |item.note.value| <= REASON_LIMIT
  {
    OnlyAsksAnswer(v, event, item);
    hide React, Trim, CurrentAsk;
    TrimShortens(v.denial.value.reason);
  }

  lemma {:induction false} EndTrimmed(s: string)
    ensures forall c :: c in TrimEnd(s) ==> c in s
    ensures TrimEnd(s) != "" ==> Solid(TrimEnd(s)[|TrimEnd(s)| - 1])
  {
    if s != "" && White(s[|s| - 1]) {
      EndTrimmed(s[..|s| - 1]);
    }
  }

  lemma {:induction false} StartTrimmed(s: string)
    ensures forall c :: c in TrimStart(s) ==> c in s
  {
    if s != "" && White(s[0]) {
      StartTrimmed(s[1..]);
    }
  }

  lemma {:induction false} OneByteEach(s: string)
    requires forall c :: c in s ==> Size(c) == 1
    ensures Bytes(s) == |s|
  {
    if s != "" {
      assert s[|s| - 1] in s && forall c :: c in s[..|s| - 1] ==> c in s;
      OneByteEach(s[..|s| - 1]);
    }
  }

  lemma NoteFits(ok: char -> bool, events: seq<Event>, n: nat, item: Outgoing)
    requires forall c, d :: ok(c) && ok(d) && Solid(d) ==> Size(c) == 1
    requires n < |events| && TypedOnly(ok, events)
    requires item in SentAt(events, n) && item.DecideAsk? && item.note.Some?
    ensures Bytes(item.note.value) <= 500
  {
    hide React, TypedOnly, Bytes;
    var v, note := At(events, n), item.note.value;
    InvAlways(events, n);
    NoteIsReason(v, events[n], item);
    var reason := v.denial.value.reason;
    StartTrimmed(reason);
    EndTrimmed(TrimStart(reason));
    assert note == TrimEnd(TrimStart(reason));
    var d := note[|note| - 1];
    assert d in note;
    ReasonIsTyped(ok, events, n, d);
    forall c | c in note ensures Size(c) == 1 {
      ReasonIsTyped(ok, events, n, c);
    }
    OneByteEach(note);
  }

  /** A reason that starts and ends with one character and is full of another. */
  function Filled(c: char, d: char): (s: string)
    ensures |s| == REASON_LIMIT && s[0] == d && s[|s| - 1] == d
    ensures forall i :: 0 <= i < |s| ==> s[i] == c || s[i] == d
  {
    [d] + seq(REASON_LIMIT - 2, _ => c) + [d]
  }

  lemma FilledBytes(c: char, d: char)
    requires Size(c) > 1
    ensures Bytes(Filled(c, d)) > 500
  {
    var middle := seq(REASON_LIMIT - 2, _ => c);
    BytesOfOne(c, REASON_LIMIT - 2);
    BytesSplit([d], middle);
    BytesSplit([d] + middle, [d]);
    hide Bytes;
  }

  lemma FilledIsTypedOnly(ok: char -> bool, c: char, d: char)
    requires ok(c) && ok(d)
    ensures TypedOnly(ok, Denies(Filled(c, d)))
  {
    hide React;
    var reason := Filled(c, d);
    var events := Denies(reason);
    AskedTypes();
    AtPrefix(ASKED, Keys(reason) + [ENTER], 0);
    AtPrefix(ASKED, Keys(reason) + [ENTER], 1);
    AtPrefix(ASKED, Keys(reason) + [ENTER], 2);
    assert ASKED + (Keys(reason) + [ENTER]) == events;
    hide At, Filled;
    forall n: nat | n < |events| && Types(events[n]) && At(events, n).denial.Some?
      ensures ok(events[n].key.code.c)
    {
      if n < 3 + |reason| {
        assert events[n] == Keys(reason)[n - 3];
      }
    }
  }

  /** Every note fits the documented 500 bytes, whatever is typed, if and only
      if each character that may be typed takes one byte, or none of them
      outlives the trimming. */
  lemma NotesFitExactly(ok: char -> bool)
    ensures NotesFit(ok) <==> forall c, d :: ok(c) && ok(d) && Solid(d) ==> Size(c) == 1
  {
    hide React, SentAt, TypedOnly, Bytes, Trim, Denies, Filled;
    if forall c, d :: ok(c) && ok(d) && Solid(d) ==> Size(c) == 1 {
      forall events, n: nat, item |
        n < |events| && TypedOnly(ok, events) && item in SentAt(events, n) && item.DecideAsk? && item.note.Some?
        ensures Bytes(item.note.value) <= 500
      {
        NoteFits(ok, events, n, item);
      }
    } else {
      var c, d :| ok(c) && ok(d) && Solid(d) && Size(c) != 1;
      var reason := Filled(c, d);
      FilledBytes(c, d);
      FilledIsTypedOnly(ok, c, d);
      TrimmedAlready(reason);
      DenialSends(reason);
      DeniesLength(reason);
      assert DecideAsk(ASK.id, "deny", Some(reason)) in SentAt(Denies(reason), 3 + |reason|);
    }
  }

  lemma DeniesLength(reason: string)
    ensures |Denies(reason)| == 4 + |reason|
  {
  }
}
