/** Which key does what, said by what the screen shows: every item that a key
    puts in the outbox, and every part of the screen that it changes. */
module KeyLaws {
  import opened Wrappers
  import opened ChatConnection
  import opened InputLine
  import opened ChatKeys
  import opened KeyTraces
  import ChatText

  // ------------------------------------------------------- What a key sends

  /** Enter submits a text: what was typed, or the menu entry that is chosen. */
  predicate Enters(v: View, key: Key) {
    (Drawn(v) == Composing || Drawn(v) == Layer.Menu) && key.code == Enter && !key.alt && !key.shift
  }

  function Submitted(v: View): string {
    var entries := SlashMatches(v.line.text);
    if entries == [] then v.line.text
    else if v.slash < |entries| then entries[v.slash] else entries[|entries| - 1]
  }

  /** The three answers to an ask, by key. */
  predicate Decides(ask: Ask, code: Code, decision: string) {
    || (code == Char('y') && decision == "allow")
    || (code == Char('a') && ask.forAgent && decision == "allow_agent")
    || (code == Char('n') && decision == "deny")
  }

  /** The item that a key calls for on the screen as it is. */
  predicate Due(v: View, key: Key, newId: Option<string>, item: Outgoing) {
    match item
    case DecideAsk(id, decision, note) =>
      && v.status == Live
      && ((Drawn(v) == Asking && id == Shown(v).value.id && note == None
           && Decides(Shown(v).value, key.code, decision))
          || (Drawn(v) == Denying && id == v.denial.value.ask.id && key.code == Enter && decision == "deny"
              && var reason := Trim(v.denial.value.reason);
                 note == if reason == "" then None else Some(reason)))
    case RetireLesson(code) =>
      v.status == Live && Drawn(v) == Retiring && key.code == Char('y') && code == v.retire.value.code
    case ConfirmDispatch(id) =>
      v.status == Live && Drawn(v) == Starting && key.code == Char('y') && id == v.start.value.id
    case CancelDispatch(id, reason) =>
      && v.status == Live && Drawn(v) == Cancelling && key.code == Char('y') && id == v.confirm.value.id
      && reason == CANCEL_REASON
    case Watch(id) => Drawn(v) == Agents && key.code == Enter && v.selected == Some(id)
    case Unwatch => Drawn(v) == InDetail && key.code == Esc
    case Say(id, text) => Enters(v, key) && newId == Some(id) && Named(Submitted(v)) == Command.Say(text)
    case CancelTurn => Enters(v, key) && Named(Submitted(v)) == Cancel
    case Handoff(note) => Enters(v, key) && Named(Submitted(v)) == Command.Handoff(note)
  }

  lemma DueFromAsks(v: View, key: Key, newId: Option<string>, item: Outgoing)
    requires v.denial.Some? || Shown(v).Some?
    ensures TakenByAsks(v, key)
    ensures item in PressAsks(v, key).sent <==> Due(v, key, newId, item)
  {
    hide Trim, CurrentAsk, SlashMatches, Named;
  }

  lemma DueFromQuestion(v: View, key: Key, newId: Option<string>, item: Outgoing)
    requires v.denial.None? && Shown(v).None? && Questioned(v) && !(v.start.Some? && v.confirm.Some?)
    ensures item in PressQuestion(v, key).sent <==> Due(v, key, newId, item)
  {
    hide Trim, CurrentAsk, SlashMatches, Named;
  }

  lemma DueFromDetail(v: View, key: Key, newId: Option<string>, item: Outgoing)
    requires v.denial.None? && Shown(v).None? && !Questioned(v) && v.detail.Some?
    ensures item in PressDetail(v, key).sent <==> Due(v, key, newId, item)
  {
    hide Trim, CurrentAsk, SlashMatches, Named, Found;
  }

  lemma DueFromAgents(v: View, key: Key, newId: Option<string>, item: Outgoing)
    requires v.denial.None? && Shown(v).None? && !Questioned(v) && v.detail.None? && v.agentsFocus && !v.help
    ensures item in PressAgents(v, key).sent <==> Due(v, key, newId, item)
  {
    hide Trim, CurrentAsk, SlashMatches, Named, Found, Selected;
  }

  lemma DueFromInput(v: View, key: Key, newId: Option<string>, item: Outgoing)
    requires Sound(v.line) && !v.help
    requires v.denial.None? && Shown(v).None? && !Questioned(v) && v.detail.None? && !v.agentsFocus
    ensures item in PressInput(v, key, newId).sent <==> Due(v, key, newId, item)
  {
    hide Shown, SlashMatches, PressMenu, PressLine, PressTab, Due;
    if SlashMatches(v.line.text) != [] {
      DueFromMenu(v, key, newId, item);
    } else {
      DueFromTyping(v, key, newId, item);
    }
  }

  lemma DueFromTyping(v: View, key: Key, newId: Option<string>, item: Outgoing)
    requires Sound(v.line) && Drawn(v) == Composing && SlashMatches(v.line.text) == []
    ensures item in (if key.code == Tab then PressTab(v) else PressLine(v, key, newId)).sent
            <==> Due(v, key, newId, item)
  {
    hide Drawn, Trim, CurrentAsk, SlashMatches, Named, Edited, Selected;
  }

  lemma DueFromMenu(v: View, key: Key, newId: Option<string>, item: Outgoing)
    requires Sound(v.line) && Drawn(v) == Layer.Menu && SlashMatches(v.line.text) != []
    ensures item in PressMenu(v, key, newId).sent <==> Due(v, key, newId, item)
  {
    hide Drawn, Trim, CurrentAsk, SlashMatches, Named, Edited, Above, Below;
  }

  /** With help closed, a key puts in the outbox exactly what it is due to. */
  lemma PressSendsDue(v: View, key: Key, newId: Option<string>, item: Outgoing)
    requires Sound(v.line) && Inv(v) && !v.help && !Leaves(key)
    ensures item in Press(v, key, newId).sent <==> Due(v, key, newId, item)
  {
    hide PressAsks, PressQuestion, PressDetail, PressAgents, PressInput, CurrentAsk, Due, SlashMatches;
    if v.denial.Some? || Shown(v).Some? {
      DueFromAsks(v, key, newId, item);
    } else if Recalls(v, key) {
      RecallSendsNothing(v, key, newId, item);
    } else if Questioned(v) {
      DueFromQuestion(v, key, newId, item);
    } else if v.detail.Some? {
      DueFromDetail(v, key, newId, item);
    } else if v.agentsFocus {
      DueFromAgents(v, key, newId, item);
    } else {
      DueFromInput(v, key, newId, item);
    }
  }

  lemma RecallSendsNothing(v: View, key: Key, newId: Option<string>, item: Outgoing)
    requires Recalls(v, key)
    ensures PressAsks(v, key).sent == [] && !Due(v, key, newId, item)
  {
    hide CurrentAsk, SlashMatches, Named, Trim;
  }

  lemma LeavingSendsNothing(v: View, key: Key, newId: Option<string>, item: Outgoing)
    requires Leaves(key)
    ensures !Due(v, key, newId, item)
  {
    hide CurrentAsk, SlashMatches, Named, Trim;
  }

  lemma OnlyKeysSend(v: View, event: Event)
    requires Sound(v.line)
    ensures !event.Pressed? || v.help || Leaves(event.key) ==> React(v, event).sent == []
    ensures event.Pressed? && !v.help ==> React(v, event) == Press(v, event.key, event.newId)
  {
    hide Popped, PressPopup, PressPlain;
  }

  /** In every run an event puts exactly that item in the outbox which its key
      is due to on the screen then: nothing else is ever sent, and nothing that
      is due is left out. */
  lemma SentExactly(events: seq<Event>, n: nat, item: Outgoing)
    requires n < |events|
    ensures var v, event := At(events, n), events[n];
            item in SentAt(events, n) <==> event.Pressed? && !v.help && Due(v, event.key, event.newId, item)
  {
    hide At, React, Press, Due, Inv;
    var v, event := At(events, n), events[n];
    InvAlways(events, n);
    OnlyKeysSend(v, event);
    if event.Pressed? && !v.help {
      if Leaves(event.key) {
        LeavingSendsNothing(v, event.key, event.newId, item);
      } else {
        PressSendsDue(v, event.key, event.newId, item);
      }
    }
  }

  /** So an answer to an ask is the one its key stands for, and each of the keys
      gives it: `y` allows, `a` allows the agent where that is offered, `n` and a
      typed reason deny. */
  lemma AnswersAsPressed(events: seq<Event>, n: nat, decision: string)
    requires n < |events| && events[n].Pressed? && !At(events, n).help && At(events, n).status == Live
    requires Drawn(At(events, n)) == Asking
    ensures var ask := Shown(At(events, n)).value;
            DecideAsk(ask.id, decision, None) in SentAt(events, n)
            <==> match decision
                 case "allow" => events[n].key.code == Char('y')
                 case "allow_agent" => events[n].key.code == Char('a') && ask.forAgent
                 case "deny" => events[n].key.code == Char('n')
                 case _ => false
  {
    hide At, React, CurrentAsk, SlashMatches, Trim;
    SentExactly(events, n, DecideAsk(Shown(At(events, n)).value.id, decision, None));
  }

  // ------------------------------------------------- What a key changes

  /** `A` brings back the asks put off, unless one is drawn; it does no more. */
  predicate BringsBack(v: View, key: Key) {
    key.code == Char('A') && v.later != {} && Drawn(v) != Denying && Drawn(v) != Asking
  }

  /** An answered ask is hidden at once, a denial's reason is typed, and an ask
      can be put off; no other key touches any of that. */
  ghost predicate AsksMove(v: View, key: Key, r: Reaction) {
    && (Drawn(v) == Denying ==>
          && (r.view.denial.None? <==> key.code == Enter || key.code == Esc)
          && (r.view.denial.Some? ==>
                && r.view.denial.value.ask == v.denial.value.ask
                && var reason := v.denial.value.reason;
                   r.view.denial.value.reason
                   == if key.code == Backspace && reason != "" then reason[..|reason| - 1]
                      else if key.code.Char? && !key.control && |reason| < 500 then reason + [key.code.c]
                      else reason))
    && (Drawn(v) != Denying ==>
          r.view.denial
          == if Drawn(v) == Asking && key.code == Char('r') && Shown(v).value.kind != "network"
             then Some(Denial(Shown(v).value, "")) else None)
    && r.view.later
       == (if Drawn(v) == Asking && key.code == Esc then v.later + {Shown(v).value.id} else v.later)
    && (forall id :: id in r.view.answered
                     <==> id in v.answered || exists item :: item in r.sent && item.DecideAsk? && item.ask == id)
  }

  /** The dispatch a key is about: of the open detail, or the selected one. */
  function Pointed(v: View): Option<string> {
    if Drawn(v) == InDetail then Some(v.detail.value.id) else if Drawn(v) == Agents then v.selected else None
  }

  ghost predicate First(v: View, id: Option<string>, d: Dispatch) {
    && id == Some(d.id)
    && exists i :: 0 <= i < |v.dispatches| && v.dispatches[i] == d
                   && forall j :: 0 <= j < i ==> v.dispatches[j].id != d.id
  }

  /** Lessons are closed one by one, each question by any key; a question is
      asked by its own key, about a dispatch that can be cancelled or is held. */
  ghost predicate QuestionsMove(v: View, key: Key, w: View) {
    && (var closes := Drawn(v) == NewLesson && key.code in {Char('r'), Char('o'), Enter, Esc};
        && w.lessons == (if closes then v.lessons[1..] else v.lessons)
        && w.retire
           == (if closes && key.code == Char('r') then Some(v.lessons[0])
               else if Drawn(v) == Retiring then None else v.retire))
    && (if Drawn(v) == Starting then w.start.None?
        else if Pointed(v).Some? && key.code == Char('s')
        then forall d :: w.start == Some(d) <==> First(v, Pointed(v), d) && d.state == "held"
        else w.start == v.start)
    && (if Drawn(v) == Cancelling then w.confirm.None?
        else if Pointed(v).Some? && key.code == Char('c')
        then forall d :: w.confirm == Some(d) <==> First(v, Pointed(v), d) && Unended(d.state)
        else w.confirm == v.confirm)
  }

  /** A dispatch that can still be cancelled. */
  predicate Unended(state: string) { state !in ["completed", "failed", "failed_to_start", "cancelled"] }

  /** The list of dispatches has the focus or not, and one of them is selected
      or open; lines of an open one are scrolled. */
  ghost predicate ListMoves(v: View, key: Key, w: View) {
    && (var tab := key.code == Tab && (Drawn(v) == Agents || Drawn(v) == Composing);
        && w.agentsFocus == (if tab then !v.agentsFocus
                             else if Drawn(v) == Agents && key.code == Esc then false else v.agentsFocus)
        && w.selected == (if tab && v.selected.None? then Selected(v.dispatches, None, 0)
                          else if Drawn(v) == Agents && key.code == Up then Selected(v.dispatches, v.selected, -1)
                          else if Drawn(v) == Agents && key.code == Down then Selected(v.dispatches, v.selected, 1)
                          else v.selected))
    && (w.detail == if Drawn(v) == Agents && key.code == Enter && v.selected.Some?
                    then Some(Detail(v.selected.value, 0))
                    else if Drawn(v) == InDetail && key.code == Esc then None
                    else if Drawn(v) == InDetail && key.code == Up && v.detail.value.scroll > 0
                    then Some(Detail(v.detail.value.id, v.detail.value.scroll - 1))
                    else if Drawn(v) == InDetail && key.code == Down
                    then Some(Detail(v.detail.value.id, Min(v.detail.value.scroll + 1, USIZE_MAX)))
                    else v.detail)
  }

  /** Which entry of the menu is chosen. */
  function Chosen(v: View): int {
    var n := |SlashMatches(v.line.text)|;
    if v.slash < n then v.slash else n - 1
  }

  /** The input line, the choice in its menu, help, and leaving. */
  ghost predicate LineMoves(v: View, key: Key, r: Reaction)
    requires Sound(v.line)
  {
    var menu, last := Drawn(v) == Layer.Menu, |SlashMatches(v.line.text)| - 1;
    && (r.leaving <==> Enters(v, key) && Named(Submitted(v)) == Exit)
    && (r.view.help <==> Enters(v, key) && Named(Submitted(v)) == Help)
    && r.view.line
       == (if menu && key.code == Tab then Line(Submitted(v), |Submitted(v)|)
           else if menu && (key.code == Up || key.code == Down) then v.line
           else if Enters(v, key) then Line("", 0)
           else if (menu || Drawn(v) == Composing) && key.code != Tab then Edited(v.line, key)
           else v.line)
    && r.view.slash
       == (if menu && key.code == Up then if Chosen(v) == 0 then last else Chosen(v) - 1
           else if menu && key.code == Down then if Chosen(v) == last then 0 else Chosen(v) + 1
           else if r.view.line.text == v.line.text || (menu && key.code == Tab) then v.slash
           else 0)
  }

  /** All that a key changes. */
  ghost predicate Moves(v: View, key: Key, r: Reaction)
    requires Sound(v.line)
  {
    AsksMove(v, key, r) && QuestionsMove(v, key, r.view) && ListMoves(v, key, r.view) && LineMoves(v, key, r)
  }

  lemma {:induction false} FoundIsFirst(dispatches: seq<Dispatch>, id: string, d: Dispatch)
    ensures Found(dispatches, id) == Some(d)
            <==> d.id == id && exists i :: 0 <= i < |dispatches| && dispatches[i] == d
                                           && forall j :: 0 <= j < i ==> dispatches[j].id != d.id
  {
    if dispatches != [] {
      var rest := dispatches[1..];
      FoundIsFirst(rest, id, d);
      if dispatches[0].id != id && d.id == id {
        assert forall i :: 0 <= i < |rest| ==> rest[i] == dispatches[i + 1];
        if i :| 0 <= i < |dispatches| && dispatches[i] == d && forall j :: 0 <= j < i ==> dispatches[j].id != d.id {
          assert rest[i - 1] == d;
        }
        if i :| 0 <= i < |rest| && rest[i] == d && forall j :: 0 <= j < i ==> rest[j].id != d.id {
          assert dispatches[i + 1] == d;
        }
      }
    }
  }

  lemma AsksMoveAtAsks(v: View, key: Key)
    requires v.denial.Some? || Shown(v).Some?
    ensures AsksMove(v, key, PressAsks(v, key))
  {
    hide Trim, CurrentAsk, SlashMatches;
    if v.denial.Some? {
      assert Drawn(v) == Denying;
      AnswersHide(v, key);
    } else {
      assert Drawn(v) == Asking;
      AnswersHide(v, key);
    }
  }

  lemma AnswersHide(v: View, key: Key)
    requires v.denial.Some? || Shown(v).Some?
    ensures var r := PressAsks(v, key);
            forall id :: id in r.view.answered
                         <==> id in v.answered || exists item :: item in r.sent && item.DecideAsk? && item.ask == id
  {
    hide Trim, CurrentAsk, SlashMatches, Drawn;
    var r := PressAsks(v, key);
    assert r.sent == [] ==> r.view.answered == v.answered;
    assert r.sent != [] ==> r.sent[0] in r.sent && r.sent[0].DecideAsk?
                            && r.view.answered == v.answered + {r.sent[0].ask};
  }

  lemma AsksStay(v: View, key: Key, r: Reaction)
    requires Drawn(v) != Denying && Drawn(v) != Asking && r.view.denial.None? && v.denial.None?
    requires r.view.answered == v.answered && r.view.later == v.later
    requires forall item :: item in r.sent ==> !item.DecideAsk?
    ensures AsksMove(v, key, r)
  {
    hide Drawn, Shown;
  }

  lemma QuestionsStay(v: View, key: Key, w: View)
    requires Drawn(v) !in {NewLesson, Retiring, Starting, Cancelling, InDetail, Agents}
    requires w.lessons == v.lessons && w.retire == v.retire && w.start == v.start && w.confirm == v.confirm
    ensures QuestionsMove(v, key, w)
  {
    hide Drawn, First;
  }

  lemma ListStays(v: View, key: Key, w: View)
    requires Drawn(v) !in {InDetail, Agents} && (Drawn(v) == Composing ==> key.code != Tab)
    requires w.agentsFocus == v.agentsFocus && w.selected == v.selected && w.detail == v.detail
    ensures ListMoves(v, key, w)
  {
    hide Drawn;
  }

  lemma LineStays(v: View, key: Key, r: Reaction)
    requires Sound(v.line) && Drawn(v) != Layer.Menu && (Drawn(v) == Composing ==> key.code == Tab)
    requires !r.leaving && !r.view.help && r.view.line == v.line && r.view.slash == v.slash
    ensures LineMoves(v, key, r)
  {
    hide Drawn, SlashMatches, Named;
  }

  lemma MovesAtAsks(v: View, key: Key)
    requires Sound(v.line) && !v.help && (v.denial.Some? || Shown(v).Some?)
    ensures Moves(v, key, PressAsks(v, key))
  {
    hide AsksMove, QuestionsMove, ListMoves, LineMoves, CurrentAsk, PressDenial, PressAsk, SlashMatches;
    var r := PressAsks(v, key);
    AsksMoveAtAsks(v, key);
    QuestionsStay(v, key, r.view);
    ListStays(v, key, r.view);
    LineStays(v, key, r);
  }

  lemma QuestionsMoveAtQuestion(v: View, key: Key)
    requires v.denial.None? && Shown(v).None? && Questioned(v) && !(v.start.Some? && v.confirm.Some?)
    ensures QuestionsMove(v, key, PressQuestion(v, key).view)
  {
    hide Shown, SlashMatches, First;
  }

  lemma MovesAtQuestion(v: View, key: Key)
    requires Sound(v.line) && !v.help && !(v.start.Some? && v.confirm.Some?)
    requires v.denial.None? && Shown(v).None? && Questioned(v)
    ensures Moves(v, key, PressQuestion(v, key))
  {
    hide AsksMove, QuestionsMove, ListMoves, LineMoves, Shown, SlashMatches;
    var r := PressQuestion(v, key);
    AsksStay(v, key, r);
    QuestionsMoveAtQuestion(v, key);
    ListStays(v, key, r.view);
    LineStays(v, key, r);
  }

  lemma QuestionsMoveAtList(v: View, key: Key, id: string, w: View)
    requires Pointed(v) == Some(id) && v.start.None? && v.confirm.None?
    requires Drawn(v) == InDetail || Drawn(v) == Agents
    requires w.lessons == v.lessons && w.retire == v.retire
    requires w.start == if key.code == Char('s') then ToStart(v, Some(id)).start else None
    requires w.confirm == if key.code == Char('c') then ToCancel(v, Some(id)).confirm else None
    ensures QuestionsMove(v, key, w)
  {
    hide Found, Drawn, Pointed;
    forall d ensures Found(v.dispatches, id) == Some(d) <==> First(v, Pointed(v), d) {
      FoundIsFirst(v.dispatches, id, d);
    }
  }

  lemma MovesAtDetail(v: View, key: Key)
    requires Sound(v.line) && !v.help && v.denial.None? && Shown(v).None? && !Questioned(v) && v.detail.Some?
    ensures Moves(v, key, PressDetail(v, key))
  {
    hide AsksMove, QuestionsMove, LineMoves, Shown, SlashMatches, Found;
    var r := PressDetail(v, key);
    AsksStay(v, key, r);
    QuestionsMoveAtList(v, key, v.detail.value.id, r.view);
    LineStays(v, key, r);
  }

  lemma MovesAtAgents(v: View, key: Key)
    requires Sound(v.line) && !v.help && v.agentsFocus
    requires v.denial.None? && Shown(v).None? && !Questioned(v) && v.detail.None?
    ensures Moves(v, key, PressAgents(v, key))
  {
    hide AsksMove, QuestionsMove, LineMoves, Shown, SlashMatches, Found, Selected;
    var r := PressAgents(v, key);
    AsksStay(v, key, r);
    if v.selected.Some? {
      QuestionsMoveAtList(v, key, v.selected.value, r.view);
    } else {
      NothingPointed(v, key, r.view);
    }
    LineStays(v, key, r);
  }

  lemma NothingPointed(v: View, key: Key, w: View)
    requires Drawn(v) == Agents && v.selected.None?
    requires w.lessons == v.lessons && w.retire == v.retire && w.start == v.start && w.confirm == v.confirm
    ensures QuestionsMove(v, key, w)
  {
    hide Drawn, First;
  }

  lemma SubmittingEmpties(line: Line, key: Key)
    requires Sound(line) && Submits(key)
    ensures Edited(line, key) == Line("", 0)
  {
  }

  lemma LineMovesAtTyping(v: View, key: Key, newId: Option<string>)
    requires Sound(v.line) && !v.help && !Leaves(key) && Drawn(v) == Composing && SlashMatches(v.line.text) == []
    ensures LineMoves(v, key, if key.code == Tab then PressTab(v) else PressLine(v, key, newId))
  {
    hide Drawn, SlashMatches, Selected, Named, Edited;
    if Submits(key) {
      SubmittingEmpties(v.line, key);
    }
  }

  lemma ChosenEntry(v: View)
    requires SlashMatches(v.line.text) != []
    ensures var entries := SlashMatches(v.line.text);
            && Submitted(v) == entries[Min(v.slash, |entries| - 1)] && Chosen(v) == Min(v.slash, |entries| - 1)
            && Above(Chosen(v), |entries|) == (if Chosen(v) == 0 then |entries| - 1 else Chosen(v) - 1)
            && Below(Chosen(v), |entries|) == (if Chosen(v) == |entries| - 1 then 0 else Chosen(v) + 1)
  {
    hide SlashMatches, Above, Below;
    RoundTheEnds(Chosen(v), |SlashMatches(v.line.text)|);
  }

  lemma RoundTheEnds(chosen: nat, n: nat)
    requires chosen < n
    ensures Above(chosen, n) == if chosen == 0 then n - 1 else chosen - 1
    ensures Below(chosen, n) == if chosen == n - 1 then 0 else chosen + 1
  {
    hide Above, Below;
    AboveIs(chosen, n);
    BelowIs(chosen, n);
  }

  lemma WrapsOnce(k: nat, n: nat)
    requires k < n
    ensures k % n == k && (k + n) % n == k
  {
  }

  lemma AboveIs(chosen: nat, n: nat)
    requires chosen < n
    ensures Above(chosen, n) == if chosen == 0 then n - 1 else chosen - 1
  {
    WrapsOnce(if chosen == 0 then n - 1 else chosen - 1, n);
  }

  lemma BelowIs(chosen: nat, n: nat)
    requires chosen < n
    ensures Below(chosen, n) == if chosen == n - 1 then 0 else chosen + 1
  {
    WrapsOnce(if chosen == n - 1 then 0 else chosen + 1, n);
  }

  lemma LineMovesAtMenu(v: View, key: Key, newId: Option<string>)
    requires Sound(v.line) && !v.help && !Leaves(key) && Drawn(v) == Layer.Menu && SlashMatches(v.line.text) != []
    ensures LineMoves(v, key, PressMenu(v, key, newId))
  {
    hide Drawn, SlashMatches, Named, Edited, Above, Below, Submitted, Chosen;
    ChosenEntry(v);
    MenuIsCommands(v);
    if Submits(key) {
      SubmittingEmpties(Line(Submitted(v), |Submitted(v)|), key);
    }
  }

  lemma LineMovesAtInput(v: View, key: Key, newId: Option<string>)
    requires Sound(v.line) && !v.help && !v.agentsFocus && !Leaves(key)
    requires v.denial.None? && Shown(v).None? && !Questioned(v) && v.detail.None?
    ensures LineMoves(v, key, PressInput(v, key, newId))
  {
    hide Shown, SlashMatches, LineMoves, PressMenu, PressLine, PressTab;
    if SlashMatches(v.line.text) != [] {
      LineMovesAtMenu(v, key, newId);
    } else {
      LineMovesAtTyping(v, key, newId);
    }
  }

  lemma MenuIsCommands(v: View)
    requires SlashMatches(v.line.text) != []
    ensures Submitted(v) != "" && v.line.text != ""
  {
    hide SlashMatches;
    assert Submitted(v) in SlashMatches(v.line.text);
    MenuOffersCommands(v.line.text, Submitted(v));
  }

  lemma MovesAtInput(v: View, key: Key, newId: Option<string>)
    requires Sound(v.line) && !v.help && !v.agentsFocus && !Leaves(key)
    requires v.denial.None? && Shown(v).None? && !Questioned(v) && v.detail.None?
    ensures Moves(v, key, PressInput(v, key, newId))
  {
    hide AsksMove, QuestionsMove, LineMoves, Shown, SlashMatches, Edited, Named, Selected;
    var r := PressInput(v, key, newId);
    AsksStay(v, key, r);
    QuestionsStay(v, key, r.view);
    LineMovesAtInput(v, key, newId);
  }

  lemma PressMoves(v: View, key: Key, newId: Option<string>)
    requires Sound(v.line) && Inv(v) && !v.help && !Leaves(key)
    ensures var r := Press(v, key, newId);
            if BringsBack(v, key) then r == Quiet(v.(later := {})) else Moves(v, key, r)
  {
    hide PressAsks, PressQuestion, PressDetail, PressAgents, PressInput, Shown, Moves, SlashMatches;
    BroughtBack(v, key);
    if v.denial.Some? || Shown(v).Some? {
      MovesAtAsks(v, key);
    } else if Recalls(v, key) {
    } else if Questioned(v) {
      MovesAtQuestion(v, key);
    } else if v.detail.Some? {
      MovesAtDetail(v, key);
    } else if v.agentsFocus {
      MovesAtAgents(v, key);
    } else {
      MovesAtInput(v, key, newId);
    }
  }

  lemma BroughtBack(v: View, key: Key)
    ensures BringsBack(v, key) <==> Recalls(v, key)
    ensures Recalls(v, key) ==> PressAsks(v, key) == Quiet(v.(later := {}))
  {
    hide CurrentAsk, SlashMatches;
  }

  /** In every run a key changes exactly that much of the screen; with help open
      it only closes help, and Ctrl+C only leaves. */
  lemma ChangedExactly(events: seq<Event>, n: nat)
    requires n < |events| && events[n].Pressed?
    ensures var v, key, r := At(events, n), events[n].key, React(At(events, n), events[n]);
            if v.help then r == Reaction(v.(help := false), [], false)
            else if key.control && key.code == Char('c') then r == Reaction(v, [], true)
            else if BringsBack(v, key) then r == Reaction(v.(later := {}), [], false)
            else Moves(v, key, r)
  {
    hide At, Press, Moves, Inv, BringsBack;
    var v, event := At(events, n), events[n];
    InvAlways(events, n);
    OnlyKeysSend(v, event);
    if !v.help {
      if Leaves(event.key) {
        LeavingLeaves(v, event.key, event.newId);
      } else {
        PressMoves(v, event.key, event.newId);
      }
    }
  }

  lemma LeavingLeaves(v: View, key: Key, newId: Option<string>)
    requires Sound(v.line) && Leaves(key)
    ensures Press(v, key, newId) == Reaction(v, [], true)
  {
  }

  // ------------------------------------------------------------ Editing keys

  predicate StartsAt(text: string, k: nat, at: nat) {
    && k <= at <= |text| && (k == 0 || text[k - 1] == '\n')
    && forall i :: k <= i < at ==> text[i] != '\n'
  }

  predicate EndsAt(text: string, at: nat, k: nat) {
    && at <= k <= |text| && (k == |text| || text[k] == '\n')
    && forall i :: at <= i < k ==> text[i] != '\n'
  }

  /** What stood between two places is gone, and the cursor is there. */
  predicate Removes(line: Line, from: nat, upto: nat, r: Line) {
    from <= upto <= |line.text| && r == Line(line.text[..from] + line.text[upto..], from)
  }

  predicate IsChord(key: Key, c: char) { key.control && key.code == Char(c) }

  /** Moving: to the ends of the line, by words, by characters. */
  ghost predicate Walks(line: Line, key: Key, r: Line)
    requires Sound(line)
  {
    var text, word := line.text, key.alt || key.control;
    && (key.code == Home || IsChord(key, 'a') ==> r.text == text && StartsAt(text, r.at, line.at))
    && (key.code == End || IsChord(key, 'e') ==> r.text == text && EndsAt(text, line.at, r.at))
    && ((key.code == Left && word) || (key.code == Char('b') && key.alt) ==>
          r.text == text && exists mid: nat :: WordBefore(text, r.at, mid, line.at))
    && ((key.code == Right && word) || (key.code == Char('f') && key.alt) ==>
          r.text == text && exists mid: nat :: WordAfter(text, line.at, mid, r.at))
    && (key.code == Left && !word ==> r.text == text && (if line.at == 0 then r.at == 0 else r.at + 1 == line.at))
    && (key.code == Right && !word ==>
          r.text == text && if line.at == |text| then r.at == |text| else r.at == line.at + 1)
  }

  /** Removing: characters, words, to the ends of the line. */
  ghost predicate Drops(line: Line, key: Key, r: Line)
    requires Sound(line)
  {
    var text, word := line.text, key.alt || key.control;
    && (key.code == Backspace && !word ==> if line.at == 0 then r == line else Removes(line, line.at - 1, line.at, r))
    && (key.code == Delete || IsChord(key, 'd') ==>
          if line.at == |text| then r == line else Removes(line, line.at, line.at + 1, r))
    && ((key.code == Backspace && word) || IsChord(key, 'w') ==>
          exists mid: nat :: WordBefore(text, r.at, mid, line.at) && Removes(line, r.at, line.at, r))
    && (IsChord(key, 'k') ==> exists k: nat :: EndsAt(text, line.at, k) && Removes(line, line.at, k, r))
    && (IsChord(key, 'u') ==> StartsAt(text, r.at, line.at) && Removes(line, r.at, line.at, r))
  }

  /** Typing: a character, or a line break; every other chord does nothing. */
  ghost predicate Types(line: Line, key: Key, r: Line)
    requires Sound(line)
  {
    && (key.code.Char? && !key.control && !key.alt ==> r == Put(line, [key.code.c]))
    && (IsChord(key, 'j') || (key.code == Enter && (key.alt || key.shift)) ==> r == Put(line, "\n"))
    && (key.code.Char? && key.control && key.code.c !in "jaewkud" && !(key.alt && key.code.c in "bf") ==> r == line)
    && (key.code.Char? && !key.control && key.alt && key.code.c !in "bf" ==> r == line)
    && (key.code in {Esc, Tab, PageUp, PageDown, Other} ==> r == line)
  }

  /** What each editing key does to the line, said by where words and lines end. */
  lemma EditingKeys(line: Line, key: Key)
    requires Sound(line)
    ensures Walks(line, key, Edited(line, key)) && Drops(line, key, Edited(line, key))
    ensures Types(line, key, Edited(line, key))
  {
    hide Back, Forth, LineUp, LineDown, Walks, Drops, Types, Put;
    WalksRight(line, key);
    DropsRight(line, key);
    TypesRight(line, key);
  }

  lemma WordsAround(line: Line)
    requires Sound(line)
    ensures WordBefore(line.text, PreviousWord(line), Back(Solid, line.text, line.at), line.at)
    ensures WordAfter(line.text, line.at, Forth(Solid, line.text, line.at), NextWord(line))
  {
    PreviousWordIsWhole(line, PreviousWord(line), Back(Solid, line.text, line.at));
    NextWordIsWhole(line, Forth(Solid, line.text, line.at), NextWord(line));
  }

  lemma EndsAround(line: Line)
    requires Sound(line)
    ensures StartsAt(line.text, Back(Break, line.text, line.at), line.at)
    ensures EndsAt(line.text, line.at, Forth(Break, line.text, line.at))
  {
  }

  lemma WalksRight(line: Line, key: Key)
    requires Sound(line)
    ensures Walks(line, key, Edited(line, key))
  {
    hide Back, Forth, PreviousWord, NextWord, StartsAt, EndsAt, WordBefore, WordAfter, LineUp, LineDown, Put, Cut;
    WordsAround(line);
    EndsAround(line);
  }

  lemma DropsRight(line: Line, key: Key)
    requires Sound(line)
    ensures Drops(line, key, Edited(line, key))
  {
    hide Back, Forth, PreviousWord, NextWord, StartsAt, EndsAt, WordBefore, WordAfter, LineUp, LineDown, Put;
    WordsAround(line);
    EndsAround(line);
  }

  lemma TypesRight(line: Line, key: Key)
    requires Sound(line)
    ensures Types(line, key, Edited(line, key))
  {
    hide Back, Forth, PreviousWord, NextWord, LineUp, LineDown, Put, Cut;
  }

  // ---------------------------------------------------- Typing and taking back

  /** Several editing keys, one after another. */
  function EditedAll(line: Line, keys: seq<Key>): (r: Line)
    requires Sound(line)
    ensures Sound(r)
  {
    if keys == [] then line else Edited(EditedAll(line, keys[..|keys| - 1]), keys[|keys| - 1])
  }

  function PlainKey(code: Code): Key { Key(code, false, false, false) }

  function TypedKeys(text: string): (keys: seq<Key>)
    ensures |keys| == |text| && forall i :: 0 <= i < |text| ==> keys[i] == PlainKey(Char(text[i]))
  {
    seq(|text|, i requires 0 <= i < |text| => PlainKey(Char(text[i])))
  }

  function Often(code: Code, n: nat): (keys: seq<Key>)
    ensures |keys| == n && forall i :: 0 <= i < n ==> keys[i] == PlainKey(code)
  {
    seq(n, _ => PlainKey(code))
  }

  /** What is typed, key by key, goes in before the cursor, in order. */
  lemma {:induction false} TypedGoesIn(line: Line, text: string)
    requires Sound(line)
    ensures EditedAll(line, TypedKeys(text)) == Put(line, text)
  {
    if text == "" {
      assert Put(line, "") == line;
    } else {
      var front, c := text[..|text| - 1], text[|text| - 1];
      hide Edited, Put;
      assert TypedKeys(text)[..|text| - 1] == TypedKeys(front);
      TypedGoesIn(line, front);
      PutTwice(line, front, [c]);
      assert front + [c] == text;
      TypesRight(Put(line, front), PlainKey(Char(c)));
    }
  }

  lemma OneLess(line: Line, text: string)
    requires Sound(line) && text != ""
    ensures var typed, front := Put(line, text), text[..|text| - 1];
            && Edited(typed, PlainKey(Backspace)) == Put(line, front)
            && Edited(typed, PlainKey(Code.Left)) == Line(typed.text, typed.at - 1)
  {
    hide PreviousWord;
  }

  /** Backspace as often as characters were typed gives back line and cursor. */
  lemma {:induction false} BackspacesTakeBack(line: Line, text: string, n: nat)
    requires Sound(line) && n <= |text|
    ensures EditedAll(Put(line, text), Often(Backspace, n)) == Put(line, text[..|text| - n])
    ensures n == |text| ==> EditedAll(Put(line, text), Often(Backspace, n)) == line
  {
    hide EditedAll, Edited, Put, Sound;
    PutNothing(line);
    PutSounds(line, text);
    assert text == "" ==> Put(line, text) == line;
    if n == 0 {
      assert text[..|text|] == text;
      NoneEdited(Put(line, text), Often(Backspace, 0));
    } else {
      assert Often(Backspace, n)[..n - 1] == Often(Backspace, n - 1);
      BackspacesTakeBack(line, text, n - 1);
      LastEdited(Put(line, text), Often(Backspace, n));
      var rest := text[..|text| - (n - 1)];
      PutSounds(line, rest);
      OneLess(line, rest);
      assert rest[..|rest| - 1] == text[..|text| - n];
      assert n == |text| ==> text[..|text| - n] == "";
    }
  }

  lemma PutSounds(line: Line, text: string)
    requires Sound(line)
    ensures Sound(Put(line, text))
  {
  }

  lemma NoneEdited(line: Line, keys: seq<Key>)
    requires Sound(line) && keys == []
    ensures EditedAll(line, keys) == line
  {
  }

  lemma LastEdited(line: Line, keys: seq<Key>)
    requires Sound(line) && keys != []
    ensures EditedAll(line, keys) == Edited(EditedAll(line, keys[..|keys| - 1]), keys[|keys| - 1])
  {
    hide Edited;
  }

  lemma PutNothing(line: Line)
    requires Sound(line)
    ensures Put(line, "") == line
  {
  }

  /** Going left as often gives back the cursor, with the text typed behind it. */
  lemma {:induction false} LeftsGoBack(line: Line, text: string, n: nat)
    requires Sound(line) && n <= |text|
    ensures EditedAll(Put(line, text), Often(Code.Left, n)) == Line(Put(line, text).text, line.at + |text| - n)
  {
    if n > 0 {
      hide Edited;
      assert Often(Code.Left, n)[..n - 1] == Often(Code.Left, n - 1);
      LeftsGoBack(line, text, n - 1);
      LeftOnce(Line(Put(line, text).text, line.at + |text| - (n - 1)));
    }
  }

  lemma LeftOnce(line: Line)
    requires Sound(line) && line.at > 0
    ensures Edited(line, PlainKey(Code.Left)) == Line(line.text, line.at - 1)
  {
  }

  // -------------------------------------------------------- What a push changes

  lemma {:induction false} SeenExactly(lessons: seq<Lesson>, seen: set<string>, code: string)
    ensures code in SeenAfter(lessons, seen)
            <==> code in seen || (code != "" && exists l :: l in lessons && l.code == code)
  {
    if lessons != [] {
      var front, last := lessons[..|lessons| - 1], lessons[|lessons| - 1];
      SeenExactly(front, seen, code);
      assert forall l :: l in lessons <==> l in front || l == last;
    }
  }

  /** The lessons that pop up: each that has a code not seen before, once. */
  ghost predicate NewAt(lessons: seq<Lesson>, seen: set<string>, i: nat) {
    && i < |lessons| && lessons[i].code != "" && lessons[i].code !in seen
    && forall j :: 0 <= j < i ==> lessons[j].code != lessons[i].code
  }

  lemma PopsNext(lessons: seq<Lesson>, seen: set<string>, n: nat)
    requires 0 < n <= |lessons|
    ensures PoppedUp(lessons[..n], seen)
            == PoppedUp(lessons[..n - 1], seen) + if NewAt(lessons, seen, n - 1) then [lessons[n - 1]] else []
  {
    var front, last := lessons[..n - 1], lessons[n - 1];
    assert lessons[..n][..n - 1] == front;
    SeenExactly(front, seen, last.code);
    assert forall j :: 0 <= j < n - 1 ==> front[j] == lessons[j];
  }

  lemma {:induction false} PoppedUpExactly(lessons: seq<Lesson>, seen: set<string>, n: nat, l: Lesson)
    requires n <= |lessons|
    ensures l in PoppedUp(lessons[..n], seen) <==> exists i: nat :: i < n && NewAt(lessons, seen, i) && lessons[i] == l
  {
    hide NewAt;
    if n > 0 {
      PoppedUpExactly(lessons, seen, n - 1, l);
      PopsNext(lessons, seen, n);
      hide PoppedUp;
    }
  }

  lemma {:induction false} PoppedOnceEach(lessons: seq<Lesson>, seen: set<string>)
    ensures OnceEach(PoppedUp(lessons, seen))
  {
    if lessons != [] {
      var front, last := lessons[..|lessons| - 1], lessons[|lessons| - 1];
      PoppedOnceEach(front, seen);
      if last.code != "" && last.code !in SeenAfter(front, seen) {
        forall l | l in PoppedUp(front, seen) ensures l.code != last.code {
          PoppedUpIsNew(front, seen, l);
        }
        assert PoppedUp(lessons, seen) == PoppedUp(front, seen) + [last];
      } else {
        assert PoppedUp(lessons, seen) == PoppedUp(front, seen);
      }
    }
  }

  ghost predicate OnceEach(lessons: seq<Lesson>) {
    forall j, k :: 0 <= j < k < |lessons| ==> lessons[j].code != lessons[k].code
  }

  ghost predicate PopsUp(lessons: seq<Lesson>, seen: set<string>, l: Lesson) {
    exists i: nat :: NewAt(lessons, seen, i) && lessons[i] == l
  }

  /** One push: the list is the one pushed, the selection stays as long as it is
      listed, an ask is forgotten when it is not, and every lesson not seen
      before pops up, unless it is the first push. Nothing else changes. */
  lemma PushedExactly(v: View, push: Push)
    ensures var w := Pushed(v, push);
            && w == v.(dispatches := push.dispatches, selected := w.selected, lessons := w.lessons, seen := w.seen,
                       loaded := true, asks := w.asks, answered := w.answered, later := w.later)
            && w.selected
               == (if exists d :: d in push.dispatches && v.selected == Some(d.id) then v.selected
                   else if push.dispatches == [] then None else Some(push.dispatches[0].id))
            && w.asks == (if push.asks.None? then v.asks else push.asks.value)
            && (forall id :: id in w.answered <==> id in v.answered && !Unlists(StatePush(push), id))
            && (forall id :: id in w.later <==> id in v.later && !Unlists(StatePush(push), id))
            && v.lessons <= w.lessons
            && (!v.loaded ==> w.lessons == v.lessons)
            && (v.loaded ==>
                  var popped := w.lessons[|v.lessons|..];
                  OnceEach(popped) && forall l :: l in popped <==> PopsUp(push.lessons, v.seen, l))
            && (forall code :: code in w.seen
                               <==> code in v.seen || (code != "" && exists l :: l in push.lessons && l.code == code))
  {
    hide PoppedUp, SeenAfter, PopsUp, OnceEach;
    var popped := PoppedUp(push.lessons, v.seen);
    forall l ensures l in popped <==> PopsUp(push.lessons, v.seen, l) {
      PoppedAre(push.lessons, v.seen, l);
    }
    PoppedOnceEach(push.lessons, v.seen);
    assert (v.lessons + popped)[|v.lessons|..] == popped;
    forall code
      ensures code in SeenAfter(push.lessons, v.seen)
              <==> code in v.seen || (code != "" && exists l :: l in push.lessons && l.code == code)
    {
      SeenExactly(push.lessons, v.seen, code);
    }
  }

  lemma PoppedAre(lessons: seq<Lesson>, seen: set<string>, l: Lesson)
    ensures l in PoppedUp(lessons, seen) <==> PopsUp(lessons, seen, l)
  {
    hide PoppedUp;
    assert lessons[..|lessons|] == lessons;
    PoppedUpExactly(lessons, seen, |lessons|, l);
  }

  /** A paste puts shown characters only into the line, and all of a text that
      has no others; nothing else changes. */
  lemma PasteGoesIn(v: View, text: string) returns (shown: string)
    requires Sound(v.line)
    ensures React(v, Pasted(text)) == Reaction(v.(line := Put(v.line, shown)), [], false)
    ensures forall c :: c in shown ==> ChatText.Shown(c)
    ensures (forall c :: c in text ==> ChatText.Shown(c)) ==> shown == text
  {
    hide ChatText.Final, ChatText.Through;
    shown := ChatText.Cleaned(text);
    ChatText.OnlyShownComesThrough(ChatText.Ground, text);
    if forall c :: c in text ==> ChatText.Shown(c) {
      ChatText.ShownTextIsUnchanged(text);
    }
  }
}
