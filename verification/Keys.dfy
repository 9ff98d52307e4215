/** The keys of the chat screen, with what the service pushes in between.

    `View` is the screen's state and `React` what one event does to it;
    `Screen` is the client's own form, one method for a key and one for a push,
    proved against it. `KeyTraces` states what holds over any run of events. */
module ChatKeys {
  import opened Wrappers
  import opened ChatConnection
  import opened InputLine

  datatype Dispatch = Dispatch(id: string, state: string)

  datatype Ask = Ask(id: string, kind: string, forAgent: bool)

  datatype Lesson = Lesson(code: string, text: string)

  datatype Status = Connecting | Live | Reconnecting | Refused

  datatype Detail = Detail(id: string, scroll: nat)

  /** A denial whose reason is being typed. */
  datatype Denial = Denial(ask: Ask, reason: string)

  datatype Code =
    | Char(c: char)
    | Enter | Esc | Tab | Backspace | Delete
    | Up | Down | Left | Right | Home | End | PageUp | PageDown
    | Other

  datatype Key = Key(code: Code, control: bool, alt: bool, shift: bool)

  datatype View = View(
    status: Status, asks: seq<Ask>, answered: set<string>, later: set<string>, denial: Option<Denial>,
    retire: Option<Lesson>, lessons: seq<Lesson>, seen: set<string>, loaded: bool,
    start: Option<Dispatch>, confirm: Option<Dispatch>, dispatches: seq<Dispatch>, selected: Option<string>,
    detail: Option<Detail>, agentsFocus: bool, slash: nat, help: bool, line: Line)

  const OPENED: View := View(
    Connecting, [], {}, {}, None, None, [], {}, false, None, None, [], None, None, false, 0, false, Line("", 0))

  const USIZE_MAX: nat := 0xFFFF_FFFF_FFFF_FFFF
  const REASON_LIMIT: nat := 500
  const CANCEL_REASON: string := "Cancelled by the person from the chat screen"

  // ----------------------------------------------------------------- Queries

  predicate Cancellable(state: string) {
    state != "completed" && state != "failed" && state != "failed_to_start" && state != "cancelled"
  }

  function Listed(asks: seq<Ask>): (ids: set<string>)
    ensures forall a :: a in asks ==> a.id in ids
    ensures forall id :: id in ids ==> exists a :: a in asks && a.id == id
  {
    if asks == [] then {} else {asks[0].id} + Listed(asks[1..])
  }

  /** The first ask neither answered nor put off. */
  function CurrentAsk(asks: seq<Ask>, answered: set<string>, later: set<string>): (r: Option<Ask>)
    ensures r.Some? ==> r.value in asks && r.value.id !in answered && r.value.id !in later
    ensures r.None? <==> forall a :: a in asks ==> a.id in answered || a.id in later
  {
    if asks == [] then None
    else if asks[0].id !in answered && asks[0].id !in later then Some(asks[0])
    else CurrentAsk(asks[1..], answered, later)
  }

  /** It is the first of them. */
  lemma {:induction false} CurrentIsFirst(asks: seq<Ask>, answered: set<string>, later: set<string>, i: nat)
    requires i < |asks| && asks[i].id !in answered && asks[i].id !in later
    requires forall j :: 0 <= j < i ==> asks[j].id in answered || asks[j].id in later
    ensures CurrentAsk(asks, answered, later) == Some(asks[i])
  {
    if i > 0 {
      assert asks[0].id in answered || asks[0].id in later;
      CurrentIsFirst(asks[1..], answered, later, i - 1);
    }
  }

  function Shown(v: View): Option<Ask> { CurrentAsk(v.asks, v.answered, v.later) }

  /** The first dispatch with this id. */
  function Found(dispatches: seq<Dispatch>, id: string): (r: Option<Dispatch>)
    ensures r.Some? ==> r.value in dispatches && r.value.id == id
    ensures r.None? <==> forall d :: d in dispatches ==> d.id != id
  {
    if dispatches == [] then None
    else if dispatches[0].id == id then Some(dispatches[0])
    else Found(dispatches[1..], id)
  }

  function Position(dispatches: seq<Dispatch>, id: string): (r: Option<nat>)
    ensures r.None? ==> forall d :: d in dispatches ==> d.id != id
    ensures r.Some? ==> r.value < |dispatches| && dispatches[r.value].id == id
                        && forall i :: 0 <= i < r.value ==> dispatches[i].id != id
  {
    if dispatches == [] then None
    else if dispatches[0].id == id then Some(0)
    else match Position(dispatches[1..], id) case None => None case Some(i) => Some(i + 1)
  }

  /** The dispatch `steps` away from the selected one, within the list. */
  function Selected(dispatches: seq<Dispatch>, selected: Option<string>, steps: int): (r: Option<string>)
    ensures r.None? <==> dispatches == []
    ensures r.Some? ==> exists d :: d in dispatches && d.id == r.value
  {
    if dispatches == [] then None
    else
      var at := if selected.None? then None else Position(dispatches, selected.value);
      var current := if at.None? then 0 else at.value;
      var moved := if current + steps < 0 then 0 else current + steps;
      Some(dispatches[Min(moved, |dispatches| - 1)].id)
  }

  lemma PositionIsFirst(dispatches: seq<Dispatch>, i: nat)
    requires i < |dispatches| && forall j :: 0 <= j < i ==> dispatches[j].id != dispatches[i].id
    ensures Position(dispatches, dispatches[i].id) == Some(i)
  {
  }

  /** The one as many places on, or the last one on the way; and moving back
      returns exactly when no end of the list was in the way, or one goes from
      one end to the other and back. */
  lemma SelectionMoves(dispatches: seq<Dispatch>, i: nat, steps: int)
    requires i < |dispatches|
    requires forall j, k :: 0 <= j < k < |dispatches| ==> dispatches[j].id != dispatches[k].id
    ensures var moved := Selected(dispatches, Some(dispatches[i].id), steps);
            && (0 <= i + steps < |dispatches| ==> moved == Some(dispatches[i + steps].id))
            && (i + steps < 0 ==> moved == Some(dispatches[0].id))
            && (i + steps >= |dispatches| ==> moved == Some(dispatches[|dispatches| - 1].id))
            && (Selected(dispatches, moved, -steps) == Some(dispatches[i].id)
                <==> 0 <= i + steps < |dispatches| || i == if steps < 0 then |dispatches| - 1 else 0)
    ensures Selected(dispatches, None, steps)
            == Some(dispatches[if steps < 0 then 0 else Min(steps, |dispatches| - 1)].id)
  {
    hide Position;
    PositionIsFirst(dispatches, i);
    var at := if i + steps < 0 then 0 else Min(i + steps, |dispatches| - 1);
    PositionIsFirst(dispatches, at);
  }

  // ------------------------------------------------- Which layer takes a key

  datatype Layer =
    | Denying | Asking | Retiring | NewLesson | Starting | Cancelling | InDetail | Menu | Agents | Composing | Helping

  /** The popup, or part of the screen, that is drawn on top of all others. */
  function Drawn(v: View): Layer {
    if v.denial.Some? then Denying
    else if Shown(v).Some? then Asking
    else if v.retire.Some? then Retiring
    else if v.lessons != [] then NewLesson
    else if v.confirm.Some? then Cancelling
    else if v.start.Some? then Starting
    else if v.detail.Some? then InDetail
    else if v.help then Helping
    else if !v.agentsFocus && SlashMatches(v.line.text) != [] then Menu
    else if v.agentsFocus then Agents
    else Composing
  }

  /** The layer that the next key goes to while help is closed. */
  function Listening(v: View): Layer {
    if v.denial.Some? then Denying
    else if Shown(v).Some? then Asking
    else if v.retire.Some? then Retiring
    else if v.lessons != [] then NewLesson
    else if v.start.Some? then Starting
    else if v.confirm.Some? then Cancelling
    else if v.detail.Some? then InDetail
    else if v.agentsFocus then Agents
    else if SlashMatches(v.line.text) != [] then Menu
    else Composing
  }

  predicate Leaves(key: Key) { key.control && key.code == Char('c') }

  /** `A` brings put-off asks back, unless an ask takes the key. */
  predicate Recalls(v: View, key: Key) {
    key.code == Char('A') && v.later != {} && v.denial.None? && Shown(v).None?
  }

  // ----------------------------------------------------- What a key does there

  datatype Reaction = Reaction(view: View, sent: seq<Outgoing>, leaving: bool)

  function Quiet(v: View): Reaction { Reaction(v, [], false) }

  function Answer(v: View, ask: Ask, decision: string, note: Option<string>): (r: Reaction)
    ensures r.view == v.(answered := r.view.answered) && !r.leaving
  {
    if v.status != Live then Quiet(v)
    else
      var note := if note == Some("") then None else note;
      Reaction(v.(answered := v.answered + {ask.id}), [DecideAsk(ask.id, decision, note)], false)
  }

  function PressDenial(v: View, key: Key): (r: Reaction)
    requires v.denial.Some?
    ensures r.view == v.(denial := r.view.denial, answered := r.view.answered) && !r.leaving
  {
    var Denial(ask, reason) := v.denial.value;
    if key.code == Enter then Answer(v.(denial := None), ask, "deny", Some(Trim(reason)))
    else if key.code == Esc then Quiet(v.(denial := None))
    else if key.code == Backspace then
      Quiet(v.(denial := Some(Denial(ask, if reason == "" then "" else reason[..|reason| - 1]))))
    else if key.code.Char? && !key.control && |reason| < REASON_LIMIT then
      Quiet(v.(denial := Some(Denial(ask, reason + [key.code.c]))))
    else Quiet(v)
  }

  function PressAsk(v: View, key: Key): (r: Reaction)
    requires Shown(v).Some?
    ensures r.view == v.(denial := r.view.denial, answered := r.view.answered, later := r.view.later) && !r.leaving
  {
    var ask := Shown(v).value;
    if key.code == Char('y') then Answer(v, ask, "allow", None)
    else if key.code == Char('a') && ask.forAgent then Answer(v, ask, "allow_agent", None)
    else if key.code == Char('n') then Answer(v, ask, "deny", None)
    else if key.code == Char('r') && ask.kind != "network" then Quiet(v.(denial := Some(Denial(ask, ""))))
    else if key.code == Esc then Quiet(v.(later := v.later + {ask.id}))
    else Quiet(v)
  }

  function PressRetire(v: View, key: Key): Reaction
    requires v.retire.Some?
  {
    Reaction(v.(retire := None),
             if key.code == Char('y') && v.status == Live then [RetireLesson(v.retire.value.code)] else [], false)
  }

  function PressLesson(v: View, key: Key): (r: Reaction)
    requires v.lessons != []
    ensures r.view == v.(retire := r.view.retire, lessons := r.view.lessons) && !r.leaving
    ensures r.sent == []
  {
    if key.code == Char('r') then Quiet(v.(retire := Some(v.lessons[0]), lessons := v.lessons[1..]))
    else if key.code in {Char('o'), Enter, Esc} then Quiet(v.(lessons := v.lessons[1..]))
    else Quiet(v)
  }

  function PressStart(v: View, key: Key): Reaction
    requires v.start.Some?
  {
    Reaction(v.(start := None),
             if key.code == Char('y') && v.status == Live then [ConfirmDispatch(v.start.value.id)] else [], false)
  }

  function PressConfirm(v: View, key: Key): Reaction
    requires v.confirm.Some?
  {
    Reaction(v.(confirm := None),
             if key.code == Char('y') && v.status == Live
             then [CancelDispatch(v.confirm.value.id, CANCEL_REASON)] else [], false)
  }

  function ToCancel(v: View, id: Option<string>): View {
    if id.None? then v
    else match Found(v.dispatches, id.value)
         case Some(d) => if Cancellable(d.state) then v.(confirm := Some(d)) else v
         case None => v
  }

  function ToStart(v: View, id: Option<string>): View {
    if id.None? then v
    else match Found(v.dispatches, id.value)
         case Some(d) => if d.state == "held" then v.(start := Some(d)) else v
         case None => v
  }

  function PressDetail(v: View, key: Key): (r: Reaction)
    requires v.detail.Some?
    ensures r.view == v.(detail := r.view.detail, start := r.view.start, confirm := r.view.confirm) && !r.leaving
  {
    var Detail(id, scroll) := v.detail.value;
    if key.code == Esc then Reaction(v.(detail := None), [Unwatch], false)
    else if key.code == Up then Quiet(v.(detail := Some(Detail(id, if scroll == 0 then 0 else scroll - 1))))
    else if key.code == Down then Quiet(v.(detail := Some(Detail(id, Min(scroll + 1, USIZE_MAX)))))
    else if key.code == Char('c') then Quiet(ToCancel(v, Some(id)))
    else if key.code == Char('s') then Quiet(ToStart(v, Some(id)))
    else Quiet(v)
  }

  function PressTab(v: View): (r: Reaction)
    ensures r.view == v.(selected := r.view.selected, agentsFocus := r.view.agentsFocus) && !r.leaving
  {
    Quiet(v.(agentsFocus := !v.agentsFocus,
             selected := if v.selected.None? then Selected(v.dispatches, None, 0) else v.selected))
  }

  function PressAgents(v: View, key: Key): (r: Reaction)
    ensures r.view == v.(selected := r.view.selected, agentsFocus := r.view.agentsFocus, detail := r.view.detail,
                         start := r.view.start, confirm := r.view.confirm) && !r.leaving
    ensures key.code == Tab ==> r == PressTab(v)
  {
    if key.code == Tab then PressTab(v)
    else if key.code == Up then Quiet(v.(selected := Selected(v.dispatches, v.selected, -1)))
    else if key.code == Down then Quiet(v.(selected := Selected(v.dispatches, v.selected, 1)))
    else if key.code == Esc then Quiet(v.(agentsFocus := false))
    else if key.code == Enter && v.selected.Some? then
      Reaction(v.(detail := Some(Detail(v.selected.value, 0))), [Watch(v.selected.value)], false)
    else if key.code == Char('c') then Quiet(ToCancel(v, v.selected))
    else if key.code == Char('s') then Quiet(ToStart(v, v.selected))
    else Quiet(v)
  }

  /** A character with Ctrl or Alt, as in a shell, or typed. */
  function Chorded(line: Line, key: Key, c: char): (r: Line)
    requires Sound(line)
    ensures Sound(r)
  {
    if key.control && c == 'c' then line
    else if key.control && c == 'j' then Put(line, "\n")
    else if key.control && c == 'a' then line.(at := Back(Break, line.text, line.at))
    else if key.control && c == 'e' then line.(at := Forth(Break, line.text, line.at))
    else if key.control && c == 'w' then Cut(line, PreviousWord(line), line.at)
    else if key.control && c == 'k' then Cut(line, line.at, Forth(Break, line.text, line.at))
    else if key.control && c == 'u' then Cut(line, Back(Break, line.text, line.at), line.at)
    else if key.control && c == 'd' then Deleted(line)
    else if key.alt && c == 'b' then line.(at := PreviousWord(line))
    else if key.alt && c == 'f' then line.(at := NextWord(line))
    else if !key.control && !key.alt then Put(line, [c])
    else line
  }

  /** An editing key: what it does to the line. */
  function Edited(line: Line, key: Key): (r: Line)
    requires Sound(line)
    ensures Sound(r)
  {
    var word := key.alt || key.control;
    if key.code.Char? then Chorded(line, key, key.code.c)
    else if key.code == Left then
      line.(at := if word then PreviousWord(line) else if line.at == 0 then 0 else line.at - 1)
    else if key.code == Right then line.(at := if word then NextWord(line) else Min(line.at + 1, |line.text|))
    else if key.code == Backspace then
      if word then Cut(line, PreviousWord(line), line.at)
      else if line.at == 0 then line else Cut(line, line.at - 1, line.at)
    else if key.code == Delete then Deleted(line)
    else if key.code == Up then if LineUp(line).Some? then LineUp(line).value else line
    else if key.code == Down then if LineDown(line).Some? then LineDown(line).value else line
    else if key.code == Enter then if key.alt || key.shift then Put(line, "\n") else Line("", 0)
    else if key.code == Home then line.(at := Back(Break, line.text, line.at))
    else if key.code == End then line.(at := Forth(Break, line.text, line.at))
    else line
  }

  function Deleted(line: Line): Line
    requires Sound(line)
  {
    if line.at == |line.text| then line else Cut(line, line.at, line.at + 1)
  }

  predicate Submits(key: Key) { key.code == Enter && !key.alt && !key.shift }

  /** `newId` is a new message id, or none when there is no randomness. */
  function Sends(command: Command, newId: Option<string>): seq<Outgoing> {
    if command.Say? then if newId.None? then [] else [Outgoing.Say(newId.value, command.text)]
    else if command == Cancel then [CancelTurn]
    else if command.Handoff? then [Outgoing.Handoff(command.note)]
    else []
  }

  function PressLine(v: View, key: Key, newId: Option<string>): (r: Reaction)
    requires Sound(v.line)
    ensures Sound(r.view.line)
    ensures r.view == v.(line := r.view.line, slash := r.view.slash, help := r.view.help)
  {
    var line := Edited(v.line, key);
    var w := v.(line := line, slash := if line.text != v.line.text then 0 else v.slash);
    if Submits(key) then
      var command := Named(v.line.text);
      Reaction(w.(help := w.help || command == Help), Sends(command, newId), command == Exit)
    else Reaction(w, [], Leaves(key))
  }

  /** The menu entry above or below, round the ends. */
  function Above(chosen: nat, n: nat): nat
    requires n > 0
  {
    (chosen + n - 1) % n
  }

  function Below(chosen: nat, n: nat): nat
    requires n > 0
  {
    (chosen + 1) % n
  }

  /** With the menu open: choose, complete, run, or go on typing. */
  function PressMenu(v: View, key: Key, newId: Option<string>): (r: Reaction)
    requires Sound(v.line) && SlashMatches(v.line.text) != []
    ensures Sound(r.view.line)
    ensures r.view == v.(line := r.view.line, slash := r.view.slash, help := r.view.help)
  {
    var matches := SlashMatches(v.line.text);
    var n := |matches|;
    var chosen := Min(v.slash, n - 1);
    var completed := Line(matches[chosen], |matches[chosen]|);
    if key.code == Up then Quiet(v.(slash := Above(chosen, n)))
    else if key.code == Down then Quiet(v.(slash := Below(chosen, n)))
    else if key.code == Tab then Quiet(v.(line := completed))
    else PressLine(if Submits(key) then v.(line := completed) else v, key, newId)
  }

  predicate TakenByAsks(v: View, key: Key) { v.denial.Some? || Shown(v).Some? || Recalls(v, key) }

  function PressAsks(v: View, key: Key): (r: Reaction)
    requires TakenByAsks(v, key)
    ensures r.view == v.(denial := r.view.denial, answered := r.view.answered, later := r.view.later) && !r.leaving
  {
    if v.denial.Some? then PressDenial(v, key)
    else if Shown(v).Some? then PressAsk(v, key)
    else Quiet(v.(later := {}))
  }

  predicate Questioned(v: View) { v.retire.Some? || v.lessons != [] || v.start.Some? || v.confirm.Some? }

  function PressQuestion(v: View, key: Key): (r: Reaction)
    requires Questioned(v)
    ensures r.view == v.(retire := r.view.retire, lessons := r.view.lessons,
                         start := r.view.start, confirm := r.view.confirm) && !r.leaving
  {
    if v.retire.Some? then PressRetire(v, key)
    else if v.lessons != [] then PressLesson(v, key)
    else if v.start.Some? then PressStart(v, key)
    else PressConfirm(v, key)
  }

  predicate Popped(v: View, key: Key) { TakenByAsks(v, key) || Questioned(v) || v.detail.Some? }

  function PressPopup(v: View, key: Key): (r: Reaction)
    requires Popped(v, key)
    ensures r.view == v.(
      denial := r.view.denial, answered := r.view.answered, later := r.view.later, retire := r.view.retire,
      lessons := r.view.lessons, start := r.view.start, confirm := r.view.confirm, detail := r.view.detail)
    ensures !r.leaving
  {
    if TakenByAsks(v, key) then PressAsks(v, key)
    else if Questioned(v) then PressQuestion(v, key)
    else PressDetail(v, key)
  }

  /** The input line, its menu and Tab. */
  function PressInput(v: View, key: Key, newId: Option<string>): (r: Reaction)
    requires Sound(v.line)
    ensures r.view == v.(line := r.view.line, slash := r.view.slash, help := r.view.help,
                         selected := r.view.selected, agentsFocus := r.view.agentsFocus)
  {
    if SlashMatches(v.line.text) != [] then PressMenu(v, key, newId)
    else if key.code == Tab then PressTab(v)
    else PressLine(v, key, newId)
  }

  function PressPlain(v: View, key: Key, newId: Option<string>): Reaction
    requires Sound(v.line)
  {
    if v.agentsFocus then PressAgents(v, key) else PressInput(v, key, newId)
  }

  /** `key_pressed`. */
  function Press(v: View, key: Key, newId: Option<string>): Reaction
    requires Sound(v.line)
  {
    if Leaves(key) then Reaction(v, [], true)
    else if Popped(v, key) then PressPopup(v, key)
    else PressPlain(v, key, newId)
  }

  // ------------------------------------------------------------- Other events

  /** Dispatches, lessons and asks of one `state` push; asks may be missing. */
  datatype Push = Push(dispatches: seq<Dispatch>, lessons: seq<Lesson>, asks: Option<seq<Ask>>)

  /** The lessons that pop up, and those seen from now on. */
  function PoppedUp(lessons: seq<Lesson>, seen: set<string>): seq<Lesson> {
    if lessons == [] then []
    else
      var front := lessons[..|lessons| - 1];
      var last := lessons[|lessons| - 1];
      PoppedUp(front, seen)
      + if last.code == "" || last.code in SeenAfter(front, seen) then [] else [last]
  }

  function SeenAfter(lessons: seq<Lesson>, seen: set<string>): set<string> {
    if lessons == [] then seen
    else
      var last := lessons[|lessons| - 1];
      SeenAfter(lessons[..|lessons| - 1], seen) + if last.code == "" then {} else {last.code}
  }

  /** The selection, or the first dispatch when it is no longer listed. */
  function Kept(selected: Option<string>, dispatches: seq<Dispatch>): Option<string> {
    if selected.Some? && Found(dispatches, selected.value).Some? then selected
    else if dispatches == [] then None else Some(dispatches[0].id)
  }

  /** Those of `ids` that are still listed, if asks were pushed at all. */
  function Still(ids: set<string>, asks: Option<seq<Ask>>): set<string> {
    if asks.None? then ids else ids * Listed(asks.value)
  }

  function NewLessons(loaded: bool, lessons: seq<Lesson>, seen: set<string>): seq<Lesson> {
    if loaded then PoppedUp(lessons, seen) else []
  }

  /** `apply_state`, as far as keys are concerned. */
  function Pushed(v: View, push: Push): View {
    v.(dispatches := push.dispatches,
       selected := Kept(v.selected, push.dispatches),
       lessons := v.lessons + NewLessons(v.loaded, push.lessons, v.seen),
       seen := SeenAfter(push.lessons, v.seen),
       loaded := true,
       asks := if push.asks.None? then v.asks else push.asks.value,
       answered := Still(v.answered, push.asks),
       later := Still(v.later, push.asks))
  }

  datatype Event =
    | Pressed(key: Key, newId: Option<string>)
    | Pasted(text: string)
    | StatePush(push: Push)
    | Connection(status: Status)

  /** One event. While help is open the next key closes it and does no more. */
  function React(v: View, event: Event): Reaction
    requires Sound(v.line)
  {
    match event
    case Pressed(key, newId) => if v.help then Quiet(v.(help := false)) else Press(v, key, newId)
    case Pasted(text) => Quiet(v.(line := Put(v.line, ChatText.Cleaned(text))))
    case StatePush(push) => Quiet(Pushed(v, push))
    case Connection(status) => Quiet(v.(status := status))
  }

  // ------------------------------------------------------------ The client's form

  class Screen {
    var status: Status
    var asks: seq<Ask>
    var answered: set<string>
    var later: set<string>
    var denial: Option<Denial>
    var retire: Option<Lesson>
    var lessons: seq<Lesson>
    var seen: set<string>
    var loaded: bool
    var start: Option<Dispatch>
    var confirm: Option<Dispatch>
    var dispatches: seq<Dispatch>
    var selected: Option<string>
    var detail: Option<Detail>
    var agentsFocus: bool
    var slash: nat
    var help: bool
    const editor: Editor
    var outbox: seq<Outgoing>

    ghost function Now(): View
      requires editor.Valid()
      reads this, editor
    {
      View(status, asks, answered, later, denial, retire, lessons, seen, loaded, start, confirm, dispatches,
           selected, detail, agentsFocus, slash, help, editor.Meaning())
    }

    /** The screen and the outbox are what the reaction says. */
    twostate predicate Did(r: Reaction)
      requires editor.Valid()
      reads this, editor
    {
      Now() == r.view && outbox == old(outbox) + r.sent
    }

    constructor ()
      ensures editor.Valid() && fresh(editor) && Now() == OPENED && outbox == []
    {
      status, asks, answered, later, denial, retire := Connecting, [], {}, {}, None, None;
      lessons, seen, loaded, start, confirm, dispatches := [], {}, false, None, None, [];
      selected, detail, agentsFocus, slash, help, outbox := None, None, false, 0, false, [];
      editor := new Editor();
    }

    method SendAnswer(ask: Ask, decision: string, note: Option<string>)
      requires editor.Valid()
      modifies `outbox, `answered
      ensures var r := Answer(old(Now()), ask, decision, note);
              answered == r.view.answered && outbox == old(outbox) + r.sent
    {
      hide Boundary, Chars;
      if status != Live {
        return;
      }
      outbox := outbox + [DecideAsk(ask.id, decision, if note == Some("") then None else note)];
      answered := answered + {ask.id};
    }

    method AskCancel(id: Option<string>)
      requires editor.Valid()
      modifies `confirm
      ensures confirm == ToCancel(old(Now()), id).confirm
    {
      hide Boundary, Chars;
      if id.Some? {
        var found := Found(dispatches, id.value);
        if found.Some? && Cancellable(found.value.state) {
          confirm := found;
        }
      }
    }

    method AskStart(id: Option<string>)
      requires editor.Valid()
      modifies `start
      ensures start == ToStart(old(Now()), id).start
    {
      hide Boundary, Chars;
      if id.Some? {
        var found := Found(dispatches, id.value);
        if found.Some? && found.value.state == "held" {
          start := found;
        }
      }
    }

    method Select(steps: int)
      requires editor.Valid()
      modifies `selected
      ensures selected == Selected(dispatches, old(selected), steps)
    {
      hide Boundary, Chars;
      if dispatches == [] {
        selected := None;
        return;
      }
      var at := if selected.None? then None else Position(dispatches, selected.value);
      var current := if at.None? then 0 else at.value;
      var moved := if current + steps < 0 then 0 else current + steps;
      selected := Some(dispatches[Min(moved, |dispatches| - 1)].id);
    }

    method DenialKey(ask: Ask, reason: string, key: Key)
      requires editor.Valid() && denial.None?
      modifies `denial, `outbox, `answered
      ensures var r := PressDenial(old(Now()).(denial := Some(Denial(ask, reason))), key);
              denial == r.view.denial && answered == r.view.answered && outbox == old(outbox) + r.sent
    {
      hide Boundary, Chars, Trim;
      if key.code == Enter {
        SendAnswer(ask, "deny", Some(Trim(reason)));
      } else if key.code == Esc {
      } else if key.code == Backspace {
        denial := Some(Denial(ask, if reason == "" then "" else reason[..|reason| - 1]));
      } else if key.code.Char? && !key.control && |reason| < REASON_LIMIT {
        denial := Some(Denial(ask, reason + [key.code.c]));
      } else {
        denial := Some(Denial(ask, reason));
      }
    }

    method AskKey(ask: Ask, key: Key)
      requires editor.Valid() && Shown(Now()) == Some(ask)
      modifies `denial, `outbox, `answered, `later
      ensures var r := PressAsk(old(Now()), key);
              && denial == r.view.denial && answered == r.view.answered && later == r.view.later
              && outbox == old(outbox) + r.sent
    {
      hide Boundary, Chars;
      if key.code == Char('y') {
        SendAnswer(ask, "allow", None);
      } else if key.code == Char('a') && ask.forAgent {
        SendAnswer(ask, "allow_agent", None);
      } else if key.code == Char('n') {
        SendAnswer(ask, "deny", None);
      } else if key.code == Char('r') && ask.kind != "network" {
        denial := Some(Denial(ask, ""));
      } else if key.code == Esc {
        later := later + {ask.id};
      }
    }

    method LessonKey(key: Key)
      requires editor.Valid() && lessons != []
      modifies `retire, `lessons
      ensures var r := PressLesson(old(Now()), key);
              retire == r.view.retire && lessons == r.view.lessons && r.sent == []
    {
      hide Boundary, Chars;
      if key.code == Char('r') {
        retire := Some(lessons[0]);
      } else if key.code != Char('o') && key.code != Enter && key.code != Esc {
        return;
      }
      lessons := lessons[1..];
    }

    method DetailKey(key: Key)
      requires editor.Valid() && detail.Some?
      modifies `detail, `confirm, `start, `outbox
      ensures var r := PressDetail(old(Now()), key);
              && detail == r.view.detail && start == r.view.start && confirm == r.view.confirm
              && outbox == old(outbox) + r.sent
    {
      hide Boundary, Chars;
      var Detail(id, scroll) := detail.value;
      if key.code == Esc {
        detail := None;
        outbox := outbox + [Unwatch];
      } else if key.code == Up {
        detail := Some(Detail(id, if scroll == 0 then 0 else scroll - 1));
      } else if key.code == Down {
        detail := Some(Detail(id, Min(scroll + 1, USIZE_MAX)));
      } else if key.code == Char('c') {
        AskCancel(Some(id));
      } else if key.code == Char('s') {
        AskStart(Some(id));
      }
    }

    method TabKey()
      requires editor.Valid()
      modifies `agentsFocus, `selected
      ensures var r := PressTab(old(Now()));
              selected == r.view.selected && agentsFocus == r.view.agentsFocus && r.sent == []
    {
      hide Boundary, Chars, Selected;
      agentsFocus := !agentsFocus;
      if selected.None? {
        Select(0);
      }
    }

    method AgentsKey(key: Key)
      requires editor.Valid()
      modifies `selected, `agentsFocus, `detail, `confirm, `start, `outbox
      ensures var r := PressAgents(old(Now()), key);
              && selected == r.view.selected && agentsFocus == r.view.agentsFocus && detail == r.view.detail
              && start == r.view.start && confirm == r.view.confirm && outbox == old(outbox) + r.sent
    {
      hide Boundary, Chars;
      if key.code == Tab {
        TabKey();
      } else if key.code == Up {
        Select(-1);
      } else if key.code == Down {
        Select(1);
      } else if key.code == Esc {
        agentsFocus := false;
      } else if key.code == Enter && selected.Some? {
        detail := Some(Detail(selected.value, 0));
        outbox := outbox + [Watch(selected.value)];
      } else if key.code == Char('c') {
        AskCancel(selected);
      } else if key.code == Char('s') {
        AskStart(selected);
      }
    }

    method ChordKey(key: Key, c: char)
      requires editor.Valid()
      modifies editor
      ensures editor.Valid() && editor.Meaning() == Chorded(old(editor.Meaning()), key, c)
    {
      hide Boundary, Chars, Back, Forth, PreviousWord, NextWord, Cut, Put;
      if key.control && c == 'c' {
      } else if key.control && c == 'j' {
        editor.Insert('\n');
      } else if key.control && c == 'a' {
        editor.Home();
      } else if key.control && c == 'e' {
        editor.End();
      } else if key.control && c == 'w' {
        editor.DeleteWordBack();
      } else if key.control && c == 'k' {
        editor.KillToEnd();
      } else if key.control && c == 'u' {
        editor.KillToStart();
      } else if key.control && c == 'd' {
        editor.DeleteForward();
      } else if key.alt && c == 'b' {
        editor.WordLeft();
      } else if key.alt && c == 'f' {
        editor.WordRight();
      } else if !key.control && !key.alt {
        editor.Insert(c);
      }
    }

    method EditKey(key: Key)
      requires editor.Valid() && !Submits(key)
      modifies editor
      ensures editor.Valid() && editor.Meaning() == Edited(old(editor.Meaning()), key)
    {
      hide Boundary, Chars, Chorded, Back, Forth, PreviousWord, NextWord, Cut, Put, LineUp, LineDown;
      var word := key.alt || key.control;
      if key.code.Char? {
        ChordKey(key, key.code.c);
      } else if key.code == Left {
        if word { editor.WordLeft(); } else { editor.Left(); }
      } else if key.code == Right {
        if word { editor.WordRight(); } else { editor.Right(); }
      } else if key.code == Backspace {
        if word { editor.DeleteWordBack(); } else { editor.Backspace(); }
      } else if key.code == Delete {
        editor.DeleteForward();
      } else if key.code == Up {
        var _ := editor.Up();
      } else if key.code == Down {
        var _ := editor.Down();
      } else if key.code == Enter {
        editor.Insert('\n');
      } else if key.code == Home {
        editor.Home();
      } else if key.code == End {
        editor.End();
      }
    }

    method Edit(key: Key, newId: Option<string>) returns (leaving: bool)
      requires editor.Valid()
      modifies `outbox, `help, editor
      ensures editor.Valid()
      ensures var r := PressLine(old(Now()), key, newId);
              && leaving == r.leaving && help == r.view.help && editor.Meaning() == r.view.line
              && outbox == old(outbox) + r.sent
    {
      hide Boundary, Chars, Named, Sends;
      if Leaves(key) {
        return true;
      }
      if Submits(key) {
        leaving := Run(newId);
      } else {
        EditKey(key);
        leaving := false;
      }
    }

    method Run(newId: Option<string>) returns (leaving: bool)
      requires editor.Valid()
      modifies `outbox, `help, editor
      ensures editor.Valid() && editor.Meaning() == Line("", 0)
      ensures var command := Named(old(editor.text));
              && leaving == (command == Exit)
              && help == (old(help) || command == Help)
              && outbox == old(outbox) + Sends(command, newId)
    {
      hide Boundary, Chars;
      leaving := false;
      var command := editor.Submit();
      if command.Say? {
        if newId.Some? {
          outbox := outbox + [Outgoing.Say(newId.value, command.text)];
        }
      } else if command == Help {
        help := true;
      } else if command == Cancel {
        outbox := outbox + [CancelTurn];
      } else if command.Handoff? {
        outbox := outbox + [Outgoing.Handoff(command.note)];
      } else if command == Exit {
        leaving := true;
      }
    }

    /** Returns whether the key was used up by the menu. */
    method MenuKey(key: Key) returns (used: bool)
      requires editor.Valid() && SlashMatches(editor.text) != []
      modifies `slash, editor
      ensures editor.Valid()
      ensures used <==> key.code in {Up, Down, Tab}
      ensures used ==> forall newId :: PressMenu(old(Now()), key, newId) == Quiet(Now())
      ensures !used ==> forall newId :: PressMenu(old(Now()), key, newId) == PressLine(Now(), key, newId)
    {
      hide Boundary, Chars, SlashMatches, PressLine, Above, Below;
      var matches := SlashMatches(editor.text);
      var chosen := Min(slash, |matches| - 1);
      if key.code == Up {
        slash := Above(chosen, |matches|);
        return true;
      }
      if key.code == Down {
        slash := Below(chosen, |matches|);
        return true;
      }
      if key.code == Tab {
        editor.Set(matches[chosen]);
        return true;
      }
      if key.code == Enter && !key.alt && !key.shift {
        editor.Set(matches[chosen]);
      }
      return false;
    }

    /** Asks, a denial's reason and `A`; false when none of them takes the key. */
    method AsksKey(key: Key) returns (used: bool)
      requires editor.Valid()
      modifies `denial, `outbox, `answered, `later
      ensures used == TakenByAsks(old(Now()), key)
      ensures var r := if used then PressAsks(old(Now()), key) else Quiet(old(Now()));
              && denial == r.view.denial && answered == r.view.answered && later == r.view.later
              && outbox == old(outbox) + r.sent
    {
      hide Boundary, Chars, PressDenial, PressAsk, CurrentAsk;
      var typed := denial;
      denial := None;
      if typed.Some? {
        DenialKey(typed.value.ask, typed.value.reason, key);
        return true;
      }
      var ask := CurrentAsk(asks, answered, later);
      if ask.Some? {
        AskKey(ask.value, key);
        return true;
      }
      if key.code == Char('A') && later != {} {
        later := {};
        return true;
      }
      return false;
    }

    /** Questions about lessons and dispatches; false when there is none. */
    method QuestionKey(key: Key) returns (used: bool)
      requires editor.Valid()
      modifies `retire, `lessons, `start, `confirm, `outbox
      ensures used == Questioned(old(Now()))
      ensures var r := if used then PressQuestion(old(Now()), key) else Quiet(old(Now()));
              && retire == r.view.retire && lessons == r.view.lessons && start == r.view.start
              && confirm == r.view.confirm && outbox == old(outbox) + r.sent
    {
      hide Boundary, Chars, PressLesson;
      var retiring := retire;
      retire := None;
      if retiring.Some? {
        if key.code == Char('y') && status == Live {
          outbox := outbox + [RetireLesson(retiring.value.code)];
        }
        return true;
      }
      if lessons != [] {
        LessonKey(key);
        return true;
      }
      var starting := start;
      start := None;
      if starting.Some? {
        if key.code == Char('y') && status == Live {
          outbox := outbox + [ConfirmDispatch(starting.value.id)];
        }
        return true;
      }
      var cancelling := confirm;
      confirm := None;
      if cancelling.Some? {
        if key.code == Char('y') && status == Live {
          outbox := outbox + [CancelDispatch(cancelling.value.id, CANCEL_REASON)];
        }
        return true;
      }
      return false;
    }

    /** Whatever is open above the input line; false when nothing is. */
    method PopupKey(key: Key) returns (used: bool)
      requires editor.Valid()
      modifies `denial, `answered, `later, `retire, `lessons, `start, `confirm, `detail, `outbox
      ensures used == Popped(old(Now()), key)
      ensures var r := if used then PressPopup(old(Now()), key) else Quiet(old(Now()));
              && denial == r.view.denial && answered == r.view.answered && later == r.view.later
              && retire == r.view.retire && lessons == r.view.lessons && start == r.view.start
              && confirm == r.view.confirm && detail == r.view.detail && outbox == old(outbox) + r.sent
    {
      hide Boundary, Chars, TakenByAsks, PressAsks, Questioned, PressQuestion, PressDetail;
      used := AsksKey(key);
      if used {
        return;
      }
      used := QuestionKey(key);
      if used {
        return;
      }
      if detail.Some? {
        DetailKey(key);
        return true;
      }
    }

    method KeyPressed(key: Key, newId: Option<string>) returns (leaving: bool)
      requires editor.Valid()
      modifies this, editor
      ensures editor.Valid()
      ensures Did(Press(old(Now()), key, newId)) && leaving == Press(old(Now()), key, newId).leaving
    {
      hide Boundary, Chars, Popped, PressPopup, PressPlain;
      if Leaves(key) {
        return true;
      }
      var used := PopupKey(key);
      if used {
        return false;
      }
      leaving := PlainKey(key, newId);
    }

    method PlainKey(key: Key, newId: Option<string>) returns (leaving: bool)
      requires editor.Valid()
      modifies `slash, `selected, `agentsFocus, `detail, `confirm, `start, `help, `outbox, editor
      ensures editor.Valid()
      ensures Did(PressPlain(old(Now()), key, newId)) && leaving == PressPlain(old(Now()), key, newId).leaving
    {
      hide Boundary, Chars, PressAgents, PressInput;
      leaving := false;
      if agentsFocus {
        AgentsKey(key);
      } else {
        leaving := InputKey(key, newId);
      }
    }

    method InputKey(key: Key, newId: Option<string>) returns (leaving: bool)
      requires editor.Valid() && !agentsFocus
      modifies `slash, `selected, `agentsFocus, `help, `outbox, editor
      ensures editor.Valid()
      ensures Did(PressInput(old(Now()), key, newId)) && leaving == PressInput(old(Now()), key, newId).leaving
    {
      hide Boundary, Chars, PressMenu, PressLine, PressTab, SlashMatches;
      if SlashMatches(editor.text) != [] {
        var used := MenuKey(key);
        if used {
          return false;
        }
      } else if key.code == Tab {
        TabKey();
        return false;
      }
      leaving := LineKey(key, newId);
    }

    method LineKey(key: Key, newId: Option<string>) returns (leaving: bool)
      requires editor.Valid()
      modifies `slash, `help, `outbox, editor
      ensures editor.Valid()
      ensures Did(PressLine(old(Now()), key, newId)) && leaving == PressLine(old(Now()), key, newId).leaving
    {
      hide Boundary, Chars, Edited, Named, Sends;
      var before := editor.text;
      leaving := Edit(key, newId);
      if editor.text != before {
        slash := 0;
      }
    }

    method ApplyLessons(pushed: seq<Lesson>)
      requires editor.Valid()
      modifies `lessons, `seen, `loaded
      ensures seen == SeenAfter(pushed, old(seen)) && loaded
      ensures lessons == old(lessons) + NewLessons(old(loaded), pushed, old(seen))
    {
      var i := 0;
      while i < |pushed|
        invariant 0 <= i <= |pushed|
        invariant seen == SeenAfter(pushed[..i], old(seen)) && loaded == old(loaded)
        invariant lessons == old(lessons) + if loaded then PoppedUp(pushed[..i], old(seen)) else []
      {
        var lesson := pushed[i];
        assert pushed[..i + 1][..i] == pushed[..i];
        i := i + 1;
        if lesson.code == "" || lesson.code in seen {
          continue;
        }
        seen := seen + {lesson.code};
        if loaded {
          lessons := lessons + [lesson];
        }
      }
      assert pushed[..i] == pushed;
      loaded := true;
    }

    method ApplyAsks(pushed: Option<seq<Ask>>)
      modifies `asks, `answered, `later
      ensures asks == if pushed.None? then old(asks) else pushed.value
      ensures answered == Still(old(answered), pushed) && later == Still(old(later), pushed)
    {
      if pushed.None? {
        return;
      }
      asks := pushed.value;
      var listed := Listed(asks);
      answered := set id | id in answered && id in listed;
      later := set id | id in later && id in listed;
    }

    method KeepSelected(pushed: seq<Dispatch>)
      modifies `dispatches, `selected
      ensures dispatches == pushed && selected == Kept(old(selected), pushed)
    {
      dispatches := pushed;
      if selected.None? || Found(dispatches, selected.value).None? {
        selected := if dispatches == [] then None else Some(dispatches[0].id);
      }
    }

    method ApplyState(push: Push)
      requires editor.Valid()
      modifies `dispatches, `selected, `lessons, `seen, `loaded, `asks, `answered, `later
      ensures Now() == Pushed(old(Now()), push)
    {
      hide Boundary, Chars, SeenAfter, NewLessons, Still, Kept;
      KeepSelected(push.dispatches);
      ApplyLessons(push.lessons);
      ApplyAsks(push.asks);
    }

    /** One event of the terminal, or of the connection. */
    method Handle(event: Event) returns (leaving: bool)
      requires editor.Valid()
      modifies this, editor
      ensures editor.Valid()
      ensures Did(React(old(Now()), event)) && leaving == React(old(Now()), event).leaving
    {
      hide Boundary, Chars;
      leaving := false;
      match event
      case Pressed(key, newId) =>
        if help {
          help := false;
        } else {
          leaving := KeyPressed(key, newId);
        }
      case Pasted(text) => editor.Paste(text);
      case StatePush(push) => ApplyState(push);
      case Connection(now) => status := now;
    }
  }
}
