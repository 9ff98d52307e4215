/** How the terminal helper starts a provider and how the provider's process
    group dies with it: helper, bootstrap child and guardian as three processes
    whose steps interleave freely, the helper possibly dying between any two. */
module Guardian {
  import opened Wrappers

  /** Where the helper is: it has a child, knows its group, has a guardian, saw
      the bootstrap ready, told it to go on, or is dropping its guardian. */
  datatype Helper =
    | Begun | HasChild | HasGroup | Unguarded | HasGuardian | SawReady | Looping
    | Dropping | Killed | Told | Gone

  datatype Watcher = NotStarted | Watching | AboutToKill | Ended

  /** The child runs the bootstrap, which waits before it becomes the provider. */
  datatype Child = Absent | Bootstrapping | Waiting | Provider | Dead

  /** `ack` and `done` are the bytes written to the child and to the guardian;
      `executed`, `guarded` and `killed` record that a provider was executed,
      a guardian existed, and the group was sent SIGKILL. */
  datatype State = State(
    helper: Helper, watcher: Watcher, child: Child, ack: bool, done: bool,
    executed: bool, guarded: bool, killed: bool)

  const INITIAL: State := State(Begun, NotStarted, Absent, false, false, false, false, false)

  datatype Step =
    // the helper
    | SpawnChild(ok: bool)
    | CheckGroup(ok: bool)
    | StartGuardian(ok: bool)
    | KillUnguarded
    | AwaitBootstrap(ok: bool)
    | Acknowledge(ok: bool)
    | KillFromLoop
    | LeaveLoop
    | DropKills
    | DropTells(ok: bool)
    | DropWaits
    | Crash
    // the guardian
    | GuardReads
    | GuardSeesEnd
    | GuardKills
    // the child
    | BootstrapReady
    | BootstrapGoesOn(executes: bool)
    | ChildEnds

  function KillGroup(s: State): State {
    s.(killed := true, child := if s.child == Absent then Absent else Dead)
  }

  /** The helper's end of the guardian's pipe is closed. */
  predicate LetGo(s: State) { s.helper == Gone || s.helper == Told }

  predicate Enabled(s: State, step: Step) {
    match step
    case SpawnChild(_) => s.helper == Begun
    case CheckGroup(_) => s.helper == HasChild
    case StartGuardian(_) => s.helper == HasGroup
    case KillUnguarded => s.helper == Unguarded
    case AwaitBootstrap(ok) => s.helper == HasGuardian && (ok ==> s.child != Bootstrapping)
    case Acknowledge(_) => s.helper == SawReady
    case KillFromLoop => s.helper == Looping
    case LeaveLoop => s.helper == Looping
    case DropKills => s.helper == Dropping
    case DropTells(_) => s.helper == Killed
    case DropWaits => s.helper == Told && s.watcher == Ended
    case Crash => s.helper != Gone
    // The pipe closes behind the byte, or with the helper; a byte written is read first.
    case GuardReads => s.watcher == Watching && s.done
    case GuardSeesEnd => s.watcher == Watching && LetGo(s) && !s.done
    case GuardKills => s.watcher == AboutToKill
    case BootstrapReady => s.child == Bootstrapping
    case BootstrapGoesOn(_) => s.child == Waiting && s.ack
    // A hang-up ends a bootstrap whose helper is gone; anything may end a child.
    case ChildEnds => s.child != Absent
  }

  function Apply(s: State, step: Step): State
    requires Enabled(s, step)
  {
    match step
    case SpawnChild(ok) => if ok then s.(helper := HasChild, child := Bootstrapping) else s.(helper := Gone)
    case CheckGroup(ok) => if ok then s.(helper := HasGroup) else s.(helper := Gone, child := Dead)
    case StartGuardian(ok) =>
      if ok then s.(helper := HasGuardian, watcher := Watching, guarded := true) else s.(helper := Unguarded)
    case KillUnguarded => KillGroup(s).(helper := Gone)
    case AwaitBootstrap(ok) => s.(helper := if ok then SawReady else Dropping)
    case Acknowledge(ok) => if ok then s.(helper := Looping, ack := true) else s.(helper := Dropping)
    case KillFromLoop => KillGroup(s)
    case LeaveLoop => s.(helper := Dropping)
    case DropKills => KillGroup(s).(helper := Killed)
    case DropTells(ok) => s.(helper := Told, done := ok)
    case DropWaits => s.(helper := Gone)
    case Crash => s.(helper := Gone)
    case GuardReads => s.(watcher := Ended)
    case GuardSeesEnd => s.(watcher := AboutToKill)
    case GuardKills => KillGroup(s).(watcher := Ended)
    case BootstrapReady => s.(child := Waiting)
    case BootstrapGoesOn(executes) => if executes then s.(child := Provider, executed := true) else s.(child := Dead)
    case ChildEnds => s.(child := Dead)
  }

  predicate Runs(s: State, steps: seq<Step>)
    decreases |steps|
  {
    steps == [] || (Enabled(s, steps[0]) && Runs(Apply(s, steps[0]), steps[1..]))
  }

  function After(s: State, steps: seq<Step>): State
    requires Runs(s, steps)
    decreases |steps|
  {
    if steps == [] then s else After(Apply(s, steps[0]), steps[1..])
  }

  /** Nobody is left who could still kill the group. */
  predicate Unattended(s: State) { s.helper == Gone && (s.watcher == NotStarted || s.watcher == Ended) }

  ghost predicate Inv(s: State) {
    && (s.guarded <==> s.watcher != NotStarted)
    && (s.helper in {Begun, HasChild, HasGroup, Unguarded} ==> !s.guarded && !s.ack)
    && (s.helper in {HasGuardian, SawReady, Looping, Dropping, Killed, Told} ==> s.guarded)
    && (s.helper in {Begun} <==> s.child == Absent && s.helper != Gone)
    && (s.ack ==> s.guarded)
    && (s.executed ==> s.ack)
    && (s.helper == SawReady || s.helper == Looping || s.ack ==> s.child != Bootstrapping)
    && (s.child == Provider ==> s.executed)
    && (s.killed ==> s.child == Dead)
    && (s.done ==> s.killed)
    && (s.helper in {Killed, Told} ==> s.killed)
    && (s.watcher == Ended ==> s.killed)
    && (s.watcher == AboutToKill ==> LetGo(s))
    && (s.child == Absent ==> !s.guarded)
  }

  lemma StepKeepsInv(s: State, step: Step)
    requires Inv(s) && Enabled(s, step)
    ensures Inv(Apply(s, step))
    ensures s.executed ==> Apply(s, step).executed
    ensures s.killed ==> Apply(s, step).killed
  {
  }

  lemma {:induction false} RunKeepsInv(s: State, steps: seq<Step>)
    requires Inv(s) && Runs(s, steps)
    ensures Inv(After(s, steps))
    decreases |steps|
  {
    hide Inv, Enabled, Apply;
    if steps != [] {
      StepKeepsInv(s, steps[0]);
      RunKeepsInv(Apply(s, steps[0]), steps[1..]);
    }
  }

  /** In any interleaving a provider is executed only once a guardian exists. */
  lemma ExecutedOnlyGuarded(steps: seq<Step>)
    requires Runs(INITIAL, steps)
    ensures After(INITIAL, steps).executed ==> After(INITIAL, steps).guarded
  {
    RunKeepsInv(INITIAL, steps);
  }

  /** Nor before the helper saw the bootstrap ready: no byte is sent to one that
      still starts. And a helper that gives up leaves no child behind. */
  lemma AcknowledgedOnlyReady(steps: seq<Step>, ok: bool)
    requires Runs(INITIAL, steps)
    ensures var s := After(INITIAL, steps);
            && (s.ack ==> s.child != Bootstrapping)
            && (Enabled(s, Acknowledge(ok)) ==> s.child != Bootstrapping)
            && (Enabled(s, CheckGroup(false)) ==> Apply(s, CheckGroup(false)).child == Dead)
            && (Enabled(s, KillUnguarded) ==> Apply(s, KillUnguarded).child == Dead)
            && (s.helper == Killed || s.helper == Told ==> s.child == Dead)
  {
    RunKeepsInv(INITIAL, steps);
  }

  /** Once helper and guardian are both gone, either no provider was executed or
      its group was sent SIGKILL; none is running then. */
  lemma NoProviderOutlivesBoth(steps: seq<Step>)
    requires Runs(INITIAL, steps) && Unattended(After(INITIAL, steps))
    ensures var s := After(INITIAL, steps);
            && (!s.executed || s.killed)
            && s.child != Provider
  {
    RunKeepsInv(INITIAL, steps);
  }

  lemma UnattendedStays(s: State, step: Step)
    requires Inv(s) && Unattended(s) && Enabled(s, step)
    ensures Inv(Apply(s, step)) && Unattended(Apply(s, step))
    ensures Apply(s, step).executed == s.executed
  {
  }

  /** And none is executed later: an unattended bootstrap never goes on. */
  lemma {:induction false} NeverExecutedUnattended(s: State, steps: seq<Step>)
    requires Inv(s) && Unattended(s) && Runs(s, steps)
    ensures After(s, steps).executed == s.executed && After(s, steps).child != Provider
    decreases |steps|
  {
    if steps != [] {
      UnattendedStays(s, steps[0]);
      hide Inv, Enabled, Apply, Unattended;
      NeverExecutedUnattended(Apply(s, steps[0]), steps[1..]);
    }
  }

  /** The guardian's own next step, once its pipe is closed. */
  function GuardStep(s: State): Step {
    if s.watcher == AboutToKill then GuardKills else if s.done then GuardReads else GuardSeesEnd
  }

  /** However the helper went, or once it waits for its guardian, even when the
      byte could not be written: the guardian can always go on by itself, and in
      at most two steps the group is dead and the guardian gone. */
  lemma GuardianFinishes(s: State) returns (steps: seq<Step>)
    requires Inv(s) && LetGo(s)
    ensures |steps| <= 2 && Runs(s, steps)
    ensures var t := After(s, steps); t.helper == s.helper && (t.watcher == NotStarted || t.watcher == Ended)
    ensures s.guarded ==> After(s, steps).killed
  {
    steps := [];
    if s.watcher == Watching || s.watcher == AboutToKill {
      var first := GuardStep(s);
      var t := Apply(s, first);
      StepKeepsInv(s, first);
      if t.watcher == AboutToKill {
        steps := [first, GuardKills];
        assert steps[1..] == [GuardKills] && [GuardKills][1..] == [];
        assert Runs(t, [GuardKills]);
        assert After(t, [GuardKills]) == Apply(t, GuardKills);
        assert After(s, steps) == After(t, [GuardKills]);
      } else {
        steps := [first];
        assert steps[1..] == [];
        assert After(s, steps) == t;
      }
    }
  }

  // ----------------------------------------------- Waiting for the bootstrap

  const READY: string := "PTYREADY"

  /** One round of the wait: nothing to read, a read that takes at most `most`
      bytes, or a read that fails. */
  datatype Poll = Quiet | Reads(most: nat) | Fails

  datatype Bootstrap = Ready | Timeout | Closed | Broken | Invalid

  /** `written` is what the child writes to its terminal; the deadline comes
      after `polls`. The child is taken for ready exactly when its first eight
      bytes were read in time and say so, and no byte after them is taken. */
  method AwaitBootstrap(written: string, polls: seq<Poll>) returns (result: Bootstrap, taken: nat)
    ensures taken <= |READY| && taken <= |written|
    ensures result == Ready <==> taken == |READY| && READY <= written
    ensures result == Invalid <==> taken == |READY| && !(READY <= written)
    ensures result == Timeout || result == Closed ==> taken < |READY|
    ensures result == Broken ==> Fails in polls && taken < |READY|
  {
    var ready := new char[|READY|](_ => '\0');
    var received: nat, round: nat := 0, 0;
    while received < ready.Length
      invariant ready.Length == |READY| && received <= |READY| && received <= |written|
      invariant ready[..received] == written[..received]
      invariant round <= |polls|
      decreases |polls| - round
    {
      if round == |polls| {
        return Timeout, received;
      }
      var poll := polls[round];
      round := round + 1;
      if poll.Fails? {
        return Broken, received;
      }
      if poll.Reads? {
        var n := Min(poll.most, Min(ready.Length - received, |written| - received));
        if n == 0 {
          return Closed, received;
        }
        forall i | 0 <= i < n {
          ready[received + i] := written[received + i];
        }
        received := received + n;
      }
    }
    assert ready[..] == ready[..received];
    return if ready[..] == READY then Ready else Invalid, received;
  }
}
