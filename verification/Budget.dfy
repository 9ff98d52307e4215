/** A ceiling on provider calls, shared by any number of processes through one
    ledger file and one lock, each process possibly dying between any two steps. */
module Budget {
  import opened Wrappers

  datatype Provider = Claude | Codex

  datatype Role = Planner | Worker | Reviewer

  datatype Call = Call(role: Role, provider: Provider, ordinal: nat, injected: bool)

  /** A delivery failure to inject, `remaining` more times. */
  datatype Fault = Fault(provider: Provider, role: Role, remaining: nat)

  datatype Counts = Counts(planner: nat, worker: nat, reviewer: nat)

  datatype Ledger = Ledger(limits: Counts, used: Counts, calls: seq<Call>, faults: seq<Fault>)

  function Of(counts: Counts, role: Role): nat {
    match role case Planner => counts.planner case Worker => counts.worker case Reviewer => counts.reviewer
  }

  function Plus(counts: Counts, role: Role): (more: Counts)
    ensures forall r :: Of(more, r) == Of(counts, r) + if r == role then 1 else 0
  {
    match role
    case Planner => counts.(planner := counts.planner + 1)
    case Worker => counts.(worker := counts.worker + 1)
    case Reviewer => counts.(reviewer := counts.reviewer + 1)
  }

  // --------------------------------------------------------- What a call is for

  /** A JSON schema argument: no JSON, nothing to look into, or whether its
      properties name findings and tasks. */
  datatype Schema = NoJson | Bare | Properties(findings: bool, tasks: bool)

  /** No role for a version query; refused calls are never launched. */
  datatype Purpose = Version | For(role: Role) | Refused

  function IndexOf(args: seq<string>, arg: string): (i: nat)
    requires arg in args
    ensures i < |args| && args[i] == arg && arg !in args[..i]
  {
    if args[0] == arg then 0
    else
      var i := IndexOf(args[1..], arg) + 1;
      assert args[..i] == [args[0]] + args[1..][..i - 1];
      i
  }

  /** The argument after the first `arg`, if there is one. */
  function After(args: seq<string>, arg: string): Option<string>
    requires arg in args
  {
    var i := IndexOf(args, arg) + 1;
    if i < |args| then Some(args[i]) else None
  }

  function BySchema(parse: string -> Schema, schema: Option<string>): Purpose {
    if schema.None? || !parse(schema.value).Properties? then Refused
    else if parse(schema.value).findings then For(Reviewer)
    else if parse(schema.value).tasks then For(Planner)
    else Refused
  }

  /** `classify`; what it raises is a refusal. */
  function Classify(parse: string -> Schema, provider: Provider, args: seq<string>): Purpose {
    if args == ["--version"] || args == ["-v"] then Version
    else if provider == Claude && "--output-format" in args then
      var format := After(args, "--output-format");
      if format == Some("stream-json") then For(Worker)
      else if format == Some("json") && "--json-schema" in args then BySchema(parse, After(args, "--json-schema"))
      else Refused
    else if provider == Codex && "exec" in args then For(Reviewer)
    else if provider == Codex && "app-server" in args then For(Worker)
    else Refused
  }

  /** `value` comes right behind the first `name`. */
  predicate Given(args: seq<string>, name: string, value: string) {
    exists i :: 0 <= i < |args| - 1 && args[i] == name && args[i + 1] == value && name !in args[..i]
  }

  lemma FirstIs(args: seq<string>, name: string, i: nat)
    requires i < |args| && args[i] == name && name !in args[..i]
    ensures IndexOf(args, name) == i
  {
    var k := IndexOf(args, name);
    assert forall j :: 0 <= j < i ==> args[j] == args[..i][j] != name;
    assert forall j :: 0 <= j < k ==> args[j] == args[..k][j] != name;
  }

  lemma GivenIsAfter(args: seq<string>, name: string, value: string)
    ensures Given(args, name, value) <==> name in args && After(args, name) == Some(value)
  {
    if i :| 0 <= i < |args| - 1 && args[i] == name && args[i + 1] == value && name !in args[..i] {
      FirstIs(args, name, i);
    }
  }

  /** Which calls are for which role: Codex reviews with `exec` and works with
      `app-server`; Claude works with streamed output, and what its JSON output
      is for the schema says, which is a review's if it names findings. */
  lemma ClassifiedExactly(parse: string -> Schema, provider: Provider, args: seq<string>)
    requires args != ["--version"] && args != ["-v"]
    ensures provider == Codex ==>
              Classify(parse, provider, args)
              == if "exec" in args then For(Reviewer) else if "app-server" in args then For(Worker) else Refused
    ensures provider == Claude ==>
              && (Classify(parse, provider, args) == For(Worker) <==> Given(args, "--output-format", "stream-json"))
              && (Classify(parse, provider, args) == For(Reviewer)
                  <==> && Given(args, "--output-format", "json")
                       && exists schema :: Given(args, "--json-schema", schema) && Finds(parse, schema))
              && (Classify(parse, provider, args) == For(Planner)
                  <==> && Given(args, "--output-format", "json")
                       && exists schema :: Given(args, "--json-schema", schema) && Plans(parse, schema))
              && Classify(parse, provider, args) != Version
  {
    hide Given;
    GivenIsAfter(args, "--output-format", "stream-json");
    GivenIsAfter(args, "--output-format", "json");
    forall schema ensures Given(args, "--json-schema", schema)
                          <==> "--json-schema" in args && After(args, "--json-schema") == Some(schema) {
      GivenIsAfter(args, "--json-schema", schema);
    }
    hide After;
  }

  predicate Finds(parse: string -> Schema, schema: string) {
    parse(schema).Properties? && parse(schema).findings
  }

  predicate Plans(parse: string -> Schema, schema: string) {
    parse(schema).Properties? && parse(schema).tasks && !parse(schema).findings
  }

  /** Only a version query goes uncharged. */
  lemma UnchargedIsVersion(parse: string -> Schema, provider: Provider, args: seq<string>)
    ensures Classify(parse, provider, args) == Version <==> args == ["--version"] || args == ["-v"]
  {
  }

  // ------------------------------------------------------------ Charging a call

  predicate Strikes(fault: Fault, provider: Provider, role: Role) {
    fault.provider == provider && fault.role == role && fault.remaining > 0
  }

  /** The first fault that strikes, used once. */
  function Struck(faults: seq<Fault>, provider: Provider, role: Role): (after: seq<Fault>)
    ensures |after| == |faults|
  {
    if faults == [] then []
    else if Strikes(faults[0], provider, role) then [faults[0].(remaining := faults[0].remaining - 1)] + faults[1..]
    else [faults[0]] + Struck(faults[1..], provider, role)
  }

  function Injects(faults: seq<Fault>, provider: Provider, role: Role): bool {
    exists fault :: fault in faults && Strikes(fault, provider, role)
  }

  predicate Exhausted(ledger: Ledger, role: Role) { Of(ledger.used, role) >= Of(ledger.limits, role) }

  function Charged(ledger: Ledger, provider: Provider, role: Role): Ledger {
    var used := Plus(ledger.used, role);
    var injected := Injects(ledger.faults, provider, role);
    ledger.(used := used,
            calls := ledger.calls + [Call(role, provider, Of(used, role), injected)],
            faults := Struck(ledger.faults, provider, role))
  }

  /** The ledger's part of `invoke`; nothing when the budget is exhausted. */
  method Charge(ledger: Ledger, provider: Provider, role: Role) returns (after: Option<Ledger>, discard: bool)
    ensures after.None? <==> Exhausted(ledger, role)
    ensures after.Some? ==> after.value == Charged(ledger, provider, role)
    ensures discard == (after.Some? && Injects(ledger.faults, provider, role))
  {
    discard := false;
    if Of(ledger.used, role) >= Of(ledger.limits, role) {
      return None, false;
    }
    var used := Plus(ledger.used, role);
    var call := Call(role, provider, Of(used, role), false);
    var faults := ledger.faults;
    var i := 0;
    while i < |faults|
      invariant 0 <= i <= |faults| == |ledger.faults| && !discard && !call.injected
      invariant faults == ledger.faults && call == Call(role, provider, Of(used, role), false)
      invariant forall k :: 0 <= k < i ==> !Strikes(faults[k], provider, role)
    {
      var fault := faults[i];
      if fault.provider == provider && fault.role == role && fault.remaining > 0 {
        StruckAt(faults, provider, role, i);
        faults := faults[i := fault.(remaining := fault.remaining - 1)];
        discard := true;
        call := call.(injected := true);
        assert fault in ledger.faults;
        break;
      }
      i := i + 1;
    }
    if !discard {
      NoneStruck(faults, provider, role);
    }
    after := Some(ledger.(used := used, calls := ledger.calls + [call], faults := faults));
  }

  lemma {:induction false} StruckAt(faults: seq<Fault>, provider: Provider, role: Role, i: nat)
    requires i < |faults| && Strikes(faults[i], provider, role)
    requires forall k :: 0 <= k < i ==> !Strikes(faults[k], provider, role)
    ensures Struck(faults, provider, role) == faults[i := faults[i].(remaining := faults[i].remaining - 1)]
  {
    if i > 0 {
      StruckAt(faults[1..], provider, role, i - 1);
    }
  }

  lemma {:induction false} NoneStruck(faults: seq<Fault>, provider: Provider, role: Role)
    requires forall k :: 0 <= k < |faults| ==> !Strikes(faults[k], provider, role)
    ensures Struck(faults, provider, role) == faults && !Injects(faults, provider, role)
  {
    if faults != [] {
      NoneStruck(faults[1..], provider, role);
    }
  }

  // ------------------------------------------------------------ A sound ledger

  /** The ordinals of one role's calls, in the order they were charged. */
  function Ordinals(calls: seq<Call>, role: Role): seq<nat> {
    if calls == [] then []
    else
      Ordinals(calls[..|calls| - 1], role)
      + if calls[|calls| - 1].role == role then [calls[|calls| - 1].ordinal] else []
  }

  function Upto(n: nat): (numbers: seq<nat>)
    ensures |numbers| == n && forall i :: 0 <= i < n ==> numbers[i] == i + 1
  {
    seq(n, i => i + 1)
  }

  function Remaining(faults: seq<Fault>, provider: Provider, role: Role): nat {
    if faults == [] then 0
    else (if faults[0].provider == provider && faults[0].role == role then faults[0].remaining else 0)
         + Remaining(faults[1..], provider, role)
  }

  function Injected(calls: seq<Call>, provider: Provider, role: Role): nat {
    if calls == [] then 0
    else
      var last := calls[|calls| - 1];
      Injected(calls[..|calls| - 1], provider, role)
      + if last.injected && last.provider == provider && last.role == role then 1 else 0
  }

  function Own(fault: Fault, p: Provider, r: Role): seq<nat> {
    if fault.provider == p && fault.role == r then [fault.remaining] else []
  }

  /** What the faults of one provider and role have left, one by one. */
  function Amounts(faults: seq<Fault>, provider: Provider, role: Role): seq<nat> {
    if faults == [] then []
    else Own(faults[0], provider, role) + Amounts(faults[1..], provider, role)
  }

  /** The first that has some left. */
  function First(amounts: seq<nat>): (k: nat)
    ensures k <= |amounts| && (k < |amounts| ==> amounts[k] > 0)
  {
    if amounts == [] || amounts[0] > 0 then 0 else First(amounts[1..]) + 1
  }

  function Strike(amounts: seq<nat>): (after: seq<nat>)
    ensures |after| == |amounts|
  {
    var k := First(amounts);
    if k < |amounts| then amounts[k := amounts[k] - 1] else amounts
  }

  /** What is left after `n` strikes. */
  function Spent(amounts: seq<nat>, n: nat): (after: seq<nat>)
    ensures |after| == |amounts|
  {
    if n == 0 then amounts else Strike(Spent(amounts, n - 1))
  }

  /** How many of the first `n` marked calls fault `k` marked: each is marked by
      the first fault that then has some left. */
  function MarkedBy(amounts: seq<nat>, n: nat, k: nat): nat {
    if n == 0 then 0 else MarkedBy(amounts, n - 1, k) + if First(Spent(amounts, n - 1)) == k then 1 else 0
  }

  lemma {:induction false} LeftPlusMarked(amounts: seq<nat>, n: nat, k: nat)
    requires k < |amounts|
    ensures Spent(amounts, n)[k] + MarkedBy(amounts, n, k) == amounts[k]
  {
    if n > 0 {
      LeftPlusMarked(amounts, n - 1, k);
    }
  }

  lemma StrikeMore(amount: nat, rest: seq<nat>)
    ensures First([amount] + rest) == if amount > 0 then 0 else First(rest) + 1
    ensures Strike([amount] + rest) == if amount > 0 then [amount - 1] + rest else [amount] + Strike(rest)
  {
    assert ([amount] + rest)[1..] == rest;
  }

  lemma StruckMore(first: Fault, rest: seq<Fault>, provider: Provider, role: Role)
    ensures Struck([first] + rest, provider, role)
            == if Strikes(first, provider, role) then [first.(remaining := first.remaining - 1)] + rest
               else [first] + Struck(rest, provider, role)
  {
    assert ([first] + rest)[1..] == rest;
  }

  /** A charge is marked exactly when a fault of its kind has some left. */
  lemma {:induction false} InjectsAmounts(faults: seq<Fault>, p: Provider, r: Role)
    ensures Injects(faults, p, r) <==> First(Amounts(faults, p, r)) < |Amounts(faults, p, r)|
  {
    if faults == [] {
      assert Amounts(faults, p, r) == [];
    } else {
      hide Injects, First, Strike;
      var first, rest := faults[0], faults[1..];
      assert faults == [first] + rest;
      InjectsFirst(first, rest, p, r);
      InjectsAmounts(rest, p, r);
      StrikeMore(first.remaining, Amounts(rest, p, r));
      assert [] + Amounts(rest, p, r) == Amounts(rest, p, r);
    }
  }

  lemma StruckStep(
    first: Fault, rest: seq<nat>, after: seq<nat>, provider: Provider, role: Role, p: Provider, r: Role)
    requires after == if p == provider && r == role then Strike(rest) else rest
    ensures (if Strikes(first, provider, role) then Own(first.(remaining := first.remaining - 1), p, r) + rest
             else Own(first, p, r) + after)
            == if p == provider && r == role then Strike(Own(first, p, r) + rest) else Own(first, p, r) + rest
  {
    hide First, Strike;
    if first.provider == p && first.role == r {
      StrikeMore(first.remaining, rest);
    } else {
      assert [] + rest == rest && [] + after == after;
    }
  }

  /** It strikes the first of them, and no fault of another kind. */
  lemma {:induction false} AmountsStruck(faults: seq<Fault>, provider: Provider, role: Role, p: Provider, r: Role)
    ensures Amounts(Struck(faults, provider, role), p, r)
            == if p == provider && r == role then Strike(Amounts(faults, p, r)) else Amounts(faults, p, r)
  {
    if faults == [] {
      assert Struck(faults, provider, role) == [];
    } else {
      hide First, Strike, Amounts, Struck, Strikes, Own;
      var first, rest := faults[0], faults[1..];
      assert faults == [first] + rest;
      AmountsStruck(rest, provider, role, p, r);
      StruckMore(first, rest, provider, role);
      AmountsFirst(first, rest, p, r);
      AmountsFirst(first, Struck(rest, provider, role), p, r);
      StruckStep(first, Amounts(rest, p, r), Amounts(Struck(rest, provider, role), p, r), provider, role, p, r);
      if Strikes(first, provider, role) {
        StrikesSome(first, provider, role);
        AmountsFirst(first.(remaining := first.remaining - 1), rest, p, r);
      }
    }
  }

  lemma StrikesSome(fault: Fault, provider: Provider, role: Role)
    requires Strikes(fault, provider, role)
    ensures fault.remaining > 0
  {
  }

  lemma AmountsFirst(fault: Fault, rest: seq<Fault>, p: Provider, r: Role)
    ensures Amounts([fault] + rest, p, r) == Own(fault, p, r) + Amounts(rest, p, r)
  {
    assert ([fault] + rest)[1..] == rest;
  }

  /** What every ledger written since `initial` promises. */
  ghost predicate Sound(initial: Ledger, ledger: Ledger) {
    && ledger.limits == initial.limits
    && (forall role :: Of(ledger.used, role) <= Of(ledger.limits, role))
    && (forall role :: Ordinals(ledger.calls, role) == Upto(Of(ledger.used, role)))
    && (forall provider, role ::
          Remaining(ledger.faults, provider, role) + Injected(ledger.calls, provider, role)
          == Remaining(initial.faults, provider, role))
    && (forall provider, role ::
          Amounts(ledger.faults, provider, role)
          == Spent(Amounts(initial.faults, provider, role), Injected(ledger.calls, provider, role)))
  }

  /** As `init` writes it. */
  ghost predicate New(ledger: Ledger) { ledger.used == Counts(0, 0, 0) && ledger.calls == [] }

  lemma NewIsSound(ledger: Ledger)
    requires New(ledger)
    ensures Sound(ledger, ledger)
  {
    assert Upto(0) == [];
  }

  lemma RemainingFirst(fault: Fault, rest: seq<Fault>, p: Provider, r: Role)
    ensures Remaining([fault] + rest, p, r)
            == (if fault.provider == p && fault.role == r then fault.remaining else 0) + Remaining(rest, p, r)
  {
    assert ([fault] + rest)[1..] == rest;
  }

  lemma InjectsFirst(fault: Fault, rest: seq<Fault>, p: Provider, r: Role)
    ensures Injects([fault] + rest, p, r) <==> Strikes(fault, p, r) || Injects(rest, p, r)
  {
    assert forall f :: f in [fault] + rest <==> f == fault || f in rest;
  }

  lemma {:induction false} StruckRemaining(faults: seq<Fault>, provider: Provider, role: Role, p: Provider, r: Role)
    ensures Remaining(Struck(faults, provider, role), p, r)
            + (if Injects(faults, provider, role) && p == provider && r == role then 1 else 0)
            == Remaining(faults, p, r)
  {
    hide Injects;
    if faults == [] {
      NoneStruck(faults, provider, role);
    } else {
      var first, rest := faults[0], faults[1..];
      assert faults == [first] + rest;
      RemainingFirst(first, rest, p, r);
      InjectsFirst(first, rest, provider, role);
      if Strikes(first, provider, role) {
        RemainingFirst(first.(remaining := first.remaining - 1), rest, p, r);
      } else {
        StruckRemaining(rest, provider, role, p, r);
        RemainingFirst(first, Struck(rest, provider, role), p, r);
      }
    }
  }

  lemma ChargedIsSound(initial: Ledger, ledger: Ledger, provider: Provider, role: Role)
    requires Sound(initial, ledger) && !Exhausted(ledger, role)
    ensures Sound(initial, Charged(ledger, provider, role))
  {
    hide Remaining, Struck, Injects, Amounts, First;
    var after := Charged(ledger, provider, role);
    assert after.calls[..|ledger.calls|] == ledger.calls;
    forall r ensures Ordinals(after.calls, r) == Upto(Of(after.used, r)) {
      if r == role {
        assert Upto(Of(ledger.used, r) + 1) == Upto(Of(ledger.used, r)) + [Of(ledger.used, r) + 1];
      }
    }
    forall p, r
      ensures Remaining(after.faults, p, r) + Injected(after.calls, p, r) == Remaining(initial.faults, p, r)
    {
      StruckRemaining(ledger.faults, provider, role, p, r);
    }
    forall p, r
      ensures Amounts(after.faults, p, r) == Spent(Amounts(initial.faults, p, r), Injected(after.calls, p, r))
    {
      AmountsStruck(ledger.faults, provider, role, p, r);
      InjectsAmounts(ledger.faults, p, r);
    }
  }

  // ------------------------------------------------------- Processes and crashes

  /** A file: not there, half written, or whole. */
  datatype File = Absent | Torn | Whole(ledger: Ledger)

  /** Where a process is. Those from `Holding` to `Decided` hold the lock;
      `discard` says that the provider's output is to be thrown away. */
  datatype Phase =
    | Arriving
    | Waiting
    | Holding
    | Loaded(ledger: Ledger)
    | Marked(ledger: Ledger, discard: bool)
    | Writing(ledger: Ledger, discard: bool)
    | Written(ledger: Ledger, discard: bool)
    | Decided(discard: bool)
    | Cleared(discard: bool)
    | Gone

  datatype Process = Process(provider: Provider, args: seq<string>, phase: Phase)

  /** A provider that was started, and with what. */
  datatype Launched = Launched(provider: Provider, args: seq<string>)

  /** `parse` is what schema arguments mean. */
  datatype System = System(
    parse: string -> Schema, main: File, temporary: File, lock: Option<nat>, processes: seq<Process>,
    launched: seq<Launched>)

  datatype Step =
    | Start(p: nat)
    | Lock(p: nat)
    | Load(p: nat)
    | Mark(p: nat)
    | OpenTemporary(p: nat)
    | WriteTemporary(p: nat)
    | Replace(p: nat)
    | Unlock(p: nat)
    | Launch(p: nat, succeeds: bool)
    | Crash(p: nat)

  predicate Enabled(s: System, step: Step) {
    && step.p < |s.processes|
    && var phase := s.processes[step.p].phase;
       match step
       case Start(_) => phase == Arriving
       case Lock(_) => phase == Waiting && s.lock.None?
       case Load(_) => phase == Holding
       case Mark(_) => phase.Loaded?
       case OpenTemporary(_) => phase.Marked?
       case WriteTemporary(_) => phase.Writing?
       case Replace(_) => phase.Written?
       case Unlock(_) => phase.Decided?
       case Launch(_, _) => phase.Cleared?
       case Crash(_) => phase != Gone
  }

  function At(s: System, p: nat, phase: Phase): System
    requires p < |s.processes|
  {
    s.(processes := s.processes[p := s.processes[p].(phase := phase)])
  }

  /** A process that ends gives its lock back, however it ends. */
  function End(s: System, p: nat): System
    requires p < |s.processes|
  {
    At(s, p, Gone).(lock := if s.lock == Some(p) then None else s.lock)
  }

  function Apply(s: System, step: Step): System
    requires Enabled(s, step)
  {
    var p := step.p;
    var Process(provider, args, phase) := s.processes[p];
    var purpose := Classify(s.parse, provider, args);
    match step
    case Start(_) => At(s, p, if purpose == Refused then Gone else Waiting)
    case Lock(_) => At(s, p, Holding).(lock := Some(p))
    case Load(_) => if s.main.Whole? then At(s, p, Loaded(s.main.ledger)) else End(s, p)
    case Mark(_) =>
      if !purpose.For? then At(s, p, Decided(false))
      else if Exhausted(phase.ledger, purpose.role) then End(s, p)
      else At(s, p, Marked(Charged(phase.ledger, provider, purpose.role),
                           Injects(phase.ledger.faults, provider, purpose.role)))
    case OpenTemporary(_) => At(s, p, Writing(phase.ledger, phase.discard)).(temporary := Torn)
    case WriteTemporary(_) => At(s, p, Written(phase.ledger, phase.discard)).(temporary := Whole(phase.ledger))
    case Replace(_) => At(s, p, Decided(phase.discard)).(main := s.temporary, temporary := Absent)
    case Unlock(_) => At(s, p, Cleared(phase.discard)).(lock := None)
    case Launch(_, succeeds) =>
      At(s, p, Gone).(launched := s.launched + if succeeds then [Launched(provider, args)] else [])
    case Crash(_) => End(s, p)
  }

  predicate Runs(s: System, steps: seq<Step>)
    decreases |steps|
  {
    steps == [] || (Enabled(s, steps[0]) && Runs(Apply(s, steps[0]), steps[1..]))
  }

  function Final(s: System, steps: seq<Step>): System
    requires Runs(s, steps)
    decreases |steps|
  {
    if steps == [] then s else Final(Apply(s, steps[0]), steps[1..])
  }

  /** Launches for one purpose. */
  function Launches(parse: string -> Schema, launched: seq<Launched>, purpose: Purpose): nat {
    if launched == [] then 0
    else
      var last := launched[|launched| - 1];
      Launches(parse, launched[..|launched| - 1], purpose)
      + if Classify(parse, last.provider, last.args) == purpose then 1 else 0
  }

  predicate IsVersion(args: seq<string>) { args == ["--version"] || args == ["-v"] }

  /** Launches of anything but a version query. */
  function Unversioned(launched: seq<Launched>): nat {
    if launched == [] then 0
    else Unversioned(launched[..|launched| - 1]) + if IsVersion(launched[|launched| - 1].args) then 0 else 1
  }

  function Adds(parse: string -> Schema, process: Process, purpose: Purpose): nat {
    if (process.phase.Decided? || process.phase.Cleared?)
       && Classify(parse, process.provider, process.args) == purpose then 1 else 0
  }

  /** Processes that were let through for `purpose` and have not launched yet. */
  function Pending(parse: string -> Schema, processes: seq<Process>, purpose: Purpose): nat {
    if processes == [] then 0
    else
      Pending(parse, processes[..|processes| - 1], purpose) + Adds(parse, processes[|processes| - 1], purpose)
  }

  predicate Critical(phase: Phase) {
    phase == Holding || phase.Loaded? || phase.Marked? || phase.Writing? || phase.Written? || phase.Decided?
  }

  /** What the process under the lock knows of the ledger on disk. */
  ghost predicate Knows(s: System, process: Process)
    requires s.main.Whole?
  {
    var phase, purpose := process.phase, Classify(s.parse, process.provider, process.args);
    && (phase.Loaded? ==> phase.ledger == s.main.ledger)
    && (phase.Marked? || phase.Writing? || phase.Written?
        ==> && purpose.For? && !Exhausted(s.main.ledger, purpose.role)
            && phase.ledger == Charged(s.main.ledger, process.provider, purpose.role))
    && (phase.Written? ==> s.temporary == Whole(phase.ledger))
    && (phase != Arriving && phase != Gone ==> purpose != Refused)
  }

  ghost predicate Inv(initial: Ledger, s: System) {
    && s.main.Whole? && Sound(initial, s.main.ledger)
    && (forall p: nat :: p < |s.processes| ==> (Critical(s.processes[p].phase) <==> s.lock == Some(p)))
    && (s.lock.Some? ==> s.lock.value < |s.processes|)
    && (forall p: nat :: p < |s.processes| ==> Knows(s, s.processes[p]))
    && (forall role ::
          Launches(s.parse, s.launched, For(role)) + Pending(s.parse, s.processes, For(role))
          <= Of(s.main.ledger.used, role))
    && (forall l :: l in s.launched ==> Classify(s.parse, l.provider, l.args) != Refused)
  }

  lemma {:induction false} PendingAt(
    parse: string -> Schema, processes: seq<Process>, p: nat, process: Process, purpose: Purpose)
    requires p < |processes|
    ensures Pending(parse, processes[p := process], purpose) + Adds(parse, processes[p], purpose)
            == Pending(parse, processes, purpose) + Adds(parse, process, purpose)
  {
    hide Adds;
    var front := processes[..|processes| - 1];
    if p < |front| {
      assert processes[p := process][..|processes| - 1] == front[p := process];
      PendingAt(parse, front, p, process, purpose);
    } else {
      assert processes[p := process][..|processes| - 1] == front;
    }
  }

  lemma OneLaunchMore(parse: string -> Schema, launched: seq<Launched>, l: Launched, purpose: Purpose)
    ensures Launches(parse, launched + [l], purpose)
            == Launches(parse, launched, purpose) + if Classify(parse, l.provider, l.args) == purpose then 1 else 0
    ensures launched + [] == launched
  {
    assert (launched + [l])[..|launched|] == launched;
  }

  lemma LedgerKept(initial: Ledger, s: System, step: Step)
    requires Inv(initial, s) && Enabled(s, step)
    ensures var t := Apply(s, step);
            && t.main.Whole? && Sound(initial, t.main.ledger)
            && (forall l :: l in t.launched ==> Classify(t.parse, l.provider, l.args) != Refused)
  {
    hide Sound, Pending, Launches, Injects, Charged, Classify;
    var process := s.processes[step.p];
    assert Knows(s, process);
    if step.Replace? {
      ChargedIsSound(initial, s.main.ledger, process.provider,
                     Classify(s.parse, process.provider, process.args).role);
    }
  }

  lemma ChargedUses(ledger: Ledger, provider: Provider, role: Role, r: Role)
    ensures Of(Charged(ledger, provider, role).used, r) == Of(ledger.used, r) + if r == role then 1 else 0
  {
  }

  lemma CountsKept(initial: Ledger, s: System, step: Step, role: Role)
    requires Inv(initial, s) && Enabled(s, step)
    ensures var t := Apply(s, step);
            t.main.Whole? && Launches(t.parse, t.launched, For(role)) + Pending(t.parse, t.processes, For(role))
                             <= Of(t.main.ledger.used, role)
  {
    hide Sound, Pending, Launches, Injects, Charged, Exhausted, Classify;
    var t := Apply(s, step);
    var process := s.processes[step.p];
    assert Knows(s, process);
    if step.Replace? {
      ChargedUses(s.main.ledger, process.provider, Classify(s.parse, process.provider, process.args).role, role);
    }
    assert t.processes == s.processes[step.p := t.processes[step.p]];
    PendingAt(s.parse, s.processes, step.p, t.processes[step.p], For(role));
    OneLaunchMore(s.parse, s.launched, Launched(process.provider, process.args), For(role));
  }

  lemma LockKept(initial: Ledger, s: System, step: Step)
    requires Inv(initial, s) && Enabled(s, step)
    ensures var t := Apply(s, step);
            && (forall p: nat :: p < |t.processes| ==> (Critical(t.processes[p].phase) <==> t.lock == Some(p)))
            && (t.lock.Some? ==> t.lock.value < |t.processes|)
  {
    hide Sound, Pending, Launches, Charged, Injects, Exhausted, Knows, Classify;
  }

  lemma KnowledgeKept(initial: Ledger, s: System, step: Step)
    requires Inv(initial, s) && Enabled(s, step)
    ensures var t := Apply(s, step);
            t.main.Whole? && forall p: nat :: p < |t.processes| ==> Knows(t, t.processes[p])
  {
    hide Sound, Pending, Launches, Injects, Charged, Exhausted, Classify;
    var t := Apply(s, step);
    assert Knows(s, s.processes[step.p]);
    forall p: nat | p < |t.processes| ensures Knows(t, t.processes[p]) {
      assert Knows(s, s.processes[p]);
    }
  }

  lemma ParseStays(s: System, step: Step)
    requires Enabled(s, step)
    ensures Apply(s, step).parse == s.parse
  {
    hide Classify, Charged, Exhausted, Injects;
  }

  lemma StepKeepsInv(initial: Ledger, s: System, step: Step)
    requires Inv(initial, s) && Enabled(s, step)
    ensures Inv(initial, Apply(s, step)) && Apply(s, step).parse == s.parse
  {
    ParseStays(s, step);
    LedgerKept(initial, s, step);
    forall role {
      CountsKept(initial, s, step, role);
    }
    LockKept(initial, s, step);
    KnowledgeKept(initial, s, step);
    hide Apply, Sound, Knows, Pending, Launches, Enabled, Critical, Classify;
  }

  lemma {:induction false} RunKeepsInv(initial: Ledger, s: System, steps: seq<Step>)
    requires Inv(initial, s) && Runs(s, steps)
    ensures Inv(initial, Final(s, steps)) && Final(s, steps).parse == s.parse
    decreases |steps|
  {
    hide Inv, Enabled, Apply;
    if steps != [] {
      StepKeepsInv(initial, s, steps[0]);
      RunKeepsInv(initial, Apply(s, steps[0]), steps[1..]);
    }
  }

  /** A fresh ledger, and processes that have all yet to start. */
  ghost predicate Opened(initial: Ledger, s: System) {
    && New(initial) && s.main == Whole(initial) && s.lock.None? && s.launched == []
    && forall p: nat :: p < |s.processes| ==> s.processes[p].phase == Arriving
  }

  lemma {:induction false} NonePending(parse: string -> Schema, processes: seq<Process>, purpose: Purpose)
    requires forall p: nat :: p < |processes| ==> processes[p].phase == Arriving
    ensures Pending(parse, processes, purpose) == 0
  {
    if processes != [] {
      NonePending(parse, processes[..|processes| - 1], purpose);
    }
  }

  lemma OpenedIsInv(initial: Ledger, s: System)
    requires Opened(initial, s)
    ensures Inv(initial, s)
  {
    NewIsSound(initial);
    forall role ensures Launches(s.parse, [], For(role)) + Pending(s.parse, s.processes, For(role)) == 0 {
      NonePending(s.parse, s.processes, For(role));
    }
    hide Sound, Classify;
  }

  // --------------------------------------------------------- What it promises

  /** However many processes run, interleave and die: no role is launched more
      often than it was charged, nor charged beyond its limit; the ledger file
      is always whole, and its limits are those it began with. */
  lemma LaunchesWithinBudget(initial: Ledger, s: System, steps: seq<Step>, role: Role)
    requires Opened(initial, s) && Runs(s, steps)
    ensures var t := Final(s, steps);
            && t.main.Whole? && t.main.ledger.limits == initial.limits
            && Launches(s.parse, t.launched, For(role)) <= Of(t.main.ledger.used, role) <= Of(initial.limits, role)
  {
    OpenedIsInv(initial, s);
    RunKeepsInv(initial, s, steps);
  }

  /** Each role's calls are numbered 1, 2, 3, ... as they were charged. */
  lemma OrdinalsCountUp(initial: Ledger, s: System, steps: seq<Step>, role: Role)
    requires Opened(initial, s) && Runs(s, steps)
    ensures var t := Final(s, steps);
            t.main.Whole? && Ordinals(t.main.ledger.calls, role) == Upto(Of(t.main.ledger.used, role))
  {
    OpenedIsInv(initial, s);
    RunKeepsInv(initial, s, steps);
  }

  /** Each fault began with what it has left and the calls it marked; and of
      one provider and role, all together did too. */
  lemma FaultsAreConserved(initial: Ledger, s: System, steps: seq<Step>, provider: Provider, role: Role)
    requires Opened(initial, s) && Runs(s, steps)
    ensures var t := Final(s, steps);
            && t.main.Whole?
            && var first := Amounts(initial.faults, provider, role);
               var left := Amounts(t.main.ledger.faults, provider, role);
               var n := Injected(t.main.ledger.calls, provider, role);
               && |left| == |first| && (forall k :: 0 <= k < |first| ==> first[k] == left[k] + MarkedBy(first, n, k))
               && Remaining(t.main.ledger.faults, provider, role) + n == Remaining(initial.faults, provider, role)
  {
    OpenedIsInv(initial, s);
    RunKeepsInv(initial, s, steps);
    var first := Amounts(initial.faults, provider, role);
    var n := Injected(Final(s, steps).main.ledger.calls, provider, role);
    forall k | 0 <= k < |first| ensures first[k] == Spent(first, n)[k] + MarkedBy(first, n, k) {
      LeftPlusMarked(first, n, k);
    }
  }

  lemma {:induction false} RolesMakeCalls(calls: seq<Call>)
    ensures |calls| == |Ordinals(calls, Planner)| + |Ordinals(calls, Worker)| + |Ordinals(calls, Reviewer)|
  {
    if calls != [] {
      RolesMakeCalls(calls[..|calls| - 1]);
    }
  }

  lemma {:induction false} RolesMakeUnversioned(parse: string -> Schema, launched: seq<Launched>)
    requires forall l :: l in launched ==> Classify(parse, l.provider, l.args) != Refused
    ensures Unversioned(launched) == Launches(parse, launched, For(Planner)) + Launches(parse, launched, For(Worker))
                                     + Launches(parse, launched, For(Reviewer))
  {
    if launched != [] {
      var front, last := launched[..|launched| - 1], launched[|launched| - 1];
      assert last in launched && forall l :: l in front ==> l in launched;
      RolesMakeUnversioned(parse, front);
      UnchargedIsVersion(parse, last.provider, last.args);
      hide Classify;
    }
  }

  /** A launch whose arguments are neither `--version` nor `-v` was charged: it
      was classified for a role, per role there were no more of them than
      charges, and all together no more than calls recorded. */
  lemma OnlyVersionsGoUncharged(initial: Ledger, s: System, steps: seq<Step>)
    requires Opened(initial, s) && Runs(s, steps)
    ensures var t := Final(s, steps);
            && t.main.Whole?
            && (forall l :: l in t.launched ==> IsVersion(l.args) || Classify(s.parse, l.provider, l.args).For?)
            && (forall role :: Launches(s.parse, t.launched, For(role)) <= |Ordinals(t.main.ledger.calls, role)|)
            && Unversioned(t.launched) <= |t.main.ledger.calls|
  {
    hide Classify, Launches, Ordinals, Unversioned, Final, Runs;
    var t := Final(s, steps);
    OpenedIsInv(initial, s);
    RunKeepsInv(initial, s, steps);
    forall l | l in t.launched ensures IsVersion(l.args) || Classify(s.parse, l.provider, l.args).For? {
      UnchargedIsVersion(s.parse, l.provider, l.args);
    }
    RolesMakeUnversioned(s.parse, t.launched);
    RolesMakeCalls(t.main.ledger.calls);
  }

  /** At most one process at a time is between taking the lock and giving it
      back, the lock says which, and no process that is gone has it. */
  lemma OneAtATime(initial: Ledger, s: System, steps: seq<Step>)
    requires Opened(initial, s) && Runs(s, steps)
    ensures var t := Final(s, steps);
            && (t.lock.Some? ==> t.lock.value < |t.processes| && t.processes[t.lock.value].phase != Gone)
            && (forall p: nat :: p < |t.processes| && Critical(t.processes[p].phase) ==> t.lock == Some(p))
  {
    hide Sound, Final, Runs, Classify, Pending, Launches;
    OpenedIsInv(initial, s);
    RunKeepsInv(initial, s, steps);
  }

  lemma OneMore(s: System, step: Step, rest: seq<Step>)
    requires Enabled(s, step) && Runs(Apply(s, step), rest)
    ensures Runs(s, [step] + rest) && Final(s, [step] + rest) == Final(Apply(s, step), rest)
  {
    assert ([step] + rest)[1..] == rest;
  }

  /** Whatever crashed before, a call within the budget goes through: with the
      lock free, one that waits for it is charged and launched by itself. */
  lemma CallGoesThrough(initial: Ledger, s: System, p: nat) returns (steps: seq<Step>)
    requires Inv(initial, s) && s.lock.None? && p < |s.processes|
    requires s.processes[p].phase == Waiting && Classify(s.parse, s.processes[p].provider, s.processes[p].args).For?
    requires var role := Classify(s.parse, s.processes[p].provider, s.processes[p].args).role;
             |Ordinals(s.main.ledger.calls, role)| < Of(initial.limits, role)
    ensures Runs(s, steps)
    ensures var t, Process(provider, args, _) := Final(s, steps), s.processes[p];
            var role := Classify(s.parse, provider, args).role;
            && t.launched == s.launched + [Launched(provider, args)]
            && t.main == Whole(Charged(s.main.ledger, provider, role))
            && t.main.ledger.calls == s.main.ledger.calls + [RecordOf(s.main.ledger, provider, role)]
            && t.lock.None?
  {
    hide Inv, Charged, Exhausted, Injects, Classify, RecordOf, Ordinals;
    var role := Classify(s.parse, s.processes[p].provider, s.processes[p].args).role;
    WithinBudget(initial, s, role);
    RecordsCall(initial, s, s.processes[p].provider, role);
    var s1 := Apply(s, Lock(p));
    var s2 := Apply(s1, Load(p));
    var s3 := Apply(s2, Mark(p));
    var s4 := Apply(s3, OpenTemporary(p));
    var s5 := Apply(s4, WriteTemporary(p));
    var s6 := Apply(s5, Replace(p));
    var s7 := Apply(s6, Unlock(p));
    var last := Launch(p, true);
    hide Apply;
    OneMore(s7, last, []);
    OneMore(s6, Unlock(p), [last] + []);
    steps := [Unlock(p)] + ([last] + []);
    OneMore(s5, Replace(p), steps);
    steps := [Replace(p)] + steps;
    OneMore(s4, WriteTemporary(p), steps);
    steps := [WriteTemporary(p)] + steps;
    OneMore(s3, OpenTemporary(p), steps);
    steps := [OpenTemporary(p)] + steps;
    OneMore(s2, Mark(p), steps);
    steps := [Mark(p)] + steps;
    OneMore(s1, Load(p), steps);
    steps := [Load(p)] + steps;
    OneMore(s, Lock(p), steps);
    steps := [Lock(p)] + steps;
  }

  /** What is recorded of a call: who and what for, the next number of its role,
      and whether one of its faults has a failure left to inject. */
  ghost function RecordOf(ledger: Ledger, provider: Provider, role: Role): Call {
    Call(role, provider, |Ordinals(ledger.calls, role)| + 1,
         exists k :: 0 <= k < |ledger.faults| && ledger.faults[k].provider == provider && ledger.faults[k].role == role
                     && ledger.faults[k].remaining > 0)
  }

  lemma WithinBudget(initial: Ledger, s: System, role: Role)
    requires Inv(initial, s)
    ensures s.main.Whole?
    ensures Exhausted(s.main.ledger, role) <==> |Ordinals(s.main.ledger.calls, role)| >= Of(initial.limits, role)
  {
    hide Ordinals, Pending, Launches, Knows;
  }

  lemma RecordsCall(initial: Ledger, s: System, provider: Provider, role: Role)
    requires Inv(initial, s) && s.main.Whole?
    ensures var ledger := s.main.ledger;
            Charged(ledger, provider, role).calls == ledger.calls + [RecordOf(ledger, provider, role)]
  {
    hide Ordinals, Pending, Launches, Knows, Struck, Injects;
    InjectsExactly(s.main.ledger.faults, provider, role);
  }

  lemma InjectsExactly(faults: seq<Fault>, provider: Provider, role: Role)
    ensures Injects(faults, provider, role)
            <==> exists k :: 0 <= k < |faults| && faults[k].provider == provider && faults[k].role == role
                             && faults[k].remaining > 0
  {
    if k :| 0 <= k < |faults| && faults[k].provider == provider && faults[k].role == role && faults[k].remaining > 0 {
      assert faults[k] in faults && Strikes(faults[k], provider, role);
    }
  }
}
