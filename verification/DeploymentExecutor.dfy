/**
 Deployment commands behind the cutover store (internal/agent/runtime/docker_deployment.go:88-188),
 and whole runs of them: any order, any repetition, the agent stopping at any engine call and
 starting again from its files.
 */
module DeploymentExecutor {
  import opened AgentCommands
  import opened Common
  import opened CutoverLog
  import opened CutoverStore
  import opened DeploymentSlots
  import opened DockerDeployment
  import opened DockerEngine
  import opened StateFiles

  datatype Execution = Execution(slot: string, deploymentId: string, sequence: uint64)

  function ExecutionOf(d: DeploymentCommand): Execution {
    Execution(d.containerName, d.deploymentId, d.cutoverSequence)
  }

  /** One engine call, and the command it was made for. */
  datatype Effect = Effect(kind: CommandKind, owner: Execution, call: EngineCall)

  function Effects(kind: CommandKind, owner: Execution, calls: seq<EngineCall>): seq<Effect> {
    seq(|calls|, i requires 0 <= i < |calls| => Effect(kind, owner, calls[i]))
  }

  predicate Stale(log: Log, e: Execution) { StaleByLog(log, e.slot, e.deploymentId, e.sequence) }

  /** The effects one command may have, given whether the log overruled it before it ran. */
  ghost predicate Disciplined(effects: seq<Effect>, kind: CommandKind, d: DeploymentCommand, stale: bool, after: Log) {
    forall i :: 0 <= i < |effects| ==>
      && effects[i].kind == kind && effects[i].owner == ExecutionOf(d)
      && (stale && !kind.DeploymentCancel? ==> effects[i].call.Remove?)
      && (effects[i].call.Create? ==>
        && effects[i].call.labels == LabelsOf(d)
        && Event(d.deploymentId, d.cutoverSequence, false) in Events(after, d.containerName))
  }

  /** What a command's operation may do to its slot, stopped anywhere. */
  ghost predicate OperationTook(kind: CommandKind, x: Slot, y: Slot, d: DeploymentCommand) {
    match kind
    case DeploymentStage => StageTook(x, y, d)
    case DeploymentActivate => ActivateTook(x, y, d)
    case DeploymentRetire => RetireTook(x, y, d)
    case DeploymentCancel => CancelTook(x, y, d)
    case _ => y == x
  }

  lemma NothingDone(m: Containers, kind: CommandKind, d: DeploymentCommand)
    requires OfDeployment(kind)
    ensures OnlySlotDiffers(m, m, d) && OperationTook(kind, SlotOf(m, d), SlotOf(m, d), d)
    ensures forall stale, log :: Disciplined([], kind, d, stale, log)
  {
  }

  /** A cancel may do as much whether or not its execution was overruled before. */
  lemma CancelsAnyway(effects: seq<Effect>, kind: CommandKind, d: DeploymentCommand, log: Log)
    requires kind.DeploymentCancel? && Disciplined(effects, kind, d, false, log)
    ensures forall stale :: Disciplined(effects, kind, d, stale, log)
  {
  }

  lemma NothingRan(s: Store, maximum: nat)
    ensures Ran(s, [], maximum) == s
  {
  }

  /** What it has done when it reports success. */
  ghost predicate OperationDone(kind: CommandKind, x: Slot, y: Slot, d: DeploymentCommand) {
    match kind
    case DeploymentStage => Owned(y.stable, d) || Owned(y.candidate, d)
    case DeploymentActivate => Owned(y.stable, d)
    case DeploymentRetire => Owned(y.stable, d) && y.previous.None?
    case DeploymentCancel => !Blocked(x, d) && y == Cancelled(x, d)
    case _ => y == x
  }

  /** What the image preparation heard, and what it makes of it. */
  predicate PrepareAnswered(r: Result<(), Refusal>, heard: seq<Report>) {
    var reached := [Told(Reachable, true)];
    match r
    case Ok(_) =>
      || heard == reached + [Told(ImagePresent, true)]
      || heard == reached + [Told(ImagePresent, false), Told(ImageAbsent, true), Told(ImagePulled, true)]
    case Err(TargetUnreachable) => heard == [Told(Reachable, false)]
    case Err(RuntimeError) => heard == reached + [Told(ImagePresent, false), Told(ImageAbsent, false)]
    case Err(ImagePull) =>
      heard == reached + [Told(ImagePresent, false), Told(ImageAbsent, true), Told(ImagePulled, false)]
    case Err(_) => false
  }

  /** What an operation answers, and leaves, when every call that could be served was. */
  ghost predicate OperationAnswered(kind: CommandKind, x: Slot, y: Slot, r: Result<(), Refusal>, d: DeploymentCommand,
                                    heard: seq<Report>)
  {
    match kind
    case DeploymentPrepare => y == x && PrepareAnswered(r, heard)
    case DeploymentStage => StageAnswered(x, y, r, d, heard)
    case DeploymentActivate => ActivateAnswered(x, y, r, d, ReadyToActivate(x, heard))
    case DeploymentRetire => RetireAnswered(x, y, r, d)
    case DeploymentCancel => CancelAnswered(x, y, r, d)
    case _ => false
  }

  /** The store's word on a command: an error, or whether it is stale; a cancel never is. */
  ghost function Gate(kind: CommandKind, d: DeploymentCommand, log: Log, maximum: nat, write: WriteOutcome)
    : Result<bool, StoreError>
  {
    var e := ExecutionOf(d);
    var unwritten :=
      (if kind.DeploymentCancel? then !Stale(log, e) else !Reaches(log, e.slot, e.sequence)) && !write.Stored?;
    if !ValidCutoverEntry(e.slot, e.deploymentId, e.sequence) then Err(ErrInvalid)
    else if NoRoom(log, e.slot, maximum) then Err(ErrFull)
    else if unwritten then Err(ErrWrite)
    else Ok(!kind.DeploymentCancel? && Stale(log, e))
  }

  /**
   A command the store fails on, or calls stale before an image is prepared, reaches no engine. Any other asks for the
   engine first; then a stale one drops its own candidate, and a current one is answered as its operation is.
   */
  ghost predicate Executed(kind: CommandKind, d: DeploymentCommand, gate: Result<bool, StoreError>, x: Slot, y: Slot,
                           r: Outcome, heard: seq<Report>, disturbed: bool, changed: bool)
  {
    if gate.Err? then r == Answer(Err(RuntimeConfiguration)) && !changed
    else if gate.value && kind.DeploymentPrepare? then r == Answer(Err(StaleExecution)) && !changed
    else Dispatched(kind, d, gate.value, x, y, r, heard, disturbed, changed)
  }

  ghost predicate Dispatched(kind: CommandKind, d: DeploymentCommand, stale: bool, x: Slot, y: Slot,
                             r: Outcome, heard: seq<Report>, disturbed: bool, changed: bool)
  {
    if heard == [] then r.Crash? && !changed
    else if heard[0] == Told(Connected, false) then r == Answer(Err(RuntimeConfiguration)) && !changed
    else
      && heard[0] == Told(Connected, true)
      && (r.Answer? ==>
        if stale then r == Answer(Err(StaleExecution)) && (!disturbed ==> y == DropCandidate(x, d))
        else !disturbed ==> OperationAnswered(kind, x, y, r.value, d, heard[1..]))
  }

  function WriteOf(actions: seq<Action>): WriteOutcome {
    if actions != [] && actions[0].Call? then actions[0].write else Kept
  }

  lemma ObservationIsNoted(s: Store, slot: string, deploymentId: string, sequence: uint64,
                           write: WriteOutcome, maximum: nat)
    requires Replied(s, CutoverLog.Observe(slot, deploymentId, sequence), write, maximum) == Ok(false)
    ensures Event(deploymentId, sequence, false)
      in Events(Called(s, CutoverLog.Observe(slot, deploymentId, sequence), write, maximum).log, slot)
  {
  }

  lemma OneAction(s: Store, a: Action, maximum: nat)
    ensures Ran(s, [a], maximum) == Acted(s, a, maximum)
  {
    assert [a][1..] == [];
  }

  lemma CallsWithin(before: seq<EngineCall>, after: seq<EngineCall>, kind: CommandKind, d: DeploymentCommand,
                    latitude: Latitude, stale: bool, log: Log)
    requires Made(before, after, d, latitude)
    requires stale && !kind.DeploymentCancel? ==> latitude.OnlyRemoves?
    requires latitude.MayCreate? ==> Event(d.deploymentId, d.cutoverSequence, false) in Events(log, d.containerName)
    ensures |before| <= |after| && Disciplined(Effects(kind, ExecutionOf(d), after[|before|..]), kind, d, stale, log)
  {
    hide Events;
    forall i | 0 <= i < |after| - |before| ensures Within(after[|before|..][i], d, latitude) {
      assert after[|before|..][i] == after[|before| + i];
    }
  }

  class DockerExecutor {
    const engine: Engine
    const cutovers: FileCutoverStore
    /** Every engine call so far that may have changed something. */
    ghost var effects: seq<Effect>

    ghost predicate Valid()
      reads this, engine, cutovers, cutovers.file
    {
      engine.Valid() && cutovers.Valid()
    }

    constructor (engine: Engine, cutovers: FileCutoverStore)
      ensures this.engine == engine && this.cutovers == cutovers && effects == []
    {
      this.engine, this.cutovers, effects := engine, cutovers, [];
    }

    /** `prepareDeployment`: the image is present or pulled; no container changes. */
    method PrepareDeployment() returns (r: Outcome)
      modifies engine`reports
      ensures old(engine.reports) <= engine.reports
      ensures r.Answer? ==> PrepareAnswered(r.value, Since(old(engine.reports), engine.reports))
    {
      var reachable :- engine.Ask(Reachable);
      if !reachable { return Answer(Err(TargetUnreachable)); }
      var present :- engine.Ask(ImagePresent);
      if present { return Answer(Ok(())); }
      var absent :- engine.Ask(ImageAbsent);
      if !absent { return Answer(Err(RuntimeError)); }
      var pulled :- engine.Ask(ImagePulled);
      return Answer(if pulled then Ok(()) else Err(ImagePull));
    }

    /** Runs the operation of a command the store let through. */
    method RunOperation(kind: CommandKind, d: DeploymentCommand, ghost log: Log) returns (r: Outcome)
      requires engine.Valid() && OfDeployment(kind) && d.deploymentId != ""
      requires !kind.DeploymentCancel? ==>
        Event(d.deploymentId, d.cutoverSequence, false) in Events(log, d.containerName)
      modifies engine, this`effects
      ensures engine.Valid() && |old(effects)| <= |effects| && effects[..|old(effects)|] == old(effects)
      ensures Disciplined(effects[|old(effects)|..], kind, d, false, log)
      ensures OnlySlotDiffers(old(engine.containers), engine.containers, d)
      ensures OperationTook(kind, SlotOf(old(engine.containers), d), SlotOf(engine.containers, d), d)
      ensures Succeeded(r) ==> OperationDone(kind, SlotOf(old(engine.containers), d), SlotOf(engine.containers, d), d)
      ensures old(engine.reports) <= engine.reports
      ensures r.Answer? && !engine.disturbed ==>
        OperationAnswered(kind, SlotOf(old(engine.containers), d), SlotOf(engine.containers, d), r.value, d,
                          Since(old(engine.reports), engine.reports))
    {
      hide StageAnswered, ActivateAnswered, RetireAnswered, CancelAnswered, PrepareAnswered, ReadyToActivate,
        ActivatesOnlyReady, Started;
      hide Made, CandidateName, PreviousName, UniqueIds, Events, OwnsExecution, HasNewerFence, StageTook, ActivateTook,
        CancelTook,
        RetireTook, OnlySlotDiffers, Activated, OnTheWay, Cancelled, CanActivate, Blocked, Disciplined;
      ghost var before := engine.calls;
      ghost var newer := Newer(SlotOf(engine.containers, d).stable, d);
      match kind {
        case DeploymentPrepare =>
          OnlySlotDiffersIsTransitive(engine.containers, engine.containers, engine.containers, d);
          r := PrepareDeployment();
          NoCalls(before, kind, d, false, log);
        case DeploymentStage =>
          r := StageDeployment(engine, d);
          CallsWithin(before, engine.calls, kind, d, if newer then OnlyRemoves else MayCreate, false, log);
        case DeploymentActivate =>
          r := ActivateDeployment(engine, d);
          CallsWithin(before, engine.calls, kind, d, if newer then OnlyRemoves else NeverCreates, false, log);
        case DeploymentRetire =>
          r := RetirePreviousDeployment(engine, d);
          CallsWithin(before, engine.calls, kind, d, OnlyRemoves, false, log);
        case DeploymentCancel =>
          r := CancelDeployment(engine, d);
          CallsWithin(before, engine.calls, kind, d, NeverCreates, false, log);
      }
      ghost var added := Effects(kind, ExecutionOf(d), engine.calls[|before|..]);
      effects := effects + added;
      assert effects[|old(effects)|..] == added;
    }

    lemma NoCalls(before: seq<EngineCall>, kind: CommandKind, d: DeploymentCommand, stale: bool, log: Log)
      ensures Disciplined(Effects(kind, ExecutionOf(d), before[|before|..]), kind, d, stale, log)
    {
    }

    /**
     `executeDeployment`. A cancel tombstones its execution first; every other command is observed first, and one
     the store calls stale at most removes its own candidate.
     */
    method ExecuteDeployment(kind: CommandKind, d: DeploymentCommand) returns (r: Outcome, ghost actions: seq<Action>)
      requires Valid() && OfDeployment(kind) && d.deploymentId != ""
      modifies engine, cutovers`entries, cutovers`store, cutovers.file, this`effects
      ensures Valid() && |old(effects)| <= |effects| && effects[..|old(effects)|] == old(effects)
      ensures |actions| <= 1 && cutovers.store == Ran(old(cutovers.store), actions, cutovers.maximum)
      ensures forall i, slot :: 0 <= i < |actions| ==> !ReleasesSlot(actions[i], slot)
      ensures var stale := Stale(old(cutovers.store.log), ExecutionOf(d));
        Disciplined(effects[|old(effects)|..], kind, d, stale, cutovers.store.log)
      ensures OnlySlotDiffers(old(engine.containers), engine.containers, d)
      ensures var x, y := SlotOf(old(engine.containers), d), SlotOf(engine.containers, d);
        y == DropCandidate(x, d) || OperationTook(kind, x, y, d)
      ensures Succeeded(r) ==> OperationDone(kind, SlotOf(old(engine.containers), d), SlotOf(engine.containers, d), d)
      ensures Succeeded(r) ==> (Stale(old(cutovers.store.log), ExecutionOf(d)) ==> kind.DeploymentCancel?)
      ensures kind.DeploymentCancel? && Succeeded(r) ==> Stale(cutovers.store.log, ExecutionOf(d))
      ensures old(engine.reports) <= engine.reports
      ensures Executed(kind, d, Gate(kind, d, old(cutovers.store.log), cutovers.maximum, WriteOf(actions)),
                       SlotOf(old(engine.containers), d), SlotOf(engine.containers, d), r,
                       Since(old(engine.reports), engine.reports), engine.disturbed,
                       engine.containers != old(engine.containers) || engine.calls != old(engine.calls))
    {
      hide Dispatched, Reaches, NoRoom, Superseded, Appended;
      hide UniqueIds, StaleByLog, Events, Replied, Called, CutoverStore.Denotes, WithinRules, Inv, ValidCutoverEntry,
        Made, OnlySlotDiffers, SlotOf, OperationTook, OperationDone, Disciplined, DropCandidate, Ran;
      actions := [];
      NothingRan(cutovers.store, cutovers.maximum);
      assert effects[|effects|..] == [];
      NothingDone(engine.containers, kind, d);
      if kind.DeploymentCancel? {
        var reply, write := cutovers.Cancel(d.containerName, d.deploymentId, d.cutoverSequence);
        if ValidCutoverEntry(d.containerName, d.deploymentId, d.cutoverSequence) {
          actions := [Action.Call(CutoverLog.Cancel(d.containerName, d.deploymentId, d.cutoverSequence), write)];
          OneAction(old(cutovers.store), actions[0], cutovers.maximum);
        }
        if reply.Err? { return Answer(Err(RuntimeConfiguration)), actions; }
        r := Dispatch(kind, d, false, cutovers.store.log);
        CancelsAnyway(effects[|old(effects)|..], kind, d, cutovers.store.log);
        return;
      }
      var reply, write := cutovers.Observe(d.containerName, d.deploymentId, d.cutoverSequence);
      if ValidCutoverEntry(d.containerName, d.deploymentId, d.cutoverSequence) {
        actions := [Action.Call(CutoverLog.Observe(d.containerName, d.deploymentId, d.cutoverSequence), write)];
        OneAction(old(cutovers.store), actions[0], cutovers.maximum);
      }
      if reply.Err? { return Answer(Err(RuntimeConfiguration)), actions; }
      var stale := reply.value;
      if stale && kind.DeploymentPrepare? { return Answer(Err(StaleExecution)), actions; }
      if !stale {
        ObservationIsNoted(old(cutovers.store), d.containerName, d.deploymentId, d.cutoverSequence, write,
          cutovers.maximum);
      }
      r := Dispatch(kind, d, stale, cutovers.store.log);
    }

    /** Opens the engine and runs what the store's word allows. */
    method Dispatch(kind: CommandKind, d: DeploymentCommand, stale: bool, ghost log: Log) returns (r: Outcome)
      requires engine.Valid() && OfDeployment(kind) && d.deploymentId != ""
      requires stale ==> !kind.DeploymentCancel? && !kind.DeploymentPrepare?
      requires !stale && !kind.DeploymentCancel? ==>
        Event(d.deploymentId, d.cutoverSequence, false) in Events(log, d.containerName)
      modifies engine, this`effects
      ensures engine.Valid() && |old(effects)| <= |effects| && effects[..|old(effects)|] == old(effects)
      ensures Disciplined(effects[|old(effects)|..], kind, d, stale, log)
      ensures OnlySlotDiffers(old(engine.containers), engine.containers, d)
      ensures var x, y := SlotOf(old(engine.containers), d), SlotOf(engine.containers, d);
        && (y == DropCandidate(x, d) || OperationTook(kind, x, y, d))
        && (Succeeded(r) ==> !stale && OperationDone(kind, x, y, d))
      ensures old(engine.reports) <= engine.reports
      ensures Dispatched(kind, d, stale, SlotOf(old(engine.containers), d), SlotOf(engine.containers, d), r,
                         Since(old(engine.reports), engine.reports), engine.disturbed,
                         engine.containers != old(engine.containers) || engine.calls != old(engine.calls))
    {
      hide OperationAnswered, UniqueIds, Events, Made, OnlySlotDiffers, SlotOf, OperationTook, OperationDone,
        Disciplined, DropCandidate;
      assert effects[|effects|..] == [];
      NothingDone(engine.containers, kind, d);
      var connected :- engine.Ask(Connected);
      ghost var heard := engine.reports;
      if !connected { return Answer(Err(RuntimeConfiguration)); }
      if stale { r := DropStaleCandidate(kind, d, log); } else { r := RunOperation(kind, d, log); }
      SinceAdds(old(engine.reports), heard, engine.reports);
    }

    method DropStaleCandidate(kind: CommandKind, d: DeploymentCommand, ghost log: Log) returns (r: Outcome)
      requires engine.Valid()
      modifies engine, this`effects
      ensures engine.Valid() && |old(effects)| <= |effects| && effects[..|old(effects)|] == old(effects)
      ensures Disciplined(effects[|old(effects)|..], kind, d, true, log)
      ensures r.Crash? || r == Answer(Err(StaleExecution))
      ensures OnlySlotDiffers(old(engine.containers), engine.containers, d)
      ensures var x, y := SlotOf(old(engine.containers), d), SlotOf(engine.containers, d);
        (y == x || y == DropCandidate(x, d)) && (r.Answer? && !engine.disturbed ==> y == DropCandidate(x, d))
      ensures old(engine.reports) <= engine.reports
    {
      hide Made, CandidateName, PreviousName, UniqueIds, Events, OwnsExecution, Disciplined;
      ghost var before := engine.calls;
      var removed := RemoveNamedOwnedCandidate(engine, d);
      CallsWithin(before, engine.calls, kind, d, OnlyRemoves, true, log);
      ghost var added := Effects(kind, ExecutionOf(d), engine.calls[|before|..]);
      effects := effects + added;
      assert effects[|old(effects)|..] == added;
      return if removed.Crash? then Crash else Answer(Err(StaleExecution));
    }

    /** The agent stops and starts again from its file. */
    method Restart() returns (ghost actions: seq<Action>)
      requires Valid()
      modifies cutovers`entries, cutovers`store
      ensures Valid() && |actions| == 1 && forall slot :: !ReleasesSlot(actions[0], slot)
      ensures cutovers.store == Ran(old(cutovers.store), actions, cutovers.maximum)
    {
      hide UniqueIds, CutoverStore.Denotes, WithinRules, Inv;
      var loaded := cutovers.Restart();
      actions := [Action.Restart];
      OneAction(old(cutovers.store), Action.Restart, cutovers.maximum);
    }

    /**
     Runs deployment commands in any order and repetition, restarting wherever one stops and wherever the script
     says so. Whatever the run creates carries a cutover sequence at most its slot's watermark, and an execution
     the log overruled beforehand creates, starts and renames nothing, in any of the commands.
     */
    method RunCommands(script: seq<Delivery>)
      requires Valid() && EverythingOnFile(cutovers.store) && CreationsNoted(effects, cutovers.store.log)
      requires forall i :: 0 <= i < |script| && script[i].Deliver? ==>
        OfDeployment(script[i].kind) && script[i].deployment.deploymentId != ""
      modifies engine, cutovers`entries, cutovers`store, cutovers.file, this`effects
      ensures Valid() && EverythingOnFile(cutovers.store) && CreationsNoted(effects, cutovers.store.log)
      ensures BelowWatermark(effects, cutovers.entries)
      ensures |old(effects)| <= |effects| && effects[..|old(effects)|] == old(effects)
      ensures forall e :: Stale(old(cutovers.store.log), e) ==> OnlyRemovesFor(effects[|old(effects)|..], e)
    {
      hide UniqueIds, StaleByLog, Events, OnFile, Disciplined, CutoverStore.Denotes, WithinRules, Inv, ReleasesSlot,
        Ran, CreationsNoted, OnlyRemovesFor, BelowWatermark, Executed, Gate, OperationTook, OperationDone,
        OnlySlotDiffers, SlotOf;
      ghost var overruled := cutovers.store.log;
      ghost var during: seq<Effect> := [];
      NothingYet();
      LogGrowsFromItself(overruled);
      var i := 0;
      while i < |script|
        invariant i <= |script| && Valid() && EverythingOnFile(cutovers.store)
        invariant LogGrows(overruled, cutovers.store.log)
        invariant CreationsNoted(effects, cutovers.store.log)
        invariant effects == old(effects) + during
        invariant forall e :: Stale(overruled, e) ==> OnlyRemovesFor(during, e)
      {
        ghost var s, past := cutovers.store, effects;
        match script[i] {
          case Deliver(kind, deployment) =>
            var r, actions := ExecuteDeployment(kind, deployment);
            RunGrowsLog(s, actions, cutovers.maximum);
            ghost var added := effects[|past|..];
            assert effects == past + added;
            EffectsStayDisciplined(past, during, added, kind, deployment, overruled, s.log, cutovers.store.log);
            during := during + added;
            if r.Crash? {
              s := cutovers.store;
              var restart := Restart();
              RunGrowsLog(s, restart, cutovers.maximum);
              CreationsStayNoted(effects, s.log, cutovers.store.log);
            }
          case Stop =>
            var restart := Restart();
            RunGrowsLog(s, restart, cutovers.maximum);
            CreationsStayNoted(effects, s.log, cutovers.store.log);
        }
        LogGrowsOn(overruled, s.log, cutovers.store.log);
        i := i + 1;
      }
      NotedIsBelowWatermark(effects, cutovers.store);
    }
  }

  datatype Delivery = Deliver(kind: CommandKind, deployment: DeploymentCommand) | Stop

  ghost predicate EverythingOnFile(s: Store) { forall slot :: OnFile(s, slot) }

  ghost predicate LogGrows(a: Log, b: Log) {
    forall slot, e :: e in Events(a, slot) ==> e in Events(b, slot)
  }

  /** What an execution that was overruled still does. */
  ghost predicate OnlyRemovesFor(effects: seq<Effect>, e: Execution) {
    forall i :: 0 <= i < |effects| && effects[i].owner == e && !effects[i].kind.DeploymentCancel? ==>
      effects[i].call.Remove?
  }

  ghost predicate CreationsNoted(effects: seq<Effect>, log: Log) {
    forall i :: 0 <= i < |effects| && effects[i].call.Create? ==>
      && effects[i].call.labels.cutoverSequence == effects[i].owner.sequence
      && Event(effects[i].owner.deploymentId, effects[i].owner.sequence, false) in Events(log, effects[i].owner.slot)
  }

  ghost predicate BelowWatermark(effects: seq<Effect>, entries: Entries) {
    forall i :: 0 <= i < |effects| && effects[i].call.Create? ==>
      && effects[i].owner.slot in entries
      && effects[i].call.labels.cutoverSequence <= entries[effects[i].owner.slot].sequence
  }

  lemma NothingYet()
    ensures forall e :: OnlyRemovesFor([], e)
  {
  }

  lemma LogGrowsFromItself(a: Log)
    ensures LogGrows(a, a)
  {
  }

  lemma LogGrowsOn(a: Log, b: Log, c: Log)
    requires LogGrows(a, b) && LogGrows(b, c)
    ensures LogGrows(a, c)
  {
  }

  lemma RunGrowsLog(s: Store, actions: seq<Action>, maximum: nat)
    requires Inv(s) && EverythingOnFile(s)
    requires forall i, slot :: 0 <= i < |actions| ==> !ReleasesSlot(actions[i], slot)
    ensures EverythingOnFile(Ran(s, actions, maximum)) && LogGrows(s.log, Ran(s, actions, maximum).log)
  {
    hide Inv, OnFile, Ran, ReleasesSlot, Events;
    forall slot
      ensures OnFile(Ran(s, actions, maximum), slot)
      ensures forall e :: e in Events(s.log, slot) ==> e in Events(Ran(s, actions, maximum).log, slot)
    {
      RunKeepsSlot(s, actions, slot, maximum);
    }
  }

  lemma StaleStays(a: Log, b: Log, e: Execution)
    requires LogGrows(a, b) && Stale(a, e)
    ensures Stale(b, e)
  {
    hide Events, Overrules;
    var i :| 0 <= i < |Events(a, e.slot)| && Overrules(Events(a, e.slot)[i], e.deploymentId, e.sequence);
    assert Events(a, e.slot)[i] in Events(b, e.slot);
  }

  lemma CreationsStayNoted(effects: seq<Effect>, a: Log, b: Log)
    requires CreationsNoted(effects, a) && LogGrows(a, b)
    ensures CreationsNoted(effects, b)
  {
    hide Events;
  }

  lemma EffectsStayDisciplined(past: seq<Effect>, during: seq<Effect>, added: seq<Effect>, kind: CommandKind,
                               d: DeploymentCommand, overruled: Log, before: Log, after: Log)
    requires Disciplined(added, kind, d, Stale(before, ExecutionOf(d)), after)
    requires LogGrows(overruled, before) && LogGrows(before, after) && CreationsNoted(past, before)
    requires forall e :: Stale(overruled, e) ==> OnlyRemovesFor(during, e)
    ensures CreationsNoted(past + added, after)
    ensures forall e :: Stale(overruled, e) ==> OnlyRemovesFor(during + added, e)
  {
    hide Events, StaleByLog, LogGrows;
    CreationsStayNoted(past, before, after);
    forall e | Stale(overruled, e) ensures OnlyRemovesFor(during + added, e) {
      StaleStays(overruled, before, e);
    }
  }

  lemma NotedIsBelowWatermark(effects: seq<Effect>, s: Store)
    requires Inv(s) && CreationsNoted(effects, s.log)
    ensures BelowWatermark(effects, s.memory)
  {
    forall i | 0 <= i < |effects| && effects[i].call.Create?
      ensures effects[i].owner.slot in s.memory
        && effects[i].call.labels.cutoverSequence <= s.memory[effects[i].owner.slot].sequence
    {
      var e := Event(effects[i].owner.deploymentId, effects[i].owner.sequence, false);
      assert e in Events(s.log, effects[i].owner.slot);
      assert SumsUp(s.memory[effects[i].owner.slot], s.log[effects[i].owner.slot]);
    }
  }
}
