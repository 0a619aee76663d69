/**
 Stage, activate, retire and cancel against the engine, call by call
 (internal/agent/runtime/docker_deployment.go:190-465, 685-817). Each method is proved to do to the
 slot what DeploymentSlots.dfy says it may, wherever it stops and whichever calls fail.
 */
module DockerDeployment {
  import opened AgentCommands
  import opened Common
  import opened DeploymentSlots
  import opened DockerEngine

  datatype Refusal =
    | StaleExecution | RuntimeError | RuntimeConflict | CandidateMissing | CandidateNotReady | IngressUnavailable
    | RuntimeConfiguration | TargetUnreachable | ImagePull

  type Outcome = Reply<Result<(), Refusal>>

  predicate Succeeded(r: Outcome) { r.Answer? && r.value.Ok? }

  /** How far an operation's calls may go. What it creates is always its own execution's candidate. */
  datatype Latitude = OnlyRemoves | NeverCreates | MayCreate

  /** The calls between two moments, each within the latitude. */
  ghost predicate Made(before: seq<EngineCall>, after: seq<EngineCall>, d: DeploymentCommand, latitude: Latitude) {
    && |before| <= |after| && after[..|before|] == before
    && forall i :: |before| <= i < |after| ==> Within(after[i], d, latitude)
  }

  ghost predicate Within(call: EngineCall, d: DeploymentCommand, latitude: Latitude) {
    match call
    case Create(name, labels) => latitude.MayCreate? && name == CandidateName(d) && labels == LabelsOf(d)
    case Start(_) => latitude.MayCreate?
    case Rename(_, _) => !latitude.OnlyRemoves?
    case Remove(_) => true
  }

  /** What was added. */
  function Since<T>(before: seq<T>, after: seq<T>): seq<T>
    requires before <= after
  {
    after[|before|..]
  }

  lemma SinceAdds<T>(a: seq<T>, b: seq<T>, c: seq<T>)
    requires a <= b <= c
    ensures Since(a, c) == Since(a, b) + Since(b, c)
  {
  }

  lemma SinceGrows<T>(a: seq<T>, b: seq<T>, t: T)
    requires a <= b
    ensures Since(a, b + [t]) == Since(a, b) + [t]
  {
  }

  /** The container runs, as far as the engine told: it was seen running, or it was started. */
  ghost predicate Started(id: nat, heard: seq<Report>, called: seq<EngineCall>) {
    EngineCall.Start(id) in called || exists i :: 0 <= i < |heard| && SeenRunning(heard[i], id)
  }

  predicate SeenRunning(report: Report, id: nat) {
    report.Seen? && report.container.id == id && report.state.Running?
  }

  lemma RemovedByName(m: Containers, name: string)
    requires UniqueIds(m) && name in m
    ensures HasId(m, m[name].id) && AfterRemove(m, m[name].id) == m - {name}
  {
    hide UniqueIds;
    KnownName(m, name);
  }

  lemma RenamedByName(m: Containers, name: string, to: string)
    requires UniqueIds(m) && name in m && to !in m
    ensures HasId(m, m[name].id) && AfterRename(m, m[name].id, to) == (m - {name})[to := m[name]]
  {
    hide UniqueIds;
    KnownName(m, name);
  }

  /** `removeOwnedContainer`: best effort, by ID, whatever the name it stands under now. */
  method RemoveOwnedContainer(engine: Engine, id: nat, ghost name: string, d: DeploymentCommand) returns (r: Reply<()>)
    requires engine.Valid() && name in engine.containers && engine.containers[name].id == id
    modifies engine
    ensures engine.Valid() && (old(engine.disturbed) ==> engine.disturbed)
    ensures old(engine.reports) <= engine.reports
    ensures forall report :: report in Since(old(engine.reports), engine.reports) ==> report.Seen?
    ensures Made(old(engine.calls), engine.calls, d, OnlyRemoves)
    ensures engine.containers == old(engine.containers) || engine.containers == old(engine.containers) - {name}
    ensures !OwnsExecution(old(engine.containers)[name], d) ==> engine.containers == old(engine.containers)
    ensures r.Answer? && OwnsExecution(old(engine.containers)[name], d) && !engine.disturbed ==>
      engine.containers == old(engine.containers) - {name}
  {
    hide UniqueIds, OwnsExecution;
    KnownName(engine.containers, name);
    RemovedByName(engine.containers, name);
    var current :- engine.InspectId(id);
    if !current.Found? || !OwnsExecution(current.container, d) { return Answer(()); }
    var removal :- engine.Remove(id);
    return Answer(());
  }

  /** `removeNamedOwnedCandidate`. */
  method RemoveNamedOwnedCandidate(engine: Engine, d: DeploymentCommand) returns (r: Reply<()>)
    requires engine.Valid()
    modifies engine
    ensures engine.Valid() && (old(engine.disturbed) ==> engine.disturbed)
    ensures old(engine.reports) <= engine.reports
    ensures forall report :: report in Since(old(engine.reports), engine.reports) ==> report.Seen?
    ensures Made(old(engine.calls), engine.calls, d, OnlyRemoves)
    ensures OnlySlotDiffers(old(engine.containers), engine.containers, d)
    ensures var x, y := SlotOf(old(engine.containers), d), SlotOf(engine.containers, d);
      && (y == x || y == DropCandidate(x, d))
      && (r.Answer? && !engine.disturbed ==> y == DropCandidate(x, d))
  {
    hide UniqueIds, OwnsExecution, CandidateName, PreviousName;
    NamesDiffer(d);
    var candidate :- engine.Inspect(CandidateName(d));
    if candidate.Found? && OwnsExecution(candidate.container, d) {
      var removed :- RemoveOwnedContainer(engine, candidate.container.id, CandidateName(d), d);
    }
    return Answer(());
  }

  /** `removeOwnedContainerStrict`, of the container found under `name`. */
  method RemoveOwnedContainerStrict(engine: Engine, container: Container, ghost name: string, d: DeploymentCommand)
    returns (r: Outcome)
    requires engine.Valid() && name in engine.containers && engine.containers[name] == container
    requires OwnsExecution(container, d)
    modifies engine
    ensures engine.Valid() && (old(engine.disturbed) ==> engine.disturbed)
    ensures old(engine.reports) <= engine.reports
    ensures Made(old(engine.calls), engine.calls, d, OnlyRemoves)
    ensures engine.containers == old(engine.containers) || engine.containers == old(engine.containers) - {name}
    ensures Succeeded(r) ==> engine.containers == old(engine.containers) - {name}
    ensures r.Answer? && r.value.Err? ==> engine.disturbed
  {
    hide UniqueIds;
    if !OwnsExecution(container, d) { return Answer(Err(RuntimeConflict)); }
    RemovedByName(engine.containers, name);
    var removal :- engine.Remove(container.id);
    if removal.RemovalFailed? { return Answer(Err(RuntimeError)); }
    return Answer(Ok(()));
  }

  /** What a stage answers, and leaves, when every call that could be served was. */
  ghost predicate StageAnswered(x: Slot, y: Slot, r: Result<(), Refusal>, d: DeploymentCommand, heard: seq<Report>) {
    if d.managedIngress && Told(NetworkUsable, false) in heard then r == Err(IngressUnavailable) && y == x
    else if Newer(x.stable, d) then r == Err(StaleExecution) && y == DropCandidate(x, d)
    else if Owned(x.stable, d) then
      y == x && if Told(Ready(x.stable.value.id), true) in heard then r.Ok? else r == Err(RuntimeError)
    else if Newer(x.candidate, d) then r == Err(StaleExecution) && y == x
    else if x.candidate.Some? && !Owned(x.candidate, d) then r == Err(RuntimeConflict) && y == x
    else CandidateAnswered(x, y, r, d, heard)
  }

  /** The candidate stands and is ready, or it is gone. */
  ghost predicate CandidateAnswered(x: Slot, y: Slot, r: Result<(), Refusal>, d: DeploymentCommand,
                                    heard: seq<Report>)
  {
    if r.Ok? then
      && Owned(y.candidate, d) && y == x.(candidate := y.candidate) && (x.candidate.Some? ==> y == x)
      && Told(Ready(y.candidate.value.id), true) in heard
    else
      && r == Err(RuntimeError) && y == x.(candidate := None)
      && exists id :: Told(Ready(id), false) in heard && (x.candidate.Some? ==> id == x.candidate.value.id)
  }

  method StageDeployment(engine: Engine, d: DeploymentCommand) returns (r: Outcome)
    requires engine.Valid() && d.deploymentId != ""
    modifies engine
    ensures engine.Valid() && (old(engine.disturbed) ==> engine.disturbed)
    ensures old(engine.reports) <= engine.reports
    ensures OnlySlotDiffers(old(engine.containers), engine.containers, d)
    ensures StageTook(SlotOf(old(engine.containers), d), SlotOf(engine.containers, d), d)
    ensures Made(old(engine.calls), engine.calls, d,
                 if Newer(SlotOf(old(engine.containers), d).stable, d) then OnlyRemoves else MayCreate)
    ensures Succeeded(r) ==>
      Owned(SlotOf(engine.containers, d).stable, d) || Owned(SlotOf(engine.containers, d).candidate, d)
    ensures r.Answer? && !engine.disturbed ==>
      StageAnswered(SlotOf(old(engine.containers), d), SlotOf(engine.containers, d), r.value, d,
                    Since(old(engine.reports), engine.reports))
    ensures Succeeded(r) && !Owned(SlotOf(old(engine.containers), d).stable, d) ==>
      var id := SlotOf(engine.containers, d).candidate.value.id;
      && Told(Ready(id), true) in Since(old(engine.reports), engine.reports)
      && Started(id, Since(old(engine.reports), engine.reports), Since(old(engine.calls), engine.calls))
    ensures d.managedIngress && Told(NetworkUsable, true) !in Since(old(engine.reports), engine.reports) ==>
      !Succeeded(r) && engine.calls == old(engine.calls) && engine.containers == old(engine.containers)
  {
    hide UniqueIds, OwnsExecution, HasNewerFence, CandidateName, PreviousName, Started, CandidateAnswered;
    NamesDiffer(d);
    if d.managedIngress {
      var networkUsable :- engine.Ask(NetworkUsable);
      if !networkUsable { return Answer(Err(IngressUnavailable)); }
    }
    ghost var heard := engine.reports;
    r := StageSlot(engine, d);
    SinceAdds(old(engine.reports), heard, engine.reports);
    StartedSince(old(engine.reports), heard, engine.reports, Since(old(engine.calls), engine.calls));
    CandidateAnsweredLater(d, Since(old(engine.reports), heard), Since(heard, engine.reports));
  }

  lemma StartedSince(a: seq<Report>, b: seq<Report>, c: seq<Report>, called: seq<EngineCall>)
    requires a <= b <= c
    ensures forall id :: Started(id, Since(b, c), called) ==> Started(id, Since(a, c), called)
  {
    forall id | Started(id, Since(b, c), called) ensures Started(id, Since(a, c), called) {
      if EngineCall.Start(id) !in called {
        var i :| 0 <= i < |Since(b, c)| && SeenRunning(Since(b, c)[i], id);
        assert Since(a, c)[|b| - |a| + i] == Since(b, c)[i];
      }
    }
  }

  lemma CandidateAnsweredLater(d: DeploymentCommand, earlier: seq<Report>, heard: seq<Report>)
    ensures forall x, y, r :: CandidateAnswered(x, y, r, d, heard) ==> CandidateAnswered(x, y, r, d, earlier + heard)
  {
    hide OwnsExecution;
  }

  /** A stage once the network is known to be usable. */
  method StageSlot(engine: Engine, d: DeploymentCommand) returns (r: Outcome)
    requires engine.Valid() && d.deploymentId != ""
    modifies engine
    ensures engine.Valid() && (old(engine.disturbed) ==> engine.disturbed)
    ensures old(engine.reports) <= engine.reports
    ensures OnlySlotDiffers(old(engine.containers), engine.containers, d)
    ensures StageTook(SlotOf(old(engine.containers), d), SlotOf(engine.containers, d), d)
    ensures Made(old(engine.calls), engine.calls, d,
                 if Newer(SlotOf(old(engine.containers), d).stable, d) then OnlyRemoves else MayCreate)
    ensures Succeeded(r) ==>
      Owned(SlotOf(engine.containers, d).stable, d) || Owned(SlotOf(engine.containers, d).candidate, d)
    ensures Told(NetworkUsable, false) !in Since(old(engine.reports), engine.reports)
    ensures r.Answer? && !engine.disturbed ==>
      StageAnswered(SlotOf(old(engine.containers), d), SlotOf(engine.containers, d), r.value, d,
                    Since(old(engine.reports), engine.reports))
    ensures Succeeded(r) && !Owned(SlotOf(old(engine.containers), d).stable, d) ==>
      && SlotOf(engine.containers, d).candidate.Some?
      && var id := SlotOf(engine.containers, d).candidate.value.id;
      && Told(Ready(id), true) in Since(old(engine.reports), engine.reports)
      && Started(id, Since(old(engine.reports), engine.reports), Since(old(engine.calls), engine.calls))
  {
    hide UniqueIds, OwnsExecution, HasNewerFence, CandidateName, PreviousName, Started, CandidateAnswered;
    NamesDiffer(d);
    var current :- engine.Inspect(StableName(d));
    if current.Found? && HasNewerFence(current.container, d) {
      NewerIsNotOwned(current.container, d);
      ghost var before := engine.reports;
      var removed := RemoveNamedOwnedCandidate(engine, d);
      SinceAdds(old(engine.reports), before, engine.reports);
      return if removed.Crash? then Crash else Answer(Err(StaleExecution));
    }
    if current.Found? && OwnsExecution(current.container, d) {
      ghost var before := engine.reports;
      var ready :- engine.Ask(Ready(current.container.id));
      SinceGrows(old(engine.reports), before, Told(Ready(current.container.id), ready));
      return Answer(if ready then Ok(()) else Err(RuntimeError));
    }
    if current.Unavailable? { return Answer(Err(RuntimeError)); }
    ghost var heard := engine.reports;
    r := StageCandidate(engine, d);
    SinceAdds(old(engine.reports), heard, engine.reports);
    StartedSince(old(engine.reports), heard, engine.reports, Since(old(engine.calls), engine.calls));
    CandidateAnsweredLater(d, Since(old(engine.reports), heard), Since(heard, engine.reports));
  }

  /** A stage once the stable container is known to be an older one, if there is one. */
  method StageCandidate(engine: Engine, d: DeploymentCommand) returns (r: Outcome)
    requires engine.Valid() && d.deploymentId != ""
    modifies engine
    ensures engine.Valid() && (old(engine.disturbed) ==> engine.disturbed)
    ensures old(engine.reports) <= engine.reports
    ensures OnlySlotDiffers(old(engine.containers), engine.containers, d)
    ensures var x, y := SlotOf(old(engine.containers), d), SlotOf(engine.containers, d);
      || y == x || y == DropCandidate(x, d)
      || (&& x.candidate.None? && y.candidate.Some? && y.candidate.value.labels == LabelsOf(d)
          && y == x.(candidate := y.candidate))
    ensures Made(old(engine.calls), engine.calls, d, MayCreate)
    ensures Told(NetworkUsable, false) !in Since(old(engine.reports), engine.reports)
    ensures r.Answer? && !engine.disturbed ==>
      var x, y := SlotOf(old(engine.containers), d), SlotOf(engine.containers, d);
      if Newer(x.candidate, d) then r.value == Err(StaleExecution) && y == x
      else if x.candidate.Some? && !Owned(x.candidate, d) then r.value == Err(RuntimeConflict) && y == x
      else CandidateAnswered(x, y, r.value, d, Since(old(engine.reports), engine.reports))
    ensures Succeeded(r) ==>
      && Owned(SlotOf(engine.containers, d).candidate, d)
      && var id := SlotOf(engine.containers, d).candidate.value.id;
      && Told(Ready(id), true) in Since(old(engine.reports), engine.reports)
      && Started(id, Since(old(engine.reports), engine.reports), Since(old(engine.calls), engine.calls))
  {
    hide UniqueIds, OwnsExecution, HasNewerFence, CandidateName, PreviousName, Started, CandidateAnswered;
    NamesDiffer(d);
    var candidate :- engine.Inspect(CandidateName(d));
    if candidate.Unavailable? { return Answer(Err(RuntimeError)); }
    if candidate.Found? && HasNewerFence(candidate.container, d) { return Answer(Err(StaleExecution)); }
    if candidate.Found? && !OwnsExecution(candidate.container, d) { return Answer(Err(RuntimeConflict)); }
    ghost var heard := engine.reports;
    r := StartCandidate(engine, d, candidate);
    SinceAdds(old(engine.reports), heard, engine.reports);
    StartedSince(old(engine.reports), heard, engine.reports, Since(old(engine.calls), engine.calls));
    CandidateAnsweredLater(d, Since(old(engine.reports), heard), Since(heard, engine.reports));
  }

  lemma NewerIsNotOwned(c: Container, d: DeploymentCommand)
    requires HasNewerFence(c, d)
    ensures !OwnsExecution(c, d)
  {
  }

  lemma NewLabelsAreOwned(c: Container, d: DeploymentCommand)
    requires d.deploymentId != "" && c.labels == LabelsOf(d)
    ensures OwnsExecution(c, d)
  {
  }

  /** The second half of a stage: create the candidate unless it exists, start it, wait until it is ready. */
  method StartCandidate(engine: Engine, d: DeploymentCommand, candidate: Lookup) returns (r: Outcome)
    requires engine.Valid() && d.deploymentId != ""
    requires candidate.NotFound? ==> CandidateName(d) !in engine.containers
    requires candidate.Found? ==>
      && CandidateName(d) in engine.containers && engine.containers[CandidateName(d)] == candidate.container
      && OwnsExecution(candidate.container, d)
    requires !candidate.Unavailable?
    modifies engine
    ensures engine.Valid() && (old(engine.disturbed) ==> engine.disturbed)
    ensures old(engine.reports) <= engine.reports
    ensures OnlySlotDiffers(old(engine.containers), engine.containers, d)
    ensures var x, y := SlotOf(old(engine.containers), d), SlotOf(engine.containers, d);
      || y == x || y == x.(candidate := None)
      || (&& x.candidate.None? && y.candidate.Some? && y.candidate.value.labels == LabelsOf(d)
          && y == x.(candidate := y.candidate))
    ensures Made(old(engine.calls), engine.calls, d, MayCreate)
    ensures Told(NetworkUsable, false) !in Since(old(engine.reports), engine.reports)
    ensures Succeeded(r) ==> Owned(SlotOf(engine.containers, d).candidate, d)
    ensures r.Answer? && !engine.disturbed ==>
      CandidateAnswered(SlotOf(old(engine.containers), d), SlotOf(engine.containers, d), r.value, d,
                        Since(old(engine.reports), engine.reports))
    ensures Succeeded(r) ==>
      var id := SlotOf(engine.containers, d).candidate.value.id;
      && Told(Ready(id), true) in Since(old(engine.reports), engine.reports)
      && Started(id, Since(old(engine.reports), engine.reports), Since(old(engine.calls), engine.calls))
  {
    hide UniqueIds, OwnsExecution, CandidateName, PreviousName, Started;
    NamesDiffer(d);
    if candidate.Found? {
      r := RunCandidate(engine, d, candidate.container.id);
      return;
    }
    var created :- engine.Create(CandidateName(d), LabelsOf(d));
    if created.None? { return Answer(Err(RuntimeError)); }
    NewLabelsAreOwned(engine.containers[CandidateName(d)], d);
    ghost var called := engine.calls;
    r := RunCandidate(engine, d, created.value);
    CallsSince(old(engine.calls), called, engine.calls, Since(old(engine.reports), engine.reports));
  }

  lemma CallsSince(a: seq<EngineCall>, b: seq<EngineCall>, c: seq<EngineCall>, heard: seq<Report>)
    requires a <= b <= c
    ensures forall id :: Started(id, heard, Since(b, c)) ==> Started(id, heard, Since(a, c))
  {
    SinceAdds(a, b, c);
  }

  method RunCandidate(engine: Engine, d: DeploymentCommand, id: nat) returns (r: Outcome)
    requires engine.Valid() && CandidateName(d) in engine.containers
    requires engine.containers[CandidateName(d)].id == id && OwnsExecution(engine.containers[CandidateName(d)], d)
    modifies engine
    ensures engine.Valid() && (old(engine.disturbed) ==> engine.disturbed)
    ensures old(engine.reports) <= engine.reports
    ensures
      || engine.containers == old(engine.containers)
      || engine.containers == old(engine.containers) - {CandidateName(d)}
    ensures Made(old(engine.calls), engine.calls, d, MayCreate)
    ensures Told(NetworkUsable, false) !in Since(old(engine.reports), engine.reports)
    ensures Succeeded(r) ==>
      && engine.containers == old(engine.containers)
      && Told(Ready(id), true) in Since(old(engine.reports), engine.reports)
      && Started(id, Since(old(engine.reports), engine.reports), Since(old(engine.calls), engine.calls))
    ensures r.Answer? && !engine.disturbed && !Succeeded(r) ==>
      && r.value == Err(RuntimeError) && engine.containers == old(engine.containers) - {CandidateName(d)}
      && Told(Ready(id), false) in Since(old(engine.reports), engine.reports)
  {
    hide UniqueIds, OwnsExecution, CandidateName, Started;
    KnownName(engine.containers, CandidateName(d));
    var ready :- AwaitReady(engine, d, id);
    if ready { return Answer(Ok(())); }
    ghost var heard := engine.reports;
    var removed := RemoveOwnedContainer(engine, id, CandidateName(d), d);
    SinceAdds(old(engine.reports), heard, engine.reports);
    return if removed.Crash? then Crash else Answer(Err(RuntimeError));
  }

  /** Starts the candidate unless it runs, and waits until it is ready. */
  method AwaitReady(engine: Engine, d: DeploymentCommand, id: nat) returns (r: Reply<bool>)
    requires engine.Valid() && HasId(engine.containers, id)
    modifies engine`disturbed, engine`reports, engine`calls
    ensures old(engine.disturbed) ==> engine.disturbed
    ensures old(engine.reports) <= engine.reports
    ensures Made(old(engine.calls), engine.calls, d, MayCreate)
    ensures Told(NetworkUsable, false) !in Since(old(engine.reports), engine.reports)
    ensures r == Answer(true) ==>
      && Told(Ready(id), true) in Since(old(engine.reports), engine.reports)
      && Started(id, Since(old(engine.reports), engine.reports), Since(old(engine.calls), engine.calls))
    ensures r == Answer(false) && !engine.disturbed ==>
      Told(Ready(id), false) in Since(old(engine.reports), engine.reports)
  {
    hide UniqueIds, HasId;
    var current :- engine.InspectId(id);
    if !current.Found? { return Answer(false); }
    ghost var seen := engine.reports;
    SinceGrows(old(engine.reports), old(engine.reports), Seen(current.container, current.state));
    if !current.state.Running? {
      var started :- engine.Start(id);
      if !started { return Answer(false); }
      SinceGrows(old(engine.calls), old(engine.calls), EngineCall.Start(id));
    } else {
      assert SeenRunning(Since(old(engine.reports), engine.reports)[0], id);
    }
    var ready :- engine.Ask(Ready(id));
    SinceGrows(old(engine.reports), seen, Told(Ready(id), ready));
    StartedLater(id, Since(old(engine.reports), seen), Told(Ready(id), ready), Since(old(engine.calls), engine.calls));
    return Answer(ready);
  }

  lemma StartedLater(id: nat, heard: seq<Report>, more: Report, called: seq<EngineCall>)
    requires Started(id, heard, called)
    ensures Started(id, heard + [more], called)
  {
    if EngineCall.Start(id) !in called {
      var i :| 0 <= i < |heard| && SeenRunning(heard[i], id);
      assert SeenRunning((heard + [more])[i], id);
    }
  }

  /** What a retire answers, and leaves, when every call that could be served was. */
  predicate RetireAnswered(x: Slot, y: Slot, r: Result<(), Refusal>, d: DeploymentCommand) {
    if x.stable.None? then r == Err(CandidateMissing) && y == x
    else if Newer(x.stable, d) then r == Err(StaleExecution) && y == x
    else if !Owned(x.stable, d) || Foreign(x.previous) then r == Err(RuntimeConflict) && y == x
    else r.Ok? && y == x.(previous := None)
  }

  method RetirePreviousDeployment(engine: Engine, d: DeploymentCommand) returns (r: Outcome)
    requires engine.Valid()
    modifies engine
    ensures engine.Valid() && (old(engine.disturbed) ==> engine.disturbed)
    ensures old(engine.reports) <= engine.reports
    ensures OnlySlotDiffers(old(engine.containers), engine.containers, d)
    ensures RetireTook(SlotOf(old(engine.containers), d), SlotOf(engine.containers, d), d)
    ensures Made(old(engine.calls), engine.calls, d, OnlyRemoves)
    ensures Succeeded(r) ==>
      Owned(SlotOf(engine.containers, d).stable, d) && SlotOf(engine.containers, d).previous.None?
    ensures r.Answer? && !engine.disturbed ==>
      RetireAnswered(SlotOf(old(engine.containers), d), SlotOf(engine.containers, d), r.value, d)
  {
    hide UniqueIds, OwnsExecution, HasNewerFence, CandidateName, PreviousName;
    NamesDiffer(d);
    var current :- engine.Inspect(StableName(d));
    if current.NotFound? { return Answer(Err(CandidateMissing)); }
    if current.Unavailable? { return Answer(Err(RuntimeError)); }
    if HasNewerFence(current.container, d) {
      NewerIsNotOwned(current.container, d);
      return Answer(Err(StaleExecution));
    }
    if !OwnsExecution(current.container, d) { return Answer(Err(RuntimeConflict)); }
    var previous :- engine.Inspect(PreviousName(d));
    if previous.NotFound? { return Answer(Ok(())); }
    if previous.Unavailable? { return Answer(Err(RuntimeError)); }
    if !Managed(previous.container) { return Answer(Err(RuntimeConflict)); }
    RemovedByName(engine.containers, PreviousName(d));
    var removal :- engine.Remove(previous.container.id);
    if removal.RemovalFailed? { return Answer(Err(RuntimeError)); }
    return Answer(Ok(()));
  }

  // ----- Activation -----

  /** `removeManagedContainerStrict`. */
  method RemoveManagedContainerStrict(engine: Engine, name: string, d: DeploymentCommand) returns (r: Outcome)
    requires engine.Valid()
    modifies engine
    ensures engine.Valid() && (old(engine.disturbed) ==> engine.disturbed)
    ensures old(engine.reports) <= engine.reports
    ensures Made(old(engine.calls), engine.calls, d, OnlyRemoves)
    ensures engine.containers == old(engine.containers)
      || (!Foreign(Get(old(engine.containers), name)) && engine.containers == old(engine.containers) - {name})
    ensures Succeeded(r) ==>
      !Foreign(Get(old(engine.containers), name)) && engine.containers == old(engine.containers) - {name}
    ensures r.Answer? && r.value.Err? ==> engine.disturbed || Foreign(Get(old(engine.containers), name))
    ensures r.Answer? && r.value.Err? ==> r.value.error in {RuntimeError, RuntimeConflict}
    ensures Foreign(Get(old(engine.containers), name)) && r.Answer? && !engine.disturbed ==>
      r.value == Err(RuntimeConflict)
  {
    hide UniqueIds;
    var current :- engine.Inspect(name);
    if current.NotFound? {
      assert engine.containers == engine.containers - {name};
      return Answer(Ok(()));
    }
    if current.Unavailable? { return Answer(Err(RuntimeError)); }
    if !Managed(current.container) { return Answer(Err(RuntimeConflict)); }
    RemovedByName(engine.containers, name);
    var removal :- engine.Remove(current.container.id);
    if removal.RemovalFailed? { return Answer(Err(RuntimeError)); }
    return Answer(Ok(()));
  }

  /** What an activation answers, and leaves, when every call that could be served was. */
  predicate ActivateAnswered(x: Slot, y: Slot, r: Result<(), Refusal>, d: DeploymentCommand, ready: bool) {
    if Newer(x.stable, d) then r == Err(StaleExecution) && y == DropCandidate(x, d)
    else if Owned(x.stable, d) then r.Ok? && y == DropCandidate(x, d)
    else if x.candidate.None? then r == Err(CandidateMissing) && y == x
    else if Newer(x.candidate, d) then r == Err(StaleExecution) && y == x
    else if !Owned(x.candidate, d) then r == Err(RuntimeConflict) && y == x
    else if !ready then r == Err(CandidateNotReady) && y == x
    else if Foreign(x.stable) || Foreign(x.previous) then r == Err(RuntimeConflict) && y == x
    else r.Ok? && y == Activated(x, d)
  }

  /** The engine's first report of the candidate has it running and healthy. */
  predicate ReadyToActivate(x: Slot, heard: seq<Report>) {
    x.candidate.Some? && FirstSeen(heard, x.candidate.value) == Some(Running(true))
  }

  /**
   Only a candidate that was seen running and healthy is activated: before its own container is first seen nothing is
   changed, and if it is seen in any other state nothing ever is and the answer says so.
   */
  ghost predicate ActivatesOnlyReady(x: Slot, r: Outcome, d: DeploymentCommand, heard: seq<Report>, changed: bool) {
    !Newer(x.stable, d) && !Owned(x.stable, d) && Owned(x.candidate, d) ==>
      match FirstSeen(heard, x.candidate.value)
      case None => !changed && !Succeeded(r) && r != Answer(Err(CandidateNotReady))
      case Some(state) =>
        if state == Running(true) then r != Answer(Err(CandidateNotReady))
        else !changed && r == Answer(Err(CandidateNotReady))
  }

  method ActivateDeployment(engine: Engine, d: DeploymentCommand) returns (r: Outcome)
    requires engine.Valid()
    modifies engine
    ensures engine.Valid() && (old(engine.disturbed) ==> engine.disturbed)
    ensures old(engine.reports) <= engine.reports
    ensures OnlySlotDiffers(old(engine.containers), engine.containers, d)
    ensures ActivateTook(SlotOf(old(engine.containers), d), SlotOf(engine.containers, d), d)
    ensures Made(old(engine.calls), engine.calls, d,
                 if Newer(SlotOf(old(engine.containers), d).stable, d) then OnlyRemoves else NeverCreates)
    ensures Succeeded(r) ==> Owned(SlotOf(engine.containers, d).stable, d)
    ensures var x, y := SlotOf(old(engine.containers), d), SlotOf(engine.containers, d);
      !engine.disturbed && (CanActivate(x, d) || Owned(x.stable, d)) ==>
        && OnTheWay(x, y, d)
        && (r.Answer? ==> (r.value.Ok? && y == Activated(x, d)) || (r.value == Err(CandidateNotReady) && y == x))
    ensures ActivatesOnlyReady(SlotOf(old(engine.containers), d), r, d, Since(old(engine.reports), engine.reports),
                               engine.containers != old(engine.containers) || engine.calls != old(engine.calls))
    ensures r.Answer? && !engine.disturbed ==>
      var x, y := SlotOf(old(engine.containers), d), SlotOf(engine.containers, d);
      ActivateAnswered(x, y, r.value, d, ReadyToActivate(x, Since(old(engine.reports), engine.reports)))
  {
    hide UniqueIds, OwnsExecution, HasNewerFence, CandidateName, PreviousName;
    NamesDiffer(d);
    var current :- engine.Inspect(StableName(d));
    if current.Found? && HasNewerFence(current.container, d) {
      NewerIsNotOwned(current.container, d);
      var removed :- RemoveNamedOwnedCandidate(engine, d);
      return Answer(Err(StaleExecution));
    }
    if current.Found? && OwnsExecution(current.container, d) {
      var removed :- RemoveNamedOwnedCandidate(engine, d);
      return Answer(Ok(()));
    }
    if current.Unavailable? { return Answer(Err(RuntimeError)); }
    ghost var heard := engine.reports;
    r := ActivateCandidate(engine, d, current);
    SinceAdds(old(engine.reports), heard, engine.reports);
    if current.Found? { SkipsOther(current, Since(heard, engine.reports)); }
  }

  lemma SkipsOther(current: Lookup, heard: seq<Report>)
    requires current.Found?
    ensures forall c :: c != current.container ==>
      FirstSeen([Seen(current.container, current.state)] + heard, c) == FirstSeen(heard, c)
  {
    assert ([Seen(current.container, current.state)] + heard)[1..] == heard;
  }

  /** An activation once the stable container is known to be an older one, if there is one. */
  method ActivateCandidate(engine: Engine, d: DeploymentCommand, current: Lookup) returns (r: Outcome)
    requires engine.Valid() && !current.Unavailable?
    requires current.NotFound? ==> StableName(d) !in engine.containers
    requires current.Found? ==>
      && StableName(d) in engine.containers && engine.containers[StableName(d)] == current.container
      && !HasNewerFence(current.container, d) && !OwnsExecution(current.container, d)
    modifies engine
    ensures engine.Valid() && (old(engine.disturbed) ==> engine.disturbed)
    ensures old(engine.reports) <= engine.reports
    ensures OnlySlotDiffers(old(engine.containers), engine.containers, d)
    ensures Made(old(engine.calls), engine.calls, d, NeverCreates)
    ensures var x, y := SlotOf(old(engine.containers), d), SlotOf(engine.containers, d);
      && (y == x || (CanActivate(x, d) && Rearranged(x, y)))
      && (Succeeded(r) ==> Owned(y.stable, d))
      && (!engine.disturbed && CanActivate(x, d) ==>
        && OnTheWay(x, y, d)
        && (r.Answer? ==> (r.value.Ok? && y == Activated(x, d)) || (r.value == Err(CandidateNotReady) && y == x)))
    ensures ActivatesOnlyReady(SlotOf(old(engine.containers), d), r, d, Since(old(engine.reports), engine.reports),
                               engine.containers != old(engine.containers) || engine.calls != old(engine.calls))
    ensures r.Answer? && !engine.disturbed ==>
      var x, y := SlotOf(old(engine.containers), d), SlotOf(engine.containers, d);
      ActivateAnswered(x, y, r.value, d, ReadyToActivate(x, Since(old(engine.reports), engine.reports)))
  {
    hide UniqueIds, OwnsExecution, HasNewerFence, CandidateName, PreviousName;
    NamesDiffer(d);
    var candidate :- engine.Inspect(CandidateName(d));
    if candidate.NotFound? { return Answer(Err(CandidateMissing)); }
    if candidate.Unavailable? { return Answer(Err(RuntimeError)); }
    if HasNewerFence(candidate.container, d) {
      NewerIsNotOwned(candidate.container, d);
      return Answer(Err(StaleExecution));
    }
    if !OwnsExecution(candidate.container, d) { return Answer(Err(RuntimeConflict)); }
    ghost var heard := engine.reports;
    SinceGrows(old(engine.reports), old(engine.reports), Seen(candidate.container, candidate.state));
    assert FirstSeen(Since(old(engine.reports), engine.reports), candidate.container) == Some(candidate.state);
    if candidate.state != Running(true) { return Answer(Err(CandidateNotReady)); }
    r := ReplaceStable(engine, d, current, candidate.container);
    SinceAdds(old(engine.reports), heard, engine.reports);
    FirstSeenStays(Since(old(engine.reports), heard), Since(heard, engine.reports), candidate.container);
  }

  /** The second half of an activation: make room under the stable name, then move the candidate there. */
  method ReplaceStable(engine: Engine, d: DeploymentCommand, current: Lookup, candidate: Container) returns (r: Outcome)
    requires engine.Valid() && !current.Unavailable?
    requires current.NotFound? ==> StableName(d) !in engine.containers
    requires current.Found? ==>
      && StableName(d) in engine.containers && engine.containers[StableName(d)] == current.container
      && !HasNewerFence(current.container, d) && !OwnsExecution(current.container, d)
    requires CandidateName(d) in engine.containers && engine.containers[CandidateName(d)] == candidate
    requires OwnsExecution(candidate, d)
    modifies engine
    ensures engine.Valid() && (old(engine.disturbed) ==> engine.disturbed)
    ensures old(engine.reports) <= engine.reports
    ensures OnlySlotDiffers(old(engine.containers), engine.containers, d)
    ensures Made(old(engine.calls), engine.calls, d, NeverCreates)
    ensures var x, y := SlotOf(old(engine.containers), d), SlotOf(engine.containers, d);
      && (y == x || (CanActivate(x, d) && Rearranged(x, y)))
      && (Succeeded(r) ==> Owned(y.stable, d))
      && (!engine.disturbed && CanActivate(x, d) ==>
        OnTheWay(x, y, d) && (r.Answer? ==> r.value.Ok? && y == Activated(x, d)))
      && (!engine.disturbed && r.Answer? && (Foreign(x.stable) || Foreign(x.previous)) ==>
        r.value == Err(RuntimeConflict) && y == x)
    ensures r.Answer? && r.value.Err? ==> r.value.error in {RuntimeError, RuntimeConflict}
  {
    hide UniqueIds, OwnsExecution, HasNewerFence, CandidateName, PreviousName;
    NamesDiffer(d);
    var previousId: Option<nat> := None;
    if current.Found? {
      var kept := KeepStable(engine, d, current.container);
      if !Succeeded(kept) { return kept; }
      previousId := Some(current.container.id);
    } else {
      var previous :- engine.Inspect(PreviousName(d));
      if previous.Unavailable? { return Answer(Err(RuntimeError)); }
      if previous.Found? {
        if !Managed(previous.container) { return Answer(Err(RuntimeConflict)); }
        previousId := Some(previous.container.id);
      }
    }
    r := MoveCandidate(engine, d, previousId, candidate.id);
  }

  /** Moves the old stable container to the previous name, which is cleared for it. */
  method KeepStable(engine: Engine, d: DeploymentCommand, container: Container) returns (r: Outcome)
    requires engine.Valid() && StableName(d) in engine.containers && engine.containers[StableName(d)] == container
    modifies engine
    ensures engine.Valid() && (old(engine.disturbed) ==> engine.disturbed)
    ensures old(engine.reports) <= engine.reports
    ensures OnlySlotDiffers(old(engine.containers), engine.containers, d)
    ensures Made(old(engine.calls), engine.calls, d, NeverCreates)
    ensures var x, y := SlotOf(old(engine.containers), d), SlotOf(engine.containers, d);
      var moved := Slot(None, x.candidate, x.stable);
      && (y == x || (!Foreign(x.stable) && !Foreign(x.previous) && (y == x.(previous := None) || y == moved)))
      && (Succeeded(r) ==> !Foreign(x.stable) && !Foreign(x.previous) && y == moved)
      && (!engine.disturbed && r.Answer? ==>
        if Foreign(x.stable) || Foreign(x.previous) then r.value == Err(RuntimeConflict) && y == x else r.value.Ok?)
    ensures r.Answer? && r.value.Err? ==> r.value.error in {RuntimeError, RuntimeConflict}
  {
    hide UniqueIds, OwnsExecution, HasNewerFence, CandidateName, PreviousName;
    NamesDiffer(d);
    if !Managed(container) { return Answer(Err(RuntimeConflict)); }
    var removed := RemoveManagedContainerStrict(engine, PreviousName(d), d);
    if !Succeeded(removed) { return removed; }
    RenamedByName(engine.containers, StableName(d), PreviousName(d));
    var moved :- engine.Rename(container.id, PreviousName(d));
    return Answer(if moved then Ok(()) else Err(RuntimeError));
  }

  /** Renames the candidate; if that fails, puts the kept container back and drops the candidate, best effort. */
  method MoveCandidate(engine: Engine, d: DeploymentCommand, previousId: Option<nat>, candidateId: nat)
    returns (r: Outcome)
    requires engine.Valid() && StableName(d) !in engine.containers && CandidateName(d) in engine.containers
    requires engine.containers[CandidateName(d)].id == candidateId
    requires OwnsExecution(engine.containers[CandidateName(d)], d)
    requires previousId.Some? <==> PreviousName(d) in engine.containers
    requires previousId.Some? ==> engine.containers[PreviousName(d)].id == previousId.value
    modifies engine
    ensures engine.Valid() && (old(engine.disturbed) ==> engine.disturbed)
    ensures old(engine.reports) <= engine.reports
    ensures OnlySlotDiffers(old(engine.containers), engine.containers, d)
    ensures Made(old(engine.calls), engine.calls, d, NeverCreates)
    ensures var x, y := SlotOf(old(engine.containers), d), SlotOf(engine.containers, d);
      && Rearranged(x, y)
      && (Succeeded(r) ==> y == Slot(x.candidate, None, x.previous))
      && (!engine.disturbed ==> (y == x || y == Slot(x.candidate, None, x.previous)) && (r.Answer? ==> r.value.Ok?))
    ensures r.Answer? && r.value.Err? ==> r.value.error == RuntimeError
  {
    hide UniqueIds, OwnsExecution, CandidateName, PreviousName;
    NamesDiffer(d);
    RenamedByName(engine.containers, CandidateName(d), StableName(d));
    var moved :- engine.Rename(candidateId, StableName(d));
    if moved { return Answer(Ok(())); }
    ghost var place := if StableName(d) in engine.containers then StableName(d) else CandidateName(d);
    if previousId.Some? {
      var restored :- RestorePrevious(engine, previousId.value, d);
    }
    var removed :- RemoveOwnedContainer(engine, candidateId, place, d);
    return Answer(Err(RuntimeError));
  }

  /** `restorePrevious`: best effort; the rename fails when something holds the stable name. */
  method RestorePrevious(engine: Engine, previousId: nat, d: DeploymentCommand) returns (r: Reply<()>)
    requires engine.Valid() && PreviousName(d) in engine.containers
    requires engine.containers[PreviousName(d)].id == previousId
    modifies engine
    ensures engine.Valid() && (old(engine.disturbed) ==> engine.disturbed)
    ensures old(engine.reports) <= engine.reports
    ensures Made(old(engine.calls), engine.calls, d, NeverCreates)
    ensures var m := old(engine.containers);
      || engine.containers == m
      || (StableName(d) !in m && engine.containers == (m - {PreviousName(d)})[StableName(d) := m[PreviousName(d)]])
  {
    hide UniqueIds, PreviousName;
    if StableName(d) !in engine.containers { RenamedByName(engine.containers, PreviousName(d), StableName(d)); }
    var restored :- engine.Rename(previousId, StableName(d));
    return Answer(());
  }

  // ----- Cancellation -----

  /** What a cancel answers, and leaves, when every call that could be served was. */
  predicate CancelAnswered(x: Slot, y: Slot, r: Result<(), Refusal>, d: DeploymentCommand) {
    if Blocked(x, d) then r == Err(RuntimeConflict) && y == DropCandidate(x, d) else r.Ok? && y == Cancelled(x, d)
  }

  method CancelDeployment(engine: Engine, d: DeploymentCommand) returns (r: Outcome)
    requires engine.Valid()
    modifies engine
    ensures engine.Valid() && (old(engine.disturbed) ==> engine.disturbed)
    ensures old(engine.reports) <= engine.reports
    ensures OnlySlotDiffers(old(engine.containers), engine.containers, d)
    ensures Made(old(engine.calls), engine.calls, d, NeverCreates)
    ensures var x, y := SlotOf(old(engine.containers), d), SlotOf(engine.containers, d);
      && CancelTook(x, y, d)
      && (Succeeded(r) ==> !Blocked(x, d) && y == Cancelled(x, d))
      && (r.Answer? && r.value.Err? ==> engine.disturbed || Blocked(x, d))
      && (r.Answer? && !engine.disturbed ==> CancelAnswered(x, y, r.value, d))
  {
    hide UniqueIds, OwnsExecution, CandidateName, PreviousName;
    NamesDiffer(d);
    var candidate :- engine.Inspect(CandidateName(d));
    if candidate.Found? && OwnsExecution(candidate.container, d) {
      var removed := RemoveOwnedContainerStrict(engine, candidate.container, CandidateName(d), d);
      if !Succeeded(removed) { return removed; }
    } else if candidate.Unavailable? {
      return Answer(Err(RuntimeError));
    }
    r := CancelStable(engine, d);
  }

  /** The rest of a cancellation, once the candidate is gone or is not this execution's. */
  method CancelStable(engine: Engine, d: DeploymentCommand) returns (r: Outcome)
    requires engine.Valid()
    modifies engine
    ensures engine.Valid() && (old(engine.disturbed) ==> engine.disturbed)
    ensures old(engine.reports) <= engine.reports
    ensures OnlySlotDiffers(old(engine.containers), engine.containers, d)
    ensures Made(old(engine.calls), engine.calls, d, NeverCreates)
    ensures var x, y := SlotOf(old(engine.containers), d), SlotOf(engine.containers, d);
      && (y == x || (!Blocked(x, d) && (y == DropStable(x, d) || y == PutBack(DropStable(x, d), d))))
      && (Succeeded(r) ==> !Blocked(x, d) && y == PutBack(DropStable(x, d), d))
      && (r.Answer? && r.value.Err? ==> engine.disturbed || Blocked(x, d))
      && (r.Answer? && !engine.disturbed && Blocked(x, d) ==> r.value == Err(RuntimeConflict) && y == x)
  {
    hide UniqueIds, OwnsExecution, CandidateName, PreviousName;
    NamesDiffer(d);
    var current :- engine.Inspect(StableName(d));
    if current.Unavailable? { return Answer(Err(RuntimeError)); }
    var previous :- engine.Inspect(PreviousName(d));
    if previous.Unavailable? { return Answer(Err(RuntimeError)); }

    var currentMissing := current.NotFound?;
    var previousOwned := previous.Found? && OwnsExecution(previous.container, d);
    var previousRestorable := previous.Found? && Managed(previous.container) && !previousOwned
      && previous.container.labels.cutoverSequence < d.cutoverSequence;
    if current.Found? && OwnsExecution(current.container, d) {
      if previous.Found? && !previousOwned && !previousRestorable { return Answer(Err(RuntimeConflict)); }
      var removed := RemoveOwnedContainerStrict(engine, current.container, StableName(d), d);
      if !Succeeded(removed) { return removed; }
      currentMissing := true;
    }
    r := PutPreviousBack(engine, d, previous, currentMissing);
  }

  /** The last part of a cancellation: the previous container returns, or goes if it is this execution's. */
  method PutPreviousBack(engine: Engine, d: DeploymentCommand, previous: Lookup, currentMissing: bool)
    returns (r: Outcome)
    requires engine.Valid() && !previous.Unavailable?
    requires currentMissing <==> StableName(d) !in engine.containers
    requires previous.NotFound? <==> PreviousName(d) !in engine.containers
    requires previous.Found? ==> engine.containers[PreviousName(d)] == previous.container
    modifies engine
    ensures engine.Valid() && (old(engine.disturbed) ==> engine.disturbed)
    ensures old(engine.reports) <= engine.reports
    ensures OnlySlotDiffers(old(engine.containers), engine.containers, d)
    ensures Made(old(engine.calls), engine.calls, d, NeverCreates)
    ensures var x, y := SlotOf(old(engine.containers), d), SlotOf(engine.containers, d);
      && (y == x || y == PutBack(x, d))
      && (Succeeded(r) ==> y == PutBack(x, d))
      && (r.Answer? && r.value.Err? ==> engine.disturbed)
  {
    hide UniqueIds, OwnsExecution, CandidateName, PreviousName;
    NamesDiffer(d);
    var previousOwned := previous.Found? && OwnsExecution(previous.container, d);
    if currentMissing && previous.Found? && Managed(previous.container) && !previousOwned
      && previous.container.labels.cutoverSequence < d.cutoverSequence {
      RenamedByName(engine.containers, PreviousName(d), StableName(d));
      var moved :- engine.Rename(previous.container.id, StableName(d));
      if !moved { return Answer(Err(RuntimeError)); }
      return Answer(Ok(()));
    }
    if previousOwned {
      var removed := RemoveOwnedContainerStrict(engine, previous.container, PreviousName(d), d);
      if !Succeeded(removed) { return removed; }
    }
    return Answer(Ok(()));
  }

  // ----- Whole runs against the engine -----

  datatype Operation = Stage | Activate | Cancel

  /**
   Any number of stages, activations and cancellations of one execution, each stopping at any call and with
   calls failing either way, then one cancellation that completes: the engine is as it was before the first.
   */
  method CancelAfterInterruptions(engine: Engine, d: DeploymentCommand, operations: seq<Operation>) returns (r: Outcome)
    requires engine.Valid() && d.deploymentId != ""
    requires var before := SlotOf(engine.containers, d);
      before.candidate.None? && before.previous.None? && Recoverable(before.stable, d)
    modifies engine
    ensures Succeeded(r) ==> engine.containers == old(engine.containers)
    ensures r.Answer? && !engine.disturbed ==> Succeeded(r)
  {
    hide Underway, SlotOf, StageTook, ActivateTook, CancelTook, OnlySlotDiffers, Cancelled, Blocked, Made, OnTheWay,
      Activated;
    ghost var before := SlotOf(engine.containers, d);
    StartsUnderway(before, d);
    OnlySlotDiffersIsTransitive(engine.containers, engine.containers, engine.containers, d);
    var i := 0;
    while i < |operations|
      invariant i <= |operations|
      invariant engine.Valid() && OnlySlotDiffers(old(engine.containers), engine.containers, d)
      invariant Underway(SlotOf(engine.containers, d), before, d)
    {
      ghost var m := engine.containers;
      match operations[i] {
        case Stage => var stopped := StageDeployment(engine, d);
        case Activate => var stopped := ActivateDeployment(engine, d);
        case Cancel => var stopped := CancelDeployment(engine, d);
      }
      StepStaysUnderway(SlotOf(m, d), SlotOf(engine.containers, d), before, d);
      OnlySlotDiffersIsTransitive(old(engine.containers), m, engine.containers, d);
      i := i + 1;
    }
    ghost var m := engine.containers;
    CancelRestores(SlotOf(m, d), before, d);
    r := CancelDeployment(engine, d);
    OnlySlotDiffersIsTransitive(old(engine.containers), m, engine.containers, d);
    if Succeeded(r) { SameSlotSameContainers(old(engine.containers), engine.containers, d); }
  }

  lemma OnlySlotDiffersIsTransitive(a: Containers, b: Containers, c: Containers, d: DeploymentCommand)
    ensures OnlySlotDiffers(a, a, d)
    ensures OnlySlotDiffers(a, b, d) && OnlySlotDiffers(b, c, d) ==> OnlySlotDiffers(a, c, d)
  {
  }

  /**
   An activation of a staged slot that stops at any call, any number of times, and is run again until it answers
   without having been disturbed: the slot is the one an uninterrupted activation makes.
   */
  method ActivateUntilAnswered(engine: Engine, d: DeploymentCommand, attempts: nat) returns (r: Outcome)
    requires engine.Valid() && CanActivate(SlotOf(engine.containers, d), d)
    modifies engine
    ensures engine.Valid() && OnlySlotDiffers(old(engine.containers), engine.containers, d)
    ensures !engine.disturbed && Succeeded(r) ==>
      SlotOf(engine.containers, d) == Activated(SlotOf(old(engine.containers), d), d)
  {
    hide SlotOf, ActivateTook, OnlySlotDiffers, CanActivate, Activated, Made;
    ghost var x := SlotOf(engine.containers, d);
    OnlySlotDiffersIsTransitive(engine.containers, engine.containers, engine.containers, d);
    r := Crash;
    var i := 0;
    while r.Crash? && i < attempts
      invariant engine.Valid() && OnlySlotDiffers(old(engine.containers), engine.containers, d)
      invariant !engine.disturbed ==> OnTheWay(x, SlotOf(engine.containers, d), d)
      invariant !engine.disturbed && Succeeded(r) ==> SlotOf(engine.containers, d) == Activated(x, d)
    {
      ghost var m := engine.containers;
      r := ActivateDeployment(engine, d);
      OnlySlotDiffersIsTransitive(old(engine.containers), m, engine.containers, d);
      i := i + 1;
    }
  }
}
