/**
 The documents in which commands travel (internal/shared/agentprotocol/wire.go). A process holds a command with slices
 that may be nil or empty and times in any zone; neither is part of what the command says. The way through a document
 keeps what it says and settles the rest: empty lists become nil, except the routes, and times become UTC. Validation
 looks at the slices in one place, the runtime spec of a stage command, which must equal its own copy.
 */
module CommandDocuments {
  import opened AgentCommands
  import opened CommandFingerprint
  import opened Common
  import opened IngressProtocol

  // ----- What a process holds -----

  datatype Slice<+T> = Nil | Of(elements: seq<T>)

  function Elements<T>(s: Slice<T>): seq<T> {
    if s.Nil? then [] else s.elements
  }

  /** What `append([]T(nil), ...)` makes: nothing appended leaves nil. */
  function Listed<T>(elements: seq<T>): Slice<T> {
    if elements == [] then Nil else Of(elements)
  }

  function Copied<T>(s: Slice<T>): Slice<T> { Listed(Elements(s)) }

  /** An instant as shown in a zone, given by its seconds east of UTC. */
  datatype Time = Time(instant: Instant, zone: int)

  function Utc(t: Time): Time { Time(t.instant, 0) }

  datatype HeldHealth = HeldHealth(
    command: Slice<string>, intervalSeconds: int64, timeoutSeconds: int64, retries: int64, startPeriodSeconds: int64)

  datatype HeldSpec = HeldSpec(
    ports: Slice<Port>, environmentKeys: Slice<string>, resources: Resources, healthCheck: Option<HeldHealth>)

  datatype HeldDeployment = HeldDeployment(
    deploymentId: string, workerId: string, fencingToken: uint64, cutoverSequence: uint64, runtimeTargetId: string,
    containerName: string, projectId: string, applicationId: string, environmentId: string, imageDigest: string,
    registryAuthorization: Slice<char>, runtimeSpec: HeldSpec, environment: Slice<string>, managedIngress: bool)

  datatype HeldInventory = HeldInventory(
    runtimeTargetId: string, observationId: string, maxChunkBytes: int64, chunkIndex: int64, eventSince: Time,
    eventWaitSeconds: int64)

  datatype HeldIngress = HeldIngress(
    hostRevision: uint64, configDigest: string, routes: Slice<IngressRoute>, probeRouteIds: Slice<string>)

  datatype HeldCommand = HeldCommand(
    id: string, kind: CommandKind, deadline: Time, runtimeProbe: Option<string>, deployment: Option<HeldDeployment>,
    cutover: Option<CutoverCommand>, inventory: Option<HeldInventory>, ingress: Option<HeldIngress>)

  function MapOption<T, U>(o: Option<T>, f: T -> U): Option<U> {
    if o.None? then None else Some(f(o.value))
  }

  // ----- What it says -----

  function HealthSaid(h: HeldHealth): HealthCheck {
    HealthCheck(Elements(h.command), h.intervalSeconds, h.timeoutSeconds, h.retries, h.startPeriodSeconds)
  }

  function SpecSaid(s: HeldSpec): RuntimeSpec {
    RuntimeSpec(Elements(s.ports), Elements(s.environmentKeys), s.resources, MapOption(s.healthCheck, HealthSaid))
  }

  function DeploymentSaid(d: HeldDeployment): DeploymentCommand {
    DeploymentCommand(d.deploymentId, d.workerId, d.fencingToken, d.cutoverSequence, d.runtimeTargetId, d.containerName,
      d.projectId, d.applicationId, d.environmentId, d.imageDigest, Elements(d.registryAuthorization),
      SpecSaid(d.runtimeSpec), Elements(d.environment), d.managedIngress)
  }

  function InventorySaid(c: HeldInventory): InventoryCommand {
    InventoryCommand(c.runtimeTargetId, c.observationId, c.maxChunkBytes, c.chunkIndex, c.eventSince.instant,
      c.eventWaitSeconds)
  }

  function IngressSaid(c: HeldIngress): IngressCommand {
    IngressCommand(c.hostRevision, c.configDigest, Elements(c.routes), Elements(c.probeRouteIds))
  }

  function Said(c: HeldCommand): AgentCommand {
    AgentCommand(c.id, c.kind, c.deadline.instant, c.runtimeProbe, MapOption(c.deployment, DeploymentSaid), c.cutover,
      MapOption(c.inventory, InventorySaid), MapOption(c.ingress, IngressSaid))
  }

  // ----- The one way of holding it that comes out of a document -----

  function HealthSettled(h: HealthCheck): HeldHealth {
    HeldHealth(Listed(h.command), h.intervalSeconds, h.timeoutSeconds, h.retries, h.startPeriodSeconds)
  }

  function SpecSettled(s: RuntimeSpec): HeldSpec {
    HeldSpec(Listed(s.ports), Listed(s.environmentKeys), s.resources, MapOption(s.healthCheck, HealthSettled))
  }

  function DeploymentSettled(d: DeploymentCommand): HeldDeployment {
    HeldDeployment(d.deploymentId, d.workerId, d.fencingToken, d.cutoverSequence, d.runtimeTargetId, d.containerName,
      d.projectId, d.applicationId, d.environmentId, d.imageDigest, Listed(d.registryAuthorization),
      SpecSettled(d.runtimeSpec), Listed(d.environment), d.managedIngress)
  }

  function InventorySettled(c: InventoryCommand): HeldInventory {
    HeldInventory(c.runtimeTargetId, c.observationId, c.maxChunkBytes, c.chunkIndex, Time(c.eventSince, 0),
      c.eventWaitSeconds)
  }

  function IngressSettled(c: IngressCommand): HeldIngress {
    HeldIngress(c.hostRevision, c.configDigest, Of(c.routes), Listed(c.probeRouteIds))
  }

  function Settled(c: AgentCommand): HeldCommand {
    HeldCommand(c.id, c.kind, Time(c.deadline, 0), c.runtimeProbe, MapOption(c.deployment, DeploymentSettled),
      c.cutover, MapOption(c.inventory, InventorySettled), MapOption(c.ingress, IngressSettled))
  }

  /** Settling changes nothing that is said. */
  lemma SettledSaysTheSame(c: AgentCommand)
    ensures Said(Settled(c)) == c
  {
  }

  // ----- Documents -----

  datatype PortDocument = PortDocument(name: string, containerPort: uint16, protocol: string)

  datatype HealthDocument = HealthDocument(
    command: Slice<string>, intervalSeconds: int64, timeoutSeconds: int64, retries: int64, startPeriodSeconds: int64)

  datatype SpecDocument = SpecDocument(
    ports: Slice<PortDocument>, environmentKeys: Slice<string>, cpuMilli: int64, memoryBytes: int64,
    healthCheck: Option<HealthDocument>)

  datatype DeploymentDocument = DeploymentDocument(
    deploymentId: string, workerId: string, fencingToken: uint64, cutoverSequence: uint64, runtimeTargetId: string,
    containerName: string, projectId: string, applicationId: string, environmentId: string, imageDigest: string,
    registryAuthorization: Slice<char>, runtimeSpec: SpecDocument, environment: Slice<string>, managedIngress: bool)

  datatype CutoverDocument = CutoverDocument(
    deploymentId: string, cutoverSequence: uint64, runtimeTargetId: string, containerName: string)

  datatype InventoryDocument = InventoryDocument(
    runtimeTargetId: string, observationId: string, maxChunkBytes: int64, chunkIndex: int64, eventSince: Time,
    eventWaitSeconds: int64)

  datatype RouteDocument = RouteDocument(
    routeId: string, revision: uint64, deploymentId: string, cutoverSequence: uint64, runtimeTargetId: string,
    hostname: string, backendAlias: string, backendPort: uint16, tlsMode: string)

  datatype IngressDocument = IngressDocument(
    hostRevision: uint64, configDigest: string, routes: Slice<RouteDocument>, probeRouteIds: Slice<string>)

  datatype CommandDocument = CommandDocument(
    commandId: string, kind: CommandKind, deadline: Time, runtimeProbe: Option<string>,
    deployment: Option<DeploymentDocument>, cutover: Option<CutoverDocument>, inventory: Option<InventoryDocument>,
    ingress: Option<IngressDocument>)

  // ----- What a document says -----

  function PortWritten(d: PortDocument): Port { Port(d.name, d.containerPort, d.protocol) }

  function PortsWritten(ds: seq<PortDocument>): (r: seq<Port>)
    ensures |r| == |ds| && forall i :: 0 <= i < |ds| ==> r[i] == PortWritten(ds[i])
  {
    seq(|ds|, i requires 0 <= i < |ds| => PortWritten(ds[i]))
  }

  function RouteWritten(d: RouteDocument): IngressRoute {
    IngressRoute(d.routeId, d.revision, d.deploymentId, d.cutoverSequence, d.runtimeTargetId, d.hostname,
      d.backendAlias, d.backendPort, d.tlsMode)
  }

  function RoutesWritten(ds: seq<RouteDocument>): (r: seq<IngressRoute>)
    ensures |r| == |ds| && forall i :: 0 <= i < |ds| ==> r[i] == RouteWritten(ds[i])
  {
    seq(|ds|, i requires 0 <= i < |ds| => RouteWritten(ds[i]))
  }

  function HealthWritten(d: HealthDocument): HealthCheck {
    HealthCheck(Elements(d.command), d.intervalSeconds, d.timeoutSeconds, d.retries, d.startPeriodSeconds)
  }

  function SpecWritten(d: SpecDocument): RuntimeSpec {
    RuntimeSpec(PortsWritten(Elements(d.ports)), Elements(d.environmentKeys), Resources(d.cpuMilli, d.memoryBytes),
      MapOption(d.healthCheck, HealthWritten))
  }

  function DeploymentWritten(d: DeploymentDocument): DeploymentCommand {
    DeploymentCommand(d.deploymentId, d.workerId, d.fencingToken, d.cutoverSequence, d.runtimeTargetId, d.containerName,
      d.projectId, d.applicationId, d.environmentId, d.imageDigest, Elements(d.registryAuthorization),
      SpecWritten(d.runtimeSpec), Elements(d.environment), d.managedIngress)
  }

  function CutoverWritten(d: CutoverDocument): CutoverCommand {
    CutoverCommand(d.deploymentId, d.cutoverSequence, d.runtimeTargetId, d.containerName)
  }

  function InventoryWritten(d: InventoryDocument): InventoryCommand {
    InventoryCommand(d.runtimeTargetId, d.observationId, d.maxChunkBytes, d.chunkIndex, d.eventSince.instant,
      d.eventWaitSeconds)
  }

  function IngressWritten(d: IngressDocument): IngressCommand {
    IngressCommand(d.hostRevision, d.configDigest, RoutesWritten(Elements(d.routes)), Elements(d.probeRouteIds))
  }

  function Written(d: CommandDocument): AgentCommand {
    AgentCommand(d.commandId, d.kind, d.deadline.instant, d.runtimeProbe, MapOption(d.deployment, DeploymentWritten),
      MapOption(d.cutover, CutoverWritten), MapOption(d.inventory, InventoryWritten),
      MapOption(d.ingress, IngressWritten))
  }

  // ----- The mappers -----

  method NewSpecDocument(s: HeldSpec) returns (d: SpecDocument)
    ensures SpecWritten(d) == SpecSaid(s)
  {
    var ports: seq<PortDocument> := [];
    var held := Elements(s.ports);
    for i := 0 to |held|
      invariant PortsWritten(ports) == held[..i]
    {
      ports := ports + [PortDocument(held[i].name, held[i].containerPort, held[i].protocol)];
    }
    var health: Option<HealthDocument> := None;
    if s.healthCheck.Some? {
      var h := s.healthCheck.value;
      health := Some(HealthDocument(Copied(h.command), h.intervalSeconds, h.timeoutSeconds, h.retries,
        h.startPeriodSeconds));
    }
    d := SpecDocument(Of(ports), Copied(s.environmentKeys), s.resources.cpuMilli, s.resources.memoryBytes, health);
  }

  method SpecDomain(d: SpecDocument) returns (s: HeldSpec)
    ensures s == SpecSettled(SpecWritten(d))
  {
    var ports: Slice<Port> := Nil;
    var written := Elements(d.ports);
    for i := 0 to |written|
      invariant ports == Listed(PortsWritten(written)[..i])
    {
      ports := Of(Elements(ports) + [Port(written[i].name, written[i].containerPort, written[i].protocol)]);
    }
    var health: Option<HeldHealth> := None;
    if d.healthCheck.Some? {
      var h := d.healthCheck.value;
      health := Some(HeldHealth(Copied(h.command), h.intervalSeconds, h.timeoutSeconds, h.retries,
        h.startPeriodSeconds));
    }
    s := HeldSpec(ports, Copied(d.environmentKeys), Resources(d.cpuMilli, d.memoryBytes), health);
  }

  method NewIngressDocument(c: HeldIngress) returns (d: IngressDocument)
    ensures IngressWritten(d) == IngressSaid(c)
  {
    var routes: seq<RouteDocument> := [];
    var held := Elements(c.routes);
    for i := 0 to |held|
      invariant RoutesWritten(routes) == held[..i]
    {
      var r := held[i];
      routes := routes + [RouteDocument(r.routeId, r.revision, r.deploymentId, r.cutoverSequence, r.runtimeTargetId,
        r.hostname, r.backendAlias, r.backendPort, r.tlsMode)];
    }
    d := IngressDocument(c.hostRevision, c.configDigest, Of(routes), Copied(c.probeRouteIds));
  }

  method IngressDomain(d: IngressDocument) returns (c: HeldIngress)
    ensures c == IngressSettled(IngressWritten(d))
  {
    var routes: seq<IngressRoute> := [];
    var written := Elements(d.routes);
    for i := 0 to |written|
      invariant routes == RoutesWritten(written)[..i]
    {
      var r := written[i];
      routes := routes + [IngressRoute(r.routeId, r.revision, r.deploymentId, r.cutoverSequence, r.runtimeTargetId,
        r.hostname, r.backendAlias, r.backendPort, r.tlsMode)];
    }
    assert routes == RoutesWritten(written);
    c := HeldIngress(d.hostRevision, d.configDigest, Of(routes), Copied(d.probeRouteIds));
  }

  /** The document says what the command says. */
  method NewCommandDocument(c: HeldCommand) returns (d: CommandDocument)
    ensures Written(d) == Said(c) && d.deadline == Utc(c.deadline)
  {
    hide SpecWritten, SpecSaid, IngressWritten, IngressSaid;
    var deployment, cutover, inventory, ingress := None, None, None, None;
    if c.deployment.Some? {
      var p := c.deployment.value;
      var spec := NewSpecDocument(p.runtimeSpec);
      deployment := Some(DeploymentDocument(p.deploymentId, p.workerId, p.fencingToken, p.cutoverSequence,
        p.runtimeTargetId, p.containerName, p.projectId, p.applicationId, p.environmentId, p.imageDigest,
        Copied(p.registryAuthorization), spec, Copied(p.environment), p.managedIngress));
    }
    if c.cutover.Some? {
      var p := c.cutover.value;
      cutover := Some(CutoverDocument(p.deploymentId, p.cutoverSequence, p.runtimeTargetId, p.containerName));
    }
    if c.inventory.Some? {
      var p := c.inventory.value;
      inventory := Some(InventoryDocument(p.runtimeTargetId, p.observationId, p.maxChunkBytes, p.chunkIndex,
        Utc(p.eventSince), p.eventWaitSeconds));
    }
    if c.ingress.Some? {
      var document := NewIngressDocument(c.ingress.value);
      ingress := Some(document);
    }
    d := CommandDocument(c.id, c.kind, Utc(c.deadline), c.runtimeProbe, deployment, cutover, inventory, ingress);
  }

  /** The command is the settled one that says what the document says. */
  method Domain(d: CommandDocument) returns (c: HeldCommand)
    ensures c == Settled(Written(d))
  {
    hide SpecWritten, SpecSettled, IngressWritten, IngressSettled;
    var deployment, cutover, inventory, ingress := None, None, None, None;
    if d.deployment.Some? {
      var p := d.deployment.value;
      var spec := SpecDomain(p.runtimeSpec);
      deployment := Some(HeldDeployment(p.deploymentId, p.workerId, p.fencingToken, p.cutoverSequence,
        p.runtimeTargetId, p.containerName, p.projectId, p.applicationId, p.environmentId, p.imageDigest,
        Copied(p.registryAuthorization), spec, Copied(p.environment), p.managedIngress));
    }
    if d.cutover.Some? {
      var p := d.cutover.value;
      cutover := Some(CutoverCommand(p.deploymentId, p.cutoverSequence, p.runtimeTargetId, p.containerName));
    }
    if d.inventory.Some? {
      var p := d.inventory.value;
      inventory := Some(HeldInventory(p.runtimeTargetId, p.observationId, p.maxChunkBytes, p.chunkIndex,
        Utc(p.eventSince), p.eventWaitSeconds));
    }
    if d.ingress.Some? {
      var command := IngressDomain(d.ingress.value);
      ingress := Some(command);
    }
    c := HeldCommand(d.commandId, d.kind, Utc(d.deadline), d.runtimeProbe, deployment, cutover, inventory, ingress);
  }

  // ----- Which held commands are valid -----

  /** `reflect.DeepEqual` with a copy (command.go:595-610): the copy of a slice that is empty, but not nil, is nil. */
  predicate EqualsItsCopy(s: HeldSpec) {
    && s.ports == Copied(s.ports) && s.environmentKeys == Copied(s.environmentKeys)
    && (s.healthCheck.Some? ==> s.healthCheck.value.command == Copied(s.healthCheck.value.command))
  }

  predicate StagesItsCopy(c: HeldCommand) {
    c.kind.DeploymentStage? && c.deployment.Some? ==> EqualsItsCopy(c.deployment.value.runtimeSpec)
  }

  ghost predicate ValidHeld(c: HeldCommand) { ValidCommand(Said(c)) && StagesItsCopy(c) }

  /** The fingerprint of a command as it is held. */
  method FingerprintHeld(c: HeldCommand) returns (r: Result<string, CommandError>)
    ensures r == if ValidHeld(c) then Ok(Sha256(FingerprintBytes(Said(c)))) else Err(ErrCommandInvalid)
  {
    hide Said, FingerprintBytes, ValidCommand;
    if !StagesItsCopy(c) { return Err(ErrCommandInvalid); }
    r := Fingerprint(Said(c));
  }

  lemma SettledStagesItsCopy(c: AgentCommand)
    ensures StagesItsCopy(Settled(c))
  {
  }

  /** A stage command with ports or environment keys that are empty and not nil; nothing else about it is wrong. */
  predicate HoldsEmptyLists(c: HeldCommand) {
    && c.kind.DeploymentStage? && c.deployment.Some?
    && (c.deployment.value.runtimeSpec.ports == Of([]) || c.deployment.value.runtimeSpec.environmentKeys == Of([]))
  }

  /** Of what a valid command can say, only such lists keep the command as held from being valid. */
  lemma InvalidOnlyForEmptyLists(c: HeldCommand)
    requires ValidCommand(Said(c))
    ensures ValidHeld(c) <==> !HoldsEmptyLists(c)
  {
    hide ValidCutover, ValidInventory, ValidIngressCommand;
    if c.kind.DeploymentStage? && c.deployment.Some? {
      assert Said(c).deployment == Some(DeploymentSaid(c.deployment.value));
      NonEmptyEqualsItsCopy(c.deployment.value.runtimeSpec);
    }
  }

  lemma NonEmptyEqualsItsCopy(s: HeldSpec)
    requires s.healthCheck.Some? ==> Elements(s.healthCheck.value.command) != []
    ensures EqualsItsCopy(s) <==> s.ports != Of([]) && s.environmentKeys != Of([])
  {
  }

  /**
   A command sent as a document arrives settled and says the same. One that is valid as held arrives with its own
   fingerprint; the two fingerprints differ exactly for a command that says something valid but stages a spec whose
   ports or environment keys are empty and not nil: it has no fingerprint before it is sent, and one on arrival.
   */
  method Transport(sent: HeldCommand)
    returns (received: HeldCommand, before: Result<string, CommandError>, after: Result<string, CommandError>)
    ensures received == Settled(Said(sent)) && Said(received) == Said(sent)
    ensures before == if ValidHeld(sent) then Ok(Sha256(FingerprintBytes(Said(sent)))) else Err(ErrCommandInvalid)
    ensures ValidHeld(received) <==> ValidCommand(Said(sent))
    ensures ValidHeld(sent) ==> after == before
    ensures after != before <==> ValidCommand(Said(sent)) && HoldsEmptyLists(sent)
  {
    hide Said, Settled, Written, FingerprintBytes, ValidCommand, StagesItsCopy, HoldsEmptyLists;
    before := FingerprintHeld(sent);
    var document := NewCommandDocument(sent);
    received := Domain(document);
    SettledSaysTheSame(Said(sent));
    SettledStagesItsCopy(Said(sent));
    after := FingerprintHeld(received);
    if ValidCommand(Said(sent)) { InvalidOnlyForEmptyLists(sent); }
  }

  /** Two ways of holding a command arrive as one exactly when they say the same. */
  lemma ArrivesAsOne(a: HeldCommand, b: HeldCommand)
    ensures Settled(Said(a)) == Settled(Said(b)) <==> Said(a) == Said(b)
  {
    hide Said, Settled;
    SettledSaysTheSame(Said(a));
    SettledSaysTheSame(Said(b));
  }
}
