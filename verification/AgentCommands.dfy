/** The commands the server sends to an agent (internal/shared/agentprotocol/command.go:33-230). */
module AgentCommands {
  import opened Common
  import opened Encoding
  import opened Identifiers
  import opened IngressProtocol
  import opened InventoryLimits

  datatype CommandKind =
    | RuntimeProbe
    | DeploymentPrepare | DeploymentStage | DeploymentActivate | DeploymentRetire | DeploymentCancel
    | RuntimeRemove | CutoverRelease
    | InventoryPrepare | InventoryChunk | InventoryRelease | InventoryEvents
    | IngressPrepare | IngressCommit | IngressAbort

  function KindText(kind: CommandKind): string {
    match kind
    case RuntimeProbe => "runtime.probe"
    case DeploymentPrepare => "deployment.prepare"
    case DeploymentStage => "deployment.stage"
    case DeploymentActivate => "deployment.activate"
    case DeploymentRetire => "deployment.retire"
    case DeploymentCancel => "deployment.cancel"
    case RuntimeRemove => "deployment.runtime.remove"
    case CutoverRelease => "deployment.cutover.release"
    case InventoryPrepare => "runtime.inventory.prepare"
    case InventoryChunk => "runtime.inventory.chunk"
    case InventoryRelease => "runtime.inventory.release"
    case InventoryEvents => "runtime.inventory.events"
    case IngressPrepare => "ingress.prepare"
    case IngressCommit => "ingress.commit"
    case IngressAbort => "ingress.abort"
  }

  predicate DurableResult(kind: CommandKind) {
    kind.RuntimeProbe? || OfDeployment(kind) || OfCutover(kind)
  }

  predicate OfDeployment(kind: CommandKind) {
    || kind.DeploymentPrepare? || kind.DeploymentStage? || kind.DeploymentActivate?
    || kind.DeploymentRetire? || kind.DeploymentCancel?
  }

  predicate OfCutover(kind: CommandKind) { kind.RuntimeRemove? || kind.CutoverRelease? }

  predicate OfIngress(kind: CommandKind) { kind.IngressPrepare? || kind.IngressCommit? || kind.IngressAbort? }

  predicate OfInventory(kind: CommandKind) {
    kind.InventoryPrepare? || kind.InventoryChunk? || kind.InventoryRelease? || kind.InventoryEvents?
  }

  type Nanosecond = n: nat | n < 1_000_000_000

  /** An instant in UTC: Unix seconds, and nanoseconds within the second. */
  datatype Instant = Instant(seconds: int64, nanosecond: Nanosecond)

  /** Go's zero time, the first second of year 1. */
  const ZERO_TIME := Instant(-62135596800, 0)

  datatype Port = Port(name: string, containerPort: uint16, protocol: string)

  datatype Resources = Resources(cpuMilli: int64, memoryBytes: int64)

  datatype HealthCheck = HealthCheck(
    command: seq<string>,
    intervalSeconds: int64,
    timeoutSeconds: int64,
    retries: int64,
    startPeriodSeconds: int64)

  datatype RuntimeSpec = RuntimeSpec(
    ports: seq<Port>,
    environmentKeys: seq<string>,
    resources: Resources,
    healthCheck: Option<HealthCheck>)

  const ZERO_SPEC := RuntimeSpec([], [], Resources(0, 0), None)

  datatype DeploymentCommand = DeploymentCommand(
    deploymentId: string,
    workerId: string,
    fencingToken: uint64,
    cutoverSequence: uint64,
    runtimeTargetId: string,
    containerName: string,
    projectId: string,
    applicationId: string,
    environmentId: string,
    imageDigest: string,
    registryAuthorization: string,
    runtimeSpec: RuntimeSpec,
    environment: seq<string>,
    managedIngress: bool)

  datatype CutoverCommand = CutoverCommand(
    deploymentId: string,
    cutoverSequence: uint64,
    runtimeTargetId: string,
    containerName: string)

  datatype InventoryCommand = InventoryCommand(
    runtimeTargetId: string,
    observationId: string,
    maxChunkBytes: int64,
    chunkIndex: int64,
    eventSince: Instant,
    eventWaitSeconds: int64)

  datatype AgentCommand = AgentCommand(
    id: string,
    kind: CommandKind,
    deadline: Instant,
    runtimeProbe: Option<string>,
    deployment: Option<DeploymentCommand>,
    cutover: Option<CutoverCommand>,
    inventory: Option<InventoryCommand>,
    ingress: Option<IngressCommand>)

  /** What `Validate` demands of the five payload pointers: the kind's own is set and no other. */
  predicate PayloadMatchesKind(c: AgentCommand) {
    && c.runtimeProbe.Some? == c.kind.RuntimeProbe?
    && c.deployment.Some? == OfDeployment(c.kind)
    && c.cutover.Some? == OfCutover(c.kind)
    && c.inventory.Some? == OfInventory(c.kind)
    && c.ingress.Some? == OfIngress(c.kind)
  }

  /** `Validate` apart from image references, most of runtime specs, environments and the document's JSON size. */
  ghost predicate ValidCommand(c: AgentCommand) {
    && ValidIdentifier(c.id) && c.deadline != ZERO_TIME && PayloadMatchesKind(c)
    && (c.runtimeProbe.Some? ==> ValidIdentifier(c.runtimeProbe.value))
    && (c.deployment.Some? ==> ValidDeployment(c.kind, c.deployment.value))
    && (c.cutover.Some? ==> ValidCutover(c.cutover.value))
    && (c.inventory.Some? ==> ValidInventory(c.kind, c.inventory.value))
    && (c.ingress.Some? ==> ValidIngressCommand(c.ingress.value))
  }

  predicate ValidDeployment(kind: CommandKind, d: DeploymentCommand) {
    && ValidIdentifier(d.deploymentId) && ValidIdentifier(d.workerId)
    && d.fencingToken > 0 && d.cutoverSequence > 0
    && ValidIdentifier(d.runtimeTargetId) && ValidContainerName(d.containerName)
    && (kind.DeploymentStage? ==>
      && ValidIdentifier(d.projectId) && ValidIdentifier(d.applicationId) && ValidIdentifier(d.environmentId)
      && d.registryAuthorization == ""
      && (d.runtimeSpec.healthCheck.Some? ==> 1 <= |d.runtimeSpec.healthCheck.value.command| <= 32))
    && (!kind.DeploymentStage? ==>
      && d.projectId == "" && d.applicationId == "" && d.environmentId == ""
      && d.runtimeSpec == ZERO_SPEC && d.environment == [] && !d.managedIngress)
    && (kind.DeploymentPrepare? ==> |d.registryAuthorization| <= 16 * 1024)
    && (!kind.DeploymentPrepare? && !kind.DeploymentStage? ==> d.imageDigest == "" && d.registryAuthorization == "")
  }

  predicate ValidCutover(c: CutoverCommand) {
    && ValidIdentifier(c.deploymentId) && c.cutoverSequence > 0
    && ValidIdentifier(c.runtimeTargetId) && ValidContainerName(c.containerName)
  }

  predicate ValidInventory(kind: CommandKind, c: InventoryCommand) {
    && ValidIdentifier(c.runtimeTargetId)
    && (kind.InventoryEvents? <==> c.observationId == "")
    && (c.observationId != "" ==> ValidIdentifier(c.observationId))
    && (if kind.InventoryPrepare? || kind.InventoryChunk? then 4 * 1024 <= c.maxChunkBytes <= DEFAULT_CHUNK_BYTES
        else c.maxChunkBytes == 0)
    && (if kind.InventoryChunk? then 0 <= c.chunkIndex < MAX_CHUNKS else c.chunkIndex == 0)
    && (if kind.InventoryEvents? then 1 <= c.eventWaitSeconds <= 10
        else c.eventSince == ZERO_TIME && c.eventWaitSeconds == 0)
  }

  // ----- What fits in memory -----

  ghost predicate SizedSpec(spec: RuntimeSpec) {
    && Sized(spec.ports) && SizedAll(spec.environmentKeys)
    && (forall i :: 0 <= i < |spec.ports| ==> SizedPort(spec.ports[i]))
    && (spec.healthCheck.Some? ==> SizedAll(spec.healthCheck.value.command))
  }

  ghost predicate SizedPort(port: Port) { Sized(port.name) && Sized(port.protocol) }

  ghost predicate SizedDeployment(d: DeploymentCommand) {
    && Sized(d.deploymentId) && Sized(d.workerId) && Sized(d.runtimeTargetId) && Sized(d.containerName)
    && Sized(d.projectId) && Sized(d.applicationId) && Sized(d.environmentId) && Sized(d.imageDigest)
    && Sized(d.registryAuthorization) && SizedSpec(d.runtimeSpec) && SizedAll(d.environment)
  }

  ghost predicate SizedIngress(c: IngressCommand) {
    && Sized(c.configDigest) && Sized(c.routes) && SizedAll(c.probeRouteIds)
    && forall i :: 0 <= i < |c.routes| ==> SizedRoute(c.routes[i])
  }

  /** Every string and list of the command has a length that fits the machine word Go gives it. */
  ghost predicate SizedCommand(c: AgentCommand) {
    && Sized(c.id)
    && (c.runtimeProbe.Some? ==> Sized(c.runtimeProbe.value))
    && (c.deployment.Some? ==> SizedDeployment(c.deployment.value))
    && (c.cutover.Some? ==>
      && Sized(c.cutover.value.deploymentId) && Sized(c.cutover.value.runtimeTargetId)
      && Sized(c.cutover.value.containerName))
    && (c.inventory.Some? ==> Sized(c.inventory.value.runtimeTargetId) && Sized(c.inventory.value.observationId))
    && (c.ingress.Some? ==> SizedIngress(c.ingress.value))
  }
}
