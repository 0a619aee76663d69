/**
 The durable identity of a command (internal/shared/agentprotocol/command.go:183-257, 660-716):
 a hasher is fed one length-prefixed field after another, and what it was fed determines the command.
 */
module CommandFingerprint {
  import opened AgentCommands
  import opened Common
  import opened Encoding
  import opened Identifiers
  import opened IngressProtocol

  const DOMAIN := "owndock-agent-command-v1"

  /** `time.Time.UnixNano`: nanoseconds since 1970 in 64 bits, so distant instants wrap onto others. */
  function UnixNano(t: Instant): (r: int64)
    ensures (r - (t.seconds * 1_000_000_000 + t.nanosecond)) % TWO_64 == 0
  {
    (t.seconds * 1_000_000_000 + t.nanosecond + TWO_64 / 2) % TWO_64 - TWO_64 / 2
  }

  // ----- The bytes -----

  function PutPort(port: Port, rest: string): string {
    PutString(port.name, PutUint64(port.containerPort, PutString(port.protocol, rest)))
  }

  function PutPorts(ports: seq<Port>, rest: string): string {
    if ports == [] then rest else PutPort(ports[0], PutPorts(ports[1..], rest))
  }

  function PutHealth(h: HealthCheck, rest: string): string {
    PutStringList(h.command, PutInt64(h.intervalSeconds, PutInt64(h.timeoutSeconds,
      PutInt64(h.retries, PutInt64(h.startPeriodSeconds, rest)))))
  }

  /** `writeRuntimeSpecFingerprint`: a missing health check writes 0, a present one 1 and its fields. */
  function PutSpec(spec: RuntimeSpec, rest: string): string {
    BigEndian(|spec.ports|, 8) + PutPorts(spec.ports, PutStringList(spec.environmentKeys,
      PutInt64(spec.resources.cpuMilli, PutInt64(spec.resources.memoryBytes, PutHealthFlag(spec.healthCheck, rest)))))
  }

  function PutHealthFlag(h: Option<HealthCheck>, rest: string): string {
    if h.None? then PutUint64(0, rest) else PutUint64(1, PutHealth(h.value, rest))
  }

  function PutDeployment(d: DeploymentCommand, rest: string): string {
    PutString(d.deploymentId, PutString(d.workerId, PutUint64(d.fencingToken, PutUint64(d.cutoverSequence,
      PutString(d.runtimeTargetId, PutString(d.containerName, PutDeploymentScope(d, rest)))))))
  }

  function PutDeploymentScope(d: DeploymentCommand, rest: string): string {
    PutString(d.projectId, PutString(d.applicationId, PutString(d.environmentId, PutString(d.imageDigest,
      PutString(d.registryAuthorization, PutSpec(d.runtimeSpec,
        PutStringList(d.environment, PutBool(d.managedIngress, rest))))))))
  }

  function PutCutover(c: CutoverCommand, rest: string): string {
    PutString(c.deploymentId, PutUint64(c.cutoverSequence,
      PutString(c.runtimeTargetId, PutString(c.containerName, rest))))
  }

  function PutInventory(c: InventoryCommand, rest: string): string {
    PutString(c.runtimeTargetId, PutString(c.observationId, PutInt64(c.maxChunkBytes, PutInt64(c.chunkIndex,
      PutInt64(UnixNano(c.eventSince), PutInt64(c.eventWaitSeconds, rest))))))
  }

  function PutIngress(c: IngressCommand, rest: string): string {
    PutUint64(c.hostRevision, PutString(c.configDigest,
      BigEndian(|c.routes|, 8) + PutRoutes(c.routes, PutStringList(c.probeRouteIds, rest))))
  }

  /** The payloads that are set, in the order the source tests for them. */
  function PayloadBytes(c: AgentCommand): string {
    var ingress := if c.ingress.Some? then PutIngress(c.ingress.value, "") else "";
    var inventory := if c.inventory.Some? then PutInventory(c.inventory.value, ingress) else ingress;
    var cutover := if c.cutover.Some? then PutCutover(c.cutover.value, inventory) else inventory;
    var deployment := if c.deployment.Some? then PutDeployment(c.deployment.value, cutover) else cutover;
    if c.runtimeProbe.Some? then PutString(c.runtimeProbe.value, deployment) else deployment
  }

  function FingerprintBytes(c: AgentCommand): string {
    PutString(DOMAIN, PutString(c.id, PutString(KindText(c.kind),
      PutInt64(c.deadline.seconds, PutInt64(c.deadline.nanosecond, PayloadBytes(c))))))
  }

  // ----- Reading the fields back -----

  lemma PeelPort(a: Port, b: Port, s: string, t: string)
    requires SizedPort(a) && SizedPort(b) && PutPort(a, s) == PutPort(b, t)
    ensures a == b && s == t
  {
    hide PutString, PutUint64;
    var a2, b2 := PutString(a.protocol, s), PutString(b.protocol, t);
    PeelString(a.name, b.name, PutUint64(a.containerPort, a2), PutUint64(b.containerPort, b2));
    PeelNumber(a.containerPort, b.containerPort, a2, b2);
    PeelString(a.protocol, b.protocol, s, t);
  }

  lemma PeelNumber(a: uint64, b: uint64, s: string, t: string)
    requires PutUint64(a, s) == PutUint64(b, t)
    ensures a == b && s == t
  {
    PeelUint64(a, b, s, t);
  }

  lemma {:induction false} PeelPorts(a: seq<Port>, b: seq<Port>, s: string, t: string)
    requires |a| == |b| && PutPorts(a, s) == PutPorts(b, t)
    requires forall i :: 0 <= i < |a| ==> SizedPort(a[i]) && SizedPort(b[i])
    ensures a == b && s == t
  {
    if a != [] {
      PeelPort(a[0], b[0], PutPorts(a[1..], s), PutPorts(b[1..], t));
      PeelPorts(a[1..], b[1..], s, t);
      assert a == [a[0]] + a[1..] && b == [b[0]] + b[1..];
    }
  }

  lemma PeelHealth(a: HealthCheck, b: HealthCheck, s: string, t: string)
    requires SizedAll(a.command) && SizedAll(b.command) && PutHealth(a, s) == PutHealth(b, t)
    ensures a == b && s == t
  {
    hide PutInt64, PutStringList, SizedAll;
    var a4, b4 := PutInt64(a.startPeriodSeconds, s), PutInt64(b.startPeriodSeconds, t);
    var a3, b3 := PutInt64(a.retries, a4), PutInt64(b.retries, b4);
    var a2, b2 := PutInt64(a.timeoutSeconds, a3), PutInt64(b.timeoutSeconds, b3);
    PeelStringList(a.command, b.command, PutInt64(a.intervalSeconds, a2), PutInt64(b.intervalSeconds, b2));
    PeelInt64(a.intervalSeconds, b.intervalSeconds, a2, b2);
    PeelInt64(a.timeoutSeconds, b.timeoutSeconds, a3, b3);
    PeelInt64(a.retries, b.retries, a4, b4);
    PeelInt64(a.startPeriodSeconds, b.startPeriodSeconds, s, t);
  }

  lemma PeelHealthFlag(a: Option<HealthCheck>, b: Option<HealthCheck>, s: string, t: string)
    requires (a.Some? ==> SizedAll(a.value.command)) && (b.Some? ==> SizedAll(b.value.command))
    requires PutHealthFlag(a, s) == PutHealthFlag(b, t)
    ensures a == b && s == t
  {
    hide PutHealth, SizedAll;
    PeelUint64(if a.Some? then 1 else 0, if b.Some? then 1 else 0,
               if a.Some? then PutHealth(a.value, s) else s, if b.Some? then PutHealth(b.value, t) else t);
    if a.Some? { PeelHealth(a.value, b.value, s, t); }
  }

  lemma PeelSpec(a: RuntimeSpec, b: RuntimeSpec, s: string, t: string)
    requires SizedSpec(a) && SizedSpec(b) && PutSpec(a, s) == PutSpec(b, t)
    ensures a == b && s == t
  {
    hide PutHealthFlag, PutInt64, PutStringList, SizedAll, SizedPort, PutPorts;
    var a4, b4 := PutHealthFlag(a.healthCheck, s), PutHealthFlag(b.healthCheck, t);
    var a3, b3 := PutInt64(a.resources.memoryBytes, a4), PutInt64(b.resources.memoryBytes, b4);
    var a2, b2 := PutInt64(a.resources.cpuMilli, a3), PutInt64(b.resources.cpuMilli, b3);
    var a1, b1 := PutStringList(a.environmentKeys, a2), PutStringList(b.environmentKeys, b2);
    PeelUint64(|a.ports|, |b.ports|, PutPorts(a.ports, a1), PutPorts(b.ports, b1));
    PeelPorts(a.ports, b.ports, a1, b1);
    PeelStringList(a.environmentKeys, b.environmentKeys, a2, b2);
    PeelInt64(a.resources.cpuMilli, b.resources.cpuMilli, a3, b3);
    PeelInt64(a.resources.memoryBytes, b.resources.memoryBytes, a4, b4);
    PeelHealthFlag(a.healthCheck, b.healthCheck, s, t);
  }

  lemma PeelDeploymentScope(a: DeploymentCommand, b: DeploymentCommand, s: string, t: string)
    requires SizedDeployment(a) && SizedDeployment(b) && PutDeploymentScope(a, s) == PutDeploymentScope(b, t)
    ensures a.projectId == b.projectId && a.applicationId == b.applicationId && a.environmentId == b.environmentId
    ensures a.imageDigest == b.imageDigest && a.registryAuthorization == b.registryAuthorization
    ensures a.runtimeSpec == b.runtimeSpec && a.environment == b.environment && a.managedIngress == b.managedIngress
    ensures s == t
  {
    hide PutString, PutSpec, PutStringList, PutBool, SizedSpec, SizedAll;
    var a7, b7 := PutBool(a.managedIngress, s), PutBool(b.managedIngress, t);
    var a6, b6 := PutStringList(a.environment, a7), PutStringList(b.environment, b7);
    var a5, b5 := PutSpec(a.runtimeSpec, a6), PutSpec(b.runtimeSpec, b6);
    var a4, b4 := PutString(a.registryAuthorization, a5), PutString(b.registryAuthorization, b5);
    var a3, b3 := PutString(a.imageDigest, a4), PutString(b.imageDigest, b4);
    var a2, b2 := PutString(a.environmentId, a3), PutString(b.environmentId, b3);
    var a1, b1 := PutString(a.applicationId, a2), PutString(b.applicationId, b2);
    PeelString(a.projectId, b.projectId, a1, b1);
    PeelString(a.applicationId, b.applicationId, a2, b2);
    PeelString(a.environmentId, b.environmentId, a3, b3);
    PeelString(a.imageDigest, b.imageDigest, a4, b4);
    PeelString(a.registryAuthorization, b.registryAuthorization, a5, b5);
    PeelSpec(a.runtimeSpec, b.runtimeSpec, a6, b6);
    PeelStringList(a.environment, b.environment, a7, b7);
    PeelBool(a.managedIngress, b.managedIngress, s, t);
  }

  lemma PeelDeployment(a: DeploymentCommand, b: DeploymentCommand, s: string, t: string)
    requires SizedDeployment(a) && SizedDeployment(b) && PutDeployment(a, s) == PutDeployment(b, t)
    ensures a == b && s == t
  {
    hide PutString, PutUint64, PutDeploymentScope;
    var a6, b6 := PutDeploymentScope(a, s), PutDeploymentScope(b, t);
    var a5, b5 := PutString(a.containerName, a6), PutString(b.containerName, b6);
    var a4, b4 := PutString(a.runtimeTargetId, a5), PutString(b.runtimeTargetId, b5);
    var a3, b3 := PutUint64(a.cutoverSequence, a4), PutUint64(b.cutoverSequence, b4);
    var a2, b2 := PutUint64(a.fencingToken, a3), PutUint64(b.fencingToken, b3);
    var a1, b1 := PutString(a.workerId, a2), PutString(b.workerId, b2);
    PeelString(a.deploymentId, b.deploymentId, a1, b1);
    PeelString(a.workerId, b.workerId, a2, b2);
    PeelNumber(a.fencingToken, b.fencingToken, a3, b3);
    PeelNumber(a.cutoverSequence, b.cutoverSequence, a4, b4);
    PeelString(a.runtimeTargetId, b.runtimeTargetId, a5, b5);
    PeelString(a.containerName, b.containerName, a6, b6);
    PeelDeploymentScope(a, b, s, t);
  }

  lemma PeelCutover(a: CutoverCommand, b: CutoverCommand, s: string, t: string)
    requires Sized(a.deploymentId) && Sized(a.runtimeTargetId) && Sized(a.containerName)
    requires Sized(b.deploymentId) && Sized(b.runtimeTargetId) && Sized(b.containerName)
    requires PutCutover(a, s) == PutCutover(b, t)
    ensures a == b && s == t
  {
    hide PutString, PutUint64;
    var a3, b3 := PutString(a.containerName, s), PutString(b.containerName, t);
    var a2, b2 := PutString(a.runtimeTargetId, a3), PutString(b.runtimeTargetId, b3);
    PeelString(a.deploymentId, b.deploymentId, PutUint64(a.cutoverSequence, a2), PutUint64(b.cutoverSequence, b2));
    PeelNumber(a.cutoverSequence, b.cutoverSequence, a2, b2);
    PeelString(a.runtimeTargetId, b.runtimeTargetId, a3, b3);
    PeelString(a.containerName, b.containerName, s, t);
  }

  /** All of the payload comes back but the event time, of which only its 64-bit nanoseconds do. */
  lemma PeelInventory(a: InventoryCommand, b: InventoryCommand, s: string, t: string)
    requires Sized(a.runtimeTargetId) && Sized(a.observationId) && Sized(b.runtimeTargetId) && Sized(b.observationId)
    requires PutInventory(a, s) == PutInventory(b, t)
    ensures a.(eventSince := b.eventSince) == b && UnixNano(a.eventSince) == UnixNano(b.eventSince) && s == t
  {
    hide PutString, PutInt64, UnixNano;
    var a5, b5 := PutInt64(a.eventWaitSeconds, s), PutInt64(b.eventWaitSeconds, t);
    var a4, b4 := PutInt64(UnixNano(a.eventSince), a5), PutInt64(UnixNano(b.eventSince), b5);
    var a3, b3 := PutInt64(a.chunkIndex, a4), PutInt64(b.chunkIndex, b4);
    var a2, b2 := PutInt64(a.maxChunkBytes, a3), PutInt64(b.maxChunkBytes, b3);
    var a1, b1 := PutString(a.observationId, a2), PutString(b.observationId, b2);
    PeelString(a.runtimeTargetId, b.runtimeTargetId, a1, b1);
    PeelString(a.observationId, b.observationId, a2, b2);
    PeelInt64(a.maxChunkBytes, b.maxChunkBytes, a3, b3);
    PeelInt64(a.chunkIndex, b.chunkIndex, a4, b4);
    PeelInt64(UnixNano(a.eventSince), UnixNano(b.eventSince), a5, b5);
    PeelInt64(a.eventWaitSeconds, b.eventWaitSeconds, s, t);
  }

  lemma PeelIngress(a: IngressCommand, b: IngressCommand, s: string, t: string)
    requires SizedIngress(a) && SizedIngress(b) && PutIngress(a, s) == PutIngress(b, t)
    ensures a == b && s == t
  {
    hide PutString, PutUint64, PutStringList, PutRoutes, SizedRoute, SizedAll;
    var a3, b3 := PutStringList(a.probeRouteIds, s), PutStringList(b.probeRouteIds, t);
    var a2 := BigEndian(|a.routes|, 8) + PutRoutes(a.routes, a3);
    var b2 := BigEndian(|b.routes|, 8) + PutRoutes(b.routes, b3);
    PeelNumber(a.hostRevision, b.hostRevision, PutString(a.configDigest, a2), PutString(b.configDigest, b2));
    PeelString(a.configDigest, b.configDigest, a2, b2);
    PeelUint64(|a.routes|, |b.routes|, PutRoutes(a.routes, a3), PutRoutes(b.routes, b3));
    PeelRoutes(a.routes, b.routes, a3, b3);
    PeelStringList(a.probeRouteIds, b.probeRouteIds, s, t);
  }

  // ----- The bytes determine the command -----

  /** The same command, up to event times that agree in their 64-bit nanoseconds. */
  predicate SameCommand(a: AgentCommand, b: AgentCommand) {
    && a.inventory.Some? == b.inventory.Some?
    && a.(inventory := None) == b.(inventory := None)
    && (a.inventory.Some? ==>
      && a.inventory.value.(eventSince := ZERO_TIME) == b.inventory.value.(eventSince := ZERO_TIME)
      && UnixNano(a.inventory.value.eventSince) == UnixNano(b.inventory.value.eventSince))
  }

  lemma KindTextIsInjective(a: CommandKind, b: CommandKind)
    requires KindText(a) == KindText(b)
    ensures a == b
  {
  }

  lemma KindTextIsSized(kind: CommandKind)
    ensures Sized(KindText(kind))
  {
  }

  lemma PeelHeader(a: AgentCommand, b: AgentCommand)
    requires SizedCommand(a) && SizedCommand(b) && FingerprintBytes(a) == FingerprintBytes(b)
    ensures a.id == b.id && a.kind == b.kind && a.deadline == b.deadline && PayloadBytes(a) == PayloadBytes(b)
  {
    hide PutString, PutInt64, PayloadBytes, KindText;
    var a4, b4 := PutInt64(a.deadline.nanosecond, PayloadBytes(a)), PutInt64(b.deadline.nanosecond, PayloadBytes(b));
    var a3, b3 := PutInt64(a.deadline.seconds, a4), PutInt64(b.deadline.seconds, b4);
    var a2, b2 := PutString(KindText(a.kind), a3), PutString(KindText(b.kind), b3);
    PeelString(DOMAIN, DOMAIN, PutString(a.id, a2), PutString(b.id, b2));
    PeelString(a.id, b.id, a2, b2);
    KindTextIsSized(a.kind);
    KindTextIsSized(b.kind);
    PeelString(KindText(a.kind), KindText(b.kind), a3, b3);
    KindTextIsInjective(a.kind, b.kind);
    PeelInt64(a.deadline.seconds, b.deadline.seconds, a4, b4);
    PeelInt64(a.deadline.nanosecond, b.deadline.nanosecond, PayloadBytes(a), PayloadBytes(b));
  }

  lemma PeelPayload(a: AgentCommand, b: AgentCommand)
    requires SizedCommand(a) && SizedCommand(b) && PayloadMatchesKind(a) && PayloadMatchesKind(b)
    requires a.id == b.id && a.kind == b.kind && a.deadline == b.deadline && PayloadBytes(a) == PayloadBytes(b)
    ensures SameCommand(a, b)
  {
    hide PutString, PutDeployment, PutCutover, PutInventory, PutIngress, UnixNano, SizedDeployment, SizedIngress;
    if a.kind.RuntimeProbe? {
      PeelString(a.runtimeProbe.value, b.runtimeProbe.value, "", "");
    } else if OfDeployment(a.kind) {
      PeelDeployment(a.deployment.value, b.deployment.value, "", "");
    } else if OfCutover(a.kind) {
      PeelCutover(a.cutover.value, b.cutover.value, "", "");
    } else if OfInventory(a.kind) {
      PeelInventory(a.inventory.value, b.inventory.value, "", "");
    } else {
      PeelIngress(a.ingress.value, b.ingress.value, "", "");
    }
  }

  lemma SameCommandSameBytes(a: AgentCommand, b: AgentCommand)
    requires SameCommand(a, b)
    ensures FingerprintBytes(a) == FingerprintBytes(b)
  {
    hide PutString, PutInt64, PutDeployment, PutCutover, PutIngress, UnixNano;
  }

  /** Two commands feed the hash the same bytes exactly when they are the same command. */
  lemma BytesDetermineCommand(a: AgentCommand, b: AgentCommand)
    requires SizedCommand(a) && SizedCommand(b) && PayloadMatchesKind(a) && PayloadMatchesKind(b)
    ensures FingerprintBytes(a) == FingerprintBytes(b) <==> SameCommand(a, b)
  {
    hide FingerprintBytes, PayloadBytes, SameCommand, SizedCommand, PayloadMatchesKind;
    if FingerprintBytes(a) == FingerprintBytes(b) {
      PeelHeader(a, b);
      PeelPayload(a, b);
    }
    if SameCommand(a, b) { SameCommandSameBytes(a, b); }
  }

  /** For every kind whose result is durable, and for ingress, the bytes determine everything. */
  lemma DurableBytesDetermineCommand(a: AgentCommand, b: AgentCommand)
    requires SizedCommand(a) && SizedCommand(b) && PayloadMatchesKind(a) && PayloadMatchesKind(b)
    requires DurableResult(a.kind) || OfIngress(a.kind)
    ensures FingerprintBytes(a) == FingerprintBytes(b) <==> a == b
  {
    hide FingerprintBytes, SizedCommand;
    BytesDetermineCommand(a, b);
  }

  /** The exception is real: event times 2^64 nanoseconds apart give two commands one fingerprint. */
  lemma DistantEventTimesCollide(c: AgentCommand, seconds: int64)
    requires c.inventory.Some? && c.inventory.value.eventSince == Instant(seconds, 0)
    requires seconds <= 0
    ensures var later := Instant(seconds + 18_446_744_073, 709_551_616);
      var d := c.(inventory := Some(c.inventory.value.(eventSince := later)));
      c != d && FingerprintBytes(c) == FingerprintBytes(d)
  {
    var later := Instant(seconds + 18_446_744_073, 709_551_616);
    var d := c.(inventory := Some(c.inventory.value.(eventSince := later)));
    assert UnixNano(later) == UnixNano(Instant(seconds, 0)) by {
      assert later.seconds * 1_000_000_000 + later.nanosecond == seconds * 1_000_000_000 + TWO_64;
    }
    SameCommandSameBytes(c, d);
  }

  // ----- Feeding the hasher -----

  class Hasher {
    var written: string

    constructor ()
      ensures written == ""
    {
      written := "";
    }

    method Write(bytes: string)
      modifies this
      ensures written == old(written) + bytes
    {
      written := written + bytes;
    }

    // Each writer below says that what is written, followed by the bytes `rest` still to come, is
    // what was due before the call.

    method WriteUint64(n: nat, ghost rest: string)
      modifies this
      ensures written + rest == old(written) + (BigEndian(n, 8) + rest)
    {
      Write(BigEndian(n, 8));
    }

    method WriteInt64(n: int64, ghost rest: string)
      modifies this
      ensures written + rest == old(written) + PutInt64(n, rest)
    {
      WriteUint64(TwosComplement(n), rest);
    }

    method WriteBool(b: bool, ghost rest: string)
      modifies this
      ensures written + rest == old(written) + PutBool(b, rest)
    {
      if b { WriteUint64(1, rest); } else { WriteUint64(0, rest); }
    }

    method WriteString(s: string, ghost rest: string)
      modifies this
      ensures written + rest == old(written) + PutString(s, rest)
    {
      WriteUint64(|s|, s + rest);
      Write(s);
      assert BigEndian(|s|, 8) + (s + rest) == BigEndian(|s|, 8) + s + rest;
    }

    method WriteStringList(values: seq<string>, ghost rest: string)
      modifies this
      ensures written + rest == old(written) + PutStringList(values, rest)
    {
      hide PutString;
      WriteUint64(|values|, PutStrings(values, rest));
      var i := 0;
      while i < |values|
        invariant i <= |values|
        invariant written + PutStrings(values[i..], rest) == old(written) + PutStringList(values, rest)
      {
        WriteString(values[i], PutStrings(values[i + 1..], rest));
        assert values[i..][1..] == values[i + 1..];
        i := i + 1;
      }
    }

    method WritePorts(ports: seq<Port>, ghost rest: string)
      modifies this
      ensures written + rest == old(written) + PutPorts(ports, rest)
    {
      hide PutString, PutUint64;
      var i := 0;
      while i < |ports|
        invariant i <= |ports|
        invariant written + PutPorts(ports[i..], rest) == old(written) + PutPorts(ports, rest)
      {
        ghost var later := PutPorts(ports[i + 1..], rest);
        assert ports[i..][1..] == ports[i + 1..];
        WriteString(ports[i].name, PutUint64(ports[i].containerPort, PutString(ports[i].protocol, later)));
        WriteNumber(ports[i].containerPort, PutString(ports[i].protocol, later));
        WriteString(ports[i].protocol, later);
        i := i + 1;
      }
    }

    method WriteNumber(n: uint64, ghost rest: string)
      modifies this
      ensures written + rest == old(written) + PutUint64(n, rest)
    {
      WriteUint64(n, rest);
    }

    /** `writeRuntimeSpecFingerprint`. */
    method WriteSpec(spec: RuntimeSpec, ghost rest: string)
      modifies this
      ensures written + rest == old(written) + PutSpec(spec, rest)
    {
      hide PutInt64, PutStringList, PutPorts, PutHealthFlag;
      ghost var r4 := PutHealthFlag(spec.healthCheck, rest);
      ghost var r3 := PutInt64(spec.resources.memoryBytes, r4);
      ghost var r2 := PutInt64(spec.resources.cpuMilli, r3);
      ghost var r1 := PutStringList(spec.environmentKeys, r2);
      WriteUint64(|spec.ports|, PutPorts(spec.ports, r1));
      WritePorts(spec.ports, r1);
      WriteStringList(spec.environmentKeys, r2);
      WriteInt64(spec.resources.cpuMilli, r3);
      WriteInt64(spec.resources.memoryBytes, r4);
      WriteHealth(spec.healthCheck, rest);
    }

    method WriteHealth(healthCheck: Option<HealthCheck>, ghost rest: string)
      modifies this
      ensures written + rest == old(written) + PutHealthFlag(healthCheck, rest)
    {
      hide PutInt64, PutStringList;
      if healthCheck.None? {
        WriteNumber(0, rest);
        return;
      }
      var h := healthCheck.value;
      ghost var r4 := PutInt64(h.startPeriodSeconds, rest);
      ghost var r3 := PutInt64(h.retries, r4);
      ghost var r2 := PutInt64(h.timeoutSeconds, r3);
      ghost var r1 := PutInt64(h.intervalSeconds, r2);
      WriteNumber(1, PutStringList(h.command, r1));
      WriteStringList(h.command, r1);
      WriteInt64(h.intervalSeconds, r2);
      WriteInt64(h.timeoutSeconds, r3);
      WriteInt64(h.retries, r4);
      WriteInt64(h.startPeriodSeconds, rest);
    }

    method WriteDeployment(d: DeploymentCommand, ghost rest: string)
      modifies this
      ensures written + rest == old(written) + PutDeployment(d, rest)
    {
      hide PutString, PutUint64, PutDeploymentScope;
      ghost var r6 := PutDeploymentScope(d, rest);
      ghost var r5 := PutString(d.containerName, r6);
      ghost var r4 := PutString(d.runtimeTargetId, r5);
      ghost var r3 := PutUint64(d.cutoverSequence, r4);
      ghost var r2 := PutUint64(d.fencingToken, r3);
      WriteString(d.deploymentId, PutString(d.workerId, r2));
      WriteString(d.workerId, r2);
      WriteNumber(d.fencingToken, r3);
      WriteNumber(d.cutoverSequence, r4);
      WriteString(d.runtimeTargetId, r5);
      WriteString(d.containerName, r6);
      WriteDeploymentScope(d, rest);
    }

    method WriteDeploymentScope(d: DeploymentCommand, ghost rest: string)
      modifies this
      ensures written + rest == old(written) + PutDeploymentScope(d, rest)
    {
      hide PutString, PutSpec, PutStringList, PutBool;
      ghost var r7 := PutBool(d.managedIngress, rest);
      ghost var r6 := PutStringList(d.environment, r7);
      ghost var r5 := PutSpec(d.runtimeSpec, r6);
      ghost var r4 := PutString(d.registryAuthorization, r5);
      ghost var r3 := PutString(d.imageDigest, r4);
      ghost var r2 := PutString(d.environmentId, r3);
      WriteString(d.projectId, PutString(d.applicationId, r2));
      WriteString(d.applicationId, r2);
      WriteString(d.environmentId, r3);
      WriteString(d.imageDigest, r4);
      WriteString(d.registryAuthorization, r5);
      WriteSpec(d.runtimeSpec, r6);
      WriteStringList(d.environment, r7);
      WriteBool(d.managedIngress, rest);
    }

    method WriteCutover(c: CutoverCommand, ghost rest: string)
      modifies this
      ensures written + rest == old(written) + PutCutover(c, rest)
    {
      hide PutString, PutUint64;
      ghost var r3 := PutString(c.containerName, rest);
      ghost var r2 := PutString(c.runtimeTargetId, r3);
      WriteString(c.deploymentId, PutUint64(c.cutoverSequence, r2));
      WriteNumber(c.cutoverSequence, r2);
      WriteString(c.runtimeTargetId, r3);
      WriteString(c.containerName, rest);
    }

    method WriteInventory(c: InventoryCommand, ghost rest: string)
      modifies this
      ensures written + rest == old(written) + PutInventory(c, rest)
    {
      hide PutString, PutInt64, UnixNano;
      ghost var r5 := PutInt64(c.eventWaitSeconds, rest);
      ghost var r4 := PutInt64(UnixNano(c.eventSince), r5);
      ghost var r3 := PutInt64(c.chunkIndex, r4);
      ghost var r2 := PutInt64(c.maxChunkBytes, r3);
      WriteString(c.runtimeTargetId, PutString(c.observationId, r2));
      WriteString(c.observationId, r2);
      WriteInt64(c.maxChunkBytes, r3);
      WriteInt64(c.chunkIndex, r4);
      WriteInt64(UnixNano(c.eventSince), r5);
      WriteInt64(c.eventWaitSeconds, rest);
    }

    /** `writeIngressRouteFingerprint`. */
    method WriteRoute(route: IngressRoute, ghost rest: string)
      modifies this
      ensures written + rest == old(written) + PutRoute(route, rest)
    {
      hide PutString, PutUint64;
      ghost var r8 := PutString(route.tlsMode, rest);
      ghost var r7 := PutUint64(route.backendPort, r8);
      ghost var r6 := PutString(route.backendAlias, r7);
      ghost var r5 := PutString(route.hostname, r6);
      ghost var r4 := PutString(route.runtimeTargetId, r5);
      ghost var r3 := PutUint64(route.cutoverSequence, r4);
      ghost var r2 := PutString(route.deploymentId, r3);
      WriteString(route.routeId, PutUint64(route.revision, r2));
      WriteNumber(route.revision, r2);
      WriteString(route.deploymentId, r3);
      WriteNumber(route.cutoverSequence, r4);
      WriteString(route.runtimeTargetId, r5);
      WriteString(route.hostname, r6);
      WriteString(route.backendAlias, r7);
      WriteNumber(route.backendPort, r8);
      WriteString(route.tlsMode, rest);
    }

    method WriteRoutes(routes: seq<IngressRoute>, ghost rest: string)
      modifies this
      ensures written + rest == old(written) + PutRoutes(routes, rest)
    {
      hide PutRoute;
      var i := 0;
      while i < |routes|
        invariant i <= |routes|
        invariant written + PutRoutes(routes[i..], rest) == old(written) + PutRoutes(routes, rest)
      {
        assert routes[i..][1..] == routes[i + 1..];
        WriteRoute(routes[i], PutRoutes(routes[i + 1..], rest));
        i := i + 1;
      }
    }

    method WriteIngress(c: IngressCommand, ghost rest: string)
      modifies this
      ensures written + rest == old(written) + PutIngress(c, rest)
    {
      hide PutString, PutUint64, PutStringList, PutRoutes;
      ghost var r3 := PutStringList(c.probeRouteIds, rest);
      ghost var r2 := BigEndian(|c.routes|, 8) + PutRoutes(c.routes, r3);
      WriteNumber(c.hostRevision, PutString(c.configDigest, r2));
      WriteString(c.configDigest, r2);
      WriteUint64(|c.routes|, PutRoutes(c.routes, r3));
      WriteRoutes(c.routes, r3);
      WriteStringList(c.probeRouteIds, rest);
    }

    method WritePayload(c: AgentCommand)
      modifies this
      ensures written == old(written) + PayloadBytes(c)
    {
      hide PutString, PutDeployment, PutCutover, PutInventory, PutIngress;
      ghost var r4 := if c.ingress.Some? then PutIngress(c.ingress.value, "") else "";
      ghost var r3 := if c.inventory.Some? then PutInventory(c.inventory.value, r4) else r4;
      ghost var r2 := if c.cutover.Some? then PutCutover(c.cutover.value, r3) else r3;
      ghost var r1 := if c.deployment.Some? then PutDeployment(c.deployment.value, r2) else r2;
      if c.runtimeProbe.Some? { WriteString(c.runtimeProbe.value, r1); }
      assert written + r1 == old(written) + PayloadBytes(c);
      if c.deployment.Some? { WriteDeployment(c.deployment.value, r2); }
      if c.cutover.Some? { WriteCutover(c.cutover.value, r3); }
      if c.inventory.Some? { WriteInventory(c.inventory.value, r4); }
      assert written + r4 == old(written) + PayloadBytes(c);
      if c.ingress.Some? { WriteIngress(c.ingress.value, ""); }
      assert written + "" == written;
    }
  }

  method ValidateCommand(c: AgentCommand) returns (valid: bool)
    ensures valid == ValidCommand(c)
  {
    hide ValidIdentifier, ValidDeployment, ValidCutover, ValidInventory, ValidIngressCommand;
    if !ValidIdentifier(c.id) || c.deadline == ZERO_TIME || !PayloadMatchesKind(c) { return false; }
    if c.runtimeProbe.Some? { return ValidIdentifier(c.runtimeProbe.value); }
    if c.deployment.Some? { return ValidDeployment(c.kind, c.deployment.value); }
    if c.cutover.Some? { return ValidCutover(c.cutover.value); }
    if c.inventory.Some? { return ValidInventory(c.kind, c.inventory.value); }
    valid := ValidateIngressCommand(c.ingress.value);
  }

  /** `Fingerprint`: the hash of exactly these bytes, for a valid command. */
  method Fingerprint(c: AgentCommand) returns (r: Result<string, CommandError>)
    ensures r == if ValidCommand(c) then Ok(Sha256(FingerprintBytes(c))) else Err(ErrCommandInvalid)
  {
    hide ValidCommand, PutString, PutInt64, PayloadBytes, KindText;
    var valid := ValidateCommand(c);
    if !valid { return Err(ErrCommandInvalid); }
    ghost var r4 := PutInt64(c.deadline.nanosecond, PayloadBytes(c));
    ghost var r3 := PutInt64(c.deadline.seconds, r4);
    ghost var r2 := PutString(KindText(c.kind), r3);
    var hasher := new Hasher();
    hasher.WriteString(DOMAIN, PutString(c.id, r2));
    hasher.WriteString(c.id, r2);
    hasher.WriteString(KindText(c.kind), r3);
    hasher.WriteInt64(c.deadline.seconds, r4);
    hasher.WriteInt64(c.deadline.nanosecond, PayloadBytes(c));
    hasher.WritePayload(c);
    assert hasher.written == FingerprintBytes(c);
    return Ok(Sha256(hasher.written));
  }

  /** `Equivalent`: two valid commands that are the same command. */
  method Equivalent(a: AgentCommand, b: AgentCommand) returns (equivalent: bool)
    requires SizedCommand(a) && SizedCommand(b)
    ensures equivalent <==> ValidCommand(a) && ValidCommand(b) && SameCommand(a, b)
  {
    hide FingerprintBytes, SameCommand, SizedCommand;
    var left := Fingerprint(a);
    var right := Fingerprint(b);
    if left.Err? || right.Err? { return false; }
    BytesDetermineCommand(a, b);
    return left == right;
  }
}
