/** Results of commands, and when a result answers a command (internal/shared/agentprotocol/command.go:259-470). */
module CommandResults {
  import opened AgentCommands
  import opened Common
  import opened Identifiers
  import opened IngressProtocol

  datatype Status = Succeeded | Failed

  datatype ProbeStatus = Ready | Unreachable | Unsupported

  /** The inventory payload stays opaque: no result that carries one is durable. */
  datatype CommandResult = CommandResult(
    commandId: string,
    status: Status,
    errorCode: string,
    runtimeProbe: Option<ProbeStatus>,
    inventory: Option<string>,
    ingress: Option<IngressResult>)

  predicate ErrorCodeChar(c: char) { 'a' <= c <= 'z' || '0' <= c <= '9' || c == '_' }

  predicate ValidErrorCode(code: string) {
    0 < |code| <= 64 && forall i :: 0 <= i < |code| ==> ErrorCodeChar(code[i])
  }

  /** `ValidateShape`: which payload a status and kind may carry. */
  predicate ValidShape(r: CommandResult, kind: CommandKind) {
    && ValidIdentifier(r.commandId)
    && match r.status
       case Failed => ValidErrorCode(r.errorCode) && r.runtimeProbe.None? && r.inventory.None? && r.ingress.None?
       case Succeeded =>
         && r.errorCode == ""
         && r.runtimeProbe.Some? == kind.RuntimeProbe?
         && r.inventory.Some? == (OfInventory(kind) && !kind.InventoryRelease?)
         && (OfIngress(kind) ==> r.ingress.Some? && r.ingress.value.hostRevision > 0)
         && (!OfIngress(kind) ==> r.ingress.None?)
  }

  /** `Validate`, apart from inventory payloads. */
  ghost predicate ValidResult(r: CommandResult, command: AgentCommand) {
    && ValidCommand(command) && r.commandId == command.id && ValidShape(r, command.kind)
    && (r.status.Succeeded? && command.ingress.Some? ==>
      r.ingress == Some(IngressResult(command.ingress.value.hostRevision, command.ingress.value.configDigest)))
  }

  /** `Equivalent`: a probe result is compared by its status alone. */
  predicate EquivalentResults(a: CommandResult, b: CommandResult) {
    && a.commandId == b.commandId && a.status == b.status && a.errorCode == b.errorCode
    && a.runtimeProbe == b.runtimeProbe
    && (a.runtimeProbe.None? ==> a.inventory == b.inventory && a.ingress == b.ingress)
  }

  /** For results of one kind, equivalence is equality. */
  lemma EquivalentIsEqual(a: CommandResult, b: CommandResult, kind: CommandKind)
    requires ValidShape(a, kind) && ValidShape(b, kind)
    ensures EquivalentResults(a, b) <==> a == b
  {
  }
}
