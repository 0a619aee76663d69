/**
 The server side of managed ingress: one host document, the three coordinators that drive it, and
 the channel to the agent (internal/modules/applicationroute/biz/cutover.go, reconciliation.go,
 retirement.go; the document's guards are those of internal/modules/applicationroute/data).

 Any number of workers run coordinator calls at the same time. A worker acts on the copy of the
 transaction it fetched; a request may be delivered late, repeatedly or never, and any reply may
 be lost.
 */
module HostProtocol {
  import opened Common
  import opened IngressProtocol
  import opened IngressFence
  import opened IngressHistory
  import opened IngressRuns
  import opened IngressSafety

  datatype Kind = Cutover | Reconciliation | Retirement

  datatype Status = Allocated | Prepared | ControlPlaneCommitted | GatewayCommitted

  /** A transaction on the host document. `subject` is the deployment, or the route, it is for. */
  datatype Transaction = Transaction(kind: Kind, subject: string, desired: IngressCommand, status: Status)

  /** Allocations exclude one another, so the three document fields are one slot. */
  datatype Host = Host(revision: nat, committed: seq<IngressRoute>, transaction: Option<Transaction>)

  // ----- One coordinator call as an automaton -----

  datatype Task =
    | CutoverPrepare | CutoverCommit | CutoverRestore | CutoverFinalizeAbort | CutoverFinish
    | Reconcile | Retire

  datatype Stage =
    | SendPrepare | AwaitPrepare | RecordPrepare
    | SendAbort | AwaitAbort | RecordAbort
    | SendCommit | AwaitCommit | RecordCommit
    | RecordFinish
    | Done

  datatype Worker = Worker(task: Task, stage: Stage, transaction: Transaction)

  function KindOf(task: Task): Kind {
    match task
    case Reconcile => Reconciliation
    case Retire => Retirement
    case _ => Cutover
  }

  predicate IsPrepared(t: Transaction) { t.status != Allocated }

  predicate IsControlPlaneCommitted(t: Transaction) {
    t.status == ControlPlaneCommitted || t.status == GatewayCommitted
  }

  function FirstStage(task: Task, t: Transaction): Stage {
    match task
    case CutoverPrepare => if IsControlPlaneCommitted(t) then Done else SendPrepare
    case CutoverCommit => if IsControlPlaneCommitted(t) then SendCommit else Done
    case CutoverRestore => SendAbort
    case CutoverFinalizeAbort => RecordAbort
    case CutoverFinish => RecordFinish
    case Reconcile => if IsPrepared(t) then SendCommit else SendPrepare
    case Retire =>
      if !IsPrepared(t) then SendPrepare else if t.status != GatewayCommitted then SendCommit else RecordFinish
  }

  function Started(task: Task, t: Transaction): Worker { Worker(task, FirstStage(task, t), t) }

  /** Which request a worker in a sending stage puts on the channel. */
  function Request(stage: Stage): Op
    requires stage in {SendPrepare, SendAbort, SendCommit}
  {
    if stage == SendPrepare then OpPrepare else if stage == SendAbort then OpAbort else OpCommit
  }

  function AfterSend(w: Worker): Worker
    requires w.stage in {SendPrepare, SendAbort, SendCommit}
  {
    w.(stage :=
      if w.stage == SendPrepare then AwaitPrepare else if w.stage == SendAbort then AwaitAbort else AwaitCommit)
  }

  predicate Awaiting(stage: Stage) { stage in {AwaitPrepare, AwaitAbort, AwaitCommit} }

  function Awaited(stage: Stage): Op
    requires Awaiting(stage)
  {
    if stage == AwaitPrepare then OpPrepare else if stage == AwaitAbort then OpAbort else OpCommit
  }

  /** "Gateway unavailable" is the one error that reconciliation leaves unresolved on purpose. */
  function AfterReply(w: Worker, reply: Reply): Worker
    requires Awaiting(w.stage)
  {
    match w.stage
    case AwaitPrepare =>
      if reply == Accepted then w.(stage := RecordPrepare)
      else if w.task == CutoverPrepare then w.(stage := SendAbort)
      else if w.task == Reconcile && reply == Refused then w.(stage := SendAbort)
      else w.(stage := Done)
    case AwaitAbort =>
      if reply == Accepted && w.task == Reconcile then w.(stage := RecordAbort) else w.(stage := Done)
    case AwaitCommit =>
      if reply == Accepted then w.(stage := RecordCommit) else w.(stage := Done)
  }

  predicate Recording(stage: Stage) { stage in {RecordPrepare, RecordAbort, RecordCommit, RecordFinish} }

  function AfterRecord(w: Worker, ok: bool): Worker
    requires Recording(w.stage)
  {
    if w.stage == RecordPrepare then
      if ok && w.task != CutoverPrepare then w.(stage := SendCommit, transaction := w.transaction.(status := Prepared))
      else if !ok && w.task == CutoverPrepare then w.(stage := SendAbort)
      else w.(stage := Done)
    else if w.stage == RecordCommit && ok && w.task == Retire then
      w.(stage := RecordFinish, transaction := w.transaction.(status := GatewayCommitted))
    else w.(stage := Done)
  }

  // ----- The host document -----

  /** The update filters name the transaction, its revision and the statuses it may be in. */
  predicate Matches(host: Host, t: Transaction) {
    && host.transaction.Some?
    && host.transaction.value.kind == t.kind && host.transaction.value.subject == t.subject
    && host.transaction.value.desired.hostRevision == t.desired.hostRevision
  }

  /** Whether the update a recording worker issues matches the document. */
  predicate CanRecord(host: Host, w: Worker)
    requires Recording(w.stage)
  {
    && Matches(host, w.transaction)
    && var status := host.transaction.value.status;
       match w.stage
       case RecordPrepare => status == Allocated || status == Prepared
       case RecordAbort => status == Allocated || status == Prepared
       case RecordFinish => status == GatewayCommitted
       case RecordCommit =>
         match w.transaction.kind
         case Cutover => status == ControlPlaneCommitted || status == GatewayCommitted
         case Reconciliation => status == Prepared
         case Retirement => status == Prepared || status == GatewayCommitted
  }

  function Recorded(host: Host, w: Worker): Host
    requires Recording(w.stage) && host.transaction.Some?
  {
    match w.stage
    case RecordPrepare => host.(transaction := Some(host.transaction.value.(status := Prepared)))
    case RecordAbort => host.(transaction := None)
    case RecordFinish => host.(transaction := None)
    case RecordCommit =>
      if w.transaction.kind == Reconciliation then host.(committed := w.transaction.desired.routes, transaction := None)
      else host.(committed := w.transaction.desired.routes,
                 transaction := Some(host.transaction.value.(status := GatewayCommitted)))
  }

  // ----- The whole system -----

  /**
   `issued` is every transaction ever allocated, by revision; the four sets remember which
   revisions were recorded as prepared, marked in the control plane, recorded as complete, and
   finished as retirements.
   */
  datatype System = System(
    host: Host,
    workers: map<nat, Worker>,
    sent: set<(Op, IngressCommand)>,
    agent: World,
    issued: map<nat, Transaction>,
    prepared: set<nat>,
    marked: set<nat>,
    completed: set<nat>,
    retired: set<nat>)

  const START: System := System(Host(0, [], None), map[], {}, INITIAL, map[], {}, {}, {}, {})

  /** `took`: an update whose reply was lost reached the document all the same. */
  datatype Step =
    | Allocate(kind: Kind, subject: string, desired: IngressCommand)
    | MarkControlPlane
    | Begin(worker: nat, task: Task)
    | Send(worker: nat)
    | Receive(worker: nat, reply: Reply)
    | Record(worker: nat, ok: bool, took: bool)
    | Stop(worker: nat)
    | Agent(action: Action)

  ghost predicate CanAllocate(y: System, kind: Kind, subject: string, desired: IngressCommand) {
    && y.host.transaction.None? && ValidIngressCommand(desired) && desired.hostRevision == y.host.revision + 1
    && (kind == Retirement ==> subject !in RouteIds(desired.routes))
  }

  ghost predicate CanStep(y: System, step: Step, maximum: nat) {
    match step
    case Allocate(kind, subject, desired) => CanAllocate(y, kind, subject, desired)
    case MarkControlPlane =>
      && y.host.transaction.Some?
      && y.host.transaction.value.kind == Cutover && y.host.transaction.value.status == Prepared
    case Begin(worker, task) =>
      worker !in y.workers && y.host.transaction.Some? && y.host.transaction.value.kind == KindOf(task)
    case Send(worker) => worker in y.workers && y.workers[worker].stage in {SendPrepare, SendAbort, SendCommit}
    case Receive(worker, reply) =>
      && worker in y.workers && Awaiting(y.workers[worker].stage)
      && var call := (Awaited(y.workers[worker].stage), y.workers[worker].transaction.desired);
      (reply == Accepted ==> call in y.agent.acked) && (reply == Refused ==> call in y.agent.refused)
    case Record(worker, ok, took) =>
      && worker in y.workers && Recording(y.workers[worker].stage)
      && (ok || took ==> CanRecord(y.host, y.workers[worker]))
    case Stop(worker) => worker in y.workers
    case Agent(a) =>
      Enabled(y.agent, a) && (a.Receive? ==> (a.op, a.command) in y.sent)
  }

  /** A recorded update and what it adds to the history. */
  function Registered(y: System, w: Worker): System
    requires Recording(w.stage) && y.host.transaction.Some?
  {
    var revision := w.transaction.desired.hostRevision;
    y.(host := Recorded(y.host, w),
       prepared := if w.stage == RecordPrepare then y.prepared + {revision} else y.prepared,
       completed := if w.stage == RecordCommit then y.completed + {revision} else y.completed,
       retired :=
         if w.stage == RecordFinish && w.transaction.kind == Retirement then y.retired + {revision} else y.retired)
  }

  function AfterStep(y: System, step: Step, maximum: nat): System
    requires CanStep(y, step, maximum)
  {
    match step
    case Allocate(kind, subject, desired) =>
      var t := Transaction(kind, subject, desired, Allocated);
      y.(host := y.host.(revision := desired.hostRevision, transaction := Some(t)),
         issued := y.issued[desired.hostRevision := t])
    case MarkControlPlane =>
      var t := y.host.transaction.value;
      y.(host := y.host.(transaction := Some(t.(status := ControlPlaneCommitted))),
         marked := y.marked + {t.desired.hostRevision})
    case Begin(worker, task) => y.(workers := y.workers[worker := Started(task, y.host.transaction.value)])
    case Send(worker) =>
      var w := y.workers[worker];
      y.(workers := y.workers[worker := AfterSend(w)], sent := y.sent + {(Request(w.stage), w.transaction.desired)})
    case Receive(worker, reply) => y.(workers := y.workers[worker := AfterReply(y.workers[worker], reply)])
    case Record(worker, ok, took) =>
      var w := y.workers[worker];
      var z := if ok || took then Registered(y, w) else y;
      z.(workers := y.workers[worker := AfterRecord(w, ok)])
    case Stop(worker) => y.(workers := y.workers - {worker})
    case Agent(a) => y.(agent := Next(y.agent, a, maximum))
  }
}
