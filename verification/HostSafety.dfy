/** What holds over every run of servers, channel and agent together (HostProtocol.dfy). */
module HostSafety {
  import opened Common
  import opened IngressProtocol
  import opened IngressFence
  import opened IngressHistory
  import opened IngressRuns
  import opened IngressSafety
  import opened HostProtocol

  // ----- The invariant -----

  predicate SameTransaction(a: Transaction, b: Transaction) {
    a.kind == b.kind && a.subject == b.subject && a.desired == b.desired
  }

  /** A transaction's copy is one that was issued, and its status is backed by the records. */
  predicate Backed(y: System, t: Transaction) {
    var revision := t.desired.hostRevision;
    && revision in y.issued && SameTransaction(y.issued[revision], t)
    && (t.status != Allocated ==> revision in y.prepared)
    && (t.kind == Cutover && IsControlPlaneCommitted(t) ==> revision in y.marked)
    && (t.status == GatewayCommitted ==> revision in y.completed)
  }

  /** A commit request is in order once the control plane, or the prepare record, allows it. */
  predicate CommitPermitted(y: System, t: Transaction) {
    if t.kind == Cutover then t.desired.hostRevision in y.marked else t.desired.hostRevision in y.prepared
  }

  predicate RequestFits(y: System, op: Op, command: IngressCommand) {
    && command.hostRevision in y.issued
    && y.issued[command.hostRevision].desired == command
    && (op == OpCommit ==> CommitPermitted(y, y.issued[command.hostRevision]))
    && (op == OpAbort ==> y.issued[command.hostRevision].kind != Retirement)
  }

  /** The stages a reconciliation passes before its prepare is recorded. */
  predicate Unsettled(stage: Stage) {
    stage in {SendPrepare, AwaitPrepare, RecordPrepare, SendAbort, AwaitAbort, RecordAbort}
  }

  predicate WorkerFits(y: System, w: Worker) {
    && w.transaction.kind == KindOf(w.task) && Backed(y, w.transaction)
    && (w.stage in {SendPrepare, AwaitPrepare, RecordPrepare} ==> w.task in {CutoverPrepare, Reconcile, Retire})
    && (w.task == Reconcile && Unsettled(w.stage) ==> w.transaction.status == Allocated)
    && (w.stage in {SendAbort, AwaitAbort, RecordAbort} ==> w.transaction.kind != Retirement)
    && (w.stage in {SendCommit, AwaitCommit, RecordCommit} ==> CommitPermitted(y, w.transaction))
    && (w.stage == RecordCommit ==> (OpCommit, w.transaction.desired) in y.agent.acked)
  }

  predicate HostFits(y: System) {
    y.host.transaction.Some? ==>
      var t := y.host.transaction.value;
      && t.desired.hostRevision == y.host.revision && Backed(y, t)
      && (t.status == Allocated ==> y.host.revision !in y.prepared)
  }

  ghost predicate IssuedFits(y: System) {
    forall revision :: revision in y.issued ==>
      && revision <= y.host.revision && y.issued[revision].desired.hostRevision == revision
      && (y.issued[revision].kind == Retirement ==>
        y.issued[revision].subject !in RouteIds(y.issued[revision].desired.routes))
  }

  /** Whatever the agent commits, or is about to, or has in its file as committed, was asked of it. */
  ghost predicate AgentFits(agent: World, sent: set<(Op, IngressCommand)>) {
    && (agent.phase.Publishing? || agent.phase.Promoting? ==> (OpCommit, agent.phase.command) in sent)
    && (agent.memory.committed.Some? ==> (OpCommit, agent.memory.committed.value) in sent)
    && (agent.disk.committed.Some? ==> (OpCommit, agent.disk.committed.value) in sent)
    && forall command :: command in agent.commits ==> (OpCommit, command) in sent
  }

  predicate CompletedFits(y: System, revision: nat) {
    revision in y.issued && (OpCommit, y.issued[revision].desired) in y.agent.acked
  }

  ghost predicate RecordsFit(y: System) {
    && y.prepared <= y.issued.Keys
    && (forall revision :: revision in y.completed ==> CompletedFits(y, revision))
    && y.retired <= y.completed
    && forall revision :: revision in y.retired ==> revision in y.issued && y.issued[revision].kind == Retirement
  }

  ghost predicate SystemInv(y: System, maximum: nat) {
    && Inv(y.agent, maximum)
    && (forall op, command :: (op, command) in y.sent ==> RequestFits(y, op, command))
    && (forall n :: n in y.workers ==> WorkerFits(y, y.workers[n]))
    && HostFits(y) && IssuedFits(y) && AgentFits(y.agent, y.sent) && RecordsFit(y)
  }

  lemma SystemInvInitially(maximum: nat)
    ensures SystemInv(START, maximum)
  {
    InvInitially(maximum);
  }

  // ----- Facts survive when the records only grow -----

  ghost predicate Grows(y: System, z: System) {
    && (forall revision :: revision in y.issued ==> revision in z.issued && z.issued[revision] == y.issued[revision])
    && y.prepared <= z.prepared && y.marked <= z.marked && y.completed <= z.completed
    && y.agent.acked <= z.agent.acked && y.agent.commits <= z.agent.commits
  }

  lemma FactsSurvive(y: System, z: System, maximum: nat)
    requires SystemInv(y, maximum) && Grows(y, z)
    ensures forall op, command :: (op, command) in y.sent ==> RequestFits(z, op, command)
    ensures forall n :: n in y.workers ==> WorkerFits(z, y.workers[n])
    ensures forall revision :: revision in y.completed ==> CompletedFits(z, revision)
  {
    hide Inv, HostFits, IssuedFits, AgentFits;
  }

  lemma WorkersAndChannelAside(y: System, z: System)
    requires z == y.(workers := z.workers, sent := z.sent)
    requires HostFits(y) && IssuedFits(y) && RecordsFit(y)
    ensures HostFits(z) && IssuedFits(z) && RecordsFit(z)
    ensures Grows(y, z)
  {
  }

  // ----- Every step keeps the invariant -----

  lemma AllocateKeeps(y: System, kind: Kind, subject: string, desired: IngressCommand, maximum: nat)
    requires SystemInv(y, maximum) && CanAllocate(y, kind, subject, desired)
    ensures SystemInv(AfterStep(y, Allocate(kind, subject, desired), maximum), maximum)
  {
    hide Inv, ValidIngressCommand, AgentFits;
    var z := AfterStep(y, Allocate(kind, subject, desired), maximum);
    assert desired.hostRevision !in y.issued;
    FactsSurvive(y, z, maximum);
  }

  lemma MarkKeeps(y: System, maximum: nat)
    requires SystemInv(y, maximum) && CanStep(y, MarkControlPlane, maximum)
    ensures SystemInv(AfterStep(y, MarkControlPlane, maximum), maximum)
  {
    hide Inv, AgentFits, ValidIngressCommand;
    FactsSurvive(y, AfterStep(y, MarkControlPlane, maximum), maximum);
  }

  lemma BeginKeeps(y: System, worker: nat, task: Task, maximum: nat)
    requires SystemInv(y, maximum) && CanStep(y, Step.Begin(worker, task), maximum)
    ensures SystemInv(AfterStep(y, Step.Begin(worker, task), maximum), maximum)
  {
    hide Inv, AgentFits, ValidIngressCommand, IssuedFits, RequestFits, RecordsFit, Grows;
    WorkersAndChannelAside(y, AfterStep(y, Step.Begin(worker, task), maximum));
    FactsSurvive(y, AfterStep(y, Step.Begin(worker, task), maximum), maximum);
  }

  lemma SendKeeps(y: System, worker: nat, maximum: nat)
    requires SystemInv(y, maximum) && CanStep(y, Send(worker), maximum)
    ensures SystemInv(AfterStep(y, Send(worker), maximum), maximum)
  {
    hide Inv, ValidIngressCommand, IssuedFits, RecordsFit, HostFits, Grows;
    WorkersAndChannelAside(y, AfterStep(y, Send(worker), maximum));
    FactsSurvive(y, AfterStep(y, Send(worker), maximum), maximum);
  }

  lemma ReceiveKeeps(y: System, worker: nat, reply: Reply, maximum: nat)
    requires SystemInv(y, maximum) && CanStep(y, Step.Receive(worker, reply), maximum)
    ensures SystemInv(AfterStep(y, Step.Receive(worker, reply), maximum), maximum)
  {
    hide Inv, AgentFits, ValidIngressCommand, IssuedFits, RequestFits, RecordsFit, HostFits, Grows, Backed;
    WorkersAndChannelAside(y, AfterStep(y, Step.Receive(worker, reply), maximum));
    FactsSurvive(y, AfterStep(y, Step.Receive(worker, reply), maximum), maximum);
  }

  lemma RegisteredKeeps(y: System, w: Worker, maximum: nat)
    requires SystemInv(y, maximum) && WorkerFits(y, w) && Recording(w.stage) && CanRecord(y.host, w)
    ensures SystemInv(Registered(y, w), maximum)
    ensures Grows(y, Registered(y, w))
    ensures w.stage == RecordPrepare ==> w.transaction.desired.hostRevision in Registered(y, w).prepared
    ensures w.stage == RecordCommit ==> w.transaction.desired.hostRevision in Registered(y, w).completed
  {
    hide Inv, AgentFits, ValidIngressCommand;
    FactsSurvive(y, Registered(y, w), maximum);
  }

  lemma RecordKeeps(y: System, worker: nat, ok: bool, took: bool, maximum: nat)
    requires SystemInv(y, maximum) && CanStep(y, Record(worker, ok, took), maximum)
    ensures SystemInv(AfterStep(y, Record(worker, ok, took), maximum), maximum)
  {
    hide Inv, AgentFits, ValidIngressCommand, IssuedFits, RequestFits, RecordsFit, HostFits, Registered, CanRecord,
      Grows;
    var w := y.workers[worker];
    if ok || took {
      MatchedDocument(y.host, w);
      RegisteredKeeps(y, w, maximum);
      WorkersUntouched(y, w);
    }
    var z := if ok || took then Registered(y, w) else y;
    AdvancedWorkerFits(z, w, ok);
    var t := z.(workers := z.workers[worker := AfterRecord(w, ok)]);
    WorkersAndChannelAside(z, t);
    FactsSurvive(z, t, maximum);
  }

  lemma MatchedDocument(host: Host, w: Worker)
    requires Recording(w.stage) && CanRecord(host, w)
    ensures host.transaction.Some?
  {
  }

  lemma WorkersUntouched(y: System, w: Worker)
    requires Recording(w.stage) && y.host.transaction.Some?
    ensures Registered(y, w).workers == y.workers
  {
  }

  lemma AdvancedWorkerFits(z: System, w: Worker, ok: bool)
    requires Recording(w.stage)
    requires WorkerFits(z, w)
    requires ok && w.stage == RecordPrepare ==> w.transaction.desired.hostRevision in z.prepared
    requires ok && w.stage == RecordCommit ==> w.transaction.desired.hostRevision in z.completed
    ensures WorkerFits(z, AfterRecord(w, ok))
  {
  }

  lemma AgentKeeps(y: System, a: Action, maximum: nat)
    requires SystemInv(y, maximum) && CanStep(y, Agent(a), maximum)
    ensures SystemInv(AfterStep(y, Agent(a), maximum), maximum)
  {
    hide Inv, ValidIngressCommand, IssuedFits, RequestFits, WorkerFits, HostFits, RecordsFit, AgentFits, Next;
    var z := AfterStep(y, Agent(a), maximum);
    StepKeepsInv(y.agent, a, maximum);
    StepOnlyAdds(y.agent, a, maximum);
    AgentStaysAsked(y.agent, a, y.sent, maximum);
    FactsSurvive(y, z, maximum);
    RestSurvives(y, z);
  }

  lemma AgentStaysAsked(agent: World, a: Action, sent: set<(Op, IngressCommand)>, maximum: nat)
    requires Enabled(agent, a) && AgentFits(agent, sent)
    requires a.Receive? ==> (a.op, a.command) in sent
    ensures AgentFits(Next(agent, a, maximum), sent)
  {
    hide CanCommit, CanAbort, CandidateRefusal, IsCommitted, IsPending, Deactivated, FencesOf, ValidIngressCommand;
  }

  lemma RestSurvives(y: System, z: System)
    requires HostFits(y) && IssuedFits(y) && RecordsFit(y)
    requires z == y.(agent := z.agent)
    requires forall revision :: revision in y.completed ==> CompletedFits(z, revision)
    ensures HostFits(z) && IssuedFits(z) && RecordsFit(z)
  {
    hide CompletedFits;
  }

  lemma StepKeepsSystemInv(y: System, step: Step, maximum: nat)
    requires SystemInv(y, maximum) && CanStep(y, step, maximum)
    ensures SystemInv(AfterStep(y, step, maximum), maximum)
  {
    hide SystemInv, CanStep, CanAllocate;
    match step
    case Allocate(kind, subject, desired) =>
      ReadAllocate(y, step, maximum);
      AllocateKeeps(y, kind, subject, desired, maximum);
    case MarkControlPlane => MarkKeeps(y, maximum);
    case Begin(worker, task) => BeginKeeps(y, worker, task, maximum);
    case Send(worker) => SendKeeps(y, worker, maximum);
    case Receive(worker, reply) => ReceiveKeeps(y, worker, reply, maximum);
    case Record(worker, ok, took) => RecordKeeps(y, worker, ok, took, maximum);
    case Stop(worker) => StopKeeps(y, worker, maximum);
    case Agent(a) => AgentKeeps(y, a, maximum);
  }

  lemma ReadAllocate(y: System, step: Step, maximum: nat)
    requires step.Allocate? && CanStep(y, step, maximum)
    ensures CanAllocate(y, step.kind, step.subject, step.desired)
  {
  }

  lemma StopKeeps(y: System, worker: nat, maximum: nat)
    requires SystemInv(y, maximum) && CanStep(y, Stop(worker), maximum)
    ensures SystemInv(AfterStep(y, Stop(worker), maximum), maximum)
  {
    hide Inv, AgentFits, ValidIngressCommand, IssuedFits, RequestFits, RecordsFit, HostFits, Grows, Backed;
    WorkersAndChannelAside(y, AfterStep(y, Stop(worker), maximum));
    FactsSurvive(y, AfterStep(y, Stop(worker), maximum), maximum);
  }

  // ----- Runs -----

  ghost predicate CanRun(y: System, steps: seq<Step>, maximum: nat)
    decreases |steps|
  {
    steps != [] ==> CanStep(y, steps[0], maximum) && CanRun(AfterStep(y, steps[0], maximum), steps[1..], maximum)
  }

  ghost function AfterRun(y: System, steps: seq<Step>, maximum: nat): System
    requires CanRun(y, steps, maximum)
    decreases |steps|
  {
    if steps == [] then y else AfterRun(AfterStep(y, steps[0], maximum), steps[1..], maximum)
  }

  /** The agent's part of a run. */
  function AgentActions(steps: seq<Step>): seq<Action> {
    if steps == [] then []
    else if steps[0].Agent? then [steps[0].action] + AgentActions(steps[1..])
    else AgentActions(steps[1..])
  }

  lemma {:induction false} RunKeepsSystemInv(y: System, steps: seq<Step>, maximum: nat)
    requires SystemInv(y, maximum) && CanRun(y, steps, maximum)
    ensures SystemInv(AfterRun(y, steps, maximum), maximum)
    decreases |steps|
  {
    hide SystemInv, CanStep, AfterStep;
    if steps != [] {
      StepKeepsSystemInv(y, steps[0], maximum);
      RunKeepsSystemInv(AfterStep(y, steps[0], maximum), steps[1..], maximum);
    }
  }

  lemma ServersLeaveAgentAlone(y: System, step: Step, maximum: nat)
    requires CanStep(y, step, maximum) && !step.Agent?
    ensures AfterStep(y, step, maximum).agent == y.agent
  {
    hide Recorded, AfterRecord, AfterReply, CanRecord, CanAllocate;
  }

  /** Seen from the agent, a run of the system is a run of the agent. */
  lemma {:induction false} RunIsAgentRun(y: System, steps: seq<Step>, maximum: nat)
    requires CanRun(y, steps, maximum)
    ensures Allowed(y.agent, AgentActions(steps), maximum)
    ensures AfterRun(y, steps, maximum).agent == After(y.agent, AgentActions(steps), maximum)
    decreases |steps|
  {
    hide Enabled, Next;
    if steps != [] {
      RunIsAgentRun(AfterStep(y, steps[0], maximum), steps[1..], maximum);
      if steps[0].Agent? {
        var rest := AgentActions(steps[1..]);
        assert ([steps[0].action] + rest)[1..] == rest;
      } else {
        ServersLeaveAgentAlone(y, steps[0], maximum);
      }
    }
  }
}
