/** The promises of the coordinators, read off the invariant of HostSafety.dfy. */
module HostPromises {
  import opened Common
  import opened IngressProtocol
  import opened IngressFence
  import opened IngressHistory
  import opened IngressRuns
  import opened IngressSafety
  import opened HostProtocol
  import opened HostSafety

  lemma Reachable(steps: seq<Step>, maximum: nat)
    requires CanRun(START, steps, maximum)
    ensures SystemInv(AfterRun(START, steps, maximum), maximum)
  {
    SystemInvInitially(maximum);
    RunKeepsSystemInv(START, steps, maximum);
  }

  /**
   A config reaches the agent's committed state or file, and a commit for it is ever sent, only after the
   control plane was marked (cutovers) or its prepare was recorded (the other two).
   */
  lemma CommitsFollowTheirRecord(steps: seq<Step>, maximum: nat, command: IngressCommand)
    requires CanRun(START, steps, maximum)
    requires var y := AfterRun(START, steps, maximum);
      || command in y.agent.commits || (OpCommit, command) in y.sent
      || y.agent.memory.committed == Some(command) || y.agent.disk.committed == Some(command)
    ensures var y := AfterRun(START, steps, maximum);
      && command.hostRevision in y.issued && y.issued[command.hostRevision].desired == command
      && (if y.issued[command.hostRevision].kind == Cutover then command.hostRevision in y.marked
          else command.hostRevision in y.prepared)
  {
    hide Inv, WorkerFits, HostFits, IssuedFits, RecordsFit;
    Reachable(steps, maximum);
    var y := AfterRun(START, steps, maximum);
    assert RequestFits(y, OpCommit, command);
  }

  /** Retirement never aborts anything. */
  lemma RetirementNeverAborts(steps: seq<Step>, maximum: nat, command: IngressCommand)
    requires CanRun(START, steps, maximum)
    requires (OpAbort, command) in AfterRun(START, steps, maximum).sent
    ensures var y := AfterRun(START, steps, maximum);
      command.hostRevision in y.issued && y.issued[command.hostRevision].kind != Retirement
  {
    hide Inv, WorkerFits, HostFits, IssuedFits, RecordsFit;
    Reachable(steps, maximum);
    assert RequestFits(AfterRun(START, steps, maximum), OpAbort, command);
  }

  /**
   A revision the server recorded as complete is at or below the agent's committed revision, and
   stays so whatever happens next.
   */
  lemma CompletedStaysCommitted(steps: seq<Step>, more: seq<Step>, maximum: nat, revision: nat)
    requires CanRun(START, steps, maximum) && CanRun(AfterRun(START, steps, maximum), more, maximum)
    requires revision in AfterRun(START, steps, maximum).completed
    ensures revision <= CommittedRevision(AfterRun(START, steps, maximum).agent)
    ensures CommittedRevision(AfterRun(START, steps, maximum).agent)
      <= CommittedRevision(AfterRun(AfterRun(START, steps, maximum), more, maximum).agent)
  {
    hide SystemInv, AfterRun, CanRun, Allowed, After;
    Reachable(steps, maximum);
    var y := AfterRun(START, steps, maximum);
    CompletedIsCommitted(y, maximum, revision);
    AgentIsSound(y, maximum);
    RunIsAgentRun(y, more, maximum);
    CommittedRevisionNeverFalls(y.agent, AgentActions(more), maximum, y.issued[revision].desired);
  }

  lemma AgentIsSound(y: System, maximum: nat)
    requires SystemInv(y, maximum)
    ensures Inv(y.agent, maximum)
  {
  }

  lemma CompletedIsCommitted(y: System, maximum: nat, revision: nat)
    requires SystemInv(y, maximum) && revision in y.completed
    ensures revision in y.issued && revision <= CommittedRevision(y.agent)
  {
    hide Durable, PhaseFits, NothingRevived, WorkerFits, HostFits, RequestFits, AgentFits;
    assert CompletedFits(y, revision);
    CommitsAreBelowCommitted(y.agent, maximum, y.issued[revision].desired);
  }

  lemma CommitsAreBelowCommitted(agent: World, maximum: nat, command: IngressCommand)
    requires Durable(agent, maximum) && command in agent.commits
    ensures command.hostRevision <= CommittedRevision(agent)
  {
    hide Durable, OrderedCommits;
    HistoryFixesCommitted(agent, maximum);
    var k :| 0 <= k < |agent.commits| && agent.commits[k] == command;
    LastIsHighest(agent.commits, k);
  }

  lemma LastIsHighest(commits: seq<IngressCommand>, k: nat)
    requires OrderedCommits(commits) && k < |commits|
    ensures commits[k].hostRevision <= commits[|commits| - 1].hostRevision
  {
    hide ValidIngressCommand;
  }

  // ----- Retirement -----

  /** When a retirement finishes, its config is the agent's committed one: nothing came after it. */
  lemma FinishedRetirementIsCurrent(y: System, worker: nat, took: bool, maximum: nat)
    requires worker in y.workers && y.workers[worker].stage == RecordFinish && y.workers[worker].task == Retire
    requires CanStep(y, Record(worker, true, took), maximum) && SystemInv(y, maximum)
    ensures y.agent.memory.committed == Some(y.workers[worker].transaction.desired)
    ensures y.workers[worker].transaction.subject !in RouteIds(y.workers[worker].transaction.desired.routes)
    ensures var z := AfterStep(y, Record(worker, true, took), maximum);
      y.workers[worker].transaction.desired.hostRevision in z.retired
  {
    hide Inv, ValidIngressCommand, IssuedFits, HostFits, AgentFits, RequestFits, WorkerFits, Recorded, CanRecord;
    var t := y.workers[worker].transaction;
    assert WorkerFits(y, y.workers[worker]);
    RecordedAsComplete(y, y.workers[worker]);
    CommittedIsAsked(y, maximum);
    assert CompletedFits(y, t.desired.hostRevision);
    HighestIsCommitted(y.agent, t.desired, maximum);
  }

  /** What the finishing worker's document says: its transaction is the host's, at the host's revision, and complete. */
  lemma RecordedAsComplete(y: System, w: Worker)
    requires HostFits(y) && IssuedFits(y) && WorkerFits(y, w)
    requires w.stage == RecordFinish && w.task == Retire && CanRecord(y.host, w)
    ensures var t := w.transaction;
      && t.kind == Retirement && t.desired.hostRevision == y.host.revision && t.desired.hostRevision in y.completed
      && t.desired.hostRevision in y.issued && y.issued[t.desired.hostRevision].desired == t.desired
      && t.subject !in RouteIds(t.desired.routes)
  {
  }

  /** The agent's committed config was asked for, so its revision is not above the host's. */
  lemma CommittedIsAsked(y: System, maximum: nat)
    requires SystemInv(y, maximum)
    ensures y.agent.memory.committed.Some? ==> y.agent.memory.committed.value.hostRevision <= y.host.revision
  {
    hide Inv, WorkerFits, HostFits, RecordsFit;
    assert y.agent.memory.committed.Some? ==> RequestFits(y, OpCommit, y.agent.memory.committed.value);
  }

  lemma HighestIsCommitted(agent: World, command: IngressCommand, maximum: nat)
    requires Inv(agent, maximum) && (OpCommit, command) in agent.acked
    requires agent.memory.committed.Some? ==> agent.memory.committed.value.hostRevision <= command.hostRevision
    ensures agent.memory.committed == Some(command)
  {
    hide Durable, PhaseFits, NothingRevived, OrderedCommits;
    HistoryFixesCommitted(agent, maximum);
    var k :| 0 <= k < |agent.commits| && agent.commits[k] == command;
    LastIsUnique(agent.commits, k);
  }

  lemma LastIsUnique(commits: seq<IngressCommand>, k: nat)
    requires OrderedCommits(commits) && k < |commits|
    requires commits[|commits| - 1].hostRevision <= commits[k].hostRevision
    ensures k == |commits| - 1
  {
    hide ValidIngressCommand;
  }

  /**
   After a retirement finished, no later run of servers and agent, with delayed, repeated or new
   requests, failures and restarts, makes the gateway serve that route at a revision the host had committed
   before the retirement.
   */
  lemma RetiredRouteIsGone(steps: seq<Step>, more: seq<Step>, maximum: nat, revision: nat, i: nat, k: nat,
                           r: IngressRoute, q: IngressRoute)
    requires CanRun(START, steps, maximum) && CanRun(AfterRun(START, steps, maximum), more, maximum)
    requires var y := AfterRun(START, steps, maximum);
      && revision in y.retired && revision in y.issued
      && i < k < |y.agent.commits| && y.agent.commits[k] == y.issued[revision].desired
      && r in y.agent.commits[i].routes && r.routeId == y.issued[revision].subject
    requires var z := AfterRun(AfterRun(START, steps, maximum), more, maximum);
      z.agent.serving.Some? && q in z.agent.serving.value.routes && q.routeId == r.routeId
    ensures r.revision < q.revision
  {
    hide Inv, WorkerFits, HostFits, RequestFits, AgentFits, Allowed, After;
    Reachable(steps, maximum);
    var y := AfterRun(START, steps, maximum);
    assert revision in y.issued && y.issued[revision].kind == Retirement;
    RunIsAgentRun(y, more, maximum);
    RetiredRouteStaysRetired(y.agent, AgentActions(more), maximum, i, k, r, q);
  }
}
