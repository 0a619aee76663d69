/**
 "Reconciliation never aborts a config it has sent Commit for"
 (internal/modules/applicationroute/biz/reconciliation.go:127-157): true of every run exactly when no two
 reconciliation calls are under way at once, whatever other coordinator calls overlap with them.
 */
module ReconciliationAborts {
  import opened Common
  import opened HostPromises
  import opened HostProtocol
  import opened HostSafety
  import opened IngressFence
  import opened IngressProtocol
  import opened IngressRuns
  import opened IngressSafety
  import StateFiles

  /** This worker's next move is to send an abort for a config whose commit is already on the channel. */
  predicate AbortsSentCommit(y: System, worker: nat, command: IngressCommand) {
    && worker in y.workers && y.workers[worker].task == Reconcile && y.workers[worker].stage == SendAbort
    && y.workers[worker].transaction.desired == command && (OpCommit, command) in y.sent
  }

  ghost predicate KeepsPromise(y: System) {
    forall worker, command :: !AbortsSentCommit(y, worker, command)
  }

  /** The reconciliation calls under way. */
  function Reconcilers(y: System): set<nat> {
    set n | n in y.workers && y.workers[n].task == Reconcile
  }

  /** A run in which at most `bound` reconciliation calls are under way at once; nothing else is restricted. */
  ghost predicate AtMost(bound: nat, y: System, steps: seq<Step>, maximum: nat)
    requires CanRun(y, steps, maximum)
    decreases |steps|
  {
    steps != [] ==>
      && (steps[0].Begin? && steps[0].task == Reconcile ==> |Reconcilers(y)| < bound)
      && AtMost(bound, AfterStep(y, steps[0], maximum), steps[1..], maximum)
  }

  // ----- One at a time -----

  /** Such a worker's copy is older than the recorded prepare. */
  lemma AbortAfterCommitNeedsStaleCopy(y: System, worker: nat, command: IngressCommand, maximum: nat)
    requires SystemInv(y, maximum) && AbortsSentCommit(y, worker, command)
    ensures y.workers[worker].transaction.status == Allocated && command.hostRevision in y.prepared
  {
    hide Inv, HostFits, IssuedFits, RecordsFit, AgentFits;
    assert WorkerFits(y, y.workers[worker]) && RequestFits(y, OpCommit, command);
  }

  /** At most one reconciliation call, and while it is unsettled its prepare is not on record. */
  ghost predicate Solo(y: System) {
    && (forall m, n :: m in Reconcilers(y) && n in Reconcilers(y) ==> m == n)
    && forall n :: n in y.workers ==> FreshCopy(y.workers[n], y.prepared)
  }

  predicate FreshCopy(w: Worker, prepared: set<nat>) {
    w.task == Reconcile && Unsettled(w.stage) ==> w.transaction.desired.hostRevision !in prepared
  }

  /** Only a reconciliation call records a reconciliation's prepare. */
  lemma RecordKeepsSolo(y: System, worker: nat, ok: bool, took: bool, maximum: nat)
    requires SystemInv(y, maximum) && CanStep(y, Record(worker, ok, took), maximum) && Solo(y)
    ensures Solo(AfterStep(y, Record(worker, ok, took), maximum))
  {
    hide Inv, IssuedFits, RecordsFit, AgentFits, RequestFits, ValidIngressCommand, HostFits, WorkerFits, CanRecord,
      FreshCopy, AfterRecord, Recorded;
    var w := y.workers[worker];
    var z := AfterStep(y, Record(worker, ok, took), maximum);
    assert WorkerFits(y, w);
    StaysInTask(w, ok);
    assert forall n :: n in z.workers ==> (n in Reconcilers(y) <==> y.workers[n].task == Reconcile);
    assert Reconcilers(z) == Reconcilers(y);
    forall n | n in z.workers ensures FreshCopy(z.workers[n], z.prepared) {
      assert WorkerFits(y, y.workers[n]) && FreshCopy(y.workers[n], y.prepared);
      if n == worker {
        SettledByRecord(w, ok, z.prepared);
      } else {
        if ok || took { MatchedKind(y, w); }
        KeepsFreshCopy(y, w, y.workers[n]);
      }
    }
  }

  lemma StaysInTask(w: Worker, ok: bool)
    requires Recording(w.stage)
    ensures AfterRecord(w, ok).task == w.task
  {
  }

  lemma SettledByRecord(w: Worker, ok: bool, prepared: set<nat>)
    requires Recording(w.stage)
    ensures FreshCopy(AfterRecord(w, ok), prepared)
  {
  }

  lemma MatchedKind(y: System, w: Worker)
    requires Recording(w.stage) && CanRecord(y.host, w)
    ensures y.host.transaction.Some? && Matches(y.host, w.transaction)
  {
  }

  /** Another worker's fresh copy is not of the transaction whose prepare is recorded, unless both reconcile it. */
  lemma KeepsFreshCopy(y: System, w: Worker, other: Worker)
    requires Recording(w.stage) && WorkerFits(y, w) && WorkerFits(y, other) && FreshCopy(other, y.prepared)
    requires w.task != Reconcile || other.task != Reconcile
    ensures w.stage == RecordPrepare ==> FreshCopy(other, y.prepared + {w.transaction.desired.hostRevision})
  {
  }

  lemma StepKeepsSolo(y: System, step: Step, maximum: nat)
    requires SystemInv(y, maximum) && CanStep(y, step, maximum) && Solo(y)
    requires step.Begin? && step.task == Reconcile ==> Reconcilers(y) == {}
    ensures Solo(AfterStep(y, step, maximum))
  {
    hide Inv, IssuedFits, RecordsFit, AgentFits, RequestFits, WorkerFits, ValidIngressCommand, Next, CanRecord,
      Registered;
    if step.Record? {
      RecordKeepsSolo(y, step.worker, step.ok, step.took, maximum);
    } else {
      forall n | n in Reconcilers(AfterStep(y, step, maximum)) && !(step.Begin? && n == step.worker)
        ensures n in Reconcilers(y) {
      }
    }
  }

  lemma {:induction false} RunKeepsSolo(y: System, steps: seq<Step>, bound: nat, maximum: nat)
    requires SystemInv(y, maximum) && CanRun(y, steps, maximum) && Solo(y)
    requires bound <= 1 && AtMost(bound, y, steps, maximum)
    ensures Solo(AfterRun(y, steps, maximum))
    decreases |steps|
  {
    hide SystemInv, CanStep, AfterStep, Solo, Reconcilers;
    if steps != [] {
      StepKeepsSolo(y, steps[0], maximum);
      StepKeepsSystemInv(y, steps[0], maximum);
      RunKeepsSolo(AfterStep(y, steps[0], maximum), steps[1..], bound, maximum);
    }
  }

  /** With reconciliation calls one at a time, none aborts a config it sent a commit for. */
  lemma ReconciliationNeverAbortsCommitted(steps: seq<Step>, bound: nat, maximum: nat)
    requires CanRun(START, steps, maximum) && bound <= 1 && AtMost(bound, START, steps, maximum)
    ensures KeepsPromise(AfterRun(START, steps, maximum))
  {
    hide SystemInv, AfterRun, CanRun, AtMost;
    SystemInvInitially(maximum);
    Reachable(steps, maximum);
    RunKeepsSolo(START, steps, bound, maximum);
    var y := AfterRun(START, steps, maximum);
    forall worker, command ensures !AbortsSentCommit(y, worker, command) {
      assert worker in y.workers ==> FreshCopy(y.workers[worker], y.prepared);
      if AbortsSentCommit(y, worker, command) { AbortAfterCommitNeedsStaleCopy(y, worker, command, maximum); }
    }
  }

  // ----- Two at a time -----

  lemma RunCons(y: System, step: Step, rest: seq<Step>, bound: nat, maximum: nat)
    requires CanStep(y, step, maximum) && CanRun(AfterStep(y, step, maximum), rest, maximum)
    requires AtMost(bound, AfterStep(y, step, maximum), rest, maximum)
    requires step.Begin? ==> |Reconcilers(y)| < bound
    ensures CanRun(y, [step] + rest, maximum) && AtMost(bound, y, [step] + rest, maximum)
    ensures AfterRun(y, [step] + rest, maximum) == AfterRun(AfterStep(y, step, maximum), rest, maximum)
  {
    hide CanStep, AfterStep, Reconcilers;
    assert ([step] + rest)[1..] == rest;
  }

  lemma NoSteps(y: System, bound: nat, maximum: nat)
    ensures CanRun(y, [], maximum) && AtMost(bound, y, [], maximum) && AfterRun(y, [], maximum) == y
  {
  }

  lemma {:induction false} RunConcat(y: System, first: seq<Step>, second: seq<Step>, bound: nat, maximum: nat)
    requires CanRun(y, first, maximum) && CanRun(AfterRun(y, first, maximum), second, maximum)
    requires AtMost(bound, y, first, maximum) && AtMost(bound, AfterRun(y, first, maximum), second, maximum)
    ensures CanRun(y, first + second, maximum) && AtMost(bound, y, first + second, maximum)
    ensures AfterRun(y, first + second, maximum) == AfterRun(AfterRun(y, first, maximum), second, maximum)
    decreases |first|
  {
    hide CanStep, AfterStep, Reconcilers;
    if first == [] {
      assert first + second == second;
    } else {
      RunConcat(AfterStep(y, first[0], maximum), first[1..], second, bound, maximum);
      assert (first + second)[1..] == first[1..] + second;
    }
  }

  /** Where the agent is left by its answer to the first prepare, and by its refusal of the second. */
  function PreparedAgent(command: IngressCommand): World {
    World(Holding(command), Holding(command), Some(command), Idle, [], {(OpPrepare, command)}, {})
  }

  function RefusingAgent(command: IngressCommand): World {
    World(EMPTY, EMPTY, None, Idle, [], {(OpPrepare, command)}, {(OpPrepare, command)})
  }

  /** Two workers have begun reconciling the same fresh transaction, and the first has asked for its prepare. */
  function TwoWorkers(command: IngressCommand, subject: string, agent: World): System {
    var t := Transaction(Reconciliation, subject, command, Allocated);
    System(Host(1, [], Some(t)), map[0 := Worker(Reconcile, AwaitPrepare, t), 1 := Worker(Reconcile, SendPrepare, t)],
           {(OpPrepare, command)}, agent, map[1 := t], {}, {}, {}, {})
  }

  /** The first has recorded its prepare and sent the commit; the second has asked for a prepare of its own. */
  function CommitOnItsWay(command: IngressCommand, subject: string, agent: World): System {
    var t := Transaction(Reconciliation, subject, command, Allocated);
    var prepared := t.(status := Prepared);
    System(Host(1, [], Some(prepared)),
           map[0 := Worker(Reconcile, AwaitCommit, prepared), 1 := Worker(Reconcile, AwaitPrepare, t)],
           {(OpPrepare, command), (OpCommit, command)}, agent, map[1 := t], {1}, {}, {}, {})
  }

  lemma TwoWorkersBegin(command: IngressCommand, subject: string, maximum: nat) returns (steps: seq<Step>)
    requires ValidIngressCommand(command) && command.hostRevision == 1
    ensures CanRun(START, steps, maximum) && AtMost(2, START, steps, maximum)
    ensures AfterRun(START, steps, maximum) == TwoWorkers(command, subject, INITIAL)
  {
    hide ValidIngressCommand, CanRun, AfterRun, AtMost;
    var allocate := Allocate(Reconciliation, subject, command);
    var y1 := AfterStep(START, allocate, maximum);
    var y2 := AfterStep(y1, Step.Begin(0, Reconcile), maximum);
    var y3 := AfterStep(y2, Step.Begin(1, Reconcile), maximum);
    assert AfterStep(y3, Send(0), maximum) == TwoWorkers(command, subject, INITIAL);
    assert Reconcilers(y1) == {} && Reconcilers(y2) == {0};
    NoSteps(AfterStep(y3, Send(0), maximum), 2, maximum);
    RunCons(y3, Send(0), [], 2, maximum);
    var tail := [Send(0)] + [];
    RunCons(y2, Step.Begin(1, Reconcile), tail, 2, maximum);
    tail := [Step.Begin(1, Reconcile)] + tail;
    RunCons(y1, Step.Begin(0, Reconcile), tail, 2, maximum);
    tail := [Step.Begin(0, Reconcile)] + tail;
    RunCons(START, allocate, tail, 2, maximum);
    steps := [allocate] + tail;
  }

  /** A run of the agent alone is a run of the system, if what it receives was sent. */
  lemma {:induction false} AgentRuns(y: System, actions: seq<IngressRuns.Action>, maximum: nat)
    returns (steps: seq<Step>)
    requires Allowed(y.agent, actions, maximum)
    requires forall i :: 0 <= i < |actions| && actions[i].Receive? ==> (actions[i].op, actions[i].command) in y.sent
    ensures CanRun(y, steps, maximum) && AtMost(2, y, steps, maximum)
    ensures AfterRun(y, steps, maximum) == y.(agent := After(y.agent, actions, maximum))
    decreases |actions|
  {
    hide Enabled, Next, Reconcilers;
    if actions == [] {
      steps := [];
    } else {
      var z := AfterStep(y, Agent(actions[0]), maximum);
      steps := AgentRuns(z, actions[1..], maximum);
      RunCons(y, Agent(actions[0]), steps, 2, maximum);
      steps := [Agent(actions[0])] + steps;
    }
  }

  /** The agent answers the first prepare of all. */
  lemma FirstPrepare(command: IngressCommand, maximum: nat) returns (actions: seq<IngressRuns.Action>)
    requires ValidIngressCommand(command) && |RouteIds(command.routes)| <= maximum
    ensures Allowed(INITIAL, actions, maximum)
    ensures After(INITIAL, actions, maximum) == PreparedAgent(command)
    ensures forall i :: 0 <= i < |actions| && actions[i].Receive? ==>
      actions[i].op == OpPrepare && actions[i].command == command
  {
    hide ValidIngressCommand, CandidateRefusal, Allowed, After, LateOnly;
    FreshCandidate(command, maximum);
    actions := UndisturbedPrepare(INITIAL, command, maximum);
  }

  /** It then refuses the second: the backend fails its probe, so the gateway is cleared and the config dropped. */
  lemma SecondPrepare(command: IngressCommand, maximum: nat) returns (actions: seq<IngressRuns.Action>)
    requires ValidIngressCommand(command) && command.probeRouteIds != []
    ensures Allowed(PreparedAgent(command), actions, maximum)
    ensures After(PreparedAgent(command), actions, maximum) == RefusingAgent(command)
    ensures forall i :: 0 <= i < |actions| && actions[i].Receive? ==>
      actions[i].op == OpPrepare && actions[i].command == command
  {
    hide ValidIngressCommand, CandidateRefusal;
    var receive := IngressRuns.Action.Receive(OpPrepare, command, StateFiles.Stored);
    var drop := StoreAbort(StateFiles.Stored);
    var w1 := Next(PreparedAgent(command), receive, maximum);
    var w2 := Next(w1, Apply(Accepted, true), maximum);
    var w3 := Next(w2, Probe(Refused), maximum);
    var w4 := Next(w3, Restore(Accepted, true), maximum);
    AllowedCons(w4, drop, [], maximum);
    var tail := [drop] + [];
    AllowedCons(w3, Restore(Accepted, true), tail, maximum);
    tail := [Restore(Accepted, true)] + tail;
    AllowedCons(w2, Probe(Refused), tail, maximum);
    tail := [Probe(Refused)] + tail;
    AllowedCons(w1, Apply(Accepted, true), tail, maximum);
    tail := [Apply(Accepted, true)] + tail;
    AllowedCons(PreparedAgent(command), receive, tail, maximum);
    actions := [receive] + tail;
  }

  lemma FirstWorkerCommits(command: IngressCommand, subject: string, maximum: nat) returns (steps: seq<Step>)
    requires ValidIngressCommand(command) && command.hostRevision == 1
    ensures var y := TwoWorkers(command, subject, PreparedAgent(command));
      && CanRun(y, steps, maximum) && AtMost(2, y, steps, maximum)
      && AfterRun(y, steps, maximum) == CommitOnItsWay(command, subject, PreparedAgent(command))
  {
    hide ValidIngressCommand, Next, Reconcilers, CanRun, AfterRun, AtMost;
    var y := TwoWorkers(command, subject, PreparedAgent(command));
    var y1 := AfterStep(y, Step.Receive(0, Accepted), maximum);
    var y2 := AfterStep(y1, Record(0, true, true), maximum);
    var y3 := AfterStep(y2, Send(0), maximum);
    assert AfterStep(y3, Send(1), maximum) == CommitOnItsWay(command, subject, PreparedAgent(command));
    NoSteps(AfterStep(y3, Send(1), maximum), 2, maximum);
    RunCons(y3, Send(1), [], 2, maximum);
    var tail := [Send(1)] + [];
    RunCons(y2, Send(0), tail, 2, maximum);
    tail := [Send(0)] + tail;
    RunCons(y1, Record(0, true, true), tail, 2, maximum);
    tail := [Record(0, true, true)] + tail;
    RunCons(y, Step.Receive(0, Accepted), tail, 2, maximum);
    steps := [Step.Receive(0, Accepted)] + tail;
  }

  lemma SecondWorkerAborts(command: IngressCommand, subject: string, maximum: nat) returns (steps: seq<Step>)
    ensures var y := CommitOnItsWay(command, subject, RefusingAgent(command));
      && CanRun(y, steps, maximum) && AtMost(2, y, steps, maximum)
      && AbortsSentCommit(AfterRun(y, steps, maximum), 1, command)
  {
    hide ValidIngressCommand, Next, Reconcilers;
    RunCons(CommitOnItsWay(command, subject, RefusingAgent(command)), Step.Receive(1, Refused), [], 2, maximum);
    steps := [Step.Receive(1, Refused)] + [];
  }

  /**
   With two at once the promise fails: the first worker has sent the commit when the agent, asked again by the second,
   finds the backend unhealthy and refuses; the second, whose copy is older than the recorded prepare, then aborts.
   */
  lemma ConcurrentReconcilersAbortCommitted(command: IngressCommand, subject: string, maximum: nat)
    returns (steps: seq<Step>)
    requires ValidIngressCommand(command) && command.hostRevision == 1 && command.probeRouteIds != []
    requires |RouteIds(command.routes)| <= maximum
    ensures CanRun(START, steps, maximum) && AtMost(2, START, steps, maximum)
    ensures AbortsSentCommit(AfterRun(START, steps, maximum), 1, command)
  {
    hide ValidIngressCommand, CanRun, AfterRun, AtMost, Next, Allowed, After, AbortsSentCommit;
    steps := TwoWorkersBegin(command, subject, maximum);
    var actions := FirstPrepare(command, maximum);
    var more := AgentRuns(TwoWorkers(command, subject, INITIAL), actions, maximum);
    RunConcat(START, steps, more, 2, maximum);
    steps := steps + more;
    more := FirstWorkerCommits(command, subject, maximum);
    RunConcat(START, steps, more, 2, maximum);
    steps := steps + more;
    actions := SecondPrepare(command, maximum);
    more := AgentRuns(CommitOnItsWay(command, subject, PreparedAgent(command)), actions, maximum);
    RunConcat(START, steps, more, 2, maximum);
    steps := steps + more;
    more := SecondWorkerAborts(command, subject, maximum);
    RunConcat(START, steps, more, 2, maximum);
    steps := steps + more;
  }

  // ----- Exactly when -----

  lemma {:induction false} AtMostWidens(y: System, steps: seq<Step>, few: nat, many: nat, maximum: nat)
    requires CanRun(y, steps, maximum) && AtMost(few, y, steps, maximum) && few <= many
    ensures AtMost(many, y, steps, maximum)
    decreases |steps|
  {
    hide CanStep, AfterStep, Reconcilers;
    if steps != [] {
      AtMostWidens(AfterStep(y, steps[0], maximum), steps[1..], few, many, maximum);
    }
  }

  /** All runs with at most `bound` reconciliation calls at once keep the promise exactly for bounds up to one. */
  lemma PromiseHoldsForOneReconciler(bound: nat, maximum: nat)
    requires maximum >= 1
    ensures bound <= 1 <==>
      forall steps :: CanRun(START, steps, maximum) && AtMost(bound, START, steps, maximum) ==>
        KeepsPromise(AfterRun(START, steps, maximum))
  {
    hide CanRun, AfterRun, AtMost, AbortsSentCommit, ValidIngressCommand;
    if bound <= 1 {
      forall steps | CanRun(START, steps, maximum) && AtMost(bound, START, steps, maximum)
        ensures KeepsPromise(AfterRun(START, steps, maximum))
      {
        ReconciliationNeverAbortsCommitted(steps, bound, maximum);
      }
    } else {
      var _, _, probed := ValidCommandsExist(1, "route", 1);
      OneRouteId(probed.routes[0]);
      var steps := ConcurrentReconcilersAbortCommitted(probed, "route", maximum);
      AtMostWidens(START, steps, 2, bound, maximum);
      assert !KeepsPromise(AfterRun(START, steps, maximum));
    }
  }
}
