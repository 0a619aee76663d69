/**
 The coordinators' methods (internal/modules/applicationroute/biz/cutover.go:128-246,
 reconciliation.go:97-158, retirement.go:256-289), proved to make exactly the moves of the worker
 automaton of HostProtocol.dfy. The database and the gateway answer as they please.
 */
module Coordinators {
  import opened Common
  import opened IngressProtocol
  import opened IngressRuns
  import opened HostProtocol

  /** What a coordinator call does and learns, in order. */
  datatype Event =
    | Requested(op: Op, command: IngressCommand)
    | Answered(reply: Reply)
    | Updated(ok: bool)

  function Play(w: Worker, e: Event): Option<Worker> {
    match e
    case Requested(op, command) =>
      if w.stage in {SendPrepare, SendAbort, SendCommit} && op == Request(w.stage) && command == w.transaction.desired
      then Some(AfterSend(w)) else None
    case Answered(reply) => if Awaiting(w.stage) then Some(AfterReply(w, reply)) else None
    case Updated(ok) => if Recording(w.stage) then Some(AfterRecord(w, ok)) else None
  }

  function PlayAll(w: Worker, events: seq<Event>): Option<Worker>
    decreases |events|
  {
    if events == [] then Some(w)
    else
      var n := |events| - 1;
      match PlayAll(w, events[..n])
      case None => None
      case Some(v) => Play(v, events[n])
  }

  lemma PlayNext(w: Worker, events: seq<Event>, e: Event)
    ensures PlayAll(w, events + [e]) == match PlayAll(w, events) case None => None case Some(v) => Play(v, e)
  {
    hide Play;
    assert (events + [e])[..|events|] == events;
  }

  lemma PlayNothing(w: Worker)
    ensures PlayAll(w, []) == Some(w)
  {
  }

  /** A whole call: the automaton accepts the events and has stopped. */
  predicate Ran(task: Task, t: Transaction, events: seq<Event>) {
    var w := PlayAll(Started(task, t), events);
    w.Some? && w.value.stage == Done
  }

  /** The last event is a successful update made in `stage`. */
  predicate EndedWith(task: Task, t: Transaction, events: seq<Event>, stage: Stage) {
    && events != [] && events[|events| - 1] == Updated(true)
    && var w := PlayAll(Started(task, t), events[..|events| - 1]);
       w.Some? && w.value.stage == stage
  }

  // ----- What a call may look like, told by its events alone -----

  function Asked(op: Op, t: Transaction, reply: Reply): seq<Event> { [Requested(op, t.desired), Answered(reply)] }

  /** The events of a retirement in which nothing fails. */
  function RetirementPlan(t: Transaction): seq<Event> {
    (if t.status == Allocated then Asked(OpPrepare, t, Accepted) + [Updated(true)] else [])
    + (if t.status != GatewayCommitted then Asked(OpCommit, t, Accepted) + [Updated(true)] else [])
    + [Updated(true)]
  }

  function ReconciliationPlan(t: Transaction): seq<Event> {
    (if t.status == Allocated then Asked(OpPrepare, t, Accepted) + [Updated(true)] else [])
    + Asked(OpCommit, t, Accepted) + [Updated(true)]
  }

  function CutoverPlan(op: Op, t: Transaction): seq<Event> { Asked(op, t, Accepted) + [Updated(true)] }

  /** The call followed the plan up to an answer or update that failed. */
  predicate FailedOn(plan: seq<Event>, events: seq<Event>) {
    && 0 < |events| <= |plan| && events[..|events| - 1] == plan[..|events| - 1]
    && match events[|events| - 1]
       case Requested(_, _) => false
       case Answered(reply) => reply != Accepted && plan[|events| - 1].Answered?
       case Updated(ok) => !ok && plan[|events| - 1].Updated?
  }

  /** What the last event of such a call is reported as. */
  function Cause(events: seq<Event>): Failure
    requires events != []
  {
    match events[|events| - 1] case Answered(reply) => ErrGatewayReply(reply) case _ => ErrStore
  }

  /** The plan still has `rest` to come after these events. */
  predicate OnPlan(plan: seq<Event>, events: seq<Event>, rest: seq<Event>) { plan == events + rest }

  lemma AnswerOnPlan(plan: seq<Event>, events: seq<Event>, op: Op, t: Transaction, reply: Reply, rest: seq<Event>)
    requires OnPlan(plan, events, Asked(op, t, Accepted) + rest)
    ensures reply == Accepted ==> OnPlan(plan, events + Asked(op, t, reply), rest)
    ensures reply != Accepted ==> FailedOn(plan, events + Asked(op, t, reply))
    ensures Cause(events + Asked(op, t, reply)) == ErrGatewayReply(reply)
  {
    var after := events + Asked(op, t, reply);
    assert after[..|after| - 1] == plan[..|after| - 1];
  }

  lemma UpdateOnPlan(plan: seq<Event>, events: seq<Event>, ok: bool, rest: seq<Event>)
    requires OnPlan(plan, events, [Updated(true)] + rest)
    ensures ok ==> OnPlan(plan, events + [Updated(ok)], rest)
    ensures !ok ==> FailedOn(plan, events + [Updated(ok)])
    ensures Cause(events + [Updated(ok)]) == ErrStore
  {
    var after := events + [Updated(ok)];
    assert after[..|after| - 1] == plan[..|after| - 1];
  }

  lemma PlanEnds(plan: seq<Event>, events: seq<Event>)
    requires OnPlan(plan, events, [])
    ensures plan == events
  {
  }

  datatype Failure = ErrConflict | ErrAmbiguous | ErrGatewayReply(reply: Reply) | ErrStore

  /** The transaction store and the gateway, as the coordinators see them. */
  class Environment {
    constructor () {}

    method Update(ghost w: Worker, ghost events: seq<Event>) returns (ok: bool, ghost after: seq<Event>)
      ensures after == events + [Updated(ok)]
      ensures PlayAll(w, after) == match PlayAll(w, events) case None => None case Some(v) => Play(v, Updated(ok))
    {
      ok := *;
      after := events + [Updated(ok)];
      PlayNext(w, events, Updated(ok));
    }

    /** One gateway call: the request goes out, then an answer or an error comes back. */
    method Call(op: Op, command: IngressCommand, ghost w: Worker, ghost events: seq<Event>)
      returns (reply: Reply, ghost after: seq<Event>)
      ensures after == events + [Requested(op, command), Answered(reply)]
      ensures PlayAll(w, after) ==
        match PlayAll(w, events)
        case None => None
        case Some(v) =>
          match Play(v, Requested(op, command)) case None => None case Some(u) => Play(u, Answered(reply))
    {
      hide Play;
      if * { reply := Accepted; } else if * { reply := Refused; } else { reply := Unavailable; }
      after := events + [Requested(op, command), Answered(reply)];
      assert after == events + [Requested(op, command)] + [Answered(reply)];
      PlayNext(w, events, Requested(op, command));
      PlayNext(w, events + [Requested(op, command)], Answered(reply));
    }
  }

  /** `RetirementCoordinator.Retire`, after `Begin` returned the transaction `t`. */
  method RetireRoute(environment: Environment, t: Transaction)
    returns (result: Result<bool, Failure>, ghost events: seq<Event>)
    ensures Ran(Retire, t, events)
    ensures result == Ok(true) || result.Err?
    ensures result == Ok(true) <==> EndedWith(Retire, t, events, RecordFinish)
    ensures if result.Ok? then events == RetirementPlan(t)
      else FailedOn(RetirementPlan(t), events) && result.error == Cause(events)
  {
    hide PlayAll, FailedOn, Cause, OnPlan, Asked, RetirementPlan, ToCommit;
    ghost var w, plan := Started(Retire, t), RetirementPlan(t);
    events := [];
    PlayNothing(w);
    RetirementStarts(t);
    var prepared := IsPrepared(t);
    if !prepared {
      var reply;
      reply, events := environment.Call(OpPrepare, t.desired, w, events);
      AnswerOnPlan(plan, [], OpPrepare, t, reply, [Updated(true)] + ToCommit(t));
      AskedMeans(OpPrepare, t, reply);
      assert events == [] + Asked(OpPrepare, t, reply);
      if reply != Accepted { return Err(ErrGatewayReply(reply)), events; }
      var ok;
      ghost var unrecorded := events;
      ok, events := environment.Update(w, events);
      UpdateOnPlan(plan, unrecorded, ok, ToCommit(t));
      if !ok { return Err(ErrStore), events; }
      prepared := true;
    }
    result, events := CommitRetirement(environment, t, w, events);
  }

  /** A retirement whose prepare is on record. */
  method CommitRetirement(environment: Environment, t: Transaction, ghost w: Worker, ghost before: seq<Event>)
    returns (result: Result<bool, Failure>, ghost events: seq<Event>)
    requires w == Started(Retire, t) && OnPlan(RetirementPlan(t), before, ToCommit(t))
    requires PlayAll(w, before).Some? && PlayAll(w, before).value.task == Retire
    requires PlayAll(w, before).value.transaction.desired == t.desired
    requires PlayAll(w, before).value.stage == if t.status == GatewayCommitted then RecordFinish else SendCommit
    ensures Ran(Retire, t, events)
    ensures result == Ok(true) || result.Err?
    ensures result == Ok(true) <==> EndedWith(Retire, t, events, RecordFinish)
    ensures if result.Ok? then events == RetirementPlan(t)
      else FailedOn(RetirementPlan(t), events) && result.error == Cause(events)
  {
    hide PlayAll, FailedOn, Cause, OnPlan, Asked, RetirementPlan;
    ghost var plan, toFinish := RetirementPlan(t), [Updated(true)] + [];
    events := before;
    var gatewayCommitted := t.status == GatewayCommitted;
    if !gatewayCommitted {
      var reply;
      reply, events := environment.Call(OpCommit, t.desired, w, before);
      AnswerOnPlan(plan, before, OpCommit, t, reply, [Updated(true)] + toFinish);
      AskedMeans(OpCommit, t, reply);
      if reply != Accepted { return Err(ErrGatewayReply(reply)), events; }
      var ok;
      ghost var unrecorded := events;
      ok, events := environment.Update(w, events);
      UpdateOnPlan(plan, unrecorded, ok, toFinish);
      if !ok { return Err(ErrStore), events; }
      gatewayCommitted := true;
    }
    assert PlayAll(w, events).Some? && PlayAll(w, events).value.stage == RecordFinish;
    ghost var unfinished := events;
    var ok;
    ok, events := environment.Update(w, events);
    UpdateOnPlan(plan, unfinished, ok, []);
    assert events[..|events| - 1] == unfinished;
    if !ok { return Err(ErrStore), events; }
    PlanEnds(plan, events);
    return Ok(true), events;
  }

  /** What is left of a retirement's plan once its prepare is on record. */
  function ToCommit(t: Transaction): seq<Event> {
    var toFinish := [Updated(true)] + [];
    if t.status == GatewayCommitted then toFinish else Asked(OpCommit, t, Accepted) + ([Updated(true)] + toFinish)
  }

  lemma RetirementStarts(t: Transaction)
    ensures OnPlan(RetirementPlan(t), [],
                   if t.status == Allocated then Asked(OpPrepare, t, Accepted) + ([Updated(true)] + ToCommit(t))
                   else ToCommit(t))
  {
  }

  lemma AskedMeans(op: Op, t: Transaction, reply: Reply)
    ensures Asked(op, t, reply) == [Requested(op, t.desired), Answered(reply)]
  {
  }

  lemma ReconciliationStarts(t: Transaction)
    ensures var toCommit := Asked(OpCommit, t, Accepted) + ([Updated(true)] + []);
      OnPlan(ReconciliationPlan(t), [],
             if t.status == Allocated then Asked(OpPrepare, t, Accepted) + ([Updated(true)] + toCommit) else toCommit)
  {
  }

  predicate PrepareRefused(t: Transaction, events: seq<Event>) {
    t.status == Allocated && |events| >= 2 && events[..2] == Asked(OpPrepare, t, Refused)
  }

  /**
   A reconciliation ends with the plan, or on its first failure: what the store did not take is an error, an answer
   that leaves the gateway's state open is not, and only a refused prepare is followed by an abort, to be recorded.
   */
  predicate Reconciled(t: Transaction, result: Result<bool, Failure>, events: seq<Event>) {
    var plan, undo := ReconciliationPlan(t), Asked(OpAbort, t, Accepted);
    if PrepareRefused(t, events) then
      match result
      case Ok(done) => done && events[2..] == undo + [Updated(true)]
      case Err(ErrStore) => events[2..] == undo + [Updated(false)]
      case Err(ErrAmbiguous) => FailedOn(undo, events[2..])
      case Err(_) => false
    else
      match result
      case Ok(done) => if done then events == plan else FailedOn(plan, events) && Cause(events) != ErrStore
      case Err(error) => FailedOn(plan, events) && error == ErrStore == Cause(events)
  }

  /** `ReconciliationCoordinator.Reconcile`, after `Begin` returned the transaction `t`. */
  method ReconcileRoute(environment: Environment, t: Transaction)
    returns (result: Result<bool, Failure>, ghost events: seq<Event>)
    ensures Ran(Reconcile, t, events)
    ensures result == Ok(true) <==>
      EndedWith(Reconcile, t, events, RecordCommit) || EndedWith(Reconcile, t, events, RecordAbort)
    ensures Reconciled(t, result, events)
  {
    hide PlayAll, FailedOn, Cause, OnPlan, Asked, ReconciliationPlan, Reconciled;
    ghost var w, plan := Started(Reconcile, t), ReconciliationPlan(t);
    ghost var toCommit := Asked(OpCommit, t, Accepted) + ([Updated(true)] + []);
    events := [];
    PlayNothing(w);
    ReconciliationStarts(t);
    var prepared := IsPrepared(t);
    if !prepared {
      var reply;
      reply, events := environment.Call(OpPrepare, t.desired, w, events);
      AnswerOnPlan(plan, [], OpPrepare, t, reply, [Updated(true)] + toCommit);
      AskedMeans(OpPrepare, t, reply);
      AskedMeans(OpPrepare, t, Refused);
      assert events == [] + Asked(OpPrepare, t, reply);
      assert events[1] == Answered(reply);
      if reply != Accepted {
        if reply == Unavailable {
          LeftOpen(t, events);
          return Ok(false), events;
        }
        result, events := UndoRefused(environment, t, w, events);
        return;
      }
      ghost var unrecorded := events;
      var ok;
      ok, events := environment.Update(w, events);
      UpdateOnPlan(plan, unrecorded, ok, toCommit);
      assert events[..|events| - 1] == unrecorded;
      if !ok {
        NotRecorded(t, events);
        return Err(ErrStore), events;
      }
      prepared := true;
    }
    result, events := CommitPrepared(environment, t, w, events);
  }

  /** The second half of a reconciliation whose prepare is on record. */
  method CommitPrepared(environment: Environment, t: Transaction, ghost w: Worker, ghost before: seq<Event>)
    returns (result: Result<bool, Failure>, ghost events: seq<Event>)
    requires w == Started(Reconcile, t)
    requires OnPlan(ReconciliationPlan(t), before, Asked(OpCommit, t, Accepted) + ([Updated(true)] + []))
    requires PlayAll(w, before).Some? && PlayAll(w, before).value.stage == SendCommit
    requires PlayAll(w, before).value.task == Reconcile && PlayAll(w, before).value.transaction.desired == t.desired
    requires t.status == Allocated ==> |before| > 1 && before[1] == Answered(Accepted)
    ensures Ran(Reconcile, t, events) && Reconciled(t, result, events)
    ensures result == Ok(true) <==>
      EndedWith(Reconcile, t, events, RecordCommit) || EndedWith(Reconcile, t, events, RecordAbort)
  {
    hide PlayAll, FailedOn, Cause, OnPlan, Asked, ReconciliationPlan, Reconciled;
    ghost var plan := ReconciliationPlan(t);
    var reply;
    reply, events := environment.Call(OpCommit, t.desired, w, before);
    AnswerOnPlan(plan, before, OpCommit, t, reply, [Updated(true)] + []);
    AskedMeans(OpCommit, t, reply);
    AskedMeans(OpPrepare, t, Refused);
    assert t.status == Allocated ==> events[..2][1] == Answered(Accepted);
    if reply != Accepted {
      LeftOpen(t, events);
      return Ok(false), events;
    }
    ghost var unrecorded := events;
    var ok;
    ok, events := environment.Update(w, events);
    UpdateOnPlan(plan, unrecorded, ok, []);
    assert events[..|events| - 1] == unrecorded;
    assert t.status == Allocated ==> events[..2][1] == Answered(Accepted);
    if !ok {
      NotRecorded(t, events);
      return Err(ErrStore), events;
    }
    PlanEnds(plan, events);
    PlanCompleted(t);
    return Ok(true), events;
  }

  /** What follows a refused prepare: the abort, and its record. */
  method UndoRefused(environment: Environment, t: Transaction, ghost w: Worker, ghost before: seq<Event>)
    returns (result: Result<bool, Failure>, ghost events: seq<Event>)
    requires t.status == Allocated && w == Started(Reconcile, t) && before == Asked(OpPrepare, t, Refused)
    requires PlayAll(w, before).Some? && PlayAll(w, before).value.stage == SendAbort
    requires PlayAll(w, before).value.task == Reconcile && PlayAll(w, before).value.transaction.desired == t.desired
    ensures Ran(Reconcile, t, events) && Reconciled(t, result, events)
    ensures result == Ok(true) <==>
      EndedWith(Reconcile, t, events, RecordCommit) || EndedWith(Reconcile, t, events, RecordAbort)
  {
    hide PlayAll, ReconciliationPlan;
    var undone;
    undone, events := environment.Call(OpAbort, t.desired, w, before);
    assert events[2..] == Asked(OpAbort, t, undone) && events[..2] == before;
    if undone != Accepted { return Err(ErrAmbiguous), events; }
    ghost var unrecorded := events;
    var ok;
    ok, events := environment.Update(w, events);
    assert events[..|events| - 1] == unrecorded;
    assert events[2..] == Asked(OpAbort, t, Accepted) + [Updated(ok)] && events[..2] == before;
    if !ok { return Err(ErrStore), events; }
    return Ok(true), events;
  }

  lemma LeftOpen(t: Transaction, events: seq<Event>)
    requires FailedOn(ReconciliationPlan(t), events) && Cause(events) != ErrStore
    requires !PrepareRefused(t, events)
    ensures Reconciled(t, Ok(false), events)
  {
  }

  lemma NotRecorded(t: Transaction, events: seq<Event>)
    requires FailedOn(ReconciliationPlan(t), events) && Cause(events) == ErrStore
    requires !PrepareRefused(t, events)
    ensures Reconciled(t, Err(ErrStore), events)
  {
  }

  lemma PlanCompleted(t: Transaction)
    ensures Reconciled(t, Ok(true), ReconciliationPlan(t))
  {
    if t.status == Allocated { assert ReconciliationPlan(t)[1] == Answered(Accepted); }
  }

  /** Whatever fails in a cutover's prepare, an abort follows, and its own failure leaves the outcome ambiguous. */
  predicate PreparedOrUndone(t: Transaction, result: Result<(), Failure>, events: seq<Event>) {
    var plan, n := CutoverPlan(OpPrepare, t), |events| - 2;
    if result.Ok? then events == plan
    else
      && n >= 0 && events[n] == Requested(OpAbort, t.desired) && events[n + 1].Answered? && FailedOn(plan, events[..n])
      && result.error == if events[n + 1] == Answered(Accepted) then Cause(events[..n]) else ErrAmbiguous
  }

  /** `CutoverCoordinator.Prepare`, after `Get` returned the transaction `t`. */
  method PrepareCutover(environment: Environment, t: Transaction)
    returns (result: Result<(), Failure>, ghost events: seq<Event>)
    ensures Ran(CutoverPrepare, t, events)
    ensures result.Ok? <==> EndedWith(CutoverPrepare, t, events, RecordPrepare)
    ensures IsControlPlaneCommitted(t) ==> events == [] && result == Err(ErrConflict)
    ensures !IsControlPlaneCommitted(t) ==> PreparedOrUndone(t, result, events)
  {
    hide PlayAll;
    ghost var w := Started(CutoverPrepare, t);
    events := [];
    PlayNothing(w);
    if IsControlPlaneCommitted(t) { return Err(ErrConflict), events; }
    var reply;
    reply, events := environment.Call(OpPrepare, t.desired, w, events);
    if reply != Accepted {
      var undone;
      undone, events := environment.Call(OpAbort, t.desired, w, events);
      if undone != Accepted { return Err(ErrAmbiguous), events; }
      return Err(ErrGatewayReply(reply)), events;
    }
    ghost var unrecorded := events;
    var ok;
    ok, events := environment.Update(w, events);
    assert events[..|events| - 1] == unrecorded;
    if !ok {
      var undone;
      undone, events := environment.Call(OpAbort, t.desired, w, events);
      if undone != Accepted { return Err(ErrAmbiguous), events; }
      return Err(ErrStore), events;
    }
    return Ok(()), events;
  }

  /** `CutoverCoordinator.Commit`, after `Get` returned the transaction `t`. */
  method CommitCutover(environment: Environment, t: Transaction)
    returns (result: Result<(), Failure>, ghost events: seq<Event>)
    ensures Ran(CutoverCommit, t, events)
    ensures result.Ok? <==> EndedWith(CutoverCommit, t, events, RecordCommit)
    ensures !IsControlPlaneCommitted(t) ==> events == [] && result == Err(ErrConflict)
    ensures IsControlPlaneCommitted(t) ==>
      if result.Ok? then events == CutoverPlan(OpCommit, t)
      else FailedOn(CutoverPlan(OpCommit, t), events) && result.error == Cause(events)
  {
    hide PlayAll;
    ghost var w := Started(CutoverCommit, t);
    events := [];
    PlayNothing(w);
    if !IsControlPlaneCommitted(t) { return Err(ErrConflict), events; }
    var reply;
    reply, events := environment.Call(OpCommit, t.desired, w, events);
    if reply != Accepted { return Err(ErrGatewayReply(reply)), events; }
    ghost var unrecorded := events;
    var ok;
    ok, events := environment.Update(w, events);
    assert events[..|events| - 1] == unrecorded;
    if !ok { return Err(ErrStore), events; }
    return Ok(()), events;
  }

  /** `CutoverCoordinator.Restore`: asks for the abort and keeps the transaction. */
  method RestoreCutover(environment: Environment, t: Transaction)
    returns (result: Result<(), Failure>, ghost events: seq<Event>)
    ensures Ran(CutoverRestore, t, events)
    ensures if result.Ok? then events == Asked(OpAbort, t, Accepted)
      else FailedOn(Asked(OpAbort, t, Accepted), events) && result.error == Cause(events)
  {
    ghost var w := Started(CutoverRestore, t);
    events := [];
    PlayNothing(w);
    var reply;
    reply, events := environment.Call(OpAbort, t.desired, w, events);
    if reply != Accepted { return Err(ErrGatewayReply(reply)), events; }
    return Ok(()), events;
  }

  // ----- What a call in which nothing fails leaves on the host document -----

  /** The document after the call's updates, if it takes them all. */
  function Served(host: Host, w: Worker, events: seq<Event>): Option<Host>
    decreases |events|
  {
    if events == [] then Some(host)
    else
      match Play(w, events[0])
      case None => None
      case Some(v) =>
        if events[0] != Updated(true) then Served(host, v, events[1..])
        else if CanRecord(host, w) then Served(Recorded(host, w), v, events[1..])
        else None
  }

  lemma AskedServed(host: Host, w: Worker, op: Op, reply: Reply, rest: seq<Event>)
    requires w.stage in {SendPrepare, SendAbort, SendCommit} && Request(w.stage) == op
    ensures Served(host, w, Asked(op, w.transaction, reply) + rest) ==
      Served(host, AfterReply(AfterSend(w), reply), rest)
  {
    var events := Asked(op, w.transaction, reply) + rest;
    assert events[1..] == [Answered(reply)] + rest;
    assert ([Answered(reply)] + rest)[1..] == rest;
  }

  lemma UpdatedServed(host: Host, w: Worker, rest: seq<Event>)
    requires Recording(w.stage) && CanRecord(host, w)
    ensures Served(host, w, [Updated(true)] + rest) == Served(Recorded(host, w), AfterRecord(w, true), rest)
  {
    assert ([Updated(true)] + rest)[1..] == rest;
  }

  /** A cutover's prepare that succeeds is on record. */
  lemma PreparedCutoverIsRecorded(host: Host, t: Transaction)
    requires host.transaction == Some(t) && t.kind == Cutover && !IsControlPlaneCommitted(t)
    ensures Served(host, Started(CutoverPrepare, t), CutoverPlan(OpPrepare, t)) ==
      Some(host.(transaction := Some(t.(status := Prepared))))
  {
    hide Served;
    var w := Started(CutoverPrepare, t);
    AskedServed(host, w, OpPrepare, Accepted, [Updated(true)]);
    w := AfterReply(AfterSend(w), Accepted);
    assert [Updated(true)] == [Updated(true)] + [];
    UpdatedServed(host, w, []);
    NothingServed(Recorded(host, w), AfterRecord(w, true));
  }

  /** A cutover's commit that succeeds publishes its routes on the document and keeps the transaction. */
  lemma CommittedCutoverIsRecorded(host: Host, t: Transaction)
    requires host.transaction == Some(t) && t.kind == Cutover && IsControlPlaneCommitted(t)
    ensures Served(host, Started(CutoverCommit, t), CutoverPlan(OpCommit, t)) ==
      Some(host.(committed := t.desired.routes, transaction := Some(t.(status := GatewayCommitted))))
  {
    hide Served;
    var w := Started(CutoverCommit, t);
    AskedServed(host, w, OpCommit, Accepted, [Updated(true)]);
    w := AfterReply(AfterSend(w), Accepted);
    assert [Updated(true)] == [Updated(true)] + [];
    UpdatedServed(host, w, []);
    NothingServed(Recorded(host, w), AfterRecord(w, true));
  }

  lemma NothingServed(host: Host, w: Worker)
    ensures Served(host, w, []) == Some(host)
  {
  }

  /** A reconciliation that succeeds publishes its routes on the document and ends the transaction. */
  lemma ReconciledRouteIsRecorded(host: Host, t: Transaction)
    requires host.transaction == Some(t) && t.kind == Reconciliation && (t.status == Allocated || t.status == Prepared)
    ensures Served(host, Started(Reconcile, t), ReconciliationPlan(t)) ==
      Some(host.(committed := t.desired.routes, transaction := None))
  {
    hide Served;
    var w, h := Started(Reconcile, t), host;
    var rest := Asked(OpCommit, t, Accepted) + ([Updated(true)] + []);
    if t.status == Allocated {
      assert ReconciliationPlan(t) == Asked(OpPrepare, t, Accepted) + ([Updated(true)] + rest);
      AskedServed(h, w, OpPrepare, Accepted, [Updated(true)] + rest);
      w := AfterReply(AfterSend(w), Accepted);
      UpdatedServed(h, w, rest);
      h, w := Recorded(h, w), AfterRecord(w, true);
    } else {
      assert ReconciliationPlan(t) == rest;
    }
    SameRequest(OpCommit, w.transaction, t);
    AskedServed(h, w, OpCommit, Accepted, [Updated(true)] + []);
    w := AfterReply(AfterSend(w), Accepted);
    UpdatedServed(h, w, []);
    NothingServed(Recorded(h, w), AfterRecord(w, true));
  }

  /** A retirement that succeeds publishes its routes, unless it had before, and ends the transaction. */
  lemma RetiredRouteIsRecorded(host: Host, t: Transaction)
    requires host.transaction == Some(t) && t.kind == Retirement && t.status != ControlPlaneCommitted
    ensures Served(host, Started(Retire, t), RetirementPlan(t)) == Some(host.(
      committed := if t.status == GatewayCommitted then host.committed else t.desired.routes, transaction := None))
  {
    hide Served, Asked;
    var w, h := Started(Retire, t), host;
    var toFinish := [Updated(true)] + [];
    var toCommit := Asked(OpCommit, t, Accepted) + ([Updated(true)] + toFinish);
    if t.status == Allocated {
      assert RetirementPlan(t) == Asked(OpPrepare, t, Accepted) + ([Updated(true)] + toCommit);
      AskedServed(h, w, OpPrepare, Accepted, [Updated(true)] + toCommit);
      w := AfterReply(AfterSend(w), Accepted);
      UpdatedServed(h, w, toCommit);
      h, w := Recorded(h, w), AfterRecord(w, true);
    } else if t.status == Prepared {
      assert RetirementPlan(t) == toCommit;
    } else {
      assert RetirementPlan(t) == toFinish;
    }
    if t.status != GatewayCommitted {
      SameRequest(OpCommit, w.transaction, t);
      AskedServed(h, w, OpCommit, Accepted, [Updated(true)] + toFinish);
      w := AfterReply(AfterSend(w), Accepted);
      UpdatedServed(h, w, toFinish);
      h, w := Recorded(h, w), AfterRecord(w, true);
    }
    UpdatedServed(h, w, []);
    NothingServed(Recorded(h, w), AfterRecord(w, true));
  }

  lemma SameRequest(op: Op, a: Transaction, b: Transaction)
    requires a.desired == b.desired
    ensures Asked(op, a, Accepted) == Asked(op, b, Accepted)
  {
  }
}
