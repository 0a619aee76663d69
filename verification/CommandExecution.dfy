/**
 Concurrent execution of commands (internal/agent/runtime/docker_probe.go:106-193, 267-310): every
 call looks in the result cache, joins or opens the in-flight record of its command ID, and the one
 that opened it runs the command, stores the result and hands it to the others. The calls
 interleave at exactly these steps, and the agent may stop between any two.
 */
module CommandExecution {
  import opened AgentCommands
  import opened CommandFingerprint
  import opened CommandResults
  import opened Common
  import opened IngressProtocol
  import opened ResultCache
  import opened StateFiles

  /** A result or an error. `source` is the place in the cache's history that a durable result agrees with. */
  datatype Reply = Failure | Success(result: CommandResult, source: Option<nat>)

  function ResultOf(reply: Reply): Option<CommandResult> {
    if reply.Success? then Some(reply.result) else None
  }

  datatype Stage =
    | Missed
    | Owner(record: nat)
    | Ran(record: nat, reply: Reply)
    | Waiter(record: nat)
    | Done(reply: Reply)
    | Lost

  datatype Call = Call(command: AgentCommand, stage: Stage)

  /** `pendingProbeExecution`; `owner` is the call that opened it. */
  datatype Pending = Pending(command: AgentCommand, owner: nat, reply: Option<Reply>)

  datatype World = World(
    calls: seq<Call>,
    pending: map<string, nat>,
    records: seq<Pending>,
    history: History,
    fileHistory: History)

  const START := World([], map[], [], [], [])

  datatype Step =
    | Arrive(command: AgentCommand)
    | Begin(call: nat)
    | Run(call: nat, outcome: Option<CommandResult>, write: WriteOutcome)
    | Finish(call: nat)
    | Collect(call: nat)
    | GiveUp(call: nat)
    | Restart

  // ----- The cache, as its history -----

  ghost predicate CachedAt(h: History, maximum: nat, id: string, i: nat) {
    |h| - maximum <= i < |h| && h[i].id == id
  }

  ghost predicate Cached(h: History, maximum: nat, id: string) {
    exists i :: CachedAt(h, maximum, id, i)
  }

  ghost function Position(h: History, maximum: nat, id: string): (i: nat)
    requires Cached(h, maximum, id)
    ensures CachedAt(h, maximum, id, i)
  {
    var i :| CachedAt(h, maximum, id, i);
    i
  }

  /** What `FileResultCache.Lookup` answers for a valid command. */
  ghost function LookedUp(h: History, maximum: nat, command: AgentCommand): Stage {
    if !DurableResult(command.kind) || !Cached(h, maximum, command.id) then Missed
    else
      var i := Position(h, maximum, command.id);
      if Matches(h[i].entry, command) then Done(Success(h[i].entry.result, Some(i))) else Done(Failure)
  }

  /** `execute` after the command ran: store a durable result, and fail when the store does. */
  ghost function StoredReply(h: History, maximum: nat, command: AgentCommand, result: CommandResult,
                             write: WriteOutcome): Reply {
    if !DurableResult(command.kind) then Success(result, None)
    else if !ValidResult(result, command) then Failure
    else if Cached(h, maximum, command.id) then
      var i := Position(h, maximum, command.id);
      if Matches(h[i].entry, command) && h[i].entry.result == result then Success(result, Some(i)) else Failure
    else if write.Stored? then Success(result, Some(|h|))
    else Failure
  }

  ghost predicate Inserts(h: History, maximum: nat, command: AgentCommand, result: CommandResult) {
    DurableResult(command.kind) && ValidResult(result, command) && !Cached(h, maximum, command.id)
  }

  // ----- Steps -----

  function SetStage(calls: seq<Call>, k: nat, stage: Stage): seq<Call>
    requires k < |calls|
  {
    calls[k := calls[k].(stage := stage)]
  }

  ghost predicate Enabled(s: World, step: Step) {
    match step
    case Arrive(command) => ValidCommand(command) && SizedCommand(command)
    case Begin(k) => k < |s.calls| && s.calls[k].stage.Missed?
    case Run(k, outcome, write) => k < |s.calls| && s.calls[k].stage.Owner?
    case Finish(k) => k < |s.calls| && s.calls[k].stage.Ran? && s.calls[k].stage.record < |s.records|
    case Collect(k) =>
      && k < |s.calls| && s.calls[k].stage.Waiter? && s.calls[k].stage.record < |s.records|
      && s.records[s.calls[k].stage.record].reply.Some?
    case GiveUp(k) => k < |s.calls| && s.calls[k].stage.Waiter?
    case Restart => true
  }

  ghost function Arrived(s: World, command: AgentCommand, maximum: nat): World {
    World(s.calls + [Call(command, LookedUp(s.history, maximum, command))], s.pending, s.records,
          s.history, s.fileHistory)
  }

  /** `begin`: join the record of this ID if it is for the same command, refuse another, or open one. */
  function Joined(s: World, k: nat): World
    requires k < |s.calls|
  {
    var command := s.calls[k].command;
    if command.id in s.pending && s.pending[command.id] < |s.records| then
      var r := s.pending[command.id];
      var stage :=
        if FingerprintBytes(s.records[r].command) == FingerprintBytes(command) then Waiter(r) else Done(Failure);
      World(SetStage(s.calls, k, stage), s.pending, s.records, s.history, s.fileHistory)
    else
      World(SetStage(s.calls, k, Owner(|s.records|)), s.pending[command.id := |s.records|],
            s.records + [Pending(command, k, None)], s.history, s.fileHistory)
  }

  ghost function RanTo(s: World, k: nat, outcome: Option<CommandResult>, write: WriteOutcome, maximum: nat): World
    requires k < |s.calls| && s.calls[k].stage.Owner?
  {
    var command, r := s.calls[k].command, s.calls[k].stage.record;
    if outcome.None? then World(SetStage(s.calls, k, Ran(r, Failure)), s.pending, s.records, s.history, s.fileHistory)
    else
      var reply := StoredReply(s.history, maximum, command, outcome.value, write);
      var inserts := Inserts(s.history, maximum, command, outcome.value);
      var next := s.history + [Insertion(command, outcome.value)];
      World(SetStage(s.calls, k, Ran(r, reply)), s.pending, s.records,
            if inserts && write.Stored? then next else s.history,
            if inserts && !write.Kept? then next else s.fileHistory)
  }

  /** `finish`: the record is closed and handed its reply, and its ID is free again. */
  function Finished(s: World, k: nat): World
    requires k < |s.calls| && s.calls[k].stage.Ran? && s.calls[k].stage.record < |s.records|
  {
    var r, reply := s.calls[k].stage.record, s.calls[k].stage.reply;
    World(SetStage(s.calls, k, Done(reply)), s.pending - {s.calls[k].command.id},
          s.records[r := s.records[r].(reply := Some(reply))], s.history, s.fileHistory)
  }

  /** Only replies already given survive; the cache is what its file shows. */
  function Restarted(s: World): World {
    World(seq(|s.calls|, i requires 0 <= i < |s.calls| =>
                if s.calls[i].stage.Done? then s.calls[i] else s.calls[i].(stage := Lost)),
          map[], s.records, s.fileHistory, s.fileHistory)
  }

  ghost function Next(s: World, step: Step, maximum: nat): World
    requires Enabled(s, step)
  {
    match step
    case Arrive(command) => Arrived(s, command, maximum)
    case Begin(k) => Joined(s, k)
    case Run(k, outcome, write) => RanTo(s, k, outcome, write, maximum)
    case Finish(k) => Finished(s, k)
    case Collect(k) =>
      World(SetStage(s.calls, k, Done(s.records[s.calls[k].stage.record].reply.value)), s.pending, s.records,
            s.history, s.fileHistory)
    case GiveUp(k) => World(SetStage(s.calls, k, Done(Failure)), s.pending, s.records, s.history, s.fileHistory)
    case Restart => Restarted(s)
  }

  // ----- The invariant -----

  /** A result that was not refused is the one the cache took at `source`, for this very command. */
  ghost predicate Agrees(h: History, command: AgentCommand, reply: Reply) {
    reply.Success? && DurableResult(command.kind) ==>
      && reply.source.Some? && reply.source.value < |h|
      && h[reply.source.value].id == command.id && Matches(h[reply.source.value].entry, command)
      && h[reply.source.value].entry.result == reply.result
  }

  /** Between two entries of one command lie at least `maximum` others. */
  ghost predicate Spaced(h: History, maximum: nat) {
    forall i, j :: 0 <= i < j < |h| && h[i].id == h[j].id ==> j - i > maximum
  }

  ghost predicate CallSound(s: World, k: nat)
    requires k < |s.calls|
  {
    var command := s.calls[k].command;
    && ValidCommand(command) && SizedCommand(command)
    && match s.calls[k].stage
       case Missed => true
       case Owner(r) => Owns(s, k, r)
       case Ran(r, reply) => Owns(s, k, r) && Agrees(s.history, command, reply)
       case Waiter(r) => r < |s.records| && FingerprintBytes(s.records[r].command) == FingerprintBytes(command)
       case Done(reply) => Agrees(s.history, command, reply)
       case Lost => true
  }

  ghost predicate Owns(s: World, k: nat, r: nat)
    requires k < |s.calls|
  {
    var command := s.calls[k].command;
    && r < |s.records| && s.records[r] == Pending(command, k, None)
    && command.id in s.pending && s.pending[command.id] == r
  }

  ghost predicate RecordSound(s: World, r: nat)
    requires r < |s.records|
  {
    && ValidCommand(s.records[r].command) && SizedCommand(s.records[r].command)
    && (s.records[r].reply.Some? ==> Agrees(s.history, s.records[r].command, s.records[r].reply.value))
  }

  ghost predicate Inv(s: World, maximum: nat) {
    && (forall k :: 0 <= k < |s.calls| ==> CallSound(s, k))
    && (forall r :: 0 <= r < |s.records| ==> RecordSound(s, r))
    && (forall id :: id in s.pending ==> s.pending[id] < |s.records| && s.records[s.pending[id]].command.id == id)
    && s.history <= s.fileHistory && Spaced(s.history, maximum) && Spaced(s.fileHistory, maximum)
  }

  // ----- Every step keeps it -----

  /** History only grows, so what agreed with it still does. */
  lemma AgreesLater(h: History, later: History, command: AgentCommand, reply: Reply)
    requires h <= later && Agrees(h, command, reply)
    ensures Agrees(later, command, reply)
  {
  }

  lemma LookupAgrees(h: History, maximum: nat, command: AgentCommand)
    ensures LookedUp(h, maximum, command).Missed? || LookedUp(h, maximum, command).Done?
    ensures LookedUp(h, maximum, command).Done? ==> Agrees(h, command, LookedUp(h, maximum, command).reply)
  {
    hide Matches;
  }

  lemma InsertionSpaced(h: History, maximum: nat, r: Record)
    requires Spaced(h, maximum) && !Cached(h, maximum, r.id)
    ensures Spaced(h + [r], maximum)
  {
    var next := h + [r];
    forall i, j | 0 <= i < j < |next| && next[i].id == next[j].id ensures j - i > maximum {
      if j == |h| { assert !CachedAt(h, maximum, r.id, i); }
    }
  }

  lemma StoredReplyAgrees(h: History, maximum: nat, command: AgentCommand, result: CommandResult, write: WriteOutcome)
    requires Spaced(h, maximum)
    ensures var next := h + [Insertion(command, result)];
      && (Inserts(h, maximum, command, result) ==> Spaced(next, maximum))
      && Agrees(if Inserts(h, maximum, command, result) && write.Stored? then next else h, command,
                StoredReply(h, maximum, command, result, write))
  {
    hide ValidResult, FingerprintBytes, Spaced;
    if Inserts(h, maximum, command, result) { InsertionSpaced(h, maximum, Insertion(command, result)); }
  }

  /** Commands with the same fingerprint share a result. */
  lemma AgreesForSameCommand(h: History, a: AgentCommand, b: AgentCommand, reply: Reply)
    requires ValidCommand(a) && SizedCommand(a) && ValidCommand(b) && SizedCommand(b)
    requires FingerprintBytes(a) == FingerprintBytes(b) && Agrees(h, a, reply)
    ensures Agrees(h, b, reply)
  {
    hide FingerprintBytes, SizedCommand, Matches, UnixNano;
    BytesDetermineCommand(a, b);
  }

  lemma ArriveKeepsInv(s: World, command: AgentCommand, maximum: nat)
    requires Inv(s, maximum) && ValidCommand(command) && SizedCommand(command)
    ensures Inv(Arrived(s, command, maximum), maximum)
  {
    hide ValidCommand, SizedCommand, Agrees, Spaced, LookedUp, FingerprintBytes;
    var t := Arrived(s, command, maximum);
    LookupAgrees(s.history, maximum, command);
    forall k | 0 <= k < |t.calls| ensures CallSound(t, k) {
      if k < |s.calls| { assert CallSound(s, k); }
    }
    forall r | 0 <= r < |t.records| ensures RecordSound(t, r) { assert RecordSound(s, r); }
  }

  lemma BeginKeepsInv(s: World, k: nat, maximum: nat)
    requires Inv(s, maximum) && k < |s.calls| && s.calls[k].stage.Missed?
    ensures Inv(Joined(s, k), maximum)
  {
    hide ValidCommand, SizedCommand, Agrees, Spaced, FingerprintBytes;
    var t := Joined(s, k);
    assert CallSound(s, k);
    FailureAgrees(s.history, s.calls[k].command);
    forall j | 0 <= j < |t.calls| ensures CallSound(t, j) { assert CallSound(s, j); }
    forall r | 0 <= r < |t.records| ensures RecordSound(t, r) {
      if r < |s.records| { assert RecordSound(s, r); }
    }
  }

  lemma RunKeepsInv(s: World, k: nat, outcome: Option<CommandResult>, write: WriteOutcome, maximum: nat)
    requires Inv(s, maximum) && k < |s.calls| && s.calls[k].stage.Owner?
    ensures Inv(RanTo(s, k, outcome, write, maximum), maximum)
  {
    hide ValidCommand, SizedCommand, Agrees, Spaced, FingerprintBytes, StoredReply, Inserts, Insertion;
    var t := RanTo(s, k, outcome, write, maximum);
    assert CallSound(s, k);
    if outcome.Some? { StoredReplyAgrees(s.history, maximum, s.calls[k].command, outcome.value, write); }
    FailureAgrees(t.history, s.calls[k].command);
    assert s.history <= t.history;
    forall j | 0 <= j < |t.calls| ensures CallSound(t, j) {
      assert CallSound(s, j);
      if j != k { CallAgreesLater(s, t, j); }
    }
    forall r | 0 <= r < |t.records| ensures RecordSound(t, r) {
      assert RecordSound(s, r);
      if s.records[r].reply.Some? { AgreesLater(s.history, t.history, s.records[r].command, s.records[r].reply.value); }
    }
  }

  lemma FailureAgrees(h: History, command: AgentCommand)
    ensures Agrees(h, command, Failure)
  {
  }

  lemma CallAgreesLater(s: World, t: World, j: nat)
    requires j < |s.calls| && j < |t.calls| && s.calls[j] == t.calls[j] && CallSound(s, j)
    requires s.records == t.records && s.pending == t.pending && s.history <= t.history
    ensures CallSound(t, j)
  {
    hide ValidCommand, SizedCommand, FingerprintBytes, Agrees;
    match s.calls[j].stage
    case Ran(r, reply) => AgreesLater(s.history, t.history, s.calls[j].command, reply);
    case Done(reply) => AgreesLater(s.history, t.history, s.calls[j].command, reply);
    case _ =>
  }

  lemma FinishKeepsInv(s: World, k: nat, maximum: nat)
    requires Inv(s, maximum) && k < |s.calls| && s.calls[k].stage.Ran?
    ensures s.calls[k].stage.record < |s.records| && Inv(Finished(s, k), maximum)
  {
    hide ValidCommand, SizedCommand, Agrees, Spaced, FingerprintBytes;
    assert CallSound(s, k);
    var t := Finished(s, k);
    forall j | 0 <= j < |t.calls| ensures CallSound(t, j) {
      assert CallSound(s, j);
    }
    forall r | 0 <= r < |t.records| ensures RecordSound(t, r) { assert RecordSound(s, r); }
  }

  lemma CollectKeepsInv(s: World, k: nat, maximum: nat)
    requires Inv(s, maximum) && Enabled(s, Collect(k))
    ensures Inv(Next(s, Collect(k), maximum), maximum)
  {
    hide ValidCommand, SizedCommand, Agrees, Spaced, FingerprintBytes, Owns;
    var t := Next(s, Collect(k), maximum);
    var r := s.calls[k].stage.record;
    assert CallSound(s, k) && RecordSound(s, r);
    AgreesForSameCommand(s.history, s.records[r].command, s.calls[k].command, s.records[r].reply.value);
    forall j | 0 <= j < |t.calls| ensures CallSound(t, j) {
      assert CallSound(s, j);
      if j != k { CallAgreesLater(s, t, j); }
    }
    forall q | 0 <= q < |t.records| ensures RecordSound(t, q) { assert RecordSound(s, q); }
  }

  lemma GiveUpKeepsInv(s: World, k: nat, maximum: nat)
    requires Inv(s, maximum) && Enabled(s, GiveUp(k))
    ensures Inv(Next(s, GiveUp(k), maximum), maximum)
  {
    hide ValidCommand, SizedCommand, Agrees, Spaced, FingerprintBytes;
    var t := Next(s, GiveUp(k), maximum);
    FailureAgrees(s.history, s.calls[k].command);
    forall j | 0 <= j < |t.calls| ensures CallSound(t, j) { assert CallSound(s, j); }
    forall q | 0 <= q < |t.records| ensures RecordSound(t, q) { assert RecordSound(s, q); }
  }

  lemma RestartKeepsInv(s: World, maximum: nat)
    requires Inv(s, maximum)
    ensures Inv(Restarted(s), maximum)
  {
    hide ValidCommand, SizedCommand, Agrees, Spaced, FingerprintBytes;
    var t := Restarted(s);
    forall j | 0 <= j < |t.calls| ensures CallSound(t, j) {
      assert CallSound(s, j);
      if s.calls[j].stage.Done? { AgreesLater(s.history, t.history, s.calls[j].command, s.calls[j].stage.reply); }
    }
    forall r | 0 <= r < |t.records| ensures RecordSound(t, r) {
      assert RecordSound(s, r);
      if s.records[r].reply.Some? { AgreesLater(s.history, t.history, s.records[r].command, s.records[r].reply.value); }
    }
  }

  lemma StepKeepsInv(s: World, step: Step, maximum: nat)
    requires Inv(s, maximum) && Enabled(s, step)
    ensures Inv(Next(s, step, maximum), maximum)
  {
    hide Inv, Arrived, Joined, RanTo, Finished, Restarted;
    match step
    case Arrive(command) => ArriveKeepsInv(s, command, maximum);
    case Begin(k) => BeginKeepsInv(s, k, maximum);
    case Run(k, outcome, write) => RunKeepsInv(s, k, outcome, write, maximum);
    case Finish(k) => FinishKeepsInv(s, k, maximum);
    case Collect(k) => CollectKeepsInv(s, k, maximum);
    case GiveUp(k) => GiveUpKeepsInv(s, k, maximum);
    case Restart => RestartKeepsInv(s, maximum);
  }

  // ----- Whole runs -----

  ghost predicate CanTake(s: World, steps: seq<Step>, maximum: nat)
    decreases |steps|
  {
    steps == [] || (Enabled(s, steps[0]) && CanTake(Next(s, steps[0], maximum), steps[1..], maximum))
  }

  ghost function After(s: World, steps: seq<Step>, maximum: nat): World
    requires CanTake(s, steps, maximum)
    decreases |steps|
  {
    if steps == [] then s else After(Next(s, steps[0], maximum), steps[1..], maximum)
  }

  lemma {:induction false} AnyRunKeepsInv(s: World, steps: seq<Step>, maximum: nat)
    requires Inv(s, maximum) && CanTake(s, steps, maximum)
    ensures Inv(After(s, steps, maximum), maximum)
    decreases |steps|
  {
    hide Inv, Enabled, Next;
    if steps != [] {
      StepKeepsInv(s, steps[0], maximum);
      AnyRunKeepsInv(Next(s, steps[0], maximum), steps[1..], maximum);
    }
  }

  lemma StartIsSound(maximum: nat)
    ensures Inv(START, maximum)
  {
  }

  predicate InFlight(call: Call) { call.stage.Owner? || call.stage.Ran? }

  /** At most one call is executing a command ID at any moment. */
  lemma OneOwnerPerId(steps: seq<Step>, maximum: nat, i: nat, j: nat)
    requires CanTake(START, steps, maximum)
    requires var calls := After(START, steps, maximum).calls;
      && i < |calls| && j < |calls| && InFlight(calls[i]) && InFlight(calls[j])
      && calls[i].command.id == calls[j].command.id
    ensures i == j
  {
    hide CanTake, After, ValidCommand, SizedCommand, Agrees, FingerprintBytes, Spaced;
    StartIsSound(maximum);
    AnyRunKeepsInv(START, steps, maximum);
    var s := After(START, steps, maximum);
    assert CallSound(s, i) && CallSound(s, j);
  }

  /**
   Two calls of one durable command ID that both got a result got the same result, unless at least `maximum` other
   results were stored between the two they come from, so that the first had been evicted.
   */
  lemma RepliesAgree(steps: seq<Step>, maximum: nat, i: nat, j: nat)
    requires CanTake(START, steps, maximum)
    requires var calls := After(START, steps, maximum).calls;
      && i < |calls| && j < |calls| && calls[i].command.id == calls[j].command.id
      && DurableResult(calls[i].command.kind) && DurableResult(calls[j].command.kind)
      && calls[i].stage.Done? && calls[i].stage.reply.Success? && calls[j].stage.Done? && calls[j].stage.reply.Success?
    ensures var calls := After(START, steps, maximum).calls;
      var a, b := calls[i].stage.reply, calls[j].stage.reply;
      && a.source.Some? && b.source.Some?
      && (|| a.result == b.result
          || a.source.value > b.source.value + maximum || b.source.value > a.source.value + maximum)
  {
    hide CanTake, After, ValidCommand, SizedCommand, FingerprintBytes;
    StartIsSound(maximum);
    AnyRunKeepsInv(START, steps, maximum);
    var s := After(START, steps, maximum);
    assert CallSound(s, i) && CallSound(s, j);
  }

  /** As long as the cache has evicted nothing, there is one result for one durable command ID. */
  lemma RepliesAgreeBeforeEviction(steps: seq<Step>, maximum: nat, i: nat, j: nat)
    requires CanTake(START, steps, maximum) && |After(START, steps, maximum).history| <= maximum
    requires var calls := After(START, steps, maximum).calls;
      && i < |calls| && j < |calls| && calls[i].command.id == calls[j].command.id
      && DurableResult(calls[i].command.kind) && DurableResult(calls[j].command.kind)
      && calls[i].stage.Done? && calls[i].stage.reply.Success? && calls[j].stage.Done? && calls[j].stage.reply.Success?
    ensures var calls := After(START, steps, maximum).calls;
      calls[i].stage.reply.result == calls[j].stage.reply.result
  {
    hide CanTake, After, ValidCommand, SizedCommand, FingerprintBytes;
    RepliesAgree(steps, maximum, i, j);
    StartIsSound(maximum);
    AnyRunKeepsInv(START, steps, maximum);
    assert CallSound(After(START, steps, maximum), i) && CallSound(After(START, steps, maximum), j);
  }

  // ----- A cached command is not run again -----

  /** What is given to a call stays with it. */
  lemma StepKeepsDone(s: World, step: Step, maximum: nat, k: nat)
    requires Enabled(s, step) && k < |s.calls| && s.calls[k].stage.Done?
    ensures k < |Next(s, step, maximum).calls| && Next(s, step, maximum).calls[k] == s.calls[k]
  {
    hide ValidCommand, SizedCommand, LookedUp, StoredReply, Inserts, FingerprintBytes;
  }

  lemma {:induction false} RunKeepsDone(s: World, steps: seq<Step>, maximum: nat, k: nat)
    requires CanTake(s, steps, maximum) && k < |s.calls| && s.calls[k].stage.Done?
    ensures k < |After(s, steps, maximum).calls| && After(s, steps, maximum).calls[k] == s.calls[k]
    decreases |steps|
  {
    hide Enabled, Next;
    if steps != [] {
      StepKeepsDone(s, steps[0], maximum, k);
      RunKeepsDone(Next(s, steps[0], maximum), steps[1..], maximum, k);
    }
  }

  lemma WindowPlaces(h: History, maximum: nat, i: nat)
    requires |h| - maximum <= i < |h|
    ensures 0 <= i - (|h| - |Window(h, maximum)|) < |Window(h, maximum)|
    ensures Window(h, maximum)[i - (|h| - |Window(h, maximum)|)] == h[i]
  {
  }

  lemma WindowStarts(h: History, maximum: nat, i: nat)
    requires i < |Window(h, maximum)|
    ensures 0 <= |h| - |Window(h, maximum)| && |h| - maximum <= |h| - |Window(h, maximum)| + i < |h|
    ensures Window(h, maximum)[i] == h[|h| - |Window(h, maximum)| + i]
  {
  }

  lemma PlaceIsUnique(h: History, maximum: nat, id: string, i: nat, j: nat)
    requires Spaced(h, maximum) && CachedAt(h, maximum, id, i) && CachedAt(h, maximum, id, j)
    ensures i == j
  {
  }

  /** The place of an ID in what the cache keeps. */
  lemma CachedInWindow(h: History, maximum: nat, id: string, i: nat)
    requires Spaced(h, maximum) && i < |Window(h, maximum)| && Window(h, maximum)[i].id == id
    ensures Cached(h, maximum, id) && h[Position(h, maximum, id)] == Window(h, maximum)[i]
  {
    hide Window, Spaced;
    WindowStarts(h, maximum, i);
    assert CachedAt(h, maximum, id, |h| - |Window(h, maximum)| + i);
    PlaceIsUnique(h, maximum, id, |h| - |Window(h, maximum)| + i, Position(h, maximum, id));
  }

  lemma KeptInWindow(h: History, maximum: nat, id: string)
    requires Cached(h, maximum, id)
    ensures exists i :: 0 <= i < |Window(h, maximum)| && Window(h, maximum)[i].id == id
  {
    hide Window;
    WindowPlaces(h, maximum, Position(h, maximum, id));
  }

  /**
   A durable command that arrives while the cache keeps a record of its ID has its answer, whatever happens next, and
   so is never run: the kept result if the record is of this very command, else a refusal.
   */
  lemma CachedIsNeverRun(s: World, command: AgentCommand, steps: seq<Step>, maximum: nat, i: nat)
    requires Inv(s, maximum) && ValidCommand(command) && SizedCommand(command) && DurableResult(command.kind)
    requires i < |Window(s.history, maximum)| && Window(s.history, maximum)[i].id == command.id
    requires CanTake(Next(s, Arrive(command), maximum), steps, maximum)
    ensures var k, t := |s.calls|, After(Next(s, Arrive(command), maximum), steps, maximum);
      var entry := Window(s.history, maximum)[i].entry;
      && k < |t.calls| && t.calls[k].command == command && t.calls[k].stage.Done?
      && (Matches(entry, command) ==> ResultOf(t.calls[k].stage.reply) == Some(entry.result))
      && (!Matches(entry, command) ==> t.calls[k].stage.reply.Failure?)
  {
    hide ValidCommand, SizedCommand, Matches, CallSound, RecordSound, CanTake, After;
    CachedInWindow(s.history, maximum, command.id, i);
    RunKeepsDone(Next(s, Arrive(command), maximum), steps, maximum, |s.calls|);
  }

  /** One of which it keeps none, or that is not durable, goes on to be run or joined. */
  lemma UnknownGoesOn(s: World, command: AgentCommand, maximum: nat)
    requires ValidCommand(command) && SizedCommand(command)
    requires DurableResult(command.kind) ==>
      forall i :: 0 <= i < |Window(s.history, maximum)| ==> Window(s.history, maximum)[i].id != command.id
    ensures Next(s, Arrive(command), maximum).calls == s.calls + [Call(command, Missed)]
  {
    hide ValidCommand, SizedCommand, Cached;
    if DurableResult(command.kind) && Cached(s.history, maximum, command.id) {
      KeptInWindow(s.history, maximum, command.id);
    }
  }

  /**
   A durable command that was answered with a result is answered with the same result when it is delivered again, in
   every run, as long as the cache has not evicted what it was answered from.
   */
  lemma RedeliveryIsAnswered(steps: seq<Step>, more: seq<Step>, maximum: nat, j: nat)
    requires CanTake(START, steps, maximum) && j < |After(START, steps, maximum).calls|
    requires var s := After(START, steps, maximum);
      && DurableResult(s.calls[j].command.kind) && s.calls[j].stage.Done? && s.calls[j].stage.reply.Success?
      && s.calls[j].stage.reply.source.Some? && s.calls[j].stage.reply.source.value + maximum >= |s.history|
      && Enabled(s, Arrive(s.calls[j].command))
      && CanTake(Next(s, Arrive(s.calls[j].command), maximum), more, maximum)
    ensures var s := After(START, steps, maximum);
      var t := After(Next(s, Arrive(s.calls[j].command), maximum), more, maximum);
      && |s.calls| < |t.calls| && t.calls[|s.calls|].stage.Done? && t.calls[|s.calls|].stage.reply.Success?
      && t.calls[|s.calls|].stage.reply.result == s.calls[j].stage.reply.result
  {
    hide CanTake, After, ValidCommand, SizedCommand, FingerprintBytes, Next, Matches, Spaced, Window;
    StartIsSound(maximum);
    AnyRunKeepsInv(START, steps, maximum);
    var s := After(START, steps, maximum);
    assert CallSound(s, j);
    var place := s.calls[j].stage.reply.source.value - (|s.history| - |Window(s.history, maximum)|);
    CachedIsNeverRun(s, s.calls[j].command, more, maximum, place);
  }
}
