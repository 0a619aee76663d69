/**
 Whole runs of the agent's ingress transaction: the executor's steps between two effects, gateway
 calls that fail with or without taking effect, file writes that fail, and crashes anywhere
 (internal/agent/runtime/ingress.go, ingress_store.go). IngressExecutor.dfy proves that the
 executor's methods take exactly these steps.
 */
module IngressRuns {
  import opened Common
  import opened IngressProtocol
  import opened IngressFence
  import opened IngressHistory
  import opened StateFiles

  datatype Op = OpPrepare | OpCommit | OpAbort

  /**
   What the server reads in an answer. The agent's gateway error and its store's write error arrive as "gateway
   unavailable", like every loss on the way; all its other errors are refusals (docker_probe.go:221-240,
   agent_gateway.go:107-128).
   */
  datatype Reply = Accepted | Unavailable | Refused

  function StoreReply(error: StoreError): Reply { if error.ErrWrite? then Unavailable else Refused }

  /** Where the one executor call that holds the lock stands, between two effects; `cause` is what it will answer. */
  datatype Phase =
    | Idle
    | Applying(command: IngressCommand, state: PrepareState)
    | Probing(command: IngressCommand, state: PrepareState)
    | Restoring(command: IngressCommand, op: Op, cause: Reply)
    | Discarding(command: IngressCommand, op: Op, cause: Reply)
    | Publishing(command: IngressCommand, alreadyCommitted: bool)
    | Promoting(command: IngressCommand)

  /**
   `serving` is the config the gateway runs, None when cleared. `commits` records the configs the agent ever took
   as committed, by a commit or from its file; `acked` and `refused` the calls ever answered with success or a refusal.
   */
  datatype World = World(
    memory: StoreState,
    disk: StoreState,
    serving: Option<IngressCommand>,
    phase: Phase,
    commits: seq<IngressCommand>,
    acked: set<(Op, IngressCommand)>,
    refused: set<(Op, IngressCommand)>)

  const INITIAL: World := World(EMPTY, EMPTY, None, Idle, [], {}, {})

  /** `took` says whether a failed gateway call took effect all the same. */
  datatype Action =
    | Receive(op: Op, command: IngressCommand, write: WriteOutcome)
    | Apply(reply: Reply, took: bool)
    | Probe(reply: Reply)
    | Restore(reply: Reply, took: bool)
    | StoreAbort(write: WriteOutcome)
    | StoreCommit(write: WriteOutcome)
    | Crash

  /** A probe can only fail when the command names routes to probe (caddy_gateway.go:147-149). */
  ghost predicate Enabled(w: World, a: Action) {
    match a
    case Receive(_, command, _) => w.phase.Idle? && ValidIngressCommand(command)
    case Apply(_, _) => w.phase.Applying? || w.phase.Publishing?
    case Probe(reply) => w.phase.Probing? && (reply != Accepted ==> w.phase.command.probeRouteIds != [])
    case Restore(_, _) => w.phase.Restoring?
    case StoreAbort(_) => w.phase.Discarding?
    case StoreCommit(_) => w.phase.Promoting?
    case Crash => true
  }

  /** The call ends and its answer is on its way. */
  function Answered(w: World, op: Op, command: IngressCommand, reply: Reply): World {
    match reply
    case Accepted => w.(phase := Idle, acked := w.acked + {(op, command)})
    case Refused => w.(phase := Idle, refused := w.refused + {(op, command)})
    case Unavailable => w.(phase := Idle)
  }

  function Received(w: World, op: Op, command: IngressCommand, write: WriteOutcome, maximum: nat): World {
    match op
    case OpPrepare =>
      var begun := Begin(w.memory, command, write, maximum);
      var disk := if begun.written.Some? then OnDisk(w.disk, begun.written.value, write) else w.disk;
      var v := w.(memory := begun.memory, disk := disk);
      if begun.reply.Ok? then v.(phase := Applying(command, begun.reply.value))
      else Answered(v, op, command, StoreReply(begun.reply.error))
    case OpCommit =>
      var reply := CanCommit(w.memory, command);
      if reply.Ok? then w.(phase := Publishing(command, reply.value))
      else Answered(w, op, command, StoreReply(reply.error))
    case OpAbort =>
      var reply := CanAbort(w.memory, command);
      if reply.Err? then Answered(w, op, command, StoreReply(reply.error))
      else if reply.value then Answered(w, op, command, Accepted)
      else w.(phase := Restoring(command, OpAbort, Accepted))
  }

  /** A failed prepare restores the committed config unless it was only replaying it. */
  function PrepareFailed(w: World, command: IngressCommand, state: PrepareState, cause: Reply): World {
    if state == PrepareCommitted then Answered(w, OpPrepare, command, cause)
    else w.(phase := Restoring(command, OpPrepare, cause))
  }

  /** A gateway call: it succeeds, fails without effect, or fails although it took effect. */
  function Applied(w: World, reply: Reply, took: bool): World
    requires w.phase.Applying? || w.phase.Publishing?
  {
    var command := w.phase.command;
    var v := w.(serving := if reply == Accepted || took then Some(command) else w.serving);
    if w.phase.Applying? then
      if reply == Accepted then v.(phase := Probing(command, w.phase.state))
      else PrepareFailed(v, command, w.phase.state, reply)
    else if reply != Accepted || w.phase.alreadyCommitted then Answered(v, OpCommit, command, reply)
    else v.(phase := Promoting(command))
  }

  function Probed(w: World, reply: Reply): World
    requires w.phase.Probing?
  {
    if reply == Accepted then Answered(w, OpPrepare, w.phase.command, Accepted)
    else PrepareFailed(w, w.phase.command, w.phase.state, reply)
  }

  /** `restoreCommitted`: applies the committed config, or clears the gateway. A failed prepare keeps its own error. */
  function Restored(w: World, reply: Reply, took: bool): World
    requires w.phase.Restoring?
  {
    var Restoring(command, op, cause) := w.phase;
    var v := w.(serving := if reply == Accepted || took then w.memory.committed else w.serving);
    if reply == Accepted then v.(phase := Discarding(command, op, cause))
    else Answered(v, op, command, if op == OpPrepare then cause else reply)
  }

  /** `store.Abort` refuses, and writes nothing, unless exactly this config is pending. */
  function Discarded(w: World, write: WriteOutcome): World
    requires w.phase.Discarding?
  {
    var Discarding(command, op, cause) := w.phase;
    var next := w.memory.(pending := None);
    if CanAbort(w.memory, command) != Ok(false) then
      Answered(w, op, command, if op == OpPrepare then cause else Refused)
    else
      var v := w.(memory := if write.Stored? then next else w.memory, disk := OnDisk(w.disk, next, write));
      Answered(v, op, command, if op == OpPrepare || write.Stored? then cause else Unavailable)
  }

  function Committed(w: World, write: WriteOutcome): World
    requires w.phase.Promoting?
  {
    var command := w.phase.command;
    var next := Promoted(w.memory, command);
    var v := w.(disk := OnDisk(w.disk, next, write));
    if write.Stored? then Answered(v.(memory := next, commits := w.commits + [command]), OpCommit, command, Accepted)
    else Answered(v, OpCommit, command, Unavailable)
  }

  /** The agent stops and starts again from its file, which may hold a commit whose write failed late. */
  function Crashed(w: World): World {
    var found := w.disk.committed;
    var commits := if found.None? || found == w.memory.committed then w.commits else w.commits + [found.value];
    w.(memory := w.disk, phase := Idle, commits := commits)
  }

  function Next(w: World, a: Action, maximum: nat): World
    requires Enabled(w, a)
  {
    match a
    case Receive(op, command, write) => Received(w, op, command, write, maximum)
    case Apply(reply, took) => Applied(w, reply, took)
    case Probe(reply) => Probed(w, reply)
    case Restore(reply, took) => Restored(w, reply, took)
    case StoreAbort(write) => Discarded(w, write)
    case StoreCommit(write) => Committed(w, write)
    case Crash => Crashed(w)
  }

  // ----- Runs -----

  ghost predicate Allowed(w: World, actions: seq<Action>, maximum: nat)
    decreases |actions|
  {
    actions != [] ==> Enabled(w, actions[0]) && Allowed(Next(w, actions[0], maximum), actions[1..], maximum)
  }

  ghost function After(w: World, actions: seq<Action>, maximum: nat): World
    requires Allowed(w, actions, maximum)
    decreases |actions|
  {
    if actions == [] then w else After(Next(w, actions[0], maximum), actions[1..], maximum)
  }

  /** No abort's or commit's write replaces the file and then reports failure; a prepare's may. */
  predicate CleanWrite(a: Action) {
    match a
    case StoreAbort(write) => !write.ReplacedThenFailed?
    case StoreCommit(write) => !write.ReplacedThenFailed?
    case _ => true
  }

  predicate Clean(actions: seq<Action>) {
    forall i :: 0 <= i < |actions| ==> CleanWrite(actions[i])
  }

  lemma {:induction false} AfterConcat(w: World, first: seq<Action>, second: seq<Action>, maximum: nat)
    requires Allowed(w, first, maximum) && Allowed(After(w, first, maximum), second, maximum)
    ensures Allowed(w, first + second, maximum)
    ensures After(w, first + second, maximum) == After(After(w, first, maximum), second, maximum)
    decreases |first|
  {
    hide Next, Enabled;
    if first == [] {
      assert first + second == second;
    } else {
      AfterConcat(Next(w, first[0], maximum), first[1..], second, maximum);
      assert (first + second)[1..] == first[1..] + second;
    }
  }

  // ----- The invariant -----

  ghost predicate PhaseFits(w: World) {
    match w.phase
    case Idle => true
    case Applying(command, state) => PrepareFits(w.memory, command, state)
    case Probing(command, state) => PrepareFits(w.memory, command, state)
    case Restoring(command, op, cause) => w.memory.pending == Some(command) && CauseFits(op, cause)
    case Discarding(command, op, cause) =>
      w.memory.pending == Some(command) && w.serving == w.memory.committed && CauseFits(op, cause)
    case Publishing(command, already) =>
      if already then w.memory.committed == Some(command) else w.memory.pending == Some(command)
    case Promoting(command) => w.memory.pending == Some(command) && w.serving == Some(command)
  }

  /** A failed prepare will report its error, an abort so far has none. */
  predicate CauseFits(op: Op, cause: Reply) {
    if op == OpPrepare then cause != Accepted else op == OpAbort && cause == Accepted
  }

  predicate PrepareFits(memory: StoreState, command: IngressCommand, state: PrepareState) {
    if state == PrepareCommitted then memory.committed == Some(command) && memory.pending.None?
    else memory.pending == Some(command)
  }

  /** A success reply to a commit is only ever given for a config that was committed. */
  ghost predicate CommitAcksHold(w: World) {
    forall command :: (OpCommit, command) in w.acked ==> command in w.commits
  }

  /** Memory's committed config and fences, or those that committing memory's pending config leaves. */
  ghost predicate FileFollows(w: World) {
    || (w.disk.committed == w.memory.committed && w.disk.entries == w.memory.entries)
    || (w.memory.pending.Some? && w.disk == Promoted(w.memory, w.memory.pending.value))
  }

  /** Memory and file are valid, the history leads up to memory, and the file is never behind. */
  ghost predicate Durable(w: World, maximum: nat) {
    WellFormed(w.memory, maximum) && WellFormed(w.disk, maximum) && History(w.commits, w.memory) && FileFollows(w)
  }

  /** What the gateway runs brings back no route at an old revision, once a commit without it was answered. */
  ghost predicate NothingRevived(w: World) {
    forall i, k :: 0 <= i < k < |w.commits| && w.serving.Some? && (OpCommit, w.commits[k]) in w.acked ==>
      RaisedAfterGap(w.commits[i], w.commits[k], w.serving.value)
  }

  /** Kept by every step of the agent, whatever fails. */
  ghost predicate Inv(w: World, maximum: nat) {
    Durable(w, maximum) && PhaseFits(w) && CommitAcksHold(w) && NothingRevived(w)
  }

  lemma InvInitially(maximum: nat)
    ensures Inv(INITIAL, maximum)
  {
  }

  // ----- Every step keeps memory, file and history -----

  /** For a valid command, the store's comparison is equality with what it holds. */
  lemma ComparisonIsEquality(s: StoreState, command: IngressCommand, maximum: nat)
    requires WellFormed(s, maximum) && ValidIngressCommand(command)
    ensures IsCommitted(s, command) <==> s.committed == Some(command)
    ensures IsPending(s, command) <==> s.pending == Some(command)
  {
    hide ValidIngressCommand, ValidLoadedState, WellFormedEntry, SameConfig;
    if s.committed.Some? { SameConfigIsSame(s.committed.value, command); }
    if s.pending.Some? { SameConfigIsSame(s.pending.value, command); }
  }

  lemma PendingIsWellFormed(s: StoreState, pending: Option<IngressCommand>, maximum: nat)
    requires WellFormed(s, maximum)
    requires pending.Some? ==> ValidIngressCommand(pending.value) && CandidateRefusal(s, pending.value, maximum).None?
    ensures WellFormed(s.(pending := pending), maximum)
  {
    hide ValidIngressCommand, RoutesRefusal, NewEntries, FencesMatch, WellFormedEntry;
  }

  lemma HistoryIgnoresPending(commits: seq<IngressCommand>, s: StoreState, pending: Option<IngressCommand>)
    requires History(commits, s)
    ensures History(commits, s.(pending := pending))
  {
    hide OrderedCommits, Fenced, MonotoneRoutes, NoRevival;
  }

  lemma PendingIsAdmissible(w: World, maximum: nat)
    requires Durable(w, maximum) && w.memory.pending.Some?
    ensures ValidIngressCommand(w.memory.pending.value) && FencesMatch(w.memory.committed, w.memory.entries)
    ensures CandidateRefusal(w.memory, w.memory.pending.value, maximum).None?
  {
    hide ValidIngressCommand, History, CandidateRefusal, FencesMatch, WellFormedEntry, FileFollows;
  }

  lemma CommitIsDurable(w: World, command: IngressCommand, maximum: nat)
    requires Durable(w, maximum) && w.memory.pending == Some(command)
    ensures WellFormed(Promoted(w.memory, command), maximum)
    ensures History(w.commits + [command], Promoted(w.memory, command))
  {
    hide ValidIngressCommand, WellFormed, History, CandidateRefusal, Promoted, FencesMatch, FileFollows;
    PendingIsAdmissible(w, maximum);
    HistoryGrows(w.commits, w.memory, command, maximum);
    PromotedIsWellFormed(w.memory, command, maximum);
  }

  lemma AbortIsDurable(w: World, maximum: nat)
    requires Durable(w, maximum)
    ensures WellFormed(w.memory.(pending := None), maximum)
    ensures History(w.commits, w.memory.(pending := None))
  {
    hide WellFormed, History, FileFollows;
    PendingIsWellFormed(w.memory, None, maximum);
    HistoryIgnoresPending(w.commits, w.memory, None);
  }

  lemma CommittedIsLast(w: World, maximum: nat)
    requires Durable(w, maximum)
    ensures w.memory.committed.Some? ==> w.memory.committed.value in w.commits
  {
    hide WellFormed, OrderedCommits, Fenced, MonotoneRoutes, NoRevival, FileFollows;
  }

  /** No config the store holds brings a left-out route back at an old revision. */
  lemma HeldConfigsDoNotRevive(w: World, maximum: nat, i: nat, k: nat, held: IngressCommand)
    requires Durable(w, maximum) && i < k < |w.commits|
    requires w.memory.committed == Some(held) || w.memory.pending == Some(held)
    ensures RaisedAfterGap(w.commits[i], w.commits[k], held)
  {
    hide WellFormed, CandidateRefusal, OrderedCommits, Fenced, MonotoneRoutes, RaisedAfterGap, FencesMatch,
      ValidIngressCommand, FileFollows;
    var last := |w.commits| - 1;
    if w.memory.pending == Some(held) {
      PendingIsAdmissible(w, maximum);
      CandidateCannotRevive(w.commits, w.memory, held, maximum, i, k);
    } else if k < last {
      assert RaisedAfterGap(w.commits[i], w.commits[k], w.commits[last]);
    } else {
      NothingToRaise(w.commits[i], held);
    }
  }

  lemma NothingToRaise(earlier: IngressCommand, gap: IngressCommand)
    ensures RaisedAfterGap(earlier, gap, gap)
  {
    assert forall q :: q in gap.routes ==> q.routeId in RouteIds(gap.routes);
  }

  lemma HeldRevivesNothing(w: World, maximum: nat)
    requires Durable(w, maximum)
    requires w.serving.Some? ==> w.serving == w.memory.committed || w.serving == w.memory.pending
    ensures NothingRevived(w)
  {
    hide Durable, RaisedAfterGap;
    forall i, k | 0 <= i < k < |w.commits| && w.serving.Some? && (OpCommit, w.commits[k]) in w.acked
      ensures RaisedAfterGap(w.commits[i], w.commits[k], w.serving.value)
    {
      HeldConfigsDoNotRevive(w, maximum, i, k, w.serving.value);
    }
  }

  lemma ReceiveKeepsInv(w: World, op: Op, command: IngressCommand, write: WriteOutcome, maximum: nat)
    requires Inv(w, maximum) && ValidIngressCommand(command)
    ensures Inv(Received(w, op, command, write, maximum), maximum)
  {
    hide IsCommitted, IsPending, ValidIngressCommand, CandidateRefusal, WellFormed, History, Promoted, RaisedAfterGap;
    ComparisonIsEquality(w.memory, command, maximum);
    if CandidateRefusal(w.memory, command, maximum).None? {
      PendingIsWellFormed(w.memory, Some(command), maximum);
      HistoryIgnoresPending(w.commits, w.memory, Some(command));
    }
  }

  lemma StoreCommitKeepsInv(w: World, write: WriteOutcome, maximum: nat)
    requires Inv(w, maximum) && w.phase.Promoting?
    ensures Inv(Committed(w, write), maximum)
  {
    hide WellFormed, History, Deactivated, FencesOf, RaisedAfterGap;
    CommitIsDurable(w, w.phase.command, maximum);
    HeldRevivesNothing(Committed(w, write), maximum);
  }

  lemma StoreAbortKeepsInv(w: World, write: WriteOutcome, maximum: nat)
    requires Inv(w, maximum) && w.phase.Discarding?
    ensures Inv(Discarded(w, write), maximum)
  {
    hide WellFormed, History, CanAbort, Promoted, RaisedAfterGap;
    AbortIsDurable(w, maximum);
  }

  /** A gateway call leaves a config of the store running, or leaves the gateway and the answered commits alone. */
  lemma ServesHeldOrAsBefore(w: World, a: Action, maximum: nat)
    requires PhaseFits(w) && Enabled(w, a)
    requires a.Apply? || a.Probe? || a.Restore?
    ensures var v := Next(w, a, maximum);
      || (v.serving.Some? ==> v.serving == v.memory.committed || v.serving == v.memory.pending)
      || (v.serving == w.serving && forall command :: (OpCommit, command) in v.acked ==> (OpCommit, command) in w.acked)
  {
  }

  /** Gateway calls change neither the store nor the history. */
  lemma GatewayKeepsInv(w: World, a: Action, maximum: nat)
    requires Inv(w, maximum) && Enabled(w, a)
    requires a.Apply? || a.Probe? || a.Restore?
    ensures Inv(Next(w, a, maximum), maximum)
  {
    hide WellFormed, History, RaisedAfterGap, Promoted, NothingRevived;
    CommittedIsLast(w, maximum);
    GatewayRevivesNothing(w, a, maximum);
  }

  lemma GatewayRevivesNothing(w: World, a: Action, maximum: nat)
    requires Inv(w, maximum) && Enabled(w, a)
    requires a.Apply? || a.Probe? || a.Restore?
    ensures NothingRevived(Next(w, a, maximum))
  {
    hide WellFormed, History, RaisedAfterGap, Promoted;
    var v := Next(w, a, maximum);
    assert v.memory == w.memory && v.disk == w.disk && v.commits == w.commits;
    ServesHeldOrAsBefore(w, a, maximum);
    if v.serving.Some? ==> v.serving == v.memory.committed || v.serving == v.memory.pending {
      HeldRevivesNothing(v, maximum);
    }
  }

  // ----- A crash -----

  /** What a restart reads is valid and continues the history, by at most the commit whose write failed late. */
  lemma RestartIsDurable(w: World, maximum: nat)
    requires Durable(w, maximum)
    ensures Durable(Crashed(w), maximum)
    ensures Crashed(w).commits == w.commits
      || (w.memory.pending.Some? && Crashed(w).commits == w.commits + [w.memory.pending.value])
  {
    hide WellFormed, History, Deactivated, FencesOf;
    if w.disk.committed == w.memory.committed && w.disk.entries == w.memory.entries {
      HistoryIgnoresPending(w.commits, w.memory, w.disk.pending);
      assert w.disk == w.memory.(pending := w.disk.pending);
    } else {
      CommitIsDurable(w, w.memory.pending.value, maximum);
      PendingIsNew(w, maximum);
    }
  }

  lemma PendingIsNew(w: World, maximum: nat)
    requires Durable(w, maximum) && w.memory.pending.Some?
    ensures w.memory.pending != w.memory.committed
  {
    hide ValidIngressCommand, RoutesRefusal, NewEntries, FencesMatch, WellFormedEntry, History, FileFollows;
  }

  /** A config that only the file has committed was never answered. */
  lemma CrashKeepsInv(w: World, maximum: nat)
    requires Inv(w, maximum)
    ensures Inv(Crashed(w), maximum)
  {
    hide WellFormed, History, PrepareFits, FileFollows, RaisedAfterGap;
    var v := Crashed(w);
    RestartIsDurable(w, maximum);
    assert Durable(v, maximum) && PhaseFits(v) && CommitAcksHold(v);
    forall i, k | 0 <= i < k < |v.commits| && v.serving.Some? && (OpCommit, v.commits[k]) in v.acked
      ensures RaisedAfterGap(v.commits[i], v.commits[k], v.serving.value)
    {
      assert v.commits[k] in w.commits;
      if k == |w.commits| { LastIsNew(v, maximum); }
    }
  }

  lemma LastIsNew(w: World, maximum: nat)
    requires Durable(w, maximum) && w.commits != []
    ensures w.commits[|w.commits| - 1] !in w.commits[..|w.commits| - 1]
  {
    hide WellFormed, Fenced, MonotoneRoutes, NoRevival, FileFollows, ValidIngressCommand;
  }

  lemma SoundFile(w: World, maximum: nat)
    requires Inv(w, maximum)
    ensures WellFormed(w.disk, maximum)
  {
    hide WellFormed;
  }

  lemma StepKeepsInv(w: World, a: Action, maximum: nat)
    requires Inv(w, maximum) && Enabled(w, a)
    ensures Inv(Next(w, a, maximum), maximum)
  {
    hide Inv, Received, Applied, Probed, Restored, Discarded, Committed, Crashed;
    match a
    case Receive(op, command, write) => ReceiveKeepsInv(w, op, command, write, maximum);
    case StoreCommit(write) => StoreCommitKeepsInv(w, write, maximum);
    case StoreAbort(write) => StoreAbortKeepsInv(w, write, maximum);
    case Crash => CrashKeepsInv(w, maximum);
    case _ => GatewayKeepsInv(w, a, maximum);
  }

  lemma {:induction false} RunKeepsInv(w: World, actions: seq<Action>, maximum: nat)
    requires Inv(w, maximum) && Allowed(w, actions, maximum)
    ensures Inv(After(w, actions, maximum), maximum)
    decreases |actions|
  {
    hide Inv, Next, Enabled;
    if actions != [] {
      StepKeepsInv(w, actions[0], maximum);
      RunKeepsInv(Next(w, actions[0], maximum), actions[1..], maximum);
    }
  }

  // ----- While no abort's or commit's write fails late -----

  predicate ServesKnown(w: World) {
    w.serving == w.memory.committed || (w.memory.pending.Some? && w.serving == w.memory.pending)
  }

  /** The file holds what memory holds, and perhaps the config of a prepare whose write failed late. */
  ghost predicate FileHolds(w: World) {
    w.disk == w.memory || (w.memory.pending.None? && w.disk == w.memory.(pending := w.disk.pending))
  }

  lemma GatewayKeepsAgreement(w: World, a: Action, maximum: nat)
    requires PhaseFits(w) && Enabled(w, a) && ServesKnown(w) && FileHolds(w)
    requires a.Apply? || a.Probe? || a.Restore?
    ensures ServesKnown(Next(w, a, maximum)) && FileHolds(Next(w, a, maximum))
  {
    hide IsCommitted, IsPending;
  }

  lemma StoreKeepsAgreement(w: World, a: Action, maximum: nat)
    requires PhaseFits(w) && Enabled(w, a) && CleanWrite(a) && ServesKnown(w) && FileHolds(w)
    requires !(a.Apply? || a.Probe? || a.Restore?)
    ensures ServesKnown(Next(w, a, maximum)) && FileHolds(Next(w, a, maximum))
  {
    hide CandidateRefusal, IsCommitted, IsPending, ValidIngressCommand, Deactivated, FencesOf;
  }

  lemma CleanStepKeepsAgreement(w: World, a: Action, maximum: nat)
    requires Inv(w, maximum) && Enabled(w, a) && CleanWrite(a) && ServesKnown(w) && FileHolds(w)
    ensures ServesKnown(Next(w, a, maximum)) && FileHolds(Next(w, a, maximum))
  {
    hide Durable, NothingRevived, CommitAcksHold, PhaseFits, Next, Enabled, CleanWrite, ServesKnown, FileHolds;
    if a.Apply? || a.Probe? || a.Restore? {
      GatewayKeepsAgreement(w, a, maximum);
    } else {
      StoreKeepsAgreement(w, a, maximum);
    }
  }

  lemma {:induction false} CleanRunKeepsAgreement(w: World, actions: seq<Action>, maximum: nat)
    requires Inv(w, maximum) && ServesKnown(w) && FileHolds(w)
    requires Allowed(w, actions, maximum) && Clean(actions)
    ensures ServesKnown(After(w, actions, maximum)) && FileHolds(After(w, actions, maximum))
    decreases |actions|
  {
    hide Inv, Next, Enabled, ServesKnown, FileHolds;
    if actions != [] {
      StepKeepsInv(w, actions[0], maximum);
      CleanStepKeepsAgreement(w, actions[0], maximum);
      CleanRunKeepsAgreement(Next(w, actions[0], maximum), actions[1..], maximum);
    }
  }
}
