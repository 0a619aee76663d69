/**
 The promises of the agent's ingress transaction over every run (IngressRuns.dfy), and for those that some late
 failures of file writes break, exactly which.
 */
module IngressSafety {
  import opened Common
  import opened IngressProtocol
  import opened IngressFence
  import opened IngressHistory
  import opened IngressRuns
  import opened StateFiles

  /**
   However gateway calls fail and wherever the agent crashes, the gateway serves the committed
   config (cleared when there is none) or the pending one; with nothing pending, exactly the former.
   */
  lemma GatewayServesCommittedOrPending(actions: seq<Action>, maximum: nat)
    requires Allowed(INITIAL, actions, maximum) && Clean(actions)
    ensures var w := After(INITIAL, actions, maximum);
      && (w.serving == w.memory.committed || (w.memory.pending.Some? && w.serving == w.memory.pending))
      && (w.memory.pending.None? ==> w.serving == w.memory.committed)
  {
    hide Inv;
    InvInitially(maximum);
    CleanRunKeepsAgreement(INITIAL, actions, maximum);
  }

  /** The file has memory's committed config and fences, and its pending config if there is one. */
  predicate FileCarries(w: World) {
    && w.disk.committed == w.memory.committed && w.disk.entries == w.memory.entries
    && (w.memory.pending.Some? ==> w.disk.pending == w.memory.pending)
  }

  /**
   A crash loses nothing: the file is loadable state that carries what memory holds. It may hold a pending config
   that memory lacks: a prepare's that failed late.
   */
  lemma CrashLosesNothing(actions: seq<Action>, maximum: nat)
    requires Allowed(INITIAL, actions, maximum) && Clean(actions)
    ensures var w := After(INITIAL, actions, maximum);
      FileCarries(w) && WellFormed(w.disk, maximum) && |w.disk.entries| <= maximum
  {
    hide PhaseFits, CommitAcksHold, NothingRevived, History;
    InvInitially(maximum);
    RunKeepsInv(INITIAL, actions, maximum);
    CleanRunKeepsAgreement(INITIAL, actions, maximum);
  }

  /**
   Over all configs a host ever committed, whatever failed: revisions and cutovers of a route never decrease,
   one revision never carries two specs, and one cutover never names two deployments.
   */
  lemma CommittedRoutesAreMonotone(actions: seq<Action>, maximum: nat, i: nat, j: nat, r: IngressRoute, q: IngressRoute)
    requires Allowed(INITIAL, actions, maximum)
    requires var commits := After(INITIAL, actions, maximum).commits;
      i <= j < |commits| && r in commits[i].routes && q in commits[j].routes && r.routeId == q.routeId
    ensures r.revision <= q.revision && r.cutoverSequence <= q.cutoverSequence
    ensures r.revision == q.revision ==> SameSpec(r, q)
    ensures r.cutoverSequence == q.cutoverSequence ==> r.deploymentId == q.deploymentId
  {
    hide WellFormed, History, PhaseFits, CommitAcksHold, NothingRevived, Follows, SameSpec;
    InvInitially(maximum);
    RunKeepsInv(INITIAL, actions, maximum);
    var w := After(INITIAL, actions, maximum);
    HistoryMeaning(w.commits, w.memory, i, j, r, q);
  }

  // ----- What a run can only add to -----

  lemma StepOnlyAdds(w: World, a: Action, maximum: nat)
    requires Enabled(w, a)
    ensures w.commits <= Next(w, a, maximum).commits
    ensures w.acked <= Next(w, a, maximum).acked
    ensures w.refused <= Next(w, a, maximum).refused
  {
    hide Begin, CanCommit, CanAbort, Promoted, ValidIngressCommand;
  }

  lemma {:induction false} RunOnlyAdds(w: World, actions: seq<Action>, maximum: nat)
    requires Allowed(w, actions, maximum)
    ensures w.commits <= After(w, actions, maximum).commits
    ensures w.acked <= After(w, actions, maximum).acked
    ensures w.refused <= After(w, actions, maximum).refused
    decreases |actions|
  {
    hide Next, Enabled;
    if actions != [] {
      StepOnlyAdds(w, actions[0], maximum);
      RunOnlyAdds(Next(w, actions[0], maximum), actions[1..], maximum);
    }
  }

  function CommittedRevision(w: World): nat {
    if w.memory.committed.Some? then w.memory.committed.value.hostRevision else 0
  }

  lemma HistoryFixesCommitted(w: World, maximum: nat)
    requires Durable(w, maximum)
    ensures w.memory.committed == (if w.commits == [] then None else Some(w.commits[|w.commits| - 1]))
    ensures OrderedCommits(w.commits)
  {
    hide WellFormed, OrderedCommits, Fenced, MonotoneRoutes, NoRevival;
  }

  /** No abort, replay, failure or crash lowers the committed revision, or undoes an answered commit. */
  lemma CommittedRevisionNeverFalls(w: World, actions: seq<Action>, maximum: nat, command: IngressCommand)
    requires Inv(w, maximum) && Allowed(w, actions, maximum)
    ensures CommittedRevision(w) <= CommittedRevision(After(w, actions, maximum))
    ensures (OpCommit, command) in w.acked ==> command.hostRevision <= CommittedRevision(After(w, actions, maximum))
  {
    hide Durable, Next, Enabled, ValidIngressCommand, PhaseFits, NothingRevived;
    var v := After(w, actions, maximum);
    RunKeepsInv(w, actions, maximum);
    RunOnlyAdds(w, actions, maximum);
    HistoryFixesCommitted(w, maximum);
    HistoryFixesCommitted(v, maximum);
    if (OpCommit, command) in w.acked {
      assert command in w.commits;
      var i :| 0 <= i < |w.commits| && w.commits[i] == command;
      assert v.commits[i] == command;
    }
  }

  // ----- Retirement -----

  /**
   Once the host has answered a commit of a config without some route, no later sequence of new, delayed or
   repeated prepares, commits and aborts, with any failures and restarts, makes the gateway serve that
   route at a revision the host had committed before.
   */
  lemma RetiredRouteStaysRetired(w: World, actions: seq<Action>, maximum: nat, i: nat, k: nat,
                                 r: IngressRoute, q: IngressRoute)
    requires Inv(w, maximum) && Allowed(w, actions, maximum)
    requires i < k < |w.commits| && (OpCommit, w.commits[k]) in w.acked
    requires r in w.commits[i].routes && r.routeId !in RouteIds(w.commits[k].routes)
    requires var v := After(w, actions, maximum);
      v.serving.Some? && q in v.serving.value.routes && q.routeId == r.routeId
    ensures r.revision < q.revision
  {
    hide Durable, Next, Enabled, PhaseFits, CommitAcksHold;
    var v := After(w, actions, maximum);
    RunKeepsInv(w, actions, maximum);
    RunOnlyAdds(w, actions, maximum);
    assert v.commits[i] == w.commits[i] && v.commits[k] == w.commits[k];
    assert RaisedAfterGap(v.commits[i], v.commits[k], v.serving.value);
  }

  // ----- Writes that fail after they have replaced the file -----

  /** An action whose write replaced the file and then reported failure. */
  predicate LateFailure(w: World, a: Action, maximum: nat) {
    match a
    case Receive(OpPrepare, command, ReplacedThenFailed) => Begin(w.memory, command, Kept, maximum).written.Some?
    case StoreAbort(ReplacedThenFailed) => true
    case StoreCommit(ReplacedThenFailed) => true
    case _ => false
  }

  lemma PendingIsNotCommitted(s: StoreState, command: IngressCommand, maximum: nat)
    requires WellFormed(s, maximum) && s.pending == Some(command)
    ensures IsPending(s, command) && !IsCommitted(s, command)
  {
    hide ValidIngressCommand, RoutesRefusal, NewEntries, FencesMatch, WellFormedEntry;
  }

  /** Memory and file part ways exactly when such a failure happens. */
  lemma FileAgreesUnlessLateFailure(w: World, a: Action, maximum: nat)
    requires Inv(w, maximum) && w.disk == w.memory && Enabled(w, a)
    ensures Next(w, a, maximum).disk == Next(w, a, maximum).memory <==> !LateFailure(w, a, maximum)
  {
    hide WellFormed, History, CandidateRefusal, CommitAcksHold, NothingRevived, IsCommitted, IsPending,
      ValidIngressCommand;
    if w.memory.pending.Some? { PendingIsNotCommitted(w.memory, w.memory.pending.value, maximum); }
  }

  datatype WriteKind = PrepareWrite | AbortWrite | CommitWrite

  predicate LateWrite(a: Action, kind: WriteKind) {
    match a
    case Receive(op, _, write) => kind == PrepareWrite && op == OpPrepare && write.ReplacedThenFailed?
    case StoreAbort(write) => kind == AbortWrite && write.ReplacedThenFailed?
    case StoreCommit(write) => kind == CommitWrite && write.ReplacedThenFailed?
    case _ => false
  }

  /** Only writes of these kinds fail late in the run. */
  predicate LateOnly(actions: seq<Action>, kinds: set<WriteKind>) {
    forall i, kind :: 0 <= i < |actions| && LateWrite(actions[i], kind) ==> kind in kinds
  }

  lemma AllowedCons(w: World, a: Action, rest: seq<Action>, maximum: nat)
    requires Enabled(w, a) && Allowed(Next(w, a, maximum), rest, maximum)
    ensures Allowed(w, [a] + rest, maximum)
    ensures After(w, [a] + rest, maximum) == After(Next(w, a, maximum), rest, maximum)
  {
    hide Next, Enabled;
    assert ([a] + rest)[1..] == rest;
  }

  lemma FreshCandidate(command: IngressCommand, maximum: nat)
    requires |RouteIds(command.routes)| <= maximum
    ensures CandidateRefusal(EMPTY, command, maximum).None?
  {
    RoutesRefusalMeaning(EMPTY.entries, command.routes);
    assert RouteIds(command.routes) - EMPTY.entries.Keys == RouteIds(command.routes);
  }

  /** The agent between calls, serving `serving`; nothing was answered yet. */
  function Resting(memory: StoreState, disk: StoreState, serving: Option<IngressCommand>): World {
    World(memory, disk, serving, Idle, [], {}, {})
  }

  function Holding(command: IngressCommand): StoreState { StoreState(None, Some(command), map[]) }

  /** A first prepare whose gateway call fails, up to the write that drops the pending config again. */
  lemma AbandonedPrepare(command: IngressCommand, maximum: nat) returns (actions: seq<Action>)
    requires ValidIngressCommand(command) && |RouteIds(command.routes)| <= maximum
    ensures Allowed(INITIAL, actions, maximum) && LateOnly(actions, {AbortWrite})
    ensures After(INITIAL, actions, maximum) == Resting(Holding(command), EMPTY, None)
  {
    hide ValidIngressCommand, CandidateRefusal;
    FreshCandidate(command, maximum);
    var late := StoreAbort(ReplacedThenFailed);
    var w1 := Next(INITIAL, Receive(OpPrepare, command, Stored), maximum);
    var w2 := Next(w1, Apply(Unavailable, false), maximum);
    var w3 := Next(w2, Restore(Accepted, true), maximum);
    assert Next(w3, late, maximum) == Resting(Holding(command), EMPTY, None);
    AllowedCons(w3, late, [], maximum);
    AllowedCons(w2, Restore(Accepted, true), [late] + [], maximum);
    AllowedCons(w1, Apply(Unavailable, false), [Restore(Accepted, true)] + ([late] + []), maximum);
    actions := [Apply(Unavailable, false)] + ([Restore(Accepted, true)] + ([late] + []));
    AllowedCons(INITIAL, Receive(OpPrepare, command, Stored), actions, maximum);
    actions := [Receive(OpPrepare, command, Stored)] + actions;
  }

  /** A repeated prepare finds its config pending in memory, applies it without a write, and the agent stops. */
  lemma ReplayedThenStopped(command: IngressCommand, maximum: nat) returns (actions: seq<Action>)
    requires ValidIngressCommand(command)
    ensures Allowed(Resting(Holding(command), EMPTY, None), actions, maximum) && LateOnly(actions, {})
    ensures After(Resting(Holding(command), EMPTY, None), actions, maximum) == Resting(EMPTY, EMPTY, Some(command))
  {
    hide ValidIngressCommand, CandidateRefusal;
    var w := Resting(Holding(command), EMPTY, None);
    var w1 := Next(w, Receive(OpPrepare, command, Stored), maximum);
    var w2 := Next(w1, Apply(Accepted, true), maximum);
    AllowedCons(w2, Crash, [], maximum);
    AllowedCons(w1, Apply(Accepted, true), [Crash] + [], maximum);
    AllowedCons(w, Receive(OpPrepare, command, Stored), [Apply(Accepted, true)] + ([Crash] + []), maximum);
    actions := [Receive(OpPrepare, command, Stored)] + ([Apply(Accepted, true)] + ([Crash] + []));
  }

  /** What the gateway publishes is what the committed config, or the pending one, publishes. */
  predicate PublishesKnown(w: World) {
    || RoutesOf(w.serving) == RoutesOf(w.memory.committed)
    || (w.memory.pending.Some? && RoutesOf(w.serving) == w.memory.pending.value.routes)
  }

  /**
   With one late failure of an abort's write the promise breaks: abandoning a failed prepare removes the pending
   config from the file but not from memory, a repeated prepare then applies it without writing it again, and after
   a crash the gateway serves a config that is neither committed nor pending, with all its routes.
   */
  lemma LateAbortStrandsConfig(command: IngressCommand, maximum: nat) returns (actions: seq<Action>)
    requires ValidIngressCommand(command) && |RouteIds(command.routes)| <= maximum
    ensures Allowed(INITIAL, actions, maximum) && LateOnly(actions, {AbortWrite})
    ensures After(INITIAL, actions, maximum) == Resting(EMPTY, EMPTY, Some(command))
    ensures PublishesKnown(After(INITIAL, actions, maximum)) <==> command.routes == []
  {
    hide ValidIngressCommand, Allowed, After, LateWrite;
    var first := AbandonedPrepare(command, maximum);
    var second := ReplayedThenStopped(command, maximum);
    AfterConcat(INITIAL, first, second, maximum);
    actions := first + second;
  }

  /** The agent about to write the commit of a command it has just prepared and applied. */
  function ReadyToCommit(w: World, command: IngressCommand): World {
    var memory := w.memory.(pending := Some(command));
    w.(memory := memory, disk := memory, serving := Some(command), phase := Promoting(command),
       acked := w.acked + {(OpPrepare, command)})
  }

  /** An undisturbed prepare. */
  lemma UndisturbedPrepare(w: World, command: IngressCommand, maximum: nat) returns (actions: seq<Action>)
    requires ValidIngressCommand(command) && w.phase.Idle? && w.memory.pending.None?
    requires !IsCommitted(w.memory, command) && CandidateRefusal(w.memory, command, maximum).None?
    ensures Allowed(w, actions, maximum) && LateOnly(actions, {})
    ensures After(w, actions, maximum) == ReadyToCommit(w, command).(phase := Idle)
    ensures forall i :: 0 <= i < |actions| && actions[i].Receive? ==>
      actions[i].op == OpPrepare && actions[i].command == command
  {
    hide ValidIngressCommand, CandidateRefusal, IsCommitted;
    var receive := Receive(OpPrepare, command, Stored);
    var w1 := Next(w, receive, maximum);
    var w2 := Next(w1, Apply(Accepted, true), maximum);
    AllowedCons(w2, Probe(Accepted), [], maximum);
    AllowedCons(w1, Apply(Accepted, true), [Probe(Accepted)] + [], maximum);
    AllowedCons(w, receive, [Apply(Accepted, true)] + ([Probe(Accepted)] + []), maximum);
    actions := [receive] + ([Apply(Accepted, true)] + ([Probe(Accepted)] + []));
  }

  /** The commit of what it has just prepared, up to the commit's write. */
  lemma CommitWritten(w: World, command: IngressCommand, write: WriteOutcome, maximum: nat)
    returns (actions: seq<Action>)
    requires ValidIngressCommand(command) && w.phase.Idle?
    requires !IsCommitted(w.memory, command)
    ensures var ready := ReadyToCommit(w, command);
      && Allowed(ready.(phase := Idle), actions, maximum)
      && After(ready.(phase := Idle), actions, maximum) == Committed(ready, write)
    ensures LateOnly(actions, if write.ReplacedThenFailed? then {CommitWrite} else {})
  {
    hide ValidIngressCommand, Promoted;
    var ready := ReadyToCommit(w, command);
    var v := ready.(phase := Idle);
    var v1 := Next(v, Receive(OpCommit, command, Stored), maximum);
    AllowedCons(ready, StoreCommit(write), [], maximum);
    AllowedCons(v1, Apply(Accepted, true), [StoreCommit(write)] + [], maximum);
    AllowedCons(v, Receive(OpCommit, command, Stored), [Apply(Accepted, true)] + ([StoreCommit(write)] + []), maximum);
    actions := [Receive(OpCommit, command, Stored)] + ([Apply(Accepted, true)] + ([StoreCommit(write)] + []));
  }

  /** A prepare and its commit, undisturbed up to the commit's write, whichever way that ends. */
  lemma PreparedAndCommitted(w: World, command: IngressCommand, write: WriteOutcome, maximum: nat)
    returns (actions: seq<Action>)
    requires ValidIngressCommand(command) && w.phase.Idle? && w.memory.pending.None?
    requires !IsCommitted(w.memory, command) && CandidateRefusal(w.memory, command, maximum).None?
    ensures Allowed(w, actions, maximum)
    ensures LateOnly(actions, if write.ReplacedThenFailed? then {CommitWrite} else {})
    ensures After(w, actions, maximum) == Committed(ReadyToCommit(w, command), write)
  {
    hide ValidIngressCommand, CandidateRefusal, IsCommitted, Committed, ReadyToCommit, Allowed, After, LateWrite;
    var first := UndisturbedPrepare(w, command, maximum);
    var second := CommitWritten(w, command, write, maximum);
    AfterConcat(w, first, second, maximum);
    actions := first + second;
  }

  /**
   A repeated prepare finds its config pending in memory and fails, the committed config is brought back, and the
   agent stops before it can drop the pending one.
   */
  lemma RestoredThenStopped(w: World, command: IngressCommand, maximum: nat) returns (actions: seq<Action>)
    requires ValidIngressCommand(command) && w.phase.Idle? && w.memory.pending == Some(command)
    ensures Allowed(w, actions, maximum) && LateOnly(actions, {})
    ensures After(w, actions, maximum) == Crashed(w).(serving := w.memory.committed)
  {
    hide ValidIngressCommand, CandidateRefusal;
    var w1 := Next(w, Receive(OpPrepare, command, Stored), maximum);
    var w2 := Next(w1, Apply(Unavailable, false), maximum);
    var w3 := Next(w2, Restore(Accepted, true), maximum);
    AllowedCons(w3, Crash, [], maximum);
    AllowedCons(w2, Restore(Accepted, true), [Crash] + [], maximum);
    AllowedCons(w1, Apply(Unavailable, false), [Restore(Accepted, true)] + ([Crash] + []), maximum);
    var tail := [Apply(Unavailable, false)] + ([Restore(Accepted, true)] + ([Crash] + []));
    AllowedCons(w, Receive(OpPrepare, command, Stored), tail, maximum);
    actions := [Receive(OpPrepare, command, Stored)] + tail;
  }

  /** A commit whose write fails late, then a repeated prepare that fails, and a crash in it. */
  lemma LateCommitThenStopped(w: World, command: IngressCommand, maximum: nat) returns (actions: seq<Action>)
    requires ValidIngressCommand(command) && w.phase.Idle? && w.memory.pending.None?
    requires !IsCommitted(w.memory, command) && CandidateRefusal(w.memory, command, maximum).None?
    ensures Allowed(w, actions, maximum) && LateOnly(actions, {CommitWrite})
    ensures var v := After(w, actions, maximum);
      v.serving == w.memory.committed && v.memory == Promoted(w.memory, command)
      && (w.memory.committed != Some(command) ==> v.commits == w.commits + [command])
  {
    hide ValidIngressCommand, Allowed, After, LateWrite, CandidateRefusal, Deactivated, FencesOf, IsCommitted;
    var first := PreparedAndCommitted(w, command, ReplacedThenFailed, maximum);
    var second := RestoredThenStopped(After(w, first, maximum), command, maximum);
    AfterConcat(w, first, second, maximum);
    actions := first + second;
  }

  /**
   So it does with one late failure of a commit's write: the file has the config committed and memory has it
   pending, a repeated prepare that fails clears the gateway, and after a crash the committed config is not served.
   */
  lemma LateCommitClearsGateway(command: IngressCommand, maximum: nat) returns (actions: seq<Action>)
    requires ValidIngressCommand(command) && |RouteIds(command.routes)| <= maximum
    ensures Allowed(INITIAL, actions, maximum) && LateOnly(actions, {CommitWrite})
    ensures var w := After(INITIAL, actions, maximum);
      w.serving == None && w.memory.committed == Some(command) && w.memory.pending == None
    ensures PublishesKnown(After(INITIAL, actions, maximum)) <==> command.routes == []
  {
    hide ValidIngressCommand, Allowed, After, LateOnly, CandidateRefusal;
    FreshCandidate(command, maximum);
    actions := LateCommitThenStopped(INITIAL, command, maximum);
  }

  lemma CleanIfOnlyPreparesFailLate(actions: seq<Action>, kinds: set<WriteKind>)
    requires LateOnly(actions, kinds) && kinds <= {PrepareWrite}
    ensures Clean(actions)
  {
    forall i | 0 <= i < |actions| ensures CleanWrite(actions[i]) {
      assert LateWrite(actions[i], AbortWrite) ==> AbortWrite in kinds;
      assert LateWrite(actions[i], CommitWrite) ==> CommitWrite in kinds;
    }
  }

  /** A late failure of any other kind of write breaks the promise in some run, and for the routes published too. */
  lemma SomeRunBreaksPromise(kinds: set<WriteKind>, maximum: nat) returns (actions: seq<Action>)
    requires !(kinds <= {PrepareWrite}) && maximum >= 1
    ensures Allowed(INITIAL, actions, maximum) && LateOnly(actions, kinds)
    ensures !ServesKnown(After(INITIAL, actions, maximum)) && !PublishesKnown(After(INITIAL, actions, maximum))
  {
    hide Allowed, After, LateOnly, ValidIngressCommand, Promoted;
    var _, full, _ := ValidCommandsExist(1, "route", 1);
    OneRouteId(full.routes[0]);
    if AbortWrite in kinds {
      actions := LateAbortStrandsConfig(full, maximum);
      LateOnlyWidens(actions, {AbortWrite}, kinds);
    } else {
      OtherKind(kinds);
      actions := LateCommitClearsGateway(full, maximum);
      LateOnlyWidens(actions, {CommitWrite}, kinds);
    }
  }

  /**
   The gateway promise survives the late failures of some kinds of write exactly when they are prepares' only,
   whether it is read of the config served or only of the routes published.
   */
  lemma PromiseSurvivesLatePreparesOnly(kinds: set<WriteKind>, maximum: nat)
    requires maximum >= 1
    ensures kinds <= {PrepareWrite} <==>
      forall actions :: Allowed(INITIAL, actions, maximum) && LateOnly(actions, kinds) ==>
        ServesKnown(After(INITIAL, actions, maximum))
    ensures kinds <= {PrepareWrite} <==>
      forall actions :: Allowed(INITIAL, actions, maximum) && LateOnly(actions, kinds) ==>
        PublishesKnown(After(INITIAL, actions, maximum))
  {
    hide Allowed, After, LateOnly, Clean;
    if kinds <= {PrepareWrite} {
      forall actions | Allowed(INITIAL, actions, maximum) && LateOnly(actions, kinds)
        ensures ServesKnown(After(INITIAL, actions, maximum)) && PublishesKnown(After(INITIAL, actions, maximum))
      {
        CleanIfOnlyPreparesFailLate(actions, kinds);
        GatewayServesCommittedOrPending(actions, maximum);
      }
    } else {
      var actions := SomeRunBreaksPromise(kinds, maximum);
    }
  }

  /** After some run the file lacks what memory holds: a pending config, or that a commit is not answered yet. */
  lemma SomeRunPartsFile(kinds: set<WriteKind>, maximum: nat) returns (actions: seq<Action>)
    requires !(kinds <= {PrepareWrite}) && maximum >= 1
    ensures Allowed(INITIAL, actions, maximum) && LateOnly(actions, kinds)
    ensures !FileCarries(After(INITIAL, actions, maximum))
  {
    hide Allowed, After, LateOnly, ValidIngressCommand, CandidateRefusal, Deactivated, FencesOf;
    var _, full, _ := ValidCommandsExist(1, "route", 1);
    OneRouteId(full.routes[0]);
    if AbortWrite in kinds {
      actions := AbandonedPrepare(full, maximum);
      LateOnlyWidens(actions, {AbortWrite}, kinds);
    } else {
      OtherKind(kinds);
      FreshCandidate(full, maximum);
      actions := PreparedAndCommitted(INITIAL, full, ReplacedThenFailed, maximum);
      LateOnlyWidens(actions, {CommitWrite}, kinds);
    }
  }

  /** The same kinds of late failure, and no others, leave the file carrying what memory holds. */
  lemma FileCarriesForLatePreparesOnly(kinds: set<WriteKind>, maximum: nat)
    requires maximum >= 1
    ensures kinds <= {PrepareWrite} <==>
      forall actions :: Allowed(INITIAL, actions, maximum) && LateOnly(actions, kinds) ==>
        FileCarries(After(INITIAL, actions, maximum))
  {
    hide Allowed, After, LateOnly, Clean, FileCarries;
    if kinds <= {PrepareWrite} {
      forall actions | Allowed(INITIAL, actions, maximum) && LateOnly(actions, kinds)
        ensures FileCarries(After(INITIAL, actions, maximum))
      {
        CleanIfOnlyPreparesFailLate(actions, kinds);
        CrashLosesNothing(actions, maximum);
      }
    } else {
      var actions := SomeRunPartsFile(kinds, maximum);
    }
  }

  // ----- Retirement, answered or not -----

  /** No route that a committed config left out is served at an old revision, be the commit answered or not. */
  ghost predicate RetiredNotServed(w: World) {
    forall i, k :: 0 <= i < k < |w.commits| && w.serving.Some? ==>
      RaisedAfterGap(w.commits[i], w.commits[k], w.serving.value)
  }

  predicate CommitsAnswered(w: World) {
    w.disk.committed == w.memory.committed && forall command :: command in w.commits ==> (OpCommit, command) in w.acked
  }

  lemma StepKeepsCommitsAnswered(w: World, a: Action, maximum: nat)
    requires Enabled(w, a) && CommitsAnswered(w) && !LateWrite(a, CommitWrite)
    ensures CommitsAnswered(Next(w, a, maximum))
  {
    hide CandidateRefusal, IsCommitted, IsPending, ValidIngressCommand, Deactivated, FencesOf;
  }

  lemma {:induction false} RunKeepsCommitsAnswered(w: World, actions: seq<Action>, maximum: nat)
    requires Allowed(w, actions, maximum) && CommitsAnswered(w)
    requires forall i :: 0 <= i < |actions| ==> !LateWrite(actions[i], CommitWrite)
    ensures CommitsAnswered(After(w, actions, maximum))
    decreases |actions|
  {
    hide Next, Enabled, LateWrite, CommitsAnswered;
    if actions != [] {
      StepKeepsCommitsAnswered(w, actions[0], maximum);
      RunKeepsCommitsAnswered(Next(w, actions[0], maximum), actions[1..], maximum);
    }
  }

  /** With one late failure of a commit's write, the agent can have a route's removal committed and still serve it. */
  lemma LateCommitKeepsRetired(maximum: nat) returns (actions: seq<Action>)
    requires maximum >= 1
    ensures Allowed(INITIAL, actions, maximum) && LateOnly(actions, {CommitWrite})
    ensures !RetiredNotServed(After(INITIAL, actions, maximum))
  {
    hide Allowed, After, LateWrite, ValidIngressCommand, ValidRouteList, CandidateRefusal, Deactivated, FencesOf,
      RaisedAfterGap, IsCommitted;
    var _, full, _ := ValidCommandsExist(1, "route", 1);
    var empty, _, _ := ValidCommandsExist(2, "route", 1);
    OneRouteId(full.routes[0]);
    FreshCandidate(full, maximum);
    NothingCommitted(full);
    var first := PreparedAndCommitted(INITIAL, full, Stored, maximum);
    var w := After(INITIAL, first, maximum);
    RemovalIsAdmissible(full, empty, maximum);
    var second := LateCommitThenStopped(w, empty, maximum);
    AfterConcat(INITIAL, first, second, maximum);
    actions := first + second;
    var v := After(INITIAL, actions, maximum);
    assert v.commits == [full, empty] && v.serving == Some(full);
    StillServed(full, empty, full.routes[0]);
    assert !RaisedAfterGap(v.commits[0], v.commits[1], v.serving.value);
  }

  lemma NothingCommitted(command: IngressCommand)
    ensures !IsCommitted(EMPTY, command)
  {
  }

  lemma StillServed(full: IngressCommand, gap: IngressCommand, r: IngressRoute)
    requires r in full.routes && gap.routes == []
    ensures !RaisedAfterGap(full, gap, full)
  {
    assert r.routeId !in RouteIds(gap.routes);
  }

  lemma RemovalIsAdmissible(full: IngressCommand, empty: IngressCommand, maximum: nat)
    requires full.hostRevision < empty.hostRevision && empty.routes == [] && |RouteIds(full.routes)| <= maximum
    ensures CandidateRefusal(Promoted(Holding(full), full), empty, maximum).None?
    ensures !IsCommitted(Promoted(Holding(full), full), empty)
  {
    hide FencesOf;
    assert RouteIds(empty.routes) == {};
    assert Promoted(Holding(full), full).entries.Keys == RouteIds(full.routes);
  }

  /** Retirement holds for every committed removal, answered or not, exactly when no commit's write fails late. */
  lemma RetirementSurvivesUnlessCommitsFailLate(kinds: set<WriteKind>, maximum: nat)
    requires maximum >= 1
    ensures CommitWrite !in kinds <==>
      forall actions :: Allowed(INITIAL, actions, maximum) && LateOnly(actions, kinds) ==>
        RetiredNotServed(After(INITIAL, actions, maximum))
  {
    hide Allowed, After, LateWrite, RaisedAfterGap;
    if CommitWrite !in kinds {
      forall actions | Allowed(INITIAL, actions, maximum) && LateOnly(actions, kinds)
        ensures RetiredNotServed(After(INITIAL, actions, maximum))
      {
        AnsweredCommitsRetire(actions, maximum);
      }
    } else {
      var actions := LateCommitKeepsRetired(maximum);
      LateOnlyWidens(actions, {CommitWrite}, kinds);
    }
  }

  lemma AnsweredCommitsRetire(actions: seq<Action>, maximum: nat)
    requires Allowed(INITIAL, actions, maximum)
    requires forall i :: 0 <= i < |actions| ==> !LateWrite(actions[i], CommitWrite)
    ensures RetiredNotServed(After(INITIAL, actions, maximum))
  {
    hide Allowed, After, LateWrite, Durable, PhaseFits, CommitAcksHold, RaisedAfterGap;
    InvInitially(maximum);
    RunKeepsInv(INITIAL, actions, maximum);
    RunKeepsCommitsAnswered(INITIAL, actions, maximum);
  }

  lemma OtherKind(kinds: set<WriteKind>)
    requires !(kinds <= {PrepareWrite}) && AbortWrite !in kinds
    ensures CommitWrite in kinds
  {
    var kind :| kind in kinds && kind != PrepareWrite;
    assert kind == CommitWrite;
  }

  lemma LateOnlyWidens(actions: seq<Action>, few: set<WriteKind>, many: set<WriteKind>)
    requires LateOnly(actions, few) && few <= many
    ensures LateOnly(actions, many)
  {
    hide LateWrite;
  }
}
