/**
 What the agent answers to a prepare, commit or abort (internal/agent/runtime/ingress.go:38-113), told by the configs
 the host has committed so far, and what a call comes to when nothing fails in it.
 */
module IngressAnswers {
  import opened Common
  import opened IngressProtocol
  import opened IngressFence
  import opened IngressHistory
  import opened IngressRuns
  import opened IngressSafety
  import opened StateFiles

  // ----- What a request meets -----

  lemma PreparesAdmitAsHistory(w: World, command: IngressCommand, maximum: nat)
    requires Durable(w, maximum)
    ensures CandidateRefusal(w.memory, command, maximum).None? <==> Admissible(w.commits, command, maximum)
  {
    hide History, CandidateRefusal, Admissible, FencesMatch, WellFormedEntry, FileFollows;
    AdmittedExactly(w.commits, w.memory, command, maximum);
  }

  /** The agent refused a call and changed nothing. */
  function RefusedCall(w: World, op: Op, command: IngressCommand): World {
    w.(refused := w.refused + {(op, command)})
  }

  /**
   A prepare of the pending config goes on with it, one of another config is refused while there is one, and one of
   the committed config replays it. Any other is taken up exactly when the history admits it and its write succeeds.
   */
  lemma PrepareIsAnswered(w: World, command: IngressCommand, write: WriteOutcome, maximum: nat)
    requires Inv(w, maximum) && w.phase.Idle? && ValidIngressCommand(command)
    ensures var v := Next(w, Receive(OpPrepare, command, write), maximum);
      var pending, committed := w.memory.pending, w.memory.committed;
      if pending == Some(command) then v == w.(phase := Applying(command, PreparePending))
      else if pending.Some? then v == RefusedCall(w, OpPrepare, command)
      else if committed == Some(command) then v == w.(phase := Applying(command, PrepareCommitted))
      else if !Admissible(w.commits, command, maximum) then v == RefusedCall(w, OpPrepare, command)
      else
        var next := w.memory.(pending := Some(command));
        match write
        case Stored => v == w.(memory := next, disk := next, phase := Applying(command, PrepareNew))
        case Kept => v == w
        case ReplacedThenFailed => v == w.(disk := next)
  {
    hide WellFormed, History, CandidateRefusal, Admissible, CommitAcksHold, NothingRevived, FileFollows, IsCommitted,
      IsPending, ValidIngressCommand;
    ComparisonIsEquality(w.memory, command, maximum);
    PreparesAdmitAsHistory(w, command, maximum);
    NeverBlamesWrite(w.memory, command, maximum);
  }

  /** A candidate is never refused with an error that the server reads as "gateway unavailable". */
  lemma NeverBlamesWrite(s: StoreState, command: IngressCommand, maximum: nat)
    ensures CandidateRefusal(s, command, maximum) != Some(ErrWrite)
  {
    hide RouteRefusal;
    RoutesNeverBlameWrite(s.entries, command.routes);
  }

  lemma {:induction false} RoutesNeverBlameWrite(entries: map<string, Fence>, routes: seq<IngressRoute>)
    ensures RoutesRefusal(entries, routes) != Some(ErrWrite)
    decreases |routes|
  {
    if routes != [] { RoutesNeverBlameWrite(entries, routes[..|routes| - 1]); }
  }

  /** A commit replays the committed config, goes on with the pending one, and is refused for any other. */
  lemma CommitIsAnswered(w: World, command: IngressCommand, write: WriteOutcome, maximum: nat)
    requires Inv(w, maximum) && w.phase.Idle? && ValidIngressCommand(command)
    ensures var v := Next(w, Receive(OpCommit, command, write), maximum);
      if w.memory.committed == Some(command) then v == w.(phase := Publishing(command, true))
      else if w.memory.pending == Some(command) then v == w.(phase := Publishing(command, false))
      else v == RefusedCall(w, OpCommit, command)
  {
    hide WellFormed, History, CommitAcksHold, NothingRevived, FileFollows, IsCommitted, IsPending, ValidIngressCommand;
    ComparisonIsEquality(w.memory, command, maximum);
  }

  /**
   An abort goes on with the pending config, is refused for the committed one or while another is pending, and with
   nothing pending succeeds at once exactly for a revision above the committed one.
   */
  lemma AbortIsAnswered(w: World, command: IngressCommand, write: WriteOutcome, maximum: nat)
    requires Inv(w, maximum) && w.phase.Idle? && ValidIngressCommand(command)
    ensures var v := Next(w, Receive(OpAbort, command, write), maximum);
      var pending, committed := w.memory.pending, w.memory.committed;
      if pending == Some(command) then v == w.(phase := Restoring(command, OpAbort, Accepted))
      else if pending.None? && command.hostRevision > CommittedRevision(w) then
        v == w.(acked := w.acked + {(OpAbort, command)})
      else v == RefusedCall(w, OpAbort, command)
  {
    hide History, CommitAcksHold, NothingRevived, FileFollows, IsCommitted, IsPending, ValidIngressCommand,
      CandidateRefusal, FencesMatch, WellFormedEntry;
    ComparisonIsEquality(w.memory, command, maximum);
    if w.memory.pending.Some? { PendingIsNew(w, maximum); }
    RevisionIsPositive(command);
  }

  lemma RevisionIsPositive(command: IngressCommand)
    requires ValidIngressCommand(command)
    ensures command.hostRevision > 0
  {
  }

  // ----- What it comes to -----

  /** An admissible prepare in which nothing fails is answered with success, served, pending and on file. */
  lemma AdmissiblePrepareSucceeds(w: World, command: IngressCommand, maximum: nat) returns (actions: seq<Action>)
    requires Inv(w, maximum) && w.phase.Idle? && ValidIngressCommand(command) && w.memory.pending.None?
    requires Admissible(w.commits, command, maximum)
    ensures Allowed(w, actions, maximum) && LateOnly(actions, {})
    ensures var v := After(w, actions, maximum);
      && v.phase.Idle? && v.memory == w.memory.(pending := Some(command)) && v.disk == v.memory
      && v.serving == Some(command) && v.commits == w.commits && (OpPrepare, command) in v.acked
  {
    hide Inv, ValidIngressCommand, CandidateRefusal, IsCommitted, Allowed, After, LateOnly, Admissible;
    AdmittedIsNew(w, command, maximum);
    actions := UndisturbedPrepare(w, command, maximum);
  }

  lemma AdmittedIsNew(w: World, command: IngressCommand, maximum: nat)
    requires Inv(w, maximum) && ValidIngressCommand(command) && Admissible(w.commits, command, maximum)
    ensures CandidateRefusal(w.memory, command, maximum).None? && !IsCommitted(w.memory, command)
  {
    hide ValidIngressCommand, History, RoutesRefusal, NewEntries, WellFormed, FileFollows, Admissible;
    PreparesAdmitAsHistory(w, command, maximum);
  }

  /** A commit of the pending config in which nothing fails makes it the committed one, on file and served. */
  lemma PendingCommitSucceeds(w: World, command: IngressCommand, maximum: nat) returns (actions: seq<Action>)
    requires Inv(w, maximum) && w.phase.Idle? && ValidIngressCommand(command) && w.memory.pending == Some(command)
    ensures Allowed(w, actions, maximum) && LateOnly(actions, {})
    ensures var v := After(w, actions, maximum);
      && v.phase.Idle? && v.memory.committed == Some(command) && v.memory.pending.None? && v.disk == v.memory
      && v.serving == Some(command) && v.commits == w.commits + [command] && (OpCommit, command) in v.acked
  {
    hide Inv, ValidIngressCommand, Deactivated, FencesOf;
    PendingIsNotTheCommitted(w, command, maximum);
    var w1 := Next(w, Receive(OpCommit, command, Stored), maximum);
    var w2 := Next(w1, Apply(Accepted, true), maximum);
    AllowedCons(w2, StoreCommit(Stored), [], maximum);
    AllowedCons(w1, Apply(Accepted, true), [StoreCommit(Stored)] + [], maximum);
    AllowedCons(w, Receive(OpCommit, command, Stored), [Apply(Accepted, true)] + ([StoreCommit(Stored)] + []), maximum);
    actions := [Receive(OpCommit, command, Stored)] + ([Apply(Accepted, true)] + ([StoreCommit(Stored)] + []));
  }

  lemma PendingIsNotTheCommitted(w: World, command: IngressCommand, maximum: nat)
    requires Inv(w, maximum) && w.memory.pending == Some(command)
    ensures IsPending(w.memory, command) && !IsCommitted(w.memory, command)
  {
    hide WellFormed, History, FileFollows, PhaseFits, CommitAcksHold, NothingRevived;
    PendingIsNotCommitted(w.memory, command, maximum);
  }

  /** An abort of the pending config in which nothing fails drops it, on file too, and brings back the committed one. */
  lemma PendingAbortSucceeds(w: World, command: IngressCommand, maximum: nat) returns (actions: seq<Action>)
    requires Inv(w, maximum) && w.phase.Idle? && ValidIngressCommand(command) && w.memory.pending == Some(command)
    ensures Allowed(w, actions, maximum) && LateOnly(actions, {})
    ensures var v := After(w, actions, maximum);
      && v.phase.Idle? && v.memory == w.memory.(pending := None) && v.disk == v.memory
      && v.serving == w.memory.committed && v.commits == w.commits && (OpAbort, command) in v.acked
  {
    hide Inv, ValidIngressCommand;
    PendingIsNotTheCommitted(w, command, maximum);
    var w1 := Next(w, Receive(OpAbort, command, Stored), maximum);
    var w2 := Next(w1, Restore(Accepted, true), maximum);
    AllowedCons(w2, StoreAbort(Stored), [], maximum);
    AllowedCons(w1, Restore(Accepted, true), [StoreAbort(Stored)] + [], maximum);
    AllowedCons(w, Receive(OpAbort, command, Stored), [Restore(Accepted, true)] + ([StoreAbort(Stored)] + []), maximum);
    actions := [Receive(OpAbort, command, Stored)] + ([Restore(Accepted, true)] + ([StoreAbort(Stored)] + []));
  }

  /**
   A prepare whose gateway call or probe fails is answered with that failure and nothing else, once the committed
   config is back and the prepared one dropped; a replay of the committed config is only answered.
   */
  lemma FailedPrepareIsUndone(w: World, failure: Action, maximum: nat) returns (actions: seq<Action>)
    requires Inv(w, maximum) && (w.phase.Applying? || w.phase.Probing?) && Enabled(w, failure)
    requires (failure.Apply? || failure.Probe?) && failure.reply != Accepted
    ensures Allowed(w, [failure] + actions, maximum) && LateOnly([failure] + actions, {})
    ensures var v, command := After(w, [failure] + actions, maximum), w.phase.command;
      && v.phase.Idle? && v.memory == w.memory.(pending := None) && v.commits == w.commits && v.acked == w.acked
      && v.refused == (if failure.reply == Refused then w.refused + {(OpPrepare, command)} else w.refused)
      && (w.phase.state == PrepareCommitted ==> v.disk == w.disk)
      && (w.phase.state != PrepareCommitted ==> v.disk == v.memory && v.serving == w.memory.committed)
  {
    hide Durable, CommitAcksHold, NothingRevived, ValidIngressCommand, IsCommitted, IsPending;
    var w1 := Next(w, failure, maximum);
    if w.phase.state == PrepareCommitted {
      actions := [];
      AllowedCons(w, failure, [], maximum);
    } else {
      PendingIsNotTheCommitted(w, w.phase.command, maximum);
      var w2 := Next(w1, Restore(Accepted, true), maximum);
      AllowedCons(w2, StoreAbort(Stored), [], maximum);
      AllowedCons(w1, Restore(Accepted, true), [StoreAbort(Stored)] + [], maximum);
      actions := [Restore(Accepted, true)] + ([StoreAbort(Stored)] + []);
      AllowedCons(w, failure, actions, maximum);
    }
  }
}
