/**
 `IngressExecutor` (internal/agent/runtime/ingress.go): prepare, commit and abort against a fence
 store and a gateway. Each method returns the list of steps it took, and its contract says that
 they are a run of the step system of IngressRuns.dfy from the old world to the new one; a crash
 between two effects is therefore a prefix of that list followed by `Crash`.
 */
module IngressExecutor {
  import opened Common
  import opened IngressProtocol
  import opened IngressFence
  import opened IngressFenceStore
  import opened IngressRuns
  import opened StateFiles

  datatype GatewayError =
    | GatewayUnavailable | ConfigurationRejected | PortConflict | CertificateUnavailable | BackendUnhealthy

  datatype ExecutorError = ErrConfiguration | ErrFence(error: StoreError) | ErrGatewayCall(reason: GatewayError)

  function GatewayReply(reason: GatewayError): Reply { if reason.GatewayUnavailable? then Unavailable else Refused }

  /** What the server reads in the executor's answer. */
  function ReplyOf<T>(result: Result<T, ExecutorError>): Reply {
    match result
    case Ok(_) => Accepted
    case Err(ErrConfiguration) => Refused
    case Err(ErrFence(error)) => StoreReply(error)
    case Err(ErrGatewayCall(reason)) => GatewayReply(reason)
  }

  /** What a gateway call comes to: a digest that is not the command's is a configuration error. */
  function ApplyReply(digest: Result<string, GatewayError>, command: IngressCommand): Result<(), GatewayError> {
    match digest
    case Ok(value) => if value == command.configDigest then Ok(()) else Err(ConfigurationRejected)
    case Err(reason) => Err(reason)
  }

  function CallReply(call: Result<(), GatewayError>): Reply {
    match call
    case Ok(_) => Accepted
    case Err(reason) => GatewayReply(reason)
  }

  /** What a gateway call was answered. */
  datatype Hearing =
    | Digest(digest: Result<string, GatewayError>)
    | Health(healthy: Result<(), GatewayError>)
    | Cleared(cleared: Result<(), GatewayError>)

  /** The gateway runs the command, and says so with the command's own digest. */
  predicate Runs(h: Hearing, command: IngressCommand) { h.Digest? && h.digest == Ok(command.configDigest) }

  /** It failed for this reason; another digest than the command's is a rejected configuration. */
  predicate FailsFor(h: Hearing, command: IngressCommand, reason: GatewayError) {
    && h.Digest?
    && match h.digest
       case Ok(value) => value != command.configDigest && reason == ConfigurationRejected
       case Err(error) => reason == error
  }

  /** What the gateway answered in a prepare decides it, once the store has begun it. */
  predicate PrepareHeard(command: IngressCommand, reply: Result<IngressResult, ExecutorError>, heard: seq<Hearing>) {
    match reply
    case Ok(_) => |heard| == 2 && Runs(heard[0], command) && heard[1].Health? && heard[1].healthy.Ok?
    case Err(ErrGatewayCall(reason)) =>
      || (|heard| >= 1 && FailsFor(heard[0], command, reason))
      || (|heard| >= 2 && Runs(heard[0], command) && heard[1].Health? && heard[1].healthy == Err(reason))
    case Err(_) => heard == []
  }

  lemma HeardEnough(command: IngressCommand, reason: GatewayError, early: seq<Hearing>, heard: seq<Hearing>)
    requires PrepareHeard(command, Err(ErrGatewayCall(reason)), early) && early <= heard
    ensures PrepareHeard(command, Err(ErrGatewayCall(reason)), heard)
  {
  }

  /** So it does in a commit, before the store's part. */
  predicate CommitHeard(command: IngressCommand, reply: Result<IngressResult, ExecutorError>, heard: seq<Hearing>) {
    match reply
    case Ok(_) => |heard| == 1 && Runs(heard[0], command)
    case Err(ErrGatewayCall(reason)) => |heard| == 1 && FailsFor(heard[0], command, reason)
    case Err(_) => heard == [] || (|heard| == 1 && Runs(heard[0], command))
  }

  /** The committed config runs again, or the gateway is cleared when there is none. */
  predicate Restores(committed: Option<IngressCommand>, heard: seq<Hearing>) {
    && |heard| == 1
    && if committed.None? then heard[0].Cleared? && heard[0].cleared.Ok? else Runs(heard[0], committed.value)
  }

  predicate FailsToRestore(committed: Option<IngressCommand>, heard: seq<Hearing>, reason: GatewayError) {
    && |heard| == 1
    && if committed.None? then heard[0].Cleared? && heard[0].cleared == Err(reason)
       else FailsFor(heard[0], committed.value, reason)
  }

  /** And in an abort that has something to drop. */
  predicate AbortHeard(committed: Option<IngressCommand>, reply: Result<IngressResult, ExecutorError>,
                       heard: seq<Hearing>)
  {
    match reply
    case Err(ErrGatewayCall(reason)) => FailsToRestore(committed, heard, reason)
    case _ => heard == [] || Restores(committed, heard)
  }

  /** A gateway whose calls may fail before or after taking effect. */
  class IngressGateway {
    var serving: Option<IngressCommand>
    /** What its calls were answered, in order. */
    ghost var heard: seq<Hearing>

    constructor ()
      ensures serving == None && heard == []
    {
      serving, heard := None, [];
    }

    /** On success the digest is the gateway's own; the executor compares it with the command's. */
    method Apply(command: IngressCommand) returns (digest: Result<string, GatewayError>)
      modifies this
      ensures serving == Some(command) || (digest.Err? && serving == old(serving))
      ensures heard == old(heard) + [Digest(digest)]
    {
      if * {
        serving, digest := Some(command), Ok(command.configDigest);
      } else if * {
        var other: string := *;
        serving, digest := Some(command), Ok(other);
      } else {
        if * { serving := Some(command); }
        var reason := AnyError();
        digest := Err(reason);
      }
      heard := heard + [Digest(digest)];
    }

    method AnyError() returns (reason: GatewayError) {
      reason := *;
    }

    method Clear() returns (cleared: Result<(), GatewayError>)
      modifies this
      ensures serving == None || (cleared.Err? && serving == old(serving))
      ensures heard == old(heard) + [Cleared(cleared)]
    {
      if * {
        serving, cleared := None, Ok(());
      } else {
        if * { serving := None; }
        var reason := AnyError();
        cleared := Err(reason);
      }
      heard := heard + [Cleared(cleared)];
    }

    /** Without routes to probe there is nothing to fail. */
    method Probe(command: IngressCommand) returns (healthy: Result<(), GatewayError>)
      modifies this`heard
      ensures command.probeRouteIds == [] ==> healthy.Ok?
      ensures heard == old(heard) + [Health(healthy)]
    {
      healthy := Ok(());
      var fails := *;
      if command.probeRouteIds != [] && fails {
        var reason := AnyError();
        healthy := Err(reason);
      }
      heard := heard + [Health(healthy)];
    }
  }

  lemma RunGrows(w: World, actions: seq<Action>, a: Action, maximum: nat)
    requires Allowed(w, actions, maximum) && Enabled(After(w, actions, maximum), a)
    ensures Allowed(w, actions + [a], maximum)
    ensures After(w, actions + [a], maximum) == Next(After(w, actions, maximum), a, maximum)
  {
    hide Next, Enabled;
    assert Allowed(Next(After(w, actions, maximum), a, maximum), [a][1..], maximum);
    AfterConcat(w, actions, [a], maximum);
  }

  class IngressExecutor {
    const store: FileIngressFenceStore
    const gateway: IngressGateway
    ghost var commits: seq<IngressCommand>
    ghost var acked: set<(Op, IngressCommand)>
    ghost var refused: set<(Op, IngressCommand)>

    constructor (store: FileIngressFenceStore, gateway: IngressGateway)
      ensures this.store == store && this.gateway == gateway && commits == [] && acked == refused == {}
    {
      this.store, this.gateway, commits, acked, refused := store, gateway, [], {}, {};
    }

    /** What the step system sees while no call is running. */
    ghost function AtRest(): World
      reads this, store, gateway
    {
      World(store.Memory(), store.disk, gateway.serving, Idle, commits, acked, refused)
    }

    /** The steps of one call: it starts with the request and leads from `before` to rest. */
    ghost predicate Took(before: World, op: Op, command: IngressCommand, actions: seq<Action>)
      reads this, store, gateway
    {
      && actions != [] && actions[0].Receive? && actions[0].op == op && actions[0].command == command
      && Allowed(before, actions, store.maximum) && After(before, actions, store.maximum) == AtRest()
    }

    /** The call is under way: the run so far ends in `phase`. */
    ghost predicate UnderWay(before: World, op: Op, command: IngressCommand, actions: seq<Action>, phase: Phase)
      reads this, store, gateway
    {
      && actions != [] && actions[0].Receive? && actions[0].op == op && actions[0].command == command
      && Allowed(before, actions, store.maximum)
      && After(before, actions, store.maximum) == AtRest().(phase := phase)
    }

    /** The answer is recorded for the run; a refusal and a success each only as what they are. */
    ghost method Note(op: Op, command: IngressCommand, reply: Reply)
      modifies this`acked, this`refused
      ensures acked == if reply == Accepted then old(acked) + {(op, command)} else old(acked)
      ensures refused == if reply == Refused then old(refused) + {(op, command)} else old(refused)
    {
      if reply == Accepted { acked := acked + {(op, command)}; }
      if reply == Refused { refused := refused + {(op, command)}; }
    }

    method RestoreCommitted() returns (restored: Result<(), GatewayError>, ghost took: bool)
      modifies gateway
      ensures gateway.serving == if restored.Ok? || took then store.committed else old(gateway.serving)
      ensures old(gateway.heard) <= gateway.heard
      ensures var heard := gateway.heard[|old(gateway.heard)|..];
        if restored.Ok? then Restores(store.committed, heard)
        else FailsToRestore(store.committed, heard, restored.error)
    {
      took := false;
      if store.committed.None? {
        restored := gateway.Clear();
      } else {
        var digest := gateway.Apply(store.committed.value);
        restored := ApplyReply(digest, store.committed.value);
      }
      took := gateway.serving == store.committed;
    }

    /** Restores the committed config and, only then, drops the pending one; the prepare's own error stands. */
    method Abandon(command: IngressCommand, ghost before: World, ghost run: seq<Action>, ghost cause: Reply)
      returns (ghost actions: seq<Action>)
      requires store.Valid() && ValidIngressCommand(command) && cause != Accepted
      requires UnderWay(before, OpPrepare, command, run, Restoring(command, OpPrepare, cause))
      modifies this`acked, this`refused, store, store.file, gateway
      ensures store.Valid() && Took(before, OpPrepare, command, actions)
      ensures old(gateway.heard) <= gateway.heard
      ensures acked == old(acked)
      ensures refused == if cause == Refused then old(refused) + {(OpPrepare, command)} else old(refused)
    {
      hide ValidIngressCommand, Allowed, After, SameConfig, Denotes;
      ghost var took;
      var restored;
      restored, took := RestoreCommitted();
      ghost var restore := Restore(CallReply(restored), took);
      RunGrows(before, run, restore, store.maximum);
      actions := run + [restore];
      if restored.Ok? {
        var reply;
        ghost var write;
        reply, write := store.Abort(command);
        RunGrows(before, actions, StoreAbort(write), store.maximum);
        actions := actions + [StoreAbort(write)];
      }
      Note(OpPrepare, command, cause);
    }

    method Prepare(command: IngressCommand)
      returns (reply: Result<IngressResult, ExecutorError>, ghost actions: seq<Action>)
      requires store.Valid()
      modifies this, store, store.file, gateway
      ensures store.Valid()
      ensures ValidIngressCommand(command) ==> Took(old(AtRest()), OpPrepare, command, actions)
      ensures !ValidIngressCommand(command) ==> reply == Err(ErrConfiguration) && AtRest() == old(AtRest())
      ensures ValidIngressCommand(command) ==> Noted(old(acked), old(refused), OpPrepare, command, ReplyOf(reply))
      ensures reply.Ok? ==> reply.value == IngressResult(command.hostRevision, command.configDigest)
      ensures old(gateway.heard) <= gateway.heard
      ensures PrepareHeard(command, reply, gateway.heard[|old(gateway.heard)|..])
    {
      hide ValidIngressCommand, SameConfig, Denotes, CandidateRefusal, Allowed, After;
      ghost var before := AtRest();
      actions := [];
      var valid := ValidateIngressCommand(command);
      if !valid { return Err(ErrConfiguration), []; }
      var begun;
      ghost var write;
      begun, write := store.Begin(command);
      actions := StartRun(before, Receive(OpPrepare, command, write));
      if begun.Err? {
        Note(OpPrepare, command, StoreReply(begun.error));
        return Err(ErrFence(begun.error)), actions;
      }
      reply, actions := ApplyAndProbe(command, begun.value, before, actions);
    }

    /** The rest of a prepare the store has begun. */
    method ApplyAndProbe(command: IngressCommand, state: PrepareState, ghost before: World, ghost run: seq<Action>)
      returns (reply: Result<IngressResult, ExecutorError>, ghost actions: seq<Action>)
      requires store.Valid() && ValidIngressCommand(command)
      requires UnderWay(before, OpPrepare, command, run, Applying(command, state))
      modifies this`acked, this`refused, store, store.file, gateway
      ensures store.Valid() && Took(before, OpPrepare, command, actions)
      ensures Noted(old(acked), old(refused), OpPrepare, command, ReplyOf(reply))
      ensures reply.Ok? ==> reply.value == IngressResult(command.hostRevision, command.configDigest)
      ensures old(gateway.heard) <= gateway.heard
      ensures PrepareHeard(command, reply, gateway.heard[|old(gateway.heard)|..])
      ensures reply.Err? ==> reply.error.ErrGatewayCall?
    {
      hide ValidIngressCommand, SameConfig, Denotes, CandidateRefusal, Allowed, After;
      var digest := gateway.Apply(command);
      var call := ApplyReply(digest, command);
      ghost var apply := Apply(CallReply(call), gateway.serving == Some(command));
      RunGrows(before, run, apply, store.maximum);
      actions := run + [apply];
      if call.Ok? {
        call := gateway.Probe(command);
        RunGrows(before, actions, Probe(CallReply(call)), store.maximum);
        actions := actions + [Probe(CallReply(call))];
      }
      ghost var early := gateway.heard[|old(gateway.heard)|..];
      if call.Err? {
        assert PrepareHeard(command, Err(ErrGatewayCall(call.error)), early);
        if state != PrepareCommitted {
          actions := Abandon(command, before, actions, GatewayReply(call.error));
        } else {
          Note(OpPrepare, command, GatewayReply(call.error));
        }
        HeardEnough(command, call.error, early, gateway.heard[|old(gateway.heard)|..]);
        return Err(ErrGatewayCall(call.error)), actions;
      }
      Note(OpPrepare, command, Accepted);
      return Ok(IngressResult(command.hostRevision, command.configDigest)), actions;
    }

    ghost predicate Noted(acked: set<(Op, IngressCommand)>, refused: set<(Op, IngressCommand)>, op: Op,
                          command: IngressCommand, reply: Reply)
      reads this
    {
      && this.acked == (if reply == Accepted then acked + {(op, command)} else acked)
      && this.refused == (if reply == Refused then refused + {(op, command)} else refused)
    }

    ghost method StartRun(before: World, a: Action) returns (actions: seq<Action>)
      requires Enabled(before, a)
      ensures actions == [a] && Allowed(before, actions, store.maximum)
      ensures After(before, actions, store.maximum) == Next(before, a, store.maximum)
    {
      hide Enabled, Next;
      actions := [a];
      assert actions[1..] == [];
    }

    method Commit(command: IngressCommand)
      returns (reply: Result<IngressResult, ExecutorError>, ghost actions: seq<Action>)
      requires store.Valid()
      modifies this, store, store.file, gateway
      ensures store.Valid()
      ensures ValidIngressCommand(command) ==> Took(old(AtRest()), OpCommit, command, actions)
      ensures !ValidIngressCommand(command) ==> reply == Err(ErrConfiguration) && AtRest() == old(AtRest())
      ensures ValidIngressCommand(command) ==> Noted(old(acked), old(refused), OpCommit, command, ReplyOf(reply))
      ensures reply.Ok? ==> reply.value == IngressResult(command.hostRevision, command.configDigest)
      ensures old(gateway.heard) <= gateway.heard
      ensures CommitHeard(command, reply, gateway.heard[|old(gateway.heard)|..])
    {
      hide ValidIngressCommand, SameConfig, Denotes, Promoted, Allowed, After;
      ghost var before := AtRest();
      actions := [];
      var valid := ValidateIngressCommand(command);
      if !valid { return Err(ErrConfiguration), []; }
      var already := store.CanCommit(command);
      actions := StartRun(before, Receive(OpCommit, command, Kept));
      if already.Err? {
        Note(OpCommit, command, StoreReply(already.error));
        return Err(ErrFence(already.error)), actions;
      }

      var digest := gateway.Apply(command);
      var call := ApplyReply(digest, command);
      ghost var apply := Apply(CallReply(call), gateway.serving == Some(command));
      RunGrows(before, actions, apply, store.maximum);
      actions := actions + [apply];
      if call.Err? {
        Note(OpCommit, command, GatewayReply(call.error));
        return Err(ErrGatewayCall(call.error)), actions;
      }
      if !already.value {
        var stored;
        ghost var write;
        stored, write := store.Commit(command);
        RunGrows(before, actions, StoreCommit(write), store.maximum);
        actions := actions + [StoreCommit(write)];
        if stored.Err? { return Err(ErrFence(stored.error)), actions; }
        commits := commits + [command];
      }
      Note(OpCommit, command, Accepted);
      return Ok(IngressResult(command.hostRevision, command.configDigest)), actions;
    }

    method Abort(command: IngressCommand)
      returns (reply: Result<IngressResult, ExecutorError>, ghost actions: seq<Action>)
      requires store.Valid()
      modifies this, store, store.file, gateway
      ensures store.Valid()
      ensures ValidIngressCommand(command) ==> Took(old(AtRest()), OpAbort, command, actions)
      ensures !ValidIngressCommand(command) ==> reply == Err(ErrConfiguration) && AtRest() == old(AtRest())
      ensures ValidIngressCommand(command) ==> Noted(old(acked), old(refused), OpAbort, command, ReplyOf(reply))
      ensures reply.Ok? ==> reply.value == IngressResult(command.hostRevision, command.configDigest)
      ensures old(gateway.heard) <= gateway.heard
      ensures AbortHeard(old(store.committed), reply, gateway.heard[|old(gateway.heard)|..])
    {
      hide ValidIngressCommand, SameConfig, Denotes, Allowed, After;
      ghost var before := AtRest();
      actions := [];
      var valid := ValidateIngressCommand(command);
      if !valid { return Err(ErrConfiguration), []; }
      var already := store.CanAbort(command);
      actions := StartRun(before, Receive(OpAbort, command, Kept));
      if already.Err? {
        Note(OpAbort, command, StoreReply(already.error));
        return Err(ErrFence(already.error)), actions;
      }
      if !already.value {
        var restored;
        ghost var took;
        restored, took := RestoreCommitted();
        ghost var restore := Restore(CallReply(restored), took);
        RunGrows(before, actions, restore, store.maximum);
        actions := actions + [restore];
        if restored.Err? {
          Note(OpAbort, command, GatewayReply(restored.error));
          return Err(ErrGatewayCall(restored.error)), actions;
        }
        var dropped;
        ghost var write;
        dropped, write := store.Abort(command);
        RunGrows(before, actions, StoreAbort(write), store.maximum);
        actions := actions + [StoreAbort(write)];
        if dropped.Err? { return Err(ErrFence(dropped.error)), actions; }
      }
      Note(OpAbort, command, Accepted);
      return Ok(IngressResult(command.hostRevision, command.configDigest)), actions;
    }

    /** A crash in the run is the agent starting again from its file, exactly when the IDs in the file load. */
    method Restart() returns (loaded: bool)
      requires store.Valid() && Inv(AtRest(), store.maximum)
      modifies this`commits, store`committed, store`pending, store`entries
      ensures store.Valid() && (loaded <==> LoaderIds(store.disk))
      ensures loaded ==> AtRest() == Next(old(AtRest()), Crash, store.maximum) && Inv(AtRest(), store.maximum)
    {
      hide LoaderIds, WellFormed, Denotes, Inv;
      SoundFile(AtRest(), store.maximum);
      CrashKeepsInv(AtRest(), store.maximum);
      ghost var crashed := Crashed(AtRest());
      loaded := store.Restart();
      if loaded { commits := crashed.commits; }
    }
  }
}
