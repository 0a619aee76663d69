/**
 The executor's own state (internal/agent/runtime/docker_probe.go:106-170, 267-310): the result cache, the table
 of in-flight records, and the locked steps on them. Each method is proved to take one step of
 CommandExecution.dfy; calls of different clients interleave between the methods.
 */
module CommandRunner {
  import opened AgentCommands
  import opened CommandExecution
  import opened CommandFingerprint
  import opened CommandResults
  import opened Common
  import opened IngressProtocol
  import opened ResultCache
  import opened StateFiles

  /** `pendingProbeExecution`: the command, and once closed the owner's result, or none for an error. */
  datatype InFlightRecord = InFlightRecord(command: AgentCommand, closed: bool, result: Option<CommandResult>)

  ghost predicate Mirrors(records: seq<InFlightRecord>, ghosts: seq<Pending>) {
    && |records| == |ghosts|
    && forall r :: 0 <= r < |records| ==>
      && records[r].command == ghosts[r].command && records[r].closed == ghosts[r].reply.Some?
      && (records[r].closed ==> records[r].result == ResultOf(ghosts[r].reply.value))
  }

  // ----- The cache's contracts, said of its history -----

  lemma MapHoldsWindow(entries: map<string, CacheEntry>, order: seq<string>, h: History, maximum: nat, id: string)
    requires Represents(entries, order, Window(h, maximum))
    ensures id in entries <==> Cached(h, maximum, id)
    ensures Cached(h, maximum, id) ==> entries[id] == h[Position(h, maximum, id)].entry
  {
    hide Represents, Window, DistinctIds;
    var w := Window(h, maximum);
    OrderMirrorsEntries(entries, order, w);
    if id in entries {
      var i :| 0 <= i < |order| && order[i] == id;
      RepresentedAt(entries, order, w, i);
      WindowStarts(h, maximum, i);
      assert CachedAt(h, maximum, id, |h| - |w| + i);
    }
    if Cached(h, maximum, id) {
      var i := Position(h, maximum, id);
      WindowPlaces(h, maximum, i);
      RepresentedAt(entries, order, w, i - (|h| - |w|));
      assert order[i - (|h| - |w|)] in order;
    }
  }

  lemma MapShowsWindow(entries: map<string, CacheEntry>, order: seq<string>, w: History, id: string)
    requires Represents(entries, order, w)
    ensures forall i :: 0 <= i < |w| && w[i].id == id ==> id in entries && entries[id] == w[i].entry
    ensures id in entries ==> exists i :: 0 <= i < |w| && w[i].id == id
  {
    hide DistinctIds;
    if id in entries {
      var i :| 0 <= i < |order| && order[i] == id;
      assert w[i].id == id;
    }
  }

  lemma RepresentedAt(entries: map<string, CacheEntry>, order: seq<string>, w: History, i: nat)
    requires Represents(entries, order, w) && i < |w|
    ensures |order| == |w| && order[i] == w[i].id && w[i].id in entries && entries[w[i].id] == w[i].entry
  {
  }

  /**
   Whether the result of a durable command is handed on: it is valid, and it is the one kept for this very command or,
   when none is kept for its ID, it has been stored.
   */
  ghost predicate CompletedAs(w: History, command: AgentCommand, result: CommandResult, write: WriteOutcome,
                              handedOn: bool)
  {
    if !ValidResult(result, command) then !handedOn
    else
      && (forall i :: 0 <= i < |w| && w[i].id == command.id ==>
        (handedOn <==> Matches(w[i].entry, command) && w[i].entry.result == result))
      && ((forall i :: 0 <= i < |w| ==> w[i].id != command.id) ==> (handedOn <==> write.Stored?))
  }

  class CommandRunner {
    const cache: FileResultCache
    var pending: map<string, nat>
    var records: seq<InFlightRecord>
    ghost var world: World

    ghost predicate Valid()
      reads this, cache, cache.file
    {
      && cache.Valid() && Inv(world, cache.maximum)
      && cache.history == world.history && cache.fileHistory == world.fileHistory
      && pending == world.pending && Mirrors(records, world.records)
    }

    constructor (cache: FileResultCache)
      requires cache.Valid() && cache.history == [] && cache.fileHistory == []
      ensures Valid() && this.cache == cache && world == START
    {
      this.cache, pending, records, world := cache, map[], [], START;
      StartIsSound(cache.maximum);
    }

    /** A valid command arrives: a cached result, a refusal, or `None` when it has to run. */
    method Enter(command: AgentCommand) returns (answer: Option<Option<CommandResult>>)
      requires Valid() && ValidCommand(command) && SizedCommand(command)
      modifies this`world
      ensures Valid() && world == Next(old(world), Arrive(command), cache.maximum)
      ensures var stage := world.calls[|old(world).calls|].stage;
        if stage.Done? then answer == Some(ResultOf(stage.reply)) else answer == None && stage.Missed?
      ensures var w := Window(cache.history, cache.maximum);
        && (answer == None <==>
          DurableResult(command.kind) ==> forall i :: 0 <= i < |w| ==> w[i].id != command.id)
        && forall i :: 0 <= i < |w| && w[i].id == command.id && DurableResult(command.kind) ==>
          answer == Some(if Matches(w[i].entry, command) then Some(w[i].entry.result) else None)
    {
      hide ValidCommand, SizedCommand, Inv, Represents, ProperHistory, Window, FingerprintBytes, DistinctIds, Writes,
        Mirrors;
      StepKeepsInv(world, Arrive(command), cache.maximum);
      MapHoldsWindow(cache.entries, cache.order, cache.history, cache.maximum, command.id);
      if DurableResult(command.kind) {
        var reply := cache.Lookup(command);
        LookupPlace(command);
        answer := if reply.Err? then Some(None) else if reply.value.None? then None else Some(reply.value);
      } else {
        answer := None;
      }
      world := Arrived(world, command, cache.maximum);
    }

    lemma LookupPlace(command: AgentCommand)
      requires Valid()
      ensures var w := Window(cache.history, cache.maximum);
        && (Cached(cache.history, cache.maximum, command.id) <==> exists i :: 0 <= i < |w| && w[i].id == command.id)
        && (Cached(cache.history, cache.maximum, command.id) ==>
          var place := Position(cache.history, cache.maximum, command.id);
          exists i :: 0 <= i < |w| && w[i].id == command.id && w[i] == cache.history[place])
    {
      hide Inv, ProperHistory, Represents, Writes, Mirrors;
      var h, w := cache.history, Window(cache.history, cache.maximum);
      if i :| 0 <= i < |w| && w[i].id == command.id {
        assert CachedAt(h, cache.maximum, command.id, |h| - |w| + i);
      }
      if Cached(h, cache.maximum, command.id) {
        WindowPlaces(h, cache.maximum, Position(h, cache.maximum, command.id));
      }
    }

    /** `begin`: the record to wait on or to own, or a refusal. */
    method Join(ghost k: nat, command: AgentCommand) returns (joined: Option<(nat, bool)>)
      requires Valid() && Enabled(world, Step.Begin(k)) && world.calls[k].command == command
      modifies this`pending, this`records, this`world
      ensures Valid() && world == Next(old(world), Step.Begin(k), cache.maximum)
      ensures match world.calls[k].stage
        case Owner(r) => joined == Some((r, true))
        case Waiter(r) => joined == Some((r, false))
        case _ => joined == None
      ensures command.id !in old(pending) ==>
        && joined == Some((|old(records)|, true)) && pending == old(pending)[command.id := |old(records)|]
        && records == old(records) + [InFlightRecord(command, false, None)]
      ensures command.id in old(pending) ==>
        && pending == old(pending) && records == old(records) && pending[command.id] < |records|
        && joined == if SameCommand(records[pending[command.id]].command, command)
                     then Some((pending[command.id], false)) else None
    {
      hide ValidCommand, SizedCommand, Represents, ProperHistory, Window, FingerprintBytes, Spaced, Agrees;
      StepKeepsInv(world, Step.Begin(k), cache.maximum);
      assert CallSound(world, k);
      if command.id in pending {
        var r := pending[command.id];
        assert RecordSound(world, r);
        ValidMatchesKind(records[r].command);
        ValidMatchesKind(command);
        BytesDetermineCommand(records[r].command, command);
        var equivalent := Equivalent(records[r].command, command);
        joined := if equivalent then Some((r, false)) else None;
      } else {
        joined := Some((|records|, true));
        pending := pending[command.id := |records|];
        records := records + [InFlightRecord(command, false, None)];
      }
      world := Joined(world, k);
    }

    /** `finish`: closes the record, hands it the owner's result and frees the ID. */
    method Close(ghost k: nat, r: nat, id: string, result: Option<CommandResult>)
      requires Valid() && Enabled(world, Step.Finish(k))
      requires world.calls[k].stage.record == r && world.calls[k].command.id == id
      requires ResultOf(world.calls[k].stage.reply) == result
      modifies this`pending, this`records, this`world
      ensures Valid() && world == Next(old(world), Step.Finish(k), cache.maximum)
      ensures pending == old(pending) - {id} && r < |old(records)|
      ensures records == old(records)[r := InFlightRecord(old(records)[r].command, true, result)]
    {
      hide ValidCommand, SizedCommand, Represents, ProperHistory, Window, FingerprintBytes, Spaced, Agrees, Inv;
      StepKeepsInv(world, Step.Finish(k), cache.maximum);
      pending := pending - {id};
      records := records[r := InFlightRecord(records[r].command, true, result)];
      world := Finished(world, k);
    }

    /** A waiter takes the closed record's result. */
    method Take(ghost k: nat, r: nat) returns (result: Option<CommandResult>)
      requires Valid() && Enabled(world, Step.Collect(k)) && world.calls[k].stage.record == r
      modifies this`world
      ensures Valid() && world == Next(old(world), Step.Collect(k), cache.maximum)
      ensures world.calls[k].stage.Done? && result == ResultOf(world.calls[k].stage.reply)
      ensures r < |records| && records[r].closed && result == records[r].result
    {
      hide ValidCommand, SizedCommand, Represents, ProperHistory, Window, FingerprintBytes, Spaced, Agrees, Inv;
      StepKeepsInv(world, Step.Collect(k), cache.maximum);
      result := records[r].result;
      world := Next(world, Step.Collect(k), cache.maximum);
    }

    /** The end of `execute`: stores what the owner's run produced; an error anywhere makes the whole reply an error. */
    method Complete(ghost k: nat, command: AgentCommand, outcome: Option<CommandResult>)
      returns (result: Option<CommandResult>, ghost write: WriteOutcome)
      requires Valid() && Enabled(world, Step.Run(k, outcome, Kept)) && world.calls[k].command == command
      modifies this`world, cache, cache.file
      ensures Valid() && world == Next(old(world), Step.Run(k, outcome, write), cache.maximum)
      ensures world.calls[k].stage.Ran? && result == ResultOf(world.calls[k].stage.reply)
      ensures result == None || result == outcome
      ensures outcome.Some? && !DurableResult(command.kind) ==> result == outcome
      ensures outcome.Some? && DurableResult(command.kind) ==>
        CompletedAs(old(Window(cache.history, cache.maximum)), command, outcome.value, write, result.Some?)
      ensures cache.history == old(cache.history)
        || (outcome.Some? && cache.history == old(cache.history) + [Insertion(command, outcome.value)])
    {
      hide ValidCommand, SizedCommand, Represents, ProperHistory, Window, FingerprintBytes, Spaced, Agrees, Inv,
        Mirrors, DistinctIds, Writes,
        ValidResult;
      write := Kept;
      RunsKeepInv(k, outcome);
      MapHoldsWindow(cache.entries, cache.order, cache.history, cache.maximum, command.id);
      MapShowsWindow(cache.entries, cache.order, Window(cache.history, cache.maximum), command.id);
      if outcome.None? {
        result := None;
      } else if !DurableResult(command.kind) {
        result := outcome;
      } else {
        var reply, stored := cache.Store(command, outcome.value);
        write := stored;
        result := if reply.Ok? then outcome else None;
      }
      world := RanTo(world, k, outcome, write, cache.maximum);
    }

    lemma RunsKeepInv(k: nat, outcome: Option<CommandResult>)
      requires Valid() && Enabled(world, Step.Run(k, outcome, Kept))
      ensures forall write :: Inv(RanTo(world, k, outcome, write, cache.maximum), cache.maximum)
    {
      hide Inv, RanTo;
      forall write ensures Inv(RanTo(world, k, outcome, write, cache.maximum), cache.maximum) {
        StepKeepsInv(world, Step.Run(k, outcome, write), cache.maximum);
      }
    }
  }

  lemma ValidMatchesKind(command: AgentCommand)
    requires ValidCommand(command)
    ensures PayloadMatchesKind(command)
  {
  }
}
