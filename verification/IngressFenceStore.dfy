/**
 `FileIngressFenceStore` (internal/agent/runtime/ingress_store.go): fields updated in place under
 a lock, one file replaced as a whole, and every change rolled back when the file write fails.
 */
module IngressFenceStore {
  import opened Common
  import opened Identifiers
  import opened Text
  import opened IngressProtocol
  import opened IngressFence
  import opened Listing
  import opened StateFiles

  type EntryDocument = Entry<Fence>

  /** The JSON document, apart from its text: the two configs and the entries sorted by route. */
  datatype Document = Document(
    committed: Option<IngressCommand>,
    pending: Option<IngressCommand>,
    entries: seq<EntryDocument>)

  function StateOf(d: Document): StoreState {
    StoreState(d.committed, d.pending, EntryMap(d.entries))
  }

  ghost predicate Denotes(content: Option<Document>, s: StoreState) {
    match content
    case None => s == EMPTY
    case Some(d) => d.committed == s.committed && d.pending == s.pending && Lists(d.entries, s.entries)
  }

  /** `validIngressStoreEntry`; the digest's text form is not modelled. */
  predicate ValidStoreEntry(entry: EntryDocument) {
    && StoredIdentifier(entry.name) && entry.value.revision > 0
    && StoredIdentifier(entry.value.deploymentId) && entry.value.cutoverSequence > 0
  }

  /** When `load` succeeds. */
  ghost predicate Loadable(d: Document, maximum: nat) {
    && |d.entries| <= maximum
    && (d.committed.Some? ==> ValidIngressCommand(d.committed.value))
    && (d.pending.Some? ==> ValidIngressCommand(d.pending.value))
    && (forall i :: 0 <= i < |d.entries| ==> ValidStoreEntry(d.entries[i]))
    && DistinctKeys(d.entries, EntryName)
    && ValidLoadedState(StateOf(d), maximum)
  }

  // ----- Writing and reading back -----

  /** No route or deployment ID starts with '-' or '_': what a caller can check beforehand. */
  predicate LoaderIds(s: StoreState) {
    forall id :: id in s.entries ==> LoaderIdsOf(id, s.entries[id])
  }

  predicate LoaderIdsOf(id: string, fence: Fence) {
    && |id| > 0 && id[0] != '-' && id[0] != '_'
    && |fence.deploymentId| > 0 && fence.deploymentId[0] != '-' && fence.deploymentId[0] != '_'
  }

  /**
   Every well-formed state that was written loads back to itself, exactly when its IDs are ones
   the loader accepts; otherwise the restarted agent refuses its own file.
   */
  lemma WrittenStateLoads(d: Document, s: StoreState, maximum: nat)
    requires WellFormed(s, maximum) && Denotes(Some(d), s)
    ensures StateOf(d) == s
    ensures Loadable(d, maximum) <==> LoaderIds(s)
  {
    hide ValidIngressCommand, WellFormedEntry, Lists, LoaderIds, FencesMatch, RoutesRefusal, NewEntries,
      ValidStoreEntry, DistinctKeys, EntryMap;
    ListingDenotesItsMap(d.entries, s.entries);
    RuleOfListing(d.entries, s.entries, ValidStoreEntry);
    AcceptedIds(s);
  }

  /** What the loader accepts is a state the store can hold, with IDs it accepts, and no route listed twice. */
  lemma LoadsExactly(d: Document, maximum: nat)
    ensures Loadable(d, maximum) <==>
      DistinctKeys(d.entries, EntryName) && WellFormed(StateOf(d), maximum) && LoaderIds(StateOf(d))
  {
    hide ValidIngressCommand, WellFormedEntry, FencesMatch, RoutesRefusal, NewEntries, ValidStoreEntry, DistinctKeys,
      EntryMap, LoaderIdsOf;
    var m := EntryMap(d.entries);
    if DistinctKeys(d.entries, EntryName) { RuleOfEntries(d.entries, ValidStoreEntry); }
    forall id | id in m
      ensures ValidStoreEntry(Entry(id, m[id])) <==> WellFormedEntry(id, m[id]) && LoaderIdsOf(id, m[id])
    {
      StoredIsWellFormed(id, m[id]);
    }
  }

  lemma StoredIsWellFormed(id: string, fence: Fence)
    ensures ValidStoreEntry(Entry(id, fence)) <==> WellFormedEntry(id, fence) && LoaderIdsOf(id, fence)
  {
  }

  lemma AcceptedIds(s: StoreState)
    requires forall id :: id in s.entries ==> WellFormedEntry(id, s.entries[id])
    ensures (forall id :: id in s.entries ==> ValidStoreEntry(Entry(id, s.entries[id]))) <==> LoaderIds(s)
  {
    hide WellFormedEntry, ValidStoreEntry;
    forall id | id in s.entries
      ensures ValidStoreEntry(Entry(id, s.entries[id])) <==> LoaderIdsOf(id, s.entries[id])
    {
      StoredIsWellFormed(id, s.entries[id]);
    }
  }

  // ----- The store -----

  class FileIngressFenceStore {
    const maximum: nat
    const file: StateFile<Document>
    var committed: Option<IngressCommand>
    var pending: Option<IngressCommand>
    var entries: map<string, Fence>
    /** The state the file denotes. */
    ghost var disk: StoreState

    ghost predicate Valid()
      reads this, file
    {
      Denotes(file.content, disk)
    }

    ghost function Memory(): StoreState
      reads this
    {
      StoreState(committed, pending, entries)
    }

    constructor (maximum: nat)
      ensures Valid() && fresh(file) && this.maximum == maximum
      ensures Memory() == EMPTY && disk == EMPTY && file.content == None
    {
      this.maximum := maximum;
      file := new StateFile<Document>();
      committed, pending, entries, disk := None, None, map[], EMPTY;
    }

    /** `persistLocked`: lists the entries sorted by route and replaces the file. */
    method PersistLocked() returns (write: WriteOutcome)
      requires Valid()
      modifies file, this`disk
      ensures Valid() && disk == OnDisk(old(disk), Memory(), write)
    {
      hide Lists;
      var listed := ListEntries(entries);
      write := file.Replace(Document(committed, pending, listed));
      disk := OnDisk(disk, Memory(), write);
    }

    /** `checkCandidateLocked`. */
    method CheckCandidateLocked(command: IngressCommand) returns (refusal: Option<StoreError>)
      requires ValidIngressCommand(command)
      ensures refusal == CandidateRefusal(Memory(), command, maximum)
    {
      hide ValidIngressCommand, RouteRefusal, RoutesRefusal, NewEntries, DistinctKeys;
      NothingRefusedYet(entries, command.routes);
      if committed.Some? {
        if command.hostRevision < committed.value.hostRevision { return Some(ErrStale); }
        if command.hostRevision == committed.value.hostRevision { return Some(ErrConflict); }
      }
      ValidRouteIdsAreDistinct(command);
      var newEntries := 0;
      var i := 0;
      while i < |command.routes|
        invariant i <= |command.routes|
        invariant RoutesRefusal(entries, command.routes[..i]).None?
        invariant newEntries == NewEntries(entries, command.routes[..i])
      {
        var route := command.routes[i];
        NewEntriesGrow(entries, command.routes, i);
        NextRefusal(entries, command.routes, i);
        if route.routeId !in entries {
          newEntries := newEntries + 1;
        } else {
          refusal := RouteRefusal(entries[route.routeId], route);
          if refusal.Some? {
            FirstRefusalStands(entries, command.routes, i);
            return;
          }
        }
        i := i + 1;
      }
      assert command.routes[..i] == command.routes;
      if |entries| + newEntries > maximum { return Some(ErrFull); }
      return None;
    }

    method Begin(command: IngressCommand) returns (reply: Result<PrepareState, StoreError>, ghost write: WriteOutcome)
      requires Valid()
      modifies this, file
      ensures Valid()
      ensures !ValidIngressCommand(command) ==>
        reply == Err(ErrInvalid) && Memory() == old(Memory()) && disk == old(disk)
      ensures ValidIngressCommand(command) ==>
        var begun := IngressFence.Begin(old(Memory()), command, write, maximum);
        && Memory() == begun.memory && reply == begun.reply
        && disk == if begun.written.Some? then OnDisk(old(disk), begun.written.value, write) else old(disk)
    {
      hide ValidIngressCommand, SameConfig, CandidateRefusal, Denotes;
      write := Kept;
      var valid := ValidateIngressCommand(command);
      if !valid { return Err(ErrInvalid), write; }
      if pending.Some? {
        reply := if SameConfig(pending.value, command) then Ok(PreparePending) else Err(ErrConflict);
        return;
      }
      if committed.Some? && SameConfig(committed.value, command) { return Ok(PrepareCommitted), write; }
      var refusal := CheckCandidateLocked(command);
      if refusal.Some? { return Err(refusal.value), write; }
      pending := Some(command);
      var outcome := PersistLocked();
      write := outcome;
      if !outcome.Stored? {
        pending := None;
        return Err(ErrWrite), write;
      }
      return Ok(PrepareNew), write;
    }

    method CanCommit(command: IngressCommand) returns (reply: Result<bool, StoreError>)
      ensures reply ==
        if ValidIngressCommand(command) then IngressFence.CanCommit(Memory(), command) else Err(ErrInvalid)
    {
      hide ValidIngressCommand, SameConfig;
      var valid := ValidateIngressCommand(command);
      if !valid { return Err(ErrInvalid); }
      if committed.Some? && SameConfig(committed.value, command) { return Ok(true); }
      if pending.None? || !SameConfig(pending.value, command) { return Err(ErrConflict); }
      return Ok(false);
    }

    method CanAbort(command: IngressCommand) returns (reply: Result<bool, StoreError>)
      ensures reply ==
        if ValidIngressCommand(command) then IngressFence.CanAbort(Memory(), command) else Err(ErrInvalid)
    {
      hide ValidIngressCommand, SameConfig;
      var valid := ValidateIngressCommand(command);
      if !valid { return Err(ErrInvalid); }
      if committed.Some? && SameConfig(committed.value, command) { return Err(ErrConflict); }
      if pending.None? {
        if committed.None? || command.hostRevision > committed.value.hostRevision { return Ok(true); }
        return Err(ErrStale);
      }
      if !SameConfig(pending.value, command) { return Err(ErrConflict); }
      return Ok(false);
    }

    /** Turns every fence into a tombstone. */
    method DeactivateEntries()
      modifies this`entries
      ensures entries == Deactivated(old(entries))
    {
      var remaining := entries.Keys;
      while remaining != {}
        invariant remaining <= old(entries).Keys && entries.Keys == old(entries).Keys
        invariant forall id :: id in entries ==>
          entries[id] == if id in remaining then old(entries)[id] else old(entries)[id].(active := false)
        decreases remaining
      {
        var id :| id in remaining;
        entries := entries[id := entries[id].(active := false)];
        remaining := remaining - {id};
      }
    }

    /** Raises the fences of the published routes. */
    method PublishEntries(routes: seq<IngressRoute>)
      modifies this`entries
      ensures entries == old(entries) + FencesOf(routes)
    {
      hide FenceOf, FencesOf;
      var i := 0;
      assert FencesOf(routes[..0]) == map[] by { assert FencesOf(routes[..0]).Keys == {}; }
      while i < |routes|
        invariant i <= |routes|
        invariant entries == old(entries) + FencesOf(routes[..i])
      {
        FencesOfSnoc(routes, i);
        AddLast(old(entries), FencesOf(routes[..i]), routes[i].routeId, FenceOf(routes[i]));
        entries := entries[routes[i].routeId := FenceOf(routes[i])];
        i := i + 1;
      }
      assert routes[..i] == routes;
    }

    /** Promotes the command, unless it is already committed; a failed write undoes everything. */
    method Commit(command: IngressCommand) returns (reply: Result<(), StoreError>, ghost write: WriteOutcome)
      requires Valid()
      modifies this, file
      ensures Valid()
      ensures !ValidIngressCommand(command) ==>
        reply == Err(ErrInvalid) && Memory() == old(Memory()) && disk == old(disk)
      ensures var already, awaited := old(IsCommitted(Memory(), command)), old(IsPending(Memory(), command));
        ValidIngressCommand(command) && !already && awaited ==>
        var next := Promoted(old(Memory()), command);
        && Memory() == (if write.Stored? then next else old(Memory()))
        && disk == OnDisk(old(disk), next, write)
        && reply == (if write.Stored? then Ok(()) else Err(ErrWrite))
      ensures var already, awaited := old(IsCommitted(Memory(), command)), old(IsPending(Memory(), command));
        ValidIngressCommand(command) && (already || !awaited) ==>
        && Memory() == old(Memory()) && disk == old(disk)
        && reply == (if old(IsCommitted(Memory(), command)) then Ok(()) else Err(ErrConflict))
    {
      hide ValidIngressCommand, SameConfig, Deactivated, FencesOf, Denotes;
      write := Kept;
      var valid := ValidateIngressCommand(command);
      if !valid { return Err(ErrInvalid), write; }
      if committed.Some? && SameConfig(committed.value, command) { return Ok(()), write; }
      if pending.None? || !SameConfig(pending.value, command) { return Err(ErrConflict), write; }
      var oldCommitted, oldPending, oldEntries := committed, pending, entries;
      committed, pending := Some(command), None;
      DeactivateEntries();
      PublishEntries(command.routes);
      var outcome := PersistLocked();
      write := outcome;
      if !outcome.Stored? {
        committed, pending, entries := oldCommitted, oldPending, oldEntries;
        return Err(ErrWrite), write;
      }
      return Ok(()), write;
    }

    /** Drops the pending config, unless something else is pending or the config is committed. */
    method Abort(command: IngressCommand) returns (reply: Result<(), StoreError>, ghost write: WriteOutcome)
      requires Valid()
      modifies this, file
      ensures Valid()
      ensures ValidIngressCommand(command) && IngressFence.CanAbort(old(Memory()), command) == Ok(false) ==>
        var next := old(Memory()).(pending := None);
        && Memory() == (if write.Stored? then next else old(Memory()))
        && disk == OnDisk(old(disk), next, write)
        && reply == (if write.Stored? then Ok(()) else Err(ErrWrite))
      ensures !ValidIngressCommand(command) || IngressFence.CanAbort(old(Memory()), command) != Ok(false) ==>
        && Memory() == old(Memory()) && disk == old(disk)
        && (reply.Ok? <==> ValidIngressCommand(command) && IngressFence.CanAbort(old(Memory()), command) == Ok(true))
        && (reply.Err? && ValidIngressCommand(command) ==>
          IngressFence.CanAbort(old(Memory()), command) == Err(reply.error))
    {
      hide ValidIngressCommand, SameConfig, Denotes;
      write := Kept;
      var valid := ValidateIngressCommand(command);
      if !valid { return Err(ErrInvalid), write; }
      if committed.Some? && SameConfig(committed.value, command) { return Err(ErrConflict), write; }
      if pending.None? {
        if committed.None? || command.hostRevision > committed.value.hostRevision { return Ok(()), write; }
        return Err(ErrStale), write;
      }
      if !SameConfig(pending.value, command) { return Err(ErrConflict), write; }
      var oldPending := pending;
      pending := None;
      var outcome := PersistLocked();
      write := outcome;
      if !outcome.Stored? {
        pending := oldPending;
        return Err(ErrWrite), write;
      }
      return Ok(()), write;
    }

    /** `validLoadedState`: compares the entries with the committed routes both ways. */
    method ValidateLoadedState() returns (valid: bool)
      requires pending.Some? ==> ValidIngressCommand(pending.value)
      requires committed.Some? ==> ValidIngressCommand(committed.value)
      ensures valid == ValidLoadedState(Memory(), maximum)
    {
      hide ValidIngressCommand, CandidateRefusal, SpecDigest;
      var routes := RoutesOf(committed);
      if committed.Some? { ValidRouteIdsAreDistinct(committed.value); }
      var active := ActiveRoutes(routes);
      var remaining := entries.Keys;
      while remaining != {}
        invariant remaining <= entries.Keys
        invariant forall id :: id in entries && id !in remaining ==> EntryAgrees(id, entries[id], active)
        decreases remaining
      {
        var id :| id in remaining;
        if entries[id].active != (id in active) || (id in active && entries[id] != FenceOf(active[id])) {
          Disagreement(routes, active, entries, id);
          return false;
        }
        remaining := remaining - {id};
      }
      if exists id :: id in active && id !in entries {
        ghost var id :| id in active && id !in entries;
        ghost var i :| 0 <= i < |routes| && routes[i].routeId == id;
        return false;
      }
      Agreement(routes, active, entries);
      if pending.Some? {
        var refusal := CheckCandidateLocked(pending.value);
        return refusal.None?;
      }
      return true;
    }

    method ActiveRoutes(routes: seq<IngressRoute>) returns (active: map<string, IngressRoute>)
      requires DistinctKeys(routes, RouteKey)
      ensures IndexesRoutes(active, routes)
    {
      active := map[];
      var i := 0;
      while i < |routes|
        invariant i <= |routes|
        invariant IndexesRoutes(active, routes[..i])
      {
        forall j | 0 <= j < i ensures routes[..i][j].routeId != routes[i].routeId {
          assert RouteKey(routes[j]) != RouteKey(routes[i]);
        }
        assert routes[..i + 1] == routes[..i] + [routes[i]];
        active := active[routes[i].routeId := routes[i]];
        i := i + 1;
      }
      assert routes[..i] == routes;
    }

    /** Reads the file back into an empty store; it refuses a document the rules do not accept. */
    method Load() returns (loaded: bool)
      requires Memory() == EMPTY
      modifies this`committed, this`pending, this`entries
      ensures loaded <==> (file.content.Some? ==> Loadable(file.content.value, maximum))
      ensures loaded ==> Memory() == if file.content.Some? then StateOf(file.content.value) else EMPTY
    {
      hide ValidIngressCommand, ValidLoadedState, ValidStoreEntry, EntryMap;
      if file.content.None? { return true; }
      var d := file.content.value;
      if |d.entries| > maximum { return false; }
      if d.committed.Some? {
        var valid := ValidateIngressCommand(d.committed.value);
        if !valid { return false; }
      }
      if d.pending.Some? {
        var valid := ValidateIngressCommand(d.pending.value);
        if !valid { return false; }
      }
      committed, pending := d.committed, d.pending;
      var accepted, read := ReadEntries(d.entries, ValidStoreEntry);
      if !accepted { return false; }
      entries := read;
      loaded := ValidateLoadedState();
    }

    /** The agent stops and starts again: the store is what its file denotes, exactly when the IDs in it load. */
    method Restart() returns (loaded: bool)
      requires Valid() && WellFormed(disk, maximum)
      modifies this`committed, this`pending, this`entries
      ensures Valid() && (loaded <==> LoaderIds(disk))
      ensures loaded ==> Memory() == disk
    {
      hide Loadable, LoaderIds, WellFormed, Lists;
      if file.content.Some? { WrittenStateLoads(file.content.value, disk, maximum); } else { EmptyLoads(); }
      committed, pending, entries := None, None, map[];
      loaded := Load();
    }
  }

  lemma EmptyLoads()
    ensures LoaderIds(EMPTY)
  {
  }

  ghost predicate IndexesRoutes(active: map<string, IngressRoute>, routes: seq<IngressRoute>) {
    && active.Keys == RouteIds(routes)
    && forall i :: 0 <= i < |routes| ==> routes[i].routeId in active && active[routes[i].routeId] == routes[i]
  }

  ghost predicate EntryAgrees(id: string, fence: Fence, active: map<string, IngressRoute>) {
    if id in active then fence == FenceOf(active[id]) else !fence.active
  }

  lemma Disagreement(routes: seq<IngressRoute>, active: map<string, IngressRoute>,
                     entries: map<string, Fence>, id: string)
    requires IndexesRoutes(active, routes) && id in entries && !EntryAgrees(id, entries[id], active)
    ensures !FencesFor(routes, entries)
  {
    if id in active {
      var i :| 0 <= i < |routes| && routes[i].routeId == id;
    }
  }

  lemma Agreement(routes: seq<IngressRoute>, active: map<string, IngressRoute>, entries: map<string, Fence>)
    requires IndexesRoutes(active, routes) && active.Keys <= entries.Keys
    requires forall id :: id in entries ==> EntryAgrees(id, entries[id], active)
    ensures FencesFor(routes, entries)
  {
    hide FenceOf;
    forall i | 0 <= i < |routes|
      ensures routes[i].routeId in entries && entries[routes[i].routeId] == FenceOf(routes[i])
    {
      assert routes[i].routeId in active.Keys;
      assert EntryAgrees(routes[i].routeId, entries[routes[i].routeId], active);
    }
  }

  lemma NothingRefusedYet(entries: map<string, Fence>, routes: seq<IngressRoute>)
    ensures RoutesRefusal(entries, routes[..0]).None? && NewEntries(entries, routes[..0]) == 0
  {
    assert RouteIds(routes[..0]) == {};
  }

  lemma NextRefusal(entries: map<string, Fence>, routes: seq<IngressRoute>, i: nat)
    requires i < |routes| && RoutesRefusal(entries, routes[..i]).None?
    ensures RoutesRefusal(entries, routes[..i + 1]) ==
      if routes[i].routeId in entries then RouteRefusal(entries[routes[i].routeId], routes[i]) else None
  {
    hide RouteRefusal;
    assert routes[..i + 1][..i] == routes[..i];
  }

  lemma FencesOfSnoc(routes: seq<IngressRoute>, i: nat)
    requires i < |routes|
    ensures FencesOf(routes[..i + 1]) == FencesOf(routes[..i])[routes[i].routeId := FenceOf(routes[i])]
  {
    hide FenceOf, RouteIds;
    assert routes[..i + 1][..i] == routes[..i];
  }

  lemma AddLast<K, V>(m: map<K, V>, f: map<K, V>, k: K, v: V)
    ensures (m + f)[k := v] == m + f[k := v]
  {
  }

  lemma RouteIdsSnoc(routes: seq<IngressRoute>, i: nat)
    requires i < |routes|
    ensures RouteIds(routes[..i + 1]) == RouteIds(routes[..i]) + {routes[i].routeId}
  {
    var a, b := routes[..i], routes[..i + 1];
    assert b == a + [routes[i]];
    forall x | x in RouteIds(a) ensures x in RouteIds(b) {
      var j :| 0 <= j < i && a[j].routeId == x;
      assert b[j].routeId == x;
    }
    forall x | x in RouteIds(b) ensures x in RouteIds(a) + {routes[i].routeId} {
      var j :| 0 <= j <= i && b[j].routeId == x;
      if j < i { assert a[j].routeId == x; }
    }
    assert b[i].routeId in RouteIds(b);
  }

  lemma NewIdIsUnseen(routes: seq<IngressRoute>, i: nat)
    requires i < |routes| && DistinctKeys(routes, RouteKey)
    ensures routes[i].routeId !in RouteIds(routes[..i])
  {
    forall j | 0 <= j < i ensures routes[..i][j].routeId != routes[i].routeId {
      assert RouteKey(routes[j]) != RouteKey(routes[i]);
    }
  }

  /** Counting the unknown routes one by one counts their IDs once each. */
  lemma NewEntriesGrow(entries: map<string, Fence>, routes: seq<IngressRoute>, i: nat)
    requires i < |routes| && DistinctKeys(routes, RouteKey)
    ensures NewEntries(entries, routes[..i + 1]) ==
      NewEntries(entries, routes[..i]) + if routes[i].routeId in entries then 0 else 1
  {
    hide RouteIds, DistinctKeys;
    RouteIdsSnoc(routes, i);
    NewIdIsUnseen(routes, i);
    var id := routes[i].routeId;
    var before, after := RouteIds(routes[..i]) - entries.Keys, RouteIds(routes[..i + 1]) - entries.Keys;
    if id in entries { assert after == before; } else { assert after == before + {id}; }
  }

  lemma {:induction false} FirstRefusalStands(entries: map<string, Fence>, routes: seq<IngressRoute>, i: nat)
    requires i < |routes| && RoutesRefusal(entries, routes[..i]).None? && routes[i].routeId in entries
    requires RouteRefusal(entries[routes[i].routeId], routes[i]).Some?
    ensures RoutesRefusal(entries, routes) == RouteRefusal(entries[routes[i].routeId], routes[i])
    decreases |routes|
  {
    hide RouteRefusal;
    var n := |routes| - 1;
    if i < n {
      assert routes[..n][..i] == routes[..i];
      FirstRefusalStands(entries, routes[..n], i);
    }
  }
}
