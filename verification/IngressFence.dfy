/**
 The decisions of the agent's ingress fence store on plain values
 (internal/agent/runtime/ingress_store.go). The store itself, in IngressFenceStore.dfy, is
 proved against these functions; the theorems about whole runs are about them.
 */
module IngressFence {
  import opened Common
  import opened Identifiers
  import opened Text
  import opened IngressProtocol
  import opened StateFiles

  /** The watermark of one route. It outlives the route as an inactive tombstone. */
  datatype Fence = Fence(
    revision: uint64,
    deploymentId: string,
    cutoverSequence: uint64,
    specDigest: string,
    active: bool)

  /** What the store holds in memory, and what its file denotes. */
  datatype StoreState = StoreState(
    committed: Option<IngressCommand>,
    pending: Option<IngressCommand>,
    entries: map<string, Fence>)

  const EMPTY: StoreState := StoreState(None, None, map[])

  datatype StoreError = ErrInvalid | ErrFull | ErrStale | ErrConflict | ErrWrite

  datatype PrepareState = PrepareNew | PreparePending | PrepareCommitted

  // ----- Comparing configs -----

  predicate SameConfig(a: IngressCommand, b: IngressCommand) {
    a.hostRevision == b.hostRevision && a.configDigest == b.configDigest && a.probeRouteIds == b.probeRouteIds
  }

  /** Commit may promote the incoming command in place of the pending one: they are identical. */
  lemma SameConfigIsSame(a: IngressCommand, b: IngressCommand)
    requires ValidIngressCommand(a) && ValidIngressCommand(b)
    ensures SameConfig(a, b) <==> a == b
  {
    if SameConfig(a, b) {
      DigestDeterminesConfig(a, b);
    }
  }

  predicate IsCommitted(s: StoreState, command: IngressCommand) {
    s.committed.Some? && SameConfig(s.committed.value, command)
  }

  predicate IsPending(s: StoreState, command: IngressCommand) {
    s.pending.Some? && SameConfig(s.pending.value, command)
  }

  // ----- Fences -----

  function SpecDigest(route: IngressRoute): string {
    match IngressRouteSpecDigest(route)
    case Ok(digest) => digest
    case Err(_) => ""
  }

  function FenceOf(route: IngressRoute): Fence {
    Fence(route.revision, route.deploymentId, route.cutoverSequence, SpecDigest(route), true)
  }

  function RouteIds(routes: seq<IngressRoute>): set<string> {
    set i | 0 <= i < |routes| :: routes[i].routeId
  }

  /** Why a route may not be published over the watermark `current`, if it may not. */
  function RouteRefusal(current: Fence, route: IngressRoute): Option<StoreError> {
    if route.revision < current.revision || route.cutoverSequence < current.cutoverSequence then Some(ErrStale)
    else if !current.active && route.revision == current.revision then Some(ErrConflict)
    else if (route.revision == current.revision && SpecDigest(route) != current.specDigest)
      || (route.cutoverSequence == current.cutoverSequence && route.deploymentId != current.deploymentId)
    then Some(ErrConflict)
    else None
  }

  /** The refusal of the first refused route, in route order. */
  function RoutesRefusal(entries: map<string, Fence>, routes: seq<IngressRoute>): Option<StoreError> {
    if routes == [] then None
    else
      var n := |routes| - 1;
      var earlier := RoutesRefusal(entries, routes[..n]);
      if earlier.Some? then earlier
      else if routes[n].routeId in entries then RouteRefusal(entries[routes[n].routeId], routes[n])
      else None
  }

  function NewEntries(entries: map<string, Fence>, routes: seq<IngressRoute>): nat {
    |RouteIds(routes) - entries.Keys|
  }

  /** `checkCandidateLocked`. */
  function CandidateRefusal(s: StoreState, command: IngressCommand, maximum: nat): Option<StoreError> {
    if s.committed.Some? && command.hostRevision < s.committed.value.hostRevision then Some(ErrStale)
    else if s.committed.Some? && command.hostRevision == s.committed.value.hostRevision then Some(ErrConflict)
    else
      var refusal := RoutesRefusal(s.entries, command.routes);
      if refusal.Some? then refusal
      else if |s.entries| + NewEntries(s.entries, command.routes) > maximum then Some(ErrFull)
      else None
  }

  function Deactivated(entries: map<string, Fence>): (r: map<string, Fence>)
    ensures r.Keys == entries.Keys
  {
    map id | id in entries :: entries[id].(active := false)
  }

  function FencesOf(routes: seq<IngressRoute>): (r: map<string, Fence>)
    ensures r.Keys == RouteIds(routes)
  {
    if routes == [] then map[]
    else
      var n := |routes| - 1;
      assert RouteIds(routes) == RouteIds(routes[..n]) + {routes[n].routeId} by {
        forall id | id in RouteIds(routes) ensures id in RouteIds(routes[..n]) + {routes[n].routeId} {
          var i :| 0 <= i < |routes| && routes[i].routeId == id;
          assert i < n ==> routes[..n][i].routeId == id;
        }
      }
      FencesOf(routes[..n])[routes[n].routeId := FenceOf(routes[n])]
  }

  /** The state a commit installs: old fences become tombstones, published routes raise theirs. */
  function Promoted(s: StoreState, command: IngressCommand): StoreState {
    StoreState(Some(command), None, Deactivated(s.entries) + FencesOf(command.routes))
  }

  // ----- What a valid state looks like -----

  /** What a gateway running this config publishes; nothing when there is no config. */
  function RoutesOf(config: Option<IngressCommand>): seq<IngressRoute> {
    if config.Some? then config.value.routes else []
  }

  /** The published routes have exactly their own fences, and every other fence is a tombstone. */
  ghost predicate FencesFor(routes: seq<IngressRoute>, entries: map<string, Fence>) {
    && (forall i :: 0 <= i < |routes| ==>
      routes[i].routeId in entries && entries[routes[i].routeId] == FenceOf(routes[i]))
    && (forall id :: id in entries && id !in RouteIds(routes) ==> !entries[id].active)
  }

  ghost predicate FencesMatch(committed: Option<IngressCommand>, entries: map<string, Fence>) {
    FencesFor(RoutesOf(committed), entries)
  }

  /** `validLoadedState`. */
  ghost predicate ValidLoadedState(s: StoreState, maximum: nat) {
    && FencesMatch(s.committed, s.entries)
    && (s.pending.Some? ==> CandidateRefusal(s, s.pending.value, maximum).None?)
  }

  ghost predicate WellFormedEntry(id: string, fence: Fence) {
    && ValidIdentifier(id) && fence.revision > 0
    && ValidIdentifier(fence.deploymentId) && fence.cutoverSequence > 0
  }

  /** Every state the store can hold. */
  ghost predicate WellFormed(s: StoreState, maximum: nat) {
    && (s.committed.Some? ==> ValidIngressCommand(s.committed.value))
    && (s.pending.Some? ==> ValidIngressCommand(s.pending.value))
    && ValidLoadedState(s, maximum)
    && |s.entries| <= maximum
    && forall id :: id in s.entries ==> WellFormedEntry(id, s.entries[id])
  }

  // ----- The operations -----

  datatype BeginOutcome = BeginOutcome(
    memory: StoreState,
    reply: Result<PrepareState, StoreError>,
    written: Option<StoreState>)

  /** `Begin` for a valid command: the new memory, the reply, and the state it tried to write. */
  function Begin(s: StoreState, command: IngressCommand, write: WriteOutcome, maximum: nat): BeginOutcome {
    if s.pending.Some? then
      BeginOutcome(s, if IsPending(s, command) then Ok(PreparePending) else Err(ErrConflict), None)
    else if IsCommitted(s, command) then BeginOutcome(s, Ok(PrepareCommitted), None)
    else match CandidateRefusal(s, command, maximum)
      case Some(error) => BeginOutcome(s, Err(error), None)
      case None =>
        var next := s.(pending := Some(command));
        if write.Stored? then BeginOutcome(next, Ok(PrepareNew), Some(next))
        else BeginOutcome(s, Err(ErrWrite), Some(next))
  }

  function CanCommit(s: StoreState, command: IngressCommand): Result<bool, StoreError> {
    if IsCommitted(s, command) then Ok(true)
    else if IsPending(s, command) then Ok(false)
    else Err(ErrConflict)
  }

  function CanAbort(s: StoreState, command: IngressCommand): Result<bool, StoreError> {
    if IsCommitted(s, command) then Err(ErrConflict)
    else if s.pending.None? then
      if s.committed.None? || command.hostRevision > s.committed.value.hostRevision then Ok(true) else Err(ErrStale)
    else if IsPending(s, command) then Ok(false)
    else Err(ErrConflict)
  }

  /** What an operation on a file-backed state leaves on disk. */
  function OnDisk(disk: StoreState, written: StoreState, write: WriteOutcome): StoreState {
    if write.Kept? then disk else written
  }

  // ----- Consequences -----

  lemma {:induction false} RoutesRefusalMeaning(entries: map<string, Fence>, routes: seq<IngressRoute>)
    ensures RoutesRefusal(entries, routes).None? <==>
      forall i :: 0 <= i < |routes| && routes[i].routeId in entries ==>
        RouteRefusal(entries[routes[i].routeId], routes[i]).None?
  {
    hide RouteRefusal;
    if routes != [] {
      var n := |routes| - 1;
      RoutesRefusalMeaning(entries, routes[..n]);
    }
  }

  lemma {:induction false} FencesOfMeaning(routes: seq<IngressRoute>, i: nat)
    requires i < |routes| && DistinctKeys(routes, RouteKey)
    ensures routes[i].routeId in FencesOf(routes) && FencesOf(routes)[routes[i].routeId] == FenceOf(routes[i])
  {
    hide FenceOf;
    var n := |routes| - 1;
    if i < n {
      FencesOfMeaning(routes[..n], i);
      assert RouteKey(routes[i]) != RouteKey(routes[n]);
    }
  }

  lemma OneRouteId(route: IngressRoute)
    ensures RouteIds([route]) == {route.routeId}
  {
    assert [route][0].routeId in RouteIds([route]);
  }

  lemma ValidRouteIdsAreDistinct(command: IngressCommand)
    requires ValidIngressCommand(command)
    ensures DistinctKeys(command.routes, RouteKey)
  {
    AscendingKeysAreDistinct(command.routes, RouteKey);
  }

  lemma PromotedFencesMatch(s: StoreState, command: IngressCommand)
    requires ValidIngressCommand(command)
    ensures FencesMatch(Some(command), Promoted(s, command).entries)
  {
    hide ValidIngressCommand;
    ValidRouteIdsAreDistinct(command);
    PublishedFencesMatch(s.entries, command.routes);
  }

  lemma PublishedFencesMatch(entries: map<string, Fence>, routes: seq<IngressRoute>)
    requires DistinctKeys(routes, RouteKey)
    ensures FencesFor(routes, Deactivated(entries) + FencesOf(routes))
  {
    hide FenceOf, DistinctKeys, FencesOf;
    forall i | 0 <= i < |routes|
      ensures routes[i].routeId in FencesOf(routes) && FencesOf(routes)[routes[i].routeId] == FenceOf(routes[i])
    {
      FencesOfMeaning(routes, i);
    }
  }

  lemma PublishedFence(command: IngressCommand, i: nat)
    requires ValidIngressCommand(command) && i < |command.routes|
    ensures WellFormedEntry(command.routes[i].routeId, FenceOf(command.routes[i]))
  {
    hide IngressRouteSpecDigest, IngressConfigDigest, ValidHostname;
    assert ValidIngressRoute(command.routes[i]);
  }

  lemma PromotedEntry(s: StoreState, command: IngressCommand, id: string)
    requires ValidIngressCommand(command)
    requires id in s.entries ==> WellFormedEntry(id, s.entries[id])
    requires id in Promoted(s, command).entries
    ensures WellFormedEntry(id, Promoted(s, command).entries[id])
  {
    hide FenceOf, WellFormedEntry;
    ValidRouteIdsAreDistinct(command);
    hide ValidIngressCommand;
    if id in RouteIds(command.routes) {
      var i :| 0 <= i < |command.routes| && command.routes[i].routeId == id;
      FencesOfMeaning(command.routes, i);
      PublishedFence(command, i);
    } else {
      TombstoneIsWellFormed(id, s.entries[id]);
    }
  }

  lemma PromotedSize(s: StoreState, command: IngressCommand)
    ensures |Promoted(s, command).entries| == |s.entries| + NewEntries(s.entries, command.routes)
  {
    hide FencesOf;
    var t := Promoted(s, command);
    CardinalityOfUnion(s.entries.Keys, RouteIds(command.routes));
    assert t.entries.Keys == s.entries.Keys + RouteIds(command.routes);
    assert |t.entries| == |t.entries.Keys| && |s.entries| == |s.entries.Keys|;
  }

  /** Promoting an admissible command keeps the state valid and within its capacity. */
  lemma PromotedIsWellFormed(s: StoreState, command: IngressCommand, maximum: nat)
    requires WellFormed(s, maximum) && ValidIngressCommand(command)
    requires CandidateRefusal(s, command, maximum).None?
    ensures WellFormed(Promoted(s, command), maximum)
  {
    hide RoutesRefusal, ValidIngressCommand, WellFormedEntry, FencesMatch, FencesOf, Deactivated, NewEntries;
    PromotedFencesMatch(s, command);
    PromotedSize(s, command);
    forall id | id in Promoted(s, command).entries ensures WellFormedEntry(id, Promoted(s, command).entries[id]) {
      PromotedEntry(s, command, id);
    }
  }

  lemma TombstoneIsWellFormed(id: string, fence: Fence)
    requires WellFormedEntry(id, fence)
    ensures WellFormedEntry(id, fence.(active := false))
  {
  }

  lemma CardinalityOfUnion<T>(a: set<T>, b: set<T>)
    ensures |a + b| == |a| + |b - a|
  {
    assert a + b == a + (b - a);
  }
}
