/**
 What the fences promise over everything a host has ever committed
 (internal/agent/runtime/ingress_store.go:149-215). `commits` lists the committed configs in
 order; the store itself keeps only the last of them and one fence per route.
 */
module IngressHistory {
  import opened Common
  import opened Text
  import opened IngressProtocol
  import opened IngressFence

  predicate SameSpec(r: IngressRoute, q: IngressRoute) {
    && r.routeId == q.routeId && r.runtimeTargetId == q.runtimeTargetId && r.hostname == q.hostname
    && r.backendPort == q.backendPort && r.tlsMode == q.tlsMode
  }

  /** A later publication `q` of the route that was `r`. */
  predicate Follows(r: IngressRoute, q: IngressRoute) {
    && r.revision <= q.revision && r.cutoverSequence <= q.cutoverSequence
    && (r.revision == q.revision ==> SpecDigest(r) == SpecDigest(q))
    && (r.cutoverSequence == q.cutoverSequence ==> r.deploymentId == q.deploymentId)
  }

  predicate Covers(fence: Fence, r: IngressRoute) {
    && r.revision <= fence.revision && r.cutoverSequence <= fence.cutoverSequence
    && (r.revision == fence.revision ==> SpecDigest(r) == fence.specDigest)
    && (r.cutoverSequence == fence.cutoverSequence ==> r.deploymentId == fence.deploymentId)
  }

  // ----- The invariant -----

  ghost predicate OrderedCommits(commits: seq<IngressCommand>) {
    && (forall i :: 0 <= i < |commits| ==> ValidIngressCommand(commits[i]))
    && forall i, j :: 0 <= i < j < |commits| ==> commits[i].hostRevision < commits[j].hostRevision
  }

  /** Every route ever committed still has a fence at or above it. */
  ghost predicate Fenced(commits: seq<IngressCommand>, entries: map<string, Fence>) {
    forall i, r :: 0 <= i < |commits| && r in commits[i].routes ==>
      r.routeId in entries && Covers(entries[r.routeId], r)
  }

  /** Every fence is that of some route ever committed; only its active flag may have changed since. */
  ghost predicate Traced(commits: seq<IngressCommand>, entries: map<string, Fence>) {
    forall id :: id in entries ==> Traces(commits, id, entries[id])
  }

  ghost predicate Traces(commits: seq<IngressCommand>, id: string, fence: Fence) {
    exists i, r :: 0 <= i < |commits| && r in commits[i].routes && FencedBy(r, id, fence)
  }

  predicate FencedBy(r: IngressRoute, id: string, fence: Fence) {
    r.routeId == id && FenceOf(r) == fence.(active := true)
  }

  ghost predicate Continues(earlier: IngressCommand, later: IngressCommand) {
    forall r, q :: r in earlier.routes && q in later.routes && r.routeId == q.routeId ==> Follows(r, q)
  }

  ghost predicate MonotoneRoutes(commits: seq<IngressCommand>) {
    forall i, j :: 0 <= i <= j < |commits| ==> Continues(commits[i], commits[j])
  }

  ghost predicate RaisedAfterGap(earlier: IngressCommand, gap: IngressCommand, later: IngressCommand) {
    forall r, q :: (r in earlier.routes && q in later.routes && r.routeId == q.routeId
                    && r.routeId !in RouteIds(gap.routes)) ==> r.revision < q.revision
  }

  /** A route that was left out of some config only ever comes back at a higher revision. */
  ghost predicate NoRevival(commits: seq<IngressCommand>) {
    forall i, k, j :: 0 <= i < k < j < |commits| ==> RaisedAfterGap(commits[i], commits[k], commits[j])
  }

  ghost predicate History(commits: seq<IngressCommand>, s: StoreState) {
    && s.committed == (if commits == [] then None else Some(commits[|commits| - 1]))
    && OrderedCommits(commits) && Fenced(commits, s.entries) && Traced(commits, s.entries)
    && MonotoneRoutes(commits) && NoRevival(commits)
  }

  // ----- A candidate that passes the check continues the history -----

  lemma PassedCheck(s: StoreState, command: IngressCommand, maximum: nat, q: IngressRoute)
    requires CandidateRefusal(s, command, maximum).None?
    requires q in command.routes && q.routeId in s.entries
    ensures RouteRefusal(s.entries[q.routeId], q).None?
  {
    hide RouteRefusal;
    RoutesRefusalMeaning(s.entries, command.routes);
  }

  lemma CandidateContinues(commits: seq<IngressCommand>, s: StoreState, command: IngressCommand, maximum: nat, i: nat)
    requires Fenced(commits, s.entries) && CandidateRefusal(s, command, maximum).None?
    requires i < |commits|
    ensures Continues(commits[i], command)
  {
    hide SpecDigest, CandidateRefusal;
    forall r, q | r in commits[i].routes && q in command.routes && r.routeId == q.routeId ensures Follows(r, q) {
      assert Covers(s.entries[r.routeId], r);
      PassedCheck(s, command, maximum, q);
    }
  }

  /** The retired route's tombstone: a candidate that brings it back must raise its revision. */
  lemma CandidateCannotRevive(commits: seq<IngressCommand>, s: StoreState, command: IngressCommand, maximum: nat,
                              i: nat, k: nat)
    requires History(commits, s) && FencesMatch(s.committed, s.entries)
    requires CandidateRefusal(s, command, maximum).None?
    requires i < k < |commits|
    ensures RaisedAfterGap(commits[i], commits[k], command)
  {
    hide SpecDigest, CandidateRefusal, MonotoneRoutes, OrderedCommits, FenceOf, FencesMatch, Traced;
    forall r, q | r in commits[i].routes && q in command.routes && r.routeId == q.routeId
      && r.routeId !in RouteIds(commits[k].routes) ensures r.revision < q.revision
    {
      PassedCheck(s, command, maximum, q);
      var last := |commits| - 1;
      var fence := s.entries[q.routeId];
      assert Covers(fence, r);
      if fence.active {
        var current := ActiveRoute(commits[last], s.entries, q.routeId);
        assert current.routeId in RouteIds(commits[last].routes);
        assert k < last && RaisedAfterGap(commits[i], commits[k], commits[last]);
      }
    }
  }

  lemma ActiveRoute(committed: IngressCommand, entries: map<string, Fence>, id: string) returns (route: IngressRoute)
    requires FencesMatch(Some(committed), entries) && id in entries && entries[id].active
    ensures route in committed.routes && route.routeId == id && entries[id].revision == route.revision
  {
    var n :| 0 <= n < |committed.routes| && committed.routes[n].routeId == id;
    route := committed.routes[n];
  }

  lemma SameRoute(command: IngressCommand, r: IngressRoute, q: IngressRoute)
    requires ValidIngressCommand(command)
    requires r in command.routes && q in command.routes && r.routeId == q.routeId
    ensures r == q
  {
    ValidRouteIdsAreDistinct(command);
    var i :| 0 <= i < |command.routes| && command.routes[i] == r;
    var j :| 0 <= j < |command.routes| && command.routes[j] == q;
    assert RouteKey(command.routes[i]) == RouteKey(command.routes[j]);
  }

  // ----- Each part of the invariant survives a commit -----

  lemma MonotoneGrows(commits: seq<IngressCommand>, s: StoreState, command: IngressCommand, maximum: nat)
    requires History(commits, s) && ValidIngressCommand(command)
    requires CandidateRefusal(s, command, maximum).None?
    ensures MonotoneRoutes(commits + [command])
  {
    hide ValidIngressCommand, CandidateRefusal, Fenced, Traced, NoRevival, OrderedCommits, SpecDigest;
    var all := commits + [command];
    forall i, j | 0 <= i <= j < |all| ensures Continues(all[i], all[j]) {
      if i == |commits| {
        forall r, q | r in command.routes && q in command.routes && r.routeId == q.routeId ensures Follows(r, q) {
          SameRoute(command, r, q);
        }
      } else if j == |commits| {
        CandidateContinues(commits, s, command, maximum, i);
      } else {
        assert all[i] == commits[i] && all[j] == commits[j];
      }
    }
  }

  lemma NoRevivalGrows(commits: seq<IngressCommand>, s: StoreState, command: IngressCommand, maximum: nat)
    requires History(commits, s) && FencesMatch(s.committed, s.entries)
    requires CandidateRefusal(s, command, maximum).None?
    ensures NoRevival(commits + [command])
  {
    hide CandidateRefusal, Fenced, Traced, MonotoneRoutes, OrderedCommits, FencesMatch, RaisedAfterGap;
    var all := commits + [command];
    forall i, k, j | 0 <= i < k < j < |all| ensures RaisedAfterGap(all[i], all[k], all[j]) {
      if j == |commits| {
        CandidateCannotRevive(commits, s, command, maximum, i, k);
      } else {
        assert all[i] == commits[i] && all[k] == commits[k] && all[j] == commits[j];
      }
    }
  }

  lemma FencedGrows(commits: seq<IngressCommand>, s: StoreState, command: IngressCommand, maximum: nat)
    requires Fenced(commits, s.entries) && ValidIngressCommand(command)
    requires CandidateRefusal(s, command, maximum).None?
    ensures Fenced(commits + [command], Promoted(s, command).entries)
  {
    hide CandidateRefusal, SpecDigest, Promoted, FenceOf, Covers, ValidIngressCommand;
    var all, t := commits + [command], Promoted(s, command);
    forall i, r | 0 <= i < |all| && r in all[i].routes
      ensures r.routeId in t.entries && Covers(t.entries[r.routeId], r)
    {
      if i == |commits| {
        PublishedRouteFence(s, command, r);
        FenceCoversItsRoute(r);
      } else {
        assert r in commits[i].routes && Covers(s.entries[r.routeId], r);
        CandidateContinues(commits, s, command, maximum, i);
        CoveredAfterCommit(s, command, r);
      }
    }
  }

  lemma FenceCoversItsRoute(r: IngressRoute)
    ensures Covers(FenceOf(r), r)
  {
  }

  lemma PublishedRouteFence(s: StoreState, command: IngressCommand, r: IngressRoute)
    requires ValidIngressCommand(command) && r in command.routes
    ensures r.routeId in Promoted(s, command).entries
    ensures Promoted(s, command).entries[r.routeId] == FenceOf(r)
  {
    hide IngressRouteSpecDigest, ValidIngressCommand, FencesOf;
    PromotedFencesMatch(s, command);
  }

  lemma CoveredAfterCommit(s: StoreState, command: IngressCommand, r: IngressRoute)
    requires ValidIngressCommand(command) && r.routeId in s.entries && Covers(s.entries[r.routeId], r)
    requires forall q :: q in command.routes && r.routeId == q.routeId ==> Follows(r, q)
    ensures r.routeId in Promoted(s, command).entries
    ensures Covers(Promoted(s, command).entries[r.routeId], r)
  {
    hide SpecDigest, FencesOf, ValidIngressCommand;
    if r.routeId in RouteIds(command.routes) {
      var n :| 0 <= n < |command.routes| && command.routes[n].routeId == r.routeId;
      PublishedRouteFence(s, command, command.routes[n]);
    }
  }

  /** A commit of an admissible candidate extends the history. */
  lemma HistoryGrows(commits: seq<IngressCommand>, s: StoreState, command: IngressCommand, maximum: nat)
    requires History(commits, s) && FencesMatch(s.committed, s.entries) && ValidIngressCommand(command)
    requires CandidateRefusal(s, command, maximum).None?
    ensures History(commits + [command], Promoted(s, command))
  {
    MonotoneGrows(commits, s, command, maximum);
    NoRevivalGrows(commits, s, command, maximum);
    FencedGrows(commits, s, command, maximum);
    TracedGrows(commits, s, command);
    OrderGrows(commits, s, command, maximum);
    hide OrderedCommits, CandidateRefusal, ValidIngressCommand, Fenced, Traced, MonotoneRoutes, NoRevival, FencesMatch,
      FencesOf, Deactivated;
  }

  lemma TracedGrows(commits: seq<IngressCommand>, s: StoreState, command: IngressCommand)
    requires Traced(commits, s.entries) && ValidIngressCommand(command)
    ensures Traced(commits + [command], Promoted(s, command).entries)
  {
    hide ValidIngressCommand, FenceOf, FencesOf;
    var all, t := commits + [command], Promoted(s, command);
    forall id | id in t.entries ensures Traces(all, id, t.entries[id]) {
      if id in RouteIds(command.routes) {
        var n :| 0 <= n < |command.routes| && command.routes[n].routeId == id;
        PublishedRouteFence(s, command, command.routes[n]);
        PublishedIsActive(command.routes[n]);
        assert command.routes[n] in all[|commits|].routes && FencedBy(command.routes[n], id, t.entries[id]);
      } else {
        assert Traces(commits, id, s.entries[id]);
        var i, r :| 0 <= i < |commits| && r in commits[i].routes && FencedBy(r, id, s.entries[id]);
        assert r in all[i].routes && FencedBy(r, id, t.entries[id]);
      }
    }
  }

  lemma PublishedIsActive(r: IngressRoute)
    ensures FenceOf(r).active
  {
  }

  lemma OrderGrows(commits: seq<IngressCommand>, s: StoreState, command: IngressCommand, maximum: nat)
    requires OrderedCommits(commits) && ValidIngressCommand(command)
    requires s.committed == (if commits == [] then None else Some(commits[|commits| - 1]))
    requires CandidateRefusal(s, command, maximum).None?
    ensures OrderedCommits(commits + [command])
  {
    hide ValidIngressCommand, RoutesRefusal;
  }

  /** Read out: monotone revisions and cutovers, one spec a revision, one deployment a cutover. */
  lemma HistoryMeaning(commits: seq<IngressCommand>, s: StoreState, i: nat, j: nat, r: IngressRoute, q: IngressRoute)
    requires History(commits, s)
    requires i <= j < |commits| && r in commits[i].routes && q in commits[j].routes && r.routeId == q.routeId
    ensures r.revision <= q.revision && r.cutoverSequence <= q.cutoverSequence
    ensures r.revision == q.revision ==> SameSpec(r, q)
    ensures r.cutoverSequence == q.cutoverSequence ==> r.deploymentId == q.deploymentId
  {
    hide IngressRouteSpecDigest, ValidHostname, NoRevival, Fenced, Traced;
    assert Continues(commits[i], commits[j]) && Follows(r, q);
    if r.revision == q.revision {
      assert ValidIngressRoute(r) && ValidIngressRoute(q);
      SpecDigestsAgree(r, q);
      SpecDigestDeterminesSpec(r, q);
    }
  }

  lemma SpecDigestsAgree(r: IngressRoute, q: IngressRoute)
    requires ValidIngressRoute(r) && ValidIngressRoute(q) && SpecDigest(r) == SpecDigest(q)
    ensures IngressRouteSpecDigest(r) == IngressRouteSpecDigest(q)
  {
    hide ValidIngressRoute, SpecBytes;
  }

  // ----- Exactly what the store admits -----

  /** The route continues all its earlier publications, above those that some committed config left out since. */
  ghost predicate RouteFits(commits: seq<IngressCommand>, q: IngressRoute) {
    && (forall i, r :: 0 <= i < |commits| && r in commits[i].routes && r.routeId == q.routeId ==> Follows(r, q))
    && forall i, k, r :: 0 <= i < k < |commits| && LeftOut(commits[i], commits[k], r) && r.routeId == q.routeId ==>
      r.revision < q.revision
  }

  predicate LeftOut(earlier: IngressCommand, gap: IngressCommand, r: IngressRoute) {
    r in earlier.routes && r.routeId !in RouteIds(gap.routes)
  }

  /** Some earlier publication of the route has a higher revision or cutover sequence. */
  ghost predicate Overtaken(commits: seq<IngressCommand>, q: IngressRoute) {
    exists i, r :: 0 <= i < |commits| && r in commits[i].routes && r.routeId == q.routeId && Above(r, q)
  }

  predicate Above(r: IngressRoute, q: IngressRoute) {
    q.revision < r.revision || q.cutoverSequence < r.cutoverSequence
  }

  /** The IDs ever published. */
  function PublishedIds(commits: seq<IngressCommand>): set<string> {
    set i, r | 0 <= i < |commits| && r in commits[i].routes :: r.routeId
  }

  function FenceRefusal(s: StoreState, q: IngressRoute): Option<StoreError> {
    if q.routeId in s.entries then RouteRefusal(s.entries[q.routeId], q) else None
  }

  /** A fence stands for all publications of its route: the answer to a route is the one the history gives. */
  lemma RouteJudged(commits: seq<IngressCommand>, s: StoreState, q: IngressRoute)
    requires History(commits, s) && FencesMatch(s.committed, s.entries)
    ensures FenceRefusal(s, q) ==
      if Overtaken(commits, q) then Some(ErrStale) else if !RouteFits(commits, q) then Some(ErrConflict) else None
  {
    hide OrderedCommits, MonotoneRoutes, FenceOf, FencesMatch, SpecDigest;
    if q.routeId in s.entries {
      FenceIsOvertaken(commits, s, q);
      if !Overtaken(commits, q) {
        FenceIsContinued(commits, s, q);
        FenceIsRaised(commits, s, q);
      }
    }
  }

  lemma FenceIsOvertaken(commits: seq<IngressCommand>, s: StoreState, q: IngressRoute)
    requires Fenced(commits, s.entries) && Traced(commits, s.entries) && q.routeId in s.entries
    ensures var fence := s.entries[q.routeId];
      Overtaken(commits, q) <==> q.revision < fence.revision || q.cutoverSequence < fence.cutoverSequence
  {
    hide SpecDigest;
    var fence := s.entries[q.routeId];
    assert Traces(commits, q.routeId, fence);
    var i, r :| 0 <= i < |commits| && r in commits[i].routes && FencedBy(r, q.routeId, fence);
    assert Above(r, q) <==> q.revision < fence.revision || q.cutoverSequence < fence.cutoverSequence;
  }

  lemma FenceIsContinued(commits: seq<IngressCommand>, s: StoreState, q: IngressRoute)
    requires Fenced(commits, s.entries) && Traced(commits, s.entries) && q.routeId in s.entries
    requires !Overtaken(commits, q)
    ensures var fence := s.entries[q.routeId];
      (forall i, r :: 0 <= i < |commits| && r in commits[i].routes && r.routeId == q.routeId ==> Follows(r, q)) <==>
        && (q.revision == fence.revision ==> SpecDigest(q) == fence.specDigest)
        && (q.cutoverSequence == fence.cutoverSequence ==> q.deploymentId == fence.deploymentId)
  {
    hide SpecDigest;
    var fence := s.entries[q.routeId];
    FenceIsOvertaken(commits, s, q);
    assert Traces(commits, q.routeId, fence);
    var i, r :| 0 <= i < |commits| && r in commits[i].routes && FencedBy(r, q.routeId, fence);
    assert Follows(r, q) ==>
      && (q.revision == fence.revision ==> SpecDigest(q) == fence.specDigest)
      && (q.cutoverSequence == fence.cutoverSequence ==> q.deploymentId == fence.deploymentId);
    forall j, p | 0 <= j < |commits| && p in commits[j].routes && p.routeId == q.routeId
      ensures Covers(fence, p) && !Above(p, q) {
    }
  }

  /** A tombstone demands a higher revision exactly when some left-out publication does. */
  lemma FenceIsRaised(commits: seq<IngressCommand>, s: StoreState, q: IngressRoute)
    requires History(commits, s) && FencesMatch(s.committed, s.entries) && q.routeId in s.entries
    requires !Overtaken(commits, q)
    ensures var fence := s.entries[q.routeId];
      !(!fence.active && q.revision == fence.revision) <==>
        forall i, k, r :: 0 <= i < k < |commits| && LeftOut(commits[i], commits[k], r) && r.routeId == q.routeId ==>
          r.revision < q.revision
  {
    hide OrderedCommits, MonotoneRoutes, FenceOf, FencesMatch, SpecDigest;
    var fence := s.entries[q.routeId];
    FenceIsOvertaken(commits, s, q);
    if !fence.active && q.revision == fence.revision {
      TombstoneIsLeftOut(commits, s, q.routeId);
    } else {
      forall i, k, r | 0 <= i < k < |commits| && LeftOut(commits[i], commits[k], r) && r.routeId == q.routeId
        ensures r.revision < q.revision
      {
        assert Covers(fence, r);
        if fence.active { ActiveIsAboveLeftOut(commits, s, i, k, r); }
      }
    }
  }

  lemma TombstoneIsNotPublished(committed: IngressCommand, entries: map<string, Fence>, id: string)
    requires FencesMatch(Some(committed), entries) && id in entries && !entries[id].active
    ensures id !in RouteIds(committed.routes)
  {
    hide SpecDigest;
    assert forall n :: 0 <= n < |committed.routes| ==> FenceOf(committed.routes[n]).active;
  }

  lemma TombstoneIsLeftOut(commits: seq<IngressCommand>, s: StoreState, id: string)
    requires History(commits, s) && FencesMatch(s.committed, s.entries) && id in s.entries && !s.entries[id].active
    ensures exists i, k, r :: (
      0 <= i < k < |commits| && LeftOut(commits[i], commits[k], r) && r.routeId == id
      && r.revision == s.entries[id].revision)
  {
    hide OrderedCommits, MonotoneRoutes, Fenced, NoRevival, SpecDigest, FencesMatch;
    var last := |commits| - 1;
    assert Traces(commits, id, s.entries[id]);
    var i, r :| 0 <= i < |commits| && r in commits[i].routes && FencedBy(r, id, s.entries[id]);
    TombstoneIsNotPublished(commits[last], s.entries, id);
    var n :| 0 <= n < |commits[i].routes| && commits[i].routes[n] == r;
    assert r.routeId in RouteIds(commits[i].routes);
    assert LeftOut(commits[i], commits[last], r);
  }

  lemma ActiveIsAboveLeftOut(commits: seq<IngressCommand>, s: StoreState, i: nat, k: nat, r: IngressRoute)
    requires History(commits, s) && FencesMatch(s.committed, s.entries) && i < k < |commits|
    requires LeftOut(commits[i], commits[k], r) && r.routeId in s.entries && s.entries[r.routeId].active
    ensures r.revision < s.entries[r.routeId].revision
  {
    hide OrderedCommits, MonotoneRoutes, Fenced, Traced, FencesMatch;
    var last := |commits| - 1;
    var current := ActiveRoute(commits[last], s.entries, r.routeId);
    assert current.routeId in RouteIds(commits[last].routes);
    assert k < last && RaisedAfterGap(commits[i], commits[k], commits[last]);
  }

  lemma {:induction false} FirstRefused(entries: map<string, Fence>, routes: seq<IngressRoute>, n: nat)
    requires n < |routes|
    requires forall m :: 0 <= m < n && routes[m].routeId in entries ==>
      RouteRefusal(entries[routes[m].routeId], routes[m]).None?
    requires routes[n].routeId in entries && RouteRefusal(entries[routes[n].routeId], routes[n]).Some?
    ensures RoutesRefusal(entries, routes) == RouteRefusal(entries[routes[n].routeId], routes[n])
    decreases |routes|
  {
    hide RouteRefusal;
    var last := |routes| - 1;
    if n < last {
      FirstRefused(entries, routes[..last], n);
    } else {
      RoutesRefusalMeaning(entries, routes[..last]);
    }
  }

  lemma RouteIsJudged(commits: seq<IngressCommand>, s: StoreState, routes: seq<IngressRoute>, m: nat)
    requires History(commits, s) && FencesMatch(s.committed, s.entries) && m < |routes|
    ensures FenceRefusal(s, routes[m]).None? <==> RouteFits(commits, routes[m])
  {
    hide History, FencesMatch, RouteRefusal;
    RouteJudged(commits, s, routes[m]);
    if Overtaken(commits, routes[m]) { OvertakenDoesNotFit(commits, routes[m]); }
  }

  lemma OvertakenDoesNotFit(commits: seq<IngressCommand>, q: IngressRoute)
    requires Overtaken(commits, q)
    ensures !RouteFits(commits, q)
  {
    var i, r :| 0 <= i < |commits| && r in commits[i].routes && r.routeId == q.routeId && Above(r, q);
    assert !Follows(r, q);
  }

  lemma FencesArePublished(commits: seq<IngressCommand>, entries: map<string, Fence>)
    requires Fenced(commits, entries) && Traced(commits, entries)
    ensures entries.Keys == PublishedIds(commits)
  {
    hide FenceOf, Covers;
    forall id | id in entries ensures id in PublishedIds(commits) {
      assert Traces(commits, id, entries[id]);
    }
  }

  lemma RoutesAreJudged(commits: seq<IngressCommand>, s: StoreState, routes: seq<IngressRoute>)
    requires History(commits, s) && FencesMatch(s.committed, s.entries)
    ensures RoutesRefusal(s.entries, routes).None? <==> forall m :: 0 <= m < |routes| ==> RouteFits(commits, routes[m])
  {
    hide History, FencesMatch, RouteRefusal, RouteFits;
    RoutesRefusalMeaning(s.entries, routes);
    forall m | 0 <= m < |routes| ensures FenceRefusal(s, routes[m]).None? <==> RouteFits(commits, routes[m]) {
      RouteIsJudged(commits, s, routes, m);
    }
  }

  lemma RevisionIsAbove(commits: seq<IngressCommand>, s: StoreState, revision: nat)
    requires History(commits, s)
    ensures (forall i :: 0 <= i < |commits| ==> commits[i].hostRevision < revision) <==>
      (s.committed.Some? ==> s.committed.value.hostRevision < revision)
  {
    hide Fenced, Traced, MonotoneRoutes, NoRevival, ValidIngressCommand;
  }

  /**
   A candidate is admitted exactly when its revision is above every committed one, its routes fit all that was ever
   committed, and the IDs ever published, with its own, are within the maximum.
   */
  lemma AdmittedExactly(commits: seq<IngressCommand>, s: StoreState, command: IngressCommand, maximum: nat)
    requires History(commits, s) && FencesMatch(s.committed, s.entries)
    ensures CandidateRefusal(s, command, maximum).None? <==> Admissible(commits, command, maximum)
  {
    hide History, FencesMatch, RoutesRefusal, RouteFits, NewEntries, PublishedIds, RouteIds;
    RoutesAreJudged(commits, s, command.routes);
    RevisionIsAbove(commits, s, command.hostRevision);
    CapacityIsCounted(commits, s, command);
  }

  ghost predicate Admissible(commits: seq<IngressCommand>, command: IngressCommand, maximum: nat) {
    && (forall i :: 0 <= i < |commits| ==> commits[i].hostRevision < command.hostRevision)
    && (forall m :: 0 <= m < |command.routes| ==> RouteFits(commits, command.routes[m]))
    && |PublishedIds(commits) + RouteIds(command.routes)| <= maximum
  }

  lemma CapacityIsCounted(commits: seq<IngressCommand>, s: StoreState, command: IngressCommand)
    requires History(commits, s)
    ensures |s.entries| + NewEntries(s.entries, command.routes) == |PublishedIds(commits) + RouteIds(command.routes)|
  {
    hide Fenced, Traced, PublishedIds, OrderedCommits, MonotoneRoutes, NoRevival;
    FencesArePublished(commits, s.entries);
    CardinalityOfUnion(s.entries.Keys, RouteIds(command.routes));
    assert |s.entries| == |s.entries.Keys|;
  }

  /** Read over whole configs: it continues each committed one, and raises what was left out since. */
  lemma FitsMeaning(commits: seq<IngressCommand>, command: IngressCommand)
    ensures (forall m :: 0 <= m < |command.routes| ==> RouteFits(commits, command.routes[m])) <==>
      && (forall i :: 0 <= i < |commits| ==> Continues(commits[i], command))
      && forall i, k :: 0 <= i < k < |commits| ==> RaisedAfterGap(commits[i], commits[k], command)
  {
    hide Follows;
  }

  /** A refusal says which: the first route that does not fit is stale when overtaken, and a conflict otherwise. */
  lemma RefusedExactly(commits: seq<IngressCommand>, s: StoreState, command: IngressCommand, maximum: nat, n: nat)
    requires History(commits, s) && FencesMatch(s.committed, s.entries) && n < |command.routes|
    requires forall i :: 0 <= i < |commits| ==> commits[i].hostRevision < command.hostRevision
    requires !RouteFits(commits, command.routes[n])
    requires forall m :: 0 <= m < n ==> RouteFits(commits, command.routes[m])
    ensures CandidateRefusal(s, command, maximum) ==
      Some(if Overtaken(commits, command.routes[n]) then ErrStale else ErrConflict)
  {
    hide FencesMatch, RouteRefusal, RouteFits, Overtaken, History, RoutesRefusal;
    forall m | 0 <= m < |command.routes|
      ensures FenceRefusal(s, command.routes[m]).None? <==> RouteFits(commits, command.routes[m])
    {
      RouteIsJudged(commits, s, command.routes, m);
    }
    RouteJudged(commits, s, command.routes[n]);
    FirstRefused(s.entries, command.routes, n);
    RevisionIsAbove(commits, s, command.hostRevision);
  }

  /** Before any route: a revision below the committed one is stale, an equal one a conflict. */
  lemma OldRevisionIsRefused(commits: seq<IngressCommand>, s: StoreState, command: IngressCommand, maximum: nat, i: nat)
    requires History(commits, s) && i < |commits| && command.hostRevision <= commits[i].hostRevision
    ensures CandidateRefusal(s, command, maximum) == Some(
      if command.hostRevision == commits[|commits| - 1].hostRevision then ErrConflict else ErrStale)
  {
    hide RoutesRefusal, Fenced, Traced, MonotoneRoutes, NoRevival, ValidIngressCommand;
  }

  /** And last: the routes fit, but there would be too many IDs. */
  lemma FullExactly(commits: seq<IngressCommand>, s: StoreState, command: IngressCommand, maximum: nat)
    requires History(commits, s) && FencesMatch(s.committed, s.entries)
    ensures CandidateRefusal(s, command, maximum) == Some(ErrFull) <==>
      && (forall i :: 0 <= i < |commits| ==> commits[i].hostRevision < command.hostRevision)
      && (forall m :: 0 <= m < |command.routes| ==> RouteFits(commits, command.routes[m]))
      && |PublishedIds(commits) + RouteIds(command.routes)| > maximum
  {
    hide History, FencesMatch, RoutesRefusal, RouteFits, NewEntries, PublishedIds, RouteIds;
    RoutesAreJudged(commits, s, command.routes);
    RevisionIsAbove(commits, s, command.hostRevision);
    NeverFull(s.entries, command.routes);
    CapacityIsCounted(commits, s, command);
  }

  lemma {:induction false} NeverFull(entries: map<string, Fence>, routes: seq<IngressRoute>)
    ensures RoutesRefusal(entries, routes) != Some(ErrFull)
    decreases |routes|
  {
    if routes != [] { NeverFull(entries, routes[..|routes| - 1]); }
  }
}
