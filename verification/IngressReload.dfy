/**
 When an agent can load its own ingress file again (internal/agent/runtime/ingress_store.go:276-309, 371-375): always,
 if the IDs it was ever asked to prepare start with a letter or digit; commands accept others, the loader does not.
 */
module IngressReload {
  import opened Common
  import opened Identifiers
  import opened IngressFence
  import opened IngressFenceStore
  import opened IngressHistory
  import opened IngressProtocol
  import opened IngressRuns
  import opened IngressSafety
  import opened StateFiles

  predicate LoaderRoute(route: IngressRoute) { LoaderIdsOf(route.routeId, FenceOf(route)) }

  /** What a caller can check: no route or deployment ID of the command starts with '-' or '_'. */
  predicate LoaderCommand(command: IngressCommand) {
    forall i :: 0 <= i < |command.routes| ==> LoaderRoute(command.routes[i])
  }

  ghost predicate LoaderState(s: StoreState) {
    LoaderIds(s) && (s.pending.Some? ==> LoaderCommand(s.pending.value))
  }

  /** Promotion brings in the IDs of the published routes, and no others. */
  lemma PromotedLoads(s: StoreState, command: IngressCommand)
    requires ValidIngressCommand(command) && LoaderIds(s)
    ensures LoaderIds(Promoted(s, command)) <==> LoaderCommand(command)
  {
    hide ValidIngressCommand, FenceOf, FencesOf, LoaderIdsOf;
    ValidRouteIdsAreDistinct(command);
    var fences := FencesOf(command.routes);
    forall i | 0 <= i < |command.routes|
      ensures command.routes[i].routeId in fences && fences[command.routes[i].routeId] == FenceOf(command.routes[i])
    {
      FencesOfMeaning(command.routes, i);
    }
    if LoaderCommand(command) {
      forall id | id in Promoted(s, command).entries ensures LoaderIdsOf(id, Promoted(s, command).entries[id]) {
        if id in fences {
          var i :| 0 <= i < |command.routes| && command.routes[i].routeId == id;
          assert LoaderRoute(command.routes[i]);
        } else {
          TombstoneLoads(id, s.entries[id]);
        }
      }
    } else {
      var i :| 0 <= i < |command.routes| && !LoaderRoute(command.routes[i]);
      assert command.routes[i].routeId in Promoted(s, command).entries;
    }
  }

  lemma TombstoneLoads(id: string, fence: Fence)
    ensures LoaderIdsOf(id, fence.(active := false)) == LoaderIdsOf(id, fence)
  {
  }

  predicate LoaderAction(a: Action) { a.Receive? && a.op == OpPrepare ==> LoaderCommand(a.command) }

  lemma StepKeepsLoading(w: World, a: Action, maximum: nat)
    requires Inv(w, maximum) && Enabled(w, a) && LoaderState(w.memory) && LoaderState(w.disk) && LoaderAction(a)
    ensures LoaderState(Next(w, a, maximum).memory) && LoaderState(Next(w, a, maximum).disk)
  {
    hide Durable, CommitAcksHold, NothingRevived, ValidIngressCommand, LoaderRoute, LoaderIdsOf, CandidateRefusal,
      IsCommitted, IsPending;
    if a.StoreCommit? {
      PromotedPendingLoads(w, maximum);
    }
  }

  lemma PromotedPendingLoads(w: World, maximum: nat)
    requires Inv(w, maximum) && w.phase.Promoting? && LoaderState(w.memory)
    ensures LoaderIds(Promoted(w.memory, w.phase.command))
  {
    hide ValidIngressCommand, History, CommitAcksHold, NothingRevived, FileFollows, ValidLoadedState, LoaderRoute,
      LoaderIds, Promoted;
    PromotedLoads(w.memory, w.phase.command);
  }

  /** After every run whose prepares carry such IDs, whatever fails in it, the agent can start again from its file. */
  lemma {:induction false} RunReloads(w: World, actions: seq<Action>, maximum: nat)
    requires Inv(w, maximum) && LoaderState(w.memory) && LoaderState(w.disk)
    requires Allowed(w, actions, maximum)
    requires forall i :: 0 <= i < |actions| ==> LoaderAction(actions[i])
    ensures LoaderIds(After(w, actions, maximum).disk) && WellFormed(After(w, actions, maximum).disk, maximum)
    decreases |actions|
  {
    hide Inv, Next, Enabled, LoaderIds, LoaderCommand, WellFormed, LoaderAction;
    if actions != [] {
      StepKeepsLoading(w, actions[0], maximum);
      StepKeepsInv(w, actions[0], maximum);
      RunReloads(Next(w, actions[0], maximum), actions[1..], maximum);
    } else {
      SoundFile(w, maximum);
    }
  }

  /** A valid command can carry the route ID "-a"; once it is committed, the agent refuses the file it wrote. */
  lemma DashedRouteStrandsAgent(maximum: nat) returns (command: IngressCommand, actions: seq<Action>)
    requires maximum >= 1
    ensures ValidIngressCommand(command) && |command.routes| == 1 && command.routes[0].routeId == "-a"
    ensures Allowed(INITIAL, actions, maximum) && LateOnly(actions, {})
    ensures After(INITIAL, actions, maximum).disk.committed == Some(command)
    ensures !LoaderIds(After(INITIAL, actions, maximum).disk)
  {
    hide ValidIngressCommand, Allowed, After, LateOnly, LoaderIds, ValidRouteList, CandidateRefusal, Deactivated,
      FencesOf;
    var _, full, _ := ValidCommandsExist(1, "-a", 1);
    command := full;
    OneRouteId(command.routes[0]);
    FreshCandidate(command, maximum);
    actions := PreparedAndCommitted(INITIAL, command, Stored, maximum);
    assert !LoaderRoute(command.routes[0]);
    HoldingLoads(command);
    PromotedLoads(Holding(command), command);
  }

  lemma HoldingLoads(command: IngressCommand)
    ensures LoaderIds(Holding(command))
  {
  }
}
