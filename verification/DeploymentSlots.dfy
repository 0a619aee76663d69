/**
 One deployment slot: the three container names an execution uses, and what stage, activate,
 retire and cancel may do to them when they can stop anywhere
 (internal/agent/runtime/docker_deployment.go:190-465, 522-609).
 */
module DeploymentSlots {
  import opened AgentCommands
  import opened Common
  import opened DockerEngine
  import opened IngressProtocol
  import opened Text

  // ----- Names -----

  /** A truncated hash of the deployment ID: two deployments may share it. */
  function ExecutionNamePart(deploymentId: string): string { Sha256Prefix(Sha256(deploymentId)) }

  function StableName(d: DeploymentCommand): string { d.containerName }

  function CandidateName(d: DeploymentCommand): string {
    d.containerName + ("-candidate-" + ExecutionNamePart(d.deploymentId) + "-" + Decimal(d.fencingToken))
  }

  function PreviousName(d: DeploymentCommand): string {
    d.containerName + ("-previous-" + ExecutionNamePart(d.deploymentId) + "-" + Decimal(d.fencingToken))
  }

  lemma NamesDiffer(d: DeploymentCommand)
    ensures StableName(d) != CandidateName(d) && StableName(d) != PreviousName(d) && CandidateName(d) != PreviousName(d)
  {
    hide Decimal, ExecutionNamePart;
    var n := |d.containerName|;
    assert CandidateName(d)[n + 1] == 'c' && PreviousName(d)[n + 1] == 'p';
    assert |CandidateName(d)| > n && |PreviousName(d)| > n;
  }

  /** Executions of one deployment in one slot have names of their own, unless their fencing tokens are the same. */
  lemma TokensSeparateNames(a: DeploymentCommand, b: DeploymentCommand)
    requires a.containerName == b.containerName && a.deploymentId == b.deploymentId
    ensures CandidateName(a) == CandidateName(b) <==> a.fencingToken == b.fencingToken
    ensures PreviousName(a) == PreviousName(b) <==> a.fencingToken == b.fencingToken
  {
    hide Decimal, ExecutionNamePart;
    TokenEndsName(a.containerName, "-candidate-" + ExecutionNamePart(a.deploymentId) + "-", a, b);
    TokenEndsName(a.containerName, "-previous-" + ExecutionNamePart(a.deploymentId) + "-", a, b);
  }

  lemma TokenEndsName(slot: string, middle: string, a: DeploymentCommand, b: DeploymentCommand)
    ensures slot + (middle + Decimal(a.fencingToken)) == slot + (middle + Decimal(b.fencingToken)) <==>
      a.fencingToken == b.fencingToken
  {
    hide Decimal;
    var x, y := slot + (middle + Decimal(a.fencingToken)), slot + (middle + Decimal(b.fencingToken));
    var n := |slot| + |middle|;
    assert x[n..] == Decimal(a.fencingToken) && y[n..] == Decimal(b.fencingToken);
    if x == y { DecimalIsInjective(a.fencingToken, b.fencingToken); }
  }

  // ----- Fences -----

  predicate Managed(c: Container) { c.labels.deploymentId != "" }

  function LabelsOf(d: DeploymentCommand): Labels { Labels(d.deploymentId, d.fencingToken, d.cutoverSequence) }

  predicate OwnsExecution(c: Container, d: DeploymentCommand) {
    && Managed(c) && c.labels.deploymentId == d.deploymentId
    && c.labels.fencingToken == d.fencingToken && c.labels.cutoverSequence == d.cutoverSequence
  }

  predicate HasNewerFence(c: Container, d: DeploymentCommand) {
    && Managed(c)
    && (c.labels.cutoverSequence > d.cutoverSequence
      || (c.labels.cutoverSequence == d.cutoverSequence && c.labels.deploymentId != d.deploymentId)
      || (c.labels.cutoverSequence == d.cutoverSequence && c.labels.deploymentId == d.deploymentId
          && c.labels.fencingToken > d.fencingToken))
  }

  predicate Owned(c: Option<Container>, d: DeploymentCommand) { c.Some? && OwnsExecution(c.value, d) }

  predicate Newer(c: Option<Container>, d: DeploymentCommand) { c.Some? && HasNewerFence(c.value, d) }

  predicate Foreign(c: Option<Container>) { c.Some? && !Managed(c.value) }

  /** A managed container is newer, this execution's, or older, and only one of the three. */
  lemma FencesAreComparable(c: Container, d: DeploymentCommand)
    requires Managed(c) && d.deploymentId != ""
    ensures !(HasNewerFence(c, d) && OwnsExecution(c, d))
    ensures !HasNewerFence(c, d) && !OwnsExecution(c, d) <==>
      c.labels.cutoverSequence < d.cutoverSequence
      || (c.labels.cutoverSequence == d.cutoverSequence && c.labels.deploymentId == d.deploymentId
          && c.labels.fencingToken < d.fencingToken)
  {
  }

  // ----- Slots -----

  datatype Slot = Slot(stable: Option<Container>, candidate: Option<Container>, previous: Option<Container>)

  function Get(m: Containers, name: string): Option<Container> {
    if name in m then Some(m[name]) else None
  }

  function SlotOf(m: Containers, d: DeploymentCommand): Slot {
    Slot(Get(m, StableName(d)), Get(m, CandidateName(d)), Get(m, PreviousName(d)))
  }

  ghost predicate OnlySlotDiffers(m: Containers, n: Containers, d: DeploymentCommand) {
    forall name :: name != StableName(d) && name != CandidateName(d) && name != PreviousName(d) ==>
      Get(m, name) == Get(n, name)
  }

  /** Equal slots and nothing else different: the whole engine is as it was. */
  lemma SameSlotSameContainers(m: Containers, n: Containers, d: DeploymentCommand)
    requires OnlySlotDiffers(m, n, d) && SlotOf(m, d) == SlotOf(n, d)
    ensures m == n
  {
    forall name ensures Get(m, name) == Get(n, name) {
    }
    forall name ensures name in m <==> name in n {
      assert Get(m, name) == Get(n, name);
    }
    forall name | name in m ensures m[name] == n[name] {
      assert Get(m, name) == Get(n, name);
    }
  }

  // ----- What each operation may do, stopped anywhere and with calls failing either way -----

  function DropCandidate(x: Slot, d: DeploymentCommand): Slot {
    if Owned(x.candidate, d) then x.(candidate := None) else x
  }

  ghost predicate StageTook(x: Slot, y: Slot, d: DeploymentCommand) {
    || y == x
    || y == DropCandidate(x, d)
    || (&& x.candidate.None? && !Newer(x.stable, d) && !Owned(x.stable, d)
        && y.candidate.Some? && y.candidate.value.labels == LabelsOf(d) && y == x.(candidate := y.candidate))
  }

  /** The container an activation must keep: the old stable one, wherever it stands. */
  function Kept(x: Slot): Option<Container> { if x.stable.Some? then x.stable else x.previous }

  predicate CanActivate(x: Slot, d: DeploymentCommand) {
    && Owned(x.candidate, d) && !Newer(x.stable, d) && !Owned(x.stable, d)
    && !Foreign(x.stable) && !Foreign(x.previous)
  }

  ghost predicate ActivateTook(x: Slot, y: Slot, d: DeploymentCommand) {
    || y == x
    || y == DropCandidate(x, d)
    || (CanActivate(x, d) && Rearranged(x, y))
  }

  /** The candidate and the kept container, in any place an interrupted activation leaves them. */
  ghost predicate Rearranged(x: Slot, y: Slot) {
    var c, kept := x.candidate, Kept(x);
    || y == Slot(c, None, kept) || y == Slot(kept, c, None) || y == Slot(None, c, kept)
    || y == Slot(kept, None, None) || y == Slot(None, None, kept)
  }

  function Activated(x: Slot, d: DeploymentCommand): Slot {
    if CanActivate(x, d) then Slot(x.candidate, None, Kept(x)) else DropCandidate(x, d)
  }

  ghost predicate RetireTook(x: Slot, y: Slot, d: DeploymentCommand) {
    y == x || (Owned(x.stable, d) && !Foreign(x.previous) && y == x.(previous := None))
  }

  predicate Restorable(c: Option<Container>, d: DeploymentCommand) {
    c.Some? && Managed(c.value) && !OwnsExecution(c.value, d) && c.value.labels.cutoverSequence < d.cutoverSequence
  }

  /** Cancel refuses to remove the stable container when it could not put the previous one back. */
  predicate Blocked(x: Slot, d: DeploymentCommand) {
    Owned(x.stable, d) && x.previous.Some? && !Owned(x.previous, d) && !Restorable(x.previous, d)
  }

  function DropStable(x: Slot, d: DeploymentCommand): Slot {
    if Owned(x.stable, d) then x.(stable := None) else x
  }

  function PutBack(x: Slot, d: DeploymentCommand): Slot {
    if x.stable.None? && Restorable(x.previous, d) then Slot(x.previous, x.candidate, None)
    else if Owned(x.previous, d) then x.(previous := None)
    else x
  }

  function Cancelled(x: Slot, d: DeploymentCommand): Slot {
    PutBack(DropStable(DropCandidate(x, d), d), d)
  }

  ghost predicate CancelTook(x: Slot, y: Slot, d: DeploymentCommand) {
    || y == x
    || y == DropCandidate(x, d)
    || (!Blocked(x, d) && (y == DropStable(DropCandidate(x, d), d) || y == Cancelled(x, d)))
  }

  // ----- Cancelling an interrupted execution restores the slot -----

  ghost predicate Took(x: Slot, y: Slot, d: DeploymentCommand) {
    StageTook(x, y, d) || ActivateTook(x, y, d) || CancelTook(x, y, d)
  }

  /** A run of stages, activations and cancellations of one execution, each stopped anywhere. */
  ghost predicate Interrupted(slots: seq<Slot>, d: DeploymentCommand) {
    && |slots| > 0
    && forall i :: 0 < i < |slots| ==> Took(slots[i - 1], slots[i], d)
  }

  /**
   What a caller can check before staging: the stable container is not one of this deployment and
   cutover sequence with a fencing token up to this one's.
   */
  predicate Recoverable(stable: Option<Container>, d: DeploymentCommand) {
    || stable.None? || Foreign(stable) || Newer(stable, d)
    || stable.value.labels.cutoverSequence < d.cutoverSequence
  }

  /** Where an execution that started on `before` may stand. */
  ghost predicate Underway(x: Slot, before: Slot, d: DeploymentCommand) {
    || (x.stable == before.stable && x.previous.None? && (x.candidate.None? || Owned(x.candidate, d)))
    || (&& (before.stable.None? || Restorable(before.stable, d)) && x.previous == before.stable
        && ((x.stable.None? && (x.candidate.None? || Owned(x.candidate, d)))
          || (Owned(x.stable, d) && x.candidate.None?)))
  }

  lemma StepStaysUnderway(x: Slot, y: Slot, before: Slot, d: DeploymentCommand)
    requires d.deploymentId != "" && Recoverable(before.stable, d)
    requires Underway(x, before, d) && Took(x, y, d)
    ensures Underway(y, before, d)
  {
  }

  lemma CancelRestores(x: Slot, before: Slot, d: DeploymentCommand)
    requires d.deploymentId != "" && before.candidate.None? && before.previous.None? && Recoverable(before.stable, d)
    requires Underway(x, before, d)
    ensures !Blocked(x, d) && Cancelled(x, d) == before
  {
  }

  /** However often stage, activate and cancel were interrupted, a completed cancel restores the slot. */
  lemma {:induction false} InterruptedRunIsRecoverable(slots: seq<Slot>, d: DeploymentCommand)
    requires d.deploymentId != "" && Interrupted(slots, d)
    requires slots[0].candidate.None? && slots[0].previous.None? && Recoverable(slots[0].stable, d)
    ensures Underway(slots[|slots| - 1], slots[0], d)
    ensures !Blocked(slots[|slots| - 1], d) && Cancelled(slots[|slots| - 1], d) == slots[0]
    decreases |slots|
  {
    hide Took, Underway, Cancelled, Blocked;
    var n := |slots| - 1;
    if n == 0 {
      assert Underway(slots[0], slots[0], d) by { StartsUnderway(slots[0], d); }
    } else {
      InterruptedRunIsRecoverable(slots[..n], d);
      StepStaysUnderway(slots[n - 1], slots[n], slots[0], d);
    }
    CancelRestores(slots[n], slots[0], d);
  }

  lemma StartsUnderway(before: Slot, d: DeploymentCommand)
    requires before.candidate.None? && before.previous.None?
    ensures Underway(before, before, d)
  {
  }

  /**
   Over a stable container of the same deployment and cutover sequence but a smaller fencing token, a completed
   activation leaves a slot that no cancel ever changes.
   */
  lemma RetriedExecutionCannotBeCancelled(stable: Container, candidate: Container, d: DeploymentCommand)
    requires d.deploymentId != "" && !Recoverable(Some(stable), d) && stable.labels.fencingToken < d.fencingToken
    requires candidate.labels == LabelsOf(d)
    ensures var before := Slot(Some(stable), None, None);
      var staged := Slot(Some(stable), Some(candidate), None);
      var stuck := Activated(staged, d);
      && StageTook(before, staged, d) && ActivateTook(staged, stuck, d)
      && stuck != before && Blocked(stuck, d) && forall y :: CancelTook(stuck, y, d) ==> y == stuck
  {
  }

  /** Over a stable container of this very execution, a cancel removes it. */
  lemma OwnedStableIsRemoved(before: Slot, d: DeploymentCommand)
    requires Owned(before.stable, d) && before.candidate.None? && before.previous.None?
    ensures !Blocked(before, d) && Cancelled(before, d) == Slot(None, None, None)
  {
  }

  /** From where the run stands, a completed cancel gives back the slot it started on. */
  ghost predicate CancelGivesBack(slots: seq<Slot>, d: DeploymentCommand)
    requires |slots| > 0
  {
    !Blocked(slots[|slots| - 1], d) && Cancelled(slots[|slots| - 1], d) == slots[0]
  }

  /** For every run that starts on a slot with free candidate and previous names, exactly when it is recoverable. */
  lemma RecoverableExactly(before: Slot, d: DeploymentCommand)
    requires d.deploymentId != "" && before.candidate.None? && before.previous.None?
    ensures Recoverable(before.stable, d) <==>
      forall slots :: Interrupted(slots, d) && slots[0] == before ==> CancelGivesBack(slots, d)
  {
    hide OwnsExecution, HasNewerFence, Blocked, Cancelled, Activated, StageTook, ActivateTook, CancelTook;
    if Recoverable(before.stable, d) {
      forall slots | Interrupted(slots, d) && slots[0] == before ensures CancelGivesBack(slots, d) {
        InterruptedRunIsRecoverable(slots, d);
      }
    } else {
      var stable := before.stable.value;
      FencesAreComparable(stable, d);
      if OwnsExecution(stable, d) {
        assert Interrupted([before], d);
        OwnedStableIsRemoved(before, d);
        assert !CancelGivesBack([before], d);
      } else {
        var candidate := Container(stable.id + 1, LabelsOf(d));
        RetriedExecutionCannotBeCancelled(stable, candidate, d);
        var staged := Slot(Some(stable), Some(candidate), None);
        var slots := [before, staged, Activated(staged, d)];
        assert Interrupted(slots, d);
        assert !CancelGivesBack(slots, d);
      }
    }
  }

  // ----- Activation -----

  /** A crashed activation stays on its way: completing it gives the same slot. */
  ghost predicate OnTheWay(x: Slot, y: Slot, d: DeploymentCommand) {
    (CanActivate(y, d) || Owned(y.stable, d)) && Activated(y, d) == Activated(x, d)
  }

  /** The old stable container is kept, untouched, under the previous name. */
  lemma ActivatedKeepsOldStable(x: Slot, d: DeploymentCommand)
    requires CanActivate(x, d) && x.stable.Some?
    ensures Activated(x, d).stable == x.candidate && Activated(x, d).previous == x.stable
    ensures Activated(x, d).stable.value.labels.cutoverSequence >= x.stable.value.labels.cutoverSequence
  {
  }

  /** Activation never puts a smaller cutover sequence under the stable name than it found there. */
  lemma ActivationNeverFallsBack(x: Slot, y: Slot, d: DeploymentCommand)
    requires ActivateTook(x, y, d) && x.stable.Some? && y.stable.Some?
    ensures y.stable == x.stable
      || (Owned(y.stable, d) && y.stable.value.labels.cutoverSequence >= x.stable.value.labels.cutoverSequence)
  {
  }
}
