/**
 `MongoGuard.Reserve` (internal/platform/ingress/mongo.go): any number of servers share one rate document and change
 it by find, insert and revision-guarded replace. Before each of these calls the other servers may have
 made any number of reservations of their own, under the same limit and window but by any clock.
 */
module RateWindow {
  import opened Common

  const MAX_RETRIES := 128
  const KEY_LENGTH := 64

  /** Nanoseconds, of which the database keeps whole milliseconds. */
  type Time = int

  const MILLISECOND := 1_000_000

  function Kept(t: Time): (k: Time)
    ensures k % MILLISECOND == 0 && k <= t < k + MILLISECOND
  {
    t - t % MILLISECOND
  }

  datatype RateDocument = RateDocument(windowStartedAt: Time, requests: nat, expiresAt: Time, revision: nat)

  /** What the database keeps of a document. */
  function Recorded(d: RateDocument): RateDocument {
    d.(windowStartedAt := Kept(d.windowStartedAt), expiresAt := Kept(d.expiresAt))
  }

  /** A version of the document, and the server whose reservation made it, at which time by its own clock. */
  datatype Version = Version(document: RateDocument, server: nat, clock: Time)

  datatype Policy = Policy(limit: int, window: int)

  // ----- Which histories of the document are lawful -----

  ghost predicate Opens(v: Version, policy: Policy) {
    v.document == RateDocument(Kept(v.clock), 1, Kept(v.clock + 2 * policy.window), 1)
  }

  /** One more request in the window if it is still open by the clock, else the first of a window that starts then. */
  ghost predicate Follows(a: RateDocument, v: Version, policy: Policy) {
    var b := v.document;
    && b.revision == a.revision + 1 && b.requests <= policy.limit
    && if v.clock < a.windowStartedAt + policy.window then
         && b.windowStartedAt == a.windowStartedAt && b.requests == a.requests + 1
         && b.expiresAt == Kept(a.windowStartedAt + 2 * policy.window)
       else
         && b.windowStartedAt == Kept(v.clock) && b.requests == 1
         && b.expiresAt == Kept(v.clock + 2 * policy.window)
  }

  ghost predicate Lawful(versions: seq<Version>, policy: Policy) {
    && policy.limit >= 1 && policy.window > 0
    && (versions != [] ==> Opens(versions[0], policy))
    && forall i :: 0 < i < |versions| ==> Follows(versions[i - 1].document, versions[i], policy)
  }

  /** Reservations recorded in the window that starts at `start`. */
  ghost function Reservations(versions: seq<Version>, start: Time): nat {
    if versions == [] then 0
    else
      var n := |versions| - 1;
      Reservations(versions[..n], start) + if versions[n].document.windowStartedAt == start then 1 else 0
  }

  lemma {:induction false} EachSuccessRaisesRevision(versions: seq<Version>, policy: Policy, i: nat)
    requires Lawful(versions, policy) && i < |versions|
    ensures versions[i].document.revision == i + 1
  {
    if i > 0 {
      EachSuccessRaisesRevision(versions, policy, i - 1);
    }
  }

  lemma PrefixIsLawful(versions: seq<Version>, policy: Policy, n: nat)
    requires Lawful(versions, policy) && n <= |versions|
    ensures Lawful(versions[..n], policy)
  {
  }

  lemma {:induction false} StartsAreKept(versions: seq<Version>, policy: Policy, i: nat)
    requires Lawful(versions, policy) && i < |versions|
    ensures versions[i].document.windowStartedAt % MILLISECOND == 0
  {
    if i > 0 {
      StartsAreKept(versions, policy, i - 1);
      assert Follows(versions[i - 1].document, versions[i], policy);
    }
  }

  /** A window that is opened later starts at least the whole milliseconds of a window later. */
  lemma NextStart(start: Time, clock: Time, window: int)
    requires start % MILLISECOND == 0 && clock >= start + window
    ensures Kept(clock) >= start + Kept(window)
  {
    assert (start + Kept(window)) % MILLISECOND == 0;
  }

  predicate StartsApart(v: Version, w: Version, distance: int) {
    || w.document.windowStartedAt == v.document.windowStartedAt
    || w.document.windowStartedAt >= v.document.windowStartedAt + distance
  }

  /** Two window starts in one history are equal or at least a window's milliseconds apart, whatever the clocks say. */
  lemma {:induction false} WindowsAreApart(versions: seq<Version>, policy: Policy, i: nat, j: nat)
    requires Lawful(versions, policy) && i < j < |versions|
    ensures StartsApart(versions[i], versions[j], Kept(policy.window))
    decreases j - i
  {
    hide Kept;
    var last, v := versions[j - 1].document, versions[j];
    assert Follows(last, v, policy);
    StartsAreKept(versions, policy, j - 1);
    if v.clock >= last.windowStartedAt + policy.window { NextStart(last.windowStartedAt, v.clock, policy.window); }
    if i < j - 1 {
      WindowsAreApart(versions, policy, i, j - 1);
    }
  }

  ghost predicate Apart(versions: seq<Version>, window: int) {
    forall i, j :: 0 <= i < j < |versions| ==> StartsApart(versions[i], versions[j], window)
  }

  /** A whole window apart, in every history, exactly for windows of whole milliseconds and those below one. */
  lemma WindowsAreApartExactly(policy: Policy)
    requires policy.limit >= 1 && policy.window > 0
    ensures policy.window < MILLISECOND || policy.window % MILLISECOND == 0 <==>
      forall versions: seq<Version> :: Lawful(versions, policy) ==> Apart(versions, policy.window)
  {
    hide Lawful, Kept;
    var window := policy.window;
    if window < MILLISECOND || window % MILLISECOND == 0 {
      forall versions: seq<Version> | Lawful(versions, policy) ensures Apart(versions, window) {
        forall i, j | 0 <= i < j < |versions|
          ensures StartsApart(versions[i], versions[j], window)
        {
          WindowsAreApart(versions, policy, i, j);
          StartsAreKept(versions, policy, i);
          StartsAreKept(versions, policy, j);
        }
      }
    } else {
      var versions := TwoWindows(policy);
      assert versions[1].document.windowStartedAt < versions[0].document.windowStartedAt + window;
      assert !Apart(versions, window);
    }
  }

  /** A first reservation at time zero, and the next as soon as its window has ended. */
  ghost function TwoWindows(policy: Policy): (versions: seq<Version>)
    requires policy.limit >= 1 && policy.window > 0
    ensures Lawful(versions, policy) && |versions| == 2
    ensures versions[0].document.windowStartedAt == 0
    ensures versions[1].document.windowStartedAt == Kept(policy.window) && versions[1].document.requests == 1
  {
    var window := policy.window;
    [Version(RateDocument(0, 1, Kept(2 * window), 1), 0, 0),
     Version(RateDocument(Kept(window), 1, Kept(3 * window), 2), 0, window)]
  }

  lemma {:induction false} NoneLater(versions: seq<Version>, policy: Policy, start: Time)
    requires Lawful(versions, policy) && policy.window >= MILLISECOND
    requires versions != [] ==> versions[|versions| - 1].document.windowStartedAt + Kept(policy.window) <= start
    ensures Reservations(versions, start) == 0
  {
    if versions != [] {
      var n := |versions| - 1;
      PrefixIsLawful(versions, policy, n);
      if n > 0 { WindowsAreApart(versions, policy, n - 1, n); }
      NoneLater(versions[..n], policy, start);
    }
  }

  /** The last version counts exactly the reservations of its window. */
  lemma {:induction false} RequestsCountReservations(versions: seq<Version>, policy: Policy)
    requires Lawful(versions, policy) && versions != [] && policy.window >= MILLISECOND
    ensures var d := versions[|versions| - 1].document; Reservations(versions, d.windowStartedAt) == d.requests
  {
    hide Kept;
    var n := |versions| - 1;
    PrefixIsLawful(versions, policy, n);
    if n > 0 {
      var last, v := versions[n - 1].document, versions[n];
      assert Follows(last, v, policy);
      if v.clock < last.windowStartedAt + policy.window {
        RequestsCountReservations(versions[..n], policy);
      } else {
        StartsAreKept(versions, policy, n - 1);
        NextStart(last.windowStartedAt, v.clock, policy.window);
        NoneLater(versions[..n], policy, v.document.windowStartedAt);
      }
    } else {
      assert versions[..n] == [];
    }
  }

  /** With windows of a millisecond or more no window ever holds more reservations than the limit. */
  lemma {:induction false} WindowsKeepTheLimit(versions: seq<Version>, policy: Policy, start: Time)
    requires Lawful(versions, policy) && policy.window >= MILLISECOND
    ensures Reservations(versions, start) <= policy.limit
  {
    if versions != [] {
      var n := |versions| - 1;
      if versions[n].document.windowStartedAt == start {
        RequestsCountReservations(versions, policy);
        if n > 0 { assert Follows(versions[n - 1].document, versions[n], policy); }
      } else {
        PrefixIsLawful(versions, policy, n);
        WindowsKeepTheLimit(versions[..n], policy, start);
      }
    }
  }

  lemma FirstMillisecond(clock: Time)
    requires 0 <= clock < MILLISECOND
    ensures Kept(clock) == 0
  {
  }

  /** A shorter window is reopened within its own millisecond: `count` reservations, all recorded at time zero. */
  lemma {:induction false} Crowded(policy: Policy, count: nat) returns (versions: seq<Version>)
    requires policy.limit >= 1 && 0 < policy.window < MILLISECOND
    ensures Lawful(versions, policy) && |versions| == count && Reservations(versions, 0) == count
    ensures forall i :: 0 <= i < count ==>
      versions[i].document.windowStartedAt == 0 && versions[i].document.revision == i + 1
  {
    hide Kept;
    if count == 0 {
      versions := [];
    } else {
      var earlier := Crowded(policy, count - 1);
      var clock := if count == 1 then 0 else policy.window;
      FirstMillisecond(clock);
      var v := Version(RateDocument(0, 1, Kept(clock + 2 * policy.window), count), 0, clock);
      versions := earlier + [v];
      assert versions[..count - 1] == earlier;
    }
  }

  /** The limit holds in every history exactly for windows of at least a millisecond. */
  lemma LimitHoldsExactly(policy: Policy)
    requires policy.limit >= 1 && policy.window > 0
    ensures policy.window >= MILLISECOND <==>
      forall versions, start :: Lawful(versions, policy) ==> Reservations(versions, start) <= policy.limit
  {
    hide Lawful;
    if policy.window >= MILLISECOND {
      forall versions, start | Lawful(versions, policy) ensures Reservations(versions, start) <= policy.limit {
        WindowsKeepTheLimit(versions, policy, start);
      }
    } else {
      var versions := Crowded(policy, policy.limit + 1);
      assert Reservations(versions, 0) > policy.limit;
    }
  }

  /** A document is kept at least until its window has ended, if that is a millisecond or more. */
  lemma OutlivesItsWindow(versions: seq<Version>, policy: Policy, i: nat)
    requires Lawful(versions, policy) && i < |versions| && policy.window >= MILLISECOND
    ensures versions[i].document.expiresAt >= versions[i].document.windowStartedAt + policy.window
  {
    if i > 0 {
      StartsAreKept(versions, policy, i - 1);
      assert Follows(versions[i - 1].document, versions[i], policy);
    }
  }

  /** How many of the versions after `from` are this server's. */
  ghost function MadeBy(versions: seq<Version>, server: nat, from: nat): nat
    requires from <= |versions|
  {
    if |versions| == from then 0
    else
      var n := |versions| - 1;
      MadeBy(versions[..n], server, from) + if versions[n].server == server then 1 else 0
  }

  lemma MadeBySnoc(versions: seq<Version>, v: Version, server: nat, from: nat)
    requires from <= |versions|
    ensures MadeBy(versions + [v], server, from) == MadeBy(versions, server, from) + if v.server == server then 1 else 0
  {
    assert (versions + [v])[..|versions|] == versions;
  }

  lemma WholeIsKept(t: Time)
    requires t % MILLISECOND == 0
    ensures Kept(t) == t
  {
  }

  // ----- The shared collection -----

  datatype FindReply = Found(document: RateDocument) | NoDocument | FindFailed

  datatype InsertReply = Inserted | Duplicate | InsertFailed

  datatype ReplaceReply = Matched | NotMatched | ReplaceFailed

  datatype Reservation = Granted | Denied(retryAt: Time) | Failed | InvalidPolicy

  class RateCollection {
    const policy: Policy
    var document: Option<RateDocument>
    ghost var versions: seq<Version>
    /** How many of the calls so far were answered with an error. */
    ghost var failures: nat

    ghost predicate Valid()
      reads this
    {
      && Lawful(versions, policy)
      && document == if versions == [] then None else Some(versions[|versions| - 1].document)
    }

    constructor (policy: Policy)
      requires policy.limit >= 1 && policy.window > 0
      ensures Valid() && this.policy == policy && versions == []
    {
      this.policy, document, versions, failures := policy, None, [], 0;
    }

    /** Any reservations the other servers make meanwhile. */
    method Others(server: nat)
      requires Valid()
      modifies this`document, this`versions
      ensures Valid() && old(versions) <= versions && MadeBy(versions, server, |old(versions)|) == 0
    {
      var count: int := *;
      for i := 0 to if count > 0 then count else 0
        invariant Valid() && old(versions) <= versions && MadeBy(versions, server, |old(versions)|) == 0
      {
        var clock: int, other: int := *, *;
        if other >= 0 && other != server { Another(clock, other); }
      }
    }

    /** A reservation of another server by its clock, unless the window is full. */
    method Another(clock: Time, other: nat)
      requires Valid()
      modifies this`document, this`versions
      ensures Valid()
      ensures versions == old(versions)
        || (&& |versions| == |old(versions)| + 1 && versions[..|old(versions)|] == old(versions)
            && versions[|old(versions)|].server == other)
    {
      hide Kept;
      var next := RateDocument(clock, 1, clock + 2 * policy.window, 1);
      if document.Some? {
        var last := document.value;
        next := next.(revision := last.revision + 1);
        if clock < last.windowStartedAt + policy.window {
          if last.requests >= policy.limit { return; }
          next := RateDocument(last.windowStartedAt, last.requests + 1, last.windowStartedAt + 2 * policy.window,
            last.revision + 1);
          StartsAreKept(versions, policy, |versions| - 1);
          WholeIsKept(last.windowStartedAt);
        }
      }
      document, versions := Some(Recorded(next)), versions + [Version(Recorded(next), other, clock)];
    }

    method FindOne(server: nat) returns (reply: FindReply)
      requires Valid()
      modifies this
      ensures Valid() && old(versions) <= versions && MadeBy(versions, server, |old(versions)|) == 0
      ensures reply.NoDocument? ==> versions == []
      ensures reply.Found? ==> versions != [] && versions[|versions| - 1].document == reply.document
      ensures failures == old(failures) + if reply.FindFailed? then 1 else 0
    {
      Others(server);
      if * {
        failures := failures + 1;
        return FindFailed;
      }
      if document.None? { return NoDocument; }
      return Found(document.value);
    }

    /** Inserts unless there is a document; an error leaves open whether it did. */
    method InsertOne(server: nat, now: Time, first: RateDocument) returns (reply: InsertReply)
      requires Valid() && Opens(Version(Recorded(first), server, now), policy)
      modifies this
      ensures Valid() && old(versions) <= versions
      ensures MadeBy(versions, server, |old(versions)|) == (if reply.Inserted? then 1 else 0)
        || (reply.InsertFailed? && MadeBy(versions, server, |old(versions)|) == 1)
      ensures reply.Duplicate? ==> versions != []
      ensures failures == old(failures) + if reply.InsertFailed? then 1 else 0
      ensures reply.Inserted? ==>
        |versions| > |old(versions)| && var v := versions[|versions| - 1]; v.server == server && v.clock == now
    {
      hide MadeBy, Opens, Follows;
      Others(server);
      if document.Some? {
        if * {
          failures := failures + 1;
          return InsertFailed;
        }
        return Duplicate;
      }
      if * {
        failures := failures + 1;
        return InsertFailed;
      }
      MadeBySnoc(versions, Version(Recorded(first), server, now), server, |old(versions)|);
      document, versions := Some(Recorded(first)), versions + [Version(Recorded(first), server, now)];
      if * {
        failures := failures + 1;
        return InsertFailed;
      }
      return Inserted;
    }

    /** Replaces the document if it still has this revision; an error leaves open whether it did. */
    method ReplaceOne(server: nat, now: Time, current: RateDocument, next: RateDocument)
      returns (reply: ReplaceReply)
      requires Valid() && Follows(current, Version(Recorded(next), server, now), policy)
      requires versions != [] && versions[|versions| - 1].document == current
      modifies this
      ensures Valid() && old(versions) <= versions
      ensures MadeBy(versions, server, |old(versions)|) == (if reply.Matched? then 1 else 0)
        || (reply.ReplaceFailed? && MadeBy(versions, server, |old(versions)|) == 1)
      ensures reply.NotMatched? ==> |versions| > |old(versions)|
      ensures failures == old(failures) + if reply.ReplaceFailed? then 1 else 0
      ensures reply.Matched? ==>
        |versions| > |old(versions)| && var v := versions[|versions| - 1]; v.server == server && v.clock == now
    {
      hide MadeBy, Opens;
      EachSuccessRaisesRevision(versions, policy, |versions| - 1);
      Others(server);
      EachSuccessRaisesRevision(versions, policy, |versions| - 1);
      if document.value.revision != current.revision {
        if * {
          failures := failures + 1;
          return ReplaceFailed;
        }
        return NotMatched;
      }
      if * {
        failures := failures + 1;
        return ReplaceFailed;
      }
      MadeBySnoc(versions, Version(Recorded(next), server, now), server, |old(versions)|);
      document, versions := Some(Recorded(next)), versions + [Version(Recorded(next), server, now)];
      if * {
        failures := failures + 1;
        return ReplaceFailed;
      }
      return Matched;
    }
  }

  lemma {:induction false} MadeByAdds(a: seq<Version>, b: seq<Version>, server: nat, from: nat)
    requires from <= |a| && a <= b
    ensures MadeBy(b, server, from) == MadeBy(a, server, from) + MadeBy(b, server, |a|)
    decreases |b|
  {
    if |b| > |a| {
      var n := |b| - 1;
      assert a <= b[..n];
      MadeByAdds(a, b[..n], server, from);
    } else {
      assert a == b;
    }
  }

  /** A window that ends at `retryAt` was full, in the version that was current at `from` or in a later one. */
  ghost predicate FullUntil(versions: seq<Version>, policy: Policy, retryAt: Time, from: nat) {
    exists i :: 0 <= i < |versions| && from <= i + 1 && Full(versions[i], policy, retryAt)
  }

  predicate Full(v: Version, policy: Policy, retryAt: Time) {
    v.document.requests >= policy.limit && v.document.windowStartedAt + policy.window == retryAt
  }

  /** A reservation of this server by this clock. */
  ghost predicate ReservedAt(versions: seq<Version>, server: nat, now: Time, from: nat) {
    exists i :: from <= i < |versions| && versions[i].server == server && versions[i].clock == now
  }

  /**
   A reservation is granted exactly when this call added one version to the lawful history, by its own clock; it fails
   exactly when one of its database calls did, and that leaves open whether it did. A denial names a time after the
   caller's clock: the end of a window that was full during the call, or, only when other servers made at least as many
   reservations meanwhile as this call made attempts, a window from now.
   */
  method Reserve(rates: RateCollection, server: nat, key: string, now: Time, limit: int, window: int)
    returns (r: Reservation)
    requires rates.Valid() && (limit >= 1 && window > 0 ==> rates.policy == Policy(limit, window))
    modifies rates
    ensures rates.Valid() && old(rates.versions) <= rates.versions
    ensures r.InvalidPolicy? <==> |key| != KEY_LENGTH || limit < 1 || window <= 0
    ensures r.Failed? <==> rates.failures > old(rates.failures)
    ensures var made := MadeBy(rates.versions, server, |old(rates.versions)|);
      (r.Granted? ==> made == 1) && (r.Denied? || r.InvalidPolicy? ==> made == 0) && made <= 1
    ensures r.Granted? ==> ReservedAt(rates.versions, server, now, |old(rates.versions)|)
    ensures r.Denied? ==> r.retryAt > now
    ensures r.Denied? ==>
      || FullUntil(rates.versions, rates.policy, r.retryAt, |old(rates.versions)|)
      || (r.retryAt == now + rates.policy.window && |rates.versions| >= |old(rates.versions)| + MAX_RETRIES)
  {
    hide Lawful, Follows, FullUntil, ReservedAt;
    if |key| != KEY_LENGTH || limit < 1 || window <= 0 { return InvalidPolicy; }
    for retry := 0 to MAX_RETRIES
      invariant rates.Valid() && old(rates.versions) <= rates.versions && rates.failures == old(rates.failures)
      invariant MadeBy(rates.versions, server, |old(rates.versions)|) == 0
      invariant |rates.versions| >= |old(rates.versions)| + retry
    {
      r := Attempt(rates, server, now, old(rates.versions));
      if r != Denied(now) { return; }
    }
    return Denied(now + window);
  }

  lemma PolicyIsSane(versions: seq<Version>, policy: Policy)
    requires Lawful(versions, policy)
    ensures policy.limit >= 1 && policy.window > 0
  {
  }

  /** One pass of the retry loop; `Denied(now)` stands for another try. */
  method Attempt(rates: RateCollection, server: nat, now: Time, ghost start: seq<Version>) returns (r: Reservation)
    requires rates.Valid() && start <= rates.versions && MadeBy(rates.versions, server, |start|) == 0
    modifies rates
    ensures rates.Valid() && start <= rates.versions && !r.InvalidPolicy?
    ensures var made := MadeBy(rates.versions, server, |start|);
      (r.Granted? ==> made == 1) && (r.Denied? ==> made == 0) && made <= 1
    ensures rates.failures == old(rates.failures) + if r.Failed? then 1 else 0
    ensures r.Granted? ==> ReservedAt(rates.versions, server, now, |start|)
    ensures r.Denied? ==>
      || (r.retryAt == now && |rates.versions| > |old(rates.versions)|)
      || (r.retryAt > now && FullUntil(rates.versions, rates.policy, r.retryAt, |start|))
  {
    hide Lawful, MadeBy;
    PolicyIsSane(rates.versions, rates.policy);
    var limit, window := rates.policy.limit, rates.policy.window;
    ghost var before := rates.versions;
    var found := rates.FindOne(server);
    MadeByAdds(before, rates.versions, server, |start|);
    ghost var seen := rates.versions;
    if found.FindFailed? { return Failed; }
    if found.NoDocument? {
      var inserted := rates.InsertOne(server, now, RateDocument(now, 1, now + 2 * window, 1));
      MadeByAdds(seen, rates.versions, server, |start|);
      return match inserted case Inserted => Granted case Duplicate => Denied(now) case InsertFailed => Failed;
    }
    var current := found.document;
    var windowStart, requests, windowEnd := current.windowStartedAt, current.requests, current.windowStartedAt + window;
    if windowEnd <= now {
      windowStart, requests, windowEnd := now, 0, now + window;
    }
    if requests >= limit {
      assert Full(seen[|seen| - 1], rates.policy, windowEnd);
      return Denied(windowEnd);
    }
    var next := RateDocument(windowStart, requests + 1, windowStart + 2 * window, current.revision + 1);
    StartsAreKept(seen, rates.policy, |seen| - 1);
    WholeIsKept(current.windowStartedAt);
    var replaced := rates.ReplaceOne(server, now, current, next);
    MadeByAdds(seen, rates.versions, server, |start|);
    return match replaced case Matched => Granted case NotMatched => Denied(now) case ReplaceFailed => Failed;
  }
}
