/**
 Managed-ingress commands, their validity and their digests
 (internal/shared/agentprotocol/ingress.go, command.go:718-733).

 SHA-256 is replaced by stand-ins: `Sha256` never collides, `Sha256Prefix` (a truncated hash)
 does collide, so no proof can lean on a truncated hash being injective.
 */
module IngressProtocol {
  import opened Common
  import opened Text
  import opened Encoding
  import opened Identifiers

  const MAX_INGRESS_ROUTES := 128
  const TLS_AUTOMATIC := "automatic"
  const TLS_DISABLED := "disabled"

  datatype IngressRoute = IngressRoute(
    routeId: string,
    revision: uint64,
    deploymentId: string,
    cutoverSequence: uint64,
    runtimeTargetId: string,
    hostname: string,
    backendAlias: string,
    backendPort: uint16,
    tlsMode: string)

  datatype IngressCommand = IngressCommand(
    hostRevision: uint64,
    configDigest: string,
    routes: seq<IngressRoute>,
    probeRouteIds: seq<string>)

  datatype IngressResult = IngressResult(hostRevision: uint64, configDigest: string)

  datatype CommandError = ErrCommandInvalid

  function Sha256(bytes: string): string { bytes }

  function Sha256Prefix(bytes: string): string {
    if |bytes| <= 12 then bytes else bytes[..12]
  }

  // ----- Host names -----

  predicate LabelChar(c: char) { 'a' <= c <= 'z' || Digit(c) }

  predicate ValidLabel(value: string) {
    && 0 < |value| <= 63
    && LabelChar(value[0]) && LabelChar(value[|value| - 1])
    && forall i :: 0 <= i < |value| ==> LabelChar(value[i]) || value[i] == '-'
  }

  /** `strings.Split(value, ".")`. */
  function Labels(value: string): (r: seq<string>)
    ensures |r| > 0
  {
    if value == "" then [""]
    else
      var rest := Labels(value[1..]);
      if value[0] == '.' then [""] + rest else [[value[0]] + rest[0]] + rest[1..]
  }

  predicate HasSuffix(value: string, suffix: string) {
    |value| >= |suffix| && value[|value| - |suffix|..] == suffix
  }

  /** A decimal octet as `net.ParseIP` reads it: no leading zero, at most 255. */
  predicate Octet(value: string) {
    && 0 < |value| <= 3
    && (forall i :: 0 <= i < |value| ==> Digit(value[i]))
    && (|value| > 1 ==> value[0] != '0')
    && (|value| < 3 || value[0] == '1'
        || (value[0] == '2' && (value[1] < '5' || (value[1] == '5' && value[2] <= '5'))))
  }

  /** Names with a colon are refused before this test, so only dotted quads are left to catch. */
  predicate IsIpAddress(labels: seq<string>) {
    |labels| == 4 && forall i :: 0 <= i < 4 ==> Octet(labels[i])
  }

  /** Upper-case letters, a trailing dot and colons all fail some label. */
  predicate ValidHostname(value: string) {
    var labels := Labels(value);
    && 0 < |value| <= 253 && |labels| >= 2 && !IsIpAddress(labels)
    && !HasSuffix(value, ".localhost") && !HasSuffix(value, ".local")
    && !HasSuffix(value, ".internal") && !HasSuffix(value, ".home.arpa")
    && forall i :: 0 <= i < |labels| ==> ValidLabel(labels[i])
  }

  /** The only DNS alias managed ingress may dial for a deployment. */
  function DeploymentBackendAlias(deploymentId: string): (r: Result<string, CommandError>) {
    if ValidIdentifier(deploymentId) then Ok("deployment-" + Sha256Prefix(deploymentId))
    else Err(ErrCommandInvalid)
  }

  predicate ValidIngressRoute(route: IngressRoute) {
    && ValidIdentifier(route.routeId) && route.revision > 0
    && ValidIdentifier(route.deploymentId) && route.cutoverSequence > 0
    && ValidIdentifier(route.runtimeTargetId) && ValidHostname(route.hostname)
    && DeploymentBackendAlias(route.deploymentId) == Ok(route.backendAlias)
    && route.backendPort > 0
    && (route.tlsMode == TLS_AUTOMATIC || route.tlsMode == TLS_DISABLED)
  }

  // ----- Digests -----

  function RouteKey(route: IngressRoute): string { route.routeId }

  function Hostname(route: IngressRoute): string { route.hostname }

  /** `writeIngressRouteFingerprint`, in front of the bytes `rest`. */
  function PutRoute(route: IngressRoute, rest: string): (r: string) {
    PutString(route.routeId, PutUint64(route.revision, PutString(route.deploymentId,
      PutUint64(route.cutoverSequence, PutString(route.runtimeTargetId, PutString(route.hostname,
        PutString(route.backendAlias, PutUint64(route.backendPort, PutString(route.tlsMode, rest)))))))))
  }

  function PutRoutes(routes: seq<IngressRoute>, rest: string): (r: string) {
    if routes == [] then rest else PutRoute(routes[0], PutRoutes(routes[1..], rest))
  }

  function ConfigBytes(hostRevision: uint64, canonical: seq<IngressRoute>): (r: string)
    requires |canonical| < TWO_64
  {
    PutString("owndock-ingress-config-v1",
      PutUint64(hostRevision, PutUint64(|canonical|, PutRoutes(canonical, ""))))
  }

  /** The digest of a desired config, or its refusal, whatever order the routes come in. */
  function IngressConfigDigest(hostRevision: uint64, routes: seq<IngressRoute>)
    : (r: Result<string, CommandError>)
  {
    var canonical := SortBy(routes, RouteKey);
    if hostRevision == 0 || |routes| > MAX_INGRESS_ROUTES then Err(ErrCommandInvalid)
    else if (forall i :: 0 <= i < |canonical| ==> ValidIngressRoute(canonical[i])) && DistinctKeys(canonical, RouteKey)
    then Ok("sha256:" + Sha256(ConfigBytes(hostRevision, canonical)))
    else Err(ErrCommandInvalid)
  }

  /** Which route this is, apart from the revision and backend that may move under it. */
  function SpecBytes(route: IngressRoute): string {
    PutString("owndock-ingress-route-spec-v1", PutString(route.routeId,
      PutString(route.runtimeTargetId, PutString(route.hostname,
        PutUint64(route.backendPort, PutString(route.tlsMode, ""))))))
  }

  function IngressRouteSpecDigest(route: IngressRoute): (r: Result<string, CommandError>) {
    if ValidIngressRoute(route) then Ok("sha256:" + Sha256(SpecBytes(route))) else Err(ErrCommandInvalid)
  }

  // ----- Validity of a command -----

  /** Valid routes in strictly ascending ID order, no host name published twice. */
  ghost predicate ValidRouteList(routes: seq<IngressRoute>) {
    && |routes| <= MAX_INGRESS_ROUTES
    && (forall i :: 0 <= i < |routes| ==> ValidIngressRoute(routes[i]))
    && Ascending(Keys(routes, RouteKey))
    && DistinctKeys(routes, Hostname)
  }

  /** Probe IDs in strictly ascending order, each naming one of the routes. */
  ghost predicate ValidProbeList(ids: seq<string>, routes: seq<IngressRoute>) {
    && |ids| <= MAX_INGRESS_ROUTES
    && Ascending(ids)
    && forall i :: 0 <= i < |ids| ==> ids[i] in Keys(routes, RouteKey)
  }

  /** `IngressCommand.Validate() == nil`, said declaratively. */
  ghost predicate ValidIngressCommand(command: IngressCommand) {
    && command.hostRevision > 0
    && ValidRouteList(command.routes)
    && ValidProbeList(command.probeRouteIds, command.routes)
    && IngressConfigDigest(command.hostRevision, command.routes) == Ok(command.configDigest)
  }

  // ----- The digest determines the config -----

  ghost predicate SizedRoute(route: IngressRoute) {
    && Sized(route.routeId) && Sized(route.deploymentId) && Sized(route.runtimeTargetId)
    && Sized(route.hostname) && Sized(route.backendAlias) && Sized(route.tlsMode)
  }

  lemma ValidRouteIsSized(route: IngressRoute)
    requires ValidIngressRoute(route)
    ensures SizedRoute(route)
  {
  }

  lemma PeelRoute(a: IngressRoute, b: IngressRoute, s: string, t: string)
    requires SizedRoute(a) && SizedRoute(b)
    requires PutRoute(a, s) == PutRoute(b, t)
    ensures a == b && s == t
  {
    var a8, b8 := PutString(a.tlsMode, s), PutString(b.tlsMode, t);
    var a7, b7 := PutUint64(a.backendPort, a8), PutUint64(b.backendPort, b8);
    var a6, b6 := PutString(a.backendAlias, a7), PutString(b.backendAlias, b7);
    var a5, b5 := PutString(a.hostname, a6), PutString(b.hostname, b6);
    var a4, b4 := PutString(a.runtimeTargetId, a5), PutString(b.runtimeTargetId, b5);
    var a3, b3 := PutUint64(a.cutoverSequence, a4), PutUint64(b.cutoverSequence, b4);
    var a2, b2 := PutString(a.deploymentId, a3), PutString(b.deploymentId, b3);
    var a1, b1 := PutUint64(a.revision, a2), PutUint64(b.revision, b2);
    PeelString(a.routeId, b.routeId, a1, b1);
    PeelUint64(a.revision, b.revision, a2, b2);
    PeelString(a.deploymentId, b.deploymentId, a3, b3);
    PeelUint64(a.cutoverSequence, b.cutoverSequence, a4, b4);
    PeelString(a.runtimeTargetId, b.runtimeTargetId, a5, b5);
    PeelString(a.hostname, b.hostname, a6, b6);
    PeelString(a.backendAlias, b.backendAlias, a7, b7);
    PeelUint64(a.backendPort, b.backendPort, a8, b8);
    PeelString(a.tlsMode, b.tlsMode, s, t);
  }

  lemma {:induction false} PeelRoutes(a: seq<IngressRoute>, b: seq<IngressRoute>, s: string, t: string)
    requires |a| == |b|
    requires forall i :: 0 <= i < |a| ==> SizedRoute(a[i]) && SizedRoute(b[i])
    requires PutRoutes(a, s) == PutRoutes(b, t)
    ensures a == b && s == t
  {
    hide PutRoute, SizedRoute;
    if a != [] {
      PeelRoute(a[0], b[0], PutRoutes(a[1..], s), PutRoutes(b[1..], t));
      PeelRoutes(a[1..], b[1..], s, t);
      assert a == [a[0]] + a[1..] && b == [b[0]] + b[1..];
    }
  }

  lemma ConfigBytesInjective(r: uint64, a: seq<IngressRoute>, q: uint64, b: seq<IngressRoute>)
    requires |a| < TWO_64 && |b| < TWO_64
    requires forall i :: 0 <= i < |a| ==> SizedRoute(a[i])
    requires forall i :: 0 <= i < |b| ==> SizedRoute(b[i])
    requires ConfigBytes(r, a) == ConfigBytes(q, b)
    ensures r == q && a == b
  {
    var a2, b2 := PutRoutes(a, ""), PutRoutes(b, "");
    var a1, b1 := PutUint64(|a|, a2), PutUint64(|b|, b2);
    PeelString("owndock-ingress-config-v1", "owndock-ingress-config-v1", PutUint64(r, a1), PutUint64(q, b1));
    PeelUint64(r, q, a1, b1);
    PeelUint64(|a|, |b|, a2, b2);
    PeelRoutes(a, b, "", "");
  }

  /** A valid command already lists its routes in canonical order. */
  lemma ValidRoutesAreCanonical(command: IngressCommand)
    requires ValidIngressCommand(command)
    ensures DistinctKeys(command.routes, RouteKey)
    ensures SortBy(command.routes, RouteKey) == command.routes
  {
    AscendingKeysAreDistinct(command.routes, RouteKey);
    SortByIgnoresOrder(command.routes, command.routes, RouteKey);
    var sorted := SortBy(command.routes, RouteKey);
    forall x ensures x in command.routes <==> x in sorted {
      assert x in sorted <==> x in multiset(sorted);
      assert x in command.routes <==> x in multiset(command.routes);
    }
    AscendingIsUnique(command.routes, sorted, RouteKey);
  }

  /** Equal digests of valid commands mean equal revisions and identical routes. */
  lemma DigestDeterminesConfig(a: IngressCommand, b: IngressCommand)
    requires ValidIngressCommand(a) && ValidIngressCommand(b)
    requires a.configDigest == b.configDigest
    ensures a.hostRevision == b.hostRevision && a.routes == b.routes
  {
    ValidRoutesAreCanonical(a);
    ValidRoutesAreCanonical(b);
    var x, y := ConfigBytes(a.hostRevision, a.routes), ConfigBytes(b.hostRevision, b.routes);
    assert a.configDigest == "sha256:" + x && b.configDigest == "sha256:" + y;
    assert ("sha256:" + x)[7..] == x && ("sha256:" + y)[7..] == y;
    forall i | 0 <= i < |a.routes| ensures SizedRoute(a.routes[i]) { ValidRouteIsSized(a.routes[i]); }
    forall i | 0 <= i < |b.routes| ensures SizedRoute(b.routes[i]) { ValidRouteIsSized(b.routes[i]); }
    ConfigBytesInjective(a.hostRevision, a.routes, b.hostRevision, b.routes);
  }

  /** The same digest or the same refusal for every ordering of the same routes. */
  lemma DigestIgnoresOrder(hostRevision: uint64, routes: seq<IngressRoute>, shuffled: seq<IngressRoute>)
    requires multiset(routes) == multiset(shuffled)
    ensures IngressConfigDigest(hostRevision, routes) == IngressConfigDigest(hostRevision, shuffled)
  {
    hide ValidIngressRoute, ConfigBytes, SortBy, DistinctKeys;
    var a, b := SortBy(routes, RouteKey), SortBy(shuffled, RouteKey);
    SameLength(routes, shuffled);
    SameValidity(a, b);
    SameValidity(b, a);
    SameDistinctness(a, b);
    SameDistinctness(routes, a);
    if DistinctKeys(routes, RouteKey) {
      SortByIgnoresOrder(routes, shuffled, RouteKey);
    }
  }

  lemma SameLength<T>(a: seq<T>, b: seq<T>)
    requires multiset(a) == multiset(b)
    ensures |a| == |b|
  {
    assert |multiset(a)| == |a| && |multiset(b)| == |b|;
  }

  lemma SameDistinctness(a: seq<IngressRoute>, b: seq<IngressRoute>)
    requires multiset(a) == multiset(b)
    ensures DistinctKeys(a, RouteKey) == DistinctKeys(b, RouteKey)
  {
    if DistinctKeys(a, RouteKey) {
      DistinctKeysOfPermutation(a, b, RouteKey);
    } else if DistinctKeys(b, RouteKey) {
      DistinctKeysOfPermutation(b, a, RouteKey);
    }
  }

  lemma SameValidity(a: seq<IngressRoute>, b: seq<IngressRoute>)
    requires multiset(a) == multiset(b)
    ensures (forall i :: 0 <= i < |a| ==> ValidIngressRoute(a[i])) ==>
      (forall i :: 0 <= i < |b| ==> ValidIngressRoute(b[i]))
  {
    forall i | 0 <= i < |b| && (forall j :: 0 <= j < |a| ==> ValidIngressRoute(a[j])) ensures ValidIngressRoute(b[i]) {
      assert b[i] in multiset(a);
    }
  }

  /** Equal spec digests mean the same route, target, host name, port and TLS mode. */
  lemma SpecDigestDeterminesSpec(a: IngressRoute, b: IngressRoute)
    requires ValidIngressRoute(a) && ValidIngressRoute(b)
    requires IngressRouteSpecDigest(a) == IngressRouteSpecDigest(b)
    ensures a.routeId == b.routeId && a.runtimeTargetId == b.runtimeTargetId && a.hostname == b.hostname
    ensures a.backendPort == b.backendPort && a.tlsMode == b.tlsMode
  {
    var x, y := SpecBytes(a), SpecBytes(b);
    assert ("sha256:" + x)[7..] == x && ("sha256:" + y)[7..] == y;
    ValidRouteIsSized(a);
    ValidRouteIsSized(b);
    var a4, b4 := PutString(a.tlsMode, ""), PutString(b.tlsMode, "");
    var a3, b3 := PutUint64(a.backendPort, a4), PutUint64(b.backendPort, b4);
    var a2, b2 := PutString(a.hostname, a3), PutString(b.hostname, b3);
    var a1, b1 := PutString(a.runtimeTargetId, a2), PutString(b.runtimeTargetId, b2);
    PeelString("owndock-ingress-route-spec-v1", "owndock-ingress-route-spec-v1",
      PutString(a.routeId, a1), PutString(b.routeId, b1));
    PeelString(a.routeId, b.routeId, a1, b1);
    PeelString(a.runtimeTargetId, b.runtimeTargetId, a2, b2);
    PeelString(a.hostname, b.hostname, a3, b3);
    PeelUint64(a.backendPort, b.backendPort, a4, b4);
    PeelString(a.tlsMode, b.tlsMode, "", "");
  }

  // ----- The loops of the source -----

  lemma PutStringAppends(s: string, x: string, rest: string)
    ensures PutString(s, x + rest) == PutString(s, x) + rest
  {
  }

  lemma PutUint64Appends(n: uint64, x: string, rest: string)
    ensures PutUint64(n, x + rest) == PutUint64(n, x) + rest
  {
  }

  lemma PutRouteAppends(route: IngressRoute, rest: string)
    ensures PutRoute(route, rest) == PutRoute(route, "") + rest
  {
    var a8 := PutString(route.tlsMode, "");
    var a7 := PutUint64(route.backendPort, a8);
    var a6 := PutString(route.backendAlias, a7);
    var a5 := PutString(route.hostname, a6);
    var a4 := PutString(route.runtimeTargetId, a5);
    var a3 := PutUint64(route.cutoverSequence, a4);
    var a2 := PutString(route.deploymentId, a3);
    var a1 := PutUint64(route.revision, a2);
    assert "" + rest == rest;
    PutStringAppends(route.tlsMode, "", rest);
    PutUint64Appends(route.backendPort, a8, rest);
    PutStringAppends(route.backendAlias, a7, rest);
    PutStringAppends(route.hostname, a6, rest);
    PutStringAppends(route.runtimeTargetId, a5, rest);
    PutUint64Appends(route.cutoverSequence, a4, rest);
    PutStringAppends(route.deploymentId, a3, rest);
    PutUint64Appends(route.revision, a2, rest);
    PutStringAppends(route.routeId, a1, rest);
  }

  lemma {:induction false} PutRoutesSnoc(routes: seq<IngressRoute>, route: IngressRoute)
    ensures PutRoutes(routes + [route], "") == PutRoutes(routes, "") + PutRoute(route, "")
  {
    hide PutRoute;
    if routes == [] {
      assert routes + [route] == [route] && [route][1..] == [];
    } else {
      PutRoutesSnoc(routes[1..], route);
      assert (routes + [route])[1..] == routes[1..] + [route];
      var first, middle, last := PutRoute(routes[0], ""), PutRoutes(routes[1..], ""), PutRoute(route, "");
      PutRouteAppends(routes[0], middle);
      PutRouteAppends(routes[0], middle + last);
      assert first + (middle + last) == first + middle + last;
    }
  }

  /** Sorts a copy, then feeds each route to the hasher and refuses the first bad one. */
  method ComputeIngressConfigDigest(hostRevision: uint64, routes: seq<IngressRoute>)
    returns (r: Result<string, CommandError>)
    ensures r == IngressConfigDigest(hostRevision, routes)
  {
    hide ValidIngressRoute, PutRoute, PutString, PutUint64, SortBy;
    if hostRevision == 0 || |routes| > MAX_INGRESS_ROUTES {
      return Err(ErrCommandInvalid);
    }
    var canonical := SortBy(routes, RouteKey);
    var seen: set<string> := {};
    var header := PutString("owndock-ingress-config-v1",
      PutUint64(hostRevision, PutUint64(|canonical|, "")));
    var hashed := header;
    var i := 0;
    while i < |canonical|
      invariant i <= |canonical|
      invariant forall j :: 0 <= j < i ==> ValidIngressRoute(canonical[j])
      invariant forall id :: id in seen <==> exists j :: 0 <= j < i && canonical[j].routeId == id
      invariant DistinctKeys(canonical[..i], RouteKey)
      invariant hashed == header + PutRoutes(canonical[..i], "")
    {
      var route := canonical[i];
      if !ValidIngressRoute(route) {
        return Err(ErrCommandInvalid);
      }
      if route.routeId in seen {
        ghost var j :| 0 <= j < i && canonical[j].routeId == route.routeId;
        assert RouteKey(canonical[j]) == RouteKey(canonical[i]);
        return Err(ErrCommandInvalid);
      }
      seen := seen + {route.routeId};
      PutRoutesSnoc(canonical[..i], route);
      assert canonical[..i + 1] == canonical[..i] + [route];
      hashed := hashed + PutRoute(route, "");
      i := i + 1;
    }
    assert canonical[..i] == canonical;
    HeaderThenRoutes(hostRevision, canonical);
    return Ok("sha256:" + Sha256(hashed));
  }

  lemma HeaderThenRoutes(hostRevision: uint64, canonical: seq<IngressRoute>)
    requires |canonical| < TWO_64
    ensures ConfigBytes(hostRevision, canonical) ==
      PutString("owndock-ingress-config-v1", PutUint64(hostRevision, PutUint64(|canonical|, "")))
      + PutRoutes(canonical, "")
  {
    hide PutString, PutUint64, PutRoutes;
    HeaderAppends("owndock-ingress-config-v1", hostRevision, |canonical|, PutRoutes(canonical, ""));
  }

  lemma HeaderAppends(domain: string, revision: uint64, count: uint64, rest: string)
    ensures PutString(domain, PutUint64(revision, PutUint64(count, rest))) ==
      PutString(domain, PutUint64(revision, PutUint64(count, ""))) + rest
  {
    hide PutString, PutUint64;
    assert "" + rest == rest;
    PutUint64Appends(count, "", rest);
    PutUint64Appends(revision, PutUint64(count, ""), rest);
    PutStringAppends(domain, PutUint64(revision, PutUint64(count, "")), rest);
  }

  /** The first loop of `validIngressCommand`: compares each route with its predecessor. */
  method ValidateRouteList(routes: seq<IngressRoute>) returns (valid: bool, routeIds: set<string>)
    requires |routes| <= MAX_INGRESS_ROUTES
    ensures valid == ValidRouteList(routes)
    ensures valid ==> forall id :: id in routeIds <==> id in Keys(routes, RouteKey)
  {
    hide ValidIngressRoute, ValidIdentifier, Less, Ascending, DistinctKeys;
    var previousId, hostnames := "", {};
    valid, routeIds := true, {};
    var i := 0;
    EmptyPrefix(routes);
    while i < |routes|
      invariant i <= |routes|
      invariant forall j :: 0 <= j < i ==> ValidIngressRoute(routes[j])
      invariant previousId == if i == 0 then "" else routes[i - 1].routeId
      invariant Ascending(Keys(routes[..i], RouteKey))
      invariant DistinctKeys(routes[..i], Hostname)
      invariant forall h :: h in hostnames <==> exists j :: 0 <= j < i && routes[j].hostname == h
      invariant forall id :: id in routeIds <==> exists j :: 0 <= j < i && routes[j].routeId == id
    {
      var route := routes[i];
      if !ValidIngressRoute(route) {
        return false, {};
      }
      RouteIdIsIdentifier(route);
      if !Less(previousId, route.routeId) {
        OutOfOrder(routes, i);
        return false, {};
      }
      PrefixGrows(routes, i);
      if route.hostname in hostnames {
        return false, {};
      }
      hostnames, routeIds := hostnames + {route.hostname}, routeIds + {route.routeId};
      previousId := route.routeId;
      i := i + 1;
    }
    assert routes[..i] == routes;
  }

  lemma EmptyPrefix(routes: seq<IngressRoute>)
    ensures Ascending(Keys(routes[..0], RouteKey)) && DistinctKeys(routes[..0], Hostname)
  {
  }

  lemma OutOfOrder(routes: seq<IngressRoute>, i: nat)
    requires 0 < i < |routes| && !Less(routes[i - 1].routeId, routes[i].routeId)
    ensures !Ascending(Keys(routes, RouteKey))
  {
    hide Less;
    assert !Less(Keys(routes, RouteKey)[i - 1], Keys(routes, RouteKey)[i]);
  }

  /** One more route in ascending order: its host name is new, or the whole list has a repeat. */
  lemma PrefixGrows(routes: seq<IngressRoute>, i: nat)
    requires i < |routes|
    requires Ascending(Keys(routes[..i], RouteKey)) && DistinctKeys(routes[..i], Hostname)
    requires i == 0 || Less(routes[i - 1].routeId, routes[i].routeId)
    ensures Ascending(Keys(routes[..i + 1], RouteKey))
    ensures (forall j :: 0 <= j < i ==> routes[j].hostname != routes[i].hostname) ==>
      DistinctKeys(routes[..i + 1], Hostname)
    ensures (exists j :: 0 <= j < i && routes[j].hostname == routes[i].hostname) ==> !DistinctKeys(routes, Hostname)
  {
    hide Less;
    var keys := Keys(routes[..i], RouteKey);
    AscendingGrows(keys, routes[i].routeId);
    assert Keys(routes[..i + 1], RouteKey) == keys + [routes[i].routeId];
    if exists j :: 0 <= j < i && routes[j].hostname == routes[i].hostname {
      var j :| 0 <= j < i && routes[j].hostname == routes[i].hostname;
      assert Hostname(routes[j]) == Hostname(routes[i]);
    }
  }

  /** The second loop of `validIngressCommand`, over the probe IDs. */
  method ValidateProbeList(ids: seq<string>, ghost routes: seq<IngressRoute>, routeIds: set<string>)
    returns (valid: bool)
    requires ValidRouteList(routes)
    requires forall id :: id in routeIds <==> id in Keys(routes, RouteKey)
    ensures valid == ValidProbeList(ids, routes)
  {
    hide ValidIngressRoute, ValidIdentifier, Less, DistinctKeys;
    if |ids| > MAX_INGRESS_ROUTES {
      return false;
    }
    var previousId := "";
    var i := 0;
    while i < |ids|
      invariant i <= |ids|
      invariant previousId == if i == 0 then "" else ids[i - 1]
      invariant Ascending(ids[..i])
      invariant forall j :: 0 <= j < i ==> ids[j] in Keys(routes, RouteKey)
    {
      var id := ids[i];
      if id in routeIds {
        ghost var j :| 0 <= j < |routes| && routes[j].routeId == id;
        RouteIdIsIdentifier(routes[j]);
      }
      if !ValidIdentifier(id) || !Less(previousId, id) || id !in routeIds {
        return false;
      }
      AscendingGrows(ids[..i], id);
      assert ids[..i + 1] == ids[..i] + [id];
      previousId := id;
      i := i + 1;
    }
    assert ids[..i] == ids;
    return true;
  }

  /** `validIngressCommand`. */
  method ValidateIngressCommand(command: IngressCommand) returns (valid: bool)
    ensures valid == ValidIngressCommand(command)
  {
    hide ValidIngressRoute, IngressConfigDigest, Less;
    if command.hostRevision == 0 || |command.routes| > MAX_INGRESS_ROUTES {
      return false;
    }
    var routesValid, routeIds := ValidateRouteList(command.routes);
    if !routesValid {
      return false;
    }
    var probesValid := ValidateProbeList(command.probeRouteIds, command.routes, routeIds);
    if !probesValid {
      return false;
    }
    var digest := ComputeIngressConfigDigest(command.hostRevision, command.routes);
    return digest == Ok(command.configDigest);
  }

  lemma RouteIdIsIdentifier(route: IngressRoute)
    requires ValidIngressRoute(route)
    ensures ValidIdentifier(route.routeId)
    ensures Less("", route.routeId)
  {
  }

  lemma AscendingGrows(keys: seq<string>, next: string)
    requires Ascending(keys)
    requires keys == [] || Less(keys[|keys| - 1], next)
    ensures Ascending(keys + [next])
  {
    forall i | 0 <= i < |keys| ensures Less(keys[i], next) {
      if i < |keys| - 1 { LessIsTransitive(keys[i], keys[|keys| - 1], next); }
    }
  }

  // ----- The rules can be met -----

  function SampleRoute(routeId: string, revision: uint64): IngressRoute {
    IngressRoute(routeId, revision, "deploy", 1, "target", "a.b", "deployment-deploy", 80, TLS_AUTOMATIC)
  }

  lemma SampleHostIsValid()
    ensures ValidHostname("a.b")
  {
    assert "b"[1..] == "" && ".b"[1..] == "b" && "a.b"[1..] == ".b";
    assert Labels("") == [""] && ['b'] + "" == "b" && [""][1..] == [];
    assert Labels("b") == ["b"];
    assert Labels(".b") == ["", "b"];
    assert ['a'] + "" == "a" && ["", "b"][1..] == ["b"];
    assert Labels("a.b") == ["a", "b"];
  }

  lemma SampleRouteIsValid(routeId: string, revision: uint64)
    requires revision > 0 && ValidIdentifier(routeId)
    ensures ValidIngressRoute(SampleRoute(routeId, revision))
  {
    hide ValidHostname;
    SampleHostIsValid();
    assert "deployment-" + Sha256Prefix("deploy") == "deployment-deploy";
  }

  /**
   Every host revision has valid commands: without a route, with one, and with one that is to be probed; the route
   may have any valid ID.
   */
  lemma ValidCommandsExist(hostRevision: uint64, routeId: string, revision: uint64)
    returns (empty: IngressCommand, full: IngressCommand, probed: IngressCommand)
    requires hostRevision > 0 && revision > 0 && ValidIdentifier(routeId)
    ensures ValidIngressCommand(empty) && empty.hostRevision == hostRevision && empty.routes == []
    ensures ValidIngressCommand(full) && full.hostRevision == hostRevision
    ensures full.routes == [SampleRoute(routeId, revision)]
    ensures ValidIngressCommand(probed) && probed == full.(probeRouteIds := [routeId])
  {
    hide ValidIngressRoute, ConfigBytes, Less;
    SampleRouteIsValid(routeId, revision);
    var route := SampleRoute(routeId, revision);
    assert [route][1..] == [];
    assert SortBy([route], RouteKey) == [route];
    empty := IngressCommand(hostRevision, "sha256:" + Sha256(ConfigBytes(hostRevision, [])), [], []);
    full := IngressCommand(hostRevision, "sha256:" + Sha256(ConfigBytes(hostRevision, [route])), [route], []);
    probed := full.(probeRouteIds := [routeId]);
    assert Keys([route], RouteKey)[0] == routeId;
  }
}
