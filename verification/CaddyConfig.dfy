/**
 The gateway configuration an ingress command compiles to
 (internal/agent/runtime/caddy_gateway.go:260-332), and what Caddy does with it: the first matching
 terminal route answers. The theorem is that this equals looking the host up in the command.
 */
module CaddyConfig {
  import opened Common
  import opened Identifiers
  import opened IngressProtocol
  import opened Listing
  import opened Text

  const HTTP_PORT := 8080
  const HTTPS_PORT := 8443

  /** A matcher names a host, and perhaps a token that the probe header must carry. */
  datatype Matcher = Matcher(host: string, token: Option<string>)

  /** Proxy to a backend, marking the response with a token or not; or answer with a status. */
  datatype Handler = ReverseProxy(dial: string, mark: Option<string>) | StaticResponse(status: nat)

  /** A terminal route; without a matcher it takes every request. */
  datatype Route = Route(matcher: Option<Matcher>, handler: Handler)

  datatype AutomaticHttps = AutomaticHttps(skip: seq<string>)

  datatype Config = Config(
    id: string,
    listen: seq<string>,
    httpsPort: nat,
    routes: seq<Route>,
    automaticHttps: Option<AutomaticHttps>,
    strictSniHost: Option<bool>)

  /** The host asked for, and the values of the probe header. */
  datatype Request = Request(host: string, probes: seq<string>)

  // ----- What Caddy does -----

  predicate Accepts(route: Route, request: Request) {
    match route.matcher
    case None => true
    case Some(matcher) =>
      matcher.host == request.host && (matcher.token.None? || matcher.token.value in request.probes)
  }

  function Answer(routes: seq<Route>, request: Request): Option<Handler> {
    if routes == [] then None
    else if Accepts(routes[0], request) then Some(routes[0].handler)
    else Answer(routes[1..], request)
  }

  // ----- What the command asks for -----

  function ProbeToken(configDigest: string, routeId: string): string {
    Sha256Prefix(ProbeHash(configDigest, routeId))
  }

  /** What the token is cut from. */
  function ProbeHash(configDigest: string, routeId: string): string { Sha256(configDigest + "\0" + routeId) }

  /** Before it is cut short the hash tells configs and routes apart. */
  lemma ProbeHashDeterminesRoute(a: string, r: string, b: string, q: string)
    requires ValidIdentifier(r) && ValidIdentifier(q)
    ensures ProbeHash(a, r) == ProbeHash(b, q) <==> a == b && r == q
  {
    if ProbeHash(a, r) == ProbeHash(b, q) { CutAtMark(a, r, b, q, '\0'); }
  }

  function Dial(route: IngressRoute): string { route.backendAlias + ":" + Decimal(route.backendPort) }

  /** A dial text names one backend: equal texts mean equal alias and port. */
  lemma DialDeterminesBackend(a: IngressRoute, b: IngressRoute)
    ensures Dial(a) == Dial(b) <==> a.backendAlias == b.backendAlias && a.backendPort == b.backendPort
  {
    hide Decimal;
    if Dial(a) == Dial(b) {
      DecimalIsDigits(a.backendPort);
      DecimalIsDigits(b.backendPort);
      CutAtMark(a.backendAlias, Decimal(a.backendPort), b.backendAlias, Decimal(b.backendPort), ':');
      DecimalIsInjective(a.backendPort, b.backendPort);
    }
  }

  function TokenOf(command: IngressCommand, route: IngressRoute): string {
    ProbeToken(command.configDigest, route.routeId)
  }

  function MarkedRoute(command: IngressCommand, route: IngressRoute): Route {
    Route(Some(Matcher(route.hostname, Some(TokenOf(command, route)))),
          ReverseProxy(Dial(route), Some(TokenOf(command, route))))
  }

  function PlainRoute(route: IngressRoute): Route {
    Route(Some(Matcher(route.hostname, None)), ReverseProxy(Dial(route), None))
  }

  const NOT_FOUND := Route(None, StaticResponse(404))

  ghost predicate Publishes(routes: seq<IngressRoute>, host: string) {
    exists i :: 0 <= i < |routes| && routes[i].hostname == host
  }

  ghost predicate PublishedWith(routes: seq<IngressRoute>, host: string, tlsMode: string) {
    exists i :: 0 <= i < |routes| && routes[i].hostname == host && routes[i].tlsMode == tlsMode
  }

  /** The route list: for each route one that also wants its token, then one that does not; last, nothing found. */
  function Compiled(command: IngressCommand, routes: seq<IngressRoute>): seq<Route> {
    if routes == [] then [NOT_FOUND]
    else [MarkedRoute(command, routes[0]), PlainRoute(routes[0])] + Compiled(command, routes[1..])
  }

  lemma AnswerSkips(a: Route, b: Route, rest: seq<Route>, request: Request)
    ensures Answer([a, b] + rest, request) ==
      if Accepts(a, request) then Some(a.handler)
      else if Accepts(b, request) then Some(b.handler)
      else Answer(rest, request)
  {
    var all := [a, b] + rest;
    assert all[1..] == [b] + rest && all[1..][1..] == rest;
  }

  lemma TailPublishes(routes: seq<IngressRoute>, host: string)
    requires routes != []
    ensures Publishes(routes[1..], host) ==> Publishes(routes, host)
  {
    if i :| 0 <= i < |routes[1..]| && routes[1..][i].hostname == host { assert routes[i + 1].hostname == host; }
  }

  /** An unpublished host gets 404. */
  lemma {:induction false} UnpublishedIsNotFound(command: IngressCommand, routes: seq<IngressRoute>, request: Request)
    requires !Publishes(routes, request.host)
    ensures Answer(Compiled(command, routes), request) == Some(StaticResponse(404))
  {
    hide TokenOf, Dial;
    if routes != [] {
      assert routes[0].hostname != request.host;
      AnswerSkips(MarkedRoute(command, routes[0]), PlainRoute(routes[0]), Compiled(command, routes[1..]), request);
      TailPublishes(routes, request.host);
      UnpublishedIsNotFound(command, routes[1..], request);
    }
  }

  /** A published host gets its own backend, marked exactly when the request carries the route's token. */
  lemma {:induction false} PublishedGoesToItsBackend(command: IngressCommand, routes: seq<IngressRoute>,
                                                    request: Request, i: nat)
    requires DistinctKeys(routes, Hostname) && i < |routes| && routes[i].hostname == request.host
    ensures var token := TokenOf(command, routes[i]);
      Answer(Compiled(command, routes), request) ==
        Some(ReverseProxy(Dial(routes[i]), if token in request.probes then Some(token) else None))
    decreases |routes|
  {
    hide TokenOf, Dial;
    AnswerSkips(MarkedRoute(command, routes[0]), PlainRoute(routes[0]), Compiled(command, routes[1..]), request);
    if i > 0 {
      assert Hostname(routes[0]) != Hostname(routes[i]);
      PublishedGoesToItsBackend(command, routes[1..], request, i - 1);
    }
  }

  // ----- The configuration -----

  ghost predicate AnyAutomatic(routes: seq<IngressRoute>) {
    exists i :: 0 <= i < |routes| && routes[i].tlsMode != TLS_DISABLED
  }

  /** Exactly the hosts without TLS, in ascending order. */
  ghost predicate ListsPlainHosts(skip: seq<string>, routes: seq<IngressRoute>) {
    && Ascending(skip)
    && forall host :: host in skip <==> PublishedWith(routes, host, TLS_DISABLED)
  }

  ghost predicate Compiles(config: Config, command: IngressCommand) {
    && config.id == ConfigId(command)
    && config.routes == Compiled(command, command.routes)
    && config.listen == (if AnyAutomatic(command.routes) then [":8080", ":8443"] else [":8080"])
    && config.httpsPort == (if AnyAutomatic(command.routes) then HTTPS_PORT else 0)
    && config.strictSniHost == (if AnyAutomatic(command.routes) then Some(true) else None)
    && config.automaticHttps.Some? == AnyAutomatic(command.routes)
    && (config.automaticHttps.Some? ==> ListsPlainHosts(config.automaticHttps.value.skip, command.routes))
  }

  /** `strings.TrimPrefix(digest, "sha256:")` under a prefix of its own. */
  function ConfigId(command: IngressCommand): string {
    "owndock-config-" +
    if |command.configDigest| >= 7 && command.configDigest[..7] == "sha256:" then command.configDigest[7..]
    else command.configDigest
  }

  /** The HTTPS listener serves a host: it is open, and the host is published and not skipped. */
  ghost predicate ServesHttps(config: Config, command: IngressCommand, host: string) {
    && ":8443" in config.listen && Publishes(command.routes, host)
    && config.automaticHttps.Some? && host !in config.automaticHttps.value.skip
  }

  /** HTTPS serves exactly the hosts whose routes ask for automatic TLS. */
  lemma HttpsMatchesTlsModes(config: Config, command: IngressCommand, host: string)
    requires ValidIngressCommand(command) && Compiles(config, command)
    ensures ServesHttps(config, command, host) <==> PublishedWith(command.routes, host, TLS_AUTOMATIC)
  {
    hide PublishedWith, Publishes, Ascending, ConfigId, Compiled, ValidIngressCommand, AnyAutomatic;
    OneTlsModePerHost(command, host);
  }

  /** A published host has one of the two TLS modes, and not both. */
  lemma OneTlsModePerHost(command: IngressCommand, host: string)
    requires ValidIngressCommand(command)
    ensures Publishes(command.routes, host) <==>
      PublishedWith(command.routes, host, TLS_AUTOMATIC) || PublishedWith(command.routes, host, TLS_DISABLED)
    ensures !(PublishedWith(command.routes, host, TLS_AUTOMATIC) && PublishedWith(command.routes, host, TLS_DISABLED))
    ensures PublishedWith(command.routes, host, TLS_AUTOMATIC) ==> AnyAutomatic(command.routes)
  {
    hide IngressConfigDigest, ValidProbeList, Ascending, ValidHostname, ValidIdentifier, DeploymentBackendAlias;
    var routes := command.routes;
    if i :| 0 <= i < |routes| && routes[i].hostname == host {
      assert ValidIngressRoute(routes[i]);
      forall j | 0 <= j < |routes| && routes[j].hostname == host ensures j == i { OneRoutePerHost(command, i, j); }
    }
  }

  lemma OneRoutePerHost(command: IngressCommand, i: nat, j: nat)
    requires ValidIngressCommand(command) && i < |command.routes| && j < |command.routes|
    requires command.routes[i].hostname == command.routes[j].hostname
    ensures i == j
  {
    hide IngressConfigDigest, ValidIngressRoute, ValidProbeList;
    assert Hostname(command.routes[i]) == Hostname(command.routes[j]);
  }

  /** A running configuration with the command's ID is the one the command compiles to: no reload is needed. */
  lemma ConfigIdDeterminesRoutes(a: IngressCommand, b: IngressCommand)
    requires ValidIngressCommand(a) && ValidIngressCommand(b) && ConfigId(a) == ConfigId(b)
    ensures Compiled(a, a.routes) == Compiled(b, b.routes) && a.routes == b.routes
  {
    hide ValidIngressRoute, SortBy, ValidProbeList, ValidRouteList, ConfigBytes, DistinctKeys;
    var prefix, n := "owndock-config-", |"owndock-config-"|;
    var x, y := a.configDigest[7..], b.configDigest[7..];
    assert a.configDigest[..7] == "sha256:" && b.configDigest[..7] == "sha256:";
    assert (prefix + x)[n..] == x && (prefix + y)[n..] == y;
    assert a.configDigest == a.configDigest[..7] + x && b.configDigest == b.configDigest[..7] + y;
    SameDigest(a, b);
  }

  lemma SameDigest(a: IngressCommand, b: IngressCommand)
    requires ValidIngressCommand(a) && ValidIngressCommand(b) && a.configDigest == b.configDigest
    ensures a.routes == b.routes && Compiled(a, a.routes) == Compiled(b, a.routes)
  {
    hide ValidIngressCommand;
    DigestDeterminesConfig(a, b);
    SameTokens(a, b, a.routes);
  }

  lemma {:induction false} SameTokens(a: IngressCommand, b: IngressCommand, routes: seq<IngressRoute>)
    requires a.configDigest == b.configDigest
    ensures Compiled(a, routes) == Compiled(b, routes)
  {
    if routes != [] {
      SameTokens(a, b, routes[1..]);
    }
  }

  // ----- Building it -----

  lemma CompiledSnoc(command: IngressCommand, routes: seq<IngressRoute>, built: seq<Route>, i: nat)
    requires i <= |routes| && built + Compiled(command, routes[i..]) == Compiled(command, routes)
    ensures i < |routes| ==>
      built + [MarkedRoute(command, routes[i])] + [PlainRoute(routes[i])] + Compiled(command, routes[i + 1..]) ==
        Compiled(command, routes)
  {
    hide MarkedRoute, PlainRoute;
    if i < |routes| {
      assert routes[i..][1..] == routes[i + 1..];
      var a, b, rest := MarkedRoute(command, routes[i]), PlainRoute(routes[i]), Compiled(command, routes[i + 1..]);
      assert Compiled(command, routes[i..]) == [a, b] + rest;
      assert built + ([a, b] + rest) == built + [a] + [b] + rest;
    }
  }

  /** `buildCaddyConfig`, apart from the JSON text and its fixed settings; `socketValid` is the admin socket's check. */
  method BuildCaddyConfig(command: IngressCommand, socketValid: bool) returns (r: Result<Config, CommandError>)
    ensures r.Ok? <==> socketValid && ValidIngressCommand(command)
    ensures r.Ok? ==> Compiles(r.value, command)
  {
    hide ValidIngressCommand, MarkedRoute, PlainRoute, Ascending, DistinctKeys, SortBy, PublishedWith, AnyAutomatic,
      ConfigId;
    var valid := ValidateIngressCommand(command);
    if !socketValid || !valid { return Err(ErrCommandInvalid); }
    var routes: seq<Route> := [];
    var skipped: seq<string> := [];
    var hasAutomaticTls := false;
    NothingSkipped(command.routes);
    var i := 0;
    while i < |command.routes|
      invariant i <= |command.routes|
      invariant routes + Compiled(command, command.routes[i..]) == Compiled(command, command.routes)
      invariant Skipped(skipped, command.routes[..i])
      invariant hasAutomaticTls == AnyAutomatic(command.routes[..i])
    {
      var route := command.routes[i];
      CompiledSnoc(command, command.routes, routes, i);
      SkippedGrows(command, skipped, i);
      routes := routes + [MarkedRoute(command, route)];
      routes := routes + [PlainRoute(route)];
      if route.tlsMode == TLS_DISABLED {
        skipped := skipped + [route.hostname];
      } else {
        hasAutomaticTls := true;
      }
      i := i + 1;
    }
    assert command.routes[..i] == command.routes && command.routes[i..] == [];
    routes := routes + [NOT_FOUND];
    SortedSkip(skipped, command.routes);
    var sorted := SortBy(skipped, Identity);
    assert ":" + Decimal(HTTP_PORT) == ":8080" && ":" + Decimal(HTTPS_PORT) == ":8443";
    var listen := [":" + Decimal(HTTP_PORT)];
    if hasAutomaticTls {
      listen := listen + [":" + Decimal(HTTPS_PORT)];
    }
    return Ok(Config(ConfigId(command), listen, if hasAutomaticTls then HTTPS_PORT else 0, routes,
                     if hasAutomaticTls then Some(AutomaticHttps(sorted)) else None,
                     if hasAutomaticTls then Some(true) else None));
  }

  /** The hosts collected so far: those without TLS, each once. */
  ghost predicate Skipped(skipped: seq<string>, routes: seq<IngressRoute>) {
    && DistinctKeys(skipped, Identity)
    && forall host :: host in skipped <==> PublishedWith(routes, host, TLS_DISABLED)
  }

  lemma NothingSkipped(routes: seq<IngressRoute>)
    ensures Skipped([], routes[..0]) && !AnyAutomatic(routes[..0]) && routes[0..] == routes
  {
  }

  lemma SkippedGrows(command: IngressCommand, skipped: seq<string>, i: nat)
    requires ValidIngressCommand(command) && i < |command.routes| && Skipped(skipped, command.routes[..i])
    ensures var route, next := command.routes[i], command.routes[..i + 1];
      && Skipped(if route.tlsMode == TLS_DISABLED then skipped + [route.hostname] else skipped, next)
      && AnyAutomatic(next) == (AnyAutomatic(command.routes[..i]) || route.tlsMode != TLS_DISABLED)
  {
    hide IngressConfigDigest, ValidIngressRoute, ValidProbeList, Ascending;
    var route, before, next := command.routes[i], command.routes[..i], command.routes[..i + 1];
    assert next == before + [route];
    forall host ensures PublishedWith(next, host, TLS_DISABLED) <==>
      PublishedWith(before, host, TLS_DISABLED) || (route.hostname == host && route.tlsMode == TLS_DISABLED)
    {
      PublishedSnoc(before, route, host);
    }
    if AnyAutomatic(before) {
      var j :| 0 <= j < |before| && before[j].tlsMode != TLS_DISABLED;
      assert next[j].tlsMode != TLS_DISABLED;
    }
    if route.tlsMode != TLS_DISABLED { assert next[i].tlsMode != TLS_DISABLED; }
    forall j | 0 <= j < |before| ensures before[j].hostname != route.hostname {
      assert Hostname(command.routes[j]) != Hostname(route);
    }
    assert route.hostname !in skipped;
  }

  lemma PublishedSnoc(before: seq<IngressRoute>, route: IngressRoute, host: string)
    ensures PublishedWith(before + [route], host, TLS_DISABLED) <==>
      PublishedWith(before, host, TLS_DISABLED) || (route.hostname == host && route.tlsMode == TLS_DISABLED)
  {
    var next := before + [route];
    if PublishedWith(before, host, TLS_DISABLED) {
      var j :| 0 <= j < |before| && before[j].hostname == host && before[j].tlsMode == TLS_DISABLED;
      assert next[j].hostname == host && next[j].tlsMode == TLS_DISABLED;
    }
    if route.hostname == host && route.tlsMode == TLS_DISABLED { assert next[|before|].hostname == host; }
  }

  lemma SortedSkip(skipped: seq<string>, routes: seq<IngressRoute>)
    requires Skipped(skipped, routes)
    ensures ListsPlainHosts(SortBy(skipped, Identity), routes)
  {
    hide PublishedWith, Ascending, SortBy;
    var sorted := SortBy(skipped, Identity);
    SortByIgnoresOrder(skipped, skipped, Identity);
    assert Keys(sorted, Identity) == sorted;
    forall host ensures host in sorted <==> host in skipped {
      assert host in multiset(sorted) <==> host in multiset(skipped);
    }
  }

  /** Evaluating the configuration is looking the host up in the command. */
  method AnswerRequest(config: Config, command: IngressCommand, request: Request) returns (handler: Handler)
    requires ValidIngressCommand(command) && Compiles(config, command)
    ensures !Publishes(command.routes, request.host) ==> handler == StaticResponse(404)
    ensures forall i :: 0 <= i < |command.routes| && command.routes[i].hostname == request.host ==>
      var token := TokenOf(command, command.routes[i]);
      handler == ReverseProxy(Dial(command.routes[i]), if token in request.probes then Some(token) else None)
  {
    hide ValidIngressRoute, IngressConfigDigest, ValidProbeList, Ascending, TokenOf, Dial, ConfigId, MarkedRoute,
      PlainRoute;
    if i :| 0 <= i < |command.routes| && command.routes[i].hostname == request.host {
      PublishedGoesToItsBackend(command, command.routes, request, i);
      forall j | 0 <= j < |command.routes| && command.routes[j].hostname == request.host ensures j == i {
        OneRoutePerHost(command, i, j);
      }
    } else {
      UnpublishedIsNotFound(command, command.routes, request);
    }
    assert Answer(config.routes[0..], request).Some? by { assert config.routes[0..] == config.routes; }
    var k := 0;
    while k < |config.routes| && !Accepts(config.routes[k], request)
      invariant k <= |config.routes|
      invariant Answer(config.routes[k..], request) == Answer(config.routes, request)
    {
      assert config.routes[k..][1..] == config.routes[k + 1..];
      k := k + 1;
    }
    if k == |config.routes| { assert false; }
    handler := config.routes[k].handler;
  }
}
