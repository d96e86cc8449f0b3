/** Small inputs on which the exceptions that the other modules allow do occur. */
module Examples {
  import opened Common
  import opened Names
  import opened Objects
  import opened GrantIndex
  import opened Snapshots
  import opened IRules
  import opened Rendering
  import opened RenderExact
  import opened Impact
  import opened Events
  import opened Retries
  import opened Declarations
  import opened LeftBehind
  import opened Controllers
  import opened RetryRuns
  import Convergence
  import Pooling
  import Reachability
  import AS3
  import D = Deployer
  import opened Closure
  import opened Webhooks

  // An HTTPS listener with a hostname and a certificate, open to routes of all namespaces.
  const LISTENER := Listener(
    "https", Some("a.example"), 443, HTTPS,
    Some(TlsConfig(None, [CertificateRef(None, None, None, "tls")])),
    Some(AllowedRoutes(Some(RouteNamespaces(Some(FromAll), None)), [])))

  const GATEWAY := Gateway("infra", "gw", "f5", [LISTENER], [Address(IPAddress, "10.0.0.1")])

  const PARENT := ParentRef(None, None, Some("infra"), "gw", Some("https"))

  const BACKEND := BackendRef(Some("back"), "svc", None)

  const RULE := Rule([Match(Some(PathMatch(None, "/")), [], None, [])], [], [BACKEND])

  const ROUTE := HTTPRoute("app", "web", [PARENT], [], [RULE])

  const SECRET := Secret("infra", "tls", "certificate", "key")

  const NAMESPACE := Namespace("app", map[])

  const CACHE := Snapshot(
    "controller",
    map[GatewayKey(GATEWAY) := GATEWAY],
    map[RouteKey(ROUTE) := ROUTE],
    map[],
    map[],
    map["f5" := GatewayClass("f5", "controller")],
    map["app" := NAMESPACE],
    map[],
    map[Key("infra", "tls") := SECRET],
    map[])

  lemma ObjectsClean()
    ensures CleanGateway(GATEWAY) && UniqueListeners(GATEWAY)
    ensures CleanRoute(ROUTE) && SectionsSet(ROUTE)
    ensures PlainName("gw") && PlainName("https")
  {
  }

  lemma CacheKeyed()
    ensures Keyed(CACHE)
  {
  }

  lemma CacheWellFormed()
    ensures WellFormed(CACHE) && PlainClass(CACHE, "f5") && ActiveClass(CACHE, "f5")
  {
    CacheKeyed();
    ObjectsClean();
    assert forall k :: k in CACHE.gateways ==> CACHE.gateways[k] == GATEWAY;
    assert forall k :: k in CACHE.routes ==> CACHE.routes[k] == ROUTE;
  }

  lemma RouteAttached()
    ensures ROUTE in AttachedRoutes(CACHE, GATEWAY)
  {
    assert PARENT in ROUTE.parentRefs;
    assert GATEWAY.listeners[..0] == [];
    assert ListenerMap(GATEWAY, []) == map[];
    assert ListenerMap(GATEWAY, GATEWAY.listeners) == map[NameOfListener(GATEWAY, LISTENER) := LISTENER];
    assert AttachedBy(CACHE, GATEWAY, ROUTE, PARENT);
    assert Attached(CACHE, GATEWAY, ROUTE);
    assert CACHE.routes[RouteKey(ROUTE)] == ROUTE;
  }

  lemma SecretsAttached()
    ensures AttachedSecrets(CACHE, GATEWAY) == Some(map[NameOfListener(GATEWAY, LISTENER) := [SECRET]])
    ensures UsesSecret(GATEWAY, Key("infra", "tls"))
  {
    var refs := LISTENER.tls.value.certificateRefs;
    assert |refs| == 1 && refs[..|refs| - 1] == [];
    assert RefSecrets(CACHE, GATEWAY, []) == Some([]);
    assert refs[|refs| - 1] == CertificateRef(None, None, None, "tls") && RefNs(GATEWAY, refs[0]) == "infra";
    assert CACHE.secrets[Key("infra", "tls")] == SECRET;
    assert CanRefer(CACHE.index, GatewayId(GATEWAY), SecretId(SECRET)) && SecretTyped(refs[0]);
    assert [] + [SECRET] == [SECRET];
    assert RefSecrets(CACHE, GATEWAY, refs) == Some([SECRET]);
    assert GATEWAY.listeners[..0] == [] && SecretMap(CACHE, GATEWAY, []) == Some(map[]);
    assert ListenerSecrets(CACHE, GATEWAY, LISTENER) == Some([SECRET]);
    assert refs[0] in References(LISTENER) && ListenerUses(GATEWAY, LISTENER, Key("infra", "tls"));
    assert LISTENER in GATEWAY.listeners;
  }

  lemma ProgramBuilt()
    ensures RouteProgram(CACHE, ROUTE).Some? && BackendOf(ROUTE, Key("back", "svc"))
  {
    assert ROUTE.rules[..0] == [] && RulesOf(CACHE, ROUTE, []) == Some([]);
    assert RequestActions([], "app") == Some([]);
    assert RuleOf(CACHE, ROUTE, RULE).Some?;
    assert RULE in ROUTE.rules && BACKEND in RULE.backendRefs && BackendKey(ROUTE, BACKEND) == Key("back", "svc");
  }

  // GATEWAY is stored, and what it reads is as in CACHE.
  predicate ReadsAsInCache(s: Snapshot) {
    && s.routes == CACHE.routes && s.namespaces == CACHE.namespaces && s.services == CACHE.services
    && s.secrets == CACHE.secrets && s.index == CACHE.index
  }

  lemma GatewayRenders(s: Snapshot)
    requires ReadsAsInCache(s)
    ensures !GatewayFails(GatewayInputsOf(s, GATEWAY))
  {
    SecretsAttached();
    SecretMapSame(CACHE, s, GATEWAY, GATEWAY.listeners);
    var g := GatewayInputsOf(s, GATEWAY);
    forall hr | hr in g.routes ensures SectionsSet(hr) && g.routes[hr].program.Some? {
      RouteRenders(s, hr);
    }
    ListenersRender(g);
  }

  lemma RouteRenders(s: Snapshot, hr: HTTPRoute)
    requires ReadsAsInCache(s) && hr in AttachedRoutes(s, GATEWAY)
    ensures SectionsSet(hr) && RouteProgram(s, hr).Some?
  {
    assert hr == ROUTE;
    ObjectsClean();
    ProgramBuilt();
    RulesSame(CACHE, s, ROUTE, ROUTE.rules);
  }

  lemma ListenersRender(g: GatewayInputs)
    requires g.gateway == GATEWAY && g.secrets.Some?
    requires forall hr :: hr in g.routes ==> SectionsSet(hr)
    ensures !ParseFails(g)
  {
  }

  // Before the events below, the class has a right tenant.
  lemma ClassHasTenant()
    ensures exists e :: Shows(InputsOf(CACHE, "f5"), e)
  {
    CacheWellFormed();
    GatewayRenders(CACHE);
    var gateways := InputsOf(CACHE, "f5").gateways;
    assert forall k :: k in gateways ==> gateways[k] == GatewayInputsOf(CACHE, GATEWAY);
    var e := SomeShown(gateways);
  }

  // The namespace of an attached route goes,
  lemma NamespaceLeavesBehind()
    ensures "f5" in Uncovered(CACHE, NamespaceEvent("app", None))
  {
    RouteAttached();
    assert NamespaceAt(CACHE, "app", CACHE.gateways[GatewayKey(GATEWAY)]);
  }

  // or comes after the route.
  lemma NewNamespaceLeavesBehind()
    ensures "f5" in Uncovered(CACHE.(namespaces := map[]), NamespaceEvent("app", Some(NAMESPACE)))
  {
    var s, e := CACHE.(namespaces := map[]), NamespaceEvent("app", Some(NAMESPACE));
    RouteAttached();
    assert NextSnapshot(s, e) == CACHE;
    assert NamespaceAt(CACHE, "app", CACHE.gateways[GatewayKey(GATEWAY)]);
  }

  // A secret in use is removed.
  lemma SecretLeavesBehind()
    ensures "f5" in Uncovered(CACHE, SecretEvent(Key("infra", "tls"), None))
  {
    SecretsAttached();
    var t := NextSnapshot(CACHE, SecretEvent(Key("infra", "tls"), None));
    assert SecretMatters(CACHE, t, Key("infra", "tls"), CACHE.gateways[GatewayKey(GATEWAY)]);
  }

  // A service appears that the route names and may not refer to.
  lemma ServiceLeavesBehind()
    ensures "f5" in Uncovered(CACHE, ServiceEvent(Key("back", "svc"), "back", Some(Service("back", "svc"))))
  {
    var t := NextSnapshot(CACHE, ServiceEvent(Key("back", "svc"), "back", Some(Service("back", "svc"))));
    RouteAttached();
    ProgramBuilt();
    assert Repooled(CACHE, t, ROUTE, Key("back", "svc"));
    assert RepooledAt(CACHE, t, Key("back", "svc"), CACHE.gateways[GatewayKey(GATEWAY)]);
  }

  // The gateway moves to another class.
  lemma GatewayLeavesBehind()
    ensures Leftover(CACHE, GatewayEvent(GatewayKey(GATEWAY), Some(GATEWAY.(className := "other"))), "f5")
  {
    CacheWellFormed();
    InputsPlain(CACHE, "f5");
    assert InputsOf(CACHE, "f5").gateways[GatewayKey(GATEWAY)].gateway == GATEWAY;
    VirtualMatters(InputsOf(CACHE, "f5").gateways, GatewayKey(GATEWAY));
  }

  /******* Failed reconciles *******/

  // A second gateway of the class, whose certificate is missing.
  const BARE_LISTENER := LISTENER.(tls := Some(TlsConfig(None, [CertificateRef(None, None, None, "missing")])))

  const OTHER := GATEWAY.(name := "gw2", listeners := [BARE_LISTENER])

  const GRANT := ReferenceGrant(
    "back", "g", [GrantFrom(GATEWAY_GROUP, "HTTPRoute", "app")], [GrantTo("", "Service", None)])

  const BROKEN := CACHE.(
    gateways := CACHE.gateways[GatewayKey(OTHER) := OTHER], grants := map[Key("back", "g") := GRANT])

  const NO_PARENTS := ROUTE.(parentRefs := [])

  const RELABELLED := NAMESPACE.(labels := map["a" := "b"])

  lemma BrokenWellFormed()
    ensures WellFormed(BROKEN)
  {
    var s := NextSnapshot(CACHE, GatewayEvent(GatewayKey(OTHER), Some(OTHER)));
    CacheWellFormed();
    OtherClean();
    NextWellFormed(CACHE, GatewayEvent(GatewayKey(OTHER), Some(OTHER)));
    GrantStored(s);
  }

  lemma GrantStored(s: Snapshot)
    requires WellFormed(s)
    ensures WellFormed(s.(grants := map[Key("back", "g") := GRANT]))
  {
    GrantClean();
  }

  lemma OtherClean()
    ensures CleanGateway(OTHER) && GatewayKey(OTHER) != GatewayKey(GATEWAY)
  {
    if GatewayKey(OTHER) == GatewayKey(GATEWAY) { KeyInjective("infra", "gw2", "infra", "gw"); }
  }

  lemma GrantClean()
    ensures CleanGrant(GRANT) && GrantNames(GRANT, "HTTPRoute", "app")
  {
    GroupClean();
    assert CleanFrom(GRANT.from[0]) && CleanTo(GRANT.to[0]);
    assert GRANT.from[0] in GRANT.from && NamesKind(GRANT.from[0], "HTTPRoute", "app");
  }

  lemma GroupClean()
    ensures CleanPart(GATEWAY_GROUP)
  {
    assert GATEWAY_GROUP[0] == 'g';
  }

  lemma SecretMissing(t: Snapshot)
    requires t.secrets == CACHE.secrets
    ensures AttachedSecrets(t, OTHER).None?
  {
    var refs := BARE_LISTENER.tls.value.certificateRefs;
    assert Key("infra", "missing") !in t.secrets by {
      if Key("infra", "missing") == Key("infra", "tls") { KeyInjective("infra", "missing", "infra", "tls"); }
    }
    assert |refs| == 1 && refs[..|refs| - 1] == [] && RefSecrets(t, OTHER, refs).None?;
    assert ListenerSecrets(t, OTHER, BARE_LISTENER).None?;
    assert OTHER.listeners[..0] == [];
  }

  // With this gateway the class does not render.
  predicate HasOther(t: Snapshot) {
    ActiveClass(t, "f5") && t.secrets == CACHE.secrets && Lookup(t.gateways, GatewayKey(OTHER)) == Some(OTHER)
  }

  lemma ClassFails(t: Snapshot)
    requires HasOther(t)
    ensures Fails(InputsOf(t, "f5"))
  {
    SecretMissing(t);
    assert InputsOf(t, "f5").gateways[GatewayKey(OTHER)] == GatewayInputsOf(t, OTHER);
  }

  lemma OtherFails(s: Snapshot, e: Event)
    requires HasOther(NextSnapshot(s, e))
    requires "f5" in Redeployed(s, e) && !e.ServiceEvent? && !e.EndpointsEvent?
    ensures CannotDeploy(s, e)
  {
    ClassFails(NextSnapshot(s, e));
  }

  lemma RouteInClass(s: Snapshot)
    requires Lookup(s.gateways, GatewayKey(GATEWAY)) == Some(GATEWAY) && s.namespaces == CACHE.namespaces
    ensures RouteClasses(s, Some(ROUTE)) == {"f5"}
  {
    assert |ROUTE.parentRefs| == 1 && ROUTE.parentRefs[..0] == [] && RefsOf(s, ROUTE, []) == [];
    assert ParentKey(ROUTE, PARENT) == GatewayKey(GATEWAY);
    assert LISTENER in GATEWAY.listeners && Admits(s, GATEWAY, ROUTE, PARENT);
    assert GatewayRefs(s, ROUTE) == [] + [GATEWAY] == [GATEWAY];
    assert GATEWAY in GatewayRefs(s, ROUTE);
  }

  // These reconciles fail, and trying them again does not deploy the class: the route is deleted,
  lemma RouteDeletionLost()
    ensures var e := RouteEvent(RouteKey(ROUTE), None); CannotDeploy(BROKEN, e) && !CoversAtOnce(BROKEN, e)
  {
    OtherClean();
    RouteInClass(BROKEN);
    OtherFails(BROKEN, RouteEvent(RouteKey(ROUTE), None));
  }

  // or drops its parent;
  lemma RouteUpsertLost()
    ensures var e := RouteEvent(RouteKey(ROUTE), Some(NO_PARENTS)); CannotDeploy(BROKEN, e) && !CoversAtOnce(BROKEN, e)
  {
    OtherClean();
    RouteInClass(BROKEN);
    assert RouteClasses(BROKEN, Some(NO_PARENTS)) == {};
    OtherFails(BROKEN, RouteEvent(RouteKey(ROUTE), Some(NO_PARENTS)));
  }

  // the grant is deleted;
  lemma GrantDeletionLost()
    ensures var e := GrantEvent(Key("back", "g"), None); CannotDeploy(BROKEN, e) && !CoversAtOnce(BROKEN, e)
  {
    OtherClean();
    GrantConcernsClass();
    OtherFails(BROKEN, GrantEvent(Key("back", "g"), None));
  }

  lemma GrantConcernsClass()
    ensures "f5" in GrantClasses(BROKEN, GRANT)
  {
    OtherClean();
    GrantClean();
    RouteInClass(BROKEN);
    var gw :| gw in GatewayRefs(BROKEN, ROUTE) && gw.className == "f5";
    assert BROKEN.routes[RouteKey(ROUTE)] == ROUTE;
  }

  // the other gateway is deleted, and trying that again dereferences nil;
  lemma GatewayDeletionLost()
    ensures var e := GatewayEvent(GatewayKey(GATEWAY), None);
      CannotDeploy(BROKEN, e) && !CoversAtOnce(BROKEN, e) && ReturnOf(NextSnapshot(BROKEN, e), e, true) == Panic
  {
    OtherClean();
    OtherFails(BROKEN, GatewayEvent(GatewayKey(GATEWAY), None));
  }

  // the namespace is relabelled.
  lemma RelabellingLost()
    ensures var e := NamespaceEvent("app", Some(RELABELLED)); CannotDeploy(BROKEN, e) && !CoversAtOnce(BROKEN, e)
  {
    OtherClean();
    assert "a" in RELABELLED.labels && "a" !in NAMESPACE.labels;
    assert PARENT in ROUTE.parentRefs && ParentKey(ROUTE, PARENT) == GatewayKey(GATEWAY);
    assert BROKEN.routes[RouteKey(ROUTE)] == ROUTE;
    assert "f5" in NamespaceClasses(BROKEN, "app");
    OtherFails(BROKEN, NamespaceEvent("app", Some(RELABELLED)));
  }

  // Storing the route fails too; but once the broken gateway has moved to another class, for which
  // f5 is not deployed, trying again succeeds and catches up.
  const BEFORE := BROKEN.(routes := map[])

  const STORE := RouteEvent(RouteKey(ROUTE), Some(ROUTE))

  const MOVE := GatewayEvent(GatewayKey(OTHER), Some(OTHER.(className := "other")))

  lemma StoreFails()
    ensures NextSnapshot(BEFORE, STORE) == BROKEN && CannotDeploy(BEFORE, STORE)
    ensures "f5" in Convergence.Changed(BEFORE, STORE)
  {
    OtherClean();
    RouteInClass(BEFORE);
    assert NextSnapshot(BEFORE, STORE) == BROKEN;
    OtherFails(BEFORE, STORE);
    RouteReadAnew(BEFORE);
  }

  lemma RetrySucceeds()
    ensures var t := NextSnapshot(BROKEN, MOVE);
      && !SameObject(STORE, MOVE) && "f5" !in Redeployed(BROKEN, MOVE)
      && !CannotDeploy(t, STORE) && "f5" in Retried(t, STORE)
  {
    var t := NextSnapshot(BROKEN, MOVE);
    MovedCache(t);
    RouteInClass(t);
    MovedWellFormed(t);
    LaterDeploys(t, STORE);
    MoveSpares();
  }

  lemma MoveSpares()
    ensures !SameObject(STORE, MOVE) && "f5" !in Redeployed(BROKEN, MOVE)
  {
  }

  lemma MovedCache(t: Snapshot)
    requires t == NextSnapshot(BROKEN, MOVE)
    ensures ReadsAsInCache(t) && Lookup(t.gateways, GatewayKey(GATEWAY)) == Some(GATEWAY)
    ensures t.gateways == map[GatewayKey(GATEWAY) := GATEWAY, GatewayKey(OTHER) := OTHER.(className := "other")]
  {
    OtherClean();
  }

  lemma MovedWellFormed(t: Snapshot)
    requires t == NextSnapshot(BROKEN, MOVE)
    ensures WellFormed(t)
  {
    BrokenWellFormed();
    OtherClean();
    NextWellFormed(BROKEN, MOVE);
  }

  lemma RouteReadAnew(s: Snapshot)
    requires s == BROKEN.(routes := map[])
    ensures InputsOf(BROKEN, "f5") != InputsOf(s, "f5")
  {
    OtherClean();
    RouteAttached();
    assert AttachedBy(BROKEN, GATEWAY, ROUTE, PARENT) == AttachedBy(CACHE, GATEWAY, ROUTE, PARENT);
    AttachedRoutesSame(BROKEN, CACHE, GATEWAY);
    assert ROUTE in InputsOf(BROKEN, "f5").gateways[GatewayKey(GATEWAY)].routes;
    assert ROUTE !in InputsOf(s, "f5").gateways[GatewayKey(GATEWAY)].routes;
  }

  lemma LaterDeploys(t: Snapshot, e: Event)
    requires e == RouteEvent(RouteKey(ROUTE), Some(ROUTE)) && ReadsAsInCache(t) && WellFormed(t)
    requires t.gateways == map[GatewayKey(GATEWAY) := GATEWAY, GatewayKey(OTHER) := OTHER.(className := "other")]
    requires RouteClasses(t, Some(ROUTE)) == {"f5"}
    ensures !CannotDeploy(t, e)
  {
    StoredAlready(t, e);
    MovedDeploys(t);
  }

  lemma StoredAlready(t: Snapshot, e: Event)
    requires e == RouteEvent(RouteKey(ROUTE), Some(ROUTE)) && t.routes == CACHE.routes
    ensures NextSnapshot(t, e) == t && Redeployed(t, e) == RouteClasses(t, Some(ROUTE))
  {
    assert t.routes[RouteKey(ROUTE)] == ROUTE;
  }

  lemma MovedDeploys(t: Snapshot)
    requires ReadsAsInCache(t) && WellFormed(t)
    requires t.gateways == map[GatewayKey(GATEWAY) := GATEWAY, GatewayKey(OTHER) := OTHER.(className := "other")]
    ensures !DeployFails(t, {"f5"})
  {
    MovedRenders(t);
    NoServices(t);
  }

  lemma MovedRenders(t: Snapshot)
    requires ReadsAsInCache(t)
    requires t.gateways == map[GatewayKey(GATEWAY) := GATEWAY, GatewayKey(OTHER) := OTHER.(className := "other")]
    ensures !Fails(InputsOf(t, "f5"))
  {
    GatewayRenders(t);
    OtherClean();
    if ActiveClass(t, "f5") {
      var gateways := InputsOf(t, "f5").gateways;
      assert forall k :: k in gateways ==> gateways[k] == GatewayInputsOf(t, GATEWAY);
    }
  }

  lemma NoServices(t: Snapshot)
    requires WellFormed(t) && t.services == map[]
    ensures Pooling.RelatedKeys(t, {"f5"}) == {}
  {
    forall svc ensures svc !in RelatedServices(t, "f5") {
      if svc in RelatedServices(t, "f5") { Reachability.RelatedStored(t, "f5", svc); }
    }
  }

  /******* Rendering, admission, the grant index *******/

  // The listener's host rule and its client-ssl profile share a name.
  lemma ListenerClashes()
    ensures Clashes(InputsOf(CACHE, "f5").gateways[GatewayKey(GATEWAY)], LISTENER)
  {
    SecretsAttached();
  }

  // A listener that passes TLS through has a virtual, but no client-ssl profile.
  lemma ListenerBare()
    ensures var ls := LISTENER.(tls := Some(TlsConfig(Some(Passthrough), [])));
      var gw := GATEWAY.(listeners := [ls]);
      AttachedSecrets(CACHE, gw).Some? && Bare(GatewayInputsOf(CACHE, gw), ls)
  {
    var ls := LISTENER.(tls := Some(TlsConfig(Some(Passthrough), [])));
    var gw := GATEWAY.(listeners := [ls]);
    assert gw.listeners[..0] == [] && SecretMap(CACHE, gw, []) == Some(map[]);
    assert ListenerSecrets(CACHE, gw, ls) == Some([]);
  }

  // The webhook admits a route that names a section the gateway does not have.
  lemma AdmittedWithoutSection()
    ensures var s := CACHE.(gateways := map[GatewayKey(GATEWAY) := GATEWAY.(listeners := [LISTENER.(name := "http")])]);
      ParentAdmitted(s, ROUTE, PARENT) && !SectionExists(s, ROUTE, PARENT)
  {
  }

  // A regular-expression path does not compile.
  lemma RegexDoesNotCompile(req: Request)
    ensures Eval(MatchesText([Match(Some(PathMatch(Some(PathRegex), ".*")), [], None, [])]), req) == None
  {
    var m := Match(Some(PathMatch(Some(PathRegex), ".*")), [], None, []);
    assert m in [m] && !Compilable(m);
    ConditionCompiles([m], req);
  }

  // Of a class named "class" and a later declaration, the header of the second stays.
  lemma ClassNamedClass()
    ensures exists a, b :: "class" in D.Tenants(a) && "class" !in D.Tenants(D.Merge([a, b])) && D.Ordinary(b)
  {
    var cfgs: map<string, Config> := map["class" := map[]];
    var none: map<string, Config> := map[];
    var a, b := AS3.HEADER["class" := AS3.Object(Some("Tenant"), map[])], AS3.HEADER;
    assert AS3.Converts(cfgs, a) && AS3.Converts(none, b) && none.Keys !! AS3.HEADER.Keys;
    D.TenantNamedClassIsHidden(cfgs, a, b);
  }

  lemma {:induction false} Repeated(x: string, n: nat)
    ensures multiset(seq(n, _ => x))[x] == n
  {
    if n > 0 {
      Repeated(x, n - 1);
      assert seq(n, _ => x) == seq(n - 1, _ => x) + [x];
    }
  }

  // A grant that lists one pair m times n times. At 16 times 8 it grants nothing.
  function Repeating(m: nat, n: nat): ReferenceGrant {
    ReferenceGrant(
      "back", "g",
      seq(m, _ => GrantFrom(GATEWAY_GROUP, "HTTPRoute", "app")), seq(n, _ => GrantTo("", "Service", None)))
  }

  lemma RepeatingLists(m: nat, n: nat)
    requires m > 0 && n > 0
    ensures var rg := Repeating(m, n); Occurrences(rg, FromKey(rg.from[0]), ToKey(rg.to[0], "back")) == m * n
  {
    var rg := Repeating(m, n);
    var f, t := FromKey(rg.from[0]), ToKey(rg.to[0], "back");
    var froms, tos := FromKeys(rg.from), ToKeys(rg.to, "back");
    Repeated(f, m);
    Repeated(t, n);
    assert froms == seq(m, _ => f) && tos == seq(n, _ => t);
    PairsIsProduct(froms, tos, f, t);
  }

  lemma OverflowGrantsNothing()
    ensures var rg, none: Grants := Repeating(16, 8), map[];
      var f, t := FromKey(rg.from[0]), ToKey(rg.to[0], "back");
      Total(none[Key("back", "g") := rg], f, t) == 128 && !Exists(AddGrant(map[], rg), f, t)
  {
    var rg, none: Grants := Repeating(16, 8), map[];
    var k, f, t := Key("back", "g"), FromKey(rg.from[0]), ToKey(rg.to[0], "back");
    RepeatingLists(16, 8);
    OnlyGrant(k, rg, f, t);
    ExistsEntry(AddGrant(map[], rg), f, t);
    assert Wrap(128) == -128;
  }

  // A grant set on an empty index.
  lemma OnlyGrant(k: string, rg: ReferenceGrant, f: string, t: string)
    ensures var none: Grants := map[];
      Total(none[k := rg], f, t) == Occurrences(rg, f, t) &&
      Entry(AddGrant(map[], rg), f, t) == Wrap(Occurrences(rg, f, t))
  {
    var none: Grants := map[];
    TotalPut(none, k, rg, f, t);
    assert none - {k} == map[];
    assert Exact(map[], none - {k});
    AddWraps(map[], none, k, rg, f, t);
  }
}
