/** Small inputs that meet what the laws about stored objects and runs ask for, on both sides. */
module Samples {
  import opened Common
  import opened Names
  import opened Objects
  import opened GrantIndex
  import opened Snapshots
  import opened Attachment
  import opened ServiceUse
  import opened Rendering
  import opened AS3
  import opened Declarations
  import opened Events
  import opened Examples
  import opened Serving
  import Ownership
  import Suppression
  import D = Deployer

  /******* A service in another namespace *******/

  const SERVICE := Service("back", "svc")

  const FORBIDDING := NextSnapshot(CACHE, ServiceEvent(ServiceKey(SERVICE), "back", Some(SERVICE)))

  const NO_GRANTS: Grants := map[]

  const ONE_GRANT: Grants := NO_GRANTS[Key("back", "g") := GRANT]

  const GRANTING := FORBIDDING.(grants := ONE_GRANT, index := PutIndex(map[], NO_GRANTS, GRANT))

  lemma ServiceClean()
    ensures CleanEvent(ServiceEvent(ServiceKey(SERVICE), "back", Some(SERVICE)))
  {
  }

  lemma ForbiddingWellFormed()
    ensures WellFormed(FORBIDDING)
  {
    CacheWellFormed();
    ServiceClean();
    NextWellFormed(CACHE, ServiceEvent(ServiceKey(SERVICE), "back", Some(SERVICE)));
  }

  lemma ForbiddingExact()
    ensures ExactIndex(FORBIDDING)
  {
    Ownership.EmptyExact(FORBIDDING);
  }

  lemma GrantCounted(f: string, t: string)
    ensures Total(ONE_GRANT, f, t) <= 1
  {
    var froms, tos := FromKeys(GRANT.from), ToKeys(GRANT.to, GRANT.ns);
    OnlyGrant(Key("back", "g"), GRANT, f, t);
    PairsIsProduct(froms, tos, f, t);
    assert froms == [froms[0]] && tos == [tos[0]];
  }

  lemma GrantingWellFormed()
    ensures WellFormed(GRANTING) && ExactIndex(GRANTING)
  {
    ForbiddingWellFormed();
    GrantStored(FORBIDDING);
    forall f, t ensures Total(ONE_GRANT, f, t) <= 127 {
      GrantCounted(f, t);
    }
    assert Exact(map[], NO_GRANTS);
    PutExact(map[], NO_GRANTS, GRANT);
    GrantClean();
  }

  lemma ServiceNamed()
    ensures CleanRoute(ROUTE) && CleanRules(ROUTE) && RouteNames(ROUTE, SERVICE)
  {
    ObjectsClean();
    assert RULE in ROUTE.rules && BACKEND in RULE.backendRefs && NamesBackend(ROUTE, BACKEND, SERVICE);
    assert RuleNames(ROUTE, RULE, SERVICE);
  }

  // Without a grant the route does not use it,
  lemma ForbiddenNotAttached()
    ensures SERVICE !in AttachedServices(FORBIDDING, ROUTE)
  {
    ForbiddingWellFormed();
    ForbiddingExact();
    ServiceNamed();
    AttachedServiceIff(FORBIDDING, ROUTE, SERVICE);
  }

  // and with one it does.
  lemma GrantedAttached()
    ensures SERVICE in AttachedServices(GRANTING, ROUTE)
  {
    GrantingWellFormed();
    ServiceNamed();
    AttachedServiceIff(GRANTING, ROUTE, SERVICE);
    assert ServiceUse.Grants(GRANTING.grants[Key("back", "g")], "app", SERVICE);
  }

  /******* A listener for routes of its own namespace *******/

  const SAME_LISTENER := LISTENER.(
    allowedRoutes := Some(AllowedRoutes(Some(RouteNamespaces(Some(FromSame), None)), [])))

  const SAME_GATEWAY := GATEWAY.(listeners := [SAME_LISTENER])

  const HOME_ROUTE := ROUTE.(ns := "infra")

  // The cache after a second route, a second namespace and another listener are stored.
  const TWO_ROUTES := NextSnapshot(CACHE, RouteEvent(RouteKey(HOME_ROUTE), Some(HOME_ROUTE)))

  const TWO_NAMESPACES := NextSnapshot(TWO_ROUTES, NamespaceEvent("infra", Some(Namespace("infra", map[]))))

  const SAME := NextSnapshot(TWO_NAMESPACES, GatewayEvent(GatewayKey(SAME_GATEWAY), Some(SAME_GATEWAY)))

  lemma HomeRouteClean()
    ensures CleanRoute(HOME_ROUTE) && SectionsSet(HOME_ROUTE) && RouteKey(ROUTE) != RouteKey(HOME_ROUTE)
  {
    ObjectsClean();
    if RouteKey(ROUTE) == RouteKey(HOME_ROUTE) { KeyInjective("app", "web", "infra", "web"); }
  }

  lemma SameWellFormed()
    ensures WellFormed(SAME) && UniqueListeners(SAME_GATEWAY)
  {
    CacheWellFormed();
    HomeRouteClean();
    NextWellFormed(CACHE, RouteEvent(RouteKey(HOME_ROUTE), Some(HOME_ROUTE)));
    NextWellFormed(TWO_ROUTES, NamespaceEvent("infra", Some(Namespace("infra", map[]))));
    SameGatewayClean();
    NextWellFormed(TWO_NAMESPACES, GatewayEvent(GatewayKey(SAME_GATEWAY), Some(SAME_GATEWAY)));
  }

  lemma SameGatewayClean()
    ensures CleanGateway(SAME_GATEWAY)
  {
    ObjectsClean();
    assert LISTENER in GATEWAY.listeners;
  }

  lemma HomeRouteAsks()
    ensures Asked(SAME, SAME_GATEWAY, HOME_ROUTE)
    ensures SAME.routes == map[RouteKey(ROUTE) := ROUTE, RouteKey(HOME_ROUTE) := HOME_ROUTE]
    ensures Stored(SAME, SAME_GATEWAY) && AllHave(SAME_GATEWAY, FromSame)
  {
    assert PARENT in HOME_ROUTE.parentRefs && SAME_LISTENER in SAME_GATEWAY.listeners;
    assert NamesListener(HOME_ROUTE, SAME_GATEWAY, SAME_LISTENER) && TakesRoutes(SAME_LISTENER);
  }

  lemma SameNamespaceOnly()
    ensures AttachedRoutes(SAME, SAME_GATEWAY) == {HOME_ROUTE}
  {
    SameWellFormed();
    HomeRouteClean();
    HomeRouteAsks();
    forall hr ensures hr in AttachedRoutes(SAME, SAME_GATEWAY) <==> hr == HOME_ROUTE {
      SameAttaches(SAME, SAME_GATEWAY, hr);
    }
  }

  /******* A served class *******/

  lemma ClassServed() returns (e: Entry)
    ensures Shows(InputsOf(CACHE, "f5"), e) && Serves(CACHE, "f5", e)
    ensures OwnGateway(CACHE, "f5", GatewayKey(GATEWAY)) && ServedAt(CACHE, GATEWAY, LISTENER, 0, e)
    ensures TimesRun(CACHE, ROUTE, GATEWAY, LISTENER) == 1 && RuleServed(CACHE, ROUTE, e)
  {
    CacheWellFormed();
    ClassHasTenant();
    e :| Shows(InputsOf(CACHE, "f5"), e);
    ShowsServes(CACHE, "f5", e);
    assert LISTENER in CACHE.gateways[GatewayKey(GATEWAY)].listeners;
    assert ServedAt(CACHE, CACHE.gateways[GatewayKey(GATEWAY)], LISTENER, 0, e);
    RunsOnce();
    assert CACHE.routes[RouteKey(ROUTE)] == ROUTE;
  }

  lemma RunsOnce()
    ensures TimesRun(CACHE, ROUTE, GATEWAY, LISTENER) == 1
  {
    assert ROUTE.parentRefs[..0] == [] && TimesNamed(ROUTE, [], GATEWAY, LISTENER) == 0;
    assert NamesGateway(ROUTE, PARENT, GATEWAY);
  }

  /******* The same request twice *******/

  const TENANT := Object(Some("Tenant"), map[])

  const REQUEST := HEADER["f5" := TENANT]

  const BATCH := D.Batch(0, [D.Success])

  const START := D.State([REQUEST, REQUEST], map[], [map[]], [])

  // The first batch sends it, the second does not.
  lemma SentOnce() returns (states: seq<D.State>)
    ensures Suppression.SeenRun(states, [BATCH, BATCH]) && states[0] == START
    ensures Suppression.SentAt(states, 0, "f5") && !Suppression.SentAt(states, 1, "f5")
  {
    var middle := D.Step(START, BATCH);
    states := [START, middle, D.Step(middle, BATCH)];
    assert D.IsRun(states, [BATCH, BATCH]);
    RequestCarried(states, 0);
    RequestCarried(states, 1);
    Suppression.SentIff(states, [BATCH, BATCH], 0, "f5");
    Suppression.SentIff(states, [BATCH, BATCH], 1, "f5");
  }

  lemma RequestCarried(states: seq<D.State>, i: nat)
    requires i < 2 < |states| && states[i].queue == START.queue[i..]
    ensures Suppression.Carried(states, [BATCH, BATCH], i, "f5") == Some(TENANT)
  {
    var queue := states[i].queue[..1];
    assert queue == [REQUEST] && queue[..0] == [];
    assert D.Merge(queue) == D.Merge([]) + REQUEST;
  }
}
