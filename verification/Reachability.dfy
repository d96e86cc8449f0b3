/** Services found from a class and classes found from a service are the same relation. */
module Reachability {
  import opened Common
  import opened Objects
  import opened Snapshots

  predicate StoredService(s: Snapshot, svc: Service) {
    ServiceKey(svc) in s.services && s.services[ServiceKey(svc)] == svc
  }

  lemma {:induction false} BackendsStored(s: Snapshot, hr: HTTPRoute, brs: seq<BackendRef>)
    requires Keyed(s)
    ensures forall svc :: svc in BackendServices(s, hr, brs) ==> StoredService(s, svc)
  {
    if brs != [] { BackendsStored(s, hr, brs[..|brs| - 1]); }
  }

  lemma {:induction false} FiltersStored(s: Snapshot, hr: HTTPRoute, fls: seq<Filter>)
    requires Keyed(s)
    ensures forall svc :: svc in FilterServices(s, hr, fls) ==> StoredService(s, svc)
  {
    if fls != [] { FiltersStored(s, hr, fls[..|fls| - 1]); }
  }

  lemma {:induction false} AllStored(s: Snapshot, hr: HTTPRoute, rules: seq<Rule>)
    requires Keyed(s)
    ensures forall svc :: svc in AllBackends(s, hr, rules) || svc in AllExtensions(s, hr, rules) ==>
      StoredService(s, svc)
  {
    if rules != [] {
      AllStored(s, hr, rules[..|rules| - 1]);
      BackendsStored(s, hr, rules[|rules| - 1].backendRefs);
      FiltersStored(s, hr, rules[|rules| - 1].filters);
    }
  }

  // Looking a stored service up by key among a route's services finds the service itself.
  lemma RoutesToService(s: Snapshot, svc: Service, hr: HTTPRoute)
    requires Keyed(s) && StoredService(s, svc)
    ensures hr in RoutesTo(s, svc) <==>
      RouteKey(hr) in s.routes && s.routes[RouteKey(hr)] == hr && svc in AttachedServices(s, hr)
  {
    AllStored(s, hr, hr.rules);
    assert ServiceKey(svc) in ServiceKeys(AttachedServices(s, hr)) <==> svc in AttachedServices(s, hr) by {
      if ServiceKey(svc) in ServiceKeys(AttachedServices(s, hr)) {
        var other :| other in AttachedServices(s, hr) && ServiceKey(other) == ServiceKey(svc);
        assert StoredService(s, other);
      }
    }
  }

  lemma RelatedStored(s: Snapshot, className: string, svc: Service)
    requires WellFormed(s) && svc in RelatedServices(s, className)
    ensures StoredService(s, svc) && LabelName(svc.ns) && ObjectName(svc.name)
  {
    var gw :| gw in GatewaysOf(s, className) && svc in GatewayServices(s, gw);
    var hr :| hr in AttachedRoutes(s, gw) && svc in AttachedServices(s, hr);
    AllStored(s, hr, hr.rules);
  }

  predicate Unambiguous(s: Snapshot) { forall k :: k in s.gateways ==> UniqueListeners(s.gateways[k]) }

  lemma RefsStored(s: Snapshot, hr: HTTPRoute, gw: Gateway)
    requires Keyed(s) && gw in GatewayRefs(s, hr)
    ensures Lookup(s.gateways, GatewayKey(gw)) == Some(gw)
  {
    RefsOfMembers(s, hr, hr.parentRefs, gw);
  }

  // A stored route is attached to a stored gateway, seen from the gateway or from the route.
  lemma StoredAttachment(s: Snapshot, hr: HTTPRoute, gw: Gateway)
    requires WellFormed(s) && Unambiguous(s)
    requires Lookup(s.gateways, GatewayKey(gw)) == Some(gw) && Lookup(s.routes, RouteKey(hr)) == Some(hr)
    ensures hr in AttachedRoutes(s, gw) <==> gw in GatewayRefs(s, hr)
  {
    AttachmentAgrees(s, gw, hr);
  }

  lemma RelatedHasRoot(s: Snapshot, className: string, svc: Service) returns (gw: Gateway)
    requires WellFormed(s) && Unambiguous(s) && StoredService(s, svc) && svc in RelatedServices(s, className)
    ensures gw in RootGateways(s, svc) && gw.className == className
  {
    gw :| gw in GatewaysOf(s, className) && svc in GatewayServices(s, gw);
    var hr :| hr in AttachedRoutes(s, gw) && svc in AttachedServices(s, hr);
    StoredAttachment(s, hr, gw);
    RoutesToService(s, svc, hr);
  }

  lemma RootIsRelated(s: Snapshot, gw: Gateway, svc: Service)
    requires WellFormed(s) && Unambiguous(s) && StoredService(s, svc) && gw in RootGateways(s, svc)
    ensures svc in RelatedServices(s, gw.className)
  {
    var hr :| hr in RoutesTo(s, svc) && gw in GatewayRefs(s, hr);
    RoutesToService(s, svc, hr);
    RefsStored(s, hr, gw);
    StoredAttachment(s, hr, gw);
    assert gw in GatewaysOf(s, gw.className) && svc in GatewayServices(s, gw);
  }

  // A stored service is related to a class exactly when one of its root gateways has the class.
  lemma ReachabilityAgrees(s: Snapshot, className: string, svc: Service)
    requires WellFormed(s) && Unambiguous(s) && StoredService(s, svc)
    ensures svc in RelatedServices(s, className) <==>
      exists gw :: gw in RootGateways(s, svc) && gw.className == className
  {
    if svc in RelatedServices(s, className) {
      var gw := RelatedHasRoot(s, className, svc);
    }
    if gw :| gw in RootGateways(s, svc) && gw.className == className {
      RootIsRelated(s, gw, svc);
    }
  }

  // A gateway is never its own neighbor, and neighborhood goes both ways.
  lemma NeighborsSymmetric(s: Snapshot, gw: Gateway, other: Gateway)
    requires WellFormed(s) && Unambiguous(s)
    requires Lookup(s.gateways, GatewayKey(gw)) == Some(gw) && Lookup(s.gateways, GatewayKey(other)) == Some(other)
    ensures gw !in Neighbors(s, gw)
    ensures other in Neighbors(s, gw) <==> gw in Neighbors(s, other)
  {
    NeighborBack(s, gw, other);
    NeighborBack(s, other, gw);
  }

  lemma NeighborBack(s: Snapshot, gw: Gateway, other: Gateway)
    requires WellFormed(s) && Unambiguous(s)
    requires Lookup(s.gateways, GatewayKey(gw)) == Some(gw) && Lookup(s.gateways, GatewayKey(other)) == Some(other)
    ensures other in Neighbors(s, gw) ==> gw in Neighbors(s, other)
  {
    if other in Neighbors(s, gw) {
      var hr :| hr in AttachedRoutes(s, gw) && other in GatewayRefs(s, hr) && GatewayKey(other) != GatewayKey(gw);
      StoredAttachment(s, hr, gw);
      StoredAttachment(s, hr, other);
    }
  }

  // The keys HandleBackends collects for a namespace: of its services, exactly those related to
  // a known class.
  function BackendKeys(s: Snapshot, ns: string): set<string> {
    set k, gw | k in s.services && s.services[k].ns == ns && gw in RootGateways(s, s.services[k]) &&
      gw.className in s.classes :: k
  }

  lemma BackendKeysRelated(s: Snapshot, ns: string, k: string)
    requires WellFormed(s) && Unambiguous(s)
    ensures k in BackendKeys(s, ns) <==>
      k in s.services && s.services[k].ns == ns && exists c :: c in s.classes && s.services[k] in RelatedServices(s, c)
  {
    if k in s.services {
      forall c ensures s.services[k] in RelatedServices(s, c) <==>
        exists gw :: gw in RootGateways(s, s.services[k]) && gw.className == c {
        ReachabilityAgrees(s, c, s.services[k]);
      }
    }
  }
}
