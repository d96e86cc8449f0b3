/** The resource cache: its maps, the setters that keep them, and the queries over them. */
module SigCache {
  import opened Common
  import opened Names
  import opened Objects
  import opened GrantIndex
  import opened Snapshots

  class SIGCache {
    const controllerName: string
    var gateways: map<string, Gateway>
    var routes: map<string, HTTPRoute>
    var services: map<string, Service>
    var endpoints: map<string, Endpoints>
    var classes: map<string, GatewayClass>
    var namespaces: map<string, Namespace>
    var grants: map<string, ReferenceGrant>
    var secrets: map<string, Secret>
    const refFromTo: ReferenceGrantFromTo

    ghost function View(): Snapshot
      reads this, refFromTo
    {
      Snapshot(controllerName, gateways, routes, services, endpoints, classes, namespaces, grants, secrets,
        refFromTo.index)
    }

    ghost predicate Valid()
      reads this, refFromTo
    {
      Keyed(View())
    }

    constructor (controllerName: string)
      ensures Valid() && fresh(refFromTo)
      ensures View() == Snapshot(controllerName, map[], map[], map[], map[], map[], map[], map[], map[], map[])
    {
      this.controllerName := controllerName;
      gateways, routes, services, endpoints := map[], map[], map[], map[];
      classes, namespaces, grants, secrets := map[], map[], map[], map[];
      refFromTo := new ReferenceGrantFromTo();
    }

    /******* Setters *******/

    method SetNamespace(obj: Namespace)
      requires Valid()
      modifies `namespaces
      ensures Valid() && View() == old(View()).(namespaces := old(namespaces)[obj.name := obj])
    {
      namespaces := namespaces[obj.name := obj];
    }

    method UnsetNamespace(keyname: string)
      requires Valid()
      modifies `namespaces
      ensures Valid() && View() == old(View()).(namespaces := old(namespaces) - {keyname})
    {
      namespaces := namespaces - {keyname};
    }

    method SetGatewayClass(obj: GatewayClass)
      requires Valid()
      modifies `classes
      ensures Valid() && View() == old(View()).(classes := old(classes)[obj.name := obj])
    {
      classes := classes[obj.name := obj];
    }

    method UnsetGatewayClass(keyname: string)
      requires Valid()
      modifies `classes
      ensures Valid() && View() == old(View()).(classes := old(classes) - {keyname})
    {
      classes := classes - {keyname};
    }

    method SetGateway(obj: Gateway)
      requires Valid()
      modifies `gateways
      ensures Valid() && View() == old(View()).(gateways := old(gateways)[GatewayKey(obj) := obj])
    {
      gateways := gateways[GatewayKey(obj) := obj];
    }

    method UnsetGateway(keyname: string)
      requires Valid()
      modifies `gateways
      ensures Valid() && View() == old(View()).(gateways := old(gateways) - {keyname})
    {
      gateways := gateways - {keyname};
    }

    method SetHTTPRoute(obj: HTTPRoute)
      requires Valid()
      modifies `routes
      ensures Valid() && View() == old(View()).(routes := old(routes)[RouteKey(obj) := obj])
    {
      routes := routes[RouteKey(obj) := obj];
    }

    method UnsetHTTPRoute(keyname: string)
      requires Valid()
      modifies `routes
      ensures Valid() && View() == old(View()).(routes := old(routes) - {keyname})
    {
      routes := routes - {keyname};
    }

    method SetService(obj: Service)
      requires Valid()
      modifies `services
      ensures Valid() && View() == old(View()).(services := old(services)[ServiceKey(obj) := obj])
    {
      services := services[ServiceKey(obj) := obj];
    }

    method UnsetService(keyname: string)
      requires Valid()
      modifies `services
      ensures Valid() && View() == old(View()).(services := old(services) - {keyname})
    {
      services := services - {keyname};
    }

    method SetEndpoints(obj: Endpoints)
      requires Valid()
      modifies `endpoints
      ensures Valid() && View() == old(View()).(endpoints := old(endpoints)[Key(obj.ns, obj.name) := obj])
    {
      endpoints := endpoints[Key(obj.ns, obj.name) := obj];
    }

    method UnsetEndpoints(keyname: string)
      requires Valid()
      modifies `endpoints
      ensures Valid() && View() == old(View()).(endpoints := old(endpoints) - {keyname})
    {
      endpoints := endpoints - {keyname};
    }

    method SetSecret(obj: Secret)
      requires Valid()
      modifies `secrets
      ensures Valid() && View() == old(View()).(secrets := old(secrets)[Key(obj.ns, obj.name) := obj])
    {
      secrets := secrets[Key(obj.ns, obj.name) := obj];
    }

    method UnsetSecret(keyname: string)
      requires Valid()
      modifies `secrets
      ensures Valid() && View() == old(View()).(secrets := old(secrets) - {keyname})
    {
      secrets := secrets - {keyname};
    }

    method SetReferenceGrant(rg: ReferenceGrant)
      requires Valid()
      modifies `grants, refFromTo
      ensures Valid()
      ensures View() == old(View()).(
        grants := old(grants)[Key(rg.ns, rg.name) := rg],
        index := PutIndex(old(refFromTo.index), old(grants), rg))
    {
      var keyname := Key(rg.ns, rg.name);
      if keyname in grants {
        refFromTo.Unset(grants[keyname]);
      }
      grants := grants[keyname := rg];
      refFromTo.Set(rg);
    }

    method UnsetReferenceGrant(keyname: string)
      requires Valid()
      modifies `grants, refFromTo
      ensures Valid()
      ensures View() == old(View()).(
        grants := old(grants) - {keyname},
        index := RemoveIndex(old(refFromTo.index), old(grants), keyname))
    {
      if keyname in grants {
        refFromTo.Unset(grants[keyname]);
      }
      grants := grants - {keyname};
    }

    /******* Queries *******/

    method CanReferTo(from: ObjectId, to: ObjectId) returns (allowed: bool)
      ensures allowed == CanRefer(refFromTo.index, from, to)
    {
      if from.ns == to.ns {
        return true;
      }
      if from.group != GATEWAY_GROUP {
        return false;
      }
      var f := FromKey(GrantFrom(from.group, from.kind, from.ns));
      allowed := refFromTo.ExistsPair(f, ToKey(GrantTo(to.group, to.kind, Some(to.name)), to.ns));
      if !allowed {
        allowed := refFromTo.ExistsPair(f, ToKey(GrantTo(to.group, to.kind, None), to.ns));
      }
    }

    // The source dereferences the section name of every parentRef whose gateway is known and has
    // a listener; a nil one panics.
    method GatewayRefsOfHR(hr: HTTPRoute) returns (gws: seq<Gateway>)
      requires SectionsSafe(View(), hr)
      ensures gws == GatewayRefs(View(), hr)
    {
      gws := [];
      for i := 0 to |hr.parentRefs|
        invariant gws == RefsOf(View(), hr, hr.parentRefs[..i])
      {
        var pr := hr.parentRefs[i];
        assert hr.parentRefs[..i + 1][..i] == hr.parentRefs[..i];
        var name := ParentKey(hr, pr);
        if name in gateways {
          var gw := gateways[name];
          var j, found := 0, false;
          while j < |gw.listeners| && !found
            invariant 0 <= j <= |gw.listeners|
            invariant found ==> Admits(View(), gw, hr, pr)
            invariant !found ==> forall l :: 0 <= l < j ==>
              !(pr.section == Some(gw.listeners[l].name) &&
                RouteMatches(gw.ns, Some(gw.listeners[l]), Lookup(namespaces, hr.ns), "HTTPRoute"))
            decreases |gw.listeners| - j, !found
          {
            var listener := gw.listeners[j];
            if listener.name == pr.section.value {
              found := MatchRoute(gw.ns, Some(listener), Lookup(namespaces, hr.ns), "HTTPRoute");
            }
            j := j + 1;
          }
          if found {
            gws := gws + [gw];
          }
        }
      }
      assert hr.parentRefs[..|hr.parentRefs|] == hr.parentRefs;
    }

    method AttachedHTTPRoutes(gw: Gateway) returns (hrs: seq<HTTPRoute>)
      requires Valid()
      ensures Enumerates(hrs, AttachedRoutes(View(), gw))
    {
      var listeners := ListenersByName(gw);
      hrs := [];
      var left := routes.Keys;
      while left != {}
        invariant left <= routes.Keys
        invariant Enumerates(hrs, AttachedAmong(View(), gw, routes.Keys - left))
        decreases left
      {
        var k :| k in left;
        var hr := routes[k];
        AttachedAmongStep(View(), gw, routes.Keys - left, k);
        ghost var done := routes.Keys - left;
        left := left - {k};
        assert routes.Keys - left == done + {k};
        var attached := IsAttached(gw, hr, listeners);
        if attached {
          EnumerationStep(hrs, AttachedAmong(View(), gw, done), hr);
          hrs := hrs + [hr];
        }
      }
      assert AttachedAmong(View(), gw, routes.Keys - left) == AttachedRoutes(View(), gw);
    }

    method ListenersByName(gw: Gateway) returns (listeners: map<string, Listener>)
      ensures listeners == ListenerMap(gw, gw.listeners)
    {
      listeners := map[];
      for i := 0 to |gw.listeners|
        invariant listeners == ListenerMap(gw, gw.listeners[..i])
      {
        assert gw.listeners[..i + 1][..i] == gw.listeners[..i];
        listeners := listeners[NameOfListener(gw, gw.listeners[i]) := gw.listeners[i]];
      }
      assert gw.listeners[..|gw.listeners|] == gw.listeners;
    }

    // The loop over the parentRefs of one route.
    method IsAttached(gw: Gateway, hr: HTTPRoute, listeners: map<string, Listener>) returns (attached: bool)
      requires listeners == ListenerMap(gw, gw.listeners)
      ensures attached == Attached(View(), gw, hr)
    {
      for i := 0 to |hr.parentRefs|
        invariant forall j :: 0 <= j < i ==> !AttachedBy(View(), gw, hr, hr.parentRefs[j])
      {
        var pr := hr.parentRefs[i];
        if ParentKey(hr, pr) == GatewayKey(gw) {
          var matched := MatchRoute(gw.ns, Lookup(listeners, ParentName(hr, pr)), Lookup(namespaces, hr.ns),
            "HTTPRoute");
          if matched {
            assert AttachedBy(View(), gw, hr, pr);
            return true;
          }
        }
      }
      return false;
    }

    method AttachedGateways(className: string) returns (gws: seq<Gateway>)
      requires Valid()
      ensures Enumerates(gws, GatewaysOf(View(), className))
    {
      gws := [];
      var left := gateways.Keys;
      while left != {}
        invariant left <= gateways.Keys
        invariant Enumerates(gws, GatewaysAmong(View(), className, gateways.Keys - left))
        decreases left
      {
        var k :| k in left;
        ghost var done := gateways.Keys - left;
        left := left - {k};
        assert gateways.Keys - left == done + {k};
        GatewaysAmongStep(View(), className, done, k);
        if gateways[k].className == className {
          EnumerationStep(gws, GatewaysAmong(View(), className, done), gateways[k]);
          gws := gws + [gateways[k]];
        }
      }
      assert GatewaysAmong(View(), className, gateways.Keys - left) == GatewaysOf(View(), className);
    }

    method AttachedServicesOf(hr: HTTPRoute) returns (svcs: seq<Service>)
      ensures svcs == AttachedServices(View(), hr)
    {
      svcs := [];
      for i := 0 to |hr.rules|
        invariant svcs == AllBackends(View(), hr, hr.rules[..i])
      {
        assert hr.rules[..i + 1][..i] == hr.rules[..i];
        var more := BackendsOf(hr, hr.rules[i].backendRefs);
        svcs := svcs + more;
      }
      assert hr.rules[..|hr.rules|] == hr.rules;
      ghost var backends := svcs;
      for i := 0 to |hr.rules|
        invariant svcs == backends + AllExtensions(View(), hr, hr.rules[..i])
      {
        assert hr.rules[..i + 1][..i] == hr.rules[..i];
        var more := ExtensionsOf(hr, hr.rules[i].filters);
        assert svcs + more == backends + (AllExtensions(View(), hr, hr.rules[..i]) + more);
        svcs := svcs + more;
      }
    }

    method BackendsOf(hr: HTTPRoute, brs: seq<BackendRef>) returns (svcs: seq<Service>)
      ensures svcs == BackendServices(View(), hr, brs)
    {
      svcs := [];
      for i := 0 to |brs|
        invariant svcs == BackendServices(View(), hr, brs[..i])
      {
        assert brs[..i + 1][..i] == brs[..i];
        var k := Key(GetOr(brs[i].ns, hr.ns), brs[i].name);
        if k in services {
          var allowed := CanReferTo(RouteId(hr), ServiceId(services[k]));
          if allowed {
            svcs := svcs + [services[k]];
          }
        }
      }
      assert brs[..|brs|] == brs;
    }

    method ExtensionsOf(hr: HTTPRoute, fls: seq<Filter>) returns (svcs: seq<Service>)
      ensures svcs == FilterServices(View(), hr, fls)
    {
      svcs := [];
      for i := 0 to |fls|
        invariant svcs == FilterServices(View(), hr, fls[..i])
      {
        assert fls[..i + 1][..i] == fls[..i];
        if NamesService(fls[i]) {
          var k := Key(hr.ns, fls[i].extension.value.name);
          if k in services {
            var allowed := CanReferTo(RouteId(hr), ServiceId(services[k]));
            if allowed {
              svcs := svcs + [services[k]];
            }
          }
        }
      }
      assert fls[..|fls|] == fls;
    }

    // RelatedServices of a class; an unknown one has no gateways to the source, see the caller.
    method RelatedServicesOf(className: string) returns (svcs: seq<Service>)
      requires Valid()
      ensures Elems(svcs) == RelatedServices(View(), className)
    {
      svcs := [];
      var gws := AttachedGateways(className);
      for i := 0 to |gws|
        invariant Elems(svcs) == set gw, svc | gw in gws[..i] && svc in GatewayServices(View(), gw) :: svc
      {
        var more := GatewayServicesOf(gws[i]);
        assert gws[..i + 1] == gws[..i] + [gws[i]];
        assert forall svc :: svc in svcs + more <==> svc in Elems(svcs) || svc in Elems(more);
        svcs := svcs + more;
      }
      assert gws[..|gws|] == gws;
      assert forall gw :: gw in gws <==> gw in Elems(gws);
    }

    method GatewayServicesOf(gw: Gateway) returns (svcs: seq<Service>)
      requires Valid()
      ensures Elems(svcs) == GatewayServices(View(), gw)
    {
      svcs := [];
      var hrs := AttachedHTTPRoutes(gw);
      for i := 0 to |hrs|
        invariant Elems(svcs) == set hr, svc | hr in hrs[..i] && svc in AttachedServices(View(), hr) :: svc
      {
        var more := AttachedServicesOf(hrs[i]);
        assert hrs[..i + 1] == hrs[..i] + [hrs[i]];
        assert forall svc :: svc in svcs + more <==> svc in Elems(svcs) || svc in more;
        svcs := svcs + more;
      }
      assert hrs[..|hrs|] == hrs;
      assert forall hr :: hr in hrs <==> hr in Elems(hrs);
    }

    // _HTTPRoutesRefsOf
    method HTTPRoutesRefsOf(svc: Service) returns (hrs: seq<HTTPRoute>)
      requires Valid()
      ensures Enumerates(hrs, RoutesTo(View(), svc))
    {
      hrs := [];
      var left := routes.Keys;
      while left != {}
        invariant left <= routes.Keys
        invariant Enumerates(hrs, RoutesAmong(View(), svc, routes.Keys - left))
        decreases left
      {
        var k :| k in left;
        ghost var done := routes.Keys - left;
        left := left - {k};
        assert routes.Keys - left == done + {k};
        RoutesAmongStep(View(), svc, done, k);
        var svcs := AttachedServicesOf(routes[k]);
        if ServiceKey(svc) in ServiceKeys(svcs) {
          EnumerationStep(hrs, RoutesAmong(View(), svc, done), routes[k]);
          hrs := hrs + [routes[k]];
        }
      }
      assert RoutesAmong(View(), svc, routes.Keys - left) == RoutesTo(View(), svc);
    }

    method GetRootGateways(svcs: seq<Service>) returns (gws: set<Gateway>)
      requires Valid() && forall k :: k in routes ==> SectionsSafe(View(), routes[k])
      ensures gws == set svc, gw | svc in svcs && gw in RootGateways(View(), svc) :: gw
    {
      gws := {};
      for i := 0 to |svcs|
        invariant gws == set svc, gw | svc in svcs[..i] && gw in RootGateways(View(), svc) :: gw
      {
        assert svcs[..i + 1] == svcs[..i] + [svcs[i]];
        var more := RootsOfService(svcs[i]);
        gws := gws + more;
      }
      assert svcs[..|svcs|] == svcs;
    }

    // The body of the loop over services.
    method RootsOfService(svc: Service) returns (gws: set<Gateway>)
      requires Valid() && forall k :: k in routes ==> SectionsSafe(View(), routes[k])
      ensures gws == RootGateways(View(), svc)
    {
      var hrs := HTTPRoutesRefsOf(svc);
      gws := {};
      for i := 0 to |hrs|
        invariant gws == set hr, gw | hr in hrs[..i] && gw in GatewayRefs(View(), hr) :: gw
      {
        assert hrs[..i + 1] == hrs[..i] + [hrs[i]];
        assert hrs[i] in Elems(hrs);
        var refs := GatewayRefsOfHR(hrs[i]);
        gws := gws + Elems(refs);
      }
      assert hrs[..|hrs|] == hrs;
      assert forall hr :: hr in hrs <==> hr in Elems(hrs);
    }

    method GetNeighborGateways(gw: Gateway) returns (gws: set<Gateway>)
      requires Valid() && forall k :: k in routes ==> SectionsSafe(View(), routes[k])
      ensures gws == Neighbors(View(), gw)
    {
      var hrs := AttachedHTTPRoutes(gw);
      gws := {};
      for i := 0 to |hrs|
        invariant gws == set hr, ng | hr in hrs[..i] && ng in GatewayRefs(View(), hr) :: ng
      {
        assert hrs[..i + 1] == hrs[..i] + [hrs[i]];
        assert hrs[i] in Elems(hrs);
        var refs := GatewayRefsOfHR(hrs[i]);
        gws := gws + Elems(refs);
      }
      assert hrs[..|hrs|] == hrs;
      assert forall hr :: hr in hrs <==> hr in Elems(hrs);
      gws := set ng | ng in gws && GatewayKey(ng) != GatewayKey(gw);
    }

    method GetServicesWithNamespace(ns: string) returns (svcs: seq<Service>)
      requires Valid()
      ensures Elems(svcs) == set k | k in services && services[k].ns == ns :: services[k]
    {
      svcs := [];
      var left := services.Keys;
      while left != {}
        invariant left <= services.Keys
        invariant Elems(svcs) == set k | k in services && k !in left && services[k].ns == ns :: services[k]
        decreases left
      {
        var k :| k in left;
        left := left - {k};
        if services[k].ns == ns {
          assert Elems(svcs + [services[k]]) == Elems(svcs) + {services[k]};
          svcs := svcs + [services[k]];
        }
      }
    }

    /******* Impacted classes *******/

    method RGImpactedGatewayClasses(rg: Option<ReferenceGrant>) returns (names: seq<string>)
      requires Valid() && forall k :: k in routes ==> SectionsSafe(View(), routes[k])
      ensures Elems(names) == if rg.Some? then GrantClasses(View(), rg.value) else {}
    {
      if rg.None? {
        return [];
      }
      var direct := GrantGateways(rg.value);
      var byRoute := GrantRouteGateways(rg.value);
      // unifiedGateways: stored gateways with the same key are the same.
      var gws := Unified(direct + byRoute);
      names := Unified(ClassNamesOf(gws));
      assert Elems(gws) == Elems(direct) + Elems(byRoute) by { ElemsConcat(direct, byRoute); }
      assert ClassNames(gws) ==
        (set gw | gw in Elems(direct) :: gw.className) + (set gw | gw in Elems(byRoute) :: gw.className) by {
        assert forall gw :: gw in gws <==> gw in Elems(gws);
      }
    }

    method GrantGateways(rg: ReferenceGrant) returns (gws: seq<Gateway>)
      ensures Elems(gws) == set k | k in gateways && GrantNames(rg, "Gateway", gateways[k].ns) :: gateways[k]
    {
      gws := [];
      for i := 0 to |rg.from|
        invariant Elems(gws) == set k | k in gateways &&
          FromListed(rg.from[..i], "Gateway", gateways[k].ns) :: gateways[k]
      {
        var f := rg.from[i];
        FromListedStep(rg.from, i);
        if f.group == GATEWAY_GROUP && f.kind == "Gateway" {
          var left := gateways.Keys;
          ghost var before := gws;
          while left != {}
            invariant left <= gateways.Keys
            invariant Elems(gws) == Elems(before) + set k | k in gateways && k !in left &&
              gateways[k].ns == f.ns :: gateways[k]
            decreases left
          {
            var k :| k in left;
            left := left - {k};
            if gateways[k].ns == f.ns {
              assert Elems(gws + [gateways[k]]) == Elems(gws) + {gateways[k]};
              gws := gws + [gateways[k]];
            }
          }
        }
      }
      assert rg.from[..|rg.from|] == rg.from;
    }

    method GrantRouteGateways(rg: ReferenceGrant) returns (gws: seq<Gateway>)
      requires Valid() && forall k :: k in routes ==> SectionsSafe(View(), routes[k])
      ensures Elems(gws) == set k, gw | k in routes && GrantNames(rg, "HTTPRoute", routes[k].ns) &&
        gw in GatewayRefs(View(), routes[k]) :: gw
    {
      gws := [];
      for i := 0 to |rg.from|
        invariant Elems(gws) == ListedRouteGateways(View(), rg.from[..i])
      {
        var f := rg.from[i];
        ListedRouteGatewaysStep(View(), rg.from, i);
        if f.group == GATEWAY_GROUP && f.kind == "HTTPRoute" {
          var more := RouteGatewaysIn(f.ns);
          ElemsConcat(gws, more);
          gws := gws + more;
        }
      }
      assert rg.from[..|rg.from|] == rg.from;
    }

    // The gateways of the routes of a namespace.
    method RouteGatewaysIn(ns: string) returns (gws: seq<Gateway>)
      requires forall k :: k in routes ==> SectionsSafe(View(), routes[k])
      ensures Elems(gws) == RouteGatewaysAt(View(), ns)
    {
      gws := [];
      var left := routes.Keys;
      while left != {}
        invariant left <= routes.Keys
        invariant Elems(gws) == set k, gw | k in routes && k !in left && routes[k].ns == ns &&
          gw in GatewayRefs(View(), routes[k]) :: gw
        decreases left
      {
        var k :| k in left;
        left := left - {k};
        if routes[k].ns == ns {
          var refs := GatewayRefsOfHR(routes[k]);
          ElemsConcat(gws, refs);
          gws := gws + refs;
        }
      }
    }

    method NSImpactedGatewayClasses(ns: string) returns (names: seq<string>)
      ensures Elems(names) == NamespaceClasses(View(), ns)
    {
      names := [];
      var left := routes.Keys;
      while left != {}
        invariant left <= routes.Keys
        invariant Elems(names) == set k, pr | k in routes && k !in left && routes[k].ns == ns &&
          pr in routes[k].parentRefs &&
          ParentKey(routes[k], pr) in gateways :: gateways[ParentKey(routes[k], pr)].className
        decreases left
      {
        var k :| k in left;
        left := left - {k};
        var hr := routes[k];
        if hr.ns == ns {
          ghost var before := names;
          for i := 0 to |hr.parentRefs|
            invariant Elems(names) == Elems(before) +
              set pr | pr in hr.parentRefs[..i] &&
                ParentKey(hr, pr) in gateways :: gateways[ParentKey(hr, pr)].className
          {
            var pr := hr.parentRefs[i];
            assert hr.parentRefs[..i + 1] == hr.parentRefs[..i] + [pr];
            var name := ParentKey(hr, pr);
            if name in gateways {
              assert Elems(names + [gateways[name].className]) == Elems(names) + {gateways[name].className};
              names := names + [gateways[name].className];
            }
          }
          assert hr.parentRefs[..|hr.parentRefs|] == hr.parentRefs;
        }
      }
      names := Unified(names);
    }

    /******* Secrets *******/

    // None stands for the source's errors.
    method GatewayRefsOfSecret(scrt: Secret) returns (r: Result<seq<Gateway>>)
      requires Valid()
      ensures r.Err? <==> SecretRejected(View(), scrt)
      ensures r.Ok? ==> Enumerates(r.value, SecretUsers(View(), scrt))
    {
      var gws: seq<Gateway> := [];
      var left := gateways.Keys;
      while left != {}
        invariant left <= gateways.Keys
        invariant forall k :: k in gateways && k !in left ==> !FindSecret(View(), gateways[k], scrt).Rejected?
        invariant Enumerates(gws, UsersAmong(View(), scrt, gateways.Keys - left))
        decreases left
      {
        var k :| k in left;
        ghost var done := gateways.Keys - left;
        left := left - {k};
        assert gateways.Keys - left == done + {k};
        UsersAmongStep(View(), scrt, done, k);
        var found := ScanListeners(gateways[k], scrt);
        if found.Rejected? {
          return Err;
        }
        if found.Used? {
          EnumerationStep(gws, UsersAmong(View(), scrt, done), gateways[k]);
          gws := gws + [gateways[k]];
        }
      }
      assert UsersAmong(View(), scrt, gateways.Keys - left) == SecretUsers(View(), scrt);
      r := Ok(gws);
    }

    method ScanListeners(gw: Gateway, scrt: Secret) returns (found: Finding)
      ensures found == FindSecret(View(), gw, scrt)
    {
      for i := 0 to |gw.listeners|
        invariant FindInListeners(View(), gw, gw.listeners[i..], scrt) == FindSecret(View(), gw, scrt)
      {
        assert gw.listeners[i..][1..] == gw.listeners[i + 1..];
        found := ScanListener(gw, gw.listeners[i], scrt);
        if !found.Unused? {
          return;
        }
      }
      found := Unused;
    }

    method ScanListener(gw: Gateway, ls: Listener, scrt: Secret) returns (found: Finding)
      ensures found == FindInListener(View(), gw, ls, scrt)
    {
      if !ls.protocol.HTTPS? {
        return Unused;
      }
      if ls.tls.None? {
        return Rejected;
      }
      if !Terminates(ls.tls.value) {
        return Unused;
      }
      var refs := ls.tls.value.certificateRefs;
      for i := 0 to |refs|
        invariant FindInRefs(View(), gw, refs[i..], scrt) == FindInRefs(View(), gw, refs, scrt)
      {
        assert refs[i..][1..] == refs[i + 1..];
        if RefersToSecret(gw, refs[i], scrt) {
          if !SecretTyped(refs[i]) {
            return Rejected;
          }
          var allowed := CanReferTo(GatewayId(gw), SecretId(scrt));
          return if allowed then Used else Rejected;
        }
      }
      found := Unused;
    }

    method AttachedSecretsOf(gw: Gateway) returns (r: Option<map<string, seq<Secret>>>)
      ensures r == AttachedSecrets(View(), gw)
    {
      var rlt: map<string, seq<Secret>> := map[];
      for i := 0 to |gw.listeners|
        invariant SecretMap(View(), gw, gw.listeners[..i]) == Some(rlt)
      {
        var ls := gw.listeners[i];
        assert gw.listeners[..i + 1][..i] == gw.listeners[..i];
        var scrts := SecretsOfListener(gw, ls);
        if scrts.None? {
          SecretMapStaysNone(View(), gw, i + 1);
          return None;
        }
        var name := NameOfListener(gw, ls);
        rlt := rlt[name := GetOr(Lookup(rlt, name), []) + scrts.value];
      }
      assert gw.listeners[..|gw.listeners|] == gw.listeners;
      r := Some(rlt);
    }

    method SecretsOfListener(gw: Gateway, ls: Listener) returns (r: Option<seq<Secret>>)
      ensures r == ListenerSecrets(View(), gw, ls)
    {
      if !ls.protocol.HTTPS? {
        return Some([]);
      }
      if ls.tls.None? {
        return None;
      }
      if !Terminates(ls.tls.value) {
        return Some([]);
      }
      var refs := ls.tls.value.certificateRefs;
      var scrts: seq<Secret> := [];
      for i := 0 to |refs|
        invariant RefSecrets(View(), gw, refs[..i]) == Some(scrts)
      {
        assert refs[..i + 1][..i] == refs[..i];
        var n := Key(RefNs(gw, refs[i]), refs[i].name);
        var allowed := false;
        if n in secrets {
          allowed := CanReferTo(GatewayId(gw), SecretId(secrets[n]));
        }
        if !allowed || !SecretTyped(refs[i]) {
          RefSecretsStaysNone(View(), gw, refs, i + 1);
          return None;
        }
        scrts := scrts + [secrets[n]];
      }
      assert refs[..|refs|] == refs;
      r := Some(scrts);
    }
  }

  /******* Partial iterations *******/

  // What ranging over some of the keys has collected.
  function AttachedAmong(s: Snapshot, gw: Gateway, ks: set<string>): set<HTTPRoute> {
    set k | k in ks && k in s.routes && Attached(s, gw, s.routes[k]) :: s.routes[k]
  }

  lemma AttachedAmongStep(s: Snapshot, gw: Gateway, done: set<string>, k: string)
    requires Keyed(s) && k in s.routes && k !in done
    ensures s.routes[k] !in AttachedAmong(s, gw, done)
    ensures AttachedAmong(s, gw, done + {k})
         == AttachedAmong(s, gw, done) + (if Attached(s, gw, s.routes[k]) then {s.routes[k]} else {})
  {
  }

  function GatewaysAmong(s: Snapshot, className: string, ks: set<string>): set<Gateway> {
    set k | k in ks && k in s.gateways && s.gateways[k].className == className :: s.gateways[k]
  }

  lemma GatewaysAmongStep(s: Snapshot, className: string, done: set<string>, k: string)
    requires Keyed(s) && k in s.gateways && k !in done
    ensures s.gateways[k] !in GatewaysAmong(s, className, done)
    ensures GatewaysAmong(s, className, done + {k})
         == GatewaysAmong(s, className, done) + (if s.gateways[k].className == className then {s.gateways[k]} else {})
  {
  }

  function RoutesAmong(s: Snapshot, svc: Service, ks: set<string>): set<HTTPRoute> {
    set k | k in ks && k in s.routes && ServiceKey(svc) in ServiceKeys(AttachedServices(s, s.routes[k])) :: s.routes[k]
  }

  lemma RoutesAmongStep(s: Snapshot, svc: Service, done: set<string>, k: string)
    requires Keyed(s) && k in s.routes && k !in done
    ensures s.routes[k] !in RoutesAmong(s, svc, done)
    ensures RoutesAmong(s, svc, done + {k})
         == RoutesAmong(s, svc,
           done) + (if ServiceKey(svc) in ServiceKeys(AttachedServices(s, s.routes[k])) then {s.routes[k]} else {})
  {
  }

  function UsersAmong(s: Snapshot, scrt: Secret, ks: set<string>): set<Gateway> {
    set k | k in ks && k in s.gateways && FindSecret(s, s.gateways[k], scrt).Used? :: s.gateways[k]
  }

  lemma UsersAmongStep(s: Snapshot, scrt: Secret, done: set<string>, k: string)
    requires Keyed(s) && k in s.gateways && k !in done
    ensures s.gateways[k] !in UsersAmong(s, scrt, done)
    ensures UsersAmong(s, scrt, done + {k})
         == UsersAmong(s, scrt, done) + (if FindSecret(s, s.gateways[k], scrt).Used? then {s.gateways[k]} else {})
  {
  }

  // classNamesOfGateways
  function ClassNamesOf(gws: seq<Gateway>): (names: seq<string>)
    ensures Elems(names) == ClassNames(gws)
  {
    if gws == [] then []
    else
      var init, last := gws[..|gws| - 1], gws[|gws| - 1];
      var names := ClassNamesOf(init);
      assert gws == init + [last];
      assert Elems(names + [last.className]) == Elems(names) + {last.className};
      assert ClassNames(gws) == ClassNames(init) + {last.className};
      names + [last.className]
  }

  lemma ElemsConcat<T>(xs: seq<T>, ys: seq<T>)
    ensures Elems(xs + ys) == Elems(xs) + Elems(ys)
  {
  }

  lemma FromListedStep(from: seq<GrantFrom>, i: nat)
    requires i < |from|
    ensures forall kind, ns :: FromListed(from[..i + 1], kind, ns) <==>
      FromListed(from[..i], kind, ns) || NamesKind(from[i], kind, ns)
  {
    assert from[..i + 1] == from[..i] + [from[i]];
  }

  predicate FromListed(from: seq<GrantFrom>, kind: string, ns: string) {
    exists f :: f in from && NamesKind(f, kind, ns)
  }

  // The gateways referenced by the routes of a namespace, and by those of all listed ones.
  function RouteGatewaysAt(s: Snapshot, ns: string): set<Gateway> {
    set k, gw | k in s.routes && s.routes[k].ns == ns && gw in GatewayRefs(s, s.routes[k]) :: gw
  }

  function ListedRouteGateways(s: Snapshot, from: seq<GrantFrom>): set<Gateway> {
    set k, gw | k in s.routes && FromListed(from, "HTTPRoute", s.routes[k].ns) &&
      gw in GatewayRefs(s, s.routes[k]) :: gw
  }

  lemma ListedRouteGatewaysStep(s: Snapshot, from: seq<GrantFrom>, i: nat)
    requires i < |from|
    ensures ListedRouteGateways(s, from[..i + 1]) == ListedRouteGateways(s, from[..i]) +
      (if from[i].group == GATEWAY_GROUP && from[i].kind == "HTTPRoute" then RouteGatewaysAt(s, from[i].ns) else {})
  {
    FromListedStep(from, i);
  }

  // An error found at one element stays, whatever follows.
  lemma {:induction false} SecretMapStaysNone(s: Snapshot, gw: Gateway, n: nat)
    requires n <= |gw.listeners| && SecretMap(s, gw, gw.listeners[..n]).None?
    ensures AttachedSecrets(s, gw).None?
    decreases |gw.listeners| - n
  {
    if n == |gw.listeners| {
      assert gw.listeners[..n] == gw.listeners;
    } else {
      assert gw.listeners[..n + 1][..n] == gw.listeners[..n];
      SecretMapStaysNone(s, gw, n + 1);
    }
  }

  lemma {:induction false} RefSecretsStaysNone(s: Snapshot, gw: Gateway, refs: seq<CertificateRef>, n: nat)
    requires n <= |refs| && RefSecrets(s, gw, refs[..n]).None?
    ensures RefSecrets(s, gw, refs).None?
    decreases |refs| - n
  {
    if n == |refs| {
      assert refs[..n] == refs;
    } else {
      assert refs[..n + 1][..n] == refs[..n];
      RefSecretsStaysNone(s, gw, refs, n + 1);
    }
  }
}
