/** Which classes an event deploys again, said in terms of the stored objects. */
module Impacted {
  import opened Common
  import opened Objects
  import opened Snapshots
  import opened Reachability
  import opened Attachment
  import opened ServiceUse
  import opened Certificates
  import opened Events

  /******* Routes *******/

  // The route names a listener of the gateway that lets it in.
  predicate LetIn(s: Snapshot, hr: HTTPRoute, gw: Gateway) {
    exists ls :: ls in gw.listeners && NamesListener(hr, gw, ls) && Lets(s, gw, ls, hr.ns)
  }

  predicate ServedIn(s: Snapshot, hr: HTTPRoute, className: string) {
    exists k :: k in s.gateways && s.gateways[k].className == className && LetIn(s, hr, s.gateways[k])
  }

  lemma ServedIff(s: Snapshot, hr: HTTPRoute, className: string)
    requires WellFormed(s) && CleanRoute(hr)
    ensures className in ClassNames(GatewayRefs(s, hr)) <==> ServedIn(s, hr, className)
  {
    forall gw | Stored(s, gw) ensures gw in GatewayRefs(s, hr) <==> LetIn(s, hr, gw) {
      RefersIff(s, hr, gw);
    }
    if gw :| gw in GatewayRefs(s, hr) && gw.className == className {
      RefsStored(s, hr, gw);
      assert Stored(s, gw);
    }
    if k :| k in s.gateways && s.gateways[k].className == className && LetIn(s, hr, s.gateways[k]) {
      assert Stored(s, s.gateways[k]);
    }
  }

  /******* Grants *******/

  // Of gateways that the grant is from, and of gateways that such routes are served by.
  predicate GrantConcerns(s: Snapshot, rg: ReferenceGrant, className: string) {
    || (exists k :: k in s.gateways && s.gateways[k].className == className &&
          GrantFrom("gateway.networking.k8s.io", "Gateway", s.gateways[k].ns) in rg.from)
    || (exists k :: k in s.routes && ServedIn(s, s.routes[k], className) &&
          GrantFrom("gateway.networking.k8s.io", "HTTPRoute", s.routes[k].ns) in rg.from)
  }

  lemma FromIs(rg: ReferenceGrant, kind: string, ns: string)
    ensures GrantNames(rg, kind, ns) <==> GrantFrom("gateway.networking.k8s.io", kind, ns) in rg.from
  {
  }

  lemma GrantIff(s: Snapshot, rg: ReferenceGrant, className: string)
    requires WellFormed(s)
    ensures className in GrantClasses(s, rg) <==> GrantConcerns(s, rg, className)
  {
    forall k | k in s.routes
      ensures className in ClassNames(GatewayRefs(s, s.routes[k])) <==> ServedIn(s, s.routes[k], className)
      ensures GrantNames(rg, "HTTPRoute", s.routes[k].ns) <==>
        GrantFrom("gateway.networking.k8s.io", "HTTPRoute", s.routes[k].ns) in rg.from
    {
      ServedIff(s, s.routes[k], className);
      FromIs(rg, "HTTPRoute", s.routes[k].ns);
    }
    forall k | k in s.gateways
      ensures GrantNames(rg, "Gateway", s.gateways[k].ns) <==>
        GrantFrom("gateway.networking.k8s.io", "Gateway", s.gateways[k].ns) in rg.from
    {
      FromIs(rg, "Gateway", s.gateways[k].ns);
    }
  }

  /******* Namespaces and secrets *******/

  // Some route of the namespace has the gateway as a parent, whether let in or not.
  predicate HasRouteFrom(s: Snapshot, gw: Gateway, ns: string) {
    exists k :: k in s.routes && s.routes[k].ns == ns && NamesParent(s.routes[k], gw)
  }

  predicate NamesParent(hr: HTTPRoute, gw: Gateway) {
    exists pr :: pr in hr.parentRefs && NamesGateway(hr, pr, gw)
  }

  predicate RoutesFromIn(s: Snapshot, ns: string, className: string) {
    exists k :: k in s.gateways && s.gateways[k].className == className && HasRouteFrom(s, s.gateways[k], ns)
  }

  lemma ParentFound(s: Snapshot, hr: HTTPRoute, pr: ParentRef, gw: Gateway)
    requires WellFormed(s) && CleanRoute(hr) && pr in hr.parentRefs && Stored(s, gw)
    ensures NamesGateway(hr, pr, gw) <==> Lookup(s.gateways, ParentKey(hr, pr)) == Some(gw)
  {
    ParentIs(hr, pr, gw);
  }

  lemma NamespaceIff(s: Snapshot, ns: string, className: string)
    requires WellFormed(s)
    ensures className in NamespaceClasses(s, ns) <==> RoutesFromIn(s, ns, className)
  {
    if className in NamespaceClasses(s, ns) {
      var k, pr :| k in s.routes && s.routes[k].ns == ns && pr in s.routes[k].parentRefs &&
        ParentKey(s.routes[k], pr) in s.gateways && s.gateways[ParentKey(s.routes[k], pr)].className == className;
      var gw := s.gateways[ParentKey(s.routes[k], pr)];
      assert Stored(s, gw);
      ParentFound(s, s.routes[k], pr, gw);
      assert NamesParent(s.routes[k], gw) && HasRouteFrom(s, gw, ns);
    }
    if g :| g in s.gateways && s.gateways[g].className == className && HasRouteFrom(s, s.gateways[g], ns) {
      var k :| k in s.routes && s.routes[k].ns == ns && NamesParent(s.routes[k], s.gateways[g]);
      var pr :| pr in s.routes[k].parentRefs && NamesGateway(s.routes[k], pr, s.gateways[g]);
      ParentFound(s, s.routes[k], pr, s.gateways[g]);
    }
  }

  // No gateway uses the secret wrongly, and one of the class uses it.
  ghost predicate SecretConcerns(s: Snapshot, scrt: Secret, className: string) {
    && (forall k :: k in s.gateways ==> !WrongFirst(s, s.gateways[k], s.gateways[k].listeners, scrt))
    && exists k :: k in s.gateways && s.gateways[k].className == className && UsesRightly(s, s.gateways[k], scrt)
  }

  lemma SecretIff(s: Snapshot, k: string, scrt: Secret, className: string)
    requires WellFormed(s) && ExactIndex(s) && LabelName(scrt.ns) && ObjectName(scrt.name)
    ensures className in Redeployed(s, SecretEvent(k, Some(scrt))) <==> SecretConcerns(s, scrt, className)
  {
    UsersIff(s, scrt);
  }

  /******* All events *******/

  // The object that was stored, or the new one.
  ghost predicate OldOrNew<V>(m: map<string, V>, k: string, o: Option<V>, v: V) {
    (k, v) in m.Items || o == Some(v)
  }

  ghost predicate Concerns(s: Snapshot, e: Event, className: string) {
    match e
    case RouteEvent(k, o) => exists hr :: OldOrNew(s.routes, k, o, hr) && ServedIn(s, hr, className)
    case GrantEvent(k, o) => exists rg :: OldOrNew(s.grants, k, o, rg) && GrantConcerns(s, rg, className)
    case ClassEvent(n, o) =>
      n == className && (if o.Some? then o.value.controllerName == s.controllerName else n in s.classes)
    case GatewayEvent(k, o) =>
      if o.Some? then o.value.className == className else k in s.gateways && s.gateways[k].className == className
    case NamespaceEvent(n, o) =>
      o.Some? && n in s.namespaces && s.namespaces[n].labels != o.value.labels && RoutesFromIn(s, n, className)
    case SecretEvent(_, o) => o.Some? && SecretConcerns(s, o.value, className)
    case ServiceEvent(_, _, _) => false
    case EndpointsEvent(_, _, _) => false
  }

  lemma RouteEventIff(s: Snapshot, k: string, o: Option<HTTPRoute>, className: string)
    requires WellFormed(s) && CleanEvent(RouteEvent(k, o))
    ensures className in Redeployed(s, RouteEvent(k, o)) <==> Concerns(s, RouteEvent(k, o), className)
  {
    forall hr | OldOrNew(s.routes, k, o, hr)
      ensures className in ClassNames(GatewayRefs(s, hr)) <==> ServedIn(s, hr, className)
    {
      ServedIff(s, hr, className);
    }
    if k in s.routes { assert OldOrNew(s.routes, k, o, s.routes[k]); }
    if o.Some? { assert OldOrNew(s.routes, k, o, o.value); }
  }

  lemma GrantEventIff(s: Snapshot, k: string, o: Option<ReferenceGrant>, className: string)
    requires WellFormed(s)
    ensures className in Redeployed(s, GrantEvent(k, o)) <==> Concerns(s, GrantEvent(k, o), className)
  {
    forall rg | OldOrNew(s.grants, k, o, rg)
      ensures className in GrantClasses(s, rg) <==> GrantConcerns(s, rg, className)
    {
      GrantIff(s, rg, className);
    }
    if k in s.grants { assert OldOrNew(s.grants, k, o, s.grants[k]); }
    if o.Some? { assert OldOrNew(s.grants, k, o, o.value); }
  }

  // A reconcile deploys a class exactly if the event concerns it.
  lemma RedeployedIff(s: Snapshot, e: Event, className: string)
    requires WellFormed(s) && ExactIndex(s) && CleanEvent(e)
    ensures className in Redeployed(s, e) <==> Concerns(s, e, className)
  {
    match e {
      case RouteEvent(k, o) => RouteEventIff(s, k, o, className);
      case GrantEvent(k, o) => GrantEventIff(s, k, o, className);
      case NamespaceEvent(n, o) => NamespaceIff(s, n, className);
      case SecretEvent(k, o) => if o.Some? { SecretIff(s, k, o.value, className); }
      case _ =>
    }
  }
}
