/** The reconcilers' events: how each changes the cache, which classes it deploys again, and which
    classes it leaves behind. */
module Events {
  import opened Common
  import opened Names
  import opened Objects
  import opened GrantIndex
  import opened Snapshots
  import opened Rendering
  import opened Impact

  // An object now exists as given, or is gone.
  datatype Event =
    | RouteEvent(key: string, route: Option<HTTPRoute>)
    | GrantEvent(key: string, grant: Option<ReferenceGrant>)
    | ClassEvent(name: string, class_: Option<GatewayClass>)
    | GatewayEvent(key: string, gateway: Option<Gateway>)
    | NamespaceEvent(name: string, namespace: Option<Namespace>)
    | SecretEvent(key: string, secret: Option<Secret>)
    | ServiceEvent(key: string, ns: string, service: Option<Service>)
    | EndpointsEvent(key: string, ns: string, endpoints: Option<Endpoints>)

  // What Kubernetes guarantees of the object in the event, and the webhook of its section names.
  predicate CleanEvent(e: Event) {
    match e
    case RouteEvent(k, o) => o.Some? ==> k == RouteKey(o.value) && CleanRoute(o.value) && SectionsSet(o.value)
    case GrantEvent(k, o) => o.Some? ==> k == Key(o.value.ns, o.value.name) && CleanGrant(o.value)
    case ClassEvent(n, o) => o.Some? ==> n == o.value.name
    case GatewayEvent(k, o) => o.Some? ==> k == GatewayKey(o.value) && CleanGateway(o.value)
    case NamespaceEvent(n, o) => o.Some? ==> n == o.value.name
    case SecretEvent(k, o) => o.Some? ==>
      k == Key(o.value.ns, o.value.name) && LabelName(o.value.ns) && ObjectName(o.value.name)
    case ServiceEvent(k, ns, o) => o.Some? ==>
      k == ServiceKey(o.value) && ns == o.value.ns && LabelName(ns) && ObjectName(o.value.name)
    case EndpointsEvent(k, ns, o) => o.Some? ==> k == Key(o.value.ns, o.value.name) && ns == o.value.ns
  }

  function Put<V>(m: map<string, V>, k: string, v: Option<V>): map<string, V> {
    if v.Some? then m[k := v.value] else m - {k}
  }

  // A class of another controller is not stored.
  predicate Ignored(s: Snapshot, e: Event) {
    e.ClassEvent? && if e.class_.Some? then e.class_.value.controllerName != s.controllerName else e.name !in s.classes
  }

  function NextSnapshot(s: Snapshot, e: Event): Snapshot {
    match e
    case RouteEvent(k, o) => s.(routes := Put(s.routes, k, o))
    case GrantEvent(k, o) =>
      s.(grants := Put(s.grants, k, o),
         index := if o.Some? then PutIndex(s.index, s.grants, o.value) else RemoveIndex(s.index, s.grants, k))
    case ClassEvent(n, o) => if Ignored(s, e) then s else s.(classes := Put(s.classes, n, o))
    case GatewayEvent(k, o) => s.(gateways := Put(s.gateways, k, o))
    case NamespaceEvent(n, o) => s.(namespaces := Put(s.namespaces, n, o))
    case SecretEvent(k, o) => s.(secrets := Put(s.secrets, k, o))
    case ServiceEvent(k, _, o) => s.(services := Put(s.services, k, o))
    case EndpointsEvent(k, _, o) => s.(endpoints := Put(s.endpoints, k, o))
  }

  function RouteClasses(s: Snapshot, hr: Option<HTTPRoute>): set<string> {
    if hr.Some? then ClassNames(GatewayRefs(s, hr.value)) else {}
  }

  function OptionGrantClasses(s: Snapshot, rg: Option<ReferenceGrant>): set<string> {
    if rg.Some? then GrantClasses(s, rg.value) else {}
  }

  predicate Relabels(s: Snapshot, name: string, ns: Option<Namespace>) {
    name in s.namespaces && ns.Some? && s.namespaces[name].labels != ns.value.labels
  }

  // The classes the reconciler deploys. It looks old and new objects up in the cache as it was,
  // except that a gateway is stored first: then the old one is no longer found.
  function Redeployed(s: Snapshot, e: Event): set<string> {
    match e
    case RouteEvent(k, o) => RouteClasses(s, Lookup(s.routes, k)) + RouteClasses(s, o)
    case GrantEvent(k, o) => OptionGrantClasses(s, Lookup(s.grants, k)) + OptionGrantClasses(s, o)
    case ClassEvent(n, _) => if Ignored(s, e) then {} else {n}
    case GatewayEvent(k, o) =>
      if o.Some? then {o.value.className}
      else if k in s.gateways then {s.gateways[k].className} else {}
    case NamespaceEvent(n, o) => if Relabels(s, n, o) then NamespaceClasses(s, n) else {}
    case SecretEvent(_, o) =>
      if o.Some? && !SecretRejected(s, o.value) then set gw | gw in SecretUsers(s, o.value) :: gw.className else {}
    case ServiceEvent(_, _, _) => {}
    case EndpointsEvent(_, _, _) => {}
  }

  // The classes that are not deployed although what their render reads changes: of a gateway that
  // moves to another class, the one it leaves; when a namespace appears or disappears, those with
  // an attached route of it; when a secret changes that is gone or that some gateway uses wrongly,
  // those that read it; when a service changes, those with a route whose pools change by it.
  function Uncovered(s: Snapshot, e: Event): set<string> {
    var t := NextSnapshot(s, e);
    match e
    case GatewayEvent(k, o) => if o.Some? && Leaves(s, k, o.value) then {s.gateways[k].className} else {}
    case NamespaceEvent(n, o) =>
      if n in s.namespaces && o.Some? then {}
      else set c | c in s.classes && (UsesNamespace(s, n, c) || UsesNamespace(t, n, c))
    case SecretEvent(k, o) =>
      if Lookup(s.secrets, k) == o || (o.Some? && !SecretRejected(s, o.value)) then {}
      else set c | c in s.classes && ReadsSecret(s, t, k, c)
    case ServiceEvent(k, _, _) => set c | c in s.classes && ReadsService(s, t, k, c)
    case _ => {}
  }

  // The gateway was in another class, and that class is active.
  predicate Leaves(s: Snapshot, k: string, gw: Gateway) {
    k in s.gateways && s.gateways[k].className != gw.className && ActiveClass(s, s.gateways[k].className)
  }

  /******* Every event is covered but in these cases *******/

  lemma PutSame<V>(m: map<string, V>, k: string, v: Option<V>)
    ensures forall j :: j != k ==> Lookup(m, j) == Lookup(Put(m, k, v), j)
    ensures Lookup(Put(m, k, v), k) == v
  {
  }

  // For a class that the event does not deploy, Uncovered says when what it reads changes.
  predicate CoveredIff(s: Snapshot, e: Event, className: string) {
    className in Redeployed(s, e) || className in Uncovered(s, e)
    <==> className in Redeployed(s, e) || InputsOf(NextSnapshot(s, e), className) != InputsOf(s, className)
  }

  lemma GrantEventCovered(s: Snapshot, k: string, o: Option<ReferenceGrant>, className: string)
    requires WellFormed(s) && CleanEvent(GrantEvent(k, o))
    ensures CoveredIff(s, GrantEvent(k, o), className)
  {
    if className !in Redeployed(s, GrantEvent(k, o)) {
      var t := NextSnapshot(s, GrantEvent(k, o));
      if o.Some? { PutRows(s.index, s.grants, o.value); } else { RemoveRows(s.index, s.grants, k); }
      GrantChangeSound(s, t, Lookup(s.grants, k), o, className);
    }
  }

  lemma GatewayEventCovered(s: Snapshot, k: string, o: Option<Gateway>, className: string)
    requires WellFormed(s) && CleanEvent(GatewayEvent(k, o))
    ensures CoveredIff(s, GatewayEvent(k, o), className)
  {
    if o.Some? {
      if className != o.value.className { GatewayUpsertChangesIff(s, o.value, className); }
    } else if className !in Redeployed(s, GatewayEvent(k, o)) {
      PutSame(s.gateways, k, o);
      GatewayChangeSound(s, NextSnapshot(s, GatewayEvent(k, o)), k, className);
    }
  }

  lemma SecretEventCovered(s: Snapshot, k: string, o: Option<Secret>, className: string)
    requires WellFormed(s) && CleanEvent(SecretEvent(k, o))
    ensures CoveredIff(s, SecretEvent(k, o), className)
  {
    if o.Some? && !SecretRejected(s, o.value) {
      if className !in Redeployed(s, SecretEvent(k, o)) { SecretChangeSound(s, o.value, className); }
    } else {
      PutSame(s.secrets, k, o);
      SecretChangesIff(s, NextSnapshot(s, SecretEvent(k, o)), k, className);
    }
  }

  lemma NamespaceEventCovered(s: Snapshot, n: string, o: Option<Namespace>, className: string)
    requires WellFormed(s) && CleanEvent(NamespaceEvent(n, o))
    ensures CoveredIff(s, NamespaceEvent(n, o), className)
  {
    var t := NextSnapshot(s, NamespaceEvent(n, o));
    PutSame(s.namespaces, n, o);
    if n !in s.namespaces || o.None? {
      NamespaceChangesIff(s, t, n, className);
    } else if Relabels(s, n, o) {
      if className !in NamespaceClasses(s, n) { NamespaceChangeSound(s, t, n, className); }
    } else {
      assert s.namespaces[n] == o.value;
      assert t.namespaces == s.namespaces;
      assert t == s;
    }
  }

  lemma ServiceEventCovered(s: Snapshot, k: string, ns: string, o: Option<Service>, className: string)
    ensures CoveredIff(s, ServiceEvent(k, ns, o), className)
  {
    PutSame(s.services, k, o);
    ServiceChangesIff(s, NextSnapshot(s, ServiceEvent(k, ns, o)), k, className);
  }

  lemma RouteEventCovered(s: Snapshot, k: string, o: Option<HTTPRoute>, className: string)
    requires WellFormed(s) && CleanEvent(RouteEvent(k, o))
    ensures CoveredIff(s, RouteEvent(k, o), className)
  {
    if className !in Redeployed(s, RouteEvent(k, o)) {
      PutSame(s.routes, k, o);
      RouteChangeSound(s, NextSnapshot(s, RouteEvent(k, o)), k, className);
    }
  }

  lemma ClassEventCovered(s: Snapshot, n: string, o: Option<GatewayClass>, className: string)
    ensures CoveredIff(s, ClassEvent(n, o), className)
  {
    if !Ignored(s, ClassEvent(n, o)) && className != n {
      PutSame(s.classes, n, o);
      ClassChangeSound(s, NextSnapshot(s, ClassEvent(n, o)), n, className);
    }
  }

  // Of the classes that the event does not deploy, what a class reads changes if and only if the
  // class is uncovered.
  lemma EventCoveredIff(s: Snapshot, e: Event, className: string)
    requires WellFormed(s) && CleanEvent(e) && className !in Redeployed(s, e)
    ensures className in Uncovered(s, e) <==> InputsOf(NextSnapshot(s, e), className) != InputsOf(s, className)
  {
    match e {
      case RouteEvent(k, o) => RouteEventCovered(s, k, o, className);
      case GrantEvent(k, o) => GrantEventCovered(s, k, o, className);
      case ClassEvent(n, o) => ClassEventCovered(s, n, o, className);
      case GatewayEvent(k, o) => GatewayEventCovered(s, k, o, className);
      case NamespaceEvent(n, o) => NamespaceEventCovered(s, n, o, className);
      case SecretEvent(k, o) => SecretEventCovered(s, k, o, className);
      case ServiceEvent(k, ns, o) => ServiceEventCovered(s, k, ns, o, className);
      case EndpointsEvent(_, _, _) => EndpointsChangeSound(s, NextSnapshot(s, e), className);
    }
  }

  lemma NextKeyed(s: Snapshot, e: Event)
    requires Keyed(s) && CleanEvent(e)
    ensures Keyed(NextSnapshot(s, e))
  {
    match e {
      case RouteEvent(k, o) => PutRouteKeyed(s, k, o);
      case GrantEvent(k, o) => PutGrantKeyed(s, k, o);
      case GatewayEvent(k, o) => PutGatewayKeyed(s, k, o);
      case SecretEvent(k, o) => PutSecretKeyed(s, k, o);
      case ServiceEvent(k, _, o) => PutServiceKeyed(s, k, o);
      case _ =>
    }
  }

  lemma PutRouteKeyed(s: Snapshot, k: string, o: Option<HTTPRoute>)
    requires Keyed(s) && (o.Some? ==> k == RouteKey(o.value))
    ensures Keyed(s.(routes := Put(s.routes, k, o)))
  {
  }

  lemma PutGrantKeyed(s: Snapshot, k: string, o: Option<ReferenceGrant>)
    requires Keyed(s) && (o.Some? ==> k == Key(o.value.ns, o.value.name))
    ensures Keyed(s.(grants := Put(s.grants, k, o)))
  {
  }

  lemma PutGatewayKeyed(s: Snapshot, k: string, o: Option<Gateway>)
    requires Keyed(s) && (o.Some? ==> k == GatewayKey(o.value))
    ensures Keyed(s.(gateways := Put(s.gateways, k, o)))
  {
  }

  lemma PutSecretKeyed(s: Snapshot, k: string, o: Option<Secret>)
    requires Keyed(s) && (o.Some? ==> k == Key(o.value.ns, o.value.name))
    ensures Keyed(s.(secrets := Put(s.secrets, k, o)))
  {
  }

  lemma PutServiceKeyed(s: Snapshot, k: string, o: Option<Service>)
    requires Keyed(s) && (o.Some? ==> k == ServiceKey(o.value))
    ensures Keyed(s.(services := Put(s.services, k, o)))
  {
  }

  lemma PutClean<V>(m: map<string, V>, k: string, v: Option<V>, clean: V -> bool)
    requires forall j :: j in m ==> clean(m[j])
    requires v.Some? ==> clean(v.value)
    ensures forall j :: j in Put(m, k, v) ==> clean(Put(m, k, v)[j])
  {
  }

  lemma NextClean(s: Snapshot, e: Event)
    requires Clean(s) && CleanEvent(e)
    ensures Clean(NextSnapshot(s, e))
  {
    match e {
      case RouteEvent(k, o) => PutClean(s.routes, k, o, (hr: HTTPRoute) => CleanRoute(hr) && SectionsSet(hr));
      case GrantEvent(k, o) => PutClean(s.grants, k, o, CleanGrant);
      case ClassEvent(_, _) =>
      case GatewayEvent(k, o) => PutClean(s.gateways, k, o, CleanGateway);
      case NamespaceEvent(_, _) =>
      case SecretEvent(k, o) =>
        PutClean(s.secrets, k, o, (scrt: Secret) => LabelName(scrt.ns) && ObjectName(scrt.name));
      case ServiceEvent(k, _, o) =>
        PutClean(s.services, k, o, (svc: Service) => LabelName(svc.ns) && ObjectName(svc.name));
      case EndpointsEvent(_, _, _) =>
    }
  }

  lemma NextWellFormed(s: Snapshot, e: Event)
    requires WellFormed(s) && CleanEvent(e)
    ensures WellFormed(NextSnapshot(s, e))
  {
    NextKeyed(s, e);
    NextClean(s, e);
  }
}
