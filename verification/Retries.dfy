/** What a reconcile returns, and what trying a failed one again deploys. */
module Retries {
  import opened Common
  import opened Objects
  import opened Snapshots
  import opened Impact
  import opened Events

  // The controller manager calls a reconciler again after an error. A nil pointer ends the program.
  datatype Return = Done | Failed | Panic

  // ok says whether there was nothing to deploy or the deployment was queued. The error of a
  // deployment is dropped when a grant was stored; a wrong use of a secret is an error.
  function ReturnOf(s: Snapshot, e: Event, ok: bool): Return {
    match e
    case GrantEvent(_, o) => if ok || o.Some? then Done else Failed
    case GatewayEvent(k, o) => if o.None? && k !in s.gateways then Panic else if ok then Done else Failed
    case SecretEvent(k, o) =>
      if ok && !WronglyUsed(s, if o.Some? then o else Lookup(s.secrets, k)) then Done else Failed
    case _ => if ok then Done else Failed
  }

  predicate WronglyUsed(s: Snapshot, scrt: Option<Secret>) { scrt.Some? && SecretRejected(s, scrt.value) }

  /******* What the cache keeps of an event *******/

  // The cache holds the object of the event, or that there is none. A class of another controller
  // is not stored.
  predicate Remembers(s: Snapshot, e: Event) {
    match e
    case RouteEvent(k, o) => Lookup(s.routes, k) == o
    case GrantEvent(k, o) => Lookup(s.grants, k) == o
    case ClassEvent(n, o) =>
      if o.Some? && o.value.controllerName != s.controllerName then true else Lookup(s.classes, n) == o
    case GatewayEvent(k, o) => Lookup(s.gateways, k) == o
    case NamespaceEvent(n, o) => Lookup(s.namespaces, n) == o
    case SecretEvent(k, o) => Lookup(s.secrets, k) == o
    case ServiceEvent(k, _, o) => Lookup(s.services, k) == o
    case EndpointsEvent(k, _, o) => Lookup(s.endpoints, k) == o
  }

  // Two events of one object.
  predicate SameObject(e: Event, f: Event) {
    match e
    case RouteEvent(k, _) => f.RouteEvent? && f.key == k
    case GrantEvent(k, _) => f.GrantEvent? && f.key == k
    case ClassEvent(n, _) => f.ClassEvent? && f.name == n
    case GatewayEvent(k, _) => f.GatewayEvent? && f.key == k
    case NamespaceEvent(n, _) => f.NamespaceEvent? && f.name == n
    case SecretEvent(k, _) => f.SecretEvent? && f.key == k
    case ServiceEvent(k, _, _) => f.ServiceEvent? && f.key == k
    case EndpointsEvent(k, _, _) => f.EndpointsEvent? && f.key == k
  }

  lemma EventRemembered(s: Snapshot, e: Event)
    ensures Remembers(NextSnapshot(s, e), e)
  {
    match e {
      case RouteEvent(k, o) => PutSame(s.routes, k, o);
      case GrantEvent(k, o) => PutSame(s.grants, k, o);
      case ClassEvent(n, o) => PutSame(s.classes, n, o);
      case GatewayEvent(k, o) => PutSame(s.gateways, k, o);
      case NamespaceEvent(n, o) => PutSame(s.namespaces, n, o);
      case SecretEvent(k, o) => PutSame(s.secrets, k, o);
      case ServiceEvent(k, _, o) => PutSame(s.services, k, o);
      case EndpointsEvent(k, _, o) => PutSame(s.endpoints, k, o);
    }
  }

  lemma StillRemembered(s: Snapshot, e: Event, f: Event)
    requires Remembers(s, e) && !SameObject(e, f)
    ensures Remembers(NextSnapshot(s, f), e)
  {
    match f {
      case RouteEvent(k, o) => PutSame(s.routes, k, o);
      case GrantEvent(k, o) => PutSame(s.grants, k, o);
      case ClassEvent(n, o) => PutSame(s.classes, n, o);
      case GatewayEvent(k, o) => PutSame(s.gateways, k, o);
      case NamespaceEvent(n, o) => PutSame(s.namespaces, n, o);
      case SecretEvent(k, o) => PutSame(s.secrets, k, o);
      case ServiceEvent(k, _, o) => PutSame(s.services, k, o);
      case EndpointsEvent(k, _, o) => PutSame(s.endpoints, k, o);
    }
  }

  lemma KeptByEvent(s: Snapshot, e: Event, f: Event)
    requires Remembers(s, e) && (f == e || !SameObject(e, f))
    ensures Remembers(NextSnapshot(s, f), e) && NextSnapshot(s, f).controllerName == s.controllerName
  {
    if f == e { EventRemembered(s, e); } else { StillRemembered(s, e, f); }
  }

  /******* Trying again *******/

  // What a reconcile deploys on a cache that has the new object already: it no longer finds the
  // old one.
  function Retried(s: Snapshot, e: Event): set<string> {
    match e
    case RouteEvent(_, o) => RouteClasses(s, o)
    case GrantEvent(_, o) => OptionGrantClasses(s, o)
    case ClassEvent(_, o) => if o.Some? then Redeployed(s, e) else {}
    case GatewayEvent(_, o) => if o.Some? then Redeployed(s, e) else {}
    case NamespaceEvent(_, _) => {}
    case _ => Redeployed(s, e)
  }

  lemma RetriedIs(s: Snapshot, e: Event)
    requires Remembers(s, e)
    ensures Redeployed(s, e) == Retried(s, e)
  {
  }

  // A retry on the later cache t deploys all classes that the reconcile on s was to deploy.
  predicate RetryCovers(s: Snapshot, t: Snapshot, e: Event) {
    match e
    case RouteEvent(k, o) => RouteClasses(s, Lookup(s.routes, k)) + RouteClasses(s, o) <= RouteClasses(t, o)
    case GrantEvent(k, o) =>
      OptionGrantClasses(s, Lookup(s.grants, k)) + OptionGrantClasses(s, o) <= OptionGrantClasses(t, o)
    case ClassEvent(n, o) => o.Some? || n !in s.classes
    case GatewayEvent(k, o) => o.Some? || k !in s.gateways
    case NamespaceEvent(n, o) => Relabels(s, n, o) ==> NamespaceClasses(s, n) == {}
    case SecretEvent(_, o) => o.Some? ==> SecretClasses(s, o.value) <= SecretClasses(t, o.value)
    case _ => true
  }

  function SecretClasses(s: Snapshot, scrt: Secret): set<string> {
    if SecretRejected(s, scrt) then {} else set gw | gw in SecretUsers(s, scrt) :: gw.className
  }

  // A reconcile stored its object and could not deploy. When it is tried again later, whatever
  // else has changed, it deploys all classes of the first if and only if RetryCovers holds: never
  // for a deleted route, grant or gateway in use or a relabelled namespace.
  lemma RetryCoversIff(s: Snapshot, t: Snapshot, e: Event)
    requires Remembers(t, e) && s.controllerName == t.controllerName
    ensures Redeployed(s, e) <= Redeployed(t, e) <==> RetryCovers(s, t, e)
  {
    RetriedIs(t, e);
  }

  /******* Trying again at once *******/

  lemma {:induction false} RefsSame(s: Snapshot, t: Snapshot, hr: HTTPRoute, prs: seq<ParentRef>)
    requires s.gateways == t.gateways && s.namespaces == t.namespaces
    ensures RefsOf(s, hr, prs) == RefsOf(t, hr, prs)
  {
    if prs != [] {
      var init, pr := prs[..|prs| - 1], prs[|prs| - 1];
      RefsSame(s, t, hr, init);
      var k := ParentKey(hr, pr);
      if k in s.gateways {
        assert Admits(s, s.gateways[k], hr, pr) == Admits(t, t.gateways[k], hr, pr);
      }
    }
  }

  lemma GrantClassesSame(s: Snapshot, t: Snapshot, rg: Option<ReferenceGrant>)
    requires s.gateways == t.gateways && s.namespaces == t.namespaces && s.routes == t.routes
    ensures OptionGrantClasses(s, rg) == OptionGrantClasses(t, rg)
  {
    forall k | k in s.routes ensures GatewayRefs(s, s.routes[k]) == GatewayRefs(t, s.routes[k]) {
      RefsSame(s, t, s.routes[k], s.routes[k].parentRefs);
    }
  }

  lemma {:induction false} FindInRefsSame(s: Snapshot, t: Snapshot, gw: Gateway, refs: seq<CertificateRef>,
                                          scrt: Secret)
    requires s.index == t.index
    ensures FindInRefs(s, gw, refs, scrt) == FindInRefs(t, gw, refs, scrt)
    decreases |refs|
  {
    if refs != [] {
      FindInRefsSame(s, t, gw, refs[1..], scrt);
    }
  }

  lemma {:induction false} FindSame(s: Snapshot, t: Snapshot, gw: Gateway, listeners: seq<Listener>, scrt: Secret)
    requires s.index == t.index
    ensures FindInListeners(s, gw, listeners, scrt) == FindInListeners(t, gw, listeners, scrt)
    decreases |listeners|
  {
    if listeners != [] {
      FindSame(s, t, gw, listeners[1..], scrt);
      FindInRefsSame(s, t, gw, References(listeners[0]), scrt);
    }
  }

  lemma SecretClassesSame(s: Snapshot, t: Snapshot, scrt: Secret)
    requires s.index == t.index && s.gateways == t.gateways
    ensures SecretRejected(s, scrt) == SecretRejected(t, scrt) && SecretUsers(s, scrt) == SecretUsers(t, scrt)
  {
    forall k | k in s.gateways ensures FindSecret(s, s.gateways[k], scrt) == FindSecret(t, s.gateways[k], scrt) {
      FindSame(s, t, s.gateways[k], s.gateways[k].listeners, scrt);
    }
  }

  // If nothing else has changed, it is the old object alone that decides.
  predicate CoversAtOnce(s: Snapshot, e: Event) {
    match e
    case RouteEvent(k, o) => RouteClasses(s, Lookup(s.routes, k)) <= RouteClasses(s, o)
    case GrantEvent(k, o) => OptionGrantClasses(s, Lookup(s.grants, k)) <= OptionGrantClasses(s, o)
    case ClassEvent(n, o) => o.Some? || n !in s.classes
    case GatewayEvent(k, o) => o.Some? || k !in s.gateways
    case NamespaceEvent(n, o) => Relabels(s, n, o) ==> NamespaceClasses(s, n) == {}
    case _ => true
  }

  lemma RetriedSame(s: Snapshot, e: Event)
    ensures Redeployed(NextSnapshot(s, e), e) == Retried(s, e)
  {
    var t := NextSnapshot(s, e);
    EventRemembered(s, e);
    RetriedIs(t, e);
    match e {
      case RouteEvent(k, o) => if o.Some? { RefsSame(s, t, o.value, o.value.parentRefs); }
      case GrantEvent(k, o) => GrantClassesSame(s, t, o);
      case SecretEvent(_, o) => if o.Some? { SecretClassesSame(s, t, o.value); }
      case _ =>
    }
  }

  lemma CoversAtOnceIff(s: Snapshot, e: Event)
    ensures Redeployed(s, e) <= Redeployed(NextSnapshot(s, e), e) <==> CoversAtOnce(s, e)
  {
    RetriedSame(s, e);
  }

  // A second reconcile leaves no further class behind.
  lemma RetryUncoversNone(s: Snapshot, e: Event)
    requires CleanEvent(e)
    ensures Uncovered(NextSnapshot(s, e), e) == {}
  {
    var t := NextSnapshot(s, e);
    match e {
      case NamespaceEvent(n, o) =>
        forall c ensures o.None? ==> !UsesNamespace(t, n, c) {
        }
      case ServiceEvent(k, _, o) => assert NextSnapshot(t, e).services == t.services;
      case _ =>
    }
  }
}
