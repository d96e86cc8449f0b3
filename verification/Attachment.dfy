/** Who attaches to a gateway, said in terms of the Gateway API's fields and policies. */
module Attachment {
  import opened Common
  import opened Names
  import opened Objects
  import opened Snapshots
  import opened Webhooks
  import opened Reachability

  /******* Policies *******/

  // A requirement that the Kubernetes API accepts, and what it asks of the labels.
  predicate Accepted(r: Requirement) {
    match r.op
    case OpIn => r.values != []
    case OpNotIn => r.values != []
    case OpExists => r.values == []
    case OpDoesNotExist => r.values == []
    case UnknownOperator => false
  }

  predicate InValues(labels: map<string, string>, key: string, values: seq<string>) {
    exists v :: v in values && (key, v) in labels.Items
  }

  predicate Asks(labels: map<string, string>, r: Requirement) {
    match r.op
    case OpIn => InValues(labels, r.key, r.values)
    case OpNotIn => !InValues(labels, r.key, r.values)
    case OpExists => r.key in labels.Keys
    case OpDoesNotExist => r.key !in labels.Keys
    case UnknownOperator => false
  }

  // matchLabels asks for In of one value.
  predicate Selects(selector: Selector, labels: map<string, string>) {
    && (forall k :: k in selector.matchLabels ==> Asks(labels, Requirement(k, OpIn, [selector.matchLabels[k]])))
    && (forall r :: r in selector.requirements ==> Accepted(r) && Asks(labels, r))
  }

  predicate HasPolicy(ls: Listener, policy: FromNamespaces) {
    && ls.allowedRoutes.Some?
    && ls.allowedRoutes.value.namespaces.Some?
    && ls.allowedRoutes.value.namespaces.value.from == Some(policy)
  }

  predicate LetsNamespace(gw: Gateway, ls: Listener, ns: Namespace) {
    || HasPolicy(ls, FromAll)
    || (HasPolicy(ls, FromSame) && ns.name == gw.ns)
    || (HasPolicy(ls, FromSelector)
        && var selector := ls.allowedRoutes.value.namespaces.value.selector;
           selector.Some? && Selects(selector.value, ns.labels))
  }

  predicate OwnGroup(k: RouteGroupKind) { k.group in {None, Some(GATEWAY_GROUP)} }

  // HTTP routes are taken over HTTP and HTTPS unless kinds are listed; then, if they are listed
  // before any kind of another group.
  predicate TakesRoutes(ls: Listener) {
    && ls.allowedRoutes.Some?
    && var kinds := ls.allowedRoutes.value.kinds;
       if kinds == [] then ls.protocol in {HTTP, HTTPS}
       else exists i ::
          0 <= i < |kinds| && kinds[i].kind == "HTTPRoute" && forall j :: 0 <= j <= i ==> OwnGroup(kinds[j])
  }

  predicate NamesListener(hr: HTTPRoute, gw: Gateway, ls: Listener) {
    exists pr :: pr in hr.parentRefs && pr.name == gw.name && pr.section == Some(ls.name) &&
      (pr.ns == Some(gw.ns) || (pr.ns.None? && hr.ns == gw.ns))
  }

  // The listener lets a route of the namespace in.
  predicate Lets(s: Snapshot, gw: Gateway, ls: Listener, ns: string) {
    ns in s.namespaces && TakesRoutes(ls) && LetsNamespace(gw, ls, s.namespaces[ns])
  }

  lemma InIsLookup(labels: map<string, string>, key: string, values: seq<string>)
    ensures InValues(labels, key, values) <==> key in labels && labels[key] in values
  {
    if key in labels && labels[key] in values {
      assert (key, labels[key]) in labels.Items;
    }
  }

  lemma SelectsIs(selector: Option<Selector>, labels: map<string, string>)
    ensures SelectorMatches(selector, labels) <==> selector.Some? && Selects(selector.value, labels)
  {
    if selector.Some? {
      forall k | k in selector.value.matchLabels
        ensures Asks(labels, Requirement(k, OpIn, [selector.value.matchLabels[k]])) <==>
          k in labels && labels[k] == selector.value.matchLabels[k]
      {
        InIsLookup(labels, k, [selector.value.matchLabels[k]]);
      }
      forall r | r in selector.value.requirements
        ensures RequirementHolds(r, labels) <==> Accepted(r) && Asks(labels, r)
      {
        InIsLookup(labels, r.key, r.values);
      }
    }
  }

  lemma LetsIs(s: Snapshot, gw: Gateway, ls: Listener, ns: string)
    requires Keyed(s)
    ensures RouteMatches(gw.ns, Some(ls), Lookup(s.namespaces, ns), "HTTPRoute") <==> Lets(s, gw, ls, ns)
  {
    if ls.allowedRoutes.Some? && ls.allowedRoutes.value.namespaces.Some? && ns in s.namespaces {
      SelectsIs(ls.allowedRoutes.value.namespaces.value.selector, s.namespaces[ns].labels);
    }
  }

  /******* Routes and gateways *******/

  predicate Stored(s: Snapshot, gw: Gateway) { Lookup(s.gateways, GatewayKey(gw)) == Some(gw) }

  // A parentRef's key is the gateway's if it has its namespace, by default the route's, and name.
  lemma ParentIs(hr: HTTPRoute, pr: ParentRef, gw: Gateway)
    requires CleanRoute(hr) && pr in hr.parentRefs && CleanGateway(gw)
    ensures ParentKey(hr, pr) == GatewayKey(gw) <==>
      pr.name == gw.name && (pr.ns == Some(gw.ns) || (pr.ns.None? && hr.ns == gw.ns))
  {
    if ParentKey(hr, pr) == GatewayKey(gw) {
      KeyInjective(ParentNs(hr, pr), pr.name, gw.ns, gw.name);
    }
  }

  // A route refers to a stored gateway exactly if one of its parentRefs names a listener of the
  // gateway that lets routes of its namespace in.
  lemma RefersIff(s: Snapshot, hr: HTTPRoute, gw: Gateway)
    requires Keyed(s) && Stored(s, gw) && CleanGateway(gw) && CleanRoute(hr)
    ensures gw in GatewayRefs(s, hr) <==>
      exists ls :: ls in gw.listeners && NamesListener(hr, gw, ls) && Lets(s, gw, ls, hr.ns)
  {
    RefsOfMembers(s, hr, hr.parentRefs, gw);
    forall pr | pr in hr.parentRefs
      ensures (ParentKey(hr, pr) in s.gateways && s.gateways[ParentKey(hr, pr)] == gw) <==>
        (pr.name == gw.name && (pr.ns == Some(gw.ns) || (pr.ns.None? && hr.ns == gw.ns)))
    {
      ParentIs(hr, pr, gw);
    }
    forall ls { LetsIs(s, gw, ls, hr.ns); }
    if gw in GatewayRefs(s, hr) {
      var pr :| pr in hr.parentRefs && ParentKey(hr, pr) in s.gateways &&
        s.gateways[ParentKey(hr, pr)] == gw && Admits(s, gw, hr, pr);
      var ls :| ls in gw.listeners && pr.section == Some(ls.name) &&
        RouteMatches(gw.ns, Some(ls), Lookup(s.namespaces, hr.ns), "HTTPRoute");
      assert NamesListener(hr, gw, ls) && Lets(s, gw, ls, hr.ns);
    }
    if ls :| ls in gw.listeners && NamesListener(hr, gw, ls) && Lets(s, gw, ls, hr.ns) {
      var pr :| pr in hr.parentRefs && pr.name == gw.name && pr.section == Some(ls.name) &&
        (pr.ns == Some(gw.ns) || (pr.ns.None? && hr.ns == gw.ns));
      assert Admits(s, gw, hr, pr);
    }
  }

  // With unique listener names, the attached routes are the stored ones of this kind.
  lemma AttachesIff(s: Snapshot, gw: Gateway, hr: HTTPRoute)
    requires WellFormed(s) && Stored(s, gw) && UniqueListeners(gw)
    ensures hr in AttachedRoutes(s, gw) <==>
      Lookup(s.routes, RouteKey(hr)) == Some(hr) &&
      exists ls :: ls in gw.listeners && NamesListener(hr, gw, ls) && Lets(s, gw, ls, hr.ns)
  {
    if hr in AttachedRoutes(s, gw) { assert Lookup(s.routes, RouteKey(hr)) == Some(hr); }
    if Lookup(s.routes, RouteKey(hr)) == Some(hr) {
      AttachmentAgrees(s, gw, hr);
      RefersIff(s, hr, gw);
      assert hr in AttachedRoutes(s, gw) <==> Attached(s, gw, hr);
    }
  }

  // The stored route names a listener of the gateway that takes HTTP routes.
  predicate Asked(s: Snapshot, gw: Gateway, hr: HTTPRoute) {
    Lookup(s.routes, RouteKey(hr)) == Some(hr) && hr.ns in s.namespaces &&
    exists ls :: ls in gw.listeners && NamesListener(hr, gw, ls) && TakesRoutes(ls)
  }

  predicate AllHave(gw: Gateway, policy: FromNamespaces) { forall ls :: ls in gw.listeners ==> HasPolicy(ls, policy) }

  // Under All it does not matter which known namespace a route is in;
  lemma AllAttaches(s: Snapshot, gw: Gateway, hr: HTTPRoute)
    requires WellFormed(s) && Stored(s, gw) && UniqueListeners(gw) && AllHave(gw, FromAll)
    ensures hr in AttachedRoutes(s, gw) <==> Asked(s, gw, hr)
  {
    AttachesIff(s, gw, hr);
  }

  // under Same, it must be the gateway's;
  lemma SameAttaches(s: Snapshot, gw: Gateway, hr: HTTPRoute)
    requires WellFormed(s) && Stored(s, gw) && UniqueListeners(gw) && AllHave(gw, FromSame)
    ensures hr in AttachedRoutes(s, gw) <==> Asked(s, gw, hr) && hr.ns == gw.ns
  {
    AttachesIff(s, gw, hr);
  }

  // under Selector, only its labels matter;
  lemma SelectorAttaches(s: Snapshot, gw: Gateway, hr: HTTPRoute, selector: Selector)
    requires WellFormed(s) && Stored(s, gw) && UniqueListeners(gw) && AllHave(gw, FromSelector)
    requires forall ls :: ls in gw.listeners ==> ls.allowedRoutes.value.namespaces.value.selector == Some(selector)
    ensures hr in AttachedRoutes(s, gw) <==> Asked(s, gw, hr) && Selects(selector, s.namespaces[hr.ns].labels)
  {
    AttachesIff(s, gw, hr);
  }

  // and any other policy, or none, lets nothing in.
  lemma NoPolicyAttachesNone(s: Snapshot, gw: Gateway)
    requires WellFormed(s) && Stored(s, gw) && UniqueListeners(gw)
    requires forall ls :: ls in gw.listeners ==>
      !HasPolicy(ls, FromAll) && !HasPolicy(ls, FromSame) && !HasPolicy(ls, FromSelector)
    ensures AttachedRoutes(s, gw) == {}
  {
    forall hr ensures hr !in AttachedRoutes(s, gw) {
      AttachesIff(s, gw, hr);
    }
  }

  // The empty selector selects everything, and requirements are complementary in pairs.
  lemma SelectorLaws(labels: map<string, string>, key: string, value: string, values: seq<string>)
    requires values != []
    ensures Selects(Selector(map[], []), labels)
    ensures Selects(Selector(map[key := value], []), labels) <==>
      Selects(Selector(map[], [Requirement(key, OpIn, [value])]), labels)
    ensures Selects(Selector(map[], [Requirement(key, OpNotIn, values)]), labels) <==>
      !Selects(Selector(map[], [Requirement(key, OpIn, values)]), labels)
    ensures Selects(Selector(map[], [Requirement(key, OpDoesNotExist, [])]), labels) <==>
      !Selects(Selector(map[], [Requirement(key, OpExists, [])]), labels)
  {
    OneLabel(labels, key, value);
    OneRequirement(labels, Requirement(key, OpIn, [value]));
    OneRequirement(labels, Requirement(key, OpIn, values));
    OneRequirement(labels, Requirement(key, OpNotIn, values));
    OneRequirement(labels, Requirement(key, OpExists, []));
    OneRequirement(labels, Requirement(key, OpDoesNotExist, []));
  }

  lemma OneRequirement(labels: map<string, string>, r: Requirement)
    ensures Selects(Selector(map[], [r]), labels) <==> Accepted(r) && Asks(labels, r)
  {
    assert r in Selector(map[], [r]).requirements;
  }

  lemma OneLabel(labels: map<string, string>, key: string, value: string)
    ensures Selects(Selector(map[key := value], []), labels) <==> Asks(labels, Requirement(key, OpIn, [value]))
  {
    assert key in Selector(map[key := value], []).matchLabels;
  }

  /******* Neighbors and admission *******/

  // The neighbors of a gateway are the other stored gateways that share an attached route.
  lemma NeighborsIff(s: Snapshot, gw: Gateway, other: Gateway)
    requires WellFormed(s) && Unambiguous(s) && Stored(s, gw)
    ensures other in Neighbors(s, gw) <==>
      Stored(s, other) && other != gw && exists hr :: hr in AttachedRoutes(s, gw) && hr in AttachedRoutes(s, other)
  {
    forall hr | hr in AttachedRoutes(s, gw) && Stored(s, other)
      ensures hr in AttachedRoutes(s, other) <==> other in GatewayRefs(s, hr)
    {
      StoredAttachment(s, hr, other);
    }
    if other in Neighbors(s, gw) {
      var hr :| hr in AttachedRoutes(s, gw) && other in GatewayRefs(s, hr) && GatewayKey(other) != GatewayKey(gw);
      RefsStored(s, hr, other);
    }
  }

  predicate NamesGateway(hr: HTTPRoute, pr: ParentRef, gw: Gateway) {
    pr.name == gw.name && (pr.ns == Some(gw.ns) || (pr.ns.None? && hr.ns == gw.ns))
  }

  predicate AllLet(s: Snapshot, hr: HTTPRoute, pr: ParentRef, gw: Gateway) {
    forall ls :: ls in gw.listeners && pr.section == Some(ls.name) ==> Lets(s, gw, ls, hr.ns)
  }

  // The webhook admits a parentRef exactly if it has a section, is of the Gateway type, and names a
  // known gateway whose every listener of this section lets the route in.
  lemma AdmittedIff(s: Snapshot, hr: HTTPRoute, pr: ParentRef)
    requires WellFormed(s) && CleanRoute(hr) && pr in hr.parentRefs
    ensures ParentAdmitted(s, hr, pr) <==>
      && pr.section.Some?
      && pr.group in {None, Some("gateway.networking.k8s.io")} && pr.kind in {None, Some("Gateway")}
      && exists gw :: Stored(s, gw) && NamesGateway(hr, pr, gw) && AllLet(s, hr, pr, gw)
  {
    var k := ParentKey(hr, pr);
    if k in s.gateways {
      var gw := s.gateways[k];
      ParentIs(hr, pr, gw);
      forall ls { LetsIs(s, gw, ls, hr.ns); }
      assert Stored(s, gw) && NamesGateway(hr, pr, gw);
    }
    if gw :| Stored(s, gw) && NamesGateway(hr, pr, gw) {
      ParentIs(hr, pr, gw);
    }
    forall gw | Stored(s, gw) && NamesGateway(hr, pr, gw) ensures k in s.gateways && gw == s.gateways[k] {
      ParentIs(hr, pr, gw);
    }
  }
}
