/** Incremental rendering is sound: a change leaves everything that the render of a class reads
    as it was, unless the class is among those the reconciler computes and deploys again. */
module Impact {
  import opened Common
  import opened Names
  import opened Objects
  import opened GrantIndex
  import opened Snapshots
  import opened IRules
  import opened Rendering

  /******* What secrets and programs depend on *******/

  ghost predicate SameReferrer(s: Snapshot, t: Snapshot, from: ObjectId) {
    forall to: ObjectId :: CanRefer(s.index, from, to) == CanRefer(t.index, from, to)
  }

  predicate SameSecret(s: Snapshot, t: Snapshot, gw: Gateway, ref: CertificateRef) {
    var k := Key(RefNs(gw, ref), ref.name);
    Lookup(s.secrets, k) == Lookup(t.secrets, k)
  }

  lemma {:induction false} RefSecretsSame(s: Snapshot, t: Snapshot, gw: Gateway, refs: seq<CertificateRef>)
    requires SameReferrer(s, t, GatewayId(gw)) && forall ref :: ref in refs ==> SameSecret(s, t, gw, ref)
    ensures RefSecrets(s, gw, refs) == RefSecrets(t, gw, refs)
  {
    if refs != [] {
      var init, ref := refs[..|refs| - 1], refs[|refs| - 1];
      RefSecretsSame(s, t, gw, init);
      assert SameSecret(s, t, gw, ref);
      var k := Key(RefNs(gw, ref), ref.name);
      if k in s.secrets {
        assert CanRefer(s.index, GatewayId(gw), SecretId(s.secrets[k])) ==
          CanRefer(t.index, GatewayId(gw), SecretId(s.secrets[k]));
      }
    }
  }

  // The references an HTTPS listener resolves.
  function References(ls: Listener): seq<CertificateRef> {
    if ls.protocol.HTTPS? && ls.tls.Some? && Terminates(ls.tls.value) then ls.tls.value.certificateRefs else []
  }

  lemma {:induction false} SecretMapSame(s: Snapshot, t: Snapshot, gw: Gateway, listeners: seq<Listener>)
    requires SameReferrer(s, t, GatewayId(gw))
    requires forall ls, ref :: ls in listeners && ref in References(ls) ==> SameSecret(s, t, gw, ref)
    ensures SecretMap(s, gw, listeners) == SecretMap(t, gw, listeners)
  {
    if listeners != [] {
      var init, ls := listeners[..|listeners| - 1], listeners[|listeners| - 1];
      SecretMapSame(s, t, gw, init);
      assert ls in listeners;
      RefSecretsSame(s, t, gw, References(ls));
    }
  }

  predicate SameService(s: Snapshot, t: Snapshot, hr: HTTPRoute, br: BackendRef) {
    var k := Key(BackendNs(hr, br), br.name);
    Lookup(s.services, k) == Lookup(t.services, k)
  }

  lemma {:induction false} PoolWeightsSame(s: Snapshot, t: Snapshot, hr: HTTPRoute, brs: seq<BackendRef>)
    requires SameReferrer(s, t, RouteId(hr)) && forall br :: br in brs ==> SameService(s, t, hr, br)
    ensures PoolWeights(s, hr, brs) == PoolWeights(t, hr, brs)
  {
    if brs != [] {
      var init, br := brs[..|brs| - 1], brs[|brs| - 1];
      PoolWeightsSame(s, t, hr, init);
      assert SameService(s, t, hr, br);
      var k := Key(BackendNs(hr, br), br.name);
      if k in s.services {
        assert CanRefer(s.index, RouteId(hr), ServiceId(s.services[k])) ==
          CanRefer(t.index, RouteId(hr), ServiceId(s.services[k]));
      }
    }
  }

  lemma {:induction false} RulesSame(s: Snapshot, t: Snapshot, hr: HTTPRoute, rules: seq<Rule>)
    requires SameReferrer(s, t, RouteId(hr))
    requires forall rule, br :: rule in rules && br in rule.backendRefs ==> SameService(s, t, hr, br)
    ensures RulesOf(s, hr, rules) == RulesOf(t, hr, rules)
  {
    if rules != [] {
      var init, rule := rules[..|rules| - 1], rules[|rules| - 1];
      RulesSame(s, t, hr, init);
      assert rule in rules;
      PoolWeightsSame(s, t, hr, rule.backendRefs);
    }
  }

  // Two snapshots tell the render of a gateway the same about a route.
  ghost predicate SameRoute(s: Snapshot, t: Snapshot, hr: HTTPRoute) {
    && SameReferrer(s, t, RouteId(hr))
    && Lookup(s.namespaces, hr.ns) == Lookup(t.namespaces, hr.ns)
    && forall rule, br :: rule in hr.rules && br in rule.backendRefs ==> SameService(s, t, hr, br)
  }

  lemma GatewaySame(s: Snapshot, t: Snapshot, gw: Gateway)
    requires SameReferrer(s, t, GatewayId(gw))
    requires forall ls, ref :: ls in gw.listeners && ref in References(ls) ==> SameSecret(s, t, gw, ref)
    requires AttachedRoutes(s, gw) == AttachedRoutes(t, gw)
    requires forall hr :: hr in AttachedRoutes(s, gw) ==> SameRoute(s, t, hr)
    ensures GatewayInputsOf(s, gw) == GatewayInputsOf(t, gw)
  {
    SecretMapSame(s, t, gw, gw.listeners);
    RoutesSame(s, t, gw);
  }

  lemma RoutesSame(s: Snapshot, t: Snapshot, gw: Gateway)
    requires AttachedRoutes(s, gw) == AttachedRoutes(t, gw)
    requires forall hr :: hr in AttachedRoutes(s, gw) ==> SameRoute(s, t, hr)
    ensures GatewayInputsOf(s, gw).routes == GatewayInputsOf(t, gw).routes
  {
    forall hr | hr in AttachedRoutes(s, gw) ensures ReadsAlike(s, t, hr) {
      RulesSame(s, t, hr, hr.rules);
    }
    RouteMapSame(s, t, gw);
  }

  predicate ReadsAlike(s: Snapshot, t: Snapshot, hr: HTTPRoute) {
    RouteProgram(s, hr) == RouteProgram(t, hr) && Lookup(s.namespaces, hr.ns) == Lookup(t.namespaces, hr.ns)
  }

  lemma RouteMapSame(s: Snapshot, t: Snapshot, gw: Gateway)
    requires AttachedRoutes(s, gw) == AttachedRoutes(t, gw)
    requires forall hr :: hr in AttachedRoutes(s, gw) ==> ReadsAlike(s, t, hr)
    ensures GatewayInputsOf(s, gw).routes == GatewayInputsOf(t, gw).routes
  {
  }

  // The class has the same gateways in both, and each reads the same.
  lemma ClassSame(s: Snapshot, t: Snapshot, className: string)
    requires ActiveClass(s, className) <==> ActiveClass(t, className)
    requires forall k :: (k in s.gateways && s.gateways[k].className == className) <==>
      (k in t.gateways && t.gateways[k].className == className)
    requires forall k :: k in s.gateways && s.gateways[k].className == className ==>
      t.gateways[k] == s.gateways[k] && GatewayInputsOf(s, s.gateways[k]) == GatewayInputsOf(t, s.gateways[k])
    ensures InputsOf(s, className) == InputsOf(t, className)
  {
    if ActiveClass(s, className) {
      assert InputsOf(s, className).gateways == InputsOf(t, className).gateways;
    }
  }

  // A stored gateway's class, found from one of its attached routes.
  lemma AttachedClass(s: Snapshot, k: string, hr: HTTPRoute)
    requires WellFormed(s) && k in s.gateways && hr in AttachedRoutes(s, s.gateways[k])
    ensures s.gateways[k] in GatewayRefs(s, hr)
    ensures RouteKey(hr) in s.routes && s.routes[RouteKey(hr)] == hr
    ensures CleanRoute(hr)
  {
    AttachedIsReferenced(s, s.gateways[k], hr);
  }

  /******* Reference grants *******/

  predicate GrantSpares(s: Snapshot, rg: Option<ReferenceGrant>, className: string) {
    rg.Some? ==> className !in GrantClasses(s, rg.value)
  }

  ghost predicate SameRows(idx: Index, idx2: Index, org: Option<ReferenceGrant>, nrg: Option<ReferenceGrant>) {
    forall f ::
      (org.Some? ==> f !in FromKeys(org.value.from)) && (nrg.Some? ==> f !in FromKeys(nrg.value.from))
      ==> Lookup(idx, f) == Lookup(idx2, f)
  }

  lemma PutRows(idx: Index, grants: Grants, rg: ReferenceGrant)
    ensures SameRows(idx, PutIndex(idx, grants, rg), Lookup(grants, Key(rg.ns, rg.name)), Some(rg))
  {
    var org := Lookup(grants, Key(rg.ns, rg.name));
    var idx0 := RemoveIndex(idx, grants, Key(rg.ns, rg.name));
    forall f | (org.Some? ==> f !in FromKeys(org.value.from)) && f !in FromKeys(rg.from)
      ensures Lookup(idx, f) == Lookup(PutIndex(idx, grants, rg), f)
    {
      if org.Some? { DropPairsFrame(idx, FromKeys(org.value.from), ToKeys(org.value.to, org.value.ns), f); }
      AddPairsFrame(idx0, FromKeys(rg.from), ToKeys(rg.to, rg.ns), f);
    }
  }

  lemma RemoveRows(idx: Index, grants: Grants, k: string)
    ensures SameRows(idx, RemoveIndex(idx, grants, k), Lookup(grants, k), None)
  {
    if k in grants {
      forall f | f !in FromKeys(grants[k].from)
        ensures Lookup(idx, f) == Lookup(RemoveIndex(idx, grants, k), f)
      {
        DropPairsFrame(idx, FromKeys(grants[k].from), ToKeys(grants[k].to, grants[k].ns), f);
      }
    }
  }

  // A grant that does not name objects of this kind and namespace has no from-key of theirs.
  lemma FromKeyNamed(rg: ReferenceGrant, kind: string, ns: string)
    requires CleanGrant(rg) && CleanPart(kind) && CleanPart(ns) && !GrantNames(rg, kind, ns)
    ensures FromKey(GrantFrom(GATEWAY_GROUP, kind, ns)) !in FromKeys(rg.from)
  {
    var me := GrantFrom(GATEWAY_GROUP, kind, ns);
    forall i | 0 <= i < |rg.from| ensures FromKey(rg.from[i]) != FromKey(me) {
      if FromKey(rg.from[i]) == FromKey(me) {
        FromKeyInjective(rg.from[i], me);
        assert NamesKind(rg.from[i], kind, ns);
      }
    }
  }

  lemma ReferrerSame(s: Snapshot, t: Snapshot, org: Option<ReferenceGrant>, nrg: Option<ReferenceGrant>, from: ObjectId)
    requires SameRows(s.index, t.index, org, nrg)
    requires from.group == GATEWAY_GROUP && CleanId(from)
    requires Spares(org, from.kind, from.ns) && Spares(nrg, from.kind, from.ns)
    ensures SameReferrer(s, t, from)
  {
    var f := FromKey(GrantFrom(from.group, from.kind, from.ns));
    if org.Some? { FromKeyNamed(org.value, from.kind, from.ns); }
    if nrg.Some? { FromKeyNamed(nrg.value, from.kind, from.ns); }
    assert Lookup(s.index, f) == Lookup(t.index, f);
  }

  // The grant, if there is one, lists no from-entry for this kind and namespace.
  predicate Spares(rg: Option<ReferenceGrant>, kind: string, ns: string) {
    rg.Some? ==> CleanGrant(rg.value) && !GrantNames(rg.value, kind, ns)
  }

  lemma SparedGateway(s: Snapshot, rg: Option<ReferenceGrant>, k: string)
    requires k in s.gateways && GrantSpares(s, rg, s.gateways[k].className) && (rg.Some? ==> CleanGrant(rg.value))
    ensures Spares(rg, "Gateway", s.gateways[k].ns)
  {
  }

  lemma SparedRoute(s: Snapshot, rg: Option<ReferenceGrant>, k: string, hr: HTTPRoute)
    requires WellFormed(s) && k in s.gateways && hr in AttachedRoutes(s, s.gateways[k])
    requires GrantSpares(s, rg, s.gateways[k].className) && (rg.Some? ==> CleanGrant(rg.value))
    ensures Spares(rg, "HTTPRoute", hr.ns)
  {
    AttachedClass(s, k, hr);
    var h := RouteKey(hr);
    assert s.routes[h] == hr && s.gateways[k] in GatewayRefs(s, s.routes[h]);
  }

  lemma RouteSpared(s: Snapshot, t: Snapshot, org: Option<ReferenceGrant>, nrg: Option<ReferenceGrant>, hr: HTTPRoute)
    requires t == s.(grants := t.grants, index := t.index) && SameRows(s.index, t.index, org, nrg)
    requires CleanRoute(hr) && Spares(org, "HTTPRoute", hr.ns) && Spares(nrg, "HTTPRoute", hr.ns)
    ensures SameRoute(s, t, hr)
  {
    ReferrerSame(s, t, org, nrg, RouteId(hr));
  }

  lemma GrantSparesGateway(s: Snapshot, t: Snapshot, org: Option<ReferenceGrant>, nrg: Option<ReferenceGrant>,
                           k: string)
    requires WellFormed(s) && t == s.(grants := t.grants, index := t.index)
    requires SameRows(s.index, t.index, org, nrg)
    requires (org.Some? ==> CleanGrant(org.value)) && (nrg.Some? ==> CleanGrant(nrg.value))
    requires k in s.gateways && GrantSpares(s, org, s.gateways[k].className) &&
      GrantSpares(s, nrg, s.gateways[k].className)
    ensures GatewayInputsOf(s, s.gateways[k]) == GatewayInputsOf(t, s.gateways[k])
  {
    var gw := s.gateways[k];
    SparedGateway(s, org, k);
    SparedGateway(s, nrg, k);
    ReferrerSame(s, t, org, nrg, GatewayId(gw));
    forall hr | hr in AttachedRoutes(s, gw) ensures SameRoute(s, t, hr) {
      AttachedClass(s, k, hr);
      SparedRoute(s, org, k, hr);
      SparedRoute(s, nrg, k, hr);
      RouteSpared(s, t, org, nrg, hr);
    }
    AttachedRoutesSame(s, t, gw);
    GatewaySame(s, t, gw);
  }

  // Replacing or deleting a grant leaves alone what every class reads that is neither among the
  // classes of the old grant nor of the new. No bound on the counts is needed.
  lemma GrantChangeSound(s: Snapshot, t: Snapshot, org: Option<ReferenceGrant>, nrg: Option<ReferenceGrant>,
                         className: string)
    requires WellFormed(s) && t == s.(grants := t.grants, index := t.index)
    requires SameRows(s.index, t.index, org, nrg)
    requires (org.Some? ==> CleanGrant(org.value)) && (nrg.Some? ==> CleanGrant(nrg.value))
    requires GrantSpares(s, org, className) && GrantSpares(s, nrg, className)
    ensures InputsOf(t, className) == InputsOf(s, className)
  {
    forall k | k in s.gateways && s.gateways[k].className == className
      ensures GatewayInputsOf(s, s.gateways[k]) == GatewayInputsOf(t, s.gateways[k])
    {
      GrantSparesGateway(s, t, org, nrg, k);
    }
    ClassSame(s, t, className);
  }

  lemma AttachedRoutesSame(s: Snapshot, t: Snapshot, gw: Gateway)
    requires s.routes == t.routes && s.namespaces == t.namespaces
    ensures AttachedRoutes(s, gw) == AttachedRoutes(t, gw)
  {
    forall k | k in s.routes ensures Attached(s, gw, s.routes[k]) == Attached(t, gw, s.routes[k]) {
      assert forall pr :: AttachedBy(s, gw, s.routes[k], pr) == AttachedBy(t, gw, s.routes[k], pr);
    }
  }

  /******* HTTP routes *******/

  predicate RouteSpares(s: Snapshot, hr: Option<HTTPRoute>, className: string) {
    hr.Some? ==> className !in ClassNames(GatewayRefs(s, hr.value))
  }

  predicate CleanOption(hr: Option<HTTPRoute>) { hr.Some? ==> CleanRoute(hr.value) && SectionsSet(hr.value) }

  lemma GatewaySpared(s: Snapshot, t: Snapshot, gw: Gateway, k: string)
    requires t == s.(routes := t.routes) && Lookup(s.gateways, GatewayKey(gw)) == Some(gw) && CleanGateway(gw)
    requires forall j :: j != k ==> Lookup(s.routes, j) == Lookup(t.routes, j)
    requires CleanOption(Lookup(s.routes, k)) && CleanOption(Lookup(t.routes, k))
    requires RouteSpares(s, Lookup(s.routes, k), gw.className) && RouteSpares(s, Lookup(t.routes, k), gw.className)
    ensures GatewayInputsOf(s, gw) == GatewayInputsOf(t, gw)
  {
    assert forall hr :: Attached(s, gw, hr) == Attached(t, gw, hr) by {
      assert forall hr, pr :: AttachedBy(s, gw, hr, pr) == AttachedBy(t, gw, hr, pr);
    }
    if k in s.routes && Attached(s, gw, s.routes[k]) { AttachedIsReferenced(s, gw, s.routes[k]); }
    if k in t.routes && Attached(s, gw, t.routes[k]) { AttachedIsReferenced(s, gw, t.routes[k]); }
    AttachedRoutesButOne(s, t, gw, k);
    GatewaySame(s, t, gw);
  }

  // Upserting or deleting a route leaves alone what every class reads that none of the gateways
  // referenced by the old or the new route has.
  lemma RouteChangeSound(s: Snapshot, t: Snapshot, k: string, className: string)
    requires WellFormed(s) && t == s.(routes := t.routes)
    requires forall j :: j != k ==> Lookup(s.routes, j) == Lookup(t.routes, j)
    requires CleanOption(Lookup(s.routes, k)) && CleanOption(Lookup(t.routes, k))
    requires RouteSpares(s, Lookup(s.routes, k), className) && RouteSpares(s, Lookup(t.routes, k), className)
    ensures InputsOf(t, className) == InputsOf(s, className)
  {
    forall j | j in s.gateways && s.gateways[j].className == className
      ensures GatewayInputsOf(s, s.gateways[j]) == GatewayInputsOf(t, s.gateways[j])
    {
      GatewaySpared(s, t, s.gateways[j], k);
    }
    ClassSame(s, t, className);
  }

  lemma AttachedRoutesButOne(s: Snapshot, t: Snapshot, gw: Gateway, k: string)
    requires forall j :: j != k ==> Lookup(s.routes, j) == Lookup(t.routes, j)
    requires forall hr :: Attached(s, gw, hr) == Attached(t, gw, hr)
    requires k in s.routes ==> !Attached(s, gw, s.routes[k])
    requires k in t.routes ==> !Attached(t, gw, t.routes[k])
    ensures AttachedRoutes(s, gw) == AttachedRoutes(t, gw)
  {
    forall hr ensures hr in AttachedRoutes(s, gw) <==> hr in AttachedRoutes(t, gw) {
      if hr in AttachedRoutes(s, gw) {
        var j :| j in s.routes && Attached(s, gw, s.routes[j]) && s.routes[j] == hr;
        assert Lookup(s.routes, j) == Lookup(t.routes, j);
        assert j in t.routes && t.routes[j] == hr;
      }
      if hr in AttachedRoutes(t, gw) {
        var j :| j in t.routes && Attached(t, gw, t.routes[j]) && t.routes[j] == hr;
        assert Lookup(s.routes, j) == Lookup(t.routes, j);
        assert j in s.routes && s.routes[j] == hr;
      }
    }
  }

  /******* Namespaces *******/

  // Any change of one namespace leaves alone what every class reads, except those of gateways that
  // a stored route of the namespace names as a parent.
  lemma NamespaceChangeSound(s: Snapshot, t: Snapshot, ns: string, className: string)
    requires WellFormed(s) && t == s.(namespaces := t.namespaces)
    requires forall n :: n != ns ==> Lookup(s.namespaces, n) == Lookup(t.namespaces, n)
    requires className !in NamespaceClasses(s, ns)
    ensures InputsOf(t, className) == InputsOf(s, className)
  {
    forall j | j in s.gateways && s.gateways[j].className == className
      ensures GatewayInputsOf(s, s.gateways[j]) == GatewayInputsOf(t, s.gateways[j])
    {
      forall k | k in s.routes
        ensures Attached(s, s.gateways[j], s.routes[k]) == Attached(t, s.gateways[j], s.routes[k])
        ensures Attached(s, s.gateways[j], s.routes[k]) ==> s.routes[k].ns != ns
      {
        NamespaceRoute(s, t, ns, j, k);
      }
      NamespaceSpared(s, t, ns, s.gateways[j]);
    }
    ClassSame(s, t, className);
  }

  lemma NamespaceSpared(s: Snapshot, t: Snapshot, ns: string, gw: Gateway)
    requires t == s.(namespaces := t.namespaces)
    requires forall n :: n != ns ==> Lookup(s.namespaces, n) == Lookup(t.namespaces, n)
    requires forall k :: k in s.routes ==> Attached(s, gw, s.routes[k]) == Attached(t, gw, s.routes[k])
    requires forall k :: k in s.routes && Attached(s, gw, s.routes[k]) ==> s.routes[k].ns != ns
    ensures GatewayInputsOf(s, gw) == GatewayInputsOf(t, gw)
  {
    assert AttachedRoutes(s, gw) == AttachedRoutes(t, gw);
    GatewaySame(s, t, gw);
  }

  lemma NamespaceRoute(s: Snapshot, t: Snapshot, ns: string, j: string, k: string)
    requires WellFormed(s) && t == s.(namespaces := t.namespaces)
    requires forall n :: n != ns ==> Lookup(s.namespaces, n) == Lookup(t.namespaces, n)
    requires j in s.gateways && k in s.routes && s.gateways[j].className !in NamespaceClasses(s, ns)
    ensures Attached(s, s.gateways[j], s.routes[k]) == Attached(t, s.gateways[j], s.routes[k])
    ensures Attached(s, s.gateways[j], s.routes[k]) ==> s.routes[k].ns != ns
  {
    var gw, hr := s.gateways[j], s.routes[k];
    forall pr | pr in hr.parentRefs
      ensures AttachedBy(s, gw, hr, pr) == AttachedBy(t, gw, hr, pr)
      ensures AttachedBy(s, gw, hr, pr) ==> hr.ns != ns
    {
      var p := ParentKey(hr, pr);
      assert hr.ns == ns && p in s.gateways ==> s.gateways[p].className in NamespaceClasses(s, ns);
    }
  }

  // A route of the namespace is attached to a gateway of the class, and the class is active.
  predicate NamespaceAt(s: Snapshot, ns: string, gw: Gateway) {
    exists hr :: hr in AttachedRoutes(s, gw) && hr.ns == ns
  }

  predicate UsesNamespace(s: Snapshot, ns: string, className: string) {
    && ActiveClass(s, className)
    && exists j :: j in s.gateways && s.gateways[j].className == className && NamespaceAt(s, ns, s.gateways[j])
  }

  // When a namespace appears or disappears, what a class reads changes if and only if a route of
  // the namespace becomes or was attached to one of its gateways.
  lemma NamespaceChangesIff(s: Snapshot, t: Snapshot, ns: string, className: string)
    requires t == s.(namespaces := t.namespaces) && (ns !in s.namespaces || ns !in t.namespaces)
    requires forall n :: n != ns ==> Lookup(s.namespaces, n) == Lookup(t.namespaces, n)
    ensures InputsOf(t, className) != InputsOf(s, className) <==>
      UsesNamespace(s, ns, className) || UsesNamespace(t, ns, className)
  {
    if UsesNamespace(t, ns, className) {
      UsedNamespaceRead(s, t, ns, className);
    } else if UsesNamespace(s, ns, className) {
      UsedNamespaceRead(t, s, ns, className);
    } else if ActiveClass(s, className) {
      UnusedNamespace(s, t, ns, className);
    }
  }

  lemma UsedNamespaceRead(s: Snapshot, t: Snapshot, ns: string, className: string)
    requires t == s.(namespaces := t.namespaces) && (ns !in s.namespaces || ns !in t.namespaces)
    requires UsesNamespace(t, ns, className)
    ensures InputsOf(t, className) != InputsOf(s, className)
  {
    var j :| j in t.gateways && t.gateways[j].className == className && NamespaceAt(t, ns, t.gateways[j]);
    var hr :| hr in AttachedRoutes(t, t.gateways[j]) && hr.ns == ns;
    assert hr in InputsOf(t, className).gateways[j].routes;
    assert hr !in InputsOf(s, className).gateways[j].routes;
  }

  lemma UnusedNamespace(s: Snapshot, t: Snapshot, ns: string, className: string)
    requires t == s.(namespaces := t.namespaces) && ActiveClass(s, className)
    requires forall n :: n != ns ==> Lookup(s.namespaces, n) == Lookup(t.namespaces, n)
    requires !UsesNamespace(s, ns, className) && !UsesNamespace(t, ns, className)
    ensures InputsOf(t, className) == InputsOf(s, className)
  {
    forall j | j in s.gateways && s.gateways[j].className == className
      ensures GatewayInputsOf(s, s.gateways[j]) == GatewayInputsOf(t, s.gateways[j])
    {
      var gw := s.gateways[j];
      forall k | k in s.routes
        ensures Attached(s, gw, s.routes[k]) == Attached(t, gw, s.routes[k])
        ensures Attached(s, gw, s.routes[k]) ==> s.routes[k].ns != ns
      {
        var hr := s.routes[k];
        if hr.ns == ns {
          assert Attached(s, gw, hr) ==> hr in AttachedRoutes(s, gw);
          assert Attached(t, gw, hr) ==> hr in AttachedRoutes(t, gw);
        } else {
          assert forall pr :: AttachedBy(s, gw, hr, pr) == AttachedBy(t, gw, hr, pr);
        }
      }
      NamespaceSpared(s, t, ns, gw);
    }
    ClassSame(s, t, className);
  }

  /******* Gateways and classes *******/

  lemma InputsIgnoreGateways(s: Snapshot, t: Snapshot, gw: Gateway)
    requires t == s.(gateways := t.gateways, classes := t.classes, endpoints := t.endpoints)
    ensures GatewayInputsOf(t, gw) == GatewayInputsOf(s, gw)
  {
    AttachedRoutesSame(s, t, gw);
    GatewaySame(s, t, gw);
  }

  // Storing or deleting a gateway concerns only its class before and its class after.
  lemma GatewayChangeSound(s: Snapshot, t: Snapshot, k: string, className: string)
    requires t == s.(gateways := t.gateways)
    requires forall j :: j != k ==> Lookup(s.gateways, j) == Lookup(t.gateways, j)
    requires k in s.gateways ==> s.gateways[k].className != className
    requires k in t.gateways ==> t.gateways[k].className != className
    ensures InputsOf(t, className) == InputsOf(s, className)
  {
    forall j
      ensures (j in s.gateways && s.gateways[j].className == className) <==>
        (j in t.gateways && t.gateways[j].className == className)
      ensures j in s.gateways && s.gateways[j].className == className ==>
        t.gateways[j] == s.gateways[j] && GatewayInputsOf(s, s.gateways[j]) == GatewayInputsOf(t, s.gateways[j])
    {
      if j != k { assert Lookup(s.gateways, j) == Lookup(t.gateways, j); }
      if j in s.gateways { InputsIgnoreGateways(s, t, s.gateways[j]); }
    }
    ClassSame(s, t, className);
  }

  // The gateway reconciler stores the new gateway before it looks up the old one, so it deploys
  // only the new class. Of the others, what the class reads changes if and only if it is active
  // and the gateway has left it.
  lemma GatewayUpsertChangesIff(s: Snapshot, gw: Gateway, className: string)
    requires className != gw.className
    ensures var t, k := s.(gateways := s.gateways[GatewayKey(gw) := gw]), GatewayKey(gw);
      InputsOf(t, className) != InputsOf(s, className) <==>
        k in s.gateways && s.gateways[k].className == className && ActiveClass(s, className)
  {
    var t, k := s.(gateways := s.gateways[GatewayKey(gw) := gw]), GatewayKey(gw);
    if k in s.gateways && s.gateways[k].className == className {
      if ActiveClass(s, className) {
        assert k in InputsOf(s, className).gateways && k !in InputsOf(t, className).gateways;
      }
    } else {
      GatewayChangeSound(s, t, k, className);
    }
  }

  lemma ClassChangeSound(s: Snapshot, t: Snapshot, name: string, className: string)
    requires t == s.(classes := t.classes) && className != name
    requires forall n :: n != name ==> Lookup(s.classes, n) == Lookup(t.classes, n)
    ensures InputsOf(t, className) == InputsOf(s, className)
  {
    assert Lookup(s.classes, className) == Lookup(t.classes, className);
    forall k | k in s.gateways ensures GatewayInputsOf(s, s.gateways[k]) == GatewayInputsOf(t, s.gateways[k]) {
      InputsIgnoreGateways(s, t, s.gateways[k]);
    }
    ClassSame(s, t, className);
  }

  lemma EndpointsChangeSound(s: Snapshot, t: Snapshot, className: string)
    requires t == s.(endpoints := t.endpoints)
    ensures InputsOf(t, className) == InputsOf(s, className)
  {
    forall k | k in s.gateways ensures GatewayInputsOf(s, s.gateways[k]) == GatewayInputsOf(t, s.gateways[k]) {
      InputsIgnoreGateways(s, t, s.gateways[k]);
    }
    ClassSame(s, t, className);
  }

  /******* Secrets *******/

  lemma {:induction false} UnusedRefs(s: Snapshot, gw: Gateway, refs: seq<CertificateRef>, scrt: Secret)
    requires FindInRefs(s, gw, refs, scrt).Unused?
    ensures forall ref :: ref in refs ==> !RefersToSecret(gw, ref, scrt)
    decreases |refs|
  {
    if refs != [] {
      UnusedRefs(s, gw, refs[1..], scrt);
      assert forall ref :: ref in refs ==> ref == refs[0] || ref in refs[1..];
    }
  }

  lemma {:induction false} UnusedListeners(s: Snapshot, gw: Gateway, listeners: seq<Listener>, scrt: Secret)
    requires FindInListeners(s, gw, listeners, scrt).Unused?
    ensures forall ls, ref :: ls in listeners && ref in References(ls) ==> !RefersToSecret(gw, ref, scrt)
    decreases |listeners|
  {
    if listeners != [] {
      UnusedListeners(s, gw, listeners[1..], scrt);
      assert forall ls :: ls in listeners ==> ls == listeners[0] || ls in listeners[1..];
      if References(listeners[0]) != [] {
        UnusedRefs(s, gw, References(listeners[0]), scrt);
      }
    }
  }

  // Storing a secret that no gateway uses wrongly leaves alone what every class reads that has no
  // gateway using it.
  lemma SecretSpared(s: Snapshot, t: Snapshot, gw: Gateway, scrt: Secret)
    requires t == s.(secrets := s.secrets[Key(scrt.ns, scrt.name) := scrt])
    requires CleanGateway(gw) && LabelName(scrt.ns) && FindSecret(s, gw, scrt).Unused?
    ensures GatewayInputsOf(s, gw) == GatewayInputsOf(t, gw)
  {
    UnusedListeners(s, gw, gw.listeners, scrt);
    forall ls, ref | ls in gw.listeners && ref in References(ls) ensures SameSecret(s, t, gw, ref) {
      assert !RefersToSecret(gw, ref, scrt);
      if Key(RefNs(gw, ref), ref.name) == Key(scrt.ns, scrt.name) {
        KeyInjective(RefNs(gw, ref), ref.name, scrt.ns, scrt.name);
      }
    }
    AttachedRoutesSame(s, t, gw);
    GatewaySame(s, t, gw);
  }

  lemma SecretChangeSound(s: Snapshot, scrt: Secret, className: string)
    requires WellFormed(s) && LabelName(scrt.ns) && !SecretRejected(s, scrt)
    requires forall gw :: gw in SecretUsers(s, scrt) ==> gw.className != className
    ensures InputsOf(s.(secrets := s.secrets[Key(scrt.ns, scrt.name) := scrt]), className) == InputsOf(s, className)
  {
    var t := s.(secrets := s.secrets[Key(scrt.ns, scrt.name) := scrt]);
    forall k | k in s.gateways && s.gateways[k].className == className
      ensures GatewayInputsOf(s, s.gateways[k]) == GatewayInputsOf(t, s.gateways[k])
    {
      assert FindSecret(s, s.gateways[k], scrt).Unused?;
      SecretSpared(s, t, s.gateways[k], scrt);
    }
    ClassSame(s, t, className);
  }

  predicate ListenerUses(gw: Gateway, ls: Listener, k: string) {
    exists ref :: ref in References(ls) && Key(RefNs(gw, ref), ref.name) == k
  }

  predicate UsesSecret(gw: Gateway, k: string) {
    exists ls :: ls in gw.listeners && ListenerUses(gw, ls, k)
  }

  lemma {:induction false} RefSecretsAt(s: Snapshot, gw: Gateway, refs: seq<CertificateRef>, i: nat)
    requires RefSecrets(s, gw, refs).Some? && i < |refs|
    ensures |RefSecrets(s, gw, refs).value| == |refs|
    ensures var k := Key(RefNs(gw, refs[i]), refs[i].name);
      k in s.secrets && RefSecrets(s, gw, refs).value[i] == s.secrets[k]
  {
    var init := refs[..|refs| - 1];
    if init != [] {
      RefSecretsAt(s, gw, init, if i < |init| then i else 0);
    }
  }

  // Both lists of a listener are as long as its references, and differ at one to a changed secret.
  lemma ListenerSecretsDiffer(s: Snapshot, t: Snapshot, gw: Gateway, ls: Listener, k: string)
    requires ListenerSecrets(s, gw, ls).Some? && ListenerSecrets(t, gw, ls).Some?
    ensures |ListenerSecrets(s, gw, ls).value| == |ListenerSecrets(t, gw, ls).value|
    ensures Lookup(s.secrets, k) != Lookup(t.secrets, k) && ListenerUses(gw, ls, k)
      ==> ListenerSecrets(s, gw, ls).value != ListenerSecrets(t, gw, ls).value
  {
    var refs := References(ls);
    if refs != [] {
      RefSecretsAt(s, gw, refs, 0);
      RefSecretsAt(t, gw, refs, 0);
    }
    if i :| 0 <= i < |refs| && Key(RefNs(gw, refs[i]), refs[i].name) == k {
      RefSecretsAt(s, gw, refs, i);
      RefSecretsAt(t, gw, refs, i);
    }
  }

  // Two maps of lists of equal lengths differ after the same key has got more in both, if they
  // differed before or get different lists.
  predicate SameLengths(m: map<string, seq<Secret>>, n: map<string, seq<Secret>>) {
    m.Keys == n.Keys && forall k :: k in m ==> |m[k]| == |n[k]|
  }

  function More(m: map<string, seq<Secret>>, name: string, scrts: seq<Secret>): map<string, seq<Secret>> {
    m[name := GetOr(Lookup(m, name), []) + scrts]
  }

  lemma MoreDiffers(m: map<string, seq<Secret>>, n: map<string, seq<Secret>>, name: string, a: seq<Secret>,
                    b: seq<Secret>)
    requires SameLengths(m, n) && |a| == |b|
    ensures SameLengths(More(m, name, a), More(n, name, b))
    ensures More(m, name, a) == More(n, name, b) <==> m == n && a == b
  {
    var x, y := GetOr(Lookup(m, name), []), GetOr(Lookup(n, name), []);
    var m2, n2 := More(m, name, a), More(n, name, b);
    if m2 == n2 {
      assert m2[name] == x + a && n2[name] == y + b;
      assert (x + a)[..|x|] == x && (y + b)[..|y|] == y && (x + a)[|x|..] == a && (y + b)[|y|..] == b;
      forall k | k in m ensures m[k] == n[k] {
        if k != name { assert m2[k] == m[k] && n2[k] == n[k]; }
      }
    }
  }

  lemma {:induction false} SecretMapDiffers(s: Snapshot, t: Snapshot, gw: Gateway, listeners: seq<Listener>, k: string)
    requires SecretMap(s, gw, listeners).Some? && SecretMap(t, gw, listeners).Some?
    requires Lookup(s.secrets, k) != Lookup(t.secrets, k)
    ensures SameLengths(SecretMap(s, gw, listeners).value, SecretMap(t, gw, listeners).value)
    ensures (exists ls :: ls in listeners && ListenerUses(gw, ls, k))
      ==> SecretMap(s, gw, listeners) != SecretMap(t, gw, listeners)
  {
    if listeners != [] {
      var init, last := listeners[..|listeners| - 1], listeners[|listeners| - 1];
      assert listeners == init + [last];
      SecretMapDiffers(s, t, gw, init, k);
      ListenerSecretsDiffer(s, t, gw, last, k);
      MoreDiffers(SecretMap(s, gw, init).value, SecretMap(t, gw, init).value, NameOfListener(gw, last),
                  ListenerSecrets(s, gw, last).value, ListenerSecrets(t, gw, last).value);
    }
  }

  // The gateway uses the secret, and all its certificates are usable before the change or after it.
  predicate SecretMatters(s: Snapshot, t: Snapshot, k: string, gw: Gateway) {
    UsesSecret(gw, k) && (AttachedSecrets(s, gw).Some? || AttachedSecrets(t, gw).Some?)
  }

  predicate ReadsSecret(s: Snapshot, t: Snapshot, k: string, className: string) {
    && ActiveClass(s, className)
    && exists j :: j in s.gateways && s.gateways[j].className == className && SecretMatters(s, t, k, s.gateways[j])
  }

  lemma GatewaySecretIff(s: Snapshot, t: Snapshot, k: string, gw: Gateway)
    requires t == s.(secrets := t.secrets) && forall j :: j != k ==> Lookup(s.secrets, j) == Lookup(t.secrets, j)
    requires Lookup(s.secrets, k) != Lookup(t.secrets, k)
    ensures GatewayInputsOf(s, gw) != GatewayInputsOf(t, gw) <==> SecretMatters(s, t, k, gw)
  {
    AttachedRoutesSame(s, t, gw);
    if !UsesSecret(gw, k) {
      GatewaySame(s, t, gw);
    } else if AttachedSecrets(s, gw).Some? && AttachedSecrets(t, gw).Some? {
      SecretMapDiffers(s, t, gw, gw.listeners, k);
    } else if AttachedSecrets(s, gw).None? && AttachedSecrets(t, gw).None? {
      RoutesSame(s, t, gw);
    }
  }

  // When a secret is stored or removed, what a class reads changes if and only if the stored value
  // changes and the class reads it.
  lemma SecretChangesIff(s: Snapshot, t: Snapshot, k: string, className: string)
    requires t == s.(secrets := t.secrets) && forall j :: j != k ==> Lookup(s.secrets, j) == Lookup(t.secrets, j)
    ensures InputsOf(t, className) != InputsOf(s, className) <==>
      Lookup(s.secrets, k) != Lookup(t.secrets, k) && ReadsSecret(s, t, k, className)
  {
    if Lookup(s.secrets, k) == Lookup(t.secrets, k) {
      assert forall j :: Lookup(s.secrets, j) == Lookup(t.secrets, j);
      assert s.secrets == t.secrets by {
        forall j ensures j in s.secrets <==> j in t.secrets
                 ensures j in s.secrets ==> s.secrets[j] == t.secrets[j] {
          assert Lookup(s.secrets, j) == Lookup(t.secrets, j);
        }
      }
      assert t == s;
    } else if ActiveClass(s, className) {
      ActiveChangesIff(s, t, className);
      forall j ensures ChangedIn(s, t, className, j) <==>
        j in s.gateways && s.gateways[j].className == className && SecretMatters(s, t, k, s.gateways[j])
      {
        if j in s.gateways { GatewaySecretIff(s, t, k, s.gateways[j]); }
      }
      assert ReadsSecret(s, t, k, className) <==> exists j :: ChangedIn(s, t, className, j);
    }
  }

  predicate ChangedIn(s: Snapshot, t: Snapshot, className: string, j: string) {
    && j in s.gateways && s.gateways[j].className == className
    && GatewayInputsOf(s, s.gateways[j]) != GatewayInputsOf(t, s.gateways[j])
  }

  // What an active class reads changes if and only if what one of its gateways reads does.
  lemma ActiveChangesIff(s: Snapshot, t: Snapshot, className: string)
    requires ActiveClass(s, className) && ActiveClass(t, className) && t.gateways == s.gateways
    ensures InputsOf(t, className) != InputsOf(s, className) <==> exists j :: ChangedIn(s, t, className, j)
  {
    var a, b := InputsOf(s, className).gateways, InputsOf(t, className).gateways;
    if j :| ChangedIn(s, t, className, j) {
      assert a[j] == GatewayInputsOf(s, s.gateways[j]) && b[j] == GatewayInputsOf(t, s.gateways[j]);
    } else {
      forall j | j in a ensures a[j] == b[j] {
        assert !ChangedIn(s, t, className, j);
      }
      assert a == b;
    }
  }

  /******* Services *******/

  // The route names the service in a backend reference.
  predicate BackendOf(hr: HTTPRoute, k: string) {
    exists rule, br :: rule in hr.rules && br in rule.backendRefs && BackendKey(hr, br) == k
  }

  // Two snapshots that differ in one service, which only the second lets the route use.
  ghost predicate Opens(s: Snapshot, t: Snapshot, hr: HTTPRoute, k: string) {
    && ForbiddenKey(s, hr, k) && !ForbiddenKey(t, hr, k)
    && forall j :: j != k ==> ForbiddenKey(s, hr, j) == ForbiddenKey(t, hr, j)
  }

  lemma {:induction false} PoolWeightsGrow(s: Snapshot, t: Snapshot, hr: HTTPRoute, brs: seq<BackendRef>, k: string)
    requires Opens(s, t, hr, k)
    ensures |PoolWeights(s, hr, brs)| <= |PoolWeights(t, hr, brs)|
    ensures (exists br :: br in brs && BackendKey(hr, br) == k) ==>
      |PoolWeights(s, hr, brs)| < |PoolWeights(t, hr, brs)|
  {
    if brs != [] {
      var init, last := brs[..|brs| - 1], brs[|brs| - 1];
      assert brs == init + [last];
      PoolWeightsGrow(s, t, hr, init, k);
    }
  }

  lemma {:induction false} RulesOfSome(s: Snapshot, t: Snapshot, hr: HTTPRoute, rules: seq<Rule>)
    ensures RulesOf(s, hr, rules).Some? <==> RulesOf(t, hr, rules).Some?
  {
    if rules != [] {
      RulesOfSome(s, t, hr, rules[..|rules| - 1]);
    }
  }

  lemma OpenedProgramDiffers(s: Snapshot, t: Snapshot, hr: HTTPRoute, k: string)
    requires Opens(s, t, hr, k) && BackendOf(hr, k) && RouteProgram(s, hr).Some?
    ensures RouteProgram(t, hr).Some? && RouteProgram(s, hr) != RouteProgram(t, hr)
  {
    var rule, br :| rule in hr.rules && br in rule.backendRefs && BackendKey(hr, br) == k;
    var i :| 0 <= i < |hr.rules| && hr.rules[i] == rule;
    RulesOfSome(s, t, hr, hr.rules);
    RulesOfLength(s, hr, hr.rules);
    RulesOfLength(t, hr, hr.rules);
    RulesOfAt(s, hr, hr.rules, i);
    RulesOfAt(t, hr, hr.rules, i);
    PoolWeightsGrow(s, t, hr, rule.backendRefs, k);
  }

  lemma {:induction false} WeightsUnmoved(s: Snapshot, t: Snapshot, hr: HTTPRoute, brs: seq<BackendRef>)
    requires forall br :: br in brs ==> Forbidden(s, hr, br) == Forbidden(t, hr, br)
    ensures PoolWeights(s, hr, brs) == PoolWeights(t, hr, brs)
  {
    if brs != [] {
      WeightsUnmoved(s, t, hr, brs[..|brs| - 1]);
    }
  }

  lemma {:induction false} RulesUnmoved(s: Snapshot, t: Snapshot, hr: HTTPRoute, rules: seq<Rule>)
    requires forall rule, br :: rule in rules && br in rule.backendRefs ==> Forbidden(s, hr, br) == Forbidden(t, hr, br)
    ensures RulesOf(s, hr, rules) == RulesOf(t, hr, rules)
  {
    if rules != [] {
      var last := rules[|rules| - 1];
      RulesUnmoved(s, t, hr, rules[..|rules| - 1]);
      assert last in rules;
      WeightsUnmoved(s, t, hr, last.backendRefs);
    }
  }

  // The route has a program and a reference to the service, and whether it may use it changes:
  // a service it may not refer to appears or disappears.
  predicate Repooled(s: Snapshot, t: Snapshot, hr: HTTPRoute, k: string) {
    BackendOf(hr, k) && ForbiddenKey(s, hr, k) != ForbiddenKey(t, hr, k) && RouteProgram(s, hr).Some?
  }

  lemma ProgramChangesIff(s: Snapshot, t: Snapshot, hr: HTTPRoute, k: string)
    requires t == s.(services := t.services) && forall j :: j != k ==> Lookup(s.services, j) == Lookup(t.services, j)
    ensures RouteProgram(s, hr) != RouteProgram(t, hr) <==> Repooled(s, t, hr, k)
  {
    forall j | j != k ensures ForbiddenKey(s, hr, j) == ForbiddenKey(t, hr, j) {
      assert Lookup(s.services, j) == Lookup(t.services, j);
    }
    RulesOfSome(s, t, hr, hr.rules);
    if Repooled(s, t, hr, k) {
      if ForbiddenKey(s, hr, k) { OpenedProgramDiffers(s, t, hr, k); } else { OpenedProgramDiffers(t, s, hr, k); }
    } else if RouteProgram(s, hr).Some? {
      RulesUnmoved(s, t, hr, hr.rules);
    }
  }

  predicate RepooledAt(s: Snapshot, t: Snapshot, k: string, gw: Gateway) {
    exists hr :: hr in AttachedRoutes(s, gw) && Repooled(s, t, hr, k)
  }

  predicate ReadsService(s: Snapshot, t: Snapshot, k: string, className: string) {
    && ActiveClass(s, className)
    && exists j :: j in s.gateways && s.gateways[j].className == className && RepooledAt(s, t, k, s.gateways[j])
  }

  lemma RepooledRead(s: Snapshot, t: Snapshot, k: string, gw: Gateway, hr: HTTPRoute)
    requires t == s.(services := t.services) && forall j :: j != k ==> Lookup(s.services, j) == Lookup(t.services, j)
    requires hr in AttachedRoutes(s, gw) && Repooled(s, t, hr, k)
    ensures GatewayInputsOf(s, gw) != GatewayInputsOf(t, gw)
  {
    AttachedRoutesSame(s, t, gw);
    ProgramChangesIff(s, t, hr, k);
    assert GatewayInputsOf(s, gw).routes[hr].program == RouteProgram(s, hr);
    assert GatewayInputsOf(t, gw).routes[hr].program == RouteProgram(t, hr);
  }

  lemma NotRepooledSame(s: Snapshot, t: Snapshot, k: string, gw: Gateway)
    requires t == s.(services := t.services) && forall j :: j != k ==> Lookup(s.services, j) == Lookup(t.services, j)
    requires !RepooledAt(s, t, k, gw)
    ensures GatewayInputsOf(s, gw) == GatewayInputsOf(t, gw)
  {
    AttachedRoutesSame(s, t, gw);
    SecretMapSame(s, t, gw, gw.listeners);
    forall hr | hr in AttachedRoutes(s, gw) ensures ReadsAlike(s, t, hr) {
      ProgramChangesIff(s, t, hr, k);
    }
    RouteMapSame(s, t, gw);
  }

  lemma GatewayServiceIff(s: Snapshot, t: Snapshot, k: string, gw: Gateway)
    requires t == s.(services := t.services) && forall j :: j != k ==> Lookup(s.services, j) == Lookup(t.services, j)
    ensures GatewayInputsOf(s, gw) != GatewayInputsOf(t, gw) <==> RepooledAt(s, t, k, gw)
  {
    if RepooledAt(s, t, k, gw) {
      var hr :| hr in AttachedRoutes(s, gw) && Repooled(s, t, hr, k);
      RepooledRead(s, t, k, gw, hr);
    } else {
      NotRepooledSame(s, t, k, gw);
    }
  }

  // When a service is stored or removed, what a class reads changes if and only if an attached
  // route with a program is repooled.
  lemma ServiceChangesIff(s: Snapshot, t: Snapshot, k: string, className: string)
    requires t == s.(services := t.services) && forall j :: j != k ==> Lookup(s.services, j) == Lookup(t.services, j)
    ensures InputsOf(t, className) != InputsOf(s, className) <==> ReadsService(s, t, k, className)
  {
    if ActiveClass(s, className) {
      ActiveChangesIff(s, t, className);
      forall j ensures ChangedIn(s, t, className, j) <==>
        j in s.gateways && s.gateways[j].className == className && RepooledAt(s, t, k, s.gateways[j])
      {
        if j in s.gateways { GatewayServiceIff(s, t, k, s.gateways[j]); }
      }
      assert ReadsService(s, t, k, className) <==> exists j :: ChangedIn(s, t, className, j);
    }
  }
}
