/** Which services a route uses, and whose pools are therefore deployed, said in terms of the
    route's references and of the stored grants. */
module ServiceUse {
  import opened Common
  import opened Names
  import opened Objects
  import opened GrantIndex
  import opened Snapshots
  import opened IRules
  import opened Pools
  import opened Webhooks
  import opened Reachability
  import opened Pooling

  // A reference to a backend, or an extension reference to a core Service, names the service.
  predicate NamesBackend(hr: HTTPRoute, br: BackendRef, svc: Service) {
    br.name == svc.name && (br.ns == Some(svc.ns) || (br.ns.None? && hr.ns == svc.ns))
  }

  predicate NamesExtension(hr: HTTPRoute, fl: Filter, svc: Service) {
    fl.kind == ExtensionFilter && fl.extension == Some(ExtensionRef("", "Service", svc.name)) && hr.ns == svc.ns
  }

  predicate RuleNames(hr: HTTPRoute, rule: Rule, svc: Service) {
    BackendNamed(hr, rule.backendRefs, svc) || ExtensionNamed(hr, rule.filters, svc)
  }

  predicate BackendNamed(hr: HTTPRoute, brs: seq<BackendRef>, svc: Service) {
    exists br :: br in brs && NamesBackend(hr, br, svc)
  }

  predicate ExtensionNamed(hr: HTTPRoute, fls: seq<Filter>, svc: Service) {
    exists fl :: fl in fls && NamesExtension(hr, fl, svc)
  }

  predicate RouteNames(hr: HTTPRoute, svc: Service) { RulesName(hr, hr.rules, svc) }

  predicate RulesName(hr: HTTPRoute, rules: seq<Rule>, svc: Service) {
    exists rule :: rule in rules && RuleNames(hr, rule, svc)
  }

  // The grant is in the service's namespace, and lets HTTP routes of the namespace use it.
  predicate Grants(rg: ReferenceGrant, ns: string, svc: Service) {
    && rg.ns == svc.ns
    && GrantFrom("gateway.networking.k8s.io", "HTTPRoute", ns) in rg.from
    && (GrantTo("", "Service", Some(svc.name)) in rg.to || GrantTo("", "Service", None) in rg.to)
  }

  // A route may use services of its own namespace, and those that a stored grant allows.
  predicate MayUse(s: Snapshot, hr: HTTPRoute, svc: Service) {
    hr.ns == svc.ns || exists k :: k in s.grants && Grants(s.grants[k], hr.ns, svc)
  }

  ghost predicate ExactIndex(s: Snapshot) { Exact(s.index, s.grants) && CleanGrants(s.grants) }

  predicate CleanRules(hr: HTTPRoute) { forall rule :: rule in hr.rules ==> CleanBackends(hr, rule.backendRefs) }

  ghost predicate ListsStored(rgs: seq<ReferenceGrant>, grants: GrantIndex.Grants) {
    forall rg :: rg in rgs <==> exists k :: k in grants && grants[k] == rg
  }

  lemma {:induction false} SomeList(grants: GrantIndex.Grants) returns (rgs: seq<ReferenceGrant>)
    ensures ListsStored(rgs, grants)
    decreases |grants|
  {
    rgs := [];
    if grants != map[] {
      var k :| k in grants;
      var rest := SomeList(grants - {k});
      rgs := rest + [grants[k]];
      forall rg ensures rg in rgs <==> exists j :: j in grants && grants[j] == rg {
        if j :| j in grants && grants[j] == rg {
          if j != k { assert j in grants - {k}; }
        }
      }
    }
  }

  // On an exact index the controller allows just this.
  lemma MayUseIff(s: Snapshot, hr: HTTPRoute, svc: Service)
    requires ExactIndex(s) && CleanRoute(hr) && LabelName(svc.ns) && ObjectName(svc.name)
    ensures CanRefer(s.index, RouteId(hr), ServiceId(svc)) <==> MayUse(s, hr, svc)
  {
    var all := SomeList(s.grants);
    var rgs := InNamespace(all, svc.ns);
    assert ListsNamespace(rgs, s.grants, svc.ns);
    RouteIdClean(hr);
    IndexAgreesWithScan(s.index, s.grants, rgs, RouteId(hr), ServiceId(svc));
    ScanIs(rgs, RouteId(hr), ServiceId(svc));
    forall rg ensures ListsReference(rg, RouteId(hr), ServiceId(svc)) && rg.ns == svc.ns <==> Grants(rg, hr.ns, svc) {
    }
    if rg :| rg in rgs && ListsReference(rg, RouteId(hr), ServiceId(svc)) {
      assert Grants(rg, hr.ns, svc);
      var k :| k in s.grants && s.grants[k] == rg;
    }
    if k :| k in s.grants && Grants(s.grants[k], hr.ns, svc) {
      assert s.grants[k] in rgs && ListsReference(s.grants[k], RouteId(hr), ServiceId(svc));
    }
  }

  lemma RouteIdClean(hr: HTTPRoute)
    requires CleanRoute(hr)
    ensures CleanId(RouteId(hr))
  {
    assert CleanPart(GATEWAY_GROUP) by { assert GATEWAY_GROUP[0] == 'g'; }
    assert CleanPart("HTTPRoute");
  }

  /******* The services attached to a route *******/

  lemma {:induction false} InBackends(s: Snapshot, hr: HTTPRoute, brs: seq<BackendRef>, svc: Service)
    requires Keyed(s) && StoredService(s, svc) && LabelName(svc.ns) && CleanBackends(hr, brs)
    ensures svc in BackendServices(s, hr, brs) <==>
      BackendNamed(hr, brs, svc) && CanRefer(s.index, RouteId(hr), ServiceId(svc))
  {
    if brs != [] {
      var init, br := brs[..|brs| - 1], brs[|brs| - 1];
      assert brs == init + [br];
      InBackends(s, hr, init, svc);
      assert BackendNamed(hr, brs, svc) <==> BackendNamed(hr, init, svc) || NamesBackend(hr, br, svc);
      assert NamesBackend(hr, br, svc) <==> BackendKey(hr, br) == ServiceKey(svc) by {
        if BackendKey(hr, br) == ServiceKey(svc) { KeyInjective(BackendNs(hr, br), br.name, svc.ns, svc.name); }
      }
      FoundByKey(s, hr, BackendKey(hr, br), svc);
    }
  }

  // What a key adds to the services of a route.
  function Found(s: Snapshot, hr: HTTPRoute, k: string): seq<Service> {
    if k in s.services && CanRefer(s.index, RouteId(hr), ServiceId(s.services[k])) then [s.services[k]] else []
  }

  lemma FoundByKey(s: Snapshot, hr: HTTPRoute, k: string, svc: Service)
    requires Keyed(s) && StoredService(s, svc)
    ensures svc in Found(s, hr, k) <==> k == ServiceKey(svc) && CanRefer(s.index, RouteId(hr), ServiceId(svc))
  {
    if k in s.services { assert k == ServiceKey(s.services[k]); }
  }

  lemma {:induction false} InFilters(s: Snapshot, hr: HTTPRoute, fls: seq<Filter>, svc: Service)
    requires Keyed(s) && StoredService(s, svc) && LabelName(svc.ns) && CleanRoute(hr)
    ensures svc in FilterServices(s, hr, fls) <==>
      ExtensionNamed(hr, fls, svc) && CanRefer(s.index, RouteId(hr), ServiceId(svc))
  {
    if fls != [] {
      var init, fl := fls[..|fls| - 1], fls[|fls| - 1];
      assert fls == init + [fl];
      InFilters(s, hr, init, svc);
      assert ExtensionNamed(hr, fls, svc) <==> ExtensionNamed(hr, init, svc) || NamesExtension(hr, fl, svc);
      if NamesService(fl) {
        var k := Key(hr.ns, fl.extension.value.name);
        if k == ServiceKey(svc) { KeyInjective(hr.ns, fl.extension.value.name, svc.ns, svc.name); }
        FoundByKey(s, hr, k, svc);
      }
    }
  }

  lemma {:induction false} InRules(s: Snapshot, hr: HTTPRoute, rules: seq<Rule>, svc: Service)
    requires Keyed(s) && StoredService(s, svc) && LabelName(svc.ns) && CleanRoute(hr)
    requires forall rule :: rule in rules ==> CleanBackends(hr, rule.backendRefs)
    ensures svc in AllBackends(s, hr, rules) || svc in AllExtensions(s, hr, rules) <==>
      RulesName(hr, rules, svc) && CanRefer(s.index, RouteId(hr), ServiceId(svc))
  {
    if rules != [] {
      var init, rule := rules[..|rules| - 1], rules[|rules| - 1];
      assert rules == init + [rule];
      InRules(s, hr, init, svc);
      InBackends(s, hr, rule.backendRefs, svc);
      InFilters(s, hr, rule.filters, svc);
      assert RulesName(hr, rules, svc) <==> RulesName(hr, init, svc) || RuleNames(hr, rule, svc);
    }
  }

  // A stored service is attached to a route exactly if the route names it and may use it.
  lemma AttachedServiceIff(s: Snapshot, hr: HTTPRoute, svc: Service)
    requires WellFormed(s) && ExactIndex(s) && StoredService(s, svc) && CleanRoute(hr) && CleanRules(hr)
    ensures svc in AttachedServices(s, hr) <==> RouteNames(hr, svc) && MayUse(s, hr, svc)
  {
    InRules(s, hr, hr.rules, svc);
    MayUseIff(s, hr, svc);
  }

  /******* The services of classes *******/

  // A stored gateway of the class has an attached route that names the service and may use it.
  ghost predicate UsedIn(s: Snapshot, className: string, svc: Service) {
    exists k :: k in s.gateways && s.gateways[k].className == className && UsedAt(s, s.gateways[k], svc)
  }

  ghost predicate UsedAt(s: Snapshot, gw: Gateway, svc: Service) {
    exists hr :: hr in AttachedRoutes(s, gw) && RouteNames(hr, svc) && MayUse(s, hr, svc)
  }

  ghost predicate AllRulesClean(s: Snapshot) { forall k :: k in s.routes ==> CleanRules(s.routes[k]) }

  lemma RelatedIff(s: Snapshot, className: string, svc: Service)
    requires WellFormed(s) && ExactIndex(s) && AllRulesClean(s) && StoredService(s, svc)
    ensures svc in RelatedServices(s, className) <==> UsedIn(s, className, svc)
  {
    forall gw ensures svc in GatewayServices(s, gw) <==> UsedAt(s, gw, svc) {
      UsedAtIff(s, gw, svc);
    }
    if svc in RelatedServices(s, className) {
      var gw :| gw in GatewaysOf(s, className) && svc in GatewayServices(s, gw);
      var k :| k in s.gateways && s.gateways[k].className == className && s.gateways[k] == gw;
    }
    if k :| k in s.gateways && s.gateways[k].className == className && UsedAt(s, s.gateways[k], svc) {
      assert s.gateways[k] in GatewaysOf(s, className) && svc in GatewayServices(s, s.gateways[k]);
    }
  }

  lemma UsedAtIff(s: Snapshot, gw: Gateway, svc: Service)
    requires WellFormed(s) && ExactIndex(s) && AllRulesClean(s) && StoredService(s, svc)
    ensures svc in GatewayServices(s, gw) <==> UsedAt(s, gw, svc)
  {
    forall hr | hr in AttachedRoutes(s, gw)
      ensures svc in AttachedServices(s, hr) <==> RouteNames(hr, svc) && MayUse(s, hr, svc)
    {
      AttachedServiceIff(s, hr, svc);
    }
  }

  // A deployment of classes is for the stored services used in one of them that is known,
  lemma RelatedKeysIff(s: Snapshot, classes: set<string>, k: string)
    requires WellFormed(s) && ExactIndex(s) && AllRulesClean(s)
    ensures k in RelatedKeys(s, classes) <==>
      k in s.services && exists c :: c in classes && c in s.classes && UsedIn(s, c, s.services[k])
  {
    if k in RelatedKeys(s, classes) {
      var c, svc :| c in classes && c in s.classes && svc in RelatedServices(s, c) && k == ServiceKey(svc);
      RelatedStored(s, c, svc);
      RelatedIff(s, c, svc);
    }
    if k in s.services {
      if c :| c in classes && c in s.classes && UsedIn(s, c, s.services[k]) {
        RelatedIff(s, c, s.services[k]);
      }
    }
  }

  // and one of backends for the namespace's services used in any known class.
  lemma BackendKeysIff(s: Snapshot, ns: string, k: string)
    requires WellFormed(s) && Unambiguous(s) && ExactIndex(s) && AllRulesClean(s)
    ensures k in BackendKeys(s, ns) <==>
      k in s.services && s.services[k].ns == ns && exists c :: c in s.classes && UsedIn(s, c, s.services[k])
  {
    BackendKeysRelated(s, ns, k);
    if k in s.services {
      forall c ensures s.services[k] in RelatedServices(s, c) <==> UsedIn(s, c, s.services[k]) {
        RelatedIff(s, c, s.services[k]);
      }
    }
  }
}
