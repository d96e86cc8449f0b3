/** What a rendered resource refers to is deployed with it, and when it is not. */
module Closure {
  import opened Common
  import opened Names
  import opened Objects
  import opened Snapshots
  import opened IRules
  import opened Rendering
  import opened RenderExact
  import opened Pooling
  import opened Reachability

  /******* iRules and profiles of virtuals *******/

  // The iRules that the virtual lists, and the client-ssl profile it names, are resources of res.
  predicate RulesDeclared(res: Resources, r: Resource) {
    r.Virtual? ==> forall x :: x in r.iRules ==> RuleKey(x) in res
  }

  predicate ProfileDeclared(res: Resources, r: Resource) {
    r.Virtual? && r.serverTLS.Some? ==> ProfileKey(r.serverTLS.value) in res
  }

  predicate Closed(res: Resources) {
    forall k :: k in res ==> RulesDeclared(res, res[k]) && ProfileDeclared(res, res[k])
  }

  predicate HasCertificates(g: GatewayInputs, ls: Listener) {
    NameOfListener(g.gateway, ls) in SecretsAt(g) && SecretsAt(g)[NameOfListener(g.gateway, ls)] != []
  }

  // A virtual's listener is HTTPS and has no certificates: it passes TLS through, or lists none.
  predicate Bare(g: GatewayInputs, ls: Listener) {
    ls in g.gateway.listeners && g.gateway.addresses != [] && ls.protocol.HTTPS? && !HasCertificates(g, ls)
  }

  lemma ProfileDeclaredIff(gateways: map<string, GatewayInputs>, order: seq<GatewayOrder>, key: string, ls: Listener)
    requires ValidOrder(gateways, order) && !Fails(Active(gateways)) && Plain(gateways)
    requires key in gateways && ls in gateways[key].gateway.listeners
    ensures ProfileKey(NameOfListener(gateways[key].gateway, ls)) in ClassResources(gateways, order) <==>
      HasCertificates(gateways[key], ls)
  {
    var name := NameOfListener(gateways[key].gateway, ls);
    var profile := ProfileOrigin(key, name);
    if HasCertificates(gateways[key], ls) {
      Present(gateways, order, key, profile);
    }
    if ProfileKey(name) in ClassResources(gateways, order) {
      var key2, o := Explain(gateways, order, ProfileKey(name));
      TypesDiffer(profile, o, name, OriginName(gateways[key2], o));
      var ls2 := ListenerOf(gateways[key2], o.name);
      ListenersDiffer(gateways, key, ls, key2, ls2);
    }
  }

  lemma VirtualRules(gateways: map<string, GatewayInputs>, order: seq<GatewayOrder>, key: string, ls: Listener,
                     i: nat, x: string)
    requires ValidOrder(gateways, order) && !Fails(Active(gateways)) && Plain(gateways)
    requires key in gateways && ls in gateways[key].gateway.listeners && i < |gateways[key].gateway.addresses|
    requires var found := Lookup(ClassResources(gateways, order), VirtualKeyOf(gateways[key].gateway, ls, i));
      found.Some? && found.value.Virtual? && x in found.value.iRules
    ensures RuleKey(x) in ClassResources(gateways, order)
  {
    var g := gateways[key];
    VirtualsExact(gateways, order, key, ls, i);
    if x == NameOfListener(g.gateway, ls) {
      assert ls.hostname.Some?;
      Present(gateways, order, key, HostOrigin(key, ls));
    } else {
      var hr :| hr in g.routes && x == HrName(hr.ns, hr.name);
      Present(gateways, order, key, RouteOrigin(key, hr));
    }
  }

  lemma RulesAlwaysDeclared(gateways: map<string, GatewayInputs>, order: seq<GatewayOrder>, k: string)
    requires ValidOrder(gateways, order) && !Fails(Active(gateways)) && Plain(gateways)
    requires k in ClassResources(gateways, order)
    ensures RulesDeclared(ClassResources(gateways, order), ClassResources(gateways, order)[k])
  {
    var r := ClassResources(gateways, order)[k];
    if r.Virtual? {
      var key, ls, i := NoOtherVirtuals(gateways, order, k);
      forall x | x in r.iRules ensures RuleKey(x) in ClassResources(gateways, order) {
        VirtualRules(gateways, order, key, ls, i, x);
      }
    }
  }

  lemma VirtualProfile(gateways: map<string, GatewayInputs>, order: seq<GatewayOrder>, key: string, ls: Listener,
                       i: nat)
    requires ValidOrder(gateways, order) && !Fails(Active(gateways)) && Plain(gateways)
    requires key in gateways && ls in gateways[key].gateway.listeners && i < |gateways[key].gateway.addresses|
    ensures var res, k := ClassResources(gateways, order), VirtualKeyOf(gateways[key].gateway, ls, i);
      k in res && (ProfileDeclared(res, res[k]) <==> !Bare(gateways[key], ls))
  {
    VirtualsExact(gateways, order, key, ls, i);
    ProfileDeclaredIff(gateways, order, key, ls);
  }

  // A class's virtuals refer only to iRules and profiles of the class if and only if each of its
  // HTTPS listeners with an address has certificates. iRules are never missing.
  lemma ClosedIff(gateways: map<string, GatewayInputs>, order: seq<GatewayOrder>)
    requires ValidOrder(gateways, order) && !Fails(Active(gateways)) && Plain(gateways)
    ensures forall k :: k in ClassResources(gateways, order) ==>
      RulesDeclared(ClassResources(gateways, order), ClassResources(gateways, order)[k])
    ensures Closed(ClassResources(gateways, order)) <==>
      forall key, ls :: key in gateways && ls in gateways[key].gateway.listeners ==> !Bare(gateways[key], ls)
  {
    var res := ClassResources(gateways, order);
    forall k | k in res ensures RulesDeclared(res, res[k]) {
      RulesAlwaysDeclared(gateways, order, k);
    }
    if key, ls :| key in gateways && ls in gateways[key].gateway.listeners && Bare(gateways[key], ls) {
      VirtualProfile(gateways, order, key, ls, 0);
    } else {
      forall k | k in res ensures ProfileDeclared(res, res[k]) {
        if res[k].Virtual? {
          var key, ls, i := NoOtherVirtuals(gateways, order, k);
          VirtualProfile(gateways, order, key, ls, i);
        }
      }
    }
  }

  /******* Pools of iRules *******/

  lemma {:induction false} BackendFound(s: Snapshot, hr: HTTPRoute, brs: seq<BackendRef>, br: BackendRef)
    requires br in brs && BackendKey(hr, br) in s.services && !Forbidden(s, hr, br)
    ensures s.services[BackendKey(hr, br)] in BackendServices(s, hr, brs)
  {
    var init, last := brs[..|brs| - 1], brs[|brs| - 1];
    assert brs == init + [last];
    if br in init { BackendFound(s, hr, init, br); }
  }

  lemma {:induction false} RuleBackendFound(s: Snapshot, hr: HTTPRoute, rules: seq<Rule>, rule: Rule, br: BackendRef)
    requires rule in rules && br in rule.backendRefs
    requires BackendKey(hr, br) in s.services && !Forbidden(s, hr, br)
    ensures s.services[BackendKey(hr, br)] in AllBackends(s, hr, rules)
  {
    var init, last := rules[..|rules| - 1], rules[|rules| - 1];
    assert rules == init + [last];
    if rule in init {
      RuleBackendFound(s, hr, init, rule, br);
    } else {
      BackendFound(s, hr, rule.backendRefs, br);
    }
  }

  lemma RelatedIsKnown(s: Snapshot, classes: set<string>, k: string)
    requires WellFormed(s) && k in RelatedKeys(s, classes)
    ensures k in s.services && PlainKey(k)
  {
    var c, svc :| c in classes && c in s.classes && svc in RelatedServices(s, c) && k == ServiceKey(svc);
    RelatedStored(s, c, svc);
    ServiceKeyPlain(svc);
  }

  lemma BackendRelated(s: Snapshot, classes: set<string>, c: string, gw: Gateway, hr: HTTPRoute, rule: Rule,
                       br: BackendRef)
    requires WellFormed(s) && c in classes && c in s.classes && gw in GatewaysOf(s, c) && hr in AttachedRoutes(s, gw)
    requires rule in hr.rules && br in rule.backendRefs && !Forbidden(s, hr, br)
    ensures BackendKey(hr, br) in RelatedKeys(s, classes) <==> BackendKey(hr, br) in s.services
  {
    var k := BackendKey(hr, br);
    if k in s.services {
      RuleBackendFound(s, hr, hr.rules, rule, br);
      assert s.services[k] in AttachedServices(s, hr);
      assert s.services[k] in GatewayServices(s, gw) && s.services[k] in RelatedServices(s, c);
    }
    if k in RelatedKeys(s, classes) { RelatedIsKnown(s, classes, k); }
  }

  // A pool that an attached route's iRule deals to is among those deployed with its class if and
  // only if the service is known. keys are those that ParseClassRelatedServices hands on.
  lemma DealtPoolDeclaredIff(s: Snapshot, classes: set<string>, keys: seq<string>, c: string, gw: Gateway,
                             hr: HTTPRoute, rule: Rule, br: BackendRef)
    requires WellFormed(s) && c in classes && c in s.classes && gw in GatewaysOf(s, c) && hr in AttachedRoutes(s, gw)
    requires rule in hr.rules && br in rule.backendRefs && !Forbidden(s, hr, br)
    requires LabelName(BackendNs(hr, br)) && ObjectName(br.name)
    requires Elems(keys) == RelatedKeys(s, classes) && (forall k :: k in keys ==> IsKey(k)) &&
      ServicePools(s, keys).Some?
    ensures PoolKey(br.name) in PoolsIn(ServicePools(s, keys).value, BackendNs(hr, br)) <==>
      BackendKey(hr, br) in s.services
  {
    BackendRelated(s, classes, c, gw, hr, rule, br);
    forall k | k in keys ensures PlainKey(k) {
      assert k in Elems(keys);
      RelatedIsKnown(s, classes, k);
    }
    assert BackendKey(hr, br) in keys <==> BackendKey(hr, br) in Elems(keys);
    ServicePoolsExact(s, keys, BackendNs(hr, br), br.name);
  }
}
