/** The parser: it fills a shared map of resources, gateway by gateway. */
module Parser {
  import opened Common
  import opened Names
  import opened Objects
  import opened Snapshots
  import opened IRules
  import opened Rendering
  import opened SigCache

  // The map that the parsing functions share by reference.
  class ResourceMap {
    var entries: Resources

    constructor ()
      ensures entries == map[]
    {
      entries := map[];
    }
  }

  /******* iRules of a route *******/

  method ParsePoolWeight(sigs: SIGCache, hr: HTTPRoute, brs: seq<BackendRef>) returns (weights: Weights)
    ensures weights == PoolWeights(sigs.View(), hr, brs)
  {
    weights := [];
    for i := 0 to |brs|
      invariant weights == PoolWeights(sigs.View(), hr, brs[..i])
    {
      var br := brs[i];
      assert brs[..i + 1][..i] == brs[..i];
      var k := Key(BackendNs(hr, br), br.name);
      var allowed := true;
      if k in sigs.services {
        allowed := sigs.CanReferTo(RouteId(hr), ServiceId(sigs.services[k]));
      }
      if allowed {
        weights := weights + [(PoolName(BackendNs(hr, br), br.name), GetOr(br.weight, 1))];
      }
    }
    assert brs[..|brs|] == brs;
  }

  method ParseReqFilters(fls: seq<Filter>, hrNs: string) returns (r: Option<seq<Action>>)
    ensures r == RequestActions(fls, hrNs)
  {
    var actions: seq<Action> := [];
    for i := 0 to |fls|
      invariant RequestActions(fls[..i], hrNs) == Some(actions)
    {
      assert fls[..i + 1][..i] == fls[..i];
      var more := RequestAction(fls[i], hrNs);
      if more.None? {
        RequestActionsStayNone(fls, hrNs, i + 1);
        return None;
      }
      actions := actions + more.value;
    }
    assert fls[..|fls|] == fls;
    r := Some(actions);
  }

  lemma {:induction false} RequestActionsStayNone(fls: seq<Filter>, hrNs: string, n: nat)
    requires n <= |fls| && RequestActions(fls[..n], hrNs).None?
    ensures RequestActions(fls, hrNs).None?
    decreases |fls| - n
  {
    if n == |fls| {
      assert fls[..n] == fls;
    } else {
      assert fls[..n + 1][..n] == fls[..n];
      RequestActionsStayNone(fls, hrNs, n + 1);
    }
  }

  method ParseRespFilters(fls: seq<Filter>) returns (actions: seq<Action>)
    ensures actions == ResponseActions(fls)
  {
    actions := [];
    for i := 0 to |fls|
      invariant actions == ResponseActions(fls[..i])
    {
      assert fls[..i + 1][..i] == fls[..i];
      if fls[i].kind.ResponseHeaderModifier? {
        actions := actions + HeaderActions(fls[i].responseHeaders);
      }
    }
    assert fls[..|fls|] == fls;
  }

  method BuildRule(sigs: SIGCache, hr: HTTPRoute, rule: Rule) returns (r: Option<RuleProgram>)
    ensures r == RuleOf(sigs.View(), hr, rule)
  {
    var weights := ParsePoolWeight(sigs, hr, rule.backendRefs);
    var condition := ParseMatches(rule.matches);
    var actions := ParseReqFilters(rule.filters, hr.ns);
    if actions.None? {
      return None;
    }
    var responses := ParseRespFilters(rule.filters);
    r := Some(RuleProgram(weights, condition, actions.value, responses));
  }

  lemma RulesPut(s: Snapshot, hr: HTTPRoute, i: nat)
    requires i < |hr.rules| && RulesOf(s, hr, hr.rules[..i]).Some?
    ensures RulesOf(s, hr, hr.rules[..i + 1]) ==
      match RuleOf(s, hr, hr.rules[i])
      case None => None
      case Some(rule) => Some(RulesOf(s, hr, hr.rules[..i]).value + [rule])
  {
    assert hr.rules[..i + 1][..i] == hr.rules[..i];
  }

  // parseiRulesFrom, as far as building the program: the template ranges over the rules in order.
  method BuildProgram(sigs: SIGCache, hr: HTTPRoute) returns (r: Option<Program>)
    ensures r == RouteProgram(sigs.View(), hr)
  {
    var rules: seq<RuleProgram> := [];
    for i := 0 to |hr.rules|
      invariant RulesOf(sigs.View(), hr, hr.rules[..i]) == Some(rules)
    {
      RulesPut(sigs.View(), hr, i);
      var rule := BuildRule(sigs, hr, hr.rules[i]);
      if rule.None? {
        RulesOfStayNone(sigs.View(), hr, i + 1);
        return None;
      }
      rules := rules + [rule.value];
    }
    assert hr.rules[..|hr.rules|] == hr.rules;
    var hosts := OrHosts(hr.hostnames);
    r := Some(Program(hosts, rules));
  }

  lemma {:induction false} RulesOfStayNone(s: Snapshot, hr: HTTPRoute, n: nat)
    requires n <= |hr.rules| && RulesOf(s, hr, hr.rules[..n]).None?
    ensures RouteProgram(s, hr).None?
    decreases |hr.rules| - n
  {
    if n == |hr.rules| {
      assert hr.rules[..n] == hr.rules;
    } else {
      assert hr.rules[..n + 1][..n] == hr.rules[..n];
      RulesOfStayNone(s, hr, n + 1);
    }
  }

  // parseHTTPRoute
  method ParseHTTPRoute(sigs: SIGCache, hr: HTTPRoute, rlt: ResourceMap) returns (ok: bool)
    modifies rlt
    ensures ok == RouteProgram(sigs.View(), hr).Some?
    ensures rlt.entries == if ok
      then old(rlt.entries)[RuleKey(HrName(hr.ns, hr.name)) := RouteRule(RouteProgram(sigs.View(), hr).value)]
      else old(rlt.entries)
  {
    var program := BuildProgram(sigs, hr);
    ok := program.Some?;
    if ok {
      rlt.entries := rlt.entries[RuleKey(HrName(hr.ns, hr.name)) := RouteRule(program.value)];
    }
  }

  /******* A gateway *******/

  lemma CertificatesPut(before: Resources, scrts: seq<Secret>, i: nat)
    requires i < |scrts|
    ensures var n := TlsName(scrts[i].ns, scrts[i].name);
      && CertificateNames(scrts[..i + 1]) == CertificateNames(scrts[..i]) + [n]
      && before + CertificateResources(scrts[..i + 1]) == (before + CertificateResources(scrts[..i]))
          [CertificateKey(n) := Certificate(scrts[i].certificate, scrts[i].privateKey)]
  {
    assert scrts[..i + 1][..i] == scrts[..i];
    UnionPut(before, CertificateResources(scrts[..i]), CertificateKey(TlsName(scrts[i].ns, scrts[i].name)),
             Certificate(scrts[i].certificate, scrts[i].privateKey));
  }

  method ParseSecrets(name: string, scrts: seq<Secret>, rlt: ResourceMap)
    modifies rlt
    ensures rlt.entries == old(rlt.entries) + TlsResources(name, scrts)
  {
    var certs: seq<string> := [];
    for i := 0 to |scrts|
      invariant certs == CertificateNames(scrts[..i]) && |certs| == i
      invariant rlt.entries == old(rlt.entries) + CertificateResources(scrts[..i])
    {
      var scrt := scrts[i];
      CertificatesPut(old(rlt.entries), scrts, i);
      var n := TlsName(scrt.ns, scrt.name);
      rlt.entries := rlt.entries[CertificateKey(n) := Certificate(scrt.certificate, scrt.privateKey)];
      certs := certs + [n];
    }
    assert scrts[..|scrts|] == scrts;
    TlsResourcesAre(name, scrts);
    if |certs| > 0 {
      UnionPut(old(rlt.entries), CertificateResources(scrts), ProfileKey(name), TlsServer(certs));
      rlt.entries := rlt.entries[ProfileKey(name) := TlsServer(certs)];
    }
  }

  // The loop over listeners with a hostname.
  method ParseHostnames(gw: Gateway, rlt: ResourceMap) returns (irules: IRuleNames)
    modifies rlt
    ensures irules == HostNames(gw, gw.listeners)
    ensures rlt.entries == old(rlt.entries) + HostRules(gw, gw.listeners)
  {
    irules := map[];
    for i := 0 to |gw.listeners|
      invariant irules == HostNames(gw, gw.listeners[..i])
      invariant rlt.entries == old(rlt.entries) + HostRules(gw, gw.listeners[..i])
    {
      var ls := gw.listeners[i];
      assert gw.listeners[..i + 1][..i] == gw.listeners[..i];
      if ls.hostname.Some? {
        var vsname := NameOfListener(gw, ls);
        irules := Append(irules, vsname, vsname);
        rlt.entries := rlt.entries[RuleKey(vsname) := HostRule(ls.hostname.value)];
      }
    }
    assert gw.listeners[..|gw.listeners|] == gw.listeners;
  }

  // g is what a render of the gateway reads of these routes.
  ghost predicate NamespacesRead(sigs: SIGCache, g: GatewayInputs, hrs: seq<HTTPRoute>)
    reads sigs
  {
    forall hr :: hr in hrs ==> NamespaceFor(g, hr) == Lookup(sigs.namespaces, hr.ns)
  }

  // The loop over attached routes,
  method ParseParents(sigs: SIGCache, ghost g: GatewayInputs, gw: Gateway, hrs: seq<HTTPRoute>, irules0: IRuleNames)
    returns (ok: bool, irules: IRuleNames)
    requires g.gateway == gw && NamespacesRead(sigs, g, hrs)
    ensures ok <==> forall hr :: hr in hrs ==> SectionsSet(hr)
    ensures ok ==> irules == AddRoutes(g, irules0, hrs)
  {
    var listeners := sigs.ListenersByName(gw);
    irules := irules0;
    for i := 0 to |hrs|
      invariant forall j :: 0 <= j < i ==> SectionsSet(hrs[j])
      invariant irules == AddRoutes(g, irules0, hrs[..i])
    {
      assert hrs[..i + 1][..i] == hrs[..i];
      assert hrs[i] in hrs;
      ok, irules := ParseParentRefs(sigs, g, gw, hrs[i], listeners, irules);
      if !ok {
        return;
      }
    }
    assert hrs[..|hrs|] == hrs;
    ok := true;
  }

  // and over the parentRefs of one route.
  method ParseParentRefs(sigs: SIGCache, ghost g: GatewayInputs, gw: Gateway, hr: HTTPRoute,
                         listeners: map<string, Listener>, irules0: IRuleNames)
    returns (ok: bool, irules: IRuleNames)
    requires g.gateway == gw && NamespacesRead(sigs, g, [hr]) && listeners == ListenerMap(gw, gw.listeners)
    ensures ok <==> SectionsSet(hr)
    ensures ok ==> irules == AddParents(g, irules0, hr, hr.parentRefs)
  {
    assert hr in [hr];
    irules := irules0;
    for j := 0 to |hr.parentRefs|
      invariant forall l :: 0 <= l < j ==> hr.parentRefs[l].section.Some?
      invariant irules == AddParents(g, irules0, hr, hr.parentRefs[..j])
    {
      var pr := hr.parentRefs[j];
      assert pr in hr.parentRefs;
      assert hr.parentRefs[..j + 1][..j] == hr.parentRefs[..j];
      if pr.section.None? {
        return false, irules;
      }
      var vsname := ParentName(hr, pr);
      if vsname !in irules {
        irules := irules[vsname := []];
      }
      var matched := MatchRoute(ParentNs(hr, pr), Lookup(listeners, vsname), Lookup(sigs.namespaces, hr.ns),
        "HTTPRoute");
      if matched {
        irules := Append(irules, vsname, HrName(hr.ns, hr.name));
      }
    }
    assert hr.parentRefs[..|hr.parentRefs|] == hr.parentRefs;
    ok := true;
  }

  lemma AddressVirtualsPut(before: Resources, gw: Gateway, irules: IRuleNames, i: nat)
    requires i < |gw.addresses|
    ensures before + AddressVirtuals(gw, irules, gw.addresses[..i + 1]) ==
      before + AddressVirtuals(gw, irules, gw.addresses[..i]) + ListenerVirtuals(gw, irules, gw.addresses[i], i,
        gw.listeners)
  {
    assert gw.addresses[..i + 1][..i] == gw.addresses[..i];
    UnionAssociative(before, AddressVirtuals(gw, irules, gw.addresses[..i]),
                     ListenerVirtuals(gw, irules, gw.addresses[i], i, gw.listeners));
  }

  predicate Supported(listeners: seq<Listener>) {
    forall ls :: ls in listeners ==> !Unsupported(ls)
  }

  predicate Numeric(addresses: seq<Address>) {
    forall a :: a in addresses ==> a.kind.IPAddress?
  }

  // The loops over addresses and listeners.
  method ParseVirtuals(gw: Gateway, irules: IRuleNames, rlt: ResourceMap) returns (ok: bool)
    modifies rlt
    ensures ok <==>
      Numeric(gw.addresses) && (gw.addresses == [] || Supported(gw.listeners))
    ensures ok ==> rlt.entries == old(rlt.entries) + AddressVirtuals(gw, irules, gw.addresses)
  {
    for i := 0 to |gw.addresses|
      invariant Numeric(gw.addresses[..i])
      invariant i > 0 ==> Supported(gw.listeners)
      invariant rlt.entries == old(rlt.entries) + AddressVirtuals(gw, irules, gw.addresses[..i])
    {
      assert gw.addresses[..i + 1] == gw.addresses[..i] + [gw.addresses[i]];
      if !gw.addresses[i].kind.IPAddress? {
        return false;
      }
      var done := ParseListeners(gw, irules, gw.addresses[i], i, rlt);
      if !done {
        return false;
      }
      AddressVirtualsPut(old(rlt.entries), gw, irules, i);
    }
    assert gw.addresses[..|gw.addresses|] == gw.addresses;
    ok := true;
  }

  lemma ListenerVirtualsPut(before: Resources, gw: Gateway, irules: IRuleNames, a: Address, i: nat, j: nat)
    requires j < |gw.listeners|
    ensures before + ListenerVirtuals(gw, irules, a, i, gw.listeners[..j + 1]) ==
      (before + ListenerVirtuals(gw, irules, a, i, gw.listeners[..j]))
        [VirtualKey(VirtualName(NameOfListener(gw, gw.listeners[j]), i)) := VirtualOf(gw, irules, a, gw.listeners[j])]
  {
    assert gw.listeners[..j + 1][..j] == gw.listeners[..j];
    UnionPut(before, ListenerVirtuals(gw, irules, a, i, gw.listeners[..j]),
             VirtualKey(VirtualName(NameOfListener(gw, gw.listeners[j]), i)),
               VirtualOf(gw, irules, a, gw.listeners[j]));
  }

  method ParseListeners(gw: Gateway, irules: IRuleNames, a: Address, i: nat, rlt: ResourceMap) returns (ok: bool)
    modifies rlt
    ensures ok <==> Supported(gw.listeners)
    ensures ok ==> rlt.entries == old(rlt.entries) + ListenerVirtuals(gw, irules, a, i, gw.listeners)
  {
    for j := 0 to |gw.listeners|
      invariant Supported(gw.listeners[..j])
      invariant rlt.entries == old(rlt.entries) + ListenerVirtuals(gw, irules, a, i, gw.listeners[..j])
    {
      var ls := gw.listeners[j];
      assert gw.listeners[..j + 1] == gw.listeners[..j] + [ls];
      ListenerVirtualsPut(old(rlt.entries), gw, irules, a, i, j);
      if Unsupported(ls) {
        return false;
      }
      rlt.entries := rlt.entries[VirtualKey(VirtualName(NameOfListener(gw, ls), i)) := VirtualOf(gw, irules, a, ls)];
    }
    assert gw.listeners[..|gw.listeners|] == gw.listeners;
    ok := true;
  }

  lemma AllTlsPut(before: Resources, secrets: map<string, seq<Secret>>, names: seq<string>, name: string)
    requires name in secrets
    ensures before + AllTls(secrets, names + [name]) ==
      before + AllTls(secrets, names) + TlsResources(name, secrets[name])
  {
    assert (names + [name])[..|names|] == names;
    UnionAssociative(before, AllTls(secrets, names), TlsResources(name, secrets[name]));
  }

  // Ranges over the secrets in some order.
  method ParseAllSecrets(scrtmap: map<string, seq<Secret>>, rlt: ResourceMap) returns (ghost order: seq<string>)
    modifies rlt
    ensures Enumerates(order, scrtmap.Keys)
    ensures rlt.entries == old(rlt.entries) + AllTls(scrtmap, order)
  {
    order := [];
    var left := scrtmap.Keys;
    while left != {}
      invariant left <= scrtmap.Keys && Enumerates(order, scrtmap.Keys - left)
      invariant rlt.entries == old(rlt.entries) + AllTls(scrtmap, order)
      decreases left
    {
      var k :| k in left;
      EnumerationLeft(order, scrtmap.Keys, left, k);
      left := left - {k};
      ParseSecrets(k, scrtmap[k], rlt);
      AllTlsPut(old(rlt.entries), scrtmap, order, k);
      order := order + [k];
    }
  }

  // What parseGateway may write for a gateway.
  ghost predicate GatewayParsed(g: GatewayInputs, before: Resources, after: Resources) {
    exists attached, tls ::
      Enumerates(attached, g.routes.Keys) && Enumerates(tls, GetOr(g.secrets, map[]).Keys) &&
      after == before + GatewayResources(g, attached, tls)
  }

  lemma GatewayParsedBy(g: GatewayInputs, before: Resources, hrs: seq<HTTPRoute>, tls: seq<string>, irules: IRuleNames)
    requires Enumerates(hrs, g.routes.Keys) && g.secrets.Some? && Enumerates(tls, g.secrets.value.Keys)
    requires irules == IRulesFor(g, hrs)
    ensures GatewayParsed(g, before, before + HostRules(g.gateway, g.gateway.listeners) + AllTls(g.secrets.value, tls)
                                            + AddressVirtuals(g.gateway, irules, g.gateway.addresses))
  {
    var a, b, c := HostRules(g.gateway, g.gateway.listeners), AllTls(g.secrets.value, tls),
                   AddressVirtuals(g.gateway, irules, g.gateway.addresses);
    UnionAssociative(before, a, b);
    UnionAssociative(before, a + b, c);
    assert before + a + b + c == before + GatewayResources(g, hrs, tls);
  }

  // g is what a render of its gateway reads of the snapshot.
  ghost predicate Reads(s: Snapshot, g: GatewayInputs) {
    && g.routes.Keys == AttachedRoutes(s, g.gateway)
    && g.secrets == AttachedSecrets(s, g.gateway)
    && forall hr :: hr in g.routes ==> g.routes[hr] == RouteInputs(Lookup(s.namespaces, hr.ns), RouteProgram(s, hr))
  }

  lemma InputsRead(s: Snapshot, gw: Gateway)
    ensures Reads(s, GatewayInputsOf(s, gw)) && GatewayInputsOf(s, gw).gateway == gw
  {
  }

  method ParseGateway(sigs: SIGCache, ghost g: GatewayInputs, gw: Gateway, rlt: ResourceMap) returns (ok: bool)
    requires sigs.Valid() && Reads(sigs.View(), g) && g.gateway == gw
    modifies rlt
    ensures ok <==> !ParseFails(g)
    ensures ok ==> GatewayParsed(g, old(rlt.entries), rlt.entries)
  {
    ghost var before := rlt.entries;
    var irules := ParseHostnames(gw, rlt);
    var hrs := sigs.AttachedHTTPRoutes(gw);
    assert forall hr :: hr in hrs <==> hr in Elems(hrs);
    ok, irules := ParseParents(sigs, g, gw, hrs, irules);
    if !ok {
      return;
    }
    var scrtmap := sigs.AttachedSecretsOf(gw);
    if scrtmap.None? {
      return false;
    }
    ghost var tls := ParseAllSecrets(scrtmap.value, rlt);
    ok := ParseVirtuals(gw, irules, rlt);
    if ok {
      GatewayParsedBy(g, before, hrs, tls, irules);
    }
  }

  /******* A class *******/

  // What one gateway of the class may write, its attached routes included.
  ghost predicate OrderParsed(g: GatewayInputs, key: string, before: Resources, after: Resources) {
    exists o: GatewayOrder :: o.key == key && ValidGatewayOrder(g, o) && after == before + OrderResources(g, o)
  }

  lemma OrderParsedBy(g: GatewayInputs, key: string, before: Resources, middle: Resources, hrs: seq<HTTPRoute>)
    requires GatewayParsed(g, before, middle) && Enumerates(hrs, g.routes.Keys)
    ensures OrderParsed(g, key, before, middle + RouteResources(g, hrs))
  {
    var attached, tls :| Enumerates(attached, g.routes.Keys) && Enumerates(tls, GetOr(g.secrets, map[]).Keys) &&
      middle == before + GatewayResources(g, attached, tls);
    var o := GatewayOrder(key, attached, tls, hrs);
    UnionAssociative(before, GatewayResources(g, attached, tls), RouteResources(g, hrs));
    assert middle + RouteResources(g, hrs) == before + OrderResources(g, o);
  }

  ghost predicate ProgramIs(s: Snapshot, g: GatewayInputs, hr: HTTPRoute) {
    hr in g.routes && g.routes[hr].program == RouteProgram(s, hr)
  }

  // The programs of the gateway's attached routes.
  method ParseRoutes(sigs: SIGCache, ghost g: GatewayInputs, hrs: seq<HTTPRoute>, rlt: ResourceMap) returns (ok: bool)
    requires forall hr :: hr in hrs ==> ProgramIs(sigs.View(), g, hr)
    modifies rlt
    ensures ok <==> AllFound(g, hrs)
    ensures ok ==> rlt.entries == old(rlt.entries) + RouteResources(g, hrs)
  {
    ghost var s := sigs.View();
    for i := 0 to |hrs|
      invariant sigs.View() == s
      invariant AllFound(g, hrs[..i])
      invariant rlt.entries == old(rlt.entries) + RouteResources(g, hrs[..i])
    {
      assert ProgramIs(s, g, hrs[i]) by { assert hrs[i] in hrs; }
      assert hrs[..i + 1] == hrs[..i] + [hrs[i]];
      ok := ParseHTTPRoute(sigs, hrs[i], rlt);
      if !ok {
        assert hrs[i] in hrs && !ProgramFound(g, hrs[i]);
        return;
      }
      RouteResourcesPut(old(rlt.entries), g, hrs, i);
    }
    assert hrs[..|hrs|] == hrs;
    ok := true;
  }

  predicate ProgramFound(g: GatewayInputs, hr: HTTPRoute) { hr in g.routes && g.routes[hr].program.Some? }

  predicate AllFound(g: GatewayInputs, hrs: seq<HTTPRoute>) { forall hr :: hr in hrs ==> ProgramFound(g, hr) }

  lemma RouteResourcesPut(before: Resources, g: GatewayInputs, hrs: seq<HTTPRoute>, i: nat)
    requires i < |hrs| && ProgramFound(g, hrs[i])
    ensures before + RouteResources(g, hrs[..i + 1]) == (before + RouteResources(g, hrs[..i]))
      [RuleKey(HrName(hrs[i].ns, hrs[i].name)) := RouteRule(g.routes[hrs[i]].program.value)]
  {
    assert hrs[..i + 1][..i] == hrs[..i];
    UnionPut(before, RouteResources(g, hrs[..i]), RuleKey(HrName(hrs[i].ns, hrs[i].name)),
             RouteRule(g.routes[hrs[i]].program.value));
  }

  method ParseClassGateway(sigs: SIGCache, ghost g: GatewayInputs, gw: Gateway, rlt: ResourceMap) returns (ok: bool)
    requires sigs.Valid() && Reads(sigs.View(), g) && g.gateway == gw
    modifies rlt
    ensures ok <==> !GatewayFails(g)
    ensures ok ==> OrderParsed(g, GatewayKey(gw), old(rlt.entries), rlt.entries)
  {
    ghost var before := rlt.entries;
    ok := ParseGateway(sigs, g, gw, rlt);
    if !ok {
      return;
    }
    ghost var middle := rlt.entries;
    var hrs := sigs.AttachedHTTPRoutes(gw);
    assert forall hr :: hr in hrs <==> hr in Elems(hrs);
    assert forall hr :: hr in hrs ==> ProgramIs(sigs.View(), g, hr);
    ok := ParseRoutes(sigs, g, hrs, rlt);
    if ok {
      OrderParsedBy(g, GatewayKey(gw), before, middle, hrs);
    }
  }

  ghost predicate Prepared(s: Snapshot, inputs: map<string, GatewayInputs>, gw: Gateway) {
    GatewayKey(gw) in inputs && inputs[GatewayKey(gw)] == GatewayInputsOf(s, gw)
  }

  ghost predicate AllPrepared(s: Snapshot, inputs: map<string, GatewayInputs>, gws: seq<Gateway>) {
    gws == [] || (Prepared(s, inputs, gws[0]) && AllPrepared(s, inputs, gws[1..]))
  }

  predicate FailsAt(inputs: map<string, GatewayInputs>, gw: Gateway) {
    GatewayKey(gw) in inputs && GatewayFails(inputs[GatewayKey(gw)])
  }

  predicate NoneFails(inputs: map<string, GatewayInputs>, gws: seq<Gateway>) {
    forall gw :: gw in gws ==> !FailsAt(inputs, gw)
  }

  // The first i gateways have been visited and none fails; the others are as s says.
  ghost predicate Progress(s: Snapshot, inputs: map<string, GatewayInputs>, gws: seq<Gateway>, i: nat,
                           order: seq<GatewayOrder>, entries: Resources)
    requires i <= |gws|
  {
    && AllPrepared(s, inputs, gws[i..])
    && Visits(inputs, gws[..i], order)
    && NoneFails(inputs, gws[..i])
    && entries == ClassResources(inputs, order)
  }

  // One gateway after another, in the order of gws.
  method ParseGateways(sigs: SIGCache, ghost inputs: map<string, GatewayInputs>, gws: seq<Gateway>)
    returns (r: Result<Resources>, ghost order: seq<GatewayOrder>)
    requires sigs.Valid()
    requires AllPrepared(sigs.View(), inputs, gws)
    ensures r.Ok? <==> NoneFails(inputs, gws)
    ensures r.Ok? ==> Visits(inputs, gws, order) && r.value == ClassResources(inputs, order)
  {
    ghost var s := sigs.View();
    var rlt := new ResourceMap();
    order := [];
    for i := 0 to |gws|
      invariant sigs.View() == s && Progress(s, inputs, gws, i, order, rlt.entries)
    {
      var ok;
      ok, order := ParseOneGateway(sigs, inputs, gws, i, order, rlt);
      if !ok {
        return Err, order;
      }
    }
    assert gws[..|gws|] == gws;
    r := Ok(rlt.entries);
  }

  // The body of the loop over gateways.
  method ParseOneGateway(sigs: SIGCache, ghost inputs: map<string, GatewayInputs>, gws: seq<Gateway>, i: nat,
                         ghost order0: seq<GatewayOrder>, rlt: ResourceMap)
    returns (ok: bool, ghost order: seq<GatewayOrder>)
    requires sigs.Valid() && i < |gws| && Progress(sigs.View(), inputs, gws, i, order0, rlt.entries)
    modifies rlt
    ensures ok <==> !FailsAt(inputs, gws[i])
    ensures ok ==> Progress(sigs.View(), inputs, gws, i + 1, order, rlt.entries)
  {
    assert gws[i..][1..] == gws[i + 1..] && gws[..i + 1] == gws[..i] + [gws[i]];
    ghost var before := rlt.entries;
    InputsRead(sigs.View(), gws[i]);
    ok := ParseClassGateway(sigs, inputs[GatewayKey(gws[i])], gws[i], rlt);
    order := order0;
    if ok {
      order := Visit(inputs, gws, i, order0, before, rlt.entries);
    }
  }

  lemma Visit(inputs: map<string, GatewayInputs>, gws: seq<Gateway>, i: nat, order: seq<GatewayOrder>,
              before: Resources, after: Resources)
    returns (order2: seq<GatewayOrder>)
    requires i < |gws| && Visits(inputs, gws[..i], order) && before == ClassResources(inputs, order)
    requires GatewayKey(gws[i]) in inputs && OrderParsed(inputs[GatewayKey(gws[i])], GatewayKey(gws[i]), before, after)
    ensures Visits(inputs, gws[..i + 1], order2) && after == ClassResources(inputs, order2)
  {
    var g := inputs[GatewayKey(gws[i])];
    var o: GatewayOrder :| o.key == GatewayKey(gws[i]) && ValidGatewayOrder(g, o) &&
      after == before + OrderResources(g, o);
    order2 := order + [o];
    assert order2[..|order|] == order;
    forall j | 0 <= j < i + 1
      ensures order2[j].key == GatewayKey(gws[..i + 1][j]) && order2[j].key in inputs &&
        ValidGatewayOrder(inputs[order2[j].key], order2[j])
    {
      if j < i { assert gws[..i][j] == gws[j]; }
    }
  }

  ghost predicate Visits(inputs: map<string, GatewayInputs>, gws: seq<Gateway>, order: seq<GatewayOrder>) {
    && |order| == |gws|
    && forall j :: 0 <= j < |gws| ==>
      order[j].key == GatewayKey(gws[j]) && order[j].key in inputs && ValidGatewayOrder(inputs[order[j].key], order[j])
  }

  method ParseAllForClass(sigs: SIGCache, className: string) returns (r: Result<Config>)
    requires sigs.Valid()
    ensures r.Err? <==> Fails(InputsOf(sigs.View(), className))
    ensures r.Ok? ==> Renders(InputsOf(sigs.View(), className), r.value)
  {
    if className !in sigs.classes || sigs.classes[className].controllerName != sigs.controllerName {
      return Ok(map[]);
    }
    ghost var s := sigs.View();
    ghost var inputs := InputsOf(s, className).gateways;
    var gws := sigs.AttachedGateways(className);
    ReadyToParse(s, className, gws);
    var rlt;
    ghost var order;
    rlt, order := ParseGateways(sigs, inputs, gws);
    if rlt.Err? {
      return Err;
    }
    ParsedRenders(s, className, gws, order);
    r := Ok(if rlt.value == map[] then map[] else map["serviceMain" := rlt.value]);
  }

  lemma ReadyToParse(s: Snapshot, className: string, gws: seq<Gateway>)
    requires Keyed(s) && ActiveClass(s, className) && Enumerates(gws, GatewaysOf(s, className))
    ensures AllPrepared(s, InputsOf(s, className).gateways, gws)
    ensures Fails(InputsOf(s, className)) <==> exists gw :: gw in gws && FailsAt(InputsOf(s, className).gateways, gw)
  {
    var inputs := InputsOf(s, className).gateways;
    ClassGateways(s, className, gws);
    PreparedAll(s, inputs, gws);
    forall k | k in inputs ensures FailsAt(inputs, inputs[k].gateway) <==> GatewayFails(inputs[k]) {
      assert inputs[k].gateway in gws;
    }
    forall gw | gw in gws && FailsAt(inputs, gw) ensures Fails(InputsOf(s, className)) {
      assert Prepared(s, inputs, gw);
    }
  }

  lemma ParsedRenders(s: Snapshot, className: string, gws: seq<Gateway>, order: seq<GatewayOrder>)
    requires Keyed(s) && ActiveClass(s, className) && Enumerates(gws, GatewaysOf(s, className))
    requires Visits(InputsOf(s, className).gateways, gws, order) && !Fails(InputsOf(s, className))
    ensures Renders(InputsOf(s, className), Folder(ClassResources(InputsOf(s, className).gateways, order)))
  {
    var inputs := InputsOf(s, className).gateways;
    ClassGateways(s, className, gws);
    forall gw | gw in gws ensures GatewayKey(gw) in inputs && inputs[GatewayKey(gw)].gateway == gw {
      assert Prepared(s, inputs, gw);
    }
    OrderKeysEnumerate(inputs, gws, order);
    assert ValidOrder(inputs, order);
  }

  lemma {:induction false} PreparedAll(s: Snapshot, inputs: map<string, GatewayInputs>, gws: seq<Gateway>)
    requires forall gw :: gw in gws ==> Prepared(s, inputs, gw)
    ensures AllPrepared(s, inputs, gws)
    decreases |gws|
  {
    if gws != [] {
      PreparedAll(s, inputs, gws[1..]);
    }
  }

  // The attached gateways of an active class are exactly those its inputs list.
  lemma ClassGateways(s: Snapshot, className: string, gws: seq<Gateway>)
    requires Keyed(s) && ActiveClass(s, className) && Enumerates(gws, GatewaysOf(s, className))
    ensures var inputs := InputsOf(s, className).gateways;
      && (forall gw :: gw in gws ==> Prepared(s, inputs, gw))
      && (forall k :: k in inputs ==> inputs[k].gateway in gws && k == GatewayKey(inputs[k].gateway))
  {
    var inputs := InputsOf(s, className).gateways;
    forall gw | gw in gws
      ensures Prepared(s, inputs, gw)
    {
      assert gw in Elems(gws);
      InputsRead(s, gw);
    }
    forall k | k in inputs ensures inputs[k].gateway in gws {
      assert s.gateways[k] in Elems(gws);
    }
  }

  lemma OrderKeysEnumerate(inputs: map<string, GatewayInputs>, gws: seq<Gateway>, order: seq<GatewayOrder>)
    requires Visits(inputs, gws, order) && NoDup(gws)
    requires forall gw :: gw in gws ==> GatewayKey(gw) in inputs && inputs[GatewayKey(gw)].gateway == gw
    requires forall k :: k in inputs ==> inputs[k].gateway in gws && k == GatewayKey(inputs[k].gateway)
    ensures Enumerates(OrderKeys(order), inputs.Keys)
  {
    var ks := OrderKeys(order);
    forall i, j | 0 <= i < j < |ks| ensures ks[i] != ks[j] {
      assert gws[i] in gws && gws[j] in gws;
    }
    forall k ensures k in Elems(ks) <==> k in inputs {
      if k in inputs {
        var j :| 0 <= j < |gws| && gws[j] == inputs[k].gateway;
        assert ks[j] == k;
      }
      if k in ks {
        var j :| 0 <= j < |ks| && ks[j] == k;
        assert gws[j] in gws;
      }
    }
  }
}
