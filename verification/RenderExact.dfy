/** What a successful render contains: exactly one virtual per address and listener, each route
    once per parentRef that names the listener and matches, and when AS3 names are distinct. */
module RenderExact {
  import opened Common
  import opened Names
  import opened Objects
  import opened Snapshots
  import opened Rendering

  /******* How often a route is listed *******/

  function Listed(m: IRuleNames, name: string): seq<string> { GetOr(Lookup(m, name), []) }

  function Times(m: IRuleNames, name: string, x: string): nat { multiset(Listed(m, name))[x] }

  lemma AppendTimes(m: IRuleNames, k: string, v: string, name: string, x: string)
    ensures Times(Append(m, k, v), name, x) == Times(m, name, x) + (if k == name && v == x then 1 else 0)
  {
  }

  // The parentRefs that put the route into the list of this name.
  function Naming(g: GatewayInputs, hr: HTTPRoute, prs: seq<ParentRef>, name: string): nat {
    if prs == [] then 0
    else
      var pr := prs[|prs| - 1];
      Naming(g, hr, prs[..|prs| - 1], name) + (if ParentName(hr, pr) == name && ParentMatches(g, hr, pr) then 1 else 0)
  }

  lemma {:induction false} AddParentsTimes(g: GatewayInputs, m: IRuleNames, hr: HTTPRoute, prs: seq<ParentRef>,
                                           name: string, x: string)
    ensures Times(AddParents(g, m, hr, prs), name, x)
         == Times(m, name, x) + (if x == HrName(hr.ns, hr.name) then Naming(g, hr, prs, name) else 0)
  {
    if prs != [] {
      var init, pr := prs[..|prs| - 1], prs[|prs| - 1];
      AddParentsTimes(g, m, hr, init, name, x);
      var m0 := AddParents(g, m, hr, init);
      var k := ParentName(hr, pr);
      var m1 := if k in m0 then m0 else m0[k := []];
      assert Times(m1, name, x) == Times(m0, name, x);
      AppendTimes(m1, k, HrName(hr.ns, hr.name), name, x);
    }
  }

  predicate RouteNamesDistinct(hrs: seq<HTTPRoute>) {
    NoDup(hrs) && forall i, j :: 0 <= i < j < |hrs| ==> HrName(hrs[i].ns, hrs[i].name) != HrName(hrs[j].ns, hrs[j].name)
  }

  lemma {:induction false} AddRoutesTimes(g: GatewayInputs, m: IRuleNames, hrs: seq<HTTPRoute>, name: string,
                                          hr: HTTPRoute)
    requires RouteNamesDistinct(hrs) && hr in hrs
    ensures Times(AddRoutes(g, m, hrs), name, HrName(hr.ns, hr.name))
         == Times(m, name, HrName(hr.ns, hr.name)) + Naming(g, hr, hr.parentRefs, name)
  {
    var init, last := hrs[..|hrs| - 1], hrs[|hrs| - 1];
    var x := HrName(hr.ns, hr.name);
    assert hrs == init + [last];
    AddParentsTimes(g, AddRoutes(g, m, init), last, last.parentRefs, name, x);
    if hr in init {
      AddRoutesTimes(g, m, init, name, hr);
    } else {
      AddRoutesOthers(g, m, init, name, x);
    }
  }

  lemma {:induction false} AddRoutesOthers(g: GatewayInputs, m: IRuleNames, hrs: seq<HTTPRoute>, name: string,
                                           x: string)
    requires forall hr :: hr in hrs ==> x != HrName(hr.ns, hr.name)
    ensures Times(AddRoutes(g, m, hrs), name, x) == Times(m, name, x)
  {
    if hrs != [] {
      var init, last := hrs[..|hrs| - 1], hrs[|hrs| - 1];
      assert hrs == init + [last];
      AddRoutesOthers(g, m, init, name, x);
      AddParentsTimes(g, AddRoutes(g, m, init), last, last.parentRefs, name, x);
    }
  }

  predicate HostNamed(gw: Gateway, listeners: seq<Listener>, name: string) {
    exists ls :: ls in listeners && NameOfListener(gw, ls) == name && ls.hostname.Some?
  }

  // Listeners with distinct names: a name is listed under itself once if it has a hostname.
  lemma {:induction false} HostNamesTimes(gw: Gateway, listeners: seq<Listener>, name: string, x: string)
    requires forall i, j :: 0 <= i < j < |listeners| ==> listeners[i].name != listeners[j].name
    ensures Times(HostNames(gw, listeners), name, x)
         == if x == name && HostNamed(gw, listeners, name) then 1 else 0
  {
    if listeners != [] {
      var init, last := listeners[..|listeners| - 1], listeners[|listeners| - 1];
      assert listeners == init + [last];
      HostNamesTimes(gw, init, name, x);
      if NameOfListener(gw, last) == name {
        forall ls | ls in init ensures NameOfListener(gw, ls) != name {
          if NameOfListener(gw, ls) == name { SectionInjective(gw.ns, gw.name, ls.name, last.name); }
        }
      }
      var k := NameOfListener(gw, last);
      AppendTimes(HostNames(gw, init), k, k, name, x);
    }
  }

  /******* Well-formed inputs *******/

  predicate PlainName(s: string) { ObjectName(s) && '.' !in s }

  predicate PlainGateway(g: GatewayInputs) {
    && LabelName(g.gateway.ns)
    && PlainName(g.gateway.name)
    && UniqueListeners(g.gateway)
    && (forall ls :: ls in g.gateway.listeners ==> PlainName(ls.name))
    && (forall hr :: hr in g.routes ==> CleanRoute(hr) && SectionsSet(hr))
    && (forall a, b :: a in g.routes && b in g.routes && RouteKey(a) == RouteKey(b) ==> a == b)
    && (forall name :: name in SecretsAt(g) ==>
         && (exists ls :: ls in g.gateway.listeners && name == NameOfListener(g.gateway, ls))
         && (forall scrt :: scrt in SecretsAt(g)[name] ==> LabelName(scrt.ns) && ObjectName(scrt.name)))
  }

  function SecretsAt(g: GatewayInputs): map<string, seq<Secret>> { GetOr(g.secrets, map[]) }

  // Gateway and listener names without dots, and listener names unique within a gateway.
  predicate Plain(gateways: map<string, GatewayInputs>) {
    forall k :: k in gateways ==> k == GatewayKey(gateways[k].gateway) && PlainGateway(gateways[k])
  }

  /******* Virtuals *******/

  // The parentRef names this gateway and this listener, and the listener lets the route in.
  predicate Targets(g: GatewayInputs, hr: HTTPRoute, pr: ParentRef, ls: Listener) {
    && ParentKey(hr, pr) == GatewayKey(g.gateway)
    && pr.section == Some(ls.name)
    && RouteMatches(g.gateway.ns, Some(ls), NamespaceFor(g, hr), "HTTPRoute")
  }

  function Targeting(g: GatewayInputs, hr: HTTPRoute, prs: seq<ParentRef>, ls: Listener): nat {
    if prs == [] then 0
    else Targeting(g, hr, prs[..|prs| - 1], ls) + (if Targets(g, hr, prs[|prs| - 1], ls) then 1 else 0)
  }

  lemma UniqueListener(gw: Gateway, a: Listener, b: Listener)
    requires UniqueListeners(gw) && a in gw.listeners && b in gw.listeners && a.name == b.name
    ensures a == b
  {
  }

  lemma NamingIsTargeting(g: GatewayInputs, hr: HTTPRoute, pr: ParentRef, ls: Listener)
    requires PlainGateway(g) && hr in g.routes && pr in hr.parentRefs && ls in g.gateway.listeners
    ensures ParentName(hr, pr) == NameOfListener(g.gateway, ls) && ParentMatches(g, hr, pr) <==> Targets(g, hr, pr, ls)
  {
    var gw, ns, section := g.gateway, ParentNs(hr, pr), pr.section.value;
    ListenerMapLookup(gw, gw.listeners, ls.name);
    var found := Lookup(ListenerMap(gw, gw.listeners), NameOfListener(gw, ls));
    assert found.Some?;
    UniqueListener(gw, found.value, ls);
    if ParentName(hr, pr) == NameOfListener(gw, ls) {
      DotInjective("gw", Dot(ns, Dot(pr.name, section)), "gw", Dot(gw.ns, Dot(gw.name, ls.name)));
      DotInjective(ns, Dot(pr.name, section), gw.ns, Dot(gw.name, ls.name));
      OneDot(pr.name, section, gw.name, ls.name);
    }
    if ParentKey(hr, pr) == GatewayKey(gw) {
      KeyInjective(ns, pr.name, gw.ns, gw.name);
    }
  }

  lemma {:induction false} NamingCounts(g: GatewayInputs, hr: HTTPRoute, prs: seq<ParentRef>, ls: Listener)
    requires PlainGateway(g) && hr in g.routes && ls in g.gateway.listeners
    requires forall pr :: pr in prs ==> pr in hr.parentRefs
    ensures Naming(g, hr, prs, NameOfListener(g.gateway, ls)) == Targeting(g, hr, prs, ls)
  {
    if prs != [] {
      NamingCounts(g, hr, prs[..|prs| - 1], ls);
      NamingIsTargeting(g, hr, prs[|prs| - 1], ls);
    }
  }

  // The list holds each attached route once per parentRef that targets the listener, the
  // listener's own host rule if it has a hostname, and nothing else.
  ghost predicate ExactIRules(g: GatewayInputs, ls: Listener, names: seq<string>) {
    && (forall hr :: hr in g.routes ==> multiset(names)[HrName(hr.ns, hr.name)] == Targeting(g, hr, hr.parentRefs, ls))
    && multiset(names)[NameOfListener(g.gateway, ls)] == (if ls.hostname.Some? then 1 else 0)
    && (forall x :: x in names ==>
      x == NameOfListener(g.gateway, ls) || exists hr :: hr in g.routes && x == HrName(hr.ns, hr.name))
  }

  lemma IRulesExact(g: GatewayInputs, hrs: seq<HTTPRoute>, ls: Listener)
    requires PlainGateway(g) && Enumerates(hrs, g.routes.Keys) && ls in g.gateway.listeners
    ensures ExactIRules(g, ls, Listed(IRulesFor(g, hrs), NameOfListener(g.gateway, ls)))
  {
    var gw, name := g.gateway, NameOfListener(g.gateway, ls);
    var m, names := HostNames(gw, gw.listeners), Listed(IRulesFor(g, hrs), name);
    forall hr | hr in hrs
      ensures hr in g.routes && HrName(hr.ns, hr.name) != name
    {
      assert hr in Elems(hrs);
      assert HrName(hr.ns, hr.name)[0] == 'h' && name[0] == 'g';
    }
    forall i, j | 0 <= i < j < |hrs|
      ensures HrName(hrs[i].ns, hrs[i].name) != HrName(hrs[j].ns, hrs[j].name)
    {
      assert hrs[i] in hrs && hrs[j] in hrs;
      if HrName(hrs[i].ns, hrs[i].name) == HrName(hrs[j].ns, hrs[j].name) {
        HrNameInjective(hrs[i].ns, hrs[i].name, hrs[j].ns, hrs[j].name);
      }
    }
    forall hr | hr in g.routes
      ensures multiset(names)[HrName(hr.ns, hr.name)] == Targeting(g, hr, hr.parentRefs, ls)
    {
      assert hr in Elems(hrs);
      AddRoutesTimes(g, m, hrs, name, hr);
      HostNamesTimes(gw, gw.listeners, name, HrName(hr.ns, hr.name));
      NamingCounts(g, hr, hr.parentRefs, ls);
    }
    HostNamesTimes(gw, gw.listeners, name, name);
    AddRoutesOthers(g, m, hrs, name, name);
    forall l | l in gw.listeners && NameOfListener(gw, l) == name ensures l == ls {
      SectionInjective(gw.ns, gw.name, l.name, ls.name);
      UniqueListener(gw, l, ls);
    }
    forall x | x in names
      ensures x == name || exists hr :: hr in g.routes && x == HrName(hr.ns, hr.name)
    {
      if x != name && forall hr :: hr in g.routes ==> x != HrName(hr.ns, hr.name) {
        AddRoutesOthers(g, m, hrs, name, x);
        HostNamesTimes(gw, gw.listeners, name, x);
      }
    }
  }

  // The listener's resource at the address, apart from its iRules.
  predicate VirtualFor(gw: Gateway, a: Address, ls: Listener, r: Resource) {
    && r.Virtual?
    && r.class_ == (if ls.protocol.HTTP? then ServiceHTTP else if ls.protocol.HTTPS? then ServiceHTTPS else NoClass)
    && r.serverTLS == (if ls.protocol.HTTPS? then Some(NameOfListener(gw, ls)) else None)
    && r.address == a.value
    && r.port == ls.port
  }

  function VirtualKeyOf(gw: Gateway, ls: Listener, i: nat): string {
    VirtualKey(VirtualName(NameOfListener(gw, ls), i))
  }

  lemma OrdersSound(gateways: map<string, GatewayInputs>, order: seq<GatewayOrder>)
    requires ValidOrder(gateways, order) && !Fails(Active(gateways))
    ensures Sound(gateways, order)
    ensures forall key :: key in gateways ==> exists o :: o in order && o.key == key
  {
    var ks := OrderKeys(order);
    forall o | o in order ensures o.key in gateways && gateways[o.key].secrets.Some? {
      var i :| 0 <= i < |order| && order[i] == o;
      assert ks[i] in Elems(ks);
      assert !GatewayFails(gateways[o.key]);
    }
    forall key | key in gateways ensures exists o :: o in order && o.key == key {
      assert key in Elems(ks);
      var i :| 0 <= i < |ks| && ks[i] == key;
      assert order[i] in order;
    }
  }

  lemma TypesDiffer(o: Origin, p: Origin, n: string, n2: string)
    requires Slash(OriginType(o), n) == Slash(OriginType(p), n2)
    ensures OriginType(o) == OriginType(p) && n == n2
  {
    var s, t := OriginType(o), OriginType(p);
    var x, y := Slash(s, n), Slash(t, n2);
    assert x[4] == s[4] && y[4] == t[4];
    assert s == t;
    assert n == x[|s| + 1..] && n2 == y[|t| + 1..];
  }

  lemma ListenersDiffer(gateways: map<string, GatewayInputs>, key: string, ls: Listener, key2: string, ls2: Listener)
    requires Plain(gateways) && key in gateways && key2 in gateways
    requires ls in gateways[key].gateway.listeners && ls2 in gateways[key2].gateway.listeners
    requires NameOfListener(gateways[key].gateway, ls) == NameOfListener(gateways[key2].gateway, ls2)
    ensures key == key2 && ls == ls2
  {
    var gw, gw2 := gateways[key].gateway, gateways[key2].gateway;
    ListenerNameInjective(gw.ns, gw.name, ls.name, gw2.ns, gw2.name, ls2.name);
    UniqueListener(gw, ls, ls2);
  }

  // Where a resource of the class comes from.
  lemma Explain(gateways: map<string, GatewayInputs>, order: seq<GatewayOrder>, k: string)
    returns (key: string, o: Origin)
    requires ValidOrder(gateways, order) && !Fails(Active(gateways)) && k in ClassResources(gateways, order)
    ensures key in gateways && GatewayProduces(gateways[key], o) && k == OriginKey(gateways[key], o)
    ensures OriginValue(gateways[key], o, ClassResources(gateways, order)[k])
  {
    OrdersSound(gateways, order);
    key := ClassExplained(gateways, order, k);
    var r := ClassResources(gateways, order)[k];
    o :| o.key == key && GatewayProduces(gateways[key], o) && k == OriginKey(gateways[key], o) &&
      OriginValue(gateways[key], o, r);
  }

  lemma Present(gateways: map<string, GatewayInputs>, order: seq<GatewayOrder>, key: string, origin: Origin)
    requires ValidOrder(gateways, order) && !Fails(Active(gateways)) && key in gateways
    requires GatewayProduces(gateways[key], origin)
    ensures OriginKey(gateways[key], origin) in ClassResources(gateways, order)
  {
    OrdersSound(gateways, order);
    var o :| o in order && o.key == key;
    ClassComplete(gateways, order, o, origin);
  }

  lemma VirtualValue(g: GatewayInputs, ls: Listener, i: nat, o: Origin, r: Resource)
    requires PlainGateway(g) && ls in g.gateway.listeners && i < |g.gateway.addresses|
    requires o.VirtualOrigin? && o.ls == ls && o.i == i && OriginValue(g, o, r)
    ensures VirtualFor(g.gateway, g.gateway.addresses[i], ls, r) && ExactIRules(g, ls, r.iRules)
  {
    var hrs :| Enumerates(hrs, g.routes.Keys) &&
      r == VirtualOf(g.gateway, IRulesFor(g, hrs), g.gateway.addresses[i], ls);
    IRulesExact(g, hrs, ls);
  }

  // For each address and listener the class has the virtual with exactly its iRules,
  lemma VirtualsExact(gateways: map<string, GatewayInputs>, order: seq<GatewayOrder>, key: string, ls: Listener, i: nat)
    requires ValidOrder(gateways, order) && !Fails(Active(gateways)) && Plain(gateways)
    requires key in gateways && ls in gateways[key].gateway.listeners && i < |gateways[key].gateway.addresses|
    ensures var g := gateways[key];
      var found := Lookup(ClassResources(gateways, order), VirtualKeyOf(g.gateway, ls, i));
      && found.Some?
      && VirtualFor(g.gateway, g.gateway.addresses[i], ls, found.value)
      && ExactIRules(g, ls, found.value.iRules)
  {
    var g, origin := gateways[key], VirtualOrigin(key, ls, i);
    Present(gateways, order, key, origin);
    var k := OriginKey(g, origin);
    var key2, o := Explain(gateways, order, k);
    TypesDiffer(origin, o, OriginName(g, origin), OriginName(gateways[key2], o));
    VirtualNameInjective(NameOfListener(g.gateway, ls), i, NameOfListener(gateways[key2].gateway, o.ls), o.i);
    ListenersDiffer(gateways, key, ls, key2, o.ls);
    VirtualValue(g, ls, i, o, ClassResources(gateways, order)[k]);
  }

  // and there are no others:
  lemma NoOtherVirtuals(gateways: map<string, GatewayInputs>, order: seq<GatewayOrder>, k: string)
    returns (key: string, ls: Listener, i: nat)
    requires ValidOrder(gateways, order) && !Fails(Active(gateways))
    requires k in ClassResources(gateways, order) && ClassResources(gateways, order)[k].Virtual?
    ensures key in gateways && ls in gateways[key].gateway.listeners && i < |gateways[key].gateway.addresses|
    ensures k == VirtualKeyOf(gateways[key].gateway, ls, i)
  {
    var o: Origin;
    key, o := Explain(gateways, order, k);
    ls, i := o.ls, o.i;
  }

  // different addresses and listeners have different virtuals.
  lemma VirtualKeysDiffer(gateways: map<string, GatewayInputs>, key: string, ls: Listener, i: nat, key2: string,
                          ls2: Listener, j: nat)
    requires Plain(gateways) && key in gateways && key2 in gateways
    requires ls in gateways[key].gateway.listeners && ls2 in gateways[key2].gateway.listeners
    requires VirtualKeyOf(gateways[key].gateway, ls, i) == VirtualKeyOf(gateways[key2].gateway, ls2, j)
    ensures key == key2 && ls == ls2 && i == j
  {
    SlashTail("ltm/virtual", VirtualName(NameOfListener(gateways[key].gateway, ls), i),
              VirtualName(NameOfListener(gateways[key2].gateway, ls2), j));
    VirtualNameInjective(NameOfListener(gateways[key].gateway, ls), i, NameOfListener(gateways[key2].gateway, ls2), j);
    ListenersDiffer(gateways, key, ls, key2, ls2);
  }

  lemma SlashTail(t: string, x: string, y: string)
    requires Slash(t, x) == Slash(t, y)
    ensures x == y
  {
    assert Slash(t, x)[|t| + 1..] == x && Slash(t, y)[|t| + 1..] == y;
  }

  /******* Names in the AS3 declaration *******/

  // An AS3 application holds each resource under its last path segment only.
  predicate NamesDistinct(res: Resources) {
    forall k, k2 :: k in res && k2 in res && TypeAndName(k).1 == TypeAndName(k2).1 ==> k == k2
  }

  // A listener that gets both a host rule and a client-ssl profile, which share its name.
  predicate Clashes(g: GatewayInputs, ls: Listener) {
    && ls.hostname.Some?
    && NameOfListener(g.gateway, ls) in SecretsAt(g)
    && SecretsAt(g)[NameOfListener(g.gateway, ls)] != []
  }

  lemma OriginNamePlain(gateways: map<string, GatewayInputs>, key: string, o: Origin)
    requires Plain(gateways) && key in gateways && GatewayProduces(gateways[key], o)
    ensures TypeAndName(OriginKey(gateways[key], o)) == (OriginType(o), OriginName(gateways[key], o))
  {
    var g := gateways[key];
    assert '/' !in OriginName(g, o) by {
      if o.CertificateOrigin? { assert o.name in SecretsAt(g); }
      if o.ProfileOrigin? { assert o.name in SecretsAt(g); }
    }
    TypeAndNameOf(OriginType(o), OriginName(g, o));
  }

  // A virtual's name has one dot more than a listener's.
  lemma VirtualIsNoListener(gw: Gateway, ls: Listener, i: nat, gw2: Gateway, ls2: Listener)
    requires LabelName(gw.ns) && LabelName(gw2.ns) && PlainName(gw.name) && PlainName(gw2.name) && PlainName(ls2.name)
    ensures VirtualName(NameOfListener(gw, ls), i) != NameOfListener(gw2, ls2)
  {
    var l := VirtualName(ls.name, i);
    assert VirtualName(NameOfListener(gw, ls), i) == ListenerName(gw.ns, gw.name, l);
    assert l[|ls.name|] == '.';
    if ListenerName(gw.ns, gw.name, l) == NameOfListener(gw2, ls2) {
      ListenerNameInjective(gw.ns, gw.name, l, gw2.ns, gw2.name, ls2.name);
    }
  }

  // The listener whose name the resource carries.
  lemma ListenerOf(g: GatewayInputs, name: string) returns (ls: Listener)
    requires PlainGateway(g) && name in SecretsAt(g)
    ensures ls in g.gateway.listeners && name == NameOfListener(g.gateway, ls)
  {
    ls :| ls in g.gateway.listeners && name == NameOfListener(g.gateway, ls);
  }

  function Letter(o: Origin): char {
    if o.RouteOrigin? then 'h' else if o.CertificateOrigin? then 's' else 'g'
  }

  lemma NameLetter(g: GatewayInputs, o: Origin)
    requires PlainGateway(g) && GatewayProduces(g, o)
    ensures OriginName(g, o) != "" && OriginName(g, o)[0] == Letter(o)
  {
    if o.ProfileOrigin? {
      var ls := ListenerOf(g, o.name);
    }
  }

  lemma SameNameSameType(gateways: map<string, GatewayInputs>, key: string, o: Origin, key2: string, p: Origin)
    requires Plain(gateways) && key in gateways && key2 in gateways
    requires GatewayProduces(gateways[key], o) && GatewayProduces(gateways[key2], p)
    requires forall k, ls :: k in gateways && ls in gateways[k].gateway.listeners ==> !Clashes(gateways[k], ls)
    requires OriginName(gateways[key], o) == OriginName(gateways[key2], p)
    ensures OriginType(o) == OriginType(p)
  {
    var g, g2 := gateways[key], gateways[key2];
    var x, y := OriginName(g, o), OriginName(g2, p);
    NameLetter(g, o);
    NameLetter(g2, p);
    if o.ProfileOrigin? {
      var ls := ListenerOf(g, o.name);
      if p.VirtualOrigin? { VirtualIsNoListener(g2.gateway, p.ls, p.i, g.gateway, ls); }
      if p.HostOrigin? { ListenersDiffer(gateways, key, ls, key2, p.ls); }
    } else if p.ProfileOrigin? {
      var ls := ListenerOf(g2, p.name);
      if o.VirtualOrigin? { VirtualIsNoListener(g.gateway, o.ls, o.i, g2.gateway, ls); }
      if o.HostOrigin? { ListenersDiffer(gateways, key2, ls, key, o.ls); }
    } else if o.VirtualOrigin? && p.HostOrigin? {
      VirtualIsNoListener(g.gateway, o.ls, o.i, g2.gateway, p.ls);
    } else if p.VirtualOrigin? && o.HostOrigin? {
      VirtualIsNoListener(g2.gateway, p.ls, p.i, g.gateway, o.ls);
    }
  }

  predicate SameKind(o: Origin, r: Resource) {
    match o
    case HostOrigin(_, _) => r.HostRule?
    case RouteOrigin(_, _) => r.RouteRule?
    case CertificateOrigin(_, _, _) => r.Certificate?
    case ProfileOrigin(_, _) => r.TlsServer?
    case VirtualOrigin(_, _, _) => r.Virtual?
  }

  // No resource is overwritten by one of another kind.
  lemma KindKept(gateways: map<string, GatewayInputs>, order: seq<GatewayOrder>, key: string, o: Origin)
    requires ValidOrder(gateways, order) && !Fails(Active(gateways)) && Plain(gateways)
    requires key in gateways && GatewayProduces(gateways[key], o)
    ensures var found := Lookup(ClassResources(gateways, order), OriginKey(gateways[key], o));
      found.Some? && SameKind(o, found.value)
  {
    var k := OriginKey(gateways[key], o);
    Present(gateways, order, key, o);
    var key2, p := Explain(gateways, order, k);
    TypesDiffer(o, p, OriginName(gateways[key], o), OriginName(gateways[key2], p));
    NameLetter(gateways[key], o);
    NameLetter(gateways[key2], p);
    ValueKind(gateways[key2], p, ClassResources(gateways, order)[k]);
  }

  lemma ValueKind(g: GatewayInputs, o: Origin, r: Resource)
    requires OriginValue(g, o, r)
    ensures SameKind(o, r)
  {
  }

  // The class's AS3 names are distinct if and only if no listener has both a hostname and
  // certificates: the listener's host rule and its client-ssl profile have the same name.
  lemma NamesDistinctIff(gateways: map<string, GatewayInputs>, order: seq<GatewayOrder>)
    requires ValidOrder(gateways, order) && !Fails(Active(gateways)) && Plain(gateways)
    ensures NamesDistinct(ClassResources(gateways, order)) <==>
      forall key, ls :: key in gateways && ls in gateways[key].gateway.listeners ==> !Clashes(gateways[key], ls)
  {
    var res := ClassResources(gateways, order);
    if key, ls :| key in gateways && ls in gateways[key].gateway.listeners && Clashes(gateways[key], ls) {
      var host, profile := HostOrigin(key, ls), ProfileOrigin(key, NameOfListener(gateways[key].gateway, ls));
      Present(gateways, order, key, host);
      Present(gateways, order, key, profile);
      OriginNamePlain(gateways, key, host);
      OriginNamePlain(gateways, key, profile);
    } else {
      forall k, k2 | k in res && k2 in res && TypeAndName(k).1 == TypeAndName(k2).1
        ensures k == k2
      {
        var key, o := Explain(gateways, order, k);
        var key2, p := Explain(gateways, order, k2);
        OriginNamePlain(gateways, key, o);
        OriginNamePlain(gateways, key2, p);
        SameNameSameType(gateways, key, o, key2, p);
      }
    }
  }

  /******* The inputs of a class of a well-formed snapshot *******/

  lemma {:induction false} RefSecretsStored(s: Snapshot, gw: Gateway, refs: seq<CertificateRef>)
    requires RefSecrets(s, gw, refs).Some?
    ensures forall scrt :: scrt in RefSecrets(s, gw, refs).value ==> exists k :: k in s.secrets && s.secrets[k] == scrt
  {
    if refs != [] {
      RefSecretsStored(s, gw, refs[..|refs| - 1]);
    }
  }

  lemma {:induction false} SecretMapStored(s: Snapshot, gw: Gateway, listeners: seq<Listener>, name: string)
    requires SecretMap(s, gw, listeners).Some? && name in SecretMap(s, gw, listeners).value
    ensures exists ls :: ls in listeners && name == NameOfListener(gw, ls)
    ensures forall scrt :: scrt in SecretMap(s, gw, listeners).value[name] ==>
      exists k :: k in s.secrets && s.secrets[k] == scrt
  {
    var init, ls := listeners[..|listeners| - 1], listeners[|listeners| - 1];
    assert listeners == init + [ls];
    if name in SecretMap(s, gw, init).value {
      SecretMapStored(s, gw, init, name);
    }
    if ls.protocol.HTTPS? && Terminates(ls.tls.value) {
      RefSecretsStored(s, gw, ls.tls.value.certificateRefs);
    }
  }

  predicate PlainClass(s: Snapshot, className: string) {
    forall k :: k in s.gateways && s.gateways[k].className == className ==>
      && PlainName(s.gateways[k].name)
      && UniqueListeners(s.gateways[k])
      && forall ls :: ls in s.gateways[k].listeners ==> PlainName(ls.name)
  }

  lemma InputsPlain(s: Snapshot, className: string)
    requires WellFormed(s) && ActiveClass(s, className) && PlainClass(s, className)
    ensures Plain(InputsOf(s, className).gateways)
  {
    var gateways := InputsOf(s, className).gateways;
    forall k | k in gateways ensures PlainGateway(gateways[k]) {
      var g := gateways[k];
      forall name | name in SecretsAt(g)
        ensures exists ls :: ls in g.gateway.listeners && name == NameOfListener(g.gateway, ls)
        ensures forall scrt :: scrt in SecretsAt(g)[name] ==> LabelName(scrt.ns) && ObjectName(scrt.name)
      {
        SecretMapStored(s, g.gateway, g.gateway.listeners, name);
      }
    }
  }

  // Equal, or virtuals that list the same iRules in another order.
  predicate SameButOrder(r: Resource, r2: Resource) {
    r == r2 || (r.Virtual? && r2.Virtual? && r == r2.(iRules := r.iRules) && multiset(r.iRules) == multiset(r2.iRules))
  }

  lemma ExactIRulesDetermine(g: GatewayInputs, ls: Listener, names: seq<string>, names2: seq<string>)
    requires ExactIRules(g, ls, names) && ExactIRules(g, ls, names2)
    ensures multiset(names) == multiset(names2)
  {
    forall x ensures multiset(names)[x] == multiset(names2)[x] {
      if x in names || x in names2 {
        assert x == NameOfListener(g.gateway, ls) || exists hr :: hr in g.routes && x == HrName(hr.ns, hr.name);
      }
    }
  }

  lemma SameRoute(s: Snapshot, className: string, key: string, hr: HTTPRoute, key2: string, hr2: HTTPRoute)
    requires WellFormed(s) && ActiveClass(s, className)
    requires key in InputsOf(s, className).gateways && hr in InputsOf(s, className).gateways[key].routes
    requires key2 in InputsOf(s, className).gateways && hr2 in InputsOf(s, className).gateways[key2].routes
    requires HrName(hr.ns, hr.name) == HrName(hr2.ns, hr2.name)
    ensures hr == hr2
    ensures ProgramFor(InputsOf(s, className).gateways[key], hr) ==
      ProgramFor(InputsOf(s, className).gateways[key2], hr2)
  {
    HrNameInjective(hr.ns, hr.name, hr2.ns, hr2.name);
    assert RouteKey(hr) == RouteKey(hr2);
  }

  lemma SameSecret(s: Snapshot, gw: Gateway, name: string, scrt: Secret, gw2: Gateway, name2: string, scrt2: Secret)
    requires WellFormed(s) && AttachedSecrets(s, gw).Some? && AttachedSecrets(s, gw2).Some?
    requires name in AttachedSecrets(s, gw).value && scrt in AttachedSecrets(s, gw).value[name]
    requires name2 in AttachedSecrets(s, gw2).value && scrt2 in AttachedSecrets(s, gw2).value[name2]
    requires TlsName(scrt.ns, scrt.name) == TlsName(scrt2.ns, scrt2.name)
    ensures scrt == scrt2
  {
    SecretMapStored(s, gw, gw.listeners, name);
    SecretMapStored(s, gw2, gw2.listeners, name2);
    TlsNameInjective(scrt.ns, scrt.name, scrt2.ns, scrt2.name);
  }

  lemma SameListenerValue(gateways: map<string, GatewayInputs>, key: string, o: Origin, r: Resource, key2: string,
                          p: Origin, r2: Resource)
    requires Plain(gateways) && key in gateways && key2 in gateways
    requires GatewayProduces(gateways[key], o) && OriginValue(gateways[key], o, r)
    requires GatewayProduces(gateways[key2], p) && OriginValue(gateways[key2], p, r2)
    requires OriginName(gateways[key], o) == OriginName(gateways[key2], p)
    requires (o.HostOrigin? && p.HostOrigin?) || (o.ProfileOrigin? && p.ProfileOrigin?) ||
      (o.VirtualOrigin? && p.VirtualOrigin?)
    ensures SameButOrder(r, r2)
  {
    var g, g2 := gateways[key], gateways[key2];
    if o.HostOrigin? {
      ListenersDiffer(gateways, key, o.ls, key2, p.ls);
    } else if o.ProfileOrigin? {
      var ls := ListenerOf(g, o.name);
      var ls2 := ListenerOf(g2, p.name);
      ListenersDiffer(gateways, key, ls, key2, ls2);
    } else {
      VirtualNameInjective(NameOfListener(g.gateway, o.ls), o.i, NameOfListener(g2.gateway, p.ls), p.i);
      ListenersDiffer(gateways, key, o.ls, key2, p.ls);
      VirtualValue(g, o.ls, o.i, o, r);
      VirtualValue(g, o.ls, o.i, p, r2);
      ExactIRulesDetermine(g, o.ls, r.iRules, r2.iRules);
    }
  }

  lemma SameOriginValue(s: Snapshot, className: string, key: string, o: Origin, r: Resource, key2: string, p: Origin,
                        r2: Resource)
    requires WellFormed(s) && ActiveClass(s, className) && Plain(InputsOf(s, className).gateways)
    requires key in InputsOf(s, className).gateways && key2 in InputsOf(s, className).gateways
    requires GatewayProduces(InputsOf(s, className).gateways[key], o) &&
      OriginValue(InputsOf(s, className).gateways[key], o, r)
    requires GatewayProduces(InputsOf(s, className).gateways[key2], p) &&
      OriginValue(InputsOf(s, className).gateways[key2], p, r2)
    requires OriginKey(InputsOf(s, className).gateways[key], o) == OriginKey(InputsOf(s, className).gateways[key2], p)
    ensures SameButOrder(r, r2)
  {
    var gateways := InputsOf(s, className).gateways;
    TypesDiffer(o, p, OriginName(gateways[key], o), OriginName(gateways[key2], p));
    NameLetter(gateways[key], o);
    NameLetter(gateways[key2], p);
    if o.RouteOrigin? {
      SameRoute(s, className, key, o.hr, key2, p.hr);
    } else if o.CertificateOrigin? {
      SameSecret(s, gateways[key].gateway, o.name, o.scrt, gateways[key2].gateway, p.name, p.scrt);
    } else {
      SameListenerValue(gateways, key, o, r, key2, p, r2);
    }
  }

  // Two renders of one snapshot, ranging over its maps in any orders, differ at most in the order
  // in which virtuals list their iRules.
  lemma RenderDeterministic(s: Snapshot, className: string, order: seq<GatewayOrder>, order2: seq<GatewayOrder>)
    requires WellFormed(s) && ActiveClass(s, className) && PlainClass(s, className)
    requires !Fails(InputsOf(s, className))
    requires ValidOrder(InputsOf(s, className).gateways, order) && ValidOrder(InputsOf(s, className).gateways, order2)
    ensures var res, res2 := ClassResources(InputsOf(s, className).gateways, order),
      ClassResources(InputsOf(s, className).gateways, order2);
      res.Keys == res2.Keys && forall k :: k in res ==> SameButOrder(res[k], res2[k])
  {
    var gateways := InputsOf(s, className).gateways;
    var res, res2 := ClassResources(gateways, order), ClassResources(gateways, order2);
    InputsPlain(s, className);
    forall k | k in res ensures k in res2 && SameButOrder(res[k], res2[k]) {
      var key, o := Explain(gateways, order, k);
      Present(gateways, order2, key, o);
      var key2, p := Explain(gateways, order2, k);
      SameOriginValue(s, className, key, o, res[k], key2, p, res2[k]);
    }
    forall k | k in res2 ensures k in res {
      var key, o := Explain(gateways, order2, k);
      Present(gateways, order, key, o);
    }
  }
}
