/** Rendering a gateway class to BIG-IP resources: what it reads, what it writes, and how the
    arbitrary order of Go's map iteration shows in the result. */
module Rendering {
  import opened Common
  import opened Names
  import opened Objects
  import opened Snapshots
  import opened IRules

  /******* Resources *******/

  datatype VirtualClass = ServiceHTTP | ServiceHTTPS | NoClass

  datatype Resource =
    | HostRule(hostname: string)
    | RouteRule(program: Program)
    | Certificate(certificate: string, privateKey: string)
    | TlsServer(certificates: seq<string>)
    | Virtual(class_: VirtualClass, serverTLS: Option<string>, address: string, port: int, iRules: seq<string>)
    | Pool(members: seq<(int, string)>)

  type Resources = map<string, Resource>

  lemma UnionAssociative(a: Resources, b: Resources, c: Resources)
    ensures a + b + c == a + (b + c)
  {
  }

  lemma UnionPut(a: Resources, b: Resources, k: string, r: Resource)
    ensures a + b[k := r] == (a + b)[k := r]
  {
  }

  // A tenant's applications, by name.
  type Config = map<string, Resources>

  function RuleKey(name: string): string { Slash("ltm/rule", name) }
  function CertificateKey(name: string): string { Slash("sys/file/certificate", name) }
  function ProfileKey(name: string): string { Slash("ltm/profile/client-ssl", name) }
  function VirtualKey(name: string): string { Slash("ltm/virtual", name) }
  function PoolKey(name: string): string { Slash("ltm/pool", name) }

  /******* Everything a render reads *******/

  datatype RouteInputs = RouteInputs(namespace: Option<Namespace>, program: Option<Program>)

  datatype GatewayInputs = GatewayInputs(
    gateway: Gateway,
    routes: map<HTTPRoute, RouteInputs>,
    secrets: Option<map<string, seq<Secret>>>)

  datatype ClassInputs = Inactive | Active(gateways: map<string, GatewayInputs>)

  function GatewayInputsOf(s: Snapshot, gw: Gateway): GatewayInputs {
    GatewayInputs(
      gw,
      map hr | hr in AttachedRoutes(s, gw) :: RouteInputs(Lookup(s.namespaces, hr.ns), RouteProgram(s, hr)),
      AttachedSecrets(s, gw))
  }

  predicate ActiveClass(s: Snapshot, className: string) {
    className in s.classes && s.classes[className].controllerName == s.controllerName
  }

  function InputsOf(s: Snapshot, className: string): ClassInputs {
    if !ActiveClass(s, className) then Inactive
    else Active(map k | k in s.gateways && s.gateways[k].className == className :: GatewayInputsOf(s, s.gateways[k]))
  }

  /******* When rendering fails *******/

  predicate Unsupported(ls: Listener) { ls.protocol.TCP? || ls.protocol.UDP? || ls.protocol.TLS? }

  // parseGateway: an attached route has a parentRef without a section, a secret cannot be used,
  // an address is no IP address, or there is an address for a listener of an unsupported protocol.
  predicate ParseFails(g: GatewayInputs) {
    || (exists hr :: hr in g.routes && !SectionsSet(hr))
    || g.secrets.None?
    || (exists a :: a in g.gateway.addresses && !a.kind.IPAddress?)
    || (g.gateway.addresses != [] && exists ls :: ls in g.gateway.listeners && Unsupported(ls))
  }

  predicate GatewayFails(g: GatewayInputs) {
    ParseFails(g) || exists hr :: hr in g.routes && g.routes[hr].program.None?
  }

  predicate Fails(inputs: ClassInputs) {
    inputs.Active? && exists k :: k in inputs.gateways && GatewayFails(inputs.gateways[k])
  }

  /******* What one gateway writes *******/

  type IRuleNames = map<string, seq<string>>

  function Append(m: IRuleNames, k: string, v: string): IRuleNames {
    m[k := GetOr(Lookup(m, k), []) + [v]]
  }

  function HostNames(gw: Gateway, listeners: seq<Listener>): IRuleNames {
    if listeners == [] then map[]
    else
      var ls := listeners[|listeners| - 1];
      var m := HostNames(gw, listeners[..|listeners| - 1]);
      if ls.hostname.None? then m else Append(m, NameOfListener(gw, ls), NameOfListener(gw, ls))
  }

  function HostRules(gw: Gateway, listeners: seq<Listener>): Resources {
    if listeners == [] then map[]
    else
      var ls := listeners[|listeners| - 1];
      var m := HostRules(gw, listeners[..|listeners| - 1]);
      if ls.hostname.None? then m else m[RuleKey(NameOfListener(gw, ls)) := HostRule(ls.hostname.value)]
  }

  function NamespaceFor(g: GatewayInputs, hr: HTTPRoute): Option<Namespace> {
    if hr in g.routes then g.routes[hr].namespace else None
  }

  predicate ParentMatches(g: GatewayInputs, hr: HTTPRoute, pr: ParentRef) {
    RouteMatches(ParentNs(hr, pr), Lookup(ListenerMap(g.gateway, g.gateway.listeners), ParentName(hr, pr)),
      NamespaceFor(g, hr), "HTTPRoute")
  }

  // One parentRef of an attached route: its name gets a list, and the route if it matches.
  function AddParent(g: GatewayInputs, m: IRuleNames, hr: HTTPRoute, pr: ParentRef): IRuleNames {
    var name := ParentName(hr, pr);
    var m1 := if name in m then m else m[name := []];
    if ParentMatches(g, hr, pr) then Append(m1, name, HrName(hr.ns, hr.name)) else m1
  }

  function AddParents(g: GatewayInputs, m: IRuleNames, hr: HTTPRoute, prs: seq<ParentRef>): IRuleNames {
    if prs == [] then m else AddParent(g, AddParents(g, m, hr, prs[..|prs| - 1]), hr, prs[|prs| - 1])
  }

  function AddRoutes(g: GatewayInputs, m: IRuleNames, hrs: seq<HTTPRoute>): IRuleNames {
    if hrs == [] then m
    else
      var hr := hrs[|hrs| - 1];
      AddParents(g, AddRoutes(g, m, hrs[..|hrs| - 1]), hr, hr.parentRefs)
  }

  // The iRules of each listener name, with the attached routes visited in the order hrs.
  function IRulesFor(g: GatewayInputs, hrs: seq<HTTPRoute>): IRuleNames {
    AddRoutes(g, HostNames(g.gateway, g.gateway.listeners), hrs)
  }

  function CertificateResources(scrts: seq<Secret>): Resources {
    if scrts == [] then map[]
    else
      var scrt := scrts[|scrts| - 1];
      CertificateResources(scrts[..|scrts| - 1])
        [CertificateKey(TlsName(scrt.ns, scrt.name)) := Certificate(scrt.certificate, scrt.privateKey)]
  }

  function CertificateNames(scrts: seq<Secret>): seq<string> {
    if scrts == [] then []
    else CertificateNames(scrts[..|scrts| - 1]) + [TlsName(scrts[|scrts| - 1].ns, scrts[|scrts| - 1].name)]
  }

  // parseSecrets
  function TlsResources(name: string, scrts: seq<Secret>): Resources {
    CertificateResources(scrts) +
    (if scrts == [] then map[] else map[ProfileKey(name) := TlsServer(CertificateNames(scrts))])
  }

  function AllTls(secrets: map<string, seq<Secret>>, names: seq<string>): Resources {
    if names == [] then map[]
    else
      var name := names[|names| - 1];
      AllTls(secrets, names[..|names| - 1]) + TlsResources(name, GetOr(Lookup(secrets, name), []))
  }

  function VirtualOf(gw: Gateway, m: IRuleNames, a: Address, ls: Listener): Resource {
    var name := NameOfListener(gw, ls);
    Virtual(
      if ls.protocol.HTTP? then ServiceHTTP else if ls.protocol.HTTPS? then ServiceHTTPS else NoClass,
      if ls.protocol.HTTPS? then Some(name) else None,
      a.value,
      ls.port,
      GetOr(Lookup(m, name), []))
  }

  function ListenerVirtuals(gw: Gateway, m: IRuleNames, a: Address, i: nat, listeners: seq<Listener>): Resources {
    if listeners == [] then map[]
    else
      var ls := listeners[|listeners| - 1];
      ListenerVirtuals(gw, m, a, i, listeners[..|listeners| - 1])
        [VirtualKey(VirtualName(NameOfListener(gw, ls), i)) := VirtualOf(gw, m, a, ls)]
  }

  function AddressVirtuals(gw: Gateway, m: IRuleNames, addresses: seq<Address>): Resources {
    if addresses == [] then map[]
    else
      var i := |addresses| - 1;
      AddressVirtuals(gw, m, addresses[..i]) + ListenerVirtuals(gw, m, addresses[i], i, gw.listeners)
  }

  // parseGateway
  function GatewayResources(g: GatewayInputs, attached: seq<HTTPRoute>, tls: seq<string>): Resources {
    HostRules(g.gateway, g.gateway.listeners) +
    AllTls(GetOr(g.secrets, map[]), tls) +
    AddressVirtuals(g.gateway, IRulesFor(g, attached), g.gateway.addresses)
  }

  function ProgramFor(g: GatewayInputs, hr: HTTPRoute): Program {
    if hr in g.routes then GetOr(g.routes[hr].program, Program([], [])) else Program([], [])
  }

  function RouteResources(g: GatewayInputs, hrs: seq<HTTPRoute>): Resources {
    if hrs == [] then map[]
    else
      var hr := hrs[|hrs| - 1];
      RouteResources(g, hrs[..|hrs| - 1])[RuleKey(HrName(hr.ns, hr.name)) := RouteRule(ProgramFor(g, hr))]
  }

  /******* What a class writes *******/

  // The orders in which one render ranges over its maps: the gateway's attached routes twice,
  // and the secrets by listener name.
  datatype GatewayOrder = GatewayOrder(key: string, attached: seq<HTTPRoute>, tls: seq<string>, rules: seq<HTTPRoute>)

  function OrderKeys(order: seq<GatewayOrder>): (ks: seq<string>)
    ensures |ks| == |order| && forall i :: 0 <= i < |order| ==> ks[i] == order[i].key
  {
    seq(|order|, i requires 0 <= i < |order| => order[i].key)
  }

  predicate ValidGatewayOrder(g: GatewayInputs, o: GatewayOrder) {
    && Enumerates(o.attached, g.routes.Keys)
    && Enumerates(o.rules, g.routes.Keys)
    && Enumerates(o.tls, GetOr(g.secrets, map[]).Keys)
  }

  predicate ValidOrder(gateways: map<string, GatewayInputs>, order: seq<GatewayOrder>) {
    && Enumerates(OrderKeys(order), gateways.Keys)
    && forall o :: o in order && o.key in gateways ==> ValidGatewayOrder(gateways[o.key], o)
  }

  function OrderResources(g: GatewayInputs, o: GatewayOrder): Resources {
    GatewayResources(g, o.attached, o.tls) + RouteResources(g, o.rules)
  }

  function ClassResources(gateways: map<string, GatewayInputs>, order: seq<GatewayOrder>): Resources {
    if order == [] then map[]
    else
      var o := order[|order| - 1];
      ClassResources(gateways, order[..|order| - 1]) +
      (if o.key in gateways then OrderResources(gateways[o.key], o) else map[])
  }

  function Folder(rlt: Resources): Config {
    if rlt == map[] then map[] else map["serviceMain" := rlt]
  }

  // cfg is a possible result of ParseAllForClass on these inputs.
  ghost predicate Renders(inputs: ClassInputs, cfg: Config) {
    && !Fails(inputs)
    && match inputs
       case Inactive => cfg == map[]
       case Active(gateways) =>
         exists order :: ValidOrder(gateways, order) && cfg == Folder(ClassResources(gateways, order))
  }

  /******* Which resources there are, and why *******/

  datatype Origin =
    | HostOrigin(key: string, ls: Listener)
    | RouteOrigin(key: string, hr: HTTPRoute)
    | CertificateOrigin(key: string, name: string, scrt: Secret)
    | ProfileOrigin(key: string, name: string)
    | VirtualOrigin(key: string, ls: Listener, i: nat)

  predicate GatewayProduces(g: GatewayInputs, o: Origin) {
    var secrets := GetOr(g.secrets, map[]);
    match o
    case HostOrigin(_, ls) => ls in g.gateway.listeners && ls.hostname.Some?
    case RouteOrigin(_, hr) => hr in g.routes
    case CertificateOrigin(_, name, scrt) => name in secrets && scrt in secrets[name]
    case ProfileOrigin(_, name) => name in secrets && secrets[name] != []
    case VirtualOrigin(_, ls, i) => ls in g.gateway.listeners && i < |g.gateway.addresses|
  }

  // The resource's last path segment.
  function OriginName(g: GatewayInputs, o: Origin): string {
    match o
    case HostOrigin(_, ls) => NameOfListener(g.gateway, ls)
    case RouteOrigin(_, hr) => HrName(hr.ns, hr.name)
    case CertificateOrigin(_, _, scrt) => TlsName(scrt.ns, scrt.name)
    case ProfileOrigin(_, name) => name
    case VirtualOrigin(_, ls, i) => VirtualName(NameOfListener(g.gateway, ls), i)
  }

  function OriginType(o: Origin): string {
    match o
    case HostOrigin(_, _) => "ltm/rule"
    case RouteOrigin(_, _) => "ltm/rule"
    case CertificateOrigin(_, _, _) => "sys/file/certificate"
    case ProfileOrigin(_, _) => "ltm/profile/client-ssl"
    case VirtualOrigin(_, _, _) => "ltm/virtual"
  }

  function OriginKey(g: GatewayInputs, o: Origin): string { Slash(OriginType(o), OriginName(g, o)) }

  // The value the origin's write puts there. A virtual's iRules depend on the order of routes.
  ghost predicate OriginValue(g: GatewayInputs, o: Origin, r: Resource) {
    match o
    case HostOrigin(_, ls) => ls.hostname.Some? && r == HostRule(ls.hostname.value)
    case RouteOrigin(_, hr) => r == RouteRule(ProgramFor(g, hr))
    case CertificateOrigin(_, _, scrt) => r == Certificate(scrt.certificate, scrt.privateKey)
    case ProfileOrigin(_, name) => r == TlsServer(CertificateNames(GetOr(Lookup(GetOr(g.secrets, map[]), name), [])))
    case VirtualOrigin(_, ls, i) =>
      i < |g.gateway.addresses| && exists hrs ::
        Enumerates(hrs, g.routes.Keys) && r == VirtualOf(g.gateway, IRulesFor(g, hrs), g.gateway.addresses[i], ls)
  }

  ghost predicate From(g: GatewayInputs, key: string, k: string, r: Resource) {
    exists o: Origin :: o.key == key && GatewayProduces(g, o) && k == OriginKey(g, o) && OriginValue(g, o, r)
  }

  // Every entry of m has an origin at this gateway.
  ghost predicate Explained(g: GatewayInputs, key: string, m: Resources) {
    forall k :: k in m ==> From(g, key, k, m[k])
  }

  lemma ExplainedAt(g: GatewayInputs, key: string, m: Resources, k: string)
    requires Explained(g, key, m) && k in m
    ensures From(g, key, k, m[k])
  {
  }

  lemma ExplainedUnion(g: GatewayInputs, key: string, m: Resources, n: Resources)
    requires Explained(g, key, m) && Explained(g, key, n)
    ensures Explained(g, key, m + n)
  {
  }

  lemma ExplainedPut(g: GatewayInputs, m: Resources, o: Origin, r: Resource)
    requires Explained(g, o.key, m) && GatewayProduces(g, o) && OriginValue(g, o, r)
    ensures Explained(g, o.key, m[OriginKey(g, o) := r])
  {
    assert From(g, o.key, OriginKey(g, o), r);
  }

  lemma {:induction false} HostRulesExplained(g: GatewayInputs, key: string, listeners: seq<Listener>)
    requires forall ls :: ls in listeners ==> ls in g.gateway.listeners
    ensures Explained(g, key, HostRules(g.gateway, listeners))
  {
    if listeners != [] {
      var init, ls := listeners[..|listeners| - 1], listeners[|listeners| - 1];
      HostRulesExplained(g, key, init);
      if ls.hostname.Some? {
        ExplainedPut(g, HostRules(g.gateway, init), HostOrigin(key, ls), HostRule(ls.hostname.value));
      }
    }
  }

  lemma {:induction false} HostRulesComplete(gw: Gateway, listeners: seq<Listener>, ls: Listener)
    requires ls in listeners && ls.hostname.Some?
    ensures RuleKey(NameOfListener(gw, ls)) in HostRules(gw, listeners)
  {
    var init, last := listeners[..|listeners| - 1], listeners[|listeners| - 1];
    assert listeners == init + [last];
    if ls in init { HostRulesComplete(gw, init, ls); }
  }

  lemma {:induction false} RouteResourcesExplained(g: GatewayInputs, key: string, hrs: seq<HTTPRoute>)
    requires forall hr :: hr in hrs ==> hr in g.routes
    ensures Explained(g, key, RouteResources(g, hrs))
  {
    if hrs != [] {
      var init, hr := hrs[..|hrs| - 1], hrs[|hrs| - 1];
      RouteResourcesExplained(g, key, init);
      ExplainedPut(g, RouteResources(g, init), RouteOrigin(key, hr), RouteRule(ProgramFor(g, hr)));
    }
  }

  lemma {:induction false} RouteResourcesComplete(g: GatewayInputs, hrs: seq<HTTPRoute>, hr: HTTPRoute)
    requires hr in hrs
    ensures RuleKey(HrName(hr.ns, hr.name)) in RouteResources(g, hrs)
  {
    var init, last := hrs[..|hrs| - 1], hrs[|hrs| - 1];
    assert hrs == init + [last];
    if hr in init { RouteResourcesComplete(g, init, hr); }
  }

  lemma {:induction false} CertificatesExplained(g: GatewayInputs, key: string, name: string, scrts: seq<Secret>)
    requires forall scrt :: scrt in scrts ==> GatewayProduces(g, CertificateOrigin(key, name, scrt))
    ensures Explained(g, key, CertificateResources(scrts))
  {
    if scrts != [] {
      var init, scrt := scrts[..|scrts| - 1], scrts[|scrts| - 1];
      CertificatesExplained(g, key, name, init);
      ExplainedPut(g, CertificateResources(init), CertificateOrigin(key, name, scrt),
        Certificate(scrt.certificate, scrt.privateKey));
    }
  }

  lemma {:induction false} CertificatesComplete(scrts: seq<Secret>, scrt: Secret)
    requires scrt in scrts
    ensures CertificateKey(TlsName(scrt.ns, scrt.name)) in CertificateResources(scrts)
  {
    var init, last := scrts[..|scrts| - 1], scrts[|scrts| - 1];
    assert scrts == init + [last];
    if scrt in init { CertificatesComplete(init, scrt); }
  }

  lemma TlsResourcesAre(name: string, scrts: seq<Secret>)
    ensures TlsResources(name, scrts)
         == if scrts == [] then CertificateResources(scrts)
            else CertificateResources(scrts)[ProfileKey(name) := TlsServer(CertificateNames(scrts))]
  {
  }

  lemma TlsResourcesExplained(g: GatewayInputs, key: string, name: string)
    requires g.secrets.Some? && name in g.secrets.value
    ensures Explained(g, key, TlsResources(name, g.secrets.value[name]))
  {
    var scrts := g.secrets.value[name];
    CertificatesExplained(g, key, name, scrts);
    TlsResourcesAre(name, scrts);
    if scrts != [] {
      ExplainedPut(g, CertificateResources(scrts), ProfileOrigin(key, name), TlsServer(CertificateNames(scrts)));
    }
  }

  lemma {:induction false} TlsExplained(g: GatewayInputs, key: string, names: seq<string>)
    requires g.secrets.Some? && forall name :: name in names ==> name in g.secrets.value
    ensures Explained(g, key, AllTls(g.secrets.value, names))
  {
    if names != [] {
      var init, name := names[..|names| - 1], names[|names| - 1];
      TlsExplained(g, key, init);
      TlsResourcesExplained(g, key, name);
      ExplainedUnion(g, key, AllTls(g.secrets.value, init), TlsResources(name, g.secrets.value[name]));
    }
  }

  lemma {:induction false} TlsComplete(secrets: map<string, seq<Secret>>, names: seq<string>, name: string)
    requires name in names && name in secrets
    ensures TlsResources(name, secrets[name]).Keys <= AllTls(secrets, names).Keys
  {
    var init, last := names[..|names| - 1], names[|names| - 1];
    assert names == init + [last];
    if name in init { TlsComplete(secrets, init, name); }
  }

  lemma {:induction false} ListenerVirtualsExplained(g: GatewayInputs, key: string, hrs: seq<HTTPRoute>, i: nat,
                                                     listeners: seq<Listener>)
    requires i < |g.gateway.addresses| && Enumerates(hrs, g.routes.Keys)
    requires forall ls :: ls in listeners ==> ls in g.gateway.listeners
    ensures Explained(g, key, ListenerVirtuals(g.gateway, IRulesFor(g, hrs), g.gateway.addresses[i], i, listeners))
  {
    if listeners != [] {
      var m, a := IRulesFor(g, hrs), g.gateway.addresses[i];
      var init, ls := listeners[..|listeners| - 1], listeners[|listeners| - 1];
      ListenerVirtualsExplained(g, key, hrs, i, init);
      ExplainedPut(g, ListenerVirtuals(g.gateway, m, a, i, init), VirtualOrigin(key, ls, i),
        VirtualOf(g.gateway, m, a, ls));
    }
  }

  lemma {:induction false} ListenerVirtualsComplete(gw: Gateway, m: IRuleNames, a: Address, i: nat,
                                                    listeners: seq<Listener>, ls: Listener)
    requires ls in listeners
    ensures VirtualKey(VirtualName(NameOfListener(gw, ls), i)) in ListenerVirtuals(gw, m, a, i, listeners)
  {
    var init, last := listeners[..|listeners| - 1], listeners[|listeners| - 1];
    assert listeners == init + [last];
    if ls in init { ListenerVirtualsComplete(gw, m, a, i, init, ls); }
  }

  lemma {:induction false} AddressVirtualsExplained(g: GatewayInputs, key: string, hrs: seq<HTTPRoute>, n: nat)
    requires n <= |g.gateway.addresses| && Enumerates(hrs, g.routes.Keys)
    ensures Explained(g, key, AddressVirtuals(g.gateway, IRulesFor(g, hrs), g.gateway.addresses[..n]))
  {
    if n > 0 {
      var gw, m := g.gateway, IRulesFor(g, hrs);
      assert gw.addresses[..n][..n - 1] == gw.addresses[..n - 1];
      AddressVirtualsExplained(g, key, hrs, n - 1);
      ListenerVirtualsExplained(g, key, hrs, n - 1, gw.listeners);
      ExplainedUnion(g, key, AddressVirtuals(gw, m, gw.addresses[..n - 1]),
                     ListenerVirtuals(gw, m, gw.addresses[n - 1], n - 1, gw.listeners));
    }
  }

  lemma {:induction false} AddressVirtualsComplete(gw: Gateway, m: IRuleNames, n: nat, i: nat, ls: Listener)
    requires i < n <= |gw.addresses| && ls in gw.listeners
    ensures VirtualKey(VirtualName(NameOfListener(gw, ls), i)) in AddressVirtuals(gw, m, gw.addresses[..n])
  {
    assert gw.addresses[..n][..n - 1] == gw.addresses[..n - 1];
    if i == n - 1 {
      ListenerVirtualsComplete(gw, m, gw.addresses[i], i, gw.listeners, ls);
    } else {
      AddressVirtualsComplete(gw, m, n - 1, i, ls);
    }
  }

  lemma OrderExplained(g: GatewayInputs, o: GatewayOrder)
    requires ValidGatewayOrder(g, o) && g.secrets.Some?
    ensures Explained(g, o.key, OrderResources(g, o))
  {
    var gw := g.gateway;
    var a, b, c := HostRules(gw, gw.listeners), AllTls(g.secrets.value, o.tls),
      AddressVirtuals(gw, IRulesFor(g, o.attached), gw.addresses);
    assert gw.addresses[..|gw.addresses|] == gw.addresses;
    assert forall hr :: hr in o.rules ==> hr in Elems(o.rules);
    assert forall name :: name in o.tls ==> name in Elems(o.tls);
    HostRulesExplained(g, o.key, gw.listeners);
    TlsExplained(g, o.key, o.tls);
    ExplainedUnion(g, o.key, a, b);
    AddressVirtualsExplained(g, o.key, o.attached, |gw.addresses|);
    ExplainedUnion(g, o.key, a + b, c);
    RouteResourcesExplained(g, o.key, o.rules);
    ExplainedUnion(g, o.key, a + b + c, RouteResources(g, o.rules));
  }

  lemma OrderComplete(g: GatewayInputs, o: GatewayOrder, origin: Origin)
    requires ValidGatewayOrder(g, o) && g.secrets.Some? && GatewayProduces(g, origin)
    ensures OriginKey(g, origin) in OrderResources(g, o)
  {
    var gw := g.gateway;
    match origin {
      case HostOrigin(_, ls) => HostRulesComplete(gw, gw.listeners, ls);
      case RouteOrigin(_, hr) =>
        assert hr in Elems(o.rules);
        RouteResourcesComplete(g, o.rules, hr);
      case CertificateOrigin(_, name, scrt) =>
        assert name in Elems(o.tls);
        CertificatesComplete(g.secrets.value[name], scrt);
        TlsComplete(g.secrets.value, o.tls, name);
      case ProfileOrigin(_, name) =>
        assert name in Elems(o.tls);
        TlsComplete(g.secrets.value, o.tls, name);
      case VirtualOrigin(_, ls, i) =>
        assert gw.addresses[..|gw.addresses|] == gw.addresses;
        AddressVirtualsComplete(gw, IRulesFor(g, o.attached), |gw.addresses|, i, ls);
    }
  }

  predicate Sound(gateways: map<string, GatewayInputs>, order: seq<GatewayOrder>) {
    forall o :: o in order ==>
      o.key in gateways && ValidGatewayOrder(gateways[o.key], o) && gateways[o.key].secrets.Some?
  }

  lemma SoundParts(gateways: map<string, GatewayInputs>, order: seq<GatewayOrder>)
    requires Sound(gateways, order) && order != []
    ensures var init, o := order[..|order| - 1], order[|order| - 1];
      && Sound(gateways, init)
      && o.key in gateways && ValidGatewayOrder(gateways[o.key], o) && gateways[o.key].secrets.Some?
      && ClassResources(gateways, order) == ClassResources(gateways, init) + OrderResources(gateways[o.key], o)
  {
    assert order[|order| - 1] in order;
    assert forall o :: o in order[..|order| - 1] ==> o in order;
  }

  // Whatever the order: every resource of the class has an origin,
  lemma {:induction false} ClassExplained(gateways: map<string, GatewayInputs>, order: seq<GatewayOrder>, k: string)
    returns (key: string)
    requires Sound(gateways, order) && k in ClassResources(gateways, order)
    ensures key in gateways && From(gateways[key], key, k, ClassResources(gateways, order)[k])
  {
    var init, o := order[..|order| - 1], order[|order| - 1];
    SoundParts(gateways, order);
    if k in OrderResources(gateways[o.key], o) {
      OrderExplained(gateways[o.key], o);
      ExplainedAt(gateways[o.key], o.key, OrderResources(gateways[o.key], o), k);
      key := o.key;
    } else {
      key := ClassExplained(gateways, init, k);
    }
  }

  // and every origin its resource.
  lemma {:induction false} ClassComplete(gateways: map<string, GatewayInputs>, order: seq<GatewayOrder>,
                                         o: GatewayOrder, origin: Origin)
    requires Sound(gateways, order) && o in order && GatewayProduces(gateways[o.key], origin)
    ensures OriginKey(gateways[o.key], origin) in ClassResources(gateways, order)
  {
    var init, last := order[..|order| - 1], order[|order| - 1];
    assert order == init + [last];
    if o in init {
      ClassComplete(gateways, init, o, origin);
    } else {
      OrderComplete(gateways[o.key], o, origin);
    }
  }
}
