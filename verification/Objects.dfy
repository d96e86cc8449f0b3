/** The Kubernetes and Gateway API objects the controller reads. They are values: a stored
    object is never changed, only replaced. A nil pointer field is None. */
module Objects {
  import opened Common
  import opened Names

  const GATEWAY_GROUP := "gateway.networking.k8s.io"

  /******* Namespaces and label selectors *******/

  datatype Namespace = Namespace(name: string, labels: map<string, string>)

  datatype LabelOperator = OpIn | OpNotIn | OpExists | OpDoesNotExist | UnknownOperator

  datatype Requirement = Requirement(key: string, op: LabelOperator, values: seq<string>)

  datatype Selector = Selector(matchLabels: map<string, string>, requirements: seq<Requirement>)

  /******* Gateways *******/

  datatype GatewayClass = GatewayClass(name: string, controllerName: string)

  datatype FromNamespaces = FromAll | FromSame | FromSelector | FromOther

  datatype RouteNamespaces = RouteNamespaces(from: Option<FromNamespaces>, selector: Option<Selector>)

  datatype RouteGroupKind = RouteGroupKind(group: Option<string>, kind: string)

  datatype AllowedRoutes = AllowedRoutes(namespaces: Option<RouteNamespaces>, kinds: seq<RouteGroupKind>)

  datatype Protocol = HTTP | HTTPS | TLS | TCP | UDP | OtherProtocol(name: string)

  datatype TlsMode = Terminate | Passthrough

  datatype CertificateRef =
    CertificateRef(group: Option<string>, kind: Option<string>, ns: Option<string>, name: string)

  datatype TlsConfig = TlsConfig(mode: Option<TlsMode>, certificateRefs: seq<CertificateRef>)

  datatype Listener = Listener(
    name: string,
    hostname: Option<string>,
    port: int,
    protocol: Protocol,
    tls: Option<TlsConfig>,
    allowedRoutes: Option<AllowedRoutes>)

  datatype AddressType = IPAddress | OtherAddress(name: string)

  datatype Address = Address(kind: AddressType, value: string)

  datatype Gateway = Gateway(
    ns: string,
    name: string,
    className: string,
    listeners: seq<Listener>,
    addresses: seq<Address>)

  /******* Routes *******/

  datatype ParentRef = ParentRef(
    group: Option<string>,
    kind: Option<string>,
    ns: Option<string>,
    name: string,
    section: Option<string>)

  datatype PathType = PathPrefix | PathExact | PathRegex | OtherPath

  datatype ValueType = ExactValue | RegexValue | OtherValue

  datatype PathMatch = PathMatch(kind: Option<PathType>, value: string)

  datatype ValueMatch = ValueMatch(kind: Option<ValueType>, name: string, value: string)

  datatype Match = Match(
    path: Option<PathMatch>,
    headers: seq<ValueMatch>,
    httpMethod: Option<string>,
    queryParams: seq<ValueMatch>)

  datatype FilterType =
    | RequestHeaderModifier | ResponseHeaderModifier | RequestMirror | RequestRedirect | ExtensionFilter | OtherFilter

  datatype HeaderModifier =
    HeaderModifier(add: seq<(string, string)>, remove: seq<string>, replace: seq<(string, string)>)

  datatype Redirect = Redirect(
    scheme: Option<string>,
    hostname: Option<string>,
    fullPath: Option<string>,
    port: Option<int>,
    statusCode: Option<int>)

  datatype ExtensionRef = ExtensionRef(group: string, kind: string, name: string)

  datatype Filter = Filter(
    kind: FilterType,
    requestHeaders: Option<HeaderModifier>,
    responseHeaders: Option<HeaderModifier>,
    redirect: Option<Redirect>,
    extension: Option<ExtensionRef>)

  datatype BackendRef = BackendRef(ns: Option<string>, name: string, weight: Option<int>)

  datatype Rule = Rule(matches: seq<Match>, filters: seq<Filter>, backendRefs: seq<BackendRef>)

  datatype HTTPRoute = HTTPRoute(
    ns: string,
    name: string,
    parentRefs: seq<ParentRef>,
    hostnames: seq<string>,
    rules: seq<Rule>)

  /******* Services, secrets and reference grants *******/

  datatype Service = Service(ns: string, name: string)

  // The pool members that k8s.FormatMembersFromServiceEndpoints makes of it; None is its error.
  datatype Endpoints = Endpoints(ns: string, name: string, members: Option<seq<(int, string)>>)

  datatype Secret = Secret(ns: string, name: string, certificate: string, privateKey: string)

  datatype GrantFrom = GrantFrom(group: string, kind: string, ns: string)

  datatype GrantTo = GrantTo(group: string, kind: string, name: Option<string>)

  datatype ReferenceGrant = ReferenceGrant(ns: string, name: string, from: seq<GrantFrom>, to: seq<GrantTo>)

  // What client.Object tells of any object: its group, kind, namespace and name.
  datatype ObjectId = ObjectId(group: string, kind: string, ns: string, name: string)

  function GatewayId(gw: Gateway): ObjectId { ObjectId(GATEWAY_GROUP, "Gateway", gw.ns, gw.name) }
  function RouteId(hr: HTTPRoute): ObjectId { ObjectId(GATEWAY_GROUP, "HTTPRoute", hr.ns, hr.name) }
  function ServiceId(svc: Service): ObjectId { ObjectId("", "Service", svc.ns, svc.name) }
  function SecretId(scrt: Secret): ObjectId { ObjectId("", "Secret", scrt.ns, scrt.name) }

  function GatewayKey(gw: Gateway): string { Key(gw.ns, gw.name) }
  function RouteKey(hr: HTTPRoute): string { Key(hr.ns, hr.name) }
  function ServiceKey(svc: Service): string { Key(svc.ns, svc.name) }

  /******* Who may attach to a listener *******/

  // metav1.LabelSelectorAsSelector followed by Matches. A nil selector matches nothing; a
  // malformed one is an error, on which RouteMatches answers false.
  predicate SelectorMatches(selector: Option<Selector>, labels: map<string, string>) {
    && selector.Some?
    && (forall k :: k in selector.value.matchLabels ==> k in labels && labels[k] == selector.value.matchLabels[k])
    && (forall r :: r in selector.value.requirements ==> RequirementHolds(r, labels))
  }

  predicate RequirementHolds(r: Requirement, labels: map<string, string>) {
    match r.op
    case OpIn => r.values != [] && r.key in labels && labels[r.key] in r.values
    case OpNotIn => r.values != [] && (r.key in labels ==> labels[r.key] !in r.values)
    case OpExists => r.values == [] && r.key in labels
    case OpDoesNotExist => r.values == [] && r.key !in labels
    case UnknownOperator => false
  }

  predicate NamespaceAllowed(gwNs: string, namespaces: RouteNamespaces, routeNs: Namespace) {
    && namespaces.from.Some?
    && match namespaces.from.value
       case FromAll => true
       case FromSame => gwNs == routeNs.name
       case FromSelector => SelectorMatches(namespaces.selector, routeNs.labels)
       case FromOther => false
  }

  // With no kinds listed the protocol decides.
  predicate ProtocolAllows(protocol: Protocol, routeType: string) {
    (protocol.HTTP? || protocol.HTTPS?) && routeType == "HTTPRoute"
  }

  predicate Foreign(k: RouteGroupKind) { k.group.Some? && k.group.value != GATEWAY_GROUP }

  // The route's kind is listed, and no kind of another group is listed before it.
  predicate KindListed(kinds: seq<RouteGroupKind>, routeType: string) {
    exists i :: 0 <= i < |kinds| && kinds[i].kind == routeType && forall j :: 0 <= j <= i ==> !Foreign(kinds[j])
  }

  predicate RouteMatches(gwNs: string, listener: Option<Listener>, routeNs: Option<Namespace>, routeType: string) {
    && listener.Some?
    && listener.value.allowedRoutes.Some?
    && routeNs.Some?
    && var allowed := listener.value.allowedRoutes.value;
    && allowed.namespaces.Some?
    && NamespaceAllowed(gwNs, allowed.namespaces.value, routeNs.value)
    && if allowed.kinds == [] then ProtocolAllows(listener.value.protocol, routeType)
       else KindListed(allowed.kinds, routeType)
  }

  method MatchRoute(gwNs: string, listener: Option<Listener>, routeNs: Option<Namespace>, routeType: string)
    returns (matched: bool)
    ensures matched == RouteMatches(gwNs, listener, routeNs, routeType)
  {
    if listener.None? || listener.value.allowedRoutes.None? {
      return false;
    }
    var allowed := listener.value.allowedRoutes.value;
    if allowed.namespaces.None? || allowed.namespaces.value.from.None? {
      return false;
    }
    if routeNs.None? {
      return false;
    }
    if !NamespaceAllowed(gwNs, allowed.namespaces.value, routeNs.value) {
      return false;
    }
    if |allowed.kinds| == 0 {
      return ProtocolAllows(listener.value.protocol, routeType);
    }
    for i := 0 to |allowed.kinds|
      invariant forall j :: 0 <= j < i ==> !Foreign(allowed.kinds[j]) && allowed.kinds[j].kind != routeType
    {
      if Foreign(allowed.kinds[i]) {
        return false;
      }
      if allowed.kinds[i].kind == routeType {
        return true;
      }
    }
    return false;
  }

  /******* What Kubernetes validation guarantees of names *******/

  // Neither a separator of keys nor one of the placeholders stringifyRGFrom and stringifyRGTo use.
  predicate CleanPart(s: string) { '/' !in s && s != "-" && s != "*" }

  predicate CleanFrom(f: GrantFrom) { CleanPart(f.group) && CleanPart(f.kind) && CleanPart(f.ns) }

  predicate CleanTo(t: GrantTo) {
    CleanPart(t.group) && CleanPart(t.kind) && (t.name.Some? ==> CleanPart(t.name.value))
  }

  predicate CleanGrant(rg: ReferenceGrant) {
    && CleanPart(rg.ns)
    && (forall f :: f in rg.from ==> CleanFrom(f))
    && (forall t :: t in rg.to ==> CleanTo(t))
  }

  predicate CleanId(id: ObjectId) {
    CleanPart(id.group) && CleanPart(id.kind) && CleanPart(id.ns) && CleanPart(id.name)
  }
}
