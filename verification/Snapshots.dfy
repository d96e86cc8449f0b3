/** What the cache's queries answer, as functions of a snapshot of its maps. */
module Snapshots {
  import opened Common
  import opened Names
  import opened Objects
  import opened GrantIndex

  datatype Snapshot = Snapshot(
    controllerName: string,
    gateways: map<string, Gateway>,
    routes: map<string, HTTPRoute>,
    services: map<string, Service>,
    endpoints: map<string, Endpoints>,
    classes: map<string, GatewayClass>,
    namespaces: map<string, Namespace>,
    grants: map<string, ReferenceGrant>,
    secrets: map<string, Secret>,
    index: Index)

  /******* Well-formed snapshots *******/

  // A namespace's name is a DNS label.
  predicate LabelName(s: string) { CleanPart(s) && s != "" && '.' !in s }

  predicate ObjectName(s: string) { CleanPart(s) && s != "" }

  predicate CleanGateway(gw: Gateway) {
    && LabelName(gw.ns)
    && ObjectName(gw.name)
    && forall ls, ref :: ls in gw.listeners && ls.tls.Some? && ref in ls.tls.value.certificateRefs ==>
      LabelName(RefNs(gw, ref))
  }

  predicate CleanRoute(hr: HTTPRoute) {
    && LabelName(hr.ns)
    && ObjectName(hr.name)
    && forall pr :: pr in hr.parentRefs ==> LabelName(GetOr(pr.ns, hr.ns))
  }

  // Every parentRef names a section: the queries dereference it (see the webhook's first check).
  predicate SectionsSet(hr: HTTPRoute) {
    forall pr :: pr in hr.parentRefs ==> pr.section.Some?
  }

  // No nil section name is dereferenced: of a parentRef whose gateway is known and has a listener.
  predicate SectionsSafe(s: Snapshot, hr: HTTPRoute) {
    forall pr :: pr in hr.parentRefs && HasListener(s, ParentKey(hr, pr)) ==> pr.section.Some?
  }

  predicate HasListener(s: Snapshot, k: string) { k in s.gateways && s.gateways[k].listeners != [] }

  predicate UniqueListeners(gw: Gateway) {
    forall i, j :: 0 <= i < j < |gw.listeners| ==> gw.listeners[i].name != gw.listeners[j].name
  }

  // Every object is stored under its own key.
  predicate Keyed(s: Snapshot) {
    && (forall k :: k in s.gateways ==> k == GatewayKey(s.gateways[k]))
    && (forall k :: k in s.routes ==> k == RouteKey(s.routes[k]))
    && (forall k :: k in s.services ==> k == ServiceKey(s.services[k]))
    && (forall k :: k in s.classes ==> k == s.classes[k].name)
    && (forall k :: k in s.namespaces ==> k == s.namespaces[k].name)
    && (forall k :: k in s.grants ==> k == Key(s.grants[k].ns, s.grants[k].name))
    && (forall k :: k in s.secrets ==> k == Key(s.secrets[k].ns, s.secrets[k].name))
  }

  predicate Clean(s: Snapshot) {
    && (forall k :: k in s.gateways ==> CleanGateway(s.gateways[k]))
    && (forall k :: k in s.routes ==> CleanRoute(s.routes[k]) && SectionsSet(s.routes[k]))
    && (forall k :: k in s.services ==> LabelName(s.services[k].ns) && ObjectName(s.services[k].name))
    && (forall k :: k in s.secrets ==> LabelName(s.secrets[k].ns) && ObjectName(s.secrets[k].name))
    && (forall k :: k in s.grants ==> CleanGrant(s.grants[k]))
  }

  predicate WellFormed(s: Snapshot) { Keyed(s) && Clean(s) }

  /******* Cross-namespace references *******/

  // _canRefer: same namespace, or granted for the object or for all objects of its kind.
  predicate CanRefer(idx: Index, from: ObjectId, to: ObjectId) {
    || from.ns == to.ns
    || (&& from.group == GATEWAY_GROUP
        && var f := FromKey(GrantFrom(from.group, from.kind, from.ns));
           || Exists(idx, f, ToKey(GrantTo(to.group, to.kind, Some(to.name)), to.ns))
           || Exists(idx, f, ToKey(GrantTo(to.group, to.kind, None), to.ns)))
  }

  /******* Routes and gateways *******/

  function ParentNs(hr: HTTPRoute, pr: ParentRef): string { GetOr(pr.ns, hr.ns) }
  function ParentKey(hr: HTTPRoute, pr: ParentRef): string { Key(ParentNs(hr, pr), pr.name) }
  function ParentName(hr: HTTPRoute, pr: ParentRef): string {
    ListenerName(ParentNs(hr, pr), pr.name, GetOr(pr.section, ""))
  }

  function NameOfListener(gw: Gateway, ls: Listener): string { ListenerName(gw.ns, gw.name, ls.name) }

  // Some listener of the gateway has the section's name and lets the route in.
  predicate Admits(s: Snapshot, gw: Gateway, hr: HTTPRoute, pr: ParentRef) {
    exists ls :: ls in gw.listeners && pr.section == Some(ls.name) &&
      RouteMatches(gw.ns, Some(ls), Lookup(s.namespaces, hr.ns), "HTTPRoute")
  }

  // _gatewayRefsOfHR: the gateways of the parentRefs that admit the route, in order.
  function RefsOf(s: Snapshot, hr: HTTPRoute, prs: seq<ParentRef>): seq<Gateway> {
    if prs == [] then []
    else
      var pr := prs[|prs| - 1];
      var k := ParentKey(hr, pr);
      RefsOf(s, hr, prs[..|prs| - 1]) +
      (if k in s.gateways && Admits(s, s.gateways[k], hr, pr) then [s.gateways[k]] else [])
  }

  function GatewayRefs(s: Snapshot, hr: HTTPRoute): seq<Gateway> { RefsOf(s, hr, hr.parentRefs) }

  // The map from joined names to listeners; of two with the same name the later stays.
  function ListenerMap(gw: Gateway, listeners: seq<Listener>): map<string, Listener> {
    if listeners == [] then map[]
    else
      var ls := listeners[|listeners| - 1];
      ListenerMap(gw, listeners[..|listeners| - 1])[NameOfListener(gw, ls) := ls]
  }

  predicate AttachedBy(s: Snapshot, gw: Gateway, hr: HTTPRoute, pr: ParentRef) {
    && ParentKey(hr, pr) == GatewayKey(gw)
    && RouteMatches(gw.ns, Lookup(ListenerMap(gw, gw.listeners), ParentName(hr, pr)), Lookup(s.namespaces, hr.ns),
      "HTTPRoute")
  }

  predicate Attached(s: Snapshot, gw: Gateway, hr: HTTPRoute) {
    exists pr :: pr in hr.parentRefs && AttachedBy(s, gw, hr, pr)
  }

  // _attachedHTTPRoutes
  function AttachedRoutes(s: Snapshot, gw: Gateway): set<HTTPRoute> {
    set k | k in s.routes && Attached(s, gw, s.routes[k]) :: s.routes[k]
  }

  // _attachedGateways
  function GatewaysOf(s: Snapshot, className: string): set<Gateway> {
    set k | k in s.gateways && s.gateways[k].className == className :: s.gateways[k]
  }

  /******* Services *******/

  predicate ServiceFor(s: Snapshot, hr: HTTPRoute, k: string) {
    k in s.services && CanRefer(s.index, RouteId(hr), ServiceId(s.services[k]))
  }

  function BackendServices(s: Snapshot, hr: HTTPRoute, brs: seq<BackendRef>): seq<Service> {
    if brs == [] then []
    else
      var br := brs[|brs| - 1];
      var k := Key(GetOr(br.ns, hr.ns), br.name);
      BackendServices(s, hr, brs[..|brs| - 1]) + (if ServiceFor(s, hr, k) then [s.services[k]] else [])
  }

  predicate NamesService(fl: Filter) {
    fl.kind.ExtensionFilter? && fl.extension.Some? && fl.extension.value.group == "" &&
      fl.extension.value.kind == "Service"
  }

  function FilterServices(s: Snapshot, hr: HTTPRoute, fls: seq<Filter>): seq<Service> {
    if fls == [] then []
    else
      var fl := fls[|fls| - 1];
      FilterServices(s, hr, fls[..|fls| - 1]) +
      (if NamesService(fl) && ServiceFor(s, hr, Key(hr.ns, fl.extension.value.name))
       then [s.services[Key(hr.ns, fl.extension.value.name)]] else [])
  }

  function AllBackends(s: Snapshot, hr: HTTPRoute, rules: seq<Rule>): seq<Service> {
    if rules == [] then []
    else AllBackends(s, hr, rules[..|rules| - 1]) + BackendServices(s, hr, rules[|rules| - 1].backendRefs)
  }

  function AllExtensions(s: Snapshot, hr: HTTPRoute, rules: seq<Rule>): seq<Service> {
    if rules == [] then []
    else AllExtensions(s, hr, rules[..|rules| - 1]) + FilterServices(s, hr, rules[|rules| - 1].filters)
  }

  // _attachedServices: backends of all rules first, then extension references.
  function AttachedServices(s: Snapshot, hr: HTTPRoute): seq<Service> {
    AllBackends(s, hr, hr.rules) + AllExtensions(s, hr, hr.rules)
  }

  // RelatedServices: along the chain class, gateway, attached route, service.
  function RelatedServices(s: Snapshot, className: string): set<Service> {
    set gw, svc | gw in GatewaysOf(s, className) && svc in GatewayServices(s, gw) :: svc
  }

  function GatewayServices(s: Snapshot, gw: Gateway): set<Service> {
    set hr, svc | hr in AttachedRoutes(s, gw) && svc in AttachedServices(s, hr) :: svc
  }

  // _HTTPRoutesRefsOf
  function RoutesTo(s: Snapshot, svc: Service): set<HTTPRoute> {
    set k | k in s.routes && ServiceKey(svc) in ServiceKeys(AttachedServices(s, s.routes[k])) :: s.routes[k]
  }

  function ServiceKeys(svcs: seq<Service>): set<string> { set svc | svc in svcs :: ServiceKey(svc) }

  // GetRootGateways of one service: back along route and parentRef.
  function RootGateways(s: Snapshot, svc: Service): set<Gateway> {
    set hr, gw | hr in RoutesTo(s, svc) && gw in GatewayRefs(s, hr) :: gw
  }

  // GetNeighborGateways
  function Neighbors(s: Snapshot, gw: Gateway): set<Gateway> {
    set hr, ng | hr in AttachedRoutes(s, gw) && ng in GatewayRefs(s, hr) && GatewayKey(ng) != GatewayKey(gw) :: ng
  }

  /******* Secrets *******/

  predicate SecretTyped(ref: CertificateRef) {
    GetOr(ref.group, "") == "" && GetOr(ref.kind, "Secret") == "Secret"
  }

  predicate Terminates(tls: TlsConfig) { tls.mode.None? || tls.mode.value.Terminate? }

  function RefNs(gw: Gateway, ref: CertificateRef): string { GetOr(ref.ns, gw.ns) }

  // The secrets of certificate references; None if one is missing, not referable or no Secret.
  function RefSecrets(s: Snapshot, gw: Gateway, refs: seq<CertificateRef>): Option<seq<Secret>> {
    if refs == [] then Some([])
    else
      var ref := refs[|refs| - 1];
      var k := Key(RefNs(gw, ref), ref.name);
      match RefSecrets(s, gw, refs[..|refs| - 1])
      case None => None
      case Some(scrts) =>
        if k in s.secrets && CanRefer(s.index, GatewayId(gw), SecretId(s.secrets[k])) && SecretTyped(ref)
        then Some(scrts + [s.secrets[k]]) else None
  }

  function ListenerSecrets(s: Snapshot, gw: Gateway, ls: Listener): Option<seq<Secret>> {
    if !ls.protocol.HTTPS? then Some([])
    else if ls.tls.None? then None
    else if Terminates(ls.tls.value) then RefSecrets(s, gw, ls.tls.value.certificateRefs)
    else Some([])
  }

  // AttachedSecrets, with None for its errors.
  function SecretMap(s: Snapshot, gw: Gateway, listeners: seq<Listener>): Option<map<string, seq<Secret>>> {
    if listeners == [] then Some(map[])
    else
      var ls := listeners[|listeners| - 1];
      var name := NameOfListener(gw, ls);
      var m := SecretMap(s, gw, listeners[..|listeners| - 1]);
      var scrts := ListenerSecrets(s, gw, ls);
      if m.None? || scrts.None? then None
      else Some(m.value[name := GetOr(Lookup(m.value, name), []) + scrts.value])
  }

  function AttachedSecrets(s: Snapshot, gw: Gateway): Option<map<string, seq<Secret>>> {
    SecretMap(s, gw, gw.listeners)
  }

  // What GatewayRefsOfSecret finds on one gateway.
  datatype Finding = Unused | Used | Rejected

  predicate RefersToSecret(gw: Gateway, ref: CertificateRef, scrt: Secret) {
    RefNs(gw, ref) == scrt.ns && ref.name == scrt.name
  }

  function FindInRefs(s: Snapshot, gw: Gateway, refs: seq<CertificateRef>, scrt: Secret): Finding {
    if refs == [] then Unused
    else if RefersToSecret(gw, refs[0], scrt) then
      if SecretTyped(refs[0]) && CanRefer(s.index, GatewayId(gw), SecretId(scrt)) then Used else Rejected
    else FindInRefs(s, gw, refs[1..], scrt)
  }

  function FindInListener(s: Snapshot, gw: Gateway, ls: Listener, scrt: Secret): Finding {
    if !ls.protocol.HTTPS? then Unused
    else if ls.tls.None? then Rejected
    else if Terminates(ls.tls.value) then FindInRefs(s, gw, ls.tls.value.certificateRefs, scrt)
    else Unused
  }

  function FindInListeners(s: Snapshot, gw: Gateway, listeners: seq<Listener>, scrt: Secret): Finding {
    if listeners == [] then Unused
    else
      var found := FindInListener(s, gw, listeners[0], scrt);
      if found.Unused? then FindInListeners(s, gw, listeners[1..], scrt) else found
  }

  function FindSecret(s: Snapshot, gw: Gateway, scrt: Secret): Finding {
    FindInListeners(s, gw, gw.listeners, scrt)
  }

  predicate SecretRejected(s: Snapshot, scrt: Secret) {
    exists k :: k in s.gateways && FindSecret(s, s.gateways[k], scrt).Rejected?
  }

  function SecretUsers(s: Snapshot, scrt: Secret): set<Gateway> {
    set k | k in s.gateways && FindSecret(s, s.gateways[k], scrt).Used? :: s.gateways[k]
  }

  /******* Impacted classes *******/

  predicate NamesKind(f: GrantFrom, kind: string, ns: string) {
    f.group == GATEWAY_GROUP && f.kind == kind && f.ns == ns
  }

  predicate GrantNames(rg: ReferenceGrant, kind: string, ns: string) {
    exists f :: f in rg.from && NamesKind(f, kind, ns)
  }

  function ClassNames(gws: seq<Gateway>): set<string> { set gw | gw in gws :: gw.className }

  // RGImpactedGatewayClasses
  function GrantClasses(s: Snapshot, rg: ReferenceGrant): set<string> {
    (set k | k in s.gateways && GrantNames(rg, "Gateway", s.gateways[k].ns) :: s.gateways[k].className) +
    (set k, gw | k in s.routes && GrantNames(rg, "HTTPRoute", s.routes[k].ns) &&
      gw in GatewayRefs(s, s.routes[k]) :: gw.className)
  }

  // NSImpactedGatewayClasses
  function NamespaceClasses(s: Snapshot, ns: string): set<string> {
    set k, pr | k in s.routes && s.routes[k].ns == ns && pr in s.routes[k].parentRefs &&
      ParentKey(s.routes[k], pr) in s.gateways
      :: s.gateways[ParentKey(s.routes[k], pr)].className
  }

  /******* Forward and backward attachment agree *******/

  lemma {:induction false} RefsOfMembers(s: Snapshot, hr: HTTPRoute, prs: seq<ParentRef>, gw: Gateway)
    ensures gw in RefsOf(s, hr, prs) <==>
      exists pr :: pr in prs && ParentKey(hr, pr) in s.gateways && s.gateways[ParentKey(hr, pr)] == gw &&
        Admits(s, gw, hr, pr)
  {
    if prs != [] {
      var init, pr := prs[..|prs| - 1], prs[|prs| - 1];
      RefsOfMembers(s, hr, init, gw);
      assert prs == init + [pr];
    }
  }

  lemma {:induction false} ListenerMapLookup(gw: Gateway, listeners: seq<Listener>, section: string)
    ensures var found := Lookup(ListenerMap(gw, listeners), ListenerName(gw.ns, gw.name, section));
      && (found.Some? ==> found.value in listeners && found.value.name == section)
      && (found.None? ==> forall ls :: ls in listeners ==> ls.name != section)
  {
    if listeners != [] {
      var init, ls := listeners[..|listeners| - 1], listeners[|listeners| - 1];
      ListenerMapLookup(gw, init, section);
      assert listeners == init + [ls];
      if NameOfListener(gw, ls) == ListenerName(gw.ns, gw.name, section) {
        SectionInjective(gw.ns, gw.name, ls.name, section);
      }
    }
  }

  // A parentRef of this gateway looks up its own section's name.
  lemma ParentNameSection(gw: Gateway, hr: HTTPRoute, pr: ParentRef)
    requires CleanGateway(gw) && CleanRoute(hr) && pr in hr.parentRefs
    requires ParentKey(hr, pr) == GatewayKey(gw)
    ensures ParentName(hr, pr) == ListenerName(gw.ns, gw.name, GetOr(pr.section, ""))
  {
    KeyInjective(ParentNs(hr, pr), pr.name, gw.ns, gw.name);
  }

  // Attachment read from the gateway implies attachment read from the route.
  lemma AttachedIsReferenced(s: Snapshot, gw: Gateway, hr: HTTPRoute)
    requires Lookup(s.gateways, GatewayKey(gw)) == Some(gw)
    requires CleanGateway(gw) && CleanRoute(hr) && SectionsSet(hr)
    requires Attached(s, gw, hr)
    ensures gw in GatewayRefs(s, hr)
  {
    var pr :| pr in hr.parentRefs && AttachedBy(s, gw, hr, pr);
    ParentNameSection(gw, hr, pr);
    ListenerMapLookup(gw, gw.listeners, pr.section.value);
    RefsOfMembers(s, hr, hr.parentRefs, gw);
    assert Admits(s, gw, hr, pr);
  }

  lemma ReferencedIsAttached(s: Snapshot, gw: Gateway, hr: HTTPRoute)
    requires CleanGateway(gw) && CleanRoute(hr) && UniqueListeners(gw)
    requires Keyed(s) && gw in GatewayRefs(s, hr)
    ensures Attached(s, gw, hr)
  {
    RefsOfMembers(s, hr, hr.parentRefs, gw);
    var pr :| pr in hr.parentRefs && ParentKey(hr, pr) in s.gateways &&
      s.gateways[ParentKey(hr, pr)] == gw && Admits(s, gw, hr, pr);
    AdmittedIsAttached(s, gw, hr, pr);
  }

  lemma AdmittedIsAttached(s: Snapshot, gw: Gateway, hr: HTTPRoute, pr: ParentRef)
    requires CleanGateway(gw) && CleanRoute(hr) && UniqueListeners(gw)
    requires pr in hr.parentRefs && ParentKey(hr, pr) == GatewayKey(gw) && Admits(s, gw, hr, pr)
    ensures AttachedBy(s, gw, hr, pr)
  {
    ParentNameSection(gw, hr, pr);
    ListenerMapLookup(gw, gw.listeners, pr.section.value);
  }

  // With unique listener names the two readings agree.
  lemma AttachmentAgrees(s: Snapshot, gw: Gateway, hr: HTTPRoute)
    requires Keyed(s) && Lookup(s.gateways, GatewayKey(gw)) == Some(gw)
    requires CleanGateway(gw) && CleanRoute(hr) && SectionsSet(hr) && UniqueListeners(gw)
    ensures gw in GatewayRefs(s, hr) <==> Attached(s, gw, hr)
  {
    if Attached(s, gw, hr) {
      AttachedIsReferenced(s, gw, hr);
    }
    if gw in GatewayRefs(s, hr) {
      ReferencedIsAttached(s, gw, hr);
    }
  }
}
