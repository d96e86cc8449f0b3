/** The certificates of listeners, said in terms of their references, the stored secrets and grants. */
module Certificates {
  import opened Common
  import opened Names
  import opened Objects
  import opened Snapshots
  import opened Rendering
  import opened RenderExact
  import opened Webhooks
  import opened ServiceUse

  /******* References to secrets *******/

  // The reference names the secret, in its own namespace or else in the gateway's.
  predicate NamesSecret(gw: Gateway, ref: CertificateRef, scrt: Secret) {
    ref.name == scrt.name && (ref.ns == Some(scrt.ns) || (ref.ns.None? && gw.ns == scrt.ns))
  }

  predicate CoreSecret(ref: CertificateRef) {
    ref.group in {None, Some("")} && ref.kind in {None, Some("Secret")}
  }

  // The grant is in the secret's namespace, and lets gateways of the namespace use it.
  predicate GrantsSecret(rg: ReferenceGrant, ns: string, scrt: Secret) {
    && rg.ns == scrt.ns
    && GrantFrom("gateway.networking.k8s.io", "Gateway", ns) in rg.from
    && (GrantTo("", "Secret", Some(scrt.name)) in rg.to || GrantTo("", "Secret", None) in rg.to)
  }

  predicate MayUseSecret(s: Snapshot, gw: Gateway, scrt: Secret) {
    gw.ns == scrt.ns || exists k :: k in s.grants && GrantsSecret(s.grants[k], gw.ns, scrt)
  }

  lemma GatewayIdClean(gw: Gateway)
    requires CleanGateway(gw)
    ensures CleanId(GatewayId(gw))
  {
    assert CleanPart(GATEWAY_GROUP) by { assert GATEWAY_GROUP[0] == 'g'; }
    assert CleanPart("Gateway");
  }

  lemma MayUseSecretIff(s: Snapshot, gw: Gateway, scrt: Secret)
    requires ExactIndex(s) && CleanGateway(gw) && LabelName(scrt.ns) && ObjectName(scrt.name)
    ensures CanRefer(s.index, GatewayId(gw), SecretId(scrt)) <==> MayUseSecret(s, gw, scrt)
  {
    var all := SomeList(s.grants);
    var rgs := InNamespace(all, scrt.ns);
    assert ListsNamespace(rgs, s.grants, scrt.ns);
    GatewayIdClean(gw);
    IndexAgreesWithScan(s.index, s.grants, rgs, GatewayId(gw), SecretId(scrt));
    ScanIs(rgs, GatewayId(gw), SecretId(scrt));
    if rg :| rg in rgs && ListsReference(rg, GatewayId(gw), SecretId(scrt)) {
      assert GrantsSecret(rg, gw.ns, scrt);
      var k :| k in s.grants && s.grants[k] == rg;
    }
    if k :| k in s.grants && GrantsSecret(s.grants[k], gw.ns, scrt) {
      assert s.grants[k] in rgs && ListsReference(s.grants[k], GatewayId(gw), SecretId(scrt));
    }
  }

  predicate StoredSecret(s: Snapshot, scrt: Secret) { exists k :: k in s.secrets && s.secrets[k] == scrt }

  // The reference leads to this stored secret, and the gateway may use it.
  predicate Leads(s: Snapshot, gw: Gateway, ref: CertificateRef, scrt: Secret) {
    StoredSecret(s, scrt) && NamesSecret(gw, ref, scrt) && CoreSecret(ref) && MayUseSecret(s, gw, scrt)
  }

  predicate LeadsTo(s: Snapshot, gw: Gateway, refs: seq<CertificateRef>, scrts: seq<Secret>) {
    |scrts| == |refs| && forall i :: 0 <= i < |refs| ==> Leads(s, gw, refs[i], scrts[i])
  }

  predicate Usable(s: Snapshot, gw: Gateway, ref: CertificateRef) {
    exists k :: k in s.secrets && Leads(s, gw, ref, s.secrets[k])
  }

  predicate CleanRefs(gw: Gateway, refs: seq<CertificateRef>) {
    forall ref :: ref in refs ==> LabelName(RefNs(gw, ref))
  }

  lemma UsableIff(s: Snapshot, gw: Gateway, ref: CertificateRef)
    requires WellFormed(s) && ExactIndex(s) && CleanGateway(gw) && LabelName(RefNs(gw, ref))
    ensures var k := Key(RefNs(gw, ref), ref.name);
      && (Usable(s, gw, ref) <==>
          k in s.secrets && CanRefer(s.index, GatewayId(gw), SecretId(s.secrets[k])) && SecretTyped(ref))
      && (Usable(s, gw, ref) ==> Leads(s, gw, ref, s.secrets[k]))
  {
    var k := Key(RefNs(gw, ref), ref.name);
    if k in s.secrets {
      KeyInjective(RefNs(gw, ref), ref.name, s.secrets[k].ns, s.secrets[k].name);
      MayUseSecretIff(s, gw, s.secrets[k]);
    }
    if j :| j in s.secrets && Leads(s, gw, ref, s.secrets[j]) {
      assert j == k;
    }
  }

  lemma {:induction false} RefSecretsIff(s: Snapshot, gw: Gateway, refs: seq<CertificateRef>)
    requires WellFormed(s) && ExactIndex(s) && CleanGateway(gw) && CleanRefs(gw, refs)
    ensures RefSecrets(s, gw, refs).Some? <==> forall ref :: ref in refs ==> Usable(s, gw, ref)
    ensures RefSecrets(s, gw, refs).Some? ==> LeadsTo(s, gw, refs, RefSecrets(s, gw, refs).value)
  {
    if refs != [] {
      var init, ref := refs[..|refs| - 1], refs[|refs| - 1];
      assert refs == init + [ref];
      RefSecretsIff(s, gw, init);
      UsableIff(s, gw, ref);
    }
  }

  /******* Listeners *******/

  // An HTTPS listener that does not pass TLS through presents certificates.
  predicate Presents(ls: Listener) {
    ls.protocol == HTTPS && ls.tls.Some? && ls.tls.value.mode in {None, Some(Terminate)}
  }

  // Its certificates can all be used; an HTTPS listener without TLS settings cannot.
  predicate ListenerUsable(s: Snapshot, gw: Gateway, ls: Listener) {
    ls.protocol == HTTPS ==>
      ls.tls.Some? && (Presents(ls) ==> forall ref :: ref in ls.tls.value.certificateRefs ==> Usable(s, gw, ref))
  }

  lemma PresentsIs(ls: Listener)
    ensures Presents(ls) <==> ls.protocol.HTTPS? && ls.tls.Some? && Terminates(ls.tls.value)
  {
    if ls.tls.Some? { assert ls.tls.value.mode in {None, Some(Terminate)} <==> Terminates(ls.tls.value); }
  }

  lemma ListenerIff(s: Snapshot, gw: Gateway, ls: Listener)
    requires WellFormed(s) && ExactIndex(s) && CleanGateway(gw) && ls in gw.listeners
    ensures ListenerSecrets(s, gw, ls).Some? <==> ListenerUsable(s, gw, ls)
    ensures ListenerSecrets(s, gw, ls).Some? ==>
      if Presents(ls) then LeadsTo(s, gw, ls.tls.value.certificateRefs, ListenerSecrets(s, gw, ls).value)
      else ListenerSecrets(s, gw, ls).value == []
  {
    PresentsIs(ls);
    if ls.tls.Some? { RefSecretsIff(s, gw, ls.tls.value.certificateRefs); }
  }

  // AttachedSecrets succeeds exactly if all listeners can use their certificates.
  lemma {:induction false} SecretMapIff(s: Snapshot, gw: Gateway, listeners: seq<Listener>)
    requires WellFormed(s) && ExactIndex(s) && CleanGateway(gw) && forall ls :: ls in listeners ==> ls in gw.listeners
    ensures SecretMap(s, gw, listeners).Some? <==> forall ls :: ls in listeners ==> ListenerUsable(s, gw, ls)
  {
    if listeners != [] {
      var init, last := listeners[..|listeners| - 1], listeners[|listeners| - 1];
      assert listeners == init + [last];
      SecretMapIff(s, gw, init);
      ListenerIff(s, gw, last);
    }
  }

  predicate DistinctNames(listeners: seq<Listener>) {
    forall i, j :: 0 <= i < j < |listeners| ==> listeners[i].name != listeners[j].name
  }

  lemma {:induction false} SecretMapAt(s: Snapshot, gw: Gateway, listeners: seq<Listener>, ls: Listener)
    requires SecretMap(s, gw, listeners).Some? && ls in listeners && DistinctNames(listeners)
    ensures ListenerSecrets(s, gw, ls).Some?
    ensures Lookup(SecretMap(s, gw, listeners).value, NameOfListener(gw, ls)) == ListenerSecrets(s, gw, ls)
  {
    var init, last := listeners[..|listeners| - 1], listeners[|listeners| - 1];
    assert listeners == init + [last];
    if ls in init {
      SecretMapAt(s, gw, init, ls);
      var i :| 0 <= i < |init| && init[i] == ls;
      assert listeners[i].name != listeners[|listeners| - 1].name;
      if NameOfListener(gw, ls) == NameOfListener(gw, last) { SectionInjective(gw.ns, gw.name, ls.name, last.name); }
    } else {
      SecretMapFresh(s, gw, init, last);
      assert [] + ListenerSecrets(s, gw, last).value == ListenerSecrets(s, gw, last).value;
    }
  }

  lemma SecretMapFresh(s: Snapshot, gw: Gateway, listeners: seq<Listener>, ls: Listener)
    requires SecretMap(s, gw, listeners).Some? && forall l :: l in listeners ==> l.name != ls.name
    ensures NameOfListener(gw, ls) !in SecretMap(s, gw, listeners).value
  {
    if NameOfListener(gw, ls) in SecretMap(s, gw, listeners).value {
      SecretMapStored(s, gw, listeners, NameOfListener(gw, ls));
      var l :| l in listeners && NameOfListener(gw, ls) == NameOfListener(gw, l);
      SectionInjective(gw.ns, gw.name, ls.name, l.name);
    }
  }

  // Then each listener that presents certificates has the secrets its references lead to, in order.
  lemma CertificatesIff(s: Snapshot, gw: Gateway, ls: Listener)
    requires WellFormed(s) && ExactIndex(s) && CleanGateway(gw) && UniqueListeners(gw) && ls in gw.listeners
    ensures AttachedSecrets(s, gw).Some? <==> forall l :: l in gw.listeners ==> ListenerUsable(s, gw, l)
    ensures AttachedSecrets(s, gw).Some? ==>
      NameOfListener(gw, ls) in AttachedSecrets(s, gw).value &&
      var scrts := AttachedSecrets(s, gw).value[NameOfListener(gw, ls)];
      if Presents(ls) then LeadsTo(s, gw, ls.tls.value.certificateRefs, scrts) else scrts == []
  {
    SecretMapIff(s, gw, gw.listeners);
    if AttachedSecrets(s, gw).Some? {
      SecretMapAt(s, gw, gw.listeners, ls);
      ListenerIff(s, gw, ls);
    }
  }

  /******* Profiles *******/

  lemma {:induction false} NamesListed(scrts: seq<Secret>, i: nat)
    requires i < |scrts|
    ensures |CertificateNames(scrts)| == |scrts| && CertificateNames(scrts)[i] == TlsName(scrts[i].ns, scrts[i].name)
  {
    var init := scrts[..|scrts| - 1];
    if i < |init| {
      NamesListed(init, i);
    } else if init != [] {
      NamesListed(init, 0);
    }
  }

  // The client-ssl profile of a listener lists the certificates of its secrets in order, and each is
  // a resource of the class.
  lemma ProfileLists(gateways: map<string, GatewayInputs>, order: seq<GatewayOrder>, key: string, name: string, i: nat)
    requires ValidOrder(gateways, order) && !Fails(Active(gateways)) && Plain(gateways)
    requires key in gateways && name in SecretsAt(gateways[key]) && i < |SecretsAt(gateways[key])[name]|
    ensures var res, scrts := ClassResources(gateways, order), SecretsAt(gateways[key])[name];
      var tls := TlsName(scrts[i].ns, scrts[i].name);
      && ProfileKey(name) in res && res[ProfileKey(name)].TlsServer?
      && |res[ProfileKey(name)].certificates| == |scrts| && res[ProfileKey(name)].certificates[i] == tls
      && CertificateKey(tls) in res
  {
    var res, scrts := ClassResources(gateways, order), SecretsAt(gateways[key])[name];
    var profile := ProfileOrigin(key, name);
    Present(gateways, order, key, profile);
    Present(gateways, order, key, CertificateOrigin(key, name, scrts[i]));
    ProfileValue(gateways, order, key, name);
    NamesListed(scrts, i);
  }

  lemma ProfileValue(gateways: map<string, GatewayInputs>, order: seq<GatewayOrder>, key: string, name: string)
    requires ValidOrder(gateways, order) && !Fails(Active(gateways)) && Plain(gateways)
    requires key in gateways && name in SecretsAt(gateways[key]) && ProfileKey(name) in ClassResources(gateways, order)
    ensures ClassResources(gateways, order)[ProfileKey(name)] ==
      TlsServer(CertificateNames(SecretsAt(gateways[key])[name]))
  {
    var key2 := ProfileWriter(gateways, order, name);
    var ls := ListenerOf(gateways[key], name);
    var ls2 := ListenerOf(gateways[key2], name);
    ListenersDiffer(gateways, key, ls, key2, ls2);
  }

  lemma ProfileWriter(gateways: map<string, GatewayInputs>, order: seq<GatewayOrder>, name: string)
    returns (key: string)
    requires ValidOrder(gateways, order) && !Fails(Active(gateways))
    requires ProfileKey(name) in ClassResources(gateways, order)
    ensures key in gateways && name in SecretsAt(gateways[key])
    ensures ClassResources(gateways, order)[ProfileKey(name)] ==
      TlsServer(CertificateNames(SecretsAt(gateways[key])[name]))
  {
    var o: Origin;
    key, o := Explain(gateways, order, ProfileKey(name));
    TypesDiffer(ProfileOrigin(key, name), o, name, OriginName(gateways[key], o));
  }

  /******* Who uses a secret *******/

  predicate NamesIn(gw: Gateway, refs: seq<CertificateRef>, scrt: Secret) {
    exists ref :: ref in refs && NamesSecret(gw, ref, scrt)
  }

  // The first reference to the secret is of another type, or the gateway may not refer to it.
  ghost predicate FirstWrong(s: Snapshot, gw: Gateway, refs: seq<CertificateRef>, scrt: Secret) {
    exists i :: FirstNamed(gw, refs, i, scrt) && !(CoreSecret(refs[i]) && MayUseSecret(s, gw, scrt))
  }

  predicate FirstNamed(gw: Gateway, refs: seq<CertificateRef>, i: int, scrt: Secret) {
    0 <= i < |refs| && NamesSecret(gw, refs[i], scrt) && forall j :: 0 <= j < i ==> !NamesSecret(gw, refs[j], scrt)
  }

  predicate Concerned(gw: Gateway, ls: Listener, scrt: Secret) {
    ls.protocol == HTTPS && (ls.tls.None? || (Presents(ls) && NamesIn(gw, ls.tls.value.certificateRefs, scrt)))
  }

  ghost predicate WrongUse(s: Snapshot, gw: Gateway, ls: Listener, scrt: Secret) {
    ls.protocol == HTTPS &&
    (ls.tls.None? || (Presents(ls) && FirstWrong(s, gw, ls.tls.value.certificateRefs, scrt)))
  }

  // The first listener that the secret concerns.
  predicate FirstConcerned(gw: Gateway, listeners: seq<Listener>, i: int, scrt: Secret) {
    && 0 <= i < |listeners|
    && Concerned(gw, listeners[i], scrt)
    && forall j :: 0 <= j < i ==> !Concerned(gw, listeners[j], scrt)
  }

  lemma {:induction false} FindInRefsIff(s: Snapshot, gw: Gateway, refs: seq<CertificateRef>, scrt: Secret)
    requires ExactIndex(s) && CleanGateway(gw) && LabelName(scrt.ns) && ObjectName(scrt.name)
    ensures FindInRefs(s, gw, refs, scrt).Unused? <==> !NamesIn(gw, refs, scrt)
    ensures FindInRefs(s, gw, refs, scrt).Rejected? <==> FirstWrong(s, gw, refs, scrt)
    decreases |refs|
  {
    if refs != [] {
      var rest := refs[1..];
      assert refs == [refs[0]] + rest;
      MayUseSecretIff(s, gw, scrt);
      if NamesSecret(gw, refs[0], scrt) {
        assert FirstNamed(gw, refs, 0, scrt);
        assert forall i :: FirstNamed(gw, refs, i, scrt) ==> i == 0;
      } else {
        FindInRefsIff(s, gw, rest, scrt);
        assert NamesIn(gw, refs, scrt) <==> NamesIn(gw, rest, scrt);
        FirstWrongTail(s, gw, refs, scrt);
      }
    }
  }

  lemma FirstWrongTail(s: Snapshot, gw: Gateway, refs: seq<CertificateRef>, scrt: Secret)
    requires refs != [] && !NamesSecret(gw, refs[0], scrt)
    ensures FirstWrong(s, gw, refs, scrt) <==> FirstWrong(s, gw, refs[1..], scrt)
  {
    var rest := refs[1..];
    if i :| FirstNamed(gw, refs, i, scrt) && !(CoreSecret(refs[i]) && MayUseSecret(s, gw, scrt)) {
      assert FirstNamed(gw, rest, i - 1, scrt) && rest[i - 1] == refs[i];
    }
    if i :| FirstNamed(gw, rest, i, scrt) && !(CoreSecret(rest[i]) && MayUseSecret(s, gw, scrt)) {
      assert FirstNamed(gw, refs, i + 1, scrt) && refs[i + 1] == rest[i];
    }
  }

  lemma HeadIff(s: Snapshot, gw: Gateway, ls: Listener, scrt: Secret)
    requires ExactIndex(s) && CleanGateway(gw) && LabelName(scrt.ns) && ObjectName(scrt.name)
    ensures FindInListener(s, gw, ls, scrt).Unused? <==> !Concerned(gw, ls, scrt)
    ensures FindInListener(s, gw, ls, scrt).Rejected? <==> WrongUse(s, gw, ls, scrt)
  {
    PresentsIs(ls);
    if ls.tls.Some? { FindInRefsIff(s, gw, ls.tls.value.certificateRefs, scrt); }
  }

  predicate AnyConcerned(gw: Gateway, listeners: seq<Listener>, scrt: Secret) {
    exists ls :: ls in listeners && Concerned(gw, ls, scrt)
  }

  // The gateway uses the secret wrongly at the first listener that it concerns.
  ghost predicate WrongFirst(s: Snapshot, gw: Gateway, listeners: seq<Listener>, scrt: Secret) {
    exists i :: FirstConcerned(gw, listeners, i, scrt) && WrongUse(s, gw, listeners[i], scrt)
  }

  lemma WrongFirstHead(s: Snapshot, gw: Gateway, listeners: seq<Listener>, scrt: Secret)
    requires listeners != [] && Concerned(gw, listeners[0], scrt)
    ensures AnyConcerned(gw, listeners, scrt)
    ensures WrongFirst(s, gw, listeners, scrt) <==> WrongUse(s, gw, listeners[0], scrt)
  {
    assert listeners[0] in listeners;
    assert FirstConcerned(gw, listeners, 0, scrt);
    assert forall i :: FirstConcerned(gw, listeners, i, scrt) ==> i == 0;
  }

  lemma WrongFirstTail(s: Snapshot, gw: Gateway, listeners: seq<Listener>, scrt: Secret)
    requires listeners != [] && !Concerned(gw, listeners[0], scrt)
    ensures AnyConcerned(gw, listeners, scrt) <==> AnyConcerned(gw, listeners[1..], scrt)
    ensures WrongFirst(s, gw, listeners, scrt) <==> WrongFirst(s, gw, listeners[1..], scrt)
  {
    var rest := listeners[1..];
    assert listeners == [listeners[0]] + rest;
    if i :| FirstConcerned(gw, rest, i, scrt) && WrongUse(s, gw, rest[i], scrt) {
      assert FirstConcerned(gw, listeners, i + 1, scrt) && listeners[i + 1] == rest[i];
    }
    if i :| FirstConcerned(gw, listeners, i, scrt) && WrongUse(s, gw, listeners[i], scrt) {
      assert FirstConcerned(gw, rest, i - 1, scrt) && listeners[i] == rest[i - 1];
    }
  }

  lemma {:induction false} FindIff(s: Snapshot, gw: Gateway, listeners: seq<Listener>, scrt: Secret)
    requires ExactIndex(s) && CleanGateway(gw) && LabelName(scrt.ns) && ObjectName(scrt.name)
    ensures FindInListeners(s, gw, listeners, scrt).Unused? <==> !AnyConcerned(gw, listeners, scrt)
    ensures FindInListeners(s, gw, listeners, scrt).Rejected? <==> WrongFirst(s, gw, listeners, scrt)
    decreases |listeners|
  {
    if listeners != [] {
      HeadIff(s, gw, listeners[0], scrt);
      if Concerned(gw, listeners[0], scrt) {
        WrongFirstHead(s, gw, listeners, scrt);
      } else {
        WrongFirstTail(s, gw, listeners, scrt);
        FindIff(s, gw, listeners[1..], scrt);
      }
    }
  }

  // Looking up who uses a secret fails exactly if some gateway uses it wrongly at the first listener
  // it concerns; else it finds those that use it there.
  lemma UsersIff(s: Snapshot, scrt: Secret)
    requires WellFormed(s) && ExactIndex(s) && LabelName(scrt.ns) && ObjectName(scrt.name)
    ensures SecretRejected(s, scrt) <==>
      exists k :: k in s.gateways && WrongFirst(s, s.gateways[k], s.gateways[k].listeners, scrt)
    ensures SecretUsers(s, scrt) == set k | k in s.gateways && UsesRightly(s, s.gateways[k], scrt) :: s.gateways[k]
  {
    forall k | k in s.gateways
      ensures FindSecret(s, s.gateways[k], scrt).Rejected? <==>
        WrongFirst(s, s.gateways[k], s.gateways[k].listeners, scrt)
      ensures FindSecret(s, s.gateways[k], scrt).Used? <==> UsesRightly(s, s.gateways[k], scrt)
    {
      FindIff(s, s.gateways[k], s.gateways[k].listeners, scrt);
    }
  }

  ghost predicate UsesRightly(s: Snapshot, gw: Gateway, scrt: Secret) {
    AnyConcerned(gw, gw.listeners, scrt) && !WrongFirst(s, gw, gw.listeners, scrt)
  }
}
