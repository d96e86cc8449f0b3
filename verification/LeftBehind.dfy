/** The classes that the reconcilers leave behind really are: the tenant that was right before the
    event is no render of the new cache. */
module LeftBehind {
  import opened Common
  import opened Names
  import opened Objects
  import opened Snapshots
  import opened IRules
  import opened Rendering
  import opened RenderExact
  import opened AS3
  import opened Declarations
  import opened Events
  import I = Impact

  // A tenant that is right for both inputs holds the names of both.
  lemma SameNames(a: map<string, GatewayInputs>, b: map<string, GatewayInputs>, e: Entry, n: string)
    requires Plain(a) && Plain(b) && Shows(Active(a), e) && Shows(Active(b), e)
    ensures Produced(a, n) <==> Produced(b, n)
  {
    ShownNames(a, e, n);
    ShownNames(b, e, n);
  }

  /******* Namespaces *******/

  lemma AbsentNamespaceWrites(s: Snapshot, c: string, hr: HTTPRoute)
    requires WellFormed(s) && ActiveClass(s, c) && PlainClass(s, c)
    requires hr.ns !in s.namespaces && LabelName(hr.ns)
    ensures !Produced(InputsOf(s, c).gateways, HrName(hr.ns, hr.name))
  {
    var gateways := InputsOf(s, c).gateways;
    InputsPlain(s, c);
    if key, o :| key in gateways && GatewayProduces(gateways[key], o) &&
                 OriginName(gateways[key], o) == HrName(hr.ns, hr.name) {
      NameLetter(gateways[key], o);
      HrNameInjective(o.hr.ns, o.hr.name, hr.ns, hr.name);
    }
  }

  lemma AttachedWrites(s: Snapshot, c: string, j: string, hr: HTTPRoute)
    requires ActiveClass(s, c) && j in s.gateways && s.gateways[j].className == c
    requires hr in AttachedRoutes(s, s.gateways[j])
    ensures Produced(InputsOf(s, c).gateways, HrName(hr.ns, hr.name))
  {
    assert GatewayProduces(InputsOf(s, c).gateways[j], RouteOrigin(j, hr));
  }

  // A route that becomes attached with its namespace, or was attached before, has its iRule in one
  // of the two renders only.
  lemma NamespaceTold(s: Snapshot, t: Snapshot, ns: string, c: string, e: Entry)
    requires WellFormed(s) && WellFormed(t) && PlainClass(s, c) && t == s.(namespaces := t.namespaces)
    requires ns !in s.namespaces && I.UsesNamespace(t, ns, c)
    ensures !(Shows(InputsOf(s, c), e) && Shows(InputsOf(t, c), e))
  {
    var j :| j in t.gateways && t.gateways[j].className == c && I.NamespaceAt(t, ns, t.gateways[j]);
    var hr :| hr in AttachedRoutes(t, t.gateways[j]) && hr.ns == ns;
    AbsentNamespaceWrites(s, c, hr);
    AttachedWrites(t, c, j, hr);
    WrittenOnce(s, t, c, HrName(hr.ns, hr.name), e);
  }

  lemma WrittenOnce(s: Snapshot, t: Snapshot, c: string, n: string, e: Entry)
    requires WellFormed(s) && ActiveClass(s, c) && PlainClass(s, c)
    requires WellFormed(t) && ActiveClass(t, c) && PlainClass(t, c)
    requires !Produced(InputsOf(s, c).gateways, n) && Produced(InputsOf(t, c).gateways, n)
    ensures !(Shows(InputsOf(s, c), e) && Shows(InputsOf(t, c), e))
  {
    InputsPlain(s, c);
    InputsPlain(t, c);
    if Shows(InputsOf(s, c), e) && Shows(InputsOf(t, c), e) {
      SameNames(InputsOf(s, c).gateways, InputsOf(t, c).gateways, e, n);
    }
  }

  /******* Services *******/

  lemma RouteShown(s: Snapshot, c: string, e: Entry, j: string, hr: HTTPRoute)
    requires WellFormed(s) && ActiveClass(s, c) && PlainClass(s, c) && Shows(InputsOf(s, c), e)
    requires j in s.gateways && s.gateways[j].className == c && hr in AttachedRoutes(s, s.gateways[j])
    ensures var n := HrName(hr.ns, hr.name);
      RouteProgram(s, hr).Some? && Holds(e, n) && ContentOf(e, n) == RouteRule(RouteProgram(s, hr).value)
  {
    var gateways := InputsOf(s, c).gateways;
    var order := ShownOrder(gateways, e);
    assert !GatewayFails(gateways[j]);
    assert gateways[j].routes[hr].program == RouteProgram(s, hr);
    ShownValue(s, c, e, j, RouteOrigin(j, hr));
  }

  lemma ServiceTold(s: Snapshot, t: Snapshot, k: string, c: string, e: Entry)
    requires WellFormed(s) && WellFormed(t) && PlainClass(s, c) && t == s.(services := t.services)
    requires forall j :: j != k ==> Lookup(s.services, j) == Lookup(t.services, j)
    requires I.ReadsService(s, t, k, c)
    ensures !(Shows(InputsOf(s, c), e) && Shows(InputsOf(t, c), e))
  {
    var j :| j in s.gateways && s.gateways[j].className == c && I.RepooledAt(s, t, k, s.gateways[j]);
    var hr :| hr in AttachedRoutes(s, s.gateways[j]) && I.Repooled(s, t, hr, k);
    RepooledTold(s, t, k, c, e, j, hr);
  }

  lemma RepooledTold(s: Snapshot, t: Snapshot, k: string, c: string, e: Entry, j: string, hr: HTTPRoute)
    requires WellFormed(s) && WellFormed(t) && PlainClass(s, c) && t == s.(services := t.services) && ActiveClass(s, c)
    requires forall j :: j != k ==> Lookup(s.services, j) == Lookup(t.services, j)
    requires j in s.gateways && s.gateways[j].className == c && hr in AttachedRoutes(s, s.gateways[j])
    requires I.Repooled(s, t, hr, k)
    ensures !(Shows(InputsOf(s, c), e) && Shows(InputsOf(t, c), e))
  {
    I.ProgramChangesIff(s, t, hr, k);
    I.AttachedRoutesSame(s, t, s.gateways[j]);
    if Shows(InputsOf(s, c), e) && Shows(InputsOf(t, c), e) {
      SameProgram(s, t, c, e, j, hr);
    }
  }

  lemma SameProgram(s: Snapshot, t: Snapshot, c: string, e: Entry, j: string, hr: HTTPRoute)
    requires WellFormed(s) && ActiveClass(s, c) && PlainClass(s, c) && Shows(InputsOf(s, c), e)
    requires WellFormed(t) && ActiveClass(t, c) && PlainClass(t, c) && Shows(InputsOf(t, c), e)
    requires j in s.gateways && s.gateways[j].className == c && hr in AttachedRoutes(s, s.gateways[j])
    requires j in t.gateways && t.gateways[j].className == c && hr in AttachedRoutes(t, t.gateways[j])
    ensures RouteProgram(s, hr) == RouteProgram(t, hr)
  {
    RouteShown(s, c, e, j, hr);
    RouteShown(t, c, e, j, hr);
  }

  /******* Secrets *******/

  lemma {:induction false} RefSecretsHave(s: Snapshot, gw: Gateway, refs: seq<CertificateRef>, k: string)
    requires RefSecrets(s, gw, refs).Some? && exists ref :: ref in refs && Key(RefNs(gw, ref), ref.name) == k
    ensures k in s.secrets && s.secrets[k] in RefSecrets(s, gw, refs).value
  {
    var init, last := refs[..|refs| - 1], refs[|refs| - 1];
    assert refs == init + [last];
    if exists ref :: ref in init && Key(RefNs(gw, ref), ref.name) == k {
      RefSecretsHave(s, gw, init, k);
    }
  }

  lemma {:induction false} SecretMapHas(s: Snapshot, gw: Gateway, listeners: seq<Listener>, k: string)
    returns (name: string)
    requires SecretMap(s, gw, listeners).Some? && exists ls :: ls in listeners && I.ListenerUses(gw, ls, k)
    ensures k in s.secrets && name in SecretMap(s, gw, listeners).value
    ensures s.secrets[k] in SecretMap(s, gw, listeners).value[name]
  {
    var init, last := listeners[..|listeners| - 1], listeners[|listeners| - 1];
    assert listeners == init + [last];
    if exists ls :: ls in init && I.ListenerUses(gw, ls, k) {
      name := SecretMapHas(s, gw, init, k);
    } else {
      name := NameOfListener(gw, last);
      RefSecretsHave(s, gw, I.References(last), k);
    }
  }

  lemma SecretShown(s: Snapshot, c: string, e: Entry, j: string, k: string) returns (scrt: Secret)
    requires WellFormed(s) && ActiveClass(s, c) && PlainClass(s, c) && Shows(InputsOf(s, c), e)
    requires j in s.gateways && s.gateways[j].className == c && I.UsesSecret(s.gateways[j], k)
    ensures Lookup(s.secrets, k) == Some(scrt) && k == Key(scrt.ns, scrt.name) && LabelName(scrt.ns)
    ensures var n := TlsName(scrt.ns, scrt.name);
      Holds(e, n) && ContentOf(e, n) == Certificate(scrt.certificate, scrt.privateKey)
  {
    var gateways := InputsOf(s, c).gateways;
    var order := ShownOrder(gateways, e);
    assert !GatewayFails(gateways[j]);
    var name := SecretMapHas(s, s.gateways[j], s.gateways[j].listeners, k);
    scrt := s.secrets[k];
    ShownValue(s, c, e, j, CertificateOrigin(j, name, scrt));
  }

  lemma SecretToldAt(s: Snapshot, t: Snapshot, k: string, c: string, e: Entry, j: string)
    requires WellFormed(s) && WellFormed(t) && PlainClass(s, c) && t == s.(secrets := t.secrets) && ActiveClass(s, c)
    requires j in s.gateways && s.gateways[j].className == c && I.UsesSecret(s.gateways[j], k)
    requires Shows(InputsOf(s, c), e) && Shows(InputsOf(t, c), e)
    ensures Lookup(s.secrets, k) == Lookup(t.secrets, k)
  {
    var a := SecretShown(s, c, e, j, k);
    var b := SecretShown(t, c, e, j, k);
    KeyInjective(a.ns, a.name, b.ns, b.name);
  }

  lemma SecretTold(s: Snapshot, t: Snapshot, k: string, c: string, e: Entry)
    requires WellFormed(s) && WellFormed(t) && PlainClass(s, c) && t == s.(secrets := t.secrets)
    requires Lookup(s.secrets, k) != Lookup(t.secrets, k) && I.ReadsSecret(s, t, k, c)
    ensures !(Shows(InputsOf(s, c), e) && Shows(InputsOf(t, c), e))
  {
    var j :| j in s.gateways && s.gateways[j].className == c && I.SecretMatters(s, t, k, s.gateways[j]);
    if Shows(InputsOf(s, c), e) && Shows(InputsOf(t, c), e) {
      SecretToldAt(s, t, k, c, e, j);
    }
  }

  /******* Gateways *******/

  // No other gateway of the class writes this resource.
  ghost predicate Alone(gateways: map<string, GatewayInputs>, key: string, o: Origin)
    requires key in gateways
  {
    forall key2, p :: key2 in gateways && key2 != key && GatewayProduces(gateways[key2], p) ==>
      OriginKey(gateways[key2], p) != OriginKey(gateways[key], o)
  }

  // The gateway writes a resource that no other does.
  ghost predicate Matters(gateways: map<string, GatewayInputs>, key: string) {
    key in gateways && exists o :: GatewayProduces(gateways[key], o) && Alone(gateways, key, o)
  }

  // For example any virtual.
  lemma VirtualMatters(gateways: map<string, GatewayInputs>, key: string)
    requires Plain(gateways) && key in gateways
    requires gateways[key].gateway.listeners != [] && gateways[key].gateway.addresses != []
    ensures Matters(gateways, key)
  {
    var ls := gateways[key].gateway.listeners[0];
    var o := VirtualOrigin(key, ls, 0);
    assert GatewayProduces(gateways[key], o);
    forall key2, p | key2 in gateways && key2 != key && GatewayProduces(gateways[key2], p)
      ensures OriginKey(gateways[key2], p) != OriginKey(gateways[key], o)
    {
      if OriginKey(gateways[key2], p) == OriginKey(gateways[key], o) {
        TypesDiffer(p, o, OriginName(gateways[key2], p), OriginName(gateways[key], o));
        SharedKind(gateways, key, o, key2, p);
      }
    }
  }

  // Two gateways write a resource of the same name only if it is a route's iRule or a certificate;
  // then it is the same resource.
  lemma SharedKind(gateways: map<string, GatewayInputs>, key: string, o: Origin, key2: string, p: Origin)
    requires Plain(gateways) && key in gateways && key2 in gateways && key != key2
    requires GatewayProduces(gateways[key], o) && GatewayProduces(gateways[key2], p)
    requires OriginName(gateways[key], o) == OriginName(gateways[key2], p)
    ensures o.RouteOrigin? || o.CertificateOrigin?
    ensures OriginKey(gateways[key], o) == OriginKey(gateways[key2], p)
  {
    var g, g2 := gateways[key], gateways[key2];
    if Unshared(o) {
      SameNameSameOrigin(gateways, key, o, key2, p);
      if o.VirtualOrigin? {
        VirtualNameInjective(NameOfListener(g.gateway, o.ls), o.i, NameOfListener(g2.gateway, p.ls), p.i);
        ListenersDiffer(gateways, key, o.ls, key2, p.ls);
      }
    } else if Unshared(p) {
      SameNameSameOrigin(gateways, key2, p, key, o);
    } else {
      var ls := NamedListener(g, o);
      var ls2 := NamedListener(g2, p);
      ListenersDiffer(gateways, key, ls, key2, ls2);
    }
  }

  lemma NamedListener(g: GatewayInputs, o: Origin) returns (ls: Listener)
    requires PlainGateway(g) && GatewayProduces(g, o) && !Unshared(o)
    ensures ls in g.gateway.listeners && OriginName(g, o) == NameOfListener(g.gateway, ls)
  {
    if o.HostOrigin? {
      ls := o.ls;
    } else {
      ls := ListenerOf(g, o.name);
    }
  }

  // A tenant that is right with a gateway that matters is wrong without it.
  lemma GatewayTold(gateways: map<string, GatewayInputs>, key: string, e: Entry)
    requires Plain(gateways) && Matters(gateways, key) && Shows(Active(gateways), e)
    ensures !Shows(Active(gateways - {key}), e)
  {
    var o :| GatewayProduces(gateways[key], o) && Alone(gateways, key, o);
    var rest, n := gateways - {key}, OriginName(gateways[key], o);
    if Shows(Active(rest), e) {
      SameNames(gateways, rest, e, n);
      var key2, p :| key2 in rest && GatewayProduces(rest[key2], p) && OriginName(rest[key2], p) == n;
      SharedKind(gateways, key, o, key2, p);
    }
  }

  lemma {:induction false} ClassSplit(gateways: map<string, GatewayInputs>, a: seq<GatewayOrder>, b: seq<GatewayOrder>)
    ensures ClassResources(gateways, a + b) == ClassResources(gateways, a) + ClassResources(gateways, b)
    decreases |b|
  {
    if b == [] {
      assert a + b == a;
    } else {
      var init, last := b[..|b| - 1], b[|b| - 1];
      var own := if last.key in gateways then OrderResources(gateways[last.key], last) else map[];
      ClassSplit(gateways, a, init);
      assert (a + b)[..|a + b| - 1] == a + init;
      assert ClassResources(gateways, a + b) == ClassResources(gateways, a + init) + own;
      UnionAssociative(ClassResources(gateways, a), ClassResources(gateways, init), own);
    }
  }

  lemma {:induction false} ClassWithout(gateways: map<string, GatewayInputs>, key: string, order: seq<GatewayOrder>)
    requires forall o :: o in order ==> o.key != key
    ensures ClassResources(gateways - {key}, order) == ClassResources(gateways, order)
  {
    if order != [] {
      var init, last := order[..|order| - 1], order[|order| - 1];
      assert order == init + [last];
      ClassWithout(gateways, key, init);
    }
  }

  lemma RemoveAt<T>(xs: seq<T>, i: nat)
    requires NoDup(xs) && i < |xs|
    ensures Enumerates(xs[..i] + xs[i + 1..], Elems(xs) - {xs[i]})
  {
    var ys := xs[..i] + xs[i + 1..];
    forall x ensures x in ys <==> x in xs && x != xs[i] {
      if x in xs && x != xs[i] {
        var j :| 0 <= j < |xs| && xs[j] == x;
        assert x == if j < i then ys[j] else ys[j - 1];
      }
    }
  }

  lemma OrderWithout(gateways: map<string, GatewayInputs>, order: seq<GatewayOrder>, i: nat)
    requires ValidOrder(gateways, order) && i < |order|
    ensures ValidOrder(gateways - {order[i].key}, order[..i] + order[i + 1..])
    ensures forall o :: o in order[..i] + order[i + 1..] ==> o.key != order[i].key
  {
    var ks, rest := OrderKeys(order), order[..i] + order[i + 1..];
    RemoveAt(ks, i);
    assert OrderKeys(rest) == ks[..i] + ks[i + 1..];
    forall o | o in rest ensures o.key != order[i].key {
      var j :| 0 <= j < |rest| && rest[j] == o;
      assert OrderKeys(rest)[j] in Elems(OrderKeys(rest));
    }
  }

  lemma OriginAt(g: GatewayInputs, order: GatewayOrder, k: string) returns (o: Origin)
    requires ValidGatewayOrder(g, order) && g.secrets.Some? && k in OrderResources(g, order)
    ensures GatewayProduces(g, o) && k == OriginKey(g, o) && OriginValue(g, o, OrderResources(g, order)[k])
  {
    OrderExplained(g, order);
    ExplainedAt(g, order.key, OrderResources(g, order), k);
    o :| o.key == order.key && GatewayProduces(g, o) && k == OriginKey(g, o) &&
      OriginValue(g, o, OrderResources(g, order)[k]);
  }

  lemma OtherWriter(gateways: map<string, GatewayInputs>, key: string, o: Origin) returns (key2: string, p: Origin)
    requires Plain(gateways) && key in gateways && !Matters(gateways, key) && GatewayProduces(gateways[key], o)
    ensures key2 in gateways && key2 != key && GatewayProduces(gateways[key2], p)
    ensures OriginKey(gateways[key2], p) == OriginKey(gateways[key], o)
    ensures o.RouteOrigin? || o.CertificateOrigin?
  {
    assert !Alone(gateways, key, o);
    key2, p :| key2 in gateways && key2 != key && GatewayProduces(gateways[key2], p) &&
      OriginKey(gateways[key2], p) == OriginKey(gateways[key], o);
    TypesDiffer(o, p, OriginName(gateways[key], o), OriginName(gateways[key2], p));
    SharedKind(gateways, key, o, key2, p);
  }

  // What a gateway that does not matter writes is also written by the others,
  lemma WrittenByOthers(gateways: map<string, GatewayInputs>, order: seq<GatewayOrder>, i: nat, o: Origin)
    requires Plain(gateways) && !Fails(Active(gateways)) && ValidOrder(gateways, order) && i < |order|
    requires order[i].key in gateways && !Matters(gateways, order[i].key) && GatewayProduces(gateways[order[i].key], o)
    ensures o.RouteOrigin? || o.CertificateOrigin?
    ensures OriginKey(gateways[order[i].key], o) in ClassResources(gateways, order[..i] + order[i + 1..])
  {
    var key, rest := order[i].key, order[..i] + order[i + 1..];
    var key2, p := OtherWriter(gateways, key, o);
    OrderWithout(gateways, order, i);
    ClassWithout(gateways, key, rest);
    Present(gateways - {key}, rest, key2, p);
  }

  // with the same value.
  lemma WrittenAlike(s: Snapshot, c: string, order: seq<GatewayOrder>, key: string, o: Origin, r: Resource)
    requires WellFormed(s) && ActiveClass(s, c) && Plain(InputsOf(s, c).gateways)
    requires Sound(InputsOf(s, c).gateways, order) && key in InputsOf(s, c).gateways
    requires GatewayProduces(InputsOf(s, c).gateways[key], o) && OriginValue(InputsOf(s, c).gateways[key], o, r)
    requires o.RouteOrigin? || o.CertificateOrigin?
    requires OriginKey(InputsOf(s, c).gateways[key], o) in ClassResources(InputsOf(s, c).gateways, order)
    ensures ClassResources(InputsOf(s, c).gateways, order)[OriginKey(InputsOf(s, c).gateways[key], o)] == r
  {
    var gateways := InputsOf(s, c).gateways;
    var k := OriginKey(gateways[key], o);
    var r2 := ClassResources(gateways, order)[k];
    var key2 := ClassExplained(gateways, order, k);
    var p: Origin :| p.key == key2 && GatewayProduces(gateways[key2], p) && k == OriginKey(gateways[key2], p) &&
      OriginValue(gateways[key2], p, r2);
    SameOriginValue(s, c, key, o, r, key2, p, r2);
  }

  lemma MiddleRedundant(a: Resources, own: Resources, b: Resources)
    requires forall k :: k in own ==> k in a + b && (k in a ==> a[k] == own[k])
    ensures a + own + b == a + b
  {
  }

  lemma OwnRedundant(s: Snapshot, c: string, order: seq<GatewayOrder>, i: nat, k: string)
    requires WellFormed(s) && ActiveClass(s, c) && Plain(InputsOf(s, c).gateways) && !Fails(InputsOf(s, c))
    requires ValidOrder(InputsOf(s, c).gateways, order) && i < |order| && order[i].key in InputsOf(s, c).gateways
    requires !Matters(InputsOf(s, c).gateways, order[i].key)
    requires k in OrderResources(InputsOf(s, c).gateways[order[i].key], order[i])
    ensures var gateways, a := InputsOf(s, c).gateways, ClassResources(InputsOf(s, c).gateways, order[..i]);
      && k in ClassResources(gateways, order[..i] + order[i + 1..])
      && (k in a ==> a[k] == OrderResources(gateways[order[i].key], order[i])[k])
  {
    var gateways := InputsOf(s, c).gateways;
    OrdersSound(gateways, order);
    assert order[i] in order && Sound(gateways, order[..i]);
    var o := OriginAt(gateways[order[i].key], order[i], k);
    WrittenByOthers(gateways, order, i, o);
    if k in ClassResources(gateways, order[..i]) {
      WrittenAlike(s, c, order[..i], order[i].key, o, OrderResources(gateways[order[i].key], order[i])[k]);
    }
  }

  // A render with a gateway that does not matter is one without it.
  lemma RenderWithout(s: Snapshot, c: string, order: seq<GatewayOrder>, i: nat)
    requires WellFormed(s) && ActiveClass(s, c) && Plain(InputsOf(s, c).gateways) && !Fails(InputsOf(s, c))
    requires ValidOrder(InputsOf(s, c).gateways, order) && i < |order| && order[i].key in InputsOf(s, c).gateways
    requires !Matters(InputsOf(s, c).gateways, order[i].key)
    ensures var gateways := InputsOf(s, c).gateways;
      ClassResources(gateways, order) == ClassResources(gateways, order[..i] + order[i + 1..])
  {
    var gateways := InputsOf(s, c).gateways;
    var a, b := order[..i], order[i + 1..];
    var own := OrderResources(gateways[order[i].key], order[i]);
    ClassSplit(gateways, a, b);
    RenderSplit(gateways, order, i);
    forall k | k in own
      ensures k in ClassResources(gateways, a + b) &&
        (k in ClassResources(gateways, a) ==> ClassResources(gateways, a)[k] == own[k])
    {
      OwnRedundant(s, c, order, i, k);
    }
    MiddleRedundant(ClassResources(gateways, a), own, ClassResources(gateways, b));
  }

  // A tenant that is right with a gateway that does not matter stays right without it.
  lemma GatewayUntold(s: Snapshot, c: string, key: string, e: Entry)
    requires WellFormed(s) && ActiveClass(s, c) && PlainClass(s, c) && key in InputsOf(s, c).gateways
    requires !Matters(InputsOf(s, c).gateways, key) && Shows(InputsOf(s, c), e)
    ensures Shows(Active(InputsOf(s, c).gateways - {key}), e)
  {
    var gateways := InputsOf(s, c).gateways;
    InputsPlain(s, c);
    var order := ShownOrder(gateways, e);
    assert key in Elems(OrderKeys(order));
    var i :| 0 <= i < |order| && OrderKeys(order)[i] == key;
    RenderWithout(s, c, order, i);
    OrderWithout(gateways, order, i);
    ClassWithout(gateways, key, order[..i] + order[i + 1..]);
    RenderedShows(gateways - {key}, order[..i] + order[i + 1..], e);
  }

  lemma RenderSplit(gateways: map<string, GatewayInputs>, order: seq<GatewayOrder>, i: nat)
    requires i < |order| && order[i].key in gateways
    ensures ClassResources(gateways, order) ==
      ClassResources(gateways, order[..i]) + OrderResources(gateways[order[i].key], order[i]) +
      ClassResources(gateways, order[i + 1..])
  {
    assert order == order[..i + 1] + order[i + 1..];
    ClassSplit(gateways, order[..i + 1], order[i + 1..]);
    assert order[..i + 1][..i] == order[..i];
  }

  /******* Events *******/

  lemma LeavesInputs(s: Snapshot, gw: Gateway)
    requires Leaves(s, GatewayKey(gw), gw)
    ensures var k, t := GatewayKey(gw), NextSnapshot(s, GatewayEvent(GatewayKey(gw), Some(gw)));
      var c := s.gateways[k].className;
      ActiveClass(t, c) && k in InputsOf(s, c).gateways && InputsOf(t, c).gateways == InputsOf(s, c).gateways - {k}
  {
    var k, t := GatewayKey(gw), NextSnapshot(s, GatewayEvent(GatewayKey(gw), Some(gw)));
    var c := s.gateways[k].className;
    forall j | j in s.gateways ensures GatewayInputsOf(t, s.gateways[j]) == GatewayInputsOf(s, s.gateways[j]) {
      I.InputsIgnoreGateways(s, t, s.gateways[j]);
    }
    assert InputsOf(t, c).gateways == InputsOf(s, c).gateways - {k};
  }

  lemma GatewayLeftIff(s: Snapshot, gw: Gateway, c: string, e: Entry)
    requires WellFormed(s) && PlainClass(s, c) && Leaves(s, GatewayKey(gw), gw) &&
      c == s.gateways[GatewayKey(gw)].className
    requires Shows(InputsOf(s, c), e)
    ensures Shows(InputsOf(NextSnapshot(s, GatewayEvent(GatewayKey(gw), Some(gw))), c), e) <==>
      !Matters(InputsOf(s, c).gateways, GatewayKey(gw))
  {
    LeavesInputs(s, gw);
    InputsPlain(s, c);
    if Matters(InputsOf(s, c).gateways, GatewayKey(gw)) {
      GatewayTold(InputsOf(s, c).gateways, GatewayKey(gw), e);
    } else {
      GatewayUntold(s, c, GatewayKey(gw), e);
    }
  }

  lemma NamespaceLeft(s: Snapshot, n: string, o: Option<Namespace>, c: string, e: Entry)
    requires WellFormed(s) && CleanEvent(NamespaceEvent(n, o)) && PlainClass(s, c)
    requires c in Uncovered(s, NamespaceEvent(n, o)) && Shows(InputsOf(s, c), e)
    ensures !Shows(InputsOf(NextSnapshot(s, NamespaceEvent(n, o)), c), e)
  {
    var t := NextSnapshot(s, NamespaceEvent(n, o));
    NextWellFormed(s, NamespaceEvent(n, o));
    if I.UsesNamespace(t, n, c) && n !in s.namespaces {
      NamespaceTold(s, t, n, c, e);
    } else {
      UsedIsKnown(s, n, c);
      UsedIsKnown(t, n, c);
      NamespaceTold(t, s, n, c, e);
    }
  }

  lemma UsedIsKnown(s: Snapshot, n: string, c: string)
    ensures I.UsesNamespace(s, n, c) ==> n in s.namespaces
  {
    if I.UsesNamespace(s, n, c) {
      var j :| j in s.gateways && s.gateways[j].className == c && I.NamespaceAt(s, n, s.gateways[j]);
    }
  }

  lemma SecretLeft(s: Snapshot, k: string, o: Option<Secret>, c: string, e: Entry)
    requires WellFormed(s) && CleanEvent(SecretEvent(k, o)) && PlainClass(s, c)
    requires c in Uncovered(s, SecretEvent(k, o)) && Shows(InputsOf(s, c), e)
    ensures !Shows(InputsOf(NextSnapshot(s, SecretEvent(k, o)), c), e)
  {
    NextWellFormed(s, SecretEvent(k, o));
    PutSame(s.secrets, k, o);
    SecretTold(s, NextSnapshot(s, SecretEvent(k, o)), k, c, e);
  }

  lemma ServiceLeft(s: Snapshot, k: string, ns: string, o: Option<Service>, c: string, e: Entry)
    requires WellFormed(s) && CleanEvent(ServiceEvent(k, ns, o)) && PlainClass(s, c)
    requires c in Uncovered(s, ServiceEvent(k, ns, o)) && Shows(InputsOf(s, c), e)
    ensures !Shows(InputsOf(NextSnapshot(s, ServiceEvent(k, ns, o)), c), e)
  {
    NextWellFormed(s, ServiceEvent(k, ns, o));
    PutSame(s.services, k, o);
    ServiceTold(s, NextSnapshot(s, ServiceEvent(k, ns, o)), k, c, e);
  }

  // The event leaves the class behind: it is uncovered, and a gateway that left it wrote a resource
  // that no other gateway of the class writes.
  ghost predicate Leftover(s: Snapshot, e: Event, c: string) {
    c in Uncovered(s, e) && (e.GatewayEvent? ==> Matters(InputsOf(s, c).gateways, e.key))
  }

  // A tenant that was right for a class that the event does not deploy stays right if and only if
  // the event does not leave the class behind.
  lemma LeftBehindIff(s: Snapshot, e: Event, c: string, tenant: Entry)
    requires WellFormed(s) && CleanEvent(e) && PlainClass(s, c) && c !in Redeployed(s, e)
    requires Shows(InputsOf(s, c), tenant)
    ensures Shows(InputsOf(NextSnapshot(s, e), c), tenant) <==> !Leftover(s, e, c)
  {
    if c in Uncovered(s, e) {
      match e {
        case GatewayEvent(_, o) => GatewayLeftIff(s, o.value, c, tenant);
        case NamespaceEvent(n, o) => NamespaceLeft(s, n, o, c, tenant);
        case SecretEvent(k, o) => SecretLeft(s, k, o, c, tenant);
        case ServiceEvent(k, ns, o) => ServiceLeft(s, k, ns, o, c, tenant);
      }
    } else {
      EventCoveredIff(s, e, c);
    }
  }
}
