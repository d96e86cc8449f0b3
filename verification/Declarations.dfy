/** What the AS3 tenant of a class holds: one entry per name that its gateways write, with the value
    they write. */
module Declarations {
  import opened Common
  import opened Names
  import opened Snapshots
  import opened Rendering
  import opened RenderExact
  import opened AS3

  // The tenant is an AS3 form of some render of these inputs.
  ghost predicate Shows(inputs: ClassInputs, e: Entry) {
    exists cfg :: Renders(inputs, cfg) && ConvertsTenant(cfg, e)
  }

  predicate Holds(e: Entry, n: string) {
    e.Object? && "serviceMain" in e.apps && n in e.apps["serviceMain"] && e.apps["serviceMain"][n].Content?
  }

  function ContentOf(e: Entry, n: string): Resource
    requires Holds(e, n)
  {
    e.apps["serviceMain"][n].resource
  }

  // Some gateway of the class writes a resource of this name.
  ghost predicate Produced(gateways: map<string, GatewayInputs>, n: string) {
    exists key, o :: key in gateways && GatewayProduces(gateways[key], o) && OriginName(gateways[key], o) == n
  }

  lemma DeclaredFrom(gateways: map<string, GatewayInputs>, order: seq<GatewayOrder>, app: Application, n: string)
    returns (key: string, o: Origin)
    requires ValidOrder(gateways, order) && !Fails(Active(gateways)) && Plain(gateways)
    requires ConvertsApp(ClassResources(gateways, order), app) && n in app && app[n].Content?
    ensures key in gateways && GatewayProduces(gateways[key], o) && OriginName(gateways[key], o) == n
    ensures OriginValue(gateways[key], o, app[n].resource)
  {
    var res := ClassResources(gateways, order);
    var k := ContentFrom(res, app, n);
    key, o := Explain(gateways, order, k);
    OriginNamePlain(gateways, key, o);
  }

  lemma DeclaredName(gateways: map<string, GatewayInputs>, order: seq<GatewayOrder>, app: Application, key: string,
                     o: Origin)
    requires ValidOrder(gateways, order) && !Fails(Active(gateways)) && Plain(gateways)
    requires ConvertsApp(ClassResources(gateways, order), app)
    requires key in gateways && GatewayProduces(gateways[key], o)
    ensures OriginName(gateways[key], o) in app && app[OriginName(gateways[key], o)].Content?
  {
    var k := OriginDeclared(gateways, order, key, o);
  }

  lemma ShownOrder(gateways: map<string, GatewayInputs>, e: Entry) returns (order: seq<GatewayOrder>)
    requires Shows(Active(gateways), e)
    ensures !Fails(Active(gateways)) && ValidOrder(gateways, order)
    ensures ConvertsTenant(Folder(ClassResources(gateways, order)), e)
  {
    var cfg :| Renders(Active(gateways), cfg) && ConvertsTenant(cfg, e);
    order :| ValidOrder(gateways, order) && cfg == Folder(ClassResources(gateways, order));
  }

  lemma ShownApp(res: Resources, e: Entry)
    requires ConvertsTenant(Folder(res), e)
    ensures "serviceMain" in e.apps <==> res != map[]
    ensures res != map[] ==> ConvertsApp(res, e.apps["serviceMain"])
  {
  }

  // The tenant holds exactly the names that the gateways write,
  lemma ShownNames(gateways: map<string, GatewayInputs>, e: Entry, n: string)
    requires Plain(gateways) && Shows(Active(gateways), e)
    ensures Holds(e, n) <==> Produced(gateways, n)
  {
    var order := ShownOrder(gateways, e);
    ShownApp(ClassResources(gateways, order), e);
    if Holds(e, n) {
      var key, o := DeclaredFrom(gateways, order, e.apps["serviceMain"], n);
    }
    if key, o :| key in gateways && GatewayProduces(gateways[key], o) && OriginName(gateways[key], o) == n {
      Present(gateways, order, key, o);
      DeclaredName(gateways, order, e.apps["serviceMain"], key, o);
    }
  }

  // and each was written by one that has the name.
  lemma ShownFrom(gateways: map<string, GatewayInputs>, e: Entry, n: string) returns (key: string, o: Origin)
    requires Plain(gateways) && Shows(Active(gateways), e) && Holds(e, n)
    ensures key in gateways && GatewayProduces(gateways[key], o) && OriginName(gateways[key], o) == n
    ensures OriginValue(gateways[key], o, ContentOf(e, n))
  {
    var order := ShownOrder(gateways, e);
    ShownApp(ClassResources(gateways, order), e);
    key, o := DeclaredFrom(gateways, order, e.apps["serviceMain"], n);
  }

  ghost predicate NoClash(gateways: map<string, GatewayInputs>) {
    forall key, ls :: key in gateways && ls in gateways[key].gateway.listeners ==> !Clashes(gateways[key], ls)
  }

  // Only a listener's host rule and client-ssl profile can share a name.
  predicate Unshared(o: Origin) { o.RouteOrigin? || o.CertificateOrigin? || o.VirtualOrigin? }

  lemma SameNameSameOrigin(gateways: map<string, GatewayInputs>, key: string, o: Origin, key2: string, p: Origin)
    requires Plain(gateways) && key in gateways && key2 in gateways
    requires GatewayProduces(gateways[key], o) && GatewayProduces(gateways[key2], p)
    requires Unshared(o) || NoClash(gateways)
    requires OriginName(gateways[key], o) == OriginName(gateways[key2], p)
    ensures o.HostOrigin? == p.HostOrigin? && o.RouteOrigin? == p.RouteOrigin? && OriginType(o) == OriginType(p)
  {
    var g, g2 := gateways[key], gateways[key2];
    NameLetter(g, o);
    NameLetter(g2, p);
    if !Unshared(o) {
      SameNameSameType(gateways, key, o, key2, p);
    } else if o.VirtualOrigin? {
      if p.HostOrigin? { VirtualIsNoListener(g.gateway, o.ls, o.i, g2.gateway, p.ls); }
      if p.ProfileOrigin? {
        var ls := ListenerOf(g2, p.name);
        VirtualIsNoListener(g.gateway, o.ls, o.i, g2.gateway, ls);
      }
    }
  }

  lemma SameOrigin(s: Snapshot, className: string, key: string, o: Origin, key2: string, p: Origin, r: Resource)
    requires WellFormed(s) && ActiveClass(s, className) && Plain(InputsOf(s, className).gateways)
    requires key in InputsOf(s, className).gateways && key2 in InputsOf(s, className).gateways
    requires GatewayProduces(InputsOf(s, className).gateways[key], o)
    requires GatewayProduces(InputsOf(s, className).gateways[key2], p)
    requires OriginName(InputsOf(s, className).gateways[key], o) == OriginName(InputsOf(s, className).gateways[key2], p)
    requires o.HostOrigin? == p.HostOrigin? && o.RouteOrigin? == p.RouteOrigin? && OriginType(o) == OriginType(p)
    requires OriginValue(InputsOf(s, className).gateways[key2], p, r)
    ensures OriginValue(InputsOf(s, className).gateways[key], o, r)
  {
    var gateways := InputsOf(s, className).gateways;
    var g, g2 := gateways[key], gateways[key2];
    match o {
      case RouteOrigin(_, hr) => SameRoute(s, className, key, hr, key2, p.hr);
      case CertificateOrigin(_, name, scrt) => SameSecret(s, g.gateway, name, scrt, g2.gateway, p.name, p.scrt);
      case HostOrigin(_, ls) => ListenersDiffer(gateways, key, ls, key2, p.ls);
      case ProfileOrigin(_, name) =>
        var ls := ListenerOf(g, name);
        var ls2 := ListenerOf(g2, p.name);
        ListenersDiffer(gateways, key, ls, key2, ls2);
      case VirtualOrigin(_, ls, i) =>
        VirtualNameInjective(NameOfListener(g.gateway, ls), i, NameOfListener(g2.gateway, p.ls), p.i);
        ListenersDiffer(gateways, key, ls, key2, p.ls);
    }
  }

  // Rendering and converting lose nothing: each resource that a gateway writes is in the tenant
  // under its name with the value written, unless it is the host rule or the profile of a listener
  // that has both.
  lemma ShownValue(s: Snapshot, className: string, e: Entry, key: string, o: Origin)
    requires WellFormed(s) && ActiveClass(s, className) && PlainClass(s, className)
    requires Shows(InputsOf(s, className), e)
    requires key in InputsOf(s, className).gateways && GatewayProduces(InputsOf(s, className).gateways[key], o)
    requires Unshared(o) || NoClash(InputsOf(s, className).gateways)
    ensures var g := InputsOf(s, className).gateways[key];
      Holds(e, OriginName(g, o)) && OriginValue(g, o, ContentOf(e, OriginName(g, o)))
  {
    var gateways := InputsOf(s, className).gateways;
    var n := OriginName(gateways[key], o);
    InputsPlain(s, className);
    ShownNames(gateways, e, n);
    var key2, p := ShownFrom(gateways, e, n);
    SameNameSameOrigin(gateways, key, o, key2, p);
    SameOrigin(s, className, key, o, key2, p, ContentOf(e, n));
  }

  /******* There always is one *******/

  lemma Ordered<T>(s: set<T>) returns (xs: seq<T>)
    ensures Enumerates(xs, s)
  {
    xs := [];
    if s != {} {
      var x :| x in s;
      var ys := Ordered(s - {x});
      EnumerationStep(ys, s - {x}, x);
      assert s - {x} + {x} == s;
      xs := ys + [x];
    }
  }

  lemma SomeGatewayOrder(g: GatewayInputs, key: string) returns (o: GatewayOrder)
    ensures o.key == key && ValidGatewayOrder(g, o)
  {
    var hrs := Ordered(g.routes.Keys);
    var tls := Ordered(GetOr(g.secrets, map[]).Keys);
    o := GatewayOrder(key, hrs, tls, hrs);
  }

  lemma {:induction false} SomeOrderOf(gateways: map<string, GatewayInputs>, keys: seq<string>)
    returns (order: seq<GatewayOrder>)
    requires forall k :: k in keys ==> k in gateways
    ensures OrderKeys(order) == keys
    ensures forall o :: o in order ==> o.key in gateways && ValidGatewayOrder(gateways[o.key], o)
    decreases |keys|
  {
    order := [];
    if keys != [] {
      var init, key := keys[..|keys| - 1], keys[|keys| - 1];
      assert keys == init + [key];
      var before := SomeOrderOf(gateways, init);
      var o := SomeGatewayOrder(gateways[key], key);
      order := before + [o];
      assert OrderKeys(order) == OrderKeys(before) + [key];
    }
  }

  lemma {:induction false} SomeApp(res: Resources, ks: set<string>) returns (app: Application)
    ensures Collects(res, ks, app)
    decreases ks
  {
    app := EMPTY_APPLICATION;
    if ks != {} {
      var k :| k in ks;
      var before := SomeApp(res, ks - {k});
      app := if Declared(res, k) then before[ResourceName(k) := Content(res[k])] else before;
      CollectsMore(res, ks, k, before, app);
    }
  }

  lemma CollectsMore(res: Resources, ks: set<string>, k: string, before: Application, app: Application)
    requires k in ks && Collects(res, ks - {k}, before)
    requires app == if Declared(res, k) then before[ResourceName(k) := Content(res[k])] else before
    ensures Collects(res, ks, app)
  {
    forall n | n in app
      ensures (n == "class" && app[n] == Label("Application") && Unnamed(res, ks, n)) || Holder(res, ks, n, app[n])
    {
      if n in before && app[n] == before[n] && Holder(res, ks - {k}, n, app[n]) {
        var j :| j in ks - {k} && Declared(res, j) && ResourceName(j) == n && app[n] == Content(res[j]);
        assert j in ks;
      } else if Declared(res, k) && ResourceName(k) == n {
        assert app[n] == Content(res[k]);
      }
    }
  }

  lemma SomeValidOrder(gateways: map<string, GatewayInputs>) returns (order: seq<GatewayOrder>)
    ensures ValidOrder(gateways, order)
  {
    var keys := Ordered(gateways.Keys);
    assert forall k :: k in keys ==> k in Elems(keys);
    order := SomeOrderOf(gateways, keys);
  }

  lemma SomeTenant(res: Resources) returns (e: Entry)
    ensures ConvertsTenant(Folder(res), e)
  {
    if res == map[] {
      e := Object(Some("Tenant"), map[]);
    } else {
      var app := SomeApp(res, res.Keys);
      e := Object(Some("Tenant"), map["serviceMain" := app]);
    }
  }

  lemma RenderedShows(gateways: map<string, GatewayInputs>, order: seq<GatewayOrder>, e: Entry)
    requires !Fails(Active(gateways)) && ValidOrder(gateways, order)
    requires ConvertsTenant(Folder(ClassResources(gateways, order)), e)
    ensures Shows(Active(gateways), e)
  {
    assert Renders(Active(gateways), Folder(ClassResources(gateways, order)));
  }

  // A class whose rendering does not fail has a right tenant.
  lemma SomeShown(gateways: map<string, GatewayInputs>) returns (e: Entry)
    requires !Fails(Active(gateways))
    ensures Shows(Active(gateways), e)
  {
    var order := SomeValidOrder(gateways);
    e := SomeTenant(ClassResources(gateways, order));
    RenderedShows(gateways, order, e);
  }
}
