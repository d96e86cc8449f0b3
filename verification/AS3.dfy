/** The AS3 declaration made of rendered configurations. */
module AS3 {
  import opened Common
  import opened Names
  import opened Objects
  import opened Snapshots
  import opened Rendering
  import opened RenderExact

  datatype Leaf = Label(text: string) | Content(resource: Resource)

  type Application = map<string, Leaf>

  // A value in the declaration: plain text, or an object with its "class" and its applications.
  datatype Entry = Text(text: string) | Object(class_: Option<string>, apps: map<string, Application>)

  type Declaration = map<string, Entry>

  function ResourceType(k: string): string { TypeAndName(k).0 }
  function ResourceName(k: string): string { TypeAndName(k).1 }

  predicate Skipped(k: string) { ResourceType(k) == "net/arp" || ResourceType(k) == "ltm/node" }

  predicate Declared(res: Resources, k: string) { k in res && !Skipped(k) }

  const EMPTY_APPLICATION: Application := map["class" := Label("Application")]

  const HEADER: Declaration := map["class" := Text("ADC"), "schemaVersion" := Text("3.19.0")]

  // No declared resource in ks has this name; or one has it, and is the leaf.
  ghost predicate Unnamed(res: Resources, ks: set<string>, n: string) {
    forall k :: k in ks && Declared(res, k) ==> ResourceName(k) != n
  }

  ghost predicate Holder(res: Resources, ks: set<string>, n: string, leaf: Leaf) {
    exists k :: k in ks && Declared(res, k) && ResourceName(k) == n && leaf == Content(res[k])
  }

  // The application after visiting the resources in ks: of several with one name, one stays.
  ghost predicate Collects(res: Resources, ks: set<string>, app: Application) {
    && (forall k :: k in ks && Declared(res, k) ==> ResourceName(k) in app)
    && "class" in app
    && (forall n :: n in app ==>
      (n == "class" && app[n] == Label("Application") && Unnamed(res, ks, n)) || Holder(res, ks, n, app[n]))
  }

  ghost predicate ConvertsApp(res: Resources, app: Application) { Collects(res, res.Keys, app) }

  ghost predicate ConvertsTenant(cfg: Config, e: Entry) {
    && e.Object? && e.class_ == Some("Tenant")
    && e.apps.Keys == cfg.Keys
    && forall a :: a in cfg ==> ConvertsApp(cfg[a], e.apps[a])
  }

  // decl is a possible result of RestToAS3. A tenant named like a header field replaces it.
  ghost predicate Converts(cfgs: map<string, Config>, decl: Declaration) {
    && decl.Keys == cfgs.Keys + HEADER.Keys
    && (forall p :: p in cfgs ==> ConvertsTenant(cfgs[p], decl[p]))
    && (forall p :: p in HEADER && p !in cfgs ==> decl[p] == HEADER[p])
  }

  method ConvertApplication(res: Resources) returns (app: Application)
    ensures ConvertsApp(res, app)
  {
    app := EMPTY_APPLICATION;
    var left := res.Keys;
    while left != {}
      invariant left <= res.Keys && Collects(res, res.Keys - left, app)
      decreases left
    {
      var k :| k in left;
      ghost var done, before := res.Keys - left, app;
      left := left - {k};
      assert res.Keys - left == done + {k};
      var (t, n) := TypeAndName(k);
      if t != "net/arp" && t != "ltm/node" {
        app := app[n := Content(res[k])];
        assert Declared(res, k) && ResourceName(k) == n;
      } else {
        assert !Declared(res, k);
      }
      forall m | m in app
        ensures (m == "class" && app[m] == Label("Application") && Unnamed(res, done + {k}, m)) ||
          Holder(res, done + {k}, m, app[m])
      {
        if m in before && app[m] == before[m] && Holder(res, done, m, app[m]) {
          var j :| j in done && Declared(res, j) && ResourceName(j) == m && app[m] == Content(res[j]);
          assert j in done + {k};
        }
      }
    }
    assert res.Keys - left == res.Keys;
  }

  method ConvertTenant(cfg: Config) returns (e: Entry)
    ensures ConvertsTenant(cfg, e)
  {
    var apps: map<string, Application> := map[];
    var left := cfg.Keys;
    while left != {}
      invariant left <= cfg.Keys && apps.Keys == cfg.Keys - left
      invariant forall a :: a in apps ==> ConvertsApp(cfg[a], apps[a])
      decreases left
    {
      var a :| a in left;
      left := left - {a};
      var app := ConvertApplication(cfg[a]);
      apps := apps[a := app];
    }
    e := Object(Some("Tenant"), apps);
  }

  method RestToAS3(cfgs: map<string, Config>) returns (decl: Declaration)
    ensures Converts(cfgs, decl)
  {
    decl := HEADER;
    var left := cfgs.Keys;
    while left != {}
      invariant left <= cfgs.Keys && decl.Keys == (cfgs.Keys - left) + HEADER.Keys
      invariant forall p :: p in cfgs && p !in left ==> ConvertsTenant(cfgs[p], decl[p])
      invariant forall p :: p in HEADER && (p !in cfgs || p in left) ==> decl[p] == HEADER[p]
      decreases left
    {
      var p :| p in left;
      left := left - {p};
      var tenant := ConvertTenant(cfgs[p]);
      decl := decl[p := tenant];
    }
  }

  /******* What the conversion keeps *******/

  // Resources that share a name are equal, so it does not matter which one stays.
  ghost predicate NoConflict(res: Resources) {
    forall k, k2 :: Declared(res, k) && Declared(res, k2) && ResourceName(k) == ResourceName(k2) ==> res[k] == res[k2]
  }

  ghost predicate Kept(res: Resources, app: Application) {
    forall k :: Declared(res, k) ==> ResourceName(k) in app && app[ResourceName(k)] == Content(res[k])
  }

  // An application holds every resource, except ARP entries and nodes, under its own name
  // if and only if no two different ones share a name.
  lemma ConversionLosslessIff(res: Resources, app: Application)
    requires ConvertsApp(res, app)
    ensures Kept(res, app) <==> NoConflict(res)
  {
    if NoConflict(res) {
      forall k | Declared(res, k)
        ensures ResourceName(k) in app && app[ResourceName(k)] == Content(res[k])
      {
        var n := ResourceName(k);
        var j :| j in res.Keys && Declared(res, j) && ResourceName(j) == n && app[n] == Content(res[j]);
      }
    }
  }

  // The resource that an entry holds.
  lemma ContentFrom(res: Resources, app: Application, n: string) returns (k: string)
    requires ConvertsApp(res, app) && n in app && app[n].Content?
    ensures Declared(res, k) && ResourceName(k) == n && app[n] == Content(res[k])
  {
    k :| Declared(res, k) && ResourceName(k) == n && app[n] == Content(res[k]);
  }

  // The key is the resource's name, after any type but those of ARP entries and nodes.
  ghost predicate NamesEntry(k: string, n: string) {
    '/' !in n && (k == n || exists t :: k == Slash(t, n) && t !in {"net/arp", "ltm/node"})
  }

  lemma DeclaredIff(res: Resources, k: string, n: string)
    requires k in res
    ensures Declared(res, k) && ResourceName(k) == n <==> NamesEntry(k, n)
  {
    forall t | k == Slash(t, n) && '/' !in n ensures TypeAndName(k) == (t, n) && '/' in k {
      TypeAndNameOf(t, n);
      assert k[|t|] == '/';
    }
    if '/' in k {
      var t, m := AtLastSlash(k);
      TypeAndNameOf(t, m);
    } else {
      SplitFree(k, '/');
    }
  }

  // An application has an entry of a name exactly if some resource has the name, and it holds one.
  lemma EntryIff(res: Resources, app: Application, n: string)
    requires ConvertsApp(res, app)
    ensures n in app && app[n].Content? <==> exists k :: k in res && NamesEntry(k, n)
    ensures n in app && app[n].Content? ==> exists k :: k in res && NamesEntry(k, n) && app[n] == Content(res[k])
  {
    forall k | k in res ensures Declared(res, k) && ResourceName(k) == n <==> NamesEntry(k, n) {
      DeclaredIff(res, k, n);
    }
    if n in app && app[n].Content? {
      var k := ContentFrom(res, app, n);
    }
    if k :| k in res && NamesEntry(k, n) {
      assert Declared(res, k) && Holder(res, res.Keys, n, app[n]);
    }
  }

  lemma OriginDeclared(gateways: map<string, GatewayInputs>, order: seq<GatewayOrder>, key: string, o: Origin)
    returns (k: string)
    requires ValidOrder(gateways, order) && !Fails(Active(gateways)) && Plain(gateways)
    requires key in gateways && GatewayProduces(gateways[key], o)
    ensures Declared(ClassResources(gateways, order), k) && ResourceName(k) == OriginName(gateways[key], o)
    ensures SameKind(o, ClassResources(gateways, order)[k])
  {
    k := OriginKey(gateways[key], o);
    KindKept(gateways, order, key, o);
    OriginNotSkipped(gateways, key, o);
  }

  lemma OriginNotSkipped(gateways: map<string, GatewayInputs>, key: string, o: Origin)
    requires Plain(gateways) && key in gateways && GatewayProduces(gateways[key], o)
    ensures !Skipped(OriginKey(gateways[key], o))
    ensures ResourceName(OriginKey(gateways[key], o)) == OriginName(gateways[key], o)
  {
    OriginNamePlain(gateways, key, o);
  }

  lemma ClashConflicts(gateways: map<string, GatewayInputs>, order: seq<GatewayOrder>, key: string, ls: Listener)
    requires ValidOrder(gateways, order) && !Fails(Active(gateways)) && Plain(gateways)
    requires key in gateways && ls in gateways[key].gateway.listeners && Clashes(gateways[key], ls)
    ensures !NoConflict(ClassResources(gateways, order))
  {
    var k := OriginDeclared(gateways, order, key, HostOrigin(key, ls));
    var k2 := OriginDeclared(gateways, order, key, ProfileOrigin(key, NameOfListener(gateways[key].gateway, ls)));
  }

  // A class's declaration keeps all its resources if and only if no listener has both a hostname
  // and certificates: then either its host rule or its client-ssl profile is lost.
  lemma ClassLosslessIff(gateways: map<string, GatewayInputs>, order: seq<GatewayOrder>, app: Application)
    requires ValidOrder(gateways, order) && !Fails(Active(gateways)) && Plain(gateways)
    requires ConvertsApp(ClassResources(gateways, order), app)
    ensures Kept(ClassResources(gateways, order), app) <==>
      forall key, ls :: key in gateways && ls in gateways[key].gateway.listeners ==> !Clashes(gateways[key], ls)
  {
    ConversionLosslessIff(ClassResources(gateways, order), app);
    if key, ls :| key in gateways && ls in gateways[key].gateway.listeners && Clashes(gateways[key], ls) {
      ClashConflicts(gateways, order, key, ls);
    } else {
      NamesDistinctIff(gateways, order);
    }
  }
}
