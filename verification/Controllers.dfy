/** The reconcilers: each updates the cache and queues one deployment of the classes concerned. */
module Controllers {
  import opened Common
  import opened Objects
  import opened Snapshots
  import opened Rendering
  import opened SigCache
  import opened Parser
  import opened Pooling
  import opened Reachability
  import opened AS3
  import opened Events
  import opened Retries
  import D = Deployer

  /******* What a deployment queues *******/

  function ServiceNamespaces(s: Snapshot): set<string> {
    set k | k in s.services :: s.services[k].ns
  }

  // decl declares a render of each class, and the pools of the services related to them. A
  // namespace named like a class replaces it.
  ghost predicate Deploys(s: Snapshot, classes: set<string>, decl: Declaration) {
    exists ncfgs: map<string, Config>, scfgs: map<string, Config> ::
      && ncfgs.Keys == classes
      && (forall c :: c in classes ==> Renders(InputsOf(s, c), ncfgs[c]))
      && RelatedPools(s, classes, scfgs)
      && Converts(ncfgs + scfgs, decl)
  }

  ghost predicate RelatedPools(s: Snapshot, classes: set<string>, scfgs: map<string, Config>) {
    exists keys: seq<string> :: Elems(keys) == RelatedKeys(s, classes) && (forall k :: k in keys ==> IsKey(k)) &&
      ServicePools(s, keys) == Some(scfgs)
  }

  ghost predicate PoolFails(s: Snapshot, k: string) { IsKey(k) && Members(s, KeyNs(k), KeyName(k)).None? }

  ghost predicate DeployFails(s: Snapshot, classes: set<string>) {
    || (exists c :: c in classes && Fails(InputsOf(s, c)))
    || (exists k :: k in RelatedKeys(s, classes) && PoolFails(s, k))
  }

  // DeployForEvent: nothing for no classes; an error queues nothing; else one request.
  ghost predicate Enqueues(s: Snapshot, classes: set<string>, queue: seq<Declaration>, queue': seq<Declaration>,
                           ok: bool) {
    if classes == {} then ok && queue' == queue
    else if DeployFails(s, classes) then !ok && queue' == queue
    else ok && exists decl :: Deploys(s, classes, decl) && queue' == queue + [decl]
  }

  lemma EnqueuesOne(s: Snapshot, classes: set<string>, queue: seq<Declaration>, decl: Declaration)
    requires classes != {} && !DeployFails(s, classes) && Deploys(s, classes, decl)
    ensures Enqueues(s, classes, queue, queue + [decl], true)
  {
  }

  lemma EnqueuesNone(s: Snapshot, classes: set<string>, queue: seq<Declaration>, ok: bool)
    requires if classes == {} then ok else !ok && DeployFails(s, classes)
    ensures Enqueues(s, classes, queue, queue, ok)
  {
  }

  lemma DeploysBy(s: Snapshot, classes: set<string>, ncfgs: map<string, Config>, scfgs: map<string, Config>,
                  decl: Declaration)
    requires ncfgs.Keys == classes && forall c :: c in ncfgs ==> Renders(InputsOf(s, c), ncfgs[c])
    requires RelatedPools(s, classes, scfgs) && Converts(ncfgs + scfgs, decl)
    ensures Deploys(s, classes, decl)
  {
  }

  lemma RelatedKeysPlain(s: Snapshot, classes: set<string>)
    requires WellFormed(s)
    ensures forall k :: k in RelatedKeys(s, classes) ==> IsKey(k) && PlainKey(k) && KeyNs(k) in ServiceNamespaces(s)
  {
    forall k | k in RelatedKeys(s, classes)
      ensures IsKey(k) && PlainKey(k) && KeyNs(k) in ServiceNamespaces(s)
    {
      var c, svc :| c in classes && c in s.classes && svc in RelatedServices(s, c) && k == ServiceKey(svc);
      RelatedStored(s, c, svc);
      ServiceKeyPlain(svc);
    }
  }

  /******* What HandleBackends queues *******/

  ghost predicate BackendsQueued(s: Snapshot, ns: string, decl: Declaration) {
    exists keys: seq<string>, cfgs: map<string, Config> ::
      && Elems(keys) == BackendKeys(s, ns) && (forall k :: k in keys ==> IsKey(k))
      && (if keys == [] then cfgs == map[ns := map[]] else ServicePools(s, keys) == Some(cfgs))
      && Converts(cfgs, decl)
  }

  lemma BackendsQueuedBy(s: Snapshot, ns: string, keys: seq<string>, cfgs: map<string, Config>, decl: Declaration)
    requires Elems(keys) == BackendKeys(s, ns) && (forall k :: k in keys ==> IsKey(k))
    requires if keys == [] then cfgs == map[ns := map[]] else ServicePools(s, keys) == Some(cfgs)
    requires Converts(cfgs, decl)
    ensures BackendsQueued(s, ns, decl)
  {
  }

  ghost predicate KnownRoot(s: Snapshot, svc: Service) {
    exists gw :: gw in RootGateways(s, svc) && gw.className in s.classes
  }

  lemma BackendKeysAre(s: Snapshot, ns: string, svcs: set<Service>)
    requires Keyed(s) && svcs == set k | k in s.services && s.services[k].ns == ns :: s.services[k]
    ensures BackendKeys(s, ns) == set svc | svc in svcs && KnownRoot(s, svc) :: ServiceKey(svc)
  {
  }

  ghost predicate BackendsFail(s: Snapshot, ns: string) {
    exists k :: k in BackendKeys(s, ns) && PoolFails(s, k)
  }

  ghost predicate EnqueuesBackends(s: Snapshot, ns: string, queue: seq<Declaration>, queue': seq<Declaration>,
                                   ok: bool) {
    if BackendsFail(s, ns) then !ok && queue' == queue
    else ok && exists decl :: BackendsQueued(s, ns, decl) && queue' == queue + [decl]
  }

  // The deployment an event asks for.
  ghost predicate Reconciled(s: Snapshot, e: Event, queue: seq<Declaration>, queue': seq<Declaration>, ok: bool) {
    match e
    case ServiceEvent(_, ns, _) => EnqueuesBackends(NextSnapshot(s, e), ns, queue, queue', ok)
    case EndpointsEvent(_, ns, _) => EnqueuesBackends(NextSnapshot(s, e), ns, queue, queue', ok)
    case _ => Enqueues(NextSnapshot(s, e), Redeployed(s, e), queue, queue', ok)
  }

  // What a reconcile of the event does: it stores or removes the object, and queues a deployment
  // or cannot.
  ghost predicate Performed(s: Snapshot, st: D.State, e: Event, s': Snapshot, st': D.State, ok: bool) {
    && s' == NextSnapshot(s, e)
    && st' == st.(queue := st'.queue)
    && Reconciled(s, e, st.queue, st'.queue, ok)
  }

  class Controller {
    const sigs: SIGCache
    const deployer: D.AS3Deployer

    ghost predicate Valid()
      reads this, sigs, sigs.refFromTo
    {
      WellFormed(sigs.View())
    }

    constructor (controllerName: string, devices: seq<D.Device>)
      ensures Valid() && fresh(sigs) && fresh(sigs.refFromTo) && fresh(deployer)
      ensures sigs.View() == Snapshot(controllerName, map[], map[], map[], map[], map[], map[], map[], map[], map[])
      ensures deployer.View() == D.State([], map[], devices, [])
    {
      sigs := new SIGCache(controllerName);
      deployer := new D.AS3Deployer(devices);
    }

    /******* Deploying *******/

    method DeployForEvent(classes: seq<string>) returns (ok: bool)
      requires Valid()
      modifies deployer`pendingDeploys
      ensures Enqueues(sigs.View(), Elems(classes), old(deployer.pendingDeploys), deployer.pendingDeploys, ok)
    {
      ghost var s, queue := sigs.View(), deployer.pendingDeploys;
      if |classes| == 0 {
        EnqueuesNone(s, Elems(classes), queue, true);
        return true;
      }
      assert classes[0] in Elems(classes);
      var decl := BuildDeclaration(classes);
      if decl.Err? {
        EnqueuesNone(s, Elems(classes), queue, false);
        return false;
      }
      deployer.Add(decl.value);
      EnqueuesOne(s, Elems(classes), queue, decl.value);
      ok := true;
    }

    method BuildDeclaration(classes: seq<string>) returns (r: Result<Declaration>)
      requires Valid()
      ensures r.Err? <==> DeployFails(sigs.View(), Elems(classes))
      ensures r.Ok? ==> Deploys(sigs.View(), Elems(classes), r.value)
    {
      var ncfgs := ParseClasses(classes);
      if ncfgs.Err? {
        return Err;
      }
      var scfgs := ParseClassRelatedServices(classes);
      if scfgs.None? {
        return Err;
      }
      var decl := RestToAS3(ncfgs.value + scfgs.value);
      DeploysBy(sigs.View(), Elems(classes), ncfgs.value, scfgs.value, decl);
      r := Ok(decl);
    }

    // The loop over the impacted classes.
    method ParseClasses(classes: seq<string>) returns (r: Result<map<string, Config>>)
      requires sigs.Valid()
      ensures r.Err? <==> exists c :: c in Elems(classes) && Fails(InputsOf(sigs.View(), c))
      ensures r.Ok? ==> r.value.Keys == Elems(classes) && forall c :: c in r.value ==>
        Renders(InputsOf(sigs.View(), c), r.value[c])
    {
      var ncfgs: map<string, Config> := map[];
      for i := 0 to |classes|
        invariant ncfgs.Keys == Elems(classes[..i])
        invariant forall c :: c in ncfgs ==> Renders(InputsOf(sigs.View(), c), ncfgs[c])
        invariant forall c :: c in Elems(classes[..i]) ==> !Fails(InputsOf(sigs.View(), c))
      {
        assert Elems(classes[..i + 1]) == Elems(classes[..i]) + {classes[i]} by {
          assert classes[..i + 1] == classes[..i] + [classes[i]];
        }
        var cfg := ParseAllForClass(sigs, classes[i]);
        if cfg.Err? {
          assert classes[i] in Elems(classes);
          return Err;
        }
        ncfgs := ncfgs[classes[i] := cfg.value];
      }
      assert classes[..|classes|] == classes;
      r := Ok(ncfgs);
    }

    method ParseClassRelatedServices(classes: seq<string>) returns (r: Option<map<string, Config>>)
      requires Valid()
      ensures r.None? <==> exists k :: k in RelatedKeys(sigs.View(), Elems(classes)) && PoolFails(sigs.View(), k)
      ensures r.Some? ==> RelatedPools(sigs.View(), Elems(classes), r.value)
    {
      var keys := RelatedKeysOf(sigs, classes);
      RelatedKeysPlain(sigs.View(), Elems(classes));
      assert forall k :: k in keys <==> k in Elems(keys);
      ServicePoolsFail(sigs.View(), keys);
      r := ParseServices(sigs, keys);
    }

    method HandleBackends(ns: string) returns (ok: bool)
      requires Valid()
      modifies deployer`pendingDeploys
      ensures EnqueuesBackends(sigs.View(), ns, old(deployer.pendingDeploys), deployer.pendingDeploys, ok)
    {
      var decl := BuildBackends(ns);
      if decl.Err? {
        return false;
      }
      deployer.Add(decl.value);
      ok := true;
    }

    method BuildBackends(ns: string) returns (r: Result<Declaration>)
      requires Valid()
      ensures r.Err? <==> BackendsFail(sigs.View(), ns)
      ensures r.Ok? ==> BackendsQueued(sigs.View(), ns, r.value)
    {
      var keys := CollectBackends(ns);
      var cfgs: map<string, Config> := map[ns := map[]];
      ServicePoolsFail(sigs.View(), keys);
      assert forall k :: k in keys <==> k in BackendKeys(sigs.View(), ns) by {
        assert forall k :: k in keys <==> k in Elems(keys);
      }
      if |keys| > 0 {
        var pools := ParseServices(sigs, keys);
        if pools.None? {
          return Err;
        }
        cfgs := pools.value;
      }
      var decl := RestToAS3(cfgs);
      BackendsQueuedBy(sigs.View(), ns, keys, cfgs, decl);
      r := Ok(decl);
    }

    method CollectBackends(ns: string) returns (keys: seq<string>)
      requires Valid()
      ensures Elems(keys) == BackendKeys(sigs.View(), ns)
      ensures forall k :: k in keys ==> IsKey(k)
    {
      var svcs := sigs.GetServicesWithNamespace(ns);
      keys := KeysPerRoots(svcs);
      BackendKeysAre(sigs.View(), ns, Elems(svcs));
      forall k | k in keys ensures IsKey(k) {
        assert k in Elems(keys);
        ServiceKeyPlain(sigs.services[k]);
      }
    }

    // The loop over the namespace's services,
    method KeysPerRoots(svcs: seq<Service>) returns (keys: seq<string>)
      requires Valid()
      ensures Elems(keys) == set svc | svc in Elems(svcs) && KnownRoot(sigs.View(), svc) :: ServiceKey(svc)
    {
      ghost var s := sigs.View();
      keys := [];
      for i := 0 to |svcs|
        invariant Elems(keys) == set svc | svc in svcs[..i] && KnownRoot(s, svc) :: ServiceKey(svc)
      {
        assert svcs[..i + 1] == svcs[..i] + [svcs[i]];
        var more := KeyPerRoot(svcs[i]);
        ElemsConcat(keys, more);
        keys := keys + more;
      }
      assert svcs[..|svcs|] == svcs;
    }

    // and over the root gateways of one.
    method KeyPerRoot(svc: Service) returns (keys: seq<string>)
      requires Valid()
      ensures Elems(keys) == if KnownRoot(sigs.View(), svc) then {ServiceKey(svc)} else {}
    {
      var gws := sigs.GetRootGateways([svc]);
      keys := KeyPerGateway(gws, ServiceKey(svc));
    }

    method KeyPerGateway(gws: set<Gateway>, key: string) returns (keys: seq<string>)
      ensures Elems(keys) == if exists gw :: gw in gws && gw.className in sigs.classes then {key} else {}
    {
      keys := [];
      var left := gws;
      while left != {}
        invariant left <= gws
        invariant forall k :: k in keys ==> k == key
        invariant keys != [] <==> exists gw :: gw in gws && gw !in left && gw.className in sigs.classes
        decreases left
      {
        var gw :| gw in left;
        left := left - {gw};
        if gw.className in sigs.classes {
          keys := keys + [key];
        }
      }
      if keys != [] { assert keys[0] in Elems(keys); }
    }

    /******* Reconciling *******/

    // One event of any kind.
    method Reconcile(e: Event) returns (r: Return, ghost ok: bool)
      requires Valid() && CleanEvent(e)
      modifies sigs, sigs.refFromTo, deployer
      ensures Valid() && r == ReturnOf(old(sigs.View()), e, ok)
      ensures Performed(old(sigs.View()), old(deployer.View()), e, sigs.View(), deployer.View(), ok)
    {
      match e {
        case RouteEvent(k, o) => r, ok := ReconcileHTTPRoute(k, o);
        case GrantEvent(k, o) => r, ok := ReconcileReferenceGrant(k, o);
        case ClassEvent(n, o) => r, ok := ReconcileGatewayClass(n, o);
        case GatewayEvent(k, o) => r, ok := ReconcileGateway(k, o);
        case NamespaceEvent(n, o) => r, ok := ReconcileNamespace(n, o);
        case SecretEvent(k, o) => r, ok := ReconcileSecret(k, o);
        case ServiceEvent(k, ns, o) => r, ok := ReconcileService(k, ns, o);
        case EndpointsEvent(k, ns, o) => r, ok := ReconcileEndpoints(k, ns, o);
      }
    }

    // The object is stored; the classes of the event are deployed,
    method DeployClasses(cls: seq<string>, ghost s: Snapshot, ghost e: Event) returns (deployed: bool)
      requires Valid() && sigs.View() == NextSnapshot(s, e) && Elems(cls) == Redeployed(s, e)
      requires !e.ServiceEvent? && !e.EndpointsEvent?
      modifies deployer`pendingDeploys
      ensures Valid() && Performed(s, old(deployer.View()), e, sigs.View(), deployer.View(), deployed)
    {
      deployed := DeployForEvent(cls);
    }

    // the backends of the namespace are,
    method DeployBackends(ns: string, ghost s: Snapshot, ghost e: Event) returns (deployed: bool)
      requires Valid() && sigs.View() == NextSnapshot(s, e)
      requires (e.ServiceEvent? || e.EndpointsEvent?) && e.ns == ns
      modifies deployer`pendingDeploys
      ensures Valid() && Performed(s, old(deployer.View()), e, sigs.View(), deployer.View(), deployed)
    {
      deployed := HandleBackends(ns);
    }

    // or nothing is.
    lemma DeployNone(s: Snapshot, e: Event)
      requires sigs.View() == NextSnapshot(s, e) && Redeployed(s, e) == {}
      requires !e.ServiceEvent? && !e.EndpointsEvent?
      ensures Performed(s, deployer.View(), e, sigs.View(), deployer.View(), true)
    {
      EnqueuesNone(sigs.View(), {}, deployer.pendingDeploys, true);
    }

    method ReconcileHTTPRoute(key: string, obj: Option<HTTPRoute>) returns (r: Return, ghost ok: bool)
      requires Valid() && CleanEvent(RouteEvent(key, obj))
      modifies sigs`routes, deployer`pendingDeploys
      ensures Valid() && r == ReturnOf(old(sigs.View()), RouteEvent(key, obj), ok)
      ensures Performed(old(sigs.View()), old(deployer.View()), RouteEvent(key, obj),
                        sigs.View(), deployer.View(), ok)
    {
      ghost var s := sigs.View();
      var cls := ClassesOfRoute(key, obj);
      StoreRoute(key, obj);
      var deployed := DeployClasses(cls, s, RouteEvent(key, obj));
      r, ok := if deployed then Done else Failed, deployed;
    }

    method StoreRoute(key: string, obj: Option<HTTPRoute>)
      requires Valid() && CleanEvent(RouteEvent(key, obj))
      modifies sigs`routes
      ensures Valid() && sigs.View() == NextSnapshot(old(sigs.View()), RouteEvent(key, obj))
    {
      NextWellFormed(sigs.View(), RouteEvent(key, obj));
      if obj.Some? {
        sigs.SetHTTPRoute(obj.value);
      } else {
        sigs.UnsetHTTPRoute(key);
      }
    }

    method ClassesOfRoute(key: string, obj: Option<HTTPRoute>) returns (cls: seq<string>)
      requires Valid() && CleanEvent(RouteEvent(key, obj))
      ensures Elems(cls) == Redeployed(sigs.View(), RouteEvent(key, obj))
    {
      var gws: seq<Gateway> := [];
      if key in sigs.routes {
        gws := sigs.GatewayRefsOfHR(sigs.routes[key]);
      }
      assert ClassNames(gws) == RouteClasses(sigs.View(), Lookup(sigs.routes, key));
      if obj.Some? {
        var more := sigs.GatewayRefsOfHR(obj.value);
        assert ClassNames(gws + more) == ClassNames(gws) + ClassNames(more);
        gws := gws + more;
      }
      cls := Unified(ClassNamesOf(gws));
    }

    // After an upsert the error of the deployment is dropped.
    method ReconcileReferenceGrant(key: string, obj: Option<ReferenceGrant>) returns (r: Return, ghost ok: bool)
      requires Valid() && CleanEvent(GrantEvent(key, obj))
      modifies sigs`grants, sigs.refFromTo, deployer`pendingDeploys
      ensures Valid() && r == ReturnOf(old(sigs.View()), GrantEvent(key, obj), ok)
      ensures Performed(old(sigs.View()), old(deployer.View()), GrantEvent(key, obj),
                        sigs.View(), deployer.View(), ok)
    {
      ghost var s := sigs.View();
      var clss := ClassesOfGrant(key, obj);
      StoreGrant(key, obj);
      var deployed := DeployClasses(clss, s, GrantEvent(key, obj));
      r, ok := if deployed || obj.Some? then Done else Failed, deployed;
    }

    method StoreGrant(key: string, obj: Option<ReferenceGrant>)
      requires Valid() && CleanEvent(GrantEvent(key, obj))
      modifies sigs`grants, sigs.refFromTo
      ensures Valid() && sigs.View() == NextSnapshot(old(sigs.View()), GrantEvent(key, obj))
    {
      NextWellFormed(sigs.View(), GrantEvent(key, obj));
      if obj.Some? {
        sigs.SetReferenceGrant(obj.value);
      } else {
        sigs.UnsetReferenceGrant(key);
      }
    }

    method ClassesOfGrant(key: string, obj: Option<ReferenceGrant>) returns (clss: seq<string>)
      requires Valid()
      ensures Elems(clss) == Redeployed(sigs.View(), GrantEvent(key, obj))
    {
      var ocls := sigs.RGImpactedGatewayClasses(Lookup(sigs.grants, key));
      var ncls := sigs.RGImpactedGatewayClasses(obj);
      ElemsConcat(ocls, ncls);
      clss := Unified(ocls + ncls);
    }

    method ReconcileGatewayClass(name: string, obj: Option<GatewayClass>) returns (r: Return, ghost ok: bool)
      requires Valid() && CleanEvent(ClassEvent(name, obj))
      modifies sigs`classes, deployer`pendingDeploys
      ensures Valid() && r == ReturnOf(old(sigs.View()), ClassEvent(name, obj), ok)
      ensures Performed(old(sigs.View()), old(deployer.View()), ClassEvent(name, obj),
                        sigs.View(), deployer.View(), ok)
      ensures obj.Some? && obj.value.controllerName != sigs.controllerName ==>
        r == Done && sigs.View() == old(sigs.View()) && deployer.View() == old(deployer.View())
    {
      ghost var s, e := sigs.View(), ClassEvent(name, obj);
      var stored := StoreClass(name, obj);
      if !stored {
        DeployNone(s, e);
        return Done, true;
      }
      assert Elems([name]) == {name};
      var deployed := DeployClasses([name], s, e);
      r, ok := if deployed then Done else Failed, deployed;
    }

    // A class that is not in the cache is not removed, one of another controller not stored.
    method StoreClass(name: string, obj: Option<GatewayClass>) returns (stored: bool)
      requires Valid() && CleanEvent(ClassEvent(name, obj))
      modifies sigs`classes
      ensures Valid() && sigs.View() == NextSnapshot(old(sigs.View()), ClassEvent(name, obj))
      ensures stored == !Ignored(old(sigs.View()), ClassEvent(name, obj))
    {
      NextWellFormed(sigs.View(), ClassEvent(name, obj));
      if obj.None? {
        if name !in sigs.classes {
          return false;
        }
        sigs.UnsetGatewayClass(name);
      } else {
        if obj.value.controllerName != sigs.controllerName {
          return false;
        }
        sigs.SetGatewayClass(obj.value);
      }
      stored := true;
    }

    // A deletion dereferences the stored gateway. An upsert stores the gateway first.
    method ReconcileGateway(key: string, obj: Option<Gateway>) returns (r: Return, ghost ok: bool)
      requires Valid() && CleanEvent(GatewayEvent(key, obj))
      modifies sigs`gateways, deployer`pendingDeploys
      ensures Valid() && r == ReturnOf(old(sigs.View()), GatewayEvent(key, obj), ok)
      ensures Performed(old(sigs.View()), old(deployer.View()), GatewayEvent(key, obj),
                        sigs.View(), deployer.View(), ok)
    {
      ghost var s, e := sigs.View(), GatewayEvent(key, obj);
      if obj.None? && key !in sigs.gateways {
        assert sigs.gateways - {key} == sigs.gateways;
        DeployNone(s, e);
        return Panic, true;
      }
      var cls := StoreGateway(key, obj);
      var deployed := DeployClasses(cls, s, e);
      r, ok := if deployed then Done else Failed, deployed;
    }

    method StoreGateway(key: string, obj: Option<Gateway>) returns (cls: seq<string>)
      requires Valid() && CleanEvent(GatewayEvent(key, obj))
      requires obj.None? ==> key in sigs.gateways
      modifies sigs`gateways
      ensures Valid() && sigs.View() == NextSnapshot(old(sigs.View()), GatewayEvent(key, obj))
      ensures Elems(cls) == Redeployed(old(sigs.View()), GatewayEvent(key, obj))
    {
      NextWellFormed(sigs.View(), GatewayEvent(key, obj));
      if obj.None? {
        cls := [sigs.gateways[key].className];
        sigs.UnsetGateway(key);
      } else {
        sigs.SetGateway(obj.value);
        cls := [obj.value.className];
        if key in sigs.gateways {
          cls := cls + [sigs.gateways[key].className];
        }
        cls := Unified(cls);
      }
    }

    method ReconcileNamespace(name: string, obj: Option<Namespace>) returns (r: Return, ghost ok: bool)
      requires Valid() && CleanEvent(NamespaceEvent(name, obj))
      modifies sigs`namespaces, deployer`pendingDeploys
      ensures Valid() && r == ReturnOf(old(sigs.View()), NamespaceEvent(name, obj), ok)
      ensures Performed(old(sigs.View()), old(deployer.View()), NamespaceEvent(name, obj),
                        sigs.View(), deployer.View(), ok)
    {
      if obj.None? {
        RemoveNamespace(name);
        return Done, true;
      }
      if name in sigs.namespaces && sigs.namespaces[name].labels != obj.value.labels {
        var deployed := RelabelNamespace(obj.value);
        if !deployed {
          return Failed, false;
        }
        StoreAgain(obj.value);
      } else {
        StoreNamespace(obj.value);
      }
      r, ok := Done, true;
    }

    method RemoveNamespace(name: string)
      requires Valid()
      modifies sigs`namespaces
      ensures Valid()
      ensures Performed(old(sigs.View()), deployer.View(), NamespaceEvent(name, None),
                        sigs.View(), deployer.View(), true)
    {
      ghost var s, e := sigs.View(), NamespaceEvent(name, None);
      NextWellFormed(s, e);
      sigs.UnsetNamespace(name);
      DeployNone(s, e);
    }

    method StoreNamespace(obj: Namespace)
      requires Valid() && !Relabels(sigs.View(), obj.name, Some(obj))
      modifies sigs`namespaces
      ensures Valid()
      ensures Performed(old(sigs.View()), deployer.View(), NamespaceEvent(obj.name, Some(obj)),
                        sigs.View(), deployer.View(), true)
    {
      ghost var s, e := sigs.View(), NamespaceEvent(obj.name, Some(obj));
      NextWellFormed(s, e);
      sigs.SetNamespace(obj);
      DeployNone(s, e);
    }

    // The namespace is stored a second time.
    method StoreAgain(obj: Namespace)
      requires Valid() && Lookup(sigs.namespaces, obj.name) == Some(obj)
      modifies sigs`namespaces
      ensures Valid() && sigs.View() == old(sigs.View())
    {
      assert sigs.namespaces[obj.name := obj] == sigs.namespaces;
      sigs.SetNamespace(obj);
    }

    // The namespace is known and its labels change.
    method RelabelNamespace(obj: Namespace) returns (deployed: bool)
      requires Valid() && Relabels(sigs.View(), obj.name, Some(obj))
      modifies sigs`namespaces, deployer`pendingDeploys
      ensures Valid()
      ensures Performed(old(sigs.View()), old(deployer.View()), NamespaceEvent(obj.name, Some(obj)),
                        sigs.View(), deployer.View(), deployed)
    {
      ghost var s, e := sigs.View(), NamespaceEvent(obj.name, Some(obj));
      NextWellFormed(s, e);
      var cls := sigs.NSImpactedGatewayClasses(obj.name);
      sigs.SetNamespace(obj);
      deployed := DeployClasses(cls, s, e);
    }

    method ReconcileSecret(key: string, obj: Option<Secret>) returns (r: Return, ghost ok: bool)
      requires Valid() && CleanEvent(SecretEvent(key, obj))
      modifies sigs`secrets, deployer`pendingDeploys
      ensures Valid() && r == ReturnOf(old(sigs.View()), SecretEvent(key, obj), ok)
      ensures Performed(old(sigs.View()), old(deployer.View()), SecretEvent(key, obj),
                        sigs.View(), deployer.View(), ok)
    {
      ghost var s, e := sigs.View(), SecretEvent(key, obj);
      if obj.None? {
        r := RemoveSecret(key);
        DeployNone(s, e);
        return r, true;
      }
      var cls := ClassesOfSecret(key, obj.value);
      NextWellFormed(s, e);
      sigs.SetSecret(obj.value);
      if cls.Err? {
        DeployNone(s, e);
        return Failed, true;
      }
      var deployed := DeployClasses(cls.value, s, e);
      r, ok := if deployed then Done else Failed, deployed;
    }

    // The gateways still using the secret are only logged, but an error in finding them is returned.
    method RemoveSecret(key: string) returns (r: Return)
      requires Valid()
      modifies sigs`secrets
      ensures Valid() && sigs.View() == NextSnapshot(old(sigs.View()), SecretEvent(key, None))
      ensures r == ReturnOf(old(sigs.View()), SecretEvent(key, None), true)
    {
      NextWellFormed(sigs.View(), SecretEvent(key, None));
      r := Done;
      if key in sigs.secrets {
        var gws := sigs.GatewayRefsOfSecret(sigs.secrets[key]);
        if gws.Err? {
          r := Failed;
        }
      }
      sigs.UnsetSecret(key);
    }

    // An error means that some gateway uses the secret wrongly; then nothing is deployed.
    method ClassesOfSecret(key: string, scrt: Secret) returns (cls: Result<seq<string>>)
      requires Valid()
      ensures cls.Err? <==> SecretRejected(sigs.View(), scrt)
      ensures cls.Ok? ==> Elems(cls.value) == Redeployed(sigs.View(), SecretEvent(key, Some(scrt)))
    {
      var gws := sigs.GatewayRefsOfSecret(scrt);
      if gws.Err? {
        return Err;
      }
      assert forall gw :: gw in gws.value <==> gw in Elems(gws.value);
      cls := Ok(ClassNamesOf(gws.value));
    }

    method ReconcileService(key: string, ns: string, obj: Option<Service>) returns (r: Return, ghost ok: bool)
      requires Valid() && CleanEvent(ServiceEvent(key, ns, obj))
      modifies sigs`services, deployer`pendingDeploys
      ensures Valid() && r == ReturnOf(old(sigs.View()), ServiceEvent(key, ns, obj), ok)
      ensures Performed(old(sigs.View()), old(deployer.View()), ServiceEvent(key, ns, obj),
                        sigs.View(), deployer.View(), ok)
    {
      ghost var s := sigs.View();
      StoreService(key, ns, obj);
      var deployed := DeployBackends(ns, s, ServiceEvent(key, ns, obj));
      r, ok := if deployed then Done else Failed, deployed;
    }

    method StoreService(key: string, ns: string, obj: Option<Service>)
      requires Valid() && CleanEvent(ServiceEvent(key, ns, obj))
      modifies sigs`services
      ensures Valid() && sigs.View() == NextSnapshot(old(sigs.View()), ServiceEvent(key, ns, obj))
    {
      NextWellFormed(sigs.View(), ServiceEvent(key, ns, obj));
      if obj.Some? {
        sigs.SetService(obj.value);
      } else {
        sigs.UnsetService(key);
      }
    }

    method ReconcileEndpoints(key: string, ns: string, obj: Option<Endpoints>) returns (r: Return, ghost ok: bool)
      requires Valid() && CleanEvent(EndpointsEvent(key, ns, obj))
      modifies sigs`endpoints, deployer`pendingDeploys
      ensures Valid() && r == ReturnOf(old(sigs.View()), EndpointsEvent(key, ns, obj), ok)
      ensures Performed(old(sigs.View()), old(deployer.View()), EndpointsEvent(key, ns, obj),
                        sigs.View(), deployer.View(), ok)
    {
      ghost var s := sigs.View();
      StoreEndpoints(key, ns, obj);
      var deployed := DeployBackends(ns, s, EndpointsEvent(key, ns, obj));
      r, ok := if deployed then Done else Failed, deployed;
    }

    method StoreEndpoints(key: string, ns: string, obj: Option<Endpoints>)
      requires Valid() && CleanEvent(EndpointsEvent(key, ns, obj))
      modifies sigs`endpoints
      ensures Valid() && sigs.View() == NextSnapshot(old(sigs.View()), EndpointsEvent(key, ns, obj))
    {
      NextWellFormed(sigs.View(), EndpointsEvent(key, ns, obj));
      if obj.Some? {
        sigs.SetEndpoints(obj.value);
      } else {
        sigs.UnsetEndpoints(key);
      }
    }
  }
}
