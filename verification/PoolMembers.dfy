/** The members of deployed pools, said in terms of the stored services and endpoints, and the paths
    by which iRules name the pools. */
module PoolMembers {
  import opened Common
  import opened Names
  import opened Objects
  import opened Snapshots
  import IRules
  import opened Rendering
  import opened AS3
  import opened Declarations
  import opened Pooling
  import opened Reachability
  import opened Events
  import opened Controllers
  import opened NamespaceTenants
  import Convergence

  // The pool of a known service: the members of its endpoints, and none if there are none.
  predicate PoolOf(s: Snapshot, k: string, r: Resource) {
    if k in s.endpoints then s.endpoints[k].members.Some? && r == Pool(s.endpoints[k].members.value) else r == Pool([])
  }

  lemma PoolsShow(s: Snapshot, keys: seq<string>, ns: string, e: Entry, n: string)
    requires PlainKeys(keys) && ServicePools(s, keys).Some? && ns in ServicePools(s, keys).value && '/' !in ns
    requires ConvertsTenant(ServicePools(s, keys).value[ns], e)
    requires Holds(e, n) && Key(ns, n) in s.services
    ensures PoolOf(s, Key(ns, n), ContentOf(e, n))
  {
    var res := PoolsIn(ServicePools(s, keys).value, ns);
    PoolsNamed(s, keys, ns);
    var k := ContentFrom(res, e.apps["serviceMain"], n);
    var key :| key in keys && KeyNs(key) == ns && k == PoolKey(KeyName(key));
    PoolResource(KeyName(key));
    ServicePoolsExact(s, keys, ns, n);
  }

  // Making the pools of keys fails exactly if the endpoints of one of these services are unusable.
  lemma PoolsFailIff(s: Snapshot, keys: seq<string>)
    requires PlainKeys(keys) && forall k :: k in keys ==> k in s.services
    ensures ServicePools(s, keys).None? <==> exists k :: k in keys && k in s.endpoints && s.endpoints[k].members.None?
  {
    ServicePoolsFail(s, keys);
    forall k | k in keys
      ensures Members(s, KeyNs(k), KeyName(k)).None? <==> k in s.endpoints && s.endpoints[k].members.None?
    {
      assert k == Key(KeyNs(k), KeyName(k));
    }
  }

  // In a deployment of classes, the tenant of a namespace shows the members of each pool,
  lemma DeployedMembers(s: Snapshot, classes: set<string>, decl: Declaration, ns: string, n: string)
    requires WellFormed(s) && Deploys(s, classes, decl) && '/' !in ns && '/' !in n
    requires Key(ns, n) in RelatedKeys(s, classes)
    ensures ns in decl && Holds(decl[ns], n) && PoolOf(s, Key(ns, n), ContentOf(decl[ns], n))
  {
    RelatedKeyClean(s, classes, Key(ns, n));
    KeyParts(ns, n);
    NamespaceTenantIs(s, classes, decl, ns, n);
    var keys := TenantPools(s, classes, decl, ns, Key(ns, n));
    RelatedStoredKey(s, classes, Key(ns, n));
    PoolsShow(s, keys, ns, decl[ns], n);
  }

  // The tenant of a related key's namespace is made of the pools of all related keys.
  lemma TenantPools(s: Snapshot, classes: set<string>, decl: Declaration, ns: string, k: string)
    returns (keys: seq<string>)
    requires WellFormed(s) && Deploys(s, classes, decl)
    requires k in RelatedKeys(s, classes) && IsKey(k) && KeyNs(k) == ns
    ensures PlainKeys(keys) && ServicePools(s, keys).Some? && ns in ServicePools(s, keys).value
    ensures ns in decl && ConvertsTenant(ServicePools(s, keys).value[ns], decl[ns])
  {
    var ncfgs, scfgs := Convergence.DeployedConfigs(s, classes, decl);
    keys := RelatedList(s, classes, scfgs);
    ServicePoolsTenants(s, keys);
    assert k in Elems(keys);
    TenantOf(ncfgs, scfgs, decl, ns);
  }

  lemma TenantOf(ncfgs: map<string, Config>, scfgs: map<string, Config>, decl: Declaration, ns: string)
    requires Converts(ncfgs + scfgs, decl) && ns in scfgs
    ensures ns in decl && ConvertsTenant(scfgs[ns], decl[ns])
  {
    assert ns in ncfgs + scfgs && (ncfgs + scfgs)[ns] == scfgs[ns];
  }

  lemma RelatedStoredKey(s: Snapshot, classes: set<string>, k: string)
    requires WellFormed(s) && k in RelatedKeys(s, classes)
    ensures k in s.services
  {
    var c, svc :| c in classes && c in s.classes && svc in RelatedServices(s, c) && k == ServiceKey(svc);
    RelatedStored(s, c, svc);
  }

  lemma RelatedList(s: Snapshot, classes: set<string>, scfgs: map<string, Config>) returns (keys: seq<string>)
    requires WellFormed(s) && RelatedPools(s, classes, scfgs)
    ensures PlainKeys(keys) && Elems(keys) == RelatedKeys(s, classes) && ServicePools(s, keys) == Some(scfgs)
  {
    keys :| Elems(keys) == RelatedKeys(s, classes) && (forall k :: k in keys ==> IsKey(k)) &&
      ServicePools(s, keys) == Some(scfgs);
    forall k | k in keys ensures PlainKey(k) && '/' !in KeyNs(k) && '/' !in KeyName(k) {
      assert k in Elems(keys);
      RelatedKeyClean(s, classes, k);
    }
  }

  lemma BackendList(s: Snapshot, ns: string, decl: Declaration) returns (keys: seq<string>, cfgs: map<string, Config>)
    requires WellFormed(s) && BackendsQueued(s, ns, decl)
    ensures PlainKeys(keys) && Elems(keys) == BackendKeys(s, ns) && Converts(cfgs, decl)
    ensures if keys == [] then cfgs == map[ns := map[]] else ServicePools(s, keys) == Some(cfgs)
  {
    keys, cfgs :| Elems(keys) == BackendKeys(s, ns) && (forall k :: k in keys ==> IsKey(k)) &&
      (if keys == [] then cfgs == map[ns := map[]] else ServicePools(s, keys) == Some(cfgs)) && Converts(cfgs, decl);
    forall k | k in keys ensures PlainKey(k) && '/' !in KeyNs(k) && '/' !in KeyName(k) {
      assert k in Elems(keys);
      ServiceKeyPlain(s.services[k]);
    }
  }

  // and so does a deployment of backends. It has the pools of the namespace's related services and
  // no other, and an empty tenant if there is none.
  lemma BackendsShow(s: Snapshot, ns: string, decl: Declaration, n: string)
    requires WellFormed(s) && BackendsQueued(s, ns, decl) && '/' !in ns
    ensures ns in decl && decl[ns].Object? && decl[ns].class_ == Some("Tenant")
    ensures Holds(decl[ns], n) <==> '/' !in n && Key(ns, n) in BackendKeys(s, ns)
    ensures Holds(decl[ns], n) ==> PoolOf(s, Key(ns, n), ContentOf(decl[ns], n))
  {
    var keys, cfgs := BackendList(s, ns, decl);
    assert Key(ns, n) in keys <==> Key(ns, n) in Elems(keys);
    if keys == [] {
      assert ConvertsTenant(cfgs[ns], decl[ns]);
    } else {
      ServicePoolsTenants(s, keys);
      assert keys[0] in keys && keys[0] in Elems(keys);
      BackendNs(s, ns, keys[0]);
      assert ns in cfgs && ConvertsTenant(cfgs[ns], decl[ns]);
      TenantHolds(s, keys, ns, decl[ns], n);
      if Holds(decl[ns], n) { PoolsShow(s, keys, ns, decl[ns], n); }
    }
  }

  lemma BackendNs(s: Snapshot, ns: string, k: string)
    requires WellFormed(s) && k in BackendKeys(s, ns)
    ensures KeyNs(k) == ns
  {
    ServiceKeyPlain(s.services[k]);
  }

  // After a reconcile of endpoints that succeeds, the last queued tenant of the namespace shows the
  // new members of their service, if it is related to a known class.
  lemma NewMembersQueued(s: Snapshot, st: Convergence.D.State, k: string, ns: string, eps: Endpoints,
                         s': Snapshot, st': Convergence.D.State)
    requires WellFormed(s) && Performed(s, st, EndpointsEvent(k, ns, Some(eps)), s', st', true)
    requires CleanEvent(EndpointsEvent(k, ns, Some(eps))) && '/' !in ns && '/' !in eps.name
    requires k in BackendKeys(s', ns)
    ensures eps.members.Some?
    ensures var tenant := Convergence.Last(st'.queue, ns);
      tenant.Some? && Holds(tenant.value, eps.name) && ContentOf(tenant.value, eps.name) == Pool(eps.members.value)
  {
    var decl :| BackendsQueued(s', ns, decl) && st'.queue == st.queue + [decl];
    NextWellFormed(s, EndpointsEvent(k, ns, Some(eps)));
    BackendsShow(s', ns, decl, eps.name);
    Convergence.LastAdd(st.queue, decl, ns);
  }

  /******* The paths of pools *******/

  // A path names a tenant, an application and an entry of the declaration.
  function Resolve(decl: Declaration, path: string): Option<Resource> {
    var parts := Split(path, '/');
    if |parts| == 4 && parts[0] == "" && parts[1] in decl && decl[parts[1]].Object? && parts[2] in decl[parts[1]].apps
    then
      var app := decl[parts[1]].apps[parts[2]];
      if parts[3] in app && app[parts[3]].Content? then Some(app[parts[3]].resource) else None
    else None
  }

  // The path by which an iRule deals to a service's pool leads to the pool's entry.
  lemma PoolPathResolves(decl: Declaration, ns: string, n: string)
    requires '/' !in ns && '/' !in n && ns in decl
    ensures Resolve(decl, IRules.PoolName(ns, n)) == if Holds(decl[ns], n) then Some(ContentOf(decl[ns], n)) else None
  {
    PathParts(ns, n);
  }

  lemma PathParts(ns: string, n: string)
    requires '/' !in ns && '/' !in n
    ensures Split(IRules.PoolName(ns, n), '/') == ["", ns, "serviceMain", n]
  {
    KeyParts("serviceMain", n);
    SplitRooted(ns, Key("serviceMain", n), ["serviceMain", n]);
  }

  lemma SplitRooted(a: string, x: string, parts: seq<string>)
    requires '/' !in a && Split(x, '/') == parts
    ensures Split(Slash("", Slash(a, x)), '/') == ["", a] + parts
  {
    SplitSlash(a, x);
    SplitBehind(Slash(a, x), [a] + parts);
    assert [""] + ([a] + parts) == ["", a] + parts;
  }

  lemma SplitBehind(x: string, parts: seq<string>)
    requires Split(x, '/') == parts
    ensures Split(Slash("", x), '/') == [""] + parts
  {
    SplitSlash("", x);
  }
}
