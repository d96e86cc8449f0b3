/** The tenants of namespaces: which pools a deployment of classes leaves in them. */
module NamespaceTenants {
  import opened Common
  import opened Names
  import opened Objects
  import opened Snapshots
  import opened Rendering
  import opened AS3
  import opened Declarations
  import opened Pooling
  import opened Reachability
  import opened Controllers
  import Convergence

  predicate PlainKeys(keys: seq<string>) {
    forall k :: k in keys ==> PlainKey(k) && '/' !in KeyNs(k) && '/' !in KeyName(k)
  }

  predicate NamedBy(keys: seq<string>, ns: string, k: string)
    requires PlainKeys(keys)
  {
    exists key :: key in keys && KeyNs(key) == ns && k == PoolKey(KeyName(key))
  }

  // The pools of a namespace are named by keys of the namespace.
  lemma {:induction false} PoolsNamed(s: Snapshot, keys: seq<string>, ns: string)
    requires PlainKeys(keys) && ServicePools(s, keys).Some? && ns in ServicePools(s, keys).value
    ensures ServicePools(s, keys).value[ns].Keys == {"serviceMain"}
    ensures forall k :: k in PoolsIn(ServicePools(s, keys).value, ns) ==> NamedBy(keys, ns, k)
  {
    if keys != [] {
      var init, last := keys[..|keys| - 1], keys[|keys| - 1];
      assert keys == init + [last] && PlainKeys(init);
      assert forall k :: k in init ==> IsKey(k);
      if ns in ServicePools(s, init).value {
        PoolsNamed(s, init, ns);
      }
      forall k | k in PoolsIn(ServicePools(s, keys).value, ns) ensures NamedBy(keys, ns, k) {
        if k in PoolsIn(ServicePools(s, init).value, ns) {
          var key :| key in init && KeyNs(key) == ns && k == PoolKey(KeyName(key));
          assert key in keys;
        } else {
          assert last in keys && KeyNs(last) == ns && k == PoolKey(KeyName(last));
        }
      }
    }
  }

  lemma PoolResource(n: string)
    requires '/' !in n
    ensures ResourceName(PoolKey(n)) == n && !Skipped(PoolKey(n))
  {
    TypeAndNameOf("ltm/pool", n);
  }

  lemma TenantHolds(s: Snapshot, keys: seq<string>, ns: string, e: Entry, n: string)
    requires PlainKeys(keys) && ServicePools(s, keys).Some? && ns in ServicePools(s, keys).value && '/' !in ns
    requires ConvertsTenant(ServicePools(s, keys).value[ns], e)
    ensures Holds(e, n) <==> '/' !in n && Key(ns, n) in keys
  {
    var res := PoolsIn(ServicePools(s, keys).value, ns);
    PoolsNamed(s, keys, ns);
    assert ConvertsApp(res, e.apps["serviceMain"]);
    if Holds(e, n) {
      var k := ContentFrom(res, e.apps["serviceMain"], n);
      var key :| key in keys && KeyNs(key) == ns && k == PoolKey(KeyName(key));
      PoolResource(KeyName(key));
    }
    if '/' !in n && Key(ns, n) in keys {
      ServicePoolsExact(s, keys, ns, n);
      PoolResource(n);
      assert Declared(res, PoolKey(n));
    }
  }

  lemma RelatedKeyClean(s: Snapshot, classes: set<string>, k: string)
    requires WellFormed(s) && k in RelatedKeys(s, classes)
    ensures IsKey(k) && PlainKey(k) && '/' !in KeyNs(k) && '/' !in KeyName(k)
  {
    var c, svc :| c in classes && c in s.classes && svc in RelatedServices(s, c) && k == ServiceKey(svc);
    RelatedStored(s, c, svc);
    ServiceKeyPlain(svc);
  }

  // A deployment of classes leaves in the tenant of a namespace exactly the pools of the services
  // related to these classes, whatever was there before.
  lemma NamespaceTenantIs(s: Snapshot, classes: set<string>, decl: Declaration, ns: string, n: string)
    requires WellFormed(s) && Deploys(s, classes, decl) && '/' !in ns
    requires exists k :: k in RelatedKeys(s, classes) && IsKey(k) && KeyNs(k) == ns
    ensures ns in decl && (Holds(decl[ns], n) <==> '/' !in n && Key(ns, n) in RelatedKeys(s, classes))
  {
    var ncfgs, scfgs := Convergence.DeployedConfigs(s, classes, decl);
    var keys :| Elems(keys) == RelatedKeys(s, classes) && (forall k :: k in keys ==> IsKey(k)) &&
      ServicePools(s, keys) == Some(scfgs);
    forall k | k in keys ensures PlainKey(k) && '/' !in KeyNs(k) && '/' !in KeyName(k) {
      assert k in Elems(keys);
      RelatedKeyClean(s, classes, k);
    }
    ServicePoolsTenants(s, keys);
    var k :| k in RelatedKeys(s, classes) && IsKey(k) && KeyNs(k) == ns;
    assert k in Elems(keys) && ns in scfgs && (ncfgs + scfgs)[ns] == scfgs[ns];
    TenantHolds(s, keys, ns, decl[ns], n);
    assert Key(ns, n) in keys <==> Key(ns, n) in Elems(keys);
  }

  // It leaves there the pools of all services of the namespace that are related to known classes,
  // as a deployment of backends does, if and only if it deploys a class of each of these services.
  lemma NamespaceCompleteIff(s: Snapshot, classes: set<string>, decl: Declaration, ns: string)
    requires WellFormed(s) && Unambiguous(s) && Deploys(s, classes, decl) && '/' !in ns
    requires exists k :: k in RelatedKeys(s, classes) && IsKey(k) && KeyNs(k) == ns
    ensures ns in decl
    ensures (forall n :: '/' !in n ==> (Holds(decl[ns], n) <==> Key(ns, n) in BackendKeys(s, ns))) <==>
      BackendKeys(s, ns) <= RelatedKeys(s, classes)
  {
    NamespaceTenantIs(s, classes, decl, ns, "");
    if BackendKeys(s, ns) <= RelatedKeys(s, classes) {
      forall n | '/' !in n ensures Holds(decl[ns], n) <==> Key(ns, n) in BackendKeys(s, ns) {
        NamespaceTenantIs(s, classes, decl, ns, n);
        if Key(ns, n) in RelatedKeys(s, classes) { RelatedIsBackend(s, classes, ns, n); }
      }
    } else {
      var k :| k in BackendKeys(s, ns) && k !in RelatedKeys(s, classes);
      var n := BackendName(s, ns, k);
      NamespaceTenantIs(s, classes, decl, ns, n);
    }
  }

  lemma BackendName(s: Snapshot, ns: string, k: string) returns (n: string)
    requires WellFormed(s) && k in BackendKeys(s, ns)
    ensures '/' !in n && k == Key(ns, n)
  {
    n := s.services[k].name;
  }

  lemma RelatedIsBackend(s: Snapshot, classes: set<string>, ns: string, n: string)
    requires WellFormed(s) && Unambiguous(s) && '/' !in ns && Key(ns, n) in RelatedKeys(s, classes)
    ensures Key(ns, n) in BackendKeys(s, ns)
  {
    var c, svc :| c in classes && c in s.classes && svc in RelatedServices(s, c) && Key(ns, n) == ServiceKey(svc);
    RelatedStored(s, c, svc);
    KeyInjective(ns, n, svc.ns, svc.name);
    BackendKeysRelated(s, ns, Key(ns, n));
  }
}
