/** Pools of services: one tenant per namespace, with a pool for each service named by a key. */
module Pooling {
  import opened Common
  import opened Names
  import opened Objects
  import opened Snapshots
  import opened Rendering
  import opened SigCache

  // parseMembersFrom: no members unless both the service and its endpoints are known; None is
  // the error of the formatting library.
  function Members(s: Snapshot, ns: string, name: string): Option<seq<(int, string)>> {
    var k := Key(ns, name);
    if k in s.services && k in s.endpoints then s.endpoints[k].members else Some([])
  }

  function KeyNs(key: string): string { Split(key, '/')[0] }

  // The source takes the second part of the split key.
  predicate IsKey(key: string) { |Split(key, '/')| >= 2 }

  function KeyName(key: string): string
    requires IsKey(key)
  {
    Split(key, '/')[1]
  }

  function PoolsIn(cfgs: map<string, Config>, ns: string): Resources {
    if ns in cfgs && "serviceMain" in cfgs[ns] then cfgs[ns]["serviceMain"] else map[]
  }

  // ParseServices, with None for its error.
  function ServicePools(s: Snapshot, keys: seq<string>): Option<map<string, Config>>
    requires forall k :: k in keys ==> IsKey(k)
  {
    if keys == [] then Some(map[])
    else
      var init, key := keys[..|keys| - 1], keys[|keys| - 1];
      var before := ServicePools(s, init);
      var members := Members(s, KeyNs(key), KeyName(key));
      if before.None? || members.None? then None
      else
        var pools := PoolsIn(before.value, KeyNs(key))[PoolKey(KeyName(key)) := Pool(members.value)];
        Some(before.value[KeyNs(key) := map["serviceMain" := pools]])
  }

  method ParseServices(sigs: SIGCache, keys: seq<string>) returns (r: Option<map<string, Config>>)
    requires forall k :: k in keys ==> IsKey(k)
    ensures r == ServicePools(sigs.View(), keys)
  {
    var rlts: map<string, Config> := map[];
    for i := 0 to |keys|
      invariant ServicePools(sigs.View(), keys[..i]) == Some(rlts)
      invariant forall p :: p in rlts ==> rlts[p].Keys == {"serviceMain"}
    {
      var key := keys[i];
      assert keys[..i + 1][..i] == keys[..i];
      assert key in keys;
      var ns, n := KeyNs(key), KeyName(key);
      ghost var before := rlts;
      if ns !in rlts {
        rlts := rlts[ns := map["serviceMain" := map[]]];
      }
      var members := ParseMembersFrom(sigs, ns, n);
      if members.None? {
        ServicePoolsStayNone(sigs.View(), keys, i + 1);
        return None;
      }
      var pools := rlts[ns]["serviceMain"][PoolKey(n) := Pool(members.value)];
      assert pools == PoolsIn(before, ns)[PoolKey(n) := Pool(members.value)];
      var tenant := rlts[ns]["serviceMain" := pools];
      assert tenant.Keys == {"serviceMain"};
      assert tenant == map["serviceMain" := pools];
      rlts := rlts[ns := tenant];
      assert rlts == before[ns := tenant];
    }
    assert keys[..|keys|] == keys;
    r := Some(rlts);
  }

  method ParseMembersFrom(sigs: SIGCache, ns: string, name: string) returns (members: Option<seq<(int, string)>>)
    ensures members == Members(sigs.View(), ns, name)
  {
    var k := Key(ns, name);
    if k in sigs.services && k in sigs.endpoints {
      return sigs.endpoints[k].members;
    }
    return Some([]);
  }

  lemma {:induction false} ServicePoolsStayNone(s: Snapshot, keys: seq<string>, n: nat)
    requires n <= |keys| && forall k :: k in keys ==> IsKey(k)
    requires ServicePools(s, keys[..n]).None?
    ensures ServicePools(s, keys).None?
    decreases |keys| - n
  {
    if n == |keys| {
      assert keys[..n] == keys;
    } else {
      assert keys[..n + 1][..n] == keys[..n];
      ServicePoolsStayNone(s, keys, n + 1);
    }
  }

  /******* What the pools are *******/

  // Key of a namespaced object.
  predicate PlainKey(key: string) {
    IsKey(key) && key == Key(KeyNs(key), KeyName(key))
  }

  // ParseServices fails if and only if some service's members cannot be made.
  lemma {:induction false} ServicePoolsFail(s: Snapshot, keys: seq<string>)
    requires forall k :: k in keys ==> IsKey(k)
    ensures ServicePools(s, keys).None? <==> exists k :: k in keys && Members(s, KeyNs(k), KeyName(k)).None?
  {
    if keys != [] {
      var init, key := keys[..|keys| - 1], keys[|keys| - 1];
      assert keys == init + [key];
      assert key in keys;
      ServicePoolsFail(s, init);
    }
  }

  // It makes a tenant for each namespace of a key and no other,
  lemma {:induction false} ServicePoolsTenants(s: Snapshot, keys: seq<string>)
    requires (forall k :: k in keys ==> IsKey(k)) && ServicePools(s, keys).Some?
    ensures ServicePools(s, keys).value.Keys == set k | k in keys :: KeyNs(k)
  {
    if keys != [] {
      var init, key := keys[..|keys| - 1], keys[|keys| - 1];
      assert keys == init + [key];
      ServicePoolsTenants(s, init);
    }
  }

  lemma PoolKeyInjective(a: string, b: string)
    requires PoolKey(a) == PoolKey(b)
    ensures a == b
  {
    assert PoolKey(a)[9..] == a && PoolKey(b)[9..] == b;
  }

  lemma PoolPut(before: map<string, Config>, ns: string, name: string, pool: Resource, ns2: string, name2: string)
    ensures var after := before[ns := map["serviceMain" := PoolsIn(before, ns)[PoolKey(name) := pool]]];
      Lookup(PoolsIn(after, ns2), PoolKey(name2))
      == if ns == ns2 && name == name2 then Some(pool) else Lookup(PoolsIn(before, ns2), PoolKey(name2))
  {
    if PoolKey(name) == PoolKey(name2) { PoolKeyInjective(name, name2); }
  }

  // and in it exactly one pool for each service of a key, with the service's members.
  lemma {:induction false} ServicePoolsExact(s: Snapshot, keys: seq<string>, ns: string, name: string)
    requires (forall k :: k in keys ==> IsKey(k) && PlainKey(k)) && ServicePools(s, keys).Some?
    requires '/' !in ns && '/' !in name
    ensures var found := Lookup(PoolsIn(ServicePools(s, keys).value, ns), PoolKey(name));
      && (found.Some? <==> Key(ns, name) in keys)
      && (found.Some? ==> found.value.Pool? && Members(s, ns, name) == Some(found.value.members))
  {
    if keys != [] {
      var init, key := keys[..|keys| - 1], keys[|keys| - 1];
      assert keys == init + [key];
      assert key in keys;
      ServicePoolsExact(s, init, ns, name);
      var before, pool := ServicePools(s, init).value, Pool(Members(s, KeyNs(key), KeyName(key)).value);
      PoolPut(before, KeyNs(key), KeyName(key), pool, ns, name);
      assert key == Key(ns, name) <==> KeyNs(key) == ns && KeyName(key) == name by { KeyParts(ns, name); }
    }
  }

  lemma ServiceKeyPlain(svc: Service)
    requires LabelName(svc.ns) && ObjectName(svc.name)
    ensures PlainKey(ServiceKey(svc)) && KeyNs(ServiceKey(svc)) == svc.ns && KeyName(ServiceKey(svc)) == svc.name
  {
    KeyParts(svc.ns, svc.name);
  }

  /******* The services of classes *******/

  // The keys ParseClassRelatedServices hands on.
  function RelatedKeys(s: Snapshot, classes: set<string>): set<string> {
    set c, svc | c in classes && c in s.classes && svc in RelatedServices(s, c) :: ServiceKey(svc)
  }

  method RelatedKeysOf(sigs: SIGCache, classes: seq<string>) returns (keys: seq<string>)
    requires sigs.Valid()
    ensures Elems(keys) == RelatedKeys(sigs.View(), Elems(classes))
  {
    keys := [];
    ghost var s := sigs.View();
    for i := 0 to |classes|
      invariant Elems(keys) == RelatedKeys(s, Elems(classes[..i]))
    {
      assert Elems(classes[..i + 1]) == Elems(classes[..i]) + {classes[i]} by {
        assert classes[..i + 1] == classes[..i] + [classes[i]];
      }
      if classes[i] in sigs.classes {
        var svcs := sigs.RelatedServicesOf(classes[i]);
        var more := KeysOf(svcs);
        assert Elems(keys + more) == Elems(keys) + Elems(more);
        keys := keys + more;
        assert Elems(more) == set svc | svc in RelatedServices(s, classes[i]) :: ServiceKey(svc);
      }
    }
    assert classes[..|classes|] == classes;
  }

  function KeysOf(svcs: seq<Service>): (keys: seq<string>)
    ensures Elems(keys) == set svc | svc in Elems(svcs) :: ServiceKey(svc)
  {
    if svcs == [] then []
    else
      var init, last := svcs[..|svcs| - 1], svcs[|svcs| - 1];
      var keys := KeysOf(init);
      assert svcs == init + [last];
      assert Elems(svcs) == Elems(init) + {last};
      assert Elems(keys + [ServiceKey(last)]) == Elems(keys) + {ServiceKey(last)};
      keys + [ServiceKey(last)]
  }
}
