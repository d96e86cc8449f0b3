/** Expanding pool weights into the slots a request is dealt to at random. */
module Pools {
  import opened Common
  import opened Names
  import opened Objects
  import opened Snapshots
  import opened IRules

  // Tcl's `array set`: of two values for one name the later stays.
  function ArrayOf(weights: Weights): map<string, int> {
    if weights == [] then map[]
    else ArrayOf(weights[..|weights| - 1])[weights[|weights| - 1].0 := weights[|weights| - 1].1]
  }

  // A loop up to a negative weight does nothing.
  function Share(w: map<string, int>, pool: string): nat {
    if pool in w && w[pool] > 0 then w[pool] else 0
  }

  ghost function TotalShare(w: map<string, int>): nat {
    if w == map[] then 0
    else
      var p :| p in w;
      Share(w, p) + TotalShare(w - {p})
  }

  lemma {:induction false} TotalShareRemove(w: map<string, int>, p: string)
    requires p in w
    ensures TotalShare(w) == Share(w, p) + TotalShare(w - {p})
    decreases |w|
  {
    var q :| q in w && TotalShare(w) == Share(w, q) + TotalShare(w - {q});
    if q != p {
      TotalShareRemove(w - {q}, p);
      TotalShareRemove(w - {p}, q);
      assert w - {q} - {p} == w - {p} - {q};
      assert Share(w - {q}, p) == Share(w, p) && Share(w - {p}, q) == Share(w, q);
    }
  }

  // The slots are numbered from 0 without a gap, and hold xs in order.
  ghost predicate Holds(slots: map<int, string>, xs: seq<string>) {
    && (forall i :: i in slots <==> 0 <= i < |xs|)
    && (forall i :: 0 <= i < |xs| ==> slots[i] == xs[i])
  }

  function Below(n: nat): (r: set<int>)
    ensures |r| == n && forall i :: i in r <==> 0 <= i < n
  {
    if n == 0 then {} else Below(n - 1) + {n - 1}
  }

  lemma SlotCount(slots: map<int, string>, n: nat)
    requires forall i :: i in slots <==> 0 <= i < n
    ensures |slots| == n
  {
    assert slots.Keys == Below(n);
  }

  // Each pool fills as many slots as its weight, and nothing else fills any.
  ghost predicate Dealt(w: map<string, int>, slots: map<int, string>) {
    exists xs :: Holds(slots, xs) && forall p :: multiset(xs)[p] == Share(w, p)
  }

  // xs has the slots of all pools but those left.
  ghost predicate Drawn(w: map<string, int>, left: map<string, int>, xs: seq<string>) {
    && (forall p :: p in left ==> p in w && left[p] == w[p])
    && (forall p :: multiset(xs)[p] == if p in left then 0 else Share(w, p))
    && |xs| + TotalShare(left) == TotalShare(w)
  }

  lemma DrawnStep(w: map<string, int>, left: map<string, int>, xs: seq<string>, name: string, ys: seq<string>)
    requires Drawn(w, left, xs) && name in left
    requires |ys| == |xs| + Share(w, name)
    requires forall p :: multiset(ys)[p] == multiset(xs)[p] + (if p == name then Share(w, name) else 0)
    ensures Drawn(w, left - {name}, ys)
  {
    TotalShareRemove(left, name);
  }

  method InitPools(weights: Weights) returns (slots: map<int, string>, size: nat)
    ensures Dealt(ArrayOf(weights), slots)
    ensures size == |slots| == TotalShare(ArrayOf(weights))
  {
    var w := ArrayOf(weights);
    slots := map[];
    var index := 0;
    ghost var xs: seq<string> := [];
    var left := w;
    while left != map[]
      invariant index == |xs| && Holds(slots, xs)
      invariant Drawn(w, left, xs)
      decreases |left|
    {
      var name :| name in left;
      ghost var before := xs;
      slots, index, xs := FillSlots(slots, index, xs, name, w[name]);
      DrawnStep(w, left, before, name, xs);
      left := left - {name};
    }
    SlotCount(slots, |xs|);
    size := |slots|;
  }

  // The loop that gives one pool its slots.
  method FillSlots(slots0: map<int, string>, index0: nat, ghost xs0: seq<string>, name: string, weight: int)
    returns (slots: map<int, string>, index: nat, ghost xs: seq<string>)
    requires index0 == |xs0| && Holds(slots0, xs0)
    ensures index == |xs| && Holds(slots, xs)
    ensures |xs| == |xs0| + (if weight > 0 then weight else 0)
    ensures forall p :: multiset(xs)[p] == multiset(xs0)[p] + (if p == name && weight > 0 then weight else 0)
  {
    slots, index, xs := slots0, index0, xs0;
    var i := 0;
    while i < weight
      invariant 0 <= i && (i <= weight || i == 0) && index == |xs| && Holds(slots, xs)
      invariant |xs| == |xs0| + i
      invariant forall p :: multiset(xs)[p] == multiset(xs0)[p] + (if p == name then i else 0)
    {
      slots := slots[index := name];
      index := index + 1;
      i := i + 1;
      xs := xs + [name];
    }
  }

  /******* From backend references to slots *******/

  predicate CleanBackends(hr: HTTPRoute, brs: seq<BackendRef>) {
    forall br :: br in brs ==> LabelName(BackendNs(hr, br)) && ObjectName(br.name)
  }

  // The weight of the last backend reference to this service, 1 if it gives none.
  function LastWeight(hr: HTTPRoute, brs: seq<BackendRef>, ns: string, name: string): Option<int> {
    if brs == [] then None
    else
      var br := brs[|brs| - 1];
      if BackendNs(hr, br) == ns && br.name == name then Some(GetOr(br.weight, 1))
      else LastWeight(hr, brs[..|brs| - 1], ns, name)
  }

  predicate ServiceForbidden(s: Snapshot, hr: HTTPRoute, ns: string, name: string) {
    Forbidden(s, hr, BackendRef(Some(ns), name, None))
  }

  lemma PoolNameInjective(ns: string, name: string, ns2: string, name2: string)
    requires LabelName(ns) && LabelName(ns2) && PoolName(ns, name) == PoolName(ns2, name2)
    ensures ns == ns2 && name == name2
  {
    SlashInjective("", Slash(ns, Slash("serviceMain", name)), "", Slash(ns2, Slash("serviceMain", name2)));
    SlashInjective(ns, Slash("serviceMain", name), ns2, Slash("serviceMain", name2));
    SlashInjective("serviceMain", name, "serviceMain", name2);
  }

  // A service's pool has the weight of its last backend reference, unless the route may not refer
  // to it: then it has none, however often it is listed. No other pool has a weight.
  lemma {:induction false} PoolWeightIs(s: Snapshot, hr: HTTPRoute, brs: seq<BackendRef>, ns: string, name: string)
    requires CleanBackends(hr, brs) && LabelName(ns) && ObjectName(name)
    ensures Lookup(ArrayOf(PoolWeights(s, hr, brs)), PoolName(ns, name))
         == if ServiceForbidden(s, hr, ns, name) then None else LastWeight(hr, brs, ns, name)
  {
    if brs != [] {
      var init, br := brs[..|brs| - 1], brs[|brs| - 1];
      assert brs == init + [br];
      PoolWeightIs(s, hr, init, ns, name);
      assert BackendNs(hr, br) == ns && br.name == name ==>
        (Forbidden(s, hr, br) <==> ServiceForbidden(s, hr, ns, name));
      var weights := PoolWeights(s, hr, brs);
      if Forbidden(s, hr, br) {
        assert weights == PoolWeights(s, hr, init);
      } else {
        var last := (PoolName(BackendNs(hr, br), br.name), GetOr(br.weight, 1));
        assert weights == PoolWeights(s, hr, init) + [last];
        assert weights[..|weights| - 1] == PoolWeights(s, hr, init);
        if last.0 == PoolName(ns, name) {
          PoolNameInjective(BackendNs(hr, br), br.name, ns, name);
        }
      }
    }
  }

  lemma {:induction false} PoolWeightsOnlyNamed(s: Snapshot, hr: HTTPRoute, brs: seq<BackendRef>, pool: string)
    requires pool in ArrayOf(PoolWeights(s, hr, brs))
    ensures exists br :: br in brs && pool == PoolName(BackendNs(hr, br), br.name)
  {
    var init, br := brs[..|brs| - 1], brs[|brs| - 1];
    assert brs == init + [br];
    var weights := PoolWeights(s, hr, brs);
    if Forbidden(s, hr, br) {
      assert weights == PoolWeights(s, hr, init);
    } else {
      assert weights[..|weights| - 1] == PoolWeights(s, hr, init);
    }
    if pool in ArrayOf(PoolWeights(s, hr, init)) {
      PoolWeightsOnlyNamed(s, hr, init, pool);
    }
  }

  // The slots of one rule: every listed service gets exactly its last weight in slots, a
  // forbidden one none.
  lemma SlotsOfRule(s: Snapshot, hr: HTTPRoute, brs: seq<BackendRef>, xs: seq<string>, br: BackendRef)
    requires CleanBackends(hr, brs) && br in brs
    requires forall p :: multiset(xs)[p] == Share(ArrayOf(PoolWeights(s, hr, brs)), p)
    ensures var pool := PoolName(BackendNs(hr, br), br.name);
      var weight := LastWeight(hr, brs, BackendNs(hr, br), br.name);
      && weight.Some?
      && multiset(xs)[pool] == if Forbidden(s, hr, br) || weight.value < 0 then 0 else weight.value
  {
    PoolWeightIs(s, hr, brs, BackendNs(hr, br), br.name);
    LastWeightFound(hr, brs, br);
  }

  lemma {:induction false} LastWeightFound(hr: HTTPRoute, brs: seq<BackendRef>, br: BackendRef)
    requires br in brs
    ensures LastWeight(hr, brs, BackendNs(hr, br), br.name).Some?
  {
    var init, last := brs[..|brs| - 1], brs[|brs| - 1];
    assert brs == init + [last];
    if br in init {
      LastWeightFound(hr, init, br);
    }
  }
}
