/** The admission webhooks: the scan of reference grants, and the check of a route's parents. */
module Webhooks {
  import opened Common
  import opened Names
  import opened Objects
  import opened GrantIndex
  import opened Snapshots

  /******* Scanning the grants *******/

  predicate ListsBoth(rg: ReferenceGrant, f: GrantFrom, t: GrantTo) { f in rg.from && t in rg.to }

  predicate ScanExists(rgs: seq<ReferenceGrant>, f: GrantFrom, t: GrantTo) {
    exists rg :: rg in rgs && ListsBoth(rg, f, t)
  }

  // canRefer of the webhooks
  predicate ScanCanRefer(rgs: seq<ReferenceGrant>, from: ObjectId, to: ObjectId) {
    || from.ns == to.ns
    || (&& from.group == GATEWAY_GROUP
        && var f := GrantFrom(from.group, from.kind, from.ns);
           ScanExists(rgs, f, GrantTo(to.group, to.kind, Some(to.name))) ||
             ScanExists(rgs, f, GrantTo(to.group, to.kind, None)))
  }

  method RgExists(rgs: seq<ReferenceGrant>, rgf: GrantFrom, rgt: GrantTo) returns (found: bool)
    ensures found == ScanExists(rgs, rgf, rgt)
  {
    for i := 0 to |rgs|
      invariant forall j :: 0 <= j < i ==> !ListsBoth(rgs[j], rgf, rgt)
    {
      var rg := rgs[i];
      var f, t := false, false;
      var j := 0;
      while j < |rg.from| && !f
        invariant 0 <= j <= |rg.from|
        invariant f <==> rgf in rg.from[..j]
      {
        f := rg.from[j] == rgf;
        j := j + 1;
      }
      var l := 0;
      while l < |rg.to| && !t
        invariant 0 <= l <= |rg.to|
        invariant t <==> rgt in rg.to[..l]
      {
        t := rg.to[l] == rgt;
        l := l + 1;
      }
      if f && t {
        assert ListsBoth(rg, rgf, rgt);
        return true;
      }
    }
    return false;
  }

  lemma {:induction false} TotalPositive(grants: Grants, f: string, t: string)
    ensures Total(grants, f, t) > 0 <==> exists k :: k in grants && Occurrences(grants[k], f, t) > 0
    decreases |grants|
  {
    if grants != map[] {
      var k :| k in grants && Total(grants, f, t) == Occurrences(grants[k], f, t) + Total(grants - {k}, f, t);
      var rest := grants - {k};
      TotalPositive(rest, f, t);
      if j :| j in grants && Occurrences(grants[j], f, t) > 0 {
        TotalRemove(grants, j, f, t);
      }
      if j :| j in rest && Occurrences(rest[j], f, t) > 0 {
        assert grants[j] == rest[j];
      }
    }
  }

  // A clean grant contributes to a pair of keys exactly if it lists the entries they were made of
  // and is in the target's namespace.
  lemma OccursIff(rg: ReferenceGrant, f: GrantFrom, t: GrantTo, ns: string)
    requires CleanGrant(rg) && CleanFrom(f) && CleanTo(t) && CleanPart(ns)
    ensures Occurrences(rg, FromKey(f), ToKey(t, ns)) > 0 <==> f in rg.from && t in rg.to && (rg.ns == ns)
  {
    var froms, tos := FromKeys(rg.from), ToKeys(rg.to, rg.ns);
    PairsPositive(froms, tos, FromKey(f), ToKey(t, ns));
    if FromKey(f) in froms {
      var i :| 0 <= i < |froms| && froms[i] == FromKey(f);
      FromKeyInjective(rg.from[i], f);
    }
    if f in rg.from {
      var i :| 0 <= i < |rg.from| && rg.from[i] == f;
      assert froms[i] == FromKey(f);
    }
    if ToKey(t, ns) in tos {
      var i :| 0 <= i < |tos| && tos[i] == ToKey(t, ns);
      ToKeyInjective(rg.to[i], rg.ns, t, ns);
    }
    if t in rg.to && rg.ns == ns {
      var i :| 0 <= i < |rg.to| && rg.to[i] == t;
      assert tos[i] == ToKey(t, ns);
    }
  }

  ghost predicate CleanGrants(grants: Grants) { forall k :: k in grants ==> CleanGrant(grants[k]) }

  // rgs lists the stored grants of the namespace.
  ghost predicate ListsNamespace(rgs: seq<ReferenceGrant>, grants: Grants, ns: string) {
    forall rg :: rg in rgs <==> exists k :: k in grants && grants[k] == rg && rg.ns == ns
  }

  lemma IndexFinds(idx: Index, grants: Grants, rgs: seq<ReferenceGrant>, f: GrantFrom, t: GrantTo, ns: string)
    requires Exact(idx, grants) && CleanGrants(grants) && ListsNamespace(rgs, grants, ns)
    requires CleanFrom(f) && CleanTo(t) && CleanPart(ns)
    ensures Exists(idx, FromKey(f), ToKey(t, ns)) <==> ScanExists(rgs, f, t)
  {
    var fk, tk := FromKey(f), ToKey(t, ns);
    assert Exists(idx, fk, tk) <==> Entry(idx, fk, tk) > 0;
    TotalPositive(grants, fk, tk);
    forall k | k in grants
      ensures Occurrences(grants[k], fk, tk) > 0 <==> ListsBoth(grants[k], f, t) && grants[k].ns == ns
    {
      OccursIff(grants[k], f, t, ns);
    }
    if ScanExists(rgs, f, t) {
      var rg :| rg in rgs && ListsBoth(rg, f, t);
      var k :| k in grants && grants[k] == rg && rg.ns == ns;
    }
    if k :| k in grants && Occurrences(grants[k], fk, tk) > 0 {
      assert grants[k] in rgs;
    }
  }

  // The controller's answer from the index is the webhook's from the grants of the target's
  // namespace.
  lemma IndexAgreesWithScan(idx: Index, grants: Grants, rgs: seq<ReferenceGrant>, from: ObjectId, to: ObjectId)
    requires Exact(idx, grants) && CleanGrants(grants) && ListsNamespace(rgs, grants, to.ns)
    requires CleanId(from) && CleanId(to)
    ensures CanRefer(idx, from, to) <==> ScanCanRefer(rgs, from, to)
  {
    var f := GrantFrom(from.group, from.kind, from.ns);
    IndexFinds(idx, grants, rgs, f, GrantTo(to.group, to.kind, Some(to.name)), to.ns);
    IndexFinds(idx, grants, rgs, f, GrantTo(to.group, to.kind, None), to.ns);
  }

  // The webhook scans the grants of all namespaces. What the controller allows, it admits.
  lemma ControllerImpliesWebhook(idx: Index, grants: Grants, all: seq<ReferenceGrant>, rgs: seq<ReferenceGrant>,
                                 from: ObjectId, to: ObjectId)
    requires Exact(idx, grants) && CleanGrants(grants) && ListsNamespace(rgs, grants, to.ns)
    requires CleanId(from) && CleanId(to) && forall k :: k in grants ==> grants[k] in all
    ensures CanRefer(idx, from, to) ==> ScanCanRefer(all, from, to)
  {
    IndexAgreesWithScan(idx, grants, rgs, from, to);
    forall rg | rg in rgs ensures rg in all {
      var k :| k in grants && grants[k] == rg && rg.ns == to.ns;
    }
  }

  ghost predicate ListsAll(rgs: seq<ReferenceGrant>, grants: Grants) {
    forall rg :: rg in rgs <==> exists k :: k in grants && grants[k] == rg
  }

  function InNamespace(rgs: seq<ReferenceGrant>, ns: string): (r: seq<ReferenceGrant>)
    ensures forall rg :: rg in r <==> rg in rgs && rg.ns == ns
  {
    if rgs == [] then []
    else
      var init, last := rgs[..|rgs| - 1], rgs[|rgs| - 1];
      assert rgs == init + [last];
      InNamespace(init, ns) + (if last.ns == ns then [last] else [])
  }

  // The grant lists a reference from the one object to the other, or to all of its kind.
  predicate ListsReference(rg: ReferenceGrant, from: ObjectId, to: ObjectId) {
    var f := GrantFrom(from.group, from.kind, from.ns);
    ListsBoth(rg, f, GrantTo(to.group, to.kind, Some(to.name))) || ListsBoth(rg, f, GrantTo(to.group, to.kind, None))
  }

  predicate Granted(rgs: seq<ReferenceGrant>, from: ObjectId, to: ObjectId) {
    exists rg :: rg in rgs && ListsReference(rg, from, to)
  }

  lemma ScanIs(rgs: seq<ReferenceGrant>, from: ObjectId, to: ObjectId)
    ensures ScanCanRefer(rgs, from, to) <==> from.ns == to.ns || (from.group == GATEWAY_GROUP && Granted(rgs, from, to))
  {
  }

  // The two agree on a reference if and only if it stays in its namespace, comes from another
  // group, or is granted nowhere or in the target's namespace.
  lemma WebhookAgreesIff(idx: Index, grants: Grants, all: seq<ReferenceGrant>, from: ObjectId, to: ObjectId)
    requires Exact(idx, grants) && CleanGrants(grants) && ListsAll(all, grants) && CleanId(from) && CleanId(to)
    ensures (CanRefer(idx, from, to) <==> ScanCanRefer(all, from, to)) <==>
      (from.ns != to.ns && from.group == GATEWAY_GROUP && Granted(all, from, to) ==>
        Granted(InNamespace(all, to.ns), from, to))
  {
    var rgs := InNamespace(all, to.ns);
    assert ListsNamespace(rgs, grants, to.ns);
    IndexAgreesWithScan(idx, grants, rgs, from, to);
    ScanIs(all, from, to);
    ScanIs(rgs, from, to);
  }

  // Such a reference exists: one granted only in a namespace that is not the target's.
  lemma WebhookAdmitsMore(rg: ReferenceGrant, to: ObjectId, from: ObjectId)
    requires from.ns != to.ns && from.group == GATEWAY_GROUP && CleanId(from) && CleanId(to)
    requires CleanGrant(rg) && rg.ns != to.ns
    requires rg.from == [GrantFrom(from.group, from.kind, from.ns)] && rg.to == [GrantTo(to.group, to.kind, None)]
    ensures ScanCanRefer([rg], from, to)
    ensures !CanRefer(AddGrant(map[], rg), from, to)
  {
    assert rg in [rg] && ListsBoth(rg, rg.from[0], rg.to[0]);
    var k := Key(rg.ns, rg.name);
    var none: Grants := map[];
    var grants := none[k := rg];
    forall f, t
      ensures Total(grants, f, t) == Occurrences(rg, f, t) && Total(grants, f, t) <= 1
    {
      TotalPut(none, k, rg, f, t);
      assert none - {k} == map[];
      var froms, tos := FromKeys(rg.from), ToKeys(rg.to, rg.ns);
      assert froms[1..] == [] && Pairs(froms[1..], tos, f, t) == 0;
      assert tos == [tos[0]] && multiset(tos) == multiset{tos[0]};
    }
    assert Exact(map[], none);
    PutExact(map[], none, rg);
    IndexAgreesWithScan(AddGrant(map[], rg), grants, [], from, to);
  }

  /******* A route's parents *******/

  predicate GatewayTyped(pr: ParentRef) {
    GetOr(pr.group, GATEWAY_GROUP) == GATEWAY_GROUP && GetOr(pr.kind, "Gateway") == "Gateway"
  }

  // Every listener the parentRef names lets the route in; there may be none.
  predicate ParentAdmitted(s: Snapshot, hr: HTTPRoute, pr: ParentRef) {
    && pr.section.Some?
    && GatewayTyped(pr)
    && ParentKey(hr, pr) in s.gateways
    && var gw := s.gateways[ParentKey(hr, pr)];
       forall ls :: ls in gw.listeners && ls.name == pr.section.value ==>
         RouteMatches(gw.ns, Some(ls), Lookup(s.namespaces, hr.ns), "HTTPRoute")
  }

  // fmtInvalids: nil if the joined messages are empty.
  method FmtInvalids(a: seq<string>, b: seq<seq<string>>) returns (err: Option<string>)
    ensures err.None? <==> Join(a + Flat(b), ';') == ""
    ensures err.Some? ==> err.value == Join(a + Flat(b), ';')
  {
    var invalids := a;
    for i := 0 to |b|
      invariant invalids == a + Flat(b[..i])
    {
      assert b[..i + 1][..i] == b[..i];
      assert a + Flat(b[..i]) + b[i] == a + (Flat(b[..i]) + b[i]);
      invalids := invalids + b[i];
    }
    assert b[..|b|] == b;
    var msg := Join(invalids, ';');
    err := if msg != "" then Some(msg) else None;
  }

  function Flat(b: seq<seq<string>>): seq<string> {
    if b == [] then [] else Flat(b[..|b| - 1]) + b[|b| - 1]
  }

  // A lone empty message would be taken for no error.
  lemma JoinEmptyIff(messages: seq<string>)
    ensures Join(messages, ';') == "" <==> messages == [] || messages == [""]
  {
    if |messages| > 1 {
      assert |Join(messages, ';')| >= 1;
    }
  }

  method ValidateHTTPRouteParentRefs(s: Snapshot, hr: HTTPRoute) returns (err: Option<string>)
    ensures err.None? <==> forall pr :: pr in hr.parentRefs ==> ParentAdmitted(s, hr, pr)
  {
    var invalidRefs, invalidTypes: seq<string> := [], [];
    for i := 0 to |hr.parentRefs|
      invariant forall m :: m in invalidRefs || m in invalidTypes ==> m != ""
      invariant invalidRefs == [] && invalidTypes == [] <==> forall j :: 0 <= j < i ==>
        ParentAdmitted(s, hr, hr.parentRefs[j])
    {
      var pr := hr.parentRefs[i];
      var gwkey := ParentKey(hr, pr);
      if pr.section.None? {
        invalidRefs := invalidRefs + ["sectionName not set for '" + gwkey + "'"];
      } else if !GatewayTyped(pr) {
        invalidTypes := invalidTypes + ["not Gateway type: '" + Slash(GetOr(pr.group, GATEWAY_GROUP),
          GetOr(pr.kind, "Gateway")) + "'"];
      } else if gwkey !in s.gateways {
        invalidRefs := invalidRefs + ["no gateway '" + gwkey + "' found"];
      } else {
        var more := InvalidListeners(s, hr, pr, s.gateways[gwkey]);
        invalidRefs := invalidRefs + more;
      }
    }
    err := FmtInvalids(invalidRefs, [invalidTypes]);
    assert Flat([invalidTypes]) == Flat([invalidTypes][..0]) + invalidTypes == invalidTypes;
    assert "" !in invalidRefs + invalidTypes;
    JoinEmptyIff(invalidRefs + invalidTypes);
  }

  // The loop over the listeners of one parent.
  method InvalidListeners(s: Snapshot, hr: HTTPRoute, pr: ParentRef, gw: Gateway) returns (invalid: seq<string>)
    requires pr.section.Some?
    ensures forall m :: m in invalid ==> m != ""
    ensures invalid == [] <==> forall ls :: ls in gw.listeners && ls.name == pr.section.value ==>
      RouteMatches(gw.ns, Some(ls), Lookup(s.namespaces, hr.ns), "HTTPRoute")
  {
    invalid := [];
    for j := 0 to |gw.listeners|
      invariant forall m :: m in invalid ==> m != ""
      invariant invalid == [] <==> forall l :: 0 <= l < j && gw.listeners[l].name == pr.section.value ==>
        RouteMatches(gw.ns, Some(gw.listeners[l]), Lookup(s.namespaces, hr.ns), "HTTPRoute")
    {
      var ls := gw.listeners[j];
      if ls.name == pr.section.value {
        var matched := MatchRoute(gw.ns, Some(ls), Lookup(s.namespaces, hr.ns), "HTTPRoute");
        if !matched {
          invalid := invalid + ["invalid reference to " + Slash(gw.ns, Slash(gw.name, ls.name))];
        }
      }
    }
  }

  // The section is the name of some listener of the parent.
  predicate SectionExists(s: Snapshot, hr: HTTPRoute, pr: ParentRef) {
    && ParentKey(hr, pr) in s.gateways
    && exists ls :: ls in s.gateways[ParentKey(hr, pr)].listeners && pr.section == Some(ls.name)
  }

  function ParentsOf(s: Snapshot, hr: HTTPRoute, prs: seq<ParentRef>): seq<Gateway>
    requires forall pr :: pr in prs ==> ParentKey(hr, pr) in s.gateways
  {
    if prs == [] then [] else ParentsOf(s, hr, prs[..|prs| - 1]) + [s.gateways[ParentKey(hr, prs[|prs| - 1])]]
  }

  // An admitted route is attached to all its parents, one gateway per parentRef and in order, if
  // and only if every section is the name of a listener; the webhook does not check that.
  lemma {:induction false} AdmittedIsAttachedIff(s: Snapshot, hr: HTTPRoute, prs: seq<ParentRef>)
    requires forall pr :: pr in prs ==> ParentKey(hr, pr) in s.gateways && ParentAdmitted(s, hr, pr)
    ensures RefsOf(s, hr, prs) == ParentsOf(s, hr, prs) <==> forall pr :: pr in prs ==> SectionExists(s, hr, pr)
    ensures |RefsOf(s, hr, prs)| <= |prs| == |ParentsOf(s, hr, prs)|
  {
    if prs != [] {
      var init, pr := prs[..|prs| - 1], prs[|prs| - 1];
      assert prs == init + [pr];
      assert pr in prs;
      AdmittedIsAttachedIff(s, hr, init);
      var gw := s.gateways[ParentKey(hr, pr)];
      assert Admits(s, gw, hr, pr) <==> SectionExists(s, hr, pr);
      var a, b := RefsOf(s, hr, init), ParentsOf(s, hr, init);
      if SectionExists(s, hr, pr) {
        assert (a + [gw])[..|a|] == a && (b + [gw])[..|b|] == b;
      }
    }
  }
}
