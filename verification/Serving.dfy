/** What a class's tenant serves, said in terms of the stored gateways, routes and grants: which
    virtuals there are, which routes' iRules they run, and how much of the traffic each pool gets. */
module Serving {
  import opened Common
  import opened Names
  import opened Objects
  import opened Snapshots
  import opened Attachment
  import opened ServiceUse
  import opened IRules
  import Pools
  import opened Rendering
  import opened RenderExact
  import opened AS3
  import opened Declarations
  import opened Convergence

  /******* Which iRules a virtual runs *******/

  // How many of the parentRefs name this listener of the gateway.
  function TimesNamed(hr: HTTPRoute, prs: seq<ParentRef>, gw: Gateway, ls: Listener): nat {
    if prs == [] then 0
    else
      var pr := prs[|prs| - 1];
      TimesNamed(hr, prs[..|prs| - 1], gw, ls) +
      (if NamesGateway(hr, pr, gw) && pr.section == Some(ls.name) then 1 else 0)
  }

  // As often as the route names the listener, if that lets it in, and else not at all.
  function TimesRun(s: Snapshot, hr: HTTPRoute, gw: Gateway, ls: Listener): nat {
    if Lets(s, gw, ls, hr.ns) then TimesNamed(hr, hr.parentRefs, gw, ls) else 0
  }

  lemma {:induction false} NamedIff(hr: HTTPRoute, prs: seq<ParentRef>, gw: Gateway, ls: Listener)
    ensures TimesNamed(hr, prs, gw, ls) > 0 <==>
      exists pr :: pr in prs && NamesGateway(hr, pr, gw) && pr.section == Some(ls.name)
  {
    if prs != [] {
      NamedIff(hr, prs[..|prs| - 1], gw, ls);
      assert prs == prs[..|prs| - 1] + [prs[|prs| - 1]];
    }
  }

  lemma {:induction false} TargetingIs(s: Snapshot, gw: Gateway, hr: HTTPRoute, prs: seq<ParentRef>, ls: Listener)
    requires WellFormed(s) && CleanGateway(gw) && CleanRoute(hr) && forall pr :: pr in prs ==> pr in hr.parentRefs
    requires hr in AttachedRoutes(s, gw)
    ensures Targeting(GatewayInputsOf(s, gw), hr, prs, ls) ==
      if Lets(s, gw, ls, hr.ns) then TimesNamed(hr, prs, gw, ls) else 0
  {
    if prs != [] {
      var pr := prs[|prs| - 1];
      TargetingIs(s, gw, hr, prs[..|prs| - 1], ls);
      ParentIs(hr, pr, gw);
      LetsIs(s, gw, ls, hr.ns);
      assert NamespaceFor(GatewayInputsOf(s, gw), hr) == Lookup(s.namespaces, hr.ns);
    }
  }

  // The exact iRules of a virtual hold each stored route just so many times.
  lemma RunTimes(s: Snapshot, gw: Gateway, ls: Listener, names: seq<string>, hr: HTTPRoute)
    requires WellFormed(s) && Stored(s, gw) && UniqueListeners(gw) && ls in gw.listeners
    requires ExactIRules(GatewayInputsOf(s, gw), ls, names) && Lookup(s.routes, RouteKey(hr)) == Some(hr)
    ensures multiset(names)[HrName(hr.ns, hr.name)] == TimesRun(s, hr, gw, ls)
  {
    var n := HrName(hr.ns, hr.name);
    AttachesIff(s, gw, hr);
    if hr in AttachedRoutes(s, gw) {
      TargetingIs(s, gw, hr, hr.parentRefs, ls);
    } else {
      NamedIff(hr, hr.parentRefs, gw, ls);
      if n in names {
        assert n[0] == 'h' && NameOfListener(gw, ls)[0] == 'g';
        var r :| r in AttachedRoutes(s, gw) && n == HrName(r.ns, r.name);
        HrNameInjective(hr.ns, hr.name, r.ns, r.name);
        assert false;
      }
    }
  }

  /******* What a tenant serves *******/

  // A stored gateway of the class, which is known and this controller's.
  predicate OwnGateway(s: Snapshot, className: string, k: string) {
    && className in s.classes && s.classes[className].controllerName == s.controllerName
    && k in s.gateways && s.gateways[k].className == className
  }

  // The tenant has the route's iRule, with the program compiled from the route.
  predicate RuleServed(s: Snapshot, hr: HTTPRoute, e: Entry) {
    var n := HrName(hr.ns, hr.name);
    Holds(e, n) && RouteProgram(s, hr).Some? && ContentOf(e, n) == RouteRule(RouteProgram(s, hr).value)
  }

  // The tenant has the virtual of the listener and address. It runs the iRule of each stored route
  // as often as the route names the listener, and the tenant has the iRules that run.
  ghost predicate ServedAt(s: Snapshot, gw: Gateway, ls: Listener, i: nat, e: Entry)
    requires i < |gw.addresses|
  {
    var n := VirtualName(NameOfListener(gw, ls), i);
    && Holds(e, n)
    && VirtualFor(gw, gw.addresses[i], ls, ContentOf(e, n))
    && forall r :: r in s.routes ==> var hr := s.routes[r];
      && multiset(ContentOf(e, n).iRules)[HrName(hr.ns, hr.name)] == TimesRun(s, hr, gw, ls)
      && (TimesRun(s, hr, gw, ls) > 0 ==> RuleServed(s, hr, e))
  }

  ghost predicate Serves(s: Snapshot, className: string, e: Entry) {
    forall k, ls, i: nat ::
      OwnGateway(s, className, k) && ls in s.gateways[k].listeners && i < |s.gateways[k].addresses| ==>
        ServedAt(s, s.gateways[k], ls, i, e)
  }

  lemma RuleShown(s: Snapshot, className: string, e: Entry, k: string, hr: HTTPRoute)
    requires WellFormed(s) && PlainClass(s, className) && Shows(InputsOf(s, className), e)
    requires OwnGateway(s, className, k) && hr in AttachedRoutes(s, s.gateways[k])
    ensures RuleServed(s, hr, e)
  {
    var inputs := InputsOf(s, className);
    ShownValue(s, className, e, k, RouteOrigin(k, hr));
    var order := ShownOrder(inputs.gateways, e);
    assert !GatewayFails(inputs.gateways[k]);
    assert inputs.gateways[k].routes[hr].program == RouteProgram(s, hr);
  }

  lemma VirtualShown(s: Snapshot, className: string, e: Entry, k: string, ls: Listener, i: nat)
    requires WellFormed(s) && PlainClass(s, className) && Shows(InputsOf(s, className), e)
    requires OwnGateway(s, className, k) && ls in s.gateways[k].listeners && i < |s.gateways[k].addresses|
    ensures var gw, n := s.gateways[k], VirtualName(NameOfListener(s.gateways[k], ls), i);
      && Holds(e, n) && VirtualFor(gw, gw.addresses[i], ls, ContentOf(e, n))
      && ExactIRules(GatewayInputsOf(s, gw), ls, ContentOf(e, n).iRules)
  {
    var g, o := InputsOf(s, className).gateways[k], VirtualOrigin(k, ls, i);
    ShownValue(s, className, e, k, o);
    InputsPlain(s, className);
    VirtualValue(g, ls, i, o, ContentOf(e, OriginName(g, o)));
  }

  // A right tenant serves the class.
  lemma ShowsServes(s: Snapshot, className: string, e: Entry)
    requires WellFormed(s) && PlainClass(s, className) && Shows(InputsOf(s, className), e)
    ensures Serves(s, className, e)
  {
    forall k, ls, i: nat |
      OwnGateway(s, className, k) && ls in s.gateways[k].listeners && i < |s.gateways[k].addresses|
      ensures ServedAt(s, s.gateways[k], ls, i, e)
    {
      ListenerServed(s, className, e, k, ls, i);
    }
  }

  lemma ListenerServed(s: Snapshot, className: string, e: Entry, k: string, ls: Listener, i: nat)
    requires WellFormed(s) && PlainClass(s, className) && Shows(InputsOf(s, className), e)
    requires OwnGateway(s, className, k) && ls in s.gateways[k].listeners && i < |s.gateways[k].addresses|
    ensures ServedAt(s, s.gateways[k], ls, i, e)
  {
    var gw, n := s.gateways[k], VirtualName(NameOfListener(s.gateways[k], ls), i);
    VirtualShown(s, className, e, k, ls, i);
    forall r | r in s.routes
      ensures multiset(ContentOf(e, n).iRules)[HrName(s.routes[r].ns, s.routes[r].name)] ==
        TimesRun(s, s.routes[r], gw, ls)
      ensures TimesRun(s, s.routes[r], gw, ls) > 0 ==> RuleServed(s, s.routes[r], e)
    {
      RouteServed(s, className, e, k, ls, ContentOf(e, n).iRules, s.routes[r]);
    }
  }

  lemma RouteServed(s: Snapshot, className: string, e: Entry, k: string, ls: Listener, names: seq<string>,
                    hr: HTTPRoute)
    requires WellFormed(s) && PlainClass(s, className) && Shows(InputsOf(s, className), e)
    requires OwnGateway(s, className, k) && ls in s.gateways[k].listeners
    requires ExactIRules(GatewayInputsOf(s, s.gateways[k]), ls, names) && Lookup(s.routes, RouteKey(hr)) == Some(hr)
    ensures multiset(names)[HrName(hr.ns, hr.name)] == TimesRun(s, hr, s.gateways[k], ls)
    ensures TimesRun(s, hr, s.gateways[k], ls) > 0 ==> RuleServed(s, hr, e)
  {
    var gw := s.gateways[k];
    assert Stored(s, gw);
    RunTimes(s, gw, ls, names, hr);
    if TimesRun(s, hr, gw, ls) > 0 {
      NamedIff(hr, hr.parentRefs, gw, ls);
      AttachesIff(s, gw, hr);
      RuleShown(s, className, e, k, hr);
    }
  }

  // In every run with an empty queue at the end, every BIG-IP serves each class not left behind.
  lemma DrainedServes(states: seq<System>, steps: seq<Step>, c: string, d: Convergence.D.Device)
    requires IsRun(states, steps, c) && c !in states[|steps|].stale
    requires states[|steps|].dep.queue == [] && d in states[|steps|].dep.devices
    requires PlainClass(states[|steps|].sigs, c)
    ensures Serves(states[|steps|].sigs, c, GetOr(Lookup(d, c), EMPTY))
  {
    InvOverRuns(states, steps, c, |steps|);
    DrainedShowsRender(states, steps, c, d);
    ShowsServes(states[|steps|].sigs, c, GetOr(Lookup(d, c), EMPTY));
  }

  /******* How much a pool gets *******/

  // A rule of the program gives a service's pool the weight of the last backend reference to it, and
  // none if the service is known and the route may not use it.
  lemma ProgramDeals(s: Snapshot, hr: HTTPRoute, i: nat, ns: string, name: string)
    requires WellFormed(s) && ExactIndex(s) && CleanRoute(hr) && CleanRules(hr)
    requires RouteProgram(s, hr).Some? && i < |hr.rules| && LabelName(ns) && ObjectName(name)
    ensures |RouteProgram(s, hr).value.rules| == |hr.rules|
    ensures Lookup(Pools.ArrayOf(RouteProgram(s, hr).value.rules[i].weights), PoolName(ns, name)) ==
      if Key(ns, name) in s.services && !MayUse(s, hr, s.services[Key(ns, name)]) then None
      else Pools.LastWeight(hr, hr.rules[i].backendRefs, ns, name)
  {
    RulesOfLength(s, hr, hr.rules);
    RulesOfAt(s, hr, hr.rules, i);
    Pools.PoolWeightIs(s, hr, hr.rules[i].backendRefs, ns, name);
    if Key(ns, name) in s.services {
      MayUseIff(s, hr, s.services[Key(ns, name)]);
    }
  }
}
