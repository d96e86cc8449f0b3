/** What makes rendering and deploying fail, said in terms of the stored objects, and what the
    reconcilers then return. */
module Failures {
  import opened Common
  import opened Objects
  import opened Snapshots
  import opened IRules
  import opened Rendering
  import opened Pooling
  import opened Reachability
  import opened Events
  import opened Retries
  import opened RetryRuns
  import opened Controllers
  import opened ServiceUse
  import opened Certificates
  import D = Deployer

  /******* Rendering *******/

  // Some filter of the route's rules mirrors requests, or redirects with another status than 301 or 302.
  predicate RouteBroken(hr: HTTPRoute) { RulesBroken(hr.rules) }

  predicate RulesBroken(rules: seq<Rule>) { exists rule :: rule in rules && FiltersBroken(rule.filters) }

  predicate FiltersBroken(fls: seq<Filter>) { exists fl :: fl in fls && Unsupportable(fl) }

  lemma {:induction false} RulesFailIff(s: Snapshot, hr: HTTPRoute, rules: seq<Rule>)
    ensures RulesOf(s, hr, rules).None? <==> RulesBroken(rules)
  {
    if rules != [] {
      var init, last := rules[..|rules| - 1], rules[|rules| - 1];
      assert rules == init + [last];
      RulesFailIff(s, hr, init);
      RequestActionsFail(last.filters, hr.ns);
    }
  }

  // A listener cannot use its certificates, an address is no IP address, there is an address for a
  // listener of TLS, TCP or UDP, or an attached route is broken.
  predicate GatewayBroken(s: Snapshot, gw: Gateway) {
    || (exists ls :: ls in gw.listeners && !ListenerUsable(s, gw, ls))
    || (exists a :: a in gw.addresses && a.kind != IPAddress)
    || (gw.addresses != [] && exists ls :: ls in gw.listeners && ls.protocol in {TLS, TCP, UDP})
    || (exists hr :: hr in AttachedRoutes(s, gw) && RouteBroken(hr))
  }

  lemma RoutesFailIff(s: Snapshot, gw: Gateway)
    requires WellFormed(s)
    ensures GatewayInputsOf(s, gw).routes.Keys == AttachedRoutes(s, gw)
    ensures forall hr :: hr in GatewayInputsOf(s, gw).routes ==>
      SectionsSet(hr) && (GatewayInputsOf(s, gw).routes[hr].program.None? <==> RouteBroken(hr))
  {
    forall hr | hr in AttachedRoutes(s, gw)
      ensures SectionsSet(hr) && (RouteProgram(s, hr).None? <==> RouteBroken(hr))
    {
      RulesFailIff(s, hr, hr.rules);
    }
  }

  // Only listeners of TLS, TCP and UDP are unsupported.
  lemma FailsBy(g: GatewayInputs)
    ensures GatewayFails(g) <==>
      || (exists hr :: hr in g.routes && !SectionsSet(hr))
      || g.secrets.None?
      || (exists a :: a in g.gateway.addresses && a.kind != IPAddress)
      || (g.gateway.addresses != [] && exists ls :: ls in g.gateway.listeners && ls.protocol in {TLS, TCP, UDP})
      || (exists hr :: hr in g.routes && g.routes[hr].program.None?)
  {
    assert forall ls: Listener :: Unsupported(ls) <==> ls.protocol in {TLS, TCP, UDP};
    assert forall a: Address :: !a.kind.IPAddress? <==> a.kind != IPAddress;
  }

  lemma GatewayFailsIff(s: Snapshot, gw: Gateway)
    requires WellFormed(s) && ExactIndex(s) && CleanGateway(gw)
    ensures GatewayFails(GatewayInputsOf(s, gw)) <==> GatewayBroken(s, gw)
  {
    SecretMapIff(s, gw, gw.listeners);
    RoutesFailIff(s, gw);
    FailsBy(GatewayInputsOf(s, gw));
  }

  // The class is known and this controller's, and one of its gateways is broken.
  predicate ClassBroken(s: Snapshot, className: string) {
    && className in s.classes && s.classes[className].controllerName == s.controllerName
    && exists k :: k in s.gateways && s.gateways[k].className == className && GatewayBroken(s, s.gateways[k])
  }

  // Rendering a class fails exactly then.
  lemma RenderFailsIff(s: Snapshot, className: string)
    requires WellFormed(s) && ExactIndex(s)
    ensures Fails(InputsOf(s, className)) <==> ClassBroken(s, className)
  {
    var inputs := InputsOf(s, className);
    forall k | k in s.gateways
      ensures GatewayFails(GatewayInputsOf(s, s.gateways[k])) <==> GatewayBroken(s, s.gateways[k])
    {
      GatewayFailsIff(s, s.gateways[k]);
    }
    if inputs.Active? {
      assert forall k :: k in s.gateways && s.gateways[k].className == className ==>
        k in inputs.gateways && inputs.gateways[k] == GatewayInputsOf(s, s.gateways[k]);
    }
  }

  /******* Deploying *******/

  predicate Unformattable(s: Snapshot, k: string) { k in s.endpoints && s.endpoints[k].members.None? }

  // The service is stored and used in a known class of these.
  ghost predicate UsedBySome(s: Snapshot, classes: set<string>, k: string) {
    k in s.services && exists c :: c in classes && c in s.classes && UsedIn(s, c, s.services[k])
  }

  // Deploying classes fails exactly if one is broken, or the endpoints of a service they use are.
  lemma DeployFailsIff(s: Snapshot, classes: set<string>)
    requires WellFormed(s) && ExactIndex(s) && AllRulesClean(s)
    ensures DeployFails(s, classes) <==>
      (exists c :: c in classes && ClassBroken(s, c)) || exists k :: UsedBySome(s, classes, k) && Unformattable(s, k)
  {
    forall c ensures Fails(InputsOf(s, c)) <==> ClassBroken(s, c) {
      RenderFailsIff(s, c);
    }
    RelatedKeysPlain(s, classes);
    forall k
      ensures k in RelatedKeys(s, classes) <==> UsedBySome(s, classes, k)
      ensures k in RelatedKeys(s, classes) ==> (PoolFails(s, k) <==> Unformattable(s, k))
    {
      RelatedKeysIff(s, classes, k);
    }
  }

  // Deploying a namespace's backends fails exactly if the endpoints of one that a known class uses are.
  lemma BackendsFailIff(s: Snapshot, ns: string)
    requires WellFormed(s) && Unambiguous(s) && ExactIndex(s) && AllRulesClean(s)
    ensures BackendsFail(s, ns) <==>
      exists k :: k in s.services && s.services[k].ns == ns && UsedBySome(s, s.classes.Keys, k) && Unformattable(s, k)
  {
    forall k
      ensures k in BackendKeys(s, ns) <==>
        k in s.services && s.services[k].ns == ns && UsedBySome(s, s.classes.Keys, k)
      ensures k in BackendKeys(s, ns) ==> (PoolFails(s, k) <==> Unformattable(s, k))
    {
      BackendKeysIff(s, ns, k);
      if k in s.services { ServiceKeyPlain(s.services[k]); }
    }
  }

  /******* What a reconciler returns *******/

  // The secret that is stored or removed, some gateway uses wrongly.
  ghost predicate MisusedIn(s: Snapshot, e: Event) {
    e.SecretEvent? && match (if e.secret.Some? then e.secret else Lookup(s.secrets, e.key))
      case None => false
      case Some(scrt) => Misused(s, scrt)
  }

  ghost predicate Misused(s: Snapshot, scrt: Secret) {
    exists k :: k in s.gateways && WrongFirst(s, s.gateways[k], s.gateways[k].listeners, scrt)
  }

  lemma MisusedIff(s: Snapshot, e: Event)
    requires WellFormed(s) && ExactIndex(s) && CleanEvent(e) && e.SecretEvent?
    ensures WronglyUsed(s, if e.secret.Some? then e.secret else Lookup(s.secrets, e.key)) <==> MisusedIn(s, e)
  {
    if e.secret.Some? { UsersIff(s, e.secret.value); } else if e.key in s.secrets { UsersIff(s, s.secrets[e.key]); }
  }

  // A reconcile is to be tried again exactly if its deployment fails, unless it stores a grant, or if a
  // gateway uses the secret wrongly; it panics exactly on the deletion of an unknown gateway.
  lemma ReturnedIff(s: Snapshot, st: D.State, e: Event, s': Snapshot, st': D.State, ok: bool)
    requires WellFormed(s) && ExactIndex(s) && CleanEvent(e) && Performed(s, st, e, s', st', ok)
    ensures ReturnOf(s, e, ok) == Panic <==> e.GatewayEvent? && e.gateway.None? && e.key !in s.gateways.Keys
    ensures ReturnOf(s, e, ok) == Failed <==>
      (CannotDeploy(s, e) && !(e.GrantEvent? && e.grant.Some?)) || MisusedIn(s, e)
  {
    ReconciledIff(s, e, st.queue, st'.queue, ok);
    ReturnsIff(s, e, ok);
    UnknownDeletion(s, e);
  }

  lemma ReturnsIff(s: Snapshot, e: Event, ok: bool)
    requires WellFormed(s) && ExactIndex(s) && CleanEvent(e)
    ensures ReturnOf(s, e, ok) == Panic <==> e.GatewayEvent? && e.gateway.None? && e.key !in s.gateways.Keys
    ensures ReturnOf(s, e, ok) == Failed <==>
      ReturnOf(s, e, ok) != Panic && ((!ok && !(e.GrantEvent? && e.grant.Some?)) || MisusedIn(s, e))
  {
    if e.SecretEvent? { MisusedIff(s, e); }
  }

  // There is nothing to deploy then, so it cannot fail.
  lemma UnknownDeletion(s: Snapshot, e: Event)
    ensures e.GatewayEvent? && e.gateway.None? && e.key !in s.gateways.Keys ==> !CannotDeploy(s, e)
  {
  }
}
