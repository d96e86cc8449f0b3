/** What the emitted actions of a route's filters do to headers, and where they send a request. */
module FilterEffects {
  import opened Common
  import opened Names
  import opened Objects
  import opened Snapshots
  import opened IRules

  /******* Headers *******/

  type Headers = map<string, seq<string>>

  function Values(h: Headers, n: string): seq<string> { if n in h then h[n] else [] }

  // HTTP::header insert, remove and replace.
  function Do(a: Action, h: Headers): Headers {
    match a
    case InsertHeader(n, v) => h[n := Values(h, n) + [v]]
    case RemoveHeader(n) => h - {n}
    case ReplaceHeader(n, v) => h[n := [v]]
    case Respond(_, _, _, _, _) => h
    case UsePool(_) => h
  }

  function Run(actions: seq<Action>, h: Headers): Headers {
    if actions == [] then h else Do(actions[|actions| - 1], Run(actions[..|actions| - 1], h))
  }

  lemma {:induction false} RunConcat(a: seq<Action>, b: seq<Action>, h: Headers)
    ensures Run(a + b, h) == Run(b, Run(a, h))
    decreases |b|
  {
    if b == [] {
      assert a + b == a;
    } else {
      assert (a + b)[..|a + b| - 1] == a + b[..|b| - 1];
      RunConcat(a, b[..|b| - 1], h);
    }
  }

  // The values given to a name, in order.
  function Given(pairs: seq<(string, string)>, n: string): seq<string> {
    if pairs == [] then []
    else
      var (name, v) := pairs[|pairs| - 1];
      Given(pairs[..|pairs| - 1], n) + (if name == n then [v] else [])
  }

  // What the Gateway API asks of a header modifier: a name that is set has the last value given, one
  // that is removed none, and to any other the added values are appended.
  function Modified(m: HeaderModifier, values: seq<string>, n: string): seq<string> {
    var sets := Given(m.replace, n);
    if sets != [] then [sets[|sets| - 1]]
    else if n in m.remove then []
    else values + Given(m.add, n)
  }

  lemma {:induction false} InsertsRun(pairs: seq<(string, string)>, h: Headers, n: string)
    ensures Values(Run(Inserts(pairs), h), n) == Values(h, n) + Given(pairs, n)
  {
    if pairs != [] {
      var init := pairs[..|pairs| - 1];
      InsertsRun(init, h, n);
      assert Inserts(pairs)[..|pairs| - 1] == Inserts(init);
    }
  }

  lemma {:induction false} RemovesRun(names: seq<string>, h: Headers, n: string)
    ensures Values(Run(Removes(names), h), n) == if n in names then [] else Values(h, n)
  {
    if names != [] {
      var init, last := names[..|names| - 1], names[|names| - 1];
      RemovesRun(init, h, n);
      assert names == init + [last];
      assert Removes(names)[..|names| - 1] == Removes(init);
    }
  }

  lemma {:induction false} ReplacesRun(pairs: seq<(string, string)>, h: Headers, n: string)
    ensures var sets := Given(pairs, n);
      Values(Run(Replaces(pairs), h), n) == if sets != [] then [sets[|sets| - 1]] else Values(h, n)
  {
    if pairs != [] {
      var init := pairs[..|pairs| - 1];
      ReplacesRun(init, h, n);
      assert Replaces(pairs)[..|pairs| - 1] == Replaces(init);
    }
  }

  lemma ModifierRun(m: HeaderModifier, h: Headers, n: string)
    ensures Values(Run(HeaderActions(Some(m)), h), n) == Modified(m, Values(h, n), n)
  {
    var a, b, c := Inserts(m.add), Removes(m.remove), Replaces(m.replace);
    RunConcat(a + b, c, h);
    RunConcat(a, b, h);
    InsertsRun(m.add, h, n);
    RemovesRun(m.remove, Run(a, h), n);
    ReplacesRun(m.replace, Run(b, Run(a, h)), n);
  }

  // Request header modifiers apply in order; no other filter changes a header.
  function AfterRequest(fls: seq<Filter>, values: seq<string>, n: string): seq<string> {
    if fls == [] then values
    else
      var fl, before := fls[|fls| - 1], AfterRequest(fls[..|fls| - 1], values, n);
      if fl.kind == RequestHeaderModifier && fl.requestHeaders.Some? then Modified(fl.requestHeaders.value, before, n)
      else before
  }

  function AfterResponse(fls: seq<Filter>, values: seq<string>, n: string): seq<string> {
    if fls == [] then values
    else
      var fl, before := fls[|fls| - 1], AfterResponse(fls[..|fls| - 1], values, n);
      if fl.kind == ResponseHeaderModifier && fl.responseHeaders.Some?
      then Modified(fl.responseHeaders.value, before, n) else before
  }

  lemma OneRequest(fl: Filter, hrNs: string, h: Headers, n: string)
    requires RequestAction(fl, hrNs).Some?
    ensures Values(Run(RequestAction(fl, hrNs).value, h), n) == AfterRequest([fl], Values(h, n), n)
  {
    assert [fl][..0] == [];
    if fl.kind == RequestHeaderModifier && fl.requestHeaders.Some? {
      ModifierRun(fl.requestHeaders.value, h, n);
    } else {
      var actions := RequestAction(fl, hrNs).value;
      assert |actions| <= 1 && actions[..0] == [];
    }
  }

  lemma {:induction false} RequestRun(fls: seq<Filter>, hrNs: string, h: Headers, n: string)
    requires RequestActions(fls, hrNs).Some?
    ensures Values(Run(RequestActions(fls, hrNs).value, h), n) == AfterRequest(fls, Values(h, n), n)
  {
    if fls != [] {
      var init, fl := fls[..|fls| - 1], fls[|fls| - 1];
      var before := RequestActions(init, hrNs).value;
      RequestRun(init, hrNs, h, n);
      RunConcat(before, RequestAction(fl, hrNs).value, h);
      OneRequest(fl, hrNs, Run(before, h), n);
      assert [fl][..0] == [];
    }
  }

  lemma {:induction false} ResponseRun(fls: seq<Filter>, h: Headers, n: string)
    ensures Values(Run(ResponseActions(fls), h), n) == AfterResponse(fls, Values(h, n), n)
  {
    if fls != [] {
      var init, fl := fls[..|fls| - 1], fls[|fls| - 1];
      var before := ResponseActions(init);
      var last := if fl.kind.ResponseHeaderModifier? then HeaderActions(fl.responseHeaders) else [];
      ResponseRun(init, h, n);
      RunConcat(before, last, h);
      if fl.kind == ResponseHeaderModifier && fl.responseHeaders.Some? {
        ModifierRun(fl.responseHeaders.value, Run(before, h), n);
      }
    }
  }

  // The program of a route changes the headers of requests and responses as the filters of the rule
  // that runs ask.
  lemma ProgramHeaders(s: Snapshot, hr: HTTPRoute, i: nat, h: Headers, n: string)
    requires RouteProgram(s, hr).Some? && i < |hr.rules|
    ensures |RouteProgram(s, hr).value.rules| == |hr.rules|
    ensures var rule := RouteProgram(s, hr).value.rules[i];
      && Values(Run(rule.actions, h), n) == AfterRequest(hr.rules[i].filters, Values(h, n), n)
      && Values(Run(rule.responses, h), n) == AfterResponse(hr.rules[i].filters, Values(h, n), n)
  {
    RulesOfLength(s, hr, hr.rules);
    RulesOfAt(s, hr, hr.rules, i);
    RequestRun(hr.rules[i].filters, hr.ns, h, n);
    ResponseRun(hr.rules[i].filters, h, n);
  }

  /******* Redirects and pools *******/

  // Where a redirect sends a request of this host, port and path.
  function Target(a: Action, host: string, port: int, path: string): (string, string, int, string)
    requires a.Respond?
  {
    (a.scheme, GetOr(a.hostname, host), GetOr(a.port, port), GetOr(a.fullPath, path))
  }

  // A redirect is one answer: what it leaves out is taken from the request, except for the scheme.
  lemma RedirectRun(fl: Filter, rr: Redirect, hrNs: string, host: string, port: int, path: string)
    requires fl.kind == RequestRedirect && fl.redirect == Some(rr) && rr.statusCode in {Some(301), Some(302)}
    ensures var actions := RequestAction(fl, hrNs);
      && actions.Some? && |actions.value| == 1 && actions.value[0].Respond?
      && Some(actions.value[0].statusCode) == rr.statusCode
      && Target(actions.value[0], host, port, path) ==
         (if rr.scheme.Some? then rr.scheme.value else "http", if rr.hostname.Some? then rr.hostname.value else host,
          if rr.port.Some? then rr.port.value else port, if rr.fullPath.Some? then rr.fullPath.value else path)
  {
  }

  lemma ExtensionPath(pool: string)
    requires '/' !in pool
    ensures Split("/cis-c-tenant/" + pool, '/') == ["", "cis-c-tenant", pool]
  {
    assert "/cis-c-tenant/" + pool == Slash("", Slash("cis-c-tenant", pool));
    SplitFree(pool, '/');
    SplitSlash("cis-c-tenant", pool);
    SplitSlash("", Slash("cis-c-tenant", pool));
  }

  // An extension reference sends the request to the pool of this name in the tenant cis-c-tenant.
  lemma ExtensionRun(fl: Filter, er: ExtensionRef, hrNs: string)
    requires fl.kind == ExtensionFilter && fl.extension == Some(er) && '/' !in hrNs && '/' !in er.name
    ensures var actions := RequestAction(fl, hrNs);
      && actions.Some? && |actions.value| == 1 && actions.value[0].UsePool?
      && Split(actions.value[0].pool, '/') == ["", "cis-c-tenant", hrNs + "." + er.name]
  {
    ExtensionPath(Dot(hrNs, er.name));
  }

  // No other filter answers or picks a pool.
  lemma OthersOnlyHeaders(fl: Filter, hrNs: string)
    requires !fl.kind.RequestRedirect? && !fl.kind.ExtensionFilter? && RequestAction(fl, hrNs).Some?
    ensures forall a :: a in RequestAction(fl, hrNs).value ==> !a.Respond? && !a.UsePool?
  {
  }
}
