/** Compiling an HTTPRoute to an iRule: conditions, filter actions and weighted pools. */
module IRules {
  import opened Common
  import opened Names
  import opened Objects
  import opened Snapshots

  /******* Conditions *******/

  datatype Test =
    | HostMatches(value: string)
    | PathStartsWith(value: string)
    | PathIs(value: string)
    | HeaderIs(name: string, value: string)
    | HeaderMatches(name: string, value: string)
    | MethodIs(value: string)
    | QueryIs(name: string, value: string)
    | QueryMatches(name: string, value: string)

  // Broken is the text emitted for a regular-expression path: its bracket is never closed.
  datatype Token = Operand(test: Test) | And | Or | Broken(value: string)

  function PathTokens(path: Option<PathMatch>): seq<Token> {
    match path
    case None => []
    case Some(p) =>
      match GetOr(p.kind, PathPrefix)
      case PathPrefix => [Operand(PathStartsWith(p.value))]
      case PathExact => [Operand(PathIs(p.value))]
      case PathRegex => [Broken(p.value)]
      case OtherPath => []
  }

  function HeaderTokens(header: ValueMatch): seq<Token> {
    match GetOr(header.kind, ExactValue)
    case ExactValue => [Operand(HeaderIs(header.name, header.value))]
    case RegexValue => [Operand(HeaderMatches(header.name, header.value))]
    case OtherValue => []
  }

  function MethodTokens(m: Option<string>): seq<Token> {
    match m
    case None => []
    case Some(v) => [Operand(MethodIs(v))]
  }

  function QueryTokens(query: ValueMatch): seq<Token> {
    match GetOr(query.kind, ExactValue)
    case ExactValue => [Operand(QueryIs(query.name, query.value))]
    case RegexValue => [Operand(QueryMatches(query.name, query.value))]
    case OtherValue => []
  }

  // The conditions of headers and of query parameters, appended to those collected before.
  function AddHeaders(before: seq<Token>, headers: seq<ValueMatch>): seq<Token> {
    if headers == [] then before
    else AddHeaders(before, headers[..|headers| - 1]) + HeaderTokens(headers[|headers| - 1])
  }

  function AddQueries(before: seq<Token>, queries: seq<ValueMatch>): seq<Token> {
    if queries == [] then before
    else AddQueries(before, queries[..|queries| - 1]) + QueryTokens(queries[|queries| - 1])
  }

  // The conditions collected for one match.
  function MatchTokens(m: Match): seq<Token> {
    AddQueries(AddHeaders(PathTokens(m.path), m.headers) + MethodTokens(m.httpMethod), m.queryParams)
  }

  // strings.Join over token texts.
  function JoinAnd(conditions: seq<Token>): seq<Token> {
    if |conditions| <= 1 then conditions else [conditions[0], And] + JoinAnd(conditions[1..])
  }

  function JoinOr(parts: seq<seq<Token>>): seq<Token> {
    if |parts| == 0 then []
    else if |parts| == 1 then parts[0]
    else parts[0] + [Or] + JoinOr(parts[1..])
  }

  function Conditions(matches: seq<Match>): (parts: seq<seq<Token>>)
    ensures |parts| == |matches|
    ensures forall i :: 0 <= i < |matches| ==> parts[i] == JoinAnd(MatchTokens(matches[i]))
  {
    seq(|matches|, i requires 0 <= i < |matches| => JoinAnd(MatchTokens(matches[i])))
  }

  // parseiRuleMatches
  function MatchesText(matches: seq<Match>): seq<Token> { JoinOr(Conditions(matches)) }

  function HostParts(hostnames: seq<string>): (parts: seq<seq<Token>>)
    ensures |parts| == |hostnames|
    ensures forall i :: 0 <= i < |hostnames| ==> parts[i] == [Operand(HostMatches(hostnames[i]))]
  {
    seq(|hostnames|, i requires 0 <= i < |hostnames| => [Operand(HostMatches(hostnames[i]))])
  }

  // orHostnames
  function HostsText(hostnames: seq<string>): seq<Token> { JoinOr(HostParts(hostnames)) }

  method ParseMatches(matches: seq<Match>) returns (text: seq<Token>)
    ensures text == MatchesText(matches)
  {
    var matchConditions: seq<seq<Token>> := [];
    for i := 0 to |matches|
      invariant matchConditions == Conditions(matches)[..i]
    {
      var singleMatch := ParseMatch(matches[i]);
      matchConditions := matchConditions + [JoinAnd(singleMatch)];
    }
    assert matchConditions == Conditions(matches);
    text := JoinOr(matchConditions);
  }

  // The body of the loop over matches.
  method ParseMatch(m: Match) returns (singleMatch: seq<Token>)
    ensures singleMatch == MatchTokens(m)
  {
    var path := PathTokens(m.path);
    singleMatch := path;
    for j := 0 to |m.headers|
      invariant singleMatch == AddHeaders(path, m.headers[..j])
    {
      assert m.headers[..j + 1][..j] == m.headers[..j];
      singleMatch := singleMatch + HeaderTokens(m.headers[j]);
    }
    assert m.headers[..|m.headers|] == m.headers;
    singleMatch := singleMatch + MethodTokens(m.httpMethod);
    ghost var before := singleMatch;
    for j := 0 to |m.queryParams|
      invariant singleMatch == AddQueries(before, m.queryParams[..j])
    {
      assert m.queryParams[..j + 1][..j] == m.queryParams[..j];
      singleMatch := singleMatch + QueryTokens(m.queryParams[j]);
    }
    assert m.queryParams[..|m.queryParams|] == m.queryParams;
  }

  method OrHosts(hostnames: seq<string>) returns (text: seq<Token>)
    ensures text == HostsText(hostnames)
  {
    var conditions: seq<seq<Token>> := [];
    for i := 0 to |hostnames|
      invariant conditions == HostParts(hostnames)[..i]
    {
      conditions := conditions + [[Operand(HostMatches(hostnames[i]))]];
    }
    assert conditions == HostParts(hostnames);
    text := JoinOr(conditions);
  }

  /******* Reading a condition *******/

  // Which tests a request passes.
  type Request = Test -> bool

  // test ("and" test)*; None when the text does not parse.
  function EvalAnd(ts: seq<Token>, req: Request): Option<bool> {
    if |ts| == 0 || !ts[0].Operand? then None
    else if |ts| == 1 then Some(req(ts[0].test))
    else if ts[1] != And then None
    else
      match EvalAnd(ts[2..], req)
      case None => None
      case Some(b) => Some(req(ts[0].test) && b)
  }

  function FirstOr(ts: seq<Token>): (i: nat)
    ensures i <= |ts| && Or !in ts[..i] && (i < |ts| ==> ts[i] == Or)
  {
    if ts == [] || ts[0] == Or then 0
    else
      var j := FirstOr(ts[1..]);
      assert ts[..1 + j] == [ts[0]] + ts[1..][..j];
      1 + j
  }

  function Either(a: Option<bool>, b: Option<bool>): Option<bool> {
    if a.None? || b.None? then None else Some(a.value || b.value)
  }

  // term ("or" term)*, where each term binds its "and"s tighter.
  function Eval(ts: seq<Token>, req: Request): Option<bool>
    decreases |ts|
  {
    var i := FirstOr(ts);
    if i == |ts| then EvalAnd(ts[..i], req) else Either(EvalAnd(ts[..i], req), Eval(ts[i + 1..], req))
  }

  /******* What a match means *******/

  predicate PathHolds(p: PathMatch, req: Request) {
    match GetOr(p.kind, PathPrefix)
    case PathPrefix => req(PathStartsWith(p.value))
    case PathExact => req(PathIs(p.value))
    case PathRegex => false
    case OtherPath => true
  }

  predicate HeaderHolds(h: ValueMatch, req: Request) {
    match GetOr(h.kind, ExactValue)
    case ExactValue => req(HeaderIs(h.name, h.value))
    case RegexValue => req(HeaderMatches(h.name, h.value))
    case OtherValue => true
  }

  predicate QueryHolds(q: ValueMatch, req: Request) {
    match GetOr(q.kind, ExactValue)
    case ExactValue => req(QueryIs(q.name, q.value))
    case RegexValue => req(QueryMatches(q.name, q.value))
    case OtherValue => true
  }

  predicate HeadersHold(hs: seq<ValueMatch>, req: Request) { forall h :: h in hs ==> HeaderHolds(h, req) }
  predicate QueriesHold(qs: seq<ValueMatch>, req: Request) { forall q :: q in qs ==> QueryHolds(q, req) }

  // All conditions of the match hold of the request.
  predicate MatchHolds(m: Match, req: Request) {
    && (m.path.Some? ==> PathHolds(m.path.value, req))
    && HeadersHold(m.headers, req)
    && (m.httpMethod.Some? ==> req(MethodIs(m.httpMethod.value)))
    && QueriesHold(m.queryParams, req)
  }

  predicate RegexPath(m: Match) { m.path.Some? && m.path.value.kind == Some(PathRegex) }

  predicate Conditioned(vs: seq<ValueMatch>) { exists v :: v in vs && v.kind != Some(OtherValue) }

  // The match has at least one condition of a known type.
  predicate HasCondition(m: Match) {
    || (m.path.Some? && m.path.value.kind != Some(OtherPath))
    || Conditioned(m.headers)
    || m.httpMethod.Some?
    || Conditioned(m.queryParams)
  }

  predicate Compilable(m: Match) { HasCondition(m) && !RegexPath(m) }

  // All of a list of operands hold.
  predicate AllHold(ts: seq<Token>, req: Request) {
    forall t :: t in ts ==> t.Operand? && req(t.test)
  }

  predicate Operands(ts: seq<Token>) {
    forall t :: t in ts ==> t.Operand?
  }

  // Only operands and broken paths are collected, and they say what the part means.
  ghost predicate Means(ts: seq<Token>, operands: bool, holds: bool, req: Request) {
    && Or !in ts && And !in ts
    && (Operands(ts) <==> operands)
    && (AllHold(ts, req) <==> holds)
  }

  lemma MeansConcat(a: seq<Token>, oa: bool, ha: bool, b: seq<Token>, hb: bool, req: Request)
    requires Means(a, oa, ha, req) && Means(b, true, hb, req)
    ensures Means(a + b, oa, ha && hb, req)
  {
    assert forall t :: t in a + b <==> t in a || t in b;
  }

  lemma HeaderMeans(h: ValueMatch, req: Request)
    ensures Means(HeaderTokens(h), true, HeaderHolds(h, req), req)
    ensures HeaderTokens(h) != [] <==> h.kind != Some(OtherValue)
  {
    assert HeaderTokens(h) != [] ==> HeaderTokens(h)[0] in HeaderTokens(h);
  }

  lemma QueryMeans(q: ValueMatch, req: Request)
    ensures Means(QueryTokens(q), true, QueryHolds(q, req), req)
    ensures QueryTokens(q) != [] <==> q.kind != Some(OtherValue)
  {
    assert QueryTokens(q) != [] ==> QueryTokens(q)[0] in QueryTokens(q);
  }

  lemma {:induction false} AddHeadersMeans(before: seq<Token>, ob: bool, hb: bool, headers: seq<ValueMatch>,
                                           req: Request)
    requires Means(before, ob, hb, req)
    ensures Means(AddHeaders(before, headers), ob, hb && HeadersHold(headers, req), req)
    ensures AddHeaders(before, headers) != [] <==> before != [] || Conditioned(headers)
  {
    if headers != [] {
      var init, last := headers[..|headers| - 1], headers[|headers| - 1];
      AddHeadersMeans(before, ob, hb, init, req);
      assert headers == init + [last];
      HeaderMeans(last, req);
      assert HeadersHold(headers, req) <==> HeadersHold(init, req) && HeaderHolds(last, req);
      assert Conditioned(headers) <==> Conditioned(init) || HeaderTokens(last) != [];
      MeansConcat(AddHeaders(before, init), ob, hb && HeadersHold(init, req), HeaderTokens(last),
                  HeaderHolds(last, req), req);
    }
  }

  lemma {:induction false} AddQueriesMeans(before: seq<Token>, ob: bool, hb: bool, queries: seq<ValueMatch>,
                                           req: Request)
    requires Means(before, ob, hb, req)
    ensures Means(AddQueries(before, queries), ob, hb && QueriesHold(queries, req), req)
    ensures AddQueries(before, queries) != [] <==> before != [] || Conditioned(queries)
  {
    if queries != [] {
      var init, last := queries[..|queries| - 1], queries[|queries| - 1];
      AddQueriesMeans(before, ob, hb, init, req);
      assert queries == init + [last];
      QueryMeans(last, req);
      assert QueriesHold(queries, req) <==> QueriesHold(init, req) && QueryHolds(last, req);
      assert Conditioned(queries) <==> Conditioned(init) || QueryTokens(last) != [];
      MeansConcat(AddQueries(before, init), ob, hb && QueriesHold(init, req), QueryTokens(last),
                  QueryHolds(last, req), req);
    }
  }

  lemma MatchTokensMean(m: Match, req: Request)
    ensures Means(MatchTokens(m), !RegexPath(m), MatchHolds(m, req), req)
    ensures MatchTokens(m) != [] <==> HasCondition(m)
  {
    var a, b, c := PathTokens(m.path), AddHeaders(PathTokens(m.path), m.headers), MethodTokens(m.httpMethod);
    var ha := m.path.Some? ==> PathHolds(m.path.value, req);
    var hb := HeadersHold(m.headers, req);
    var hc := m.httpMethod.Some? ==> req(MethodIs(m.httpMethod.value));
    assert Means(a, !RegexPath(m), ha, req) by { assert a != [] ==> a[0] in a; }
    assert Means(c, true, hc, req) by { assert c != [] ==> c[0] in c; }
    AddHeadersMeans(a, !RegexPath(m), ha, m.headers, req);
    MeansConcat(b, !RegexPath(m), ha && hb, c, hc, req);
    AddQueriesMeans(b + c, !RegexPath(m), ha && hb && hc, m.queryParams, req);
  }

  lemma {:induction false} JoinAndMeans(ts: seq<Token>, req: Request)
    requires Or !in ts && And !in ts
    ensures Or !in JoinAnd(ts)
    ensures EvalAnd(JoinAnd(ts), req).Some? <==> ts != [] && Operands(ts)
    ensures ts != [] && Operands(ts) ==> EvalAnd(JoinAnd(ts), req) == Some(AllHold(ts, req))
    decreases |ts|
  {
    if |ts| == 1 {
      assert ts[0] in ts;
    } else if |ts| > 1 {
      JoinAndMeans(ts[1..], req);
      assert ts == [ts[0]] + ts[1..];
      assert JoinAnd(ts)[2..] == JoinAnd(ts[1..]);
    }
  }

  lemma EvalOneTerm(x: seq<Token>, req: Request)
    requires Or !in x
    ensures Eval(x, req) == EvalAnd(x, req)
  {
    var i := FirstOr(x);
    assert x[..|x|] == x;
    assert i < |x| ==> Or in x;
  }

  lemma EvalTerms(x: seq<Token>, y: seq<Token>, req: Request)
    requires Or !in x
    ensures Eval(x + [Or] + y, req) == Either(EvalAnd(x, req), Eval(y, req))
  {
    var ts := x + [Or] + y;
    var i := FirstOr(ts);
    assert ts[|x|] == Or;
    assert forall k :: 0 <= k < |x| ==> ts[k] == x[k] && x[k] != Or;
    assert forall k :: 0 <= k < i ==> ts[..i][k] == ts[k];
    assert i == |x|;
    assert ts[..i] == x && ts[i + 1..] == y;
  }

  lemma TermCompiles(m: Match, req: Request)
    ensures Or !in JoinAnd(MatchTokens(m))
    ensures EvalAnd(JoinAnd(MatchTokens(m)), req) == if Compilable(m) then Some(MatchHolds(m, req)) else None
  {
    MatchTokensMean(m, req);
    JoinAndMeans(MatchTokens(m), req);
  }

  predicate AllCompilable(matches: seq<Match>) { matches != [] && forall m :: m in matches ==> Compilable(m) }

  predicate SomeHolds(matches: seq<Match>, req: Request) { exists m :: m in matches && MatchHolds(m, req) }

  // The emitted condition parses if and only if there is a match, every match has a condition,
  // and none has a regular-expression path; then it holds exactly when some match does.
  lemma {:induction false} ConditionCompiles(matches: seq<Match>, req: Request)
    ensures Eval(MatchesText(matches), req) == if AllCompilable(matches) then Some(SomeHolds(matches, req)) else None
    decreases |matches|
  {
    if matches == [] {
      EvalOneTerm([], req);
    } else {
      var m, rest := matches[0], matches[1..];
      TermCompiles(m, req);
      assert matches == [m] + rest;
      if rest == [] {
        EvalOneTerm(JoinAnd(MatchTokens(m)), req);
      } else {
        assert Conditions(matches)[1..] == Conditions(rest);
        EvalTerms(JoinAnd(MatchTokens(m)), MatchesText(rest), req);
        ConditionCompiles(rest, req);
        assert AllCompilable(matches) <==> Compilable(m) && AllCompilable(rest);
        assert SomeHolds(matches, req) <==> MatchHolds(m, req) || SomeHolds(rest, req);
      }
    }
  }

  lemma {:induction false} HostsCompile(hostnames: seq<string>, req: Request)
    requires hostnames != []
    ensures Eval(HostsText(hostnames), req) == Some(exists h :: h in hostnames && req(HostMatches(h)))
    decreases |hostnames|
  {
    var h, rest := hostnames[0], hostnames[1..];
    var x := [Operand(HostMatches(h))];
    assert hostnames == [h] + rest;
    if rest == [] {
      EvalOneTerm(x, req);
    } else {
      assert HostParts(hostnames)[1..] == HostParts(rest);
      EvalTerms(x, HostsText(rest), req);
      HostsCompile(rest, req);
    }
  }

  /******* Filters *******/

  datatype Action =
    | InsertHeader(name: string, value: string)
    | RemoveHeader(name: string)
    | ReplaceHeader(name: string, value: string)
    | Respond(scheme: string, hostname: Option<string>, fullPath: Option<string>, port: Option<int>, statusCode: int)
    | UsePool(pool: string)  // and return

  function Inserts(hs: seq<(string, string)>): seq<Action> {
    seq(|hs|, i requires 0 <= i < |hs| => InsertHeader(hs[i].0, hs[i].1))
  }

  function Removes(hs: seq<string>): seq<Action> {
    seq(|hs|, i requires 0 <= i < |hs| => RemoveHeader(hs[i]))
  }

  function Replaces(hs: seq<(string, string)>): seq<Action> {
    seq(|hs|, i requires 0 <= i < |hs| => ReplaceHeader(hs[i].0, hs[i].1))
  }

  function HeaderActions(m: Option<HeaderModifier>): seq<Action> {
    match m
    case None => []
    case Some(h) => Inserts(h.add) + Removes(h.remove) + Replaces(h.replace)
  }

  // None is the template error: mirroring, or a redirect whose status is missing or neither 301 nor 302.
  function RequestAction(fl: Filter, hrNs: string): Option<seq<Action>> {
    match fl.kind
    case RequestHeaderModifier => Some(HeaderActions(fl.requestHeaders))
    case RequestMirror => None
    case RequestRedirect =>
      (match fl.redirect
       case None => Some([])
       case Some(rr) =>
         if rr.statusCode == Some(301) || rr.statusCode == Some(302)
         then Some([Respond(GetOr(rr.scheme, "http"), rr.hostname, rr.fullPath, rr.port, rr.statusCode.value)])
         else None)
    case ExtensionFilter =>
      (match fl.extension
       case None => Some([])
       case Some(er) => Some([UsePool("/cis-c-tenant/" + Dot(hrNs, er.name))]))
    case _ => Some([])
  }

  // parseiRuleReqFilters
  function RequestActions(fls: seq<Filter>, hrNs: string): Option<seq<Action>> {
    if fls == [] then Some([])
    else
      var init := RequestActions(fls[..|fls| - 1], hrNs);
      var last := RequestAction(fls[|fls| - 1], hrNs);
      if init.None? || last.None? then None else Some(init.value + last.value)
  }

  // Mirroring, and a redirect whose status is neither 301 nor 302, are errors.
  predicate Unsupportable(fl: Filter) {
    || fl.kind.RequestMirror?
    || (fl.kind.RequestRedirect? && fl.redirect.Some? && fl.redirect.value.statusCode !in {Some(301), Some(302)})
  }

  lemma RequestActionFails(fl: Filter, hrNs: string)
    ensures RequestAction(fl, hrNs).None? <==> Unsupportable(fl)
  {
  }

  // A list of filters has an error if and only if one of them has.
  lemma {:induction false} RequestActionsFail(fls: seq<Filter>, hrNs: string)
    ensures RequestActions(fls, hrNs).None? <==> exists fl :: fl in fls && Unsupportable(fl)
  {
    if fls != [] {
      var init, last := fls[..|fls| - 1], fls[|fls| - 1];
      assert fls == init + [last];
      RequestActionsFail(init, hrNs);
      RequestActionFails(last, hrNs);
    }
  }

  // parseiRuleRespFilters
  function ResponseActions(fls: seq<Filter>): seq<Action> {
    if fls == [] then []
    else
      var fl := fls[|fls| - 1];
      ResponseActions(fls[..|fls| - 1]) +
      (if fl.kind.ResponseHeaderModifier? then HeaderActions(fl.responseHeaders) else [])
  }

  /******* Pools *******/

  type Weights = seq<(string, int)>

  function PoolName(ns: string, name: string): string { Slash("", Slash(ns, Slash("serviceMain", name))) }

  function BackendNs(hr: HTTPRoute, br: BackendRef): string { GetOr(br.ns, hr.ns) }

  function BackendKey(hr: HTTPRoute, br: BackendRef): string { Key(BackendNs(hr, br), br.name) }

  // An existing service the route may not refer to.
  predicate ForbiddenKey(s: Snapshot, hr: HTTPRoute, k: string) {
    k in s.services && !CanRefer(s.index, RouteId(hr), ServiceId(s.services[k]))
  }

  predicate Forbidden(s: Snapshot, hr: HTTPRoute, br: BackendRef) { ForbiddenKey(s, hr, BackendKey(hr, br)) }

  // parsePoolweight
  function PoolWeights(s: Snapshot, hr: HTTPRoute, brs: seq<BackendRef>): Weights {
    if brs == [] then []
    else
      var br := brs[|brs| - 1];
      PoolWeights(s, hr, brs[..|brs| - 1]) +
      (if Forbidden(s, hr, br) then [] else [(PoolName(BackendNs(hr, br), br.name), GetOr(br.weight, 1))])
  }

  /******* The whole program *******/

  datatype RuleProgram = RuleProgram(weights: Weights, condition: seq<Token>, actions: seq<Action>,
    responses: seq<Action>)

  datatype Program = Program(hosts: seq<Token>, rules: seq<RuleProgram>)

  function RuleOf(s: Snapshot, hr: HTTPRoute, rule: Rule): Option<RuleProgram> {
    match RequestActions(rule.filters, hr.ns)
    case None => None
    case Some(actions) =>
      Some(RuleProgram(PoolWeights(s, hr, rule.backendRefs), MatchesText(rule.matches), actions,
        ResponseActions(rule.filters)))
  }

  function RulesOf(s: Snapshot, hr: HTTPRoute, rules: seq<Rule>): Option<seq<RuleProgram>> {
    if rules == [] then Some([])
    else
      var init := RulesOf(s, hr, rules[..|rules| - 1]);
      var last := RuleOf(s, hr, rules[|rules| - 1]);
      if init.None? || last.None? then None else Some(init.value + [last.value])
  }

  // parseiRulesFrom
  function RouteProgram(s: Snapshot, hr: HTTPRoute): Option<Program> {
    match RulesOf(s, hr, hr.rules)
    case None => None
    case Some(rules) => Some(Program(HostsText(hr.hostnames), rules))
  }

  // HTTP_REQUEST: the host guard, then the rules in order; the first that holds runs and returns.
  function FirstHolding(rules: seq<RuleProgram>, req: Request): Option<nat> {
    if rules == [] then None
    else if Eval(rules[0].condition, req) == Some(true) then Some(0)
    else
      match FirstHolding(rules[1..], req)
      case None => None
      case Some(i) => Some(i + 1)
  }

  function Selected(p: Program, req: Request): Option<nat> {
    if p.hosts != [] && Eval(p.hosts, req) != Some(true) then None else FirstHolding(p.rules, req)
  }

  predicate RuleHolds(rule: Rule, req: Request) { SomeHolds(rule.matches, req) }

  // The rule the Gateway API means: the first that some match fulfils, on a listed host.
  predicate Chosen(hr: HTTPRoute, req: Request, i: nat) {
    && i < |hr.rules|
    && (hr.hostnames != [] ==> exists h :: h in hr.hostnames && req(HostMatches(h)))
    && RuleHolds(hr.rules[i], req)
    && forall j :: 0 <= j < i ==> !RuleHolds(hr.rules[j], req)
  }

  lemma {:induction false} RulesOfLength(s: Snapshot, hr: HTTPRoute, rules: seq<Rule>)
    requires RulesOf(s, hr, rules).Some?
    ensures |RulesOf(s, hr, rules).value| == |rules|
  {
    if rules != [] {
      RulesOfLength(s, hr, rules[..|rules| - 1]);
    }
  }

  lemma {:induction false} RulesOfAt(s: Snapshot, hr: HTTPRoute, rules: seq<Rule>, i: nat)
    requires RulesOf(s, hr, rules).Some? && i < |rules| == |RulesOf(s, hr, rules).value|
    ensures RuleOf(s, hr, rules[i]) == Some(RulesOf(s, hr, rules).value[i])
  {
    var init := rules[..|rules| - 1];
    RulesOfLength(s, hr, init);
    if i < |init| {
      RulesOfAt(s, hr, init, i);
    }
  }

  lemma {:induction false} FirstHoldingIs(rules: seq<RuleProgram>, req: Request)
    ensures match FirstHolding(rules, req)
      case None => forall i :: 0 <= i < |rules| ==> Eval(rules[i].condition, req) != Some(true)
      case Some(i) =>
        && i < |rules|
        && Eval(rules[i].condition, req) == Some(true)
        && forall j :: 0 <= j < i ==> Eval(rules[j].condition, req) != Some(true)
  {
    if rules != [] && Eval(rules[0].condition, req) != Some(true) {
      FirstHoldingIs(rules[1..], req);
      assert forall i :: 1 <= i < |rules| ==> rules[i] == rules[1..][i - 1];
    }
  }

  // Every rule's condition parses; otherwise the device refuses the iRule.
  predicate Loads(p: Program, req: Request) {
    forall i :: 0 <= i < |p.rules| ==> Eval(p.rules[i].condition, req).Some?
  }

  predicate AllRulesCompilable(hr: HTTPRoute) { forall rule :: rule in hr.rules ==> AllCompilable(rule.matches) }

  lemma RuleCompiles(s: Snapshot, hr: HTTPRoute, req: Request, i: nat)
    requires RouteProgram(s, hr).Some? && i < |hr.rules|
    ensures |RouteProgram(s, hr).value.rules| == |hr.rules|
    ensures var condition := RouteProgram(s, hr).value.rules[i].condition;
      Eval(condition, req) == if AllCompilable(hr.rules[i].matches) then Some(RuleHolds(hr.rules[i], req)) else None
  {
    RulesOfLength(s, hr, hr.rules);
    RulesOfAt(s, hr, hr.rules, i);
    ConditionCompiles(hr.rules[i].matches, req);
  }

  // Where the conditions mean what their rules mean, so does the program.
  lemma SelectedIsChosen(p: Program, hr: HTTPRoute, req: Request)
    requires p.hosts == HostsText(hr.hostnames) && |p.rules| == |hr.rules|
    requires forall i :: 0 <= i < |hr.rules| ==> Eval(p.rules[i].condition, req) == Some(RuleHolds(hr.rules[i], req))
    ensures match Selected(p, req)
      case None => forall i: nat :: !Chosen(hr, req, i)
      case Some(i) => Chosen(hr, req, i)
  {
    FirstHoldingIs(p.rules, req);
    if hr.hostnames != [] {
      HostsCompile(hr.hostnames, req);
      assert p.hosts != [] by { EvalOneTerm([], req); }
    }
  }

  // The emitted program loads if and only if every rule's matches compile. Then, for every request,
  // it runs the rule that the route means.
  lemma RouteCompiles(s: Snapshot, hr: HTTPRoute, req: Request)
    requires RouteProgram(s, hr).Some?
    ensures Loads(RouteProgram(s, hr).value, req) <==> AllRulesCompilable(hr)
    ensures AllRulesCompilable(hr) ==>
      match Selected(RouteProgram(s, hr).value, req)
      case None => forall i: nat :: !Chosen(hr, req, i)
      case Some(i) => Chosen(hr, req, i)
  {
    var p := RouteProgram(s, hr).value;
    RulesOfLength(s, hr, hr.rules);
    forall i | 0 <= i < |hr.rules|
      ensures Eval(p.rules[i].condition, req) ==
        if AllCompilable(hr.rules[i].matches) then Some(RuleHolds(hr.rules[i], req)) else None
    {
      RuleCompiles(s, hr, req, i);
    }
    if AllRulesCompilable(hr) {
      SelectedIsChosen(p, hr, req);
    }
  }
}
