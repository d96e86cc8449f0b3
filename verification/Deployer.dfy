/** The AS3 deployer: merge the queued requests, leave out tenants already deployed, send the
    rest to every BIG-IP, and remember what was deployed. */
module Deployer {
  import opened Common
  import opened Rendering
  import opened AS3

  predicate IsTenant(e: Entry) { e.Object? && e.class_ == Some("Tenant") }

  // The tenants of a declaration. Sending a declaration replaces these and keeps the others.
  function Tenants(d: Declaration): Declaration {
    map k | k in d && IsTenant(d[k]) :: d[k]
  }

  // One BIG-IP's answer. On failure its declared tenants may be in any state.
  datatype Outcome = Success | Failure(left: Declaration)

  type Device = Declaration

  function Sent(device: Device, body: Declaration, outcome: Outcome): Device {
    match outcome
    case Success => device + Tenants(body)
    case Failure(left) =>
      (device - Tenants(body).Keys) + (map k | k in left && k in Tenants(body) :: left[k])
  }

  datatype Response = Response(body: Declaration, ok: bool)

  datatype State = State(
    queue: seq<Declaration>,
    tenantCache: Declaration,
    devices: seq<Device>,
    responses: seq<Response>)

  // Later requests override earlier ones, key by key.
  function Merge(requests: seq<Declaration>): Declaration {
    if requests == [] then map[] else Merge(requests[..|requests| - 1]) + requests[|requests| - 1]
  }

  predicate Deployed(cache: Declaration, k: string, e: Entry) { IsTenant(e) && k in cache && cache[k] == e }

  function Suppress(body: Declaration, cache: Declaration): Declaration {
    map k | k in body && !Deployed(cache, k, body[k]) :: body[k]
  }

  function SendAll(devices: seq<Device>, body: Declaration, outcomes: seq<Outcome>): (r: seq<Device>)
    requires |outcomes| == |devices|
    ensures |r| == |devices| && forall i :: 0 <= i < |devices| ==> r[i] == Sent(devices[i], body, outcomes[i])
  {
    seq(|devices|, i requires 0 <= i < |devices| => Sent(devices[i], body, outcomes[i]))
  }

  predicate AllOk(outcomes: seq<Outcome>) { forall o :: o in outcomes ==> o.Success? }

  function Responses(body: Declaration, outcomes: seq<Outcome>): (r: seq<Response>)
    ensures |r| == |outcomes| && forall i :: 0 <= i < |outcomes| ==> r[i] == Response(body, outcomes[i].Success?)
  {
    seq(|outcomes|, i requires 0 <= i < |outcomes| => Response(body, outcomes[i].Success?))
  }

  // handleNext: the first request and the n that wait behind it make one batch.
  function Handle(st: State, n: nat, outcomes: seq<Outcome>): State
    requires n < |st.queue| && |outcomes| == |st.devices|
  {
    var body := Suppress(Merge(st.queue[..n + 1]), st.tenantCache);
    var rest := st.(queue := st.queue[n + 1..]);
    if Tenants(body) == map[] then rest
    else
      rest.(
        devices := SendAll(st.devices, body, outcomes),
        tenantCache := Remembered(st.tenantCache, body, AllOk(outcomes)),
        responses := st.responses + Responses(body, outcomes))
  }

  class AS3Deployer {
    var pendingDeploys: seq<Declaration>
    var doneDeploys: seq<Response>
    var tenantCache: Declaration
    var bigips: seq<Device>

    ghost function View(): State
      reads this
    {
      State(pendingDeploys, tenantCache, bigips, doneDeploys)
    }

    constructor (devices: seq<Device>)
      ensures View() == State([], map[], devices, [])
    {
      pendingDeploys, doneDeploys, tenantCache, bigips := [], [], map[], devices;
    }

    method Add(request: Declaration)
      modifies `pendingDeploys
      ensures View() == old(View()).(queue := old(pendingDeploys) + [request])
    {
      pendingDeploys := pendingDeploys + [request];
    }

    // The queue blocks while it is empty; n is its length once the first request is taken.
    // outcomes says how the BIG-IPs answer.
    method HandleNext(n: nat, outcomes: seq<Outcome>)
      requires n < |pendingDeploys| && |outcomes| == |bigips|
      modifies this
      ensures View() == Handle(old(View()), n, outcomes)
    {
      var body := Combine(n);
      body := Eliminate(body);
      var found := false;
      var left := body.Keys;
      while left != {} && !found
        invariant left <= body.Keys
        invariant !found ==> forall k :: k in body && k !in left ==> !IsTenant(body[k])
        invariant found ==> exists k :: k in body && IsTenant(body[k])
        decreases left, !found
      {
        var k :| k in left;
        left := left - {k};
        found := IsTenant(body[k]);
      }
      assert found <==> Tenants(body) != map[] by {
        if found {
          var k :| k in body && IsTenant(body[k]);
          assert k in Tenants(body);
        }
      }
      if found {
        Deploy(body, outcomes);
        Remember(body, AllOk(outcomes));
      }
    }

    // Takes the batch off the queue and merges it.
    method Combine(n: nat) returns (body: Declaration)
      requires n < |pendingDeploys|
      modifies `pendingDeploys
      ensures body == Merge(old(pendingDeploys)[..n + 1])
      ensures pendingDeploys == old(pendingDeploys)[n + 1..]
    {
      ghost var all := pendingDeploys;
      body := pendingDeploys[0];
      pendingDeploys := pendingDeploys[1..];
      assert all[..1][..0] == [] && Merge(all[..1]) == map[] + all[0] == all[0];
      for i := 0 to n
        invariant pendingDeploys == all[i + 1..]
        invariant body == Merge(all[..i + 1])
      {
        var m := pendingDeploys[0];
        pendingDeploys := pendingDeploys[1..];
        body := MergeOne(body, m);
        assert all[..i + 2][..i + 1] == all[..i + 1];
      }
    }

    static method MergeOne(body0: Declaration, m: Declaration) returns (body: Declaration)
      ensures body == body0 + m
    {
      body := body0;
      var left := m.Keys;
      while left != {}
        invariant left <= m.Keys && body == body0 + (m - left)
        decreases left
      {
        var k :| k in left;
        left := left - {k};
        body := body[k := m[k]];
      }
      assert m - left == m;
    }

    // Deletes the tenants that are deployed already.
    method Eliminate(body0: Declaration) returns (body: Declaration)
      ensures body == Suppress(body0, tenantCache)
    {
      body := body0;
      var left := body0.Keys;
      while left != {}
        invariant left <= body0.Keys
        invariant body == map k | k in body0 && (k in left || !Deployed(tenantCache, k, body0[k])) :: body0[k]
        decreases left
      {
        var k :| k in left;
        left := left - {k};
        if IsTenant(body0[k]) && k in tenantCache && tenantCache[k] == body0[k] {
          body := body - {k};
        }
      }
    }

    // Sends the body to every BIG-IP in turn.
    method Deploy(body: Declaration, outcomes: seq<Outcome>)
      requires |outcomes| == |bigips|
      modifies `bigips, `doneDeploys
      ensures bigips == SendAll(old(bigips), body, outcomes)
      ensures doneDeploys == old(doneDeploys) + Responses(body, outcomes)
    {
      ghost var answers: seq<Response> := [];
      for i := 0 to |bigips|
        invariant |bigips| == |old(bigips)| && |answers| == i
        invariant forall j :: 0 <= j < i ==> bigips[j] == Sent(old(bigips)[j], body, outcomes[j])
        invariant forall j :: i <= j < |bigips| ==> bigips[j] == old(bigips)[j]
        invariant forall j :: 0 <= j < i ==> answers[j] == Response(body, outcomes[j].Success?)
        invariant doneDeploys == old(doneDeploys) + answers
      {
        var response := Response(body, outcomes[i].Success?);
        bigips := bigips[i := Sent(bigips[i], body, outcomes[i])];
        assert old(doneDeploys) + answers + [response] == old(doneDeploys) + (answers + [response]);
        doneDeploys := doneDeploys + [response];
        answers := answers + [response];
      }
      assert answers == Responses(body, outcomes);
    }

    // After the elimination no tenant of the body is in the cache with the same value, so the
    // comparison of the source always goes into the branch.
    method Remember(body: Declaration, ok: bool)
      requires forall k :: k in body ==> !Deployed(tenantCache, k, body[k])
      modifies `tenantCache
      ensures tenantCache == Remembered(old(tenantCache), body, ok)
    {
      var left := body.Keys;
      while left != {}
        invariant left <= body.Keys
        invariant forall k :: k in left ==> Lookup(tenantCache, k) == Lookup(old(tenantCache), k)
        invariant tenantCache == if ok then old(tenantCache) + (Tenants(body) - left)
                                 else old(tenantCache) - (Tenants(body) - left).Keys
        decreases left
      {
        var k :| k in left;
        left := left - {k};
        var t := body[k];
        assert !Deployed(old(tenantCache), k, t);
        if IsTenant(t) && (k !in tenantCache || tenantCache[k] != t) {
          if ok {
            tenantCache := tenantCache[k := t];
          } else {
            tenantCache := tenantCache - {k};
          }
        }
      }
      assert Tenants(body) - left == Tenants(body);
    }
  }

  /******* The cache is never wrong *******/

  // The device holds every tenant of the cache as it is there.
  predicate Agrees(cache: Declaration, d: Device) {
    forall k :: k in cache ==> k in d && d[k] == cache[k]
  }

  predicate CacheSound(st: State) {
    forall d :: d in st.devices ==> Agrees(st.tenantCache, d)
  }

  function Remembered(cache: Declaration, body: Declaration, ok: bool): Declaration {
    if ok then cache + Tenants(body) else cache - Tenants(body).Keys
  }

  lemma SentAgrees(cache: Declaration, d: Device, body: Declaration, outcome: Outcome, ok: bool)
    requires Agrees(cache, d) && (ok ==> outcome.Success?)
    ensures Agrees(Remembered(cache, body, ok), Sent(d, body, outcome))
  {
  }

  // Whatever is queued and however the BIG-IPs answer.
  lemma HandleKeepsCacheSound(st: State, n: nat, outcomes: seq<Outcome>)
    requires n < |st.queue| && |outcomes| == |st.devices| && CacheSound(st)
    ensures CacheSound(Handle(st, n, outcomes))
  {
    var body := Suppress(Merge(st.queue[..n + 1]), st.tenantCache);
    if Tenants(body) != map[] {
      var devices := SendAll(st.devices, body, outcomes);
      forall i | 0 <= i < |devices|
        ensures Agrees(Remembered(st.tenantCache, body, AllOk(outcomes)), devices[i])
      {
        assert outcomes[i] in outcomes && st.devices[i] in st.devices;
        SentAgrees(st.tenantCache, st.devices[i], body, outcomes[i], AllOk(outcomes));
      }
    }
  }

  datatype Event = Enqueue(request: Declaration) | Batch(n: nat, outcomes: seq<Outcome>)

  predicate Enabled(st: State, e: Event) {
    e.Batch? ==> e.n < |st.queue| && |e.outcomes| == |st.devices|
  }

  function Step(st: State, e: Event): State
    requires Enabled(st, e)
  {
    match e
    case Enqueue(request) => st.(queue := st.queue + [request])
    case Batch(n, outcomes) => Handle(st, n, outcomes)
  }

  // states is a run: each state follows from the one before.
  predicate IsRun(states: seq<State>, events: seq<Event>) {
    && |states| == |events| + 1
    && forall i :: 0 <= i < |events| ==> Enabled(states[i], events[i]) && states[i + 1] == Step(states[i], events[i])
  }

  // Over every run from an empty cache, with any requests and any failures.
  lemma {:induction false} CacheSoundOverRuns(states: seq<State>, events: seq<Event>)
    requires IsRun(states, events) && states[0].tenantCache == map[]
    ensures CacheSound(states[|events|])
    decreases |events|
  {
    if events != [] {
      var n := |events| - 1;
      CacheSoundOverRuns(states[..n + 1], events[..n]);
      if events[n].Batch? {
        HandleKeepsCacheSound(states[n], events[n].n, events[n].outcomes);
      }
    }
  }

  /******* What is sent *******/

  // The merged batch carries a tenant k.
  predicate Carries(st: State, e: Event, k: string) {
    e.Batch? && e.n < |st.queue| && k in Tenants(Merge(st.queue[..e.n + 1]))
  }

  predicate Sends(st: State, e: Event, k: string) {
    e.Batch? && e.n < |st.queue| && k in Tenants(Suppress(Merge(st.queue[..e.n + 1]), st.tenantCache))
  }

  // After a batch that any BIG-IP failed, each of its tenants is sent again with the next batch
  // that carries it, even unchanged, whatever is queued or sent in between.
  lemma {:induction false} FailureIsRetried(states: seq<State>, events: seq<Event>, k: string)
    requires IsRun(states, events) && |events| >= 1
    requires Sends(states[0], events[0], k) && !AllOk(events[0].outcomes)
    requires forall i :: 1 <= i < |events| ==> !Carries(states[i], events[i], k)
    ensures k !in states[|events|].tenantCache
    ensures forall e: Event :: Carries(states[|events|], e, k) ==> Sends(states[|events|], e, k)
    decreases |events|
  {
    var n := |events| - 1;
    if n > 0 {
      FailureIsRetried(states[..n + 1], events[..n], k);
      assert !Carries(states[n], events[n], k);
    }
  }

  function AddedBy(e: Event): seq<Declaration> { if e.Enqueue? then [e.request] else [] }

  function TakenBy(st: State, e: Event): seq<Declaration> {
    if e.Batch? && e.n < |st.queue| then st.queue[..e.n + 1] else []
  }

  // What the responses of a batch report: the sent body once per BIG-IP.
  function ReportedBy(st: State, e: Event): seq<Declaration> {
    if !e.Batch? || e.n >= |st.queue| then []
    else
      var body := Suppress(Merge(st.queue[..e.n + 1]), st.tenantCache);
      if Tenants(body) == map[] then [] else seq(|st.devices|, i => body)
  }

  function Bodies(responses: seq<Response>): seq<Declaration> {
    seq(|responses|, i requires 0 <= i < |responses| => responses[i].body)
  }

  // What the first n events add, take and report.
  function Added(events: seq<Event>, n: nat): seq<Declaration>
    requires n <= |events|
  {
    if n == 0 then [] else Added(events, n - 1) + AddedBy(events[n - 1])
  }

  function Taken(states: seq<State>, events: seq<Event>, n: nat): seq<Declaration>
    requires n <= |events| <= |states|
  {
    if n == 0 then [] else Taken(states, events, n - 1) + TakenBy(states[n - 1], events[n - 1])
  }

  function Reported(states: seq<State>, events: seq<Event>, n: nat): seq<Declaration>
    requires n <= |events| <= |states|
  {
    if n == 0 then [] else Reported(states, events, n - 1) + ReportedBy(states[n - 1], events[n - 1])
  }

  lemma StepConserves(st: State, e: Event)
    requires Enabled(st, e)
    ensures st.queue + AddedBy(e) == TakenBy(st, e) + Step(st, e).queue
    ensures Bodies(Step(st, e).responses) == Bodies(st.responses) + ReportedBy(st, e)
  {
    match e {
      case Enqueue(request) => assert st.queue + [request] == [] + Step(st, e).queue;
      case Batch(n, outcomes) => assert st.queue + [] == st.queue[..n + 1] + st.queue[n + 1..];
    }
  }

  lemma RunConserves(states: seq<State>, events: seq<Event>, i: nat)
    requires IsRun(states, events) && i < |events|
    ensures states[i].queue + AddedBy(events[i]) == TakenBy(states[i], events[i]) + states[i + 1].queue
    ensures Bodies(states[i + 1].responses) == Bodies(states[i].responses) + ReportedBy(states[i], events[i])
  {
    assert states[i + 1] == Step(states[i], events[i]);
    StepConserves(states[i], events[i]);
  }

  lemma Joined<T>(queue: seq<T>, added: seq<T>, taken: seq<T>, middle: seq<T>, more: seq<T>, next: seq<T>, left: seq<T>)
    requires queue + added == taken + middle && middle + more == next + left
    ensures queue + (added + more) == taken + next + left
  {
    assert queue + (added + more) == (queue + added) + more;
    assert taken + (middle + more) == (taken + middle) + more;
    assert taken + (next + left) == taken + next + left;
  }

  // Over every run each request is taken once, in the order added,
  lemma {:induction false} RequestsConserved(states: seq<State>, events: seq<Event>, n: nat)
    requires IsRun(states, events) && n <= |events|
    ensures states[0].queue + Added(events, n) == Taken(states, events, n) + states[n].queue
  {
    if n > 0 {
      var st, e := states[n - 1], events[n - 1];
      RequestsConserved(states, events, n - 1);
      RunConserves(states, events, n - 1);
      Joined(states[0].queue, Added(events, n - 1), Taken(states, events, n - 1), st.queue,
             AddedBy(e), TakenBy(st, e), states[n].queue);
    }
  }

  // and each sent body, and nothing else, is reported once per BIG-IP.
  lemma {:induction false} SendsReported(states: seq<State>, events: seq<Event>, n: nat)
    requires IsRun(states, events) && n <= |events|
    ensures Bodies(states[n].responses) == Bodies(states[0].responses) + Reported(states, events, n)
  {
    if n > 0 {
      var st, e := states[n - 1], events[n - 1];
      SendsReported(states, events, n - 1);
      RunConserves(states, events, n - 1);
      Joined(Bodies(states[0].responses), Reported(states, events, n - 1), [], Bodies(st.responses),
             ReportedBy(st, e), [], Bodies(states[n].responses));
    }
  }

  /******* Batching and suppression refine one deployment per request *******/

  // Every request sent alone, in order, with no cache.
  function SendEach(device: Device, requests: seq<Declaration>): Device {
    if requests == [] then device
    else SendEach(device, requests[..|requests| - 1]) + Tenants(requests[|requests| - 1])
  }

  // No request hides an earlier request's tenant behind a value that is no tenant.
  ghost predicate Unmasked(requests: seq<Declaration>) {
    forall k :: k in Merge(requests) && !IsTenant(Merge(requests)[k]) ==>
      forall r :: r in requests && k in r ==> !IsTenant(r[k])
  }

  lemma {:induction false} SendEachFrom(device: Device, requests: seq<Declaration>)
    ensures SendEach(device, requests) == device + SendEach(map[], requests)
  {
    if requests != [] {
      SendEachFrom(device, requests[..|requests| - 1]);
    }
  }

  // The tenants of all requests, each with its last tenant value.
  lemma {:induction false} SendEachIs(requests: seq<Declaration>, k: string)
    ensures k in SendEach(map[], requests) <==> exists r :: r in requests && k in r && IsTenant(r[k])
    ensures k in Merge(requests) && IsTenant(Merge(requests)[k]) ==>
      Lookup(SendEach(map[], requests), k) == Some(Merge(requests)[k])
  {
    if requests != [] {
      var init, last := requests[..|requests| - 1], requests[|requests| - 1];
      assert requests == init + [last];
      SendEachIs(init, k);
    }
  }

  lemma {:induction false} MergeKeys(requests: seq<Declaration>, k: string)
    ensures k in Merge(requests) <==> exists r :: r in requests && k in r
  {
    if requests != [] {
      var init, last := requests[..|requests| - 1], requests[|requests| - 1];
      assert requests == init + [last];
      MergeKeys(init, k);
    }
  }

  lemma UnmaskedMerge(requests: seq<Declaration>)
    requires Unmasked(requests)
    ensures Tenants(Merge(requests)) == SendEach(map[], requests)
  {
    var each := SendEach(map[], requests);
    forall k
      ensures k in each <==> k in Tenants(Merge(requests))
      ensures k in each ==> each[k] == Tenants(Merge(requests))[k]
    {
      SendEachIs(requests, k);
      MergeKeys(requests, k);
    }
  }

  lemma MaskedDiffers(requests: seq<Declaration>)
    requires !Unmasked(requests)
    ensures Tenants(Merge(requests)) != SendEach(map[], requests)
  {
    var k, r :| k in Merge(requests) && !IsTenant(Merge(requests)[k]) && r in requests && k in r && IsTenant(r[k]);
    SendEachIs(requests, k);
  }

  // A merged batch leaves every device as its requests sent one by one, if and only if no request
  // masks an earlier tenant.
  lemma MergeRefinesIff(requests: seq<Declaration>)
    ensures Unmasked(requests) <==>
      forall device: Device :: device + Tenants(Merge(requests)) == SendEach(device, requests)
  {
    if Unmasked(requests) {
      UnmaskedMerge(requests);
      forall device: Device ensures device + Tenants(Merge(requests)) == SendEach(device, requests) {
        SendEachFrom(device, requests);
      }
    } else {
      MaskedDiffers(requests);
      var device: Device := map[];
      assert device + Tenants(Merge(requests)) == Tenants(Merge(requests));
    }
  }

  lemma SuppressedSame(st: State, n: nat, outcomes: seq<Outcome>, i: nat)
    requires n < |st.queue| && |outcomes| == |st.devices| && CacheSound(st) && AllOk(outcomes) && i < |st.devices|
    ensures Handle(st, n, outcomes).devices[i] == st.devices[i] + Tenants(Merge(st.queue[..n + 1]))
  {
    var merged := Merge(st.queue[..n + 1]);
    var body := Suppress(merged, st.tenantCache);
    var d := st.devices[i];
    assert d in st.devices && outcomes[i] in outcomes;
    assert d + Tenants(body) == d + Tenants(merged);
    if Tenants(body) == map[] { assert d + map[] == d; }
  }

  lemma BatchRefines(st: State, n: nat, outcomes: seq<Outcome>)
    requires n < |st.queue| && |outcomes| == |st.devices| && CacheSound(st)
    requires AllOk(outcomes) && Unmasked(st.queue[..n + 1])
    ensures forall i :: 0 <= i < |st.devices| ==>
      Handle(st, n, outcomes).devices[i] == SendEach(st.devices[i], st.queue[..n + 1])
  {
    MergeRefinesIff(st.queue[..n + 1]);
    forall i | 0 <= i < |st.devices|
      ensures Handle(st, n, outcomes).devices[i] == SendEach(st.devices[i], st.queue[..n + 1])
    {
      SuppressedSame(st, n, outcomes, i);
    }
  }

  // The batches of a queue, each of sizes[j] + 1 requests, are handled one after the other.
  function HandleAll(st: State, sizes: seq<nat>): State
    requires Sizes(sizes) <= |st.queue|
    decreases |sizes|
  {
    if sizes == [] then st
    else HandleAll(Handle(st, sizes[0], Succeed(|st.devices|)), sizes[1..])
  }

  function Succeed(n: nat): (r: seq<Outcome>)
    ensures |r| == n && AllOk(r)
  {
    seq(n, _ => Success)
  }

  function Sizes(sizes: seq<nat>): nat {
    if sizes == [] then 0 else sizes[0] + 1 + Sizes(sizes[1..])
  }

  lemma {:induction false} SendEachSplit(device: Device, a: seq<Declaration>, b: seq<Declaration>)
    ensures SendEach(device, a + b) == SendEach(SendEach(device, a), b)
    decreases |b|
  {
    if b == [] {
      assert a + b == a;
    } else {
      var init, last := b[..|b| - 1], b[|b| - 1];
      assert (a + b)[..|a + b| - 1] == a + init;
      SendEachSplit(device, a, init);
    }
  }

  // No request of the queue masks a tenant of another.
  ghost predicate Uniform(requests: seq<Declaration>) {
    forall a, b, k :: a in requests && b in requests && k in a && k in b ==> (IsTenant(a[k]) <==> IsTenant(b[k]))
  }

  lemma {:induction false} MergeFrom(requests: seq<Declaration>, k: string)
    requires k in Merge(requests)
    ensures exists r :: r in requests && k in r && r[k] == Merge(requests)[k]
  {
    var init, last := requests[..|requests| - 1], requests[|requests| - 1];
    assert requests == init + [last];
    if k !in last { MergeFrom(init, k); }
  }

  lemma UniformUnmasked(requests: seq<Declaration>, part: seq<Declaration>)
    requires Uniform(requests) && forall r :: r in part ==> r in requests
    ensures Unmasked(part)
  {
    forall k | k in Merge(part) && !IsTenant(Merge(part)[k])
      ensures forall r :: r in part && k in r ==> !IsTenant(r[k])
    {
      MergeFrom(part, k);
    }
  }

  // In no batch does a request mask a tenant of another.
  ghost predicate BatchesUnmasked(queue: seq<Declaration>, sizes: seq<nat>)
    requires Sizes(sizes) <= |queue|
    decreases |sizes|
  {
    sizes == [] ||
    (Unmasked(queue[..sizes[0] + 1]) && BatchesUnmasked(queue[sizes[0] + 1..], sizes[1..]))
  }

  lemma {:induction false} UniformBatches(queue: seq<Declaration>, sizes: seq<nat>)
    requires Uniform(queue) && Sizes(sizes) <= |queue|
    ensures BatchesUnmasked(queue, sizes)
    decreases |sizes|
  {
    if sizes != [] {
      UniformUnmasked(queue, queue[..sizes[0] + 1]);
      UniformBatches(queue[sizes[0] + 1..], sizes[1..]);
    }
  }

  // For any queue and any split of it into batches without masking, when the BIG-IPs succeed: every
  // device ends as if each request had been sent to it alone, in order, with no cache.
  lemma {:induction false} BatchingRefines(st: State, sizes: seq<nat>)
    requires CacheSound(st) && Sizes(sizes) == |st.queue| && BatchesUnmasked(st.queue, sizes)
    ensures var st' := HandleAll(st, sizes);
      && st'.queue == []
      && |st'.devices| == |st.devices|
      && forall i :: 0 <= i < |st.devices| ==> st'.devices[i] == SendEach(st.devices[i], st.queue)
    decreases |sizes|
  {
    if sizes != [] {
      var n, outcomes := sizes[0], Succeed(|st.devices|);
      var next := Handle(st, n, outcomes);
      HandleKeepsCacheSound(st, n, outcomes);
      assert next.queue == st.queue[n + 1..];
      BatchRefines(st, n, outcomes);
      BatchingRefines(next, sizes[1..]);
      assert st.queue[..n + 1] + st.queue[n + 1..] == st.queue;
      forall i | 0 <= i < |st.devices|
        ensures HandleAll(st, sizes).devices[i] == SendEach(st.devices[i], st.queue)
      {
        SendEachSplit(st.devices[i], st.queue[..n + 1], st.queue[n + 1..]);
      }
    }
  }

  /******* Exactly when batching refines *******/

  // Merging without a cache: one deployment per batch.
  function SendBatches(device: Device, queue: seq<Declaration>, sizes: seq<nat>): Device
    requires Sizes(sizes) <= |queue|
    decreases |sizes|
  {
    if sizes == [] then device
    else SendBatches(device + Tenants(Merge(queue[..sizes[0] + 1])), queue[sizes[0] + 1..], sizes[1..])
  }

  // Leaving out what the cache has never shows, masked or not.
  lemma {:induction false} SuppressionUnseen(st: State, sizes: seq<nat>, i: nat)
    requires CacheSound(st) && Sizes(sizes) <= |st.queue| && i < |st.devices|
    ensures |HandleAll(st, sizes).devices| == |st.devices|
    ensures HandleAll(st, sizes).devices[i] == SendBatches(st.devices[i], st.queue, sizes)
    decreases |sizes|
  {
    if sizes != [] {
      var outcomes := Succeed(|st.devices|);
      HandleKeepsCacheSound(st, sizes[0], outcomes);
      SuppressedSame(st, sizes[0], outcomes, i);
      SuppressionUnseen(Handle(st, sizes[0], outcomes), sizes[1..], i);
    }
  }

  // The last tenant entry of k in the queue, and the last that some batch does not hide.
  function LastTenant(queue: seq<Declaration>, k: string): Option<Entry> { Lookup(SendEach(map[], queue), k) }

  function LastShown(queue: seq<Declaration>, sizes: seq<nat>, k: string): Option<Entry>
    requires Sizes(sizes) <= |queue|
    decreases |sizes|
  {
    if sizes == [] then None
    else
      var later := LastShown(queue[sizes[0] + 1..], sizes[1..], k);
      if later.Some? then later else Lookup(Tenants(Merge(queue[..sizes[0] + 1])), k)
  }

  lemma {:induction false} SendBatchesShow(device: Device, queue: seq<Declaration>, sizes: seq<nat>, k: string)
    requires Sizes(sizes) <= |queue|
    ensures Lookup(SendBatches(device, queue, sizes), k) ==
      if LastShown(queue, sizes, k).Some? then LastShown(queue, sizes, k) else Lookup(device, k)
    decreases |sizes|
  {
    if sizes != [] {
      SendBatchesShow(device + Tenants(Merge(queue[..sizes[0] + 1])), queue[sizes[0] + 1..], sizes[1..], k);
    }
  }

  // Batches leave each tenant's last entry in place: none is hidden, or what is left is the same.
  ghost predicate LastsShown(queue: seq<Declaration>, sizes: seq<nat>)
    requires Sizes(sizes) <= |queue|
  {
    forall k :: LastShown(queue, sizes, k) == LastTenant(queue, k)
  }

  lemma BatchesAlike(device: Device, queue: seq<Declaration>, sizes: seq<nat>)
    requires Sizes(sizes) <= |queue| && LastsShown(queue, sizes)
    ensures SendBatches(device, queue, sizes) == SendEach(device, queue)
  {
    var a, b := SendBatches(device, queue, sizes), SendEach(device, queue);
    SendEachFrom(device, queue);
    forall k ensures Lookup(a, k) == Lookup(b, k) {
      SendBatchesShow(device, queue, sizes, k);
      assert LastShown(queue, sizes, k) == LastTenant(queue, k);
    }
    SameLookups(a, b);
  }

  lemma SameLookups(a: Device, b: Device)
    requires forall k :: Lookup(a, k) == Lookup(b, k)
    ensures a == b
  {
    forall k ensures k in a <==> k in b ensures k in a ==> a[k] == b[k] {
      assert Lookup(a, k) == Lookup(b, k);
    }
  }

  // For any queue and any split into batches, when the BIG-IPs succeed: every device ends as if each
  // request had been sent alone, whatever it held before, if and only if of each tenant the last
  // entry that a batch shows is the last one queued.
  lemma BatchingRefinesIff(queue: seq<Declaration>, sizes: seq<nat>)
    requires Sizes(sizes) == |queue|
    ensures (forall device: Device :: SendBatches(device, queue, sizes) == SendEach(device, queue)) <==>
      LastsShown(queue, sizes)
  {
    if LastsShown(queue, sizes) {
      forall device: Device ensures SendBatches(device, queue, sizes) == SendEach(device, queue) {
        BatchesAlike(device, queue, sizes);
      }
    } else {
      var k :| LastShown(queue, sizes, k) != LastTenant(queue, k);
      SendBatchesShow(map[], queue, sizes, k);
      assert Lookup(SendBatches(map[], queue, sizes), k) != Lookup(SendEach(map[], queue), k);
    }
  }

  /******* Declarations the controller queues *******/

  // r was made by RestToAS3 of configurations of which none is named like a header field.
  ghost predicate Ordinary(r: Declaration) {
    exists cfgs :: Converts(cfgs, r) && cfgs.Keys !! HEADER.Keys
  }

  lemma OrdinaryEntries(r: Declaration, k: string)
    requires Ordinary(r) && k in r
    ensures IsTenant(r[k]) <==> k !in HEADER
  {
    var cfgs :| Converts(cfgs, r) && cfgs.Keys !! HEADER.Keys;
  }

  // A queue of these has no masking, however it is split into batches.
  lemma OrdinaryUnmasked(queue: seq<Declaration>, sizes: seq<nat>)
    requires (forall r :: r in queue ==> Ordinary(r)) && Sizes(sizes) <= |queue|
    ensures BatchesUnmasked(queue, sizes)
  {
    OrdinaryUniform(queue);
    UniformBatches(queue, sizes);
  }

  lemma OrdinaryUniform(requests: seq<Declaration>)
    requires forall r :: r in requests ==> Ordinary(r)
    ensures Uniform(requests)
  {
    forall a, b, k | a in requests && b in requests && k in a && k in b
      ensures IsTenant(a[k]) <==> IsTenant(b[k])
    {
      OrdinaryEntries(a, k);
      OrdinaryEntries(b, k);
    }
  }

  // A GatewayClass may be named "class". Any later request in its batch then hides its tenant:
  // merged, it is not deployed; sent alone, it is.
  lemma TenantNamedClassIsHidden(cfgs: map<string, Config>, a: Declaration, b: Declaration)
    requires Converts(cfgs, a) && "class" in cfgs && Ordinary(b)
    ensures !Unmasked([a, b])
    ensures "class" !in Tenants(Merge([a, b])) && "class" in SendEach(map[], [a, b])
  {
    var requests := [a, b];
    assert requests[..1] == [a] && requests[..1][..0] == [] && [a][..0] == [];
    assert Merge([a]) == map[] + a && Merge(requests) == Merge([a]) + b;
    OrdinaryEntries(b, "class");
    SendEachIs(requests, "class");
    assert a in requests && "class" in a && IsTenant(a["class"]);
  }
}
