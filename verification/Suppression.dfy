/** What is sent over runs of the deployer, said in terms of the merged batches, the BIG-IPs' answers
    and the responses: a tenant is sent unless the last batch that carried it had the same value and
    reached every BIG-IP. */
module Suppression {
  import opened Common
  import opened AS3
  import opened Deployer

  /******* What can be seen of a run *******/

  // A run from an empty cache, with at least one BIG-IP: without one there are no responses.
  predicate SeenRun(states: seq<State>, events: seq<Event>) {
    IsRun(states, events) && states[0].tenantCache == map[] && states[0].devices != []
  }

  // The tenant that the merged batch of event i carries.
  function Carried(states: seq<State>, events: seq<Event>, i: nat, k: string): Option<Entry>
    requires i < |events| < |states|
  {
    if events[i].Batch? && events[i].n < |states[i].queue| then
      var merged := Merge(states[i].queue[..events[i].n + 1]);
      if k in merged && merged[k].Object? && merged[k].class_ == Some("Tenant") then Some(merged[k]) else None
    else None
  }

  // The body that event i reports, if it adds responses.
  function SentBody(states: seq<State>, i: nat): Option<Declaration>
    requires i + 1 < |states|
  {
    if |states[i].responses| < |states[i + 1].responses|
    then Some(states[i + 1].responses[|states[i].responses|].body) else None
  }

  predicate SentAt(states: seq<State>, i: nat, k: string)
    requires i + 1 < |states|
  {
    SentBody(states, i).Some? && k in SentBody(states, i).value
  }

  predicate SomeFailure(e: Event) { e.Batch? && exists o :: o in e.outcomes && o.Failure? }

  // The last event before j whose batch carried the tenant.
  function LastCarrier(states: seq<State>, events: seq<Event>, j: nat, k: string): (i: Option<nat>)
    requires j <= |events| < |states|
    ensures i.Some? ==> i.value < j && Carried(states, events, i.value, k).Some?
    ensures forall m :: (if i.Some? then i.value + 1 else 0) <= m < j ==> Carried(states, events, m, k).None?
  {
    if j == 0 then None
    else if Carried(states, events, j - 1, k).Some? then Some(j - 1)
    else LastCarrier(states, events, j - 1, k)
  }

  // The value that is known to be on every BIG-IP: of the last batch that carried the tenant, unless
  // it was sent then and failed on one.
  function Known(states: seq<State>, events: seq<Event>, j: nat, k: string): Option<Entry>
    requires j <= |events| < |states|
  {
    match LastCarrier(states, events, j, k)
    case None => None
    case Some(i) => if SentAt(states, i, k) && SomeFailure(events[i]) then None else Carried(states, events, i, k)
  }

  /******* It is what the cache holds *******/

  lemma DevicesKept(states: seq<State>, events: seq<Event>, j: nat)
    requires SeenRun(states, events) && j <= |events|
    ensures states[j].devices != []
    decreases j
  {
    if j > 0 {
      DevicesKept(states, events, j - 1);
      assert states[j - 1 + 1] == Step(states[j - 1], events[j - 1]);
    }
  }

  // A batch with at least one BIG-IP: what it sends, reports and remembers of a tenant.
  lemma BatchEffect(st: State, n: nat, outcomes: seq<Outcome>, k: string)
    requires n < |st.queue| && |outcomes| == |st.devices| && st.devices != []
    ensures var merged, st' := Merge(st.queue[..n + 1]), Handle(st, n, outcomes);
      var carried := if k in merged && IsTenant(merged[k]) then Some(merged[k]) else None;
      var adds := |st.responses| < |st'.responses|;
      var sent := adds && k in st'.responses[|st.responses|].body;
      && (carried.Some? ==> (sent <==> Lookup(st.tenantCache, k) != carried))
      && (carried.Some? && sent ==> st'.responses[|st.responses|].body[k] == carried.value)
      && Lookup(st'.tenantCache, k) ==
         if carried.None? then Lookup(st.tenantCache, k)
         else if sent && exists o :: o in outcomes && o.Failure? then None
         else carried
  {
    var merged, st' := Merge(st.queue[..n + 1]), Handle(st, n, outcomes);
    var body := Suppress(merged, st.tenantCache);
    if Tenants(body) != map[] {
      assert st'.responses[|st.responses|] == Responses(body, outcomes)[0];
    }
    if k in merged && IsTenant(merged[k]) && Lookup(st.tenantCache, k) != Some(merged[k]) {
      assert k in Tenants(body);
    }
  }

  lemma {:induction false} CacheIsKnown(states: seq<State>, events: seq<Event>, j: nat, k: string)
    requires SeenRun(states, events) && j <= |events|
    ensures Lookup(states[j].tenantCache, k) == Known(states, events, j, k)
    decreases j
  {
    if j > 0 {
      var i := j - 1;
      CacheIsKnown(states, events, i, k);
      DevicesKept(states, events, i);
      assert Enabled(states[i], events[i]) && states[i + 1] == Step(states[i], events[i]);
      if events[i].Batch? {
        BatchEffect(states[i], events[i].n, events[i].outcomes, k);
      }
    }
  }

  /******* What is sent *******/

  // A tenant that a batch carries is sent if and only if no batch before carried it, or the last one
  // that did had another value, or sent it and failed on some BIG-IP. It is sent as carried.
  lemma SentIff(states: seq<State>, events: seq<Event>, j: nat, k: string)
    requires SeenRun(states, events) && j < |events| && Carried(states, events, j, k).Some?
    ensures SentAt(states, j, k) <==>
      match LastCarrier(states, events, j, k)
      case None => true
      case Some(i) =>
        || Carried(states, events, i, k) != Carried(states, events, j, k)
        || (SentAt(states, i, k) && SomeFailure(events[i]))
    ensures SentAt(states, j, k) ==> Some(SentBody(states, j).value[k]) == Carried(states, events, j, k)
  {
    CacheIsKnown(states, events, j, k);
    DevicesKept(states, events, j);
    assert Enabled(states[j], events[j]) && states[j + 1] == Step(states[j], events[j]);
    BatchEffect(states[j], events[j].n, events[j].outcomes, k);
  }

  // A batch all of whose tenants arrived unchanged reports nothing and changes no BIG-IP.
  lemma UnchangedIsSuppressed(states: seq<State>, events: seq<Event>, j: nat)
    requires SeenRun(states, events) && j < |events| && events[j].Batch?
    requires forall k :: Carried(states, events, j, k).Some? ==>
      Known(states, events, j, k) == Carried(states, events, j, k)
    ensures states[j + 1].responses == states[j].responses && states[j + 1].devices == states[j].devices
  {
    var st, n := states[j], events[j].n;
    assert Enabled(st, events[j]) && states[j + 1] == Step(st, events[j]);
    var merged := Merge(st.queue[..n + 1]);
    var body := Suppress(merged, st.tenantCache);
    forall k ensures k !in Tenants(body) {
      CacheIsKnown(states, events, j, k);
      assert Carried(states, events, j, k) == if k in merged && IsTenant(merged[k]) then Some(merged[k]) else None;
    }
    assert Tenants(body) == map[];
  }

  // Any other batch is reported once by each BIG-IP, with its answer.
  lemma ChangedIsSent(states: seq<State>, events: seq<Event>, j: nat, k: string)
    requires SeenRun(states, events) && j < |events| && Carried(states, events, j, k).Some?
    requires Known(states, events, j, k) != Carried(states, events, j, k)
    ensures |events[j].outcomes| == |states[j].devices|
    ensures |states[j + 1].responses| == |states[j].responses| + |states[j].devices|
    ensures forall d :: 0 <= d < |events[j].outcomes| ==>
      (states[j + 1].responses[|states[j].responses| + d].ok <==> events[j].outcomes[d].Success?)
  {
    SentIff(states, events, j, k);
    assert Enabled(states[j], events[j]) && states[j + 1] == Step(states[j], events[j]);
  }
}
