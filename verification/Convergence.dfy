/** End to end: over every run of reconciles and deployer batches, each class's last queued tenant,
    or else its tenant on every BIG-IP, is a render of the current cache, unless the run has left
    the class behind in one of the listed ways. */
module Convergence {
  import opened Common
  import opened Objects
  import opened Snapshots
  import opened Rendering
  import opened AS3
  import opened Declarations
  import opened Pooling
  import opened Events
  import opened Retries
  import opened RenderExact
  import opened LeftBehind
  import opened Controllers
  import D = Deployer

  // stale holds the classes that are known to be left behind; it is no state of the program.
  datatype System = System(sigs: Snapshot, dep: D.State, stale: set<string>)

  datatype Step = Reconcile(event: Event, ok: bool) | Deliver(n: nat, outcomes: seq<D.Outcome>)

  // The classes that the event would deploy and whose inputs it changes.
  function Changed(s: Snapshot, e: Event): set<string> {
    set c | c in Redeployed(s, e) && InputsOf(NextSnapshot(s, e), c) != InputsOf(s, c)
  }

  // The classes that the event leaves behind although nothing fails.
  ghost function Behind(s: Snapshot, e: Event): set<string> {
    set c | c in Uncovered(s, e) && (PlainClass(s, c) ==> Leftover(s, e, c))
  }

  // Left behind: those, and the changed classes of an event that fails to deploy. A deployment that
  // is queued catches up.
  ghost function StaleAfterEvent(s: Snapshot, e: Event, ok: bool, stale: set<string>): set<string> {
    if ok then (stale + Behind(s, e)) - Redeployed(s, e) else stale + Behind(s, e) + Changed(s, e)
  }

  // Left behind: what was sent in a batch that some BIG-IP failed, and is not queued again.
  function StaleAfterBatch(st: D.State, n: nat, outcomes: seq<D.Outcome>, stale: set<string>): set<string>
    requires n < |st.queue|
  {
    if D.AllOk(outcomes) then stale
    else
      var sent := D.Tenants(D.Suppress(D.Merge(st.queue[..n + 1]), st.tenantCache));
      stale + (sent.Keys - D.Merge(st.queue[n + 1..]).Keys)
  }

  ghost predicate Next(sys: System, step: Step, sys': System) {
    match step
    case Reconcile(e, ok) =>
      && CleanEvent(e)
      && Performed(sys.sigs, sys.dep, e, sys'.sigs, sys'.dep, ok)
      && sys'.stale == StaleAfterEvent(sys.sigs, e, ok, sys.stale)
    case Deliver(n, outcomes) =>
      && n < |sys.dep.queue| && |outcomes| == |sys.dep.devices|
      && sys'.sigs == sys.sigs
      && sys'.dep == D.Handle(sys.dep, n, outcomes)
      && sys'.stale == StaleAfterBatch(sys.dep, n, outcomes, sys.stale)
  }

  // The tenant named c belongs to the class: it is neither a header field nor a namespace of
  // services.
  predicate Own(step: Step, sys': System, c: string) {
    && c !in HEADER
    && c !in ServiceNamespaces(sys'.sigs)
    && (step.Reconcile? && step.event.ServiceEvent? ==> step.event.ns != c)
    && (step.Reconcile? && step.event.EndpointsEvent? ==> step.event.ns != c)
  }

  /******* What a class should look like *******/

  // A tenant that is absent from a BIG-IP counts as one without applications.
  const EMPTY: Entry := Object(Some("Tenant"), map[])

  ghost predicate UpToDate(sys: System, c: string) {
    match Last(sys.dep.queue, c)
    case Some(e) => Shows(InputsOf(sys.sigs, c), e)
    case None => forall d :: d in sys.dep.devices ==> Shows(InputsOf(sys.sigs, c), GetOr(Lookup(d, c), EMPTY))
  }

  ghost predicate Inv(sys: System, c: string) {
    && WellFormed(sys.sigs)
    && D.CacheSound(sys.dep)
    && TenantsOnly(sys.dep.queue, c)
    && (c !in sys.stale ==> UpToDate(sys, c))
  }

  /******* Reconciling *******/

  lemma MergeAdd(queue: seq<Declaration>, decl: Declaration)
    ensures D.Merge(queue + [decl]) == D.Merge(queue) + decl
  {
    assert (queue + [decl])[..|queue|] == queue;
  }

  // In a class deployment the class's own tenant is a render; no other class's tenant is touched.
  lemma DeploysShow(s: Snapshot, classes: set<string>, decl: Declaration, c: string)
    requires WellFormed(s) && Deploys(s, classes, decl) && c !in HEADER && c !in ServiceNamespaces(s)
    ensures c in decl <==> c in classes
    ensures c in decl ==> D.IsTenant(decl[c]) && Shows(InputsOf(s, c), decl[c])
  {
    var ncfgs, scfgs := DeployedConfigs(s, classes, decl);
    RelatedPoolsTenants(s, classes, scfgs);
    TenantDeclared(ncfgs, scfgs, decl, c);
  }

  lemma DeployedConfigs(s: Snapshot, classes: set<string>, decl: Declaration)
    returns (ncfgs: map<string, Config>, scfgs: map<string, Config>)
    requires Deploys(s, classes, decl)
    ensures ncfgs.Keys == classes && forall k :: k in ncfgs ==> Renders(InputsOf(s, k), ncfgs[k])
    ensures RelatedPools(s, classes, scfgs) && Converts(ncfgs + scfgs, decl)
  {
    ncfgs, scfgs :|
      ncfgs.Keys == classes && (forall k :: k in classes ==> Renders(InputsOf(s, k), ncfgs[k])) &&
      RelatedPools(s, classes, scfgs) && Converts(ncfgs + scfgs, decl);
  }

  lemma TenantDeclared(ncfgs: map<string, Config>, scfgs: map<string, Config>, decl: Declaration, c: string)
    requires Converts(ncfgs + scfgs, decl) && c !in scfgs && c !in HEADER
    ensures c in decl <==> c in ncfgs
    ensures c in decl ==> ConvertsTenant(ncfgs[c], decl[c])
  {
    assert c in ncfgs + scfgs <==> c in ncfgs;
    assert c in ncfgs ==> (ncfgs + scfgs)[c] == ncfgs[c];
  }

  lemma RelatedPoolsTenants(s: Snapshot, classes: set<string>, scfgs: map<string, Config>)
    requires WellFormed(s) && RelatedPools(s, classes, scfgs)
    ensures scfgs.Keys <= ServiceNamespaces(s)
  {
    var keys :| Elems(keys) == RelatedKeys(s, classes) && (forall k :: k in keys ==> IsKey(k)) &&
      ServicePools(s, keys) == Some(scfgs);
    RelatedKeysPlain(s, classes);
    ServicePoolsTenants(s, keys);
    forall p | p in scfgs ensures p in ServiceNamespaces(s) {
      var k :| k in keys && KeyNs(k) == p;
      assert k in Elems(keys);
    }
  }

  lemma BackendKeyNs(s: Snapshot, ns: string, k: string)
    requires WellFormed(s) && k in Reachability.BackendKeys(s, ns)
    ensures KeyNs(k) in ServiceNamespaces(s)
  {
    assert k == ServiceKey(s.services[k]);
    ServiceKeyPlain(s.services[k]);
  }

  // A deployment of backends touches only the tenants of service namespaces and of its own.
  lemma BackendsSpare(s: Snapshot, ns: string, decl: Declaration, c: string)
    requires WellFormed(s) && BackendsQueued(s, ns, decl) && c !in HEADER && c !in ServiceNamespaces(s) && c != ns
    ensures c !in decl
  {
    var cfgs := BackendPools(s, ns, decl);
  }

  lemma BackendPools(s: Snapshot, ns: string, decl: Declaration) returns (cfgs: map<string, Config>)
    requires WellFormed(s) && BackendsQueued(s, ns, decl)
    ensures Converts(cfgs, decl) && cfgs.Keys <= ServiceNamespaces(s) + {ns}
  {
    var keys: seq<string>;
    keys, cfgs :| Elems(keys) == Reachability.BackendKeys(s, ns) && (forall k :: k in keys ==> IsKey(k)) &&
      (if keys == [] then cfgs == map[ns := map[]] else ServicePools(s, keys) == Some(cfgs)) && Converts(cfgs, decl);
    if keys != [] {
      ServicePoolsTenants(s, keys);
      forall k | k in keys ensures KeyNs(k) in ServiceNamespaces(s) {
        assert k in Elems(keys);
        BackendKeyNs(s, ns, k);
      }
    }
  }

  // The class's last queued value, and whether only tenants are queued under its name.
  function Last(queue: seq<Declaration>, c: string): Option<Entry> { Lookup(D.Merge(queue), c) }

  predicate TenantsOnly(queue: seq<Declaration>, c: string) {
    forall r :: r in queue && c in r ==> D.IsTenant(r[c])
  }

  lemma LastAdd(queue: seq<Declaration>, decl: Declaration, c: string)
    ensures Last(queue + [decl], c) == if c in decl then Some(decl[c]) else Last(queue, c)
    ensures TenantsOnly(queue + [decl], c) <==> TenantsOnly(queue, c) && (c in decl ==> D.IsTenant(decl[c]))
  {
    MergeAdd(queue, decl);
  }

  lemma QueuedOne(s: Snapshot, classes: set<string>, queue: seq<Declaration>, queue': seq<Declaration>, ok: bool)
    returns (decl: Declaration)
    requires Enqueues(s, classes, queue, queue', ok) && ok && classes != {}
    ensures Deploys(s, classes, decl) && queue' == queue + [decl]
  {
    decl :| Deploys(s, classes, decl) && queue' == queue + [decl];
  }

  lemma QueuedNone(s: Snapshot, classes: set<string>, queue: seq<Declaration>, queue': seq<Declaration>, ok: bool)
    requires Enqueues(s, classes, queue, queue', ok) && !(ok && classes != {})
    ensures queue' == queue
  {
  }

  lemma ClassQueueEffect(s: Snapshot, classes: set<string>, queue: seq<Declaration>, queue': seq<Declaration>,
                         ok: bool, c: string)
    requires Enqueues(s, classes, queue, queue', ok)
    requires WellFormed(s) && c !in HEADER && c !in ServiceNamespaces(s)
    ensures TenantsOnly(queue, c) ==> TenantsOnly(queue', c)
    ensures ok && c in classes ==> Last(queue', c).Some? && Shows(InputsOf(s, c), Last(queue', c).value)
    ensures !(ok && c in classes) ==> Last(queue', c) == Last(queue, c)
  {
    if ok && classes != {} {
      var decl := QueuedOne(s, classes, queue, queue', ok);
      DeploysShow(s, classes, decl, c);
      LastAdd(queue, decl, c);
    } else {
      QueuedNone(s, classes, queue, queue', ok);
    }
  }

  lemma BackendQueueEffect(s: Snapshot, ns: string, queue: seq<Declaration>, queue': seq<Declaration>, ok: bool,
                           c: string)
    requires EnqueuesBackends(s, ns, queue, queue', ok)
    requires WellFormed(s) && c !in HEADER && c !in ServiceNamespaces(s) && c != ns
    ensures TenantsOnly(queue, c) ==> TenantsOnly(queue', c)
    ensures Last(queue', c) == Last(queue, c)
  {
    if queue' != queue {
      var decl :| BackendsQueued(s, ns, decl) && queue' == queue + [decl];
      BackendsSpare(s, ns, decl, c);
      LastAdd(queue, decl, c);
    }
  }

  // What one reconcile does to the queue, seen from a class.
  lemma QueueEffect(sys: System, e: Event, ok: bool, sys': System, c: string)
    requires Next(sys, Reconcile(e, ok), sys') && WellFormed(sys.sigs) && Own(Reconcile(e, ok), sys', c)
    ensures TenantsOnly(sys.dep.queue, c) ==> TenantsOnly(sys'.dep.queue, c)
    ensures var deployed, v := ok && c in Redeployed(sys.sigs, e), Last(sys'.dep.queue, c);
      if deployed then v.Some? && Shows(InputsOf(sys'.sigs, c), v.value) else v == Last(sys.dep.queue, c)
  {
    NextWellFormed(sys.sigs, e);
    if e.ServiceEvent? || e.EndpointsEvent? {
      BackendQueueEffect(sys'.sigs, e.ns, sys.dep.queue, sys'.dep.queue, ok, c);
    } else {
      ClassQueueEffect(sys'.sigs, Redeployed(sys.sigs, e), sys.dep.queue, sys'.dep.queue, ok, c);
    }
  }

  lemma ReconcileKeepsInv(sys: System, e: Event, ok: bool, sys': System, c: string)
    requires Next(sys, Reconcile(e, ok), sys') && Own(Reconcile(e, ok), sys', c) && Inv(sys, c)
    ensures Inv(sys', c)
  {
    NextWellFormed(sys.sigs, e);
    QueueEffect(sys, e, ok, sys', c);
    if c !in sys'.stale && c !in Redeployed(sys.sigs, e) {
      forall tenant | Shows(InputsOf(sys.sigs, c), tenant) ensures Shows(InputsOf(sys'.sigs, c), tenant) {
        NotBehindShows(sys.sigs, e, c, tenant);
      }
    }
  }

  lemma NotBehindShows(s: Snapshot, e: Event, c: string, tenant: Entry)
    requires WellFormed(s) && CleanEvent(e) && c !in Redeployed(s, e) && c !in Behind(s, e)
    requires Shows(InputsOf(s, c), tenant)
    ensures Shows(InputsOf(NextSnapshot(s, e), c), tenant)
  {
    if c in Uncovered(s, e) {
      LeftBehindIff(s, e, c, tenant);
    } else {
      EventCoveredIff(s, e, c);
    }
  }

  // The set of classes left behind is exact: after a reconcile that does not deploy an up-to-date
  // class, the class is still up to date if and only if the event does not leave it behind.
  lemma BehindIff(sys: System, e: Event, ok: bool, sys': System, c: string)
    requires Next(sys, Reconcile(e, ok), sys') && Own(Reconcile(e, ok), sys', c) && Inv(sys, c)
    requires PlainClass(sys.sigs, c) && c !in sys.stale && c !in Redeployed(sys.sigs, e) && sys.dep.devices != []
    ensures UpToDate(sys', c) <==> c !in Behind(sys.sigs, e)
  {
    QueueEffect(sys, e, ok, sys', c);
    forall tenant | Shows(InputsOf(sys.sigs, c), tenant)
      ensures Shows(InputsOf(sys'.sigs, c), tenant) <==> c !in Behind(sys.sigs, e)
    {
      LeftBehindIff(sys.sigs, e, c, tenant);
      if c !in Uncovered(sys.sigs, e) { EventCoveredIff(sys.sigs, e, c); }
    }
    assert sys.dep.devices[0] in sys.dep.devices;
  }

  /******* Delivering *******/

  lemma {:induction false} MergeSplit(a: seq<Declaration>, b: seq<Declaration>)
    ensures D.Merge(a + b) == D.Merge(a) + D.Merge(b)
    decreases |b|
  {
    if b == [] {
      assert a + b == a;
    } else {
      assert (a + b)[..|a + b| - 1] == a + b[..|b| - 1];
      MergeSplit(a, b[..|b| - 1]);
    }
  }

  // A tenant that is not sent stays as it is on every device.
  lemma NotSentStays(st: D.State, n: nat, outcomes: seq<D.Outcome>, c: string, d': D.Device) returns (d: D.Device)
    requires n < |st.queue| && |outcomes| == |st.devices| && d' in D.Handle(st, n, outcomes).devices
    requires c !in D.Tenants(D.Suppress(D.Merge(st.queue[..n + 1]), st.tenantCache))
    ensures d in st.devices && Lookup(d', c) == Lookup(d, c)
  {
    var i :| 0 <= i < |st.devices| && D.Handle(st, n, outcomes).devices[i] == d';
    d := st.devices[i];
  }

  // A tenant that is sent and accepted by all is on every device.
  lemma SentArrives(st: D.State, n: nat, outcomes: seq<D.Outcome>, c: string, d': D.Device)
    requires n < |st.queue| && |outcomes| == |st.devices| && d' in D.Handle(st, n, outcomes).devices
    requires D.AllOk(outcomes) && c in D.Tenants(D.Suppress(D.Merge(st.queue[..n + 1]), st.tenantCache))
    ensures Lookup(d', c) == Some(D.Merge(st.queue[..n + 1])[c])
  {
    var i :| 0 <= i < |st.devices| && D.Handle(st, n, outcomes).devices[i] == d';
    assert outcomes[i] in outcomes;
  }

  // After the batch every device has the batch's value of a tenant that is not left behind.
  lemma BatchArrives(st: D.State, n: nat, outcomes: seq<D.Outcome>, c: string, d': D.Device)
    requires n < |st.queue| && |outcomes| == |st.devices| && D.CacheSound(st)
    requires d' in D.Handle(st, n, outcomes).devices
    requires c in D.Merge(st.queue[..n + 1]) && D.IsTenant(D.Merge(st.queue[..n + 1])[c])
    requires c in D.Tenants(D.Suppress(D.Merge(st.queue[..n + 1]), st.tenantCache)) ==> D.AllOk(outcomes)
    ensures Lookup(d', c) == Some(D.Merge(st.queue[..n + 1])[c])
  {
    if c in D.Tenants(D.Suppress(D.Merge(st.queue[..n + 1]), st.tenantCache)) {
      SentArrives(st, n, outcomes, c, d');
    } else {
      var d := NotSentStays(st, n, outcomes, c, d');
    }
  }

  lemma DeliverKeepsInv(sys: System, n: nat, outcomes: seq<D.Outcome>, sys': System, c: string)
    requires Next(sys, Deliver(n, outcomes), sys') && Inv(sys, c)
    ensures Inv(sys', c)
  {
    D.HandleKeepsCacheSound(sys.dep, n, outcomes);
    assert sys'.dep.queue == sys.dep.queue[n + 1..];
    if c !in sys'.stale {
      BatchKeepsUpToDate(sys, n, outcomes, sys', c);
    }
  }

  lemma BatchKeepsUpToDate(sys: System, n: nat, outcomes: seq<D.Outcome>, sys': System, c: string)
    requires n < |sys.dep.queue| && |outcomes| == |sys.dep.devices|
    requires D.CacheSound(sys.dep) && TenantsOnly(sys.dep.queue, c) && UpToDate(sys, c)
    requires sys'.sigs == sys.sigs && sys'.dep == D.Handle(sys.dep, n, outcomes)
    requires c !in StaleAfterBatch(sys.dep, n, outcomes, {})
    ensures UpToDate(sys', c)
  {
    var st, batch, rest := sys.dep, sys.dep.queue[..n + 1], sys.dep.queue[n + 1..];
    assert sys'.dep.queue == rest && batch + rest == st.queue;
    MergeSplit(batch, rest);
    if c !in D.Merge(rest) {
      forall d' | d' in sys'.dep.devices
        ensures Shows(InputsOf(sys'.sigs, c), GetOr(Lookup(d', c), EMPTY))
      {
        var d := BatchEffect(st, n, outcomes, c, d');
      }
    }
  }

  // A class that is not queued after the batch, and was not sent in vain: a device has its tenant
  // of the batch, or if there is none, the tenant it had.
  lemma BatchEffect(st: D.State, n: nat, outcomes: seq<D.Outcome>, c: string, d': D.Device) returns (d: D.Device)
    requires n < |st.queue| && |outcomes| == |st.devices| && D.CacheSound(st) && TenantsOnly(st.queue, c)
    requires d' in D.Handle(st, n, outcomes).devices
    requires c in D.Tenants(D.Suppress(D.Merge(st.queue[..n + 1]), st.tenantCache)) ==> D.AllOk(outcomes)
    ensures c in D.Merge(st.queue[..n + 1]) ==> Lookup(d', c) == Some(D.Merge(st.queue[..n + 1])[c])
    ensures c !in D.Merge(st.queue[..n + 1]) ==> d in st.devices && Lookup(d', c) == Lookup(d, c)
  {
    var batch := st.queue[..n + 1];
    d := d';
    if c in D.Merge(batch) {
      D.MergeFrom(batch, c);
      BatchArrives(st, n, outcomes, c, d');
    } else {
      d := NotSentStays(st, n, outcomes, c, d');
    }
  }

  /******* The program's steps *******/

  method PerformReconcile(ctl: Controller, e: Event, ghost stale: set<string>) returns (r: Return, ghost ok: bool)
    requires ctl.Valid() && CleanEvent(e)
    modifies ctl.sigs, ctl.sigs.refFromTo, ctl.deployer
    ensures ctl.Valid() && r == ReturnOf(old(ctl.sigs.View()), e, ok)
    ensures Next(System(old(ctl.sigs.View()), old(ctl.deployer.View()), stale), Reconcile(e, ok),
                 System(ctl.sigs.View(), ctl.deployer.View(), StaleAfterEvent(old(ctl.sigs.View()), e, ok, stale)))
  {
    r, ok := ctl.Reconcile(e);
  }

  method PerformBatch(ctl: Controller, n: nat, outcomes: seq<D.Outcome>, ghost stale: set<string>)
    requires ctl.Valid() && n < |ctl.deployer.pendingDeploys| && |outcomes| == |ctl.deployer.bigips|
    modifies ctl.deployer
    ensures ctl.Valid()
    ensures Next(System(old(ctl.sigs.View()), old(ctl.deployer.View()), stale), Deliver(n, outcomes),
                 System(ctl.sigs.View(), ctl.deployer.View(),
                   StaleAfterBatch(old(ctl.deployer.View()), n, outcomes, stale)))
  {
    ctl.deployer.HandleNext(n, outcomes);
  }

  /******* Runs *******/

  // Nothing is known, and the BIG-IPs are empty.
  predicate Initial(sys: System) {
    && sys.sigs == Snapshot(sys.sigs.controllerName, map[], map[], map[], map[], map[], map[], map[], map[], map[])
    && sys.dep == D.State([], map[], sys.dep.devices, [])
    && (forall d :: d in sys.dep.devices ==> d == map[])
    && sys.stale == {}
  }

  ghost predicate IsRun(states: seq<System>, steps: seq<Step>, c: string) {
    && |states| == |steps| + 1
    && Initial(states[0])
    && forall i :: 0 <= i < |steps| ==> Next(states[i], steps[i], states[i + 1]) && Own(steps[i], states[i + 1], c)
  }

  lemma InitialInv(sys: System, c: string)
    requires Initial(sys)
    ensures Inv(sys, c)
  {
    assert Renders(InputsOf(sys.sigs, c), map[]);
    assert ConvertsTenant(map[], EMPTY);
  }

  lemma NextKeepsInv(sys: System, step: Step, sys': System, c: string)
    requires Next(sys, step, sys') && Own(step, sys', c) && Inv(sys, c)
    ensures Inv(sys', c)
  {
    match step
    case Reconcile(e, ok) => ReconcileKeepsInv(sys, e, ok, sys', c);
    case Deliver(n, outcomes) => DeliverKeepsInv(sys, n, outcomes, sys', c);
  }

  lemma {:induction false} InvOverRuns(states: seq<System>, steps: seq<Step>, c: string, k: nat)
    requires IsRun(states, steps, c) && k <= |steps|
    ensures Inv(states[k], c)
    decreases k
  {
    if k == 0 {
      InitialInv(states[0], c);
    } else {
      InvOverRuns(states, steps, c, k - 1);
      NextKeepsInv(states[k - 1], steps[k - 1], states[k], c);
    }
  }

  // In every run, a class that is not left behind is up to date: its last queued tenant, or else
  // its tenant on every BIG-IP, is a render of the current cache.
  lemma Converges(states: seq<System>, steps: seq<Step>, c: string)
    requires IsRun(states, steps, c) && c !in states[|steps|].stale
    ensures UpToDate(states[|steps|], c)
  {
    InvOverRuns(states, steps, c, |steps|);
  }

  // Once the queue is empty, every BIG-IP shows it.
  lemma DrainedShowsRender(states: seq<System>, steps: seq<Step>, c: string, d: D.Device)
    requires IsRun(states, steps, c) && c !in states[|steps|].stale
    requires states[|steps|].dep.queue == [] && d in states[|steps|].dep.devices
    ensures Shows(InputsOf(states[|steps|].sigs, c), GetOr(Lookup(d, c), EMPTY))
  {
    Converges(states, steps, c);
  }

  // The step leaves no class behind: deployments and BIG-IPs succeed, no gateway leaves an active
  // class, no namespace of an attached route comes or goes, no secret that is read goes or changes
  // while it is used wrongly, and no service comes or goes that changes an attached route's pools.
  ghost predicate Smooth(sys: System, step: Step) {
    match step
    case Reconcile(e, ok) => ok && Behind(sys.sigs, e) == {}
    case Deliver(_, outcomes) => D.AllOk(outcomes)
  }

  lemma {:induction false} SmoothLeavesNone(states: seq<System>, steps: seq<Step>, c: string, k: nat)
    requires IsRun(states, steps, c) && k <= |steps|
    requires forall i :: 0 <= i < |steps| ==> Smooth(states[i], steps[i])
    ensures states[k].stale == {}
    decreases k
  {
    if k > 0 {
      SmoothLeavesNone(states, steps, c, k - 1);
      assert Next(states[k - 1], steps[k - 1], states[k]) && Smooth(states[k - 1], steps[k - 1]);
    }
  }

  // In a run of such steps every class is up to date.
  lemma SmoothRunsConverge(states: seq<System>, steps: seq<Step>, c: string)
    requires IsRun(states, steps, c)
    requires forall i :: 0 <= i < |steps| ==> Smooth(states[i], steps[i])
    ensures UpToDate(states[|steps|], c)
  {
    SmoothLeavesNone(states, steps, c, |steps|);
    Converges(states, steps, c);
  }
}
