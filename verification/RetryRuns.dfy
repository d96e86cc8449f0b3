/** Failed reconciles within a run: what is left behind, and when trying again catches up with it. */
module RetryRuns {
  import opened Common
  import opened Snapshots
  import opened Events
  import opened Retries
  import opened Controllers
  import opened Pooling
  import opened AS3
  import opened Convergence

  /******* Trying again before anything else has changed *******/

  lemma FailsMonotone(s: Snapshot, a: set<string>, b: set<string>)
    requires DeployFails(s, a) && a <= b
    ensures DeployFails(s, b)
  {
    if k :| k in RelatedKeys(s, a) && PoolFails(s, k) {
      assert k in RelatedKeys(s, b);
    }
  }

  lemma StoredTwice(s: Snapshot, e: Event)
    requires !(e.GrantEvent? && e.grant.Some?)
    ensures NextSnapshot(NextSnapshot(s, e), e) == NextSnapshot(s, e)
  {
    match e {
      case RouteEvent(k, o) => PutTwice(s.routes, k, o);
      case GrantEvent(k, o) => PutTwice(s.grants, k, o);
      case ClassEvent(n, o) => PutTwice(s.classes, n, o);
      case GatewayEvent(k, o) => PutTwice(s.gateways, k, o);
      case NamespaceEvent(n, o) => PutTwice(s.namespaces, n, o);
      case SecretEvent(k, o) => PutTwice(s.secrets, k, o);
      case ServiceEvent(k, _, o) => PutTwice(s.services, k, o);
      case EndpointsEvent(k, _, o) => PutTwice(s.endpoints, k, o);
    }
  }

  lemma PutTwice<V>(m: map<string, V>, k: string, v: Option<V>)
    ensures Put(Put(m, k, v), k, v) == Put(m, k, v)
  {
  }

  // The deployment that the event asks for fails.
  ghost predicate CannotDeploy(s: Snapshot, e: Event) {
    if e.ServiceEvent? || e.EndpointsEvent? then BackendsFail(NextSnapshot(s, e), e.ns)
    else Redeployed(s, e) != {} && DeployFails(NextSnapshot(s, e), Redeployed(s, e))
  }

  lemma ReconciledIff(s: Snapshot, e: Event, queue: seq<Declaration>, queue': seq<Declaration>, ok: bool)
    requires Reconciled(s, e, queue, queue', ok)
    ensures !ok <==> CannotDeploy(s, e)
    ensures !ok ==> queue' == queue
  {
  }

  // A reconcile could not deploy. While the cache stays as it is, a retry that is to deploy all its
  // classes cannot either. The error of storing a grant is dropped, so there is no retry of it.
  lemma CoveringRetryFails(s: Snapshot, e: Event)
    requires CannotDeploy(s, e) && CoversAtOnce(s, e) && !(e.GrantEvent? && e.grant.Some?)
    ensures CannotDeploy(NextSnapshot(s, e), e)
  {
    StoredTwice(s, e);
    CoversAtOnceIff(s, e);
    if !e.ServiceEvent? && !e.EndpointsEvent? {
      FailsMonotone(NextSnapshot(s, e), Redeployed(s, e), Redeployed(NextSnapshot(s, e), e));
    }
  }

  // A class can always be deleted: without it there is nothing to render.
  lemma ClassDeletionDeploys(s: Snapshot, n: string)
    ensures !CannotDeploy(s, ClassEvent(n, None))
  {
    var t := NextSnapshot(s, ClassEvent(n, None));
    assert n in Redeployed(s, ClassEvent(n, None)) ==> n !in t.classes;
    assert RelatedKeys(t, Redeployed(s, ClassEvent(n, None))) == {};
  }

  /******* Runs *******/

  // Any part of a run.
  ghost predicate IsPart(states: seq<System>, steps: seq<Step>) {
    |states| == |steps| + 1 && forall i :: 0 <= i < |steps| ==> Next(states[i], steps[i], states[i + 1])
  }

  predicate OnlyBatches(steps: seq<Step>, i: nat, j: nat)
    requires i <= j <= |steps|
  {
    forall m :: i <= m < j ==> steps[m].Deliver?
  }

  lemma StepCache(sys: System, step: Step, sys': System)
    requires Next(sys, step, sys')
    ensures sys'.sigs == if step.Reconcile? then NextSnapshot(sys.sigs, step.event) else sys.sigs
  {
  }

  lemma {:induction false} SameCache(states: seq<System>, i: nat, j: nat)
    requires i <= j < |states| && forall m :: i <= m < j ==> states[m + 1].sigs == states[m].sigs
    ensures states[j].sigs == states[i].sigs
    decreases j
  {
    if i < j {
      SameCache(states, i, j - 1);
      assert states[j - 1 + 1].sigs == states[j - 1].sigs;
    }
  }

  lemma BatchesKeepCache(states: seq<System>, steps: seq<Step>, i: nat, j: nat)
    requires IsPart(states, steps) && i <= j <= |steps| && OnlyBatches(steps, i, j)
    ensures states[j].sigs == states[i].sigs
  {
    forall m | i <= m < j ensures states[m + 1].sigs == states[m].sigs {
      StepCache(states[m], steps[m], states[m + 1]);
    }
    SameCache(states, i, j);
  }

  // In a run, a failed reconcile followed by nothing but batches and its covering retry: the retry
  // fails, and leaves the cache, the deployer and the classes left behind as they are.
  lemma CoveringRetryIsVain(states: seq<System>, steps: seq<Step>, i: nat, j: nat, e: Event, ok: bool)
    requires IsPart(states, steps) && i < j < |steps| && OnlyBatches(steps, i + 1, j)
    requires steps[i] == Reconcile(e, false) && steps[j] == Reconcile(e, ok)
    requires CoversAtOnce(states[i].sigs, e) && !(e.GrantEvent? && e.grant.Some?)
    ensures !ok && states[j + 1] == states[j]
  {
    var s := states[i].sigs;
    assert Next(states[i], steps[i], states[i + 1]) && Next(states[j], steps[j], states[j + 1]);
    BatchesKeepCache(states, steps, i + 1, j);
    ReconciledIff(s, e, states[i].dep.queue, states[i + 1].dep.queue, false);
    CoveringRetryFails(s, e);
    ReconciledIff(NextSnapshot(s, e), e, states[j].dep.queue, states[j + 1].dep.queue, ok);
    StoredTwice(s, e);
    RetryUncoversNone(s, e);
  }

  // The step deploys the class.
  predicate DeploysClass(sys: System, step: Step, c: string) {
    step.Reconcile? && step.ok && c in Redeployed(sys.sigs, step.event)
  }

  lemma LeftUntilDeployed(sys: System, step: Step, sys': System, c: string)
    requires Next(sys, step, sys') && c in sys.stale && !DeploysClass(sys, step, c)
    ensures c in sys'.stale
  {
  }

  lemma LeftAfterStep(states: seq<System>, steps: seq<Step>, m: nat, c: string)
    requires IsPart(states, steps) && m < |steps| && c in states[m].stale && !DeploysClass(states[m], steps[m], c)
    ensures c in states[m + 1].stale
  {
    LeftUntilDeployed(states[m], steps[m], states[m + 1], c);
  }

  predicate NotDeployed(states: seq<System>, steps: seq<Step>, i: nat, j: nat, c: string)
    requires i <= j <= |steps| < |states|
  {
    forall m :: i <= m < j ==> !DeploysClass(states[m], steps[m], c)
  }

  lemma {:induction false} StaysLeft(states: seq<System>, i: nat, j: nat, c: string)
    requires i <= j < |states| && c in states[i].stale
    requires forall m :: i <= m < j && c in states[m].stale ==> c in states[m + 1].stale
    ensures c in states[j].stale
    decreases j
  {
    if i < j {
      StaysLeft(states, i, j - 1, c);
      assert c in states[j - 1 + 1].stale;
    }
  }

  lemma LeftMeanwhile(states: seq<System>, steps: seq<Step>, i: nat, j: nat, c: string)
    requires IsPart(states, steps) && i <= j <= |steps| && NotDeployed(states, steps, i, j, c)
    requires c in states[i].stale
    ensures c in states[j].stale
  {
    forall m | i <= m < j && c in states[m].stale ensures c in states[m + 1].stale {
      assert !DeploysClass(states[m], steps[m], c);
      LeftAfterStep(states, steps, m, c);
    }
    StaysLeft(states, i, j, c);
  }

  // The object of the event stays as it is: steps between reconcile others, or it again.
  predicate LeftAlone(steps: seq<Step>, i: nat, j: nat, e: Event)
    requires i <= j <= |steps|
  {
    forall m :: i <= m < j ==> Spares(steps[m], e)
  }

  predicate Spares(step: Step, e: Event) {
    step.Reconcile? ==> step.event == e || !SameObject(e, step.event)
  }

  lemma RememberedAfter(states: seq<System>, steps: seq<Step>, m: nat, e: Event)
    requires IsPart(states, steps) && m < |steps| && Spares(steps[m], e) && Remembers(states[m].sigs, e)
    ensures Remembers(states[m + 1].sigs, e) && states[m + 1].sigs.controllerName == states[m].sigs.controllerName
  {
    StepCache(states[m], steps[m], states[m + 1]);
    if steps[m].Reconcile? { KeptByEvent(states[m].sigs, e, steps[m].event); }
  }

  predicate KeptOver(s: Snapshot, t: Snapshot, e: Event) {
    Remembers(s, e) ==> Remembers(t, e) && t.controllerName == s.controllerName
  }

  lemma {:induction false} KeptSince(states: seq<System>, i: nat, j: nat, e: Event)
    requires i <= j < |states| && Remembers(states[i].sigs, e)
    requires forall m :: i <= m < j ==> KeptOver(states[m].sigs, states[m + 1].sigs, e)
    ensures Remembers(states[j].sigs, e) && states[j].sigs.controllerName == states[i].sigs.controllerName
    decreases j
  {
    if i < j {
      KeptSince(states, i, j - 1, e);
      assert KeptOver(states[j - 1].sigs, states[j - 1 + 1].sigs, e);
    }
  }

  lemma RememberedSince(states: seq<System>, steps: seq<Step>, i: nat, j: nat, e: Event)
    requires IsPart(states, steps) && i <= j <= |steps| && LeftAlone(steps, i, j, e)
    requires Remembers(states[i].sigs, e)
    ensures Remembers(states[j].sigs, e) && states[j].sigs.controllerName == states[i].sigs.controllerName
  {
    forall m | i <= m < j ensures KeptOver(states[m].sigs, states[m + 1].sigs, e) {
      assert Spares(steps[m], e);
      if Remembers(states[m].sigs, e) { RememberedAfter(states, steps, m, e); }
    }
    KeptSince(states, i, j, e);
  }

  // What one reconcile that deploys catches up with.
  lemma CaughtUpIff(sys: System, e: Event, sys': System, c: string)
    requires Next(sys, Reconcile(e, true), sys')
    ensures c !in sys'.stale <==> c in Redeployed(sys.sigs, e) || (c !in sys.stale && c !in Behind(sys.sigs, e))
  {
  }

  // In a run, a reconcile fails and is tried again later, with any batches, reconciles of other
  // objects and failed retries between; what the others change may let it succeed. A class that the
  // failed one changed is left behind until a step deploys it. The retry catches up with it if and
  // only if the new object still concerns the class, whatever the old one did.
  lemma RetryCatchesUpIff(states: seq<System>, steps: seq<Step>, i: nat, j: nat, e: Event, c: string)
    requires IsPart(states, steps) && i < j < |steps|
    requires steps[i] == Reconcile(e, false) && steps[j] == Reconcile(e, true)
    requires LeftAlone(steps, i + 1, j, e) && NotDeployed(states, steps, i + 1, j, c)
    requires c in Changed(states[i].sigs, e)
    ensures forall m :: i < m <= j ==> c in states[m].stale
    ensures c !in states[j + 1].stale <==> c in Retried(states[j].sigs, e)
  {
    assert Next(states[i], steps[i], states[i + 1]) && Next(states[j], steps[j], states[j + 1]);
    forall m | i < m <= j ensures c in states[m].stale {
      LeftMeanwhile(states, steps, i + 1, m, c);
    }
    EventRemembered(states[i].sigs, e);
    RememberedSince(states, steps, i + 1, j, e);
    RetriedIs(states[j].sigs, e);
    CaughtUpIff(states[j], e, states[j + 1], c);
  }

  // Such a retry catches up with all classes that the first reconcile was to deploy, if RetryCovers
  // holds of the caches before the first and before the second; only then does it deploy all.
  lemma RetryCatchesUpAll(states: seq<System>, steps: seq<Step>, i: nat, j: nat, e: Event)
    requires IsPart(states, steps) && i < j < |steps|
    requires steps[i] == Reconcile(e, false) && steps[j] == Reconcile(e, true) && LeftAlone(steps, i + 1, j, e)
    ensures Redeployed(states[i].sigs, e) <= Redeployed(states[j].sigs, e) <==>
      RetryCovers(states[i].sigs, states[j].sigs, e)
    ensures RetryCovers(states[i].sigs, states[j].sigs, e) ==> states[j + 1].stale !! Changed(states[i].sigs, e)
  {
    assert Next(states[i], steps[i], states[i + 1]) && Next(states[j], steps[j], states[j + 1]);
    EventRemembered(states[i].sigs, e);
    RememberedSince(states, steps, i + 1, j, e);
    RetryCoversIff(states[i].sigs, states[j].sigs, e);
  }
}
