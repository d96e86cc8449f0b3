/** What the cache holds over whole runs: only classes of this controller, and an exact grant index. */
module Ownership {
  import opened Common
  import opened Objects
  import Names
  import opened GrantIndex
  import opened Snapshots
  import opened Events
  import opened Convergence
  import opened RetryRuns

  ghost predicate FullRun(states: seq<System>, steps: seq<Step>) {
    IsPart(states, steps) && Initial(states[0])
  }

  /******* Classes *******/

  predicate OwnClasses(s: Snapshot) {
    forall k :: k in s.classes ==> s.classes[k].controllerName == s.controllerName
  }

  lemma StepKeepsOwn(sys: System, step: Step, sys': System)
    requires Next(sys, step, sys') && OwnClasses(sys.sigs)
    ensures OwnClasses(sys'.sigs)
  {
    StepCache(sys, step, sys');
  }

  lemma {:induction false} OwnSince(states: seq<System>, j: nat)
    requires j < |states| && OwnClasses(states[0].sigs)
    requires forall m :: 0 <= m < j && OwnClasses(states[m].sigs) ==> OwnClasses(states[m + 1].sigs)
    ensures OwnClasses(states[j].sigs)
    decreases j
  {
    if j > 0 {
      OwnSince(states, j - 1);
      assert OwnClasses(states[j - 1 + 1].sigs);
    }
  }

  // Over every run, the cache has no class of another controller.
  lemma OnlyOwnClasses(states: seq<System>, steps: seq<Step>, j: nat)
    requires FullRun(states, steps) && j <= |steps|
    ensures OwnClasses(states[j].sigs)
  {
    forall m | 0 <= m < j && OwnClasses(states[m].sigs) ensures OwnClasses(states[m + 1].sigs) {
      StepKeepsOwn(states[m], steps[m], states[m + 1]);
    }
    OwnSince(states, j);
  }

  // A reconcile of a class of another controller changes nothing,
  lemma ForeignClassIgnored(sys: System, name: string, gwc: GatewayClass, ok: bool, sys': System)
    requires Next(sys, Reconcile(ClassEvent(name, Some(gwc)), ok), sys')
    requires gwc.controllerName != sys.sigs.controllerName
    ensures ok && sys' == sys
  {
    assert Behind(sys.sigs, ClassEvent(name, Some(gwc))) == {};
  }

  // nor does one of a class that is gone and was not stored.
  lemma UnknownClassIgnored(sys: System, name: string, ok: bool, sys': System)
    requires Next(sys, Reconcile(ClassEvent(name, None), ok), sys') && name !in sys.sigs.classes
    ensures ok && sys' == sys
  {
    assert Behind(sys.sigs, ClassEvent(name, None)) == {};
  }

  // One of an own class stores it, and what it queues has the class's tenant.
  lemma OwnClassDeployed(sys: System, gwc: GatewayClass, sys': System)
    requires Next(sys, Reconcile(ClassEvent(gwc.name, Some(gwc)), true), sys')
    requires WellFormed(sys.sigs) && gwc.controllerName == sys.sigs.controllerName
    ensures sys'.sigs.classes == sys.sigs.classes[gwc.name := gwc]
    ensures |sys'.dep.queue| == |sys.dep.queue| + 1 && gwc.name in sys'.dep.queue[|sys.dep.queue|]
  {
    var decl := QueuedOne(sys'.sigs, {gwc.name}, sys.dep.queue, sys'.dep.queue, true);
    var ncfgs, scfgs := DeployedConfigs(sys'.sigs, {gwc.name}, decl);
  }

  /******* The grant index *******/

  lemma GrantKeepsExact(idx: Index, grants: Grants, k: string, o: Option<ReferenceGrant>)
    requires Exact(idx, grants) && (o.Some? ==> k == Names.Key(o.value.ns, o.value.name))
    requires Bounded(Events.Put(grants, k, o))
    ensures Exact(if o.Some? then PutIndex(idx, grants, o.value) else RemoveIndex(idx, grants, k),
                  Events.Put(grants, k, o))
  {
    match o
    case Some(rg) => PutExact(idx, grants, rg);
    case None => RemoveExact(idx, grants, k);
  }

  lemma OthersKeepIndex(s: Snapshot, e: Event)
    requires !e.GrantEvent?
    ensures NextSnapshot(s, e).index == s.index && NextSnapshot(s, e).grants == s.grants
  {
  }

  lemma StepKeepsExact(sys: System, step: Step, sys': System)
    requires Next(sys, step, sys') && Exact(sys.sigs.index, sys.sigs.grants) && Bounded(sys'.sigs.grants)
    ensures Exact(sys'.sigs.index, sys'.sigs.grants)
  {
    StepCache(sys, step, sys');
    if step.Reconcile? {
      if step.event.GrantEvent? {
        GrantKeepsExact(sys.sigs.index, sys.sigs.grants, step.event.key, step.event.grant);
      } else {
        OthersKeepIndex(sys.sigs, step.event);
      }
    }
  }

  ghost predicate ExactCache(s: Snapshot) { Exact(s.index, s.grants) }

  lemma {:induction false} ExactSince(states: seq<System>, j: nat)
    requires j < |states| && ExactCache(states[0].sigs)
    requires forall m :: 0 <= m < j && ExactCache(states[m].sigs) ==> ExactCache(states[m + 1].sigs)
    ensures ExactCache(states[j].sigs)
    decreases j
  {
    if j > 0 {
      ExactSince(states, j - 1);
      assert ExactCache(states[j - 1 + 1].sigs);
    }
  }

  // Over every run in which no pair is listed more than 127 times, the cache's index is exact.
  lemma CacheIndexExact(states: seq<System>, steps: seq<Step>, j: nat)
    requires FullRun(states, steps) && j <= |steps|
    requires forall i :: 0 <= i <= j ==> Bounded(states[i].sigs.grants)
    ensures Exact(states[j].sigs.index, states[j].sigs.grants)
  {
    EmptyExact(states[0].sigs);
    forall m | 0 <= m < j && ExactCache(states[m].sigs) ensures ExactCache(states[m + 1].sigs) {
      assert Bounded(states[m + 1].sigs.grants);
      StepKeepsExact(states[m], steps[m], states[m + 1]);
    }
    ExactSince(states, j);
  }

  lemma EmptyExact(s: Snapshot)
    requires s.index == map[] && s.grants == map[]
    ensures Exact(s.index, s.grants)
  {
  }
}
