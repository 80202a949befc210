/** What holds of the StatefulSets the operator has created, in every reachable state
    of every run: any clusters, any edits of their specs, any failures, caches that
    lag without limit, and other people adding and removing objects, as long as
    nobody else deletes Services. */
module Governing {
  import opened Values
  import opened Naming
  import opened Normalisation
  import opened Builders
  import opened Patches
  import opened Reconcile
  import opened Frames
  import opened Convergence

  /** For whom, and for which group, a StatefulSet was created. */
  datatype Origin = Origin(key: ObjectKey, uid: string, index: nat)

  /** The create of a StatefulSet that the event gets accepted, if it does. */
  function CreatedBy(w: World, e: Event): Option<Origin> {
    if e.Step? && e.key in w.jobs then
      var j := w.jobs[e.key];
      if InSets(j.cluster, j.progress) && e.answers.statefulSet.NotFound?
         && Writes(j.cluster, w.store, j.progress, e.answers)
      then Some(Origin(e.key, j.cluster.uid, j.progress.setsDone))
      else None
    else None
  }

  /** The StatefulSets the operator has created during the run and nobody deleted. */
  function Created(w: World, es: seq<Event>): map<ObjectKey, Origin> {
    if es == [] then map[]
    else
      var before := es[..|es| - 1];
      var e := es[|es| - 1];
      var o := CreatedBy(Run(w, before), e);
      if e.DropSet? then Created(w, before) - {e.key}
      else if o.Some? then Created(w, before)[SetKey(o.value.key, o.value.index) := o.value]
      else Created(w, before)
  }

  /** The identity of group `i` of cluster `k`: no spec enters into it. */
  function GroupIdentity(k: ObjectKey, i: nat): Identity {
    Identity(k.namespace, GroupName(k.name, i), PodLabels(k.name, i), PodLabels(k.name, i),
             PodLabels(k.name, i), ServiceName(k.name, i))
  }

  lemma BuiltIdentity(c: Cluster, i: nat)
    ensures IdentityOf(NewStatefulSet(c, i)) == GroupIdentity(c.Key(), i)
  {
  }

  predicate HasService(s: Store, k: ObjectKey, uid: string, i: nat) {
    var svc := ServiceOf(s, k, i);
    svc.Found? && ControlledBy(svc.obj.owners, uid)
  }

  /** The set has kept the identity it was created with, and the Service it names
      exists in its namespace and is controlled by the cluster it was created for. */
  predicate Governed(s: Store, key: ObjectKey, o: Origin) {
    && key == SetKey(o.key, o.index)
    && key in s.sets
    && IdentityOf(s.sets[key]) == GroupIdentity(o.key, o.index)
    && HasService(s, o.key, o.uid, o.index)
  }

  /** The Services a sync has finished with exist and are its cluster's. */
  predicate ServicesThere(s: Store, j: Job) {
    && (j.progress.setsDone > 0 || InSets(j.cluster, j.progress) ==> j.progress.servicesDone >= Groups(j.cluster))
    && forall i: nat | i < j.progress.servicesDone :: HasService(s, j.cluster.Key(), j.cluster.uid, i)
  }

  ghost predicate Invariant(w: World, created: map<ObjectKey, Origin>) {
    && WellFiled(w)
    && (forall k | k in w.jobs :: ServicesThere(w.store, w.jobs[k]))
    && (forall key | key in created :: Governed(w.store, key, created[key]))
  }

  /** A Service the lister returns was stored under that name at some earlier moment. */
  ghost predicate ServiceListerLags(w: World, es: seq<Event>, n: nat)
    requires n < |es|
  {
    es[n].Step? && es[n].answers.service.Found? && es[n].key in Run(w, es[..n]).jobs ==>
      exists m: nat | m <= n ::
        Lookup(Run(w, es[..m]).store.services,
               ServiceKey(es[n].key, Run(w, es[..n]).jobs[es[n].key].progress.servicesDone)) == es[n].answers.service
  }

  ghost predicate ServiceListersLag(w: World, es: seq<Event>) {
    forall n: nat | n < |es| :: ServiceListerLags(w, es, n)
  }

  /******* Services stay *******/

  ghost predicate ServicesStay(s: Store, t: Store) {
    forall key | key in s.services :: key in t.services && t.services[key] == s.services[key]
  }

  lemma NextServicesStay(w: World, e: Event)
    ensures ServicesStay(w.store, Next(w, e).store)
  {
    hide Patched, After, NewStatefulSet, NewHeadlessService, ControlledBy, Normalise;
  }

  lemma {:induction false} RunServicesStay(w: World, es: seq<Event>, m: nat)
    requires m <= |es|
    ensures ServicesStay(Run(w, es[..m]).store, Run(w, es).store)
  {
    hide Next;
    if m < |es| {
      var n := |es| - 1;
      RunServicesStay(w, es[..n], m);
      assert es[..n][..m] == es[..m];
      NextServicesStay(Run(w, es[..n]), es[n]);
    } else {
      assert es[..m] == es;
    }
  }

  lemma HasServiceStays(s: Store, t: Store, k: ObjectKey, uid: string, i: nat)
    requires ServicesStay(s, t) && HasService(s, k, uid, i)
    ensures HasService(t, k, uid, i)
  {
    hide ControlledBy, ServiceKey;
  }

  /******* One event *******/

  /** A patch keeps the identity of the set it lands on, whatever it was computed from. */
  lemma PatchKeepsIdentity(c: Cluster, i: nat, cached: StatefulSet, stored: StatefulSet)
    requires IdentityOf(stored) == GroupIdentity(c.Key(), i)
    ensures IdentityOf(Patched(cached, NewStatefulSet(c, i), stored)) == GroupIdentity(c.Key(), i)
  {
    hide MergeMap, MergeOwners, GroupName, ServiceName, BrokerEnv, BrokerVolumes;
    var labels := PodLabels(c.name, i);
    assert CLUSTER_LABEL in labels;
    MergeMapLaws(cached.labels, labels, labels);
    MergeMapLaws(cached.selector, labels, labels);
    MergeMapLaws(cached.template.labels, labels, labels);
  }

  lemma StepKeepsIdentity(c: Cluster, s: Store, p: Progress, a: Answers, k: ObjectKey, i: nat)
    requires SetKey(k, i) in s.sets && IdentityOf(s.sets[SetKey(k, i)]) == GroupIdentity(k, i)
    ensures
      var t := Iterate(c, s, p, a).0;
      SetKey(k, i) in t.sets && IdentityOf(t.sets[SetKey(k, i)]) == GroupIdentity(k, i)
  {
    hide IdentityOf, GroupIdentity, Patched, SetKey, ServiceKey, Iterate, Writes, CountedStatus, Count;
    IterationFrame(c, s, p, a, k, i);
    if InSets(c, p) && k == c.Key() && i == p.setsDone {
      SetIteration(c, s, p, a);
      if Writes(c, s, p, a) && a.statefulSet.Found? {
        PatchKeepsIdentity(c, i, a.statefulSet.obj, s.sets[SetKey(k, i)]);
      }
    }
  }

  lemma EventKeepsIdentity(w: World, e: Event, key: ObjectKey, o: Origin)
    requires Governed(w.store, key, o) && e != DropSet(key)
    ensures Governed(Next(w, e).store, key, o)
  {
    hide GroupIdentity, Iterate, SetKey, HasService, Normalise;
    NextServicesStay(w, e);
    HasServiceStays(w.store, Next(w, e).store, o.key, o.uid, o.index);
    if e.Step? && e.key in w.jobs {
      var j := w.jobs[e.key];
      StepKeepsIdentity(j.cluster, w.store, j.progress, e.answers, o.key, o.index);
    }
  }

  /** A finished Service iteration leaves the Service in place, if a lister that finds
      it is right about the past. */
  lemma ServiceIterationLeavesService(c: Cluster, s: Store, p: Progress, a: Answers)
    requires InServices(c, p) && Iterate(c, s, p, a).1.error.None?
    requires a.service.Found? ==> ServiceOf(s, c.Key(), p.servicesDone) == a.service
    ensures HasService(Iterate(c, s, p, a).0, c.Key(), c.uid, p.servicesDone)
  {
    hide ServiceKey;
    ServiceIteration(c, s, p, a);
    NewIsControlled(c, p.servicesDone);
  }

  lemma JobKeepsServices(c: Cluster, s: Store, p: Progress, a: Answers)
    requires ServicesThere(s, Job(c, p))
    requires a.service.Found? ==> (InServices(c, p) ==> ServiceOf(s, c.Key(), p.servicesDone) == a.service)
    requires ServicesStay(s, Iterate(c, s, p, a).0)
    ensures ServicesThere(Iterate(c, s, p, a).0, Job(c, Iterate(c, s, p, a).1))
  {
    hide HasService, ServicesStay, Iterate, ServiceOf;
    var (t, q) := Iterate(c, s, p, a);
    IterationAdvances(c, s, p, a);
    forall i: nat | i < q.servicesDone
      ensures HasService(t, c.Key(), c.uid, i)
    {
      if i < p.servicesDone {
        HasServiceStays(s, t, c.Key(), c.uid, i);
      } else {
        ServiceIterationLeavesService(c, s, p, a);
      }
    }
  }

  /** The answer a step got for its Service, if the lister found one. */
  predicate FoundServiceIsStored(w: World, e: Event) {
    e.Step? && e.key in w.jobs && e.answers.service.Found? ==>
      ServiceOf(w.store, e.key, w.jobs[e.key].progress.servicesDone) == e.answers.service
  }

  lemma EventKeepsJobs(w: World, e: Event, k: ObjectKey)
    requires WellFiled(w) && FoundServiceIsStored(w, e)
    requires forall k | k in w.jobs :: ServicesThere(w.store, w.jobs[k])
    requires k in Next(w, e).jobs
    ensures ServicesThere(Next(w, e).store, Next(w, e).jobs[k])
  {
    hide HasService, Iterate, ServiceOf, Normalise;
    NextServicesStay(w, e);
    var t := Next(w, e).store;
    if e.Step? && e.key == k {
      var j := w.jobs[k];
      JobKeepsServices(j.cluster, w.store, j.progress, e.answers);
    } else if k in w.jobs {
      var j := w.jobs[k];
      forall i: nat | i < j.progress.servicesDone
        ensures HasService(t, j.cluster.Key(), j.cluster.uid, i)
      {
        HasServiceStays(w.store, t, j.cluster.Key(), j.cluster.uid, i);
      }
    }
  }

  /** A newly created set starts out governed. */
  lemma CreationIsGoverned(w: World, e: Event)
    requires WellFiled(w) && CreatedBy(w, e).Some?
    requires forall k | k in w.jobs :: ServicesThere(w.store, w.jobs[k])
    ensures
      var o := CreatedBy(w, e).value;
      Governed(Next(w, e).store, SetKey(o.key, o.index), o)
  {
    hide GroupIdentity, HasService, SetKey, Patched, Count, CountedStatus, Iterate, Writes;
    var j := w.jobs[e.key];
    var i := j.progress.setsDone;
    SetIteration(j.cluster, w.store, j.progress, e.answers);
    BuiltIdentity(j.cluster, i);
    assert HasService(w.store, e.key, j.cluster.uid, i);
    NextServicesStay(w, e);
    HasServiceStays(w.store, Next(w, e).store, e.key, j.cluster.uid, i);
  }

  lemma {:induction false} InvariantStep(w: World, es: seq<Event>)
    requires es != []
    requires Invariant(Run(w, es[..|es| - 1]), Created(w, es[..|es| - 1]))
    requires FoundServiceIsStored(Run(w, es[..|es| - 1]), es[|es| - 1])
    ensures Invariant(Run(w, es), Created(w, es))
  {
    hide Next, Governed, ServicesThere, CreatedBy, FoundServiceIsStored;
    var before := Run(w, es[..|es| - 1]);
    var e := es[|es| - 1];
    NextWellFiled(before, e);
    forall k | k in Next(before, e).jobs
      ensures ServicesThere(Next(before, e).store, Next(before, e).jobs[k])
    {
      EventKeepsJobs(before, e, k);
    }
    forall key | key in Created(w, es)
      ensures Governed(Next(before, e).store, key, Created(w, es)[key])
    {
      var o := CreatedBy(before, e);
      if !e.DropSet? && o.Some? && key == SetKey(o.value.key, o.value.index) {
        CreationIsGoverned(before, e);
      } else {
        EventKeepsIdentity(before, e, key, Created(w, es)[key]);
      }
    }
  }

  lemma CreatedNothing(w: World)
    ensures Created(w, []) == map[]
  {
  }

  lemma PrefixLags(w: World, es: seq<Event>, m: nat)
    requires m < |es| - 1 && ServiceListerLags(w, es, m)
    ensures ServiceListerLags(w, es[..|es| - 1], m)
  {
    var n := |es| - 1;
    assert forall i: nat | i <= m :: es[..n][..i] == es[..i];
  }

  lemma LaggingListerIsStillRight(w: World, es: seq<Event>)
    requires es != [] && ServiceListerLags(w, es, |es| - 1)
    ensures FoundServiceIsStored(Run(w, es[..|es| - 1]), es[|es| - 1])
  {
    hide Run, ServiceKey;
    var n := |es| - 1;
    var e := es[n];
    var before := Run(w, es[..n]);
    if e.Step? && e.key in before.jobs && e.answers.service.Found? {
      var key := ServiceKey(e.key, before.jobs[e.key].progress.servicesDone);
      var m: nat :| m <= n && Lookup(Run(w, es[..m]).store.services, key) == e.answers.service;
      RunServicesStay(w, es[..n], m);
      assert es[..n][..m] == es[..m];
    }
  }

  /** In every reachable state, each StatefulSet the operator created and nobody
      deleted still has the name, labels, selector and Service name it was created
      with, and names a Service that exists and is controlled by the same cluster. */
  lemma {:induction false} GoverningServices(w: World, es: seq<Event>)
    requires w.jobs == map[] && ServiceListersLag(w, es)
    ensures Invariant(Run(w, es), Created(w, es))
  {
    hide Next, Governed, ServicesThere, Created, FoundServiceIsStored, ServiceListerLags;
    if es == [] {
      assert Created(w, es) == map[] by { CreatedNothing(w); }
    } else {
      var n := |es| - 1;
      forall m: nat | m < n
        ensures ServiceListerLags(w, es[..n], m)
      {
        PrefixLags(w, es, m);
      }
      GoverningServices(w, es[..n]);
      LaggingListerIsStillRight(w, es);
      InvariantStep(w, es);
    }
  }

  lemma CommitAdds(s: Store, w: Write, key: ObjectKey)
    requires Admits(s, w) && key !in s.sets && key in Commit(s, w).sets
    ensures w.CreateSet? && w.ss.Key() == key
  {
    hide Patched;
  }

  lemma CreateRequested(c: Cluster, p: Progress, a: Answers)
    requires Request(c, p, a).CreateSet?
    ensures InSets(c, p) && a.statefulSet.NotFound? && Request(c, p, a).ss.Key() == SetKey(c.Key(), p.setsDone)
  {
    BuiltObjectsAreOwned(c, p.setsDone);
    hide NewStatefulSet, NewHeadlessService, SetKey, ControlledBy;
  }

  /** A step adds no set but by a create. */
  lemma StepAddsByCreate(c: Cluster, s: Store, p: Progress, a: Answers, key: ObjectKey)
    requires key !in s.sets && key in Iterate(c, s, p, a).0.sets
    ensures InSets(c, p) && a.statefulSet.NotFound? && Writes(c, s, p, a) && key == SetKey(c.Key(), p.setsDone)
  {
    hide After, Request, Commit, Admits, InSets, SetKey;
    CommitAdds(s, Request(c, p, a), key);
    CreateRequested(c, p, a);
  }

  /** No set comes from nowhere: each that is stored after a run was there at the start,
      was added by somebody else, or is among those the operator created. */
  lemma {:induction false} StoredSetsHaveOrigin(w: World, es: seq<Event>, key: ObjectKey)
    requires WellFiled(w) && key in Run(w, es).store.sets
    ensures key in w.store.sets || key in Created(w, es) || exists e :: e in es && e.AddSet? && e.ss.Key() == key
  {
    hide Iterate, Writes, SetKey, Normalise;
    if es == [] {
    } else {
      var n := |es| - 1;
      var before, e := Run(w, es[..n]), es[n];
      RunWellFiled(w, es[..n]);
      assert e in es;
      if key in before.store.sets {
        StoredSetsHaveOrigin(w, es[..n], key);
      } else if e.Step? && e.key in before.jobs {
        var j := before.jobs[e.key];
        StepAddsByCreate(j.cluster, before.store, j.progress, e.answers, key);
      }
    }
  }
}
