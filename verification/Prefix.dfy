/** The effect of one sync, wherever it stops: it has done exactly its finished
    iterations, in order, and has touched only what its cluster controls. */
module Prefix {
  import opened Values
  import opened Naming
  import opened Normalisation
  import opened Builders
  import opened Patches
  import opened Reconcile
  import opened Frames
  import opened Convergence

  /** What an iteration makes of the object it finds. */
  function WantedService(c: Cluster, i: nat, g: Get<Service>): Get<Service> {
    if g.NotFound? then Found(NewHeadlessService(c, i)) else g
  }

  function WantedSet(c: Cluster, i: nat, g: Get<StatefulSet>): Get<StatefulSet> {
    match g
    case NotFound => Found(NewStatefulSet(c, i))
    case Found(ss) =>
      if ss.replicas == c.spec.membersPerGroup then g
      else Found(NewStatefulSet(c, i).(namespace := ss.namespace, name := ss.name))
    case ListerError => g
  }

  /** The finished iterations come in order: all Services, then the StatefulSets. */
  predicate InOrder(c: Cluster, p: Progress) {
    && p.servicesDone <= Groups(c) && p.setsDone <= Groups(c)
    && (p.setsDone > 0 ==> p.servicesDone == Groups(c))
  }

  predicate GroupEffect(c: Cluster, before: Store, now: Store, p: Progress, i: nat) {
    var svc := ServiceOf(before, c.Key(), i);
    var ss := SetOf(before, c.Key(), i);
    && ServiceOf(now, c.Key(), i) == (if i < p.servicesDone then WantedService(c, i, svc) else svc)
    && SetOf(now, c.Key(), i) == (if i < p.setsDone then WantedSet(c, i, ss) else ss)
    && (i < p.servicesDone && svc.Found? ==> ControlledBy(svc.obj.owners, c.uid))
    && (i < p.setsDone && ss.Found? ==> ControlledBy(ss.obj.owners, c.uid))
  }

  /** The store now is the store before with the finished iterations done. */
  ghost predicate PrefixDone(c: Cluster, before: Store, now: Store, p: Progress) {
    InOrder(c, p) && forall i: nat :: GroupEffect(c, before, now, p, i)
  }

  lemma SetsUnchanged(c: Cluster, s: Store, p: Progress, a: Answers, i: nat)
    requires InServices(c, p)
    ensures SetOf(Iterate(c, s, p, a).0, c.Key(), i) == SetOf(s, c.Key(), i)
  {
    ServiceIteration(c, s, p, a);
  }

  lemma ServiceIterationEffect(c: Cluster, before: Store, s: Store, p: Progress, a: Answers, i: nat)
    requires InServices(c, p) && TruthfulAnswers(c, s, p, a)
    requires GroupEffect(c, before, s, p, i)
    ensures GroupEffect(c, before, Iterate(c, s, p, a).0, Iterate(c, s, p, a).1, i)
  {
    hide SetOf, NewStatefulSet, NewHeadlessService, WantedSet, ServiceKey, SetKey;
    IterationFrame(c, s, p, a, c.Key(), i);
    ServiceIteration(c, s, p, a);
    NewIsControlled(c, i);
    SetsUnchanged(c, s, p, a, i);
  }

  /** The iteration turns the set it is about into the wanted one, unless it ends the
      sync; then it changes nothing. */
  lemma CurrentSetEffect(c: Cluster, s: Store, p: Progress, a: Answers)
    requires InSets(c, p) && TruthfulAnswers(c, s, p, a)
    ensures
      var (t, q) := Iterate(c, s, p, a);
      var i := p.setsDone;
      && SetOf(t, c.Key(), i) == (if q.error.None? then WantedSet(c, i, SetOf(s, c.Key(), i)) else SetOf(s, c.Key(), i))
      && (q.error.None? && SetOf(s, c.Key(), i).Found? ==> ControlledBy(SetOf(s, c.Key(), i).obj.owners, c.uid))
  {
    hide Patched, CountedStatus, SetKey;
    SetIteration(c, s, p, a);
    if a.statefulSet.Found? && Writes(c, s, p, a) {
      PatchSettles(c, p.setsDone, a.statefulSet.obj, a.statefulSet.obj);
    }
  }

  lemma SetIterationEffect(c: Cluster, before: Store, s: Store, p: Progress, a: Answers, i: nat)
    requires InSets(c, p) && TruthfulAnswers(c, s, p, a)
    requires GroupEffect(c, before, s, p, i)
    ensures GroupEffect(c, before, Iterate(c, s, p, a).0, Iterate(c, s, p, a).1, i)
  {
    hide Patched, WantedService, CountedStatus, ServiceKey, SetKey, ControlledBy;
    IterationFrame(c, s, p, a, c.Key(), i);
    SetIteration(c, s, p, a);
    CurrentSetEffect(c, s, p, a);
  }

  lemma IdleIteration(c: Cluster, s: Store, p: Progress, a: Answers)
    requires !InServices(c, p) && !InSets(c, p)
    ensures Iterate(c, s, p, a) == (s, p)
  {
    RequestInPhase(c, p, a);
  }

  lemma OwnStepKeepsPrefix(c: Cluster, before: Store, s: Store, p: Progress, a: Answers)
    requires TruthfulAnswers(c, s, p, a) && PrefixDone(c, before, s, p)
    ensures PrefixDone(c, before, Iterate(c, s, p, a).0, Iterate(c, s, p, a).1)
  {
    hide GroupEffect, TruthfulAnswers, Iterate;
    var (t, q) := Iterate(c, s, p, a);
    IterationAdvances(c, s, p, a);
    forall i: nat
      ensures GroupEffect(c, before, t, q, i)
    {
      assert GroupEffect(c, before, s, p, i);
      if InServices(c, p) {
        ServiceIterationEffect(c, before, s, p, a, i);
      } else if InSets(c, p) {
        SetIterationEffect(c, before, s, p, a, i);
      } else {
        IdleIteration(c, s, p, a);
      }
    }
  }

  /** No second sync of `c` begins. */
  predicate OneSync(c: Cluster, es: seq<Event>) {
    forall e | e in es :: e.Begin? ==> e.cluster.Key() != c.Key()
  }

  ghost predicate PrefixInWorld(c: Cluster, before: Store, w: World) {
    && c.Key() in w.jobs
    && PrefixDone(c, before, w.store, w.jobs[c.Key()].progress)
  }

  lemma JobStays(w: World, e: Event, k: ObjectKey)
    requires k in w.jobs && Lookup(Next(w, e).jobs, k) == Lookup(w.jobs, k)
    ensures k in Next(w, e).jobs && Next(w, e).jobs[k] == w.jobs[k]
  {
    hide Next;
  }

  lemma SameGroupsSameEffect(c: Cluster, before: Store, s: Store, t: Store, p: Progress, i: nat)
    requires SameGroups(s, t, c.Key()) && GroupEffect(c, before, s, p, i)
    ensures GroupEffect(c, before, t, p, i)
  {
    hide ServiceOf, SetOf, WantedService, WantedSet, ControlledBy;
  }

  lemma StepKeepsPrefix(c: Cluster, before: Store, w: World, e: Event)
    requires WellFiled(w) && OnTask(w, c) && Undisturbed(c.Key(), e) && CaughtUp(c, w, e)
    requires e.Begin? ==> e.cluster.Key() != c.Key()
    requires PrefixInWorld(c, before, w)
    ensures PrefixInWorld(c, before, Next(w, e))
  {
    hide GroupEffect, TruthfulAnswers, Iterate, Undisturbed, Lookup;
    if e.Step? && e.key == c.Key() {
      var j := w.jobs[e.key];
      IterateSameTask(j.cluster, c, w.store, j.progress, e.answers);
      OwnStepKeepsPrefix(c, before, w.store, j.progress, e.answers);
    } else {
      OtherEventsInvisible(w, e, c.Key());
      JobStays(w, e, c.Key());
      var p := w.jobs[c.Key()].progress;
      forall i: nat
        ensures GroupEffect(c, before, Next(w, e).store, p, i)
      {
        SameGroupsSameEffect(c, before, w.store, Next(w, e).store, p, i);
      }
    }
  }

  lemma {:induction false} RunKeepsPrefix(c: Cluster, before: Store, w: World, es: seq<Event>)
    requires WellFiled(w) && OnTask(w, c) && NoInterference(c, es) && OneSync(c, es) && CaughtUpRun(c, w, es)
    requires PrefixInWorld(c, before, w)
    ensures PrefixInWorld(c, before, Run(w, es))
  {
    hide Next, OnTask, FixedSpec, CaughtUp, PrefixInWorld, Undisturbed;
    if es == [] {
    } else {
      var n := |es| - 1;
      forall m | 0 <= m < n
        ensures CaughtUp(c, Run(w, es[..n][..m]), es[..n][m])
      {
        assert es[..n][..m] == es[..m];
      }
      RunKeepsPrefix(c, before, w, es[..n]);
      RunKeepsTask(c, w, es[..n]);
      StepKeepsPrefix(c, before, Run(w, es[..n]), es[n]);
    }
  }

  /** Wherever a sync with caught-up caches stands or has stopped, and whatever syncs
      of other clusters do meanwhile, the store holds exactly its finished iterations:
      missing Services created below one index, nothing but that index's predecessors
      among the StatefulSets changed, and those only once all Services are done. */
  lemma {:induction false} PrefixEffect(c: Cluster, w: World, begin: Cluster, es: seq<Event>)
    requires WellFiled(w) && SameTask(NormaliseCluster(begin), c)
    requires c.Key() in w.jobs ==> !Running(w.jobs[c.Key()])
    requires NoInterference(c, es) && OneSync(c, es) && CaughtUpRun(c, Next(w, Begin(begin)), es)
    ensures PrefixInWorld(c, w.store, Run(Next(w, Begin(begin)), es))
  {
    hide CaughtUp, FixedSpec, Undisturbed, Normalise, ServiceSettled, SetSettled, Next;
    var w0 := Next(w, Begin(begin));
    BeginStartsFresh(c, w, begin);
    assert forall i: nat :: GroupEffect(c, w.store, w0.store, FRESH, i);
    RunKeepsPrefix(c, w.store, w0, es);
  }

  /** Ownership safety: a Service or StatefulSet that stood in the way of the sync and
      is not controlled by the cluster is exactly as it was; and a sync that stopped
      among the Services has touched no StatefulSet. */
  lemma ForeignObjectsUntouched(c: Cluster, before: Store, w: World, i: nat)
    requires PrefixInWorld(c, before, w)
    ensures
      var svc := ServiceOf(before, c.Key(), i);
      svc.Found? && !ControlledBy(svc.obj.owners, c.uid) ==> ServiceOf(w.store, c.Key(), i) == svc
    ensures
      var ss := SetOf(before, c.Key(), i);
      ss.Found? && !ControlledBy(ss.obj.owners, c.uid) ==> SetOf(w.store, c.Key(), i) == ss
    ensures w.jobs[c.Key()].progress.servicesDone < Groups(c) ==>
      SetOf(w.store, c.Key(), i) == SetOf(before, c.Key(), i)
  {
    hide ServiceOf, SetOf, WantedSet, ControlledBy;
    assert GroupEffect(c, before, w.store, w.jobs[c.Key()].progress, i);
  }

  /******* Ownership, step by step *******/

  /** The guard of the patch branch: the set the lister showed is the cluster's, but has
      the wrong number of replicas, and the call goes through. */
  predicate SendsPatch(c: Cluster, p: Progress, a: Answers) {
    InSets(c, p) && !a.fault && a.statefulSet.Found?
    && ControlledBy(a.statefulSet.obj.owners, c.uid) && a.statefulSet.obj.replicas != c.spec.membersPerGroup
  }

  /** In any world, whatever the answers and the key: a step never changes a Service that
      exists, and of the StatefulSets that exist at most the one of its own index, and
      that one only past the guard. */
  lemma StepsRespectOwnership(w: World, k: ObjectKey, a: Answers, key: ObjectKey)
    requires WellFiled(w) && k in w.jobs
    ensures
      var j := w.jobs[k];
      var t := Next(w, Step(k, a)).store;
      && (key in w.store.services ==> key in t.services && t.services[key] == w.store.services[key])
      && (key in w.store.sets ==>
            key in t.sets &&
            (t.sets[key] == w.store.sets[key] ||
               (key == SetKey(k, j.progress.setsDone) && SendsPatch(j.cluster, j.progress, a))))
  {
    hide Patched, After, NewStatefulSet, NewHeadlessService, ControlledBy, ServiceKey, SetKey;
  }

  /** With caught-up answers the guard sees the stored set itself, so no set that the
      cluster does not control is ever changed. */
  lemma TruthRespectsOwnership(w: World, k: ObjectKey, a: Answers, key: ObjectKey)
    requires WellFiled(w) && k in w.jobs
    requires TruthfulAnswers(w.jobs[k].cluster, w.store, w.jobs[k].progress, a)
    requires key in w.store.sets && !ControlledBy(w.store.sets[key].owners, w.jobs[k].cluster.uid)
    ensures
      var t := Next(w, Step(k, a)).store;
      key in t.sets && t.sets[key] == w.store.sets[key]
  {
    StepsRespectOwnership(w, k, a, key);
    hide Next, SetKey, ControlledBy;
  }

  lemma GuardDecides(c: Cluster, s: Store, p: Progress, a: Answers)
    requires InSets(c, p) && SetKey(c.Key(), p.setsDone) in s.sets
    ensures Writes(c, s, p, a) <==> SendsPatch(c, p, a)
  {
    BuiltObjectsAreOwned(c, p.setsDone);
    hide SetKey, ControlledBy;
  }

  lemma NewHasOneOwner(c: Cluster, i: nat)
    ensures NewStatefulSet(c, i).owners == [NewControllerRef(c)] && NewControllerRef(c).controller
    ensures NewControllerRef(c).uid == c.uid
  {
  }

  /** Which stale answers do harm. A set is stored under the step's name. The step
      changes nothing at all unless it passes the guard; past the guard it resizes
      whatever is stored there; so a set of the wrong size, its cluster's or not, is
      changed exactly if the guard is passed. The cluster neither gains nor loses it; and
      a foreign controller keeps it unless the cached set had that one's UID as well. */
  lemma StaleStepResizes(w: World, k: ObjectKey, a: Answers, uid: string)
    requires WellFiled(w) && k in w.jobs && InSets(w.jobs[k].cluster, w.jobs[k].progress)
    requires SetKey(k, w.jobs[k].progress.setsDone) in w.store.sets
    ensures
      var c, p := w.jobs[k].cluster, w.jobs[k].progress;
      var key := SetKey(k, p.setsDone);
      var was := w.store.sets[key];
      var t := Next(w, Step(k, a)).store;
      && key in t.sets
      && (!SendsPatch(c, p, a) ==> t == w.store)
      && (SendsPatch(c, p, a) ==> t.sets[key].replicas == c.spec.membersPerGroup)
      && (was.replicas != c.spec.membersPerGroup ==> (t != w.store <==> SendsPatch(c, p, a)))
      && (OneController(was.owners) ==>
            && (ControlledBy(t.sets[key].owners, c.uid) <==> ControlledBy(was.owners, c.uid))
            && (uid != c.uid && ControlledBy(was.owners, uid) && SendsPatch(c, p, a) ==>
                  (ControlledBy(t.sets[key].owners, uid) <==> FindRef(a.statefulSet.obj.owners, uid).None?)))
  {
    hide Patched, Iterate, Writes, SetKey, OneController, ControlledBy, NewStatefulSet, FindRef;
    var c, p := w.jobs[k].cluster, w.jobs[k].progress;
    SetIteration(c, w.store, p, a);
    GuardDecides(c, w.store, p, a);
    if SendsPatch(c, p, a) {
      var was := w.store.sets[SetKey(k, p.setsDone)];
      PatchSettles(c, p.setsDone, a.statefulSet.obj, was);
      NewHasOneOwner(c, p.setsDone);
      PatchKeepsControl(a.statefulSet.obj, NewStatefulSet(c, p.setsDone), was, NewControllerRef(c), uid);
    }
  }
}
