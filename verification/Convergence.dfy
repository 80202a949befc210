/** Convergence: a measure of what is missing, which no sync ever raises and which
    the accepted writes of caught-up syncs lower one by one. */
module Convergence {
  import opened Values
  import opened Naming
  import opened Normalisation
  import opened Builders
  import opened Patches
  import opened Reconcile
  import opened Frames

  /******* The measure *******/

  predicate ServiceSettled(s: Store, c: Cluster, i: nat) {
    var g := ServiceOf(s, c.Key(), i);
    g.Found? && ControlledBy(g.obj.owners, c.uid)
  }

  predicate SetSettled(s: Store, c: Cluster, i: nat) {
    var g := SetOf(s, c.Key(), i);
    g.Found? && ControlledBy(g.obj.owners, c.uid) && g.obj.replicas == c.spec.membersPerGroup
  }

  function UnsettledServices(s: Store, c: Cluster): set<nat> {
    set i: nat | i < Groups(c) && !ServiceSettled(s, c, i)
  }

  function UnsettledSets(s: Store, c: Cluster): set<nat> {
    set i: nat | i < Groups(c) && !SetSettled(s, c, i)
  }

  /** Missing Services, plus missing or wrongly sized StatefulSets, below the group
      count. An object that the cluster does not control counts as missing. */
  function Deficit(s: Store, c: Cluster): nat {
    |UnsettledServices(s, c)| + |UnsettledSets(s, c)|
  }

  lemma {:induction false} BelowBound(xs: set<nat>, n: nat)
    requires forall x | x in xs :: x < n
    ensures |xs| <= n
    decreases n
  {
    if n > 0 {
      BelowBound(xs - {n - 1}, n - 1);
    } else {
      assert xs == {};
    }
  }

  lemma DeficitBounded(s: Store, c: Cluster)
    ensures Deficit(s, c) <= 2 * Groups(c)
    ensures Deficit(s, c) == 0 <==> forall i: nat | i < Groups(c) :: ServiceSettled(s, c, i) && SetSettled(s, c, i)
  {
    BelowBound(UnsettledServices(s, c), Groups(c));
    BelowBound(UnsettledSets(s, c), Groups(c));
    if Deficit(s, c) == 0 {
      forall i: nat | i < Groups(c)
        ensures ServiceSettled(s, c, i) && SetSettled(s, c, i)
      {
        assert i !in UnsettledServices(s, c) && i !in UnsettledSets(s, c);
      }
    } else {
      if UnsettledServices(s, c) != {} {
        var i :| i in UnsettledServices(s, c);
      } else {
        assert |UnsettledSets(s, c)| > 0;
        var i :| i in UnsettledSets(s, c);
      }
    }
  }

  /******* One iteration *******/

  lemma ServiceIteration(c: Cluster, s: Store, p: Progress, a: Answers)
    requires InServices(c, p)
    ensures
      var (t, q) := Iterate(c, s, p, a);
      var i := p.servicesDone;
      && t.sets == s.sets
      && (if Writes(c, s, p, a)
          then ServiceOf(s, c.Key(), i) == NotFound && ServiceOf(t, c.Key(), i) == Found(NewHeadlessService(c, i))
               && q.error.None?
          else t == s)
      && (q.error.None? ==> q == p.(servicesDone := i + 1))
      && (q.error.Some? ==> q == p.(error := q.error))
  {
    BuiltObjectsAreOwned(c, p.servicesDone);
  }

  lemma SetIteration(c: Cluster, s: Store, p: Progress, a: Answers)
    requires InSets(c, p)
    ensures
      var (t, q) := Iterate(c, s, p, a);
      var i := p.setsDone;
      var was := Lookup(s.sets, SetKey(c.Key(), i));
      var now := Lookup(t.sets, SetKey(c.Key(), i));
      && t.services == s.services
      && (if Writes(c, s, p, a)
          then q.error.None? &&
            if a.statefulSet.Found?
            then was.Found? && now == Found(Patched(a.statefulSet.obj, NewStatefulSet(c, i), was.obj))
                 && ControlledBy(a.statefulSet.obj.owners, c.uid) && a.statefulSet.obj.replicas != c.spec.membersPerGroup
            else was == NotFound && now == Found(NewStatefulSet(c, i))
          else t == s)
      && (q.error.None? ==> q == Count(p, CountedStatus(c, a)).(setsDone := i + 1))
      && (q.error.Some? ==> q == p.(error := q.error))
  {
    hide Patched, CountedStatus;
    BuiltObjectsAreOwned(c, p.setsDone);
  }

  /** A patch, whatever it was computed from, leaves a settled set settled; computed
      from the stored object itself, it settles it. */
  lemma PatchSettles(c: Cluster, i: nat, cached: StatefulSet, stored: StatefulSet)
    requires ControlledBy(cached.owners, c.uid) && cached.replicas != c.spec.membersPerGroup
    ensures
      var r := Patched(cached, NewStatefulSet(c, i), stored);
      && r.replicas == c.spec.membersPerGroup
      && (ControlledBy(stored.owners, c.uid) ==> ControlledBy(r.owners, c.uid))
      && (cached == stored ==> r == NewStatefulSet(c, i).(namespace := stored.namespace, name := stored.name, status := stored.status))
  {
    hide MergeMap, MergeOwners, MergeTemplate, ControlledBy, BrokerEnv, PodLabels, BrokerVolumes;
    PatchKeepsControl(cached, NewStatefulSet(c, i), stored, NewControllerRef(c), c.uid);
    PatchFromStored(cached, NewStatefulSet(c, i));
  }

  lemma NewIsControlled(c: Cluster, i: nat)
    ensures ControlledBy(NewHeadlessService(c, i).owners, c.uid)
    ensures ControlledBy(NewStatefulSet(c, i).owners, c.uid)
  {
    BuiltObjectsAreOwned(c, i);
  }

  /** Other groups, and all groups of the other kind, keep their state; the current
      one is settled by an accepted create, and never unsettled. */
  lemma IterationSettles(c: Cluster, s: Store, p: Progress, a: Answers, i: nat)
    ensures
      var t := Iterate(c, s, p, a).0;
      && (ServiceSettled(s, c, i) ==> ServiceSettled(t, c, i))
      && (SetSettled(s, c, i) ==> SetSettled(t, c, i))
      && (InServices(c, p) && i == p.servicesDone && Writes(c, s, p, a) ==>
            !ServiceSettled(s, c, i) && ServiceSettled(t, c, i))
      && (!(InServices(c, p) && i == p.servicesDone && Writes(c, s, p, a)) ==>
            ServiceSettled(s, c, i) == ServiceSettled(t, c, i))
      && (!(InSets(c, p) && i == p.setsDone && Writes(c, s, p, a)) ==> SetSettled(s, c, i) == SetSettled(t, c, i))
  {
    hide Iterate, Writes, Patched, ControlledBy, Count, CountedStatus, SetKey, ServiceKey;
    IterationFrame(c, s, p, a, c.Key(), i);
    NewIsControlled(c, i);
    if InServices(c, p) {
      ServiceIteration(c, s, p, a);
    } else if InSets(c, p) {
      SetIteration(c, s, p, a);
      if i == p.setsDone && Writes(c, s, p, a) && a.statefulSet.Found? {
        PatchSettles(c, i, a.statefulSet.obj, s.sets[SetKey(c.Key(), i)]);
      }
    }
  }

  /** Caught-up answers: the lister returns what the server stores. */
  predicate TruthfulAnswers(c: Cluster, s: Store, p: Progress, a: Answers) {
    && (InServices(c, p) ==> a.service == Lookup(s.services, ServiceKey(c.Key(), p.servicesDone)))
    && (InSets(c, p) ==> a.statefulSet == Lookup(s.sets, SetKey(c.Key(), p.setsDone)))
  }

  /** With caught-up answers a finished iteration leaves its group settled, and an
      iteration writes only to a group that was not. */
  lemma TruthfulIterationSettles(c: Cluster, s: Store, p: Progress, a: Answers)
    requires TruthfulAnswers(c, s, p, a)
    ensures
      var (t, q) := Iterate(c, s, p, a);
      && (InServices(c, p) && q.error.None? ==> ServiceSettled(t, c, p.servicesDone))
      && (InSets(c, p) && q.error.None? ==> SetSettled(t, c, p.setsDone))
      && (InSets(c, p) && Writes(c, s, p, a) ==> !SetSettled(s, c, p.setsDone) && SetSettled(t, c, p.setsDone))
  {
    BuiltObjectsAreOwned(c, p.servicesDone);
    BuiltObjectsAreOwned(c, p.setsDone);
    if InSets(c, p) {
      SetIteration(c, s, p, a);
      if a.statefulSet.Found? && Writes(c, s, p, a) {
        PatchSettles(c, p.setsDone, a.statefulSet.obj, a.statefulSet.obj);
      }
    }
  }

  lemma BelowGroups(c: Cluster, p: Progress)
    ensures InServices(c, p) ==> p.servicesDone < Groups(c)
    ensures InSets(c, p) ==> p.setsDone < Groups(c)
  {
  }

  lemma UnsettledServicesDrop(c: Cluster, s: Store, p: Progress, a: Answers)
    ensures
      var t := Iterate(c, s, p, a).0;
      |UnsettledServices(s, c)| == |UnsettledServices(t, c)| + if InServices(c, p) && Writes(c, s, p, a) then 1 else 0
  {
    hide Iterate, Writes, ServiceSettled, SetSettled, InServices;
    var t := Iterate(c, s, p, a).0;
    forall i: nat
      ensures InServices(c, p) && i == p.servicesDone && Writes(c, s, p, a) ==>
        !ServiceSettled(s, c, i) && ServiceSettled(t, c, i)
      ensures !(InServices(c, p) && i == p.servicesDone && Writes(c, s, p, a)) ==>
        ServiceSettled(s, c, i) == ServiceSettled(t, c, i)
    {
      IterationSettles(c, s, p, a, i);
    }
    if InServices(c, p) && Writes(c, s, p, a) {
      BelowGroups(c, p);
      assert UnsettledServices(t, c) == UnsettledServices(s, c) - {p.servicesDone};
    } else {
      assert UnsettledServices(t, c) == UnsettledServices(s, c);
    }
  }

  lemma UnsettledSetsDrop(c: Cluster, s: Store, p: Progress, a: Answers)
    ensures
      var t := Iterate(c, s, p, a).0;
      && |UnsettledSets(t, c)| <= |UnsettledSets(s, c)|
      && (TruthfulAnswers(c, s, p, a) ==>
            |UnsettledSets(s, c)| == |UnsettledSets(t, c)| + if InSets(c, p) && Writes(c, s, p, a) then 1 else 0)
  {
    hide Iterate, Writes, ServiceSettled, SetSettled, InSets, TruthfulAnswers;
    var t := Iterate(c, s, p, a).0;
    var i := p.setsDone;
    forall i: nat
      ensures SetSettled(s, c, i) ==> SetSettled(t, c, i)
      ensures !(InSets(c, p) && i == p.setsDone && Writes(c, s, p, a)) ==> SetSettled(s, c, i) == SetSettled(t, c, i)
    {
      IterationSettles(c, s, p, a, i);
    }
    if TruthfulAnswers(c, s, p, a) {
      TruthfulIterationSettles(c, s, p, a);
    }
    if SetSettled(s, c, i) == SetSettled(t, c, i) {
      assert UnsettledSets(t, c) == UnsettledSets(s, c);
    } else {
      BelowGroups(c, p);
      assert UnsettledSets(t, c) == UnsettledSets(s, c) - {i};
    }
  }

  lemma OnlyLoopsWrite(c: Cluster, s: Store, p: Progress, a: Answers)
    ensures Writes(c, s, p, a) ==> InServices(c, p) || InSets(c, p)
  {
    RequestInPhase(c, p, a);
  }

  lemma {:induction false} DeficitDrop(c: Cluster, s: Store, p: Progress, a: Answers)
    ensures
      var t := Iterate(c, s, p, a).0;
      && Deficit(t, c) <= Deficit(s, c)
      && (TruthfulAnswers(c, s, p, a) ==>
            Deficit(s, c) == Deficit(t, c) + if Writes(c, s, p, a) then 1 else 0)
  {
    hide Iterate, Writes, UnsettledServices, UnsettledSets, TruthfulAnswers;
    UnsettledServicesDrop(c, s, p, a);
    UnsettledSetsDrop(c, s, p, a);
    OnlyLoopsWrite(c, s, p, a);
  }

  /******* Runs *******/

  /** The two clusters ask for the same objects. */
  predicate SameTask(c: Cluster, d: Cluster) {
    c.Key() == d.Key() && c.uid == d.uid && c.spec == d.spec
  }

  /** Whoever reads cluster `c` while the run lasts finds the same UID, and a spec that
      normalises to that of `c`. */
  predicate FixedSpec(c: Cluster, e: Event) {
    e.Begin? && e.cluster.Key() == c.Key() ==> SameTask(NormaliseCluster(e.cluster), c)
  }

  /** A sync of `c` in progress, if any, is about the same task. */
  predicate OnTask(w: World, c: Cluster) {
    c.Key() in w.jobs ==> SameTask(w.jobs[c.Key()].cluster, c)
  }

  /** Nothing but syncs, of this cluster for the given spec and of any others, and the
      StatefulSet controller touches the groups of `c`. */
  ghost predicate NoInterference(c: Cluster, es: seq<Event>) {
    forall e | e in es :: Undisturbed(c.Key(), e) && FixedSpec(c, e)
  }

  /** The event is an accepted create or patch of a sync of `c`. */
  predicate IsWrite(c: Cluster, w: World, e: Event) {
    e.Step? && e.key == c.Key() && e.key in w.jobs
    && Writes(w.jobs[e.key].cluster, w.store, w.jobs[e.key].progress, e.answers)
  }

  /** If the event is a step of a sync of `c`, its lister is caught up. */
  predicate CaughtUp(c: Cluster, w: World, e: Event) {
    e.Step? && e.key == c.Key() && e.key in w.jobs ==>
      TruthfulAnswers(w.jobs[e.key].cluster, w.store, w.jobs[e.key].progress, e.answers)
  }

  ghost predicate CaughtUpRun(c: Cluster, w: World, es: seq<Event>) {
    forall n | 0 <= n < |es| :: CaughtUp(c, Run(w, es[..n]), es[n])
  }

  /** How many creates and patches the syncs of `c` got accepted during the run. */
  function CountWrites(c: Cluster, w: World, es: seq<Event>): nat {
    if es == [] then 0
    else
      var before := es[..|es| - 1];
      CountWrites(c, w, before) + if IsWrite(c, Run(w, before), es[|es| - 1]) then 1 else 0
  }

  lemma SameTaskSameObjects(c: Cluster, d: Cluster, i: nat)
    requires SameTask(c, d)
    ensures NewHeadlessService(c, i) == NewHeadlessService(d, i) && NewStatefulSet(c, i) == NewStatefulSet(d, i)
  {
  }

  /** Nothing in an iteration looks at more of a cluster than its task. */
  lemma IterateSameTask(c: Cluster, d: Cluster, s: Store, p: Progress, a: Answers)
    requires SameTask(c, d)
    ensures Iterate(c, s, p, a) == Iterate(d, s, p, a)
    ensures Writes(c, s, p, a) == Writes(d, s, p, a)
    ensures TruthfulAnswers(c, s, p, a) == TruthfulAnswers(d, s, p, a)
    ensures InServices(c, p) == InServices(d, p) && InSets(c, p) == InSets(d, p) && Complete(c, p) == Complete(d, p)
  {
    SameTaskSameObjects(c, d, p.servicesDone);
    SameTaskSameObjects(c, d, p.setsDone);
    assert Request(c, p, a) == Request(d, p, a);
  }

  lemma SameGroupsSameDeficit(s: Store, t: Store, c: Cluster)
    requires SameGroups(s, t, c.Key())
    ensures Deficit(s, c) == Deficit(t, c)
  {
    hide ServiceOf, SetOf;
    assert UnsettledServices(s, c) == UnsettledServices(t, c);
    assert UnsettledSets(s, c) == UnsettledSets(t, c);
  }

  lemma OnTaskKept(c: Cluster, w: World, e: Event)
    requires WellFiled(w) && OnTask(w, c) && FixedSpec(c, e)
    ensures OnTask(Next(w, e), c)
  {
    hide Iterate, Normalise;
  }

  lemma StepDeficit(c: Cluster, w: World, e: Event)
    requires WellFiled(w) && OnTask(w, c) && Undisturbed(c.Key(), e)
    ensures Deficit(Next(w, e).store, c) <= Deficit(w.store, c)
    ensures CaughtUp(c, w, e) ==>
      Deficit(w.store, c) == Deficit(Next(w, e).store, c) + if IsWrite(c, w, e) then 1 else 0
  {
    hide Iterate, Writes, Deficit, TruthfulAnswers;
    if e.Step? && e.key == c.Key() {
      if e.key in w.jobs {
        var j := w.jobs[e.key];
        IterateSameTask(j.cluster, c, w.store, j.progress, e.answers);
        DeficitDrop(c, w.store, j.progress, e.answers);
      }
    } else {
      OtherEventsInvisible(w, e, c.Key());
      SameGroupsSameDeficit(w.store, Next(w, e).store, c);
    }
  }

  lemma {:induction false} RunKeepsTask(c: Cluster, w: World, es: seq<Event>)
    requires WellFiled(w) && OnTask(w, c) && NoInterference(c, es)
    ensures WellFiled(Run(w, es)) && OnTask(Run(w, es), c)
  {
    hide Next, OnTask, FixedSpec;
    if es == [] {
    } else {
      RunKeepsTask(c, w, es[..|es| - 1]);
      NextWellFiled(Run(w, es[..|es| - 1]), es[|es| - 1]);
      OnTaskKept(c, Run(w, es[..|es| - 1]), es[|es| - 1]);
    }
  }

  /** Whatever the caches say and whatever fails, in any run of syncs of any clusters,
      the deficit of `c` never rises. */
  lemma {:induction false} DeficitNeverRises(c: Cluster, w: World, es: seq<Event>)
    requires WellFiled(w) && OnTask(w, c) && NoInterference(c, es)
    ensures Deficit(Run(w, es).store, c) <= Deficit(w.store, c)
  {
    hide Next, OnTask, FixedSpec, Deficit;
    if es == [] {
    } else {
      DeficitNeverRises(c, w, es[..|es| - 1]);
      RunKeepsTask(c, w, es[..|es| - 1]);
      StepDeficit(c, Run(w, es[..|es| - 1]), es[|es| - 1]);
    }
  }

  /** With caught-up caches every accepted write pays for one missing object: writes
      made and deficit left always add up to the deficit at the start. So there are
      at most two writes for each group, and none once the deficit is zero. */
  lemma {:induction false} WritesPlusDeficit(c: Cluster, w: World, es: seq<Event>)
    requires WellFiled(w) && OnTask(w, c) && NoInterference(c, es) && CaughtUpRun(c, w, es)
    ensures CountWrites(c, w, es) + Deficit(Run(w, es).store, c) == Deficit(w.store, c)
    ensures CountWrites(c, w, es) <= 2 * Groups(c)
    ensures Deficit(w.store, c) == 0 ==> CountWrites(c, w, es) == 0
  {
    hide Next, OnTask, FixedSpec, Deficit, IsWrite, CaughtUp;
    DeficitBounded(w.store, c);
    if es == [] {
    } else {
      var n := |es| - 1;
      assert CaughtUpRun(c, w, es[..n]) by {
        forall m | 0 <= m < n
          ensures CaughtUp(c, Run(w, es[..n][..m]), es[..n][m])
        {
          assert es[..n][..m] == es[..m];
        }
      }
      WritesPlusDeficit(c, w, es[..n]);
      RunKeepsTask(c, w, es[..n]);
      StepDeficit(c, Run(w, es[..n]), es[n]);
    }
  }

  /******* A successful sync *******/

  /** What the current sync of `c` has finished is settled. */
  ghost predicate DoneIsSettled(c: Cluster, w: World) {
    c.Key() in w.jobs ==>
      var p := w.jobs[c.Key()].progress;
      && (forall i: nat | i < p.servicesDone && i < Groups(c) :: ServiceSettled(w.store, c, i))
      && (forall i: nat | i < p.setsDone && i < Groups(c) :: SetSettled(w.store, c, i))
  }

  lemma SameGroupsSameSettled(s: Store, t: Store, c: Cluster, i: nat)
    requires SameGroups(s, t, c.Key())
    ensures ServiceSettled(s, c, i) == ServiceSettled(t, c, i) && SetSettled(s, c, i) == SetSettled(t, c, i)
  {
    hide ServiceOf, SetOf;
  }

  /** An iteration advances the loop it is in by one, or ends the sync. */
  lemma IterationAdvances(c: Cluster, s: Store, p: Progress, a: Answers)
    ensures
      var q := Iterate(c, s, p, a).1;
      && q.servicesDone == p.servicesDone + (if InServices(c, p) && q.error.None? then 1 else 0)
      && q.setsDone == p.setsDone + (if InSets(c, p) && q.error.None? then 1 else 0)
      && (p.error.Some? ==> q == p)
  {
    hide Commit, Request, Admits, ControlledBy;
  }

  lemma StepKeepsSettled(c: Cluster, w: World, e: Event)
    requires WellFiled(w) && OnTask(w, c) && Undisturbed(c.Key(), e) && CaughtUp(c, w, e)
    requires DoneIsSettled(c, w)
    ensures DoneIsSettled(c, Next(w, e))
  {
    hide ServiceSettled, SetSettled, TruthfulAnswers, Iterate, Writes, Undisturbed;
    var t := Next(w, e).store;
    if e.Step? && e.key == c.Key() {
      if e.key in w.jobs {
        var j := w.jobs[e.key];
        var p := j.progress;
        IterateSameTask(j.cluster, c, w.store, p, e.answers);
        TruthfulIterationSettles(c, w.store, p, e.answers);
        IterationAdvances(c, w.store, p, e.answers);
        forall i: nat
          ensures ServiceSettled(w.store, c, i) ==> ServiceSettled(t, c, i)
          ensures SetSettled(w.store, c, i) ==> SetSettled(t, c, i)
        {
          IterationSettles(c, w.store, p, e.answers, i);
        }
      }
    } else {
      OtherEventsInvisible(w, e, c.Key());
      forall i: nat
        ensures ServiceSettled(w.store, c, i) == ServiceSettled(t, c, i)
        ensures SetSettled(w.store, c, i) == SetSettled(t, c, i)
      {
        SameGroupsSameSettled(w.store, t, c, i);
      }
    }
  }

  lemma {:induction false} RunKeepsSettled(c: Cluster, w: World, es: seq<Event>)
    requires WellFiled(w) && OnTask(w, c) && NoInterference(c, es) && CaughtUpRun(c, w, es)
    requires DoneIsSettled(c, w)
    ensures DoneIsSettled(c, Run(w, es))
  {
    hide Next, OnTask, FixedSpec, CaughtUp, DoneIsSettled;
    if es == [] {
    } else {
      var n := |es| - 1;
      forall m | 0 <= m < n
        ensures CaughtUp(c, Run(w, es[..n][..m]), es[..n][m])
      {
        assert es[..n][..m] == es[..m];
      }
      RunKeepsSettled(c, w, es[..n]);
      RunKeepsTask(c, w, es[..n]);
      StepKeepsSettled(c, Run(w, es[..n]), es[n]);
    }
  }

  /** A sync that has just begun and runs to the end of both loops with caught-up caches
      leaves nothing missing, whatever other clusters' syncs do in between. */
  lemma {:induction false} SuccessMeansNothingMissing(c: Cluster, w: World, es: seq<Event>)
    requires WellFiled(w) && OnTask(w, c) && c.Key() in w.jobs && w.jobs[c.Key()].progress == FRESH
    requires NoInterference(c, es) && CaughtUpRun(c, w, es)
    requires c.Key() in Run(w, es).jobs && Complete(c, Run(w, es).jobs[c.Key()].progress)
    ensures Deficit(Run(w, es).store, c) == 0
  {
    hide Deficit, ServiceSettled, SetSettled, Undisturbed, CaughtUp, FixedSpec;
    RunKeepsSettled(c, w, es);
    DeficitBounded(Run(w, es).store, c);
  }

  lemma BeginStartsFresh(c: Cluster, w: World, begin: Cluster)
    requires WellFiled(w) && SameTask(NormaliseCluster(begin), c)
    requires c.Key() in w.jobs ==> !Running(w.jobs[c.Key()])
    ensures
      var w0 := Next(w, Begin(begin));
      WellFiled(w0) && OnTask(w0, c) && DoneIsSettled(c, w0)
      && w0.store == w.store && c.Key() in w0.jobs && w0.jobs[c.Key()].progress == FRESH
  {
    hide Normalise, ServiceSettled, SetSettled;
  }
}
