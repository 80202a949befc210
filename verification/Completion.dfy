/** What an unhindered sync achieves: when nothing fails and the caches are caught up, it
    gets to its end unless somebody else's object is in its way, and then nothing is
    missing and the verdict is published. */
module Completion {
  import opened Values
  import opened Naming
  import opened Normalisation
  import opened Builders
  import opened Patches
  import opened Reconcile
  import Frames
  import opened Convergence
  import Prefix
  import Readiness
  import StatusSync
  import Updates
  import Updater
  import opened Controller
  import opened EndToEnd

  /** Whether an iteration ends the sync, and why, for any answers: the lister fails; or
      the object found has another controller; or the call fails, for a reason of its
      own or because a cache that lags asks for what the store does not admit. */
  lemma WhyServicesStop(c: Cluster, s: Store, p: Progress, a: Answers)
    requires InServices(c, p)
    ensures
      var e := Iterate(c, s, p, a).1.error;
      var stored := ServiceKey(c.Key(), p.servicesDone) in s.services;
      && (e == Some(GetFailed) <==> a.service.ListerError?)
      && (e == Some(NotControlled) <==> a.service.Found? && !ControlledBy(a.service.obj.owners, c.uid))
      && (e == Some(WriteFailed) <==> a.service.NotFound? && (a.fault || stored))
  {
    BuiltObjectsAreOwned(c, p.servicesDone);
    hide NewHeadlessService, ServiceKey, ControlledBy, Commit;
  }

  lemma WhySetsStop(c: Cluster, s: Store, p: Progress, a: Answers)
    requires InSets(c, p)
    ensures
      var e := Iterate(c, s, p, a).1.error;
      var stored := SetKey(c.Key(), p.setsDone) in s.sets;
      var g := a.statefulSet;
      && (e == Some(GetFailed) <==> g.ListerError?)
      && (e == Some(NotControlled) <==> g.Found? && !ControlledBy(g.obj.owners, c.uid))
      && (e == Some(WriteFailed) <==>
            || (g.NotFound? && (a.fault || stored))
            || (g.Found? && ControlledBy(g.obj.owners, c.uid) && g.obj.replicas != c.spec.membersPerGroup
                && (a.fault || !stored)))
  {
    BuiltObjectsAreOwned(c, p.setsDone);
    hide NewStatefulSet, SetKey, ControlledBy, Commit, CountedStatus;
  }

  /** No Service and no StatefulSet stored under the names of group `i` has another
      controller than the cluster, or none. */
  predicate ServiceFree(s: Store, c: Cluster, i: nat) {
    var g := Lookup(s.services, ServiceKey(c.Key(), i));
    g.Found? ==> ControlledBy(g.obj.owners, c.uid)
  }

  predicate SetFree(s: Store, c: Cluster, i: nat) {
    var g := Lookup(s.sets, SetKey(c.Key(), i));
    g.Found? ==> ControlledBy(g.obj.owners, c.uid)
  }

  ghost predicate NothingForeign(s: Store, c: Cluster) {
    forall i: nat | i < Groups(c) :: ServiceFree(s, c, i) && SetFree(s, c, i)
  }

  lemma UnhinderedIteration(c: Cluster, s: Store, p: Progress, a: Answers)
    requires p.error.None? && !a.fault && TruthfulAnswers(c, s, p, a)
    requires InServices(c, p) ==> ServiceFree(s, c, p.servicesDone)
    requires InSets(c, p) ==> SetFree(s, c, p.setsDone)
    ensures Iterate(c, s, p, a).1.error.None?
  {
    hide ServiceKey, SetKey, ControlledBy, Iterate;
    var e := Iterate(c, s, p, a).1.error;
    assert e.Some? ==> e.value.GetFailed? || e.value.WriteFailed? || e.value.NotControlled?;
    if InServices(c, p) {
      WhyServicesStop(c, s, p, a);
    } else if InSets(c, p) {
      WhySetsStop(c, s, p, a);
    } else {
      Prefix.IdleIteration(c, s, p, a);
    }
  }

  /** A caught-up iteration neither removes a foreign object nor brings one. */
  lemma IterationKeepsForeign(c: Cluster, s: Store, p: Progress, a: Answers, i: nat)
    requires TruthfulAnswers(c, s, p, a)
    ensures
      var t := Iterate(c, s, p, a).0;
      (ServiceFree(t, c, i) <==> ServiceFree(s, c, i)) && (SetFree(t, c, i) <==> SetFree(s, c, i))
  {
    hide Iterate, ControlledBy, ServiceKey, SetKey, Patched, CountedStatus, Count;
    Frames.IterationFrame(c, s, p, a, c.Key(), i);
    NewIsControlled(c, i);
    if InServices(c, p) {
      ServiceIteration(c, s, p, a);
    } else if InSets(c, p) {
      SetIteration(c, s, p, a);
      if i == p.setsDone && Writes(c, s, p, a) && a.statefulSet.Found? {
        PatchSettles(c, i, a.statefulSet.obj, a.statefulSet.obj);
      }
    }
  }

  lemma {:induction false} SyncKeepsForeign(c: Cluster, s: Store, answers: seq<Answers>, i: nat)
    requires TruthfulSync(c, s, answers)
    ensures
      var t := Iterations(c, s, FRESH, answers).0;
      (ServiceFree(t, c, i) <==> ServiceFree(s, c, i)) && (SetFree(t, c, i) <==> SetFree(s, c, i))
  {
    hide Iterate, TruthfulAnswers, ServiceFree, SetFree;
    if answers == [] {
    } else {
      var n := |answers| - 1;
      TruthfulPrefix(c, s, answers, n);
      SyncKeepsForeign(c, s, answers[..n], i);
      var (t, p) := Iterations(c, s, FRESH, answers[..n]);
      IterationKeepsForeign(c, t, p, answers[n], i);
    }
  }

  lemma {:induction false} NeverStops(c: Cluster, s: Store, answers: seq<Answers>)
    requires TruthfulSync(c, s, answers) && NothingForeign(s, c)
    requires forall a | a in answers :: !a.fault
    ensures Iterations(c, s, FRESH, answers).1.error.None?
  {
    hide Iterate, TruthfulAnswers, ServiceFree, SetFree;
    if answers == [] {
    } else {
      var n := |answers| - 1;
      TruthfulPrefix(c, s, answers, n);
      NeverStops(c, s, answers[..n]);
      var (t, p) := Iterations(c, s, FRESH, answers[..n]);
      SyncKeepsForeign(c, s, answers[..n], p.servicesDone);
      SyncKeepsForeign(c, s, answers[..n], p.setsDone);
      BelowGroups(c, p);
      UnhinderedIteration(c, t, p, answers[n]);
    }
  }

  lemma SettledIsFree(s: Store, c: Cluster, i: nat)
    requires ServiceSettled(s, c, i) && SetSettled(s, c, i)
    ensures ServiceFree(s, c, i) && SetFree(s, c, i)
  {
    hide ControlledBy;
  }

  /** Progress: from any store, a sync that has caught-up answers for all its iterations,
      none of which fails, gets to its end exactly if nobody else's object stands under
      one of its names; and then nothing is missing. */
  lemma UnhinderedSyncCompletes(c: Cluster, s: Store, answers: seq<Answers>)
    requires TruthfulSync(c, s, answers) && |answers| >= 2 * Groups(c)
    requires forall a | a in answers :: !a.fault
    ensures
      var (t, p) := Iterations(c, s, FRESH, answers);
      && (Complete(c, p) <==> NothingForeign(s, c))
      && (Complete(c, p) ==> Deficit(t, c) == 0)
  {
    hide Iterations, TruthfulSync, ServiceFree, SetFree, ServiceSettled, SetSettled, Deficit;
    var (t, p) := Iterations(c, s, FRESH, answers);
    SyncedMeansNothingMissing(c, s, answers);
    if NothingForeign(s, c) {
      NeverStops(c, s, answers);
      Readiness.CountersAreTotals(c, s, answers);
    }
    if Complete(c, p) {
      DeficitBounded(t, c);
      forall i: nat | i < Groups(c)
        ensures ServiceFree(s, c, i) && SetFree(s, c, i)
      {
        SettledIsFree(t, c, i);
        SyncKeepsForeign(c, s, answers, i);
      }
    }
  }

  lemma NormalisedKeepsVersion(c: Cluster)
    ensures NormaliseCluster(c).resourceVersion == c.resourceVersion
  {
  }

  lemma FirstGetsThrough(copy: Cluster, s: Updates.Server, rounds: seq<Updates.Round>)
    requires rounds != [] && rounds[0].others == [] && !rounds[0].fault
    requires s.history != [] && copy.resourceVersion == |s.history| - 1
    ensures Updates.GetsThrough(copy, s, rounds, 0)
  {
    Updates.FirstIsCurrent(copy, s, rounds);
  }

  /** The same for a call of the controller, status and all. If besides nobody writes the
      cluster meanwhile, the lister's object carries the current version and agrees with
      it on the Ready condition, and the first attempt to write the status goes through,
      then the call reports success exactly if nobody else's object is in the way; and
      then nothing is missing and the verdict is stored. */
  lemma UnhinderedCallSucceeds(before: Scene, after: Scene, answers: seq<Answers>, now: int,
                               surroundings: seq<Updater.Surroundings>, result: SyncResult, rounds: seq<Updates.Round>)
    requires SyncOutcome(before, after, answers, now, surroundings, result, rounds)
    requires TruthfulSync(NormaliseCluster(before.cluster), before.store, answers)
    requires |answers| >= 2 * Groups(NormaliseCluster(before.cluster)) && forall a | a in answers :: !a.fault
    requires before.server.Valid() && before.cluster.resourceVersion == |before.server.history| - 1
    requires StatusSync.ReadyOf(before.cluster.conditions) == StatusSync.ReadyOf(before.server.Current().conditions)
    requires surroundings != [] && surroundings[0] == Updater.Surroundings([], false)
    ensures
      var c := NormaliseCluster(before.cluster);
      && (result == Synced <==> NothingForeign(before.store, c))
      && (result == Synced ==>
            && Deficit(after.store, c) == 0
            && after.server.history != []
            && StatusSync.ReadyOf(after.server.Current().conditions) == Some(StatusSync.StatusOf(VerdictOf(before, answers))))
  {
    hide Iterations, NormaliseCluster, Deficit, TruthfulSync, StatusSync.Publish, Updates.Retries, StatusSync.ReadyOf,
         Readiness.Verdict, NothingForeign, Groups;
    var c := NormaliseCluster(before.cluster);
    UnhinderedSyncCompletes(c, before.store, answers);
    NormalisedKeepsVersion(before.cluster);
    var pub := StatusSync.Publish(before.cluster.conditions, VerdictOf(before, answers), now);
    if Iterations(c, before.store, FRESH, answers).1.error.None? {
      Updates.SucceedsExactly(Updates.SetConditions(pub.status), after.cluster, before.server, rounds);
      FirstGetsThrough(after.cluster, before.server, rounds);
    }
    if result == Synced {
      SyncedIsSound(before, after, answers, now, surroundings, rounds);
    }
  }
}
