/** The imperative sync and the state machines fit together: a call of the controller
    is a run of the world, keeps the cache within what the update protocol assumes of
    it, and succeeds only when nothing is missing and the verdict is published. */
module EndToEnd {
  import opened Values
  import opened Normalisation
  import opened Reconcile
  import Convergence
  import Readiness
  import StatusSync
  import Updates
  import Updater
  import opened Controller

  function Steps(k: ObjectKey, answers: seq<Answers>): seq<Event> {
    seq(|answers|, i requires 0 <= i < |answers| => Step(k, answers[i]))
  }

  /** A sync on its own is the run of the world in which only that sync takes steps. */
  lemma {:induction false} SyncIsARun(w: World, begin: Cluster, answers: seq<Answers>)
    requires begin.Key() in w.jobs ==> !Running(w.jobs[begin.Key()])
    ensures
      var c := NormaliseCluster(begin);
      var (s, p) := Iterations(c, w.store, FRESH, answers);
      Run(Next(w, Begin(begin)), Steps(begin.Key(), answers)) == World(s, w.jobs[begin.Key() := Job(c, p)])
    decreases |answers|
  {
    hide Iterate, NormaliseCluster, Running;
    var k := begin.Key();
    if answers == [] {
    } else {
      var n := |answers| - 1;
      SyncIsARun(w, begin, answers[..n]);
      assert Steps(k, answers)[..n] == Steps(k, answers[..n]);
      var c := NormaliseCluster(begin);
      var (s, p) := Iterations(c, w.store, FRESH, answers[..n]);
      var jobs := w.jobs[k := Job(c, p)];
      assert jobs[k := Job(c, Iterate(c, s, p, answers[n]).1)]
          == w.jobs[k := Job(c, Iterate(c, s, p, answers[n]).1)];
    }
  }

  /** Every answer of the sync was caught up when it was given. */
  ghost predicate TruthfulSync(c: Cluster, s: Store, answers: seq<Answers>) {
    forall n | 0 <= n < |answers| ::
      var (t, p) := Iterations(c, s, FRESH, answers[..n]);
      Convergence.TruthfulAnswers(c, t, p, answers[n])
  }

  lemma TruthfulPrefix(c: Cluster, s: Store, answers: seq<Answers>, n: nat)
    requires TruthfulSync(c, s, answers) && n <= |answers|
    ensures TruthfulSync(c, s, answers[..n])
  {
    hide Iterations, Convergence.TruthfulAnswers;
    forall m | 0 <= m < n
      ensures answers[..n][..m] == answers[..m]
    {
    }
  }

  lemma {:induction false} DoneIsSettled(c: Cluster, s: Store, answers: seq<Answers>, i: nat)
    requires TruthfulSync(c, s, answers) && i < Groups(c)
    ensures
      var (t, p) := Iterations(c, s, FRESH, answers);
      && (i < p.servicesDone ==> Convergence.ServiceSettled(t, c, i))
      && (i < p.setsDone ==> Convergence.SetSettled(t, c, i))
  {
    hide Iterate, Convergence.ServiceSettled, Convergence.SetSettled, Convergence.TruthfulAnswers;
    if answers == [] {
    } else {
      var n := |answers| - 1;
      forall m | 0 <= m < n
        ensures answers[..n][..m] == answers[..m]
      {
      }
      DoneIsSettled(c, s, answers[..n], i);
      var (t, p) := Iterations(c, s, FRESH, answers[..n]);
      Convergence.IterationAdvances(c, t, p, answers[n]);
      Convergence.IterationSettles(c, t, p, answers[n], i);
      Convergence.TruthfulIterationSettles(c, t, p, answers[n]);
    }
  }

  /** A sync that runs to its end with caught-up answers leaves nothing missing. */
  lemma {:induction false} SyncedMeansNothingMissing(c: Cluster, s: Store, answers: seq<Answers>)
    ensures
      var (t, p) := Iterations(c, s, FRESH, answers);
      TruthfulSync(c, s, answers) && Complete(c, p) ==> Convergence.Deficit(t, c) == 0
  {
    hide Iterations, Convergence.Deficit, TruthfulSync, Convergence.ServiceSettled, Convergence.SetSettled;
    var (t, p) := Iterations(c, s, FRESH, answers);
    if TruthfulSync(c, s, answers) && Complete(c, p) {
      forall i: nat | i < Groups(c)
        ensures Convergence.ServiceSettled(t, c, i) && Convergence.SetSettled(t, c, i)
      {
        DoneIsSettled(c, s, answers, i);
      }
      Convergence.DeficitBounded(t, c);
    }
  }

  /** Whatever a sync does to the lister's object, the object still stands for the
      version it carries: identity and labels as stored, the spec edited in the two
      ways a sync edits it. */
  lemma SyncKeepsCacheFaithful(server: Updates.Server, was: Cluster, conditions: seq<Condition>)
    requires Updates.CachedFrom(server, was)
    ensures Updates.CachedFrom(server, was.(spec := WithDefaults(was.spec), conditions := conditions))
    ensures Updates.CachedFrom(server, was.(spec := Normalise(was.spec), conditions := conditions))
  {
    StandsForLaws(was.spec, was.spec, server.history[was.resourceVersion].spec);
    hide StandsFor, Normalise, WithDefaults;
  }

  /** What a sync leaves in the lister's object, however it ends: the object keeps its
      identity, version and labels, its spec has at least its defaults, and the AllMaster
      override, where it changes anything, shows exactly if the sync got past the
      Services; only a sync that got past the StatefulSets touches the conditions. */
  lemma SyncLeavesInCache(before: Scene, after: Scene, answers: seq<Answers>, now: int,
                          surroundings: seq<Updater.Surroundings>, result: SyncResult, rounds: seq<Updates.Round>)
    requires SyncOutcome(before, after, answers, now, surroundings, result, rounds)
    ensures
      var was, left := before.cluster, after.cluster;
      var c := NormaliseCluster(was);
      var p := Iterations(c, before.store, FRESH, answers).1;
      && Updates.StandsIn(left, was)
      && left.spec == WithDefaults(was.spec).(membersPerGroup := left.spec.membersPerGroup)
      && (was.spec.allMaster && WithDefaults(was.spec).membersPerGroup != 1 ==>
            (left.spec.membersPerGroup == 1 <==> p.servicesDone >= Groups(c)))
      && (result.Stopped? <==> p.error.Some?)
      && (result.Stopped? ==> left.conditions == was.conditions && after.server == before.server)
      && after.store == Iterations(c, before.store, FRESH, answers).0
  {
    OverrideOnly(before.cluster.spec);
    hide Iterations, StatusSync.Publish, Updates.Retries, Readiness.Verdict, WithDefaults, Normalise;
  }

  /** What a sync publishes. If the cached and stored Ready conditions agree when the
      sync starts, a successful sync leaves the verdict stored, even though other
      writers come in between; and a sync that fails to publish has stored nothing. */
  lemma SuccessIsPublished(cached: Cluster, server: Updates.Server, ready: bool, now: int, rounds: seq<Updates.Round>)
    requires server.Valid() && rounds != []
    requires StatusSync.ReadyOf(cached.conditions) == StatusSync.ReadyOf(server.Current().conditions)
    ensures
      var pub := StatusSync.Publish(cached.conditions, ready, now);
      var o := Updates.Retries(Updates.SetConditions(pub.status), cached.(conditions := pub.cached), server, rounds);
      if !pub.write then StatusSync.ReadyOf(server.Current().conditions) == Some(StatusSync.StatusOf(ready))
      else if o.error == None then
        o.server.history != [] && StatusSync.ReadyOf(o.server.Current().conditions) == Some(StatusSync.StatusOf(ready))
      else
        |o.steps| <= |rounds|
        && |o.server.history| == |server.history| + Updates.OthersStored(rounds, |o.steps|)
  {
    hide Updates.Retries, StatusSync.Publish, StatusSync.ReadyOf;
    var pub := StatusSync.Publish(cached.conditions, ready, now);
    var copy := cached.(conditions := pub.cached);
    StatusSync.PublishLaws(cached.conditions, ready, now, READY);
    Updates.RetryContract(Updates.SetConditions(pub.status), copy, server, rounds);
    Updates.SuccessMeansStored(Updates.SetConditions(pub.status), copy, server, rounds);
  }

  lemma NormalisedKeepsConditions(c: Cluster)
    ensures NormaliseCluster(c).conditions == c.conditions
  {
  }

  /** The verdict of a sync that has these answers. */
  function VerdictOf(scene: Scene, answers: seq<Answers>): bool {
    var c := NormaliseCluster(scene.cluster);
    Readiness.Verdict(c, Iterations(c, scene.store, FRESH, answers).1)
  }

  /** The two halves for a call of the controller: when the sync reports success, its
      answers were caught up, and the cached and stored Ready conditions agreed at the
      start, then afterwards nothing is missing and the verdict is stored. */
  lemma SyncedIsSound(before: Scene, after: Scene, answers: seq<Answers>, now: int,
                      surroundings: seq<Updater.Surroundings>, rounds: seq<Updates.Round>)
    requires SyncOutcome(before, after, answers, now, surroundings, Synced, rounds)
    requires TruthfulSync(NormaliseCluster(before.cluster), before.store, answers)
    requires surroundings != [] && before.server.Valid()
    requires StatusSync.ReadyOf(before.cluster.conditions) == StatusSync.ReadyOf(before.server.Current().conditions)
    ensures
      && Convergence.Deficit(after.store, NormaliseCluster(before.cluster)) == 0
      && after.server.history != []
      && StatusSync.ReadyOf(after.server.Current().conditions) == Some(StatusSync.StatusOf(VerdictOf(before, answers)))
  {
    hide Iterations, NormaliseCluster, Convergence.Deficit, TruthfulSync, StatusSync.Publish, Updates.Retries,
         StatusSync.ReadyOf, Readiness.Verdict, Complete;
    var c := NormaliseCluster(before.cluster);
    SyncedMeansNothingMissing(c, before.store, answers);
    NormalisedKeepsConditions(before.cluster);
    SuccessIsPublished(c, before.server, VerdictOf(before, answers), now, rounds);
  }
}
