/** What a published verdict means: what a success of one sync says of the stored sets,
    and when, over a whole history of syncs, other writers and cache updates, a
    reported success leaves the wrong verdict stored. */
module Published {
  import opened Values
  import opened Naming
  import opened Normalisation
  import opened Builders
  import opened Patches
  import opened Reconcile
  import Frames
  import Convergence
  import Readiness
  import StatusSync
  import Updates
  import Updater
  import opened Controller
  import opened EndToEnd

  /******* One sync and the stored sets *******/

  function StoredSet(s: Store, c: Cluster, i: nat): Get<StatefulSet> {
    Lookup(s.sets, SetKey(c.Key(), i))
  }

  /** What becomes of a set in a sync that gets past it. */
  function SyncedSet(c: Cluster, i: nat, g: Get<StatefulSet>): Get<StatefulSet> {
    match g
    case NotFound => Found(NewStatefulSet(c, i))
    case Found(ss) =>
      if ss.replicas == c.spec.membersPerGroup then g
      else Found(NewStatefulSet(c, i).(namespace := ss.namespace, name := ss.name, status := ss.status))
    case ListerError => g
  }

  lemma TurnOfSet(c: Cluster, s: Store, p: Progress, a: Answers)
    requires InSets(c, p) && Convergence.TruthfulAnswers(c, s, p, a)
    ensures
      var (t, q) := Iterate(c, s, p, a);
      StoredSet(t, c, p.setsDone) ==
        if q.error.None? then SyncedSet(c, p.setsDone, StoredSet(s, c, p.setsDone)) else StoredSet(s, c, p.setsDone)
  {
    hide Patched, CountedStatus, SetKey, ControlledBy, NewStatefulSet;
    Convergence.SetIteration(c, s, p, a);
    if a.statefulSet.Found? && Writes(c, s, p, a) {
      Convergence.PatchSettles(c, p.setsDone, a.statefulSet.obj, a.statefulSet.obj);
    }
  }

  /** A set is as it was until its turn, and as its turn left it afterwards. */
  lemma {:induction false} FateOfSet(c: Cluster, s: Store, answers: seq<Answers>, i: nat)
    requires TruthfulSync(c, s, answers)
    ensures
      var (t, p) := Iterations(c, s, FRESH, answers);
      StoredSet(t, c, i) == if i < p.setsDone then SyncedSet(c, i, StoredSet(s, c, i)) else StoredSet(s, c, i)
  {
    hide Iterate, SyncedSet, SetKey, Convergence.TruthfulAnswers;
    if answers == [] {
    } else {
      var n := |answers| - 1;
      forall m | 0 <= m < n
        ensures answers[..n][..m] == answers[..m]
      {
      }
      FateOfSet(c, s, answers[..n], i);
      var (t, p) := Iterations(c, s, FRESH, answers[..n]);
      Convergence.IterationAdvances(c, t, p, answers[n]);
      Frames.IterationFrame(c, t, p, answers[n], c.Key(), i);
      if InSets(c, p) {
        TurnOfSet(c, t, p, answers[n]);
      }
    }
  }

  lemma {:induction false} ErrorStays(c: Cluster, s: Store, answers: seq<Answers>, n: nat)
    requires n <= |answers| && Iterations(c, s, FRESH, answers).1.error.None?
    ensures Iterations(c, s, FRESH, answers[..n]).1.error.None?
  {
    hide Iterate;
    if n == |answers| {
      assert answers[..n] == answers;
    } else {
      var m := |answers| - 1;
      var (t, p) := Iterations(c, s, FRESH, answers[..m]);
      Convergence.IterationAdvances(c, t, p, answers[m]);
      ErrorStays(c, s, answers[..m], n);
      assert answers[..m][..n] == answers[..n];
    }
  }

  /** A sync that completes has reached the set of group `i` at answer `Groups(c) + i`. */
  lemma WhenItsTurnComes(c: Cluster, s: Store, answers: seq<Answers>, i: nat)
    requires i < Groups(c) && Complete(c, Iterations(c, s, FRESH, answers).1)
    ensures |answers| >= 2 * Groups(c)
    ensures
      var p := Iterations(c, s, FRESH, answers[..Groups(c) + i]).1;
      InSets(c, p) && p.setsDone == i
  {
    hide Iterations;
    Readiness.CountersAreTotals(c, s, answers);
    ErrorStays(c, s, answers, Groups(c) + i);
    Readiness.CountersAreTotals(c, s, answers[..Groups(c) + i]);
  }

  lemma TruthOfSet(c: Cluster, s: Store, p: Progress, a: Answers)
    requires Convergence.TruthfulAnswers(c, s, p, a) && InSets(c, p)
    ensures a.statefulSet == StoredSet(s, c, p.setsDone)
  {
  }

  /** What the second loop is told of group `i` is what was stored when the sync began. */
  lemma AnswersAreStored(c: Cluster, s: Store, answers: seq<Answers>, i: nat)
    requires TruthfulSync(c, s, answers) && i < Groups(c)
    requires Complete(c, Iterations(c, s, FRESH, answers).1)
    ensures |answers| >= 2 * Groups(c) && answers[Groups(c) + i].statefulSet == StoredSet(s, c, i)
  {
    hide Iterations, Convergence.TruthfulAnswers, StoredSet, InSets, Complete;
    WhenItsTurnComes(c, s, answers, i);
    var n := Groups(c) + i;
    TruthfulPrefix(c, s, answers, n);
    FateOfSet(c, s, answers[..n], i);
    var (t, p) := Iterations(c, s, FRESH, answers[..n]);
    TruthOfSet(c, t, p, answers[n]);
  }

  /** The set of group `i` has all the members wanted, and all are there and ready. */
  predicate SetComplete(s: Store, c: Cluster, i: nat) {
    var g := StoredSet(s, c, i);
    var m := c.spec.membersPerGroup;
    g.Found? && g.obj.replicas == m && g.obj.status == SetStatus(m, m)
  }

  /** The set has the wanted number of replicas, but reports more. */
  predicate SetOverfull(s: Store, c: Cluster, i: nat) {
    var g := StoredSet(s, c, i);
    g.Found? && g.obj.replicas == c.spec.membersPerGroup && g.obj.status.replicas > c.spec.membersPerGroup
  }

  predicate SetSized(s: Store, c: Cluster, i: nat) {
    StoredSet(s, c, i).Found? && StoredSet(s, c, i).obj.replicas == c.spec.membersPerGroup
  }

  /** A complete sync with caught-up answers leaves a set complete that was complete, or
      that reported the wanted members before it had the wanted size. */
  lemma CompleteAfterSync(c: Cluster, s: Store, answers: seq<Answers>, i: nat)
    requires TruthfulSync(c, s, answers) && i < Groups(c) && c.spec.membersPerGroup >= 1
    requires Complete(c, Iterations(c, s, FRESH, answers).1)
    ensures
      var t := Iterations(c, s, FRESH, answers).0;
      && (SetComplete(t, c, i) <==>
            StoredSet(s, c, i).Found?
            && StoredSet(s, c, i).obj.status == SetStatus(c.spec.membersPerGroup, c.spec.membersPerGroup))
      && (SetComplete(s, c, i) <==> SetComplete(t, c, i) && SetSized(s, c, i))
  {
    hide Iterations, TruthfulSync;
    FateOfSet(c, s, answers, i);
  }

  lemma CompleteIsReady(c: Cluster, s: Store, answers: seq<Answers>, i: nat)
    requires Groups(c) + i < |answers| && c.spec.membersPerGroup >= 1
    requires answers[Groups(c) + i].statefulSet == StoredSet(s, c, i)
    ensures Readiness.GroupReady(c, answers, i) <==> SetComplete(s, c, i)
    ensures Readiness.Overfull(c, answers, i) <==> SetOverfull(s, c, i)
  {
    hide SetKey;
  }

  lemma EnoughAnswers(c: Cluster, s: Store, answers: seq<Answers>)
    requires Complete(c, Iterations(c, s, FRESH, answers).1)
    ensures |answers| >= 2 * Groups(c)
  {
    hide Iterations;
    Readiness.CountersAreTotals(c, s, answers);
  }

  /** The verdict of a complete sync with caught-up answers, in terms of the stored sets:
      it is True with none of them over-full exactly when every set stands complete
      afterwards and had its size already before. */
  lemma VerdictSpeaksOfStore(c: Cluster, s: Store, answers: seq<Answers>)
    requires TruthfulSync(c, s, answers) && c.spec.membersPerGroup >= 1
    requires Complete(c, Iterations(c, s, FRESH, answers).1)
    ensures
      var (t, p) := Iterations(c, s, FRESH, answers);
      (Readiness.Verdict(c, p) && forall i: nat | i < Groups(c) :: !SetOverfull(s, c, i)) <==>
      (c.spec.groupReplica >= 0 && forall i: nat | i < Groups(c) :: SetComplete(t, c, i) && SetSized(s, c, i))
  {
    hide Iterations, Complete, TruthfulSync, Readiness.Verdict;
    var (t, p) := Iterations(c, s, FRESH, answers);
    EnoughAnswers(c, s, answers);
    forall i: nat | i < Groups(c)
      ensures Readiness.GroupReady(c, answers, i) <==> SetComplete(t, c, i) && SetSized(s, c, i)
      ensures Readiness.Overfull(c, answers, i) <==> SetOverfull(s, c, i)
    {
      AnswersAreStored(c, s, answers, i);
      CompleteIsReady(c, s, answers, i);
      CompleteAfterSync(c, s, answers, i);
    }
    hide SetComplete, SetSized, SetOverfull, Readiness.GroupReady, Readiness.Overfull;
    Readiness.ReadyIffAllGroupsReady(c, s, answers);
  }

  /** A reported success, from end to end: with caught-up answers, agreement at the start,
      and at least one member wanted, the server now says ready, and no set was
      over-full, exactly when every group's set in the store has the wanted size, all its
      members are there and ready, and the sync did not have to size it first. */
  lemma PublishedReadyIsRight(before: Scene, after: Scene, answers: seq<Answers>, now: int,
                              surroundings: seq<Updater.Surroundings>, rounds: seq<Updates.Round>)
    requires SyncOutcome(before, after, answers, now, surroundings, Synced, rounds)
    requires TruthfulSync(NormaliseCluster(before.cluster), before.store, answers)
    requires surroundings != [] && before.server.Valid()
    requires StatusSync.ReadyOf(before.cluster.conditions) == StatusSync.ReadyOf(before.server.Current().conditions)
    requires Normalise(before.cluster.spec).membersPerGroup >= 1
    ensures
      var c := NormaliseCluster(before.cluster);
      && after.server.history != []
      && ((StatusSync.ReadyOf(after.server.Current().conditions) == Some(TRUE)
           && forall i: nat | i < Groups(c) :: !SetOverfull(before.store, c, i)) <==>
          (c.spec.groupReplica >= 0
           && forall i: nat | i < Groups(c) :: SetComplete(after.store, c, i) && SetSized(before.store, c, i)))
  {
    var c := NormaliseCluster(before.cluster);
    SyncedIsSound(before, after, answers, now, surroundings, rounds);
    assert TRUE[0] == 'T' && FALSE[0] == 'F';
    hide Iterations, Normalise, TruthfulSync, StatusSync.Publish, Updates.Retries, StatusSync.ReadyOf, Readiness.Verdict,
         SetComplete, SetSized, SetOverfull;
    VerdictSpeaksOfStore(c, before.store, answers);
  }

  /** An input for which looking at the store afterwards is not enough: a set of another
      size that reports just the members wanted. The sync sizes it, after which it
      stands complete, but counts it as new; so the verdict is False for a cluster that
      a look at the store finds ready. */
  lemma ResizedSetNotCounted(c: Cluster, s: Store, n: int32)
    requires c.spec.groupReplica == 1 && c.spec.membersPerGroup >= 1 && n != c.spec.membersPerGroup
    requires Lookup(s.services, ServiceKey(c.Key(), 0)) == Found(NewHeadlessService(c, 0))
    requires
      var m := c.spec.membersPerGroup;
      StoredSet(s, c, 0) == Found(NewStatefulSet(c, 0).(replicas := n, status := SetStatus(m, m)))
    ensures
      var answers := [Answers(Found(NewHeadlessService(c, 0)), NotFound, false), Answers(NotFound, StoredSet(s, c, 0), false)];
      var (t, p) := Iterations(c, s, FRESH, answers);
      TruthfulSync(c, s, answers) && Complete(c, p) && !Readiness.Verdict(c, p) && SetComplete(t, c, 0)
  {
    var a0 := Answers(Found(NewHeadlessService(c, 0)), NotFound, false);
    var a1 := Answers(NotFound, StoredSet(s, c, 0), false);
    var answers := [a0, a1];
    Convergence.NewIsControlled(c, 0);
    hide NewStatefulSet, NewHeadlessService, ControlledBy, Patched, SetKey, ServiceKey;
    assert answers[..1] == [a0] && [a0][..0] == [] && answers[..0] == [];
    assert Iterations(c, s, FRESH, []) == (s, FRESH);
    assert Iterations(c, s, FRESH, [a0]) == (s, Progress(1, 0, 0, 0, None));
    assert Iterations(c, s, FRESH, answers).1 == Progress(1, 1, 1, 0, None);
    CompleteAfterSync(c, s, answers, 0);
  }

  /******* Histories *******/

  /** Two calls in a row, of which the first failed to write its status. Between them the
      server and the store may have changed, but no event has replaced the lister's
      object. If the second comes to the same verdict, it makes no update at all, and
      still reports success, exactly when the list had a Ready condition to begin with;
      otherwise its result is that of a new attempt to publish. */
  lemma FailedWriteThenSync(before: Scene, middle: Scene, answers: seq<Answers>, now: int,
                            surroundings: seq<Updater.Surroundings>, failure: Updates.UpdateError, rounds: seq<Updates.Round>,
                            again: Scene, after: Scene, answers': seq<Answers>, now': int,
                            surroundings': seq<Updater.Surroundings>, result: SyncResult, rounds': seq<Updates.Round>)
    requires SyncOutcome(before, middle, answers, now, surroundings, StatusFailed(failure), rounds)
    requires SyncOutcome(again, after, answers', now', surroundings', result, rounds')
    requires again.cluster == middle.cluster && !result.Stopped?
    requires VerdictOf(again, answers') == VerdictOf(before, answers)
    ensures
      var ready := VerdictOf(again, answers');
      var pub := StatusSync.Publish(again.cluster.conditions, ready, now');
      && (pub.write <==> StatusSync.ReadyOf(before.cluster.conditions).None?)
      && if StatusSync.ReadyOf(before.cluster.conditions).Some?
         then result == Synced && after.server == again.server
         else
           var o := Updates.Retries(Updates.SetConditions(pub.status), after.cluster, again.server, rounds');
           after.server == o.server && (result == Synced <==> o.error == None)
  {
    hide Iterations, NormaliseCluster, StatusSync.Publish, Updates.Retries, StatusSync.ReadyOf, Readiness.Verdict,
         Complete, Updater.ScriptOf;
    var ready := VerdictOf(before, answers);
    StatusSync.PublishLaws(before.cluster.conditions, ready, now, READY);
    StatusSync.PublishLaws(again.cluster.conditions, ready, now', READY);
    NormalisedKeepsConditions(before.cluster);
  }

  /** What happens to one cluster: a sync with its outcome; an informer event, which
      replaces the lister's object by some version of it; or anything that others do to
      the server and the store. */
  datatype Deed =
    | Sync(answers: seq<Answers>, now: int, surroundings: seq<Updater.Surroundings>, result: SyncResult,
           rounds: seq<Updates.Round>)
    | Refresh
    | Elsewhere

  ghost predicate Happens(a: Scene, deed: Deed, b: Scene) {
    match deed
    case Sync(answers, now, surroundings, result, rounds) =>
      surroundings != [] && SyncOutcome(a, b, answers, now, surroundings, result, rounds)
    case Refresh => b.server == a.server && b.store == a.store
    case Elsewhere => b.cluster == a.cluster && b.server.Valid()
  }

  ghost predicate History(scenes: seq<Scene>, deeds: seq<Deed>) {
    && |scenes| == |deeds| + 1
    && scenes[0].server.Valid()
    && forall i | 0 <= i < |deeds| :: Happens(scenes[i], deeds[i], scenes[i + 1])
  }

  function StoredReady(scene: Scene): Option<string> {
    if scene.server.history == [] then None else StatusSync.ReadyOf(scene.server.Current().conditions)
  }

  /** The lister's object does not claim a verdict that the server does not hold. */
  predicate Agrees(scene: Scene) {
    var cached := StatusSync.ReadyOf(scene.cluster.conditions);
    cached.None? || cached == StoredReady(scene)
  }

  /** The three ways to lose agreement: a status write that failed, a change of the stored
      Ready condition by others, and an informer event that brings an outdated object. */
  predicate Disturbs(a: Scene, deed: Deed, b: Scene) {
    match deed
    case Sync(_, _, _, result, _) => result.StatusFailed?
    case Refresh => !Agrees(b)
    case Elsewhere => StoredReady(b) != StoredReady(a)
  }

  lemma SyncKeepsValid(a: Scene, deed: Deed, b: Scene)
    requires a.server.Valid() && Happens(a, deed, b)
    ensures b.server.Valid()
  {
    hide Iterations, NormaliseCluster, StatusSync.Publish, Updates.Retries, Readiness.Verdict, Complete, Updater.ScriptOf;
    if deed.Sync? {
      var pub := StatusSync.Publish(a.cluster.conditions, VerdictOf(a, deed.answers), deed.now);
      Updates.RetryContract(Updates.SetConditions(pub.status), b.cluster, a.server, deed.rounds);
    }
  }

  lemma {:induction false} HistoryValid(scenes: seq<Scene>, deeds: seq<Deed>, n: nat)
    requires History(scenes, deeds) && n <= |deeds|
    ensures scenes[n].server.Valid()
  {
    hide Happens, Updates.Server.Valid;
    if n == 0 {
    } else {
      HistoryValid(scenes, deeds, n - 1);
      SyncKeepsValid(scenes[n - 1], deeds[n - 1], scenes[n]);
    }
  }

  /** Without a disturbance agreement lasts, and every success is true. */
  lemma AgreementKept(a: Scene, deed: Deed, b: Scene)
    requires a.server.Valid() && Happens(a, deed, b) && Agrees(a) && !Disturbs(a, deed, b)
    ensures Agrees(b)
    ensures deed.Sync? && deed.result == Synced ==>
      StoredReady(b) == Some(StatusSync.StatusOf(VerdictOf(a, deed.answers)))
  {
    hide Iterations, NormaliseCluster, StatusSync.Publish, Updates.Retries, StatusSync.ReadyOf, Readiness.Verdict,
         Complete;
    SyncKeepsValid(a, deed, b);
    if deed.Sync? {
      var ready := VerdictOf(a, deed.answers);
      var pub := StatusSync.Publish(a.cluster.conditions, ready, deed.now);
      StatusSync.PublishLaws(a.cluster.conditions, ready, deed.now, READY);
      Updates.RetryContract(Updates.SetConditions(pub.status), b.cluster, a.server, deed.rounds);
      Updates.SuccessMeansStored(Updates.SetConditions(pub.status), b.cluster, a.server, deed.rounds);
      NormalisedKeepsConditions(a.cluster);
    }
  }

  lemma {:induction false} AgreementLasts(scenes: seq<Scene>, deeds: seq<Deed>, m: nat, n: nat)
    requires History(scenes, deeds) && m <= n <= |deeds| && Agrees(scenes[m])
    requires forall j | m <= j < n :: !Disturbs(scenes[j], deeds[j], scenes[j + 1])
    ensures Agrees(scenes[n])
  {
    hide Happens, Agrees, Disturbs;
    if n == m {
    } else {
      AgreementLasts(scenes, deeds, m, n - 1);
      HistoryValid(scenes, deeds, n - 1);
      AgreementKept(scenes[n - 1], deeds[n - 1], scenes[n]);
    }
  }

  /** In any history of syncs with any verdicts and outcomes, other writers, and informer
      events: a sync that reports success and leaves another verdict stored than its own
      has a cause, since any earlier moment of agreement, such as the last informer
      event that was not outdated. */
  lemma WrongSuccessHasCause(scenes: seq<Scene>, deeds: seq<Deed>, m: nat, n: nat)
    requires History(scenes, deeds) && m <= n < |deeds| && Agrees(scenes[m])
    requires deeds[n].Sync? && deeds[n].result == Synced
    requires StoredReady(scenes[n + 1]) != Some(StatusSync.StatusOf(VerdictOf(scenes[n], deeds[n].answers)))
    ensures exists j | m <= j < n :: Disturbs(scenes[j], deeds[j], scenes[j + 1])
  {
    hide Happens, Agrees, StoredReady, VerdictOf;
    if forall j | m <= j < n :: !Disturbs(scenes[j], deeds[j], scenes[j + 1]) {
      AgreementLasts(scenes, deeds, m, n);
      HistoryValid(scenes, deeds, n);
      AgreementKept(scenes[n], deeds[n], scenes[n + 1]);
    }
  }
}
