/** The controller's sync as the imperative code it is: two loops that update the API
    server and the counters, and the publication of the verdict through the lister's
    own object. */
module Controller {
  import opened Values
  import opened Naming
  import opened Normalisation
  import opened Builders
  import opened Objects
  import opened Patches
  import opened Reconcile
  import Convergence
  import Prefix
  import Readiness
  import StatusSync
  import Updates
  import Updater

  lemma NextIteration(c: Cluster, s: Store, p: Progress, answers: seq<Answers>, k: nat)
    requires k < |answers|
    ensures
      var (s', p') := Iterations(c, s, p, answers[..k]);
      Iterations(c, s, p, answers[..k + 1]) == Iterate(c, s', p', answers[k])
  {
    assert answers[..k + 1][..k] == answers[..k];
  }

  /** Once a sync has stopped, further answers change nothing. */
  lemma {:induction false} StoppedStays(c: Cluster, s: Store, answers: seq<Answers>, k: nat)
    requires k <= |answers|
    requires
      var p := Iterations(c, s, FRESH, answers[..k]).1;
      !InServices(c, p) && !InSets(c, p)
    ensures Iterations(c, s, FRESH, answers) == Iterations(c, s, FRESH, answers[..k])
    decreases |answers| - k
  {
    hide Iterate, InServices, InSets;
    if k < |answers| {
      var (s', p') := Iterations(c, s, FRESH, answers[..k]);
      NextIteration(c, s, FRESH, answers, k);
      Prefix.IdleIteration(c, s', p', answers[k]);
      StoppedStays(c, s, answers, k + 1);
    } else {
      assert answers[..k] == answers;
    }
  }

  /** What syncHandler returns: nil for a key that is malformed or names no cluster, an
      error of one of three kinds, or nil after a full sync. */
  datatype SyncResult =
    | Ignored
    | ClusterGetFailed
    | Stopped(sync: SyncError)
    | StatusFailed(update: Updates.UpdateError)
    | Synced

  /** What a sync works on: the lister's object, the Services and StatefulSets, and the
      versions of the cluster. */
  datatype Scene = Scene(cluster: Cluster, store: Store, server: Updates.Server)

  /** The outcome of a sync: the store and the result are those of the iterations; the
      cluster object has its defaults, after the Services its override, and at the end
      the verdict; the cluster's own server record is that of the retried update. */
  ghost predicate SyncOutcome(before: Scene, after: Scene, answers: seq<Answers>, now: int,
                              surroundings: seq<Updater.Surroundings>, result: SyncResult, rounds: seq<Updates.Round>)
  {
    var was := before.cluster;
    var c := NormaliseCluster(was);
    var (s, p) := Iterations(c, before.store, FRESH, answers);
    && after.store == s
    && if p.error.Some? then
         && result == Stopped(p.error.value)
         && after.server == before.server
         && after.cluster ==
              was.(spec := if p.servicesDone < Groups(c) then WithDefaults(was.spec) else Normalise(was.spec))
       else
         var pub := StatusSync.Publish(was.conditions, Readiness.Verdict(c, p), now);
         && Complete(c, p)
         && after.cluster == c.(conditions := pub.cached)
         && Updater.ScriptOf(surroundings, rounds)
         && if pub.write then
              var o := Updates.Retries(Updates.SetConditions(pub.status), after.cluster, before.server, rounds);
              after.server == o.server
              && result == (if o.error == None then Synced else StatusFailed(o.error.value))
            else after.server == before.server && result == Synced
  }

  /** A deep copy is outside every set of objects that exist already. */
  method CopyAside(cluster: BrokerCluster, ghost known: set<object>) returns (copy: BrokerCluster)
    ensures fresh(copy) && fresh(copy.status) && copy.Value() == cluster.Value()
    ensures copy !in known && copy.status !in known
  {
    copy := cluster.DeepCopy();
  }

  lemma SameService(c: Cluster, d: Cluster, i: nat)
    requires c.Key() == d.Key() && c.uid == d.uid
    ensures NewHeadlessService(c, i) == NewHeadlessService(d, i)
  {
  }

  /** An iteration of the first loop, case by case. */
  lemma ServiceIterationCases(c: Cluster, s: Store, p: Progress, a: Answers)
    requires InServices(c, p)
    ensures
      var r := Iterate(c, s, p, a);
      var w := CreateService(NewHeadlessService(c, p.servicesDone));
      match a.service
      case ListerError => r == (s, p.(error := Some(GetFailed)))
      case NotFound =>
        ControlledBy(w.service.owners, c.uid) &&
        r == (if !a.fault && Admits(s, w) then (Commit(s, w), p.(servicesDone := p.servicesDone + 1))
              else (s, p.(error := Some(WriteFailed))))
      case Found(svc) =>
        r == (s, if ControlledBy(svc.owners, c.uid) then p.(servicesDone := p.servicesDone + 1)
                 else p.(error := Some(NotControlled)))
  {
    Convergence.NewIsControlled(c, p.servicesDone);
    hide Admits, NewHeadlessService, ControlledBy;
  }

  /** An iteration of the second loop, case by case. */
  lemma SetIterationCases(c: Cluster, s: Store, p: Progress, a: Answers)
    requires InSets(c, p)
    ensures
      var r := Iterate(c, s, p, a);
      var i := p.setsDone;
      var wanted := NewStatefulSet(c, i);
      && wanted.replicas == c.spec.membersPerGroup && wanted.status == SetStatus(0, 0)
      && ControlledBy(wanted.owners, c.uid)
      && match a.statefulSet
         case ListerError => r == (s, p.(error := Some(GetFailed)))
         case NotFound =>
           r == (if !a.fault && Admits(s, CreateSet(wanted))
                 then (Commit(s, CreateSet(wanted)), Count(p, SetStatus(0, 0)).(setsDone := i + 1))
                 else (s, p.(error := Some(WriteFailed))))
         case Found(ss) =>
           var w := PatchSet(SetKey(c.Key(), i), ss, wanted);
           r == (if !ControlledBy(ss.owners, c.uid) then (s, p.(error := Some(NotControlled)))
                 else if ss.replicas == c.spec.membersPerGroup then (s, Count(p, ss.status).(setsDone := i + 1))
                 else if !a.fault && Admits(s, w) then (Commit(s, w), Count(p, SetStatus(0, 0)).(setsDone := i + 1))
                 else (s, p.(error := Some(WriteFailed))))
  {
    Convergence.NewIsControlled(c, p.setsDone);
    hide Admits, ControlledBy, Patched, BrokerEnv, PodLabels;
  }

  class BrokerController {
    /** The API server's Services and StatefulSets. */
    var store: Store
    const updater: Updater.ClusterUpdater

    constructor (store: Store, updater: Updater.ClusterUpdater)
      ensures this.store == store && this.updater == updater
    {
      this.store, this.updater := store, updater;
    }

    /** A create or a patch sent to the API server. */
    method Send(w: Write, fault: bool) returns (ok: bool)
      modifies `store
      ensures ok == (!fault && Admits(old(store), w))
      ensures store == if ok then Commit(old(store), w) else old(store)
    {
      ok := !fault && Admits(store, w);
      if ok {
        store := Commit(store, w);
      }
    }

    /** The loop over the Services. */
    method SyncServices(cluster: BrokerCluster, groupReplica: int, answers: seq<Answers>, ghost c: Cluster)
      returns (done: nat, error: Option<SyncError>)
      requires c.Key() == ObjectKey(cluster.namespace, cluster.name) && c.uid == cluster.uid
      requires groupReplica == c.spec.groupReplica && |answers| >= Groups(c)
      modifies `store
      ensures done <= Groups(c) && (error.None? <==> done == Groups(c))
      ensures
        Iterations(c, old(store), FRESH, answers[..done + if error.Some? then 1 else 0])
        == (store, FRESH.(servicesDone := done, error := error))
    {
      hide Iterate, ControlledBy, NewHeadlessService;
      ghost var s0 := store;
      var index := 0;
      assert answers[..0] == [];
      while index < groupReplica
        invariant 0 <= index <= Groups(c)
        invariant Iterations(c, s0, FRESH, answers[..index]) == (store, FRESH.(servicesDone := index))
      {
        NextIteration(c, s0, FRESH, answers, index);
        SameService(c, cluster.Value(), index);
        ServiceIterationCases(c, store, FRESH.(servicesDone := index), answers[index]);
        var svc: Service;
        match answers[index].service {
          case ListerError => return index, Some(GetFailed);
          case NotFound =>
            svc := NewHeadlessService(cluster.Value(), index);
            var ok := Send(CreateService(svc), answers[index].fault);
            if !ok {
              return index, Some(WriteFailed);
            }
          case Found(obj) => svc := obj;
        }
        if !ControlledBy(svc.owners, cluster.uid) {
          return index, Some(NotControlled);
        }
        index := index + 1;
      }
      return index, None;
    }

    /** The loop over the StatefulSets. */
    method SyncStatefulSets(cluster: BrokerCluster, groupReplica: int, answers: seq<Answers>,
                            ghost c: Cluster, ghost s0: Store)
      returns (ghost done: nat, readyGroups: int, readyMembers: int, error: Option<SyncError>)
      requires Convergence.SameTask(c, cluster.Value())
      requires groupReplica == c.spec.groupReplica && |answers| >= 2 * Groups(c)
      requires Iterations(c, s0, FRESH, answers[..Groups(c)]) == (store, FRESH.(servicesDone := Groups(c)))
      modifies `store
      ensures done <= Groups(c) && readyGroups >= 0 && (error.None? <==> done == Groups(c))
      ensures
        Iterations(c, s0, FRESH, answers[..Groups(c) + done + if error.Some? then 1 else 0])
        == (store, Progress(Groups(c), done, readyGroups, readyMembers, error))
    {
      hide Iterate, Iterations, ControlledBy, NewStatefulSet, Commit, Admits, SetKey;
      var index := 0;
      readyGroups, readyMembers := 0, 0;
      ghost var g := Groups(c);
      while index < groupReplica
        invariant 0 <= index <= g && readyGroups >= 0
        invariant Iterations(c, s0, FRESH, answers[..g + index])
               == (store, Progress(g, index, readyGroups, readyMembers, None))
      {
        var a := answers[groupReplica + index];
        NextIteration(c, s0, FRESH, answers, g + index);
        Convergence.SameTaskSameObjects(c, cluster.Value(), index);
        assert SetKey(cluster.Value().Key(), index) == SetKey(c.Key(), index);
        SetIterationCases(c, store, Progress(g, index, readyGroups, readyMembers, None), a);
        var ss: StatefulSet;
        match a.statefulSet {
          case ListerError => return index, readyGroups, readyMembers, Some(GetFailed);
          case NotFound =>
            ss := NewStatefulSet(cluster.Value(), index);
            var ok := Send(CreateSet(ss), a.fault);
            if !ok {
              return index, readyGroups, readyMembers, Some(WriteFailed);
            }
          case Found(obj) => ss := obj;
        }
        if !ControlledBy(ss.owners, cluster.uid) {
          return index, readyGroups, readyMembers, Some(NotControlled);
        }
        if cluster.spec.membersPerGroup != ss.replicas {
          var wanted := NewStatefulSet(cluster.Value(), index);
          var ok := Send(PatchSet(SetKey(cluster.Value().Key(), index), ss, wanted), a.fault);
          if !ok {
            return index, readyGroups, readyMembers, Some(WriteFailed);
          }
          ss := wanted;
        }
        if ss.status.readyReplicas == ss.status.replicas {
          readyGroups := readyGroups + 1;
          readyMembers := readyMembers + ss.status.replicas;
        }
        index := index + 1;
      }
      return index, readyGroups, readyMembers, None;
    }

    /** The first half of updateClusterStatus: the verdict is written into the lister's
        own object, if its list has a Ready condition, and into a copy of its list. */
    method EditConditions(cluster: BrokerCluster, ready: bool, now: int)
      returns (status: BrokerClusterStatus, updated: bool)
      modifies cluster.status.conditions
      ensures fresh(status) && fresh(status.conditions)
      ensures
        var p := StatusSync.Publish(old(cluster.status.conditions.elements), ready, now);
        && cluster.status.conditions.elements == p.cached
        && status.conditions.elements == p.status
        && updated == p.write
    {
      ghost var cs := cluster.status.conditions.elements;
      status := cluster.status.DeepCopy();
      var index, found := GetClusterCondition(cluster.status, READY);
      var condition: ConditionPointer;
      if found.None? {
        var own := new ConditionArray([Condition(READY, "", 0, "", "")]);
        condition := ConditionPointer(own, 0);
      } else {
        condition := found.value;
      }
      WriteThrough(condition, condition.Target().(status := StatusSync.StatusOf(ready)));
      assert condition.Target() == StatusSync.Argument(cs, ready);
      updated := UpdateClusterCondition(status, condition, now);
    }

    /** updateClusterStatus. The lister's object keeps the edit whether or not the update
        that follows succeeds. */
    method UpdateClusterStatus(cluster: BrokerCluster, readyGroups: int, readyMembers: int, now: int,
                               surroundings: seq<Updater.Surroundings>, refreshed: seq<BrokerCluster?>)
      returns (error: Option<Updates.UpdateError>, ghost rounds: seq<Updates.Round>)
      requires |surroundings| == |refreshed|
      modifies cluster.status.conditions, updater
      ensures
        var spec := old(cluster.spec.Value());
        var ready := readyGroups == spec.groupReplica && readyMembers == spec.groupReplica * spec.membersPerGroup;
        var p := StatusSync.Publish(old(cluster.status.conditions.elements), ready, now);
        && cluster.Value() == old(cluster.Value()).(conditions := p.cached)
        && Updater.ScriptOf(surroundings, rounds)
        && (forall i | 0 <= i < |rounds| :: Updater.Holds(refreshed[i], rounds[i]))
        && if p.write then
             var o := Updates.Retries(Updates.SetConditions(p.status), cluster.Value(), old(updater.server), rounds);
             updater.server == o.server && error == o.error
           else updater.server == old(updater.server) && error == None
    {
      var ready := readyGroups == cluster.spec.groupReplica
        && readyMembers == cluster.spec.groupReplica * cluster.spec.membersPerGroup;
      var status, updated := EditConditions(cluster, ready, now);
      assert cluster.Value() == old(cluster.Value()).(conditions := cluster.status.conditions.elements);
      hide Updater.AllHold, BrokerCluster.Footprint, StatusSync.Publish, Updates.Retries;
      var script;
      ghost var cache;
      script, cache := Updater.Script(surroundings, refreshed);
      rounds, error := script, None;
      if updated {
        var copy := CopyAside(cluster, cache);
        error := updater.UpdateClusterStatus(copy, status, script, refreshed, cache);
      }
      forall i | 0 <= i < |rounds|
        ensures Updater.Holds(refreshed[i], rounds[i])
      {
        Updater.AllHoldAt(cache, refreshed, rounds, i);
      }
    }

    /** The part of syncHandler between the lookup of the cluster and its status: the
        defaults, the Services, the AllMaster override, and the StatefulSets. */
    method SyncGroups(cluster: BrokerCluster, answers: seq<Answers>)
      returns (readyGroups: int, readyMembers: int, error: Option<SyncError>)
      requires cluster.Valid()
      requires |answers| >= 2 * Groups(NormaliseCluster(cluster.Value()))
      modifies `store, cluster.spec, cluster.spec.properties
      ensures
        var was := old(cluster.Value());
        var c := NormaliseCluster(was);
        var (s, p) := Iterations(c, old(store), FRESH, answers);
        && store == s && error == p.error
        && (error.None? ==> Complete(c, p) && readyGroups == p.readyGroups && readyMembers == p.readyMembers)
        && cluster.Value() ==
             was.(spec := if error.Some? && p.servicesDone < Groups(c) then WithDefaults(was.spec) else Normalise(was.spec))
    {
      hide Iterations, WithDefaults;
      ghost var was := cluster.Value();
      ghost var c := NormaliseCluster(was);
      ghost var s0 := store;
      readyGroups, readyMembers := 0, 0;
      cluster.EnsureDefaults();
      var groupReplica: int := cluster.spec.groupReplica;
      NormalisationLaws(was.spec);
      var done;
      done, error := SyncServices(cluster, groupReplica, answers, c);
      if error.Some? {
        StoppedStays(c, s0, answers, done + 1);
        return;
      }
      if cluster.spec.membersPerGroup == 0 {
        assert false;
      }
      if cluster.spec.allMaster {
        cluster.spec.membersPerGroup := 1;
      }
      assert cluster.Value() == c;
      ghost var setsDone;
      setsDone, readyGroups, readyMembers, error := SyncStatefulSets(cluster, groupReplica, answers, c, s0);
      StoppedStays(c, s0, answers, Groups(c) + setsDone + if error.Some? then 1 else 0);
    }

    /** A call of the sync has the outcome it should, from what there was before it. */
    twostate predicate SyncDone(cluster: BrokerCluster, answers: seq<Answers>, now: int,
                                surroundings: seq<Updater.Surroundings>, result: SyncResult, rounds: seq<Updates.Round>)
      reads *
    {
      SyncOutcome(Scene(old(cluster.Value()), old(store), old(updater.server)),
                  Scene(cluster.Value(), store, updater.server), answers, now, surroundings, result, rounds)
    }

    /** syncHandler from the point where it has the lister's object: defaults, Services,
        the AllMaster override, StatefulSets, verdict. Each part happens only if the
        ones before it met no error. */
    method SyncCluster(cluster: BrokerCluster, answers: seq<Answers>, now: int,
                       surroundings: seq<Updater.Surroundings>, refreshed: seq<BrokerCluster?>)
      returns (result: SyncResult, ghost rounds: seq<Updates.Round>)
      requires cluster.Valid() && |surroundings| == |refreshed|
      requires |answers| >= 2 * Groups(NormaliseCluster(cluster.Value()))
      modifies `store, updater, cluster.spec, cluster.spec.properties, cluster.status.conditions
      ensures SyncDone(cluster, answers, now, surroundings, result, rounds)
      ensures result != Ignored && result != ClusterGetFailed
    {
      hide Iterations, StatusSync.Publish, Updates.Retries, WithDefaults, Complete;
      rounds := [];
      var readyGroups, readyMembers, error := SyncGroups(cluster, answers);
      if error.Some? {
        return Stopped(error.value), rounds;
      }
      var failure;
      failure, rounds := UpdateClusterStatus(cluster, readyGroups, readyMembers, now, surroundings, refreshed);
      return if failure.None? then Synced else StatusFailed(failure.value), rounds;
    }

    /** syncHandler. A malformed key and a cluster that is gone are no errors. */
    method SyncHandler(key: string, lister: Get<BrokerCluster>, answers: seq<Answers>, now: int,
                       surroundings: seq<Updater.Surroundings>, refreshed: seq<BrokerCluster?>)
      returns (result: SyncResult, ghost rounds: seq<Updates.Round>)
      requires |surroundings| == |refreshed|
      requires lister.Found? ==>
        && lister.obj.Valid()
        && SplitMetaNamespaceKey(key) == Some(lister.obj.Value().Key())
        && |answers| >= 2 * Groups(NormaliseCluster(lister.obj.Value()))
      modifies `store, updater
      modifies if lister.Found?
               then {lister.obj.spec, lister.obj.spec.properties, lister.obj.status.conditions} else {}
      ensures result == Ignored <==> SplitMetaNamespaceKey(key) == None || lister == NotFound
      ensures result == ClusterGetFailed <==> SplitMetaNamespaceKey(key).Some? && lister == ListerError
      ensures lister.Found? ==> SyncDone(lister.obj, answers, now, surroundings, result, rounds)
      ensures !lister.Found? ==> store == old(store) && updater.server == old(updater.server)
    {
      hide Iterations, StatusSync.Publish, Updates.Retries, NormaliseCluster, SyncOutcome;
      rounds := [];
      var name := SplitMetaNamespaceKey(key);
      if name.None? {
        return Ignored, rounds;
      }
      match lister
      case NotFound => return Ignored, rounds;
      case ListerError => return ClusterGetFailed, rounds;
      case Found(cluster) =>
        result, rounds := SyncCluster(cluster, answers, now, surroundings, refreshed);
    }
  }
}
