/** What the steps of the world leave alone. */
module Frames {
  import opened Values
  import opened Naming
  import opened Builders
  import opened Patches
  import opened Reconcile

  /** A StatefulSet without its status, which its own controller keeps changing. */
  function Erase(g: Get<StatefulSet>): Get<StatefulSet> {
    if g.Found? then Found(g.obj.(status := SetStatus(0, 0))) else g
  }

  /** What the server stores as the Service and the StatefulSet of group `i`. */
  function ServiceOf(s: Store, k: ObjectKey, i: nat): Get<Service> {
    Lookup(s.services, ServiceKey(k, i))
  }

  function SetOf(s: Store, k: ObjectKey, i: nat): Get<StatefulSet> {
    Erase(Lookup(s.sets, SetKey(k, i)))
  }

  /** The groups of cluster `k` have the same objects in both stores. */
  ghost predicate SameGroups(s: Store, t: Store, k: ObjectKey) {
    forall i: nat :: ServiceOf(s, k, i) == ServiceOf(t, k, i) && SetOf(s, k, i) == SetOf(t, k, i)
  }

  lemma CommitFrame(s: Store, w: Write, key: ObjectKey)
    requires Admits(s, w)
    ensures TargetOf(w) != ServiceTarget(key) ==> Lookup(Commit(s, w).services, key) == Lookup(s.services, key)
    ensures TargetOf(w) != SetTarget(key) ==> Lookup(Commit(s, w).sets, key) == Lookup(s.sets, key)
    ensures !w.CreateService? ==> Commit(s, w).services == s.services
    ensures w.CreateService? ==> Commit(s, w).sets == s.sets
  {
    hide Patched;
  }

  lemma RequestInPhase(c: Cluster, p: Progress, a: Answers)
    ensures !InServices(c, p) && !InSets(c, p) ==> Request(c, p, a).NoWrite?
  {
  }

  lemma NoWriteCommits(s: Store, w: Write)
    requires Admits(s, w)
    ensures w.NoWrite? ==> Commit(s, w) == s
  {
  }

  /** An iteration of one cluster's sync is about one object: that of its own current
      index. Every other group, of this and of every other cluster, stays as it is. */
  lemma IterationFrame(c: Cluster, s: Store, p: Progress, a: Answers, k: ObjectKey, i: nat)
    ensures
      var t := Iterate(c, s, p, a).0;
      && (!(InServices(c, p) && k == c.Key() && i == p.servicesDone) ==> ServiceOf(t, k, i) == ServiceOf(s, k, i))
      && (!(InSets(c, p) && k == c.Key() && i == p.setsDone) ==>
            Lookup(t.sets, SetKey(k, i)) == Lookup(s.sets, SetKey(k, i)))
  {
    hide Patched, NewStatefulSet, NewHeadlessService, SetKey, ServiceKey, After, Commit, Request, Admits;
    var w := Request(c, p, a);
    RequestTarget(c, p, a);
    RequestInPhase(c, p, a);
    KeysDisjoint(k, i, c.Key(), p.servicesDone);
    KeysDisjoint(k, i, c.Key(), p.setsDone);
    if !a.fault && Admits(s, w) {
      CommitFrame(s, w, ServiceKey(k, i));
      CommitFrame(s, w, SetKey(k, i));
      NoWriteCommits(s, w);
    }
  }

  /** The keys of the objects of cluster `k`. */
  ghost predicate OwnsService(k: ObjectKey, key: ObjectKey) {
    exists i: nat :: ServiceKey(k, i) == key
  }

  ghost predicate OwnsSet(k: ObjectKey, key: ObjectKey) {
    exists i: nat :: SetKey(k, i) == key
  }

  /** Nobody but the operator and the StatefulSet controller touches cluster `k`. */
  ghost predicate Undisturbed(k: ObjectKey, e: Event) {
    match e
    case AddService(svc) => !OwnsService(k, svc.Key())
    case AddSet(ss) => !OwnsSet(k, ss.Key())
    case DropSet(key) => !OwnsSet(k, key)
    case Resize(key, _) => !OwnsSet(k, key)
    case _ => true
  }

  /** Whatever happens elsewhere, the groups of cluster `k` keep their objects. */
  lemma OtherEventsInvisible(w: World, e: Event, k: ObjectKey)
    requires WellFiled(w) && Undisturbed(k, e)
    requires !(e.Step? && e.key == k)
    ensures SameGroups(w.store, Next(w, e).store, k)
    ensures !(e.Begin? && e.cluster.Key() == k) ==>
      Lookup(Next(w, e).jobs, k) == Lookup(w.jobs, k)
  {
    hide SetKey, ServiceKey;
    var t := Next(w, e).store;
    forall i: nat
      ensures ServiceOf(w.store, k, i) == ServiceOf(t, k, i) && SetOf(w.store, k, i) == SetOf(t, k, i)
    {
      if e.Step? && e.key in w.jobs {
        var j := w.jobs[e.key];
        IterationFrame(j.cluster, w.store, j.progress, e.answers, k, i);
      }
    }
  }
}
