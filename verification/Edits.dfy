/** What an edit of the spec can and cannot change in the runs that follow it. */
module Edits {
  import opened Values
  import opened Naming
  import opened Normalisation
  import opened Builders
  import opened Patches
  import opened Reconcile
  import opened Frames
  import opened Convergence

  /******* What two stores have in common *******/

  /** A StatefulSet without its pod template, the only part of it that a spec edit other
      than of the counts can show in. */
  function Bare(ss: StatefulSet): StatefulSet {
    ss.(template := PodTemplate(map[], map[], "", map[], map[]))
  }

  predicate AlikeGets(g: Get<StatefulSet>, h: Get<StatefulSet>) {
    if g.Found? && h.Found? then Bare(g.obj) == Bare(h.obj) else g == h
  }

  /** The stores are equal but for pod templates. */
  ghost predicate Alike(s: Store, t: Store) {
    s.services == t.services && forall key :: AlikeGets(Lookup(s.sets, key), Lookup(t.sets, key))
  }

  /** The two clusters differ, if at all, in parts of the spec other than the counts. */
  predicate SameCounts(c: Cluster, d: Cluster) {
    && c.Key() == d.Key() && c.uid == d.uid
    && c.spec.groupReplica == d.spec.groupReplica && c.spec.membersPerGroup == d.spec.membersPerGroup
  }

  /** What an iteration is told may differ in pod templates only. */
  predicate AlikeAnswers(c: Cluster, p: Progress, a: Answers, b: Answers) {
    && a.fault == b.fault
    && (InServices(c, p) ==> a.service == b.service)
    && (InSets(c, p) ==> AlikeGets(a.statefulSet, b.statefulSet))
  }

  predicate AlikeWrites(v: Write, w: Write) {
    match v
    case CreateSet(ss) => w.CreateSet? && Bare(w.ss) == Bare(ss)
    case PatchSet(key, cached, wanted) =>
      w.PatchSet? && w.key == key && Bare(w.cached) == Bare(cached) && Bare(w.wanted) == Bare(wanted)
    case _ => w == v
  }

  /******* One iteration *******/

  lemma SameCountsSameObjects(c: Cluster, d: Cluster, i: nat)
    requires SameCounts(c, d)
    ensures NewHeadlessService(c, i) == NewHeadlessService(d, i)
    ensures Bare(NewStatefulSet(c, i)) == Bare(NewStatefulSet(d, i))
    ensures SetKey(c.Key(), i) == SetKey(d.Key(), i) && ServiceKey(c.Key(), i) == ServiceKey(d.Key(), i)
  {
    hide BrokerEnv, PodLabels, Decimal;
  }

  lemma BarePatch(cached: StatefulSet, cached': StatefulSet, v: StatefulSet, w: StatefulSet, a: StatefulSet, b: StatefulSet)
    requires Bare(cached) == Bare(cached') && Bare(v) == Bare(w) && Bare(a) == Bare(b)
    ensures Bare(Patched(cached, v, a)) == Bare(Patched(cached', w, b))
  {
    hide MergeMap, MergeOwners, MergeTemplate;
  }

  lemma BareKeepsKey(ss: StatefulSet, tt: StatefulSet)
    requires Bare(ss) == Bare(tt)
    ensures ss.Key() == tt.Key()
  {
  }

  lemma AlikeAt(s: Store, t: Store, key: ObjectKey)
    requires Alike(s, t)
    ensures key in s.sets <==> key in t.sets
    ensures key in s.sets ==> Bare(s.sets[key]) == Bare(t.sets[key])
  {
    assert AlikeGets(Lookup(s.sets, key), Lookup(t.sets, key));
  }

  lemma AlikePut(s: Store, t: Store, key: ObjectKey, a: StatefulSet, b: StatefulSet)
    requires Alike(s, t) && Bare(a) == Bare(b)
    ensures Alike(s.(sets := s.sets[key := a]), t.(sets := t.sets[key := b]))
  {
    hide Bare;
    var s', t' := s.(sets := s.sets[key := a]), t.(sets := t.sets[key := b]);
    forall k
      ensures AlikeGets(Lookup(s'.sets, k), Lookup(t'.sets, k))
    {
      AlikeAt(s, t, k);
    }
  }

  lemma AlikeCommits(s: Store, t: Store, v: Write, w: Write)
    requires Alike(s, t) && AlikeWrites(v, w)
    ensures Admits(s, v) == Admits(t, w)
    ensures Admits(s, v) ==> Alike(Commit(s, v), Commit(t, w))
  {
    match v
    case CreateSet(ss) =>
      hide Bare, Alike;
      BareKeepsKey(ss, w.ss);
      AlikeAt(s, t, ss.Key());
      AlikePut(s, t, ss.Key(), ss, w.ss);
    case PatchSet(key, cached, wanted) =>
      hide Bare, Alike, Patched;
      AlikeAt(s, t, key);
      if key in s.sets {
        BarePatch(cached, w.cached, wanted, w.wanted, s.sets[key], t.sets[key]);
        AlikePut(s, t, key, Patched(cached, wanted, s.sets[key]), Patched(w.cached, w.wanted, t.sets[key]));
      }
    case _ =>
  }

  lemma BareDecides(ss: StatefulSet, tt: StatefulSet)
    requires Bare(ss) == Bare(tt)
    ensures ss.owners == tt.owners && ss.replicas == tt.replicas && ss.status == tt.status
  {
  }

  lemma AlikeRequests(c: Cluster, d: Cluster, p: Progress, a: Answers, b: Answers)
    requires SameCounts(c, d) && AlikeAnswers(c, p, a, b)
    ensures AlikeWrites(Request(c, p, a), Request(d, p, b))
    ensures Request(c, p, a).NoWrite? == Request(d, p, b).NoWrite?
    ensures forall ok :: After(c, p, a, ok) == After(d, p, b, ok)
  {
    SameCountsSameObjects(c, d, p.servicesDone);
    SameCountsSameObjects(c, d, p.setsDone);
    hide Bare, NewStatefulSet, NewHeadlessService, ControlledBy, SetKey, ServiceKey;
    if InSets(c, p) && a.statefulSet.Found? && b.statefulSet.Found? {
      BareDecides(a.statefulSet.obj, b.statefulSet.obj);
    }
  }

  lemma NoWriteChangesNothing(s: Store, w: Write)
    ensures w.NoWrite? ==> Admits(s, w) && Commit(s, w) == s
  {
  }

  /** Of the spec only the two counts decide what an iteration does: whether it writes,
      how it ends, and what it counts, for any answers, stale ones too. Everything else
      in the spec shows in the pod templates of what is written, and nowhere else. */
  lemma {:induction false} OtherEditsOnlyShowInTemplates(c: Cluster, d: Cluster, s: Store, t: Store, p: Progress, a: Answers, b: Answers)
    requires SameCounts(c, d) && Alike(s, t) && AlikeAnswers(c, p, a, b)
    ensures Writes(c, s, p, a) == Writes(d, t, p, b)
    ensures Iterate(c, s, p, a).1 == Iterate(d, t, p, b).1
    ensures Alike(Iterate(c, s, p, a).0, Iterate(d, t, p, b).0)
    ensures !Writes(c, s, p, a) ==> Iterate(c, s, p, a).0 == s && Iterate(d, t, p, b).0 == t
  {
    AlikeRequests(c, d, p, a, b);
    AlikeCommits(s, t, Request(c, p, a), Request(d, p, b));
    NoWriteChangesNothing(s, Request(c, p, a));
    NoWriteChangesNothing(t, Request(d, p, b));
    hide After, Request, Alike, Admits, Commit, AlikeAnswers, SameCounts, AlikeWrites;
  }

  /** Listers that are caught up on the two stores answer alike. */
  lemma CaughtUpAnswersAlike(c: Cluster, d: Cluster, s: Store, t: Store, p: Progress, a: Answers, b: Answers)
    requires SameCounts(c, d) && Alike(s, t) && a.fault == b.fault
    requires TruthfulAnswers(c, s, p, a) && TruthfulAnswers(d, t, p, b)
    ensures AlikeAnswers(c, p, a, b)
  {
    hide Bare, SetKey, ServiceKey;
    assert AlikeGets(Lookup(s.sets, SetKey(c.Key(), p.setsDone)), Lookup(t.sets, SetKey(c.Key(), p.setsDone)));
  }

  /******* Whole runs *******/

  /** The same syncs are as far in both worlds. */
  ghost predicate AlikeWorlds(w: World, v: World) {
    && Alike(w.store, v.store)
    && w.jobs.Keys == v.jobs.Keys
    && forall k | k in w.jobs ::
         SameCounts(w.jobs[k].cluster, v.jobs[k].cluster) && w.jobs[k].progress == v.jobs[k].progress
  }

  predicate AlikeEvents(w: World, e: Event, f: Event) {
    match e
    case Begin(c) => f.Begin? && SameCounts(NormaliseCluster(c), NormaliseCluster(f.cluster))
    case Step(k, a) =>
      f.Step? && f.key == k
      && (k in w.jobs ==> AlikeAnswers(w.jobs[k].cluster, w.jobs[k].progress, a, f.answers))
    case AddSet(ss) => f.AddSet? && Bare(ss) == Bare(f.ss)
    case _ => f == e
  }

  lemma StepsAlike(w: World, v: World, k: ObjectKey, a: Answers, b: Answers)
    requires AlikeWorlds(w, v) && AlikeEvents(w, Step(k, a), Step(k, b))
    ensures AlikeWorlds(Next(w, Step(k, a)), Next(v, Step(k, b)))
    ensures k in w.jobs ==>
      Writes(w.jobs[k].cluster, w.store, w.jobs[k].progress, a) == Writes(v.jobs[k].cluster, v.store, v.jobs[k].progress, b)
  {
    hide Iterate, Writes, Alike, AlikeAnswers, SameCounts;
    if k in w.jobs {
      OtherEditsOnlyShowInTemplates(w.jobs[k].cluster, v.jobs[k].cluster, w.store, v.store, w.jobs[k].progress, a, b);
    }
  }

  lemma BeginsAlike(w: World, v: World, c: Cluster, d: Cluster)
    requires AlikeWorlds(w, v) && SameCounts(NormaliseCluster(c), NormaliseCluster(d))
    ensures AlikeWorlds(Next(w, Begin(c)), Next(v, Begin(d)))
  {
    hide Alike, Normalise;
  }

  lemma BareChanges(a: StatefulSet, b: StatefulSet, status: SetStatus, n: int32)
    requires Bare(a) == Bare(b)
    ensures Bare(a.(status := status)) == Bare(b.(status := status))
    ensures Bare(a.(replicas := n)) == Bare(b.(replicas := n))
  {
  }

  /** The rest of the world does to one store what it does to the other. */
  lemma OthersAlike(w: World, v: World, e: Event, f: Event)
    requires AlikeWorlds(w, v) && AlikeEvents(w, e, f) && !e.Begin? && !e.Step?
    ensures AlikeWorlds(Next(w, e), Next(v, f))
  {
    hide SameCounts, Bare;
    match e
    case AddSet(ss) =>
      hide Alike;
      BareKeepsKey(ss, f.ss);
      AlikeAt(w.store, v.store, ss.Key());
      AlikePut(w.store, v.store, ss.Key(), ss, f.ss);
    case Status(k, status) =>
      hide Alike;
      AlikeAt(w.store, v.store, k);
      if k in w.store.sets {
        BareChanges(w.store.sets[k], v.store.sets[k], status, 0);
        AlikePut(w.store, v.store, k, w.store.sets[k].(status := status), v.store.sets[k].(status := status));
      }
    case Resize(k, n) =>
      hide Alike;
      AlikeAt(w.store, v.store, k);
      if k in w.store.sets {
        BareChanges(w.store.sets[k], v.store.sets[k], SetStatus(0, 0), n);
        AlikePut(w.store, v.store, k, w.store.sets[k].(replicas := n), v.store.sets[k].(replicas := n));
      }
    case DropSet(k) =>
      forall key
        ensures AlikeGets(Lookup(w.store.sets - {k}, key), Lookup(v.store.sets - {k}, key))
      {
        AlikeAt(w.store, v.store, key);
      }
    case AddService(_) =>
  }

  lemma EventsAlike(w: World, v: World, e: Event, f: Event, c: Cluster)
    requires AlikeWorlds(w, v) && AlikeEvents(w, e, f)
    ensures AlikeWorlds(Next(w, e), Next(v, f))
    ensures IsWrite(c, w, e) == IsWrite(c, v, f)
  {
    hide Next, Writes, Alike, AlikeAnswers, SameCounts;
    match e
    case Begin(b) => BeginsAlike(w, v, b, f.cluster);
    case Step(k, a) => StepsAlike(w, v, k, a, f.answers);
    case _ => OthersAlike(w, v, e, f);
  }

  /** Two runs of any number of syncs of any clusters, in which the specs differ in
      other things than the counts: they make the same creates and patches at the same
      moments, all syncs get equally far and count the same, and the stores differ in
      pod templates at most. */
  lemma {:induction false} OtherEditsLeaveRunsAlone(w: World, v: World, es: seq<Event>, fs: seq<Event>, c: Cluster)
    requires AlikeWorlds(w, v) && |es| == |fs|
    requires forall n | 0 <= n < |es| :: AlikeEvents(Run(w, es[..n]), es[n], fs[n])
    ensures AlikeWorlds(Run(w, es), Run(v, fs))
    ensures CountWrites(c, w, es) == CountWrites(c, v, fs)
  {
    hide Next, AlikeWorlds, AlikeEvents, IsWrite;
    if es == [] {
    } else {
      var n := |es| - 1;
      forall m | 0 <= m < n
        ensures AlikeEvents(Run(w, es[..n][..m]), es[..n][m], fs[..n][m])
      {
        assert es[..n][..m] == es[..m];
      }
      OtherEditsLeaveRunsAlone(w, v, es[..n], fs[..n], c);
      EventsAlike(Run(w, es[..n]), Run(v, fs[..n]), es[n], fs[n], c);
    }
  }

  /******* Edits that arrive *******/

  /** When the template of the spec as it is now reaches the stored set: with caught-up
      answers, a finished iteration leaves it there exactly if the set was missing, or
      was patched because of its replicas, or had that template before. */
  lemma TemplateArrives(c: Cluster, s: Store, p: Progress, a: Answers)
    requires InSets(c, p) && TruthfulAnswers(c, s, p, a) && Iterate(c, s, p, a).1.error.None?
    ensures
      var key := SetKey(c.Key(), p.setsDone);
      var wanted := NewStatefulSet(c, p.setsDone).template;
      var t := Iterate(c, s, p, a).0;
      key in t.sets &&
      (t.sets[key].template == wanted <==>
         key !in s.sets || s.sets[key].replicas != c.spec.membersPerGroup || s.sets[key].template == wanted)
  {
    hide NewStatefulSet, SetKey, Patched, CountedStatus, ControlledBy;
    SetIteration(c, s, p, a);
    NewIsControlled(c, p.setsDone);
    if a.statefulSet.Found? && Writes(c, s, p, a) {
      PatchSettles(c, p.setsDone, a.statefulSet.obj, a.statefulSet.obj);
    }
  }

  lemma {:induction false} AllBelow(xs: set<nat>, n: nat)
    requires forall x: nat :: x in xs <==> x < n
    ensures |xs| == n
    decreases n
  {
    if n > 0 {
      AllBelow(xs - {n - 1}, n - 1);
    } else {
      assert xs == {};
    }
  }

  /** Where nothing is missing, an edit of the member count unsettles every group. */
  lemma MemberEditUnsettlesAll(s: Store, c: Cluster, d: Cluster)
    requires Deficit(s, c) == 0
    requires c.Key() == d.Key() && c.uid == d.uid && c.spec.groupReplica == d.spec.groupReplica
    ensures Deficit(s, d) == if c.spec.membersPerGroup == d.spec.membersPerGroup then 0 else Groups(c)
  {
    DeficitBounded(s, c);
    hide ServiceOf, SetOf, ControlledBy;
    assert Groups(c) == Groups(d);
    forall i: nat | i < Groups(d)
      ensures ServiceSettled(s, d, i)
      ensures SetSettled(s, d, i) <==> c.spec.membersPerGroup == d.spec.membersPerGroup
    {
      assert ServiceSettled(s, c, i) && SetSettled(s, c, i);
    }
    hide ServiceSettled, SetSettled;
    assert UnsettledServices(s, d) == {};
    if c.spec.membersPerGroup == d.spec.membersPerGroup {
      assert UnsettledSets(s, d) == {};
    } else {
      AllBelow(UnsettledSets(s, d), Groups(d));
    }
  }

  /** The AllMaster switch is such an edit: turning it reaches every StatefulSet, unless
      groups have one member either way. */
  lemma SwitchReachesEverySet(s: Store, c: Cluster, allMaster: bool)
    requires Deficit(s, NormaliseCluster(c)) == 0
    ensures
      Deficit(s, NormaliseCluster(c.(spec := c.spec.(allMaster := allMaster)))) ==
        if allMaster == c.spec.allMaster || WithDefaults(c.spec).membersPerGroup == 1 then 0
        else Groups(NormaliseCluster(c))
  {
    hide Deficit, DefaultProperties;
    MemberEditUnsettlesAll(s, NormaliseCluster(c), NormaliseCluster(c.(spec := c.spec.(allMaster := allMaster))));
  }
}
