/** Non-interference: syncs of distinct clusters, interleaved write by write in any
    way, do what they would do one cluster after another. */
module Serial {
  import opened Values
  import opened Naming
  import opened Normalisation
  import opened Patches
  import opened Reconcile
  import opened Frames
  import opened Convergence

  predicate IsWorkerEvent(e: Event) {
    e.Begin? || e.Step?
  }

  /** The cluster a worker's event is about. */
  function Owner(e: Event): ObjectKey
    requires IsWorkerEvent(e)
  {
    if e.Begin? then e.cluster.Key() else e.key
  }

  predicate WorkersOnly(es: seq<Event>) {
    forall e | e in es :: IsWorkerEvent(e)
  }

  /** The answers of a step, if the event is one, are caught up. */
  predicate Truthful(w: World, e: Event) {
    e.Step? && e.key in w.jobs ==>
      TruthfulAnswers(w.jobs[e.key].cluster, w.store, w.jobs[e.key].progress, e.answers)
  }

  ghost predicate TruthfulRun(w: World, es: seq<Event>) {
    es == [] || (TruthfulRun(w, es[..|es| - 1]) && Truthful(Run(w, es[..|es| - 1]), es[|es| - 1]))
  }

  /******* Two events of different clusters commute *******/

  /** Writes to different objects do not see each other. */
  lemma WritesCommute(s: Store, v: Write, w: Write)
    requires v.NoWrite? || w.NoWrite? || TargetOf(v) != TargetOf(w)
    requires Admits(s, v)
    ensures Admits(Commit(s, v), w) == Admits(s, w)
    ensures Admits(s, w) ==> Admits(Commit(s, w), v) && Commit(Commit(s, v), w) == Commit(Commit(s, w), v)
  {
    hide Patched;
    if Admits(s, w) && !v.NoWrite? && !w.NoWrite? {
      var t, u := Commit(Commit(s, v), w), Commit(Commit(s, w), v);
      assert t.services == u.services;
      assert t.sets == u.sets;
    }
  }

  /** The requests of two clusters' syncs are about different objects. */
  lemma RequestsApart(c: Cluster, p: Progress, a: Answers, d: Cluster, q: Progress, b: Answers)
    requires c.Key() != d.Key()
    ensures
      var v := Request(c, p, a);
      var w := Request(d, q, b);
      v.NoWrite? || w.NoWrite? || TargetOf(v) != TargetOf(w)
  {
    hide Request, TargetOf, ServiceKey, SetKey;
    RequestTarget(c, p, a);
    RequestTarget(d, q, b);
    KeysDisjoint(c.Key(), p.servicesDone, d.Key(), q.servicesDone);
    KeysDisjoint(c.Key(), p.setsDone, d.Key(), q.setsDone);
  }

  lemma IterationsCommute(s: Store, c: Cluster, p: Progress, a: Answers, d: Cluster, q: Progress, b: Answers)
    requires c.Key() != d.Key()
    ensures
      var (s1, p1) := Iterate(c, s, p, a);
      var (s2, q2) := Iterate(d, s, q, b);
      Iterate(d, s1, q, b) == (Iterate(c, s2, p, a).0, q2) && Iterate(c, s2, p, a).1 == p1
  {
    hide Request, Admits, Commit, After, TargetOf;
    var v := Request(c, p, a);
    var w := Request(d, q, b);
    RequestsApart(c, p, a, d, q, b);
    if Admits(s, v) {
      WritesCommute(s, v, w);
    }
    if Admits(s, w) {
      WritesCommute(s, w, v);
    }
  }

  lemma TruthUnaffected(s: Store, c: Cluster, p: Progress, a: Answers, d: Cluster, q: Progress, b: Answers)
    requires c.Key() != d.Key()
    ensures TruthfulAnswers(d, Iterate(c, s, p, a).0, q, b) == TruthfulAnswers(d, s, q, b)
  {
    hide Iterate, ServiceKey, SetKey;
    IterationFrame(c, s, p, a, d.Key(), q.servicesDone);
    IterationFrame(c, s, p, a, d.Key(), q.setsDone);
  }

  lemma BeginsCommute(w: World, c: Cluster, d: Cluster)
    requires c.Key() != d.Key()
    ensures Next(Next(w, Begin(c)), Begin(d)) == Next(Next(w, Begin(d)), Begin(c))
  {
    hide Normalise, Running;
    assert Next(Next(w, Begin(c)), Begin(d)).jobs == Next(Next(w, Begin(d)), Begin(c)).jobs;
  }

  lemma BeginAndStepCommute(w: World, c: Cluster, k: ObjectKey, a: Answers)
    requires c.Key() != k
    ensures Next(Next(w, Begin(c)), Step(k, a)) == Next(Next(w, Step(k, a)), Begin(c))
    ensures Truthful(Next(w, Begin(c)), Step(k, a)) == Truthful(w, Step(k, a))
  {
    hide Normalise, Running, Iterate, TruthfulAnswers;
    assert Next(Next(w, Begin(c)), Step(k, a)).jobs == Next(Next(w, Step(k, a)), Begin(c)).jobs;
  }

  lemma StepsCommute(w: World, k: ObjectKey, a: Answers, l: ObjectKey, b: Answers)
    requires WellFiled(w) && k != l
    ensures Next(Next(w, Step(k, a)), Step(l, b)) == Next(Next(w, Step(l, b)), Step(k, a))
    ensures Truthful(Next(w, Step(k, a)), Step(l, b)) == Truthful(w, Step(l, b))
  {
    hide Iterate, TruthfulAnswers;
    if k in w.jobs && l in w.jobs {
      var i, j := w.jobs[k], w.jobs[l];
      IterationsCommute(w.store, i.cluster, i.progress, a, j.cluster, j.progress, b);
      TruthUnaffected(w.store, i.cluster, i.progress, a, j.cluster, j.progress, b);
    }
    assert Next(Next(w, Step(k, a)), Step(l, b)).jobs == Next(Next(w, Step(l, b)), Step(k, a)).jobs;
  }

  lemma EventsCommute(w: World, e: Event, f: Event)
    requires WellFiled(w) && IsWorkerEvent(e) && IsWorkerEvent(f) && Owner(e) != Owner(f)
    ensures Next(Next(w, e), f) == Next(Next(w, f), e)
    ensures Truthful(Next(w, e), f) == Truthful(w, f)
  {
    hide Next, TruthfulAnswers;
    match (e, f)
    case (Begin(c), Begin(d)) => BeginsCommute(w, c, d);
    case (Begin(c), Step(k, a)) => BeginAndStepCommute(w, c, k, a);
    case (Step(k, a), Begin(c)) => BeginAndStepCommute(w, c, k, a);
    case (Step(k, a), Step(l, b)) => StepsCommute(w, k, a, l, b);
  }

  /******* Reordering runs *******/

  lemma {:induction false} RunConcat(w: World, xs: seq<Event>, ys: seq<Event>)
    ensures Run(w, xs + ys) == Run(Run(w, xs), ys)
    ensures TruthfulRun(w, xs + ys) == (TruthfulRun(w, xs) && TruthfulRun(Run(w, xs), ys))
    decreases |ys|
  {
    hide Next, Truthful;
    if ys == [] {
      assert xs + ys == xs;
    } else {
      var n := |ys| - 1;
      assert (xs + ys)[..|xs + ys| - 1] == xs + ys[..n];
      RunConcat(w, xs, ys[..n]);
    }
  }

  /** An event may as well happen before a run of other clusters' events. */
  lemma {:induction false} SlideToFront(w: World, xs: seq<Event>, e: Event)
    requires WellFiled(w) && IsWorkerEvent(e)
    requires forall x | x in xs :: IsWorkerEvent(x) && Owner(x) != Owner(e)
    ensures Run(w, xs + [e]) == Run(Next(w, e), xs)
    ensures TruthfulRun(w, xs + [e]) == (Truthful(w, e) && TruthfulRun(Next(w, e), xs))
    decreases |xs|
  {
    hide Next, Truthful, Owner;
    assert (xs + [e])[..|xs|] == xs;
    if xs == [] {
    } else {
      var n := |xs| - 1;
      var ys, x := xs[..n], xs[n];
      SlideToFront(w, ys, e);
      assert (ys + [e])[..n] == ys;
      RunWellFiled(w, ys);
      EventsCommute(Run(w, ys), x, e);
      EventsCommute(Run(w, ys), e, x);
    }
  }

  /** The events of cluster `k`, and the others. */
  function Of(k: ObjectKey, es: seq<Event>): (r: seq<Event>)
    requires WorkersOnly(es)
  {
    if es == [] then []
    else
      var r := Of(k, es[..|es| - 1]);
      if Owner(es[|es| - 1]) == k then r + [es[|es| - 1]] else r
  }

  function Without(k: ObjectKey, es: seq<Event>): (r: seq<Event>)
    requires WorkersOnly(es)
    ensures forall e | e in r :: e in es && IsWorkerEvent(e) && Owner(e) != k
  {
    if es == [] then []
    else
      var r := Without(k, es[..|es| - 1]);
      if Owner(es[|es| - 1]) == k then r else r + [es[|es| - 1]]
  }

  lemma OneEvent(w: World, e: Event)
    ensures Run(w, [e]) == Next(w, e)
    ensures TruthfulRun(w, [e]) == Truthful(w, e)
  {
    hide Next, Truthful;
    assert [e][..0] == [];
    assert Run(w, []) == w && TruthfulRun(w, []);
  }

  /** All events of one cluster may happen first. */
  lemma {:induction false} MoveToFront(w: World, es: seq<Event>, k: ObjectKey)
    requires WellFiled(w) && WorkersOnly(es)
    ensures Run(w, es) == Run(Run(w, Of(k, es)), Without(k, es))
    ensures TruthfulRun(w, es) ==
      (TruthfulRun(w, Of(k, es)) && TruthfulRun(Run(w, Of(k, es)), Without(k, es)))
    decreases |es|
  {
    hide Next, Truthful, Owner, WellFiled;
    if es == [] {
    } else {
      var n := |es| - 1;
      var e := es[n];
      var front, rest := Of(k, es[..n]), Without(k, es[..n]);
      MoveToFront(w, es[..n], k);
      RunWellFiled(w, front);
      var v := Run(w, front);
      RunConcat(v, rest, [e]);
      RunConcat(w, front, [e]);
      OneEvent(v, e);
      OneEvent(Run(v, rest), e);
      if Owner(e) == k {
        SlideToFront(v, rest, e);
      }
    }
  }

  lemma {:induction false} OthersUnaffected(k: ObjectKey, l: ObjectKey, es: seq<Event>)
    requires WorkersOnly(es) && k != l
    ensures Of(l, Without(k, es)) == Of(l, es)
    decreases |es|
  {
    hide Owner;
    if es == [] {
    } else {
      var n := |es| - 1;
      OthersUnaffected(k, l, es[..n]);
      var r := Without(k, es[..n]);
      assert (r + [es[n]])[..|r|] == r;
    }
  }

  /** The clusters one after another, each with all its events in their order. */
  function OneByOne(ks: seq<ObjectKey>, es: seq<Event>): seq<Event>
    requires WorkersOnly(es)
  {
    if ks == [] then [] else Of(ks[0], es) + OneByOne(ks[1..], es)
  }

  lemma {:induction false} OneByOneWithout(k: ObjectKey, ks: seq<ObjectKey>, es: seq<Event>)
    requires WorkersOnly(es) && k !in ks
    ensures OneByOne(ks, Without(k, es)) == OneByOne(ks, es)
  {
    if ks == [] {
    } else {
      OthersUnaffected(k, ks[0], es);
      OneByOneWithout(k, ks[1..], es);
    }
  }

  lemma HasMember(es: seq<Event>)
    requires es != []
    ensures exists e :: e in es
  {
    assert es[0] in es;
  }

  /** Any interleaving of syncs of any number of clusters has the same outcome, for
      every Service, every StatefulSet and every sync, as running the clusters one by
      one in any order; and the listers are caught up in the one run exactly when they
      are in the other. */
  lemma {:induction false} InterleavingIsSerial(w: World, ks: seq<ObjectKey>, es: seq<Event>)
    requires WellFiled(w) && WorkersOnly(es)
    requires forall e | e in es :: Owner(e) in ks
    requires forall i, j | 0 <= i < j < |ks| :: ks[i] != ks[j]
    ensures Run(w, es) == Run(w, OneByOne(ks, es))
    ensures TruthfulRun(w, es) == TruthfulRun(w, OneByOne(ks, es))
    decreases |ks|
  {
    hide Next, Truthful, Owner, WellFiled, Of, Without;
    if ks == [] {
      if es != [] {
        HasMember(es);
        assert false;
      }
    } else {
      var k, rest := ks[0], ks[1..];
      MoveToFront(w, es, k);
      RunWellFiled(w, Of(k, es));
      var v := Run(w, Of(k, es));
      InterleavingIsSerial(v, rest, Without(k, es));
      OneByOneWithout(k, rest, es);
      RunConcat(w, Of(k, es), OneByOne(rest, es));
    }
  }
}
