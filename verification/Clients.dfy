/** The update machine, seen by one of its clients, is the retry loop: whatever runs in
    between only stores versions, and the client's own attempts, taken from anywhere in
    the run, give the server and the error that the loop on its own gives. */
module Clients {
  import opened Values
  import opened Updates

  /** What an update has been through so far: a round for each attempt made, the server
      just after the last one, and what others have stored since. */
  datatype Trace = Trace(rounds: seq<Round>, server: Server, since: seq<Cluster>)

  predicate IsAttempt(sys: System, id: nat, e: Event) {
    e.Try? && e.id == id && Enabled(sys, e)
  }

  /** The objects an event sends that the server accepts. */
  function StoredBy(sys: System, e: Event): seq<Cluster> {
    if !Enabled(sys, e) then [] else
    match e
    case Begin(_, _, _, _) => []
    case OutsideWrite(obj) => [obj]
    case Try(id, fault, _) =>
      var sent := Apply(sys.clients[id].change, sys.clients[id].copy);
      if !fault && sys.server.Admits(sent) then [sent] else []
  }

  function TraceOf(sys: System, id: nat, es: seq<Event>): Trace {
    if es == [] then Trace([], sys.server, [])
    else
      var before, e := Run(sys, es[..|es| - 1]), es[|es| - 1];
      var t := TraceOf(sys, id, es[..|es| - 1]);
      if IsAttempt(before, id, e) then
        Trace(t.rounds + [Round(t.since, e.fault, e.refresh)], Next(before, e).server, [])
      else t.(since := t.since + StoredBy(before, e))
  }

  lemma {:induction false} StoreAllConcat(s: Server, xs: seq<Cluster>, ys: seq<Cluster>)
    ensures s.StoreAll(xs + ys) == s.StoreAll(xs).StoreAll(ys)
    decreases |xs|
  {
    if xs == [] {
      assert xs + ys == ys;
    } else {
      assert (xs + ys)[1..] == xs[1..] + ys;
      StoreAllConcat(s.Store(xs[0]), xs[1..], ys);
    }
  }

  /** Any event but an attempt of client `id` stores something or nothing, and leaves
      that client, and its result if it is over, alone. */
  lemma OthersOnlyStore(sys: System, id: nat, e: Event)
    requires !IsAttempt(sys, id, e) && (id in sys.clients || id in sys.ended)
    ensures
      var sys' := Next(sys, e);
      && sys'.server == sys.server.StoreAll(StoredBy(sys, e))
      && (id in sys'.clients <==> id in sys.clients) && (id in sys'.ended <==> id in sys.ended)
      && (id in sys.clients ==> sys'.clients[id] == sys.clients[id])
      && (id in sys.ended ==> sys'.ended[id] == sys.ended[id])
  {
    hide Apply, CachedFrom;
    var stored := StoredBy(sys, e);
    assert stored == [] || stored[1..] == [];
  }

  /** The loop that has made `rounds` attempts goes on from `copy'` and `s'`. */
  ghost predicate GoesOn(change: Change, copy: Cluster, s: Server, rounds: seq<Round>, copy': Cluster, s': Server) {
    forall more: seq<Round> | more != [] ::
      var o, rest := Retries(change, copy, s, rounds + more), Retries(change, copy', s', more);
      o.server == rest.server && o.error == rest.error && |o.steps| == |rounds| + |rest.steps|
  }

  /** One more attempt from there: it ends the loop, or the loop goes on. */
  lemma OneMoreAttempt(change: Change, copy: Cluster, s: Server, rounds: seq<Round>, copy': Cluster, s': Server, r: Round)
    requires GoesOn(change, copy, s, rounds, copy', s')
    ensures
      var (t, step) := Attempt(change, copy', s'.StoreAll(r.others), r.fault, r.refresh);
      var o := Retries(change, copy, s, rounds + [r]);
      && o.server == t && |o.steps| == |rounds| + 1
      && o.error == (if step.Finished? then step.error else Some(ConflictError))
      && (step.Retry? ==> GoesOn(change, copy, s, rounds + [r], step.copy, t))
  {
    hide Attempt;
    var (t, step) := Attempt(change, copy', s'.StoreAll(r.others), r.fault, r.refresh);
    assert [r] != [];
    if step.Retry? {
      forall more: seq<Round> | more != []
        ensures
          var o, rest := Retries(change, copy, s, rounds + [r] + more), Retries(change, step.copy, t, more);
          o.server == rest.server && o.error == rest.error && |o.steps| == |rounds| + 1 + |rest.steps|
      {
        assert rounds + [r] + more == rounds + ([r] + more);
        assert ([r] + more)[1..] == more;
      }
    }
  }

  /** Client `id`, which began with `copy` at server `s` and has been through `t`. */
  ghost predicate Underway(sys: System, id: nat, change: Change, copy: Cluster, attempts: nat, s: Server, t: Trace) {
    && id in sys.clients && id !in sys.ended
    && sys.clients[id].change == change
    && sys.clients[id].left > 0 && sys.clients[id].left + |t.rounds| == attempts
    && sys.server == t.server.StoreAll(t.since)
    && GoesOn(change, copy, s, t.rounds, sys.clients[id].copy, t.server)
  }

  ghost predicate Over(sys: System, id: nat, change: Change, copy: Cluster, attempts: nat, s: Server, t: Trace) {
    var o := Retries(change, copy, s, t.rounds);
    && id in sys.ended && id !in sys.clients
    && sys.ended[id] == o.error
    && t.server == o.server && sys.server == t.server.StoreAll(t.since)
    && |o.steps| == |t.rounds| <= attempts
    && (attempts > 0 ==> t.rounds != [])
  }

  lemma AttemptAdvances(sys: System, id: nat, e: Event, change: Change, copy: Cluster, attempts: nat, s: Server, t: Trace)
    requires Underway(sys, id, change, copy, attempts, s, t) && IsAttempt(sys, id, e)
    ensures
      var sys' := Next(sys, e);
      var t' := Trace(t.rounds + [Round(t.since, e.fault, e.refresh)], sys'.server, []);
      Underway(sys', id, change, copy, attempts, s, t') || Over(sys', id, change, copy, attempts, s, t')
  {
    hide GoesOn, Retries, Attempt;
    var c := sys.clients[id];
    OneMoreAttempt(change, copy, s, t.rounds, c.copy, t.server, Round(t.since, e.fault, e.refresh));
  }

  lemma OthersKeep(sys: System, id: nat, e: Event, change: Change, copy: Cluster, attempts: nat, s: Server, t: Trace)
    requires !IsAttempt(sys, id, e)
    ensures
      var t' := t.(since := t.since + StoredBy(sys, e));
      && (Underway(sys, id, change, copy, attempts, s, t) ==>
            Underway(Next(sys, e), id, change, copy, attempts, s, t'))
      && (Over(sys, id, change, copy, attempts, s, t) ==> Over(Next(sys, e), id, change, copy, attempts, s, t'))
  {
    hide GoesOn, Retries, Next, StoredBy, IsAttempt;
    if id in sys.clients || id in sys.ended {
      OthersOnlyStore(sys, id, e);
      StoreAllConcat(t.server, t.since, StoredBy(sys, e));
    }
  }

  lemma BeginStartsUpdate(sys: System, id: nat, change: Change, copy: Cluster, attempts: nat)
    requires Enabled(sys, Begin(id, change, copy, attempts))
    ensures
      var sys' := Next(sys, Begin(id, change, copy, attempts));
      var t := Trace([], sys'.server, []);
      Underway(sys', id, change, copy, attempts, sys.server, t) || Over(sys', id, change, copy, attempts, sys.server, t)
  {
    hide CachedFrom;
    forall more: seq<Round>
      ensures [] + more == more
    {
    }
  }

  lemma OverIsOver(sys: System, id: nat, e: Event, change: Change, copy: Cluster, attempts: nat, s: Server, t: Trace)
    requires IsAttempt(sys, id, e)
    ensures e.Try?
    ensures !Over(sys, id, change, copy, attempts, s, t)
  {
  }

  lemma {:induction false} UnderwayOrOver(sys: System, id: nat, change: Change, copy: Cluster, attempts: nat, es: seq<Event>)
    requires Enabled(sys, Begin(id, change, copy, attempts))
    ensures
      var begun := Next(sys, Begin(id, change, copy, attempts));
      var sys', t := Run(begun, es), TraceOf(begun, id, es);
      Underway(sys', id, change, copy, attempts, sys.server, t) || Over(sys', id, change, copy, attempts, sys.server, t)
  {
    hide Next, Enabled, StoredBy, Underway, Over, IsAttempt;
    var begun := Next(sys, Begin(id, change, copy, attempts));
    if es == [] {
      BeginStartsUpdate(sys, id, change, copy, attempts);
    } else {
      var n := |es| - 1;
      UnderwayOrOver(sys, id, change, copy, attempts, es[..n]);
      var before, t := Run(begun, es[..n]), TraceOf(begun, id, es[..n]);
      if IsAttempt(before, id, es[n]) {
        OverIsOver(before, id, es[n], change, copy, attempts, sys.server, t);
        AttemptAdvances(before, id, es[n], change, copy, attempts, sys.server, t);
      } else {
        OthersKeep(before, id, es[n], change, copy, attempts, sys.server, t);
      }
    }
  }

  /** Whatever else happens in a run, an update that is over has returned the error, and
      has left the server to what others stored since, that the retry loop gives for
      the rounds the run put it through; and one that is not over has attempts left. */
  lemma ClientRunsTheLoop(sys: System, id: nat, change: Change, copy: Cluster, attempts: nat, es: seq<Event>)
    requires Enabled(sys, Begin(id, change, copy, attempts))
    ensures
      var begun := Next(sys, Begin(id, change, copy, attempts));
      var sys', t := Run(begun, es), TraceOf(begun, id, es);
      var o := Retries(change, copy, sys.server, t.rounds);
      if id in sys'.ended then
        && sys'.ended[id] == o.error
        && sys'.server == o.server.StoreAll(t.since)
        && |o.steps| == |t.rounds| <= attempts && (attempts > 0 ==> t.rounds != [])
      else id in sys'.clients && sys'.clients[id].left > 0 && sys'.clients[id].left + |t.rounds| == attempts
  {
    hide Run, TraceOf, Next, Enabled, Retries, GoesOn;
    UnderwayOrOver(sys, id, change, copy, attempts, es);
  }

  /** So the caller of an update can trust what it is told in every interleaving: if it
      may try at all and is told of success, its change is in the history, applied to
      the version before; if it is told of an error, all versions are other people's. */
  lemma ReportIsTrue(sys: System, id: nat, change: Change, copy: Cluster, attempts: nat, es: seq<Event>)
    requires Enabled(sys, Begin(id, change, copy, attempts)) && sys.server.Valid() && attempts > 0
    ensures
      var begun := Next(sys, Begin(id, change, copy, attempts));
      var sys', t := Run(begun, es), TraceOf(begun, id, es);
      var o := Retries(change, copy, sys.server, t.rounds);
      id in sys'.ended ==>
        && sys.server.history <= o.server.history <= sys'.server.history
        && if sys'.ended[id] == None then
             var v := |o.server.history| - 1;
             v > 0 && o.base.resourceVersion == v - 1
             && sys'.server.history[v] == Apply(change, o.base).(resourceVersion := v)
           else |o.server.history| == |sys.server.history| + OthersStored(t.rounds, |t.rounds|)
  {
    hide Run, TraceOf, Next, Enabled, Retries, Apply;
    ClientRunsTheLoop(sys, id, change, copy, attempts, es);
    var begun := Next(sys, Begin(id, change, copy, attempts));
    var sys', t := Run(begun, es), TraceOf(begun, id, es);
    var o := Retries(change, copy, sys.server, t.rounds);
    RetryContract(change, copy, sys.server, t.rounds);
    if id in sys'.ended {
      StoreAllGrows(o.server, t.since);
    }
  }
}
