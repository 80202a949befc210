/** The cluster updater as the imperative code it is: a private object that each
    attempt edits in place and each refresh replaces. */
module Updater {
  import opened Values
  import opened Updates
  import opened Objects

  /** How an attempt ends for the loop around it. */
  datatype Verdict = Stop(error: Option<UpdateError>) | Again(copy: BrokerCluster)

  ghost predicate Agrees(v: Verdict, step: Step)
    reads *
  {
    match v
    case Stop(error) => step == Finished(error)
    case Again(copy) => step == Retry(copy.Value())
  }

  /** What the lister has is the scripted value (null: the lister fails). */
  ghost predicate Holds(refreshed: BrokerCluster?, round: Round)
    reads *
  {
    round.refresh == if refreshed == null then None else Some(refreshed.Value())
  }

  /** The same for all rounds; the lister's objects live in `cache`. */
  ghost predicate AllHold(cache: set<object>, refreshed: seq<BrokerCluster?>, rounds: seq<Round>)
    reads cache
  {
    |refreshed| == |rounds|
    && forall i | 0 <= i < |refreshed| ::
         if refreshed[i] == null then rounds[i].refresh == None
         else
           && refreshed[i] in cache && refreshed[i].spec in cache && refreshed[i].status in cache
           && refreshed[i].Footprint() <= cache
           && rounds[i].refresh == Some(refreshed[i].Value())
  }

  lemma AllHoldAt(cache: set<object>, refreshed: seq<BrokerCluster?>, rounds: seq<Round>, i: nat)
    requires AllHold(cache, refreshed, rounds) && i < |rounds|
    ensures i < |refreshed| && Holds(refreshed[i], rounds[i])
    ensures refreshed[i] != null ==> refreshed[i] in cache && refreshed[i].status in cache
  {
  }

  /** What happens around an attempt, apart from what the lister has. */
  datatype Surroundings = Surroundings(others: seq<Cluster>, fault: bool)

  ghost predicate ScriptOf(surroundings: seq<Surroundings>, rounds: seq<Round>) {
    |surroundings| == |rounds|
    && forall i | 0 <= i < |rounds| ::
         rounds[i].others == surroundings[i].others && rounds[i].fault == surroundings[i].fault
  }

  /** The surroundings completed with what the lister's objects hold now. */
  method Script(surroundings: seq<Surroundings>, refreshed: seq<BrokerCluster?>)
    returns (rounds: seq<Round>, ghost cache: set<object>)
    requires |surroundings| == |refreshed|
    ensures ScriptOf(surroundings, rounds) && AllHold(cache, refreshed, rounds)
    ensures forall u: ClusterUpdater :: u !in cache
  {
    rounds, cache := [], {};
    for i := 0 to |refreshed|
      invariant ScriptOf(surroundings[..i], rounds)
      invariant AllHold(cache, refreshed[..i], rounds)
      invariant forall u: ClusterUpdater :: u !in cache
    {
      var value := if refreshed[i] == null then None else Some(refreshed[i].Value());
      rounds := rounds + [Round(surroundings[i].others, surroundings[i].fault, value)];
      if refreshed[i] != null {
        cache := cache + refreshed[i].Footprint();
      }
    }
    assert surroundings[..|refreshed|] == surroundings && refreshed[..|refreshed|] == refreshed;
  }

  lemma RetriesUnrolled(change: Change, copy: Cluster, s: Server, rounds: seq<Round>, i: nat)
    requires i < |rounds|
    ensures
      var r := rounds[i];
      var o := Retries(change, copy, s, rounds[i..]);
      var (s', step) := Attempt(change, copy, s.StoreAll(r.others), r.fault, r.refresh);
      if step.Finished? then o.server == s' && o.error == step.error
      else
        var rest := Retries(change, step.copy, s', rounds[i + 1..]);
        o.server == rest.server && o.error == (if i + 1 == |rounds| then Some(ConflictError) else rest.error)
  {
    assert rounds[i..][1..] == rounds[i + 1..];
  }

  lemma RetriesEnd(change: Change, copy: Cluster, s: Server)
    ensures Retries(change, copy, s, []) == Outcome(s, None, [], copy)
  {
  }

  class ClusterUpdater {
    var server: Server

    constructor (server: Server)
      ensures this.server == server
    {
      this.server := server;
    }

    /** What follows the edit of the copy in both updates: send it; if that fails, get a
        fresh copy of what the lister has. */
    method SendOrRefresh(copy: BrokerCluster, fault: bool, refreshed: BrokerCluster?) returns (v: Verdict)
      modifies `server
      ensures
        var sent := old(copy.Value());
        if !fault && old(server).Admits(sent) then server == old(server).Store(sent) && v == Stop(None)
        else
          && server == old(server)
          && (refreshed == null ==> v == Stop(Some(RefreshError)))
          && (refreshed != null && fault ==> v == Stop(Some(ServerError)))
          && (refreshed != null && !fault ==>
                v.Again? && fresh(v.copy.Footprint()) && v.copy.Value() == refreshed.Value())
    {
      if !fault && server.Admits(copy.Value()) {
        server := server.Store(copy.Value());
        return Stop(None);
      }
      if refreshed == null {
        return Stop(Some(RefreshError));
      }
      var next := refreshed.DeepCopy();
      return if fault then Stop(Some(ServerError)) else Again(next);
    }

    /** The closure of UpdateClusterStatus. */
    method TryStatus(copy: BrokerCluster, conditions: ConditionArray, round: Round, refreshed: BrokerCluster?)
      returns (v: Verdict)
      requires Holds(refreshed, round)
      requires refreshed != null ==> refreshed.status != copy.status
      modifies `server, copy.status`conditions
      ensures
        var (s, step) := Attempt(SetConditions(old(conditions.elements)), old(copy.Value()),
                                 old(server).StoreAll(round.others), round.fault, round.refresh);
        server == s && Agrees(v, step)
      ensures v.Again? ==> fresh(v.copy.Footprint())
    {
      ghost var before := copy.Value();
      ghost var value := if refreshed == null then before else refreshed.Value();
      server := server.StoreAll(round.others);
      copy.status.conditions := conditions;
      assert copy.Value() == Apply(SetConditions(conditions.elements), before);
      assert refreshed != null ==> refreshed.Value() == value;
      hide Apply;
      v := SendOrRefresh(copy, round.fault, refreshed);
    }

    /** The closure of UpdateClusterLabels. */
    method TryLabels(copy: BrokerCluster, labels: StringMap, round: Round, refreshed: BrokerCluster?)
      returns (v: Verdict)
      requires Holds(refreshed, round)
      requires refreshed != copy
      modifies `server, copy`labels
      ensures
        var (s, step) := Attempt(MergeLabels(labels), old(copy.Value()),
                                 old(server).StoreAll(round.others), round.fault, round.refresh);
        server == s && Agrees(v, step)
      ensures v.Again? ==> fresh(v.copy.Footprint())
    {
      ghost var before := copy.Value();
      ghost var value := if refreshed == null then before else refreshed.Value();
      server := server.StoreAll(round.others);
      copy.labels := new StringTable(Merge(copy.labels.entries, labels));
      assert copy.Value() == Apply(MergeLabels(labels), before);
      assert refreshed != null ==> refreshed.Value() == value;
      hide Apply;
      v := SendOrRefresh(copy, round.fault, refreshed);
    }

    /** UpdateClusterStatus. `rounds` says what others store and what goes wrong around
        each attempt. The server ends as the specification says, and the objects of the
        lister are untouched. */
    method UpdateClusterStatus(cluster: BrokerCluster, status: BrokerClusterStatus,
                               rounds: seq<Round>, refreshed: seq<BrokerCluster?>, ghost cache: set<object>)
      returns (error: Option<UpdateError>)
      requires AllHold(cache, refreshed, rounds)
      requires this !in cache && cluster !in cache && cluster.status !in cache
      modifies `server, cluster.status`conditions
      ensures
        var o := Retries(SetConditions(old(status.conditions.elements)), old(cluster.Value()), old(server), rounds);
        server == o.server && error == o.error
      ensures AllHold(cache, refreshed, rounds)
    {
      hide Attempt, Retries, AllHold, Server.StoreAll;
      ghost var change := SetConditions(status.conditions.elements);
      ghost var o := Retries(change, cluster.Value(), server, rounds);
      var conditions := status.conditions;
      var copy := cluster;
      for i := 0 to |rounds|
        invariant copy == cluster || (fresh(copy) && fresh(copy.status))
        invariant conditions.elements == change.conditions
        invariant AllHold(cache, refreshed, rounds)
        invariant Retries(change, copy.Value(), server, rounds[i..]).server == o.server
        invariant i < |rounds| || i == 0 ==> Retries(change, copy.Value(), server, rounds[i..]).error == o.error
        invariant i == |rounds| && i > 0 ==> o.error == Some(ConflictError)
      {
        AllHoldAt(cache, refreshed, rounds, i);
        RetriesUnrolled(change, copy.Value(), server, rounds, i);
        var v := TryStatus(copy, conditions, rounds[i], refreshed[i]);
        if v.Stop? {
          return v.error;
        }
        copy := v.copy;
      }
      assert rounds[|rounds|..] == [];
      RetriesEnd(change, copy.Value(), server);
      return if |rounds| == 0 then None else Some(ConflictError);
    }

    /** UpdateClusterLabels. */
    method UpdateClusterLabels(cluster: BrokerCluster, labels: StringMap,
                               rounds: seq<Round>, refreshed: seq<BrokerCluster?>, ghost cache: set<object>)
      returns (error: Option<UpdateError>)
      requires AllHold(cache, refreshed, rounds)
      requires this !in cache && cluster !in cache && cluster.status !in cache
      modifies `server, cluster`labels
      ensures
        var o := Retries(MergeLabels(labels), old(cluster.Value()), old(server), rounds);
        server == o.server && error == o.error
      ensures AllHold(cache, refreshed, rounds)
    {
      hide Attempt, Retries, AllHold, Server.StoreAll;
      ghost var change := MergeLabels(labels);
      ghost var o := Retries(change, cluster.Value(), server, rounds);
      var copy := cluster;
      for i := 0 to |rounds|
        invariant copy == cluster || (fresh(copy) && fresh(copy.status))
        invariant AllHold(cache, refreshed, rounds)
        invariant Retries(change, copy.Value(), server, rounds[i..]).server == o.server
        invariant i < |rounds| || i == 0 ==> Retries(change, copy.Value(), server, rounds[i..]).error == o.error
        invariant i == |rounds| && i > 0 ==> o.error == Some(ConflictError)
      {
        AllHoldAt(cache, refreshed, rounds, i);
        RetriesUnrolled(change, copy.Value(), server, rounds, i);
        var v := TryLabels(copy, labels, rounds[i], refreshed[i]);
        if v.Stop? {
          return v.error;
        }
        copy := v.copy;
      }
      assert rounds[|rounds|..] == [];
      RetriesEnd(change, copy.Value(), server);
      return if |rounds| == 0 then None else Some(ConflictError);
    }
  }
}
