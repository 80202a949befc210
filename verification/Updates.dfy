/** Optimistic concurrency on one BrokerCluster: the API server's versions, the
    updater's retries on conflict, and any number of writers interleaved. */
module Updates {
  import opened Values
  import opened Normalisation

  /******* The server *******/

  /** Every version ever stored, oldest first; a version's number is its position. */
  datatype Server = Server(history: seq<Cluster>) {
    predicate Valid() {
      history != [] && forall i | 0 <= i < |history| :: history[i].resourceVersion == i
    }

    function Current(): Cluster
      requires history != []
    {
      history[|history| - 1]
    }

    predicate Admits(c: Cluster) {
      c.resourceVersion == |history| - 1
    }

    function Store(c: Cluster): Server {
      Server(history + [c.(resourceVersion := |history|)])
    }

    function StoreAll(cs: seq<Cluster>): Server
      decreases |cs|
    {
      if cs == [] then this else Store(cs[0]).StoreAll(cs[1..])
    }
  }

  /******* One attempt *******/

  /** What an update does to the copy it is about to send. */
  datatype Change = SetConditions(conditions: seq<Condition>) | MergeLabels(labels: StringMap)

  function Merge(m: Option<StringMap>, n: StringMap): Option<StringMap> {
    Some(if m.Some? then m.value + n else n)
  }

  function Apply(change: Change, c: Cluster): Cluster {
    match change
    case SetConditions(conditions) => c.(conditions := conditions)
    case MergeLabels(labels) => c.(labels := Merge(c.labels, labels))
  }

  datatype UpdateError = ConflictError | ServerError | RefreshError

  /** How an attempt ends: the update is over, or it goes on from a new copy. */
  datatype Step = Finished(error: Option<UpdateError>) | Retry(copy: Cluster)

  /** Body of the retried closure. `fault` is a failure other than a conflict, and
      `refresh` is what the lister has if the attempt fails (None: the lister fails). */
  function Attempt(change: Change, copy: Cluster, s: Server, fault: bool, refresh: Option<Cluster>): (Server, Step) {
    var sent := Apply(change, copy);
    if !fault && s.Admits(sent) then (s.Store(sent), Finished(None))
    else if refresh.None? then (s, Finished(Some(RefreshError)))
    else if fault then (s, Finished(Some(ServerError)))
    else (s, Retry(refresh.value))
  }

  /******* The retry loop *******/

  /** The surroundings of one attempt: what others store just before it, and the
      answers it gets. */
  datatype Round = Round(others: seq<Cluster>, fault: bool, refresh: Option<Cluster>)

  datatype Outcome = Outcome(server: Server, error: Option<UpdateError>, steps: seq<Step>, base: Cluster)

  /** RetryOnConflict with one attempt per round. When the attempts run out the last
      conflict is returned, and with no attempts at all there is none to return. */
  function Retries(change: Change, copy: Cluster, s: Server, rounds: seq<Round>): Outcome
    decreases |rounds|
  {
    if rounds == [] then Outcome(s, None, [], copy)
    else
      var r := rounds[0];
      var (s', step) := Attempt(change, copy, s.StoreAll(r.others), r.fault, r.refresh);
      if step.Finished? then Outcome(s', step.error, [step], copy)
      else if |rounds| == 1 then Outcome(s', Some(ConflictError), [step], copy)
      else
        var rest := Retries(change, step.copy, s', rounds[1..]);
        rest.(steps := [step] + rest.steps)
  }

  predicate Accepted(step: Step) {
    step == Finished(None)
  }

  lemma {:induction false} StoreAllGrows(s: Server, cs: seq<Cluster>)
    requires s.Valid()
    ensures s.StoreAll(cs).Valid()
    ensures s.history <= s.StoreAll(cs).history
    ensures |s.StoreAll(cs).history| == |s.history| + |cs|
    decreases |cs|
  {
    if cs == [] {
    } else {
      StoreAllGrows(s.Store(cs[0]), cs[1..]);
    }
  }

  /** How many versions the others store while `n` attempts are made. */
  function OthersStored(rounds: seq<Round>, n: nat): nat
    requires n <= |rounds|
  {
    if n == 0 then 0 else |rounds[0].others| + OthersStored(rounds[1..], n - 1)
  }

  /** Each refresh feeds the next attempt, and only a conflict leads to one. */
  ghost predicate RetriesOnlyConflicts(o: Outcome, copy: Cluster, rounds: seq<Round>) {
    var n := |o.steps|;
    && n <= |rounds|
    && (rounds != [] ==> n > 0)
    && (forall i | 0 <= i < n - 1 ::
          o.steps[i].Retry? && !rounds[i].fault && rounds[i].refresh == Some(o.steps[i].copy))
    && o.base == (if n < 2 then copy else o.steps[n - 2].copy)
  }

  /** What the caller is told. */
  ghost predicate ReportsOutcome(o: Outcome, rounds: seq<Round>) {
    var n := |o.steps|;
    && n <= |rounds|
    && (o.error == None <==> n == 0 || Accepted(o.steps[n - 1]))
    && (n > 0 && o.steps[n - 1].Retry? ==> n == |rounds| && o.error == Some(ConflictError))
    && (n > 0 && !Accepted(o.steps[n - 1]) && rounds[n - 1].refresh == None ==> o.error == Some(RefreshError))
    && (n > 0 && !Accepted(o.steps[n - 1]) && rounds[n - 1].refresh.Some? && rounds[n - 1].fault ==>
          o.error == Some(ServerError))
  }

  /** What was stored: everything the others stored and, at the very end, at most one
      version of the caller's, which is the change applied to the version before. */
  ghost predicate StoresAtMostOnce(o: Outcome, change: Change, s: Server, rounds: seq<Round>) {
    var n := |o.steps|;
    && n <= |rounds|
    && s.history <= o.server.history
    && o.server.Valid()
    && var accepted := n > 0 && Accepted(o.steps[n - 1]);
       var v := |o.server.history| - 1;
       && |o.server.history| == |s.history| + OthersStored(rounds, n) + (if accepted then 1 else 0)
       && (accepted ==>
             && v > 0 && o.base.resourceVersion == v - 1
             && o.server.history[v] == Apply(change, o.base).(resourceVersion := v))
  }

  lemma RetryNeedsConflict(change: Change, copy: Cluster, s: Server, fault: bool, refresh: Option<Cluster>)
    ensures
      var step := Attempt(change, copy, s, fault, refresh).1;
      step.Retry? ==> !fault && refresh == Some(step.copy)
  {
  }

  lemma {:induction false} OnlyConflictsAreRetried(change: Change, copy: Cluster, s: Server, rounds: seq<Round>)
    ensures RetriesOnlyConflicts(Retries(change, copy, s, rounds), copy, rounds)
    decreases |rounds|
  {
    hide Attempt;
    if rounds == [] {
    } else {
      var r := rounds[0];
      RetryNeedsConflict(change, copy, s.StoreAll(r.others), r.fault, r.refresh);
      var (s', step) := Attempt(change, copy, s.StoreAll(r.others), r.fault, r.refresh);
      if step.Retry? && |rounds| > 1 {
        OnlyConflictsAreRetried(change, step.copy, s', rounds[1..]);
      }
    }
  }

  lemma {:induction false} OutcomeIsReported(change: Change, copy: Cluster, s: Server, rounds: seq<Round>)
    ensures ReportsOutcome(Retries(change, copy, s, rounds), rounds)
    decreases |rounds|
  {
    hide Apply;
    if rounds == [] {
    } else {
      var r := rounds[0];
      var (s', step) := Attempt(change, copy, s.StoreAll(r.others), r.fault, r.refresh);
      if step.Retry? && |rounds| > 1 {
        OutcomeIsReported(change, step.copy, s', rounds[1..]);
      }
    }
  }

  /** An attempt is accepted exactly if nothing fails and it carries the number of the
      current version. Otherwise nothing is stored, and it ends as the lister and the
      error decide. */
  lemma AttemptStores(change: Change, copy: Cluster, s: Server, fault: bool, refresh: Option<Cluster>)
    requires s.Valid()
    ensures
      var (s', step) := Attempt(change, copy, s, fault, refresh);
      && s'.Valid()
      && s.history <= s'.history
      && (Accepted(step) <==> !fault && copy.resourceVersion == |s.history| - 1)
      && if Accepted(step) then
           s'.history == s.history + [Apply(change, copy).(resourceVersion := |s.history|)]
         else
           && s' == s
           && (refresh.None? ==> step == Finished(Some(RefreshError)))
           && (refresh.Some? && fault ==> step == Finished(Some(ServerError)))
           && (refresh.Some? && !fault ==> step == Retry(refresh.value))
  {
  }

  lemma OneMoreConflict(o: Outcome, step: Step, change: Change, s: Server, s': Server, rounds: seq<Round>)
    requires rounds != [] && o.steps != []
    requires s.history <= s'.history && |s'.history| == |s.history| + |rounds[0].others|
    requires StoresAtMostOnce(o, change, s', rounds[1..])
    ensures StoresAtMostOnce(o.(steps := [step] + o.steps), change, s, rounds)
  {
    hide Apply;
    var steps := [step] + o.steps;
    assert steps[|steps| - 1] == o.steps[|o.steps| - 1];
    assert OthersStored(rounds, |steps|) == |rounds[0].others| + OthersStored(rounds[1..], |o.steps|);
  }

  lemma {:induction false} AtMostOneWrite(change: Change, copy: Cluster, s: Server, rounds: seq<Round>)
    requires s.Valid()
    ensures StoresAtMostOnce(Retries(change, copy, s, rounds), change, s, rounds)
    decreases |rounds|
  {
    hide Attempt, Apply;
    if rounds == [] {
    } else {
      var r := rounds[0];
      StoreAllGrows(s, r.others);
      var s1 := s.StoreAll(r.others);
      AttemptStores(change, copy, s1, r.fault, r.refresh);
      var (s', step) := Attempt(change, copy, s1, r.fault, r.refresh);
      if step.Retry? && |rounds| > 1 {
        hide StoresAtMostOnce;
        AtMostOneWrite(change, step.copy, s', rounds[1..]);
        OnlyConflictsAreRetried(change, step.copy, s', rounds[1..]);
        OneMoreConflict(Retries(change, step.copy, s', rounds[1..]), step, change, s, s', rounds);
      } else {
        assert OthersStored(rounds, 1) == |r.others| + OthersStored(rounds[1..], 0);
      }
    }
  }

  /** The contract of the updater, for any bound on the attempts and any answers. */
  lemma RetryContract(change: Change, copy: Cluster, s: Server, rounds: seq<Round>)
    requires s.Valid()
    ensures
      var o := Retries(change, copy, s, rounds);
      && RetriesOnlyConflicts(o, copy, rounds)
      && ReportsOutcome(o, rounds)
      && StoresAtMostOnce(o, change, s, rounds)
  {
    OnlyConflictsAreRetried(change, copy, s, rounds);
    OutcomeIsReported(change, copy, s, rounds);
    AtMostOneWrite(change, copy, s, rounds);
  }

  /** Success means exactly that the change was stored, if one attempt is allowed; an
      updater without attempts reports success and stores nothing. */
  lemma SuccessMeansStored(change: Change, copy: Cluster, s: Server, rounds: seq<Round>)
    requires s.Valid()
    ensures
      var o := Retries(change, copy, s, rounds);
      o.error == None ==>
        if rounds == [] then o.server == s
        else o.server.history != [] && o.server.Current() == Apply(change, o.base).(resourceVersion := |o.server.history| - 1)
  {
    RetryContract(change, copy, s, rounds);
  }

  /******* Which updates get through *******/

  /** The copy an attempt sends its change in: the caller's, and then what each refresh
      brought. */
  function CopySent(copy: Cluster, rounds: seq<Round>, i: nat): Cluster
    requires i < |rounds|
  {
    if i == 0 || rounds[i - 1].refresh.None? then copy else rounds[i - 1].refresh.value
  }

  /** The attempt carries the number that is current when it is made, if no attempt before
      it was accepted: what others have stored by then decides. */
  predicate IsCurrent(copy: Cluster, s: Server, rounds: seq<Round>, i: nat)
    requires i < |rounds|
  {
    CopySent(copy, rounds, i).resourceVersion == |s.history| - 1 + OthersStored(rounds, i + 1)
  }

  predicate MeetsConflict(copy: Cluster, s: Server, rounds: seq<Round>, i: nat)
    requires i < |rounds|
  {
    !rounds[i].fault && rounds[i].refresh.Some? && !IsCurrent(copy, s, rounds, i)
  }

  predicate GetsThrough(copy: Cluster, s: Server, rounds: seq<Round>, i: nat)
    requires i < |rounds|
  {
    !rounds[i].fault && IsCurrent(copy, s, rounds, i)
    && forall j: nat | j < i :: MeetsConflict(copy, s, rounds, j)
  }

  lemma AfterConflict(copy: Cluster, s: Server, s': Server, rounds: seq<Round>, i: nat)
    requires 0 < i < |rounds| && rounds[0].refresh.Some? && rounds[i - 1].refresh.Some?
    requires |s'.history| == |s.history| + |rounds[0].others|
    ensures MeetsConflict(rounds[0].refresh.value, s', rounds[1..], i - 1) == MeetsConflict(copy, s, rounds, i)
    ensures IsCurrent(rounds[0].refresh.value, s', rounds[1..], i - 1) == IsCurrent(copy, s, rounds, i)
  {
    assert OthersStored(rounds, i + 1) == |rounds[0].others| + OthersStored(rounds[1..], i);
  }

  lemma FirstIsCurrent(copy: Cluster, s: Server, rounds: seq<Round>)
    requires rounds != [] && s.history != []
    ensures IsCurrent(copy, s, rounds, 0) <==>
      copy.resourceVersion == |s.history| - 1 + |rounds[0].others|
  {
    assert OthersStored(rounds, 1) == |rounds[0].others| + OthersStored(rounds[1..], 0);
  }

  /** How an update ends if its first `n` attempts, and no more, meet a conflict. */
  lemma {:induction false} EndsAfterConflicts(change: Change, copy: Cluster, s: Server, rounds: seq<Round>, n: nat)
    requires s.Valid() && rounds != [] && n <= |rounds|
    requires forall j: nat | j < n :: MeetsConflict(copy, s, rounds, j)
    requires n < |rounds| ==> !MeetsConflict(copy, s, rounds, n)
    ensures
      var o := Retries(change, copy, s, rounds);
      && |o.steps| == (if n < |rounds| then n + 1 else n)
      && o.error ==
           if n == |rounds| then Some(ConflictError)
           else if !rounds[n].fault && IsCurrent(copy, s, rounds, n) then None
           else if rounds[n].refresh.None? then Some(RefreshError)
           else Some(ServerError)
    decreases |rounds|
  {
    hide Attempt, IsCurrent;
    var r := rounds[0];
    StoreAllGrows(s, r.others);
    var s1 := s.StoreAll(r.others);
    AttemptStores(change, copy, s1, r.fault, r.refresh);
    assert IsCurrent(copy, s, rounds, 0) <==> copy.resourceVersion == |s1.history| - 1 by { FirstIsCurrent(copy, s, rounds); }
    assert n > 0 <==> MeetsConflict(copy, s, rounds, 0);
    if n == 0 || |rounds| == 1 {
    } else {
      forall j: nat | j < n - 1
        ensures MeetsConflict(r.refresh.value, s1, rounds[1..], j)
      {
        assert MeetsConflict(copy, s, rounds, j) && MeetsConflict(copy, s, rounds, j + 1);
        AfterConflict(copy, s, s1, rounds, j + 1);
      }
      assert MeetsConflict(copy, s, rounds, n - 1);
      if n < |rounds| {
        AfterConflict(copy, s, s1, rounds, n);
      }
      EndsAfterConflicts(change, r.refresh.value, s1, rounds[1..], n - 1);
    }
  }

  /** The first attempt from `i` on that meets no conflict. */
  function FirstStop(copy: Cluster, s: Server, rounds: seq<Round>, i: nat): (n: nat)
    requires i <= |rounds|
    ensures i <= n <= |rounds|
    ensures forall j: nat | i <= j < n :: MeetsConflict(copy, s, rounds, j)
    ensures n < |rounds| ==> !MeetsConflict(copy, s, rounds, n)
    decreases |rounds| - i
  {
    if i < |rounds| && MeetsConflict(copy, s, rounds, i) then FirstStop(copy, s, rounds, i + 1) else i
  }

  /** Which updates succeed, in version numbers alone: those of which some attempt meets no
      failure and carries the number that is current by then, after attempts that all met
      conflicts and refreshes that all worked. With no attempts there is nothing to fail. */
  lemma SucceedsExactly(change: Change, copy: Cluster, s: Server, rounds: seq<Round>)
    requires s.Valid()
    ensures Retries(change, copy, s, rounds).error == None <==>
      rounds == [] || exists i: nat | i < |rounds| :: GetsThrough(copy, s, rounds, i)
  {
    if rounds == [] {
    } else {
      var n := FirstStop(copy, s, rounds, 0);
      EndsAfterConflicts(change, copy, s, rounds, n);
      hide Retries, IsCurrent;
      if i: nat :| i < |rounds| && GetsThrough(copy, s, rounds, i) {
        assert !MeetsConflict(copy, s, rounds, i);
        assert n == i;
      }
      if n < |rounds| && !rounds[n].fault && IsCurrent(copy, s, rounds, n) {
        assert GetsThrough(copy, s, rounds, n);
      }
    }
  }

  /******* Many writers *******/

  /** An update in progress, between two attempts; `left` attempts remain. */
  datatype Client = Client(change: Change, copy: Cluster, left: nat)

  /** Who stored a version: an update, from the copy it sent its change in, or somebody
      else. */
  datatype Entry = Operator(change: Change, copy: Cluster) | Outside(obj: Cluster)

  /** `log[i]` says who stored version i + 1, and `ended` what the updates that are over
      have returned. */
  datatype System = System(
    server: Server,
    log: seq<Entry>,
    clients: map<nat, Client>,
    ended: map<nat, Option<UpdateError>>
  )

  /** What syncs leave of a stored version: they change the cached object in place, by
      filling in defaults, applying the AllMaster override, and editing conditions. */
  predicate StandsIn(c: Cluster, stored: Cluster) {
    && c.resourceVersion == stored.resourceVersion
    && c.Key() == stored.Key() && c.uid == stored.uid && c.labels == stored.labels
    && StandsFor(c.spec, stored.spec)
  }

  /** A cached object stands for the stored version it carries the number of. */
  predicate CachedFrom(s: Server, c: Cluster) {
    c.resourceVersion < |s.history| && StandsIn(c, s.history[c.resourceVersion])
  }

  datatype Event =
    | Begin(id: nat, change: Change, copy: Cluster, attempts: nat)
    | Try(id: nat, fault: bool, refresh: Option<Cluster>)
    | OutsideWrite(obj: Cluster)

  /** The lister may lag without limit; an outside writer obeys the same version
      check and may store anything but another identity. */
  predicate Enabled(sys: System, e: Event) {
    match e
    case Begin(id, _, copy, _) => id !in sys.clients && id !in sys.ended && CachedFrom(sys.server, copy)
    case Try(id, _, refresh) =>
      id in sys.clients && sys.clients[id].left > 0
      && (refresh.Some? ==> CachedFrom(sys.server, refresh.value))
    case OutsideWrite(obj) =>
      sys.server.history != [] && sys.server.Admits(obj)
      && obj.Key() == sys.server.Current().Key() && obj.uid == sys.server.Current().uid
  }

  /** The update returns. */
  function Return(sys: System, id: nat, error: Option<UpdateError>): System {
    sys.(clients := sys.clients - {id}, ended := sys.ended[id := error])
  }

  /** An event that is not enabled does not happen. */
  function Next(sys: System, e: Event): System {
    if !Enabled(sys, e) then sys else
    match e
    case Begin(id, change, copy, attempts) =>
      if attempts == 0 then Return(sys, id, None)
      else sys.(clients := sys.clients[id := Client(change, copy, attempts)])
    case OutsideWrite(obj) =>
      sys.(server := sys.server.Store(obj), log := sys.log + [Outside(obj)])
    case Try(id, fault, refresh) =>
      var c := sys.clients[id];
      var (server, step) := Attempt(c.change, c.copy, sys.server, fault, refresh);
      var log := if step == Finished(None) then sys.log + [Operator(c.change, c.copy)] else sys.log;
      var sys' := sys.(server := server, log := log);
      match step
      case Finished(error) => Return(sys', id, error)
      case Retry(copy) =>
        if c.left == 1 then Return(sys', id, Some(ConflictError))
        else sys'.(clients := sys.clients[id := c.(copy := copy, left := c.left - 1)])
  }

  function Run(sys: System, es: seq<Event>): System {
    if es == [] then sys else Next(Run(sys, es[..|es| - 1]), es[|es| - 1])
  }

  function Start(c: Cluster): System {
    System(Server([c.(resourceVersion := 0)]), [], map[], map[])
  }

  /** One stored version follows from the one before it by the change its writer asked
      for: an update applies its change to an object that stands in for that very
      version, number and all. Nothing else of the version is lost but what syncs
      themselves have edited: conditions, and the defaults and override of the spec. */
  predicate Explains(before: Cluster, e: Entry, after: Cluster) {
    && after.Key() == before.Key() && after.uid == before.uid
    && match e
       case Outside(obj) => after == obj.(resourceVersion := after.resourceVersion)
       case Operator(change, copy) =>
         StandsIn(copy, before) && after == Apply(change, copy).(resourceVersion := after.resourceVersion)
  }

  ghost predicate Explained(history: seq<Cluster>, log: seq<Entry>)
    requires |history| == |log| + 1
  {
    forall i | 0 <= i < |log| :: Explains(history[i], log[i], history[i + 1])
  }

  ghost predicate Invariant(sys: System) {
    && sys.server.Valid()
    && |sys.log| == |sys.server.history| - 1
    && Explained(sys.server.history, sys.log)
    && (forall id | id in sys.clients :: sys.clients[id].left > 0 && CachedFrom(sys.server, sys.clients[id].copy))
  }

  lemma StoreKeepsCached(s: Server, stored: Cluster, c: Cluster)
    requires CachedFrom(s, c)
    ensures CachedFrom(s.Store(stored), c)
  {
    hide StandsIn;
    assert s.Store(stored).history[c.resourceVersion] == s.history[c.resourceVersion];
  }

  lemma StoreKeepsExplanations(history: seq<Cluster>, log: seq<Entry>, after: Cluster, e: Entry)
    requires |history| == |log| + 1 && Explained(history, log)
    requires Explains(history[|log|], e, after)
    ensures Explained(history + [after], log + [e])
  {
    hide Explains;
    var h, l := history + [after], log + [e];
    forall i | 0 <= i < |l|
      ensures Explains(h[i], l[i], h[i + 1])
    {
      if i < |log| {
        assert Explains(history[i], log[i], history[i + 1]);
      }
    }
  }

  lemma StoreKeepsInvariant(sys: System, c: Cluster, e: Entry)
    requires Invariant(sys)
    requires Explains(sys.server.Current(), e, c.(resourceVersion := |sys.server.history|))
    ensures Invariant(sys.(server := sys.server.Store(c), log := sys.log + [e]))
  {
    hide Explains, CachedFrom;
    StoreKeepsExplanations(sys.server.history, sys.log, c.(resourceVersion := |sys.server.history|), e);
    forall id | id in sys.clients
      ensures CachedFrom(sys.server.Store(c), sys.clients[id].copy)
    {
      StoreKeepsCached(sys.server, c, sys.clients[id].copy);
    }
  }

  lemma OutsideIsExplained(before: Cluster, obj: Cluster, version: nat)
    requires obj.Key() == before.Key() && obj.uid == before.uid
    ensures Explains(before, Outside(obj), obj.(resourceVersion := version))
  {
  }

  /** What an accepted attempt stores is its change applied to the current version. */
  lemma AcceptedIsExplained(s: Server, change: Change, copy: Cluster)
    requires s.Valid() && CachedFrom(s, copy) && s.Admits(Apply(change, copy))
    ensures Explains(s.Current(), Operator(change, copy), Apply(change, copy).(resourceVersion := |s.history|))
  {
    hide StandsFor;
  }

  lemma StepKeepsInvariant(sys: System, e: Event)
    requires Invariant(sys)
    ensures Invariant(Next(sys, e))
  {
    hide StandsFor, Explains;
    if Enabled(sys, e) {
      match e
      case Begin(_, _, _, _) =>
      case OutsideWrite(obj) =>
        OutsideIsExplained(sys.server.Current(), obj, |sys.server.history|);
        StoreKeepsInvariant(sys, obj, Outside(obj));
      case Try(id, fault, refresh) =>
        var c := sys.clients[id];
        var sent := Apply(c.change, c.copy);
        if !fault && sys.server.Admits(sent) {
          AcceptedIsExplained(sys.server, c.change, c.copy);
          StoreKeepsInvariant(sys, sent, Operator(c.change, c.copy));
        }
    }
  }

  /** No lost update: in every interleaving of any number of label updates, status
      updates and outside writers, with caches that lag arbitrarily, each stored
      version is its writer's change applied to the version just before it. */
  lemma {:induction false} NoLostUpdate(c: Cluster, es: seq<Event>)
    ensures Invariant(Run(Start(c), es))
  {
    if es == [] {
    } else {
      NoLostUpdate(c, es[..|es| - 1]);
      StepKeepsInvariant(Run(Start(c), es[..|es| - 1]), es[|es| - 1]);
    }
  }

  /** In every reachable state, a client's next attempt is accepted exactly if nothing fails
      and its copy carries the number of the current version; then the update is over and
      has succeeded. Otherwise nothing is stored, and it is over with the error due, or
      goes on with what the lister has, one attempt fewer. */
  lemma TryIsAcceptedExactly(c: Cluster, es: seq<Event>, id: nat, fault: bool, refresh: Option<Cluster>)
    requires id in Run(Start(c), es).clients
    requires refresh.Some? ==> CachedFrom(Run(Start(c), es).server, refresh.value)
    ensures
      var sys := Run(Start(c), es);
      var client := sys.clients[id];
      var sys' := Next(sys, Try(id, fault, refresh));
      if !fault && client.copy.resourceVersion == |sys.server.history| - 1 then
        && sys'.log == sys.log + [Operator(client.change, client.copy)]
        && sys'.server.history ==
             sys.server.history + [Apply(client.change, client.copy).(resourceVersion := |sys.server.history|)]
        && sys'.clients == sys.clients - {id} && sys'.ended == sys.ended[id := None]
      else
        && sys'.log == sys.log && sys'.server == sys.server
        && if refresh.None? || fault || client.left <= 1 then
             && sys'.clients == sys.clients - {id}
             && sys'.ended == sys.ended[id :=
                  Some(if refresh.None? then RefreshError else if fault then ServerError else ConflictError)]
           else
             && sys'.clients == sys.clients[id := Client(client.change, refresh.value, client.left - 1)]
             && sys'.ended == sys.ended
  {
    hide Attempt, Apply, CachedFrom, Explained, Server.Valid;
    NoLostUpdate(c, es);
    var sys := Run(Start(c), es);
    AttemptStores(sys.clients[id].change, sys.clients[id].copy, sys.server, fault, refresh);
  }

  /** And an outside write that carries the current number is accepted, and an update
      begins whenever somebody asks for one. */
  lemma OthersMayAct(c: Cluster, es: seq<Event>, obj: Cluster, id: nat, change: Change, copy: Cluster, attempts: nat)
    ensures
      var sys := Run(Start(c), es);
      && sys.server.Valid()
      && (obj.resourceVersion == |sys.server.history| - 1 && obj.Key() == sys.server.Current().Key()
          && obj.uid == sys.server.Current().uid ==>
            Next(sys, OutsideWrite(obj)) ==
              sys.(server := Server(sys.server.history + [obj.(resourceVersion := |sys.server.history|)]),
                   log := sys.log + [Outside(obj)]))
      && (id !in sys.clients && id !in sys.ended && CachedFrom(sys.server, copy) && attempts > 0 ==>
            Next(sys, Begin(id, change, copy, attempts)) ==
              sys.(clients := sys.clients[id := Client(change, copy, attempts)]))
  {
    hide CachedFrom, Explained;
    NoLostUpdate(c, es);
  }

  lemma {:induction false} FirstVersionStays(c: Cluster, es: seq<Event>)
    ensures
      var history := Run(Start(c), es).server.history;
      history != [] && history[0] == c.(resourceVersion := 0)
  {
    if es == [] {
    } else {
      FirstVersionStays(c, es[..|es| - 1]);
    }
  }

  /******* What the log makes of labels and spec *******/

  /** The labels after replaying the log: the operator's merges in acceptance order,
      restarted by each outside write. */
  function ReplayLabels(labels: Option<StringMap>, log: seq<Entry>): Option<StringMap> {
    if log == [] then labels
    else
      var before := ReplayLabels(labels, log[..|log| - 1]);
      match log[|log| - 1]
      case Outside(obj) => obj.labels
      case Operator(MergeLabels(more), _) => Merge(before, more)
      case Operator(SetConditions(_), _) => before
  }

  /** The spec last written by somebody other than the operator. */
  function LastOutsideSpec(spec: Spec, log: seq<Entry>): Spec {
    if log == [] then spec
    else if log[|log| - 1].Outside? then log[|log| - 1].obj.spec
    else LastOutsideSpec(spec, log[..|log| - 1])
  }

  lemma StandsForItself(s: Spec)
    ensures StandsFor(s, s)
  {
  }

  lemma {:induction false} ReplayExplains(history: seq<Cluster>, log: seq<Entry>)
    requires |history| == |log| + 1
    requires Explained(history, log)
    ensures history[|log|].Key() == history[0].Key() && history[|log|].uid == history[0].uid
    ensures history[|log|].labels == ReplayLabels(history[0].labels, log)
    ensures StandsFor(history[|log|].spec, LastOutsideSpec(history[0].spec, log))
    decreases |log|
  {
    hide StandsFor;
    if log == [] {
    } else {
      var n := |log| - 1;
      ReplayExplains(history[..|log|], log[..n]);
      assert Explains(history[n], log[n], history[n + 1]);
      StandsForLaws(history[n + 1].spec, history[n].spec, LastOutsideSpec(history[0].spec, log[..n]));
    }
    StandsForItself(LastOutsideSpec(history[0].spec, log));
  }

  /** The stored labels are the replay of all accepted merges and outside writes. The
      stored spec is what its last outside writer wrote, or that with the defaults
      filled in, or that with the AllMaster override as well: an override that has
      been written back does replace the user's member count. */
  lemma MergesComposeInOrder(c: Cluster, es: seq<Event>)
    ensures
      var sys := Run(Start(c), es);
      && sys.server.Valid()
      && sys.server.Current().Key() == c.Key() && sys.server.Current().uid == c.uid
      && sys.server.Current().labels == ReplayLabels(c.labels, sys.log)
      && StandsFor(sys.server.Current().spec, LastOutsideSpec(c.spec, sys.log))
  {
    NoLostUpdate(c, es);
    FirstVersionStays(c, es);
    var sys := Run(Start(c), es);
    ReplayExplains(sys.server.history, sys.log);
  }

  /** What the user last wrote decides every later sync as long as the AllMaster switch
      stays, and after a change of the switch exactly when no override has been stored
      in place of a member count that would count again. */
  lemma UserSpecDecides(c: Cluster, es: seq<Event>, allMaster: bool)
    ensures
      var sys := Run(Start(c), es);
      sys.server.Valid() &&
      var stored, user := sys.server.Current().spec, LastOutsideSpec(c.spec, sys.log);
      && SameMeaning(stored, user)
      && (SameMeaning(stored.(allMaster := allMaster), user.(allMaster := allMaster)) <==>
            allMaster || !user.allMaster || WithDefaults(user).membersPerGroup == 1 || stored != Normalise(user))
  {
    MergesComposeInOrder(c, es);
    var sys := Run(Start(c), es);
    var stored, user := sys.server.Current().spec, LastOutsideSpec(c.spec, sys.log);
    StandsForLaws(stored, stored, user);
    LaterSwitch(stored, user, allMaster);
  }

  predicate HasLabel(labels: Option<StringMap>, key: string, value: string) {
    labels.Some? && key in labels.value && labels.value[key] == value
  }

  /** The write leaves a label with that value as it is. */
  predicate LeavesLabel(e: Entry, key: string, value: string) {
    match e
    case Outside(obj) => HasLabel(obj.labels, key, value)
    case Operator(MergeLabels(more), _) => key in more ==> more[key] == value
    case Operator(SetConditions(_), _) => true
  }

  lemma LabelStep(before: Cluster, e: Entry, after: Cluster, key: string, value: string)
    requires Explains(before, e, after) && HasLabel(before.labels, key, value)
    ensures HasLabel(after.labels, key, value) <==> LeavesLabel(e, key, value)
  {
    hide StandsFor;
  }

  lemma {:induction false} LabelThrough(history: seq<Cluster>, log: seq<Entry>, i: nat, n: nat, key: string, value: string)
    requires |history| == |log| + 1 && Explained(history, log)
    requires i < n <= |log| && HasLabel(history[i + 1].labels, key, value)
    ensures (forall j | i < j <= n :: HasLabel(history[j].labels, key, value)) <==>
            (forall j | i < j < n :: LeavesLabel(log[j], key, value))
  {
    if i + 1 == n {
    } else {
      LabelThrough(history, log, i, n - 1, key, value);
      assert Explains(history[n - 1], log[n - 1], history[n]);
      hide Explains, HasLabel, LeavesLabel;
      if HasLabel(history[n - 1].labels, key, value) {
        LabelStep(history[n - 1], log[n - 1], history[n], key, value);
      }
    }
  }

  /** A label once merged is in every later version, up to any given one, exactly when
      no writer in between, of the operator or outside, takes it away or changes it. */
  lemma MergedLabelSurvives(c: Cluster, es: seq<Event>, i: nat, n: nat, key: string)
    requires i < n <= |Run(Start(c), es).log|
    requires Run(Start(c), es).log[i].Operator? && Run(Start(c), es).log[i].change.MergeLabels?
    requires key in Run(Start(c), es).log[i].change.labels
    ensures
      var sys := Run(Start(c), es);
      var value := sys.log[i].change.labels[key];
      |sys.server.history| == |sys.log| + 1 &&
      ((forall j | i < j <= n :: HasLabel(sys.server.history[j].labels, key, value)) <==>
       (forall j | i < j < n :: LeavesLabel(sys.log[j], key, value)))
  {
    NoLostUpdate(c, es);
    var sys := Run(Start(c), es);
    assert Explains(sys.server.history[i], sys.log[i], sys.server.history[i + 1]);
    LabelThrough(sys.server.history, sys.log, i, n, key, sys.log[i].change.labels[key]);
  }

  /******* What the log makes of the conditions *******/

  /** A label update sends the whole cached object. It keeps the stored conditions
      exactly when the copy it was made from still has those of the version it
      carries, that is, when no sync has edited them in the cache. */
  lemma LabelUpdateKeepsConditions(c: Cluster, es: seq<Event>, i: nat)
    requires i < |Run(Start(c), es).log|
    requires Run(Start(c), es).log[i].Operator? && Run(Start(c), es).log[i].change.MergeLabels?
    ensures
      var sys := Run(Start(c), es);
      var history, copy := sys.server.history, sys.log[i].copy;
      && |history| == |sys.log| + 1 && copy.resourceVersion == i
      && (history[i + 1].conditions == history[i].conditions <==>
            copy.conditions == history[copy.resourceVersion].conditions)
  {
    NoLostUpdate(c, es);
    var sys := Run(Start(c), es);
    assert Explains(sys.server.history[i], sys.log[i], sys.server.history[i + 1]);
  }

  /** The conditions last written on purpose: by a status update or from outside. */
  function LastStatus(conditions: seq<Condition>, log: seq<Entry>): seq<Condition> {
    if log == [] then conditions
    else
      match log[|log| - 1]
      case Outside(obj) => obj.conditions
      case Operator(SetConditions(cs), _) => cs
      case Operator(MergeLabels(_), _) => LastStatus(conditions, log[..|log| - 1])
  }

  lemma {:induction false} LastStatusStands(history: seq<Cluster>, log: seq<Entry>)
    requires |history| == |log| + 1 && Explained(history, log)
    requires forall j | 0 <= j < |log| && log[j].Operator? && log[j].change.MergeLabels? ::
      log[j].copy.conditions == history[j].conditions
    ensures history[|log|].conditions == LastStatus(history[0].conditions, log)
    decreases |log|
  {
    if log == [] {
    } else {
      var n := |log| - 1;
      LastStatusStands(history[..n + 1], log[..n]);
      assert Explains(history[n], log[n], history[n + 1]);
    }
  }

  /** Status is last-writer-wins: if every label update was made from a copy with its
      version's conditions, the stored conditions are those last written on purpose. */
  lemma StatusIsLastWritten(c: Cluster, es: seq<Event>)
    ensures
      var sys := Run(Start(c), es);
      && |sys.server.history| == |sys.log| + 1
      && ((forall j | 0 <= j < |sys.log| && sys.log[j].Operator? && sys.log[j].change.MergeLabels? ::
             sys.log[j].copy.conditions == sys.server.history[j].conditions) ==>
          sys.server.Current().conditions == LastStatus(c.conditions, sys.log))
  {
    NoLostUpdate(c, es);
    FirstVersionStays(c, es);
    var sys := Run(Start(c), es);
    if forall j | 0 <= j < |sys.log| && sys.log[j].Operator? && sys.log[j].change.MergeLabels? ::
         sys.log[j].copy.conditions == sys.server.history[j].conditions {
      LastStatusStands(sys.server.history, sys.log);
    }
  }

  /******* One update on its own *******/

  /** The run of a single update that meets no obstacle. */
  function Alone(change: Change, copy: Cluster): seq<Event> {
    [Begin(0, change, copy, 5), Try(0, false, None)]
  }

  lemma SentVersion(change: Change, copy: Cluster)
    ensures Apply(change, copy).resourceVersion == copy.resourceVersion
  {
  }

  lemma VersionOf(copy: Cluster, stored: Cluster)
    requires StandsIn(copy, stored)
    ensures copy.resourceVersion == stored.resourceVersion
  {
  }

  lemma AloneStores(c: Cluster, change: Change, copy: Cluster)
    requires StandsIn(copy, c.(resourceVersion := 0))
    ensures
      var sys := Run(Start(c), Alone(change, copy));
      && sys.log == [Operator(change, copy)] && sys.server.history != []
      && sys.server.Current() == Apply(change, copy).(resourceVersion := 1)
  {
    hide StandsIn, Apply;
    var es := Alone(change, copy);
    var sys := Next(Start(c), es[0]);
    assert es[..1] == [es[0]] && [es[0]][..0] == [];
    assert Run(Start(c), []) == Start(c);
    assert Run(Start(c), [es[0]]) == sys;
    assert Run(Start(c), es) == Next(sys, es[1]);
    SentVersion(change, copy);
    assert copy.resourceVersion == 0 by { VersionOf(copy, c.(resourceVersion := 0)); }
    assert sys.clients[0] == Client(change, copy, 5);
  }

  /** A label update may store conditions that were only ever in the cache. */
  lemma LabelUpdateMayPublishCachedStatus(c: Cluster, cached: seq<Condition>, labels: StringMap)
    ensures
      var sys := Run(Start(c), Alone(MergeLabels(labels), c.(resourceVersion := 0, conditions := cached)));
      sys.log != [] && sys.server.history != [] && sys.server.Current().conditions == cached
  {
    AloneStores(c, MergeLabels(labels), c.(resourceVersion := 0, conditions := cached));
  }

  /** The status write of one sync is enough to lose a member count: turning AllMaster
      off afterwards gives what the user's spec asks for exactly when AllMaster was off
      all along, or the user wanted one member anyway. */
  lemma StatusWriteStoresOverride(c: Cluster, conditions: seq<Condition>)
    ensures
      var copy := NormaliseCluster(c).(resourceVersion := 0);
      var sys := Run(Start(c), Alone(SetConditions(conditions), copy));
      sys.server.history != [] &&
      var stored := sys.server.Current().spec;
      && stored == Normalise(c.spec)
      && (SameMeaning(stored.(allMaster := false), c.spec.(allMaster := false)) <==>
            !c.spec.allMaster || WithDefaults(c.spec).membersPerGroup == 1)
  {
    AloneStores(c, SetConditions(conditions), NormaliseCluster(c).(resourceVersion := 0));
    LaterSwitch(Normalise(c.spec), c.spec, false);
    hide Normalise, WithDefaults;
  }
}
