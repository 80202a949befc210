/** The reconciler as a state machine. The world is the API server's Services and
    StatefulSets together with the syncs in progress, one worker at most for each
    cluster. One iteration of a loop of syncHandler, with its at most one write, is
    one step. What a lister answers is part of the event: a cache may say anything,
    and the theorems say which answers they are about. */
module Reconcile {
  import opened Values
  import opened Naming
  import opened Normalisation
  import opened Builders
  import opened Patches

  /******* The API server *******/

  datatype Store = Store(services: map<ObjectKey, Service>, sets: map<ObjectKey, StatefulSet>)

  /** The write an iteration asks for. A patch names the cached object it was computed
      from and the object wanted. */
  datatype Write =
    | NoWrite
    | CreateService(service: Service)
    | CreateSet(ss: StatefulSet)
    | PatchSet(key: ObjectKey, cached: StatefulSet, wanted: StatefulSet)

  /** A create needs the name to be free, a patch needs an object to patch. */
  predicate Admits(s: Store, w: Write) {
    match w
    case NoWrite => true
    case CreateService(svc) => svc.Key() !in s.services
    case CreateSet(ss) => ss.Key() !in s.sets
    case PatchSet(key, _, _) => key in s.sets
  }

  function Commit(s: Store, w: Write): Store
    requires Admits(s, w)
  {
    match w
    case NoWrite => s
    case CreateService(svc) => s.(services := s.services[svc.Key() := svc])
    case CreateSet(ss) => s.(sets := s.sets[ss.Key() := ss])
    case PatchSet(key, cached, wanted) => s.(sets := s.sets[key := Patched(cached, wanted, s.sets[key])])
  }

  /******* One sync *******/

  datatype SyncError = GetFailed | WriteFailed | NotControlled

  /** How far a sync has come: the finished iterations of the two loops, the counters
      of the second loop, and the error that ended it, if one did. */
  datatype Progress = Progress(
    servicesDone: nat,
    setsDone: nat,
    readyGroups: nat,
    readyMembers: int,
    error: Option<SyncError>
  )

  const FRESH := Progress(0, 0, 0, 0, None)

  /** Answers during one iteration: what the lister returns, and whether the write,
      if there is one, fails for a reason of its own. A failed write is not applied. */
  datatype Answers = Answers(service: Get<Service>, statefulSet: Get<StatefulSet>, fault: bool)

  /** A negative group count runs no iteration. */
  function Groups(c: Cluster): nat {
    if c.spec.groupReplica < 0 then 0 else c.spec.groupReplica
  }

  predicate InServices(c: Cluster, p: Progress) {
    p.error.None? && p.servicesDone < Groups(c)
  }

  predicate InSets(c: Cluster, p: Progress) {
    p.error.None? && p.servicesDone >= Groups(c) && p.setsDone < Groups(c)
  }

  /** Both loops have run to their ends. */
  predicate Complete(c: Cluster, p: Progress) {
    p.error.None? && p.servicesDone >= Groups(c) && p.setsDone >= Groups(c)
  }

  /** The write of the next iteration, given the lister's answer. */
  function Request(c: Cluster, p: Progress, a: Answers): Write {
    if InServices(c, p) then
      if a.service.NotFound? then CreateService(NewHeadlessService(c, p.servicesDone)) else NoWrite
    else if InSets(c, p) then
      match a.statefulSet
      case NotFound => CreateSet(NewStatefulSet(c, p.setsDone))
      case Found(ss) =>
        if ControlledBy(ss.owners, c.uid) && ss.replicas != c.spec.membersPerGroup
        then PatchSet(SetKey(c.Key(), p.setsDone), ss, NewStatefulSet(c, p.setsDone))
        else NoWrite
      case ListerError => NoWrite
    else NoWrite
  }

  /** The status the second loop counts: that of the object last assigned to `ss`,
      which after a create or a patch is the newly built one. */
  function CountedStatus(c: Cluster, a: Answers): SetStatus {
    if a.statefulSet.Found? && a.statefulSet.obj.replicas == c.spec.membersPerGroup then a.statefulSet.obj.status else SetStatus(0, 0)
  }

  function Count(p: Progress, s: SetStatus): Progress {
    if s.readyReplicas == s.replicas
    then p.(readyGroups := p.readyGroups + 1, readyMembers := p.readyMembers + s.replicas)
    else p
  }

  /** The sync after the iteration; `ok` says whether the requested write succeeded. */
  function After(c: Cluster, p: Progress, a: Answers, ok: bool): Progress {
    if InServices(c, p) then
      if a.service.ListerError? then p.(error := Some(GetFailed))
      else if !ok then p.(error := Some(WriteFailed))
      else if a.service.Found? && !ControlledBy(a.service.obj.owners, c.uid) then p.(error := Some(NotControlled))
      else p.(servicesDone := p.servicesDone + 1)
    else if InSets(c, p) then
      if a.statefulSet.ListerError? then p.(error := Some(GetFailed))
      else if a.statefulSet.Found? && !ControlledBy(a.statefulSet.obj.owners, c.uid) then p.(error := Some(NotControlled))
      else if !ok then p.(error := Some(WriteFailed))
      else Count(p, CountedStatus(c, a)).(setsDone := p.setsDone + 1)
    else p
  }

  /** One iteration against the store. */
  function Iterate(c: Cluster, s: Store, p: Progress, a: Answers): (Store, Progress) {
    var w := Request(c, p, a);
    if !a.fault && Admits(s, w) then (Commit(s, w), After(c, p, a, true))
    else (s, After(c, p, a, w.NoWrite?))
  }

  /** Whether the iteration changes the store: an accepted create or patch. */
  predicate Writes(c: Cluster, s: Store, p: Progress, a: Answers) {
    var w := Request(c, p, a);
    !w.NoWrite? && !a.fault && Admits(s, w)
  }

  /** A sync on its own, from a given point, one set of answers for each iteration. */
  function Iterations(c: Cluster, s: Store, p: Progress, answers: seq<Answers>): (Store, Progress) {
    if answers == [] then (s, p)
    else
      var (s', p') := Iterations(c, s, p, answers[..|answers| - 1]);
      Iterate(c, s', p', answers[|answers| - 1])
  }

  /******* The world *******/

  datatype Job = Job(cluster: Cluster, progress: Progress)

  datatype World = World(store: Store, jobs: map<ObjectKey, Job>)

  /** `Begin`: a worker takes the cluster's key off the queue, unless one is already at
      work on it, and reads the cluster. `Step`: the worker's next iteration.
      `Status`: the StatefulSet controller reports. The rest are other people's doing. */
  datatype Event =
    | Begin(cluster: Cluster)
    | Step(key: ObjectKey, answers: Answers)
    | Status(key: ObjectKey, status: SetStatus)
    | AddService(service: Service)
    | AddSet(ss: StatefulSet)
    | DropSet(key: ObjectKey)
    | Resize(key: ObjectKey, replicas: int32)

  predicate Running(j: Job) {
    InServices(j.cluster, j.progress) || InSets(j.cluster, j.progress)
  }

  function Next(w: World, e: Event): World {
    match e
    case Begin(c) =>
      if c.Key() in w.jobs && Running(w.jobs[c.Key()]) then w
      else w.(jobs := w.jobs[c.Key() := Job(NormaliseCluster(c), FRESH)])
    case Step(k, a) =>
      if k in w.jobs then
        var j := w.jobs[k];
        var (s, p) := Iterate(j.cluster, w.store, j.progress, a);
        World(s, w.jobs[k := j.(progress := p)])
      else w
    case Status(k, status) =>
      if k in w.store.sets
      then w.(store := w.store.(sets := w.store.sets[k := w.store.sets[k].(status := status)])) else w
    case AddService(svc) =>
      if svc.Key() in w.store.services then w
      else w.(store := w.store.(services := w.store.services[svc.Key() := svc]))
    case AddSet(ss) =>
      if ss.Key() in w.store.sets then w
      else w.(store := w.store.(sets := w.store.sets[ss.Key() := ss]))
    case DropSet(k) => w.(store := w.store.(sets := w.store.sets - {k}))
    case Resize(k, n) =>
      if k in w.store.sets
      then w.(store := w.store.(sets := w.store.sets[k := w.store.sets[k].(replicas := n)])) else w
  }

  function Run(w: World, es: seq<Event>): World {
    if es == [] then w else Next(Run(w, es[..|es| - 1]), es[|es| - 1])
  }

  /** Others act without hindrance: whatever is stored reports a new status, is resized or
      dropped when they do it, and what they add is there; the rest stays, and so do the
      syncs in progress. */
  lemma OthersAct(w: World, key: ObjectKey, status: SetStatus, n: int32, svc: Service, ss: StatefulSet, other: ObjectKey)
    ensures
      var was := Lookup(w.store.sets, key);
      was.Found? ==>
        && Lookup(Next(w, Status(key, status)).store.sets, key) == Found(was.obj.(status := status))
        && Lookup(Next(w, Resize(key, n)).store.sets, key) == Found(was.obj.(replicas := n))
        && Lookup(Next(w, DropSet(key)).store.sets, key) == NotFound
    ensures Lookup(w.store.services, svc.Key()).NotFound? ==>
      Lookup(Next(w, AddService(svc)).store.services, svc.Key()) == Found(svc)
    ensures Lookup(w.store.sets, ss.Key()).NotFound? ==> Lookup(Next(w, AddSet(ss)).store.sets, ss.Key()) == Found(ss)
    ensures forall e | e in [Status(key, status), Resize(key, n), DropSet(key)] ::
      && Next(w, e).jobs == w.jobs && Next(w, e).store.services == w.store.services
      && (other != key ==> Lookup(Next(w, e).store.sets, other) == Lookup(w.store.sets, other))
  {
  }

  /** Jobs are filed under their cluster's key. */
  ghost predicate WellFiled(w: World) {
    forall k | k in w.jobs :: w.jobs[k].cluster.Key() == k
  }

  lemma NextWellFiled(w: World, e: Event)
    requires WellFiled(w)
    ensures WellFiled(Next(w, e))
  {
    hide Iterate;
  }

  lemma {:induction false} RunWellFiled(w: World, es: seq<Event>)
    requires WellFiled(w)
    ensures WellFiled(Run(w, es))
  {
    if es == [] {
    } else {
      RunWellFiled(w, es[..|es| - 1]);
      NextWellFiled(Run(w, es[..|es| - 1]), es[|es| - 1]);
    }
  }

  /******* What a write touches *******/

  /** The Service or StatefulSet a write is about. */
  datatype Target = ServiceTarget(key: ObjectKey) | SetTarget(key: ObjectKey) | NoTarget

  function TargetOf(w: Write): Target {
    match w
    case NoWrite => NoTarget
    case CreateService(svc) => ServiceTarget(svc.Key())
    case CreateSet(ss) => SetTarget(ss.Key())
    case PatchSet(key, _, _) => SetTarget(key)
  }

  /** A step of a sync is about the object of its own index. */
  lemma RequestTarget(c: Cluster, p: Progress, a: Answers)
    ensures
      var w := Request(c, p, a);
      w.NoWrite? || TargetOf(w) ==
        if InServices(c, p) then ServiceTarget(ServiceKey(c.Key(), p.servicesDone))
        else SetTarget(SetKey(c.Key(), p.setsDone))
  {
  }
}
