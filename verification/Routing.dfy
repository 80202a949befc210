/** How an event about a StatefulSet finds its way to a sync of the cluster that owns
    it: handleObject, the work-queue key, and its parsing by syncHandler. */
module Routing {
  import opened Values
  import opened Naming
  import opened Builders

  /** What an informer hands over: an object, the tombstone of a deleted one, or a
      value of some other type. */
  datatype Notification =
    | Object(ss: StatefulSet)
    | Tombstone(last: Option<StatefulSet>)
    | Unknown

  function Route(ss: StatefulSet, clusters: set<ObjectKey>): Option<string> {
    var ref := ControllerOf(ss.owners);
    if ref.None? || ref.value.kind != CLUSTER_KIND then None
    else
      var k := ObjectKey(ss.namespace, ref.value.name);
      if k in clusters then Some(MetaNamespaceKey(k)) else None
  }

  /** handleObject: the key it enqueues, if it enqueues one. `clusters` is what the
      cluster lister knows. */
  function HandleObject(n: Notification, clusters: set<ObjectKey>): Option<string> {
    match n
    case Unknown => None
    case Tombstone(None) => None
    case Tombstone(Some(ss)) => Route(ss, clusters)
    case Object(ss) => Route(ss, clusters)
  }

  /** Different clusters have different work-queue keys, so the queue, which hands out a
      key to one worker at a time, never merges or splits their syncs. */
  lemma QueueKeysDistinct(k: ObjectKey, l: ObjectKey)
    requires '/' !in k.namespace && '/' !in k.name && '/' !in l.namespace && '/' !in l.name
    ensures MetaNamespaceKey(k) == MetaNamespaceKey(l) <==> k == l
  {
    KeyRoundTrip(k);
    KeyRoundTrip(l);
  }

  /** The first controller reference of the object, if its kind is BrokerCluster, names
      `k` in the object's namespace. */
  predicate PointsTo(ss: StatefulSet, k: ObjectKey) {
    k.namespace == ss.namespace &&
    exists i | 0 <= i < |ss.owners| ::
      && ss.owners[i].controller && (forall j | 0 <= j < i :: !ss.owners[j].controller)
      && ss.owners[i].kind == "BrokerCluster" && ss.owners[i].name == k.name
  }

  /** The object a notification is about: one that is alive, or the last state of one
      that is deleted. */
  function Subject(n: Notification): Option<StatefulSet> {
    match n
    case Object(ss) => Some(ss)
    case Tombstone(last) => last
    case Unknown => None
  }

  lemma PointsToController(ss: StatefulSet, k: ObjectKey)
    ensures PointsTo(ss, k) <==>
      var ref := ControllerOf(ss.owners);
      ref.Some? && ref.value.kind == CLUSTER_KIND && k == ObjectKey(ss.namespace, ref.value.name)
  {
    var first := FirstController(ss.owners);
    forall i | 0 <= i < |ss.owners| && ss.owners[i].controller && forall j | 0 <= j < i :: !ss.owners[j].controller
      ensures ControllerOf(ss.owners) == Some(ss.owners[i])
    {
      ControllerIsFirst(ss.owners, i);
    }
  }

  /** For every notification: a key is enqueued exactly if it is that of a cluster the
      lister knows and the first controller reference of the object, alive or deleted,
      points to; of any other notification nothing comes. */
  lemma HandledExactly(n: Notification, clusters: set<ObjectKey>, key: string)
    ensures HandleObject(n, clusters) == Some(key) <==>
      Subject(n).Some? && exists k :: k in clusters && PointsTo(Subject(n).value, k) && key == MetaNamespaceKey(k)
  {
    hide MetaNamespaceKey, PointsTo;
    if Subject(n).Some? {
      var ss := Subject(n).value;
      var ref := ControllerOf(ss.owners);
      forall k: ObjectKey
        ensures PointsTo(ss, k) <==> ref.Some? && ref.value.kind == CLUSTER_KIND && k == ObjectKey(ss.namespace, ref.value.name)
      {
        PointsToController(ss, k);
      }
      if ref.Some? {
        var k := ObjectKey(ss.namespace, ref.value.name);
        assert PointsTo(ss, k) <==> ref.value.kind == CLUSTER_KIND;
      }
    }
  }

  /** Among names without a slash the enqueued key tells the cluster. */
  lemma RoutedIffControllerKnown(n: Notification, clusters: set<ObjectKey>, k: ObjectKey)
    requires '/' !in k.namespace && '/' !in k.name
    requires forall l | l in clusters :: '/' !in l.namespace && '/' !in l.name
    ensures HandleObject(n, clusters) == Some(MetaNamespaceKey(k)) <==>
      Subject(n).Some? && k in clusters && PointsTo(Subject(n).value, k)
  {
    hide MetaNamespaceKey, PointsTo, HandleObject;
    HandledExactly(n, clusters, MetaNamespaceKey(k));
    forall l | l in clusters
      ensures MetaNamespaceKey(l) == MetaNamespaceKey(k) <==> l == k
    {
      QueueKeysDistinct(l, k);
    }
  }

  /** A StatefulSet with the owner and the namespace that the operator gave it, whatever
      has become of the rest of it, alive or deleted, is routed to its own cluster and to
      no other, if the lister knows it, and to nothing otherwise; and syncHandler recovers
      the cluster's namespace and name from the key exactly when neither holds a slash. */
  lemma RoutingRoundTrip(c: Cluster, index: nat, ss: StatefulSet, clusters: set<ObjectKey>)
    requires ss.owners == NewStatefulSet(c, index).owners && ss.namespace == NewStatefulSet(c, index).namespace
    ensures
      && HandleObject(Object(ss), clusters) == HandleObject(Tombstone(Some(ss)), clusters)
      && match HandleObject(Object(ss), clusters)
         case None => c.Key() !in clusters
         case Some(key) =>
           c.Key() in clusters
           && (SplitMetaNamespaceKey(key) == Some(c.Key()) <==> '/' !in c.namespace && '/' !in c.name)
  {
    BuiltObjectsAreOwned(c, index);
    KeyRoundTrip(c.Key());
  }
}
