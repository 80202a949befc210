/** The heap objects of the Go program, with the operations that change them in
    place. A Go map is a StringTable and a pointer to an opaque structure is an
    Opaque; a nil map or pointer is one that holds nothing. A slice of conditions
    is a reference to its backing array, and the address of an element is that
    reference with an index. */
module Objects {
  import opened Values
  import opened Normalisation
  import Conditions

  class StringTable {
    var entries: Option<StringMap>

    constructor (entries: Option<StringMap>)
      ensures this.entries == entries
    {
      this.entries := entries;
    }

    /** The loop of a generated deep copy of a map. */
    method DeepCopy() returns (out: StringTable)
      ensures fresh(out) && out.entries == entries
    {
      out := new StringTable(None);
      if entries.Some? {
        var m: StringMap := map[];
        var todo := entries.value.Keys;
        while todo != {}
          invariant todo <= entries.value.Keys
          invariant m == map k | k in entries.value && k !in todo :: entries.value[k]
          decreases |todo|
        {
          var k :| k in todo;
          m := m[k := entries.value[k]];
          todo := todo - {k};
        }
        assert m == entries.value;
        out.entries := Some(m);
      }
    }
  }

  class Opaque {
    var contents: Option<string>

    constructor (contents: Option<string>)
      ensures this.contents == contents
    {
      this.contents := contents;
    }

    method DeepCopy() returns (out: Opaque)
      ensures fresh(out) && out.contents == contents
    {
      out := new Opaque(contents);
    }
  }

  /******* Spec *******/

  method EnsureProperty(table: StringTable, key: string, value: string)
    requires table.entries.Some?
    modifies table
    ensures table.entries == Some(SetDefault(old(table.entries).value, key, value))
  {
    if Read(table.entries, key) == "" {
      table.entries := Some(table.entries.value[key := value]);
    }
  }

  class BrokerClusterSpec {
    var brokerImage: string
    var nameServers: string
    var allMaster: bool
    var replicationMode: string
    var groupReplica: int32
    var membersPerGroup: int32
    var properties: StringTable
    var nodeSelector: StringTable
    var affinity: Opaque
    var volumeClaimTemplate: Opaque
    var config: Opaque

    constructor ()
      ensures Valid() && fresh(Parts())
    {
      brokerImage, nameServers, allMaster, replicationMode := "", "", false, "";
      groupReplica, membersPerGroup := 0, 0;
      properties := new StringTable(None);
      nodeSelector := new StringTable(None);
      affinity := new Opaque(None);
      volumeClaimTemplate := new Opaque(None);
      config := new Opaque(None);
    }

    ghost predicate Valid()
      reads this
    {
      properties != nodeSelector && affinity != volumeClaimTemplate && affinity != config
      && volumeClaimTemplate != config
    }

    /** What the maps and pointers of the spec refer to. */
    ghost function Parts(): set<object>
      reads this
    {
      {properties, nodeSelector, affinity, volumeClaimTemplate, config}
    }

    function Value(): Spec
      reads this, properties, nodeSelector, affinity, volumeClaimTemplate, config
    {
      Spec(brokerImage, nameServers, allMaster, replicationMode, groupReplica, membersPerGroup,
           properties.entries, nodeSelector.entries,
           affinity.contents, volumeClaimTemplate.contents, config.contents)
    }

    /** The fields that `*out = *in` copies for good. */
    method CopyScalarsInto(out: BrokerClusterSpec)
      modifies out`brokerImage, out`nameServers, out`allMaster, out`replicationMode,
               out`groupReplica, out`membersPerGroup
      ensures out.brokerImage == old(brokerImage) && out.nameServers == old(nameServers)
      ensures out.allMaster == old(allMaster) && out.replicationMode == old(replicationMode)
      ensures out.groupReplica == old(groupReplica) && out.membersPerGroup == old(membersPerGroup)
    {
      out.brokerImage, out.nameServers := brokerImage, nameServers;
      out.allMaster, out.replicationMode := allMaster, replicationMode;
      out.groupReplica, out.membersPerGroup := groupReplica, membersPerGroup;
    }

    method CopyMapsInto(out: BrokerClusterSpec)
      requires out != this
      modifies out`properties, out`nodeSelector
      ensures fresh(out.properties) && fresh(out.nodeSelector) && out.properties != out.nodeSelector
      ensures out.properties.entries == properties.entries && out.nodeSelector.entries == nodeSelector.entries
    {
      out.properties := properties.DeepCopy();
      out.nodeSelector := nodeSelector.DeepCopy();
    }

    method CopyPointersInto(out: BrokerClusterSpec)
      requires out != this
      modifies out`affinity, out`volumeClaimTemplate, out`config
      ensures fresh(out.affinity) && fresh(out.volumeClaimTemplate) && fresh(out.config)
      ensures out.affinity != out.volumeClaimTemplate && out.affinity != out.config
      ensures out.volumeClaimTemplate != out.config
      ensures out.affinity.contents == affinity.contents
      ensures out.volumeClaimTemplate.contents == volumeClaimTemplate.contents
      ensures out.config.contents == config.contents
    {
      out.affinity := affinity.DeepCopy();
      out.volumeClaimTemplate := volumeClaimTemplate.DeepCopy();
      out.config := config.DeepCopy();
    }

    /** `*out = *in`, then a copy of each map and each pointer. */
    method DeepCopyInto(out: BrokerClusterSpec)
      requires out != this
      modifies out
      ensures out.Valid() && fresh(out.Parts())
      ensures out.Value() == Value()
    {
      CopyScalarsInto(out);
      CopyMapsInto(out);
      CopyPointersInto(out);
    }

    method DeepCopy() returns (out: BrokerClusterSpec)
      ensures fresh(out) && out.Valid() && fresh(out.Parts())
      ensures out.Value() == Value()
    {
      out := new BrokerClusterSpec();
      DeepCopyInto(out);
    }

    /** The first half of EnsureDefaults. */
    method EnsureScalars()
      modifies `brokerImage, `groupReplica, `membersPerGroup
      ensures Value() == WithDefaults(old(Value())).(properties := old(properties.entries))
    {
      if brokerImage == "" {
        brokerImage := DEFAULT_BROKER_IMAGE;
      }
      if groupReplica == 0 {
        groupReplica := DEFAULT_GROUPS;
      }
      if membersPerGroup == 0 {
        membersPerGroup := DEFAULT_MEMBERS_PER_GROUP;
      }
    }

    /** The second half of EnsureDefaults. */
    method EnsureProperties()
      requires Valid()
      modifies `properties, properties
      ensures Valid()
      ensures properties == old(properties) || fresh(properties)
      ensures properties.entries ==
        Some(DefaultProperties(if old(properties.entries).Some? then old(properties.entries).value else map[]))
    {
      if properties.entries.None? {
        properties := new StringTable(Some(map[]));
      }
      EnsureProperty(properties, DELETE_WHEN, "04");
      EnsureProperty(properties, FILE_RESERVED_TIME, "48");
      EnsureProperty(properties, REPLICATION_MODE, "SYNC");
      EnsureProperty(properties, FLUSH_DISK_TYPE, "ASYNC_FLUSH");
    }
  }

  /******* Status *******/

  /** The backing array of a slice of conditions. */
  class ConditionArray {
    var elements: seq<Condition>

    constructor (elements: seq<Condition>)
      ensures this.elements == elements
    {
      this.elements := elements;
    }

    /** The loop of a generated deep copy of the slice. */
    method DeepCopy() returns (out: ConditionArray)
      ensures fresh(out) && out.elements == elements
    {
      var copy: seq<Condition> := [];
      for i := 0 to |elements|
        invariant copy == elements[..i]
      {
        copy := copy + [elements[i]];
      }
      out := new ConditionArray(copy);
    }
  }

  /** `&base[index]`. The address of a condition of its own points into an array of
      one element. */
  datatype ConditionPointer = ConditionPointer(base: ConditionArray, index: nat) {
    ghost predicate Valid()
      reads base
    {
      index < |base.elements|
    }

    function Target(): Condition
      requires Valid()
      reads base
    {
      base.elements[index]
    }
  }

  class BrokerClusterStatus {
    var conditions: ConditionArray

    constructor ()
      ensures fresh(conditions) && conditions.elements == []
    {
      conditions := new ConditionArray([]);
    }

    method DeepCopy() returns (out: BrokerClusterStatus)
      ensures fresh(out) && fresh(out.conditions)
      ensures out.conditions.elements == conditions.elements
    {
      out := new BrokerClusterStatus();
      out.conditions := conditions.DeepCopy();
    }
  }

  /** GetClusterCondition: the position of the first condition of the type, and a
      pointer to the element itself. */
  method GetClusterCondition(status: BrokerClusterStatus?, ctype: string)
    returns (index: int, condition: Option<ConditionPointer>)
    ensures status == null ==> index == -1 && condition == None
    ensures status != null ==> index == Conditions.Find(status.conditions.elements, ctype)
    ensures status != null && index < 0 ==> condition == None
    ensures status != null && index >= 0 ==> condition == Some(ConditionPointer(status.conditions, index))
  {
    if status == null {
      return -1, None;
    }
    var cs := status.conditions.elements;
    for i := 0 to |cs|
      invariant forall j | 0 <= j < i :: cs[j].ctype != ctype
    {
      if cs[i].ctype == ctype {
        Conditions.FindIsFirst(cs, ctype, i);
        return i, Some(ConditionPointer(status.conditions, i));
      }
    }
    return -1, None;
  }

  /** The condition is the list's own entry for its type. */
  ghost predicate PointsToOwnEntry(status: BrokerClusterStatus, condition: ConditionPointer)
    requires condition.Valid()
    reads status, status.conditions, condition.base
  {
    condition.base == status.conditions
    && condition.index == Conditions.Find(status.conditions.elements, condition.Target().ctype)
  }

  /** `*p = c` */
  method WriteThrough(p: ConditionPointer, c: Condition)
    requires p.Valid()
    modifies p.base
    ensures p.base.elements == old(p.base.elements)[p.index := c]
  {
    p.base.elements := p.base.elements[p.index := c];
  }

  /** The rest of UpdateClusterCondition, where there is an old condition, which may be
      the new one itself: the new one keeps the old one's time if the status is the
      same, and is compared with it and written over it. */
  method ReplaceCondition(condition: ConditionPointer, o: ConditionPointer) returns (changed: bool)
    requires condition.Valid() && o.Valid()
    modifies condition.base, o.base
    ensures
      var c, was := old(condition.Target()), old(o.Target());
      var stamped := c.(lastTransitionTime := if c.status == was.status then was.lastTransitionTime else c.lastTransitionTime);
      && changed == !(stamped.status == was.status && stamped.reason == was.reason && stamped.message == was.message
                      && stamped.lastTransitionTime == was.lastTransitionTime)
      && (condition.base == o.base ==>
            o.base.elements == old(o.base.elements)[condition.index := stamped][o.index := stamped])
      && (condition.base != o.base ==>
            condition.base.elements == old(condition.base.elements)[condition.index := stamped]
            && o.base.elements == old(o.base.elements)[o.index := stamped])
  {
    if condition.Target().status == o.Target().status {
      WriteThrough(condition, condition.Target().(lastTransitionTime := o.Target().lastTransitionTime));
    }
    var isEqual := condition.Target().status == o.Target().status
      && condition.Target().reason == o.Target().reason
      && condition.Target().message == o.Target().message
      && condition.Target().lastTransitionTime == o.Target().lastTransitionTime;
    WriteThrough(o, condition.Target());
    return !isEqual;
  }

  /** UpdateClusterCondition. The intended use is a condition outside the list. When
      the condition is the list's own entry for its type, the entry is dated anew
      while the method reports that nothing changed. The third case needs a list with
      two conditions of one type. A new condition is appended by
      reallocating the array, as Go does for a slice that is full. */
  method UpdateClusterCondition(status: BrokerClusterStatus, condition: ConditionPointer, now: int)
    returns (changed: bool)
    requires condition.Valid()
    modifies status, status.conditions, condition.base
    ensures status.conditions == old(status.conditions) || fresh(status.conditions)
    ensures condition.Valid()
    ensures condition.base != old(status.conditions) ==>
      var cs := old(status.conditions.elements);
      var c := old(condition.Target());
      && status.conditions.elements == Conditions.Update(cs, c, now)
      && condition.base.elements == old(condition.base.elements)[condition.index := Conditions.Stamp(cs, c, now)]
      && changed == Conditions.Flag(cs, c, now)
    ensures old(PointsToOwnEntry(status, condition)) ==>
      && !changed
      && status.conditions == old(status.conditions)
      && status.conditions.elements ==
           old(status.conditions.elements)[condition.index := old(condition.Target()).(lastTransitionTime := now)]
    ensures condition.base == old(status.conditions) && !old(PointsToOwnEntry(status, condition)) ==>
      var cs := old(status.conditions.elements);
      var c := old(condition.Target());
      var stamped := Conditions.Stamp(cs, c, now);
      && status.conditions == old(status.conditions)
      && status.conditions.elements == cs[condition.index := stamped][Conditions.Find(cs, c.ctype) := stamped]
      && changed == Conditions.Flag(cs, c, now)
  {
    hide Conditions.Stamp, Conditions.Update, Conditions.Flag;
    ghost var cs := status.conditions.elements;
    Conditions.UpdateUnfolded(cs, condition.Target(), now);
    WriteThrough(condition, condition.Target().(lastTransitionTime := now));
    Conditions.SameTypesSameFind(cs, status.conditions.elements, condition.Target().ctype);
    var conditionIndex, oldCondition := GetClusterCondition(status, condition.Target().ctype);

    if oldCondition.None? {
      status.conditions := new ConditionArray(status.conditions.elements + [condition.Target()]);
      return true;
    }
    changed := ReplaceCondition(condition, oldCondition.value);
  }

  /** GetClusterReadyCondition and IsClusterReadyConditionTrue: the first Ready
      condition, if there is one, decides. */
  method IsClusterReadyConditionTrue(status: BrokerClusterStatus) returns (ready: bool)
    ensures ready <==> exists i | 0 <= i < |status.conditions.elements| ::
      && status.conditions.elements[i].ctype == READY && status.conditions.elements[i].status == TRUE
      && forall j | 0 <= j < i :: status.conditions.elements[j].ctype != READY
  {
    var index, condition := GetClusterCondition(status, READY);
    ready := condition.Some? && condition.value.Target().status == TRUE;
  }

  /******* Cluster *******/

  class BrokerCluster {
    const namespace: string
    const name: string
    const uid: string
    var resourceVersion: nat
    var labels: StringTable
    const spec: BrokerClusterSpec
    const status: BrokerClusterStatus

    constructor (namespace: string, name: string, uid: string, resourceVersion: nat,
                 labels: StringTable, spec: BrokerClusterSpec, status: BrokerClusterStatus)
      ensures this.namespace == namespace && this.name == name && this.uid == uid
      ensures this.resourceVersion == resourceVersion && this.labels == labels
      ensures this.spec == spec && this.status == status
    {
      this.namespace, this.name, this.uid, this.resourceVersion := namespace, name, uid, resourceVersion;
      this.labels, this.spec, this.status := labels, spec, status;
    }

    /** No two parts of the object share memory. */
    ghost predicate Valid()
      reads this, spec
    {
      spec.Valid() && labels != spec.properties && labels != spec.nodeSelector
    }

    /** Everything reachable from the object that can be changed. */
    ghost function Footprint(): set<object>
      reads this, spec, status
    {
      {this, labels, spec, status, status.conditions} + spec.Parts()
    }

    function Value(): Cluster
      reads this, labels, spec, spec.properties, spec.nodeSelector,
            spec.affinity, spec.volumeClaimTemplate, spec.config, status, status.conditions
    {
      Cluster(namespace, name, uid, resourceVersion, labels.entries, spec.Value(), status.conditions.elements)
    }

    /** The copy has the same value and shares nothing with the original. */
    method DeepCopy() returns (out: BrokerCluster)
      ensures out.Valid() && fresh(out.Footprint())
      ensures out.Value() == Value()
    {
      var table := labels.DeepCopy();
      var spec' := spec.DeepCopy();
      var status' := status.DeepCopy();
      out := new BrokerCluster(namespace, name, uid, resourceVersion, table, spec', status');
    }

    /** EnsureDefaults, on the object itself. */
    method EnsureDefaults()
      requires Valid()
      modifies spec, spec.properties
      ensures Valid()
      ensures spec.properties == old(spec.properties) || fresh(spec.properties)
      ensures Value() == old(Value()).(spec := WithDefaults(old(spec.Value())))
    {
      spec.EnsureScalars();
      spec.EnsureProperties();
    }
  }

  /******* A deep copy and its original stay apart *******/

  /** The value fields of a spec. */
  datatype Scalars = Scalars(
    brokerImage: string,
    nameServers: string,
    allMaster: bool,
    replicationMode: string,
    groupReplica: int32,
    membersPerGroup: int32
  )

  /** One change in place to a cluster object: each place in it that can change, be it a
      map, an element of a list or what a pointer refers to, takes any contents. */
  datatype Mutation =
    | SetVersion(version: nat)
    | SetLabels(entries: Option<StringMap>)
    | SetScalars(scalars: Scalars)
    | SetProperties(entries: Option<StringMap>)
    | SetNodeSelector(entries: Option<StringMap>)
    | SetAffinity(contents: Option<string>)
    | SetVolumeClaim(contents: Option<string>)
    | SetConfig(contents: Option<string>)
    | SetElements(conditions: seq<Condition>)

  function MutateSpec(s: Spec, m: Mutation): Spec {
    match m
    case SetScalars(x) =>
      Spec(x.brokerImage, x.nameServers, x.allMaster, x.replicationMode, x.groupReplica, x.membersPerGroup,
           s.properties, s.nodeSelector, s.affinity, s.volumeClaimTemplate, s.config)
    case SetProperties(entries) => s.(properties := entries)
    case SetNodeSelector(entries) => s.(nodeSelector := entries)
    case SetAffinity(contents) => s.(affinity := contents)
    case SetVolumeClaim(contents) => s.(volumeClaimTemplate := contents)
    case SetConfig(contents) => s.(config := contents)
    case _ => s
  }

  function Mutate(c: Cluster, m: Mutation): Cluster {
    match m
    case SetVersion(version) => c.(resourceVersion := version)
    case SetLabels(entries) => c.(labels := entries)
    case SetElements(conditions) => c.(conditions := conditions)
    case _ => c.(spec := MutateSpec(c.spec, m))
  }

  function MutateAll(c: Cluster, ms: seq<Mutation>): Cluster
    decreases |ms|
  {
    if ms == [] then c else MutateAll(Mutate(c, ms[0]), ms[1..])
  }

  method MutateSpecInPlace(s: BrokerClusterSpec, m: Mutation)
    requires s.Valid()
    modifies s, s.Parts()
    ensures s.Valid() && s.Parts() == old(s.Parts())
    ensures s.Value() == MutateSpec(old(s.Value()), m)
  {
    match m
    case SetScalars(x) =>
      s.brokerImage, s.nameServers, s.allMaster := x.brokerImage, x.nameServers, x.allMaster;
      s.replicationMode, s.groupReplica, s.membersPerGroup := x.replicationMode, x.groupReplica, x.membersPerGroup;
    case SetProperties(entries) => s.properties.entries := entries;
    case SetNodeSelector(entries) => s.nodeSelector.entries := entries;
    case SetAffinity(contents) => s.affinity.contents := contents;
    case SetVolumeClaim(contents) => s.volumeClaimTemplate.contents := contents;
    case SetConfig(contents) => s.config.contents := contents;
    case _ =>
  }

  method MutateOutsideSpec(c: BrokerCluster, m: Mutation)
    requires c.Valid() && (m.SetVersion? || m.SetLabels? || m.SetElements?)
    modifies c`resourceVersion, c.labels, c.status.conditions
    ensures c.Valid() && c.Value() == Mutate(old(c.Value()), m)
    ensures c.Footprint() == old(c.Footprint())
  {
    ghost var spec := c.spec.Value();
    match m {
      case SetVersion(version) => c.resourceVersion := version;
      case SetLabels(entries) => c.labels.entries := entries;
      case SetElements(conditions) => c.status.conditions.elements := conditions;
    }
    assert c.spec.Value() == spec;
  }

  method MutateInPlace(c: BrokerCluster, m: Mutation)
    requires c.Valid()
    modifies c.Footprint()
    ensures c.Valid() && c.Value() == Mutate(old(c.Value()), m)
    ensures c.Footprint() == old(c.Footprint())
  {
    hide MutateSpec;
    if m.SetVersion? || m.SetLabels? || m.SetElements? {
      MutateOutsideSpec(c, m);
    } else {
      MutateSpecInPlace(c.spec, m);
    }
  }

  method MutateAllInPlace(c: BrokerCluster, ms: seq<Mutation>)
    requires c.Valid()
    modifies c.Footprint()
    ensures c.Valid() && c.Value() == MutateAll(old(c.Value()), ms)
    ensures c.Footprint() == old(c.Footprint())
    decreases |ms|
  {
    if ms != [] {
      MutateInPlace(c, ms[0]);
      MutateAllInPlace(c, ms[1..]);
    }
  }

  /** Changes to one object are invisible in another that shares nothing with it. */
  method MutateAside(c: BrokerCluster, ms: seq<Mutation>, other: BrokerCluster)
    requires c.Valid() && other.Valid() && c.Footprint() !! other.Footprint()
    modifies c.Footprint()
    ensures c.Value() == MutateAll(old(c.Value()), ms)
    ensures other.Value() == old(other.Value())
    ensures other.Valid() && c.Valid() && c.Footprint() !! other.Footprint()
  {
    MutateAllInPlace(c, ms);
  }

  twostate lemma FreshIsDisjoint(known: set<object>, new added: set<object>)
    requires fresh(added)
    ensures known !! added
  {
  }

  /** After a deep copy, changes in place to the original and to the copy are invisible to
      each other, wherever they are made, to whatever contents, and in whatever number. */
  method CopyThenDiverge(c: BrokerCluster, ms: seq<Mutation>, ns: seq<Mutation>) returns (copy: BrokerCluster)
    requires c.Valid()
    modifies c.Footprint()
    ensures fresh(copy)
    ensures c.Value() == MutateAll(old(c.Value()), ms)
    ensures copy.Value() == MutateAll(old(c.Value()), ns)
  {
    ghost var mine := c.Footprint();
    copy := c.DeepCopy();
    FreshIsDisjoint(mine, copy.Footprint());
    MutateAside(copy, ns, c);
    MutateAside(c, ms, copy);
  }
}
