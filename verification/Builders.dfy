/** The Services and StatefulSets the operator builds for a group of brokers. */
module Builders {
  import opened Values
  import opened Naming
  import opened Normalisation

  const CLUSTER_LABEL := "v1alpha1.rocketmq.huanwei.io/cluster"
  const ROLE_LABEL := "v1alpha1.rocketmq.huanwei.io/role"
  const ROLE_MASTER := "master"
  const ROLE_SLAVE := "slave"
  const CLUSTER_KIND := "BrokerCluster"

  function NewControllerRef(c: Cluster): OwnerReference {
    OwnerReference(CLUSTER_KIND, c.name, c.uid, true)
  }

  function NewHeadlessService(c: Cluster, index: nat): Service {
    Service(
      c.namespace,
      ServiceName(c.name, index),
      map[CLUSTER_LABEL := GroupName(c.name, index)],
      [NewControllerRef(c)],
      map[CLUSTER_LABEL := GroupName(c.name, index)])
  }

  function PodLabels(name: string, index: nat): StringMap {
    map[CLUSTER_LABEL := GroupName(name, index),
        ROLE_LABEL := if index == 0 then ROLE_MASTER else ROLE_SLAVE]
  }

  function BrokerEnv(s: Spec, index: nat): StringMap {
    map["DELETE_WHEN" := Read(s.properties, DELETE_WHEN),
        "FILE_RESERVED_TIME" := Read(s.properties, FILE_RESERVED_TIME),
        "ALL_MASTER" := if s.allMaster then "true" else "false",
        "BROKER_NAME" := "broker-" + Decimal(index),
        "REPLICATION_MODE" := s.replicationMode,
        "FLUSH_DISK_TYPE" := Read(s.properties, FLUSH_DISK_TYPE),
        "NAMESRV_ADDRESS" := s.nameServers]
  }

  function BrokerVolumes(index: nat): StringMap {
    map["brokeroptlogs" := "/data/broker/logs/" + Decimal(index),
        "brokeroptstore" := "/data/broker/store/" + Decimal(index)]
  }

  function NewStatefulSet(c: Cluster, index: nat): StatefulSet {
    StatefulSet(
      c.namespace,
      GroupName(c.name, index),
      PodLabels(c.name, index),
      [NewControllerRef(c)],
      c.spec.membersPerGroup,
      PodLabels(c.name, index),
      PodTemplate(
        PodLabels(c.name, index),
        if c.spec.nodeSelector.Some? then c.spec.nodeSelector.value else map[],
        c.spec.brokerImage,
        BrokerEnv(c.spec, index),
        BrokerVolumes(index)),
      ServiceName(c.name, index),
      SetStatus(0, 0))
  }

  /** What is built for a cluster is filed under the key the reconciler looks up,
      and is controlled by that cluster. */
  lemma BuiltObjectsAreOwned(c: Cluster, index: nat)
    ensures NewHeadlessService(c, index).Key() == ServiceKey(c.Key(), index)
    ensures NewStatefulSet(c, index).Key() == SetKey(c.Key(), index)
    ensures ControllerOf(NewHeadlessService(c, index).owners) == Some(NewControllerRef(c))
    ensures ControllerOf(NewStatefulSet(c, index).owners) == Some(NewControllerRef(c))
  {
    var refs := [NewControllerRef(c)];
    assert refs[0].controller;
  }

  /******* What reaches a broker *******/

  lemma PropertiesNeverEmpty(s: Spec)
    ensures forall k | k in {"DELETE_WHEN", "FILE_RESERVED_TIME", "FLUSH_DISK_TYPE"} :: Read(Normalise(s).properties, k) != ""
  {
    var m := if s.properties.Some? then s.properties.value else map[];
    ReadDefaultProperties(m, DELETE_WHEN);
    ReadDefaultProperties(m, FILE_RESERVED_TIME);
    ReadDefaultProperties(m, FLUSH_DISK_TYPE);
    hide DefaultProperties, Read;
  }

  /** The names of the environment variables differ. */
  lemma KeysApart()
    ensures "DELETE_WHEN" != "FLUSH_DISK_TYPE" && "FILE_RESERVED_TIME" != "FLUSH_DISK_TYPE"
  {
    assert "FILE_RESERVED_TIME"[1] == 'I' && "FLUSH_DISK_TYPE"[1] == 'L';
    assert "DELETE_WHEN"[0] == 'D' && "FILE_RESERVED_TIME"[0] == 'F' && "FLUSH_DISK_TYPE"[0] == 'F';
  }

  /** The text ends in the numeral of `index`, after the given words. */
  predicate EndsInIndex(text: string, words: string, index: nat) {
    words <= text && IsNumeral(text[|words|..], index)
  }

  /** What the user's spec gives to the brokers of a group, for every setting: the switch
      and the size that goes with it, and each value as the user set it. */
  lemma BuiltCarriesSpec(c: Cluster, index: nat)
    ensures
      var s, env := c.spec, NewStatefulSet(NormaliseCluster(c), index).template.env;
      && env.Keys == {"DELETE_WHEN", "FILE_RESERVED_TIME", "ALL_MASTER", "BROKER_NAME", "REPLICATION_MODE",
                      "FLUSH_DISK_TYPE", "NAMESRV_ADDRESS"}
      && env["ALL_MASTER"] == (if s.allMaster then "true" else "false")
      && env["NAMESRV_ADDRESS"] == s.nameServers && env["REPLICATION_MODE"] == s.replicationMode
      && EndsInIndex(env["BROKER_NAME"], "broker-", index)
      && (forall k | k in {"DELETE_WHEN", "FILE_RESERVED_TIME", "FLUSH_DISK_TYPE"} ::
            env[k] == Read(Normalise(s).properties, k) != ""
            && (Read(s.properties, k) != "" ==> env[k] == Read(s.properties, k)))
    ensures
      var s, ss := c.spec, NewStatefulSet(NormaliseCluster(c), index);
      && (s.allMaster ==> ss.replicas == 1)
      && (!s.allMaster && s.membersPerGroup != 0 ==> ss.replicas == s.membersPerGroup)
      && (s.brokerImage != "" ==> ss.template.image == s.brokerImage)
      && ss.template.nodeSelector == (if s.nodeSelector.Some? then s.nodeSelector.value else map[])
      && ss.template.volumes.Keys == {"brokeroptlogs", "brokeroptstore"}
      && EndsInIndex(ss.template.volumes["brokeroptlogs"], "/data/broker/logs/", index)
      && EndsInIndex(ss.template.volumes["brokeroptstore"], "/data/broker/store/", index)
      && ss.status == SetStatus(0, 0)
  {
    NormalisationLaws(c.spec);
    DecimalRoundTrip(index);
    PropertiesNeverEmpty(c.spec);
    KeysApart();
    hide Normalise, Read, Decimal, IsNumeral;
    var numeral := Decimal(index);
    assert ("broker-" + numeral)[|"broker-"|..] == numeral;
    assert ("/data/broker/logs/" + numeral)[|"/data/broker/logs/"|..] == numeral;
    assert ("/data/broker/store/" + numeral)[|"/data/broker/store/"|..] == numeral;
  }

  /** A group's role is master exactly if it is the first, whatever the spec; the labels
      of the set, its pods and its selector are the same; and the owner is the cluster. */
  lemma BuiltLabelsAndOwner(c: Cluster, index: nat)
    ensures
      var ss, svc := NewStatefulSet(c, index), NewHeadlessService(c, index);
      && ss.labels.Keys == {"v1alpha1.rocketmq.huanwei.io/cluster", "v1alpha1.rocketmq.huanwei.io/role"}
      && ss.labels["v1alpha1.rocketmq.huanwei.io/cluster"] == ss.name
      && ss.labels["v1alpha1.rocketmq.huanwei.io/role"] == (if index == 0 then "master" else "slave")
      && ss.labels == ss.selector == ss.template.labels
      && svc.labels == svc.selector == map["v1alpha1.rocketmq.huanwei.io/cluster" := ss.name]
      && ss.owners == svc.owners == [OwnerReference("BrokerCluster", c.name, c.uid, true)]
  {
    hide GroupName, ServiceName, BrokerEnv, BrokerVolumes;
  }

  /******* Selectors *******/

  /** A label selector matches when every one of its pairs is among the labels. */
  predicate Matches(selector: StringMap, labels: StringMap) {
    forall k | k in selector :: k in labels && labels[k] == selector[k]
  }

  /** A group's Service selects the pods of a StatefulSet exactly when the two
      belong to the same group of the same cluster. */
  lemma SelectorExact(c: Cluster, i: nat, d: Cluster, j: nat)
    ensures Matches(NewHeadlessService(c, i).selector, NewStatefulSet(d, j).template.labels)
       <==> c.name == d.name && i == j
    ensures Matches(NewStatefulSet(c, i).selector, NewStatefulSet(c, i).template.labels)
  {
    var selector := NewHeadlessService(c, i).selector;
    var labels := NewStatefulSet(d, j).template.labels;
    assert labels[CLUSTER_LABEL] == GroupName(d.name, j);
    assert CLUSTER_LABEL in selector;
    if Matches(selector, labels) {
      GroupNameInjective(c.name, i, d.name, j);
    }
  }

  /** No pod, whatever its labels, is selected by two groups. */
  lemma SelectorsDisjoint(c: Cluster, i: nat, d: Cluster, j: nat, pod: StringMap)
    requires c.name != d.name || i != j
    ensures !(Matches(NewHeadlessService(c, i).selector, pod) && Matches(NewHeadlessService(d, j).selector, pod))
    ensures !(Matches(NewStatefulSet(c, i).selector, pod) && Matches(NewStatefulSet(d, j).selector, pod))
    ensures !(Matches(NewHeadlessService(c, i).selector, pod) && Matches(NewStatefulSet(d, j).selector, pod))
  {
    assert CLUSTER_LABEL in NewHeadlessService(c, i).selector && CLUSTER_LABEL in NewHeadlessService(d, j).selector;
    assert CLUSTER_LABEL in NewStatefulSet(c, i).selector && CLUSTER_LABEL in NewStatefulSet(d, j).selector;
    if GroupName(c.name, i) == GroupName(d.name, j) {
      GroupNameInjective(c.name, i, d.name, j);
    }
  }

  /******* Identity and meaning *******/

  /** The fields of a StatefulSet that must never change once it exists. */
  datatype Identity = Identity(
    namespace: string,
    name: string,
    labels: StringMap,
    selector: StringMap,
    podLabels: StringMap,
    serviceName: string
  )

  function IdentityOf(ss: StatefulSet): Identity {
    Identity(ss.namespace, ss.name, ss.labels, ss.selector, ss.template.labels, ss.serviceName)
  }

  /** Identity comes from the cluster's namespace and name and the group index
      alone: spec edits, and even a re-created cluster with another UID, keep it. */
  lemma IdentityIndependentOfSpec(c: Cluster, d: Cluster, index: nat)
    requires c.Key() == d.Key()
    ensures IdentityOf(NewStatefulSet(c, index)) == IdentityOf(NewStatefulSet(d, index))
    ensures NewStatefulSet(c, index).serviceName == NewHeadlessService(d, index).name
  {
  }

  /** Writing back to the API server what a sync has made of the spec changes nothing
      that a later sync builds, as long as the AllMaster switch stays as it is. */
  lemma WriteBackPreservesMeaning(c: Cluster, written: Spec, index: nat)
    requires StandsFor(written, c.spec)
    ensures
      var later := NormaliseCluster(c.(spec := written));
      && NewHeadlessService(later, index) == NewHeadlessService(NormaliseCluster(c), index)
      && NewStatefulSet(later, index) == NewStatefulSet(NormaliseCluster(c), index)
      && later.spec.groupReplica == Normalise(c.spec).groupReplica
  {
    StandsForLaws(written, written, c.spec);
    hide Normalise, WithDefaults;
  }

  /** After a change of the switch, what is built is still what the user's own spec asks
      for, unless the write-back has replaced a member count that would now count
      again. Services and the number of groups are never affected. */
  lemma WriteBackThenSwitch(c: Cluster, written: Spec, index: nat, allMaster: bool)
    requires StandsFor(written, c.spec)
    ensures
      var later := NormaliseCluster(c.(spec := written.(allMaster := allMaster)));
      var asked := NormaliseCluster(c.(spec := c.spec.(allMaster := allMaster)));
      && NewHeadlessService(later, index) == NewHeadlessService(asked, index)
      && later.spec.groupReplica == asked.spec.groupReplica
      && (NewStatefulSet(later, index) == NewStatefulSet(asked, index) <==>
            allMaster || !c.spec.allMaster || WithDefaults(c.spec).membersPerGroup == 1 || written != Normalise(c.spec))
  {
    LaterSwitch(written, c.spec, allMaster);
    hide Normalise, WithDefaults, BrokerEnv;
  }

  /** The default for the REPLICATION_MODE property never reaches a broker: the
      container reads the spec's own field instead, so the property has no effect. */
  lemma ReplicationModePropertyUnused(c: Cluster, mode: string, index: nat)
    requires c.spec.properties.Some?
    ensures
      var d := c.(spec := c.spec.(properties := Some(c.spec.properties.value[REPLICATION_MODE := mode])));
      NewStatefulSet(d, index) == NewStatefulSet(c, index)
  {
    assert DELETE_WHEN[0] == 'D' && FILE_RESERVED_TIME[0] == 'F' && REPLICATION_MODE[0] == 'R' && FLUSH_DISK_TYPE[0] == 'F';
  }
}
