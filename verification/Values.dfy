/** The API objects of the operator as plain values. The heap objects of the
    Go program (module Objects) are related to these by their `Value()`. */
module Values {

  datatype Option<+T> = None | Some(value: T)

  /** Go's int32, the type of the replica counts. */
  type int32 = x: int | -0x8000_0000 <= x <= 0x7fff_ffff

  type StringMap = map<string, string>

  /** A namespace and a name: what an informer or the API server files an object under. */
  datatype ObjectKey = ObjectKey(namespace: string, name: string)

  /** `affinity`, `volumeClaimTemplate` and `config` are pointers to structures
      nothing in the operator looks into; their contents are opaque strings. */
  datatype Spec = Spec(
    brokerImage: string,
    nameServers: string,
    allMaster: bool,
    replicationMode: string,
    groupReplica: int32,
    membersPerGroup: int32,
    properties: Option<StringMap>,
    nodeSelector: Option<StringMap>,
    affinity: Option<string>,
    volumeClaimTemplate: Option<string>,
    config: Option<string>
  )

  /** `lastTransitionTime` is an instant; only its equality and its source matter. */
  datatype Condition = Condition(
    ctype: string,
    status: string,
    lastTransitionTime: int,
    reason: string,
    message: string
  )

  const READY := "Ready"
  const TRUE := "True"
  const FALSE := "False"

  datatype Cluster = Cluster(
    namespace: string,
    name: string,
    uid: string,
    resourceVersion: nat,
    labels: Option<StringMap>,
    spec: Spec,
    conditions: seq<Condition>
  ) {
    function Key(): ObjectKey { ObjectKey(namespace, name) }
  }

  datatype OwnerReference = OwnerReference(kind: string, name: string, uid: string, controller: bool)

  predicate UniqueUids(refs: seq<OwnerReference>) {
    forall i, j | 0 <= i < j < |refs| :: refs[i].uid != refs[j].uid
  }

  /** The API declares the list of an object's owners to be keyed by UID. */
  type OwnerReferences = refs: seq<OwnerReference> | UniqueUids(refs)

  datatype Service = Service(
    namespace: string,
    name: string,
    labels: StringMap,
    owners: OwnerReferences,
    selector: StringMap
  ) {
    function Key(): ObjectKey { ObjectKey(namespace, name) }
  }

  /** The parts of the pod template that depend on the cluster or on the group: of its
      one container the image and the environment, and the host paths of its volumes.
      Both lists are keyed by name. An empty node selector is the same as none. */
  datatype PodTemplate = PodTemplate(
    labels: StringMap,
    nodeSelector: StringMap,
    image: string,
    env: StringMap,
    volumes: StringMap
  )

  datatype SetStatus = SetStatus(replicas: int32, readyReplicas: int32)

  datatype StatefulSet = StatefulSet(
    namespace: string,
    name: string,
    labels: StringMap,
    owners: OwnerReferences,
    replicas: int32,
    selector: StringMap,
    template: PodTemplate,
    serviceName: string,
    status: SetStatus
  ) {
    function Key(): ObjectKey { ObjectKey(namespace, name) }
  }

  /** The first owner reference that claims to be the controller. */
  function ControllerOf(owners: seq<OwnerReference>): (r: Option<OwnerReference>)
    ensures r.Some? ==> r.value in owners && r.value.controller
    ensures r.None? <==> forall o | o in owners :: !o.controller
  {
    if owners == [] then None
    else if owners[0].controller then Some(owners[0])
    else ControllerOf(owners[1..])
  }

  lemma {:induction false} ControllerIsFirst(owners: seq<OwnerReference>, i: nat)
    requires i < |owners| && owners[i].controller && forall j | 0 <= j < i :: !owners[j].controller
    ensures ControllerOf(owners) == Some(owners[i])
  {
    if i == 0 {
    } else {
      ControllerIsFirst(owners[1..], i - 1);
    }
  }

  /** Ownership is decided by the UID of the controller reference alone. */
  predicate ControlledBy(owners: seq<OwnerReference>, uid: string) {
    var ref := ControllerOf(owners);
    ref.Some? && ref.value.uid == uid
  }

  lemma {:induction false} FirstController(owners: seq<OwnerReference>) returns (i: nat)
    ensures ControllerOf(owners).Some? ==>
      i < |owners| && owners[i] == ControllerOf(owners).value && owners[i].controller
      && forall j | 0 <= j < i :: !owners[j].controller
  {
    if owners == [] || owners[0].controller {
      i := 0;
    } else {
      var k := FirstController(owners[1..]);
      i := k + 1;
    }
  }

  /** Kind, name and whatever else a reference says are not looked at. */
  lemma ControlledExactly(owners: seq<OwnerReference>, uid: string)
    ensures ControlledBy(owners, uid) <==>
      exists i | 0 <= i < |owners| ::
        owners[i].controller && owners[i].uid == uid && forall j | 0 <= j < i :: !owners[j].controller
  {
    var first := FirstController(owners);
    if i :| 0 <= i < |owners| && owners[i].controller && forall j | 0 <= j < i :: !owners[j].controller {
      ControllerIsFirst(owners, i);
    }
  }

  /** What a lister answers: the object, its absence, or any other error. */
  datatype Get<+T> = Found(obj: T) | NotFound | ListerError

  function Lookup<T>(m: map<ObjectKey, T>, k: ObjectKey): Get<T> {
    if k in m then Found(m[k]) else NotFound
  }
}
