/** `EnsureDefaults` and the AllMaster override as functions on specs. */
module Normalisation {
  import opened Values

  const DEFAULT_BROKER_IMAGE := "huanwei/rocketmq-broker:4.3.0-operator"
  const DEFAULT_GROUPS: int32 := 2
  const DEFAULT_MEMBERS_PER_GROUP: int32 := 2

  const DELETE_WHEN := "DELETE_WHEN"
  const FILE_RESERVED_TIME := "FILE_RESERVED_TIME"
  const REPLICATION_MODE := "REPLICATION_MODE"
  const FLUSH_DISK_TYPE := "FLUSH_DISK_TYPE"

  /** Reading a Go map: an absent key, or a nil map, reads as the empty string. */
  function Read(m: Option<StringMap>, key: string): string {
    if m.Some? && key in m.value then m.value[key] else ""
  }

  function SetDefault(m: StringMap, key: string, value: string): StringMap {
    if Read(Some(m), key) == "" then m[key := value] else m
  }

  function DefaultProperties(m: StringMap): StringMap {
    SetDefault(SetDefault(SetDefault(SetDefault(m,
      DELETE_WHEN, "04"),
      FILE_RESERVED_TIME, "48"),
      REPLICATION_MODE, "SYNC"),
      FLUSH_DISK_TYPE, "ASYNC_FLUSH")
  }

  function WithDefaults(s: Spec): Spec {
    s.(
      brokerImage := if s.brokerImage == "" then DEFAULT_BROKER_IMAGE else s.brokerImage,
      groupReplica := if s.groupReplica == 0 then DEFAULT_GROUPS else s.groupReplica,
      membersPerGroup := if s.membersPerGroup == 0 then DEFAULT_MEMBERS_PER_GROUP else s.membersPerGroup,
      properties := Some(DefaultProperties(if s.properties.Some? then s.properties.value else map[]))
    )
  }

  function OverrideAllMaster(s: Spec): Spec {
    if s.allMaster then s.(membersPerGroup := 1) else s
  }

  /** The spec a sync works with. */
  function Normalise(s: Spec): Spec {
    OverrideAllMaster(WithDefaults(s))
  }

  function NormaliseCluster(c: Cluster): Cluster {
    c.(spec := Normalise(c.spec))
  }

  /** Two specs that every sync treats alike. */
  predicate SameMeaning(s: Spec, t: Spec) {
    Normalise(s) == Normalise(t)
  }

  lemma ReadAfterDefault(m: StringMap, key: string, value: string, k: string)
    ensures Read(Some(SetDefault(m, key, value)), k) ==
      if k == key && Read(Some(m), k) == "" then value else Read(Some(m), k)
    ensures Read(Some(m), key) != "" ==> SetDefault(m, key, value) == m
  {
  }

  /** Where a property was set it stays, and the four known ones are never empty. */
  lemma ReadDefaultProperties(m: StringMap, k: string)
    ensures Read(Some(m), k) != "" ==> Read(Some(DefaultProperties(m)), k) == Read(Some(m), k)
    ensures k in {DELETE_WHEN, FILE_RESERVED_TIME, REPLICATION_MODE, FLUSH_DISK_TYPE} ==>
      Read(Some(DefaultProperties(m)), k) != ""
  {
    hide Read, SetDefault;
    var m1 := SetDefault(m, DELETE_WHEN, "04");
    var m2 := SetDefault(m1, FILE_RESERVED_TIME, "48");
    var m3 := SetDefault(m2, REPLICATION_MODE, "SYNC");
    ReadAfterDefault(m, DELETE_WHEN, "04", k);
    ReadAfterDefault(m1, FILE_RESERVED_TIME, "48", k);
    ReadAfterDefault(m2, REPLICATION_MODE, "SYNC", k);
    ReadAfterDefault(m3, FLUSH_DISK_TYPE, "ASYNC_FLUSH", k);
  }

  /** Each default is filled in once: a second pass finds nothing empty. */
  lemma DefaultPropertiesFixed(m: StringMap)
    ensures DefaultProperties(DefaultProperties(m)) == DefaultProperties(m)
  {
    var n := DefaultProperties(m);
    ReadDefaultProperties(m, DELETE_WHEN);
    ReadDefaultProperties(m, FILE_RESERVED_TIME);
    ReadDefaultProperties(m, REPLICATION_MODE);
    ReadDefaultProperties(m, FLUSH_DISK_TYPE);
    ReadAfterDefault(n, DELETE_WHEN, "04", "");
    ReadAfterDefault(n, FILE_RESERVED_TIME, "48", "");
    ReadAfterDefault(n, REPLICATION_MODE, "SYNC", "");
    ReadAfterDefault(n, FLUSH_DISK_TYPE, "ASYNC_FLUSH", "");
    hide Read, SetDefault;
  }

  /** Normalising is idempotent; applying either half first, or stopping between
      the halves, does not change what a later sync sees; the guard on a zero member
      count can never fire; and a user's own values are kept, but for the member
      count, which is kept exactly when it is set and not overridden by AllMaster. */
  lemma NormalisationLaws(s: Spec)
    ensures Normalise(Normalise(s)) == Normalise(s)
    ensures SameMeaning(WithDefaults(s), s)
    ensures SameMeaning(OverrideAllMaster(s), s)
    ensures WithDefaults(s).membersPerGroup != 0 && WithDefaults(s).groupReplica != 0
    ensures s.allMaster ==> Normalise(s).membersPerGroup == 1
    ensures s.brokerImage != "" ==> Normalise(s).brokerImage == s.brokerImage
    ensures s.groupReplica != 0 ==> Normalise(s).groupReplica == s.groupReplica
    ensures Normalise(s) == s.(
              brokerImage := Normalise(s).brokerImage, groupReplica := Normalise(s).groupReplica,
              membersPerGroup := Normalise(s).membersPerGroup, properties := Normalise(s).properties)
    ensures Normalise(s).membersPerGroup == s.membersPerGroup <==>
      s.membersPerGroup != 0 && (!s.allMaster || s.membersPerGroup == 1)
    ensures forall k | Read(s.properties, k) != "" :: Read(Normalise(s).properties, k) == Read(s.properties, k)
  {
    var m := if s.properties.Some? then s.properties.value else map[];
    DefaultPropertiesFixed(m);
    forall k | Read(s.properties, k) != ""
      ensures Read(Normalise(s).properties, k) == Read(s.properties, k)
    {
      ReadDefaultProperties(m, k);
    }
    hide DefaultProperties, Read;
  }

  lemma NilReadsEmpty(p: Option<StringMap>)
    ensures forall k :: Read(p, k) == Read(Some(if p.Some? then p.value else map[]), k)
  {
  }

  lemma DefaultsOf(m: StringMap)
    ensures Read(Some(m), "DELETE_WHEN") == "" ==> Read(Some(DefaultProperties(m)), "DELETE_WHEN") == "04"
    ensures Read(Some(m), "FILE_RESERVED_TIME") == "" ==> Read(Some(DefaultProperties(m)), "FILE_RESERVED_TIME") == "48"
    ensures Read(Some(m), "REPLICATION_MODE") == "" ==> Read(Some(DefaultProperties(m)), "REPLICATION_MODE") == "SYNC"
    ensures Read(Some(m), "FLUSH_DISK_TYPE") == "" ==> Read(Some(DefaultProperties(m)), "FLUSH_DISK_TYPE") == "ASYNC_FLUSH"
  {
    hide Read, SetDefault;
    var m1 := SetDefault(m, DELETE_WHEN, "04");
    var m2 := SetDefault(m1, FILE_RESERVED_TIME, "48");
    var m3 := SetDefault(m2, REPLICATION_MODE, "SYNC");
    assert DELETE_WHEN[0] == 'D' && FILE_RESERVED_TIME[0] == 'F' && REPLICATION_MODE[0] == 'R';
    assert FILE_RESERVED_TIME[1] == 'I' && FLUSH_DISK_TYPE[1] == 'L' && FLUSH_DISK_TYPE[0] == 'F';
    forall k: string
      ensures Read(Some(m1), k) == if k == DELETE_WHEN && Read(Some(m), k) == "" then "04" else Read(Some(m), k)
    {
      ReadAfterDefault(m, DELETE_WHEN, "04", k);
    }
    forall k: string
      ensures Read(Some(m2), k) == if k == FILE_RESERVED_TIME && Read(Some(m1), k) == "" then "48" else Read(Some(m1), k)
    {
      ReadAfterDefault(m1, FILE_RESERVED_TIME, "48", k);
    }
    forall k: string
      ensures Read(Some(m3), k) == if k == REPLICATION_MODE && Read(Some(m2), k) == "" then "SYNC" else Read(Some(m2), k)
    {
      ReadAfterDefault(m2, REPLICATION_MODE, "SYNC", k);
    }
    forall k: string
      ensures Read(Some(DefaultProperties(m)), k) ==
        if k == FLUSH_DISK_TYPE && Read(Some(m3), k) == "" then "ASYNC_FLUSH" else Read(Some(m3), k)
    {
      ReadAfterDefault(m3, FLUSH_DISK_TYPE, "ASYNC_FLUSH", k);
    }
  }

  /** What a user may leave out, and what it is then taken to be. */
  lemma OmittedFields(s: Spec)
    ensures s.brokerImage == "" ==> Normalise(s).brokerImage == "huanwei/rocketmq-broker:4.3.0-operator"
    ensures s.groupReplica == 0 ==> Normalise(s).groupReplica == 2
    ensures s.membersPerGroup == 0 && !s.allMaster ==> Normalise(s).membersPerGroup == 2
    ensures Read(s.properties, "DELETE_WHEN") == "" ==> Read(Normalise(s).properties, "DELETE_WHEN") == "04"
    ensures Read(s.properties, "FILE_RESERVED_TIME") == "" ==> Read(Normalise(s).properties, "FILE_RESERVED_TIME") == "48"
    ensures Read(s.properties, "REPLICATION_MODE") == "" ==> Read(Normalise(s).properties, "REPLICATION_MODE") == "SYNC"
    ensures Read(s.properties, "FLUSH_DISK_TYPE") == "" ==>
      Read(Normalise(s).properties, "FLUSH_DISK_TYPE") == "ASYNC_FLUSH"
  {
    var m := if s.properties.Some? then s.properties.value else map[];
    DefaultsOf(m);
    hide DefaultProperties, Read;
    assert forall k :: Read(s.properties, k) == Read(Some(m), k) by { NilReadsEmpty(s.properties); }
  }

  /******* What becomes of a spec that syncs have edited in place *******/

  /** What `t` may be if `s` was stored and syncs have worked on the cached object:
      untouched, with its defaults, or with the AllMaster override as well. */
  predicate StandsFor(t: Spec, s: Spec) {
    t == s || t == WithDefaults(s) || t == Normalise(s)
  }

  lemma WithDefaultsTwice(s: Spec)
    ensures WithDefaults(WithDefaults(s)) == WithDefaults(s)
    ensures WithDefaults(Normalise(s)) == Normalise(s)
    ensures Normalise(WithDefaults(s)) == Normalise(s)
  {
    DefaultPropertiesFixed(if s.properties.Some? then s.properties.value else map[]);
    hide DefaultProperties;
  }

  /** Syncs, stopping early or not, and writes of what they left lead nowhere else. */
  lemma StandsForLaws(u: Spec, t: Spec, s: Spec)
    requires StandsFor(t, s)
    ensures SameMeaning(t, s)
    ensures StandsFor(WithDefaults(t), s) && StandsFor(Normalise(t), s)
    ensures StandsFor(u, t) ==> StandsFor(u, s)
  {
    NormalisationLaws(s);
    WithDefaultsTwice(s);
    hide Normalise, WithDefaults;
  }

  lemma SwitchAside(s: Spec, allMaster: bool)
    ensures WithDefaults(s.(allMaster := allMaster)) == WithDefaults(s).(allMaster := allMaster)
  {
    hide DefaultProperties;
  }

  lemma OverrideOnly(s: Spec)
    ensures Normalise(s) == if s.allMaster then WithDefaults(s).(membersPerGroup := 1) else WithDefaults(s)
  {
    hide DefaultProperties;
  }

  lemma SwitchedDefaults(t: Spec, s: Spec, allMaster: bool)
    requires StandsFor(t, s)
    ensures WithDefaults(t.(allMaster := allMaster)) == WithDefaults(s).(allMaster := allMaster,
      membersPerGroup := if t == Normalise(s) && s.allMaster then 1 else WithDefaults(s).membersPerGroup)
  {
    SwitchAside(t, allMaster);
    WithDefaultsTwice(s);
    OverrideOnly(s);
    hide WithDefaults, Normalise;
  }

  /** Once the override has been written back it outlives the AllMaster switch. Syncs
      after a later change of the switch treat the edited spec `t` as they would have
      treated the user's own `s`, unless the switch is turned off, and `t` is
      overridden, and the override replaced another member count. If the specs they
      work with differ at all then it is in the member count. */
  lemma LaterSwitch(t: Spec, s: Spec, allMaster: bool)
    requires StandsFor(t, s)
    ensures
      var later, asked := Normalise(t.(allMaster := allMaster)), Normalise(s.(allMaster := allMaster));
      && later == asked.(membersPerGroup := later.membersPerGroup)
      && (later == asked <==>
            allMaster || !s.allMaster || WithDefaults(s).membersPerGroup == 1 || t != Normalise(s))
  {
    SwitchedDefaults(t, s, allMaster);
    SwitchAside(s, allMaster);
    OverrideOnly(t.(allMaster := allMaster));
    OverrideOnly(s.(allMaster := allMaster));
    hide WithDefaults, Normalise;
  }

  /** An input that shows it: three members a group were asked for, AllMaster is turned
      on, a sync writes its spec back, and AllMaster is turned off again. */
  lemma MemberCountForgotten(s: Spec)
    requires s.allMaster && s.membersPerGroup == 3
    ensures Normalise(s.(allMaster := false)).membersPerGroup == 3
    ensures Normalise(Normalise(s).(allMaster := false)).membersPerGroup == 1
    ensures !SameMeaning(Normalise(s).(allMaster := false), s.(allMaster := false))
  {
  }
}
