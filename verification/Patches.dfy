/** What a strategic merge patch makes of the stored object. The patch is the difference
    between the cached object and the wanted one, and the server applies it to whatever
    it stores by then. A plain field is set if the two differ. A map, or a list that the
    API declares to be keyed, is merged entry by entry: names are the keys of environment
    variables and volumes, UIDs those of owner references. */
module Patches {
  import opened Values

  /** A field that does not differ is not in the patch. */
  function Field<T(==)>(cached: T, wanted: T, stored: T): T {
    if cached == wanted then stored else wanted
  }

  function At(m: StringMap, k: string): Option<string> {
    if k in m then Some(m[k]) else None
  }

  /** An empty map is no part of an object's encoding, so that to want none where the
      cache has some is to remove whatever is stored. */
  function MergeMap(cached: StringMap, wanted: StringMap, stored: StringMap): StringMap {
    if wanted == map[] then Field(cached, wanted, stored)
    else
      map k | k in stored.Keys + wanted.Keys && Field(At(cached, k), At(wanted, k), At(stored, k)).Some? ::
        Field(At(cached, k), At(wanted, k), At(stored, k)).value
  }

  /******* Owner references *******/

  function FindRef(refs: seq<OwnerReference>, uid: string): (r: Option<OwnerReference>)
    ensures r.Some? <==> exists o :: o in refs && o.uid == uid
    ensures r.Some? ==> r.value in refs && r.value.uid == uid
  {
    if refs == [] then None
    else if refs[0].uid == uid then Some(refs[0])
    else FindRef(refs[1..], uid)
  }

  /** What the patch for a reference is computed from: the cached one, or nothing. */
  function Base(cached: seq<OwnerReference>, uid: string): (r: OwnerReference)
    ensures r.uid == uid
  {
    var c := FindRef(cached, uid);
    if c.Some? then c.value else OwnerReference("", "", uid, false)
  }

  function MergeRef(cached: OwnerReference, wanted: OwnerReference, stored: OwnerReference): OwnerReference {
    OwnerReference(
      Field(cached.kind, wanted.kind, stored.kind),
      Field(cached.name, wanted.name, stored.name),
      stored.uid,
      Field(cached.controller, wanted.controller, stored.controller))
  }

  /** The stored references that remain: those not wanted any more are deleted. */
  function KeptRefs(cached: seq<OwnerReference>, wanted: seq<OwnerReference>, stored: seq<OwnerReference>): seq<OwnerReference> {
    if stored == [] then []
    else
      var s := stored[0];
      var w := FindRef(wanted, s.uid);
      var rest := KeptRefs(cached, wanted, stored[1..]);
      if w.Some? then [MergeRef(Base(cached, s.uid), w.value, s)] + rest
      else if FindRef(cached, s.uid).Some? then rest
      else [s] + rest
  }

  /** The wanted references that the server lacks, as far as they are in the patch: of
      one that the cache has, no more is sent than what differs. */
  function AddedRefs(cached: seq<OwnerReference>, wanted: seq<OwnerReference>, stored: seq<OwnerReference>): seq<OwnerReference> {
    if wanted == [] then []
    else
      var w := wanted[0];
      var rest := AddedRefs(cached, wanted[1..], stored);
      if FindRef(stored, w.uid).Some? || FindRef(cached, w.uid) == Some(w) then rest
      else [MergeRef(Base(cached, w.uid), w, OwnerReference("", "", w.uid, false))] + rest
  }

  lemma {:induction false} KeptAreStored(cached: seq<OwnerReference>, wanted: seq<OwnerReference>, stored: seq<OwnerReference>)
    requires UniqueUids(stored)
    ensures UniqueUids(KeptRefs(cached, wanted, stored))
    ensures forall o | o in KeptRefs(cached, wanted, stored) :: exists s :: s in stored && s.uid == o.uid
  {
    hide FindRef, Base;
    if stored == [] {
    } else {
      var s := stored[0];
      var kept, rest := KeptRefs(cached, wanted, stored), KeptRefs(cached, wanted, stored[1..]);
      KeptAreStored(cached, wanted, stored[1..]);
      assert forall o | o in rest :: o.uid != s.uid;
      forall o | o in kept
        ensures exists t :: t in stored && t.uid == o.uid
      {
        assert o in rest || (s in stored && o.uid == s.uid);
      }
    }
  }

  lemma {:induction false} AddedAreWanted(cached: seq<OwnerReference>, wanted: seq<OwnerReference>, stored: seq<OwnerReference>)
    requires UniqueUids(wanted)
    ensures UniqueUids(AddedRefs(cached, wanted, stored))
    ensures forall o | o in AddedRefs(cached, wanted, stored) ::
      FindRef(stored, o.uid).None? && exists w :: w in wanted && w.uid == o.uid
  {
    hide FindRef, Base;
    if wanted == [] {
    } else {
      var w := wanted[0];
      var added, rest := AddedRefs(cached, wanted, stored), AddedRefs(cached, wanted[1..], stored);
      AddedAreWanted(cached, wanted[1..], stored);
      assert forall o | o in rest :: o.uid != w.uid;
      forall o | o in added
        ensures FindRef(stored, o.uid).None? && exists v :: v in wanted && v.uid == o.uid
      {
        assert o in rest || (w in wanted && o.uid == w.uid);
      }
    }
  }

  /** References not mentioned in the patch stay in their order; new ones come last. */
  function MergeOwners(cached: OwnerReferences, wanted: OwnerReferences, stored: OwnerReferences): OwnerReferences {
    if wanted == [] then Field(cached, wanted, stored)
    else
      KeptAreStored(cached, wanted, stored);
      AddedAreWanted(cached, wanted, stored);
      KeptRefs(cached, wanted, stored) + AddedRefs(cached, wanted, stored)
  }

  /******* The object *******/

  function MergeTemplate(cached: PodTemplate, wanted: PodTemplate, stored: PodTemplate): PodTemplate {
    PodTemplate(
      MergeMap(cached.labels, wanted.labels, stored.labels),
      MergeMap(cached.nodeSelector, wanted.nodeSelector, stored.nodeSelector),
      Field(cached.image, wanted.image, stored.image),
      MergeMap(cached.env, wanted.env, stored.env),
      MergeMap(cached.volumes, wanted.volumes, stored.volumes))
  }

  /** Namespace and name are how the object is addressed, and the status is a
      subresource, which a patch of the object leaves alone. */
  function Patched(cached: StatefulSet, wanted: StatefulSet, stored: StatefulSet): StatefulSet {
    StatefulSet(
      stored.namespace,
      stored.name,
      MergeMap(cached.labels, wanted.labels, stored.labels),
      MergeOwners(cached.owners, wanted.owners, stored.owners),
      Field(cached.replicas, wanted.replicas, stored.replicas),
      MergeMap(cached.selector, wanted.selector, stored.selector),
      MergeTemplate(cached.template, wanted.template, stored.template),
      Field(cached.serviceName, wanted.serviceName, stored.serviceName),
      stored.status)
  }

  /******* What a patch does *******/

  /** A value that does not differ between the cached and the wanted object stays as it is
      stored, whatever that is by now; any other becomes the wanted one. */
  predicate Follows<T(==)>(cached: T, wanted: T, stored: T, merged: T) {
    if cached == wanted then merged == stored else merged == wanted
  }

  /** So does every entry of a map by itself, unless the wanted map is empty. */
  ghost predicate MapFollows(cached: StringMap, wanted: StringMap, stored: StringMap, merged: StringMap) {
    if wanted == map[] then Follows(cached, wanted, stored, merged)
    else forall k :: Follows(At(cached, k), At(wanted, k), At(stored, k), At(merged, k))
  }

  /** A reference that the cache or the server lacks counts as one with nothing in it. */
  predicate RefFollows(cached: Option<OwnerReference>, wanted: OwnerReference, stored: Option<OwnerReference>,
                       merged: OwnerReference)
  {
    var nothing := OwnerReference("", "", wanted.uid, false);
    var c := if cached.Some? then cached.value else nothing;
    var s := if stored.Some? then stored.value else nothing;
    && Follows(c.kind, wanted.kind, s.kind, merged.kind)
    && Follows(c.name, wanted.name, s.name, merged.name)
    && Follows(c.controller, wanted.controller, s.controller, merged.controller)
  }

  /** So does every owner reference, by UID and field by field: one that is not wanted is
      deleted if the cache had it; one that is wanted is patched where it is stored, and
      added where it is not, unless the cache had the very same. */
  ghost predicate OwnersFollow(cached: seq<OwnerReference>, wanted: seq<OwnerReference>, stored: seq<OwnerReference>,
                               merged: seq<OwnerReference>)
  {
    if wanted == [] then Follows(cached, wanted, stored, merged)
    else
      forall uid ::
        var c, w, s, m := FindRef(cached, uid), FindRef(wanted, uid), FindRef(stored, uid), FindRef(merged, uid);
        if w.None? then m == (if c.Some? then None else s)
        else if s.None? && c == w then m == None
        else m.Some? && RefFollows(c, w.value, s, m.value)
  }

  lemma {:induction false} FindKept(cached: seq<OwnerReference>, wanted: seq<OwnerReference>, stored: seq<OwnerReference>, uid: string)
    ensures
      var c, w, s := FindRef(cached, uid), FindRef(wanted, uid), FindRef(stored, uid);
      FindRef(KeptRefs(cached, wanted, stored), uid) ==
        if s.None? then None
        else if w.Some? then Some(MergeRef(Base(cached, uid), w.value, s.value))
        else if c.Some? then None
        else s
  {
    hide Base;
    if stored == [] {
    } else {
      FindKept(cached, wanted, stored[1..], uid);
      var kept, rest := KeptRefs(cached, wanted, stored), KeptRefs(cached, wanted, stored[1..]);
      assert kept == rest || kept[1..] == rest;
    }
  }

  lemma {:induction false} FindAdded(cached: seq<OwnerReference>, wanted: seq<OwnerReference>, stored: seq<OwnerReference>, uid: string)
    requires UniqueUids(wanted)
    ensures
      var c, w, s := FindRef(cached, uid), FindRef(wanted, uid), FindRef(stored, uid);
      FindRef(AddedRefs(cached, wanted, stored), uid) ==
        if w.None? || s.Some? || c == w then None
        else Some(MergeRef(Base(cached, uid), w.value, OwnerReference("", "", uid, false)))
  {
    hide Base;
    if wanted == [] {
    } else {
      FindAdded(cached, wanted[1..], stored, uid);
      var added, rest := AddedRefs(cached, wanted, stored), AddedRefs(cached, wanted[1..], stored);
      assert added == rest || added[1..] == rest;
      assert wanted[0].uid == uid ==> FindRef(wanted[1..], uid).None?;
    }
  }

  lemma {:induction false} FindInConcat(xs: seq<OwnerReference>, ys: seq<OwnerReference>, uid: string)
    ensures FindRef(xs + ys, uid) == if FindRef(xs, uid).Some? then FindRef(xs, uid) else FindRef(ys, uid)
  {
    if xs == [] {
      assert xs + ys == ys;
    } else {
      assert (xs + ys)[1..] == xs[1..] + ys;
      FindInConcat(xs[1..], ys, uid);
    }
  }

  lemma OwnersAreMerged(cached: OwnerReferences, wanted: OwnerReferences, stored: OwnerReferences)
    ensures OwnersFollow(cached, wanted, stored, MergeOwners(cached, wanted, stored))
  {
    hide FindRef, KeptRefs, AddedRefs;
    var kept, added := KeptRefs(cached, wanted, stored), AddedRefs(cached, wanted, stored);
    forall uid: string
      ensures FindRef(kept + added, uid) == if FindRef(kept, uid).Some? then FindRef(kept, uid) else FindRef(added, uid)
      ensures
        var c, w, s := FindRef(cached, uid), FindRef(wanted, uid), FindRef(stored, uid);
        FindRef(kept, uid) ==
          if s.None? then None
          else if w.Some? then Some(MergeRef(Base(cached, uid), w.value, s.value))
          else if c.Some? then None
          else s
      ensures
        var c, w, s := FindRef(cached, uid), FindRef(wanted, uid), FindRef(stored, uid);
        FindRef(added, uid) ==
          if w.None? || s.Some? || c == w then None
          else Some(MergeRef(Base(cached, uid), w.value, OwnerReference("", "", uid, false)))
    {
      FindInConcat(kept, added, uid);
      FindKept(cached, wanted, stored, uid);
      FindAdded(cached, wanted, stored, uid);
    }
  }

  lemma MapIsMerged(cached: StringMap, wanted: StringMap, stored: StringMap)
    ensures MapFollows(cached, wanted, stored, MergeMap(cached, wanted, stored))
  {
  }

  /** A patch changes nothing of the stored object that the cached one and the wanted one
      agree on: not a label, variable or volume that somebody has added since, not an
      image or a count that somebody has changed. The rest is as wanted. */
  lemma PatchLeavesAgreed(cached: StatefulSet, wanted: StatefulSet, stored: StatefulSet)
    ensures
      var r := Patched(cached, wanted, stored);
      && r.namespace == stored.namespace && r.name == stored.name && r.status == stored.status
      && Follows(cached.replicas, wanted.replicas, stored.replicas, r.replicas)
      && Follows(cached.serviceName, wanted.serviceName, stored.serviceName, r.serviceName)
      && Follows(cached.template.image, wanted.template.image, stored.template.image, r.template.image)
      && OwnersFollow(cached.owners, wanted.owners, stored.owners, r.owners)
      && MapFollows(cached.labels, wanted.labels, stored.labels, r.labels)
      && MapFollows(cached.selector, wanted.selector, stored.selector, r.selector)
      && MapFollows(cached.template.labels, wanted.template.labels, stored.template.labels, r.template.labels)
      && MapFollows(cached.template.nodeSelector, wanted.template.nodeSelector, stored.template.nodeSelector,
                    r.template.nodeSelector)
      && MapFollows(cached.template.env, wanted.template.env, stored.template.env, r.template.env)
      && MapFollows(cached.template.volumes, wanted.template.volumes, stored.template.volumes, r.template.volumes)
  {
    OwnersAreMerged(cached.owners, wanted.owners, stored.owners);
    MapIsMerged(cached.labels, wanted.labels, stored.labels);
    MapIsMerged(cached.selector, wanted.selector, stored.selector);
    MapIsMerged(cached.template.labels, wanted.template.labels, stored.template.labels);
    MapIsMerged(cached.template.nodeSelector, wanted.template.nodeSelector, stored.template.nodeSelector);
    MapIsMerged(cached.template.env, wanted.template.env, stored.template.env);
    MapIsMerged(cached.template.volumes, wanted.template.volumes, stored.template.volumes);
    hide MergeMap, MapFollows, MergeOwners, OwnersFollow;
  }

  lemma MergeMapLaws(cached: StringMap, wanted: StringMap, stored: StringMap)
    ensures cached == stored ==> MergeMap(cached, wanted, stored) == wanted
    ensures wanted == stored && wanted != map[] ==> MergeMap(cached, wanted, stored) == wanted
  {
  }

  lemma {:induction false} RefIsFound(refs: seq<OwnerReference>, o: OwnerReference)
    requires UniqueUids(refs) && o in refs
    ensures FindRef(refs, o.uid) == Some(o)
  {
    if refs[0] == o {
    } else {
      RefIsFound(refs[1..], o);
    }
  }

  lemma {:induction false} KeptOfCached(cached: seq<OwnerReference>, wanted: OwnerReference, stored: seq<OwnerReference>)
    requires UniqueUids(cached) && UniqueUids(stored) && forall o | o in stored :: o in cached
    ensures KeptRefs(cached, [wanted], stored) == if FindRef(stored, wanted.uid).Some? then [wanted] else []
  {
    if stored == [] {
    } else {
      var s := stored[0];
      KeptOfCached(cached, wanted, stored[1..]);
      RefIsFound(cached, s);
      assert s.uid == wanted.uid ==> FindRef(stored[1..], wanted.uid).None?;
    }
  }

  lemma OwnersFromStored(stored: OwnerReferences, wanted: OwnerReferences)
    requires |wanted| == 1
    ensures MergeOwners(stored, wanted, stored) == wanted
  {
    var w := wanted[0];
    assert wanted == [w] && wanted[1..] == [];
    KeptOfCached(stored, w, stored);
    assert AddedRefs(stored, [], stored) == [];
    var blank := OwnerReference("", "", w.uid, false);
    assert MergeRef(blank, w, blank) == w;
    assert AddedRefs(stored, wanted, stored) == if FindRef(stored, w.uid).Some? then [] else [w];
  }

  /** Computed from the stored object itself, a patch yields the wanted one. */
  lemma PatchFromStored(stored: StatefulSet, wanted: StatefulSet)
    requires |wanted.owners| == 1
    ensures Patched(stored, wanted, stored) ==
      wanted.(namespace := stored.namespace, name := stored.name, status := stored.status)
  {
    MergeMapLaws(stored.labels, wanted.labels, stored.labels);
    MergeMapLaws(stored.selector, wanted.selector, stored.selector);
    MergeMapLaws(stored.template.labels, wanted.template.labels, stored.template.labels);
    MergeMapLaws(stored.template.nodeSelector, wanted.template.nodeSelector, stored.template.nodeSelector);
    MergeMapLaws(stored.template.env, wanted.template.env, stored.template.env);
    MergeMapLaws(stored.template.volumes, wanted.template.volumes, stored.template.volumes);
    OwnersFromStored(stored.owners, wanted.owners);
    hide MergeMap, MergeOwners;
  }

  /******* Who controls the patched object *******/

  lemma {:induction false} KeptController(cached: seq<OwnerReference>, wanted: OwnerReference, stored: seq<OwnerReference>)
    requires wanted.controller && ControlledBy(stored, wanted.uid)
    ensures ControlledBy(KeptRefs(cached, [wanted], stored), wanted.uid)
  {
    if stored[0].controller {
    } else {
      KeptController(cached, wanted, stored[1..]);
      assert KeptRefs(cached, [wanted], stored) == KeptRefs(cached, [wanted], stored[1..])
        || KeptRefs(cached, [wanted], stored)[1..] == KeptRefs(cached, [wanted], stored[1..]);
    }
  }

  lemma {:induction false} ControllerOfConcat(xs: seq<OwnerReference>, ys: seq<OwnerReference>)
    ensures ControllerOf(xs + ys) == if ControllerOf(xs).Some? then ControllerOf(xs) else ControllerOf(ys)
  {
    if xs == [] {
      assert xs + ys == ys;
    } else {
      assert (xs + ys)[1..] == xs[1..] + ys;
      ControllerOfConcat(xs[1..], ys);
    }
  }

  /** At most one reference claims to be the controller. */
  predicate OneController(refs: seq<OwnerReference>) {
    forall i, j | 0 <= i < j < |refs| :: !(refs[i].controller && refs[j].controller)
  }

  lemma {:induction false} KeptControllers(cached: seq<OwnerReference>, ref: OwnerReference, stored: seq<OwnerReference>)
    requires ref.controller && Base(cached, ref.uid).controller
    ensures forall o | o in KeptRefs(cached, [ref], stored) && o.controller ::
      exists s :: s in stored && s.uid == o.uid && s.controller
  {
    if stored == [] {
    } else {
      var s := stored[0];
      KeptControllers(cached, ref, stored[1..]);
      forall o | o in KeptRefs(cached, [ref], stored) && o.controller
        ensures exists t :: t in stored && t.uid == o.uid && t.controller
      {
        assert o in KeptRefs(cached, [ref], stored[1..]) || (s in stored && o.uid == s.uid && s.controller);
      }
    }
  }

  lemma OneControllerDecides(refs: seq<OwnerReference>, o: OwnerReference)
    requires OneController(refs) && o in refs && o.controller
    ensures ControllerOf(refs) == Some(o)
  {
    var c := ControllerOf(refs).value;
    var i :| 0 <= i < |refs| && refs[i] == o;
    var j :| 0 <= j < |refs| && refs[j] == c;
  }

  lemma MergeKeepsControl(cached: OwnerReferences, ref: OwnerReference, stored: OwnerReferences)
    requires ref.controller && ControlledBy(stored, ref.uid)
    ensures ControlledBy(MergeOwners(cached, [ref], stored), ref.uid)
  {
    KeptController(cached, ref, stored);
    ControllerOfConcat(KeptRefs(cached, [ref], stored), AddedRefs(cached, [ref], stored));
  }

  /** The only reference that a patch can add has no more than what differs. */
  lemma AddedDoNotControl(cached: seq<OwnerReference>, ref: OwnerReference, stored: seq<OwnerReference>)
    requires ref.controller && Base(cached, ref.uid).controller
    ensures forall o | o in AddedRefs(cached, [ref], stored) :: !o.controller
  {
    assert [ref][1..] == [];
    assert AddedRefs(cached, [], stored) == [];
  }

  lemma MergeGivesNoControl(cached: OwnerReferences, ref: OwnerReference, stored: OwnerReferences)
    requires ref.controller && ControlledBy(cached, ref.uid) && OneController(stored)
    requires ControlledBy(MergeOwners(cached, [ref], stored), ref.uid)
    ensures ControlledBy(stored, ref.uid)
  {
    hide KeptRefs, AddedRefs;
    RefIsFound(cached, ControllerOf(cached).value);
    KeptControllers(cached, ref, stored);
    AddedDoNotControl(cached, ref, stored);
    var o := ControllerOf(MergeOwners(cached, [ref], stored)).value;
    assert o in KeptRefs(cached, [ref], stored);
    var s :| s in stored && s.uid == ref.uid && s.controller;
    OneControllerDecides(stored, s);
  }

  /** References to others stay exactly if the cached object did not have them. */
  lemma {:induction false} OthersKept(cached: seq<OwnerReference>, ref: OwnerReference, stored: seq<OwnerReference>, o: OwnerReference)
    requires o.uid != ref.uid
    ensures o in KeptRefs(cached, [ref], stored) <==> o in stored && FindRef(cached, o.uid).None?
  {
    hide Base;
    if stored == [] {
    } else {
      OthersKept(cached, ref, stored[1..], o);
      assert o in stored <==> o == stored[0] || o in stored[1..];
      assert FindRef([ref], stored[0].uid).Some? <==> stored[0].uid == ref.uid;
    }
  }

  lemma AddedIsWanted(cached: seq<OwnerReference>, ref: OwnerReference, stored: seq<OwnerReference>)
    ensures forall o | o in AddedRefs(cached, [ref], stored) :: o.uid == ref.uid
  {
    assert [ref][1..] == [];
    assert AddedRefs(cached, [], stored) == [];
  }

  lemma MergeAndOthers(cached: OwnerReferences, ref: OwnerReference, stored: OwnerReferences, uid: string)
    requires ref.controller && ControlledBy(cached, ref.uid) && OneController(stored)
    requires uid != ref.uid && ControlledBy(stored, uid)
    ensures ControlledBy(MergeOwners(cached, [ref], stored), uid) <==> FindRef(cached, uid).None?
  {
    hide KeptRefs, AddedRefs;
    RefIsFound(cached, ControllerOf(cached).value);
    KeptControllers(cached, ref, stored);
    AddedDoNotControl(cached, ref, stored);
    AddedIsWanted(cached, ref, stored);
    var merged := MergeOwners(cached, [ref], stored);
    var b := ControllerOf(stored).value;
    OthersKept(cached, ref, stored, b);
    forall o | o in merged && o.controller
      ensures o.uid == uid
    {
      var s :| s in stored && s.uid == o.uid && s.controller;
      OneControllerDecides(stored, s);
    }
    if ControlledBy(merged, uid) {
      OthersKept(cached, ref, stored, ControllerOf(merged).value);
    }
  }

  /** A patch that wants one controller never takes an object away from it. Nor does it
      hand one over: if the cached object has that controller already, the patch says
      nothing of it. Another controller that the object has by then keeps it, unless the
      cached object had a reference to that one too, which the patch deletes. */
  lemma PatchKeepsControl(cached: StatefulSet, wanted: StatefulSet, stored: StatefulSet, ref: OwnerReference, uid: string)
    requires wanted.owners == [ref] && ref.controller
    ensures
      var owners := Patched(cached, wanted, stored).owners;
      && (ControlledBy(stored.owners, ref.uid) ==> ControlledBy(owners, ref.uid))
      && (ControlledBy(cached.owners, ref.uid) && OneController(stored.owners) ==>
            && (ControlledBy(owners, ref.uid) <==> ControlledBy(stored.owners, ref.uid))
            && (uid != ref.uid && ControlledBy(stored.owners, uid) ==>
                  (ControlledBy(owners, uid) <==> FindRef(cached.owners, uid).None?)))
  {
    hide MergeMap, MergeTemplate, MergeOwners, ControlledBy, OneController;
    if ControlledBy(stored.owners, ref.uid) {
      MergeKeepsControl(cached.owners, ref, stored.owners);
    }
    if ControlledBy(cached.owners, ref.uid) && OneController(stored.owners) {
      if ControlledBy(MergeOwners(cached.owners, [ref], stored.owners), ref.uid) {
        MergeGivesNoControl(cached.owners, ref, stored.owners);
      }
      if uid != ref.uid && ControlledBy(stored.owners, uid) {
        MergeAndOthers(cached.owners, ref, stored.owners, uid);
      }
    }
  }
}
