/** The list of conditions in a cluster's status, as a value: an association list
    that implements a map with a transition clock. */
module Conditions {
  import opened Values

  /** The index of the first condition of type `t`, or -1. */
  function Find(cs: seq<Condition>, t: string): (i: int)
    ensures -1 <= i < |cs|
    ensures i >= 0 ==> cs[i].ctype == t && forall j | 0 <= j < i :: cs[j].ctype != t
    ensures i == -1 ==> forall j | 0 <= j < |cs| :: cs[j].ctype != t
  {
    if cs == [] then -1
    else if cs[0].ctype == t then 0
    else
      var r := Find(cs[1..], t);
      if r < 0 then -1 else r + 1
  }

  function Entry(cs: seq<Condition>, t: string): Option<Condition> {
    var i := Find(cs, t);
    if i < 0 then None else Some(cs[i])
  }

  /** What becomes of the condition passed to UpdateClusterCondition: it is dated
      now, unless a condition of that type already has the same status. */
  function Stamp(cs: seq<Condition>, c: Condition, now: int): Condition {
    var i := Find(cs, c.ctype);
    c.(lastTransitionTime :=
      if i >= 0 && cs[i].status == c.status then cs[i].lastTransitionTime else now)
  }

  /** The list after UpdateClusterCondition. */
  function Update(cs: seq<Condition>, c: Condition, now: int): seq<Condition> {
    var i := Find(cs, c.ctype);
    if i < 0 then cs + [Stamp(cs, c, now)] else cs[i := Stamp(cs, c, now)]
  }

  /** The flag UpdateClusterCondition returns. */
  predicate Flag(cs: seq<Condition>, c: Condition, now: int) {
    var i := Find(cs, c.ctype);
    var s := Stamp(cs, c, now);
    i < 0 || !(s.status == cs[i].status && s.reason == cs[i].reason && s.message == cs[i].message
               && s.lastTransitionTime == cs[i].lastTransitionTime)
  }

  /** The update, unfolded for a caller that hides it. */
  lemma UpdateUnfolded(cs: seq<Condition>, c: Condition, now: int)
    ensures
      var i := Find(cs, c.ctype);
      if i < 0 then
        Stamp(cs, c, now) == c.(lastTransitionTime := now)
        && Update(cs, c, now) == cs + [c.(lastTransitionTime := now)] && Flag(cs, c, now)
      else
        var o := cs[i];
        var s := c.(lastTransitionTime := if c.status == o.status then o.lastTransitionTime else now);
        Stamp(cs, c, now) == s && Update(cs, c, now) == cs[i := s]
        && (Flag(cs, c, now) <==> !(s.status == o.status && s.reason == o.reason && s.message == o.message
                                    && s.lastTransitionTime == o.lastTransitionTime))
  {
  }

  /******* The list refines a map *******/

  predicate UniqueTypes(cs: seq<Condition>) {
    forall i, j | 0 <= i < j < |cs| :: cs[i].ctype != cs[j].ctype
  }

  function Abs(cs: seq<Condition>): (m: map<string, Condition>) {
    map c | c in cs :: c.ctype := cs[Find(cs, c.ctype)]
  }

  lemma AbsIsEntry(cs: seq<Condition>, t: string)
    ensures t in Abs(cs) <==> Find(cs, t) >= 0
    ensures t in Abs(cs) ==> Entry(cs, t) == Some(Abs(cs)[t])
  {
    if Find(cs, t) >= 0 {
      assert cs[Find(cs, t)] in cs;
    }
  }

  lemma FindIsFirst(cs: seq<Condition>, t: string, i: int)
    requires 0 <= i < |cs| && cs[i].ctype == t
    requires forall j | 0 <= j < i :: cs[j].ctype != t
    ensures Find(cs, t) == i
  {
  }

  lemma UpdateThenEntry(cs: seq<Condition>, c: Condition, now: int, t: string)
    ensures Entry(Update(cs, c, now), t) == if t == c.ctype then Some(Stamp(cs, c, now)) else Entry(cs, t)
  {
    var ds := Update(cs, c, now);
    var i := Find(cs, t);
    if i >= 0 {
      FindIsFirst(ds, t, i);
    } else if t == c.ctype {
      FindIsFirst(ds, t, |cs|);
    } else {
      assert Find(ds, t) < 0;
    }
  }

  lemma AbsOfUpdate(cs: seq<Condition>, c: Condition, now: int)
    ensures Abs(Update(cs, c, now)) == Abs(cs)[c.ctype := Stamp(cs, c, now)]
  {
    var ds := Update(cs, c, now);
    forall t: string
      ensures t in Abs(ds) <==> t in Abs(cs) || t == c.ctype
      ensures t in Abs(ds) ==> Abs(ds)[t] == if t == c.ctype then Stamp(cs, c, now) else Abs(cs)[t]
    {
      UpdateThenEntry(cs, c, now, t);
      AbsIsEntry(ds, t);
      AbsIsEntry(cs, t);
    }
  }

  lemma SameTypesSameFind(cs: seq<Condition>, ds: seq<Condition>, t: string)
    requires |cs| == |ds| && forall i | 0 <= i < |cs| :: cs[i].ctype == ds[i].ctype
    ensures Find(cs, t) == Find(ds, t)
  {
    var i := Find(cs, t);
    if i >= 0 {
      FindIsFirst(ds, t, i);
    }
  }

  lemma UniquenessKept(cs: seq<Condition>, c: Condition, now: int)
    requires UniqueTypes(cs)
    ensures UniqueTypes(Update(cs, c, now))
  {
  }

  /** One update of the list is one update of the map; the flag says exactly
      whether the map changed; distinct types stay distinct. */
  lemma {:induction false} UpdateRefinesMap(cs: seq<Condition>, c: Condition, now: int)
    ensures Abs(Update(cs, c, now)) == Abs(cs)[c.ctype := Stamp(cs, c, now)]
    ensures Flag(cs, c, now) <==> Abs(Update(cs, c, now)) != Abs(cs)
    ensures UniqueTypes(cs) ==> UniqueTypes(Update(cs, c, now))
  {
    hide Abs, Update;
    AbsOfUpdate(cs, c, now);
    AbsIsEntry(cs, c.ctype);
    var m := Abs(cs);
    var s := Stamp(cs, c, now);
    if Find(cs, c.ctype) >= 0 && m[c.ctype] == s {
      assert m[c.ctype := s] == m;
    } else {
      assert m[c.ctype := s][c.ctype] == s;
    }
    if UniqueTypes(cs) {
      UniquenessKept(cs, c, now);
    }
  }

  /** When the argument is the list's own entry, UpdateClusterCondition dates that
      entry anew and reports no change; the report is right exactly when the clock
      has not moved since the entry's time. */
  lemma {:induction false} OwnEntryUpdate(cs: seq<Condition>, t: string, now: int)
    requires Find(cs, t) >= 0
    ensures
      var i := Find(cs, t);
      Abs(cs[i := cs[i].(lastTransitionTime := now)]) == Abs(cs) <==> now == cs[i].lastTransitionTime
  {
    hide Abs;
    var i := Find(cs, t);
    var ds := cs[i := cs[i].(lastTransitionTime := now)];
    SameTypesSameFind(cs, ds, t);
    AbsIsEntry(cs, t);
    AbsIsEntry(ds, t);
    if now == cs[i].lastTransitionTime {
      assert ds == cs;
    } else {
      assert Abs(ds)[t] != Abs(cs)[t];
    }
  }

  /******* Sequences of updates *******/

  datatype Call = Call(condition: Condition, now: int)

  function Run(cs: seq<Condition>, calls: seq<Call>): seq<Condition> {
    if calls == [] then cs
    else
      var last := calls[|calls| - 1];
      Update(Run(cs, calls[..|calls| - 1]), last.condition, last.now)
  }

  /** The map a caller has in mind: each call overwrites one entry, and the entry's
      time moves only when its status does. */
  function MapRun(m: map<string, Condition>, calls: seq<Call>): map<string, Condition> {
    if calls == [] then m
    else
      var last := calls[|calls| - 1];
      var before := MapRun(m, calls[..|calls| - 1]);
      var c := last.condition;
      var time :=
        if c.ctype in before && before[c.ctype].status == c.status
        then before[c.ctype].lastTransitionTime else last.now;
      before[c.ctype := c.(lastTransitionTime := time)]
  }

  /** Any sequence of updates of the list is that sequence of updates of the map. */
  lemma {:induction false} ListRefinesMap(cs: seq<Condition>, calls: seq<Call>)
    ensures Abs(Run(cs, calls)) == MapRun(Abs(cs), calls)
  {
    hide Abs, Update;
    if calls == [] {
    } else {
      var last := calls[|calls| - 1];
      var before := Run(cs, calls[..|calls| - 1]);
      ListRefinesMap(cs, calls[..|calls| - 1]);
      UpdateRefinesMap(before, last.condition, last.now);
      AbsIsEntry(before, last.condition.ctype);
    }
  }

  lemma {:induction false} TypesStayUnique(cs: seq<Condition>, calls: seq<Call>)
    requires UniqueTypes(cs)
    ensures UniqueTypes(Run(cs, calls))
  {
    if calls == [] {
    } else {
      var last := calls[|calls| - 1];
      TypesStayUnique(cs, calls[..|calls| - 1]);
      UniquenessKept(Run(cs, calls[..|calls| - 1]), last.condition, last.now);
    }
  }

  /******* The transition clock *******/

  /** The status of type `t` just before call `k`: the latest earlier call on that
      type, or else the initial list, says. */
  function StatusBefore(cs: seq<Condition>, calls: seq<Call>, t: string, k: nat): Option<string>
    requires k <= |calls|
  {
    if k == 0 then
      var g := Entry(cs, t);
      if g.Some? then Some(g.value.status) else None
    else if calls[k - 1].condition.ctype == t then Some(calls[k - 1].condition.status)
    else StatusBefore(cs, calls, t, k - 1)
  }

  /** Call `k` first adds type `t`, or changes its status. */
  predicate IsTransition(cs: seq<Condition>, calls: seq<Call>, t: string, k: nat)
    requires k < |calls|
  {
    calls[k].condition.ctype == t && StatusBefore(cs, calls, t, k) != Some(calls[k].condition.status)
  }

  lemma {:induction false} StatusBeforePrefix(cs: seq<Condition>, calls: seq<Call>, t: string, k: nat)
    requires k < |calls|
    ensures StatusBefore(cs, calls[..|calls| - 1], t, k) == StatusBefore(cs, calls, t, k)
  {
    if k == 0 {
    } else {
      StatusBeforePrefix(cs, calls, t, k - 1);
    }
  }

  lemma {:induction false} StatusAfterRun(cs: seq<Condition>, calls: seq<Call>, t: string)
    ensures
      var g := Entry(Run(cs, calls), t);
      StatusBefore(cs, calls, t, |calls|) == if g.Some? then Some(g.value.status) else None
  {
    if calls == [] {
    } else {
      var n := |calls| - 1;
      StatusAfterRun(cs, calls[..n], t);
      StatusBeforePrefix(cs, calls, t, n);
      UpdateThenEntry(Run(cs, calls[..n]), calls[n].condition, calls[n].now, t);
    }
  }

  /** One call dates the condition anew if it adds it or changes its status. */
  lemma UpdateThenTime(cs: seq<Condition>, c: Condition, now: int, t: string)
    ensures
      var before, after := Entry(cs, t), Entry(Update(cs, c, now), t);
      if t != c.ctype then after == before
      else
        after.Some? && after.value.lastTransitionTime ==
          if before.Some? && before.value.status == c.status then before.value.lastTransitionTime else now
  {
    UpdateThenEntry(cs, c, now, t);
    hide Update;
  }

  /** A condition's transition time is the clock at the latest call that added it
      or changed its status, and its initial value if there was no such call. */
  lemma {:induction false} TransitionClock(cs: seq<Condition>, calls: seq<Call>, t: string, k: int)
    requires -1 <= k < |calls|
    requires k >= 0 ==> IsTransition(cs, calls, t, k)
    requires forall j | k < j < |calls| :: !IsTransition(cs, calls, t, j)
    ensures
      var g := Entry(Run(cs, calls), t);
      if k >= 0 then g.Some? && g.value.lastTransitionTime == calls[k].now
      else g.None? == Entry(cs, t).None? &&
           (g.Some? ==> g.value.lastTransitionTime == Entry(cs, t).value.lastTransitionTime)
  {
    hide Find, Entry, Update;
    if calls == [] {
    } else {
      var n := |calls| - 1;
      var before := calls[..n];
      StatusAfterRun(cs, before, t);
      StatusBeforePrefix(cs, calls, t, n);
      UpdateThenTime(Run(cs, before), calls[n].condition, calls[n].now, t);
      if k < n {
        forall j | 0 <= j < n
          ensures IsTransition(cs, before, t, j) == IsTransition(cs, calls, t, j)
        {
          StatusBeforePrefix(cs, calls, t, j);
        }
        TransitionClock(cs, before, t, k);
        assert !IsTransition(cs, calls, t, n);
      }
    }
  }
}
