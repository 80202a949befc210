/** What the Ready verdict of a sync means. The sync compares two totals only. */
module Readiness {
  import opened Values
  import opened Builders
  import opened Reconcile
  import opened Convergence

  /** The comparison at the head of updateClusterStatus. */
  predicate Verdict(c: Cluster, p: Progress) {
    p.readyGroups == c.spec.groupReplica
    && p.readyMembers == c.spec.groupReplica * c.spec.membersPerGroup
  }

  /******* The counters are totals over the groups *******/

  /** What group `i` has to show to a sync that gets as far: what its StatefulSet reports
      if it was found with the wanted size, and else nothing yet. */
  function GroupStatus(c: Cluster, answers: seq<Answers>, i: nat): SetStatus
    requires Groups(c) + i < |answers|
  {
    var g := answers[Groups(c) + i].statefulSet;
    if g.Found? && g.obj.replicas == c.spec.membersPerGroup then g.obj.status else SetStatus(0, 0)
  }

  lemma CountedIsShown(c: Cluster, answers: seq<Answers>, i: nat)
    requires Groups(c) + i < |answers|
    ensures CountedStatus(c, answers[Groups(c) + i]) == GroupStatus(c, answers, i)
  {
  }

  function CountReady(c: Cluster, answers: seq<Answers>, n: nat): (r: nat)
    requires Groups(c) + n <= |answers|
    ensures r <= n
  {
    if n == 0 then 0
    else
      var s := GroupStatus(c, answers, n - 1);
      CountReady(c, answers, n - 1) + if s.readyReplicas == s.replicas then 1 else 0
  }

  function SumReady(c: Cluster, answers: seq<Answers>, n: nat): int
    requires Groups(c) + n <= |answers|
  {
    if n == 0 then 0
    else
      var s := GroupStatus(c, answers, n - 1);
      SumReady(c, answers, n - 1) + if s.readyReplicas == s.replicas then s.replicas else 0
  }

  lemma {:induction false} TotalsOfPrefix(c: Cluster, answers: seq<Answers>, n: nat)
    requires Groups(c) + n < |answers|
    ensures CountReady(c, answers[..|answers| - 1], n) == CountReady(c, answers, n)
    ensures SumReady(c, answers[..|answers| - 1], n) == SumReady(c, answers, n)
  {
    if n == 0 {
    } else {
      TotalsOfPrefix(c, answers, n - 1);
    }
  }

  function Min(a: nat, b: nat): nat {
    if a < b then a else b
  }

  lemma CounterStep(c: Cluster, s: Store, p: Progress, a: Answers)
    ensures
      var q := Iterate(c, s, p, a).1;
      && (q.error.None? ==> p.error.None?)
      && (q.error.None? && InSets(c, p) ==>
            var r := Count(p, CountedStatus(c, a));
            q.readyGroups == r.readyGroups && q.readyMembers == r.readyMembers)
      && (!InSets(c, p) ==> q.readyGroups == p.readyGroups && q.readyMembers == p.readyMembers)
  {
    hide CountedStatus, Commit, Request, Admits, ControlledBy;
  }

  /** A sync that has met no error has run the Service loop first and then the
      StatefulSet loop, and its counters are the totals of the groups it has seen. */
  lemma {:induction false} CountersAreTotals(c: Cluster, s: Store, answers: seq<Answers>)
    ensures
      var p := Iterations(c, s, FRESH, answers).1;
      var g := Groups(c);
      p.error.None? ==>
        && p.servicesDone == Min(|answers|, g)
        && p.setsDone == (if |answers| <= g then 0 else Min(|answers| - g, g))
        && (g + p.setsDone <= |answers| || p.setsDone == 0)
        && (p.setsDone > 0 ==>
              p.readyGroups == CountReady(c, answers, p.setsDone)
              && p.readyMembers == SumReady(c, answers, p.setsDone))
        && (p.setsDone == 0 ==> p.readyGroups == 0 && p.readyMembers == 0)
  {
    hide Iterate, CountedStatus, GroupStatus;
    if answers == [] {
    } else {
      var n := |answers| - 1;
      CountersAreTotals(c, s, answers[..n]);
      var (s', p') := Iterations(c, s, FRESH, answers[..n]);
      IterationAdvances(c, s', p', answers[n]);
      CounterStep(c, s', p', answers[n]);
      var p := Iterations(c, s, FRESH, answers).1;
      if p'.setsDone + Groups(c) == n {
        CountedIsShown(c, answers, p'.setsDone);
      }
      if p.error.None? && p'.setsDone > 0 {
        if Groups(c) + p'.setsDone < |answers| {
          TotalsOfPrefix(c, answers, p'.setsDone);
        }
      }
    }
  }

  /******* What equality of the totals means *******/

  lemma {:induction false} AllCounted(c: Cluster, answers: seq<Answers>, n: nat)
    requires Groups(c) + n <= |answers|
    ensures CountReady(c, answers, n) == n
       <==> forall i: nat | i < n :: GroupStatus(c, answers, i).readyReplicas == GroupStatus(c, answers, i).replicas
  {
    hide GroupStatus;
    if n == 0 {
    } else {
      AllCounted(c, answers, n - 1);
    }
  }

  /** Groups of at most `m` members add up to `n * m` only if every one is full. */
  lemma {:induction false} FullSum(c: Cluster, answers: seq<Answers>, n: nat, m: int)
    requires Groups(c) + n <= |answers|
    requires CountReady(c, answers, n) == n
    requires forall i: nat | i < n :: GroupStatus(c, answers, i).replicas <= m
    ensures SumReady(c, answers, n) <= n * m
    ensures SumReady(c, answers, n) == n * m <==> forall i: nat | i < n :: GroupStatus(c, answers, i).replicas == m
  {
    hide GroupStatus;
    if n == 0 {
    } else {
      FullSum(c, answers, n - 1, m);
      assert n * m == (n - 1) * m + m;
    }
  }

  /** The StatefulSet of group `i` was found as wanted, neither created nor patched,
      and all its members are there and ready. */
  predicate GroupReady(c: Cluster, answers: seq<Answers>, i: nat)
    requires Groups(c) + i < |answers|
  {
    var m := c.spec.membersPerGroup;
    var g := answers[Groups(c) + i].statefulSet;
    g.Found? && g.obj.replicas == m && g.obj.status == SetStatus(m, m)
  }

  /** The group, as the sync counts it, has more members than wanted. */
  predicate Overfull(c: Cluster, answers: seq<Answers>, i: nat)
    requires Groups(c) + i < |answers|
  {
    GroupStatus(c, answers, i).replicas > c.spec.membersPerGroup
  }

  /** For any statuses at all: the verdict is True exactly when every counted group is
      as ready as it is large and the sizes add up. */
  lemma VerdictIsTotals(c: Cluster, s: Store, answers: seq<Answers>)
    requires |answers| >= 2 * Groups(c)
    requires Complete(c, Iterations(c, s, FRESH, answers).1)
    ensures
      Verdict(c, Iterations(c, s, FRESH, answers).1) <==>
        && c.spec.groupReplica >= 0
        && (forall i: nat | i < Groups(c) ::
              GroupStatus(c, answers, i).readyReplicas == GroupStatus(c, answers, i).replicas)
        && SumReady(c, answers, Groups(c)) == Groups(c) * c.spec.membersPerGroup
  {
    hide GroupStatus, Iterations;
    CountersAreTotals(c, s, answers);
    AllCounted(c, answers, Groups(c));
  }

  /** A complete and ready group is counted as such. With at least one member wanted, no
      other group is: neither one just created or patched nor one with a member short. */
  lemma CountedAsReady(c: Cluster, answers: seq<Answers>, i: nat)
    requires Groups(c) + i < |answers|
    ensures
      var m := c.spec.membersPerGroup;
      && (GroupReady(c, answers, i) ==> GroupStatus(c, answers, i) == SetStatus(m, m))
      && (m >= 1 && GroupStatus(c, answers, i) == SetStatus(m, m) ==> GroupReady(c, answers, i))
  {
  }

  /** Completeness of Ready, for any statuses: if every group was found complete and
      ready, the verdict is True. */
  lemma AllReadyIsReported(c: Cluster, s: Store, answers: seq<Answers>)
    requires |answers| >= 2 * Groups(c) && c.spec.groupReplica >= 0
    requires Complete(c, Iterations(c, s, FRESH, answers).1)
    requires forall i: nat | i < Groups(c) :: GroupReady(c, answers, i)
    ensures Verdict(c, Iterations(c, s, FRESH, answers).1)
  {
    hide Iterations, Complete;
    var n, m := Groups(c), c.spec.membersPerGroup;
    VerdictIsTotals(c, s, answers);
    forall i: nat | i < n
      ensures GroupStatus(c, answers, i) == SetStatus(m, m)
    {
      CountedAsReady(c, answers, i);
    }
    hide GroupStatus, GroupReady;
    AllCounted(c, answers, n);
    FullSum(c, answers, n, m);
  }

  /** Soundness of Ready, exactly: with at least one member in a group, a True verdict is
      right if and only if no group was counted with more members than wanted. */
  lemma TrueVerdictIsRight(c: Cluster, s: Store, answers: seq<Answers>)
    requires |answers| >= 2 * Groups(c) && c.spec.membersPerGroup >= 1
    requires Complete(c, Iterations(c, s, FRESH, answers).1) && Verdict(c, Iterations(c, s, FRESH, answers).1)
    ensures (forall i: nat | i < Groups(c) :: GroupReady(c, answers, i)) <==>
            (forall i: nat | i < Groups(c) :: !Overfull(c, answers, i))
  {
    hide Iterations, Complete;
    var n, m := Groups(c), c.spec.membersPerGroup;
    VerdictIsTotals(c, s, answers);
    AllCounted(c, answers, n);
    forall i: nat | i < n
      ensures GroupReady(c, answers, i) <==> GroupStatus(c, answers, i) == SetStatus(m, m)
      ensures Overfull(c, answers, i) <==> GroupStatus(c, answers, i).replicas > m
    {
      CountedAsReady(c, answers, i);
    }
    hide GroupStatus, GroupReady, Overfull;
    if forall i: nat | i < n :: !Overfull(c, answers, i) {
      FullSum(c, answers, n, m);
    }
  }

  /** The two together: every group was found complete and ready, and none of their
      StatefulSets had to be created or patched, exactly when the verdict is True and
      no group was counted with more members than wanted. */
  lemma ReadyIffAllGroupsReady(c: Cluster, s: Store, answers: seq<Answers>)
    requires |answers| >= 2 * Groups(c) && c.spec.membersPerGroup >= 1
    requires Complete(c, Iterations(c, s, FRESH, answers).1)
    ensures
      (c.spec.groupReplica >= 0 && forall i: nat | i < Groups(c) :: GroupReady(c, answers, i)) <==>
      (Verdict(c, Iterations(c, s, FRESH, answers).1) && forall i: nat | i < Groups(c) :: !Overfull(c, answers, i))
  {
    hide Iterations, Complete, GroupReady, Overfull;
    if c.spec.groupReplica >= 0 && forall i: nat | i < Groups(c) :: GroupReady(c, answers, i) {
      AllReadyIsReported(c, s, answers);
    }
    if Verdict(c, Iterations(c, s, FRESH, answers).1) {
      VerdictIsTotals(c, s, answers);
      TrueVerdictIsRight(c, s, answers);
    }
  }

  /** So the verdict misleads in one way only: True for a cluster that is not ready. It
      does exactly if as many members are ready as are wanted in all, in groups that are
      each as ready as they are large, and one has too many, which hides another's lack. */
  lemma VerdictMisleads(c: Cluster, s: Store, answers: seq<Answers>)
    requires |answers| >= 2 * Groups(c) && c.spec.membersPerGroup >= 1 && c.spec.groupReplica >= 0
    requires Complete(c, Iterations(c, s, FRESH, answers).1)
    ensures
      var right := Verdict(c, Iterations(c, s, FRESH, answers).1) <==>
        forall i: nat | i < Groups(c) :: GroupReady(c, answers, i);
      !right <==>
        && (forall i: nat | i < Groups(c) ::
              GroupStatus(c, answers, i).readyReplicas == GroupStatus(c, answers, i).replicas)
        && SumReady(c, answers, Groups(c)) == Groups(c) * c.spec.membersPerGroup
        && exists i: nat | i < Groups(c) :: Overfull(c, answers, i)
  {
    hide Iterations, Complete, GroupReady, Overfull, GroupStatus;
    ReadyIffAllGroupsReady(c, s, answers);
    VerdictIsTotals(c, s, answers);
  }

  /** An input of that kind: three ready members in one group make up for a missing one
      in the other. */
  lemma OverfullGroupHidesShortOne(c: Cluster, s: Store)
    requires c.spec.groupReplica == 2 && c.spec.membersPerGroup == 2
    ensures
      var set0 := NewStatefulSet(c, 0).(status := SetStatus(3, 3));
      var set1 := NewStatefulSet(c, 1).(status := SetStatus(1, 1));
      var answers := [
        Answers(Found(NewHeadlessService(c, 0)), NotFound, false),
        Answers(Found(NewHeadlessService(c, 1)), NotFound, false),
        Answers(NotFound, Found(set0), false),
        Answers(NotFound, Found(set1), false)];
      && Complete(c, Iterations(c, s, FRESH, answers).1)
      && Verdict(c, Iterations(c, s, FRESH, answers).1)
      && !GroupReady(c, answers, 1)
  {
    var set0 := NewStatefulSet(c, 0).(status := SetStatus(3, 3));
    var set1 := NewStatefulSet(c, 1).(status := SetStatus(1, 1));
    var a0 := Answers(Found(NewHeadlessService(c, 0)), NotFound, false);
    var a1 := Answers(Found(NewHeadlessService(c, 1)), NotFound, false);
    var a2 := Answers(NotFound, Found(set0), false);
    var a3 := Answers(NotFound, Found(set1), false);
    NewIsControlled(c, 0);
    NewIsControlled(c, 1);
    hide NewStatefulSet, NewHeadlessService, ControlledBy;
    var answers := [a0, a1, a2, a3];
    assert answers[..3] == [a0, a1, a2] && [a0, a1, a2][..2] == [a0, a1] && [a0, a1][..1] == [a0] && [a0][..0] == [];
    assert Iterations(c, s, FRESH, []) == (s, FRESH);
    assert Iterations(c, s, FRESH, [a0]) == (s, Progress(1, 0, 0, 0, None));
    assert Iterations(c, s, FRESH, [a0, a1]) == (s, Progress(2, 0, 0, 0, None));
    assert Iterations(c, s, FRESH, [a0, a1, a2]) == (s, Progress(2, 1, 1, 3, None));
    assert Iterations(c, s, FRESH, answers) == (s, Progress(2, 2, 2, 4, None));
  }

  lemma {:induction false} SameSetsSameTotals(c: Cluster, answers: seq<Answers>, others: seq<Answers>, n: nat)
    requires Groups(c) + n <= |answers| && |answers| == |others|
    requires forall i | Groups(c) <= i < Groups(c) + n :: answers[i].statefulSet == others[i].statefulSet
    ensures CountReady(c, answers, n) == CountReady(c, others, n) && SumReady(c, answers, n) == SumReady(c, others, n)
  {
    if n == 0 {
    } else {
      SameSetsSameTotals(c, answers, others, n - 1);
    }
  }

  /** The Services play no part: a cluster may be reported ready by the very sync that
      creates its Services. */
  lemma VerdictIgnoresServices(c: Cluster, s: Store, t: Store, answers: seq<Answers>, others: seq<Answers>)
    requires |answers| == |others| == 2 * Groups(c)
    requires forall i | Groups(c) <= i < 2 * Groups(c) :: answers[i].statefulSet == others[i].statefulSet
    requires Complete(c, Iterations(c, s, FRESH, answers).1) && Complete(c, Iterations(c, t, FRESH, others).1)
    ensures Verdict(c, Iterations(c, s, FRESH, answers).1) == Verdict(c, Iterations(c, t, FRESH, others).1)
  {
    hide Iterations;
    CountersAreTotals(c, s, answers);
    CountersAreTotals(c, t, others);
    SameSetsSameTotals(c, answers, others, Groups(c));
  }

  /******* No overflow *******/

  const INT64_MAX := 0x7fff_ffff_ffff_ffff
  const TWO_31 := 0x8000_0000

  lemma CountsOrStays(c: Cluster, s: Store, p: Progress, a: Answers)
    ensures
      var q := Iterate(c, s, p, a).1;
      var r := Count(p, CountedStatus(c, a));
      (q.readyGroups == p.readyGroups && q.readyMembers == p.readyMembers)
      || (InSets(c, p) && q.error.None? && q.readyGroups == r.readyGroups && q.readyMembers == r.readyMembers)
  {
    hide CountedStatus, Commit, Request, Admits, ControlledBy;
  }

  lemma ScaledBound(x: int, y: int, b: int)
    requires -b <= x <= b && -b <= y <= b
    ensures -(b * b) <= x * y <= b * b
  {
    assert (b - x) * (b + y) >= 0 && (b + x) * (b - y) >= 0;
    assert (b - x) * (b - y) >= 0 && (b + x) * (b + y) >= 0;
    assert (b - x) * (b + y) == b * b + b * y - x * b - x * y;
    assert (b + x) * (b - y) == b * b - b * y + x * b - x * y;
    assert (b - x) * (b - y) == b * b - b * y - x * b + x * y;
    assert (b + x) * (b + y) == b * b + b * y + x * b + x * y;
  }

  lemma ProductBound(x: int, y: int)
    requires -TWO_31 <= x <= TWO_31 && -TWO_31 <= y <= TWO_31
    ensures -TWO_31 * TWO_31 <= x * y <= TWO_31 * TWO_31
  {
    ScaledBound(x, y, TWO_31);
  }

  /** On a 64-bit machine none of the sums and products overflows, at any iteration of
      any sync, for any int32 counts and statuses. */
  lemma {:induction false} NoOverflow(c: Cluster, s: Store, answers: seq<Answers>)
    ensures
      var p := Iterations(c, s, FRESH, answers).1;
      && p.setsDone <= Groups(c) && p.servicesDone <= Groups(c) && p.readyGroups <= p.setsDone
      && -TWO_31 * p.setsDone <= p.readyMembers <= TWO_31 * p.setsDone
      && -INT64_MAX <= p.readyMembers <= INT64_MAX
      && -INT64_MAX <= c.spec.groupReplica * c.spec.membersPerGroup <= INT64_MAX
  {
    hide Iterate, CountedStatus;
    if answers == [] {
    } else {
      var n := |answers| - 1;
      NoOverflow(c, s, answers[..n]);
      var (s', p') := Iterations(c, s, FRESH, answers[..n]);
      IterationAdvances(c, s', p', answers[n]);
      CountsOrStays(c, s', p', answers[n]);
    }
    ProductBound(c.spec.groupReplica, c.spec.membersPerGroup);
  }
}
