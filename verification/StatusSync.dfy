/** How a sync publishes its verdict. The condition it edits is the element of the
    lister's own object, while the list it sends is a copy made before the edit. */
module StatusSync {
  import opened Values
  import opened Conditions

  function StatusOf(ready: bool): string {
    if ready then TRUE else FALSE
  }

  /** The status of the Ready condition, if there is one. */
  function ReadyOf(cs: seq<Condition>): Option<string> {
    var g := Entry(cs, READY);
    if g.Some? then Some(g.value.status) else None
  }

  /** The condition handed to UpdateClusterCondition: the cached one with its status
      overwritten, or else a new one. */
  function Argument(cached: seq<Condition>, ready: bool): Condition {
    var g := Entry(cached, READY);
    if g.Some? then g.value.(status := StatusOf(ready)) else Condition(READY, StatusOf(ready), 0, "", "")
  }

  /** The cached list after the edit, the list to send, and whether to send it. */
  datatype Publication = Publication(cached: seq<Condition>, status: seq<Condition>, write: bool)

  function Publish(cached: seq<Condition>, ready: bool, now: int): Publication {
    var c := Argument(cached, ready);
    var i := Find(cached, READY);
    Publication(
      if i < 0 then cached else cached[i := Stamp(cached, c, now)],
      Update(cached, c, now),
      Flag(cached, c, now))
  }

  /** What updateClusterStatus does to the two copies of the conditions, the lister's
      and the server's, when the write, if one is made, succeeds or fails. */
  datatype Copies = Copies(cached: seq<Condition>, stored: seq<Condition>)

  function SyncStatus(s: Copies, ready: bool, now: int, writeSucceeds: bool): (Copies, bool) {
    var p := Publish(s.cached, ready, now);
    if !p.write then (Copies(p.cached, s.stored), true)
    else if writeSucceeds then (Copies(p.cached, p.status), true)
    else (Copies(p.cached, s.stored), false)
  }

  /** A write is made exactly when the cached status differs from the verdict; the list
      sent says what the verdict says; and the cached condition, if there is one, takes
      the verdict at once. No other condition is touched in either list. */
  lemma PublishLaws(cached: seq<Condition>, ready: bool, now: int, t: string)
    ensures
      var p := Publish(cached, ready, now);
      && (p.write <==> ReadyOf(cached) != Some(StatusOf(ready)))
      && ReadyOf(p.status) == Some(StatusOf(ready))
      && (ReadyOf(cached).Some? ==> ReadyOf(p.cached) == Some(StatusOf(ready)))
      && (ReadyOf(cached).None? ==> p.cached == cached)
      && (t != READY ==> Entry(p.status, t) == Entry(cached, t) && Entry(p.cached, t) == Entry(cached, t))
  {
    var c := Argument(cached, ready);
    UpdateThenEntry(cached, c, now, READY);
    UpdateThenEntry(cached, c, now, t);
  }

  /** The whole entry that a sync publishes. Where the cached status is absent or not the
      verdict, the entry sent has the verdict, the present time as its transition time,
      and the cached reason and message; and a cached entry becomes that same one. Where
      the status is the verdict already, neither list changes at all. */
  lemma PublishedEntry(cached: seq<Condition>, ready: bool, now: int)
    ensures
      var p := Publish(cached, ready, now);
      var was := Entry(cached, READY);
      var verdict := if ready then "True" else "False";
      if was.Some? && was.value.status == verdict then p.status == cached && p.cached == cached && !p.write
      else
        && p.write
        && Entry(p.status, READY) == Some(Condition("Ready", verdict, now,
                                                    if was.Some? then was.value.reason else "",
                                                    if was.Some? then was.value.message else ""))
        && (was.Some? ==> Entry(p.cached, READY) == Entry(p.status, READY))
        && (was.None? ==> p.cached == cached && p.status == cached + [Entry(p.status, READY).value])
  {
    var c := Argument(cached, ready);
    UpdateThenEntry(cached, c, now, READY);
    var i := Find(cached, READY);
    if i >= 0 {
      SameTypesSameFind(cached, cached[i := Stamp(cached, c, now)], READY);
    }
  }

  /** After a successful call the server has the verdict exactly when the cached status
      was not already the verdict, or the server had it anyway. */
  lemma SuccessPublishes(s: Copies, ready: bool, now: int, writeSucceeds: bool)
    ensures
      var (s', success) := SyncStatus(s, ready, now, writeSucceeds);
      success ==>
        (ReadyOf(s'.stored) == Some(StatusOf(ready)) <==>
           ReadyOf(s.cached) != Some(StatusOf(ready)) || ReadyOf(s.stored) == Some(StatusOf(ready)))
  {
    PublishLaws(s.cached, ready, now, READY);
  }

  /** So if the two copies agree to begin with, success means the verdict is stored, and
      unless the list had no Ready condition the copies agree again. */
  lemma AgreementPublishes(s: Copies, ready: bool, now: int, writeSucceeds: bool)
    requires ReadyOf(s.cached) == ReadyOf(s.stored)
    ensures
      var (s', success) := SyncStatus(s, ready, now, writeSucceeds);
      && (success ==> ReadyOf(s'.stored) == Some(StatusOf(ready)))
      && (ReadyOf(s.cached).Some? ==> ReadyOf(s'.cached) == Some(StatusOf(ready)))
      && (ReadyOf(s.cached).Some? && !success ==> ReadyOf(s'.cached) != ReadyOf(s'.stored))
  {
    PublishLaws(s.cached, ready, now, READY);
    SuccessPublishes(s, ready, now, writeSucceeds);
  }

  /** Later calls with the same verdict, each at its own time and with its own luck,
      while no event refreshes the cache. */
  datatype Attempt = Attempt(now: int, writeSucceeds: bool)

  function Again(s: Copies, ready: bool, attempts: seq<Attempt>): (Copies, bool) {
    if attempts == [] then (s, true)
    else
      var (t, ok) := Again(s, ready, attempts[..|attempts| - 1]);
      var last := attempts[|attempts| - 1];
      var (u, success) := SyncStatus(t, ready, last.now, last.writeSucceeds);
      (u, ok && success)
  }

  lemma {:induction false} NothingLeftToWrite(s: Copies, ready: bool, attempts: seq<Attempt>)
    requires ReadyOf(s.cached) == Some(StatusOf(ready))
    ensures
      var (t, ok) := Again(s, ready, attempts);
      ok && t.stored == s.stored && ReadyOf(t.cached) == Some(StatusOf(ready))
  {
    hide Publish;
    if attempts == [] {
    } else {
      var n := |attempts| - 1;
      NothingLeftToWrite(s, ready, attempts[..n]);
      PublishLaws(Again(s, ready, attempts[..n]).0.cached, ready, attempts[n].now, READY);
    }
  }

  /** A write that fails leaves the server behind when the cached list had a Ready
      condition: however many syncs with the same verdict follow before an event
      replaces the cached object, all succeed, none writes, and the server does not
      get the verdict. (After a conflict such an event is due: the version that won.) */
  lemma FailedWriteIsForgotten(s: Copies, ready: bool, now: int, attempts: seq<Attempt>)
    requires ReadyOf(s.cached).Some? && ReadyOf(s.cached) == ReadyOf(s.stored)
    requires ReadyOf(s.cached) != Some(StatusOf(ready))
    ensures
      var (t, success) := SyncStatus(s, ready, now, false);
      var (u, ok) := Again(t, ready, attempts);
      && !success
      && ok
      && u.stored == s.stored
      && ReadyOf(u.stored) != Some(StatusOf(ready))
  {
    PublishLaws(s.cached, ready, now, READY);
    NothingLeftToWrite(SyncStatus(s, ready, now, false).0, ready, attempts);
  }

  /** Whether the next sync with the same verdict, on the same cached object, tries again
      after a failed write is decided by one thing: it does exactly when the list had no Ready condition. */
  lemma RetriedIffAbsent(s: Copies, ready: bool, now: int, later: int)
    requires !SyncStatus(s, ready, now, false).1
    ensures Publish(SyncStatus(s, ready, now, false).0.cached, ready, later).write <==> ReadyOf(s.cached).None?
  {
    PublishLaws(s.cached, ready, now, READY);
    PublishLaws(SyncStatus(s, ready, now, false).0.cached, ready, later, READY);
  }

  /** A run that shows it: the cluster was ready, a group fails, the write of that news
      is lost, and the next sync reports success with the server still saying ready. */
  lemma StaleReadyWitness()
    ensures
      var cs := [Condition(READY, TRUE, 1, "", "")];
      var (s, first) := SyncStatus(Copies(cs, cs), false, 2, false);
      var (t, second) := SyncStatus(s, false, 3, true);
      !first && second && ReadyOf(t.stored) == Some(TRUE)
  {
    var cs := [Condition(READY, TRUE, 1, "", "")];
    FindIsFirst(cs, READY, 0);
    assert TRUE[0] == 'T' && FALSE[0] == 'F';
    FailedWriteIsForgotten(Copies(cs, cs), false, 2, [Attempt(3, true)]);
    var (s, first) := SyncStatus(Copies(cs, cs), false, 2, false);
    PublishLaws(cs, false, 2, READY);
    PublishLaws(s.cached, false, 3, READY);
  }
}
