/**
 * Data allocations: cached usage totals beside the log of metered events. An
 * allocation is keyed by the member who holds it. `day` takes an instant to the
 * start of its calendar day.
 */
module Ledger {
  import opened Text

  datatype Status = Active | Paused | Revoked | Expired

  datatype Allocation = Allocation(
    status: Status, totalBytes: int, dailyBytes: Option<int>, usedBytes: int, usedTodayBytes: int,
    usageDay: Option<int>, expiresAt: int, pausedAt: Option<int>, revokedAt: Option<int>)

  /** One metered chunk as the provider reports it, and as it is recorded. */
  datatype Usage = Usage(ref: string, bytes: int, at: int)
  datatype Event = Event(holder: nat, usage: Usage)

  datatype Db = Db(allocations: map<nat, Allocation>, events: seq<Event>)

  ghost predicate Calendar(day: int -> int) {
    && (forall t :: day(day(t)) == day(t))
    && (forall t, u :: t <= u ==> day(t) <= day(u))
  }

  // ---------------------------------------------------------------------------
  // The log, and what it adds up to
  // ---------------------------------------------------------------------------

  predicate Known(events: seq<Event>, ref: string) {
    exists i :: 0 <= i < |events| && events[i].usage.ref == ref
  }

  /** Some event in the log goes by this reference. */
  ghost predicate Logged(events: seq<Event>, ref: string) {
    exists k :: 0 <= k < |events| && events[k].usage.ref == ref
  }

  /** Recording a batch: a reference already in the log is skipped. */
  function Recorded(events: seq<Event>, holder: nat, batch: seq<Usage>): (log: seq<Event>)
    ensures events <= log
    decreases |batch|
  {
    if batch == [] then events
    else
      var log := Recorded(events, holder, batch[..|batch| - 1]);
      var u := batch[|batch| - 1];
      if Known(log, u.ref) then log else log + [Event(holder, u)]
  }

  /** The bytes of one holder's events. */
  function Total(events: seq<Event>, holder: nat): int
    decreases |events|
  {
    if events == [] then 0
    else
      var e := events[|events| - 1];
      Total(events[..|events| - 1], holder) + if e.holder == holder then e.usage.bytes else 0
  }

  /** The bytes of one holder's events dated one day. */
  function TotalOn(events: seq<Event>, holder: nat, date: int, day: int -> int): int
    decreases |events|
  {
    if events == [] then 0
    else
      var e := events[|events| - 1];
      TotalOn(events[..|events| - 1], holder, date, day)
      + if e.holder == holder && day(e.usage.at) == date then e.usage.bytes else 0
  }

  lemma TotalSnoc(events: seq<Event>, e: Event, holder: nat, date: int, day: int -> int)
    ensures Total(events + [e], holder) == Total(events, holder) + if e.holder == holder then e.usage.bytes else 0
    ensures TotalOn(events + [e], holder, date, day) ==
      TotalOn(events, holder, date, day)
      + if e.holder == holder && day(e.usage.at) == date then e.usage.bytes else 0
  {
    assert (events + [e])[..|events|] == events;
  }

  // ---------------------------------------------------------------------------
  // The operations
  // ---------------------------------------------------------------------------

  function Limited(a: Allocation, now: int): Allocation {
    var exhausted := a.usedBytes >= a.totalBytes;
    var dailyReached := a.dailyBytes.Some? && a.usedTodayBytes >= a.dailyBytes.value;
    if exhausted || dailyReached then a.(status := Paused, pausedAt := Some(now)) else a
  }

  /** What is recorded when a holder's usage is pulled, and whether anything is. */
  predicate Polls(a: Allocation, now: int) {
    a.status == Active && a.expiresAt > now
  }

  predicate DayChanged(a: Allocation, now: int, day: int -> int) {
    a.usageDay.None? || day(a.usageDay.value) != day(now)
  }

  /** The row as a refresh that gets that far writes it. */
  function Written(a: Allocation, usedBytes: int, usedTodayBytes: int, now: int, day: int -> int): Allocation {
    Limited(a.(usedBytes := usedBytes, usedTodayBytes := usedTodayBytes, usageDay := Some(day(now))), now)
  }

  function Refreshed(a: Allocation, added: int, addedToday: int, now: int, day: int -> int): Allocation {
    if a.status == Revoked then a
    else if a.expiresAt <= now && a.status != Expired then a.(status := Expired)
    else
      Written(a, a.usedBytes + added, (if DayChanged(a, now, day) then 0 else a.usedTodayBytes) + addedToday, now, day)
  }

  function Refresh(db: Db, holder: nat, batch: seq<Usage>, now: int, day: int -> int): Db
    requires holder in db.allocations
  {
    var a := db.allocations[holder];
    var log := if Polls(a, now) then Recorded(db.events, holder, batch) else db.events;
    var added := Total(log, holder) - Total(db.events, holder);
    var addedToday := TotalOn(log, holder, day(now), day) - TotalOn(db.events, holder, day(now), day);
    Db(db.allocations[holder := Refreshed(a, added, addedToday, now, day)], log)
  }

  lemma RefreshedIs(a: Allocation, added: int, addedToday: int, now: int, day: int -> int)
    ensures var b := Refreshed(a, added, addedToday, now, day);
      && (a.status == Revoked ==> b == a)
      && (a.status != Revoked && a.status != Expired && a.expiresAt <= now ==> b == a.(status := Expired))
      && (a.status != Revoked && (a.status == Expired || a.expiresAt > now) ==>
            b == Written(a, a.usedBytes + added,
                         (if DayChanged(a, now, day) then 0 else a.usedTodayBytes) + addedToday, now, day))
  {
  }

  /** A refresh case by case: nothing is polled for a row that is not active. */
  lemma RefreshIs(db: Db, holder: nat, batch: seq<Usage>, now: int, day: int -> int)
    requires holder in db.allocations
    ensures var a, after := db.allocations[holder], Refresh(db, holder, batch, now, day);
      var log := if Polls(a, now) then Recorded(db.events, holder, batch) else db.events;
      && after.events == log
      && after.allocations == db.allocations[holder := after.allocations[holder]]
      && (a.status == Revoked ==> after.allocations[holder] == a)
      && (a.status != Revoked && a.status != Expired && a.expiresAt <= now ==>
            after.allocations[holder] == a.(status := Expired))
      && (a.status != Revoked && (a.status == Expired || a.expiresAt > now) ==>
            after.allocations[holder] == Written(a,
              a.usedBytes + Total(log, holder) - Total(db.events, holder),
              (if DayChanged(a, now, day) then 0 else a.usedTodayBytes)
                + TotalOn(log, holder, day(now), day) - TotalOn(db.events, holder, day(now), day), now, day))
  {
    var a := db.allocations[holder];
    var log := if Polls(a, now) then Recorded(db.events, holder, batch) else db.events;
    RefreshedIs(a, Total(log, holder) - Total(db.events, holder),
                TotalOn(log, holder, day(now), day) - TotalOn(db.events, holder, day(now), day), now, day);
  }

  /** Over its total, or over its limit for the day. */
  ghost predicate Exhausted(a: Allocation) {
    a.usedBytes >= a.totalBytes || (a.dailyBytes.Some? && a.usedTodayBytes >= a.dailyBytes.value)
  }

  /**
   * A refresh: a revoked row stays, one newly past its time is expired, and any other gets
   * the figures that what it recorded adds up to, dated today, and is paused if they
   * exhaust it. Only an active row polls, so only then is anything recorded.
   */
  ghost predicate RefreshShows(db: Db, after: Db, holder: nat, batch: seq<Usage>, now: int, day: int -> int)
    requires holder in db.allocations
  {
    holder in after.allocations && after.allocations == db.allocations[holder := after.allocations[holder]] &&
    var was, a := db.allocations[holder], after.allocations[holder];
    && db.events <= after.events
    && (was.status != Active || was.expiresAt <= now ==> after.events == db.events)
    && (was.status == Active && now < was.expiresAt ==>
          forall i :: 0 <= i < |batch| ==> Logged(after.events, batch[i].ref))
    && if was.status == Revoked then a == was
       else if was.expiresAt <= now && was.status != Expired then a == was.(status := Expired)
       else
         && a == was.(usedBytes := a.usedBytes, usedTodayBytes := a.usedTodayBytes, usageDay := Some(day(now)),
                      status := a.status, pausedAt := a.pausedAt)
         && a.usedBytes - was.usedBytes == Total(after.events, holder) - Total(db.events, holder)
         && a.usedTodayBytes - (if was.usageDay.Some? && day(was.usageDay.value) == day(now)
                                then was.usedTodayBytes else 0)
              == TotalOn(after.events, holder, day(now), day) - TotalOn(db.events, holder, day(now), day)
         && (if Exhausted(a) then a.status == Paused && a.pausedAt == Some(now)
             else a.status == was.status && a.pausedAt == was.pausedAt)
  }

  /** No reference of a batch is left out of the log. */
  lemma {:induction false} NoneLeftOut(events: seq<Event>, holder: nat, batch: seq<Usage>, i: nat)
    requires i < |batch|
    ensures Logged(Recorded(events, holder, batch), batch[i].ref)
    decreases |batch|
  {
    var n, log := |batch| - 1, Recorded(events, holder, batch);
    var before := Recorded(events, holder, batch[..n]);
    if i < n {
      NoneLeftOut(events, holder, batch[..n], i);
      var k :| 0 <= k < |before| && before[k].usage.ref == batch[i].ref;
      assert log[k] == before[k];
    } else if !Known(before, batch[n].ref) {
      assert log[|log| - 1].usage.ref == batch[n].ref;
    }
  }

  lemma RefreshIsShown(db: Db, holder: nat, batch: seq<Usage>, now: int, day: int -> int)
    requires holder in db.allocations
    ensures RefreshShows(db, Refresh(db, holder, batch, now, day), holder, batch, now, day)
  {
    RefreshIs(db, holder, batch, now, day);
    var after := Refresh(db, holder, batch, now, day);
    forall i | 0 <= i < |batch| && Polls(db.allocations[holder], now)
      ensures Logged(after.events, batch[i].ref)
    {
      NoneLeftOut(db.events, holder, batch, i);
    }
  }

  function Pause(a: Allocation, paused: bool, now: int): Allocation {
    a.(status := if paused then Paused else Active, pausedAt := if paused then Some(now) else None)
  }

  datatype Change = Change(totalBytes: Option<int>, dailyBytes: Option<Option<int>>, expiresAt: Option<int>)

  function Update(a: Allocation, c: Change): Option<Allocation> {
    if c.totalBytes.Some? && c.totalBytes.value < a.usedBytes then None
    else
      Some(a.(totalBytes := c.totalBytes.GetOr(a.totalBytes),
              dailyBytes := c.dailyBytes.GetOr(a.dailyBytes),
              expiresAt := c.expiresAt.GetOr(a.expiresAt)))
  }

  /** A first grant starts from nothing; a later one keeps what has been used. */
  function Granted(db: Db, holder: nat, totalBytes: int, dailyBytes: Option<int>, expiresAt: int): Allocation {
    if holder in db.allocations then
      db.allocations[holder].(totalBytes := totalBytes, dailyBytes := dailyBytes, expiresAt := expiresAt,
                              status := Active, pausedAt := None, revokedAt := None)
    else
      Allocation(Active, totalBytes, dailyBytes, 0, 0, None, expiresAt, None, None)
  }

  class DataService {
    var allocations: map<nat, Allocation>
    var events: seq<Event>
    const day: int -> int

    function Contents(): Db
      reads this
    {
      Db(allocations, events)
    }

    constructor (day: int -> int)
      ensures Contents() == Db(map[], []) && this.day == day
    {
      allocations, events := map[], [];
      this.day := day;
    }

    method Open(holder: nat, totalBytes: int, dailyBytes: Option<int>, expiresAt: int)
      modifies this
      ensures events == old(events)
      ensures allocations
        == old(allocations)[holder := Granted(old(Contents()), holder, totalBytes, dailyBytes, expiresAt)]
      ensures var a := allocations[holder];
        && a.totalBytes == totalBytes && a.dailyBytes == dailyBytes && a.expiresAt == expiresAt
        && a.status == Active && a.pausedAt.None? && a.revokedAt.None?
        && if holder in old(allocations) then
             var was := old(allocations)[holder];
             && a.usedBytes == was.usedBytes && a.usedTodayBytes == was.usedTodayBytes && a.usageDay == was.usageDay
           else
             a.usedBytes == 0 && a.usedTodayBytes == 0 && a.usageDay.None?
    {
      allocations := allocations[holder := Granted(Contents(), holder, totalBytes, dailyBytes, expiresAt)];
    }

    method PauseAllocation(holder: nat, paused: bool, now: int) returns (found: bool)
      modifies this
      ensures events == old(events) && found == (holder in old(allocations))
      ensures allocations ==
        if found then old(allocations)[holder := Pause(old(allocations)[holder], paused, now)] else old(allocations)
      ensures found ==>
        var was, a := old(allocations)[holder], allocations[holder];
        a == if paused then was.(status := Paused, pausedAt := Some(now)) else was.(status := Active, pausedAt := None)
    {
      found := holder in allocations;
      if found {
        allocations := allocations[holder := Pause(allocations[holder], paused, now)];
      }
    }

    method UpdateAllocation(holder: nat, c: Change) returns (updated: bool)
      modifies this
      ensures events == old(events)
      ensures updated <==> holder in old(allocations) && Update(old(allocations)[holder], c).Some?
      ensures allocations ==
        if updated then old(allocations)[holder := Update(old(allocations)[holder], c).value] else old(allocations)
      ensures updated <==>
        holder in old(allocations) && (c.totalBytes.Some? ==> old(allocations)[holder].usedBytes <= c.totalBytes.value)
      ensures updated ==>
        var was, a := old(allocations)[holder], allocations[holder];
        && a == was.(totalBytes := a.totalBytes, dailyBytes := a.dailyBytes, expiresAt := a.expiresAt)
        && a.totalBytes == (if c.totalBytes.Some? then c.totalBytes.value else was.totalBytes)
        && a.dailyBytes == (if c.dailyBytes.Some? then c.dailyBytes.value else was.dailyBytes)
        && a.expiresAt == (if c.expiresAt.Some? then c.expiresAt.value else was.expiresAt)
    {
      if holder !in allocations { return false; }
      var changed := Update(allocations[holder], c);
      if changed.None? { return false; }
      allocations := allocations[holder := changed.value];
      return true;
    }

    method Revoke(holder: nat, now: int)
      modifies this
      ensures events == old(events)
      ensures allocations ==
        if holder in old(allocations)
        then old(allocations)[holder := old(allocations)[holder].(status := Revoked, revokedAt := Some(now))]
        else old(allocations)
    {
      if holder in allocations {
        allocations := allocations[holder := allocations[holder].(status := Revoked, revokedAt := Some(now))];
      }
    }

    method Create(holder: nat, u: Usage) returns (created: bool)
      modifies this`events
      ensures created == !Known(old(events), u.ref)
      ensures events == if created then old(events) + [Event(holder, u)] else old(events)
    {
      created := !Known(events, u.ref);
      if created {
        events := events + [Event(holder, u)];
      }
    }

    /** The polling loop of a refresh: what is new is recorded and added up. */
    method Fold(holder: nat, batch: seq<Usage>, today: int, total: int, totalToday: int)
      returns (usedTotal: int, usedToday: int)
      modifies this`events
      ensures events == Recorded(old(events), holder, batch)
      ensures usedTotal == total + Total(events, holder) - Total(old(events), holder)
      ensures usedToday == totalToday + TotalOn(events, holder, today, day) - TotalOn(old(events), holder, today, day)
    {
      usedTotal, usedToday := total, totalToday;
      var i := 0;
      while i < |batch|
        invariant 0 <= i <= |batch|
        invariant events == Recorded(old(events), holder, batch[..i])
        invariant usedTotal == total + Total(events, holder) - Total(old(events), holder)
        invariant usedToday
          == totalToday + TotalOn(events, holder, today, day) - TotalOn(old(events), holder, today, day)
      {
        var event := batch[i];
        assert batch[..i + 1][..i] == batch[..i];
        TotalSnoc(events, Event(holder, event), holder, today, day);
        var created := Create(holder, event);
        if created {
          usedTotal := usedTotal + event.bytes;
          if day(event.at) == today {
            usedToday := usedToday + event.bytes;
          }
        }
        i := i + 1;
      }
      assert batch[..i] == batch;
    }

    method RefreshUsage(holder: nat, batch: seq<Usage>, now: int) returns (answer: Allocation)
      requires holder in allocations
      modifies this
      ensures Contents() == Refresh(old(Contents()), holder, batch, now, day)
      ensures answer == allocations[holder] && allocations == old(allocations)[holder := answer]
      ensures RefreshShows(old(Contents()), Contents(), holder, batch, now, day)
    {
      RefreshIsShown(Contents(), holder, batch, now, day);
      answer := Pull(holder, batch, now);
    }

    method Pull(holder: nat, batch: seq<Usage>, now: int) returns (answer: Allocation)
      requires holder in allocations
      modifies this
      ensures Contents() == Refresh(old(Contents()), holder, batch, now, day)
      ensures answer == allocations[holder]
    {
      var allocation := allocations[holder];
      RefreshIs(Contents(), holder, batch, now, day);
      if allocation.status == Revoked {
        assert allocations == allocations[holder := allocation];
        return allocation;
      }
      if allocation.expiresAt <= now && allocation.status != Expired {
        answer := allocation.(status := Expired);
        allocations := allocations[holder := answer];
        return;
      }
      var today := day(now);
      var dayChanged := allocation.usageDay.None? || day(allocation.usageDay.value) != today;
      var usedToday := if dayChanged then 0 else allocation.usedTodayBytes;
      var usedTotal := allocation.usedBytes;
      if allocation.status == Active {
        usedTotal, usedToday := Fold(holder, batch, today, usedTotal, usedToday);
      }
      var exhausted := usedTotal >= allocation.totalBytes;
      var dailyReached := allocation.dailyBytes.Some? && usedToday >= allocation.dailyBytes.value;
      answer := allocation.(usedBytes := usedTotal, usedTodayBytes := usedToday, usageDay := Some(today));
      if exhausted || dailyReached {
        answer := answer.(status := Paused, pausedAt := Some(now));
      }
      assert answer == Written(allocation, usedTotal, usedToday, now, day);
      allocations := allocations[holder := answer];
    }
  }

  // ---------------------------------------------------------------------------
  // What recording does
  // ---------------------------------------------------------------------------

  ghost predicate DistinctRefs(events: seq<Event>) {
    forall i, j :: 0 <= i < j < |events| ==> events[i].usage.ref != events[j].usage.ref
  }

  /**
   * Recording appends events of this holder from this batch and nothing else, keeps
   * references distinct, and leaves no reference of the batch out of the log.
   */
  lemma {:induction false} RecordedOnce(events: seq<Event>, holder: nat, batch: seq<Usage>)
    requires DistinctRefs(events)
    ensures var log := Recorded(events, holder, batch);
      && DistinctRefs(log)
      && (forall i :: |events| <= i < |log| ==> log[i].holder == holder && log[i].usage in batch)
      && (forall i :: 0 <= i < |batch| ==> Logged(log, batch[i].ref))
    decreases |batch|
  {
    if batch != [] {
      var n := |batch| - 1;
      var log, longer := Recorded(events, holder, batch[..n]), Recorded(events, holder, batch);
      RecordedOnce(events, holder, batch[..n]);
      assert batch == batch[..n] + [batch[n]];
      KnownStays(log, longer);
      assert longer[|longer| - 1].usage.ref == batch[n].ref || Known(log, batch[n].ref);
      forall i | 0 <= i < |batch|
        ensures Known(longer, batch[i].ref)
      {
        if i < n {
          assert batch[..n][i] == batch[i];
        }
      }
    }
  }

  lemma KnownStays(log: seq<Event>, longer: seq<Event>)
    requires log <= longer
    ensures forall ref :: Known(log, ref) ==> Known(longer, ref)
  {
    forall ref | Known(log, ref)
      ensures Known(longer, ref)
    {
      var i :| 0 <= i < |log| && log[i].usage.ref == ref;
      assert longer[i].usage.ref == ref;
    }
  }

  lemma {:induction false} NothingNew(events: seq<Event>, holder: nat, batch: seq<Usage>)
    requires forall i :: 0 <= i < |batch| ==> Known(events, batch[i].ref)
    ensures Recorded(events, holder, batch) == events
    decreases |batch|
  {
    if batch != [] {
      var n := |batch| - 1;
      assert forall i :: 0 <= i < n ==> batch[..n][i] == batch[i];
      NothingNew(events, holder, batch[..n]);
    }
  }

  /** A batch that overlaps or repeats an earlier one adds only what is not in the log yet. */
  lemma ReplayAddsNothing(events: seq<Event>, holder: nat, batch: seq<Usage>, again: seq<Usage>)
    requires DistinctRefs(events) && forall u :: u in again ==> u in batch
    ensures Recorded(Recorded(events, holder, batch), holder, again) == Recorded(events, holder, batch)
  {
    var log := Recorded(events, holder, batch);
    RecordedOnce(events, holder, batch);
    forall i | 0 <= i < |again|
      ensures Known(log, again[i].ref)
    {
      assert again[i] in batch;
    }
    NothingNew(log, holder, again);
  }

  /** Another holder's totals do not move. */
  lemma {:induction false} OthersUntouched(events: seq<Event>, holder: nat, batch: seq<Usage>, other: nat,
                                           date: int, day: int -> int)
    requires other != holder
    ensures var log := Recorded(events, holder, batch);
      Total(log, other) == Total(events, other) && TotalOn(log, other, date, day) == TotalOn(events, other, date, day)
    decreases |batch|
  {
    if batch != [] {
      var n := |batch| - 1;
      OthersUntouched(events, holder, batch[..n], other, date, day);
      TotalSnoc(Recorded(events, holder, batch[..n]), Event(holder, batch[n]), other, date, day);
    }
  }

  lemma {:induction false} NothingOnThatDay(events: seq<Event>, holder: nat, date: int, day: int -> int)
    requires forall i :: 0 <= i < |events| && events[i].holder == holder ==> day(events[i].usage.at) != date
    ensures TotalOn(events, holder, date, day) == 0
    decreases |events|
  {
    if events != [] {
      NothingOnThatDay(events[..|events| - 1], holder, date, day);
    }
  }

  // ---------------------------------------------------------------------------
  // One refresh
  // ---------------------------------------------------------------------------

  /** Whether a refresh gets as far as writing the totals. */
  predicate Settles(a: Allocation, now: int) {
    a.status != Revoked && (a.expiresAt > now || a.status == Expired)
  }

  /**
   * The daily figure after a refresh, exactly: it is the log's total for today if and
   * only if, where the day has changed, nothing recorded earlier was dated today.
   */
  lemma DailyFigureAgreesIff(db: Db, holder: nat, batch: seq<Usage>, now: int, day: int -> int)
    requires holder in db.allocations && Settles(db.allocations[holder], now)
    requires !DayChanged(db.allocations[holder], now, day) ==>
      db.allocations[holder].usedTodayBytes == TotalOn(db.events, holder, day(now), day)
    ensures var after := Refresh(db, holder, batch, now, day);
      after.allocations[holder].usedTodayBytes == TotalOn(after.events, holder, day(now), day)
      <==> (DayChanged(db.allocations[holder], now, day) ==> TotalOn(db.events, holder, day(now), day) == 0)
  {
  }

  /** An answer of `active` is strictly under both limits, and was active before. */
  lemma ActiveIsUnderBothLimits(db: Db, holder: nat, batch: seq<Usage>, now: int, day: int -> int)
    requires holder in db.allocations
    requires Refresh(db, holder, batch, now, day).allocations[holder].status == Active
    ensures var a := Refresh(db, holder, batch, now, day).allocations[holder];
      && a.usedBytes < a.totalBytes && (a.dailyBytes.Some? ==> a.usedTodayBytes < a.dailyBytes.value)
      && now < a.expiresAt && db.allocations[holder].status == Active
  {
  }

  /** An event dated tomorrow is missing from tomorrow's figure. */
  lemma FutureEventIsMissed(day: int -> int)
    requires day(0) == day(10) == 0 && day(86_400_000) == day(86_400_005) == 86_400_000
    ensures
      var db0 := Db(map[0 := Allocation(Active, 1000, None, 0, 0, None, 999_999_999, None, None)], []);
      var db1 := Refresh(db0, 0, [Usage("a", 7, 86_400_005)], 10, day);
      var db2 := Refresh(db1, 0, [], 86_400_005, day);
      && TotalOn(db2.events, 0, 86_400_000, day) == 7 && db2.allocations[0].usedTodayBytes == 0
      && db2.allocations[0].usageDay == Some(86_400_000) && db2.allocations[0].usedBytes == 7
  {
    var db0 := Db(map[0 := Allocation(Active, 1000, None, 0, 0, None, 999_999_999, None, None)], []);
    var u := Usage("a", 7, 86_400_005);
    assert [u][..0] == [];
    assert Recorded([], 0, [u][..0]) == [];
    var log := Recorded([], 0, [u]);
    assert !Known([], "a");
    assert log == [Event(0, u)];
    TotalSnoc([], Event(0, u), 0, 0, day);
    TotalSnoc([], Event(0, u), 0, 86_400_000, day);
    assert [] + [Event(0, u)] == log;
    var db1 := Refresh(db0, 0, [u], 10, day);
    assert db1.events == log;
    assert db1.allocations[0].usedBytes == 7;
    assert Recorded(log, 0, []) == log;
  }

  // ---------------------------------------------------------------------------
  // Whole runs
  // ---------------------------------------------------------------------------

  datatype Call =
    | Refreshing(holder: nat, batch: seq<Usage>, now: int)
    | Pausing(holder: nat, paused: bool, now: int)
    | Updating(holder: nat, change: Change)
    | Revoking(holder: nat, now: int)
    | Opening(holder: nat, totalBytes: int, dailyBytes: Option<int>, expiresAt: int)

  function With(db: Db, holder: nat, a: Allocation): Db {
    db.(allocations := db.allocations[holder := a])
  }

  function Apply(db: Db, c: Call, day: int -> int): Db {
    if c.Opening? then With(db, c.holder, Granted(db, c.holder, c.totalBytes, c.dailyBytes, c.expiresAt))
    else if c.holder !in db.allocations then db
    else
      var a := db.allocations[c.holder];
      match c
      case Refreshing(holder, batch, now) => Refresh(db, holder, batch, now, day)
      case Pausing(holder, paused, now) => With(db, holder, Pause(a, paused, now))
      case Updating(holder, change) => With(db, holder, Update(a, change).GetOr(a))
      case Revoking(holder, now) => With(db, holder, a.(status := Revoked, revokedAt := Some(now)))
  }

  /** The clock a call reads, where it matters to the totals. */
  function Clock(c: Call, before: int): int {
    if c.Refreshing? then c.now else before
  }

  /** The clock does not go back between refreshes, and nothing is dated after it is pulled. */
  ghost predicate Timely(c: Call, clock: int) {
    c.Refreshing? ==> clock <= c.now && forall u :: u in c.batch ==> u.at <= c.now
  }

  ghost predicate Agrees(a: Allocation, holder: nat, events: seq<Event>, clock: int, day: int -> int) {
    && a.usedBytes == Total(events, holder)
    && (a.usageDay.None? ==> a.usedTodayBytes == 0)
    && (a.usageDay.Some? ==>
          && day(a.usageDay.value) == a.usageDay.value <= day(clock)
          && a.usedTodayBytes == TotalOn(events, holder, a.usageDay.value, day))
    && (a.usageDay.None? ==> forall i :: 0 <= i < |events| ==> events[i].holder != holder)
    && (a.usageDay.Some? ==> DatedBy(events, holder, a.usageDay.value, day))
  }

  ghost predicate Inv(db: Db, clock: int, day: int -> int) {
    && DistinctRefs(db.events)
    && (forall i :: 0 <= i < |db.events| ==> db.events[i].holder in db.allocations)
    && (forall h :: h in db.allocations ==> Agrees(db.allocations[h], h, db.events, clock, day))
  }

  lemma NothingDatedTodayYet(a: Allocation, holder: nat, events: seq<Event>, now: int, clock: int, day: int -> int)
    requires Calendar(day) && Agrees(a, holder, events, clock, day) && clock <= now
    ensures DatedBy(events, holder, day(now), day)
    ensures DayChanged(a, now, day) ==> TotalOn(events, holder, day(now), day) == 0
    ensures !DayChanged(a, now, day) ==> a.usedTodayBytes == TotalOn(events, holder, day(now), day)
  {
    assert day(clock) <= day(now);
    if DayChanged(a, now, day) {
      NothingOnThatDay(events, holder, day(now), day);
    }
  }

  /** What a refresh that settles leaves: totals of the log, dated today at the latest. */
  lemma SettledAgrees(db: Db, holder: nat, batch: seq<Usage>, now: int, clock: int, day: int -> int)
    requires Calendar(day) && holder in db.allocations
    requires Agrees(db.allocations[holder], holder, db.events, clock, day)
    requires Timely(Refreshing(holder, batch, now), clock) && Settles(db.allocations[holder], now)
    ensures var after := Refresh(db, holder, batch, now, day);
      var a := after.allocations[holder];
      && a.usedBytes == Total(after.events, holder) && a.usageDay == Some(day(now))
      && a.usedTodayBytes == TotalOn(after.events, holder, day(now), day)
      && DatedBy(after.events, holder, day(now), day)
  {
    NothingDatedTodayYet(db.allocations[holder], holder, db.events, now, clock, day);
    DailyFigureAgreesIff(db, holder, batch, now, day);
    NothingDatedLater(db.events, holder, batch, now, day);
  }

  lemma RefreshAgrees(db: Db, holder: nat, batch: seq<Usage>, now: int, clock: int, day: int -> int)
    requires Calendar(day) && Inv(db, clock, day) && holder in db.allocations
    requires Timely(Refreshing(holder, batch, now), clock)
    ensures var after := Refresh(db, holder, batch, now, day);
      Agrees(after.allocations[holder], holder, after.events, now, day)
  {
    var a := db.allocations[holder];
    assert Agrees(a, holder, db.events, clock, day);
    assert day(clock) <= day(now);
    if Settles(a, now) {
      SettledAgrees(db, holder, batch, now, clock, day);
      assert day(day(now)) == day(now);
    } else {
      assert !Polls(a, now);
    }
  }

  ghost predicate DatedBy(events: seq<Event>, holder: nat, limit: int, day: int -> int) {
    forall i :: 0 <= i < |events| && events[i].holder == holder ==> day(events[i].usage.at) <= limit
  }

  lemma {:induction false} NothingDatedLater(
      events: seq<Event>, holder: nat, batch: seq<Usage>, now: int, day: int -> int)
    requires Calendar(day) && forall u :: u in batch ==> u.at <= now
    requires DatedBy(events, holder, day(now), day)
    ensures DatedBy(Recorded(events, holder, batch), holder, day(now), day)
    decreases |batch|
  {
    if batch == [] {
      assert Recorded(events, holder, batch) == events;
    } else {
      var u := batch[|batch| - 1];
      assert u in batch;
      assert day(u.at) <= day(now);
      NothingDatedLater(events, holder, batch[..|batch| - 1], now, day);
    }
  }

  lemma OthersAgree(db: Db, holder: nat, batch: seq<Usage>, now: int, clock: int, day: int -> int, other: nat)
    requires Calendar(day) && Inv(db, clock, day) && holder in db.allocations && other in db.allocations
    requires Timely(Refreshing(holder, batch, now), clock) && other != holder
    ensures var after := Refresh(db, holder, batch, now, day);
      Agrees(after.allocations[other], other, after.events, now, day)
  {
    var a, log := db.allocations[other], Refresh(db, holder, batch, now, day).events;
    RecordedOnce(db.events, holder, batch);
    OthersUntouched(db.events, holder, batch, other, if a.usageDay.Some? then a.usageDay.value else 0, day);
    forall i | 0 <= i < |log| && log[i].holder == other
      ensures i < |db.events| && log[i] == db.events[i]
    {
    }
  }

  lemma CallKeepsInv(db: Db, c: Call, clock: int, day: int -> int)
    requires Calendar(day) && Inv(db, clock, day) && Timely(c, clock)
    ensures Inv(Apply(db, c, day), Clock(c, clock), day)
  {
    if c.Refreshing? && c.holder in db.allocations {
      RecordedOnce(db.events, c.holder, c.batch);
      RefreshAgrees(db, c.holder, c.batch, c.now, clock, day);
      forall h | h in db.allocations && h != c.holder
        ensures Agrees(db.allocations[h], h, Apply(db, c, day).events, c.now, day)
      {
        OthersAgree(db, c.holder, c.batch, c.now, clock, day, h);
      }
    } else if c.Opening? && c.holder !in db.allocations {
      NothingYet(db.events, c.holder);
    }
  }

  lemma {:induction false} NothingYet(events: seq<Event>, holder: nat)
    requires forall i :: 0 <= i < |events| ==> events[i].holder != holder
    ensures Total(events, holder) == 0
    decreases |events|
  {
    if events != [] {
      NothingYet(events[..|events| - 1], holder);
    }
  }

  function After(calls: seq<Call>, day: int -> int): Db
    decreases |calls|
  {
    if calls == [] then Db(map[], []) else Apply(After(calls[..|calls| - 1], day), calls[|calls| - 1], day)
  }

  function ClockAfter(calls: seq<Call>, start: int): int
    decreases |calls|
  {
    if calls == [] then start else Clock(calls[|calls| - 1], ClockAfter(calls[..|calls| - 1], start))
  }

  ghost predicate TimelyRun(calls: seq<Call>, start: int)
    decreases |calls|
  {
    calls == [] ||
    (TimelyRun(calls[..|calls| - 1], start) && Timely(calls[|calls| - 1], ClockAfter(calls[..|calls| - 1], start)))
  }

  lemma {:induction false} RunKeepsInv(calls: seq<Call>, start: int, day: int -> int)
    requires Calendar(day) && TimelyRun(calls, start)
    ensures Inv(After(calls, day), ClockAfter(calls, start), day)
    decreases |calls|
  {
    if calls != [] {
      var before := calls[..|calls| - 1];
      RunKeepsInv(before, start, day);
      CallKeepsInv(After(before, day), calls[|calls| - 1], ClockAfter(before, start), day);
    }
  }

  /**
   * After any run of grants, pauses, changes, revocations and refreshes with
   * overlapping or repeated batches, the cached totals are those of the log, in which
   * no reference occurs twice.
   */
  lemma TotalsAgreeWithLog(calls: seq<Call>, start: int, day: int -> int, holder: nat)
    requires Calendar(day) && TimelyRun(calls, start) && holder in After(calls, day).allocations
    ensures var db := After(calls, day);
      var a := db.allocations[holder];
      && DistinctRefs(db.events)
      && a.usedBytes == Total(db.events, holder)
      && (a.usageDay.Some? ==> a.usedTodayBytes == TotalOn(db.events, holder, a.usageDay.value, day))
      && (a.usageDay.None? ==> a.usedTodayBytes == a.usedBytes == 0)
  {
    RunKeepsInv(calls, start, day);
    var db := After(calls, day);
    if db.allocations[holder].usageDay.None? {
      NothingYet(db.events, holder);
    }
  }
}
