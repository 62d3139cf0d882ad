/**
 * Cooling off after wrong passwords: from the fifth failure on each one doubles the
 * wait, up to fifteen minutes, and an hour without failures clears the count.
 * Times are milliseconds.
 */
module AccountGuard {
  import opened Text

  const THRESHOLD := 5
  const BASE_LOCK_SECONDS := 30
  const MAX_LOCK_SECONDS := 15 * 60
  const DECAY_SECONDS := 60 * 60

  datatype Guard = Guard(failures: nat, firstFailure: int, lastFailure: int, lockedUntil: Option<int>)

  function Pow2(n: nat): (p: nat)
    ensures p > 0
  {
    if n == 0 then 1 else 2 * Pow2(n - 1)
  }

  /** The wait after the n-th failure in a row. */
  function LockSeconds(failures: nat): nat {
    if failures < THRESHOLD then 0
    else
      var doubled := BASE_LOCK_SECONDS * Pow2(failures - THRESHOLD);
      if doubled < MAX_LOCK_SECONDS then doubled else MAX_LOCK_SECONDS
  }

  /** Seconds, rounded up. */
  function CeilSeconds(ms: int): int {
    (ms + 999) / 1000
  }

  function LockedFor(g: Option<Guard>, now: int): (s: nat)
    ensures s == 0 <==> !(g.Some? && g.value.lockedUntil.Some? && g.value.lockedUntil.value > now)
  {
    if g.None? || g.value.lockedUntil.None? then 0
    else
      var remaining := CeilSeconds(g.value.lockedUntil.value - now);
      if remaining > 0 then remaining else 0
  }

  /** Waiting n seconds from now outlasts the lock. */
  predicate CoversLock(g: Option<Guard>, now: int, n: nat) {
    g.Some? && g.value.lockedUntil.Some? ==> g.value.lockedUntil.value <= now + n * 1000
  }

  predicate Decayed(g: Option<Guard>, now: int) {
    g.Some? && now - g.value.lastFailure > DECAY_SECONDS * 1000
  }

  function Failed(g: Option<Guard>, now: int): Guard {
    var failures := if g.None? || Decayed(g, now) then 1 else g.value.failures + 1;
    Guard(failures,
          if g.None? || Decayed(g, now) then now else g.value.firstFailure,
          now,
          if failures >= THRESHOLD then Some(now + LockSeconds(failures) * 1000) else None)
  }

  // ---------------------------------------------------------------------------
  // Whole runs of wrong attempts
  // ---------------------------------------------------------------------------

  /**
   * Attempts at the given times, one after the other, with no success between them.
   * An attempt while the account is cooling off is turned away before its password
   * is looked at.
   */
  ghost predicate InOrder(times: seq<int>) {
    forall i, j :: 0 <= i < j < |times| ==> times[i] <= times[j]
  }

  /** The row after the first n attempts, and the times of those whose password was looked at. */
  function Attempts(start: Option<Guard>, times: seq<int>, n: nat): (Option<Guard>, seq<int>)
    requires n <= |times|
  {
    if n == 0 then (start, [])
    else
      var before := Attempts(start, times, n - 1);
      Attempt(before.0, before.1, times[n - 1])
  }

  function Attempt(g: Option<Guard>, guesses: seq<int>, now: int): (Option<Guard>, seq<int>) {
    if LockedFor(g, now) > 0 then (g, guesses) else (Some(Failed(g, now)), guesses + [now])
  }

  /** As every row is kept: at least one failure, and the lock that this many lead to. */
  ghost predicate Consistent(g: Guard) {
    && g.failures > 0
    && g.lockedUntil == (if g.failures >= THRESHOLD then Some(g.lastFailure + LockSeconds(g.failures) * 1000) else None)
  }

  /** A row there may be when a run begins. */
  ghost predicate Before(start: Option<Guard>, times: seq<int>) {
    start.Some? ==> Consistent(start.value) && (times != [] ==> start.value.lastFailure <= times[0])
  }

  /** What a run has at least paid for being at n failures in a row, beyond 450 s a guess. */
  function Slack(failures: nat): int {
    if failures <= 1 then 3150
    else if failures == 2 then 2700
    else if failures == 3 then 2250
    else if failures == 4 then 1800
    else if failures == 5 then 1350
    else if failures == 6 then 930
    else if failures == 7 then 540
    else if failures == 8 then 210
    else 0
  }

  /** One more guess moves the slack by no more than the wait before it, less 450 s. */
  lemma SlackFalls(failures: nat)
    requires failures > 0
    ensures 0 <= Slack(failures) && Slack(failures + 1) <= Slack(failures) + LockSeconds(failures) - 450
  {
    assert Pow2(0) == 1 && Pow2(1) == 2 && Pow2(2) == 4 && Pow2(3) == 8;
    if failures >= 9 {
      Pow2Grows(4, failures - THRESHOLD);
      assert Pow2(4) == 16;
    }
  }

  lemma {:induction false} Pow2Grows(a: nat, b: nat)
    requires a <= b
    ensures Pow2(a) <= Pow2(b)
  {
    if a < b {
      Pow2Grows(a, b - 1);
    }
  }

  /** What has been paid for these guesses, of which the last is the last there was. */
  ghost predicate Paid(g: Guard, guesses: seq<int>) {
    && Consistent(g) && guesses != [] && g.lastFailure == guesses[|guesses| - 1]
    && 450_000 * (|guesses| - 8) + Slack(g.failures) * 1000 <= g.lastFailure - guesses[0]
  }

  /** A guess alone has been paid for, whatever went before it. */
  lemma OneGuessIsPaid(g: Option<Guard>, now: int)
    ensures Paid(Failed(g, now), [now])
  {
    assert Slack(Failed(g, now).failures) <= 3150;
  }

  lemma NextGuessIsPaid(g: Guard, guesses: seq<int>, now: int)
    requires Paid(g, guesses) && g.lastFailure <= now && LockedFor(Some(g), now) == 0
    ensures Paid(Failed(Some(g), now), guesses + [now])
  {
    SlackFalls(g.failures);
    assert (guesses + [now])[0] == guesses[0];
    var h := Failed(Some(g), now);
    assert g.lastFailure + LockSeconds(g.failures) * 1000 <= now;
    if h.failures == 1 {
      assert now - g.lastFailure > 3_600_000;
    } else {
      assert h.failures == g.failures + 1;
    }
  }

  lemma {:induction false} RowStaysConsistent(start: Option<Guard>, times: seq<int>, n: nat)
    requires InOrder(times) && n <= |times| && Before(start, times)
    ensures var g := Attempts(start, times, n).0;
      g.Some? ==> Consistent(g.value) && (n < |times| ==> g.value.lastFailure <= times[n])
  {
    if n > 0 {
      RowStaysConsistent(start, times, n - 1);
    }
  }

  /** From each guess on, the guesses of a run have been paid for. */
  lemma {:induction false} RunIsPaid(start: Option<Guard>, times: seq<int>, n: nat, i: nat)
    requires InOrder(times) && n <= |times| && Before(start, times)
    requires i < |Attempts(start, times, n).1|
    ensures var (g, guesses) := Attempts(start, times, n);
      g.Some? && Paid(g.value, guesses[i..])
  {
    var now := times[n - 1];
    var (g, guesses) := Attempts(start, times, n - 1);
    if LockedFor(g, now) > 0 {
      RunIsPaid(start, times, n - 1, i);
    } else if i == |guesses| {
      OneGuessIsPaid(g, now);
      assert (guesses + [now])[i..] == [now];
    } else {
      RunIsPaid(start, times, n - 1, i);
      RowStaysConsistent(start, times, n - 1);
      NextGuessIsPaid(g.value, guesses[i..], now);
      assert (guesses + [now])[i..] == guesses[i..] + [now];
    }
  }

  /** The guesses up to one of them are those of a shorter run. */
  lemma {:induction false} GuessesSoFar(start: Option<Guard>, times: seq<int>, n: nat, j: nat) returns (k: nat)
    requires n <= |times| && j < |Attempts(start, times, n).1|
    ensures k <= n && Attempts(start, times, k).1 == Attempts(start, times, n).1[..j + 1]
  {
    if j + 1 == |Attempts(start, times, n).1| {
      k := n;
      assert Attempts(start, times, n).1[..j + 1] == Attempts(start, times, n).1;
    } else {
      k := GuessesSoFar(start, times, n - 1, j);
      assert Attempts(start, times, n).1[..j + 1] == Attempts(start, times, n - 1).1[..j + 1];
    }
  }

  /**
   * The guess budget: whatever row a run begins with, and whatever the mix of waiting,
   * backing off and letting the count decay, any N wrong guesses in a row of it take at
   * least 450 (N - 8) seconds.
   */
  lemma GuessBudget(start: Option<Guard>, times: seq<int>, i: nat, j: nat)
    requires InOrder(times) && Before(start, times) && i <= j < |Attempts(start, times, |times|).1|
    ensures var guesses := Attempts(start, times, |times|).1;
      450 * 1000 * ((j - i + 1) - 8) <= guesses[j] - guesses[i]
  {
    var guesses := Attempts(start, times, |times|).1;
    var k := GuessesSoFar(start, times, |times|, j);
    RunIsPaid(start, times, k, i);
    assert |guesses[..j + 1][i..]| == j - i + 1;
  }

  /** Guesses made as early as the waits allow. */
  ghost predicate Earliest(t: seq<int>) {
    && |t| == 9 && t[0] == 0 && t[1] == 0 && t[2] == 0 && t[3] == 0 && t[4] == 0
    && t[5] == 30_000 && t[6] == 90_000 && t[7] == 210_000 && t[8] == 450_000
  }

  /** The budget is met exactly by nine guesses made as early as the waits allow. */
  lemma GuessBudgetIsTight(t: seq<int>)
    requires Earliest(t)
    ensures InOrder(t) && |Attempts(None, t, 9).1| == 9 && 450 * 1000 * (9 - 8) == t[8] - t[0]
  {
    assert Pow2(0) == 1 && Pow2(1) == 2 && Pow2(2) == 4 && Pow2(3) == 8 && Pow2(4) == 16;
    assert Attempts(None, t, 1).0 == Some(Guard(1, 0, 0, None));
    assert Attempts(None, t, 2).0 == Some(Guard(2, 0, 0, None));
    assert Attempts(None, t, 3).0 == Some(Guard(3, 0, 0, None));
    assert Attempts(None, t, 4).0 == Some(Guard(4, 0, 0, None));
    assert Attempts(None, t, 5).0 == Some(Guard(5, 0, 0, Some(30_000)));
    assert Attempts(None, t, 6).0 == Some(Guard(6, 0, 30_000, Some(90_000)));
    assert Attempts(None, t, 7).0 == Some(Guard(7, 0, 90_000, Some(210_000)));
    assert Attempts(None, t, 8).0 == Some(Guard(8, 0, 210_000, Some(450_000)));
  }

  /** No wait for four failures in a row, then 30, 60, 120, 240 and 480 seconds, and 15 minutes from the tenth on. */
  ghost predicate WaitFor(failures: nat, seconds: nat) {
    && (failures <= 4 ==> seconds == 0) && (failures == 5 ==> seconds == 30) && (failures == 6 ==> seconds == 60)
    && (failures == 7 ==> seconds == 120) && (failures == 8 ==> seconds == 240)
    && (failures == 9 ==> seconds == 480) && (failures >= 10 ==> seconds == 900)
  }

  lemma WaitsGrow(failures: nat)
    ensures WaitFor(failures, LockSeconds(failures))
  {
    assert Pow2(0) == 1 && Pow2(1) == 2 && Pow2(2) == 4 && Pow2(3) == 8 && Pow2(4) == 16;
    if failures >= 10 {
      Pow2Grows(5, failures - THRESHOLD);
      assert Pow2(5) == 32;
    }
  }

  // ---------------------------------------------------------------------------
  // The service
  // ---------------------------------------------------------------------------

  class AccountGuardService {
    var guards: map<string, Guard>

    function Row(userId: string): Option<Guard>
      reads this
    {
      if userId in guards then Some(guards[userId]) else None
    }

    ghost predicate Valid()
      reads this
    {
      forall u :: u in guards ==> Consistent(guards[u])
    }

    constructor ()
      ensures guards == map[] && Valid()
    {
      guards := map[];
    }

    method LockedForSeconds(userId: string, now: int) returns (s: nat)
      ensures s == LockedFor(Row(userId), now)
      ensures forall n: nat :: CoversLock(Row(userId), now, n) <==> s <= n
    {
      if userId !in guards { return 0; }
      if guards[userId].lockedUntil.None? { return 0; }
      var remaining := CeilSeconds(guards[userId].lockedUntil.value - now);
      return if remaining > 0 then remaining else 0;
    }

    /** Records a wrong password and returns the wait that follows, in seconds. */
    method RecordFailure(userId: string, now: int) returns (wait: nat)
      modifies this
      ensures guards == old(guards)[userId := Failed(old(Row(userId)), now)]
      ensures wait == LockSeconds(guards[userId].failures) == LockedFor(Row(userId), now)
      ensures old(Valid()) ==> Valid()
      ensures var g, before := guards[userId], old(Row(userId));
        var again := before.Some? && now <= before.value.lastFailure + 3_600_000;
        && g.failures == (if again then before.value.failures + 1 else 1)
        && g.firstFailure == (if again then before.value.firstFailure else now)
        && g.lastFailure == now && WaitFor(g.failures, wait)
        && g.lockedUntil == (if g.failures >= 5 then Some(now + wait * 1000) else None)
    {
      WaitsGrow(if userId !in guards || Decayed(Row(userId), now) then 1 else guards[userId].failures + 1);
      var decayed := userId in guards && now - guards[userId].lastFailure > DECAY_SECONDS * 1000;
      var failures := if userId !in guards || decayed then 1 else guards[userId].failures + 1;
      var lockedUntil := None;
      if failures >= THRESHOLD {
        var over := failures - THRESHOLD;
        var seconds := BASE_LOCK_SECONDS * Pow2(over);
        if seconds > MAX_LOCK_SECONDS { seconds := MAX_LOCK_SECONDS; }
        lockedUntil := Some(now + seconds * 1000);
      }
      if userId !in guards {
        guards := guards[userId := Guard(failures, now, now, lockedUntil)];
      } else {
        var firstFailure := if decayed then now else guards[userId].firstFailure;
        guards := guards[userId := Guard(failures, firstFailure, now, lockedUntil)];
      }
      wait := if lockedUntil.Some? then CeilSeconds(lockedUntil.value - now) else 0;
    }

    method RecordSuccess(userId: string)
      modifies this
      ensures guards == old(guards) - {userId}
      ensures old(Valid()) ==> Valid()
    {
      guards := guards - {userId};
    }

    /** A sign-in attempt with a wrong password, as the sign-in handler runs it. */
    method WrongPassword(userId: string, now: int) returns (guessed: bool)
      modifies this
      ensures guessed <==> LockedFor(old(Row(userId)), now) == 0
      ensures guards == if guessed then old(guards)[userId := Failed(old(Row(userId)), now)] else old(guards)
      ensures old(Valid()) ==> Valid()
    {
      var wait := LockedForSeconds(userId, now);
      if wait > 0 { return false; }
      wait := RecordFailure(userId, now);
      return true;
    }
  }
}
