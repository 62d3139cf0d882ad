/**
 * Input events on one remote-desktop session: a view-only session refuses them all,
 * a control session lets at most so many through in a second. Times are nanoseconds.
 */
module InputSession {
  import opened Clock
  import opened Text

  const EVENTS_PER_SECOND := 200
  const SECOND := 1000 * TICKS

  /** The counter: when its window began, none before the first event, and how many it let through. */
  datatype Counter = Counter(window: Option<int>, inWindow: nat)

  function Rolled(c: Counter, now: int): Counter {
    if c.window.None? || now - c.window.value >= SECOND then Counter(Some(now), 0) else c
  }

  predicate Allows(c: Counter, now: int) {
    Rolled(c, now).inWindow < EVENTS_PER_SECOND
  }

  function After(c: Counter, now: int): Counter {
    var r := Rolled(c, now);
    if Allows(c, now) then r.(inWindow := r.inWindow + 1) else r
  }

  /** How many of the events at the given times are let through. */
  function Passed(c: Counter, times: seq<int>): nat
    decreases |times|
  {
    if times == [] then 0
    else (if Allows(c, times[0]) then 1 else 0) + Passed(After(c, times[0]), times[1..])
  }

  ghost predicate Within(times: seq<int>, lo: int, hi: int) {
    && (forall i :: 0 <= i < |times| ==> lo <= times[i] <= hi)
    && (forall i, j :: 0 <= i < j < |times| ==> times[i] <= times[j])
  }

  function Room(c: Counter): nat {
    if c.inWindow < EVENTS_PER_SECOND then EVENTS_PER_SECOND - c.inWindow else 0
  }

  function Allowance(c: Counter, start: int): nat {
    if c.window.Some? && c.window.value > start then Room(c)
    else if c.window.Some? && c.window.value > start - SECOND then Room(c) + EVENTS_PER_SECOND
    else 2 * EVENTS_PER_SECOND
  }

  lemma {:induction false} AllowanceBounds(c: Counter, times: seq<int>, start: int, now: int)
    requires start <= now && Within(times, now, start + SECOND)
    ensures Passed(c, times) <= Allowance(c, start)
    decreases |times|
  {
    if times != [] {
      AllowanceBounds(After(c, times[0]), times[1..], start, times[0]);
    }
  }

  /** At most 400 events get through in any second, its two ends included, whatever came before. */
  lemma FloodBound(c: Counter, times: seq<int>, start: int)
    requires Within(times, start, start + SECOND)
    ensures Passed(c, times) <= 400
  {
    AllowanceBounds(c, times, start, start);
  }

  /** The same moment n times over. */
  function Moments(now: int, n: nat): seq<int> {
    if n == 0 then [] else [now] + Moments(now, n - 1)
  }

  lemma PassedFirst(c: Counter, now: int, rest: seq<int>)
    ensures Passed(c, [now] + rest) == (if Allows(c, now) then 1 else 0) + Passed(After(c, now), rest)
  {
    assert ([now] + rest)[1..] == rest;
  }

  function Filled(c: Counter, now: int, n: nat): Counter {
    if n == 0 then c else Counter(Rolled(c, now).window, Rolled(c, now).inWindow + n)
  }

  /** Events the window has room for, which the first of them may open, are all let through. */
  lemma {:induction false} MomentsFill(c: Counter, now: int, n: nat, rest: seq<int>)
    requires Rolled(c, now).inWindow + n <= EVENTS_PER_SECOND
    ensures Passed(c, Moments(now, n) + rest) == n + Passed(Filled(c, now, n), rest)
    decreases n
  {
    if n == 0 {
      assert Moments(now, n) + rest == rest;
    } else {
      var later := Moments(now, n - 1) + rest;
      assert Moments(now, n) + rest == [now] + later;
      PassedFirst(c, now, later);
      MomentsFill(After(c, now), now, n - 1, rest);
      assert Filled(After(c, now), now, n - 1) == Filled(c, now, n);
    }
  }

  lemma {:induction false} MomentsAre(now: int, n: nat)
    ensures |Moments(now, n)| == n && forall i :: 0 <= i < n ==> Moments(now, n)[i] == now
  {
    if n > 0 {
      MomentsAre(now, n - 1);
    }
  }

  lemma TwoFullWindows(start: int, n: nat) returns (times: seq<int>)
    requires n == EVENTS_PER_SECOND
    ensures Within(times, start, start + SECOND)
    ensures Passed(Counter(None, 0), times) == n + n
  {
    var first, second := Moments(start, n), Moments(start + SECOND, n);
    times := first + (second + []);
    MomentsAre(start, n);
    MomentsAre(start + SECOND, n);
    MomentsFill(Counter(None, 0), start, n, second + []);
    MomentsFill(Counter(Some(start), n), start + SECOND, n, []);
  }

  /** 400 is reached: 200 events at once, and 200 more a second later. */
  lemma FloodBoundIsTight(start: int) returns (times: seq<int>)
    ensures Within(times, start, start + SECOND)
    ensures Passed(Counter(None, 0), times) == 400
  {
    times := TwoFullWindows(start, EVENTS_PER_SECOND);
  }

  datatype Mode = View | Control

  datatype Outcome = Applied | ViewOnly | RateLimited | Rejected

  /** `taken` is the sum of everything TakeRefused has handed out. */
  class Session {
    const mode: Mode
    var applied: nat
    var refused: nat
    var counter: Counter
    ghost var taken: nat
    ghost var attempts: nat

    /** Every event offered to a view-only session is counted once and never applied; a control session refuses none. */
    ghost predicate Valid()
      reads this
    {
      && (mode.View? ==> applied == 0 && taken + refused == attempts)
      && (mode.Control? ==> taken == refused == 0 && applied <= attempts)
    }

    constructor (mode: Mode)
      ensures Valid() && this.mode == mode && applied == refused == 0 && counter == Counter(None, 0) && attempts == 0
    {
      this.mode := mode;
      applied, refused, taken, attempts, counter := 0, 0, 0, 0, Counter(None, 0);
    }

    method Allow(now: int) returns (ok: bool)
      modifies this`counter
      ensures ok == Allows(old(counter), now) && counter == After(old(counter), now)
      ensures var c := old(counter);
        if c.window.None? || now - c.window.value >= 1_000_000_000 then ok && counter == Counter(Some(now), 1)
        else if c.inWindow < 200 then ok && counter == Counter(c.window, c.inWindow + 1)
        else !ok && counter == c
    {
      if counter.window.None? || now - counter.window.value >= SECOND {
        counter := Counter(Some(now), 0);
      }
      if counter.inWindow >= EVENTS_PER_SECOND { return false; }
      counter := counter.(inWindow := counter.inWindow + 1);
      return true;
    }

    /** The mode is looked at before anything else; `wellFormed` says that the event decodes and applies. */
    method HandleInput(wellFormed: bool, now: int) returns (o: Outcome)
      requires Valid()
      modifies this
      ensures Valid() && attempts == old(attempts) + 1 && taken == old(taken)
      ensures mode.View? ==> o.ViewOnly? && refused == old(refused) + 1 && counter == old(counter)
      ensures mode.Control? ==>
        && counter == After(old(counter), now)
        && o == (if !Allows(old(counter), now) then RateLimited else if wellFormed then Applied else Rejected)
      ensures applied == old(applied) + (if o.Applied? then 1 else 0)
    {
      attempts := attempts + 1;
      if mode != Control {
        refused := refused + 1;
        return ViewOnly;
      }
      var ok := Allow(now);
      if !ok { return RateLimited; }
      if !wellFormed { return Rejected; }
      applied := applied + 1;
      return Applied;
    }

    /** Hands the count out and starts it over, so that repeated reports add up to the attempts. */
    method TakeRefused() returns (n: nat)
      requires Valid()
      modifies this`refused, this`taken
      ensures Valid() && n == old(refused) && refused == 0 && taken == old(taken) + n
    {
      n := refused;
      taken := taken + n;
      refused := 0;
    }
  }
}
