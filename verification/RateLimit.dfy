/**
 * Fixed-window rate limiting: counters in one process's memory, and counters in a
 * table that any number of processes share. Times are milliseconds.
 */
module RateLimit {
  import opened Text

  const SWEEP_EVERY_MS := 60_000

  datatype Bucket = Bucket(count: nat, resetAt: int)

  datatype Result = Result(allowed: bool, remaining: int, retryAfterSeconds: int)

  type Buckets = map<string, Bucket>

  // ---------------------------------------------------------------------------
  // One call, as a function of the counters
  // ---------------------------------------------------------------------------

  function Swept(b: Buckets, now: int): Buckets {
    map k | k in b && !(b[k].resetAt <= now) :: b[k]
  }

  predicate SweepDue(lastSweep: int, now: int) {
    now - lastSweep >= SWEEP_EVERY_MS
  }

  function Denied(b: Bucket, now: int): Result {
    var wait := (b.resetAt - now + 999) / 1000;
    Result(false, 0, if wait > 1 then wait else 1)
  }

  /** What both kinds of store leave behind. */
  function Counted(b: Buckets, key: string, windowSeconds: int, now: int): Bucket {
    if key !in b || b[key].resetAt <= now then Bucket(1, now + windowSeconds * 1000)
    else b[key].(count := b[key].count + 1)
  }

  /** The in-memory answer: the first hit of a window is let through unseen. */
  function MemoryAnswer(b: Buckets, key: string, limit: int, windowSeconds: int, now: int): Result {
    var c := Counted(b, key, windowSeconds, now);
    if key !in b || b[key].resetAt <= now then Result(true, limit - 1, 0)
    else if c.count > limit then Denied(c, now)
    else Result(true, limit - c.count, 0)
  }

  /** The shared-table answer: every hit is held against the limit. */
  function TableAnswer(b: Buckets, key: string, limit: int, windowSeconds: int, now: int): Result {
    var c := Counted(b, key, windowSeconds, now);
    if c.count > limit then Denied(c, now) else Result(true, limit - c.count, 0)
  }

  // ---------------------------------------------------------------------------
  // What a caller sees
  // ---------------------------------------------------------------------------

  /** One hit more in the open window, or the first of a new one; of the others only closed windows may go. */
  ghost predicate Tallied(before: Buckets, after: Buckets, key: string, windowSeconds: int, now: int) {
    && key in after
    && (if key in before && now < before[key].resetAt
        then after[key].count == before[key].count + 1 && after[key].resetAt == before[key].resetAt
        else after[key].count == 1 && after[key].resetAt == now + windowSeconds * 1000)
    && (forall k :: k in after && k != key ==> k in before && after[k] == before[k])
    && (forall k :: k in before && k != key && now < before[k].resetAt ==> k in after)
  }

  /**
   * Let through with what is left of the limit, or told how long to wait: the least whole
   * seconds, one at least, after which the window has closed.
   */
  ghost predicate Answers(r: Result, through: bool, b: Bucket, limit: int, now: int) {
    && r.allowed == through
    && (through ==> r.remaining == limit - b.count && r.retryAfterSeconds == 0)
    && (!through ==>
          && r.remaining == 0
          && forall n: int :: r.retryAfterSeconds <= n <==> 1 <= n && b.resetAt <= now + n * 1000)
  }

  /** Nothing, or a minute after the last time exactly the closed windows dropped. */
  ghost predicate Swept60(before: Buckets, after: Buckets, lastSweep: int, now: int) {
    if now - lastSweep < 60_000 then after == before
    else
      && (forall k :: k in after <==> k in before && now < before[k].resetAt)
      && (forall k :: k in after ==> after[k] == before[k])
  }

  // ---------------------------------------------------------------------------
  // The stores
  // ---------------------------------------------------------------------------

  class MemoryRateLimitStore {
    var buckets: Buckets
    var lastSweep: int

    constructor ()
      ensures buckets == map[] && lastSweep == 0
    {
      buckets, lastSweep := map[], 0;
    }

    method Consume(key: string, limit: int, windowSeconds: int, now: int) returns (r: Result)
      modifies this
      ensures var held := if SweepDue(old(lastSweep), now) then Swept(old(buckets), now) else old(buckets);
        && r == MemoryAnswer(held, key, limit, windowSeconds, now)
        && buckets == held[key := Counted(held, key, windowSeconds, now)]
      ensures Tallied(old(buckets), buckets, key, windowSeconds, now)
      ensures var opens := key !in old(buckets) || old(buckets)[key].resetAt <= now;
        Answers(r, opens || buckets[key].count <= limit, buckets[key], limit, now)
      ensures lastSweep == if SweepDue(old(lastSweep), now) then now else old(lastSweep)
    {
      Sweep(now);
      if key !in buckets || buckets[key].resetAt <= now {
        buckets := buckets[key := Bucket(1, now + windowSeconds * 1000)];
        return Result(true, limit - 1, 0);
      }
      buckets := buckets[key := buckets[key].(count := buckets[key].count + 1)];
      var bucket := buckets[key];
      if bucket.count > limit {
        return Denied(bucket, now);
      }
      return Result(true, limit - bucket.count, 0);
    }

    method Reset(key: string)
      modifies this`buckets
      ensures buckets == old(buckets) - {key}
    {
      buckets := buckets - {key};
    }

    /** Drops expired buckets, at most once a minute. */
    method Sweep(now: int)
      modifies this
      ensures buckets == if SweepDue(old(lastSweep), now) then Swept(old(buckets), now) else old(buckets)
      ensures Swept60(old(buckets), buckets, old(lastSweep), now)
      ensures lastSweep == if SweepDue(old(lastSweep), now) then now else old(lastSweep)
    {
      if now - lastSweep < SWEEP_EVERY_MS { return; }
      lastSweep := now;
      var keys := buckets.Keys;
      while keys != {}
        invariant lastSweep == now && keys <= buckets.Keys <= old(buckets).Keys
        invariant forall k :: k in buckets ==> buckets[k] == old(buckets)[k]
        invariant forall k :: k in old(buckets).Keys - keys ==> (k in buckets <==> old(buckets)[k].resetAt > now)
      {
        var key :| key in keys;
        keys := keys - {key};
        if buckets[key].resetAt <= now {
          buckets := buckets - {key};
        }
      }
      assert buckets == Swept(old(buckets), now);
    }
  }

  /** The table the instances share. */
  class BucketTable {
    var rows: Buckets

    constructor ()
      ensures rows == map[]
    {
      rows := map[];
    }
  }

  class PostgresRateLimitStore {
    const table: BucketTable
    var lastSweep: int

    constructor (table: BucketTable)
      ensures this.table == table && lastSweep == 0
    {
      this.table, lastSweep := table, 0;
    }

    /** One statement inserts the row or counts it up, and starts it over when its window has passed. */
    method Consume(key: string, limit: int, windowSeconds: int, now: int) returns (r: Result)
      modifies this, table
      ensures var held := if SweepDue(old(lastSweep), now) then Swept(old(table.rows), now) else old(table.rows);
        && r == TableAnswer(held, key, limit, windowSeconds, now)
        && table.rows == held[key := Counted(held, key, windowSeconds, now)]
      ensures Tallied(old(table.rows), table.rows, key, windowSeconds, now)
      ensures Answers(r, table.rows[key].count <= limit, table.rows[key], limit, now)
      ensures lastSweep == if SweepDue(old(lastSweep), now) then now else old(lastSweep)
    {
      Sweep(now);
      var resetAt := now + windowSeconds * 1000;
      var row := if key !in table.rows then Bucket(1, resetAt)
        else
          var stored := table.rows[key];
          Bucket(if stored.resetAt <= now then 1 else stored.count + 1,
                 if stored.resetAt <= now then resetAt else stored.resetAt);
      table.rows := table.rows[key := row];
      if row.count > limit {
        return Denied(row, now);
      }
      return Result(true, limit - row.count, 0);
    }

    method Reset(key: string)
      modifies table
      ensures table.rows == old(table.rows) - {key}
    {
      table.rows := table.rows - {key};
    }

    method Sweep(now: int)
      modifies this, table
      ensures table.rows == if SweepDue(old(lastSweep), now) then Swept(old(table.rows), now) else old(table.rows)
      ensures Swept60(old(table.rows), table.rows, old(lastSweep), now)
      ensures lastSweep == if SweepDue(old(lastSweep), now) then now else old(lastSweep)
    {
      if now - lastSweep < SWEEP_EVERY_MS { return; }
      lastSweep := now;
      table.rows := Swept(table.rows, now);
    }
  }

  // ---------------------------------------------------------------------------
  // Many instances over one table
  // ---------------------------------------------------------------------------

  datatype Op =
    | Consume(instance: nat, key: string, limit: int, windowSeconds: int, now: int)
    | Reset(instance: nat, key: string)

  /** Each instance's last sweep; an instance that has not swept yet starts at zero. */
  function LastSweep(sweeps: map<nat, int>, i: nat): int {
    if i in sweeps then sweeps[i] else 0
  }

  function TableRun(rows: Buckets, sweeps: map<nat, int>, ops: seq<Op>): (answers: seq<Result>)
    decreases |ops|
  {
    if ops == [] then []
    else
      match ops[0]
      case Reset(_, key) => TableRun(rows - {key}, sweeps, ops[1..])
      case Consume(i, key, limit, w, now) =>
        var due := SweepDue(LastSweep(sweeps, i), now);
        var held := if due then Swept(rows, now) else rows;
        [TableAnswer(held, key, limit, w, now)]
          + TableRun(held[key := Counted(held, key, w, now)], if due then sweeps[i := now] else sweeps, ops[1..])
  }

  /** The reference: one memory, never swept. */
  function ReferenceRun(b: Buckets, ops: seq<Op>): (answers: seq<Result>)
    decreases |ops|
  {
    if ops == [] then []
    else
      match ops[0]
      case Reset(_, key) => ReferenceRun(b - {key}, ops[1..])
      case Consume(_, key, limit, w, now) =>
        [MemoryAnswer(b, key, limit, w, now)] + ReferenceRun(b[key := Counted(b, key, w, now)], ops[1..])
  }

  /** A single memory store with its own sweeps. */
  function MemoryRun(b: Buckets, lastSweep: int, ops: seq<Op>): (answers: seq<Result>)
    decreases |ops|
  {
    if ops == [] then []
    else
      match ops[0]
      case Reset(_, key) => MemoryRun(b - {key}, lastSweep, ops[1..])
      case Consume(_, key, limit, w, now) =>
        var due := SweepDue(lastSweep, now);
        var held := if due then Swept(b, now) else b;
        [MemoryAnswer(held, key, limit, w, now)]
          + MemoryRun(held[key := Counted(held, key, w, now)], if due then now else lastSweep, ops[1..])
  }

  /** The clock readings never go back, starting from `now`. */
  ghost predicate Monotone(ops: seq<Op>, now: int)
    decreases |ops|
  {
    ops == [] ||
    match ops[0]
    case Reset(_, _) => Monotone(ops[1..], now)
    case Consume(_, _, _, _, t) => now <= t && Monotone(ops[1..], t)
  }

  function LiveBucket(b: Buckets, key: string, now: int): Option<Bucket> {
    if key in b && b[key].resetAt > now then Some(b[key]) else None
  }

  /** The two hold the same live counters; what has expired may differ. */
  ghost predicate Agree(a: Buckets, b: Buckets, now: int) {
    forall key :: LiveBucket(a, key, now) == LiveBucket(b, key, now)
  }

  lemma AgreeLater(a: Buckets, b: Buckets, now: int, later: int)
    requires Agree(a, b, now) && now <= later
    ensures Agree(a, b, later)
  {
    forall key ensures LiveBucket(a, key, later) == LiveBucket(b, key, later) {
      assert LiveBucket(a, key, now) == LiveBucket(b, key, now);
    }
  }

  lemma SweepAgrees(a: Buckets, now: int)
    ensures Agree(Swept(a, now), a, now)
  {
  }

  /** From agreeing counters a hit leaves agreeing counters. */
  lemma CountAgrees(a: Buckets, b: Buckets, key: string, w: int, now: int)
    requires Agree(a, b, now)
    ensures Counted(a, key, w, now) == Counted(b, key, w, now)
    ensures Agree(a[key := Counted(a, key, w, now)], b[key := Counted(b, key, w, now)], now)
  {
    assert LiveBucket(a, key, now) == LiveBucket(b, key, now);
    var a', b' := a[key := Counted(a, key, w, now)], b[key := Counted(b, key, w, now)];
    forall k ensures LiveBucket(a', k, now) == LiveBucket(b', k, now) {
      assert LiveBucket(a, k, now) == LiveBucket(b, k, now);
    }
  }

  /** One answer is the same in both stores exactly when the limit is positive or the window already open. */
  lemma AnswersAgreeIff(a: Buckets, b: Buckets, key: string, limit: int, w: int, now: int)
    requires Agree(a, b, now)
    ensures TableAnswer(a, key, limit, w, now) == MemoryAnswer(b, key, limit, w, now)
      <==> limit >= 1 || LiveBucket(a, key, now).Some?
  {
    assert LiveBucket(a, key, now) == LiveBucket(b, key, now);
    CountAgrees(a, b, key, w, now);
  }

  lemma ResetAgrees(a: Buckets, b: Buckets, key: string, now: int)
    requires Agree(a, b, now)
    ensures Agree(a - {key}, b - {key}, now)
  {
    forall k ensures LiveBucket(a - {key}, k, now) == LiveBucket(b - {key}, k, now) {
      assert LiveBucket(a, k, now) == LiveBucket(b, k, now);
    }
  }

  /** Every hit of the run has a positive limit or falls into an open window. */
  predicate NeverShut(b: Buckets, ops: seq<Op>)
    decreases |ops|
  {
    ops == [] ||
    match ops[0]
    case Reset(_, key) => NeverShut(b - {key}, ops[1..])
    case Consume(_, key, limit, w, now) =>
      && (limit >= 1 || LiveBucket(b, key, now).Some?)
      && NeverShut(b[key := Counted(b, key, w, now)], ops[1..])
  }

  lemma {:induction false} TableRefinesReferenceIff(
      rows: Buckets, sweeps: map<nat, int>, b: Buckets, ops: seq<Op>, now: int)
    requires Agree(rows, b, now) && Monotone(ops, now)
    ensures TableRun(rows, sweeps, ops) == ReferenceRun(b, ops) <==> NeverShut(b, ops)
    decreases |ops|
  {
    if ops != [] {
      match ops[0]
      case Reset(_, key) =>
        ResetAgrees(rows, b, key, now);
        TableRefinesReferenceIff(rows - {key}, sweeps, b - {key}, ops[1..], now);
      case Consume(i, key, limit, w, t) =>
        var due := SweepDue(LastSweep(sweeps, i), t);
        var held := if due then Swept(rows, t) else rows;
        var swept := if due then sweeps[i := t] else sweeps;
        HeldAgrees(rows, held, b, now, t);
        AnswersAgreeIff(held, b, key, limit, w, t);
        CountAgrees(held, b, key, w, t);
        var rows', b' := held[key := Counted(held, key, w, t)], b[key := Counted(b, key, w, t)];
        TableRefinesReferenceIff(rows', swept, b', ops[1..], t);
        FirstAndRest(TableAnswer(held, key, limit, w, t), TableRun(rows', swept, ops[1..]),
                     MemoryAnswer(b, key, limit, w, t), ReferenceRun(b', ops[1..]));
    }
  }

  lemma FirstAndRest<T>(x: T, xs: seq<T>, y: T, ys: seq<T>)
    ensures [x] + xs == [y] + ys <==> x == y && xs == ys
  {
    assert ([x] + xs)[0] == x && ([y] + ys)[0] == y;
    assert ([x] + xs)[1..] == xs && ([y] + ys)[1..] == ys;
  }

  /** Sweeping or not, the counters still agree when the clock has moved on. */
  lemma HeldAgrees(rows: Buckets, held: Buckets, b: Buckets, now: int, t: int)
    requires Agree(rows, b, now) && now <= t && (held == rows || held == Swept(rows, t))
    ensures Agree(held, b, t)
  {
    AgreeLater(rows, b, now, t);
    SweepAgrees(rows, t);
    forall k ensures LiveBucket(held, k, t) == LiveBucket(b, k, t) {
      assert LiveBucket(rows, k, t) == LiveBucket(b, k, t);
    }
  }

  lemma {:induction false} MemoryRefinesReference(swept: Buckets, lastSweep: int, b: Buckets, ops: seq<Op>, now: int)
    requires Agree(swept, b, now) && Monotone(ops, now)
    ensures MemoryRun(swept, lastSweep, ops) == ReferenceRun(b, ops)
    decreases |ops|
  {
    if ops != [] {
      match ops[0]
      case Reset(_, key) =>
        ResetAgrees(swept, b, key, now);
        MemoryRefinesReference(swept - {key}, lastSweep, b - {key}, ops[1..], now);
      case Consume(_, key, limit, w, t) =>
        var due := SweepDue(lastSweep, t);
        var held := if due then Swept(swept, t) else swept;
        HeldAgrees(swept, held, b, now, t);
        CountAgrees(held, b, key, w, t);
        assert LiveBucket(held, key, t) == LiveBucket(b, key, t);
        MemoryRefinesReference(held[key := Counted(held, key, w, t)], if due then t else lastSweep,
          b[key := Counted(b, key, w, t)], ops[1..], t);
    }
  }

  /**
   * Any number of instances over one table, each sweeping when it happens to, answer as
   * one memory that is never swept exactly when no hit with a limit below one opens a
   * window. A single memory store with its own sweeps always does.
   */
  lemma StoresAreInterchangeableIff(ops: seq<Op>, start: int)
    requires Monotone(ops, start)
    ensures TableRun(map[], map[], ops) == MemoryRun(map[], 0, ops) <==> NeverShut(map[], ops)
    ensures MemoryRun(map[], 0, ops) == ReferenceRun(map[], ops)
  {
    TableRefinesReferenceIff(map[], map[], map[], ops, start);
    MemoryRefinesReference(map[], 0, map[], ops, start);
  }

  // ---------------------------------------------------------------------------
  // Fixed windows bound sliding ones
  // ---------------------------------------------------------------------------

  /** How many hits on one key are let through. */
  function Admitted(b: Buckets, key: string, ops: seq<Op>): nat
    decreases |ops|
  {
    if ops == [] then 0
    else
      match ops[0]
      case Reset(_, k) => Admitted(b - {k}, key, ops[1..])
      case Consume(_, k, limit, w, now) =>
        (if k == key && MemoryAnswer(b, k, limit, w, now).allowed then 1 else 0)
          + Admitted(b[k := Counted(b, k, w, now)], key, ops[1..])
  }

  /** The key is never reset and always used with one limit and one window, within [.., end]. */
  ghost predicate Steady(ops: seq<Op>, key: string, limit: int, w: int, end: int) {
    forall i :: 0 <= i < |ops| && ops[i].key == key ==>
      ops[i].Consume? && ops[i].limit == limit && ops[i].windowSeconds == w && ops[i].now <= end
  }

  /** A window lets its first hit through even where the limit is below one. */
  function PerWindow(limit: int): nat {
    if limit >= 1 then limit else 1
  }

  function Room(b: Buckets, key: string, limit: int): nat {
    if key in b && b[key].count < PerWindow(limit) then PerWindow(limit) - b[key].count else 0
  }

  /** How much the key can still get through before `start` + one window, seen from a moment in between. */
  function Allowance(b: Buckets, key: string, limit: int, start: int, end: int): nat {
    if key in b && b[key].resetAt > end then Room(b, key, limit)
    else if key in b && b[key].resetAt > start then Room(b, key, limit) + PerWindow(limit)
    else 2 * PerWindow(limit)
  }

  lemma {:induction false} AllowanceBounds(
      b: Buckets, key: string, limit: int, w: int, ops: seq<Op>, start: int, now: int)
    requires w > 0 && start <= now && Monotone(ops, now)
    requires Steady(ops, key, limit, w, start + w * 1000)
    ensures Admitted(b, key, ops) <= Allowance(b, key, limit, start, start + w * 1000)
    decreases |ops|
  {
    if ops != [] {
      var rest := ops[1..];
      match ops[0]
      case Reset(_, k) =>
        assert k != key;
        AllowanceBounds(b - {k}, key, limit, w, rest, start, now);
      case Consume(_, k, _, v, t) =>
        AllowanceBounds(b[k := Counted(b, k, v, t)], key, limit, w, rest, start, t);
    }
  }

  /**
   * In any stretch of time as long as the window, both ends included, at most twice the
   * limit gets through, and at most two hits where the limit is below one.
   */
  lemma SlidingWindowBound(b: Buckets, key: string, limit: int, w: int, ops: seq<Op>, start: int)
    requires w > 0 && Monotone(ops, start)
    requires Steady(ops, key, limit, w, start + w * 1000)
    ensures Admitted(b, key, ops) <= 2 * PerWindow(limit)
  {
    AllowanceBounds(b, key, limit, w, ops, start, start);
  }

  /** The same hit n times over. */
  function Hits(op: Op, n: nat): seq<Op> {
    if n == 0 then [] else [op] + Hits(op, n - 1)
  }

  lemma AdmittedFirst(b: Buckets, op: Op, rest: seq<Op>)
    requires op.Consume?
    ensures Admitted(b, op.key, [op] + rest)
      == (if MemoryAnswer(b, op.key, op.limit, op.windowSeconds, op.now).allowed then 1 else 0)
         + Admitted(b[op.key := Counted(b, op.key, op.windowSeconds, op.now)], op.key, rest)
  {
    assert ([op] + rest)[1..] == rest;
  }

  lemma FirstHit(op: Op, n: nat, rest: seq<Op>)
    requires n > 0
    ensures Hits(op, n) + rest == [op] + (Hits(op, n - 1) + rest)
  {
  }

  /** Hits into an open window with room for them all are all let through. */
  lemma {:induction false} HitsFill(b: Buckets, op: Op, n: nat, rest: seq<Op>)
    requires op.Consume? && op.key in b && b[op.key].resetAt > op.now && b[op.key].count + n <= op.limit
    ensures Admitted(b, op.key, Hits(op, n) + rest)
      == n + Admitted(b[op.key := b[op.key].(count := b[op.key].count + n)], op.key, rest)
    decreases n
  {
    if n == 0 {
      assert Hits(op, n) + rest == rest && b[op.key := b[op.key]] == b;
    } else {
      var c := Counted(b, op.key, op.windowSeconds, op.now);
      FirstHit(op, n, rest);
      AdmittedFirst(b, op, Hits(op, n - 1) + rest);
      HitsFill(b[op.key := c], op, n - 1, rest);
      assert b[op.key := c][op.key := c.(count := c.count + (n - 1))]
          == b[op.key := b[op.key].(count := b[op.key].count + n)];
    }
  }

  /** As many hits as the limit, the first of which opens the window, are all let through. */
  lemma HitsOpenAndFill(b: Buckets, op: Op, rest: seq<Op>)
    requires op.Consume? && LiveBucket(b, op.key, op.now).None? && op.limit >= 1 && op.windowSeconds > 0
    ensures Admitted(b, op.key, Hits(op, op.limit) + rest)
      == op.limit + Admitted(b[op.key := Bucket(op.limit, op.now + op.windowSeconds * 1000)], op.key, rest)
  {
    var n, reset := op.limit, op.now + op.windowSeconds * 1000;
    FirstHit(op, n, rest);
    AdmittedFirst(b, op, Hits(op, n - 1) + rest);
    HitsFill(b[op.key := Bucket(1, reset)], op, n - 1, rest);
    assert b[op.key := Bucket(1, reset)][op.key := Bucket(n, reset)] == b[op.key := Bucket(n, reset)];
  }

  lemma {:induction false} HitsAreSteady(op: Op, n: nat, rest: seq<Op>, now: int, end: int)
    requires op.Consume? && now <= op.now <= end
    requires Monotone(rest, op.now) && Steady(rest, op.key, op.limit, op.windowSeconds, end)
    ensures Monotone(Hits(op, n) + rest, if n == 0 then op.now else now)
    ensures Steady(Hits(op, n) + rest, op.key, op.limit, op.windowSeconds, end)
  {
    if n == 0 {
      assert Hits(op, n) + rest == rest;
    } else {
      HitsAreSteady(op, n - 1, rest, op.now, end);
      FirstHit(op, n, rest);
      assert ([op] + (Hits(op, n - 1) + rest))[1..] == Hits(op, n - 1) + rest;
    }
  }

  /** Twice the limit is reached: half of it at the start, which fills one window, and half as that window ends. */
  lemma SlidingWindowBoundIsTight(key: string, limit: nat, w: int, start: int) returns (ops: seq<Op>)
    requires limit >= 1 && w > 0
    ensures Monotone(ops, start) && Steady(ops, key, limit, w, start + w * 1000)
    ensures Admitted(map[], key, ops) == 2 * limit
  {
    var end := start + w * 1000;
    var first, second := Consume(0, key, limit, w, start), Consume(0, key, limit, w, end);
    ops := Hits(first, limit) + (Hits(second, limit) + []);
    HitsAreSteady(second, limit, [], start, end);
    HitsAreSteady(first, limit, Hits(second, limit) + [], start, end);
    var full := map[key := Bucket(limit, end)];
    HitsOpenAndFill(map[], first, Hits(second, limit) + []);
    assert map[][key := Bucket(limit, end)] == full;
    HitsOpenAndFill(full, second, []);
  }
}
