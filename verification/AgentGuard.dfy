/**
 * Admission of signed agent requests: a timestamp window in front of a table of
 * spent nonces that is swept now and then.
 *
 * A request is admitted in two steps with other requests and sweeps in between: its
 * checks, then the insertion of its nonce. Between the two lie database reads, so
 * they can be up to `delay` milliseconds apart.
 */
module AgentGuard {

  const SKEW_MS := 300_000

  /** A signed request, as far as admission looks at it. */
  datatype Signed = Signed(nonce: string, sentAt: int)

  datatype Waiting = Waiting(request: Signed, checkedAt: int)

  /** `spent` maps a nonce to the time it may be swept; `admitted` lists admissions in order. */
  datatype State = State(spent: map<string, int>, waiting: map<nat, Waiting>, admitted: seq<Signed>, now: int)

  datatype Step =
    | Check(call: nat, request: Signed, sound: bool, now: int)
    | Insert(call: nat, now: int)
    | Sweep(now: int)

  predicate InWindow(r: Signed, now: int) {
    -SKEW_MS <= now - r.sentAt <= SKEW_MS
  }

  predicate Enabled(s: State, step: Step, delay: int) {
    match step
    case Check(c, _, _, t) => c !in s.waiting && s.now <= t
    case Insert(c, t) => c in s.waiting && s.now <= t <= s.waiting[c].checkedAt + delay
    case Sweep(t) => s.now <= t
  }

  function SpendUntil(r: Signed): int {
    r.sentAt + 2 * SKEW_MS
  }

  function Swept(spent: map<string, int>, now: int): map<string, int> {
    map n | n in spent && !(spent[n] < now) :: spent[n]
  }

  function Next(s: State, step: Step, delay: int): State
    requires Enabled(s, step, delay)
  {
    match step
    case Check(c, r, sound, t) =>
      s.(now := t, waiting := if InWindow(r, t) && sound then s.waiting[c := Waiting(r, t)] else s.waiting)
    case Insert(c, t) =>
      var r := s.waiting[c].request;
      if r.nonce in s.spent then s.(now := t, waiting := s.waiting - {c})
      else
        s.(now := t, waiting := s.waiting - {c}, spent := s.spent[r.nonce := SpendUntil(r)],
           admitted := s.admitted + [r])
    case Sweep(t) =>
      s.(now := t, spent := Swept(s.spent, t))
  }

  ghost predicate Inv(s: State) {
    && (forall c :: c in s.waiting ==>
          s.waiting[c].checkedAt <= s.now && InWindow(s.waiting[c].request, s.waiting[c].checkedAt))
    && (forall r :: r in s.admitted ==>
          SpendUntil(r) < s.now || (r.nonce in s.spent && s.spent[r.nonce] == SpendUntil(r)))
    && (forall i, j :: 0 <= i < j < |s.admitted| ==> s.admitted[i] != s.admitted[j])
  }

  lemma StepKeepsInv(s: State, step: Step, delay: int)
    requires Inv(s) && delay <= SKEW_MS && Enabled(s, step, delay)
    ensures Inv(Next(s, step, delay))
  {
    if step.Insert? && s.waiting[step.call].request.nonce !in s.spent {
      var r := s.waiting[step.call].request;
      assert r !in s.admitted;
      assert forall i :: 0 <= i < |s.admitted| ==> s.admitted[i] in s.admitted;
    }
  }

  ghost predicate Legal(s: State, steps: seq<Step>, delay: int)
    decreases |steps|
  {
    steps == [] || (Enabled(s, steps[0], delay) && Legal(Next(s, steps[0], delay), steps[1..], delay))
  }

  ghost function Run(s: State, steps: seq<Step>, delay: int): State
    requires Legal(s, steps, delay)
    decreases |steps|
  {
    if steps == [] then s else Run(Next(s, steps[0], delay), steps[1..], delay)
  }

  lemma {:induction false} RunKeepsInv(s: State, steps: seq<Step>, delay: int)
    requires Inv(s) && delay <= SKEW_MS && Legal(s, steps, delay)
    ensures Inv(Run(s, steps, delay))
    decreases |steps|
  {
    if steps != [] {
      StepKeepsInv(s, steps[0], delay);
      RunKeepsInv(Next(s, steps[0], delay), steps[1..], delay);
    }
  }

  ghost predicate NoneTwice(s: State) {
    forall i, j :: 0 <= i < j < |s.admitted| ==> s.admitted[i] != s.admitted[j]
  }

  ghost function Start(now: int): State {
    State(map[], map[], [], now)
  }

  /** Under every interleaving and every sweep schedule, starting from an empty table. */
  ghost predicate Safe(delay: int) {
    forall now: int, steps: seq<Step> :: Legal(Start(now), steps, delay) ==> NoneTwice(Run(Start(now), steps, delay))
  }

  lemma RunCons(s: State, step: Step, rest: seq<Step>, delay: int)
    requires Enabled(s, step, delay) && Legal(Next(s, step, delay), rest, delay)
    ensures Legal(s, [step] + rest, delay)
    ensures Run(s, [step] + rest, delay) == Run(Next(s, step, delay), rest, delay)
  {
    assert ([step] + rest)[1..] == rest;
  }

  /** A request checked just inside its window and inserted too late finds its nonce swept away. */
  lemma SlowInsertReadmits(n: string, delay: int) returns (steps: seq<Step>)
    requires delay > SKEW_MS
    ensures Legal(Start(0), steps, delay) && !NoneTwice(Run(Start(0), steps, delay))
  {
    var r, late := Signed(n, 0), SKEW_MS + delay;
    var s0 := Start(0);
    var s1 := Next(s0, Check(1, r, true, 0), delay);
    var s2 := Next(s1, Insert(1, 0), delay);
    var s3 := Next(s2, Check(2, r, true, SKEW_MS), delay);
    var s4 := Next(s3, Sweep(late), delay);
    assert s4.spent == map[];
    var s5 := Next(s4, Insert(2, late), delay);
    assert s5.admitted == [r, r] && s5.admitted[0] == s5.admitted[1];
    RunCons(s4, Insert(2, late), [], delay);
    RunCons(s3, Sweep(late), [Insert(2, late)] + [], delay);
    RunCons(s2, Check(2, r, true, SKEW_MS), [Sweep(late)] + ([Insert(2, late)] + []), delay);
    RunCons(s1, Insert(1, 0), [Check(2, r, true, SKEW_MS)] + ([Sweep(late)] + ([Insert(2, late)] + [])), delay);
    steps := [Insert(1, 0)] + ([Check(2, r, true, SKEW_MS)] + ([Sweep(late)] + ([Insert(2, late)] + [])));
    RunCons(s0, Check(1, r, true, 0), steps, delay);
    steps := [Check(1, r, true, 0)] + steps;
  }

  /**
   * No signed request is admitted twice, exactly as long as a request's nonce is
   * inserted no later than the width of the window after its timestamp was checked.
   */
  lemma NoReplayIff(delay: int)
    ensures Safe(delay) <==> delay <= SKEW_MS
  {
    if delay <= SKEW_MS {
      forall now: int, steps: seq<Step> | Legal(Start(now), steps, delay)
        ensures NoneTwice(Run(Start(now), steps, delay))
      {
        RunKeepsInv(Start(now), steps, delay);
      }
    } else {
      var steps := SlowInsertReadmits("", delay);
      assert !NoneTwice(Run(Start(0), steps, delay));
    }
  }

  // ---------------------------------------------------------------------------
  // The guard
  // ---------------------------------------------------------------------------

  class AgentSignatureGuard {
    var spent: map<string, int>

    constructor ()
      ensures spent == map[]
    {
      spent := map[];
    }

    /** `consumeNonce`: the unique key refuses a second insertion; sometimes old rows are swept after. */
    method ConsumeNonce(r: Signed, sweep: bool, now: int) returns (ok: bool)
      modifies this
      ensures ok <==> r.nonce !in old(spent)
      ensures !ok ==> spent == old(spent)
      ensures ok ==> var inserted := old(spent)[r.nonce := SpendUntil(r)];
        spent == if sweep then Swept(inserted, now) else inserted
      ensures ok ==>
        && (forall n :: n in spent ==>
              if n == r.nonce then spent[n] == r.sentAt + 600_000 else n in old(spent) && spent[n] == old(spent)[n])
        && (forall n :: n in old(spent) && (sweep ==> now <= old(spent)[n]) ==> n in spent)
        && (sweep ==> forall n :: n in spent ==> now <= spent[n])
        && (!sweep ==> r.nonce in spent)
    {
      if r.nonce in spent { return false; }
      spent := spent[r.nonce := r.sentAt + SKEW_MS * 2];
      if sweep {
        spent := map n | n in spent && !(spent[n] < now) :: spent[n];
      }
      return true;
    }

    /**
     * `canActivate` with nothing in between: `known` says that the device is enrolled
     * and not revoked, or that the endpoint admits unenrolled agents.
     */
    method CanActivate(r: Signed, signatureOk: bool, known: bool, sweep: bool, checkedAt: int, insertedAt: int)
      returns (ok: bool)
      modifies this
      ensures ok <==>
        && r.sentAt - 300_000 <= checkedAt <= r.sentAt + 300_000
        && signatureOk && known && r.nonce !in old(spent)
      ensures !ok ==> spent == old(spent)
      ensures ok && (sweep ==> insertedAt <= r.sentAt + 600_000) ==>
        r.nonce in spent && spent[r.nonce] == r.sentAt + 600_000
    {
      var skew := if checkedAt >= r.sentAt then checkedAt - r.sentAt else r.sentAt - checkedAt;
      if skew > SKEW_MS { return false; }
      if !signatureOk { return false; }
      if !known { return false; }
      ok := ConsumeNonce(r, sweep, insertedAt);
    }
  }
}
