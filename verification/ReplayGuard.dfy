/**
 * The agent's replay guard: a map of spent nonces that forgets a nonce once its
 * message has expired, in front of an expiry check.
 *
 * A verification reads the clock twice, once for the expiry check and once when
 * the nonce store prunes itself. The store is locked while it prunes and decides, so
 * attempts come in the order of their second readings; the checks before may overlap.
 * The clock never goes backwards. A message is what was signed: its nonce, and its expiry to the
 * millisecond. The expiry presented with it may lie anywhere in that millisecond.
 */
module ReplayGuard {
  import opened Clock

  /** What a store still holds after pruning at `now`. */
  function Pruned(seen: map<string, int>, now: int): map<string, int> {
    map n | n in seen && !(seen[n] < now) :: seen[n]
  }

  /**
   * A message presented with the two clock readings of its verification; `sound`
   * says that it passes every check other than expiry and reuse.
   */
  datatype Attempt = Attempt(sound: bool, nonce: string, expiresAt: int, checkAt: int, pruneAt: int)

  predicate Accepts(seen: map<string, int>, a: Attempt) {
    a.sound && a.checkAt < a.expiresAt && a.nonce !in Pruned(seen, a.pruneAt)
  }

  /** The store afterwards: a message that fails an earlier check never reaches it. */
  function After(seen: map<string, int>, a: Attempt): map<string, int> {
    if !a.sound || a.expiresAt <= a.checkAt then seen
    else if a.nonce in Pruned(seen, a.pruneAt) then Pruned(seen, a.pruneAt)
    else Pruned(seen, a.pruneAt)[a.nonce := a.expiresAt]
  }

  /** The expiry under which each nonce was accepted last, and the latest reading under the lock. */
  datatype History = History(seen: map<string, int>, spent: map<string, int>, last: int)

  function Fresh(start: int): History {
    History(map[], map[], start)
  }

  predicate InOrder(h: History, a: Attempt) {
    h.last <= a.pruneAt && a.checkAt <= a.pruneAt
  }

  function Present(h: History, a: Attempt): History {
    History(After(h.seen, a),
            if Accepts(h.seen, a) then h.spent[a.nonce := a.expiresAt] else h.spent,
            a.pruneAt)
  }

  /** Whatever was accepted is either still remembered or past the expiry it came with. */
  ghost predicate Covered(h: History) {
    && (forall n :: n in h.seen ==> n in h.spent && h.seen[n] == h.spent[n])
    && (forall n :: n in h.spent ==> n in h.seen || h.spent[n] < h.last)
  }

  lemma PresentKeepsCovered(h: History, a: Attempt)
    requires Covered(h) && InOrder(h, a)
    ensures Covered(Present(h, a))
  {
  }

  /**
   * A nonce that was accepted before is accepted again exactly when the first reading is
   * before the expiry presented now and the second is past the one it was stored with.
   */
  lemma AcceptedAgainIff(h: History, a: Attempt)
    requires Covered(h) && InOrder(h, a) && a.sound && a.nonce in h.spent
    ensures Accepts(h.seen, a) <==> a.checkAt < a.expiresAt && h.spent[a.nonce] < a.pruneAt
  {
  }

  ghost predicate Ordered(h: History, attempts: seq<Attempt>)
    decreases |attempts|
  {
    attempts == [] || (InOrder(h, attempts[0]) && Ordered(Present(h, attempts[0]), attempts[1..]))
  }

  /** The verdicts of a whole run. */
  ghost function Verdicts(h: History, attempts: seq<Attempt>): (v: seq<bool>)
    ensures |v| == |attempts|
    decreases |attempts|
  {
    if attempts == [] then []
    else [Accepts(h.seen, attempts[0])] + Verdicts(Present(h, attempts[0]), attempts[1..])
  }

  /** One signed text: the signature says no more of the expiry than its millisecond. */
  predicate SameMessage(a: Attempt, b: Attempt) {
    a.nonce == b.nonce && Ms(a.expiresAt) == Ms(b.expiresAt)
  }

  /**
   * The first reading is before the expiry presented while the second is past the
   * millisecond that was signed.
   */
  predicate Slips(a: Attempt) {
    a.checkAt < a.expiresAt && Whole(a.expiresAt) < a.pruneAt
  }

  /** The nonce has been accepted with expiry e, or since then and past e. */
  predicate Held(h: History, nonce: string, e: int) {
    nonce in h.spent && (h.spent[nonce] == e || e < h.last)
  }

  lemma PresentKeepsHeld(h: History, a: Attempt, nonce: string, e: int)
    requires Covered(h) && InOrder(h, a) && Held(h, nonce, e)
    ensures Held(Present(h, a), nonce, e)
  {
  }

  /** Accepting a message that is held takes an attempt that slips. */
  lemma HeldAgainSlips(h: History, a: Attempt, e: int)
    requires Covered(h) && InOrder(h, a) && Held(h, a.nonce, e) && Ms(e) == Ms(a.expiresAt)
    requires Accepts(h.seen, a)
    ensures Slips(a)
  {
    SameMsSameWhole(e, a.expiresAt);
    SameMsSameWhole(e, e);
    AcceptedAgainIff(h, a);
  }

  lemma {:induction false} LaterAcceptanceSlips(h: History, attempts: seq<Attempt>, j: nat, e: int)
    requires Covered(h) && Ordered(h, attempts) && j < |attempts|
    requires Held(h, attempts[j].nonce, e) && Ms(e) == Ms(attempts[j].expiresAt) && Verdicts(h, attempts)[j]
    ensures Slips(attempts[j])
    decreases |attempts|
  {
    if j == 0 {
      HeldAgainSlips(h, attempts[0], e);
    } else {
      PresentKeepsCovered(h, attempts[0]);
      PresentKeepsHeld(h, attempts[0], attempts[j].nonce, e);
      LaterAcceptanceSlips(Present(h, attempts[0]), attempts[1..], j - 1, e);
    }
  }

  /** Over any run, the second acceptance of a message can only be one that slips. */
  lemma {:induction false} PruningNeverReadmits(h: History, attempts: seq<Attempt>, i: nat, j: nat)
    requires Covered(h) && Ordered(h, attempts) && i < j < |attempts|
    requires SameMessage(attempts[i], attempts[j])
    requires Verdicts(h, attempts)[i] && Verdicts(h, attempts)[j]
    ensures Slips(attempts[j])
    decreases |attempts|
  {
    PresentKeepsCovered(h, attempts[0]);
    if i == 0 {
      LaterAcceptanceSlips(Present(h, attempts[0]), attempts[1..], j - 1, attempts[0].expiresAt);
    } else {
      PruningNeverReadmits(Present(h, attempts[0]), attempts[1..], i - 1, j - 1);
    }
  }

  /** A run of a verifier that ends in `a`, and in which its message has been accepted before. */
  ghost predicate Readmits(start: int, attempts: seq<Attempt>, i: nat, a: Attempt) {
    && Ordered(Fresh(start), attempts) && i + 1 < |attempts| && attempts[|attempts| - 1] == a
    && SameMessage(attempts[i], a)
    && Verdicts(Fresh(start), attempts)[i] && Verdicts(Fresh(start), attempts)[|attempts| - 1]
  }

  /** The same message as it was signed, presented first and in time. */
  function AsSigned(a: Attempt): Attempt {
    var t := if a.checkAt < Whole(a.expiresAt) then a.checkAt else Whole(a.expiresAt) - 1;
    Attempt(true, a.nonce, Whole(a.expiresAt), t, t)
  }

  lemma SlippingReadmits(a: Attempt)
    requires a.sound && a.checkAt <= a.pruneAt && Slips(a)
    ensures Readmits(AsSigned(a).checkAt, [AsSigned(a), a], 0, a)
  {
    var first := AsSigned(a);
    SameMsSameWhole(a.expiresAt, a.expiresAt);
    var h := Fresh(first.checkAt);
    TwoVerdicts(h, first, a);
  }

  lemma TwoVerdicts(h: History, a: Attempt, b: Attempt)
    ensures Verdicts(h, [a, b]) == [Accepts(h.seen, a), Accepts(Present(h, a).seen, b)]
    ensures Ordered(h, [a, b]) <==> InOrder(h, a) && InOrder(Present(h, a), b)
  {
    assert [a, b][1..] == [b] && [b][1..] == [];
    assert Verdicts(Present(h, a), [b]) == [Accepts(Present(h, a).seen, b)];
    assert Ordered(Present(h, a), [b]) <==> InOrder(Present(h, a), b);
  }

  /** An attempt can be the second acceptance of its message in some run exactly when it slips. */
  lemma ReadmittedIff(a: Attempt)
    requires a.sound && a.checkAt <= a.pruneAt
    ensures (exists start, attempts, i: nat :: Readmits(start, attempts, i, a)) <==> Slips(a)
  {
    if Slips(a) {
      SlippingReadmits(a);
    } else {
      forall start, attempts, i: nat | Readmits(start, attempts, i, a)
        ensures false
      {
        PruningNeverReadmits(Fresh(start), attempts, i, |attempts| - 1);
      }
    }
  }

  /**
   * With one clock reading a verification, an expiry presented is safe at every instant
   * exactly when it is at most one nanosecond past a whole millisecond.
   */
  lemma OneReadingNeverSlipsIff(e: int)
    ensures (forall nonce, t :: !Slips(Attempt(true, nonce, e, t, t))) <==> e % TICKS <= 1
  {
    if e % TICKS > 1 {
      assert Slips(Attempt(true, "", e, Whole(e) + 1, Whole(e) + 1));
    }
  }

  /** One run in which the gap between two readings is hit. */
  lemma StraddlingReadmits(n: string)
    ensures var e := 100 * TICKS;
      var attempts := [Attempt(true, n, e, e - 50, e - 50), Attempt(true, n, e, e - 1, e + 1)];
      Ordered(Fresh(0), attempts) && Verdicts(Fresh(0), attempts) == [true, true]
  {
    var e := 100 * TICKS;
    TwoVerdicts(Fresh(0), Attempt(true, n, e, e - 50, e - 50), Attempt(true, n, e, e - 1, e + 1));
  }

  /** One run with one reading a verification: the second time the expiry carries a fraction of its millisecond. */
  lemma AlteredExpiryReadmits(n: string)
    ensures var e := 100 * TICKS;
      var attempts := [Attempt(true, n, e, e - 50, e - 50), Attempt(true, n, e + 999_999, e + 1, e + 1)];
      && SameMessage(attempts[0], attempts[1])
      && Ordered(Fresh(0), attempts) && Verdicts(Fresh(0), attempts) == [true, true]
  {
    var e := 100 * TICKS;
    TwoVerdicts(Fresh(0), Attempt(true, n, e, e - 50, e - 50), Attempt(true, n, e + 999_999, e + 1, e + 1));
  }

  // ---------------------------------------------------------------------------
  // The store
  // ---------------------------------------------------------------------------

  class MemoryNonceStore {
    var seen: map<string, int>

    constructor ()
      ensures seen == map[]
    {
      seen := map[];
    }

    /** Records a nonce as used; false when it was already there. */
    method Remember(nonce: string, until: int, now: int) returns (unused: bool)
      modifies this
      ensures unused <==> !(nonce in old(seen) && now <= old(seen)[nonce])
      ensures forall k :: k in seen <==> (k in old(seen) && now <= old(seen)[k]) || k == nonce
      ensures forall k :: k in seen ==> seen[k] == if k == nonce && unused then until else old(seen)[k]
      ensures seen == if unused then Pruned(old(seen), now)[nonce := until] else Pruned(old(seen), now)
    {
      var keys := seen.Keys;
      while keys != {}
        invariant keys <= seen.Keys <= old(seen).Keys
        invariant forall k :: k in seen ==> seen[k] == old(seen)[k]
        invariant forall k :: k in old(seen).Keys - keys ==> (k in seen <==> !(old(seen)[k] < now))
      {
        var key :| key in keys;
        keys := keys - {key};
        if seen[key] < now {
          seen := seen - {key};
        }
      }
      assert seen == Pruned(old(seen), now);
      if nonce in seen {
        return false;
      }
      seen := seen[nonce := until];
      return true;
    }
  }
}
