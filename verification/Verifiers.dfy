/**
 * The agent's two envelope checks. A signature is ideal: `signatureOk` says that the
 * control plane signed exactly this message's signing input under the named key.
 */
module Verifiers {
  import opened Clock
  import opened SigningInputs
  import opened ReplayGuard

  const ACTIONS := ["power.wake", "power.restart", "power.shutdown", "power.lock", "power.sleep", "power.cancel"]

  /** How far ahead an issuing clock may be: half a minute. */
  const SKEW := 30_000 * TICKS

  datatype Verdict<T> =
    | Accepted(value: T)
    | Malformed | Unknown | Misaddressed | UnknownKey | BadSignature | Expired | NotYetValid | Replayed

  datatype Envelope<T> = Envelope(body: T, keyId: string)

  /** When each clock is read, and what the signature check said. */
  datatype Reading = Reading(signatureOk: bool, checkAt: int, pruneAt: int)

  // ---------------------------------------------------------------------------
  // What a verdict rests on
  // ---------------------------------------------------------------------------

  ghost predicate CommandInOrder(c: Command) {
    && c.id != "" && c.nonce != "" && c.deviceId != ""
    && c.action in {"power.wake", "power.restart", "power.shutdown", "power.lock", "power.sleep", "power.cancel"}
  }

  ghost predicate GrantInOrder(g: Grant) {
    && g.sessionId != "" && g.nonce != "" && g.agentId != "" && g.spaceId != ""
    && (g.mode == "view" || g.mode == "control")
  }

  /** Not issued too far ahead, and not expired. */
  ghost predicate Current(issuedAt: int, expiresAt: int, now: int, skew: int) {
    expiresAt != ZERO_TIME && now < expiresAt && issuedAt <= now + skew
  }

  /** The nonce is not held with an expiry that has not passed. */
  ghost predicate Unused(seen: map<string, int>, nonce: string, now: int) {
    nonce in seen ==> seen[nonce] < now
  }

  /** What has expired is forgotten, and the nonce is held: until its expiry, or as it was held before. */
  ghost predicate Spends(before: map<string, int>, after: map<string, int>, nonce: string, until: int, now: int) {
    && nonce in after && after[nonce] == (if Unused(before, nonce, now) then until else before[nonce])
    && (forall n :: n != nonce ==> (n in after <==> n in before && now <= before[n]))
    && (forall n :: n != nonce && n in after ==> n in before && after[n] == before[n])
  }

  // ---------------------------------------------------------------------------
  // Power commands
  // ---------------------------------------------------------------------------

  predicate CommandSound(e: Envelope<Command>, deviceId: string, keys: set<string>, skew: int, r: Reading) {
    && e.body.id != "" && e.body.nonce != "" && e.body.action in ACTIONS
    && e.body.deviceId == deviceId != "" && e.keyId in keys && r.signatureOk
    && e.body.expiresAt != ZERO_TIME && e.body.issuedAt <= r.checkAt + skew
  }

  function CommandAttempt(e: Envelope<Command>, deviceId: string, keys: set<string>, skew: int, r: Reading): Attempt {
    Attempt(CommandSound(e, deviceId, keys, skew, r), e.body.nonce, e.body.expiresAt, r.checkAt, r.pruneAt)
  }

  class CommandVerifier {
    const deviceId: string
    const keys: set<string>
    const nonces: MemoryNonceStore
    const skew: int

    constructor (deviceId: string, keys: set<string>)
      ensures this.deviceId == deviceId && this.keys == keys && skew == SKEW
      ensures fresh(nonces) && nonces.seen == map[]
    {
      this.deviceId, this.keys, skew := deviceId, keys, SKEW;
      nonces := new MemoryNonceStore();
    }

    /** Every check in order; the nonce is spent only by a command that is accepted. */
    method Verify(e: Envelope<Command>, r: Reading) returns (v: Verdict<Command>)
      modifies nonces
      ensures v.Accepted? <==> Accepts(old(nonces.seen), CommandAttempt(e, deviceId, keys, skew, r))
      ensures v.Accepted? ==> v.value == e.body
      ensures nonces.seen == After(old(nonces.seen), CommandAttempt(e, deviceId, keys, skew, r))
      ensures v.Replayed? <==>
        && CommandSound(e, deviceId, keys, skew, r) && r.checkAt < e.body.expiresAt
        && e.body.nonce in Pruned(old(nonces.seen), r.pruneAt)
      ensures v.Accepted? <==>
        && CommandInOrder(e.body) && e.body.deviceId == deviceId && e.keyId in keys && r.signatureOk
        && Current(e.body.issuedAt, e.body.expiresAt, r.checkAt, skew)
        && Unused(old(nonces.seen), e.body.nonce, r.pruneAt)
      ensures !v.Accepted? && !v.Replayed? ==> nonces.seen == old(nonces.seen)
      ensures v.Accepted? || v.Replayed? ==>
        Spends(old(nonces.seen), nonces.seen, e.body.nonce, e.body.expiresAt, r.pruneAt)
      ensures v.Malformed? <==> e.body.id == "" || e.body.nonce == "" || e.body.deviceId == ""
      ensures v.UnknownKey? ==> e.keyId !in keys
      ensures v.BadSignature? ==> e.keyId in keys && !r.signatureOk
      ensures v.Misaddressed? ==> e.body.deviceId != deviceId
      ensures v.Expired? ==> r.signatureOk && (e.body.expiresAt == ZERO_TIME || e.body.expiresAt <= r.checkAt)
      ensures v.NotYetValid? ==> r.checkAt < e.body.expiresAt && r.checkAt + skew < e.body.issuedAt
    {
      var c := e.body;
      if c.id == "" || c.nonce == "" || c.deviceId == "" { return Malformed; }
      if c.action !in ACTIONS { return Unknown; }
      if c.deviceId != deviceId { return Misaddressed; }
      if e.keyId !in keys { return UnknownKey; }
      if !r.signatureOk { return BadSignature; }
      if c.expiresAt == ZERO_TIME || !(r.checkAt < c.expiresAt) { return Expired; }
      if c.issuedAt > r.checkAt + skew { return NotYetValid; }
      var unused := nonces.Remember(c.nonce, c.expiresAt, r.pruneAt);
      if !unused { return Replayed; }
      return Accepted(c);
    }
  }

  // ---------------------------------------------------------------------------
  // Remote-desktop grants
  // ---------------------------------------------------------------------------

  predicate GrantSound(e: Envelope<Grant>, agentId: string, keys: set<string>, skew: int, r: Reading) {
    && e.body.sessionId != "" && e.body.nonce != "" && e.body.spaceId != ""
    && e.body.mode in ["view", "control"]
    && e.body.agentId == agentId != "" && e.keyId in keys && r.signatureOk
    && e.body.expiresAt != ZERO_TIME && e.body.issuedAt <= r.checkAt + skew
  }

  function GrantAttempt(e: Envelope<Grant>, agentId: string, keys: set<string>, skew: int, r: Reading): Attempt {
    Attempt(GrantSound(e, agentId, keys, skew, r), e.body.nonce, e.body.expiresAt, r.checkAt, r.pruneAt)
  }

  /** The nonce store of a grant verifier may be absent; then nothing guards against reuse. */
  class GrantVerifier {
    const agentId: string
    const keys: set<string>
    const nonces: MemoryNonceStore?
    const skew: int

    constructor (agentId: string, keys: set<string>, nonces: MemoryNonceStore?)
      ensures this.agentId == agentId && this.keys == keys && this.nonces == nonces && skew == SKEW
    {
      this.agentId, this.keys, this.nonces, skew := agentId, keys, nonces, SKEW;
    }

    method Verify(e: Envelope<Grant>, r: Reading) returns (v: Verdict<Grant>)
      modifies nonces
      ensures nonces != null ==>
        && (v.Accepted? <==> Accepts(old(nonces.seen), GrantAttempt(e, agentId, keys, skew, r)))
        && nonces.seen == After(old(nonces.seen), GrantAttempt(e, agentId, keys, skew, r))
      ensures nonces == null ==>
        (v.Accepted? <==> GrantSound(e, agentId, keys, skew, r) && r.checkAt < e.body.expiresAt)
      ensures v.Accepted? ==> v.value == e.body
      ensures v.Accepted? <==>
        && GrantInOrder(e.body) && e.body.agentId == agentId && e.keyId in keys && r.signatureOk
        && Current(e.body.issuedAt, e.body.expiresAt, r.checkAt, skew)
        && (nonces != null ==> Unused(old(nonces.seen), e.body.nonce, r.pruneAt))
      ensures nonces != null && !v.Accepted? && !v.Replayed? ==> nonces.seen == old(nonces.seen)
      ensures nonces != null && (v.Accepted? || v.Replayed?) ==>
        Spends(old(nonces.seen), nonces.seen, e.body.nonce, e.body.expiresAt, r.pruneAt)
      ensures v.Malformed? <==>
        e.body.sessionId == "" || e.body.nonce == "" || e.body.agentId == "" || e.body.spaceId == ""
      ensures v.UnknownKey? ==> e.keyId !in keys
      ensures v.BadSignature? ==> e.keyId in keys && !r.signatureOk
      ensures v.Expired? ==> e.body.expiresAt == ZERO_TIME || e.body.expiresAt <= r.checkAt
      ensures v.NotYetValid? ==> r.checkAt < e.body.expiresAt && r.checkAt + skew < e.body.issuedAt
      ensures v.Replayed? ==> nonces != null && !Unused(old(nonces.seen), e.body.nonce, r.pruneAt)
      ensures v.Misaddressed? ==> e.body.agentId != agentId
    {
      var g := e.body;
      if g.sessionId == "" || g.nonce == "" || g.agentId == "" || g.spaceId == "" { return Malformed; }
      if !(g.mode == "view" || g.mode == "control") { return Unknown; }
      if g.agentId != agentId { return Misaddressed; }
      if e.keyId !in keys { return UnknownKey; }
      if !r.signatureOk { return BadSignature; }
      if g.expiresAt == ZERO_TIME || !(r.checkAt < g.expiresAt) { return Expired; }
      if g.issuedAt > r.checkAt + skew { return NotYetValid; }
      if nonces != null {
        var unused := nonces.Remember(g.nonce, g.expiresAt, r.pruneAt);
        if !unused { return Replayed; }
      }
      return Accepted(g);
    }
  }

  // ---------------------------------------------------------------------------
  // Whole runs of one verifier
  // ---------------------------------------------------------------------------

  ghost function GrantAttempts(es: seq<Envelope<Grant>>, agentId: string, keys: set<string>, skew: int,
                               rs: seq<Reading>): (a: seq<Attempt>)
    requires |es| == |rs|
    ensures |a| == |es|
  {
    seq(|es|, i requires 0 <= i < |es| => GrantAttempt(es[i], agentId, keys, skew, rs[i]))
  }

  lemma SameGrantSameMessage(a: Envelope<Grant>, b: Envelope<Grant>, signed: Grant, fmt: int -> string,
                             agentId: string, keys: set<string>, skew: int, r: Reading, q: Reading)
    requires GoodFormat(fmt) && CleanGrant(signed)
    requires GrantInput(a.body, fmt) == GrantInput(signed, fmt) == GrantInput(b.body, fmt)
    ensures SameMessage(GrantAttempt(a, agentId, keys, skew, r), GrantAttempt(b, agentId, keys, skew, q))
  {
    GrantInputDeterminesGrant(a.body, signed, fmt);
    GrantInputDeterminesGrant(b.body, signed, fmt);
  }

  /**
   * A grant opens at most one session, whatever is made of its times below the
   * millisecond, as long as the later presentation does not slip.
   */
  lemma GrantOpensOneSession(es: seq<Envelope<Grant>>, rs: seq<Reading>, agentId: string, keys: set<string>,
                             skew: int, start: int, i: nat, j: nat, signed: Grant, fmt: int -> string)
    requires |es| == |rs| && i < j < |es| && GoodFormat(fmt) && CleanGrant(signed)
    requires GrantInput(es[i].body, fmt) == GrantInput(signed, fmt) == GrantInput(es[j].body, fmt)
    requires var a := GrantAttempts(es, agentId, keys, skew, rs);
      Ordered(Fresh(start), a) && Verdicts(Fresh(start), a)[i] && !Slips(a[j])
    ensures !Verdicts(Fresh(start), GrantAttempts(es, agentId, keys, skew, rs))[j]
  {
    var a := GrantAttempts(es, agentId, keys, skew, rs);
    SameGrantSameMessage(es[i], es[j], signed, fmt, agentId, keys, skew, rs[i], rs[j]);
    if Verdicts(Fresh(start), a)[j] {
      PruningNeverReadmits(Fresh(start), a, i, j);
    }
  }

  /** The grant presented as it was signed, in time, before the presentation given. */
  function GrantAsSigned(e: Envelope<Grant>, r: Reading): (Envelope<Grant>, Reading) {
    var whole := Whole(e.body.expiresAt);
    var t := if r.checkAt < whole then r.checkAt else whole - 1;
    (Envelope(e.body.(expiresAt := whole), e.keyId), Reading(r.signatureOk, t, t))
  }

  /**
   * A presentation that slips does open a second session after an untouched one: its
   * signed text is that of the grant as issued.
   */
  lemma SlippingGrantOpensAnother(e: Envelope<Grant>, r: Reading, agentId: string, keys: set<string>, skew: nat,
                                  fmt: int -> string)
    requires GoodFormat(fmt) && GrantSound(e, agentId, keys, skew, r) && r.checkAt <= r.pruneAt
    requires e.body.issuedAt < Whole(e.body.expiresAt) != ZERO_TIME
    requires Slips(GrantAttempt(e, agentId, keys, skew, r))
    ensures var (first, q) := GrantAsSigned(e, r);
      var attempts := GrantAttempts([first, e], agentId, keys, skew, [q, r]);
      && GrantInput(first.body, fmt) == GrantInput(e.body, fmt)
      && Ordered(Fresh(q.checkAt), attempts) && Verdicts(Fresh(q.checkAt), attempts) == [true, true]
  {
    var (first, q) := GrantAsSigned(e, r);
    var a, b := GrantAttempt(first, agentId, keys, skew, q), GrantAttempt(e, agentId, keys, skew, r);
    SameMsSameWhole(e.body.expiresAt, e.body.expiresAt);
    assert GrantLines(first.body, fmt) == GrantLines(e.body, fmt);
    assert GrantAttempts([first, e], agentId, keys, skew, [q, r]) == [a, b];
    assert a.sound && Accepts(map[], a);
    TwoVerdicts(Fresh(q.checkAt), a, b);
  }

  /** The same of commands. */
  lemma SlippingCommandIsAcceptedAgain(e: Envelope<Command>, r: Reading, deviceId: string, keys: set<string>,
                                       skew: nat, fmt: int -> string)
    requires GoodFormat(fmt) && CommandSound(e, deviceId, keys, skew, r) && r.checkAt <= r.pruneAt
    requires e.body.issuedAt < Whole(e.body.expiresAt) != ZERO_TIME
    requires Slips(CommandAttempt(e, deviceId, keys, skew, r))
    ensures var whole := Whole(e.body.expiresAt);
      var t := if r.checkAt < whole then r.checkAt else whole - 1;
      var first := Envelope(e.body.(expiresAt := whole), e.keyId);
      var attempts := [CommandAttempt(first, deviceId, keys, skew, Reading(r.signatureOk, t, t)),
                       CommandAttempt(e, deviceId, keys, skew, r)];
      && PowerInput(first.body, fmt) == PowerInput(e.body, fmt)
      && Ordered(Fresh(t), attempts) && Verdicts(Fresh(t), attempts) == [true, true]
  {
    var whole := Whole(e.body.expiresAt);
    var t := if r.checkAt < whole then r.checkAt else whole - 1;
    var first := Envelope(e.body.(expiresAt := whole), e.keyId);
    var a := CommandAttempt(first, deviceId, keys, skew, Reading(r.signatureOk, t, t));
    var b := CommandAttempt(e, deviceId, keys, skew, r);
    SameMsSameWhole(e.body.expiresAt, e.body.expiresAt);
    assert PowerLines(first.body, fmt) == PowerLines(e.body, fmt);
    assert a.sound && Accepts(map[], a);
    TwoVerdicts(Fresh(t), a, b);
  }
}
