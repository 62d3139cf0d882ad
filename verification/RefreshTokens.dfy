/**
 * Refresh-token families. Every database statement of a rotation is one step, and
 * any number of rotations, sign-outs and device revocations interleave.
 *
 * Token ids and secrets are fresh numbers handed out in creation order, and hashing
 * a secret is injective, so presenting token `t` finds row `t` or nothing.
 */
module RefreshTokens {
  import opened Text

  datatype Reason = ReuseDetected | DeviceRevoked | Requested

  datatype Row = Row(
    family: nat, userId: nat, deviceId: nat, expiresAt: int,
    rotatedAt: Option<int>, revokedAt: Option<int>, revokedReason: Option<Reason>,
    replacedById: Option<nat>)
  {
    predicate Live() {
      rotatedAt.None? && revokedAt.None?
    }
  }

  datatype Device = Device(trusted: bool, revoked: bool)

  datatype Outcome =
    | Rotated(token: nat, userId: nat, deviceId: nat)
    | Invalid
    | Expired(userId: nat)
    | Refused(userId: nat)
    | Reuse(userId: nat)
    | SignedOut
    | Failed

  /** Where a call stands between two of its database statements. */
  datatype Call =
    | Claiming(id: nat, userId: nat, deviceId: nat, trusted: bool, family: nat)
    | Inserting(spent: nat, userId: nat, deviceId: nat, trusted: bool, family: nat)
    | Linking(spent: nat, succ: nat, userId: nat, deviceId: nat)
    | Revoking(family: nat, reason: Reason, then_: Outcome)
    | Done(outcome: Outcome)

  const DAY_MS := 24 * 60 * 60 * 1000

  datatype Config = Config(trustedDays: nat, untrustedDays: nat)

  /**
   * `unlinked` lists the tokens whose successor was inserted by a call that died
   * before it could record the link.
   */
  datatype State = State(
    rows: map<nat, Row>, devices: map<nat, Device>, calls: map<nat, Call>,
    nextToken: nat, nextFamily: nat, unlinked: set<nat>)

  datatype Step =
    | Start(userId: nat, deviceId: nat, now: int)
    | Read(call: nat, token: nat, now: int)
    | Claim(call: nat, now: int)
    | Insert(call: nat, now: int)
    | Link(call: nat)
    | Revoke(call: nat, now: int)
    | Die(call: nat)
    | ReadForSignOut(call: nat, token: nat)
    | RevokeDevice(deviceId: nat)
    | RevokeSessions(deviceId: nat, now: int)

  // ---------------------------------------------------------------------------
  // The steps
  // ---------------------------------------------------------------------------

  function FreshRow(family: nat, userId: nat, deviceId: nat, trusted: bool, now: int, cfg: Config): Row {
    Row(family, userId, deviceId,
        now + (if trusted then cfg.trustedDays else cfg.untrustedDays) * DAY_MS,
        None, None, None, None)
  }

  function RevokeRow(r: Row, now: int, reason: Reason): Row {
    if r.revokedAt.None? then r.(revokedAt := Some(now), revokedReason := Some(reason)) else r
  }

  function RevokeFamilyRows(rows: map<nat, Row>, family: nat, now: int, reason: Reason): map<nat, Row> {
    map i | i in rows :: if rows[i].family == family then RevokeRow(rows[i], now, reason) else rows[i]
  }

  function RevokeDeviceRows(rows: map<nat, Row>, deviceId: nat, now: int): map<nat, Row> {
    map i | i in rows :: if rows[i].deviceId == deviceId then RevokeRow(rows[i], now, Requested) else rows[i]
  }

  /** What a rotation decides from the row it read. */
  function AfterRead(s: State, token: nat, now: int): Call
    requires token in s.rows ==> s.rows[token].deviceId in s.devices
  {
    if token !in s.rows then Done(Invalid)
    else
      var r := s.rows[token];
      var device := s.devices[r.deviceId];
      if r.rotatedAt.Some? || r.revokedAt.Some? then Revoking(r.family, ReuseDetected, Reuse(r.userId))
      else if r.expiresAt <= now then Done(Expired(r.userId))
      else if device.revoked then Revoking(r.family, DeviceRevoked, Refused(r.userId))
      else Claiming(token, r.userId, r.deviceId, device.trusted, r.family)
  }

  predicate Enabled(s: State, step: Step) {
    match step
    case Start(_, d, _) => d in s.devices
    case Read(c, t, _) => c !in s.calls && (t in s.rows ==> s.rows[t].deviceId in s.devices)
    case ReadForSignOut(c, _) => c !in s.calls
    case Claim(c, _) => c in s.calls && s.calls[c].Claiming? && s.calls[c].id in s.rows
    case Insert(c, _) => c in s.calls && s.calls[c].Inserting?
    case Link(c) => c in s.calls && s.calls[c].Linking? && s.calls[c].spent in s.rows
    case Revoke(c, _) => c in s.calls && s.calls[c].Revoking?
    case Die(c) => c in s.calls && !s.calls[c].Done?
    case RevokeDevice(d) => d in s.devices
    case RevokeSessions(_, _) => true
  }

  function Next(s: State, step: Step, cfg: Config): State
    requires Enabled(s, step)
  {
    match step
    case Start(u, d, now) =>
      s.(rows := s.rows[s.nextToken := FreshRow(s.nextFamily, u, d, s.devices[d].trusted, now, cfg)],
         nextToken := s.nextToken + 1, nextFamily := s.nextFamily + 1)
    case Read(c, t, now) =>
      s.(calls := s.calls[c := AfterRead(s, t, now)])
    case ReadForSignOut(c, t) =>
      s.(calls := s.calls[c := if t in s.rows then Revoking(s.rows[t].family, Requested, SignedOut) else Done(Invalid)])
    case Claim(c, now) =>
      var k := s.calls[c];
      var r := s.rows[k.id];
      if r.Live() then
        s.(rows := s.rows[k.id := r.(rotatedAt := Some(now))],
           calls := s.calls[c := Inserting(k.id, k.userId, k.deviceId, k.trusted, k.family)])
      else
        s.(calls := s.calls[c := Revoking(k.family, ReuseDetected, Reuse(k.userId))])
    case Insert(c, now) =>
      var k := s.calls[c];
      s.(rows := s.rows[s.nextToken := FreshRow(k.family, k.userId, k.deviceId, k.trusted, now, cfg)],
         calls := s.calls[c := Linking(k.spent, s.nextToken, k.userId, k.deviceId)],
         nextToken := s.nextToken + 1)
    case Link(c) =>
      var k := s.calls[c];
      s.(rows := s.rows[k.spent := s.rows[k.spent].(replacedById := Some(k.succ))],
         calls := s.calls[c := Done(Rotated(k.succ, k.userId, k.deviceId))])
    case Revoke(c, now) =>
      var k := s.calls[c];
      s.(rows := RevokeFamilyRows(s.rows, k.family, now, k.reason), calls := s.calls[c := Done(k.then_)])
    case Die(c) =>
      s.(calls := s.calls[c := Done(Failed)],
         unlinked := if s.calls[c].Linking? then s.unlinked + {s.calls[c].spent} else s.unlinked)
    case RevokeDevice(d) =>
      s.(devices := s.devices[d := s.devices[d].(revoked := true)])
    case RevokeSessions(d, now) =>
      s.(rows := RevokeDeviceRows(s.rows, d, now))
  }

  ghost predicate Initial(s: State) {
    s.rows == map[] && s.calls == map[] && s.unlinked == {}
  }

  // ---------------------------------------------------------------------------
  // What every step keeps
  // ---------------------------------------------------------------------------

  ghost predicate SameFamily(s: State, i: nat, j: nat) {
    i in s.rows && j in s.rows && s.rows[i].family == s.rows[j].family
  }

  /** `j` is the token created right after `i` in their family. */
  ghost predicate Follows(s: State, i: nat, j: nat) {
    i < j && SameFamily(s, i, j) && forall k: nat :: i < k < j ==> !SameFamily(s, i, k)
  }

  ghost predicate Newest(s: State, i: nat) {
    i in s.rows && forall j: nat :: SameFamily(s, i, j) ==> j <= i
  }

  ghost predicate RowsInv(s: State) {
    && (forall i: nat :: i in s.rows ==>
          i < s.nextToken && s.rows[i].family < s.nextFamily && s.rows[i].deviceId in s.devices)
    && (forall i: nat, j: nat :: SameFamily(s, i, j) && i < j ==> s.rows[i].rotatedAt.Some?)
  }

  ghost predicate CallInv(s: State, k: Call) {
    match k
    case Claiming(id, _, d, _, f) => id in s.rows && s.rows[id].family == f && s.rows[id].deviceId == d
    case Inserting(i, _, d, _, f) =>
      Newest(s, i) && s.rows[i].family == f && s.rows[i].rotatedAt.Some? && d in s.devices
    case Linking(i, j, _, _) => Follows(s, i, j) && s.rows[i].replacedById.None?
    case Revoking(f, _, _) => f < s.nextFamily
    case Done(_) => true
  }

  ghost predicate CallsInv(s: State) {
    (forall c: nat :: c in s.calls ==> CallInv(s, s.calls[c])) && SpentDistinct(s)
  }

  ghost predicate SpentDistinct(s: State) {
    && (forall c: nat, d: nat ::
          c in s.calls && d in s.calls && c != d && s.calls[c].Inserting? && s.calls[d].Inserting? ==>
            s.calls[c].spent != s.calls[d].spent)
    && (forall c: nat, d: nat ::
          c in s.calls && d in s.calls && c != d && s.calls[c].Linking? && s.calls[d].Linking? ==>
            s.calls[c].spent != s.calls[d].spent)
    && (forall c: nat :: c in s.calls && s.calls[c].Linking? ==> s.calls[c].spent !in s.unlinked)
  }

  ghost predicate LinkPending(s: State, i: nat) {
    i in s.unlinked || exists c :: c in s.calls && s.calls[c].Linking? && s.calls[c].spent == i
  }

  ghost predicate LinksInv(s: State) {
    && (forall i: nat :: i in s.rows && s.rows[i].replacedById.Some? ==> Follows(s, i, s.rows[i].replacedById.value))
    && (forall i: nat, j: nat :: SameFamily(s, i, j) && i < j && s.rows[i].replacedById.None? ==> LinkPending(s, i))
    && (forall i: nat :: i in s.unlinked ==> i in s.rows && s.rows[i].replacedById.None? && !Newest(s, i))
  }

  ghost predicate Inv(s: State) {
    RowsInv(s) && CallsInv(s) && LinksInv(s)
  }

  /** How a step changes the table: it may add one row at the end, and it may stamp rows. */
  ghost predicate Grows(s: State, t: State) {
    && s.nextToken <= t.nextToken <= s.nextToken + 1
    && s.nextFamily <= t.nextFamily
    && (forall i: nat :: i in s.rows ==> i in t.rows && Stamped(s.rows[i], t.rows[i]))
    && (forall i: nat :: i in t.rows && i !in s.rows ==> i == s.nextToken && s.nextToken < t.nextToken)
  }

  /** Every stamp is written once; who the token belongs to never changes. */
  ghost predicate Stamped(r: Row, q: Row) {
    && q.family == r.family && q.userId == r.userId && q.deviceId == r.deviceId && q.expiresAt == r.expiresAt
    && (r.rotatedAt.Some? ==> q.rotatedAt == r.rotatedAt)
    && (r.revokedAt.Some? ==> q.revokedAt == r.revokedAt && q.revokedReason == r.revokedReason)
    && (r.replacedById.Some? ==> q.replacedById == r.replacedById)
  }

  lemma StepGrows(s: State, step: Step, cfg: Config)
    requires Inv(s) && Enabled(s, step)
    ensures Grows(s, Next(s, step, cfg))
  {
    var t := Next(s, step, cfg);
    match step
    case Link(c) =>
      assert CallInv(s, s.calls[c]);
    case Claim(c, _) =>
      assert CallInv(s, s.calls[c]);
    case _ =>
  }

  lemma StepKeepsRows(s: State, step: Step, cfg: Config)
    requires Inv(s) && Enabled(s, step)
    ensures RowsInv(Next(s, step, cfg))
  {
    var t := Next(s, step, cfg);
    StepGrows(s, step, cfg);
    match step
    case Start(_, _, _) =>
      forall i: nat, j: nat | SameFamily(t, i, j) && i < j ensures t.rows[i].rotatedAt.Some? {
        assert i in s.rows;
        if j != s.nextToken {
          assert SameFamily(s, i, j);
        }
      }
    case Insert(c, _) =>
      assert CallInv(s, s.calls[c]);
      forall i: nat, j: nat | SameFamily(t, i, j) && i < j ensures t.rows[i].rotatedAt.Some? {
        assert i in s.rows;
        assert SameFamily(s, i, if j == s.nextToken then s.calls[c].spent else j);
        assert j == s.nextToken ==> SameFamily(s, s.calls[c].spent, i);
      }
    case _ =>
      forall i: nat, j: nat | SameFamily(t, i, j) && i < j ensures t.rows[i].rotatedAt.Some? {
        assert SameFamily(s, i, j);
      }
  }

  lemma FollowsKept(s: State, t: State, i: nat, j: nat)
    requires RowsInv(s) && Grows(s, t) && Follows(s, i, j)
    ensures Follows(t, i, j)
  {
    assert SameFamily(t, i, j);
    forall k: nat | i < k < j ensures !SameFamily(t, i, k) {
      assert k != s.nextToken && !SameFamily(s, i, k);
    }
  }

  /** Families only grow, and only at the end. */
  lemma GrowthKeepsOrder(s: State, t: State)
    requires RowsInv(s) && Grows(s, t)
    ensures forall i: nat, j: nat :: SameFamily(s, i, j) ==> SameFamily(t, i, j)
    ensures forall i: nat, j: nat :: i in s.rows && j in s.rows && SameFamily(t, i, j) ==> SameFamily(s, i, j)
    ensures forall i: nat, j: nat :: Follows(s, i, j) ==> Follows(t, i, j)
    ensures forall i: nat :: i in s.rows && !Newest(s, i) ==> !Newest(t, i)
  {
    forall i: nat, j: nat | Follows(s, i, j)
      ensures Follows(t, i, j)
    {
      FollowsKept(s, t, i, j);
    }
    forall i: nat | i in s.rows && !Newest(s, i)
      ensures !Newest(t, i)
    {
      var j: nat :| SameFamily(s, i, j) && j > i;
      assert SameFamily(t, i, j);
    }
  }

  lemma CallKept(s: State, t: State, k: Call)
    requires RowsInv(s) && RowsInv(t) && Grows(s, t) && s.devices.Keys <= t.devices.Keys && CallInv(s, k)
    requires k.Inserting? ==> Newest(t, k.spent)
    requires k.Linking? ==> t.rows[k.spent].replacedById.None?
    ensures CallInv(t, k)
  {
    GrowthKeepsOrder(s, t);
  }

  lemma NewestKept(s: State, t: State, i: nat)
    requires RowsInv(s) && Grows(s, t) && Newest(s, i)
    requires s.nextToken in t.rows && s.nextToken !in s.rows ==> t.rows[s.nextToken].family != s.rows[i].family
    ensures Newest(t, i)
  {
    forall j: nat | SameFamily(t, i, j) ensures j <= i {
      assert j in s.rows;
      assert SameFamily(s, i, j);
    }
  }

  /** Every call other than the one that moved keeps its facts. */
  lemma OtherCallKept(s: State, step: Step, cfg: Config, d: nat)
    requires Inv(s) && Enabled(s, step) && !step.Insert?
    requires Grows(s, Next(s, step, cfg)) && RowsInv(Next(s, step, cfg))
    requires d in s.calls && Next(s, step, cfg).calls[d] == s.calls[d]
    ensures CallInv(Next(s, step, cfg), s.calls[d])
  {
    var t, k := Next(s, step, cfg), s.calls[d];
    assert CallInv(s, k);
    if k.Inserting? {
      NewestKept(s, t, k.spent);
    }
    CallKept(s, t, k);
  }

  lemma StepKeepsCalls(s: State, step: Step, cfg: Config)
    requires Inv(s) && Enabled(s, step)
    ensures CallsInv(Next(s, step, cfg))
  {
    var t := Next(s, step, cfg);
    StepGrows(s, step, cfg);
    StepKeepsRows(s, step, cfg);
    if step.Insert? {
      InsertKeepsCalls(s, step, cfg);
    } else if step.Claim? {
      ClaimKeepsCalls(s, step, cfg);
    } else {
      forall d: nat | d in t.calls ensures CallInv(t, t.calls[d]) {
        OneCallKept(s, step, cfg, d);
      }
      SpentStayDistinct(s, step, cfg);
    }
  }

  lemma SpentStayDistinct(s: State, step: Step, cfg: Config)
    requires SpentDistinct(s) && Enabled(s, step) && !step.Insert? && !step.Claim?
    ensures SpentDistinct(Next(s, step, cfg))
  {
    var t := Next(s, step, cfg);
    assert forall c: nat :: c in t.calls && (t.calls[c].Inserting? || t.calls[c].Linking?) ==>
      c in s.calls && s.calls[c] == t.calls[c];
  }

  lemma OneCallKept(s: State, step: Step, cfg: Config, d: nat)
    requires Inv(s) && Enabled(s, step) && !step.Insert? && !step.Claim?
    requires Grows(s, Next(s, step, cfg)) && RowsInv(Next(s, step, cfg)) && d in Next(s, step, cfg).calls
    ensures CallInv(Next(s, step, cfg), Next(s, step, cfg).calls[d])
  {
    var t := Next(s, step, cfg);
    if d in s.calls && t.calls[d] == s.calls[d] {
      OtherCallKept(s, step, cfg, d);
    }
  }

  lemma LinkedIsNotNewest(s: State, i: nat)
    requires LinksInv(s) && i in s.rows && s.rows[i].replacedById.Some?
    ensures !Newest(s, i)
  {
    assert Follows(s, i, s.rows[i].replacedById.value);
  }

  lemma InsertKeepsOther(s: State, step: Step, cfg: Config, d: nat)
    requires Inv(s) && Enabled(s, step) && step.Insert? && d in s.calls && d != step.call
    requires Grows(s, Next(s, step, cfg)) && RowsInv(Next(s, step, cfg))
    ensures CallInv(Next(s, step, cfg), s.calls[d])
  {
    var t, i, k := Next(s, step, cfg), s.calls[step.call].spent, s.calls[d];
    assert CallInv(s, s.calls[step.call]) && CallInv(s, k);
    if k.Inserting? {
      if s.rows[k.spent].family == s.rows[i].family {
        assert SameFamily(s, k.spent, i) && SameFamily(s, i, k.spent);
      }
      NewestKept(s, t, k.spent);
    }
    CallKept(s, t, k);
  }

  lemma InsertKeepsCalls(s: State, step: Step, cfg: Config)
    requires Inv(s) && Enabled(s, step) && step.Insert?
    requires Grows(s, Next(s, step, cfg)) && RowsInv(Next(s, step, cfg))
    ensures CallsInv(Next(s, step, cfg))
  {
    var t, c := Next(s, step, cfg), step.call;
    var i, j := s.calls[c].spent, s.nextToken;
    assert CallInv(s, s.calls[c]);
    GrowthKeepsOrder(s, t);
    forall d: nat | d in t.calls ensures CallInv(t, t.calls[d]) {
      if d == c {
        assert SameFamily(t, i, j);
        if s.rows[i].replacedById.Some? {
          LinkedIsNotNewest(s, i);
        }
      } else {
        InsertKeepsOther(s, step, cfg, d);
      }
    }
    forall d: nat | d in t.calls && d != c && t.calls[d].Linking? ensures t.calls[d].spent != i {
      assert CallInv(s, s.calls[d]);
      assert SameFamily(s, s.calls[d].spent, s.calls[d].succ);
    }
  }

  lemma ClaimKeepsCalls(s: State, step: Step, cfg: Config)
    requires Inv(s) && Enabled(s, step) && step.Claim?
    requires Grows(s, Next(s, step, cfg)) && RowsInv(Next(s, step, cfg))
    ensures CallsInv(Next(s, step, cfg))
  {
    var t, c := Next(s, step, cfg), step.call;
    var id := s.calls[c].id;
    assert CallInv(s, s.calls[c]);
    forall d: nat | d in t.calls ensures CallInv(t, t.calls[d]) {
      if d != c {
        OtherCallKept(s, step, cfg, d);
      } else if s.rows[id].Live() {
        assert Newest(t, id) by {
          forall j: nat | SameFamily(t, id, j) ensures j <= id {
            assert SameFamily(s, id, j);
          }
        }
      }
    }
    forall d: nat | d in t.calls && d != c && t.calls[d].Inserting? && s.rows[id].Live()
      ensures t.calls[d].spent != id
    {
      assert CallInv(s, s.calls[d]);
    }
  }

  lemma StepKeepsLinks(s: State, step: Step, cfg: Config)
    requires Inv(s) && Enabled(s, step)
    ensures LinksInv(Next(s, step, cfg))
  {
    var t := Next(s, step, cfg);
    StepGrows(s, step, cfg);
    GrowthKeepsOrder(s, t);
    forall i: nat | i in t.rows && t.rows[i].replacedById.Some?
      ensures Follows(t, i, t.rows[i].replacedById.value)
    {
      LinkKept(s, step, cfg, i);
    }
    forall i: nat, j: nat | SameFamily(t, i, j) && i < j && t.rows[i].replacedById.None?
      ensures LinkPending(t, i)
    {
      PendingKept(s, step, cfg, i, j);
    }
    forall i: nat | i in t.unlinked
      ensures i in t.rows && t.rows[i].replacedById.None? && !Newest(t, i)
    {
      UnlinkedKept(s, step, cfg, i);
    }
  }

  lemma LinkKept(s: State, step: Step, cfg: Config, i: nat)
    requires Inv(s) && Enabled(s, step) && Grows(s, Next(s, step, cfg))
    requires i in Next(s, step, cfg).rows && Next(s, step, cfg).rows[i].replacedById.Some?
    ensures Follows(Next(s, step, cfg), i, Next(s, step, cfg).rows[i].replacedById.value)
  {
    var t := Next(s, step, cfg);
    var j := t.rows[i].replacedById.value;
    if i in s.rows && s.rows[i].replacedById.Some? {
      assert Follows(s, i, j);
    } else {
      assert CallInv(s, s.calls[step.call]);
    }
    FollowsKept(s, t, i, j);
  }

  lemma UnlinkedKept(s: State, step: Step, cfg: Config, i: nat)
    requires Inv(s) && Enabled(s, step) && Grows(s, Next(s, step, cfg)) && i in Next(s, step, cfg).unlinked
    ensures var t := Next(s, step, cfg); i in t.rows && t.rows[i].replacedById.None? && !Newest(t, i)
  {
    var t := Next(s, step, cfg);
    GrowthKeepsOrder(s, t);
    if i !in s.unlinked {
      assert CallInv(s, s.calls[step.call]);
      assert SameFamily(s, i, s.calls[step.call].succ);
    }
  }

  lemma PendingKept(s: State, step: Step, cfg: Config, i: nat, j: nat)
    requires Inv(s) && Enabled(s, step) && Grows(s, Next(s, step, cfg))
    requires var t := Next(s, step, cfg); SameFamily(t, i, j) && i < j && t.rows[i].replacedById.None?
    ensures LinkPending(Next(s, step, cfg), i)
  {
    var t := Next(s, step, cfg);
    if step.Insert? && j == s.nextToken && i == s.calls[step.call].spent {
      assert t.calls[step.call].Linking? && t.calls[step.call].spent == i;
    } else {
      var m := if step.Insert? && j == s.nextToken then s.calls[step.call].spent else j;
      if step.Insert? {
        assert CallInv(s, s.calls[step.call]);
        assert SameFamily(s, m, i) || j != s.nextToken;
      }
      assert SameFamily(s, i, m);
      StillPending(s, step, cfg, i);
    }
  }

  lemma StillPending(s: State, step: Step, cfg: Config, i: nat)
    requires Enabled(s, step) && LinkPending(s, i) && i in s.rows
    requires i in Next(s, step, cfg).rows && Next(s, step, cfg).rows[i].replacedById.None?
    ensures LinkPending(Next(s, step, cfg), i)
  {
    var t := Next(s, step, cfg);
    if i !in s.unlinked {
      var c: nat :| c in s.calls && s.calls[c].Linking? && s.calls[c].spent == i;
      if t.calls[c] == s.calls[c] {
        assert t.calls[c].Linking? && t.calls[c].spent == i;
      }
    }
  }

  lemma StepKeepsInv(s: State, step: Step, cfg: Config)
    requires Inv(s) && Enabled(s, step)
    ensures Inv(Next(s, step, cfg))
  {
    StepKeepsRows(s, step, cfg);
    StepKeepsCalls(s, step, cfg);
    StepKeepsLinks(s, step, cfg);
  }

  // ---------------------------------------------------------------------------
  // Whole runs
  // ---------------------------------------------------------------------------

  ghost predicate Legal(s: State, steps: seq<Step>, cfg: Config)
    decreases |steps|
  {
    steps == [] || (Enabled(s, steps[0]) && Legal(Next(s, steps[0], cfg), steps[1..], cfg))
  }

  ghost function Run(s: State, steps: seq<Step>, cfg: Config): State
    requires Legal(s, steps, cfg)
    decreases |steps|
  {
    if steps == [] then s else Run(Next(s, steps[0], cfg), steps[1..], cfg)
  }

  /** The invariant holds after every interleaving. */
  lemma {:induction false} RunKeepsInv(s: State, steps: seq<Step>, cfg: Config)
    requires Inv(s) && Legal(s, steps, cfg)
    ensures Inv(Run(s, steps, cfg))
    decreases |steps|
  {
    if steps != [] {
      StepKeepsInv(s, steps[0], cfg);
      RunKeepsInv(Next(s, steps[0], cfg), steps[1..], cfg);
    }
  }

  ghost function LiveTokens(s: State, f: nat): set<nat> {
    set i | i in s.rows && s.rows[i].family == f && s.rows[i].Live()
  }

  /** Rotations of the family that have claimed a token and not yet inserted its successor. */
  ghost function InFlight(s: State, f: nat): set<nat> {
    set c | c in s.calls && s.calls[c].Inserting? && s.calls[c].family == f
  }

  lemma AtMostOne<T>(a: set<T>)
    requires forall x, y :: x in a && y in a ==> x == y
    ensures |a| <= 1
  {
    if a != {} {
      var x :| x in a;
      assert a == {x};
    }
  }

  /** A family never has two usable tokens, not even one usable and one on its way. */
  lemma AtMostOneLive(s: State, f: nat)
    requires Inv(s)
    ensures |LiveTokens(s, f)| + |InFlight(s, f)| <= 1
  {
    forall i: nat, j: nat | i in LiveTokens(s, f) && j in LiveTokens(s, f) ensures i == j {
      assert SameFamily(s, i, j) && SameFamily(s, j, i);
    }
    forall c: nat, d: nat | c in InFlight(s, f) && d in InFlight(s, f) ensures c == d {
      assert CallInv(s, s.calls[c]) && CallInv(s, s.calls[d]);
      var i, j := s.calls[c].spent, s.calls[d].spent;
      assert SameFamily(s, i, j) && SameFamily(s, j, i);
    }
    AtMostOne(LiveTokens(s, f));
    AtMostOne(InFlight(s, f));
    if LiveTokens(s, f) != {} && InFlight(s, f) != {} {
      var i: nat :| i in LiveTokens(s, f);
      var c: nat :| c in InFlight(s, f);
      assert CallInv(s, s.calls[c]);
      LiveIsNewest(s, i, s.calls[c].spent);
    }
  }

  lemma LiveIsNewest(s: State, i: nat, j: nat)
    requires Inv(s) && SameFamily(s, i, j) && s.rows[i].Live()
    ensures j <= i && (s.rows[j].rotatedAt.Some? ==> !Newest(s, j))
  {
    assert SameFamily(s, j, i);
  }

  ghost predicate Ascending(p: seq<nat>) {
    forall a: nat, b: nat :: a < b < |p| ==> p[a] < p[b]
  }

  /** The family's tokens below n, oldest first. */
  ghost function FamilyTokens(s: State, f: nat, n: nat): seq<nat> {
    if n == 0 then []
    else FamilyTokens(s, f, n - 1) + (if n - 1 in s.rows && s.rows[n - 1].family == f then [n - 1] else [])
  }

  ghost predicate InFamily(s: State, f: nat, n: nat, i: nat) {
    i < n && i in s.rows && s.rows[i].family == f
  }

  lemma {:induction false} FamilyTokensAre(s: State, f: nat, n: nat)
    ensures forall i: nat :: i in FamilyTokens(s, f, n) <==> InFamily(s, f, n, i)
  {
    if n > 0 {
      FamilyTokensAre(s, f, n - 1);
      var q := FamilyTokens(s, f, n - 1);
      forall i: nat ensures i in FamilyTokens(s, f, n) <==> InFamily(s, f, n, i) {
        assert i in q <==> InFamily(s, f, n - 1, i);
      }
    }
  }

  lemma {:induction false} FamilyTokensOrdered(s: State, f: nat, n: nat)
    ensures Ascending(FamilyTokens(s, f, n))
  {
    if n > 0 {
      FamilyTokensAre(s, f, n - 1);
      FamilyTokensOrdered(s, f, n - 1);
      var q := FamilyTokens(s, f, n - 1);
      forall a: nat | a < |q| ensures q[a] < n - 1 {
        assert q[a] in q;
      }
    }
  }

  /** Token i is spent and leads to j, or the link is still to be written. */
  ghost predicate Linked(s: State, i: nat, j: nat) {
    && i in s.rows && s.rows[i].rotatedAt.Some?
    && (if s.rows[i].replacedById.Some? then s.rows[i].replacedById.value == j else LinkPending(s, i))
  }

  /** The tokens of a family form one path: each spent token leads to the next and the last leads nowhere. */
  ghost predicate OnePath(s: State, f: nat, p: seq<nat>) {
    && (forall i: nat :: i in p <==> i in s.rows && s.rows[i].family == f)
    && Ascending(p)
    && (forall a: nat :: a + 1 < |p| ==> Linked(s, p[a], p[a + 1]))
    && (p != [] ==> p[|p| - 1] in s.rows && s.rows[p[|p| - 1]].replacedById.None?)
  }

  lemma NextPlace(p: seq<nat>, a: nat, b: nat)
    requires a + 1 < |p| && b < |p| && Ascending(p)
    requires p[a] < p[b] && !(p[a + 1] < p[b])
    ensures b == a + 1
  {
  }

  /** A spent token in the list leads to the next one, or its link is still to be written. */
  lemma PathLink(s: State, f: nat, p: seq<nat>, a: nat)
    requires Inv(s) && a + 1 < |p| && Ascending(p)
    requires forall i: nat :: i in p <==> i in s.rows && s.rows[i].family == f
    ensures Linked(s, p[a], p[a + 1])
  {
    assert p[a] in p && p[a + 1] in p;
    assert SameFamily(s, p[a], p[a + 1]);
    if s.rows[p[a]].replacedById.Some? {
      var j := s.rows[p[a]].replacedById.value;
      assert Follows(s, p[a], j) && SameFamily(s, p[a], j);
      assert j in p;
      var b: nat :| b < |p| && p[b] == j;
      NextPlace(p, a, b);
    }
  }

  lemma PathEnd(s: State, f: nat, p: seq<nat>)
    requires Inv(s) && p != [] && Ascending(p)
    requires forall i: nat :: i in p <==> i in s.rows && s.rows[i].family == f
    ensures p[|p| - 1] in s.rows && s.rows[p[|p| - 1]].replacedById.None?
  {
    var last := p[|p| - 1];
    assert last in p;
    forall j: nat | SameFamily(s, last, j) ensures j <= last {
      assert j in p;
    }
    if s.rows[last].replacedById.Some? {
      LinkedIsNotNewest(s, last);
    }
  }

  lemma FamilyIsOnePath(s: State, f: nat)
    requires Inv(s)
    ensures OnePath(s, f, FamilyTokens(s, f, s.nextToken))
  {
    var p := FamilyTokens(s, f, s.nextToken);
    FamilyTokensAre(s, f, s.nextToken);
    FamilyTokensOrdered(s, f, s.nextToken);
    forall i: nat ensures i in p <==> i in s.rows && s.rows[i].family == f {
      assert i in p <==> InFamily(s, f, s.nextToken, i);
    }
    forall a: nat | a + 1 < |p|
      ensures Linked(s, p[a], p[a + 1])
    {
      PathLink(s, f, p, a);
    }
    if p != [] {
      PathEnd(s, f, p);
    }
  }

  // ---------------------------------------------------------------------------
  // Revocation after reuse
  // ---------------------------------------------------------------------------

  /** No usable token, and none on its way. */
  ghost predicate Dead(s: State, f: nat) {
    && f < s.nextFamily
    && (forall i: nat :: i in s.rows && s.rows[i].family == f ==> !s.rows[i].Live())
    && (forall c: nat :: c in s.calls && s.calls[c].Inserting? ==> s.calls[c].family != f)
  }

  lemma StepKeepsDead(s: State, step: Step, cfg: Config, f: nat)
    requires Inv(s) && Enabled(s, step) && Dead(s, f)
    ensures Dead(Next(s, step, cfg), f)
  {
    StepGrows(s, step, cfg);
    if step.Claim? {
      assert CallInv(s, s.calls[step.call]);
    }
  }

  lemma {:induction false} DeadForever(s: State, steps: seq<Step>, cfg: Config, f: nat)
    requires Inv(s) && Legal(s, steps, cfg) && Dead(s, f)
    ensures Dead(Run(s, steps, cfg), f)
    decreases |steps|
  {
    if steps != [] {
      StepKeepsInv(s, steps[0], cfg);
      StepKeepsDead(s, steps[0], cfg, f);
      DeadForever(Next(s, steps[0], cfg), steps[1..], cfg, f);
    }
  }

  ghost predicate NeverLiveAgain(s: State, f: nat, cfg: Config) {
    forall steps: seq<Step> :: Legal(s, steps, cfg) ==> LiveTokens(Run(s, steps, cfg), f) == {}
  }

  /** Presenting a token that was already spent or revoked always leads to the revocation of its family. */
  lemma SpentTokenLeadsToRevocation(s: State, c: nat, token: nat, now: int, cfg: Config)
    requires Inv(s) && c !in s.calls && token in s.rows && !s.rows[token].Live()
    ensures Enabled(s, Read(c, token, now))
    ensures Next(s, Read(c, token, now), cfg).calls[c]
         == Revoking(s.rows[token].family, ReuseDetected, Reuse(s.rows[token].userId))
  {
  }

  /** So does losing the race for a token: the call that finds it taken revokes the family. */
  lemma LostClaimLeadsToRevocation(s: State, c: nat, now: int, cfg: Config)
    requires Inv(s) && Enabled(s, Claim(c, now)) && !s.rows[s.calls[c].id].Live()
    ensures Next(s, Claim(c, now), cfg).calls[c]
         == Revoking(s.rows[s.calls[c].id].family, ReuseDetected, Reuse(s.calls[c].userId))
  {
    assert CallInv(s, s.calls[c]);
  }

  /**
   * Revoking a family kills every session on it, for good, exactly when no rotation
   * of that family is between its claim and its insert at that moment.
   */
  lemma RevocationIsFinalIff(s: State, c: nat, now: int, cfg: Config)
    requires Inv(s) && Enabled(s, Revoke(c, now))
    ensures var f := s.calls[c].family;
      NeverLiveAgain(Next(s, Revoke(c, now), cfg), f, cfg) <==> InFlight(s, f) == {}
  {
    var f, t := s.calls[c].family, Next(s, Revoke(c, now), cfg);
    assert CallInv(s, s.calls[c]);
    StepKeepsInv(s, Revoke(c, now), cfg);
    if InFlight(s, f) == {} {
      assert Dead(t, f) by {
        forall d: nat | d in t.calls && t.calls[d].Inserting? ensures t.calls[d].family != f {
          assert d !in InFlight(s, f);
        }
      }
      forall steps: seq<Step> | Legal(t, steps, cfg) ensures LiveTokens(Run(t, steps, cfg), f) == {} {
        DeadForever(t, steps, cfg, f);
      }
    } else {
      var d: nat :| d in InFlight(s, f);
      var steps := [Insert(d, now)];
      var u := Next(t, steps[0], cfg);
      assert steps[1..] == [];
      assert Legal(u, steps[1..], cfg) && Run(t, steps, cfg) == u;
      assert s.nextToken in LiveTokens(u, f);
    }
  }

  /** The call wins the race for a live token of the family, so a successor is on its way. */
  predicate Wins(s: State, step: Step, f: nat)
    requires Enabled(s, step)
  {
    step.Claim? && s.calls[step.call].family == f && s.rows[s.calls[step.call].id].Live()
  }

  ghost predicate NobodyWins(s: State, steps: seq<Step>, cfg: Config, f: nat)
    requires Legal(s, steps, cfg)
    decreases |steps|
  {
    steps == [] || (!Wins(s, steps[0], f) && NobodyWins(Next(s, steps[0], cfg), steps[1..], cfg, f))
  }

  lemma {:induction false} NothingTakesOff(s: State, steps: seq<Step>, cfg: Config, f: nat)
    requires Legal(s, steps, cfg) && NobodyWins(s, steps, cfg, f) && InFlight(s, f) == {}
    ensures InFlight(Run(s, steps, cfg), f) == {}
    decreases |steps|
  {
    if steps != [] {
      var t := Next(s, steps[0], cfg);
      assert InFlight(t, f) <= InFlight(s, f);
      NothingTakesOff(t, steps[1..], cfg, f);
    }
  }

  lemma ReadStartsNothing(s: State, c: nat, token: nat, now: int, cfg: Config)
    requires Inv(s) && c !in s.calls && token in s.rows && !s.rows[token].Live() && Enabled(s, Read(c, token, now))
    ensures var f, read := s.rows[token].family, Next(s, Read(c, token, now), cfg);
      && Inv(read) && read.calls[c].Revoking? && read.calls[c].family == f && InFlight(read, f) == InFlight(s, f)
  {
    StepKeepsInv(s, Read(c, token, now), cfg);
  }

  /** The call has made no step of its own in the run. */
  ghost predicate StillWaits(s: State, steps: seq<Step>, cfg: Config, c: nat)
    requires Legal(s, steps, cfg)
  {
    c in s.calls && c in Run(s, steps, cfg).calls && Run(s, steps, cfg).calls[c] == s.calls[c]
  }

  /**
   * A spent token is presented; between reading it and revoking its family, anything may
   * happen. The family is then dead for good exactly when nothing of it is in flight at
   * the revocation, which nothing in flight at the read and no race won since ensures.
   */
  lemma ReuseEndsFamilyIff(s: State, c: nat, token: nat, now: int, between: seq<Step>, later: int, cfg: Config)
    requires Inv(s) && c !in s.calls && token in s.rows && !s.rows[token].Live()
    requires Enabled(s, Read(c, token, now)) && Legal(Next(s, Read(c, token, now), cfg), between, cfg)
    requires StillWaits(Next(s, Read(c, token, now), cfg), between, cfg, c)
    ensures var f, t := s.rows[token].family, Run(Next(s, Read(c, token, now), cfg), between, cfg);
      && Enabled(t, Revoke(c, later))
      && (NeverLiveAgain(Next(t, Revoke(c, later), cfg), f, cfg) <==> InFlight(t, f) == {})
      && (InFlight(s, f) == {} && NobodyWins(Next(s, Read(c, token, now), cfg), between, cfg, f)
          ==> InFlight(t, f) == {})
  {
    var f, read := s.rows[token].family, Next(s, Read(c, token, now), cfg);
    ReadStartsNothing(s, c, token, now, cfg);
    RunKeepsInv(read, between, cfg);
    RevocationIsFinalIff(Run(read, between, cfg), c, later, cfg);
    if InFlight(s, f) == {} && NobodyWins(read, between, cfg, f) {
      NothingTakesOff(read, between, cfg, f);
    }
  }

  // ---------------------------------------------------------------------------
  // Sessions nobody touches
  // ---------------------------------------------------------------------------

  /** No call in progress is about the family. */
  ghost predicate NobodyOn(s: State, f: nat) {
    forall c :: c in s.calls ==>
      match s.calls[c]
      case Claiming(_, _, _, _, g) => g != f
      case Inserting(_, _, _, _, g) => g != f
      case Linking(i, _, _, _) => i in s.rows && s.rows[i].family != f
      case Revoking(g, _, _) => g != f
      case Done(_) => true
  }

  /** The step presents no token of the family, and does not revoke a device one of them belongs to. */
  ghost predicate Elsewhere(s: State, step: Step, f: nat) {
    match step
    case Read(_, t, _) => t in s.rows ==> s.rows[t].family != f
    case ReadForSignOut(_, t) => t in s.rows ==> s.rows[t].family != f
    case RevokeSessions(d, _) => forall i :: i in s.rows && s.rows[i].family == f ==> s.rows[i].deviceId != d
    case _ => true
  }

  ghost predicate AllElsewhere(s: State, steps: seq<Step>, cfg: Config, f: nat)
    requires Legal(s, steps, cfg)
    decreases |steps|
  {
    steps == [] || (Elsewhere(s, steps[0], f) && AllElsewhere(Next(s, steps[0], cfg), steps[1..], cfg, f))
  }

  /** The same tokens, each as it was. */
  ghost predicate SameTokens(s: State, t: State, f: nat) {
    && (forall i :: i in s.rows && s.rows[i].family == f ==> i in t.rows && t.rows[i] == s.rows[i])
    && (forall i :: i in t.rows && t.rows[i].family == f ==> i in s.rows && s.rows[i].family == f)
  }

  lemma StepLeavesFamily(s: State, step: Step, cfg: Config, f: nat)
    requires Inv(s) && Enabled(s, step) && f < s.nextFamily && NobodyOn(s, f) && Elsewhere(s, step, f)
    ensures SameTokens(s, Next(s, step, cfg), f)
  {
    if step.Claim? || step.Link? {
      assert CallInv(s, s.calls[step.call]);
    }
  }

  lemma StepLeavesNobody(s: State, step: Step, cfg: Config, f: nat)
    requires Inv(s) && Enabled(s, step) && f < s.nextFamily && NobodyOn(s, f) && Elsewhere(s, step, f)
    ensures f < Next(s, step, cfg).nextFamily && NobodyOn(Next(s, step, cfg), f)
  {
    var t := Next(s, step, cfg);
    StepGrows(s, step, cfg);
    if step.Claim? || step.Insert? {
      assert CallInv(s, s.calls[step.call]);
    }
    forall c | c in t.calls && t.calls[c].Linking?
      ensures t.calls[c].spent in t.rows && t.rows[t.calls[c].spent].family != f
    {
    }
  }

  /**
   * Other sessions stay out of it: over any run in which no token of a family is
   * presented and its devices are not revoked, whatever is spent, replaced, signed out
   * or found stolen elsewhere, every token of the family stays exactly as it was.
   */
  lemma {:induction false} OtherSessionsUntouched(s: State, steps: seq<Step>, cfg: Config, f: nat)
    requires Inv(s) && Legal(s, steps, cfg) && f < s.nextFamily && NobodyOn(s, f) && AllElsewhere(s, steps, cfg, f)
    ensures SameTokens(s, Run(s, steps, cfg), f)
    decreases |steps|
  {
    if steps != [] {
      StepKeepsInv(s, steps[0], cfg);
      StepLeavesFamily(s, steps[0], cfg, f);
      StepLeavesNobody(s, steps[0], cfg, f);
      OtherSessionsUntouched(Next(s, steps[0], cfg), steps[1..], cfg, f);
    }
  }

  // ---------------------------------------------------------------------------
  // Revocation of a device's sessions
  // ---------------------------------------------------------------------------

  ghost function DeviceLive(s: State, d: nat): set<nat> {
    set i | i in s.rows && s.rows[i].deviceId == d && s.rows[i].Live()
  }

  ghost function DeviceInFlight(s: State, d: nat): set<nat> {
    set c | c in s.calls && s.calls[c].Inserting? && s.calls[c].deviceId == d
  }

  ghost predicate NoSignIn(steps: seq<Step>, d: nat) {
    forall k :: 0 <= k < |steps| && steps[k].Start? ==> steps[k].deviceId != d
  }

  /** Until somebody signs in on the device again, none of its tokens is live. */
  ghost predicate SignedOutFor(s: State, d: nat, cfg: Config) {
    forall steps: seq<Step> :: Legal(s, steps, cfg) && NoSignIn(steps, d) ==> DeviceLive(Run(s, steps, cfg), d) == {}
  }

  ghost predicate DeviceDead(s: State, d: nat) {
    && (forall i: nat :: i in s.rows && s.rows[i].deviceId == d ==> !s.rows[i].Live())
    && (forall c: nat :: c in s.calls && s.calls[c].Inserting? ==> s.calls[c].deviceId != d)
  }

  lemma StepKeepsDeviceDead(s: State, step: Step, cfg: Config, d: nat)
    requires Inv(s) && Enabled(s, step) && DeviceDead(s, d) && NoSignIn([step], d)
    ensures DeviceDead(Next(s, step, cfg), d)
  {
    assert [step][0] == step;
    StepGrows(s, step, cfg);
    if step.Claim? {
      assert CallInv(s, s.calls[step.call]);
    }
  }

  lemma {:induction false} DeviceDeadUntilSignIn(s: State, steps: seq<Step>, cfg: Config, d: nat)
    requires Inv(s) && Legal(s, steps, cfg) && DeviceDead(s, d) && NoSignIn(steps, d)
    ensures DeviceDead(Run(s, steps, cfg), d)
    decreases |steps|
  {
    if steps != [] {
      StepKeepsInv(s, steps[0], cfg);
      StepKeepsDeviceDead(s, steps[0], cfg, d);
      DeviceDeadUntilSignIn(Next(s, steps[0], cfg), steps[1..], cfg, d);
    }
  }

  /**
   * Revoking the sessions of a device leaves none of its tokens live, whatever follows
   * other than a new sign-in there, exactly when no rotation on it is in flight.
   */
  lemma DeviceRevocationIsFinalIff(s: State, d: nat, now: int, cfg: Config)
    requires Inv(s)
    ensures SignedOutFor(Next(s, RevokeSessions(d, now), cfg), d, cfg) <==> DeviceInFlight(s, d) == {}
  {
    var t := Next(s, RevokeSessions(d, now), cfg);
    StepKeepsInv(s, RevokeSessions(d, now), cfg);
    if DeviceInFlight(s, d) == {} {
      assert DeviceDead(t, d) by {
        forall c: nat | c in t.calls && t.calls[c].Inserting? ensures t.calls[c].deviceId != d {
          assert c !in DeviceInFlight(s, d);
        }
      }
      forall steps: seq<Step> | Legal(t, steps, cfg) && NoSignIn(steps, d)
        ensures DeviceLive(Run(t, steps, cfg), d) == {}
      {
        DeviceDeadUntilSignIn(t, steps, cfg, d);
      }
    } else {
      var c: nat :| c in DeviceInFlight(s, d);
      InFlightSignsIn(t, c, d, now, cfg);
    }
  }

  lemma InFlightSignsIn(t: State, c: nat, d: nat, now: int, cfg: Config)
    requires c in DeviceInFlight(t, d)
    ensures !SignedOutFor(t, d, cfg)
  {
    var steps := [Insert(c, now)];
    var u := Next(t, steps[0], cfg);
    assert steps[1..] == [];
    assert Legal(u, steps[1..], cfg) && Run(t, steps, cfg) == u;
    assert t.nextToken in DeviceLive(u, d);
  }

  lemma RunCons(s: State, step: Step, rest: seq<Step>, cfg: Config)
    requires Enabled(s, step) && Legal(Next(s, step, cfg), rest, cfg)
    ensures Legal(s, [step] + rest, cfg)
    ensures Run(s, [step] + rest, cfg) == Run(Next(s, step, cfg), rest, cfg)
  {
    assert ([step] + rest)[1..] == rest;
  }

  function RaceTail(): seq<Step> {
    [Claim(1, 0)] + ([Claim(2, 0)] + ([Revoke(2, 0)] + ([Insert(1, 0)] + [])))
  }

  /** Two calls have read one live token: the loser revokes, then the winner inserts. */
  lemma RaceEnds(s: State, cfg: Config)
    requires s.calls == map[1 := Claiming(0, 7, 0, true, 0), 2 := Claiming(0, 7, 0, true, 0)]
    requires s.rows.Keys == {0} && s.rows[0].Live() && s.nextToken == 1
    requires s.rows[0].family == 0 && s.rows[0].userId == 7
    ensures Legal(s, RaceTail(), cfg)
    ensures var t := Run(s, RaceTail(), cfg); 2 in t.calls && t.calls[2] == Done(Reuse(7)) && 1 in LiveTokens(t, 0)
  {
    var s1 := Next(s, Claim(1, 0), cfg);
    var s2 := Next(s1, Claim(2, 0), cfg);
    var s3 := Next(s2, Revoke(2, 0), cfg);
    RunCons(s3, Insert(1, 0), [], cfg);
    RunCons(s2, Revoke(2, 0), [Insert(1, 0)] + [], cfg);
    RunCons(s1, Claim(2, 0), [Revoke(2, 0)] + ([Insert(1, 0)] + []), cfg);
    RunCons(s, Claim(1, 0), [Claim(2, 0)] + ([Revoke(2, 0)] + ([Insert(1, 0)] + [])), cfg);
  }

  /** A concrete run: two calls present one token, the loser revokes the family, and the winner's token outlives it. */
  lemma RevocationCanMissTheSuccessor(cfg: Config) returns (s: State, steps: seq<Step>)
    ensures Initial(s) && Legal(s, steps, cfg)
    ensures steps == [Start(7, 0, 0)] + ([Read(1, 0, -1)] + ([Read(2, 0, -1)] + RaceTail()))
    ensures var t := Run(s, steps, cfg); 2 in t.calls && t.calls[2] == Done(Reuse(7)) && 1 in LiveTokens(t, 0)
  {
    s := State(map[], map[0 := Device(true, false)], map[], 0, 0, {});
    var s1 := Next(s, Start(7, 0, 0), cfg);
    var s2 := Next(s1, Read(1, 0, -1), cfg);
    var s3 := Next(s2, Read(2, 0, -1), cfg);
    RaceEnds(s3, cfg);
    RunCons(s2, Read(2, 0, -1), RaceTail(), cfg);
    RunCons(s1, Read(1, 0, -1), [Read(2, 0, -1)] + RaceTail(), cfg);
    RunCons(s, Start(7, 0, 0), [Read(1, 0, -1)] + ([Read(2, 0, -1)] + RaceTail()), cfg);
    steps := [Start(7, 0, 0)] + ([Read(1, 0, -1)] + ([Read(2, 0, -1)] + RaceTail()));
  }

  // ---------------------------------------------------------------------------
  // The service
  // ---------------------------------------------------------------------------

  /** Claim, insert and link, with no other step between them. */
  ghost function Exchanged(s: State, c: nat, now: int, cfg: Config): State
    requires c in s.calls && s.calls[c].Claiming? && s.calls[c].id in s.rows
  {
    var k, n := s.calls[c], s.nextToken;
    s.(rows := s.rows[k.id := s.rows[k.id].(rotatedAt := Some(now), replacedById := Some(n))]
                     [n := FreshRow(k.family, k.userId, k.deviceId, k.trusted, now, cfg)],
       calls := s.calls[c := Done(Rotated(n, k.userId, k.deviceId))],
       nextToken := n + 1)
  }

  lemma ExchangeIsThreeSteps(s: State, c: nat, now: int, cfg: Config)
    requires Inv(s) && Enabled(s, Claim(c, now)) && s.rows[s.calls[c].id].Live()
    ensures var s1 := Next(s, Claim(c, now), cfg);
      Enabled(s1, Insert(c, now)) &&
      var s2 := Next(s1, Insert(c, now), cfg);
      Enabled(s2, Link(c)) && Next(s2, Link(c), cfg) == Exchanged(s, c, now, cfg)
  {
    var k, n := s.calls[c], s.nextToken;
    assert CallInv(s, k) && k.id < n;
    var s1 := Next(s, Claim(c, now), cfg);
    var s2 := Next(s1, Insert(c, now), cfg);
    var s3 := Next(s2, Link(c), cfg);
    assert s3.rows == Exchanged(s, c, now, cfg).rows;
    assert s3.calls == Exchanged(s, c, now, cfg).calls;
  }

  lemma ExchangeLeavesOneLive(s: State, c: nat, now: int, cfg: Config)
    requires Inv(s) && Enabled(s, Claim(c, now)) && Inv(Exchanged(s, c, now, cfg))
    ensures LiveTokens(Exchanged(s, c, now, cfg), s.calls[c].family) == {s.nextToken}
  {
    var t := Exchanged(s, c, now, cfg);
    AtMostOneLive(t, s.calls[c].family);
    assert s.nextToken in LiveTokens(t, s.calls[c].family);
    OnlyElement(LiveTokens(t, s.calls[c].family), s.nextToken);
  }

  lemma StartIsLive(s: State, userId: nat, deviceId: nat, now: int, cfg: Config)
    requires Inv(s) && deviceId in s.devices
    ensures LiveTokens(Next(s, Start(userId, deviceId, now), cfg), s.nextFamily) == {s.nextToken}
  {
  }

  /** Every row of the family that was not revoked is stamped; every other row stays as it was. */
  ghost predicate FamilyRevoked(before: map<nat, Row>, after: map<nat, Row>, family: nat, now: int, reason: Reason) {
    && after.Keys == before.Keys
    && (forall i :: i in before && before[i].family != family ==> after[i] == before[i])
    && (forall i :: i in before && before[i].family == family && before[i].revokedAt.Some? ==> after[i] == before[i])
    && (forall i :: i in before && before[i].family == family && before[i].revokedAt.None? ==>
          after[i] == before[i].(revokedAt := Some(now), revokedReason := Some(reason)))
  }

  /** A token as it is made: unspent, unrevoked, and valid for the days its device is trusted for. */
  ghost predicate Minted(r: Row, family: nat, userId: nat, deviceId: nat, trusted: bool, now: int, cfg: Config) {
    && r.family == family && r.userId == userId && r.deviceId == deviceId
    && r.expiresAt == now + (if trusted then cfg.trustedDays * 86_400_000 else cfg.untrustedDays * 86_400_000)
    && r.rotatedAt.None? && r.revokedAt.None? && r.revokedReason.None? && r.replacedById.None?
  }

  /** The token table and the calls in progress on it. Each method below is one database statement. */
  class SessionService {
    const cfg: Config
    var rows: map<nat, Row>
    var devices: map<nat, Device>
    var calls: map<nat, Call>
    var nextToken: nat
    var nextFamily: nat
    ghost var unlinked: set<nat>

    ghost function Now(): State
      reads this
    {
      State(rows, devices, calls, nextToken, nextFamily, unlinked)
    }

    ghost predicate Valid()
      reads this
    {
      Inv(Now())
    }

    constructor (cfg: Config, devices: map<nat, Device>)
      ensures Valid() && Initial(Now())
      ensures this.cfg == cfg && this.devices == devices
    {
      this.cfg := cfg;
      this.devices := devices;
      rows, calls, nextToken, nextFamily, unlinked := map[], map[], 0, 0, {};
    }

    method StartSession(userId: nat, deviceId: nat, now: int) returns (token: nat)
      requires Valid() && deviceId in devices
      modifies this
      ensures Valid() && Now() == Next(old(Now()), Start(userId, deviceId, now), cfg)
      ensures token == old(nextToken) && LiveTokens(Now(), old(nextFamily)) == {token}
      ensures token !in old(rows) && token in rows && rows == old(rows)[token := rows[token]]
      ensures Minted(rows[token], old(nextFamily), userId, deviceId, devices[deviceId].trusted, now, cfg)
    {
      StepKeepsInv(Now(), Start(userId, deviceId, now), cfg);
      StartIsLive(Now(), userId, deviceId, now, cfg);
      token := nextToken;
      rows := rows[token := FreshRow(nextFamily, userId, deviceId, devices[deviceId].trusted, now, cfg)];
      nextToken := nextToken + 1;
      nextFamily := nextFamily + 1;
    }

    method ReadToken(c: nat, token: nat, now: int)
      requires Valid() && c !in calls
      modifies this`calls
      ensures Valid() && Now() == Next(old(Now()), Read(c, token, now), cfg)
    {
      StepKeepsInv(Now(), Read(c, token, now), cfg);
      if token !in rows {
        calls := calls[c := Done(Invalid)];
        return;
      }
      var existing := rows[token];
      var device := devices[existing.deviceId];
      if existing.rotatedAt.Some? || existing.revokedAt.Some? {
        calls := calls[c := Revoking(existing.family, ReuseDetected, Reuse(existing.userId))];
      } else if existing.expiresAt <= now {
        calls := calls[c := Done(Expired(existing.userId))];
      } else if device.revoked {
        calls := calls[c := Revoking(existing.family, DeviceRevoked, Refused(existing.userId))];
      } else {
        calls := calls[c := Claiming(token, existing.userId, existing.deviceId, device.trusted, existing.family)];
      }
    }

    method ClaimToken(c: nat, now: int)
      requires Valid() && Enabled(Now(), Claim(c, now))
      modifies this`calls, this`rows
      ensures Valid() && Now() == Next(old(Now()), Claim(c, now), cfg)
      ensures var k := old(calls)[c];
        if old(rows)[k.id].rotatedAt.None? && old(rows)[k.id].revokedAt.None? then
          && rows == old(rows)[k.id := old(rows)[k.id].(rotatedAt := Some(now))]
          && calls == old(calls)[c := Inserting(k.id, k.userId, k.deviceId, k.trusted, k.family)]
        else
          rows == old(rows) && calls == old(calls)[c := Revoking(k.family, ReuseDetected, Reuse(k.userId))]
    {
      StepKeepsInv(Now(), Claim(c, now), cfg);
      var k := calls[c];
      var row := rows[k.id];
      if row.rotatedAt.None? && row.revokedAt.None? {
        rows := rows[k.id := row.(rotatedAt := Some(now))];
        calls := calls[c := Inserting(k.id, k.userId, k.deviceId, k.trusted, k.family)];
      } else {
        calls := calls[c := Revoking(k.family, ReuseDetected, Reuse(k.userId))];
      }
    }

    method InsertSuccessor(c: nat, now: int)
      requires Valid() && Enabled(Now(), Insert(c, now))
      modifies this`rows, this`calls, this`nextToken
      ensures Valid() && Now() == Next(old(Now()), Insert(c, now), cfg)
      ensures var k, n := old(calls)[c], old(nextToken);
        && n !in old(rows) && n in rows && rows == old(rows)[n := rows[n]]
        && Minted(rows[n], k.family, k.userId, k.deviceId, k.trusted, now, cfg)
        && calls == old(calls)[c := Linking(k.spent, n, k.userId, k.deviceId)]
    {
      StepKeepsInv(Now(), Insert(c, now), cfg);
      var k := calls[c];
      rows := rows[nextToken := FreshRow(k.family, k.userId, k.deviceId, k.trusted, now, cfg)];
      calls := calls[c := Linking(k.spent, nextToken, k.userId, k.deviceId)];
      nextToken := nextToken + 1;
    }

    method LinkSuccessor(c: nat)
      requires Valid() && c in calls && calls[c].Linking?
      modifies this`rows, this`calls
      ensures Valid() && Now() == Next(old(Now()), Link(c), cfg)
      ensures var k := old(calls)[c];
        && k.spent in old(rows) && rows == old(rows)[k.spent := old(rows)[k.spent].(replacedById := Some(k.succ))]
        && calls == old(calls)[c := Done(Rotated(k.succ, k.userId, k.deviceId))]
    {
      assert CallInv(Now(), calls[c]);
      StepKeepsInv(Now(), Link(c), cfg);
      var k := calls[c];
      rows := rows[k.spent := rows[k.spent].(replacedById := Some(k.succ))];
      calls := calls[c := Done(Rotated(k.succ, k.userId, k.deviceId))];
    }

    method RevokeFamily(c: nat, now: int)
      requires Valid() && Enabled(Now(), Revoke(c, now))
      modifies this`rows, this`calls
      ensures Valid() && Now() == Next(old(Now()), Revoke(c, now), cfg)
      ensures FamilyRevoked(old(rows), rows, old(calls)[c].family, now, old(calls)[c].reason)
      ensures calls == old(calls)[c := Done(old(calls)[c].then_)]
    {
      StepKeepsInv(Now(), Revoke(c, now), cfg);
      var k := calls[c];
      rows := RevokeFamilyRows(rows, k.family, now, k.reason);
      calls := calls[c := Done(k.then_)];
    }

    /** Scoped to one device: every other device keeps its tokens as they were. */
    method RevokeDeviceSessions(deviceId: nat, now: int) returns (count: nat)
      requires Valid()
      modifies this`rows
      ensures Valid() && Now() == Next(old(Now()), RevokeSessions(deviceId, now), cfg)
      ensures count == |set i | i in old(rows) && old(rows)[i].deviceId == deviceId && old(rows)[i].revokedAt.None?|
      ensures rows.Keys == old(rows).Keys
      ensures forall i: nat :: i in rows && rows[i].deviceId == deviceId ==>
        rows[i] == if old(rows)[i].revokedAt.Some? then old(rows)[i]
                   else old(rows)[i].(revokedAt := Some(now), revokedReason := Some(Requested))
      ensures forall i: nat :: i in rows && rows[i].deviceId != deviceId ==> rows[i] == old(rows)[i]
      ensures SignedOutFor(Now(), deviceId, cfg) <==> DeviceInFlight(old(Now()), deviceId) == {}
    {
      DeviceRevocationIsFinalIff(Now(), deviceId, now, cfg);
      StepKeepsInv(Now(), RevokeSessions(deviceId, now), cfg);
      count := |set i | i in rows && rows[i].deviceId == deviceId && rows[i].revokedAt.None?|;
      rows := RevokeDeviceRows(rows, deviceId, now);
    }

    /** The rest of a rotation once its checks have passed, when nothing runs beside it. */
    method Exchange(c: nat, now: int)
      requires Valid() && Enabled(Now(), Claim(c, now)) && rows[calls[c].id].Live()
      modifies this`rows, this`calls, this`nextToken
      ensures Valid() && Now() == Exchanged(old(Now()), c, now, cfg)
      ensures LiveTokens(Now(), old(calls)[c].family) == {old(nextToken)}
    {
      ExchangeIsThreeSteps(Now(), c, now, cfg);
      ClaimToken(c, now);
      InsertSuccessor(c, now);
      LinkSuccessor(c);
      ExchangeLeavesOneLive(old(Now()), c, now, cfg);
    }

    /** `rotate` when nothing runs beside it. */
    method Rotate(c: nat, token: nat, now: int) returns (outcome: Outcome)
      requires Valid() && c !in calls
      modifies this`rows, this`calls, this`nextToken
      ensures Valid()
      ensures token !in old(rows) ==> outcome == Invalid && rows == old(rows)
      ensures token in old(rows) ==> old(rows)[token].deviceId in devices
      ensures token in old(rows) ==>
        var r := old(rows)[token];
        var u := r.userId;
        if r.rotatedAt.Some? || r.revokedAt.Some? then
          && outcome == Reuse(u) && FamilyRevoked(old(rows), rows, r.family, now, ReuseDetected)
          && (NeverLiveAgain(Now(), r.family, cfg) <==> InFlight(old(Now()), r.family) == {})
        else if r.expiresAt <= now then
          outcome == Expired(u) && rows == old(rows)
        else if devices[r.deviceId].revoked then
          outcome == Refused(u) && FamilyRevoked(old(rows), rows, r.family, now, DeviceRevoked)
        else
          && outcome == Rotated(old(nextToken), u, r.deviceId)
          && old(nextToken) !in old(rows) && old(nextToken) in rows
          && rows == old(rows)[token := r.(rotatedAt := Some(now), replacedById := Some(old(nextToken)))]
                      [old(nextToken) := rows[old(nextToken)]]
          && Minted(rows[old(nextToken)], r.family, u, r.deviceId, devices[r.deviceId].trusted, now, cfg)
          && LiveTokens(Now(), r.family) == {old(nextToken)}
    {
      ghost var s := Now();
      if token in rows && !rows[token].Live() {
        ReuseEndsFamilyIff(s, c, token, now, [], now, cfg);
      }
      outcome := RotateOnce(c, token, now);
    }

    method RotateOnce(c: nat, token: nat, now: int) returns (outcome: Outcome)
      requires Valid() && c !in calls
      modifies this`rows, this`calls, this`nextToken
      ensures Valid()
      ensures token !in old(rows) ==> outcome == Invalid && rows == old(rows)
      ensures token in old(rows) ==> old(rows)[token].deviceId in devices
      ensures token in old(rows) ==>
        var r := old(rows)[token];
        var u := r.userId;
        if r.rotatedAt.Some? || r.revokedAt.Some? then
          && outcome == Reuse(u) && FamilyRevoked(old(rows), rows, r.family, now, ReuseDetected)
          && Now() == Next(Next(old(Now()), Read(c, token, now), cfg), Revoke(c, now), cfg)
        else if r.expiresAt <= now then
          outcome == Expired(u) && rows == old(rows)
        else if devices[r.deviceId].revoked then
          outcome == Refused(u) && FamilyRevoked(old(rows), rows, r.family, now, DeviceRevoked)
        else
          && outcome == Rotated(old(nextToken), u, r.deviceId)
          && old(nextToken) !in old(rows) && old(nextToken) in rows
          && rows == old(rows)[token := r.(rotatedAt := Some(now), replacedById := Some(old(nextToken)))]
                      [old(nextToken) := rows[old(nextToken)]]
          && Minted(rows[old(nextToken)], r.family, u, r.deviceId, devices[r.deviceId].trusted, now, cfg)
          && LiveTokens(Now(), r.family) == {old(nextToken)}
    {
      ReadToken(c, token, now);
      match calls[c] {
        case Claiming(_, _, _, _, _) => Exchange(c, now);
        case Revoking(_, _, _) => RevokeFamily(c, now);
        case _ =>
      }
      outcome := calls[c].outcome;
    }

    /** `revokeByToken`: signs one session out, whichever of its tokens is presented. */
    method RevokeByToken(c: nat, token: nat, now: int) returns (found: bool)
      requires Valid() && c !in calls
      modifies this
      ensures Valid() && found == (token in old(rows))
      ensures found ==> FamilyRevoked(old(rows), rows, old(rows)[token].family, now, Requested)
      ensures !found ==> rows == old(rows)
      ensures found ==> LiveTokens(Now(), old(rows)[token].family) == {}
    {
      StepKeepsInv(Now(), ReadForSignOut(c, token), cfg);
      found := token in rows;
      if found {
        calls := calls[c := Revoking(rows[token].family, Requested, SignedOut)];
        RevokeFamily(c, now);
      } else {
        calls := calls[c := Done(Invalid)];
      }
    }
  }

  lemma OnlyElement<T>(a: set<T>, x: T)
    requires x in a && |a| <= 1
    ensures a == {x}
  {
    assert |a - {x}| == |a| - 1;
  }
}
