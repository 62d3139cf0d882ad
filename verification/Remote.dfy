/**
 * Remote-desktop sessions. A session's id is its place in the table, which lists
 * sessions in the order they were created; its signal rows are its post box. A query
 * that names no order may return any rows it has room for: a sweep is handed whichever
 * live sessions it found. Each call is one step and reads the clock once.
 */
module Remote {
  import opened Text
  import opened Mailbox

  datatype Phase = Pending | Connecting | Active | Ended
  {
    function Rank(): nat {
      match this
      case Pending => 0
      case Connecting => 1
      case Active => 2
      case Ended => 3
    }
  }

  datatype Reason =
    | ViewerLeft | HostEnded | ConnectTimeout | IdleTimeout | MaxDuration | HostOffline | PermissionRevoked

  datatype Session = Session(
    agentId: nat, viewerId: nat, viewerDeviceId: nat, state: Phase, issuedAt: int, expiresAt: int,
    connectedAt: Option<int>, endedAt: Option<int>, endReason: Option<Reason>, lastSeenAt: int,
    box: seq<Signal>)
  {
    predicate Live() {
      !state.Ended?
    }

    function Closed(reason: Reason, now: int): Session {
      if Live() then this.(state := Ended, endedAt := Some(now), endReason := Some(reason), box := []) else this
    }
  }

  const GRANT_TTL_MS := 120 * 1000
  const CONNECT_TIMEOUT_MS := 45 * 1000
  const IDLE_TIMEOUT_MS := 300 * 1000
  const MAX_DURATION_MS := 4 * 60 * 60 * 1000
  const OFFLINE_AFTER_MS := 3 * 30 * 1000
  const SWEEP := 200

  // ---------------------------------------------------------------------------
  // Which sessions are stale
  // ---------------------------------------------------------------------------

  /** `beats` holds the last heartbeat of every agent that has sent one. */
  predicate Online(beats: map<nat, int>, agentId: nat, now: int) {
    agentId in beats && now - beats[agentId] <= OFFLINE_AFTER_MS
  }

  function Stale(s: Session, beats: map<nat, int>, now: int): Option<Reason> {
    if s.state != Active && s.expiresAt <= now then Some(ConnectTimeout)
    else if s.state == Connecting && now - s.issuedAt > CONNECT_TIMEOUT_MS then Some(ConnectTimeout)
    else if now - s.lastSeenAt > IDLE_TIMEOUT_MS then Some(IdleTimeout)
    else if s.connectedAt.Some? && now - s.connectedAt.value > MAX_DURATION_MS then Some(MaxDuration)
    else if !Online(beats, s.agentId, now) then Some(HostOffline)
    else None
  }

  /** The five bounds a live session has to meet. */
  ghost predicate InBounds(s: Session, beats: map<nat, int>, now: int) {
    && (s.state == Active || now < s.expiresAt)
    && (s.state == Connecting ==> now <= s.issuedAt + CONNECT_TIMEOUT_MS)
    && now <= s.lastSeenAt + IDLE_TIMEOUT_MS
    && (s.connectedAt.Some? ==> now <= s.connectedAt.value + MAX_DURATION_MS)
    && s.agentId in beats && now <= beats[s.agentId] + OFFLINE_AFTER_MS
  }

  function LiveCount(sessions: seq<Session>): (n: nat)
    ensures n <= |sessions|
    decreases |sessions|
  {
    if sessions == [] then 0
    else LiveCount(sessions[..|sessions| - 1]) + if sessions[|sessions| - 1].Live() then 1 else 0
  }

  /** The ids of the sessions that have not ended, oldest first. */
  function LiveIds(sessions: seq<Session>): (ids: seq<nat>)
    ensures |ids| == LiveCount(sessions)
    ensures forall k :: 0 <= k < |ids| ==> ids[k] < |sessions| && sessions[ids[k]].Live()
    ensures forall j, k :: 0 <= j < k < |ids| ==> ids[j] < ids[k]
    decreases |sessions|
  {
    if sessions == [] then []
    else
      var n := |sessions| - 1;
      LiveIds(sessions[..n]) + if sessions[n].Live() then [n] else []
  }

  function LiveSet(sessions: seq<Session>): set<nat> {
    set i | 0 <= i < |sessions| && sessions[i].Live()
  }

  /** What the query for live sessions may return: 200 of them, or all when there are no more. */
  predicate IsChoice(sessions: seq<Session>, chosen: set<nat>) {
    chosen <= LiveSet(sessions) && |chosen| == if LiveCount(sessions) <= SWEEP then LiveCount(sessions) else SWEEP
  }

  predicate Distinct(ids: seq<nat>) {
    forall j, k :: 0 <= j < k < |ids| ==> ids[j] != ids[k]
  }

  function Members(ids: seq<nat>): set<nat> {
    set k | 0 <= k < |ids| :: ids[k]
  }

  lemma {:induction false} LiveSetSize(sessions: seq<Session>)
    ensures |LiveSet(sessions)| == LiveCount(sessions)
    decreases |sessions|
  {
    if sessions != [] {
      var n := |sessions| - 1;
      LiveSetSize(sessions[..n]);
      assert LiveSet(sessions) == LiveSet(sessions[..n]) + if sessions[n].Live() then {n} else {};
    }
  }

  lemma SubsetOfSize(a: set<nat>, b: set<nat>)
    requires a <= b && |a| == |b|
    ensures a == b
  {
    if a != b {
      var x :| x in b && x !in a;
      assert |b - {x}| == |b| - 1 && a <= b - {x};
      SmallerSet(a, b - {x});
    }
  }

  lemma {:induction false} SmallerSet(a: set<nat>, b: set<nat>)
    requires a <= b
    ensures |a| <= |b|
    decreases a
  {
    if a != {} {
      var x :| x in a;
      SmallerSet(a - {x}, b - {x});
    }
  }

  /** With at most 200 live sessions the query returns them all. */
  lemma SmallChoiceIsAll(sessions: seq<Session>, chosen: set<nat>)
    requires IsChoice(sessions, chosen) && LiveCount(sessions) <= SWEEP
    ensures chosen == LiveSet(sessions)
  {
    LiveSetSize(sessions);
    SubsetOfSize(chosen, LiveSet(sessions));
  }

  lemma {:induction false} LiveIdAt(sessions: seq<Session>, i: nat)
    requires i < |sessions| && sessions[i].Live()
    ensures LiveCount(sessions[..i]) < LiveCount(sessions)
    ensures LiveIds(sessions)[LiveCount(sessions[..i])] == i
    decreases |sessions|
  {
    var n := |sessions| - 1;
    if i < n {
      LiveIdAt(sessions[..n], i);
      assert sessions[..n][..i] == sessions[..i];
    }
  }

  // ---------------------------------------------------------------------------
  // The operations
  // ---------------------------------------------------------------------------

  function ClosedFor(s: Session, why: Option<Reason>, now: int): Session {
    if why.Some? then s.Closed(why.value, now) else s
  }

  /** Every session for which a reason is given is closed. */
  function CloseEach(sessions: seq<Session>, why: seq<Option<Reason>>, now: int): (after: seq<Session>)
    requires |why| == |sessions|
    ensures |after| == |sessions|
    ensures forall i :: 0 <= i < |after| ==> after[i] == ClosedFor(sessions[i], why[i], now)
  {
    seq(|sessions|, i requires 0 <= i < |sessions| =>
      ClosedFor(sessions[i], why[i], now))
  }

  function ExpiryReasons(sessions: seq<Session>, chosen: set<nat>, beats: map<nat, int>, now: int):
      (why: seq<Option<Reason>>)
    ensures |why| == |sessions|
    ensures forall i :: 0 <= i < |why| ==> why[i] == (if i in chosen then Stale(sessions[i], beats, now) else None)
  {
    seq(|sessions|, i requires 0 <= i < |sessions| => if i in chosen then Stale(sessions[i], beats, now) else None)
  }

  function Expire(sessions: seq<Session>, chosen: set<nat>, beats: map<nat, int>, now: int): (after: seq<Session>)
    ensures |after| == |sessions|
  {
    CloseEach(sessions, ExpiryReasons(sessions, chosen, beats, now), now)
  }

  function DeviceReasons(sessions: seq<Session>, deviceId: nat): (why: seq<Option<Reason>>)
    ensures |why| == |sessions|
    ensures forall i :: 0 <= i < |why| ==>
      why[i] == if sessions[i].viewerDeviceId == deviceId then Some(PermissionRevoked) else None
  {
    seq(|sessions|, i requires 0 <= i < |sessions| =>
      if sessions[i].viewerDeviceId == deviceId then Some(PermissionRevoked) else None)
  }

  /** The first live session on an agent (there is one at most), or the length of the table. */
  function FindLive(sessions: seq<Session>, agentId: nat): (i: nat)
    ensures i <= |sessions|
    ensures i < |sessions| ==> sessions[i].Live() && sessions[i].agentId == agentId
    ensures forall k :: 0 <= k < i ==> !(sessions[k].Live() && sessions[k].agentId == agentId)
  {
    if sessions == [] || (sessions[0].Live() && sessions[0].agentId == agentId) then 0
    else 1 + FindLive(sessions[1..], agentId)
  }

  function NewSession(agentId: nat, viewerId: nat, deviceId: nat, now: int): Session {
    Session(agentId, viewerId, deviceId, Pending, now, now + GRANT_TTL_MS, None, None, None, now, [])
  }

  datatype Caller = ByViewer(userId: nat) | ByHost(authorised: bool)
  {
    function AsRole(): Role {
      if ByViewer? then Viewer else Host
    }

    /** Whether the caller is a party to this session. */
    predicate May(s: Session) {
      match this
      case ByViewer(userId) => s.viewerId == userId
      case ByHost(authorised) => authorised
    }
  }

  datatype Call =
    | Create(agentId: nat, viewerId: nat, deviceId: nat, admitted: bool,
             chosen: set<nat>, beats: map<nat, int>, now: int)
    | Heartbeat(userId: nat, id: nat, now: int)
    | Post(caller: Caller, id: nat, letter: Letter, now: int)
    | Collect(caller: Caller, id: nat)
    | Connected(authorised: bool, id: nat, now: int)
    | End(allowed: bool, id: nat, reason: Reason, now: int)
    | ExpireStale(chosen: set<nat>, beats: map<nat, int>, now: int)
    | EndForDevice(deviceId: nat, now: int)

  /** What a party's signal does to a session that has not ended. */
  function Posted(s: Session, caller: Caller, letter: Letter, now: int): Session {
    if s.expiresAt <= now && s.state == Pending then s.Closed(ConnectTimeout, now)
    else if letter.kind == "bye" then s.Closed(if caller.ByViewer? then ViewerLeft else HostEnded, now)
    else
      var met := s.state == Pending && (letter.kind == "offer" || letter.kind == "answer");
      s.(state := if met then Connecting else s.state,
         box := Appended(s.box, MaxSeq(s.box) + 1, caller.AsRole(), letter))
  }

  function Created(sessions: seq<Session>, agentId: nat, viewerId: nat, deviceId: nat, now: int): seq<Session> {
    var i := FindLive(sessions, agentId);
    if i == |sessions| then sessions + [NewSession(agentId, viewerId, deviceId, now)]
    else if sessions[i].viewerId != viewerId then sessions
    else sessions[i := sessions[i].Closed(ViewerLeft, now)] + [NewSession(agentId, viewerId, deviceId, now)]
  }

  function Apply(sessions: seq<Session>, c: Call): seq<Session> {
    match c
    case Create(agentId, viewerId, deviceId, admitted, chosen, beats, now) =>
      if !admitted || !Online(beats, agentId, now) then sessions
      else Created(Expire(sessions, chosen, beats, now), agentId, viewerId, deviceId, now)
    case Heartbeat(userId, id, now) =>
      if id < |sessions| && sessions[id].viewerId == userId && sessions[id].Live()
      then sessions[id := sessions[id].(lastSeenAt := now)] else sessions
    case Post(caller, id, letter, now) =>
      if id < |sessions| && caller.May(sessions[id]) && sessions[id].Live()
      then sessions[id := Posted(sessions[id], caller, letter, now)] else sessions
    case Collect(caller, id) =>
      if id < |sessions| && caller.May(sessions[id])
      then sessions[id := sessions[id].(box := Collected(sessions[id].box, caller.AsRole()))] else sessions
    case Connected(authorised, id, now) =>
      if id < |sessions| && authorised && sessions[id].Live() then
        var s := sessions[id];
        sessions[id := s.(state := Active, connectedAt := Some(s.connectedAt.GetOr(now)), lastSeenAt := now)]
      else sessions
    case End(allowed, id, reason, now) =>
      if id < |sessions| && allowed then sessions[id := sessions[id].Closed(reason, now)] else sessions
    case ExpireStale(chosen, beats, now) => Expire(sessions, chosen, beats, now)
    case EndForDevice(deviceId, now) => CloseEach(sessions, DeviceReasons(sessions, deviceId), now)
  }

  // ---------------------------------------------------------------------------
  // What a caller sees of each call
  // ---------------------------------------------------------------------------

  /** The session has ended, for this reason, and its box is empty; the rest is as it was. */
  ghost predicate Ends(s: Session, t: Session, reason: Reason, now: int) {
    t == s.(state := Ended, endedAt := Some(now), endReason := Some(reason), box := [])
  }

  /** The bound that a reason for closing speaks of is broken. */
  ghost predicate Breaks(s: Session, reason: Reason, beats: map<nat, int>, now: int) {
    match reason
    case ConnectTimeout =>
      (s.state != Active && s.expiresAt <= now) || (s.state == Connecting && s.issuedAt + 45_000 < now)
    case IdleTimeout => s.lastSeenAt + 300_000 < now
    case MaxDuration => s.connectedAt.Some? && s.connectedAt.value + 14_400_000 < now
    case HostOffline => s.agentId !in beats || beats[s.agentId] + 90_000 < now
    case _ => false
  }

  /** A sweep: of the sessions looked at, those out of bounds have ended for a bound they break. */
  ghost predicate SweptTo(before: seq<Session>, after: seq<Session>, looked: set<nat>, beats: map<nat, int>, now: int) {
    && |after| == |before|
    && forall i :: 0 <= i < |before| ==>
      if i in looked && before[i].state != Ended && !InBounds(before[i], beats, now)
      then exists reason :: Ends(before[i], after[i], reason, now) && Breaks(before[i], reason, beats, now)
      else after[i] == before[i]
  }

  lemma SweepShows(sessions: seq<Session>, looked: set<nat>, beats: map<nat, int>, now: int)
    ensures SweptTo(sessions, Expire(sessions, looked, beats, now), looked, beats, now)
  {
    var after := Expire(sessions, looked, beats, now);
    forall i | 0 <= i < |sessions| && i in looked && sessions[i].state != Ended && !InBounds(sessions[i], beats, now)
      ensures exists reason :: Ends(sessions[i], after[i], reason, now) && Breaks(sessions[i], reason, beats, now)
    {
      assert Ends(sessions[i], after[i], Stale(sessions[i], beats, now).value, now);
    }
  }

  /** The session is live and not swept away. */
  ghost predicate Survives(sessions: seq<Session>, looked: set<nat>, beats: map<nat, int>, now: int, i: nat) {
    i < |sessions| && sessions[i].state != Ended && (i in looked ==> InBounds(sessions[i], beats, now))
  }

  /** The session that holds the computer once the sweep is done. */
  ghost predicate Holds(sessions: seq<Session>, looked: set<nat>, beats: map<nat, int>, now: int,
                        agentId: nat, i: nat) {
    && Survives(sessions, looked, beats, now, i) && sessions[i].agentId == agentId
    && forall k: nat :: k < i && Survives(sessions, looked, beats, now, k) ==> sessions[k].agentId != agentId
  }

  /** Who asks for which computer, whether they may, and what the sweep looks at. */
  datatype Wish = Wish(agentId: nat, viewerId: nat, deviceId: nat, admitted: bool,
                       looked: set<nat>, beats: map<nat, int>, now: int)

  /** A request for a session is turned away exactly for want of permission, a heartbeat, or a free computer. */
  ghost predicate CreateAnswers(before: seq<Session>, w: Wish, answer: Answer) {
    && (answer == NotFound <==> !w.admitted)
    && (answer == Conflict <==>
          && w.admitted
          && (w.agentId !in w.beats || w.beats[w.agentId] + 90_000 < w.now
              || exists i: nat ::
                   Holds(before, w.looked, w.beats, w.now, w.agentId, i) && before[i].viewerId != w.viewerId))
    && (answer.Accepted? ==> answer.number == |before|)
  }

  /** What becomes of the sessions there were: only the one's own on this computer makes way. */
  ghost predicate CreateLeaves(before: seq<Session>, after: seq<Session>, w: Wish, answer: Answer) {
    && |after| == |before| + (if answer.Accepted? then 1 else 0)
    && (!w.admitted || w.agentId !in w.beats || w.beats[w.agentId] + 90_000 < w.now ==> after == before)
    && forall i: nat :: i < |before| ==>
      && (before[i].state == Ended ==> after[i] == before[i])
      && (Survives(before, w.looked, w.beats, w.now, i) ==>
            if answer.Accepted? && Holds(before, w.looked, w.beats, w.now, w.agentId, i)
            then before[i].viewerId == w.viewerId && Ends(before[i], after[i], ViewerLeft, w.now)
            else after[i] == before[i])
      && (w.admitted && w.agentId in w.beats && w.now <= w.beats[w.agentId] + 90_000
          && before[i].state != Ended && !Survives(before, w.looked, w.beats, w.now, i) ==>
            exists reason :: Ends(before[i], after[i], reason, w.now) && Breaks(before[i], reason, w.beats, w.now))
  }

  /** The new session: pending for two minutes, seen now, connected never, with an empty box. */
  ghost predicate Opens(s: Session, w: Wish) {
    && s.agentId == w.agentId && s.viewerId == w.viewerId && s.viewerDeviceId == w.deviceId
    && s.state == Pending && s.issuedAt == w.now && s.expiresAt == w.now + 120_000 && s.lastSeenAt == w.now
    && s.connectedAt.None? && s.endedAt.None? && s.endReason.None? && s.box == []
  }

  /** After the sweep, what is live is what survives it, and that is as it was. */
  lemma SurvivorsAreLive(before: seq<Session>, swept: seq<Session>, looked: set<nat>, beats: map<nat, int>, now: int)
    requires SweptTo(before, swept, looked, beats, now)
    ensures forall i: nat :: i < |before| ==>
      && (swept[i].Live() <==> Survives(before, looked, beats, now, i))
      && (swept[i].Live() ==> swept[i] == before[i])
  {
  }

  /** Exactly the signals taken are marked. */
  ghost predicate TakenFrom(before: seq<Signal>, after: seq<Signal>, taken: seq<Signal>) {
    && |after| == |before|
    && forall j :: 0 <= j < |before| ==>
      after[j] == if exists k :: 0 <= k < |taken| && taken[k].seqNo == before[j].seqNo
                  then before[j].(delivered := true) else before[j]
  }

  ghost predicate Party(caller: Caller, s: Session) {
    if caller.ByViewer? then caller.userId == s.viewerId else caller.authorised
  }

  /** What posting does: nothing, an end, or one signal more on a session that may now be connecting. */
  ghost predicate PostShows(before: seq<Session>, after: seq<Session>, caller: Caller, id: nat, letter: Letter,
                            now: int, answer: Answer) {
    if id >= |before| || !Party(caller, before[id]) then answer == NotFound && after == before
    else if before[id].state == Ended then answer == Conflict && after == before
    else
      var s := before[id];
      && |after| == |before| && after == before[id := after[id]]
      && var t := after[id];
        if s.state == Pending && s.expiresAt <= now then answer == Conflict && Ends(s, t, ConnectTimeout, now)
        else if letter.kind == "bye" then
          answer == Accepted(0) && Ends(s, t, if caller.ByViewer? then ViewerLeft else HostEnded, now)
        else
          && answer.Accepted?
          && t == s.(state := t.state, box := t.box)
          && t.box == s.box + [Signal(answer.number, if caller.ByViewer? then Viewer else Host, letter, false)]
          && (forall j :: 0 <= j < |s.box| ==> s.box[j].seqNo < answer.number)
          && t.state == if s.state == Pending && letter.kind in ["offer", "answer"] then Connecting else s.state
  }

  ghost predicate FirstLive(sessions: seq<Session>, agentId: nat, i: nat) {
    && i < |sessions| && sessions[i].state != Ended && sessions[i].agentId == agentId
    && forall k :: 0 <= k < i && sessions[k].state != Ended ==> sessions[k].agentId != agentId
  }

  ghost predicate TakesOver(before: seq<Session>, after: seq<Session>, agentId: nat, viewerId: nat,
                            answer: Answer, now: int) {
    && (answer == Conflict <==> exists i: nat :: FirstLive(before, agentId, i) && before[i].viewerId != viewerId)
    && (answer == Conflict || answer == Accepted(|before|))
    && (answer == Conflict ==> after == before)
    && (answer.Accepted? ==> |after| == |before| + 1 && forall i: nat :: i < |before| ==>
          if FirstLive(before, agentId, i)
          then before[i].viewerId == viewerId && Ends(before[i], after[i], ViewerLeft, now)
          else after[i] == before[i])
  }

  lemma HolderIsFirstLive(before: seq<Session>, kept: seq<Session>, w: Wish, i: nat)
    requires SweptTo(before, kept, w.looked, w.beats, w.now)
    ensures FirstLive(kept, w.agentId, i) <==> Holds(before, w.looked, w.beats, w.now, w.agentId, i)
  {
    SurvivorsAreLive(before, kept, w.looked, w.beats, w.now);
  }

  lemma SweptThenTaken(before: seq<Session>, kept: seq<Session>, after: seq<Session>, w: Wish, answer: Answer)
    requires w.admitted && w.agentId in w.beats && w.now <= w.beats[w.agentId] + 90_000
    requires SweptTo(before, kept, w.looked, w.beats, w.now)
    requires TakesOver(kept, after, w.agentId, w.viewerId, answer, w.now)
    ensures CreateAnswers(before, w, answer) && CreateLeaves(before, after, w, answer)
  {
    SurvivorsAreLive(before, kept, w.looked, w.beats, w.now);
    forall i: nat
      ensures FirstLive(kept, w.agentId, i) <==> Holds(before, w.looked, w.beats, w.now, w.agentId, i)
    {
      HolderIsFirstLive(before, kept, w, i);
    }
  }

  // ---------------------------------------------------------------------------
  // The service
  // ---------------------------------------------------------------------------

  datatype Answer = Accepted(number: nat) | NotFound | Conflict

  class RemoteService {
    var sessions: seq<Session>

    constructor ()
      ensures sessions == []
    {
      sessions := [];
    }

    method Close(id: nat, reason: Reason, now: int)
      requires id < |sessions|
      modifies this
      ensures sessions == old(sessions)[id := old(sessions)[id].Closed(reason, now)]
      ensures LiveCount(sessions) == LiveCount(old(sessions)) - if old(sessions)[id].Live() then 1 else 0
      ensures |sessions| == |old(sessions)| && sessions == old(sessions)[id := sessions[id]]
      ensures if old(sessions)[id].state == Ended then sessions[id] == old(sessions)[id]
              else Ends(old(sessions)[id], sessions[id], reason, now)
    {
      var current := sessions[id];
      if current.state.Ended? {
        assert sessions == sessions[id := current];
        return;
      }
      OneFewer(sessions, id, current.Closed(reason, now));
      sessions := sessions[id := current.(state := Ended, endedAt := Some(now), endReason := Some(reason))];
      sessions := sessions[id := sessions[id].(box := [])];
    }

    /** `candidates` is what the query returned, in whatever order. */
    method ExpireStale(candidates: seq<nat>, beats: map<nat, int>, now: int) returns (closed: nat)
      requires Distinct(candidates) && IsChoice(sessions, Members(candidates))
      modifies this
      ensures sessions == Expire(old(sessions), Members(candidates), beats, now)
      ensures closed == LiveCount(old(sessions)) - LiveCount(sessions)
      ensures SweptTo(old(sessions), sessions, Members(candidates), beats, now)
    {
      SweepShows(sessions, Members(candidates), beats, now);
      closed := CloseStale(candidates, beats, now);
    }

    method CloseStale(candidates: seq<nat>, beats: map<nat, int>, now: int) returns (closed: nat)
      requires Distinct(candidates) && IsChoice(sessions, Members(candidates))
      modifies this
      ensures sessions == Expire(old(sessions), Members(candidates), beats, now)
      ensures closed == LiveCount(old(sessions)) - LiveCount(sessions)
    {
      ghost var before, why := sessions, AllReasons(sessions, beats, now);
      closed := 0;
      var k := 0;
      assert forall j :: 0 <= j < |candidates| ==> candidates[j] in Members(candidates);
      while k < |candidates|
        invariant 0 <= k <= |candidates|
        invariant ClosedAmong(before, sessions, why, candidates[..k], now)
        invariant closed == LiveCount(before) - LiveCount(sessions)
      {
        var id := candidates[k];
        assert id in LiveSet(before);
        ClosedAmongStep(before, sessions, why, candidates, k, now);
        var reason := Stale(sessions[id], beats, now);
        if reason.Some? {
          Close(id, reason.value, now);
          closed := closed + 1;
        }
        k := k + 1;
      }
      assert candidates[..k] == candidates;
      AllCandidatesClosed(before, sessions, candidates, beats, now);
    }

    method CreateSession(agentId: nat, viewerId: nat, deviceId: nat, admitted: bool,
                         candidates: seq<nat>, beats: map<nat, int>, now: int) returns (answer: Answer)
      requires Distinct(candidates) && IsChoice(sessions, Members(candidates))
      modifies this
      ensures sessions ==
        Apply(old(sessions), Create(agentId, viewerId, deviceId, admitted, Members(candidates), beats, now))
      ensures var w := Wish(agentId, viewerId, deviceId, admitted, Members(candidates), beats, now);
        && CreateAnswers(old(sessions), w, answer) && CreateLeaves(old(sessions), sessions, w, answer)
        && (answer.Accepted? ==> Opens(sessions[answer.number], w))
    {
      ghost var before, w := sessions, Wish(agentId, viewerId, deviceId, admitted, Members(candidates), beats, now);
      if !admitted { return NotFound; }
      if !Online(beats, agentId, now) { return Conflict; }
      var swept := ExpireStale(candidates, beats, now);
      ghost var kept := sessions;
      answer := TakeOver(agentId, viewerId, deviceId, now);
      SweptThenTaken(before, kept, sessions, w, answer);
    }

    /** What follows the sweep. */
    method TakeOver(agentId: nat, viewerId: nat, deviceId: nat, now: int) returns (answer: Answer)
      modifies this
      ensures sessions == Created(old(sessions), agentId, viewerId, deviceId, now)
      ensures TakesOver(old(sessions), sessions, agentId, viewerId, answer, now)
      ensures answer.Accepted? ==>
        |sessions| == |old(sessions)| + 1
        && sessions[|old(sessions)|] == NewSession(agentId, viewerId, deviceId, now)
    {
      var existing := FindLive(sessions, agentId);
      assert existing < |sessions| ==> FirstLive(sessions, agentId, existing);
      if existing < |sessions| {
        if sessions[existing].viewerId != viewerId { return Conflict; }
        Close(existing, ViewerLeft, now);
      }
      sessions := sessions + [NewSession(agentId, viewerId, deviceId, now)];
      return Accepted(|sessions| - 1);
    }

    method PostSignal(caller: Caller, id: nat, letter: Letter, now: int) returns (answer: Answer)
      modifies this
      ensures sessions == Apply(old(sessions), Post(caller, id, letter, now))
      ensures answer.NotFound? <==> !(id < |old(sessions)| && caller.May(old(sessions)[id]))
      ensures answer.Conflict? <==>
        && id < |old(sessions)| && caller.May(old(sessions)[id])
        && (!old(sessions)[id].Live() || (old(sessions)[id].expiresAt <= now && old(sessions)[id].state == Pending))
      ensures answer.Accepted? && letter.kind != "bye" ==>
        && sessions[id].box == old(sessions)[id].box + [Signal(answer.number, caller.AsRole(), letter, false)]
        && answer.number == MaxSeq(old(sessions)[id].box) + 1
      ensures PostShows(old(sessions), sessions, caller, id, letter, now, answer)
    {
      if id >= |sessions| || !caller.May(sessions[id]) { return NotFound; }
      var session := sessions[id];
      if session.state == Ended { return Conflict; }
      if session.expiresAt <= now && session.state == Pending {
        Close(id, ConnectTimeout, now);
        return Conflict;
      }
      if letter.kind == "bye" {
        Close(id, if caller.ByViewer? then ViewerLeft else HostEnded, now);
        return Accepted(0);
      }
      if session.state == Pending && (letter.kind == "offer" || letter.kind == "answer") {
        sessions := sessions[id := session.(state := Connecting)];
      }
      var number := MaxSeq(sessions[id].box) + 1;
      sessions := sessions[id := sessions[id].(box := Appended(sessions[id].box, number, caller.AsRole(), letter))];
      return Accepted(number);
    }

    /** `heartbeat`: the viewer is still there. An ended session is left alone. */
    method Beat(userId: nat, id: nat, now: int) returns (found: bool)
      modifies this
      ensures sessions == Apply(old(sessions), Heartbeat(userId, id, now))
      ensures found <==> id < |old(sessions)| && old(sessions)[id].viewerId == userId
      ensures sessions ==
        if found && old(sessions)[id].state != Ended
        then old(sessions)[id := old(sessions)[id].(lastSeenAt := now)] else old(sessions)
    {
      if id >= |sessions| || sessions[id].viewerId != userId { return false; }
      if sessions[id].state != Ended {
        sessions := sessions[id := sessions[id].(lastSeenAt := now)];
      }
      return true;
    }

    method CollectSignals(caller: Caller, id: nat) returns (rows: seq<Signal>)
      modifies this
      ensures sessions == Apply(old(sessions), Call.Collect(caller, id))
      ensures rows ==
        if id < |old(sessions)| && caller.May(old(sessions)[id])
        then Batch(old(sessions)[id].box, caller.AsRole()) else []
      ensures id >= |old(sessions)| || !Party(caller, old(sessions)[id]) ==> rows == [] && sessions == old(sessions)
      ensures id < |old(sessions)| ==>
        && |sessions| == |old(sessions)| && sessions == old(sessions)[id := sessions[id]]
        && sessions[id] == old(sessions)[id].(box := sessions[id].box)
        && TakenFrom(old(sessions)[id].box, sessions[id].box, rows)
      ensures id < |old(sessions)| && Party(caller, old(sessions)[id]) && Numbered(old(sessions)[id].box) ==>
        FrontOf(old(sessions)[id].box, if caller.ByViewer? then Host else Viewer, rows)
    {
      if id < |sessions| && Numbered(sessions[id].box) {
        BatchIsFront(sessions[id].box, caller.AsRole());
      }
      if id >= |sessions| || !caller.May(sessions[id]) { return []; }
      rows := Batch(sessions[id].box, caller.AsRole());
      if |rows| > 0 {
        sessions := sessions[id := sessions[id].(box := Marked(sessions[id].box, Numbers(rows)))];
      } else {
        assert Marked(sessions[id].box, Numbers(rows)) == sessions[id].box;
        assert sessions == sessions[id := sessions[id].(box := sessions[id].box)];
      }
    }

    method MarkConnected(authorised: bool, id: nat, now: int) returns (answer: Answer)
      modifies this
      ensures sessions == Apply(old(sessions), Connected(authorised, id, now))
      ensures answer == NotFound <==> id >= |old(sessions)| || !authorised
      ensures answer == Conflict <==> id < |old(sessions)| && authorised && old(sessions)[id].state == Ended
      ensures !answer.Accepted? ==> sessions == old(sessions)
      ensures answer.Accepted? ==>
        var s := old(sessions)[id];
        var since := if s.connectedAt.Some? then s.connectedAt else Some(now);
        sessions == old(sessions)[id := s.(state := Active, connectedAt := since, lastSeenAt := now)]
    {
      if id >= |sessions| || !authorised { return NotFound; }
      var session := sessions[id];
      if session.state == Ended { return Conflict; }
      var connectedAt := if session.connectedAt.Some? then session.connectedAt.value else now;
      sessions := sessions[id := session.(state := Active, connectedAt := Some(connectedAt), lastSeenAt := now)];
      return Accepted(0);
    }

    method EndSessionsForDevice(deviceId: nat, now: int) returns (count: nat)
      modifies this
      ensures sessions == Apply(old(sessions), EndForDevice(deviceId, now))
      ensures forall i :: 0 <= i < |sessions| && sessions[i].viewerDeviceId == deviceId ==> !sessions[i].Live()
      ensures count == LiveCount(old(sessions)) - LiveCount(sessions)
      ensures |sessions| == |old(sessions)| && forall i :: 0 <= i < |sessions| ==>
        if old(sessions)[i].viewerDeviceId == deviceId && old(sessions)[i].state != Ended
        then Ends(old(sessions)[i], sessions[i], PermissionRevoked, now) else sessions[i] == old(sessions)[i]
    {
      var live := LiveIds(sessions);
      ghost var before, why := sessions, DeviceReasons(sessions, deviceId);
      var k := 0;
      count := 0;
      while k < |live|
        invariant 0 <= k <= |live|
        invariant ClosedAmong(before, sessions, why, live[..k], now)
        invariant count == LiveCount(before) - LiveCount(sessions)
      {
        var id := live[k];
        ClosedAmongStep(before, sessions, why, live, k, now);
        if sessions[id].viewerDeviceId == deviceId {
          Close(id, PermissionRevoked, now);
          count := count + 1;
        }
        k := k + 1;
      }
      assert live[..k] == live;
      AllLiveClosed(before, sessions, why, now);
    }
  }

  /** Of the sessions in `ids`, those with a reason have been closed; the others are untouched. */
  ghost predicate ClosedAmong(before: seq<Session>, after: seq<Session>, why: seq<Option<Reason>>,
                              ids: seq<nat>, now: int) {
    && |before| == |after| == |why|
    && forall i :: 0 <= i < |after| ==> after[i] == if i in ids then ClosedFor(before[i], why[i], now) else before[i]
  }

  /** The next of some distinct ids has not been touched, and closing it takes one more in. */
  lemma ClosedAmongStep(before: seq<Session>, after: seq<Session>, why: seq<Option<Reason>>,
                        ids: seq<nat>, k: nat, now: int)
    requires k < |ids| && ids[k] < |before| && ClosedAmong(before, after, why, ids[..k], now) && Distinct(ids)
    ensures after[ids[k]] == before[ids[k]]
    ensures ClosedAmong(before, after[ids[k] := ClosedFor(before[ids[k]], why[ids[k]], now)], why, ids[..k + 1], now)
    ensures why[ids[k]].None? ==> ClosedAmong(before, after, why, ids[..k + 1], now)
  {
    assert ids[k] !in ids[..k];
    assert ids[..k + 1] == ids[..k] + [ids[k]];
  }

  function AllReasons(sessions: seq<Session>, beats: map<nat, int>, now: int): (why: seq<Option<Reason>>)
    ensures |why| == |sessions| && forall i :: 0 <= i < |why| ==> why[i] == Stale(sessions[i], beats, now)
  {
    seq(|sessions|, i requires 0 <= i < |sessions| => Stale(sessions[i], beats, now))
  }

  lemma AllCandidatesClosed(before: seq<Session>, after: seq<Session>, candidates: seq<nat>,
                            beats: map<nat, int>, now: int)
    requires ClosedAmong(before, after, AllReasons(before, beats, now), candidates, now)
    ensures after == Expire(before, Members(candidates), beats, now)
  {
    forall i | 0 <= i < |before|
      ensures after[i] == Expire(before, Members(candidates), beats, now)[i]
    {
      assert i in candidates <==> i in Members(candidates);
    }
  }

  lemma AllLiveClosed(before: seq<Session>, after: seq<Session>, why: seq<Option<Reason>>, now: int)
    requires ClosedAmong(before, after, why, LiveIds(before), now)
    ensures after == CloseEach(before, why, now)
  {
    forall i | 0 <= i < |before|
      ensures after[i] == CloseEach(before, why, now)[i]
    {
      if before[i].Live() {
        LiveIdAt(before, i);
      }
    }
  }

  lemma {:induction false} OneFewer(sessions: seq<Session>, id: nat, s: Session)
    requires id < |sessions| && sessions[id].Live() && !s.Live()
    ensures LiveCount(sessions[id := s]) == LiveCount(sessions) - 1
    decreases |sessions|
  {
    var n := |sessions| - 1;
    if id == n {
      assert sessions[id := s][..n] == sessions[..n];
    } else {
      assert sessions[id := s][..n] == sessions[..n][id := s];
      OneFewer(sessions[..n], id, s);
    }
  }

  // ---------------------------------------------------------------------------
  // What every call keeps
  // ---------------------------------------------------------------------------

  ghost predicate Sound(s: Session) {
    && (s.state == Ended <==> s.endedAt.Some?)
    && (s.state == Ended ==> s.box == [])
    && (s.state == Active ==> s.connectedAt.Some?)
    && (s.state == Pending || s.state == Connecting ==> s.connectedAt.None?)
    && Numbered(s.box)
  }

  /** Every session is sound, and no two live ones are on the same agent. */
  ghost predicate Inv(sessions: seq<Session>) {
    && (forall i :: 0 <= i < |sessions| ==> Sound(sessions[i]))
    && (forall i, j :: 0 <= i < j < |sessions| && sessions[i].Live() && sessions[j].Live() ==>
          sessions[i].agentId != sessions[j].agentId)
  }

  /** A session only moves forward, and an ended one never changes again. */
  ghost predicate Forward(a: Session, b: Session) {
    && a.state.Rank() <= b.state.Rank()
    && (a.state == Ended ==> b == a)
    && (a.connectedAt.Some? ==> b.connectedAt == a.connectedAt)
    && (a.agentId, a.viewerId, a.issuedAt, a.expiresAt) == (b.agentId, b.viewerId, b.issuedAt, b.expiresAt)
  }

  ghost predicate AllForward(a: seq<Session>, b: seq<Session>) {
    |a| <= |b| && forall i :: 0 <= i < |a| ==> Forward(a[i], b[i])
  }

  lemma ReplacedKeepsInv(sessions: seq<Session>, id: nat, s: Session)
    requires Inv(sessions) && id < |sessions| && Sound(s) && Forward(sessions[id], s)
    ensures Inv(sessions[id := s]) && AllForward(sessions, sessions[id := s])
  {
  }

  lemma ClosingKeepsInv(sessions: seq<Session>, why: seq<Option<Reason>>, now: int)
    requires Inv(sessions) && |why| == |sessions|
    ensures Inv(CloseEach(sessions, why, now)) && AllForward(sessions, CloseEach(sessions, why, now))
  {
  }

  lemma PostedIsSound(s: Session, caller: Caller, letter: Letter, now: int)
    requires Sound(s) && s.Live()
    ensures Sound(Posted(s, caller, letter, now)) && Forward(s, Posted(s, caller, letter, now))
  {
    NumberedMax(s.box);
  }

  lemma AppendedKeepsInv(sessions: seq<Session>, s: Session)
    requires Inv(sessions) && Sound(s)
    requires forall k :: 0 <= k < |sessions| && sessions[k].Live() ==> sessions[k].agentId != s.agentId
    ensures Inv(sessions + [s]) && AllForward(sessions, sessions + [s])
  {
  }

  lemma CreatedKeepsInv(sessions: seq<Session>, agentId: nat, viewerId: nat, deviceId: nat, now: int)
    requires Inv(sessions)
    ensures Inv(Created(sessions, agentId, viewerId, deviceId, now))
    ensures AllForward(sessions, Created(sessions, agentId, viewerId, deviceId, now))
  {
    var i, s := FindLive(sessions, agentId), NewSession(agentId, viewerId, deviceId, now);
    if i == |sessions| {
      AppendedKeepsInv(sessions, s);
    } else if sessions[i].viewerId == viewerId {
      var closed := sessions[i := sessions[i].Closed(ViewerLeft, now)];
      ReplacedKeepsInv(sessions, i, closed[i]);
      AppendedKeepsInv(closed, s);
      ForwardChains(sessions, closed, closed + [s]);
    }
  }

  lemma CreateKeepsInv(sessions: seq<Session>, c: Call)
    requires Inv(sessions) && c.Create?
    ensures Inv(Apply(sessions, c)) && AllForward(sessions, Apply(sessions, c))
  {
    if c.admitted && Online(c.beats, c.agentId, c.now) {
      var swept := Expire(sessions, c.chosen, c.beats, c.now);
      ClosingKeepsInv(sessions, ExpiryReasons(sessions, c.chosen, c.beats, c.now), c.now);
      CreatedKeepsInv(swept, c.agentId, c.viewerId, c.deviceId, c.now);
    }
  }

  lemma PostKeepsInv(sessions: seq<Session>, c: Call)
    requires Inv(sessions) && c.Post?
    ensures Inv(Apply(sessions, c)) && AllForward(sessions, Apply(sessions, c))
  {
    if c.id < |sessions| && c.caller.May(sessions[c.id]) && sessions[c.id].Live() {
      PostedIsSound(sessions[c.id], c.caller, c.letter, c.now);
      ReplacedKeepsInv(sessions, c.id, Posted(sessions[c.id], c.caller, c.letter, c.now));
    }
  }

  lemma CollectKeepsInv(sessions: seq<Session>, c: Call)
    requires Inv(sessions) && c.Collect?
    ensures Inv(Apply(sessions, c)) && AllForward(sessions, Apply(sessions, c))
  {
    if c.id < |sessions| && c.caller.May(sessions[c.id]) {
      CollectionTakesFront(sessions[c.id].box, c.caller.AsRole());
      ReplacedKeepsInv(sessions, c.id,
        sessions[c.id].(box := Collected(sessions[c.id].box, c.caller.AsRole())));
    }
  }

  lemma SweepKeepsInv(sessions: seq<Session>, c: Call)
    requires Inv(sessions) && (c.ExpireStale? || c.EndForDevice?)
    ensures Inv(Apply(sessions, c)) && AllForward(sessions, Apply(sessions, c))
  {
    if c.ExpireStale? {
      ClosingKeepsInv(sessions, ExpiryReasons(sessions, c.chosen, c.beats, c.now), c.now);
    } else {
      ClosingKeepsInv(sessions, DeviceReasons(sessions, c.deviceId), c.now);
    }
  }

  lemma CallKeepsInv(sessions: seq<Session>, c: Call)
    requires Inv(sessions)
    ensures Inv(Apply(sessions, c)) && AllForward(sessions, Apply(sessions, c))
  {
    match c
    case Create(_, _, _, _, _, _, _) => { CreateKeepsInv(sessions, c); }
    case Post(_, _, _, _) => { PostKeepsInv(sessions, c); }
    case Collect(_, _) => { CollectKeepsInv(sessions, c); }
    case ExpireStale(_, _, _) => { SweepKeepsInv(sessions, c); }
    case EndForDevice(_, _) => { SweepKeepsInv(sessions, c); }
    case _ => { TouchKeepsInv(sessions, c); }
  }

  lemma TouchKeepsInv(sessions: seq<Session>, c: Call)
    requires Inv(sessions) && (c.Heartbeat? || c.Connected? || c.End?)
    ensures Inv(Apply(sessions, c)) && AllForward(sessions, Apply(sessions, c))
  {
    match c
    case Heartbeat(userId, id, now) => {
      if id < |sessions| && sessions[id].viewerId == userId && sessions[id].Live() {
        ReplacedKeepsInv(sessions, id, sessions[id].(lastSeenAt := now));
      }
    }
    case Connected(authorised, id, now) => {
      if id < |sessions| && authorised && sessions[id].Live() {
        ReplacedKeepsInv(sessions, id, Apply(sessions, c)[id]);
      }
    }
    case End(allowed, id, reason, now) => {
      if id < |sessions| && allowed {
        ReplacedKeepsInv(sessions, id, sessions[id].Closed(reason, now));
      }
    }
  }

  function Run(sessions: seq<Session>, calls: seq<Call>): seq<Session>
    decreases |calls|
  {
    if calls == [] then sessions else Run(Apply(sessions, calls[0]), calls[1..])
  }

  lemma ForwardChains(a: seq<Session>, b: seq<Session>, c: seq<Session>)
    requires AllForward(a, b) && AllForward(b, c)
    ensures AllForward(a, c)
  {
    forall i | 0 <= i < |a|
      ensures Forward(a[i], c[i])
    {
      assert Forward(a[i], b[i]) && Forward(b[i], c[i]);
    }
  }

  /**
   * After any run of calls there is one live session per agent at most, ended sessions
   * hold no signals, every session has only moved forward, and a session that had ended
   * is exactly as it was.
   */
  lemma {:induction false} SessionsOnlyMoveForward(sessions: seq<Session>, calls: seq<Call>)
    requires Inv(sessions)
    ensures Inv(Run(sessions, calls)) && AllForward(sessions, Run(sessions, calls))
    decreases |calls|
  {
    if calls != [] {
      var next := Apply(sessions, calls[0]);
      CallKeepsInv(sessions, calls[0]);
      SessionsOnlyMoveForward(next, calls[1..]);
      ForwardChains(sessions, next, Run(sessions, calls));
    }
  }

  // ---------------------------------------------------------------------------
  // What a sweep leaves
  // ---------------------------------------------------------------------------

  lemma StaleIffOutOfBounds(s: Session, beats: map<nat, int>, now: int)
    ensures Stale(s, beats, now).None? <==> InBounds(s, beats, now)
  {
  }

  ghost predicate SurvivorsInBounds(sessions: seq<Session>, beats: map<nat, int>, now: int) {
    forall i :: 0 <= i < |sessions| && sessions[i].Live() ==> InBounds(sessions[i], beats, now)
  }

  /** Live sessions the query did not return are not looked at. */
  ghost predicate OthersInBounds(sessions: seq<Session>, chosen: set<nat>, beats: map<nat, int>, now: int) {
    forall i :: 0 <= i < |sessions| && sessions[i].Live() && i !in chosen ==> InBounds(sessions[i], beats, now)
  }

  /**
   * Whichever sessions the query returned: every session that survives the sweep meets
   * all five bounds exactly when the live ones not returned already did.
   */
  lemma SweepIsCompleteIff(sessions: seq<Session>, chosen: set<nat>, beats: map<nat, int>, now: int)
    ensures SurvivorsInBounds(Expire(sessions, chosen, beats, now), beats, now)
      <==> OthersInBounds(sessions, chosen, beats, now)
  {
    var after := Expire(sessions, chosen, beats, now);
    forall i | 0 <= i < |sessions|
      ensures after[i].Live() ==> after[i] == sessions[i]
      ensures i in chosen && after[i].Live() ==> InBounds(sessions[i], beats, now)
      ensures sessions[i].Live() && i !in chosen ==> after[i] == sessions[i]
    {
      StaleIffOutOfBounds(sessions[i], beats, now);
    }
  }

  /** A choice that leaves one live session out, where there are too many to return all. */
  lemma ChoiceWithout(sessions: seq<Session>, i: nat) returns (chosen: set<nat>)
    requires i < |sessions| && sessions[i].Live() && LiveCount(sessions) > SWEEP
    ensures IsChoice(sessions, chosen) && i !in chosen
  {
    LiveSetSize(sessions);
    chosen := SomeOf(LiveSet(sessions) - {i}, SWEEP);
  }

  lemma {:induction false} SomeOf(from: set<nat>, n: nat) returns (some: set<nat>)
    requires n <= |from|
    ensures some <= from && |some| == n
    decreases |from|
  {
    if n == |from| {
      some := from;
    } else {
      var x :| x in from;
      some := SomeOf(from - {x}, n);
    }
  }

  /**
   * A sweep leaves every survivor in bounds whichever sessions the query returns exactly
   * when at most 200 are live, or none of them is out of bounds to begin with.
   */
  lemma CompleteForEveryChoiceIff(sessions: seq<Session>, beats: map<nat, int>, now: int)
    ensures (forall chosen :: IsChoice(sessions, chosen) ==>
              SurvivorsInBounds(Expire(sessions, chosen, beats, now), beats, now))
      <==> LiveCount(sessions) <= SWEEP || SurvivorsInBounds(sessions, beats, now)
  {
    forall chosen | IsChoice(sessions, chosen)
      ensures SurvivorsInBounds(Expire(sessions, chosen, beats, now), beats, now)
        <==> OthersInBounds(sessions, chosen, beats, now)
      ensures LiveCount(sessions) <= SWEEP ==> OthersInBounds(sessions, chosen, beats, now)
    {
      SweepIsCompleteIff(sessions, chosen, beats, now);
      if LiveCount(sessions) <= SWEEP {
        SmallChoiceIsAll(sessions, chosen);
      }
    }
    if LiveCount(sessions) > SWEEP && !SurvivorsInBounds(sessions, beats, now) {
      var i :| 0 <= i < |sessions| && sessions[i].Live() && !InBounds(sessions[i], beats, now);
      var chosen := ChoiceWithout(sessions, i);
      assert !OthersInBounds(sessions, chosen, beats, now);
    }
  }

  /** With at most 200 live sessions a sweep is complete, and sweeping again changes nothing. */
  lemma SmallSweepIsComplete(sessions: seq<Session>, chosen: set<nat>, again: set<nat>, beats: map<nat, int>, now: int)
    requires LiveCount(sessions) <= SWEEP && IsChoice(sessions, chosen)
    ensures var after := Expire(sessions, chosen, beats, now);
      SurvivorsInBounds(after, beats, now) && Expire(after, again, beats, now) == after
  {
    SmallChoiceIsAll(sessions, chosen);
    SweepIsCompleteIff(sessions, chosen, beats, now);
    InBoundsSweepsNothing(Expire(sessions, chosen, beats, now), again, beats, now);
  }

  lemma InBoundsSweepsNothing(sessions: seq<Session>, chosen: set<nat>, beats: map<nat, int>, now: int)
    requires SurvivorsInBounds(sessions, beats, now)
    ensures Expire(sessions, chosen, beats, now) == sessions
  {
    forall i | 0 <= i < |sessions|
      ensures Expire(sessions, chosen, beats, now)[i] == sessions[i]
    {
      StaleIffOutOfBounds(sessions[i], beats, now);
    }
  }
}
