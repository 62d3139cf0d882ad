/**
 * The control plane's side of power commands: a command is requested, counts down or
 * waits, is handed to one agent, and ends. Each service call is one atomic step.
 *
 * The command table is a sequence in creation order. What permissions and the
 * step-up code decide arrives with the request.
 */
module PowerServer {
  import opened Text
  import Clock
  import SigningInputs

  const COUNTDOWN_MS := 10_000
  const TTL_MS := 120_000
  const OFFLINE_AFTER_MS := 90_000
  const BATCH := 10

  datatype Action = Wake | Restart | Shutdown | Lock | Sleep | Cancel
  {
    predicate Destructive() {
      Restart? || Shutdown?
    }

    function Name(): string {
      match this
      case Wake => "power.wake"
      case Restart => "power.restart"
      case Shutdown => "power.shutdown"
      case Lock => "power.lock"
      case Sleep => "power.sleep"
      case Cancel => "power.cancel"
    }
  }

  datatype CommandState = Pending | Countdown | Sent | Succeeded | Failed | Cancelled | Expired
  {
    predicate Waiting() {
      Pending? || Countdown?
    }

    predicate Open() {
      Waiting() || Sent?
    }
  }

  /** `issuedAt` is the database's own clock; `requestedAt` is the service's, and not stored. */
  datatype Row = Row(
    id: string, spaceId: string, target: string, helper: Option<string>, action: Action,
    state: CommandState, requestedBy: string, nonce: string,
    issuedAt: int, requestedAt: int, expiresAt: int, executeAt: int,
    deliveredAt: Option<int>, completedAt: Option<int>, cancelledAt: Option<int>)

  datatype Agent = Agent(
    id: string, deviceId: string, spaceId: string, revoked: bool, lastHeartbeatAt: Option<int>,
    isWakeHelper: bool, localIp: Option<string>, mac: Option<string>, wakeOnLanReady: bool)
  {
    predicate Online(now: int) {
      lastHeartbeatAt.Some? && now - lastHeartbeatAt.value <= OFFLINE_AFTER_MS
    }
  }

  datatype Server = Server(rows: seq<Row>, agents: seq<Agent>)

  /**
   * What a caller sends, what the checks outside this service said about it, and what the
   * database's clock would stamp on the row.
   */
  datatype Request = Request(
    userId: string, spaceId: string, action: Action, target: string,
    permitted: bool, steppedUp: bool, id: string, nonce: string, stamp: int)

  datatype Reply =
    | Created(id: string) | CalledOff(id: string)
    | Forbidden | NotFound | StepUpFailed | NotOnline | AlreadyOn | NotReady | AlreadyPending
    | NothingPending | AlreadySent | Duplicate

  datatype ResultReply = Recorded | Mismatched | UnknownCommand | NotAddressed

  // ---------------------------------------------------------------------------
  // Queries
  // ---------------------------------------------------------------------------

  function FindAgent(agents: seq<Agent>, id: string): (r: Option<nat>)
    ensures r.Some? ==> r.value < |agents| && agents[r.value].id == id
    ensures r.None? ==> forall i :: 0 <= i < |agents| ==> agents[i].id != id
  {
    if agents == [] then None
    else if agents[|agents| - 1].id == id then Some(|agents| - 1)
    else FindAgent(agents[..|agents| - 1], id)
  }

  function FindByDevice(agents: seq<Agent>, deviceId: string): (r: Option<nat>)
    ensures r.Some? ==> r.value < |agents| && agents[r.value].deviceId == deviceId
    ensures r.None? ==> forall i :: 0 <= i < |agents| ==> agents[i].deviceId != deviceId
  {
    if agents == [] then None
    else if agents[|agents| - 1].deviceId == deviceId then Some(|agents| - 1)
    else FindByDevice(agents[..|agents| - 1], deviceId)
  }

  function FindRow(rows: seq<Row>, id: string): (r: Option<nat>)
    ensures r.Some? ==> r.value < |rows| && rows[r.value].id == id
    ensures r.None? ==> forall i :: 0 <= i < |rows| ==> rows[i].id != id
  {
    if rows == [] then None
    else if rows[|rows| - 1].id == id then Some(|rows| - 1)
    else FindRow(rows[..|rows| - 1], id)
  }

  /** Whether two IPv4 addresses share their first three parts. */
  predicate SameLocalNetwork(a: Option<string>, b: Option<string>) {
    && a.Some? && b.Some? && a.value != "" && b.value != ""
    && var l, r := Split(a.value, '.'), Split(b.value, '.');
       |l| == 4 && |r| == 4 && l[..3] == r[..3]
  }

  predicate CanHelp(h: Agent, agent: Agent, now: int) {
    && h.spaceId == agent.spaceId && h.isWakeHelper && h.id != agent.id
    && !h.revoked && h.Online(now) && SameLocalNetwork(h.localIp, agent.localIp)
  }

  function FindHelper(agents: seq<Agent>, agent: Agent, now: int): (r: Option<nat>)
    ensures r.Some? ==> r.value < |agents| && CanHelp(agents[r.value], agent, now)
    ensures r.None? ==> forall i :: 0 <= i < |agents| ==> !CanHelp(agents[i], agent, now)
  {
    if agents == [] then None
    else
      var first := FindHelper(agents[..|agents| - 1], agent, now);
      if first.Some? then first
      else if CanHelp(agents[|agents| - 1], agent, now) then Some(|agents| - 1)
      else None
  }

  predicate WakeReady(agent: Agent) {
    agent.wakeOnLanReady && agent.mac.Some? && agent.mac.value != ""
  }

  /** `pendingCommand` finds something. */
  predicate HasPending(rows: seq<Row>, agentId: string, now: int) {
    exists i :: 0 <= i < |rows| && rows[i].target == agentId && rows[i].state.Open() && rows[i].expiresAt > now
  }

  /** The newest open command of a target, expired or not. */
  function NewestOpen(rows: seq<Row>, agentId: string): (r: Option<nat>)
    ensures r.Some? ==>
      && r.value < |rows| && rows[r.value].target == agentId && rows[r.value].state.Open()
      && forall i :: r.value < i < |rows| ==> !(rows[i].target == agentId && rows[i].state.Open())
    ensures r.None? ==> forall i :: 0 <= i < |rows| ==> !(rows[i].target == agentId && rows[i].state.Open())
  {
    if rows == [] then None
    else
      var last := rows[|rows| - 1];
      if last.target == agentId && last.state.Open() then Some(|rows| - 1)
      else NewestOpen(rows[..|rows| - 1], agentId)
  }

  /** Wakes go to the helper, everything else to the target. */
  function Addressee(r: Row): string {
    if r.helper.Some? then r.helper.value else r.target
  }

  predicate Due(r: Row, agentId: string, now: int) {
    r.state.Waiting() && r.expiresAt > now && Addressee(r) == agentId && r.executeAt <= now
  }

  /** The oldest due rows, at most `limit` of them. */
  function DueRows(rows: seq<Row>, agentId: string, now: int, limit: nat): (due: seq<nat>)
    ensures |due| <= limit
    ensures forall i :: 0 <= i < |due| ==> due[i] < |rows| && Due(rows[due[i]], agentId, now)
    ensures forall i, j :: 0 <= i < j < |due| ==> due[i] < due[j]
    ensures forall k :: 0 <= k < |rows| && Due(rows[k], agentId, now) && k !in due ==>
      |due| == limit && forall i :: 0 <= i < |due| ==> due[i] < k
  {
    if rows == [] then []
    else
      var n := |rows| - 1;
      var before := DueRows(rows[..n], agentId, now, limit);
      if Due(rows[n], agentId, now) && |before| < limit then before + [n] else before
  }

  // ---------------------------------------------------------------------------
  // The calls, as functions of the table
  // ---------------------------------------------------------------------------

  function NewRow(q: Request, helper: Option<string>, now: int): Row {
    var wait := if q.action.Destructive() then COUNTDOWN_MS else 0;
    Row(q.id, q.spaceId, q.target, helper, q.action,
        if q.action.Destructive() then Countdown else Pending,
        q.userId, q.nonce, q.stamp, now, now + TTL_MS + wait, now + wait, None, None, None)
  }

  /** What stops a request, if anything; a helper for a wake otherwise. */
  function Checked(sv: Server, q: Request, now: int): (r: (Option<Reply>, Option<string>)) {
    var found := FindAgent(sv.agents, q.target);
    if !q.permitted then (Some(Forbidden), None)
    else if found.None? then (Some(NotFound), None)
    else
      var agent := sv.agents[found.value];
      if agent.spaceId != q.spaceId || agent.revoked then (Some(NotFound), None)
      else if q.action.Cancel? then (None, None)
      else if q.action.Destructive() && !q.steppedUp then (Some(StepUpFailed), None)
      else if q.action.Wake? then
        if agent.Online(now) then (Some(AlreadyOn), None)
        else
          var helper := FindHelper(sv.agents, agent, now);
          if !WakeReady(agent) || helper.None? then (Some(NotReady), None)
          else (None, Some(sv.agents[helper.value].id))
      else if !agent.Online(now) then (Some(NotOnline), None)
      else (None, None)
  }

  function CancelPending(sv: Server, agentId: string, now: int): (Server, Reply) {
    var pending := NewestOpen(sv.rows, agentId);
    if pending.None? then (sv, NothingPending)
    else
      var i := pending.value;
      if sv.rows[i].state.Sent? then (sv, AlreadySent)
      else
        (sv.(rows := sv.rows[i := sv.rows[i].(state := Cancelled, cancelledAt := Some(now))]),
         CalledOff(sv.rows[i].id))
  }

  function RequestCommand(sv: Server, q: Request, now: int): (Server, Reply) {
    var checks := Checked(sv, q, now);
    if checks.0.Some? then (sv, checks.0.value)
    else if q.action.Cancel? then CancelPending(sv, q.target, now)
    else if HasPending(sv.rows, q.target, now) then (sv, AlreadyPending)
    // The database refuses an id or a nonce that is already in the table.
    else if exists i :: 0 <= i < |sv.rows| && (sv.rows[i].id == q.id || sv.rows[i].nonce == q.nonce) then
      (sv, Duplicate)
    else (sv.(rows := sv.rows + [NewRow(q, checks.1, now)]), Created(q.id))
  }

  function ExpireRow(r: Row, now: int): Row {
    if r.expiresAt < now && r.state.Open() then r.(state := Expired) else r
  }

  function Deliver(r: Row, now: int): Row {
    r.(state := Sent, deliveredAt := Some(now))
  }

  function CollectedRow(r: Row, due: bool, now: int): Row {
    if due then Deliver(r, now) else ExpireRow(r, now)
  }

  function CollectedRows(rows: seq<Row>, due: seq<nat>, now: int): (out: seq<Row>)
    ensures |out| == |rows|
  {
    seq(|rows|, i requires 0 <= i < |rows| => CollectedRow(rows[i], i in due, now))
  }

  /** The table after a poll, and which rows were handed over, oldest first. */
  function CollectFor(sv: Server, deviceId: string, now: int): (r: (Server, seq<nat>))
    ensures |r.0.rows| == |sv.rows| && r.0.agents == sv.agents
    ensures forall k :: 0 <= k < |r.1| ==> r.1[k] < |sv.rows|
  {
    var agent := FindByDevice(sv.agents, deviceId);
    if agent.None? then (sv, [])
    else
      var due := DueRows(sv.rows, sv.agents[agent.value].id, now, BATCH);
      (sv.(rows := CollectedRows(sv.rows, due, now)), due)
  }

  /** What is signed for a row: addressed to the machine that must act. */
  function CommandFor(r: Row, deviceId: string): SigningInputs.Command {
    SigningInputs.Command(r.id, r.action.Name(), deviceId, r.spaceId, r.issuedAt * Clock.TICKS,
                          r.expiresAt * Clock.TICKS, r.nonce, r.requestedBy)
  }

  function RecordResult(sv: Server, deviceId: string, claimedDevice: string, id: string, succeeded: bool, now: int)
      : (r: (Server, ResultReply))
    ensures |r.0.rows| == |sv.rows| && r.0.agents == sv.agents
  {
    if claimedDevice != deviceId then (sv, Mismatched)
    else
      var found := FindRow(sv.rows, id);
      if found.None? then (sv, UnknownCommand)
      else
        var row := sv.rows[found.value];
        var agent := FindByDevice(sv.agents, deviceId);
        if agent.None?
           || (row.target != sv.agents[agent.value].id && row.helper != Some(sv.agents[agent.value].id)) then
          (sv, NotAddressed)
        else
          (sv.(rows := sv.rows[found.value :=
             row.(state := if succeeded then Succeeded else Failed, completedAt := Some(now))]),
           Recorded)
  }

  // ---------------------------------------------------------------------------
  // What the table keeps
  // ---------------------------------------------------------------------------

  ghost predicate RowInv(r: Row, now: int) {
    && !r.action.Cancel?
    && r.requestedAt <= now
    && r.executeAt == r.requestedAt + (if r.action.Destructive() then COUNTDOWN_MS else 0)
    && r.expiresAt == r.executeAt + TTL_MS
    && (r.helper.Some? <==> r.action.Wake?)
    && (r.state.Waiting() ==> r.deliveredAt.None? && r.cancelledAt.None?)
    && (r.state.Sent? ==> r.deliveredAt.Some?)
    && (r.deliveredAt.Some? ==> r.executeAt <= r.deliveredAt.value < r.expiresAt && r.deliveredAt.value <= now)
    && !(r.deliveredAt.Some? && r.cancelledAt.Some?)
  }

  ghost predicate Unexpired(r: Row, now: int) {
    r.state.Open() && r.expiresAt > now
  }

  ghost predicate TableInv(rows: seq<Row>, now: int) {
    && (forall i :: 0 <= i < |rows| ==> RowInv(rows[i], now))
    && (forall i, j :: 0 <= i < j < |rows| ==> rows[i].id != rows[j].id && rows[i].nonce != rows[j].nonce)
    // One outstanding command per machine.
    && (forall i, j :: 0 <= i < j < |rows| && rows[i].target == rows[j].target ==>
          !(Unexpired(rows[i], now) && Unexpired(rows[j], now)))
  }

  ghost predicate AgentsInv(agents: seq<Agent>) {
    forall i, j :: 0 <= i < j < |agents| ==> agents[i].id != agents[j].id && agents[i].deviceId != agents[j].deviceId
  }

  ghost predicate ServerInv(sv: Server, now: int) {
    TableInv(sv.rows, now) && AgentsInv(sv.agents)
  }

  /** What may happen to one command in one call, whatever the call. */
  ghost predicate Evolves(r: Row, q: Row, now: int) {
    // Everything that is signed, and who it is for, never changes.
    && q == r.(state := q.state, deliveredAt := q.deliveredAt, completedAt := q.completedAt,
               cancelledAt := q.cancelledAt)
    // A command that has stopped waiting never waits again.
    && (!r.state.Waiting() ==> !q.state.Waiting())
    // It is handed over once, out of waiting, inside its window.
    && (q.deliveredAt != r.deliveredAt ==>
          r.deliveredAt.None? && q.deliveredAt == Some(now) && r.state.Waiting() && q.state.Sent?
          && r.executeAt <= now < r.expiresAt)
    && (q.cancelledAt != r.cancelledAt ==> r.state.Waiting() && q.state.Cancelled? && q.cancelledAt == Some(now))
    && (q.state.Open() && !r.state.Waiting() ==> q.state == r.state)
  }

  ghost predicate TableEvolves(rows: seq<Row>, rows': seq<Row>, now: int) {
    |rows| <= |rows'| && forall i :: 0 <= i < |rows| ==> Evolves(rows[i], rows'[i], now)
  }

  lemma TimePasses(rows: seq<Row>, now: int, later: int)
    requires TableInv(rows, now) && now <= later
    ensures TableInv(rows, later)
  {
  }

  /** The agent a request names, when it is there to be commanded. */
  ghost predicate Commandable(sv: Server, q: Request, i: nat) {
    i < |sv.agents| && sv.agents[i].id == q.target && sv.agents[i].spaceId == q.spaceId && !sv.agents[i].revoked
  }

  /** A heartbeat within the last minute and a half. */
  ghost predicate Heard(a: Agent, now: int) {
    a.lastHeartbeatAt.Some? && now <= a.lastHeartbeatAt.value + 90_000
  }

  /** Another agent of the Space that is up, may wake others, and shares three parts of the address. */
  ghost predicate Neighbour(h: Agent, a: Agent, now: int) {
    && h.id != a.id && h.spaceId == a.spaceId && !h.revoked && h.isWakeHelper && Heard(h, now)
    && h.localIp.Some? && a.localIp.Some?
    && var l, r := Split(h.localIp.value, '.'), Split(a.localIp.value, '.');
       |l| == |r| == 4 && l[0] == r[0] && l[1] == r[1] && l[2] == r[2]
  }

  /** Everything that is true of a command that gets as far as the table. */
  ghost predicate Admissible(sv: Server, q: Request, i: nat, helper: Option<string>, now: int) {
    && q.permitted && q.action != Cancel && Commandable(sv, q, i)
    && (q.action == Restart || q.action == Shutdown ==> q.steppedUp)
    && (if q.action == Wake then
          && !Heard(sv.agents[i], now) && sv.agents[i].wakeOnLanReady
          && sv.agents[i].mac.Some? && sv.agents[i].mac.value != "" && helper.Some?
          && exists h :: 0 <= h < |sv.agents|
               && sv.agents[h].id == helper.value && Neighbour(sv.agents[h], sv.agents[i], now)
        else Heard(sv.agents[i], now) && helper.None?)
  }

  lemma NeighboursHelp(h: Agent, a: Agent, now: int)
    ensures CanHelp(h, a, now) <==> Neighbour(h, a, now)
  {
    if h.localIp.Some? && a.localIp.Some? {
      var l, r := Split(h.localIp.value, '.'), Split(a.localIp.value, '.');
      if |l| == 4 && |r| == 4 {
        assert l[..3] == [l[0], l[1], l[2]] && r[..3] == [r[0], r[1], r[2]];
      }
    }
  }

  lemma CheckedMeansAdmissible(sv: Server, q: Request, now: int)
    requires AgentsInv(sv.agents) && !q.action.Cancel?
    ensures var (refusal, helper) := Checked(sv, q, now);
      refusal.None? ==> exists i: nat :: Admissible(sv, q, i, helper, now)
  {
    var (refusal, helper) := Checked(sv, q, now);
    forall h, a ensures CanHelp(h, a, now) <==> Neighbour(h, a, now) {
      NeighboursHelp(h, a, now);
    }
    if refusal.None? {
      assert Admissible(sv, q, FindAgent(sv.agents, q.target).value, helper, now);
    }
  }

  lemma AdmissibleMeansChecked(sv: Server, q: Request, now: int, i: nat, helper: Option<string>)
    requires AgentsInv(sv.agents) && Admissible(sv, q, i, helper, now)
    ensures Checked(sv, q, now).0.None?
  {
    forall h, a ensures CanHelp(h, a, now) <==> Neighbour(h, a, now) {
      NeighboursHelp(h, a, now);
    }
    assert FindAgent(sv.agents, q.target) == Some(i);
  }

  /** Only a command that passes every check is written down, and any that does and meets no other is. */
  lemma CreatedIff(sv: Server, q: Request, now: int)
    requires ServerInv(sv, now) && !q.action.Cancel?
    ensures RequestCommand(sv, q, now).1.Created? <==>
      && (exists i: nat, helper :: Admissible(sv, q, i, helper, now))
      && !HasPending(sv.rows, q.target, now)
      && forall k :: 0 <= k < |sv.rows| ==> sv.rows[k].id != q.id && sv.rows[k].nonce != q.nonce
  {
    var (refusal, helper) := Checked(sv, q, now);
    CheckedMeansAdmissible(sv, q, now);
    if i: nat, h :| Admissible(sv, q, i, h, now) {
      AdmissibleMeansChecked(sv, q, now, i, h);
    }
  }

  lemma AppendKeeps(rows: seq<Row>, r: Row, now: int)
    requires TableInv(rows, now) && RowInv(r, now) && !HasPending(rows, r.target, now)
    requires forall i :: 0 <= i < |rows| ==> rows[i].id != r.id && rows[i].nonce != r.nonce
    ensures TableInv(rows + [r], now) && TableEvolves(rows, rows + [r], now)
  {
    forall i | 0 <= i < |rows| && rows[i].target == r.target ensures !Unexpired(rows[i], now) {
      assert !(rows[i].target == r.target && rows[i].state.Open() && rows[i].expiresAt > now);
    }
  }

  lemma CancelKeeps(sv: Server, agentId: string, now: int)
    requires ServerInv(sv, now)
    ensures ServerInv(CancelPending(sv, agentId, now).0, now)
    ensures TableEvolves(sv.rows, CancelPending(sv, agentId, now).0.rows, now)
  {
    var rows' := CancelPending(sv, agentId, now).0.rows;
    forall i | 0 <= i < |sv.rows|
      ensures RowInv(rows'[i], now) && Evolves(sv.rows[i], rows'[i], now)
      ensures Unexpired(rows'[i], now) ==> Unexpired(sv.rows[i], now)
    {
      assert RowInv(sv.rows[i], now);
    }
  }

  lemma RequestKeeps(sv: Server, q: Request, now: int)
    requires ServerInv(sv, now)
    ensures ServerInv(RequestCommand(sv, q, now).0, now)
    ensures TableEvolves(sv.rows, RequestCommand(sv, q, now).0.rows, now)
  {
    var (refusal, helper) := Checked(sv, q, now);
    if q.action.Cancel? {
      CancelKeeps(sv, q.target, now);
    } else {
      CheckedMeansAdmissible(sv, q, now);
      if RequestCommand(sv, q, now).1.Created? {
        AppendKeeps(sv.rows, NewRow(q, helper, now), now);
      }
    }
  }

  lemma CollectKeeps(sv: Server, deviceId: string, now: int)
    requires ServerInv(sv, now)
    ensures ServerInv(CollectFor(sv, deviceId, now).0, now)
    ensures TableEvolves(sv.rows, CollectFor(sv, deviceId, now).0.rows, now)
  {
    var rows' := CollectFor(sv, deviceId, now).0.rows;
    forall i | 0 <= i < |sv.rows|
      ensures RowInv(rows'[i], now) && Evolves(sv.rows[i], rows'[i], now)
      ensures Unexpired(rows'[i], now) ==> Unexpired(sv.rows[i], now)
    {
      if rows'[i] != sv.rows[i] {
        var agentId := sv.agents[FindByDevice(sv.agents, deviceId).value].id;
        var due := DueRows(sv.rows, agentId, now, BATCH);
        CollectedRowKeeps(sv.rows[i], i in due, agentId, now);
      }
    }
  }

  lemma CollectedRowKeeps(r: Row, due: bool, agentId: string, now: int)
    requires RowInv(r, now) && (due ==> Due(r, agentId, now))
    ensures var q := CollectedRow(r, due, now);
      RowInv(q, now) && Evolves(r, q, now) && (Unexpired(q, now) ==> Unexpired(r, now))
  {
  }

  lemma ResultKeeps(sv: Server, deviceId: string, claimed: string, id: string, succeeded: bool, now: int)
    requires ServerInv(sv, now)
    ensures ServerInv(RecordResult(sv, deviceId, claimed, id, succeeded, now).0, now)
    ensures TableEvolves(sv.rows, RecordResult(sv, deviceId, claimed, id, succeeded, now).0.rows, now)
  {
    var rows' := RecordResult(sv, deviceId, claimed, id, succeeded, now).0.rows;
    forall i | 0 <= i < |sv.rows|
      ensures RowInv(rows'[i], now) && Evolves(sv.rows[i], rows'[i], now)
      ensures Unexpired(rows'[i], now) ==> Unexpired(sv.rows[i], now)
    {
      assert RowInv(sv.rows[i], now);
    }
  }

  /** A poll hands over exactly the due rows (the ten oldest of them), once each. */
  lemma CollectDelivers(sv: Server, deviceId: string, now: int, i: nat)
    requires ServerInv(sv, now) && i < |sv.rows|
    ensures var (sv', due) := CollectFor(sv, deviceId, now);
      && (i in due <==> sv'.rows[i].deliveredAt != sv.rows[i].deliveredAt)
      && (i in due ==>
            && FindByDevice(sv.agents, deviceId).Some?
            && Due(sv.rows[i], sv.agents[FindByDevice(sv.agents, deviceId).value].id, now))
  {
    assert RowInv(sv.rows[i], now);
  }

  // ---------------------------------------------------------------------------
  // What a caller sees of each call
  // ---------------------------------------------------------------------------

  /** A command that has not come to an end: waiting, in countdown, or handed over. */
  ghost predicate StillOpen(r: Row) {
    r.state == Pending || r.state == Countdown || r.state == Sent
  }

  /** Row i is the newest open command of the machine. */
  ghost predicate Newest(rows: seq<Row>, agentId: string, i: nat) {
    && i < |rows| && rows[i].target == agentId && StillOpen(rows[i])
    && forall k :: i < k < |rows| && rows[k].target == agentId ==> !StillOpen(rows[k])
  }

  /**
   * Calling off: the newest open command of the machine is cancelled if it is still
   * waiting; the answer says so, or that it is too late, or that there is none.
   */
  ghost predicate CallsOff(before: seq<Row>, after: seq<Row>, agentId: string, reply: Reply, now: int) {
    && (reply == NothingPending <==>
          forall i :: 0 <= i < |before| && before[i].target == agentId ==> !StillOpen(before[i]))
    && (reply == AlreadySent <==> exists i: nat :: Newest(before, agentId, i) && before[i].state == Sent)
    && (reply.CalledOff? <==> exists i: nat :: Newest(before, agentId, i) && before[i].state != Sent)
    && (!reply.CalledOff? ==> after == before)
    && (forall i: nat :: reply.CalledOff? && Newest(before, agentId, i) ==>
          && reply.id == before[i].id && before[i].state in {Pending, Countdown}
          && after == before[i := before[i].(state := Cancelled, cancelledAt := Some(now))])
  }

  lemma CancelCallsOff(sv: Server, agentId: string, now: int)
    ensures var (after, reply) := CancelPending(sv, agentId, now);
      CallsOff(sv.rows, after.rows, agentId, reply, now) && after.agents == sv.agents
  {
    var pending := NewestOpen(sv.rows, agentId);
    if pending.Some? {
      assert Newest(sv.rows, agentId, pending.value);
    }
  }

  /** The row a request was told is called off. */
  lemma CalledOffRow(sv: Server, q: Request, now: int) returns (i: nat)
    requires TableInv(sv.rows, now) && RequestCommand(sv, q, now).1.CalledOff?
    ensures i < |sv.rows| && sv.rows[i].target == q.target && sv.rows[i].id == RequestCommand(sv, q, now).1.id
    ensures var after := RequestCommand(sv, q, now).0.rows;
      && |after| == |sv.rows| && after[i] == sv.rows[i].(state := Cancelled, cancelledAt := Some(now))
      && sv.rows[i].deliveredAt.None?
  {
    var (after, reply) := CancelPending(sv, q.target, now);
    OnlyACancelCallsOff(sv, q, now);
    CancelCallsOff(sv, q.target, now);
    i :| Newest(sv.rows, q.target, i) && sv.rows[i].state != Sent;
    assert RowInv(sv.rows[i], now);
  }

  lemma OnlyACancelCallsOff(sv: Server, q: Request, now: int)
    requires RequestCommand(sv, q, now).1.CalledOff?
    ensures RequestCommand(sv, q, now) == CancelPending(sv, q.target, now)
  {
  }

  /** A command as it is written down: it counts down ten seconds if it is destructive, and lives for two minutes. */
  ghost predicate WrittenDown(r: Row, q: Request, now: int) {
    && r.id == q.id && r.spaceId == q.spaceId && r.target == q.target && r.action == q.action
    && r.requestedBy == q.userId && r.nonce == q.nonce && r.issuedAt == q.stamp && r.requestedAt == now
    && (if q.action == Restart || q.action == Shutdown
        then r.state == Countdown && r.executeAt == now + 10_000 && r.expiresAt == now + 130_000
        else r.state == Pending && r.executeAt == now && r.expiresAt == now + 120_000)
    && r.deliveredAt.None? && r.completedAt.None? && r.cancelledAt.None?
  }

  /** Who is turned away at once; and only a command created or called off changes the table. */
  ghost predicate Refuses(sv: Server, after: seq<Row>, q: Request, reply: Reply) {
    && (reply == Forbidden <==> !q.permitted)
    && (reply == NotFound <==> q.permitted && !exists i: nat :: Commandable(sv, q, i))
    && (!reply.Created? && !reply.CalledOff? ==> after == sv.rows)
  }

  /** No other command of the machine is open and in its window, and neither id nor nonce is taken. */
  ghost predicate Unhindered(rows: seq<Row>, q: Request, now: int) {
    && (forall k :: 0 <= k < |rows| && rows[k].target == q.target && StillOpen(rows[k]) ==> rows[k].expiresAt <= now)
    && (forall k :: 0 <= k < |rows| ==> rows[k].id != q.id && rows[k].nonce != q.nonce)
  }

  /** Exactly the admissible and unhindered request is written down, behind all others. */
  ghost predicate Creates(sv: Server, after: seq<Row>, q: Request, reply: Reply, now: int) {
    && (reply.Created? <==>
          (exists i: nat, helper :: Admissible(sv, q, i, helper, now)) && Unhindered(sv.rows, q, now))
    && (reply.Created? ==>
          && reply.id == q.id && |after| == |sv.rows| + 1 && after[..|sv.rows|] == sv.rows
          && WrittenDown(after[|sv.rows|], q, now)
          && exists i: nat :: Admissible(sv, q, i, after[|sv.rows|].helper, now))
  }

  /** Every other refusal has the reason it names. */
  ghost predicate Explains(sv: Server, q: Request, reply: Reply, now: int) {
    && (reply == StepUpFailed ==> (q.action == Restart || q.action == Shutdown) && !q.steppedUp)
    && (reply == NotOnline ==>
          q.action != Wake && forall i: nat :: Commandable(sv, q, i) ==> !Heard(sv.agents[i], now))
    && (reply == AlreadyOn ==>
          q.action == Wake && forall i: nat :: Commandable(sv, q, i) ==> Heard(sv.agents[i], now))
    && (reply == NotReady ==>
          && q.action == Wake
          && forall i: nat :: Commandable(sv, q, i) ==>
               || !sv.agents[i].wakeOnLanReady || sv.agents[i].mac.None? || sv.agents[i].mac.value == ""
               || forall h :: 0 <= h < |sv.agents| ==> !Neighbour(sv.agents[h], sv.agents[i], now))
    && (reply == AlreadyPending ==>
          exists k :: 0 <= k < |sv.rows| && sv.rows[k].target == q.target && StillOpen(sv.rows[k])
            && now < sv.rows[k].expiresAt)
    && (reply == Duplicate ==>
          exists k :: 0 <= k < |sv.rows| && (sv.rows[k].id == q.id || sv.rows[k].nonce == q.nonce))
  }

  lemma CheckedExplains(sv: Server, q: Request, now: int)
    requires AgentsInv(sv.agents) && Checked(sv, q, now).0.Some?
    ensures Checked(sv, q, now).0.value in {Forbidden, NotFound, StepUpFailed, NotOnline, AlreadyOn, NotReady}
    ensures Explains(sv, q, Checked(sv, q, now).0.value, now)
  {
    var found := FindAgent(sv.agents, q.target);
    forall i: nat | Commandable(sv, q, i) ensures found == Some(i) {
    }
    if found.Some? && FindHelper(sv.agents, sv.agents[found.value], now).None? {
      NobodyNear(sv.agents, sv.agents[found.value], now);
    }
  }

  lemma CancelExplains(sv: Server, q: Request, now: int)
    ensures Explains(sv, q, CancelPending(sv, q.target, now).1, now)
  {
  }

  lemma RequestExplains(sv: Server, q: Request, now: int)
    requires AgentsInv(sv.agents)
    ensures Explains(sv, q, RequestCommand(sv, q, now).1, now)
  {
    if Checked(sv, q, now).0.Some? {
      CheckedExplains(sv, q, now);
    } else if q.action.Cancel? {
      CancelExplains(sv, q, now);
    }
  }

  lemma NobodyNear(agents: seq<Agent>, a: Agent, now: int)
    requires FindHelper(agents, a, now).None?
    ensures forall h :: 0 <= h < |agents| ==> !Neighbour(agents[h], a, now)
  {
    forall h | 0 <= h < |agents| ensures !Neighbour(agents[h], a, now) {
      NeighboursHelp(agents[h], a, now);
    }
  }

  lemma RequestRefuses(sv: Server, q: Request, now: int)
    requires AgentsInv(sv.agents)
    ensures var (after, reply) := RequestCommand(sv, q, now); Refuses(sv, after.rows, q, reply)
  {
    var found := FindAgent(sv.agents, q.target);
    if found.Some? {
      assert Commandable(sv, q, found.value)
        <==> sv.agents[found.value].spaceId == q.spaceId && !sv.agents[found.value].revoked;
      forall i: nat | Commandable(sv, q, i) ensures i == found.value {
      }
    }
  }

  lemma RequestCreates(sv: Server, q: Request, now: int)
    requires ServerInv(sv, now) && q.action != Cancel
    ensures var (after, reply) := RequestCommand(sv, q, now); Creates(sv, after.rows, q, reply, now)
  {
    CreatedIff(sv, q, now);
    CheckedMeansAdmissible(sv, q, now);
    assert HasPending(sv.rows, q.target, now) || Unhindered(sv.rows, q, now)
      || exists k :: 0 <= k < |sv.rows| && (sv.rows[k].id == q.id || sv.rows[k].nonce == q.nonce);
  }

  /** Waiting, in its window, and for this agent: the helper of a wake, the target of anything else. */
  ghost predicate ToHandOver(r: Row, agentId: string, now: int) {
    && (r.state == Pending || r.state == Countdown) && r.executeAt <= now < r.expiresAt
    && (if r.helper.Some? then r.helper.value == agentId else r.target == agentId)
  }

  ghost predicate SignedFor(c: SigningInputs.Command, r: Row, deviceId: string) {
    && c.id == r.id && c.deviceId == deviceId && c.spaceId == r.spaceId && c.nonce == r.nonce
    && c.requestedBy == r.requestedBy
    && c.issuedAt == r.issuedAt * 1_000_000 && c.expiresAt == r.expiresAt * 1_000_000
    && (r.action == Wake ==> c.action == "power.wake") && (r.action == Restart ==> c.action == "power.restart")
    && (r.action == Shutdown ==> c.action == "power.shutdown") && (r.action == Lock ==> c.action == "power.lock")
    && (r.action == Sleep ==> c.action == "power.sleep") && (r.action == Cancel ==> c.action == "power.cancel")
  }

  /** Which rows a poll hands over: the ten oldest there are for the agent. */
  ghost predicate Takes(rows: seq<Row>, agentId: string, now: int, due: seq<nat>) {
    && |due| <= 10
    && (forall j :: 0 <= j < |due| ==> due[j] < |rows| && ToHandOver(rows[due[j]], agentId, now))
    && (forall j, k :: 0 <= j < k < |due| ==> due[j] < due[k])
    && (forall i :: 0 <= i < |rows| && i !in due && ToHandOver(rows[i], agentId, now) ==>
          |due| == 10 && forall j :: 0 <= j < |due| ==> due[j] < i)
  }

  /** A poll: what it takes is marked as sent, what else is open and past its window as expired. */
  ghost predicate Polled(before: seq<Row>, after: seq<Row>, due: seq<nat>, now: int) {
    && |after| == |before|
    && forall i :: 0 <= i < |before| ==>
      after[i] == if i in due then before[i].(state := Sent, deliveredAt := Some(now))
                  else if StillOpen(before[i]) && before[i].expiresAt < now then before[i].(state := Expired)
                  else before[i]
  }

  lemma CollectPolls(rows: seq<Row>, agentId: string, now: int)
    ensures var due := DueRows(rows, agentId, now, BATCH);
      Takes(rows, agentId, now, due) && Polled(rows, CollectedRows(rows, due, now), due, now)
  {
    var due := DueRows(rows, agentId, now, BATCH);
    forall i | 0 <= i < |rows|
      ensures ToHandOver(rows[i], agentId, now) <==> Due(rows[i], agentId, now)
    {
    }
  }

  lemma AllSigned(signed: seq<SigningInputs.Command>, rows: seq<Row>, due: seq<nat>, deviceId: string)
    requires |signed| == |due| && forall j :: 0 <= j < |due| ==> due[j] < |rows|
    requires forall j :: 0 <= j < |due| ==> signed[j] == CommandFor(rows[due[j]], deviceId)
    ensures forall j :: 0 <= j < |due| ==> SignedFor(signed[j], rows[due[j]], deviceId)
  {
    forall j | 0 <= j < |due| ensures SignedFor(signed[j], rows[due[j]], deviceId) {
      CommandIsSigned(rows[due[j]], deviceId);
    }
  }

  /** A whole poll by the agent with this id on this device. */
  ghost predicate HandsOver(before: seq<Row>, after: seq<Row>, agentId: string, deviceId: string, now: int,
                            signed: seq<SigningInputs.Command>, due: seq<nat>) {
    && Takes(before, agentId, now, due) && Polled(before, after, due, now) && |signed| == |due|
    && forall j :: 0 <= j < |due| ==> SignedFor(signed[j], before[due[j]], deviceId)
  }

  lemma CommandIsSigned(r: Row, deviceId: string)
    ensures SignedFor(CommandFor(r, deviceId), r, deviceId)
  {
  }

  lemma PollHandsOver(sv: Server, deviceId: string, now: int, signed: seq<SigningInputs.Command>, a: nat)
    requires AgentsInv(sv.agents) && a < |sv.agents| && sv.agents[a].deviceId == deviceId
    requires |signed| == |CollectFor(sv, deviceId, now).1|
    requires forall k :: 0 <= k < |signed| ==>
      signed[k] == CommandFor(sv.rows[CollectFor(sv, deviceId, now).1[k]], deviceId)
    ensures exists due ::
      HandsOver(sv.rows, CollectFor(sv, deviceId, now).0.rows, sv.agents[a].id, deviceId, now, signed, due)
  {
    assert FindByDevice(sv.agents, deviceId) == Some(a);
    var due := DueRows(sv.rows, sv.agents[a].id, now, BATCH);
    CollectPolls(sv.rows, sv.agents[a].id, now);
    AllSigned(signed, sv.rows, due, deviceId);
    assert HandsOver(sv.rows, CollectFor(sv, deviceId, now).0.rows, sv.agents[a].id, deviceId, now, signed, due);
  }

  /** The command is addressed to the agent on the device, as its target or as the helper of a wake. */
  ghost predicate Concerned(r: Row, agents: seq<Agent>, deviceId: string) {
    exists a :: 0 <= a < |agents| && agents[a].deviceId == deviceId
      && (r.target == agents[a].id || r.helper == Some(agents[a].id))
  }

  // ---------------------------------------------------------------------------
  // The service
  // ---------------------------------------------------------------------------

  class PowerService {
    var rows: seq<Row>
    var agents: seq<Agent>

    ghost function Now(): Server
      reads this
    {
      Server(rows, agents)
    }

    ghost predicate Valid(now: int)
      reads this
    {
      ServerInv(Now(), now)
    }

    constructor (agents: seq<Agent>)
      requires AgentsInv(agents)
      ensures rows == [] && this.agents == agents && forall now :: Valid(now)
    {
      rows := [];
      this.agents := agents;
    }

    method Request(q: Request, now: int) returns (reply: Reply)
      requires Valid(now)
      modifies this`rows
      ensures Valid(now) && TableEvolves(old(rows), rows, now)
      ensures (Now(), reply) == RequestCommand(old(Now()), q, now)
      ensures Refuses(old(Now()), rows, q, reply) && Explains(old(Now()), q, reply, now)
      ensures q.action == Action.Cancel && reply != Forbidden && reply != NotFound ==>
        CallsOff(old(rows), rows, q.target, reply, now)
      ensures q.action != Action.Cancel ==> Creates(old(Now()), rows, q, reply, now)
    {
      RequestKeeps(Now(), q, now);
      RequestRefuses(Now(), q, now);
      RequestExplains(Now(), q, now);
      if q.action.Cancel? {
        CancelCallsOff(Now(), q.target, now);
      } else {
        RequestCreates(Now(), q, now);
      }
      reply := Decide(q, now);
    }

    method Decide(q: Request, now: int) returns (reply: Reply)
      requires Valid(now)
      modifies this`rows
      ensures (Now(), reply) == RequestCommand(old(Now()), q, now)
    {
      if !q.permitted { return Forbidden; }
      var found := FindAgent(agents, q.target);
      if found.None? { return NotFound; }
      var agent := agents[found.value];
      if agent.spaceId != q.spaceId || agent.revoked { return NotFound; }
      if q.action.Cancel? {
        reply := Cancel(q.target, now);
        return;
      }
      if q.action.Destructive() && !q.steppedUp { return StepUpFailed; }
      if !q.action.Wake? && !agent.Online(now) { return NotOnline; }
      var helperId := None;
      if q.action.Wake? {
        if agent.Online(now) { return AlreadyOn; }
        var helper := FindHelper(agents, agent, now);
        if !WakeReady(agent) || helper.None? { return NotReady; }
        helperId := Some(agents[helper.value].id);
      }
      if HasPending(rows, q.target, now) { return AlreadyPending; }
      if exists i :: 0 <= i < |rows| && (rows[i].id == q.id || rows[i].nonce == q.nonce) { return Duplicate; }
      rows := rows + [NewRow(q, helperId, now)];
      return Created(q.id);
    }

    /** Calls off a command that has not been handed over. */
    method Cancel(agentId: string, now: int) returns (reply: Reply)
      requires Valid(now)
      modifies this`rows
      ensures Valid(now) && TableEvolves(old(rows), rows, now)
      ensures (Now(), reply) == CancelPending(old(Now()), agentId, now)
      ensures CallsOff(old(rows), rows, agentId, reply, now)
    {
      CancelKeeps(Now(), agentId, now);
      CancelCallsOff(Now(), agentId, now);
      var pending := NewestOpen(rows, agentId);
      if pending.None? { return NothingPending; }
      var i := pending.value;
      if rows[i].state.Sent? { return AlreadySent; }
      reply := CalledOff(rows[i].id);
      rows := rows[i := rows[i].(state := Cancelled, cancelledAt := Some(now))];
    }

    /** A poll: expire what is past its window, then claim and sign what is due, oldest first. */
    method Collect(deviceId: string, now: int) returns (signed: seq<SigningInputs.Command>)
      requires Valid(now)
      modifies this`rows
      ensures Valid(now) && TableEvolves(old(rows), rows, now)
      ensures var (after, due) := CollectFor(old(Now()), deviceId, now);
        && Now() == after && |signed| == |due|
        && forall k :: 0 <= k < |due| ==> signed[k] == CommandFor(old(rows)[due[k]], deviceId)
      ensures (forall a :: 0 <= a < |agents| ==> agents[a].deviceId != deviceId) ==> signed == [] && rows == old(rows)
      ensures forall a :: 0 <= a < |agents| && agents[a].deviceId == deviceId ==>
        exists due :: HandsOver(old(rows), rows, agents[a].id, deviceId, now, signed, due)
    {
      CollectKeeps(Now(), deviceId, now);
      ghost var before := Now();
      signed := CollectRows(deviceId, now);
      forall a | 0 <= a < |agents| && agents[a].deviceId == deviceId
        ensures exists due :: HandsOver(before.rows, rows, agents[a].id, deviceId, now, signed, due)
      {
        PollHandsOver(before, deviceId, now, signed, a);
      }
    }

    method CollectRows(deviceId: string, now: int) returns (signed: seq<SigningInputs.Command>)
      modifies this`rows
      ensures var (after, due) := CollectFor(old(Now()), deviceId, now);
        && Now() == after && |signed| == |due|
        && forall k :: 0 <= k < |due| ==> signed[k] == CommandFor(old(rows)[due[k]], deviceId)
    {
      var agent := FindByDevice(agents, deviceId);
      if agent.None? { return []; }
      signed := CollectDue(agents[agent.value].id, deviceId, now);
    }

    method CollectDue(agentId: string, deviceId: string, now: int) returns (signed: seq<SigningInputs.Command>)
      modifies this`rows
      ensures var due := DueRows(old(rows), agentId, now, BATCH);
        && rows == CollectedRows(old(rows), due, now) && |signed| == |due|
        && forall k :: 0 <= k < |due| ==> signed[k] == CommandFor(old(rows)[due[k]], deviceId)
    {
      ghost var before := rows;
      ExpireOld(now);
      var due := DueRows(rows, agentId, now, BATCH);
      ghost var expired := rows;
      DueAfterExpiry(before, expired, agentId, now, BATCH);
      signed := Claim(due, deviceId, now);
      ExpireThenClaim(before, expired, rows, due, agentId, now);
    }

    method ExpireOld(now: int)
      modifies this`rows
      ensures |rows| == |old(rows)| && forall k :: 0 <= k < |rows| ==> rows[k] == ExpireRow(old(rows)[k], now)
    {
      var i := 0;
      while i < |rows|
        invariant i <= |rows| == |old(rows)|
        invariant forall k :: 0 <= k < i ==> rows[k] == ExpireRow(old(rows)[k], now)
        invariant forall k :: i <= k < |rows| ==> rows[k] == old(rows)[k]
      {
        if rows[i].expiresAt < now && rows[i].state.Open() {
          rows := rows[i := rows[i].(state := Expired)];
        }
        i := i + 1;
      }
    }

    /** Claims each row before signing it, so that no two polls collect the same one. */
    method Claim(due: seq<nat>, deviceId: string, now: int) returns (signed: seq<SigningInputs.Command>)
      requires forall i :: 0 <= i < |due| ==> due[i] < |rows| && rows[due[i]].state.Waiting()
      requires forall i, j :: 0 <= i < j < |due| ==> due[i] < due[j]
      modifies this`rows
      ensures |rows| == |old(rows)| && |signed| == |due|
      ensures forall k :: 0 <= k < |rows| ==> rows[k] == if k in due then Deliver(old(rows)[k], now) else old(rows)[k]
      ensures forall k :: 0 <= k < |due| ==> signed[k] == CommandFor(old(rows)[due[k]], deviceId)
    {
      signed := [];
      var j := 0;
      while j < |due|
        invariant j <= |due| && |signed| == j && |rows| == |old(rows)|
        invariant forall k :: 0 <= k < |rows| && k !in due[..j] ==> rows[k] == old(rows)[k]
        invariant forall k :: 0 <= k < j ==> rows[due[k]] == Deliver(old(rows)[due[k]], now)
        invariant forall k :: 0 <= k < j ==> signed[k] == CommandFor(old(rows)[due[k]], deviceId)
      {
        var n := due[j];
        // Still waiting, so the claim succeeds: nothing runs between the query and this.
        if rows[n].state.Waiting() {
          rows := rows[n := rows[n].(state := Sent, deliveredAt := Some(now))];
          signed := signed + [CommandFor(rows[n], deviceId)];
        }
        j := j + 1;
        assert due[..j] == due[..j - 1] + [n];
      }
      assert due[..|due|] == due;
    }

    method Record(deviceId: string, claimedDevice: string, id: string, succeeded: bool, now: int)
      returns (reply: ResultReply)
      requires Valid(now)
      modifies this`rows
      ensures Valid(now) && TableEvolves(old(rows), rows, now)
      ensures (Now(), reply) == RecordResult(old(Now()), deviceId, claimedDevice, id, succeeded, now)
      ensures reply == Mismatched <==> claimedDevice != deviceId
      ensures reply == UnknownCommand <==>
        claimedDevice == deviceId && forall k :: 0 <= k < |rows| ==> old(rows)[k].id != id
      ensures reply == NotAddressed <==>
        && claimedDevice == deviceId
        && exists k :: 0 <= k < |rows| && old(rows)[k].id == id && !Concerned(old(rows)[k], agents, deviceId)
      ensures reply != Recorded ==> rows == old(rows)
      ensures reply == Recorded ==> |rows| == |old(rows)| && forall k :: 0 <= k < |rows| ==>
        rows[k] == if old(rows)[k].id != id then old(rows)[k]
                   else if succeeded then old(rows)[k].(state := Succeeded, completedAt := Some(now))
                   else old(rows)[k].(state := Failed, completedAt := Some(now))
    {
      ResultKeeps(Now(), deviceId, claimedDevice, id, succeeded, now);
      if claimedDevice != deviceId { return Mismatched; }
      var found := FindRow(rows, id);
      if found.None? { return UnknownCommand; }
      var row := rows[found.value];
      var agent := FindByDevice(agents, deviceId);
      if agent.None? { return NotAddressed; }
      var self := agents[agent.value].id;
      if row.target != self && row.helper != Some(self) { return NotAddressed; }
      rows := rows[found.value := row.(state := if succeeded then Succeeded else Failed, completedAt := Some(now))];
      return Recorded;
    }
  }

  lemma ExpireThenClaim(
      before: seq<Row>, expired: seq<Row>, claimed: seq<Row>, due: seq<nat>, agentId: string, now: int)
    requires |before| == |expired| == |claimed|
    requires forall k :: 0 <= k < |before| ==> expired[k] == ExpireRow(before[k], now)
    requires forall k :: 0 <= k < |before| ==> claimed[k] == if k in due then Deliver(expired[k], now) else expired[k]
    requires forall k :: 0 <= k < |due| ==> due[k] < |before| && Due(before[due[k]], agentId, now)
    ensures claimed == CollectedRows(before, due, now)
  {
    forall k | 0 <= k < |before| ensures claimed[k] == CollectedRow(before[k], k in due, now) {
      if k in due {
        var m :| 0 <= m < |due| && due[m] == k;
        assert Due(before[due[m]], agentId, now);
      }
    }
  }

  /** Expiring the old rows first does not change which rows are due. */
  lemma {:induction false} DueAfterExpiry(rows: seq<Row>, expired: seq<Row>, agentId: string, now: int, limit: nat)
    requires |rows| == |expired| && forall k :: 0 <= k < |rows| ==> expired[k] == ExpireRow(rows[k], now)
    ensures DueRows(expired, agentId, now, limit) == DueRows(rows, agentId, now, limit)
  {
    if rows != [] {
      var n := |rows| - 1;
      assert expired[..n] == expired[..|expired| - 1];
      DueAfterExpiry(rows[..n], expired[..n], agentId, now, limit);
    }
  }
}
