/**
 * Control plane, network and agents together. The network may lose, delay, repeat,
 * redirect and alter envelopes: a Present step offers any envelope at all to any
 * agent. Signatures are ideal, and the same key also signs remote-desktop grants.
 *
 * Each agent has its own clock, in nanoseconds, which need not agree with the control
 * plane's; it only never runs backwards. The control plane counts milliseconds.
 */
module PowerSystem {
  import opened Clock
  import opened Text
  import opened SigningInputs
  import opened ReplayGuard
  import opened PowerServer
  import Verifiers

  /** An agent acted on a command; `at` is the control plane's time. */
  datatype Execution = Execution(deviceId: string, command: Command, at: int)

  /** `issued` holds the one command signed for a row; `guards` the replay guard of each device. */
  datatype System = System(
    server: Server, issued: map<nat, Command>, grants: set<Grant>,
    guards: map<string, History>, log: seq<Execution>, now: int)

  datatype Step =
    | Requested(q: Request)
    | Polled(deviceId: string)
    | Reported(deviceId: string, claimedDevice: string, commandId: string, succeeded: bool)
    | Granted(g: Grant)
    | AgentsChanged(agents: seq<Agent>)
    | Enrolled(deviceId: string, clock: int)
    | Presented(deviceId: string, e: Verifiers.Envelope<Command>, genuine: bool, checkAt: int, pruneAt: int)
    | Ticked(later: int)

  /** The signing key, the clock drift agents tolerate, and how a timestamp is written. */
  datatype World = World(keyId: string, skew: int, fmt: int -> string)

  ghost predicate Signed(s: System, input: string, w: World) {
    || (exists i :: i in s.issued && PowerInput(s.issued[i], w.fmt) == input)
    || (exists g :: g in s.grants && GrantInput(g, w.fmt) == input)
  }

  ghost function Offer(s: System, step: Step, w: World): Attempt
    requires step.Presented?
  {
    Verifiers.CommandAttempt(step.e, step.deviceId, {w.keyId}, w.skew,
      Verifiers.Reading(step.genuine && Signed(s, PowerInput(step.e.body, w.fmt), w), step.checkAt, step.pruneAt))
  }

  ghost predicate CleanRow(r: Row) {
    Free(r.id, '\n') && Free(r.spaceId, '\n') && Free(r.nonce, '\n') && Free(r.requestedBy, '\n')
  }

  ghost predicate SameDevices(agents: seq<Agent>, agents': seq<Agent>) {
    forall i :: 0 <= i < |agents| ==>
      exists k :: 0 <= k < |agents'| && agents'[k].id == agents[i].id && agents'[k].deviceId == agents[i].deviceId
  }

  ghost predicate CleanAgents(agents: seq<Agent>) {
    AgentsInv(agents) && forall i :: 0 <= i < |agents| ==> Free(agents[i].deviceId, '\n')
  }

  ghost predicate Enabled(s: System, step: Step, w: World) {
    match step
    case Requested(q) => RequestCommand(s.server, q, s.now).1.Created? ==> CleanRow(NewRow(q, None, s.now))
    case Polled(d) => Free(d, '\n')
    case AgentsChanged(agents) => CleanAgents(agents) && SameDevices(s.server.agents, agents)
    case Enrolled(d, _) => d !in s.guards
    case Presented(d, _, _, _, _) => d in s.guards && InOrder(s.guards[d], Offer(s, step, w))
    case Ticked(later) => s.now <= later
    case _ => true
  }

  ghost function Next(s: System, step: Step, w: World): System
    requires Enabled(s, step, w)
  {
    match step
    case Requested(q) => s.(server := RequestCommand(s.server, q, s.now).0)
    case Polled(d) =>
      var (server, due) := CollectFor(s.server, d, s.now);
      s.(server := server,
         issued := s.issued + map i: nat | i in due :: CommandFor(s.server.rows[i], d))
    case Reported(d, claimed, id, ok) => s.(server := RecordResult(s.server, d, claimed, id, ok, s.now).0)
    case Granted(g) => s.(grants := s.grants + {g})
    case AgentsChanged(agents) => s.(server := s.server.(agents := agents))
    case Enrolled(d, clock) => s.(guards := s.guards[d := Fresh(clock)])
    case Presented(d, e, _, _, _) =>
      var a := Offer(s, step, w);
      s.(guards := s.guards[d := Present(s.guards[d], a)],
         log := if Accepts(s.guards[d].seen, a) then s.log + [Execution(d, e.body, s.now)] else s.log)
    case Ticked(later) => s.(now := later)
  }

  ghost predicate Initial(s: System) {
    s.server.rows == [] && CleanAgents(s.server.agents) && s.issued == map[] && s.guards == map[] && s.log == []
  }

  // ---------------------------------------------------------------------------
  // What every step keeps
  // ---------------------------------------------------------------------------

  /** `deviceId` is the device of agent `agentId`. */
  ghost predicate Serves(agents: seq<Agent>, agentId: string, deviceId: string) {
    exists k :: 0 <= k < |agents| && agents[k].id == agentId && agents[k].deviceId == deviceId
  }

  ghost predicate IssuedInv(s: System) {
    forall i :: i in s.issued ==>
      && i < |s.server.rows| && s.server.rows[i].deliveredAt.Some?
      && s.issued[i] == CommandFor(s.server.rows[i], s.issued[i].deviceId)
      && Free(s.issued[i].deviceId, '\n')
      && Serves(s.server.agents, Addressee(s.server.rows[i]), s.issued[i].deviceId)
  }

  /** Execution e is of the command issued for row i, but for fractions of a millisecond. */
  ghost predicate Justified(s: System, e: Execution, i: nat) {
    && i in s.issued && i < |s.server.rows| && SameCommand(e.command, s.issued[i]) && e.command.deviceId == e.deviceId
    && s.server.rows[i].deliveredAt.Some? && s.server.rows[i].deliveredAt.value <= e.at
  }

  ghost predicate Accounted(s: System, e: Execution) {
    && e.deviceId in s.guards && Held(s.guards[e.deviceId], e.command.nonce, e.command.expiresAt)
    && exists i: nat :: Justified(s, e, i)
  }

  ghost predicate LogInv(s: System) {
    forall a :: 0 <= a < |s.log| ==> Accounted(s, s.log[a])
  }

  /** No command has been acted on twice. */
  ghost predicate Once(s: System) {
    forall a, b :: 0 <= a < b < |s.log| ==> s.log[a].command.id != s.log[b].command.id
  }

  ghost predicate Inv(s: System) {
    && ServerInv(s.server, s.now) && CleanAgents(s.server.agents)
    && (forall i :: 0 <= i < |s.server.rows| ==> CleanRow(s.server.rows[i]))
    && (forall d :: d in s.guards ==> Covered(s.guards[d]))
    && IssuedInv(s)
    && LogInv(s)
  }

  lemma StillAccounted(s: System, t: System, e: Execution)
    requires Accounted(s, e)
    requires e.deviceId in t.guards
    requires Held(t.guards[e.deviceId], e.command.nonce, e.command.expiresAt)
    requires |s.server.rows| <= |t.server.rows|
    requires forall i :: i in s.issued && i < |s.server.rows| ==>
      i in t.issued && t.issued[i] == s.issued[i] && t.server.rows[i].deliveredAt == s.server.rows[i].deliveredAt
    ensures Accounted(t, e)
  {
    var i: nat :| Justified(s, e, i);
    assert Justified(t, e, i);
  }

  /** A call of the control plane leaves what was issued and what was done as it was. */
  lemma ServerCallKeeps(s: System, server: Server)
    requires Inv(s) && ServerInv(server, s.now) && server.agents == s.server.agents
    requires TableEvolves(s.server.rows, server.rows, s.now)
    requires forall i :: |s.server.rows| <= i < |server.rows| ==> CleanRow(server.rows[i])
    ensures Inv(s.(server := server))
  {
    var t := s.(server := server);
    forall i | 0 <= i < |server.rows| ensures CleanRow(server.rows[i]) {
      if i < |s.server.rows| {
        assert Evolves(s.server.rows[i], server.rows[i], s.now);
      }
    }
    forall i | i in s.issued
      ensures t.server.rows[i].deliveredAt == s.server.rows[i].deliveredAt
      ensures s.issued[i] == CommandFor(t.server.rows[i], s.issued[i].deviceId)
      ensures Addressee(t.server.rows[i]) == Addressee(s.server.rows[i])
    {
      assert Evolves(s.server.rows[i], server.rows[i], s.now);
    }
    forall a | 0 <= a < |t.log| ensures Accounted(t, t.log[a]) {
      StillAccounted(s, t, s.log[a]);
    }
  }

  lemma RequestedKeeps(s: System, q: Request, w: World)
    requires Inv(s) && Enabled(s, Requested(q), w)
    ensures Inv(Next(s, Requested(q), w))
  {
    RequestKeeps(s.server, q, s.now);
    ServerCallKeeps(s, RequestCommand(s.server, q, s.now).0);
  }

  lemma ReportedKeeps(s: System, step: Step, w: World)
    requires Inv(s) && step.Reported? && Enabled(s, step, w)
    ensures Inv(Next(s, step, w))
  {
    ResultKeeps(s.server, step.deviceId, step.claimedDevice, step.commandId, step.succeeded, s.now);
    ServerCallKeeps(s,
      RecordResult(s.server, step.deviceId, step.claimedDevice, step.commandId, step.succeeded, s.now).0);
  }

  /** What a poll hands over was not issued before, and goes to the machine that must act. */
  lemma PolledRow(s: System, d: string, i: nat)
    requires Inv(s) && i in CollectFor(s.server, d, s.now).1
    ensures var (server, due) := CollectFor(s.server, d, s.now);
      && i < |s.server.rows| && i !in s.issued && server.rows[i].deliveredAt.Some?
      && CommandFor(s.server.rows[i], d) == CommandFor(server.rows[i], d)
      && Serves(server.agents, Addressee(server.rows[i]), d)
  {
    CollectDelivers(s.server, d, s.now, i);
    CollectKeeps(s.server, d, s.now);
    assert RowInv(s.server.rows[i], s.now);
    assert Evolves(s.server.rows[i], CollectFor(s.server, d, s.now).0.rows[i], s.now);
  }

  /** Where the table and the clock stay, what was issued, guarded and done is all there is to check. */
  lemma SameTableKeeps(s: System, t: System)
    requires Inv(s) && t.server == s.server && t.now == s.now
    requires (forall d :: d in t.guards ==> Covered(t.guards[d])) && IssuedInv(t) && LogInv(t)
    ensures Inv(t)
  {
  }

  lemma IssueKeeps(s: System, more: map<nat, Command>)
    requires Inv(s)
    requires forall i :: i in more ==>
      && i < |s.server.rows| && i !in s.issued && s.server.rows[i].deliveredAt.Some?
      && more[i] == CommandFor(s.server.rows[i], more[i].deviceId) && Free(more[i].deviceId, '\n')
      && Serves(s.server.agents, Addressee(s.server.rows[i]), more[i].deviceId)
    ensures Inv(s.(issued := s.issued + more))
  {
    var t := s.(issued := s.issued + more);
    LogStays(s, t);
    IssuedGrows(s, more);
    SameTableKeeps(s, t);
  }

  lemma IssuedGrows(s: System, more: map<nat, Command>)
    requires IssuedInv(s)
    requires IssuedInv(s.(issued := more))
    ensures IssuedInv(s.(issued := s.issued + more))
  {
  }

  /** What a guard holds in one state it holds in the next. */
  ghost predicate GuardsHold(s: System, t: System) {
    forall d, n, e :: d in s.guards && Held(s.guards[d], n, e) ==> d in t.guards && Held(t.guards[d], n, e)
  }

  /** More issued, more held: what was done is still accounted for. */
  lemma LogStays(s: System, t: System)
    requires LogInv(s) && t.log == s.log && t.server == s.server
    requires GuardsHold(s, t)
    requires forall i :: i in s.issued && i < |s.server.rows| ==> i in t.issued && t.issued[i] == s.issued[i]
    ensures LogInv(t)
  {
    forall a | 0 <= a < |t.log| ensures Accounted(t, t.log[a]) {
      StillAccounted(s, t, s.log[a]);
    }
  }

  lemma PolledKeeps(s: System, d: string, w: World)
    requires Inv(s) && Enabled(s, Polled(d), w)
    ensures Inv(Next(s, Polled(d), w))
  {
    var (server, due) := CollectFor(s.server, d, s.now);
    CollectKeeps(s.server, d, s.now);
    ServerCallKeeps(s, server);
    var more := map i: nat | i in due :: CommandFor(s.server.rows[i], d);
    forall i | i in more
      ensures
        && i < |server.rows| && i !in s.issued && server.rows[i].deliveredAt.Some?
        && more[i] == CommandFor(server.rows[i], d) && Serves(server.agents, Addressee(server.rows[i]), d)
    {
      PolledRow(s, d, i);
    }
    IssueKeeps(s.(server := server), more);
  }

  lemma AgentsChangedKeeps(s: System, step: Step, w: World)
    requires Inv(s) && step.AgentsChanged? && Enabled(s, step, w)
    ensures Inv(Next(s, step, w))
  {
    var t := Next(s, step, w);
    forall i | i in s.issued ensures Serves(t.server.agents, Addressee(t.server.rows[i]), s.issued[i].deviceId) {
      var k :| 0 <= k < |s.server.agents| && s.server.agents[k].id == Addressee(s.server.rows[i])
            && s.server.agents[k].deviceId == s.issued[i].deviceId;
    }
    forall a | 0 <= a < |t.log| ensures Accounted(t, t.log[a]) {
      StillAccounted(s, t, s.log[a]);
    }
  }

  lemma OtherStepKeeps(s: System, step: Step, w: World)
    requires Inv(s) && (step.Granted? || step.Enrolled? || step.Ticked?) && Enabled(s, step, w)
    ensures Inv(Next(s, step, w))
  {
    var t := Next(s, step, w);
    TimePasses(s.server.rows, s.now, t.now);
    forall a | 0 <= a < |t.log| ensures Accounted(t, t.log[a]) {
      StillAccounted(s, t, s.log[a]);
    }
  }

  /** An accepted command is one that was issued, whatever was done to the envelope on the way. */
  lemma AcceptedWasIssued(s: System, step: Step, w: World) returns (i: nat)
    requires Inv(s) && GoodFormat(w.fmt) && step.Presented? && Offer(s, step, w).sound
    ensures i in s.issued && SameCommand(step.e.body, s.issued[i]) && step.e.body.deviceId == step.deviceId
  {
    var c := step.e.body;
    assert Signed(s, PowerInput(c, w.fmt), w);
    if g :| g in s.grants && GrantInput(g, w.fmt) == PowerInput(c, w.fmt) {
      PowerIsNotGrant(c, g, w.fmt);
    }
    i :| i in s.issued && PowerInput(s.issued[i], w.fmt) == PowerInput(c, w.fmt);
    assert CleanRow(s.server.rows[i]);
    NamesAreClean(s.server.rows[i].action);
    PowerInputDeterminesCommand(c, s.issued[i], w.fmt);
  }

  lemma PowerIsNotGrant(c: Command, g: Grant, fmt: int -> string)
    ensures PowerInput(c, fmt) != GrantInput(g, fmt)
  {
    assert |POWER_DOMAIN| != |REMOTE_DOMAIN|;
    FirstLineDecides(PowerLines(c, fmt), GrantLines(g, fmt));
  }

  lemma NamesAreClean(a: PowerServer.Action)
    ensures Free(a.Name(), '\n')
  {
  }

  /** An id belongs to one row, and a row is issued as one command. */
  lemma SameIdSameCommand(s: System, e: Execution, i: nat)
    requires ServerInv(s.server, s.now) && IssuedInv(s) && Accounted(s, e) && i in s.issued
    requires s.issued[i].id == e.command.id
    ensures SameCommand(e.command, s.issued[i]) && e.command.deviceId == e.deviceId
  {
    var j: nat :| Justified(s, e, j);
    assert s.server.rows[j].id == s.server.rows[i].id;
  }

  /** Acting again on a command that was acted on takes a presentation that slips. */
  lemma SecondExecutionSlips(s: System, step: Step, w: World, k: nat)
    requires Inv(s) && GoodFormat(w.fmt) && step.Presented? && Enabled(s, step, w) && k < |s.log|
    requires Accepts(s.guards[step.deviceId].seen, Offer(s, step, w))
    requires s.log[k].command.id == step.e.body.id
    ensures Slips(Offer(s, step, w)) && s.log[k].deviceId == step.deviceId
  {
    var i := AcceptedWasIssued(s, step, w);
    assert Accounted(s, s.log[k]);
    SameIdSameCommand(s, s.log[k], i);
    HeldAgainSlips(s.guards[step.deviceId], Offer(s, step, w), s.log[k].command.expiresAt);
  }

  /**
   * Where the latest acceptance of a command was of its envelope as issued, presenting it
   * once more makes the agent act again exactly when the presentation slips.
   */
  lemma ActsAgainIff(s: System, step: Step, w: World, k: nat)
    requires Inv(s) && GoodFormat(w.fmt) && step.Presented? && Enabled(s, step, w) && k < |s.log|
    requires Offer(s, step, w).sound && s.log[k].command.id == step.e.body.id
    requires s.log[k].command.nonce in s.guards[step.deviceId].spent
    requires s.guards[step.deviceId].spent[s.log[k].command.nonce] == Whole(s.log[k].command.expiresAt)
    ensures |Next(s, step, w).log| == |s.log| + 1 <==> Slips(Offer(s, step, w))
  {
    var i := AcceptedWasIssued(s, step, w);
    assert Accounted(s, s.log[k]);
    SameIdSameCommand(s, s.log[k], i);
    SameMsSameWhole(s.log[k].command.expiresAt, step.e.body.expiresAt);
    AcceptedAgainIff(s.guards[step.deviceId], Offer(s, step, w));
  }

  lemma GuardsStillHold(s: System, step: Step, w: World)
    requires Inv(s) && step.Presented? && Enabled(s, step, w)
    ensures GuardsHold(s, Next(s, step, w))
  {
    var g, a := s.guards[step.deviceId], Offer(s, step, w);
    forall n, e | Held(g, n, e)
      ensures Held(Present(g, a), n, e)
    {
      PresentKeepsHeld(g, a, n, e);
    }
  }

  lemma PresentedKeeps(s: System, step: Step, w: World)
    requires Inv(s) && GoodFormat(w.fmt) && step.Presented? && Enabled(s, step, w)
    ensures Inv(Next(s, step, w))
  {
    var t, d := Next(s, step, w), step.deviceId;
    PresentKeepsCovered(s.guards[d], Offer(s, step, w));
    GuardsStillHold(s, step, w);
    LogStays(s, t.(log := s.log));
    if Accepts(s.guards[d].seen, Offer(s, step, w)) {
      ExecutedIsAccounted(s, step, w);
      LogGrows(t.(log := s.log), Execution(d, step.e.body, s.now));
    }
    SameTableKeeps(s, t);
  }

  lemma LogGrows(s: System, e: Execution)
    requires LogInv(s) && Accounted(s.(log := s.log + [e]), e)
    ensures LogInv(s.(log := s.log + [e]))
  {
    var t := s.(log := s.log + [e]);
    forall a | 0 <= a < |t.log| ensures Accounted(t, t.log[a]) {
      if a < |s.log| {
        StillAccounted(s, t, s.log[a]);
      }
    }
  }

  lemma ExecutedIsAccounted(s: System, step: Step, w: World)
    requires Inv(s) && GoodFormat(w.fmt) && step.Presented? && Enabled(s, step, w)
    requires Accepts(s.guards[step.deviceId].seen, Offer(s, step, w))
    ensures Accounted(Next(s, step, w), Execution(step.deviceId, step.e.body, s.now))
  {
    var t, e := Next(s, step, w), Execution(step.deviceId, step.e.body, s.now);
    var i := AcceptedWasIssued(s, step, w);
    assert RowInv(s.server.rows[i], s.now);
    assert Justified(t, e, i);
  }

  lemma StepKeepsOnce(s: System, step: Step, w: World)
    requires Inv(s) && Once(s) && GoodFormat(w.fmt) && Enabled(s, step, w)
    requires step.Presented? ==> !Slips(Offer(s, step, w))
    ensures Once(Next(s, step, w))
  {
    if step.Presented? && Accepts(s.guards[step.deviceId].seen, Offer(s, step, w)) {
      forall k | 0 <= k < |s.log| ensures s.log[k].command.id != step.e.body.id {
        if s.log[k].command.id == step.e.body.id {
          SecondExecutionSlips(s, step, w, k);
        }
      }
    }
  }

  lemma StepKeepsInv(s: System, step: Step, w: World)
    requires Inv(s) && GoodFormat(w.fmt) && Enabled(s, step, w)
    ensures Inv(Next(s, step, w))
  {
    match step
    case Requested(q) => RequestedKeeps(s, q, w);
    case Polled(d) => PolledKeeps(s, d, w);
    case Reported(_, _, _, _) => ReportedKeeps(s, step, w);
    case Presented(_, _, _, _, _) => PresentedKeeps(s, step, w);
    case AgentsChanged(_) => AgentsChangedKeeps(s, step, w);
    case _ => OtherStepKeeps(s, step, w);
  }

  // ---------------------------------------------------------------------------
  // Whole runs
  // ---------------------------------------------------------------------------

  ghost predicate Legal(s: System, steps: seq<Step>, w: World)
    decreases |steps|
  {
    steps == [] || (Enabled(s, steps[0], w) && Legal(Next(s, steps[0], w), steps[1..], w))
  }

  ghost function Run(s: System, steps: seq<Step>, w: World): System
    requires Legal(s, steps, w)
    decreases |steps|
  {
    if steps == [] then s else Run(Next(s, steps[0], w), steps[1..], w)
  }

  lemma {:induction false} RunKeepsInv(s: System, steps: seq<Step>, w: World)
    requires Inv(s) && GoodFormat(w.fmt) && Legal(s, steps, w)
    ensures Inv(Run(s, steps, w))
    decreases |steps|
  {
    if steps != [] {
      StepKeepsInv(s, steps[0], w);
      RunKeepsInv(Next(s, steps[0], w), steps[1..], w);
    }
  }

  /** Everything promised about one execution e, of the command in row r. */
  ghost predicate Proper(e: Execution, r: Row, agents: seq<Agent>) {
    && SameCommand(e.command, CommandFor(r, e.deviceId))
    // Only by the machine that was to act: the helper for a wake, the target otherwise.
    && Serves(agents, if r.action.Wake? then r.helper.GetOr("") else r.target, e.deviceId)
    // Never before its time; a destructive one not within ten seconds of the request.
    && r.requestedAt <= r.executeAt <= e.at
    && (r.action.Destructive() ==> r.requestedAt + 10_000 <= e.at)
    // Handed over inside its window of two minutes.
    && r.deliveredAt.Some? && r.executeAt <= r.deliveredAt.value < r.executeAt + 120_000
    && r.deliveredAt.value <= e.at
    // Not called off before.
    && r.cancelledAt.None?
  }

  lemma LoggedIsProper(s: System, a: nat) returns (i: nat)
    requires Inv(s) && a < |s.log|
    ensures i < |s.server.rows| && Proper(s.log[a], s.server.rows[i], s.server.agents)
  {
    assert Accounted(s, s.log[a]);
    i :| Justified(s, s.log[a], i);
    assert RowInv(s.server.rows[i], s.now);
  }

  ghost predicate ExecutedProperly(s: System, e: Execution) {
    exists i :: 0 <= i < |s.server.rows| && Proper(e, s.server.rows[i], s.server.agents)
  }

  /** End to end: after any run, each execution on any agent is a proper one. */
  lemma EveryExecutionIsProper(s: System, steps: seq<Step>, w: World, a: nat)
    requires Initial(s) && GoodFormat(w.fmt) && Legal(s, steps, w) && a < |Run(s, steps, w).log|
    ensures ExecutedProperly(Run(s, steps, w), Run(s, steps, w).log[a])
  {
    RunKeepsInv(s, steps, w);
    var i := LoggedIsProper(Run(s, steps, w), a);
  }

  /** No envelope is presented with a reading before its expiry and another past the millisecond signed. */
  ghost predicate NothingSlips(s: System, steps: seq<Step>, w: World)
    requires Legal(s, steps, w)
    decreases |steps|
  {
    steps == [] ||
    ((steps[0].Presented? ==> !Slips(Offer(s, steps[0], w))) && NothingSlips(Next(s, steps[0], w), steps[1..], w))
  }

  lemma {:induction false} RunKeepsOnce(s: System, steps: seq<Step>, w: World)
    requires Inv(s) && Once(s) && GoodFormat(w.fmt) && Legal(s, steps, w) && NothingSlips(s, steps, w)
    ensures Once(Run(s, steps, w))
    decreases |steps|
  {
    if steps != [] {
      StepKeepsInv(s, steps[0], w);
      StepKeepsOnce(s, steps[0], w);
      RunKeepsOnce(Next(s, steps[0], w), steps[1..], w);
    }
  }

  /** In a run in which nothing slips, no command is acted on twice, by one agent or by two. */
  lemma NoCommandActedOnTwice(s: System, steps: seq<Step>, w: World, a: nat, b: nat)
    requires Initial(s) && GoodFormat(w.fmt) && Legal(s, steps, w) && NothingSlips(s, steps, w)
    requires a < b < |Run(s, steps, w).log|
    ensures Run(s, steps, w).log[a].command.id != Run(s, steps, w).log[b].command.id
  {
    RunKeepsOnce(s, steps, w);
  }

  /** How a command may differ after any number of calls. */
  ghost predicate Settled(r: Row, q: Row) {
    && (!r.state.Waiting() ==> !q.state.Waiting() && q.deliveredAt == r.deliveredAt && q.cancelledAt == r.cancelledAt)
    && (r.deliveredAt.Some? ==> q.deliveredAt == r.deliveredAt)
    && q.id == r.id && q.target == r.target
  }

  lemma StepSettles(s: System, step: Step, w: World)
    requires Inv(s) && Enabled(s, step, w)
    ensures |s.server.rows| <= |Next(s, step, w).server.rows|
    ensures forall i :: 0 <= i < |s.server.rows| ==> Settled(s.server.rows[i], Next(s, step, w).server.rows[i])
  {
    var t := Next(s, step, w);
    match step {
      case Requested(q) => RequestKeeps(s.server, q, s.now);
      case Polled(d) => CollectKeeps(s.server, d, s.now);
      case Reported(d, c, id, ok) => ResultKeeps(s.server, d, c, id, ok, s.now);
      case _ => assert TableEvolves(s.server.rows, t.server.rows, s.now);
    }
    forall i | 0 <= i < |s.server.rows| ensures Settled(s.server.rows[i], t.server.rows[i]) {
      assert Evolves(s.server.rows[i], t.server.rows[i], s.now);
    }
  }

  /**
   * Over any run, a command that has stopped waiting stays so: cancelled or expired,
   * it is never handed over later, and it is handed over at most once.
   */
  lemma {:induction false} CommandsSettle(s: System, steps: seq<Step>, w: World, i: nat)
    requires Inv(s) && GoodFormat(w.fmt) && Legal(s, steps, w) && i < |s.server.rows|
    ensures i < |Run(s, steps, w).server.rows|
    ensures Settled(s.server.rows[i], Run(s, steps, w).server.rows[i])
    decreases |steps|
  {
    if steps != [] {
      StepKeepsInv(s, steps[0], w);
      StepSettles(s, steps[0], w);
      CommandsSettle(Next(s, steps[0], w), steps[1..], w, i);
    }
  }

  /** The command in row i was called off before it was handed over. */
  ghost predicate OffTheTable(s: System, i: nat) {
    && i < |s.server.rows| && s.server.rows[i].deliveredAt.None? && s.server.rows[i].cancelledAt.Some?
    && !s.server.rows[i].state.Waiting()
  }

  /** What was answered as called off is the newest open command of the machine, and was still waiting. */
  lemma CalledOffIsOffTheTable(s: System, q: Request, w: World) returns (i: nat)
    requires Inv(s) && GoodFormat(w.fmt) && Enabled(s, Requested(q), w)
    requires RequestCommand(s.server, q, s.now).1.CalledOff?
    ensures i < |s.server.rows| && s.server.rows[i].target == q.target
    ensures s.server.rows[i].id == RequestCommand(s.server, q, s.now).1.id
    ensures OffTheTable(Next(s, Requested(q), w), i)
  {
    i := CalledOffRow(s.server, q, s.now);
  }

  /** A command off the table is in no poll, and has been and is acted on by nobody. */
  lemma OffTheTableIsDead(s: System, i: nat, d: string, a: nat)
    requires Inv(s) && OffTheTable(s, i)
    ensures i !in CollectFor(s.server, d, s.now).1
    ensures a < |s.log| ==> s.log[a].command.id != s.server.rows[i].id
  {
    if i in CollectFor(s.server, d, s.now).1 {
      CollectDelivers(s.server, d, s.now, i);
    }
    if a < |s.log| {
      assert Accounted(s, s.log[a]);
      var j: nat :| Justified(s, s.log[a], j);
      assert RowInv(s.server.rows[j], s.now);
    }
  }

  /**
   * Called off is called off: once a cancel has been answered so, then whatever follows,
   * no poll hands the command over and no agent has acted or acts on it.
   */
  lemma CalledOffNeverActs(s: System, q: Request, steps: seq<Step>, w: World, d: string, a: nat) returns (i: nat)
    requires Inv(s) && GoodFormat(w.fmt) && Enabled(s, Requested(q), w)
    requires RequestCommand(s.server, q, s.now).1.CalledOff?
    requires Legal(Next(s, Requested(q), w), steps, w)
    ensures i < |s.server.rows| && s.server.rows[i].target == q.target
    ensures s.server.rows[i].id == RequestCommand(s.server, q, s.now).1.id
    ensures var t := Run(Next(s, Requested(q), w), steps, w);
      && i < |t.server.rows| && t.server.rows[i].id == s.server.rows[i].id
      && i !in CollectFor(t.server, d, t.now).1
      && (a < |t.log| ==> t.log[a].command.id != s.server.rows[i].id)
  {
    i := CalledOffIsOffTheTable(s, q, w);
    var u := Next(s, Requested(q), w);
    StepKeepsInv(s, Requested(q), w);
    StepSettles(s, Requested(q), w);
    CommandsSettle(u, steps, w, i);
    RunKeepsInv(u, steps, w);
    OffTheTableIsDead(Run(u, steps, w), i, d, a);
  }

  /** At any moment of any run a machine has at most one command that is open and unexpired. */
  lemma OneOutstandingCommand(s: System, steps: seq<Step>, w: World, i: nat, j: nat)
    requires Initial(s) && GoodFormat(w.fmt) && Legal(s, steps, w)
    requires var t := Run(s, steps, w);
      && i < |t.server.rows| && j < |t.server.rows| && t.server.rows[i].target == t.server.rows[j].target
      && Unexpired(t.server.rows[i], t.now) && Unexpired(t.server.rows[j], t.now)
    ensures i == j
  {
    RunKeepsInv(s, steps, w);
  }
}
