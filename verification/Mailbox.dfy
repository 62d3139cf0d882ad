/**
 * The post box of one remote session: signals numbered by a read of the highest number
 * under a row lock, collected by the other side in batches.
 */
module Mailbox {

  const BATCH := 200

  datatype Role = Viewer | Host
  {
    function Other(): Role {
      if Viewer? then Host else Viewer
    }
  }

  datatype Letter = Letter(kind: string, payload: string)

  datatype Signal = Signal(seqNo: nat, from: Role, letter: Letter, delivered: bool)

  // ---------------------------------------------------------------------------
  // The rows
  // ---------------------------------------------------------------------------

  /** The highest number in the box, or zero for none. */
  function MaxSeq(box: seq<Signal>): (m: nat)
    ensures forall i :: 0 <= i < |box| ==> box[i].seqNo <= m
    ensures m == 0 || exists i :: 0 <= i < |box| && box[i].seqNo == m
  {
    if box == [] then 0
    else
      var n := |box| - 1;
      var m := MaxSeq(box[..n]);
      if box[n].seqNo > m then box[n].seqNo
      else
        assert m != 0 ==> exists i :: 0 <= i < n && box[..n][i].seqNo == m;
        m
  }

  function Appended(box: seq<Signal>, number: nat, from: Role, letter: Letter): seq<Signal> {
    box + [Signal(number, from, letter, false)]
  }

  predicate WaitsFor(s: Signal, to: Role) {
    s.from == to.Other() && !s.delivered
  }

  /** What the other side wrote and `to` has not collected, in the order of the rows. */
  function Waiting(box: seq<Signal>, to: Role): (w: seq<Signal>)
    ensures forall i :: 0 <= i < |w| ==> w[i] in box && WaitsFor(w[i], to)
  {
    if box == [] then []
    else
      var n := |box| - 1;
      Waiting(box[..n], to) + if WaitsFor(box[n], to) then [box[n]] else []
  }

  function Batch(box: seq<Signal>, to: Role): (b: seq<Signal>)
    ensures |b| <= BATCH
  {
    var w := Waiting(box, to);
    if |w| <= BATCH then w else w[..BATCH]
  }

  function Numbers(signals: seq<Signal>): set<nat> {
    set i | 0 <= i < |signals| :: signals[i].seqNo
  }

  function Marked(box: seq<Signal>, numbers: set<nat>): (m: seq<Signal>)
    ensures |m| == |box|
    ensures forall i :: 0 <= i < |m| ==>
      m[i] == if box[i].seqNo in numbers then box[i].(delivered := true) else box[i]
  {
    seq(|box|, i requires 0 <= i < |box| =>
      if box[i].seqNo in numbers then box[i].(delivered := true) else box[i])
  }

  function Collected(box: seq<Signal>, to: Role): seq<Signal> {
    Marked(box, Numbers(Batch(box, to)))
  }

  function Letters(signals: seq<Signal>): (ls: seq<Letter>)
    ensures |ls| == |signals|
    ensures forall i :: 0 <= i < |ls| ==> ls[i] == signals[i].letter
  {
    seq(|signals|, i requires 0 <= i < |signals| => signals[i].letter)
  }

  /** The numbers are exactly 1 to n, in the order of the rows. */
  ghost predicate Numbered(box: seq<Signal>) {
    forall i :: 0 <= i < |box| ==> box[i].seqNo == i + 1
  }

  lemma NumberedMax(box: seq<Signal>)
    requires Numbered(box)
    ensures MaxSeq(box) == |box|
  {
    if box != [] {
      assert box[|box| - 1].seqNo == |box|;
    }
  }

  ghost predicate Ascending(signals: seq<Signal>) {
    forall i, j :: 0 <= i < j < |signals| ==> signals[i].seqNo < signals[j].seqNo
  }

  lemma {:induction false} WaitingAscends(box: seq<Signal>, to: Role)
    requires Numbered(box)
    ensures Ascending(Waiting(box, to))
  {
    if box != [] {
      var n := |box| - 1;
      var short := box[..n];
      WaitingAscends(short, to);
      var w := Waiting(short, to);
      forall i | 0 <= i < |w|
        ensures w[i].seqNo < box[n].seqNo
      {
        assert w[i] in short;
      }
    }
  }

  lemma {:induction false} WaitingOfPrefix(box: seq<Signal>, m: nat, to: Role)
    requires m <= |box|
    ensures Waiting(box[..m], to) <= Waiting(box, to)
  {
    if m == |box| {
      assert box[..m] == box;
    } else {
      var short := box[..|box| - 1];
      assert short[..m] == box[..m];
      WaitingOfPrefix(short, m, to);
    }
  }

  function Rest(w: seq<Signal>, k: nat): seq<Signal> {
    if |w| <= k then [] else w[k..]
  }

  /** Marking the first k that wait leaves the rest waiting, in order. */
  lemma {:induction false} MarkedLeavesRest(box: seq<Signal>, m: nat, k: nat, to: Role, taken: set<nat>)
    requires Numbered(box) && m <= |box| && k <= |Waiting(box, to)| && taken == Numbers(Waiting(box, to)[..k])
    ensures Waiting(Marked(box[..m], taken), to) == Rest(Waiting(box[..m], to), k)
  {
    if m > 0 {
      MarkedLeavesRest(box, m - 1, k, to, taken);
      OneMore(box, m, to, taken);
      if WaitsFor(box[m - 1], to) {
        TakenIffEarly(box, m, k, to);
        RestSnoc(Waiting(box[..m - 1], to), box[m - 1], k);
      }
    }
  }

  lemma RestSnoc(w: seq<Signal>, last: Signal, k: nat)
    ensures Rest(w + [last], k) == Rest(w, k) + if |w| < k then [] else [last]
  {
  }

  lemma OneMore(box: seq<Signal>, m: nat, to: Role, taken: set<nat>)
    requires 0 < m <= |box|
    ensures Waiting(box[..m], to) == Waiting(box[..m - 1], to) + if WaitsFor(box[m - 1], to) then [box[m - 1]] else []
    ensures Waiting(Marked(box[..m], taken), to) == Waiting(Marked(box[..m - 1], taken), to)
      + if WaitsFor(box[m - 1], to) && box[m - 1].seqNo !in taken then [box[m - 1]] else []
  {
    var short, long := box[..m - 1], box[..m];
    assert long[..m - 1] == short;
    assert Marked(long, taken)[..m - 1] == Marked(short, taken);
  }

  /** The signal in row m - 1 is among the first k that wait exactly when fewer than k wait before it. */
  lemma TakenIffEarly(box: seq<Signal>, m: nat, k: nat, to: Role)
    requires Numbered(box) && 0 < m <= |box| && k <= |Waiting(box, to)| && WaitsFor(box[m - 1], to)
    ensures box[m - 1].seqNo in Numbers(Waiting(box, to)[..k]) <==> |Waiting(box[..m - 1], to)| < k
  {
    var all, place := Waiting(box, to), |Waiting(box[..m - 1], to)|;
    OneMore(box, m, to, {});
    WaitingOfPrefix(box, m, to);
    assert all[place] == box[m - 1];
    WaitingAscends(box, to);
    if place < k {
      assert all[..k][place].seqNo == box[m - 1].seqNo;
    }
  }

  lemma BatchLeavesRest(box: seq<Signal>, to: Role)
    requires Numbered(box)
    ensures Batch(box, to) + Waiting(Collected(box, to), to) == Waiting(box, to)
  {
    var w, batch := Waiting(box, to), Batch(box, to);
    var k := |batch|;
    assert batch == w[..k];
    assert box[..|box|] == box;
    MarkedLeavesRest(box, |box|, k, to, Numbers(batch));
    assert w[..k] + Rest(w, k) == w;
  }

  /**
   * The oldest signals of a role that are not delivered yet, in order: all of them, or 200
   * and every other one is younger.
   */
  ghost predicate FrontOf(box: seq<Signal>, from: Role, rows: seq<Signal>) {
    && |rows| <= 200 && Ascending(rows)
    && (forall k :: 0 <= k < |rows| ==> rows[k] in box && rows[k].from == from && !rows[k].delivered)
    && (forall j :: 0 <= j < |box| && box[j].from == from && !box[j].delivered && box[j] !in rows ==>
          |rows| == 200 && forall k :: 0 <= k < |rows| ==> rows[k].seqNo < box[j].seqNo)
  }

  lemma {:induction false} WaitingHasAll(box: seq<Signal>, to: Role, j: nat)
    requires j < |box| && WaitsFor(box[j], to)
    ensures box[j] in Waiting(box, to)
  {
    var n := |box| - 1;
    if j < n {
      WaitingHasAll(box[..n], to, j);
    }
  }

  lemma BatchIsFront(box: seq<Signal>, to: Role)
    requires Numbered(box)
    ensures FrontOf(box, if to.Viewer? then Host else Viewer, Batch(box, to))
  {
    var w, rows := Waiting(box, to), Batch(box, to);
    WaitingAscends(box, to);
    assert forall k :: 0 <= k < |rows| ==> rows[k] == w[k];
    forall j | 0 <= j < |box| && WaitsFor(box[j], to) && box[j] !in rows
      ensures |rows| == 200 && forall k :: 0 <= k < |rows| ==> rows[k].seqNo < box[j].seqNo
    {
      WaitingHasAll(box, to, j);
      var i :| 0 <= i < |w| && w[i] == box[j];
      assert i < |rows| ==> rows[i] == box[j];
    }
  }

  /** A collection hands over the oldest waiting signals and leaves the others as they were. */
  lemma CollectionTakesFront(box: seq<Signal>, to: Role)
    requires Numbered(box)
    ensures Batch(box, to) + Waiting(Collected(box, to), to) == Waiting(box, to)
    ensures Waiting(Collected(box, to), to.Other()) == Waiting(box, to.Other())
    ensures Numbered(Collected(box, to)) && FrontOf(box, to.Other(), Batch(box, to))
  {
    BatchIsFront(box, to);
    BatchLeavesRest(box, to);
    WaitingAscends(box, to);
    var batch := Batch(box, to);
    assert forall i :: 0 <= i < |batch| ==> batch[i] == Waiting(box, to)[i];
    assert box[..|box|] == box;
    OtherSideUnmarked(box, |box|, batch, to);
  }

  lemma {:induction false} OtherSideUnmarked(box: seq<Signal>, m: nat, batch: seq<Signal>, to: Role)
    requires Numbered(box) && m <= |box|
    requires forall i :: 0 <= i < |batch| ==> batch[i] in box && WaitsFor(batch[i], to)
    ensures Waiting(Marked(box[..m], Numbers(batch)), to.Other()) == Waiting(box[..m], to.Other())
  {
    if m > 0 {
      var numbers := Numbers(batch);
      OtherSideUnmarked(box, m - 1, batch, to);
      assert box[..m][..m - 1] == box[..m - 1];
      assert Marked(box[..m], numbers)[..m - 1] == Marked(box[..m - 1], numbers);
      if box[m - 1].seqNo in numbers {
        var i :| 0 <= i < |batch| && batch[i].seqNo == box[m - 1].seqNo;
        assert batch[i] == box[m - 1];
      }
    }
  }

  lemma AppendedWaits(box: seq<Signal>, number: nat, from: Role, letter: Letter)
    ensures Waiting(Appended(box, number, from, letter), from.Other())
      == Waiting(box, from.Other()) + [Signal(number, from, letter, false)]
    ensures Waiting(Appended(box, number, from, letter), from) == Waiting(box, from)
  {
    assert Appended(box, number, from, letter)[..|box|] == box;
  }

  // ---------------------------------------------------------------------------
  // Concurrent appends
  // ---------------------------------------------------------------------------

  /** Where an append stands between two of its database statements. */
  datatype Call =
    | Wanting(from: Role, letter: Letter)
    | Locked(from: Role, letter: Letter)
    | Chosen(from: Role, letter: Letter, number: nat)

  datatype Log = Log(viewer: seq<Letter>, host: seq<Letter>)
  {
    function Of(r: Role): seq<Letter> {
      if r.Viewer? then viewer else host
    }

    function Plus(r: Role, ls: seq<Letter>): Log {
      if r.Viewer? then Log(viewer + ls, host) else Log(viewer, host + ls)
    }
  }

  /**
   * `lock` is the call that holds the session row. `posted` lists what each role has
   * posted in the order the transactions committed, `received` what each has collected.
   */
  datatype State = State(
    box: seq<Signal>, lock: set<nat>, calls: map<nat, Call>, posted: Log, received: Log)

  datatype Step =
    | Begin(call: nat, from: Role, letter: Letter)
    | Lock(call: nat)
    | ReadMax(call: nat)
    | Commit(call: nat)
    | Abort(call: nat)
    | Collect(to: Role)

  const START := State([], {}, map[], Log([], []), Log([], []))

  predicate Enabled(s: State, step: Step) {
    match step
    case Begin(c, _, _) => c !in s.calls
    case Lock(c) => c in s.calls && s.calls[c].Wanting? && s.lock == {}
    case ReadMax(c) => c in s.calls && s.calls[c].Locked?
    case Commit(c) => c in s.calls && s.calls[c].Chosen?
    case Abort(c) => c in s.calls
    case Collect(_) => true
  }

  function Next(s: State, step: Step): State
    requires Enabled(s, step)
  {
    match step
    case Begin(c, from, letter) => s.(calls := s.calls[c := Wanting(from, letter)])
    case Lock(c) => s.(lock := {c}, calls := s.calls[c := Locked(s.calls[c].from, s.calls[c].letter)])
    case ReadMax(c) => s.(calls := s.calls[c := Chosen(s.calls[c].from, s.calls[c].letter, MaxSeq(s.box) + 1)])
    case Commit(c) =>
      var p := s.calls[c];
      s.(box := Appended(s.box, p.number, p.from, p.letter), lock := s.lock - {c}, calls := s.calls - {c},
         posted := s.posted.Plus(p.from, [p.letter]))
    case Abort(c) => s.(lock := s.lock - {c}, calls := s.calls - {c})
    case Collect(to) =>
      s.(box := Collected(s.box, to), received := s.received.Plus(to, Letters(Batch(s.box, to))))
  }

  /** What `to` has collected, and what still waits for it, is what the other role posted. */
  ghost predicate Fifo(s: State, to: Role) {
    s.received.Of(to) + Letters(Waiting(s.box, to)) == s.posted.Of(to.Other())
  }

  ghost predicate Inv(s: State) {
    && Numbered(s.box)
    && (forall c :: c in s.calls && !s.calls[c].Wanting? ==> s.lock == {c})
    && (forall c :: c in s.calls && s.calls[c].Chosen? ==> s.calls[c].number == |s.box| + 1)
    && (forall c :: c in s.lock ==> c in s.calls)
    && Fifo(s, Viewer) && Fifo(s, Host)
  }

  lemma LettersConcat(a: seq<Signal>, b: seq<Signal>)
    ensures Letters(a + b) == Letters(a) + Letters(b)
  {
  }

  lemma PlusOf(log: Log, r: Role, ls: seq<Letter>)
    ensures log.Plus(r, ls).Of(r) == log.Of(r) + ls
    ensures log.Plus(r, ls).Of(r.Other()) == log.Of(r.Other())
  {
  }

  /** Moving the front of what waits to the end of what was received changes nothing overall. */
  lemma Handover(received: seq<Letter>, taken: seq<Signal>, rest: seq<Signal>)
    ensures (received + Letters(taken)) + Letters(rest) == received + Letters(taken + rest)
  {
    LettersConcat(taken, rest);
  }

  lemma CollectKeepsInv(s: State, to: Role)
    requires Inv(s)
    ensures Inv(Next(s, Collect(to)))
  {
    var batch, box := Batch(s.box, to), Collected(s.box, to);
    CollectionTakesFront(s.box, to);
    PlusOf(s.received, to, Letters(batch));
    Handover(s.received.Of(to), batch, Waiting(box, to));
    CollectKeepsFifo(s, Next(s, Collect(to)), to);
    assert |box| == |s.box|;
  }

  lemma CollectKeepsFifo(s: State, t: State, to: Role)
    requires Fifo(s, Viewer) && Fifo(s, Host) && t.posted == s.posted
    requires t.received.Of(to) + Letters(Waiting(t.box, to)) == s.received.Of(to) + Letters(Waiting(s.box, to))
    requires t.received.Of(to.Other()) == s.received.Of(to.Other())
    requires Waiting(t.box, to.Other()) == Waiting(s.box, to.Other())
    ensures Fifo(t, Viewer) && Fifo(t, Host)
  {
    assert Fifo(t, to) && Fifo(t, to.Other());
  }

  lemma CommitKeepsInv(s: State, c: nat)
    requires Inv(s) && Enabled(s, Commit(c))
    ensures Inv(Next(s, Commit(c)))
  {
    var p, t := s.calls[c], Next(s, Commit(c));
    var to := p.from.Other();
    AppendedWaits(s.box, p.number, p.from, p.letter);
    var posted := Signal(p.number, p.from, p.letter, false);
    PlusOf(s.posted, p.from, [p.letter]);
    LettersConcat(Waiting(s.box, to), [posted]);
    assert Letters([posted]) == [p.letter];
    assert Fifo(s, to) && Fifo(s, p.from);
    Append(s.received.Of(to), Letters(Waiting(s.box, to)), [p.letter]);
    assert Fifo(t, to) && Fifo(t, p.from);
  }

  lemma Append(a: seq<Letter>, b: seq<Letter>, c: seq<Letter>)
    ensures a + (b + c) == (a + b) + c
  {
  }

  lemma StepKeepsInv(s: State, step: Step)
    requires Inv(s) && Enabled(s, step)
    ensures Inv(Next(s, step))
  {
    match step
    case Collect(to) => { CollectKeepsInv(s, to); }
    case Commit(c) => { CommitKeepsInv(s, c); }
    case ReadMax(c) => { NumberedMax(s.box); }
    case Begin(_, _, _) => {}
    case Lock(_) => {}
    case Abort(_) => {}
  }

  ghost predicate Legal(s: State, steps: seq<Step>)
    decreases |steps|
  {
    steps == [] || (Enabled(s, steps[0]) && Legal(Next(s, steps[0]), steps[1..]))
  }

  ghost function Run(s: State, steps: seq<Step>): State
    requires Legal(s, steps)
    decreases |steps|
  {
    if steps == [] then s else Run(Next(s, steps[0]), steps[1..])
  }

  lemma {:induction false} RunKeepsInv(s: State, steps: seq<Step>)
    requires Inv(s) && Legal(s, steps)
    ensures Inv(Run(s, steps))
    decreases |steps|
  {
    if steps != [] {
      StepKeepsInv(s, steps[0]);
      RunKeepsInv(Next(s, steps[0]), steps[1..]);
    }
  }

  /**
   * However appends and collections interleave, the stored numbers are exactly 1 to n,
   * and each role receives the other's letters first in, first out, none twice.
   */
  lemma TwoQueues(steps: seq<Step>, to: Role)
    requires Legal(START, steps)
    ensures var s := Run(START, steps);
      && Numbered(s.box)
      && s.received.Of(to) + Letters(Waiting(s.box, to)) == s.posted.Of(to.Other())
  {
    assert Fifo(START, Viewer) && Fifo(START, Host);
    RunKeepsInv(START, steps);
    assert Fifo(Run(START, steps), to);
  }

  // ---------------------------------------------------------------------------
  // Why the lock
  // ---------------------------------------------------------------------------

  /** The same calls without the lock: a number may be read at any time. */
  predicate UnlockedEnabled(s: State, step: Step) {
    if step.ReadMax? then step.call in s.calls && s.calls[step.call].Wanting? else Enabled(s, step)
  }

  function UnlockedNext(s: State, step: Step): State
    requires UnlockedEnabled(s, step)
  {
    if step.ReadMax? then
      var p := s.calls[step.call];
      s.(calls := s.calls[step.call := Chosen(p.from, p.letter, MaxSeq(s.box) + 1)])
    else Next(s, step)
  }

  /** Two appends whose reads both precede either commit choose one number between them. */
  lemma WithoutTheLockNumbersCollide(s: State, a: nat, b: nat, from: Role, first: Letter, second: Letter)
    requires Numbered(s.box) && a !in s.calls && b !in s.calls && a != b
    ensures var s1 := UnlockedNext(UnlockedNext(s, Begin(a, from, first)), Begin(b, from, second));
      var s2 := UnlockedNext(UnlockedNext(s1, ReadMax(a)), ReadMax(b));
      var s3 := UnlockedNext(UnlockedNext(s2, Commit(a)), Commit(b));
      |s3.box| == |s.box| + 2 && s3.box[|s.box|].seqNo == s3.box[|s.box| + 1].seqNo && !Numbered(s3.box)
  {
    NumberedMax(s.box);
    var s1 := UnlockedNext(UnlockedNext(s, Begin(a, from, first)), Begin(b, from, second));
    var s2 := UnlockedNext(UnlockedNext(s1, ReadMax(a)), ReadMax(b));
    var s3 := UnlockedNext(UnlockedNext(s2, Commit(a)), Commit(b));
    assert s3.box[|s.box|].seqNo == |s.box| + 1 == s3.box[|s.box| + 1].seqNo;
  }
}
