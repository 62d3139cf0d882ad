/**
 * Six-digit email codes. A hash is injective, so a row holds the code it was made
 * from; ids are handed out in creation order.
 */
module Challenges {
  import opened Text

  const TTL_MS := 10 * 60_000
  const MAX_ATTEMPTS := 5
  const MAX_RESENDS := 3
  const COOLDOWN_MS := 60 * 1000

  datatype Row = Row(
    userId: nat, purpose: string, code: string, createdAt: int, expiresAt: int, consumedAt: Option<int>,
    attempts: nat, maxAttempts: nat, resendCount: nat, lastSentAt: int)

  datatype Db = Db(rows: map<nat, Row>, next: nat)

  datatype Request =
    | Issue(userId: nat, purpose: string, code: string, now: int)
    | Resend(id: nat, code: string, now: int)
    | Consume(id: nat, purpose: string, code: string, now: int)

  datatype Answer =
    | Issued(id: nat) | Resent | NoLongerValid | TooSoon(waitMs: int) | TooManyResends
    | Ok | NotFound | AlreadyUsed | Expired | TooManyAttempts | InvalidCode(remaining: nat)

  const EMPTY := Db(map[], 0)

  function Superseded(rows: map<nat, Row>, userId: nat, purpose: string, now: int): map<nat, Row> {
    map i | i in rows ::
      if rows[i].userId == userId && rows[i].purpose == purpose && rows[i].consumedAt.None?
      then rows[i].(consumedAt := Some(now)) else rows[i]
  }

  function NewRow(userId: nat, purpose: string, code: string, now: int): Row {
    Row(userId, purpose, code, now, now + TTL_MS, None, 0, MAX_ATTEMPTS, 0, now)
  }

  function Refreshed(r: Row, code: string, now: int): Row {
    r.(code := code, expiresAt := now + TTL_MS, lastSentAt := now, resendCount := r.resendCount + 1, attempts := 0)
  }

  /** One more wrong code; the last one allowed also consumes the challenge. */
  function Penalised(r: Row, now: int): Row {
    r.(attempts := r.attempts + 1,
       consumedAt := if r.attempts + 1 >= r.maxAttempts then Some(now) else r.consumedAt)
  }

  function Reply(db: Db, q: Request): (Db, Answer) {
    match q
    case Issue(userId, purpose, code, now) =>
      (Db(Superseded(db.rows, userId, purpose, now)[db.next := NewRow(userId, purpose, code, now)], db.next + 1),
       Issued(db.next))
    case Resend(id, code, now) =>
      if id !in db.rows || db.rows[id].consumedAt.Some? then (db, NoLongerValid)
      else
        var r := db.rows[id];
        if now < r.lastSentAt + COOLDOWN_MS then (db, TooSoon(r.lastSentAt + COOLDOWN_MS - now))
        else if r.resendCount >= MAX_RESENDS then (db, TooManyResends)
        else (db.(rows := db.rows[id := Refreshed(r, code, now)]), Resent)
    case Consume(id, purpose, code, now) =>
      if id !in db.rows || db.rows[id].purpose != purpose then (db, NotFound)
      else
        var r := db.rows[id];
        if r.consumedAt.Some? then (db, AlreadyUsed)
        else if r.expiresAt <= now then (db, Expired)
        else if r.attempts >= r.maxAttempts then (db, TooManyAttempts)
        else if code != r.code then
          (db.(rows := db.rows[id := Penalised(r, now)]),
           InvalidCode(if r.attempts + 1 < r.maxAttempts then r.maxAttempts - r.attempts - 1 else 0))
        else (db.(rows := db.rows[id := r.(consumedAt := Some(now))]), Ok)
  }

  // ---------------------------------------------------------------------------
  // The service
  // ---------------------------------------------------------------------------

  class ChallengeService {
    var rows: map<nat, Row>
    var next: nat

    function Contents(): Db
      reads this
    {
      Db(rows, next)
    }

    constructor ()
      ensures Contents() == EMPTY
    {
      rows, next := map[], 0;
    }

    method Issue(userId: nat, purpose: string, code: string, now: int) returns (id: nat)
      modifies this
      ensures (Contents(), Issued(id)) == Reply(old(Contents()), Request.Issue(userId, purpose, code, now))
      ensures id == old(next) && next == id + 1 && rows.Keys == old(rows).Keys + {id}
      ensures rows[id] == Row(userId, purpose, code, now, now + 600_000, None, 0, 5, 0, now)
      ensures forall i :: i in old(rows) && i != id ==>
        var r := old(rows)[i];
        rows[i] == if r.userId == userId && r.purpose == purpose && r.consumedAt.None?
                   then r.(consumedAt := Some(now)) else r
    {
      rows := Superseded(rows, userId, purpose, now);
      id := next;
      rows, next := rows[id := NewRow(userId, purpose, code, now)], next + 1;
    }

    method Resend(id: nat, code: string, now: int) returns (answer: Answer)
      modifies this
      ensures (Contents(), answer) == Reply(old(Contents()), Request.Resend(id, code, now))
      ensures next == old(next)
      ensures if id !in old(rows) || old(rows)[id].consumedAt.Some? then answer == NoLongerValid && rows == old(rows)
        else
          var r := old(rows)[id];
          if now < r.lastSentAt + 60_000 then answer == TooSoon(r.lastSentAt + 60_000 - now) && rows == old(rows)
          else if r.resendCount >= 3 then answer == TooManyResends && rows == old(rows)
          else
            && answer == Resent
            && rows == old(rows)[id := r.(code := code, expiresAt := now + 600_000, lastSentAt := now,
                                          resendCount := r.resendCount + 1, attempts := 0)]
    {
      if id !in rows { return NoLongerValid; }
      var challenge := rows[id];
      if challenge.consumedAt.Some? { return NoLongerValid; }
      var cooldownEndsAt := challenge.lastSentAt + COOLDOWN_MS;
      if now < cooldownEndsAt { return TooSoon(cooldownEndsAt - now); }
      if challenge.resendCount >= MAX_RESENDS { return TooManyResends; }
      rows := rows[id := Refreshed(challenge, code, now)];
      return Resent;
    }

    method Consume(id: nat, purpose: string, code: string, now: int) returns (answer: Answer)
      modifies this
      ensures (Contents(), answer) == Reply(old(Contents()), Request.Consume(id, purpose, code, now))
      ensures next == old(next)
      ensures answer == NotFound <==> id !in old(rows) || old(rows)[id].purpose != purpose
      ensures answer == Ok <==>
        && id in old(rows) && old(rows)[id].purpose == purpose && old(rows)[id].consumedAt.None?
        && now < old(rows)[id].expiresAt && old(rows)[id].attempts < old(rows)[id].maxAttempts
        && old(rows)[id].code == code
      ensures answer.InvalidCode? <==>
        && id in old(rows) && old(rows)[id].purpose == purpose && old(rows)[id].consumedAt.None?
        && now < old(rows)[id].expiresAt && old(rows)[id].attempts < old(rows)[id].maxAttempts
        && old(rows)[id].code != code
      ensures answer == Ok ==> rows == old(rows)[id := old(rows)[id].(consumedAt := Some(now))]
      ensures answer.InvalidCode? ==>
        var r := old(rows)[id];
        && answer.remaining == r.maxAttempts - r.attempts - 1
        && rows == old(rows)[id :=
             r.(attempts := r.attempts + 1, consumedAt := if answer.remaining == 0 then Some(now) else None)]
      ensures answer != Ok && !answer.InvalidCode? ==> rows == old(rows)
    {
      if id !in rows || rows[id].purpose != purpose { return NotFound; }
      var challenge := rows[id];
      if challenge.consumedAt.Some? { return AlreadyUsed; }
      if challenge.expiresAt <= now { return Expired; }
      if challenge.attempts >= challenge.maxAttempts { return TooManyAttempts; }
      if code != challenge.code {
        var updated := challenge.(attempts := challenge.attempts + 1);
        ghost var before := rows;
        rows := rows[id := updated];
        var attemptsRemaining :=
          if updated.attempts < updated.maxAttempts then updated.maxAttempts - updated.attempts else 0;
        if attemptsRemaining == 0 {
          rows := rows[id := updated.(consumedAt := Some(now))];
        }
        assert rows == before[id := Penalised(challenge, now)];
        return InvalidCode(attemptsRemaining);
      }
      rows := rows[id := challenge.(consumedAt := Some(now))];
      return Ok;
    }
  }

  // ---------------------------------------------------------------------------
  // Serial runs
  // ---------------------------------------------------------------------------

  /** The table after a run of calls, each complete before the next begins. */
  function After(run: seq<Request>): Db
    decreases |run|
  {
    if run == [] then EMPTY else Reply(After(run[..|run| - 1]), run[|run| - 1]).0
  }

  function AnswerAt(run: seq<Request>, i: nat): Answer
    requires i < |run|
  {
    Reply(After(run[..i]), run[i]).1
  }

  predicate WrongAt(run: seq<Request>, i: nat, id: nat)
    requires i < |run|
  {
    run[i].Consume? && run[i].id == id && AnswerAt(run, i).InvalidCode?
  }

  /** How many wrong codes challenge `id` has been shown. */
  function WrongCodes(run: seq<Request>, id: nat): nat
    decreases |run|
  {
    if run == [] then 0
    else WrongCodes(run[..|run| - 1], id) + if WrongAt(run, |run| - 1, id) then 1 else 0
  }

  datatype Mail = Mail(code: string, at: int)

  /** The latest code mailed for challenge `id`. */
  function LastMail(run: seq<Request>, id: nat): Option<Mail>
    decreases |run|
  {
    if run == [] then None
    else
      var n := |run| - 1;
      var q, a := run[n], AnswerAt(run, n);
      if Mails(q, a, id) then Some(Mail(q.code, q.now))
      else LastMail(run[..n], id)
  }

  ghost predicate RowInv(r: Row) {
    && r.maxAttempts == MAX_ATTEMPTS && r.resendCount <= MAX_RESENDS
    && r.attempts <= r.maxAttempts && (r.consumedAt.None? ==> r.attempts < r.maxAttempts)
    && r.lastSentAt >= r.createdAt + COOLDOWN_MS * r.resendCount
    && r.expiresAt == r.lastSentAt + TTL_MS
  }

  ghost predicate SameSubject(a: Row, b: Row) {
    a.userId == b.userId && a.purpose == b.purpose
  }

  /** Every row is sound, and a user has one open challenge for a purpose at most. */
  ghost predicate Inv(db: Db) {
    && (forall i :: i in db.rows ==> i < db.next && RowInv(db.rows[i]))
    && (forall i, j :: i in db.rows && j in db.rows && i != j && SameSubject(db.rows[i], db.rows[j]) ==>
          db.rows[i].consumedAt.Some? || db.rows[j].consumedAt.Some?)
  }

  /** One row changed for a sound one of the same subject that is open only if the old one was. */
  lemma ChangeKeepsInv(db: Db, id: nat, r: Row)
    requires Inv(db) && id in db.rows && RowInv(r) && SameSubject(r, db.rows[id])
    requires r.consumedAt.None? ==> db.rows[id].consumedAt.None?
    ensures Inv(db.(rows := db.rows[id := r]))
  {
  }

  /** Afterwards nothing of the subject is open. */
  lemma SupersededKeepsInv(db: Db, userId: nat, purpose: string, now: int)
    requires Inv(db)
    ensures Inv(db.(rows := Superseded(db.rows, userId, purpose, now)))
    ensures var rows := Superseded(db.rows, userId, purpose, now);
      forall i :: i in rows && rows[i].userId == userId && rows[i].purpose == purpose ==> rows[i].consumedAt.Some?
  {
  }

  lemma AddedKeepsInv(db: Db, r: Row)
    requires Inv(db) && RowInv(r)
    requires forall i :: i in db.rows && SameSubject(db.rows[i], r) ==> db.rows[i].consumedAt.Some?
    ensures Inv(Db(db.rows[db.next := r], db.next + 1))
  {
  }

  lemma IssueKeepsInv(db: Db, userId: nat, purpose: string, code: string, now: int)
    requires Inv(db)
    ensures Inv(Reply(db, Issue(userId, purpose, code, now)).0)
  {
    SupersededKeepsInv(db, userId, purpose, now);
    AddedKeepsInv(db.(rows := Superseded(db.rows, userId, purpose, now)), NewRow(userId, purpose, code, now));
  }

  lemma ReplyKeepsInv(db: Db, q: Request)
    requires Inv(db)
    ensures Inv(Reply(db, q).0)
  {
    if q.Issue? {
      IssueKeepsInv(db, q.userId, q.purpose, q.code, q.now);
    } else if q.id in db.rows {
      var after := Reply(db, q).0;
      ChangeKeepsInv(db, q.id, after.rows[q.id]);
      assert after.rows == db.rows[q.id := after.rows[q.id]];
    }
  }

  lemma {:induction false} RunKeepsInv(run: seq<Request>)
    ensures Inv(After(run))
    decreases |run|
  {
    if run != [] {
      RunKeepsInv(run[..|run| - 1]);
      ReplyKeepsInv(After(run[..|run| - 1]), run[|run| - 1]);
    }
  }

  /** In a serial run the attempt check never decides anything: consuming comes first. */
  lemma AttemptsNeverRunOut(run: seq<Request>, i: nat)
    requires i < |run|
    ensures !AnswerAt(run, i).TooManyAttempts?
  {
    RunKeepsInv(run[..i]);
  }

  ghost function Spent(db: Db, id: nat): nat {
    if id in db.rows then (MAX_ATTEMPTS - 1) * db.rows[id].resendCount + db.rows[id].attempts else 0
  }

  lemma WrongCodePaidFor(db: Db, q: Request, id: nat)
    requires Inv(db)
    ensures var (after, answer) := Reply(db, q);
      Spent(db, id) + (if q.Consume? && q.id == id && answer.InvalidCode? then 1 else 0) <= Spent(after, id)
  {
  }

  lemma {:induction false} WrongCodesAccounted(run: seq<Request>, id: nat)
    ensures WrongCodes(run, id) <= Spent(After(run), id)
    decreases |run|
  {
    if run != [] {
      var before := run[..|run| - 1];
      WrongCodesAccounted(before, id);
      RunKeepsInv(before);
      WrongCodePaidFor(After(before), run[|run| - 1], id);
    }
  }

  /** No challenge is ever shown more than 17 wrong codes. */
  lemma CodeBudget(run: seq<Request>, id: nat)
    ensures WrongCodes(run, id) <= (MAX_ATTEMPTS - 1) * MAX_RESENDS + MAX_ATTEMPTS == 17
  {
    WrongCodesAccounted(run, id);
    RunKeepsInv(run);
  }

  // ---------------------------------------------------------------------------
  // The budget can be spent in full
  // ---------------------------------------------------------------------------

  function WrongGuess(now: int): Request {
    Consume(0, "sign_in", "no", now)
  }

  function Guesses(n: nat, now: int): seq<Request> {
    seq(n, _ => WrongGuess(now))
  }

  ghost predicate OpenWith(run: seq<Request>, resends: nat, attempts: nat, sentAt: int, wrong: nat) {
    && 0 in After(run).rows
    && After(run).rows[0].(createdAt := 0)
         == Row(0, "sign_in", "yes", 0, sentAt + TTL_MS, None, attempts, MAX_ATTEMPTS, resends, sentAt)
    && WrongCodes(run, 0) == wrong
  }

  lemma {:induction false} GuessMore(run: seq<Request>, resends: nat, sentAt: int, wrong: nat, n: nat)
    requires OpenWith(run, resends, 0, sentAt, wrong) && n < MAX_ATTEMPTS
    ensures OpenWith(run + Guesses(n, sentAt), resends, n, sentAt, wrong + n)
  {
    if n == 0 {
      assert run + Guesses(0, sentAt) == run;
    } else {
      GuessMore(run, resends, sentAt, wrong, n - 1);
      var before, after := run + Guesses(n - 1, sentAt), run + Guesses(n, sentAt);
      assert after == before + [WrongGuess(sentAt)];
      assert after[..|after| - 1] == before;
    }
  }

  lemma ResendMore(run: seq<Request>, resends: nat, sentAt: int, wrong: nat) returns (longer: seq<Request>)
    requires OpenWith(run, resends, 0, sentAt, wrong) && resends < MAX_RESENDS
    ensures OpenWith(longer, resends + 1, 0, sentAt + COOLDOWN_MS, wrong + MAX_ATTEMPTS - 1)
  {
    GuessMore(run, resends, sentAt, wrong, MAX_ATTEMPTS - 1);
    var before := run + Guesses(MAX_ATTEMPTS - 1, sentAt);
    longer := before + [Resend(0, "yes", sentAt + COOLDOWN_MS)];
    assert longer[..|longer| - 1] == before;
  }

  /** Four wrong codes before each of three resends and five after: 17 can happen. */
  lemma CodeBudgetIsTight() returns (run: seq<Request>)
    ensures WrongCodes(run, 0) == 17
  {
    run := [Issue(0, "sign_in", "yes", 0)];
    assert run[..0] == [];
    assert OpenWith(run, 0, 0, 0, 0);
    run := ResendMore(run, 0, 0, 0);
    run := ResendMore(run, 1, COOLDOWN_MS, 4);
    run := ResendMore(run, 2, 2 * COOLDOWN_MS, 8);
    GuessMore(run, 3, 3 * COOLDOWN_MS, 12, 4);
    var before := run + Guesses(4, 3 * COOLDOWN_MS);
    run := before + [WrongGuess(3 * COOLDOWN_MS)];
    assert run[..|run| - 1] == before;
  }

  // ---------------------------------------------------------------------------
  // What an accepted code is
  // ---------------------------------------------------------------------------

  /** Whether an answer means that a code was mailed for challenge `id`. */
  predicate Mails(q: Request, a: Answer, id: nat) {
    (a.Issued? && a.id == id) || (a.Resent? && q.Resend? && q.id == id)
  }

  /** A row changes its code exactly when one is mailed. */
  lemma CodeChangesWithMail(db: Db, q: Request, id: nat)
    requires forall i :: i in db.rows ==> i < db.next
    ensures var (after, a) := Reply(db, q);
      && (id in after.rows <==> id in db.rows || Mails(q, a, id))
      && (Mails(q, a, id) ==> !q.Consume? && after.rows[id].code == q.code && after.rows[id].lastSentAt == q.now)
      && (!Mails(q, a, id) && id in db.rows ==>
            after.rows[id].code == db.rows[id].code && after.rows[id].lastSentAt == db.rows[id].lastSentAt)
  {
  }

  lemma {:induction false} RowHoldsLastMail(run: seq<Request>, id: nat)
    ensures id in After(run).rows <==> LastMail(run, id).Some?
    ensures id in After(run).rows ==>
      LastMail(run, id) == Some(Mail(After(run).rows[id].code, After(run).rows[id].lastSentAt))
    decreases |run|
  {
    if run != [] {
      var before := run[..|run| - 1];
      RowHoldsLastMail(before, id);
      RunKeepsInv(before);
      CodeChangesWithMail(After(before), run[|run| - 1], id);
    }
  }

  /**
   * A code is accepted only if it is the one mailed last for that challenge, less
   * than ten minutes ago.
   */
  lemma AcceptedCodeIsTheLatest(run: seq<Request>, i: nat)
    requires i < |run| && AnswerAt(run, i).Ok?
    ensures run[i].Consume?
    ensures var m := LastMail(run[..i], run[i].id);
      m.Some? && m.value.code == run[i].code && run[i].now < m.value.at + TTL_MS
  {
    RowHoldsLastMail(run[..i], run[i].id);
    RunKeepsInv(run[..i]);
  }

  /** The request by which challenge `id` was issued. */
  function IssueOf(run: seq<Request>, id: nat): Option<Request>
    decreases |run|
  {
    if run == [] then None
    else if AnswerAt(run, |run| - 1) == Issued(id) then Some(run[|run| - 1])
    else IssueOf(run[..|run| - 1], id)
  }

  /** How many wrong codes challenge `id` was shown since a code was mailed last. */
  function WrongSince(run: seq<Request>, id: nat): nat
    decreases |run|
  {
    if run == [] then 0
    else
      var n := |run| - 1;
      if Mails(run[n], AnswerAt(run, n), id) then 0
      else WrongSince(run[..n], id) + if WrongAt(run, n, id) then 1 else 0
  }

  /** How often a new code was mailed for challenge `id`. */
  function Resends(run: seq<Request>, id: nat): nat
    decreases |run|
  {
    if run == [] then 0
    else
      var n := |run| - 1;
      Resends(run[..n], id) + if run[n].Resend? && run[n].id == id && AnswerAt(run, n).Resent? then 1 else 0
  }

  predicate SameMatter(q: Request, issued: Option<Request>) {
    q.Issue? && issued.Some? && issued.value.Issue?
    && q.userId == issued.value.userId && q.purpose == issued.value.purpose
  }

  /**
   * The challenge was issued, and since then has not been accepted, not been shown a fifth
   * wrong code in a row, and not made way for another of the same user and purpose.
   */
  predicate StandsOpen(run: seq<Request>, id: nat)
    decreases |run|
  {
    if run == [] then false
    else
      var n := |run| - 1;
      var before, q, a := run[..n], run[n], AnswerAt(run, n);
      if a == Issued(id) then true
      else
        && StandsOpen(before, id) && !SameMatter(q, IssueOf(before, id))
        && !(q.Consume? && q.id == id && a.Ok?)
        && !(WrongAt(run, n, id) && WrongSince(before, id) == 4)
  }

  /** What one call does to what is known of challenge `id`. */
  lemma ReplyTells(db: Db, q: Request, id: nat)
    requires Inv(db)
    ensures var (after, a) := Reply(db, q);
      && (a == Issued(id) ==>
            && q.Issue? && id !in db.rows && id in after.rows
            && after.rows[id].userId == q.userId && after.rows[id].purpose == q.purpose
            && after.rows[id].consumedAt.None? && after.rows[id].resendCount == 0 && after.rows[id].attempts == 0)
      && (a != Issued(id) && id !in db.rows ==> id !in after.rows)
      && (a != Issued(id) && id in db.rows ==>
            var r := db.rows[id];
            && id in after.rows && after.rows[id].userId == r.userId && after.rows[id].purpose == r.purpose
            && after.rows[id].resendCount
                 == r.resendCount + (if q.Resend? && q.id == id && a.Resent? then 1 else 0)
            && after.rows[id].attempts
                 == (if q.Resend? && q.id == id && a.Resent? then 0
                     else r.attempts + if q.Consume? && q.id == id && a.InvalidCode? then 1 else 0))
  {
  }

  lemma ReplyConsumes(db: Db, q: Request, id: nat)
    requires Inv(db) && id in db.rows && Reply(db, q).1 != Issued(id)
    ensures var (after, a), r := Reply(db, q), db.rows[id];
      && id in after.rows
      && (after.rows[id].consumedAt.None? <==>
            && r.consumedAt.None?
            && !(q.Issue? && q.userId == r.userId && q.purpose == r.purpose)
            && !(q.Consume? && q.id == id && a.Ok?)
            && !(q.Consume? && q.id == id && a.InvalidCode? && r.attempts == 4))
  {
  }

  /** The row of a challenge holds what its run tells of it. */
  lemma {:induction false} RowTells(run: seq<Request>, id: nat)
    ensures id in After(run).rows <==> IssueOf(run, id).Some?
    ensures id in After(run).rows ==>
      var r, q := After(run).rows[id], IssueOf(run, id).value;
      && q.Issue? && r.userId == q.userId && r.purpose == q.purpose
      && r.resendCount == Resends(run, id) && r.attempts == WrongSince(run, id)
      && (r.consumedAt.None? <==> StandsOpen(run, id))
    ensures id !in After(run).rows ==> Resends(run, id) == 0 && WrongSince(run, id) == 0 && !StandsOpen(run, id)
    decreases |run|
  {
    if run != [] {
      var n := |run| - 1;
      var before := run[..n];
      RowTells(before, id);
      RunKeepsInv(before);
      ReplyTells(After(before), run[n], id);
      if id in After(before).rows && AnswerAt(run, n) != Issued(id) {
        ReplyConsumes(After(before), run[n], id);
      }
    }
  }

  /** The challenge is open, was issued for this purpose, and was mailed its code less than ten minutes ago. */
  predicate Presentable(run: seq<Request>, q: Request) {
    q.Consume? &&
    var issued, mail := IssueOf(run, q.id), LastMail(run, q.id);
    && issued.Some? && issued.value.Issue? && issued.value.purpose == q.purpose
    && StandsOpen(run, q.id) && mail.Some? && q.now < mail.value.at + 600_000
  }

  /**
   * In every run, a code is accepted if and only if its challenge was issued for exactly
   * the purpose given, still stands open, and the code is the one mailed last, less than
   * ten minutes before; a presentable code that is another one is wrong.
   */
  lemma AcceptedIff(run: seq<Request>, i: nat)
    requires i < |run|
    ensures AnswerAt(run, i).Ok? <==>
      Presentable(run[..i], run[i]) && LastMail(run[..i], run[i].id).value.code == run[i].code
    ensures AnswerAt(run, i).InvalidCode? <==>
      Presentable(run[..i], run[i]) && LastMail(run[..i], run[i].id).value.code != run[i].code
  {
    if run[i].Consume? {
      RowTells(run[..i], run[i].id);
      RowHoldsLastMail(run[..i], run[i].id);
      RunKeepsInv(run[..i]);
      ConsumeAnswers(After(run[..i]), run[i]);
    }
  }

  lemma ConsumeAnswers(db: Db, q: Request)
    requires Inv(db) && q.Consume?
    ensures var a := Reply(db, q).1;
      && (a.Ok? <==>
            && q.id in db.rows && db.rows[q.id].purpose == q.purpose && db.rows[q.id].consumedAt.None?
            && q.now < db.rows[q.id].lastSentAt + 600_000 && db.rows[q.id].code == q.code)
      && (a.InvalidCode? <==>
            && q.id in db.rows && db.rows[q.id].purpose == q.purpose && db.rows[q.id].consumedAt.None?
            && q.now < db.rows[q.id].lastSentAt + 600_000 && db.rows[q.id].code != q.code)
  {
  }

  /**
   * A new code is mailed if and only if the challenge stands open, the last mail is a
   * minute old, and it was mailed again less than three times.
   */
  lemma ResentIff(run: seq<Request>, i: nat)
    requires i < |run|
    ensures AnswerAt(run, i).Resent? <==>
      && run[i].Resend? && StandsOpen(run[..i], run[i].id)
      && LastMail(run[..i], run[i].id).Some? && LastMail(run[..i], run[i].id).value.at + 60_000 <= run[i].now
      && Resends(run[..i], run[i].id) < 3
  {
    if run[i].Resend? {
      RowTells(run[..i], run[i].id);
      RowHoldsLastMail(run[..i], run[i].id);
    }
  }

  ghost predicate Consumed(db: Db, id: nat) {
    id in db.rows && db.rows[id].consumedAt.Some?
  }

  lemma ConsumedStays(db: Db, q: Request, id: nat)
    requires Inv(db) && Consumed(db, id)
    ensures Consumed(Reply(db, q).0, id)
    ensures q.Consume? && q.id == id ==> Reply(db, q).1 in {NotFound, AlreadyUsed}
  {
  }

  /** A consumed challenge stays consumed, and shows no further code right or wrong. */
  lemma {:induction false} ConsumedForGood(run: seq<Request>, i: nat, id: nat)
    requires i <= |run| && Consumed(After(run[..i]), id)
    ensures Consumed(After(run), id) && WrongCodes(run, id) == WrongCodes(run[..i], id)
    decreases |run|
  {
    if i == |run| {
      assert run[..i] == run;
    } else {
      var before := run[..|run| - 1];
      assert before[..i] == run[..i];
      ConsumedForGood(before, i, id);
      RunKeepsInv(before);
      ConsumedStays(After(before), run[|run| - 1], id);
    }
  }

  /** A challenge is accepted at most once, however often it is resent or retried. */
  lemma AcceptedOnce(run: seq<Request>, i: nat, j: nat)
    requires i < j < |run| && AnswerAt(run, i).Ok? && AnswerAt(run, j).Ok?
    ensures run[i].id != run[j].id
  {
    var before := run[..j];
    assert before[..i + 1][..i] == run[..i];
    if run[i].id == run[j].id {
      ConsumedForGood(before, i + 1, run[i].id);
      RunKeepsInv(before);
      ConsumedStays(After(before), run[j], run[i].id);
    }
  }

  // ---------------------------------------------------------------------------
  // Interleaved calls
  // ---------------------------------------------------------------------------

  /**
   * Where a call stands between two of its database statements. A claiming call knows the
   * purpose it was made for, and how often the code had been mailed again when it read the
   * row.
   */
  datatype Call =
    | Claiming(id: nat, purpose: string, resends: nat) | Counting(id: nat) | Burning(id: nat)
    | Refreshing(id: nat, code: string)
    | Adding(userId: nat, purpose: string, code: string)

  /** A challenge accepted, and the purpose it was accepted for. */
  datatype Acceptance = Acceptance(id: nat, purpose: string)

  /** `accepted` lists the acceptances in order; `wrong` counts the wrong codes of each challenge. */
  datatype State = State(db: Db, calls: map<nat, Call>, accepted: seq<Acceptance>, wrong: multiset<nat>)

  datatype Step =
    | Supersede(call: nat, userId: nat, purpose: string, code: string, now: int)
    | Insert(call: nat, now: int)
    | ReadResend(call: nat, request: Request)
    | Refresh(call: nat, now: int)
    | Read(call: nat, request: Request)
    | Claim(call: nat, now: int)
    | CountWrong(call: nat)
    | Burn(call: nat, now: int)

  const START := State(EMPTY, map[], [], multiset{})

  predicate Enabled(s: State, step: Step) {
    match step
    case Supersede(c, _, _, _, _) => c !in s.calls
    case Insert(c, _) => c in s.calls && s.calls[c].Adding?
    case ReadResend(c, q) => q.Resend? && c !in s.calls
    case Refresh(c, _) => c in s.calls && s.calls[c].Refreshing? && s.calls[c].id in s.db.rows
    case Read(c, q) => q.Consume? && c !in s.calls
    case Claim(c, _) => c in s.calls && s.calls[c].Claiming? && s.calls[c].id in s.db.rows
    case CountWrong(c) => c in s.calls && s.calls[c].Counting? && s.calls[c].id in s.db.rows
    case Burn(c, _) => c in s.calls && s.calls[c].Burning? && s.calls[c].id in s.db.rows
  }

  function WithRow(s: State, id: nat, r: Row): State {
    s.(db := s.db.(rows := s.db.rows[id := r]))
  }

  function Next(s: State, step: Step): State
    requires Enabled(s, step)
  {
    match step
    case Supersede(c, userId, purpose, code, now) =>
      s.(db := s.db.(rows := Superseded(s.db.rows, userId, purpose, now)),
         calls := s.calls[c := Adding(userId, purpose, code)])
    case Insert(c, now) =>
      var k := s.calls[c];
      s.(db := Db(s.db.rows[s.db.next := NewRow(k.userId, k.purpose, k.code, now)], s.db.next + 1),
         calls := s.calls - {c})
    case ReadResend(c, q) =>
      if Reply(s.db, q).1.Resent? then s.(calls := s.calls[c := Refreshing(q.id, q.code)]) else s
    case Refresh(c, now) =>
      var k := s.calls[c];
      WithRow(s, k.id, Refreshed(s.db.rows[k.id], k.code, now)).(calls := s.calls - {c})
    case Read(c, q) =>
      var answer := Reply(s.db, q).1;
      if answer.Ok? then s.(calls := s.calls[c := Claiming(q.id, q.purpose, s.db.rows[q.id].resendCount)])
      else if answer.InvalidCode? then s.(calls := s.calls[c := Counting(q.id)])
      else s
    case Claim(c, now) =>
      var id := s.calls[c].id;
      var r := s.db.rows[id];
      var t := s.(calls := s.calls - {c});
      if r.consumedAt.Some? then t
      else
        WithRow(t, id, r.(consumedAt := Some(now))).(accepted := s.accepted + [Acceptance(id, s.calls[c].purpose)])
    case CountWrong(c) =>
      var id := s.calls[c].id;
      var r := s.db.rows[id];
      var updated := r.(attempts := r.attempts + 1);
      WithRow(s, id, updated).(
        calls := if updated.attempts >= updated.maxAttempts then s.calls[c := Burning(id)] else s.calls - {c},
        wrong := s.wrong + multiset{id})
    case Burn(c, now) =>
      var id := s.calls[c].id;
      WithRow(s, id, s.db.rows[id].(consumedAt := Some(now))).(calls := s.calls - {c})
  }

  ghost predicate Legal(s: State, steps: seq<Step>)
    decreases |steps|
  {
    steps == [] || (Enabled(s, steps[0]) && Legal(Next(s, steps[0]), steps[1..]))
  }

  ghost function Run(s: State, steps: seq<Step>): State
    requires Legal(s, steps)
    decreases |steps|
  {
    if steps == [] then s else Run(Next(s, steps[0]), steps[1..])
  }

  /** The statements of one call, one after the other. */
  function Serially(s: State, c: nat, q: Request): State
    requires c !in s.calls
  {
    match q
    case Issue(userId, purpose, code, now) =>
      Next(Next(s, Supersede(c, userId, purpose, code, now)), Insert(c, now))
    case Resend(id, code, now) =>
      var read := Next(s, ReadResend(c, q));
      if c in read.calls then Next(read, Refresh(c, now)) else read
    case Consume(id, purpose, code, now) =>
      var read := Next(s, Step.Read(c, q));
      if c !in read.calls then read
      else if read.calls[c].Claiming? then Next(read, Claim(c, now))
      else
        var counted := Next(read, CountWrong(c));
        if c in counted.calls then Next(counted, Burn(c, now)) else counted
  }

  ghost predicate DoesTheCall(s: State, t: State, q: Request) {
    && t.db == Reply(s.db, q).0 && t.calls == s.calls
    && t.accepted == s.accepted + (if q.Consume? && Reply(s.db, q).1.Ok? then [Acceptance(q.id, q.purpose)] else [])
    && t.wrong == s.wrong + if q.Consume? && Reply(s.db, q).1.InvalidCode? then multiset{q.id} else multiset{}
  }

  lemma IssueIsItsStatements(s: State, c: nat, q: Request)
    requires c !in s.calls && q.Issue?
    ensures DoesTheCall(s, Serially(s, c, q), q)
  {
    var t := Next(s, Supersede(c, q.userId, q.purpose, q.code, q.now));
    assert Next(t, Insert(c, q.now)).calls == s.calls;
  }

  lemma ResendIsItsStatements(s: State, c: nat, q: Request)
    requires c !in s.calls && q.Resend?
    ensures DoesTheCall(s, Serially(s, c, q), q)
  {
    assert Serially(s, c, q).calls == s.calls;
  }

  lemma RightCodeIsItsStatements(s: State, c: nat, q: Request)
    requires c !in s.calls && q.Consume? && !Reply(s.db, q).1.InvalidCode?
    ensures DoesTheCall(s, Serially(s, c, q), q)
  {
    assert Serially(s, c, q).calls == s.calls;
  }

  lemma WrongCodeIsItsStatements(s: State, c: nat, q: Request)
    requires c !in s.calls && q.Consume? && Reply(s.db, q).1.InvalidCode?
    ensures DoesTheCall(s, Serially(s, c, q), q)
  {
    var read := s.(calls := s.calls[c := Counting(q.id)]);
    assert Next(s, Step.Read(c, q)) == read;
    var r, counted := s.db.rows[q.id], Next(read, CountWrong(c));
    if r.attempts + 1 >= r.maxAttempts {
      var burnt := Next(counted, Burn(c, q.now));
      assert burnt.calls == s.calls;
      assert burnt.db.rows == s.db.rows[q.id := Penalised(r, q.now)];
    } else {
      assert counted.calls == s.calls;
      assert counted.db.rows == s.db.rows[q.id := Penalised(r, q.now)];
    }
  }

  /** With nothing in between, the statements of a call do what the call does, and leave none behind. */
  lemma CallIsItsStatements(s: State, c: nat, q: Request)
    requires c !in s.calls
    ensures DoesTheCall(s, Serially(s, c, q), q)
  {
    match q
    case Issue(_, _, _, _) => IssueIsItsStatements(s, c, q);
    case Resend(_, _, _) => ResendIsItsStatements(s, c, q);
    case Consume(_, _, _, _) =>
      if Reply(s.db, q).1.InvalidCode? {
        WrongCodeIsItsStatements(s, c, q);
      } else {
        RightCodeIsItsStatements(s, c, q);
      }
  }

  ghost predicate AcceptedInv(s: State) {
    && (forall i :: i in s.db.rows ==> i < s.db.next)
    && (forall i :: 0 <= i < |s.accepted| ==>
          s.accepted[i].id in s.db.rows && s.db.rows[s.accepted[i].id].consumedAt.Some?)
    && (forall i, j :: 0 <= i < j < |s.accepted| ==> s.accepted[i].id != s.accepted[j].id)
  }

  lemma StepKeepsAcceptedInv(s: State, step: Step)
    requires AcceptedInv(s) && Enabled(s, step)
    ensures AcceptedInv(Next(s, step))
  {
  }

  lemma {:induction false} RunKeepsAcceptedInv(s: State, steps: seq<Step>)
    requires AcceptedInv(s) && Legal(s, steps)
    ensures AcceptedInv(Run(s, steps))
    decreases |steps|
  {
    if steps != [] {
      StepKeepsAcceptedInv(s, steps[0]);
      RunKeepsAcceptedInv(Next(s, steps[0]), steps[1..]);
    }
  }

  /** However the statements of all calls interleave, no challenge is accepted twice. */
  lemma AtMostOneWinner(steps: seq<Step>, i: nat, j: nat)
    requires Legal(START, steps) && i < j < |Run(START, steps).accepted|
    ensures Run(START, steps).accepted[i].id != Run(START, steps).accepted[j].id
  {
    RunKeepsAcceptedInv(START, steps);
  }

  // ---------------------------------------------------------------------------
  // What a challenge was issued for
  // ---------------------------------------------------------------------------

  /** What the challenges were issued for: their subjects in the order of the insertions. */
  ghost function Subjects(s: State, steps: seq<Step>): seq<(nat, string)>
    requires Legal(s, steps)
    decreases |steps|
  {
    if steps == [] then []
    else
      (if steps[0].Insert? then [(s.calls[steps[0].call].userId, s.calls[steps[0].call].purpose)] else [])
      + Subjects(Next(s, steps[0]), steps[1..])
  }

  /** A row, a claim and an acceptance go by the purpose that the challenge was issued for. */
  ghost predicate PurposeInv(s: State, subjects: seq<(nat, string)>) {
    && s.db.next == |subjects|
    && (forall i :: i in s.db.rows ==> i < |subjects| && (s.db.rows[i].userId, s.db.rows[i].purpose) == subjects[i])
    && (forall c :: c in s.calls && s.calls[c].Claiming? ==>
          s.calls[c].id < |subjects| && s.calls[c].purpose == subjects[s.calls[c].id].1)
    && (forall i :: 0 <= i < |s.accepted| ==>
          s.accepted[i].id < |subjects| && s.accepted[i].purpose == subjects[s.accepted[i].id].1)
  }

  lemma StepKeepsPurpose(s: State, step: Step, subjects: seq<(nat, string)>)
    requires PurposeInv(s, subjects) && Enabled(s, step)
    ensures PurposeInv(Next(s, step),
      subjects + if step.Insert? then [(s.calls[step.call].userId, s.calls[step.call].purpose)] else [])
  {
    if step.Read? && Reply(s.db, step.request).1.Ok? {
      OkIsForPurpose(s.db, step.request);
    }
  }

  lemma OkIsForPurpose(db: Db, q: Request)
    requires q.Consume? && Reply(db, q).1.Ok?
    ensures q.id in db.rows && db.rows[q.id].purpose == q.purpose
  {
  }

  lemma {:induction false} RunKeepsPurpose(s: State, steps: seq<Step>, subjects: seq<(nat, string)>)
    requires PurposeInv(s, subjects) && Legal(s, steps)
    ensures PurposeInv(Run(s, steps), subjects + Subjects(s, steps))
    decreases |steps|
  {
    if steps == [] {
      assert subjects + [] == subjects;
    } else {
      var more := if steps[0].Insert?
        then [(s.calls[steps[0].call].userId, s.calls[steps[0].call].purpose)] else [];
      StepKeepsPurpose(s, steps[0], subjects);
      RunKeepsPurpose(Next(s, steps[0]), steps[1..], subjects + more);
      assert (subjects + more) + Subjects(Next(s, steps[0]), steps[1..]) == subjects + Subjects(s, steps);
    }
  }

  /** However the statements interleave, a challenge is accepted only for the purpose it was issued for. */
  lemma AcceptedForItsPurpose(steps: seq<Step>, i: nat)
    requires Legal(START, steps) && i < |Run(START, steps).accepted|
    ensures var a := Run(START, steps).accepted[i];
      a.id < |Subjects(START, steps)| && a.purpose == Subjects(START, steps)[a.id].1
  {
    RunKeepsPurpose(START, steps, []);
    assert [] + Subjects(START, steps) == Subjects(START, steps);
  }

  // ---------------------------------------------------------------------------
  // Which code a claim accepts
  // ---------------------------------------------------------------------------

  /** How often the code of challenge `id` is replaced along a run. */
  ghost function Refreshes(s: State, steps: seq<Step>, id: nat): nat
    requires Legal(s, steps)
    decreases |steps|
  {
    if steps == [] then 0
    else
      (if steps[0].Refresh? && s.calls[steps[0].call].id == id then 1 else 0)
      + Refreshes(Next(s, steps[0]), steps[1..], id)
  }

  lemma StepMails(s: State, step: Step, id: nat)
    requires AcceptedInv(s) && Enabled(s, step) && id in s.db.rows
    ensures id in Next(s, step).db.rows
    ensures var r, q := s.db.rows[id], Next(s, step).db.rows[id];
      if step.Refresh? && s.calls[step.call].id == id then q.resendCount == r.resendCount + 1
      else q.resendCount == r.resendCount && q.code == r.code
  {
  }

  lemma {:induction false} RunMails(s: State, steps: seq<Step>, id: nat)
    requires AcceptedInv(s) && Legal(s, steps) && id in s.db.rows
    ensures id in Run(s, steps).db.rows
    ensures Run(s, steps).db.rows[id].resendCount == s.db.rows[id].resendCount + Refreshes(s, steps, id)
    ensures Refreshes(s, steps, id) == 0 ==> Run(s, steps).db.rows[id].code == s.db.rows[id].code
    decreases |steps|
  {
    if steps != [] {
      StepKeepsAcceptedInv(s, steps[0]);
      StepMails(s, steps[0], id);
      RunMails(Next(s, steps[0]), steps[1..], id);
    }
  }

  /** The claim that call c is about to make would be accepted. */
  predicate ClaimAccepts(s: State, c: nat, now: int)
    requires Enabled(s, Claim(c, now))
  {
    Next(s, Claim(c, now)).accepted == s.accepted + [Acceptance(s.calls[c].id, s.calls[c].purpose)]
  }

  /** What call c read as the code is no longer the one mailed last. */
  predicate ReadIsReplaced(s: State, c: nat)
    requires c in s.calls && s.calls[c].Claiming? && s.calls[c].id in s.db.rows
  {
    s.calls[c].resends != s.db.rows[s.calls[c].id].resendCount
  }

  /**
   * A call has just read the right code; anything may happen before it claims. The claim
   * is accepted exactly when the challenge is still unconsumed, and it accepts a code that
   * has been replaced exactly when, on top of that, a resend has replaced it since.
   */
  lemma ClaimedCodeIsLatestIff(s: State, steps: seq<Step>, c: nat, now: int)
    requires AcceptedInv(s) && Legal(s, steps) && c in s.calls && s.calls[c].Claiming?
    requires s.calls[c].id in s.db.rows && s.calls[c].resends == s.db.rows[s.calls[c].id].resendCount
    requires c in Run(s, steps).calls && Run(s, steps).calls[c] == s.calls[c]
    ensures var id, t := s.calls[c].id, Run(s, steps);
      && id in t.db.rows && Enabled(t, Claim(c, now))
      && (ClaimAccepts(t, c, now) <==> t.db.rows[id].consumedAt.None?)
      && (ReadIsReplaced(t, c) <==> Refreshes(s, steps, id) > 0)
      && (ClaimAccepts(t, c, now) && ReadIsReplaced(t, c)
          <==> t.db.rows[id].consumedAt.None? && Refreshes(s, steps, id) > 0)
      && (!ReadIsReplaced(t, c) ==> t.db.rows[id].code == s.db.rows[id].code)
  {
    RunMails(s, steps, s.calls[c].id);
  }

  lemma RunCons(s: State, step: Step, rest: seq<Step>)
    requires Enabled(s, step) && Legal(Next(s, step), rest)
    ensures Legal(s, [step] + rest) && Run(s, [step] + rest) == Run(Next(s, step), rest)
  {
    assert ([step] + rest)[1..] == rest;
  }

  /** One challenge, mailed once: call 1 reads "old", call 2 mails "new", call 1 claims. */
  function StaleTail(): seq<Step> {
    [Step.Read(1, Consume(0, "sign_in", "old", 60_000))]
      + ([ReadResend(2, Resend(0, "new", 60_000))] + ([Refresh(2, 60_000)] + ([Claim(1, 60_000)] + [])))
  }

  lemma StaleTailClaims(s: State)
    requires s == State(Db(map[0 := NewRow(7, "sign_in", "old", 0)], 1), map[], [], multiset{})
    ensures Legal(s, StaleTail()) && Run(s, StaleTail()).accepted == [Acceptance(0, "sign_in")]
    ensures 0 in Run(s, StaleTail()).db.rows && Run(s, StaleTail()).db.rows[0].code == "new"
  {
    var read, resend := Step.Read(1, Consume(0, "sign_in", "old", 60_000)), ReadResend(2, Resend(0, "new", 60_000));
    var refresh, claim := Refresh(2, 60_000), Claim(1, 60_000);
    var s1 := Next(s, read);
    var s2 := Next(s1, resend);
    assert s2.calls[1] == Claiming(0, "sign_in", 0) && s2.calls[2] == Refreshing(0, "new");
    var s3 := Next(s2, refresh);
    RunCons(s3, claim, []);
    RunCons(s2, refresh, [claim] + []);
    RunCons(s1, resend, [refresh] + ([claim] + []));
    RunCons(s, read, [resend] + ([refresh] + ([claim] + [])));
  }

  /** A run in which a code is accepted after another one has replaced it. */
  lemma StaleCodeIsAccepted() returns (steps: seq<Step>)
    ensures steps == [Supersede(0, 7, "sign_in", "old", 0)] + ([Insert(0, 0)] + StaleTail())
    ensures Legal(START, steps) && Run(START, steps).accepted == [Acceptance(0, "sign_in")]
    ensures 0 in Run(START, steps).db.rows && Run(START, steps).db.rows[0].code == "new"
  {
    var first, second := Supersede(0, 7, "sign_in", "old", 0), Insert(0, 0);
    steps := [first] + ([second] + StaleTail());
    var s1 := Next(START, first);
    var s2 := Next(s1, second);
    assert s2.calls == map[] && s2.db.rows == map[0 := NewRow(7, "sign_in", "old", 0)];
    StaleTailClaims(s2);
    RunCons(s1, second, StaleTail());
    RunCons(START, first, [second] + StaleTail());
  }

  // ---------------------------------------------------------------------------
  // How many wrong codes interleaved calls can show
  // ---------------------------------------------------------------------------

  /** The calls about to count a wrong code, and those about to replace the code. */
  function Counters(s: State, id: nat): set<nat> {
    set c | c in s.calls && s.calls[c] == Counting(id)
  }

  function Refreshers(s: State, id: nat): set<nat> {
    set c | c in s.calls && s.calls[c].Refreshing? && s.calls[c].id == id
  }

  /** Never more than `counters` and `refreshers` of them at a time. */
  ghost predicate AtMost(s: State, steps: seq<Step>, id: nat, counters: nat, refreshers: nat)
    requires Legal(s, steps)
    decreases |steps|
  {
    && |Counters(s, id)| <= counters && |Refreshers(s, id)| <= refreshers
    && (steps == [] || AtMost(Next(s, steps[0]), steps[1..], id, counters, refreshers))
  }

  ghost predicate RowsBelow(s: State) {
    forall i :: i in s.db.rows ==> i < s.db.next && s.db.rows[i].maxAttempts == MAX_ATTEMPTS
  }

  ghost predicate CallsHaveRows(s: State) {
    forall c :: c in s.calls && !s.calls[c].Adding? ==> s.calls[c].id in s.db.rows
  }

  ghost predicate CallsInv(s: State) {
    RowsBelow(s) && CallsHaveRows(s) && forall i :: i in s.wrong ==> i in s.db.rows
  }

  /** Rows are only ever added, so what a call or a counted code names stays there. */
  lemma StepKeepsRows(s: State, step: Step)
    requires RowsBelow(s) && Enabled(s, step)
    ensures RowsBelow(Next(s, step)) && s.db.rows.Keys <= Next(s, step).db.rows.Keys
  {
  }

  lemma StepKeepsCallRows(s: State, step: Step)
    requires CallsHaveRows(s) && Enabled(s, step) && s.db.rows.Keys <= Next(s, step).db.rows.Keys
    ensures CallsHaveRows(Next(s, step))
  {
  }

  lemma StepKeepsCallsInv(s: State, step: Step)
    requires CallsInv(s) && Enabled(s, step)
    ensures CallsInv(Next(s, step))
  {
    StepKeepsRows(s, step);
    StepKeepsCallRows(s, step);
  }

  /** The row of `id` pays for the wrong codes it was shown and for those on their way. */
  ghost predicate Paid(s: State, id: nat, counters: nat, refreshers: nat) {
    id in s.db.rows ==>
      var r := s.db.rows[id];
      && r.attempts + |Counters(s, id)| <= MAX_ATTEMPTS - 1 + counters
      && r.resendCount + |Refreshers(s, id)| <= MAX_RESENDS - 1 + refreshers
      && s.wrong[id] <= (MAX_ATTEMPTS - 1 + counters) * r.resendCount + r.attempts
  }

  lemma OneMorePeriod(a: nat, r: nat)
    ensures a * (r + 1) == a * r + a
  {
  }

  predicate Concerns(k: Call, id: nat) {
    k == Counting(id) || (k.Refreshing? && k.id == id)
  }

  /** Where neither the figures of the row nor the calls that concern it change, it still pays. */
  lemma UnconcernedPays(s: State, t: State, id: nat, counters: nat, refreshers: nat)
    requires Paid(s, id, counters, refreshers) && id in s.db.rows && id in t.db.rows
    requires t.db.rows[id].attempts == s.db.rows[id].attempts
    requires t.db.rows[id].resendCount == s.db.rows[id].resendCount && t.wrong[id] == s.wrong[id]
    requires forall c :: c in s.calls && Concerns(s.calls[c], id) ==> c in t.calls && t.calls[c] == s.calls[c]
    requires forall c :: c in t.calls && Concerns(t.calls[c], id) ==> c in s.calls && t.calls[c] == s.calls[c]
    ensures Paid(t, id, counters, refreshers)
  {
    assert Counters(t, id) == Counters(s, id) && Refreshers(t, id) == Refreshers(s, id);
  }

  lemma RefreshPays(s: State, step: Step, id: nat, counters: nat, refreshers: nat)
    requires Paid(s, id, counters, refreshers) && step.Refresh? && Enabled(s, step)
    requires s.calls[step.call].id == id && |Counters(s, id)| <= counters
    ensures Paid(Next(s, step), id, counters, refreshers)
  {
    var t := Next(s, step);
    OneMorePeriod(MAX_ATTEMPTS - 1 + counters, s.db.rows[id].resendCount);
    assert Counters(t, id) == Counters(s, id);
    assert Refreshers(t, id) == Refreshers(s, id) - {step.call};
  }

  lemma CountPays(s: State, step: Step, id: nat, counters: nat, refreshers: nat)
    requires Paid(s, id, counters, refreshers) && step.CountWrong? && Enabled(s, step)
    requires s.calls[step.call].id == id
    ensures Paid(Next(s, step), id, counters, refreshers)
  {
    var t := Next(s, step);
    assert Counters(t, id) == Counters(s, id) - {step.call};
    assert Refreshers(t, id) == Refreshers(s, id);
  }

  lemma ReadPays(s: State, step: Step, id: nat, counters: nat, refreshers: nat)
    requires CallsInv(s) && Paid(s, id, counters, refreshers) && Enabled(s, step)
    requires step.Read? && step.request.id == id && Reply(s.db, step.request).1.InvalidCode?
    requires |Counters(Next(s, step), id)| <= counters
    ensures Paid(Next(s, step), id, counters, refreshers)
  {
    var t := Next(s, step);
    assert Counters(t, id) == Counters(s, id) + {step.call};
    assert Refreshers(t, id) == Refreshers(s, id);
  }

  lemma ReadResendPays(s: State, step: Step, id: nat, counters: nat, refreshers: nat)
    requires CallsInv(s) && Paid(s, id, counters, refreshers) && Enabled(s, step)
    requires step.ReadResend? && step.request.id == id && Reply(s.db, step.request).1.Resent?
    requires |Refreshers(Next(s, step), id)| <= refreshers
    ensures Paid(Next(s, step), id, counters, refreshers)
  {
    var t := Next(s, step);
    assert Counters(t, id) == Counters(s, id);
    assert Refreshers(t, id) == Refreshers(s, id) + {step.call};
  }

  lemma InsertPays(s: State, step: Step, id: nat, counters: nat, refreshers: nat)
    requires CallsInv(s) && step.Insert? && Enabled(s, step) && id == s.db.next
    ensures Paid(Next(s, step), id, counters, refreshers)
  {
    var t := Next(s, step);
    assert Counters(t, id) == {} && Refreshers(t, id) == {};
    assert id !in s.wrong;
  }

  lemma StepPays(s: State, step: Step, id: nat, counters: nat, refreshers: nat)
    requires CallsInv(s) && Paid(s, id, counters, refreshers) && Enabled(s, step)
    requires |Counters(s, id)| <= counters
    requires |Counters(Next(s, step), id)| <= counters && |Refreshers(Next(s, step), id)| <= refreshers
    ensures Paid(Next(s, step), id, counters, refreshers)
  {
    if step.Insert? && id == s.db.next {
      InsertPays(s, step, id, counters, refreshers);
    } else if step.Refresh? && s.calls[step.call].id == id {
      RefreshPays(s, step, id, counters, refreshers);
    } else if step.CountWrong? && s.calls[step.call].id == id {
      CountPays(s, step, id, counters, refreshers);
    } else if step.Read? && step.request.id == id && Reply(s.db, step.request).1.InvalidCode? {
      ReadPays(s, step, id, counters, refreshers);
    } else if step.ReadResend? && step.request.id == id && Reply(s.db, step.request).1.Resent? {
      ReadResendPays(s, step, id, counters, refreshers);
    } else if id in s.db.rows {
      OtherStepPays(s, step, id, counters, refreshers);
    }
  }

  lemma ElsewherePays(s: State, step: Step, id: nat, counters: nat, refreshers: nat)
    requires CallsInv(s) && Paid(s, id, counters, refreshers) && Enabled(s, step) && id in s.db.rows
    requires (step.Refresh? || step.CountWrong?) && s.calls[step.call].id != id
    ensures Paid(Next(s, step), id, counters, refreshers)
  {
    UnconcernedPays(s, Next(s, step), id, counters, refreshers);
  }

  lemma OtherReadPays(s: State, step: Step, id: nat, counters: nat, refreshers: nat)
    requires Paid(s, id, counters, refreshers) && Enabled(s, step) && id in s.db.rows
    requires step.Read? || step.ReadResend?
    requires step.Read? ==> step.request.id != id || !Reply(s.db, step.request).1.InvalidCode?
    requires step.ReadResend? ==> step.request.id != id || !Reply(s.db, step.request).1.Resent?
    ensures Paid(Next(s, step), id, counters, refreshers)
  {
    UnconcernedPays(s, Next(s, step), id, counters, refreshers);
  }

  lemma AddingPays(s: State, step: Step, id: nat, counters: nat, refreshers: nat)
    requires CallsInv(s) && Paid(s, id, counters, refreshers) && Enabled(s, step) && id in s.db.rows
    requires step.Supersede? || step.Insert?
    ensures Paid(Next(s, step), id, counters, refreshers)
  {
    UnconcernedPays(s, Next(s, step), id, counters, refreshers);
  }

  lemma ConsumingPays(s: State, step: Step, id: nat, counters: nat, refreshers: nat)
    requires Paid(s, id, counters, refreshers) && Enabled(s, step) && id in s.db.rows
    requires step.Claim? || step.Burn?
    ensures Paid(Next(s, step), id, counters, refreshers)
  {
    UnconcernedPays(s, Next(s, step), id, counters, refreshers);
  }

  lemma OtherStepPays(s: State, step: Step, id: nat, counters: nat, refreshers: nat)
    requires CallsInv(s) && Paid(s, id, counters, refreshers) && Enabled(s, step) && id in s.db.rows
    requires step.Refresh? || step.CountWrong? ==> s.calls[step.call].id != id
    requires step.Read? ==> step.request.id != id || !Reply(s.db, step.request).1.InvalidCode?
    requires step.ReadResend? ==> step.request.id != id || !Reply(s.db, step.request).1.Resent?
    ensures Paid(Next(s, step), id, counters, refreshers)
  {
    if step.Refresh? || step.CountWrong? {
      ElsewherePays(s, step, id, counters, refreshers);
    } else if step.Read? || step.ReadResend? {
      OtherReadPays(s, step, id, counters, refreshers);
    } else if step.Supersede? || step.Insert? {
      AddingPays(s, step, id, counters, refreshers);
    } else {
      ConsumingPays(s, step, id, counters, refreshers);
    }
  }

  lemma {:induction false} RunPays(s: State, steps: seq<Step>, id: nat, counters: nat, refreshers: nat)
    requires CallsInv(s) && Paid(s, id, counters, refreshers)
    requires Legal(s, steps) && AtMost(s, steps, id, counters, refreshers)
    ensures CallsInv(Run(s, steps)) && Paid(Run(s, steps), id, counters, refreshers)
    decreases |steps|
  {
    if steps != [] {
      StepKeepsCallsInv(s, steps[0]);
      StepPays(s, steps[0], id, counters, refreshers);
      RunPays(Next(s, steps[0]), steps[1..], id, counters, refreshers);
    }
  }

  /**
   * With at most k calls about to count a wrong code for a challenge and at most m about
   * to replace its code at any one time, it is shown at most (4 + k)(3 + m) wrong codes.
   */
  lemma InterleavedCodeBudget(steps: seq<Step>, id: nat, k: nat, m: nat)
    requires Legal(START, steps) && AtMost(START, steps, id, k, m)
    ensures Run(START, steps).wrong[id] <= (4 + k) * (3 + m)
  {
    RunPays(START, steps, id, k, m);
    var t := Run(START, steps);
    if id !in t.db.rows {
      assert id !in t.wrong;
      MorePeriods(4 + k, 0, 3 + m);
    } else {
      var r := t.db.rows[id];
      OneMorePeriod(4 + k, r.resendCount);
      MorePeriods(4 + k, r.resendCount + 1, 3 + m);
    }
  }

  lemma MorePeriods(a: nat, r: nat, n: nat)
    requires r <= n
    ensures a * r <= a * n
  {
  }

  // ---------------------------------------------------------------------------
  // The budget is reached
  // ---------------------------------------------------------------------------

  ghost predicate Reaches(s: State, steps: seq<Step>, t: State, id: nat, k: nat, m: nat) {
    Legal(s, steps) && AtMost(s, steps, id, k, m) && Run(s, steps) == t
  }

  lemma ReachesStep(s: State, step: Step, id: nat, k: nat, m: nat)
    requires Enabled(s, step) && |Counters(s, id)| <= k && |Refreshers(s, id)| <= m
    requires |Counters(Next(s, step), id)| <= k && |Refreshers(Next(s, step), id)| <= m
    ensures Reaches(s, [step], Next(s, step), id, k, m)
  {
    var t, rest := Next(s, step), [step][1..];
    assert rest == [] && Legal(t, rest) && AtMost(t, rest, id, k, m) && Run(t, rest) == t;
  }

  lemma ReachesRest(s: State, a: seq<Step>, t: State, id: nat, k: nat, m: nat)
    requires Reaches(s, a, t, id, k, m) && a != []
    ensures Enabled(s, a[0]) && Reaches(Next(s, a[0]), a[1..], t, id, k, m)
    ensures |Counters(s, id)| <= k && |Refreshers(s, id)| <= m
  {
  }

  lemma ReachesCons(s: State, step: Step, rest: seq<Step>, t: State, id: nat, k: nat, m: nat)
    requires Enabled(s, step) && Reaches(Next(s, step), rest, t, id, k, m)
    requires |Counters(s, id)| <= k && |Refreshers(s, id)| <= m
    ensures Reaches(s, [step] + rest, t, id, k, m)
  {
    assert ([step] + rest)[1..] == rest;
  }

  lemma {:induction false} ReachesOn(s: State, a: seq<Step>, t: State, b: seq<Step>, u: State, id: nat, k: nat, m: nat)
    requires Reaches(s, a, t, id, k, m) && Reaches(t, b, u, id, k, m)
    ensures Reaches(s, a + b, u, id, k, m)
    decreases |a|
  {
    if a == [] {
      assert a + b == b;
    } else {
      ReachesRest(s, a, t, id, k, m);
      ReachesOn(Next(s, a[0]), a[1..], t, b, u, id, k, m);
      ReachesCons(s, a[0], a[1..] + b, u, id, k, m);
      assert a + b == [a[0]] + (a[1..] + b);
    }
  }

  /** Where an open challenge stands, and how many calls are about to count against it or to replace its code. */
  datatype Tally = Tally(attempts: nat, resends: nat, counters: nat, refreshers: nat, wrong: nat)

  ghost predicate At(s: State, id: nat, x: Tally) {
    && id in s.db.rows && s.wrong[id] == x.wrong
    && |Counters(s, id)| == x.counters && |Refreshers(s, id)| == x.refreshers
    && var r := s.db.rows[id];
      && r.purpose == "sign_in" && r.code == "right" && r.consumedAt.None? && r.maxAttempts == MAX_ATTEMPTS
      && r.expiresAt == r.lastSentAt + TTL_MS && r.attempts == x.attempts && r.resendCount == x.resends
      && forall c :: c in s.calls && s.calls[c].Refreshing? ==> s.calls[c].code == "right"
  }

  lemma {:induction false} Above(a: set<nat>) returns (n: nat)
    ensures forall x :: x in a ==> x < n
  {
    if a == {} {
      n := 0;
    } else {
      var x :| x in a;
      var rest := Above(a - {x});
      n := if rest <= x then x + 1 else rest;
      forall y | y in a ensures y < n {
        assert y == x || y in a - {x};
      }
    }
  }

  /** One more call reads the row and finds its code wrong. */
  lemma ReadWrong(s: State, id: nat, x: Tally, k: nat, m: nat) returns (steps: seq<Step>, t: State)
    requires At(s, id, x) && x.attempts < MAX_ATTEMPTS && x.counters < k && x.refreshers <= m
    ensures Reaches(s, steps, t, id, k, m) && At(t, id, x.(counters := x.counters + 1))
  {
    var c := Above(s.calls.Keys);
    var step := Step.Read(c, Consume(id, "sign_in", "wrong", s.db.rows[id].lastSentAt));
    steps, t := [step], s.(calls := s.calls[c := Counting(id)]);
    WrongIsInvalid(s.db, step.request);
    MoreCount(s, t, id, c);
    ReachesStep(s, step, id, k, m);
  }

  lemma WrongIsInvalid(db: Db, q: Request)
    requires q.Consume? && q.id in db.rows && q.purpose == db.rows[q.id].purpose && q.code != db.rows[q.id].code
    requires var r := db.rows[q.id]; r.consumedAt.None? && q.now < r.expiresAt && r.attempts < r.maxAttempts
    ensures Reply(db, q).1.InvalidCode?
  {
  }

  lemma MoreCount(s: State, t: State, id: nat, c: nat)
    requires c !in s.calls && t.calls == s.calls[c := Counting(id)]
    ensures |Counters(t, id)| == |Counters(s, id)| + 1 && Refreshers(t, id) == Refreshers(s, id)
  {
    assert Counters(t, id) == Counters(s, id) + {c};
  }

  /** One of them counts. Should it be the fifth or later, its burn is put off. */
  lemma CountOne(s: State, id: nat, x: Tally, k: nat, m: nat) returns (steps: seq<Step>, t: State)
    requires At(s, id, x) && 0 < x.counters <= k && x.refreshers <= m
    ensures Reaches(s, steps, t, id, k, m)
    ensures At(t, id, x.(attempts := x.attempts + 1, counters := x.counters - 1, wrong := x.wrong + 1))
  {
    var c :| c in Counters(s, id);
    steps, t := [CountWrong(c)], Next(s, CountWrong(c));
    assert Counters(t, id) == Counters(s, id) - {c} && Refreshers(t, id) == Refreshers(s, id);
    ReachesStep(s, CountWrong(c), id, k, m);
  }

  /** One more call reads that a new code may be mailed. */
  lemma ReadAgain(s: State, id: nat, x: Tally, k: nat, m: nat) returns (steps: seq<Step>, t: State)
    requires At(s, id, x) && x.resends < MAX_RESENDS && x.counters <= k && x.refreshers < m
    ensures Reaches(s, steps, t, id, k, m) && At(t, id, x.(refreshers := x.refreshers + 1))
  {
    var c := Above(s.calls.Keys);
    var step := ReadResend(c, Resend(id, "right", s.db.rows[id].lastSentAt + COOLDOWN_MS));
    steps, t := [step], s.(calls := s.calls[c := Refreshing(id, "right")]);
    AgainIsSent(s.db, step.request);
    MoreRefresh(s, t, id, c, "right");
    ReachesStep(s, step, id, k, m);
  }

  lemma AgainIsSent(db: Db, q: Request)
    requires q.Resend? && q.id in db.rows
    requires var r := db.rows[q.id];
      r.consumedAt.None? && r.lastSentAt + COOLDOWN_MS <= q.now && r.resendCount < MAX_RESENDS
    ensures Reply(db, q).1.Resent?
  {
  }

  lemma MoreRefresh(s: State, t: State, id: nat, c: nat, code: string)
    requires c !in s.calls && t.calls == s.calls[c := Refreshing(id, code)]
    ensures Counters(t, id) == Counters(s, id) && |Refreshers(t, id)| == |Refreshers(s, id)| + 1
  {
    assert Refreshers(t, id) == Refreshers(s, id) + {c};
  }

  /** One of them does replace the code, and restores the attempts. */
  lemma RefreshOne(s: State, id: nat, x: Tally, k: nat, m: nat) returns (steps: seq<Step>, t: State)
    requires At(s, id, x) && x.counters <= k && 0 < x.refreshers <= m
    ensures Reaches(s, steps, t, id, k, m)
    ensures At(t, id, x.(attempts := 0, resends := x.resends + 1, refreshers := x.refreshers - 1))
  {
    var c :| c in Refreshers(s, id);
    var step := Refresh(c, s.db.rows[id].lastSentAt + COOLDOWN_MS);
    steps, t := [step], Next(s, step);
    assert Counters(t, id) == Counters(s, id) && Refreshers(t, id) == Refreshers(s, id) - {c};
    ReachesStep(s, step, id, k, m);
  }

  lemma {:induction false} ReadsWrong(s: State, id: nat, x: Tally, n: nat, k: nat, m: nat)
    returns (steps: seq<Step>, t: State)
    requires At(s, id, x) && x.attempts < MAX_ATTEMPTS && x.counters + n <= k && x.refreshers <= m
    ensures Reaches(s, steps, t, id, k, m) && At(t, id, x.(counters := x.counters + n))
    decreases n
  {
    if n == 0 {
      steps, t := [], s;
    } else {
      var a, u := ReadWrong(s, id, x, k, m);
      var b;
      b, t := ReadsWrong(u, id, x.(counters := x.counters + 1), n - 1, k, m);
      ReachesOn(s, a, u, b, t, id, k, m);
      steps := a + b;
    }
  }

  lemma {:induction false} CountsAll(s: State, id: nat, x: Tally, n: nat, k: nat, m: nat)
    returns (steps: seq<Step>, t: State)
    requires At(s, id, x) && n == x.counters <= k && x.refreshers <= m
    ensures Reaches(s, steps, t, id, k, m)
    ensures At(t, id, x.(attempts := x.attempts + n, counters := 0, wrong := x.wrong + n))
    decreases n
  {
    if n == 0 {
      steps, t := [], s;
    } else {
      var a, u := CountOne(s, id, x, k, m);
      var b;
      b, t := CountsAll(u, id, x.(attempts := x.attempts + 1, counters := x.counters - 1, wrong := x.wrong + 1),
                        n - 1, k, m);
      ReachesOn(s, a, u, b, t, id, k, m);
      steps := a + b;
    }
  }

  /** n calls read and then all of them count. */
  lemma Volley(s: State, id: nat, x: Tally, n: nat, k: nat, m: nat) returns (steps: seq<Step>, t: State)
    requires At(s, id, x) && x.attempts < MAX_ATTEMPTS && x.counters == 0 && n <= k && x.refreshers <= m
    ensures Reaches(s, steps, t, id, k, m)
    ensures At(t, id, x.(attempts := x.attempts + n, wrong := x.wrong + n))
  {
    var a, u := ReadsWrong(s, id, x, n, k, m);
    var b;
    b, t := CountsAll(u, id, x.(counters := n), n, k, m);
    ReachesOn(s, a, u, b, t, id, k, m);
    steps := a + b;
  }

  lemma {:induction false} OneByOne(s: State, id: nat, x: Tally, n: nat, k: nat, m: nat)
    returns (steps: seq<Step>, t: State)
    requires At(s, id, x) && x.attempts + n <= MAX_ATTEMPTS && x.counters == 0 && 1 <= k && x.refreshers <= m
    ensures Reaches(s, steps, t, id, k, m)
    ensures At(t, id, x.(attempts := x.attempts + n, wrong := x.wrong + n))
    decreases n
  {
    if n == 0 {
      steps, t := [], s;
    } else {
      var a, u := Volley(s, id, x, 1, k, m);
      var b;
      b, t := OneByOne(u, id, x.(attempts := x.attempts + 1, wrong := x.wrong + 1), n - 1, k, m);
      ReachesOn(s, a, u, b, t, id, k, m);
      steps := a + b;
    }
  }

  /** While one code is the latest: four wrong ones in turn, then k at once. */
  lemma Period(s: State, id: nat, x: Tally, k: nat, m: nat) returns (steps: seq<Step>, t: State)
    requires At(s, id, x) && x.attempts == 0 && x.counters == 0 && 1 <= k && x.refreshers <= m
    ensures Reaches(s, steps, t, id, k, m) && At(t, id, x.(attempts := 4 + k, wrong := x.wrong + (4 + k)))
  {
    var a, u := OneByOne(s, id, x, 4, k, m);
    var b;
    b, t := Volley(u, id, x.(attempts := 4, wrong := x.wrong + 4), k, k, m);
    ReachesOn(s, a, u, b, t, id, k, m);
    steps := a + b;
  }

  /** A new code by one call on its own, and a period with it. */
  lemma MailedPeriod(s: State, id: nat, x: Tally, k: nat, m: nat) returns (steps: seq<Step>, t: State)
    requires At(s, id, x) && x.counters == x.refreshers == 0 && 1 <= k && 1 <= m && x.resends < MAX_RESENDS
    ensures Reaches(s, steps, t, id, k, m)
    ensures At(t, id, x.(attempts := 4 + k, resends := x.resends + 1, wrong := x.wrong + (4 + k)))
  {
    var a, u := ReadAgain(s, id, x, k, m);
    var b;
    b, t := LatePeriods(u, id, x.(refreshers := 1), 1, k, m);
    ReachesOn(s, a, u, b, t, id, k, m);
    steps := a + b;
    OneMorePeriod(4 + k, 0);
  }

  /** n calls that have read that a new code may be mailed mail it one after the other, each with its period. */
  lemma {:induction false} LatePeriods(s: State, id: nat, x: Tally, n: nat, k: nat, m: nat)
    returns (steps: seq<Step>, t: State)
    requires At(s, id, x) && x.counters == 0 && n == x.refreshers <= m && 1 <= k
    ensures Reaches(s, steps, t, id, k, m)
    ensures n > 0 ==>
      At(t, id, x.(attempts := 4 + k, resends := x.resends + n, refreshers := 0, wrong := x.wrong + (4 + k) * n))
    ensures n == 0 ==> t == s
    decreases n
  {
    if n == 0 {
      steps, t := [], s;
    } else {
      var a, u := RefreshOne(s, id, x, k, m);
      var y := x.(attempts := 0, resends := x.resends + 1, refreshers := x.refreshers - 1);
      var b, v := Period(u, id, y, k, m);
      var z := y.(attempts := 4 + k, wrong := y.wrong + (4 + k));
      var c;
      c, t := LatePeriods(v, id, z, n - 1, k, m);
      ReachesOn(u, b, v, c, t, id, k, m);
      ReachesOn(s, a, u, b + c, t, id, k, m);
      steps := a + (b + c);
      OneMorePeriod(4 + k, n - 1);
    }
  }

  lemma {:induction false} ReadsAgain(s: State, id: nat, x: Tally, n: nat, k: nat, m: nat)
    returns (steps: seq<Step>, t: State)
    requires At(s, id, x) && x.resends < MAX_RESENDS && x.counters <= k && x.refreshers + n <= m
    ensures Reaches(s, steps, t, id, k, m) && At(t, id, x.(refreshers := x.refreshers + n))
    decreases n
  {
    if n == 0 {
      steps, t := [], s;
    } else {
      var a, u := ReadAgain(s, id, x, k, m);
      var b;
      b, t := ReadsAgain(u, id, x.(refreshers := x.refreshers + 1), n - 1, k, m);
      ReachesOn(s, a, u, b, t, id, k, m);
      steps := a + b;
    }
  }

  /** m calls read, before any mails, that a new code may be mailed. */
  lemma LastPeriods(s: State, id: nat, x: Tally, k: nat, m: nat) returns (steps: seq<Step>, t: State)
    requires At(s, id, x) && x.counters == x.refreshers == 0 && 1 <= k && 1 <= m && x.resends < MAX_RESENDS
    ensures Reaches(s, steps, t, id, k, m) && t.wrong[id] == x.wrong + (4 + k) * m
  {
    var a, u := ReadsAgain(s, id, x, m, k, m);
    var b;
    b, t := LatePeriods(u, id, x.(refreshers := m), m, k, m);
    ReachesOn(s, a, u, b, t, id, k, m);
    steps := a + b;
  }

  lemma FirstMail(k: nat, m: nat) returns (steps: seq<Step>, t: State)
    ensures Reaches(START, steps, t, 0, k, m) && At(t, 0, Tally(0, 0, 0, 0, 0))
  {
    var first, second := Supersede(0, 7, "sign_in", "right", 0), Insert(0, 0);
    var u := Next(START, first);
    t := Next(u, second);
    assert Counters(START, 0) == Counters(u, 0) == Counters(t, 0) == {};
    assert Refreshers(START, 0) == Refreshers(u, 0) == Refreshers(t, 0) == {};
    ReachesStep(START, first, 0, k, m);
    ReachesStep(u, second, 0, k, m);
    ReachesOn(START, [first], u, [second], t, 0, k, m);
    steps := [first] + [second];
  }

  /** Three periods with the burns put off: the first code and two that were mailed again. */
  lemma ThreePeriods(k: nat, m: nat) returns (steps: seq<Step>, t: State)
    requires 1 <= k && 1 <= m
    ensures Reaches(START, steps, t, 0, k, m) && At(t, 0, Tally(4 + k, 2, 0, 0, (4 + k) * 3))
  {
    var a, u := FirstMail(k, m);
    var b, v := Period(u, 0, Tally(0, 0, 0, 0, 0), k, m);
    ReachesOn(START, a, u, b, v, 0, k, m);
    var c, w := MailedPeriod(v, 0, Tally(4 + k, 0, 0, 0, 4 + k), k, m);
    ReachesOn(START, a + b, v, c, w, 0, k, m);
    var d;
    d, t := MailedPeriod(w, 0, Tally(4 + k, 1, 0, 0, (4 + k) + (4 + k)), k, m);
    ReachesOn(START, a + b + c, w, d, t, 0, k, m);
    steps := a + b + c + d;
  }

  /** Wherever calls may overlap at all, a run that shows a challenge as many wrong codes as the budget. */
  lemma InterleavedCodeBudgetIsTight(k: nat, m: nat) returns (steps: seq<Step>)
    requires 1 <= k && 1 <= m
    ensures Legal(START, steps) && AtMost(START, steps, 0, k, m)
    ensures Run(START, steps).wrong[0] == (4 + k) * (3 + m)
  {
    var a, u := ThreePeriods(k, m);
    var b, t := LastPeriods(u, 0, Tally(4 + k, 2, 0, 0, (4 + k) * 3), k, m);
    ReachesOn(START, a, u, b, t, 0, k, m);
    steps := a + b;
    Distributes(4 + k, 3, m);
  }

  lemma Distributes(a: nat, b: nat, c: nat)
    ensures a * b + a * c == a * (b + c)
  {
  }
}
