// The shared tables and their atomic statements, and what folding a whole list of events through
// them does to every row.
module Tables {
  import opened Prelude
  import opened Sums
  import opened Events
  import opened MoneyFold

  type Wallet = nat

  datatype Row = Row(chainId: nat, money: Money, isPublic: bool, createdAt: int, asker: Wallet, answerer: Wallet)

  datatype Answer = Answer(body: string, revealedAt: Option<int>)

  type Rows = map<Uuid, Row>

  type Answers = map<Uuid, Answer>

  datatype Db = Db(rows: Rows, answers: Answers)

  datatype Config = Config(chainId: nat, startBlock: nat, confirmations: nat, getLogsRange: nat, maxBlocksPerRun: nat)

  datatype Failure = UniqueViolation

  // ---------------------------------------------------------------- statements

  // The unique index on (chain_id, onchain_id): some other row already carries this id.
  predicate Taken(rows: Rows, chainId: nat, onchainId: nat, u: Uuid) {
    exists v :: v in rows && v != u && rows[v].chainId == chainId && rows[v].money.onchainId == Some(onchainId)
  }

  // The WHERE clause of the guarded update: the row of the event's ref, on this chain, in the
  // status the event requires.
  predicate Matches(rows: Rows, cfg: Config, e: EscrowEvent) {
    && e.key.Some? && e.key.value in rows
    && rows[e.key.value].chainId == cfg.chainId
    && Fires(rows[e.key.value].money, e)
  }

  function CasQuestion(rows: Rows, cfg: Config, e: EscrowEvent): Result<Rows, Failure> {
    if !Matches(rows, cfg, e) then Ok(rows)
    else
      var u := e.key.value;
      if IsAsk(e) && Taken(rows, cfg.chainId, e.onchainId, u) then Err(UniqueViolation)
      else Ok(rows[u := rows[u].(money := ApplyMoney(rows[u].money, e))])
  }

  function RevealAnswer(answers: Answers, u: Uuid, now: int): Answers {
    if u in answers && answers[u].revealedAt.None? then answers[u := answers[u].(revealedAt := Some(now))] else answers
  }

  // The reveal follows a fired answer event only.
  predicate Reveals(rows: Rows, cfg: Config, e: EscrowEvent) {
    Matches(rows, cfg, e) && e.name == QuestionAnswered
  }

  function ApplyEvent(db: Db, cfg: Config, e: EscrowEvent, now: int): Result<Db, Failure> {
    match CasQuestion(db.rows, cfg, e)
    case Err(f) => Err(f)
    case Ok(rows) =>
      Ok(Db(rows, if Reveals(db.rows, cfg, e) then RevealAnswer(db.answers, e.key.value, now) else db.answers))
  }

  function SaveCursor(cursor: Option<nat>, block: nat): nat {
    if cursor.Some? then Max(cursor.value, block) else block
  }

  function CursorBlock(cursor: Option<nat>, cfg: Config): nat {
    if cursor.Some? then cursor.value else cfg.startBlock
  }

  // Concurrent saves of the cursor may come in any order: the furthest block wins, and it never moves back.
  lemma SavesCommute(cursor: Option<nat>, cfg: Config, a: nat, b: nat)
    ensures SaveCursor(Some(SaveCursor(cursor, a)), b) == SaveCursor(Some(SaveCursor(cursor, b)), a)
    ensures SaveCursor(None, a) == a && SaveCursor(Some(a), b) == (if a < b then b else a)
    ensures CursorBlock(None, cfg) == cfg.startBlock && CursorBlock(Some(a), cfg) == a
    ensures CursorBlock(Some(SaveCursor(cursor, a)), cfg) >= a
    ensures cursor.Some? ==> CursorBlock(Some(SaveCursor(cursor, a)), cfg) >= CursorBlock(cursor, cfg)
  {
  }

  // Revealing again never moves a reveal time.
  lemma RevealIsOnce(answers: Answers, u: Uuid, now: int, later: int)
    ensures RevealAnswer(RevealAnswer(answers, u, now), u, later) == RevealAnswer(answers, u, now)
    ensures forall v :: v in answers && (v != u || answers[v].revealedAt.Some?)
                        ==> v in RevealAnswer(answers, u, now) && RevealAnswer(answers, u, now)[v] == answers[v]
  {
  }

  // A reveal sets exactly a null reveal time of an existing answer, and sets it to now.
  lemma RevealSetsNow(answers: Answers, u: Uuid, now: int)
    ensures RevealAnswer(answers, u, now).Keys == answers.Keys
    ensures u in answers ==> RevealAnswer(answers, u, now)[u]
                             == Answer(answers[u].body, Some(if answers[u].revealedAt.Some?
                                                             then answers[u].revealedAt.value
                                                             else now))
  {
  }

  // An event finds its row by ref and chain, in the one status it may move on from.
  predicate Awaits(rows: Rows, cfg: Config, e: EscrowEvent) {
    && e.key.Some? && e.key.value in rows && rows[e.key.value].chainId == cfg.chainId
    && rows[e.key.value].money.status == if e.name == QuestionAsked then PendingPayment else Open
  }

  // The money columns after the event: an ask writes the terms, a settle only the status it tells.
  function MoneyAfter(m: Money, e: EscrowEvent): Money {
    match e.name
    case QuestionAsked => Money(Open, Some(e.onchainId), Some(e.amount), Some(e.deadline))
    case QuestionAnswered => Money(Answered, m.onchainId, m.amount, m.deadline)
    case QuestionDeclined => Money(Declined, m.onchainId, m.amount, m.deadline)
    case QuestionCancelled => Money(Cancelled, m.onchainId, m.amount, m.deadline)
    case QuestionReclaimed => Money(Reclaimed, m.onchainId, m.amount, m.deadline)
  }

  // The guarded update changes the money columns of the one row that awaits the event, or nothing; it
  // fails exactly when another row of the chain already carries the id it would write.
  lemma UpdateLeaves(rows: Rows, cfg: Config, e: EscrowEvent)
    ensures var r := CasQuestion(rows, cfg, e);
            if !Awaits(rows, cfg, e) then r == Ok(rows) && !Matches(rows, cfg, e)
            else
              var u := e.key.value;
              && Matches(rows, cfg, e)
              && (r.Err? <==> e.name == QuestionAsked
                              && exists v :: v in rows && v != u && rows[v].chainId == cfg.chainId
                                             && rows[v].money.onchainId == Some(e.onchainId))
              && (r.Ok? ==>
                    && r.value.Keys == rows.Keys && r.value[u] == rows[u].(money := MoneyAfter(rows[u].money, e))
                    && forall v :: v in rows && v != u ==> r.value[v] == rows[v])
  {
  }

  predicate SameId(a: Row, b: Row) {
    a.chainId == b.chainId && a.money.onchainId.Some? && a.money.onchainId == b.money.onchainId
  }

  // No two rows of a chain carry the same id.
  ghost predicate IdsAreUnique(rows: Rows) {
    forall v, w :: v in rows && w in rows && SameId(rows[v], rows[w]) ==> v == w
  }

  // What the unique index is for.
  lemma UpdateKeepsIdsUnique(rows: Rows, cfg: Config, e: EscrowEvent)
    requires IdsAreUnique(rows) && CasQuestion(rows, cfg, e).Ok?
    ensures IdsAreUnique(CasQuestion(rows, cfg, e).value)
  {
    UpdateLeaves(rows, cfg, e);
  }

  // ---------------------------------------------------------------- a list of events

  datatype Folded = Folded(db: Db, applied: nat)

  function FoldDb(db: Db, cfg: Config, log: seq<EscrowEvent>, now: int): Result<Folded, Failure> {
    if |log| == 0 then Ok(Folded(db, 0))
    else
      match FoldDb(db, cfg, log[..|log| - 1], now)
      case Err(f) => Err(f)
      case Ok(before) =>
        match ApplyEvent(before.db, cfg, log[|log| - 1], now)
        case Err(f) => Err(f)
        case Ok(after) =>
          Ok(Folded(after, before.applied + if Matches(before.db.rows, cfg, log[|log| - 1]) then 1 else 0))
  }

  // The same rows, with the money columns of this chain's rows folded one by one.
  function RowsAfter(rows: Rows, cfg: Config, log: seq<EscrowEvent>): Rows {
    map u | u in rows ::
      if rows[u].chainId == cfg.chainId then rows[u].(money := Fold(rows[u].money, u, log)) else rows[u]
  }

  // On-chain ids identify rows: no ask reuses another row's id, nor another ask's under another ref.
  ghost predicate NonColliding(rows: Rows, cfg: Config, log: seq<EscrowEvent>) {
    && (forall v, i :: v in rows && 0 <= i < |log| && rows[v].chainId == cfg.chainId && Reuses(rows[v], log[i])
          ==> log[i].key == Some(v))
    && SameIdSameKey(log)
  }

  ghost predicate SameIdSameKey(log: seq<EscrowEvent>) {
    forall i, j :: 0 <= i < |log| && 0 <= j < |log| && SameAskedId(log[i], log[j]) ==> log[i].key == log[j].key
  }

  predicate SameAskedId(e: EscrowEvent, f: EscrowEvent) {
    IsAsk(e) && IsAsk(f) && e.onchainId == f.onchainId
  }

  predicate Reuses(row: Row, e: EscrowEvent) {
    IsAsk(e) && row.money.onchainId == Some(e.onchainId)
  }

  lemma {:induction false} IdComesFromAsk(m: Money, u: Uuid, log: seq<EscrowEvent>)
    ensures var f := Fold(m, u, log);
            f.onchainId == m.onchainId
            || exists i :: 0 <= i < |log| && IsAskFor(log[i], u) && f.onchainId == Some(log[i].onchainId)
  {
    if |log| > 0 {
      IdComesFromAsk(m, u, log[..|log| - 1]);
      assert forall i :: 0 <= i < |log| - 1 ==> log[..|log| - 1][i] == log[i];
      var e := log[|log| - 1];
      if e.key == Some(u) && IsAsk(e) {
        assert IsAskFor(log[|log| - 1], u);
      }
    }
  }

  // With ids that identify rows the unique index never gets in the way.
  lemma NotTaken(rows: Rows, cfg: Config, log: seq<EscrowEvent>)
    requires |log| > 0 && NonColliding(rows, cfg, log)
    requires IsAsk(log[|log| - 1]) && log[|log| - 1].key.Some?
    ensures var e := log[|log| - 1];
            !Taken(RowsAfter(rows, cfg, log[..|log| - 1]), cfg.chainId, e.onchainId, e.key.value)
  {
    var front, e := log[..|log| - 1], log[|log| - 1];
    forall v | v in rows && v != e.key.value && rows[v].chainId == cfg.chainId
      ensures Fold(rows[v].money, v, front).onchainId != Some(e.onchainId)
    {
      IdComesFromAsk(rows[v].money, v, front);
      if i :| 0 <= i < |front| && IsAskFor(front[i], v)
              && Fold(rows[v].money, v, front).onchainId == Some(front[i].onchainId) {
        assert front[i] == log[i];
      }
    }
  }

  lemma CasIsOneStep(rows: Rows, cfg: Config, front: seq<EscrowEvent>, e: EscrowEvent)
    requires CasQuestion(RowsAfter(rows, cfg, front), cfg, e).Ok?
    ensures CasQuestion(RowsAfter(rows, cfg, front), cfg, e).value == RowsAfter(rows, cfg, front + [e])
  {
    forall u | u in rows
      ensures Fold(rows[u].money, u, front + [e])
           == if e.key == Some(u) then ApplyMoney(Fold(rows[u].money, u, front), e) else Fold(rows[u].money, u, front)
    {
      FoldAppend(rows[u].money, u, front, e);
    }
  }

  lemma FoldOneMore(db: Db, cfg: Config, log: seq<EscrowEvent>, now: int)
    requires |log| > 0 && NonColliding(db.rows, cfg, log) && FoldDb(db, cfg, log[..|log| - 1], now).Ok?
    requires FoldDb(db, cfg, log[..|log| - 1], now).value.db.rows == RowsAfter(db.rows, cfg, log[..|log| - 1])
    ensures FoldDb(db, cfg, log, now).Ok?
    ensures FoldDb(db, cfg, log, now).value.db.rows == RowsAfter(db.rows, cfg, log)
  {
    var front, e := log[..|log| - 1], log[|log| - 1];
    if IsAsk(e) && e.key.Some? {
      NotTaken(db.rows, cfg, log);
    }
    assert front + [e] == log;
    CasIsOneStep(db.rows, cfg, front, e);
  }

  lemma FewerDoNotCollide(rows: Rows, cfg: Config, log: seq<EscrowEvent>)
    requires |log| > 0 && NonColliding(rows, cfg, log)
    ensures NonColliding(rows, cfg, log[..|log| - 1])
  {
    assert forall i :: 0 <= i < |log| - 1 ==> log[..|log| - 1][i] == log[i];
  }

  // Folding a list whose ids identify rows never fails, creates or removes no row, and changes
  // each row's money columns by its own fold and nothing else.
  lemma {:induction false} FoldIsPerRow(db: Db, cfg: Config, log: seq<EscrowEvent>, now: int)
    requires NonColliding(db.rows, cfg, log)
    ensures FoldDb(db, cfg, log, now).Ok?
    ensures FoldDb(db, cfg, log, now).value.db.rows == RowsAfter(db.rows, cfg, log)
  {
    if |log| > 0 {
      FewerDoNotCollide(db.rows, cfg, log);
      FoldIsPerRow(db, cfg, log[..|log| - 1], now);
      FoldOneMore(db, cfg, log, now);
    } else {
      assert RowsAfter(db.rows, cfg, log) == db.rows;
    }
  }

  // ---------------------------------------------------------------- transitions and ranks

  function Ranks(rows: Rows): map<Uuid, nat> {
    map u | u in rows :: Rank(rows[u].money.status)
  }

  ghost function RankTotal(rows: Rows): nat {
    Sum(Ranks(rows))
  }

  // A guarded update that fires raises the total rank by one; otherwise it changes nothing.
  lemma CasRaisesRank(rows: Rows, cfg: Config, e: EscrowEvent)
    requires CasQuestion(rows, cfg, e).Ok?
    ensures RankTotal(CasQuestion(rows, cfg, e).value) == RankTotal(rows) + if Matches(rows, cfg, e) then 1 else 0
  {
    if Matches(rows, cfg, e) {
      var u := e.key.value;
      var after := ApplyMoney(rows[u].money, e);
      assert Ranks(CasQuestion(rows, cfg, e).value) == Ranks(rows)[u := Rank(after.status)];
      SumUpdate(Ranks(rows), u, Rank(after.status));
    }
  }

  // The transitions counted by a fold are the rank it gained.
  lemma {:induction false} AppliedIsRankGained(db: Db, cfg: Config, log: seq<EscrowEvent>, now: int)
    requires FoldDb(db, cfg, log, now).Ok?
    ensures RankTotal(FoldDb(db, cfg, log, now).value.db.rows)
         == RankTotal(db.rows) + FoldDb(db, cfg, log, now).value.applied
  {
    if |log| > 0 {
      AppliedIsRankGained(db, cfg, log[..|log| - 1], now);
      CasRaisesRank(FoldDb(db, cfg, log[..|log| - 1], now).value.db.rows, cfg, log[|log| - 1]);
    }
  }

  // An answer event that fires without interruption leaves the draft, if there is one, revealed: now,
  // unless it was before.
  lemma UninterruptedAnswerReveals(db: Db, cfg: Config, e: EscrowEvent, now: int)
    requires Reveals(db.rows, cfg, e)
    ensures var r := ApplyEvent(db, cfg, e, now);
            && r.Ok? && r.value.rows[e.key.value].money.status == Answered
            && (e.key.value in db.answers ==>
                  r.value.answers[e.key.value].revealedAt
                  == Some(if db.answers[e.key.value].revealedAt.Some? then db.answers[e.key.value].revealedAt.value
                          else now))
  {
  }

  // ---------------------------------------------------------------- composition of folds

  lemma RowsAfterConcat(rows: Rows, cfg: Config, a: seq<EscrowEvent>, b: seq<EscrowEvent>)
    ensures RowsAfter(RowsAfter(rows, cfg, a), cfg, b) == RowsAfter(rows, cfg, a + b)
  {
    forall u | u in rows
      ensures Fold(rows[u].money, u, a + b) == Fold(Fold(rows[u].money, u, a), u, b)
    {
      FoldConcat(rows[u].money, u, a, b);
    }
  }

  lemma {:induction false} FoldDbConcat(db: Db, cfg: Config, a: seq<EscrowEvent>, b: seq<EscrowEvent>, now: int)
    ensures FoldDb(db, cfg, a + b, now)
         == match FoldDb(db, cfg, a, now)
            case Err(f) => Err(f)
            case Ok(x) =>
              (match FoldDb(x.db, cfg, b, now)
               case Err(f) => Err(f)
               case Ok(y) => Ok(Folded(y.db, x.applied + y.applied)))
  {
    if |b| == 0 {
      assert a + b == a;
    } else {
      FoldDbConcat(db, cfg, a, b[..|b| - 1], now);
      assert (a + b)[..|a + b| - 1] == a + b[..|b| - 1];
    }
  }
}
