// The shared database as an object: each method is one atomic statement, or the indexer's two
// statements for one event.
module Store {
  import opened Prelude
  import opened Events
  import opened MoneyFold
  import opened Tables

  // The shared database, changed in place by one atomic statement at a time.
  class Database {
    var rows: Rows
    var answers: Answers
    var cursor: Option<nat>

    constructor (rows: Rows, answers: Answers)
      ensures this.rows == rows && this.answers == answers && cursor == None
    {
      this.rows, this.answers, this.cursor := rows, answers, None;
    }

    function Contents(): Db
      reads this
    {
      Db(rows, answers)
    }

    method LoadCursorBlock(cfg: Config) returns (block: nat)
      ensures block == CursorBlock(cursor, cfg)
    {
      block := if cursor.Some? then cursor.value else cfg.startBlock;
    }

    method SaveCursorBlock(block: nat)
      modifies this`cursor
      ensures cursor == Some(SaveCursor(old(cursor), block))
    {
      if cursor.Some? {
        cursor := Some(Max(cursor.value, block));
      } else {
        cursor := Some(block);
      }
    }

    // The guarded UPDATE on questions; it reports whether a row matched.
    method UpdateQuestion(cfg: Config, e: EscrowEvent) returns (r: Result<bool, Failure>)
      modifies this`rows
      ensures CasQuestion(old(rows), cfg, e).Ok?
              ==> rows == CasQuestion(old(rows), cfg, e).value && r == Ok(Matches(old(rows), cfg, e))
      ensures CasQuestion(old(rows), cfg, e).Err? ==> rows == old(rows) && r == Err(UniqueViolation)
    {
      if !Matches(rows, cfg, e) {
        return Ok(false);
      }
      var u := e.key.value;
      if e.name == QuestionAsked {
        if Taken(rows, cfg.chainId, e.onchainId, u) {
          return Err(UniqueViolation);
        }
        rows := rows[u := rows[u].(money := Money(Open, Some(e.onchainId), Some(e.amount), Some(e.deadline)))];
      } else {
        rows := rows[u := rows[u].(money := rows[u].money.(status := StatusForEvent(e.name)))];
      }
      r := Ok(true);
    }

    method Reveal(u: Uuid, now: int)
      modifies this`answers
      ensures answers == RevealAnswer(old(answers), u, now)
    {
      if u in answers && answers[u].revealedAt == None {
        answers := answers[u := answers[u].(revealedAt := Some(now))];
      }
    }

    method ApplyEvent(cfg: Config, e: EscrowEvent, now: int) returns (r: Result<nat, Failure>)
      modifies this`rows, this`answers
      ensures match Tables.ApplyEvent(old(Contents()), cfg, e, now)
              case Ok(db) => Contents() == db && r == Ok(if Matches(old(rows), cfg, e) then 1 else 0)
              case Err(f) => Contents() == old(Contents()) && r == Err(f)
    {
      if e.key.None? {
        return Ok(0);
      }
      var changed := UpdateQuestion(cfg, e);
      if changed.Err? {
        return Err(changed.error);
      }
      if !changed.value {
        return Ok(0);
      }
      if e.name == QuestionAnswered {
        Reveal(e.key.value, now);
      }
      r := Ok(1);
    }
  }
}
