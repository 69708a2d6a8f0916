// The API's writes to the shared tables: minting a draft, saving an answer, publishing a card.
// Each is a check followed by a write; here they run as one atomic request.
module Api {
  import opened Prelude
  import opened Sums
  import opened Events
  import opened MoneyFold
  import opened Tables
  import opened Store

  datatype ApiError = NotFound | Forbidden | AnswerLocked | NotAnswered | ConstraintFailed

  // The draft a mint inserts: no money column is set and the card is private.
  function Draft(chainId: nat, createdAt: int, asker: Wallet, answerer: Wallet): Row {
    Row(chainId, PENDING, false, createdAt, asker, answerer)
  }

  // Minting adds one unpaid, private draft under a fresh id, of the given parties, chain and time, and
  // touches nothing else.
  method Mint(db: Database, u: Uuid, chainId: nat, createdAt: int, asker: Wallet, answerer: Wallet)
    returns (error: Option<ApiError>)
    modifies db`rows
    ensures error == if u in old(db.rows) then Some(ConstraintFailed) else None
    ensures error.Some? ==> db.rows == old(db.rows)
    ensures error.None? ==>
              && db.rows.Keys == old(db.rows).Keys + {u}
              && db.rows[u].chainId == chainId && db.rows[u].createdAt == createdAt
              && db.rows[u].asker == asker && db.rows[u].answerer == answerer
              && db.rows[u].money == Money(PendingPayment, None, None, None) && !db.rows[u].isPublic
    ensures forall v :: v in old(db.rows) ==> v in db.rows && db.rows[v] == old(db.rows)[v]
    ensures RankTotal(db.rows) == RankTotal(old(db.rows))
  {
    if u in db.rows {
      return Some(ConstraintFailed);
    }
    var before := db.rows;
    db.rows := db.rows[u := Draft(chainId, createdAt, asker, answerer)];
    assert Ranks(db.rows) == Ranks(before)[u := 0];
    SumUpdate(Ranks(before), u, 0);
    error := None;
  }

  function UpsertAnswer(answers: Answers, u: Uuid, body: string): Answers {
    answers[u := if u in answers then answers[u].(body := body) else Answer(body, None)]
  }

  // The checks both answerer routes share: the row exists and the caller is its answerer.
  function AsAnswerer(rows: Rows, u: Uuid, wallet: Wallet): Option<ApiError> {
    if u !in rows then Some(NotFound)
    else if wallet == rows[u].answerer then None
    else if wallet == rows[u].asker then Some(Forbidden)
    else Some(NotFound)
  }

  function CheckSave(rows: Rows, u: Uuid, wallet: Wallet): Option<ApiError> {
    var refused := AsAnswerer(rows, u, wallet);
    if refused.Some? then refused
    else if rows[u].money.status == Answered then Some(AnswerLocked)
    else None
  }

  function CheckPublish(rows: Rows, u: Uuid, wallet: Wallet): Option<ApiError> {
    var refused := AsAnswerer(rows, u, wallet);
    if refused.Some? then refused
    else if rows[u].money.status != Answered then Some(NotAnswered)
    else None
  }

  // Right after a mint the answerer can save an answer, the asker is refused by name, and nobody else
  // learns that the question exists.
  lemma DraftIsAnsweredBy(rows: Rows, u: Uuid, asker: Wallet, answerer: Wallet, wallet: Wallet)
    requires u in rows && rows[u].asker == asker && rows[u].answerer == answerer
    requires rows[u].money.status == PendingPayment
    ensures CheckSave(rows, u, wallet).None? <==> wallet == answerer
    ensures CheckSave(rows, u, wallet) == Some(Forbidden) <==> wallet == asker != answerer
    ensures CheckSave(rows, u, wallet) == Some(NotFound) <==> wallet != asker && wallet != answerer
    ensures CheckPublish(rows, u, wallet).Some?
  {
  }

  // An atomic save never touches revealed_at, and refuses to change the body once answered.
  method SaveAnswer(db: Database, u: Uuid, wallet: Wallet, body: string) returns (error: Option<ApiError>)
    modifies db`answers
    ensures error == CheckSave(db.rows, u, wallet)
    ensures error.None? <==> u in db.rows && wallet == db.rows[u].answerer && db.rows[u].money.status != Answered
    ensures error == Some(NotFound) <==> u !in db.rows || (wallet != db.rows[u].answerer && wallet != db.rows[u].asker)
    ensures error == Some(Forbidden) <==> u in db.rows && wallet == db.rows[u].asker && wallet != db.rows[u].answerer
    ensures error == Some(AnswerLocked)
            <==> u in db.rows && wallet == db.rows[u].answerer && db.rows[u].money.status == Answered
    ensures error.Some? ==> db.answers == old(db.answers)
    ensures error.None? ==>
              && db.answers.Keys == old(db.answers).Keys + {u} && db.answers[u].body == body
              && db.answers[u].revealedAt == (if u in old(db.answers) then old(db.answers)[u].revealedAt else None)
              && forall v :: v in old(db.answers) && v != u ==> db.answers[v] == old(db.answers)[v]
    ensures u in db.rows && db.rows[u].money.status == Answered ==> db.answers == old(db.answers)
  {
    error := CheckSave(db.rows, u, wallet);
    if error.None? {
      db.answers := UpsertAnswer(db.answers, u, body);
    }
  }

  // Publishing makes exactly one row public, and only an answered one.
  method Publish(db: Database, u: Uuid, wallet: Wallet) returns (error: Option<ApiError>)
    modifies db`rows
    ensures error == CheckPublish(old(db.rows), u, wallet)
    ensures error.None?
            <==> u in old(db.rows) && wallet == old(db.rows)[u].answerer && old(db.rows)[u].money.status == Answered
    ensures error == Some(NotFound)
            <==> u !in old(db.rows) || (wallet != old(db.rows)[u].answerer && wallet != old(db.rows)[u].asker)
    ensures error == Some(Forbidden)
            <==> u in old(db.rows) && wallet == old(db.rows)[u].asker && wallet != old(db.rows)[u].answerer
    ensures error == Some(NotAnswered)
            <==> u in old(db.rows) && wallet == old(db.rows)[u].answerer && old(db.rows)[u].money.status != Answered
    ensures error.Some? ==> db.rows == old(db.rows)
    ensures error.None? ==> u in old(db.rows) && db.rows == old(db.rows)[u := old(db.rows)[u].(isPublic := true)]
    ensures (forall v :: v in old(db.rows) && old(db.rows)[v].isPublic ==> old(db.rows)[v].money.status == Answered)
            ==> forall v :: v in db.rows && db.rows[v].isPublic ==> db.rows[v].money.status == Answered
  {
    error := CheckPublish(db.rows, u, wallet);
    if error.None? {
      db.rows := db.rows[u := db.rows[u].(isPublic := true)];
    }
  }
}
