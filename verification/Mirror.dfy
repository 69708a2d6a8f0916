// The composition: the log the escrow's transactions make has the shape the indexer relies on, and
// in every reachable state of the whole system the rows mirror the contract at one point of its run.
module Mirror {
  import opened Prelude
  import opened Events
  import opened MoneyFold
  import opened Chain
  import opened Tables
  import opened System
  import opened SystemSafety
  import opened SystemRuns
  import opened Mining
  import Ref
  import E = EscrowSpec
  import EscrowSafety
  import EscrowChange

  // ---------------------------------------------------------------- what a row should say

  function StatusOrdinal(status: E.Status): nat {
    match status
    case NoStatus => 0
    case Open => 1
    case Answered => 2
    case Declined => 3
    case Cancelled => 4
    case Reclaimed => 5
  }

  // What the shared table says a row should show for a contract status.
  function StatusOf(status: E.Status): Option<QuestionStatus> {
    CONTRACT_STATUS_TO_QUESTION_STATUS[StatusOrdinal(status)]
  }

  // The contract's record of a question, in the row's terms.
  function MoneyOf(q: E.Question, id: nat): Money
    requires q.status != E.NoStatus
  {
    Money(StatusOf(q.status).value, Some(id), Some(q.amount), Some(q.deadline))
  }

  predicate AnswersTo(s: E.State, id: nat, u: Uuid) {
    id in s.questions && KeyOf(E.RefAt(s, id)) == Some(u)
  }

  // The question asked first under the ref of u.
  ghost predicate FirstFor(s: E.State, id: nat, u: Uuid) {
    AnswersTo(s, id, u) && forall j :: AnswersTo(s, j, u) ==> id <= j
  }

  ghost predicate NoneFor(s: E.State, u: Uuid) {
    forall j :: !AnswersTo(s, j, u)
  }

  ghost predicate AllOpen(s: E.State, u: Uuid) {
    forall j :: AnswersTo(s, j, u) ==> s.questions[j].status == E.Open
  }

  predicate IsSettledAs(s: E.State, id: nat, u: Uuid, status: QuestionStatus) {
    AnswersTo(s, id, u) && s.questions[id].status != E.Open && StatusOf(s.questions[id].status) == Some(status)
  }

  // Open while every question under the ref is open, and afterwards the status of a settled one.
  ghost predicate ShowsStatus(s: E.State, u: Uuid, status: QuestionStatus) {
    if AllOpen(s, u) then status == Open else exists j :: IsSettledAs(s, j, u, status)
  }

  predicate ShowsTerms(s: E.State, id: nat, m: Money)
    requires id in s.questions
  {
    m.onchainId == Some(id) && m.amount == Some(s.questions[id].amount) && m.deadline == Some(s.questions[id].deadline)
  }

  // What every row shows of the contract, however often its ref was asked: the terms of the first
  // question asked under it, and open exactly as long as all of them are.
  ghost predicate Mirrors(s: E.State, u: Uuid, m: Money) {
    && (forall id :: FirstFor(s, id, u) ==> ShowsTerms(s, id, m) && ShowsStatus(s, u, m.status))
    && (NoneFor(s, u) ==> m == PENDING)
  }

  lemma {:induction false} FirstExists(s: E.State, u: Uuid, j: nat) returns (id: nat)
    requires AnswersTo(s, j, u)
    ensures FirstFor(s, id, u)
  {
    if k :| 0 <= k < j && AnswersTo(s, k, u) {
      id := FirstExists(s, u, k);
    } else {
      id := j;
    }
  }

  // While the first question is open, its row equals its record exactly when every question under the
  // ref is open. A second ask that settles first takes the row with it.
  lemma OpenRecordIff(s: E.State, u: Uuid, m: Money, id: nat)
    requires Mirrors(s, u, m) && FirstFor(s, id, u) && s.questions[id].status == E.Open
    ensures m == MoneyOf(s.questions[id], id) <==> AllOpen(s, u)
  {
  }

  // ---------------------------------------------------------------- the shape of the log

  // Asks carry ids that the contract has already given out.
  ghost predicate AsksKnown(s: E.State, log: seq<EscrowEvent>) {
    forall i :: 0 <= i < |log| && IsAsk(log[i]) ==> log[i].onchainId < s.nextId
  }

  // Every question on record was seen asked, under its ref's key.
  ghost predicate QuestionsAsked(s: E.State, log: seq<EscrowEvent>) {
    forall id, u :: AnswersTo(s, id, u) ==> Asked(log, u)
  }

  ghost predicate SettlesFollow(log: seq<EscrowEvent>) {
    forall i, u :: 0 <= i < |log| && IsSettleFor(log[i], u) ==> Asked(log[..i], u)
  }

  ghost predicate Exact(s: E.State, log: seq<EscrowEvent>) {
    forall u :: Mirrors(s, u, Fold(PENDING, u, log))
  }

  // The log tells the contract's state: its shape is right and each row's fold is what the row should say.
  ghost predicate Tells(s: E.State, log: seq<EscrowEvent>) {
    AsksKnown(s, log) && AsksAreUnique(log) && QuestionsAsked(s, log) && SettlesFollow(log) && Exact(s, log)
  }

  lemma SettlesFollowNext(log: seq<EscrowEvent>, e: EscrowEvent)
    requires SettlesFollow(log) && forall u :: IsSettleFor(e, u) ==> Asked(log, u)
    ensures SettlesFollow(log + [e])
  {
    var log' := log + [e];
    forall i, u | 0 <= i < |log'| && IsSettleFor(log'[i], u)
      ensures Asked(log'[..i], u)
    {
      if i < |log| {
        assert log'[..i] == log[..i] && log'[i] == log[i];
      } else {
        assert log'[..i] == log;
      }
    }
  }

  lemma AskedNext(log: seq<EscrowEvent>, e: EscrowEvent, u: Uuid)
    requires Asked(log, u) || IsAskFor(e, u)
    ensures Asked(log + [e], u)
  {
    if k :| 0 <= k < |log| && IsAskFor(log[k], u) {
      assert IsAskFor((log + [e])[k], u);
    } else {
      assert IsAskFor((log + [e])[|log|], u);
    }
  }

  lemma AsksUniqueNext(log: seq<EscrowEvent>, e: EscrowEvent)
    requires AsksAreUnique(log)
    requires IsAsk(e) ==> forall i :: 0 <= i < |log| && IsAsk(log[i]) ==> log[i].onchainId != e.onchainId
    ensures AsksAreUnique(log + [e])
  {
  }

  // The questions under the ref of u are the same in both states.
  ghost predicate SameUnder(s: E.State, s': E.State, u: Uuid) {
    && (forall j :: AnswersTo(s', j, u) <==> AnswersTo(s, j, u))
    && (forall j :: AnswersTo(s, j, u) && AnswersTo(s', j, u) ==> s'.questions[j] == s.questions[j])
  }

  lemma StatusCarries(s: E.State, s': E.State, u: Uuid, status: QuestionStatus)
    requires SameUnder(s, s', u) && ShowsStatus(s, u, status)
    ensures ShowsStatus(s', u, status)
  {
    if !AllOpen(s, u) {
      var j :| IsSettledAs(s, j, u, status);
      assert IsSettledAs(s', j, u, status);
    }
  }

  // What does not touch the questions under a ref leaves what its row shows alone.
  lemma MirrorsCarries(s: E.State, s': E.State, u: Uuid, m: Money)
    requires SameUnder(s, s', u) && Mirrors(s, u, m)
    ensures Mirrors(s', u, m)
  {
    forall id | FirstFor(s', id, u)
      ensures ShowsTerms(s', id, m) && ShowsStatus(s', u, m.status)
    {
      assert FirstFor(s, id, u);
      StatusCarries(s, s', u, m.status);
    }
  }

  // ---------------------------------------------------------------- asking

  lemma AskAnswersTo(s: E.State, s': E.State, q: E.Question, ref: E.Bytes32, id: nat, u: Uuid)
    requires EscrowSafety.Shaped(s) && EscrowChange.RecordsAsk(s, s', q, ref)
    ensures AnswersTo(s', id, u) <==> if id == s.nextId then KeyOf(ref) == Some(u) else AnswersTo(s, id, u)
    ensures s.nextId !in s.questions
  {
  }

  // The first ask under a ref opens its row.
  lemma FirstAskShows(s: E.State, s': E.State, q: E.Question, ref: E.Bytes32, u: Uuid, e: EscrowEvent)
    requires EscrowSafety.Shaped(s) && EscrowChange.RecordsAsk(s, s', q, ref) && NoneFor(s, u)
    requires IsAsk(e) && e.onchainId == s.nextId && e.amount == q.amount && e.deadline == q.deadline
    requires forall k :: AnswersTo(s', k, u) <==> k == s.nextId
    ensures Mirrors(s', u, ApplyMoney(PENDING, e))
  {
    assert AnswersTo(s', s.nextId, u);
  }

  lemma AskMirrors(s: E.State, s': E.State, q: E.Question, ref: E.Bytes32, u: Uuid, m: Money, e: EscrowEvent)
    requires EscrowSafety.Shaped(s) && EscrowChange.RecordsAsk(s, s', q, ref) && Mirrors(s, u, m)
    requires IsAsk(e) && e.onchainId == s.nextId && e.amount == q.amount && e.deadline == q.deadline
    ensures Mirrors(s', u, if KeyOf(ref) == Some(u) then ApplyMoney(m, e) else m)
  {
    forall j
      ensures AnswersTo(s', j, u) <==> if j == s.nextId then KeyOf(ref) == Some(u) else AnswersTo(s, j, u)
    {
      AskAnswersTo(s, s', q, ref, j, u);
    }
    AskAnswersTo(s, s', q, ref, s.nextId, u);
    if KeyOf(ref) != Some(u) {
      MirrorsCarries(s, s', u, m);
    } else if j :| AnswersTo(s, j, u) {
      LaterAskIsInert(s, s', q, ref, u, m, e, j);
    } else {
      FirstAskShows(s, s', q, ref, u, e);
    }
  }

  // A ref that was asked before keeps its first question.
  lemma FirstStays(s: E.State, s': E.State, q: E.Question, ref: E.Bytes32, u: Uuid, first: nat, id: nat)
    requires EscrowSafety.Shaped(s) && EscrowChange.RecordsAsk(s, s', q, ref) && FirstFor(s, first, u)
    requires forall k :: AnswersTo(s', k, u) <==> k == s.nextId || AnswersTo(s, k, u)
    requires FirstFor(s', id, u)
    ensures id == first && s'.questions[first] == s.questions[first]
  {
    assert AnswersTo(s', first, u);
  }

  lemma StatusStays(s: E.State, s': E.State, q: E.Question, ref: E.Bytes32, u: Uuid, status: QuestionStatus)
    requires EscrowSafety.Shaped(s) && EscrowChange.RecordsAsk(s, s', q, ref) && ShowsStatus(s, u, status)
    requires forall k :: AnswersTo(s', k, u) <==> k == s.nextId || AnswersTo(s, k, u)
    ensures ShowsStatus(s', u, status)
  {
    if !AllOpen(s, u) {
      var k :| IsSettledAs(s, k, u, status);
      assert IsSettledAs(s', k, u, status);
    }
  }

  lemma AskedIsNotPending(s: E.State, u: Uuid, m: Money, first: nat)
    requires Mirrors(s, u, m) && FirstFor(s, first, u)
    ensures ShowsTerms(s, first, m) && ShowsStatus(s, u, m.status) && m.status != PendingPayment
  {
  }

  // And its row.
  lemma LaterAskIsInert(s: E.State, s': E.State, q: E.Question, ref: E.Bytes32, u: Uuid, m: Money, e: EscrowEvent,
                        j: nat)
    requires EscrowSafety.Shaped(s) && EscrowChange.RecordsAsk(s, s', q, ref) && Mirrors(s, u, m)
    requires IsAsk(e) && AnswersTo(s, j, u)
    requires forall k :: AnswersTo(s', k, u) <==> k == s.nextId || AnswersTo(s, k, u)
    ensures ApplyMoney(m, e) == m && Mirrors(s', u, m)
  {
    var first := FirstExists(s, u, j);
    AskedIsNotPending(s, u, m, first);
    StatusStays(s, s', q, ref, u, m.status);
    LaterAskShows(s, s', q, ref, u, m, first);
  }

  lemma LaterAskShows(s: E.State, s': E.State, q: E.Question, ref: E.Bytes32, u: Uuid, m: Money, first: nat)
    requires EscrowSafety.Shaped(s) && EscrowChange.RecordsAsk(s, s', q, ref)
    requires FirstFor(s, first, u) && ShowsTerms(s, first, m) && ShowsStatus(s', u, m.status)
    requires forall k :: AnswersTo(s', k, u) <==> k == s.nextId || AnswersTo(s, k, u)
    ensures Mirrors(s', u, m)
  {
    forall id | FirstFor(s', id, u)
      ensures ShowsTerms(s', id, m)
    {
      FirstStays(s, s', q, ref, u, first, id);
    }
    assert AnswersTo(s', first, u);
  }

  lemma AskTells(s: E.State, s': E.State, q: E.Question, ref: E.Bytes32, log: seq<EscrowEvent>, e: EscrowEvent)
    requires EscrowSafety.Shaped(s) && EscrowChange.RecordsAsk(s, s', q, ref) && Tells(s, log)
    requires IsAsk(e) && e.key == KeyOf(ref) && e.onchainId == s.nextId
    requires e.amount == q.amount && e.deadline == q.deadline
    ensures Tells(s', log + [e])
  {
    SettlesFollowNext(log, e);
    AsksUniqueNext(log, e);
    forall id, u | AnswersTo(s', id, u)
      ensures Asked(log + [e], u)
    {
      AskAnswersTo(s, s', q, ref, id, u);
      AskedNext(log, e, u);
    }
    forall u
      ensures Mirrors(s', u, Fold(PENDING, u, log + [e]))
    {
      AskMirrors(s, s', q, ref, u, Fold(PENDING, u, log), e);
      FoldAppend(PENDING, u, log, e);
    }
  }

  // ---------------------------------------------------------------- settling

  lemma SettleMirrors(s: E.State, s': E.State, id: nat, outcome: E.Status, u: Uuid, m: Money, e: EscrowEvent)
    requires EscrowChange.RecordsSettlement(s, s', id, outcome) && Mirrors(s, u, m)
    requires e.name == SettleName(outcome)
    ensures Mirrors(s', u, if KeyOf(E.RefAt(s, id)) == Some(u) then ApplyMoney(m, e) else m)
  {
    assert forall j :: AnswersTo(s', j, u) <==> AnswersTo(s, j, u);
    if KeyOf(E.RefAt(s, id)) == Some(u) {
      assert SettlesUnder(s, s', id, outcome, u);
      SettleShows(s, s', id, outcome, u, m, e);
    } else {
      assert !AnswersTo(s, id, u);
      MirrorsCarries(s, s', u, m);
    }
  }

  // What a settlement does to the questions under its ref.
  ghost predicate SettlesUnder(s: E.State, s': E.State, id: nat, outcome: E.Status, u: Uuid) {
    && AnswersTo(s, id, u) && AnswersTo(s', id, u)
    && s.questions[id].status == E.Open && s'.questions[id] == s.questions[id].(status := outcome) && IsOutcome(outcome)
    && (forall j :: AnswersTo(s', j, u) <==> AnswersTo(s, j, u))
    && (forall j :: AnswersTo(s, j, u) && AnswersTo(s', j, u) && j != id ==> s'.questions[j] == s.questions[j])
  }

  lemma FirstSettleStatus(s: E.State, s': E.State, id: nat, outcome: E.Status, u: Uuid, m: Money, e: EscrowEvent)
    requires SettlesUnder(s, s', id, outcome, u) && m.status == Open && e.name == SettleName(outcome)
    ensures ShowsStatus(s', u, ApplyMoney(m, e).status)
  {
    assert IsSettledAs(s', id, u, ApplyMoney(m, e).status);
  }

  lemma LaterSettleIsInert(s: E.State, s': E.State, id: nat, outcome: E.Status, u: Uuid, m: Money,
                           e: EscrowEvent, j: nat)
    requires SettlesUnder(s, s', id, outcome, u) && IsSettledAs(s, j, u, m.status) && e.name == SettleName(outcome)
    ensures ApplyMoney(m, e) == m && ShowsStatus(s', u, m.status)
  {
    assert j != id && IsSettledAs(s', j, u, m.status);
  }

  // The first settle under a ref gives the row its status; later ones change nothing.
  lemma SettleStatus(s: E.State, s': E.State, id: nat, outcome: E.Status, u: Uuid, m: Money, e: EscrowEvent)
    requires SettlesUnder(s, s', id, outcome, u) && ShowsStatus(s, u, m.status) && e.name == SettleName(outcome)
    ensures ShowsStatus(s', u, ApplyMoney(m, e).status)
  {
    if AllOpen(s, u) {
      FirstSettleStatus(s, s', id, outcome, u, m, e);
    } else {
      var j :| IsSettledAs(s, j, u, m.status);
      LaterSettleIsInert(s, s', id, outcome, u, m, e, j);
    }
  }

  lemma SettleShows(s: E.State, s': E.State, id: nat, outcome: E.Status, u: Uuid, m: Money, e: EscrowEvent)
    requires SettlesUnder(s, s', id, outcome, u) && Mirrors(s, u, m) && e.name == SettleName(outcome)
    ensures Mirrors(s', u, ApplyMoney(m, e))
  {
    forall k | FirstFor(s', k, u)
      ensures ShowsTerms(s', k, ApplyMoney(m, e)) && ShowsStatus(s', u, ApplyMoney(m, e).status)
    {
      assert FirstFor(s, k, u);
      SettleStatus(s, s', id, outcome, u, m, e);
    }
  }

  lemma SettleTells(s: E.State, s': E.State, id: nat, outcome: E.Status, log: seq<EscrowEvent>, e: EscrowEvent)
    requires EscrowChange.RecordsSettlement(s, s', id, outcome) && Tells(s, log)
    requires e.name == SettleName(outcome) && e.key == KeyOf(E.RefAt(s, id))
    ensures Tells(s', log + [e])
  {
    assert forall j, u :: AnswersTo(s', j, u) <==> AnswersTo(s, j, u);
    forall u | IsSettleFor(e, u)
      ensures Asked(log, u)
    {
      assert AnswersTo(s, id, u);
    }
    SettlesFollowNext(log, e);
    AsksUniqueNext(log, e);
    forall j, u | AnswersTo(s', j, u)
      ensures Asked(log + [e], u)
    {
      AskedNext(log, e, u);
    }
    forall u
      ensures Mirrors(s', u, Fold(PENDING, u, log + [e]))
    {
      SettleMirrors(s, s', id, outcome, u, Fold(PENDING, u, log), e);
      FoldAppend(PENDING, u, log, e);
    }
  }

  // ---------------------------------------------------------------- any transaction

  lemma SameRecordsTell(s: E.State, s': E.State, log: seq<EscrowEvent>)
    requires EscrowChange.SameRecords(s, s') && Tells(s, log)
    ensures Tells(s', log)
  {
    assert forall j, u :: AnswersTo(s', j, u) <==> AnswersTo(s, j, u);
    forall u
      ensures Mirrors(s', u, Fold(PENDING, u, log))
    {
      MirrorsCarries(s, s', u, Fold(PENDING, u, log));
    }
  }

  lemma TransactionTells(s: E.State, p: Placed, log: seq<EscrowEvent>)
    requires EscrowSafety.Shaped(s) && Tells(s, log)
    ensures Tells(E.Apply(s, p.tx), log + NewEvents(s, p)) && |NewEvents(s, p)| <= 1
    ensures forall e :: e in NewEvents(s, p) ==> e.blockNumber == p.block && e.logIndex == p.index
  {
    var c := EscrowChange.Summary(s, p.tx);
    var s' := E.Apply(s, p.tx);
    NewEventsAreSeen(s, p, c);
    match c
    case Asked(q, ref) => AskTells(s, s', q, ref, log, Seen(c, s, p)[0]);
    case Settled(id, outcome) => SettleTells(s, s', id, outcome, log, Seen(c, s, p)[0]);
    case _ =>
      SameRecordsTell(s, s', log);
      assert log + [] == log;
  }

  // ---------------------------------------------------------------- a run of the escrow

  lemma {:induction false} RunTells(s: E.State, placed: seq<Placed>)
    requires EscrowSafety.Deployed(s)
    ensures EscrowSafety.Solvent(After(s, placed)) && Tells(After(s, placed), Emitted(s, placed))
  {
    EscrowSafety.SolventForever(s, Transactions(placed));
    AfterIsRun(s, placed);
    if |placed| > 0 {
      var front := placed[..|placed| - 1];
      RunTells(s, front);
      TransactionTells(After(s, front), placed[|placed| - 1], Emitted(s, front));
    }
  }

  // Every event of a run comes from the place of one of its transactions, which emits at most one.
  lemma {:induction false} EventsArePlaced(s: E.State, placed: seq<Placed>, e: EscrowEvent)
    requires EscrowSafety.Deployed(s) && e in Emitted(s, placed)
    ensures exists i :: 0 <= i < |placed| && placed[i].block == e.blockNumber && placed[i].index == e.logIndex
  {
    var front, p := placed[..|placed| - 1], placed[|placed| - 1];
    if e in Emitted(s, front) {
      EventsArePlaced(s, front, e);
      var i :| 0 <= i < |front| && front[i].block == e.blockNumber && front[i].index == e.logIndex;
      assert placed[i] == front[i];
    } else {
      RunTells(s, front);
      TransactionTells(After(s, front), p, Emitted(s, front));
    }
  }

  predicate Earlier(p: Placed, q: Placed) {
    p.block < q.block || (p.block == q.block && p.index < q.index)
  }

  predicate InOrder(placed: seq<Placed>) {
    forall i, j :: 0 <= i < j < |placed| ==> Earlier(placed[i], placed[j])
  }

  lemma StrictlySortedNext(log: seq<EscrowEvent>, news: seq<EscrowEvent>)
    requires StrictlySorted(log) && |news| <= 1
    requires forall e, f :: e in log && f in news ==> Before(e, f)
    ensures StrictlySorted(log + news)
  {
    assert forall i :: 0 <= i < |log| ==> (log + news)[i] == log[i] && log[i] in log;
    if |news| == 1 {
      assert (log + news)[|log|] == news[0] && news[0] in news;
    }
  }

  lemma {:induction false} EmittedSorted(s: E.State, placed: seq<Placed>)
    requires EscrowSafety.Deployed(s) && InOrder(placed)
    ensures StrictlySorted(Emitted(s, placed))
  {
    if |placed| > 0 {
      var front, p := placed[..|placed| - 1], placed[|placed| - 1];
      EmittedSorted(s, front);
      RunTells(s, front);
      TransactionTells(After(s, front), p, Emitted(s, front));
      forall e, f | e in Emitted(s, front) && f in NewEvents(After(s, front), p)
        ensures Before(e, f)
      {
        EventsArePlaced(s, front, e);
        var i :| 0 <= i < |front| && front[i].block == e.blockNumber && front[i].index == e.logIndex;
        assert Earlier(placed[i], placed[|placed| - 1]);
      }
      StrictlySortedNext(Emitted(s, front), NewEvents(After(s, front), p));
    }
  }

  lemma {:induction false} PlaceAllInOrder(txBlocks: seq<seq<E.Tx>>)
    ensures InOrder(PlaceAll(txBlocks))
    ensures forall p :: p in PlaceAll(txBlocks) ==> p.block < |txBlocks|
  {
    if |txBlocks| > 0 {
      PlaceAllInOrder(txBlocks[..|txBlocks| - 1]);
    }
  }

  // Any prefix of the log is the whole log of some first transactions.
  lemma {:induction false} PrefixIsRun(s: E.State, placed: seq<Placed>, n: nat) returns (k: nat)
    requires EscrowSafety.Deployed(s) && n <= |Emitted(s, placed)|
    ensures k <= |placed| && Emitted(s, placed[..k]) == Emitted(s, placed)[..n]
  {
    if n == |Emitted(s, placed)| {
      assert placed[..|placed|] == placed;
      return |placed|;
    }
    var front, p := placed[..|placed| - 1], placed[|placed| - 1];
    RunTells(s, front);
    TransactionTells(After(s, front), p, Emitted(s, front));
    k := PrefixIsRun(s, front, n);
    assert front[..k] == placed[..k];
  }

  // ---------------------------------------------------------------- the chain of an escrow

  // Blocks of transactions, of which those up to the start block emit no question event.
  ghost predicate Quiet(cfg: Config, s: E.State, txBlocks: seq<seq<E.Tx>>) {
    cfg.startBlock < |txBlocks| && Emitted(s, PlaceAll(txBlocks[..cfg.startBlock + 1])) == []
  }

  lemma FollowingIsComingFirst(log: seq<EscrowEvent>, u: Uuid)
    requires SettlesFollow(log)
    ensures AskComesFirst(u, log)
  {
    forall i, a | 0 <= i < a < |log| && IsSettleFor(log[i], u) && IsAskFor(log[a], u)
      ensures exists k :: 0 <= k < i && IsAskFor(log[k], u)
    {
      var k :| 0 <= k < |log[..i]| && IsAskFor(log[..i][k], u);
      assert log[..i][k] == log[k];
    }
  }

  lemma MinedLogHasShape(s: E.State, txBlocks: seq<seq<E.Tx>>)
    requires EscrowSafety.Deployed(s)
    ensures StrictlySorted(Flat(Mined(s, txBlocks))) && AsksAreUnique(Flat(Mined(s, txBlocks)))
    ensures SettlesFollow(Flat(Mined(s, txBlocks))) && |Mined(s, txBlocks)| == |txBlocks|
  {
    MinedLog(s, txBlocks);
    RunTells(s, PlaceAll(txBlocks));
    PlaceAllInOrder(txBlocks);
    EmittedSorted(s, PlaceAll(txBlocks));
  }

  lemma QuietStart(cfg: Config, s: E.State, txBlocks: seq<seq<E.Tx>>)
    requires Quiet(cfg, s, txBlocks)
    ensures cfg.startBlock < |Mined(s, txBlocks)| && Flat(Mined(s, txBlocks)[..cfg.startBlock + 1]) == []
  {
    MinedPrefix(s, txBlocks, cfg.startBlock + 1);
    MinedLog(s, txBlocks[..cfg.startBlock + 1]);
  }

  // Whatever transactions it holds, a chain of escrow transactions has the shape the indexer needs.
  lemma MinedChainIsEscrowChain(cfg: Config, s: E.State, txBlocks: seq<seq<E.Tx>>)
    requires EscrowSafety.Deployed(s) && Quiet(cfg, s, txBlocks)
    ensures EscrowChain(cfg, Mined(s, txBlocks))
  {
    MinedLogHasShape(s, txBlocks);
    QuietStart(cfg, s, txBlocks);
    forall u {
      FollowingIsComingFirst(Flat(Mined(s, txBlocks)), u);
    }
  }

  ghost predicate IsMined(cfg: Config, s: E.State, blocks: seq<Block>) {
    exists txBlocks :: Quiet(cfg, s, txBlocks) && blocks == Mined(s, txBlocks)
  }

  // For chains of escrow transactions the indexer only needs reorganisations to be shallow.
  lemma ShallowReorgSuffices(cfg: Config, s: E.State, blocks: seq<Block>, blocks': seq<Block>)
    requires EscrowSafety.Deployed(s) && IsMined(cfg, s, blocks')
    ensures ChainStep(cfg, blocks, blocks')
            <==> |blocks| <= |blocks'| && blocks'[..StableCount(cfg, blocks)] == blocks[..StableCount(cfg, blocks)]
  {
    var txBlocks :| Quiet(cfg, s, txBlocks) && blocks' == Mined(s, txBlocks);
    MinedChainIsEscrowChain(cfg, s, txBlocks);
  }

  ghost predicate FedByEscrow(cfg: Config, s: E.State, w: World, choices: seq<Choice>) {
    && IsMined(cfg, s, w.blocks)
    && forall i :: 0 <= i < |choices| && choices[i].NewChain? ==> IsMined(cfg, s, choices[i].blocks)
  }

  lemma DoBlocks(cfg: Config, w: World, c: Choice)
    requires Configured(cfg)
    ensures Do(cfg, w, c).blocks == w.blocks || (c.NewChain? && Do(cfg, w, c).blocks == c.blocks)
  {
  }

  // So there always are blocks of transactions behind the chain.
  lemma {:induction false} ChainStaysMined(cfg: Config, s: E.State, w: World, choices: seq<Choice>)
    requires Configured(cfg) && FedByEscrow(cfg, s, w, choices)
    ensures IsMined(cfg, s, RunWorld(cfg, w, choices).blocks)
  {
    if |choices| > 0 {
      var front, last := choices[..|choices| - 1], choices[|choices| - 1];
      ChainStaysMined(cfg, s, w, front);
      DoBlocks(cfg, RunWorld(cfg, w, front), last);
    }
  }

  // On such a chain, replaying any stretch of an applied prefix changes no row.
  lemma ReplayIsInertOnChain(cfg: Config, s: E.State, blocks: seq<Block>, u: Uuid, i: nat, j: nat, p: nat)
    requires EscrowSafety.Deployed(s) && IsMined(cfg, s, blocks) && i <= j <= p <= |Flat(blocks)|
    ensures Fold(Fold(PENDING, u, Flat(blocks)[..p]), u, Flat(blocks)[i..j]) == Fold(PENDING, u, Flat(blocks)[..p])
  {
    var txBlocks :| Quiet(cfg, s, txBlocks) && blocks == Mined(s, txBlocks);
    MinedChainIsEscrowChain(cfg, s, txBlocks);
    ReplayStretch(u, Flat(blocks), i, j, p);
  }

  // ---------------------------------------------------------------- the mirror

  // No other question of the contract was asked under this one's ref.
  predicate AskedOnce(s: E.State, id: nat) {
    forall j :: j in s.questions && E.RefAt(s, j) == E.RefAt(s, id) ==> j == id
  }

  lemma WordsFit()
    ensures E.UINT256_LIMIT <= Ref.Pow16(2 * |Ref.REF_ZERO_HALF|)
  {
    assert Ref.Pow16(8) == 0x1_0000_0000;
    Ref.Pow16Add(8, 8);
    Ref.Pow16Add(16, 16);
    Ref.Pow16Add(32, 32);
  }

  lemma AskedOnceIsAlone(s: E.State, id: nat, u: Uuid)
    requires AnswersTo(s, id, u) && AskedOnce(s, id)
    ensures forall j :: AnswersTo(s, j, u) ==> j == id
  {
    forall j | AnswersTo(s, j, u)
      ensures j == id
    {
      WordsFit();
      Ref.SameUuidSameWord(E.RefAt(s, j), E.RefAt(s, id));
    }
  }

  // A row whose ref was asked once equals the contract's record of its question.
  lemma AskedOnceIsExact(s: E.State, id: nat, u: Uuid, m: Money)
    requires Mirrors(s, u, m) && AnswersTo(s, id, u) && AskedOnce(s, id)
    ensures s.questions[id].status != E.NoStatus && m == MoneyOf(s.questions[id], id)
  {
    AskedOnceIsAlone(s, id, u);
    assert FirstFor(s, id, u);
    if !AllOpen(s, u) {
      var j :| IsSettledAs(s, j, u, m.status);
      assert j == id;
    }
  }

  // The first settle of the log under the ref of u is this outcome; or there is none, and the question is open.
  predicate FirstOutcomeIs(log: seq<EscrowEvent>, u: Uuid, status: E.Status) {
    var z := FirstSettle(u, log, 0);
    if z == |log| then status == E.Open else IsOutcome(status) && log[z].name == SettleName(status)
  }

  lemma SettleNameTells(status: E.Status, name: EventName)
    requires status != E.NoStatus && name != QuestionAsked
    ensures IsOutcome(status) && name == SettleName(status) <==> StatusOf(status) == Some(StatusForEvent(name))
  {
  }

  // A log whose settles follow their asks has its first settle under a ref after the first ask.
  lemma FirstSettleFollows(log: seq<EscrowEvent>, u: Uuid)
    requires SettlesFollow(log) && Asked(log, u)
    ensures var a := FirstAsk(u, log);
            a < |log| && FirstSettle(u, log, 0) == FirstSettle(u, log, a + 1)
  {
    var a, z := FirstAsk(u, log), FirstSettle(u, log, 0);
    var k :| 0 <= k < |log| && IsAskFor(log[k], u);
    if z < |log| {
      var i :| 0 <= i < |log[..z]| && IsAskFor(log[..z][i], u);
      assert log[..z][i] == log[i] && a <= i;
    }
  }

  lemma FoldedStatus(log: seq<EscrowEvent>, u: Uuid)
    requires SettlesFollow(log) && Asked(log, u)
    ensures var z := FirstSettle(u, log, 0);
            Fold(PENDING, u, log).status == if z == |log| then QuestionStatus.Open else StatusForEvent(log[z].name)
  {
    FirstSettleFollows(log, u);
    FoldClosedForm(u, log);
  }

  lemma FoldedIsOutcome(log: seq<EscrowEvent>, u: Uuid, status: E.Status)
    requires SettlesFollow(log) && Asked(log, u) && status != E.NoStatus
    ensures StatusOf(status) == Some(Fold(PENDING, u, log).status) <==> FirstOutcomeIs(log, u, status)
  {
    var z := FirstSettle(u, log, 0);
    FoldedStatus(log, u);
    if z < |log| {
      SettleNameTells(status, log[z].name);
    }
  }

  lemma StatusIsRecord(s: E.State, u: Uuid, id: nat, m: Money)
    requires FirstFor(s, id, u) && Mirrors(s, u, m) && s.questions[id].status != E.NoStatus
    ensures m == MoneyOf(s.questions[id], id) <==> StatusOf(s.questions[id].status) == Some(m.status)
  {
  }

  // However often the ref was asked: the row equals the record of its first question exactly when the
  // first settle under the ref has that question's outcome.
  lemma RecordIff(s: E.State, log: seq<EscrowEvent>, u: Uuid, id: nat)
    requires EscrowSafety.Shaped(s) && Tells(s, log) && FirstFor(s, id, u)
    ensures s.questions[id].status != E.NoStatus
    ensures Fold(PENDING, u, log) == MoneyOf(s.questions[id], id) <==> FirstOutcomeIs(log, u, s.questions[id].status)
  {
    assert Mirrors(s, u, Fold(PENDING, u, log)) && AnswersTo(s, id, u);
    StatusIsRecord(s, u, id, Fold(PENDING, u, log));
    FoldedIsOutcome(log, u, s.questions[id].status);
  }

  // What every row says, exactly when that is the contract's record, and that it is when its ref was
  // asked once.
  ghost predicate Agrees(s: E.State, log: seq<EscrowEvent>, u: Uuid, m: Money) {
    && Mirrors(s, u, m)
    && (forall id :: FirstFor(s, id, u) ==>
          && s.questions[id].status != E.NoStatus
          && (m == MoneyOf(s.questions[id], id) <==> FirstOutcomeIs(log, u, s.questions[id].status)))
    && (forall id :: AnswersTo(s, id, u) && AskedOnce(s, id) ==>
          s.questions[id].status != E.NoStatus && m == MoneyOf(s.questions[id], id))
  }

  ghost predicate RowsAgree(cfg: Config, s: E.State, log: seq<EscrowEvent>, rows: Rows) {
    forall u :: u in rows && rows[u].chainId == cfg.chainId ==> Agrees(s, log, u, rows[u].money)
  }

  lemma FoldAgrees(s: E.State, log: seq<EscrowEvent>, u: Uuid)
    requires EscrowSafety.Shaped(s) && Tells(s, log)
    ensures Agrees(s, log, u, Fold(PENDING, u, log))
  {
    var m := Fold(PENDING, u, log);
    assert Mirrors(s, u, m);
    forall id | FirstFor(s, id, u)
      ensures s.questions[id].status != E.NoStatus
      ensures m == MoneyOf(s.questions[id], id) <==> FirstOutcomeIs(log, u, s.questions[id].status)
    {
      RecordIff(s, log, u, id);
    }
    forall id | AnswersTo(s, id, u) && AskedOnce(s, id)
      ensures s.questions[id].status != E.NoStatus && m == MoneyOf(s.questions[id], id)
    {
      AskedOnceIsExact(s, id, u, m);
    }
  }

  lemma TellingRowsAgree(cfg: Config, s: E.State, rows: Rows, log: seq<EscrowEvent>)
    requires EscrowSafety.Shaped(s) && Tells(s, log) && RowsMirror(cfg, rows, log)
    ensures RowsAgree(cfg, s, log, rows)
  {
    forall u | u in rows && rows[u].chainId == cfg.chainId
      ensures Agrees(s, log, u, rows[u].money)
    {
      assert RowMirrors(cfg, u, rows[u], log);
      FoldAgrees(s, log, u);
    }
  }

  // Rows folded from a prefix of the log agree with the contract after some first transactions.
  lemma MirrorAt(cfg: Config, s: E.State, txBlocks: seq<seq<E.Tx>>, rows: Rows, frontier: nat) returns (n: nat)
    requires EscrowSafety.Deployed(s) && frontier <= |Flat(Mined(s, txBlocks))|
    requires RowsMirror(cfg, rows, Flat(Mined(s, txBlocks))[..frontier])
    ensures n <= |PlaceAll(txBlocks)|
    ensures Emitted(s, PlaceAll(txBlocks)[..n]) == Flat(Mined(s, txBlocks))[..frontier]
    ensures RowsAgree(cfg, After(s, PlaceAll(txBlocks)[..n]), Flat(Mined(s, txBlocks))[..frontier], rows)
  {
    MinedLog(s, txBlocks);
    n := PrefixIsRun(s, PlaceAll(txBlocks), frontier);
    RunTells(s, PlaceAll(txBlocks)[..n]);
    TellingRowsAgree(cfg, After(s, PlaceAll(txBlocks)[..n]), rows, Flat(Mined(s, txBlocks))[..frontier]);
  }

  lemma ReachableInv(cfg: Config, s: E.State, w: World, choices: seq<Choice>)
    requires Configured(cfg) && EscrowSafety.Deployed(s) && Unindexed(cfg, w) && FedByEscrow(cfg, s, w, choices)
    ensures Inv(cfg, RunWorld(cfg, w, choices))
  {
    var start :| Quiet(cfg, s, start) && w.blocks == Mined(s, start);
    MinedChainIsEscrowChain(cfg, s, start);
    InitIsInv(cfg, w);
    InvForever(cfg, w, choices);
  }

  // One point of the run of the mined transactions, behind all the rows and the cursor.
  ghost predicate MirroredAt(cfg: Config, s: E.State, w: World, txBlocks: seq<seq<E.Tx>>, n: nat) {
    && n <= |PlaceAll(txBlocks)| && w.blocks == Mined(s, txBlocks) && CursorBlock(w.cursor, cfg) < |w.blocks|
    && Flat(w.blocks[..CursorBlock(w.cursor, cfg) + 1]) <= Emitted(s, PlaceAll(txBlocks)[..n])
    && RowsAgree(cfg, After(s, PlaceAll(txBlocks)[..n]), Emitted(s, PlaceAll(txBlocks)[..n]), w.db.rows)
  }

  lemma MirroredFrom(cfg: Config, s: E.State, w: World, txBlocks: seq<seq<E.Tx>>) returns (n: nat)
    requires EscrowSafety.Deployed(s) && w.blocks == Mined(s, txBlocks) && Inv(cfg, w)
    ensures MirroredAt(cfg, s, w, txBlocks, n)
  {
    InvLinearises(cfg, w);
    n := MirrorAt(cfg, s, txBlocks, w.db.rows, w.frontier);
  }

  // End to end: for every escrow, every history of its transactions and of shallow reorganisations,
  // and every interleaving of mints, passes, kills, sweeps, saves and publishes: whatever transactions
  // were mined on the chain as it now is, there is one point of their run at which every row of this
  // chain shows the contract: the terms of the first question under its ref, open exactly while all of
  // them are, and the record exactly when the first settle under the ref is that question's own. No event
  // up to the cursor lies beyond that point.
  lemma EndToEndMirror(cfg: Config, s: E.State, w: World, choices: seq<Choice>, txBlocks: seq<seq<E.Tx>>)
    returns (n: nat)
    requires Configured(cfg) && EscrowSafety.Deployed(s) && Unindexed(cfg, w) && FedByEscrow(cfg, s, w, choices)
    requires RunWorld(cfg, w, choices).blocks == Mined(s, txBlocks)
    ensures MirroredAt(cfg, s, RunWorld(cfg, w, choices), txBlocks, n)
  {
    ReachableInv(cfg, s, w, choices);
    n := MirroredFrom(cfg, s, RunWorld(cfg, w, choices), txBlocks);
  }

  lemma WholeLogAgrees(cfg: Config, s: E.State, txBlocks: seq<seq<E.Tx>>, rows: Rows)
    requires EscrowSafety.Deployed(s) && RowsMirror(cfg, rows, Flat(Mined(s, txBlocks)))
    ensures RowsAgree(cfg, After(s, PlaceAll(txBlocks)), Emitted(s, PlaceAll(txBlocks)), rows)
  {
    MinedLog(s, txBlocks);
    RunTells(s, PlaceAll(txBlocks));
    TellingRowsAgree(cfg, After(s, PlaceAll(txBlocks)), rows, Flat(Mined(s, txBlocks)));
  }

  lemma TakePrefix<T>(prefix: seq<T>, all: seq<T>)
    requires prefix <= all
    ensures all[..|prefix|] == prefix
  {
  }

  // The rows show the contract as it was at the end of the cursor's block.
  ghost predicate ShowsCursorBlock(cfg: Config, s: E.State, w: World, txBlocks: seq<seq<E.Tx>>) {
    var c := CursorBlock(w.cursor, cfg);
    && c < |txBlocks| && w.blocks == Mined(s, txBlocks)
    && RowsAgree(cfg, After(s, PlaceAll(txBlocks[..c + 1])), Emitted(s, PlaceAll(txBlocks[..c + 1])), w.db.rows)
  }

  lemma MinedToCursor(s: E.State, blocks: seq<Block>, txBlocks: seq<seq<E.Tx>>, c: nat)
    requires blocks == Mined(s, txBlocks) && c < |blocks|
    ensures c < |txBlocks| && |Flat(blocks[..c + 1])| <= |Flat(blocks)|
    ensures Flat(Mined(s, txBlocks[..c + 1])) == Flat(blocks)[..|Flat(blocks[..c + 1])|]
  {
    MinedLog(s, txBlocks);
    MinedPrefix(s, txBlocks, c + 1);
    PrefixOfFlat(blocks, c + 1);
    TakePrefix(Flat(blocks[..c + 1]), Flat(blocks));
  }

  // The rows are the fold of exactly the blocks up to the cursor.
  ghost predicate FoldedToCursor(cfg: Config, w: World) {
    && w.frontier <= |Flat(w.blocks)| && RowsMirror(cfg, w.db.rows, AppliedLog(w))
    && CursorBlock(w.cursor, cfg) < |w.blocks|
    && w.frontier == |Flat(w.blocks[..CursorBlock(w.cursor, cfg) + 1])|
  }

  // Whenever nothing beyond the cursor is applied, that point is the end of the cursor's block.
  lemma CaughtUpMirror(cfg: Config, s: E.State, w: World, txBlocks: seq<seq<E.Tx>>)
    requires EscrowSafety.Deployed(s) && w.blocks == Mined(s, txBlocks) && FoldedToCursor(cfg, w)
    ensures ShowsCursorBlock(cfg, s, w, txBlocks)
  {
    var c := CursorBlock(w.cursor, cfg);
    MinedToCursor(s, w.blocks, txBlocks, c);
    WholeLogAgrees(cfg, s, txBlocks[..c + 1], w.db.rows);
  }
}
