// What each account is owed over a whole run, and why no money can stay stuck in the escrow.
module EscrowLedger {
  import opened Prelude
  import opened Sums
  import opened EscrowSpec
  import opened EscrowSafety
  import opened EscrowChange

  // ---------------------------------------------------------------- a question settles at most once

  predicate Continues(before: Question, after: Question) {
    && after.asker == before.asker && after.answerer == before.answerer
    && after.amount == before.amount && after.deadline == before.deadline
    && (before.status != Open ==> after.status == before.status)
  }

  lemma TransactionKeepsTerms(s: State, tx: Tx, id: nat)
    requires Shaped(s) && id in s.questions
    ensures id in Apply(s, tx).questions && Continues(s.questions[id], Apply(s, tx).questions[id])
  {
    var c := Summary(s, tx);
    ChangeKeepsTerms(s, Apply(s, tx), c, id);
  }

  lemma ChangeKeepsTerms(s: State, s': State, c: Change, id: nat)
    requires Shaped(s) && Records(s, s', c) && id in s.questions
    ensures id in s'.questions && Continues(s.questions[id], s'.questions[id])
  {
  }

  // From then on, in every continuation, a question keeps its parties, amount and deadline, and
  // once it has left Open its status never changes again.
  lemma {:induction false} SettlesAtMostOnce(s: State, txs: seq<Tx>, id: nat)
    requires Solvent(s) && id in s.questions
    ensures Solvent(Run(s, txs))
    ensures id in Run(s, txs).questions && Continues(s.questions[id], Run(s, txs).questions[id])
  {
    if |txs| > 0 {
      SettlesAtMostOnce(s, txs[..|txs| - 1], id);
      TransactionKeepsSolvency(Run(s, txs[..|txs| - 1]), txs[|txs| - 1]);
      TransactionKeepsTerms(Run(s, txs[..|txs| - 1]), txs[|txs| - 1], id);
    }
  }

  // ---------------------------------------------------------------- the per-account ledger

  // The settlements a transaction made, read off the states around it.
  ghost function NewlySettled(pre: State, post: State): map<nat, Shares> {
    map id | id in post.questions && QuestionAt(pre, id).status == Open && post.questions[id].status != Open ::
      Entitled(pre, QuestionAt(pre, id), post.questions[id].status)
  }

  ghost function Settlements(s: State, txs: seq<Tx>): map<nat, Shares> {
    if |txs| == 0 then map[]
    else
      var pre := Run(s, txs[..|txs| - 1]);
      Settlements(s, txs[..|txs| - 1]) + NewlySettled(pre, Apply(pre, txs[|txs| - 1]))
  }

  function SharesOf(settled: map<nat, Shares>, who: Address): map<nat, nat> {
    map id | id in settled :: ShareOf(settled[id], who)
  }

  function WithdrawnBy(log: seq<Event>, who: Address): nat {
    if |log| == 0 then 0
    else
      var last := log[|log| - 1];
      WithdrawnBy(log[..|log| - 1], who) + if last.Withdrawn? && last.who == who then last.amount else 0
  }

  lemma WithdrawnByAppend(log: seq<Event>, event: Event, who: Address)
    ensures WithdrawnBy(log + [event], who)
         == WithdrawnBy(log, who) + if event.Withdrawn? && event.who == who then event.amount else 0
  {
    assert (log + [event])[..|log|] == log;
  }

  // One credit per settled question and no other; its shares are the question's amount, split
  // within the caps of its outcome.
  ghost predicate SettledOnce(questions: map<nat, Question>, settled: map<nat, Shares>) {
    && (forall id :: id in settled <==> id in questions && questions[id].status != Open)
    && (forall id :: id in settled ==> WithinCaps(questions[id], settled[id]))
  }

  predicate WithinCaps(q: Question, h: Shares) {
    && h.payout + h.fee == q.amount
    && ExactFee(q.amount, h.bps, h.fee)
    && (q.status == Answered || q.status == Cancelled || h.bps == 0)
    && h.payee == (if q.status == Answered then q.answerer else q.asker)
    && 10 * h.payout >= 9 * q.amount
    && (q.status == Cancelled ==> 20 * h.payout >= 19 * q.amount)
    && (q.status == Declined || q.status == Reclaimed ==> h.payout == q.amount)
  }

  ghost predicate Owes(s: State, settled: map<nat, Shares>, who: Address) {
    At(s.withdrawable, who) + WithdrawnBy(s.log, who) == Sum(SharesOf(settled, who))
  }

  lemma ChangeLogsPayment(s: State, s': State, c: Change, who: Address)
    requires Records(s, s', c)
    ensures WithdrawnBy(s'.log, who) == WithdrawnBy(s.log, who) + if c.Paid? && c.who == who then c.amount else 0
  {
    if s'.log != s.log {
      assert s'.log == s.log + [s'.log[|s.log|]];
      WithdrawnByAppend(s.log, s'.log[|s.log|], who);
    }
  }

  lemma ChangeSettles(s: State, s': State, c: Change)
    requires Shaped(s) && Records(s, s', c)
    ensures NewlySettled(s, s')
         == if c.Settled? then map[c.id := Entitled(s, QuestionAt(s, c.id), c.outcome)] else map[]
  {
  }

  lemma SharesAdd(settled: map<nat, Shares>, id: nat, h: Shares, who: Address)
    requires id !in settled
    ensures Sum(SharesOf(settled + map[id := h], who)) == Sum(SharesOf(settled, who)) + ShareOf(h, who)
  {
    assert SharesOf(settled + map[id := h], who) == SharesOf(settled, who)[id := ShareOf(h, who)];
    SumUpdate(SharesOf(settled, who), id, ShareOf(h, who));
  }

  lemma ChangeCredits(s: State, s': State, c: Change, who: Address)
    requires Records(s, s', c)
    ensures At(s'.withdrawable, who) + (if c.Paid? && c.who == who then c.amount else 0)
         == At(s.withdrawable, who)
            + if c.Settled? then ShareOf(Entitled(s, QuestionAt(s, c.id), c.outcome), who) else 0
  {
  }

  lemma ChangeKeepsLedger(s: State, s': State, c: Change, settled: map<nat, Shares>, who: Address)
    requires Shaped(s) && Records(s, s', c) && Owes(s, settled, who) && SettledOnce(s.questions, settled)
    ensures Owes(s', settled + NewlySettled(s, s'), who)
  {
    ChangeLogsPayment(s, s', c, who);
    ChangeCredits(s, s', c, who);
    ChangeSettles(s, s', c);
    if c.Settled? {
      assert c.id !in settled;
      SharesAdd(settled, c.id, Entitled(s, QuestionAt(s, c.id), c.outcome), who);
    } else {
      assert settled + map[] == settled;
    }
  }

  lemma OneMoreSettled(questions: map<nat, Question>, settled: map<nat, Shares>, id: nat, q: Question, h: Shares)
    requires SettledOnce(questions, settled) && q.status != Open && WithinCaps(q, h)
    ensures SettledOnce(questions[id := q], settled + map[id := h])
  {
  }

  lemma SettlesOneMore(s: State, id: nat, outcome: Status, settled: map<nat, Shares>)
    requires Shaped(s) && QuestionAt(s, id).status == Open && outcome != Open && outcome != NoStatus
    requires SettledOnce(s.questions, settled)
    ensures var q := QuestionAt(s, id);
            SettledOnce(s.questions[id := q.(status := outcome)], settled + map[id := Entitled(s, q, outcome)])
  {
    var q := QuestionAt(s, id);
    SharesSplitAmount(s, q, outcome);
    OneMoreSettled(s.questions, settled, id, q.(status := outcome), Entitled(s, q, outcome));
  }

  lemma ChangeSettlesOnce(s: State, s': State, c: Change, settled: map<nat, Shares>)
    requires Shaped(s) && Records(s, s', c) && SettledOnce(s.questions, settled)
    ensures SettledOnce(s'.questions, settled + NewlySettled(s, s'))
  {
    ChangeSettles(s, s', c);
    if c.Settled? {
      SettlesOneMore(s, c.id, c.outcome, settled);
    } else {
      assert settled + map[] == settled;
    }
  }

  // For every account, over every run: what it can still withdraw plus what it has withdrawn is
  // the sum of its shares over the settled questions, each of which was credited exactly once.
  lemma {:induction false} LedgerIsExact(s: State, txs: seq<Tx>, who: Address)
    requires Deployed(s)
    ensures SettledOnce(Run(s, txs).questions, Settlements(s, txs))
    ensures Owes(Run(s, txs), Settlements(s, txs), who)
  {
    if |txs| > 0 {
      var front := txs[..|txs| - 1];
      SolventForever(s, front);
      LedgerIsExact(s, front, who);
      var pre, post := Run(s, front), Run(s, txs);
      var c := Summary(pre, txs[|txs| - 1]);
      ChangeKeepsLedger(pre, post, c, Settlements(s, front), who);
      ChangeSettlesOnce(pre, post, c, Settlements(s, front));
    }
  }

  // ---------------------------------------------------------------- nothing is stuck

  lemma CreditsFit(s: State, id: nat, to: Address)
    requires Solvent(s) && QuestionAt(s, id).status == Open
    ensures At(s.withdrawable, to) + QuestionAt(s, id).amount < UINT256_LIMIT
    ensures forall other :: other != to ==>
              At(s.withdrawable, to) + At(s.withdrawable, other) + QuestionAt(s, id).amount < UINT256_LIMIT
  {
    SumAtLeast(s.token.balances, s.self);
    SumAtLeast(EscrowedById(s.questions), id);
    SumAtLeast(s.withdrawable, to);
    forall other | other != to
      ensures At(s.withdrawable, to) + At(s.withdrawable, other) <= Sum(s.withdrawable)
    {
      SumAtLeastTwo(s.withdrawable, to, other);
    }
  }

  // In a solvent state no credit can overflow, so a settlement succeeds exactly when its caller
  // may settle.
  lemma SettlementSucceedsIff(s: State, tx: Tx)
    requires Solvent(s) && IsSettlement(tx.action)
    ensures Execute(s, tx).Ok? <==> MaySettle(s, tx)
  {
    SettlementReduces(s, tx);
    if MaySettle(s, tx) {
      var id, outcome := tx.action.id, Outcome(tx.action);
      SharesSplitAmount(s, QuestionAt(s, id), outcome);
      CreditsFit(s, id, Entitled(s, QuestionAt(s, id), outcome).payee);
      CreditsFit(s, id, s.feeAddress);
    }
  }

  // A withdrawal succeeds exactly when there is something to withdraw, paused or not.
  lemma WithdrawalSucceedsIff(s: State, tx: Tx)
    requires Solvent(s) && tx.action.Withdrawal? && tx.sender != ZERO_ADDRESS && tx.sender != s.self
    ensures Execute(s, tx).Ok? <==> At(s.withdrawable, tx.sender) > 0
  {
    SumAtLeast(s.withdrawable, tx.sender);
  }

  // While a question is open and nothing is paused, its asker always has exactly one way out.
  lemma AskerCanAlwaysLeave(s: State, id: nat, now: nat)
    requires Solvent(s) && !s.paused && QuestionAt(s, id).status == Open
    ensures var asker := QuestionAt(s, id).asker;
            Execute(s, Tx(asker, now, Cancel(id))).Ok? <==> Execute(s, Tx(asker, now, Reclaim(id))).Err?
  {
    var asker := QuestionAt(s, id).asker;
    SettlementSucceedsIff(s, Tx(asker, now, Cancel(id)));
    SettlementSucceedsIff(s, Tx(asker, now, Reclaim(id)));
  }

  lemma ReclaimOne(s: State, caller: Address, now: nat, id: nat)
    requires Solvent(s) && !s.paused && caller != ZERO_ADDRESS && caller != s.self
    requires QuestionAt(s, id).status == Open && QuestionAt(s, id).deadline <= now
    ensures var r := Apply(s, Tx(caller, now, Reclaim(id)));
            && Execute(s, Tx(caller, now, Reclaim(id))).Ok?
            && Solvent(r) && !r.paused && r.self == s.self && r.donated == s.donated
            && r.questions == s.questions[id := s.questions[id].(status := Reclaimed)]
  {
    SettlementReduces(s, Tx(caller, now, Reclaim(id)));
    SettlementSucceedsIff(s, Tx(caller, now, Reclaim(id)));
    TransactionKeepsSolvency(s, Tx(caller, now, Reclaim(id)));
  }

  lemma AskDeadline(s: State, ask: Tx)
    requires Shaped(s) && ask.action.Ask? && Execute(s, ask).Ok?
    ensures s.nextId in Apply(s, ask).questions
    ensures Apply(s, ask).questions[s.nextId].deadline <= ask.now + 2_592_000
  {
    AskRecords(s, ask);
  }

  // Whatever the owner and anyone else do meanwhile, a question that is still open can be
  // reclaimed in any unpaused state from thirty days, 2_592_000 seconds, after it was asked.
  lemma LockedAtMostThirtyDays(s: State, ask: Tx, txs: seq<Tx>, caller: Address, later: nat)
    requires Solvent(s) && ask.action.Ask? && Execute(s, ask).Ok?
    requires caller != ZERO_ADDRESS && caller != Run(Apply(s, ask), txs).self
    requires ask.now + 2_592_000 <= later
    ensures var end := Run(Apply(s, ask), txs);
            !end.paused && QuestionAt(end, s.nextId).status == Open
            ==> Execute(end, Tx(caller, later, Reclaim(s.nextId))).Ok?
  {
    var s1 := Apply(s, ask);
    TransactionKeepsSolvency(s, ask);
    AskDeadline(s, ask);
    SettlesAtMostOnce(s1, txs, s.nextId);
    var end := Run(s1, txs);
    if !end.paused && QuestionAt(end, s.nextId).status == Open {
      ReclaimOne(end, caller, later, s.nextId);
    }
  }

  ghost predicate AllSucceed(s: State, txs: seq<Tx>) {
    |txs| > 0 ==> AllSucceed(s, txs[..|txs| - 1]) && Execute(Run(s, txs[..|txs| - 1]), txs[|txs| - 1]).Ok?
  }

  predicate Distinct<T(==)>(xs: seq<T>) {
    forall i, j :: 0 <= i < j < |xs| ==> xs[i] != xs[j]
  }

  // ids lists every open question once, and all of them are overdue.
  ghost predicate ListsOverdue(s: State, ids: seq<nat>, now: nat) {
    && Distinct(ids)
    && (forall id :: id in ids ==> QuestionAt(s, id).status == Open && QuestionAt(s, id).deadline <= now)
    && (forall id :: id in s.questions && s.questions[id].status == Open ==> id in ids)
  }

  // who lists every account other than the escrow's own that has something to withdraw, once.
  ghost predicate ListsCredited(s: State, who: seq<Address>) {
    && Distinct(who)
    && (forall a :: a in who ==> a != s.self && At(s.withdrawable, a) > 0)
    && (forall a :: a in s.withdrawable && a != s.self && s.withdrawable[a] > 0 ==> a in who)
  }

  function Reclaims(caller: Address, now: nat, ids: seq<nat>): (txs: seq<Tx>)
    ensures |txs| == |ids|
  {
    seq(|ids|, i requires 0 <= i < |ids| => Tx(caller, now, Reclaim(ids[i])))
  }

  function Withdrawals(now: nat, who: seq<Address>): (txs: seq<Tx>)
    ensures |txs| == |who|
  {
    seq(|who|, i requires 0 <= i < |who| => Tx(who[i], now, Withdrawal))
  }

  ghost predicate OnlyReclaimed(before: map<nat, Question>, after: map<nat, Question>, ids: seq<nat>) {
    && after.Keys == before.Keys
    && (forall id :: id in before ==>
          after[id] == if id in ids then before[id].(status := Reclaimed) else before[id])
  }

  lemma OneMoreReclaimed(before: map<nat, Question>, after: map<nat, Question>, ids: seq<nat>, id: nat)
    requires OnlyReclaimed(before, after, ids) && id in before
    ensures OnlyReclaimed(before, after[id := after[id].(status := Reclaimed)], ids + [id])
  {
  }

  lemma RunNext(s: State, txs: seq<Tx>)
    requires |txs| > 0
    ensures var front, tx := txs[..|txs| - 1], txs[|txs| - 1];
            && Run(s, txs) == Apply(Run(s, front), tx)
            && (AllSucceed(s, front) && Execute(Run(s, front), tx).Ok? ==> AllSucceed(s, txs))
  {
  }

  // r is s with the questions of ids reclaimed, and is as sound as s.
  ghost predicate ReclaimedTo(s: State, r: State, ids: seq<nat>) {
    && Solvent(r) && !r.paused && r.self == s.self && r.donated == s.donated
    && OnlyReclaimed(s.questions, r.questions, ids)
  }

  lemma ReclaimNext(s: State, mid: State, caller: Address, now: nat, front: seq<nat>, id: nat)
    requires caller != ZERO_ADDRESS && caller != s.self
    requires ReclaimedTo(s, mid, front) && id !in front
    requires QuestionAt(s, id).status == Open && QuestionAt(s, id).deadline <= now
    ensures Execute(mid, Tx(caller, now, Reclaim(id))).Ok?
    ensures ReclaimedTo(s, Apply(mid, Tx(caller, now, Reclaim(id))), front + [id])
  {
    assert id in s.questions && mid.questions[id] == s.questions[id];
    ReclaimOne(mid, caller, now, id);
    OneMoreReclaimed(s.questions, mid.questions, front, id);
  }

  lemma ReclaimsFront(caller: Address, now: nat, ids: seq<nat>)
    requires |ids| > 0
    ensures var txs := Reclaims(caller, now, ids);
            && txs[..|txs| - 1] == Reclaims(caller, now, ids[..|ids| - 1])
            && txs[|txs| - 1] == Tx(caller, now, Reclaim(ids[|ids| - 1]))
  {
  }

  lemma LastIsNew<T>(xs: seq<T>)
    requires |xs| > 0 && Distinct(xs)
    ensures Distinct(xs[..|xs| - 1]) && xs[|xs| - 1] !in xs[..|xs| - 1] && xs == xs[..|xs| - 1] + [xs[|xs| - 1]]
  {
  }

  // Reclaiming distinct overdue questions one after the other: no call reverts, and exactly those
  // questions change.
  lemma {:induction false} ReclaimEach(s: State, caller: Address, now: nat, ids: seq<nat>)
    requires Solvent(s) && !s.paused && caller != ZERO_ADDRESS && caller != s.self
    requires Distinct(ids)
    requires forall id :: id in ids ==> QuestionAt(s, id).status == Open && QuestionAt(s, id).deadline <= now
    ensures AllSucceed(s, Reclaims(caller, now, ids))
    ensures ReclaimedTo(s, Run(s, Reclaims(caller, now, ids)), ids)
  {
    if |ids| > 0 {
      var front, id := ids[..|ids| - 1], ids[|ids| - 1];
      LastIsNew(ids);
      ReclaimEach(s, caller, now, front);
      ReclaimsFront(caller, now, ids);
      ReclaimNext(s, Run(s, Reclaims(caller, now, front)), caller, now, front, id);
      RunNext(s, Reclaims(caller, now, ids));
    }
  }

  // r is s with the credits of who paid out.
  ghost predicate PaidTo(s: State, r: State, who: seq<Address>) {
    && Solvent(r) && r.self == s.self && r.donated == s.donated && r.questions == s.questions
    && (forall a :: At(r.withdrawable, a) == if a in who then 0 else At(s.withdrawable, a))
  }

  lemma WithdrawNext(s: State, mid: State, now: nat, front: seq<Address>, a: Address)
    requires PaidTo(s, mid, front) && a !in front && a != ZERO_ADDRESS && a != s.self && At(s.withdrawable, a) > 0
    ensures Execute(mid, Tx(a, now, Withdrawal)).Ok?
    ensures PaidTo(s, Apply(mid, Tx(a, now, Withdrawal)), front + [a])
  {
    WithdrawalSucceedsIff(mid, Tx(a, now, Withdrawal));
    TransactionKeepsSolvency(mid, Tx(a, now, Withdrawal));
  }

  // Withdrawing for distinct accounts with credit, one after the other.
  lemma {:induction false} WithdrawEach(s: State, now: nat, who: seq<Address>)
    requires Solvent(s)
    requires Distinct(who)
    requires forall a :: a in who ==> a != s.self && At(s.withdrawable, a) > 0
    ensures AllSucceed(s, Withdrawals(now, who))
    ensures PaidTo(s, Run(s, Withdrawals(now, who)), who)
  {
    if |who| > 0 {
      var front, a := who[..|who| - 1], who[|who| - 1];
      WithdrawEach(s, now, front);
      var txs := Withdrawals(now, who);
      assert txs[..|who| - 1] == Withdrawals(now, front);
      assert who == front + [a] && a in who && a !in front;
      WithdrawNext(s, Run(s, txs[..|who| - 1]), now, front, a);
      RunNext(s, txs);
    }
  }

  lemma {:induction false} RunConcat(s: State, a: seq<Tx>, b: seq<Tx>)
    ensures Run(s, a + b) == Run(Run(s, a), b)
    ensures AllSucceed(s, a) && AllSucceed(Run(s, a), b) ==> AllSucceed(s, a + b)
  {
    if |b| == 0 {
      assert a + b == a;
    } else {
      RunConcat(s, a, b[..|b| - 1]);
      assert (a + b)[..|a + b| - 1] == a + b[..|b| - 1];
    }
  }

  lemma DrainFrom(r: State, caller: Address, now: nat, ids: seq<nat>, who: seq<Address>)
    requires Solvent(r) && !r.paused && caller != ZERO_ADDRESS && caller != r.self
    requires ListsOverdue(r, ids, now)
    requires ListsCredited(Run(r, Reclaims(caller, now, ids)), who)
    ensures var drain := Reclaims(caller, now, ids) + Withdrawals(now, who);
            && AllSucceed(r, drain)
            && OpenTotal(Run(r, drain)) == 0
            && Held(Run(r, drain)) == r.donated + At(Run(r, drain).withdrawable, r.self)
  {
    ReclaimEach(r, caller, now, ids);
    var m := Run(r, Reclaims(caller, now, ids));
    WithdrawEach(m, now, who);
    RunConcat(r, Reclaims(caller, now, ids), Withdrawals(now, who));
    var end := Run(m, Withdrawals(now, who));
    forall a | a != end.self
      ensures At(end.withdrawable, a) == 0
    {
      assert At(end.withdrawable, a) == if a in who then 0 else At(m.withdrawable, a);
    }
    Drained(end);
  }

  // The escrow drains: from every reachable unpaused state in which the open questions are overdue,
  // reclaiming them in any order and then withdrawing every credit in any order never reverts, and
  // what is left is what was donated plus what was credited to the escrow's own address.
  lemma MoneyIsNeverStuck(s: State, txs: seq<Tx>, caller: Address, now: nat, ids: seq<nat>, who: seq<Address>)
    requires Deployed(s)
    requires !Run(s, txs).paused && caller != ZERO_ADDRESS && caller != Run(s, txs).self
    requires ListsOverdue(Run(s, txs), ids, now)
    requires ListsCredited(Run(Run(s, txs), Reclaims(caller, now, ids)), who)
    ensures var r := Run(s, txs);
            var drain := Reclaims(caller, now, ids) + Withdrawals(now, who);
            && AllSucceed(r, drain)
            && OpenTotal(Run(r, drain)) == 0
            && Held(Run(r, drain)) == r.donated + At(Run(r, drain).withdrawable, r.self)
  {
    SolventForever(s, txs);
    DrainFrom(Run(s, txs), caller, now, ids, who);
  }

  lemma Drained(end: State)
    requires Solvent(end)
    requires forall id :: id in end.questions ==> end.questions[id].status != Open
    requires forall a :: a != end.self ==> At(end.withdrawable, a) == 0
    ensures OpenTotal(end) == 0
    ensures Held(end) == end.donated + At(end.withdrawable, end.self)
  {
    SumOnly(EscrowedById(end.questions), 0);
    assert forall a :: a in end.withdrawable && a != end.self ==> At(end.withdrawable, a) == 0;
    SumOnly(end.withdrawable, end.self);
  }

  // Every finite set can be listed.
  lemma {:induction false} ListingExists<T>(xs: set<T>) returns (listing: seq<T>)
    ensures forall x :: x in xs <==> x in listing
    ensures Distinct(listing)
  {
    if xs == {} {
      listing := [];
    } else {
      var x :| x in xs;
      var rest := ListingExists(xs - {x});
      listing := rest + [x];
    }
  }

  // So from every reachable unpaused state in which all open deadlines have passed there is such a drain.
  lemma DrainExists(s: State, txs: seq<Tx>, caller: Address, now: nat) returns (ids: seq<nat>, who: seq<Address>)
    requires Deployed(s) && !Run(s, txs).paused && caller != ZERO_ADDRESS && caller != Run(s, txs).self
    requires var r := Run(s, txs);
             forall id :: id in r.questions && r.questions[id].status == Open ==> r.questions[id].deadline <= now
    ensures var r := Run(s, txs);
            var drain := Reclaims(caller, now, ids) + Withdrawals(now, who);
            && AllSucceed(r, drain)
            && OpenTotal(Run(r, drain)) == 0
            && Held(Run(r, drain)) == r.donated + At(Run(r, drain).withdrawable, r.self)
  {
    var r := Run(s, txs);
    ids := ListingExists(set id | id in r.questions && r.questions[id].status == Open);
    assert ListsOverdue(r, ids, now);
    SolventForever(s, txs);
    ReclaimEach(r, caller, now, ids);
    var m := Run(r, Reclaims(caller, now, ids));
    who := ListingExists(set a | a in m.withdrawable && a != m.self && m.withdrawable[a] > 0);
    assert ListsCredited(m, who);
    MoneyIsNeverStuck(s, txs, caller, now, ids, who);
  }
}
