// Solvency of the escrow in every reachable state, at rest and in the middle of a token call.
module EscrowSafety {
  import opened Prelude
  import opened Sums
  import opened EscrowSpec

  // What the contract owes for a question: its amount while it is open, nothing afterwards.
  function Escrowed(q: Question): nat {
    if q.status == Open then q.amount else 0
  }

  function EscrowedById(questions: map<nat, Question>): map<nat, nat> {
    map id | id in questions :: Escrowed(questions[id])
  }

  ghost function OpenTotal(s: State): nat {
    Sum(EscrowedById(s.questions))
  }

  ghost function Liabilities(s: State): nat {
    OpenTotal(s) + Sum(s.withdrawable)
  }

  ghost predicate GoodQuestion(self: Address, q: Question) {
    && q.status != NoStatus
    && 0 < q.amount < UINT128_LIMIT
    && q.asker != ZERO_ADDRESS && q.asker != self
    && q.answerer != ZERO_ADDRESS
    && q.deadline < UINT64_LIMIT
  }

  // Ids are consecutive from 1, and every id has a complete record and a ref.
  ghost predicate GoodRecords(self: Address, nextId: nat, questions: map<nat, Question>, refs: map<nat, Bytes32>) {
    && 1 <= nextId < UINT256_LIMIT
    && (forall id :: id in questions <==> 1 <= id < nextId)
    && refs.Keys == questions.Keys
    && (forall id :: id in questions ==> GoodQuestion(self, questions[id]))
  }

  // The owner's parameters stay within their caps.
  ghost predicate GoodParameters(feeAddress: Address, answerFeeBps: nat, cancelFeeBps: nat, answerWindow: nat) {
    && feeAddress != ZERO_ADDRESS
    && answerFeeBps <= MAX_ANSWER_FEE_BPS
    && cancelFeeBps <= MAX_CANCEL_FEE_BPS
    && 1 <= answerWindow <= MAX_ANSWER_WINDOW
  }

  ghost predicate Shaped(s: State) {
    && s.self != ZERO_ADDRESS
    && GoodRecords(s.self, s.nextId, s.questions, s.questionRef)
    && GoodParameters(s.feeAddress, s.answerFeeBps, s.cancelFeeBps, s.answerWindow)
    && ZERO_ADDRESS !in s.withdrawable
    && Sum(s.token.balances) < UINT256_LIMIT
  }

  // The escrow's token balance is its liabilities plus donations, plus an imbalance that is only
  // nonzero while a token call is in progress.
  ghost predicate Balanced(s: State, imbalance: int) {
    && Shaped(s)
    && Held(s) == Liabilities(s) + s.donated + imbalance
  }

  ghost predicate Solvent(s: State) {
    Balanced(s, 0) && !s.locked
  }

  // Amount has gone from one account to another, and every other balance is the same.
  ghost predicate Shifted(before: map<Address, nat>, after: map<Address, nat>, from: Address, to: Address,
                          amount: nat)
  {
    forall a :: At(after, a) + (if a == from then amount else 0) == At(before, a) + (if a == to then amount else 0)
  }

  // The fee at a rate in basis points, rounded down to a whole unit.
  predicate ExactFee(amount: nat, bps: nat, fee: nat) {
    10_000 * fee <= amount * bps < 10_000 * (fee + 1)
  }

  // ---------------------------------------------------------------- effect of each piece

  lemma WriteQuestion(s: State, id: nat, q: Question)
    ensures Sum(EscrowedById(s.questions[id := q])) + (if id in s.questions then Escrowed(s.questions[id]) else 0)
         == OpenTotal(s) + Escrowed(q)
  {
    assert EscrowedById(s.questions[id := q]) == EscrowedById(s.questions)[id := Escrowed(q)];
    SumUpdate(EscrowedById(s.questions), id, Escrowed(q));
  }

  lemma MoveKeepsSupply(balances: map<Address, nat>, from: Address, to: Address, amount: nat)
    requires amount <= At(balances, from)
    ensures Sum(Move(balances, from, to, amount)) == Sum(balances)
  {
    var debited := balances[from := At(balances, from) - amount];
    SumUpdate(balances, from, At(balances, from) - amount);
    SumUpdate(debited, to, At(debited, to) + amount);
  }

  lemma NewRecordIsGood(self: Address, nextId: nat, questions: map<nat, Question>, refs: map<nat, Bytes32>, q: Question,
                        ref: Bytes32)
    requires GoodRecords(self, nextId, questions, refs) && nextId + 1 < UINT256_LIMIT && GoodQuestion(self, q)
    ensures GoodRecords(self, nextId + 1, questions[nextId := q], refs[nextId := ref]) && nextId !in questions
  {
  }

  // A state with one more open question, and the lock taken.
  function Opened(s: State, q: Question, ref: Bytes32, log: seq<Event>): State {
    s.(locked := true, nextId := s.nextId + 1, questions := s.questions[s.nextId := q],
       questionRef := s.questionRef[s.nextId := ref], log := log)
  }

  lemma OpenedEffect(s: State, q: Question, ref: Bytes32, log: seq<Event>, d: int)
    requires Balanced(s, d) && s.nextId + 1 < UINT256_LIMIT && GoodQuestion(s.self, q) && q.status == Open
    ensures Balanced(Opened(s, q, ref, log), d - q.amount)
  {
    NewRecordIsGood(s.self, s.nextId, s.questions, s.questionRef, q, ref);
    WriteQuestion(s, s.nextId, q);
  }

  lemma AskBeginOpens(s: State, sender: Address, now: nat, ref: Bytes32, answerer: Address, amount: Uint128)
    requires AskBegin(s, sender, now, ref, answerer, amount).Ok?
    ensures var q := Question(sender, answerer, amount, now % UINT64_LIMIT + s.answerWindow, Open);
            var s' := AskBegin(s, sender, now, ref, answerer, amount).value;
            && s' == Opened(s, q, ref, s'.log) && s.nextId + 1 < UINT256_LIMIT
            && answerer != ZERO_ADDRESS && amount > 0 && q.deadline < UINT64_LIMIT
  {
  }

  // Opening a question raises the liabilities by its amount before the funds arrive.
  lemma AskBeginEffect(s: State, sender: Address, now: nat, ref: Bytes32, answerer: Address, amount: Uint128, d: int)
    requires Balanced(s, d) && sender != ZERO_ADDRESS && sender != s.self
    ensures var r := AskBegin(s, sender, now, ref, answerer, amount);
            r.Ok? ==> Balanced(r.value, d - amount) && r.value.locked
  {
    var r := AskBegin(s, sender, now, ref, answerer, amount);
    if r.Ok? {
      var q := Question(sender, answerer, amount, now % UINT64_LIMIT + s.answerWindow, Open);
      AskBeginOpens(s, sender, now, ref, answerer, amount);
      OpenedEffect(s, q, ref, r.value.log, d);
    }
  }

  lemma PullEffect(s: State, from: Address, amount: nat, d: int)
    requires Balanced(s, d) && from != s.self
    ensures var r := PullFunds(s, from, amount); r.Ok? ==> Balanced(r.value, d + amount)
  {
    if PullFunds(s, from, amount).Ok? {
      MoveKeepsSupply(s.token.balances, from, s.self, amount);
    }
  }

  lemma PushEffect(s: State, to: Address, amount: nat, d: int)
    requires Balanced(s, d) && to != s.self
    ensures var r := PushFunds(s, to, amount); r.Ok? ==> Balanced(r.value, d - amount)
  {
    if PushFunds(s, to, amount).Ok? {
      MoveKeepsSupply(s.token.balances, s.self, to, amount);
    }
  }

  lemma WithdrawBeginEffect(s: State, sender: Address, d: int)
    requires Balanced(s, d)
    ensures var r := WithdrawBegin(s, sender);
            r.Ok? ==> Balanced(r.value, d + At(s.withdrawable, sender)) && r.value.locked
  {
    SumUpdate(s.withdrawable, sender, 0);
  }

  lemma CreditEffect(w: map<Address, nat>, to: Address, amount: nat)
    ensures var r := Credit(w, to, amount); r.Ok? ==> Sum(r.value) == Sum(w) + amount
  {
    SumUpdate(w, to, At(w, to) + amount);
  }

  lemma CreditsEffect(w: map<Address, nat>, payee: Address, payout: nat, feeTo: Address, fee: nat)
    requires payee != ZERO_ADDRESS && feeTo != ZERO_ADDRESS && ZERO_ADDRESS !in w
    ensures var r := Credits(w, payee, payout, feeTo, fee);
            r.Ok? ==> Sum(r.value) == Sum(w) + payout + fee && ZERO_ADDRESS !in r.value
  {
    CreditEffect(w, payee, payout);
    var w1 := Credit(w, payee, payout);
    if w1.Ok? {
      CreditEffect(w1.value, feeTo, fee);
    }
  }

  lemma StatusKeepsRecords(self: Address, nextId: nat, questions: map<nat, Question>, refs: map<nat, Bytes32>,
                           id: nat, status: Status)
    requires GoodRecords(self, nextId, questions, refs) && id in questions && status != NoStatus
    ensures GoodRecords(self, nextId, questions[id := questions[id].(status := status)], refs)
  {
  }

  // A settlement turns an open amount into credits of the same total.
  lemma SettleEffect(s: State, id: nat, status: Status, payee: Address, payout: nat, fee: nat, event: Event, d: int)
    requires Balanced(s, d) && QuestionAt(s, id).status == Open && status != Open && status != NoStatus
    requires payout + fee == QuestionAt(s, id).amount && payee != ZERO_ADDRESS
    ensures var r := Settle(s, id, status, payee, payout, fee, event); r.Ok? ==> Balanced(r.value, d)
  {
    CreditsEffect(s.withdrawable, payee, payout, s.feeAddress, fee);
    StatusKeepsRecords(s.self, s.nextId, s.questions, s.questionRef, id, status);
    WriteQuestion(s, id, QuestionAt(s, id).(status := status));
  }

  // Who is entitled to what when a question settles with a given outcome under the current
  // parameters: the answerer is paid less the answer fee, the asker is refunded less the cancel
  // fee, and a declined or reclaimed question is refunded in full. bps is the rate of the fee.
  datatype Shares = Shares(payee: Address, payout: nat, feeTo: Address, fee: nat, bps: nat)

  function FeeRate(s: State, outcome: Status): nat {
    match outcome
    case Answered => s.answerFeeBps
    case Cancelled => s.cancelFeeBps
    case _ => 0
  }

  function Entitled(s: State, q: Question, outcome: Status): Shares {
    var fee := q.amount * FeeRate(s, outcome) / BPS_DENOMINATOR;
    Shares(if outcome == Answered then q.answerer else q.asker, if fee <= q.amount then q.amount - fee else 0,
           s.feeAddress, fee, FeeRate(s, outcome))
  }

  predicate IsSettlement(a: Action) {
    a.Answer? || a.Decline? || a.Cancel? || a.Reclaim?
  }

  function Outcome(a: Action): Status
    requires IsSettlement(a)
  {
    match a
    case Answer(_) => Answered
    case Decline(_) => Declined
    case Cancel(_) => Cancelled
    case Reclaim(_) => Reclaimed
  }

  function SettledEvent(s: State, id: nat, outcome: Status): Event {
    match outcome
    case Answered => QuestionAnswered(id, RefAt(s, id), QuestionAt(s, id).answerer)
    case Declined => QuestionDeclined(id, RefAt(s, id))
    case Cancelled => QuestionCancelled(id, RefAt(s, id))
    case _ => QuestionReclaimed(id, RefAt(s, id))
  }

  function SettleAs(s: State, id: nat, outcome: Status): Result<State, Error> {
    var shares := Entitled(s, QuestionAt(s, id), outcome);
    if QuestionAt(s, id).amount < shares.fee then Err(Panic)
    else Settle(s, id, outcome, shares.payee, shares.payout, shares.fee, SettledEvent(s, id, outcome))
  }

  // Who may settle, and when: only the answerer answers or declines, only the asker cancels and
  // only before the deadline, anyone reclaims from the deadline on; always once, never while paused.
  predicate MaySettle(s: State, tx: Tx)
    requires IsSettlement(tx.action)
  {
    var q := QuestionAt(s, tx.action.id);
    && tx.sender != ZERO_ADDRESS && tx.sender != s.self
    && !s.paused && !s.locked && q.status == Open
    && match tx.action
       case Cancel(_) => tx.sender == q.asker && tx.now < q.deadline
       case Reclaim(_) => q.deadline <= tx.now
       case _ => tx.sender == q.answerer
  }

  lemma ProductGrows(a: nat, b: nat, c: nat)
    requires b <= c
    ensures a * b <= a * c
  {
  }

  lemma FeeWithinCap(amount: nat, rate: nat, cap: nat)
    requires rate <= cap
    ensures BPS_DENOMINATOR * (amount * rate / BPS_DENOMINATOR) <= amount * cap
  {
    ProductGrows(amount, rate, cap);
    var product := amount * rate;
    assert BPS_DENOMINATOR * (product / BPS_DENOMINATOR) <= product;
  }

  lemma FeeIsExact(amount: nat, bps: nat)
    ensures ExactFee(amount, bps, amount * bps / BPS_DENOMINATOR)
  {
    var product := amount * bps;
    assert product == 10_000 * (product / 10_000) + product % 10_000;
  }

  // The shares of an outcome split the amount exactly, and the fee is the stored rate's, within the
  // documented caps: an answered question pays at least nine tenths, a cancelled one refunds at least
  // nineteen twentieths, a declined or reclaimed one refunds everything.
  lemma SharesSplitAmount(s: State, q: Question, outcome: Status)
    requires s.answerFeeBps <= MAX_ANSWER_FEE_BPS && s.cancelFeeBps <= MAX_CANCEL_FEE_BPS
    ensures var h := Entitled(s, q, outcome);
            && h.payout + h.fee == q.amount
            && h.bps == (if outcome == Answered then s.answerFeeBps
                         else if outcome == Cancelled then s.cancelFeeBps
                         else 0)
            && ExactFee(q.amount, h.bps, h.fee)
            && 10 * h.payout >= 9 * q.amount
            && (outcome == Cancelled ==> 20 * h.payout >= 19 * q.amount)
            && (outcome == Declined || outcome == Reclaimed ==> h.payout == q.amount)
  {
    var rate := FeeRate(s, outcome);
    FeeIsExact(q.amount, rate);
    FeeWithinCap(q.amount, rate, MAX_ANSWER_FEE_BPS);
    if outcome == Cancelled {
      FeeWithinCap(q.amount, rate, MAX_CANCEL_FEE_BPS);
    }
  }

  // Every settlement entry point is the same operation, on the entitlement of its outcome; it is
  // refused exactly when the caller may not settle, or when a credit would overflow.
  lemma SettlementReduces(s: State, tx: Tx)
    requires Shaped(s) && IsSettlement(tx.action)
    ensures MaySettle(s, tx) ==> Execute(s, tx) == SettleAs(s, tx.action.id, Outcome(tx.action))
    ensures !MaySettle(s, tx) ==> Execute(s, tx).Err?
  {
    SharesSplitAmount(s, QuestionAt(s, tx.action.id), Outcome(tx.action));
  }

  lemma SettlementEffect(s: State, tx: Tx, d: int)
    requires Balanced(s, d) && IsSettlement(tx.action)
    ensures var r := Execute(s, tx); r.Ok? ==> Balanced(r.value, d) && r.value.locked == s.locked
  {
    var id, outcome := tx.action.id, Outcome(tx.action);
    SettlementReduces(s, tx);
    if MaySettle(s, tx) {
      var q := QuestionAt(s, id);
      SharesSplitAmount(s, q, outcome);
      var h := Entitled(s, q, outcome);
      SettleEffect(s, id, outcome, h.payee, h.payout, h.fee, SettledEvent(s, id, outcome), d);
    }
  }

  // What no administrative call touches.
  predicate SameBooks(s: State, s': State) {
    && s'.self == s.self && s'.locked == s.locked && s'.token == s.token && s'.donated == s.donated
    && s'.questions == s.questions && s'.questionRef == s.questionRef
    && s'.nextId == s.nextId && s'.withdrawable == s.withdrawable
  }

  lemma AdminKeepsBooks(s: State, sender: Address, a: Admin)
    requires Administer(s, sender, a).Ok?
    ensures SameBooks(s, Administer(s, sender, a).value)
  {
  }

  lemma AdminKeepsCaps(s: State, sender: Address, a: Admin)
    requires GoodParameters(s.feeAddress, s.answerFeeBps, s.cancelFeeBps, s.answerWindow)
    requires Administer(s, sender, a).Ok?
    ensures var s' := Administer(s, sender, a).value;
            GoodParameters(s'.feeAddress, s'.answerFeeBps, s'.cancelFeeBps, s'.answerWindow)
  {
  }

  lemma AdminEffect(s: State, sender: Address, a: Admin, d: int)
    requires Balanced(s, d)
    ensures var r := Administer(s, sender, a); r.Ok? ==> Balanced(r.value, d) && r.value.locked == s.locked
  {
    if Administer(s, sender, a).Ok? {
      AdminKeepsBooks(s, sender, a);
      AdminKeepsCaps(s, sender, a);
    }
  }

  lemma ElsewhereEffect(s: State, o: Outside, d: int)
    requires Balanced(s, d)
    ensures var r := Elsewhere(s, o); r.Ok? ==> Balanced(r.value, d) && r.value.locked == s.locked
  {
    match o
    case Mint(to, amount) => SumUpdate(s.token.balances, to, At(s.token.balances, to) + amount);
    case Transfer(from, to, amount) =>
      if amount <= At(s.token.balances, from) {
        MoveKeepsSupply(s.token.balances, from, to, amount);
      }
    case Approve(_, _) =>
  }

  // The two parts of an ask around its permit.
  lemma AskParts(s: State, tx: Tx)
    requires tx.action.Ask? && Execute(s, tx).Ok?
    ensures var begun := AskBegin(s, tx.sender, tx.now, tx.action.ref, tx.action.answerer, tx.action.amount);
            && tx.sender != ZERO_ADDRESS && tx.sender != s.self && begun.Ok?
            && var pulled := PullFunds(Permit(begun.value, tx.sender, tx.action.permit), tx.sender, tx.action.amount);
               pulled.Ok? && Execute(s, tx) == Ok(Release(pulled.value))
  {
  }

  lemma PermitEffect(s: State, owner: Address, permit: Option<nat>, d: int)
    requires Balanced(s, d)
    ensures Balanced(Permit(s, owner, permit), d)
  {
  }

  lemma AskEffect(s: State, tx: Tx)
    requires Solvent(s) && tx.action.Ask?
    ensures var r := Execute(s, tx); r.Ok? ==> Solvent(r.value)
  {
    var Ask(ref, answerer, amount, permit) := tx.action;
    if Execute(s, tx).Ok? {
      AskParts(s, tx);
      AskBeginEffect(s, tx.sender, tx.now, ref, answerer, amount, 0);
      var s1 := AskBegin(s, tx.sender, tx.now, ref, answerer, amount).value;
      PermitEffect(s1, tx.sender, permit, 0 - amount as int);
      PullEffect(Permit(s1, tx.sender, permit), tx.sender, amount, 0 - amount as int);
    }
  }

  lemma WithdrawalEffect(s: State, tx: Tx)
    requires Solvent(s) && tx.action.Withdrawal?
    ensures var r := Execute(s, tx); r.Ok? ==> Solvent(r.value)
  {
    if Execute(s, tx).Ok? {
      var amount := At(s.withdrawable, tx.sender);
      WithdrawBeginEffect(s, tx.sender, 0);
      PushEffect(WithdrawBegin(s, tx.sender).value, tx.sender, amount, amount);
    }
  }

  // ---------------------------------------------------------------- solvency

  // Every transaction keeps the escrow solvent, whoever sends it and whatever it asks for.
  lemma TransactionKeepsSolvency(s: State, tx: Tx)
    requires Solvent(s)
    ensures Solvent(Apply(s, tx))
  {
    match tx.action
    case Ask(_, _, _, _) => AskEffect(s, tx);
    case Withdrawal => WithdrawalEffect(s, tx);
    case Administration(a) => AdminEffect(s, tx.sender, a, 0);
    case TokenActivity(o) => ElsewhereEffect(s, o, 0);
    case _ => SettlementEffect(s, tx, 0);
  }

  // A fresh deployment on any token ledger within the 256-bit supply.
  ghost predicate Deployed(s: State) {
    exists token, usdc, owner, feeAddress, answerFeeBps, cancelFeeBps, answerWindow ::
      && Deploy(s.self, token, usdc, owner, feeAddress, answerFeeBps, cancelFeeBps, answerWindow) == Ok(s)
      && s.self != ZERO_ADDRESS
      && Sum(token.balances) < UINT256_LIMIT
  }

  // The solvency invariant of the contract's documentation, in every reachable state: the sum of
  // open amounts plus the sum of all credits equals the token balance, up to direct donations.
  lemma {:induction false} SolventForever(s: State, txs: seq<Tx>)
    requires Deployed(s)
    ensures Solvent(Run(s, txs))
    ensures Held(Run(s, txs)) == OpenTotal(Run(s, txs)) + Sum(Run(s, txs).withdrawable) + Run(s, txs).donated
  {
    if |txs| == 0 {
      assert EscrowedById(s.questions) == map[];
    } else {
      SolventForever(s, txs[..|txs| - 1]);
      TransactionKeepsSolvency(Run(s, txs[..|txs| - 1]), txs[|txs| - 1]);
    }
  }
}
