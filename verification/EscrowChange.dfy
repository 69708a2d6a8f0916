// A compact account of what one transaction does to the escrow's records, from which the run-long
// properties are derived without looking into the entry points again.
module EscrowChange {
  import opened Prelude
  import opened Sums
  import opened EscrowSpec
  import opened EscrowSafety

  datatype Change =
    | Asked(question: Question, ref: Bytes32)
    | Settled(id: nat, outcome: Status)
    | Paid(who: Address, amount: nat)
    | Unrecorded

  function ShareOf(h: Shares, who: Address): nat {
    (if who == h.payee then h.payout else 0) + (if who == h.feeTo then h.fee else 0)
  }

  predicate SameRecords(s: State, s': State) {
    s'.questions == s.questions && s'.questionRef == s.questionRef && s'.nextId == s.nextId
  }

  // An ask pulls its amount from the asker into the escrow.
  ghost predicate RecordsAsk(s: State, s': State, q: Question, ref: Bytes32) {
    && q.status == Open
    && s'.questions == s.questions[s.nextId := q]
    && s'.questionRef == s.questionRef[s.nextId := ref]
    && s'.nextId == s.nextId + 1
    && s'.withdrawable == s.withdrawable
    && Shifted(s.token.balances, s'.token.balances, q.asker, s.self, q.amount)
    && s'.log == s.log + [QuestionAsked(s.nextId, ref, q.asker, q.answerer, q.amount, q.deadline)]
  }

  // A settlement credits what its outcome entitles to, and moves no token.
  ghost predicate RecordsSettlement(s: State, s': State, id: nat, outcome: Status) {
    && QuestionAt(s, id).status == Open
    && outcome != Open && outcome != NoStatus
    && s'.questions == s.questions[id := QuestionAt(s, id).(status := outcome)]
    && s'.questionRef == s.questionRef && s'.nextId == s.nextId && s'.token == s.token
    && (forall a :: At(s'.withdrawable, a)
                    == At(s.withdrawable, a) + ShareOf(Entitled(s, QuestionAt(s, id), outcome), a))
    && s'.log == s.log + [SettledEvent(s, id, outcome)]
  }

  // A withdrawal hands the account's whole credit to that account.
  ghost predicate RecordsPayment(s: State, s': State, who: Address, amount: nat) {
    && SameRecords(s, s')
    && amount == At(s.withdrawable, who)
    && s'.withdrawable == s.withdrawable[who := 0]
    && Shifted(s.token.balances, s'.token.balances, s.self, who, amount)
    && s'.log == s.log + [Withdrawn(who, amount)]
  }

  predicate RecordsNothing(s: State, s': State) {
    && SameRecords(s, s')
    && s'.withdrawable == s.withdrawable
    && (s'.log == s.log
        || (|s'.log| == |s.log| + 1 && s'.log[..|s.log|] == s.log && s'.log[|s.log|].ParameterUpdated?))
  }

  ghost predicate Records(s: State, s': State, c: Change) {
    && s'.self == s.self
    && match c
       case Asked(q, ref) => RecordsAsk(s, s', q, ref)
       case Settled(id, outcome) => RecordsSettlement(s, s', id, outcome)
       case Paid(who, amount) => RecordsPayment(s, s', who, amount)
       case Unrecorded => RecordsNothing(s, s')
  }

  lemma AskRecords(s: State, tx: Tx)
    requires tx.action.Ask? && Execute(s, tx).Ok?
    ensures var q := Question(tx.sender, tx.action.answerer, tx.action.amount,
                              tx.now % UINT64_LIMIT + s.answerWindow, Open);
            Records(s, Apply(s, tx), Asked(q, tx.action.ref))
  {
  }

  lemma SettlementRecords(s: State, tx: Tx)
    requires Shaped(s) && IsSettlement(tx.action) && Execute(s, tx).Ok?
    ensures Records(s, Apply(s, tx), Settled(tx.action.id, Outcome(tx.action)))
  {
    SettlementReduces(s, tx);
    SettleAsRecords(s, tx.action.id, Outcome(tx.action));
  }

  lemma SettleAsRecords(s: State, id: nat, outcome: Status)
    requires QuestionAt(s, id).status == Open && outcome != Open && outcome != NoStatus
    requires SettleAs(s, id, outcome).Ok?
    ensures Records(s, SettleAs(s, id, outcome).value, Settled(id, outcome))
  {
  }

  lemma WithdrawalRecords(s: State, tx: Tx)
    requires tx.action.Withdrawal? && Execute(s, tx).Ok?
    ensures Records(s, Apply(s, tx), Paid(tx.sender, At(s.withdrawable, tx.sender)))
  {
  }

  lemma AdminRecords(s: State, sender: Address, a: Admin)
    requires Administer(s, sender, a).Ok?
    ensures Records(s, Administer(s, sender, a).value, Unrecorded)
  {
  }

  lemma OutsideRecords(s: State, o: Outside)
    requires Elsewhere(s, o).Ok?
    ensures Records(s, Elsewhere(s, o).value, Unrecorded)
  {
  }

  // What a transaction that succeeds records.
  function ChangeOf(s: State, tx: Tx): Change {
    match tx.action
    case Ask(ref, answerer, amount, _) =>
      Asked(Question(tx.sender, answerer, amount, tx.now % UINT64_LIMIT + s.answerWindow, Open), ref)
    case Withdrawal => Paid(tx.sender, At(s.withdrawable, tx.sender))
    case Administration(_) => Unrecorded
    case TokenActivity(_) => Unrecorded
    case _ => Settled(tx.action.id, Outcome(tx.action))
  }

  lemma SuccessRecords(s: State, tx: Tx)
    requires Shaped(s) && Execute(s, tx).Ok?
    ensures Records(s, Execute(s, tx).value, ChangeOf(s, tx))
  {
    match tx.action
    case Ask(_, _, _, _) => AskRecords(s, tx);
    case Withdrawal => WithdrawalRecords(s, tx);
    case Administration(a) => AdminRecords(s, tx.sender, a);
    case TokenActivity(o) => OutsideRecords(s, o);
    case _ => SettlementRecords(s, tx);
  }

  // Every transaction asks one question, settles one question, pays one account, or leaves the
  // records alone; a reverted one leaves everything alone.
  lemma Summary(s: State, tx: Tx) returns (c: Change)
    requires Shaped(s)
    ensures Records(s, Apply(s, tx), c)
    ensures c == if Execute(s, tx).Ok? then ChangeOf(s, tx) else Unrecorded
  {
    if Execute(s, tx).Ok? {
      SuccessRecords(s, tx);
      c := ChangeOf(s, tx);
    } else {
      c := Unrecorded;
    }
  }
}
