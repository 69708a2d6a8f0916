// Each entry point on its own: exactly when it succeeds, why it is refused otherwise, and the whole state
// it leaves, in the contract's numbers.
module EscrowLaws {
  import opened Prelude
  import opened Sums
  import opened EscrowSpec
  import opened EscrowSafety
  import opened EscrowChange
  import opened EscrowLedger

  // ---------------------------------------------------------------- ask

  // What the asker lets the escrow pull: the permit's value if one is set, or what was approved before.
  function Allowed(s: State, tx: Tx): nat
    requires tx.action.Ask?
  {
    if tx.action.permit.Some? then tx.action.permit.value else At(s.token.allowances, tx.sender)
  }

  // The next id is below the 256-bit limit, and the deadline fits 64 bits.
  predicate WordsFit(s: State, now: nat) {
    && s.nextId + 1 < 0x1_0000_0000_0000_0000_0000_0000_0000_0000_0000_0000_0000_0000_0000_0000_0000_0000
    && now % 0x1_0000_0000_0000_0000 + s.answerWindow < 0x1_0000_0000_0000_0000
  }

  // In a solvent state an ask succeeds exactly when all its conditions hold, whatever the amount.
  lemma AskSucceedsIff(s: State, tx: Tx)
    requires Solvent(s) && tx.action.Ask? && tx.sender != 0 && tx.sender != s.self
    ensures Execute(s, tx).Ok?
            <==> && !s.paused && tx.action.answerer != 0 && tx.action.amount > 0 && WordsFit(s, tx.now)
                 && tx.action.amount <= At(s.token.balances, tx.sender) && tx.action.amount <= Allowed(s, tx)
  {
  }

  // Otherwise the first condition that fails is the reason.
  lemma AskRefused(s: State, tx: Tx)
    requires Solvent(s) && tx.action.Ask? && tx.sender != 0 && tx.sender != s.self
    ensures Execute(s, tx) == Err(EnforcedPause) <==> s.paused
    ensures Execute(s, tx) == Err(ZeroAddress) <==> !s.paused && tx.action.answerer == 0
    ensures Execute(s, tx) == Err(ZeroAmount) <==> !s.paused && tx.action.answerer != 0 && tx.action.amount == 0
    ensures Execute(s, tx) == Err(Panic)
            <==> !s.paused && tx.action.answerer != 0 && tx.action.amount > 0 && !WordsFit(s, tx.now)
    ensures Execute(s, tx) == Err(TokenFailed)
            <==> && !s.paused && tx.action.answerer != 0 && tx.action.amount > 0 && WordsFit(s, tx.now)
                 && (At(s.token.balances, tx.sender) < tx.action.amount || Allowed(s, tx) < tx.action.amount)
  {
  }

  // An allowance of the maximal word is not used up.
  function AllowanceLeft(allowed: nat, amount: nat): int {
    if allowed == 0xFFFF_FFFF_FFFF_FFFF_FFFF_FFFF_FFFF_FFFF_FFFF_FFFF_FFFF_FFFF_FFFF_FFFF_FFFF_FFFF then allowed
    else allowed - amount
  }

  lemma AskMovesTokens(s: State, tx: Tx)
    requires Solvent(s) && tx.action.Ask? && Execute(s, tx).Ok?
    ensures var token' := Apply(s, tx).token;
            && Shifted(s.token.balances, token'.balances, tx.sender, s.self, tx.action.amount)
            && At(token'.allowances, tx.sender) == AllowanceLeft(Allowed(s, tx), tx.action.amount)
            && (forall a :: a != tx.sender ==> At(token'.allowances, a) == At(s.token.allowances, a))
  {
    AskParts(s, tx);
  }

  // The record, the ref, the event, the tokens and the allowance of a successful ask; and nothing else.
  lemma AskLeaves(s: State, tx: Tx)
    requires Solvent(s) && tx.action.Ask? && Execute(s, tx).Ok?
    ensures var s', id := Apply(s, tx), s.nextId;
            var deadline := tx.now % 0x1_0000_0000_0000_0000 + s.answerWindow;
            && s' == s.(nextId := id + 1,
                        questions := s.questions[id := Question(tx.sender, tx.action.answerer, tx.action.amount,
                                                                deadline, Open)],
                        questionRef := s.questionRef[id := tx.action.ref],
                        log := s.log + [QuestionAsked(id, tx.action.ref, tx.sender, tx.action.answerer,
                                                      tx.action.amount, deadline)],
                        token := s'.token)
            && Shifted(s.token.balances, s'.token.balances, tx.sender, s.self, tx.action.amount)
            && At(s'.token.allowances, tx.sender) == AllowanceLeft(Allowed(s, tx), tx.action.amount)
            && (forall a :: a != tx.sender ==> At(s'.token.allowances, a) == At(s.token.allowances, a))
  {
    AskMovesTokens(s, tx);
    AskParts(s, tx);
  }

  // ---------------------------------------------------------------- settle

  // Why a settlement is refused.
  lemma SettlementRefused(s: State, tx: Tx)
    requires Solvent(s) && IsSettlement(tx.action) && tx.sender != 0 && tx.sender != s.self
    ensures var q, r := QuestionAt(s, tx.action.id), Execute(s, tx);
            && (r == Err(EnforcedPause) <==> s.paused)
            && (r == Err(NotOpen) <==> !s.paused && q.status != Open)
            && (r == Err(NotAnswerer) <==> && !s.paused && q.status == Open && tx.sender != q.answerer
                                           && (tx.action.Answer? || tx.action.Decline?))
            && (r == Err(NotAsker) <==> !s.paused && q.status == Open && tx.action.Cancel? && tx.sender != q.asker)
            && (r == Err(DeadlinePassed) <==> && !s.paused && q.status == Open && tx.action.Cancel?
                                              && tx.sender == q.asker && q.deadline <= tx.now)
            && (r == Err(DeadlineNotPassed) <==> !s.paused && q.status == Open && tx.action.Reclaim?
                                                 && tx.now < q.deadline)
  {
    SettlementSucceedsIff(s, tx);
  }

  // The stored answer fee on an answer, the stored cancel fee on a cancel, and no fee otherwise.
  function RateOf(s: State, a: Action): nat {
    if a.Answer? then s.answerFeeBps else if a.Cancel? then s.cancelFeeBps else 0
  }

  // An answer pays the answerer; the other three refund the asker.
  function PayeeOf(q: Question, a: Action): Address {
    if a.Answer? then q.answerer else q.asker
  }

  function StatusAfter(a: Action): Status {
    if a.Answer? then Answered else if a.Decline? then Declined else if a.Cancel? then Cancelled else Reclaimed
  }

  lemma SettledState(s: State, id: nat, outcome: Status)
    requires Shaped(s) && QuestionAt(s, id).status == Open && SettleAs(s, id, outcome).Ok?
    ensures var s', h := SettleAs(s, id, outcome).value, Entitled(s, QuestionAt(s, id), outcome);
            && s' == s.(questions := s.questions[id := s.questions[id].(status := outcome)],
                        withdrawable := s'.withdrawable, log := s'.log)
            && (forall a :: At(s'.withdrawable, a) == At(s.withdrawable, a) + ShareOf(h, a))
  {
  }

  // The exact fee of the stored rate, what is left to the payee, the status and the two credits of a
  // successful settlement; and nothing else.
  lemma SettlementLeaves(s: State, tx: Tx) returns (fee: nat)
    requires Solvent(s) && IsSettlement(tx.action) && Execute(s, tx).Ok?
    ensures var s', id, q := Apply(s, tx), tx.action.id, QuestionAt(s, tx.action.id);
            && 10_000 * fee <= q.amount * RateOf(s, tx.action) < 10_000 * (fee + 1)
            && fee <= q.amount && id in s.questions
            && s' == s.(questions := s.questions[id := q.(status := StatusAfter(tx.action))],
                        withdrawable := s'.withdrawable, log := s'.log)
            && (forall a :: At(s'.withdrawable, a)
                            == At(s.withdrawable, a)
                               + (if a == PayeeOf(q, tx.action) then q.amount - fee else 0)
                               + (if a == s.feeAddress then fee else 0))
  {
    var id, outcome := tx.action.id, Outcome(tx.action);
    SettlementSucceedsIff(s, tx);
    SettlementReduces(s, tx);
    SharesSplitAmount(s, QuestionAt(s, id), outcome);
    SettledState(s, id, outcome);
    fee := Entitled(s, QuestionAt(s, id), outcome).fee;
  }

  // The one event of a settlement carries its id, its ref, and the answerer if it is an answer.
  lemma SettlementEmits(s: State, tx: Tx)
    requires Solvent(s) && IsSettlement(tx.action) && Execute(s, tx).Ok?
    ensures var id := tx.action.id;
            Apply(s, tx).log
            == s.log + [match tx.action
                        case Answer(_) => QuestionAnswered(id, RefAt(s, id), QuestionAt(s, id).answerer)
                        case Decline(_) => QuestionDeclined(id, RefAt(s, id))
                        case Cancel(_) => QuestionCancelled(id, RefAt(s, id))
                        case _ => QuestionReclaimed(id, RefAt(s, id))]
  {
    SettlementRecords(s, tx);
  }

  // A credit is a checked addition: it fails exactly when it would not fit 256 bits.
  lemma CreditIsChecked(w: map<Address, nat>, to: Address, amount: nat)
    ensures var r, limit := Credit(w, to, amount),
                            0x1_0000_0000_0000_0000_0000_0000_0000_0000_0000_0000_0000_0000_0000_0000_0000_0000;
            && (r.Ok? <==> At(w, to) + amount < limit) && (r.Err? ==> r == Err(Panic))
            && (r.Ok? ==> forall a :: At(r.value, a) == At(w, a) + if a == to then amount else 0)
  {
  }

  // ---------------------------------------------------------------- withdraw

  // A withdrawal hands the sender its credit, zeroes it and logs it; nothing else changes, and it is
  // refused only to a sender without credit.
  lemma WithdrawalLeaves(s: State, tx: Tx)
    requires Solvent(s) && tx.action.Withdrawal? && tx.sender != 0 && tx.sender != s.self
    ensures var s', credit := Apply(s, tx), At(s.withdrawable, tx.sender);
            if credit == 0 then Execute(s, tx) == Err(NothingToWithdraw)
            else
              && Execute(s, tx).Ok?
              && At(s'.token.balances, tx.sender) == At(s.token.balances, tx.sender) + credit
              && At(s'.token.balances, s.self) == At(s.token.balances, s.self) - credit
              && (forall a :: a != tx.sender && a != s.self ==> At(s'.token.balances, a) == At(s.token.balances, a))
              && s'.token.allowances == s.token.allowances
              && At(s'.withdrawable, tx.sender) == 0
              && (forall a :: a != tx.sender ==> At(s'.withdrawable, a) == At(s.withdrawable, a))
              && s' == s.(withdrawable := s'.withdrawable, token := s'.token,
                          log := s.log + [Withdrawn(tx.sender, credit)])
  {
    WithdrawalSucceedsIff(s, tx);
    if At(s.withdrawable, tx.sender) > 0 {
      WithdrawalRecords(s, tx);
      WithdrawalKeepsRest(s, tx);
    }
  }

  lemma WithdrawalKeepsRest(s: State, tx: Tx)
    requires Solvent(s) && tx.action.Withdrawal? && Execute(s, tx).Ok?
    ensures var s' := Apply(s, tx);
            && s' == s.(withdrawable := s'.withdrawable, token := s'.token, log := s'.log)
            && s'.token.allowances == s.token.allowances
  {
  }

  // While another call is suspended, each of these is refused for that reason, unless a pause comes first.
  lemma LockedRefused(s: State, tx: Tx)
    requires s.locked && tx.sender != 0 && tx.sender != s.self
    requires tx.action.Ask? || tx.action.Withdrawal? || IsSettlement(tx.action)
    ensures Execute(s, tx) == Err(if s.paused && !tx.action.Withdrawal? then EnforcedPause else ReentrantCall)
  {
  }

  // ---------------------------------------------------------------- admin

  // Who may make the call, and which values it takes.
  predicate MayAdminister(s: State, sender: Address, a: Admin) {
    && sender == (if a.AcceptOwnership? then s.pendingOwner else s.owner)
    && match a
       case SetAnswerFee(bps) => bps <= 1_000
       case SetCancelFee(bps) => bps <= 500
       case SetAnswerWindow(window) => 1 <= window <= 2_592_000
       case SetFeeAddress(to) => to != 0
       case Pause => !s.paused
       case Unpause => s.paused
       case _ => true
  }

  // Exactly then the call succeeds, and the stored value is the one asked for; nothing else changes.
  lemma AdminLeaves(s: State, sender: Address, a: Admin)
    ensures Administer(s, sender, a).Ok? <==> MayAdminister(s, sender, a)
    ensures Administer(s, sender, a).Ok? ==>
              var s' := Administer(s, sender, a).value;
              && s'.answerFeeBps == (if a.SetAnswerFee? then a.bps else s.answerFeeBps)
              && s'.cancelFeeBps == (if a.SetCancelFee? then a.bps else s.cancelFeeBps)
              && s'.answerWindow == (if a.SetAnswerWindow? then a.window else s.answerWindow)
              && s'.feeAddress == (if a.SetFeeAddress? then a.to else s.feeAddress)
              && s'.paused == (a.Pause? || (s.paused && !a.Unpause?))
              && s'.owner == (if a.AcceptOwnership? then sender else if a.RenounceOwnership? then 0 else s.owner)
              && s'.pendingOwner == (if a.TransferOwnership? then a.to
                                     else if a.AcceptOwnership? || a.RenounceOwnership? then 0
                                     else s.pendingOwner)
              && s'.log == s.log + ParameterEvents(a) && SameBooks(s, s')
  {
  }

  // The setters of parameters announce the new value.
  function ParameterEvents(a: Admin): seq<Event> {
    match a
    case SetAnswerFee(bps) => [ParameterUpdated("AnswerFeeUpdated", bps)]
    case SetCancelFee(bps) => [ParameterUpdated("CancelFeeUpdated", bps)]
    case SetAnswerWindow(window) => [ParameterUpdated("AnswerWindowUpdated", window)]
    case SetFeeAddress(to) => [ParameterUpdated("FeeAddressUpdated", to)]
    case _ => []
  }

  // Why an administrative call is refused.
  lemma AdminRefused(s: State, sender: Address, a: Admin)
    ensures var r := Administer(s, sender, a);
            var authorized := sender == if a.AcceptOwnership? then s.pendingOwner else s.owner;
            && (r == Err(Unauthorized) <==> !authorized)
            && (r == Err(FeeTooHigh) <==> && authorized && ((a.SetAnswerFee? && a.bps > 1_000)
                                                            || (a.SetCancelFee? && a.bps > 500)))
            && (r == Err(InvalidWindow) <==> && authorized && a.SetAnswerWindow?
                                             && (a.window == 0 || a.window > 2_592_000))
            && (r == Err(ZeroAddress) <==> authorized && a.SetFeeAddress? && a.to == 0)
            && (r == Err(EnforcedPause) <==> authorized && a.Pause? && s.paused)
            && (r == Err(ExpectedPause) <==> authorized && a.Unpause? && !s.paused)
  {
  }

  // ---------------------------------------------------------------- deployment

  // A deployment succeeds exactly within the caps, and starts empty with the given parameters.
  lemma DeploymentLeaves(self: Address, token: Token, usdc: Address, owner: Address, feeAddress: Address,
                         answerFeeBps: nat, cancelFeeBps: nat, answerWindow: nat)
    ensures var r := Deploy(self, token, usdc, owner, feeAddress, answerFeeBps, cancelFeeBps, answerWindow);
            && (r == Err(InvalidOwner) <==> owner == 0)
            && (r == Err(ZeroAddress) <==> owner != 0 && (usdc == 0 || feeAddress == 0))
            && (r == Err(FeeTooHigh) <==> && owner != 0 && usdc != 0 && feeAddress != 0
                                          && (answerFeeBps > 1_000 || cancelFeeBps > 500))
            && (r.Ok? <==> && owner != 0 && usdc != 0 && feeAddress != 0 && answerFeeBps <= 1_000 && cancelFeeBps <= 500
                           && 1 <= answerWindow <= 2_592_000)
            && (r.Err? && r != Err(InvalidOwner) && r != Err(ZeroAddress) && r != Err(FeeTooHigh)
                ==> r == Err(InvalidWindow))
            && (r.Ok? ==>
                  var s := r.value;
                  && s.self == self && s.owner == owner && s.feeAddress == feeAddress && s.token == token
                  && s.answerFeeBps == answerFeeBps && s.cancelFeeBps == cancelFeeBps && s.answerWindow == answerWindow
                  && !s.paused && !s.locked && s.pendingOwner == 0 && s.nextId == 1
                  && s.questions == map[] && s.questionRef == map[] && s.withdrawable == map[] && s.log == [])
  {
  }
}
