// The escrow contract as a function from states to outcomes: every entry point either reverts,
// leaving the caller with the old state, or returns the state after it. The two entry points
// that call the token are split at that call, so that a token which calls back can be
// interleaved with them.
module EscrowSpec {
  import opened Prelude
  import opened Sums

  type Address = nat
  // A 32-byte word, read as an unsigned number.
  type Bytes32 = w: nat | w < UINT256_LIMIT
  type Uint128 = n: nat | n < UINT128_LIMIT

  const UINT64_LIMIT := 0x1_0000_0000_0000_0000
  const UINT128_LIMIT := 0x1_0000_0000_0000_0000_0000_0000_0000_0000
  const UINT256_LIMIT := 0x1_0000_0000_0000_0000_0000_0000_0000_0000_0000_0000_0000_0000_0000_0000_0000_0000

  const ZERO_ADDRESS: Address := 0
  const BPS_DENOMINATOR := 10_000
  const MAX_ANSWER_FEE_BPS := 1000
  const MAX_CANCEL_FEE_BPS := 500
  const MAX_ANSWER_WINDOW := 30 * 24 * 3600

  // The zero value of the contract's Status enum, for an id that was never used, is NoStatus.
  datatype Status = NoStatus | Open | Answered | Declined | Cancelled | Reclaimed

  datatype Question = Question(asker: Address, answerer: Address, amount: nat, deadline: nat, status: Status)

  datatype Event =
    | QuestionAsked(id: nat, ref: Bytes32, asker: Address, answerer: Address, amount: nat, deadline: nat)
    | QuestionAnswered(id: nat, ref: Bytes32, answerer: Address)
    | QuestionDeclined(id: nat, ref: Bytes32)
    | QuestionCancelled(id: nat, ref: Bytes32)
    | QuestionReclaimed(id: nat, ref: Bytes32)
    | Withdrawn(who: Address, amount: nat)
    | ParameterUpdated(name: string, value: nat)

  datatype Error =
    | InvalidOwner | ZeroAddress | ZeroAmount | NotOpen | NotAnswerer | NotAsker | DeadlinePassed | DeadlineNotPassed
    | FeeTooHigh | InvalidWindow | NothingToWithdraw
    | EnforcedPause | ExpectedPause | ReentrantCall | Unauthorized | Panic | TokenFailed | NoSuchSender

  // The EIP-20 ledger of the escrowed token. allowances[a] is what a lets the escrow pull.
  datatype Token = Token(balances: map<Address, nat>, allowances: map<Address, nat>)

  // Contract storage, the token ledger, the emitted events, and one history variable: donated
  // counts what reached the escrow's address other than through an ask.
  datatype State = State(
    self: Address,
    owner: Address,
    pendingOwner: Address,
    paused: bool,
    locked: bool,
    feeAddress: Address,
    answerWindow: nat,
    answerFeeBps: nat,
    cancelFeeBps: nat,
    nextId: nat,
    questions: map<nat, Question>,
    questionRef: map<nat, Bytes32>,
    withdrawable: map<Address, nat>,
    token: Token,
    log: seq<Event>,
    donated: nat)

  const NO_QUESTION := Question(ZERO_ADDRESS, ZERO_ADDRESS, 0, 0, NoStatus)

  function QuestionAt(s: State, id: nat): Question {
    if id in s.questions then s.questions[id] else NO_QUESTION
  }

  function RefAt(s: State, id: nat): Bytes32 {
    if id in s.questionRef then s.questionRef[id] else 0
  }

  // ---------------------------------------------------------------- token

  function Held(s: State): nat {
    At(s.token.balances, s.self)
  }

  function Move(balances: map<Address, nat>, from: Address, to: Address, amount: nat): map<Address, nat>
    requires amount <= At(balances, from)
  {
    var debited := balances[from := At(balances, from) - amount];
    debited[to := At(debited, to) + amount]
  }

  // transferFrom(from, escrow, amount); an allowance of the maximal word is not consumed.
  function PullFunds(s: State, from: Address, amount: nat): Result<State, Error> {
    var allowance := At(s.token.allowances, from);
    if allowance < amount || At(s.token.balances, from) < amount then
      Err(TokenFailed)
    else
      var left := if allowance == UINT256_LIMIT - 1 then allowance else allowance - amount;
      Ok(s.(token := Token(Move(s.token.balances, from, s.self, amount), s.token.allowances[from := left])))
  }

  // transfer(to, amount) by the escrow.
  function PushFunds(s: State, to: Address, amount: nat): Result<State, Error> {
    if to == ZERO_ADDRESS || Held(s) < amount then
      Err(TokenFailed)
    else
      Ok(s.(token := s.token.(balances := Move(s.token.balances, s.self, to, amount))))
  }

  // ---------------------------------------------------------------- ask

  // An ask up to its token call: the checks, the record and the event, with the lock taken.
  function AskBegin(s: State, sender: Address, now: nat, ref: Bytes32, answerer: Address, amount: Uint128)
    : Result<State, Error>
  {
    var openedAt := now % UINT64_LIMIT;
    if s.paused then Err(EnforcedPause)
    else if s.locked then Err(ReentrantCall)
    else if answerer == ZERO_ADDRESS then Err(ZeroAddress)
    else if amount == 0 then Err(ZeroAmount)
    else if s.nextId + 1 >= UINT256_LIMIT then Err(Panic)
    else if openedAt + s.answerWindow >= UINT64_LIMIT then Err(Panic)
    else
      var id, deadline := s.nextId, openedAt + s.answerWindow;
      Ok(s.(locked := true,
            nextId := id + 1,
            questions := s.questions[id := Question(sender, answerer, amount, deadline, Open)],
            questionRef := s.questionRef[id := ref],
            log := s.log + [QuestionAsked(id, ref, sender, answerer, amount, deadline)]))
  }

  // The best-effort permit: on success it sets the allowance, on failure it changes nothing.
  function Permit(s: State, owner: Address, permit: Option<nat>): State {
    match permit
    case None => s
    case Some(value) => s.(token := s.token.(allowances := s.token.allowances[owner := value]))
  }

  function Release(s: State): State {
    s.(locked := false)
  }

  function AskEnd(s: State, sender: Address, amount: nat): Result<State, Error> {
    match PullFunds(s, sender, amount)
    case Err(e) => Err(e)
    case Ok(s1) => Ok(Release(s1))
  }

  function AskQuestion(s: State, sender: Address, now: nat, ref: Bytes32, answerer: Address, amount: Uint128,
                       permit: Option<nat>): Result<State, Error>
  {
    match AskBegin(s, sender, now, ref, answerer, amount)
    case Err(e) => Err(e)
    case Ok(s1) => AskEnd(Permit(s1, sender, permit), sender, amount)
  }

  // ---------------------------------------------------------------- settle

  function Fee(amount: nat, bps: nat): nat {
    amount * bps / BPS_DENOMINATOR
  }

  // A checked += on the pull-payment ledger.
  function Credit(w: map<Address, nat>, to: Address, amount: nat): Result<map<Address, nat>, Error> {
    if At(w, to) + amount >= UINT256_LIMIT then Err(Panic) else Ok(w[to := At(w, to) + amount])
  }

  // The payee's credit, then the fee's if there is a fee.
  function Credits(w: map<Address, nat>, payee: Address, payout: nat, feeTo: Address, fee: nat)
    : Result<map<Address, nat>, Error>
  {
    match Credit(w, payee, payout)
    case Err(e) => Err(e)
    case Ok(w1) => if fee == 0 then Ok(w1) else Credit(w1, feeTo, fee)
  }

  // Terminal status, the credits, and the event.
  function Settle(s: State, id: nat, status: Status, payee: Address, payout: nat, fee: nat, event: Event)
    : Result<State, Error>
  {
    match Credits(s.withdrawable, payee, payout, s.feeAddress, fee)
    case Err(e) => Err(e)
    case Ok(w) =>
      Ok(s.(questions := s.questions[id := QuestionAt(s, id).(status := status)],
            withdrawable := w,
            log := s.log + [event]))
  }

  function AnswerQuestion(s: State, sender: Address, id: nat): Result<State, Error> {
    var q := QuestionAt(s, id);
    if s.paused then Err(EnforcedPause)
    else if s.locked then Err(ReentrantCall)
    else if q.status != Open then Err(NotOpen)
    else if sender != q.answerer then Err(NotAnswerer)
    else
      var fee := Fee(q.amount, s.answerFeeBps);
      if q.amount < fee then Err(Panic)
      else Settle(s, id, Answered, q.answerer, q.amount - fee, fee, QuestionAnswered(id, RefAt(s, id), q.answerer))
  }

  function DeclineQuestion(s: State, sender: Address, id: nat): Result<State, Error> {
    var q := QuestionAt(s, id);
    if s.paused then Err(EnforcedPause)
    else if s.locked then Err(ReentrantCall)
    else if q.status != Open then Err(NotOpen)
    else if sender != q.answerer then Err(NotAnswerer)
    else Settle(s, id, Declined, q.asker, q.amount, 0, QuestionDeclined(id, RefAt(s, id)))
  }

  function CancelQuestion(s: State, sender: Address, now: nat, id: nat): Result<State, Error> {
    var q := QuestionAt(s, id);
    if s.paused then Err(EnforcedPause)
    else if s.locked then Err(ReentrantCall)
    else if q.status != Open then Err(NotOpen)
    else if sender != q.asker then Err(NotAsker)
    else if now >= q.deadline then Err(DeadlinePassed)
    else
      var fee := Fee(q.amount, s.cancelFeeBps);
      if q.amount < fee then Err(Panic)
      else Settle(s, id, Cancelled, q.asker, q.amount - fee, fee, QuestionCancelled(id, RefAt(s, id)))
  }

  function ReclaimQuestion(s: State, now: nat, id: nat): Result<State, Error> {
    var q := QuestionAt(s, id);
    if s.paused then Err(EnforcedPause)
    else if s.locked then Err(ReentrantCall)
    else if q.status != Open then Err(NotOpen)
    else if now < q.deadline then Err(DeadlineNotPassed)
    else Settle(s, id, Reclaimed, q.asker, q.amount, 0, QuestionReclaimed(id, RefAt(s, id)))
  }

  // ---------------------------------------------------------------- withdraw

  // A withdrawal up to its token call: the credit is zeroed and the lock taken. Not stopped by a pause.
  function WithdrawBegin(s: State, sender: Address): Result<State, Error> {
    if s.locked then Err(ReentrantCall)
    else if At(s.withdrawable, sender) == 0 then Err(NothingToWithdraw)
    else Ok(s.(locked := true, withdrawable := s.withdrawable[sender := 0]))
  }

  function Emit(s: State, event: Event): State {
    s.(log := s.log + [event])
  }

  function WithdrawEnd(s: State, sender: Address, amount: nat): Result<State, Error> {
    match PushFunds(s, sender, amount)
    case Err(e) => Err(e)
    case Ok(s1) => Ok(Release(Emit(s1, Withdrawn(sender, amount))))
  }

  function Withdraw(s: State, sender: Address): Result<State, Error> {
    match WithdrawBegin(s, sender)
    case Err(e) => Err(e)
    case Ok(s1) => WithdrawEnd(s1, sender, At(s.withdrawable, sender))
  }

  // ---------------------------------------------------------------- admin, not guarded by the lock

  datatype Admin =
    | SetAnswerFee(bps: nat)
    | SetCancelFee(bps: nat)
    | SetAnswerWindow(window: nat)
    | SetFeeAddress(to: Address)
    | Pause
    | Unpause
    | TransferOwnership(to: Address)
    | AcceptOwnership
    | RenounceOwnership

  function Administer(s: State, sender: Address, a: Admin): Result<State, Error> {
    if a.AcceptOwnership? then
      if sender != s.pendingOwner then Err(Unauthorized)
      else Ok(s.(owner := sender, pendingOwner := ZERO_ADDRESS))
    else if sender != s.owner then Err(Unauthorized)
    else
      match a
      case SetAnswerFee(bps) =>
        if bps > MAX_ANSWER_FEE_BPS then Err(FeeTooHigh)
        else Ok(Emit(s.(answerFeeBps := bps), ParameterUpdated("AnswerFeeUpdated", bps)))
      case SetCancelFee(bps) =>
        if bps > MAX_CANCEL_FEE_BPS then Err(FeeTooHigh)
        else Ok(Emit(s.(cancelFeeBps := bps), ParameterUpdated("CancelFeeUpdated", bps)))
      case SetAnswerWindow(window) =>
        if window == 0 || window > MAX_ANSWER_WINDOW then Err(InvalidWindow)
        else Ok(Emit(s.(answerWindow := window), ParameterUpdated("AnswerWindowUpdated", window)))
      case SetFeeAddress(to) =>
        if to == ZERO_ADDRESS then Err(ZeroAddress)
        else Ok(Emit(s.(feeAddress := to), ParameterUpdated("FeeAddressUpdated", to)))
      case Pause => if s.paused then Err(EnforcedPause) else Ok(s.(paused := true))
      case Unpause => if !s.paused then Err(ExpectedPause) else Ok(s.(paused := false))
      case TransferOwnership(to) => Ok(s.(pendingOwner := to))
      case RenounceOwnership => Ok(s.(owner := ZERO_ADDRESS, pendingOwner := ZERO_ADDRESS))
      case AcceptOwnership => Err(Unauthorized)
  }

  // ---------------------------------------------------------------- token activity outside the escrow

  datatype Outside =
    | Mint(to: Address, amount: nat)
    | Transfer(from: Address, to: Address, amount: nat)
    | Approve(owner: Address, amount: nat)

  // Minting stays within the 256-bit supply; the escrow itself sends nothing. What lands on the
  // escrow's address counts as donated.
  ghost function Elsewhere(s: State, o: Outside): Result<State, Error> {
    match o
    case Mint(to, amount) =>
      if Sum(s.token.balances) + amount >= UINT256_LIMIT then Err(TokenFailed)
      else Ok(s.(token := s.token.(balances := s.token.balances[to := At(s.token.balances, to) + amount]),
                 donated := s.donated + if to == s.self then amount else 0))
    case Transfer(from, to, amount) =>
      if from == s.self || At(s.token.balances, from) < amount then Err(TokenFailed)
      else Ok(s.(token := s.token.(balances := Move(s.token.balances, from, to, amount)),
                 donated := s.donated + if to == s.self then amount else 0))
    case Approve(owner, amount) =>
      if owner == s.self then Err(TokenFailed)
      else Ok(s.(token := s.token.(allowances := s.token.allowances[owner := amount])))
  }

  // ---------------------------------------------------------------- transactions and runs

  datatype Action =
    | Ask(ref: Bytes32, answerer: Address, amount: Uint128, permit: Option<nat>)
    | Answer(id: nat)
    | Decline(id: nat)
    | Cancel(id: nat)
    | Reclaim(id: nat)
    | Withdrawal
    | Administration(admin: Admin)
    | TokenActivity(outside: Outside)

  datatype Tx = Tx(sender: Address, now: nat, action: Action)

  // One transaction. The zero address signs nothing and the contract never sends one itself.
  ghost function Execute(s: State, tx: Tx): Result<State, Error> {
    if tx.sender == ZERO_ADDRESS || tx.sender == s.self then Err(NoSuchSender)
    else
      match tx.action
      case Ask(ref, answerer, amount, permit) => AskQuestion(s, tx.sender, tx.now, ref, answerer, amount, permit)
      case Answer(id) => AnswerQuestion(s, tx.sender, id)
      case Decline(id) => DeclineQuestion(s, tx.sender, id)
      case Cancel(id) => CancelQuestion(s, tx.sender, tx.now, id)
      case Reclaim(id) => ReclaimQuestion(s, tx.now, id)
      case Withdrawal => Withdraw(s, tx.sender)
      case Administration(a) => Administer(s, tx.sender, a)
      case TokenActivity(o) => Elsewhere(s, o)
  }

  // A reverted transaction leaves the state as it was.
  ghost function Apply(s: State, tx: Tx): State {
    match Execute(s, tx)
    case Ok(s') => s'
    case Err(_) => s
  }

  ghost function Run(s: State, txs: seq<Tx>): State {
    if |txs| == 0 then s else Apply(Run(s, txs[..|txs| - 1]), txs[|txs| - 1])
  }

  // The constructor, on a token ledger that may already hold tokens for the new address.
  function Deploy(self: Address, token: Token, usdc: Address, owner: Address, feeAddress: Address,
                  answerFeeBps: nat, cancelFeeBps: nat, answerWindow: nat): Result<State, Error>
  {
    if owner == ZERO_ADDRESS then Err(InvalidOwner)
    else if usdc == ZERO_ADDRESS || feeAddress == ZERO_ADDRESS then Err(ZeroAddress)
    else if answerFeeBps > MAX_ANSWER_FEE_BPS || cancelFeeBps > MAX_CANCEL_FEE_BPS then Err(FeeTooHigh)
    else if answerWindow == 0 || answerWindow > MAX_ANSWER_WINDOW then Err(InvalidWindow)
    else Ok(State(self, owner, ZERO_ADDRESS, false, false, feeAddress, answerWindow, answerFeeBps, cancelFeeBps,
                  1, map[], map[], map[], token, [], At(token.balances, self)))
  }
}
