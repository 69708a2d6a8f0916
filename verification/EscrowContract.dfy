// The contract itself: storage that each entry point updates in place, step by step, and restores when
// it reverts. Every entry point is proved to do exactly what the specification function of its name says.
module EscrowContract {
  import opened Prelude
  import opened Sums
  import opened EscrowSpec
  import EscrowSafety

  // The token the contract calls, as far as it uses it.
  class Erc20 {
    var balances: map<Address, nat>
    var allowances: map<Address, nat>

    constructor (balances: map<Address, nat>, allowances: map<Address, nat>)
      ensures this.balances == balances && this.allowances == allowances
    {
      this.balances, this.allowances := balances, allowances;
    }

    function Ledger(): Token
      reads this
    {
      Token(balances, allowances)
    }

    method TransferFrom(from: Address, to: Address, amount: nat) returns (ok: bool)
      modifies this
      ensures ok <==> amount <= At(old(allowances), from) && amount <= At(old(balances), from)
      ensures !ok ==> Ledger() == old(Ledger())
      ensures ok ==> balances == Move(old(balances), from, to, amount)
                     && allowances == old(allowances)[from := if At(old(allowances), from) == UINT256_LIMIT - 1
                                                              then At(old(allowances), from)
                                                              else At(old(allowances), from) - amount]
    {
      var allowance := At(allowances, from);
      if allowance < amount || At(balances, from) < amount {
        return false;
      }
      balances := balances[from := At(balances, from) - amount];
      balances := balances[to := At(balances, to) + amount];
      allowances := allowances[from := if allowance == UINT256_LIMIT - 1 then allowance else allowance - amount];
      ok := true;
    }

    method Transfer(from: Address, to: Address, amount: nat) returns (ok: bool)
      modifies this`balances
      ensures ok <==> to != ZERO_ADDRESS && amount <= At(old(balances), from)
      ensures !ok ==> balances == old(balances)
      ensures ok ==> balances == Move(old(balances), from, to, amount)
    {
      if to == ZERO_ADDRESS || At(balances, from) < amount {
        return false;
      }
      balances := balances[from := At(balances, from) - amount];
      balances := balances[to := At(balances, to) + amount];
      ok := true;
    }

    // A permit call with what it sets, or one that fails and changes nothing.
    method Permit(owner: Address, value: Option<nat>)
      modifies this`allowances
      ensures allowances == if value.Some? then old(allowances)[owner := value.value] else old(allowances)
    {
      if value.Some? {
        allowances := allowances[owner := value.value];
      }
    }
  }

  // An entry point either reverts with the state untouched or moves to the specified state.
  predicate Follows<T(==)>(before: State, spec: Result<State, Error>, after: State, r: Result<T, Error>, value: T) {
    match spec
    case Ok(s) => after == s && r == Ok(value)
    case Err(e) => after == before && r == Err(e)
  }

  class Escrow {
    const self: Address
    const usdc: Erc20
    var owner: Address
    var pendingOwner: Address
    var paused: bool
    var locked: bool
    var feeAddress: Address
    var answerWindow: nat
    var answerFeeBps: nat
    var cancelFeeBps: nat
    var nextId: nat
    var questions: map<nat, Question>
    var questionRef: map<nat, Bytes32>
    var withdrawable: map<Address, nat>
    var log: seq<Event>
    // What the address held before the contract existed; not storage, carried for the snapshot only.
    const donated: nat

    // The journalled state of the contract and the token, which a revert goes back to.
    function Snapshot(): State
      reads this, usdc
    {
      State(self, owner, pendingOwner, paused, locked, feeAddress, answerWindow, answerFeeBps, cancelFeeBps, nextId,
            questions, questionRef, withdrawable, usdc.Ledger(), log, donated)
    }

    constructor (self: Address, usdc: Erc20, owner: Address, feeAddress: Address, answerFeeBps: nat, cancelFeeBps: nat,
                 answerWindow: nat)
      ensures this.self == self && this.usdc == usdc
      ensures Snapshot() == State(self, owner, ZERO_ADDRESS, false, false, feeAddress, answerWindow, answerFeeBps,
                                  cancelFeeBps, 1, map[], map[], map[], usdc.Ledger(), [], At(usdc.balances, self))
    {
      this.self, this.usdc, this.owner, this.pendingOwner := self, usdc, owner, ZERO_ADDRESS;
      this.paused, this.locked, this.feeAddress := false, false, feeAddress;
      this.answerWindow, this.answerFeeBps, this.cancelFeeBps := answerWindow, answerFeeBps, cancelFeeBps;
      this.nextId, this.questions, this.questionRef, this.withdrawable, this.log := 1, map[], map[], map[], [];
      this.donated := At(usdc.balances, self);
    }

    // Back to the state before the call: only what entry points write before they can still fail.
    method Revert(before: State)
      requires before == Snapshot().(locked := before.locked, nextId := before.nextId, questions := before.questions,
                                     questionRef := before.questionRef, withdrawable := before.withdrawable,
                                     log := before.log, token := before.token)
      modifies this`locked, this`nextId, this`questions, this`questionRef, this`withdrawable, this`log, usdc
      ensures Snapshot() == before
    {
      locked, nextId, questions := before.locked, before.nextId, before.questions;
      questionRef, withdrawable, log := before.questionRef, before.withdrawable, before.log;
      usdc.balances, usdc.allowances := before.token.balances, before.token.allowances;
    }

    // ---------------------------------------------------------------- ask

    // The shared private part: an id, the Open record and the event.
    method CreateQuestion(sender: Address, now: nat, ref: Bytes32, answerer: Address, amount: Uint128)
      returns (r: Result<nat, Error>)
      requires !paused && locked
      modifies this`nextId, this`questions, this`questionRef, this`log
      ensures Follows(old(Snapshot()), AskBegin(old(Snapshot()).(locked := false), sender, now, ref, answerer, amount),
                      Snapshot(), r, old(nextId))
    {
      if answerer == ZERO_ADDRESS { return Err(ZeroAddress); }
      if amount == 0 { return Err(ZeroAmount); }
      if nextId + 1 >= UINT256_LIMIT { return Err(Panic); }
      var deadline := now % UINT64_LIMIT + answerWindow;
      if deadline >= UINT64_LIMIT { return Err(Panic); }
      var id := nextId;
      nextId := nextId + 1;
      questions := questions[id := Question(sender, answerer, amount, deadline, Open)];
      questionRef := questionRef[id := ref];
      log := log + [QuestionAsked(id, ref, sender, answerer, amount, deadline)];
      r := Ok(id);
    }

    // safeTransferFrom(sender, this, amount), the last thing an ask does.
    method PullFunds(sender: Address, amount: nat) returns (ok: bool)
      modifies usdc
      ensures match EscrowSpec.PullFunds(old(Snapshot()), sender, amount)
              case Err(_) => !ok
              case Ok(s) => ok && Snapshot() == s
    {
      ok := usdc.TransferFrom(sender, self, amount);
    }

    method AskQuestion(sender: Address, now: nat, ref: Bytes32, answerer: Address, amount: Uint128)
      returns (r: Result<nat, Error>)
      modifies this, usdc
      ensures Follows(old(Snapshot()), EscrowSpec.AskQuestion(old(Snapshot()), sender, now, ref, answerer, amount,
                                                                     None), Snapshot(), r, old(nextId))
    {
      if paused { return Err(EnforcedPause); }
      if locked { return Err(ReentrantCall); }
      var before := Snapshot();
      locked := true;
      r := CreateQuestion(sender, now, ref, answerer, amount);
      if r.Err? {
        Revert(before);
        return;
      }
      var pulled := PullFunds(sender, amount);
      if !pulled {
        Revert(before);
        return Err(TokenFailed);
      }
      locked := false;
    }

    // permit is what the permit call sets the allowance to, if it succeeds; a failure is ignored.
    method AskQuestionWithPermit(sender: Address, now: nat, ref: Bytes32, answerer: Address, amount: Uint128,
                                 permit: Option<nat>) returns (r: Result<nat, Error>)
      modifies this, usdc
      ensures Follows(old(Snapshot()), EscrowSpec.AskQuestion(old(Snapshot()), sender, now, ref, answerer, amount,
                                                                     permit), Snapshot(), r, old(nextId))
    {
      if paused { return Err(EnforcedPause); }
      if locked { return Err(ReentrantCall); }
      var before := Snapshot();
      locked := true;
      r := CreateQuestion(sender, now, ref, answerer, amount);
      if r.Err? {
        Revert(before);
        return;
      }
      ghost var asked := Snapshot();
      usdc.Permit(sender, permit);
      assert Snapshot() == EscrowSpec.Permit(asked, sender, permit);
      var pulled := PullFunds(sender, amount);
      if !pulled {
        Revert(before);
        return Err(TokenFailed);
      }
      locked := false;
    }

    // ---------------------------------------------------------------- settle

    // A checked addition to the pull-payment ledger; nothing is written when it overflows.
    method AddCredit(to: Address, amount: nat) returns (ok: bool)
      modifies this`withdrawable
      ensures match Credit(old(withdrawable), to, amount)
              case Ok(w) => ok && withdrawable == w
              case Err(_) => !ok && withdrawable == old(withdrawable)
    {
      if At(withdrawable, to) + amount >= UINT256_LIMIT { return false; }
      withdrawable := withdrawable[to := At(withdrawable, to) + amount];
      ok := true;
    }

    method AddCredits(payee: Address, payout: nat, fee: nat) returns (ok: bool)
      modifies this`withdrawable
      ensures match Credits(old(withdrawable), payee, payout, feeAddress, fee)
              case Err(_) => !ok
              case Ok(w) => ok && withdrawable == w
    {
      ok := AddCredit(payee, payout);
      if ok && fee != 0 {
        ok := AddCredit(feeAddress, fee);
      }
    }

    // The effects the four settlements share, in their order: terminal status, the payee's credit, the
    // fee's credit if there is a fee, and the event. A failed one is left half done for its caller to revert.
    method WriteSettlement(id: nat, status: Status, payee: Address, payout: nat, fee: nat, event: Event)
      returns (ok: bool)
      modifies this`questions, this`withdrawable, this`log
      ensures match EscrowSpec.Settle(old(Snapshot()), id, status, payee, payout, fee, event)
              case Err(_) => !ok
              case Ok(s) => ok && Snapshot() == s
    {
      questions := questions[id := (if id in questions then questions[id] else NO_QUESTION).(status := status)];
      ok := AddCredits(payee, payout, fee);
      if ok {
        log := log + [event];
      }
    }

    method Settle(id: nat, status: Status, payee: Address, payout: nat, fee: nat, event: Event)
      returns (r: Result<(), Error>)
      requires !locked
      modifies this, usdc
      ensures Follows(old(Snapshot()), EscrowSpec.Settle(old(Snapshot()), id, status, payee, payout, fee, event),
                      Snapshot(), r, ())
    {
      var before := Snapshot();
      locked := true;
      var written := WriteSettlement(id, status, payee, payout, fee, event);
      if !written {
        Revert(before);
        return Err(Panic);
      }
      locked := false;
      r := Ok(());
    }

    method AnswerQuestion(sender: Address, id: nat) returns (r: Result<(), Error>)
      modifies this, usdc
      ensures Follows(old(Snapshot()), EscrowSpec.AnswerQuestion(old(Snapshot()), sender, id), Snapshot(), r, ())
    {
      if paused { return Err(EnforcedPause); }
      if locked { return Err(ReentrantCall); }
      var q := if id in questions then questions[id] else NO_QUESTION;
      if q.status != Open { return Err(NotOpen); }
      if sender != q.answerer { return Err(NotAnswerer); }
      var fee := q.amount * answerFeeBps / BPS_DENOMINATOR;
      if q.amount < fee { return Err(Panic); }
      var ref := if id in questionRef then questionRef[id] else 0;
      r := Settle(id, Answered, q.answerer, q.amount - fee, fee, QuestionAnswered(id, ref, q.answerer));
    }

    method DeclineQuestion(sender: Address, id: nat) returns (r: Result<(), Error>)
      modifies this, usdc
      ensures Follows(old(Snapshot()), EscrowSpec.DeclineQuestion(old(Snapshot()), sender, id), Snapshot(), r, ())
    {
      if paused { return Err(EnforcedPause); }
      if locked { return Err(ReentrantCall); }
      var q := if id in questions then questions[id] else NO_QUESTION;
      if q.status != Open { return Err(NotOpen); }
      if sender != q.answerer { return Err(NotAnswerer); }
      var ref := if id in questionRef then questionRef[id] else 0;
      r := Settle(id, Declined, q.asker, q.amount, 0, QuestionDeclined(id, ref));
    }

    method CancelQuestion(sender: Address, now: nat, id: nat) returns (r: Result<(), Error>)
      modifies this, usdc
      ensures Follows(old(Snapshot()), EscrowSpec.CancelQuestion(old(Snapshot()), sender, now, id), Snapshot(), r, ())
    {
      if paused { return Err(EnforcedPause); }
      if locked { return Err(ReentrantCall); }
      var q := if id in questions then questions[id] else NO_QUESTION;
      if q.status != Open { return Err(NotOpen); }
      if sender != q.asker { return Err(NotAsker); }
      if now >= q.deadline { return Err(DeadlinePassed); }
      var fee := q.amount * cancelFeeBps / BPS_DENOMINATOR;
      if q.amount < fee { return Err(Panic); }
      var ref := if id in questionRef then questionRef[id] else 0;
      r := Settle(id, Cancelled, q.asker, q.amount - fee, fee, QuestionCancelled(id, ref));
    }

    method ReclaimQuestion(now: nat, id: nat) returns (r: Result<(), Error>)
      modifies this, usdc
      ensures Follows(old(Snapshot()), EscrowSpec.ReclaimQuestion(old(Snapshot()), now, id), Snapshot(), r, ())
    {
      if paused { return Err(EnforcedPause); }
      if locked { return Err(ReentrantCall); }
      var q := if id in questions then questions[id] else NO_QUESTION;
      if q.status != Open { return Err(NotOpen); }
      if now < q.deadline { return Err(DeadlineNotPassed); }
      var ref := if id in questionRef then questionRef[id] else 0;
      r := Settle(id, Reclaimed, q.asker, q.amount, 0, QuestionReclaimed(id, ref));
    }

    // ---------------------------------------------------------------- withdraw

    method Withdraw(sender: Address) returns (r: Result<(), Error>)
      modifies this, usdc
      ensures Follows(old(Snapshot()), EscrowSpec.Withdraw(old(Snapshot()), sender), Snapshot(), r, ())
    {
      if locked { return Err(ReentrantCall); }
      var amount := At(withdrawable, sender);
      if amount == 0 { return Err(NothingToWithdraw); }
      var before := Snapshot();
      locked := true;
      withdrawable := withdrawable[sender := 0];
      var sent := usdc.Transfer(self, sender, amount);
      if !sent {
        Revert(before);
        return Err(TokenFailed);
      }
      log := log + [Withdrawn(sender, amount)];
      locked := false;
      r := Ok(());
    }

    // ---------------------------------------------------------------- admin

    method SetAnswerFee(sender: Address, bps: nat) returns (r: Result<(), Error>)
      modifies this`answerFeeBps, this`log
      ensures Follows(old(Snapshot()), Administer(old(Snapshot()), sender, Admin.SetAnswerFee(bps)), Snapshot(), r, ())
    {
      if sender != owner { return Err(Unauthorized); }
      if bps > MAX_ANSWER_FEE_BPS { return Err(FeeTooHigh); }
      answerFeeBps := bps;
      log := log + [ParameterUpdated("AnswerFeeUpdated", bps)];
      r := Ok(());
    }

    method SetCancelFee(sender: Address, bps: nat) returns (r: Result<(), Error>)
      modifies this`cancelFeeBps, this`log
      ensures Follows(old(Snapshot()), Administer(old(Snapshot()), sender, Admin.SetCancelFee(bps)), Snapshot(), r, ())
    {
      if sender != owner { return Err(Unauthorized); }
      if bps > MAX_CANCEL_FEE_BPS { return Err(FeeTooHigh); }
      cancelFeeBps := bps;
      log := log + [ParameterUpdated("CancelFeeUpdated", bps)];
      r := Ok(());
    }

    method SetAnswerWindow(sender: Address, window: nat) returns (r: Result<(), Error>)
      modifies this`answerWindow, this`log
      ensures Follows(old(Snapshot()), Administer(old(Snapshot()), sender, Admin.SetAnswerWindow(window)),
                      Snapshot(), r, ())
    {
      if sender != owner { return Err(Unauthorized); }
      if window == 0 || window > MAX_ANSWER_WINDOW { return Err(InvalidWindow); }
      answerWindow := window;
      log := log + [ParameterUpdated("AnswerWindowUpdated", window)];
      r := Ok(());
    }

    method SetFeeAddress(sender: Address, to: Address) returns (r: Result<(), Error>)
      modifies this`feeAddress, this`log
      ensures Follows(old(Snapshot()), Administer(old(Snapshot()), sender, Admin.SetFeeAddress(to)), Snapshot(), r, ())
    {
      if sender != owner { return Err(Unauthorized); }
      if to == ZERO_ADDRESS { return Err(ZeroAddress); }
      feeAddress := to;
      log := log + [ParameterUpdated("FeeAddressUpdated", to)];
      r := Ok(());
    }

    // pause and unpause.
    method SetPaused(sender: Address, pause: bool) returns (r: Result<(), Error>)
      modifies this`paused
      ensures Follows(old(Snapshot()), Administer(old(Snapshot()), sender,
                                                         if pause then Admin.Pause else Admin.Unpause),
                      Snapshot(), r, ())
    {
      if sender != owner { return Err(Unauthorized); }
      if pause && paused { return Err(EnforcedPause); }
      if !pause && !paused { return Err(ExpectedPause); }
      paused := pause;
      r := Ok(());
    }

    // Ownership moves in two steps; renouncing leaves no owner and no candidate.
    method TransferOwnership(sender: Address, to: Address) returns (r: Result<(), Error>)
      modifies this`pendingOwner
      ensures Follows(old(Snapshot()), Administer(old(Snapshot()), sender, Admin.TransferOwnership(to)),
                      Snapshot(), r, ())
    {
      if sender != owner { return Err(Unauthorized); }
      pendingOwner := to;
      r := Ok(());
    }

    method AcceptOwnership(sender: Address) returns (r: Result<(), Error>)
      modifies this`owner, this`pendingOwner
      ensures Follows(old(Snapshot()), Administer(old(Snapshot()), sender, Admin.AcceptOwnership), Snapshot(), r, ())
    {
      if sender != pendingOwner { return Err(Unauthorized); }
      owner, pendingOwner := sender, ZERO_ADDRESS;
      r := Ok(());
    }

    method RenounceOwnership(sender: Address) returns (r: Result<(), Error>)
      modifies this`owner, this`pendingOwner
      ensures Follows(old(Snapshot()), Administer(old(Snapshot()), sender, Admin.RenounceOwnership), Snapshot(), r, ())
    {
      if sender != owner { return Err(Unauthorized); }
      owner, pendingOwner := ZERO_ADDRESS, ZERO_ADDRESS;
      r := Ok(());
    }
  }

  // The constructor's checks, and the contract when they pass.
  method Deploy(self: Address, usdc: Erc20, usdcAddress: Address, owner: Address, feeAddress: Address,
                answerFeeBps: nat, cancelFeeBps: nat, answerWindow: nat) returns (r: Result<Escrow, Error>)
    ensures match EscrowSpec.Deploy(self, usdc.Ledger(), usdcAddress, owner, feeAddress, answerFeeBps, cancelFeeBps,
                                    answerWindow)
            case Ok(s) => r.Ok? && fresh(r.value) && r.value.usdc == usdc && r.value.Snapshot() == s
            case Err(e) => r == Err(e)
  {
    if owner == ZERO_ADDRESS { return Err(InvalidOwner); }
    if usdcAddress == ZERO_ADDRESS || feeAddress == ZERO_ADDRESS { return Err(ZeroAddress); }
    if answerFeeBps > MAX_ANSWER_FEE_BPS || cancelFeeBps > MAX_CANCEL_FEE_BPS { return Err(FeeTooHigh); }
    if answerWindow == 0 || answerWindow > MAX_ANSWER_WINDOW { return Err(InvalidWindow); }
    var escrow := new Escrow(self, usdc, owner, feeAddress, answerFeeBps, cancelFeeBps, answerWindow);
    r := Ok(escrow);
  }

  // ---------------------------------------------------------------- transactions

  method Govern(escrow: Escrow, sender: Address, a: Admin) returns (ok: bool)
    modifies escrow, escrow.usdc
    ensures match Administer(old(escrow.Snapshot()), sender, a)
            case Ok(s) => ok && escrow.Snapshot() == s
            case Err(_) => !ok && escrow.Snapshot() == old(escrow.Snapshot())
  {
    var r: Result<(), Error>;
    match a {
      case SetAnswerFee(bps) => r := escrow.SetAnswerFee(sender, bps);
      case SetCancelFee(bps) => r := escrow.SetCancelFee(sender, bps);
      case SetAnswerWindow(window) => r := escrow.SetAnswerWindow(sender, window);
      case SetFeeAddress(to) => r := escrow.SetFeeAddress(sender, to);
      case Pause => r := escrow.SetPaused(sender, true);
      case Unpause => r := escrow.SetPaused(sender, false);
      case TransferOwnership(to) => r := escrow.TransferOwnership(sender, to);
      case AcceptOwnership => r := escrow.AcceptOwnership(sender);
      case RenounceOwnership => r := escrow.RenounceOwnership(sender);
    }
    ok := r.Ok?;
  }

  // One transaction against the contract: its entry point runs whole or not at all.
  method Dispatch(escrow: Escrow, tx: Tx) returns (ok: bool)
    requires !tx.action.TokenActivity? && tx.sender != ZERO_ADDRESS && tx.sender != escrow.self
    modifies escrow, escrow.usdc
    ensures match Execute(old(escrow.Snapshot()), tx)
            case Ok(s) => ok && escrow.Snapshot() == s
            case Err(_) => !ok && escrow.Snapshot() == old(escrow.Snapshot())
  {
    var asked: Result<nat, Error>;
    var r: Result<(), Error>;
    match tx.action {
      case Ask(ref, answerer, amount, permit) =>
        asked := escrow.AskQuestionWithPermit(tx.sender, tx.now, ref, answerer, amount, permit);
        return asked.Ok?;
      case Answer(id) => r := escrow.AnswerQuestion(tx.sender, id);
      case Decline(id) => r := escrow.DeclineQuestion(tx.sender, id);
      case Cancel(id) => r := escrow.CancelQuestion(tx.sender, tx.now, id);
      case Reclaim(id) => r := escrow.ReclaimQuestion(tx.now, id);
      case Withdrawal => r := escrow.Withdraw(tx.sender);
      case Administration(a) =>
        ok := Govern(escrow, tx.sender, a);
        return;
    }
    ok := r.Ok?;
  }

  // Any sequence of transactions by anyone: the contract goes through the specified run, and a solvent
  // contract is solvent after each of them.
  method Play(escrow: Escrow, txs: seq<Tx>)
    requires forall tx :: tx in txs ==> !tx.action.TokenActivity?
    modifies escrow, escrow.usdc
    ensures escrow.Snapshot() == Run(old(escrow.Snapshot()), txs)
    ensures EscrowSafety.Solvent(old(escrow.Snapshot())) ==> EscrowSafety.Solvent(escrow.Snapshot())
  {
    ghost var before := escrow.Snapshot();
    for i := 0 to |txs|
      invariant escrow.Snapshot() == Run(before, txs[..i])
      invariant EscrowSafety.Solvent(before) ==> EscrowSafety.Solvent(escrow.Snapshot())
    {
      assert txs[..i + 1][..i] == txs[..i];
      if EscrowSafety.Solvent(before) {
        EscrowSafety.TransactionKeepsSolvency(escrow.Snapshot(), txs[i]);
      }
      if txs[i].sender != ZERO_ADDRESS && txs[i].sender != escrow.self {
        var ok := Dispatch(escrow, txs[i]);
      }
    }
    assert txs[..|txs|] == txs;
  }
}
