// The escrow with a token that may call back: an ask or a withdrawal is suspended at its token
// call, anything may be called meanwhile, and it then returns or reverts.
module Reentrancy {
  import opened Prelude
  import opened Sums
  import opened EscrowSpec
  import opened EscrowSafety

  // The suspended outer call, whether its funds have moved yet, and the state it would revert to.
  datatype Frame =
    | Idle
    | Asking(asker: Address, amount: nat, moved: bool, saved: State)
    | Withdrawing(who: Address, amount: nat, moved: bool, saved: State)

  datatype Machine = Machine(s: State, frame: Frame)

  datatype TokenEvent =
    | Call(tx: Tx)           // a top-level transaction when idle, a call back otherwise
    | PermitRuns(value: nat) // the permit of a suspended ask succeeds
    | FundsMove
    | Return
    | Revert

  // Only asks and withdrawals suspend; everything else runs to its end.
  ghost function Begin(s: State, tx: Tx): Machine {
    if tx.sender == ZERO_ADDRESS || tx.sender == s.self then Machine(s, Idle)
    else
      match tx.action
      case Ask(ref, answerer, amount, _) =>
        (match AskBegin(s, tx.sender, tx.now, ref, answerer, amount)
         case Err(_) => Machine(s, Idle)
         case Ok(s1) => Machine(s1, Asking(tx.sender, amount, false, s)))
      case Withdrawal =>
        (match WithdrawBegin(s, tx.sender)
         case Err(_) => Machine(s, Idle)
         case Ok(s1) => Machine(s1, Withdrawing(tx.sender, At(s.withdrawable, tx.sender), false, s)))
      case _ => Machine(Apply(s, tx), Idle)
  }

  ghost function MoveFunds(m: Machine): Machine {
    match m.frame
    case Asking(asker, amount, false, saved) =>
      (match PullFunds(m.s, asker, amount)
       case Err(_) => Machine(saved, Idle)
       case Ok(s1) => Machine(s1, Asking(asker, amount, true, saved)))
    case Withdrawing(who, amount, false, saved) =>
      (match PushFunds(m.s, who, amount)
       case Err(_) => Machine(saved, Idle)
       case Ok(s1) => Machine(s1, Withdrawing(who, amount, true, saved)))
    case _ => m
  }

  ghost function Next(m: Machine, e: TokenEvent): Machine {
    match e
    case Call(tx) => if m.frame.Idle? then Begin(m.s, tx) else m.(s := Apply(m.s, tx))
    case PermitRuns(value) =>
      if m.frame.Asking? && !m.frame.moved then m.(s := Permit(m.s, m.frame.asker, Some(value))) else m
    case FundsMove => MoveFunds(m)
    case Return =>
      (match m.frame
       case Asking(_, _, true, _) => Machine(Release(m.s), Idle)
       case Withdrawing(who, amount, true, _) => Machine(Release(Emit(m.s, Withdrawn(who, amount))), Idle)
       case _ => m)
    case Revert => if m.frame.Idle? then m else Machine(m.frame.saved, Idle)
  }

  ghost function Play(m: Machine, events: seq<TokenEvent>): Machine {
    if |events| == 0 then m else Next(Play(m, events[..|events| - 1]), events[|events| - 1])
  }

  // At rest the escrow is solvent. Inside an ask whose funds have not moved it is short by the
  // amount asked; inside a withdrawal whose funds have not moved it holds that much too much.
  ghost predicate Safe(m: Machine) {
    match m.frame
    case Idle => Solvent(m.s)
    case Asking(asker, amount, moved, saved) =>
      Solvent(saved) && m.s.locked && asker != m.s.self
      && Balanced(m.s, if moved then 0 else 0 - amount)
    case Withdrawing(who, amount, moved, saved) =>
      Solvent(saved) && m.s.locked && who != m.s.self && who != ZERO_ADDRESS
      && Balanced(m.s, if moved then 0 else amount)
  }

  predicate Guarded(a: Action) {
    a.Ask? || a.Withdrawal? || IsSettlement(a)
  }

  lemma GuardedReverts(s: State, tx: Tx)
    requires Shaped(s) && s.locked && Guarded(tx.action)
    ensures Execute(s, tx).Err?
  {
    if IsSettlement(tx.action) {
      SettlementReduces(s, tx);
    }
  }

  predicate SameMoney(s: State, s': State) {
    && s'.self == s.self && s'.locked == s.locked
    && s'.questions == s.questions && s'.questionRef == s.questionRef
    && s'.nextId == s.nextId && s'.withdrawable == s.withdrawable
  }

  lemma AdminKeepsMoney(s: State, sender: Address, a: Admin)
    requires Administer(s, sender, a).Ok?
    ensures SameMoney(s, Administer(s, sender, a).value)
  {
  }

  // While a call is suspended every entry point that moves money reverts, and what can still run
  // changes no question, no credit and not the lock.
  lemma LockHolds(s: State, tx: Tx)
    requires Shaped(s) && s.locked
    ensures Guarded(tx.action) ==> Execute(s, tx).Err?
    ensures SameMoney(s, Apply(s, tx))
  {
    if Guarded(tx.action) {
      GuardedReverts(s, tx);
    } else if tx.action.Administration? && Execute(s, tx).Ok? {
      AdminKeepsMoney(s, tx.sender, tx.action.admin);
    }
  }

  lemma CallbackKeepsBalance(s: State, tx: Tx, imbalance: int)
    requires Balanced(s, imbalance) && s.locked
    ensures Balanced(Apply(s, tx), imbalance)
  {
    LockHolds(s, tx);
    match tx.action
    case Administration(a) => AdminEffect(s, tx.sender, a, imbalance);
    case TokenActivity(o) => ElsewhereEffect(s, o, imbalance);
    case _ =>
  }

  lemma BeginIsSafe(s: State, tx: Tx)
    requires Solvent(s)
    ensures Safe(Begin(s, tx))
  {
    TransactionKeepsSolvency(s, tx);
    if tx.sender != ZERO_ADDRESS && tx.sender != s.self {
      match tx.action
      case Ask(ref, answerer, amount, _) => AskBeginEffect(s, tx.sender, tx.now, ref, answerer, amount, 0);
      case Withdrawal => WithdrawBeginEffect(s, tx.sender, 0);
      case _ =>
    }
  }

  lemma MoveIsSafe(m: Machine)
    requires Safe(m)
    ensures Safe(MoveFunds(m))
  {
    match m.frame
    case Asking(asker, amount, false, _) => PullEffect(m.s, asker, amount, 0 - amount);
    case Withdrawing(who, amount, false, _) => PushEffect(m.s, who, amount, amount);
    case _ =>
  }

  lemma NextIsSafe(m: Machine, e: TokenEvent)
    requires Safe(m)
    ensures Safe(Next(m, e))
  {
    match e
    case Call(tx) =>
      if m.frame.Idle? {
        BeginIsSafe(m.s, tx);
      } else {
        LockHolds(m.s, tx);
        var due := if m.frame.moved then 0 else m.frame.amount as int;
        CallbackKeepsBalance(m.s, tx, if m.frame.Asking? then 0 - due else due);
      }
    case FundsMove => MoveIsSafe(m);
    case _ =>
  }

  // Whatever the token does during permit, transferFrom and transfer, in whatever order: the
  // suspended-call equation holds at every moment, and full solvency whenever no call is suspended.
  lemma {:induction false} SafeUnderReentrancy(m: Machine, events: seq<TokenEvent>)
    requires Safe(m)
    ensures Safe(Play(m, events))
    ensures Play(m, events).frame.Idle? ==> Solvent(Play(m, events).s)
  {
    if |events| > 0 {
      SafeUnderReentrancy(m, events[..|events| - 1]);
      NextIsSafe(Play(m, events[..|events| - 1]), events[|events| - 1]);
    }
  }

  // A suspended withdrawal always finds its money: the transfer cannot fail for lack of funds.
  lemma SuspendedWithdrawalIsCovered(m: Machine)
    requires Safe(m) && m.frame.Withdrawing? && !m.frame.moved
    ensures PushFunds(m.s, m.frame.who, m.frame.amount).Ok?
  {
  }

  // With a token that does not call back, the suspended form is the atomic entry point, whether it
  // succeeds or reverts.
  lemma UninterruptedAskIsAtomic(s: State, tx: Tx)
    requires tx.action.Ask?
    ensures var suspended := Next(Machine(s, Idle), Call(tx));
            var permitted := if tx.action.permit.None? then suspended
                             else Next(suspended, PermitRuns(tx.action.permit.value));
            Next(Next(permitted, FundsMove), Return) == Machine(Apply(s, tx), Idle)
  {
  }

  lemma UninterruptedWithdrawalIsAtomic(s: State, tx: Tx)
    requires tx.action.Withdrawal?
    ensures Next(Next(Next(Machine(s, Idle), Call(tx)), FundsMove), Return) == Machine(Apply(s, tx), Idle)
  {
  }
}
