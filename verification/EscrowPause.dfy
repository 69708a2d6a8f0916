// When the pause switch can lock money in: exactly when it is on and nobody is left who can turn it off.
module EscrowPause {
  import opened Prelude
  import opened Sums
  import opened EscrowSpec
  import opened EscrowSafety
  import opened EscrowLedger

  // The zero address signs nothing, and the contract sends no transaction.
  predicate CanSend(s: State, a: Address) {
    a != ZERO_ADDRESS && a != s.self
  }

  // Paused, with neither an owner nor a named candidate who can act.
  predicate Stopped(s: State) {
    s.paused && !CanSend(s, s.owner) && !CanSend(s, s.pendingOwner)
  }

  // ---------------------------------------------------------------- stopped for good

  lemma StoppedRefuses(s: State, tx: Tx)
    requires Shaped(s) && Stopped(s) && (tx.action.Ask? || tx.action.Administration? || IsSettlement(tx.action))
    ensures Execute(s, tx).Err?
  {
    if IsSettlement(tx.action) {
      SettlementReduces(s, tx);
    }
  }

  // Pause switch, owner and candidate, which only an administrative call moves.
  predicate SameControl(s: State, s': State) {
    s'.self == s.self && s'.paused == s.paused && s'.owner == s.owner && s'.pendingOwner == s.pendingOwner
  }

  lemma AskKeepsControl(s: State, tx: Tx)
    requires tx.action.Ask?
    ensures SameControl(s, Apply(s, tx))
  {
  }

  lemma SettlementKeepsControl(s: State, tx: Tx)
    requires Shaped(s) && IsSettlement(tx.action)
    ensures SameControl(s, Apply(s, tx))
  {
    SettlementReduces(s, tx);
  }

  // Neither a withdrawal nor token activity touches a question.
  lemma WithdrawalKeepsControl(s: State, tx: Tx)
    requires tx.action.Withdrawal?
    ensures SameControl(s, Apply(s, tx)) && Apply(s, tx).questions == s.questions
  {
  }

  lemma TokenKeepsControl(s: State, tx: Tx)
    requires tx.action.TokenActivity?
    ensures SameControl(s, Apply(s, tx)) && Apply(s, tx).questions == s.questions
  {
  }

  lemma StoppedStays(s: State, tx: Tx)
    requires Solvent(s) && Stopped(s)
    ensures Solvent(Apply(s, tx)) && Stopped(Apply(s, tx)) && Apply(s, tx).questions == s.questions
  {
    TransactionKeepsSolvency(s, tx);
    match tx.action
    case Withdrawal => WithdrawalKeepsControl(s, tx);
    case TokenActivity(_) => TokenKeepsControl(s, tx);
    case _ => StoppedRefuses(s, tx);
  }

  // A stopped contract never starts again, and every open question keeps its money in every continuation.
  lemma {:induction false} StoppedForever(s: State, txs: seq<Tx>)
    requires Solvent(s) && Stopped(s)
    ensures Solvent(Run(s, txs)) && Stopped(Run(s, txs))
    ensures Run(s, txs).questions == s.questions && OpenTotal(Run(s, txs)) == OpenTotal(s)
  {
    if |txs| > 0 {
      StoppedForever(s, txs[..|txs| - 1]);
      StoppedStays(Run(s, txs[..|txs| - 1]), txs[|txs| - 1]);
    }
  }

  // ---------------------------------------------------------------- who is left

  // A candidate is named by an owner who can act, and renouncing drops both.
  predicate CandidateHasOwner(s: State) {
    CanSend(s, s.pendingOwner) ==> CanSend(s, s.owner)
  }

  lemma AdminKeepsCandidate(s: State, sender: Address, a: Admin)
    requires CandidateHasOwner(s) && CanSend(s, sender) && Administer(s, sender, a).Ok?
    ensures CandidateHasOwner(Administer(s, sender, a).value)
  {
  }

  lemma CandidateStillHasOwner(s: State, tx: Tx)
    requires Shaped(s) && CandidateHasOwner(s)
    ensures CandidateHasOwner(Apply(s, tx))
  {
    match tx.action
    case Administration(a) =>
      if Execute(s, tx).Ok? {
        AdminKeepsCandidate(s, tx.sender, a);
      }
    case Ask(_, _, _, _) => AskKeepsControl(s, tx);
    case Withdrawal => WithdrawalKeepsControl(s, tx);
    case TokenActivity(_) => TokenKeepsControl(s, tx);
    case _ => SettlementKeepsControl(s, tx);
  }

  lemma {:induction false} CandidateAlwaysHasOwner(s: State, txs: seq<Tx>)
    requires Deployed(s)
    ensures CandidateHasOwner(Run(s, txs))
  {
    if |txs| > 0 {
      CandidateAlwaysHasOwner(s, txs[..|txs| - 1]);
      SolventForever(s, txs[..|txs| - 1]);
      CandidateStillHasOwner(Run(s, txs[..|txs| - 1]), txs[|txs| - 1]);
    }
  }

  // ---------------------------------------------------------------- a way out

  // Unpausing, where it is needed.
  function Resume(s: State): seq<Tx> {
    if s.paused then [Tx(s.owner, 0, Administration(Unpause))] else []
  }

  lemma ResumeWorks(s: State)
    requires Solvent(s) && (s.paused ==> CanSend(s, s.owner))
    ensures var r := Run(s, Resume(s)); Solvent(r) && r == s.(paused := false)
  {
    if s.paused {
      var unpause := Tx(s.owner, 0, Administration(Unpause));
      TransactionKeepsSolvency(s, unpause);
      assert [unpause][..0] == [] && Run(s, []) == s;
    }
  }

  lemma ReclaimIsOut(s: State, id: nat) returns (txs: seq<Tx>)
    requires Solvent(s) && QuestionAt(s, id).status == Open && (s.paused ==> CanSend(s, s.owner))
    ensures QuestionAt(Run(s, txs), id).status == Reclaimed
  {
    var q := QuestionAt(s, id);
    ResumeWorks(s);
    var reclaim := Tx(q.asker, q.deadline, Reclaim(id));
    ReclaimOne(Run(s, Resume(s)), q.asker, q.deadline, id);
    txs := Resume(s) + [reclaim];
    assert txs[..|txs| - 1] == Resume(s);
  }

  // In every reachable state an open question can ever be settled exactly when the contract is not
  // paused, or still has an owner who can act.
  lemma SettleableIff(s: State, txs: seq<Tx>, id: nat)
    requires Deployed(s) && QuestionAt(Run(s, txs), id).status == Open
    ensures var r := Run(s, txs);
            (exists more :: QuestionAt(Run(r, more), id).status != Open) <==> !r.paused || CanSend(r, r.owner)
  {
    var r := Run(s, txs);
    SolventForever(s, txs);
    CandidateAlwaysHasOwner(s, txs);
    if !r.paused || CanSend(r, r.owner) {
      var more := ReclaimIsOut(r, id);
    } else {
      forall more
        ensures QuestionAt(Run(r, more), id).status == Open
      {
        StoppedForever(r, more);
      }
    }
  }

  lemma DrainAfterResuming(s: State, txs: seq<Tx>) returns (more: seq<Tx>)
    requires Deployed(s) && (Run(s, txs).paused ==> CanSend(Run(s, txs), Run(s, txs).owner))
    ensures OpenTotal(Run(Run(s, txs), more)) == 0
  {
    var r := Run(s, txs);
    SolventForever(s, txs);
    ResumeWorks(r);
    RunConcat(s, txs, Resume(r));
    var m := Run(s, txs + Resume(r));
    var caller := m.self + 1;
    var ids, who := DrainExists(s, txs + Resume(r), caller, UINT64_LIMIT);
    var drain := Reclaims(caller, UINT64_LIMIT, ids) + Withdrawals(UINT64_LIMIT, who);
    RunConcat(r, Resume(r), drain);
    more := Resume(r) + drain;
  }

  // And all open money can leave exactly when there is none, or the same holds.
  lemma EscrowEmptiesIff(s: State, txs: seq<Tx>)
    requires Deployed(s)
    ensures var r := Run(s, txs);
            (exists more :: OpenTotal(Run(r, more)) == 0) <==> OpenTotal(r) == 0 || !r.paused || CanSend(r, r.owner)
  {
    var r := Run(s, txs);
    SolventForever(s, txs);
    CandidateAlwaysHasOwner(s, txs);
    if !r.paused || CanSend(r, r.owner) {
      var more := DrainAfterResuming(s, txs);
    } else if OpenTotal(r) == 0 {
      assert OpenTotal(Run(r, [])) == 0;
    } else {
      forall more
        ensures OpenTotal(Run(r, more)) != 0
      {
        StoppedForever(r, more);
      }
    }
  }
}
