// Where the tokens go, over whole runs: an account's tokens enter the escrow only by its own asks and
// leave it only by its own withdrawals, and every fee is the exact one of the rate then in force.
module EscrowFlow {
  import opened Prelude
  import opened Sums
  import opened EscrowSpec
  import opened EscrowSafety
  import opened EscrowChange
  import opened EscrowLedger

  // ---------------------------------------------------------------- tokens in and out

  function Rise(before: map<Address, nat>, after: map<Address, nat>, who: Address): nat {
    if At(before, who) <= At(after, who) then At(after, who) - At(before, who) else 0
  }

  // What the balance of who rose by in the contract's own transactions.
  ghost function Received(s: State, txs: seq<Tx>, who: Address): nat {
    if |txs| == 0 then 0
    else
      var pre, tx := Run(s, txs[..|txs| - 1]), txs[|txs| - 1];
      Received(s, txs[..|txs| - 1], who)
      + if tx.action.TokenActivity? then 0 else Rise(pre.token.balances, Apply(pre, tx).token.balances, who)
  }

  // What it fell by.
  ghost function Deposited(s: State, txs: seq<Tx>, who: Address): nat {
    if |txs| == 0 then 0
    else
      var pre, tx := Run(s, txs[..|txs| - 1]), txs[|txs| - 1];
      Deposited(s, txs[..|txs| - 1], who)
      + if tx.action.TokenActivity? then 0 else Rise(Apply(pre, tx).token.balances, pre.token.balances, who)
  }

  // The amounts that who has asked with.
  function AskedBy(log: seq<Event>, who: Address): nat {
    if |log| == 0 then 0
    else
      var last := log[|log| - 1];
      AskedBy(log[..|log| - 1], who) + if last.QuestionAsked? && last.asker == who then last.amount else 0
  }

  lemma AskedByAppend(log: seq<Event>, event: Event, who: Address)
    ensures AskedBy(log + [event], who)
         == AskedBy(log, who) + if event.QuestionAsked? && event.asker == who then event.amount else 0
  {
    assert (log + [event])[..|log|] == log;
  }

  lemma ChangeLogsAsk(s: State, s': State, c: Change, who: Address)
    requires Records(s, s', c)
    ensures AskedBy(s'.log, who)
         == AskedBy(s.log, who) + if c.Asked? && c.question.asker == who then c.question.amount else 0
  {
    if s'.log != s.log {
      assert s'.log == s.log + [s'.log[|s.log|]];
      AskedByAppend(s.log, s'.log[|s.log|], who);
    }
  }

  // What one transaction of the contract does to the balance of an account other than its own.
  lemma TransactionMoves(s: State, tx: Tx, c: Change, who: Address)
    requires Shaped(s) && !tx.action.TokenActivity? && who != s.self && Records(s, Apply(s, tx), c)
    requires c == if Execute(s, tx).Ok? then ChangeOf(s, tx) else Unrecorded
    ensures At(Apply(s, tx).token.balances, who)
            + (if c.Asked? && c.question.asker == who then c.question.amount else 0)
         == At(s.token.balances, who) + if c.Paid? && c.who == who then c.amount else 0
  {
    if c.Unrecorded? && Execute(s, tx).Ok? {
      AdminKeepsBooks(s, tx.sender, tx.action.admin);
    }
  }

  // Over every run, and for every account but the escrow's own: the tokens it received from the escrow
  // are those it withdrew, and the tokens it gave are the amounts it asked with.
  lemma {:induction false} TokensFollowTheLog(s: State, txs: seq<Tx>, who: Address)
    requires Deployed(s) && who != s.self
    ensures Run(s, txs).self == s.self
    ensures Received(s, txs, who) == WithdrawnBy(Run(s, txs).log, who)
    ensures Deposited(s, txs, who) == AskedBy(Run(s, txs).log, who)
  {
    if |txs| > 0 {
      var front, tx := txs[..|txs| - 1], txs[|txs| - 1];
      TokensFollowTheLog(s, front, who);
      SolventForever(s, front);
      var pre := Run(s, front);
      var c := Summary(pre, tx);
      ChangeLogsPayment(pre, Apply(pre, tx), c, who);
      ChangeLogsAsk(pre, Apply(pre, tx), c, who);
      if !tx.action.TokenActivity? {
        TransactionMoves(pre, tx, c, who);
      }
    }
  }

  // So what an account can still withdraw and the tokens it received are its shares of the settlements.
  lemma PaidWhatIsOwed(s: State, txs: seq<Tx>, who: Address)
    requires Deployed(s) && who != s.self
    ensures At(Run(s, txs).withdrawable, who) + Received(s, txs, who) == Sum(SharesOf(Settlements(s, txs), who))
  {
    LedgerIsExact(s, txs, who);
    TokensFollowTheLog(s, txs, who);
  }

  // ---------------------------------------------------------------- the rate in force

  function StoredRate(s: State, outcome: Status): nat {
    if outcome == Answered then s.answerFeeBps else if outcome == Cancelled then s.cancelFeeBps else 0
  }

  // Transaction k settled the question, at the rate and for the fee address stored just before it.
  ghost predicate SettledAt(s: State, txs: seq<Tx>, k: nat, id: nat, h: Shares)
    requires k < |txs|
  {
    var pre, post := Run(s, txs[..k]), Run(s, txs[..k + 1]);
    && QuestionAt(pre, id).status == Open && QuestionAt(post, id).status != Open
    && h.bps == StoredRate(pre, QuestionAt(post, id).status) && h.feeTo == pre.feeAddress
    && ExactFee(QuestionAt(pre, id).amount, h.bps, h.fee)
  }

  lemma EarlierPrefix(txs: seq<Tx>, n: nat, k: nat)
    requires k <= n <= |txs|
    ensures txs[..n][..k] == txs[..k]
  {
  }

  lemma StoredRateIsFeeRate(s: State, q: Question, outcome: Status)
    requires s.answerFeeBps <= MAX_ANSWER_FEE_BPS && s.cancelFeeBps <= MAX_CANCEL_FEE_BPS
    ensures var h := Entitled(s, q, outcome);
            h.bps == StoredRate(s, outcome) && h.feeTo == s.feeAddress && ExactFee(q.amount, h.bps, h.fee)
  {
    SharesSplitAmount(s, q, outcome);
  }

  // The fee of every settlement of a run is that of the rate stored when it happened.
  lemma {:induction false} FeesOfTheirTime(s: State, txs: seq<Tx>, id: nat) returns (k: nat)
    requires Deployed(s) && id in Settlements(s, txs)
    ensures k < |txs| && SettledAt(s, txs, k, id, Settlements(s, txs)[id])
  {
    var front, n := txs[..|txs| - 1], |txs| - 1;
    var pre := Run(s, front);
    assert txs[..n + 1] == txs;
    if id in NewlySettled(pre, Apply(pre, txs[n])) {
      k := n;
      SolventForever(s, front);
      StoredRateIsFeeRate(pre, QuestionAt(pre, id), Run(s, txs).questions[id].status);
    } else {
      k := FeesOfTheirTime(s, front, id);
      EarlierPrefix(txs, n, k);
      EarlierPrefix(txs, n, k + 1);
    }
  }
}
