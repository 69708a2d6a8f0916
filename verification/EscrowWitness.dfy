// Real runs of the contract that reach the cases the exact conditions speak of: two asks under one
// ref, an ask in the deployment block, and a pause that outlives the owner.
module EscrowWitness {
  import opened Prelude
  import opened Sums
  import opened Events
  import opened MoneyFold
  import opened Chain
  import opened System
  import opened Tables
  import opened Mining
  import opened Mirror
  import Reconcile
  import Ref
  import E = EscrowSpec
  import EscrowSafety
  import EscrowChange
  import EscrowLedger
  import EscrowPause

  const SELF := 1
  const ASKER := 2
  const ANSWERER := 3

  // A fresh escrow; the asker holds ten units and lets the escrow pull them.
  function Genesis(): E.State {
    E.State(SELF, 4, E.ZERO_ADDRESS, false, false, 5, 3600, 420, 100, 1, map[], map[], map[],
            E.Token(map[ASKER := 10], map[ASKER := 10]), [], 0)
  }

  lemma DeployedBy(s: E.State, token: E.Token, usdc: E.Address, owner: E.Address, feeAddress: E.Address,
                   answerFeeBps: nat, cancelFeeBps: nat, answerWindow: nat)
    requires E.Deploy(s.self, token, usdc, owner, feeAddress, answerFeeBps, cancelFeeBps, answerWindow) == Ok(s)
    requires s.self != E.ZERO_ADDRESS && Sum(token.balances) < E.UINT256_LIMIT
    ensures EscrowSafety.Deployed(s)
  {
  }

  lemma GenesisDeployed()
    ensures EscrowSafety.Deployed(Genesis())
  {
    var token := E.Token(map[ASKER := 10], map[ASKER := 10]);
    SumOnly(token.balances, ASKER);
    DeployedBy(Genesis(), token, 9, 4, 5, 420, 100, 3600);
  }

  // Five units for one hour, under the all-zero ref; and the answerer's two ways to settle.
  const ASK := E.Tx(ASKER, 0, E.Ask(0, ANSWERER, 5, None))
  const ANSWER := E.Tx(ANSWERER, 0, E.Answer(1))
  const DECLINE_SECOND := E.Tx(ANSWERER, 0, E.Decline(2))

  const QUESTION := E.Question(ASKER, ANSWERER, 5, 3600, E.Open)

  // ---------------------------------------------------------------- the row of the zero ref

  lemma {:induction false} ZeroDigits(w: nat, i: nat)
    requires i < w
    ensures Ref.HexDigits(0, w)[i] == '0'
    decreases w
  {
    if i < w - 1 {
      ZeroDigits(w - 1, i);
    }
  }

  lemma ZeroHasRow()
    ensures KeyOf(0).Some?
  {
    var word := Ref.HexWord(0);
    forall i | 0 <= i < 32
      ensures word[2..34][i] == Ref.REF_ZERO_HALF[i]
    {
      ZeroDigits(2 * |Ref.REF_ZERO_HALF|, i);
    }
    assert word[2..34] == Ref.REF_ZERO_HALF;
    Ref.WordIsLower(0);
    Ref.RefRoundTrip(word);
  }

  // ---------------------------------------------------------------- steps of the contract

  // What the transactions above need of a state.
  predicate Ready(s: E.State) {
    && s.self == SELF && !s.paused && !s.locked && s.answerWindow == 3600 && s.answerFeeBps == 420 && s.feeAddress == 5
    && s.nextId < 10
  }

  lemma AskWorks(s: E.State)
    requires Ready(s) && At(s.token.balances, ASKER) >= 5 && 5 <= At(s.token.allowances, ASKER) < 100
    ensures var s' := E.Apply(s, ASK);
            && EscrowChange.Records(s, s', EscrowChange.Asked(QUESTION, 0))
            && Ready(s'.(nextId := 1))
            && At(s'.token.balances, ASKER) == At(s.token.balances, ASKER) - 5
            && At(s'.token.allowances, ASKER) == At(s.token.allowances, ASKER) - 5
  {
    assert E.Execute(s, ASK).Ok?;
    EscrowChange.AskRecords(s, ASK);
  }

  // The answerer settles a question that is open.
  lemma SettleWorks(s: E.State, tx: E.Tx)
    requires EscrowSafety.Solvent(s) && Ready(s) && (tx.action.Answer? || tx.action.Decline?)
    requires E.QuestionAt(s, tx.action.id) == QUESTION && tx.sender == ANSWERER
    ensures EscrowChange.Records(s, E.Apply(s, tx), EscrowChange.Settled(tx.action.id, EscrowSafety.Outcome(tx.action)))
  {
    EscrowLedger.SettlementSucceedsIff(s, tx);
    EscrowChange.SettlementRecords(s, tx);
  }

  ghost function OnceAsked(): E.State {
    E.Apply(Genesis(), ASK)
  }

  lemma GenesisReady()
    ensures EscrowSafety.Solvent(Genesis()) && Ready(Genesis()) && Genesis().nextId == 1
    ensures Genesis().questions == map[] && Genesis().questionRef == map[]
    ensures At(Genesis().token.balances, ASKER) == 10 && At(Genesis().token.allowances, ASKER) == 10
  {
    GenesisDeployed();
    EscrowSafety.SolventForever(Genesis(), []);
    assert E.Run(Genesis(), []) == Genesis();
  }

  lemma OnceAskedIs()
    ensures EscrowSafety.Solvent(Genesis()) && EscrowSafety.Solvent(OnceAsked())
    ensures Ready(OnceAsked()) && OnceAsked().nextId == 2
    ensures OnceAsked().questions == map[1 := QUESTION] && OnceAsked().questionRef == map[1 := 0]
    ensures At(OnceAsked().token.balances, ASKER) == 5 && At(OnceAsked().token.allowances, ASKER) == 5
    ensures EscrowChange.Records(Genesis(), OnceAsked(), EscrowChange.Asked(QUESTION, 0))
  {
    GenesisReady();
    FirstAsk(Genesis());
  }

  lemma FirstAsk(s: E.State)
    requires EscrowSafety.Solvent(s) && Ready(s) && s.nextId == 1 && s.questions == map[] && s.questionRef == map[]
    requires At(s.token.balances, ASKER) == 10 && At(s.token.allowances, ASKER) == 10
    ensures var s' := E.Apply(s, ASK);
            && EscrowSafety.Solvent(s') && Ready(s') && s'.nextId == 2
            && s'.questions == map[1 := QUESTION] && s'.questionRef == map[1 := 0]
            && At(s'.token.balances, ASKER) == 5 && At(s'.token.allowances, ASKER) == 5
            && EscrowChange.Records(s, s', EscrowChange.Asked(QUESTION, 0))
  {
    AskWorks(s);
    EscrowSafety.TransactionKeepsSolvency(s, ASK);
  }

  ghost function TwiceAsked(): E.State {
    E.Apply(OnceAsked(), ASK)
  }

  lemma TwiceAskedIs()
    ensures EscrowSafety.Solvent(TwiceAsked()) && Ready(TwiceAsked())
    ensures TwiceAsked().questions == map[1 := QUESTION, 2 := QUESTION]
    ensures TwiceAsked().questionRef == map[1 := 0, 2 := 0]
  {
    OnceAskedIs();
    AskWorks(OnceAsked());
    EscrowSafety.TransactionKeepsSolvency(OnceAsked(), ASK);
  }

  // ---------------------------------------------------------------- two asks under one ref

  const TAKEN_OVER: seq<Placed> := [Placed(ASK, 1, 0), Placed(ASK, 1, 1), Placed(DECLINE_SECOND, 1, 2)]

  lemma TakenOverRun()
    ensures After(Genesis(), TAKEN_OVER) == E.Apply(TwiceAsked(), DECLINE_SECOND)
  {
    assert TAKEN_OVER[..2][..1][..0] == [] && TAKEN_OVER[..2] == TAKEN_OVER[..2][..1] + [Placed(ASK, 1, 1)];
    assert After(Genesis(), []) == Genesis();
    assert After(Genesis(), TAKEN_OVER[..2][..1]) == OnceAsked();
    assert After(Genesis(), TAKEN_OVER[..2]) == TwiceAsked();
  }

  ghost function TakenOver(): E.State {
    E.Apply(TwiceAsked(), DECLINE_SECOND)
  }

  // What a decline of the second of two questions under one ref leaves.
  lemma SecondDeclined(s: E.State, s': E.State, u: Uuid)
    requires s.questions == map[1 := QUESTION, 2 := QUESTION] && s.questionRef == map[1 := 0, 2 := 0]
    requires KeyOf(0) == Some(u) && EscrowChange.RecordsSettlement(s, s', 2, E.Declined)
    ensures s'.questions == map[1 := QUESTION, 2 := QUESTION.(status := E.Declined)]
    ensures FirstFor(s', 1, u) && !AllOpen(s', u)
    ensures forall j, status :: IsSettledAs(s', j, u, status) ==> status == Declined
  {
    assert AnswersTo(s', 1, u) && AnswersTo(s', 2, u);
  }

  lemma TakenOverIs(u: Uuid)
    requires KeyOf(0) == Some(u)
    ensures TakenOver().questions == map[1 := QUESTION, 2 := QUESTION.(status := E.Declined)]
    ensures FirstFor(TakenOver(), 1, u) && !AllOpen(TakenOver(), u)
    ensures forall j, status :: IsSettledAs(TakenOver(), j, u, status) ==> status == Declined
  {
    TwiceAskedIs();
    SettleWorks(TwiceAsked(), DECLINE_SECOND);
    SecondDeclined(TwiceAsked(), TakenOver(), u);
  }

  lemma RowWhenTakenOver(s: E.State, log: seq<EscrowEvent>, u: Uuid)
    requires Tells(s, log) && s.questions == map[1 := QUESTION, 2 := QUESTION.(status := E.Declined)]
    requires FirstFor(s, 1, u) && !AllOpen(s, u)
    requires forall j, status :: IsSettledAs(s, j, u, status) ==> status == Declined
    ensures Fold(PENDING, u, log) == Money(Declined, Some(1), Some(5), Some(3600)) != MoneyOf(s.questions[1], 1)
  {
    assert Mirrors(s, u, Fold(PENDING, u, log));
  }

  // Two questions are asked under one ref and the second is declined: the row carries the first
  // question's id and terms and reads declined, while the first question is still open and escrowed.
  lemma SecondAskTakesTheRow(u: Uuid, s: E.State, log: seq<EscrowEvent>)
    requires KeyOf(0) == Some(u) && s == After(Genesis(), TAKEN_OVER) && log == Emitted(Genesis(), TAKEN_OVER)
    ensures EscrowSafety.Deployed(Genesis())
    ensures FirstFor(s, 1, u) && s.questions[1].status == E.Open
    ensures Fold(PENDING, u, log) == Money(Declined, Some(1), Some(5), Some(3600)) != MoneyOf(s.questions[1], 1)
  {
    GenesisDeployed();
    TakenOverRun();
    TakenOverIs(u);
    RunTells(Genesis(), TAKEN_OVER);
    RowWhenTakenOver(s, log, u);
  }

  // ---------------------------------------------------------------- an ask in the deployment block

  lemma OneAskEmits()
    ensures KeyOf(0).Some? && After(Genesis(), [Placed(ASK, 0, 0)]) == OnceAsked()
    ensures Emitted(Genesis(), [Placed(ASK, 0, 0)])
         == [EscrowEvent(EventName.QuestionAsked, KeyOf(0), 1, 5, 3600, 0, 0)]
  {
    ZeroHasRow();
    OnceAskedIs();
    NewEventsAreSeen(Genesis(), Placed(ASK, 0, 0), EscrowChange.Asked(QUESTION, 0));
    assert [Placed(ASK, 0, 0)][..0] == [];
    assert After(Genesis(), []) == Genesis() && Emitted(Genesis(), []) == [];
  }

  lemma OneAskMined()
    ensures KeyOf(0).Some? && PlaceAll([[ASK]]) == [Placed(ASK, 0, 0)] && |Mined(Genesis(), [[ASK]])| == 1
    ensures Flat(Mined(Genesis(), [[ASK]])) == [EscrowEvent(EventName.QuestionAsked, KeyOf(0), 1, 5, 3600, 0, 0)]
  {
    var txBlocks := [[ASK]];
    MinedLog(Genesis(), txBlocks);
    OneAskEmits();
    assert txBlocks[..0] == [] && PlaceAll([]) == [] && PlaceBlock([ASK], 0) == [Placed(ASK, 0, 0)];
  }

  lemma OnlyBlockIsSkipped(blocks: seq<Block>, ask: EscrowEvent, u: Uuid)
    requires |blocks| == 1 && Flat(blocks) == [ask] && IsAskFor(ask, u)
    ensures Fold(PENDING, u, Reconcile.PassLog(blocks, 0, 0)) == PENDING && !Reconcile.NothingMissed(0, blocks, u, 0)
  {
    AskLeavesPending(u, [ask], 0);
    assert blocks[..1] == blocks;
    assert Reconcile.PassLog(blocks, 0, 0) == [];
  }

  // The escrow is deployed and asked in block 0, its start block: the question is open in the contract,
  // and what the indexer reads from there on leaves its row pending.
  lemma DeploymentBlockAskIsLost(u: Uuid, s: E.State, blocks: seq<Block>)
    requires KeyOf(0) == Some(u) && s == After(Genesis(), PlaceAll([[ASK]])) && blocks == Mined(Genesis(), [[ASK]])
    ensures EscrowSafety.Deployed(Genesis()) && AnswersTo(s, 1, u) && s.questions[1].status == E.Open
    ensures |blocks| == 1 && Fold(PENDING, u, Reconcile.PassLog(blocks, 0, 0)) == PENDING
    ensures !Reconcile.NothingMissed(0, blocks, u, 0)
  {
    GenesisDeployed();
    OneAskEmits();
    OneAskMined();
    OnceAskedIs();
    OnlyBlockIsSkipped(blocks, EscrowEvent(EventName.QuestionAsked, KeyOf(0), 1, 5, 3600, 0, 0), u);
  }

  // ---------------------------------------------------------------- a pause that outlives the owner

  const PAUSE := E.Tx(4, 0, E.Administration(E.Pause))
  const RENOUNCE := E.Tx(4, 0, E.Administration(E.RenounceOwnership))

  lemma PausedThenRenounced(s: E.State)
    requires s.self == SELF && s.owner == 4 && !s.paused
    ensures var s' := E.Run(s, [PAUSE, RENOUNCE]);
            EscrowPause.Stopped(s') && s'.questions == s.questions && s'.self == s.self
  {
    assert [PAUSE, RENOUNCE][..1] == [PAUSE] && [PAUSE][..0] == [] && E.Run(s, []) == s;
    assert E.Run(s, [PAUSE]) == s.(paused := true);
  }

  lemma StoppedWithOneQuestion()
    ensures EscrowSafety.Solvent(E.Run(OnceAsked(), [PAUSE, RENOUNCE]))
    ensures EscrowPause.Stopped(E.Run(OnceAsked(), [PAUSE, RENOUNCE]))
    ensures E.Run(OnceAsked(), [PAUSE, RENOUNCE]).questions == map[1 := QUESTION]
  {
    OnceAskedIs();
    EscrowPause.AskKeepsControl(Genesis(), ASK);
    PausedThenRenounced(OnceAsked());
    EscrowLedger.SettlesAtMostOnce(OnceAsked(), [PAUSE, RENOUNCE], 1);
  }

  // A question is asked, the owner pauses and renounces: it stays open, and its five units stay in the
  // escrow, in every continuation.
  lemma PauseOutlivesOwner(more: seq<E.Tx>)
    ensures EscrowSafety.Deployed(Genesis())
    ensures var s := E.Run(Genesis(), [ASK, PAUSE, RENOUNCE] + more);
            E.QuestionAt(s, 1) == QUESTION && EscrowSafety.OpenTotal(s) == 5
  {
    GenesisDeployed();
    var stop := [PAUSE, RENOUNCE];
    assert [ASK, PAUSE, RENOUNCE] == [ASK] + stop;
    EscrowLedger.RunConcat(Genesis(), [ASK] + stop, more);
    EscrowLedger.RunConcat(Genesis(), [ASK], stop);
    assert [ASK][..0] == [] && E.Run(Genesis(), []) == Genesis();
    StoppedWithOneQuestion();
    var s := E.Run(OnceAsked(), stop);
    EscrowPause.StoppedForever(s, more);
    SumOnly(EscrowSafety.EscrowedById(s.questions), 1);
  }

  // ---------------------------------------------------------------- a question asked and answered

  const HISTORY: seq<seq<E.Tx>> := [[], [ASK, ANSWER]]

  function AskEvent(u: Uuid): EscrowEvent {
    EscrowEvent(EventName.QuestionAsked, Some(u), 1, 5, 3600, 1, 0)
  }

  function AnswerEvent(u: Uuid): EscrowEvent {
    EscrowEvent(EventName.QuestionAnswered, Some(u), 1, 0, 0, 1, 1)
  }

  lemma AskIsSeen(s: E.State, p: Placed, u: Uuid)
    requires KeyOf(0) == Some(u) && s.nextId == 1 && p.block == 1 && p.index == 0
    requires EscrowChange.Records(s, E.Apply(s, p.tx), EscrowChange.Asked(QUESTION, 0))
    ensures NewEvents(s, p) == [AskEvent(u)]
  {
    NewEventsAreSeen(s, p, EscrowChange.Asked(QUESTION, 0));
  }

  lemma AnswerIsSeen(s: E.State, p: Placed, u: Uuid)
    requires KeyOf(0) == Some(u) && E.RefAt(s, 1) == 0 && p.block == 1 && p.index == 1
    requires EscrowChange.Records(s, E.Apply(s, p.tx), EscrowChange.Settled(1, E.Answered))
    ensures NewEvents(s, p) == [AnswerEvent(u)]
  {
    NewEventsAreSeen(s, p, EscrowChange.Settled(1, E.Answered));
  }

  lemma AnswerEmits(u: Uuid)
    requires KeyOf(0) == Some(u)
    ensures NewEvents(Genesis(), Placed(ASK, 1, 0)) == [AskEvent(u)]
    ensures NewEvents(OnceAsked(), Placed(ANSWER, 1, 1)) == [AnswerEvent(u)]
  {
    OnceAskedIs();
    AskIsSeen(Genesis(), Placed(ASK, 1, 0), u);
    SettleWorks(OnceAsked(), ANSWER);
    AnswerIsSeen(OnceAsked(), Placed(ANSWER, 1, 1), u);
  }

  lemma BlockEmits(u: Uuid)
    requires KeyOf(0) == Some(u)
    ensures Emitted(Genesis(), [Placed(ASK, 1, 0), Placed(ANSWER, 1, 1)]) == [AskEvent(u), AnswerEvent(u)]
  {
    AnswerEmits(u);
    EmittedNext(Genesis(), [], Placed(ASK, 1, 0));
    EmittedNext(Genesis(), [Placed(ASK, 1, 0)], Placed(ANSWER, 1, 1));
    assert [] + [Placed(ASK, 1, 0)] == [Placed(ASK, 1, 0)];
    assert [Placed(ASK, 1, 0)] + [Placed(ANSWER, 1, 1)] == [Placed(ASK, 1, 0), Placed(ANSWER, 1, 1)];
    assert After(Genesis(), []) == Genesis() && Emitted(Genesis(), []) == [];
  }

  lemma HistoryPlaced()
    ensures HISTORY[..1][..0] == [] && HISTORY[..1] == [[]] && PlaceAll(HISTORY[..1]) == []
    ensures PlaceBlock(HISTORY[1], 1) == [Placed(ASK, 1, 0), Placed(ANSWER, 1, 1)]
  {
    assert PlaceBlock([], 0) == [];
  }

  // The chain of an escrow whose one question is asked and answered in the block after deployment.
  lemma HistoryMined(u: Uuid, cfg: Config)
    requires KeyOf(0) == Some(u) && cfg.startBlock == 0
    ensures Mined(Genesis(), HISTORY) == [[], [AskEvent(u), AnswerEvent(u)]]
    ensures EscrowChain(cfg, Mined(Genesis(), HISTORY))
  {
    GenesisDeployed();
    BlockEmits(u);
    HistoryPlaced();
    assert HISTORY[..|HISTORY| - 1] == HISTORY[..1];
    assert Mined(Genesis(), HISTORY[..1]) == [[]] by {
      assert Mined(Genesis(), HISTORY[..1][..0]) == [];
      assert PlaceBlock([], 0) == [];
      assert PlaceAll([]) == [];
    }
    MinedChainIsEscrowChain(cfg, Genesis(), HISTORY);
  }

  // ---------------------------------------------------------------- a question that is only asked

  const PAID: seq<seq<E.Tx>> := [[], [ASK]]

  lemma PaidPlaced()
    ensures PAID[..1][..0] == [] && PAID[..1] == [[]] && PlaceAll(PAID[..1]) == []
    ensures PlaceBlock(PAID[1], 1) == [Placed(ASK, 1, 0)] && PlaceAll(PAID) == [Placed(ASK, 1, 0)]
  {
    assert PlaceBlock([], 0) == [];
    assert PAID[..|PAID| - 1] == PAID[..1];
  }

  lemma PaidEmits(u: Uuid)
    requires KeyOf(0) == Some(u)
    ensures Emitted(Genesis(), [Placed(ASK, 1, 0)]) == [AskEvent(u)]
    ensures After(Genesis(), [Placed(ASK, 1, 0)]) == OnceAsked()
  {
    AnswerEmits(u);
    EmittedNext(Genesis(), [], Placed(ASK, 1, 0));
    assert [] + [Placed(ASK, 1, 0)] == [Placed(ASK, 1, 0)];
    assert After(Genesis(), []) == Genesis() && Emitted(Genesis(), []) == [];
  }

  // The chain of an escrow whose one question is asked in the block after deployment and stays open.
  lemma PaidMined(u: Uuid, cfg: Config)
    requires KeyOf(0) == Some(u) && cfg.startBlock == 0
    ensures Mined(Genesis(), PAID) == [[], [AskEvent(u)]] && EscrowChain(cfg, Mined(Genesis(), PAID))
    ensures After(Genesis(), PlaceAll(PAID)) == OnceAsked()
  {
    GenesisDeployed();
    PaidEmits(u);
    PaidPlaced();
    assert PAID[..|PAID| - 1] == PAID[..1];
    assert Mined(Genesis(), PAID[..1]) == [[]] by {
      assert Mined(Genesis(), PAID[..1][..0]) == [];
      assert PlaceBlock([], 0) == [];
      assert PlaceAll([]) == [];
    }
    MinedChainIsEscrowChain(cfg, Genesis(), PAID);
  }
}
