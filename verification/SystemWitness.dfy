// Real runs of the whole system, on the chain of a real escrow, that reach the three races: a save that
// outlives the answer, an answered draft whose reveal time stays null, after a kill and without one, and
// a sweep of a draft that is paid on chain.
module SystemWitness {
  import opened Prelude
  import opened Events
  import opened MoneyFold
  import opened Chain
  import opened Tables
  import opened Sweep
  import opened Reconcile
  import opened Api
  import opened System
  import opened SystemSafety
  import opened SystemRuns
  import opened SoloPass
  import opened Races
  import Mining
  import Mirror
  import EscrowWitness

  const CFG := Config(1, 0, 0, 10, 10)
  const WALLET: Wallet := 3

  function Log(u: Uuid): seq<EscrowEvent> {
    [EscrowWitness.AskEvent(u), EscrowWitness.AnswerEvent(u)]
  }

  // One draft, for a question that the chain already shows asked and answered.
  function Start0(u: Uuid, answers: Answers): World {
    World([[], Log(u)], Db(map[u := Draft(1, 0, 2, WALLET)], answers),
          None, 0, [])
  }

  predicate Drafts(u: Uuid, answers: Answers) {
    answers.Keys <= {u} && (u in answers ==> answers[u].revealedAt.None?)
  }

  // The chain is that of an escrow, and the database one the system may start from.
  lemma StartIsInit(u: Uuid, answers: Answers)
    requires Mining.KeyOf(0) == Some(u) && Drafts(u, answers)
    ensures Init(CFG, Start0(u, answers)) && Inv(CFG, Start0(u, answers))
    ensures Start0(u, answers).blocks == Mining.Mined(EscrowWitness.Genesis(), EscrowWitness.HISTORY)
  {
    EscrowWitness.HistoryMined(u, CFG);
    InitIsInv(CFG, Start0(u, answers));
  }

  // ---------------------------------------------------------------- a pass in such a world

  lemma {:induction false} BodiesStay(db: Db, log: seq<EscrowEvent>, now: int, u: Uuid)
    requires FoldDb(db, CFG, log, now).Ok?
    ensures BodyOf(FoldDb(db, CFG, log, now).value.db, u) == BodyOf(db, u)
  {
    if |log| > 0 {
      BodiesStay(db, log[..|log| - 1], now, u);
    }
  }

  lemma FoldsToAnswered(u: Uuid)
    ensures Fold(PENDING, u, Log(u))
         == Money(Answered, Some(1), Some(5), Some(3600))
  {
    var ask, answer := EscrowWitness.AskEvent(u), EscrowWitness.AnswerEvent(u);
    FoldAppend(PENDING, u, [], ask);
    FoldAppend(PENDING, u, [ask], answer);
    assert [] + [ask] == [ask] && [ask] + [answer] == [ask, answer];
  }

  lemma {:induction false} OthersStay(cfg: Config, w: World, choices: seq<Choice>, i: nat, j: nat)
    requires Configured(cfg) && OnlySteps(choices, i) && j != i && j < |w.threads|
    ensures var w' := RunWorld(cfg, w, choices);
            |w'.threads| == |w.threads| && w'.threads[j] == w.threads[j] && w'.blocks == w.blocks
  {
    if |choices| > 0 {
      OthersStay(cfg, w, choices[..|choices| - 1], i, j);
    }
  }

  // A state of the first world in which only thread 0 has moved, and thread 1 is a fresh pass.
  ghost predicate Waiting(u: Uuid, w: World) {
    && Inv(CFG, w) && w.blocks == [[], Log(u)]
    && w.db.rows == map[u := Draft(1, 0, 2, WALLET)] && w.cursor == None
    && |w.threads| == 2 && w.threads[1] == Pass(LoadCursor, 0, 0)
  }

  lemma PassRange(u: Uuid, blocks: seq<Block>)
    requires blocks == [[], Log(u)]
    ensures PassLog(blocks, 0, 1) == Log(u)
  {
    var block := Log(u);
    assert blocks[1..2] == [block];
    assert [block][..0] == [] && Flat([]) == [] && [] + block == block;
  }

  lemma FoldedIsAnswered(u: Uuid, db: Db, after: Db, n: nat)
    requires db.rows == map[u := Draft(1, 0, 2, WALLET)]
    requires FoldsTo(db, CFG, Log(u), 0, after, n)
    ensures IsAnswered(after.rows, u) && BodyOf(after, u) == BodyOf(db, u)
  {
    var log := Log(u);
    FoldIsPerRow(db, CFG, log, 0);
    FoldsToAnswered(u);
    BodiesStay(db, log, 0, u);
  }

  // The pass runs alone: the question is answered, thread 0 stands where it stood.
  lemma PassAnswers(u: Uuid, w: World) returns (choices: seq<Choice>, w': World)
    requires Waiting(u, w)
    ensures w' == RunWorld(CFG, w, choices) && OnlySteps(choices, 1)
    ensures IsAnswered(w'.db.rows, u) && BodyOf(w'.db, u) == BodyOf(w.db, u)
    ensures |w'.threads| == 2 && w'.threads[0] == w.threads[0] && w'.threads[1].Pass? && w'.threads[1].pc == Completed
  {
    var applied;
    choices, w', applied := SoloPassIsReconcile(CFG, w, 1, 0, 1);
    OthersStay(CFG, w, choices, 1, 0);
    PassRange(u, w.blocks);
    FoldedIsAnswered(u, w.db, w'.db, applied);
  }

  // ---------------------------------------------------------------- a save that outlives the answer

  // A save starts and passes its check; then a pass starts.
  function SaveThenPass(u: Uuid, body: string): seq<Choice> {
    [Start(Saving(u, WALLET, body, false)), Step(0, 0, [], {}), Start(Pass(LoadCursor, 0, 0))]
  }

  lemma ThreeRuns(cfg: Config, w: World, a: seq<Choice>, b: seq<Choice>, c: Choice)
    requires Configured(cfg)
    ensures RunWorld(cfg, w, a + b + [c]) == Do(cfg, RunWorld(cfg, RunWorld(cfg, w, a), b), c)
  {
    RunsJoin(cfg, w, a, b);
    RunsJoin(cfg, w, a + b, [c]);
    OneChoice(cfg, RunWorld(cfg, w, a + b), c);
  }

  lemma ThreeChoices(cfg: Config, w: World, a: Choice, b: Choice, c: Choice)
    requires Configured(cfg)
    ensures RunWorld(cfg, w, [a, b, c]) == Do(cfg, Do(cfg, Do(cfg, w, a), b), c)
  {
    assert [a, b, c][..2] == [a, b];
    TwoChoices(cfg, w, a, b);
  }

  // The three choices, one after the other.
  lemma SaveOpens(u: Uuid, w: World, body: string)
    requires w.db.rows == map[u := Draft(1, 0, 2, WALLET)] && w.threads == []
    ensures var w' := Do(CFG, Do(CFG, Do(CFG, w, Start(Saving(u, WALLET, body, false))), Step(0, 0, [], {})),
                         Start(Pass(LoadCursor, 0, 0)));
            w' == w.(threads := [Saving(u, WALLET, body, true), Pass(LoadCursor, 0, 0)])
  {
    var w1 := Do(CFG, w, Start(Saving(u, WALLET, body, false)));
    assert w1 == w.(threads := [Saving(u, WALLET, body, false)]);
    assert CheckSave(w1.db.rows, u, WALLET).None?;
    var w2 := Do(CFG, w1, Step(0, 0, [], {}));
    assert w2 == w.(threads := [Saving(u, WALLET, body, true)]);
  }

  lemma SaveWaits(u: Uuid, answers: Answers, body: string)
    requires Mining.KeyOf(0) == Some(u) && Drafts(u, answers)
    ensures var w := RunWorld(CFG, Start0(u, answers), SaveThenPass(u, body));
            Waiting(u, w) && w.threads[0] == Saving(u, WALLET, body, true) && w.db == Start0(u, answers).db
  {
    var w := Start0(u, answers);
    StartIsInit(u, answers);
    InvForever(CFG, w, SaveThenPass(u, body));
    ThreeChoices(CFG, w, SaveThenPass(u, body)[0], SaveThenPass(u, body)[1], SaveThenPass(u, body)[2]);
    SaveOpens(u, w, body);
  }

  // A question is answered and its draft locked, while a save of another body has passed its check:
  // the locked body can still change.
  lemma LateSaveIsReachable(u: Uuid) returns (w: World, choices: seq<Choice>)
    requires Mining.KeyOf(0) == Some(u)
    ensures Init(CFG, w) && w.blocks == Mining.Mined(EscrowWitness.Genesis(), EscrowWitness.HISTORY)
    ensures var w' := RunWorld(CFG, w, choices);
            && IsAnswered(w'.db.rows, u) && BodyOf(w'.db, u) == Some("early")
            && (exists i :: 0 <= i < |w'.threads| && MayStillSave(w'.threads[i], u, BodyOf(w'.db, u)))
            && !(forall more :: BodyOf(RunWorld(CFG, w', more).db, u) == BodyOf(w'.db, u))
  {
    var answers := map[u := Answer("early", None)];
    w := Start0(u, answers);
    StartIsInit(u, answers);
    SaveWaits(u, answers, "late");
    var solo, w' := PassAnswers(u, RunWorld(CFG, w, SaveThenPass(u, "late")));
    choices := SaveThenPass(u, "late") + solo;
    RunsJoin(CFG, w, SaveThenPass(u, "late"), solo);
    assert MayStillSave(w'.threads[0], u, BodyOf(w'.db, u));
    BodyFrozenIff(CFG, w', u);
  }

  // ---------------------------------------------------------------- a reveal time that stays null

  // An answered row with a draft whose reveal time is null in every continuation.
  ghost predicate NeverRevealed(w: World, u: Uuid) {
    && IsAnswered(w.db.rows, u) && u in w.db.answers
    && forall more :: RevealedAt(RunWorld(CFG, w, more).db, u).None?
  }

  // Without any kill: the first save of a draft passes its check, the answer is indexed while there is
  // no draft to reveal, and the save writes one afterwards.
  lemma UnrevealedWithoutKill(u: Uuid) returns (w: World, choices: seq<Choice>)
    requires Mining.KeyOf(0) == Some(u)
    ensures Init(CFG, w) && w.blocks == Mining.Mined(EscrowWitness.Genesis(), EscrowWitness.HISTORY)
    ensures (forall c :: c in choices ==> !c.Kill?) && NeverRevealed(RunWorld(CFG, w, choices), u)
  {
    w := Start0(u, map[]);
    StartIsInit(u, map[]);
    SaveWaits(u, map[], "late");
    var opening := SaveThenPass(u, "late");
    var solo, mid := PassAnswers(u, RunWorld(CFG, w, opening));
    choices := opening + solo + [Step(0, 0, [], {})];
    ThreeRuns(CFG, w, opening, solo, Step(0, 0, [], {}));
    NothingKilled(opening, solo, 1, Step(0, 0, [], {}));
    LateDraftStaysUnrevealed(u, mid);
  }

  lemma NothingKilled(opening: seq<Choice>, steps: seq<Choice>, i: nat, last: Choice)
    requires (forall c :: c in opening ==> !c.Kill?) && OnlySteps(steps, i) && !last.Kill?
    ensures forall c :: c in opening + steps + [last] ==> !c.Kill?
  {
  }

  lemma LateDraftStaysUnrevealed(u: Uuid, mid: World)
    requires IsAnswered(mid.db.rows, u) && u !in mid.db.answers && |mid.threads| == 2
    requires mid.threads[0] == Saving(u, WALLET, "late", true) && mid.threads[1].Pass? && mid.threads[1].pc == Completed
    ensures NeverRevealed(Do(CFG, mid, Step(0, 0, [], {})), u)
  {
    var w' := Do(CFG, mid, Step(0, 0, [], {}));
    forall more
      ensures RevealedAt(RunWorld(CFG, w', more).db, u).None?
    {
      UnrevealedForever(CFG, w', more, u);
    }
  }

  function OpenRow(): Row {
    Draft(1, 0, 2, WALLET).(money := Money(Open, Some(1), Some(5), Some(3600)))
  }

  lemma AskApplies(u: Uuid, answers: Answers)
    ensures var db := Db(map[u := Draft(1, 0, 2, WALLET)], answers);
            && Matches(db.rows, CFG, EscrowWitness.AskEvent(u))
            && Tables.ApplyEvent(db, CFG, EscrowWitness.AskEvent(u), 0) == Ok(Db(map[u := OpenRow()], answers))
  {
    var rows := map[u := Draft(1, 0, 2, WALLET)];
    assert !Taken(rows, 1, 1, u);
    assert rows[u := OpenRow()] == map[u := OpenRow()];
  }

  // A fresh pass as the only request, on the first tables.
  ghost predicate Alone(u: Uuid, w: World) {
    && Inv(CFG, w) && w.blocks == [[], Log(u)]
    && w.db.rows == map[u := Draft(1, 0, 2, WALLET)] && w.cursor == None && w.threads == [Pass(LoadCursor, 0, 0)]
  }

  lemma PassReads(u: Uuid, w: World) returns (w': World, pos: nat)
    requires Alone(u, w)
    ensures w'.db == w.db
    ensures At(CFG, w, w', 0, Pass(ApplyNext(1, 1, Log(u), pos), 0, 0))
  {
    PassRange(u, w.blocks);
    var w1 := Opening(CFG, w, 0, 0, 1, 0, 1, ReadLogs(1, 1));
    w', pos := ReadChunk(CFG, w, w1, 0, w.blocks, 0, 1, 1, 0, 0);
  }

  lemma AskApplied(u: Uuid, w0: World, w: World, pos: nat) returns (w': World)
    requires At(CFG, w0, w, 0, Pass(ApplyNext(1, 1, Log(u), pos), 0, 0))
    requires w.db.rows == map[u := Draft(1, 0, 2, WALLET)]
    ensures w'.db == Db(map[u := OpenRow()], w.db.answers)
    ensures At(CFG, w0, w', 0, Pass(ApplyNext(1, 1, [EscrowWitness.AnswerEvent(u)], pos + 1), 0, 1))
  {
    var log := Log(u);
    AskApplies(u, w.db.answers);
    assert log[1..] == [EscrowWitness.AnswerEvent(u)];
    w' := ApplyOne(CFG, w0, w, 0, 1, 1, log, pos, 0, 0, Db(map[u := OpenRow()], w.db.answers), 1);
  }

  lemma AnswerUpdated(u: Uuid, w0: World, w: World, pos: nat) returns (w': World, t': Thread)
    requires At(CFG, w0, w, 0, Pass(ApplyNext(1, 1, [EscrowWitness.AnswerEvent(u)], pos), 0, 1))
    requires w.db.rows == map[u := OpenRow()]
    ensures At(CFG, w0, w', 0, t') && t'.Pass? && t'.pc.RevealNext?
    ensures IsAnswered(w'.db.rows, u) && w'.db.answers == w.db.answers
  {
    var t := Pass(ApplyNext(1, 1, [EscrowWitness.AnswerEvent(u)], pos), 0, 1);
    t' := CasStep(CFG, w, t).thread;
    w' := TakeStep(CFG, w0, w, 0, t, 0, [], t');
  }

  // The pass up to the update of the answer event, and no further.
  lemma PassUpToReveal(u: Uuid, w: World) returns (choices: seq<Choice>, w': World)
    requires Alone(u, w)
    ensures w' == RunWorld(CFG, w, choices) && IsAnswered(w'.db.rows, u) && w'.db.answers == w.db.answers
    ensures |w'.threads| == 1 && w'.threads[0].Pass? && w'.threads[0].pc.RevealNext?
  {
    var w1, pos := PassReads(u, w);
    var w2 := AskApplied(u, w, w1, pos);
    var t';
    w', t' := AnswerUpdated(u, w, w2, pos + 1);
    choices := AtIsRun(CFG, w, w', 0, t');
    ThreadsStay(CFG, w, choices, 0);
  }

  lemma AtIsRun(cfg: Config, w0: World, w: World, i: nat, t: Thread) returns (choices: seq<Choice>)
    requires Configured(cfg) && At(cfg, w0, w, i, t)
    ensures OnlySteps(choices, i) && RunWorld(cfg, w0, choices) == w
    ensures i < |w.threads| && w.threads[i] == t
  {
    var trace :| Trace(cfg, trace, i) && trace[0] == w0 && trace[|trace| - 1] == w;
    choices := TraceIsRun(cfg, trace, i);
  }

  lemma {:induction false} ThreadsStay(cfg: Config, w: World, choices: seq<Choice>, i: nat)
    requires Configured(cfg) && OnlySteps(choices, i)
    ensures |RunWorld(cfg, w, choices).threads| == |w.threads|
  {
    if |choices| > 0 {
      ThreadsStay(cfg, w, choices[..|choices| - 1], i);
    }
  }

  // With a kill between the update and the reveal: the draft was there all along.
  lemma UnrevealedByKill(u: Uuid) returns (w: World, choices: seq<Choice>)
    requires Mining.KeyOf(0) == Some(u)
    ensures Init(CFG, w) && w.blocks == Mining.Mined(EscrowWitness.Genesis(), EscrowWitness.HISTORY)
    ensures u in w.db.answers && NeverRevealed(RunWorld(CFG, w, choices), u)
  {
    w := Start0(u, map[u := Answer("early", None)]);
    StartIsInit(u, w.db.answers);
    var begin := Start(Pass(LoadCursor, 0, 0));
    PassBegins(u, w);
    var steps, mid := PassUpToReveal(u, Do(CFG, w, begin));
    choices := [begin] + steps + [Kill(0)];
    OneChoice(CFG, w, begin);
    ThreeRuns(CFG, w, [begin], steps, Kill(0));
    KilledStaysUnrevealed(u, mid);
  }

  lemma PassBegins(u: Uuid, w: World)
    requires Inv(CFG, w) && w == Start0(u, w.db.answers)
    ensures Alone(u, Do(CFG, w, Start(Pass(LoadCursor, 0, 0)))) && Do(CFG, w, Start(Pass(LoadCursor, 0, 0))).db == w.db
  {
    StartKeepsInv(CFG, w, Pass(LoadCursor, 0, 0));
  }

  lemma KilledStaysUnrevealed(u: Uuid, mid: World)
    requires IsAnswered(mid.db.rows, u) && u in mid.db.answers && RevealedAt(mid.db, u).None?
    requires |mid.threads| == 1 && mid.threads[0].Pass? && mid.threads[0].pc.RevealNext?
    ensures NeverRevealed(Do(CFG, mid, Kill(0)), u)
  {
    var w' := Do(CFG, mid, Kill(0));
    forall more
      ensures RevealedAt(RunWorld(CFG, w', more).db, u).None?
    {
      UnrevealedForever(CFG, w', more, u);
    }
  }

  // ---------------------------------------------------------------- a paid draft that is swept

  // One draft, for a question that the chain shows asked.
  function PaidStart(u: Uuid): World {
    Start0(u, map[]).(blocks := [[], [EscrowWitness.AskEvent(u)]])
  }

  // A sweep starts, selects the draft, and deletes it.
  function SweepOf(u: Uuid): seq<Choice> {
    [Start(Sweeping(1, 10, None)), Step(0, 0, [], {u}), Step(0, 0, [], {})]
  }

  lemma SweepSelects(u: Uuid)
    ensures var w := Do(CFG, Do(CFG, PaidStart(u), Start(Sweeping(1, 10, None))), Step(0, 0, [], {u}));
            w == PaidStart(u).(threads := [Sweeping(1, 10, Some({u}))])
  {
    var w := Do(CFG, PaidStart(u), Start(Sweeping(1, 10, None)));
    assert w == PaidStart(u).(threads := [Sweeping(1, 10, None)]);
    assert Orphans(w.db.rows, 1) == {u};
  }

  lemma AskIsStable(u: Uuid)
    ensures Asked(Flat(PaidStart(u).blocks[..StableCount(CFG, PaidStart(u).blocks)]), u)
  {
    var block := [EscrowWitness.AskEvent(u)];
    var blocks: seq<Block> := [[], block];
    assert blocks[..2] == blocks && blocks[..1][..0] == [] && Flat(blocks[..1]) == [] && [] + block == block;
    assert IsAskFor(block[0], u);
  }

  lemma PaidIsInit(u: Uuid)
    requires Mining.KeyOf(0) == Some(u)
    ensures Init(CFG, PaidStart(u)) && PaidStart(u).blocks == Mining.Mined(EscrowWitness.Genesis(), EscrowWitness.PAID)
  {
    EscrowWitness.PaidMined(u, CFG);
  }

  // The question is open in the contract.
  lemma PaidIsOpen(u: Uuid)
    requires Mining.KeyOf(0) == Some(u)
    ensures var s := Mining.After(EscrowWitness.Genesis(), Mining.PlaceAll(EscrowWitness.PAID));
            Mirror.AnswersTo(s, 1, u) && s.questions[1] == EscrowWitness.QUESTION
  {
    EscrowWitness.PaidMined(u, CFG);
    EscrowWitness.OnceAskedIs();
  }

  lemma SweepDeletes(u: Uuid)
    ensures var w := RunWorld(CFG, PaidStart(u), SweepOf(u));
            u !in w.db.rows && w.blocks == PaidStart(u).blocks
  {
    ThreeChoices(CFG, PaidStart(u), SweepOf(u)[0], SweepOf(u)[1], SweepOf(u)[2]);
    SweepSelects(u);
  }

  // The draft is paid on chain, and not indexed, when a sweep deletes it. Its question stays open in the
  // contract, and no continuation brings its row back.
  lemma PaidDraftIsSwept(u: Uuid, more: seq<Choice>)
    requires Mining.KeyOf(0) == Some(u)
    ensures Init(CFG, PaidStart(u)) && PaidStart(u).blocks == Mining.Mined(EscrowWitness.Genesis(), EscrowWitness.PAID)
    ensures var s := Mining.After(EscrowWitness.Genesis(), Mining.PlaceAll(EscrowWitness.PAID));
            Mirror.AnswersTo(s, 1, u) && s.questions[1] == EscrowWitness.QUESTION
    ensures u in PaidStart(u).db.rows && u !in RunWorld(CFG, RunWorld(CFG, PaidStart(u), SweepOf(u)), more).db.rows
  {
    PaidIsInit(u);
    PaidIsOpen(u);
    SweepDeletes(u);
    AskIsStable(u);
    GoneForever(CFG, RunWorld(CFG, PaidStart(u), SweepOf(u)), more, u);
  }
}
