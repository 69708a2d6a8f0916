// Whole runs of the system: what holds in every state that any interleaving of mints, passes, sweeps,
// saves, publishes and reorganisations reaches, and what later states keep of earlier ones.
module SystemRuns {
  import opened Prelude
  import opened Events
  import opened MoneyFold
  import opened Chain
  import opened Tables
  import opened Api
  import opened System
  import opened SystemSafety

  // ---------------------------------------------------------------- one prefix behind the rows

  // The rows are the fold of one prefix of the log, the blocks up to the cursor lie within it, and no
  // pass has failed on the unique index.
  ghost predicate Linearised(cfg: Config, w: World) {
    && w.frontier <= |Flat(w.blocks)| && CursorBlock(w.cursor, cfg) < |w.blocks|
    && (forall u :: u in w.db.rows ==>
          w.db.rows[u].money
          == if w.db.rows[u].chainId == cfg.chainId then Fold(PENDING, u, AppliedLog(w)) else PENDING)
    && Flat(w.blocks[..CursorBlock(w.cursor, cfg) + 1]) <= AppliedLog(w)
    && (forall i :: 0 <= i < |w.threads| && w.threads[i].Pass? ==> w.threads[i].pc != Failed)
  }

  lemma InvLinearises(cfg: Config, w: World)
    requires Inv(cfg, w)
    ensures Linearised(cfg, w)
  {
    PrefixOfFlat(w.blocks, CursorBlock(w.cursor, cfg) + 1);
    forall u | u in w.db.rows
      ensures RowMirrors(cfg, u, w.db.rows[u], AppliedLog(w))
    {
    }
    forall i | 0 <= i < |w.threads| && w.threads[i].Pass?
      ensures w.threads[i].pc != Failed
    {
      assert ThreadOk(cfg, w.blocks, w.db.rows, w.frontier, w.threads[i]);
    }
  }

  // Any number of passes may overlap and be killed anywhere.
  lemma PassesLinearise(cfg: Config, w: World, choices: seq<Choice>)
    requires Init(cfg, w) && Configured(cfg)
    ensures Linearised(cfg, RunWorld(cfg, w, choices))
  {
    InitIsInv(cfg, w);
    InvForever(cfg, w, choices);
    InvLinearises(cfg, RunWorld(cfg, w, choices));
  }

  // revealed_at is set only on answered rows, and only answered rows are public.
  lemma PaywallHolds(cfg: Config, w: World, choices: seq<Choice>)
    requires Init(cfg, w) && Configured(cfg)
    ensures var db := RunWorld(cfg, w, choices).db;
            && (forall u :: u in db.answers && db.answers[u].revealedAt.Some? ==> IsAnswered(db.rows, u))
            && (forall u :: u in db.rows && db.rows[u].isPublic ==> IsAnswered(db.rows, u))
  {
    InitIsInv(cfg, w);
    InvForever(cfg, w, choices);
  }

  // ---------------------------------------------------------------- counted transitions

  // What the passes that ran to their end reported.
  function Reported(threads: seq<Thread>): nat {
    if |threads| == 0 then 0
    else
      var t := threads[|threads| - 1];
      Reported(threads[..|threads| - 1]) + if t.Pass? && t.pc == Completed then t.applied else 0
  }

  lemma {:induction false} ReportedAtMostApplied(threads: seq<Thread>)
    ensures Reported(threads) <= AppliedTotal(threads)
    ensures (forall i :: 0 <= i < |threads| && threads[i].Pass? ==> threads[i].pc == Completed)
            ==> Reported(threads) == AppliedTotal(threads)
  {
    if |threads| > 0 {
      ReportedAtMostApplied(threads[..|threads| - 1]);
    }
  }

  // The transitions reported never exceed the status ranks gained since the start, and are all of
  // them when every pass ran to its end: no transition is counted twice, however passes overlap.
  lemma TransitionsAreCountedOnce(cfg: Config, w: World, choices: seq<Choice>)
    requires Init(cfg, w) && Configured(cfg)
    ensures var w' := RunWorld(cfg, w, choices);
            && RankTotal(w.db.rows) == 0
            && Reported(w'.threads) <= RankTotal(w'.db.rows)
            && ((forall i :: 0 <= i < |w'.threads| && w'.threads[i].Pass? ==> w'.threads[i].pc == Completed)
                ==> Reported(w'.threads) == RankTotal(w'.db.rows))
  {
    InitIsInv(cfg, w);
    InvForever(cfg, w, choices);
    UnpaidHaveNoRank(w.db.rows);
    ReportedAtMostApplied(RunWorld(cfg, w, choices).threads);
  }

  // ---------------------------------------------------------------- what later states keep

  lemma {:induction false} RunsJoin(cfg: Config, w: World, a: seq<Choice>, b: seq<Choice>)
    requires Configured(cfg)
    ensures RunWorld(cfg, w, a + b) == RunWorld(cfg, RunWorld(cfg, w, a), b)
  {
    if |b| == 0 {
      assert a + b == a;
    } else {
      RunsJoin(cfg, w, a, b[..|b| - 1]);
      assert (a + b)[..|a + b| - 1] == a + b[..|b| - 1];
    }
  }

  // The reveal time of an answer, if it has one.
  function RevealedAt(db: Db, u: Uuid): Option<int> {
    if u in db.answers then db.answers[u].revealedAt else None
  }

  // A row whose ask was applied stays, on its chain, with its parties, and past pending.
  ghost predicate StillAsked(rows: Rows, rows': Rows, u: Uuid) {
    u in rows && rows[u].money.status != PendingPayment ==>
      && u in rows' && rows'[u].chainId == rows[u].chainId && rows'[u].money.status != PendingPayment
      && rows'[u].asker == rows[u].asker && rows'[u].answerer == rows[u].answerer
      && rows'[u].createdAt == rows[u].createdAt
  }

  ghost predicate Progress(cfg: Config, w: World, w': World)
    requires w.frontier <= |Flat(w.blocks)| && w'.frontier <= |Flat(w'.blocks)|
  {
    && AppliedLog(w) <= AppliedLog(w')
    && CursorBlock(w.cursor, cfg) <= CursorBlock(w'.cursor, cfg)
    && (forall u :: IsAnswered(w.db.rows, u) ==> IsAnswered(w'.db.rows, u))
    && (forall u :: RevealedAt(w.db, u).Some? ==> RevealedAt(w'.db, u) == RevealedAt(w.db, u))
    && (forall u :: StillAsked(w.db.rows, w'.db.rows, u))
  }

  lemma CasStillAsked(cfg: Config, rows: Rows, e: EscrowEvent, u: Uuid)
    requires CasQuestion(rows, cfg, e).Ok?
    ensures StillAsked(rows, CasQuestion(rows, cfg, e).value, u)
  {
  }

  // A pass never lowers the cursor, returns a row to pending, or touches a reveal time that is set.
  lemma PassProgress(cfg: Config, w: World, t: Thread, nodeHead: nat, reply: seq<EscrowEvent>)
    requires t.Pass? && Configured(cfg)
    requires t.pc.ApplyNext? ==> cfg.startBlock <= t.pc.hi
    ensures var eff := PassStep(cfg, w, t, nodeHead, reply);
            && CursorBlock(w.cursor, cfg) <= CursorBlock(eff.cursor, cfg)
            && (forall u :: StillAsked(w.db.rows, eff.db.rows, u))
            && (forall u :: RevealedAt(w.db, u).Some? ==> RevealedAt(eff.db, u) == RevealedAt(w.db, u))
  {
    if t.pc.ApplyNext? && |t.pc.queue| > 0 && CasQuestion(w.db.rows, cfg, t.pc.queue[0]).Ok? {
      forall u {
        CasStillAsked(cfg, w.db.rows, t.pc.queue[0], u);
      }
    }
  }

  // A sweep deletes only pending rows, so neither an asked row nor a reveal is lost.
  lemma OtherProgress(cfg: Config, w: World, t: Thread, nodeHead: nat, reply: seq<EscrowEvent>, picked: set<Uuid>)
    requires !t.Pass? && Configured(cfg) && Paywalled(w.db)
    ensures var eff := ThreadStep(cfg, w, t, nodeHead, reply, picked);
            && eff.cursor == w.cursor
            && (forall u :: StillAsked(w.db.rows, eff.db.rows, u))
            && (forall u :: RevealedAt(w.db, u).Some? ==> RevealedAt(eff.db, u) == RevealedAt(w.db, u))
  {
  }

  lemma StepProgress(cfg: Config, w: World, i: nat, nodeHead: nat, reply: seq<EscrowEvent>, picked: set<Uuid>)
    requires Inv(cfg, w) && Configured(cfg) && i < |w.threads|
    ensures var w' := Do(cfg, w, Step(i, nodeHead, reply, picked));
            w'.frontier <= |Flat(w'.blocks)| && Progress(cfg, w, w')
  {
    var t := w.threads[i];
    StepIsOk(cfg, w, t, nodeHead, reply, picked);
    if t.Pass? {
      PassProgress(cfg, w, t, nodeHead, reply);
    } else {
      OtherProgress(cfg, w, t, nodeHead, reply, picked);
    }
  }

  lemma NewChainProgress(cfg: Config, w: World, blocks: seq<Block>)
    requires Inv(cfg, w) && ChainStep(cfg, w.blocks, blocks)
    ensures w.frontier <= |Flat(blocks)| && Progress(cfg, w, w.(blocks := blocks))
  {
    AppliedSurvives(cfg, w, blocks);
  }

  // A change that only adds rows and moves threads.
  lemma GrowthIsProgress(cfg: Config, w: World, w': World)
    requires w.frontier <= |Flat(w.blocks)| && w'.blocks == w.blocks && w'.frontier == w.frontier
    requires w'.cursor == w.cursor && w'.db.answers == w.db.answers
    requires forall u :: u in w.db.rows ==> u in w'.db.rows && w'.db.rows[u] == w.db.rows[u]
    ensures Progress(cfg, w, w')
  {
  }

  lemma DoProgress(cfg: Config, w: World, c: Choice)
    requires Inv(cfg, w) && Configured(cfg)
    ensures Do(cfg, w, c).frontier <= |Flat(Do(cfg, w, c).blocks)| && Progress(cfg, w, Do(cfg, w, c))
  {
    match c
    case Step(i, nodeHead, reply, picked) =>
      if i < |w.threads| {
        StepProgress(cfg, w, i, nodeHead, reply, picked);
      }
    case NewChain(blocks) =>
      if ChainStep(cfg, w.blocks, blocks) {
        NewChainProgress(cfg, w, blocks);
      }
    case _ => GrowthIsProgress(cfg, w, Do(cfg, w, c));
  }

  lemma ProgressJoins(cfg: Config, a: World, b: World, c: World)
    requires a.frontier <= |Flat(a.blocks)| && b.frontier <= |Flat(b.blocks)| && c.frontier <= |Flat(c.blocks)|
    requires Progress(cfg, a, b) && Progress(cfg, b, c)
    ensures Progress(cfg, a, c)
  {
    forall u
      ensures StillAsked(a.db.rows, c.db.rows, u)
    {
      assert StillAsked(a.db.rows, b.db.rows, u) && StillAsked(b.db.rows, c.db.rows, u);
    }
  }

  // Reorganisations included, the applied events stay the canonical prefix, the cursor never moves
  // back, answers stay answered and revealed when they were, and no sweep deletes an asked row.
  lemma {:induction false} ProgressForever(cfg: Config, w: World, choices: seq<Choice>)
    requires Inv(cfg, w) && Configured(cfg)
    ensures var w' := RunWorld(cfg, w, choices);
            w'.frontier <= |Flat(w'.blocks)| && Progress(cfg, w, w')
  {
    if |choices| > 0 {
      var front := choices[..|choices| - 1];
      ProgressForever(cfg, w, front);
      InvForever(cfg, w, front);
      DoProgress(cfg, RunWorld(cfg, w, front), choices[|choices| - 1]);
      ProgressJoins(cfg, w, RunWorld(cfg, w, front), RunWorld(cfg, w, choices));
    }
  }

  // A row whose ask lies in the applied prefix survives every sweep, even one that had selected it.
  lemma AskedRowSurvives(cfg: Config, w: World, choices: seq<Choice>, u: Uuid, k: nat)
    requires Inv(cfg, w) && Configured(cfg)
    requires u in w.db.rows && w.db.rows[u].chainId == cfg.chainId
    requires k < w.frontier && IsAskFor(AppliedLog(w)[k], u)
    ensures var rows := RunWorld(cfg, w, choices).db.rows;
            && u in rows && rows[u].money.status != PendingPayment
            && rows[u].asker == w.db.rows[u].asker && rows[u].answerer == w.db.rows[u].answerer
  {
    assert RowMirrors(cfg, u, w.db.rows[u], AppliedLog(w));
    AskLeavesPending(u, AppliedLog(w), k);
    ProgressForever(cfg, w, choices);
    assert StillAsked(w.db.rows, RunWorld(cfg, w, choices).db.rows, u);
  }
}
