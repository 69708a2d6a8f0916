// The three places where requests can cross: check-then-write, write-then-reveal, and a sweep against
// an ask that is on chain but not indexed yet; and exactly what each crossing costs.
module Races {
  import opened Prelude
  import opened Events
  import opened MoneyFold
  import opened Chain
  import opened Tables
  import opened Sweep
  import opened Api
  import opened System
  import opened SystemSafety
  import opened SystemRuns

  // ---------------------------------------------------------------- the answer body

  function BodyOf(db: Db, u: Uuid): Option<string> {
    if u in db.answers then Some(db.answers[u].body) else None
  }

  // A save of another body, or of a first one, that passed its check and has not written yet.
  predicate MayStillSave(t: Thread, u: Uuid, body: Option<string>) {
    t.Saving? && t.checked && t.u == u && Some(t.body) != body
  }

  ghost predicate Frozen(w: World, u: Uuid, body: Option<string>) {
    && IsAnswered(w.db.rows, u) && BodyOf(w.db, u) == body
    && forall i :: 0 <= i < |w.threads| ==> !MayStillSave(w.threads[i], u, body)
  }

  lemma StepKeepsAnswered(cfg: Config, w: World, t: Thread, nodeHead: nat, reply: seq<EscrowEvent>, picked: set<Uuid>,
                          u: Uuid)
    requires Configured(cfg) && IsAnswered(w.db.rows, u)
    ensures IsAnswered(ThreadStep(cfg, w, t, nodeHead, reply, picked).db.rows, u)
  {
  }

  lemma StepKeepsFrozen(cfg: Config, w: World, t: Thread, nodeHead: nat, reply: seq<EscrowEvent>, picked: set<Uuid>,
                        u: Uuid, body: Option<string>)
    requires Configured(cfg) && Frozen(w, u, body) && !MayStillSave(t, u, body)
    ensures var eff := ThreadStep(cfg, w, t, nodeHead, reply, picked);
            BodyOf(eff.db, u) == body && !MayStillSave(eff.thread, u, body)
  {
  }

  lemma DoKeepsFrozen(cfg: Config, w: World, c: Choice, u: Uuid, body: Option<string>)
    requires Configured(cfg) && Frozen(w, u, body)
    ensures Frozen(Do(cfg, w, c), u, body)
  {
    match c
    case Step(i, nodeHead, reply, picked) =>
      if i < |w.threads| {
        StepKeepsAnswered(cfg, w, w.threads[i], nodeHead, reply, picked, u);
        StepKeepsFrozen(cfg, w, w.threads[i], nodeHead, reply, picked, u, body);
      }
    case _ =>
  }

  lemma {:induction false} FrozenForever(cfg: Config, w: World, choices: seq<Choice>, u: Uuid, body: Option<string>)
    requires Configured(cfg) && Frozen(w, u, body)
    ensures Frozen(RunWorld(cfg, w, choices), u, body)
  {
    if |choices| > 0 {
      FrozenForever(cfg, w, choices[..|choices| - 1], u, body);
      DoKeepsFrozen(cfg, RunWorld(cfg, w, choices[..|choices| - 1]), choices[|choices| - 1], u, body);
    }
  }

  lemma OneChoice(cfg: Config, w: World, c: Choice)
    requires Configured(cfg)
    ensures RunWorld(cfg, w, [c]) == Do(cfg, w, c)
  {
    assert [c][..0] == [];
    assert RunWorld(cfg, w, []) == w;
  }

  // Once answered, the body, or its absence, is frozen in every continuation exactly when no save of
  // another body had passed its check before the answer was indexed.
  lemma BodyFrozenIff(cfg: Config, w: World, u: Uuid)
    requires Configured(cfg) && IsAnswered(w.db.rows, u)
    ensures (forall choices :: BodyOf(RunWorld(cfg, w, choices).db, u) == BodyOf(w.db, u))
            <==> forall i :: 0 <= i < |w.threads| ==> !MayStillSave(w.threads[i], u, BodyOf(w.db, u))
  {
    var body := BodyOf(w.db, u);
    if forall i :: 0 <= i < |w.threads| ==> !MayStillSave(w.threads[i], u, body) {
      forall choices
        ensures BodyOf(RunWorld(cfg, w, choices).db, u) == body
      {
        FrozenForever(cfg, w, choices, u, body);
      }
    } else {
      var i: nat :| i < |w.threads| && MayStillSave(w.threads[i], u, body);
      OneChoice(cfg, w, Step(i, 0, [], {}));
      assert BodyOf(RunWorld(cfg, w, [Step(i, 0, [], {})]).db, u) == Some(w.threads[i].body);
    }
  }

  // ---------------------------------------------------------------- the reveal

  // A pass between the update that answered the row and the reveal of its answer.
  predicate AboutToReveal(t: Thread, u: Uuid) {
    t.Pass? && t.pc.RevealNext? && t.pc.u == u
  }

  ghost predicate Unrevealed(w: World, u: Uuid) {
    && IsAnswered(w.db.rows, u) && RevealedAt(w.db, u).None?
    && forall i :: 0 <= i < |w.threads| ==> !AboutToReveal(w.threads[i], u)
  }

  lemma StepKeepsUnrevealed(cfg: Config, w: World, t: Thread, nodeHead: nat, reply: seq<EscrowEvent>, picked: set<Uuid>,
                            u: Uuid)
    requires Configured(cfg) && Unrevealed(w, u) && !AboutToReveal(t, u)
    ensures var eff := ThreadStep(cfg, w, t, nodeHead, reply, picked);
            RevealedAt(eff.db, u).None? && !AboutToReveal(eff.thread, u)
  {
  }

  lemma DoKeepsUnrevealed(cfg: Config, w: World, c: Choice, u: Uuid)
    requires Configured(cfg) && Unrevealed(w, u)
    ensures Unrevealed(Do(cfg, w, c), u)
  {
    match c
    case Step(i, nodeHead, reply, picked) =>
      if i < |w.threads| {
        StepKeepsAnswered(cfg, w, w.threads[i], nodeHead, reply, picked, u);
        StepKeepsUnrevealed(cfg, w, w.threads[i], nodeHead, reply, picked, u);
      }
    case _ =>
  }

  lemma {:induction false} UnrevealedForever(cfg: Config, w: World, choices: seq<Choice>, u: Uuid)
    requires Configured(cfg) && Unrevealed(w, u)
    ensures Unrevealed(RunWorld(cfg, w, choices), u)
  {
    if |choices| > 0 {
      UnrevealedForever(cfg, w, choices[..|choices| - 1], u);
      DoKeepsUnrevealed(cfg, RunWorld(cfg, w, choices[..|choices| - 1]), choices[|choices| - 1], u);
    }
  }

  lemma TwoChoices(cfg: Config, w: World, c: Choice, d: Choice)
    requires Configured(cfg)
    ensures RunWorld(cfg, w, [c, d]) == Do(cfg, Do(cfg, w, c), d)
  {
    assert [c, d][..1] == [c];
    OneChoice(cfg, w, c);
  }

  // Saving first and revealing then sets the reveal time even of a draft that is not there yet.
  lemma SaveThenReveal(cfg: Config, w: World, u: Uuid, i: nat, j: nat)
    requires Configured(cfg) && u in w.db.rows && u !in w.db.answers
    requires i < |w.threads| && AboutToReveal(w.threads[i], u)
    requires j < |w.threads| && MayStillSave(w.threads[j], u, None)
    ensures RevealedAt(RunWorld(cfg, w, [Step(j, 0, [], {}), Step(i, 0, [], {})]).db, u).Some?
  {
    TwoChoices(cfg, w, Step(j, 0, [], {}), Step(i, 0, [], {}));
  }

  // The reveal time of an answered row, when it is not set, can ever be set exactly when some pass is
  // still between the two statements and there is a draft for it, or a first save about to write one.
  // Otherwise it stays null for good.
  lemma RevealIsPossibleIff(cfg: Config, w: World, u: Uuid)
    requires Configured(cfg) && IsAnswered(w.db.rows, u) && RevealedAt(w.db, u).None?
    ensures (exists choices :: RevealedAt(RunWorld(cfg, w, choices).db, u).Some?)
            <==> && (exists i :: 0 <= i < |w.threads| && AboutToReveal(w.threads[i], u))
                 && (u in w.db.answers || exists j :: 0 <= j < |w.threads| && MayStillSave(w.threads[j], u, None))
  {
    if i: nat :| i < |w.threads| && AboutToReveal(w.threads[i], u) {
      if u in w.db.answers {
        OneChoice(cfg, w, Step(i, 0, [], {}));
        assert RevealedAt(RunWorld(cfg, w, [Step(i, 0, [], {})]).db, u).Some?;
      } else if j: nat :| j < |w.threads| && MayStillSave(w.threads[j], u, None) {
        SaveThenReveal(cfg, w, u, i, j);
      } else {
        forall choices
          ensures RevealedAt(RunWorld(cfg, w, choices).db, u).None?
        {
          FrozenForever(cfg, w, choices, u, None);
        }
      }
    } else {
      forall choices
        ensures RevealedAt(RunWorld(cfg, w, choices).db, u).None?
      {
        UnrevealedForever(cfg, w, choices, u);
      }
    }
  }

  // ---------------------------------------------------------------- the sweep

  // A row of this chain is an orphan exactly when it is old and no ask for it has been applied,
  // whatever the chain holds beyond that.
  lemma OrphanIff(cfg: Config, w: World, u: Uuid, cutoff: int)
    requires Inv(cfg, w) && u in w.db.rows && w.db.rows[u].chainId == cfg.chainId
    ensures IsOrphan(w.db.rows[u], cutoff) <==> w.db.rows[u].createdAt < cutoff && !Asked(AppliedLog(w), u)
  {
    var log := AppliedLog(w);
    assert RowMirrors(cfg, u, w.db.rows[u], log);
    if k :| 0 <= k < |log| && IsAskFor(log[k], u) {
      AskLeavesPending(u, log, k);
    } else {
      WithoutAskPending(u, log);
    }
  }

  // The delete of a sweep that selected a draft spares it exactly when the draft is young or its ask has
  // been applied. That its ask is on chain, and its money in the escrow, does not spare it.
  lemma SweepSparesIff(cfg: Config, w: World, i: nat, u: Uuid, nodeHead: nat, reply: seq<EscrowEvent>,
                       picked: set<Uuid>)
    requires Inv(cfg, w) && Configured(cfg) && u in w.db.rows && w.db.rows[u].chainId == cfg.chainId
    requires i < |w.threads| && w.threads[i].Sweeping?
    requires w.threads[i].picked.Some? && u in w.threads[i].picked.value
    ensures u in Do(cfg, w, Step(i, nodeHead, reply, picked)).db.rows
            <==> w.db.rows[u].createdAt >= w.threads[i].cutoff || Asked(AppliedLog(w), u)
  {
    OrphanIff(cfg, w, u, w.threads[i].cutoff);
  }

  // Gone, while an ask under its ref lies in blocks that no reorganisation drops.
  ghost predicate PaidAndGone(cfg: Config, w: World, u: Uuid) {
    u !in w.db.rows && Asked(Flat(w.blocks[..StableCount(cfg, w.blocks)]), u)
  }

  lemma StepAddsNoRow(cfg: Config, w: World, t: Thread, nodeHead: nat, reply: seq<EscrowEvent>, picked: set<Uuid>)
    requires Configured(cfg)
    ensures ThreadStep(cfg, w, t, nodeHead, reply, picked).db.rows.Keys <= w.db.rows.Keys
  {
  }

  // A ref that is on chain is not minted again.
  lemma AskedIsNotMinted(cfg: Config, w: World, u: Uuid)
    requires PaidAndGone(cfg, w, u)
    ensures !MayMint(w, u)
  {
    var stable := Flat(w.blocks[..StableCount(cfg, w.blocks)]);
    PrefixOfFlat(w.blocks, StableCount(cfg, w.blocks));
    var k :| 0 <= k < |stable| && IsAskFor(stable[k], u);
    assert Flat(w.blocks)[k] == stable[k];
  }

  lemma StableAskStays(cfg: Config, blocks: seq<Block>, blocks': seq<Block>, u: Uuid)
    requires ChainStep(cfg, blocks, blocks') && Asked(Flat(blocks[..StableCount(cfg, blocks)]), u)
    ensures Asked(Flat(blocks'[..StableCount(cfg, blocks')]), u)
  {
    var n, stable' := StableCount(cfg, blocks), blocks'[..StableCount(cfg, blocks')];
    assert stable'[..n] == blocks[..n];
    PrefixOfFlat(stable', n);
    var k :| 0 <= k < |Flat(blocks[..n])| && IsAskFor(Flat(blocks[..n])[k], u);
    assert Flat(stable')[k] == Flat(blocks[..n])[k];
  }

  lemma DoKeepsGone(cfg: Config, w: World, c: Choice, u: Uuid)
    requires Configured(cfg) && PaidAndGone(cfg, w, u)
    ensures PaidAndGone(cfg, Do(cfg, w, c), u)
  {
    match c
    case Mint(v, _, _, _, _) =>
      if v == u {
        AskedIsNotMinted(cfg, w, u);
      }
    case Step(i, nodeHead, reply, picked) =>
      if i < |w.threads| {
        StepAddsNoRow(cfg, w, w.threads[i], nodeHead, reply, picked);
      }
    case NewChain(blocks) =>
      if ChainStep(cfg, w.blocks, blocks) {
        StableAskStays(cfg, w.blocks, blocks, u);
      }
    case _ =>
  }

  // Then no continuation brings the row back: the ask matches nothing, and its ref is never minted again.
  lemma {:induction false} GoneForever(cfg: Config, w: World, choices: seq<Choice>, u: Uuid)
    requires Configured(cfg) && PaidAndGone(cfg, w, u)
    ensures PaidAndGone(cfg, RunWorld(cfg, w, choices), u)
  {
    if |choices| > 0 {
      GoneForever(cfg, w, choices[..|choices| - 1], u);
      DoKeepsGone(cfg, RunWorld(cfg, w, choices[..|choices| - 1]), choices[|choices| - 1], u);
    }
  }
}
