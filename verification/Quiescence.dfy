// When the indexer is at rest: events are ahead of the cursor only while some pass is between reading
// a chunk and saving its end, or was killed there and no later pass has saved that end. Otherwise the
// rows show the contract as it was at the end of the cursor's block.
module Quiescence {
  import opened Prelude
  import opened Events
  import opened Chain
  import opened Tables
  import opened System
  import opened SystemSafety
  import opened Mining
  import opened Mirror
  import E = EscrowSpec
  import EscrowSafety

  // A pass that accounts for events applied beyond the cursor.
  predicate IsAhead(blocks: seq<Block>, frontier: nat, t: Thread) {
    && t.Pass?
    && match t.pc
       case ApplyNext(_, _, _, pos) => frontier <= pos
       case RevealNext(_, _, _, _, pos) => frontier <= pos
       case Killed(Some(hi)) => hi < |blocks| && frontier <= |Flat(blocks[..hi + 1])|
       case _ => false
  }

  ghost predicate CursorIsBehind(cfg: Config, blocks: seq<Block>, cursor: Option<nat>, frontier: nat) {
    CursorBlock(cursor, cfg) < |blocks| ==> |Flat(blocks[..CursorBlock(cursor, cfg) + 1])| < frontier
  }

  ghost predicate SomeAhead(blocks: seq<Block>, frontier: nat, threads: seq<Thread>) {
    exists i :: 0 <= i < |threads| && IsAhead(blocks, frontier, threads[i])
  }

  ghost predicate Accounted(cfg: Config, w: World) {
    CursorIsBehind(cfg, w.blocks, w.cursor, w.frontier) ==> SomeAhead(w.blocks, w.frontier, w.threads)
  }

  lemma MoreBlocksMoreEvents(blocks: seq<Block>, a: nat, b: nat)
    requires a <= b <= |blocks|
    ensures |Flat(blocks[..a])| <= |Flat(blocks[..b])|
  {
    PrefixOfFlat(blocks[..b], a);
    assert blocks[..b][..a] == blocks[..a];
  }

  // A pass that applies an unapplied event becomes the one ahead.
  lemma CasAccounts(cfg: Config, w: World, t: Thread)
    requires StateOk(cfg, w, t) && t.Pass? && t.pc.ApplyNext? && |t.pc.queue| > 0
    requires CasStep(cfg, w, t).thread.pc != Failed
    ensures var eff := CasStep(cfg, w, t);
            && eff.cursor == w.cursor
            && (IsAhead(w.blocks, eff.frontier, eff.thread)
                || (eff.frontier == w.frontier && !IsAhead(w.blocks, w.frontier, t)))
  {
  }

  lemma SavedBlocksCount(cfg: Config, blocks: seq<Block>, cursor: Option<nat>, frontier: nat, hi: nat)
    requires hi < |blocks| && CursorBlock(cursor, cfg) < |blocks| && cfg.startBlock <= hi
    ensures var saved := Some(SaveCursor(cursor, hi));
            && (frontier <= |Flat(blocks[..hi + 1])| ==> !CursorIsBehind(cfg, blocks, saved, frontier))
            && (CursorIsBehind(cfg, blocks, saved, frontier) ==> CursorIsBehind(cfg, blocks, cursor, frontier))
  {
    MoreBlocksMoreEvents(blocks, hi + 1, SaveCursor(cursor, hi) + 1);
    MoreBlocksMoreEvents(blocks, CursorBlock(cursor, cfg) + 1, SaveCursor(cursor, hi) + 1);
  }

  // A pass that saves the end of its chunk leaves nothing of it beyond the cursor.
  lemma SaveAccounts(cfg: Config, w: World, t: Thread)
    requires StateOk(cfg, w, t) && t.Pass? && t.pc.ApplyNext? && t.pc.queue == []
    ensures IsAhead(w.blocks, w.frontier, t) ==> !CursorIsBehind(cfg, w.blocks, SaveCursorStep(w, t).cursor, w.frontier)
    ensures CursorIsBehind(cfg, w.blocks, SaveCursorStep(w, t).cursor, w.frontier)
            ==> CursorIsBehind(cfg, w.blocks, w.cursor, w.frontier)
  {
    SavedBlocksCount(cfg, w.blocks, w.cursor, w.frontier, t.pc.hi);
  }

  lemma PassAccounts(cfg: Config, w: World, t: Thread, nodeHead: nat, reply: seq<EscrowEvent>)
    requires StateOk(cfg, w, t) && t.Pass? && Configured(cfg)
    ensures var eff := PassStep(cfg, w, t, nodeHead, reply);
            CursorIsBehind(cfg, w.blocks, eff.cursor, eff.frontier) ==>
              IsAhead(w.blocks, eff.frontier, eff.thread)
              || (eff.frontier == w.frontier && !IsAhead(w.blocks, w.frontier, t)
                  && CursorIsBehind(cfg, w.blocks, w.cursor, w.frontier))
  {
    var eff := PassStep(cfg, w, t, nodeHead, reply);
    if t.pc.ApplyNext? {
      if |t.pc.queue| > 0 {
        CasIsOk(cfg, w, t);
        assert ThreadOk(cfg, w.blocks, eff.db.rows, eff.frontier, eff.thread);
        CasAccounts(cfg, w, t);
      } else {
        SaveAccounts(cfg, w, t);
      }
    }
  }

  lemma StepKeepsAccounted(cfg: Config, w: World, i: nat, nodeHead: nat, reply: seq<EscrowEvent>, picked: set<Uuid>)
    requires Inv(cfg, w) && Configured(cfg) && Accounted(cfg, w) && i < |w.threads|
    ensures Accounted(cfg, Do(cfg, w, Step(i, nodeHead, reply, picked)))
  {
    var t, w' := w.threads[i], Do(cfg, w, Step(i, nodeHead, reply, picked));
    if t.Pass? {
      PassAccounts(cfg, w, t, nodeHead, reply);
    }
    if CursorIsBehind(cfg, w'.blocks, w'.cursor, w'.frontier) && !IsAhead(w'.blocks, w'.frontier, w'.threads[i]) {
      var j :| 0 <= j < |w.threads| && IsAhead(w.blocks, w.frontier, w.threads[j]);
      assert j != i && w'.threads[j] == w.threads[j];
    }
  }

  // The chunk of a killed pass is stable, so a reorganisation does not change what it accounts for.
  lemma StaysAhead(cfg: Config, w: World, blocks: seq<Block>, t: Thread)
    requires ThreadOk(cfg, w.blocks, w.db.rows, w.frontier, t) && ChainStep(cfg, w.blocks, blocks)
    requires IsAhead(w.blocks, w.frontier, t)
    ensures IsAhead(blocks, w.frontier, t)
  {
    if t.pc.Killed? {
      SamePrefix(cfg, w.blocks, blocks, t.pc.chunk.value + 1);
    }
  }

  lemma NewChainKeepsAccounted(cfg: Config, w: World, blocks: seq<Block>)
    requires Inv(cfg, w) && Accounted(cfg, w) && ChainStep(cfg, w.blocks, blocks)
    ensures Accounted(cfg, w.(blocks := blocks))
  {
    if CursorBlock(w.cursor, cfg) < StableCount(cfg, w.blocks) {
      SamePrefix(cfg, w.blocks, blocks, CursorBlock(w.cursor, cfg) + 1);
    }
    if j :| 0 <= j < |w.threads| && IsAhead(w.blocks, w.frontier, w.threads[j]) {
      StaysAhead(cfg, w, blocks, w.threads[j]);
    }
  }

  lemma DoKeepsAccounted(cfg: Config, w: World, c: Choice)
    requires Inv(cfg, w) && Configured(cfg) && Accounted(cfg, w)
    ensures Accounted(cfg, Do(cfg, w, c))
  {
    match c
    case Step(i, nodeHead, reply, picked) =>
      if i < |w.threads| {
        StepKeepsAccounted(cfg, w, i, nodeHead, reply, picked);
      }
    case NewChain(blocks) =>
      if ChainStep(cfg, w.blocks, blocks) {
        NewChainKeepsAccounted(cfg, w, blocks);
      }
    case Kill(k) => KillKeepsAccounted(cfg, w, k);
    case Start(t) =>
      if j :| 0 <= j < |w.threads| && IsAhead(w.blocks, w.frontier, w.threads[j]) {
        assert (w.threads + [t])[j] == w.threads[j];
      }
    case _ =>
  }

  lemma KilledStaysAhead(cfg: Config, w: World, t: Thread)
    requires ThreadOk(cfg, w.blocks, w.db.rows, w.frontier, t) && IsAhead(w.blocks, w.frontier, t)
    ensures IsAhead(w.blocks, w.frontier, KillThread(t))
  {
  }

  lemma KillKeepsAccounted(cfg: Config, w: World, k: nat)
    requires Inv(cfg, w) && Accounted(cfg, w) && Configured(cfg)
    ensures Accounted(cfg, Do(cfg, w, Kill(k)))
  {
    if j :| 0 <= j < |w.threads| && IsAhead(w.blocks, w.frontier, w.threads[j]) {
      KilledStaysAhead(cfg, w, w.threads[j]);
      assert IsAhead(w.blocks, w.frontier, Do(cfg, w, Kill(k)).threads[j]);
    }
  }

  lemma {:induction false} AccountedForever(cfg: Config, w: World, choices: seq<Choice>)
    requires Inv(cfg, w) && Configured(cfg) && Accounted(cfg, w)
    ensures Inv(cfg, RunWorld(cfg, w, choices)) && Accounted(cfg, RunWorld(cfg, w, choices))
  {
    InvForever(cfg, w, choices);
    if |choices| > 0 {
      var front := choices[..|choices| - 1];
      AccountedForever(cfg, w, front);
      DoKeepsAccounted(cfg, RunWorld(cfg, w, front), choices[|choices| - 1]);
    }
  }

  // Not between reading a chunk and saving its end, nor killed there with its end still beyond c.
  predicate IsDone(pc: PassPc, c: nat) {
    match pc
    case ApplyNext(_, _, _, _) => false
    case RevealNext(_, _, _, _, _) => false
    case Killed(Some(hi)) => hi <= c
    case _ => true
  }

  predicate AtRest(cfg: Config, w: World) {
    forall i :: 0 <= i < |w.threads| && w.threads[i].Pass? ==> IsDone(w.threads[i].pc, CursorBlock(w.cursor, cfg))
  }

  // What a killed pass applied is within the cursor once the cursor has passed its chunk.
  lemma DoneIsNotAhead(cfg: Config, w: World, t: Thread)
    requires ChainOk(cfg, w) && t.Pass? && IsDone(t.pc, CursorBlock(w.cursor, cfg))
    requires IsAhead(w.blocks, w.frontier, t)
    ensures !CursorIsBehind(cfg, w.blocks, w.cursor, w.frontier)
  {
    MoreBlocksMoreEvents(w.blocks, t.pc.chunk.value + 1, CursorBlock(w.cursor, cfg) + 1);
  }

  lemma NothingBeyondCursor(cfg: Config, w: World)
    requires Inv(cfg, w) && Accounted(cfg, w) && AtRest(cfg, w)
    ensures FoldedToCursor(cfg, w)
  {
    if i :| 0 <= i < |w.threads| && IsAhead(w.blocks, w.frontier, w.threads[i]) {
      DoneIsNotAhead(cfg, w, w.threads[i]);
    }
  }

  // In every reachable state at rest, whatever transactions were mined, the rows show the contract at
  // the end of the cursor's block.
  lemma RestingMirror(cfg: Config, s: E.State, w: World, choices: seq<Choice>, txBlocks: seq<seq<E.Tx>>)
    requires Configured(cfg) && EscrowSafety.Deployed(s) && Unindexed(cfg, w) && FedByEscrow(cfg, s, w, choices)
    requires RunWorld(cfg, w, choices).blocks == Mined(s, txBlocks) && AtRest(cfg, RunWorld(cfg, w, choices))
    ensures ShowsCursorBlock(cfg, s, RunWorld(cfg, w, choices), txBlocks)
  {
    StartsAccounted(cfg, s, w, choices);
    AccountedForever(cfg, w, choices);
    NothingBeyondCursor(cfg, RunWorld(cfg, w, choices));
    CaughtUpMirror(cfg, s, RunWorld(cfg, w, choices), txBlocks);
  }

  lemma StartsAccounted(cfg: Config, s: E.State, w: World, choices: seq<Choice>)
    requires Configured(cfg) && EscrowSafety.Deployed(s) && Unindexed(cfg, w) && FedByEscrow(cfg, s, w, choices)
    ensures Inv(cfg, w) && Accounted(cfg, w)
  {
    ReachableInv(cfg, s, w, []);
    assert RunWorld(cfg, w, []) == w;
  }
}
