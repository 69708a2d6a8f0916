// One reconcile pass over the tables, and why neither chunking nor the number of passes matters.
module Reconcile {
  import opened Prelude
  import opened Events
  import opened MoneyFold
  import opened Chain
  import opened Tables
  import opened Store

  datatype ReconcileResult = ReconcileResult(fromBlock: nat, toBlock: nat, head: nat, scanned: nat, eventsSeen: nat,
                                             transitionsApplied: nat)

  // Spans of at most range blocks that tile [from, next) in order, with no gap and no overlap.
  predicate Tiles(spans: seq<(nat, nat)>, from: nat, next: nat, range: nat) {
    if |spans| == 0 then from == next
    else
      var (lo, hi) := spans[|spans| - 1];
      lo <= hi && hi + 1 == next && hi - lo < range && Tiles(spans[..|spans| - 1], from, lo, range)
  }

  lemma TilesAppend(spans: seq<(nat, nat)>, from: nat, lo: nat, hi: nat, range: nat)
    requires Tiles(spans, from, lo, range) && lo <= hi && hi - lo < range
    ensures Tiles(spans + [(lo, hi)], from, hi + 1, range)
  {
    assert (spans + [(lo, hi)])[..|spans|] == spans;
  }

  // Appending events to a fold that has succeeded so far.
  lemma FoldNext(db: Db, cfg: Config, done: seq<EscrowEvent>, e: EscrowEvent, now: int)
    ensures FoldDb(db, cfg, done + [e], now)
         == match FoldDb(db, cfg, done, now)
            case Err(f) => Err(f)
            case Ok(x) =>
              (match Tables.ApplyEvent(x.db, cfg, e, now)
               case Err(f) => Err(f)
               case Ok(db') => Ok(Folded(db', x.applied + if Matches(x.db.rows, cfg, e) then 1 else 0)))
  {
    assert (done + [e])[..|done|] == done;
  }

  // A batch of events was applied in full, or up to a failing one.
  ghost predicate BatchOutcome(before: Db, cfg: Config, events: seq<EscrowEvent>, now: int, after: Db,
                               r: Result<nat, Failure>, done: nat)
  {
    match r
    case Ok(applied) => FoldDb(before, cfg, events, now) == Ok(Folded(after, applied))
    case Err(_) =>
      && done <= |events|
      && FoldDb(before, cfg, events, now).Err?
      && match FoldDb(before, cfg, events[..done], now)
         case Err(_) => false
         case Ok(folded) => folded.db == after
  }

  // The events of one chunk, applied in order. On failure nothing from the failing event on is applied.
  method ApplyAll(db: Database, cfg: Config, events: seq<EscrowEvent>, now: int)
    returns (r: Result<nat, Failure>, ghost done: nat)
    modifies db`rows, db`answers
    ensures BatchOutcome(old(db.Contents()), cfg, events, now, db.Contents(), r, done)
  {
    var applied := 0;
    ghost var before := db.Contents();
    for i := 0 to |events|
      invariant FoldDb(before, cfg, events[..i], now) == Ok(Folded(db.Contents(), applied))
    {
      FoldNext(before, cfg, events[..i], events[i], now);
      assert events[..i] + [events[i]] == events[..i + 1];
      var one := db.ApplyEvent(cfg, events[i], now);
      if one.Err? {
        FoldDbConcat(before, cfg, events[..i + 1], events[i + 1..], now);
        assert events[..i + 1] + events[i + 1..] == events;
        return Err(one.error), i;
      }
      applied := applied + one.value;
    }
    assert events[..|events|] == events;
    return Ok(applied), |events|;
  }

  // What a pass has to do: nothing, or the blocks after the cursor up to the head or the cap.
  function PassEnd(last: nat, head: nat, cfg: Config): nat {
    if head <= last then last else Min(head, last + cfg.maxBlocksPerRun)
  }

  // The events of the blocks after last, up to and including end.
  function PassLog(blocks: seq<Block>, last: nat, end: nat): seq<EscrowEvent> {
    if last <= end < |blocks| then Flat(blocks[last + 1..end + 1]) else []
  }

  // The tables after the pass has processed the blocks up to cursor.
  ghost predicate Advanced(before: Db, c0: Option<nat>, after: Db, c1: Option<nat>, cfg: Config, blocks: seq<Block>,
                           now: int, cursor: nat, applied: nat)
  {
    match FoldDb(before, cfg, PassLog(blocks, CursorBlock(c0, cfg), cursor), now)
    case Err(_) => false
    case Ok(folded) =>
      && CursorBlock(c0, cfg) <= cursor < |blocks|
      && folded == Folded(after, applied)
      && c1 == if cursor == CursorBlock(c0, cfg) then c0 else Some(cursor)
  }

  lemma PassLogJoin(blocks: seq<Block>, a: nat, b: nat, c: nat)
    requires a <= b <= c < |blocks|
    ensures PassLog(blocks, a, b) + PassLog(blocks, b, c) == PassLog(blocks, a, c)
  {
    RangeJoin(blocks, a + 1, b + 1, c);
  }

  lemma AdvanceChunk(before: Db, c0: Option<nat>, mid: Db, c1: Option<nat>, after: Db, cfg: Config, blocks: seq<Block>,
                     now: int, cursor: nat, applied: nat, hi: nat, more: nat)
    requires Advanced(before, c0, mid, c1, cfg, blocks, now, cursor, applied) && cursor < hi < |blocks|
    requires FoldDb(mid, cfg, PassLog(blocks, cursor, hi), now) == Ok(Folded(after, more))
    ensures Advanced(before, c0, after, Some(SaveCursor(c1, hi)), cfg, blocks, now, hi, applied + more)
  {
    var last := CursorBlock(c0, cfg);
    PassLogJoin(blocks, last, cursor, hi);
    FoldDbConcat(before, cfg, PassLog(blocks, last, cursor), PassLog(blocks, cursor, hi), now);
  }

  // Whatever happens in a pass, the tables hold the fold of a prefix of its events that covers the
  // cursor, so the next pass misses nothing.
  ghost predicate CrashSafe(before: Db, c0: Option<nat>, after: Db, c1: Option<nat>, cfg: Config, blocks: seq<Block>,
                            now: int, end: nat, done: nat)
    requires done <= |PassLog(blocks, CursorBlock(c0, cfg), end)|
  {
    var last := CursorBlock(c0, cfg);
    match FoldDb(before, cfg, PassLog(blocks, last, end)[..done], now)
    case Err(_) => false
    case Ok(folded) =>
      && folded.db == after
      && (c1 == c0 || (c1.Some? && last < c1.value <= end && |PassLog(blocks, last, c1.value)| <= done))
  }

  // A pass whose events up to end cannot all be applied, stopped safely.
  ghost predicate Broken(before: Db, c0: Option<nat>, after: Db, c1: Option<nat>, cfg: Config, blocks: seq<Block>,
                         now: int, end: nat, done: nat)
  {
    match FoldDb(before, cfg, PassLog(blocks, CursorBlock(c0, cfg), end), now)
    case Ok(_) => false
    case Err(_) =>
      && done <= |PassLog(blocks, CursorBlock(c0, cfg), end)|
      && CrashSafe(before, c0, after, c1, cfg, blocks, now, end, done)
  }

  lemma FailChunk(before: Db, c0: Option<nat>, mid: Db, c1: Option<nat>, after: Db, cfg: Config, blocks: seq<Block>,
                  now: int, cursor: nat, applied: nat, hi: nat, n: nat, end: nat)
    requires Advanced(before, c0, mid, c1, cfg, blocks, now, cursor, applied) && cursor < hi <= end < |blocks|
    requires n <= |PassLog(blocks, cursor, hi)|
    requires FoldDb(mid, cfg, PassLog(blocks, cursor, hi), now).Err?
    requires FoldDb(mid, cfg, PassLog(blocks, cursor, hi)[..n], now).Ok?
    requires FoldDb(mid, cfg, PassLog(blocks, cursor, hi)[..n], now).value.db == after
    ensures Broken(before, c0, after, c1, cfg, blocks, now, end, |PassLog(blocks, CursorBlock(c0, cfg), cursor)| + n)
  {
    var last := CursorBlock(c0, cfg);
    var covered, chunk, rest := PassLog(blocks, last, cursor), PassLog(blocks, cursor, hi), PassLog(blocks, hi, end);
    PassLogJoin(blocks, last, cursor, hi);
    PassLogJoin(blocks, last, hi, end);
    assert PassLog(blocks, last, end)[..|covered| + n] == covered + chunk[..n];
    FoldDbConcat(before, cfg, covered, chunk[..n], now);
    FoldDbConcat(before, cfg, covered, chunk, now);
    FoldDbConcat(before, cfg, covered + chunk, rest, now);
  }

  ghost predicate ChunkOutcome(before: Db, c0: Option<nat>, after: Db, c1: Option<nat>, cfg: Config, blocks: seq<Block>,
                               now: int, lo: nat, hi: nat, applied: nat, end: nat, r: Result<nat, Failure>, n: nat)
    requires lo > 0
  {
    match r
    case Ok(more) => Advanced(before, c0, after, c1, cfg, blocks, now, hi, applied + more)
    case Err(_) =>
      Broken(before, c0, after, c1, cfg, blocks, now, end, |PassLog(blocks, CursorBlock(c0, cfg), lo - 1)| + n)
  }

  lemma ChunkSucceeded(before: Db, c0: Option<nat>, mid: Db, c1: Option<nat>, after: Db, cfg: Config,
                       blocks: seq<Block>, now: int, lo: nat, hi: nat, applied: nat, end: nat, more: nat, n: nat)
    requires 0 < lo <= hi < |blocks| && Advanced(before, c0, mid, c1, cfg, blocks, now, lo - 1, applied)
    requires BatchOutcome(mid, cfg, PassLog(blocks, lo - 1, hi), now, after, Ok(more), n)
    ensures ChunkOutcome(before, c0, after, Some(SaveCursor(c1, hi)), cfg, blocks, now, lo, hi, applied, end,
                         Ok(more), n)
  {
    AdvanceChunk(before, c0, mid, c1, after, cfg, blocks, now, lo - 1, applied, hi, more);
  }

  lemma ChunkFailed(before: Db, c0: Option<nat>, mid: Db, c1: Option<nat>, after: Db, cfg: Config, blocks: seq<Block>,
                    now: int, lo: nat, hi: nat, applied: nat, end: nat, f: Failure, n: nat)
    requires 0 < lo <= hi <= end < |blocks| && Advanced(before, c0, mid, c1, cfg, blocks, now, lo - 1, applied)
    requires BatchOutcome(mid, cfg, PassLog(blocks, lo - 1, hi), now, after, Err(f), n)
    ensures ChunkOutcome(before, c0, after, c1, cfg, blocks, now, lo, hi, applied, end, Err(f), n)
  {
    FailChunk(before, c0, mid, c1, after, cfg, blocks, now, lo - 1, applied, hi, n, end);
  }

  // What one pass guarantees, in terms of the tables and the cursor before and after it.
  ghost predicate PassOutcome(before: Db, c0: Option<nat>, after: Db, c1: Option<nat>, cfg: Config, blocks: seq<Block>,
                              now: int, head: nat, r: Result<ReconcileResult, Failure>, requested: seq<(nat, nat)>,
                              done: nat)
  {
    var last := CursorBlock(c0, cfg);
    var end := PassEnd(last, head, cfg);
    match r
    case Err(_) => Broken(before, c0, after, c1, cfg, blocks, now, end, done)
    case Ok(result) =>
      && FoldDb(before, cfg, PassLog(blocks, last, end), now) == Ok(Folded(after, result.transitionsApplied))
      && CursorBlock(c1, cfg) == end
      && done == |PassLog(blocks, last, end)|
      && Tiles(requested, last + 1, end + 1, cfg.getLogsRange)
      && result == ReconcileResult(last + 1, end, head, end - last, done, result.transitionsApplied)
  }

  lemma IdlePass(db: Db, c: Option<nat>, cfg: Config, blocks: seq<Block>, now: int, head: nat)
    requires head <= CursorBlock(c, cfg)
    ensures var last := CursorBlock(c, cfg);
            PassOutcome(db, c, db, c, cfg, blocks, now, head, Ok(ReconcileResult(last + 1, last, head, 0, 0, 0)), [], 0)
  {
    assert PassLog(blocks, CursorBlock(c, cfg), CursorBlock(c, cfg)) == [];
  }

  lemma FinishedPass(before: Db, c0: Option<nat>, after: Db, c1: Option<nat>, cfg: Config, blocks: seq<Block>, now: int,
                     head: nat, end: nat, applied: nat, requested: seq<(nat, nat)>)
    requires var last := CursorBlock(c0, cfg);
             && end == PassEnd(last, head, cfg)
             && Advanced(before, c0, after, c1, cfg, blocks, now, end, applied)
             && Tiles(requested, last + 1, end + 1, cfg.getLogsRange)
    ensures var last := CursorBlock(c0, cfg);
            var seen := |PassLog(blocks, last, end)|;
            PassOutcome(before, c0, after, c1, cfg, blocks, now, head,
                        Ok(ReconcileResult(last + 1, end, head, end - last, seen, applied)), requested, seen)
  {
  }

  // ---------------------------------------------------------------- the pass

  // One chunk: read its range, sort the reply, apply it, and only then advance the cursor. The ghost
  // parameters place it in its pass.
  method ReconcileChunk(db: Database, reader: ChainReader, cfg: Config, now: int, lo: nat, hi: nat,
                        ghost blocks: seq<Block>, ghost before: Db, ghost c0: Option<nat>, ghost applied: nat,
                        ghost end: nat)
    returns (r: Result<nat, Failure>, seen: nat, ghost n: nat)
    requires Serves(reader, blocks) && StrictlySorted(Flat(blocks)) && 0 < lo <= hi <= end < |blocks|
    requires Advanced(before, c0, db.Contents(), db.cursor, cfg, blocks, now, lo - 1, applied)
    modifies db
    ensures seen == |PassLog(blocks, lo - 1, hi)|
    ensures ChunkOutcome(before, c0, db.Contents(), db.cursor, cfg, blocks, now, lo, hi, applied, end, r, n)
  {
    SortedReply(reader, blocks, lo, hi);
    var events := SortEvents(reader.logs(lo, hi));
    seen := |events|;
    ghost var mid, c1 := db.Contents(), db.cursor;
    r, n := ApplyAll(db, cfg, events, now);
    if r.Ok? {
      ChunkSucceeded(before, c0, mid, c1, db.Contents(), cfg, blocks, now, lo, hi, applied, end, r.value, n);
      db.SaveCursorBlock(hi);
    } else {
      ChunkFailed(before, c0, mid, c1, db.Contents(), cfg, blocks, now, lo, hi, applied, end, r.error, n);
    }
  }

  lemma SpanAdds(requested: seq<(nat, nat)>, blocks: seq<Block>, last: nat, cursor: nat, hi: nat, range: nat)
    requires Tiles(requested, last + 1, cursor + 1, range) && last <= cursor < hi < |blocks| && hi - cursor <= range
    ensures Tiles(requested + [(cursor + 1, hi)], last + 1, hi + 1, range)
    ensures |PassLog(blocks, last, hi)| == |PassLog(blocks, last, cursor)| + |PassLog(blocks, cursor, hi)|
  {
    TilesAppend(requested, last + 1, cursor + 1, hi, range);
    PassLogJoin(blocks, last, cursor, hi);
  }

  // The chunk loop from the block after the cursor to runEnd.
  method ReconcileChunks(db: Database, reader: ChainReader, cfg: Config, now: int, last: nat, runEnd: nat,
                         ghost blocks: seq<Block>)
    returns (r: Result<(nat, nat), Failure>, requested: seq<(nat, nat)>, ghost done: nat)
    requires cfg.getLogsRange >= 1 && last == CursorBlock(db.cursor, cfg) && last < runEnd < |blocks|
    requires Serves(reader, blocks) && StrictlySorted(Flat(blocks))
    modifies db
    ensures r.Err? ==>
              Broken(old(db.Contents()), old(db.cursor), db.Contents(), db.cursor, cfg, blocks, now, runEnd, done)
    ensures r.Ok? ==>
              && Advanced(old(db.Contents()), old(db.cursor), db.Contents(), db.cursor, cfg, blocks, now, runEnd,
                          r.value.1)
              && r.value.0 == |PassLog(blocks, last, runEnd)|
              && Tiles(requested, last + 1, runEnd + 1, cfg.getLogsRange)
  {
    var cursor, eventsSeen, applied, lo := last, 0, 0, last + 1;
    ghost var before, c0 := db.Contents(), db.cursor;
    requested, done := [], 0;
    assert PassLog(blocks, last, last) == [];
    while lo <= runEnd
      invariant last <= cursor <= runEnd && (lo == cursor + 1 || (lo > runEnd && cursor == runEnd))
      invariant Tiles(requested, last + 1, cursor + 1, cfg.getLogsRange)
      invariant eventsSeen == |PassLog(blocks, last, cursor)|
      invariant Advanced(before, c0, db.Contents(), db.cursor, cfg, blocks, now, cursor, applied)
    {
      var hi := Min(runEnd, lo + cfg.getLogsRange - 1);
      SpanAdds(requested, blocks, last, cursor, hi, cfg.getLogsRange);
      requested := requested + [(lo, hi)];
      var batch, seen;
      ghost var n;
      batch, seen, n := ReconcileChunk(db, reader, cfg, now, lo, hi, blocks, before, c0, applied, runEnd);
      if batch.Err? {
        return Err(batch.error), requested, eventsSeen + n;
      }
      eventsSeen := eventsSeen + seen;
      applied := applied + batch.value;
      cursor := hi;
      lo := lo + cfg.getLogsRange;
    }
    r := Ok((eventsSeen, applied));
  }

  // One pass. requested lists the ranges asked of the node and done counts the events applied; both
  // only serve to state what the pass does.
  method Reconcile(db: Database, reader: ChainReader, cfg: Config, now: int, ghost blocks: seq<Block>)
    returns (r: Result<ReconcileResult, Failure>, requested: seq<(nat, nat)>, ghost done: nat)
    requires cfg.getLogsRange >= 1 && cfg.maxBlocksPerRun >= 1
    requires Serves(reader, blocks) && StrictlySorted(Flat(blocks))
    modifies db
    ensures PassOutcome(old(db.Contents()), old(db.cursor), db.Contents(), db.cursor, cfg, blocks, now,
                        FinalizedHead(reader.head, cfg.confirmations), r, requested, done)
  {
    var last := db.LoadCursorBlock(cfg);
    var head := FinalizedHead(reader.head, cfg.confirmations);
    var from := last + 1;
    ghost var before, c0 := db.Contents(), db.cursor;
    if from > head {
      IdlePass(before, c0, cfg, blocks, now, head);
      return Ok(ReconcileResult(from, last, head, 0, 0, 0)), [], 0;
    }
    var runEnd := Min(head, from + cfg.maxBlocksPerRun - 1);
    var chunks;
    chunks, requested, done := ReconcileChunks(db, reader, cfg, now, last, runEnd, blocks);
    if chunks.Err? {
      return Err(chunks.error), requested, done;
    }
    var (eventsSeen, applied) := chunks.value;
    FinishedPass(before, c0, db.Contents(), db.cursor, cfg, blocks, now, head, runEnd, applied, requested);
    done := eventsSeen;
    r := Ok(ReconcileResult(from, runEnd, head, runEnd - last, eventsSeen, applied));
  }

  // ---------------------------------------------------------------- repeated passes

  datatype Position = Position(rows: Rows, cursor: nat)

  // A completed pass to a fixed head, seen through the rows and the cursor.
  ghost predicate PassTo(cfg: Config, blocks: seq<Block>, head: nat, p: Position, q: Position)
    requires head < |blocks|
  {
    && q.cursor == PassEnd(p.cursor, head, cfg)
    && q.rows == RowsAfter(p.rows, cfg, PassLog(blocks, p.cursor, q.cursor))
  }

  // On events whose ids identify rows the method never fails, and what it leaves is such a pass, whatever
  // the range of its requests and the order of its replies.
  lemma ReconcileIsPassTo(before: Db, c0: Option<nat>, after: Db, c1: Option<nat>, cfg: Config, blocks: seq<Block>,
                          now: int, head: nat, r: Result<ReconcileResult, Failure>, requested: seq<(nat, nat)>,
                          done: nat)
    requires head < |blocks|
    requires PassOutcome(before, c0, after, c1, cfg, blocks, now, head, r, requested, done)
    requires NonColliding(before.rows, cfg,
                          PassLog(blocks, CursorBlock(c0, cfg), PassEnd(CursorBlock(c0, cfg), head, cfg)))
    ensures r.Ok?
    ensures PassTo(cfg, blocks, head, Position(before.rows, CursorBlock(c0, cfg)),
                   Position(after.rows, CursorBlock(c1, cfg)))
  {
    FoldIsPerRow(before, cfg, PassLog(blocks, CursorBlock(c0, cfg), PassEnd(CursorBlock(c0, cfg), head, cfg)), now);
  }

  // After n passes to a fixed head the cursor has advanced by n caps, or reached the head, and the
  // rows are one sorted fold of every block in between, however the blocks were split.
  lemma {:induction false} PassesAreOneFold(cfg: Config, blocks: seq<Block>, head: nat, steps: seq<Position>)
    requires |steps| > 0 && head < |blocks|
    requires forall i :: 0 <= i < |steps| - 1 ==> PassTo(cfg, blocks, head, steps[i], steps[i + 1])
    ensures var first, last, n := steps[0], steps[|steps| - 1], |steps| - 1;
            && last.cursor == (if head <= first.cursor then first.cursor
                               else Min(head, first.cursor + n * cfg.maxBlocksPerRun))
            && first.cursor <= last.cursor
            && last.rows == RowsAfter(first.rows, cfg, PassLog(blocks, first.cursor, last.cursor))
  {
    if |steps| == 1 {
      assert RowsAfter(steps[0].rows, cfg, []) == steps[0].rows;
    } else {
      var front := steps[..|steps| - 1];
      PassesAreOneFold(cfg, blocks, head, front);
      var first, mid, last := steps[0], front[|front| - 1], steps[|steps| - 1];
      assert PassTo(cfg, blocks, head, steps[|steps| - 2], last);
      if mid.cursor < last.cursor {
        PassLogJoin(blocks, first.cursor, mid.cursor, last.cursor);
        RowsAfterConcat(first.rows, cfg, PassLog(blocks, first.cursor, mid.cursor),
                        PassLog(blocks, mid.cursor, last.cursor));
      } else {
        assert PassLog(blocks, mid.cursor, mid.cursor) == [];
        assert RowsAfter(mid.rows, cfg, []) == mid.rows;
      }
      CapsAdd(|steps| - 2, cfg.maxBlocksPerRun);
    }
  }

  lemma CapsAdd(n: nat, cap: nat)
    ensures (n + 1) * cap == n * cap + cap
  {
  }

  // The head is reached after exactly ceil((head - cursor) / maxBlocksPerRun) passes.
  lemma HeadReachedIn(cfg: Config, blocks: seq<Block>, head: nat, steps: seq<Position>)
    requires |steps| > 0 && steps[0].cursor <= head < |blocks| && cfg.maxBlocksPerRun > 0
    requires forall i :: 0 <= i < |steps| - 1 ==> PassTo(cfg, blocks, head, steps[i], steps[i + 1])
    ensures steps[|steps| - 1].cursor == head
            <==> CeilDiv(head - steps[0].cursor, cfg.maxBlocksPerRun) <= |steps| - 1
  {
    PassesAreOneFold(cfg, blocks, head, steps);
    CeilDivIff(head - steps[0].cursor, cfg.maxBlocksPerRun, |steps| - 1);
  }

  // ---------------------------------------------------------------- the start block

  // Folding what is read after the start block gives the same row as folding the whole log.
  predicate NothingMissed(startBlock: nat, blocks: seq<Block>, u: Uuid, end: nat)
    requires startBlock <= end < |blocks|
  {
    Fold(PENDING, u, PassLog(blocks, startBlock, end)) == Fold(PENDING, u, Flat(blocks[..end + 1]))
  }

  // The first pass begins after the start block, so it misses nothing exactly when no ask with a row's
  // ref lies in the blocks up to the start block: an ask in the deployment block is never indexed.
  lemma StartBlockIff(startBlock: nat, blocks: seq<Block>)
    requires startBlock < |blocks|
    ensures (forall u: Uuid, end: nat :: startBlock <= end < |blocks| ==> NothingMissed(startBlock, blocks, u, end))
            <==> forall e :: e in Flat(blocks[..startBlock + 1]) && IsAsk(e) ==> e.key.None?
  {
    var skipped := Flat(blocks[..startBlock + 1]);
    if forall e :: e in skipped && IsAsk(e) ==> e.key.None? {
      forall u: Uuid, end: nat | startBlock <= end < |blocks|
        ensures NothingMissed(startBlock, blocks, u, end)
      {
        RangeIsStretch(blocks, startBlock + 1, end);
        WithoutAskPending(u, skipped);
        FoldConcat(PENDING, u, skipped, PassLog(blocks, startBlock, end));
      }
    } else {
      var e :| e in skipped && IsAsk(e) && e.key.Some?;
      var i :| 0 <= i < |skipped| && skipped[i] == e;
      AskLeavesPending(e.key.value, skipped, i);
      assert PassLog(blocks, startBlock, startBlock) == [];
      assert !NothingMissed(startBlock, blocks, e.key.value, startBlock);
    }
  }
}
