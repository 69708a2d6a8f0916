// The step system and the reconcile method agree: a pass whose steps nobody interrupts always runs to
// its end, and does to the tables and the cursor what the method is proved to do.
module SoloPass {
  import opened Prelude
  import opened Events
  import opened MoneyFold
  import opened Chain
  import opened Tables
  import opened Reconcile
  import opened System
  import opened SystemSafety

  // ---------------------------------------------------------------- folds that succeed

  // Folding log through db succeeds, with these tables and count.
  ghost predicate FoldsTo(db: Db, cfg: Config, log: seq<EscrowEvent>, now: int, after: Db, n: nat) {
    exists f: Folded :: f.db == after && f.applied == n && FoldDb(db, cfg, log, now) == Ok(f)
  }

  lemma FoldNone(db: Db, cfg: Config, now: int, after: Db, n: nat)
    requires FoldsTo(db, cfg, [], now, after, n)
    ensures after == db && n == 0
  {
  }

  lemma FoldSplit(db: Db, cfg: Config, a: seq<EscrowEvent>, b: seq<EscrowEvent>, now: int, after: Db, n: nat)
    returns (mid: Db, k: nat)
    requires FoldsTo(db, cfg, a + b, now, after, n)
    ensures FoldsTo(db, cfg, a, now, mid, k) && k <= n && FoldsTo(mid, cfg, b, now, after, n - k)
  {
    FoldDbConcat(db, cfg, a, b, now);
    var first := FoldDb(db, cfg, a, now).value;
    mid, k := first.db, first.applied;
    var second := FoldDb(mid, cfg, b, now).value;
    assert second.db == after && second.applied == n - k;
  }

  lemma FoldOne(db: Db, cfg: Config, e: EscrowEvent, now: int, after: Db, n: nat)
    requires FoldsTo(db, cfg, [e], now, after, n)
    ensures Tables.ApplyEvent(db, cfg, e, now) == Ok(after) && n == if Matches(db.rows, cfg, e) then 1 else 0
  {
    assert [e][..0] == [];
    assert FoldDb(db, cfg, [], now) == Ok(Folded(db, 0));
  }

  // ---------------------------------------------------------------- steps of one thread

  // One step of thread i, whatever the node answers.
  ghost predicate Moves(cfg: Config, w: World, w': World, i: nat)
    requires Configured(cfg)
  {
    exists nodeHead, reply :: Do(cfg, w, Step(i, nodeHead, reply, {})) == w'
  }

  // The worlds of trace follow each other by steps of thread i.
  ghost predicate Trace(cfg: Config, trace: seq<World>, i: nat)
    requires Configured(cfg)
  {
    |trace| > 0 && forall k :: 0 <= k < |trace| - 1 ==> Moves(cfg, trace[k], trace[k + 1], i)
  }

  // w is reached from w0 by steps of thread i alone, which then stands at t.
  ghost predicate At(cfg: Config, w0: World, w: World, i: nat, t: Thread)
    requires Configured(cfg)
  {
    exists trace :: Trace(cfg, trace, i) && trace[0] == w0 && trace[|trace| - 1] == w
                    && w.blocks == w0.blocks && i < |w.threads| && w.threads[i] == t
  }

  lemma StartAt(cfg: Config, w: World, i: nat, t: Thread)
    requires Configured(cfg) && i < |w.threads| && w.threads[i] == t
    ensures At(cfg, w, w, i, t)
  {
    assert Trace(cfg, [w], i) && [w][0] == w;
  }

  lemma TraceGrows(cfg: Config, trace: seq<World>, w: World, w': World, i: nat)
    requires Configured(cfg) && Trace(cfg, trace, i) && trace[|trace| - 1] == w && Moves(cfg, w, w', i)
    ensures Trace(cfg, trace + [w'], i) && (trace + [w'])[0] == trace[0] && (trace + [w'])[|trace|] == w'
  {
  }

  lemma StepEffect(cfg: Config, w: World, i: nat, nodeHead: nat, reply: seq<EscrowEvent>)
    requires Configured(cfg) && i < |w.threads|
    ensures var eff := ThreadStep(cfg, w, w.threads[i], nodeHead, reply, {});
            var w' := Do(cfg, w, Step(i, nodeHead, reply, {}));
            && w' == World(w.blocks, eff.db, eff.cursor, eff.frontier, w.threads[i := eff.thread])
            && Moves(cfg, w, w', i)
  {
  }

  lemma TakeStep(cfg: Config, w0: World, w: World, i: nat, t: Thread, nodeHead: nat, reply: seq<EscrowEvent>,
                 t': Thread) returns (w': World)
    requires Configured(cfg) && At(cfg, w0, w, i, t) && t' == ThreadStep(cfg, w, t, nodeHead, reply, {}).thread
    ensures At(cfg, w0, w', i, t')
    ensures var eff := ThreadStep(cfg, w, t, nodeHead, reply, {});
            w'.blocks == w.blocks && w'.db == eff.db && w'.cursor == eff.cursor
  {
    var trace :| Trace(cfg, trace, i) && trace[0] == w0 && trace[|trace| - 1] == w;
    w' := Do(cfg, w, Step(i, nodeHead, reply, {}));
    StepEffect(cfg, w, i, nodeHead, reply);
    TraceGrows(cfg, trace, w, w', i);
    assert |trace + [w']| - 1 == |trace|;
  }

  predicate OnlySteps(choices: seq<Choice>, i: nat) {
    forall k :: 0 <= k < |choices| ==> choices[k].Step? && choices[k].i == i
  }

  // A trace is a run of the whole system in which only thread i is ever chosen.
  lemma {:induction false} TraceIsRun(cfg: Config, trace: seq<World>, i: nat) returns (choices: seq<Choice>)
    requires Configured(cfg) && Trace(cfg, trace, i)
    ensures OnlySteps(choices, i) && RunWorld(cfg, trace[0], choices) == trace[|trace| - 1]
  {
    if |trace| == 1 {
      return [];
    }
    var front := trace[..|trace| - 1];
    var before := TraceIsRun(cfg, front, i);
    assert Moves(cfg, trace[|trace| - 2], trace[|trace| - 2 + 1], i);
    var nodeHead, reply :| Do(cfg, trace[|trace| - 2], Step(i, nodeHead, reply, {})) == trace[|trace| - 1];
    choices := before + [Step(i, nodeHead, reply, {})];
    assert choices[..|before|] == before;
  }

  // ---------------------------------------------------------------- one event, one chunk, one pass

  // The update alone is the method's ApplyEvent unless a reveal is due.
  lemma UpdateIsEvent(cfg: Config, w: World, hi: nat, runEnd: nat, queue: seq<EscrowEvent>, pos: nat, now: int, n: nat,
                      after: Db)
    requires |queue| > 0 && Tables.ApplyEvent(w.db, cfg, queue[0], now) == Ok(after)
    ensures var eff := CasStep(cfg, w, Pass(ApplyNext(hi, runEnd, queue, pos), now, n));
            var n' := n + if Matches(w.db.rows, cfg, queue[0]) then 1 else 0;
            && eff.cursor == w.cursor
            && if Reveals(w.db.rows, cfg, queue[0]) then
                 var u := queue[0].key.value;
                 && eff.thread == Pass(RevealNext(u, hi, runEnd, queue[1..], pos + 1), now, n')
                 && after == Db(eff.db.rows, RevealAnswer(eff.db.answers, u, now))
               else
                 eff.thread == Pass(ApplyNext(hi, runEnd, queue[1..], pos + 1), now, n') && after == eff.db
  {
  }

  // The two statements of one event, uninterrupted, are the method's ApplyEvent.
  lemma ApplyOne(cfg: Config, w0: World, w: World, i: nat, hi: nat, runEnd: nat, queue: seq<EscrowEvent>, pos: nat,
                 now: int, n: nat, after: Db, n': nat) returns (w': World)
    requires Configured(cfg) && At(cfg, w0, w, i, Pass(ApplyNext(hi, runEnd, queue, pos), now, n))
    requires |queue| > 0 && Tables.ApplyEvent(w.db, cfg, queue[0], now) == Ok(after)
    requires n' == n + if Matches(w.db.rows, cfg, queue[0]) then 1 else 0
    ensures w'.db == after && w'.cursor == w.cursor && w'.blocks == w.blocks
    ensures At(cfg, w0, w', i, Pass(ApplyNext(hi, runEnd, queue[1..], pos + 1), now, n'))
  {
    UpdateIsEvent(cfg, w, hi, runEnd, queue, pos, now, n, after);
    var t := Pass(ApplyNext(hi, runEnd, queue, pos), now, n);
    var next := Pass(ApplyNext(hi, runEnd, queue[1..], pos + 1), now, n');
    if Reveals(w.db.rows, cfg, queue[0]) {
      var mid := Pass(RevealNext(queue[0].key.value, hi, runEnd, queue[1..], pos + 1), now, n');
      var w1 := TakeStep(cfg, w0, w, i, t, 0, [], mid);
      w' := TakeStep(cfg, w0, w1, i, mid, 0, [], next);
    } else {
      w' := TakeStep(cfg, w0, w, i, t, 0, [], next);
    }
  }

  lemma {:induction false} ApplyQueue(cfg: Config, w0: World, w: World, i: nat, hi: nat, runEnd: nat,
                                      queue: seq<EscrowEvent>, pos: nat, now: int, n: nat, after: Db, m: nat,
                                      pos': nat, n': nat) returns (w': World)
    requires Configured(cfg) && At(cfg, w0, w, i, Pass(ApplyNext(hi, runEnd, queue, pos), now, n))
    requires FoldsTo(w.db, cfg, queue, now, after, m) && pos' == pos + |queue| && n' == n + m
    ensures w'.db == after && w'.cursor == w.cursor && w'.blocks == w.blocks
    ensures At(cfg, w0, w', i, Pass(ApplyNext(hi, runEnd, [], pos'), now, n'))
    decreases |queue|
  {
    if |queue| == 0 {
      FoldNone(w.db, cfg, now, after, m);
      return w;
    }
    assert queue == [queue[0]] + queue[1..];
    var mid, k := FoldSplit(w.db, cfg, [queue[0]], queue[1..], now, after, m);
    FoldOne(w.db, cfg, queue[0], now, mid, k);
    var w1 := ApplyOne(cfg, w0, w, i, hi, runEnd, queue, pos, now, n, mid, n + k);
    w' := ApplyQueue(cfg, w0, w1, i, hi, runEnd, queue[1..], pos + 1, now, n + k, after, m - k, pos', n');
  }

  // A reply in canonical order is its own sorting.
  lemma SortedAlready(blocks: seq<Block>, lo: nat, hi: nat)
    requires lo <= hi < |blocks| && StrictlySorted(Flat(blocks))
    ensures SortEvents(Range(blocks, lo, hi)) == Range(blocks, lo, hi)
  {
    RangeSorted(blocks, lo, hi);
    SortIsCanonical(Range(blocks, lo, hi), Range(blocks, lo, hi));
  }

  lemma ReadCanonical(cfg: Config, w: World, t: Thread, lo: nat, runEnd: nat, hi: nat)
    requires t.Pass? && Configured(cfg) && 0 < lo <= hi <= runEnd < |w.blocks| && StrictlySorted(Flat(w.blocks))
    requires hi == Min(runEnd, lo + cfg.getLogsRange - 1)
    ensures ReadLogsStep(cfg, w, t, lo, runEnd, Range(w.blocks, lo, hi))
         == Stay(w, t.(pc := ApplyNext(hi, runEnd, Range(w.blocks, lo, hi), |Flat(w.blocks[..lo])|)))
  {
    SortedAlready(w.blocks, lo, hi);
  }

  function AfterChunk(hi: nat, runEnd: nat): PassPc {
    if hi < runEnd then ReadLogs(hi + 1, runEnd) else Completed
  }

  lemma ReadChunk(cfg: Config, w0: World, w: World, i: nat, blocks: seq<Block>, last: nat, runEnd: nat, hi: nat,
                  now: int, n: nat) returns (w': World, pos: nat)
    requires Configured(cfg) && At(cfg, w0, w, i, Pass(ReadLogs(last + 1, runEnd), now, n))
    requires w.blocks == blocks && last < hi <= runEnd < |blocks| && hi == Min(runEnd, last + cfg.getLogsRange)
    requires StrictlySorted(Flat(blocks))
    ensures w'.blocks == blocks && w'.db == w.db && w'.cursor == w.cursor
    ensures At(cfg, w0, w', i, Pass(ApplyNext(hi, runEnd, PassLog(blocks, last, hi), pos), now, n))
  {
    var queue := Range(blocks, last + 1, hi);
    pos := |Flat(blocks[..last + 1])|;
    var t, t' := Pass(ReadLogs(last + 1, runEnd), now, n), Pass(ApplyNext(hi, runEnd, queue, pos), now, n);
    ReadCanonical(cfg, w, t, last + 1, runEnd, hi);
    w' := TakeStep(cfg, w0, w, i, t, 0, queue, t');
  }

  lemma SaveChunk(cfg: Config, w0: World, w: World, i: nat, hi: nat, runEnd: nat, pos: nat, now: int, n: nat,
                  pc: PassPc) returns (w': World)
    requires Configured(cfg) && At(cfg, w0, w, i, Pass(ApplyNext(hi, runEnd, [], pos), now, n))
    requires pc == AfterChunk(hi, runEnd)
    ensures w'.db == w.db && w'.cursor == Some(SaveCursor(w.cursor, hi)) && w'.blocks == w.blocks
    ensures At(cfg, w0, w', i, Pass(pc, now, n))
  {
    w' := TakeStep(cfg, w0, w, i, Pass(ApplyNext(hi, runEnd, [], pos), now, n), 0, [], Pass(pc, now, n));
  }

  // One chunk: read, apply everything, save the cursor.
  lemma OneChunk(cfg: Config, w0: World, w: World, i: nat, blocks: seq<Block>, last: nat, runEnd: nat, hi: nat,
                 now: int, n: nat, after: Db, m: nat, pc: PassPc, n': nat) returns (w': World)
    requires Configured(cfg) && At(cfg, w0, w, i, Pass(ReadLogs(last + 1, runEnd), now, n))
    requires w.blocks == blocks && last < hi <= runEnd < |blocks| && hi == Min(runEnd, last + cfg.getLogsRange)
    requires StrictlySorted(Flat(blocks)) && FoldsTo(w.db, cfg, PassLog(blocks, last, hi), now, after, m)
    requires pc == AfterChunk(hi, runEnd) && n' == n + m
    ensures w'.db == after && w'.cursor == Some(SaveCursor(w.cursor, hi)) && w'.blocks == blocks
    ensures At(cfg, w0, w', i, Pass(pc, now, n'))
  {
    var w1, pos := ReadChunk(cfg, w0, w, i, blocks, last, runEnd, hi, now, n);
    var queue := PassLog(blocks, last, hi);
    var w2 := ApplyQueue(cfg, w0, w1, i, hi, runEnd, queue, pos, now, n, after, m, pos + |queue|, n');
    w' := SaveChunk(cfg, w0, w2, i, hi, runEnd, pos + |queue|, now, n', pc);
  }

  // A pass that folds can be cut at a chunk.
  lemma SplitChunk(db: Db, cfg: Config, blocks: seq<Block>, last: nat, hi: nat, runEnd: nat, now: int, after: Db,
                   m: nat) returns (mid: Db, k: nat)
    requires last <= hi <= runEnd < |blocks| && FoldsTo(db, cfg, PassLog(blocks, last, runEnd), now, after, m)
    ensures FoldsTo(db, cfg, PassLog(blocks, last, hi), now, mid, k) && k <= m
    ensures FoldsTo(mid, cfg, PassLog(blocks, hi, runEnd), now, after, m - k)
  {
    PassLogJoin(blocks, last, hi, runEnd);
    mid, k := FoldSplit(db, cfg, PassLog(blocks, last, hi), PassLog(blocks, hi, runEnd), now, after, m);
  }

  lemma SavedTwice(cursor: Option<nat>, hi: nat, end: nat)
    requires hi <= end
    ensures SaveCursor(Some(SaveCursor(cursor, hi)), end) == SaveCursor(cursor, end)
  {
  }

  lemma {:induction false} Chunks(cfg: Config, w0: World, w: World, i: nat, blocks: seq<Block>, last: nat, runEnd: nat,
                                  now: int, n: nat, after: Db, m: nat, n': nat) returns (w': World)
    requires Configured(cfg) && At(cfg, w0, w, i, Pass(ReadLogs(last + 1, runEnd), now, n))
    requires w.blocks == blocks && last < runEnd < |blocks| && StrictlySorted(Flat(blocks))
    requires FoldsTo(w.db, cfg, PassLog(blocks, last, runEnd), now, after, m) && n' == n + m
    ensures w'.db == after && w'.cursor == Some(SaveCursor(w.cursor, runEnd))
    ensures At(cfg, w0, w', i, Pass(Completed, now, n'))
    decreases runEnd - last
  {
    var hi := Min(runEnd, last + cfg.getLogsRange);
    if hi < runEnd {
      var mid, k := SplitChunk(w.db, cfg, blocks, last, hi, runEnd, now, after, m);
      SavedTwice(w.cursor, hi, runEnd);
      var w1 := OneChunk(cfg, w0, w, i, blocks, last, runEnd, hi, now, n, mid, k, ReadLogs(hi + 1, runEnd), n + k);
      w' := Chunks(cfg, w0, w1, i, blocks, hi, runEnd, now, n + k, after, m - k, n');
    } else {
      w' := OneChunk(cfg, w0, w, i, blocks, last, runEnd, hi, now, n, after, m, Completed, n');
    }
  }

  // ---------------------------------------------------------------- from any reachable state

  // In a reachable state the events that are still ahead never reuse the id of an indexed row.
  lemma AheadIsNonColliding(cfg: Config, rows: Rows, log: seq<EscrowEvent>, n: nat, ahead: seq<EscrowEvent>, k: nat)
    requires n <= |log| && AsksAreUnique(log) && RowsMirror(cfg, rows, log[..n])
    requires k + |ahead| <= |log| && ahead == log[k..k + |ahead|]
    ensures NonColliding(rows, cfg, ahead)
  {
    forall v, i | v in rows && 0 <= i < |ahead| && rows[v].chainId == cfg.chainId && Reuses(rows[v], ahead[i])
      ensures ahead[i].key == Some(v)
    {
      assert RowMirrors(cfg, v, rows[v], log[..n]);
      IdComesFromAsk(PENDING, v, log[..n]);
      var j :| 0 <= j < n && IsAskFor(log[..n][j], v) && rows[v].money.onchainId == Some(log[..n][j].onchainId);
      assert SameAskedId(log[j], log[k + i]);
    }
    forall i, j | 0 <= i < |ahead| && 0 <= j < |ahead| && SameAskedId(ahead[i], ahead[j])
      ensures ahead[i].key == ahead[j].key
    {
      assert SameAskedId(log[k + i], log[k + j]);
    }
  }

  lemma AheadFolds(cfg: Config, db: Db, blocks: seq<Block>, frontier: nat, last: nat, end: nat, now: int)
    returns (after: Db, m: nat)
    requires frontier <= |Flat(blocks)| && AsksAreUnique(Flat(blocks))
    requires RowsMirror(cfg, db.rows, Flat(blocks)[..frontier])
    requires last <= end < |blocks|
    ensures FoldsTo(db, cfg, PassLog(blocks, last, end), now, after, m)
  {
    var ahead := PassLog(blocks, last, end);
    RangeIsStretch(blocks, last + 1, end);
    PrefixOfFlat(blocks, end + 1);
    AheadIsNonColliding(cfg, db.rows, Flat(blocks), frontier, ahead, |Flat(blocks[..last + 1])|);
    FoldIsPerRow(db, cfg, ahead, now);
    after, m := FoldDb(db, cfg, ahead, now).value.db, FoldDb(db, cfg, ahead, now).value.applied;
    assert FoldDb(db, cfg, ahead, now) == Ok(Folded(after, m));
  }

  lemma PassWillFold(cfg: Config, w: World, end: nat, now: int) returns (after: Db, m: nat)
    requires Inv(cfg, w) && CursorBlock(w.cursor, cfg) <= end < |w.blocks|
    ensures FoldsTo(w.db, cfg, PassLog(w.blocks, CursorBlock(w.cursor, cfg), end), now, after, m)
  {
    after, m := AheadFolds(cfg, w.db, w.blocks, w.frontier, CursorBlock(w.cursor, cfg), end, now);
  }

  // A pass looks at the cursor and the head, and is done or starts on its first chunk.
  lemma Opening(cfg: Config, w: World, i: nat, now: int, nodeHead: nat, last: nat, end: nat, pc: PassPc)
    returns (w': World)
    requires Configured(cfg) && nodeHead < |w.blocks| && i < |w.threads| && w.threads[i] == Pass(LoadCursor, now, 0)
    requires last == CursorBlock(w.cursor, cfg) && end == PassEnd(last, FinalizedHead(nodeHead, cfg.confirmations), cfg)
    requires pc == if end == last then Completed else ReadLogs(last + 1, end)
    ensures w'.db == w.db && w'.cursor == w.cursor && w'.blocks == w.blocks
    ensures At(cfg, w, w', i, Pass(pc, now, 0))
  {
    var t0, t1 := Pass(LoadCursor, now, 0), Pass(ReadHead(last), now, 0);
    StartAt(cfg, w, i, t0);
    var w1 := TakeStep(cfg, w, w, i, t0, nodeHead, [], t1);
    w' := TakeStep(cfg, w, w1, i, t1, nodeHead, [], Pass(pc, now, 0));
  }

  lemma SoloPass(cfg: Config, w: World, i: nat, now: int, nodeHead: nat, last: nat, end: nat, after: Db, m: nat)
    returns (w': World)
    requires Configured(cfg) && nodeHead < |w.blocks| && StrictlySorted(Flat(w.blocks))
    requires i < |w.threads| && w.threads[i] == Pass(LoadCursor, now, 0)
    requires last == CursorBlock(w.cursor, cfg) && end == PassEnd(last, FinalizedHead(nodeHead, cfg.confirmations), cfg)
    requires last <= end < |w.blocks| && FoldsTo(w.db, cfg, PassLog(w.blocks, last, end), now, after, m)
    ensures At(cfg, w, w', i, Pass(Completed, now, m)) && w'.db == after && CursorBlock(w'.cursor, cfg) == end
  {
    if end == last {
      assert PassLog(w.blocks, last, last) == [];
      FoldNone(w.db, cfg, now, after, m);
      w' := Opening(cfg, w, i, now, nodeHead, last, end, Completed);
      return;
    }
    var w1 := Opening(cfg, w, i, now, nodeHead, last, end, ReadLogs(last + 1, end));
    w' := Chunks(cfg, w, w1, i, w.blocks, last, end, now, 0, after, m, m);
  }

  // From any reachable state, a pass that is left alone completes, and leaves the tables, the cursor
  // and its count as a successful run of the reconcile method to the same head would.
  lemma SoloPassIsReconcile(cfg: Config, w: World, i: nat, now: int, nodeHead: nat)
    returns (choices: seq<Choice>, w': World, applied: nat)
    requires Inv(cfg, w) && Configured(cfg) && nodeHead < |w.blocks|
    requires i < |w.threads| && w.threads[i] == Pass(LoadCursor, now, 0)
    ensures OnlySteps(choices, i) && RunWorld(cfg, w, choices) == w'
    ensures i < |w'.threads| && w'.threads[i] == Pass(Completed, now, applied)
    ensures var last := CursorBlock(w.cursor, cfg);
            var end := PassEnd(last, FinalizedHead(nodeHead, cfg.confirmations), cfg);
            && FoldsTo(w.db, cfg, PassLog(w.blocks, last, end), now, w'.db, applied)
            && CursorBlock(w'.cursor, cfg) == end
  {
    var last := CursorBlock(w.cursor, cfg);
    var end := PassEnd(last, FinalizedHead(nodeHead, cfg.confirmations), cfg);
    var after;
    after, applied := PassWillFold(cfg, w, end, now);
    w' := SoloPass(cfg, w, i, now, nodeHead, last, end, after, applied);
    var trace :| Trace(cfg, trace, i) && trace[0] == w && trace[|trace| - 1] == w';
    choices := TraceIsRun(cfg, trace, i);
  }
}
