// What every interleaving keeps: the rows are always the fold of one prefix of the log, the cursor
// never covers an event beyond it, no pass fails, nothing is revealed or published too early, and the
// counted transitions are exactly the status ranks gained.
module SystemSafety {
  import opened Prelude
  import opened Sums
  import opened Events
  import opened MoneyFold
  import opened Chain
  import opened Tables
  import opened Sweep
  import opened Api
  import opened System

  // The events applied so far by anyone: the single prefix behind the rows.
  ghost function AppliedLog(w: World): seq<EscrowEvent>
    requires w.frontier <= |Flat(w.blocks)|
  {
    Flat(w.blocks)[..w.frontier]
  }

  // ---------------------------------------------------------------- the invariant

  // Every event in the blocks up to c has been applied, and those blocks are stable.
  ghost predicate Covered(cfg: Config, blocks: seq<Block>, frontier: nat, c: nat) {
    && cfg.startBlock <= c < |blocks|
    && |Flat(blocks[..c + 1])| <= frontier
    && (c == cfg.startBlock || c < StableCount(cfg, blocks))
  }

  // The queue is what remains of the log up to block hi, and nothing before it is unapplied.
  ghost predicate InPlace(cfg: Config, blocks: seq<Block>, frontier: nat, hi: nat, queue: seq<EscrowEvent>, pos: nat) {
    && cfg.startBlock <= hi < StableCount(cfg, blocks)
    && pos <= frontier
    && pos + |queue| == |Flat(blocks[..hi + 1])|
    && queue == Flat(blocks[..hi + 1])[pos..]
  }

  ghost predicate IsAnswered(rows: Rows, u: Uuid) {
    u in rows && rows[u].money.status == Answered
  }

  ghost predicate PassOk(cfg: Config, blocks: seq<Block>, rows: Rows, frontier: nat, pc: PassPc) {
    match pc
    case LoadCursor => true
    case ReadHead(last) => Covered(cfg, blocks, frontier, last)
    case ReadLogs(lo, runEnd) =>
      0 < lo <= runEnd < StableCount(cfg, blocks) && Covered(cfg, blocks, frontier, lo - 1)
    case ApplyNext(hi, runEnd, queue, pos) =>
      hi <= runEnd < StableCount(cfg, blocks) && InPlace(cfg, blocks, frontier, hi, queue, pos)
    case RevealNext(u, hi, runEnd, queue, pos) =>
      hi <= runEnd < StableCount(cfg, blocks) && InPlace(cfg, blocks, frontier, hi, queue, pos) && IsAnswered(rows, u)
    case Completed => true
    case Failed => false
    case Killed(chunk) => chunk.Some? ==> cfg.startBlock <= chunk.value < StableCount(cfg, blocks)
  }

  ghost predicate ThreadOk(cfg: Config, blocks: seq<Block>, rows: Rows, frontier: nat, t: Thread) {
    match t
    case Pass(pc, _, _) => PassOk(cfg, blocks, rows, frontier, pc)
    case Publishing(u, _, checked) => checked ==> IsAnswered(rows, u)
    case _ => true
  }

  ghost predicate RowMirrors(cfg: Config, u: Uuid, row: Row, log: seq<EscrowEvent>) {
    row.money == if row.chainId == cfg.chainId then Fold(PENDING, u, log) else PENDING
  }

  ghost predicate RowsMirror(cfg: Config, rows: Rows, log: seq<EscrowEvent>) {
    forall u :: u in rows ==> RowMirrors(cfg, u, rows[u], log)
  }

  // revealed_at implies answered, and so does is_public.
  ghost predicate Paywalled(db: Db) {
    && (forall u :: u in db.answers ==> u in db.rows)
    && (forall u :: u in db.answers && db.answers[u].revealedAt.Some? ==> IsAnswered(db.rows, u))
    && (forall u :: u in db.rows && db.rows[u].isPublic ==> IsAnswered(db.rows, u))
  }

  ghost predicate ChainOk(cfg: Config, w: World) {
    && EscrowChain(cfg, w.blocks)
    && w.frontier <= |Flat(w.blocks)|
    && w.frontier <= |Flat(w.blocks[..StableCount(cfg, w.blocks)])|
    && Covered(cfg, w.blocks, w.frontier, CursorBlock(w.cursor, cfg))
  }

  function AppliedBy(t: Thread): nat {
    if t.Pass? then t.applied else 0
  }

  function AppliedTotal(threads: seq<Thread>): nat {
    if |threads| == 0 then 0 else AppliedTotal(threads[..|threads| - 1]) + AppliedBy(threads[|threads| - 1])
  }

  ghost predicate Inv(cfg: Config, w: World) {
    && ChainOk(cfg, w)
    && RowsMirror(cfg, w.db.rows, AppliedLog(w))
    && Paywalled(w.db)
    && (forall i :: 0 <= i < |w.threads| ==> ThreadOk(cfg, w.blocks, w.db.rows, w.frontier, w.threads[i]))
    && AppliedTotal(w.threads) == RankTotal(w.db.rows)
  }

  // ---------------------------------------------------------------- what only grows

  // Later states keep the stable blocks, the applied events and every answered row.
  ghost predicate Later(cfg: Config, blocks: seq<Block>, rows: Rows, frontier: nat,
                        blocks': seq<Block>, rows': Rows, frontier': nat)
  {
    && |blocks| <= |blocks'|
    && cfg.startBlock < |blocks| && Flat(blocks'[..cfg.startBlock + 1]) == []
    && blocks'[..StableCount(cfg, blocks)] == blocks[..StableCount(cfg, blocks)]
    && frontier <= frontier'
    && (forall u :: IsAnswered(rows, u) ==> IsAnswered(rows', u))
  }

  lemma SamePrefix(cfg: Config, blocks: seq<Block>, blocks': seq<Block>, n: nat)
    requires |blocks| <= |blocks'| && blocks'[..StableCount(cfg, blocks)] == blocks[..StableCount(cfg, blocks)]
    requires n <= StableCount(cfg, blocks)
    ensures blocks'[..n] == blocks[..n]
  {
    var k := StableCount(cfg, blocks);
    assert blocks'[..n] == blocks'[..k][..n];
    assert blocks[..n] == blocks[..k][..n];
  }

  lemma CoveredLater(cfg: Config, blocks: seq<Block>, rows: Rows, frontier: nat,
                     blocks': seq<Block>, rows': Rows, frontier': nat, c: nat)
    requires Later(cfg, blocks, rows, frontier, blocks', rows', frontier') && Covered(cfg, blocks, frontier, c)
    ensures Covered(cfg, blocks', frontier', c)
  {
    if c < StableCount(cfg, blocks) {
      SamePrefix(cfg, blocks, blocks', c + 1);
    }
  }

  lemma PassOkLater(cfg: Config, blocks: seq<Block>, rows: Rows, frontier: nat,
                    blocks': seq<Block>, rows': Rows, frontier': nat, pc: PassPc)
    requires Later(cfg, blocks, rows, frontier, blocks', rows', frontier') && PassOk(cfg, blocks, rows, frontier, pc)
    ensures PassOk(cfg, blocks', rows', frontier', pc)
  {
    match pc
    case ReadHead(last) => CoveredLater(cfg, blocks, rows, frontier, blocks', rows', frontier', last);
    case ReadLogs(lo, _) => CoveredLater(cfg, blocks, rows, frontier, blocks', rows', frontier', lo - 1);
    case ApplyNext(hi, _, _, _) => SamePrefix(cfg, blocks, blocks', hi + 1);
    case RevealNext(_, hi, _, _, _) => SamePrefix(cfg, blocks, blocks', hi + 1);
    case _ =>
  }

  lemma ThreadOkLater(cfg: Config, blocks: seq<Block>, rows: Rows, frontier: nat,
                      blocks': seq<Block>, rows': Rows, frontier': nat, t: Thread)
    requires Later(cfg, blocks, rows, frontier, blocks', rows', frontier') && ThreadOk(cfg, blocks, rows, frontier, t)
    ensures ThreadOk(cfg, blocks', rows', frontier', t)
  {
    if t.Pass? {
      PassOkLater(cfg, blocks, rows, frontier, blocks', rows', frontier', t.pc);
    }
  }

  // ---------------------------------------------------------------- counting

  lemma {:induction false} AppliedTotalUpdate(threads: seq<Thread>, i: nat, t: Thread)
    requires i < |threads|
    ensures AppliedTotal(threads[i := t]) + AppliedBy(threads[i]) == AppliedTotal(threads) + AppliedBy(t)
  {
    var front := threads[..|threads| - 1];
    if i == |threads| - 1 {
      assert threads[i := t][..|threads| - 1] == front;
    } else {
      AppliedTotalUpdate(front, i, t);
      assert threads[i := t][..|threads| - 1] == front[i := t];
    }
  }

  lemma {:induction false} DeletingPendingKeepsRank(rows: Rows, doomed: set<Uuid>)
    requires forall u :: u in doomed ==> u in rows && rows[u].money.status == PendingPayment
    ensures RankTotal(rows - doomed) == RankTotal(rows)
    decreases |doomed|
  {
    if doomed == {} {
      assert rows - doomed == rows;
    } else {
      var u :| u in doomed;
      DeletingPendingKeepsRank(rows, doomed - {u});
      var before := rows - (doomed - {u});
      assert Ranks(rows - doomed) == Ranks(before) - {u};
      SumRemove(Ranks(before), u);
    }
  }

  lemma SameRanks(rows: Rows, rows': Rows)
    requires rows'.Keys == rows.Keys && forall u :: u in rows ==> rows'[u].money == rows[u].money
    ensures RankTotal(rows') == RankTotal(rows)
  {
    assert Ranks(rows') == Ranks(rows);
  }

  // ---------------------------------------------------------------- what one step does

  // What a step has to keep of the tables and the cursor.
  ghost predicate TablesOk(cfg: Config, w: World, db: Db, cursor: Option<nat>, frontier: nat) {
    && w.frontier <= frontier <= |Flat(w.blocks)|
    && frontier <= |Flat(w.blocks[..StableCount(cfg, w.blocks)])|
    && Covered(cfg, w.blocks, frontier, CursorBlock(cursor, cfg))
    && RowsMirror(cfg, db.rows, Flat(w.blocks)[..frontier])
    && Paywalled(db)
    && (forall u :: IsAnswered(w.db.rows, u) ==> IsAnswered(db.rows, u))
  }

  // What the step of thread t has to keep, and the transitions it counts.
  ghost predicate EffectOk(cfg: Config, w: World, t: Thread, eff: Effect) {
    && TablesOk(cfg, w, eff.db, eff.cursor, eff.frontier)
    && ThreadOk(cfg, w.blocks, eff.db.rows, eff.frontier, eff.thread)
    && RankTotal(eff.db.rows) + AppliedBy(t) == RankTotal(w.db.rows) + AppliedBy(eff.thread)
  }

  ghost predicate StateOk(cfg: Config, w: World, t: Thread) {
    && ChainOk(cfg, w)
    && RowsMirror(cfg, w.db.rows, AppliedLog(w))
    && Paywalled(w.db)
    && ThreadOk(cfg, w.blocks, w.db.rows, w.frontier, t)
  }

  lemma StayIsOk(cfg: Config, w: World, t: Thread, t': Thread)
    requires StateOk(cfg, w, t) && ThreadOk(cfg, w.blocks, w.db.rows, w.frontier, t') && AppliedBy(t') == AppliedBy(t)
    ensures EffectOk(cfg, w, t, Stay(w, t'))
  {
  }

  lemma ReadHeadIsOk(cfg: Config, w: World, t: Thread, last: nat, nodeHead: nat)
    requires StateOk(cfg, w, t) && t.Pass? && t.pc == ReadHead(last) && Configured(cfg)
    ensures EffectOk(cfg, w, t, ReadHeadStep(cfg, w, t, last, nodeHead))
  {
  }

  // A reply in any order, once sorted, is the stretch of the log that the pass asked for.
  lemma SortedReplyInPlace(cfg: Config, blocks: seq<Block>, rows: Rows, frontier: nat, lo: nat, runEnd: nat, hi: nat,
                           reply: seq<EscrowEvent>)
    requires PassOk(cfg, blocks, rows, frontier, ReadLogs(lo, runEnd)) && StrictlySorted(Flat(blocks))
    requires lo <= hi <= runEnd && multiset(reply) == multiset(Range(blocks, lo, hi))
    ensures PassOk(cfg, blocks, rows, frontier, ApplyNext(hi, runEnd, SortEvents(reply), |Flat(blocks[..lo])|))
  {
    RangeSorted(blocks, lo, hi);
    SortIsCanonical(reply, Range(blocks, lo, hi));
    RangeIsStretch(blocks, lo, hi);
    assert lo - 1 + 1 == lo;
  }

  lemma ServedIsOk(cfg: Config, w: World, t: Thread, lo: nat, runEnd: nat, hi: nat, reply: seq<EscrowEvent>)
    requires StateOk(cfg, w, t) && t.Pass? && t.pc == ReadLogs(lo, runEnd)
    requires lo <= hi <= runEnd && multiset(reply) == multiset(Range(w.blocks, lo, hi))
    ensures EffectOk(cfg, w, t, Stay(w, t.(pc := ApplyNext(hi, runEnd, SortEvents(reply), |Flat(w.blocks[..lo])|))))
  {
    SortedReplyInPlace(cfg, w.blocks, w.db.rows, w.frontier, lo, runEnd, hi, reply);
    StayIsOk(cfg, w, t, t.(pc := ApplyNext(hi, runEnd, SortEvents(reply), |Flat(w.blocks[..lo])|)));
  }

  lemma ReadLogsCases(cfg: Config, w: World, t: Thread, lo: nat, runEnd: nat, reply: seq<EscrowEvent>)
    requires t.Pass? && Configured(cfg)
    ensures var eff, hi := ReadLogsStep(cfg, w, t, lo, runEnd, reply), Min(runEnd, lo + cfg.getLogsRange - 1);
            eff == Stay(w, t)
            || (lo <= hi < |w.blocks| && multiset(reply) == multiset(Range(w.blocks, lo, hi))
                && eff == Stay(w, t.(pc := ApplyNext(hi, runEnd, SortEvents(reply), |Flat(w.blocks[..lo])|))))
  {
  }

  // The unique index never gets in the way of an ask.
  lemma NeverTaken(cfg: Config, rows: Rows, log: seq<EscrowEvent>, n: nat, u: Uuid)
    requires n < |log| && AsksAreUnique(log) && RowsMirror(cfg, rows, log[..n]) && IsAskFor(log[n], u)
    ensures !Taken(rows, cfg.chainId, log[n].onchainId, u)
  {
    forall v | v in rows && v != u && rows[v].chainId == cfg.chainId
      ensures rows[v].money.onchainId != Some(log[n].onchainId)
    {
      assert RowMirrors(cfg, v, rows[v], log[..n]);
      IdComesFromAsk(PENDING, v, log[..n]);
      if i :| 0 <= i < n && IsAskFor(log[..n][i], v) && rows[v].money.onchainId == Some(log[..n][i].onchainId) {
        assert log[..n][i] == log[i];
        assert SameAskedId(log[i], log[n]) <==> IsAsk(log[i]) && IsAsk(log[n]) && log[i].onchainId == log[n].onchainId;
      }
    }
  }

  // Applying the next unapplied event extends the common prefix by it.
  lemma CasExtends(cfg: Config, rows: Rows, log: seq<EscrowEvent>, n: nat)
    requires n < |log| && AsksAreUnique(log) && RowsMirror(cfg, rows, log[..n])
    ensures CasQuestion(rows, cfg, log[n]).Ok?
    ensures RowsMirror(cfg, CasQuestion(rows, cfg, log[n]).value, log[..n + 1])
  {
    var e := log[n];
    if e.key.Some? && IsAsk(e) {
      NeverTaken(cfg, rows, log, n, e.key.value);
    }
    var rows' := CasQuestion(rows, cfg, e).value;
    assert log[..n + 1] == log[..n] + [e];
    forall u | u in rows'
      ensures RowMirrors(cfg, u, rows'[u], log[..n + 1])
    {
      assert RowMirrors(cfg, u, rows[u], log[..n]);
      FoldAppend(PENDING, u, log[..n], e);
    }
  }

  // Applying an event of the prefix again matches nothing.
  lemma CasReplays(cfg: Config, rows: Rows, log: seq<EscrowEvent>, i: nat, n: nat)
    requires i < n <= |log| && (forall u :: AskComesFirst(u, log)) && RowsMirror(cfg, rows, log[..n])
    ensures !Matches(rows, cfg, log[i])
  {
    var e := log[i];
    if e.key.Some? && e.key.value in rows {
      assert RowMirrors(cfg, e.key.value, rows[e.key.value], log[..n]);
      ReplayOne(e.key.value, log, i, n);
    }
  }

  // A guarded update leaves answered rows answered, and an answer event that fires answers its row.
  lemma CasKeepsAnswered(cfg: Config, rows: Rows, e: EscrowEvent)
    requires CasQuestion(rows, cfg, e).Ok?
    ensures var rows' := CasQuestion(rows, cfg, e).value;
            && rows'.Keys == rows.Keys
            && (forall u :: IsAnswered(rows, u) ==> IsAnswered(rows', u))
            && (forall u :: u in rows ==> rows'[u].isPublic == rows[u].isPublic)
            && (Reveals(rows, cfg, e) ==> IsAnswered(rows', e.key.value))
  {
  }

  // The event at the head of a queue is the one at its position in the log.
  lemma HeadOfQueue(cfg: Config, w: World, hi: nat, queue: seq<EscrowEvent>, pos: nat)
    requires ChainOk(cfg, w) && InPlace(cfg, w.blocks, w.frontier, hi, queue, pos) && |queue| > 0
    ensures pos < |Flat(w.blocks)| && queue[0] == Flat(w.blocks)[pos]
    ensures pos < |Flat(w.blocks[..StableCount(cfg, w.blocks)])|
    ensures InPlace(cfg, w.blocks, Max(w.frontier, pos + 1), hi, queue[1..], pos + 1)
  {
    var k := StableCount(cfg, w.blocks);
    PrefixOfFlat(w.blocks, hi + 1);
    PrefixOfFlat(w.blocks[..k], hi + 1);
    assert w.blocks[..k][..hi + 1] == w.blocks[..hi + 1];
  }

  // Whether the event is new or a replay, the rows stay the fold of one prefix.
  lemma CasKeepsTables(cfg: Config, w: World, pos: nat)
    requires ChainOk(cfg, w) && RowsMirror(cfg, w.db.rows, AppliedLog(w)) && Paywalled(w.db)
    requires pos <= w.frontier && pos < |Flat(w.blocks[..StableCount(cfg, w.blocks)])| <= |Flat(w.blocks)|
    ensures var e := Flat(w.blocks)[pos];
            && CasQuestion(w.db.rows, cfg, e).Ok?
            && TablesOk(cfg, w, w.db.(rows := CasQuestion(w.db.rows, cfg, e).value), w.cursor, Max(w.frontier, pos + 1))
  {
    var log := Flat(w.blocks);
    if pos == w.frontier {
      CasExtends(cfg, w.db.rows, log, pos);
    } else {
      CasReplays(cfg, w.db.rows, log, pos, w.frontier);
    }
    CasKeepsAnswered(cfg, w.db.rows, log[pos]);
  }

  // After the update the pass stands before the reveal of an answered row, or before the next event.
  lemma CasThreadIsOk(cfg: Config, w: World, t: Thread)
    requires StateOk(cfg, w, t) && t.Pass? && t.pc.ApplyNext? && |t.pc.queue| > 0
    requires CasQuestion(w.db.rows, cfg, t.pc.queue[0]).Ok?
    ensures var eff := CasStep(cfg, w, t); ThreadOk(cfg, w.blocks, eff.db.rows, eff.frontier, eff.thread)
  {
    HeadOfQueue(cfg, w, t.pc.hi, t.pc.queue, t.pc.pos);
    CasKeepsAnswered(cfg, w.db.rows, t.pc.queue[0]);
  }

  lemma CasTablesAreOk(cfg: Config, w: World, hi: nat, queue: seq<EscrowEvent>, pos: nat)
    requires ChainOk(cfg, w) && RowsMirror(cfg, w.db.rows, AppliedLog(w)) && Paywalled(w.db)
    requires InPlace(cfg, w.blocks, w.frontier, hi, queue, pos) && |queue| > 0
    ensures var updated := CasQuestion(w.db.rows, cfg, queue[0]);
            updated.Ok? && TablesOk(cfg, w, w.db.(rows := updated.value), w.cursor, Max(w.frontier, pos + 1))
  {
    HeadOfQueue(cfg, w, hi, queue, pos);
    PrefixOfFlat(w.blocks, StableCount(cfg, w.blocks));
    CasKeepsTables(cfg, w, pos);
  }

  // The parts of the step when the unique index does not object.
  lemma CasStepIs(cfg: Config, w: World, t: Thread)
    requires t.Pass? && t.pc.ApplyNext? && |t.pc.queue| > 0 && CasQuestion(w.db.rows, cfg, t.pc.queue[0]).Ok?
    ensures var eff := CasStep(cfg, w, t);
            && eff.db == w.db.(rows := CasQuestion(w.db.rows, cfg, t.pc.queue[0]).value)
            && eff.cursor == w.cursor && eff.frontier == Max(w.frontier, t.pc.pos + 1)
            && AppliedBy(eff.thread) == t.applied + if Matches(w.db.rows, cfg, t.pc.queue[0]) then 1 else 0
  {
  }

  lemma CasIsOk(cfg: Config, w: World, t: Thread)
    requires StateOk(cfg, w, t) && t.Pass? && t.pc.ApplyNext? && |t.pc.queue| > 0
    ensures EffectOk(cfg, w, t, CasStep(cfg, w, t))
  {
    CasTablesAreOk(cfg, w, t.pc.hi, t.pc.queue, t.pc.pos);
    CasRaisesRank(w.db.rows, cfg, t.pc.queue[0]);
    CasThreadIsOk(cfg, w, t);
    CasStepIs(cfg, w, t);
  }

  lemma SavedIsCovered(cfg: Config, w: World, hi: nat)
    requires ChainOk(cfg, w) && Covered(cfg, w.blocks, w.frontier, hi)
    ensures Covered(cfg, w.blocks, w.frontier, SaveCursor(w.cursor, hi))
  {
  }

  lemma SaveCursorIsOk(cfg: Config, w: World, t: Thread)
    requires StateOk(cfg, w, t) && t.Pass? && t.pc.ApplyNext? && t.pc.queue == []
    ensures EffectOk(cfg, w, t, SaveCursorStep(w, t))
  {
    assert Covered(cfg, w.blocks, w.frontier, t.pc.hi);
    SavedIsCovered(cfg, w, t.pc.hi);
    assert ThreadOk(cfg, w.blocks, w.db.rows, w.frontier, SaveCursorStep(w, t).thread);
  }

  lemma RevealIsOk(cfg: Config, w: World, t: Thread)
    requires StateOk(cfg, w, t) && t.Pass? && t.pc.RevealNext?
    ensures EffectOk(cfg, w, t, RevealStep(w, t))
  {
  }

  lemma PassIsOk(cfg: Config, w: World, t: Thread, nodeHead: nat, reply: seq<EscrowEvent>, eff: Effect)
    requires StateOk(cfg, w, t) && t.Pass? && Configured(cfg) && eff == PassStep(cfg, w, t, nodeHead, reply)
    ensures EffectOk(cfg, w, t, eff)
  {
    match t.pc
    case ReadHead(last) => ReadHeadIsOk(cfg, w, t, last, nodeHead);
    case ReadLogs(lo, runEnd) =>
      ReadLogsCases(cfg, w, t, lo, runEnd, reply);
      if eff == Stay(w, t) {
        StayIsOk(cfg, w, t, t);
      } else {
        ServedIsOk(cfg, w, t, lo, runEnd, Min(runEnd, lo + cfg.getLogsRange - 1), reply);
      }
    case ApplyNext(_, _, queue, _) =>
      if |queue| > 0 {
        CasIsOk(cfg, w, t);
      } else {
        SaveCursorIsOk(cfg, w, t);
      }
    case RevealNext(_, _, _, _, _) => RevealIsOk(cfg, w, t);
    case _ =>
  }

  lemma SweepIsOk(cfg: Config, w: World, t: Thread, picked: set<Uuid>)
    requires StateOk(cfg, w, t) && t.Sweeping?
    ensures EffectOk(cfg, w, t, SweepStep(w, t, picked))
  {
    if t.picked.Some? {
      var doomed := t.picked.value * Orphans(w.db.rows, t.cutoff);
      DeletingPendingKeepsRank(w.db.rows, doomed);
    }
  }

  // Publishing an answered row leaves its money columns, and so the mirror and the ranks, alone.
  lemma PublishKeepsRows(cfg: Config, rows: Rows, log: seq<EscrowEvent>, u: Uuid)
    requires RowsMirror(cfg, rows, log) && u in rows
    ensures var rows' := rows[u := rows[u].(isPublic := true)];
            && RowsMirror(cfg, rows', log) && RankTotal(rows') == RankTotal(rows)
            && (forall v :: IsAnswered(rows, v) <==> IsAnswered(rows', v))
  {
    var rows' := rows[u := rows[u].(isPublic := true)];
    assert rows'.Keys == rows.Keys;
    SameRanks(rows, rows');
    forall v | v in rows'
      ensures RowMirrors(cfg, v, rows'[v], log)
    {
      assert RowMirrors(cfg, v, rows[v], log);
    }
  }

  lemma PublishIsOk(cfg: Config, w: World, t: Thread)
    requires StateOk(cfg, w, t) && t.Publishing?
    ensures EffectOk(cfg, w, t, PublishStep(w, t))
  {
    if t.checked && t.u in w.db.rows {
      PublishKeepsRows(cfg, w.db.rows, AppliedLog(w), t.u);
    } else {
      StayIsOk(cfg, w, t, PublishStep(w, t).thread);
    }
  }

  lemma StepIsOk(cfg: Config, w: World, t: Thread, nodeHead: nat, reply: seq<EscrowEvent>, picked: set<Uuid>)
    requires StateOk(cfg, w, t) && Configured(cfg)
    ensures EffectOk(cfg, w, t, ThreadStep(cfg, w, t, nodeHead, reply, picked))
  {
    match t
    case Pass(_, _, _) => PassIsOk(cfg, w, t, nodeHead, reply, PassStep(cfg, w, t, nodeHead, reply));
    case Sweeping(_, _, _) => SweepIsOk(cfg, w, t, picked);
    case Publishing(_, _, _) => PublishIsOk(cfg, w, t);
    case _ =>
  }

  // ---------------------------------------------------------------- every choice keeps the invariant

  lemma StepKeepsInv(cfg: Config, w: World, i: nat, nodeHead: nat, reply: seq<EscrowEvent>, picked: set<Uuid>)
    requires Inv(cfg, w) && Configured(cfg)
    ensures Inv(cfg, Do(cfg, w, Step(i, nodeHead, reply, picked)))
  {
    if i < |w.threads| {
      var t := w.threads[i];
      var eff := ThreadStep(cfg, w, t, nodeHead, reply, picked);
      StepIsOk(cfg, w, t, nodeHead, reply, picked);
      AppliedTotalUpdate(w.threads, i, eff.thread);
      forall j | 0 <= j < |w.threads| && j != i
        ensures ThreadOk(cfg, w.blocks, eff.db.rows, eff.frontier, w.threads[j])
      {
        ThreadOkLater(cfg, w.blocks, w.db.rows, w.frontier, w.blocks, eff.db.rows, eff.frontier, w.threads[j]);
      }
    }
  }

  // A minted draft is the fold of the applied events, none of which is its own, and has no rank.
  lemma MintKeepsRows(cfg: Config, rows: Rows, log: seq<EscrowEvent>, u: Uuid, draft: Row)
    requires RowsMirror(cfg, rows, log) && u !in rows && draft.money == PENDING
    requires forall e :: e in log ==> e.key != Some(u)
    ensures RowsMirror(cfg, rows[u := draft], log) && RankTotal(rows[u := draft]) == RankTotal(rows)
  {
    WithoutAskPending(u, log);
    var rows' := rows[u := draft];
    forall v | v in rows'
      ensures RowMirrors(cfg, v, rows'[v], log)
    {
      if v != u {
        assert RowMirrors(cfg, v, rows[v], log);
      }
    }
    assert Ranks(rows') == Ranks(rows)[u := 0];
    SumUpdate(Ranks(rows), u, 0);
  }

  lemma MintKeepsInv(cfg: Config, w: World, u: Uuid, chainId: nat, createdAt: int, asker: Wallet, answerer: Wallet)
    requires Inv(cfg, w) && Configured(cfg)
    ensures Inv(cfg, Do(cfg, w, Mint(u, chainId, createdAt, asker, answerer)))
  {
    if MayMint(w, u) {
      var draft := Draft(chainId, createdAt, asker, answerer);
      MintKeepsRows(cfg, w.db.rows, AppliedLog(w), u, draft);
      forall j | 0 <= j < |w.threads|
        ensures ThreadOk(cfg, w.blocks, w.db.rows[u := draft], w.frontier, w.threads[j])
      {
        ThreadOkLater(cfg, w.blocks, w.db.rows, w.frontier, w.blocks, w.db.rows[u := draft], w.frontier, w.threads[j]);
      }
    }
  }

  lemma StartKeepsInv(cfg: Config, w: World, t: Thread)
    requires Inv(cfg, w) && Configured(cfg)
    ensures Inv(cfg, Do(cfg, w, Start(t)))
  {
    if Fresh(t) {
      assert (w.threads + [t])[..|w.threads|] == w.threads;
    }
  }

  lemma KillKeepsInv(cfg: Config, w: World, i: nat)
    requires Inv(cfg, w) && Configured(cfg)
    ensures Inv(cfg, Do(cfg, w, Kill(i)))
  {
    if i < |w.threads| {
      assert ThreadOk(cfg, w.blocks, w.db.rows, w.frontier, w.threads[i]);
      AppliedTotalUpdate(w.threads, i, KillThread(w.threads[i]));
    }
  }

  // What was applied stays applied: the stable blocks hold it, and they survive.
  lemma AppliedSurvives(cfg: Config, w: World, blocks: seq<Block>)
    requires ChainOk(cfg, w) && ChainStep(cfg, w.blocks, blocks)
    ensures w.frontier <= |Flat(blocks[..StableCount(cfg, blocks)])|
    ensures w.frontier <= |Flat(blocks)| && Flat(blocks)[..w.frontier] == Flat(w.blocks)[..w.frontier]
  {
    var k := StableCount(cfg, w.blocks);
    PrefixOfFlat(w.blocks, k);
    PrefixOfFlat(blocks, k);
    PrefixOfFlat(blocks[..StableCount(cfg, blocks)], k);
    assert blocks[..StableCount(cfg, blocks)][..k] == blocks[..k];
  }

  lemma NewChainKeepsInv(cfg: Config, w: World, blocks: seq<Block>)
    requires Inv(cfg, w) && Configured(cfg)
    ensures Inv(cfg, Do(cfg, w, NewChain(blocks)))
  {
    if ChainStep(cfg, w.blocks, blocks) {
      AppliedSurvives(cfg, w, blocks);
      CoveredLater(cfg, w.blocks, w.db.rows, w.frontier, blocks, w.db.rows, w.frontier, CursorBlock(w.cursor, cfg));
      forall j | 0 <= j < |w.threads|
        ensures ThreadOk(cfg, blocks, w.db.rows, w.frontier, w.threads[j])
      {
        ThreadOkLater(cfg, w.blocks, w.db.rows, w.frontier, blocks, w.db.rows, w.frontier, w.threads[j]);
      }
    }
  }

  lemma DoKeepsInv(cfg: Config, w: World, c: Choice)
    requires Inv(cfg, w) && Configured(cfg)
    ensures Inv(cfg, Do(cfg, w, c))
  {
    match c
    case Mint(u, chainId, createdAt, asker, answerer) => MintKeepsInv(cfg, w, u, chainId, createdAt, asker, answerer);
    case Start(t) => StartKeepsInv(cfg, w, t);
    case Step(i, nodeHead, reply, picked) => StepKeepsInv(cfg, w, i, nodeHead, reply, picked);
    case Kill(i) => KillKeepsInv(cfg, w, i);
    case NewChain(blocks) => NewChainKeepsInv(cfg, w, blocks);
  }

  lemma {:induction false} UnpaidHaveNoRank(rows: Rows)
    requires forall u :: u in rows ==> rows[u].money == PENDING
    ensures RankTotal(rows) == 0
    decreases |rows|
  {
    if rows != map[] {
      var u :| u in rows;
      UnpaidHaveNoRank(rows - {u});
      assert Ranks(rows - {u}) == Ranks(rows) - {u};
      SumRemove(Ranks(rows), u);
    }
  }

  lemma InitIsInv(cfg: Config, w: World)
    requires Init(cfg, w)
    ensures Inv(cfg, w)
  {
    UnpaidHaveNoRank(w.db.rows);
    forall u | u in w.db.rows
      ensures RowMirrors(cfg, u, w.db.rows[u], AppliedLog(w))
    {
      assert AppliedLog(w) == [];
    }
  }

  // Every reachable state of the whole system satisfies the invariant.
  lemma {:induction false} InvForever(cfg: Config, w: World, choices: seq<Choice>)
    requires Inv(cfg, w) && Configured(cfg)
    ensures Inv(cfg, RunWorld(cfg, w, choices))
  {
    if |choices| > 0 {
      InvForever(cfg, w, choices[..|choices| - 1]);
      DoKeepsInv(cfg, RunWorld(cfg, w, choices[..|choices| - 1]), choices[|choices| - 1]);
    }
  }
}
