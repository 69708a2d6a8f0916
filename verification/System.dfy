// The whole off-chain system as one step relation: a chain that grows and reorganises, and any
// number of reconcile passes, sweeps, answer saves and publishes over the shared tables, interleaved
// statement by statement and killed between any two of them.
module System {
  import opened Prelude
  import opened Events
  import opened MoneyFold
  import opened Chain
  import opened Tables
  import opened Sweep
  import opened Api

  // Where a pass stands between two atomic steps. queue holds the sorted events of the current chunk
  // that are still to be applied, and pos is the position of the first of them in the log. A killed
  // pass keeps the end of the chunk it was applying, if it had read one.
  datatype PassPc =
    | LoadCursor
    | ReadHead(last: nat)
    | ReadLogs(lo: nat, runEnd: nat)
    | ApplyNext(hi: nat, runEnd: nat, queue: seq<EscrowEvent>, pos: nat)
    | RevealNext(u: Uuid, hi: nat, runEnd: nat, queue: seq<EscrowEvent>, pos: nat)
    | Completed
    | Failed
    | Killed(chunk: Option<nat>)

  datatype Thread =
    | Pass(pc: PassPc, now: int, applied: nat)
    | Sweeping(cutoff: int, limit: nat, picked: Option<set<Uuid>>)
    | Saving(u: Uuid, wallet: Wallet, body: string, checked: bool)
    | Publishing(u: Uuid, wallet: Wallet, checked: bool)
    | Ended

  // The canonical chain, the tables, the cursor row, and the requests in flight. frontier is a
  // history variable: how many events of the log have been applied by some pass.
  datatype World = World(blocks: seq<Block>, db: Db, cursor: Option<nat>, frontier: nat, threads: seq<Thread>)

  datatype Choice =
    | Mint(u: Uuid, chainId: nat, createdAt: int, asker: Wallet, answerer: Wallet)
    | Start(thread: Thread)
    | Step(i: nat, nodeHead: nat, reply: seq<EscrowEvent>, picked: set<Uuid>)
    | Kill(i: nat)
    | NewChain(blocks: seq<Block>)

  predicate Configured(cfg: Config) {
    cfg.getLogsRange >= 1 && cfg.maxBlocksPerRun >= 1
  }

  // ---------------------------------------------------------------- the chain

  // How many blocks have at least the configured confirmations on top of them.
  function StableCount(cfg: Config, blocks: seq<Block>): nat {
    if |blocks| > cfg.confirmations then |blocks| - cfg.confirmations else 0
  }

  // An ask's on-chain id identifies it.
  ghost predicate AsksAreUnique(log: seq<EscrowEvent>) {
    forall i, j :: 0 <= i < |log| && 0 <= j < |log| && SameAskedId(log[i], log[j]) ==> i == j
  }

  // The log of an escrow deployed at the start block.
  ghost predicate EscrowChain(cfg: Config, blocks: seq<Block>) {
    && cfg.startBlock < |blocks|
    && Flat(blocks[..cfg.startBlock + 1]) == []
    && StrictlySorted(Flat(blocks))
    && AsksAreUnique(Flat(blocks))
    && (forall u :: AskComesFirst(u, Flat(blocks)))
  }

  // Growth, or a reorganisation that drops at most the confirmations and does not shorten the chain.
  ghost predicate ChainStep(cfg: Config, blocks: seq<Block>, blocks': seq<Block>) {
    && EscrowChain(cfg, blocks')
    && |blocks| <= |blocks'|
    && blocks'[..StableCount(cfg, blocks)] == blocks[..StableCount(cfg, blocks)]
  }

  // ---------------------------------------------------------------- steps

  datatype Effect = Effect(db: Db, cursor: Option<nat>, frontier: nat, thread: Thread)

  function Stay(w: World, t: Thread): Effect {
    Effect(w.db, w.cursor, w.frontier, t)
  }

  // The head a node reports may lag behind the canonical chain.
  function ReadHeadStep(cfg: Config, w: World, t: Thread, last: nat, nodeHead: nat): Effect
    requires t.Pass?
  {
    if nodeHead >= |w.blocks| then Stay(w, t)
    else
      var head := FinalizedHead(nodeHead, cfg.confirmations);
      if last + 1 > head then Stay(w, t.(pc := Completed))
      else Stay(w, t.(pc := ReadLogs(last + 1, Min(head, last + cfg.maxBlocksPerRun))))
  }

  function ReadLogsStep(cfg: Config, w: World, t: Thread, lo: nat, runEnd: nat, reply: seq<EscrowEvent>): Effect
    requires t.Pass? && Configured(cfg)
  {
    var hi := Min(runEnd, lo + cfg.getLogsRange - 1);
    if lo <= hi < |w.blocks| && multiset(reply) == multiset(Range(w.blocks, lo, hi)) then
      Stay(w, t.(pc := ApplyNext(hi, runEnd, SortEvents(reply), |Flat(w.blocks[..lo])|)))
    else Stay(w, t)
  }

  // The guarded update of the next event; the reveal is a statement of its own.
  function CasStep(cfg: Config, w: World, t: Thread): Effect
    requires t.Pass? && t.pc.ApplyNext? && |t.pc.queue| > 0
  {
    var ApplyNext(hi, runEnd, queue, pos) := t.pc;
    var e, rest := queue[0], queue[1..];
    match CasQuestion(w.db.rows, cfg, e)
    case Err(_) => Stay(w, t.(pc := Failed))
    case Ok(rows) =>
      var pc := if Reveals(w.db.rows, cfg, e) then RevealNext(e.key.value, hi, runEnd, rest, pos + 1)
                else ApplyNext(hi, runEnd, rest, pos + 1);
      Effect(w.db.(rows := rows), w.cursor, Max(w.frontier, pos + 1),
             Pass(pc, t.now, t.applied + if Matches(w.db.rows, cfg, e) then 1 else 0))
  }

  function SaveCursorStep(w: World, t: Thread): Effect
    requires t.Pass? && t.pc.ApplyNext?
  {
    var pc := if t.pc.hi < t.pc.runEnd then ReadLogs(t.pc.hi + 1, t.pc.runEnd) else Completed;
    Effect(w.db, Some(SaveCursor(w.cursor, t.pc.hi)), w.frontier, t.(pc := pc))
  }

  function RevealStep(w: World, t: Thread): Effect
    requires t.Pass? && t.pc.RevealNext?
  {
    var RevealNext(u, hi, runEnd, queue, pos) := t.pc;
    Effect(w.db.(answers := RevealAnswer(w.db.answers, u, t.now)), w.cursor, w.frontier,
           t.(pc := ApplyNext(hi, runEnd, queue, pos)))
  }

  function PassStep(cfg: Config, w: World, t: Thread, nodeHead: nat, reply: seq<EscrowEvent>): Effect
    requires t.Pass? && Configured(cfg)
  {
    match t.pc
    case LoadCursor => Stay(w, t.(pc := ReadHead(CursorBlock(w.cursor, cfg))))
    case ReadHead(last) => ReadHeadStep(cfg, w, t, last, nodeHead)
    case ReadLogs(lo, runEnd) => ReadLogsStep(cfg, w, t, lo, runEnd, reply)
    case ApplyNext(_, _, queue, _) => if |queue| > 0 then CasStep(cfg, w, t) else SaveCursorStep(w, t)
    case RevealNext(_, _, _, _, _) => RevealStep(w, t)
    case _ => Stay(w, t)
  }

  // SELECT a bounded batch of orphans, then DELETE under the same guard.
  function SweepStep(w: World, t: Thread, picked: set<Uuid>): Effect
    requires t.Sweeping?
  {
    match t.picked
    case None =>
      if picked <= Orphans(w.db.rows, t.cutoff) && |picked| <= t.limit then Stay(w, t.(picked := Some(picked)))
      else Stay(w, t)
    case Some(ids) => Effect(DeleteOrphans(w.db, ids, t.cutoff), w.cursor, w.frontier, Ended)
  }

  // The write fails on its foreign key when the row is gone.
  function SaveStep(w: World, t: Thread): Effect
    requires t.Saving?
  {
    if !t.checked then
      if CheckSave(w.db.rows, t.u, t.wallet).Some? then Stay(w, Ended)
      else Stay(w, Saving(t.u, t.wallet, t.body, true))
    else if t.u !in w.db.rows then Stay(w, Ended)
    else Effect(w.db.(answers := UpsertAnswer(w.db.answers, t.u, t.body)), w.cursor, w.frontier, Ended)
  }

  function PublishStep(w: World, t: Thread): Effect
    requires t.Publishing?
  {
    if !t.checked then
      if CheckPublish(w.db.rows, t.u, t.wallet).Some? then Stay(w, Ended)
      else Stay(w, Publishing(t.u, t.wallet, true))
    else if t.u !in w.db.rows then Stay(w, Ended)
    else Effect(w.db.(rows := w.db.rows[t.u := w.db.rows[t.u].(isPublic := true)]), w.cursor, w.frontier, Ended)
  }

  function ThreadStep(cfg: Config, w: World, t: Thread, nodeHead: nat, reply: seq<EscrowEvent>, picked: set<Uuid>)
    : Effect
    requires Configured(cfg)
  {
    match t
    case Pass(_, _, _) => PassStep(cfg, w, t, nodeHead, reply)
    case Sweeping(_, _, _) => SweepStep(w, t, picked)
    case Saving(_, _, _, _) => SaveStep(w, t)
    case Publishing(_, _, _) => PublishStep(w, t)
    case Ended => Stay(w, t)
  }

  predicate Fresh(t: Thread) {
    match t
    case Pass(pc, _, applied) => pc == LoadCursor && applied == 0
    case Sweeping(_, _, picked) => picked.None?
    case Saving(_, _, _, checked) => !checked
    case Publishing(_, _, checked) => !checked
    case Ended => true
  }

  function ChunkOf(pc: PassPc): Option<nat> {
    match pc
    case ApplyNext(hi, _, _, _) => Some(hi)
    case RevealNext(_, hi, _, _, _) => Some(hi)
    case Killed(chunk) => chunk
    case _ => None
  }

  // A killed request takes no further step; what a pass has applied so far stays applied.
  function KillThread(t: Thread): Thread {
    if t.Pass? && t.pc != Completed && t.pc != Failed then t.(pc := Killed(ChunkOf(t.pc)))
    else if t.Pass? then t
    else Ended
  }

  // A minted id is new, and its ref is not on chain yet.
  predicate MayMint(w: World, u: Uuid) {
    u !in w.db.rows && u !in w.db.answers && forall e :: e in Flat(w.blocks) ==> e.key != Some(u)
  }

  ghost function Do(cfg: Config, w: World, c: Choice): World
    requires Configured(cfg)
  {
    match c
    case Mint(u, chainId, createdAt, asker, answerer) =>
      if MayMint(w, u) then w.(db := w.db.(rows := w.db.rows[u := Draft(chainId, createdAt, asker, answerer)])) else w
    case Start(t) => if Fresh(t) then w.(threads := w.threads + [t]) else w
    case Step(i, nodeHead, reply, picked) =>
      if i >= |w.threads| then w
      else
        var eff := ThreadStep(cfg, w, w.threads[i], nodeHead, reply, picked);
        World(w.blocks, eff.db, eff.cursor, eff.frontier, w.threads[i := eff.thread])
    case Kill(i) => if i < |w.threads| then w.(threads := w.threads[i := KillThread(w.threads[i])]) else w
    case NewChain(blocks) => if ChainStep(cfg, w.blocks, blocks) then w.(blocks := blocks) else w
  }

  ghost function RunWorld(cfg: Config, w: World, choices: seq<Choice>): World
    requires Configured(cfg)
  {
    if |choices| == 0 then w else Do(cfg, RunWorld(cfg, w, choices[..|choices| - 1]), choices[|choices| - 1])
  }

  // No row is indexed, no answer revealed, no request in flight, and the cursor row, if a migration has
  // seeded one, stands at the start block.
  ghost predicate Unindexed(cfg: Config, w: World) {
    && (forall u :: u in w.db.rows ==> w.db.rows[u].money == PENDING && !w.db.rows[u].isPublic)
    && (forall u :: u in w.db.answers ==> u in w.db.rows && w.db.answers[u].revealedAt.None?)
    && CursorBlock(w.cursor, cfg) == cfg.startBlock && w.frontier == 0 && w.threads == []
  }

  ghost predicate Init(cfg: Config, w: World) {
    EscrowChain(cfg, w.blocks) && Unindexed(cfg, w)
  }
}
