// From the escrow's transactions to the indexer's chain: each transaction, at its place in a block,
// adds the escrow's new events, as logs, and what the reader makes of them.
module Mining {
  import opened Prelude
  import opened Events
  import opened MoneyFold
  import opened Chain
  import opened System
  import opened Tables
  import Ref
  import E = EscrowSpec
  import EscrowSafety
  import EscrowChange

  // ---------------------------------------------------------------- logs

  // The row a 32-byte ref answers to, if any.
  function KeyOf(ref: E.Bytes32): Option<Uuid> {
    Ref.TryRefToUuid(Ref.HexWord(ref))
  }

  // An emitted event as the RPC client decodes it, mined at a place in the chain.
  function RawOf(e: E.Event, block: nat, index: nat): RawLog {
    match e
    case QuestionAsked(id, ref, asker, answerer, amount, deadline) =>
      RawLog(Some("QuestionAsked"), Some(Ref.HexWord(ref)), Some(id), Some(asker), Some(answerer), Some(amount),
             Some(deadline), Some(block), Some(index), Some(0))
    case QuestionAnswered(id, ref, answerer) =>
      RawLog(Some("QuestionAnswered"), Some(Ref.HexWord(ref)), Some(id), None, Some(answerer), None, None,
             Some(block), Some(index), Some(0))
    case QuestionDeclined(id, ref) => SettleLog("QuestionDeclined", id, ref, block, index)
    case QuestionCancelled(id, ref) => SettleLog("QuestionCancelled", id, ref, block, index)
    case QuestionReclaimed(id, ref) => SettleLog("QuestionReclaimed", id, ref, block, index)
    case Withdrawn(_, amount) => OtherLog("Withdrawn", Some(amount), block, index)
    case ParameterUpdated(name, _) => OtherLog(name, None, block, index)
  }

  function SettleLog(name: string, id: nat, ref: E.Bytes32, block: nat, index: nat): RawLog {
    RawLog(Some(name), Some(Ref.HexWord(ref)), Some(id), None, None, None, None, Some(block), Some(index), Some(0))
  }

  function OtherLog(name: string, amount: Option<nat>, block: nat, index: nat): RawLog {
    RawLog(Some(name), None, None, None, None, amount, None, Some(block), Some(index), Some(0))
  }

  function RawLogs(events: seq<E.Event>, block: nat, index: nat): seq<RawLog> {
    seq(|events|, i requires 0 <= i < |events| => RawOf(events[i], block, index))
  }

  // ---------------------------------------------------------------- blocks

  datatype Placed = Placed(tx: E.Tx, block: nat, index: nat)

  ghost function After(s: E.State, placed: seq<Placed>): E.State {
    if |placed| == 0 then s else E.Apply(After(s, placed[..|placed| - 1]), placed[|placed| - 1].tx)
  }

  // The logs a transaction adds, and what the reader makes of them.
  ghost function NewLogs(pre: E.State, p: Placed): seq<RawLog> {
    var post := E.Apply(pre, p.tx);
    if |pre.log| <= |post.log| then RawLogs(post.log[|pre.log|..], p.block, p.index) else []
  }

  ghost function NewEvents(pre: E.State, p: Placed): seq<EscrowEvent> {
    Normalized(NewLogs(pre, p))
  }

  ghost function Emitted(s: E.State, placed: seq<Placed>): seq<EscrowEvent> {
    if |placed| == 0 then []
    else Emitted(s, placed[..|placed| - 1]) + NewEvents(After(s, placed[..|placed| - 1]), placed[|placed| - 1])
  }

  function PlaceBlock(txs: seq<E.Tx>, block: nat): seq<Placed> {
    seq(|txs|, i requires 0 <= i < |txs| => Placed(txs[i], block, i))
  }

  function PlaceAll(txBlocks: seq<seq<E.Tx>>): seq<Placed> {
    if |txBlocks| == 0 then []
    else PlaceAll(txBlocks[..|txBlocks| - 1]) + PlaceBlock(txBlocks[|txBlocks| - 1], |txBlocks| - 1)
  }

  // The chain of event blocks that blocks of transactions make.
  ghost function Mined(s: E.State, txBlocks: seq<seq<E.Tx>>): seq<Block> {
    if |txBlocks| == 0 then []
    else
      var front := txBlocks[..|txBlocks| - 1];
      Mined(s, front) + [Emitted(After(s, PlaceAll(front)), PlaceBlock(txBlocks[|txBlocks| - 1], |txBlocks| - 1))]
  }

  function Transactions(placed: seq<Placed>): seq<E.Tx> {
    seq(|placed|, i requires 0 <= i < |placed| => placed[i].tx)
  }

  lemma {:induction false} AfterIsRun(s: E.State, placed: seq<Placed>)
    ensures After(s, placed) == E.Run(s, Transactions(placed))
  {
    if |placed| > 0 {
      AfterIsRun(s, placed[..|placed| - 1]);
      assert Transactions(placed)[..|placed| - 1] == Transactions(placed[..|placed| - 1]);
    }
  }

  lemma {:induction false} AfterConcat(s: E.State, a: seq<Placed>, b: seq<Placed>)
    ensures After(s, a + b) == After(After(s, a), b)
  {
    if |b| == 0 {
      assert a + b == a;
    } else {
      AfterConcat(s, a, b[..|b| - 1]);
      assert (a + b)[..|a + b| - 1] == a + b[..|b| - 1];
    }
  }

  lemma EmittedNext(s: E.State, placed: seq<Placed>, p: Placed)
    ensures After(s, placed + [p]) == E.Apply(After(s, placed), p.tx)
    ensures Emitted(s, placed + [p]) == Emitted(s, placed) + NewEvents(After(s, placed), p)
  {
    assert (placed + [p])[..|placed|] == placed;
  }

  lemma ConcatNext(s: E.State, a: seq<Placed>, front: seq<Placed>, p: Placed)
    requires Emitted(s, a + front) == Emitted(s, a) + Emitted(After(s, a), front)
    ensures Emitted(s, a + front + [p]) == Emitted(s, a) + Emitted(After(s, a), front + [p])
  {
    AfterConcat(s, a, front);
    EmittedNext(s, a + front, p);
    EmittedNext(After(s, a), front, p);
    Associates(Emitted(s, a), Emitted(After(s, a), front), NewEvents(After(s, a + front), p));
  }

  lemma Associates<T>(a: seq<T>, b: seq<T>, c: seq<T>)
    ensures a + b + c == a + (b + c)
  {
  }

  lemma LastApart<T>(a: seq<T>, b: seq<T>)
    requires |b| > 0
    ensures b[..|b| - 1] + [b[|b| - 1]] == b
    ensures a + b[..|b| - 1] + [b[|b| - 1]] == a + b
  {
  }

  lemma {:induction false} EmittedConcat(s: E.State, a: seq<Placed>, b: seq<Placed>)
    ensures Emitted(s, a + b) == Emitted(s, a) + Emitted(After(s, a), b)
  {
    if |b| == 0 {
      assert a + b == a;
    } else {
      var front, p := b[..|b| - 1], b[|b| - 1];
      EmittedConcat(s, a, front);
      ConcatNext(s, a, front, p);
      LastApart(a, b);
    }
  }

  // Read block by block or transaction by transaction, the log is the same.
  lemma {:induction false} MinedLog(s: E.State, txBlocks: seq<seq<E.Tx>>)
    ensures |Mined(s, txBlocks)| == |txBlocks|
    ensures Flat(Mined(s, txBlocks)) == Emitted(s, PlaceAll(txBlocks))
  {
    if |txBlocks| > 0 {
      var front, last := txBlocks[..|txBlocks| - 1], PlaceBlock(txBlocks[|txBlocks| - 1], |txBlocks| - 1);
      MinedLog(s, front);
      AfterConcat(s, PlaceAll(front), last);
      EmittedConcat(s, PlaceAll(front), last);
      assert Mined(s, txBlocks)[..|txBlocks| - 1] == Mined(s, front);
    }
  }

  lemma {:induction false} MinedPrefix(s: E.State, txBlocks: seq<seq<E.Tx>>, n: nat)
    requires n <= |txBlocks|
    ensures |Mined(s, txBlocks)| == |txBlocks| && Mined(s, txBlocks)[..n] == Mined(s, txBlocks[..n])
  {
    MinedLog(s, txBlocks);
    if n < |txBlocks| {
      MinedPrefix(s, txBlocks[..|txBlocks| - 1], n);
      assert txBlocks[..|txBlocks| - 1][..n] == txBlocks[..n];
    } else {
      assert txBlocks[..n] == txBlocks;
    }
  }

  // ---------------------------------------------------------------- the logs a node serves

  ghost function EmittedLogs(s: E.State, placed: seq<Placed>): seq<RawLog> {
    if |placed| == 0 then []
    else EmittedLogs(s, placed[..|placed| - 1]) + NewLogs(After(s, placed[..|placed| - 1]), placed[|placed| - 1])
  }

  // The raw logs of each block.
  ghost function MinedLogs(s: E.State, txBlocks: seq<seq<E.Tx>>): seq<seq<RawLog>> {
    if |txBlocks| == 0 then []
    else
      var front := txBlocks[..|txBlocks| - 1];
      MinedLogs(s, front)
      + [EmittedLogs(After(s, PlaceAll(front)), PlaceBlock(txBlocks[|txBlocks| - 1], |txBlocks| - 1))]
  }

  function Joined(blocks: seq<seq<RawLog>>): seq<RawLog> {
    if |blocks| == 0 then [] else Joined(blocks[..|blocks| - 1]) + blocks[|blocks| - 1]
  }

  lemma {:induction false} EmittedIsRead(s: E.State, placed: seq<Placed>)
    ensures Normalized(EmittedLogs(s, placed)) == Emitted(s, placed)
  {
    if |placed| > 0 {
      var front := placed[..|placed| - 1];
      EmittedIsRead(s, front);
      NormalizedConcat(EmittedLogs(s, front), NewLogs(After(s, front), placed[|placed| - 1]));
    }
  }

  // Block by block, the events are what is read from the logs.
  ghost predicate ReadFrom(blocks: seq<Block>, raw: seq<seq<RawLog>>) {
    |raw| == |blocks| && forall i :: 0 <= i < |blocks| ==> blocks[i] == Normalized(raw[i])
  }

  lemma {:induction false} MinedIsRead(s: E.State, txBlocks: seq<seq<E.Tx>>)
    ensures ReadFrom(Mined(s, txBlocks), MinedLogs(s, txBlocks))
  {
    if |txBlocks| > 0 {
      var front := txBlocks[..|txBlocks| - 1];
      MinedIsRead(s, front);
      EmittedIsRead(After(s, PlaceAll(front)), PlaceBlock(txBlocks[|txBlocks| - 1], |txBlocks| - 1));
    }
  }

  lemma {:induction false} JoinedIsRead(blocks: seq<Block>, raw: seq<seq<RawLog>>)
    requires ReadFrom(blocks, raw)
    ensures Normalized(Joined(raw)) == Flat(blocks)
  {
    if |blocks| > 0 {
      var front, rawFront := blocks[..|blocks| - 1], raw[..|raw| - 1];
      JoinedIsRead(front, rawFront);
      NormalizedConcat(Joined(rawFront), raw[|raw| - 1]);
    }
  }

  // The raw logs of a range of blocks, in whatever order they come, read to the events of that range.
  lemma RepliesRead(s: E.State, txBlocks: seq<seq<E.Tx>>, lo: nat, hi: nat, reply: seq<RawLog>)
    requires lo <= hi < |txBlocks|
    ensures |Mined(s, txBlocks)| == |txBlocks| == |MinedLogs(s, txBlocks)|
    ensures multiset(reply) == multiset(Joined(MinedLogs(s, txBlocks)[lo..hi + 1]))
            ==> multiset(Normalized(reply)) == multiset(Range(Mined(s, txBlocks), lo, hi))
  {
    MinedLog(s, txBlocks);
    MinedIsRead(s, txBlocks);
    var blocks, raw := Mined(s, txBlocks)[lo..hi + 1], MinedLogs(s, txBlocks)[lo..hi + 1];
    JoinedIsRead(blocks, raw);
    if multiset(reply) == multiset(Joined(raw)) {
      NormalizedPermutes(reply, Joined(raw));
    }
  }

  // A node that has the chain up to head, and answers a range with its logs in any order.
  datatype Node = Node(head: nat, logs: (nat, nat) -> seq<RawLog>)

  ghost predicate Holds(node: Node, raw: seq<seq<RawLog>>) {
    && node.head < |raw|
    && forall lo: nat, hi: nat :: lo <= hi < |raw| ==> multiset(node.logs(lo, hi)) == multiset(Joined(raw[lo..hi + 1]))
  }

  // The reader over a node: its events are those that GetLogs reads from the node's reply.
  function ReaderOf(node: Node): ChainReader {
    ChainReader(node.head, (lo: nat, hi: nat) => Normalized(node.logs(lo, hi)))
  }

  // So reading a node that holds the escrow's chain serves the indexer its blocks of events.
  lemma NodeServes(s: E.State, txBlocks: seq<seq<E.Tx>>, node: Node)
    requires Holds(node, MinedLogs(s, txBlocks))
    ensures Serves(ReaderOf(node), Mined(s, txBlocks))
  {
    MinedLog(s, txBlocks);
    MinedIsRead(s, txBlocks);
    forall lo: nat, hi: nat | lo <= hi < |Mined(s, txBlocks)|
      ensures multiset(ReaderOf(node).logs(lo, hi)) == multiset(Range(Mined(s, txBlocks), lo, hi))
    {
      RepliesRead(s, txBlocks, lo, hi, node.logs(lo, hi));
    }
  }

  // ---------------------------------------------------------------- one transaction

  // What the reader sees of a change: an ask, a settle, or nothing.
  ghost function Seen(c: EscrowChange.Change, s: E.State, p: Placed): seq<EscrowEvent> {
    match c
    case Asked(q, ref) =>
      [EscrowEvent(EventName.QuestionAsked, KeyOf(ref), s.nextId, q.amount, q.deadline, p.block, p.index)]
    case Settled(id, outcome) =>
      [EscrowEvent(SettleName(outcome), KeyOf(E.RefAt(s, id)), id, 0, 0, p.block, p.index)]
    case _ => []
  }

  function SettleName(outcome: E.Status): EventName {
    match outcome
    case Answered => EventName.QuestionAnswered
    case Declined => EventName.QuestionDeclined
    case Cancelled => EventName.QuestionCancelled
    case _ => EventName.QuestionReclaimed
  }

  lemma NormalizedOne(raw: RawLog)
    ensures Normalized([raw]) == match NormalizeLog(raw) case Some(event) => [event] case None => []
  {
    assert [raw][..0] == [];
    assert Normalized([]) == [];
  }

  // Every settle outcome that occurs is one of the four.
  predicate IsOutcome(outcome: E.Status) {
    outcome != E.Open && outcome != E.NoStatus
  }

  lemma SettledLooks(s: E.State, id: nat, outcome: E.Status, p: Placed)
    requires IsOutcome(outcome)
    ensures NormalizeLog(RawOf(EscrowSafety.SettledEvent(s, id, outcome), p.block, p.index))
         == Some(EscrowEvent(SettleName(outcome), KeyOf(E.RefAt(s, id)), id, 0, 0, p.block, p.index))
  {
  }

  lemma NewEventIsRead(s: E.State, p: Placed, e: E.Event)
    requires E.Apply(s, p.tx).log == s.log + [e]
    ensures NewEvents(s, p)
         == match NormalizeLog(RawOf(e, p.block, p.index)) case Some(event) => [event] case None => []
  {
    assert (s.log + [e])[|s.log|..] == [e];
    assert RawLogs([e], p.block, p.index) == [RawOf(e, p.block, p.index)];
    NormalizedOne(RawOf(e, p.block, p.index));
  }

  lemma AskedLooks(id: nat, ref: E.Bytes32, q: E.Question, p: Placed)
    ensures var e := E.QuestionAsked(id, ref, q.asker, q.answerer, q.amount, q.deadline);
            NormalizeLog(RawOf(e, p.block, p.index))
            == Some(EscrowEvent(EventName.QuestionAsked, KeyOf(ref), id, q.amount, q.deadline, p.block, p.index))
  {
  }

  lemma OthersAreNotSeen(e: E.Event, p: Placed)
    requires e.Withdrawn? || e.ParameterUpdated?
    ensures NormalizeLog(RawOf(e, p.block, p.index)) == None
  {
  }

  // The one event that a change adds, if any, read off.
  lemma ChangeIsRead(s: E.State, p: Placed, c: EscrowChange.Change, e: E.Event)
    requires EscrowChange.Records(s, E.Apply(s, p.tx), c) && E.Apply(s, p.tx).log == s.log + [e]
    ensures Seen(c, s, p) == match NormalizeLog(RawOf(e, p.block, p.index)) case Some(event) => [event] case None => []
  {
    assert e == E.Apply(s, p.tx).log[|s.log|];
    match c
    case Asked(q, ref) => AskedLooks(s.nextId, ref, q, p);
    case Settled(id, outcome) => SettledLooks(s, id, outcome, p);
    case _ => OthersAreNotSeen(e, p);
  }

  lemma NothingIsRead(s: E.State, p: Placed)
    requires E.Apply(s, p.tx).log == s.log
    ensures NewEvents(s, p) == []
  {
    assert s.log[|s.log|..] == [];
    assert RawLogs([], p.block, p.index) == [];
  }

  // A change adds at most one event, and none only where there is nothing to see.
  lemma ChangeLogs(s: E.State, s': E.State, c: EscrowChange.Change)
    requires EscrowChange.Records(s, s', c)
    ensures s'.log == s.log ==> c.Unrecorded?
    ensures s'.log != s.log ==> |s'.log| == |s.log| + 1 && s'.log == s.log + [s'.log[|s.log|]]
  {
  }

  lemma NewEventsAreSeen(s: E.State, p: Placed, c: EscrowChange.Change)
    requires EscrowChange.Records(s, E.Apply(s, p.tx), c)
    ensures NewEvents(s, p) == Seen(c, s, p)
  {
    var post := E.Apply(s, p.tx);
    ChangeLogs(s, post, c);
    if post.log == s.log {
      NothingIsRead(s, p);
    } else {
      ChangeIsRead(s, p, c, post.log[|s.log|]);
      NewEventIsRead(s, p, post.log[|s.log|]);
    }
  }
}
