// The chain as the indexer sees it: a sequence of blocks of events, numbered from zero.
module Chain {
  import opened Events

  type Block = seq<EscrowEvent>

  function Flat(blocks: seq<Block>): seq<EscrowEvent> {
    if |blocks| == 0 then [] else Flat(blocks[..|blocks| - 1]) + blocks[|blocks| - 1]
  }

  // The events of blocks lo to hi inclusive, in order.
  function Range(blocks: seq<Block>, lo: nat, hi: nat): seq<EscrowEvent>
    requires lo <= hi + 1 <= |blocks|
  {
    Flat(blocks[lo..hi + 1])
  }

  lemma {:induction false} FlatConcat(a: seq<Block>, b: seq<Block>)
    ensures Flat(a + b) == Flat(a) + Flat(b)
  {
    if |b| == 0 {
      assert a + b == a;
    } else {
      FlatConcat(a, b[..|b| - 1]);
      assert (a + b)[..|a + b| - 1] == a + b[..|b| - 1];
    }
  }

  // Adjacent ranges of blocks join up.
  lemma RangeJoin(blocks: seq<Block>, lo: nat, mid: nat, hi: nat)
    requires lo <= mid <= hi + 1 <= |blocks|
    ensures lo <= mid && Flat(blocks[lo..mid]) + Flat(blocks[mid..hi + 1]) == Range(blocks, lo, hi)
  {
    assert blocks[lo..mid] + blocks[mid..hi + 1] == blocks[lo..hi + 1];
    FlatConcat(blocks[lo..mid], blocks[mid..hi + 1]);
  }

  // The events of the first n blocks are a prefix of all events.
  lemma PrefixOfFlat(blocks: seq<Block>, n: nat)
    requires n <= |blocks|
    ensures Flat(blocks[..n]) <= Flat(blocks)
  {
    assert blocks[..n] + blocks[n..] == blocks;
    FlatConcat(blocks[..n], blocks[n..]);
  }

  // A range of blocks is the stretch of the log between two prefixes.
  lemma RangeIsStretch(blocks: seq<Block>, lo: nat, hi: nat)
    requires lo <= hi + 1 <= |blocks|
    ensures Flat(blocks[..hi + 1]) == Flat(blocks[..lo]) + Range(blocks, lo, hi)
  {
    assert blocks[..lo] + blocks[lo..hi + 1] == blocks[..hi + 1];
    FlatConcat(blocks[..lo], blocks[lo..hi + 1]);
  }

  lemma MiddleSorted(before: seq<EscrowEvent>, middle: seq<EscrowEvent>, all: seq<EscrowEvent>)
    requires before + middle <= all && StrictlySorted(all)
    ensures StrictlySorted(middle)
  {
    var k := |before|;
    assert forall i :: 0 <= i < |middle| ==> middle[i] == (before + middle)[k + i];
    assert forall i :: 0 <= i < |middle| ==> middle[i] == all[k + i];
  }

  lemma RangeSorted(blocks: seq<Block>, lo: nat, hi: nat)
    requires lo <= hi + 1 <= |blocks| && StrictlySorted(Flat(blocks))
    ensures StrictlySorted(Range(blocks, lo, hi))
  {
    RangeIsStretch(blocks, lo, hi);
    PrefixOfFlat(blocks, hi + 1);
    MiddleSorted(Flat(blocks[..lo]), Range(blocks, lo, hi), Flat(blocks));
  }

  // The read surface the indexer depends on: a head, and the events of a range in any order.
  datatype ChainReader = ChainReader(head: nat, logs: (nat, nat) -> seq<EscrowEvent>)

  ghost predicate Serves(reader: ChainReader, blocks: seq<Block>) {
    && reader.head < |blocks|
    && forall lo: nat, hi: nat :: lo <= hi < |blocks|
         ==> multiset(reader.logs(lo, hi)) == multiset(Range(blocks, lo, hi))
  }

  lemma SortedReply(reader: ChainReader, blocks: seq<Block>, lo: nat, hi: nat)
    requires Serves(reader, blocks) && StrictlySorted(Flat(blocks)) && lo <= hi < |blocks|
    ensures SortEvents(reader.logs(lo, hi)) == Range(blocks, lo, hi)
  {
    RangeSorted(blocks, lo, hi);
    SortIsCanonical(reader.logs(lo, hi), Range(blocks, lo, hi));
  }
}
