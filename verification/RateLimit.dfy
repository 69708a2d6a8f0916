// The fixed-window limiter over an expiring key/value store, against an ideal counter per
// (prefix, id, window).
module RateLimit {
  import opened Prelude
  import opened Decimal

  const TTL_SLACK_SECONDS := 5

  datatype Policy = Policy(limit: nat, windowSeconds: nat, prefix: string)

  datatype RateLimitResult = RateLimitResult(allowed: bool, limit: nat, count: nat, remaining: nat, resetSeconds: int)

  datatype Entry = Entry(text: string, expires: nat)

  type Kv = map<string, Entry>

  function Seconds(nowMillis: nat): nat {
    nowMillis / 1000
  }

  function Bucket(p: Policy, nowMillis: nat): nat
    requires p.windowSeconds > 0
  {
    Seconds(nowMillis) / p.windowSeconds
  }

  function Key(prefix: string, id: string, bucket: nat): string {
    "rl:" + prefix + ":" + id + ":" + Print(bucket)
  }

  // parseInt of the stored text, with an absent, malformed or non-positive count read as zero.
  function StoredCount(kv: Kv, key: string): nat {
    if key in kv && IsDigits(kv[key].text) then Value(kv[key].text) else 0
  }

  function Charge(kv: Kv, p: Policy, id: string, nowMillis: nat): (RateLimitResult, Kv)
    requires p.windowSeconds > 0
  {
    var nowSec := Seconds(nowMillis);
    var key := Key(p.prefix, id, Bucket(p, nowMillis));
    var count := StoredCount(kv, key) + 1;
    (RateLimitResult(count <= p.limit, p.limit, count, Max(0, p.limit - count),
                     p.windowSeconds - nowSec % p.windowSeconds),
     kv[key := Entry(Print(count), nowSec + p.windowSeconds + TTL_SLACK_SECONDS)])
  }

  // A call writes only its own counter, one more than was stored, under the key of its window, to live
  // five seconds longer than a window.
  lemma ChargeWrites(kv: Kv, p: Policy, id: string, nowMillis: nat)
    requires p.windowSeconds > 0
    ensures var kv', key := Charge(kv, p, id, nowMillis).1,
                            "rl:" + p.prefix + ":" + id + ":" + Print(nowMillis / 1000 / p.windowSeconds);
            && key in kv' && kv'[key].expires == nowMillis / 1000 + p.windowSeconds + 5
            && StoredCount(kv', key) == StoredCount(kv, key) + 1
            && kv'.Keys == kv.Keys + {key} && (forall k :: k in kv && k != key ==> kv'[k] == kv[k])
  {
    PrintIsShortest(StoredCount(kv, Key(p.prefix, id, Bucket(p, nowMillis))) + 1);
  }

  // What is left when the store drops those of some keys whose time to live is over.
  function Surviving(kv: Kv, dropped: set<string>, sec: nat): Kv {
    map k | k in kv && !(k in dropped && kv[k].expires <= sec) :: kv[k]
  }

  // The store as the limiter uses it: a read and a write per call.
  class KvStore {
    var entries: Kv

    constructor ()
      ensures entries == map[]
    {
      entries := map[];
    }

    method Get(key: string) returns (text: Option<string>)
      ensures text == if key in entries then Some(entries[key].text) else None
    {
      if key in entries {
        text := Some(entries[key].text);
      } else {
        text := None;
      }
    }

    method Put(key: string, text: string, expires: nat)
      modifies this
      ensures entries == old(entries)[key := Entry(text, expires)]
    {
      entries := entries[key := Entry(text, expires)];
    }

    // The store drops any of its expired entries, whenever it likes.
    method Expire(dropped: set<string>, sec: nat)
      modifies this
      ensures entries == Surviving(old(entries), dropped, sec)
    {
      entries := Surviving(entries, dropped, sec);
    }
  }

  class RateLimiter {
    const kv: KvStore
    const policy: Policy

    constructor (kv: KvStore, policy: Policy)
      ensures this.kv == kv && this.policy == policy
    {
      this.kv, this.policy := kv, policy;
    }

    method Consume(id: string, nowMillis: nat) returns (r: RateLimitResult)
      requires policy.windowSeconds > 0
      modifies kv
      ensures (r, kv.entries) == Charge(old(kv.entries), policy, id, nowMillis)
    {
      var nowSec := nowMillis / 1000;
      var bucket := nowSec / policy.windowSeconds;
      var key := "rl:" + policy.prefix + ":" + id + ":" + Print(bucket);
      var stored := kv.Get(key);
      var current := 0;
      if stored.Some? && IsDigits(stored.value) {
        current := Value(stored.value);
      }
      var count := current + 1;
      kv.Put(key, Print(count), nowSec + policy.windowSeconds + TTL_SLACK_SECONDS);
      r := RateLimitResult(count <= policy.limit, policy.limit, count, Max(0, policy.limit - count),
                           policy.windowSeconds - nowSec % policy.windowSeconds);
    }
  }

  // ---------------------------------------------------------------- keys never collide

  function FirstColon(s: string): (i: nat)
    ensures i <= |s| && (i < |s| ==> s[i] == ':')
    ensures forall j :: 0 <= j < i ==> s[j] != ':'
  {
    if |s| == 0 || s[0] == ':' then 0 else 1 + FirstColon(s[1..])
  }

  function AfterLastColon(s: string): (i: nat)
    ensures i <= |s| && (i > 0 ==> s[i - 1] == ':')
    ensures forall j :: i <= j < |s| ==> s[j] != ':'
  {
    if |s| == 0 || s[|s| - 1] == ':' then |s| else AfterLastColon(s[..|s| - 1])
  }

  lemma FirstField(a: string, s: string)
    requires ':' !in a
    ensures var x := a + ":" + s; FirstColon(x) == |a| && x[..|a|] == a && x[|a| + 1..] == s
  {
    assert (a + ":" + s)[|a|] == ':';
  }

  lemma LastField(s: string, a: string)
    requires ':' !in a
    ensures var x := s + ":" + a; AfterLastColon(x) == |s| + 1 && x[..|s|] == s && x[|s| + 1..] == a
  {
    assert (s + ":" + a)[|s|] == ':';
  }

  // A key's fields can be read back: the bucket after its last colon, the prefix up to the first
  // colon of what is left, and the id in between.
  lemma KeyFields(prefix: string, id: string, bucket: nat)
    requires ':' !in prefix
    ensures var key := Key(prefix, id, bucket);
            var end := AfterLastColon(key);
            && 4 <= end <= |key| && key[end..] == Print(bucket)
            && var rest := key[3..end - 1];
               FirstColon(rest) < |rest| && rest[..FirstColon(rest)] == prefix && rest[FirstColon(rest) + 1..] == id
  {
    PrintIsShortest(bucket);
    var front := "rl:" + prefix + ":" + id;
    assert Key(prefix, id, bucket) == front + ":" + Print(bucket);
    LastField(front, Print(bucket));
    assert front[3..] == prefix + ":" + id;
    FirstField(prefix, id);
    assert Key(prefix, id, bucket)[3..|front|] == front[3..];
  }

  // With colon-free prefixes, whatever the ids contain, distinct counters have distinct keys.
  lemma KeyInjective(p1: string, id1: string, b1: nat, p2: string, id2: string, b2: nat)
    requires ':' !in p1 && ':' !in p2
    requires Key(p1, id1, b1) == Key(p2, id2, b2)
    ensures p1 == p2 && id1 == id2 && b1 == b2
  {
    KeyFields(p1, id1, b1);
    KeyFields(p2, id2, b2);
    PrintInjective(b1, b2);
  }

  // ---------------------------------------------------------------- counters with a time to live

  // One charge of a counter: its key, when it happens, when its window ends, and when what it
  // writes expires. Before it, the store may have dropped any entries whose time to live is over.
  datatype Tick = Tick(key: string, sec: nat, end: nat, expires: nat, dropped: set<string>)

  function Age(kv: Kv, t: Tick): Kv {
    Surviving(kv, t.dropped, t.sec)
  }

  function Write(kv: Kv, t: Tick): Kv {
    Age(kv, t)[t.key := Entry(Print(StoredCount(Age(kv, t), t.key) + 1), t.expires)]
  }

  // A counter lives at least as long as its window, and time does not go back.
  ghost predicate Ticking(ticks: seq<Tick>) {
    && (forall i :: 0 <= i < |ticks| ==> ticks[i].sec < ticks[i].end <= ticks[i].expires)
    && (forall i, j :: 0 <= i < |ticks| && 0 <= j < |ticks| && ticks[i].key == ticks[j].key
                       ==> ticks[i].end == ticks[j].end)
    && (forall i, j :: 0 <= i <= j < |ticks| ==> ticks[i].sec <= ticks[j].sec)
  }

  ghost function StoreAfter(ticks: seq<Tick>): Kv {
    if |ticks| == 0 then map[] else Write(StoreAfter(ticks[..|ticks| - 1]), ticks[|ticks| - 1])
  }

  function TimesCharged(ticks: seq<Tick>, key: string): nat {
    if |ticks| == 0 then 0
    else TimesCharged(ticks[..|ticks| - 1], key) + (if ticks[|ticks| - 1].key == key then 1 else 0)
  }

  // Every stored counter is exact.
  ghost predicate Counted(kv: Kv, ticks: seq<Tick>) {
    forall k :: k in kv ==> IsDigits(kv[k].text) && Value(kv[k].text) == TimesCharged(ticks, k)
  }

  // A stored counter outlives its window; a missing one was never charged or has seen its window end.
  ghost predicate Outlives(kv: Kv, ticks: seq<Tick>, now: nat) {
    forall i :: 0 <= i < |ticks| ==>
      if ticks[i].key in kv then ticks[i].end <= kv[ticks[i].key].expires else ticks[i].end <= now
  }

  ghost predicate Exact(kv: Kv, ticks: seq<Tick>, now: nat) {
    Counted(kv, ticks) && Outlives(kv, ticks, now)
  }

  lemma {:induction false} NeverCharged(ticks: seq<Tick>, key: string)
    requires forall i :: 0 <= i < |ticks| ==> ticks[i].key != key
    ensures TimesCharged(ticks, key) == 0
  {
    if |ticks| > 0 {
      NeverCharged(ticks[..|ticks| - 1], key);
    }
  }

  lemma ReadsExactly(kv: Kv, ticks: seq<Tick>, t: Tick, now: nat)
    requires Ticking(ticks + [t]) && Exact(kv, ticks, now) && now <= t.sec
    ensures StoredCount(Age(kv, t), t.key) == TimesCharged(ticks, t.key)
  {
    var all := ticks + [t];
    if i :| 0 <= i < |ticks| && ticks[i].key == t.key {
      assert all[i].end == all[|ticks|].end;
    } else {
      NeverCharged(ticks, t.key);
    }
  }

  lemma WriteKeepsCounted(kv: Kv, ticks: seq<Tick>, t: Tick)
    requires Counted(kv, ticks) && StoredCount(Age(kv, t), t.key) == TimesCharged(ticks, t.key)
    ensures Counted(Write(kv, t), ticks + [t])
  {
    PrintIsShortest(StoredCount(Age(kv, t), t.key) + 1);
    assert (ticks + [t])[..|ticks|] == ticks;
  }

  lemma WriteOutlives(kv: Kv, ticks: seq<Tick>, t: Tick, now: nat)
    requires Ticking(ticks + [t]) && Outlives(kv, ticks, now) && now <= t.sec
    ensures Outlives(Write(kv, t), ticks + [t], t.sec)
  {
    var all, kv' := ticks + [t], Write(kv, t);
    forall i | 0 <= i < |all|
      ensures if all[i].key in kv' then all[i].end <= kv'[all[i].key].expires else all[i].end <= t.sec
    {
      assert all[i].key == t.key ==> all[i].end == all[|ticks|].end;
    }
  }

  lemma WriteKeepsExact(kv: Kv, ticks: seq<Tick>, t: Tick, now: nat)
    requires Ticking(ticks + [t]) && Exact(kv, ticks, now) && now <= t.sec
    ensures Exact(Write(kv, t), ticks + [t], t.sec)
  {
    ReadsExactly(kv, ticks, t, now);
    WriteKeepsCounted(kv, ticks, t);
    WriteOutlives(kv, ticks, t, now);
  }

  lemma TickingPrefix(ticks: seq<Tick>, n: nat)
    requires Ticking(ticks) && n <= |ticks|
    ensures Ticking(ticks[..n])
  {
  }

  // Whatever the store drops after expiry, each charge reads how often its counter was charged.
  lemma {:induction false} CountersAreExact(ticks: seq<Tick>)
    requires Ticking(ticks)
    ensures Exact(StoreAfter(ticks), ticks, if |ticks| == 0 then 0 else ticks[|ticks| - 1].sec)
  {
    if |ticks| > 0 {
      var front, t := ticks[..|ticks| - 1], ticks[|ticks| - 1];
      TickingPrefix(ticks, |ticks| - 1);
      CountersAreExact(front);
      assert front + [t] == ticks;
      WriteKeepsExact(StoreAfter(front), front, t, if |front| == 0 then 0 else front[|front| - 1].sec);
    }
  }

  // Each charge reads how often its counter was charged before.
  lemma ReadsCharges(ticks: seq<Tick>)
    requires Ticking(ticks) && |ticks| > 0
    ensures var front, t := ticks[..|ticks| - 1], ticks[|ticks| - 1];
            StoredCount(Age(StoreAfter(front), t), t.key) == TimesCharged(front, t.key)
  {
    var front, t := ticks[..|ticks| - 1], ticks[|ticks| - 1];
    TickingPrefix(ticks, |ticks| - 1);
    CountersAreExact(front);
    assert front + [t] == ticks;
    ReadsExactly(StoreAfter(front), front, t, if |front| == 0 then 0 else front[|front| - 1].sec);
  }

  // ---------------------------------------------------------------- runs of limiters

  // One call of some limiter on a shared store.
  datatype Call = Call(policy: Policy, id: string, nowMillis: nat, dropped: set<string>)

  // Every prefix is colon-free and belongs to one policy, and the clock does not go back.
  ghost predicate Legal(calls: seq<Call>) {
    && (forall i :: 0 <= i < |calls| ==> calls[i].policy.windowSeconds > 0 && ':' !in calls[i].policy.prefix)
    && (forall i, j :: 0 <= i < |calls| && 0 <= j < |calls| && calls[i].policy.prefix == calls[j].policy.prefix
                       ==> calls[i].policy == calls[j].policy)
    && (forall i, j :: 0 <= i <= j < |calls| ==> calls[i].nowMillis <= calls[j].nowMillis)
  }

  function WindowEnd(p: Policy, bucket: nat): nat {
    (bucket + 1) * p.windowSeconds
  }

  function AsTick(c: Call): Tick
    requires c.policy.windowSeconds > 0
  {
    var b := Bucket(c.policy, c.nowMillis);
    Tick(Key(c.policy.prefix, c.id, b), Seconds(c.nowMillis), WindowEnd(c.policy, b),
         Seconds(c.nowMillis) + c.policy.windowSeconds + TTL_SLACK_SECONDS, c.dropped)
  }

  ghost function AsTicks(calls: seq<Call>): (ticks: seq<Tick>)
    requires Legal(calls)
    ensures |ticks| == |calls|
  {
    seq(|calls|, i requires 0 <= i < |calls| => AsTick(calls[i]))
  }

  // A limiter call writes what its tick writes.
  lemma ChargeIsWrite(kv: Kv, c: Call)
    requires c.policy.windowSeconds > 0
    ensures Charge(Age(kv, AsTick(c)), c.policy, c.id, c.nowMillis).1 == Write(kv, AsTick(c))
  {
  }

  // One call on a store that may first have dropped expired entries.
  function Served(kv: Kv, c: Call): (RateLimitResult, Kv)
    requires c.policy.windowSeconds > 0
  {
    Charge(Surviving(kv, c.dropped, Seconds(c.nowMillis)), c.policy, c.id, c.nowMillis)
  }

  // What the calls of a run leave in the store.
  function LimiterStore(calls: seq<Call>): Kv
    requires forall i :: 0 <= i < |calls| ==> calls[i].policy.windowSeconds > 0
  {
    if |calls| == 0 then map[] else Served(LimiterStore(calls[..|calls| - 1]), calls[|calls| - 1]).1
  }

  // The answer to the last call of a run.
  function LastAnswer(calls: seq<Call>): RateLimitResult
    requires |calls| > 0 && forall i :: 0 <= i < |calls| ==> calls[i].policy.windowSeconds > 0
  {
    Served(LimiterStore(calls[..|calls| - 1]), calls[|calls| - 1]).0
  }

  // A run of limiter calls leaves what its ticks leave.
  lemma {:induction false} LimiterStoreIsTicked(calls: seq<Call>)
    requires Legal(calls)
    ensures LimiterStore(calls) == StoreAfter(AsTicks(calls))
  {
    if |calls| > 0 {
      LegalPrefix(calls);
      LimiterStoreIsTicked(calls[..|calls| - 1]);
      ChargeIsWrite(LimiterStore(calls[..|calls| - 1]), calls[|calls| - 1]);
    }
  }

  function Answers(calls: seq<Call>): seq<RateLimitResult>
    requires forall i :: 0 <= i < |calls| ==> calls[i].policy.windowSeconds > 0
  {
    if |calls| == 0 then [] else Answers(calls[..|calls| - 1]) + [LastAnswer(calls)]
  }

  lemma OneMoreCall(calls: seq<Call>, i: nat)
    requires i < |calls| && forall k :: 0 <= k < |calls| ==> calls[k].policy.windowSeconds > 0
    ensures Answers(calls[..i + 1]) == Answers(calls[..i]) + [Served(LimiterStore(calls[..i]), calls[i]).0]
    ensures LimiterStore(calls[..i + 1]) == Served(LimiterStore(calls[..i]), calls[i]).1
  {
    assert calls[..i + 1][..i] == calls[..i];
  }

  method ServeOne(kv: KvStore, c: Call) returns (answer: RateLimitResult)
    requires c.policy.windowSeconds > 0
    modifies kv
    ensures (answer, kv.entries) == Served(old(kv.entries), c)
  {
    var limiter := new RateLimiter(kv, c.policy);
    kv.Expire(c.dropped, Seconds(c.nowMillis));
    answer := limiter.Consume(c.id, c.nowMillis);
  }

  // Limiters on one store, called one after the other while it drops expired entries at will, give
  // the answers of the run.
  method ServeAll(calls: seq<Call>) returns (answers: seq<RateLimitResult>)
    requires forall i :: 0 <= i < |calls| ==> calls[i].policy.windowSeconds > 0
    ensures answers == Answers(calls)
  {
    var kv := new KvStore();
    answers := [];
    for i := 0 to |calls|
      invariant kv.entries == LimiterStore(calls[..i]) && answers == Answers(calls[..i])
    {
      OneMoreCall(calls, i);
      var answer := ServeOne(kv, calls[i]);
      answers := answers + [answer];
    }
    assert calls[..|calls|] == calls;
  }

  predicate Charges(c: Call, prefix: string, id: string, bucket: nat) {
    c.policy.windowSeconds > 0 && c.policy.prefix == prefix && c.id == id && Bucket(c.policy, c.nowMillis) == bucket
  }

  // The ideal counter: how often (prefix, id) was charged in a given window.
  function Ideal(calls: seq<Call>, prefix: string, id: string, bucket: nat): nat {
    if |calls| == 0 then 0
    else
      Ideal(calls[..|calls| - 1], prefix, id, bucket)
      + (if Charges(calls[|calls| - 1], prefix, id, bucket) then 1 else 0)
  }

  lemma InWindow(p: Policy, t: nat)
    requires p.windowSeconds > 0
    ensures t < WindowEnd(p, t / p.windowSeconds) <= t + p.windowSeconds
    ensures WindowEnd(p, t / p.windowSeconds) == t + p.windowSeconds - t % p.windowSeconds
  {
    var w := p.windowSeconds;
    assert t == w * (t / w) + t % w;
    assert WindowEnd(p, t / w) == (t / w) * w + w;
  }

  lemma CallKey(c1: Call, c2: Call)
    requires c1.policy.windowSeconds > 0 && c2.policy.windowSeconds > 0
    requires ':' !in c1.policy.prefix && ':' !in c2.policy.prefix
    ensures AsTick(c1).key == AsTick(c2).key
            <==> Charges(c1, c2.policy.prefix, c2.id, Bucket(c2.policy, c2.nowMillis))
  {
    if AsTick(c1).key == AsTick(c2).key {
      KeyInjective(c1.policy.prefix, c1.id, Bucket(c1.policy, c1.nowMillis),
                   c2.policy.prefix, c2.id, Bucket(c2.policy, c2.nowMillis));
    }
  }

  lemma LegalTicks(calls: seq<Call>)
    requires Legal(calls)
    ensures Ticking(AsTicks(calls))
  {
    var ticks := AsTicks(calls);
    forall i | 0 <= i < |ticks|
      ensures ticks[i].sec < ticks[i].end <= ticks[i].expires
    {
      InWindow(calls[i].policy, Seconds(calls[i].nowMillis));
    }
    forall i, j | 0 <= i < |ticks| && 0 <= j < |ticks| && ticks[i].key == ticks[j].key
      ensures ticks[i].end == ticks[j].end
    {
      CallKey(calls[i], calls[j]);
    }
  }

  lemma LegalPrefix(calls: seq<Call>)
    requires Legal(calls) && |calls| > 0
    ensures Legal(calls[..|calls| - 1])
    ensures AsTicks(calls)[..|calls| - 1] == AsTicks(calls[..|calls| - 1])
  {
  }

  lemma {:induction false} ChargesByKey(calls: seq<Call>, c: Call)
    requires Legal(calls) && c.policy.windowSeconds > 0 && ':' !in c.policy.prefix
    ensures TimesCharged(AsTicks(calls), AsTick(c).key)
         == Ideal(calls, c.policy.prefix, c.id, Bucket(c.policy, c.nowMillis))
  {
    if |calls| > 0 {
      LegalPrefix(calls);
      ChargesByKey(calls[..|calls| - 1], c);
      CallKey(calls[|calls| - 1], c);
    }
  }

  lemma LastRead(calls: seq<Call>)
    requires Legal(calls) && |calls| > 0
    ensures var c := calls[|calls| - 1];
            StoredCount(Age(StoreAfter(AsTicks(calls)[..|calls| - 1]), AsTick(c)), AsTick(c).key)
            == Ideal(calls[..|calls| - 1], c.policy.prefix, c.id, Bucket(c.policy, c.nowMillis))
  {
    var front, c, ticks := calls[..|calls| - 1], calls[|calls| - 1], AsTicks(calls);
    LegalTicks(calls);
    LegalPrefix(calls);
    ReadsCharges(ticks);
    ChargesByKey(front, c);
  }

  // The answer to the n-th call of a window: whether it is within the limit, how many are left, and
  // when the window ends.
  predicate Reports(r: RateLimitResult, p: Policy, nowMillis: nat, n: nat)
    requires p.windowSeconds > 0
  {
    && r.count == n && r.limit == p.limit
    && (r.allowed <==> n <= p.limit)
    && r.remaining == Max(0, p.limit - n)
    && Seconds(nowMillis) + r.resetSeconds == WindowEnd(p, Bucket(p, nowMillis))
  }

  // A count is read only from digits; anything else, or nothing, counts as none.
  lemma OnlyDigitsCount(kv: Kv, key: string)
    ensures (key !in kv || exists i :: 0 <= i < |kv[key].text| && !('0' <= kv[key].text[i] <= '9'))
            ==> StoredCount(kv, key) == 0
  {
  }

  // One call counts one more than the store held.
  lemma ChargeReports(kv: Kv, p: Policy, id: string, nowMillis: nat, n: nat)
    requires p.windowSeconds > 0 && n == StoredCount(kv, Key(p.prefix, id, Bucket(p, nowMillis))) + 1
    ensures Reports(Charge(kv, p, id, nowMillis).0, p, nowMillis, n)
  {
    InWindow(p, Seconds(nowMillis));
  }

  // A call finds exactly the earlier charges of its window in the store.
  lemma StoreCountsCharges(calls: seq<Call>)
    requires Legal(calls) && |calls| > 0
    ensures var c := calls[|calls| - 1];
            StoredCount(Surviving(LimiterStore(calls[..|calls| - 1]), c.dropped, Seconds(c.nowMillis)),
                        Key(c.policy.prefix, c.id, Bucket(c.policy, c.nowMillis)))
            == Ideal(calls[..|calls| - 1], c.policy.prefix, c.id, Bucket(c.policy, c.nowMillis))
  {
    LastRead(calls);
    LegalPrefix(calls);
    LimiterStoreIsTicked(calls[..|calls| - 1]);
  }

  // For sequential calls of any mix of limiters under a clock that does not go back, and a store
  // that drops entries at will once they have expired, every call is answered by the ideal counter
  // of its (prefix, id, window), and told when that window ends.
  lemma LimiterRefinesIdealCounter(calls: seq<Call>)
    requires Legal(calls) && |calls| > 0
    ensures var c := calls[|calls| - 1];
            Reports(LastAnswer(calls), c.policy, c.nowMillis,
                    Ideal(calls, c.policy.prefix, c.id, Bucket(c.policy, c.nowMillis)))
  {
    var front, c := calls[..|calls| - 1], calls[|calls| - 1];
    var n := Ideal(calls, c.policy.prefix, c.id, Bucket(c.policy, c.nowMillis));
    StoreCountsCharges(calls);
    ChargeReports(Surviving(LimiterStore(front), c.dropped, Seconds(c.nowMillis)), c.policy, c.id, c.nowMillis, n);
  }

  // ---------------------------------------------------------------- at most 2 * limit in any span

  // Calls of (p, id) at milliseconds in [from, to) that were allowed.
  ghost function Admitted(calls: seq<Call>, p: Policy, id: string, from: int, to: int): nat
    requires Legal(calls)
  {
    if |calls| == 0 then 0
    else
      LegalPrefix(calls);
      var c := calls[|calls| - 1];
      Admitted(calls[..|calls| - 1], p, id, from, to)
      + (if c.policy == p && c.id == id && from <= c.nowMillis < to && LastAnswer(calls).allowed then 1 else 0)
  }

  function WindowMillis(p: Policy): nat {
    1000 * p.windowSeconds
  }

  // Within one window, as many calls are admitted as were charged, up to the limit.
  lemma {:induction false} AdmittedInWindow(calls: seq<Call>, p: Policy, id: string, b: nat)
    requires Legal(calls) && p.windowSeconds > 0
    requires forall i :: 0 <= i < |calls| && calls[i].policy.prefix == p.prefix ==> calls[i].policy == p
    ensures Admitted(calls, p, id, b * WindowMillis(p), (b + 1) * WindowMillis(p))
         == Min(p.limit, Ideal(calls, p.prefix, id, b))
  {
    if |calls| > 0 {
      LegalPrefix(calls);
      AdmittedInWindow(calls[..|calls| - 1], p, id, b);
      LimiterRefinesIdealCounter(calls);
      WindowOfTime(p, calls[|calls| - 1].nowMillis, b);
    }
  }

  lemma QuotientIs(t: nat, w: nat, b: nat)
    requires w > 0
    ensures t / w == b <==> b * w <= t < (b + 1) * w
  {
    assert t == w * (t / w) + t % w;
    if t / w < b {
      assert w * (t / w + 1) <= w * b;
    } else if b < t / w {
      assert w * (b + 1) <= w * (t / w);
    }
  }

  // Rounding down to seconds first does not move a moment to another window.
  lemma WindowOfTime(p: Policy, millis: nat, b: nat)
    requires p.windowSeconds > 0
    ensures Bucket(p, millis) == b <==> b * WindowMillis(p) <= millis < (b + 1) * WindowMillis(p)
  {
    QuotientIs(Seconds(millis), p.windowSeconds, b);
    Thousandfold(b, p.windowSeconds);
    Thousandfold(b + 1, p.windowSeconds);
  }

  lemma Thousandfold(b: nat, w: nat)
    ensures b * (1000 * w) == 1000 * (b * w)
  {
  }

  lemma {:induction false} SpanSplits(calls: seq<Call>, p: Policy, id: string, from: int, mid: int, to: int,
                                     lo: int, hi: int)
    requires Legal(calls) && lo <= from && to <= hi
    ensures Admitted(calls, p, id, from, to) <= Admitted(calls, p, id, lo, mid) + Admitted(calls, p, id, mid, hi)
  {
    if |calls| > 0 {
      LegalPrefix(calls);
      SpanSplits(calls[..|calls| - 1], p, id, from, mid, to, lo, hi);
    }
  }

  // Two adjacent windows cover a span of their length that starts in the first.
  lemma TwoWindows(p: Policy, from: nat) returns (b: nat, lo: nat, mid: nat, hi: nat)
    requires p.windowSeconds > 0
    ensures lo == b * WindowMillis(p) && mid == (b + 1) * WindowMillis(p) && hi == (b + 1 + 1) * WindowMillis(p)
    ensures lo <= from && from + WindowMillis(p) <= hi
  {
    b, lo, mid, hi := TwoSpans(from, WindowMillis(p));
  }

  lemma TwoSpans(from: nat, w: nat) returns (b: nat, lo: nat, mid: nat, hi: nat)
    requires w > 0
    ensures lo == b * w && mid == (b + 1) * w && hi == (b + 1 + 1) * w
    ensures lo <= from && from + w <= hi
  {
    b := from / w;
    QuotientIs(from, w, b);
    OneMoreTimes(b + 1, w);
    lo, mid, hi := b * w, (b + 1) * w, (b + 1 + 1) * w;
  }

  lemma OneMoreTimes(n: nat, w: nat)
    ensures (n + 1) * w == n * w + w
  {
  }

  lemma AtMostLimitInWindow(calls: seq<Call>, p: Policy, id: string, b: nat, lo: nat, hi: nat)
    requires Legal(calls) && p.windowSeconds > 0
    requires forall i :: 0 <= i < |calls| && calls[i].policy.prefix == p.prefix ==> calls[i].policy == p
    requires lo == b * WindowMillis(p) && hi == (b + 1) * WindowMillis(p)
    ensures Admitted(calls, p, id, lo, hi) <= p.limit
  {
    AdmittedInWindow(calls, p, id, b);
  }

  // Any span of one window's length, from whatever millisecond, admits at most twice the limit.
  lemma AtMostTwiceTheLimit(calls: seq<Call>, p: Policy, id: string, from: nat)
    requires Legal(calls) && p.windowSeconds > 0
    requires forall i :: 0 <= i < |calls| && calls[i].policy.prefix == p.prefix ==> calls[i].policy == p
    ensures Admitted(calls, p, id, from, from + WindowMillis(p)) <= 2 * p.limit
  {
    var b, lo, mid, hi := TwoWindows(p, from);
    AtMostLimitInWindow(calls, p, id, b, lo, mid);
    AtMostLimitInWindow(calls, p, id, b + 1, mid, hi);
    SpanSplits(calls, p, id, from, mid, from + WindowMillis(p), lo, hi);
  }
}
