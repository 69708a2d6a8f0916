// Normalised escrow events, their order, and the raw logs they come from.
module Events {
  import opened Prelude
  import Ref

  type Uuid = Ref.Uuid

  datatype QuestionStatus = PendingPayment | Open | Answered | Declined | Cancelled | Reclaimed

  datatype EventName = QuestionAsked | QuestionAnswered | QuestionDeclined | QuestionCancelled | QuestionReclaimed

  // key is the row the event's ref answers to, if any. amount and deadline are read only on asks.
  datatype EscrowEvent = EscrowEvent(name: EventName, key: Option<Uuid>, onchainId: nat, amount: nat, deadline: nat,
                                     blockNumber: nat, logIndex: nat)

  const CONTRACT_STATUS_TO_QUESTION_STATUS: seq<Option<QuestionStatus>> :=
    [None, Some(Open), Some(Answered), Some(Declined), Some(Cancelled), Some(Reclaimed)]

  function StatusIndex(name: EventName): nat {
    match name
    case QuestionAsked => 1
    case QuestionAnswered => 2
    case QuestionDeclined => 3
    case QuestionCancelled => 4
    case QuestionReclaimed => 5
  }

  // The table entry of an event is never the empty one, and is the status that the event's name tells.
  function StatusForEvent(name: EventName): (status: QuestionStatus)
    ensures status != PendingPayment
    ensures status == Open <==> name == QuestionAsked
    ensures status == Answered <==> name == QuestionAnswered
    ensures status == Declined <==> name == QuestionDeclined
    ensures status == Cancelled <==> name == QuestionCancelled
    ensures status == Reclaimed <==> name == QuestionReclaimed
  {
    CONTRACT_STATUS_TO_QUESTION_STATUS[StatusIndex(name)].value
  }

  // ---------------------------------------------------------------- normalisation

  // A decoded log as the RPC client hands it over; anything may be missing.
  datatype RawLog = RawLog(eventName: Option<string>, ref: Option<string>, id: Option<nat>,
                           asker: Option<nat>, answerer: Option<nat>, amount: Option<nat>, deadline: Option<nat>,
                           blockNumber: Option<nat>, logIndex: Option<nat>, transactionHash: Option<nat>)

  function NameOf(s: string): Option<EventName> {
    if s == "QuestionAsked" then Some(QuestionAsked)
    else if s == "QuestionAnswered" then Some(QuestionAnswered)
    else if s == "QuestionDeclined" then Some(QuestionDeclined)
    else if s == "QuestionCancelled" then Some(QuestionCancelled)
    else if s == "QuestionReclaimed" then Some(QuestionReclaimed)
    else None
  }

  // An event, or nothing for other events, unmined logs and incomplete arguments.
  function NormalizeLog(raw: RawLog): Option<EscrowEvent> {
    if raw.eventName.None? || NameOf(raw.eventName.value).None? then None
    else if raw.blockNumber.None? || raw.logIndex.None? || raw.transactionHash.None? then None
    else if raw.ref.None? || raw.id.None? then None
    else
      var name := NameOf(raw.eventName.value).value;
      var key := Ref.TryRefToUuid(raw.ref.value);
      if name != QuestionAsked then
        Some(EscrowEvent(name, key, raw.id.value, 0, 0, raw.blockNumber.value, raw.logIndex.value))
      else if raw.asker.None? || raw.answerer.None? || raw.amount.None? || raw.deadline.None? then None
      else
        Some(EscrowEvent(name, key, raw.id.value, raw.amount.value, raw.deadline.value,
                         raw.blockNumber.value, raw.logIndex.value))
  }

  function Normalized(logs: seq<RawLog>): seq<EscrowEvent> {
    if |logs| == 0 then []
    else
      var front := Normalized(logs[..|logs| - 1]);
      match NormalizeLog(logs[|logs| - 1])
      case Some(event) => front + [event]
      case None => front
  }

  // A log is an event exactly when it is mined, is one of the five, and has the arguments its kind needs.
  predicate IsEventLog(raw: RawLog) {
    && raw.eventName.Some? && raw.blockNumber.Some? && raw.logIndex.Some? && raw.transactionHash.Some?
    && raw.ref.Some? && raw.id.Some?
    && (raw.eventName.value == "QuestionAsked" ==>
          raw.asker.Some? && raw.answerer.Some? && raw.amount.Some? && raw.deadline.Some?)
    && raw.eventName.value in ["QuestionAsked", "QuestionAnswered", "QuestionDeclined", "QuestionCancelled",
                               "QuestionReclaimed"]
  }

  // Then it carries the log's id, place and row, and on an ask its terms.
  lemma NormalizedFields(raw: RawLog)
    ensures NormalizeLog(raw).Some? <==> IsEventLog(raw)
    ensures NormalizeLog(raw).Some? ==>
              var e := NormalizeLog(raw).value;
              && e.onchainId == raw.id.value && e.key == Ref.TryRefToUuid(raw.ref.value)
              && e.blockNumber == raw.blockNumber.value && e.logIndex == raw.logIndex.value
              && (e.name == QuestionAsked <==> raw.eventName.value == "QuestionAsked")
              && (e.name == QuestionAnswered <==> raw.eventName.value == "QuestionAnswered")
              && (e.name == QuestionDeclined <==> raw.eventName.value == "QuestionDeclined")
              && (e.name == QuestionCancelled <==> raw.eventName.value == "QuestionCancelled")
              && (e.name == QuestionReclaimed <==> raw.eventName.value == "QuestionReclaimed")
              && (e.name == QuestionAsked ==> e.amount == raw.amount.value && e.deadline == raw.deadline.value)
  {
  }

  // events are those of the logs, each from its own log, in order, and none is missing; ks are their places.
  ghost predicate Reads(logs: seq<RawLog>, events: seq<EscrowEvent>, ks: seq<nat>) {
    && |ks| == |events|
    && (forall i, j :: 0 <= i < j < |ks| ==> ks[i] < ks[j])
    && (forall i :: 0 <= i < |ks| ==> ks[i] < |logs| && NormalizeLog(logs[ks[i]]) == Some(events[i]))
    && (forall k :: 0 <= k < |logs| && NormalizeLog(logs[k]).Some? ==> k in ks)
  }

  lemma ReadsNext(logs: seq<RawLog>, i: nat, events: seq<EscrowEvent>, ks: seq<nat>)
    requires i < |logs| && Reads(logs[..i], events, ks)
    ensures match NormalizeLog(logs[i])
            case Some(event) => Reads(logs[..i + 1], events + [event], ks + [i])
            case None => Reads(logs[..i + 1], events, ks)
  {
  }

  // The reader's loop over the logs of a range.
  method GetLogs(logs: seq<RawLog>) returns (events: seq<EscrowEvent>, ghost ks: seq<nat>)
    ensures events == Normalized(logs) && Reads(logs, events, ks)
  {
    events, ks := [], [];
    for i := 0 to |logs|
      invariant events == Normalized(logs[..i])
      invariant Reads(logs[..i], events, ks)
    {
      var event := NormalizeLog(logs[i]);
      assert logs[..i + 1][..i] == logs[..i];
      ReadsNext(logs, i, events, ks);
      if event.Some? {
        events, ks := events + [event.value], ks + [i];
      }
    }
    assert logs[..|logs|] == logs;
  }

  lemma {:induction false} NormalizedConcat(a: seq<RawLog>, b: seq<RawLog>)
    ensures Normalized(a + b) == Normalized(a) + Normalized(b)
  {
    if |b| == 0 {
      assert a + b == a;
    } else {
      NormalizedConcat(a, b[..|b| - 1]);
      assert (a + b)[..|a + b| - 1] == a + b[..|b| - 1];
    }
  }

  lemma TakeOut<T>(xs: seq<T>, i: nat) returns (rest: seq<T>)
    requires i < |xs|
    ensures rest == xs[..i] + xs[i + 1..] && xs == xs[..i] + [xs[i]] + xs[i + 1..]
    ensures multiset(rest) == multiset(xs) - multiset{xs[i]} && |rest| < |xs|
  {
    rest := xs[..i] + xs[i + 1..];
    assert xs == xs[..i] + [xs[i]] + xs[i + 1..];
  }

  lemma ReadApart(a: seq<RawLog>, raw: RawLog, b: seq<RawLog>)
    ensures multiset(Normalized(a + [raw] + b)) == multiset(Normalized(a + b)) + multiset(Normalized([raw]))
  {
    NormalizedConcat(a + [raw], b);
    NormalizedConcat(a, [raw]);
    NormalizedConcat(a, b);
  }

  // The order of the logs decides only the order of the events.
  lemma {:induction false} NormalizedPermutes(a: seq<RawLog>, b: seq<RawLog>)
    requires multiset(a) == multiset(b)
    ensures multiset(Normalized(a)) == multiset(Normalized(b))
    decreases |a|
  {
    if |a| == 0 {
      assert |multiset(b)| == 0;
    } else {
      var i := PlaceOf(a[0], b, a);
      var a' := TakeOut(a, 0);
      var b' := TakeOut(b, i);
      NormalizedPermutes(a', b');
      ReadApart(a[..0], a[0], a[1..]);
      ReadApart(b[..i], b[i], b[i + 1..]);
    }
  }

  lemma PlaceOf<T>(x: T, xs: seq<T>, ys: seq<T>) returns (i: nat)
    requires x in ys && multiset(xs) == multiset(ys)
    ensures i < |xs| && xs[i] == x
  {
    assert x in multiset(ys);
    i :| 0 <= i < |xs| && xs[i] == x;
  }

  // The latest block safe to index: the head less the confirmations, not below zero.
  function FinalizedHead(head: nat, confirmations: nat): (final: nat)
    ensures final > 0 ==> final + confirmations == head
    ensures final == 0 <==> head <= confirmations
  {
    if head > confirmations then head - confirmations else 0
  }

  // ---------------------------------------------------------------- order

  // Negative, zero or positive as a comes before, with or after b.
  function ByBlockThenLog(a: EscrowEvent, b: EscrowEvent): int {
    if a.blockNumber != b.blockNumber then (if a.blockNumber < b.blockNumber then -1 else 1)
    else a.logIndex - b.logIndex
  }

  predicate NotAfter(a: EscrowEvent, b: EscrowEvent) {
    ByBlockThenLog(a, b) <= 0
  }

  predicate Before(a: EscrowEvent, b: EscrowEvent) {
    ByBlockThenLog(a, b) < 0
  }

  // By block, and within a block by log index.
  lemma OrderIsByPlace(a: EscrowEvent, b: EscrowEvent)
    ensures Before(a, b)
            <==> a.blockNumber < b.blockNumber || (a.blockNumber == b.blockNumber && a.logIndex < b.logIndex)
    ensures NotAfter(a, b) <==> !Before(b, a)
  {
  }

  predicate Sorted(events: seq<EscrowEvent>) {
    forall i, j :: 0 <= i < j < |events| ==> NotAfter(events[i], events[j])
  }

  predicate StrictlySorted(events: seq<EscrowEvent>) {
    forall i, j :: 0 <= i < j < |events| ==> Before(events[i], events[j])
  }

  // Where an event goes in a sorted list: after everything it is not before.
  function Place(event: EscrowEvent, sorted: seq<EscrowEvent>): (k: nat)
    requires Sorted(sorted)
    ensures k <= |sorted|
    ensures forall i :: 0 <= i < k ==> NotAfter(sorted[i], event)
    ensures forall i :: k <= i < |sorted| ==> Before(event, sorted[i])
  {
    if |sorted| == 0 || NotAfter(sorted[|sorted| - 1], event) then |sorted|
    else Place(event, sorted[..|sorted| - 1])
  }

  function Insert(event: EscrowEvent, sorted: seq<EscrowEvent>): (r: seq<EscrowEvent>)
    requires Sorted(sorted)
    ensures Sorted(r) && multiset(r) == multiset(sorted) + multiset{event}
  {
    var k := Place(event, sorted);
    assert sorted == sorted[..k] + sorted[k..];
    sorted[..k] + [event] + sorted[k..]
  }

  // sort(byBlockThenLog)
  function SortEvents(events: seq<EscrowEvent>): (r: seq<EscrowEvent>)
    ensures Sorted(r) && multiset(r) == multiset(events)
  {
    if |events| == 0 then []
    else
      assert events == events[..|events| - 1] + [events[|events| - 1]];
      Insert(events[|events| - 1], SortEvents(events[..|events| - 1]))
  }

  lemma SameFirst(a: seq<EscrowEvent>, b: seq<EscrowEvent>)
    requires Sorted(a) && StrictlySorted(b) && multiset(a) == multiset(b) && |a| > 0
    ensures |b| > 0 && a[0] == b[0]
  {
    assert a[0] in multiset(b);
    assert b[0] in multiset(a);
    var i :| 0 <= i < |b| && b[i] == a[0];
    var j :| 0 <= j < |a| && a[j] == b[0];
    assert j > 0 ==> NotAfter(a[0], a[j]);
    assert i > 0 ==> Before(b[0], b[i]);
  }

  lemma {:induction false} SortedUnique(a: seq<EscrowEvent>, b: seq<EscrowEvent>)
    requires Sorted(a) && StrictlySorted(b) && multiset(a) == multiset(b)
    ensures a == b
    decreases |a|
  {
    if |a| > 0 {
      SameFirst(a, b);
      assert a == [a[0]] + a[1..] && b == [b[0]] + b[1..];
      assert multiset(a[1..]) == multiset(a) - multiset{a[0]};
      assert multiset(b[1..]) == multiset(b) - multiset{b[0]};
      SortedUnique(a[1..], b[1..]);
    } else {
      assert |multiset(a)| == |multiset(b)|;
    }
  }

  // Whatever order a reply comes in, sorting it gives the canonical order of its events.
  lemma SortIsCanonical(reply: seq<EscrowEvent>, canonical: seq<EscrowEvent>)
    requires StrictlySorted(canonical) && multiset(reply) == multiset(canonical)
    ensures SortEvents(reply) == canonical
  {
    SortedUnique(SortEvents(reply), canonical);
  }
}
