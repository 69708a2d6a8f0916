// The money columns of one row as a fold over events: its closed form on arbitrary event lists,
// and exactly when replaying an event changes nothing.
module MoneyFold {
  import opened Prelude
  import opened Events

  datatype Money = Money(status: QuestionStatus, onchainId: Option<nat>, amount: Option<nat>, deadline: Option<nat>)

  const PENDING := Money(PendingPayment, None, None, None)

  predicate IsAsk(e: EscrowEvent) {
    e.name == QuestionAsked
  }

  // The status the guarded update of an event requires.
  predicate Fires(m: Money, e: EscrowEvent) {
    if IsAsk(e) then m.status == PendingPayment else m.status == Open
  }

  function ApplyMoney(m: Money, e: EscrowEvent): Money {
    if !Fires(m, e) then m
    else if IsAsk(e) then Money(Open, Some(e.onchainId), Some(e.amount), Some(e.deadline))
    else m.(status := StatusForEvent(e.name))
  }

  // The row of id u after the events of log.
  function Fold(m: Money, u: Uuid, log: seq<EscrowEvent>): Money {
    if |log| == 0 then m
    else
      var e, before := log[|log| - 1], Fold(m, u, log[..|log| - 1]);
      if e.key == Some(u) then ApplyMoney(before, e) else before
  }

  function Rank(status: QuestionStatus): nat {
    match status
    case PendingPayment => 0
    case Open => 1
    case _ => 2
  }

  lemma FoldAppend(m: Money, u: Uuid, log: seq<EscrowEvent>, e: EscrowEvent)
    ensures Fold(m, u, log + [e]) == if e.key == Some(u) then ApplyMoney(Fold(m, u, log), e) else Fold(m, u, log)
  {
    assert (log + [e])[..|log|] == log;
  }

  lemma {:induction false} FoldConcat(m: Money, u: Uuid, a: seq<EscrowEvent>, b: seq<EscrowEvent>)
    ensures Fold(m, u, a + b) == Fold(Fold(m, u, a), u, b)
  {
    if |b| == 0 {
      assert a + b == a;
    } else {
      FoldConcat(m, u, a, b[..|b| - 1]);
      assert (a + b)[..|a + b| - 1] == a + b[..|b| - 1];
    }
  }

  // A transition raises the rank by one; nothing else changes it.
  lemma ApplyRank(m: Money, e: EscrowEvent)
    ensures Rank(ApplyMoney(m, e).status) == Rank(m.status) + if Fires(m, e) then 1 else 0
    ensures m.status != PendingPayment && m.status != Open ==> ApplyMoney(m, e) == m
  {
  }

  lemma {:induction false} RankNeverDrops(m: Money, u: Uuid, log: seq<EscrowEvent>)
    ensures Rank(Fold(m, u, log).status) >= Rank(m.status)
    ensures Rank(m.status) == 2 ==> Fold(m, u, log) == m
    ensures Rank(m.status) >= 1 ==> var f := Fold(m, u, log);
                                    f.onchainId == m.onchainId && f.amount == m.amount && f.deadline == m.deadline
  {
    if |log| > 0 {
      RankNeverDrops(m, u, log[..|log| - 1]);
      ApplyRank(Fold(m, u, log[..|log| - 1]), log[|log| - 1]);
    }
  }

  // ---------------------------------------------------------------- closed form

  predicate IsAskFor(e: EscrowEvent, u: Uuid) {
    e.key == Some(u) && IsAsk(e)
  }

  predicate IsSettleFor(e: EscrowEvent, u: Uuid) {
    e.key == Some(u) && !IsAsk(e)
  }

  // An ask under the ref of u is among these events.
  ghost predicate Asked(log: seq<EscrowEvent>, u: Uuid) {
    exists k :: 0 <= k < |log| && IsAskFor(log[k], u)
  }

  // Position of the first ask for u, or the length of the log.
  function FirstAsk(u: Uuid, log: seq<EscrowEvent>): (i: nat)
    ensures i <= |log| && (i < |log| ==> IsAskFor(log[i], u))
    ensures forall j :: 0 <= j < i ==> !IsAskFor(log[j], u)
  {
    if |log| == 0 then 0
    else
      var i := FirstAsk(u, log[..|log| - 1]);
      if i < |log| - 1 || IsAskFor(log[|log| - 1], u) then i else |log|
  }

  // Position of the first settle for u from a given position on, or the length of the log.
  function FirstSettle(u: Uuid, log: seq<EscrowEvent>, from: nat): (i: nat)
    requires from <= |log|
    ensures from <= i <= |log| && (i < |log| ==> IsSettleFor(log[i], u))
    ensures forall j :: from <= j < i ==> !IsSettleFor(log[j], u)
  {
    if |log| == from then from
    else
      var i := FirstSettle(u, log[..|log| - 1], from);
      if i < |log| - 1 || IsSettleFor(log[|log| - 1], u) then i else |log|
  }

  // Terms from the first ask, status from the first settle after it; everything else is inert.
  function ClosedForm(u: Uuid, log: seq<EscrowEvent>): Money {
    var a := FirstAsk(u, log);
    if a == |log| then PENDING
    else
      var z := FirstSettle(u, log, a + 1);
      Money(if z == |log| then Open else StatusForEvent(log[z].name),
            Some(log[a].onchainId), Some(log[a].amount), Some(log[a].deadline))
  }

  lemma {:induction false} FoldClosedForm(u: Uuid, log: seq<EscrowEvent>)
    ensures Fold(PENDING, u, log) == ClosedForm(u, log)
  {
    if |log| > 0 {
      FoldClosedForm(u, log[..|log| - 1]);
    }
  }

  // ---------------------------------------------------------------- replay

  // Re-applying any event of any prefix to the row that prefix leads to changes nothing.
  ghost predicate ReplayIsInert(u: Uuid, log: seq<EscrowEvent>) {
    forall i, p :: 0 <= i < p <= |log| && log[i].key == Some(u)
                   ==> ApplyMoney(Fold(PENDING, u, log[..p]), log[i]) == Fold(PENDING, u, log[..p])
  }

  // No settle of u comes before its first ask, if there is one.
  ghost predicate AskComesFirst(u: Uuid, log: seq<EscrowEvent>) {
    forall i, a :: 0 <= i < a < |log| && IsSettleFor(log[i], u) && IsAskFor(log[a], u)
                   ==> exists k :: 0 <= k < i && IsAskFor(log[k], u)
  }

  lemma AskLeavesPending(u: Uuid, log: seq<EscrowEvent>, i: nat)
    requires i < |log| && IsAskFor(log[i], u)
    ensures Fold(PENDING, u, log).status != PendingPayment
  {
    FoldClosedForm(u, log);
  }

  lemma SettleAfterAskIsFinal(u: Uuid, log: seq<EscrowEvent>, k: nat, i: nat)
    requires k < i < |log| && IsAskFor(log[k], u) && IsSettleFor(log[i], u)
    ensures Fold(PENDING, u, log).status != Open
  {
    FoldClosedForm(u, log);
    assert FirstSettle(u, log, FirstAsk(u, log) + 1) <= i;
  }

  lemma WithoutAskPending(u: Uuid, log: seq<EscrowEvent>)
    requires forall i :: 0 <= i < |log| ==> !IsAskFor(log[i], u)
    ensures Fold(PENDING, u, log) == PENDING
  {
    FoldClosedForm(u, log);
  }

  lemma ReplayOne(u: Uuid, log: seq<EscrowEvent>, i: nat, p: nat)
    requires AskComesFirst(u, log) && i < p <= |log| && log[i].key == Some(u)
    ensures ApplyMoney(Fold(PENDING, u, log[..p]), log[i]) == Fold(PENDING, u, log[..p])
  {
    var prefix := log[..p];
    assert prefix[i] == log[i];
    if IsAsk(log[i]) {
      AskLeavesPending(u, prefix, i);
    } else if b :| 0 <= b < p && IsAskFor(log[b], u) {
      if b < i {
        SettleAfterAskIsFinal(u, prefix, b, i);
      } else {
        var k :| 0 <= k < i && IsAskFor(log[k], u);
        SettleAfterAskIsFinal(u, prefix, k, i);
      }
    } else {
      WithoutAskPending(u, prefix);
    }
  }

  // Replay is inert exactly on logs where the ref's ask, if there is one, precedes its settles.
  lemma ReplayInertIff(u: Uuid, log: seq<EscrowEvent>)
    ensures ReplayIsInert(u, log) <==> AskComesFirst(u, log)
  {
    if AskComesFirst(u, log) {
      forall i, p | 0 <= i < p <= |log| && log[i].key == Some(u)
        ensures ApplyMoney(Fold(PENDING, u, log[..p]), log[i]) == Fold(PENDING, u, log[..p])
      {
        ReplayOne(u, log, i, p);
      }
    } else {
      var i, b :| 0 <= i < b < |log| && IsSettleFor(log[i], u) && IsAskFor(log[b], u)
                  && forall k :: 0 <= k < i ==> !IsAskFor(log[k], u);
      var a := FirstAsk(u, log);
      var prefix := log[..a + 1];
      assert IsAskFor(prefix[a], u);
      assert forall j :: 0 <= j < a ==> !IsAskFor(prefix[j], u);
      FoldClosedForm(u, prefix);
      assert Fold(PENDING, u, prefix).status == Open;
      assert ApplyMoney(Fold(PENDING, u, prefix), log[i]) != Fold(PENDING, u, prefix);
    }
  }

  // On such logs, replaying any stretch of the prefix leaves the row as it is.
  lemma {:induction false} ReplayStretch(u: Uuid, log: seq<EscrowEvent>, i: nat, j: nat, p: nat)
    requires AskComesFirst(u, log) && i <= j <= p <= |log|
    ensures Fold(Fold(PENDING, u, log[..p]), u, log[i..j]) == Fold(PENDING, u, log[..p])
    decreases j - i
  {
    if i < j {
      ReplayStretch(u, log, i, j - 1, p);
      assert log[i..j] == log[i..j - 1] + [log[j - 1]];
      FoldAppend(Fold(PENDING, u, log[..p]), u, log[i..j - 1], log[j - 1]);
      if log[j - 1].key == Some(u) {
        ReplayOne(u, log, j - 1, p);
      }
    }
  }

  // The simplest log on which a replay does fire: a settle whose ref is asked for afterwards.
  lemma ReplayCanFire(u: Uuid)
    ensures var settle := EscrowEvent(QuestionDeclined, Some(u), 1, 0, 0, 1, 0);
            var ask := EscrowEvent(QuestionAsked, Some(u), 2, 5, 9, 1, 1);
            && !AskComesFirst(u, [settle, ask])
            && Fold(PENDING, u, [settle, ask]).status == Open
            && Fold(PENDING, u, [settle, ask, settle]).status == Declined
  {
    var settle := EscrowEvent(QuestionDeclined, Some(u), 1, 0, 0, 1, 0);
    var ask := EscrowEvent(QuestionAsked, Some(u), 2, 5, 9, 1, 1);
    var log := [settle, ask];
    assert IsSettleFor(log[0], u) && IsAskFor(log[1], u);
    FoldAppend(PENDING, u, [], settle);
    FoldAppend(PENDING, u, [settle], ask);
    FoldAppend(PENDING, u, [settle, ask], settle);
    assert [] + [settle] == [settle] && [settle] + [ask] == log && log + [settle] == [settle, ask, settle];
  }
}
