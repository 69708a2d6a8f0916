// The events a run emits determine the contract's records, and tell one life of each question.
module EventSourcing {
  import opened EscrowSpec
  import opened EscrowSafety
  import opened EscrowChange

  datatype Rebuilt = Rebuilt(questions: map<nat, Question>, refs: map<nat, Bytes32>, nextId: nat)

  function CloseAs(b: Rebuilt, id: nat, status: Status): Rebuilt {
    if id in b.questions then b.(questions := b.questions[id := b.questions[id].(status := status)]) else b
  }

  function Replay(b: Rebuilt, e: Event): Rebuilt {
    match e
    case QuestionAsked(id, ref, asker, answerer, amount, deadline) =>
      Rebuilt(b.questions[id := Question(asker, answerer, amount, deadline, Open)], b.refs[id := ref], id + 1)
    case QuestionAnswered(id, _, _) => CloseAs(b, id, Answered)
    case QuestionDeclined(id, _) => CloseAs(b, id, Declined)
    case QuestionCancelled(id, _) => CloseAs(b, id, Cancelled)
    case QuestionReclaimed(id, _) => CloseAs(b, id, Reclaimed)
    case Withdrawn(_, _) => b
    case ParameterUpdated(_, _) => b
  }

  // The records, from the log alone.
  function Rebuild(log: seq<Event>): Rebuilt {
    if |log| == 0 then Rebuilt(map[], map[], 1) else Replay(Rebuild(log[..|log| - 1]), log[|log| - 1])
  }

  lemma RebuildAppend(log: seq<Event>, e: Event)
    ensures Rebuild(log + [e]) == Replay(Rebuild(log), e)
  {
    assert (log + [e])[..|log|] == log;
  }

  predicate Rebuilds(s: State) {
    Rebuild(s.log) == Rebuilt(s.questions, s.questionRef, s.nextId)
  }

  // A change emits at most one event.
  lemma AtMostOneEvent(s: State, s': State, c: Change)
    requires Records(s, s', c)
    ensures s'.log == s.log || (|s'.log| == |s.log| + 1 && s'.log == s.log + [s'.log[|s.log|]])
  {
  }

  lemma ChangeRebuilds(s: State, s': State, c: Change)
    requires Shaped(s) && Records(s, s', c) && Rebuilds(s)
    ensures Rebuilds(s')
  {
    AtMostOneEvent(s, s', c);
    if s'.log != s.log {
      RebuildAppend(s.log, s'.log[|s.log|]);
    }
  }

  // Replaying the events a run emitted rebuilds every question, every ref and the next id.
  lemma {:induction false} LogRebuildsRecords(s: State, txs: seq<Tx>)
    requires Deployed(s)
    ensures Rebuild(Run(s, txs).log) == Rebuilt(Run(s, txs).questions, Run(s, txs).questionRef, Run(s, txs).nextId)
  {
    if |txs| > 0 {
      var before := Run(s, txs[..|txs| - 1]);
      LogRebuildsRecords(s, txs[..|txs| - 1]);
      SolventForever(s, txs[..|txs| - 1]);
      var c := Summary(before, txs[|txs| - 1]);
      ChangeRebuilds(before, Run(s, txs), c);
    }
  }

  // ---------------------------------------------------------------- one life per id

  predicate IsSettled(e: Event) {
    e.QuestionAnswered? || e.QuestionDeclined? || e.QuestionCancelled? || e.QuestionReclaimed?
  }

  predicate Concerns(e: Event, id: nat, ref: Bytes32) {
    match e
    case QuestionAsked(i, r, _, _, _, _) => i == id && r == ref
    case QuestionAnswered(i, r, _) => i == id && r == ref
    case QuestionDeclined(i, r) => i == id && r == ref
    case QuestionCancelled(i, r) => i == id && r == ref
    case QuestionReclaimed(i, r) => i == id && r == ref
    case _ => false
  }

  predicate AsksFor(e: Event, id: nat) {
    e.QuestionAsked? && e.id == id
  }

  predicate Settles(e: Event, id: nat) {
    IsSettled(e) && e.id == id
  }

  // The only ask for id is at a, and no settle of it comes earlier.
  ghost predicate OnlyAskAt(log: seq<Event>, id: nat, a: nat) {
    && a < |log| && AsksFor(log[a], id)
    && (forall i :: 0 <= i < |log| && AsksFor(log[i], id) ==> i == a)
    && (forall i :: 0 <= i < |log| && Settles(log[i], id) ==> a < i)
  }

  // Exactly one ask, at most one settle and only after it, and one ref in all of them.
  ghost predicate OneLife(log: seq<Event>, id: nat, ref: Bytes32, open: bool) {
    && (exists a :: OnlyAskAt(log, id, a))
    && (forall i :: 0 <= i < |log| && (AsksFor(log[i], id) || Settles(log[i], id)) ==> Concerns(log[i], id, ref))
    && (forall i, j :: 0 <= i < |log| && 0 <= j < |log| && Settles(log[i], id) && Settles(log[j], id) ==> i == j)
    && (open <==> forall i :: 0 <= i < |log| ==> !Settles(log[i], id))
  }

  ghost predicate NoLife(log: seq<Event>, id: nat) {
    forall i :: 0 <= i < |log| ==> !AsksFor(log[i], id) && !Settles(log[i], id)
  }

  ghost predicate LifeOf(s: State, id: nat) {
    if id in s.questions then OneLife(s.log, id, RefAt(s, id), s.questions[id].status == Open) else NoLife(s.log, id)
  }

  ghost predicate Lives(s: State) {
    forall id: nat :: LifeOf(s, id)
  }

  lemma OneLifeGoesOn(log: seq<Event>, e: Event, id: nat, ref: Bytes32, open: bool)
    requires OneLife(log, id, ref, open) && !AsksFor(e, id)
    requires Settles(e, id) ==> open && Concerns(e, id, ref)
    ensures OneLife(log + [e], id, ref, open && !Settles(e, id))
  {
    var a :| OnlyAskAt(log, id, a);
    var log' := log + [e];
    assert log'[|log|] == e && forall i :: 0 <= i < |log| ==> log'[i] == log[i];
    assert OnlyAskAt(log', id, a);
    if open && !Settles(e, id) {
      assert forall i :: 0 <= i < |log'| ==> !Settles(log'[i], id);
    } else if open {
      assert Settles(log'[|log|], id);
    } else {
      var i :| 0 <= i < |log| && Settles(log[i], id);
      assert Settles(log'[i], id);
    }
  }

  lemma OneLifeBegins(log: seq<Event>, e: Event, id: nat, ref: Bytes32)
    requires NoLife(log, id) && AsksFor(e, id) && Concerns(e, id, ref)
    ensures OneLife(log + [e], id, ref, true)
  {
    assert (log + [e])[|log|] == e;
    assert forall i :: 0 <= i < |log| ==> (log + [e])[i] == log[i];
    assert OnlyAskAt(log + [e], id, |log|);
  }

  // What the one event of a change says about an id.
  lemma EventOfChange(s: State, s': State, c: Change, id: nat)
    requires Shaped(s) && Records(s, s', c) && s'.log != s.log
    ensures |s'.log| == |s.log| + 1 && s'.log == s.log + [s'.log[|s.log|]]
    ensures var e := s'.log[|s.log|];
            && (AsksFor(e, id) <==> c.Asked? && id == s.nextId)
            && (Settles(e, id) <==> c.Settled? && id == c.id)
            && (AsksFor(e, id) || Settles(e, id) ==> Concerns(e, id, RefAt(s', id)))
  {
  }

  lemma ChangeKeepsLife(s: State, s': State, c: Change, id: nat)
    requires Shaped(s) && Records(s, s', c) && LifeOf(s, id)
    ensures LifeOf(s', id)
  {
    AtMostOneEvent(s, s', c);
    if s'.log != s.log {
      EventOfChange(s, s', c, id);
      var e := s'.log[|s.log|];
      if id in s.questions {
        OneLifeGoesOn(s.log, e, id, RefAt(s, id), s.questions[id].status == Open);
      } else if AsksFor(e, id) {
        OneLifeBegins(s.log, e, id, RefAt(s', id));
      }
    }
  }

  // In every run, each id below nextId has exactly one ask before at most one settle, all under the
  // ref on record, and no other id appears; a question is open exactly until its settle.
  lemma {:induction false} OneLifePerQuestion(s: State, txs: seq<Tx>)
    requires Deployed(s)
    ensures Lives(Run(s, txs))
    ensures forall id: nat :: id in Run(s, txs).questions <==> 1 <= id < Run(s, txs).nextId
  {
    SolventForever(s, txs);
    if |txs| > 0 {
      var before := Run(s, txs[..|txs| - 1]);
      OneLifePerQuestion(s, txs[..|txs| - 1]);
      SolventForever(s, txs[..|txs| - 1]);
      var c := Summary(before, txs[|txs| - 1]);
      forall id: nat
        ensures LifeOf(Run(s, txs), id)
      {
        ChangeKeepsLife(before, Run(s, txs), c, id);
      }
    }
  }
}
