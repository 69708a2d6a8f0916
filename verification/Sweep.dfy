// The sweep of abandoned drafts: a bounded selection, then a delete under the same guard.
module Sweep {
  import opened Prelude
  import opened Events
  import opened MoneyFold
  import opened Tables
  import opened Store

  // Unpaid, never indexed, and older than the cutoff.
  predicate IsOrphan(row: Row, cutoff: int) {
    row.money.status == PendingPayment && row.money.onchainId.None? && row.createdAt < cutoff
  }

  function Orphans(rows: Rows, cutoff: int): set<Uuid> {
    set u | u in rows && IsOrphan(rows[u], cutoff)
  }

  // DELETE ... WHERE id IN (ids) AND orphaned, with its cascade to the answers.
  function DeleteOrphans(db: Db, ids: set<Uuid>, cutoff: int): Db {
    var doomed := ids * Orphans(db.rows, cutoff);
    Db(db.rows - doomed, db.answers - doomed)
  }

  // A sweep selects any limit-many orphans, or all when there are fewer, and deletes those.
  method SweepOrphanedPendingPayments(db: Database, olderThanSeconds: int, now: int, limit: nat)
    returns (deleted: set<Uuid>)
    modifies db
    ensures forall u :: u in deleted ==>
              && u in old(db.rows) && old(db.rows)[u].money.status == PendingPayment
              && old(db.rows)[u].money.onchainId == None && old(db.rows)[u].createdAt < now - olderThanSeconds
    ensures |deleted| < limit ==> forall u :: u in db.rows ==>
              || db.rows[u].money.status != PendingPayment || db.rows[u].money.onchainId.Some?
              || db.rows[u].createdAt >= now - olderThanSeconds
    ensures deleted <= Orphans(old(db.rows), now - olderThanSeconds)
    ensures |deleted| == Min(limit, |Orphans(old(db.rows), now - olderThanSeconds)|)
    ensures db.rows == old(db.rows) - deleted && db.answers == old(db.answers) - deleted
    ensures db.cursor == old(db.cursor)
  {
    var cutoff := now - olderThanSeconds;
    var orphaned := Orphans(db.rows, cutoff);
    var candidates: set<Uuid> := {};
    while |candidates| < limit && orphaned - candidates != {}
      invariant candidates <= orphaned && |candidates| <= limit
      decreases orphaned - candidates
    {
      var u :| u in orphaned - candidates;
      candidates := candidates + {u};
    }
    SubsetSize(candidates, orphaned);
    assert orphaned - candidates == {} ==> candidates == orphaned;
    if candidates == {} {
      assert db.rows - {} == db.rows && db.answers - {} == db.answers;
      return {};
    }
    deleted := candidates * Orphans(db.rows, cutoff);
    assert deleted == candidates;
    var swept := DeleteOrphans(db.Contents(), candidates, cutoff);
    db.rows, db.answers := swept.rows, swept.answers;
  }

  lemma SubsetSize<T>(a: set<T>, b: set<T>)
    requires a <= b
    ensures |a| <= |b| && (|a| == |b| ==> a == b)
  {
    assert b == a + (b - a);
    assert |b| == |a| + |b - a|;
  }

  // A row whose ask was indexed meanwhile, or that is too young, is spared even when it was selected.
  lemma DeleteSparesOthers(db: Db, ids: set<Uuid>, cutoff: int, u: Uuid)
    requires u in db.rows && !IsOrphan(db.rows[u], cutoff)
    ensures var after := DeleteOrphans(db, ids, cutoff);
            u in after.rows && after.rows[u] == db.rows[u]
            && (u in db.answers ==> u in after.answers && after.answers[u] == db.answers[u])
  {
  }

  // ---------------------------------------------------------------- repeated sweeps

  // What one sweep does to the rows, when nothing else writes.
  ghost predicate SweepRun(before: Rows, after: Rows, cutoff: int, limit: nat) {
    exists deleted :: deleted <= Orphans(before, cutoff) && |deleted| == Min(limit, |Orphans(before, cutoff)|)
                      && after == before - deleted
  }

  lemma OrphansLeft(before: Rows, deleted: set<Uuid>, cutoff: int)
    requires deleted <= Orphans(before, cutoff)
    ensures Orphans(before - deleted, cutoff) == Orphans(before, cutoff) - deleted
    ensures |Orphans(before, cutoff) - deleted| == |Orphans(before, cutoff)| - |deleted|
  {
    assert Orphans(before, cutoff) == deleted + (Orphans(before, cutoff) - deleted);
  }

  lemma SweepRunLeaves(before: Rows, after: Rows, cutoff: int, limit: nat)
    requires SweepRun(before, after, cutoff, limit)
    ensures |Orphans(after, cutoff)| == Max(0, |Orphans(before, cutoff)| - limit)
    ensures after.Keys - Orphans(after, cutoff) == before.Keys - Orphans(before, cutoff)
    ensures forall u :: u in after ==> u in before && after[u] == before[u]
  {
    var deleted :| deleted <= Orphans(before, cutoff) && |deleted| == Min(limit, |Orphans(before, cutoff)|)
                   && after == before - deleted;
    OrphansLeft(before, deleted, cutoff);
    assert after.Keys == before.Keys - deleted;
  }

  // With a fixed cutoff and no other writes, n orphans are gone after exactly ceil(n / limit)
  // sweeps, each of which deletes something, and no other row ever is.
  lemma {:induction false} SweepsDrain(runs: seq<Rows>, cutoff: int, limit: nat)
    requires |runs| > 0 && limit >= 1
    requires forall k :: 0 <= k < |runs| - 1 ==> SweepRun(runs[k], runs[k + 1], cutoff, limit)
    ensures var first, last, k := runs[0], runs[|runs| - 1], |runs| - 1;
            && |Orphans(last, cutoff)| == Max(0, |Orphans(first, cutoff)| - k * limit)
            && (Orphans(last, cutoff) == {} <==> CeilDiv(|Orphans(first, cutoff)|, limit) <= k)
            && last.Keys - Orphans(last, cutoff) == first.Keys - Orphans(first, cutoff)
            && (forall u :: u in last ==> u in first && last[u] == first[u])
  {
    if |runs| > 1 {
      var front := runs[..|runs| - 1];
      SweepsDrain(front, cutoff, limit);
      assert SweepRun(runs[|runs| - 2], runs[|runs| - 1], cutoff, limit);
      SweepRunLeaves(front[|front| - 1], runs[|runs| - 1], cutoff, limit);
      StepsAdd(|runs| - 2, limit);
    }
    CeilDivIff(|Orphans(runs[0], cutoff)|, limit, |runs| - 1);
  }

  lemma StepsAdd(k: nat, limit: nat)
    ensures (k + 1) * limit == k * limit + limit
  {
  }
}
