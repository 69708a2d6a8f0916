// A request that runs without interruption does what its route does in one go: mints, saves, publishes
// and sweeps of the step system against the API and the sweep.
module SoloRequests {
  import opened Prelude
  import opened Events
  import opened MoneyFold
  import opened Tables
  import Chain
  import Sweep
  import opened System
  import opened Races

  // The step of a request that needs neither a node nor a choice.
  function StepOf(i: nat): Choice {
    Step(i, 0, [], {})
  }

  // A mint that may run adds the draft of its parties, and nothing else.
  lemma MintAddsDraft(cfg: Config, w: World, u: Uuid, chainId: nat, createdAt: int, asker: Wallet, answerer: Wallet)
    requires Configured(cfg) && u !in w.db.rows && u !in w.db.answers
    requires forall e :: e in Chain.Flat(w.blocks) ==> e.key != Some(u)
    ensures Do(cfg, w, Mint(u, chainId, createdAt, asker, answerer))
         == w.(db := w.db.(rows := w.db.rows[u := Row(chainId, Money(PendingPayment, None, None, None), false,
                                                      createdAt, asker, answerer)]))
  {
  }

  // A save: the answerer's body is stored exactly if the question is not answered, and a reveal time stays.
  lemma SoloSave(cfg: Config, w: World, i: nat, u: Uuid, wallet: Wallet, body: string)
    requires Configured(cfg) && i < |w.threads| && w.threads[i] == Saving(u, wallet, body, false)
    ensures var w' := RunWorld(cfg, w, [StepOf(i), StepOf(i)]);
            && w'.db.rows == w.db.rows && w'.threads == w.threads[i := Ended]
            && w'.db.answers
               == if u in w.db.rows && wallet == w.db.rows[u].answerer && w.db.rows[u].money.status != Answered then
                    w.db.answers[u := Answer(body, if u in w.db.answers then w.db.answers[u].revealedAt else None)]
                  else w.db.answers
  {
    TwoChoices(cfg, w, StepOf(i), StepOf(i));
  }

  // A publish: the answerer makes the one row public, exactly if it is answered.
  lemma SoloPublish(cfg: Config, w: World, i: nat, u: Uuid, wallet: Wallet)
    requires Configured(cfg) && i < |w.threads| && w.threads[i] == Publishing(u, wallet, false)
    ensures var w' := RunWorld(cfg, w, [StepOf(i), StepOf(i)]);
            && w'.db.answers == w.db.answers && w'.threads == w.threads[i := Ended]
            && w'.db.rows
               == if u in w.db.rows && wallet == w.db.rows[u].answerer && w.db.rows[u].money.status == Answered then
                    w.db.rows[u := w.db.rows[u].(isPublic := true)]
                  else w.db.rows
  {
    TwoChoices(cfg, w, StepOf(i), StepOf(i));
  }

  // Old drafts that no event has reached.
  predicate AllAbandoned(rows: Rows, ids: set<Uuid>, cutoff: int) {
    forall u :: u in ids ==> && u in rows && rows[u].money.status == PendingPayment
                             && rows[u].money.onchainId == None && rows[u].createdAt < cutoff
  }

  // A sweep of such drafts, no more than the limit, deletes exactly those and their answers.
  lemma SoloSweep(cfg: Config, w: World, i: nat, cutoff: int, limit: nat, ids: set<Uuid>)
    requires Configured(cfg) && i < |w.threads| && w.threads[i] == Sweeping(cutoff, limit, None)
    requires AllAbandoned(w.db.rows, ids, cutoff) && |ids| <= limit
    ensures var w' := RunWorld(cfg, w, [Step(i, 0, [], ids), StepOf(i)]);
            w'.threads == w.threads[i := Ended] && w'.db.rows == w.db.rows - ids && w'.db.answers == w.db.answers - ids
  {
    TwoChoices(cfg, w, Step(i, 0, [], ids), StepOf(i));
    assert ids * Sweep.Orphans(w.db.rows, cutoff) == ids;
  }
}
