/**
 Quota under concurrency. Every transaction conserves it in every interleaving
 but one: reconciliation counts before it waits for the usage rows and writes
 what it counted, so what others did to the live jobs in between decides.
 */
module HubReconcile {
  import opened Collections
  import opened JobStates
  import opened HubTables
  import opened HubStore
  import opened HubIdempotency
  import HubDispatch

  predicate HasStale(stale: set<Key>, org: Org) { exists key :: key in stale && key.org == org }

  ghost predicate StaleOk(s: Store, stale: set<Key>) {
    forall key :: key in stale ==> key in s.core.jobs && !s.core.jobs[key].state.IsTerminal()
  }

  /** What was selected for writing: organizations that lose jobs and keep some. */
  ghost predicate CountsOk(s: Store, stale: set<Key>, base: map<Org, nat>, counts: map<Org, nat>) {
    && base.Keys == s.core.usage.Keys
    && (forall org :: org in counts <==> org in base && base[org] != 0 && HasStale(stale, org))
    && (forall org :: org in counts ==> counts[org] == base[org])
  }

  /** What was selected for zero, and that nobody has touched a row it holds. */
  ghost predicate ZerosOk(s: Store, stale: set<Key>, counts: map<Org, nat>, later: map<Org, nat>, zeros: set<Org>) {
    && later.Keys == s.core.usage.Keys
    && (forall org :: org in zeros <==> org in later && later[org] == 0 && HasStale(stale, org))
    && (forall org :: org in counts && org in later ==> |Remaining(s, stale, org)| == later[org])
  }

  ghost predicate ReconcilerOk(s: Store, r: Reconciler) {
    match r
    case Idle => true
    case Failing(_, stale) => StaleOk(s, stale)
    case Counted(_, stale, base, counts) => StaleOk(s, stale) && CountsOk(s, stale, base, counts)
    case Wrote(_, stale, base, counts, later, zeros) =>
      StaleOk(s, stale) && CountsOk(s, stale, base, counts) && ZerosOk(s, stale, counts, later, zeros)
  }

  // ----- Counting -----

  function StaleOf(stale: set<Key>, org: Org): set<Key> { set key | key in stale && key.org == org }

  /** The live jobs are the remaining ones and the stale ones. */
  lemma {:induction false} RemainingAndStale(s: Store, stale: set<Key>, org: Org)
    requires StaleOk(s, stale)
    ensures |Active(s.core.jobs, org)| == |Remaining(s, stale, org)| + |StaleOf(stale, org)|
    ensures |StaleOf(stale, org)| != 0 <==> HasStale(stale, org)
  {
    var live, mine := Active(s.core.jobs, org), StaleOf(stale, org);
    assert Remaining(s, stale, org) == live - mine && mine <= live;
    assert live == (live - mine) + mine;
    if HasStale(stale, org) {
      var key :| key in stale && key.org == org;
      assert key in mine;
    } else {
      assert mine == {};
    }
  }

  lemma {:induction false} FailLeavesRemaining(s: Store, stale: set<Key>, now: int, org: Org)
    ensures Active(FailAll(s.core.jobs, stale, now), org) == Remaining(s, stale, org)
  {
  }

  // ----- The three moments -----

  lemma {:induction false} CountIsOk(s: Store, stale: set<Key>)
    requires Balanced(s.core) && StaleOk(s, stale)
    ensures CountsOk(s, stale, Numbers(s, stale), OffCounts(s, Numbers(s, stale)))
  {
    hide StaleOk, Active, LedgerExact, Metered, Remaining;
    forall org | org in s.core.usage
      ensures s.core.usage[org].active != |Remaining(s, stale, org)| <==> HasStale(stale, org)
    {
      RemainingAndStale(s, stale, org);
      assert s.core.usage[org].active == |Active(s.core.jobs, org)|;
    }
    hide HasStale;
  }

  lemma {:induction false} WriteIsOk(s: Store, stale: set<Key>, base: map<Org, nat>, counts: map<Org, nat>)
    requires Balanced(s.core) && StaleOk(s, stale) && CountsOk(s, stale, base, counts)
    ensures ZerosOk(s, stale, counts, Numbers(s, stale), OffZeros(s, counts, Numbers(s, stale)))
  {
    hide StaleOk, Active, LedgerExact, Metered, Remaining;
    forall org | org in s.core.usage
      ensures s.core.usage[org].active != |Remaining(s, stale, org)| <==> HasStale(stale, org)
    {
      RemainingAndStale(s, stale, org);
      assert s.core.usage[org].active == |Active(s.core.jobs, org)|;
    }
    hide HasStale;
  }

  /**
   Nobody disturbed the count of this organization: if it keeps jobs, there are
   as many when the counters are written as were counted, or none; if it keeps
   none, there are still none, then and when the transaction commits.
   */
  predicate Undisturbed(base: nat, later: nat, atCommit: nat) {
    if base != 0 then later == base || later == 0 else later == 0 && atCommit == 0
  }

  ghost predicate QuietReconciliation(s: Store, r: Reconciler) {
    r.Wrote? ==>
      forall org :: org in s.core.usage && org in r.base && org in r.later && HasStale(r.stale, org) ==>
        Undisturbed(r.base[org], r.later[org], |Remaining(s, r.stale, org)|)
  }

  /** One organization's counter after the commit is right exactly if nobody disturbed its count. */
  lemma {:induction false} CounterRightIff(s: Store, r: Reconciler, org: Org)
    requires r.Wrote? && ReconcilerOk(s, r) && Balanced(s.core) && org in s.core.usage
    ensures var s' := Reconciled(s, r);
            && org in s'.core.usage
            && (s'.core.usage[org].active == |Active(s'.core.jobs, org)| <==>
                  (HasStale(r.stale, org) ==> Undisturbed(r.base[org], r.later[org], |Remaining(s, r.stale, org)|)))
  {
    assert s.core.usage[org].active == |Active(s.core.jobs, org)|;
    hide Balanced, Active, Remaining, StaleOk, HasStale, FailAll, StaleOf;
    RemainingAndStale(s, r.stale, org);
    FailLeavesRemaining(s, r.stale, r.now, org);
  }

  /** The ledger stays exact and every job metered, disturbed or not. */
  lemma {:induction false} CommitKeepsLedger(s: Store, r: Reconciler)
    requires r.Wrote? && StaleOk(s, r.stale) && LedgerExact(s.core) && Metered(s.core)
    ensures LedgerExact(Reconciled(s, r).core) && Metered(Reconciled(s, r).core)
  {
    hide Active;
  }

  /** The exact condition: a reconciliation leaves every counter right if and only if no count was disturbed. */
  lemma {:induction false} CommitConservesIff(s: Store, r: Reconciler)
    requires r.Wrote? && ReconcilerOk(s, r) && Balanced(s.core)
    ensures Balanced(Reconciled(s, r).core) <==> QuietReconciliation(s, r)
  {
    CommitKeepsLedger(s, r);
    var s' := Reconciled(s, r);
    assert s'.core.usage.Keys == s.core.usage.Keys;
    assert r.base.Keys == r.later.Keys == s.core.usage.Keys;
    hide Reconciled, ReconcilerOk, LedgerExact, Metered, Active, Remaining, HasStale;
    forall org | org in s.core.usage
      ensures s'.core.usage[org].active == |Active(s'.core.jobs, org)| <==>
                (HasStale(r.stale, org) ==> Undisturbed(r.base[org], r.later[org], |Remaining(s, r.stale, org)|))
    {
      CounterRightIff(s, r, org);
    }
    hide Undisturbed;
    if QuietReconciliation(s, r) {
      assert Counts(s'.core, 0, 0);
    } else {
      var org :| org in s.core.usage && org in r.base && org in r.later && HasStale(r.stale, org)
                 && !Undisturbed(r.base[org], r.later[org], |Remaining(s, r.stale, org)|);
      assert s'.core.usage[org].active != |Active(s'.core.jobs, org)|;
    }
  }

  // ----- What others do meanwhile -----

  /** A transaction that leaves held rows alone leaves the reconciliation's records true. */
  lemma {:induction false} MeanwhileKeepsOk(s: Store, s': Store, r: Reconciler)
    requires ReconcilerOk(s, r) && Balanced(s.core) && Balanced(s'.core)
    requires s'.core.usage.Keys == s.core.usage.Keys
    requires forall key :: key in HeldJobs(r) ==> SameEntry(s.core.jobs, s'.core.jobs, key)
    requires forall org :: org in HeldRows(r) ==> SameEntry(s.core.usage, s'.core.usage, org)
    ensures ReconcilerOk(s', r)
  {
    if !r.Idle? {
      forall key | key in r.stale ensures key in s'.core.jobs && !s'.core.jobs[key].state.IsTerminal() {
        assert key in HeldJobs(r) && SameEntry(s.core.jobs, s'.core.jobs, key);
      }
      if r.Wrote? {
        forall org | org in r.counts && org in r.later ensures |Remaining(s', r.stale, org)| == r.later[org] {
          RemainingAndStale(s, r.stale, org);
          RemainingAndStale(s', r.stale, org);
          assert org in HeldRows(r) && s.core.usage[org] == s'.core.usage[org];
          assert s.core.usage[org].active == |Active(s.core.jobs, org)|;
          assert s'.core.usage[org].active == |Active(s'.core.jobs, org)|;
        }
      }
    }
  }

  lemma {:induction false} JobKeepsOtherRows(s: Store, input: NewJob, idem: Option<Idempotency>, admitted: bool, org: Org)
    requires org != input.org
    ensures SameEntry(s.core.usage, CommitJob(s, input, idem, admitted).0.core.usage, org)
  {
    hide JobAllowed, Claimable, Claimed, Replayed, Remember, JobUsage;
  }

  lemma {:induction false} BatchKeepsOtherRows(s: Store, batch: NewBatch, idem: Option<Idempotency>, admitted: bool, org: Org)
    requires org != batch.org
    ensures SameEntry(s.core.usage, CommitBatch(s, batch, idem, admitted).0.core.usage, org)
  {
    hide BatchAllowed, Children, InputsReady, Replayed, Remember, BatchUsage;
  }

  /** A submission changes no usage row but its own. */
  lemma {:induction false} SubmissionKeepsOtherRows(s: Store, tx: Tx, org: Org)
    requires org != tx.Org()
    ensures SameEntry(s.core.usage, Apply(s, tx.AsStep()).core.usage, org)
  {
    hide CommitJob, CommitBatch;
    if tx.work.JobWork? { JobKeepsOtherRows(s, tx.work.input, tx.idem, tx.admitted, org); }
    else { BatchKeepsOtherRows(s, tx.work.batch, tx.idem, tx.admitted, org); }
  }

  /** A submission adds jobs and changes none. */
  lemma {:induction false} SubmissionKeepsJobs(s: Store, tx: Tx, key: Key)
    requires key in s.core.jobs
    ensures SameEntry(s.core.jobs, Apply(s, tx.AsStep()).core.jobs, key)
  {
    if tx.work.BatchWork? && BatchRefusal(s, tx.work.batch, tx.admitted).None? {
      HubDispatch.ChildrenAdd(s.core.jobs, s.queue, tx.work.batch, |tx.work.batch.children|, key);
    }
    hide JobAllowed, BatchAllowed, Claimable, Claimed, Children, InputsReady, Replayed, Remember;
  }

  // ----- Every run -----

  /** No submission is past the lock on a row that a reconciliation has written. */
  ghost predicate RowsApart(s: System) {
    forall t :: Holds(s, t) && t in s.txs ==> s.txs[t].Org() !in HeldRows(s.reconciler)
  }

  ghost predicate AllTxsLawful(s: System) { forall t :: t in s.txs ==> Lawful(s.txs[t].AsStep()) }

  ghost predicate QuotaOk(s: System) {
    && Balanced(s.store.core) && WithinLimits(s.store)
    && ReconcilerOk(s.store, s.reconciler) && RowsApart(s) && AllTxsLawful(s)
  }

  predicate LawfulMove(move: Move) {
    (move.Begin? ==> Lawful(move.what.AsStep())) && (move.Background? ==> Lawful(move.step))
  }

  lemma {:induction false} CommitKeepsQuota(s: System, t: TxId)
    requires QuotaOk(s) && At(s, t, Rechecked) && TxOk(s, t)
    ensures QuotaOk(Committing(s, t))
  {
    var step, s' := s.txs[t].AsStep(), Committing(s, t);
    CommitIsAtomic(s, t);
    hide Committing, Atomically;
    StepConserves(s.store, step);
    StepKeepsLimit(s.store, step);
    UsageRowsStay(s.store, step);
    assert Holds(s, t);
    forall org | org in HeldRows(s.reconciler) ensures SameEntry(s.store.core.usage, s'.store.core.usage, org) {
      SubmissionKeepsOtherRows(s.store, s.txs[t], org);
    }
    forall key | key in HeldJobs(s.reconciler) ensures SameEntry(s.store.core.jobs, s'.store.core.jobs, key) {
      assert key in s.store.core.jobs;
      SubmissionKeepsJobs(s.store, s.txs[t], key);
    }
    CommittingKeepsRest(s, t);
    hide Apply, Balanced, WithinLimits, ReconcilerOk;
    MeanwhileKeepsOk(s.store, s'.store, s.reconciler);
  }

  lemma {:induction false} CommittingKeepsRest(s: System, t: TxId)
    requires At(s, t, Rechecked) && RowsApart(s) && AllTxsLawful(s)
    ensures var s' := Committing(s, t); RowsApart(s') && AllTxsLawful(s') && s'.reconciler == s.reconciler
  {
    hide Refusal, Inserted, Lawful;
  }

  lemma {:induction false} BackgroundKeepsQuota(s: System, step: Step)
    requires QuotaOk(s) && Enabled(s, Background(step)) && Lawful(step)
    ensures QuotaOk(Take(s, Background(step)))
  {
    hide Apply, Balanced, WithinLimits, ReconcilerOk, Lawful;
    StepConserves(s.store, step);
    StepKeepsLimit(s.store, step);
    UsageRowsStay(s.store, step);
    MeanwhileKeepsOk(s.store, Apply(s.store, step), s.reconciler);
  }

  lemma {:induction false} ReconcileKeepsQuota(s: System, move: Move)
    requires QuotaOk(s) && Enabled(s, move) && (move.ReconcileFail? || move.ReconcileCount? || move.ReconcileWrite?)
    ensures QuotaOk(Take(s, move))
  {
    var r := s.reconciler;
    if move.ReconcileCount? { CountIsOk(s.store, r.stale); }
    if move.ReconcileWrite? { WriteIsOk(s.store, r.stale, r.base, r.counts); }
    hide Balanced, WithinLimits, Lawful, CountsOk, ZerosOk, Numbers, OffCounts, OffZeros;
  }

  lemma {:induction false} ReconcileCommitKeepsQuota(s: System)
    requires QuotaOk(s) && s.reconciler.Wrote? && QuietReconciliation(s.store, s.reconciler)
    ensures QuotaOk(s.(store := Reconciled(s.store, s.reconciler), reconciler := Idle))
  {
    var r, s' := s.reconciler, Reconciled(s.store, s.reconciler);
    CommitConservesIff(s.store, r);
    forall org | org in s'.core.usage && org in s'.policies
      ensures |Active(s'.core.jobs, org)| <= s'.policies[org].maxConcurrent
    {
      FailLeavesRemaining(s.store, r.stale, r.now, org);
      SubsetSize(Remaining(s.store, r.stale, org), Active(s.store.core.jobs, org));
    }
    hide Balanced, ReconcilerOk, QuietReconciliation, Lawful, Active, FailAll;
  }

  lemma {:induction false} MoveKeepsQuota(s: System, move: Move)
    requires QuotaOk(s) && Enabled(s, move) && LawfulMove(move)
    requires move.Commit? ==> TxOk(s, move.tx)
    requires move.ReconcileCommit? ==> QuietReconciliation(s.store, s.reconciler)
    ensures QuotaOk(Take(s, move))
  {
    if move.Commit? { hide QuotaOk, TxOk; CommitKeepsQuota(s, move.tx); }
    else if move.Background? { hide QuotaOk; BackgroundKeepsQuota(s, move.step); }
    else if move.ReconcileCommit? { hide QuotaOk, QuietReconciliation, Reconciled; ReconcileCommitKeepsQuota(s); }
    else if move.ReconcileFail? || move.ReconcileCount? || move.ReconcileWrite? {
      hide QuotaOk, Take;
      ReconcileKeepsQuota(s, move);
    } else {
      hide Balanced, WithinLimits, ReconcilerOk, Lawful, Answer;
    }
  }

  /** No count of any reconciliation of this run was disturbed. */
  ghost predicate AllQuiet(store: Store, moves: seq<Move>)
    requires Run(store, moves).Some?
  {
    moves == [] ||
    (var before, last := moves[..|moves| - 1], moves[|moves| - 1];
     AllQuiet(store, before)
     && (last.ReconcileCommit? ==>
           QuietReconciliation(Run(store, before).value.store, Run(store, before).value.reconciler)))
  }

  /**
   However submissions, events, dispatch, cancellations and reconciliation
   interleave, quota is conserved and the limits are kept, as long as no
   reconciliation's count was disturbed.
   */
  lemma {:induction false} InterleavingsConserveQuota(store: Store, moves: seq<Move>)
    requires Run(store, moves).Some? && (forall i :: 0 <= i < |moves| ==> LawfulMove(moves[i]))
    requires Balanced(store.core) && WithinLimits(store) && AllQuiet(store, moves)
    ensures QuotaOk(Run(store, moves).value)
  {
    if moves == [] {
      hide Balanced, WithinLimits;
    } else {
      var before, last := moves[..|moves| - 1], moves[|moves| - 1];
      assert LawfulMove(last);
      hide Balanced, WithinLimits, LawfulMove, QuietReconciliation, Enabled, Take;
      InterleavingsConserveQuota(store, before);
      HubIdempotency.RunKeepsInv(store, before);
      hide QuotaOk;
      if last.Commit? { CommitterIsOk(Run(store, before).value, store, last); }
      MoveKeepsQuota(Run(store, before).value, last);
    }
  }

  lemma {:induction false} CommitterIsOk(s: System, before: Store, move: Move)
    requires HubIdempotency.Inv(s, before) && Enabled(s, move) && move.Commit?
    ensures TxOk(s, move.tx)
  {
    hide TxOk;
  }

  /** In every such run, the next reconciliation to commit leaves the counters right exactly if it was not disturbed. */
  lemma {:induction false} ReconciliationConservesIff(store: Store, moves: seq<Move>)
    requires Run(store, moves).Some? && (forall i :: 0 <= i < |moves| ==> LawfulMove(moves[i]))
    requires Balanced(store.core) && WithinLimits(store) && AllQuiet(store, moves)
    requires Enabled(Run(store, moves).value, ReconcileCommit)
    ensures var s := Run(store, moves).value;
            Balanced(Take(s, ReconcileCommit).store.core) <==> QuietReconciliation(s.store, s.reconciler)
  {
    InterleavingsConserveQuota(store, moves);
    var s := Run(store, moves).value;
    hide Run, Balanced, WithinLimits, QuietReconciliation, Reconciled, ReconcilerOk;
    CommitConservesIff(s.store, s.reconciler);
  }

  // ----- Uninterrupted -----

  lemma {:induction false} CounterIsWritten(s: Store, base: map<Org, nat>, org: Org)
    requires org in s.core.usage && org in base
    ensures var counts := OffCounts(s, base);
            CountersWritten(s.core.usage, counts, OffZeros(s, counts, base))[org] == s.core.usage[org].(active := base[org])
  {
  }

  /** Counted and written in one go, every counter is the number of live jobs that are left. */
  lemma {:induction false} CountersAreRecounted(s: Store, stale: set<Key>, now: int)
    ensures var base := Numbers(s, stale);
            var counts := OffCounts(s, base);
            CountersWritten(s.core.usage, counts, OffZeros(s, counts, base))
            == Recount(FailAll(s.core.jobs, stale, now), s.core.usage)
  {
    var base, jobs := Numbers(s, stale), FailAll(s.core.jobs, stale, now);
    var counts := OffCounts(s, base);
    var written := CountersWritten(s.core.usage, counts, OffZeros(s, counts, base));
    assert written.Keys == s.core.usage.Keys;
    hide CountersWritten, OffCounts, OffZeros, FailAll, Active, Remaining;
    forall org | org in s.core.usage ensures written[org] == s.core.usage[org].(active := |Active(jobs, org)|) {
      CounterIsWritten(s, base, org);
      FailLeavesRemaining(s, stale, now, org);
    }
  }

  /** The four moves with nothing in between, and no row held, are the reconciliation as one transaction. */
  lemma {:induction false} UninterruptedIsReconcile(s: System, now: int, staleAfterMs: int)
    requires s.reconciler.Idle? && forall org :: LockFree(s, org)
    ensures Enabled(s, ReconcileFail(now, staleAfterMs))
    ensures var s1 := Take(s, ReconcileFail(now, staleAfterMs));
            && Enabled(s1, ReconcileCount) && Enabled(Take(s1, ReconcileCount), ReconcileWrite)
            && var s3 := Take(Take(s1, ReconcileCount), ReconcileWrite);
            && Enabled(s3, ReconcileCommit)
            && Take(s3, ReconcileCommit) == s.(store := Reconcile(s.store, now, staleAfterMs))
  {
    CountersAreRecounted(s.store, Stale(s.store, Cutoff(now, staleAfterMs)), now);
    hide Stale, Numbers, OffCounts, OffZeros, CountersWritten, Recount, FailAll;
    assert forall s': System, org :: s'.txs == s.txs && s'.phases == s.phases ==> LockFree(s', org) by {
      forall s': System, org | s'.txs == s.txs && s'.phases == s.phases ensures LockFree(s', org) {
        assert LockFree(s, org);
        forall t | Holds(s', t) && t in s'.txs ensures s'.txs[t].Org() != org {
          assert Holds(s, t);
        }
      }
    }
  }

  // ----- Schedules -----

  /** The job this step may change, if it is of this organization. */
  predicate StepTouches(step: Step, org: Org) {
    match step
    case UpdateJob(update) => update.key.org == org
    case DeliverEvent(event) => event.key.org == org
    case BindJob(key, _, _, _) => key.org == org
    case CancelJob(key, _) => key.org == org
    case _ => false
  }

  predicate Touches(s: System, move: Move, org: Org) {
    match move
    case Commit(t) => t in s.txs && s.txs[t].Org() == org
    case Background(step) => StepTouches(step, org)
    case _ => false
  }

  /** Between a reconciliation's count and its commit, nobody changes jobs of an organization that loses some. */
  predicate KeepsApart(s: System, move: Move) {
    s.reconciler.Counted? || s.reconciler.Wrote? ==>
      forall key :: key in s.reconciler.stale ==> !Touches(s, move, key.org)
  }

  ghost predicate AllApart(store: Store, moves: seq<Move>)
    requires Run(store, moves).Some?
  {
    moves == [] ||
    (var before, last := moves[..|moves| - 1], moves[|moves| - 1];
     AllApart(store, before) && KeepsApart(Run(store, before).value, last))
  }

  /** What was counted is still so. */
  ghost predicate StillCounted(s: Store, r: Reconciler) {
    r.Counted? || r.Wrote? ==>
      forall org :: HasStale(r.stale, org) && org in r.base ==>
        && r.base[org] == |Remaining(s, r.stale, org)|
        && (r.Wrote? && org in r.later ==> r.later[org] == r.base[org])
  }

  lemma {:induction false} ChildrenElsewhere(s: Store, batch: NewBatch, n: nat, key: Key)
    requires n <= |batch.children| && Children(s.core.jobs, s.queue, batch, n).Some? && key.org != batch.org
    ensures SameEntry(s.core.jobs, Children(s.core.jobs, s.queue, batch, n).value.0, key)
  {
    if n > 0 { ChildrenElsewhere(s, batch, n - 1, key); }
  }

  lemma {:induction false} CommitElsewhere(s: System, t: TxId, key: Key)
    requires t in s.txs && s.txs[t].Org() != key.org
    ensures SameEntry(s.store.core.jobs, Committing(s, t).store.core.jobs, key)
  {
    var tx := s.txs[t];
    if tx.work.BatchWork? && Refusal(s.store, tx).None? {
      ChildrenElsewhere(s.store, tx.work.batch, |tx.work.batch.children|, key);
    }
    hide Children, JobAllowed, BatchAllowed, InputsReady, Claimable, Claimed, Remember;
  }

  lemma {:induction false} UpdateElsewhere(s: Store, update: Update, key: Key)
    requires update.key != key
    ensures SameEntry(s.core.jobs, UpdateIfCurrent(s, update).0.core.jobs, key)
  {
    hide Settle, UpdatedJob;
    if update.key in s.core.jobs { SettleWrites(s.core, update.key, UpdatedJob(s.core.jobs[update.key], update)); }
  }

  lemma {:induction false} EventElsewhere(s: Store, event: JobEvent, key: Key)
    requires event.key != key
    ensures SameEntry(s.core.jobs, ApplyEvent(s, event).0.core.jobs, key)
  {
    hide Settle, EventedJob;
    if event.key in s.core.jobs { SettleWrites(s.core, event.key, EventedJob(s.core.jobs[event.key], event)); }
  }

  lemma {:induction false} CancelElsewhere(s: Store, k: Key, now: int, key: Key)
    requires k != key
    ensures SameEntry(s.core.jobs, CancelQueued(s, k, now).0.core.jobs, key)
  {
    if k in s.core.jobs { SettleWrites(s.core, k, s.core.jobs[k].(state := Cancelled, updatedAt := now)); }
    hide Settle;
  }

  lemma {:induction false} StepElsewhere(s: Store, step: Step, key: Key)
    requires !Submits(step) && !step.ReconcileQuota? && !StepTouches(step, key.org)
    ensures SameEntry(s.core.jobs, Apply(s, step).core.jobs, key)
  {
    hide UpdateIfCurrent, ApplyEvent, CancelQueued, SameEntry;
    match step
    case UpdateJob(update) => UpdateElsewhere(s, update, key);
    case DeliverEvent(event) => EventElsewhere(s, event, key);
    case CancelJob(k, now) => CancelElsewhere(s, k, now, key);
    case BindJob(k, worker, session, now) => BindElsewhere(s, k, worker, session, now, key);
    case _ => SameItself(s, step, key);
  }

  lemma {:induction false} BindElsewhere(s: Store, k: Key, worker: Key, session: Name, now: int, key: Key)
    requires k != key
    ensures SameEntry(s.core.jobs, Bind(s, k, worker, session, now).0.core.jobs, key)
  {
    hide BoundJob;
  }

  lemma {:induction false} SameItself(s: Store, step: Step, key: Key)
    requires step.ReleaseAgain? || step.ClaimJob? || step.WorkerSeen? || step.ArtifactChanged?
    ensures SameEntry(s.core.jobs, Apply(s, step).core.jobs, key)
  {
    hide Dispatchable;
  }

  lemma {:induction false} UntouchedRemain(s: System, move: Move, stale: set<Key>, org: Org)
    requires Enabled(s, move) && !move.ReconcileCommit? && !Touches(s, move, org)
    ensures Remaining(Take(s, move).store, stale, org) == Remaining(s.store, stale, org)
  {
    var jobs, jobs' := s.store.core.jobs, Take(s, move).store.core.jobs;
    forall key: Key | key.org == org ensures SameEntry(jobs, jobs', key) {
      hide Apply, Committing;
      if move.Commit? { CommitElsewhere(s, move.tx, key); }
      if move.Background? { StepElsewhere(s.store, move.step, key); }
    }
    hide Enabled, Take;
  }

  /** A move that is not the reconciliation's leaves it and what it counted alone. */
  lemma {:induction false} OthersKeepCount(s: System, move: Move)
    requires Enabled(s, move) && StillCounted(s.store, s.reconciler) && KeepsApart(s, move)
    requires !move.ReconcileFail? && !move.ReconcileCount? && !move.ReconcileWrite? && !move.ReconcileCommit?
    ensures StillCounted(Take(s, move).store, Take(s, move).reconciler)
  {
    var r := s.reconciler;
    OthersKeepReconciler(s, move);
    hide Enabled, Take, Remaining, Touches;
    forall org | HasStale(HeldJobs(r), org) && (r.Counted? || r.Wrote?)
      ensures Remaining(Take(s, move).store, r.stale, org) == Remaining(s.store, r.stale, org)
    {
      UntouchedRemain(s, move, r.stale, org);
    }
  }

  lemma {:induction false} OthersKeepReconciler(s: System, move: Move)
    requires Enabled(s, move)
    requires !move.ReconcileFail? && !move.ReconcileCount? && !move.ReconcileWrite? && !move.ReconcileCommit?
    ensures Take(s, move).reconciler == s.reconciler
  {
    hide Apply, Committing, Answer;
    if move.Commit? { CommitKeepsReconciler(s, move.tx); }
  }

  lemma {:induction false} ApartKeepsCount(s: System, move: Move)
    requires Enabled(s, move) && StillCounted(s.store, s.reconciler) && KeepsApart(s, move)
    ensures StillCounted(Take(s, move).store, Take(s, move).reconciler)
  {
    if move.ReconcileFail? || move.ReconcileCount? || move.ReconcileWrite? || move.ReconcileCommit? {
      hide Remaining, Reconciled, Stale, OffCounts, OffZeros, KeepsApart;
    } else {
      hide Enabled, Take, StillCounted, KeepsApart;
      OthersKeepCount(s, move);
    }
  }

  /**
   The condition, read off a schedule: if between the count and the commit of a
   reconciliation no transaction changes jobs of an organization that loses
   some, no count is disturbed.
   */
  lemma {:induction false} ApartSchedulesAreQuiet(store: Store, moves: seq<Move>)
    requires Run(store, moves).Some? && AllApart(store, moves)
    ensures AllQuiet(store, moves) && StillCounted(Run(store, moves).value.store, Run(store, moves).value.reconciler)
  {
    if moves != [] {
      var before, last := moves[..|moves| - 1], moves[|moves| - 1];
      ApartSchedulesAreQuiet(store, before);
      var s := Run(store, before).value;
      CountedIsQuiet(s.store, s.reconciler);
      hide StillCounted, QuietReconciliation, KeepsApart, Enabled, Take;
      ApartKeepsCount(s, last);
    }
  }

  lemma {:induction false} CountedIsQuiet(s: Store, r: Reconciler)
    requires StillCounted(s, r)
    ensures QuietReconciliation(s, r)
  {
    hide Remaining;
  }

  /** So such schedules conserve quota and keep the limits. */
  lemma {:induction false} ApartSchedulesConserveQuota(store: Store, moves: seq<Move>)
    requires Run(store, moves).Some? && (forall i :: 0 <= i < |moves| ==> LawfulMove(moves[i]))
    requires Balanced(store.core) && WithinLimits(store) && AllApart(store, moves)
    ensures QuotaOk(Run(store, moves).value)
  {
    hide Balanced, WithinLimits, Run, LawfulMove, AllApart, QuotaOk;
    ApartSchedulesAreQuiet(store, moves);
    InterleavingsConserveQuota(store, moves);
  }

  // ----- A disturbed count -----

  /** A count that no longer fits when it is written, jobs remaining, leaves the counter wrong. */
  lemma {:induction false} StaleCountIsWrong(s: System, org: Org)
    requires QuotaOk(s) && s.reconciler.Counted? && org in s.store.core.usage && org in s.reconciler.base
    requires HasStale(s.reconciler.stale, org)
    requires |Remaining(s.store, s.reconciler.stale, org)| !in {0, s.reconciler.base[org]}
    requires Enabled(s, ReconcileWrite) && Enabled(Take(s, ReconcileWrite), ReconcileCommit)
    ensures !Balanced(Take(Take(s, ReconcileWrite), ReconcileCommit).store.core)
  {
    var r, s' := s.reconciler, Take(s, ReconcileWrite);
    hide Balanced, WithinLimits, ReconcilerOk, Reconciled, Remaining, OffZeros, RowsApart, AllTxsLawful, LockFree;
    ReconcileKeepsQuota(s, ReconcileWrite);
    assert s'.reconciler.later[org] == |Remaining(s.store, r.stale, org)|;
    CommitConservesIff(s'.store, s'.reconciler);
    assert !Undisturbed(r.base[org], s'.reconciler.later[org], |Remaining(s'.store, r.stale, org)|);
  }

  /** Whatever else is going on, one job submitted between count and write leaves its organization's counter wrong. */
  lemma {:induction false} SubmissionInBetweenBreaksTheCount(s: System, t: TxId)
    requires QuotaOk(s) && s.reconciler.Counted? && At(s, t, Rechecked) && TxOk(s, t)
    requires s.txs[t].work.JobWork? && Refusal(s.store, s.txs[t]).None?
    requires var r, org := s.reconciler, s.txs[t].Org();
             HasStale(r.stale, org) && org in r.base && r.base[org] == |Remaining(s.store, r.stale, org)|
    requires Enabled(Committing(s, t), ReconcileWrite)
    requires Enabled(Take(Committing(s, t), ReconcileWrite), ReconcileCommit)
    ensures !Balanced(Take(Take(Committing(s, t), ReconcileWrite), ReconcileCommit).store.core)
  {
    var r, org := s.reconciler, s.txs[t].Org();
    assert StaleOk(s.store, r.stale);
    hide QuotaOk, Committing, Refusal, Enabled, Take, TxOk, Remaining, StaleOk, HasStale;
    CommitKeepsQuota(s, t);
    OneMoreLives(s, t);
    RemainingAndStale(s.store, r.stale, org);
    RemainingAndStale(Committing(s, t).store, r.stale, org);
    StaleCountIsWrong(Committing(s, t), org);
  }

  lemma {:induction false} OneMoreLives(s: System, t: TxId)
    requires QuotaOk(s) && At(s, t, Rechecked) && TxOk(s, t)
    requires s.txs[t].work.JobWork? && Refusal(s.store, s.txs[t]).None?
    ensures var org, s1 := s.txs[t].Org(), Committing(s, t);
            && s1.reconciler == s.reconciler && org in s1.store.core.usage && org in s.store.core.usage
            && StaleOk(s1.store, if s.reconciler.Idle? then {} else s.reconciler.stale)
            && |Active(s1.store.core.jobs, org)| == |Active(s.store.core.jobs, org)| + 1
  {
    var org, s1 := s.txs[t].Org(), Committing(s, t);
    CommitKeepsQuota(s, t);
    assert s.store.core.usage[org].active == |Active(s.store.core.jobs, org)|;
    assert s1.store.core.usage[org].active == |Active(s1.store.core.jobs, org)|;
    hide Active, Claimable, Claimed, Remember, JobAllowed, LedgerExact, Metered;
  }

  predicate NoReconcileCommit(moves: seq<Move>) { forall i :: 0 <= i < |moves| ==> !moves[i].ReconcileCommit? }

  lemma {:induction false} UncommittedIsQuiet(store: Store, moves: seq<Move>)
    requires Run(store, moves).Some? && NoReconcileCommit(moves)
    ensures AllQuiet(store, moves)
  {
    if moves != [] { UncommittedIsQuiet(store, moves[..|moves| - 1]); }
  }

  /** A submission nobody is in the way of, up to its commit. */
  lemma {:induction false} GoesAhead(store: Store, before: seq<Move>, t: TxId, tx: Tx) returns (moves: seq<Move>)
    requires Run(store, before).Some? && NoReconcileCommit(before)
    requires var s := Run(store, before).value; s.txs == map[] && s.phases == map[] && s.reconciler.Counted?
    requires tx.idem.None? && Lawful(tx.AsStep()) && forall i :: 0 <= i < |before| ==> LawfulMove(before[i])
    ensures Run(store, moves).Some? && NoReconcileCommit(moves) && forall i :: 0 <= i < |moves| ==> LawfulMove(moves[i])
    ensures var s := Run(store, before).value;
            Run(store, moves).value == s.(txs := map[t := tx], phases := map[t := Rechecked])
  {
    hide Run, Lawful;
    RunAppend(store, before, Begin(t, tx));
    moves := before + [Begin(t, tx)];
    RunAppend(store, moves, Look(t));
    moves := moves + [Look(t)];
    assert LockFree(Run(store, moves).value, tx.Org());
    RunAppend(store, moves, Lock(t));
    moves := moves + [Lock(t)];
    RunAppend(store, moves, LookAgain(t));
    moves := moves + [LookAgain(t)];
  }

  const Old: Key := Key(0, 1)
  const Young: Key := Key(0, 2)

  function LiveJob(updatedAt: int): Job { Job(Received, 1, 0, None, None, None, updatedAt) }

  /** One organization with two live jobs, one of them silent for long. */
  function TwoJobs(): Store {
    Store(Core(map[Old := LiveJob(0), Young := LiveJob(9000)], map[0 := Usage(2, 0, 0)], {}),
          map[0 := Policy(10, 10, 1, 10)], map[], {}, map[], map[], map[], map[], map[])
  }

  lemma {:induction false} TwoJobsAreSound()
    ensures Balanced(TwoJobs().core) && WithinLimits(TwoJobs())
    ensures Stale(TwoJobs(), Cutoff(9000, 1000)) == {Old}
  {
    assert Active(TwoJobs().core.jobs, 0) == {Old, Young};
  }

  lemma {:induction false} CountedAlone(store: Store, now: int, staleAfterMs: int) returns (moves: seq<Move>)
    ensures Run(store, moves).Some? && NoReconcileCommit(moves) && forall i :: 0 <= i < |moves| ==> LawfulMove(moves[i])
    ensures var stale := Stale(store, Cutoff(now, staleAfterMs));
            var base := Numbers(store, stale);
            Run(store, moves).value == Initial(store).(reconciler := Counted(now, stale, base, OffCounts(store, base)))
  {
    moves := [];
    assert Run(store, moves) == Some(Initial(store));
    hide Run, Stale, Numbers, OffCounts;
    RunAppend(store, moves, ReconcileFail(now, staleAfterMs));
    moves := moves + [ReconcileFail(now, staleAfterMs)];
    RunAppend(store, moves, ReconcileCount);
    moves := moves + [ReconcileCount];
  }

  lemma {:induction false} UnrefusedIsMetered(s: Store, tx: Tx)
    requires Refusal(s, tx).None?
    ensures tx.Org() in s.core.usage
  {
    hide JobAllowed, BatchAllowed, Claimable, InputsReady, Children;
  }

  /**
   It can happen wherever there is something to lose: in every sound store with
   a stale job in an organization that may submit another, the submission can be
   timed so that the counter ends up wrong.
   */
  lemma {:induction false} AnyReconciliationCanLoseAJob(store: Store, now: int, staleAfterMs: int, tx: Tx) returns (moves: seq<Move>)
    requires Balanced(store.core) && WithinLimits(store)
    requires HasStale(Stale(store, Cutoff(now, staleAfterMs)), tx.Org())
    requires tx.work.JobWork? && tx.idem.None? && Lawful(tx.AsStep()) && Refusal(store, tx).None?
    ensures Run(store, moves).Some? && forall i :: 0 <= i < |moves| ==> LawfulMove(moves[i])
    ensures !Balanced(Run(store, moves).value.store.core)
  {
    hide Refusal, Lawful, Balanced, WithinLimits, Run, Stale, Remaining, OffCounts, HasStale, AllQuiet, QuotaOk;
    UnrefusedIsMetered(store, tx);
    moves := CountedAlone(store, now, staleAfterMs);
    moves := GoesAhead(store, moves, 1, tx);
    UncommittedIsQuiet(store, moves);
    InterleavingsConserveQuota(store, moves);
    SubmitThenCommit(store, moves, Run(store, moves).value);
    moves := moves + [Commit(1)] + [ReconcileWrite] + [ReconcileCommit];
  }

  /**
   One such run: two live jobs, one stale; reconciliation counts one; a third
   is submitted before the counter can be written; one is written, two are live.
   */
  lemma {:induction false} ReconciliationCanLoseAJob() returns (store: Store, moves: seq<Move>)
    ensures Balanced(store.core) && WithinLimits(store)
    ensures Run(store, moves).Some? && forall i :: 0 <= i < |moves| ==> LawfulMove(moves[i])
    ensures !Balanced(Run(store, moves).value.store.core)
  {
    store := TwoJobs();
    TwoJobsAreSound();
    var tx := Tx(JobWork(NewJob(0, 3, LiveJob(9000), [], 9000)), None, true);
    assert Refusal(store, tx).None? by { assert Claimable(map[], 0, []) == {}; }
    assert HasStale({Old}, 0) by { assert Old in {Old}; }
    hide Balanced, WithinLimits, Run, LawfulMove, Stale;
    moves := AnyReconciliationCanLoseAJob(store, 9000, 1000, tx);
  }

  lemma {:induction false} SubmitThenCommit(store: Store, moves: seq<Move>, s: System)
    requires Run(store, moves) == Some(s) && QuotaOk(s) && s.reconciler.Counted? && s.txs.Keys == {1} && At(s, 1, Rechecked)
    requires s.txs[1].idem.None? && s.txs[1].work.JobWork? && Refusal(s.store, s.txs[1]).None?
    requires var r, org := s.reconciler, s.txs[1].Org();
             HasStale(r.stale, org) && org in r.base && r.base[org] == |Remaining(s.store, r.stale, org)|
    ensures var all := moves + [Commit(1)] + [ReconcileWrite] + [ReconcileCommit];
            Run(store, all).Some? && !Balanced(Run(store, all).value.store.core)
  {
    hide Run, QuotaOk, Refusal, Remaining, HasStale, Balanced;
    RunAppend(store, moves, Commit(1));
    var s1 := Committing(s, 1);
    assert forall t :: t in s1.txs ==> !Holds(s1, t);
    hide Committing;
    CommitKeepsReconciler(s, 1);
    RunAppend(store, moves + [Commit(1)], ReconcileWrite);
    RunAppend(store, moves + [Commit(1)] + [ReconcileWrite], ReconcileCommit);
    SubmissionInBetweenBreaksTheCount(s, 1);
  }

  lemma {:induction false} CommitKeepsReconciler(s: System, t: TxId)
    requires t in s.txs
    ensures Committing(s, t).reconciler == s.reconciler
  {
    hide Refusal, Inserted;
  }
}
