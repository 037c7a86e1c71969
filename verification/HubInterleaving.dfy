/**
 What runs of whole transactions keep about dispatch and about the period quota,
 interleavings keep as well: submissions split at their lock, reconciliation
 split at its counts, disturbed or not.
 */
module HubInterleaving {
  import opened Collections
  import opened JobStates
  import opened HubTables
  import opened HubStore
  import opened HubIdempotency
  import opened HubReconcile
  import D = HubDispatch
  import P = HubPeriod

  // ----- What a reconciliation holds stays live -----

  ghost predicate HeldIsLive(s: System) { StaleOk(s.store, HeldJobs(s.reconciler)) }

  lemma {:induction false} CommitKeepsHeld(s: System, t: TxId)
    requires HeldIsLive(s) && At(s, t, Rechecked) && TxOk(s, t)
    ensures HeldIsLive(Committing(s, t))
  {
    CommitIsAtomic(s, t);
    CommitKeepsReconciler(s, t);
    hide Committing, Apply, TxOk;
    var stale := HeldJobs(s.reconciler);
    forall key | key in stale
      ensures SameEntry(s.store.core.jobs, Committing(s, t).store.core.jobs, key)
    {
      SubmissionKeepsJobs(s.store, s.txs[t], key);
    }
  }

  lemma {:induction false} MoveKeepsHeld(s: System, move: Move)
    requires HeldIsLive(s) && Enabled(s, move) && (move.Commit? ==> TxOk(s, move.tx))
    ensures HeldIsLive(Take(s, move))
  {
    if move.Commit? {
      hide HeldIsLive, TxOk;
      CommitKeepsHeld(s, move.tx);
    } else {
      hide Apply, Reconciled, Numbers, OffCounts, OffZeros, Answer;
    }
  }

  lemma {:induction false} MoveKeepsLawful(s: System, move: Move)
    requires AllTxsLawful(s) && Enabled(s, move) && LawfulMove(move)
    ensures AllTxsLawful(Take(s, move))
  {
    hide Apply, Lawful, Answer, Refusal, Inserted, Stale, Numbers, OffCounts, OffZeros, Reconciled;
  }

  ghost predicate AllLawful(moves: seq<Move>) { forall i :: 0 <= i < |moves| ==> LawfulMove(moves[i]) }

  lemma {:induction false} RunKeepsHeld(store: Store, moves: seq<Move>)
    requires Run(store, moves).Some? && AllLawful(moves)
    ensures HeldIsLive(Run(store, moves).value) && AllTxsLawful(Run(store, moves).value)
  {
    if moves != [] {
      var before, last := moves[..|moves| - 1], moves[|moves| - 1];
      RunKeepsHeld(store, before);
      HubIdempotency.RunKeepsInv(store, before);
      assert LawfulMove(last);
      var s := Run(store, before).value;
      hide HeldIsLive, AllTxsLawful, LawfulMove, Enabled, Take, HubIdempotency.Inv;
      if last.Commit? { CommitterIsOk(s, store, last); }
      MoveKeepsHeld(s, last);
      MoveKeepsLawful(s, last);
    }
  }

  /** The transaction a move completes, if it does. */
  function Completed(s: System, move: Move): Option<Step> {
    match move
    case Commit(t) => if t in s.txs then Some(s.txs[t].AsStep()) else None
    case Background(step) => Some(step)
    case _ => None
  }

  /** Moves do what the transactions they complete do, and otherwise nothing; reconciliation apart. */
  lemma {:induction false} MoveIsItsTransaction(s: System, move: Move)
    requires Enabled(s, move) && !move.ReconcileCommit? && (move.Commit? ==> TxOk(s, move.tx))
    ensures Take(s, move).store ==
            if Completed(s, move).Some? then Apply(s.store, Completed(s, move).value) else s.store
  {
    if move.Commit? { CommitIsAtomic(s, move.tx); }
    hide Apply, Committing, Answer, TxOk;
  }

  lemma {:induction false} CompletedIsLawful(s: System, move: Move)
    requires AllTxsLawful(s) && LawfulMove(move)
    ensures Completed(s, move).Some? ==> Lawful(Completed(s, move).value)
  {
    hide Lawful;
  }

  // ----- Dispatch -----

  ghost function Followed(t: D.Tracked, s: System, move: Move): D.Tracked {
    if move.ReconcileCommit? && s.reconciler.Wrote? then t.(store := Reconciled(t.store, s.reconciler))
    else if Completed(s, move).Some? then D.Next(t, Completed(s, move).value)
    else t
  }

  /** The binds, early cancellations and claims of a run of moves. */
  ghost function Trail(t: D.Tracked, moves: seq<Move>): D.Tracked
    requires Run(t.store, moves).Some?
  {
    if moves == [] then t
    else
      var before := moves[..|moves| - 1];
      Followed(Trail(t, before), Run(t.store, before).value, moves[|moves| - 1])
  }

  /** Failing live jobs takes nothing from the queue, the outbox or a job's identity. */
  lemma {:induction false} ReconciledKeepsKey(t: D.Tracked, r: Reconciler, key: Key)
    requires r.Wrote? && D.KeyOk(t, key) && StaleOk(t.store, r.stale)
    ensures D.KeyOk(t.(store := Reconciled(t.store, r)), key)
  {
    hide CountersWritten, D.Spaced;
  }

  lemma {:induction false} FollowedKeepsInv(t: D.Tracked, s: System, move: Move)
    requires D.Inv(t) && t.store == s.store && HeldIsLive(s) && AllTxsLawful(s)
    requires Enabled(s, move) && LawfulMove(move) && (move.Commit? ==> TxOk(s, move.tx))
    ensures D.Inv(Followed(t, s, move)) && Followed(t, s, move).store == Take(s, move).store
  {
    if move.ReconcileCommit? {
      hide D.KeyOk, Reconciled;
      forall key ensures D.KeyOk(Followed(t, s, move), key) {
        assert D.KeyOk(t, key);
        ReconciledKeepsKey(t, s.reconciler, key);
      }
    } else {
      hide D.Inv, Enabled, Take, LawfulMove, AllTxsLawful, Completed, Apply, TxOk, HeldIsLive;
      MoveIsItsTransaction(s, move);
      CompletedIsLawful(s, move);
      if Completed(s, move).Some? { D.StepKeepsInv(t, Completed(s, move).value); }
    }
  }

  lemma {:induction false} TrailKeepsInv(t: D.Tracked, moves: seq<Move>)
    requires D.Inv(t) && Run(t.store, moves).Some? && AllLawful(moves)
    ensures D.Inv(Trail(t, moves)) && Trail(t, moves).store == Run(t.store, moves).value.store
  {
    if moves != [] {
      var before, last := moves[..|moves| - 1], moves[|moves| - 1];
      TrailKeepsInv(t, before);
      RunKeepsHeld(t.store, before);
      HubIdempotency.RunKeepsInv(t.store, before);
      assert LawfulMove(last);
      var s := Run(t.store, before).value;
      hide D.Inv, HeldIsLive, AllTxsLawful, LawfulMove, Enabled, Take, HubIdempotency.Inv, Followed;
      if last.Commit? { CommitterIsOk(s, t.store, last); }
      FollowedKeepsInv(Trail(t, before), s, last);
    }
  }

  /**
   Dispatch safety under every interleaving: a batch child is bound at most once,
   never both bound and cancelled before dispatch, has its own outbox row and no
   other exactly when it was bound, and its queue row exactly until then.
   */
  lemma {:induction false} ChildrenAreDispatchedOnce(t: D.Tracked, moves: seq<Move>, key: Key)
    requires D.Inv(t) && Run(t.store, moves).Some? && AllLawful(moves)
    requires var jobs := Run(t.store, moves).value.store.core.jobs; key in jobs && jobs[key].batch.Some?
    ensures var t', s := Trail(t, moves), Run(t.store, moves).value.store;
            && D.Times(t'.bound, key) <= 1
            && !(D.Times(t'.bound, key) == 1 && key in t'.cancelled)
            && (forall attempt :: OutboxKey(key, attempt) in s.outbox <==>
                  D.Times(t'.bound, key) == 1 && attempt == s.core.jobs[key].attempt)
            && (key in s.queue <==> D.Times(t'.bound, key) == 0 && key !in t'.cancelled)
            && (s.core.jobs[key].state.Queued? ==> key in s.queue)
  {
    TrailKeepsInv(t, moves);
    assert D.KeyOk(Trail(t, moves), key);
    hide Run, Trail;
  }

  /** Claims of one row stay a lease apart. */
  lemma {:induction false} ClaimsAreSpaced(t: D.Tracked, moves: seq<Move>, key: Key, i: nat, j: nat)
    requires D.Inv(t) && Run(t.store, moves).Some? && AllLawful(moves) && i < j < |D.ClaimsOf(Trail(t, moves), key)|
    ensures var claims := D.ClaimsOf(Trail(t, moves), key);
            claims[j].at - claims[i].at > if claims[i].leaseSeconds < 0 then 0 else 1000 * claims[i].leaseSeconds
  {
    TrailKeepsInv(t, moves);
    assert D.KeyOk(Trail(t, moves), key);
    hide Run, Trail;
    D.LeasesFollow(D.ClaimsOf(Trail(t, moves), key), i, j);
  }

  // ----- The period quota -----

  /** The submissions of a run of moves, in the order they commit. */
  ghost function Submissions(store: Store, moves: seq<Move>): seq<Step>
    requires Run(store, moves).Some?
  {
    if moves == [] then []
    else
      var before, last := moves[..|moves| - 1], moves[|moves| - 1];
      Submissions(store, before)
      + if last.Commit? && Completed(Run(store, before).value, last).Some?
        then [Completed(Run(store, before).value, last).value] else []
  }

  ghost function Noted(log: seq<P.Admission>, s: System, move: Move, org: Org): seq<P.Admission> {
    if Completed(s, move).Some? && org in Apply(s.store, Completed(s, move).value).core.usage
    then P.Noted(log, s.store, Completed(s, move).value, org) else log
  }

  /** The admissions of a run of moves, in order. */
  ghost function Log(store: Store, moves: seq<Move>, org: Org): seq<P.Admission>
    requires Run(store, moves).Some?
  {
    if moves == [] then []
    else
      var before := moves[..|moves| - 1];
      Noted(Log(store, before, org), Run(store, before).value, moves[|moves| - 1], org)
  }

  lemma {:induction false} ReconciledKeepsPeriod(s: Store, r: Reconciler, org: Org)
    requires r.Wrote?
    ensures P.SamePeriod(s.core.usage, Reconciled(s, r).core.usage, org) && Reconciled(s, r).policies == s.policies
  {
    hide FailAll;
  }

  function Ticked(clock: int, s: System, move: Move, org: Org): int {
    if move.Commit? && Completed(s, move).Some? then P.Tick(clock, Completed(s, move).value, org) else clock
  }

  lemma {:induction false} MoveKeepsPeriod(s: System, move: Move, org: Org, log: seq<P.Admission>, lag: nat, clock: int)
    requires org in s.store.core.usage && org in s.store.policies && lag < P.Period(s.store.policies[org])
    requires P.Inv(s.store.policies[org], s.store.core.usage[org], log, lag, clock)
    requires AllTxsLawful(s) && Enabled(s, move) && LawfulMove(move) && (move.Commit? ==> TxOk(s, move.tx))
    requires move.Commit? && Completed(s, move).Some? && P.SubmitsFor(Completed(s, move).value, org) ==>
               clock <= P.At(Completed(s, move).value) + lag
    ensures var s' := Take(s, move).store;
            && org in s'.core.usage && s'.policies == s.store.policies
            && P.Inv(s'.policies[org], s'.core.usage[org], Noted(log, s, move, org), lag, Ticked(clock, s, move, org))
  {
    if move.ReconcileCommit? {
      ReconciledKeepsPeriod(s.store, s.reconciler, org);
      hide Reconciled, P.Inv;
      P.SamePeriodKeepsInv(s.store.policies[org], s.store.core.usage[org], Take(s, move).store.core.usage[org], log, lag, clock, clock);
    } else {
      if !move.Commit? && Completed(s, move).Some? { BackgroundSubmitsNothing(s, move); }
      hide Enabled, Take, LawfulMove, AllTxsLawful, Completed, Apply, TxOk, P.Inv, P.Noted;
      MoveIsItsTransaction(s, move);
      CompletedIsLawful(s, move);
      if Completed(s, move).Some? {
        UsageRowsStay(s.store, Completed(s, move).value);
        P.StepKeepsPeriod(s.store, Completed(s, move).value, org, log, lag, clock);
      }
    }
  }

  lemma {:induction false} BackgroundSubmitsNothing(s: System, move: Move)
    requires Enabled(s, move) && !move.Commit? && Completed(s, move).Some?
    ensures !Submits(Completed(s, move).value)
  {
  }

  lemma {:induction false} RunKeepsPeriod(store: Store, moves: seq<Move>, org: Org, lag: nat)
    requires P.FreshQuota(store, org) && lag < P.Period(store.policies[org])
    requires Run(store, moves).Some? && AllLawful(moves)
    requires P.ClockRuns(store.core.usage[org].periodStartedAt, Submissions(store, moves), org, lag)
    ensures var s := Run(store, moves).value.store;
            && org in s.core.usage && s.policies == store.policies
            && P.Inv(store.policies[org], s.core.usage[org], Log(store, moves, org), lag,
                     P.Clock(store.core.usage[org].periodStartedAt, Submissions(store, moves), org))
  {
    var start := store.core.usage[org].periodStartedAt;
    if moves != [] {
      var before, last := moves[..|moves| - 1], moves[|moves| - 1];
      var s, subs := Run(store, before).value, Submissions(store, before);
      var step := Completed(s, last);
      assert LawfulMove(last);
      hide Enabled, Take, LawfulMove, Completed, P.Inv, P.Tick, Noted, P.FreshQuota;
      if last.Commit? && step.Some? { ClockRunsBefore(start, subs, step.value, org, lag); }
      else { assert subs + [] == subs; }
      RunKeepsPeriod(store, before, org, lag);
      RunKeepsHeld(store, before);
      HubIdempotency.RunKeepsInv(store, before);
      hide AllTxsLawful, HubIdempotency.Inv, HeldIsLive, P.ClockRuns;
      if last.Commit? { CommitterIsOk(s, store, last); }
      MoveKeepsPeriod(s, last, org, Log(store, before, org), lag, P.Clock(start, subs, org));
    }
  }

  lemma {:induction false} ClockRunsBefore(start: int, subs: seq<Step>, step: Step, org: Org, lag: nat)
    requires P.ClockRuns(start, subs + [step], org, lag)
    ensures P.ClockRuns(start, subs, org, lag) && (P.SubmitsFor(step, org) ==> P.Clock(start, subs, org) <= P.At(step) + lag)
    ensures P.Clock(start, subs + [step], org) == P.Tick(P.Clock(start, subs, org), step, org)
  {
    var all := subs + [step];
    assert all[..|subs|] == subs && all[|subs|] == step;
    forall i | 0 <= i < |subs| && P.SubmitsFor(subs[i], org) ensures P.Clock(start, subs[..i], org) <= P.At(subs[i]) + lag {
      assert all[..i] == subs[..i] && all[i] == subs[i];
    }
  }

  /**
   The period bound under every interleaving: however far submissions are
   delayed between reading the clock and committing, up to `lag`, any stretch of
   one period short of twice that admits at most twice the limit.
   */
  lemma {:induction false} AnyPeriodIsBounded(store: Store, moves: seq<Move>, org: Org, lag: nat, from: int)
    requires P.FreshQuota(store, org) && Run(store, moves).Some? && AllLawful(moves)
    requires P.ClockRuns(store.core.usage[org].periodStartedAt, Submissions(store, moves), org, lag)
    ensures P.Within(Log(store, moves, org), from, P.Period(store.policies[org]) - 2 * lag)
            <= 2 * Max(0, store.policies[org].maxPerPeriod)
  {
    hide P.Inv, Run, Log, AllLawful, P.ClockRuns, Submissions;
    var policy, log := store.policies[org], Log(store, moves, org);
    if lag < P.Period(policy) {
      RunKeepsPeriod(store, moves, org, lag);
      P.LogIsBounded(policy, Run(store, moves).value.store.core.usage[org], log, lag,
                     P.Clock(store.core.usage[org].periodStartedAt, Submissions(store, moves), org), from);
    } else {
      P.NoStretch(log, from, P.Period(policy) - 2 * lag);
    }
  }
}
