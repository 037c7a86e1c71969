/**
 Dispatch of batch children: whatever schedulers, cancellations, events and
 reconciliation do in whatever order, a child goes to at most one worker.
 */
module HubDispatch {
  import opened Collections
  import opened JobStates
  import opened HubTables
  import opened HubStore

  /** When a row was claimed, and for how many seconds. */
  datatype Claim = Claim(at: int, leaseSeconds: int) {
    /** The last moment of the lease, in milliseconds. */
    function Until(): int { if leaseSeconds < 0 then at else at + 1000 * leaseSeconds }
  }

  /** The store, and what has happened to each job: binds, early cancellations, claims. */
  datatype Tracked = Tracked(store: Store, bound: map<Key, nat>, cancelled: set<Key>, claims: map<Key, seq<Claim>>)

  function Times(bound: map<Key, nat>, key: Key): nat { if key in bound then bound[key] else 0 }

  function ClaimsOf(t: Tracked, key: Key): seq<Claim> { if key in t.claims then t.claims[key] else [] }

  predicate Claims(s: Store, step: Step) {
    step.ClaimJob? && step.key in s.queue && Dispatchable(s.queue[step.key], step.now)
  }

  function Next(t: Tracked, step: Step): Tracked {
    Tracked(Apply(t.store, step),
            if step.BindJob? && IsQueued(t.store, step.key)
              then t.bound[step.key := Times(t.bound, step.key) + 1] else t.bound,
            if step.CancelJob? && IsQueued(t.store, step.key) then t.cancelled + {step.key} else t.cancelled,
            if Claims(t.store, step)
              then t.claims[step.key := ClaimsOf(t, step.key) + [Claim(step.now, step.leaseSeconds)]]
              else t.claims)
  }

  // ----- Invariant -----

  /** A batch child: bound at most once, never bound and cancelled early, in the outbox exactly when bound. */
  ghost predicate ChildOk(t: Tracked, key: Key)
    requires key in t.store.core.jobs
  {
    var job := t.store.core.jobs[key];
    var bound := Times(t.bound, key);
    && bound <= 1
    && (job.state.Queued? ==> bound == 0 && key !in t.cancelled)
    && (bound == 1 ==> key !in t.cancelled)
    && (key in t.store.queue <==> bound == 0 && key !in t.cancelled)
    && (forall attempt :: OutboxKey(key, attempt) in t.store.outbox <==> bound == 1 && attempt == job.attempt)
  }

  /** A job nobody has submitted yet has left no trace. */
  ghost predicate Unknown(t: Tracked, key: Key) {
    && Times(t.bound, key) == 0 && key !in t.cancelled && key !in t.store.queue && ClaimsOf(t, key) == []
    && (forall attempt :: OutboxKey(key, attempt) !in t.store.outbox)
  }

  /** Each claim begins after the lease before it has run out. */
  ghost predicate Spaced(claims: seq<Claim>) {
    forall i :: 0 < i < |claims| ==> claims[i - 1].Until() < claims[i].at
  }

  /** The row remembers the latest lease. */
  ghost predicate LeaseOk(t: Tracked, key: Key) {
    var claims := ClaimsOf(t, key);
    && Spaced(claims)
    && (key in t.store.queue && claims != [] ==> t.store.queue[key].leaseUntil == Some(claims[|claims| - 1].Until()))
  }

  ghost predicate KeyOk(t: Tracked, key: Key) {
    && LeaseOk(t, key)
    && (key !in t.store.core.jobs ==> Unknown(t, key))
    && (key in t.store.core.jobs && t.store.core.jobs[key].batch.Some? ==> ChildOk(t, key))
  }

  ghost predicate Inv(t: Tracked) { forall key :: KeyOk(t, key) }

  // ----- Submissions -----

  /** What inserting the children does to any one key. */
  lemma {:induction false} ChildrenAdd(jobs: map<Key, Job>, queue: map<Key, QueueRow>, batch: NewBatch, n: nat, key: Key)
    requires n <= |batch.children| && Children(jobs, queue, batch, n).Some?
    ensures var (jobs', queue') := Children(jobs, queue, batch, n).value;
            || (SameEntry(jobs, jobs', key) && SameEntry(queue, queue', key))
            || (key !in jobs && key !in queue && key in jobs' && key in queue'
                && jobs'[key] == ChildJob(batch.id, batch.now) && queue'[key].leaseUntil.None?)
  {
    if n > 0 { ChildrenAdd(jobs, queue, batch, n - 1, key); }
  }

  lemma {:induction false} BatchKeepsKey(t: Tracked, batch: NewBatch, idem: Option<Idempotency>, admitted: bool, key: Key)
    requires KeyOk(t, key)
    ensures KeyOk(Next(t, SubmitBatch(batch, idem, admitted)), key)
  {
    var s := t.store;
    if CommitBatch(s, batch, idem, admitted).1 == Ok(Created) {
      ChildrenAdd(s.core.jobs, s.queue, batch, |batch.children|, key);
    }
    hide Children, BatchAllowed, InputsReady, Replayed, Remember, Spaced;
  }

  lemma {:induction false} JobKeepsKey(t: Tracked, input: NewJob, idem: Option<Idempotency>, admitted: bool, key: Key)
    requires KeyOk(t, key) && input.job.batch.None?
    ensures KeyOk(Next(t, SubmitJob(input, idem, admitted)), key)
  {
    hide JobAllowed, Claimable, Claimed, Replayed, Remember, Spaced;
  }

  // ----- The other transactions -----

  lemma {:induction false} BindKeepsKey(t: Tracked, step: Step, key: Key)
    requires KeyOk(t, key) && step.BindJob?
    ensures KeyOk(Next(t, step), key)
  {
    hide Spaced;
  }

  lemma {:induction false} CancelKeepsKey(t: Tracked, step: Step, key: Key)
    requires KeyOk(t, key) && step.CancelJob?
    ensures KeyOk(Next(t, step), key)
  {
    hide Spaced, Settle;
    if step.key in t.store.core.jobs {
      SettleWrites(t.store.core, step.key, t.store.core.jobs[step.key].(state := Cancelled, updatedAt := step.now));
    }
  }

  lemma {:induction false} ClaimKeepsKey(t: Tracked, step: Step, key: Key)
    requires KeyOk(t, key) && step.ClaimJob?
    ensures KeyOk(Next(t, step), key)
  {
  }

  predicate Dispatches(step: Step) { step.BindJob? || step.CancelJob? || step.ClaimJob? }

  lemma {:induction false} OthersKeepKey(t: Tracked, step: Step, key: Key)
    requires KeyOk(t, key) && Lawful(step) && !Submits(step) && !Dispatches(step)
    ensures KeyOk(Next(t, step), key)
  {
    DispatchTablesStay(t.store, step);
    JobsOnlyAdvance(t.store, step, key);
    hide Apply, Spaced;
  }

  lemma {:induction false} DispatchTablesStay(s: Store, step: Step)
    requires !Submits(step) && !Dispatches(step)
    ensures Apply(s, step).queue == s.queue && Apply(s, step).outbox == s.outbox
  {
  }

  lemma {:induction false} StepKeepsInv(t: Tracked, step: Step)
    requires Inv(t) && Lawful(step)
    ensures Inv(Next(t, step))
  {
    hide KeyOk;
    forall key ensures KeyOk(Next(t, step), key) {
      assert KeyOk(t, key);
      match step
      case SubmitJob(input, idem, admitted) => JobKeepsKey(t, input, idem, admitted, key);
      case SubmitBatch(batch, idem, admitted) => BatchKeepsKey(t, batch, idem, admitted, key);
      case BindJob(_, _, _, _) => BindKeepsKey(t, step, key);
      case CancelJob(_, _) => CancelKeepsKey(t, step, key);
      case ClaimJob(_, _, _) => ClaimKeepsKey(t, step, key);
      case _ => OthersKeepKey(t, step, key);
    }
  }

  // ----- Every run -----

  function Run(t: Tracked, steps: seq<Step>): Tracked {
    if steps == [] then t else Next(Run(t, steps[..|steps| - 1]), steps[|steps| - 1])
  }

  lemma {:induction false} RunKeepsInv(t: Tracked, steps: seq<Step>)
    requires Inv(t) && forall i :: 0 <= i < |steps| ==> Lawful(steps[i])
    ensures Inv(Run(t, steps)) && Run(t, steps).store == After(t.store, steps)
  {
    hide Inv, Lawful;
    if steps != [] {
      RunKeepsInv(t, steps[..|steps| - 1]);
      StepKeepsInv(Run(t, steps[..|steps| - 1]), steps[|steps| - 1]);
    }
  }

  /**
   Dispatch safety: over every run a batch child is bound at most once, never
   both bound and cancelled before dispatch, and has an outbox row, its own and
   only one, exactly when it was bound. It keeps its queue row exactly until it
   is bound or cancelled, so certainly while it is queued.
   */
  lemma {:induction false} ChildrenAreDispatchedOnce(t: Tracked, steps: seq<Step>, key: Key)
    requires Inv(t) && forall i :: 0 <= i < |steps| ==> Lawful(steps[i])
    requires key in Run(t, steps).store.core.jobs && Run(t, steps).store.core.jobs[key].batch.Some?
    ensures var t' := Run(t, steps);
            var s := t'.store;
            && s == After(t.store, steps)
            && Times(t'.bound, key) <= 1
            && !(Times(t'.bound, key) == 1 && key in t'.cancelled)
            && (forall attempt :: OutboxKey(key, attempt) in s.outbox <==>
                  Times(t'.bound, key) == 1 && attempt == s.core.jobs[key].attempt)
            && (key in s.queue <==> Times(t'.bound, key) == 0 && key !in t'.cancelled)
            && (s.core.jobs[key].state.Queued? ==> key in s.queue)
  {
    RunKeepsInv(t, steps);
    assert KeyOk(Run(t, steps), key);
  }

  /**
   A queue row does not mean a queued child: reconciliation fails a child that
   has waited too long and leaves its row.
   */
  lemma {:induction false} FailedChildKeepsItsRow() returns (t: Tracked, steps: seq<Step>, key: Key)
    ensures Inv(t) && Balanced(t.store.core) && WithinLimits(t.store)
    ensures forall i :: 0 <= i < |steps| ==> Lawful(steps[i])
    ensures var s := After(t.store, steps);
            && key in s.core.jobs && s.core.jobs[key].batch.Some?
            && s.core.jobs[key].state.Failed? && key in s.queue
  {
    var usage, policy := map[0 := Usage(0, 0, 0)], map[0 := Policy(1, 1, 1, 1)];
    var s := Store(Core(map[], usage, {}), policy, map[], {}, map[], map[], map[], map[], map[]);
    t, key := Tracked(s, map[], {}, map[]), Key(0, 7);
    EmptyStoreIsBalanced(s);
    EmptyStoreIsTracked(s);
    var batch := NewBatch(0, 5, 1, [7], [], 0);
    hide Inv, Balanced, WithinLimits;
    SilentChildFails(s, batch, 5000, 1000);
    steps := [SubmitBatch(batch, None, true), ReconcileQuota(5000, 1000)];
  }

  /** A batch of one, then nothing until reconciliation. */
  lemma {:induction false} SilentChildFails(s: Store, batch: NewBatch, now: int, staleAfterMs: int)
    requires |batch.children| == 1 && batch.org in s.policies && batch.org in s.core.usage
    requires BatchAllowed(s.policies[batch.org], s.core.usage[batch.org], batch.totalJobs, batch.now)
    requires batch.sharedInputs == [] && s.core.jobs == map[] && s.queue == map[]
    requires batch.now <= now - Max(1000, staleAfterMs)
    ensures var s', key := After(s, [SubmitBatch(batch, None, true), ReconcileQuota(now, staleAfterMs)]), Key(batch.org, batch.children[0]);
            && key in s'.core.jobs && s'.core.jobs[key].batch.Some?
            && s'.core.jobs[key].state.Failed? && key in s'.queue
  {
    var submit, reconcile := SubmitBatch(batch, None, true), ReconcileQuota(now, staleAfterMs);
    OneChild(s, batch);
    hide CommitBatch, Reconcile;
    assert [submit, reconcile][..1] == [submit] && [submit][..0] == [];
    var s' := After(s, [submit]);
    assert s' == Apply(After(s, []), submit) == CommitBatch(s, batch, None, true).0;
    assert After(s, [submit, reconcile]) == Reconcile(s', now, staleAfterMs);
    ReconcileFailsTheSilent(s', now, staleAfterMs, Key(batch.org, batch.children[0]));
    DispatchTablesStay(s', reconcile);
  }

  lemma {:induction false} OneChild(s: Store, batch: NewBatch)
    requires |batch.children| == 1
    requires batch.org in s.policies && batch.org in s.core.usage
    requires BatchAllowed(s.policies[batch.org], s.core.usage[batch.org], batch.totalJobs, batch.now)
    requires batch.sharedInputs == [] && s.core.jobs == map[] && s.queue == map[]
    ensures var key, s' := Key(batch.org, batch.children[0]), CommitBatch(s, batch, None, true).0;
            && s'.core.jobs == map[key := ChildJob(batch.id, batch.now)] && key in s'.queue && s'.workers == s.workers
  {
    assert Children(s.core.jobs, s.queue, batch, 0) == Some((s.core.jobs, s.queue));
  }

  lemma {:induction false} EmptyStoreIsTracked(s: Store)
    requires s.core.jobs == map[] && s.queue == map[] && s.outbox == {}
    ensures Inv(Tracked(s, map[], {}, map[]))
  {
  }

  /** Any two claims of one row are more than the seconds asked for by the earlier one apart. */
  lemma {:induction false} ClaimsAreSpaced(t: Tracked, steps: seq<Step>, key: Key, i: nat, j: nat)
    requires Inv(t) && forall k :: 0 <= k < |steps| ==> Lawful(steps[k])
    requires i < j < |ClaimsOf(Run(t, steps), key)|
    ensures var claims := ClaimsOf(Run(t, steps), key);
            claims[j].at - claims[i].at > if claims[i].leaseSeconds < 0 then 0 else 1000 * claims[i].leaseSeconds
  {
    RunKeepsInv(t, steps);
    assert KeyOk(Run(t, steps), key);
    LeasesFollow(ClaimsOf(Run(t, steps), key), i, j);
  }

  lemma {:induction false} LeasesFollow(claims: seq<Claim>, i: nat, j: nat)
    requires Spaced(claims) && i < j < |claims|
    ensures claims[i].Until() < claims[j].at
    decreases j
  {
    if i < j - 1 { LeasesFollow(claims, i, j - 1); }
  }
}
