/**
 Concurrent transactions, statement by statement where it matters. A submission
 is an unlocked look at the idempotency records, the lock on the organization's
 usage row, a second look under the lock, and the commit. Reconciliation fails
 stale jobs, counts the live ones, writes the counters once their rows are free,
 and commits. Other transactions run between any two of these; one that needs a
 row somebody holds has to wait.
 */
module HubIdempotency {
  import opened Collections
  import opened JobStates
  import opened HubTables
  import opened HubStore

  type TxId = nat

  datatype Work = JobWork(input: NewJob) | BatchWork(batch: NewBatch)

  datatype Tx = Tx(work: Work, idem: Option<Idempotency>, admitted: bool) {
    function Org(): Org { if work.JobWork? then work.input.org else work.batch.org }

    function Id(): Name { if work.JobWork? then work.input.id else work.batch.id }

    /** The transaction as one indivisible submission. */
    function AsStep(): Step {
      if work.JobWork? then SubmitJob(work.input, idem, admitted) else SubmitBatch(work.batch, idem, admitted)
    }

    predicate UsesKey(slot: Slot) {
      idem.Some? && slot == Slot(work.BatchWork?, idem.value.For(Org()))
    }
  }

  /** A key of either kind of submission. */
  datatype Slot = Slot(forBatch: bool, request: Request)

  datatype Phase = Started | Passed | Locked | Rechecked | Finished(result: Result<Committed, Error>)

  /**
   A reconciliation under way; nothing of it shows before it commits. The live
   jobs it does not fail are numbered as it counts (`base`) and again when it has
   written the non-zero counters and looks for those to set to zero (`later`).
   */
  datatype Reconciler =
    | Idle
    | Failing(now: int, stale: set<Key>)
    | Counted(now: int, stale: set<Key>, base: map<Org, nat>, counts: map<Org, nat>)
    | Wrote(now: int, stale: set<Key>, base: map<Org, nat>, counts: map<Org, nat>, later: map<Org, nat>, zeros: set<Org>)

  datatype System = System(
    store: Store, txs: map<TxId, Tx>, phases: map<TxId, Phase>, winners: map<Slot, TxId>, reconciler: Reconciler)

  /** The usage rows a reconciliation has written and holds. */
  function HeldRows(r: Reconciler): set<Org> { if r.Wrote? then r.counts.Keys else {} }

  /** The job rows it has failed and holds. */
  function HeldJobs(r: Reconciler): set<Key> { if r.Idle? then {} else r.stale }

  /** An organization's live jobs, as the reconciliation sees them. */
  function Remaining(s: Store, stale: set<Key>, org: Org): set<Key> { Active(s.core.jobs, org) - stale }

  function Numbers(s: Store, stale: set<Key>): map<Org, nat> {
    map org | org in s.core.usage :: |Remaining(s, stale, org)|
  }

  /** The counters that are off and have jobs to count. */
  function OffCounts(s: Store, base: map<Org, nat>): map<Org, nat> {
    map org | org in s.core.usage && org in base && base[org] != 0 && base[org] != s.core.usage[org].active :: base[org]
  }

  /** The counters that are not zero, its own writes included, and have no jobs left to count. */
  function OffZeros(s: Store, counts: map<Org, nat>, later: map<Org, nat>): set<Org> {
    set org | org in s.core.usage && org in later && later[org] == 0
              && (if org in counts then counts[org] else s.core.usage[org].active) != 0
  }

  function CountersWritten(usage: map<Org, Usage>, counts: map<Org, nat>, zeros: set<Org>): map<Org, Usage> {
    map org | org in usage ::
      if org in zeros then usage[org].(active := 0)
      else if org in counts then usage[org].(active := counts[org])
      else usage[org]
  }

  function Reconciled(s: Store, r: Reconciler): Store
    requires r.Wrote?
  {
    s.(core := Core(FailAll(s.core.jobs, r.stale, r.now), CountersWritten(s.core.usage, r.counts, r.zeros),
                    s.core.ledger + r.stale))
  }

  function RecordsOf(s: Store, forBatch: bool): map<Request, Recorded> {
    if forBatch then s.batchRequests else s.jobRequests
  }

  function Answer(s: Store, tx: Tx): Option<Result<Committed, Error>> {
    Replayed(RecordsOf(s, tx.work.BatchWork?), tx.Org(), tx.idem)
  }

  function Refusal(s: Store, tx: Tx): Option<Error> {
    if tx.work.JobWork? then JobRefusal(s, tx.work.input, tx.admitted) else BatchRefusal(s, tx.work.batch, tx.admitted)
  }

  function Inserted(s: Store, tx: Tx): Store
    requires Refusal(s, tx).None?
  {
    if tx.work.JobWork? then JobCreated(s, tx.work.input, tx.idem) else BatchCreated(s, tx.work.batch, tx.idem)
  }

  /** What the transaction would do to this store if it ran all at once. */
  function Atomically(s: Store, tx: Tx): (Store, Result<Committed, Error>) {
    if tx.work.JobWork? then CommitJob(s, tx.work.input, tx.idem, tx.admitted)
    else CommitBatch(s, tx.work.batch, tx.idem, tx.admitted)
  }

  datatype Move =
    | Begin(tx: TxId, what: Tx)
    | Look(tx: TxId)
    | Lock(tx: TxId)
    | LookAgain(tx: TxId)
    | Commit(tx: TxId)
    | ReconcileFail(now: int, staleAfterMs: int)
    | ReconcileCount
    | ReconcileWrite
    | ReconcileCommit
    | Background(step: Step)

  predicate Holds(s: System, t: TxId) {
    t in s.phases && (s.phases[t].Locked? || s.phases[t].Rechecked?)
  }

  ghost predicate LockFree(s: System, org: Org) {
    forall t :: Holds(s, t) && t in s.txs ==> s.txs[t].Org() != org
  }

  predicate At(s: System, t: TxId, phase: Phase) { t in s.txs && t in s.phases && s.phases[t] == phase }

  ghost predicate Enabled(s: System, move: Move) {
    match move
    case Begin(t, _) => t !in s.txs
    case Look(t) => At(s, t, Started)
    case Lock(t) => At(s, t, Passed) && LockFree(s, s.txs[t].Org()) && s.txs[t].Org() !in HeldRows(s.reconciler)
    case LookAgain(t) => At(s, t, Locked)
    case Commit(t) => At(s, t, Rechecked)
    case ReconcileFail(_, _) => s.reconciler.Idle?
    case ReconcileCount => s.reconciler.Failing?
    case ReconcileWrite => s.reconciler.Counted? && forall org :: org in s.reconciler.counts ==> LockFree(s, org)
    case ReconcileCommit => s.reconciler.Wrote? && forall org :: org in s.reconciler.zeros ==> LockFree(s, org)
    case Background(step) =>
      && !Submits(step) && !step.ReconcileQuota?
      && MayRun(s, Apply(s.store, step).core)
  }

  /** A transaction that leads to these tables needs no row that somebody holds. */
  ghost predicate MayRun(s: System, core: Core) {
    && (forall t :: Holds(s, t) && t in s.txs ==> SameEntry(s.store.core.usage, core.usage, s.txs[t].Org()))
    && (forall org :: org in HeldRows(s.reconciler) ==> SameEntry(s.store.core.usage, core.usage, org))
    && (forall key :: key in HeldJobs(s.reconciler) ==> SameEntry(s.store.core.jobs, core.jobs, key))
  }

  function To(s: System, t: TxId, phase: Phase): System { s.(phases := s.phases[t := phase]) }

  function SlotOf(tx: Tx): Slot
    requires tx.idem.Some?
  {
    Slot(tx.work.BatchWork?, tx.idem.value.For(tx.Org()))
  }

  function Take(s: System, move: Move): System
    requires Enabled(s, move)
  {
    match move
    case Begin(t, tx) => s.(txs := s.txs[t := tx], phases := s.phases[t := Started])
    case Look(t) =>
      var answer := Answer(s.store, s.txs[t]);
      To(s, t, if answer.Some? then Finished(answer.value) else Passed)
    case Lock(t) => To(s, t, Locked)
    case LookAgain(t) =>
      var answer := Answer(s.store, s.txs[t]);
      To(s, t, if answer.Some? then Finished(answer.value) else Rechecked)
    case Commit(t) => Committing(s, t)
    case ReconcileFail(now, staleAfterMs) =>
      s.(reconciler := Failing(now, Stale(s.store, Cutoff(now, staleAfterMs))))
    case ReconcileCount =>
      var r := s.reconciler;
      var base := Numbers(s.store, r.stale);
      s.(reconciler := Counted(r.now, r.stale, base, OffCounts(s.store, base)))
    case ReconcileWrite =>
      var r := s.reconciler;
      var later := Numbers(s.store, r.stale);
      s.(reconciler := Wrote(r.now, r.stale, r.base, r.counts, later, OffZeros(s.store, r.counts, later)))
    case ReconcileCommit => s.(store := Reconciled(s.store, s.reconciler), reconciler := Idle)
    case Background(step) => s.(store := Apply(s.store, step))
  }

  function Committing(s: System, t: TxId): System
    requires t in s.txs
  {
    var tx := s.txs[t];
    var refusal := Refusal(s.store, tx);
    if refusal.Some? then To(s, t, Finished(Err(refusal.value)))
    else
      To(s, t, Finished(Ok(Created)))
      .(store := Inserted(s.store, tx),
        winners := if tx.idem.Some? then s.winners[SlotOf(tx) := t] else s.winners)
  }

  // ----- Invariant -----

  ghost predicate IsRecorded(s: Store, slot: Slot) { slot.request in RecordsOf(s, slot.forBatch) }

  function Record(s: Store, slot: Slot): Recorded
    requires IsRecorded(s, slot)
  {
    RecordsOf(s, slot.forBatch)[slot.request]
  }

  predicate DidCreate(s: System, t: TxId) { At(s, t, Finished(Ok(Created))) }

  /** What one transaction may rely on, and what it has promised its caller. */
  ghost predicate TxOk(s: System, t: TxId)
    requires t in s.txs && t in s.phases
  {
    var tx := s.txs[t];
    tx.idem.Some? ==>
      var slot := SlotOf(tx);
      && (s.phases[t].Rechecked? ==> !IsRecorded(s.store, slot))
      && (s.phases[t] == Finished(Ok(Created)) ==>
            && IsRecorded(s.store, slot) && Record(s.store, slot) == Recorded(tx.idem.value.hash, tx.Id())
            && slot in s.winners && s.winners[slot] == t)
      && (s.phases[t].Finished? && s.phases[t].result.Ok? && s.phases[t].result.value.Existing? ==>
            && IsRecorded(s.store, slot)
            && Record(s.store, slot) == Recorded(tx.idem.value.hash, s.phases[t].result.value.id))
  }

  /** Records made since the beginning were made by a transaction that created something. */
  ghost predicate SlotOk(s: System, before: Store, slot: Slot) {
    && (IsRecorded(before, slot) ==> IsRecorded(s.store, slot) && Record(s.store, slot) == Record(before, slot))
    && (slot in s.winners ==> !IsRecorded(before, slot) && s.winners[slot] in s.txs
                              && s.txs[s.winners[slot]].UsesKey(slot) && DidCreate(s, s.winners[slot]))
    && (IsRecorded(s.store, slot) && !IsRecorded(before, slot) ==> slot in s.winners)
  }

  /** Two transactions of one organization are never past the lock together. */
  ghost predicate Exclusive(s: System) {
    forall t, u :: Holds(s, t) && Holds(s, u) && t in s.txs && u in s.txs && s.txs[t].Org() == s.txs[u].Org() ==> t == u
  }

  ghost predicate Inv(s: System, before: Store) {
    && s.txs.Keys == s.phases.Keys
    && Exclusive(s)
    && (forall t :: t in s.txs ==> TxOk(s, t))
    && (forall slot :: SlotOk(s, before, slot))
  }

  // ----- The lock -----

  lemma {:induction false} MoveKeepsExclusive(s: System, move: Move)
    requires Exclusive(s) && s.txs.Keys == s.phases.Keys && Enabled(s, move)
    ensures Exclusive(Take(s, move)) && Take(s, move).txs.Keys == Take(s, move).phases.Keys
  {
    hide Apply, Answer, Refusal, Inserted;
  }

  // ----- Moves that leave the records alone -----

  ghost predicate SameRecords(s: Store, s': Store) {
    s'.jobRequests == s.jobRequests && s'.batchRequests == s.batchRequests
  }

  lemma {:induction false} UpdateKeepsRecords(s: Store, update: Update)
    ensures SameRecords(s, UpdateIfCurrent(s, update).0)
  {
    hide Settle, IsCurrent, UpdatedJob;
  }

  lemma {:induction false} EventKeepsRecords(s: Store, event: JobEvent)
    ensures SameRecords(s, ApplyEvent(s, event).0)
  {
    hide Settle, IsCurrent, EventedJob;
  }

  lemma {:induction false} BindKeepsRecords(s: Store, key: Key, worker: Key, session: Name, now: int)
    ensures SameRecords(s, Bind(s, key, worker, session, now).0)
  {
    hide IsQueued, BoundJob;
  }

  lemma {:induction false} CancelKeepsRecords(s: Store, key: Key, now: int)
    ensures SameRecords(s, CancelQueued(s, key, now).0)
  {
    hide Settle, IsQueued;
  }

  lemma {:induction false} BackgroundKeepsRecords(s: Store, step: Step)
    requires !Submits(step)
    ensures SameRecords(s, Apply(s, step))
  {
    hide UpdateIfCurrent, ApplyEvent, Bind, CancelQueued, Recount, FailAll, Dispatchable, Release;
    match step
    case UpdateJob(update) => UpdateKeepsRecords(s, update);
    case DeliverEvent(event) => EventKeepsRecords(s, event);
    case BindJob(key, worker, session, now) => BindKeepsRecords(s, key, worker, session, now);
    case CancelJob(key, now) => CancelKeepsRecords(s, key, now);
    case _ =>
  }

  lemma {:induction false} QuietTxStaysOk(s: System, s': System, u: TxId)
    requires u in s.txs && u in s.phases && TxOk(s, u) && SameRecords(s.store, s'.store)
    requires u in s'.txs && u in s'.phases && s'.txs[u] == s.txs[u] && s'.phases[u] == s.phases[u]
    requires s'.winners == s.winners
    ensures TxOk(s', u)
  {
  }

  lemma {:induction false} QuietSlotStaysOk(s: System, s': System, before: Store, slot: Slot)
    requires SlotOk(s, before, slot) && SameRecords(s.store, s'.store) && s'.winners == s.winners
    requires forall u :: DidCreate(s, u) ==> DidCreate(s', u) && s'.txs[u] == s.txs[u]
    ensures SlotOk(s', before, slot)
  {
  }

  lemma {:induction false} LookedTxIsOk(s: System, t: TxId, again: bool)
    requires t in s.txs && t in s.phases
    ensures var answer := Answer(s.store, s.txs[t]);
            TxOk(To(s, t, if answer.Some? then Finished(answer.value) else if again then Rechecked else Passed), t)
  {
  }

  lemma {:induction false} BeginKeepsInv(s: System, before: Store, t: TxId, tx: Tx)
    requires Inv(s, before) && t !in s.txs
    ensures Inv(Take(s, Begin(t, tx)), before)
  {
    MoveKeepsExclusive(s, Begin(t, tx));
    var s' := Take(s, Begin(t, tx));
    hide Exclusive;
    forall u | u in s'.txs ensures TxOk(s', u) {
      if u != t { QuietTxStaysOk(s, s', u); }
    }
    hide TxOk;
    forall slot ensures SlotOk(s', before, slot) {
      QuietSlotStaysOk(s, s', before, slot);
    }
  }

  /** A move of one transaction that changes nothing but its phase, before it has finished. */
  lemma {:induction false} PhaseKeepsInv(s: System, before: Store, t: TxId, phase: Phase)
    requires Inv(s, before) && t in s.txs && !s.phases[t].Finished?
    requires Exclusive(To(s, t, phase)) && TxOk(To(s, t, phase), t)
    ensures Inv(To(s, t, phase), before)
  {
    hide Exclusive, TxOk;
    var s' := To(s, t, phase);
    forall u | u in s'.txs ensures TxOk(s', u) {
      if u != t { QuietTxStaysOk(s, s', u); }
    }
    forall slot ensures SlotOk(s', before, slot) {
      QuietSlotStaysOk(s, s', before, slot);
    }
  }

  /** A move that leaves transactions and records alone. */
  lemma {:induction false} QuietMoveKeepsInv(s: System, s': System, before: Store)
    requires Inv(s, before) && SameRecords(s.store, s'.store)
    requires s'.txs == s.txs && s'.phases == s.phases && s'.winners == s.winners
    ensures Inv(s', before)
  {
    assert Exclusive(s') by { hide TxOk, SlotOk; }
    hide Exclusive, TxOk;
    forall u | u in s'.txs ensures TxOk(s', u) { QuietTxStaysOk(s, s', u); }
    forall slot ensures SlotOk(s', before, slot) { QuietSlotStaysOk(s, s', before, slot); }
  }

  // ----- The commit -----

  /** Only the submission's own key is recorded, in the table of its kind. */
  lemma {:induction false} InsertTables(s: Store, tx: Tx)
    requires Refusal(s, tx).None?
    ensures var s' := Inserted(s, tx);
            var records := Remember(RecordsOf(s, tx.work.BatchWork?), tx.Org(), tx.idem, tx.Id());
            if tx.work.BatchWork? then s'.batchRequests == records && s'.jobRequests == s.jobRequests
            else s'.jobRequests == records && s'.batchRequests == s.batchRequests
  {
    hide JobAllowed, BatchAllowed, Claimable, Claimed, Children, InputsReady, Remember;
  }

  lemma {:induction false} InsertRecords(s: Store, tx: Tx)
    requires Refusal(s, tx).None?
    ensures tx.idem.None? ==> SameRecords(s, Inserted(s, tx))
    ensures tx.idem.Some? ==>
              forall slot :: IsRecorded(Inserted(s, tx), slot) <==> slot == SlotOf(tx) || IsRecorded(s, slot)
    ensures tx.idem.Some? ==>
              forall slot :: IsRecorded(Inserted(s, tx), slot) ==>
                Record(Inserted(s, tx), slot) ==
                  if slot == SlotOf(tx) then Recorded(tx.idem.value.hash, tx.Id()) else Record(s, slot)
  {
    InsertTables(s, tx);
    hide Refusal, Inserted;
  }

  lemma {:induction false} CommittedTxStaysOk(s: System, s': System, t: TxId, u: TxId)
    requires s.txs.Keys == s.phases.Keys && Exclusive(s) && t in s.txs && u in s.txs && u != t
    requires s.phases[t].Rechecked? && TxOk(s, t) && TxOk(s, u)
    requires Refusal(s.store, s.txs[t]).None? && s' == Committing(s, t)
    ensures TxOk(s', u)
  {
    var tx := s.txs[t];
    InsertRecords(s.store, tx);
    hide Refusal, Inserted;
    if tx.idem.Some? && s.txs[u].idem.Some? && SlotOf(s.txs[u]) == SlotOf(tx) {
      assert s.txs[u].Org() == tx.Org();
      assert Holds(s, t);
      assert !Holds(s, u);
    }
  }

  lemma {:induction false} CommittedSlotStaysOk(s: System, s': System, before: Store, t: TxId, slot: Slot)
    requires t in s.txs && t in s.phases && s.phases[t].Rechecked? && TxOk(s, t) && SlotOk(s, before, slot)
    requires Refusal(s.store, s.txs[t]).None? && s' == Committing(s, t)
    ensures SlotOk(s', before, slot)
  {
    InsertRecords(s.store, s.txs[t]);
    hide Refusal, Inserted;
  }

  lemma {:induction false} CommitKeepsInv(s: System, before: Store, t: TxId)
    requires Inv(s, before) && Enabled(s, Commit(t))
    ensures Inv(Take(s, Commit(t)), before)
  {
    MoveKeepsExclusive(s, Commit(t));
    var s' := Committing(s, t);
    if Refusal(s.store, s.txs[t]).Some? {
      PhaseKeepsInv(s, before, t, s'.phases[t]);
    } else {
      InsertRecords(s.store, s.txs[t]);
      assert TxOk(s', t);
      hide TxOk, Refusal, Inserted, Exclusive;
      forall u | u in s'.txs ensures TxOk(s', u) {
        if u != t { CommittedTxStaysOk(s, s', t, u); }
      }
      forall slot ensures SlotOk(s', before, slot) { CommittedSlotStaysOk(s, s', before, t, slot); }
    }
  }

  lemma {:induction false} MoveKeepsInv(s: System, before: Store, move: Move)
    requires Inv(s, before) && Enabled(s, move)
    ensures Inv(Take(s, move), before)
  {
    MoveKeepsExclusive(s, move);
    hide Exclusive, TxOk, SlotOk;
    match move
    case Begin(t, tx) => BeginKeepsInv(s, before, t, tx);
    case Look(t) =>
      LookedTxIsOk(s, t, false);
      PhaseKeepsInv(s, before, t, Take(s, move).phases[t]);
    case Lock(t) =>
      LockedTxIsOk(s, t);
      PhaseKeepsInv(s, before, t, Locked);
    case LookAgain(t) =>
      LookedTxIsOk(s, t, true);
      PhaseKeepsInv(s, before, t, Take(s, move).phases[t]);
    case Commit(t) => CommitKeepsInv(s, before, t);
    case Background(step) =>
      BackgroundKeepsRecords(s.store, step);
      QuietMoveKeepsInv(s, Take(s, move), before);
    case _ => QuietMoveKeepsInv(s, Take(s, move), before);
  }

  lemma {:induction false} LockedTxIsOk(s: System, t: TxId)
    requires t in s.txs && t in s.phases
    ensures TxOk(To(s, t, Locked), t)
  {
  }

  // ----- Every run -----

  function Initial(store: Store): System { System(store, map[], map[], map[], Idle) }

  ghost function Run(store: Store, moves: seq<Move>): Option<System> {
    if moves == [] then Some(Initial(store))
    else
      var last := moves[|moves| - 1];
      match Run(store, moves[..|moves| - 1])
      case None => None
      case Some(s) => if Enabled(s, last) then Some(Take(s, last)) else None
  }

  lemma {:induction false} RunAppend(store: Store, moves: seq<Move>, move: Move)
    requires Run(store, moves).Some? && Enabled(Run(store, moves).value, move)
    ensures Run(store, moves + [move]) == Some(Take(Run(store, moves).value, move))
  {
    assert (moves + [move])[..|moves|] == moves;
  }

  lemma {:induction false} RunKeepsInv(store: Store, moves: seq<Move>)
    requires Run(store, moves).Some?
    ensures Inv(Run(store, moves).value, store)
  {
    hide Enabled, Take;
    if moves != [] {
      RunKeepsInv(store, moves[..|moves| - 1]);
      hide Inv;
      MoveKeepsInv(Run(store, moves[..|moves| - 1]).value, store, moves[|moves| - 1]);
    }
  }

  /**
   Idempotent submission under every interleaving. At most one transaction with
   a key creates something, and none if the key was taken before. Every other
   one that succeeds returns the winner's id and carried the winner's request;
   one that carries another request never succeeds.
   */
  lemma {:induction false} OneWinnerPerKey(store: Store, moves: seq<Move>, slot: Slot, t: TxId, u: TxId)
    requires Run(store, moves).Some?
    requires var s := Run(store, moves).value;
             t in s.txs && u in s.txs && s.txs[t].UsesKey(slot) && s.txs[u].UsesKey(slot)
    ensures var s := Run(store, moves).value;
            && (DidCreate(s, t) && DidCreate(s, u) ==> t == u)
            && (DidCreate(s, t) ==> !IsRecorded(store, slot))
            && t in s.phases
            && (s.phases[t].Finished? && s.phases[t].result.Ok? ==>
                  && IsRecorded(s.store, slot) && Record(s.store, slot).hash == s.txs[t].idem.value.hash
                  && (s.phases[t].result.value.Existing? ==> s.phases[t].result.value.id == Record(s.store, slot).id)
                  && (IsRecorded(store, slot) || (slot in s.winners && DidCreate(s, s.winners[slot])
                                                  && s.txs[s.winners[slot]].UsesKey(slot)
                                                  && s.txs[s.winners[slot]].Id() == Record(s.store, slot).id)))
  {
    RunKeepsInv(store, moves);
    var s := Run(store, moves).value;
    hide Run, Exclusive;
    assert SlotOf(s.txs[t]) == slot && SlotOf(s.txs[u]) == slot;
    assert TxOk(s, t) && TxOk(s, u) && SlotOk(s, store, slot);
    if slot in s.winners { assert TxOk(s, s.winners[slot]); }
  }

  // ----- The statements add up to the transaction -----

  /** The change a move makes to the store, as a transaction or nothing; reconciliation apart. */
  ghost predicate IsTransaction(s: System, move: Move, s': System) {
    || s'.store == s.store
    || move.ReconcileCommit?
    || (move.Background? && s'.store == Apply(s.store, move.step))
    || (move.Commit? && move.tx in s.txs && s'.store == Apply(s.store, s.txs[move.tx].AsStep()))
  }

  /**
   The split submission refines the atomic one: when it finishes, in whichever
   statement, both its answer and its effect are those of the whole transaction
   run at that instant; until then it has no effect. What runs of transactions
   keep, interleavings keep but for reconciliation (`HubReconcile`,
   `HubInterleaving`).
   */
  lemma {:induction false} FinishingIsAtomic(store: Store, moves: seq<Move>, move: Move)
    requires Run(store, moves).Some? && Enabled(Run(store, moves).value, move)
    ensures var s := Run(store, moves).value;
            var s' := Take(s, move);
            && IsTransaction(s, move, s')
            && (move.Look? || move.LookAgain? || move.Commit? ==>
                  s'.phases[move.tx].Finished? ==>
                    (s'.store, s'.phases[move.tx].result) == Atomically(s.store, s.txs[move.tx]))
  {
    RunKeepsInv(store, moves);
    var s := Run(store, moves).value;
    hide Run, Exclusive;
    if move.Commit? {
      assert TxOk(s, move.tx);
      CommitIsAtomic(s, move.tx);
    }
  }

  lemma {:induction false} CommitIsAtomic(s: System, t: TxId)
    requires t in s.txs && t in s.phases && s.phases[t].Rechecked? && TxOk(s, t)
    ensures Answer(s.store, s.txs[t]).None?
    ensures (Committing(s, t).store, Committing(s, t).phases[t]) ==
            (Atomically(s.store, s.txs[t]).0, Finished(Atomically(s.store, s.txs[t]).1))
    ensures Committing(s, t).store == Apply(s.store, s.txs[t].AsStep())
  {
    hide JobRefusal, BatchRefusal, JobCreated, BatchCreated;
  }
}
