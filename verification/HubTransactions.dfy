/**
 The store's transactions as they are written: statements on a working copy
 that is put back when the transaction commits and dropped when it returns
 early. Each is proved to be the transaction `HubStore` says it is.
 */
module HubTransactions {
  import opened Collections
  import opened JobStates
  import opened HubTables
  import opened HubStore

  /** Dispatch order: longest available, highest priority, oldest, then by key. */
  predicate Precedes(a: (Key, QueueRow), b: (Key, QueueRow)) {
    if a.1.availableAt != b.1.availableAt then a.1.availableAt < b.1.availableAt
    else if a.1.priority != b.1.priority then a.1.priority > b.1.priority
    else if a.1.createdAt != b.1.createdAt then a.1.createdAt < b.1.createdAt
    else if a.0.org != b.0.org then a.0.org < b.0.org
    else a.0.id < b.0.id
  }

  /** The order in which rows are to be claimed, criterion by criterion. */
  ghost predicate ComesFirst(key: Key, row: QueueRow, other: Key, otherRow: QueueRow) {
    && row.availableAt <= otherRow.availableAt
    && (row.availableAt == otherRow.availableAt ==> row.priority >= otherRow.priority)
    && (row.availableAt == otherRow.availableAt && row.priority == otherRow.priority ==> row.createdAt <= otherRow.createdAt)
    && (row.availableAt == otherRow.availableAt && row.priority == otherRow.priority && row.createdAt == otherRow.createdAt ==>
          key.org < other.org || (key.org == other.org && key.id <= other.id))
  }

  lemma {:induction false} UnprecededComesFirst(key: Key, row: QueueRow, other: Key, otherRow: QueueRow)
    requires !Precedes((other, otherRow), (key, row))
    ensures ComesFirst(key, row, other, otherRow)
  {
  }

  /** The job is there with its outbox row and its inputs, counted, within the limit; it was not there before. */
  ghost predicate JobIsIn(before: Store, after: Store, input: NewJob) {
    && input.Key() !in before.core.jobs && input.Key() in after.core.jobs && after.core.jobs[input.Key()] == input.job
    && OutboxKey(input.Key(), input.job.attempt) in after.outbox
    && input.org in before.core.usage && input.org in after.core.usage && input.org in before.policies
    && after.core.usage[input.org].active == before.core.usage[input.org].active + 1 <= before.policies[input.org].maxConcurrent
    && (forall id :: id in input.inputs ==>
          Key(input.org, id) in after.artifacts && after.artifacts[Key(input.org, id)].job == Some(input.id))
  }

  /** Every child is there, new, queued and waiting, all of them counted, within the limit. */
  ghost predicate BatchIsIn(before: Store, after: Store, batch: NewBatch) {
    && batch.org in before.core.usage && batch.org in after.core.usage && batch.org in before.policies
    && after.core.usage[batch.org].active
       == before.core.usage[batch.org].active + batch.totalJobs <= before.policies[batch.org].maxConcurrent
    && (forall id :: id in batch.children ==> ChildIsIn(before, after, batch, Key(batch.org, id)))
    && (forall key: Key :: key.org != batch.org || key.id !in batch.children ==>
          SameEntry(before.core.jobs, after.core.jobs, key) && SameEntry(before.queue, after.queue, key))
  }

  ghost predicate ChildIsIn(before: Store, after: Store, batch: NewBatch, key: Key) {
    && key !in before.core.jobs && key in after.core.jobs
    && after.core.jobs[key] == Job(Queued, 1, 0, None, None, Some(batch.id), batch.now)
    && key !in before.queue && key in after.queue
    // The scheduler may have it from the batch's own time on.
    && after.queue[key].availableAt <= batch.now && after.queue[key].leaseUntil.None?
  }

  ghost predicate RowsThere(s: Store, org: Org) { org in s.policies && org in s.core.usage }

  /** What counts against the period's limit at this time. */
  ghost function Counted(policy: Policy, usage: Usage, now: int): int {
    if now - usage.periodStartedAt >= 1000 * policy.periodSeconds then 0 else usage.periodJobs
  }

  ghost predicate JobQuota(s: Store, input: NewJob)
    requires RowsThere(s, input.org)
  {
    var policy, usage := s.policies[input.org], s.core.usage[input.org];
    usage.active < policy.maxConcurrent && Counted(policy, usage, input.now) < policy.maxPerPeriod
  }

  ghost predicate JobInputs(s: Store, input: NewJob) {
    NoRepeats(input.inputs) && forall id :: id in input.inputs ==> Usable(s.artifacts, input.org, id)
  }

  ghost predicate JobIsNew(s: Store, input: NewJob) {
    input.Key() !in s.core.jobs && OutboxKey(input.Key(), input.job.attempt) !in s.outbox
  }

  /** What a single submission needs, apart from its idempotency key. */
  ghost predicate MayCreate(s: Store, input: NewJob, admitted: bool) {
    RowsThere(s, input.org) && admitted && JobQuota(s, input) && JobInputs(s, input) && JobIsNew(s, input)
  }

  /** The first of these that is missing, in this order. */
  ghost predicate JobLacks(s: Store, input: NewJob, admitted: bool, error: Error) {
    match error
    case MissingRow => !RowsThere(s, input.org)
    case NotAdmitted => RowsThere(s, input.org) && !admitted
    case QuotaExceeded => RowsThere(s, input.org) && admitted && !JobQuota(s, input)
    case Conflict => RowsThere(s, input.org) && admitted && JobQuota(s, input) && !JobInputs(s, input)
    case DuplicateRow =>
      RowsThere(s, input.org) && admitted && JobQuota(s, input) && JobInputs(s, input) && !JobIsNew(s, input)
  }

  ghost predicate BatchQuota(s: Store, batch: NewBatch)
    requires RowsThere(s, batch.org)
  {
    var policy, usage, n := s.policies[batch.org], s.core.usage[batch.org], batch.totalJobs;
    && n <= policy.maxBatch && usage.active + n <= policy.maxConcurrent
    && Counted(policy, usage, batch.now) + n <= policy.maxPerPeriod
  }

  ghost predicate BatchInputs(s: Store, batch: NewBatch) {
    forall id :: id in batch.sharedInputs ==> Key(batch.org, id) in s.artifacts && s.artifacts[Key(batch.org, id)].ready
  }

  ghost predicate BatchIsNew(s: Store, batch: NewBatch) {
    && NoRepeats(batch.children)
    && forall id :: id in batch.children ==> Key(batch.org, id) !in s.core.jobs && Key(batch.org, id) !in s.queue
  }

  /** What a batch needs. */
  ghost predicate MayCreateBatch(s: Store, batch: NewBatch, admitted: bool) {
    RowsThere(s, batch.org) && admitted && BatchQuota(s, batch) && BatchInputs(s, batch) && BatchIsNew(s, batch)
  }

  ghost predicate BatchLacks(s: Store, batch: NewBatch, admitted: bool, error: Error) {
    match error
    case MissingRow => !RowsThere(s, batch.org)
    case NotAdmitted => RowsThere(s, batch.org) && !admitted
    case QuotaExceeded => RowsThere(s, batch.org) && admitted && !BatchQuota(s, batch)
    case Conflict => RowsThere(s, batch.org) && admitted && BatchQuota(s, batch) && !BatchInputs(s, batch)
    case DuplicateRow =>
      RowsThere(s, batch.org) && admitted && BatchQuota(s, batch) && BatchInputs(s, batch) && !BatchIsNew(s, batch)
  }

  /** A request that was answered before gets that answer if it is the same request, and is refused otherwise. */
  ghost predicate SaysAgain(records: map<Request, Recorded>, org: Org, idem: Option<Idempotency>, result: Result<Committed, Error>) {
    && idem.Some? && idem.value.For(org) in records
    && var record := records[idem.value.For(org)];
    result == if record.hash == idem.value.hash then Ok(Existing(record.id)) else Err(Conflict)
  }

  /** The answer to a submission: the earlier one, a refusal that names what is missing, or creation. */
  ghost predicate JobAnswer(s: Store, input: NewJob, idem: Option<Idempotency>, admitted: bool, result: Result<Committed, Error>) {
    if !Unanswered(s.jobRequests, input.org, idem) then SaysAgain(s.jobRequests, input.org, idem, result)
    else match result
         case Ok(committed) => committed == Created && MayCreate(s, input, admitted)
         case Err(error) => JobLacks(s, input, admitted, error)
  }

  ghost predicate BatchAnswer(s: Store, batch: NewBatch, idem: Option<Idempotency>, admitted: bool, result: Result<Committed, Error>) {
    if !Unanswered(s.batchRequests, batch.org, idem) then SaysAgain(s.batchRequests, batch.org, idem, result)
    else match result
         case Ok(committed) => committed == Created && MayCreateBatch(s, batch, admitted)
         case Err(error) => BatchLacks(s, batch, admitted, error)
  }

  /** No key, or one nobody has used. */
  ghost predicate Unanswered(records: map<Request, Recorded>, org: Org, idem: Option<Idempotency>) {
    idem.None? || idem.value.For(org) !in records
  }

  /** The same request again will be answered with this id. */
  ghost predicate IsAnswered(records: map<Request, Recorded>, org: Org, idem: Option<Idempotency>, id: Name) {
    idem.Some? ==> Replayed(records, org, idem) == Some(Ok(Existing(id)))
  }

  /** The job is there, in the attempt, the state and at the event that the caller takes it to be. */
  ghost predicate Expected(s: Store, key: Key, attempt: int, state: JobState, lastEvent: int) {
    && key in s.core.jobs && s.core.jobs[key].attempt == attempt
    && s.core.jobs[key].state == state && s.core.jobs[key].lastEvent == lastEvent
  }

  /** The job was heard of at this time at the latest, so no reconciliation that looks further back fails it. */
  ghost predicate Refreshed(before: Store, after: Store, key: Key, now: int) {
    && key in before.core.jobs && key in after.core.jobs
    && after.core.jobs[key].updatedAt == Max(before.core.jobs[key].updatedAt, now)
    && forall cutoff :: cutoff < now ==> key !in Stale(after, cutoff)
  }

  /** One job is in this state now; no other job changed. */
  ghost predicate OnlyMoves(before: Store, after: Store, key: Key, state: JobState) {
    && key in after.core.jobs && after.core.jobs[key].state == state
    && (forall other :: other != key ==> SameEntry(before.core.jobs, after.core.jobs, other))
  }

  lemma {:induction false} JobAnswered(s: Store, input: NewJob, idem: Option<Idempotency>, admitted: bool)
    ensures JobAnswer(s, input, idem, admitted, CommitJob(s, input, idem, admitted).1)
  {
    ClaimCountDecides(s.artifacts, input.org, input.inputs);
    hide Claimable, Claimed, NoRepeats, Usable;
  }

  lemma {:induction false} CommitJobMeans(s: Store, input: NewJob, idem: Option<Idempotency>, admitted: bool)
    ensures var (s', result) := CommitJob(s, input, idem, admitted);
            && JobAnswer(s, input, idem, admitted, result)
            && (result == Ok(Created) ==> JobIsIn(s, s', input) && IsAnswered(s'.jobRequests, input.org, idem, input.id))
            && (Balanced(s.core) && !input.job.state.IsTerminal() ==> Balanced(s'.core))
  {
    hide Balanced;
    JobAnswered(s, input, idem, admitted);
    hide JobAnswer;
    if Balanced(s.core) && !input.job.state.IsTerminal() { CommitJobConserves(s, input, idem, admitted); }
    if CommitJob(s, input, idem, admitted).1 == Ok(Created) {
      forall id | id in input.inputs
        ensures var artifacts := CommitJob(s, input, idem, admitted).0.artifacts;
                Key(input.org, id) in artifacts && artifacts[Key(input.org, id)].job == Some(input.id)
      {
        CreatedJobOwnsItsInputs(s, input, idem, admitted, Key(input.org, id));
      }
      hide Claimable, Claimed;
    }
  }

  /** The first `n` children went in, and nothing else did. */
  lemma {:induction false} ChildrenAreIn(s: Store, batch: NewBatch, n: nat, key: Key)
    requires n <= |batch.children| && Children(s.core.jobs, s.queue, batch, n).Some?
    ensures var (jobs, queue) := Children(s.core.jobs, s.queue, batch, n).value;
            if key.org == batch.org && key.id in batch.children[..n] then
              && key !in s.core.jobs && key in jobs && jobs[key] == ChildJob(batch.id, batch.now)
              && key !in s.queue && key in queue && queue[key].availableAt <= batch.now && queue[key].leaseUntil.None?
            else SameEntry(s.core.jobs, jobs, key) && SameEntry(s.queue, queue, key)
  {
    if n > 0 {
      ChildrenAreIn(s, batch, n - 1, key);
      assert batch.children[..n] == batch.children[..n - 1] + [batch.children[n - 1]];
    }
  }

  /** The children go in exactly if no id is taken or repeated. */
  lemma {:induction false} ChildrenGoInIff(s: Store, batch: NewBatch, n: nat)
    requires n <= |batch.children|
    ensures Children(s.core.jobs, s.queue, batch, n).Some? <==>
            && NoRepeats(batch.children[..n])
            && forall id :: id in batch.children[..n] ==> Key(batch.org, id) !in s.core.jobs && Key(batch.org, id) !in s.queue
  {
    if n > 0 {
      var front, id := batch.children[..n - 1], batch.children[n - 1];
      assert batch.children[..n] == front + [id];
      ChildrenGoInIff(s, batch, n - 1);
      if Children(s.core.jobs, s.queue, batch, n - 1).Some? { ChildrenAreIn(s, batch, n - 1, Key(batch.org, id)); }
      NoRepeatsAppend(front, id);
    }
  }

  lemma {:induction false} BatchAnswered(s: Store, batch: NewBatch, idem: Option<Idempotency>, admitted: bool)
    ensures BatchAnswer(s, batch, idem, admitted, CommitBatch(s, batch, idem, admitted).1)
  {
    assert batch.children[..|batch.children|] == batch.children;
    ChildrenGoInIff(s, batch, |batch.children|);
    hide Children, NoRepeats;
  }

  lemma {:induction false} CommitBatchMeans(s: Store, batch: NewBatch, idem: Option<Idempotency>, admitted: bool)
    ensures var (s', result) := CommitBatch(s, batch, idem, admitted);
            && BatchAnswer(s, batch, idem, admitted, result)
            && (result == Ok(Created) ==>
                  BatchIsIn(s, s', batch) && IsAnswered(s'.batchRequests, batch.org, idem, batch.id))
            && (Balanced(s.core) && batch.totalJobs == |batch.children| ==> Balanced(s'.core))
  {
    BatchAnswered(s, batch, idem, admitted);
    hide Balanced, Children, InputsReady, BatchAnswer;
    if Balanced(s.core) { CommitBatchConservesIff(s, batch, idem, admitted); }
    if CommitBatch(s, batch, idem, admitted).1 == Ok(Created) {
      assert batch.children[..|batch.children|] == batch.children;
      forall key: Key
        ensures var (jobs, queue) := Children(s.core.jobs, s.queue, batch, |batch.children|).value;
                if key.org == batch.org && key.id in batch.children then
                  && key !in s.core.jobs && key in jobs && jobs[key] == ChildJob(batch.id, batch.now)
                  && key !in s.queue && key in queue && queue[key].availableAt <= batch.now && queue[key].leaseUntil.None?
                else SameEntry(s.core.jobs, jobs, key) && SameEntry(s.queue, queue, key)
      {
        ChildrenAreIn(s, batch, |batch.children|, key);
      }
    }
  }

  lemma {:induction false} UpdateMeans(s: Store, update: Update)
    ensures var (s', updated) := UpdateIfCurrent(s, update);
            && (updated ==> Refreshed(s, s', update.key, update.now))
            && (updated ==> OnlyMoves(s, s', update.key, if update.state.Some? then update.state.value else update.expectedState))
            && (Balanced(s.core) ==>
                  (Balanced(s'.core) <==>
                     (updated && update.expectedState.IsTerminal() && update.state.Some? ==> update.state.value.IsTerminal())))
  {
    hide Balanced;
    if Balanced(s.core) { UpdateConservesIff(s, update); }
    if update.key in s.core.jobs { SettleWrites(s.core, update.key, UpdatedJob(s.core.jobs[update.key], update)); }
    hide Settle;
  }

  lemma {:induction false} EventMeans(s: Store, event: JobEvent)
    ensures var (s', result) := ApplyEvent(s, event);
            && (result == Ok(true) ==> Refreshed(s, s', event.key, event.now))
            && (result == Ok(true) ==> OnlyMoves(s, s', event.key, event.state))
            && (result == Ok(true) && event.sequence > event.expectedLastEvent ==> ApplyEvent(s', event) == (s', Ok(false)))
            && (Balanced(s.core) ==>
                  (Balanced(s'.core) <==>
                     (result == Ok(true) && event.expectedState.IsTerminal() ==> event.state.IsTerminal())))
  {
    hide Balanced;
    if Balanced(s.core) { EventConservesIff(s, event); }
    if ApplyEvent(s, event).1 == Ok(true) {
      if event.sequence > event.expectedLastEvent { ReplayedEventIsInert(s, event, event.content); }
      SettleWrites(s.core, event.key, EventedJob(s.core.jobs[event.key], event));
    }
    hide Settle;
  }

  lemma {:induction false} BindMeans(s: Store, key: Key, worker: Key, session: Name, now: int)
    ensures var (s', bound) := Bind(s, key, worker, session, now);
            && (bound ==> OnlyMoves(s, s', key, Received)) && (Balanced(s.core) ==> Balanced(s'.core))
  {
    hide Balanced;
    if Balanced(s.core) { BindConserves(s, key, worker, session, now); }
  }

  lemma {:induction false} CancelMeans(s: Store, key: Key, now: int)
    ensures var (s', cancelled) := CancelQueued(s, key, now);
            && (cancelled ==> OnlyMoves(s, s', key, Cancelled) && key in s'.core.ledger)
            && (cancelled ==> s'.core.jobs[key] == s.core.jobs[key].(state := Cancelled, updatedAt := now))
            && (Balanced(s.core) ==> Balanced(s'.core))
  {
    hide Balanced;
    if Balanced(s.core) { CancelConserves(s, key, now); }
  }

  class PgStore {
    var tables: Store

    constructor (tables: Store)
      ensures this.tables == tables
    {
      this.tables := tables;
    }

    method CommitNewJob(input: NewJob, idem: Option<Idempotency>, admitted: bool)
      returns (result: Result<Committed, Error>)
      modifies this
      ensures (tables, result) == CommitJob(old(tables), input, idem, admitted)
      ensures JobAnswer(old(tables), input, idem, admitted, result)
      ensures result == Ok(Created) ==> JobIsIn(old(tables), tables, input) && IsAnswered(tables.jobRequests, input.org, idem, input.id)
      ensures result != Ok(Created) ==> tables == old(tables)
      ensures old(Balanced(tables.core)) && !input.job.state.IsTerminal() ==> Balanced(tables.core)
    {
      CommitJobMeans(tables, input, idem, admitted);
      hide Claimable, Claimed, Replayed, Remember, Balanced, JobIsIn, IsAnswered, JobAnswer, Write, Count;
      var tx := tables;
      // The second look, under the lock, sees the same records here; `HubIdempotency` tells the two apart.
      var replayed := Replayed(tx.jobRequests, input.org, idem);
      if replayed.Some? { return replayed.value; }
      if input.org !in tx.policies || input.org !in tx.core.usage { return Err(MissingRow); }
      if !admitted { return Err(NotAdmitted); }

      var policy, usage := tx.policies[input.org], tx.core.usage[input.org];
      var periodJobs := usage.periodJobs;
      if input.now - usage.periodStartedAt >= policy.periodSeconds * 1000 { periodJobs := 0; }
      if usage.active >= policy.maxConcurrent || periodJobs >= policy.maxPerPeriod { return Err(QuotaExceeded); }

      var claimed := Claimable(tx.artifacts, input.org, input.inputs);
      if |claimed| != |input.inputs| { return Err(Conflict); }
      tx := tx.(artifacts := Claimed(tx.artifacts, claimed, input.id));

      var key := input.Key();
      var outboxKey := OutboxKey(key, input.job.attempt);
      if key in tx.core.jobs || outboxKey in tx.outbox { return Err(DuplicateRow); }
      tx := tx.(core := Write(tx.core, key, input.job));
      var startedAt := if periodJobs == 0 then input.now else usage.periodStartedAt;
      tx := tx.(core := Count(tx.core, input.org, Usage(usage.active + 1, periodJobs + 1, startedAt)));
      tx := tx.(outbox := tx.outbox + {outboxKey});
      tx := tx.(jobRequests := Remember(tx.jobRequests, input.org, idem, input.id));
      tables := tx;
      return Ok(Created);
    }

    /** Every shared input has to be there and ready. */
    method CheckInputs(batch: NewBatch) returns (ready: bool)
      ensures ready == InputsReady(tables.artifacts, batch.org, batch.sharedInputs)
    {
      for i := 0 to |batch.sharedInputs|
        invariant forall id :: id in batch.sharedInputs[..i] ==>
          Key(batch.org, id) in tables.artifacts && tables.artifacts[Key(batch.org, id)].ready
      {
        var key := Key(batch.org, batch.sharedInputs[i]);
        if key !in tables.artifacts || !tables.artifacts[key].ready {
          assert batch.sharedInputs[i] in batch.sharedInputs;
          return false;
        }
      }
      assert batch.sharedInputs[..|batch.sharedInputs|] == batch.sharedInputs;
      return true;
    }

    /** One job and one queue row per child; a taken id ends the transaction. */
    method InsertChildren(batch: NewBatch) returns (inserted: Option<(map<Key, Job>, map<Key, QueueRow>)>)
      ensures inserted == Children(tables.core.jobs, tables.queue, batch, |batch.children|)
    {
      var jobs, queue := tables.core.jobs, tables.queue;
      for i := 0 to |batch.children|
        invariant Children(tables.core.jobs, tables.queue, batch, i) == Some((jobs, queue))
      {
        var key := Key(batch.org, batch.children[i]);
        if key in jobs || key in queue {
          TakenStaysTaken(tables.core.jobs, tables.queue, batch, i + 1, |batch.children|);
          return None;
        }
        jobs := jobs[key := ChildJob(batch.id, batch.now)];
        queue := queue[key := QueueRow(batch.now, 0, batch.now, None)];
      }
      return Some((jobs, queue));
    }

    method CommitNewBatch(batch: NewBatch, idem: Option<Idempotency>, admitted: bool)
      returns (result: Result<Committed, Error>)
      modifies this
      ensures (tables, result) == CommitBatch(old(tables), batch, idem, admitted)
      ensures BatchAnswer(old(tables), batch, idem, admitted, result)
      ensures result == Ok(Created) ==>
                BatchIsIn(old(tables), tables, batch) && IsAnswered(tables.batchRequests, batch.org, idem, batch.id)
      ensures result != Ok(Created) ==> tables == old(tables)
      ensures old(Balanced(tables.core)) && batch.totalJobs == |batch.children| ==> Balanced(tables.core)
    {
      CommitBatchMeans(tables, batch, idem, admitted);
      hide Children, InputsReady, Replayed, Remember, Balanced, BatchIsIn, IsAnswered, BatchAnswer;
      var tx := tables;
      var replayed := Replayed(tx.batchRequests, batch.org, idem);
      if replayed.Some? { return replayed.value; }
      if batch.org !in tx.policies || batch.org !in tx.core.usage { return Err(MissingRow); }
      if !admitted { return Err(NotAdmitted); }

      var policy, usage, n := tx.policies[batch.org], tx.core.usage[batch.org], batch.totalJobs;
      var expired := batch.now - usage.periodStartedAt >= policy.periodSeconds * 1000;
      var periodJobs := if expired then 0 else usage.periodJobs;
      if n > policy.maxBatch { return Err(QuotaExceeded); }
      if usage.active + n > policy.maxConcurrent { return Err(QuotaExceeded); }
      if periodJobs + n > policy.maxPerPeriod { return Err(QuotaExceeded); }

      var ready := CheckInputs(batch);
      if !ready { return Err(Conflict); }
      var inserted := InsertChildren(batch);
      if inserted.None? { return Err(DuplicateRow); }
      tx := tx.(core := tx.core.(jobs := inserted.value.0), queue := inserted.value.1);
      var startedAt := if expired then batch.now else usage.periodStartedAt;
      tx := tx.(core := Count(tx.core, batch.org, Usage(usage.active + n, periodJobs + n, startedAt)));
      tx := tx.(batchRequests := Remember(tx.batchRequests, batch.org, idem, batch.id));
      tables := tx;
      return Ok(Created);
    }

    /** The ledger row is inserted once; only that insertion gives the slot back. */
    static method ReleaseForTerminal(core: Core, key: Key) returns (after: Core)
      ensures after == Release(core, key) && after.jobs == core.jobs
      ensures key in after.ledger <==> key in core.ledger || (key in core.jobs && core.jobs[key].state.IsTerminal())
      ensures forall org :: org in core.usage ==>
                && org in after.usage
                && after.usage[org].active ==
                     if org == key.org && key !in core.ledger && key in after.ledger
                     then Max(0, core.usage[org].active - 1) else core.usage[org].active
      ensures Release(after, key) == after
    {
      after := core;
      if key in core.jobs && core.jobs[key].state.IsTerminal() && key !in core.ledger {
        after := after.(ledger := after.ledger + {key});
        if key.org in after.usage {
          var usage := after.usage[key.org];
          after := after.(usage := after.usage[key.org := usage.(active := Max(0, usage.active - 1))]);
        }
      }
    }

    method UpdateJobIfCurrent(update: Update) returns (updated: bool)
      modifies this
      ensures (tables, updated) == UpdateIfCurrent(old(tables), update)
      ensures updated <==> old(Expected(tables, update.key, update.attempt, update.expectedState, update.expectedLastEvent))
      ensures updated ==> Refreshed(old(tables), tables, update.key, update.now)
      ensures !updated ==> tables == old(tables)
      ensures updated ==> OnlyMoves(old(tables), tables, update.key, if update.state.Some? then update.state.value else update.expectedState)
      ensures old(Balanced(tables.core)) ==>
                (Balanced(tables.core) <==>
                   (updated && update.expectedState.IsTerminal() && update.state.Some? ==> update.state.value.IsTerminal()))
    {
      UpdateMeans(tables, update);
      hide Release, Balanced, OnlyMoves, Refreshed;
      var key := update.key;
      if !IsCurrent(tables, key, update.attempt, update.expectedState, update.expectedLastEvent) { return false; }
      var job := tables.core.jobs[key];
      if update.state.Some? { job := job.(state := update.state.value); }
      job := job.(updatedAt := Max(job.updatedAt, update.now));
      var core := Write(tables.core, key, job);
      if update.state.Some? && update.state.value.IsTerminal() {
        core := ReleaseForTerminal(core, key);
      }
      tables := tables.(core := core);
      return true;
    }

    method ApplyJobEvent(event: JobEvent) returns (result: Result<bool, Error>)
      modifies this
      ensures (tables, result) == ApplyEvent(old(tables), event)
      ensures result == Ok(true) <==>
                && old(EventMatches(tables, event))
                && old(Expected(tables, event.key, event.attempt, event.expectedState, event.expectedLastEvent))
                && var session := old(tables.core.jobs[event.key].session);
                session.Some? && (session == event.expectedSession || session == Some(event.session))
      ensures result == Err(Conflict) <==> old(!EventMatches(tables, event))
      ensures result == Ok(true) ==>
                && Refreshed(old(tables), tables, event.key, event.now)
                && tables.core.jobs[event.key].session == Some(event.session)
                && tables.core.jobs[event.key].lastEvent == Max(event.expectedLastEvent, event.sequence)
                && EventKey(event.key, event.attempt, event.sequence) in tables.events
                && tables.events[EventKey(event.key, event.attempt, event.sequence)] == event.content
      ensures result != Ok(true) ==> tables == old(tables)
      ensures result == Ok(true) ==> OnlyMoves(old(tables), tables, event.key, event.state)
      ensures result == Ok(true) && event.sequence > event.expectedLastEvent ==>
                ApplyEvent(tables, event) == (tables, Ok(false))
      ensures old(Balanced(tables.core)) ==>
                (Balanced(tables.core) <==>
                   (result == Ok(true) && event.expectedState.IsTerminal() ==> event.state.IsTerminal()))
    {
      EventMeans(tables, event);
      hide Release, Balanced, OnlyMoves, Refreshed;
      var tx := tables;
      var row := EventKey(event.key, event.attempt, event.sequence);
      if row in tx.events && tx.events[row] != event.content { return Err(Conflict); }
      tx := tx.(events := tx.events[row := event.content]);
      if !IsCurrent(tx, event.key, event.attempt, event.expectedState, event.expectedLastEvent) { return Ok(false); }
      var job := tx.core.jobs[event.key];
      if job.session.None? || (job.session != event.expectedSession && job.session != Some(event.session)) {
        return Ok(false);
      }
      var core := Write(tx.core, event.key, EventedJob(job, event));
      if event.state.IsTerminal() {
        core := ReleaseForTerminal(core, event.key);
      }
      tables := tx.(core := core);
      return Ok(true);
    }

    method BindQueuedJob(key: Key, worker: Key, session: Name, now: int) returns (bound: bool)
      modifies this
      ensures (tables, bound) == Bind(old(tables), key, worker, session, now)
      ensures bound <==> old(key in tables.core.jobs && tables.core.jobs[key].state == Queued)
      // The worker that has it now, and what its first event has to say.
      ensures bound ==>
                var job := tables.core.jobs[key];
                && job.worker == Some(worker) && job.session == Some(session) && job.updatedAt == now
                && job.attempt == old(tables.core.jobs[key].attempt) && job.lastEvent == old(tables.core.jobs[key].lastEvent)
                && forall event: JobEvent ::
                     (event.key == key && event.attempt == job.attempt && event.session == session
                      && event.expectedState == Received && event.expectedLastEvent == job.lastEvent) ==>
                       EventIsNext(tables, event)
      ensures !bound ==> tables == old(tables)
      ensures bound ==> OnlyMoves(old(tables), tables, key, Received) && key !in tables.queue
                        && OutboxKey(key, tables.core.jobs[key].attempt) in tables.outbox
      ensures old(Balanced(tables.core)) ==> Balanced(tables.core)
    {
      BindMeans(tables, key, worker, session, now);
      hide Balanced, OnlyMoves;
      if !IsQueued(tables, key) { return false; }
      var tx, job := tables, tables.core.jobs[key];
      tx := tx.(core := Write(tx.core, key, BoundJob(job, worker, session, now)));
      tx := tx.(outbox := tx.outbox + {OutboxKey(key, tx.core.jobs[key].attempt)});
      tx := tx.(queue := tx.queue - {key});
      tables := tx;
      return true;
    }

    method CancelQueuedJob(key: Key, now: int) returns (cancelled: bool)
      modifies this
      ensures (tables, cancelled) == CancelQueued(old(tables), key, now)
      ensures cancelled <==> old(key in tables.core.jobs && tables.core.jobs[key].state == Queued)
      ensures !cancelled ==> tables == old(tables)
      ensures cancelled ==>
                key in tables.core.jobs && tables.core.jobs[key] == old(tables.core.jobs[key]).(state := Cancelled, updatedAt := now)
      ensures cancelled ==> OnlyMoves(old(tables), tables, key, Cancelled) && key !in tables.queue && key in tables.core.ledger
      ensures old(Balanced(tables.core)) ==> Balanced(tables.core)
    {
      CancelMeans(tables, key, now);
      hide Release, Balanced, OnlyMoves;
      if !IsQueued(tables, key) { return false; }
      var tx := tables;
      tx := tx.(core := Write(tx.core, key, tx.core.jobs[key].(state := Cancelled, updatedAt := now)));
      tx := tx.(queue := tx.queue - {key});
      var core := ReleaseForTerminal(tx.core, key);
      tables := tx.(core := core);
      return true;
    }

    /** The first dispatchable row, if there is one. */
    method NextDispatchable(now: int) returns (found: Option<Key>)
      ensures found.Some? ==> found.value in tables.queue && Dispatchable(tables.queue[found.value], now)
      ensures forall key :: key in tables.queue && Dispatchable(tables.queue[key], now) ==>
                found.Some? && !Precedes((key, tables.queue[key]), (found.value, tables.queue[found.value]))
    {
      found := None;
      var pending := tables.queue.Keys;
      while pending != {}
        invariant pending <= tables.queue.Keys
        invariant found.Some? ==> found.value in tables.queue && Dispatchable(tables.queue[found.value], now)
        invariant forall key :: key in tables.queue && key !in pending && Dispatchable(tables.queue[key], now) ==>
          found.Some? && !Precedes((key, tables.queue[key]), (found.value, tables.queue[found.value]))
        decreases pending
      {
        var key :| key in pending;
        pending := pending - {key};
        var row := tables.queue[key];
        if Dispatchable(row, now)
           && (found.None? || Precedes((key, row), (found.value, tables.queue[found.value]))) {
          found := Some(key);
        }
      }
    }

    method ClaimDispatchQueueJob(leaseSeconds: int, now: int) returns (claimed: Option<Key>)
      modifies this
      ensures claimed.None? ==>
                tables == old(tables) && forall key :: key in tables.queue ==> !Dispatchable(tables.queue[key], now)
      ensures claimed.Some? ==>
                && claimed.value in old(tables.queue) && Dispatchable(old(tables.queue)[claimed.value], now)
                && tables == Apply(old(tables), ClaimJob(claimed.value, leaseSeconds, now))
                && tables == old(tables).(queue := tables.queue)
      // Leased for as many thousand milliseconds as seconds were asked for, and nothing else about any row.
      ensures claimed.Some? ==>
                var row := old(tables.queue)[claimed.value];
                && row.availableAt <= now && (row.leaseUntil.None? || row.leaseUntil.value < now)
                && tables.queue == old(tables.queue)[claimed.value :=
                     row.(leaseUntil := Some(if leaseSeconds < 0 then now else now + 1000 * leaseSeconds))]
      // No dispatchable row has waited longer, or as long with a higher priority, or is older.
      ensures claimed.Some? ==>
                var queue := old(tables.queue);
                forall key :: key in queue && Dispatchable(queue[key], now) ==>
                  ComesFirst(claimed.value, queue[claimed.value], key, queue[key])
    {
      claimed := NextDispatchable(now);
      if claimed.Some? {
        forall key | key in tables.queue && Dispatchable(tables.queue[key], now)
          ensures ComesFirst(claimed.value, tables.queue[claimed.value], key, tables.queue[key])
        {
          UnprecededComesFirst(claimed.value, tables.queue[claimed.value], key, tables.queue[key]);
        }
      }
      hide Precedes, ComesFirst;
      if claimed.Some? {
        var row := tables.queue[claimed.value].(leaseUntil := Some(now + Max(0, leaseSeconds) * 1000));
        tables := tables.(queue := tables.queue[claimed.value := row]);
      }
    }

    /** Fails stale jobs, records their release, and recounts every organization. */
    method ReconcileActiveJobQuota(now: int, staleAfterMs: int) returns (corrected: nat, failed: nat)
      modifies this
      ensures tables == Reconcile(old(tables), now, staleAfterMs)
      ensures failed == |Stale(old(tables), Cutoff(now, staleAfterMs))|
      ensures corrected == |Wrong(tables.core.jobs, old(tables).core.usage)|
    {
      hide Active, Stale, FailAll, Recount, Recounted, Wrong;
      var stale := Stale(tables, now - Max(1000, staleAfterMs));
      var jobs := FailAll(tables.core.jobs, stale, now);
      var ledger := RecordReleases(tables.core.ledger, stale);
      var wrong := Wrong(jobs, tables.core.usage);
      RecountedIsRecount(jobs, tables.core.usage);
      var usage := Correct(tables.core.usage, jobs, wrong);
      tables := tables.(core := Core(jobs, usage, ledger));
      corrected, failed := |wrong|, |stale|;
    }
  }

  lemma {:induction false} TakenStaysTaken(jobs: map<Key, Job>, queue: map<Key, QueueRow>, batch: NewBatch, i: nat, n: nat)
    requires i <= n <= |batch.children| && Children(jobs, queue, batch, i).None?
    ensures Children(jobs, queue, batch, n).None?
  {
    if i < n { TakenStaysTaken(jobs, queue, batch, i, n - 1); }
  }

  method RecordReleases(ledger: set<Key>, stale: set<Key>) returns (after: set<Key>)
    ensures after == ledger + stale
  {
    after := ledger;
    var pending := stale;
    while pending != {}
      invariant pending <= stale && after == ledger + (stale - pending)
      decreases pending
    {
      var key :| key in pending;
      after, pending := after + {key}, pending - {key};
    }
  }

  /** The organizations whose counter is off. */
  function Wrong(jobs: map<Key, Job>, usage: map<Org, Usage>): set<Org> {
    set org | org in usage && usage[org].active != |Active(jobs, org)|
  }

  ghost function Recounted(jobs: map<Key, Job>, usage: map<Org, Usage>, orgs: set<Org>): map<Org, Usage> {
    map org | org in usage :: if org in orgs then usage[org].(active := |Active(jobs, org)|) else usage[org]
  }

  method Correct(usage: map<Org, Usage>, jobs: map<Key, Job>, wrong: set<Org>) returns (after: map<Org, Usage>)
    requires wrong <= usage.Keys
    ensures after == Recounted(jobs, usage, wrong)
  {
    hide Active;
    after := usage;
    var pending := wrong;
    while pending != {}
      invariant pending <= wrong && after == Recounted(jobs, usage, wrong - pending)
      decreases pending
    {
      var org :| org in pending;
      after := after[org := after[org].(active := |Active(jobs, org)|)];
      pending := pending - {org};
    }
  }

  /** Correcting the wrong counters corrects all of them. */
  lemma {:induction false} RecountedIsRecount(jobs: map<Key, Job>, usage: map<Org, Usage>)
    ensures Wrong(jobs, usage) <= usage.Keys
    ensures Recounted(jobs, usage, Wrong(jobs, usage)) == Recount(jobs, usage)
  {
    hide Active;
  }
}
