/**
 The hub store's transactions, each as what it leaves in the tables and what it
 answers, and quota conservation over every run of them.
 */
module HubStore {
  import opened Collections
  import opened JobStates
  import opened HubTables

  datatype NewJob = NewJob(org: Org, id: Name, job: Job, inputs: seq<Name>, now: int) {
    function Key(): Key { HubTables.Key(org, id) }
  }

  datatype NewBatch = NewBatch(
    org: Org, id: Name, totalJobs: int, children: seq<Name>, sharedInputs: seq<Name>, now: int)

  datatype Idempotency = Idempotency(actorKind: Name, actorId: Name, endpoint: Name, key: Name, hash: Name) {
    function For(org: Org): Request { Request(org, actorKind, actorId, endpoint, key) }
  }

  datatype Committed = Created | Existing(id: Name)

  // ----- Idempotency records -----

  /** What a recorded key answers: the earlier id, or a conflict for another request. */
  function Replayed(records: map<Request, Recorded>, org: Org, idem: Option<Idempotency>): Option<Result<Committed, Error>> {
    if idem.None? || idem.value.For(org) !in records then None
    else
      var record := records[idem.value.For(org)];
      Some(if record.hash != idem.value.hash then Err(Conflict) else Ok(Existing(record.id)))
  }

  function Remember(records: map<Request, Recorded>, org: Org, idem: Option<Idempotency>, id: Name)
    : map<Request, Recorded>
  {
    if idem.None? then records else records[idem.value.For(org) := Recorded(idem.value.hash, id)]
  }

  // ----- Quota arithmetic -----

  predicate PeriodExpired(policy: Policy, usage: Usage, now: int) {
    now - usage.periodStartedAt >= policy.periodSeconds * 1000
  }

  function PeriodJobs(policy: Policy, usage: Usage, now: int): int {
    if PeriodExpired(policy, usage, now) then 0 else usage.periodJobs
  }

  predicate JobAllowed(policy: Policy, usage: Usage, now: int) {
    usage.active < policy.maxConcurrent && PeriodJobs(policy, usage, now) < policy.maxPerPeriod
  }

  /** A single submission restarts the window whenever it is the first one counted in it. */
  function JobUsage(policy: Policy, usage: Usage, now: int): Usage {
    var jobs := PeriodJobs(policy, usage, now);
    Usage(usage.active + 1, jobs + 1, if jobs == 0 then now else usage.periodStartedAt)
  }

  predicate BatchAllowed(policy: Policy, usage: Usage, n: int, now: int) {
    && n <= policy.maxBatch
    && usage.active + n <= policy.maxConcurrent
    && PeriodJobs(policy, usage, now) + n <= policy.maxPerPeriod
  }

  /** A batch restarts the window only when it has expired. */
  function BatchUsage(policy: Policy, usage: Usage, n: int, now: int): Usage {
    Usage(usage.active + n, PeriodJobs(policy, usage, now) + n,
          if PeriodExpired(policy, usage, now) then now else usage.periodStartedAt)
  }

  // ----- Submissions -----

  function Claimable(artifacts: map<Key, Artifact>, org: Org, ids: seq<Name>): set<Key> {
    set key | key in artifacts && key.org == org && key.id in ids && artifacts[key].ready && artifacts[key].job.None?
  }

  function Claimed(artifacts: map<Key, Artifact>, keys: set<Key>, id: Name): map<Key, Artifact> {
    map key | key in artifacts :: if key in keys then artifacts[key].(job := Some(id)) else artifacts[key]
  }

  /** The checks of a single submission after its idempotency key, in order. */
  function JobRefusal(s: Store, input: NewJob, admitted: bool): Option<Error> {
    if input.org !in s.policies || input.org !in s.core.usage then Some(MissingRow)
    else if !admitted then Some(NotAdmitted)
    else if !JobAllowed(s.policies[input.org], s.core.usage[input.org], input.now) then Some(QuotaExceeded)
    else if |Claimable(s.artifacts, input.org, input.inputs)| != |input.inputs| then Some(Conflict)
    else if input.Key() in s.core.jobs || OutboxKey(input.Key(), input.job.attempt) in s.outbox then Some(DuplicateRow)
    else None
  }

  function JobCreated(s: Store, input: NewJob, idem: Option<Idempotency>): Store
    requires input.org in s.policies && input.org in s.core.usage
  {
    s.(core := Count(Write(s.core, input.Key(), input.job), input.org,
                     JobUsage(s.policies[input.org], s.core.usage[input.org], input.now)),
       outbox := s.outbox + {OutboxKey(input.Key(), input.job.attempt)},
       jobRequests := Remember(s.jobRequests, input.org, idem, input.id),
       artifacts := Claimed(s.artifacts, Claimable(s.artifacts, input.org, input.inputs), input.id))
  }

  function CommitJob(s: Store, input: NewJob, idem: Option<Idempotency>, admitted: bool)
    : (Store, Result<Committed, Error>)
  {
    var replayed := Replayed(s.jobRequests, input.org, idem);
    if replayed.Some? then (s, replayed.value)
    else
      var refusal := JobRefusal(s, input, admitted);
      if refusal.Some? then (s, Err(refusal.value)) else (JobCreated(s, input, idem), Ok(Created))
  }

  function ChildJob(batch: Name, now: int): Job { Job(Queued, 1, 0, None, None, Some(batch), now) }

  /** The children so far, or none if an id is taken. */
  function Children(jobs: map<Key, Job>, queue: map<Key, QueueRow>, batch: NewBatch, n: nat)
    : Option<(map<Key, Job>, map<Key, QueueRow>)>
    requires n <= |batch.children|
  {
    if n == 0 then Some((jobs, queue))
    else
      var before := Children(jobs, queue, batch, n - 1);
      var key := Key(batch.org, batch.children[n - 1]);
      if before.None? || key in before.value.0 || key in before.value.1 then None
      else Some((before.value.0[key := ChildJob(batch.id, batch.now)],
                 before.value.1[key := QueueRow(batch.now, 0, batch.now, None)]))
  }

  predicate InputsReady(artifacts: map<Key, Artifact>, org: Org, ids: seq<Name>) {
    forall id :: id in ids ==> Key(org, id) in artifacts && artifacts[Key(org, id)].ready
  }

  function BatchRefusal(s: Store, batch: NewBatch, admitted: bool): Option<Error> {
    if batch.org !in s.policies || batch.org !in s.core.usage then Some(MissingRow)
    else if !admitted then Some(NotAdmitted)
    else if !BatchAllowed(s.policies[batch.org], s.core.usage[batch.org], batch.totalJobs, batch.now) then
      Some(QuotaExceeded)
    else if !InputsReady(s.artifacts, batch.org, batch.sharedInputs) then Some(Conflict)
    else if Children(s.core.jobs, s.queue, batch, |batch.children|).None? then Some(DuplicateRow)
    else None
  }

  function BatchCreated(s: Store, batch: NewBatch, idem: Option<Idempotency>): Store
    requires batch.org in s.policies && batch.org in s.core.usage
    requires Children(s.core.jobs, s.queue, batch, |batch.children|).Some?
  {
    var (jobs, queue) := Children(s.core.jobs, s.queue, batch, |batch.children|).value;
    s.(core := Count(s.core.(jobs := jobs), batch.org,
                     BatchUsage(s.policies[batch.org], s.core.usage[batch.org], batch.totalJobs, batch.now)),
       queue := queue,
       batchRequests := Remember(s.batchRequests, batch.org, idem, batch.id))
  }

  function CommitBatch(s: Store, batch: NewBatch, idem: Option<Idempotency>, admitted: bool)
    : (Store, Result<Committed, Error>)
  {
    var replayed := Replayed(s.batchRequests, batch.org, idem);
    if replayed.Some? then (s, replayed.value)
    else
      var refusal := BatchRefusal(s, batch, admitted);
      if refusal.Some? then (s, Err(refusal.value)) else (BatchCreated(s, batch, idem), Ok(Created))
  }

  // ----- Updates -----

  datatype Update = Update(
    key: Key, attempt: int, expectedState: JobState, expectedLastEvent: int, state: Option<JobState>, now: int)

  predicate IsCurrent(s: Store, key: Key, attempt: int, state: JobState, lastEvent: int) {
    && key in s.core.jobs && s.core.jobs[key].attempt == attempt
    && s.core.jobs[key].state == state && s.core.jobs[key].lastEvent == lastEvent
  }

  function UpdatedJob(job: Job, update: Update): Job {
    job.(state := if update.state.Some? then update.state.value else job.state,
         updatedAt := Max(job.updatedAt, update.now))
  }

  function UpdateIfCurrent(s: Store, update: Update): (Store, bool) {
    if !IsCurrent(s, update.key, update.attempt, update.expectedState, update.expectedLastEvent) then (s, false)
    else
      var job := UpdatedJob(s.core.jobs[update.key], update);
      (s.(core := if update.state.Some? then Settle(s.core, update.key, job) else Write(s.core, update.key, job)), true)
  }

  datatype JobEvent = JobEvent(
    key: Key, attempt: int, sequence: int, content: Name, expectedState: JobState, expectedLastEvent: int,
    expectedSession: Option<Name>, session: Name, state: JobState, now: int)

  function EventedJob(job: Job, event: JobEvent): Job {
    job.(session := Some(event.session), state := event.state, lastEvent := Max(job.lastEvent, event.sequence),
         updatedAt := Max(job.updatedAt, event.now))
  }

  /** Its number is free or was used for the same content. */
  predicate EventMatches(s: Store, event: JobEvent) {
    var row := EventKey(event.key, event.attempt, event.sequence);
    row in s.events ==> s.events[row] == event.content
  }

  /** The job stands where the event expects it, under a session the event may speak for. */
  predicate EventIsNext(s: Store, event: JobEvent) {
    && IsCurrent(s, event.key, event.attempt, event.expectedState, event.expectedLastEvent)
    && var session := s.core.jobs[event.key].session;
    session.Some? && (session == event.expectedSession || session == Some(event.session))
  }

  /** An event is stored once per sequence; a replay must carry the same content. */
  function ApplyEvent(s: Store, event: JobEvent): (Store, Result<bool, Error>) {
    var row := EventKey(event.key, event.attempt, event.sequence);
    if !EventMatches(s, event) then (s, Err(Conflict))
    else if !EventIsNext(s, event) then (s, Ok(false))
    else
      (s.(events := s.events[row := event.content],
          core := Settle(s.core, event.key, EventedJob(s.core.jobs[event.key], event))), Ok(true))
  }

  // ----- Dispatch -----

  predicate IsQueued(s: Store, key: Key) { key in s.core.jobs && s.core.jobs[key].state.Queued? }

  function BoundJob(job: Job, worker: Key, session: Name, now: int): Job {
    job.(state := Received, worker := Some(worker), session := Some(session), updatedAt := now)
  }

  function Bind(s: Store, key: Key, worker: Key, session: Name, now: int): (Store, bool) {
    if !IsQueued(s, key) then (s, false)
    else
      (s.(core := Write(s.core, key, BoundJob(s.core.jobs[key], worker, session, now)),
          outbox := s.outbox + {OutboxKey(key, s.core.jobs[key].attempt)},
          queue := s.queue - {key}), true)
  }

  function CancelQueued(s: Store, key: Key, now: int): (Store, bool) {
    if !IsQueued(s, key) then (s, false)
    else
      (s.(core := Settle(s.core, key, s.core.jobs[key].(state := Cancelled, updatedAt := now)),
          queue := s.queue - {key}), true)
  }

  predicate Dispatchable(row: QueueRow, now: int) {
    row.availableAt <= now && (row.leaseUntil.None? || row.leaseUntil.value < now)
  }

  function LeaseEnd(now: int, leaseSeconds: int): int { now + Max(0, leaseSeconds) * 1000 }

  function ClaimRow(s: Store, key: Key, leaseSeconds: int, now: int): Store
    requires key in s.queue
  {
    s.(queue := s.queue[key := s.queue[key].(leaseUntil := Some(LeaseEnd(now, leaseSeconds)))])
  }

  // ----- Reconciliation -----

  predicate IsStale(workers: map<Key, int>, job: Job, cutoff: int) {
    && !job.state.IsTerminal() && job.updatedAt <= cutoff
    && !(job.worker.Some? && job.worker.value in workers && workers[job.worker.value] > cutoff)
  }

  function Stale(s: Store, cutoff: int): set<Key> {
    set key | key in s.core.jobs && IsStale(s.workers, s.core.jobs[key], cutoff)
  }

  function FailAll(jobs: map<Key, Job>, keys: set<Key>, now: int): map<Key, Job> {
    map key | key in jobs :: if key in keys then jobs[key].(state := Failed, updatedAt := now) else jobs[key]
  }

  function Recount(jobs: map<Key, Job>, usage: map<Org, Usage>): map<Org, Usage> {
    map org | org in usage :: usage[org].(active := |Active(jobs, org)|)
  }

  function Cutoff(now: int, staleAfterMs: int): int { now - Max(1000, staleAfterMs) }

  function Reconcile(s: Store, now: int, staleAfterMs: int): Store {
    var stale := Stale(s, Cutoff(now, staleAfterMs));
    var jobs := FailAll(s.core.jobs, stale, now);
    s.(core := Core(jobs, Recount(jobs, s.core.usage), s.core.ledger + stale))
  }

  // ----- Conservation, transaction by transaction -----

  lemma {:induction false} CommitJobConserves(s: Store, input: NewJob, idem: Option<Idempotency>, admitted: bool)
    requires Balanced(s.core) && !input.job.state.IsTerminal()
    ensures Balanced(CommitJob(s, input, idem, admitted).0.core)
  {
    hide Active, JobAllowed, Claimable, LedgerExact;
    if CommitJob(s, input, idem, admitted).1 == Ok(Created) {
      InsertCounts(s.core, input.Key(), input.job, 0);
      CountSettles(Write(s.core, input.Key(), input.job), input.org,
                   JobUsage(s.policies[input.org], s.core.usage[input.org], input.now), 1);
    }
  }

  lemma {:induction false} ChildrenCount(core: Core, queue: map<Key, QueueRow>, batch: NewBatch, n: nat)
    requires Balanced(core) && batch.org in core.usage && n <= |batch.children|
    ensures var children := Children(core.jobs, queue, batch, n);
            children.Some? ==>
              var core' := core.(jobs := children.value.0);
              Counts(core', batch.org, n) && LedgerExact(core') && Metered(core')
  {
    hide Active, LedgerExact;
    if n > 0 && Children(core.jobs, queue, batch, n).Some? {
      ChildrenCount(core, queue, batch, n - 1);
      var before := core.(jobs := Children(core.jobs, queue, batch, n - 1).value.0);
      InsertCounts(before, Key(batch.org, batch.children[n - 1]), ChildJob(batch.id, batch.now), n - 1);
    } else if n == 0 {
      assert core.(jobs := core.jobs) == core;
    }
  }

  /** A committed batch conserves quota exactly when it states how many children it has. */
  lemma {:induction false} CommitBatchConservesIff(s: Store, batch: NewBatch, idem: Option<Idempotency>, admitted: bool)
    requires Balanced(s.core)
    ensures Balanced(CommitBatch(s, batch, idem, admitted).0.core) <==>
              (Replayed(s.batchRequests, batch.org, idem).None? && BatchRefusal(s, batch, admitted).None? ==>
                 batch.totalJobs == |batch.children|)
  {
    hide BatchAllowed, InputsReady, LedgerExact;
    var (s', result) := CommitBatch(s, batch, idem, admitted);
    if result == Ok(Created) {
      var n := |batch.children|;
      ChildrenCount(s.core, s.queue, batch, n);
      var core := s.core.(jobs := Children(s.core.jobs, s.queue, batch, n).value.0);
      var usage := BatchUsage(s.policies[batch.org], s.core.usage[batch.org], batch.totalJobs, batch.now);
      if batch.totalJobs == n {
        CountSettles(core, batch.org, usage, n);
      } else {
        assert core.usage[batch.org].active + n == |Active(core.jobs, batch.org)|;
        assert s'.core.usage[batch.org].active != |Active(s'.core.jobs, batch.org)|;
      }
    }
  }

  /** An update conserves quota exactly when it does not revive an ended job. */
  lemma {:induction false} UpdateConservesIff(s: Store, update: Update)
    requires Balanced(s.core)
    ensures Balanced(UpdateIfCurrent(s, update).0.core) <==>
              (IsCurrent(s, update.key, update.attempt, update.expectedState, update.expectedLastEvent) ==>
                 update.expectedState.IsTerminal() && update.state.Some? ==> update.state.value.IsTerminal())
  {
    hide Active, Settle, LedgerExact, Counts;
    if UpdateIfCurrent(s, update).1 {
      var job := UpdatedJob(s.core.jobs[update.key], update);
      if update.state.Some? {
        SettleConservesIff(s.core, update.key, job);
      } else {
        TouchConserves(s.core, update.key, job);
      }
    }
  }

  /** Writing a job without changing its state leaves the balance alone. */
  lemma {:induction false} TouchConserves(core: Core, key: Key, job: Job)
    requires Balanced(core) && key in core.jobs && job.state == core.jobs[key].state
    ensures Balanced(Write(core, key, job))
  {
    forall o | o in core.usage ensures Active(Write(core, key, job).jobs, o) == Active(core.jobs, o) {
      ActiveAfterWrite(core.jobs, key, job, o);
      OneLess(Active(core.jobs, o), key);
    }
    hide Active;
  }

  lemma {:induction false} EventConservesIff(s: Store, event: JobEvent)
    requires Balanced(s.core)
    ensures Balanced(ApplyEvent(s, event).0.core) <==>
              (EventMatches(s, event) && EventIsNext(s, event) && event.expectedState.IsTerminal() ==>
                 event.state.IsTerminal())
  {
    hide Balanced, Settle;
    if ApplyEvent(s, event).1 == Ok(true) {
      SettleConservesIff(s.core, event.key, EventedJob(s.core.jobs[event.key], event));
    }
  }

  lemma {:induction false} BindConserves(s: Store, key: Key, worker: Key, session: Name, now: int)
    requires Balanced(s.core)
    ensures Balanced(Bind(s, key, worker, session, now).0.core)
  {
    hide Balanced;
    if IsQueued(s, key) {
      SettleConserves(s.core, key, BoundJob(s.core.jobs[key], worker, session, now));
    }
  }

  lemma {:induction false} CancelConserves(s: Store, key: Key, now: int)
    requires Balanced(s.core)
    ensures Balanced(CancelQueued(s, key, now).0.core)
  {
    hide Balanced, Settle;
    if IsQueued(s, key) {
      SettleConserves(s.core, key, s.core.jobs[key].(state := Cancelled, updatedAt := now));
    }
  }

  /**
   Reconciliation repairs the counters from whatever they had become: only the
   ledger has to be right before, and afterwards everything is.
   */
  lemma {:induction false} ReconcileRepairs(s: Store, now: int, staleAfterMs: int)
    requires LedgerExact(s.core) && Metered(s.core)
    ensures Balanced(Reconcile(s, now, staleAfterMs).core)
  {
  }

  /**
   Reconciliation fails exactly the live jobs that have been silent since the
   cutoff, themselves and their worker, and touches no other.
   */
  lemma {:induction false} ReconcileFailsTheSilent(s: Store, now: int, staleAfterMs: int, key: Key)
    requires key in s.core.jobs
    ensures var job, cutoff := s.core.jobs[key], now - Max(1000, staleAfterMs);
            var workerSeen := job.worker.Some? && job.worker.value in s.workers && s.workers[job.worker.value] > cutoff;
            var jobs := Reconcile(s, now, staleAfterMs).core.jobs;
            && key in jobs
            && jobs[key] == if job.state.IsTerminal() || job.updatedAt > cutoff || workerSeen then job
                            else job.(state := Failed, updatedAt := now)
  {
    hide Recount, Active;
  }

  // ----- Inputs and events -----

  ghost predicate Usable(artifacts: map<Key, Artifact>, org: Org, id: Name) {
    Key(org, id) in artifacts && artifacts[Key(org, id)].ready && artifacts[Key(org, id)].job.None?
  }

  /**
   Comparing the number of claimed rows with the number of inputs is the right
   check: they agree exactly when every input is usable and none is named twice.
   */
  lemma {:induction false} ClaimCountDecides(artifacts: map<Key, Artifact>, org: Org, ids: seq<Name>)
    ensures |Claimable(artifacts, org, ids)| <= |ids|
    ensures |Claimable(artifacts, org, ids)| == |ids| <==>
              NoRepeats(ids) && forall id :: id in ids ==> Usable(artifacts, org, id)
  {
    if ids == [] {
      assert Claimable(artifacts, org, ids) == {};
    } else {
      var id, rest := ids[0], ids[1..];
      ClaimCountDecides(artifacts, org, rest);
      var before := Claimable(artifacts, org, rest);
      assert Claimable(artifacts, org, ids) == if Usable(artifacts, org, id) then before + {Key(org, id)} else before;
      assert Usable(artifacts, org, id) && id in rest ==> Key(org, id) in before;
      assert forall j :: j in ids <==> j == id || j in rest;
    }
  }

  /** A created job owns its inputs, which nobody owned before; no other artifact changes. */
  lemma {:induction false} CreatedJobOwnsItsInputs(s: Store, input: NewJob, idem: Option<Idempotency>, admitted: bool, key: Key)
    requires CommitJob(s, input, idem, admitted).1 == Ok(Created)
    ensures var artifacts := CommitJob(s, input, idem, admitted).0.artifacts;
            && artifacts.Keys == s.artifacts.Keys
            && (key.org == input.org && key.id in input.inputs ==>
                  Usable(s.artifacts, input.org, key.id) && artifacts[key].job == Some(input.id))
            && (key in s.artifacts && !(key.org == input.org && key.id in input.inputs) ==>
                  artifacts[key] == s.artifacts[key])
  {
    ClaimCountDecides(s.artifacts, input.org, input.inputs);
    hide JobAllowed, NoRepeats, Remember;
  }

  /**
   A delivered event is delivered once: its replay finds the job moved on and
   changes nothing, and its number with other content is a conflict.
   */
  lemma {:induction false} ReplayedEventIsInert(s: Store, event: JobEvent, other: Name)
    requires ApplyEvent(s, event).1 == Ok(true) && event.sequence > event.expectedLastEvent
    ensures var s' := ApplyEvent(s, event).0;
            && ApplyEvent(s', event) == (s', Ok(false))
            && (other != event.content ==> ApplyEvent(s', event.(content := other)) == (s', Err(Conflict)))
  {
    SettleWrites(s.core, event.key, EventedJob(s.core.jobs[event.key], event));
    hide Settle;
  }

  // ----- Every run -----

  datatype Step =
    | SubmitJob(input: NewJob, idem: Option<Idempotency>, admitted: bool)
    | SubmitBatch(batch: NewBatch, idem: Option<Idempotency>, admitted: bool)
    | UpdateJob(update: Update)
    | DeliverEvent(event: JobEvent)
    | BindJob(key: Key, worker: Key, session: Name, now: int)
    | CancelJob(key: Key, now: int)
    | ReleaseAgain(key: Key)
    | ClaimJob(key: Key, leaseSeconds: int, now: int)
    | ReconcileQuota(now: int, staleAfterMs: int)
    // what happens around the store
    | WorkerSeen(worker: Key, at: int)
    | ArtifactChanged(key: Key, artifact: Artifact)

  /** What the hub promises its store: legal transitions, live new jobs, honest batch sizes. */
  predicate Lawful(step: Step) {
    match step
    case SubmitJob(input, _, _) => !input.job.state.IsTerminal() && input.job.batch.None?
    case SubmitBatch(batch, _, _) => batch.totalJobs == |batch.children|
    case UpdateJob(update) => update.state.Some? ==> update.expectedState.CanTransitionTo(update.state.value)
    case DeliverEvent(event) => event.expectedState.CanTransitionTo(event.state)
    case _ => true
  }

  function Apply(s: Store, step: Step): Store {
    match step
    case SubmitJob(input, idem, admitted) => CommitJob(s, input, idem, admitted).0
    case SubmitBatch(batch, idem, admitted) => CommitBatch(s, batch, idem, admitted).0
    case UpdateJob(update) => UpdateIfCurrent(s, update).0
    case DeliverEvent(event) => ApplyEvent(s, event).0
    case BindJob(key, worker, session, now) => Bind(s, key, worker, session, now).0
    case CancelJob(key, now) => CancelQueued(s, key, now).0
    case ReleaseAgain(key) => s.(core := Release(s.core, key))
    case ClaimJob(key, leaseSeconds, now) =>
      if key in s.queue && Dispatchable(s.queue[key], now) then ClaimRow(s, key, leaseSeconds, now) else s
    case ReconcileQuota(now, staleAfterMs) => Reconcile(s, now, staleAfterMs)
    case WorkerSeen(worker, at) => s.(workers := s.workers[worker := at])
    case ArtifactChanged(key, artifact) => s.(artifacts := s.artifacts[key := artifact])
  }

  function After(s: Store, steps: seq<Step>): Store {
    if steps == [] then s else Apply(After(s, steps[..|steps| - 1]), steps[|steps| - 1])
  }

  /** A store without jobs, its counters at zero, is where every run may begin. */
  lemma {:induction false} EmptyStoreIsBalanced(s: Store)
    requires s.core.jobs == map[] && s.core.ledger == {}
    requires forall org :: org in s.core.usage ==> s.core.usage[org].active == 0
    requires forall org :: org in s.policies ==> s.policies[org].maxConcurrent >= 0
    ensures Balanced(s.core) && WithinLimits(s)
  {
    forall org ensures Active(s.core.jobs, org) == {} {
    }
  }

  lemma {:induction false} StepConserves(s: Store, step: Step)
    requires Balanced(s.core) && Lawful(step)
    ensures Balanced(Apply(s, step).core)
  {
    match step
    case SubmitJob(input, idem, admitted) => CommitJobConserves(s, input, idem, admitted);
    case SubmitBatch(batch, idem, admitted) => CommitBatchConservesIff(s, batch, idem, admitted);
    case UpdateJob(update) => UpdateConservesIff(s, update);
    case DeliverEvent(event) => EventConservesIff(s, event);
    case BindJob(key, worker, session, now) => BindConserves(s, key, worker, session, now);
    case CancelJob(key, now) => CancelConserves(s, key, now);
    case ReleaseAgain(key) => ReleaseIsIdempotent(s.core, key);
    case ReconcileQuota(now, staleAfterMs) => ReconcileRepairs(s, now, staleAfterMs);
    case _ =>
  }

  /** No organization has more live jobs than its policy allows. */
  ghost predicate WithinLimits(s: Store) {
    forall org :: org in s.core.usage && org in s.policies ==>
      |Active(s.core.jobs, org)| <= s.policies[org].maxConcurrent
  }

  /** What a step may do to the live jobs of an organization, policy included. */
  ghost predicate LimitKept(s: Store, s': Store, org: Org) {
    || org !in s.policies
    || |Active(s'.core.jobs, org)| <= |Active(s.core.jobs, org)|
    || |Active(s'.core.jobs, org)| <= s.policies[org].maxConcurrent
  }

  /** A submission raises a counter only as far as the policy allows. */
  ghost predicate CounterKept(s: Store, s': Store, org: Org) {
    && org in s'.core.usage && org in s.core.usage
    && (org !in s.policies || s'.core.usage[org].active <= Max(s.core.usage[org].active, s.policies[org].maxConcurrent))
  }

  lemma {:induction false} CommitJobKeepsCounter(s: Store, input: NewJob, idem: Option<Idempotency>, admitted: bool, org: Org)
    requires org in s.core.usage
    ensures CounterKept(s, CommitJob(s, input, idem, admitted).0, org)
  {
    hide Claimable, Claimed, Replayed, Remember;
  }

  lemma {:induction false} CommitBatchKeepsCounter(s: Store, batch: NewBatch, idem: Option<Idempotency>, admitted: bool, org: Org)
    requires org in s.core.usage
    ensures CounterKept(s, CommitBatch(s, batch, idem, admitted).0, org)
  {
    hide InputsReady, Children, Replayed, Remember;
  }

  /** A step that revives no job and adds none leaves no more of them live. */
  lemma {:induction false} NoNewLiveJobs(before: map<Key, Job>, after: map<Key, Job>, org: Org)
    requires forall key :: key in after ==> key in before && (before[key].state.IsTerminal() ==> after[key].state.IsTerminal())
    ensures |Active(after, org)| <= |Active(before, org)|
  {
    SubsetSize(Active(after, org), Active(before, org));
  }

  predicate Submits(step: Step) { step.SubmitJob? || step.SubmitBatch? }

  /**
   Every other transaction adds no job and moves jobs along allowed transitions,
   except that reconciliation fails any live job, a queued one too.
   */
  ghost predicate Advances(before: Job, after: Job, step: Step) {
    && SameIdentity(before, after)
    && (before.state.CanTransitionTo(after.state)
        || (step.ReconcileQuota? && !before.state.IsTerminal() && after.state.Failed?))
  }

  lemma {:induction false} SettleWrites(core: Core, key: Key, job: Job)
    ensures Settle(core, key, job).jobs == core.jobs[key := job]
    ensures Settle(core, key, job).usage.Keys == core.usage.Keys
  {
  }

  /** No transaction adds or drops a usage row, or touches a policy. */
  ghost predicate SameRows(s: Store, s': Store) {
    s'.core.usage.Keys == s.core.usage.Keys && s'.policies == s.policies
  }

  /** The same jobs, and this one moved along an allowed transition if at all. */
  ghost predicate Moved(before: map<Key, Job>, after: map<Key, Job>, key: Key) {
    && (key in after <==> key in before)
    && (key in before ==> SameIdentity(before[key], after[key]) && before[key].state.CanTransitionTo(after[key].state))
  }

  predicate SameIdentity(before: Job, after: Job) { after.batch == before.batch && after.attempt == before.attempt }

  lemma {:induction false} UpdateMoves(s: Store, update: Update, key: Key)
    requires update.state.Some? ==> update.expectedState.CanTransitionTo(update.state.value)
    ensures SameRows(s, UpdateIfCurrent(s, update).0) && Moved(s.core.jobs, UpdateIfCurrent(s, update).0.core.jobs, key)
  {
    if update.key in s.core.jobs {
      SettleWrites(s.core, update.key, UpdatedJob(s.core.jobs[update.key], update));
    }
    hide Settle;
  }

  lemma {:induction false} EventMoves(s: Store, event: JobEvent, key: Key)
    requires event.expectedState.CanTransitionTo(event.state)
    ensures SameRows(s, ApplyEvent(s, event).0) && Moved(s.core.jobs, ApplyEvent(s, event).0.core.jobs, key)
  {
    if event.key in s.core.jobs {
      SettleWrites(s.core, event.key, EventedJob(s.core.jobs[event.key], event));
    }
    hide Settle;
  }

  lemma {:induction false} BindMoves(s: Store, k: Key, worker: Key, session: Name, now: int, key: Key)
    ensures SameRows(s, Bind(s, k, worker, session, now).0) && Moved(s.core.jobs, Bind(s, k, worker, session, now).0.core.jobs, key)
  {
    if IsQueued(s, k) {
      var job := BoundJob(s.core.jobs[k], worker, session, now);
      assert Bind(s, k, worker, session, now).0.core == Write(s.core, k, job);
      assert s.core.jobs[k].state.CanTransitionTo(job.state) && SameIdentity(s.core.jobs[k], job);
      hide Bind, BoundJob;
    }
  }

  lemma {:induction false} CancelMoves(s: Store, k: Key, now: int, key: Key)
    ensures SameRows(s, CancelQueued(s, k, now).0) && Moved(s.core.jobs, CancelQueued(s, k, now).0.core.jobs, key)
  {
    if k in s.core.jobs {
      SettleWrites(s.core, k, s.core.jobs[k].(state := Cancelled, updatedAt := now));
    }
    hide Settle;
  }

  lemma {:induction false} ReconcileAdvances(s: Store, now: int, staleAfterMs: int, key: Key)
    ensures key in Reconcile(s, now, staleAfterMs).core.jobs <==> key in s.core.jobs
    ensures key in s.core.jobs ==>
              var after := Reconcile(s, now, staleAfterMs).core.jobs[key];
              && SameIdentity(s.core.jobs[key], after)
              && (after.state == s.core.jobs[key].state
                  || (!s.core.jobs[key].state.IsTerminal() && after.state.Failed?))
  {
    hide Recount, Active;
  }

  lemma {:induction false} JobsOnlyAdvance(s: Store, step: Step, key: Key)
    requires Lawful(step) && !Submits(step)
    ensures key in Apply(s, step).core.jobs <==> key in s.core.jobs
    ensures key in s.core.jobs ==> Advances(s.core.jobs[key], Apply(s, step).core.jobs[key], step)
  {
    hide UpdateIfCurrent, ApplyEvent, Bind, CancelQueued, Reconcile, Dispatchable;
    match step
    case UpdateJob(update) => UpdateMoves(s, update, key);
    case DeliverEvent(event) => EventMoves(s, event, key);
    case BindJob(k, worker, session, now) => BindMoves(s, k, worker, session, now, key);
    case CancelJob(k, now) => CancelMoves(s, k, now, key);
    case ReconcileQuota(now, staleAfterMs) => ReconcileAdvances(s, now, staleAfterMs, key);
    case _ =>
  }

  lemma {:induction false} LimitKeptBySubmission(s: Store, step: Step, org: Org)
    requires Balanced(s.core) && Lawful(step) && Submits(step) && org in s.core.usage
    ensures LimitKept(s, Apply(s, step), org)
  {
    assert s.core.usage[org].active == |Active(s.core.jobs, org)|;
    StepConserves(s, step);
    assert CounterKept(s, Apply(s, step), org) by {
      hide CounterKept, Balanced;
      if step.SubmitJob? { CommitJobKeepsCounter(s, step.input, step.idem, step.admitted, org); }
      else { CommitBatchKeepsCounter(s, step.batch, step.idem, step.admitted, org); }
    }
    hide Apply, Active;
    assert Apply(s, step).core.usage[org].active == |Active(Apply(s, step).core.jobs, org)|;
  }

  lemma {:induction false} StepKeepsLimit(s: Store, step: Step)
    requires Balanced(s.core) && Lawful(step) && WithinLimits(s)
    ensures WithinLimits(Apply(s, step))
  {
    var s' := Apply(s, step);
    UsageRowsStay(s, step);
    hide Balanced, Apply, Active;
    forall org | org in s'.core.usage && org in s'.policies
      ensures |Active(s'.core.jobs, org)| <= s'.policies[org].maxConcurrent
    {
      if Submits(step) {
        LimitKeptBySubmission(s, step, org);
      } else {
        forall key | key in s'.core.jobs
          ensures key in s.core.jobs && (s.core.jobs[key].state.IsTerminal() ==> s'.core.jobs[key].state.IsTerminal())
        {
          JobsOnlyAdvance(s, step, key);
        }
        NoNewLiveJobs(s.core.jobs, s'.core.jobs, org);
      }
    }
  }

  lemma {:induction false} SubmissionKeepsRows(s: Store, step: Step)
    requires Submits(step)
    ensures SameRows(s, Apply(s, step))
  {
    hide Claimable, Claimed, Children, JobAllowed, BatchAllowed, InputsReady, Replayed, Remember;
  }

  lemma {:induction false} UsageRowsStay(s: Store, step: Step)
    requires Lawful(step)
    ensures SameRows(s, Apply(s, step))
  {
    if Submits(step) {
      SubmissionKeepsRows(s, step);
    } else {
      hide Active, FailAll, UpdateIfCurrent, ApplyEvent, Bind, CancelQueued;
      match step
      case UpdateJob(update) => UpdateMoves(s, update, update.key);
      case DeliverEvent(event) => EventMoves(s, event, event.key);
      case BindJob(k, worker, session, now) => BindMoves(s, k, worker, session, now, k);
      case CancelJob(k, now) => CancelMoves(s, k, now, k);
      case _ =>
    }
  }

  /**
   Quota conservation over every run of the store's transactions, in any order
   and with any replays: each organization's counter is its number of live jobs,
   a release is recorded exactly for the ended ones, and the policy's limit on
   live jobs is never exceeded.
   */
  lemma {:induction false} RunsConserveQuota(s: Store, steps: seq<Step>)
    requires Balanced(s.core) && WithinLimits(s) && forall i :: 0 <= i < |steps| ==> Lawful(steps[i])
    ensures Balanced(After(s, steps).core) && WithinLimits(After(s, steps))
  {
    hide Balanced, WithinLimits, Lawful;
    if steps != [] {
      RunsConserveQuota(s, steps[..|steps| - 1]);
      StepConserves(After(s, steps[..|steps| - 1]), steps[|steps| - 1]);
      StepKeepsLimit(After(s, steps[..|steps| - 1]), steps[|steps| - 1]);
    }
  }
}
