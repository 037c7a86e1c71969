/** The hub's tables, and what it means for the quota counters to be right. */
module HubTables {
  import opened Collections
  import opened JobStates

  /** An identifier, a hash or a payload: only equality matters. */
  type Name = nat

  type Org = Name

  datatype Key = Key(org: Org, id: Name)

  datatype Policy = Policy(maxConcurrent: int, maxPerPeriod: int, periodSeconds: int, maxBatch: int)

  datatype Usage = Usage(active: int, periodJobs: int, periodStartedAt: int)

  datatype Job = Job(
    state: JobState, attempt: int, lastEvent: int, session: Option<Name>, worker: Option<Key>,
    batch: Option<Name>, updatedAt: int)

  datatype QueueRow = QueueRow(availableAt: int, priority: int, createdAt: int, leaseUntil: Option<int>)

  datatype OutboxKey = OutboxKey(job: Key, attempt: int)

  datatype EventKey = EventKey(job: Key, attempt: int, sequence: int)

  /** An idempotency key of one actor at one endpoint of an organization. */
  datatype Request = Request(org: Org, actorKind: Name, actorId: Name, endpoint: Name, key: Name)

  datatype Recorded = Recorded(hash: Name, id: Name)

  datatype Artifact = Artifact(ready: bool, job: Option<Name>)

  /** The tables the quota claims are about. */
  datatype Core = Core(jobs: map<Key, Job>, usage: map<Org, Usage>, ledger: set<Key>)

  datatype Store = Store(
    core: Core,
    policies: map<Org, Policy>,
    queue: map<Key, QueueRow>,
    outbox: set<OutboxKey>,
    jobRequests: map<Request, Recorded>,
    batchRequests: map<Request, Recorded>,
    events: map<EventKey, Name>,
    artifacts: map<Key, Artifact>,
    workers: map<Key, int>)

  datatype Error = MissingRow | Conflict | QuotaExceeded | NotAdmitted | DuplicateRow

  // ----- Counting -----

  function Active(jobs: map<Key, Job>, org: Org): set<Key> {
    set key | key in jobs && key.org == org && !jobs[key].state.IsTerminal()
  }

  lemma {:induction false} ActiveAfterWrite(jobs: map<Key, Job>, key: Key, job: Job, org: Org)
    ensures var before, after := Active(jobs, org), Active(jobs[key := job], org);
            && (key.org != org ==> after == before)
            && (key.org == org ==> after == if job.state.IsTerminal() then before - {key} else before + {key})
  {
    var before, after := Active(jobs, org), Active(jobs[key := job], org);
    if key.org != org { assert after == before; }
    else if job.state.IsTerminal() { assert after == before - {key}; }
    else { assert after == before + {key}; }
  }

  /** The counter of every organization but for `extra` jobs of one of them. */
  ghost predicate Counts(core: Core, org: Org, extra: int) {
    forall o :: o in core.usage ==>
      core.usage[o].active + (if o == org then extra else 0) == |Active(core.jobs, o)|
  }

  /** A release is recorded exactly for the jobs that ended. */
  ghost predicate LedgerExact(core: Core) {
    forall key :: key in core.ledger <==> key in core.jobs && core.jobs[key].state.IsTerminal()
  }

  ghost predicate Metered(core: Core) {
    forall key :: key in core.jobs ==> key.org in core.usage
  }

  /** Quota conservation. */
  ghost predicate Balanced(core: Core) {
    Counts(core, 0, 0) && LedgerExact(core) && Metered(core)
  }

  // ----- Changes the transactions are made of -----

  function Write(core: Core, key: Key, job: Job): Core {
    core.(jobs := core.jobs[key := job])
  }

  function Count(core: Core, org: Org, usage: Usage): Core {
    core.(usage := core.usage[org := usage])
  }

  function Max(a: int, b: int): int { if a < b then b else a }

  /** One release per ended job, however often it is asked for. */
  function Release(core: Core, key: Key): Core {
    if key !in core.jobs || !core.jobs[key].state.IsTerminal() || key in core.ledger then core
    else
      var recorded := core.(ledger := core.ledger + {key});
      if key.org !in core.usage then recorded
      else Count(recorded, key.org, core.usage[key.org].(active := Max(0, core.usage[key.org].active - 1)))
  }

  /** An update that reaches a terminal state releases the job. */
  function Settle(core: Core, key: Key, job: Job): Core {
    if job.state.IsTerminal() then Release(Write(core, key, job), key) else Write(core, key, job)
  }

  /** A new live job, counted. */
  lemma {:induction false} InsertCounts(core: Core, key: Key, job: Job, extra: int)
    requires Counts(core, key.org, extra) && LedgerExact(core) && Metered(core)
    requires key !in core.jobs && key.org in core.usage && !job.state.IsTerminal()
    ensures var core' := Write(core, key, job);
            Counts(core', key.org, extra + 1) && LedgerExact(core') && Metered(core')
  {
    var core' := Write(core, key, job);
    forall o | o in core'.usage
      ensures core'.usage[o].active + (if o == key.org then extra + 1 else 0) == |Active(core'.jobs, o)|
    {
      ActiveAfterWrite(core.jobs, key, job, o);
    }
  }

  lemma {:induction false} CountSettles(core: Core, org: Org, usage: Usage, extra: int)
    requires Counts(core, org, extra) && LedgerExact(core) && Metered(core)
    requires org in core.usage && usage.active == core.usage[org].active + extra
    ensures Balanced(Count(core, org, usage))
  {
    hide Active;
  }

  /**
   Exactly when a job may be rewritten: the update conserves quota if and only if
   it does not bring an ended job back to life.
   */
  lemma {:induction false} SettleConservesIff(core: Core, key: Key, job: Job)
    requires Balanced(core) && key in core.jobs
    ensures Balanced(Settle(core, key, job))
            <==> (core.jobs[key].state.IsTerminal() ==> job.state.IsTerminal())
  {
    if core.jobs[key].state.IsTerminal() && !job.state.IsTerminal() {
      var core' := Settle(core, key, job);
      assert key in core'.ledger && !core'.jobs[key].state.IsTerminal();
    } else {
      SettleConserves(core, key, job);
    }
  }

  lemma {:induction false} SettleConserves(core: Core, key: Key, job: Job)
    requires Balanced(core) && key in core.jobs
    requires core.jobs[key].state.IsTerminal() ==> job.state.IsTerminal()
    ensures Balanced(Settle(core, key, job))
  {
    var core' := Settle(core, key, job);
    assert core'.usage.Keys == core.usage.Keys && LedgerExact(core') && Metered(core') by { hide Active, Counts; }
    hide LedgerExact, Settle;
    forall o | o in core'.usage ensures core'.usage[o].active == |Active(core'.jobs, o)| {
      SettleCounts(core, key, job, o);
    }
  }

  lemma {:induction false} SettleCounts(core: Core, key: Key, job: Job, o: Org)
    requires Balanced(core) && key in core.jobs && o in core.usage
    requires core.jobs[key].state.IsTerminal() ==> job.state.IsTerminal()
    ensures o in Settle(core, key, job).usage
    ensures Settle(core, key, job).usage[o].active == |Active(Settle(core, key, job).jobs, o)|
  {
    var before := Active(core.jobs, o);
    ActiveAfterWrite(core.jobs, key, job, o);
    assert key in before <==> key.org == o && !core.jobs[key].state.IsTerminal();
    assert key in core.ledger <==> core.jobs[key].state.IsTerminal();
    assert core.usage[o].active == |before|;
    OneLess(before, key);
    hide Active, LedgerExact, Counts, Metered;
    if key.org == o {
      if job.state.IsTerminal() {
        assert Active(Write(core, key, job).jobs, o) == before - {key};
      } else {
        assert Active(Write(core, key, job).jobs, o) == before;
      }
    }
  }

  lemma {:induction false} OneLess(keys: set<Key>, key: Key)
    ensures key in keys ==> keys + {key} == keys && |keys - {key}| == |keys| - 1
    ensures key !in keys ==> keys - {key} == keys
  {
  }

  /** However often a release is asked for, it happens once. */
  lemma {:induction false} ReleaseIsIdempotent(core: Core, key: Key)
    ensures Release(Release(core, key), key) == Release(core, key)
    ensures LedgerExact(core) ==> Release(core, key) == core
  {
  }
}
