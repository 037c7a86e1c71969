/**
 The bound of `HubPeriod` is the best there is: for every period and every lag up
 to half of it, a stretch longer by one millisecond can hold more than twice the
 limit. Empty batches and late submissions shift the windows.
 */
module HubPeriodEdge {
  import opened Collections
  import opened JobStates
  import opened HubTables
  import opened HubStore
  import opened HubPeriod

  /** No row of an id from `n` on. */
  ghost predicate Free(s: Store, n: Name) {
    && (forall key: Key :: key in s.core.jobs ==> key.id < n)
    && (forall key: Key :: key in s.queue ==> key.id < n)
    && (forall row: OutboxKey :: row in s.outbox ==> row.job.id < n)
  }

  /** One organization, with these counters and this policy. */
  ghost predicate Stands(s: Store, policy: Policy, usage: Usage, n: Name) {
    && Free(s, n)
    && 0 in s.policies && s.policies[0] == policy && 0 in s.core.usage && s.core.usage[0] == usage
  }

  function BatchOf(size: nat, now: int, n: Name): NewBatch {
    NewBatch(0, n, size, seq(size, (i: nat) => n + i), [], now)
  }

  function JobAt(now: int, n: Name): NewJob { NewJob(0, n, Job(Received, 1, 0, None, None, None, now), [], now) }

  lemma {:induction false} FreeChildrenGoIn(s: Store, batch: NewBatch, n: Name, k: nat)
    requires Free(s, n) && k <= |batch.children| && forall i :: 0 <= i < |batch.children| ==> batch.children[i] == n + i
    ensures Children(s.core.jobs, s.queue, batch, k).Some?
    ensures var (jobs, queue) := Children(s.core.jobs, s.queue, batch, k).value;
            && (forall key: Key :: key in jobs ==> key.id < n + k) && (forall key: Key :: key in queue ==> key.id < n + k)
  {
    if k > 0 { FreeChildrenGoIn(s, batch, n, k - 1); }
  }

  lemma {:induction false} BatchGoesIn(s: Store, policy: Policy, usage: Usage, size: nat, now: int, n: Name)
    requires Stands(s, policy, usage, n) && BatchAllowed(policy, usage, size, now)
    ensures var step := SubmitBatch(BatchOf(size, now, n), None, true);
            && Admits(s, step, 0) == size
            && Stands(Apply(s, step), policy, BatchUsage(policy, usage, size, now), n + size)
  {
    FreeChildrenGoIn(s, BatchOf(size, now, n), n, size);
    hide Children, BatchAllowed, BatchUsage;
  }

  lemma {:induction false} JobGoesIn(s: Store, policy: Policy, usage: Usage, now: int, n: Name)
    requires Stands(s, policy, usage, n) && JobAllowed(policy, usage, now)
    ensures var step := SubmitJob(JobAt(now, n), None, true);
            && Admits(s, step, 0) == 1
            && Stands(Apply(s, step), policy, JobUsage(policy, usage, now), n + 1)
  {
    assert Claimable(s.artifacts, 0, []) == {};
    hide Claimable, Claimed, JobAllowed, JobUsage;
  }

  // ----- A run, submission by submission -----

  /** A run from this store has come to these counters, admissions and time. */
  ghost predicate At(s: Store, steps: seq<Step>, lag: nat, policy: Policy, usage: Usage, log: seq<Admission>, clock: int, n: Name) {
    && 0 in s.core.usage && s.core.usage[0].periodStartedAt == 0
    && (forall i :: 0 <= i < |steps| ==> Lawful(steps[i]))
    && ClockRuns(0, steps, 0, lag) && Clock(0, steps, 0) == clock
    && Stands(After(s, steps), policy, usage, n) && Log(s, steps, 0) == log
  }

  lemma {:induction false} ClockRunsOn(steps: seq<Step>, step: Step, lag: nat)
    requires ClockRuns(0, steps, 0, lag) && SubmitsFor(step, 0) && Clock(0, steps, 0) <= HubPeriod.At(step) + lag
    ensures ClockRuns(0, steps + [step], 0, lag) && Clock(0, steps + [step], 0) == Max(Clock(0, steps, 0), HubPeriod.At(step))
  {
    var all := steps + [step];
    assert all[..|steps|] == steps;
    forall i | 0 <= i < |steps| && SubmitsFor(steps[i], 0) ensures Clock(0, all[..i], 0) <= HubPeriod.At(all[i]) + lag {
      assert all[..i] == steps[..i];
    }
  }

  lemma {:induction false} Extend(
      s: Store, steps: seq<Step>, lag: nat, policy: Policy, usage: Usage, log: seq<Admission>, clock: int, n: Name,
      step: Step, after: Usage, m: Name)
    requires At(s, steps, lag, policy, usage, log, clock, n)
    requires Lawful(step) && SubmitsFor(step, 0) && clock <= HubPeriod.At(step) + lag
    requires Stands(Apply(After(s, steps), step), policy, after, m)
    ensures var jobs, now := Admits(After(s, steps), step, 0), HubPeriod.At(step);
            At(s, steps + [step], lag, policy, after,
               log + if jobs == 0 then [] else [Admission(now, jobs, after.periodStartedAt)], Max(clock, now), m)
  {
    ClockRunsOn(steps, step, lag);
    assert (steps + [step])[..|steps|] == steps;
    hide Apply, Admits, Lawful, ClockRuns, Clock, Free;
  }

  lemma {:induction false} AddBatch(
      s: Store, steps: seq<Step>, lag: nat, policy: Policy, usage: Usage, log: seq<Admission>, clock: int, n: Name,
      size: nat, now: int)
    returns (all: seq<Step>)
    requires At(s, steps, lag, policy, usage, log, clock, n)
    requires BatchAllowed(policy, usage, size, now) && clock <= now + lag
    ensures var after := BatchUsage(policy, usage, size, now);
            At(s, all, lag, policy, after,
               log + if size == 0 then [] else [Admission(now, size, after.periodStartedAt)], Max(clock, now), n + size)
  {
    var step := SubmitBatch(BatchOf(size, now, n), None, true);
    assert Stands(After(s, steps), policy, usage, n);
    BatchGoesIn(After(s, steps), policy, usage, size, now, n);
    hide At, Apply, Admits, Stands, BatchAllowed, BatchUsage;
    Extend(s, steps, lag, policy, usage, log, clock, n, step, BatchUsage(policy, usage, size, now), n + size);
    all := steps + [step];
  }

  lemma {:induction false} AddJob(
      s: Store, steps: seq<Step>, lag: nat, policy: Policy, usage: Usage, log: seq<Admission>, clock: int, n: Name, now: int)
    returns (all: seq<Step>)
    requires At(s, steps, lag, policy, usage, log, clock, n)
    requires JobAllowed(policy, usage, now) && clock <= now + lag
    ensures var after := JobUsage(policy, usage, now);
            At(s, all, lag, policy, after, log + [Admission(now, 1, after.periodStartedAt)], Max(clock, now), n + 1)
  {
    var step := SubmitJob(JobAt(now, n), None, true);
    assert Stands(After(s, steps), policy, usage, n);
    JobGoesIn(After(s, steps), policy, usage, now, n);
    hide At, Apply, Admits, Stands, JobAllowed, JobUsage;
    Extend(s, steps, lag, policy, usage, log, clock, n, step, JobUsage(policy, usage, now), n + 1);
    all := steps + [step];
  }

  function TwoAPeriod(periodSeconds: int): Policy { Policy(10, 2, periodSeconds, 2) }

  function Empty(policy: Policy): Store {
    Store(Core(map[], map[0 := Usage(0, 0, 0)], {}), map[0 := policy], map[], {}, map[], map[], map[], map[], map[])
  }

  lemma {:induction false} StartsEmpty(policy: Policy, lag: nat)
    ensures At(Empty(policy), [], lag, policy, Usage(0, 0, 0), [], 0, 0)
  {
  }

  /** The admissions of the run: two late in the first window, two in the next, two early in the third. */
  function Crowd(period: int, lag: nat): seq<Admission> {
    [Admission(period - 1, 2, 0), Admission(period - lag, 1, period - lag), Admission(period, 1, period - lag),
     Admission(2 * period - 2 * lag, 2, 2 * period - lag)]
  }

  lemma {:induction false} CrowdedRun(periodSeconds: int, lag: nat) returns (steps: seq<Step>)
    requires periodSeconds > 0 && 2 * lag <= periodSeconds * 1000
    ensures var policy := TwoAPeriod(periodSeconds);
            At(Empty(policy), steps, lag, policy, Usage(6, 2, 2 * Period(policy) - lag), Crowd(Period(policy), lag),
               2 * Period(policy) - lag, 6)
  {
    var policy, period := TwoAPeriod(periodSeconds), periodSeconds * 1000;
    var s := Empty(policy);
    StartsEmpty(policy, lag);
    hide At, Empty;
    steps := AddBatch(s, [], lag, policy, Usage(0, 0, 0), [], 0, 0, 2, period - 1);
    var log := [] + [Admission(period - 1, 2, 0)];
    steps := AddBatch(s, steps, lag, policy, Usage(2, 2, 0), log, period - 1, 2, 0, period);
    assert log + [] == log;
    steps := AddJob(s, steps, lag, policy, Usage(2, 0, period), log, period, 2, period - lag);
    log := log + [Admission(period - lag, 1, period - lag)];
    steps := AddBatch(s, steps, lag, policy, Usage(3, 1, period - lag), log, period, 3, 1, period);
    log := log + [Admission(period, 1, period - lag)];
    steps := AddBatch(s, steps, lag, policy, Usage(4, 2, period - lag), log, period, 4, 0, 2 * period - lag);
    assert log + [] == log;
    steps := AddBatch(s, steps, lag, policy, Usage(4, 0, 2 * period - lag), log, 2 * period - lag, 4, 2, 2 * period - 2 * lag);
    assert log + [Admission(2 * period - 2 * lag, 2, 2 * period - lag)] == Crowd(period, lag);
  }

  lemma {:induction false} CrowdIsDense(period: int, lag: nat)
    requires period > 0 && 2 * lag <= period
    ensures Within(Crowd(period, lag), period - 1, period - 2 * lag + 1) > 4
  {
    var log, from, length := Crowd(period, lag), period - 1, period - 2 * lag + 1;
    assert log[..3][..2] == log[..2] && log[..2][..1] == log[..1];
    assert Within(log[..1], from, length) == 2 by { assert log[..1][..0] == []; }
    assert Within(log[..2], from, length) >= 2;
    assert Within(log[..3], from, length) >= 3;
  }

  lemma {:induction false} AtMeans(
      s: Store, steps: seq<Step>, lag: nat, policy: Policy, usage: Usage, log: seq<Admission>, clock: int, n: Name)
    requires At(s, steps, lag, policy, usage, log, clock, n)
    ensures 0 in s.core.usage && (forall i :: 0 <= i < |steps| ==> Lawful(steps[i]))
    ensures ClockRuns(0, steps, 0, lag) && Log(s, steps, 0) == log
  {
  }

  /** One millisecond more than `AnyPeriodIsBounded` allows is too much. */
  lemma {:induction false} TheBoundIsTight(periodSeconds: int, lag: nat) returns (s: Store, steps: seq<Step>, from: int)
    requires periodSeconds > 0 && 2 * lag <= periodSeconds * 1000
    ensures FreshQuota(s, 0) && s.policies[0].periodSeconds == periodSeconds && Balanced(s.core) && WithinLimits(s)
    ensures (forall i :: 0 <= i < |steps| ==> Lawful(steps[i])) && ClockRuns(s.core.usage[0].periodStartedAt, steps, 0, lag)
    ensures Within(Log(s, steps, 0), from, Period(s.policies[0]) - 2 * lag + 1) > 2 * Max(0, s.policies[0].maxPerPeriod)
  {
    var policy := TwoAPeriod(periodSeconds);
    s, from := Empty(policy), Period(policy) - 1;
    hide Balanced, WithinLimits, ClockRuns, Crowd, Within, At, Empty, Log, FreshQuota, Lawful;
    EmptyIsFresh(policy);
    CrowdIsDense(Period(policy), lag);
    steps := CrowdedRun(periodSeconds, lag);
    AtMeans(s, steps, lag, policy, Usage(6, 2, 2 * Period(policy) - lag), Crowd(Period(policy), lag), 2 * Period(policy) - lag, 6);
  }

  lemma {:induction false} EmptyIsFresh(policy: Policy)
    requires policy.periodSeconds > 0 && policy.maxConcurrent >= 0
    ensures FreshQuota(Empty(policy), 0) && Balanced(Empty(policy).core) && WithinLimits(Empty(policy))
    ensures var s := Empty(policy);
            0 in s.policies && s.policies[0] == policy && 0 in s.core.usage && s.core.usage[0].periodStartedAt == 0
  {
    EmptyStoreIsBalanced(Empty(policy));
    hide Balanced, WithinLimits;
  }
}
