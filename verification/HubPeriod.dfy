/**
 The period quota. Single submissions and batches restart the window by
 different rules; over every run the counter is still the number of jobs
 admitted in the current window. No stretch of one period admits more than twice
 the limit, but for the lag between reading the clock and committing.
 */
module HubPeriod {
  import opened Collections
  import opened JobStates
  import opened HubTables
  import opened HubStore

  /** Jobs admitted at one time, and the start of the window they were counted in. */
  datatype Admission = Admission(at: int, jobs: nat, window: int)

  /** How many jobs of an organization a step admits. */
  function Admits(s: Store, step: Step, org: Org): nat {
    match step
    case SubmitJob(input, idem, admitted) =>
      if input.org == org && CommitJob(s, input, idem, admitted).1 == Ok(Created) then 1 else 0
    case SubmitBatch(batch, idem, admitted) =>
      if batch.org == org && CommitBatch(s, batch, idem, admitted).1 == Ok(Created) then Max(0, batch.totalJobs) else 0
    case _ => 0
  }

  function At(step: Step): int
    requires Submits(step)
  {
    if step.SubmitJob? then step.input.now else step.batch.now
  }

  /** A submission of this organization. */
  predicate SubmitsFor(step: Step, org: Org) {
    Submits(step) && org == if step.SubmitJob? then step.input.org else step.batch.org
  }

  /** What a step adds to the admissions. */
  function Noted(log: seq<Admission>, s: Store, step: Step, org: Org): seq<Admission>
    requires org in Apply(s, step).core.usage
  {
    var jobs := Admits(s, step, org);
    log + if jobs == 0 then [] else [Admission(At(step), jobs, Apply(s, step).core.usage[org].periodStartedAt)]
  }

  /** The admissions of a run, in order. */
  function Log(s: Store, steps: seq<Step>, org: Org): seq<Admission>
    requires org in s.core.usage && forall i :: 0 <= i < |steps| ==> Lawful(steps[i])
  {
    if steps == [] then []
    else
      var before, last := steps[..|steps| - 1], steps[|steps| - 1];
      RowStays(s, steps, org);
      Noted(Log(s, before, org), After(s, before), last, org)
  }

  lemma {:induction false} RowStays(s: Store, steps: seq<Step>, org: Org)
    requires org in s.core.usage && forall i :: 0 <= i < |steps| ==> Lawful(steps[i])
    ensures org in After(s, steps).core.usage && After(s, steps).policies == s.policies
  {
    hide Lawful;
    if steps != [] {
      RowStays(s, steps[..|steps| - 1], org);
      UsageRowsStay(After(s, steps[..|steps| - 1]), steps[|steps| - 1]);
    }
  }

  // ----- One step -----

  function Period(policy: Policy): int { policy.periodSeconds * 1000 }

  /** What one step does to the counter: count, restart, or nothing at all. */
  ghost predicate PeriodStep(policy: Policy, before: Usage, after: Usage, jobs: nat, now: int) {
    var counted := PeriodJobs(policy, before, now);
    && (jobs > 0 ==> after.periodJobs == counted + jobs <= policy.maxPerPeriod)
    && (after.periodStartedAt == before.periodStartedAt ==> after.periodJobs == before.periodJobs + jobs)
    && (jobs > 0 && after.periodStartedAt == before.periodStartedAt ==> now < before.periodStartedAt + Period(policy))
    && (after.periodStartedAt != before.periodStartedAt ==>
          && after.periodStartedAt == now && after.periodJobs == jobs
          && (PeriodExpired(policy, before, now) || before.periodJobs == 0))
    && (jobs > 0 && PeriodExpired(policy, before, now) ==> after.periodStartedAt == now)
  }

  lemma {:induction false} JobStepsPeriod(s: Store, input: NewJob, idem: Option<Idempotency>, admitted: bool, org: Org)
    requires org in s.core.usage && org in s.policies && s.policies[org].periodSeconds > 0
    ensures var s' := CommitJob(s, input, idem, admitted).0;
            && org in s'.core.usage
            && PeriodStep(s.policies[org], s.core.usage[org], s'.core.usage[org],
                          Admits(s, SubmitJob(input, idem, admitted), org), input.now)
  {
    hide Claimable, Claimed, Remember;
  }

  lemma {:induction false} BatchStepsPeriod(s: Store, batch: NewBatch, idem: Option<Idempotency>, admitted: bool, org: Org)
    requires org in s.core.usage && org in s.policies && s.policies[org].periodSeconds > 0
    requires batch.totalJobs == |batch.children|
    ensures var s' := CommitBatch(s, batch, idem, admitted).0;
            && org in s'.core.usage
            && PeriodStep(s.policies[org], s.core.usage[org], s'.core.usage[org],
                          Admits(s, SubmitBatch(batch, idem, admitted), org), batch.now)
  {
    hide InputsReady, Children, Remember;
  }

  /** Everything but submissions leaves the window and its count alone. */
  ghost predicate SamePeriod(before: map<Org, Usage>, after: map<Org, Usage>, org: Org) {
    && (org in after <==> org in before)
    && (org in before ==> after[org].periodJobs == before[org].periodJobs
                          && after[org].periodStartedAt == before[org].periodStartedAt)
  }

  lemma {:induction false} SettleKeepsPeriod(core: Core, key: Key, job: Job, org: Org)
    ensures SamePeriod(core.usage, Settle(core, key, job).usage, org)
  {
  }

  lemma {:induction false} UpdatesKeepPeriod(s: Store, step: Step, org: Org)
    requires step.UpdateJob? || step.DeliverEvent? || step.CancelJob?
    ensures SamePeriod(s.core.usage, Apply(s, step).core.usage, org)
  {
    hide SamePeriod, Settle;
    var key := if step.UpdateJob? then step.update.key else if step.DeliverEvent? then step.event.key else step.key;
    assert SamePeriod(s.core.usage, s.core.usage, org) by { KeepsItself(s.core.usage, org); }
    if key in s.core.jobs {
      var job := s.core.jobs[key];
      if step.UpdateJob? { SettleKeepsPeriod(s.core, key, UpdatedJob(job, step.update), org); }
      else if step.DeliverEvent? { SettleKeepsPeriod(s.core, key, EventedJob(job, step.event), org); }
      else { SettleKeepsPeriod(s.core, key, job.(state := Cancelled, updatedAt := step.now), org); }
    }
  }

  lemma {:induction false} KeepsItself(usage: map<Org, Usage>, org: Org)
    ensures SamePeriod(usage, usage, org)
  {
  }

  lemma {:induction false} ElsewhereKeepsPeriod(s: Store, step: Step, org: Org)
    requires Submits(step) && !SubmitsFor(step, org)
    ensures SamePeriod(s.core.usage, Apply(s, step).core.usage, org)
  {
    hide Claimable, Claimed, Children, JobAllowed, BatchAllowed, JobUsage, BatchUsage, InputsReady, Replayed, Remember;
  }

  lemma {:induction false} OthersKeepPeriod(s: Store, step: Step, org: Org)
    requires !SubmitsFor(step, org)
    ensures SamePeriod(s.core.usage, Apply(s, step).core.usage, org) && Admits(s, step, org) == 0
  {
    if Submits(step) {
      ElsewhereKeepsPeriod(s, step, org);
      hide Apply, CommitJob, CommitBatch;
    } else if step.UpdateJob? || step.DeliverEvent? || step.CancelJob? {
      hide Apply;
      UpdatesKeepPeriod(s, step, org);
    } else {
      hide Active, FailAll, Dispatchable;
    }
  }

  // ----- Windows -----

  function InWindow(log: seq<Admission>, window: int): nat {
    if log == [] then 0
    else
      var last := log[|log| - 1];
      InWindow(log[..|log| - 1], window) + if last.window == window then last.jobs else 0
  }

  /** The jobs admitted from `from` up to and including `length` later. */
  function Within(log: seq<Admission>, from: int, length: int): nat {
    if log == [] then 0
    else
      var last := log[|log| - 1];
      Within(log[..|log| - 1], from, length) + if from <= last.at <= from + length then last.jobs else 0
  }

  /**
   But for the lag, windows with admissions are a period apart, each admission
   is inside its window, and a period past the start of every window before.
   */
  ghost predicate WindowsOk(log: seq<Admission>, period: int, lag: nat) {
    && (forall i :: 0 <= i < |log| ==> log[i].window <= log[i].at + lag && log[i].at < log[i].window + period)
    && (forall i, j :: 0 <= i < j < |log| && log[i].window != log[j].window ==>
          log[i].window + period <= log[j].window + lag && log[i].window + period <= log[j].at + lag)
  }

  /** `clock` is the latest time a submission has brought along. */
  ghost predicate Inv(policy: Policy, usage: Usage, log: seq<Admission>, lag: nat, clock: int) {
    && WindowsOk(log, Period(policy), lag)
    && usage.periodStartedAt <= clock
    && (forall i :: 0 <= i < |log| ==>
          log[i].jobs > 0
          && (log[i].window == usage.periodStartedAt
              || (log[i].window + Period(policy) <= usage.periodStartedAt + lag && log[i].window + Period(policy) <= clock)))
    && usage.periodJobs == InWindow(log, usage.periodStartedAt)
    && (forall window :: InWindow(log, window) <= Max(0, policy.maxPerPeriod))
  }

  lemma {:induction false} EmptyWindow(log: seq<Admission>, window: int)
    requires forall i :: 0 <= i < |log| ==> log[i].window != window
    ensures InWindow(log, window) == 0
  {
    if log != [] { EmptyWindow(log[..|log| - 1], window); }
  }

  lemma {:induction false} CountedWindow(log: seq<Admission>, i: nat)
    requires i < |log|
    ensures InWindow(log, log[i].window) >= log[i].jobs
  {
    if i < |log| - 1 { CountedWindow(log[..|log| - 1], i); }
  }

  /** The counter before a step that moved the window: nothing in the new window yet. */
  lemma {:induction false} NewWindowIsEmpty(policy: Policy, before: Usage, log: seq<Admission>, lag: nat, clock: int, now: int)
    requires Inv(policy, before, log, lag, clock) && policy.periodSeconds > 0 && clock <= now + lag
    requires PeriodExpired(policy, before, now) || before.periodJobs == 0
    ensures forall i :: 0 <= i < |log| ==> log[i].window + Period(policy) <= now + lag && log[i].window + Period(policy) <= Max(clock, now)
  {
    hide InWindow;
    forall i | 0 <= i < |log|
      ensures log[i].window + Period(policy) <= now + lag && log[i].window + Period(policy) <= Max(clock, now)
    {
      if log[i].window == before.periodStartedAt { CountedWindow(log, i); }
    }
  }

  lemma {:induction false} InWindowAppend(log: seq<Admission>, last: Admission, window: int)
    ensures InWindow(log + [last], window) == InWindow(log, window) + if last.window == window then last.jobs else 0
  {
    assert (log + [last])[..|log|] == log;
  }

  /** Admissions into the current window, whether it has just begun or not. */
  lemma {:induction false} AdmissionKeepsInv(
      policy: Policy, usage: Usage, after: Usage, log: seq<Admission>, lag: nat, clock: int, jobs: nat, now: int)
    requires Inv(policy, usage, log, lag, clock) && jobs > 0 && clock <= now + lag
    requires after.periodStartedAt == usage.periodStartedAt && after.periodJobs == usage.periodJobs + jobs <= policy.maxPerPeriod
    requires now < usage.periodStartedAt + Period(policy)
    ensures Inv(policy, after, log + [Admission(now, jobs, usage.periodStartedAt)], lag, clock)
  {
    var last := Admission(now, jobs, usage.periodStartedAt);
    hide InWindow;
    forall window ensures InWindow(log + [last], window) <= Max(0, policy.maxPerPeriod) {
      InWindowAppend(log, last, window);
    }
    InWindowAppend(log, last, usage.periodStartedAt);
    assert WindowsOk(log + [last], Period(policy), lag) by { AppendedWindowsOk(log, last, Period(policy), lag); }
    hide WindowsOk;
  }

  lemma {:induction false} AppendedWindowsOk(log: seq<Admission>, last: Admission, period: int, lag: nat)
    requires WindowsOk(log, period, lag) && last.window <= last.at + lag && last.at < last.window + period
    requires forall i :: 0 <= i < |log| && log[i].window != last.window ==>
               log[i].window + period <= last.window + lag && log[i].window + period <= last.at + lag
    ensures WindowsOk(log + [last], period, lag)
  {
  }

  /** Moving the window changes nothing but where the count starts again. */
  lemma {:induction false} MoveKeepsInv(policy: Policy, before: Usage, log: seq<Admission>, lag: nat, clock: int, now: int)
    requires Inv(policy, before, log, lag, clock) && lag < Period(policy) && clock <= now + lag
    requires PeriodExpired(policy, before, now) || before.periodJobs == 0
    ensures Inv(policy, before.(periodJobs := 0, periodStartedAt := now), log, lag, Max(clock, now))
  {
    NewWindowIsEmpty(policy, before, log, lag, clock, now);
    EmptyWindow(log, now);
    hide InWindow;
  }

  lemma {:induction false} MovesWindow(
      policy: Policy, before: Usage, after: Usage, log: seq<Admission>, lag: nat, clock: int, jobs: nat, now: int)
    requires Inv(policy, before, log, lag, clock) && lag < Period(policy) && clock <= now + lag
    requires PeriodStep(policy, before, after, jobs, now) && after.periodStartedAt != before.periodStartedAt
    ensures Inv(policy, after, log + if jobs == 0 then [] else [Admission(now, jobs, after.periodStartedAt)], lag, Max(clock, now))
  {
    hide Inv;
    var moved := before.(periodJobs := 0, periodStartedAt := now);
    MoveKeepsInv(policy, before, log, lag, clock, now);
    if jobs == 0 {
      assert log + [] == log;
      SamePeriodKeepsInv(policy, moved, after, log, lag, Max(clock, now), now);
    } else {
      AdmissionKeepsInv(policy, moved, after, log, lag, Max(clock, now), jobs, now);
    }
  }

  lemma {:induction false} KeepsWindow(
      policy: Policy, before: Usage, after: Usage, log: seq<Admission>, lag: nat, clock: int, jobs: nat, now: int)
    requires Inv(policy, before, log, lag, clock) && clock <= now + lag
    requires PeriodStep(policy, before, after, jobs, now) && after.periodStartedAt == before.periodStartedAt
    ensures Inv(policy, after, log + if jobs == 0 then [] else [Admission(now, jobs, after.periodStartedAt)], lag, Max(clock, now))
  {
    hide Inv;
    SamePeriodKeepsInv(policy, before, before, log, lag, clock, now);
    if jobs == 0 {
      assert log + [] == log;
      SamePeriodKeepsInv(policy, before, after, log, lag, clock, now);
    } else {
      AdmissionKeepsInv(policy, before, after, log, lag, Max(clock, now), jobs, now);
    }
  }

  // ----- Every run -----

  /** The latest time brought along. */
  function Tick(clock: int, step: Step, org: Org): int { if SubmitsFor(step, org) then Max(clock, At(step)) else clock }

  function Clock(from: int, steps: seq<Step>, org: Org): int {
    if steps == [] then from else Tick(Clock(from, steps[..|steps| - 1], org), steps[|steps| - 1], org)
  }

  /**
   A submission reads the clock before it waits for its turn. Within one
   organization none brings a time more than `lag` before the latest so far.
   */
  ghost predicate ClockRuns(from: int, steps: seq<Step>, org: Org, lag: nat) {
    forall i :: 0 <= i < |steps| && SubmitsFor(steps[i], org) ==> Clock(from, steps[..i], org) <= At(steps[i]) + lag
  }

  ghost predicate FreshQuota(s: Store, org: Org) {
    && org in s.core.usage && org in s.policies
    && s.policies[org].periodSeconds > 0 && s.core.usage[org].periodJobs == 0
  }

  lemma {:induction false} RunKeepsPeriod(s: Store, steps: seq<Step>, org: Org, lag: nat)
    requires FreshQuota(s, org) && (forall i :: 0 <= i < |steps| ==> Lawful(steps[i])) && lag < Period(s.policies[org])
    requires ClockRuns(s.core.usage[org].periodStartedAt, steps, org, lag)
    ensures var s' := After(s, steps);
            && org in s'.core.usage && s'.policies == s.policies
            && Inv(s.policies[org], s'.core.usage[org], Log(s, steps, org), lag, Clock(s.core.usage[org].periodStartedAt, steps, org))
    decreases |steps|
  {
    hide Lawful, Apply, Noted, Tick;
    RowStays(s, steps, org);
    if steps != [] {
      var before, last := steps[..|steps| - 1], steps[|steps| - 1];
      var start := s.core.usage[org].periodStartedAt;
      RowStays(s, before, org);
      forall i | 0 <= i < |before| && SubmitsFor(before[i], org) ensures Clock(start, before[..i], org) <= At(before[i]) + lag {
        assert before[..i] == steps[..i] && before[i] == steps[i];
      }
      RunKeepsPeriod(s, before, org, lag);
      StepKeepsPeriod(After(s, before), last, org, Log(s, before, org), lag, Clock(start, before, org));
    }
  }

  lemma {:induction false} StepKeepsPeriod(s: Store, step: Step, org: Org, log: seq<Admission>, lag: nat, clock: int)
    requires org in s.core.usage && org in s.policies && lag < Period(s.policies[org]) && Lawful(step)
    requires Inv(s.policies[org], s.core.usage[org], log, lag, clock)
    requires SubmitsFor(step, org) ==> clock <= At(step) + lag
    ensures org in Apply(s, step).core.usage
    ensures Inv(s.policies[org], Apply(s, step).core.usage[org], Noted(log, s, step, org), lag, Tick(clock, step, org))
  {
    hide Inv, CommitJob, CommitBatch;
    var policy, usage, jobs := s.policies[org], s.core.usage[org], Admits(s, step, org);
    if SubmitsFor(step, org) {
      if step.SubmitJob? { JobStepsPeriod(s, step.input, step.idem, step.admitted, org); }
      else { BatchStepsPeriod(s, step.batch, step.idem, step.admitted, org); }
      var after := Apply(s, step).core.usage[org];
      if after.periodStartedAt == usage.periodStartedAt { KeepsWindow(policy, usage, after, log, lag, clock, jobs, At(step)); }
      else { MovesWindow(policy, usage, after, log, lag, clock, jobs, At(step)); }
    } else {
      OthersKeepPeriod(s, step, org);
      hide Apply;
      assert log + [] == log;
      SamePeriodKeepsInv(policy, usage, Apply(s, step).core.usage[org], log, lag, clock, clock);
    }
  }

  lemma {:induction false} SamePeriodKeepsInv(
      policy: Policy, before: Usage, after: Usage, log: seq<Admission>, lag: nat, clock: int, now: int)
    requires Inv(policy, before, log, lag, clock)
    requires after.periodJobs == before.periodJobs && after.periodStartedAt == before.periodStartedAt
    ensures Inv(policy, after, log, lag, Max(clock, now))
  {
  }

  /** The jobs admitted from a moment on. */
  function Since(log: seq<Admission>, from: int): nat {
    if log == [] then 0
    else
      var last := log[|log| - 1];
      Since(log[..|log| - 1], from) + if last.at >= from then last.jobs else 0
  }

  lemma {:induction false} WindowIsSince(log: seq<Admission>, start: int)
    requires forall i :: 0 <= i < |log| ==> (log[i].window == start <==> log[i].at >= start)
    ensures InWindow(log, start) == Since(log, start)
  {
    if log != [] { WindowIsSince(log[..|log| - 1], start); }
  }

  /** With the clock in order, the counter is the number of jobs admitted since the current window began. */
  lemma {:induction false} CounterIsTheWindow(s: Store, steps: seq<Step>, org: Org)
    requires FreshQuota(s, org) && forall i :: 0 <= i < |steps| ==> Lawful(steps[i])
    requires ClockRuns(s.core.usage[org].periodStartedAt, steps, org, 0)
    ensures var s' := After(s, steps);
            && org in s'.core.usage
            && var usage := s'.core.usage[org];
            usage.periodJobs == Since(Log(s, steps, org), usage.periodStartedAt)
  {
    RunKeepsPeriod(s, steps, org, 0);
    WindowIsSince(Log(s, steps, org), After(s, steps).core.usage[org].periodStartedAt);
  }

  /** What falls into two windows is at most what the two windows hold. */
  lemma {:induction false} CoveredByTwo(log: seq<Admission>, from: int, length: int, a: int, b: int)
    requires forall i :: 0 <= i < |log| && from <= log[i].at <= from + length ==> log[i].window == a || log[i].window == b
    ensures Within(log, from, length) <= InWindow(log, a) + InWindow(log, b)
  {
    if log != [] {
      var before := log[..|log| - 1];
      forall i | 0 <= i < |before| && from <= before[i].at <= from + length
        ensures before[i].window == a || before[i].window == b
      {
        assert before[i] == log[i];
      }
      CoveredByTwo(before, from, length, a, b);
    }
  }

  /** A stretch short of a period by twice the lag touches at most two windows. */
  lemma {:induction false} TwoWindows(log: seq<Admission>, from: int, period: int, lag: nat) returns (a: int, b: int)
    requires WindowsOk(log, period, lag)
    ensures forall i :: 0 <= i < |log| && from <= log[i].at <= from + period - 2 * lag ==> log[i].window == a || log[i].window == b
  {
    a, b := 0, 0;
    var length := period - 2 * lag;
    if i :| 0 <= i < |log| && from <= log[i].at <= from + length {
      a, b := log[i].window, log[i].window;
      if j :| 0 <= j < |log| && from <= log[j].at <= from + length && log[j].window != a {
        b := log[j].window;
        forall k | 0 <= k < |log| && from <= log[k].at <= from + length ensures log[k].window == a || log[k].window == b {
          NoThird(log, from, period, lag, i, j, k);
        }
      }
    }
  }

  /** Of three windows, the last admission comes more than a period, short of the lags, after the first. */
  lemma {:induction false} NoThird(log: seq<Admission>, from: int, period: int, lag: nat, i: nat, j: nat, k: nat)
    requires WindowsOk(log, period, lag) && i < |log| && j < |log| && k < |log|
    requires forall x :: x in {i, j, k} ==> from <= log[x].at <= from + period - 2 * lag
    ensures log[i].window == log[j].window || log[k].window == log[i].window || log[k].window == log[j].window
  {
  }

  /**
   The bound the quota gives in real time: over every run, any stretch of one
   period, ends included and short of twice the lag, admits at most twice the
   period's limit.
   */
  lemma {:induction false} AnyPeriodIsBounded(s: Store, steps: seq<Step>, org: Org, lag: nat, from: int)
    requires FreshQuota(s, org) && forall i :: 0 <= i < |steps| ==> Lawful(steps[i])
    requires ClockRuns(s.core.usage[org].periodStartedAt, steps, org, lag)
    ensures Within(Log(s, steps, org), from, Period(s.policies[org]) - 2 * lag) <= 2 * Max(0, s.policies[org].maxPerPeriod)
  {
    hide Inv, After, Log, Lawful, ClockRuns, Clock;
    var policy := s.policies[org];
    if lag < Period(policy) {
      RunKeepsPeriod(s, steps, org, lag);
      LogIsBounded(policy, After(s, steps).core.usage[org], Log(s, steps, org), lag, Clock(s.core.usage[org].periodStartedAt, steps, org), from);
    } else {
      NoStretch(Log(s, steps, org), from, Period(policy) - 2 * lag);
    }
  }

  lemma {:induction false} LogIsBounded(policy: Policy, usage: Usage, log: seq<Admission>, lag: nat, clock: int, from: int)
    requires Inv(policy, usage, log, lag, clock)
    ensures Within(log, from, Period(policy) - 2 * lag) <= 2 * Max(0, policy.maxPerPeriod)
  {
    var a, b := TwoWindows(log, from, Period(policy), lag);
    CoveredByTwo(log, from, Period(policy) - 2 * lag, a, b);
  }

  lemma {:induction false} NoStretch(log: seq<Admission>, from: int, length: int)
    requires length < 0
    ensures Within(log, from, length) == 0
  {
    if log != [] { NoStretch(log[..|log| - 1], from, length); }
  }
}
