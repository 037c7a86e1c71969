/**
 The worker's job registry and heartbeat counters. Each atomic operation is a
 step, and tasks interleave freely: a slot moves from queued to active in two
 steps, leaves the registry before it is released, and a task may panic.
 */
module WorkerBus {
  import opened Collections

  type JobId = nat

  type OwnerNo = nat

  datatype Admission = Dispatched | Restored

  /** A slot's charge; `Moving` is between the two counter updates of an activation. */
  datatype Phase = Queued | Moving | Active

  /** The task that holds a registration and its slot; not live once it has finished the job. */
  datatype Owner = Owner(job: JobId, live: bool, phase: Phase)

  datatype Bus = Bus(
    registry: map<JobId, Admission>, owners: map<OwnerNo, Owner>, nextOwner: OwnerNo, queued: nat, active: nat)

  function Initial(): Bus { Bus(map[], map[], 0, 0, 0) }

  datatype Step =
    | Register(job: JobId, admission: Admission)
    | BeginActivate(owner: OwnerNo)
    | EndActivate(owner: OwnerNo)
    | Finish(owner: OwnerNo)
    | DropSlot(owner: OwnerNo)
    | Panic(owner: OwnerNo)

  predicate Owns(b: Bus, owner: OwnerNo, live: bool) { owner in b.owners && b.owners[owner].live == live }

  predicate Enabled(b: Bus, step: Step) {
    match step
    case Register(_, _) => true
    case BeginActivate(o) => Owns(b, o, true) && b.owners[o].phase.Queued?
    case EndActivate(o) => Owns(b, o, true) && b.owners[o].phase.Moving?
    case Finish(o) => Owns(b, o, true) && !b.owners[o].phase.Moving?
    case DropSlot(o) => Owns(b, o, false)
    case Panic(o) => Owns(b, o, true) && !b.owners[o].phase.Moving?
  }

  datatype Registered = Accepted(owner: OwnerNo) | AlreadyRegistered | CapacityExhausted

  function Registration(b: Bus, maxJobs: nat, job: JobId, admission: Admission): Registered {
    if job in b.registry then AlreadyRegistered
    else if admission.Dispatched? && |b.registry| >= maxJobs then CapacityExhausted
    else Accepted(b.nextOwner)
  }

  function AfterRegister(b: Bus, maxJobs: nat, job: JobId, admission: Admission): Bus {
    if !Registration(b, maxJobs, job, admission).Accepted? then b
    else
      b.(registry := b.registry[job := admission], nextOwner := b.nextOwner + 1, queued := b.queued + 1,
         owners := b.owners[b.nextOwner := Owner(job, true, Queued)])
  }

  const USIZE_MAX: nat := 0xffff_ffff_ffff_ffff

  /** An atomic subtraction wraps; activation relies on never being at zero. */
  function WrappingPred(n: nat): nat { if n == 0 then USIZE_MAX else n - 1 }

  function SaturatingPred(n: nat): nat { if n == 0 then 0 else n - 1 }

  /** Dropping a slot gives its charge back, wherever it stands. */
  function Dropped(b: Bus, owner: OwnerNo): Bus
    requires owner in b.owners
  {
    b.(owners := b.owners - {owner},
       queued := if b.owners[owner].phase.Queued? then SaturatingPred(b.queued) else b.queued,
       active := if b.owners[owner].phase.Active? then SaturatingPred(b.active) else b.active)
  }

  function Rephased(b: Bus, owner: OwnerNo, phase: Phase): Bus
    requires owner in b.owners
  {
    b.(owners := b.owners[owner := b.owners[owner].(phase := phase)])
  }

  function Finished(b: Bus, owner: OwnerNo): Bus
    requires owner in b.owners
  {
    b.(registry := b.registry - {b.owners[owner].job}, owners := b.owners[owner := b.owners[owner].(live := false)])
  }

  function Apply(b: Bus, maxJobs: nat, step: Step): Bus
    requires Enabled(b, step)
  {
    match step
    case Register(job, admission) => AfterRegister(b, maxJobs, job, admission)
    case BeginActivate(o) => Rephased(b, o, Moving).(queued := WrappingPred(b.queued))
    case EndActivate(o) => Rephased(b, o, Active).(active := b.active + 1)
    case Finish(o) => Finished(b, o)
    case DropSlot(o) => Dropped(b, o)
    case Panic(o) => Dropped(b, o)
  }

  // ----- Invariant -----

  function InPhase(owners: map<OwnerNo, Owner>, phase: Phase): set<OwnerNo> {
    set o | o in owners && owners[o].phase == phase
  }

  function New(registry: map<JobId, Admission>): set<JobId> {
    set job | job in registry && registry[job].Dispatched?
  }

  ghost predicate CountersExact(b: Bus) {
    b.queued == |InPhase(b.owners, Queued)| && b.active == |InPhase(b.owners, Active)|
  }

  ghost predicate OwnersOk(b: Bus) {
    && (forall o :: o in b.owners ==> o < b.nextOwner && (b.owners[o].live ==> b.owners[o].job in b.registry))
    && (forall o, p :: Owns(b, o, true) && Owns(b, p, true) && b.owners[o].job == b.owners[p].job ==> o == p)
    && (forall o :: o in b.owners && !b.owners[o].live ==> !b.owners[o].phase.Moving?)
  }

  ghost predicate Inv(b: Bus, maxJobs: nat) {
    CountersExact(b) && OwnersOk(b) && |New(b.registry)| <= maxJobs
  }

  lemma {:induction false} InPhaseWrite(owners: map<OwnerNo, Owner>, o: OwnerNo, owner: Owner, phase: Phase)
    ensures var before, after := InPhase(owners, phase), InPhase(owners[o := owner], phase);
            after == if owner.phase == phase then before + {o} else before - {o}
  {
  }

  lemma {:induction false} InPhaseRemove(owners: map<OwnerNo, Owner>, o: OwnerNo, phase: Phase)
    ensures InPhase(owners - {o}, phase) == InPhase(owners, phase) - {o}
  {
  }

  lemma {:induction false} Sizes(s: set<nat>, x: nat)
    ensures x in s ==> |s - {x}| == |s| - 1 && s + {x} == s
    ensures x !in s ==> s - {x} == s && |s + {x}| == |s| + 1
  {
  }

  /** Rewriting one owner moves it between the phase sets. */
  lemma {:induction false} WriteCounts(b: Bus, o: OwnerNo, owner: Owner, phase: Phase)
    ensures var before, after := InPhase(b.owners, phase), InPhase(b.owners[o := owner], phase);
            |after| == |before| - (if o in before then 1 else 0) + (if owner.phase == phase then 1 else 0)
  {
    InPhaseWrite(b.owners, o, owner, phase);
    Sizes(InPhase(b.owners, phase), o);
  }

  lemma {:induction false} StepKeepsCounters(b: Bus, maxJobs: nat, step: Step)
    requires CountersExact(b) && OwnersOk(b) && Enabled(b, step)
    ensures CountersExact(Apply(b, maxJobs, step))
  {
    var o := if step.Register? then b.nextOwner else step.owner;
    var owner := match step
      case Register(job, _) => Owner(job, true, Queued)
      case BeginActivate(_) => b.owners[o].(phase := Moving)
      case EndActivate(_) => b.owners[o].(phase := Active)
      case Finish(_) => b.owners[o].(live := false)
      case _ => b.owners[o];
    forall phase ensures |InPhase(b.owners - {o}, phase)| == |InPhase(b.owners, phase)| - (if o in InPhase(b.owners, phase) then 1 else 0) {
      InPhaseRemove(b.owners, o, phase);
      Sizes(InPhase(b.owners, phase), o);
    }
    WriteCounts(b, o, owner, Queued);
    WriteCounts(b, o, owner, Active);
    assert forall phase :: o in InPhase(b.owners, phase) <==> o in b.owners && b.owners[o].phase == phase;
    hide InPhase, Registration;
  }

  lemma {:induction false} StepKeepsOwners(b: Bus, maxJobs: nat, step: Step)
    requires OwnersOk(b) && Enabled(b, step)
    ensures OwnersOk(Apply(b, maxJobs, step))
  {
  }

  lemma {:induction false} StepKeepsLimit(b: Bus, maxJobs: nat, step: Step)
    requires |New(b.registry)| <= maxJobs && Enabled(b, step)
    ensures |New(Apply(b, maxJobs, step).registry)| <= maxJobs
  {
    var before, after := b.registry, Apply(b, maxJobs, step).registry;
    if step.Register? && Registration(b, maxJobs, step.job, step.admission).Accepted? {
      SubsetSize(New(before), before.Keys);
      if step.admission.Dispatched? {
        assert New(after) == New(before) + {step.job};
        Sizes(New(before), step.job);
        assert |before| == |before.Keys|;
      } else {
        assert New(after) == New(before);
      }
    } else if step.Finish? {
      SubsetSize(New(after), New(before));
    }
  }

  lemma {:induction false} StepKeepsInv(b: Bus, maxJobs: nat, step: Step)
    requires Inv(b, maxJobs) && Enabled(b, step)
    ensures Inv(Apply(b, maxJobs, step), maxJobs)
  {
    StepKeepsCounters(b, maxJobs, step);
    StepKeepsOwners(b, maxJobs, step);
    StepKeepsLimit(b, maxJobs, step);
    hide CountersExact, OwnersOk, Apply, New;
  }

  // ----- Every run -----

  ghost function Run(maxJobs: nat, steps: seq<Step>): Option<Bus> {
    if steps == [] then Some(Initial())
    else
      var last := steps[|steps| - 1];
      match Run(maxJobs, steps[..|steps| - 1])
      case None => None
      case Some(b) => if Enabled(b, last) then Some(Apply(b, maxJobs, last)) else None
  }

  lemma {:induction false} RunKeepsInv(maxJobs: nat, steps: seq<Step>)
    requires Run(maxJobs, steps).Some?
    ensures Inv(Run(maxJobs, steps).value, maxJobs)
  {
    if steps != [] {
      RunKeepsInv(maxJobs, steps[..|steps| - 1]);
      hide Inv, Apply, Enabled;
      StepKeepsInv(Run(maxJobs, steps[..|steps| - 1]).value, maxJobs, steps[|steps| - 1]);
    }
  }

  /** At every atomic step the counters are the slots in each phase, so no update ever wraps or saturates. */
  lemma {:induction false} CountersAreTheSlots(maxJobs: nat, steps: seq<Step>, owner: OwnerNo)
    requires Run(maxJobs, steps).Some?
    ensures var b := Run(maxJobs, steps).value;
            && b.queued == |InPhase(b.owners, Queued)| && b.active == |InPhase(b.owners, Active)|
            && (owner in b.owners && b.owners[owner].phase.Queued? ==> b.queued > 0)
            && (owner in b.owners && b.owners[owner].phase.Active? ==> b.active > 0)
  {
    RunKeepsInv(maxJobs, steps);
    var b := Run(maxJobs, steps).value;
    if owner in b.owners { ChargeIsCounted(b, owner); }
  }

  /** Between its registration and its finish a job has one runner, whoever else asks for it. */
  lemma {:induction false} OneRunnerPerJob(maxJobs: nat, steps: seq<Step>, o: OwnerNo, p: OwnerNo)
    requires Run(maxJobs, steps).Some?
    requires Owns(Run(maxJobs, steps).value, o, true) && Owns(Run(maxJobs, steps).value, p, true)
    ensures var b := Run(maxJobs, steps).value;
            b.owners[o].job in b.registry && (b.owners[o].job == b.owners[p].job ==> o == p)
  {
    RunKeepsInv(maxJobs, steps);
  }

  /**
   New dispatches never fill the registry past the limit: those in it are at
   most the limit, and an accepted one leaves the whole registry within it,
   restored jobs included.
   */
  lemma {:induction false} DispatchesStayWithinLimit(maxJobs: nat, steps: seq<Step>, job: JobId)
    requires Run(maxJobs, steps).Some?
    ensures var b := Run(maxJobs, steps).value;
            && |New(b.registry)| <= maxJobs
            && (Registration(b, maxJobs, job, Dispatched).Accepted? ==>
                  |AfterRegister(b, maxJobs, job, Dispatched).registry| <= maxJobs)
            && !Registration(b, maxJobs, job, Restored).CapacityExhausted?
  {
    RunKeepsInv(maxJobs, steps);
    var b := Run(maxJobs, steps).value;
    RegistrySize(b.registry, job, Dispatched);
  }

  /** A slot's own charge keeps its counter above zero. */
  lemma {:induction false} ChargeIsCounted(b: Bus, owner: OwnerNo)
    requires CountersExact(b) && owner in b.owners
    ensures b.owners[owner].phase.Queued? ==> b.queued > 0
    ensures b.owners[owner].phase.Active? ==> b.active > 0
  {
    Sizes(InPhase(b.owners, Queued), owner);
    Sizes(InPhase(b.owners, Active), owner);
  }

  lemma {:induction false} RegistrySize(registry: map<JobId, Admission>, job: JobId, admission: Admission)
    ensures job !in registry ==> |registry[job := admission]| == |registry| + 1
  {
    var after := registry[job := admission];
    assert after.Keys == registry.Keys + {job};
    Sizes(registry.Keys, job);
    assert |after| == |after.Keys| && |registry| == |registry.Keys|;
  }

  // ----- In place -----

  class WorkerRuntime {
    const maxJobs: nat
    var registry: map<JobId, Admission>
    var queuedJobs: nat
    var activeJobs: nat
    ghost var owners: map<OwnerNo, Owner>
    ghost var nextOwner: OwnerNo

    ghost function State(): Bus
      reads this
    {
      Bus(registry, owners, nextOwner, queuedJobs, activeJobs)
    }

    constructor (maxJobs: nat)
      ensures this.maxJobs == maxJobs && State() == Initial()
    {
      this.maxJobs := maxJobs;
      registry, queuedJobs, activeJobs, owners, nextOwner := map[], 0, 0, map[], 0;
    }

    /** `Accepted` comes with a queued slot. */
    method RegisterJob(job: JobId, admission: Admission) returns (accepted: bool, exhausted: bool)
      modifies this
      ensures State() == AfterRegister(old(State()), maxJobs, job, admission)
      ensures var registration := Registration(old(State()), maxJobs, job, admission);
              accepted == registration.Accepted? && exhausted == registration.CapacityExhausted?
      ensures accepted ==> job !in old(registry) && job in registry && queuedJobs == old(queuedJobs) + 1
      ensures accepted && admission.Dispatched? ==> |registry| <= maxJobs
      ensures accepted ==> Owns(State(), old(nextOwner), true) && owners[old(nextOwner)] == Owner(job, true, Queued)
      ensures exhausted ==> admission.Dispatched? && job !in registry && |registry| >= maxJobs
      ensures !accepted && !exhausted ==> job in registry
      ensures !accepted ==> State() == old(State())
      ensures activeJobs == old(activeJobs) && forall other :: other != job ==> SameEntry(old(registry), registry, other)
      ensures old(Inv(State(), maxJobs)) ==> Inv(State(), maxJobs)
    {
      ghost var before := State();
      if Inv(before, maxJobs) { StepKeepsInv(before, maxJobs, Register(job, admission)); }
      RegistrySize(registry, job, admission);
      hide Inv;
      if job in registry { return false, false; }
      if admission.Dispatched? && |registry| >= maxJobs { return false, true; }
      registry := registry[job := admission];
      queuedJobs := queuedJobs + 1;
      owners := owners[nextOwner := Owner(job, true, Queued)];
      nextOwner := nextOwner + 1;
      return true, false;
    }

    method FinishJob(job: JobId, ghost owner: OwnerNo)
      requires Owns(State(), owner, true) && owners[owner].job == job && !owners[owner].phase.Moving?
      modifies this`registry, this`owners
      ensures State() == Apply(old(State()), maxJobs, Finish(owner))
      ensures job !in registry && forall other :: other != job ==> SameEntry(old(registry), registry, other)
      ensures owner in owners && !owners[owner].live && owners[owner].phase == old(owners[owner].phase)
      ensures old(Inv(State(), maxJobs)) ==>
                Inv(State(), maxJobs) && forall o :: Owns(State(), o, true) ==> owners[o].job != job
    {
      if Inv(State(), maxJobs) { StepKeepsInv(State(), maxJobs, Finish(owner)); }
      hide CountersExact, New;
      registry := registry - {job};
      owners := owners[owner := owners[owner].(live := false)];
    }
  }

  /** One job's charge on the runtime's counters. */
  class JobSlot {
    const runtime: WorkerRuntime
    ghost const owner: OwnerNo
    var isActive: bool

    ghost predicate Charged()
      reads this, runtime
    {
      owner in runtime.owners && runtime.owners[owner].phase == if isActive then Active else Queued
    }

    constructor (runtime: WorkerRuntime, ghost owner: OwnerNo)
      requires owner in runtime.owners && runtime.owners[owner].phase.Queued?
      ensures this.runtime == runtime && this.owner == owner && !isActive && Charged()
    {
      this.runtime, this.owner, isActive := runtime, owner, false;
    }

    /** The charge moves once; asking again changes nothing. */
    method Activate()
      requires Charged() && runtime.owners[owner].live
      modifies this`isActive, runtime`queuedJobs, runtime`activeJobs, runtime`owners
      ensures Charged() && isActive
      ensures old(isActive) ==> runtime.State() == old(runtime.State())
      ensures !old(isActive) ==>
                var moving := Apply(old(runtime.State()), runtime.maxJobs, BeginActivate(owner));
                runtime.State() == Apply(moving, runtime.maxJobs, EndActivate(owner))
    {
      if !isActive {
        runtime.queuedJobs := WrappingPred(runtime.queuedJobs);
        runtime.owners := runtime.owners[owner := runtime.owners[owner].(phase := Moving)];
        runtime.activeJobs := runtime.activeJobs + 1;
        runtime.owners := runtime.owners[owner := runtime.owners[owner].(phase := Active)];
        isActive := true;
      }
    }

    /**
     Dropping the slot, on every path: after the job is finished or while its
     task unwinds. The counter it was charged to falls by exactly one.
     */
    method Drop()
      requires Charged()
      modifies runtime`queuedJobs, runtime`activeJobs, runtime`owners
      ensures runtime.State() == Dropped(old(runtime.State()), owner)
      ensures owner !in runtime.owners
      ensures old(Inv(runtime.State(), runtime.maxJobs)) ==>
                && Inv(runtime.State(), runtime.maxJobs)
                && runtime.activeJobs == old(runtime.activeJobs) - (if isActive then 1 else 0)
                && runtime.queuedJobs == old(runtime.queuedJobs) - (if isActive then 0 else 1)
    {
      ghost var before := runtime.State();
      if Inv(before, runtime.maxJobs) {
        StepKeepsInv(before, runtime.maxJobs, if runtime.owners[owner].live then Panic(owner) else DropSlot(owner));
        ChargeIsCounted(before, owner);
      }
      hide Inv;
      if isActive {
        if runtime.activeJobs > 0 { runtime.activeJobs := runtime.activeJobs - 1; }
      } else {
        if runtime.queuedJobs > 0 { runtime.queuedJobs := runtime.queuedJobs - 1; }
      }
      runtime.owners := runtime.owners - {owner};
    }
  }
}
