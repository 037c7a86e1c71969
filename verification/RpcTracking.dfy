/**
 When the abort table can be trusted. A handler is reaped by its request id, so
 an id that is admitted again while an older task with it may still return can
 cost the newer one its entry, and only then.
 */
module RpcTracking {
  import opened Bytes
  import opened Collections
  import opened RpcMessages
  import opened RpcServer

  /** Every live handler can be found, and so aborted, through its id. */
  ghost predicate Tracked(s: Server) {
    forall task :: task in Live(s) ==> s.handlers[task].id in s.aborts && s.aborts[s.handlers[task].id] == task
  }

  /** Entries lead to tasks of their own id. */
  ghost predicate Owned(s: Server) {
    forall id :: id in s.aborts ==> s.aborts[id] in s.handlers && s.handlers[s.aborts[id]].id == id
  }

  /** The task has returned its id, or may yet. */
  predicate MayReturn(handler: Handler) { handler.stage.Running? || handler.stage.Sending? || handler.stage.Returned? }

  /** No other task with a tracked id may return it. */
  ghost predicate NoRivals(s: Server) {
    forall id, task :: id in s.aborts && task in s.handlers && s.handlers[task].id == id && task != s.aborts[id] ==>
      !MayReturn(s.handlers[task])
  }

  ghost predicate Numbered(s: Server) {
    (forall task :: task in s.handlers ==> task < s.nextTask)
    && (forall task :: task in s.abortRequested ==> task < s.nextTask)
  }

  ghost predicate TrackOk(s: Server) { Numbered(s) && (!Down(s) ==> Tracked(s) && Owned(s) && NoRivals(s)) }

  /** What can be checked when a request arrives: no task in the join set may still return this id. */
  ghost predicate Clear(s: Server, id: Id) {
    forall task :: task in s.handlers && s.handlers[task].id == id ==> !MayReturn(s.handlers[task])
  }

  predicate BringsRequest(step: Step) { step.Receive? && step.frame.Request? }

  predicate Admits(s: Server, limits: Limits, step: Step) {
    BringsRequest(step) && Rejection(s, limits, step.frame.id, step.frame.timeoutMicros).None?
  }

  // ----- Reaping -----

  /**
   Exactly when reaping loses a live handler: the reaped task returned an id
   whose entry belongs to another one that is live.
   */
  lemma {:induction false} JoinKeepsTrackingIff(s: Server, task: TaskNo)
    requires s.phase.Serving? && Tracked(s) && Owned(s) && task in s.handlers && !s.handlers[task].Unfinished()
    ensures Tracked(Joined(s, task)) <==>
              !(s.handlers[task].stage.Returned? && s.handlers[task].id in s.aborts
                && s.aborts[s.handlers[task].id] in Live(s))
  {
    var s', id := Joined(s, task), s.handlers[task].id;
    assert forall u :: u in Live(s') <==> u in Live(s);
    if s.handlers[task].stage.Returned? && id in s.aborts && s.aborts[id] in Live(s) {
      assert s.aborts[id] in Live(s') && s'.handlers[s.aborts[id]].id == id && id !in s'.aborts;
    }
  }

  // ----- Every step -----

  lemma {:induction false} SpawnKeepsTracking(s: Server, id: Id, body: Bytes)
    requires TrackOk(s) && s.phase.Serving? && id !in s.aborts && Clear(s, id)
    ensures TrackOk(Spawned(Noted(s, id, body), id, body))
  {
    var s' := Spawned(Noted(s, id, body), id, body);
    assert forall u :: u in Live(s') <==> u == s.nextTask || u in Live(s);
    hide Live;
  }

  lemma {:induction false} CancelKeepsTracking(s: Server, id: Id)
    requires TrackOk(s) && s.phase.Serving?
    ensures TrackOk(Cancelled(s, id))
  {
  }

  lemma {:induction false} JoinKeepsTracking(s: Server, task: TaskNo)
    requires TrackOk(s) && task in s.handlers && !s.handlers[task].Unfinished() && !s.phase.Refusing?
    ensures TrackOk(Joined(s, task))
  {
    if s.phase.Serving? {
      if s.handlers[task].stage.Returned? && s.handlers[task].id in s.aborts {
        assert s.aborts[s.handlers[task].id] == task;
      }
      JoinKeepsTrackingIff(s, task);
      hide Live, Tracked;
    }
  }

  lemma {:induction false} StageKeepsTracking(s: Server, task: TaskNo, stage: Stage)
    requires TrackOk(s) && IsUnfinished(s, task)
    ensures TrackOk(Staged(s, task, stage))
  {
    var s' := Staged(s, task, stage);
    assert forall u :: u in Live(s') ==> u in Live(s);
    hide Live;
  }

  /** Tracking looks at nothing else. */
  lemma {:induction false} SameTablesStayTracked(s: Server, s': Server)
    requires TrackOk(s) && (Down(s) ==> Down(s'))
    requires s'.handlers == s.handlers && s'.aborts == s.aborts && s'.nextTask == s.nextTask
    requires s.abortRequested <= s'.abortRequested <= s.abortRequested + s.handlers.Keys
    ensures TrackOk(s')
  {
    assert forall u :: u in Live(s') ==> u in Live(s);
    hide Live;
  }

  lemma {:induction false} StepKeepsTracking(s: Server, limits: Limits, step: Step)
    requires TrackOk(s) && Enabled(s, step) && (Admits(s, limits, step) ==> Clear(s, step.frame.id))
    ensures TrackOk(Apply(s, limits, step))
  {
    hide TrackOk, Clear, Staged;
    match step
    case Receive(Request(id, timeoutMicros, body)) =>
      if Admits(s, limits, step) { SpawnKeepsTracking(s, id, body); }
      else { SameTablesStayTracked(s, Apply(s, limits, step)); }
    case Receive(Cancel(id)) => CancelKeepsTracking(s, id);
    case Join(task) => JoinKeepsTracking(s, task);
    case Produce(task, result) =>
      StageKeepsTracking(s, task, Sending(ReplyFor(result, limits.maxResponseBytes)));
      StagedOnly(s, task, Sending(ReplyFor(result, limits.maxResponseBytes)));
      SameTablesStayTracked(Staged(s, task, Sending(ReplyFor(result, limits.maxResponseBytes))), Apply(s, limits, step));
    case SendReply(task) =>
      StageKeepsTracking(s, task, Returned);
      StagedOnly(s, task, Returned);
      SameTablesStayTracked(Staged(s, task, Returned), Apply(s, limits, step));
    case SendFails(task) => StageKeepsTracking(s, task, Returned);
    case Panic(task) => StageKeepsTracking(s, task, Panicked);
    case AbortTakesEffect(task) => StageKeepsTracking(s, task, Aborted);
    case _ => SameTablesStayTracked(s, Apply(s, limits, step));
  }

  lemma {:induction false} StagedOnly(s: Server, task: TaskNo, stage: Stage)
    requires task in s.handlers
    ensures var s' := Staged(s, task, stage);
            s'.phase == s.phase && s'.aborts == s.aborts && s'.nextTask == s.nextTask && s'.abortRequested == s.abortRequested
  {
  }

  // ----- Admission -----

  /** The state after more steps, none of them a request, if each was possible. */
  ghost function Continue(s: Server, limits: Limits, steps: seq<Step>): Option<Server> {
    if steps == [] then Some(s)
    else
      var last := steps[|steps| - 1];
      match Continue(s, limits, steps[..|steps| - 1])
      case None => None
      case Some(t) => if Enabled(t, last) && !BringsRequest(last) then Some(Apply(t, limits, last)) else None
  }

  lemma {:induction false} ContinueAppend(s: Server, limits: Limits, steps: seq<Step>, step: Step)
    requires Continue(s, limits, steps).Some? && Enabled(Continue(s, limits, steps).value, step) && !BringsRequest(step)
    ensures Continue(s, limits, steps + [step]) == Some(Apply(Continue(s, limits, steps).value, limits, step))
  {
    assert (steps + [step])[..|steps|] == steps;
  }

  lemma {:induction false} ContinueKeepsTracking(s: Server, limits: Limits, steps: seq<Step>)
    requires TrackOk(s) && Continue(s, limits, steps).Some?
    ensures TrackOk(Continue(s, limits, steps).value)
  {
    hide TrackOk;
    if steps != [] {
      ContinueKeepsTracking(s, limits, steps[..|steps| - 1]);
      StepKeepsTracking(Continue(s, limits, steps[..|steps| - 1]).value, limits, steps[|steps| - 1]);
    }
  }

  /** However the connection goes on after this, while serving, no live handler is lost. */
  ghost predicate StaysTracked(s: Server, limits: Limits, steps: seq<Step>) {
    Continue(s, limits, steps).Some? && !Down(Continue(s, limits, steps).value) ==>
      Tracked(Continue(s, limits, steps).value)
  }

  lemma {:induction false} ClearAdmissionIsSafe(s: Server, limits: Limits, id: Id, body: Bytes, steps: seq<Step>)
    requires TrackOk(s) && s.phase.Serving? && id !in s.aborts && Clear(s, id)
    ensures StaysTracked(Spawned(Noted(s, id, body), id, body), limits, steps)
  {
    hide TrackOk, Spawned, Noted, Tracked, Clear, Continue;
    var s' := Spawned(Noted(s, id, body), id, body);
    SpawnKeepsTracking(s, id, body);
    if Continue(s', limits, steps).Some? {
      ContinueKeepsTracking(s', limits, steps);
      TrackOkTracks(Continue(s', limits, steps).value);
    }
  }

  lemma {:induction false} UnclearAdmissionIsNot(s: Server, limits: Limits, id: Id, body: Bytes, elder: TaskNo)
    returns (steps: seq<Step>)
    requires Numbered(s) && s.phase.Serving? && elder in s.handlers && s.handlers[elder].id == id
    requires MayReturn(s.handlers[elder])
    ensures !StaysTracked(Spawned(Noted(s, id, body), id, body), limits, steps)
  {
    var s' := Spawned(Noted(s, id, body), id, body);
    steps := OldTaskIsReaped(s', limits, elder);
    hide Continue;
    var t := Continue(s', limits, steps).value;
    assert s.nextTask in t.handlers && t.handlers[s.nextTask] == Handler(id, body, Running);
    assert s.nextTask in Live(t) && id !in t.aborts;
  }

  /**
   The exact condition at admission: until the next request, the connection can
   go on in any way, cancels included, without a live handler being lost if and
   only if no task still in the join set may return the id that is admitted.
   */
  lemma {:induction false} AdmissionIsSafeIff(s: Server, limits: Limits, id: Id, timeoutMicros: nat, body: Bytes)
    requires TrackOk(s) && s.phase.Serving? && Rejection(s, limits, id, timeoutMicros).None?
    ensures (forall steps :: StaysTracked(Requested(s, limits, id, timeoutMicros, body), limits, steps)) <==> Clear(s, id)
  {
    var s' := Requested(s, limits, id, timeoutMicros, body);
    assert s' == Spawned(Noted(s, id, body), id, body) && id !in s.aborts;
    assert Numbered(s);
    hide Requested, TrackOk, Spawned, Noted, StaysTracked, Rejection, Numbered, MayReturn;
    if Clear(s, id) {
      forall steps ensures StaysTracked(s', limits, steps) {
        ClearAdmissionIsSafe(s, limits, id, body, steps);
      }
    } else {
      var elder :| elder in s.handlers && s.handlers[elder].id == id && MayReturn(s.handlers[elder]);
      var steps := UnclearAdmissionIsNot(s, limits, id, body, elder);
      assert !StaysTracked(s', limits, steps);
    }
  }

  lemma {:induction false} TrackOkTracks(s: Server)
    requires TrackOk(s)
    ensures !Down(s) ==> Tracked(s)
  {
  }

  /** A task that may return does, and is reaped; its id leaves the abort table. */
  lemma {:induction false} OldTaskIsReaped(s: Server, limits: Limits, elder: TaskNo) returns (steps: seq<Step>)
    requires s.phase.Serving? && elder in s.handlers && MayReturn(s.handlers[elder])
    ensures Continue(s, limits, steps).Some?
    ensures var s' := Continue(s, limits, steps).value;
            && s'.phase.Serving? && s'.abortRequested == s.abortRequested
            && s'.handlers == s.handlers - {elder} && s'.aborts == s.aborts - {s.handlers[elder].id}
  {
    steps := OldTaskReturns(s, limits, elder);
    var t := Continue(s, limits, steps).value;
    hide Continue;
    ContinueAppend(s, limits, steps, Join(elder));
    assert t.handlers - {elder} == s.handlers - {elder};
    steps := steps + [Join(elder)];
  }

  lemma {:induction false} OldTaskReturns(s: Server, limits: Limits, elder: TaskNo) returns (steps: seq<Step>)
    requires elder in s.handlers && MayReturn(s.handlers[elder])
    ensures Continue(s, limits, steps).Some?
    ensures var s' := Continue(s, limits, steps).value;
            && s'.phase == s.phase && s'.abortRequested == s.abortRequested && s'.aborts == s.aborts
            && s'.handlers == s.handlers[elder := s.handlers[elder].(stage := Returned)]
  {
    steps := [];
    assert Continue(s, limits, steps) == Some(s);
    hide Continue;
    if s.handlers[elder].stage.Running? {
      ContinueAppend(s, limits, steps, Produce(elder, TimedOut));
      steps := steps + [Produce(elder, TimedOut)];
    }
    if !s.handlers[elder].stage.Returned? {
      ContinueAppend(s, limits, steps, SendFails(elder));
      steps := steps + [SendFails(elder)];
    }
  }

  // ----- Every run -----

  /** Every admission of the run was clear. */
  ghost predicate Considerate(limits: Limits, steps: seq<Step>)
    requires Run(limits, steps).Some?
  {
    steps == [] ||
    (var before, last := steps[..|steps| - 1], steps[|steps| - 1];
     Considerate(limits, before)
     && (Admits(Run(limits, before).value, limits, last) ==> Clear(Run(limits, before).value, last.frame.id)))
  }

  lemma {:induction false} ConsiderateRunsTrack(limits: Limits, steps: seq<Step>)
    requires Run(limits, steps).Some? && Considerate(limits, steps)
    ensures TrackOk(Run(limits, steps).value)
  {
    if steps != [] {
      ConsiderateRunsTrack(limits, steps[..|steps| - 1]);
      hide TrackOk, Clear, Enabled, Apply;
      StepKeepsTracking(Run(limits, steps[..|steps| - 1]).value, limits, steps[|steps| - 1]);
    }
  }

  /** Ids that are never reused are always clear. */
  lemma {:induction false} FreshIdsAreClear(limits: Limits, steps: seq<Step>)
    requires Run(limits, steps).Some? && Run(limits, steps).value.unique
    ensures Considerate(limits, steps)
  {
    if steps != [] {
      var before, last := steps[..|steps| - 1], steps[|steps| - 1];
      var s := Run(limits, before).value;
      assert Apply(s, limits, last).unique;
      OnceReusedAlwaysReused(s, limits, last);
      FreshIdsAreClear(limits, before);
      RunKeepsInv(limits, before);
      if Admits(s, limits, last) { FreshIdIsClear(s, limits, last); }
    }
  }

  lemma {:induction false} FreshIdIsClear(s: Server, limits: Limits, step: Step)
    requires Inv(s, limits) && s.unique && Enabled(s, step) && Admits(s, limits, step) && Apply(s, limits, step).unique
    ensures Clear(s, step.frame.id)
  {
    hide IdOk, ResponsesTo;
  }

  /**
   While the connection serves, every live handler is reachable through the
   abort table, so a cancel stops it and the limit counts it, in every run whose
   admissions were clear; in particular when ids are never reused.
   */
  lemma {:induction false} LiveHandlersAreTracked(limits: Limits, steps: seq<Step>)
    requires Run(limits, steps).Some?
    ensures var s := Run(limits, steps).value;
            && |s.aborts| <= limits.maxInFlight
            && ((Considerate(limits, steps) || s.unique) && !Down(s) ==> Tracked(s) && |Live(s)| <= limits.maxInFlight)
  {
    RunKeepsInv(limits, steps);
    var s := Run(limits, steps).value;
    if s.unique { FreshIdsAreClear(limits, steps); }
    if Considerate(limits, steps) && !Down(s) {
      ConsiderateRunsTrack(limits, steps);
      TrackedAreNoMore(Live(s), s.aborts);
    }
  }

  lemma {:induction false} TrackedAreNoMore(tasks: set<TaskNo>, aborts: map<Id, TaskNo>)
    requires forall task :: task in tasks ==> task in aborts.Values
    ensures |tasks| <= |aborts|
    decreases |aborts|
  {
    if tasks != {} {
      var task :| task in tasks;
      var id :| id in aborts && aborts[id] == task;
      var rest := aborts - {id};
      assert |rest.Keys| == |aborts.Keys| - 1 by { assert rest.Keys == aborts.Keys - {id}; }
      forall t | t in tasks - {task} ensures t in rest.Values {
        var j :| j in aborts && aborts[j] == t;
        assert rest[j] == t;
      }
      TrackedAreNoMore(tasks - {task}, rest);
    }
  }
}
