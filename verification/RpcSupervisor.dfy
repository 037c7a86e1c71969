/**
 The supervisor's arms as they are written: in place, on the join set and the
 abort table. Each is proved to be the corresponding step of `RpcServer`.
 */
module RpcSupervisor {
  import opened Bytes
  import opened Collections
  import opened RpcMessages
  import opened RpcServer
  import RpcTracking
  import RpcWire

  class Supervisor {
    const limits: Limits
    var nextTask: TaskNo
    var handlers: map<TaskNo, Handler>
    var aborts: map<Id, TaskNo>
    var abortRequested: set<TaskNo>
    var phase: Phase
    var log: seq<ToClient>
    ghost var requests: map<Id, Bytes>
    ghost var rejected: set<Id>
    ghost var started: map<Id, TaskNo>
    ghost var replies: map<Id, Served>
    ghost var unique: bool

    ghost function State(): Server
      reads this
    {
      Server(nextTask, handlers, aborts, abortRequested, phase, log, requests, rejected, started, replies, unique)
    }

    constructor (limits: Limits)
      ensures this.limits == limits && State() == Initial() && Inv(State(), limits)
    {
      this.limits := limits;
      nextTask, handlers, aborts, abortRequested, phase, log := 0, map[], map[], {}, Serving, [];
      requests, rejected, started, replies, unique := map[], {}, map[], map[], true;
      new;
      InitialInv(limits);
    }

    /** The id is free, the timeout within bounds, and there is room for one more. */
    ghost predicate Admissible(id: Id, timeoutMicros: nat)
      reads this
    {
      id !in aborts && 0 < timeoutMicros <= limits.maxTimeoutMicros && |aborts| < limits.maxInFlight
    }

    /** The admission checks, in the order they are made. */
    method Check(id: Id, timeoutMicros: nat) returns (rejection: Option<RpcWire.Code>)
      ensures rejection == Rejection(State(), limits, id, timeoutMicros)
      ensures rejection.None? <==> Admissible(id, timeoutMicros)
      ensures rejection.Some? ==>
                rejection.value ==
                  if id in aborts then RpcWire.AlreadyExists
                  else if timeoutMicros == 0 then RpcWire.DeadlineExceeded
                  else if timeoutMicros > limits.maxTimeoutMicros then RpcWire.InvalidArgument
                  else RpcWire.ResourceExhausted
    {
      rejection := None;
      if id in aborts {
        rejection := Some(RpcWire.AlreadyExists);
      } else if timeoutMicros == 0 {
        rejection := Some(RpcWire.DeadlineExceeded);
      } else if timeoutMicros > limits.maxTimeoutMicros {
        rejection := Some(RpcWire.InvalidArgument);
      } else if |aborts| >= limits.maxInFlight {
        rejection := Some(RpcWire.ResourceExhausted);
      }
    }

    method Spawn(id: Id, body: Bytes)
      modifies this`handlers, this`aborts, this`started, this`nextTask
      ensures State() == Spawned(old(State()), id, body)
      ensures aborts == old(aborts)[id := old(nextTask)]
      ensures handlers == old(handlers)[old(nextTask) := Handler(id, body, Running)]
    {
      handlers := handlers[nextTask := Handler(id, body, Running)];
      aborts := aborts[id := nextTask];
      started := started[id := nextTask];
      nextTask := nextTask + 1;
    }

    /** A status for the request is on its way. */
    method Refuse(id: Id, body: Bytes, code: RpcWire.Code)
      modifies this`phase, this`rejected, this`replies
      ensures State() == Refused(old(State()), id, body, code)
      ensures phase == Refusing(Response(id, Failure(code, Standard)))
    {
      var status := Failure(code, Standard);
      phase := Refusing(Response(id, status));
      rejected, replies := rejected + {id}, replies[id := Served(body, status)];
    }

    ghost method Note(id: Id, body: Bytes)
      modifies this`requests, this`unique
      ensures State() == Noted(old(State()), id, body)
    {
      unique := unique && id !in requests;
      requests := if id in requests then requests else requests[id := body];
    }

    /** A request frame: refuse it, or spawn its handler and remember how to abort it. */
    method OnRequest(id: Id, timeoutMicros: nat, body: Bytes)
      requires phase.Serving?
      modifies this
      ensures State() == Requested(old(State()), limits, id, timeoutMicros, body)
      // One new tracked task, or one status on its way and nothing else.
      ensures old(Admissible(id, timeoutMicros)) ==>
                && phase.Serving? && aborts == old(aborts)[id := old(nextTask)]
                && handlers == old(handlers)[old(nextTask) := Handler(id, body, Running)]
      ensures !old(Admissible(id, timeoutMicros)) ==>
                && phase == Refusing(Response(id, Failure(
                     if id in old(aborts) then RpcWire.AlreadyExists
                     else if timeoutMicros == 0 then RpcWire.DeadlineExceeded
                     else if timeoutMicros > limits.maxTimeoutMicros then RpcWire.InvalidArgument
                     else RpcWire.ResourceExhausted, Standard)))
                && handlers == old(handlers) && aborts == old(aborts)
      ensures log == old(log) && (old(Inv(State(), limits)) ==> Inv(State(), limits) && |aborts| <= limits.maxInFlight)
    {
      hide Rejection, Spawned, Refused, Noted, Inv;
      if Inv(State(), limits) { RequestKeepsInv(State(), limits, id, timeoutMicros, body); }
      var rejection := Check(id, timeoutMicros);
      Note(id, body);
      if rejection.Some? {
        Refuse(id, body, rejection.value);
      } else {
        Spawn(id, body);
      }
    }

    /** A cancel frame: forget the handler and ask it to stop. */
    method OnCancel(id: Id)
      modifies this`aborts, this`abortRequested
      ensures State() == Cancelled(old(State()), id)
      ensures id !in aborts && forall other :: other != id ==> SameEntry(old(aborts), aborts, other)
      ensures id in old(aborts) ==> old(aborts)[id] in abortRequested
      ensures phase.Serving? && old(Inv(State(), limits)) ==> Inv(State(), limits)
      // With entries that can be trusted, no handler of this id goes on unasked.
      ensures phase.Serving? && old(RpcTracking.TrackOk(State())) ==>
                forall task :: task in Live(State()) ==> handlers[task].id != id
    {
      if phase.Serving? && RpcTracking.TrackOk(State()) { CancelStopsTheId(State(), id); }
      hide Inv;
      if phase.Serving? && Inv(State(), limits) { CancelKeepsInv(State(), limits, id); }
      hide Live, RpcTracking.TrackOk;
      if id in aborts {
        var task := aborts[id];
        aborts := aborts - {id};
        abortRequested := abortRequested + {task};
      }
    }

    /** Keep the entries whose task has not finished. */
    method RetainUnfinished()
      modifies this`aborts
      ensures aborts == Retained(handlers, old(aborts))
      ensures forall id :: id in aborts <==>
                && id in old(aborts) && old(aborts)[id] in handlers
                && (handlers[old(aborts)[id]].stage.Running? || handlers[old(aborts)[id]].stage.Sending?)
      ensures forall id :: id in aborts ==> aborts[id] == old(aborts)[id]
    {
      ghost var before := aborts;
      var pending := aborts.Keys;
      while pending != {}
        invariant pending <= aborts.Keys <= before.Keys
        invariant forall id :: id in aborts ==> aborts[id] == before[id]
        invariant forall id :: id in before && id !in pending ==> (id in aborts <==> IsUnfinished(State(), before[id]))
        decreases pending
      {
        var id :| id in pending;
        pending := pending - {id};
        if aborts[id] !in handlers || !handlers[aborts[id]].Unfinished() {
          aborts := aborts - {id};
        }
      }
      assert aborts.Keys == Retained(handlers, before).Keys;
    }

    /** A handler was reaped: its own entry goes, or after a failure every entry without a task. */
    method OnJoined(task: TaskNo)
      requires task in handlers && phase.Serving?
      modifies this`handlers, this`aborts
      ensures State() == Joined(old(State()), task)
      ensures handlers == old(handlers) - {task}
      ensures forall id :: id in aborts ==> id in old(aborts) && aborts[id] == old(aborts)[id]
      ensures old(!handlers[task].Unfinished() && Inv(State(), limits)) ==> Inv(State(), limits)
      // The entries of live handlers survive exactly if the one that goes is not another live one's.
      ensures old(!handlers[task].Unfinished() && RpcTracking.Tracked(State()) && RpcTracking.Owned(State())) ==>
                (RpcTracking.Tracked(State()) <==>
                   !old(handlers[task].stage.Returned? && handlers[task].id in aborts && aborts[handlers[task].id] in Live(State())))
    {
      JoinMeans(State(), limits, task);
      hide Inv, Live, RpcTracking.Tracked, RpcTracking.Owned;
      var finished := handlers[task];
      handlers := handlers - {task};
      if finished.stage.Returned? {
        aborts := aborts - {finished.id};
      } else {
        RetainUnfinished();
      }
    }
  }

  lemma {:induction false} RequestKeepsInv(s: Server, limits: Limits, id: Id, timeoutMicros: nat, body: Bytes)
    requires Inv(s, limits) && s.phase.Serving?
    ensures Inv(Requested(s, limits, id, timeoutMicros, body), limits)
    ensures |Requested(s, limits, id, timeoutMicros, body).aborts| <= limits.maxInFlight
  {
    hide AllOk, EndOk, Requested;
    StepKeepsInv(s, limits, Receive(Request(id, timeoutMicros, body)));
  }

  lemma {:induction false} CancelKeepsInv(s: Server, limits: Limits, id: Id)
    requires Inv(s, limits) && s.phase.Serving?
    ensures Inv(Cancelled(s, id), limits)
  {
    hide Inv, Cancelled;
    StepKeepsInv(s, limits, Receive(Cancel(id)));
  }

  lemma {:induction false} JoinMeans(s: Server, limits: Limits, task: TaskNo)
    requires task in s.handlers && s.phase.Serving?
    ensures !s.handlers[task].Unfinished() && Inv(s, limits) ==> Inv(Joined(s, task), limits)
    ensures !s.handlers[task].Unfinished() && RpcTracking.Tracked(s) && RpcTracking.Owned(s) ==>
              (RpcTracking.Tracked(Joined(s, task)) <==>
                 !(s.handlers[task].stage.Returned? && s.handlers[task].id in s.aborts
                   && s.aborts[s.handlers[task].id] in Live(s)))
  {
    hide Inv, Joined, Live, RpcTracking.Tracked, RpcTracking.Owned;
    if !s.handlers[task].Unfinished() {
      if Inv(s, limits) { StepKeepsInv(s, limits, Join(task)); }
      if RpcTracking.Tracked(s) && RpcTracking.Owned(s) { RpcTracking.JoinKeepsTrackingIff(s, task); }
    }
  }

  lemma {:induction false} CancelStopsTheId(s: Server, id: Id)
    requires s.phase.Serving? && RpcTracking.TrackOk(s)
    ensures forall task :: task in Live(Cancelled(s, id)) ==> s.handlers[task].id != id
  {
  }
}
