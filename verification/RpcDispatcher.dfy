/**
 The dispatcher's select arms and its terminal drain as they are written: in
 place, on the in-flight table, the deadline queue and the channels. Each is
 proved to be the corresponding step, or run of steps, of `RpcClient`.
 */
module RpcDispatcher {
  import opened Bytes
  import opened Collections
  import opened RpcMessages
  import opened RpcClient

  /** One turn of the request arm: the abandonment check and the admission that follows it. */
  ghost function RequestArm(s: Client, timeoutMicros: nat): Client
    requires s.queue != [] && s.queue[0] in s.bodies
  {
    var pulled := Pulled(s);
    if pulled.at == Checked(s.queue[0]) then Admitted(pulled, timeoutMicros) else pulled
  }

  /** The next request is tracked and timed. */
  ghost function Entered(s: Client): Client
    requires s.queue != []
  {
    var id := s.queue[0];
    s.(queue := s.queue[1..], inFlight := s.inFlight + {id}, deadlines := s.deadlines + {id})
  }

  lemma {:induction false} ArmCases(s: Client, timeoutMicros: nat)
    requires s.queue != [] && s.queue[0] in s.bodies && s.at.Selecting?
    ensures var id := s.queue[0];
            RequestArm(s, timeoutMicros) ==
            if ReceiverClosed(s, id) then s.(queue := s.queue[1..], slots := s.slots[id := SenderDropped])
            else if timeoutMicros == 0 then s.(queue := s.queue[1..], slots := s.slots[id := Filled(DeadlineExceeded)])
            else Offer(Entered(s), Request(id, timeoutMicros, s.bodies[id]))
  {
  }

  /** The queued requests, answered one after the other. */
  ghost function QueueFailed(s: Client): (s': Client)
    ensures s'.queue == [] && s' == s.(queue := [], slots := s'.slots)
    decreases |s.queue|
  {
    if s.queue == [] then s else QueueFailed(QueuedFailed(s))
  }

  /** A failed connection: in-flight calls answered, queue closed and drained, dispatcher gone. */
  ghost function Terminated(s: Client): Client {
    QueueFailed(Failed(s).(queueClosed := true)).(at := Ended)
  }

  lemma {:induction false} QueueFailedKeepsInv(s: Client, limit: nat)
    requires Inv(s, limit) && s.at.Draining? && s.queueClosed
    ensures Inv(QueueFailed(s), limit)
    decreases |s.queue|
  {
    hide Inv;
    if s.queue != [] {
      StepKeepsInv(s, limit, DrainQueue);
      QueueFailedKeepsInv(QueuedFailed(s), limit);
    }
  }

  /** The request arm is a pull followed, unless the call was abandoned, by an admission. */
  lemma {:induction false} RequestArmKeepsInv(s: Client, limit: nat, timeoutMicros: nat)
    requires Inv(s, limit) && Enabled(s, limit, PullRequest)
    ensures s.queue[0] in s.bodies && Inv(RequestArm(s, timeoutMicros), limit)
    ensures |RequestArm(s, timeoutMicros).inFlight| <= limit
  {
    hide CallOk;
    StepKeepsInv(s, limit, PullRequest);
    if Pulled(s).at.Checked? { StepKeepsInv(Pulled(s), limit, Admit(timeoutMicros)); }
  }

  /** The terminal drain is a run of steps, and leaves no call waiting. */
  lemma {:induction false} TerminatedAnswersEveryone(s: Client, limit: nat)
    requires Inv(s, limit) && Enabled(s, limit, Fail) && !s.queueClosed
    ensures s.inFlight <= s.slots.Keys
    ensures Inv(Terminated(s), limit)
    ensures var s' := Terminated(s);
            forall id :: id in s'.slots && !Is(s', id, Submitting) ==> !s'.slots[id].Open?
  {
    assert s.inFlight <= s.slots.Keys;
    hide Inv;
    StepKeepsInv(s, limit, Fail);
    StepKeepsInv(Failed(s), limit, CloseQueue);
    var closed := Failed(s).(queueClosed := true);
    QueueFailedKeepsInv(closed, limit);
    StepKeepsInv(QueueFailed(closed), limit, Leave);
    NothingHeldOnceEnded(Terminated(s), limit);
  }

  lemma {:induction false} NothingHeldOnceEnded(s: Client, limit: nat)
    requires Inv(s, limit) && s.at.Ended?
    ensures forall id :: id in s.slots && !Is(s, id, Submitting) ==> !s.slots[id].Open?
  {
    hide FramesOf, WellOrdered;
    forall id | id in s.slots && !Is(s, id, Submitting) ensures !s.slots[id].Open? {
      assert CallOk(s, id);
    }
  }

  /** The arms that end a call are steps of the protocol, so they keep its invariant. */
  lemma {:induction false} EndingArmsKeepInv(s: Client, limit: nat, response: ToClient, id: Id)
    requires Inv(s, limit) && s.at.Selecting?
    ensures s.cancellations != [] ==> Inv(CancellationTaken(s), limit)
    ensures Inv(Answered(s, response), limit)
    ensures id in s.deadlines ==> Inv(Expired(s, id), limit)
  {
    hide Inv, CancellationTaken, Answered, Expired;
    if s.cancellations != [] { StepKeepsInv(s, limit, PullCancellation); }
    StepKeepsInv(s, limit, Receive(response));
    if id in s.deadlines { StepKeepsInv(s, limit, Expire(id)); }
  }

  /** Tracked calls are timed, so a deadline that passes is a tracked call's. */
  lemma {:induction false} DeadlinesAreTracked(s: Client, limit: nat)
    requires Inv(s, limit)
    ensures s.inFlight == s.deadlines
  {
    hide CallOk, Tables;
  }

  class Dispatcher {
    const limit: nat
    var nextId: Id
    var bodies: map<Id, Bytes>
    var callers: map<Id, Caller>
    var slots: map<Id, Slot>
    var queue: seq<Id>
    var queueClosed: bool
    var cancellations: seq<Id>
    var handles: bool
    var accepting: bool
    var inFlight: set<Id>
    var deadlines: set<Id>
    var at: Position
    var log: seq<ToServer>

    ghost function State(): Client
      reads this
    {
      Client(nextId, bodies, callers, slots, queue, queueClosed, cancellations, handles,
             accepting, inFlight, deadlines, at, log)
    }

    constructor (limit: nat)
      ensures this.limit == limit && State() == Initial() && Inv(State(), limit)
    {
      this.limit := limit;
      nextId, bodies, callers, slots, queue, queueClosed := 1, map[], map[], map[], [], false;
      cancellations, handles, accepting, inFlight, deadlines, at, log := [], true, true, {}, {}, Selecting, [];
      new;
      InitialInv(limit);
    }

    /** Nobody waits for this call any more. */
    predicate WalkedAway(id: Id)
      requires id in callers
      reads this
    {
      callers[id].Closing? || callers[id].Abandoned? || callers[id].Finished?
    }

    /** A request is ready; `timeoutMicros` is what remains of its deadline. */
    method OnRequest(timeoutMicros: nat)
      requires queue != [] && queue[0] in bodies && queue[0] in callers && at.Selecting?
      modifies this`slots, this`queue, this`inFlight, this`deadlines, this`at, this`log
      ensures State() == RequestArm(old(State()), timeoutMicros)
      ensures queue == old(queue)[1..] && forall other :: other != old(queue[0]) ==> SameEntry(old(slots), slots, other)
      // Skipped, refused, or tracked, timed and sent.
      ensures old(WalkedAway(queue[0])) || timeoutMicros == 0 ==>
                && inFlight == old(inFlight) && deadlines == old(deadlines) && log == old(log) && at.Selecting?
                && slots == old(slots)[old(queue[0]) := if old(WalkedAway(queue[0])) then SenderDropped else Filled(DeadlineExceeded)]
      ensures !old(WalkedAway(queue[0])) && timeoutMicros > 0 ==>
                && inFlight == old(inFlight) + {old(queue[0])} && deadlines == old(deadlines) + {old(queue[0])}
                && log == old(log) + [Request(old(queue[0]), timeoutMicros, bodies[old(queue[0])])] && slots == old(slots)
      ensures old(Inv(State(), limit) && Enabled(State(), limit, PullRequest)) ==> Inv(State(), limit) && |inFlight| <= limit
    {
      if Inv(State(), limit) && Enabled(State(), limit, PullRequest) {
        RequestArmKeepsInv(State(), limit, timeoutMicros);
      }
      ArmCases(State(), timeoutMicros);
      hide Inv, Offer, RequestArm, Enabled;
      var id := queue[0];
      if WalkedAway(id) {
        Dismiss(SenderDropped);
      } else if timeoutMicros == 0 {
        Dismiss(Filled(DeadlineExceeded));
      } else {
        Track(id);
        Hand(Request(id, timeoutMicros, bodies[id]));
      }
    }

    /** The next request goes no further; this is what its channel gets. */
    method Dismiss(slot: Slot)
      requires queue != []
      modifies this`slots, this`queue
      ensures State() == old(State()).(queue := old(queue)[1..], slots := old(slots)[old(queue[0]) := slot])
      ensures queue == old(queue)[1..] && slots == old(slots)[old(queue[0]) := slot]
    {
      slots, queue := slots[queue[0] := slot], queue[1..];
    }

    method Track(id: Id)
      requires queue != [] && queue[0] == id
      modifies this`queue, this`inFlight, this`deadlines
      ensures State() == Entered(old(State()))
      ensures queue == old(queue)[1..] && inFlight == old(inFlight) + {id} && deadlines == old(deadlines) + {id}
    {
      queue := queue[1..];
      deadlines := deadlines + {id};
      inFlight := inFlight + {id};
    }

    /** A call leaves the in-flight table and the deadline queue; this is what its channel gets. */
    method StopTracking(id: Id, slot: Slot)
      modifies this`slots, this`inFlight, this`deadlines
      ensures State() == Forget(old(State()), id, slot)
      ensures inFlight == old(inFlight) - {id} && deadlines == old(deadlines) - {id} && slots == old(slots)[id := slot]
    {
      inFlight, deadlines := inFlight - {id}, deadlines - {id};
      slots := slots[id := slot];
    }

    method Hand(frame: ToServer)
      modifies this`at, this`log
      ensures State() == Offer(old(State()), frame)
      ensures log == old(log) + [frame] && at == Handing(frame)
    {
      log, at := log + [frame], Handing(frame);
    }

    /** A cancellation is ready: stop tracking the call and tell the server. */
    method OnCancellation()
      requires cancellations != []
      modifies this`slots, this`cancellations, this`inFlight, this`deadlines, this`at, this`log
      ensures State() == CancellationTaken(old(State()))
      ensures var id := old(cancellations[0]);
              && inFlight == old(inFlight) - {id}
              && log == old(log) + (if id in old(inFlight) then [Cancel(id)] else [])
              && (forall other :: other in slots && other != id ==> other in old(slots) && slots[other] == old(slots)[other])
      ensures old(Inv(State(), limit)) && old(at).Selecting? ==> Inv(State(), limit)
    {
      hide Inv, Offer, Forget;
      if Inv(State(), limit) && at.Selecting? { EndingArmsKeepInv(State(), limit, Response(0, Body([])), 0); }
      var id := cancellations[0];
      cancellations := cancellations[1..];
      if id in inFlight {
        StopTracking(id, SenderDropped);
        Hand(Cancel(id));
      }
    }

    /** A response frame arrived: it answers its call if that call is still tracked. */
    method OnResponse(response: ToClient)
      modifies this`slots, this`inFlight, this`deadlines
      ensures State() == Answered(old(State()), response)
      ensures response.id !in inFlight && inFlight == old(inFlight) - {response.id}
      ensures response.id in old(inFlight) ==>
                response.id in slots && slots[response.id] == Filled(Replied(response.reply))
      ensures forall other :: other in slots && (other != response.id || other !in old(inFlight)) ==>
                other in old(slots) && slots[other] == old(slots)[other]
      ensures old(Inv(State(), limit)) && at.Selecting? ==> Inv(State(), limit)
    {
      hide Inv, Forget;
      if Inv(State(), limit) && at.Selecting? { EndingArmsKeepInv(State(), limit, response, 0); }
      if response.id in inFlight {
        StopTracking(response.id, Filled(Replied(response.reply)));
      }
    }

    /** A deadline passed. */
    method OnExpired(id: Id)
      requires id in deadlines
      modifies this`slots, this`inFlight, this`deadlines, this`at, this`log
      ensures State() == Expired(old(State()), id)
      ensures id !in inFlight && id !in deadlines
      ensures old(Inv(State(), limit)) ==>
                && id in slots && slots[id] == Filled(DeadlineExceeded) && log == old(log) + [Cancel(id)]
                && inFlight == old(inFlight) - {id} && deadlines == inFlight
      ensures old(Inv(State(), limit)) && old(at).Selecting? ==> Inv(State(), limit)
    {
      hide Inv, Offer, Forget;
      if Inv(State(), limit) { DeadlinesAreTracked(State(), limit); }
      if Inv(State(), limit) && at.Selecting? { EndingArmsKeepInv(State(), limit, Response(0, Body([])), id); }
      if id in inFlight {
        StopTracking(id, Filled(DeadlineExceeded));
        Hand(Cancel(id));
      } else {
        deadlines := deadlines - {id};
      }
    }

    /** Answer every tracked call with the connection's failure. */
    method FailInFlight()
      requires inFlight <= slots.Keys
      modifies this`slots, this`inFlight, this`deadlines, this`at
      ensures State() == Failed(old(State()))
      ensures inFlight == {} && deadlines == {} && slots.Keys == old(slots.Keys)
      ensures forall id :: id in slots ==>
                slots[id] == if id in old(inFlight) then Filled(ConnectionFailed) else old(slots)[id]
    {
      ghost var tracked, before := inFlight, slots;
      while inFlight != {}
        modifies this`slots, this`inFlight
        invariant inFlight <= tracked
        invariant slots.Keys == before.Keys
        invariant forall id :: id in slots ==>
          slots[id] == if id in tracked - inFlight then Filled(ConnectionFailed) else before[id]
        decreases inFlight
      {
        var id :| id in inFlight;
        slots := slots[id := Filled(ConnectionFailed)];
        inFlight := inFlight - {id};
      }
      assert slots == SetAll(before, tracked, Filled(ConnectionFailed));
      deadlines, at := {}, Draining;
    }

    /** Answer every request still queued. */
    method FailQueue()
      modifies this`slots, this`queue
      ensures State() == QueueFailed(old(State()))
      ensures queue == [] && forall id :: id in old(queue) ==> id in slots && slots[id] == Filled(ConnectionFailed)
      ensures forall id :: id !in old(queue) ==> SameEntry(old(slots), slots, id)
    {
      while queue != []
        invariant QueueFailed(State()) == old(QueueFailed(State()))
        invariant forall id :: id in queue ==> id in old(queue)
        invariant forall id :: id in old(queue) && id !in queue ==> id in slots && slots[id] == Filled(ConnectionFailed)
        invariant forall id :: id !in old(queue) ==> SameEntry(old(slots), slots, id)
        decreases |queue|
      {
        ghost var previous := State();
        assert queue == [queue[0]] + queue[1..];
        slots, queue := slots[queue[0] := Filled(ConnectionFailed)], queue[1..];
        assert State() == QueuedFailed(previous);
      }
    }

    /** The connection is lost: fail every call that can no longer complete. */
    method Terminate()
      requires Inv(State(), limit) && Enabled(State(), limit, Fail) && !queueClosed
      modifies this`slots, this`queue, this`queueClosed, this`inFlight, this`deadlines, this`at
      ensures State() == Terminated(old(State())) && Inv(State(), limit)
      ensures forall id :: id in slots && !Is(State(), id, Submitting) ==> !slots[id].Open?
    {
      hide Inv, Enabled, Failed, QueueFailed;
      TerminatedAnswersEveryone(State(), limit);
      FailInFlight();
      queueClosed := true;
      FailQueue();
      at := Ended;
    }
  }
}
