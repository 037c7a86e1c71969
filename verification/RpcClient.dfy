/**
 The client side of a multiplexed connection as a step system: callers that
 begin, wait for and abandon calls, and the dispatcher that owns the in-flight
 table. Every await point of the dispatcher and of `ResponseGuard::drop` is a
 point where the other side may step, so a run is any interleaving.
 */
module RpcClient {
  import opened Bytes
  import opened Collections
  import opened RpcMessages

  /** What the dispatcher puts into a call's one-shot channel. */
  datatype Answer = Replied(reply: Reply) | DeadlineExceeded | ConnectionFailed

  datatype Slot = Open | Filled(answer: Answer) | SenderDropped

  /**
   A caller: waiting for room in the request queue, waiting for its answer,
   dropped with its receiver closed but the cancellation not yet sent, dropped
   and cancelled, or done.
   */
  datatype Caller = Submitting | Waiting | Closing | Abandoned | Finished

  /**
   Where the dispatcher stands: selecting, past the abandonment check of one
   request, handing a frame to the writer, draining after a failure, or gone.
   */
  datatype Position = Selecting | Checked(id: Id) | Handing(frame: ToServer) | Draining | Ended

  datatype Client = Client(
    nextId: Id,
    bodies: map<Id, Bytes>,
    callers: map<Id, Caller>,
    slots: map<Id, Slot>,
    queue: seq<Id>,
    queueClosed: bool,
    cancellations: seq<Id>,
    handles: bool,
    accepting: bool,
    inFlight: set<Id>,
    deadlines: set<Id>,
    at: Position,
    log: seq<ToServer>)  // frames offered to the writer, the one being handed included

  function Initial(): Client {
    Client(1, map[], map[], map[], [], false, [], true, true, {}, {}, Selecting, [])
  }

  datatype Step =
    // callers
    | Begin(body: Bytes)
    | Enqueue(id: Id)
    | Refuse(id: Id)
    | Drop(id: Id)
    | SendCancellation(id: Id)
    | TakeAnswer(id: Id)
    | DropHandles
    // dispatcher
    | NoMoreCalls
    | PullRequest
    | Admit(timeoutMicros: nat)
    | Handed
    | PullCancellation
    | Receive(response: ToClient)
    | Expire(id: Id)
    | Fail
    | CloseQueue
    | DrainQueue
    | Leave

  /** The receiver half of the call's one-shot channel has been closed. */
  predicate ReceiverClosed(s: Client, id: Id) {
    id in s.callers && (s.callers[id].Closing? || s.callers[id].Abandoned? || s.callers[id].Finished?)
  }

  predicate Is(s: Client, id: Id, caller: Caller) {
    id in s.callers && s.callers[id] == caller
  }

  ghost predicate Enabled(s: Client, limit: nat, step: Step) {
    match step
    case Begin(_) => s.handles
    case Enqueue(id) => Is(s, id, Submitting) && !s.queueClosed
    case Refuse(id) => Is(s, id, Submitting) && s.queueClosed
    case Drop(id) => Is(s, id, Submitting) || Is(s, id, Waiting)
    case SendCancellation(id) => Is(s, id, Closing)
    case TakeAnswer(id) => Is(s, id, Waiting) && id in s.slots && !s.slots[id].Open?
    case DropHandles => forall id :: id in s.callers ==> s.callers[id].Abandoned? || s.callers[id].Finished?
    case NoMoreCalls => s.at.Selecting? && s.accepting && |s.inFlight| < limit && !s.handles && s.queue == []
    case PullRequest => s.at.Selecting? && s.accepting && |s.inFlight| < limit && s.queue != []
    case Admit(_) => s.at.Checked? && s.at.id in s.bodies
    case Handed => s.at.Handing?
    case PullCancellation => s.at.Selecting? && s.cancellations != []
    case Receive(_) => s.at.Selecting?
    case Expire(id) => s.at.Selecting? && id in s.deadlines
    case Fail => s.at.Selecting? || s.at.Handing?
    case CloseQueue => s.at.Draining? && !s.queueClosed
    case DrainQueue => s.at.Draining? && s.queueClosed && s.queue != []
    case Leave => (s.at.Draining? && s.queueClosed && s.queue == [])
                  || (s.at.Selecting? && !s.accepting && s.inFlight == {})
  }

  function SetAll(slots: map<Id, Slot>, ids: set<Id>, slot: Slot): map<Id, Slot> {
    map id | id in slots :: if id in ids then slot else slots[id]
  }

  function Forget(s: Client, id: Id, slot: Slot): Client {
    s.(inFlight := s.inFlight - {id}, deadlines := s.deadlines - {id}, slots := s.slots[id := slot])
  }

  function Offer(s: Client, frame: ToServer): Client {
    s.(at := Handing(frame), log := s.log + [frame])
  }

  /** The next request leaves the queue; one whose receiver is closed goes no further. */
  function Pulled(s: Client): Client
    requires s.queue != []
  {
    var id := s.queue[0];
    if ReceiverClosed(s, id) then s.(queue := s.queue[1..], slots := s.slots[id := SenderDropped])
    else s.(queue := s.queue[1..], at := Checked(id))
  }

  function Admitted(s: Client, timeoutMicros: nat): Client
    requires s.at.Checked? && s.at.id in s.bodies
  {
    var id := s.at.id;
    if timeoutMicros == 0 then s.(at := Selecting, slots := s.slots[id := Filled(DeadlineExceeded)])
    else Offer(s.(inFlight := s.inFlight + {id}, deadlines := s.deadlines + {id}),
               Request(id, timeoutMicros, s.bodies[id]))
  }

  function CancellationTaken(s: Client): Client
    requires s.cancellations != []
  {
    var id := s.cancellations[0];
    var s' := s.(cancellations := s.cancellations[1..]);
    if id in s.inFlight then Offer(Forget(s', id, SenderDropped), Cancel(id)) else s'
  }

  function Answered(s: Client, response: ToClient): Client {
    if response.id in s.inFlight then Forget(s, response.id, Filled(Replied(response.reply))) else s
  }

  function Expired(s: Client, id: Id): Client {
    if id in s.inFlight then Offer(Forget(s, id, Filled(DeadlineExceeded)), Cancel(id))
    else s.(deadlines := s.deadlines - {id})
  }

  /** The connection failed: every tracked call is told. */
  function Failed(s: Client): Client {
    s.(at := Draining, inFlight := {}, deadlines := {},
       slots := SetAll(s.slots, s.inFlight, Filled(ConnectionFailed)))
  }

  function QueuedFailed(s: Client): Client
    requires s.queue != []
  {
    s.(queue := s.queue[1..], slots := s.slots[s.queue[0] := Filled(ConnectionFailed)])
  }

  function Apply(s: Client, limit: nat, step: Step): Client
    requires Enabled(s, limit, step)
  {
    match step
    case Begin(body) =>
      s.(nextId := s.nextId + 1, bodies := s.bodies[s.nextId := body],
         callers := s.callers[s.nextId := Submitting], slots := s.slots[s.nextId := Open])
    case Enqueue(id) =>
      s.(queue := s.queue + [id], callers := s.callers[id := Waiting])
    case Refuse(id) =>
      s.(callers := s.callers[id := Closing], slots := s.slots[id := SenderDropped])
    case Drop(id) =>
      // A request that never reached the queue is dropped together with its sender.
      s.(slots := if Is(s, id, Submitting) then s.slots[id := SenderDropped] else s.slots,
         callers := s.callers[id := Closing])
    case SendCancellation(id) =>
      s.(cancellations := s.cancellations + [id], callers := s.callers[id := Abandoned])
    case TakeAnswer(id) =>
      s.(callers := s.callers[id := Finished])
    case DropHandles => s.(handles := false)
    case NoMoreCalls => s.(accepting := false)
    case PullRequest => Pulled(s)
    case Admit(timeoutMicros) => Admitted(s, timeoutMicros)
    case Handed => s.(at := Selecting)
    case PullCancellation => CancellationTaken(s)
    case Receive(response) => Answered(s, response)
    case Expire(id) => Expired(s, id)
    case Fail => Failed(s)
    case CloseQueue => s.(queueClosed := true)
    case DrainQueue => QueuedFailed(s)
    case Leave => s.(at := Ended, queueClosed := true)
  }

  // ----- Invariant -----

  /** Nothing, a request carrying this call's body, or that request and then its cancel. */
  ghost predicate WellOrdered(frames: seq<ToServer>, id: Id, body: Bytes) {
    || frames == []
    || (|frames| == 1 && IsRequest(frames[0], id, body))
    || (|frames| == 2 && IsRequest(frames[0], id, body) && frames[1] == Cancel(id))
  }

  predicate IsRequest(frame: ToServer, id: Id, body: Bytes) {
    frame.Request? && frame.id == id && frame.body == body && frame.timeoutMicros > 0
  }

  /** Where a call whose channel is still open can be: the places that hold its sender. */
  predicate Held(s: Client, id: Id) {
    Is(s, id, Submitting) || id in s.queue || s.at == Checked(id) || id in s.inFlight
  }

  ghost predicate CallOk(s: Client, id: Id)
    requires id in s.callers && id in s.slots && id in s.bodies
  {
    var frames := FramesOf(s.log, id);
    && (s.slots[id].Open? <==> Held(s, id))
    && (Is(s, id, Submitting) ==> id !in s.queue && s.at != Checked(id) && id !in s.inFlight)
    && (id in s.queue ==> s.at != Checked(id) && id !in s.inFlight)
    && (s.at == Checked(id) ==> id !in s.inFlight)
    && (s.slots[id].Open? && id !in s.inFlight ==> frames == [])
    && (id in s.inFlight ==> |frames| == 1)
    && WellOrdered(frames, id, s.bodies[id])
    && (s.callers[id].Finished? ==> !s.slots[id].Open?)
    && (id in s.cancellations ==> s.callers[id].Abandoned?)
    && ((id in s.inFlight || s.at == Checked(id)) && s.callers[id].Abandoned? ==> id in s.cancellations)
  }

  /** The tables agree on which calls exist, and queues and log mention only those. */
  ghost predicate Tables(s: Client) {
    && s.callers.Keys == s.slots.Keys == s.bodies.Keys
    && (forall id :: id in s.callers ==> id < s.nextId)
    && (forall id :: id in s.queue ==> id in s.callers)
    && (forall id :: id in s.cancellations ==> id in s.callers)
    && s.inFlight <= s.callers.Keys
    && (s.at.Checked? ==> s.at.id in s.callers)
    && (forall id :: id !in s.callers ==> FramesOf(s.log, id) == [])
    && NoRepeats(s.queue)
  }

  /** In-flight calls are timed, and there is room for the one being admitted. */
  ghost predicate Bounded(s: Client, limit: nat) {
    && s.inFlight == s.deadlines
    && |s.inFlight| <= limit
    && (s.at.Checked? ==> |s.inFlight| < limit)
  }

  ghost predicate Modes(s: Client, limit: nat) {
    Bounded(s, limit) && Closes(s) && Retires(s)
  }

  /** A dispatcher that is going has given up its calls, and then its queue. */
  ghost predicate Closes(s: Client) {
    && (s.at.Draining? || s.at.Ended? ==> s.inFlight == {})
    && (s.at.Ended? ==> s.queue == [] && s.queueClosed)
    && (s.queueClosed ==> s.at.Draining? || s.at.Ended?)
  }

  /** The last handle goes after the last caller. */
  ghost predicate Retires(s: Client) {
    && (!s.accepting ==> !s.handles && s.queue == [])
    && (!s.handles ==> forall id :: id in s.callers ==> s.callers[id].Abandoned? || s.callers[id].Finished?)
  }

  ghost predicate Inv(s: Client, limit: nat) {
    && Tables(s)
    && Modes(s, limit)
    && forall id :: id in s.callers ==> CallOk(s, id)
  }

  lemma {:induction false} InitialInv(limit: nat)
    ensures Inv(Initial(), limit)
  {
  }

  /** The step left everything about this call as it was. */
  ghost predicate Untouched(s: Client, s': Client, id: Id) {
    && id in s.callers && id in s.slots && id in s.bodies
    && id in s'.callers && id in s'.slots && id in s'.bodies
    && s'.callers[id] == s.callers[id] && s'.slots[id] == s.slots[id] && s'.bodies[id] == s.bodies[id]
    && (id in s'.queue <==> id in s.queue)
    && (id in s'.cancellations <==> id in s.cancellations)
    && (id in s'.inFlight <==> id in s.inFlight)
    && (s'.at == Checked(id) <==> s.at == Checked(id))
    && FramesOf(s'.log, id) == FramesOf(s.log, id)
  }

  lemma {:induction false} UntouchedStaysOk(s: Client, s': Client, id: Id)
    requires Untouched(s, s', id) && CallOk(s, id)
    ensures CallOk(s', id)
  {
    hide FramesOf, WellOrdered;
  }

  /** A step that touches one call keeps every call's part if it keeps that call's. */
  lemma {:induction false} OthersStayOk(s: Client, s': Client, id: Id)
    requires Tables(s) && Tables(s') && s'.callers.Keys == s.callers.Keys + {id}
    requires forall j :: j in s.callers ==> CallOk(s, j)
    requires forall j :: j in s.callers && j != id ==> Untouched(s, s', j)
    requires CallOk(s', id)
    ensures forall j :: j in s'.callers ==> CallOk(s', j)
  {
    hide FramesOf, WellOrdered;
    forall j | j in s'.callers ensures CallOk(s', j) {
      if j != id { UntouchedStaysOk(s, s', j); }
    }
  }

  /** The call a step is about; none for the steps that touch no call or all of them. */
  function Subject(s: Client, step: Step): Id {
    match step
    case Begin(_) => s.nextId
    case Enqueue(id) => id
    case Refuse(id) => id
    case Drop(id) => id
    case SendCancellation(id) => id
    case TakeAnswer(id) => id
    case Admit(_) => if s.at.Checked? then s.at.id else 0
    case PullCancellation => if s.cancellations != [] then s.cancellations[0] else 0
    case Receive(response) => response.id
    case Expire(id) => id
    case PullRequest => if s.queue != [] then s.queue[0] else 0
    case DrainQueue => if s.queue != [] then s.queue[0] else 0
    case _ => 0
  }

  lemma {:induction false} LogGrows(log: seq<ToServer>, frame: ToServer)
    ensures forall j :: FramesOf(log + [frame], j) == FramesOf(log, j) + if frame.id == j then [frame] else []
  {
    forall j ensures FramesOf(log + [frame], j) == FramesOf(log, j) + if frame.id == j then [frame] else [] {
      FramesOfAppend(log, frame, j);
    }
  }

  lemma {:induction false} BeginKeepsCall(s: Client, limit: nat, step: Step)
    requires Tables(s) && Modes(s, limit) && Enabled(s, limit, step) && step.Begin?
    ensures CallOk(Apply(s, limit, step), s.nextId)
  {
    hide FramesOf;
  }

  lemma {:induction false} CallerKeepsCall(s: Client, limit: nat, step: Step)
    requires Tables(s) && Modes(s, limit) && Enabled(s, limit, step)
    requires step.Enqueue? || step.Refuse? || step.Drop? || step.SendCancellation? || step.TakeAnswer?
    requires CallOk(s, step.id)
    ensures CallOk(Apply(s, limit, step), step.id)
  {
    hide FramesOf, WellOrdered;
  }

  lemma {:induction false} QueueKeepsCall(s: Client, limit: nat, step: Step)
    requires Tables(s) && Modes(s, limit) && Enabled(s, limit, step)
    requires step.PullRequest? || step.DrainQueue?
    requires CallOk(s, s.queue[0])
    ensures CallOk(Apply(s, limit, step), s.queue[0])
  {
    hide FramesOf, WellOrdered;
  }

  lemma {:induction false} AdmitKeepsCall(s: Client, limit: nat, timeoutMicros: nat)
    requires Tables(s) && Modes(s, limit) && Enabled(s, limit, Admit(timeoutMicros))
    requires CallOk(s, s.at.id)
    ensures CallOk(Apply(s, limit, Admit(timeoutMicros)), s.at.id)
  {
    hide FramesOf;
    LogGrows(s.log, Request(s.at.id, timeoutMicros, s.bodies[s.at.id]));
  }

  lemma {:induction false} CancellationKeepsCall(s: Client, limit: nat)
    requires Tables(s) && Modes(s, limit) && Enabled(s, limit, PullCancellation)
    requires CallOk(s, s.cancellations[0])
    ensures CallOk(Apply(s, limit, PullCancellation), s.cancellations[0])
  {
    hide FramesOf;
    LogGrows(s.log, Cancel(s.cancellations[0]));
  }

  lemma {:induction false} AnswerKeepsCall(s: Client, limit: nat, step: Step)
    requires Tables(s) && Modes(s, limit) && Enabled(s, limit, step) && (step.Receive? || step.Expire?)
    requires Subject(s, step) in s.inFlight && CallOk(s, Subject(s, step))
    ensures CallOk(Apply(s, limit, step), Subject(s, step))
  {
    hide FramesOf;
    LogGrows(s.log, Cancel(Subject(s, step)));
  }

  /** Steps that concern one call. */
  predicate Single(s: Client, step: Step) {
    match step
    case DropHandles => false
    case NoMoreCalls => false
    case Handed => false
    case Fail => false
    case CloseQueue => false
    case Leave => false
    case Receive(response) => response.id in s.inFlight
    case Expire(id) => id in s.inFlight
    case _ => true
  }

  lemma {:induction false} SingleKeepsCall(s: Client, limit: nat, step: Step)
    requires Inv(s, limit) && Enabled(s, limit, step) && Single(s, step)
    ensures Tables(Apply(s, limit, step)) ==> CallOk(Apply(s, limit, step), Subject(s, step))
  {
    hide CallOk;
    if step.Begin? { BeginKeepsCall(s, limit, step); }
    else if step.PullRequest? || step.DrainQueue? { QueueKeepsCall(s, limit, step); }
    else if step.Admit? { AdmitKeepsCall(s, limit, step.timeoutMicros); }
    else if step.PullCancellation? { CancellationKeepsCall(s, limit); }
    else if step.Receive? || step.Expire? { AnswerKeepsCall(s, limit, step); }
    else { CallerKeepsCall(s, limit, step); }
  }

  lemma {:induction false} CallerKeepsTables(s: Client, limit: nat, step: Step)
    requires Tables(s) && Modes(s, limit) && Enabled(s, limit, step)
    requires step.Begin? || step.Enqueue? || step.Refuse? || step.Drop? || step.SendCancellation? || step.TakeAnswer?
    requires step.Enqueue? ==> step.id !in s.queue
    ensures Tables(Apply(s, limit, step))
    ensures Single(s, step) ==> Apply(s, limit, step).callers.Keys == s.callers.Keys + {Subject(s, step)}
  {
    hide NoRepeats, FramesOf;
    if step.Enqueue? { NoRepeatsAppend(s.queue, step.id); }
  }

  lemma {:induction false} QueueKeepsTables(s: Client, limit: nat, step: Step)
    requires Tables(s) && Modes(s, limit) && Enabled(s, limit, step)
    requires step.PullRequest? || step.DrainQueue?
    ensures Tables(Apply(s, limit, step))
    ensures Single(s, step) ==> Apply(s, limit, step).callers.Keys == s.callers.Keys + {Subject(s, step)}
  {
    hide FramesOf;
  }

  lemma {:induction false} AdmitKeepsTables(s: Client, limit: nat, timeoutMicros: nat)
    requires Tables(s) && Modes(s, limit) && Enabled(s, limit, Admit(timeoutMicros))
    ensures Tables(Apply(s, limit, Admit(timeoutMicros)))
    ensures Apply(s, limit, Admit(timeoutMicros)).callers.Keys == s.callers.Keys + {s.at.id}
  {
    hide NoRepeats, FramesOf;
    LogGrows(s.log, Request(s.at.id, timeoutMicros, s.bodies[s.at.id]));
  }

  lemma {:induction false} CancellationKeepsTables(s: Client, limit: nat)
    requires Tables(s) && Modes(s, limit) && Enabled(s, limit, PullCancellation)
    ensures Tables(Apply(s, limit, PullCancellation))
    ensures Apply(s, limit, PullCancellation).callers.Keys == s.callers.Keys + {s.cancellations[0]}
  {
    hide NoRepeats, FramesOf;
    LogGrows(s.log, Cancel(s.cancellations[0]));
  }

  lemma {:induction false} AnswerKeepsTables(s: Client, limit: nat, step: Step)
    requires Tables(s) && Modes(s, limit) && Enabled(s, limit, step)
    requires step.Receive? || step.Expire?
    ensures Tables(Apply(s, limit, step))
    ensures Single(s, step) ==> Apply(s, limit, step).callers.Keys == s.callers.Keys + {Subject(s, step)}
  {
    hide NoRepeats, FramesOf;
    if step.Expire? { LogGrows(s.log, Cancel(step.id)); }
  }

  lemma {:induction false} BroadKeepsTables(s: Client, limit: nat, step: Step)
    requires Tables(s) && Modes(s, limit) && Enabled(s, limit, step)
    requires step.DropHandles? || step.NoMoreCalls? || step.Handed? || step.Fail? || step.CloseQueue? || step.Leave?
    ensures Tables(Apply(s, limit, step))
    ensures Single(s, step) ==> Apply(s, limit, step).callers.Keys == s.callers.Keys + {Subject(s, step)}
  {
    hide NoRepeats, FramesOf;
  }

  lemma {:induction false} StepKeepsTables(s: Client, limit: nat, step: Step)
    requires Tables(s) && Modes(s, limit) && Enabled(s, limit, step)
    requires step.Enqueue? ==> step.id !in s.queue
    ensures Tables(Apply(s, limit, step))
    ensures Single(s, step) ==> Apply(s, limit, step).callers.Keys == s.callers.Keys + {Subject(s, step)}
  {
    hide Tables, Modes;
    if step.Begin? || step.Enqueue? || step.Refuse? || step.Drop? || step.SendCancellation? || step.TakeAnswer? { CallerKeepsTables(s, limit, step); }
    else if step.PullRequest? || step.DrainQueue? { QueueKeepsTables(s, limit, step); }
    else if step.Admit? { AdmitKeepsTables(s, limit, step.timeoutMicros); }
    else if step.PullCancellation? { CancellationKeepsTables(s, limit); }
    else if step.Receive? || step.Expire? { AnswerKeepsTables(s, limit, step); }
    else { BroadKeepsTables(s, limit, step); }
  }

  lemma {:induction false} ForgetKeepsBound(a: set<Id>, b: set<Id>, id: Id)
    requires a == b
    ensures a - {id} == b - {id} && |a - {id}| <= |a|
    ensures id !in a ==> a - {id} == a
  {
    if id in a { assert a == (a - {id}) + {id}; } else { assert a == a - {id}; }
  }

  lemma {:induction false} AdmitKeepsBound(s: Client, limit: nat, timeoutMicros: nat)
    requires Bounded(s, limit) && Enabled(s, limit, Admit(timeoutMicros))
    ensures Bounded(Apply(s, limit, Admit(timeoutMicros)), limit)
  {
    assert |s.inFlight + {s.at.id}| <= |s.inFlight| + 1;
  }

  lemma {:induction false} AnswerKeepsBound(s: Client, limit: nat, step: Step)
    requires Bounded(s, limit) && Enabled(s, limit, step)
    requires step.PullCancellation? || step.Receive? || step.Expire?
    ensures Bounded(Apply(s, limit, step), limit)
  {
    ForgetKeepsBound(s.inFlight, s.deadlines, Subject(s, step));
  }

  lemma {:induction false} StepKeepsBound(s: Client, limit: nat, step: Step)
    requires Bounded(s, limit) && Enabled(s, limit, step)
    ensures Bounded(Apply(s, limit, step), limit)
  {
    if step.Admit? { AdmitKeepsBound(s, limit, step.timeoutMicros); }
    else if step.PullCancellation? || step.Receive? || step.Expire? { AnswerKeepsBound(s, limit, step); }
  }

  lemma {:induction false} StepKeepsModes(s: Client, limit: nat, step: Step)
    requires Modes(s, limit) && Enabled(s, limit, step)
    ensures Modes(Apply(s, limit, step), limit)
  {
    hide Bounded, Closes, Retires, Apply, Enabled;
    StepKeepsBound(s, limit, step);
    StepKeepsCloses(s, limit, step);
    StepKeepsRetires(s, limit, step);
  }

  /** The callers' steps, and those of the dispatcher that only change where it stands. */
  predicate Quiet(step: Step) {
    step.Begin? || step.Enqueue? || step.Refuse? || step.Drop? || step.SendCancellation? || step.TakeAnswer?
    || step.DropHandles? || step.NoMoreCalls? || step.Handed? || step.CloseQueue? || step.Leave?
  }

  lemma {:induction false} QuietKeepsCloses(s: Client, limit: nat, step: Step)
    requires Closes(s) && Retires(s) && Enabled(s, limit, step) && Quiet(step)
    ensures Closes(Apply(s, limit, step))
  {
  }

  lemma {:induction false} StepKeepsCloses(s: Client, limit: nat, step: Step)
    requires Closes(s) && Retires(s) && Enabled(s, limit, step)
    ensures Closes(Apply(s, limit, step))
  {
    if Quiet(step) {
      hide Apply, Enabled, Closes, Retires;
      QuietKeepsCloses(s, limit, step);
    } else {
      hide Retires, SetAll, ReceiverClosed;
    }
  }

  lemma {:induction false} QuietKeepsRetires(s: Client, limit: nat, step: Step)
    requires Retires(s) && Enabled(s, limit, step) && Quiet(step)
    ensures Retires(Apply(s, limit, step))
  {
  }

  lemma {:induction false} StepKeepsRetires(s: Client, limit: nat, step: Step)
    requires Retires(s) && Enabled(s, limit, step)
    ensures Retires(Apply(s, limit, step))
  {
    if Quiet(step) {
      hide Apply, Enabled, Retires;
      QuietKeepsRetires(s, limit, step);
    } else {
      if s.queue != [] { PulledLeavesCallers(s); }
      if s.cancellations != [] { CancellationLeavesCallers(s); }
      if step.Admit? { AdmittedLeavesCallers(s, step.timeoutMicros); }
      if step.Receive? { AnsweredLeavesCallers(s, step.response); }
      if step.Expire? { ExpiredLeavesCallers(s, step.id); }
      hide Pulled, CancellationTaken, Admitted, Answered, Expired, SetAll;
    }
  }

  ghost predicate SameCallers(s: Client, s': Client) {
    s'.callers == s.callers && s'.handles == s.handles && s'.accepting == s.accepting && (s.queue == [] ==> s'.queue == [])
  }

  lemma {:induction false} PulledLeavesCallers(s: Client)
    requires s.queue != []
    ensures SameCallers(s, Pulled(s))
  {
    hide ReceiverClosed;
  }

  lemma {:induction false} CancellationLeavesCallers(s: Client)
    requires s.cancellations != []
    ensures SameCallers(s, CancellationTaken(s))
  {
  }

  lemma {:induction false} AdmittedLeavesCallers(s: Client, timeoutMicros: nat)
    requires s.at.Checked? && s.at.id in s.bodies
    ensures SameCallers(s, Admitted(s, timeoutMicros))
  {
  }

  lemma {:induction false} AnsweredLeavesCallers(s: Client, response: ToClient)
    ensures SameCallers(s, Answered(s, response))
  {
  }

  lemma {:induction false} ExpiredLeavesCallers(s: Client, id: Id)
    ensures SameCallers(s, Expired(s, id))
  {
  }

  lemma {:induction false} SubmittingIsNotQueued(s: Client, id: Id)
    requires Tables(s) && Is(s, id, Submitting) && CallOk(s, id)
    ensures id !in s.queue
  {
    hide FramesOf, WellOrdered;
  }

  lemma {:induction false} CallerLeavesOthers(s: Client, limit: nat, step: Step, j: Id)
    requires Tables(s) && Modes(s, limit) && Enabled(s, limit, step)
    requires step.Begin? || step.Enqueue? || step.Refuse? || step.Drop? || step.SendCancellation? || step.TakeAnswer?
    requires Single(s, step) && j in s.callers && j != Subject(s, step)
    ensures Untouched(s, Apply(s, limit, step), j)
  {
    hide FramesOf, NoRepeats;
  }

  lemma {:induction false} QueueLeavesOthers(s: Client, limit: nat, step: Step, j: Id)
    requires Tables(s) && Modes(s, limit) && Enabled(s, limit, step)
    requires step.PullRequest? || step.DrainQueue?
    requires Single(s, step) && j in s.callers && j != Subject(s, step)
    ensures Untouched(s, Apply(s, limit, step), j)
  {
    hide FramesOf, NoRepeats;
    assert j in s.queue <==> j in s.queue[1..];
  }

  lemma {:induction false} AdmitLeavesOthers(s: Client, limit: nat, timeoutMicros: nat, j: Id)
    requires Tables(s) && Enabled(s, limit, Admit(timeoutMicros)) && j in s.callers && j != s.at.id
    ensures Untouched(s, Apply(s, limit, Admit(timeoutMicros)), j)
  {
    hide FramesOf, NoRepeats;
    FramesOfAppend(s.log, Request(s.at.id, timeoutMicros, s.bodies[s.at.id]), j);
  }

  lemma {:induction false} CancellationLeavesOthers(s: Client, limit: nat, j: Id)
    requires Tables(s) && Enabled(s, limit, PullCancellation) && j in s.callers && j != s.cancellations[0]
    ensures Untouched(s, Apply(s, limit, PullCancellation), j)
  {
    hide FramesOf, NoRepeats;
    assert j in s.cancellations <==> j in s.cancellations[1..];
    FramesOfAppend(s.log, Cancel(s.cancellations[0]), j);
  }

  lemma {:induction false} AnswerLeavesOthers(s: Client, limit: nat, step: Step, j: Id)
    requires Tables(s) && Modes(s, limit) && Enabled(s, limit, step)
    requires step.Receive? || step.Expire?
    requires Single(s, step) && j in s.callers && j != Subject(s, step)
    ensures Untouched(s, Apply(s, limit, step), j)
  {
    hide FramesOf, NoRepeats;
    if step.Expire? { FramesOfAppend(s.log, Cancel(step.id), j); }
  }

  lemma {:induction false} SingleLeavesOthers(s: Client, limit: nat, step: Step, j: Id)
    requires Tables(s) && Modes(s, limit) && Enabled(s, limit, step) && Single(s, step)
    requires j in s.callers && j != Subject(s, step)
    ensures Untouched(s, Apply(s, limit, step), j)
  {
    hide Tables, Modes, Untouched;
    if step.Begin? || step.Enqueue? || step.Refuse? || step.Drop? || step.SendCancellation? || step.TakeAnswer? { CallerLeavesOthers(s, limit, step, j); }
    else if step.PullRequest? || step.DrainQueue? { QueueLeavesOthers(s, limit, step, j); }
    else if step.Admit? { AdmitLeavesOthers(s, limit, step.timeoutMicros, j); }
    else if step.PullCancellation? { CancellationLeavesOthers(s, limit, j); }
    else { AnswerLeavesOthers(s, limit, step, j); }
  }

  lemma {:induction false} BroadKeepsCalls(s: Client, limit: nat, step: Step, j: Id)
    requires Inv(s, limit) && Enabled(s, limit, step) && !Single(s, step) && j in s.callers
    requires Tables(Apply(s, limit, step))
    ensures CallOk(Apply(s, limit, step), j)
  {
    hide FramesOf, WellOrdered, NoRepeats;
    assert CallOk(s, j);
  }

  /** Every step of every participant keeps the invariant. */
  lemma {:induction false} StepKeepsInv(s: Client, limit: nat, step: Step)
    requires Inv(s, limit) && Enabled(s, limit, step)
    ensures Inv(Apply(s, limit, step), limit)
  {
    hide CallOk, Untouched;
    var s' := Apply(s, limit, step);
    if step.Enqueue? { SubmittingIsNotQueued(s, step.id); }
    StepKeepsTables(s, limit, step);
    StepKeepsModes(s, limit, step);
    if Single(s, step) {
      SingleKeepsCall(s, limit, step);
      forall j | j in s.callers && j != Subject(s, step) ensures Untouched(s, s', j) {
        SingleLeavesOthers(s, limit, step, j);
      }
      OthersStayOk(s, s', Subject(s, step));
    } else {
      forall j | j in s'.callers ensures CallOk(s', j) {
        BroadKeepsCalls(s, limit, step, j);
      }
    }
  }

  // ----- Every run -----

  /** The state after a run, if each of its steps was enabled when taken. */
  ghost function Run(limit: nat, steps: seq<Step>): Option<Client> {
    if steps == [] then Some(Initial())
    else
      var last := steps[|steps| - 1];
      match Run(limit, steps[..|steps| - 1])
      case None => None
      case Some(s) => if Enabled(s, limit, last) then Some(Apply(s, limit, last)) else None
  }

  lemma {:induction false} RunKeepsInv(limit: nat, steps: seq<Step>)
    requires Run(limit, steps).Some?
    ensures Inv(Run(limit, steps).value, limit)
  {
    hide Inv;
    if steps == [] {
      InitialInv(limit);
    } else {
      RunKeepsInv(limit, steps[..|steps| - 1]);
      StepKeepsInv(Run(limit, steps[..|steps| - 1]).value, limit, steps[|steps| - 1]);
    }
  }

  /**
   The cancellation race: in every reachable state, a tracked call whose
   receiver was abandoned has its cancellation queued or about to be sent. So
   once the queue is empty and no drop is half done, no abandoned call is
   tracked.
   */
  lemma {:induction false} AbandonedCallsAreCancelled(limit: nat, steps: seq<Step>)
    requires Run(limit, steps).Some?
    ensures var s := Run(limit, steps).value;
            && (forall id :: id in s.inFlight && ReceiverClosed(s, id) ==>
                  s.callers[id].Closing? || id in s.cancellations)
            && (s.cancellations == [] && (forall id :: id in s.callers ==> !s.callers[id].Closing?) ==>
                  forall id :: id in s.inFlight ==> !ReceiverClosed(s, id))
  {
    RunKeepsInv(limit, steps);
    var s := Run(limit, steps).value;
    forall id | id in s.inFlight && ReceiverClosed(s, id)
      ensures s.callers[id].Closing? || id in s.cancellations
    {
      hide FramesOf, WellOrdered;
      assert CallOk(s, id);
    }
  }

  /**
   On the wire each id appears as nothing, as its request, or as its request
   followed by one cancel; and the request carries that call's own body.
   */
  lemma {:induction false} FramesAreWellOrdered(limit: nat, steps: seq<Step>, id: Id)
    requires Run(limit, steps).Some? && id in Run(limit, steps).value.bodies
    ensures var s := Run(limit, steps).value;
            WellOrdered(FramesOf(s.log, id), id, s.bodies[id])
  {
    RunKeepsInv(limit, steps);
    assert CallOk(Run(limit, steps).value, id);
  }

  /** The in-flight table and the deadline queue hold the same calls, within the limit. */
  lemma {:induction false} InFlightIsBoundedAndTimed(limit: nat, steps: seq<Step>)
    requires Run(limit, steps).Some?
    ensures var s := Run(limit, steps).value;
            s.inFlight == s.deadlines && |s.inFlight| <= limit
  {
    RunKeepsInv(limit, steps);
  }

  /** A call's channel is filled, or loses its sender, once and for all. */
  lemma {:induction false} AnswersAreFinal(limit: nat, steps: seq<Step>, step: Step, id: Id)
    requires Run(limit, steps).Some? && Enabled(Run(limit, steps).value, limit, step)
    requires id in Run(limit, steps).value.slots && !Run(limit, steps).value.slots[id].Open?
    ensures var s' := Apply(Run(limit, steps).value, limit, step);
            id in s'.slots && s'.slots[id] == Run(limit, steps).value.slots[id]
  {
    hide FramesOf, WellOrdered, NoRepeats, Run;
    RunKeepsInv(limit, steps);
    var s := Run(limit, steps).value;
    if Single(s, step) && Subject(s, step) != id {
      SingleLeavesOthers(s, limit, step, id);
    } else {
      OnlyHeldCallsAreAnswered(s, limit, step, id);
    }
  }

  lemma {:induction false} OnlyHeldCallsAreAnswered(s: Client, limit: nat, step: Step, id: Id)
    requires Inv(s, limit) && Enabled(s, limit, step) && id in s.slots && !s.slots[id].Open?
    requires !Single(s, step) || Subject(s, step) == id
    ensures var s' := Apply(s, limit, step);
            id in s'.slots && s'.slots[id] == s.slots[id]
  {
    hide FramesOf, WellOrdered, NoRepeats;
    assert CallOk(s, id);
  }

  /** What brings an answer about: the response, the deadline, or the loss of the connection. */
  ghost predicate Causes(s: Client, step: Step, id: Id, answer: Answer) {
    match answer
    case Replied(reply) => step == Receive(Response(id, reply)) && id in s.inFlight
    case DeadlineExceeded => (step == Expire(id) && id in s.inFlight) || (step == Admit(0) && s.at == Checked(id))
    case ConnectionFailed => (step.Fail? && id in s.inFlight) || (step.DrainQueue? && s.queue != [] && s.queue[0] == id)
  }

  /** A slot that is filled now was filled the same before. */
  ghost predicate NothingNew(s: Client, s': Client, id: Id) {
    id in s'.slots && s'.slots[id].Filled? ==> id in s.slots && s.slots[id] == s'.slots[id]
  }

  lemma {:induction false} QuietAnswersNothing(s: Client, limit: nat, step: Step, id: Id)
    requires Enabled(s, limit, step) && Quiet(step)
    ensures NothingNew(s, Apply(s, limit, step), id)
  {
    hide Enabled;
  }

  lemma {:induction false} PullingAnswersNothing(s: Client, id: Id)
    ensures s.queue != [] ==> NothingNew(s, Pulled(s), id)
    ensures s.cancellations != [] ==> NothingNew(s, CancellationTaken(s), id)
  {
    hide ReceiverClosed;
  }

  lemma {:induction false} StepAnswers(s: Client, limit: nat, step: Step, id: Id)
    requires Enabled(s, limit, step) && !NothingNew(s, Apply(s, limit, step), id)
    ensures Causes(s, step, id, Apply(s, limit, step).slots[id].answer)
  {
    if Quiet(step) {
      hide Apply, Enabled, NothingNew;
      QuietAnswersNothing(s, limit, step, id);
    } else if step.PullRequest? || step.PullCancellation? {
      hide NothingNew, Pulled, CancellationTaken;
      PullingAnswersNothing(s, id);
    }
  }

  /** The step that answered a call, in every run. */
  lemma {:induction false} AnswerHasACause(limit: nat, steps: seq<Step>, id: Id) returns (i: nat)
    requires Run(limit, steps).Some? && id in Run(limit, steps).value.slots && Run(limit, steps).value.slots[id].Filled?
    ensures i < |steps| && Run(limit, steps[..i]).Some?
    ensures Causes(Run(limit, steps[..i]).value, steps[i], id, Run(limit, steps).value.slots[id].answer)
  {
    assert steps != [];
    var before, last := steps[..|steps| - 1], steps[|steps| - 1];
    var s, s' := Run(limit, before).value, Run(limit, steps).value;
    hide Enabled, Apply, Causes;
    if NothingNew(s, s', id) {
      i := AnswerHasACause(limit, before, id);
      assert steps[..i] == before[..i] && steps[i] == before[i];
    } else {
      i := |steps| - 1;
      StepAnswers(s, limit, last, id);
    }
  }

  /**
   When the dispatcher is gone, for whatever reason, nobody is left waiting:
   every call has its answer or has lost its sender, except calls that never
   entered the queue, and the queue now refuses those.
   */
  lemma {:induction false} EndedAnswersEveryone(limit: nat, steps: seq<Step>, id: Id)
    requires Run(limit, steps).Some? && Run(limit, steps).value.at.Ended?
    requires id in Run(limit, steps).value.slots
    ensures var s := Run(limit, steps).value;
            if Is(s, id, Submitting) then Enabled(s, limit, Refuse(id)) && !Enabled(s, limit, Enqueue(id))
            else !s.slots[id].Open?
  {
    hide FramesOf, WellOrdered;
    RunKeepsInv(limit, steps);
    assert CallOk(Run(limit, steps).value, id);
  }
}
