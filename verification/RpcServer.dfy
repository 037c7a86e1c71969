/**
 The server side of one connection as a step system: the supervisor that admits,
 cancels, reaps and drains, and the handler tasks that run beside it. An abort
 only takes effect when the task next yields, so an aborted handler may still
 send its response.
 */
module RpcServer {
  import opened Bytes
  import opened Collections
  import opened RpcMessages
  import RpcWire

  type TaskNo = nat

  datatype Limits = Limits(maxInFlight: nat, maxTimeoutMicros: nat, maxResponseBytes: nat)

  datatype Stage = Running | Sending(reply: Reply) | Returned | Panicked | Aborted

  datatype Handler = Handler(id: Id, body: Bytes, stage: Stage) {
    predicate Unfinished() { stage.Running? || stage.Sending? }
  }

  /** Serving, sending the status of a refused request, in the grace period, aborting, or gone. */
  datatype Phase = Serving | Refusing(response: ToClient) | Draining | Aborting | Stopped

  datatype Server = Server(
    nextTask: TaskNo,
    handlers: map<TaskNo, Handler>,
    aborts: map<Id, TaskNo>,
    abortRequested: set<TaskNo>,
    phase: Phase,
    log: seq<ToClient>,
    // What has happened, for stating properties.
    requests: map<Id, Bytes>,
    rejected: set<Id>,
    started: map<Id, TaskNo>,
    replies: map<Id, Served>,
    unique: bool)  // no request id has arrived twice

  /** A reply, and the body of the request it was made for. */
  datatype Served = Served(body: Bytes, reply: Reply)

  function Initial(): Server {
    Server(0, map[], map[], {}, Serving, [], map[], {}, map[], map[], true)
  }

  /** What a handler's work comes to, before it is turned into a frame. */
  datatype Result = Encoded(body: Bytes) | EncodeFailed(message: Bytes) | Failed(code: RpcWire.Code, message: Bytes)
                  | TimedOut | BadRequest(message: Bytes)

  function ReplyFor(result: Result, maxResponseBytes: nat): Reply {
    match result
    case Encoded(body) => if |body| <= maxResponseBytes then Body(body)
                          else Failure(RpcWire.Internal, TooLong(|body|, maxResponseBytes))
    case EncodeFailed(message) => Failure(RpcWire.Internal, Words(message))
    case Failed(code, message) => Failure(code, Words(message))
    case TimedOut => Failure(RpcWire.DeadlineExceeded, Standard)
    case BadRequest(message) => Failure(RpcWire.InvalidArgument, Words(message))
  }

  datatype Step =
    // supervisor
    | Receive(frame: ToServer)
    | SendStatus
    | Join(task: TaskNo)
    | Stop
    | GraceOver
    | Leave
    // handlers
    | Produce(task: TaskNo, result: Result)
    | SendReply(task: TaskNo)
    | SendFails(task: TaskNo)
    | Panic(task: TaskNo)
    | AbortTakesEffect(task: TaskNo)

  predicate IsRunning(s: Server, task: TaskNo) { task in s.handlers && s.handlers[task].stage.Running? }

  predicate IsSending(s: Server, task: TaskNo) { task in s.handlers && s.handlers[task].stage.Sending? }

  predicate IsUnfinished(s: Server, task: TaskNo) { task in s.handlers && s.handlers[task].Unfinished() }

  ghost predicate Enabled(s: Server, step: Step) {
    match step
    case Receive(_) => s.phase.Serving?
    case SendStatus => s.phase.Refusing?
    case Join(task) => task in s.handlers && !s.handlers[task].Unfinished() && !s.phase.Refusing? && !s.phase.Stopped?
    case Stop => s.phase.Serving? || s.phase.Refusing?
    case GraceOver => s.phase.Draining?
    case Leave => s.phase.Aborting? && s.handlers == map[]
    case Produce(task, _) => IsRunning(s, task)
    case SendReply(task) => IsSending(s, task)
    case SendFails(task) => IsSending(s, task)
    case Panic(task) => IsRunning(s, task)
    case AbortTakesEffect(task) => IsUnfinished(s, task) && task in s.abortRequested
  }

  /** Why a request is refused, if it is. */
  function Rejection(s: Server, limits: Limits, id: Id, timeoutMicros: nat): Option<RpcWire.Code> {
    if id in s.aborts then Some(RpcWire.AlreadyExists)
    else if timeoutMicros == 0 then Some(RpcWire.DeadlineExceeded)
    else if timeoutMicros > limits.maxTimeoutMicros then Some(RpcWire.InvalidArgument)
    else if |s.aborts| >= limits.maxInFlight then Some(RpcWire.ResourceExhausted)
    else None
  }

  function Noted(s: Server, id: Id, body: Bytes): Server {
    s.(requests := if id in s.requests then s.requests else s.requests[id := body],
       unique := s.unique && id !in s.requests)
  }

  function Refused(s: Server, id: Id, body: Bytes, code: RpcWire.Code): Server {
    s.(phase := Refusing(Response(id, Failure(code, Standard))), rejected := s.rejected + {id},
       replies := s.replies[id := Served(body, Failure(code, Standard))])
  }

  function Spawned(s: Server, id: Id, body: Bytes): Server {
    s.(nextTask := s.nextTask + 1, handlers := s.handlers[s.nextTask := Handler(id, body, Running)],
       aborts := s.aborts[id := s.nextTask], started := s.started[id := s.nextTask])
  }

  function Requested(s: Server, limits: Limits, id: Id, timeoutMicros: nat, body: Bytes): Server {
    match Rejection(s, limits, id, timeoutMicros)
    case Some(code) => Refused(Noted(s, id, body), id, body, code)
    case None => Spawned(Noted(s, id, body), id, body)
  }

  function Cancelled(s: Server, id: Id): Server {
    if id in s.aborts then s.(aborts := s.aborts - {id}, abortRequested := s.abortRequested + {s.aborts[id]}) else s
  }

  function StatusSent(s: Server): Server
    requires s.phase.Refusing?
  {
    s.(log := s.log + [s.phase.response], phase := Serving)
  }

  function Retained(handlers: map<TaskNo, Handler>, aborts: map<Id, TaskNo>): map<Id, TaskNo> {
    map id | id in aborts && aborts[id] in handlers && handlers[aborts[id]].Unfinished() :: aborts[id]
  }

  /** A finished task leaves the join set; while serving, the abort table follows. */
  function Joined(s: Server, task: TaskNo): Server
    requires task in s.handlers
  {
    var s' := s.(handlers := s.handlers - {task});
    if !s.phase.Serving? then s'
    else if s.handlers[task].stage.Returned? then s'.(aborts := s.aborts - {s.handlers[task].id})
    else s'.(aborts := Retained(s'.handlers, s.aborts))
  }

  function Staged(s: Server, task: TaskNo, stage: Stage): Server
    requires task in s.handlers
  {
    s.(handlers := s.handlers[task := s.handlers[task].(stage := stage)])
  }

  function Produced(s: Server, task: TaskNo, reply: Reply): Server
    requires task in s.handlers
  {
    Staged(s, task, Sending(reply)).(replies := s.replies[s.handlers[task].id := Served(s.handlers[task].body, reply)])
  }

  function ReplySent(s: Server, task: TaskNo): Server
    requires IsSending(s, task)
  {
    Staged(s, task, Returned).(log := s.log + [Response(s.handlers[task].id, s.handlers[task].stage.reply)])
  }

  function Apply(s: Server, limits: Limits, step: Step): Server
    requires Enabled(s, step)
  {
    match step
    case Receive(Request(id, timeoutMicros, body)) => Requested(s, limits, id, timeoutMicros, body)
    case Receive(Cancel(id)) => Cancelled(s, id)
    case SendStatus => StatusSent(s)
    case Join(task) => Joined(s, task)
    case Stop => s.(phase := Draining)
    case GraceOver => s.(phase := Aborting, abortRequested := s.abortRequested + s.handlers.Keys)
    case Leave => s.(phase := Stopped)
    case Produce(task, result) => Produced(s, task, ReplyFor(result, limits.maxResponseBytes))
    case SendReply(task) => ReplySent(s, task)
    case SendFails(task) => Staged(s, task, Returned)
    case Panic(task) => Staged(s, task, Panicked)
    case AbortTakesEffect(task) => Staged(s, task, Aborted)
  }

  // ----- Invariant -----

  /** The connection is going down: statuses and responses may be lost. */
  predicate Down(s: Server) { s.phase.Draining? || s.phase.Aborting? || s.phase.Stopped? }

  predicate IsRefusing(s: Server, id: Id) { s.phase.Refusing? && s.phase.response.id == id }

  ghost predicate RejectedOk(s: Server, id: Id)
    requires id in s.requests
  {
    && id !in s.started && id in s.replies && s.replies[id].reply.Failure? && s.replies[id].body == s.requests[id]
    && var sent := ResponsesTo(s.log, id);
    || sent == [Response(id, s.replies[id].reply)]
    || (sent == [] && (s.phase == Refusing(Response(id, s.replies[id].reply)) || Down(s)))
  }

  ghost predicate StartedOk(s: Server, id: Id, task: TaskNo)
    requires id in s.requests
  {
    var sent := ResponsesTo(s.log, id);
    && (task in s.handlers ==> s.handlers[task].id == id && s.handlers[task].body == s.requests[id])
    && (IsRunning(s, task) ==> id !in s.replies && sent == [])
    && (IsSending(s, task) ==> id in s.replies && s.handlers[task].stage.reply == s.replies[id].reply && sent == [])
    && (id in s.replies ==> s.replies[id].body == s.requests[id])
    && (sent == [] || (id in s.replies && sent == [Response(id, s.replies[id].reply)]))
    && (IsUnfinished(s, task) && task !in s.abortRequested && !Down(s) ==> id in s.aborts)
    && (id in s.aborts ==> s.aborts[id] == task && (task in s.handlers || Down(s)))
  }

  ghost predicate IdOk(s: Server, id: Id)
    requires id in s.requests
  {
    && (id in s.rejected || id in s.started)
    && (id in s.rejected ==> RejectedOk(s, id) && id !in s.aborts)
    && (id in s.started ==> StartedOk(s, id, s.started[id]))
    && (IsRefusing(s, id) ==> id in s.rejected && ResponsesTo(s.log, id) == [])
  }

  ghost predicate Tables(s: Server) {
    && s.started.Keys <= s.requests.Keys && s.rejected <= s.requests.Keys
    && s.aborts.Keys <= s.requests.Keys && s.replies.Keys <= s.requests.Keys
    && (forall task :: task in s.handlers ==>
          task < s.nextTask && s.handlers[task].id in s.started && s.started[s.handlers[task].id] == task)
    && (forall id :: id in s.started ==> s.started[id] < s.nextTask)
    && (forall id :: id !in s.requests ==> ResponsesTo(s.log, id) == [])
    && (s.phase.Refusing? ==> s.phase.response.id in s.requests)
    && (forall task :: task in s.abortRequested ==> task < s.nextTask)
  }

  /** Aborting means every task has been told to stop; stopped means none is left. */
  ghost predicate EndOk(s: Server) {
    && (s.phase.Stopped? ==> s.handlers == map[])
    && (s.phase.Aborting? ==> s.handlers.Keys <= s.abortRequested)
  }

  ghost predicate AllOk(s: Server) {
    Tables(s) && forall id :: id in s.requests ==> IdOk(s, id)
  }

  ghost predicate Inv(s: Server, limits: Limits) {
    && |s.aborts| <= limits.maxInFlight
    && EndOk(s)
    && (s.unique ==> AllOk(s))
  }

  lemma {:induction false} InitialInv(limits: Limits)
    ensures Inv(Initial(), limits)
  {
  }

  /** The step left everything about this id as it was. */
  ghost predicate Untouched(s: Server, s': Server, id: Id) {
    && id in s.requests && id in s'.requests && s'.requests[id] == s.requests[id]
    && (id in s'.rejected <==> id in s.rejected)
    && SameEntry(s.replies, s'.replies, id)
    && SameEntry(s.aborts, s'.aborts, id)
    && SameEntry(s.started, s'.started, id)
    && (id in s.started ==> SameTask(s, s', s.started[id]))
    && ResponsesTo(s'.log, id) == ResponsesTo(s.log, id)
    && Down(s') == Down(s)
    && IsRefusing(s', id) == IsRefusing(s, id)
    && (IsRefusing(s, id) ==> s'.phase == s.phase)
  }

  ghost predicate SameTask(s: Server, s': Server, task: TaskNo) {
    && (task in s.handlers <==> task in s'.handlers)
    && (task in s.handlers ==> s.handlers[task] == s'.handlers[task])
    && (task in s.abortRequested <==> task in s'.abortRequested)
  }

  lemma {:induction false} UntouchedStaysOk(s: Server, s': Server, id: Id)
    requires Untouched(s, s', id) && IdOk(s, id)
    ensures IdOk(s', id)
  {
    hide ResponsesTo;
  }

  lemma {:induction false} OthersStayOk(s: Server, s': Server, id: Id)
    requires AllOk(s) && Tables(s') && s'.requests.Keys == s.requests.Keys + {id}
    requires IdOk(s', id)
    requires forall j :: j in s.requests && j != id ==> Untouched(s, s', j)
    ensures AllOk(s')
  {
    hide IdOk;
    forall j | j in s'.requests ensures IdOk(s', j) {
      if j != id { UntouchedStaysOk(s, s', j); }
    }
  }

  lemma {:induction false} LogGrows(log: seq<ToClient>, last: ToClient)
    ensures forall j :: ResponsesTo(log + [last], j) == ResponsesTo(log, j) + if last.id == j then [last] else []
  {
    forall j ensures ResponsesTo(log + [last], j) == ResponsesTo(log, j) + if last.id == j then [last] else [] {
      ResponsesToAppend(log, last, j);
    }
  }

  // A new request.

  lemma {:induction false} RefusedKeepsTables(s: Server, id: Id, code: RpcWire.Code, body: Bytes)
    requires Tables(s) && id !in s.requests
    ensures Tables(Refused(Noted(s, id, body), id, body, code))
  {
    hide ResponsesTo;
  }

  lemma {:induction false} SpawnedKeepsTables(s: Server, id: Id, body: Bytes)
    requires Tables(s) && id !in s.requests
    ensures Tables(Spawned(Noted(s, id, body), id, body))
  {
    hide ResponsesTo;
  }

  lemma {:induction false} RequestKeepsId(s: Server, limits: Limits, id: Id, timeoutMicros: nat, body: Bytes)
    requires Tables(s) && s.phase.Serving? && id !in s.requests
    ensures IdOk(Requested(s, limits, id, timeoutMicros, body), id)
  {
    hide ResponsesTo, Rejection;
  }

  lemma {:induction false} RefusedLeavesOthers(s: Server, id: Id, code: RpcWire.Code, body: Bytes, j: Id)
    requires s.phase.Serving? && id !in s.requests && j in s.requests
    ensures Untouched(s, Refused(Noted(s, id, body), id, body, code), j)
  {
    hide ResponsesTo;
  }

  lemma {:induction false} SpawnedLeavesOthers(s: Server, id: Id, body: Bytes, j: Id)
    requires Tables(s) && s.phase.Serving? && id !in s.requests && j in s.requests
    ensures Untouched(s, Spawned(Noted(s, id, body), id, body), j)
  {
    hide ResponsesTo;
  }

  lemma {:induction false} RequestKeeps(s: Server, limits: Limits, id: Id, timeoutMicros: nat, body: Bytes)
    requires AllOk(s) && s.phase.Serving? && id !in s.requests
    ensures AllOk(Requested(s, limits, id, timeoutMicros, body))
  {
    hide Tables, IdOk, Untouched, Rejection;
    var s' := Requested(s, limits, id, timeoutMicros, body);
    RequestKeepsId(s, limits, id, timeoutMicros, body);
    var rejection := Rejection(s, limits, id, timeoutMicros);
    if rejection.Some? { RefusedKeepsTables(s, id, rejection.value, body); } else { SpawnedKeepsTables(s, id, body); }
    forall j | j in s.requests && j != id ensures Untouched(s, s', j) {
      if rejection.Some? { RefusedLeavesOthers(s, id, rejection.value, body, j); }
      else { SpawnedLeavesOthers(s, id, body, j); }
    }
    OthersStayOk(s, s', id);
  }

  // A cancellation.

  lemma {:induction false} CancelLeavesOthers(s: Server, id: Id, j: Id)
    requires Tables(s) && s.phase.Serving? && id in s.aborts && j in s.requests && j != id && IdOk(s, id) && IdOk(s, j)
    ensures Untouched(s, Cancelled(s, id), j)
  {
    hide ResponsesTo;
  }

  lemma {:induction false} CancelKeepsId(s: Server, id: Id)
    requires Tables(s) && id in s.aborts && IdOk(s, id)
    ensures Tables(Cancelled(s, id)) && IdOk(Cancelled(s, id), id)
  {
    hide ResponsesTo;
  }

  lemma {:induction false} CancelKeeps(s: Server, id: Id)
    requires AllOk(s) && s.phase.Serving?
    ensures AllOk(Cancelled(s, id))
  {
    if id in s.aborts {
      assert id in s.requests;
      hide Tables, IdOk, Untouched;
      CancelKeepsId(s, id);
      forall j | j in s.requests && j != id ensures Untouched(s, Cancelled(s, id), j) {
        CancelLeavesOthers(s, id, j);
      }
      OthersStayOk(s, Cancelled(s, id), id);
    }
  }

  // The status of a refused request.

  lemma {:induction false} StatusKeeps(s: Server)
    requires AllOk(s) && s.phase.Refusing?
    ensures AllOk(StatusSent(s))
  {
    hide ResponsesTo;
    var s', id := StatusSent(s), s.phase.response.id;
    LogGrows(s.log, s.phase.response);
    assert IdOk(s, id);
    forall j | j in s.requests && j != id ensures Untouched(s, s', j) {
      assert IdOk(s, j);
    }
    assert s'.requests.Keys == s.requests.Keys + {id};
    OthersStayOk(s, s', id);
  }

  // Handlers.

  lemma {:induction false} StagedLeavesOthers(s: Server, task: TaskNo, stage: Stage, j: Id)
    requires Tables(s) && task in s.handlers && j in s.requests && j != s.handlers[task].id && IdOk(s, j)
    ensures Untouched(s, Staged(s, task, stage), j)
  {
    hide ResponsesTo;
  }

  lemma {:induction false} StagedKeeps(s: Server, task: TaskNo, stage: Stage)
    requires AllOk(s) && IsUnfinished(s, task) && (stage.Returned? || stage.Panicked? || stage.Aborted?)
    ensures AllOk(Staged(s, task, stage))
  {
    hide ResponsesTo;
    var s', id := Staged(s, task, stage), s.handlers[task].id;
    assert IdOk(s, id) && Tables(s') && IdOk(s', id);
    hide Tables, IdOk, Untouched;
    forall j | j in s.requests && j != id ensures Untouched(s, s', j) {
      StagedLeavesOthers(s, task, stage, j);
    }
    OthersStayOk(s, s', id);
  }

  lemma {:induction false} ProducedKeeps(s: Server, task: TaskNo, reply: Reply)
    requires AllOk(s) && IsRunning(s, task)
    ensures AllOk(Produced(s, task, reply))
  {
    hide ResponsesTo;
    var s', id := Produced(s, task, reply), s.handlers[task].id;
    assert IdOk(s, id) && Tables(s') && IdOk(s', id);
    forall j | j in s.requests && j != id ensures Untouched(s, s', j) {
      StagedLeavesOthers(s, task, Sending(reply), j);
    }
    hide Tables, IdOk, Untouched;
    OthersStayOk(s, s', id);
  }

  lemma {:induction false} ReplySentKeeps(s: Server, task: TaskNo)
    requires AllOk(s) && IsSending(s, task)
    ensures AllOk(ReplySent(s, task))
  {
    hide ResponsesTo;
    var s', id := ReplySent(s, task), s.handlers[task].id;
    LogGrows(s.log, Response(id, s.handlers[task].stage.reply));
    assert IdOk(s, id) && Tables(s') && IdOk(s', id);
    forall j | j in s.requests && j != id ensures Untouched(s, s', j) {
      StagedLeavesOthers(s, task, Returned, j);
    }
    hide Tables, IdOk, Untouched;
    OthersStayOk(s, s', id);
  }

  // Reaping, and the phases.

  lemma {:induction false} JoinedKeepsId(s: Server, task: TaskNo, j: Id)
    requires Tables(s) && task in s.handlers && !s.handlers[task].Unfinished() && !s.phase.Refusing?
    requires j in s.requests && IdOk(s, j) && IdOk(s, s.handlers[task].id)
    ensures IdOk(Joined(s, task), j)
  {
    hide ResponsesTo;
    var s' := Joined(s, task);
    assert s.phase.Serving? && s.handlers[task].stage.Returned? ==> s'.aborts.Keys == s.aborts.Keys - {s.handlers[task].id};
  }

  lemma {:induction false} JoinedKeepsTables(s: Server, task: TaskNo)
    requires Tables(s) && task in s.handlers
    ensures Tables(Joined(s, task))
  {
    hide ResponsesTo;
  }

  lemma {:induction false} JoinedKeeps(s: Server, task: TaskNo)
    requires AllOk(s) && task in s.handlers && !s.handlers[task].Unfinished() && !s.phase.Refusing?
    ensures AllOk(Joined(s, task))
  {
    assert s.handlers[task].id in s.requests;
    hide IdOk, Tables;
    JoinedKeepsTables(s, task);
    forall j | j in s.requests ensures IdOk(Joined(s, task), j) {
      JoinedKeepsId(s, task, j);
    }
  }

  lemma {:induction false} PhaseKeeps(s: Server, phase: Phase, abortRequested: set<TaskNo>)
    requires AllOk(s) && s.abortRequested <= abortRequested <= s.abortRequested + s.handlers.Keys
    requires phase.Draining? || phase.Aborting? || phase.Stopped?
    ensures AllOk(s.(phase := phase, abortRequested := abortRequested))
  {
    hide ResponsesTo;
    var s' := s.(phase := phase, abortRequested := abortRequested);
    forall j | j in s'.requests ensures IdOk(s', j) {
      assert IdOk(s, j);
    }
  }

  lemma {:induction false} StepKeepsAllOk(s: Server, limits: Limits, step: Step)
    requires AllOk(s) && Enabled(s, step) && Apply(s, limits, step).unique
    ensures AllOk(Apply(s, limits, step))
  {
    hide AllOk;
    match step
    case Receive(Request(id, timeoutMicros, body)) => RequestKeeps(s, limits, id, timeoutMicros, body);
    case Receive(Cancel(id)) => CancelKeeps(s, id);
    case SendStatus => StatusKeeps(s);
    case Join(task) => JoinedKeeps(s, task);
    case Stop => PhaseKeeps(s, Draining, s.abortRequested);
    case GraceOver => PhaseKeeps(s, Aborting, s.abortRequested + s.handlers.Keys);
    case Leave => PhaseKeeps(s, Stopped, s.abortRequested);
    case Produce(task, result) => ProducedKeeps(s, task, ReplyFor(result, limits.maxResponseBytes));
    case SendReply(task) => ReplySentKeeps(s, task);
    case SendFails(task) => StagedKeeps(s, task, Returned);
    case Panic(task) => StagedKeeps(s, task, Panicked);
    case AbortTakesEffect(task) => StagedKeeps(s, task, Aborted);
  }

  /** The abort table only grows when a request is admitted, and then below the limit. */
  lemma {:induction false} StepKeepsBound(s: Server, limits: Limits, step: Step)
    requires |s.aborts| <= limits.maxInFlight && Enabled(s, step)
    ensures |Apply(s, limits, step).aborts| <= limits.maxInFlight
  {
    var s' := Apply(s, limits, step);
    if !step.Receive? {
      OnlyRequestsAddEntries(s, limits, step);
      hide Apply, Enabled;
    }
    if s'.aborts.Keys <= s.aborts.Keys {
      SubsetSize(s'.aborts.Keys, s.aborts.Keys);
      assert |s'.aborts| == |s'.aborts.Keys| && |s.aborts| == |s.aborts.Keys|;
    }
  }

  lemma {:induction false} OnlyRequestsAddEntries(s: Server, limits: Limits, step: Step)
    requires Enabled(s, step) && !step.Receive?
    ensures Apply(s, limits, step).aborts.Keys <= s.aborts.Keys
  {
    hide ReplyFor;
  }

  lemma {:induction false} StepKeepsEnd(s: Server, limits: Limits, step: Step)
    requires EndOk(s) && Enabled(s, step)
    ensures EndOk(Apply(s, limits, step))
  {
  }

  lemma {:induction false} OnceReusedAlwaysReused(s: Server, limits: Limits, step: Step)
    requires Enabled(s, step) && Apply(s, limits, step).unique
    ensures s.unique
  {
  }

  /** Every step of the supervisor and of every handler keeps the invariant. */
  lemma {:induction false} StepKeepsInv(s: Server, limits: Limits, step: Step)
    requires Inv(s, limits) && Enabled(s, step)
    ensures Inv(Apply(s, limits, step), limits)
  {
    hide AllOk, EndOk, Enabled, Apply;
    StepKeepsBound(s, limits, step);
    StepKeepsEnd(s, limits, step);
    if Apply(s, limits, step).unique {
      OnceReusedAlwaysReused(s, limits, step);
      StepKeepsAllOk(s, limits, step);
    }
  }

  // ----- Every run -----

  ghost function Run(limits: Limits, steps: seq<Step>): Option<Server> {
    if steps == [] then Some(Initial())
    else
      var last := steps[|steps| - 1];
      match Run(limits, steps[..|steps| - 1])
      case None => None
      case Some(s) => if Enabled(s, last) then Some(Apply(s, limits, last)) else None
  }

  lemma {:induction false} RunKeepsInv(limits: Limits, steps: seq<Step>)
    requires Run(limits, steps).Some?
    ensures Inv(Run(limits, steps).value, limits)
  {
    hide Inv;
    if steps == [] {
      InitialInv(limits);
    } else {
      RunKeepsInv(limits, steps[..|steps| - 1]);
      StepKeepsInv(Run(limits, steps[..|steps| - 1]).value, limits, steps[|steps| - 1]);
    }
  }

  /** The handlers that still run and that nothing has asked to stop. */
  function Live(s: Server): set<TaskNo> {
    set task | task in s.handlers && s.handlers[task].Unfinished() && task !in s.abortRequested
  }

  /**
   Each id is answered at most once, with the reply that was made for its own
   request; and a request is either refused or given to a handler, never both.
   */
  lemma {:induction false} AtMostOneResponse(limits: Limits, steps: seq<Step>, id: Id)
    requires Run(limits, steps).Some? && Run(limits, steps).value.unique
    ensures var s := Run(limits, steps).value;
            && var sent := ResponsesTo(s.log, id);
            && (sent == [] || (id in s.replies && sent == [Response(id, s.replies[id].reply)]))
            && (id in s.replies ==> id in s.requests && s.replies[id].body == s.requests[id])
            && (id in s.requests ==> (id in s.rejected <==> id !in s.started))
            && (id !in s.requests ==> sent == [])
  {
    hide ResponsesTo;
    RunKeepsInv(limits, steps);
    var s := Run(limits, steps).value;
    if id in s.requests { assert IdOk(s, id); }
  }

  /**
   A refused request starts no handler and gets exactly one status, unless the
   connection goes down first. The status is on its way until it is sent.
   */
  lemma {:induction false} RefusedGetsOneStatus(limits: Limits, steps: seq<Step>, id: Id)
    requires Run(limits, steps).Some? && Run(limits, steps).value.unique
    requires id in Run(limits, steps).value.rejected
    ensures var s := Run(limits, steps).value;
            && var sent := ResponsesTo(s.log, id);
            && id !in s.started && (forall task :: task in s.handlers ==> s.handlers[task].id != id)
            && id in s.replies && s.replies[id].reply.Failure?
            && (s.phase.Serving? ==> sent == [Response(id, s.replies[id].reply)])
            && (s.phase.Refusing? ==>
                  sent == if s.phase.response.id == id then [] else [Response(id, s.replies[id].reply)])
            && (IsRefusing(s, id) ==> s.phase.response == Response(id, s.replies[id].reply))
  {
    hide ResponsesTo;
    RunKeepsInv(limits, steps);
    var s := Run(limits, steps).value;
    assert IdOk(s, id);
  }

  lemma {:induction false} RunAppend(limits: Limits, steps: seq<Step>, step: Step)
    requires Run(limits, steps).Some? && Enabled(Run(limits, steps).value, step)
    ensures Run(limits, steps + [step]) == Some(Apply(Run(limits, steps).value, limits, step))
  {
    assert (steps + [step])[..|steps|] == steps;
  }

  /**
   Why ids must not be reused: a cancelled handler that completes anyway is
   reaped by id, which drops the entry of the newer handler with that id.
   */
  lemma {:induction false} ReusedIdLosesItsEntry() returns (limits: Limits, steps: seq<Step>)
    ensures Run(limits, steps).Some?
    ensures var s := Run(limits, steps).value; !s.unique && !Down(s) && Live(s) == {1} && s.aborts == map[]
  {
    limits := Limits(1, 1, 0);
    steps := ReuseBegins(limits);
    steps := OldTaskReturns(limits, steps);
    hide Run;
    RunAppend(limits, steps, Join(0));
    steps := steps + [Join(0)];
  }

  lemma {:induction false} OldTaskReturns(limits: Limits, before: seq<Step>) returns (steps: seq<Step>)
    requires Run(limits, before).Some? && IsRunning(Run(limits, before).value, 0)
    ensures Run(limits, steps).Some?
    ensures var s, s' := Run(limits, before).value, Run(limits, steps).value;
            && s'.handlers == s.handlers[0 := s.handlers[0].(stage := Returned)]
            && s'.phase == s.phase && s'.unique == s.unique && s'.aborts == s.aborts
            && s'.abortRequested == s.abortRequested
  {
    hide Run;
    RunAppend(limits, before, Produce(0, TimedOut));
    steps := before + [Produce(0, TimedOut)];
    RunAppend(limits, steps, SendFails(0));
    steps := steps + [SendFails(0)];
  }

  /** A request, its cancel, and the same id again before the first task yields. */
  lemma {:induction false} ReuseBegins(limits: Limits) returns (steps: seq<Step>)
    requires limits.maxInFlight > 0 && limits.maxTimeoutMicros > 0
    ensures Run(limits, steps).Some?
    ensures var s := Run(limits, steps).value;
            && s.phase.Serving? && !s.unique && s.abortRequested == {0} && s.aborts == map[7 := 1]
            && s.handlers == map[0 := Handler(7, [], Running), 1 := Handler(7, [], Running)]
  {
    var request := Receive(Request(7, 1, []));
    steps := [];
    assert Run(limits, steps) == Some(Initial());
    hide Run;
    RunAppend(limits, steps, request);
    steps := steps + [request];
    RunAppend(limits, steps, Receive(Cancel(7)));
    steps := steps + [Receive(Cancel(7))];
    assert Run(limits, steps).value.aborts == map[];
    RunAppend(limits, steps, request);
    steps := steps + [request];
  }

  // ----- Draining ends -----

  function Unfinished(s: Server): set<TaskNo> { set task | task in s.handlers && s.handlers[task].Unfinished() }

  function RunningTasks(s: Server): set<TaskNo> { set task | task in s.handlers && s.handlers[task].stage.Running? }

  /** The steps that are left once aborting has begun, at most. */
  function Work(s: Server): nat {
    |s.handlers.Keys| + |Unfinished(s)| + |RunningTasks(s)| + if s.phase.Aborting? then 1 else 0
  }

  lemma {:induction false} AbortingStepShrinksWork(s: Server, limits: Limits, step: Step)
    requires Inv(s, limits) && (s.phase.Aborting? || s.phase.Stopped?) && Enabled(s, step)
    ensures var s' := Apply(s, limits, step);
            (s'.phase.Aborting? || s'.phase.Stopped?) && Work(s') < Work(s)
  {
    hide Tables, IdOk;
    var s' := Apply(s, limits, step);
    SubsetSize(s'.handlers.Keys, s.handlers.Keys);
    SubsetSize(Unfinished(s'), Unfinished(s));
    SubsetSize(RunningTasks(s'), RunningTasks(s));
    if step.Join? { assert step.task in s.handlers.Keys && step.task !in s'.handlers.Keys; }
    else if step.Produce? { assert step.task in RunningTasks(s) && step.task !in RunningTasks(s'); }
    else if !step.Leave? { assert step.task in Unfinished(s) && step.task !in Unfinished(s'); }
  }

  /**
   Once the grace period is over the drain cannot hang: the rest of any run is
   bounded by the tasks there are, and until the supervisor is gone it, or a
   task it waits for, can move.
   */
  lemma {:induction false} DrainEnds(limits: Limits, steps: seq<Step>, more: seq<Step>)
    requires Run(limits, steps).Some? && Run(limits, steps).value.phase.Aborting?
    requires Run(limits, steps + more).Some?
    ensures var s, s' := Run(limits, steps).value, Run(limits, steps + more).value;
            && |more| + Work(s') <= Work(s)
            && ((s'.phase.Stopped? && s'.handlers == map[]) || exists step :: Enabled(s', step))
  {
    hide Work, Inv, Enabled, Apply;
    var s' := Run(limits, steps + more).value;
    if more == [] {
      assert steps + more == steps;
    } else {
      var before, last := more[..|more| - 1], more[|more| - 1];
      assert (steps + more)[..|steps + more| - 1] == steps + before;
      DrainEnds(limits, steps, before);
      RunKeepsInv(limits, steps + before);
      StaysAborting(limits, steps, before);
      AbortingStepShrinksWork(Run(limits, steps + before).value, limits, last);
    }
    StaysAborting(limits, steps, more);
    RunKeepsInv(limits, steps + more);
    if s'.phase.Aborting? { SomeStepIsEnabled(s', limits); } else { NothingLeft(s', limits); }
  }

  lemma {:induction false} StaysAborting(limits: Limits, steps: seq<Step>, more: seq<Step>)
    requires Run(limits, steps).Some? && Run(limits, steps).value.phase.Aborting?
    requires Run(limits, steps + more).Some?
    ensures var s' := Run(limits, steps + more).value; s'.phase.Aborting? || s'.phase.Stopped?
  {
    hide Enabled, Apply;
    if more == [] {
      assert steps + more == steps;
    } else {
      assert (steps + more)[..|steps + more| - 1] == steps + more[..|more| - 1];
      StaysAborting(limits, steps, more[..|more| - 1]);
      StepStaysAborting(Run(limits, steps + more[..|more| - 1]).value, limits, more[|more| - 1]);
    }
  }

  lemma {:induction false} StepStaysAborting(s: Server, limits: Limits, step: Step)
    requires Enabled(s, step) && (s.phase.Aborting? || s.phase.Stopped?)
    ensures var s' := Apply(s, limits, step); s'.phase.Aborting? || s'.phase.Stopped?
  {
  }

  lemma {:induction false} NothingLeft(s: Server, limits: Limits)
    requires Inv(s, limits) && s.phase.Stopped?
    ensures s.handlers == map[]
  {
  }

  lemma {:induction false} SomeStepIsEnabled(s: Server, limits: Limits)
    requires Inv(s, limits) && s.phase.Aborting?
    ensures exists step :: Enabled(s, step)
  {
    hide Tables, IdOk;
    if s.handlers == map[] {
      assert Enabled(s, Leave);
    } else {
      var task :| task in s.handlers;
      assert Enabled(s, if s.handlers[task].Unfinished() then AbortTakesEffect(task) else Join(task));
    }
  }
}
