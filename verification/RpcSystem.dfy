/**
 A whole connection: the client, the server and the two frame channels between
 them. A channel is the sender's log and how much of it the receiver has taken,
 which is what framing delivers (`RpcLink.ServerReadsAPrefix` and
 `RpcLink.ClientReadsAPrefix`). A receiver may lag behind for as long as it likes.
 */
module RpcSystem {
  import opened Bytes
  import opened Collections
  import opened RpcMessages
  import C = RpcClient
  import S = RpcServer
  import RpcWire

  datatype System = System(client: C.Client, server: S.Server, taken: nat, returned: nat)

  datatype Step =
    | ClientSteps(clientStep: C.Step)
    | ServerSteps(serverStep: S.Step)
    | FrameReachesServer
    | FrameReachesClient

  datatype Config = Config(clientLimit: nat, limits: S.Limits)

  function Initial(): System { System(C.Initial(), S.Initial(), 0, 0) }

  /** Frames are received only through the channels. */
  ghost predicate Enabled(s: System, config: Config, step: Step) {
    match step
    case ClientSteps(clientStep) => !clientStep.Receive? && C.Enabled(s.client, config.clientLimit, clientStep)
    case ServerSteps(serverStep) => !serverStep.Receive? && S.Enabled(s.server, serverStep)
    case FrameReachesServer => s.taken < |s.client.log| && S.Enabled(s.server, S.Receive(s.client.log[s.taken]))
    case FrameReachesClient =>
      s.returned < |s.server.log| && C.Enabled(s.client, config.clientLimit, C.Receive(s.server.log[s.returned]))
  }

  ghost function Apply(s: System, config: Config, step: Step): System
    requires Enabled(s, config, step)
  {
    match step
    case ClientSteps(clientStep) => s.(client := C.Apply(s.client, config.clientLimit, clientStep))
    case ServerSteps(serverStep) => s.(server := S.Apply(s.server, config.limits, serverStep))
    case FrameReachesServer =>
      s.(server := S.Apply(s.server, config.limits, S.Receive(s.client.log[s.taken])), taken := s.taken + 1)
    case FrameReachesClient =>
      s.(client := C.Apply(s.client, config.clientLimit, C.Receive(s.server.log[s.returned])),
         returned := s.returned + 1)
  }

  // ----- Invariant -----

  /** The server has seen exactly the calls whose request it has taken, with their bodies. */
  ghost predicate RequestOk(s: System, id: Id)
    requires s.taken <= |s.client.log|
  {
    && (id in s.server.requests <==> FramesOf(s.client.log[..s.taken], id) != [])
    && (id in s.server.requests ==> id in s.client.bodies && s.server.requests[id] == s.client.bodies[id])
  }

  /** A delivered reply is the one response there is for that id. */
  ghost predicate ReplyOk(s: System, id: Id) {
    id in s.client.slots && s.client.slots[id].Filled? && s.client.slots[id].answer.Replied? ==>
      ResponsesTo(s.server.log, id) == [Response(id, s.client.slots[id].answer.reply)]
  }

  ghost predicate Wires(s: System) {
    s.taken <= |s.client.log| && s.returned <= |s.server.log| && s.server.unique
  }

  ghost predicate Inv(s: System, config: Config) {
    && C.Inv(s.client, config.clientLimit) && S.Inv(s.server, config.limits)
    && Wires(s)
    && (forall id :: RequestOk(s, id))
    && (forall id :: ReplyOk(s, id))
  }

  lemma {:induction false} InitialInv(config: Config)
    ensures Inv(Initial(), config)
  {
    C.InitialInv(config.clientLimit);
    S.InitialInv(config.limits);
  }

  // ----- Logs only grow -----

  lemma {:induction false} FramesOfPrefix(log: seq<ToServer>, n: nat, id: Id)
    requires n <= |log|
    ensures FramesOf(log[..n], id) <= FramesOf(log, id)
  {
    if n == |log| {
      assert log[..n] == log;
    } else {
      FramesOfPrefix(log[..|log| - 1], n, id);
      assert log[..|log| - 1][..n] == log[..n];
    }
  }

  lemma {:induction false} ResponsesToPrefix(log: seq<ToClient>, n: nat, id: Id)
    requires n <= |log|
    ensures ResponsesTo(log[..n], id) <= ResponsesTo(log, id)
  {
    if n == |log| {
      assert log[..n] == log;
    } else {
      ResponsesToPrefix(log[..|log| - 1], n, id);
      assert log[..|log| - 1][..n] == log[..n];
    }
  }

  lemma {:induction false} ResponsesToFinds(log: seq<ToClient>, n: nat)
    requires n < |log|
    ensures log[n] in ResponsesTo(log, log[n].id)
  {
    ResponsesToAppend(log[..n], log[n], log[n].id);
    assert log[..n] + [log[n]] == log[..n + 1];
    ResponsesToPrefix(log, n + 1, log[n].id);
    var found := ResponsesTo(log[..n + 1], log[n].id);
    assert found[|found| - 1] == log[n];
    assert ResponsesTo(log, log[n].id)[|found| - 1] == log[n];
  }

  predicate ByCaller(step: C.Step) {
    step.Begin? || step.Enqueue? || step.Refuse? || step.Drop? || step.SendCancellation? || step.TakeAnswer?
    || step.DropHandles?
  }

  lemma {:induction false} CallerGrows(s: C.Client, limit: nat, step: C.Step)
    requires C.Enabled(s, limit, step) && ByCaller(step)
    ensures var s' := C.Apply(s, limit, step);
            s.log == s'.log && s'.bodies == if step.Begin? then s.bodies[s.nextId := step.body] else s.bodies
  {
    hide C.Enabled, C.SetAll;
  }

  ghost predicate NoNewReply(s: C.Client, s': C.Client, id: Id) {
    id in s'.slots && s'.slots[id].Filled? && s'.slots[id].answer.Replied? ==>
      id in s.slots && s.slots[id] == s'.slots[id]
  }

  ghost predicate GrowsWithoutReply(s: C.Client, s': C.Client) {
    s.log <= s'.log && s'.bodies == s.bodies && forall id :: NoNewReply(s, s', id)
  }

  lemma {:induction false} AdmittedGrows(s: C.Client, timeoutMicros: nat)
    requires s.at.Checked? && s.at.id in s.bodies
    ensures GrowsWithoutReply(s, C.Admitted(s, timeoutMicros))
  {
  }

  lemma {:induction false} CancellationGrows(s: C.Client)
    requires s.cancellations != []
    ensures GrowsWithoutReply(s, C.CancellationTaken(s))
  {
  }

  lemma {:induction false} ExpiredGrows(s: C.Client, id: Id)
    ensures GrowsWithoutReply(s, C.Expired(s, id))
  {
  }

  /** The steps that may hand a frame to the writer. */
  predicate Offering(step: C.Step) { step.Admit? || step.PullCancellation? || step.Expire? }

  lemma {:induction false} OfferGrows(s: C.Client, limit: nat, step: C.Step)
    requires C.Enabled(s, limit, step) && Offering(step)
    ensures GrowsWithoutReply(s, C.Apply(s, limit, step))
  {
    hide GrowsWithoutReply, C.Admitted, C.CancellationTaken, C.Expired;
    if step.Admit? { AdmittedGrows(s, step.timeoutMicros); }
    else if step.PullCancellation? { CancellationGrows(s); }
    else { ExpiredGrows(s, step.id); }
  }

  lemma {:induction false} OthersSendNothing(s: C.Client, limit: nat, step: C.Step)
    requires C.Enabled(s, limit, step) && !ByCaller(step) && !Offering(step)
    ensures var s' := C.Apply(s, limit, step); s.log == s'.log && s'.bodies == s.bodies
  {
    hide C.Enabled, C.SetAll, C.Offer, C.ReceiverClosed;
  }

  lemma {:induction false} ClientGrows(s: C.Client, limit: nat, step: C.Step)
    requires C.Tables(s) && C.Enabled(s, limit, step)
    ensures var s' := C.Apply(s, limit, step);
            && s.log <= s'.log
            && (forall id :: id in s.bodies ==> id in s'.bodies && s'.bodies[id] == s.bodies[id])
  {
    hide C.Apply, C.Enabled, FramesOf, NoRepeats;
    if ByCaller(step) { CallerGrows(s, limit, step); }
    else if Offering(step) { OfferGrows(s, limit, step); }
    else { OthersSendNothing(s, limit, step); }
  }

  lemma {:induction false} CallerMakesNoReply(s: C.Client, limit: nat, step: C.Step, id: Id)
    requires C.Enabled(s, limit, step) && ByCaller(step)
    ensures NoNewReply(s, C.Apply(s, limit, step), id)
  {
    hide C.Enabled, C.ReceiverClosed;
  }

  lemma {:induction false} OthersMakeNoReply(s: C.Client, limit: nat, step: C.Step, id: Id)
    requires C.Enabled(s, limit, step) && !ByCaller(step) && !Offering(step) && !step.Receive?
    ensures NoNewReply(s, C.Apply(s, limit, step), id)
  {
    hide C.Enabled, C.ReceiverClosed;
  }

  /** Apart from a received response, what a step writes to a channel is not a reply. */
  lemma {:induction false} OnlyReceiveReplies(s: C.Client, limit: nat, step: C.Step, id: Id)
    requires C.Enabled(s, limit, step) && !step.Receive?
    ensures NoNewReply(s, C.Apply(s, limit, step), id)
  {
    hide C.Enabled, C.Apply, NoNewReply;
    if ByCaller(step) { CallerMakesNoReply(s, limit, step, id); }
    else if Offering(step) { OfferGrows(s, limit, step); }
    else { OthersMakeNoReply(s, limit, step, id); }
  }

  lemma {:induction false} ServerGrows(s: S.Server, limits: S.Limits, step: S.Step)
    requires S.Enabled(s, step)
    ensures s.log <= S.Apply(s, limits, step).log
    ensures !step.Receive? ==> S.Apply(s, limits, step).requests == s.requests && S.Apply(s, limits, step).unique == s.unique
  {
    hide S.Retained, S.Rejection;
    match step
    case Receive(_) => case SendStatus => case Join(_) => case Stop => case GraceOver => case Leave =>
    case Produce(_, _) => case SendReply(_) => case SendFails(_) => case Panic(_) => case AbortTakesEffect(_) =>
  }

  // ----- Each kind of step -----

  lemma {:induction false} RequestStaysOk(s: System, s': System, id: Id)
    requires Wires(s) && RequestOk(s, id)
    requires s.client.log <= s'.client.log && s'.taken == s.taken && s'.server.requests == s.server.requests
    requires forall j :: j in s.client.bodies ==> j in s'.client.bodies && s'.client.bodies[j] == s.client.bodies[j]
    ensures RequestOk(s', id)
  {
    assert s'.client.log[..s.taken] == s.client.log[..s.taken];
  }

  /** One response stays the only one as the log grows. */
  lemma {:induction false} ReplyStaysOk(s: System, s': System, config: Config, id: Id)
    requires ReplyOk(s, id) && S.Inv(s'.server, config.limits) && s'.server.unique
    requires s.server.log <= s'.server.log
    requires NoNewReply(s.client, s'.client, id)
    ensures ReplyOk(s', id)
  {
    ResponsesToPrefix(s'.server.log, |s.server.log|, id);
    assert s'.server.log[..|s.server.log|] == s.server.log;
    AtMostOne(s'.server, config.limits, id);
  }

  lemma {:induction false} AtMostOne(s: S.Server, limits: S.Limits, id: Id)
    requires S.Inv(s, limits) && s.unique
    ensures |ResponsesTo(s.log, id)| <= 1
    ensures ResponsesTo(s.log, id) != [] ==>
              && id in s.requests && id in s.replies && s.replies[id].body == s.requests[id]
              && ResponsesTo(s.log, id) == [Response(id, s.replies[id].reply)]
  {
    hide ResponsesTo;
    if id in s.requests { assert S.IdOk(s, id); }
  }

  lemma {:induction false} ClientStepKeepsInv(s: System, config: Config, step: C.Step)
    requires Inv(s, config) && Enabled(s, config, ClientSteps(step))
    ensures Inv(Apply(s, config, ClientSteps(step)), config)
  {
    hide C.Apply, C.Enabled, S.Inv, RequestOk, ReplyOk;
    var s' := Apply(s, config, ClientSteps(step));
    C.StepKeepsInv(s.client, config.clientLimit, step);
    ClientGrows(s.client, config.clientLimit, step);
    hide C.Inv;
    forall id ensures RequestOk(s', id) && ReplyOk(s', id) {
      assert RequestOk(s, id) && ReplyOk(s, id);
      RequestStaysOk(s, s', id);
      OnlyReceiveReplies(s.client, config.clientLimit, step, id);
      ReplyStaysOk(s, s', config, id);
    }
  }

  lemma {:induction false} ServerStepKeepsInv(s: System, config: Config, step: S.Step)
    requires Inv(s, config) && Enabled(s, config, ServerSteps(step))
    ensures Inv(Apply(s, config, ServerSteps(step)), config)
  {
    hide C.Inv, S.Inv, S.Apply, S.Enabled, RequestOk, ReplyOk;
    var s' := Apply(s, config, ServerSteps(step));
    S.StepKeepsInv(s.server, config.limits, step);
    ServerGrows(s.server, config.limits, step);
    forall id ensures RequestOk(s', id) && ReplyOk(s', id) {
      assert RequestOk(s, id) && ReplyOk(s, id);
      RequestStaysOk(s, s', id);
      ReplyStaysOk(s, s', config, id);
    }
  }

  /** The next frame for an id is its request exactly when none was taken before. */
  lemma {:induction false} NextFrame(s: C.Client, limit: nat, n: nat)
    requires C.Inv(s, limit) && n < |s.log|
    ensures var frame := s.log[n];
            && FramesOf(s.log[..n + 1], frame.id) == FramesOf(s.log[..n], frame.id) + [frame]
            && (frame.Request? <==> FramesOf(s.log[..n], frame.id) == [])
            && (frame.Request? ==> frame.id in s.bodies && frame.body == s.bodies[frame.id])
  {
    hide FramesOf, C.Inv;
    var frame := s.log[n];
    var before, all := FramesOf(s.log[..n], frame.id), FramesOf(s.log, frame.id);
    assert s.log[..n + 1] == s.log[..n] + [frame];
    FramesOfAppend(s.log[..n], frame, frame.id);
    FramesOfPrefix(s.log, n + 1, frame.id);
    assert (before + [frame])[|before|] == frame;
    assert all[|before|] == frame;
    CallFrames(s, limit, frame.id);
  }

  /** The frames of a call: its request, and perhaps one cancel. */
  lemma {:induction false} CallFrames(s: C.Client, limit: nat, id: Id)
    requires C.Inv(s, limit) && FramesOf(s.log, id) != []
    ensures var all := FramesOf(s.log, id);
            && id in s.bodies && all[0].Request? && all[0].body == s.bodies[id]
            && |all| <= 2 && (|all| == 2 ==> all[1].Cancel?)
  {
    hide FramesOf, NoRepeats, C.Modes;
    assert C.CallOk(s, id);
  }

  lemma {:induction false} OtherFrames(log: seq<ToServer>, n: nat, id: Id)
    requires n < |log| && log[n].id != id
    ensures FramesOf(log[..n + 1], id) == FramesOf(log[..n], id)
  {
    assert log[..n + 1] == log[..n] + [log[n]];
    FramesOfAppend(log[..n], log[n], id);
  }

  /** What receiving a frame does to the record of requests. */
  lemma {:induction false} ReceiveNotes(s: S.Server, limits: S.Limits, frame: ToServer)
    requires s.phase.Serving?
    ensures var s' := S.Apply(s, limits, S.Receive(frame));
            && (frame.Cancel? ==> s'.requests == s.requests && s'.unique == s.unique)
            && (frame.Request? && frame.id !in s.requests ==>
                  s'.requests == s.requests[frame.id := frame.body] && s'.unique == s.unique)
  {
  }

  lemma {:induction false} FrameReachesServerKeepsInv(s: System, config: Config)
    requires Inv(s, config) && Enabled(s, config, FrameReachesServer)
    ensures Inv(Apply(s, config, FrameReachesServer), config)
  {
    hide C.Inv, S.Inv, S.Apply, RequestOk, ReplyOk, FramesOf;
    var s' := Apply(s, config, FrameReachesServer);
    var frame := s.client.log[s.taken];
    S.StepKeepsInv(s.server, config.limits, S.Receive(frame));
    ServerGrows(s.server, config.limits, S.Receive(frame));
    ReceiveNotes(s.server, config.limits, frame);
    NextFrame(s.client, config.clientLimit, s.taken);
    NextRequestIsNew(s, config);
    forall id ensures RequestOk(s', id) && ReplyOk(s', id) {
      assert RequestOk(s, id) && ReplyOk(s, id);
      TakenRequestOk(s, s', id);
      ReplyStaysOk(s, s', config, id);
    }
  }

  lemma {:induction false} NextRequestIsNew(s: System, config: Config)
    requires Inv(s, config) && s.taken < |s.client.log|
    ensures s.client.log[s.taken].Request? ==> s.client.log[s.taken].id !in s.server.requests
  {
    hide C.Inv, S.Inv, FramesOf, ReplyOk;
    NextFrame(s.client, config.clientLimit, s.taken);
    assert RequestOk(s, s.client.log[s.taken].id);
  }

  lemma {:induction false} TakenRequestOk(s: System, s': System, id: Id)
    requires Wires(s) && s.taken < |s.client.log| && s'.client == s.client && s'.taken == s.taken + 1 && RequestOk(s, id)
    requires var frame := s.client.log[s.taken];
             && FramesOf(s.client.log[..s.taken + 1], frame.id) == FramesOf(s.client.log[..s.taken], frame.id) + [frame]
             && (frame.Request? <==> FramesOf(s.client.log[..s.taken], frame.id) == [])
             && (frame.Request? ==> frame.id in s.client.bodies && frame.body == s.client.bodies[frame.id])
             && s'.server.requests ==
                  if frame.Request? then s.server.requests[frame.id := frame.body] else s.server.requests
    ensures RequestOk(s', id)
  {
    hide FramesOf;
    if id != s.client.log[s.taken].id { OtherFrames(s.client.log, s.taken, id); }
  }

  lemma {:induction false} FrameReachesClientKeepsInv(s: System, config: Config)
    requires Inv(s, config) && Enabled(s, config, FrameReachesClient)
    ensures Inv(Apply(s, config, FrameReachesClient), config)
  {
    hide S.Inv, RequestOk, ReplyOk, FramesOf;
    var s' := Apply(s, config, FrameReachesClient);
    var response := s.server.log[s.returned];
    C.StepKeepsInv(s.client, config.clientLimit, C.Receive(response));
    ClientGrows(s.client, config.clientLimit, C.Receive(response));
    hide C.Inv;
    forall id ensures RequestOk(s', id) && ReplyOk(s', id) {
      assert RequestOk(s, id) && ReplyOk(s, id);
      RequestStaysOk(s, s', id);
      ReturnedReplyOk(s, s', config, id);
    }
  }

  lemma {:induction false} ReturnedReplyOk(s: System, s': System, config: Config, id: Id)
    requires S.Inv(s.server, config.limits) && s.server.unique && ReplyOk(s, id)
    requires s.returned < |s.server.log| && s'.server == s.server
    requires s'.client == C.Answered(s.client, s.server.log[s.returned])
    ensures ReplyOk(s', id)
  {
    var response := s.server.log[s.returned];
    if id == response.id {
      ResponsesToFinds(s.server.log, s.returned);
      AtMostOne(s.server, config.limits, id);
    }
  }

  /** Every step of the whole connection keeps the invariant. */
  lemma {:induction false} StepKeepsInv(s: System, config: Config, step: Step)
    requires Inv(s, config) && Enabled(s, config, step)
    ensures Inv(Apply(s, config, step), config)
  {
    hide Inv;
    match step
    case ClientSteps(clientStep) => ClientStepKeepsInv(s, config, clientStep);
    case ServerSteps(serverStep) => ServerStepKeepsInv(s, config, serverStep);
    case FrameReachesServer => FrameReachesServerKeepsInv(s, config);
    case FrameReachesClient => FrameReachesClientKeepsInv(s, config);
  }

  // ----- Every run -----

  ghost function Run(config: Config, steps: seq<Step>): Option<System> {
    if steps == [] then Some(Initial())
    else
      var last := steps[|steps| - 1];
      match Run(config, steps[..|steps| - 1])
      case None => None
      case Some(s) => if Enabled(s, config, last) then Some(Apply(s, config, last)) else None
  }

  lemma {:induction false} RunKeepsInv(config: Config, steps: seq<Step>)
    requires Run(config, steps).Some?
    ensures Inv(Run(config, steps).value, config)
  {
    hide Inv;
    if steps == [] {
      InitialInv(config);
    } else {
      RunKeepsInv(config, steps[..|steps| - 1]);
      StepKeepsInv(Run(config, steps[..|steps| - 1]).value, config, steps[|steps| - 1]);
    }
  }

  // ----- What a reply says -----

  /** The reply is what this handler's work came to: its body if that fits, or why there is none. */
  predicate Conveys(reply: Reply, result: S.Result, maxResponseBytes: nat) {
    match reply
    case Body(body) => result == S.Encoded(body) && |body| <= maxResponseBytes
    case Failure(code, Words(text)) =>
      || result == S.Failed(code, text)
      || (result == S.EncodeFailed(text) && code == RpcWire.Internal)
      || (result == S.BadRequest(text) && code == RpcWire.InvalidArgument)
    case Failure(code, TooLong(actual, limit)) =>
      && result.Encoded? && |result.body| == actual && actual > limit && limit == maxResponseBytes
      && code == RpcWire.Internal
    case Failure(code, Standard) => result == S.TimedOut && code == RpcWire.DeadlineExceeded
  }

  /** The reply names the first admission test that this request failed. */
  ghost predicate NamesTheTest(reply: Reply, server: S.Server, limits: S.Limits, id: Id, timeoutMicros: nat) {
    && reply.Failure? && reply.message.Standard?
    && var known, late, long := id in server.aborts, timeoutMicros == 0, timeoutMicros > limits.maxTimeoutMicros;
    || (reply.code == RpcWire.AlreadyExists && known)
    || (reply.code == RpcWire.DeadlineExceeded && !known && late)
    || (reply.code == RpcWire.InvalidArgument && !known && !late && long)
    || (reply.code == RpcWire.ResourceExhausted && !known && !late && !long && |server.aborts| >= limits.maxInFlight)
  }

  /** A handler of this id, given this body, came to what the reply says. */
  ghost predicate Handled(s: System, config: Config, step: Step, id: Id, served: S.Served) {
    && step.ServerSteps? && step.serverStep.Produce? && step.serverStep.task in s.server.handlers
    && var handler := s.server.handlers[step.serverStep.task];
    && handler.id == id && handler.body == served.body
    && Conveys(served.reply, step.serverStep.result, config.limits.maxResponseBytes)
  }

  /** The request of this id, with this body, failed the test the reply names. */
  ghost predicate TurnedAway(s: System, config: Config, step: Step, id: Id, served: S.Served) {
    && step.FrameReachesServer? && s.taken < |s.client.log|
    && var frame := s.client.log[s.taken];
    && frame.Request? && frame.id == id && frame.body == served.body
    && NamesTheTest(served.reply, s.server, config.limits, id, frame.timeoutMicros)
  }

  lemma {:induction false} ResultsAreConveyed(result: S.Result, maxResponseBytes: nat)
    ensures Conveys(S.ReplyFor(result, maxResponseBytes), result, maxResponseBytes)
  {
  }

  /** A new entry among the replies was made by a handler or by the admission test. */
  lemma {:induction false} StepMakesReply(s: System, config: Config, step: Step, id: Id)
    requires Enabled(s, config, step)
    requires var s' := Apply(s, config, step);
             id in s'.server.replies && !(id in s.server.replies && s.server.replies[id] == s'.server.replies[id])
    ensures var served := Apply(s, config, step).server.replies[id];
            Handled(s, config, step, id, served) || TurnedAway(s, config, step, id, served)
  {
    hide C.Apply, C.Enabled, S.ReplyFor, Conveys;
    if step.ServerSteps? && step.serverStep.Produce? {
      ResultsAreConveyed(step.serverStep.result, config.limits.maxResponseBytes);
    } else {
      var serverStep := match step
        case ServerSteps(own) => own
        case FrameReachesServer => S.Receive(s.client.log[s.taken])
        case _ => S.Stop;
      if step.ServerSteps? || (step.FrameReachesServer? && serverStep.frame.Cancel?) {
        OthersMakeNoEntry(s.server, config.limits, serverStep);
      }
      hide S.Joined, S.Cancelled, S.StatusSent, S.ReplySent, S.Staged;
    }
  }

  lemma {:induction false} OthersMakeNoEntry(s: S.Server, limits: S.Limits, step: S.Step)
    requires S.Enabled(s, step) && !step.Produce? && !(step.Receive? && step.frame.Request?)
    ensures S.Apply(s, limits, step).replies == s.replies
  {
    hide S.Retained;
  }

  /** The step of a run that made a reply. */
  lemma {:induction false} ReplyHasACause(config: Config, steps: seq<Step>, id: Id) returns (i: nat)
    requires Run(config, steps).Some? && id in Run(config, steps).value.server.replies
    ensures i < |steps| && Run(config, steps[..i]).Some?
    ensures var before, served := Run(config, steps[..i]).value, Run(config, steps).value.server.replies[id];
            Handled(before, config, steps[i], id, served) || TurnedAway(before, config, steps[i], id, served)
  {
    assert steps != [];
    var before, last := steps[..|steps| - 1], steps[|steps| - 1];
    var s, s' := Run(config, before).value, Run(config, steps).value;
    hide Enabled, Apply, Handled, TurnedAway;
    if id in s.server.replies && s.server.replies[id] == s'.server.replies[id] {
      i := ReplyHasACause(config, before, id);
      assert steps[..i] == before[..i] && steps[i] == before[i];
    } else {
      i := |steps| - 1;
      StepMakesReply(s, config, last, id);
    }
  }

  /**
   The end-to-end guarantee. In every interleaving of callers, dispatcher,
   channels, supervisor and handlers, a call that is answered by the server is
   answered with the one reply the server made for the request that carried
   this call's own body: what a handler of that request came to, or the
   admission test the request failed.
   */
  lemma {:induction false} RepliesAreOnesOwn(config: Config, steps: seq<Step>, id: Id, reply: Reply) returns (i: nat)
    requires Run(config, steps).Some? && id in Run(config, steps).value.client.slots
    requires Run(config, steps).value.client.slots[id] == C.Filled(C.Replied(reply))
    ensures var s := Run(config, steps).value;
            && id in s.client.bodies && ResponsesTo(s.server.log, id) == [Response(id, reply)]
            && i < |steps| && Run(config, steps[..i]).Some?
            && var before, served := Run(config, steps[..i]).value, S.Served(s.client.bodies[id], reply);
            Handled(before, config, steps[i], id, served) || TurnedAway(before, config, steps[i], id, served)
  {
    hide C.Inv, S.Inv, FramesOf, ResponsesTo;
    RunKeepsInv(config, steps);
    var s := Run(config, steps).value;
    assert ReplyOk(s, id) && RequestOk(s, id);
    AtMostOne(s.server, config.limits, id);
    hide Run, Handled, TurnedAway;
    i := ReplyHasACause(config, steps, id);
  }

  /**
   Over a whole connection the server sees each call's request at most once and
   never a cancel before it, so its own guarantees, which ask for ids that are
   not reused, always apply.
   */
  lemma {:induction false} ServerSeesFreshIds(config: Config, steps: seq<Step>, id: Id)
    requires Run(config, steps).Some?
    ensures var s := Run(config, steps).value;
            && s.server.unique && s.taken <= |s.client.log|
            && var seen := FramesOf(s.client.log[..s.taken], id);
            && (id in s.server.requests <==> seen != [])
            && |seen| <= 2 && (seen != [] ==> seen[0].Request?) && (|seen| == 2 ==> seen[1] == Cancel(id))
  {
    RunKeepsInv(config, steps);
    var s := Run(config, steps).value;
    FramesOfPrefix(s.client.log, s.taken, id);
    hide FramesOf;
    assert RequestOk(s, id);
    if id in s.client.bodies { assert C.CallOk(s.client, id); }
  }
}
