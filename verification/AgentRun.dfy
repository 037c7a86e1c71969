/**
 One agent run: the supervising task, whatever the backend does with its
 progress sender, and the consumer of the event stream. Progress goes through a
 bounded channel, the outcome through a separate cell, so a full channel cannot
 swallow it. Every await is a point where the others may step.
 */
module AgentRun {
  import opened Bytes
  import opened Collections

  datatype Code = OutputLimit | Timeout | Protocol | Upstream(detail: nat)

  datatype Outcome = Completed(text: Bytes) | Cancelled | Failed(code: Code)

  datatype Event = Started | Text(text: Bytes) | Status(note: nat) | Terminal(outcome: Outcome)

  /** How the supervised future ended: the backend's answer, or what cut it short. */
  datatype Result = Finished(text: Bytes) | Errored(code: Code) | Stopped | TimedOut | Panicked

  datatype Stage = Starting | Executing | Decided(result: Result) | Published | Gone

  datatype Config = Config(maxOutputBytes: nat, eventBuffer: nat)

  datatype Run = Run(
    stage: Stage,
    ran: bool,               // the backend was started
    clones: nat,             // progress senders the backend still holds somewhere
    cancelled: bool,
    textBytes: nat,
    pending: seq<Event>,     // sends under way, their text already counted
    queue: seq<Event>,
    outcome: Option<Outcome>,
    receiverOpen: bool,
    ended: bool,
    // What has happened, for stating properties.
    sent: seq<Event>,
    seen: seq<Event>)

  function Initial(): Run { Run(Starting, false, 1, false, 0, [], [], None, true, false, [], []) }

  function OutcomeOf(result: Result, maxOutputBytes: nat): Outcome {
    match result
    case Finished(text) => if |text| <= maxOutputBytes then Completed(text) else Failed(OutputLimit)
    case Errored(code) => Failed(code)
    case Stopped => Cancelled
    case TimedOut => Failed(Timeout)
    case Panicked => Failed(Protocol)
  }

  datatype Step =
    // supervisor
    | SendStarted
    | Decide(result: Result)
    | Publish
    | DropSender
    | Vanish
    // backend, and tasks it may have left behind
    | Clone
    | DropClone
    | Offer(event: Event)
    | Enqueue(i: nat)
    | Abandon(i: nat)
    // consumer
    | Cancel
    | Receive
    | DropHandle

  function SizeOf(event: Event): nat { if event.Text? then |event.text| else 0 }

  /** No sender is left, so an empty channel is a closed one. */
  predicate AllSendersGone(r: Run) { r.stage.Gone? && r.clones == 0 }

  predicate HasRoom(r: Run, config: Config) { |r.queue| < config.eventBuffer && r.receiverOpen }

  predicate Enabled(r: Run, config: Config, step: Step) {
    match step
    case SendStarted => r.stage.Starting? && HasRoom(r, config)
    case Decide(result) =>
      || r.stage.Executing?
      || (r.stage.Starting? && (result.TimedOut? || (result.Stopped? && (r.cancelled || !r.receiverOpen))))
    case Publish => r.stage.Decided?
    case DropSender => r.stage.Published?
    case Vanish => !r.stage.Published? && !r.stage.Gone?
    case Clone => r.clones > 0 && r.ran
    case DropClone => r.clones > 0
    case Offer(event) =>
      && r.clones > 0 && r.ran && (event.Text? || event.Status?)
      && r.textBytes + SizeOf(event) <= config.maxOutputBytes
    case Enqueue(i) => i < |r.pending| && HasRoom(r, config) && r.clones > 0
    case Abandon(i) => i < |r.pending|
    case Cancel => true
    case Receive => r.receiverOpen && (r.ended || r.queue != [] || AllSendersGone(r))
    case DropHandle => r.receiverOpen
  }

  function Without(events: seq<Event>, i: nat): seq<Event>
    requires i < |events|
  {
    events[..i] + events[i + 1..]
  }

  function Sent(r: Run, event: Event): Run { r.(queue := r.queue + [event], sent := r.sent + [event]) }

  /** What the outcome cell gives once nobody can write to it any more. */
  function LastWord(r: Run): Event {
    Terminal(if r.outcome.Some? then r.outcome.value else Failed(Protocol))
  }

  /** The consumer's `recv`: progress first, then the outcome once, then nothing. */
  function Received(r: Run): (Run, Option<Event>) {
    if r.ended then (r, None)
    else if r.queue != [] then (r.(queue := r.queue[1..], seen := r.seen + [r.queue[0]]), Some(r.queue[0]))
    else (r.(ended := true, seen := r.seen + [LastWord(r)]), Some(LastWord(r)))
  }

  function Apply(r: Run, config: Config, step: Step): Run
    requires Enabled(r, config, step)
  {
    match step
    case SendStarted => Sent(r, Started).(stage := Executing, ran := true)
    case Decide(result) => r.(stage := Decided(result))
    case Publish => r.(stage := Published, outcome := Some(OutcomeOf(r.stage.result, config.maxOutputBytes)))
    case DropSender => r.(stage := Gone)
    case Vanish => r.(stage := Gone)
    case Clone => r.(clones := r.clones + 1)
    case DropClone => r.(clones := r.clones - 1)
    case Offer(event) => r.(pending := r.pending + [event], textBytes := r.textBytes + SizeOf(event))
    case Enqueue(i) => Sent(r, r.pending[i]).(pending := Without(r.pending, i))
    case Abandon(i) => r.(pending := Without(r.pending, i))
    case Cancel => r.(cancelled := true)
    case Receive => Received(r).0
    case DropHandle => r.(receiverOpen := false, cancelled := true)
  }

  // ----- Invariant -----

  function Size(events: seq<Event>): nat {
    if events == [] then 0 else Size(events[..|events| - 1]) + SizeOf(events[|events| - 1])
  }

  lemma {:induction false} SizeAppend(events: seq<Event>, event: Event)
    ensures Size(events + [event]) == Size(events) + SizeOf(event)
  {
    assert (events + [event])[..|events|] == events;
  }

  lemma {:induction false} SizeConcat(a: seq<Event>, b: seq<Event>)
    ensures Size(a + b) == Size(a) + Size(b)
  {
    if b == [] {
      assert a + b == a;
    } else {
      var front, last := b[..|b| - 1], b[|b| - 1];
      SizeConcat(a, front);
      assert a + b == (a + front) + [last] && b == front + [last];
      SizeAppend(a + front, last);
    }
  }

  lemma {:induction false} SizeWithout(events: seq<Event>, i: nat)
    requires i < |events|
    ensures Size(Without(events, i)) + SizeOf(events[i]) == Size(events)
  {
    assert events == (events[..i] + [events[i]]) + events[i + 1..];
    SizeConcat(events[..i] + [events[i]], events[i + 1..]);
    SizeAppend(events[..i], events[i]);
    SizeConcat(events[..i], events[i + 1..]);
  }

  ghost predicate AllProgress(events: seq<Event>) { forall e :: e in events ==> e.Text? || e.Status? }

  /** The start of the stream: nothing yet, or `Started` and then only progress. */
  ghost predicate StreamOk(r: Run) {
    && AllProgress(r.pending)
    && (r.sent != [] ==> r.sent[0].Started? && AllProgress(r.sent[1..]))
    && (r.ran <==> r.sent != []) && (r.stage.Starting? ==> !r.ran) && (!r.ran ==> r.pending == [])
  }

  /** What the consumer has seen is what was sent, in order, and the outcome once at the end. */
  ghost predicate SeenOk(r: Run) {
    && (!r.ended ==> r.seen + r.queue == r.sent)
    && (r.ended ==> r.queue == [] && AllSendersGone(r) && r.seen == r.sent + [LastWord(r)])
  }

  ghost predicate OutcomeOk(r: Run, config: Config) {
    && (r.stage.Published? ==> r.outcome.Some?)
    && (r.outcome.Some? ==> r.stage.Published? || r.stage.Gone?)
    && (r.outcome.Some? && r.outcome.value.Completed? ==> |r.outcome.value.text| <= config.maxOutputBytes)
  }

  ghost predicate TextOk(r: Run, config: Config) {
    Size(r.sent) + Size(r.pending) <= r.textBytes <= config.maxOutputBytes
  }

  ghost predicate Inv(r: Run, config: Config) {
    StreamOk(r) && SeenOk(r) && OutcomeOk(r, config) && TextOk(r, config)
  }

  lemma {:induction false} InitialInv(config: Config)
    ensures Inv(Initial(), config)
  {
  }

  lemma {:induction false} StepKeepsStream(r: Run, config: Config, step: Step)
    requires StreamOk(r) && Enabled(r, config, step)
    ensures StreamOk(Apply(r, config, step))
  {
    if step.Enqueue? {
      assert (r.sent + [r.pending[step.i]])[1..] == r.sent[1..] + [r.pending[step.i]];
    }
  }

  lemma {:induction false} StepKeepsSeen(r: Run, config: Config, step: Step)
    requires SeenOk(r) && OutcomeOk(r, config) && Enabled(r, config, step)
    ensures SeenOk(Apply(r, config, step))
  {
    var r' := Apply(r, config, step);
    if step.Receive? && !r.ended {
      if r.queue == [] { assert r.seen + r.queue == r.seen; }
      else { assert r'.seen + r'.queue == r.seen + r.queue; }
    } else if step.SendStarted? || step.Enqueue? {
      var event := if step.SendStarted? then Started else r.pending[step.i];
      assert r.seen + (r.queue + [event]) == (r.seen + r.queue) + [event];
    }
  }

  lemma {:induction false} StepKeepsOutcome(r: Run, config: Config, step: Step)
    requires OutcomeOk(r, config) && Enabled(r, config, step)
    ensures OutcomeOk(Apply(r, config, step), config)
  {
  }

  lemma {:induction false} StepKeepsText(r: Run, config: Config, step: Step)
    requires TextOk(r, config) && Enabled(r, config, step)
    ensures TextOk(Apply(r, config, step), config)
  {
    match step
    case SendStarted => SizeAppend(r.sent, Started);
    case Offer(event) => SizeAppend(r.pending, event);
    case Enqueue(i) =>
      SizeAppend(r.sent, r.pending[i]);
      SizeWithout(r.pending, i);
    case Abandon(i) => SizeWithout(r.pending, i);
    case _ =>
  }

  lemma {:induction false} StepKeepsInv(r: Run, config: Config, step: Step)
    requires Inv(r, config) && Enabled(r, config, step)
    ensures Inv(Apply(r, config, step), config)
  {
    StepKeepsStream(r, config, step);
    StepKeepsSeen(r, config, step);
    StepKeepsOutcome(r, config, step);
    StepKeepsText(r, config, step);
    hide StreamOk, SeenOk, OutcomeOk, TextOk, Apply;
  }

  // ----- Every run -----

  ghost function After(config: Config, steps: seq<Step>): Option<Run> {
    if steps == [] then Some(Initial())
    else
      var last := steps[|steps| - 1];
      match After(config, steps[..|steps| - 1])
      case None => None
      case Some(r) => if Enabled(r, config, last) then Some(Apply(r, config, last)) else None
  }

  lemma {:induction false} RunKeepsInv(config: Config, steps: seq<Step>)
    requires After(config, steps).Some?
    ensures Inv(After(config, steps).value, config)
  {
    hide Inv, Apply, Enabled;
    if steps == [] {
      InitialInv(config);
    } else {
      RunKeepsInv(config, steps[..|steps| - 1]);
      StepKeepsInv(After(config, steps[..|steps| - 1]).value, config, steps[|steps| - 1]);
    }
  }

  /** `Started`, then progress. */
  ghost predicate IsProgress(events: seq<Event>) {
    events == [] || (events[0].Started? && AllProgress(events[1..]))
  }

  /**
   What a consumer sees, whatever the backend, cancellation, timeouts,
   backpressure and panics do: first what was sent, in order, `Started` in
   front; then, after all of it, one terminal event, the published outcome;
   then nothing.
   */
  lemma {:induction false} StreamEndsWithItsOutcome(config: Config, steps: seq<Step>)
    requires After(config, steps).Some?
    ensures var r := After(config, steps).value;
            && (!r.ended ==> r.seen <= r.sent && IsProgress(r.seen))
            && (r.ended ==>
                  && r.seen == r.sent + [Terminal(if r.outcome.Some? then r.outcome.value else Failed(Protocol))]
                  && IsProgress(r.sent)
                  && r.queue == [] && AllSendersGone(r) && Received(r) == (r, None))
  {
    RunKeepsInv(config, steps);
    var r := After(config, steps).value;
    hide After;
    if !r.ended {
      assert r.seen == r.sent[..|r.seen|];
      if r.seen != [] { assert r.seen[1..] == r.sent[1..|r.seen|]; }
    }
  }

  /** Once the consumer has the outcome, no step of anybody changes what it saw or may see. */
  lemma {:induction false} TheEndIsFinal(config: Config, steps: seq<Step>, step: Step)
    requires After(config, steps).Some? && After(config, steps).value.ended
    requires Enabled(After(config, steps).value, config, step)
    ensures var r := After(config, steps).value;
            var r' := Apply(r, config, step);
            r'.ended && r'.seen == r.seen && r'.sent == r.sent && r'.outcome == r.outcome
  {
    RunKeepsInv(config, steps);
    hide After;
  }

  /** Streamed text and completed text both stay within the limit, sends under way included. */
  lemma {:induction false} TextStaysWithinLimit(config: Config, steps: seq<Step>)
    requires After(config, steps).Some?
    ensures var r := After(config, steps).value;
            && Size(r.sent) + Size(r.pending) <= config.maxOutputBytes
            && Size(r.seen) <= config.maxOutputBytes
            && (r.outcome.Some? && r.outcome.value.Completed? ==> |r.outcome.value.text| <= config.maxOutputBytes)
  {
    RunKeepsInv(config, steps);
    var r := After(config, steps).value;
    hide After;
    if r.ended {
      SizeAppend(r.sent, LastWord(r));
    } else {
      SizeConcat(r.seen, r.queue);
    }
  }

  /**
   When the channel closes the outcome is already there, or never will be, so
   reading it does not wait: marking the stream ended before reading it cannot
   lose it. A supervisor that lived to the end has always published one.
   */
  lemma {:induction false} ClosedChannelHasItsOutcome(config: Config, steps: seq<Step>)
    requires After(config, steps).Some? && Vanish !in steps
    ensures var r := After(config, steps).value; r.stage.Gone? ==> r.outcome.Some?
  {
    if steps != [] {
      var before := steps[..|steps| - 1];
      assert Vanish !in before && steps[|steps| - 1] != Vanish;
      ClosedChannelHasItsOutcome(config, before);
      RunKeepsInv(config, before);
      KeepsPublished(After(config, before).value, config, steps[|steps| - 1]);
    }
  }

  lemma {:induction false} KeepsPublished(r: Run, config: Config, step: Step)
    requires Enabled(r, config, step) && step != Vanish && OutcomeOk(r, config) && (r.stage.Gone? ==> r.outcome.Some?)
    ensures Apply(r, config, step).stage.Gone? ==> Apply(r, config, step).outcome.Some?
  {
  }

  /** What an outcome says about how the run ended. */
  predicate Says(outcome: Outcome, result: Result, maxOutputBytes: nat) {
    match outcome
    case Completed(text) => result == Finished(text) && |text| <= maxOutputBytes
    case Cancelled => result == Stopped
    case Failed(code) =>
      || result == Errored(code)
      || (code == OutputLimit && result.Finished? && |result.text| > maxOutputBytes)
      || (code == Timeout && result == TimedOut)
      || (code == Protocol && result == Panicked)
  }

  lemma {:induction false} OutcomesSay(result: Result, maxOutputBytes: nat)
    ensures Says(OutcomeOf(result, maxOutputBytes), result, maxOutputBytes)
  {
  }

  /** The step that decided a run. */
  lemma {:induction false} DecidedOnce(config: Config, steps: seq<Step>) returns (i: nat)
    requires After(config, steps).Some? && After(config, steps).value.stage.Decided?
    ensures i < |steps| && steps[i] == Decide(After(config, steps).value.stage.result)
  {
    assert steps != [];
    var before, last := steps[..|steps| - 1], steps[|steps| - 1];
    if last.Decide? {
      i := |steps| - 1;
    } else {
      i := DecidedOnce(config, before);
      assert before[i] == steps[i];
    }
  }

  /** The published outcome, in every run, says how the run was decided. */
  lemma {:induction false} OutcomeSaysHowItEnded(config: Config, steps: seq<Step>) returns (i: nat)
    requires After(config, steps).Some? && After(config, steps).value.outcome.Some?
    ensures i < |steps| && steps[i].Decide?
    ensures Says(After(config, steps).value.outcome.value, steps[i].result, config.maxOutputBytes)
  {
    assert steps != [];
    var before, last := steps[..|steps| - 1], steps[|steps| - 1];
    hide Says;
    if last.Publish? {
      i := DecidedOnce(config, before);
      OutcomesSay(After(config, before).value.stage.result, config.maxOutputBytes);
      assert before[i] == steps[i];
    } else {
      OnlyPublishDecides(After(config, before).value, config, last);
      i := OutcomeSaysHowItEnded(config, before);
      assert before[i] == steps[i];
    }
  }

  lemma {:induction false} OnlyPublishDecides(r: Run, config: Config, step: Step)
    requires Enabled(r, config, step) && !step.Publish?
    ensures Apply(r, config, step).outcome == r.outcome
  {
  }

  /** The event that follows, in the order of sending, what the consumer has seen. */
  ghost predicate NextSent(r: Run, event: Event) { |r.seen| < |r.sent| && r.sent[|r.seen|] == event }

  /** What waits in the channel is progress, never an outcome, and comes out in the order it went in. */
  lemma {:induction false} NextIsProgress(r: Run)
    requires StreamOk(r) && SeenOk(r) && r.queue != []
    ensures !r.ended && !r.queue[0].Terminal? && NextSent(r, r.queue[0])
  {
    assert (r.seen + r.queue)[|r.seen|] == r.queue[0];
    if r.seen != [] { assert r.sent[1..][|r.seen| - 1] == r.queue[0] && r.queue[0] in r.sent[1..]; }
  }

  lemma {:induction false} AfterAppend(config: Config, steps: seq<Step>, step: Step)
    requires After(config, steps).Some? && Enabled(After(config, steps).value, config, step)
    ensures After(config, steps + [step]) == Some(Apply(After(config, steps).value, config, step))
  {
    assert (steps + [step])[..|steps|] == steps;
  }

  /**
   The timer cannot be held off: wherever a run stands, with the channel full,
   sends stuck, the backend silent or the consumer gone, the supervisor alone
   can bring it to a published outcome and close its channel.
   */
  lemma {:induction false} TheTimerIsNeverBlocked(config: Config, steps: seq<Step>) returns (more: seq<Step>)
    requires After(config, steps).Some? && Vanish !in steps
    ensures |more| <= 3 && forall step :: step in more ==> step in {Decide(TimedOut), Publish, DropSender}
    ensures After(config, steps + more).Some?
    ensures var r := After(config, steps + more).value; r.stage.Gone? && r.outcome.Some?
  {
    ClosedChannelHasItsOutcome(config, steps);
    RunKeepsInv(config, steps);
    var r := After(config, steps).value;
    hide After, StreamOk, SeenOk, TextOk;
    if r.stage.Starting? || r.stage.Executing? {
      AfterAppend(config, steps, Decide(TimedOut));
      more := DecidedGoesOn(config, steps + [Decide(TimedOut)]);
      assert steps + [Decide(TimedOut)] + more == steps + ([Decide(TimedOut)] + more);
      more := [Decide(TimedOut)] + more;
    } else if r.stage.Decided? {
      more := DecidedGoesOn(config, steps);
    } else if r.stage.Published? {
      AfterAppend(config, steps, DropSender);
      more := [DropSender];
    } else {
      more := [];
      assert steps + [] == steps;
    }
  }

  lemma {:induction false} DecidedGoesOn(config: Config, steps: seq<Step>) returns (more: seq<Step>)
    requires After(config, steps).Some? && After(config, steps).value.stage.Decided?
    ensures more == [Publish, DropSender] && After(config, steps + more).Some?
    ensures var r := After(config, steps + more).value; r.stage.Gone? && r.outcome.Some?
  {
    hide After;
    AfterAppend(config, steps, Publish);
    AfterAppend(config, steps + [Publish], DropSender);
    more := [Publish, DropSender];
    assert steps + [Publish] + [DropSender] == steps + more;
  }

  /** Backpressure: the channel never holds more than it was made for. */
  lemma {:induction false} ChannelIsBounded(config: Config, steps: seq<Step>)
    requires After(config, steps).Some?
    ensures |After(config, steps).value.queue| <= config.eventBuffer
  {
    if steps != [] {
      ChannelIsBounded(config, steps[..|steps| - 1]);
      StepKeepsChannel(After(config, steps[..|steps| - 1]).value, config, steps[|steps| - 1]);
    }
  }

  lemma {:induction false} StepKeepsChannel(r: Run, config: Config, step: Step)
    requires Enabled(r, config, step) && |r.queue| <= config.eventBuffer
    ensures |Apply(r, config, step).queue| <= config.eventBuffer
  {
  }

  /** A consumer that has gone has cancelled the run, and a cancelled run stays so. */
  lemma {:induction false} GoneMeansCancelled(config: Config, steps: seq<Step>)
    requires After(config, steps).Some?
    ensures !After(config, steps).value.receiverOpen || Cancel in steps ==> After(config, steps).value.cancelled
  {
    if steps != [] {
      var before, last := steps[..|steps| - 1], steps[|steps| - 1];
      GoneMeansCancelled(config, before);
      StaysCancelled(After(config, before).value, config, last);
      assert steps == before + [last];
    }
  }

  lemma {:induction false} StaysCancelled(r: Run, config: Config, step: Step)
    requires Enabled(r, config, step)
    ensures var r' := Apply(r, config, step);
            (r.cancelled || step.Cancel? ==> r'.cancelled) && (!r'.receiverOpen ==> !r.receiverOpen || r'.cancelled)
  {
  }

  // ----- In place -----

  /** What the supervisor publishes, in the order it looks at the result. */
  method Conclude(result: Result, maxOutputBytes: nat) returns (outcome: Outcome)
    ensures outcome == OutcomeOf(result, maxOutputBytes)
    ensures outcome.Completed? <==> result.Finished? && |result.text| <= maxOutputBytes
    ensures outcome.Completed? ==> outcome.text == result.text
    ensures outcome.Cancelled? <==> result.Stopped?
    ensures outcome.Failed? && result.Errored? ==> outcome.code == result.code
    ensures outcome.Failed? && result.Finished? ==> outcome.code == OutputLimit
    ensures outcome.Failed? && result.TimedOut? ==> outcome.code == Timeout
    ensures outcome.Failed? && result.Panicked? ==> outcome.code == Protocol
  {
    match result
    case Finished(text) =>
      if |text| <= maxOutputBytes { return Completed(text); }
      return Failed(OutputLimit);
    case Stopped => return Cancelled;
    case Errored(code) => return Failed(code);
    case TimedOut => return Failed(Timeout);
    case Panicked => return Failed(Protocol);
  }

  class EventSender {
    const maxTextBytes: nat
    var textBytes: nat

    constructor (maxTextBytes: nat)
      ensures this.maxTextBytes == maxTextBytes && textBytes == 0
    {
      this.maxTextBytes, textBytes := maxTextBytes, 0;
    }

    /** Text is counted before it is sent, and refused whole if it would go past the limit. */
    method Reserve(event: Event) returns (ok: bool)
      modifies this
      ensures ok <==> !event.Text? || old(textBytes) + |event.text| <= maxTextBytes
      ensures textBytes == old(textBytes) + if ok then SizeOf(event) else 0
    {
      if event.Text? {
        var total := textBytes + |event.text|;
        if total > maxTextBytes { return false; }
        textBytes := total;
      }
      return true;
    }
  }

  class RunHandle {
    var queue: seq<Event>
    var outcome: Option<Outcome>
    var ended: bool
    ghost var rest: Run

    ghost function State(): Run
      reads this
    {
      rest.(queue := queue, outcome := outcome, ended := ended)
    }

    constructor ()
      ensures State() == Initial()
    {
      queue, outcome, ended, rest := [], None, false, Initial();
    }

    /** Called when it need not wait: something is queued, every sender is gone, or the stream is over. */
    method Recv(ghost config: Config) returns (event: Option<Event>)
      requires ended || queue != [] || AllSendersGone(rest)
      modifies this
      ensures (State(), event) == Received(old(State()))
      ensures event.None? <==> old(ended)
      ensures old(Inv(State(), config) && rest.receiverOpen) ==>
                && Inv(State(), config)
                && (ended <==> event.None? || event.value.Terminal?)
                && (event.Some? && !event.value.Terminal? ==> NextSent(old(State()), event.value))
                && (event.Some? && event.value.Terminal? && outcome.Some? ==> event.value.outcome == outcome.value)
                && (event.Some? && event.value.Terminal? && outcome.None? ==> event.value.outcome == Failed(Protocol))
                && (event.Some? && event.value.Terminal? ==> rest.seen == rest.sent + [event.value] && AllSendersGone(rest))
    {
      if Inv(State(), config) && rest.receiverOpen {
        StepKeepsInv(State(), config, Receive);
        if queue != [] { NextIsProgress(State()); }
      }
      hide StreamOk, OutcomeOk, TextOk, NextSent;
      if ended { return None; }
      if queue != [] {
        event := Some(queue[0]);
        queue := queue[1..];
      } else {
        ended := true;
        event := Some(Terminal(if outcome.Some? then outcome.value else Failed(Protocol)));
      }
      rest := rest.(seen := rest.seen + [event.value]);
    }
  }
}
