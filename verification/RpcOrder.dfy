/**
 Calls go out in the order they were queued. Some drop out on the way, abandoned
 or expired before they were sent; the others never overtake each other.
 */
module RpcOrder {
  import opened Collections
  import opened RpcMessages
  import opened RpcClient

  /** The calls that were put into the queue, in order. */
  function Queued(steps: seq<Step>): seq<Id> {
    if steps == [] then []
    else
      var last := steps[|steps| - 1];
      Queued(steps[..|steps| - 1]) + if last.Enqueue? then [last.id] else []
  }

  /** The calls whose request was handed to the writer, in order. */
  function Sent(log: seq<ToServer>): seq<Id> {
    if log == [] then []
    else
      var last := log[|log| - 1];
      Sent(log[..|log| - 1]) + if last.Request? then [last.id] else []
  }

  /** Everyone in line: those sent, the one just pulled, those still queued. */
  function Line(s: Client): seq<Id> {
    Sent(s.log) + (if s.at.Checked? then [s.at.id] else []) + s.queue
  }

  function Without(ids: seq<Id>, k: nat): seq<Id>
    requires k < |ids|
  {
    ids[..k] + ids[k + 1..]
  }

  /** `a` is part of `b`, found at these rising positions. */
  ghost predicate PartOf(a: seq<Id>, b: seq<Id>, positions: seq<nat>) {
    && |positions| == |a|
    && (forall i :: 0 <= i < |a| ==> positions[i] < |b| && b[positions[i]] == a[i])
    && (forall i, j :: 0 <= i < j < |a| ==> positions[i] < positions[j])
  }

  lemma {:induction false} SentAppend(log: seq<ToServer>, frame: ToServer)
    ensures Sent(log + [frame]) == Sent(log) + if frame.Request? then [frame.id] else []
  {
    assert (log + [frame])[..|log|] == log;
  }

  // ----- One step -----

  /** Nobody moves, somebody joins at the end, or the first who was not sent yet drops out. */
  ghost predicate Moves(s: Client, s': Client, step: Step) {
    || (!step.Enqueue? && Line(s') == Line(s))
    || (step.Enqueue? && Line(s') == Line(s) + [step.id])
    || (!step.Enqueue? && |Sent(s.log)| < |Line(s)| && Line(s') == Without(Line(s), |Sent(s.log)|))
  }

  lemma {:induction false} QuietMoves(s: Client, limit: nat, step: Step)
    requires Enabled(s, limit, step) && Quiet(step)
    ensures Moves(s, Apply(s, limit, step), step)
  {
    hide Sent;
  }

  lemma {:induction false} PulledMoves(s: Client)
    requires s.queue != [] && s.at.Selecting?
    ensures Moves(s, Pulled(s), PullRequest)
  {
    hide Sent, ReceiverClosed;
    var sent := Sent(s.log);
    assert sent + [] + s.queue == sent + s.queue;
    assert sent + [s.queue[0]] + s.queue[1..] == sent + s.queue;
    assert Without(sent + s.queue, |sent|) == sent + s.queue[1..];
  }

  lemma {:induction false} AdmittedMoves(s: Client, timeoutMicros: nat)
    requires s.at.Checked? && s.at.id in s.bodies
    ensures Moves(s, Admitted(s, timeoutMicros), Admit(timeoutMicros))
  {
    hide Sent;
    var sent := Sent(s.log);
    if timeoutMicros == 0 {
      assert Without(sent + [s.at.id] + s.queue, |sent|) == sent + [] + s.queue;
    } else {
      var frame := Request(s.at.id, timeoutMicros, s.bodies[s.at.id]);
      SentAppend(s.log, frame);
      assert Admitted(s, timeoutMicros).log == s.log + [frame] && Admitted(s, timeoutMicros).queue == s.queue;
      hide Admitted;
      assert (sent + [s.at.id]) + [] + s.queue == sent + [s.at.id] + s.queue;
    }
  }

  lemma {:induction false} CancellationMoves(s: Client)
    requires s.cancellations != [] && s.at.Selecting?
    ensures Moves(s, CancellationTaken(s), PullCancellation)
  {
    SentAppend(s.log, Cancel(s.cancellations[0]));
    hide Sent;
    assert Sent(s.log) + [] == Sent(s.log);
  }

  lemma {:induction false} ExpiredMoves(s: Client, id: Id)
    requires s.at.Selecting?
    ensures Moves(s, Expired(s, id), Expire(id))
  {
    SentAppend(s.log, Cancel(id));
    hide Sent;
    assert Sent(s.log) + [] == Sent(s.log);
  }

  lemma {:induction false} QueuedFailedMoves(s: Client)
    requires s.queue != [] && s.at.Draining?
    ensures Moves(s, QueuedFailed(s), DrainQueue)
  {
    hide Sent;
    var sent := Sent(s.log);
    assert sent + [] == sent && Without(sent + s.queue, |sent|) == sent + s.queue[1..];
  }

  lemma {:induction false} AnsweredMoves(s: Client, response: ToClient)
    ensures Moves(s, Answered(s, response), Receive(response))
  {
    hide Sent;
  }

  lemma {:induction false} FailedMoves(s: Client)
    requires s.at.Selecting? || s.at.Handing?
    ensures Moves(s, Failed(s), Fail)
  {
    hide Sent, SetAll;
  }

  lemma {:induction false} StepMoves(s: Client, limit: nat, step: Step)
    requires Enabled(s, limit, step)
    ensures Moves(s, Apply(s, limit, step), step)
  {
    hide Moves, Pulled, Admitted, CancellationTaken, Expired, QueuedFailed, Answered, Failed;
    if Quiet(step) {
      QuietMoves(s, limit, step);
    } else {
      match step
      case PullRequest => PulledMoves(s);
      case Admit(timeoutMicros) => AdmittedMoves(s, timeoutMicros);
      case PullCancellation => CancellationMoves(s);
      case Receive(response) => AnsweredMoves(s, response);
      case Expire(id) => ExpiredMoves(s, id);
      case Fail => FailedMoves(s);
      case _ => QueuedFailedMoves(s);
    }
  }

  // ----- Every run -----

  lemma {:induction false} DropOut(a: seq<Id>, b: seq<Id>, positions: seq<nat>, k: nat)
    requires PartOf(a, b, positions) && k < |a|
    ensures PartOf(Without(a, k), b, positions[..k] + positions[k + 1..])
  {
  }

  lemma {:induction false} JoinIn(a: seq<Id>, b: seq<Id>, positions: seq<nat>, id: Id)
    requires PartOf(a, b, positions)
    ensures PartOf(a + [id], b + [id], positions + [|b|])
  {
  }

  /** In every run those sent, the one just pulled and those queued are, in this order, part of those who ever queued. */
  lemma {:induction false} NobodyOvertakes(limit: nat, steps: seq<Step>) returns (positions: seq<nat>)
    requires Run(limit, steps).Some?
    ensures PartOf(Line(Run(limit, steps).value), Queued(steps), positions)
  {
    if steps == [] {
      positions := [];
    } else {
      var before, last := steps[..|steps| - 1], steps[|steps| - 1];
      var s := Run(limit, before).value;
      positions := NobodyOvertakes(limit, before);
      StepMoves(s, limit, last);
      hide Enabled, Apply, Line, PartOf, Sent;
      var line, all := Line(s), Queued(before);
      if last.Enqueue? {
        JoinIn(line, all, positions, last.id);
        positions := positions + [|all|];
      } else {
        assert all + [] == all;
        if Line(Run(limit, steps).value) != line {
          DropOut(line, all, positions, |Sent(s.log)|);
          positions := positions[..|Sent(s.log)|] + positions[|Sent(s.log)| + 1..];
        }
      }
    }
  }
}
