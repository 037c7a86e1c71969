/**
 One run of a job on a worker: the events it journals and waits for, and the
 terminal event it writes when something went wrong on the way. What the
 outside world does at each wait is given as a script.
 */
module WorkerRunner {
  import opened Collections
  import opened JobStates
  import opened Journal

  /**
   An event is journaled first and then waited for. The journal write may be
   lost; the wait may be cut short, by a cancellation that came before or
   during it or by a failure to record the acknowledgement.
   */
  datatype Delivery = Acknowledged | Cut | Lost

  datatype Script = Script(
    resent: Delivery,         // the event left over from before the restart
    accepted: Delivery,
    permitted: bool,          // a parallelism permit was granted
    prompted: bool,           // inputs, workflow and prompt
    running: Delivery,
    stopped: bool,            // cancelled before the wait for outputs
    progress: seq<Delivery>,  // each status event
    outputs: bool,
    uploading: Delivery,
    uploaded: bool,
    completed: Delivery,
    cancelled: bool,          // the job's token, when the run is over
    ended: Delivery)          // the event that ends a broken run

  predicate AllAcknowledged(deliveries: seq<Delivery>) {
    forall i :: 0 <= i < |deliveries| ==> deliveries[i].Acknowledged?
  }

  /** The run gets as far as announcing its uploads. */
  predicate ReachesUploads(record: Record, script: Script) {
    && !record.state.IsTerminal()
    && (record.pending.Some? ==> script.resent.Acknowledged?)
    && (record.state.Received? ==> script.accepted.Acknowledged?)
    && script.permitted && script.prompted
    && (record.state.Received? || record.state.Accepted? ==> script.running.Acknowledged?)
    && !script.stopped && script.outputs
    && (if record.state.Uploading? then script.progress == [] else AllAcknowledged(script.progress))
  }

  /** The job is over before the run has to write an end: it was, or its completion is journaled. */
  predicate Completes(record: Record, script: Script) {
    || record.state.IsTerminal()
    || (ReachesUploads(record, script) && script.uploading.Acknowledged? && script.uploaded && !script.completed.Lost?)
  }

  /**
   The announcement of the uploads is journaled but not acknowledged, and the
   job is cancelled: the run still takes itself to be running.
   */
  predicate Stranded(record: Record, script: Script) {
    !record.state.Uploading? && ReachesUploads(record, script) && script.uploading.Cut? && script.cancelled
  }

  /** The uploads are announced, by this run or before it: too late to be cancelled. */
  predicate Announced(record: Record, script: Script) {
    record.state.Uploading? || (ReachesUploads(record, script) && script.uploading.Acknowledged?)
  }

  /** A received job, everything acknowledged but the announcement, and then cancelled. */
  method StrandedRun() returns (runner: Runner)
    ensures fresh(runner) && runner.Valid() && runner.records[runner.id].state.Uploading?
  {
    var record := Fresh(Dispatch("", "", 1, "", "", "", []));
    runner := new Runner("", map["" := record]);
    var script := Script(Acknowledged, Acknowledged, true, true, Acknowledged, false, [], true,
                         Cut, true, Acknowledged, true, Acknowledged);
    assert Stranded(record, script);
    runner.Execute(script);
  }

  class Runner {
    const id: JobId
    var records: Records
    var state: JobState
    var sequence: nat

    ghost predicate Valid()
      reads this
    {
      id in records && records[id].sequence <= sequence && !records[id].state.Queued?
    }

    constructor (id: JobId, records: Records)
      requires id in records && !records[id].state.Queued?
      ensures Valid() && this.id == id && this.records == records
      ensures state == records[id].state && sequence == records[id].sequence
    {
      this.id, this.records := id, records;
      state, sequence := records[id].state, records[id].sequence;
    }

    /** Events are numbered past the journal, so only an illegal transition can refuse one. */
    method Emit(next: JobState, content: string, delivery: Delivery) returns (ok: bool)
      requires Valid() && !next.Queued?
      modifies this`records, this`sequence
      ensures Valid()
      ensures ok <==> old(records[id].state).CanTransitionTo(next) && delivery.Acknowledged?
      ensures var journaled := old(records[id].state).CanTransitionTo(next) && !delivery.Lost?;
              && records[id].state == (if journaled then next else old(records[id].state))
              && (!journaled ==> records == old(records))
      // Journaled under the next number, and left there unless it is acknowledged.
      ensures sequence == old(sequence) + 1
      ensures old(records[id].state).CanTransitionTo(next) && !delivery.Lost? ==>
                && records[id].sequence == sequence
                && records[id].pending == if delivery.Cut? then Some(Event(id, sequence, content)) else None
      ensures records.Keys == old(records.Keys)
      ensures forall other :: other in records && other != id ==> records[other] == old(records[other])
    {
      sequence := sequence + 1;
      if delivery.Lost? { return false; }
      var event := Event(id, sequence, content);
      var (journaled, reply) := PendingSet(records, event, Some(next));
      records := journaled;
      if reply.Refused? || delivery.Cut? { return false; }
      var (cleared, _) := PendingCleared(records, id, sequence);
      records := cleared;
      return true;
    }

    /** The event left over from before the restart is sent again as it was. */
    method Resend(delivery: Delivery) returns (ok: bool)
      requires Valid() && Inv(records)
      modifies this`records
      ensures Valid() && records[id].state == old(records[id].state)
      ensures ok <==> (old(records[id].pending.Some?) ==> delivery.Acknowledged?)
      ensures records[id] == old(records[id]).(pending := if ok then None else old(records[id].pending))
    {
      if records[id].pending.None? { return true; }
      if delivery.Lost? { return false; }
      assert RecordOk(id, records[id]);
      var (journaled, reply) := PendingSet(records, records[id].pending.value, None);
      assert reply == Done;
      records := journaled;
      if delivery.Cut? { return false; }
      var (cleared, _) := PendingCleared(records, id, records[id].sequence);
      records := cleared;
      return true;
    }

    /** What is left when a run breaks off: the journal, and where the run takes itself to be. */
    ghost predicate Settleable()
      reads this
    {
      && Valid()
      && (!state.Uploading? ==> records[id].state in {Received, Accepted, Running})
      && (state.Uploading? ==> records[id].state in {Uploading, Completed})
    }

    /** Up to the prompt: the run is then running, unless it was already uploading. */
    method Prepare(script: Script) returns (ok: bool)
      requires Valid() && Inv(records) && state == records[id].state && !state.IsTerminal()
      modifies this
      ensures Settleable() && state.Uploading? == old(state).Uploading? && !records[id].state.IsTerminal()
      ensures ok ==> state == records[id].state && (state.Running? || state.Uploading?)
      ensures ok <==>
                var record := old(records[id]);
                && (record.pending.Some? ==> script.resent.Acknowledged?)
                && (record.state.Received? ==> script.accepted.Acknowledged?)
                && script.permitted && script.prompted
                && (record.state.Received? || record.state.Accepted? ==> script.running.Acknowledged?)
    {
      hide Inv;
      ok := Resend(script.resent);
      if !ok { return; }
      if state.Received? {
        ok := Emit(Accepted, "accepted", script.accepted);
        if !ok { return; }
        state := Accepted;
      }
      if !script.permitted || !script.prompted { return false; }
      if !state.Running? && !state.Uploading? {
        ok := Emit(Running, "running", script.running);
        if !ok { return; }
        state := Running;
      }
      return true;
    }

    /** The status events while the prompt runs. */
    method Report(progress: seq<Delivery>) returns (ok: bool)
      requires Valid() && state == records[id].state && (state.Running? || state.Uploading?)
      modifies this`records, this`sequence
      ensures Valid() && records[id].state == old(records[id].state)
      ensures ok <==> progress == [] || (state.Running? && AllAcknowledged(progress))
    {
      for i := 0 to |progress|
        invariant Valid() && records[id].state == old(records[id].state)
        invariant i > 0 ==> state.Running?
        invariant AllAcknowledged(progress[..i])
      {
        ok := Emit(Running, "progress", progress[i]);
        if !ok {
          assert state.Running? ==> !progress[i].Acknowledged?;
          return;
        }
      }
      assert progress[..|progress|] == progress;
      return true;
    }

    /** From the prompt to the completed job. */
    method Complete(script: Script) returns (ok: bool)
      requires Valid() && state == records[id].state && (state.Running? || state.Uploading?)
      modifies this
      ensures Valid() && (ok ==> records[id].state.Completed?)
      ensures old(state).Uploading? ==> state.Uploading?
      ensures var reached := !script.stopped && script.outputs
                && (if old(state).Uploading? then script.progress == [] else AllAcknowledged(script.progress));
              var announced := reached && script.uploading.Acknowledged?;
              && (records[id].state.Completed? <==> announced && script.uploaded && !script.completed.Lost?)
              && (state.Uploading? <==> old(state).Uploading? || announced)
              && (reached && script.uploading.Cut? && old(state).Running? ==>
                    state.Running? && records[id].state.Uploading?)
              && (!(reached && script.uploading.Cut? && old(state).Running?) ==> Settleable())
    {
      if script.stopped { return false; }
      ok := Report(script.progress);
      if !ok { return; }
      if !script.outputs { return false; }
      ok := Emit(Uploading, "uploading", script.uploading);
      if !ok { return; }
      state := Uploading;
      if !script.uploaded { return false; }
      ok := Emit(Completed, "completed", script.completed);
    }

    /** A run that broke off writes its own end; a refusal is ignored. */
    method WriteEnd(script: Script)
      requires Valid()
      modifies this`records, this`sequence
      ensures Valid()
      ensures records[id].state ==
                var end := if script.cancelled && !state.Uploading? then Cancelled else Failed;
                if old(records[id].state).CanTransitionTo(end) && !script.ended.Lost? then end
                else old(records[id].state)
    {
      if script.cancelled && !state.Uploading? {
        var _ := Emit(Cancelled, "cancelled", script.ended);
      } else {
        var _ := Emit(Failed, "failed", script.ended);
      }
    }

    /**
     A run leaves its job in a terminal state exactly when it completes, or is
     not stranded and can journal its end. A stranded run's own cancelled event
     is an illegal transition: the job stays in the uploading state with the
     announcement undelivered.
     */
    method Execute(script: Script)
      requires Valid() && Inv(records) && state == records[id].state
      modifies this
      ensures Valid()
      ensures records[id].state.IsTerminal() <==>
                Completes(old(records[id]), script) || (!Stranded(old(records[id]), script) && !script.ended.Lost?)
      ensures Stranded(old(records[id]), script) ==> records[id].state.Uploading?
      // Which end it is.
      ensures records[id].state.IsTerminal() ==>
                records[id].state ==
                  if old(records[id].state).IsTerminal() then old(records[id].state)
                  else if Completes(old(records[id]), script) then Completed
                  else if script.cancelled && !Announced(old(records[id]), script) then Cancelled
                  else Failed
    {
      hide Inv;
      if state.IsTerminal() { return; }
      var ok := Prepare(script);
      if ok { ok := Complete(script); }
      if !ok { WriteEnd(script); }
    }
  }
}
