/**
 What a worker journal does: one record per job, changed by redispatches, state
 changes, events to deliver and their acknowledgements. `Apply` is the contract
 both backends share; the runs of it carry the replay guarantees.
 */
module Journal {
  import opened Collections
  import opened JobStates

  type JobId = string

  datatype Input = Input(
    artifactId: string, name: string, contentType: string, sizeBytes: nat, sha256: string, download: string)

  datatype Dispatch = Dispatch(
    commandId: string, jobId: JobId, attempt: nat, workflowId: string, workflowVersion: string,
    parameters: string, inputs: seq<Input>)

  /** `content` stands for the attempt, kind, progress, prompt, message and time of the event. */
  datatype Event = Event(jobId: JobId, sequence: nat, content: string)

  datatype Record = Record(
    dispatch: Dispatch, state: JobState, promptId: Option<string>, sequence: nat, pending: Option<Event>)

  datatype Error =
    | NotFound(jobId: JobId)
    | DispatchConflict(jobId: JobId)
    | InvalidTransition(current: JobState, next: JobState)
    | StaleEventSequence(currentSequence: nat, receivedSequence: nat)
    | InvalidState(value: string)

  type Records = map<JobId, Record>

  // ----- Dispatch identity -----

  function LowerChar(c: char): char {
    if 'A' <= c <= 'Z' then (c as int + 32) as char else c
  }

  ghost predicate EqIgnoreAsciiCase(a: string, b: string) {
    |a| == |b| && forall i :: 0 <= i < |a| ==> LowerChar(a[i]) == LowerChar(b[i])
  }

  ghost predicate SameInput(a: Input, b: Input) {
    && a.artifactId == b.artifactId && a.name == b.name && a.contentType == b.contentType
    && a.sizeBytes == b.sizeBytes && EqIgnoreAsciiCase(a.sha256, b.sha256)
  }

  ghost predicate SameIdentity(a: Dispatch, b: Dispatch) {
    && a.jobId == b.jobId && a.attempt == b.attempt && a.workflowId == b.workflowId
    && a.workflowVersion == b.workflowVersion && a.parameters == b.parameters
    && |a.inputs| == |b.inputs|
    && forall i :: 0 <= i < |a.inputs| ==> SameInput(a.inputs[i], b.inputs[i])
  }

  lemma {:induction false} IdentityIsAnEquivalence(a: Dispatch, b: Dispatch, c: Dispatch)
    ensures SameIdentity(a, a)
    ensures SameIdentity(a, b) ==> SameIdentity(b, a)
    ensures SameIdentity(a, b) && SameIdentity(b, c) ==> SameIdentity(a, c)
  {
    if SameIdentity(a, b) && SameIdentity(b, c) {
      forall i | 0 <= i < |a.inputs| ensures SameInput(a.inputs[i], c.inputs[i]) {
        assert SameInput(a.inputs[i], b.inputs[i]) && SameInput(b.inputs[i], c.inputs[i]);
      }
    }
  }

  /** Letters are told apart by their distance of 32; nothing else is folded. */
  lemma {:induction false} OnlyCaseIsFolded(a: string, b: string)
    ensures EqIgnoreAsciiCase(a, b) <==>
            |a| == |b| && forall i :: 0 <= i < |a| ==>
              || a[i] == b[i]
              || ('A' <= a[i] <= 'Z' && b[i] as int == a[i] as int + 32)
              || ('A' <= b[i] <= 'Z' && a[i] as int == b[i] as int + 32)
  {
    if |a| == |b| {
      forall i | 0 <= i < |a|
        ensures LowerChar(a[i]) == LowerChar(b[i]) <==>
                a[i] == b[i] || ('A' <= a[i] <= 'Z' && b[i] as int == a[i] as int + 32)
                || ('A' <= b[i] <= 'Z' && a[i] as int == b[i] as int + 32)
      {
      }
    }
  }

  /** An input without its link, its hash in lower case. */
  function Canonical(input: Input): Input {
    input.(download := "", sha256 := seq(|input.sha256|, i requires 0 <= i < |input.sha256| => LowerChar(input.sha256[i])))
  }

  /** The command and the links may be new, and hashes may be spelled either way; everything else has to agree. */
  lemma {:induction false} IdentityIgnoresOnly(a: Dispatch, b: Dispatch)
    ensures SameIdentity(a, b) <==>
            && a.(commandId := "", inputs := []) == b.(commandId := "", inputs := [])
            && |a.inputs| == |b.inputs|
            && forall i :: 0 <= i < |a.inputs| ==> Canonical(a.inputs[i]) == Canonical(b.inputs[i])
  {
    forall x: Input, y: Input ensures SameInput(x, y) <==> Canonical(x) == Canonical(y) {
      SameInputIsCanonical(x, y);
    }
    hide SameInput, Canonical;
  }

  lemma {:induction false} SameInputIsCanonical(x: Input, y: Input)
    ensures SameInput(x, y) <==> Canonical(x) == Canonical(y)
  {
    var cx, cy := Canonical(x), Canonical(y);
    if SameInput(x, y) {
      assert cx.sha256 == cy.sha256;
    } else if cx == cy {
      forall i | 0 <= i < |x.sha256| ensures LowerChar(x.sha256[i]) == LowerChar(y.sha256[i]) {
        assert cx.sha256[i] == cy.sha256[i];
      }
    }
  }

  // ----- Operations -----

  function Fresh(dispatch: Dispatch): Record { Record(dispatch, Received, None, 0, None) }

  predicate StaleEvent(sequence: nat, pending: Option<Event>, event: Event) {
    event.sequence < sequence || (event.sequence == sequence && pending != Some(event))
  }

  datatype Op =
    | Upsert(dispatch: Dispatch)
    | Get(jobId: JobId)
    | ListUnfinished
    | SetState(jobId: JobId, state: JobState)
    | SetPromptId(jobId: JobId, promptId: string)
    | SetPending(event: Event, newState: Option<JobState>)
    | ClearPending(jobId: JobId, sequence: nat)

  datatype Reply = Stored(record: Record) | Lookup(found: Option<Record>) | Listing(records: set<Record>) | Done
                 | Refused(error: Error)

  predicate NeedsWork(record: Record) { !record.state.IsTerminal() || record.pending.Some? }

  function Unfinished(records: Records): set<Record> {
    set id | id in records && NeedsWork(records[id]) :: records[id]
  }

  ghost function Upserted(records: Records, dispatch: Dispatch): (Records, Reply) {
    var id := dispatch.jobId;
    if id !in records then (records[id := Fresh(dispatch)], Stored(Fresh(dispatch)))
    else if !SameIdentity(records[id].dispatch, dispatch) then (records, Refused(DispatchConflict(id)))
    else
      var record := if records[id].state.IsTerminal() then records[id] else records[id].(dispatch := dispatch);
      (records[id := record], Stored(record))
  }

  function StateSet(records: Records, id: JobId, state: JobState): (Records, Reply) {
    if id !in records then (records, Refused(NotFound(id)))
    else if !records[id].state.CanTransitionTo(state) then (records, Refused(InvalidTransition(records[id].state, state)))
    else (records[id := records[id].(state := state)], Done)
  }

  function PromptIdSet(records: Records, id: JobId, promptId: string): (Records, Reply) {
    if id !in records then (records, Refused(NotFound(id)))
    else (records[id := records[id].(promptId := Some(promptId))], Done)
  }

  function PendingSet(records: Records, event: Event, state: Option<JobState>): (Records, Reply) {
    var id := event.jobId;
    if id !in records then (records, Refused(NotFound(id)))
    else
      var record := records[id];
      if StaleEvent(record.sequence, record.pending, event) then
        (records, Refused(StaleEventSequence(record.sequence, event.sequence)))
      else if state.Some? && !record.state.CanTransitionTo(state.value) then
        (records, Refused(InvalidTransition(record.state, state.value)))
      else
        (records[id := record.(state := if state.Some? then state.value else record.state,
                               sequence := event.sequence, pending := Some(event))], Done)
  }

  function PendingCleared(records: Records, id: JobId, sequence: nat): (Records, Reply) {
    if id in records && records[id].sequence == sequence then (records[id := records[id].(pending := None)], Done)
    else (records, Done)
  }

  ghost function Apply(records: Records, op: Op): (Records, Reply) {
    match op
    case Upsert(dispatch) => Upserted(records, dispatch)
    case Get(id) => (records, Lookup(if id in records then Some(records[id]) else None))
    case ListUnfinished => (records, Listing(Unfinished(records)))
    case SetState(id, state) => StateSet(records, id, state)
    case SetPromptId(id, promptId) => PromptIdSet(records, id, promptId)
    case SetPending(event, state) => PendingSet(records, event, state)
    case ClearPending(id, sequence) => PendingCleared(records, id, sequence)
  }

  // ----- What a reply tells -----

  /** The job an operation is about. */
  function Subject(op: Op): Option<JobId> {
    match op
    case Upsert(dispatch) => Some(dispatch.jobId)
    case SetState(id, _) => Some(id)
    case SetPromptId(id, _) => Some(id)
    case SetPending(event, _) => Some(event.jobId)
    case ClearPending(id, _) => Some(id)
    case _ => None
  }

  /** A dispatch is stored: as a new job, over the old dispatch of a live one, or not at all once the job ended. */
  ghost predicate StoredMeans(before: Records, after: Records, dispatch: Dispatch, record: Record) {
    var id := dispatch.jobId;
    && id in after && after[id] == record
    && (id !in before ==> record == Record(dispatch, Received, None, 0, None))
    && (id in before ==>
          && SameIdentity(before[id].dispatch, dispatch)
          && record == if before[id].state.IsTerminal() then before[id] else before[id].(dispatch := dispatch))
  }

  /** What was asked for is in the record, and nothing else of it changed. */
  ghost predicate DoneMeans(before: Records, after: Records, op: Op) {
    match op
    case SetState(id, state) =>
      && id in before && before[id].state.CanTransitionTo(state)
      && id in after && after[id].state == state && after[id] == before[id].(state := state)
    case SetPromptId(id, promptId) =>
      id in before && id in after && after[id].promptId == Some(promptId) && after[id] == before[id].(promptId := Some(promptId))
    case SetPending(event, newState) =>
      var id := event.jobId;
      && id in before && id in after
      && (event.sequence > before[id].sequence || (event.sequence == before[id].sequence && before[id].pending == Some(event)))
      && (newState.Some? ==> before[id].state.CanTransitionTo(newState.value))
      && after[id].pending == Some(event) && after[id].sequence == event.sequence
      && after[id].state == (if newState.Some? then newState.value else before[id].state)
      && after[id].dispatch == before[id].dispatch && after[id].promptId == before[id].promptId
    case ClearPending(id, sequence) =>
      if id in before && before[id].sequence == sequence then id in after && after[id] == before[id].(pending := None)
      else after == before
    case _ => false
  }

  /** The first thing that stood in the way, and that nothing changed. */
  ghost predicate RefusalMeans(before: Records, after: Records, op: Op, error: Error) {
    && after == before
    && match error
       case NotFound(id) => Subject(op) == Some(id) && id !in before && !op.Upsert? && !op.ClearPending?
       case DispatchConflict(id) =>
         op.Upsert? && id == op.dispatch.jobId && id in before && !SameIdentity(before[id].dispatch, op.dispatch)
       case StaleEventSequence(current, received) =>
         && op.SetPending? && op.event.jobId in before
         && var record := before[op.event.jobId];
         && current == record.sequence && received == op.event.sequence
         && (received < current || (received == current && record.pending != Some(op.event)))
       case InvalidTransition(current, next) =>
         && (op.SetState? || op.SetPending?) && Subject(op).value in before
         && current == before[Subject(op).value].state && !current.CanTransitionTo(next)
         && (if op.SetState? then next == op.state
             else op.newState == Some(next) && !StaleEvent(before[op.event.jobId].sequence, before[op.event.jobId].pending, op.event))
       case InvalidState(_) => false
  }

  /** Every operation, by its reply; no operation touches another job's record. */
  lemma {:induction false} RepliesTellTheTruth(records: Records, op: Op)
    ensures var (after, reply) := Apply(records, op);
            && (forall id :: Subject(op) != Some(id) ==> SameEntry(records, after, id))
            && match reply
               case Stored(record) => op.Upsert? && StoredMeans(records, after, op.dispatch, record)
               case Lookup(found) =>
                 after == records && op.Get? && found == if op.jobId in records then Some(records[op.jobId]) else None
               case Listing(listed) =>
                 && after == records && op.ListUnfinished?
                 && forall record :: record in listed <==>
                      exists id :: id in records && records[id] == record && (!record.state.IsTerminal() || record.pending.Some?)
               case Done => DoneMeans(records, after, op)
               case Refused(error) => RefusalMeans(records, after, op, error)
  {
    hide SameIdentity;
  }

  // ----- Invariant -----

  /** A record belongs to its job, and its pending event is the current one. */
  ghost predicate RecordOk(id: JobId, record: Record) {
    && record.dispatch.jobId == id
    && (record.pending.Some? ==> record.pending.value.jobId == id && record.pending.value.sequence == record.sequence)
  }

  ghost predicate Inv(records: Records) {
    forall id :: id in records ==> RecordOk(id, records[id])
  }

  /** What one operation may do to one record. */
  ghost predicate Evolves(before: Record, after: Record, op: Op) {
    && before.state.CanTransitionTo(after.state)
    && before.sequence <= after.sequence
    && SameIdentity(before.dispatch, after.dispatch)
    && (before.state.IsTerminal() ==> after.dispatch == before.dispatch)
    && (before.pending.Some? && after.pending != before.pending ==> Displaces(op, before.pending.value))
  }

  /** The only ways an undelivered event goes away: its own acknowledgement, or a later event. */
  predicate Displaces(op: Op, event: Event) {
    || op == ClearPending(event.jobId, event.sequence)
    || (op.SetPending? && op.event.jobId == event.jobId && op.event.sequence > event.sequence)
  }

  lemma {:induction false} StepKeepsInv(records: Records, op: Op)
    requires Inv(records)
    ensures Inv(Apply(records, op).0)
  {
    hide SameIdentity;
  }

  lemma {:induction false} StepEvolves(records: Records, op: Op, id: JobId)
    requires Inv(records) && id in records
    ensures var records' := Apply(records, op).0; id in records' && Evolves(records[id], records'[id], op)
  {
    IdentityIsAnEquivalence(records[id].dispatch, records[id].dispatch, records[id].dispatch);
    hide SameIdentity;
    assert RecordOk(id, records[id]);
  }

  // ----- Every run -----

  ghost function After(records: Records, ops: seq<Op>): Records {
    if ops == [] then records else Apply(After(records, ops[..|ops| - 1]), ops[|ops| - 1]).0
  }

  lemma {:induction false} RunKeepsInv(records: Records, ops: seq<Op>)
    requires Inv(records)
    ensures Inv(After(records, ops))
  {
    if ops != [] {
      RunKeepsInv(records, ops[..|ops| - 1]);
      StepKeepsInv(After(records, ops[..|ops| - 1]), ops[|ops| - 1]);
    }
  }

  /** The states a job goes through during a run. */
  ghost function StatesOf(records: Records, ops: seq<Op>, id: JobId): (states: seq<JobState>)
    requires id in records && Inv(records)
    ensures |states| == |ops| + 1 && states[0] == records[id].state
    ensures id in After(records, ops) && states[|ops|] == After(records, ops)[id].state
    decreases |ops|
  {
    if ops == [] then [records[id].state]
    else
      var before := ops[..|ops| - 1];
      var states := StatesOf(records, before, id);
      RunKeepsInv(records, before);
      StepEvolves(After(records, before), ops[|ops| - 1], id);
      states + [After(records, ops)[id].state]
  }

  /**
   Over every run a job's states are a walk along the allowed transitions, its
   sequence never falls, and redispatches keep its identity; once terminal,
   neither its state nor its dispatch changes again.
   */
  lemma {:induction false} RunsEvolve(records: Records, ops: seq<Op>, id: JobId)
    requires Inv(records) && id in records
    ensures var records' := After(records, ops);
            && id in records' && Walk(StatesOf(records, ops, id))
            && records[id].sequence <= records'[id].sequence
            && SameIdentity(records[id].dispatch, records'[id].dispatch)
            && (records[id].state.IsTerminal() ==>
                  records'[id].state == records[id].state && records'[id].dispatch == records[id].dispatch)
  {
    if ops == [] {
      IdentityIsAnEquivalence(records[id].dispatch, records[id].dispatch, records[id].dispatch);
    } else {
      var before, last := ops[..|ops| - 1], ops[|ops| - 1];
      var middle := After(records, before);
      RunsEvolve(records, before, id);
      RunKeepsInv(records, before);
      StepEvolves(middle, last, id);
      IdentityIsAnEquivalence(records[id].dispatch, middle[id].dispatch, After(records, ops)[id].dispatch);
    }
  }

  /** An event waits for delivery until it is acknowledged or a later event replaces it. */
  lemma {:induction false} PendingUntilDisplaced(records: Records, ops: seq<Op>, id: JobId)
    requires Inv(records) && id in records && records[id].pending.Some?
    requires forall k :: 0 <= k < |ops| ==> !Displaces(ops[k], records[id].pending.value)
    ensures id in After(records, ops) && After(records, ops)[id].pending == records[id].pending
  {
    if ops != [] {
      var before, last := ops[..|ops| - 1], ops[|ops| - 1];
      PendingUntilDisplaced(records, before, id);
      RunKeepsInv(records, before);
      StepEvolves(After(records, before), last, id);
      assert last == ops[|ops| - 1];
    }
  }

  /** An event that was accepted is still there, and listed, after any operations none of which displaces it. */
  lemma {:induction false} AcceptedEventWaits(records: Records, event: Event, state: Option<JobState>, ops: seq<Op>)
    requires Inv(records) && Apply(records, SetPending(event, state)).1 == Done
    requires forall k :: 0 <= k < |ops| ==> !Displaces(ops[k], event)
    ensures var records' := After(Apply(records, SetPending(event, state)).0, ops);
            && event.jobId in records' && records'[event.jobId].pending == Some(event)
            && records'[event.jobId] in Unfinished(records')
  {
    var op := SetPending(event, state);
    StepKeepsInv(records, op);
    RepliesTellTheTruth(records, op);
    hide Apply, Inv;
    PendingUntilDisplaced(Apply(records, op).0, ops, event.jobId);
  }
}
