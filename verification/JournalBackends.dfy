/**
 The two journal backends in place: records in a shared map, and rows of a
 SQLite table whose state is text and whose sequence is a signed 64-bit column.
 */
module JournalBackends {
  import opened Collections
  import opened JobStates
  import opened Journal

  // ----- In memory -----

  class MemoryJournal {
    var records: Records

    constructor ()
      ensures records == map[]
    {
      records := map[];
    }

    method Upsert(dispatch: Dispatch) returns (reply: Reply)
      modifies this
      ensures (records, reply) == Upserted(old(records), dispatch)
    {
      if dispatch.jobId in records {
        var record := records[dispatch.jobId];
        var same := CompareIdentity(record.dispatch, dispatch);
        if !same {
          return Refused(DispatchConflict(dispatch.jobId));
        }
        if !record.state.IsTerminal() {
          record := record.(dispatch := dispatch);
        }
        records := records[dispatch.jobId := record];
        return Stored(record);
      }
      records := records[dispatch.jobId := Fresh(dispatch)];
      return Stored(Fresh(dispatch));
    }

    method Lookup(id: JobId) returns (found: Option<Record>)
      ensures found == if id in records then Some(records[id]) else None
    {
      return if id in records then Some(records[id]) else None;
    }

    method List() returns (listed: set<Record>)
      ensures listed == Unfinished(records)
    {
      listed := {};
      var pending := records.Keys;
      while pending != {}
        invariant pending <= records.Keys
        invariant listed == Unfinished(records - pending)
        decreases pending
      {
        var id :| id in pending;
        ghost var before := records - pending;
        pending := pending - {id};
        assert records - pending == before[id := records[id]];
        UnfinishedGrows(before, id, records[id]);
        if NeedsWork(records[id]) {
          listed := listed + {records[id]};
        }
      }
      assert records - {} == records;
    }

    method SetState(id: JobId, state: JobState) returns (reply: Reply)
      modifies this
      ensures (records, reply) == StateSet(old(records), id, state)
    {
      if id !in records {
        return Refused(NotFound(id));
      }
      var current := records[id].state;
      if !current.CanTransitionTo(state) {
        return Refused(InvalidTransition(current, state));
      }
      records := records[id := records[id].(state := state)];
      return Done;
    }

    method SetPromptId(id: JobId, promptId: string) returns (reply: Reply)
      modifies this
      ensures (records, reply) == PromptIdSet(old(records), id, promptId)
    {
      if id !in records {
        return Refused(NotFound(id));
      }
      records := records[id := records[id].(promptId := Some(promptId))];
      return Done;
    }

    method SetPending(event: Event, state: Option<JobState>) returns (reply: Reply)
      modifies this
      ensures (records, reply) == PendingSet(old(records), event, state)
      ensures reply == Done ==>
                event.jobId in records && records[event.jobId].pending == Some(event) && records[event.jobId].sequence == event.sequence
    {
      if event.jobId !in records {
        return Refused(NotFound(event.jobId));
      }
      var record := records[event.jobId];
      if StaleEvent(record.sequence, record.pending, event) {
        return Refused(StaleEventSequence(record.sequence, event.sequence));
      }
      if state.Some? {
        if !record.state.CanTransitionTo(state.value) {
          return Refused(InvalidTransition(record.state, state.value));
        }
        record := record.(state := state.value);
      }
      record := record.(sequence := event.sequence);
      record := record.(pending := Some(event));
      records := records[event.jobId := record];
      return Done;
    }

    method ClearPending(id: JobId, sequence: nat) returns (reply: Reply)
      modifies this
      ensures (records, reply) == PendingCleared(old(records), id, sequence)
    {
      if id in records && records[id].sequence == sequence {
        records := records[id := records[id].(pending := None)];
      }
      return Done;
    }

    method Serve(op: Op) returns (reply: Reply)
      modifies this
      ensures (records, reply) == Apply(old(records), op)
    {
      match op
      case Upsert(dispatch) => reply := Upsert(dispatch);
      case Get(id) =>
        var found := Lookup(id);
        reply := Reply.Lookup(found);
      case ListUnfinished =>
        var listed := List();
        reply := Listing(listed);
      case SetState(id, state) => reply := SetState(id, state);
      case SetPromptId(id, promptId) => reply := SetPromptId(id, promptId);
      case SetPending(event, state) => reply := SetPending(event, state);
      case ClearPending(id, sequence) => reply := ClearPending(id, sequence);
    }
  }

  /** Identity is compared input by input, hashes without regard to letter case. */
  method CompareIdentity(a: Dispatch, b: Dispatch) returns (same: bool)
    ensures same == SameIdentity(a, b)
  {
    if a.jobId != b.jobId || a.attempt != b.attempt || a.workflowId != b.workflowId
       || a.workflowVersion != b.workflowVersion || a.parameters != b.parameters || |a.inputs| != |b.inputs| {
      return false;
    }
    for i := 0 to |a.inputs|
      invariant forall j :: 0 <= j < i ==> SameInput(a.inputs[j], b.inputs[j])
    {
      var left, right := a.inputs[i], b.inputs[i];
      var hashes := CompareIgnoringCase(left.sha256, right.sha256);
      if left.artifactId != right.artifactId || left.name != right.name || left.contentType != right.contentType
         || left.sizeBytes != right.sizeBytes || !hashes {
        assert !SameInput(a.inputs[i], b.inputs[i]);
        return false;
      }
    }
    return true;
  }

  method CompareIgnoringCase(a: string, b: string) returns (same: bool)
    ensures same == EqIgnoreAsciiCase(a, b)
  {
    if |a| != |b| {
      return false;
    }
    for i := 0 to |a|
      invariant forall j :: 0 <= j < i ==> LowerChar(a[j]) == LowerChar(b[j])
    {
      if LowerChar(a[i]) != LowerChar(b[i]) {
        return false;
      }
    }
    return true;
  }

  lemma {:induction false} UnfinishedGrows(records: Records, id: JobId, record: Record)
    requires id !in records
    ensures Unfinished(records[id := record]) == Unfinished(records) + if NeedsWork(record) then {record} else {}
  {
    var grown := records[id := record];
    forall r | r in Unfinished(records) ensures r in Unfinished(grown) {
      var j :| j in records && NeedsWork(records[j]) && records[j] == r;
      assert grown[j] == r;
    }
    assert grown[id] == record;
  }

  // ----- SQLite -----

  const I64_MAX: int := 0x7fff_ffff_ffff_ffff

  /** `i64::try_from(x).unwrap_or(i64::MAX)`. */
  function Saturated(sequence: nat): int { if sequence <= I64_MAX then sequence else I64_MAX }

  datatype Row = Row(
    dispatch: Dispatch, state: string, promptId: Option<string>, sequence: int, pending: Option<Event>, updatedAt: int)

  type Rows = map<JobId, Row>

  function Unsigned(sequence: int): nat { if sequence < 0 then 0 else sequence }

  function DecodeJob(row: Row): Result<Record, Error> {
    match ParseState(row.state)
    case None => Err(InvalidState(row.state))
    case Some(state) => Ok(Record(row.dispatch, state, row.promptId, Unsigned(row.sequence), row.pending))
  }

  /** Rows this code writes: known states, sequences within the column. */
  predicate RowOk(row: Row) { ParseState(row.state).Some? && 0 <= row.sequence <= I64_MAX }

  ghost predicate RowsOk(rows: Rows) { forall id :: id in rows ==> RowOk(rows[id]) }

  /** The records the table stands for. */
  ghost function Abs(rows: Rows): (records: Records)
    requires RowsOk(rows)
    ensures records.Keys == rows.Keys
    ensures forall id :: id in rows ==> DecodeJob(rows[id]) == Ok(records[id])
  {
    map id | id in rows :: DecodeJob(rows[id]).value
  }

  /** A row whose state text no state owns: reading it fails. */
  predicate Unreadable(rows: Rows, id: JobId) { id in rows && ParseState(rows[id].state).None? }

  /** The event or acknowledgement of an operation fits the sequence column. */
  predicate Fits(op: Op) {
    && (op.SetPending? ==> op.event.sequence <= I64_MAX)
    && (op.ClearPending? ==> op.sequence <= I64_MAX)
  }

  class SqliteJournal {
    var rows: Rows

    ghost predicate Valid()
      reads this
    {
      RowsOk(rows)
    }

    constructor ()
      ensures Valid() && rows == map[]
    {
      rows := map[];
    }

    method Upsert(dispatch: Dispatch, now: int) returns (reply: Reply)
      modifies this
      ensures old(Valid()) ==> Valid() && (Abs(rows), reply) == Upserted(old(Abs(rows)), dispatch)
      ensures old(Unreadable(rows, dispatch.jobId)) ==>
                rows == old(rows) && reply == Refused(InvalidState(rows[dispatch.jobId].state))
    {
      var id := dispatch.jobId;
      ghost var before := rows;
      if id in rows {
        var decoded := DecodeJob(rows[id]);
        if decoded.Err? {
          return Refused(decoded.error);
        }
        var record := decoded.value;
        var same := CompareIdentity(record.dispatch, dispatch);
        if !same {
          return Refused(DispatchConflict(id));
        }
        if !record.state.IsTerminal() {
          rows := rows[id := rows[id].(dispatch := dispatch, updatedAt := now)];
          record := record.(dispatch := dispatch);
        }
        RowWritten(before, rows, id);
        return Stored(record);
      }
      StateNamesRoundTrip(Received);
      rows := rows[id := Row(dispatch, "received", None, 0, None, now)];
      RowWritten(before, rows, id);
      return Stored(Fresh(dispatch));
    }

    method Lookup(id: JobId) returns (reply: Reply)
      ensures Valid() ==> reply == Apply(Abs(rows), Get(id)).1
      ensures Unreadable(rows, id) ==> reply == Refused(InvalidState(rows[id].state))
    {
      if id !in rows {
        return Reply.Lookup(None);
      }
      var decoded := DecodeJob(rows[id]);
      if decoded.Err? {
        return Refused(decoded.error);
      }
      return Reply.Lookup(Some(decoded.value));
    }

    /** One unreadable row fails the whole listing. */
    method List() returns (reply: Reply)
      ensures Valid() ==> reply == Listing(Unfinished(Abs(rows)))
      ensures reply.Refused? <==> exists id :: Unreadable(rows, id)
    {
      var listed := {};
      var pending := rows.Keys;
      while pending != {}
        invariant pending <= rows.Keys
        invariant forall id :: id in rows && id !in pending ==> !Unreadable(rows, id)
        invariant Valid() ==> listed == Unfinished(Abs(rows) - pending)
        decreases pending
      {
        var id :| id in pending;
        var row := rows[id];
        if row.state !in {"completed", "failed", "cancelled"} || row.pending.Some? {
          var decoded := DecodeJob(row);
          if decoded.Err? {
            assert Unreadable(rows, id);
            return Refused(decoded.error);
          }
          listed := listed + {decoded.value};
        } else { TerminalTextIsReadable(row); }
        if Valid() {
          ghost var before := Abs(rows) - pending;
          assert Abs(rows) - (pending - {id}) == before[id := Abs(rows)[id]];
          UnfinishedGrows(before, id, Abs(rows)[id]);
          SelectedByText(row);
        }
        pending := pending - {id};
      }
      if Valid() { assert Abs(rows) - {} == Abs(rows); }
      return Listing(listed);
    }

    method SetState(id: JobId, state: JobState, now: int) returns (reply: Reply)
      modifies this
      ensures old(Valid()) ==> Valid() && (Abs(rows), reply) == StateSet(old(Abs(rows)), id, state)
      ensures old(Unreadable(rows, id)) ==> rows == old(rows) && reply == Refused(InvalidState(rows[id].state))
    {
      ghost var before := rows;
      if id !in rows {
        return Refused(NotFound(id));
      }
      var current := ParseState(rows[id].state);
      if current.None? {
        return Refused(InvalidState(rows[id].state));
      }
      if !current.value.CanTransitionTo(state) {
        return Refused(InvalidTransition(current.value, state));
      }
      StateNamesRoundTrip(state);
      rows := rows[id := rows[id].(state := StateStr(state), updatedAt := now)];
      RowWritten(before, rows, id);
      return Done;
    }

    method SetPromptId(id: JobId, promptId: string, now: int) returns (reply: Reply)
      modifies this
      ensures old(Valid()) ==> Valid() && (Abs(rows), reply) == PromptIdSet(old(Abs(rows)), id, promptId)
    {
      ghost var before := rows;
      if id !in rows {
        return Refused(NotFound(id));
      }
      rows := rows[id := rows[id].(promptId := Some(promptId), updatedAt := now)];
      RowWritten(before, rows, id);
      return Done;
    }

    /** The stored sequence saturates, so an accepted event keeps the record exactly when it fits. */
    method SetPending(event: Event, state: Option<JobState>, now: int) returns (reply: Reply)
      modifies this
      ensures old(Valid()) ==>
                && Valid() && reply == PendingSet(old(Abs(rows)), event, state).1
                && var (records, answer) := PendingSet(old(Abs(rows)), event, state);
                && (Abs(rows) == records <==> event.sequence <= I64_MAX || answer.Refused?)
      ensures reply == Done ==>
                && event.jobId in rows && rows[event.jobId].pending == Some(event)
                && rows[event.jobId].sequence == (if event.sequence <= I64_MAX then event.sequence else I64_MAX)
                && (state.Some? ==> rows[event.jobId].state == StateStr(state.value))
      ensures reply.Refused? ==> rows == old(rows)
      ensures old(Unreadable(rows, event.jobId)) ==>
                rows == old(rows) && reply == Refused(InvalidState(rows[event.jobId].state))
    {
      var id := event.jobId;
      ghost var before := rows;
      if id !in rows {
        return Refused(NotFound(id));
      }
      var row := rows[id];
      var current := ParseState(row.state);
      if current.None? {
        return Refused(InvalidState(row.state));
      }
      if StaleEvent(Unsigned(row.sequence), row.pending, event) {
        return Refused(StaleEventSequence(Unsigned(row.sequence), event.sequence));
      }
      row := row.(sequence := Saturated(event.sequence), pending := Some(event), updatedAt := now);
      if state.Some? {
        if !current.value.CanTransitionTo(state.value) {
          return Refused(InvalidTransition(current.value, state.value));
        }
        StateNamesRoundTrip(state.value);
        row := row.(state := StateStr(state.value));
      }
      rows := rows[id := row];
      RowWritten(before, rows, id);
      if Valid() { assert Abs(rows)[id].sequence == Saturated(event.sequence); }
      return Done;
    }

    /** The acknowledged sequence saturates too, and then may hit a record it does not belong to. */
    method ClearPending(id: JobId, sequence: nat, now: int) returns (reply: Reply)
      modifies this
      ensures reply == Done
      ensures old(Valid()) ==>
                && Valid()
                && var records := PendingCleared(old(Abs(rows)), id, sequence).0;
                && var hits := old(id in rows && rows[id].sequence == I64_MAX && rows[id].pending.Some?);
                && (Abs(rows) == records <==> sequence <= I64_MAX || !hits)
    {
      ghost var before := rows;
      if id in rows && rows[id].sequence == Saturated(sequence) {
        rows := rows[id := rows[id].(pending := None, updatedAt := now)];
        RowWritten(before, rows, id);
        if Valid() { assert Abs(rows)[id].pending == None; }
      }
      return Done;
    }

    method Serve(op: Op, now: int) returns (reply: Reply)
      requires Valid() && Fits(op)
      modifies this
      ensures Valid() && (Abs(rows), reply) == Apply(old(Abs(rows)), op)
    {
      match op
      case Upsert(dispatch) => reply := Upsert(dispatch, now);
      case Get(id) => reply := Lookup(id);
      case ListUnfinished => reply := List();
      case SetState(id, state) => reply := SetState(id, state, now);
      case SetPromptId(id, promptId) => reply := SetPromptId(id, promptId, now);
      case SetPending(event, state) => reply := SetPending(event, state, now);
      case ClearPending(id, sequence) => reply := ClearPending(id, sequence, now);
    }
  }

  /** Writing one readable row writes one record. */
  lemma {:induction false} RowWritten(before: Rows, after: Rows, id: JobId)
    requires id in after && after == before[id := after[id]]
    ensures RowsOk(before) && RowOk(after[id]) ==>
              RowsOk(after) && Abs(after) == Abs(before)[id := DecodeJob(after[id]).value]
  {
  }

  lemma {:induction false} TerminalTextIsReadable(row: Row)
    requires row.state in {"completed", "failed", "cancelled"}
    ensures ParseState(row.state).Some?
  {
    StateNamesRoundTrip(Completed);
    StateNamesRoundTrip(JobState.Failed);
    StateNamesRoundTrip(Cancelled);
  }

  /**
   Both backends, given the same operations, give the same replies and keep the
   same records, as long as every sequence fits the column.
   */
  method ServeBoth(memory: MemoryJournal, sqlite: SqliteJournal, ops: seq<Op>, times: seq<int>)
    returns (fromMemory: seq<Reply>, fromSqlite: seq<Reply>)
    requires sqlite.Valid() && Abs(sqlite.rows) == memory.records
    requires |times| == |ops| && forall k :: 0 <= k < |ops| ==> Fits(ops[k])
    modifies memory, sqlite
    ensures |fromMemory| == |ops| && fromMemory == fromSqlite
    ensures sqlite.Valid() && Abs(sqlite.rows) == memory.records == After(old(memory.records), ops)
  {
    fromMemory, fromSqlite := [], [];
    for k := 0 to |ops|
      invariant |fromMemory| == k && fromMemory == fromSqlite
      invariant sqlite.Valid() && Abs(sqlite.rows) == memory.records == After(old(memory.records), ops[..k])
    {
      assert ops[..k + 1][..k] == ops[..k];
      var a := memory.Serve(ops[k]);
      var b := sqlite.Serve(ops[k], times[k]);
      fromMemory, fromSqlite := fromMemory + [a], fromSqlite + [b];
    }
    assert ops[..|ops|] == ops;
  }

  /** The query's text comparison picks the rows that need work. */
  lemma {:induction false} SelectedByText(row: Row)
    requires RowOk(row)
    ensures NeedsWork(DecodeJob(row).value)
            <==> row.state !in {"completed", "failed", "cancelled"} || row.pending.Some?
  {
    StateNamesRoundTrip(Completed);
    StateNamesRoundTrip(JobState.Failed);
    StateNamesRoundTrip(Cancelled);
  }
}
