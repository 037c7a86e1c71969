# NagisaLake verification model

A Dafny model of the parts of NagisaLake whose correctness spans several
functions or several tasks, with proofs about every input and every run.
`dafny verify dfyconfig.toml` checks all of it.

What is modelled, by subsystem:

- **The multiplexed RPC runtime.** `RpcWire` has the frame layouts, `RpcFraming`
  the read and write loops. `RpcClient` is the client side as a step system:
  callers, `ResponseGuard` drops, dispatcher. `RpcServer` is the supervisor and
  its handler tasks. `RpcSystem` joins the two by FIFO channels and proves that a
  caller only ever gets the reply to its own request. `RpcDispatcher` and
  `RpcSupervisor` are the select arms and drain loops in place, each proved to be
  the corresponding step. `RpcOrder` says that calls do not overtake each other,
  `RpcTracking` when the server's abort table can be trusted, and `RpcLink` puts the
  protocol's messages into frames and says which fit.
- **The rate limiter.** `TokenBucket` is one bucket over real time,
  `LimiterShard` the shard with its lazily cleaned recency queue, proved equal to
  an exact least-recently-checked table.
- **The newline JSON codec.** `LineCodec`: the resuming scan against a split of the
  whole stream.
- **The hub store.** `HubTables` and `HubStore` have the tables and transactions and
  quota conservation, `HubPeriod` the period quota in real time and `HubPeriodEdge`
  how far its bound goes, `HubDispatch` the dispatch of batch children.
  `HubIdempotency` has concurrent submissions and the reconciliation statement by
  statement, `HubReconcile` quota and `HubInterleaving` dispatch and period quota
  under every such interleaving. `HubTransactions` has the transactions in place.
- **The worker.** `JobStates` and `Journal` have the state machine and the journal
  contract, `JournalBackends` the in-memory and SQLite backends, `WorkerBus` the
  registry and heartbeat counters, `WorkerRunner` one run of a job.
- **The agent supervisor.** `AgentRun`: the event stream and its one terminal event.

Concurrency is modelled as steps. In the RPC runtime, the worker's counters and the
agent supervisor every await or atomic operation is a point where other participants
may step. In the hub store, submissions and the quota reconciliation are split at the
statements between which other transactions may commit, under read-committed
isolation; the other transactions are one step each, because what they write they
write conditionally or relative to the row at that moment. A theorem over `Run` or
`After` holds for every sequence of steps that was possible. Time is a parameter.
`real` stands for the limiter's tokens and `int` or `nat` for integers, with
saturation written out where a proof turns on it.

Some things the code's own comments or documentation suggest turn out false, and the
model follows the code and proves exactly when they hold:

- Waiting for the `Retry-After` hint is not always enough, because it is rounded
  down (`TokenBucket.HintSufficesIff`, `TokenBucket.HintCanBeTooShort`).
- Idle eviction is invisible only for quotas that refill within the idle time
  (`TokenBucket.EvictionUnobservableIff`).
- The SQLite journal has the same contract as the in-memory one only for sequences
  that fit a signed 64-bit column (`JournalBackends.SqliteJournal.SetPending` and
  `ClearPending`).
- A job run does not always end in a terminal state. Once the announcement of its
  uploads is in the journal, a cancellation before the acknowledgement makes it try an
  illegal transition and give up. A failing journal write at the end leaves it
  unfinished too. `WorkerRunner.Runner.Execute` has the exact condition,
  `WorkerRunner.StrandedRun` is such a run.
- Reconciliation counts an organization's jobs, may wait for its usage row, and then
  writes what it counted. A job submitted in between is lost from the counter
  (`HubReconcile.ReconciliationCanLoseAJob`,
  `HubReconcile.SubmissionInBetweenBreaksTheCount`). The counters are right afterwards
  exactly if no count was disturbed (`HubReconcile.CommitConservesIff`): an
  organization that keeps jobs has as many when the counter is written as when they
  were counted, or none, which the second statement repairs; one that keeps none still
  has none then and when the second statement writes. A schedule in which nobody
  changes jobs of such an organization between count and commit is enough
  (`HubReconcile.ApartSchedulesConserveQuota`).
- The period quota does not bound a period as a whole by twice the limit: a submission
  reads the clock before it waits for its turn, so times arrive out of order. If none
  is more than `lag` behind, the bound holds for a stretch shorter than the period by
  twice the lag (`HubPeriod.AnyPeriodIsBounded`) and for no longer one
  (`HubPeriodEdge.TheBoundIsTight`).
- A conditional job update or an event conserves quota only if it does not revive an
  ended job, and a batch only if it states its size honestly
  (`HubStore.UpdateConservesIff`, `HubStore.EventConservesIff`,
  `HubStore.CommitBatchConservesIff`).
- The server's abort table can lose a live handler when an id comes back too early
  (`RpcServer.ReusedIdLosesItsEntry`). Admitting a request is safe exactly if no task
  still in the join set may return its id (`RpcTracking.AdmissionIsSafeIff`), and
  reaping loses a handler exactly if the reaped task returned an id that is now
  another live one's (`RpcTracking.JoinKeepsTrackingIff`). This client never reuses
  an id (`RpcSystem.ServerSeesFreshIds`).
- An oversized response body fails its own call, but an error message longer than a
  response body may be ends the connection for every call
  (`RpcLink.LongErrorDoesNotFit`; which results fit is `RpcLink.ReplyFitsIff` and
  `RpcLink.OnlyWordsCanFail`).
- The client's size test keeps a request within its frame only if a frame can hold the
  request header at all, which the configuration check does not ask
  (`RpcLink.SizeTestDecides`).
- Reconciliation fails queued jobs, a step `can_transition_to` does not allow
  (`HubStore.JobsOnlyAdvance`), and leaves the queue rows of batch children behind
  (`HubDispatch.FailedChildKeepsItsRow`): a child has its row exactly until it is bound
  or cancelled, not while it is queued (`HubDispatch.ChildrenAreDispatchedOnce`).

What is assumed of callers that are not modelled: hub updates follow
`can_transition_to`, new jobs are live and belong to no batch, `total_jobs` is the
number of children, and an idempotency key belongs to the organization of its job.
These are the predicate `HubStore.Lawful` and the shape of `HubStore.Idempotency`.

## Model

| member | source | states |
|---|---|---|
| RpcWire.CodeFromWire | crates/nagisalake-rpc/src/status.rs:50-68 | a parsed status byte is the wire byte of the returned code; a refused byte belongs to no code; exactly 1 to 10, 13, 14 and 16 are codes |
| RpcWire.ClientRoundTrip | crates/nagisalake-rpc/src/protocol.rs:88-192 | every client frame survives encoding and parsing, and its payload has the announced length |
| RpcWire.ServerRoundTrip | crates/nagisalake-rpc/src/protocol.rs:119-218 | the same for server frames, with and without a status code |
| RpcWire.ClientLayout | crates/nagisalake-rpc/src/protocol.rs:88-117 | where every field of a client frame lies, its numbers by the weight of each byte |
| RpcWire.ServerLayout | crates/nagisalake-rpc/src/protocol.rs:119-160 | the same for responses; the status byte is zero exactly on success |
| RpcWire.ClientAcceptsCanonicalPayloads | crates/nagisalake-rpc/src/protocol.rs:165-192 | re-encoding an accepted client payload gives it back if and only if it is not a cancel with bytes after its id |
| RpcWire.ServerAcceptsOnlyCanonicalPayloads | crates/nagisalake-rpc/src/protocol.rs:194-218 | an accepted response payload is the encoding of the frame it parses to |
| RpcFraming.ProtocolsAreLawful | crates/nagisalake-rpc/src/protocol.rs:88-218 | both frame types meet what the framing layer needs of them: length, header bound, round trip |
| RpcFraming.TakeFrameIsDecodesStep | crates/nagisalake-rpc/src/framing.rs:101-127 | cutting one frame off a buffer agrees with decoding buffer and later bytes together, in every case: too short, oversized, malformed, whole |
| RpcFraming.EventsExplainBytes | crates/nagisalake-rpc/src/framing.rs:42-127 | for any bytes, what the events say of them: the payloads in front, parsed, and by the last event whether the bytes were used up, ended inside a frame, announced too much, did not parse, or could not be read |
| RpcFraming.ReadFrames | crates/nagisalake-rpc/src/framing.rs:42-98 | for every byte stream, valid or not, and every chunking of it, the events are those of decoding the whole stream at once, up to a dropped receiver; so a clean close means that the frames have used up every byte, and any other end says why |
| RpcFraming.PutFrame | crates/nagisalake-rpc/src/framing.rs:149-172 | one frame is batched or written past the batch as the size rule says, in order, within the buffer bound |
| RpcFraming.FillBatch | crates/nagisalake-rpc/src/framing.rs:145-181 | the inner loop keeps wire plus batch equal to the encoding of the frames taken |
| RpcFraming.WriteFrames | crates/nagisalake-rpc/src/framing.rs:130-202 | completion writes exactly the concatenated prefixed frames; an oversized frame ends the loop after whole frames, losing less than a batch; a failed write leaves a prefix, a failed flush whole frames, a failed shutdown everything; the batch buffer stays below 2*max_batch_bytes + 37 |
| RpcFraming.DecodeEncoded | crates/nagisalake-rpc/src/framing.rs:42-202 | decoding any encoded frames and any later bytes gives those frames and then the later bytes' events |
| RpcFraming.BatchingAndChunkingAreInvisible | crates/nagisalake-rpc/src/framing.rs:42-202 | what a completed write loop wrote, cut into any non-empty chunks, is read back as the same frames in order and then Closed |
| RpcFraming.CutStreamDeliversWholeFrames | crates/nagisalake-rpc/src/framing.rs:50-98 | a stream cut anywhere yields exactly the frames that lie whole before the cut and one last event: closed if and only if it ended at a frame's end, ended inside a frame if and only if it did, failed if and only if the read failed |
| RpcClient.StepKeepsInv | crates/nagisalake-rpc/src/client.rs:246-532 | every step of callers, guards and dispatcher keeps the connection invariant |
| RpcClient.AbandonedCallsAreCancelled | crates/nagisalake-rpc/src/client.rs:306-334 | in every run a tracked call whose receiver was abandoned has its cancellation queued or about to be sent; with the queue drained, none is tracked |
| RpcClient.FramesAreWellOrdered | crates/nagisalake-rpc/src/client.rs:434-506 | in every run the frames of one id are nothing, its request, or its request and then one cancel, and the request carries the call's own body |
| RpcClient.InFlightIsBoundedAndTimed | crates/nagisalake-rpc/src/client.rs:420-506 | in every run the in-flight ids are the ids in the deadline queue, and at most max_in_flight_requests |
| RpcClient.AnswersAreFinal | crates/nagisalake-rpc/src/client.rs:473-506 | a call's slot, once filled or without its sender, never changes again |
| RpcClient.AnswerHasACause | crates/nagisalake-rpc/src/client.rs:434-530 | in every run a reply answers a call only when its response arrives, a missed deadline only when its timer fires or no time is left at admission, a lost connection only by the drain |
| RpcOrder.NobodyOvertakes | crates/nagisalake-rpc/src/client.rs:434-461 | in every run the calls sent, the one just pulled and those queued are, in this order, among those that were queued |
| RpcClient.EndedAnswersEveryone | crates/nagisalake-rpc/src/client.rs:517-532 | when the dispatcher is gone, every call has an answer or has lost its sender, or was never queued and is refused now |
| RpcDispatcher.RequestArmKeepsInv | crates/nagisalake-rpc/src/client.rs:434-461 | the request arm is a pull and, unless the call was abandoned, an admission, and keeps the invariant |
| RpcDispatcher.TerminatedAnswersEveryone | crates/nagisalake-rpc/src/client.rs:517-530 | the terminal drain is a run of the protocol's steps and leaves no queued or in-flight call unanswered |
| RpcDispatcher.Dispatcher.OnRequest | crates/nagisalake-rpc/src/client.rs:434-461 | a call nobody waits for is skipped and an expired one answered, both leaving the tables and the wire alone; any other is tracked, timed and sent; no other slot changes, at most max_in_flight_requests are in flight, and the invariant is kept |
| RpcDispatcher.Dispatcher.OnCancellation | crates/nagisalake-rpc/src/client.rs:462-472 | the cancelled id is in flight no more, a cancel frame goes out exactly if it was, no other call's slot changes, and the invariant is kept |
| RpcDispatcher.Dispatcher.OnResponse | crates/nagisalake-rpc/src/client.rs:473-485 | a tracked call gets exactly this reply and is in flight no more, no other call's slot changes, a response nobody waits for changes nothing, and the invariant is kept |
| RpcDispatcher.Dispatcher.OnExpired | crates/nagisalake-rpc/src/client.rs:494-506 | under the invariant the expired call is answered with its deadline and cancelled on the wire, the ids in flight are still those with a deadline, and the invariant is kept |
| RpcDispatcher.Dispatcher.FailInFlight | crates/nagisalake-rpc/src/client.rs:522-524 | the drain loop answers exactly the tracked calls with the connection's failure and leaves every other slot alone |
| RpcDispatcher.Dispatcher.FailQueue | crates/nagisalake-rpc/src/client.rs:525-528 | the queue loop answers exactly the queued requests with the connection's failure |
| RpcDispatcher.Dispatcher.Terminate | crates/nagisalake-rpc/src/client.rs:517-530 | both loops together are the terminal drain, and afterwards no submitted call is open |
| RpcServer.StepKeepsInv | crates/nagisalake-rpc/src/server.rs:378-565 | every step of supervisor and handlers keeps the invariant |
| RpcServer.AtMostOneResponse | crates/nagisalake-rpc/src/server.rs:439-521 | with ids not reused, an id gets at most one response, the reply made for its own request body, and is either refused or started, never both |
| RpcServer.RefusedGetsOneStatus | crates/nagisalake-rpc/src/server.rs:445-462 | a refused request starts no handler and gets exactly one status, on its way until sent, unless the connection goes down |
| RpcServer.ReusedIdLosesItsEntry | crates/nagisalake-rpc/src/server.rs:402-455 | a run that reuses an id ends with a live handler that no abort entry reaches |
| RpcTracking.JoinKeepsTrackingIff | crates/nagisalake-rpc/src/server.rs:402-418 | reaping keeps every live handler tracked if and only if the reaped task did not return an id whose entry is now another live handler's |
| RpcTracking.StepKeepsTracking | crates/nagisalake-rpc/src/server.rs:396-565 | every step keeps live handlers tracked and entries trustworthy, as long as an admitted id is one no task in the join set may still return |
| RpcTracking.AdmissionIsSafeIff | crates/nagisalake-rpc/src/server.rs:439-521 | after admitting a request, every continuation up to the next request, cancels included, keeps live handlers tracked if and only if no task in the join set may still return its id |
| RpcTracking.LiveHandlersAreTracked | crates/nagisalake-rpc/src/server.rs:396-521 | in every run entries are at most max_in_flight_requests_per_connection; if admitted ids were clear, which fresh ids are, every unfinished handler nobody aborted has its entry, so there are no more of them either |
| RpcServer.DrainEnds | crates/nagisalake-rpc/src/server.rs:539-565 | once the grace period is over, every continuation is bounded by the tasks there are, and until the supervisor has stopped something can move |
| RpcSupervisor.Supervisor.OnRequest | crates/nagisalake-rpc/src/server.rs:439-521 | an admissible request adds one running task and its entry, any other leaves both tables alone with the status of the first test it failed on the way; entries stay within the limit and the invariant is kept |
| RpcSupervisor.Supervisor.OnCancel | crates/nagisalake-rpc/src/server.rs:434-438 | the id's entry goes and its task is asked to stop, every other entry stays, the invariant is kept, and where entries can be trusted no handler of the id goes on |
| RpcSupervisor.Supervisor.RetainUnfinished | crates/nagisalake-rpc/src/server.rs:407-415 | the loop keeps exactly the entries whose task has not finished |
| RpcSupervisor.Supervisor.OnJoined | crates/nagisalake-rpc/src/server.rs:402-418 | the task leaves the join set, no entry is added or changed, the invariant is kept, and every live handler stays tracked if and only if the entry that goes is not another live one's |
| RpcSystem.StepKeepsInv | crates/nagisalake-rpc/src/client.rs:412-532 | every step of the composed client, channels and server keeps the joint invariant |
| RpcSystem.RepliesAreOnesOwn | crates/nagisalake-rpc/src/server.rs:439-573 | end to end, in every interleaving: a call answered by the server is answered with the one reply the server made for the request that carried this call's own body; the reply is the encoded body a handler of it came to, its error code and words, the report of an oversized body, its timeout, or the code of the first admission test the request failed |
| RpcSystem.ServerSeesFreshIds | crates/nagisalake-rpc/src/server.rs:432-462 | over a whole connection the server sees each request once and no cancel before it, so what it needs of ids always holds |
| RpcLink.ReplyFitsIff | crates/nagisalake-rpc/src/server.rs:487-573 | for every frame size, a handler's result fits its frame if and only if that is at least the number of bytes given by its kind, the two decimal numbers of the size error included |
| RpcLink.OnlyWordsCanFail | crates/nagisalake-rpc/src/server.rs:487-573 | in frames of 77 bytes or more a result fits if and only if it carries no error text, or one that a response body may have |
| RpcLink.LongErrorDoesNotFit | crates/nagisalake-rpc/src/server.rs:567-573 | for every configuration and code there is a handler error whose frame does not fit |
| RpcLink.FrameCarriesTheReply | crates/nagisalake-rpc/src/server.rs:487-573 | the frame of a reply has its code, and its body or words unchanged |
| RpcLink.RunKeepsFit | crates/nagisalake-rpc/src/server.rs:378-573 | if every result of a run fits, so does everything the server has sent, is sending or is about to send |
| RpcLink.WriteResponses | crates/nagisalake-rpc/src/framing.rs:130-202 | writing responses is never refused as oversized if all fit, and never completes if one does not |
| RpcLink.WriteRun | crates/nagisalake-rpc/src/framing.rs:130-202 | what a server run with fitting results logged is never refused as oversized |
| RpcLink.SizeTestDecides | crates/nagisalake-rpc/src/client.rs:253-258 | a request fits its frame if and only if its body passes the client's test and a frame can hold the header |
| RpcLink.ClientFramesFit | crates/nagisalake-rpc/src/client.rs:246-288 | in every run whose bodies pass the test, every logged frame fits |
| RpcLink.ServerReadsAPrefix | crates/nagisalake-rpc/src/framing.rs:42-202 | whatever prefix of a client run's bytes arrives decodes to a prefix of the frames it logged and one last event that tells a frame's end from a cut and a cut from a failed read |
| RpcLink.ClientReadsAPrefix | crates/nagisalake-rpc/src/framing.rs:42-202 | the same for the server's frames, if they fit |
| TokenBucket.RateBound | apps/nagisalake-hub/src/ratelimit.rs:69-81 | in every run of one bucket, the allows among any consecutive checks are at most capacity plus refill times the time they span |
| TokenBucket.TokensBuyChecks | apps/nagisalake-hub/src/ratelimit.rs:69-81 | a bucket that holds n tokens allows the next n checks, whenever they come |
| TokenBucket.DeniedPollIsInvisible | apps/nagisalake-hub/src/ratelimit.rs:69-81 | a denied check does not change the outcome or bucket of any later one |
| TokenBucket.PollingNeverDelays | apps/nagisalake-hub/src/ratelimit.rs:69-81 | any number of denied polls leaves the next check as if there had been none |
| TokenBucket.OneSecondPastTheHintAdmits | apps/nagisalake-hub/src/ratelimit.rs:48-81 | a denied caller who waits the hint and one second more is allowed, polling meanwhile or not |
| TokenBucket.HintSufficesIff | apps/nagisalake-hub/src/ratelimit.rs:48-81 | waiting exactly the hint suffices if and only if the exact wait is at most a second or a whole number of seconds |
| TokenBucket.HintCanBeTooShort | apps/nagisalake-hub/src/ratelimit.rs:48-81 | a quota and a moment where the hint is half a second short |
| TokenBucket.NoRefillNoHope | apps/nagisalake-hub/src/ratelimit.rs:48-56 | a quota that never refills is hinted an hour, every time |
| TokenBucket.EvictionUnobservableIff | apps/nagisalake-hub/src/ratelimit.rs:264-315 | dropping an idle bucket changes no decision and no later state if and only if capacity <= refill * 3600 |
| TokenBucket.EvictedKeySeesTheSameFuture | apps/nagisalake-hub/src/ratelimit.rs:300-315 | for such quotas the key's whole later history is the same, decisions and bucket |
| TokenBucket.DefaultLimitsAreUnaffectedByEviction | apps/nagisalake-hub/src/ratelimit.rs:157-172 | every default limit is such a quota |
| LimiterShard.Shard.Compact | apps/nagisalake-hub/src/ratelimit.rs:96-103 | the in-place cleanup keeps every live entry in order and leaves no more entries than buckets |
| LimiterShard.Shard.RecordAccess | apps/nagisalake-hub/src/ratelimit.rs:92-104 | an access is appended, and the queue never outgrows twice the table's bound |
| LimiterShard.Shard.EvictOldest | apps/nagisalake-hub/src/ratelimit.rs:106-116 | popping until an entry is live removes exactly the least recently checked bucket |
| LimiterShard.Shard.Check | apps/nagisalake-hub/src/ratelimit.rs:242-281 | a check is a check of the exact table without a queue: same buckets, same decision; a new key starts with all its tokens and pays one |
| LimiterShard.Shard.Reset | apps/nagisalake-hub/src/ratelimit.rs:286-297 | a reset removes exactly the key's bucket and keeps the queue coherent |
| LimiterShard.Shard.EvictIdle | apps/nagisalake-hub/src/ratelimit.rs:300-315 | exactly the buckets not seen for 3600 seconds go, the others stay as they are, and the number is returned |
| LimiterShard.LiveBucketsAreQueuedOnce | apps/nagisalake-hub/src/ratelimit.rs:91-117 | a live bucket has exactly one matching queue entry, and sequences strictly increase |
| LimiterShard.RunIsExact | apps/nagisalake-hub/src/ratelimit.rs:242-315 | in every run a bucket's sequence is the number of its key's last check, and the table holds at most 6250 buckets |
| LimiterShard.EvictsTheLeastRecentlyChecked | apps/nagisalake-hub/src/ratelimit.rs:242-281 | a check evicts nothing on a hit, and on a miss in a full shard exactly the key whose last check is furthest back |
| LimiterShard.SurvivingKeyIsItsOwnBucket | apps/nagisalake-hub/src/ratelimit.rs:242-315 | while its bucket survives, a key's decisions are those of one token bucket of its own |
| LimiterShard.SurvivingKeyIsRateBounded | apps/nagisalake-hub/src/ratelimit.rs:242-315 | with times in order and no negative quota, a surviving key is allowed at most its capacity plus the refill between its checks, whatever other keys do |
| LimiterShard.MissStartsFull | apps/nagisalake-hub/src/ratelimit.rs:264-281 | from a miss on, while it survives, a key is a full token bucket of its own |
| LimiterShard.NewKeyGetsItsCapacity | apps/nagisalake-hub/src/ratelimit.rs:264-281 | so its first checks are allowed, as many as its capacity, whatever other keys do |
| LimiterShard.IdleEvictionIsInvisible | apps/nagisalake-hub/src/ratelimit.rs:300-315 | a run with an eviction of an idle key, under a quota with capacity <= refill * 3600, gives that key the same decisions and bucket as the run without |
| LineCodec.JsonLineCodec.Receive | crates/nagisalake-transport/src/codec.rs:79-130 | for every chunking the frame returned and the bytes left are those of splitting the whole stream; only blank lines are skipped, and by the result what came: a line up to its newline or the end, nothing more, too much without a newline, or a failed read; each byte is compared with the delimiter once |
| LineCodec.ResultsTellTheStream | crates/nagisalake-transport/src/codec.rs:79-130 | what each result says about the stream, with bytes 9, 10, 12, 13 and 32 as the blanks |
| LineCodec.JsonLineCodec.Send | crates/nagisalake-transport/src/codec.rs:53-77 | a message within the limit is written whole and terminated whatever the tunnel takes per write, and sent exactly if the flush succeeds; an oversized one writes nothing; a tunnel that takes nothing leaves part of it |
| LineCodec.TerminatedLineAcceptedIffWithinLimit | crates/nagisalake-transport/src/codec.rs:88-105 | a terminated line is an error exactly when it is longer than the limit, skipped when blank, delivered otherwise |
| LineCodec.SentIsReceived | crates/nagisalake-transport/src/codec.rs:53-130 | everything sent is received, in order, and then the end of the stream |
| JobStates.WalksOnlyAdvance | crates/nagisalake-core/src/lib.rs:22-54 | along every walk of allowed transitions the rank never falls and a terminal state is never left |
| JobStates.ChangesAreSingleSteps | crates/nagisalake-core/src/lib.rs:22-54 | a change of state is allowed if and only if it goes one rank up, fails a job a worker holds, or cancels one not yet uploading |
| JobStates.TerminalIsTheEnd | crates/nagisalake-core/src/lib.rs:22-54 | a state is terminal if and only if nothing follows it |
| JobStates.StateNamesRoundTrip | crates/nagisalake-journal/src/state.rs:46-71 | a state's stored name parses back to it |
| Journal.IdentityIsAnEquivalence | crates/nagisalake-journal/src/state.rs:26-44 | dispatch identity is reflexive, symmetric and transitive |
| Journal.IdentityIgnoresOnly | crates/nagisalake-journal/src/state.rs:26-44 | two dispatches are the same job if and only if they differ at most in command, links and the case of hashes |
| Journal.RepliesTellTheTruth | crates/nagisalake-journal/src/memory.rs:19-142 | every operation by its reply: done means that what was asked for is in the record and nothing else of it changed, a refusal names the first thing in the way and changes nothing, and no operation touches another job |
| Journal.StepEvolves | crates/nagisalake-journal/src/memory.rs:19-142 | one operation moves a record along an allowed transition, never lowers its sequence, keeps its identity, and removes its pending event only by that event's acknowledgement or a later event |
| Journal.StepKeepsInv | crates/nagisalake-journal/src/memory.rs:19-142 | a pending event belongs to its job and carries the current sequence, after every operation |
| Journal.RunsEvolve | crates/nagisalake-journal/src/memory.rs:19-142 | over every run of operations a job's states are a walk of allowed transitions, its sequence never falls, its identity is kept, and once terminal neither state nor dispatch changes |
| Journal.PendingUntilDisplaced | crates/nagisalake-journal/src/memory.rs:100-142 | over every run an undelivered event waits until it is acknowledged or a later one replaces it |
| Journal.AcceptedEventWaits | crates/nagisalake-journal/src/memory.rs:100-142 | an accepted event is still pending and listed after any operations none of which displaces it |
| JournalBackends.CompareIdentity | crates/nagisalake-journal/src/state.rs:26-44 | the field-by-field, input-by-input comparison decides dispatch identity |
| JournalBackends.MemoryJournal.Serve | crates/nagisalake-journal/src/memory.rs:19-142 | each in-memory service is the journal operation |
| JournalBackends.SqliteJournal.Upsert | crates/nagisalake-journal/src/sqlite.rs:55-97 | the transaction is the redispatch operation on the decoded table; an unreadable row is refused and left alone |
| JournalBackends.SqliteJournal.List | crates/nagisalake-journal/src/sqlite.rs:152-166 | the text query selects exactly the unfinished or undelivered records; one unreadable row fails it |
| JournalBackends.SqliteJournal.SetState | crates/nagisalake-journal/src/sqlite.rs:99-124 | the transaction is the state change on the decoded table |
| JournalBackends.SqliteJournal.SetPending | crates/nagisalake-journal/src/sqlite.rs:193-252 | the reply is always the journal's, an accepted event is in the row with its state, and the record is the journal's if and only if the sequence fits i64 or the event is refused |
| JournalBackends.SqliteJournal.ClearPending | crates/nagisalake-journal/src/sqlite.rs:254-270 | the table is the journal's if and only if the sequence fits i64 or no undelivered event sits at i64::MAX |
| JournalBackends.SqliteJournal.Serve | crates/nagisalake-journal/src/sqlite.rs:126-270 | for sequences that fit, each service is the journal operation |
| JournalBackends.ServeBoth | crates/nagisalake-journal/src/sqlite.rs:126-270 | both backends, given the same operations, give the same replies and records throughout |
| HubTables.SettleConservesIff | crates/nagisalake-hub-store/src/quota.rs:5-35 | rewriting a job and releasing it if ended conserves quota if and only if an ended job is not revived |
| HubStore.CommitJobConserves | crates/nagisalake-hub-store/src/jobs.rs:54-248 | a single submission keeps every counter equal to the live jobs and the ledger exact |
| HubStore.CommitBatchConservesIff | crates/nagisalake-hub-store/src/batches.rs:56-306 | a batch that is neither a replay nor refused does so if and only if total_jobs is the number of children |
| HubStore.UpdateConservesIff | crates/nagisalake-hub-store/src/jobs.rs:481-507 | an update of a current job does so if and only if it does not move a terminal job to a live state |
| HubStore.EventConservesIff | crates/nagisalake-hub-store/src/jobs.rs:509-574 | the same for an event that matches its job and comes next, replays included |
| HubStore.BindConserves | crates/nagisalake-hub-store/src/batches.rs:493-535 | binding conserves quota |
| HubStore.CancelConserves | crates/nagisalake-hub-store/src/batches.rs:542-570 | cancelling a queued job conserves quota |
| HubStore.ReconcileRepairs | crates/nagisalake-hub-store/src/quota.rs:222-284 | reconciliation restores the balance from any counter values |
| HubStore.ReconcileFailsTheSilent | crates/nagisalake-hub-store/src/quota.rs:229-239 | reconciliation fails exactly the live jobs silent since the cutoff, themselves and their worker, and touches no other |
| HubStore.ClaimCountDecides | crates/nagisalake-hub-store/src/jobs.rs:146-178 | the number of claimed artifacts equals the number of inputs if and only if every input is usable and none is named twice |
| HubStore.CreatedJobOwnsItsInputs | crates/nagisalake-hub-store/src/jobs.rs:146-178 | a created job owns its inputs, nobody owned them before, and no other artifact changes |
| HubStore.ReplayedEventIsInert | crates/nagisalake-hub-store/src/jobs.rs:509-574 | a delivered event's replay changes nothing, and its number with other content is a conflict |
| HubStore.JobsOnlyAdvance | crates/nagisalake-hub-store/src/jobs.rs:481-574 | every transaction but a submission moves jobs along allowed transitions, except that reconciliation fails any live job |
| HubStore.RunsConserveQuota | crates/nagisalake-hub-store/src/quota.rs:5-284 | over every run of whole transactions each organization's active_jobs is its number of live jobs, a release is recorded exactly for ended jobs, and the live jobs never exceed max_concurrent_jobs |
| HubStore.EmptyStoreIsBalanced | crates/nagisalake-hub-store/src/quota.rs:5-284 | a store without jobs and with zero counters meets what every run keeps |
| HubPeriod.CounterIsTheWindow | crates/nagisalake-hub-store/src/jobs.rs:138-219 | over every run of mixed submissions that arrive in the order of their times, period_jobs is the number of jobs admitted at or after period_started_at |
| HubPeriod.AnyPeriodIsBounded | crates/nagisalake-hub-store/src/batches.rs:151-284 | if an organization's submissions bring times at most lag behind, any stretch of one period less twice the lag, ends included, admits at most 2*max_jobs_per_period jobs |
| HubPeriodEdge.TheBoundIsTight | crates/nagisalake-hub-store/src/batches.rs:151-284 | for every period and every lag up to half of it, a run from an empty store in which a stretch longer by one millisecond admits more |
| HubDispatch.ChildrenAreDispatchedOnce | crates/nagisalake-hub-store/src/batches.rs:437-570 | over every run a batch child is bound at most once, never both bound and cancelled before dispatch, has its outbox row exactly when bound, and its queue row exactly when neither bound nor cancelled |
| HubDispatch.FailedChildKeepsItsRow | crates/nagisalake-hub-store/src/quota.rs:229-239 | a run from an empty store that ends with a failed child that still has its queue row |
| HubDispatch.EmptyStoreIsTracked | crates/nagisalake-hub-store/src/batches.rs:437-570 | a store without jobs, queue and outbox meets the dispatch invariant |
| HubDispatch.ClaimsAreSpaced | crates/nagisalake-hub-store/src/batches.rs:437-461 | any two claims of one row are more than a thousand milliseconds for every second the earlier one asked for apart |
| HubIdempotency.MoveKeepsExclusive | crates/nagisalake-hub-store/src/jobs.rs:97-109 | two submissions of one organization are never past the usage-row lock together |
| HubIdempotency.OneWinnerPerKey | crates/nagisalake-hub-store/src/jobs.rs:61-134 | in every interleaving at most one submission per key creates anything, every other success returns the winner's id for the same request, and another request never succeeds |
| HubIdempotency.FinishingIsAtomic | crates/nagisalake-hub-store/src/batches.rs:65-145 | each finished submission answered and did what the whole transaction would have at that instant, and had no effect before |
| HubReconcile.CommitConservesIff | crates/nagisalake-hub-store/src/quota.rs:229-284 | a reconciliation, counting and writing apart, leaves every counter right if and only if no organization's count was disturbed |
| HubReconcile.InterleavingsConserveQuota | crates/nagisalake-hub-store/src/jobs.rs:54-248 | however submissions, events, dispatch, cancellations and reconciliation interleave, quota is conserved and the limits kept, as long as no reconciliation was disturbed |
| HubReconcile.ReconciliationConservesIff | crates/nagisalake-hub-store/src/quota.rs:222-284 | in every such run the next reconciliation to commit leaves the counters right if and only if it was not disturbed |
| HubReconcile.UninterruptedIsReconcile | crates/nagisalake-hub-store/src/quota.rs:222-284 | the four moves of a reconciliation with nothing in between are the whole transaction of HubStore |
| HubReconcile.ApartSchedulesConserveQuota | crates/nagisalake-hub-store/src/quota.rs:222-284 | schedules in which, between count and commit of a reconciliation, nobody changes jobs of an organization that loses some, conserve quota and keep the limits |
| HubReconcile.StaleCountIsWrong | crates/nagisalake-hub-store/src/quota.rs:254-263 | a count that no longer fits when it is written, jobs remaining, always leaves the counter wrong |
| HubReconcile.SubmissionInBetweenBreaksTheCount | crates/nagisalake-hub-store/src/quota.rs:254-263 | one job committed between count and write leaves its organization's counter wrong, whatever else is going on |
| HubReconcile.AnyReconciliationCanLoseAJob | crates/nagisalake-hub-store/src/quota.rs:229-284 | in every sound store with a stale job in an organization that may submit another, some schedule ends with a wrong counter |
| HubReconcile.ReconciliationCanLoseAJob | crates/nagisalake-hub-store/src/quota.rs:229-284 | such a run, from a balanced store: two jobs are live and one is counted |
| HubInterleaving.ChildrenAreDispatchedOnce | crates/nagisalake-hub-store/src/batches.rs:437-570 | what HubDispatch says of batch children holds under every interleaving with split submissions and reconciliations, disturbed or not |
| HubInterleaving.ClaimsAreSpaced | crates/nagisalake-hub-store/src/batches.rs:437-461 | so does the distance of claims, in milliseconds per second asked for |
| HubInterleaving.AnyPeriodIsBounded | crates/nagisalake-hub-store/src/jobs.rs:54-248 | so does the period bound, with the lag taken between the submissions in the order they commit |
| HubTransactions.PgStore.CommitNewJob | crates/nagisalake-hub-store/src/jobs.rs:54-248 | a submission is answered as before if its key was used, with a conflict if for another request, refused for the first thing it lacks of rows, admission, quota, inputs and a new id, and created otherwise; created means the job is there with its outbox row and its inputs, counted, within the limit; anything else changes nothing; quota is conserved |
| HubTransactions.PgStore.InsertChildren | crates/nagisalake-hub-store/src/batches.rs:216-267 | the child loop inserts every job and queue row, or nothing if an id is taken |
| HubTransactions.PgStore.CommitNewBatch | crates/nagisalake-hub-store/src/batches.rs:56-306 | the same for a batch; created means every child is new, there, queued, dispatchable at once and counted, within the limit, and no other job or queue row changed; with an honest total, quota is conserved |
| HubTransactions.PgStore.ReleaseForTerminal | crates/nagisalake-hub-store/src/quota.rs:5-35 | the release is recorded exactly for an ended job, only a new record lowers the counter, by one and of that organization alone, and asking again changes nothing |
| HubTransactions.PgStore.UpdateJobIfCurrent | crates/nagisalake-hub-store/src/jobs.rs:481-507 | it updates exactly a job in the expected attempt, state and event, then that job is in the asked state, fresh for reconciliation, and no other changed, otherwise nothing did; quota is conserved if and only if no ended job is revived |
| HubTransactions.PgStore.ApplyJobEvent | crates/nagisalake-hub-store/src/jobs.rs:509-574 | it applies exactly an event with free or equal content for a job in the expected attempt, state, event and session, stores it, moves that job alone, and replaying it changes nothing; other content is a conflict; otherwise nothing changes; quota is conserved if and only if no ended job is revived |
| HubTransactions.PgStore.BindQueuedJob | crates/nagisalake-hub-store/src/batches.rs:493-535 | it binds exactly a queued job: received, with this worker and session, whose events are next, outbox row there, queue row gone, no other job changed, quota conserved; otherwise nothing changes |
| HubTransactions.PgStore.CancelQueuedJob | crates/nagisalake-hub-store/src/batches.rs:542-570 | it cancels exactly a queued job: cancelled, released in the ledger, queue row gone, no other job changed, quota conserved; otherwise nothing changes |
| HubTransactions.PgStore.NextDispatchable | crates/nagisalake-hub-store/src/batches.rs:447-461 | the row found is dispatchable and none precedes it in dispatch order |
| HubTransactions.PgStore.ClaimDispatchQueueJob | crates/nagisalake-hub-store/src/batches.rs:437-461 | the first dispatchable row by availability, priority, age and key is leased for as many thousand milliseconds as seconds were asked for, or there is none and nothing changes |
| HubTransactions.PgStore.ReconcileActiveJobQuota | crates/nagisalake-hub-store/src/quota.rs:222-284 | the statements and loops are the reconciliation, and the reported numbers are the wrong counters and the stale jobs |
| WorkerBus.StepKeepsInv | crates/nagisalake-runtime/src/bus.rs:132-175 | every atomic step keeps counters, registry and owners consistent |
| WorkerBus.CountersAreTheSlots | crates/nagisalake-runtime/src/bus.rs:365-398 | at every atomic step the counters are the live slots by phase, so no update wraps or saturates |
| WorkerBus.OneRunnerPerJob | crates/nagisalake-worker/src/worker.rs:338-386 | between registration and finish a job has one runner |
| WorkerBus.DispatchesStayWithinLimit | crates/nagisalake-runtime/src/bus.rs:132-150 | dispatched registrations never exceed max_jobs, and an accepted one leaves the whole registry within it |
| WorkerBus.WorkerRuntime.RegisterJob | crates/nagisalake-runtime/src/bus.rs:132-150 | accepted means the job was not registered and is now, with one more queued slot of its own, a dispatched one within max_jobs; exhausted means a full registry; any refusal changes nothing; the invariant is kept |
| WorkerBus.WorkerRuntime.FinishJob | crates/nagisalake-runtime/src/bus.rs:173-175 | the registration goes and no other, the slot keeps its charge, no live runner of the job remains, and the invariant is kept |
| WorkerBus.JobSlot.Activate | crates/nagisalake-runtime/src/bus.rs:377-383 | the charge moves from queued to active once |
| WorkerBus.JobSlot.Drop | crates/nagisalake-runtime/src/bus.rs:386-398 | after a finish or while unwinding, the counter the slot was charged to falls by exactly one and the other stays, and the invariant is kept |
| WorkerRunner.Runner.Emit | crates/nagisalake-runtime/src/bus.rs:205-256 | an event goes through if and only if its transition is legal and it is acknowledged; the journal changes exactly if the transition is legal and the write succeeds, under the next number, and keeps the event unless it is acknowledged |
| WorkerRunner.Runner.Execute | crates/nagisalake-runtime/src/runner.rs:128-165 | a run leaves its job terminal if and only if its completion is journaled, or it is not cancelled between journaling its uploads and their acknowledgement and its last journal write succeeds; completed, cancelled if it was before its uploads were announced, failed otherwise |
| WorkerRunner.StrandedRun | crates/nagisalake-runtime/src/runner.rs:128-165 | a run that executes and ends with its job uploading |
| AgentRun.StepKeepsInv | crates/nagisalake-agent/src/service.rs:129-207 | every step of supervisor, backend and consumer keeps the stream invariant |
| AgentRun.StreamEndsWithItsOutcome | crates/nagisalake-agent/src/handle.rs:90-106 | in every run recv yields what was sent, in order, Started first, then after all of it one terminal event, the published outcome or a protocol error if there is none, then None |
| AgentRun.TheEndIsFinal | crates/nagisalake-agent/src/handle.rs:90-106 | after the terminal event no step changes what was or will be seen |
| AgentRun.TextStaysWithinLimit | crates/nagisalake-agent/src/handle.rs:17-33 | streamed text, sends under way included, and completed text stay within max_output_bytes |
| AgentRun.ClosedChannelHasItsOutcome | crates/nagisalake-agent/src/service.rs:181-205 | when the progress channel closes the outcome is already published, unless the supervising task died |
| AgentRun.OutcomeSaysHowItEnded | crates/nagisalake-agent/src/service.rs:179-199 | in every run the published outcome says how the run was decided: the text within the limit, a stop, the backend's error code, or the code of the limit, the timeout or a panic |
| AgentRun.TheTimerIsNeverBlocked | crates/nagisalake-agent/src/service.rs:179-205 | wherever a run stands, full channels and stuck sends included, the supervisor alone can bring it to a published outcome |
| AgentRun.ChannelIsBounded | crates/nagisalake-agent/src/service.rs:139 | the progress channel never holds more than its buffer |
| AgentRun.Conclude | crates/nagisalake-agent/src/service.rs:187-199 | the outcome is completed exactly for a finished text within the limit, with that text, cancelled exactly for a stopped run, and otherwise failed with the code of its cause |
| AgentRun.EventSender.Reserve | crates/nagisalake-agent/src/handle.rs:18-27 | text is counted before it is sent and refused whole when it would pass the limit |
| AgentRun.RunHandle.Recv | crates/nagisalake-agent/src/handle.rs:90-106 | None exactly after the end; under the stream invariant the next event in the order of sending, or, with every sender gone and everything sent seen, the outcome, which ends the stream; the invariant is kept |

## Left out

- Tokio, sockets, TLS, the proxy, WebSocket and SMUX layers: channels are FIFO queues, and what a socket accepts or delivers is a parameter.
- Message and JSON encoding: bodies are opaque bytes, stored JSON is the value it encodes, and a line is handed on without decoding it.
- Channel capacities of the RPC runtime: sends may be delayed at will, but a particular capacity is not part of the model. The server may also see a frame the writer was still being handed when the connection failed.
- The truncation of a timeout to 64 bits in the server's check. `RpcLink` takes ids and timeouts to fit their 64-bit fields.
- Request ids and access sequences wrapping at 2^64, floating-point rounding in the limiter, and i64 saturation of times in the hub store.
- The limiter's sharding, its `enabled` switch, hashing and the client address rules: the model is one shard under one lock.
- Ordering of journal listings: both backends are compared as sets, since one orders by job id and the other by update time.
- NaN progress in a replayed event: events are compared as values.
- Storage quota, legacy reservations, policy updates, session rebinding, output lists and outbox delivery in the hub store: they touch none of the modelled columns or bypass the paired transactions.
- Several reconciliations at once, and the rollback of one that fails: the model has one at a time, and it commits.
- SUM of active jobs in the reconciliation statistics, and the table linking jobs to their input artifacts.
- SKIP LOCKED: a claim in `HubStore` may take any dispatchable row; that a claim running alone takes the first is `HubTransactions.PgStore.ClaimDispatchQueueJob`.
- Device admission: its verdict is a parameter of a submission.
- Rejoining a panicked runner's registration: the registry keeps its entry, as in the code, and the model says nothing more about it.
- Parallelism permits: that at most `parallelism` slots are active is not true of the code, since the permit is released before the slot.
- WorkerRunner.Runner.Execute: assumes no other task journals events for the same job meanwhile, which `WorkerBus.OneRunnerPerJob` provides within one process, and treats the wait for outputs, uploads, acknowledgements and journal writes as outcomes of a script.
- WorkerBus.JobSlot.Drop: takes the slot as a value with one owner, as moving it does in the original.
- AgentRun: the permit that limits concurrent runs, request validation, and the texts of error events.
- ComfyUI and SGLang clients, artifact transfer, accounts, sessions, OAuth, the web front end and the load generator: plumbing that would only add easy members.
