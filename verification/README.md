# A verified model of the Host Link client

The repository is a Python client for KEYENCE KV Host Link, a line protocol without transaction identifiers: a reply
belongs to a request only because of the order in which things happen. This project models the parts that make it work
and proves what they promise.

| files | what they model |
|---|---|
| `Accumulator`, `LineReceiver`, `ReceiveWork` | the TCP receive buffer, the receive loop over it, and the work both do in a whole run |
| `AsyncAdmission`, `AsyncAdmissionRuns` | the turn lock of the async client, in place and as a step system over tasks |
| `SyncAdmission`, `SyncAdmissionRuns` | the turn lock of the threaded client |
| `AsyncClient` and `AsyncClient*` | the async TCP client, its lock, its connections, the network and the PLC as one step system |
| `SyncConnect`, `SyncConnectRuns` | connecting and closing in the threaded client: workers, connecting threads, closing threads |
| `Device`, `HelperAddress`, `DeviceRanges`, `Protocol`, `Text` | device tokens, helper addresses, catalogue bounds, data tokens |
| `PlcMemory`, `ReadPlan`, `ReadPlanSegments`, `ReadPlanExecution` | the named-read optimiser over a PLC memory |
| `ReadPlanReads`, `ReadPlanFewest` | the plan against every other choice of reads for the same addresses |
| `NamedWrite`, `NamedWriteEffects`, `NamedWriteAliases`, `NamedWriteReadback` | the named-write compiler over the same memory: what the one request does, for families that share memory too, and what reads back |
| `Bits`, `Wrappers` | bitwise operators on numbers; optional values and results |

Objects that the source updates in place are classes (`TcpReceiveAccumulator`, `AsyncFifoAdmission`,
`SyncFifoAdmission`, `AsyncHostLinkClient`), whose methods are proved equal to functions on values; loops are methods
with invariants. Whole-run statements are about `After(events)`, the state after any sequence of events: an event that
cannot happen in a state leaves it as it is, so every sequence is a run and every interleaving is covered. One event is
the code between two awaits of one task, or one section under a lock of one thread, or one action of the PLC or network.

## What is assumed of the PLC and the network

Every run assumes only that the PLC sends at most one line for a request it serves, after it. It may send any line, or
nothing, execute or not, whatever it says, and may never serve a request. `AsyncClient.Honest` says what an honest answer
is: no confirmation of a state-changing command that was not executed, no error code for one that was, and for a word
read, if the answer decodes, the word in memory. Correlation of replies needs no honesty; what a caller learns from an
outcome needs it of the one request concerned (`AsyncClientRuns.Answered`); what is said of the whole memory needs it of
all requests served so far (`AsyncClientRuns.Trusted`).
The network delivers bytes in order and in any pieces, may insert stray CR and LF anywhere after the bytes under way,
and may fail at any await. Requests are numbered in the model so that it can say which request a reply answers; the client
never looks at the numbers.

## Results worth reading first

- `AsyncClientTheorems.RepliesAnswerTheirRequests`, `ReadsReturnWhatWasServed`: an accepted line is the reply to that very
  request, and returned values are what the PLC replied to it, through any mix of timeouts, cancellations, malformed
  replies, error codes, closes and reconnects, and whether or not the PLC tells the truth.
- `AtMostOnce`, `OutcomesAreHonest`, `OutcomesAreFinal`: what a caller may conclude from each outcome, for ever after.
- `NoLostUpdates`, `ReadsTakeTheirTurn`: concurrent bit writes, writes and reads act on PLC memory one by one in grant
  order, and every value a read returned is the one that order gives, so that an aggregate read is one snapshot.
- `MonitorsAreConnectionScoped`: registered monitors are exactly the latest registration the PLC confirmed on the
  connection that is live.
- `CrashesExactlyWhen`, `WithoutCloseOutcomesAreTyped`, `AsyncClientExamples.ACloseMidReplyCrashes`: the one gap in honest
  outcomes. When `close` runs during the turn of a call and a chunk that had already arrived does not complete the reply,
  the receive loop reads from the removed reader (`src/hostlink/client.py:2472`) and the caller gets an exception the
  client does not type, although its command may have been executed. The lemmas give the exact condition, a run, and that
  a call during whose turn nobody closes the client always ends with a typed outcome.
- `NamedWriteEffects.OneRequestIffOneFamily`: the batch loop compares kind, step, format and number but not the device
  family, so an accepted update set does what its updates do one by one if and only if all name one family;
  `TwoFamiliesAreAccepted` exhibits `DM0:U` with `EM1:U`. `NamedWriteAliases.OneRequestIffOneMemory` says the same of
  families that share memory, so that `D0:U` with `DM1:U` is right exactly because those two are one memory
  (`MixedDataDependsOnThePlc`), and `NamedWriteReadback.WrittenReadsBack` that every value written reads back.
- `ReadPlanExecution.ReadNamed`, `ReadPlanSegments.GreedyIsMinimal`: the merged plan reads what lone reads would, and no
  partition into runs under the same rules has fewer segments.
- `ReadPlanFewest.FewestReads`, `PlanIsFewest`, `HexBetweenWords`: over every way to serve the addresses with reads that
  ask for nothing else and respect the limits, the fewest reads there are, and exactly when the plan needs no more. It may
  need more: `DM0:U`, `DM1:H`, `DM1:U` become three reads where two would do, because the second sorts between the others.
- `ReceiveWork.LinearWork`, `LineReceiver.ChunkingIrrelevant`, `DecidedWhenTerminated`: linear work; a received line does
  not depend on how the stream was cut; and when more than one line arrives, the exact condition on the cut under which
  the first one is received rather than rejected.
- `SyncConnectRuns.NoSocketLeaks`, `HolderMovesOn`, `CloseIsFinal`: a socket that is not closed is the client's, or held
  by a thread that can act and lets go of it within a few steps of its own; and none survives a close.

Two places where the code is subtler than its documentation suggests: `try_take_line` with a smaller limit than the
previous call may report a line as too long at the position already scanned, so its specification takes the scan position;
and an address without a colon and without a dot is always rejected (`BareTokenIsRejected`), so the third branch of
`_parse_address`, which looks for a suffix, never accepts anything.

## Model

| member | source | states |
|---|---|---|
| Accumulator.TcpReceiveAccumulator.Append | src/hostlink/client.py:250-273 | appending in place, with growth and compaction, is appending to the pending bytes, at the stated cost and capacity |
| Accumulator.TcpReceiveAccumulator.TryTakeLine | src/hostlink/client.py:275-302 | one scan finds the first maximal run without separators after leading CR/LF, counts it with its terminator, or says why there is none, and leaves cursors and counters as specified |
| Accumulator.TcpReceiveAccumulator.DiscardSeparators | src/hostlink/client.py:304-316 | with nothing scanned, exactly the leading separators go and the result tells whether anything is left; with a scan suspended, the cursors the code then leaves |
| Accumulator.TcpReceiveAccumulator.Reset | src/hostlink/client.py:318-324 | nothing pending remains; the storage is kept or released as asked |
| Accumulator.TakeFromValid | src/hostlink/client.py:275-302 | the cursor order and the absence of separators in the scanned part survive every scan |
| LineReceiver.RecvTcpLine | src/hostlink/client.py:2458-2480 | the receive loop over any chunks is the recursive specification, retiring the buffer on a rejected line |
| LineReceiver.RecvTells | src/hostlink/client.py:2458-2480 | whichever way the loop ends says what the byte stream holds: its first line, too long a first line, input after it, or no whole line |
| LineReceiver.ChunkingIrrelevant | src/hostlink/client.py:2458-2480 | two chunkings of one stream that both complete return the same line and counted length |
| LineReceiver.OneLineIsReceived | src/hostlink/client.py:275-302 | one whole line within the limit is received under every chunking; a missing or longer first line never is |
| LineReceiver.DecidedWhenTerminated | src/hostlink/client.py:2461-2480 | a first line within the limit is received exactly when only separators follow it in the bytes read up to the chunk that terminates it; otherwise the extra input is rejected |
| LineReceiver.TheCutDecides | src/hostlink/client.py:2461-2480 | one stream of two lines, rejected in one piece and received in two |
| ReceiveWork.LinearWork | src/hostlink/client.py:250-302 | over every run, bytes scanned are at most the bytes received, bytes copied at most four times as many, three without leading separators |
| AsyncAdmission.AsyncFifoAdmission.Enter | src/hostlink/client.py:175-192 | arriving takes a free lock, nests, or joins the queue with the next ticket |
| AsyncAdmission.AsyncFifoAdmission.CancelWait | src/hostlink/client.py:193-199 | a cancelled waiter leaves the queue or gives back a turn it was granted already |
| AsyncAdmission.AsyncFifoAdmission.ReleaseOwner | src/hostlink/client.py:210-224 | leaving hands the lock to the first waiter, under that waiter's generation |
| AsyncAdmission.AsyncFifoAdmission.Invalidate | src/hostlink/client.py:226-231 | a new generation, an empty queue, and every waiter not yet done is completed with the closed error |
| AsyncAdmissionRuns.OneOwnerInOrder | src/hostlink/client.py:175-224 | in every run one task at most is inside, grants follow ticket order, and a cancelled or closed waiter never ran its body |
| AsyncAdmissionRuns.NoLostWakeup | src/hostlink/client.py:186-234 | nobody waits for a free lock, every waiter is queued or can wake, queued waiters are of the current generation, and invalidation is seen exactly when a close followed the grant |
| AsyncAdmissionRuns.EndsOnce | src/hostlink/client.py:193-208 | a ticket ends in one way, once, and starts no body afterwards |
| AsyncAdmissionRuns.NeverOvertaken | src/hostlink/client.py:193-224 | the waiters ahead of a ticket never grow in number, and a full release, by leaving or by cancelling after the grant, removes one |
| SyncAdmission.SyncFifoAdmission.Enter | src/hostlink/client.py:94-107 | nesting counts per thread; otherwise the lock is taken or the thread queues under the current generation |
| SyncAdmission.SyncFifoAdmission.Wake | src/hostlink/client.py:107-112 | a woken thread takes its turn under its waiter's generation, or is refused |
| SyncAdmission.SyncFifoAdmission.Exit | src/hostlink/client.py:114-125 | leaving hands the turn to the first waiter |
| SyncAdmission.SyncFifoAdmission.Invalidate | src/hostlink/client.py:127-135 | a new generation and every queued waiter refused |
| SyncAdmission.SyncFifoAdmission.ActiveWasInvalidated | src/hostlink/client.py:137-140 | true for a thread whose last turn is of an earlier generation |
| SyncAdmissionRuns.OneThreadInOrder | src/hostlink/client.py:94-125 | in every run one thread at most is inside, and turns are granted in arrival order |
| SyncAdmissionRuns.NoLostWakeup | src/hostlink/client.py:94-140 | an active turn has a thread that is inside or can wake, every blocked thread is queued or can wake, generations are exact |
| SyncAdmissionRuns.NeverOvertaken | src/hostlink/client.py:114-125 | a queued thread only moves forward, by one at each full release |
| AsyncClientSections.AsyncHostLinkClient.CloseUnlocked | src/hostlink/client.py:2138-2157 | the transport, its pending bytes and the monitor metadata are gone |
| AsyncClientSections.AsyncHostLinkClient.Adopt | src/hostlink/client.py:2071-2073 | a new connection is live with nothing pending |
| AsyncClientSections.AsyncHostLinkClient.TakeUnownedInput | src/hostlink/client.py:2217-2225 | separators left over are dropped, and anything else is reported |
| AsyncClientSections.AsyncHostLinkClient.TakeChunk | src/hostlink/client.py:2463-2480 | a read chunk is appended and scanned as one step of the client system does |
| AsyncClientSections.AsyncHostLinkClient.RememberMonitors | src/hostlink/client.py:2692-2707 | a confirmed registration replaces the metadata of its kind only |
| AsyncClientRuns.FinishTurns | src/hostlink/client.py:205-224 | ending a call ends its turn and grants at most one queued call |
| AsyncClientExchange.IdleDiscard | src/hostlink/client.py:2217-2225 | between exchanges the check for unowned input finds separators only |
| AsyncClientExchange.LineAnswers | src/hostlink/client.py:2458-2480 | a line found on the live stream is the reply to the request under way, and only separators remain |
| AsyncClientExchange.DecodeKeeps | src/hostlink/client.py:2255-2280 | a late, malformed, refused or accepted reply all lead back to a state of the invariant |
| AsyncClientPlc.StepKeeps | src/hostlink/client.py:2330-2456 | every event of calls, lock, client, network and PLC keeps the invariant |
| AsyncClientPlc.RunsKeep | src/hostlink/client.py:2330-2456 | the invariant holds after every run from every initial PLC memory |
| AsyncClientTheorems.RepliesAnswerTheirRequests | src/hostlink/client.py:2330-2456 | in every run, of a PLC that may answer anything in one line, an accepted line is the reply to that request, and between exchanges the live stream holds separators only, with nothing pending |
| AsyncClientTheorems.ReadsReturnWhatWasServed | src/hostlink/client.py:2255-2280 | in every run a read that returns gives one value per address, each what the PLC replied to that read of that call: the word it held then, if it answered that one honestly |
| AsyncClientTheorems.AtMostOnce | src/hostlink/client.py:2323-2328 | in every run a call sends at most one state-changing request and the PLC executes no request twice |
| AsyncClientTheorems.OutcomesAreHonest | src/hostlink/client.py:2403-2456 | provided the PLC answered that one request honestly: normal return: executed; error code: what was sent is never executed, and a single command was sent, while a bit write may have been refused at its read with nothing sent; other typed failures: never sent; unknown outcome: sent |
| AsyncClientTheorems.OutcomesAreFinal | src/hostlink/client.py:2403-2456 | nothing that happens later changes an outcome |
| AsyncClientTheorems.NoLostUpdates | src/hostlink/client.py:2605-2624 | with an honest PLC, while no outcome is in doubt and no exchange is under way, PLC memory is the successful operations run one by one in grant order |
| AsyncClientTheorems.BitWriteChangesOneBit | src/hostlink/client.py:2620-2622 | done atomically, a bit write sets its bit and leaves the other fifteen and all other words |
| AsyncClientTheorems.MonitorsAreConnectionScoped | src/hostlink/client.py:2692-2707 | in every reached state the registered monitors are exactly those of the latest registration whose confirmation the client accepted on the live connection, which the PLC executed if it confirmed it honestly; none without one |
| AsyncClientTheorems.ReadsTakeTheirTurn | src/hostlink/client.py:2255-2280 | with an honest PLC, while no outcome is in doubt, every value a finished read returned is the word left by the successful operations granted before it |
| AsyncClientTheorems.CrashesExactlyWhen | src/hostlink/client.py:2461-2480 | in every reached state a read ends a call in an untyped exception if and only if the client was closed since the call was granted its turn and the chunk is inconclusive |
| AsyncClientTheorems.NothingElseCrashes | src/hostlink/client.py:2403-2456 | in every reached state only such a read, by the call whose turn it is and after a close in that turn, ends a call so |
| AsyncClientTheorems.WithoutCloseOutcomesAreTyped | src/hostlink/client.py:2132-2136 | over every run, a call during whose turn nobody closed the client does not end in the untyped exception |
| AsyncClientExamples.AWriteSucceeds | src/hostlink/client.py:2576-2579 | a run in which a write is sent, executed once and returns |
| AsyncClientExamples.ACloseMidReplyCrashes | src/hostlink/client.py:2472 | a run in which an executed write ends in the untyped exception |
| SyncConnectRuns.StepKeeps | src/hostlink/client.py:496-595 | every step of workers, connecting threads and closing threads keeps the invariant |
| SyncConnectRuns.NoSocketLeaks | src/hostlink/client.py:509-595 | in every interleaving each socket created is closed, or the client's, or held by a thread of which some step is possible; once all threads end, only the client's own is open |
| SyncConnectRuns.HolderMovesOn | src/hostlink/client.py:509-595 | each step of a thread that holds a socket leaves it fewer steps to go, no step of another thread takes the socket or delays the holder, and a thread with no steps to go holds none |
| SyncConnectRuns.CloseIsFinal | src/hostlink/client.py:1305-1329 | once a close has returned, no socket adopted under an earlier generation is held |
| SyncConnectRuns.ConnectIsAlone | src/hostlink/client.py:1235-1241 | connecting happens one attempt at a time, while the client holds no socket |
| Device.ParseIsSpelling | src/hostlink/device.py:239-277 | the parser accepts exactly the spellings of valid devices, longest family name first, and each has one reading |
| Device.TokenRoundTrip | src/hostlink/device.py:211-223 | every valid device prints to a token that parses back to it, in all four notations and for every suffix |
| Device.NormalFormIsFixed | src/hostlink/device.py:280-282 | normalising twice is normalising once |
| Device.ParsedIsValid | src/hostlink/device.py:273-276 | a parsed bit-bank number has lower digits 00 to 15 |
| Device.LogicalIsBijection | src/hostlink/device.py:291-300 | bank notation and logical bit numbers correspond one to one |
| Device.LogicalKeepsOrder | src/hostlink/device.py:291-294 | and in the same order |
| HelperAddress.AddressRoundTrip | src/hostlink/utils.py:214-247 | the canonical text of an accepted address parses to the same text, device, data type and bit |
| HelperAddress.FormatParsed | src/hostlink/utils.py:266-291 | formatting a parsed address gives its text back |
| HelperAddress.FormatRoundTrip | src/hostlink/utils.py:281-290 | whatever formatting accepts reads back as the same device, data type and bit |
| HelperAddress.BareTokenIsRejected | src/hostlink/utils.py:886-895 | a token without colon and dot is never an address |
| HelperAddress.AcceptedDtypes | src/hostlink/utils.py:898-904 | exactly the texts that name a data type, in any case, with spaces around and dots before, are accepted, each as that type |
| DeviceRanges.CatalogueAgrees | src/hostlink/device_ranges.py:269-294 | any stripped text, in either case, is a catalogue number exactly when the device parser reads it after the family name, banked numbers as logical ones |
| DeviceRanges.PointsAreAddresses | src/hostlink/device_ranges.py:228-245 | a segment's point count is the number of addresses the device parser accepts between its ends |
| Protocol.PayloadReadsBack | src/hostlink/protocol.py:131-172 | a payload of any length, formatted and joined with spaces, splits and parses back to its values, H as four digits |
| Protocol.FormatIsToken | src/hostlink/client.py:819-833 | a formatted value is one token that parses back to the value |
| ReadPlan.MergeBucket | src/hostlink/utils.py:961-1009 | the merging loop with its pending list and cursors computes the greedy segments of the sorted bucket |
| ReadPlan.CompilePlan | src/hostlink/utils.py:928-1014 | compiling succeeds exactly for non-empty lists of parsable, semantically distinct addresses, and gives the specified plan |
| ReadPlanSegments.SortedKeeps | src/hostlink/utils.py:952-959 | sorting orders by start, wider first, then input position, and loses nothing |
| ReadPlanSegments.PlanPartitions | src/hostlink/utils.py:928-1014 | every request is in exactly one segment, exactly once |
| ReadPlanSegments.PlanIsSound | src/hostlink/utils.py:978-1009 | every offset and width lies within its segment, every position read is asked for, and counts are within the limits |
| ReadPlanSegments.CountIsAllowed | src/hostlink/device.py:370-391 | every counted read passes the independent per-family count check |
| ReadPlanSegments.GreedyIsMinimal | src/hostlink/utils.py:978-1009 | no partition of a sorted bucket into mergeable runs has fewer parts than the greedy one |
| ReadPlanSegments.CutMovesOn | src/hostlink/utils.py:952-959 | where the wider-first order is needed: a greedy cut inside a run only happens where the start moves on |
| ReadPlanFewest.PlanIsFewest | src/hostlink/utils.py:952-1009 | over every choice of reads that serve the requests, each of one request or of consecutive positions asked for, within the limits: none has fewer than the plan if no request of another mode sorts between two that touch, and, where no limit is in the way, only then |
| ReadPlanFewest.FewestReads | src/hostlink/utils.py:952-1009 | the fewest reads over every choice are those of planning each mode by itself; the plan is minimal if and only if it has that many segments |
| ReadPlanFewest.CompiledIsFewest | src/hostlink/utils.py:928-1014 | so for the plan of every list of addresses that parse |
| ReadPlanFewest.HexBetweenWords | src/hostlink/utils.py:961-1009 | an unmergeable request between two that touch: three segments, where two reads serve all |
| ReadPlanReads.CutsApart | src/hostlink/utils.py:978-1009 | the first requests of two segments of a family cannot be served by one read, unless another mode sorts between two that touch |
| ReadPlanExecution.ResolvedWord | src/hostlink/utils.py:1180-1197 | a value taken out of a merged word read by offset is the value of a lone read |
| ReadPlanExecution.ResolvedBit | src/hostlink/utils.py:1200-1204 | the same for bits, across banks |
| ReadPlanExecution.ReadSegment | src/hostlink/utils.py:1127-1166 | executing a segment fills the slots of its requests with the right values and disturbs no other |
| ReadPlanExecution.ExecutePlan | src/hostlink/utils.py:1120-1177 | executing a compiled plan resolves every request; the unresolved error is unreachable |
| ReadPlanExecution.PreflightRejectsSuffixes | src/hostlink/utils.py:1069-1103 | preflight rejects a segment if and only if it reads one device alone and that device carries a suffix |
| ReadPlanExecution.PreflightPlan | src/hostlink/utils.py:1069-1103 | preflight passes a compiled plan if and only if no suffixed device is read alone |
| ReadPlanExecution.ReadNamed | src/hostlink/utils.py:609-617 | accepted if and only if the addresses parse, are distinct and no suffixed device is read alone; then one entry per address in the caller's order, no key twice, each the value of a lone read |
| NamedWrite.CompileWrite | src/hostlink/utils.py:739-766 | compiling succeeds exactly for update sets that fit one request as the code judges it, and gives that request |
| NamedWrite.RangeIsOneByOne | src/hostlink/utils.py:769-788 | a ranged entry writes its values one by one at successive points |
| NamedWrite.OneRequestIsOneByOne | src/hostlink/utils.py:739-817 | for one family, the request does to memory what the updates do one by one |
| NamedWriteEffects.OneRequestIffOneFamily | src/hostlink/utils.py:757-765 | it does so for all memories if and only if the updates name one family |
| NamedWriteEffects.MixedFamiliesDiffer | src/hostlink/utils.py:757-765 | with two families, a memory and a place where the difference shows |
| NamedWriteEffects.TwoFamiliesAreAccepted | src/hostlink/utils.py:757-765 | two families in one batch are accepted and pass preflight |
| NamedWriteAliases.OneRequestIffOneMemory | src/hostlink/utils.py:757-765 | however families of the same kind share memory, the request is the updates one by one if and only if they name one memory |
| NamedWriteAliases.MixedDataIsOneByOne | src/hostlink/utils.py:757-765 | where D and DM are one memory, every accepted update set that names only those two is written as one by one |
| NamedWriteAliases.MixedDataDependsOnThePlc | src/hostlink/utils.py:757-765 | D0:U with DM1:U is accepted as one request, right if the PLC keeps them in one memory, wrong for some memory if in two |
| NamedWriteReadback.WrittenReadsBack | src/hostlink/utils.py:739-817 | after an accepted write of one family, single, batched or ranged and of any data type, a lone read of each device gives the value just written |
| NamedWriteEffects.WriteNamed | src/hostlink/utils.py:641-652 | an error writes nothing; otherwise one request does, and for one family it is the updates one by one |
| PlcMemory.OrIsDouble | src/hostlink/utils.py:1187 | joining two words by shift and or is the low-word-first 32-bit value |
| Bits.WithBitOnly | src/hostlink/client.py:2620-2622 | masking sets or clears exactly one bit of a word |

## Left out

- UDP transport, its endpoint retention and its response check: the step system is about TCP.
- Real sockets, name resolution, select and socket options: steps with any result. `getpeername` failures are not modelled.
- Wall-clock time: deadlines are events that may or may not have expired wherever the code looks at the clock.
- Nested use of the async turn lock inside the client system (`_exclusive_turn` around a whole named read): an aggregate of
  reads is one call with several exchanges. Nesting itself is covered in `AsyncAdmissionRuns`.
- The threaded client's exchanges: they follow the async ones, but `close` may run between an `OK` and the assignment at
  `src/hostlink/client.py:1855-1857`, so the monitor statement is made for the async client only.
- AsyncClientSections.AsyncHostLinkClient.TakeChunk: the class holds the fields one transport owns; calls, tasks and
  futures of the client system are values, because their interleavings are the point.
- AsyncClientTheorems.OutcomesAreHonest: says nothing of the untyped exception, for the reason given above.
- A PLC that sends two lines for one request, or a line before it: replies could then answer another request.
- AsyncClientTheorems.NoLostUpdates: `Perform` and `WriteBit` address ordinary words; other state-changing commands are one
  command without a memory effect.
- Awaiting the disposal of closed writers, and trace hooks and traffic counters.
- AsyncAdmission.AsyncFifoAdmission.Enter: futures are a map from tickets to their state; the event loop's own queue of
  ready tasks is not modelled, so a task that can run may run at any time.
- ReceiveWork.LinearWork: after a rejected line only a reset follows, as in the receive loop.
- A timer or counter read shows contact and current value from memory; only the preset is ever written here.
- Float packing: a float is the pair of words it packs to. Comment payloads and their codecs are opaque text.
- Dictionaries: a read result is the list of its entries, with distinct keys.
- Python's Unicode and its limit on the digits of `int`: text is ASCII, numbers are unbounded.
- Which families share memory in a given PLC: `NamedWriteAliases` takes any sharing among families of the same kind as a
  parameter; elsewhere families hold separate memory.
- NamedWriteEffects.OneRequestIffOneFamily: families hold separate memory; shared memory is in `NamedWriteAliases`.
- Catalogue bounds of families without a bank notation, and the literal range table.
- The snapshot of a named write's mapping (key splitting, scalar normalisation): its entries start validated, as
  `NamedWrite.ValidEntry` says.
- Low-level command builders, model codes, profiles, clock setting and expansion-unit access: single checks.
