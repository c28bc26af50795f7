# Verified model of NetOpsBench's probing, collection and runtime logic

NetOpsBench benchmarks diagnosis agents against emulated data-centre networks. This project models the
parts of it whose correctness is a matter of reasoning over whole runs, and proves what they promise.

* **Pingmesh rotation and its audit** (`PingmeshPolicy`, `ProbeSchedule`, `CoverageAudit`, `CoverageWindow`,
  `CoverageGrace`).
  The native agent rotates through destination batches and source-port slices with modular index arithmetic;
  the Python side derives the length of a complete window from the same policy and audits the rows it finds.
  The main results: an epoch of cycles is an exact cover of (other client, source port), the audit's
  "complete" means exactly that everything was seen, and any window of the advertised length is audited complete.
* **Probe accounting** (`ProbeAccounting`, `ProbeHeader`). One probe cycle against an arbitrary network: any
  outcome of each send, any stream of replies. A conservation law makes every reported number exact.
* **Traffic agent** (`TokenBucket`, `TrafficFlow`, `TrafficRuntime`). A token-bucket pacer whose rate bound
  holds over every interval of every run, a reconnect state machine per flow, and the load / enable / disable /
  reset runtime around it.
* **BGP collector** (`BgpTracker`, `BgpSpool`, `TagEscape`). A transition tracker whose event log replays to
  what polling reports, a bounded spool of sealed segments that loses nothing the database has not taken in,
  and the tag escape that two programs implement separately.
* **Bounded payloads** (`JsonPayload`, `Utf8`). Recursive compaction of JSON values to a byte budget.
* **Incident lifecycle, cleanup, allocation** (`IncidentEngine`, `CleanupLoop`, `SubnetAllocator`,
  `PodRoundRobin`, `BucketOwnership`).

`Numbers` holds shared arithmetic. Code that changes state step by step is modelled as classes and loops, each
method proved against a specification; expressions are functions. The world outside (sends, replies, clocks,
sleeps, shuffles, hashes, databases) enters as arbitrary parameters. Time never runs backwards, and a sleep takes
at least as long as asked. Byte and cycle counters are unbounded integers, tokens and seconds are real numbers.

Where the code does less than its surroundings suggest, the model keeps the code as it is, and a member below
shows both a case where the property fails and the exact condition under which it holds:

* The Python policy accepts more ports per cycle than the pool has; the agent rejects the generated
  configuration exactly then (`AgentAcceptsGeneratedConfig`).
* A window of one epoch needs at least one interval of grace, which the advertised one has; with less, some run of
  the agents is audited incomplete (`LessGraceIsNotEnough`, `GraceNeededIff`).
* A flow whose payload is more than 2.5 % of its per-second rate can fall behind its rate by any amount; with a
  smaller payload a steady flow never is more than a payload behind (`LargerPayloadsLoseRate`, `RateIsKeptIff`).
* A spool write that seals a segment and then appends can exceed the limit, by at most the marker
  (`LimitIsNotStrict`); by how much the size grows is stated exactly (`Write`). A segment sealed under a name the
  database has reported before can be deleted unread (`ReusedNameLosesLines`, `LossNeedsReuse`).
* A compacted payload can exceed the limit, exactly when the size of the payload has too many digits
  (`BoundCanFail`, `BoundIffMarkerFits`). This takes a payload of at least 10^(limit - 52) bytes, which no
  process can hold: every smaller one meets the limit (`FeasiblePayloadsMeetTheBound`).
* A disable request carrying generation 0 and no digest, before anything is loaded, publishes "ready"
  (`DisableRequest`). Without a plan, ready means exactly that such a request was accepted after the last load or
  reset (`Run`); readiness is meaningful only while a plan is loaded (`ReadyMeans`).
* A teardown can succeed and leave buckets behind: those that a runtime stage created before it failed, when the
  runtime has the pending list of a failed cleanup (`StaleListLosesBuckets`) or was never deployed, so that the
  teardown has nothing physical to do (`SkippedDeletionLosesBuckets`). It leaves nothing exactly when every
  recorded bucket is within its reach (`Teardown`), and a single operation breaks that exactly when it is such a
  stage (`SafeUnlessLosing`, `RunLosesNothing`).
* A profile with a /16 management prefix can never be allocated (`WholeRangeNeverFits`).

## Model

| member | source | states |
|---|---|---|
| PingmeshPolicy.ClampKeepsBatchCount | native/client-agent/src/config.rs:75-81 | The agent's clamped batch size gives the destination batch count the Python policy computes without clamping. |
| PingmeshPolicy.AgentAcceptsGeneratedConfig | native/client-agent/src/config.rs:64-105 | The agent accepts the configuration generated from a policy if and only if there are at least two clients and the ports per cycle fit the pool. |
| PingmeshPolicy.AcceptedConfigs | native/client-agent/src/config.rs:64-105 | What the agent accepts, of any configuration: schema 1, two clients or more, a port slice that fits the pool, and batch counts, epoch and duration as it computes them itself. |
| PingmeshPolicy.DefaultIsOneBatch | netopsbench/models/topology.py:71-74 | Without a configured size there is one batch, of all other clients. |
| PingmeshPolicy.GraceIsTwoIntervals | netopsbench/models/topology.py:85-87 | The grace is two intervals, but never under five seconds. |
| PingmeshPolicy.BatchCountBounds | netopsbench/models/topology.py:71-74 | There are between one and n - 1 destination batches, and striding by that many gives batches within the configured size. |
| ProbeSchedule.TargetsAreTheOthers | native/client-agent/src/pingmesh.rs:701-718 | The target list of a client contains every other client exactly once and never itself, in ring order. |
| ProbeSchedule.PathTypes | native/client-agent/src/pingmesh.rs:701-718 | A target's path type says whether it is in the local rack. |
| ProbeSchedule.BatchesPartitionTargets | native/client-agent/src/pingmesh.rs:720-742 | A rotating batch holds exactly the targets whose batch number it is, each once: the batches partition the targets for every phase. |
| ProbeSchedule.BatchSizesEven | native/client-agent/src/pingmesh.rs:720-742 | No batch is empty or larger than configured, and any two batches differ in size by at most one. |
| ProbeSchedule.SlotInjective | native/client-agent/src/pingmesh.rs:744-756 | Two cycles of one epoch-long window never use the same pair of destination batch and port batch. |
| ProbeSchedule.SlotInWindow | native/client-agent/src/pingmesh.rs:744-756 | Every such pair is used by some cycle of any epoch-long window. |
| ProbeSchedule.BuildProbeSchedule | native/client-agent/src/pingmesh.rs:435-449 | The nested loops produce the specified queue of probes. |
| ProbeSchedule.QueueContents | native/client-agent/src/pingmesh.rs:435-449 | The queue holds one RTT probe per target and socket and one DF probe per target, on that target's socket, and nothing twice. |
| ProbeSchedule.RotationIsPermutation | native/client-agent/src/pingmesh.rs:523-527 | Rotating the queue by any phase loses, adds and duplicates nothing. |
| ProbeSchedule.RotatedAt | native/client-agent/src/pingmesh.rs:523-527 | The rotated queue starts at the phase and goes round. |
| ProbeSchedule.DfSocketsTakeTurns | native/client-agent/src/pingmesh.rs:445 | Consecutive targets take turns on the sockets for their DF probes. |
| ProbeSchedule.QueueStartsAtPhase | native/client-agent/src/pingmesh.rs:305-328 | A cycle's queue is that of its targets and its ports, taken from the cycle's phase on and round. |
| ProbeSchedule.SchedulePhaseMovesOn | native/client-agent/src/pingmesh.rs:328 | The phase starts at the host seed and moves on by a fixed 64-bit step each cycle, wrapping around. |
| ProbeSchedule.PortPhasesTakeTurns | native/client-agent/src/pingmesh.rs:293-294 | Each port batch is the first one of exactly one of as many consecutive host seeds as there are port batches. |
| ProbeSchedule.PortSliceFits | native/client-agent/src/pingmesh.rs:320-322 | The active port slice of every cycle is non-empty and inside the pool. |
| ProbeSchedule.CycleIsItsSlot | native/client-agent/src/pingmesh.rs:305-331 | One cycle sends exactly the RTT probes of its slot, each once. |
| ProbeSchedule.EpochCoversExactlyOnce | native/client-agent/src/pingmesh.rs:305-357 | Over any D * P consecutive cycles, from any first cycle and for any host seed, a source probes every other client from every source port exactly once, and sends no other RTT probe. |
| CoverageAudit.RegularLossBySocketBatch | netopsbench/platform/pingmesh/_detector_coverage.py:165-180 | The dictionary built in the loop holds, for each socket batch, the sum of the losses of its well-formed rows, and no other key. |
| CoverageAudit.SocketBatchOf | netopsbench/platform/pingmesh/_detector_coverage.py:156-162 | Rows belong together by the name, or else the address, of each end and by the port batch; without one of the ends a row belongs nowhere. |
| CoverageAudit.ThirdLossExplains | netopsbench/platform/pingmesh/_detector_coverage.py:183-198 | A DF-only send error is explained from the third packet lost in the same socket batch. |
| CoverageAudit.AllCombinationsCard | netopsbench/platform/pingmesh/_detector_coverage.py:88-96 | The number the audit compares with is the number of ordered pairs of distinct clients times port batches. |
| CoverageAudit.CombinationsFull | netopsbench/platform/pingmesh/_detector_coverage.py:45-96 | The observed combinations fill the expected set if and only if every ordered pair has a row for every port batch. |
| CoverageAudit.CompleteMeansEverythingSeen | netopsbench/platform/pingmesh/_detector_coverage.py:15-121 | For rows that name two distinct known clients, the audit, which compares sizes only, says complete if and only if every ordered pair was seen with every port batch, every destination batch occurs and every row is a valid socket batch. |
| CoverageAudit.SummaryCounts | netopsbench/platform/pingmesh/_detector_coverage.py:50-121 | The summary counts the clients, pairs and combinations seen, the clients missing and the invalid rows. |
| CoverageAudit.InvalidRowsAreCounted | netopsbench/platform/pingmesh/_detector_coverage.py:75-87 | Each invalid row is counted once. |
| CoverageAudit.FewClients | netopsbench/platform/pingmesh/_detector_coverage.py:28-44 | A single client, or none, has one destination batch and no pair to be seen. |
| CoverageAudit.SizesAloneMislead | netopsbench/platform/pingmesh/_detector_coverage.py:88-96 | Without that condition on the rows the sizes can match although a pair was never seen. |
| CoverageWindow.WholeEpochInside | netopsbench/models/topology.py:85-91 | A window of one epoch plus at least one interval of grace contains an epoch of whole cycles of every agent that started within the grace, at any tick phase. |
| CoverageWindow.EmittedRowIsValid | netopsbench/platform/pingmesh/_detector_coverage.py:131-153 | Every row the agent writes without local errors carries the active port count the auditor expects of its port batch. |
| CoverageWindow.CombinationSeen | native/client-agent/src/pingmesh.rs:305-357 | Inside the window there is a row for any ordered pair of clients and any port batch. |
| CoverageWindow.AnyFullWindowIsComplete | netopsbench/platform/pingmesh/_detector_coverage.py:15-153 | End to end: for any accepted policy, n >= 2 clients, tick phases, seeds and window start, the rows of any half-open window of the advertised length are audited complete, if no tick is missed, rows are stored within their cycle and no probe failed locally. |
| CoverageWindow.AnyLongWindowIsComplete | netopsbench/platform/pingmesh/_detector_coverage.py:15-153 | The same for any window of one epoch and at least one interval of grace. |
| CoverageGrace.LessGraceIsNotEnough | netopsbench/models/topology.py:85-91 | With less than one interval of grace, for any acceptable topology, host seeds and window start, some tick phase leaves no whole epoch in the window, and the audit of what the agents have stored is incomplete. |
| CoverageGrace.GraceNeededIff | netopsbench/models/topology.py:85-91 | Windows of one epoch and a grace are audited complete for all agents and logs if and only if the grace is at least one interval. |
| ProbeAccounting.ProbeCycle.constructor | native/client-agent/src/pingmesh.rs:372-375 | A fresh cycle has nothing pending and all counts zero. |
| ProbeAccounting.ProbeCycle.RecordSend | native/client-agent/src/pingmesh.rs:476-520 | Only the counters of the probe's kind and target change, by the amounts the send outcome calls for; only a successful send becomes pending. |
| ProbeAccounting.ProbeCycle.SendProbe | native/client-agent/src/pingmesh.rs:452-521 | Every send is written to the history with its outcome and keeps the conservation law of every kind and target; a fatal error changes nothing. |
| ProbeAccounting.ProbeCycle.TakeReply | native/client-agent/src/pingmesh.rs:564-588 | A reply settles its pending probe once, as a sample or as invalid when it has no timestamp; duplicates and stale sequence numbers change nothing. |
| ProbeAccounting.ProbeCycle.SettleProbe | native/client-agent/src/pingmesh.rs:564-588 | Settling moves one probe from the unanswered to the settled ones, changes only the counters of its kind and target, and keeps the law. |
| ProbeAccounting.ProbeCycle.DrainReplies | native/client-agent/src/pingmesh.rs:551-591 | Any stream of datagrams keeps the law and the history of sends; what is unanswered and what is settled afterwards is what taking the datagrams one by one gives. |
| ProbeAccounting.TakeAllDrains | native/client-agent/src/pingmesh.rs:551-591 | Exactly the probes that some datagram answers leave the pending map, and each settled probe was settled by a datagram received. |
| ProbeAccounting.ProbeCycle.UnansweredDfTargets | native/client-agent/src/pingmesh.rs:529-535 | Each target is listed as often as it has DF probes in flight, and only with the socket of such a probe, whatever the order of the map. |
| ProbeAccounting.ProbeCycle.SendQueue | native/client-agent/src/pingmesh.rs:388-403 | The queue, rotated by the phase, goes out in order, each probe to its target from its socket, until a send is fatal; what is pending is what these sends leave pending; then every target has had one RTT attempt per socket and one DF attempt. |
| ProbeAccounting.ProbeCycle.ConfirmUnanswered | native/client-agent/src/pingmesh.rs:408-423 | Each unanswered DF probe is repeated fifteen times, to its target from its socket, until a send is fatal, and nothing else is attempted. |
| ProbeAccounting.ProbeCycle.SecondRound | native/client-agent/src/pingmesh.rs:408-428 | The second round sends the confirmations and drains; the unanswered and settled probes afterwards are exactly those this leaves. |
| ProbeAccounting.ProbeCycle.DrainUntil | native/client-agent/src/pingmesh.rs:424-428 | Draining stops at the deadline or when nothing is pending, no earlier, and drains once more; no probe left pending was answered by anything drained, and what was sent stays as it was. |
| ProbeAccounting.ProbeCycle.Run | native/client-agent/src/pingmesh.rs:364-433 | A whole cycle keeps the law over a history that is the rotated queue followed by the confirmations, with the outcomes of the network, and ends with exactly the unanswered and settled probes these sends and the drains leave; the confirmed targets are those with a DF probe unanswered after the first round; it reports, per target, numbers built from counts with known attempts; every settled probe was settled by a datagram received; no probe still pending was answered by anything received after its round of sends; the cycle ends at the deadline or with nothing pending, and fails only on a fatal send or receive. |
| ProbeAccounting.NoFailures | native/client-agent/src/pingmesh.rs:476-520 | A cycle in which no send fails in some way counts no such failure. |
| ProbeAccounting.ReportIsExact | native/client-agent/src/pingmesh.rs:768-803 | In any reported row no subtraction saturates: sent = samples + lost; lost = still unanswered + sends that failed on the path; local errors = oversized + busy + unstamped replies; MTU drops = oversized DF sends; sent and local errors add up to the attempts; a loss percentage is the true fraction. The summands are counts over the histories of sends and settled probes. |
| ProbeAccounting.RoundTripAddsUp | native/client-agent/src/pingmesh.rs:682-690 | Sending time, responder time and round trip add up to the arrival; what would be negative counts as zero. |
| ProbeAccounting.SendKeeps | native/client-agent/src/pingmesh.rs:476-518 | A send keeps the law, for its own kind and target and for all others: sent = received + invalid + in flight + failed on the path, with samples, drops and local errors counted over the histories. |
| ProbeAccounting.ReplyKeeps | native/client-agent/src/pingmesh.rs:564-588 | So does a reply. |
| ProbeAccounting.KeptBySend | native/client-agent/src/pingmesh.rs:476-518 | Over any sends, each probe that went out is either unanswered or settled, never both, and nothing else is. |
| ProbeAccounting.KeptByReply | native/client-agent/src/pingmesh.rs:564-588 | The same over any replies: a probe is settled at most once. |
| ProbeAccounting.AttemptsInQueue | native/client-agent/src/pingmesh.rs:435-449 | How often the queue attempts each kind and target. |
| ProbeHeader.EncodeHeader | native/client-agent/src/pingmesh.rs:656-667 | The header is written over the first 24 bytes in place and nothing else changes; a shorter packet is refused untouched. |
| ProbeHeader.NumberSurvives | native/client-agent/src/pingmesh.rs:664-665 | A 64-bit number survives its big-endian bytes. |
| ProbeHeader.DecodesIffHeader | native/client-agent/src/pingmesh.rs:669-680 | A packet decodes to a sequence number and a time if and only if it starts with the header made of them, the reserved bytes aside. |
| ProbeHeader.Respond | native/client-agent/src/pingmesh.rs:235-273 | The responder echoes exactly the timestamped packets with a valid header, with the processing time put in. |
| ProbeHeader.RoundTrip | native/client-agent/src/pingmesh.rs:656-680 | A probe comes back with its own sequence number, the processing time and its own payload. |
| TokenBucket.TokensInRange | native/client-agent/src/traffic.rs:596-605 | Tokens stay between zero and the burst over every run. |
| TokenBucket.IntervalBound | native/client-agent/src/traffic.rs:422-566 | The bytes since any service call are at most the burst plus what the rate earned since, less the tokens left. |
| TokenBucket.BoundBetween | native/client-agent/src/traffic.rs:422-566 | Between any two service calls of any run the bytes are at most burst + rate * elapsed. |
| TokenBucket.StartBound | native/client-agent/src/traffic.rs:422-566 | From the start the total is at most rate * elapsed, with no burst to draw on. |
| TokenBucket.RateIsReached | native/client-agent/src/traffic.rs:596-605 | With a payload of at most 2.5 % of the per-second rate, gaps of at most 100 ms and no send that stops short, the bytes from any point with less than a payload in the bucket stay within one payload of rate * elapsed. |
| TokenBucket.LargerPayloadsLoseRate | native/client-agent/src/traffic.rs:596-605 | With any larger payload, punctual runs of whole payloads that never stop short fall behind by any amount. |
| TokenBucket.RateIsKeptIff | native/client-agent/src/traffic.rs:596-605 | Such runs stay within one payload of the rate if and only if a payload is at most 2.5 % of the per-second rate. |
| TrafficFlow.ScheduledFlow.SetFlowActive | native/client-agent/src/traffic.rs:644-660 | The flag and the counter move together, readiness is recomputed on a change, and the decrement never saturates. |
| TrafficFlow.ScheduledFlow.ScheduleRetry | native/client-agent/src/traffic.rs:619-623 | The next attempt is one jittered delay ahead and the delay doubles up to 5 s. |
| TrafficFlow.RetryDelayRange | native/client-agent/src/traffic.rs:619-623 | A scheduled retry lies between 450 ms and 5 s ahead, and within 10 % of the base delay, for every jitter. |
| TrafficFlow.DelaysInTurn | native/client-agent/src/traffic.rs:619-623 | After failures in a row the base delay is half a second, one, two, four and then always five seconds. |
| TrafficFlow.FailuresBackOff | native/client-agent/src/traffic.rs:484-562 | A flow that fails to open its transport, or loses the stream it had, waits as long as its failures in a row ask for and counts one more. |
| TrafficFlow.ScheduledFlow.SendDatagrams | native/client-agent/src/traffic.rs:455-483 | Exactly the datagrams go out that the tokens and the network allow, whole, until a send blocks or fails; the flow is active from the first one on, and inactive with an error once one fails. |
| TrafficFlow.ScheduledFlow.WriteStream | native/client-agent/src/traffic.rs:525-548 | Exactly the bytes go out that the tokens and the network allow, partial writes paid for byte by byte, until a write blocks, fails or writes nothing; the stream counts as lost after either of the last two and not otherwise, with an error after a failure only. |
| TrafficFlow.ScheduledFlow.ServiceSocket | native/client-agent/src/traffic.rs:434-483 | A UDP flow gets its socket or backs off, and sends what it can from it and only from it; errors are recorded exactly for failed set-ups and sends, and a failed send makes the flow inactive. |
| TrafficFlow.ScheduledFlow.ServiceStream | native/client-agent/src/traffic.rs:484-562 | A TCP flow never has both a stream and a pending connect and is active exactly when it has a stream; it drops the stream exactly when a write fails or writes nothing; a connect that succeeds resets the delay; after a failed connect or a lost stream the retry is one jittered delay ahead, the delay is doubled and a reconnect counted, and otherwise none of these changes; errors are recorded exactly for failed connects and writes. |
| TrafficFlow.BrokenStreamsAreDropped | native/client-agent/src/traffic.rs:525-562 | A stream that stops short without a write that would block is dropped; one is dropped only if some write fails or writes nothing, and the next attempt is then at least 450 ms ahead. |
| TrafficFlow.ServedFacts | native/client-agent/src/traffic.rs:434-562 | A service call keeps the transport state machine sound, never overdraws the tokens, and stops with a payload's tokens left only if nothing could be sent from or a send halted. |
| TrafficFlow.ScheduledFlow.PollConnect | native/client-agent/src/traffic.rs:490-523 | A finished connect becomes the stream or a retry; one that is not finished stays pending. |
| TrafficFlow.ScheduledFlow.ServiceFlow | native/client-agent/src/traffic.rs:422-566 | One service call sends exactly what its tokens, its transport and the network allow and appends it to the flow's history, so every run obeys the token-bucket bounds; it keeps the transport state machine valid, with streams dropped and retries made exactly as they should be. |
| TrafficFlow.ScheduledFlow.ServiceSteadily | native/client-agent/src/traffic.rs:422-566 | A flow that can send, as a new one can, whose sends never halt and whose calls are punctual, stays within one payload of its rate over any number of calls. |
| TrafficRuntime.CountUpdate | native/client-agent/src/traffic.rs:644-660 | Changing one flag changes the number of active flags by exactly that flag. |
| TrafficRuntime.TrafficRuntime.Load | native/client-agent/src/traffic.rs:170-220 | A load without identity or with a digest mismatch changes nothing; a bind failure leaves no plan and a cleared status; success replaces the plan, disabled, and publishes it with all other counters as they were. |
| TrafficRuntime.TrafficRuntime.Enable | native/client-agent/src/traffic.rs:231-254 | A stale generation or digest, or a runtime already sending, changes nothing at all; otherwise there is one new flow for each flow of the loaded plan, starting at the time of the request, and the status says so. |
| TrafficRuntime.TrafficRuntime.DisableRequest | native/client-agent/src/traffic.rs:142-154 | A mismatch changes nothing; otherwise sending stops, and without a plan the agent then reports ready. |
| TrafficRuntime.TrafficRuntime.Disable | native/client-agent/src/traffic.rs:264-273 | Sending stops, and readiness falls back to the listeners. |
| TrafficRuntime.TrafficRuntime.Reset | native/client-agent/src/traffic.rs:222-229 | A reset leaves no plan, no flows and a default status. |
| TrafficRuntime.AllBytesUpdate | native/client-agent/src/traffic.rs:411-420 | One more service adds exactly its bytes to the total of all flows. |
| TrafficRuntime.AllWithinRates | native/client-agent/src/traffic.rs:411-420 | The bytes of all flows together are at most what their rates earned. |
| TrafficRuntime.TrafficRuntime.PublishedWithinRates | native/client-agent/src/traffic.rs:382-414 | The bytes published since enabling are at most the bandwidth of the loaded plan times the time up to the last pass, at eight bits to the byte. |
| TrafficRuntime.AllowedByBandwidth | native/client-agent/src/traffic.rs:422-434 | What the flows may send together is the sum of their bandwidths times the time. |
| TrafficRuntime.TrafficRuntime.Tick | native/client-agent/src/traffic.rs:382-414 | One pass makes, for each flow, the service call that is due at the time of the pass, and moves the published packet and byte counters by exactly what the flows' histories gained; without a sender it changes nothing. |
| TrafficRuntime.TrafficRuntime.ReadyMeans | native/client-agent/src/traffic.rs:644-660 | While a plan is loaded, ready means the listeners match and, if enabled, all flows are active. |
| TrafficRuntime.TrafficRuntime.Run | native/client-agent/src/traffic.rs:113-168 | Every request and every scheduler pass of any interleaving does what it is specified to do, in order; the active count equals the number of active flags; without a plan ready is true exactly when a disable request was accepted after the last load or reset; and what a sending runtime has published is within the bandwidth of its plan up to the last pass. |
| BgpTracker.LogRefinesPolling | netopsbench/platform/observability/bgp_collector.py:207-261 | For any sequence of polls the tracked state of a neighbor is the state polling alone reports (MISSING when dropped), and its events form a chain of real changes from the first state seen to it. |
| BgpTracker.LogIsTheReport | netopsbench/platform/observability/bgp_collector.py:162-261 | The event log is what polling alone would report: an event, with the AS number and the prefixes before and after, for each poll that changes the polled state. |
| BgpTracker.TrackedIsPolled | netopsbench/platform/observability/bgp_collector.py:207-261 | What is tracked of a neighbor is what polling says: state, prefixes and AS number. |
| BgpTracker.NormalizedState | netopsbench/platform/observability/bgp_collector.py:94-97 | A state is reported without the blanks around it and in capitals. |
| BgpTracker.CurrentRowIsLast | netopsbench/platform/observability/bgp_collector.py:216 | A poll is read by the last row that names a neighbor. |
| BgpTracker.CurrentRowIsNamed | netopsbench/platform/observability/bgp_collector.py:216 | A poll is read by no other rows. |
| BgpTracker.FailedPollsAreInvisible | netopsbench/platform/observability/bgp_collector.py:207-226 | Removing the failed polls from a run changes neither states nor events. |
| BgpTracker.DownsBalanceRecoveries | netopsbench/platform/observability/bgp_collector.py:162-197 | Losses minus recoveries equals established at first minus established now. |
| BgpTracker.DownsAndRecoveriesAlternate | netopsbench/platform/observability/bgp_collector.py:162-197 | Between two losses of a session there is a recovery, and the other way round. |
| BgpTracker.BgpTransitionTracker.Process | netopsbench/platform/observability/bgp_collector.py:207-261 | One poll takes every neighbor of the device one specified step and touches no other device. |
| BgpTracker.BgpTransitionTracker.TakeListed | netopsbench/platform/observability/bgp_collector.py:228-243 | The loop over listed neighbors does its steps and no others. |
| BgpTracker.BgpTransitionTracker.TakeMissing | netopsbench/platform/observability/bgp_collector.py:245-261 | The loop over dropped neighbors does its steps and no others. |
| BgpTracker.BgpTransitionTracker.LogReplays | netopsbench/platform/observability/bgp_collector.py:200-261 | At any time the log sliced to one neighbor replays to its tracked state, with losses and recoveries balanced. |
| BgpSpool.Spool.MaxTimestamp | netopsbench/platform/observability/bgp_collector.py:441-448 | The newest timestamp of the active file, or none when no line has one. |
| BgpSpool.Spool.FreeSequence | netopsbench/platform/observability/bgp_collector.py:473-479 | The loop terminates with the least number that gives a file name not in use. |
| BgpSpool.Spool.RotateActive | netopsbench/platform/observability/bgp_collector.py:467-494 | Sealing moves the active lines, unchanged and in order, into a new segment with the first free name of their newest timestamp; each refusal has its exact condition and changes nothing. |
| BgpSpool.Spool.Write | netopsbench/platform/observability/bgp_collector.py:502-530 | The text of an accepted batch, its lines joined and ended by a newline, is appended to the text accepted before, after a seal exactly when it would not fit the segment; a refused one changes nothing; the size grows by the batch plus the marker of a seal, and over any run it never exceeds the limit by more than the marker of the newest segment. |
| BgpSpool.RenderedText | netopsbench/platform/observability/bgp_collector.py:511-513 | What a batch adds is its lines joined by newlines and ended by one, or nothing when that is empty. |
| BgpSpool.LinesSizeIsBytes | netopsbench/platform/observability/bgp_collector.py:514 | The size of lines is the number of bytes of their text. |
| BgpSpool.MarkerIsALine | netopsbench/platform/observability/bgp_collector.py:475-483 | The marker is a well-formed line with the segment name, the escaped topology and the newest timestamp. |
| BgpSpool.NamesDiffer | netopsbench/platform/observability/bgp_collector.py:473-479 | Different segments have different names. |
| BgpSpool.Spool.DeleteIngested | netopsbench/platform/observability/bgp_collector.py:533-542 | Exactly the files with reported ids go; what is accepted remains the sealed history plus the active file, in order. |
| BgpSpool.DeletingLeaves | netopsbench/platform/observability/bgp_collector.py:533-542 | Deletion filters the files on disk and does not touch the history of accepted lines. |
| BgpSpool.DeletionShrinks | netopsbench/platform/observability/bgp_collector.py:497-499 | A deletion never increases the size. |
| BgpSpool.SealingKeepsSafe | netopsbench/platform/observability/bgp_collector.py:467-494 | Sealing keeps the invariant that a deleted segment was taken in by the database or bore a name reported before. |
| BgpSpool.Spool.LossNeedsReuse | netopsbench/platform/observability/bgp_collector.py:533-542 | A segment the database has not taken in can be named by a report if and only if its name had been reported before it was sealed. |
| BgpSpool.LimitIsNotStrict | netopsbench/platform/observability/bgp_collector.py:512-530 | A run in which the spool exceeds its limit. |
| BgpSpool.ReusedNameLosesLines | netopsbench/platform/observability/bgp_collector.py:473-479 | A run in which a reused name makes a deletion lose lines the database never had. |
| TagEscape.ChainIsOnePass | native/client-agent/src/pingmesh.rs:864-870 | Four whole-string replacements in a row equal one pass over the characters, in either order of the middle two. |
| TagEscape.BothAreOnePass | netopsbench/platform/observability/bgp_collector.py:86-87 | The agent's and the collector's escape are the same function. |
| TagEscape.EscapeIsReversible | netopsbench/platform/observability/bgp_collector.py:86-87 | An unescaper inverts it on every string, and no bare comma, space or equals sign survives. |
| Utf8.DecodeEncoded | netopsbench/platform/incident/payloads.py:49-52 | Decoding undoes encoding. |
| Utf8.CutDecodesToLongestPrefix | netopsbench/platform/incident/payloads.py:49-52 | Cutting the bytes anywhere and decoding with errors ignored yields exactly the longest whole-character prefix that fits. |
| Utf8.LongestIsLongest | netopsbench/platform/incident/payloads.py:49-52 | No longer prefix fits. |
| Utf8.StrayByteIsBad | netopsbench/platform/incident/payloads.py:49-52 | A byte that cannot lead a character is dropped alone. |
| JsonPayload.SortSorts | netopsbench/platform/incident/payloads.py:30 | The entries are processed in key order, none lost or added. |
| JsonPayload.SizeIsBytes | netopsbench/platform/incident/payloads.py:9-10 | The size of a value is the number of bytes of its compact encoding. |
| JsonPayload.CompactValue | netopsbench/platform/incident/payloads.py:27-53 | The recursive, in-place compaction computes the specified value. |
| JsonPayload.CompactDict | netopsbench/platform/incident/payloads.py:28-38 | The loop that fills and pops a dictionary computes the specified value. |
| JsonPayload.CompactList | netopsbench/platform/incident/payloads.py:39-48 | The loop that fills and pops a list computes the specified value. |
| JsonPayload.CompactedDict | netopsbench/platform/incident/payloads.py:28-38 | A dictionary keeps the first entries in key order, each compacted to what was left; kept and omitted add up; the result is within budget unless nothing was kept; one more entry would not have fitted. |
| JsonPayload.CompactedList | netopsbench/platform/incident/payloads.py:39-48 | The same for a list, in list order. |
| JsonPayload.CompactAbbreviates | netopsbench/platform/incident/payloads.py:27-53 | At every depth the result is the value with the ends of texts, lists and dictionaries cut off and each cut recorded; nothing is altered, reordered or invented. |
| JsonPayload.NotesCanBeRead | netopsbench/platform/incident/payloads.py:20-52 | The notes say, as numbers that read back, how large the payload was, how many entries are missing and how long a text was. |
| JsonPayload.RemainingLeavesRoom | netopsbench/platform/incident/payloads.py:32-43 | A child gets what the kept entries and 256 bytes leave, but at least 128. |
| JsonPayload.CompactPayload | netopsbench/platform/incident/payloads.py:15-24 | The entry point computes the specified value. |
| JsonPayload.BoundIffMarkerFits | netopsbench/platform/incident/payloads.py:15-24 | For every value and every limit of at least 1024, the result fits if and only if the value does or the number of digits of its size is at most the limit less 52. |
| JsonPayload.FeasiblePayloadsMeetTheBound | netopsbench/platform/incident/payloads.py:15-24 | A payload of fewer than 10^(limit - 52) bytes always meets the limit. |
| JsonPayload.BoundCanFail | netopsbench/platform/incident/payloads.py:15-24 | For every such limit there is a value, of 10^(limit + 1) bytes, whose result does not fit. |
| JsonPayload.CompactionIsIdempotent | netopsbench/platform/incident/payloads.py:15-24 | Values that fit are returned unchanged, and compacting twice is compacting once wherever the bound holds. |
| IncidentEngine.PreparedIncident.Prepare | netopsbench/platform/incident/engine.py:160-176 | Only a new incident can be prepared; a failed preparation releases the backend at once and ends broken. |
| IncidentEngine.PreparedIncident.FinishBackend | netopsbench/platform/incident/engine.py:260-281 | The backend is released, the status decided and the listener notified, each once and in this order. |
| IncidentEngine.PreparedIncident.Close | netopsbench/platform/incident/engine.py:248-258 | The first close decides the status; later ones change nothing and report it. |
| IncidentEngine.PreparedIncident.CallTool | netopsbench/platform/incident/engine.py:187-196 | A query reaches the backend only of an active incident with a valid action, between two lease refreshes. |
| IncidentEngine.PreparedIncident.EvaluateDiagnosis | netopsbench/platform/incident/engine.py:198-243 | Only an active incident whose lease is refreshed evaluates, and the effects on the backend are exactly a refresh and an evaluation. |
| IncidentEngine.PreparedIncident.OpenSession | netopsbench/platform/incident/engine.py:178-185 | A session opens only on an active incident with a configuration and a refreshed lease; it is new and has the limits asked for, or else the default ones, and the lease is refreshed for its time limit. |
| IncidentEngine.PreparedIncident.WholeLife | netopsbench/platform/incident/engine.py:128-281 | Over the whole life: prepared at most once and first, used only when prepared, released at most once, and after the release nothing but one notification. |
| IncidentEngine.DiagnosticSession.CallTool | netopsbench/platform/incident/engine.py:304-347 | Each call within the limits is recorded once and answered once without reward; at a limit the session ends with reward zero and nothing is recorded. |
| IncidentEngine.DiagnosticSession.Submit | netopsbench/platform/incident/engine.py:349-386 | The backend evaluates exactly when the session runs, the incident is active, calls are strictly below their limit and time is at most its limit: then the evaluations grow by one, with the calls and the time of the moment, and so does the backend's log; otherwise neither changes. An evaluation that raises leaves the session open and unrewarded. |
| IncidentEngine.DiagnosticSession.TerminateFailure | netopsbench/platform/incident/engine.py:388-406 | A reported failure ends an active session with reward zero. |
| IncidentEngine.DiagnosticSession.LimitTransition | netopsbench/platform/incident/engine.py:408-426 | A limit ends the session if and only if time or calls are used up. |
| IncidentEngine.DiagnosticSession.OneReward | netopsbench/platform/incident/engine.py:284-426 | At most one transition is rewarded; it is the last, and one answer precedes it per recorded call. |
| IncidentEngine.Drive | netopsbench/platform/incident/engine.py:128-443 | Any sequence of calls on an incident and its sessions takes them through exactly the specified states, records, answers and effects; all invariants are kept, sessions only grow until they end, every evaluation in the backend's log happened within the limits, and once the cleanup status is decided nothing changes any more. |
| IncidentEngine.LimitsAsAskedFor | netopsbench/platform/incident/engine.py:178-443 | Over any calls, every session has limits that were asked for when one was opened, and every evaluation was made within such limits. |
| CleanupLoop.FaultInjector.RecoverAll | netopsbench/platform/faults/injector.py:211-233 | One result per active fault in order, and the faults that stay are the specified ones. |
| CleanupLoop.StayingIsSubsequence | netopsbench/platform/faults/injector.py:211-233 | The staying faults are exactly the unrecovered ones, as an order-preserving subsequence. |
| CleanupLoop.NoneStay | netopsbench/platform/scenario/executor.py:149-153 | When all results are good, no fault stays. |
| CleanupLoop.HopelessIffGivenUp | netopsbench/platform/scenario/executor.py:155-160 | Recovery is given up exactly when some fault was answered about, is not recovered and is not to be retried. |
| CleanupLoop.ScenarioExecutor.CleanupAfterScenario | netopsbench/platform/scenario/executor.py:162-289 | At most max(1, ceil(timeout / 5)) attempts; success means no active fault, good results, verified traffic, no health errors and a passed baseline gate where they apply; a time-out is reported only past the deadline and names what was missing; the time at the end, the recovery calls and the wait after recovery are those the attempts add up to; no attempt but the first starts past the deadline; faults and results are those of recovering what remains once per attempt; the loop stops at the first attempt that recovers and converges or gives a fault up; a complete recovery is never run again. |
| CleanupLoop.RecoveriesChange | netopsbench/platform/scenario/executor.py:162-289 | Faults and results change only in a recovery call that returned, and none is made when recovery is complete from the start. |
| CleanupLoop.ScenarioExecutor.SleepsFiveSeconds | netopsbench/platform/scenario/executor.py:272-275 | Between attempts the loop sleeps five seconds, or up to the deadline. |
| SubnetAllocator.ContainsIsInterval | netopsbench/platform/runtime/deployment.py:102-105 | For an aligned block, masking an address is membership of the interval. |
| SubnetAllocator.OverlapsIsIntersection | netopsbench/platform/runtime/deployment.py:102-105 | Two CIDR blocks overlap if and only if some address lies in both. |
| SubnetAllocator.CandidatesApart | netopsbench/platform/runtime/deployment.py:36-48 | Candidates one stride apart never touch, for every prefix from 16 to 30 and any base, aligned or not. |
| SubnetAllocator.CandidateInside | netopsbench/platform/runtime/deployment.py:41-48 | Every candidate lies in 172.31.0.0/16. |
| SubnetAllocator.OctetsByWorker | netopsbench/platform/runtime/deployment.py:41-48 | The first worker gets the base octet, or with /24 blocks the next one; each further worker gets one stride more, unless the block would pass 254. |
| SubnetAllocator.StrideIsBlock | netopsbench/platform/runtime/deployment.py:36-38 | The stride is exactly the block, or one octet for smaller blocks. |
| SubnetAllocator.FreeIsSound | netopsbench/platform/runtime/deployment.py:98-107 | The free candidates are steps of the stride from the start, rise by at least the stride and avoid every network in use. |
| SubnetAllocator.FreeIsComplete | netopsbench/platform/runtime/deployment.py:98-107 | No candidate that avoids every network in use is left out. |
| SubnetAllocator.AllocateManagementSubnets | netopsbench/platform/runtime/deployment.py:87-110 | The result is the first `workers` free candidates; it fails if and only if there are fewer, none is asked for, or the first block passes octet 254. |
| SubnetAllocator.OverlapsSelected | netopsbench/platform/runtime/deployment.py:101-105 | The check against the blocks selected before never fires. |
| SubnetAllocator.ChosenAreDisjoint | netopsbench/platform/runtime/deployment.py:87-110 | The chosen blocks share no address with each other or with any network in use, and lie in 172.31.0.0/16. |
| SubnetAllocator.WholeRangeNeverFits | netopsbench/platform/runtime/deployment.py:41-48 | A /16 profile always fails. |
| PodRoundRobin.Group | netopsbench/platform/scenario/generator.py:754-761 | Each candidate is in the group of its pod or among those without one, in order and with its multiplicity. |
| PodRoundRobin.RoundIsBalanced | netopsbench/platform/scenario/generator.py:774-778 | At any turn of any round no pod is more than one device ahead of a pod that has some left. |
| PodRoundRobin.DealRound | netopsbench/platform/scenario/generator.py:775-778 | One round deals one device of every pod that has one, keeping all prefixes balanced. |
| PodRoundRobin.Deal | netopsbench/platform/scenario/generator.py:773-778 | The loop terminates with every grouped device dealt, balanced in every prefix, round by round from the end of each group. |
| PodRoundRobin.OrderedTemplateDevices | netopsbench/platform/scenario/generator.py:747-780 | For any shuffles the order is a permutation of the candidates, every prefix is balanced over the pods, devices without a pod come last, and it is the specified function of the shuffles. |
| PodRoundRobin.OrderingIsReproducible | netopsbench/platform/scenario/generator.py:747-780 | Candidates, pods and shuffles decide the order: the same seed gives the same devices. |
| PodRoundRobin.Targets | netopsbench/platform/scenario/generator.py:803-815 | A template gets its number of distinct devices of the role, the first of its order, spread over the pods as evenly as they allow. |
| PodRoundRobin.Generate | netopsbench/platform/scenario/generator.py:783-841 | Templates are served in order up to the first that asks for too many devices, each with good targets of its own order, and numbered per fault across templates. |
| PodRoundRobin.NumbersDiffer | netopsbench/platform/scenario/generator.py:817-819 | No two scenarios of one fault share a number. |
| BucketOwnership.ManagedBucketRegistry.RecordCreated | netopsbench/platform/observability/ownership.py:48-59 | A recorded owner is never overwritten. |
| BucketOwnership.ManagedBucketRegistry.ActiveForRuntime | netopsbench/platform/observability/ownership.py:61-66 | Exactly the buckets of the runtime, each once. |
| BucketOwnership.ManagedBucketRegistry.MarkDeleted | netopsbench/platform/observability/ownership.py:68-74 | Exactly this bucket is forgotten. |
| BucketOwnership.CreateOne | netopsbench/platform/runtime/lifecycle.py:258-273 | Creating one bucket touches no other runtime's record and no foreign bucket. |
| BucketOwnership.RuntimePool.EnsureBuckets | netopsbench/platform/runtime/lifecycle.py:258-273 | The stage records exactly the buckets that did not exist before, as far as it got. |
| BucketOwnership.RuntimePool.RunStage | netopsbench/platform/runtime/manager.py:76-89 | A completed stage is not run again; a failed one keeps the state and what it created; the list of the next teardown stays complete unless the stage fails after creating a bucket while a pending list is held. |
| BucketOwnership.RuntimePool.DeleteCreated | netopsbench/platform/runtime/manager.py:161-175 | Exactly the deletable buckets of the list disappear from the database and the registry; the rest stay listed, in order. |
| BucketOwnership.RuntimePool.TeardownResources | netopsbench/platform/runtime/manager.py:106-142 | Every bucket on the list is deleted and unregistered, or still recorded and pending. |
| BucketOwnership.RuntimePool.Teardown | netopsbench/platform/runtime/manager.py:106-159 | A teardown that succeeds leaves no bucket recorded if and only if every recorded bucket was within reach: on its list, and the runtime deployed or started at least; one that fails keeps the list complete for the retry; other runtimes' and foreign buckets are untouched. |
| BucketOwnership.RuntimePool.Provision | netopsbench/platform/runtime/manager.py:231-300 | Success owns the buckets created; a compensated failure owns exactly those that could not be deleted, and they are the pending list, or it ends as failed exactly when the directory stays; either way everything created by it is within reach of a teardown. |
| BucketOwnership.StaleListLosesBuckets | netopsbench/platform/runtime/manager.py:127-130 | A run in which the pending list is stale and a torn-down runtime still owns a bucket. |
| BucketOwnership.SkippedDeletionLosesBuckets | netopsbench/platform/runtime/manager.py:106-125 | A run without a deployment in which the observability stage creates a bucket and fails, and teardown succeeds without looking for it. |
| BucketOwnership.SafeUnlessLosing | netopsbench/platform/runtime/manager.py:76-159 | A stage or teardown keeps every recorded bucket within reach of the next teardown if and only if it is not a stage that creates a bucket and fails while the runtime is torn down, undeployed, or has a pending list. |
| BucketOwnership.RunLosesNothing | netopsbench/platform/runtime/manager.py:76-159 | Over any sequence of stages and teardowns without such a stage, a teardown that succeeds leaves no bucket recorded. |
| BucketOwnership.RuntimePool.Operate | netopsbench/platform/runtime/manager.py:76-159 | Any sequence of stages and teardowns takes the runtime through exactly the specified books. |

## Left out

- Sockets, kernel timestamps, socket options, HTTP posting, Docker, Containerlab and InfluxDB themselves: their outcomes are arbitrary inputs.
- Rounding of 64-bit floats: rates, tokens, times and percentages are real numbers; RTT minimum, mean and percentiles are not modelled.
- Wrap-around of the 64-bit cycle and sequence counters: counters are unbounded. The queue-rotation phase is taken modulo 2^64 as in the code.
- The hash functions behind host seeds, retry jitter and plan digests, and Python's random generator: arbitrary functions and permutations.
- ProbeAccounting.ProbeCycle.Run: the drain of stale datagrams before a cycle and the spacing of sends are not modelled; they do not touch the counters.
- ProbeAccounting.ProbeCycle.UnansweredDfTargets: the map's iteration order is arbitrary.
- CoverageAudit.CompleteMeansEverythingSeen: the spans of observed cycles that the summary also reports, and the exception on a probe cycle that is no integer, are not modelled; a missing policy key is an error value.
- CoverageWindow.AnyFullWindowIsComplete: assumes what the statement lists (no missed tick, rows stored within their own cycle, no local errors); the number of clients the facts report is the number of clients.
- TrafficFlow.ScheduledFlow.SendDatagrams: a datagram is sent whole; a short datagram send is not modelled.
- TrafficRuntime.TrafficRuntime.Run: operations interleave between scheduler passes; aborting the sender in the middle of a service call is not modelled.
- BgpTracker.BgpTransitionTracker.Process: dictionary order is arbitrary, so the order of events of different neighbors within a poll is not stated; state normalisation strips and upper-cases ASCII characters only.
- BgpSpool.Spool.MaxTimestamp: a line comes with the timestamp found at its end; the regular expression is not modelled, nor lines that contain a newline.
- BgpSpool.Spool.DeleteIngested: a report names only ids whose marker the database has taken in, and a marker means the segment before it; removed files are listed in the order they were sealed, not by name; a crash between writing a marker and renaming the file is not modelled.
- JsonPayload.CompactedDict: keys are strings and distinct, as in any parsed object; non-string keys and non-finite numbers are not modelled. A value that itself uses the key `_truncation` is compacted as in the code, but the claim that nothing is altered is made for values without it.
- IncidentEngine.Drive: calls are sequential; the tool and close locks, the contents of observations, metrics and ground truth are not modelled, and the close listener does not call back into the incident.
- CleanupLoop.ScenarioExecutor.CleanupAfterScenario: checks that raise instead of reporting, and the texts of errors, are not modelled.
- SubnetAllocator.AllocateManagementSubnets: returns third octets rather than the rendered text; networks that do not parse are assumed dropped beforehand.
- PodRoundRobin.Generate: building and writing the scenario files is not modelled; a template comes with the candidates of its role.
- BucketOwnership.ManagedBucketRegistry.ActiveForRuntime: the sorted order of the list is not stated; timestamps, file locking and several processes on one runtime are not modelled.
- BucketOwnership.RuntimePool.Provision: creating the runtime directory and persisting its metadata are not modelled; a deletion that raises is taken not to have deleted.
- Scoring, report averages, fault aliases, the command line, plots, LLM providers and configuration rendering: table look-ups and plumbing that would only add easy members.
