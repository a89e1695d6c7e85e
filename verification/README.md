# Verified model of weregopher's app-server session and archive core

This project models, in Dafny, the parts of weregopher that carry state or must undo each other, and proves
what they promise over every input, every run and every interleaving.

**The app-server session.** A packaged client and a spawned app-server process talk JSON lines through one
owner object. Three stateful parts run in lock step under it: a transparent proxy (two bounded FIFO queues,
request correlation in both directions, retired identities kept as digests, deadlines, counters), an event
journal (a bounded evicting log with its own shadow correlation maps), and the session proper (an
initialization handshake, a lifecycle, and a stdin worker reached over two bounded channels). The source has
many "inconsistent state" branches; the proofs show that none of them can be taken.

**The ASAR archive.** A bounded parser and a deterministic writer of Electron archives, and a zero-copy index
over the same bytes.

**Two digests.** The order-independent digest of a generated schema bundle, and the hash-chained certification
ledger.

## How the model is built

- *Layers.* `ProxyModel` and `JournalModel` give each operation as a transition on values. The classes
  `TransparentProxy` and `EventJournal` mirror the source step by step, including the order in which fields
  change and every inconsistency branch, and are proved to compute exactly those transitions and to leave
  everything unchanged on an error. `ProxyRuns`, `JournalRuns` and `CoupledRuns` reason about whole runs.
- *The session.* `ProcessSession` owns the proxy, the journal and a record of the session's own fields. The
  environment (process, stdout and stderr events, how far the stdin worker runs between two channel
  operations, how JSON text parses, which messages the policy blocks) is an arbitrary set of functions, so
  every theorem holds for every environment. `WriterLink` is the stdin worker with its channels as a state
  machine that interleaves freely with the session.
- *Branches that cannot be taken* return their error and nothing more; the proof that they are unreachable is
  part of each method's contract.
- *Bytes.* Text is its UTF-8 bytes. Instants and durations are natural numbers; `clockMax` is the last
  representable instant. `usize` is 64 bits wide.
- *Hashes.* In the proxy and the journal SHA-256 is an abstract injective function (`Digests.Digest`). For the
  bundle and the ledger it is an arbitrary function, and the results say "equal, or these two inputs collide",
  naming the two preimages, file contents or records.
- *Library code.* `serde_json` text parsing is a function parameter. The ASAR header codec delivers members in
  name order (`AsarRoundTrip.DecodesInOrder`); reading an output back also supposes that the one tree written
  survives printing and parsing (`AsarRoundTrip.Survives`). That `serde_json` refuses text in which 128 arrays and
  objects are open at once is library knowledge, stated as `AsarNesting.NestingBounded`.
- *History.* A session carries a ghost trace: the accepted client lines, the frames the proxy released, the link
  each recorded one was sent on, the frames handed to the stdin worker and the frames given to the client.
- Every lemma carries `{:induction false}`: the proofs are the bodies.

## Where the source does not promise what it seems to

- `to_bytes` bounds the unpadded header text, the parser bounds 16 plus the padded text. The round trip holds
  exactly when the second bound holds (`AsarRoundTrip.RoundTrip`). `AsarHeaderBound.WritableButUnreadable` gives,
  under the initial limits, archive bytes that parse (10084 files at the root) and one replacement after which the
  archive still writes and no longer reads back.
- `file` and `replace_file` accept paths of at most `max_depth` components, collection stores files with one
  more. A stored member is reachable exactly when its path has at most `max_depth` components
  (`AsarObjects.ReachableMembers`). The decoder's nesting limit keeps every stored path to 62 components, so under
  the only limits the source constructs, which allow 128, every stored member can be looked up
  (`AsarNesting.InitialLimitsReachEveryMember`). The two bounds would come apart exactly below 62
  (`AsarNesting.ReachabilityIsExact`), with limits the source cannot construct.
- `was_initialized` is documented as "released to the bounded stdin worker"; the state becomes `Ready` before
  the frame is sent, and the send can still find the worker gone. The exit report says initialized exactly when
  the second frame was released and recorded, and that frame was handed over exactly when the link it was sent
  on still had a listening worker (`SessionTraffic.ReportedInitialization`, `Sessions.Drive`).
  `SessionExample.ReadyWithoutHandOver` is a run that reports initialized after handing over one frame.
- `next_for_client` lets the proxy observe an instant before the record that may still be refused. From then on, and
  only then, the proxy's clock can be ahead of the session's, and `next_for_client` at an instant before that
  delivery fails with the proxy's clock error although the session's own clock check passed
  (`SessionTraffic.KeptClock`, `SessionTraffic.Deliver`, `Sessions.Drive`). A poll never does.
- A forwarded response takes whatever token is pending for its identity. An accepted response is forwarded with
  its own token exactly when no response to the same identity was queued ahead of it at acceptance
  (`TokenRuns.ForwardedWithOwnToken`). `TokenExample.TokenChangesHands` is a run in which a stray response
  takes the token of the real one.

## Model

| member | source | states |
|---|---|---|
| `Messages.RetiredDigestInjective` | crates/weregopher-adapter-openai/src/app_server_proxy.rs:1586-1608 | the retained digest of an identity determines the identity, across all three identity forms |
| `Messages.KeyInjective` | crates/weregopher-adapter-openai/src/app_server_controls.rs:877-929 | a correlation key determines both origin and identity |
| `Messages.SortedIdsFacts` | crates/weregopher-adapter-openai/src/app_server_proxy.rs:1617-1635 | identities are enumerated in strictly ascending key order, each exactly once |
| `Json.Budget.Visit` | crates/weregopher-adapter-openai/src/app_server_proxy.rs:1644-1767 | reading one value with a mutable budget succeeds iff depth, remaining nodes and key uniqueness allow it, and then spends exactly the tree's node count |
| `Json.Budget.VisitItems` | crates/weregopher-adapter-openai/src/app_server_proxy.rs:1734-1746 | the same for an array's items, in order |
| `Json.Budget.VisitMembers` | crates/weregopher-adapter-openai/src/app_server_proxy.rs:1748-1767 | the same for an object's members; a repeated key is refused wherever it is |
| `Json.ParseBounded` | crates/weregopher-adapter-openai/src/app_server_proxy.rs:1769-1795 | a duplicate-permitting tree is accepted iff its depth and node count fit and no object repeats a key; the error names a defect the tree has |
| `Classification.ClassifyObject` | crates/weregopher-adapter-openai/src/app_server_proxy.rs:1494-1550 | classification succeeds exactly on messages of a legal shape, and its result has exactly the fields its kind allows, with a valid method and a control-free identity |
| `Classification.ParseAndClassify` | crates/weregopher-adapter-openai/src/app_server_proxy.rs:1474-1492 | exactly the acceptable lines become frames, and a frame keeps the exact bytes |
| `Proxies.ProxyQueue.EnsureCapacity` | crates/weregopher-adapter-openai/src/app_server_proxy.rs:787-805 | a frame is refused iff a message or byte limit would be exceeded, messages first |
| `Proxies.ProxyQueue.Pop` | crates/weregopher-adapter-openai/src/app_server_proxy.rs:814-828 | FIFO removal with exact byte accounting; a failed subtraction leaves the queue as it was |
| `Proxies.TransparentProxy.Prepare` | crates/weregopher-adapter-openai/src/app_server_proxy.rs:1134-1155 | preparation succeeds iff the proxy is open and the line acceptable, and changes nothing |
| `Proxies.TransparentProxy.Ingest` | crates/weregopher-adapter-openai/src/app_server_proxy.rs:1125-1132 | prepare and admit together; an error leaves every field unchanged |
| `Proxies.TransparentProxy.PreflightCorrelation` | crates/weregopher-adapter-openai/src/app_server_proxy.rs:1273-1347 | on digests it decides exactly what the value model decides on identities, never reporting inconsistency |
| `Proxies.TransparentProxy.Admit` | crates/weregopher-adapter-openai/src/app_server_proxy.rs:965-980 | admission is the model's transition, or an error with every field unchanged; the invariant is kept |
| `Proxies.TransparentProxy.AdmitCandidate` | crates/weregopher-adapter-openai/src/app_server_proxy.rs:1157-1214 | all checks precede all changes, and the changes amount to one atomic transition |
| `Proxies.TransparentProxy.ApplyCorrelation` | crates/weregopher-adapter-openai/src/app_server_proxy.rs:1349-1395 | after a successful preflight, applying the correlation cannot fail |
| `Proxies.TransparentProxy.Release` | crates/weregopher-adapter-openai/src/app_server_proxy.rs:1216-1271 | release is the model's transition; although the request map changes before the queue is popped, an error leaves every field unchanged |
| `Proxies.TransparentProxy.ExpireRequests` | crates/weregopher-adapter-openai/src/app_server_proxy.rs:1020-1061 | expiry is the model's transition; the mutating loop over maps and digests cannot fail half way |
| `Proxies.TransparentProxy.RetireExpired` | crates/weregopher-adapter-openai/src/app_server_proxy.rs:1020-1061 | the loop moves exactly the expired identities from the active maps to the digest history |
| `Proxies.TransparentProxy.Close` | crates/weregopher-adapter-openai/src/app_server_proxy.rs:1101-1123 | closure empties everything and reports exactly what it dropped, with no saturation |
| `ProxyInvariant.AdmitKeepsInv` | crates/weregopher-adapter-openai/src/app_server_proxy.rs:1157-1214 | every admission keeps the whole-state invariant: an identity is queued iff one request frame with it is queued, active and retired identities are disjoint, limits hold |
| `ProxyInvariant.ReleaseKeepsInv` | crates/weregopher-adapter-openai/src/app_server_proxy.rs:1216-1271 | so does every release |
| `ProxyInvariant.ExpireKeepsInv` | crates/weregopher-adapter-openai/src/app_server_proxy.rs:1020-1061 | so does every expiry |
| `ProxyInvariant.CloseKeepsInv` | crates/weregopher-adapter-openai/src/app_server_proxy.rs:1101-1123 | so does closure |
| `ProxyInvariant.AlwaysReleasable` | crates/weregopher-adapter-openai/src/app_server_proxy.rs:1216-1271 | in every invariant state the front frame is a valid one whose bytes the queue accounts for |
| `ProxyInvariant.ExpiryIsExact` | crates/weregopher-adapter-openai/src/app_server_proxy.rs:1020-1061 | expiry returns each pending request with deadline at or before now exactly once, leaves none such, and touches nothing else |
| `ProxyInvariant.TimeIsMonotone` | crates/weregopher-adapter-openai/src/app_server_proxy.rs:1448-1457 | observed time never decreases, and an operation at an earlier time is refused |
| `ProxyRuns.RunsBalance` | crates/weregopher-adapter-openai/src/app_server_proxy.rs:1020-1271 | in every run: accepted frames are the released, then abandoned, then queued ones byte for byte; no identity is accepted twice; deadlines are release time plus timeout; peaks are the largest occupancies; responses are completed, late or unmatched |
| `ProxyRuns.EveryRequestHasOneFate` | crates/weregopher-adapter-openai/src/app_server_proxy.rs:1273-1395 | until closure every accepted request is in exactly one of queued, pending, completed and expired |
| `ProxyRuns.LaterAnswersAreLate` | crates/weregopher-adapter-openai/src/app_server_proxy.rs:1273-1347 | after the one completing response, or expiry, every further response is late |
| `ProxyRuns.Conservation` | crates/weregopher-adapter-openai/src/app_server_proxy.rs:1184-1213 | accepted responses are completed plus late plus unmatched; history size is completed plus expired |
| `ProxyRuns.ClosureReportsOnce` | crates/weregopher-adapter-openai/src/app_server_proxy.rs:1101-1123 | the first closure drops exactly the frames accepted and not released, byte for byte, and counts the requests neither completed nor expired and the history of those that were; a second reports zero and changes nothing |
| `ProxyRuns.PeakDominates` | crates/weregopher-adapter-openai/src/app_server_proxy.rs:807-812 | the recorded peaks dominate every past occupancy and were reached |
| `JournalModel.AttemptKeepsInv` | crates/weregopher-adapter-openai/src/app_server_controls.rs:399-633 | every journal call keeps: retained events carry consecutive sequences ending at the last one, within the ceiling; active and pending keys are disjoint; tokens are in range |
| `JournalRuns.RunsBalance` | crates/weregopher-adapter-openai/src/app_server_controls.rs:399-633 | in every sequence of calls in any order: the last sequence is pulled plus evicted plus retained, the puller's gaps sum to the eviction counter, and each token stands for one accepted request that ends at most once and is forwarded at most once |
| `Journals.EventJournal.RecordAccepted` | crates/weregopher-adapter-openai/src/app_server_controls.rs:399-464 | the step-by-step method is the model's transition; correlation and eviction overflow cannot happen; an error changes nothing |
| `Journals.EventJournal.RecordForwarded` | crates/weregopher-adapter-openai/src/app_server_controls.rs:472-505 | likewise for forwarded frames |
| `Journals.EventJournal.RecordBlocked` | crates/weregopher-adapter-openai/src/app_server_controls.rs:512-527 | likewise for blocked candidates, which create and complete no correlation |
| `Journals.EventJournal.RecordExpired` | crates/weregopher-adapter-openai/src/app_server_controls.rs:534-551 | likewise for expirations |
| `Journals.EventJournal.PushEvent` | crates/weregopher-adapter-openai/src/app_server_controls.rs:614-633 | at the ceiling the oldest event is evicted and counted; no branch fails |
| `Coupling.AdmitCoupled` | crates/weregopher-adapter-openai/src/app_server_controls.rs:399-464 | if the journal's keys shadow the proxy's requests before an admission, recording it succeeds and they still do |
| `Coupling.ReleaseCoupled` | crates/weregopher-adapter-openai/src/app_server_controls.rs:472-505 | the same for a release |
| `Coupling.DrainStep` | crates/weregopher-adapter-openai/src/app_server_process.rs:848-853 | recording the expired requests one by one finds each of them active |
| `CoupledRuns.JournalNeverContradictsProxy` | crates/weregopher-adapter-openai/src/app_server_process.rs:811-887 | in every run in the session's call order, active keys are exactly the active requests and pending ones are retired until the event sequence is exhausted, and no recording is ever refused for another reason |
| `TokenRuns.TokenGoesToFirstAnswer` | crates/weregopher-adapter-openai/src/app_server_controls.rs:399-505 | over every run after a completing response is accepted, its token is forwarded by the first response to that identity among the frames queued at acceptance, itself included, and by no other |
| `TokenRuns.ForwardedWithOwnToken` | crates/weregopher-adapter-openai/src/app_server_controls.rs:399-505 | an accepted response is forwarded with its own token iff no response to the same identity was queued ahead of it at acceptance, and with none otherwise |
| `TokenExample.TokenChangesHands` | crates/weregopher-adapter-openai/src/app_server_controls.rs:399-505 | a run in which a stray response is forwarded with the token of the real one, which is forwarded without |
| `Recording.AdmitRecorded` | crates/weregopher-adapter-openai/src/app_server_process.rs:811-815 | admission followed by its record: accepted exactly when the model admits, with the model's new state; the record is refused iff the sequence is exhausted |
| `Recording.ReleaseRecorded` | crates/weregopher-adapter-openai/src/app_server_process.rs:1256-1265 | release followed by its record, with the same guarantees |
| `Recording.ExpireRecorded` | crates/weregopher-adapter-openai/src/app_server_process.rs:841-854 | expiry followed by its records, stopping at exhaustion |
| `WriterLink.WorkerKeepsInv` | crates/weregopher-adapter-openai/src/app_server_process.rs:1550-1581 | every step of the stdin worker keeps: handed frames are written, in hand, or queued, in order; acknowledgements answer the oldest ones; standard input holds exactly the written frames |
| `WriterLink.SoundMeansSteady` | crates/weregopher-adapter-openai/src/app_server_process.rs:1550-1581 | the link is sound iff it is sound after every further schedule of the worker |
| `WriterLink.WorkerNeverBlocks` | crates/weregopher-adapter-openai/src/app_server_process.rs:1555-1577 | whenever the worker sends an event, its channel has room |
| `WriterLink.OutstandingIsExact` | crates/weregopher-adapter-openai/src/app_server_process.rs:665-666 | outstanding equals queued plus in hand plus unread, and never exceeds the channel capacity |
| `WriterLink.StdinIsPrefix` | crates/weregopher-adapter-openai/src/app_server_process.rs:1556-1563 | standard input is a prefix of the handed frames, one per line, and contains every acknowledged one |
| `WriterLink.FrameSendKeepsInv` | crates/weregopher-adapter-openai/src/app_server_process.rs:1271-1285 | below the session's bound a frame never finds the channel full |
| `WriterLink.CloseSendKeepsInv` | crates/weregopher-adapter-openai/src/app_server_process.rs:1366-1382 | with nothing outstanding, `Close` finds neither a full nor a closed channel |
| `WriterLink.ReceiveKeepsInv` | crates/weregopher-adapter-openai/src/app_server_process.rs:1000-1014 | an acknowledgement is that of the oldest unacknowledged frame, with its exact length |
| `Handshake.ClientGateIsExact` | crates/weregopher-adapter-openai/src/app_server_process.rs:765-796 | the client gate admits exactly the frames that fit the script at the next position, when it is the client's turn |
| `Handshake.ClientAdmission` | crates/weregopher-adapter-openai/src/app_server_process.rs:756-818 | whatever the client gate admits keeps the server-bound frames on script |
| `Handshake.ServerAdmission` | crates/weregopher-adapter-openai/src/app_server_process.rs:1165-1195 | whatever the server gate admits keeps the awaited response reachable behind notifications only |
| `Handshake.DispatchIsExpected` | crates/weregopher-adapter-openai/src/app_server_process.rs:1297-1329 | the error branch of dispatch observation is unreachable |
| `Handshake.DeliveryIsExpected` | crates/weregopher-adapter-openai/src/app_server_process.rs:1331-1350 | the error branch of delivery observation is unreachable |
| `SessionModel.TerminationKeepsInv` | crates/weregopher-adapter-openai/src/app_server_process.rs:1450-1463 | beginning termination keeps the session invariant and the first reason |
| `SessionModel.CustodyBounds` | crates/weregopher-adapter-openai/src/app_server_process.rs:1003-1013 | the writer's counters are bounded by the proxy's, so they cannot overflow first |
| `SessionSteps.DispatchSettles` | crates/weregopher-adapter-openai/src/app_server_process.rs:1256-1293 | a whole dispatch: expected frame, room in the channel, no overflow, invariant kept on every outcome |
| `SessionSteps.AcknowledgementFits` | crates/weregopher-adapter-openai/src/app_server_process.rs:1002-1014 | reading an acknowledgement neither underflows nor overflows any counter |
| `SessionSteps.NoSilentHangup` | crates/weregopher-adapter-openai/src/app_server_process.rs:1030-1034 | the stdin worker hangs up only on a session that is closing its side |
| `SessionSteps.FinishKeepsInv` | crates/weregopher-adapter-openai/src/app_server_process.rs:1400-1448 | finishing closes proxy and correlations together and keeps the invariant |
| `SessionEvents.BeginTermination` | crates/weregopher-adapter-openai/src/app_server_process.rs:1450-1463 | the first reason sticks, the stdin sender is dropped, an exited session is left alone |
| `SessionEvents.ConsumeWriterEvents` | crates/weregopher-adapter-openai/src/app_server_process.rs:996-1038 | under any schedule the only failure is a reported write failure before exit; the count equals the acknowledged frames |
| `SessionEvents.ConsumeStderrEvent` | crates/weregopher-adapter-openai/src/app_server_process.rs:1040-1064 | end, failure and hang-up of stderr, each with its exact effect |
| `SessionEvents.ConsumeReaderEnd` | crates/weregopher-adapter-openai/src/app_server_process.rs:1120-1160 | every way the stdout stream can end, each with its exact effect and error |
| `SessionEvents.ConsumeProcessEvent` | crates/weregopher-adapter-openai/src/app_server_process.rs:1197-1226 | exit, failure and hang-up of the reaper, each with its exact effect |
| `SessionEvents.AdvanceStreamClosure` | crates/weregopher-adapter-openai/src/app_server_process.rs:1228-1242 | termination exactly when stdout stayed closed past its deadline without an exit |
| `SessionEvents.AdvanceShutdown` | crates/weregopher-adapter-openai/src/app_server_process.rs:1352-1385 | forced at the deadline; otherwise stdin is closed as soon as nothing is queued or outstanding, and no branch fails |
| `SessionEvents.AdvanceDeadlines` | crates/weregopher-adapter-openai/src/app_server_process.rs:1387-1398 | exactly the initialization or the runtime deadline ends a running session |
| `SessionEvents.Conclude` | crates/weregopher-adapter-openai/src/app_server_process.rs:1411-1446 | the first termination reason is the outcome; clean shutdown iff requested, successful, drained and never terminated; crash and unexpected exit likewise exactly characterised |
| `SessionTraffic.SettleDispatch` | crates/weregopher-adapter-openai/src/app_server_process.rs:1259-1293 | after a release the frame reaches the worker exactly when the record was taken and the worker listens; otherwise the session terminates with the matching reason; nothing else |
| `SessionTraffic.DispatchFrames` | crates/weregopher-adapter-openai/src/app_server_process.rs:1244-1295 | the loop hands over exactly as many frames as it counts and never meets an out-of-order frame; limited to one frame, its whole outcome is determined by the proxy's release and the link found |
| `SessionTraffic.DenyBlocked` | crates/weregopher-adapter-openai/src/app_server_process.rs:801-810 | a blocked candidate is recorded, never admitted, and ends the session with the matching reason |
| `SessionTraffic.AdmitServerLine` | crates/weregopher-adapter-openai/src/app_server_process.rs:1075-1119 | a server line is taken exactly when it parses, is in turn, is not blocked, the proxy admits it and the journal can record it; otherwise the session terminates, never with a contradiction |
| `SessionTraffic.ConsumeReaderEvents` | crates/weregopher-adapter-openai/src/app_server_process.rs:1066-1163 | the reading loop keeps the invariant for every stream of events and counts exactly the messages the proxy accepted |
| `SessionTraffic.AdmitClientLine` | crates/weregopher-adapter-openai/src/app_server_process.rs:756-818 | a client line is accepted exactly when the session runs, the line parses, is in turn, is not blocked, the proxy admits it and the journal can record it; it then moves the handshake and the proxy as the model does; a refused one leaves the proxy untouched unless only its record was refused |
| `SessionTraffic.Deliver` | crates/weregopher-adapter-openai/src/app_server_process.rs:869-893 | delivery returns exactly what the proxy releases, moves the handshake with it and never meets an unexpected frame; the proxy's clock refuses it iff the record of a delivery at a later instant was refused |
| `SessionTraffic.RequestShutdown` | crates/weregopher-adapter-openai/src/app_server_process.rs:902-927 | exactly when shutdown is refused, and the lifecycle each mode leads to |
| `SessionTraffic.ExpireOverdue` | crates/weregopher-adapter-openai/src/app_server_process.rs:841-858 | any expired request ends the session with a request timeout, and the count is the proxy's |
| `SessionTraffic.FinishProcessExit` | crates/weregopher-adapter-openai/src/app_server_process.rs:1400-1448 | exit is reported iff the process is gone and streams are drained or the drain deadline passed, with exactly what the proxy abandoned |
| `SessionTraffic.PollOnce` | crates/weregopher-adapter-openai/src/app_server_process.rs:827-866 | a whole poll moves the standing only forward and never reports an out-of-order frame, a contradiction or the proxy's clock; its four counts are the frames handed over and acknowledged, the server messages accepted and the requests expired |
| `SessionTraffic.Guarantees` | crates/weregopher-adapter-openai/src/app_server_process.rs:756-818 | at any moment of any run: handed frames are one `initialize`, one `initialized`, then neither; the second only after the success response to that very identity was delivered; dispatched is written plus outstanding; standard input is a prefix of the handed frames, and those of the accepted lines |
| `SessionTraffic.ReportedInitialization` | crates/weregopher-adapter-openai/src/app_server_process.rs:1256-1295 | at any moment of any run: the report says initialized iff the second frame was released and recorded, and that frame was handed over iff the link it was sent on had a listening worker |
| `SessionTraffic.KeptClock` | crates/weregopher-adapter-openai/src/app_server_process.rs:869-893 | at any moment of any run: for instants the session accepts, the proxy's clock is ahead iff a delivery at a later instant was released and its record refused; never while the session is live or the journal still records |
| `Sessions.Attach` | crates/weregopher-adapter-openai/src/app_server_process.rs:1481-1495 | attaching fails exactly when a deadline cannot be represented |
| `Sessions.ProcessSession.SendClient` | crates/weregopher-adapter-openai/src/app_server_process.rs:756-818 | accepted under exactly the conditions of `AdmitClientLine`; the trace of accepted lines grows by exactly that line |
| `Sessions.ProcessSession.Poll` | crates/weregopher-adapter-openai/src/app_server_process.rs:827-866 | keeps the invariant, moves forward only, reports neither a contradiction nor an out-of-order frame nor the proxy's clock, counts all four quantities exactly |
| `Sessions.ProcessSession.NextForClient` | crates/weregopher-adapter-openai/src/app_server_process.rs:869-893 | as `Deliver`, recorded in the trace of delivered frames |
| `Sessions.ProcessSession.Shutdown` | crates/weregopher-adapter-openai/src/app_server_process.rs:902-927 | as `RequestShutdown` |
| `Sessions.Drive` | crates/weregopher-adapter-openai/src/app_server_process.rs:756-927 | any calls in any order in any environment: every failure is one its call may report, in particular no contradiction, no out-of-order frame in a poll or a delivery, and the proxy's clock only for a delivery after one at a later instant whose record was refused; the lifecycle only moves forward, an exited session keeps its report and its closed proxy, everything handed to the child follows the handshake, the child's standard input is a prefix of the newline-joined accepted lines, and the report's initialized flag has its exact meaning |
| `SessionScript.AskTaken` | crates/weregopher-adapter-openai/src/app_server_proxy.rs:1474-1550 | the `initialize` line of the example run is accepted and becomes the request frame |
| `SessionExample.ReadyWithoutHandOver` | crates/weregopher-adapter-openai/src/app_server_process.rs:265-270 | a run through the session's own methods that exits with the initialized flag set although only one of its two released frames was handed to the stdin worker |
| `LineReader.ReaderWorker` | crates/weregopher-adapter-openai/src/app_server_process.rs:1583-1634 | for every way of cutting the stream into buffer fills the events are those of the stream alone; observed bytes are the stream's length unless a line is too large |
| `LineReader.EventsAreTheStream` | crates/weregopher-adapter-openai/src/app_server_process.rs:1583-1634 | the events are complete lines within the limit and free of newlines, then one ending that describes the leftover; lines and leftover are the stream |
| `LineReader.ReadBoundedLine` | crates/weregopher-adapter-openai/src/app_server.rs:486-528 | result and consumed length are determined by the stream alone |
| `AsarPaths.SplitJoin` | crates/weregopher-asar/src/lib.rs:805-812 | splitting a joined path gives back its components |
| `AsarTree.InsertLookup` | crates/weregopher-asar/src/lib.rs:814-837 | a successful insertion adds exactly one file and changes no other |
| `AsarTree.InsertSucceeds` | crates/weregopher-asar/src/lib.rs:814-837 | insertion succeeds whenever no file lies at, above or below the path |
| `AsarTree.FilesDetermineShape` | crates/weregopher-asar/src/lib.rs:592-660 | the set of file paths determines an ordered tree without empty directories |
| `AsarCollect.OffsetRoundTrip` | crates/weregopher-asar/src/lib.rs:143 | a printed offset parses back |
| `AsarCollect.CollectChecks` | crates/weregopher-asar/src/lib.rs:592-660 | a successful collection met only valid names, packable files and nonempty directories, and its byte total is the tree's |
| `AsarCollect.CollectGathers` | crates/weregopher-asar/src/lib.rs:592-660 | it gathers exactly the files of the tree |
| `AsarCollect.CollectSameShape` | crates/weregopher-asar/src/lib.rs:504-529 | whether members can be collected depends on the shape alone, as long as the files fit |
| `AsarCollect.CollectBudgets` | crates/weregopher-asar/src/lib.rs:504-529 | collection stays within the entry and path-byte budgets |
| `AsarCollect.CaseDistinct` | crates/weregopher-asar/src/lib.rs:525-529 | no two collected files have paths that differ only in ASCII case |
| `AsarCollect.IndexRefinesCollect` | crates/weregopher-asar/src/lib.rs:662-721 | whatever can be materialised can be indexed, with the same members and nothing unpacked |
| `AsarLayout.WalkLayout` | crates/weregopher-asar/src/lib.rs:536-555 | the cursor loop accepts iff the members, in layout order, lie end to end over the body |
| `AsarLayout.TilesExactly` | crates/weregopher-asar/src/lib.rs:531-575 | accepted members tile the body: every position belongs to exactly one |
| `AsarLayout.FinishArchive` | crates/weregopher-asar/src/lib.rs:531-575 | finishing accepts iff the layout tiles and every member's integrity holds, and cuts out exactly those bytes |
| `AsarArchive.HeaderRoundTrip` | crates/weregopher-asar/src/lib.rs:312-349 | a written header is read back exactly when 16 plus its padded size fits, and is otherwise too large |
| `AsarWrite.BuildHolds` | crates/weregopher-asar/src/lib.rs:135-152 | writing an archive that was read never collides; the tree holds exactly the members, each with its place in the body |
| `AsarWrite.WrittenShape` | crates/weregopher-asar/src/lib.rs:805-837 | the written tree has the shape of the tree the archive came from |
| `AsarRoundTrip.LayoutIsPathOrder` | crates/weregopher-asar/src/lib.rs:537-542 | sorting by offset, then path, is path order, empty files included |
| `AsarRoundTrip.FinishRestores` | crates/weregopher-asar/src/lib.rs:531-575 | cutting the written body up again gives back every member |
| `AsarRoundTrip.RoundTrip` | crates/weregopher-asar/src/lib.rs:135-185 | for any tree that survives printing, reading back what was written gives exactly the same members iff 16 plus the padded header fits `max_header_bytes`, and is otherwise refused as too large |
| `AsarRoundTrip.ParseEstablishes` | crates/weregopher-asar/src/lib.rs:68-76 | every archive that was read satisfies the invariant writing relies on |
| `AsarObjects.ReachableMembers` | crates/weregopher-asar/src/lib.rs:723-736 | a stored member is reachable iff its path has at most `max_depth` components |
| `AsarObjects.MembersDifferBeyondCase` | crates/weregopher-asar/src/lib.rs:504-529 | in every archive reached by parsing and replacing, no two paths differ only in ASCII case |
| `AsarObjects.Archive.File` | crates/weregopher-asar/src/lib.rs:80-85 | lookup over the stored map, with that exact condition |
| `AsarObjects.Archive.ReplaceFile` | crates/weregopher-asar/src/lib.rs:98-126 | exactly when a replacement is refused; a refusal changes nothing, a success changes one member's bytes and keeps the aggregate within its limit |
| `AsarObjects.Archive.ToBytes` | crates/weregopher-asar/src/lib.rs:135-185 | the writing loops compute the deterministic output, never with a layout error; it reads back as the same members exactly when its padded header fits |
| `AsarObjects.Parse` | crates/weregopher-asar/src/lib.rs:68-76 | parsing yields a valid archive with the model's members, or the model's error |
| `AsarObjects.Rewrite` | crates/weregopher-asar/src/lib.rs:68-185 | any archive, any successful replacements: the output reads back as the original with exactly those replacements, iff its padded header fits |
| `AsarObjects.IndexRefinesArchive` | crates/weregopher-asar/src/lib.rs:216-237 | whatever the archive parser accepts the index accepts, with zero unpacked files and the same bytes for every path |
| `AsarObjects.IndexTiles` | crates/weregopher-asar/src/lib.rs:440-487 | in every accepted index each body byte belongs to exactly one packed member |
| `AsarNesting.EveryMemberReachable` | crates/weregopher-asar/src/lib.rs:343-347 | with a decoder that refuses text nested 128 deep and limits that allow 62 components, every member of every archive that parses, however edited, has a path that lookup and replacement accept |
| `AsarNesting.InitialLimitsReachEveryMember` | crates/weregopher-asar/src/lib.rs:28-41 | so it is under the initial limits |
| `AsarNesting.ReachabilityIsExact` | crates/weregopher-asar/src/lib.rs:723-736 | with `max_depth` set to any value and the other initial limits, every stored member of every archive is reachable iff that value is at least 62 |
| `AsarNesting.StoredButUnreachable` | crates/weregopher-asar/src/lib.rs:592-606 | limits below 62, which the source cannot construct, let bytes parse to a member of `max_depth` plus one components that no lookup reaches, within the decoder's nesting limit |
| `AsarNesting.InitialLimitsAdmit` | crates/weregopher-asar/src/lib.rs:28-41 | the collection limits alone have room for 129 components; the decoder refuses the header of such a file, and of any file below 62 or more directories |
| `AsarNesting.WrittenNesting` | crates/weregopher-asar/src/lib.rs:135-154 | a written header nests exactly as deep as the header the archive was read from |
| `AsarNesting.DeepRoundTrip` | crates/weregopher-asar/src/lib.rs:135-185 | one file below any number of directories is written as its framed header text, and reads back as exactly that file iff the padded text fits |
| `AsarHeaderBound.RowRoundTrip` | crates/weregopher-asar/src/lib.rs:135-185 | any number of files at the root, all empty but the last, are written as their framed header text, and read back iff the padded text fits |
| `AsarHeaderBound.RowTextLength` | crates/weregopher-asar/src/lib.rs:153-157 | the header text of the example archive has 16777150 bytes before and 16777216 bytes after the replacement |
| `AsarHeaderBound.WritableButUnreadable` | crates/weregopher-asar/src/lib.rs:155-157 | under the initial limits: bytes that parse, a replacement the archive accepts, and an output that the writer accepts and the parser refuses as too large |
| `SchemaBundle.HashBundle` | crates/weregopher-adapter-openai/src/app_server.rs:239-296 | the collecting and hashing loops accept exactly the acceptable bundles and yield the order-free evidence |
| `SchemaBundle.CollectFiles` | crates/weregopher-adapter-openai/src/app_server.rs:246-268 | the collecting loop succeeds exactly on good, distinct files within the limits |
| `SchemaBundle.OrderIsIrrelevant` | crates/weregopher-adapter-openai/src/app_server.rs:239-296 | acceptance and evidence are the same for every permutation of the files |
| `SchemaBundle.PreimageInjective` | crates/weregopher-adapter-openai/src/app_server.rs:280-296 | the hashed preimage determines the paths and the content hash of each |
| `SchemaBundle.DigestBindsBundle` | crates/weregopher-adapter-openai/src/app_server.rs:280-296 | bundles with the same digest are equal, unless their two preimages, or their contents at one named path, are different and share a hash |
| `SchemaBundle.EvidenceBindsFiles` | crates/weregopher-adapter-openai/src/app_server.rs:239-296 | accepted bundles with the same digest hold the same bytes at the same paths, under the same condition |
| `Ledger.BuiltChainsVerify` | crates/weregopher-domain/src/certification_control_plane.rs:1761-1801 | in every chain built by `genesis` and `next`, record k has sequence k, a valid shape and a link to its predecessor, and only the first is genesis |
| `Ledger.VerifiedChainsAreBuilt` | crates/weregopher-domain/src/certification_control_plane.rs:1884-1898 | conversely whatever passes these checks is a chain built that way |
| `Ledger.HeadBindsHistory` | crates/weregopher-domain/src/certification_control_plane.rs:1953-1956 | two chains with the same head digest are identical record for record, unless two named records, one of each chain, have different documents that share a hash |

## Left out

- Process spawning, killing, waiting, reaping, thread joining, mutexes and pipes: operating-system effects; only the events they send are modelled, as arbitrary inputs.
- `serde_json` text parsing and printing, SHA-256 and hexadecimal internals: library code, taken as parameters with the properties stated above.
- `Drop` of a session, and receivers dropped while a worker still sends: the session is assumed to outlive the calls made on it.
- Allocation failure of the stdout reader: it appears as an arbitrary reader event in the session, not in `LineReader`.
- Total stdout and stderr byte counts of the exit report: they are only copied from the workers' counters.
- `AppServerInterceptionPolicy` construction and rule matching: the policy is an arbitrary function of the observed message.
- The session's own fields are one record that its methods replace, and the session steps take and return that record; aliasing between those fields does not arise in the source.
- The stdin worker is a state machine over its steps rather than a loop, because it runs concurrently with the session.
- ASAR collection threads its state through recursive functions where the source passes a mutable reference; trees are lists in name order where the source has `BTreeMap`.
- `CollectFiles` keeps iterating without effect after a refusal where the source returns at once.
- Diagnostics snapshots, accessors, `Debug` output and error texts: no property of their own.
- Windows integration, discovery, uninstall, command-line programs, certification runner and scenario code: set filtering and fixed tables that would add only easy members.
