/** The session's vocabulary and the parts of its invariant that are not the handshake's. */
module SessionModel {
  import opened Basics
  import opened Messages
  import opened ProxyModel
  import opened ProxyInvariant
  import W = WriterLink
  import J = JournalModel
  import opened Handshake
  import opened Recording
  import opened Json
  import Coupling

  const TICKS_PER_SECOND: nat := 1_000_000_000

  datatype ProcessLimits = ProcessLimits(
    ioQueueMessages: nat,
    pollEvents: nat,
    initializationTimeout: nat,
    runtimeTimeout: nat,
    shutdownTimeout: nat,
    exitDrainTimeout: nat)

  predicate ValidProcessLimits(l: ProcessLimits) {
    && 0 < l.ioQueueMessages <= 4
    && 0 < l.pollEvents <= 1_024
    && 0 < l.initializationTimeout <= 300 * TICKS_PER_SECOND
    && 0 < l.runtimeTimeout <= TICKS_PER_DAY
    && 0 < l.shutdownTimeout <= 30 * TICKS_PER_SECOND
    && 0 < l.exitDrainTimeout <= 30 * TICKS_PER_SECOND
  }

  datatype Lifecycle = Running | GracefulShutdown(deadline: nat) | Terminating | Exited

  datatype Outcome =
    | CleanShutdown
    | ForcedShutdown
    | UnexpectedExit
    | Crash
    | InitializationTimeout
    | RuntimeTimeout
    | ProtocolFailure
    | TransportFailure
    | RequestTimeout
    | InterceptionBlocked
    | ObservationFailure

  datatype ShutdownMode = Graceful | Immediate

  datatype ProcessExit = ProcessExit(success: bool, code: Option<int>)

  datatype ProcessEvent = ProcessExited(exit: ProcessExit) | ProcessFailed

  datatype ReaderEvent = Line(bytes: Bytes) | Eof | LineTooLarge | UnterminatedLine | AllocationFailed | ReaderFailed

  datatype StderrEvent = StderrEof | StderrFailed

  datatype Port = Stdin | StdinCapacity | Stdout | Stderr | Process

  datatype SessionError =
    | DeadlineTooFar
    | InitializationSequenceViolation
    | InitializeRejected
    | UnexpectedServerMessage
    | StdoutLineTooLarge
    | UnterminatedStdoutLine
    | StdoutClosedBeforeExit
    | StdoutAllocationFailed
    | WorkerIo(io: Port)
    | WorkerDisconnected(worker: Port)
    | NotRunning
    | ClockBackwards
    | CounterOverflow
    | Blocked(rule: nat)
    | Control(control: J.ControlError)
    | ProxyFailed(proxy: ProxyError)

  datatype Progress = Progress(dispatched: nat, serverMessages: nat, written: nat, expired: nat)

  datatype ExitReport = ExitReport(
    outcome: Outcome,
    exitCode: Option<int>,
    initialized: bool,
    streamsDrained: bool,
    abandonedWriterFrames: nat,
    close: CloseReport)

  /** Everything the session cannot control: what arrives on its channels, how far the stdin worker gets
      between two channel operations, how JSON text parses, and which messages the policy blocks. */
  datatype Environment = Environment(
    process: nat -> W.Recv<ProcessEvent>,
    stdout: nat -> W.Recv<ReaderEvent>,
    stderr: nat -> W.Recv<StderrEvent>,
    schedule: nat -> seq<W.Tick>,
    decode: Bytes -> Option<RawJson>,
    policy: Observation -> Option<nat>)

  /** Whether a bounded reading loop goes on. */
  datatype Reading = More | Enough | Failed(error: SessionError)

  /** Errors that would mean one of the session's parts contradicts another. */
  predicate Contradiction(e: SessionError) {
    || e.CounterOverflow?
    || (e.WorkerDisconnected? && e.worker.StdinCapacity?)
    || (e.ProxyFailed? && e.proxy.InconsistentCorrelationState?)
    || (e.Control? && !e.control.EventSequenceOverflow?)
  }

  /** The proxy refused because its own clock was ahead. */
  predicate ProxyClock(e: SessionError) {
    e.ProxyFailed? && e.proxy.NonMonotonicClock?
  }

  /** Errors sending and shutting down may report. */
  predicate CallError(e: SessionError) {
    !Contradiction(e) && !ProxyClock(e)
  }

  /** Errors a poll may report. */
  predicate PollError(e: SessionError) {
    !Contradiction(e) && !e.InitializationSequenceViolation? && !ProxyClock(e)
  }

  /** The session's own fields; proxy and journal are objects beside them. */
  datatype Fields = Fields(
    initialization: Initialization,
    lifecycle: Lifecycle,
    lastObservedTime: nat,
    link: W.Link,
    writerOutstanding: nat,
    writerCloseRequested: bool,
    stdoutFinished: bool,
    stdoutWithoutExitDeadline: Option<nat>,
    stderrFinished: bool,
    processExit: Option<ProcessExit>,
    processExitDeadline: Option<nat>,
    requestedOutcome: Option<Outcome>,
    dispatchedClientFrames: nat,
    writtenClientFrames: nat,
    writtenClientBytes: nat,
    exitReport: Option<ExitReport>)

  /** The history of a session: the client lines it accepted, the prefix of them the proxy released toward the
      server, the link as each released and recorded frame found it, the prefix of frames handed to the stdin
      worker, the frames returned to the client, whether a graceful shutdown took effect, and the instant of the
      last delivery whose record was refused. */
  datatype Trace = Trace(
    accepted: seq<Frame>,
    released: seq<Frame>,
    sends: seq<W.Link>,
    handed: seq<Frame>,
    delivered: seq<Frame>,
    graceful: bool,
    unrecorded: Option<nat>)

  const NO_TRACE := Trace([], [], [], [], [], false, None)

  function StatusOf(s: Fields, t: Trace): Status {
    Status(s.lifecycle, s.requestedOutcome, t.graceful, s.processExit, s.stdoutFinished, s.stderrFinished, s.exitReport)
  }

  /** The frames' side of the invariant: proxy, journal and handshake agree with the trace. */
  ghost predicate FramesInv(initialization: Initialization, t: Trace, p: Proxy, j: J.Journal, live: bool) {
    && Matched(p, j)
    && HandshakeInv(initialization, live, Recordable(j), t.released, p.client.queue.frames, p.server.queue.frames,
                    t.delivered)
    && Custody(live, t.accepted, t.released, t.handed, p.client)
    && Attempts(live, t.released, t.sends, t.handed)
    && (p.open ==> (initialization.Ready? <==> |t.sends| >= 2))
  }

  /** The whole invariant, with the promises of a live session made only when `live`. */
  ghost predicate SessionInv(limits: ProcessLimits, s: Fields, t: Trace, p: Proxy, j: J.Journal, live: bool) {
    && p.open == !s.lifecycle.Exited?
    && FramesInv(s.initialization, t, p, j, live)
    && WriterInv(s.link, t.handed, ClosingStdin(s), limits.ioQueueMessages,
                 s.writerOutstanding, s.dispatchedClientFrames, s.writtenClientFrames, s.writtenClientBytes)
    && StatusInv(StatusOf(s, t))
    && (s.lifecycle.Terminating? ==> s.writerCloseRequested)
    && (s.exitReport.Some? ==> (s.exitReport.value.initialized <==> |t.sends| >= 2))
    && Clocked(s.lastObservedTime, live, t.unrecorded, p.lastTime) && (t.unrecorded.Some? ==> !Recordable(j))
  }

  /** The proxy's clock is not ahead of the session's, unless a delivery was released and its record refused: then
      the proxy has seen that instant and the session has not. */
  predicate Clocked(observed: nat, live: bool, unrecorded: Option<nat>, last: Option<nat>) {
    && (unrecorded.Some? ==> !live && last.Some? && unrecorded.value <= last.value)
    && (last.Some? ==> last.value <= observed || (unrecorded.Some? && last.value <= unrecorded.value))
  }

  lemma {:induction false} SessionIntro(limits: ProcessLimits, s: Fields, t: Trace, p: Proxy, j: J.Journal, live: bool)
    requires p.open && Live(s.lifecycle) && FramesInv(s.initialization, t, p, j, live)
    requires WriterInv(s.link, t.handed, s.writerCloseRequested, limits.ioQueueMessages, s.writerOutstanding,
                       s.dispatchedClientFrames, s.writtenClientFrames, s.writtenClientBytes)
    requires StatusInv(StatusOf(s, t)) && Clocked(s.lastObservedTime, live, t.unrecorded, p.lastTime)
    requires t.unrecorded.None?
    ensures SessionInv(limits, s, t, p, j, live)
  {
  }

  /** The session has started to close its side of the stdin worker's channel. */
  predicate ClosingStdin(s: Fields) {
    s.writerCloseRequested || s.lifecycle.Exited?
  }

  function Attached(limits: ProcessLimits, now: nat): Fields {
    Fields(AwaitingInitialize, Running, now, W.NewLink(limits.ioQueueMessages), 0, false,
           false, None, false, None, None, None, 0, 0, 0, None)
  }

  lemma {:induction false} AttachedInv(limits: ProcessLimits, now: nat, proxyLimits: ProxyLimits, clockMax: nat,
          eventLimit: nat)
    requires ValidProcessLimits(limits)
    ensures SessionInv(limits, Attached(limits, now), NO_TRACE, Initial(proxyLimits, clockMax),
                       J.Empty(eventLimit), true)
  {
    Coupling.CloseCoupled(Initial(proxyLimits, clockMax), J.Empty(eventLimit));
    WriterStarts(limits.ioQueueMessages);
  }

  function Terminated(s: Fields, outcome: Outcome): Fields {
    s.(requestedOutcome := if s.requestedOutcome.None? then Some(outcome) else s.requestedOutcome,
       lifecycle := Terminating,
       writerCloseRequested := true,
       link := W.Drop(s.link))
  }

  lemma {:induction false} TerminationKeepsInv(limits: ProcessLimits, s: Fields, t: Trace, p: Proxy, j: J.Journal,
          outcome: Outcome)
    requires SessionInv(limits, s, t, p, j, false) && !s.lifecycle.Exited? && IsReason(outcome)
    ensures SessionInv(limits, Terminated(s, outcome), t, p, j, false)
    ensures Later(StatusOf(s, t), StatusOf(Terminated(s, outcome), t))
  {
    WriterDrops(s.link, t.handed, ClosingStdin(s), limits.ioQueueMessages, s.writerOutstanding,
                s.dispatchedClientFrames, s.writtenClientFrames, s.writtenClientBytes);
  }

  lemma {:induction false} YieldKeepsInv(limits: ProcessLimits, s: Fields, t: Trace, p: Proxy, j: J.Journal, live: bool,
          ticks: seq<W.Tick>, next: W.Link)
    requires SessionInv(limits, s, t, p, j, live) && next == W.WorkerSteps(s.link, ticks)
    ensures SessionInv(limits, s.(link := next), t, p, j, live) && next.senderOpen == s.link.senderOpen
  {
    WriterAdvances(s.link, t.handed, ClosingStdin(s), limits.ioQueueMessages, s.writerOutstanding,
                   s.dispatchedClientFrames, s.writtenClientFrames, s.writtenClientBytes, ticks);
  }

  // ---- Lifecycle ---------------------------------------------------------------------------

  /** `graceful`: a graceful shutdown was requested while the session was running. */
  datatype Status = Status(
    lifecycle: Lifecycle,
    requested: Option<Outcome>,
    graceful: bool,
    exit: Option<ProcessExit>,
    stdoutFinished: bool,
    stderrFinished: bool,
    report: Option<ExitReport>)

  predicate Live(l: Lifecycle) {
    l.Running? || l.GracefulShutdown?
  }

  function Rank(l: Lifecycle): nat {
    match l
    case Running => 0
    case GracefulShutdown(_) => 1
    case Terminating => 2
    case Exited => 3
  }

  /** Reasons for which the session itself ends the process. */
  predicate IsReason(o: Outcome) {
    !o.CleanShutdown? && !o.UnexpectedExit? && !o.Crash?
  }

  /** The report names the first termination reason; a clean shutdown is one that was asked for, exited
      successfully with both streams drained, and was never turned into a termination. */
  predicate Explained(r: ExitReport, s: Status) {
    && s.exit.Some? && r.exitCode == s.exit.value.code
    && r.streamsDrained == (s.stdoutFinished && s.stderrFinished)
    && (s.requested.Some? ==> r.outcome == s.requested.value)
    && (r.outcome.CleanShutdown? <==> s.requested.None? && s.graceful && s.exit.value.success && r.streamsDrained)
    && (r.outcome.Crash? <==> s.requested.None? && !s.exit.value.success)
    && (r.outcome.UnexpectedExit? <==>
          s.requested.None? && !s.graceful && s.exit.value.success && r.streamsDrained)
  }

  predicate StatusInv(s: Status) {
    && (Live(s.lifecycle) ==> s.requested.None?)
    && (s.lifecycle.Terminating? ==> s.requested.Some?)
    && (s.requested.Some? ==> IsReason(s.requested.value))
    && (s.lifecycle.Running? ==> !s.graceful)
    && (s.lifecycle.GracefulShutdown? ==> s.graceful)
    && (s.lifecycle.Exited? <==> s.report.Some?)
    && (s.report.Some? ==> Explained(s.report.value, s))
  }

  /** The session only moves forward, keeps its first reason, and an exited session keeps everything. */
  predicate Later(a: Status, b: Status) {
    && Rank(a.lifecycle) <= Rank(b.lifecycle)
    && (a.requested.Some? ==> b.requested == a.requested)
    && (a.graceful ==> b.graceful)
    && (a.exit.Some? ==> b.exit == a.exit)
    && (a.stdoutFinished ==> b.stdoutFinished)
    && (a.stderrFinished ==> b.stderrFinished)
    && (a.lifecycle.Exited? ==> b == a)
  }

  lemma {:induction false} LaterChains(a: Status, b: Status, c: Status)
    requires Later(a, b) && Later(b, c)
    ensures Later(a, c)
  {
  }

  // ---- Custody of frames -------------------------------------------------------------------

  /** However many frames were released, they and the queued ones weigh no more than was accepted. */
  ghost predicate Weighed(released: seq<Frame>, queued: nat, accepted: nat) {
    forall n :: 0 <= n <= |released| ==> TotalBytes(released[..n]) + queued <= accepted
  }

  /** Frames handed to the stdin worker are the frames the proxy released, and those the lines the client was
      told were accepted; while the session is live none is missing in between. */
  ghost predicate Custody(live: bool, accepted: seq<Frame>, released: seq<Frame>, handed: seq<Frame>, lane: Lane) {
    && handed <= released <= accepted
    && (live ==> handed == released && released + lane.queue.frames == accepted)
    && |released| == lane.forwarded
    && Weighed(released, lane.queue.bytes, lane.acceptedBytes)
  }

  /** A released and recorded frame was handed over exactly when it found the worker listening. */
  ghost predicate Attempts(live: bool, released: seq<Frame>, sends: seq<W.Link>, handed: seq<Frame>) {
    && |handed| <= |sends| <= |released|
    && (live ==> |sends| == |released|)
    && forall i :: 0 <= i < |sends| ==> (W.Listening(sends[i]) <==> i < |handed|)
  }

  lemma {:induction false} WeighedGrows(released: seq<Frame>, queued: nat, accepted: nat, f: Frame)
    requires |f.bytes| <= queued && Weighed(released, queued, accepted)
    ensures Weighed(released + [f], queued - |f.bytes|, accepted)
  {
    var longer := released + [f];
    forall n | 0 <= n <= |longer| ensures TotalBytes(longer[..n]) + (queued - |f.bytes|) <= accepted {
      if n <= |released| {
        assert longer[..n] == released[..n];
      } else {
        assert longer[..n] == longer && released[..n - 1] == released;
        TotalBytesConcat(released, [f]);
        Singleton(f);
      }
    }
  }

  function Releasing(t: Trace, f: Frame): Trace {
    t.(released := t.released + [f])
  }

  function Attempting(t: Trace, f: Frame, link: W.Link): Trace {
    Releasing(t, f).(sends := t.sends + [link])
  }

  function Handing(t: Trace, f: Frame, link: W.Link): Trace {
    Attempting(t, f, link).(handed := t.handed + [f])
  }

  lemma {:induction false} CustodyReleases(accepted: seq<Frame>, released: seq<Frame>, handed: seq<Frame>, lane: Lane,
          after: Lane, f: Frame)
    requires Custody(true, accepted, released, handed, lane) && |f.bytes| <= lane.queue.bytes
    requires lane.queue.frames != [] && lane.queue.frames[0] == f && after.queue.frames == lane.queue.frames[1..]
    requires after.queue.bytes == lane.queue.bytes - |f.bytes|
    requires after.forwarded == lane.forwarded + 1 && after.acceptedBytes == lane.acceptedBytes
    ensures Custody(false, accepted, released + [f], handed, after)
    ensures Custody(true, accepted, released + [f], handed + [f], after)
  {
    WeighedGrows(released, lane.queue.bytes, lane.acceptedBytes, f);
    assert (released + [f]) + after.queue.frames == released + lane.queue.frames;
  }

  lemma {:induction false} AttemptEnds(released: seq<Frame>, sends: seq<W.Link>, handed: seq<Frame>, f: Frame,
          link: W.Link)
    requires Attempts(true, released, sends, handed) && handed == released
    ensures Attempts(false, released + [f], sends, handed)
    ensures if W.Listening(link) then Attempts(true, released + [f], sends + [link], handed + [f])
            else Attempts(false, released + [f], sends + [link], handed)
  {
  }

  /** The writer's counters never exceed the proxy's, so they cannot overflow before the proxy refuses. */
  lemma {:induction false} CustodyBounds(live: bool, accepted: seq<Frame>, released: seq<Frame>, handed: seq<Frame>,
          lane: Lane, n: nat)
    requires Custody(live, accepted, released, handed, lane)
    requires lane.forwarded <= U64_MAX && lane.acceptedBytes <= U64_MAX && n <= |handed|
    ensures |handed| <= U64_MAX && TotalBytes(handed[..n]) <= U64_MAX
  {
    assert handed[..n] == released[..n];
  }

  // ---- Writer accounting -------------------------------------------------------------------

  /** Dispatched frames are written or outstanding, and written bytes are those of the written frames. */
  ghost predicate WriterInv(link: W.Link, handed: seq<Frame>, closing: bool, capacity: nat, outstanding: nat,
          dispatched: nat, written: nat, bytes: nat)
  {
    && W.Steady(link, handed, written, closing, capacity, link.senderOpen)
    && dispatched == |handed| == written + outstanding
    && bytes == TotalBytes(handed[..written])
  }

  lemma {:induction false} WriterStarts(capacity: nat)
    requires 0 < capacity
    ensures WriterInv(W.NewLink(capacity), [], false, capacity, 0, 0, 0, 0)
  {
    W.SoundMeansSteady(W.NewLink(capacity), [], 0, false, capacity, true);
  }

  lemma {:induction false} WriterAdvances(link: W.Link, handed: seq<Frame>, closing: bool, capacity: nat,
          outstanding: nat, dispatched: nat, written: nat, bytes: nat, ticks: seq<W.Tick>)
    requires WriterInv(link, handed, closing, capacity, outstanding, dispatched, written, bytes)
    ensures WriterInv(W.WorkerSteps(link, ticks), handed, closing, capacity, outstanding, dispatched, written, bytes)
    ensures W.WorkerSteps(link, ticks).senderOpen == link.senderOpen
  {
    var next := W.WorkerSteps(link, ticks);
    assert W.Sound(next, handed, written, closing, capacity, link.senderOpen);
    W.SoundMeansSteady(next, handed, written, closing, capacity, link.senderOpen);
  }

  /** An acknowledgement settles the oldest outstanding frame. */
  lemma {:induction false} WriterAcknowledges(link: W.Link, handed: seq<Frame>, closing: bool, capacity: nat,
          outstanding: nat, dispatched: nat, written: nat, bytes: nat)
    requires WriterInv(link, handed, closing, capacity, outstanding, dispatched, written, bytes)
    requires link.events != [] && link.events[0].Written?
    ensures outstanding > 0 && written + 1 <= |handed|
    ensures bytes + link.events[0].bytes == TotalBytes(handed[..written + 1])
    ensures WriterInv(link.(events := link.events[1..]), handed, closing, capacity, outstanding - 1, dispatched,
                      written + 1, bytes + link.events[0].bytes)
  {
    var next := link.(events := link.events[1..]);
    W.SoundMeansSteady(link, handed, written, closing, capacity, link.senderOpen);
    W.ReceiveKeepsInv(link, handed, written);
    assert handed[..written + 1][..written] == handed[..written];
    ReadKeepsReport(link, closing);
    W.SoundMeansSteady(next, handed, written + 1, closing, capacity, link.senderOpen);
  }

  lemma {:induction false} WriterLeaves(link: W.Link, handed: seq<Frame>, closing: bool, capacity: nat,
          outstanding: nat, dispatched: nat, written: nat, bytes: nat)
    requires WriterInv(link, handed, closing, capacity, outstanding, dispatched, written, bytes)
    requires link.events != [] && !link.events[0].Written?
    ensures WriterInv(link.(events := link.events[1..]), handed, true, capacity, outstanding, dispatched, written,
                      bytes)
  {
    var next := link.(events := link.events[1..]);
    W.SoundMeansSteady(link, handed, written, closing, capacity, link.senderOpen);
    W.ReceiveKeepsInv(link, handed, written);
    W.SoundMeansSteady(next, handed, written, true, capacity, link.senderOpen);
  }

  lemma {:induction false} ReadKeepsReport(link: W.Link, closing: bool)
    requires W.Reported(link, closing) && link.events != [] && link.events[0].Written?
    ensures W.Reported(link.(events := link.events[1..]), closing)
  {
  }

  /** Below its bound the session never finds the command channel full. */
  lemma {:induction false} WriterSends(link: W.Link, handed: seq<Frame>, capacity: nat, outstanding: nat,
          dispatched: nat, written: nat, bytes: nat, f: Frame)
    requires WriterInv(link, handed, false, capacity, outstanding, dispatched, written, bytes) && outstanding < capacity
    ensures link.senderOpen && W.TrySend(link, W.FrameCommand(f)) != Err(W.Full)
    ensures W.TrySend(link, W.FrameCommand(f)).Ok? ==>
              WriterInv(W.TrySend(link, W.FrameCommand(f)).value, handed + [f], false, capacity,
                        outstanding + 1, dispatched + 1, written, bytes)
  {
    W.SoundMeansSteady(link, handed, written, false, capacity, link.senderOpen);
    W.FrameSendKeepsInv(link, handed, written, f);
    var sent := W.TrySend(link, W.FrameCommand(f));
    if sent.Ok? {
      assert (handed + [f])[..written] == handed[..written];
      W.SoundMeansSteady(sent.value, handed + [f], written, false, capacity, true);
    }
  }

  lemma {:induction false} WriterDispatches(before: W.Link, handed: seq<Frame>, capacity: nat, outstanding: nat,
          dispatched: nat, written: nat, bytes: nat, f: Frame, steps: seq<W.Tick>, link: W.Link)
    requires WriterInv(before, handed, false, capacity, outstanding, dispatched, written, bytes)
    requires outstanding < capacity && link == W.WorkerSteps(before, steps)
    ensures link.senderOpen && W.TrySend(link, W.FrameCommand(f)) != Err(W.Full)
    ensures W.TrySend(link, W.FrameCommand(f)).Ok? <==> W.Listening(link)
    ensures WriterInv(link, handed, false, capacity, outstanding, dispatched, written, bytes)
    ensures W.Listening(link) ==>
              WriterInv(W.TrySend(link, W.FrameCommand(f)).value, handed + [f], false, capacity,
                        outstanding + 1, dispatched + 1, written, bytes)
  {
    WriterAdvances(before, handed, false, capacity, outstanding, dispatched, written, bytes, steps);
    WriterSends(link, handed, capacity, outstanding, dispatched, written, bytes, f);
  }

  lemma {:induction false} WriterDrops(link: W.Link, handed: seq<Frame>, closing: bool, capacity: nat, outstanding: nat,
          dispatched: nat, written: nat, bytes: nat)
    requires WriterInv(link, handed, closing, capacity, outstanding, dispatched, written, bytes)
    ensures WriterInv(W.Drop(link), handed, true, capacity, outstanding, dispatched, written, bytes)
  {
    W.SoundMeansSteady(link, handed, written, closing, capacity, link.senderOpen);
    assert W.LinkInv(W.Drop(link), handed, written);
    W.SoundMeansSteady(W.Drop(link), handed, written, true, capacity, false);
  }

  /** With nothing outstanding, `Close` always reaches the worker's channel. */
  lemma {:induction false} WriterCloses(link: W.Link, handed: seq<Frame>, capacity: nat, dispatched: nat, written: nat,
          bytes: nat)
    requires WriterInv(link, handed, false, capacity, 0, dispatched, written, bytes)
    ensures link.senderOpen && W.TrySend(link, W.CloseCommand).Ok?
    ensures WriterInv(W.Drop(W.TrySend(link, W.CloseCommand).value), handed, true, capacity, 0, dispatched, written,
                      bytes)
  {
    W.SoundMeansSteady(link, handed, written, false, capacity, link.senderOpen);
    W.CloseSendKeepsInv(link, handed, written);
    W.SoundMeansSteady(W.Drop(W.TrySend(link, W.CloseCommand).value), handed, written, true, capacity, false);
  }
}
