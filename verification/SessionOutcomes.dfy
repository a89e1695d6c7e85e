/** What the steps of a session do, as relations between its states before and after. */
module SessionOutcomes {
  import opened Basics
  import opened Messages
  import opened Json
  import opened Classification
  import opened ProxyModel
  import opened Handshake
  import opened SessionModel
  import opened SessionSteps
  import opened Recording
  import W = WriterLink
  import J = JournalModel

  /** How much of the environment has been consumed. */
  datatype Cursor = Cursor(process: nat, stdout: nat, stderr: nat, ticks: nat)

  /** The stdin worker has run for a while. */
  function Ran(s: Fields, steps: seq<W.Tick>): Fields {
    s.(link := W.WorkerSteps(s.link, steps))
  }

  function At(s: Fields, now: nat): Fields {
    s.(lastObservedTime := now)
  }

  // ---- Frames toward the server ----------------------------------------------------------------

  /** A recorded frame goes to the worker found on `link`, or the session ends because there is none. */
  ghost predicate Settled(s0: Fields, t0: Trace, f: Frame, link: W.Link, s: Fields, t: Trace, r: Reading) {
    && DispatchNext(s0.initialization, f).Some?
    && var next := s0.(initialization := DispatchNext(s0.initialization, f).value, link := link);
       if W.Listening(link) then
         && r.More? && t == Handing(t0, f, link)
         && s == Dispatched(next, link.(commands := link.commands + [W.FrameCommand(f)]))
       else
         && r == Failed(WorkerDisconnected(Stdin)) && t == Attempting(t0, f, link)
         && s == Terminated(next, TransportFailure)
  }

  /** So many frames were handed over; nothing was accepted, delivered or acknowledged. */
  ghost predicate HandedOver(s0: Fields, t0: Trace, s: Fields, t: Trace, count: nat) {
    && t0.handed <= t.handed && |t.handed| == |t0.handed| + count
    && t.accepted == t0.accepted && t.delivered == t0.delivered && t.unrecorded == t0.unrecorded
    && s.writtenClientFrames == s0.writtenClientFrames && s.processExit == s0.processExit
    && s.lastObservedTime == s0.lastObservedTime
  }

  lemma {:induction false} SettledOnce(s0: Fields, t0: Trace, f: Frame, link: W.Link, s: Fields, t: Trace, r: Reading)
    requires !s0.writerCloseRequested
    ensures Settled(s0, t0, f, link, s, t, r) ==>
              && !r.Enough? && (r.Failed? ==> PollError(r.error)) && HandedOver(s0, t0, s, t, if r.More? then 1 else 0)
              && (r.More? ==> s.lifecycle == s0.lifecycle && !s.writerCloseRequested)
    ensures s == Terminated(s0, ObservationFailure) && t == Releasing(t0, f) ==> HandedOver(s0, t0, s, t, 0)
    ensures r == Failed(Control(J.EventSequenceOverflow)) ==> PollError(r.error)
  {
  }

  /** What dispatching does when the proxy has a frame to release, or none. */
  ghost predicate DispatchOutcome(p0: Proxy, now: nat, s0: Fields, t0: Trace, steps: seq<W.Tick>, s: Fields, t: Trace,
          r: Reading, p: Proxy)
  {
    forall released :: Releasable(p0, ClientToServer) && Release(p0, ClientToServer, now) == Ok(released) ==>
      && p == released.proxy
      && if released.frame.None? then r.Enough? && s == s0 && t == t0
         else Settled(s0, t0, released.frame.value, W.WorkerSteps(s0.link, steps), s, t, r)
  }

  /** Neither a server message was counted nor an expired request. */
  predicate SameCounts(p: Proxy, q: Proxy) {
    q.server.acceptedMessages == p.server.acceptedMessages && q.expired == p.expired
  }

  /** A recorded dispatch, and how far the journal moved with it. */
  ghost predicate DispatchedOne(p0: Proxy, j0: J.Journal, now: nat, s0: Fields, t0: Trace, steps: seq<W.Tick>,
          s: Fields, t: Trace, r: Reading, p: Proxy, j: J.Journal)
  {
    Recordable(j0) ==>
      DispatchOutcome(p0, now, s0, t0, steps, s, t, r, p) && j.lastSequence <= j0.lastSequence + 1
  }

  // ---- Admission -----------------------------------------------------------------------------

  ghost function Offered(p: Proxy, d: Direction, line: Bytes, decode: Bytes -> Option<RawJson>): Candidate
    requires Acceptable(line, p.limits, decode)
  {
    Candidate(p.limits, Framed(line, d, p.limits, decode))
  }

  /** Nothing but the handshake can still keep this line out: it parses, no rule blocks it, the proxy takes it and
      the journal can record it. */
  ghost predicate Admissible(p: Proxy, j: J.Journal, d: Direction, line: Bytes, decode: Bytes -> Option<RawJson>,
          policy: Observation -> Option<nat>)
  {
    && p.open && Acceptable(line, p.limits, decode) && Recordable(j)
    && policy(Offered(p, d, line, decode).frame.observation).None? && Admit(p, Offered(p, d, line, decode)).Ok?
  }

  /** The handshake expects this line of server output. */
  ghost predicate InTurn(s: Fields, p: Proxy, line: Bytes, decode: Bytes -> Option<RawJson>)
    requires Acceptable(line, p.limits, decode)
  {
    ServerNext(s.initialization, s.lifecycle.Terminating?,
               Offered(p, ServerToClient, line, decode).frame.observation).Ok?
  }

  /** The session takes this line of server output. */
  ghost predicate Takes(s: Fields, p: Proxy, j: J.Journal, line: Bytes, e: Environment) {
    Admissible(p, j, ServerToClient, line, e.decode, e.policy) && InTurn(s, p, line, e.decode)
  }

  ghost predicate Taken(s0: Fields, p0: Proxy, line: Bytes, e: Environment, s: Fields, p: Proxy) {
    && s == s0.(initialization := s.initialization) && Acceptable(line, p0.limits, e.decode)
    && var c := Offered(p0, ServerToClient, line, e.decode);
       && ServerNext(s0.initialization, s0.lifecycle.Terminating?, c.frame.observation) == Ok(s.initialization)
       && Admit(p0, c) == Ok(p)
  }

  /** The trace after a client line was accepted, or was not. */
  function Counting(t: Trace, line: Bytes, r: Result<Observation, SessionError>): Trace {
    if r.Ok? then Accepting(t, Frame(r.value, line)) else t
  }

  /** The session takes this client line. */
  ghost predicate Accepts(s: Fields, p: Proxy, j: J.Journal, line: Bytes, e: Environment) {
    && s.lifecycle.Running? && Admissible(p, j, ClientToServer, line, e.decode, e.policy)
    && ClientNext(s.initialization, Offered(p, ClientToServer, line, e.decode).frame.observation).Some?
  }

  ghost predicate Accepted(s0: Fields, p0: Proxy, c: Candidate, s: Fields, p: Proxy)
    requires ValidFrame(c.frame)
  {
    && ClientNext(s0.initialization, c.frame.observation) == Some(s.initialization)
    && s == s0.(initialization := s.initialization) && Admit(p0, c) == Ok(p)
  }

  // ---- Delivery and polls --------------------------------------------------------------------

  /** A delivery was released at `now` and its record refused. */
  function Unrecording(t: Trace, now: nat): Trace {
    t.(unrecorded := Some(now))
  }

  /** The record of a delivery at a later instant was refused. */
  predicate Overtaken(t: Trace, now: nat) {
    t.unrecorded.Some? && now < t.unrecorded.value
  }

  /** At most one frame went to the client, and the handshake moved with it. */
  ghost predicate Delivered(s0: Fields, t0: Trace, now: nat, released: Option<Frame>, s: Fields, t: Trace) {
    && s == s0.(initialization := s.initialization, lastObservedTime := now)
    && t == t0.(delivered := t0.delivered + if released.Some? then [released.value] else [])
    && Some(s.initialization) ==
         if released.Some? then DeliveryNext(s0.initialization, released.value) else Some(s0.initialization)
  }

  /** What a poll reports is what moved while it ran. */
  ghost predicate Progressed(s0: Fields, t0: Trace, p0: Proxy, progress: Progress, s: Fields, t: Trace, p: Proxy) {
    && |t.handed| == |t0.handed| + progress.dispatched
    && s.writtenClientFrames == s0.writtenClientFrames + progress.written
    && p.server.acceptedMessages == p0.server.acceptedMessages + progress.serverMessages
    && p.expired == p0.expired + progress.expired
  }

  predicate Timely(s: Fields, now: nat) {
    !s.lifecycle.Exited? && s.lastObservedTime <= now
  }

  // ---- Uneventful polls ----------------------------------------------------------------------

  /** Nothing is heard from the process, the stdin worker or stderr. */
  predicate Silent(limits: ProcessLimits, s: Fields, environment: Environment, c: Cursor) {
    && 0 < limits.pollEvents && s.processExit.None? && !s.stderrFinished
    && environment.process(c.process).Empty? && environment.stderr(c.stderr).Empty?
    && W.TryRecv(Ran(s, environment.schedule(c.ticks)).link).Empty?
  }

  /** The process exits and stderr ends. */
  predicate Departing(limits: ProcessLimits, s: Fields, environment: Environment, c: Cursor, now: nat, clockMax: nat) {
    && s.processExit.None? && !s.stderrFinished && now + limits.exitDrainTimeout <= clockMax
    && environment.process(c.process).Received? && environment.process(c.process).value.ProcessExited?
    && environment.stderr(c.stderr) == W.Received(StderrEof)
  }

  /** The stdout reader has nothing, or a line the session takes. */
  ghost predicate Uneventful(s: Fields, p: Proxy, j: J.Journal, received: W.Recv<ReaderEvent>, e: Environment) {
    && (received.Empty? || (received.Received? && received.value.Line?))
    && forall line :: received == W.Received(Line(line)) ==> Takes(s, p, j, line, e)
  }

  ghost predicate Heard(s0: Fields, p0: Proxy, received: W.Recv<ReaderEvent>, e: Environment, s: Fields, p: Proxy) {
    && (received.Empty? ==> s == s0 && p == p0)
    && forall line :: received == W.Received(Line(line)) ==> Taken(s0, p0, line, e, s, p)
  }

  lemma {:induction false} HeardKeeps(s0: Fields, p0: Proxy, received: W.Recv<ReaderEvent>, e: Environment, s: Fields,
          p: Proxy)
    ensures Heard(s0, p0, received, e, s, p) && (received.Empty? || (received.Received? && received.value.Line?)) ==>
              s == s0.(initialization := s.initialization)
  {
    if received.Received? && received.value.Line? && Heard(s0, p0, received, e, s, p) {
      assert Taken(s0, p0, received.value.bytes, e, s, p);
    }
  }

  predicate SameEnding(s0: Fields, s: Fields) {
    s.lifecycle == s0.lifecycle && s.processExit == s0.processExit && s.stderrFinished == s0.stderrFinished
  }

  /** A live session that may dispatch, and dispatches at most one frame a poll. */
  predicate OneAtATime(limits: ProcessLimits, s: Fields) {
    && limits.pollEvents == 1 && Live(s.lifecycle)
    && !s.writerCloseRequested && s.writerOutstanding < limits.ioQueueMessages
  }

  function ReadingOf(count: nat, failure: Option<SessionError>): Reading {
    if failure.Some? then Failed(failure.value) else if count > 0 then More else Enough
  }

  function PollReading(r: Result<Progress, SessionError>): Reading {
    if r.Err? then Failed(r.error) else ReadingOf(r.value.dispatched, None)
  }

  /** Expiry at this instant succeeds and finds nothing. */
  ghost predicate NothingDue(p: Proxy, now: nat) {
    Expire(p, now).Ok? && Due(p, now) == []
  }

  /** All a poll hears is at most one line the session takes. */
  ghost predicate Quiet(limits: ProcessLimits, s: Fields, p: Proxy, j: J.Journal, environment: Environment, c: Cursor) {
    && limits.pollEvents == 1 && Silent(limits, s, environment, c)
    && !s.stdoutFinished && s.stdoutWithoutExitDeadline.None?
    && Uneventful(Ran(s, environment.schedule(c.ticks)), p, j, environment.stdout(c.stdout), environment)
  }

  /** No deadline of any kind has passed, and there is room for one frame. */
  ghost predicate Unhurried(limits: ProcessLimits, s: Fields, p: Proxy, j: J.Journal, deadlines: (nat, nat), now: nat) {
    && OneAtATime(limits, s) && s.lifecycle.Running? && s.processExit.None?
    && NothingDue(p, now) && Recordable(j) && now < deadlines.0 && now < deadlines.1
  }

  /** Where a poll stands between hearing its workers and moving on. */
  datatype Midway = Midway(s: Fields, p: Proxy, j: J.Journal, c: Cursor)

  /** A poll that hears at most one line takes the line, and when no deadline presses goes on from there like a single
      dispatch. */
  ghost predicate QuietVia(limits: ProcessLimits, environment: Environment, deadlines: (nat, nat), now: nat, s0: Fields,
          t0: Trace, c0: Cursor, p0: Proxy, j0: J.Journal, m: Midway, s: Fields, t: Trace, c: Cursor, p: Proxy,
          j: J.Journal, r: Reading)
  {
    && m.c == Cursor(c0.process + 1, c0.stdout + 1, c0.stderr + 1, c0.ticks + 1)
    && Heard(Ran(s0, environment.schedule(c0.ticks)), p0, environment.stdout(c0.stdout), environment, m.s, m.p)
    && m.j.lastSequence <= j0.lastSequence + 1
    && (Unhurried(limits, m.s, m.p, m.j, deadlines, now) ==>
          && DispatchOutcome(AfterExpiry(m.p, now), now, m.s, t0, environment.schedule(m.c.ticks), s, t, r, p)
          && j.lastSequence <= m.j.lastSequence + 1 && c == m.c.(ticks := m.c.ticks + 2))
  }

  /** The process of a terminating session exits and its streams end. */
  predicate Closing(limits: ProcessLimits, s: Fields, environment: Environment, c: Cursor, now: nat, clockMax: nat) {
    && s.lifecycle.Terminating? && 0 < limits.pollEvents && !s.stdoutFinished
    && Departing(limits, s, environment, c, now, clockMax) && environment.stdout(c.stdout) == W.Received(Eof)
  }

  /** The stdin worker and stderr, when they are silent or the process has gone. */
  ghost predicate CalmStreams(limits: ProcessLimits, environment: Environment, s0: Fields, c0: Cursor, s: Fields,
          c: Cursor, failure: Option<SessionError>)
  {
    && (0 < limits.pollEvents && !s0.stderrFinished && environment.stderr(c0.stderr).Empty?
        && W.TryRecv(Ran(s0, environment.schedule(c0.ticks)).link).Empty? ==>
          && failure.None? && s == Ran(s0, environment.schedule(c0.ticks))
          && c == c0.(stderr := c0.stderr + 1, ticks := c0.ticks + 1))
    && (s0.processExit.Some? && !s0.stderrFinished && environment.stderr(c0.stderr) == W.Received(StderrEof) ==>
          && failure.None? && s.stderrFinished && s.stdoutFinished == s0.stdoutFinished
          && s.lifecycle == s0.lifecycle && s.processExit == s0.processExit)
  }

  /** The workers of a silent or departing process. */
  ghost predicate CalmWorkers(limits: ProcessLimits, environment: Environment, now: nat, clockMax: nat, s0: Fields,
          c0: Cursor, s: Fields, c: Cursor, failure: Option<SessionError>)
  {
    && (Silent(limits, s0, environment, c0) ==>
          && failure.None? && s == Ran(s0, environment.schedule(c0.ticks))
          && c == Cursor(c0.process + 1, c0.stdout, c0.stderr + 1, c0.ticks + 1))
    && (Departing(limits, s0, environment, c0, now, clockMax) ==>
          && failure.None? && s.processExit.Some? && s.stderrFinished && s.stdoutFinished == s0.stdoutFinished
          && s.lifecycle == s0.lifecycle)
  }

  /** A reader that says at most one line, or that the stdout of a process that is gone has ended. */
  ghost predicate CalmReader(limits: ProcessLimits, environment: Environment, now: nat, clockMax: nat, s0: Fields,
          read0: nat, p0: Proxy, j0: J.Journal, s: Fields, read: nat, p: Proxy, j: J.Journal,
          failure: Option<SessionError>)
  {
    && (limits.pollEvents == 1 && !s0.stdoutFinished
        && Uneventful(s0, p0, j0, environment.stdout(read0), environment) ==>
          && failure.None? && read == read0 + 1 && Heard(s0, p0, environment.stdout(read0), environment, s, p)
          && j.lastSequence <= j0.lastSequence + 1)
    && (0 < limits.pollEvents && !s0.stdoutFinished && environment.stdout(read0) == W.Received(Eof)
        && now + limits.exitDrainTimeout <= clockMax && s0.processExit.Some? ==>
          failure.None? && s.stdoutFinished && SameEnding(s0, s))
  }

  /** The first half of such a poll. */
  ghost predicate CalmHearing(limits: ProcessLimits, environment: Environment, now: nat, clockMax: nat, s0: Fields,
          c0: Cursor, p0: Proxy, j0: J.Journal, s: Fields, c: Cursor, p: Proxy, j: J.Journal,
          failure: Option<SessionError>)
  {
    && (Quiet(limits, s0, p0, j0, environment, c0) ==>
          && failure.None? && c == Cursor(c0.process + 1, c0.stdout + 1, c0.stderr + 1, c0.ticks + 1)
          && Heard(Ran(s0, environment.schedule(c0.ticks)), p0, environment.stdout(c0.stdout), environment, s, p)
          && j.lastSequence <= j0.lastSequence + 1)
    && (Closing(limits, s0, environment, c0, now, clockMax) ==>
          && failure.None? && s.lifecycle == s0.lifecycle && s.processExit.Some?
          && s.stdoutFinished && s.stderrFinished)
  }

  /** The second half of such a poll, after expiry. */
  ghost predicate CalmMoving(limits: ProcessLimits, environment: Environment, deadlines: (nat, nat), now: nat,
          s0: Fields, t0: Trace, c0: Cursor, p0: Proxy, j0: J.Journal, s: Fields, t: Trace, c: Cursor, p: Proxy,
          j: J.Journal, r: Reading)
  {
    && (OneAtATime(limits, s0) && s0.lifecycle.Running? && s0.processExit.None? && Recordable(j0)
        && now < deadlines.0 && now < deadlines.1 ==>
          && DispatchOutcome(p0, now, s0, t0, environment.schedule(c0.ticks), s, t, r, p)
          && j.lastSequence <= j0.lastSequence + 1 && c == c0.(ticks := c0.ticks + 2))
    && (s0.lifecycle.Terminating? ==>
          && !r.Failed? && t == t0
          && (s0.processExit.Some? && s0.stdoutFinished && s0.stderrFinished ==> s.lifecycle.Exited?))
  }

  /** The second half of such a poll. */
  ghost predicate CalmAdvance(limits: ProcessLimits, environment: Environment, deadlines: (nat, nat), now: nat,
          s0: Fields, t0: Trace, c0: Cursor, p0: Proxy, j0: J.Journal, s: Fields, t: Trace, c: Cursor, p: Proxy,
          j: J.Journal, r: Reading)
  {
    && (Unhurried(limits, s0, p0, j0, deadlines, now) ==>
          && DispatchOutcome(AfterExpiry(p0, now), now, s0, t0, environment.schedule(c0.ticks), s, t, r, p)
          && j.lastSequence <= j0.lastSequence + 1 && c == c0.(ticks := c0.ticks + 2))
    && (s0.lifecycle.Terminating? ==>
          && !r.Failed? && t == t0
          && (s0.processExit.Some? && s0.stdoutFinished && s0.stderrFinished ==> s.lifecycle.Exited?))
  }

  /** A whole poll that hears at most one line, or the end of a terminating session's process. */
  ghost predicate CalmPoll(limits: ProcessLimits, environment: Environment, deadlines: (nat, nat), now: nat,
          clockMax: nat, s0: Fields, t0: Trace, c0: Cursor, p0: Proxy, j0: J.Journal, s: Fields, t: Trace, c: Cursor,
          p: Proxy, j: J.Journal, r: Reading)
  {
    && (Quiet(limits, s0, p0, j0, environment, c0) ==>
          exists m :: QuietVia(limits, environment, deadlines, now, s0, t0, c0, p0, j0, m, s, t, c, p, j, r))
    && (Closing(limits, s0, environment, c0, now, clockMax) ==> !r.Failed? && s.lifecycle.Exited? && t == t0)
  }

  /** The two halves make up the poll. */
  lemma {:induction false} CalmHalves(limits: ProcessLimits, environment: Environment, deadlines: (nat, nat), now: nat,
          clockMax: nat, s0: Fields, t0: Trace, c0: Cursor, p0: Proxy, j0: J.Journal, m: Midway, s: Fields, t: Trace,
          c: Cursor, p: Proxy, j: J.Journal, r: Reading)
    requires CalmHearing(limits, environment, now, clockMax, s0, c0, p0, j0, m.s, m.c, m.p, m.j, None)
    requires CalmAdvance(limits, environment, deadlines, now, m.s, t0, m.c, m.p, m.j, s, t, c, p, j, r)
    ensures CalmPoll(limits, environment, deadlines, now, clockMax, s0, t0, c0, p0, j0, s, t, c, p, j, r)
  {
    if Quiet(limits, s0, p0, j0, environment, c0) {
      assert QuietVia(limits, environment, deadlines, now, s0, t0, c0, p0, j0, m, s, t, c, p, j, r);
    }
  }
}
