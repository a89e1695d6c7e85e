/** What the session does with the events of its workers and with time, on its own fields. */
module SessionEvents {
  import opened Basics
  import opened ProxyModel
  import opened SessionModel
  import opened SessionSteps
  import opened SessionOutcomes
  import W = WriterLink
  import J = JournalModel

  /** The invariant holds now and however far the stdin worker runs next. */
  ghost predicate Kept(limits: ProcessLimits, s: Fields, t: Trace, p: Proxy, j: J.Journal) {
    forall steps :: SessionInv(limits, s.(link := W.WorkerSteps(s.link, steps)), t, p, j, Live(s.lifecycle))
  }

  lemma {:induction false} KeptMeans(limits: ProcessLimits, s: Fields, t: Trace, p: Proxy, j: J.Journal)
    ensures Kept(limits, s, t, p, j) <==> SessionInv(limits, s, t, p, j, Live(s.lifecycle))
  {
    assert W.WorkerSteps(s.link, []) == s.link;
    assert s.(link := s.link) == s;
    if SessionInv(limits, s, t, p, j, Live(s.lifecycle)) {
      forall steps
        ensures SessionInv(limits, s.(link := W.WorkerSteps(s.link, steps)), t, p, j, Live(s.lifecycle))
      {
        YieldKeepsInv(limits, s, t, p, j, Live(s.lifecycle), steps, W.WorkerSteps(s.link, steps));
      }
    }
  }

  predicate Fitting(p: Proxy) {
    p.client.forwarded <= U64_MAX && p.client.acceptedBytes <= U64_MAX
  }

  /** `begin_termination`: the first reason is kept, the stdin sender is dropped. */
  method BeginTermination(limits: ProcessLimits, s0: Fields, outcome: Outcome, ghost t: Trace, ghost p: Proxy,
          ghost j: J.Journal)
    returns (s: Fields)
    requires SessionInv(limits, s0, t, p, j, false) && IsReason(outcome)
    ensures Later(StatusOf(s0, t), StatusOf(s, t))
    ensures s0.lifecycle.Exited? ==> s == s0
    ensures !s0.lifecycle.Exited? ==> Kept(limits, s, t, p, j) && s == Terminated(s0, outcome)
  {
    s := s0;
    if s.lifecycle.Exited? {
      return;
    }
    TerminationKeepsInv(limits, s0, t, p, j, outcome);
    if s.requestedOutcome.None? {
      s := s.(requestedOutcome := Some(outcome));
    }
    s := s.(lifecycle := Terminating);
    s := s.(writerCloseRequested := true, link := W.Drop(s.link));
    KeptMeans(limits, s, t, p, j);
  }

  /** Termination from a state that still keeps a live session's promises. */
  method Abort(limits: ProcessLimits, s0: Fields, outcome: Outcome, ghost t: Trace, ghost p: Proxy, ghost j: J.Journal)
    returns (s: Fields)
    requires Kept(limits, s0, t, p, j) && !s0.lifecycle.Exited? && IsReason(outcome)
    ensures Kept(limits, s, t, p, j) && s == Terminated(s0, outcome) && Later(StatusOf(s0, t), StatusOf(s, t))
  {
    KeptMeans(limits, s0, t, p, j);
    LiveOrNot(s0.initialization, t, p, j, Live(s0.lifecycle));
    s := BeginTermination(limits, s0, outcome, t, p, j);
  }

  /** An acknowledgement from the stdin worker: neither counter check can fire. */
  method ReadAcknowledgement(limits: ProcessLimits, s0: Fields, bytes: nat, ghost t: Trace, ghost p: Proxy,
          ghost j: J.Journal)
    returns (r: Result<Fields, SessionError>)
    requires Kept(limits, s0, t, p, j) && Fitting(p) && W.TryRecv(s0.link) == W.Received(W.Written(bytes))
    ensures s0.writerOutstanding > 0 && r == Ok(Acknowledged(s0)) && Kept(limits, r.value, t, p, j)
  {
    KeptMeans(limits, s0, t, p, j);
    AcknowledgementFits(s0, t, p.client, limits.ioQueueMessages, Live(s0.lifecycle));
    if s0.writerOutstanding == 0 {
      return Err(CounterOverflow);
    }
    if s0.writtenClientFrames >= U64_MAX || s0.writtenClientBytes + bytes > U64_MAX {
      return Err(CounterOverflow);
    }
    AcknowledgementKeepsInv(limits, s0, t, p, j, Live(s0.lifecycle));
    KeptMeans(limits, Acknowledged(s0), t, p, j);
    return Ok(Acknowledged(s0));
  }

  /** The stdin worker's last event: closed, or failed. */
  method ReadFarewell(limits: ProcessLimits, s0: Fields, failed: bool, ghost t: Trace, ghost p: Proxy,
          ghost j: J.Journal)
    returns (s: Fields, r: Reading)
    requires Kept(limits, s0, t, p, j) && !s0.lifecycle.Exited?
    requires W.TryRecv(s0.link) == W.Received(if failed then W.WriterFailed else W.WriterClosed)
    ensures Kept(limits, s, t, p, j) && !s.lifecycle.Exited? && Later(StatusOf(s0, t), StatusOf(s, t))
    ensures r == if failed && s0.processExit.None? then Failed(WorkerIo(Stdin)) else Enough
    ensures r.Failed? ==> s.lifecycle.Terminating?
    ensures !r.Failed? ==> s == s0.(link := s.link, writerCloseRequested := true)
    ensures s.writerCloseRequested && s.writtenClientFrames == s0.writtenClientFrames
    ensures s.lastObservedTime == s0.lastObservedTime
  {
    KeptMeans(limits, s0, t, p, j);
    FarewellKeepsInv(limits, s0, t, p, j, Live(s0.lifecycle));
    s := s0.(link := s0.link.(events := s0.link.events[1..]), writerCloseRequested := true);
    KeptMeans(limits, s, t, p, j);
    if !failed || s.processExit.Some? {
      return s, Enough;
    }
    s := Abort(limits, s, TransportFailure, t, p, j);
    return s, Failed(WorkerIo(Stdin));
  }

  /** One iteration of `consume_writer_events`. A hang-up the session did not ask for cannot happen. */
  method ConsumeWriterEvent(limits: ProcessLimits, s0: Fields, ghost t: Trace, ghost p: Proxy, ghost j: J.Journal)
    returns (s: Fields, r: Reading)
    requires Kept(limits, s0, t, p, j) && !s0.lifecycle.Exited? && Fitting(p)
    ensures Kept(limits, s, t, p, j) && !s.lifecycle.Exited? && Later(StatusOf(s0, t), StatusOf(s, t))
    ensures r.Failed? <==> W.TryRecv(s0.link) == W.Received(W.WriterFailed) && s0.processExit.None?
    ensures r.Failed? ==> r.error == WorkerIo(Stdin) && s.lifecycle.Terminating?
    ensures !r.Failed? ==> s.lifecycle == s0.lifecycle && s.processExit == s0.processExit
    ensures !r.Failed? ==> s.stdoutFinished == s0.stdoutFinished && s.stderrFinished == s0.stderrFinished
    ensures W.TryRecv(s0.link).Empty? ==> s == s0
    ensures r.More? <==> W.TryRecv(s0.link).Received? && W.TryRecv(s0.link).value.Written?
    ensures s.writtenClientFrames == s0.writtenClientFrames + if r.More? then 1 else 0
    ensures s.lastObservedTime == s0.lastObservedTime
  {
    s := s0;
    match W.TryRecv(s.link)
    case Received(e) =>
      if e.Written? {
        var read := ReadAcknowledgement(limits, s, e.bytes, t, p, j);
        if read.Err? {
          return s, Failed(CounterOverflow);
        }
        return read.value, More;
      }
      s, r := ReadFarewell(limits, s, e.WriterFailed?, t, p, j);
    case Empty => return s, Enough;
    case Hangup =>
      KeptMeans(limits, s, t, p, j);
      NoSilentHangup(limits, s, t, p, j, Live(s0.lifecycle));
      if !s.writerCloseRequested {
        return s, Failed(WorkerDisconnected(Stdin));
      }
      return s, Enough;
  }

  /** `consume_writer_events`; the stdin worker may run before every read. */
  method ConsumeWriterEvents(limits: ProcessLimits, s0: Fields, schedule: nat -> seq<W.Tick>, tick0: nat,
          ghost t: Trace, ghost p: Proxy, ghost j: J.Journal)
    returns (s: Fields, tick: nat, written: nat, failure: Option<SessionError>)
    requires Kept(limits, s0, t, p, j) && !s0.lifecycle.Exited? && Fitting(p)
    ensures Kept(limits, s, t, p, j) && !s.lifecycle.Exited? && Later(StatusOf(s0, t), StatusOf(s, t))
    ensures failure.Some? ==> failure.value == WorkerIo(Stdin) && s.lifecycle.Terminating?
    ensures written == s.writtenClientFrames - s0.writtenClientFrames <= limits.pollEvents
    ensures s.lastObservedTime == s0.lastObservedTime
    ensures failure.None? ==> s.lifecycle == s0.lifecycle && s.processExit == s0.processExit
    ensures failure.None? ==> s.stdoutFinished == s0.stdoutFinished && s.stderrFinished == s0.stderrFinished
    ensures 0 < limits.pollEvents && W.TryRecv(Ran(s0, schedule(tick0)).link).Empty? ==>
              failure.None? && s == Ran(s0, schedule(tick0)) && tick == tick0 + 1
    ensures s0.processExit.Some? ==> failure.None?
  {
    s, tick, written, failure := s0, tick0, 0, None;
    var i := 0;
    while i < limits.pollEvents
      invariant i <= limits.pollEvents && written <= i && failure.None?
      invariant Kept(limits, s, t, p, j) && s.lifecycle == s0.lifecycle && Later(StatusOf(s0, t), StatusOf(s, t))
      invariant s.processExit == s0.processExit
      invariant s.stdoutFinished == s0.stdoutFinished && s.stderrFinished == s0.stderrFinished
      invariant i == 0 ==> s == s0 && tick == tick0
      invariant i > 0 ==> !W.TryRecv(Ran(s0, schedule(tick0)).link).Empty?
      invariant written == s.writtenClientFrames - s0.writtenClientFrames && s.lastObservedTime == s0.lastObservedTime
    {
      s := Yield(limits, s, schedule(tick), t, p, j);
      tick := tick + 1;
      var r;
      s, r := ConsumeWriterEvent(limits, s, t, p, j);
      match r {
        case Failed(e) => failure := Some(e); return;
        case Enough => return;
        case More => written := written + 1;
      }
      i := i + 1;
    }
  }

  /** The stdin worker runs for a while. */
  method Yield(limits: ProcessLimits, s0: Fields, steps: seq<W.Tick>, ghost t: Trace, ghost p: Proxy,
          ghost j: J.Journal)
    returns (s: Fields)
    requires Kept(limits, s0, t, p, j)
    ensures Kept(limits, s, t, p, j) && s == Ran(s0, steps)
    ensures s.link.senderOpen == s0.link.senderOpen
  {
    var next := W.WorkerSteps(s0.link, steps);
    KeptMeans(limits, s0, t, p, j);
    YieldKeepsInv(limits, s0, t, p, j, Live(s0.lifecycle), steps, next);
    s := s0.(link := next);
    KeptMeans(limits, s, t, p, j);
  }

  lemma {:induction false} KeptObserves(limits: ProcessLimits, s: Fields, s': Fields, t: Trace, p: Proxy, j: J.Journal)
    requires Kept(limits, s, t, p, j) && !s.lifecycle.Exited?
    requires s' == s.(stdoutFinished := s'.stdoutFinished, stdoutWithoutExitDeadline := s'.stdoutWithoutExitDeadline,
                      stderrFinished := s'.stderrFinished, processExit := s'.processExit,
                      processExitDeadline := s'.processExitDeadline)
    ensures Kept(limits, s', t, p, j)
  {
    KeptMeans(limits, s, t, p, j);
    ObservationsKeepInv(limits, s, s', t, p, j, Live(s.lifecycle));
    KeptMeans(limits, s', t, p, j);
  }

  method ConsumeStderrEvent(limits: ProcessLimits, s0: Fields, received: W.Recv<StderrEvent>, ghost t: Trace,
          ghost p: Proxy, ghost j: J.Journal)
    returns (s: Fields, failure: Option<SessionError>)
    requires Kept(limits, s0, t, p, j) && !s0.lifecycle.Exited? && !s0.stderrFinished
    ensures Kept(limits, s, t, p, j) && !s.lifecycle.Exited? && Later(StatusOf(s0, t), StatusOf(s, t))
    ensures received.Empty? ==> s == s0 && failure.None?
    ensures received == W.Received(StderrEof) ==> s == s0.(stderrFinished := true) && failure.None?
    ensures received.Hangup? || received == W.Received(StderrFailed) ==>
              && s == Terminated(s0.(stderrFinished := true), TransportFailure)
              && failure == Some(if received.Hangup? then WorkerDisconnected(Stderr) else WorkerIo(Stderr))
    ensures failure.Some? ==> PollError(failure.value)
    ensures s.writtenClientFrames == s0.writtenClientFrames && s.lastObservedTime == s0.lastObservedTime
  {
    if received.Empty? {
      return s0, None;
    }
    s, failure := s0.(stderrFinished := true), None;
    KeptObserves(limits, s0, s, t, p, j);
    if received == W.Received(StderrEof) {
      return;
    }
    s := Abort(limits, s, TransportFailure, t, p, j);
    failure := Some(if received.Hangup? then WorkerDisconnected(Stderr) else WorkerIo(Stderr));
  }

  /** How a reader that ends the stream without end of file is reported. */
  function ReaderError(received: W.Recv<ReaderEvent>): SessionError {
    match received
    case Received(LineTooLarge) => StdoutLineTooLarge
    case Received(UnterminatedLine) => UnterminatedStdoutLine
    case Received(AllocationFailed) => StdoutAllocationFailed
    case Received(ReaderFailed) => WorkerIo(Stdout)
    case Received(_) => DeadlineTooFar
    case _ => WorkerDisconnected(Stdout)
  }

  /** Reader events other than lines. */
  method ConsumeReaderEnd(limits: ProcessLimits, s0: Fields, received: W.Recv<ReaderEvent>, now: nat, clockMax: nat,
          ghost t: Trace, ghost p: Proxy, ghost j: J.Journal)
    returns (s: Fields, failure: Option<SessionError>)
    requires Kept(limits, s0, t, p, j) && !s0.lifecycle.Exited? && !s0.stdoutFinished
    requires received.Received? ==> !received.value.Line?
    ensures Kept(limits, s, t, p, j) && !s.lifecycle.Exited? && Later(StatusOf(s0, t), StatusOf(s, t))
    ensures received.Empty? ==> s == s0 && failure.None?
    ensures received == W.Received(Eof) && now + limits.exitDrainTimeout <= clockMax ==>
              && failure.None?
              && s == s0.(stdoutFinished := true, stdoutWithoutExitDeadline := Some(now + limits.exitDrainTimeout))
    ensures !received.Empty? && !(received == W.Received(Eof) && now + limits.exitDrainTimeout <= clockMax) ==>
              && failure == Some(ReaderError(received))
              && s == Terminated(s0.(stdoutFinished := true), TransportFailure)
    ensures s.writtenClientFrames == s0.writtenClientFrames && s.lastObservedTime == s0.lastObservedTime
  {
    if received.Empty? {
      return s0, None;
    }
    s, failure := s0.(stdoutFinished := true), None;
    if received == W.Received(Eof) && now + limits.exitDrainTimeout <= clockMax {
      s := s.(stdoutWithoutExitDeadline := Some(now + limits.exitDrainTimeout));
      KeptObserves(limits, s0, s, t, p, j);
      return;
    }
    KeptObserves(limits, s0, s, t, p, j);
    s := Abort(limits, s, TransportFailure, t, p, j);
    failure := Some(ReaderError(received));
  }

  method ConsumeProcessEvent(limits: ProcessLimits, s0: Fields, received: W.Recv<ProcessEvent>, now: nat, clockMax: nat,
          ghost t: Trace, ghost p: Proxy, ghost j: J.Journal)
    returns (s: Fields, failure: Option<SessionError>)
    requires Kept(limits, s0, t, p, j) && !s0.lifecycle.Exited? && s0.processExit.None?
    ensures Kept(limits, s, t, p, j) && !s.lifecycle.Exited? && Later(StatusOf(s0, t), StatusOf(s, t))
    ensures received.Empty? ==> s == s0 && failure.None?
    ensures received.Received? && received.value.ProcessExited? ==>
              var fits := now + limits.exitDrainTimeout <= clockMax;
              && s == s0.(processExit := Some(received.value.exit), stdoutWithoutExitDeadline := None,
                          processExitDeadline := Some(if fits then now + limits.exitDrainTimeout else now))
              && failure == if fits then None else Some(DeadlineTooFar)
    ensures received.Hangup? || received == W.Received(ProcessFailed) ==>
              && s == Terminated(s0, TransportFailure)
              && failure == Some(if received.Hangup? then WorkerDisconnected(Process) else WorkerIo(Process))
    ensures failure.Some? ==> PollError(failure.value)
    ensures s.writtenClientFrames == s0.writtenClientFrames && s.lastObservedTime == s0.lastObservedTime
  {
    s, failure := s0, None;
    match received
    case Received(ProcessExited(exit)) =>
      s := s.(processExit := Some(exit), stdoutWithoutExitDeadline := None);
      if now + limits.exitDrainTimeout <= clockMax {
        s := s.(processExitDeadline := Some(now + limits.exitDrainTimeout));
      } else {
        s := s.(processExitDeadline := Some(now));
        failure := Some(DeadlineTooFar);
      }
      KeptObserves(limits, s0, s, t, p, j);
    case Received(ProcessFailed) =>
      s := Abort(limits, s, TransportFailure, t, p, j);
      failure := Some(WorkerIo(Process));
    case Empty =>
    case Hangup =>
      s := Abort(limits, s, TransportFailure, t, p, j);
      failure := Some(WorkerDisconnected(Process));
  }

  method AdvanceStreamClosure(limits: ProcessLimits, s0: Fields, now: nat, ghost t: Trace, ghost p: Proxy,
          ghost j: J.Journal)
    returns (s: Fields, failure: Option<SessionError>)
    requires Kept(limits, s0, t, p, j) && !s0.lifecycle.Exited?
    ensures Kept(limits, s, t, p, j) && !s.lifecycle.Exited? && Later(StatusOf(s0, t), StatusOf(s, t))
    ensures var overdue := && s0.processExit.None? && Live(s0.lifecycle)
                           && s0.stdoutWithoutExitDeadline.Some? && s0.stdoutWithoutExitDeadline.value <= now;
            && s == (if overdue then Terminated(s0, TransportFailure) else s0)
            && failure == (if overdue then Some(StdoutClosedBeforeExit) else None)
  {
    s, failure := s0, None;
    if s.processExit.None? && Live(s.lifecycle)
       && s.stdoutWithoutExitDeadline.Some? && now >= s.stdoutWithoutExitDeadline.value {
      s := Abort(limits, s, TransportFailure, t, p, j);
      failure := Some(StdoutClosedBeforeExit);
    }
  }

  /** `advance_shutdown`: with nothing queued and nothing outstanding, `Close` always reaches the worker. */
  method AdvanceShutdown(limits: ProcessLimits, s0: Fields, steps: seq<W.Tick>, queued: nat, now: nat, ghost t: Trace,
          ghost p: Proxy, ghost j: J.Journal)
    returns (s: Fields, failure: Option<SessionError>)
    requires Kept(limits, s0, t, p, j) && !s0.lifecycle.Exited?
    ensures Kept(limits, s, t, p, j) && !s.lifecycle.Exited? && Later(StatusOf(s0, t), StatusOf(s, t))
    ensures failure.None?
    ensures s0.lifecycle.GracefulShutdown? && s0.processExit.None? && s0.lifecycle.deadline <= now ==>
              s == Terminated(s0, ForcedShutdown)
    ensures s0.lifecycle.GracefulShutdown? && s0.processExit.None? && now < s0.lifecycle.deadline
            && queued == 0 && s0.writerOutstanding == 0 ==>
              s.lifecycle == s0.lifecycle && s.writerCloseRequested
    ensures !s0.lifecycle.GracefulShutdown? || s0.processExit.Some? ==> s == s0
    ensures s.writtenClientFrames == s0.writtenClientFrames && s.lastObservedTime == s0.lastObservedTime
  {
    s, failure := s0, None;
    if !s.lifecycle.GracefulShutdown? || s.processExit.Some? {
      return;
    }
    if now >= s.lifecycle.deadline {
      s := Abort(limits, s, ForcedShutdown, t, p, j);
      return;
    }
    if queued == 0 && s.writerOutstanding == 0 && !s.writerCloseRequested {
      s := Yield(limits, s, steps, t, p, j);
      KeptMeans(limits, s, t, p, j);
      StdinCloseKeepsInv(limits, s, t, p, j);
      if !s.link.senderOpen {
        return s, Some(WorkerDisconnected(Stdin));
      }
      var sent := W.TrySend(s.link, W.CloseCommand);
      if sent.Err? {
        return s, Some(WorkerDisconnected(Stdin));
      }
      s := s.(link := W.Drop(sent.value), writerCloseRequested := true);
      KeptMeans(limits, s, t, p, j);
    }
  }

  method AdvanceDeadlines(limits: ProcessLimits, s0: Fields, initializationDeadline: nat, runtimeDeadline: nat,
          now: nat, ghost t: Trace, ghost p: Proxy, ghost j: J.Journal)
    returns (s: Fields)
    requires Kept(limits, s0, t, p, j) && !s0.lifecycle.Exited?
    ensures Kept(limits, s, t, p, j) && !s.lifecycle.Exited? && Later(StatusOf(s0, t), StatusOf(s, t))
    ensures var watched := s0.lifecycle.Running? && s0.processExit.None?;
            s == if watched && !s0.initialization.Ready? && initializationDeadline <= now
                 then Terminated(s0, InitializationTimeout)
                 else if watched && runtimeDeadline <= now then Terminated(s0, RuntimeTimeout)
                 else s0
  {
    s := s0;
    if !s.lifecycle.Running? || s.processExit.Some? {
      return;
    }
    if !s.initialization.Ready? && now >= initializationDeadline {
      s := Abort(limits, s, InitializationTimeout, t, p, j);
    } else if now >= runtimeDeadline {
      s := Abort(limits, s, RuntimeTimeout, t, p, j);
    }
  }

  /** The report of `finish_process_exit`. */
  method Conclude(s: Fields, exit: ProcessExit, close: CloseReport, ghost t: Trace) returns (report: ExitReport)
    requires StatusInv(StatusOf(s, t)) && !s.lifecycle.Exited? && s.processExit == Some(exit)
    ensures Explained(report, StatusOf(s, t)) && report.close == close
    ensures report.initialized == s.initialization.Ready? && report.abandonedWriterFrames == s.writerOutstanding
  {
    var outcome: Outcome;
    var drained := s.stdoutFinished && s.stderrFinished;
    if s.requestedOutcome.Some? {
      outcome := s.requestedOutcome.value;
    } else if s.lifecycle.GracefulShutdown? && exit.success {
      outcome := CleanShutdown;
    } else if exit.success {
      outcome := UnexpectedExit;
    } else {
      outcome := Crash;
    }
    if !drained && (outcome.CleanShutdown? || outcome.UnexpectedExit?) {
      outcome := TransportFailure;
    }
    report := ExitReport(outcome, exit.code, s.initialization.Ready?, drained, s.writerOutstanding, close);
  }

  /** The stdin worker is heard, then stderr. */
  method ObserveStreams(limits: ProcessLimits, s0: Fields, environment: Environment, c0: Cursor, ghost t: Trace,
          ghost p: Proxy, ghost j: J.Journal)
    returns (s: Fields, c: Cursor, written: nat, failure: Option<SessionError>)
    requires Kept(limits, s0, t, p, j) && !s0.lifecycle.Exited? && Fitting(p)
    ensures Kept(limits, s, t, p, j) && !s.lifecycle.Exited? && Later(StatusOf(s0, t), StatusOf(s, t))
    ensures failure.Some? ==> PollError(failure.value)
    ensures written <= limits.pollEvents && s.writtenClientFrames == s0.writtenClientFrames + written
    ensures s.lastObservedTime == s0.lastObservedTime
    ensures c.process == c0.process && c.stdout == c0.stdout
    ensures CalmStreams(limits, environment, s0, c0, s, c, failure)
  {
    var tick;
    s, tick, written, failure := ConsumeWriterEvents(limits, s0, environment.schedule, c0.ticks, t, p, j);
    c := c0.(ticks := tick);
    if failure.Some? {
      return;
    }
    if !s.stderrFinished {
      s, failure := ConsumeStderrEvent(limits, s, environment.stderr(c.stderr), t, p, j);
      c := c.(stderr := c.stderr + 1);
    }
  }

  /** The first events of a poll: process, stdin worker and stderr. */
  method ObserveWorkers(limits: ProcessLimits, s0: Fields, environment: Environment, c0: Cursor, now: nat,
          clockMax: nat, ghost t: Trace, ghost p: Proxy, ghost j: J.Journal)
    returns (s: Fields, c: Cursor, written: nat, failure: Option<SessionError>)
    requires Kept(limits, s0, t, p, j) && !s0.lifecycle.Exited? && Fitting(p)
    ensures Kept(limits, s, t, p, j) && !s.lifecycle.Exited? && Later(StatusOf(s0, t), StatusOf(s, t))
    ensures failure.Some? ==> PollError(failure.value)
    ensures written <= limits.pollEvents
    ensures s.writtenClientFrames == s0.writtenClientFrames + written && s.lastObservedTime == s0.lastObservedTime
    ensures c.stdout == c0.stdout
    ensures CalmWorkers(limits, environment, now, clockMax, s0, c0, s, c, failure)
  {
    s, c, written, failure := s0, c0, 0, None;
    if s.processExit.None? {
      s, failure := ConsumeProcessEvent(limits, s, environment.process(c.process), now, clockMax, t, p, j);
      c := c.(process := c.process + 1);
      if failure.Some? {
        return;
      }
    }
    s, c, written, failure := ObserveStreams(limits, s, environment, c, t, p, j);
  }
}
