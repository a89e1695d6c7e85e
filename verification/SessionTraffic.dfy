/** The session's traffic: every message it admits, dispatches, delivers or expires. */
module SessionTraffic {
  import opened Basics
  import opened Messages
  import opened Json
  import opened Classification
  import opened ProxyModel
  import opened Handshake
  import opened SessionModel
  import opened SessionSteps
  import opened SessionOutcomes
  import opened SessionEvents
  import opened Recording
  import opened Proxies
  import opened Journals
  import W = WriterLink
  import J = JournalModel

  lemma {:induction false} KeptStill(limits: ProcessLimits, s: Fields, t: Trace, p: Proxy, j: J.Journal, p': Proxy,
          j': J.Journal)
    requires Kept(limits, s, t, p, j) && Still(p, p') && Matched(p', j') && (Recordable(j') ==> Recordable(j))
    requires p'.lastTime == p.lastTime || (Live(s.lifecycle) && p'.lastTime == Some(s.lastObservedTime))
    ensures Kept(limits, s, t, p', j')
  {
    KeptMeans(limits, s, t, p, j);
    SessionStill(limits, s, t, p, j, Live(s.lifecycle), p', j');
    KeptMeans(limits, s, t, p', j');
  }

  lemma {:induction false} KeptMatched(limits: ProcessLimits, s: Fields, t: Trace, p: Proxy, j: J.Journal)
    requires Kept(limits, s, t, p, j)
    ensures Matched(p, j)
  {
    KeptMeans(limits, s, t, p, j);
  }

  /** The proxy's clock is ahead of the session's only if a delivery was released whose record was refused, and then
      only of instants before that delivery; a live session, and one whose journal still records, has none. */
  lemma {:induction false} KeptClock(limits: ProcessLimits, s: Fields, t: Trace, p: Proxy, j: J.Journal)
    requires Kept(limits, s, t, p, j)
    ensures forall now :: s.lastObservedTime <= now ==> (ClockMovedBack(p, now) <==> Overtaken(t, now))
    ensures Live(s.lifecycle) || Recordable(j) ==> t.unrecorded.None? && !ClockMovedBack(p, s.lastObservedTime)
  {
    KeptMeans(limits, s, t, p, j);
  }

  lemma {:induction false} KeptStatus(limits: ProcessLimits, s: Fields, t: Trace, p: Proxy, j: J.Journal)
    requires Kept(limits, s, t, p, j)
    ensures StatusInv(StatusOf(s, t))
  {
    KeptMeans(limits, s, t, p, j);
  }

  // ---- Frames toward the server ------------------------------------------------------------

  /** The rest of a dispatch, once proxy and journal have released and recorded a frame. */
  method SettleDispatch(limits: ProcessLimits, s0: Fields, f: Frame, refused: Option<J.ControlError>,
          steps: seq<W.Tick>, ghost t0: Trace, ghost p0: Proxy, ghost j0: J.Journal, ghost p: Proxy, ghost j: J.Journal)
    returns (s: Fields, ghost t: Trace, r: Reading)
    requires Kept(limits, s0, t0, p0, j0) && Fitting(p)
    requires Live(s0.lifecycle) && !s0.writerCloseRequested && s0.writerOutstanding < limits.ioQueueMessages
    requires Left(p0, ClientToServer, f, p) && Matched(p, j) && (Recordable(j) ==> Recordable(j0))
    requires p.lastTime == Some(s0.lastObservedTime)
    requires refused.Some? ==> refused.value.EventSequenceOverflow?
    ensures Kept(limits, s, t, p, j) && !s.lifecycle.Exited? && Later(StatusOf(s0, t0), StatusOf(s, t))
    ensures refused.Some? ==>
              r == Failed(Control(refused.value)) && s == Terminated(s0, ObservationFailure) && t == Releasing(t0, f)
    ensures refused.None? ==> Settled(s0, t0, f, W.WorkerSteps(s0.link, steps), s, t, r)
  {
    var link := W.WorkerSteps(s0.link, steps);
    KeptMeans(limits, s0, t0, p0, j0);
    DispatchReleases(limits, s0, t0, p0, j0, f, p, j);
    DispatchSettles(limits, s0, t0, p0, j0, f, p, j, steps, link);
    s, t := s0, Releasing(t0, f);
    if refused.Some? {
      s := BeginTermination(limits, s, ObservationFailure, t, p, j);
      return s, t, Failed(Control(refused.value));
    }
    var next := DispatchNext(s.initialization, f);
    if next.None? {
      return s, t, Failed(InitializationSequenceViolation);
    }
    s, t := s.(initialization := next.value, link := link), Attempting(t0, f, link);
    if !s.link.senderOpen {
      return s, t, Failed(WorkerDisconnected(Stdin));
    }
    var sent := W.TrySend(s.link, W.FrameCommand(f));
    if sent.Err? {
      if sent.error.Full? {
        return s, t, Failed(WorkerDisconnected(StdinCapacity));
      }
      s := BeginTermination(limits, s, TransportFailure, t, p, j);
      return s, t, Failed(WorkerDisconnected(Stdin));
    }
    if s.dispatchedClientFrames >= U64_MAX {
      return s, t, Failed(CounterOverflow);
    }
    s, t := Dispatched(s, sent.value), Handing(t0, f, link);
    KeptMeans(limits, s, t, p, j);
    return s, t, More;
  }

  method ContinueDispatch(limits: ProcessLimits, s0: Fields, released: Result<Option<Frame>, ProxyError>,
          refused: Option<J.ControlError>, steps: seq<W.Tick>, ghost t0: Trace, ghost p0: Proxy, ghost j0: J.Journal,
          ghost p: Proxy, ghost j: J.Journal)
    returns (s: Fields, ghost t: Trace, r: Reading)
    requires Kept(limits, s0, t0, p0, j0) && Fitting(p)
    requires Live(s0.lifecycle) && !s0.writerCloseRequested && s0.writerOutstanding < limits.ioQueueMessages
    requires ReleaseOutcome(p0, j0, ClientToServer, s0.lastObservedTime, released, refused, p, j)
    ensures Kept(limits, s, t, p, j) && !s.lifecycle.Exited? && Later(StatusOf(s0, t0), StatusOf(s, t))
    ensures r.Failed? ==> PollError(r.error)
    ensures r.More? ==> s.lifecycle == s0.lifecycle && !s.writerCloseRequested
    ensures released == Ok(None) <==> r.Enough?
    ensures r.Enough? ==> s == s0 && t == t0
    ensures released.Ok? && released.value.Some? && refused.None? ==>
              Settled(s0, t0, released.value.value, W.WorkerSteps(s0.link, steps), s, t, r)
    ensures HandedOver(s0, t0, s, t, if r.More? then 1 else 0)
  {
    KeptClock(limits, s0, t0, p0, j0);
    if released.Err? {
      return s0, t0, Failed(ProxyFailed(released.error));
    }
    if released.value.None? {
      KeptStill(limits, s0, t0, p0, j0, p, j);
      return s0, t0, Enough;
    }
    s, t, r := SettleDispatch(limits, s0, released.value.value, refused, steps, t0, p0, j0, p, j);
    SettledOnce(s0, t0, released.value.value, W.WorkerSteps(s0.link, steps), s, t, r);
  }

  /** Moves one server-bound frame from the proxy to the stdin worker. */
  method DispatchFrame(limits: ProcessLimits, proxy: TransparentProxy, journal: EventJournal, s0: Fields,
          steps: seq<W.Tick>, now: nat, ghost t0: Trace)
    returns (s: Fields, ghost t: Trace, r: Reading)
    requires proxy.Valid() && journal.Valid() && Kept(limits, s0, t0, proxy.View(), journal.View())
    requires Live(s0.lifecycle) && !s0.writerCloseRequested && s0.writerOutstanding < limits.ioQueueMessages
    requires now == s0.lastObservedTime
    modifies proxy, proxy.toServer, proxy.toClient, journal
    ensures Kept(limits, s, t, proxy.View(), journal.View())
    ensures !s.lifecycle.Exited? && Later(StatusOf(s0, t0), StatusOf(s, t))
    ensures r.Failed? ==> PollError(r.error)
    ensures r.More? ==> s.lifecycle == s0.lifecycle && !s.writerCloseRequested
    ensures r.Enough? ==> s == s0 && t == t0
    ensures HandedOver(s0, t0, s, t, if r.More? then 1 else 0) && SameCounts(old(proxy.View()), proxy.View())
    ensures DispatchedOne(old(proxy.View()), old(journal.View()), now, s0, t0, steps, s, t, r, proxy.View(),
                          journal.View())
    ensures proxy.Valid() && journal.Valid()
  {
    ghost var p0, j0 := proxy.View(), journal.View();
    KeptMatched(limits, s0, t0, p0, j0);
    var released, refused := ReleaseRecorded(proxy, journal, ClientToServer, now);
    s, t, r := ContinueDispatch(limits, s0, released, refused, steps, t0, p0, j0, proxy.View(), journal.View());
  }

  /** `dispatch_client_frames`: as many frames as the stdin worker and the poll budget allow. */
  method DispatchFrames(limits: ProcessLimits, proxy: TransparentProxy, journal: EventJournal, s0: Fields,
          schedule: nat -> seq<W.Tick>, tick0: nat, now: nat, ghost t0: Trace)
    returns (s: Fields, ghost t: Trace, tick: nat, dispatched: nat, failure: Option<SessionError>)
    requires proxy.Valid() && journal.Valid() && Kept(limits, s0, t0, proxy.View(), journal.View())
    requires !s0.lifecycle.Exited?
    requires now == s0.lastObservedTime
    modifies proxy, proxy.toServer, proxy.toClient, journal
    ensures Kept(limits, s, t, proxy.View(), journal.View())
    ensures !s.lifecycle.Exited? && Later(StatusOf(s0, t0), StatusOf(s, t)) && dispatched <= limits.pollEvents
    ensures failure.Some? ==> PollError(failure.value)
    ensures !Live(s0.lifecycle) || s0.writerCloseRequested ==> s == s0 && t == t0 && failure.None?
    ensures HandedOver(s0, t0, s, t, dispatched) && SameCounts(old(proxy.View()), proxy.View())
    ensures failure.None? ==> s.lifecycle == s0.lifecycle
    ensures OneAtATime(limits, s0) ==>
              && tick == tick0 + 1
              && DispatchedOne(old(proxy.View()), old(journal.View()), now, s0, t0, schedule(tick0), s, t,
                               ReadingOf(dispatched, failure), proxy.View(), journal.View())
    ensures proxy.Valid() && journal.Valid()
  {
    s, t, tick, dispatched, failure := s0, t0, tick0, 0, None;
    if !Live(s.lifecycle) || s.writerCloseRequested {
      return;
    }
    while s.writerOutstanding < limits.ioQueueMessages && dispatched < limits.pollEvents
      invariant proxy.Valid() && journal.Valid() && Kept(limits, s, t, proxy.View(), journal.View())
      invariant s.lifecycle == s0.lifecycle && !s.writerCloseRequested && dispatched <= limits.pollEvents
      invariant Later(StatusOf(s0, t0), StatusOf(s, t))
      invariant HandedOver(s0, t0, s, t, dispatched) && SameCounts(old(proxy.View()), proxy.View())
      invariant dispatched == 0 ==>
                  && s == s0 && t == t0 && tick == tick0
                  && proxy.View() == old(proxy.View()) && journal.View() == old(journal.View())
      invariant dispatched == 1 ==>
                  && tick == tick0 + 1
                  && DispatchedOne(old(proxy.View()), old(journal.View()), now, s0, t0, schedule(tick0), s, t,
                                   More, proxy.View(), journal.View())
      decreases limits.pollEvents - dispatched
    {
      ghost var before := StatusOf(s, t);
      var r;
      s, t, r := DispatchFrame(limits, proxy, journal, s, schedule(tick), now, t);
      LaterChains(StatusOf(s0, t0), before, StatusOf(s, t));
      assert Later(StatusOf(s0, t0), StatusOf(s, t));
      tick := tick + 1;
      assert HandedOver(s0, t0, s, t, dispatched + if r.More? then 1 else 0);
      match r {
        case Failed(e) => failure := Some(e); return;
        case Enough => return;
        case More => dispatched := dispatched + 1;
      }
    }
  }

  // ---- Policy --------------------------------------------------------------------------------

  /** A blocked candidate is recorded, never admitted, and ends the session. */
  method DenyBlocked(limits: ProcessLimits, journal: EventJournal, s0: Fields, o: Observation, rule: nat,
          ghost t: Trace, ghost p: Proxy)
    returns (s: Fields, error: SessionError)
    requires journal.Valid() && Kept(limits, s0, t, p, journal.View()) && !s0.lifecycle.Exited? && WellFormed(o)
    modifies journal
    ensures journal.Valid() && Kept(limits, s, t, p, journal.View())
    ensures s.lifecycle.Terminating? && Later(StatusOf(s0, t), StatusOf(s, t))
    ensures error == if Recordable(old(journal.View())) then Blocked(rule) else Control(J.EventSequenceOverflow)
    ensures s0.requestedOutcome.None? ==>
              s.requestedOutcome == Some(if error.Blocked? then InterceptionBlocked else ObservationFailure)
    ensures s.writtenClientFrames == s0.writtenClientFrames && s.lastObservedTime == s0.lastObservedTime
  {
    ghost var j := journal.View();
    var recorded := journal.RecordBlocked(o, rule);
    KeptMeans(limits, s0, t, p, j);
    KeptStill(limits, s0, t, p, j, p, journal.View());
    if recorded.Err? {
      s := Abort(limits, s0, ObservationFailure, t, p, journal.View());
      return s, Control(recorded.error);
    }
    s := Abort(limits, s0, InterceptionBlocked, t, p, journal.View());
    return s, Blocked(rule);
  }

  // ---- Messages from the server --------------------------------------------------------------

  function ServerErrorOf(e: ServerError): SessionError {
    if e.Rejected? then InitializeRejected else UnexpectedServerMessage
  }

  /** The rest of a server admission, once proxy and journal have spoken. */
  method SettleServerAdmission(limits: ProcessLimits, s0: Fields, f: Frame, admitted: Result<Observation, ProxyError>,
          refused: Option<J.ControlError>, next: Initialization, ghost t: Trace, ghost p0: Proxy, ghost j0: J.Journal,
          ghost p: Proxy, ghost j: J.Journal)
    returns (s: Fields, failure: Option<SessionError>)
    requires Kept(limits, s0, t, p0, j0) && !s0.lifecycle.Exited? && f.observation.direction.ServerToClient?
    requires ServerNext(s0.initialization, !Live(s0.lifecycle), f.observation) == Ok(next)
    requires AdmitOutcome(p0, j0, f, admitted, refused, p, j)
    ensures Kept(limits, s, t, p, j) && !s.lifecycle.Exited? && Later(StatusOf(s0, t), StatusOf(s, t))
    ensures failure.Some? ==> s.lifecycle.Terminating? && PollError(failure.value)
    ensures failure.None? <==> admitted.Ok? && refused.None?
    ensures failure.None? ==> s == s0.(initialization := next)
    ensures s.writtenClientFrames == s0.writtenClientFrames && s.lastObservedTime == s0.lastObservedTime
  {
    s, failure := s0, None;
    if admitted.Err? {
      s := Abort(limits, s, ProtocolFailure, t, p, j);
      return s, Some(ProxyFailed(admitted.error));
    }
    KeptMeans(limits, s0, t, p0, j0);
    ServerAdmissionKeepsInv(s.initialization, t, p0, j0, Live(s.lifecycle), f, p, j);
    if refused.Some? {
      s := BeginTermination(limits, s, ObservationFailure, t, p, j);
      return s, Some(Control(refused.value));
    }
    s := s.(initialization := next);
    KeptMeans(limits, s, t, p, j);
  }

  /** Prepares a line of server output and checks it against the handshake. */
  method ScreenServerLine(limits: ProcessLimits, proxy: TransparentProxy, s0: Fields, line: Bytes,
          decode: Bytes -> Option<RawJson>, ghost t: Trace, ghost j: J.Journal)
    returns (s: Fields, r: Result<(Candidate, Initialization), SessionError>)
    requires proxy.Valid() && Kept(limits, s0, t, proxy.View(), j) && !s0.lifecycle.Exited?
    ensures Kept(limits, s, t, proxy.View(), j) && Later(StatusOf(s0, t), StatusOf(s, t))
    ensures r.Err? ==> s == Terminated(s0, ProtocolFailure) && PollError(r.error)
    ensures r.Ok? <==> proxy.open && Acceptable(line, proxy.limits, decode) && InTurn(s0, proxy.View(), line, decode)
    ensures r.Ok? ==>
              && s == s0 && r.value.0 == Offered(proxy.View(), ServerToClient, line, decode)
              && ServerNext(s0.initialization, s0.lifecycle.Terminating?, r.value.0.frame.observation) == Ok(r.value.1)
  {
    s := s0;
    var candidate := proxy.Prepare(ServerToClient, line, decode);
    if candidate.Err? {
      s := Abort(limits, s, ProtocolFailure, t, proxy.View(), j);
      return s, Err(ProxyFailed(candidate.error));
    }
    var next := ServerNext(s.initialization, s.lifecycle.Terminating?, candidate.value.frame.observation);
    if next.Err? {
      s := Abort(limits, s, ProtocolFailure, t, proxy.View(), j);
      return s, Err(ServerErrorOf(next.error));
    }
    return s, Ok((candidate.value, next.value));
  }

  /** Admits and records a server candidate that passed the handshake and the policy. */
  method AdmitExpected(limits: ProcessLimits, proxy: TransparentProxy, journal: EventJournal, s0: Fields, c: Candidate,
          next: Initialization, ghost t: Trace)
    returns (s: Fields, failure: Option<SessionError>)
    requires proxy.Valid() && journal.Valid() && Kept(limits, s0, t, proxy.View(), journal.View())
    requires !s0.lifecycle.Exited? && ValidFrame(c.frame) && c.frame.observation.direction.ServerToClient?
    requires ServerNext(s0.initialization, s0.lifecycle.Terminating?, c.frame.observation) == Ok(next)
    modifies proxy, proxy.toServer, proxy.toClient, journal
    ensures Kept(limits, s, t, proxy.View(), journal.View())
    ensures !s.lifecycle.Exited? && Later(StatusOf(s0, t), StatusOf(s, t))
    ensures failure.Some? ==> s.lifecycle.Terminating? && PollError(failure.value)
    ensures failure.None? <==> Admit(old(proxy.View()), c).Ok? && Recordable(old(journal.View()))
    ensures failure.None? ==>
              && s == s0.(initialization := next) && Admit(old(proxy.View()), c) == Ok(proxy.View())
              && journal.View().lastSequence == old(journal.View()).lastSequence + 1
              && proxy.View().server.acceptedMessages == old(proxy.View()).server.acceptedMessages + 1
    ensures s.writtenClientFrames == s0.writtenClientFrames && s.lastObservedTime == s0.lastObservedTime
    ensures proxy.View().expired == old(proxy.View()).expired
    ensures proxy.Valid() && journal.Valid()
  {
    ghost var p, j := proxy.View(), journal.View();
    KeptMatched(limits, s0, t, p, j);
    var admitted, refused := AdmitRecorded(proxy, journal, c);
    s, failure := SettleServerAdmission(limits, s0, c.frame, admitted, refused, next, t, p, j,
                                        proxy.View(), journal.View());
  }

  /** One line of server output: prepared, checked against the handshake and the policy, then admitted. */
  method AdmitServerLine(limits: ProcessLimits, proxy: TransparentProxy, journal: EventJournal, s0: Fields, line: Bytes,
          environment: Environment, ghost t: Trace)
    returns (s: Fields, failure: Option<SessionError>)
    requires proxy.Valid() && journal.Valid() && Kept(limits, s0, t, proxy.View(), journal.View())
    requires !s0.lifecycle.Exited?
    modifies proxy, proxy.toServer, proxy.toClient, journal
    ensures proxy.Valid() && journal.Valid()
    ensures Kept(limits, s, t, proxy.View(), journal.View())
    ensures !s.lifecycle.Exited? && Later(StatusOf(s0, t), StatusOf(s, t))
    ensures failure.Some? ==> s.lifecycle.Terminating? && PollError(failure.value)
    ensures failure.None? <==> Takes(s0, old(proxy.View()), old(journal.View()), line, environment)
    ensures failure.None? ==>
              && Taken(s0, old(proxy.View()), line, environment, s, proxy.View())
              && journal.View().lastSequence == old(journal.View()).lastSequence + 1
              && proxy.View().server.acceptedMessages == old(proxy.View()).server.acceptedMessages + 1
    ensures s.writtenClientFrames == s0.writtenClientFrames && s.lastObservedTime == s0.lastObservedTime
    ensures proxy.View().expired == old(proxy.View()).expired
  {
    var screened;
    s, screened := ScreenServerLine(limits, proxy, s0, line, environment.decode, t, journal.View());
    if screened.Err? {
      return s, Some(screened.error);
    }
    var (candidate, next) := screened.value;
    var blocking := environment.policy(candidate.frame.observation);
    if blocking.Some? {
      var error;
      s, error := DenyBlocked(limits, journal, s, candidate.frame.observation, blocking.value, t, proxy.View());
      return s, Some(error);
    }
    s, failure := AdmitExpected(limits, proxy, journal, s, candidate, next, t);
  }

  /** One event of the stdout reader. */
  method ConsumeReaderEvent(limits: ProcessLimits, proxy: TransparentProxy, journal: EventJournal, s0: Fields,
          received: W.Recv<ReaderEvent>, environment: Environment, now: nat, clockMax: nat, ghost t: Trace)
    returns (s: Fields, r: Reading)
    requires proxy.Valid() && journal.Valid() && Kept(limits, s0, t, proxy.View(), journal.View())
    requires !s0.lifecycle.Exited? && !s0.stdoutFinished
    modifies proxy, proxy.toServer, proxy.toClient, journal
    ensures Kept(limits, s, t, proxy.View(), journal.View())
    ensures !s.lifecycle.Exited? && Later(StatusOf(s0, t), StatusOf(s, t))
    ensures r.Failed? ==> PollError(r.error) && s.lifecycle.Terminating?
    ensures r.More? ==> !s.stdoutFinished && received.Received? && received.value.Line?
    ensures s.writtenClientFrames == s0.writtenClientFrames && s.lastObservedTime == s0.lastObservedTime
    ensures proxy.View().expired == old(proxy.View()).expired
    ensures !r.Failed? ==>
              proxy.View().server.acceptedMessages ==
              old(proxy.View()).server.acceptedMessages + if r.More? then 1 else 0
    ensures Uneventful(s0, old(proxy.View()), old(journal.View()), received, environment) ==>
              && !r.Failed? && Heard(s0, old(proxy.View()), received, environment, s, proxy.View())
              && journal.View().lastSequence <= old(journal.View()).lastSequence + 1
    ensures received == W.Received(Eof) && now + limits.exitDrainTimeout <= clockMax ==>
              r.Enough? && s.stdoutFinished && SameEnding(s0, s)
    ensures proxy.Valid() && journal.Valid()
  {
    var failure;
    if received.Received? && received.value.Line? {
      s, failure := AdmitServerLine(limits, proxy, journal, s0, received.value.bytes, environment, t);
      return s, if failure.Some? then Failed(failure.value) else More;
    }
    s, failure := ConsumeReaderEnd(limits, s0, received, now, clockMax, t, proxy.View(), journal.View());
    return s, if failure.Some? then Failed(failure.value) else Enough;
  }

  /** `consume_reader_events`: lines are admitted until the stream ends, pauses or the poll budget is spent. */
  method ConsumeReaderEvents(limits: ProcessLimits, proxy: TransparentProxy, journal: EventJournal, s0: Fields,
          environment: Environment, read0: nat, now: nat, clockMax: nat, ghost t: Trace)
    returns (s: Fields, read: nat, messages: nat, failure: Option<SessionError>)
    requires proxy.Valid() && journal.Valid() && Kept(limits, s0, t, proxy.View(), journal.View())
    requires !s0.lifecycle.Exited?
    modifies proxy, proxy.toServer, proxy.toClient, journal
    ensures Kept(limits, s, t, proxy.View(), journal.View())
    ensures !s.lifecycle.Exited? && Later(StatusOf(s0, t), StatusOf(s, t)) && messages <= limits.pollEvents
    ensures failure.Some? ==> PollError(failure.value)
    ensures s.writtenClientFrames == s0.writtenClientFrames && s.lastObservedTime == s0.lastObservedTime
    ensures proxy.View().expired == old(proxy.View()).expired
    ensures failure.None? ==>
              proxy.View().server.acceptedMessages == old(proxy.View()).server.acceptedMessages + messages
    ensures CalmReader(limits, environment, now, clockMax, s0, read0, old(proxy.View()), old(journal.View()), s, read,
                       proxy.View(), journal.View(), failure)
    ensures proxy.Valid() && journal.Valid()
  {
    s, read, messages, failure := s0, read0, 0, None;
    if s.stdoutFinished {
      return;
    }
    while messages < limits.pollEvents
      invariant proxy.Valid() && journal.Valid() && Kept(limits, s, t, proxy.View(), journal.View())
      invariant !s.lifecycle.Exited? && Later(StatusOf(s0, t), StatusOf(s, t)) && messages <= limits.pollEvents
      invariant !s.stdoutFinished && failure.None? && s.writtenClientFrames == s0.writtenClientFrames
      invariant s.lastObservedTime == s0.lastObservedTime
      invariant proxy.View().expired == old(proxy.View()).expired
      invariant proxy.View().server.acceptedMessages == old(proxy.View()).server.acceptedMessages + messages
      invariant messages == 0 ==>
                  && s == s0 && read == read0
                  && proxy.View() == old(proxy.View()) && journal.View() == old(journal.View())
      invariant messages > 0 ==> environment.stdout(read0).Received? && environment.stdout(read0).value.Line?
      invariant messages == 1
                && Uneventful(s0, old(proxy.View()), old(journal.View()), environment.stdout(read0), environment) ==>
                  && read == read0 + 1
                  && Heard(s0, old(proxy.View()), environment.stdout(read0), environment, s, proxy.View())
                  && journal.View().lastSequence <= old(journal.View()).lastSequence + 1
    {
      var r;
      s, r := ConsumeReaderEvent(limits, proxy, journal, s, environment.stdout(read), environment, now, clockMax, t);
      read := read + 1;
      match r {
        case Failed(e) => failure := Some(e); return;
        case Enough => return;
        case More => messages := messages + 1;
      }
    }
  }

  // ---- Messages from the client --------------------------------------------------------------

  lemma {:induction false} KeptAdmits(limits: ProcessLimits, s: Fields, t: Trace, p0: Proxy, j0: J.Journal, f: Frame,
          p: Proxy, j: J.Journal)
    requires Kept(limits, s, t, p0, j0) && Live(s.lifecycle) && f.observation.direction.ClientToServer?
    requires ClientNext(s.initialization, f.observation).Some?
    requires Entered(p0, f, p) && Matched(p, j) && (Recordable(j) ==> Recordable(j0))
    ensures Kept(limits, s.(initialization := ClientNext(s.initialization, f.observation).value), Accepting(t, f), p, j)
    ensures SessionInv(limits, s, t, p, j, false)
  {
    KeptMeans(limits, s, t, p0, j0);
    ClientAdmissionKeepsInv(s.initialization, t, p0, j0, f, p, j);
    KeptMeans(limits, s.(initialization := ClientNext(s.initialization, f.observation).value), Accepting(t, f), p, j);
  }

  /** The rest of a client admission, once proxy and journal have spoken. */
  method SettleClientAdmission(limits: ProcessLimits, s0: Fields, f: Frame, admitted: Result<Observation, ProxyError>,
          refused: Option<J.ControlError>, next: Initialization, ghost t: Trace, ghost p0: Proxy, ghost j0: J.Journal,
          ghost p: Proxy, ghost j: J.Journal)
    returns (s: Fields, r: Result<Observation, SessionError>)
    requires Kept(limits, s0, t, p0, j0) && s0.lifecycle.Running? && f.observation.direction.ClientToServer?
    requires ClientNext(s0.initialization, f.observation) == Some(next)
    requires AdmitOutcome(p0, j0, f, admitted, refused, p, j)
    ensures Kept(limits, s, Counting(t, f.bytes, r), p, j)
    ensures r.Err? ==> CallError(r.error)
    ensures r.Ok? <==> admitted.Ok? && refused.None?
    ensures r.Ok? ==> r.value == f.observation && s == s0.(initialization := next)
    ensures r.Err? ==> if r.error.Control? then s == Terminated(s0, ObservationFailure)
                       else r.error.ProxyFailed? && s == s0 && p == p0
  {
    s := s0;
    if admitted.Err? {
      return s, Err(ProxyFailed(admitted.error));
    }
    KeptAdmits(limits, s, t, p0, j0, f, p, j);
    if refused.Some? {
      s := BeginTermination(limits, s, ObservationFailure, t, p, j);
      return s, Err(Control(refused.value));
    }
    return s.(initialization := next), Ok(admitted.value);
  }

  /** Admits and records a client candidate that passed the handshake and the policy. */
  method AdmitScreened(limits: ProcessLimits, proxy: TransparentProxy, journal: EventJournal, s0: Fields, c: Candidate,
          next: Initialization, ghost t: Trace)
    returns (s: Fields, r: Result<Observation, SessionError>)
    requires proxy.Valid() && journal.Valid() && Kept(limits, s0, t, proxy.View(), journal.View())
    requires s0.lifecycle.Running? && ValidFrame(c.frame) && c.frame.observation.direction.ClientToServer?
    requires ClientNext(s0.initialization, c.frame.observation) == Some(next)
    modifies proxy, proxy.toServer, proxy.toClient, journal
    ensures Kept(limits, s, Counting(t, c.frame.bytes, r), proxy.View(), journal.View())
    ensures r.Err? ==> CallError(r.error)
    ensures r.Err? ==> if r.error.Control? then s == Terminated(s0, ObservationFailure)
                       else r.error.ProxyFailed? && s == s0 && proxy.View() == old(proxy.View())
    ensures r.Ok? <==> Admit(old(proxy.View()), c).Ok? && Recordable(old(journal.View()))
    ensures r.Ok? ==>
              && r.value == c.frame.observation && s == s0.(initialization := next)
              && Admit(old(proxy.View()), c) == Ok(proxy.View())
              && journal.View().lastSequence == old(journal.View()).lastSequence + 1
    ensures proxy.Valid() && journal.Valid()
  {
    ghost var p, j := proxy.View(), journal.View();
    KeptMatched(limits, s0, t, p, j);
    var admitted, refused := AdmitRecorded(proxy, journal, c);
    s, r := SettleClientAdmission(limits, s0, c.frame, admitted, refused, next, t, p, j, proxy.View(), journal.View());
  }

  lemma {:induction false} RunningMoves(limits: ProcessLimits, s: Fields, t: Trace, p: Proxy, j: J.Journal)
    requires Kept(limits, s, t, p, j) && s.lifecycle.Running?
    ensures forall outcome :: Later(StatusOf(s, t), StatusOf(Terminated(s, outcome), t))
    ensures forall next :: Later(StatusOf(s, t), StatusOf(s.(initialization := next), t))
  {
    KeptStatus(limits, s, t, p, j);
  }

  /** A prepared client line: checked against the handshake and the policy, then admitted. */
  method AdmitPrepared(limits: ProcessLimits, proxy: TransparentProxy, journal: EventJournal, s0: Fields, c: Candidate,
          policy: Observation -> Option<nat>, ghost t: Trace)
    returns (s: Fields, r: Result<Observation, SessionError>)
    requires proxy.Valid() && journal.Valid() && Kept(limits, s0, t, proxy.View(), journal.View())
    requires s0.lifecycle.Running? && ValidFrame(c.frame) && c.frame.observation.direction.ClientToServer?
    modifies proxy, proxy.toServer, proxy.toClient, journal
    ensures proxy.Valid() && journal.Valid()
    ensures Kept(limits, s, Counting(t, c.frame.bytes, r), proxy.View(), journal.View())
    ensures Later(StatusOf(s0, t), StatusOf(s, t)) && (r.Err? ==> CallError(r.error))
    ensures r.Err? && !r.error.Control? ==> proxy.View() == old(proxy.View())
    ensures r.Err? && r.error.InitializationSequenceViolation? ==> s == Terminated(s0, ProtocolFailure)
    ensures r.Err? && r.error.ProxyFailed? ==> s == s0
    ensures r.Ok? <==> && ClientNext(s0.initialization, c.frame.observation).Some? && policy(c.frame.observation).None?
                       && Admit(old(proxy.View()), c).Ok? && Recordable(old(journal.View()))
    ensures r.Ok? ==>
              && Accepted(s0, old(proxy.View()), c, s, proxy.View()) && r.value == c.frame.observation
              && journal.View().lastSequence == old(journal.View()).lastSequence + 1
  {
    s := s0;
    var next := ClientNext(s.initialization, c.frame.observation);
    if next.None? {
      s := Abort(limits, s, ProtocolFailure, t, proxy.View(), journal.View());
      return s, Err(InitializationSequenceViolation);
    }
    var blocking := policy(c.frame.observation);
    if blocking.Some? {
      var error;
      s, error := DenyBlocked(limits, journal, s, c.frame.observation, blocking.value, t, proxy.View());
      return s, Err(error);
    }
    RunningMoves(limits, s0, t, proxy.View(), journal.View());
    s, r := AdmitScreened(limits, proxy, journal, s, c, next.value, t);
  }

  /** `send_client`. A line that is out of order or blocked is never admitted. */
  method AdmitClientLine(limits: ProcessLimits, proxy: TransparentProxy, journal: EventJournal, s0: Fields, line: Bytes,
          environment: Environment, ghost t: Trace)
    returns (s: Fields, r: Result<Observation, SessionError>)
    requires proxy.Valid() && journal.Valid() && Kept(limits, s0, t, proxy.View(), journal.View())
    modifies proxy, proxy.toServer, proxy.toClient, journal
    ensures Kept(limits, s, Counting(t, line, r), proxy.View(), journal.View())
    ensures Later(StatusOf(s0, t), StatusOf(s, t)) && (r.Err? ==> CallError(r.error))
    ensures !s0.lifecycle.Running? ==> r == Err(NotRunning) && s == s0
    ensures r.Err? && !r.error.Control? ==> proxy.View() == old(proxy.View())
    ensures r.Err? && r.error.InitializationSequenceViolation? ==> s == Terminated(s0, ProtocolFailure)
    ensures r.Err? && r.error.ProxyFailed? ==> s == s0
    ensures r.Ok? <==> Accepts(s0, old(proxy.View()), old(journal.View()), line, environment)
    ensures r.Ok? ==>
              && Frame(r.value, line) == Offered(old(proxy.View()), ClientToServer, line, environment.decode).frame
              && Accepted(s0, old(proxy.View()), Candidate(old(proxy.View()).limits, Frame(r.value, line)), s,
                          proxy.View())
              && journal.View().lastSequence == old(journal.View()).lastSequence + 1
    ensures proxy.Valid() && journal.Valid()
  {
    if !s0.lifecycle.Running? {
      return s0, Err(NotRunning);
    }
    var candidate := proxy.Prepare(ClientToServer, line, environment.decode);
    if candidate.Err? {
      return s0, Err(ProxyFailed(candidate.error));
    }
    s, r := AdmitPrepared(limits, proxy, journal, s0, candidate.value, environment.policy, t);
  }

  // ---- Frames toward the client --------------------------------------------------------------

  lemma {:induction false} KeptDelivers(limits: ProcessLimits, s: Fields, t: Trace, p0: Proxy, j0: J.Journal, now: nat,
          f: Frame, p: Proxy, j: J.Journal)
    requires Kept(limits, s, t, p0, j0) && Left(p0, ServerToClient, f, p) && Matched(p, j)
    requires (Recordable(j) ==> Recordable(j0)) && p.lastTime == Some(now)
    requires s.lastObservedTime <= now && !ClockMovedBack(p0, now)
    ensures Recordable(j0) ==> DeliveryNext(s.initialization, f).Some?
    ensures Recordable(j0) ==>
              Kept(limits, s.(initialization := DeliveryNext(s.initialization, f).value, lastObservedTime := now),
                   t.(delivered := t.delivered + [f]), p, j)
    ensures !Recordable(j) ==> SessionInv(limits, s, Unrecording(t, now), p, j, false)
  {
    KeptMeans(limits, s, t, p0, j0);
    DeliveryKeepsInv(s.initialization, t, p0, j0, Live(s.lifecycle), f, p, j);
    if Recordable(j0) {
      KeptMeans(limits, s.(initialization := DeliveryNext(s.initialization, f).value, lastObservedTime := now),
                t.(delivered := t.delivered + [f]), p, j);
    }
  }

  lemma {:induction false} KeptIdles(limits: ProcessLimits, s: Fields, t: Trace, p: Proxy, j: J.Journal, now: nat)
    requires Kept(limits, s, t, p, j) && s.lastObservedTime <= now
    ensures Kept(limits, At(s, now), t, p, j)
  {
    KeptMeans(limits, s, t, p, j);
    KeptMeans(limits, At(s, now), t, p, j);
  }

  /** Nothing to deliver: both clocks move on together. */
  lemma {:induction false} KeptFindsNothing(limits: ProcessLimits, s: Fields, t: Trace, p0: Proxy, j: J.Journal,
          now: nat, p: Proxy)
    requires Kept(limits, s, t, p0, j) && Still(p0, p) && Matched(p, j)
    requires s.lastObservedTime <= now && !ClockMovedBack(p0, now) && p.lastTime == Some(now)
    ensures Kept(limits, At(s, now), t, p, j)
  {
    KeptIdles(limits, s, t, p0, j, now);
    KeptMeans(limits, s, t, p0, j);
    KeptMeans(limits, At(s, now), t, p0, j);
    SessionStill(limits, At(s, now), t, p0, j, Live(s.lifecycle), p, j);
    KeptMeans(limits, At(s, now), t, p, j);
  }

  /** The rest of a delivery. The frame is never one the handshake does not expect. */
  method SettleDelivery(limits: ProcessLimits, s0: Fields, released: Result<Option<Frame>, ProxyError>,
          refused: Option<J.ControlError>, now: nat, ghost t0: Trace, ghost p0: Proxy, ghost j0: J.Journal,
          ghost p: Proxy, ghost j: J.Journal)
    returns (s: Fields, ghost t: Trace, r: Result<Option<Frame>, SessionError>)
    requires Kept(limits, s0, t0, p0, j0) && !s0.lifecycle.Exited? && s0.lastObservedTime <= now
    requires ReleaseOutcome(p0, j0, ServerToClient, now, released, refused, p, j)
    ensures Kept(limits, s, t, p, j) && !s.lifecycle.Exited? && Later(StatusOf(s0, t0), StatusOf(s, t))
    ensures r.Err? ==> !Contradiction(r.error) && !r.error.UnexpectedServerMessage?
    ensures r.Err? ==> t == if r.error.Control? then Unrecording(t0, now) else t0
    ensures r.Err? && ProxyClock(r.error) <==> ClockMovedBack(p0, now)
    ensures r.Ok? <==> released.Ok? && refused.None?
    ensures r.Ok? ==> released == Ok(r.value) && Delivered(s0, t0, now, r.value, s, t)
  {
    s, t := s0, t0;
    if released.Err? {
      return s, t, Err(ProxyFailed(released.error));
    }
    if released.value.None? {
      KeptFindsNothing(limits, s, t, p0, j0, now, p);
      assert t.delivered + [] == t.delivered;
      return At(s, now), t, Ok(None);
    }
    var f := released.value.value;
    KeptDelivers(limits, s, t, p0, j0, now, f, p, j);
    if refused.Some? {
      t := Unrecording(t, now);
      s := BeginTermination(limits, s, ObservationFailure, t, p, j);
      return s, t, Err(Control(refused.value));
    }
    var next := DeliveryNext(s.initialization, f);
    if next.None? {
      return s, t, Err(UnexpectedServerMessage);
    }
    s, t := s.(initialization := next.value, lastObservedTime := now), t.(delivered := t.delivered + [f]);
    return s, t, Ok(Some(f));
  }

  /** `next_for_client`. */
  method Deliver(limits: ProcessLimits, proxy: TransparentProxy, journal: EventJournal, s0: Fields, now: nat,
          ghost t0: Trace)
    returns (s: Fields, ghost t: Trace, r: Result<Option<Frame>, SessionError>)
    requires proxy.Valid() && journal.Valid() && Kept(limits, s0, t0, proxy.View(), journal.View())
    modifies proxy, proxy.toServer, proxy.toClient, journal
    ensures Kept(limits, s, t, proxy.View(), journal.View())
    ensures Later(StatusOf(s0, t0), StatusOf(s, t))
    ensures r.Err? ==> !Contradiction(r.error) && !r.error.UnexpectedServerMessage?
    ensures r.Err? ==> t == if r.error.Control? then Unrecording(t0, now) else t0
    ensures r.Err? && ProxyClock(r.error) <==> Timely(s0, now) && Overtaken(t0, now)
    ensures r.Ok? ==> s0.lastObservedTime <= now && Delivered(s0, t0, now, r.value, s, t)
    ensures s0.lifecycle.Exited? && s0.lastObservedTime <= now ==> r == Ok(None)
    ensures !s0.lifecycle.Exited? && s0.lastObservedTime <= now && Recordable(old(journal.View())) ==>
              && Releasable(old(proxy.View()), ServerToClient)
              && var spec := Release(old(proxy.View()), ServerToClient, now);
                 && (r.Ok? <==> spec.Ok?) && (r.Ok? ==> spec.value == Released(proxy.View(), r.value))
    ensures r.Ok? ==> journal.View().lastSequence <= old(journal.View()).lastSequence + 1
    ensures proxy.Valid() && journal.Valid()
  {
    if now < s0.lastObservedTime {
      return s0, t0, Err(ClockBackwards);
    }
    ghost var p, j := proxy.View(), journal.View();
    if s0.lifecycle.Exited? {
      KeptIdles(limits, s0, t0, p, j, now);
      assert t0.delivered + [] == t0.delivered;
      return At(s0, now), t0, Ok(None);
    }
    KeptClock(limits, s0, t0, p, j);
    KeptMatched(limits, s0, t0, p, j);
    var released, refused := ReleaseRecorded(proxy, journal, ServerToClient, now);
    s, t, r := SettleDelivery(limits, s0, released, refused, now, t0, p, j, proxy.View(), journal.View());
  }

  // ---- Shutdown ------------------------------------------------------------------------------

  lemma {:induction false} GraceKeepsInv(limits: ProcessLimits, s: Fields, t: Trace, p: Proxy, j: J.Journal,
          deadline: nat)
    requires Kept(limits, s, t, p, j) && s.lifecycle.Running?
    ensures Kept(limits, s.(lifecycle := GracefulShutdown(deadline)), t.(graceful := true), p, j)
    ensures Later(StatusOf(s, t), StatusOf(s.(lifecycle := GracefulShutdown(deadline)), t.(graceful := true)))
  {
    KeptMeans(limits, s, t, p, j);
    KeptMeans(limits, s.(lifecycle := GracefulShutdown(deadline)), t.(graceful := true), p, j);
  }

  /** The graceful half of `shutdown`: only a running session is affected. */
  method BeginGrace(limits: ProcessLimits, s0: Fields, now: nat, clockMax: nat, ghost t0: Trace, ghost p: Proxy,
          ghost j: J.Journal)
    returns (s: Fields, ghost t: Trace, failure: Option<SessionError>)
    requires Kept(limits, s0, t0, p, j)
    ensures Kept(limits, s, t, p, j) && Later(StatusOf(s0, t0), StatusOf(s, t))
    ensures failure == if s0.lifecycle.Running? && now + limits.shutdownTimeout > clockMax then Some(DeadlineTooFar)
                       else None
    ensures failure.None? ==>
              s == if s0.lifecycle.Running? then s0.(lifecycle := GracefulShutdown(now + limits.shutdownTimeout))
                   else s0
    ensures t == t0.(graceful := t.graceful)
  {
    s, t, failure := s0, t0, None;
    if s.lifecycle.Running? {
      if now + limits.shutdownTimeout > clockMax {
        return s, t, Some(DeadlineTooFar);
      }
      GraceKeepsInv(limits, s, t, p, j, now + limits.shutdownTimeout);
      s, t := s.(lifecycle := GracefulShutdown(now + limits.shutdownTimeout)), t.(graceful := true);
    }
  }

  /** `shutdown`: graceful stops accepting input until a deadline, immediate terminates. */
  method RequestShutdown(limits: ProcessLimits, s0: Fields, mode: ShutdownMode, now: nat, clockMax: nat,
          ghost t0: Trace, ghost p: Proxy, ghost j: J.Journal)
    returns (s: Fields, ghost t: Trace, failure: Option<SessionError>)
    requires Kept(limits, s0, t0, p, j)
    ensures Kept(limits, s, t, p, j) && Later(StatusOf(s0, t0), StatusOf(s, t))
    ensures failure.Some? ==> CallError(failure.value) && s == s0 && t == t0
    ensures failure.Some? <==>
              || now < s0.lastObservedTime
              || (mode.Graceful? && s0.lifecycle.Running? && now + limits.shutdownTimeout > clockMax)
    ensures failure.None? && mode.Graceful? ==>
              s.lifecycle ==
              if s0.lifecycle.Running? then GracefulShutdown(now + limits.shutdownTimeout) else s0.lifecycle
    ensures failure.None? && mode.Immediate? && !s0.lifecycle.Exited? ==>
              s == Terminated(s0, ForcedShutdown).(lastObservedTime := now)
    ensures failure.None? ==> s.lastObservedTime == now && t == t0.(graceful := t.graceful)
  {
    s, t, failure := s0, t0, None;
    if now < s.lastObservedTime {
      return s, t, Some(ClockBackwards);
    }
    if mode.Graceful? {
      s, t, failure := BeginGrace(limits, s, now, clockMax, t, p, j);
      if failure.Some? {
        return s0, t0, failure;
      }
    } else if !s.lifecycle.Exited? {
      s := Abort(limits, s, ForcedShutdown, t, p, j);
    }
    KeptIdles(limits, s, t, p, j, now);
    assert StatusOf(At(s, now), t) == StatusOf(s, t);
    s := At(s, now);
  }

  // ---- Expiry and exit -----------------------------------------------------------------------

  method SettleExpiry(limits: ProcessLimits, s0: Fields, expired: Result<seq<Expired>, ProxyError>,
          refused: Option<J.ControlError>, ghost t: Trace, ghost p0: Proxy, ghost j0: J.Journal, ghost p: Proxy,
          ghost j: J.Journal)
    returns (s: Fields, failure: Option<SessionError>)
    requires Kept(limits, s0, t, p0, j0) && !s0.lifecycle.Exited?
    requires Still(p0, p) && Matched(p, j) && (Recordable(j) ==> Recordable(j0))
    requires p.lastTime == p0.lastTime || (Live(s0.lifecycle) && p.lastTime == Some(s0.lastObservedTime))
    requires expired.Err? ==> !expired.error.InconsistentCorrelationState? && !expired.error.NonMonotonicClock?
    requires refused.Some? ==> expired.Ok? && refused.value.EventSequenceOverflow?
    ensures Kept(limits, s, t, p, j) && !s.lifecycle.Exited? && Later(StatusOf(s0, t), StatusOf(s, t))
    ensures failure.Some? <==> expired.Err? || refused.Some?
    ensures failure.Some? ==> PollError(failure.value) && (failure.value.ProxyFailed? || failure.value.Control?)
    ensures failure.None? ==> s == if expired.value == [] then s0 else Terminated(s0, RequestTimeout)
    ensures s.writtenClientFrames == s0.writtenClientFrames && s.lastObservedTime == s0.lastObservedTime
  {
    KeptStill(limits, s0, t, p0, j0, p, j);
    s, failure := s0, None;
    if expired.Err? {
      return s, Some(ProxyFailed(expired.error));
    }
    if refused.Some? {
      s := Abort(limits, s, ObservationFailure, t, p, j);
      return s, Some(Control(refused.value));
    }
    if expired.value != [] {
      s := Abort(limits, s, RequestTimeout, t, p, j);
    }
  }

  /** Expiry within a poll: only before the process has exited and while the session is live. */
  method ExpireOverdue(limits: ProcessLimits, proxy: TransparentProxy, journal: EventJournal, s0: Fields, now: nat,
          ghost t: Trace)
    returns (s: Fields, expired: nat, failure: Option<SessionError>)
    requires proxy.Valid() && journal.Valid() && Kept(limits, s0, t, proxy.View(), journal.View())
    requires !s0.lifecycle.Exited?
    requires now == s0.lastObservedTime
    modifies proxy, journal
    ensures Kept(limits, s, t, proxy.View(), journal.View())
    ensures !s.lifecycle.Exited? && Later(StatusOf(s0, t), StatusOf(s, t))
    ensures failure.Some? ==> PollError(failure.value) && (failure.value.ProxyFailed? || failure.value.Control?)
    ensures failure.None? && expired > 0 ==> s == Terminated(s0, RequestTimeout)
    ensures failure.None? && expired == 0 ==> s == s0
    ensures s.writtenClientFrames == s0.writtenClientFrames && s.lastObservedTime == s0.lastObservedTime
    ensures proxy.View().server.acceptedMessages == old(proxy.View()).server.acceptedMessages
    ensures failure.None? ==> proxy.View().expired == old(proxy.View()).expired + expired
    ensures s0.lifecycle.Terminating? ==> failure.None?
    ensures NothingDue(old(proxy.View()), now) && s0.processExit.None? && Live(s0.lifecycle) ==>
              && failure.None? && expired == 0 && journal.View() == old(journal.View())
              && proxy.View() == AfterExpiry(old(proxy.View()), now)
    ensures proxy.Valid() && journal.Valid()
  {
    if s0.processExit.Some? || s0.lifecycle.Terminating? {
      return s0, 0, None;
    }
    ghost var p, j := proxy.View(), journal.View();
    KeptMatched(limits, s0, t, p, j);
    KeptClock(limits, s0, t, p, j);
    var due, refused := ExpireRecorded(proxy, journal, now);
    s, failure := SettleExpiry(limits, s0, due, refused, t, p, j, proxy.View(), journal.View());
    expired := if due.Ok? then |due.value| else 0;
  }

  lemma {:induction false} KeptFinish(limits: ProcessLimits, s: Fields, t: Trace, p: Proxy, j: J.Journal,
          report: ExitReport)
    requires Kept(limits, s, t, p, j) && !s.lifecycle.Exited? && Explained(report, StatusOf(s, t))
    requires report.initialized == s.initialization.Ready?
    ensures Kept(limits, Finished(s, report), t, AfterClose(p), J.ClearCorrelations(j))
    ensures Later(StatusOf(s, t), StatusOf(Finished(s, report), t))
  {
    KeptMeans(limits, s, t, p, j);
    FinishKeepsInv(limits, s, t, p, j, Live(s.lifecycle), report);
    KeptMeans(limits, Finished(s, report), t, AfterClose(p), J.ClearCorrelations(j));
  }

  /** `finish_process_exit`: once the process is gone and its streams are drained, or the drain deadline
      has passed, everything is closed and reported. */
  method FinishProcessExit(limits: ProcessLimits, proxy: TransparentProxy, journal: EventJournal, s0: Fields, now: nat,
          ghost t: Trace)
    returns (s: Fields)
    requires proxy.Valid() && journal.Valid() && Kept(limits, s0, t, proxy.View(), journal.View())
    requires !s0.lifecycle.Exited?
    modifies proxy, proxy.toServer, proxy.toClient, journal
    ensures Kept(limits, s, t, proxy.View(), journal.View())
    ensures Later(StatusOf(s0, t), StatusOf(s, t))
    ensures s.lifecycle.Exited? <==>
              && s0.processExit.Some?
              && ((s0.stdoutFinished && s0.stderrFinished)
                  || (s0.processExitDeadline.Some? && s0.processExitDeadline.value <= now))
    ensures !s.lifecycle.Exited? ==> s == s0
    ensures s.lifecycle.Exited? ==> !proxy.open && s.exitReport.Some?
    ensures s.lifecycle.Exited? ==>
              && s.exitReport.value.close == Abandoned(old(proxy.View()))
              && s.exitReport.value.abandonedWriterFrames == s0.writerOutstanding
              && s.exitReport.value.initialized == s0.initialization.Ready?
    ensures s.writtenClientFrames == s0.writtenClientFrames && s.lastObservedTime == s0.lastObservedTime
    ensures SameCounts(old(proxy.View()), proxy.View())
    ensures !s.lifecycle.Exited? ==> proxy.View() == old(proxy.View()) && journal.View() == old(journal.View())
    ensures proxy.Valid() && journal.Valid()
  {
    s := s0;
    if s.processExit.None? {
      return;
    }
    var expired := s.processExitDeadline.Some? && now >= s.processExitDeadline.value;
    if !(s.stdoutFinished && s.stderrFinished) && !expired {
      return;
    }
    ghost var p, j := proxy.View(), journal.View();
    KeptStatus(limits, s0, t, p, j);
    var close := proxy.Close();
    journal.ClearCorrelations();
    var report := Conclude(s, s.processExit.value, close, t);
    KeptFinish(limits, s0, t, p, j, report);
    s := Finished(s, report);
  }

  // ---- Polling -------------------------------------------------------------------------------

  /** What the stdout reader has to say, and whether stdout has been closed for too long. */
  method ObserveStdout(limits: ProcessLimits, proxy: TransparentProxy, journal: EventJournal, s0: Fields,
          environment: Environment, read0: nat, now: nat, clockMax: nat, ghost t: Trace)
    returns (s: Fields, read: nat, messages: nat, failure: Option<SessionError>)
    requires proxy.Valid() && journal.Valid() && Kept(limits, s0, t, proxy.View(), journal.View())
    requires !s0.lifecycle.Exited?
    modifies proxy, proxy.toServer, proxy.toClient, journal
    ensures Kept(limits, s, t, proxy.View(), journal.View())
    ensures !s.lifecycle.Exited? && Later(StatusOf(s0, t), StatusOf(s, t))
    ensures failure.Some? ==> PollError(failure.value)
    ensures s.writtenClientFrames == s0.writtenClientFrames && s.lastObservedTime == s0.lastObservedTime
    ensures proxy.View().expired == old(proxy.View()).expired
    ensures failure.None? ==>
              proxy.View().server.acceptedMessages == old(proxy.View()).server.acceptedMessages + messages
    ensures s0.stdoutWithoutExitDeadline.None? || s0.processExit.Some? ==>
              CalmReader(limits, environment, now, clockMax, s0, read0, old(proxy.View()), old(journal.View()), s, read,
                         proxy.View(), journal.View(), failure)
    ensures proxy.Valid() && journal.Valid()
  {
    s, read, messages, failure := ConsumeReaderEvents(limits, proxy, journal, s0, environment, read0, now, clockMax, t);
    if failure.Some? {
      return;
    }
    HeardKeeps(s0, old(proxy.View()), environment.stdout(read0), environment, s, proxy.View());
    s, failure := AdvanceStreamClosure(limits, s, now, t, proxy.View(), journal.View());
  }

  /** The first half of a poll: everything the workers have to say. */
  method Observe(limits: ProcessLimits, proxy: TransparentProxy, journal: EventJournal, s0: Fields,
          environment: Environment, c0: Cursor, now: nat, clockMax: nat, ghost t: Trace)
    returns (s: Fields, c: Cursor, written: nat, messages: nat, failure: Option<SessionError>)
    requires proxy.Valid() && journal.Valid() && Kept(limits, s0, t, proxy.View(), journal.View())
    requires !s0.lifecycle.Exited?
    modifies proxy, proxy.toServer, proxy.toClient, journal
    ensures Kept(limits, s, t, proxy.View(), journal.View())
    ensures !s.lifecycle.Exited? && Later(StatusOf(s0, t), StatusOf(s, t))
    ensures failure.Some? ==> PollError(failure.value)
    ensures s.writtenClientFrames == s0.writtenClientFrames + written && s.lastObservedTime == s0.lastObservedTime
    ensures proxy.View().expired == old(proxy.View()).expired
    ensures failure.None? ==>
              proxy.View().server.acceptedMessages == old(proxy.View()).server.acceptedMessages + messages
    ensures CalmHearing(limits, environment, now, clockMax, s0, c0, old(proxy.View()), old(journal.View()), s, c,
                        proxy.View(), journal.View(), failure)
    ensures proxy.Valid() && journal.Valid()
  {
    messages := 0;
    s, c, written, failure := ObserveWorkers(limits, s0, environment, c0, now, clockMax, t, proxy.View(),
                                             journal.View());
    if failure.Some? {
      return;
    }
    var read;
    ghost var before := StatusOf(s, t);
    s, read, messages, failure := ObserveStdout(limits, proxy, journal, s, environment, c.stdout, now, clockMax, t);
    LaterChains(StatusOf(s0, t), before, StatusOf(s, t));
    c := c.(stdout := read);
  }

  /** The end of a poll: shutdown, deadlines and exit. */
  method WindUp(limits: ProcessLimits, proxy: TransparentProxy, journal: EventJournal, s0: Fields, steps: seq<W.Tick>,
          deadlines: (nat, nat), now: nat, ghost t: Trace)
    returns (s: Fields, failure: Option<SessionError>)
    requires proxy.Valid() && journal.Valid() && Kept(limits, s0, t, proxy.View(), journal.View())
    requires !s0.lifecycle.Exited?
    modifies proxy, proxy.toServer, proxy.toClient, journal
    ensures Kept(limits, s, t, proxy.View(), journal.View())
    ensures Later(StatusOf(s0, t), StatusOf(s, t)) && failure.None?
    ensures s.writtenClientFrames == s0.writtenClientFrames && s.lastObservedTime == s0.lastObservedTime
    ensures SameCounts(old(proxy.View()), proxy.View())
    ensures s0.lifecycle.Running? && s0.processExit.None? && now < deadlines.0 && now < deadlines.1 ==>
              s == s0 && proxy.View() == old(proxy.View()) && journal.View() == old(journal.View())
    ensures s0.processExit.Some? && s0.stdoutFinished && s0.stderrFinished ==> s.lifecycle.Exited?
    ensures proxy.Valid() && journal.Valid()
  {
    s, failure := AdvanceShutdown(limits, s0, steps, |proxy.toServer.frames|, now, t, proxy.View(), journal.View());
    if failure.Some? {
      return;
    }
    s := AdvanceDeadlines(limits, s, deadlines.0, deadlines.1, now, t, proxy.View(), journal.View());
    s := FinishProcessExit(limits, proxy, journal, s, now, t);
  }

  /** Dispatch, then shutdown, deadlines and exit. */
  method MoveOn(limits: ProcessLimits, proxy: TransparentProxy, journal: EventJournal, s0: Fields,
          environment: Environment, c0: Cursor, deadlines: (nat, nat), now: nat, ghost t0: Trace)
    returns (s: Fields, ghost t: Trace, c: Cursor, dispatched: nat, failure: Option<SessionError>)
    requires proxy.Valid() && journal.Valid() && Kept(limits, s0, t0, proxy.View(), journal.View())
    requires !s0.lifecycle.Exited? && now == s0.lastObservedTime
    modifies proxy, proxy.toServer, proxy.toClient, journal
    ensures Kept(limits, s, t, proxy.View(), journal.View())
    ensures Later(StatusOf(s0, t0), StatusOf(s, t))
    ensures failure.Some? ==> PollError(failure.value)
    ensures t0.handed <= t.handed && |t.handed| == |t0.handed| + dispatched
    ensures t.accepted == t0.accepted && t.delivered == t0.delivered && t.unrecorded == t0.unrecorded
    ensures s.writtenClientFrames == s0.writtenClientFrames && s.lastObservedTime == s0.lastObservedTime
    ensures SameCounts(old(proxy.View()), proxy.View())
    ensures CalmMoving(limits, environment, deadlines, now, s0, t0, c0, old(proxy.View()), old(journal.View()), s, t, c,
                       proxy.View(), journal.View(), ReadingOf(dispatched, failure))
    ensures proxy.Valid() && journal.Valid()
  {
    c := c0;
    var tick;
    s, t, tick, dispatched, failure := DispatchFrames(limits, proxy, journal, s0, environment.schedule, c.ticks, now,
                                                      t0);
    c := c.(ticks := tick + 1);
    if failure.Some? {
      return;
    }
    s, failure := WindUp(limits, proxy, journal, s, environment.schedule(tick), deadlines, now, t);
  }

  /** The second half of a poll: expiry, dispatch, shutdown, deadlines and exit. */
  method Advance(limits: ProcessLimits, proxy: TransparentProxy, journal: EventJournal, s0: Fields,
          environment: Environment, c0: Cursor, deadlines: (nat, nat), now: nat, ghost t0: Trace)
    returns (s: Fields, ghost t: Trace, c: Cursor, expired: nat, dispatched: nat, failure: Option<SessionError>)
    requires proxy.Valid() && journal.Valid() && Kept(limits, s0, t0, proxy.View(), journal.View())
    requires !s0.lifecycle.Exited?
    requires now == s0.lastObservedTime
    modifies proxy, proxy.toServer, proxy.toClient, journal
    ensures Kept(limits, s, t, proxy.View(), journal.View())
    ensures Later(StatusOf(s0, t0), StatusOf(s, t))
    ensures failure.Some? ==> PollError(failure.value)
    ensures t0.handed <= t.handed && |t.handed| == |t0.handed| + dispatched
    ensures t.accepted == t0.accepted && t.delivered == t0.delivered && t.unrecorded == t0.unrecorded
    ensures s.writtenClientFrames == s0.writtenClientFrames && s.lastObservedTime == s0.lastObservedTime
    ensures proxy.View().server.acceptedMessages == old(proxy.View()).server.acceptedMessages
    ensures failure.None? ==> proxy.View().expired == old(proxy.View()).expired + expired
    ensures CalmAdvance(limits, environment, deadlines, now, s0, t0, c0, old(proxy.View()), old(journal.View()), s, t,
                        c, proxy.View(), journal.View(), ReadingOf(dispatched, failure))
    ensures proxy.Valid() && journal.Valid()
  {
    s, t, c, expired, dispatched, failure := s0, t0, c0, 0, 0, None;
    s, expired, failure := ExpireOverdue(limits, proxy, journal, s, now, t);
    if failure.Some? {
      return;
    }
    s, t, c, dispatched, failure := MoveOn(limits, proxy, journal, s, environment, c, deadlines, now, t);
  }

  /** `poll` before the session has exited: the workers are heard, then time and traffic move on. */
  method PollLive(limits: ProcessLimits, proxy: TransparentProxy, journal: EventJournal, s0: Fields,
          environment: Environment, c0: Cursor, deadlines: (nat, nat), now: nat, clockMax: nat, ghost t0: Trace)
    returns (s: Fields, ghost t: Trace, c: Cursor, r: Result<Progress, SessionError>)
    requires proxy.Valid() && journal.Valid() && Kept(limits, s0, t0, proxy.View(), journal.View())
    requires !s0.lifecycle.Exited?
    requires now == s0.lastObservedTime
    modifies proxy, proxy.toServer, proxy.toClient, journal
    ensures Kept(limits, s, t, proxy.View(), journal.View())
    ensures Later(StatusOf(s0, t0), StatusOf(s, t)) && (r.Err? ==> PollError(r.error))
    ensures t0.handed <= t.handed && t.accepted == t0.accepted && t.delivered == t0.delivered
    ensures t.unrecorded == t0.unrecorded
    ensures r.Ok? ==> Progressed(s0, t0, old(proxy.View()), r.value, s, t, proxy.View())
    ensures CalmPoll(limits, environment, deadlines, now, clockMax, s0, t0, c0, old(proxy.View()), old(journal.View()),
                     s, t, c, proxy.View(), journal.View(), PollReading(r))
    ensures proxy.Valid() && journal.Valid()
  {
    var written, messages, expired, dispatched, failure;
    s, c, written, messages, failure := Observe(limits, proxy, journal, s0, environment, c0, now, clockMax, t0);
    t := t0;
    ghost var m := Midway(s, proxy.View(), journal.View(), c);
    if failure.Some? {
      return s, t, c, Err(failure.value);
    }
    s, t, c, expired, dispatched, failure := Advance(limits, proxy, journal, s, environment, c, deadlines, now, t0);
    if failure.Some? {
      CalmHalves(limits, environment, deadlines, now, clockMax, s0, t0, c0, old(proxy.View()), old(journal.View()), m,
                 s, t, c, proxy.View(), journal.View(), Failed(failure.value));
      return s, t, c, Err(failure.value);
    }
    r := Ok(Progress(dispatched, messages, written, expired));
    assert Progressed(s0, t0, old(proxy.View()), r.value, s, t, proxy.View());
    CalmHalves(limits, environment, deadlines, now, clockMax, s0, t0, c0, old(proxy.View()), old(journal.View()), m,
               s, t, c, proxy.View(), journal.View(), PollReading(r));
  }

  /** `poll`. */
  method PollOnce(limits: ProcessLimits, proxy: TransparentProxy, journal: EventJournal, s0: Fields,
          environment: Environment, c0: Cursor, deadlines: (nat, nat), now: nat, clockMax: nat, ghost t0: Trace)
    returns (s: Fields, ghost t: Trace, c: Cursor, r: Result<Progress, SessionError>)
    requires proxy.Valid() && journal.Valid() && Kept(limits, s0, t0, proxy.View(), journal.View())
    modifies proxy, proxy.toServer, proxy.toClient, journal
    ensures Kept(limits, s, t, proxy.View(), journal.View())
    ensures Later(StatusOf(s0, t0), StatusOf(s, t)) && (r.Err? ==> PollError(r.error))
    ensures now < s0.lastObservedTime ==> r == Err(ClockBackwards) && s == s0 && t == t0
    ensures t0.handed <= t.handed && t.accepted == t0.accepted && t.delivered == t0.delivered
    ensures t.unrecorded == t0.unrecorded
    ensures r.Ok? ==> Progressed(s0, t0, old(proxy.View()), r.value, s, t, proxy.View())
    ensures Timely(s0, now) ==>
              CalmPoll(limits, environment, deadlines, now, clockMax, At(s0, now), t0, c0, old(proxy.View()),
                       old(journal.View()), s, t, c, proxy.View(), journal.View(), PollReading(r))
    ensures proxy.Valid() && journal.Valid()
  {
    if now < s0.lastObservedTime {
      return s0, t0, c0, Err(ClockBackwards);
    }
    KeptIdles(limits, s0, t0, proxy.View(), journal.View(), now);
    s := At(s0, now);
    if s.lifecycle.Exited? {
      return s, t0, c0, Ok(Progress(0, 0, 0, 0));
    }
    s, t, c, r := PollLive(limits, proxy, journal, s, environment, c0, deadlines, now, clockMax, t0);
  }

  /** What the invariant says about the outside world, at any moment of any run. */
  lemma {:induction false} Guarantees(limits: ProcessLimits, s: Fields, t: Trace, p: Proxy, j: J.Journal)
    requires Kept(limits, s, t, p, j)
    ensures Script(t.handed, 0)
    ensures |t.handed| >= 2 ==> Answered(t.delivered, t.handed[0])
    ensures s.dispatchedClientFrames == |t.handed| == s.writtenClientFrames + s.writerOutstanding
    ensures s.writerOutstanding == |W.FramesOf(s.link.commands)| + |W.InHand(s.link.worker)| + |W.Reports(s.link)|
    ensures s.writerOutstanding <= limits.ioQueueMessages
    ensures W.Render(t.handed[..s.writtenClientFrames]) <= s.link.stdin <= W.Render(t.handed) <= W.Render(t.accepted)
    ensures Matched(p, j) && StatusInv(StatusOf(s, t)) && p.open == !s.lifecycle.Exited?
  {
    KeptMeans(limits, s, t, p, j);
    HandedFollowsScript(s.initialization, t, p, j, Live(s.lifecycle));
    LinkGuarantees(s.link, t.handed, s.writtenClientFrames, ClosingStdin(s), limits.ioQueueMessages);
  }

  /** What `initialized` in the exit report means: the second frame was released and recorded. Whether the worker
      was given that frame is decided by the link it was sent on. */
  lemma {:induction false} ReportedInitialization(limits: ProcessLimits, s: Fields, t: Trace, p: Proxy, j: J.Journal)
    requires Kept(limits, s, t, p, j)
    ensures s.exitReport.Some? ==> (s.exitReport.value.initialized <==> |t.sends| >= 2)
    ensures !s.lifecycle.Exited? ==> (s.initialization.Ready? <==> |t.sends| >= 2)
    ensures |t.handed| >= 2 <==> |t.sends| >= 2 && W.Listening(t.sends[1])
  {
    KeptMeans(limits, s, t, p, j);
    AttemptsDecide(t.released, t.sends, t.handed, Live(s.lifecycle), 1);
  }

  lemma {:induction false} AttemptsDecide(released: seq<Frame>, sends: seq<W.Link>, handed: seq<Frame>, live: bool,
          i: nat)
    requires Attempts(live, released, sends, handed)
    ensures i < |handed| <==> i < |sends| && W.Listening(sends[i])
  {
  }

  lemma {:induction false} HandedFollowsScript(initialization: Initialization, t: Trace, p: Proxy, j: J.Journal,
          live: bool)
    requires FramesInv(initialization, t, p, j, live)
    ensures Script(t.handed, 0) && (|t.handed| >= 2 ==> Answered(t.delivered, t.handed[0]))
    ensures W.Render(t.handed) <= W.Render(t.accepted)
  {
    ScriptPrefix(t.released, t.handed, 0);
    assert t.handed == t.accepted[..|t.handed|];
    W.RenderPrefix(t.accepted, |t.handed|);
  }

  lemma {:induction false} LinkGuarantees(link: W.Link, handed: seq<Frame>, acked: nat, closing: bool, capacity: nat)
    requires W.Steady(link, handed, acked, closing, capacity, link.senderOpen)
    ensures |handed| - acked == |W.FramesOf(link.commands)| + |W.InHand(link.worker)| + |W.Reports(link)| <= capacity
    ensures acked <= |handed| && W.Render(handed[..acked]) <= link.stdin <= W.Render(handed)
  {
    W.SoundMeansSteady(link, handed, acked, closing, capacity, link.senderOpen);
    W.OutstandingIsExact(link, handed, acked);
    W.StdinIsPrefix(link, handed, acked);
  }
}
