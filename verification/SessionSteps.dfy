/** Every step a session takes keeps its invariant. */
module SessionSteps {
  import opened Basics
  import opened Messages
  import opened ProxyModel
  import opened Handshake
  import opened SessionModel
  import opened Recording
  import W = WriterLink
  import J = JournalModel
  import Coupling

  lemma {:induction false} RecordingEnds(state: Initialization, live: bool, before: bool, after: bool,
          released: seq<Frame>, toServer: seq<Frame>, toClient: seq<Frame>, delivered: seq<Frame>)
    requires HandshakeInv(state, live, before, released, toServer, toClient, delivered) && (after ==> before)
    ensures HandshakeInv(state, live, after, released, toServer, toClient, delivered)
  {
  }

  /** A live session may always stop being one. */
  lemma {:induction false} LiveOrNot(initialization: Initialization, t: Trace, p: Proxy, j: J.Journal, live: bool)
    requires FramesInv(initialization, t, p, j, live)
    ensures FramesInv(initialization, t, p, j, false)
  {
    HandshakeWeakens(initialization, live, Recordable(j), t.released, p.client.queue.frames, p.server.queue.frames,
                     t.delivered);
  }

  /** Nothing the session looks at moved in the proxy. */
  lemma {:induction false} StillKeepsInv(initialization: Initialization, t: Trace, p: Proxy, j: J.Journal, live: bool,
          p': Proxy, j': J.Journal)
    requires FramesInv(initialization, t, p, j, live) && Still(p, p') && Matched(p', j')
    requires Recordable(j') ==> Recordable(j)
    ensures FramesInv(initialization, t, p', j', live)
  {
    RecordingEnds(initialization, live, Recordable(j), Recordable(j'), t.released, p.client.queue.frames,
                  p.server.queue.frames, t.delivered);
  }

  lemma {:induction false} SessionStill(limits: ProcessLimits, s: Fields, t: Trace, p: Proxy, j: J.Journal, live: bool,
          p': Proxy, j': J.Journal)
    requires SessionInv(limits, s, t, p, j, live) && Still(p, p') && Matched(p', j')
    requires (Recordable(j') ==> Recordable(j)) && Clocked(s.lastObservedTime, live, t.unrecorded, p'.lastTime)
    ensures SessionInv(limits, s, t, p', j', live)
  {
    StillKeepsInv(s.initialization, t, p, j, live, p', j');
  }

  // ---- Admission ---------------------------------------------------------------------------

  function Accepting(t: Trace, f: Frame): Trace {
    t.(accepted := t.accepted + [f])
  }

  lemma {:induction false} ClientAdmissionKeepsInv(initialization: Initialization, t: Trace, p: Proxy, j: J.Journal,
          f: Frame, p': Proxy, j': J.Journal)
    requires FramesInv(initialization, t, p, j, true)
    requires f.observation.direction.ClientToServer? && ClientNext(initialization, f.observation).Some?
    requires Entered(p, f, p') && Matched(p', j') && (Recordable(j') ==> Recordable(j))
    ensures FramesInv(ClientNext(initialization, f.observation).value, Accepting(t, f), p', j', true)
    ensures FramesInv(initialization, t, p', j', false)
  {
    var q, r := p.client.queue.frames, p.server.queue.frames;
    var next := ClientNext(initialization, f.observation).value;
    ClientAdmission(initialization, Recordable(j), t.released, q, r, t.delivered, f);
    RecordingEnds(next, true, Recordable(j), Recordable(j'), t.released, q + [f], r, t.delivered);
    RecordingEnds(initialization, false, Recordable(j), Recordable(j'), t.released, q + [f], r, t.delivered);
    assert t.released + (q + [f]) == (t.released + q) + [f];
  }

  lemma {:induction false} ServerAdmissionKeepsInv(initialization: Initialization, t: Trace, p: Proxy, j: J.Journal,
          live: bool, f: Frame, p': Proxy, j': J.Journal)
    requires FramesInv(initialization, t, p, j, live)
    requires f.observation.direction.ServerToClient? && ServerNext(initialization, !live, f.observation).Ok?
    requires Entered(p, f, p') && Matched(p', j') && (Recordable(j') ==> Recordable(j))
    ensures FramesInv(ServerNext(initialization, !live, f.observation).value, t, p', j', live)
    ensures !Recordable(j') ==> FramesInv(initialization, t, p', j', false)
  {
    var q, r := p.client.queue.frames, p.server.queue.frames;
    var next := ServerNext(initialization, !live, f.observation).value;
    ServerAdmission(initialization, live, Recordable(j), t.released, q, r, t.delivered, f);
    RecordingEnds(next, live, Recordable(j), Recordable(j'), t.released, q, r + [f], t.delivered);
    HandshakeWeakens(initialization, live, Recordable(j), t.released, q, r, t.delivered);
    if !Recordable(j') {
      HandshakeWeakens(initialization, live, false, t.released, q, r + [f], t.delivered);
    }
  }

  // ---- Delivery to the client --------------------------------------------------------------

  lemma {:induction false} DeliveryKeepsInv(initialization: Initialization, t: Trace, p: Proxy, j: J.Journal,
          live: bool, f: Frame, p': Proxy, j': J.Journal)
    requires FramesInv(initialization, t, p, j, live) && Left(p, ServerToClient, f, p') && Matched(p', j')
    requires Recordable(j') ==> Recordable(j)
    ensures Recordable(j) ==>
              && DeliveryNext(initialization, f).Some?
              && FramesInv(DeliveryNext(initialization, f).value, t.(delivered := t.delivered + [f]), p', j', live)
    ensures !Recordable(j') ==> FramesInv(initialization, t, p', j', false)
  {
    var q, r := p.client.queue.frames, p.server.queue.frames;
    if Recordable(j) {
      DeliveryIsExpected(initialization, live, t.released, q, r, t.delivered);
      RecordingEnds(DeliveryNext(initialization, f).value, live, true, Recordable(j'), t.released, q, r[1..],
                    t.delivered + [f]);
    }
    HandshakeWeakens(initialization, live, Recordable(j), t.released, q, r, t.delivered);
    if !Recordable(j') {
      HandshakeWeakens(initialization, live, false, t.released, q, r[1..], t.delivered);
    }
  }

  // ---- Dispatch to the server --------------------------------------------------------------

  lemma {:induction false} DispatchKeepsInv(initialization: Initialization, t: Trace, p: Proxy, j: J.Journal, f: Frame,
          p': Proxy, j': J.Journal, link: W.Link)
    requires FramesInv(initialization, t, p, j, true)
    requires Left(p, ClientToServer, f, p') && Matched(p', j') && (Recordable(j') ==> Recordable(j))
    ensures DispatchNext(initialization, f).Some? && FramesInv(initialization, Releasing(t, f), p', j', false)
    ensures var next := DispatchNext(initialization, f).value;
            if W.Listening(link) then FramesInv(next, Handing(t, f, link), p', j', true)
            else FramesInv(next, Attempting(t, f, link), p', j', false)
  {
    var q, r, released := p.client.queue.frames, p.server.queue.frames, t.released + [f];
    DispatchIsExpected(initialization, Recordable(j), t.released, q, r, t.delivered);
    var next := DispatchNext(initialization, f).value;
    RecordingEnds(next, true, Recordable(j), Recordable(j'), released, q[1..], r, t.delivered);
    HandshakeWeakens(next, true, Recordable(j'), released, q[1..], r, t.delivered);
    RecordingEnds(initialization, false, Recordable(j), Recordable(j'), released, q[1..], r, t.delivered);
    CustodyReleases(t.accepted, t.released, t.handed, p.client, p'.client, f);
    AttemptEnds(t.released, t.sends, t.handed, f, link);
  }

  function Dispatched(s: Fields, sent: W.Link): Fields {
    s.(link := sent, writerOutstanding := s.writerOutstanding + 1,
       dispatchedClientFrames := s.dispatchedClientFrames + 1)
  }

  /** A released frame whose record is refused. */
  lemma {:induction false} DispatchReleases(limits: ProcessLimits, s: Fields, t: Trace, p: Proxy, j: J.Journal,
          f: Frame, p': Proxy, j': J.Journal)
    requires SessionInv(limits, s, t, p, j, true) && Live(s.lifecycle) && p'.lastTime == Some(s.lastObservedTime)
    requires Left(p, ClientToServer, f, p') && Matched(p', j') && (Recordable(j') ==> Recordable(j))
    ensures SessionInv(limits, s, Releasing(t, f), p', j', false)
  {
    DispatchKeepsInv(s.initialization, t, p, j, f, p', j', s.link);
  }

  /** A whole dispatch: the frame is the expected one, the worker's channel has room, no counter overflows. */
  lemma {:induction false} DispatchSettles(limits: ProcessLimits, s: Fields, t: Trace, p: Proxy, j: J.Journal, f: Frame,
          p': Proxy, j': J.Journal, steps: seq<W.Tick>, link: W.Link)
    requires SessionInv(limits, s, t, p, j, true) && Live(s.lifecycle) && !s.writerCloseRequested
    requires s.writerOutstanding < limits.ioQueueMessages && p'.client.forwarded <= U64_MAX
    requires Left(p, ClientToServer, f, p') && Matched(p', j') && (Recordable(j') ==> Recordable(j))
    requires link == W.WorkerSteps(s.link, steps) && p'.lastTime == Some(s.lastObservedTime)
    ensures DispatchNext(s.initialization, f).Some? && s.dispatchedClientFrames < U64_MAX
    ensures link.senderOpen && W.TrySend(link, W.FrameCommand(f)) != Err(W.Full)
    ensures var next := s.(initialization := DispatchNext(s.initialization, f).value, link := link);
            var sent := W.TrySend(link, W.FrameCommand(f));
            if sent.Ok? then SessionInv(limits, Dispatched(next, sent.value), Handing(t, f, link), p', j', true)
            else SessionInv(limits, next, Attempting(t, f, link), p', j', false)
  {
    DispatchKeepsInv(s.initialization, t, p, j, f, p', j', link);
    WriterDispatches(s.link, t.handed, limits.ioQueueMessages, s.writerOutstanding, s.dispatchedClientFrames,
                     s.writtenClientFrames, s.writtenClientBytes, f, steps, link);
    var next := s.(initialization := DispatchNext(s.initialization, f).value, link := link);
    if W.Listening(link) {
      var sent := W.TrySend(link, W.FrameCommand(f)).value;
      assert StatusOf(Dispatched(next, sent), Handing(t, f, link)) == StatusOf(s, t);
      SessionIntro(limits, Dispatched(next, sent), Handing(t, f, link), p', j', true);
    } else {
      assert StatusOf(next, Attempting(t, f, link)) == StatusOf(s, t);
      SessionIntro(limits, next, Attempting(t, f, link), p', j', false);
    }
  }

  // ---- Events from the stdin worker --------------------------------------------------------

  function Acknowledged(s: Fields): Fields
    requires s.link.events != [] && s.link.events[0].Written? && s.writerOutstanding > 0
  {
    s.(link := s.link.(events := s.link.events[1..]), writerOutstanding := s.writerOutstanding - 1,
       writtenClientFrames := s.writtenClientFrames + 1,
       writtenClientBytes := s.writtenClientBytes + s.link.events[0].bytes)
  }

  /** Reading an acknowledgement underflows and overflows nothing. */
  lemma {:induction false} AcknowledgementFits(s: Fields, t: Trace, lane: Lane, capacity: nat, live: bool)
    requires WriterInv(s.link, t.handed, ClosingStdin(s), capacity, s.writerOutstanding,
                       s.dispatchedClientFrames, s.writtenClientFrames, s.writtenClientBytes)
    requires Custody(live, t.accepted, t.released, t.handed, lane)
    requires lane.forwarded <= U64_MAX && lane.acceptedBytes <= U64_MAX
    requires s.link.events != [] && s.link.events[0].Written?
    ensures s.writerOutstanding > 0 && s.writtenClientFrames < U64_MAX
    ensures s.writtenClientBytes + s.link.events[0].bytes <= U64_MAX
  {
    WriterAcknowledges(s.link, t.handed, ClosingStdin(s), capacity, s.writerOutstanding,
                s.dispatchedClientFrames, s.writtenClientFrames, s.writtenClientBytes);
    CustodyBounds(live, t.accepted, t.released, t.handed, lane, s.writtenClientFrames + 1);
  }

  lemma {:induction false} AcknowledgementKeepsInv(limits: ProcessLimits, s: Fields, t: Trace, p: Proxy, j: J.Journal,
          live: bool)
    requires SessionInv(limits, s, t, p, j, live)
    requires s.link.events != [] && s.link.events[0].Written? && s.writerOutstanding > 0
    ensures SessionInv(limits, Acknowledged(s), t, p, j, live)
  {
    WriterAcknowledges(s.link, t.handed, ClosingStdin(s), limits.ioQueueMessages, s.writerOutstanding,
                       s.dispatchedClientFrames, s.writtenClientFrames, s.writtenClientBytes);
  }

  lemma {:induction false} FarewellKeepsInv(limits: ProcessLimits, s: Fields, t: Trace, p: Proxy, j: J.Journal,
          live: bool)
    requires SessionInv(limits, s, t, p, j, live) && s.link.events != [] && !s.link.events[0].Written?
    ensures SessionInv(limits, s.(link := s.link.(events := s.link.events[1..]), writerCloseRequested := true),
                       t, p, j, live)
  {
    WriterLeaves(s.link, t.handed, ClosingStdin(s), limits.ioQueueMessages, s.writerOutstanding,
                s.dispatchedClientFrames, s.writtenClientFrames, s.writtenClientBytes);
  }

  /** The event channel hangs up only on a session that is already closing its side. */
  lemma {:induction false} NoSilentHangup(limits: ProcessLimits, s: Fields, t: Trace, p: Proxy, j: J.Journal,
          live: bool)
    requires SessionInv(limits, s, t, p, j, live) && W.TryRecv(s.link).Hangup?
    ensures ClosingStdin(s)
  {
    W.SoundMeansSteady(s.link, t.handed, s.writtenClientFrames, ClosingStdin(s), limits.ioQueueMessages,
                       s.link.senderOpen);
  }

  /** Stream and exit observations do not touch what the invariant speaks about before exit. */
  lemma {:induction false} ObservationsKeepInv(limits: ProcessLimits, s: Fields, s': Fields, t: Trace, p: Proxy,
          j: J.Journal, live: bool)
    requires SessionInv(limits, s, t, p, j, live) && !s.lifecycle.Exited?
    requires s' == s.(stdoutFinished := s'.stdoutFinished, stdoutWithoutExitDeadline := s'.stdoutWithoutExitDeadline,
                      stderrFinished := s'.stderrFinished, processExit := s'.processExit,
                      processExitDeadline := s'.processExitDeadline)
    ensures SessionInv(limits, s', t, p, j, live)
  {
  }

  // ---- Shutdown and exit -------------------------------------------------------------------

  lemma {:induction false} StdinCloseKeepsInv(limits: ProcessLimits, s: Fields, t: Trace, p: Proxy, j: J.Journal)
    requires SessionInv(limits, s, t, p, j, true) && Live(s.lifecycle)
    requires s.writerOutstanding == 0 && !s.writerCloseRequested
    ensures s.link.senderOpen && W.TrySend(s.link, W.CloseCommand).Ok?
    ensures SessionInv(limits,
                       s.(link := W.Drop(W.TrySend(s.link, W.CloseCommand).value), writerCloseRequested := true),
                       t, p, j, true)
  {
    WriterCloses(s.link, t.handed, limits.ioQueueMessages, s.dispatchedClientFrames, s.writtenClientFrames,
                 s.writtenClientBytes);
  }

  function Finished(s: Fields, report: ExitReport): Fields {
    s.(initialization := AwaitingInitialize, exitReport := Some(report), lifecycle := Exited,
       link := W.Drop(s.link))
  }

  lemma {:induction false} FramesFinish(initialization: Initialization, t: Trace, p: Proxy, j: J.Journal, live: bool)
    requires FramesInv(initialization, t, p, j, live)
    ensures FramesInv(AwaitingInitialize, t, AfterClose(p), J.ClearCorrelations(j), false)
  {
    HandshakeWeakens(initialization, live, Recordable(j), t.released, p.client.queue.frames, p.server.queue.frames,
                     t.delivered);
    Coupling.CloseCoupled(p, j);
  }

  lemma {:induction false} FinishKeepsInv(limits: ProcessLimits, s: Fields, t: Trace, p: Proxy, j: J.Journal,
          live: bool, report: ExitReport)
    requires SessionInv(limits, s, t, p, j, live) && !s.lifecycle.Exited?
    requires Explained(report, StatusOf(s, t)) && report.initialized == s.initialization.Ready?
    ensures SessionInv(limits, Finished(s, report), t, AfterClose(p), J.ClearCorrelations(j), false)
    ensures Later(StatusOf(s, t), StatusOf(Finished(s, report), t))
  {
    FramesFinish(s.initialization, t, p, j, live);
    WriterDrops(s.link, t.handed, ClosingStdin(s), limits.ioQueueMessages, s.writerOutstanding,
                s.dispatchedClientFrames, s.writtenClientFrames, s.writtenClientBytes);
  }
}
