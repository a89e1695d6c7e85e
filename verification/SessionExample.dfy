/** A run that reports `initialized` although the stdin worker was never given the second frame. */
module SessionExample {
  import opened Basics
  import opened Messages
  import opened Classification
  import opened ProxyModel
  import opened Handshake
  import opened SessionModel
  import opened SessionSteps
  import opened SessionOutcomes
  import opened SessionTraffic
  import opened Sessions
  import opened SessionScript
  import W = WriterLink
  import J = JournalModel

  // ---- The proxy along the run ---------------------------------------------------------------

  /** The size of a queue of at most one frame. */
  function Load(frames: seq<Frame>): nat {
    if frames == [] then 0 else |frames[0].bytes|
  }

  /** What matters of the proxy after at most `n` operations: its queues, the client's requests, and counters far from
      their limits. */
  predicate Holding(p: Proxy, l: ProxyLimits, clockMax: nat, toServer: seq<Frame>, toClient: seq<Frame>,
          requests: map<RequestId, Phase>, n: nat)
  {
    && p.open && p.limits == l && p.clockMax == clockMax && (p.lastTime.None? || p.lastTime == Some(0))
    && p.client.queue.frames == toServer && p.client.queue.bytes == Load(toServer)
    && p.server.queue.frames == toClient && p.server.queue.bytes == Load(toClient)
    && p.client.requests == requests && p.server.requests == map[]
    && p.client.acceptedMessages <= n && p.client.acceptedBytes <= 30 * n && p.client.forwarded <= n
    && p.server.acceptedMessages <= n && p.server.acceptedBytes <= 30 * n && p.server.forwarded <= n
    && p.expired == 0 && n <= 10
  }

  lemma {:induction false} RequestAdmitted(l: ProxyLimits, clockMax: nat, f: Frame)
    requires Roomy(l) && ValidFrame(f) && f.observation.direction.ClientToServer? && IsRequestFor(f, ID)
    requires |f.bytes| <= 30
    ensures Admit(Initial(l, clockMax), Candidate(l, f)).Ok?
    ensures Holding(Admit(Initial(l, clockMax), Candidate(l, f)).value, l, clockMax, [f], [], map[ID := Queued], 1)
  {
  }

  /** No request of this run is overdue at instant zero. */
  lemma {:induction false} NoneDue(p: Proxy, l: ProxyLimits, clockMax: nat, toServer: seq<Frame>, toClient: seq<Frame>,
          requests: map<RequestId, Phase>, n: nat)
    requires Holding(p, l, clockMax, toServer, toClient, requests, n)
    requires forall id :: id in requests && requests[id].Pending? ==> requests[id].deadline > 0
    ensures NothingDue(p, 0) && Holding(AfterExpiry(p, 0), l, clockMax, toServer, toClient, requests, n)
  {
    assert Overdue(p.client.requests, 0) == {} && Overdue(p.server.requests, 0) == {};
    SortedIdsFacts({});
    assert p.client.requests - {} == p.client.requests;
  }

  lemma {:induction false} RequestReleased(p: Proxy, l: ProxyLimits, clockMax: nat, f: Frame, n: nat)
    requires Holding(p, l, clockMax, [f], [], map[ID := Queued], n) && ValidFrame(f) && IsRequestFor(f, ID)
    requires l.requestTimeout <= clockMax && n < 10
    ensures Releasable(p, ClientToServer) && Release(p, ClientToServer, 0).Ok?
    ensures var r := Release(p, ClientToServer, 0).value;
            r.frame == Some(f) && Holding(r.proxy, l, clockMax, [], [], map[ID := Pending(l.requestTimeout)], n + 1)
  {
  }

  lemma {:induction false} AnswerAdmitted(p: Proxy, l: ProxyLimits, clockMax: nat, deadline: nat, n: nat)
    requires Holding(p, l, clockMax, [], [], map[ID := Pending(deadline)], n) && Roomy(l) && n < 10
    ensures ValidFrame(AnswerFrame()) && Admit(p, Candidate(l, AnswerFrame())).Ok?
    ensures Holding(Admit(p, Candidate(l, AnswerFrame())).value, l, clockMax, [], [AnswerFrame()], map[], n + 1)
  {
    Lines();
    assert map[ID := Pending(deadline)] - {ID} == map[];
  }

  lemma {:induction false} NothingReleased(p: Proxy, l: ProxyLimits, clockMax: nat, toClient: seq<Frame>, n: nat)
    requires Holding(p, l, clockMax, [], toClient, map[], n)
    ensures Releasable(p, ClientToServer) && Release(p, ClientToServer, 0).Ok?
    ensures var r := Release(p, ClientToServer, 0).value;
            r.frame.None? && Holding(r.proxy, l, clockMax, [], toClient, map[], n)
  {
  }

  lemma {:induction false} AnswerReleased(p: Proxy, l: ProxyLimits, clockMax: nat, n: nat)
    requires Holding(p, l, clockMax, [], [AnswerFrame()], map[], n) && n < 10
    ensures Releasable(p, ServerToClient) && Release(p, ServerToClient, 0).Ok?
    ensures var r := Release(p, ServerToClient, 0).value;
            r.frame == Some(AnswerFrame()) && Holding(r.proxy, l, clockMax, [], [], map[], n + 1)
  {
  }

  lemma {:induction false} NoticeAdmitted(p: Proxy, l: ProxyLimits, clockMax: nat, f: Frame, n: nat)
    requires Holding(p, l, clockMax, [], [], map[], n) && Roomy(l) && n < 10
    requires ValidFrame(f) && f.observation.direction.ClientToServer? && IsNotification(f) && |f.bytes| <= 30
    ensures Admit(p, Candidate(l, f)).Ok?
    ensures Holding(Admit(p, Candidate(l, f)).value, l, clockMax, [f], [], map[], n + 1)
  {
  }

  lemma {:induction false} NoticeReleased(p: Proxy, l: ProxyLimits, clockMax: nat, f: Frame, n: nat)
    requires Holding(p, l, clockMax, [f], [], map[], n) && ValidFrame(f) && IsNotification(f) && n < 10
    ensures Releasable(p, ClientToServer) && Release(p, ClientToServer, 0).Ok?
    ensures Release(p, ClientToServer, 0).value.frame == Some(f)
  {
  }

  // ---- The session along the run -------------------------------------------------------------

  datatype Setup = Setup(limits: ProcessLimits, proxy: ProxyLimits, clockMax: nat)

  /** One event a poll, room for two frames, and a clock that reaches every deadline. */
  predicate Suits(u: Setup) {
    && ValidProcessLimits(u.limits) && u.limits.pollEvents == 1 && u.limits.ioQueueMessages >= 2 && Roomy(u.proxy)
    && u.limits.initializationTimeout <= u.clockMax && u.limits.runtimeTimeout <= u.clockMax
    && u.limits.exitDrainTimeout <= u.clockMax && u.proxy.requestTimeout <= u.clockMax
  }

  function Deadlines(u: Setup): (nat, nat) {
    (u.limits.initializationTimeout, u.limits.runtimeTimeout)
  }

  /** The fields while nothing has gone wrong yet. */
  function Stand(u: Setup, i: Initialization, link: W.Link, n: nat): Fields {
    Attached(u.limits, 0).(initialization := i, link := link, writerOutstanding := n, dispatchedClientFrames := n)
  }

  function Polls(k: nat): Cursor {
    Cursor(k, k, k, 3 * k)
  }

  function StartLink(u: Setup): W.Link {
    W.NewLink(u.limits.ioQueueMessages)
  }

  function QueuedLink(u: Setup): W.Link {
    StartLink(u).(commands := [W.FrameCommand(AskFrame())])
  }

  /** The first line is written, and writing its newline has failed. */
  function FailingLink(u: Setup): W.Link {
    W.WorkerSteps(QueuedLink(u), Schedule(3))
  }

  lemma {:induction false} TwoSteps(link: W.Link, a: W.Tick, b: W.Tick)
    ensures W.WorkerSteps(link, []) == link
    ensures W.WorkerSteps(link, [a, b]) == W.WorkerStep(W.WorkerStep(link, a), b)
  {
    assert [a, b][..1] == [a] && [a][..0] == [];
    assert W.WorkerSteps(link, [a]) == W.WorkerStep(link, a);
  }

  lemma {:induction false} LinkFails(u: Setup)
    requires Suits(u)
    ensures var link := FailingLink(u);
            && link.stdin == ASK && link.events == [] && link.worker == W.Failing(AskFrame())
            && link.senderOpen && !W.Listening(W.WorkerSteps(link, Schedule(7)))
  {
    TwoSteps(QueuedLink(u), W.Proceed, W.WriteFails(|ASK|));
    TwoSteps(FailingLink(u), W.Proceed, W.DropReceiver);
    assert (ASK + [NEWLINE])[..|ASK|] == ASK;
    assert [] + ASK == ASK;
  }

  /** Such a poll is quiet. */
  lemma {:induction false} PollIsQuiet(u: Setup, i: Initialization, link: W.Link, n: nat, p: Proxy, j: J.Journal,
          k: nat)
    requires Suits(u) && k < 3 && W.TryRecv(W.WorkerSteps(link, Schedule(3 * k))).Empty?
    requires k == 1 ==> Takes(Ran(Stand(u, i, link, n), Schedule(3)), p, j, ANSWER, Surroundings())
    ensures Quiet(u.limits, Stand(u, i, link, n), p, j, Surroundings(), Polls(k))
  {
    var s, e, c := Stand(u, i, link, n), Surroundings(), Polls(k);
    assert Silent(u.limits, s, e, c);
    assert Uneventful(Ran(s, e.schedule(c.ticks)), p, j, e.stdout(c.stdout), e);
  }

  /** A quiet poll goes through a state in which its line, if any, has been taken. */
  lemma {:induction false} QuietMidway(u: Setup, s0: Fields, t0: Trace, p0: Proxy, j0: J.Journal, k: nat, s: Fields,
          t: Trace, c: Cursor, p: Proxy, j: J.Journal, r: Reading)
    returns (m: Midway)
    requires Quiet(u.limits, s0, p0, j0, Surroundings(), Polls(k))
    requires CalmPoll(u.limits, Surroundings(), Deadlines(u), 0, u.clockMax, s0, t0, Polls(k), p0, j0, s, t, c, p, j, r)
    ensures QuietVia(u.limits, Surroundings(), Deadlines(u), 0, s0, t0, Polls(k), p0, j0, m, s, t, c, p, j, r)
  {
    m :| QuietVia(u.limits, Surroundings(), Deadlines(u), 0, s0, t0, Polls(k), p0, j0, m, s, t, c, p, j, r);
  }

  /** A quiet poll that hears no line only dispatches. */
  lemma {:induction false} QuietPollDispatches(u: Setup, i: Initialization, link: W.Link, n: nat, t0: Trace, p0: Proxy,
          j0: J.Journal, k: nat, s: Fields, t: Trace, c: Cursor, p: Proxy, j: J.Journal, r: Reading)
    requires Suits(u) && k < 3 && k != 1 && n < u.limits.ioQueueMessages && NothingDue(p0, 0)
    requires j0.lastSequence <= 20 && W.TryRecv(W.WorkerSteps(link, Schedule(3 * k))).Empty?
    requires CalmPoll(u.limits, Surroundings(), Deadlines(u), 0, u.clockMax, Stand(u, i, link, n), t0, Polls(k), p0, j0,
                      s, t, c, p, j, r)
    ensures DispatchOutcome(AfterExpiry(p0, 0), 0, Ran(Stand(u, i, link, n), Schedule(3 * k)), t0, Schedule(3 * k + 1),
                            s, t, r, p)
    ensures j.lastSequence <= j0.lastSequence + 2 && c == Polls(k + 1)
  {
    PollIsQuiet(u, i, link, n, p0, j0, k);
    var m := QuietMidway(u, Stand(u, i, link, n), t0, p0, j0, k, s, t, c, p, j, r);
    assert m.s == Ran(Stand(u, i, link, n), Schedule(3 * k)) && m.p == p0;
    assert Unhurried(u.limits, m.s, m.p, m.j, Deadlines(u), 0);
  }

  lemma {:induction false} RequestDispatched(u: Setup, f: Frame, t0: Trace, p0: Proxy, s: Fields, t: Trace, r: Reading,
          p: Proxy, n: nat)
    requires Suits(u) && Holding(p0, u.proxy, u.clockMax, [f], [], map[ID := Queued], n) && n < 10
    requires ValidFrame(f) && IsInitialize(f, ID)
    requires DispatchOutcome(p0, 0, Ran(Stand(u, InitializeQueued(ID), StartLink(u), 0), Schedule(0)), t0, Schedule(1),
                             s, t, r, p)
    ensures s == Stand(u, AwaitingInitializeResponse(ID), StartLink(u).(commands := [W.FrameCommand(f)]), 1)
    ensures t == Handing(t0, f, StartLink(u))
    ensures Holding(p, u.proxy, u.clockMax, [], [], map[ID := Pending(u.proxy.requestTimeout)], n + 1)
  {
    RequestReleased(p0, u.proxy, u.clockMax, f, n);
    var released := Release(p0, ClientToServer, 0).value;
    assert Release(p0, ClientToServer, 0) == Ok(released) && released.frame == Some(f);
    assert W.WorkerSteps(StartLink(u), []) == StartLink(u);
    assert [] + [W.FrameCommand(f)] == [W.FrameCommand(f)];
  }

  lemma {:induction false} ReadyLost(u: Setup, t0: Trace, p0: Proxy, s: Fields, t: Trace, r: Reading, p: Proxy, n: nat)
    requires Suits(u) && Holding(p0, u.proxy, u.clockMax, [ReadyFrame()], [], map[], n) && n < 10
    requires DispatchOutcome(p0, 0, Ran(Stand(u, InitializedQueued, FailingLink(u), 1), Schedule(6)), t0, Schedule(7),
                             s, t, r, p)
    ensures s.lifecycle.Terminating? && s.processExit.None? && !s.stdoutFinished && !s.stderrFinished
    ensures s.lastObservedTime == 0
    ensures exists link :: !W.Listening(link) && t == Attempting(t0, ReadyFrame(), link)
  {
    LinkFails(u);
    FramesFit();
    NoticeReleased(p0, u.proxy, u.clockMax, ReadyFrame(), n);
    var released := Release(p0, ClientToServer, 0).value;
    assert Release(p0, ClientToServer, 0) == Ok(released) && released.frame == Some(ReadyFrame());
    assert W.WorkerSteps(FailingLink(u), []) == FailingLink(u);
    assert !W.Listening(W.WorkerSteps(FailingLink(u), Schedule(7)));
  }

  lemma {:induction false} AnswerExpected(u: Setup, p: Proxy, j: J.Journal, n: nat)
    requires Suits(u) && n < 10 && j.lastSequence <= 20
    requires Holding(p, u.proxy, u.clockMax, [], [], map[ID := Pending(u.proxy.requestTimeout)], n)
    ensures Takes(Ran(Stand(u, AwaitingInitializeResponse(ID), QueuedLink(u), 1), Schedule(3)), p, j, ANSWER,
                  Surroundings())
  {
    AnswerTaken(u.proxy);
    AnswerAdmitted(p, u.proxy, u.clockMax, u.proxy.requestTimeout, n);
  }

  lemma {:induction false} AnswerHeard(u: Setup, s0: Fields, p0: Proxy, s: Fields, p: Proxy, n: nat)
    requires Suits(u) && n < 10 && s0 == Stand(u, AwaitingInitializeResponse(ID), QueuedLink(u), 1)
    requires Holding(p0, u.proxy, u.clockMax, [], [], map[ID := Pending(u.proxy.requestTimeout)], n)
    requires Heard(Ran(s0, Schedule(3)), p0, W.Received(Line(ANSWER)), Surroundings(), s, p)
    ensures s == Stand(u, InitializeResponseQueued(ID), FailingLink(u), 1)
    ensures Holding(p, u.proxy, u.clockMax, [], [AnswerFrame()], map[], n + 1)
  {
    assert Taken(Ran(s0, Schedule(3)), p0, ANSWER, Surroundings(), s, p);
    AnswerTaken(u.proxy);
    AnswerAdmitted(p0, u.proxy, u.clockMax, u.proxy.requestTimeout, n);
  }

  lemma {:induction false} AnswerPollIsQuiet(u: Setup, p: Proxy, j: J.Journal)
    requires Suits(u) && j.lastSequence <= 20
    requires Holding(p, u.proxy, u.clockMax, [], [], map[ID := Pending(u.proxy.requestTimeout)], 2)
    ensures Quiet(u.limits, Stand(u, AwaitingInitializeResponse(ID), QueuedLink(u), 1), p, j, Surroundings(), Polls(1))
  {
    LinkFails(u);
    AnswerExpected(u, p, j, 2);
    PollIsQuiet(u, AwaitingInitializeResponse(ID), QueuedLink(u), 1, p, j, 1);
  }

  lemma {:induction false} AnswerQueued(u: Setup, t0: Trace, p0: Proxy, j0: J.Journal, s: Fields, t: Trace, c: Cursor,
          p: Proxy, j: J.Journal, r: Reading)
    requires Suits(u) && j0.lastSequence <= 20
    requires Holding(p0, u.proxy, u.clockMax, [], [], map[ID := Pending(u.proxy.requestTimeout)], 2)
    requires CalmPoll(u.limits, Surroundings(), Deadlines(u), 0, u.clockMax,
                      Stand(u, AwaitingInitializeResponse(ID), QueuedLink(u), 1), t0, Polls(1), p0, j0, s, t, c, p, j,
                      r)
    ensures s == Stand(u, InitializeResponseQueued(ID), FailingLink(u), 1) && t == t0
    ensures Holding(p, u.proxy, u.clockMax, [], [AnswerFrame()], map[], 3)
    ensures j.lastSequence <= j0.lastSequence + 2 && c == Polls(2)
  {
    var s0 := Stand(u, AwaitingInitializeResponse(ID), QueuedLink(u), 1);
    AnswerPollIsQuiet(u, p0, j0);
    var m := QuietMidway(u, s0, t0, p0, j0, 1, s, t, c, p, j, r);
    AnswerHeard(u, s0, p0, m.s, m.p, 2);
    NoneDue(m.p, u.proxy, u.clockMax, [], [AnswerFrame()], map[], 3);
    assert Unhurried(u.limits, m.s, m.p, m.j, Deadlines(u), 0);
    NothingReleased(AfterExpiry(m.p, 0), u.proxy, u.clockMax, [AnswerFrame()], 3);
    var released := Release(AfterExpiry(m.p, 0), ClientToServer, 0).value;
    assert Release(AfterExpiry(m.p, 0), ClientToServer, 0) == Ok(released) && released.frame.None?;
  }

  /** A session of this setup after `k` polls. */
  ghost predicate Scene(session: ProcessSession, u: Setup, i: Initialization, link: W.Link, n: nat, k: nat)
    reads session
  {
    && session.limits == u.limits && session.environment == Surroundings() && session.clockMax == u.clockMax
    && (session.initializationDeadline, session.runtimeDeadline) == Deadlines(u)
    && session.state == Stand(u, i, link, n) && session.cursor == Polls(k)
  }

  ghost predicate Carries(session: ProcessSession, u: Setup, toServer: seq<Frame>, toClient: seq<Frame>,
          requests: map<RequestId, Phase>, n: nat)
    reads session, session.proxy, session.proxy.toServer, session.proxy.toClient, session.journal
  {
    && Holding(session.proxy.View(), u.proxy, u.clockMax, toServer, toClient, requests, n)
    && session.journal.View().lastSequence <= 2 * n
  }

  lemma {:induction false} LineAccepted(u: Setup, s: Fields, p: Proxy, j: J.Journal, line: Bytes, f: Frame)
    requires s.lifecycle.Running? && p.open && p.limits == u.proxy && j.lastSequence <= 20 && ValidFrame(f)
    requires Acceptable(line, u.proxy, Decode) && Framed(line, ClientToServer, u.proxy, Decode) == f
    requires ClientNext(s.initialization, f.observation).Some? && Admit(p, Candidate(u.proxy, f)).Ok?
    ensures Accepts(s, p, j, line, Surroundings())
    ensures Offered(p, ClientToServer, line, Decode) == Candidate(u.proxy, f)
  {
  }

  lemma {:induction false} AskAccepted(u: Setup, s: Fields, p: Proxy, j: J.Journal)
    requires Suits(u) && s == Attached(u.limits, 0) && p == Initial(u.proxy, u.clockMax) && j.lastSequence == 0
    ensures Accepts(s, p, j, ASK, Surroundings())
    ensures Offered(p, ClientToServer, ASK, Decode) == Candidate(u.proxy, AskFrame())
  {
    AskTaken(u.proxy);
    FramesFit();
    RequestAdmitted(u.proxy, u.clockMax, AskFrame());
    LineAccepted(u, s, p, j, ASK, AskFrame());
  }

  lemma {:induction false} AskQueued(u: Setup, s: Fields, p: Proxy)
    requires Suits(u) && ValidFrame(AskFrame())
    requires Accepted(Attached(u.limits, 0), Initial(u.proxy, u.clockMax), Candidate(u.proxy, AskFrame()), s, p)
    ensures s == Stand(u, InitializeQueued(ID), StartLink(u), 0)
    ensures Holding(p, u.proxy, u.clockMax, [AskFrame()], [], map[ID := Queued], 1)
  {
    FramesFit();
    RequestAdmitted(u.proxy, u.clockMax, AskFrame());
  }

  /** The client sends a line that the session accepts. */
  method Tell(session: ProcessSession, line: Bytes, ghost frame: Frame)
    requires session.Valid()
    requires Accepts(session.state, session.proxy.View(), session.journal.View(), line, session.environment)
    requires Offered(session.proxy.View(), ClientToServer, line, session.environment.decode).frame == frame
    modifies session, session.proxy, session.proxy.toServer, session.proxy.toClient, session.journal
    ensures session.Valid() && session.cursor == old(session.cursor) && ValidFrame(frame)
    ensures Accepted(old(session.state), old(session.proxy.View()), Candidate(old(session.proxy.View()).limits, frame),
                     session.state, session.proxy.View())
    ensures session.trace == Accepting(old(session.trace), frame)
    ensures session.journal.View().lastSequence == old(session.journal.View()).lastSequence + 1
  {
    var told := session.SendClient(line);
  }

  /** The client asks to initialize. */
  method Ask(session: ProcessSession, u: Setup)
    requires Suits(u) && session.Valid() && session.journal.View().lastSequence == 0
    requires Scene(session, u, AwaitingInitialize, StartLink(u), 0, 0)
    requires session.proxy.View() == Initial(u.proxy, u.clockMax)
    modifies session, session.proxy, session.proxy.toServer, session.proxy.toClient, session.journal
    ensures session.Valid() && Scene(session, u, InitializeQueued(ID), StartLink(u), 0, 0)
    ensures Carries(session, u, [AskFrame()], [], map[ID := Queued], 1)
    ensures session.trace == Accepting(old(session.trace), AskFrame())
  {
    AskAccepted(u, session.state, session.proxy.View(), session.journal.View());
    Tell(session, ASK, AskFrame());
    AskQueued(u, session.state, session.proxy.View());
  }

  lemma {:induction false} AskPolled(u: Setup, t0: Trace, p0: Proxy, j0: J.Journal, s: Fields, t: Trace, c: Cursor,
          p: Proxy, j: J.Journal, r: Reading)
    requires Suits(u) && Holding(p0, u.proxy, u.clockMax, [AskFrame()], [], map[ID := Queued], 1)
    requires j0.lastSequence <= 20
    requires CalmPoll(u.limits, Surroundings(), Deadlines(u), 0, u.clockMax,
                      Stand(u, InitializeQueued(ID), StartLink(u), 0), t0, Polls(0), p0, j0, s, t, c, p, j, r)
    ensures s == Stand(u, AwaitingInitializeResponse(ID), QueuedLink(u), 1)
    ensures t == Handing(t0, AskFrame(), StartLink(u))
    ensures Holding(p, u.proxy, u.clockMax, [], [], map[ID := Pending(u.proxy.requestTimeout)], 2)
    ensures j.lastSequence <= j0.lastSequence + 2 && c == Polls(1)
  {
    NoneDue(p0, u.proxy, u.clockMax, [AskFrame()], [], map[ID := Queued], 1);
    TwoSteps(StartLink(u), W.Proceed, W.Proceed);
    QuietPollDispatches(u, InitializeQueued(ID), StartLink(u), 0, t0, p0, j0, 0, s, t, c, p, j, r);
    FramesFit();
    RequestDispatched(u, AskFrame(), t0, AfterExpiry(p0, 0), s, t, r, p, 1);
  }

  /** The first poll hands the request to the worker. */
  method PollAsk(session: ProcessSession, u: Setup)
    requires Suits(u) && session.Valid()
    requires Scene(session, u, InitializeQueued(ID), StartLink(u), 0, 0)
    requires Carries(session, u, [AskFrame()], [], map[ID := Queued], 1)
    modifies session, session.proxy, session.proxy.toServer, session.proxy.toClient, session.journal
    ensures session.Valid() && Scene(session, u, AwaitingInitializeResponse(ID), QueuedLink(u), 1, 1)
    ensures Carries(session, u, [], [], map[ID := Pending(u.proxy.requestTimeout)], 2)
    ensures session.trace == Handing(old(session.trace), AskFrame(), StartLink(u))
  {
    ghost var p, j := session.proxy.View(), session.journal.View();
    var r := session.Poll(0);
    AskPolled(u, old(session.trace), p, j, session.state, session.trace, session.cursor, session.proxy.View(),
              session.journal.View(), PollReading(r));
  }

  /** The second poll takes the server's answer. */
  method PollAnswer(session: ProcessSession, u: Setup)
    requires Suits(u) && session.Valid() && Scene(session, u, AwaitingInitializeResponse(ID), QueuedLink(u), 1, 1)
    requires Carries(session, u, [], [], map[ID := Pending(u.proxy.requestTimeout)], 2)
    modifies session, session.proxy, session.proxy.toServer, session.proxy.toClient, session.journal
    ensures session.Valid() && Scene(session, u, InitializeResponseQueued(ID), FailingLink(u), 1, 2)
    ensures Carries(session, u, [], [AnswerFrame()], map[], 3) && session.trace == old(session.trace)
  {
    ghost var p, j := session.proxy.View(), session.journal.View();
    var r := session.Poll(0);
    AnswerQueued(u, old(session.trace), p, j, session.state, session.trace, session.cursor, session.proxy.View(),
                 session.journal.View(), PollReading(r));
  }

  function Delivering(t: Trace, f: Frame): Trace {
    t.(delivered := t.delivered + [f])
  }

  /** The client receives it. */
  method Receive(session: ProcessSession, u: Setup)
    requires Suits(u) && session.Valid() && Scene(session, u, InitializeResponseQueued(ID), FailingLink(u), 1, 2)
    requires Carries(session, u, [], [AnswerFrame()], map[], 3)
    modifies session, session.proxy, session.proxy.toServer, session.proxy.toClient, session.journal
    ensures session.Valid() && Scene(session, u, AwaitingInitialized, FailingLink(u), 1, 2)
    ensures Carries(session, u, [], [], map[], 4)
    ensures session.trace == Delivering(old(session.trace), AnswerFrame())
  {
    AnswerReleased(session.proxy.View(), u.proxy, u.clockMax, 3);
    var received := session.NextForClient(0);
  }

  lemma {:induction false} ReadyAccepted(u: Setup, link: W.Link, s: Fields, p: Proxy, j: J.Journal)
    requires Suits(u) && s == Stand(u, AwaitingInitialized, link, 1) && j.lastSequence <= 20
    requires Holding(p, u.proxy, u.clockMax, [], [], map[], 4)
    ensures Accepts(s, p, j, READY, Surroundings())
    ensures Offered(p, ClientToServer, READY, Decode) == Candidate(u.proxy, ReadyFrame())
  {
    ReadyTaken(u.proxy);
    FramesFit();
    NoticeAdmitted(p, u.proxy, u.clockMax, ReadyFrame(), 4);
    LineAccepted(u, s, p, j, READY, ReadyFrame());
  }

  lemma {:induction false} ReadyQueued(u: Setup, link: W.Link, p0: Proxy, s: Fields, p: Proxy)
    requires Suits(u) && ValidFrame(ReadyFrame()) && Holding(p0, u.proxy, u.clockMax, [], [], map[], 4)
    requires Accepted(Stand(u, AwaitingInitialized, link, 1), p0, Candidate(u.proxy, ReadyFrame()), s, p)
    ensures s == Stand(u, InitializedQueued, link, 1)
    ensures Holding(p, u.proxy, u.clockMax, [ReadyFrame()], [], map[], 5)
  {
    FramesFit();
    NoticeAdmitted(p0, u.proxy, u.clockMax, ReadyFrame(), 4);
  }

  /** The client announces that it is ready. */
  method Announce(session: ProcessSession, u: Setup, ghost link: W.Link)
    requires Suits(u) && session.Valid() && Scene(session, u, AwaitingInitialized, link, 1, 2)
    requires Carries(session, u, [], [], map[], 4)
    modifies session, session.proxy, session.proxy.toServer, session.proxy.toClient, session.journal
    ensures session.Valid() && Scene(session, u, InitializedQueued, link, 1, 2)
    ensures Carries(session, u, [ReadyFrame()], [], map[], 5)
    ensures session.trace == Accepting(old(session.trace), ReadyFrame())
  {
    ghost var p := session.proxy.View();
    ReadyAccepted(u, link, session.state, p, session.journal.View());
    Tell(session, READY, ReadyFrame());
    ReadyQueued(u, link, p, session.state, session.proxy.View());
  }

  /** The third poll finds nobody to hand the announcement to. */
  method PollReady(session: ProcessSession, u: Setup)
    requires Suits(u) && session.Valid() && Scene(session, u, InitializedQueued, FailingLink(u), 1, 2)
    requires Carries(session, u, [ReadyFrame()], [], map[], 5)
    modifies session, session.proxy, session.proxy.toServer, session.proxy.toClient, session.journal
    ensures session.Valid() && session.cursor == Polls(3) && session.state.lastObservedTime == 0
    ensures session.state.lifecycle.Terminating? && session.state.processExit.None?
    ensures !session.state.stdoutFinished && !session.state.stderrFinished
    ensures exists link :: !W.Listening(link) && session.trace == Attempting(old(session.trace), ReadyFrame(), link)
  {
    ghost var p, j := session.proxy.View(), session.journal.View();
    LinkFails(u);
    NoneDue(p, u.proxy, u.clockMax, [ReadyFrame()], [], map[], 5);
    var r := session.Poll(0);
    QuietPollDispatches(u, InitializedQueued, FailingLink(u), 1, old(session.trace), p, j, 2, session.state,
                        session.trace, session.cursor, session.proxy.View(), session.journal.View(), PollReading(r));
    ReadyLost(u, old(session.trace), AfterExpiry(p, 0), session.state, session.trace, PollReading(r),
              session.proxy.View(), 5);
  }

  /** Up to the first poll. */
  method Open(u: Setup, eventLimit: nat) returns (session: ProcessSession)
    requires Suits(u) && 0 < eventLimit <= J.ABSOLUTE_MAX_EVENTS
    ensures fresh(session) && fresh(session.proxy) && fresh(session.proxy.toServer) && fresh(session.proxy.toClient)
    ensures fresh(session.journal) && session.Valid()
    ensures Scene(session, u, AwaitingInitializeResponse(ID), QueuedLink(u), 1, 1)
    ensures Carries(session, u, [], [], map[ID := Pending(u.proxy.requestTimeout)], 2)
    ensures session.trace == Handing(Accepting(NO_TRACE, AskFrame()), AskFrame(), StartLink(u))
  {
    var attached := Attach(u.limits, u.proxy, eventLimit, Surroundings(), u.clockMax, 0);
    session := attached.value;
    Ask(session, u);
    PollAsk(session, u);
  }

  /** From the answer to the announcement. */
  method Converse(session: ProcessSession, u: Setup)
    requires Suits(u) && session.Valid() && Scene(session, u, AwaitingInitializeResponse(ID), QueuedLink(u), 1, 1)
    requires Carries(session, u, [], [], map[ID := Pending(u.proxy.requestTimeout)], 2)
    modifies session, session.proxy, session.proxy.toServer, session.proxy.toClient, session.journal
    ensures session.Valid() && Scene(session, u, InitializedQueued, FailingLink(u), 1, 2)
    ensures Carries(session, u, [ReadyFrame()], [], map[], 5)
    ensures session.trace == Accepting(Delivering(old(session.trace), AnswerFrame()), ReadyFrame())
  {
    PollAnswer(session, u);
    Receive(session, u);
    Announce(session, u, FailingLink(u));
  }

  /** The end: the announcement is lost, the process exits and the session reports. */
  method Close(session: ProcessSession, u: Setup)
    requires Suits(u) && session.Valid() && Scene(session, u, InitializedQueued, FailingLink(u), 1, 2)
    requires Carries(session, u, [ReadyFrame()], [], map[], 5)
    modifies session, session.proxy, session.proxy.toServer, session.proxy.toClient, session.journal
    ensures session.Valid() && session.state.lifecycle.Exited?
    ensures exists link :: !W.Listening(link) && session.trace == Attempting(old(session.trace), ReadyFrame(), link)
  {
    PollReady(session, u);
    assert At(session.state, 0) == session.state;
    assert Closing(session.limits, session.state, session.environment, session.cursor, 0, session.clockMax);
    var r := session.Poll(0);
  }

  lemma {:induction false} Traced(ask: Frame, answer: Frame, ready: Frame, first: W.Link, second: W.Link)
    ensures var asked := Handing(Accepting(NO_TRACE, ask), ask, first);
            Attempting(Accepting(Delivering(asked, answer), ready), ready, second)
            == Trace([ask, ready], [ask, ready], [first, second], [ask], [answer], false, None)
  {
  }

  /** The session exits reporting that it was initialized; two lines were accepted and both were released, but only the
      first was ever handed to the stdin worker. */
  method ReadyWithoutHandOver(u: Setup, eventLimit: nat) returns (session: ProcessSession)
    requires Suits(u) && 0 < eventLimit <= J.ABSOLUTE_MAX_EVENTS
    ensures session.Valid() && session.state.lifecycle.Exited?
    ensures session.state.exitReport.Some? && session.state.exitReport.value.initialized
    ensures session.trace.accepted == session.trace.released == [AskFrame(), ReadyFrame()]
    ensures session.trace.handed == [AskFrame()]
  {
    session := Open(u, eventLimit);
    Converse(session, u);
    ghost var before := session.trace;
    Close(session, u);
    ghost var link :| session.trace == Attempting(before, ReadyFrame(), link);
    Traced(AskFrame(), AnswerFrame(), ReadyFrame(), StartLink(u), link);
    KeptStatus(session.limits, session.state, session.trace, session.proxy.View(), session.journal.View());
    ReportedInitialization(session.limits, session.state, session.trace, session.proxy.View(), session.journal.View());
  }
}
