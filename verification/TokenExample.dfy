/** A run in which a token changes hands between acceptance and forwarding. */
module TokenExample {
  import opened Basics
  import opened Messages
  import opened ProxyModel
  import opened ProxyInvariant
  import opened CoupledRuns
  import opened TokenRuns
  import J = JournalModel

  function Sample(d: Direction, kind: Kind, name: Option<Text>): Frame {
    Frame(Observation(d, kind, name, Some(Unsigned(5)), 1), [0x7B])
  }

  /** A stray error response to 5, the request 5 itself, and its success response. */
  function Stray(): Frame { Sample(ServerToClient, ErrorResponse, None) }

  function Question(): Frame { Sample(ClientToServer, Request, Some([0x61])) }

  function Reply(): Frame { Sample(ServerToClient, SuccessResponse, None) }

  function Offered(l: ProxyLimits, f: Frame): Op { AdmitOp(Candidate(l, f)) }

  /** Limits that let one request and two responses through. */
  predicate Spacious(l: ProxyLimits, clockMax: nat) {
    && ValidProxyLimits(l) && l.toServer.messages >= 2 && l.toClient.messages >= 2
    && l.toServer.bytes >= 2 && l.toClient.bytes >= 2 && l.requestTimeout <= clockMax
  }

  function StrayQueued(l: ProxyLimits, clockMax: nat): Proxy {
    Initial(l, clockMax).(server := EnterLane(EMPTY_LANE, Stray()), unmatched := 1)
  }

  function QuestionQueued(l: ProxyLimits, clockMax: nat): Proxy {
    StrayQueued(l, clockMax).(client := EnterLane(EMPTY_LANE, Question()))
  }

  lemma {:induction false} QuestionForwarded(l: ProxyLimits, clockMax: nat) returns (p: Proxy)
    requires Spacious(l, clockMax)
    ensures ValidFrame(Stray()) && ValidFrame(Question()) && ValidFrame(Reply())
    ensures Admit(Initial(l, clockMax), Candidate(l, Stray())) == Ok(StrayQueued(l, clockMax))
    ensures Admit(StrayQueued(l, clockMax), Candidate(l, Question())) == Ok(QuestionQueued(l, clockMax))
    ensures Releasable(QuestionQueued(l, clockMax), ClientToServer)
    ensures Release(QuestionQueued(l, clockMax), ClientToServer, 0) == Ok(Released(p, Some(Question())))
    ensures p.open && p.limits == l && p.server == EnterLane(EMPTY_LANE, Stray()) && p.lastTime == Some(0)
    ensures Unsigned(5) in p.client.requests && p.client.requests[Unsigned(5)].Pending?
    ensures p.unmatched == 1
  {
    assert !HasControl([0x61]) by { assert [0x61][1..] == []; }
    p := AfterRelease(QuestionQueued(l, clockMax), ClientToServer, 0);
  }

  lemma {:induction false} StartTogether(l: ProxyLimits, clockMax: nat, eventLimit: nat)
    requires ValidProxyLimits(l) && 0 < eventLimit <= J.ABSOLUTE_MAX_EVENTS
    ensures Together(Start(l, clockMax, eventLimit))
  {
    JournalNeverContradictsProxy(l, clockMax, eventLimit, []);
  }

  /** The stray response is queued, the request is accepted and forwarded. */
  ghost function Prelude(l: ProxyLimits): seq<Op> {
    [Offered(l, Stray()), Offered(l, Question()), ReleaseOp(ClientToServer, 0)]
  }

  lemma {:induction false} RunOne(pair: Pair, op: Op)
    requires Together(pair) && ValidOp(op)
    ensures ValidOps([op]) && Run(pair, [op]) == Step(pair, op) && Together(Step(pair, op))
    ensures forall d: Direction :: Left(pair, [op], d) == Leaving(pair, op, d)
  {
    StepTogether(pair, op);
    assert [op][..0] == [];
  }

  lemma {:induction false} RunMore(pair: Pair, ops: seq<Op>, op: Op)
    requires Together(pair) && ValidOps(ops) && ValidOp(op)
    ensures ValidOps(ops + [op]) && Run(pair, ops + [op]) == Step(Run(pair, ops), op)
    ensures Together(Step(Run(pair, ops), op))
  {
    RunTogether(pair, ops);
    StepTogether(Run(pair, ops), op);
    assert (ops + [op])[..|ops|] == ops;
  }

  lemma {:induction false} RunThree(pair: Pair, a: Op, b: Op, c: Op)
    requires Together(pair) && ValidOp(a) && ValidOp(b) && ValidOp(c)
    ensures ValidOps([a, b, c]) && Together(Step(pair, a)) && Together(Step(Step(pair, a), b))
    ensures Run(pair, [a, b, c]) == Step(Step(Step(pair, a), b), c)
  {
    RunOne(pair, a);
    RunMore(pair, [a], b);
    RunMore(pair, [a, b], c);
    assert [a] + [b] == [a, b] && [a, b] + [c] == [a, b, c];
  }

  lemma {:induction false} AfterPrelude(l: ProxyLimits, clockMax: nat, eventLimit: nat) returns (before: Pair)
    requires Spacious(l, clockMax) && 0 < eventLimit <= J.ABSOLUTE_MAX_EVENTS
    ensures Together(Start(l, clockMax, eventLimit)) && ValidOps(Prelude(l))
    ensures before == Run(Start(l, clockMax, eventLimit), Prelude(l)) && before.journal.lastSequence <= 3
    ensures Together(before)
    ensures before.proxy.open && before.proxy.limits == l && before.proxy.server == EnterLane(EMPTY_LANE, Stray())
    ensures Unsigned(5) in before.proxy.client.requests && before.proxy.client.requests[Unsigned(5)].Pending?
    ensures before.proxy.unmatched == 1 && before.proxy.lastTime == Some(0)
  {
    var start, a, b := Start(l, clockMax, eventLimit), Offered(l, Stray()), Offered(l, Question());
    var c := ReleaseOp(ClientToServer, 0);
    StartTogether(l, clockMax, eventLimit);
    var p := QuestionForwarded(l, clockMax);
    RunThree(start, a, b, c);
    before := ThreeSteps(start, a, b, c, p, l, clockMax);
    StepTogether(Step(Step(start, a), b), c);
  }

  lemma {:induction false} AdmitTaken(pair: Pair, candidate: Candidate, q: Proxy)
    requires Together(pair) && pair.journal.lastSequence < U64_MAX && ValidFrame(candidate.frame)
    requires Admit(pair.proxy, candidate) == Ok(q)
    ensures var next := Step(pair, AdmitOp(candidate));
            next.proxy == q && next.journal.lastSequence <= pair.journal.lastSequence + 1
  {
  }

  lemma {:induction false} ReleaseTaken(pair: Pair, d: Direction, now: nat, q: Proxy, f: Frame)
    requires Together(pair) && pair.journal.lastSequence < U64_MAX && Releasable(pair.proxy, d)
    requires Release(pair.proxy, d, now) == Ok(Released(q, Some(f)))
    ensures var next := Step(pair, ReleaseOp(d, now));
            next.proxy == q && next.journal.lastSequence <= pair.journal.lastSequence + 1
  {
  }

  lemma {:induction false} ThreeSteps(start: Pair, a: Op, b: Op, c: Op, p: Proxy, l: ProxyLimits, clockMax: nat)
      returns (before: Pair)
    requires ValidFrame(Stray()) && ValidFrame(Question())
    requires a == Offered(l, Stray()) && b == Offered(l, Question()) && c == ReleaseOp(ClientToServer, 0)
    requires Together(start) && Together(Step(start, a)) && Together(Step(Step(start, a), b))
    requires start.proxy == Initial(l, clockMax) && start.journal.lastSequence == 0
    requires Admit(start.proxy, a.candidate) == Ok(StrayQueued(l, clockMax))
    requires Admit(StrayQueued(l, clockMax), b.candidate) == Ok(QuestionQueued(l, clockMax))
    requires Releasable(QuestionQueued(l, clockMax), ClientToServer)
    requires Release(QuestionQueued(l, clockMax), ClientToServer, 0) == Ok(Released(p, Some(Question())))
    ensures before == Step(Step(Step(start, a), b), c) && before.proxy == p && before.journal.lastSequence <= 3
  {
    AdmitTaken(start, a.candidate, StrayQueued(l, clockMax));
    AdmitTaken(Step(start, a), b.candidate, QuestionQueued(l, clockMax));
    ReleaseTaken(Step(Step(start, a), b), ClientToServer, 0, p, Question());
    before := Step(Step(Step(start, a), b), c);
  }

  /** Of two queued responses to one identity the first takes the token of the second. */
  lemma {:induction false} FirstTakesToken(before: Pair, candidate: Candidate, now: nat)
    requires Completes(before, candidate)
    requires var c := CompletionOf(before, candidate); Forwards(After(before, candidate), c.direction, c.id, now)
    ensures var c := CompletionOf(before, candidate);
            ForwardsWith(After(before, candidate), c.direction, now, Some(c.token))
  {
    TokenGoesToFirstAnswer(before, candidate, [], now);
  }

  lemma {:induction false} SecondGoesWithout(before: Pair, candidate: Candidate, first: nat, now: nat)
    requires Completes(before, candidate)
    requires var c := CompletionOf(before, candidate);
             && |c.line| == 2 && Answers(c.line[0], c.id)
             && Leaving(After(before, candidate), ReleaseOp(c.direction, first), c.direction) == 1
             && Forwards(Step(After(before, candidate), ReleaseOp(c.direction, first)), c.direction, c.id, now)
    ensures var c := CompletionOf(before, candidate);
            ForwardsWith(Step(After(before, candidate), ReleaseOp(c.direction, first)), c.direction, now, None)
  {
    var c := CompletionOf(before, candidate);
    RunOne(After(before, candidate), ReleaseOp(c.direction, first));
    TokenGoesToFirstAnswer(before, candidate, [ReleaseOp(c.direction, first)], now);
    assert c.line[..1][0] == c.line[0];
  }

  lemma {:induction false} ReplyAccepted(before: Pair, l: ProxyLimits) returns (after: Pair, c: Completion)
    requires Together(before) && before.journal.lastSequence <= 3 && before.proxy.lastTime == Some(0)
    requires before.proxy.open && before.proxy.limits == l && before.proxy.server == EnterLane(EMPTY_LANE, Stray())
    requires before.proxy.unmatched == 1 && l.toClient.messages >= 2 && l.toClient.bytes >= 2
    requires Unsigned(5) in before.proxy.client.requests && before.proxy.client.requests[Unsigned(5)].Pending?
    ensures Completes(before, Candidate(l, Reply())) && after == After(before, Candidate(l, Reply()))
    ensures c == CompletionOf(before, Candidate(l, Reply())) && c.direction == ServerToClient && c.id == Unsigned(5)
    ensures c.line == [Stray(), Reply()] == after.proxy.server.queue.frames
    ensures AcceptedWith(after, Reply().observation, Some(c.token))
    ensures after.journal.lastSequence <= 4 && after.proxy.server.forwarded == 0 && after.proxy.lastTime == Some(0)
  {
    var candidate := Candidate(l, Reply());
    ReplyCompletes(before.proxy, l);
    after, c := After(before, candidate), CompletionOf(before, candidate);
    AcceptanceStartsWatch(before, candidate);
    AdmitTaken(before, candidate, Admit(before.proxy, candidate).value);
    assert c.line == [Stray()] + [Reply()];
  }

  /** The stray response, accepted without a token, is forwarded with the token the reply was accepted with,
      and the reply is forwarded without one. */
  lemma {:induction false} TokenChangesHands(l: ProxyLimits, clockMax: nat, eventLimit: nat)
      returns (before: Pair, after: Pair, next: Pair, token: nat)
    requires Spacious(l, clockMax) && 0 < eventLimit <= J.ABSOLUTE_MAX_EVENTS
    ensures Together(Start(l, clockMax, eventLimit)) && ValidOps(Prelude(l))
    ensures before == Run(Start(l, clockMax, eventLimit), Prelude(l))
    ensures Completes(before, Candidate(l, Reply())) && after == After(before, Candidate(l, Reply()))
    ensures AcceptedWith(after, Reply().observation, Some(token))
    ensures after.proxy.server.queue.frames == [Stray(), Reply()]
    ensures ForwardsWith(after, ServerToClient, 1, Some(token))
    ensures next == Step(after, ReleaseOp(ServerToClient, 1))
    ensures next.proxy.server.queue.frames == [Reply()] && Inv(next.proxy)
    ensures ForwardsWith(next, ServerToClient, 2, None)
  {
    before := AfterPrelude(l, clockMax, eventLimit);
    var c;
    after, c := ReplyAccepted(before, l);
    token, next := c.token, Step(after, ReleaseOp(ServerToClient, 1));
    FrontLeaves(after, ServerToClient, 1);
    FirstTakesToken(before, Candidate(l, Reply()), 1);
    StepTogether(after, ReleaseOp(ServerToClient, 1));
    FrontLeaves(next, ServerToClient, 2);
    SecondGoesWithout(before, Candidate(l, Reply()), 1, 2);
  }

  lemma {:induction false} ReplyCompletes(p: Proxy, l: ProxyLimits)
    requires p.open && p.limits == l && p.server == EnterLane(EMPTY_LANE, Stray()) && p.unmatched == 1
    requires l.toClient.messages >= 2 && l.toClient.bytes >= 2
    requires Unsigned(5) in p.client.requests && p.client.requests[Unsigned(5)].Pending?
    ensures ValidFrame(Reply()) && Correlate(p, Reply().observation) == Ok(Complete)
    ensures Admit(p, Candidate(l, Reply())).Ok?
    ensures var q := Admit(p, Candidate(l, Reply())).value;
            q.server.queue.frames == [Stray(), Reply()] && q.server.forwarded == 0 && q.lastTime == p.lastTime
  {
  }

  lemma {:induction false} FrontLeaves(pair: Pair, d: Direction, now: nat)
    requires Inv(pair.proxy) && pair.proxy.At(d).queue.frames != [] && pair.proxy.At(d).forwarded < U64_MAX
    requires !pair.proxy.At(d).queue.frames[0].observation.kind.Request? && !ClockMovedBack(pair.proxy, now)
    ensures Leaving(pair, ReleaseOp(d, now), d) == 1
    ensures Step(pair, ReleaseOp(d, now)).proxy.At(d).queue.frames == pair.proxy.At(d).queue.frames[1..]
    ensures Step(pair, ReleaseOp(d, now)).proxy.At(d).forwarded == pair.proxy.At(d).forwarded + 1
    ensures Step(pair, ReleaseOp(d, now)).proxy.lastTime == Some(now)
    ensures Step(pair, ReleaseOp(d, now)).journal.lastSequence <= pair.journal.lastSequence + 1
  {
    AlwaysReleasable(pair.proxy, d);
  }
}
