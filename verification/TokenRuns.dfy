/** Which forwarded response carries the token of an accepted one, over every coupled run. */
module TokenRuns {
  import opened Basics
  import opened Messages
  import opened ProxyModel
  import opened ProxyInvariant
  import opened Coupling
  import opened CoupledRuns
  import J = JournalModel

  /** A response to this identity. */
  predicate Answers(f: Frame, id: RequestId) {
    f.observation.kind.IsResponse() && f.observation.id == Some(id)
  }

  predicate NoneAnswers(frames: seq<Frame>, id: RequestId) {
    forall i :: 0 <= i < |frames| ==> !Answers(frames[i], id)
  }

  /** A completing response: the direction it travels, the identity it answers, its token, and the queue it
      joined, itself last. */
  datatype Completion = Completion(direction: Direction, id: RequestId, token: nat, line: seq<Frame>) {
    function Origin(): Direction { direction.Opposite() }

    function Key(): CorrelationKey { KeyOf(Origin(), id) }

    /** After `n` frames have left, none of them could take the token. */
    predicate Waiting(n: nat) {
      n < |line| && NoneAnswers(line[..n], id)
    }
  }

  // ---- Correlations ------------------------------------------------------------------------------

  /** The token waits under the completion's key, or nothing does. */
  predicate Holds(c: J.Correlations, k: CorrelationKey, token: nat, waiting: bool) {
    if waiting then k in c.pending && c.pending[k] == token else k !in c.pending
  }

  lemma {:induction false} AcceptKeepsToken(c: J.Correlations, o: Observation, k: CorrelationKey, token: nat,
          waiting: bool)
    requires WellFormed(o) && J.NoteAccepted(c, o).Ok? && Holds(c, k, token, waiting)
    requires k !in c.active && (o.kind.Request? ==> J.RequestKey(o) != Some(k))
    ensures Holds(J.NoteAccepted(c, o).value.tokens, k, token, waiting)
  {
  }

  lemma {:induction false} ForwardKeepsToken(c: J.Correlations, o: Observation, k: CorrelationKey, token: nat,
          waiting: bool)
    requires WellFormed(o) && J.NoteForwarded(c, o).Ok? && Holds(c, k, token, waiting)
    ensures var taken := !o.kind.Request? && J.RequestKey(o) == Some(k);
            && Holds(J.NoteForwarded(c, o).value.tokens, k, token, waiting && !taken)
            && (taken ==> J.NoteForwarded(c, o).value.token == if waiting then Some(token) else None)
  {
  }

  lemma {:induction false} KeyAnswers(f: Frame, e: Direction, id: RequestId)
    requires WellFormed(f.observation)
    ensures !f.observation.kind.Request? && J.RequestKey(f.observation) == Some(KeyOf(e, id)) <==>
              Answers(f, id) && f.observation.direction.Opposite() == e
    ensures f.observation.kind.Request? && J.RequestKey(f.observation) == Some(KeyOf(e, id)) <==>
              f.observation.kind.Request? && f.observation.id == Some(id) && f.observation.direction == e
  {
    var o := f.observation;
    if J.RequestKey(o) == Some(KeyOf(e, id)) {
      KeyInjective(if o.kind.Request? then o.direction else o.direction.Opposite(), o.id.value, e, id);
    }
  }

  // ---- The watched state -------------------------------------------------------------------------

  /** `n` frames have left in the completion's direction since it was accepted. */
  ghost predicate Watched(pair: Pair, c: Completion, n: nat) {
    pair.proxy.open ==>
      && (n <= |c.line| ==> c.line[n..] <= pair.proxy.At(c.direction).queue.frames)
      && c.id in pair.proxy.At(c.Origin()).retired
      && Holds(pair.journal.tokens, c.Key(), c.token, c.Waiting(n))
  }

  lemma {:induction false} RetiredIsInactive(pair: Pair, d: Direction, id: RequestId)
    requires Together(pair) && pair.journal.lastSequence < U64_MAX && id in pair.proxy.At(d).retired
    ensures id !in pair.proxy.At(d).requests && KeyOf(d, id) !in pair.journal.tokens.active
  {
    LaneInvAt(pair.proxy, d);
    CoupledAt(pair.proxy, pair.journal.tokens, d);
    ActiveMeansTracked(pair.proxy.At(d), d, pair.journal.tokens, id);
  }

  /** What an admission does to the lanes a completion looks at. */
  lemma {:induction false} AdmitLanes(p: Proxy, c: Candidate, d: Direction)
    requires ValidFrame(c.frame) && Admit(p, c).Ok?
    ensures var q := Admit(p, c).value;
            && p.At(d).queue.frames <= q.At(d).queue.frames
            && p.At(d).retired <= q.At(d).retired && q.open == p.open
    ensures c.frame.observation.kind.Request? && c.frame.observation.direction == d ==>
              c.frame.observation.id.value !in p.At(d).retired
  {
  }

  lemma {:induction false} AdmitWatched(pair: Pair, candidate: Candidate, c: Completion, n: nat)
    requires Together(pair) && ValidFrame(candidate.frame) && Watched(pair, c, n)
    requires pair.journal.lastSequence < U64_MAX
    ensures Watched(Step(pair, AdmitOp(candidate)), c, n)
  {
    var p, j, f := pair.proxy, pair.journal, candidate.frame;
    if Admit(p, candidate).Ok? && p.open {
      AdmitLanes(p, candidate, c.direction);
      AdmitLanes(p, candidate, c.Origin());
      AdmitCoupled(p, j.tokens, f, Correlate(p, f.observation).value);
      RetiredIsInactive(pair, c.Origin(), c.id);
      KeyAnswers(f, c.Origin(), c.id);
      AcceptKeepsToken(j.tokens, f.observation, c.Key(), c.token, c.Waiting(n));
    }
  }

  /** How many frames a step releases in one direction. */
  ghost function Leaving(pair: Pair, op: Op, d: Direction): nat
    requires Inv(pair.proxy)
  {
    if !op.ReleaseOp? || op.direction != d then 0 else
      AlwaysReleasable(pair.proxy, d);
      var r := Release(pair.proxy, d, op.releasedAt);
      if r.Ok? && r.value.frame.Some? then 1 else 0
  }

  lemma {:induction false} ReleaseLanes(p: Proxy, d: Direction, now: nat)
    requires Inv(p) && Releasable(p, d) && Release(p, d, now).Ok? && Release(p, d, now).value.frame.Some?
    ensures var f, q := Release(p, d, now).value.frame.value, Release(p, d, now).value.proxy;
            && ValidFrame(f) && f.observation.direction == d
            && p.At(d).queue.frames == [f] + q.At(d).queue.frames
            && q.At(d).retired == p.At(d).retired && q.At(d.Opposite()) == p.At(d.Opposite()) && q.open == p.open
  {
    LaneInvAt(p, d);
    FrontReady(p.At(d), d, p.QueueLimitsAt(d), p.lastTime, p.limits.requestTimeout);
  }

  lemma {:induction false} WaitingNext(c: Completion, n: nat)
    requires c.line != [] && Answers(c.line[|c.line| - 1], c.id)
    ensures c.Waiting(n + 1) <==> c.Waiting(n) && !Answers(c.line[n], c.id)
  {
    if n + 1 < |c.line| {
      assert c.line[..n + 1] == c.line[..n] + [c.line[n]];
      assert NoneAnswers(c.line[..n + 1], c.id) <==> NoneAnswers(c.line[..n], c.id) && !Answers(c.line[n], c.id) by {
        if NoneAnswers(c.line[..n + 1], c.id) {
          forall i | 0 <= i < n ensures !Answers(c.line[..n][i], c.id) {
            assert c.line[..n + 1][i] == c.line[..n][i];
          }
          assert c.line[..n + 1][n] == c.line[n];
        }
      }
    }
  }

  /** The last frame of a completion's queue is the completing response. */
  predicate IsCompletion(c: Completion) {
    c.line != [] && Answers(c.line[|c.line| - 1], c.id)
  }

  lemma {:induction false} QueueNext(line: seq<Frame>, n: nat, f: Frame, rest: seq<Frame>)
    requires n <= |line| ==> line[n..] <= [f] + rest
    ensures n + 1 <= |line| ==> line[n] == f && line[n + 1..] <= rest
  {
    if n < |line| {
      assert line[n..] == [line[n]] + line[n + 1..];
      assert ([f] + rest)[1..] == rest && line[n..][1..] == line[n + 1..];
    }
  }

  /** A release that yields a frame, as a step of the pair. */
  lemma {:induction false} ReleaseShape(pair: Pair, d: Direction, now: nat) returns (f: Frame, q: Proxy)
    requires Together(pair) && pair.journal.lastSequence < U64_MAX && Leaving(pair, ReleaseOp(d, now), d) == 1
    ensures ValidFrame(f) && f.observation.direction == d && pair.proxy.open && q.open
    ensures pair.proxy.At(d).queue.frames == [f] + q.At(d).queue.frames
    ensures q.At(d).retired == pair.proxy.At(d).retired && q.At(d.Opposite()) == pair.proxy.At(d.Opposite())
    ensures J.NoteForwarded(pair.journal.tokens, f.observation).Ok?
    ensures Step(pair, ReleaseOp(d, now)) == Pair(q, J.RecordForwarded(pair.journal, f.observation).value, pair.errors)
  {
    AlwaysReleasable(pair.proxy, d);
    ReleaseLanes(pair.proxy, d, now);
    f, q := Release(pair.proxy, d, now).value.frame.value, Release(pair.proxy, d, now).value.proxy;
    LaneInvAt(pair.proxy, d);
    ReleaseCoupled(pair.proxy, pair.journal.tokens, d, now);
  }

  /** A release in the completion's direction: it forwards the token iff it is the first answer to leave. */
  lemma {:induction false} ReleaseTakes(pair: Pair, now: nat, c: Completion, n: nat) returns (f: Frame)
    requires Together(pair) && IsCompletion(c) && Watched(pair, c, n) && pair.journal.lastSequence < U64_MAX
    requires Leaving(pair, ReleaseOp(c.direction, now), c.direction) == 1
    ensures Watched(Step(pair, ReleaseOp(c.direction, now)), c, n + 1)
    ensures [f] <= pair.proxy.At(c.direction).queue.frames && (n < |c.line| ==> f == c.line[n])
    ensures WellFormed(f.observation) && J.NoteForwarded(pair.journal.tokens, f.observation).Ok?
    ensures Step(pair, ReleaseOp(c.direction, now)).journal == J.RecordForwarded(pair.journal, f.observation).value
    ensures Answers(f, c.id) ==>
              J.NoteForwarded(pair.journal.tokens, f.observation).value.token ==
              if c.Waiting(n) then Some(c.token) else None
  {
    var q;
    f, q := ReleaseShape(pair, c.direction, now);
    QueueNext(c.line, n, f, q.At(c.direction).queue.frames);
    KeyAnswers(f, c.Origin(), c.id);
    ForwardKeepsToken(pair.journal.tokens, f.observation, c.Key(), c.token, c.Waiting(n));
    WaitingNext(c, n);
  }

  /** A release in the other direction leaves the token where it is. */
  lemma {:induction false} ReleaseElsewhere(pair: Pair, d: Direction, now: nat, c: Completion, n: nat)
    requires Together(pair) && Watched(pair, c, n) && pair.journal.lastSequence < U64_MAX
    requires Leaving(pair, ReleaseOp(d, now), c.direction) == 0
    ensures Watched(Step(pair, ReleaseOp(d, now)), c, n)
  {
    if Leaving(pair, ReleaseOp(d, now), d) == 1 {
      var f, q := ReleaseShape(pair, d, now);
      KeyAnswers(f, c.Origin(), c.id);
      ForwardKeepsToken(pair.journal.tokens, f.observation, c.Key(), c.token, c.Waiting(n));
    } else {
      AlwaysReleasable(pair.proxy, d);
    }
  }

  lemma {:induction false} RecordAllKeepsPending(pair: Pair, expired: seq<Expired>)
    ensures RecordAll(pair, expired).journal.tokens.pending == pair.journal.tokens.pending
    ensures RecordAll(pair, expired).proxy == pair.proxy
    ensures RecordAll(pair, expired).journal.lastSequence >= pair.journal.lastSequence
    decreases |expired|
  {
    if expired != [] {
      var r := J.RecordExpired(pair.journal, expired[0].origin, expired[0].id);
      if r.Ok? { RecordAllKeepsPending(Record(pair.journal, pair.errors, r, pair.proxy), expired[1..]); }
    }
  }

  lemma {:induction false} ExpireWatched(pair: Pair, now: nat, c: Completion, n: nat)
    requires Together(pair) && Watched(pair, c, n)
    ensures Watched(Step(pair, ExpireOp(now)), c, n)
    ensures Step(pair, ExpireOp(now)).journal.lastSequence >= pair.journal.lastSequence
  {
    if Expire(pair.proxy, now).Ok? {
      RecordAllKeepsPending(pair.(proxy := AfterExpiry(pair.proxy, now)), Due(pair.proxy, now));
    }
  }

  lemma {:induction false} SequenceGrows(pair: Pair, op: Op)
    requires Together(pair) && ValidOp(op)
    ensures Step(pair, op).journal.lastSequence >= pair.journal.lastSequence
  {
    match op
    case AdmitOp(candidate) => AdmitGrows(pair, candidate);
    case ReleaseOp(d, now) => ReleaseGrows(pair, d, now);
    case ExpireOp(now) =>
      if Expire(pair.proxy, now).Ok? {
        RecordAllKeepsPending(pair.(proxy := AfterExpiry(pair.proxy, now)), Due(pair.proxy, now));
      }
    case _ =>
  }

  lemma {:induction false} AdmitGrows(pair: Pair, candidate: Candidate)
    requires Inv(pair.proxy) && ValidFrame(candidate.frame)
    ensures Step(pair, AdmitOp(candidate)).journal.lastSequence >= pair.journal.lastSequence
  {
  }

  lemma {:induction false} ReleaseGrows(pair: Pair, d: Direction, now: nat)
    requires Inv(pair.proxy)
    ensures Step(pair, ReleaseOp(d, now)).journal.lastSequence >= pair.journal.lastSequence
  {
  }

  /** Steps that touch neither queues nor correlations, and closure. */
  lemma {:induction false} OtherWatched(pair: Pair, op: Op, c: Completion, n: nat)
    requires Together(pair) && ValidOp(op) && (op.BlockOp? || op.PullOp? || op.CloseOp?) && Watched(pair, c, n)
    ensures Watched(Step(pair, op), c, n)
  {
    var next := Step(pair, op);
    if !op.CloseOp? {
      assert next.proxy == pair.proxy && next.journal.tokens == pair.journal.tokens;
    }
  }

  lemma {:induction false} ReleaseWatched(pair: Pair, d: Direction, now: nat, c: Completion, n: nat)
    requires Together(pair) && IsCompletion(c) && Watched(pair, c, n) && pair.journal.lastSequence < U64_MAX
    ensures Watched(Step(pair, ReleaseOp(d, now)), c, n + Leaving(pair, ReleaseOp(d, now), c.direction))
  {
    if Leaving(pair, ReleaseOp(d, now), c.direction) == 1 {
      var f := ReleaseTakes(pair, now, c, n);
    } else {
      ReleaseElsewhere(pair, d, now, c, n);
    }
  }

  lemma {:induction false} StepWatched(pair: Pair, op: Op, c: Completion, n: nat)
    requires Together(pair) && ValidOp(op) && IsCompletion(c) && Watched(pair, c, n)
    requires pair.journal.lastSequence < U64_MAX
    ensures Watched(Step(pair, op), c, n + Leaving(pair, op, c.direction))
  {
    match op
    case AdmitOp(candidate) => AdmitWatched(pair, candidate, c, n);
    case ReleaseOp(d, now) => ReleaseWatched(pair, d, now, c, n);
    case ExpireOp(now) => ExpireWatched(pair, now, c, n);
    case _ => OtherWatched(pair, op, c, n);
  }

  // ---- Whole runs --------------------------------------------------------------------------------

  /** How many frames leave in one direction during a run. */
  ghost function Left(pair: Pair, ops: seq<Op>, d: Direction): nat
    requires Inv(pair.proxy) && ValidOps(ops)
    decreases |ops|
  {
    if ops == [] then 0 else
      Left(pair, ops[..|ops| - 1], d) + Leaving(Run(pair, ops[..|ops| - 1]), ops[|ops| - 1], d)
  }

  lemma {:induction false} RunWatched(pair: Pair, ops: seq<Op>, c: Completion)
    requires Together(pair) && ValidOps(ops) && IsCompletion(c) && Watched(pair, c, 0)
    requires Run(pair, ops).journal.lastSequence < U64_MAX
    ensures Watched(Run(pair, ops), c, Left(pair, ops, c.direction))
    decreases |ops|
  {
    if ops != [] {
      var front, op := ops[..|ops| - 1], ops[|ops| - 1];
      RunTogether(pair, front);
      SequenceGrows(Run(pair, front), op);
      RunWatched(pair, front, c);
      StepWatched(Run(pair, front), op, c, Left(pair, front, c.direction));
    }
  }

  // ---- Acceptance and forwarding -----------------------------------------------------------------

  /** The newest event of a journal that has just recorded one. */
  function Newest(j: J.Journal): J.Detail
    requires j.events != []
  {
    j.events[|j.events| - 1].detail
  }

  /** The admission completes a request, and the journal has room to record it. */
  ghost predicate Completes(before: Pair, candidate: Candidate) {
    var f := candidate.frame;
    && Together(before) && before.journal.lastSequence < U64_MAX && ValidFrame(f)
    && Admit(before.proxy, candidate).Ok? && Correlate(before.proxy, f.observation) == Ok(Complete)
  }

  lemma {:induction false} CompletionFacts(before: Pair, candidate: Candidate)
    requires Completes(before, candidate)
    ensures var o := candidate.frame.observation;
            && before.proxy.open && o.kind.IsResponse() && o.id.Some?
            && KeyOf(o.direction.Opposite(), o.id.value) in before.journal.tokens.active
            && J.RequestKey(o) == Some(KeyOf(o.direction.Opposite(), o.id.value))
  {
    var o := candidate.frame.observation;
    CoupledAt(before.proxy, before.journal.tokens, o.direction);
    ActiveMeansTracked(before.proxy.At(o.direction.Opposite()), o.direction.Opposite(), before.journal.tokens,
                       o.id.value);
  }

  ghost function CompletionOf(before: Pair, candidate: Candidate): Completion
    requires Completes(before, candidate)
  {
    CompletionFacts(before, candidate);
    var o := candidate.frame.observation;
    Completion(o.direction, o.id.value, before.journal.tokens.active[KeyOf(o.direction.Opposite(), o.id.value)],
               before.proxy.At(o.direction).queue.frames + [candidate.frame])
  }

  lemma {:induction false} CompletionEnters(p: Proxy, candidate: Candidate)
    requires ValidFrame(candidate.frame) && Admit(p, candidate).Ok?
    requires Correlate(p, candidate.frame.observation) == Ok(Complete)
    ensures var q, o := Admit(p, candidate).value, candidate.frame.observation;
            && q.At(o.direction).queue.frames == p.At(o.direction).queue.frames + [candidate.frame]
            && o.id.value in q.At(o.direction.Opposite()).retired
  {
  }

  /** Accepting a completing response records its token and leaves the token waiting. */
  lemma {:induction false} AcceptanceStartsWatch(before: Pair, candidate: Candidate)
    requires Completes(before, candidate)
    ensures var c, after := CompletionOf(before, candidate), Step(before, AdmitOp(candidate));
            && IsCompletion(c) && Watched(after, c, 0)
            && after.journal.events != []
            && Newest(after.journal) == J.Redacted(J.Accepted, candidate.frame.observation, Some(c.token), None)
  {
    var c, o := CompletionOf(before, candidate), candidate.frame.observation;
    CompletionFacts(before, candidate);
    CompletionEnters(before.proxy, candidate);
    assert c.line[0..] == c.line && c.line[..0] == [];
    var after := Step(before, AdmitOp(candidate));
    assert after.journal == J.RecordAccepted(before.journal, o).value;
  }

  /** The pair after accepting a completing response. */
  ghost function After(before: Pair, candidate: Candidate): (after: Pair)
    requires Completes(before, candidate)
    ensures Together(after) && after == Step(before, AdmitOp(candidate))
  {
    StepTogether(before, AdmitOp(candidate));
    Step(before, AdmitOp(candidate))
  }

  /** What that acceptance recorded. */
  ghost predicate AcceptedWith(after: Pair, o: Observation, token: Option<nat>) {
    after.journal.events != [] && Newest(after.journal) == J.Redacted(J.Accepted, o, token, None)
  }

  /** The next frame in this direction is a response to the identity, and its release can be recorded. */
  ghost predicate Forwards(last: Pair, d: Direction, id: RequestId, now: nat) {
    && Together(last) && last.journal.lastSequence < U64_MAX
    && Leaving(last, ReleaseOp(d, now), d) == 1
    && last.proxy.At(d).queue.frames != [] && Answers(last.proxy.At(d).queue.frames[0], id)
  }

  /** What that release records. */
  ghost predicate ForwardsWith(last: Pair, d: Direction, now: nat, token: Option<nat>)
    requires Inv(last.proxy) && last.proxy.At(d).queue.frames != []
  {
    var next := Step(last, ReleaseOp(d, now)).journal;
    && next.events != []
    && Newest(next) == J.Redacted(J.Forwarded, last.proxy.At(d).queue.frames[0].observation, token, None)
  }

  lemma {:induction false} ForwardedEvent(j: J.Journal, o: Observation, token: Option<nat>)
    requires WellFormed(o) && j.lastSequence < U64_MAX && J.NoteForwarded(j.tokens, o).Ok?
    requires J.NoteForwarded(j.tokens, o).value.token == token
    ensures var next := J.RecordForwarded(j, o).value;
            next.events != [] && Newest(next) == J.Redacted(J.Forwarded, o, token, None)
  {
  }

  /** Whatever happens after a completing response is accepted: its token is forwarded by the first response to
      that identity among the frames queued at acceptance, itself included, and by no other response. */
  lemma {:induction false} TokenGoesToFirstAnswer(before: Pair, candidate: Candidate, ops: seq<Op>, now: nat)
    requires Completes(before, candidate) && ValidOps(ops)
    requires var c := CompletionOf(before, candidate);
             Forwards(Run(After(before, candidate), ops), c.direction, c.id, now)
    ensures var c, after := CompletionOf(before, candidate), After(before, candidate);
            var last, n := Run(after, ops), Left(after, ops, c.direction);
            && (n < |c.line| ==> last.proxy.At(c.direction).queue.frames[0] == c.line[n])
            && ForwardsWith(last, c.direction, now, if c.Waiting(n) then Some(c.token) else None)
  {
    var c, after := CompletionOf(before, candidate), After(before, candidate);
    var last, n := Run(after, ops), Left(after, ops, c.direction);
    AcceptanceStartsWatch(before, candidate);
    RunWatched(after, ops, c);
    var f := ReleaseTakes(last, now, c, n);
    ForwardedEvent(last.journal, f.observation, if c.Waiting(n) then Some(c.token) else None);
  }

  /** An accepted response is forwarded with its own token iff, when it was accepted, no response to the same
      identity was queued ahead of it. */
  lemma {:induction false} ForwardedWithOwnToken(before: Pair, candidate: Candidate, ops: seq<Op>, now: nat)
    requires Completes(before, candidate) && ValidOps(ops)
    requires var c := CompletionOf(before, candidate);
             && Forwards(Run(After(before, candidate), ops), c.direction, c.id, now)
             && Left(After(before, candidate), ops, c.direction) == |c.line| - 1
    ensures var c, after := CompletionOf(before, candidate), After(before, candidate);
            var last := Run(after, ops);
            && AcceptedWith(after, candidate.frame.observation, Some(c.token))
            && last.proxy.At(c.direction).queue.frames[0] == candidate.frame
            && (ForwardsWith(last, c.direction, now, Some(c.token)) <==>
                  NoneAnswers(before.proxy.At(c.direction).queue.frames, c.id))
            && (ForwardsWith(last, c.direction, now, None) <==>
                  !NoneAnswers(before.proxy.At(c.direction).queue.frames, c.id))
  {
    var c := CompletionOf(before, candidate);
    AcceptanceStartsWatch(before, candidate);
    TokenGoesToFirstAnswer(before, candidate, ops, now);
    assert c.line[..|c.line| - 1] == before.proxy.At(c.direction).queue.frames;
  }
}
