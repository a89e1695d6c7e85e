/** Runs of proxy and journal together, in the order in which the session calls them. */
module CoupledRuns {
  import opened Basics
  import opened Messages
  import opened ProxyModel
  import opened ProxyInvariant
  import opened Coupling
  import J = JournalModel

  /** `errors` collects every error a recording call has ever returned. */
  datatype Pair = Pair(proxy: Proxy, journal: J.Journal, errors: set<J.ControlError>)

  datatype Op =
    | AdmitOp(candidate: Candidate)
    | BlockOp(blocked: Observation, rule: nat)
    | ReleaseOp(direction: Direction, releasedAt: nat)
    | ExpireOp(expiredAt: nat)
    | PullOp
    | CloseOp

  predicate ValidOp(op: Op) {
    match op
    case AdmitOp(c) => ValidFrame(c.frame)
    case BlockOp(o, _) => WellFormed(o)
    case _ => true
  }

  ghost function Start(limits: ProxyLimits, clockMax: nat, eventLimit: nat): Pair {
    Pair(Initial(limits, clockMax), J.Empty(eventLimit), {})
  }

  /** The journal after one recording, and the error if it was refused. */
  function Record(journal: J.Journal, errors: set<J.ControlError>, r: Result<J.Journal, J.ControlError>,
          proxy: Proxy): Pair
  {
    if r.Ok? then Pair(proxy, r.value, errors) else Pair(proxy, journal, errors + {r.error})
  }

  /** Records expired requests one by one until one is refused. */
  ghost function RecordAll(pair: Pair, expired: seq<Expired>): Pair
    decreases |expired|
  {
    if expired == [] then pair else
      var r := J.RecordExpired(pair.journal, expired[0].origin, expired[0].id);
      if r.Err? then Record(pair.journal, pair.errors, r, pair.proxy)
      else RecordAll(Record(pair.journal, pair.errors, r, pair.proxy), expired[1..])
  }

  ghost function Step(pair: Pair, op: Op): Pair
    requires Inv(pair.proxy) && ValidOp(op)
  {
    match op
    case AdmitOp(c) =>
      var r := Admit(pair.proxy, c);
      if r.Err? then pair
      else Record(pair.journal, pair.errors, J.RecordAccepted(pair.journal, c.frame.observation), r.value)
    case BlockOp(o, rule) =>
      Record(pair.journal, pair.errors, J.RecordBlocked(pair.journal, o, rule), pair.proxy)
    case ReleaseOp(d, now) =>
      AlwaysReleasable(pair.proxy, d);
      var r := Release(pair.proxy, d, now);
      if r.Err? then pair
      else if r.value.frame.None? then pair.(proxy := r.value.proxy)
      else
        var f := r.value.frame.value;
        assert ValidFrame(f);
        Record(pair.journal, pair.errors, J.RecordForwarded(pair.journal, f.observation), r.value.proxy)
    case ExpireOp(now) =>
      var r := Expire(pair.proxy, now);
      if r.Err? then pair else RecordAll(pair.(proxy := r.value.proxy), r.value.requests)
    case PullOp => pair.(journal := J.Pull(pair.journal))
    case CloseOp => pair.(proxy := AfterClose(pair.proxy), journal := J.ClearCorrelations(pair.journal))
  }

  /** Coupled until the event sequence is exhausted; no recording is ever refused for another reason. */
  ghost predicate Together(pair: Pair) {
    && Inv(pair.proxy) && J.JournalInv(pair.journal)
    && (Coupled(pair.proxy, pair.journal.tokens) || pair.journal.lastSequence == U64_MAX)
    && pair.errors <= {J.EventSequenceOverflow}
  }

  lemma {:induction false} AdmitTogether(pair: Pair, c: Candidate)
    requires Together(pair) && ValidFrame(c.frame)
    ensures Together(Step(pair, AdmitOp(c)))
  {
    var p, j, o := pair.proxy, pair.journal, c.frame.observation;
    AdmitKeepsInv(p, c);
    if Admit(p, c).Ok? && j.lastSequence < U64_MAX {
      AdmitCoupled(p, j.tokens, c.frame, Correlate(p, o).value);
      J.AttemptKeepsInv(j, J.Accept(o));
    }
  }

  lemma {:induction false} ReleaseTogether(pair: Pair, d: Direction, now: nat)
    requires Together(pair)
    ensures Together(Step(pair, ReleaseOp(d, now)))
  {
    var p, j := pair.proxy, pair.journal;
    AlwaysReleasable(p, d);
    ReleaseKeepsInv(p, d, now);
    var r := Release(p, d, now);
    if r.Ok? && r.value.frame.Some? && j.lastSequence < U64_MAX {
      ReleaseCoupled(p, j.tokens, d, now);
      J.AttemptKeepsInv(j, J.Forward(r.value.frame.value.observation));
    }
  }

  lemma {:induction false} RecordAllTogether(pair: Pair, rest: seq<Expired>)
    requires Inv(pair.proxy) && J.JournalInv(pair.journal) && pair.errors <= {J.EventSequenceOverflow}
    requires Draining(pair.proxy, pair.journal.tokens, rest) || pair.journal.lastSequence == U64_MAX
    ensures Together(RecordAll(pair, rest)) && RecordAll(pair, rest).proxy == pair.proxy
    decreases |rest|
  {
    var j := pair.journal;
    if rest == [] {
      if Draining(pair.proxy, j.tokens, []) { DrainEnds(pair.proxy, j.tokens); }
    } else if j.lastSequence < U64_MAX {
      DrainStep(pair.proxy, j.tokens, rest);
      J.AttemptKeepsInv(j, J.Expire(rest[0].origin, rest[0].id));
      var r := J.RecordExpired(j, rest[0].origin, rest[0].id);
      RecordAllTogether(Record(j, pair.errors, r, pair.proxy), rest[1..]);
    }
  }

  lemma {:induction false} ExpiryDrains(p: Proxy, c: J.Correlations, now: nat) returns (q: Proxy, due: seq<Expired>)
    requires Inv(p) && Expire(p, now).Ok?
    ensures Expire(p, now) == Ok(Expiry(q, due)) && Inv(q)
    ensures Coupled(p, c) ==> Draining(q, c, due)
  {
    ExpireKeepsInv(p, now);
    if Coupled(p, c) { DrainStarts(p, c, now); }
    q, due := AfterExpiry(p, now), Due(p, now);
  }

  lemma {:induction false} ExpireTogether(pair: Pair, now: nat)
    requires Together(pair)
    ensures Together(Step(pair, ExpireOp(now)))
  {
    if Expire(pair.proxy, now).Ok? {
      var q, due := ExpiryDrains(pair.proxy, pair.journal.tokens, now);
      RecordAllTogether(pair.(proxy := q), due);
    }
  }

  lemma {:induction false} StepTogether(pair: Pair, op: Op)
    requires Together(pair) && ValidOp(op)
    ensures Together(Step(pair, op))
  {
    var j := pair.journal;
    match op
    case AdmitOp(c) => AdmitTogether(pair, c);
    case BlockOp(o, rule) =>
      if j.lastSequence < U64_MAX { J.AttemptKeepsInv(j, J.Block(o, rule)); }
    case ReleaseOp(d, now) => ReleaseTogether(pair, d, now);
    case ExpireOp(now) => ExpireTogether(pair, now);
    case PullOp => J.AttemptKeepsInv(j, J.PullOp);
    case CloseOp => CloseKeepsInv(pair.proxy); CloseCoupled(pair.proxy, j);
  }

  // ---- Whole runs --------------------------------------------------------------------------------

  lemma {:induction false} RecordAllKeepsProxy(pair: Pair, rest: seq<Expired>)
    ensures RecordAll(pair, rest).proxy == pair.proxy
    decreases |rest|
  {
    if rest != [] {
      var r := J.RecordExpired(pair.journal, rest[0].origin, rest[0].id);
      if r.Ok? { RecordAllKeepsProxy(Record(pair.journal, pair.errors, r, pair.proxy), rest[1..]); }
    }
  }

  lemma {:induction false} StepKeepsInv(pair: Pair, op: Op)
    requires Inv(pair.proxy) && ValidOp(op)
    ensures Inv(Step(pair, op).proxy)
  {
    match op
    case AdmitOp(c) => AdmitKeepsInv(pair.proxy, c);
    case BlockOp(o, rule) =>
    case ReleaseOp(d, now) => AlwaysReleasable(pair.proxy, d); ReleaseKeepsInv(pair.proxy, d, now);
    case ExpireOp(now) =>
      ExpireKeepsInv(pair.proxy, now);
      var r := Expire(pair.proxy, now);
      if r.Ok? { RecordAllKeepsProxy(pair.(proxy := r.value.proxy), r.value.requests); }
    case PullOp =>
    case CloseOp => CloseKeepsInv(pair.proxy);
  }

  ghost predicate ValidOps(ops: seq<Op>) {
    forall op :: op in ops ==> ValidOp(op)
  }

  ghost function Run(pair: Pair, ops: seq<Op>): (r: Pair)
    requires Inv(pair.proxy) && ValidOps(ops)
    ensures Inv(r.proxy)
    decreases |ops|
  {
    if ops == [] then pair else
      var before := Run(pair, ops[..|ops| - 1]);
      StepKeepsInv(before, ops[|ops| - 1]);
      Step(before, ops[|ops| - 1])
  }

  lemma {:induction false} RunTogether(pair: Pair, ops: seq<Op>)
    requires Together(pair) && ValidOps(ops)
    ensures Together(Run(pair, ops))
    decreases |ops|
  {
    if ops != [] {
      RunTogether(pair, ops[..|ops| - 1]);
      StepTogether(Run(pair, ops[..|ops| - 1]), ops[|ops| - 1]);
    }
  }

  /** Every run from a fresh proxy and journal. */
  lemma {:induction false} JournalNeverContradictsProxy(limits: ProxyLimits, clockMax: nat, eventLimit: nat,
          ops: seq<Op>)
    requires ValidProxyLimits(limits) && 0 < eventLimit <= J.ABSOLUTE_MAX_EVENTS && ValidOps(ops)
    ensures Together(Start(limits, clockMax, eventLimit)) && Together(Run(Start(limits, clockMax, eventLimit), ops))
  {
    var start := Start(limits, clockMax, eventLimit);
    InitialInv(limits, clockMax);
    CloseCoupled(start.proxy, start.journal);
    RunTogether(start, ops);
  }
}
