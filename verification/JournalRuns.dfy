/** What the journal keeps over every sequence of calls, in any order. */
module JournalRuns {
  import opened Basics
  import opened Messages
  import opened JournalModel

  /** A journal with everything that ever happened to it: events recorded, events pulled, and the
      correlation each token was issued for. */
  datatype World = World(journal: Journal, log: seq<Event>, pulled: seq<Event>, issued: seq<CorrelationKey>)

  function Start(limit: nat): World {
    World(Empty(limit), [], [], [])
  }

  ghost function Step(w: World, op: Op): World
    requires ValidOp(op)
  {
    var r := Attempt(w.journal, op);
    if r.Err? then w
    else if op.PullOp? then
      w.(journal := r.value, pulled := w.pulled + w.journal.events[..|w.journal.events| - |r.value.events|])
    else if op.ClearOp? then w.(journal := r.value)
    else
      World(r.value, w.log + r.value.events[|r.value.events| - 1..], w.pulled,
            w.issued + if op.Accept? && r.value.tokens.last > w.journal.tokens.last
                       then [RequestKey(op.accepted).value] else [])
  }

  ghost function Run(w: World, ops: seq<Op>): World
    requires forall op :: op in ops ==> ValidOp(op)
  {
    if ops == [] then w else Step(Run(w, ops[..|ops| - 1]), ops[|ops| - 1])
  }

  // ---- Sequence accounting ---------------------------------------------------------------

  function LastSeen(pulled: seq<Event>): nat {
    if pulled == [] then 0 else pulled[|pulled| - 1].sequence
  }

  /** Sequence numbers a puller never received, up to the last event it holds. */
  function Gaps(pulled: seq<Event>): int {
    if pulled == [] then 0
    else Gaps(pulled[..|pulled| - 1]) + pulled[|pulled| - 1].sequence - LastSeen(pulled[..|pulled| - 1]) - 1
  }

  /** Pulled events arrive in recording order, each one exactly as recorded. */
  predicate Genuine(pulled: seq<Event>, log: seq<Event>) {
    pulled == []
    || var e, rest := pulled[|pulled| - 1], pulled[..|pulled| - 1];
       Genuine(rest, log) && LastSeen(rest) < e.sequence <= |log| && log[e.sequence - 1] == e
  }

  ghost predicate SequenceBooks(w: World) {
    var j := w.journal;
    && |w.log| == j.lastSequence && Numbered(w.log, |w.log|)
    && |j.events| <= |w.log| && j.events == w.log[|w.log| - |j.events|..]
    && j.lastSequence == |w.pulled| + j.evicted + |j.events|
    && Genuine(w.pulled, w.log)
    && LastSeen(w.pulled) + |j.events| <= j.lastSequence
    && Gaps(w.pulled) + (j.lastSequence - |j.events| - LastSeen(w.pulled)) == j.evicted
  }

  lemma {:induction false} GenuineExtends(pulled: seq<Event>, log: seq<Event>, e: Event)
    requires Genuine(pulled, log)
    ensures Genuine(pulled, log + [e])
  {
    if pulled != [] { GenuineExtends(pulled[..|pulled| - 1], log, e); }
  }

  lemma {:induction false} PullKeepsBooks(w: World)
    requires JournalInv(w.journal) && SequenceBooks(w)
    ensures SequenceBooks(Step(w, PullOp))
  {
    var j := w.journal;
    if j.events == [] {
      assert Step(w, PullOp).pulled == w.pulled;
    } else {
      NumberedTail(j.events, j.lastSequence);
      PulledOne(w, j.events[0], Step(w, PullOp));
    }
  }

  lemma {:induction false} PulledOne(w: World, e: Event, w': World)
    requires SequenceBooks(w) && w.journal.events != [] && w.journal.events[0] == e
    requires e.sequence == w.journal.lastSequence - |w.journal.events| + 1
    requires w'.log == w.log && w'.pulled == w.pulled + [e]
    requires w'.journal == w.journal.(events := w.journal.events[1..])
    ensures SequenceBooks(w')
  {
    assert w'.pulled[..|w.pulled|] == w.pulled;
  }

  /** A successful recording appends one event, evicting the oldest at the ceiling. */
  ghost predicate Grew(w: World, e: Event, w': World) {
    var j, j' := w.journal, w'.journal;
    && 0 < j.limit && |j.events| <= j.limit
    && e.sequence == j.lastSequence + 1 == j'.lastSequence
    && w'.log == w.log + [e] && w'.pulled == w.pulled
    && j'.events == (if |j.events| == j.limit then j.events[1..] else j.events) + [e]
    && j'.evicted == j.evicted + (if |j.events| == j.limit then 1 else 0)
  }

  lemma {:induction false} RecordShape(w: World, op: Op) returns (e: Event)
    requires JournalInv(w.journal) && ValidOp(op) && Attempt(w.journal, op).Ok? && !op.PullOp? && !op.ClearOp?
    ensures Grew(w, e, Step(w, op)) && e.detail == DetailOf(w.journal.tokens, op)
  {
    var tokens := AttemptShape(w.journal, op);
    e := Event(w.journal.lastSequence + 1, DetailOf(w.journal.tokens, op));
  }

  lemma {:induction false} RecordKeepsBooks(w: World, e: Event, w': World)
    requires SequenceBooks(w) && Grew(w, e, w')
    ensures SequenceBooks(w')
  {
    assert w'.log[..|w.log|] == w.log;
    GenuineExtends(w.pulled, w.log, e);
  }

  // ---- Token accounting ------------------------------------------------------------------

  datatype Role = RequestAccepted | ResponseAccepted | ResponseForwarded | Expiration

  predicate Plays(detail: Detail, role: Role, token: nat) {
    match detail
    case Message(stage, _, kind, _, correlation, _, _) =>
      && correlation == Some(token)
      && match role {
           case RequestAccepted => stage.Accepted? && kind.Request?
           case ResponseAccepted => stage.Accepted? && kind.IsResponse()
           case ResponseForwarded => stage.Forwarded? && kind.IsResponse()
           case Expiration => false
         }
    case RequestExpired(_, t) => role.Expiration? && t == token
  }

  function Count(log: seq<Event>, role: Role, token: nat): nat {
    if log == [] then 0
    else Count(log[..|log| - 1], role, token) + if Plays(log[|log| - 1].detail, role, token) then 1 else 0
  }

  /** How often each role was played for each token. */
  type Tally = (Role, nat) -> nat

  ghost function TallyOf(log: seq<Event>): Tally {
    (role, token) => Count(log, role, token)
  }

  /** How often a token's request came to an end. */
  ghost function Ends(n: Tally, token: nat): nat {
    n(ResponseAccepted, token) + n(Expiration, token)
  }

  ghost predicate TokenBook(last: nat, n: Tally, token: nat) {
    && n(RequestAccepted, token) == (if 0 < token <= last then 1 else 0)
    && Ends(n, token) <= 1
    && n(ResponseForwarded, token) <= n(ResponseAccepted, token)
    && (token > last ==> Ends(n, token) == 0)
  }

  ghost predicate IssuedFor(m: map<CorrelationKey, nat>, issued: seq<CorrelationKey>) {
    forall k :: k in m ==> 0 < m[k] <= |issued| && issued[m[k] - 1] == k
  }

  ghost predicate TokenBooks(c: Correlations, n: Tally, issued: seq<CorrelationKey>) {
    && |issued| == c.last && IssuedFor(c.active, issued) && IssuedFor(c.pending, issued)
    && (forall t: nat :: TokenBook(c.last, n, t))
    && (forall k :: k in c.active ==> Ends(n, c.active[k]) == 0)
    && (forall k :: k in c.pending ==>
                      n(ResponseAccepted, c.pending[k]) == 1 && n(ResponseForwarded, c.pending[k]) == 0)
  }

  /** The one role an event plays, if it speaks about a token. */
  function Played(detail: Detail): Option<(Role, nat)> {
    match detail
    case Message(stage, _, kind, _, correlation, _, _) =>
      if correlation.None? || stage.Blocked? || kind.Notification? then None
      else if kind.Request? then if stage.Accepted? then Some((RequestAccepted, correlation.value)) else None
      else Some((if stage.Accepted? then ResponseAccepted else ResponseForwarded, correlation.value))
    case RequestExpired(_, t) => Some((Expiration, t))
  }

  /** `n'` is `n` after one more event. */
  ghost predicate Tallied(n: Tally, n': Tally, played: Option<(Role, nat)>) {
    forall r, t: nat :: n'(r, t) == n(r, t) + if played == Some((r, t)) then 1 else 0
  }

  lemma {:induction false} CountPush(log: seq<Event>, e: Event)
    ensures Tallied(TallyOf(log), TallyOf(log + [e]), Played(e.detail))
  {
    assert (log + [e])[..|log|] == log;
  }

  lemma {:induction false} UnrelatedKeepsTokens(c: Correlations, n: Tally, n': Tally, issued: seq<CorrelationKey>)
    requires TokenBooks(c, n, issued) && Tallied(n, n', None)
    ensures TokenBooks(c, n', issued)
  {
    forall t: nat ensures TokenBook(c.last, n', t) { assert TokenBook(c.last, n, t); }
  }

  lemma {:induction false} OpeningKeepsTokens(c: Correlations, n: Tally, n': Tally, issued: seq<CorrelationKey>,
          k: CorrelationKey)
    requires TokenBooks(c, n, issued) && Tallied(n, n', Some((RequestAccepted, c.last + 1)))
    ensures TokenBooks(c.(active := c.active[k := c.last + 1], last := c.last + 1), n', issued + [k])
  {
    var last := c.last + 1;
    assert TokenBook(c.last, n, last);
    forall t: nat ensures TokenBook(last, n', t) { assert TokenBook(c.last, n, t); }
  }

  lemma {:induction false} AnswerKeepsTokens(c: Correlations, n: Tally, n': Tally, issued: seq<CorrelationKey>,
          k: CorrelationKey)
    requires TokenBooks(c, n, issued) && TokensInv(c)
    requires k in c.active && Tallied(n, n', Some((ResponseAccepted, c.active[k])))
    ensures TokenBooks(c.(active := c.active - {k}, pending := c.pending[k := c.active[k]]), n', issued)
  {
    forall t: nat ensures TokenBook(c.last, n', t) {
      assert TokenBook(c.last, n, t);
      assert TokenBook(c.last, n, c.active[k]);
    }
    forall h | h in c.pending ensures c.pending[h] != c.active[k] { assert h != k; }
  }

  lemma {:induction false} DeliveryKeepsTokens(c: Correlations, n: Tally, n': Tally, issued: seq<CorrelationKey>,
          k: CorrelationKey)
    requires TokenBooks(c, n, issued)
    requires k in c.pending && Tallied(n, n', Some((ResponseForwarded, c.pending[k])))
    ensures TokenBooks(c.(pending := c.pending - {k}), n', issued)
  {
    forall t: nat ensures TokenBook(c.last, n', t) { assert TokenBook(c.last, n, t); }
  }

  lemma {:induction false} LapseKeepsTokens(c: Correlations, n: Tally, n': Tally, issued: seq<CorrelationKey>,
          k: CorrelationKey)
    requires TokenBooks(c, n, issued) && TokensInv(c)
    requires k in c.active && Tallied(n, n', Some((Expiration, c.active[k])))
    ensures TokenBooks(c.(active := c.active - {k}), n', issued)
  {
    forall t: nat ensures TokenBook(c.last, n', t) { assert TokenBook(c.last, n, t); }
  }

  lemma {:induction false} AcceptKeepsTokens(c: Correlations, o: Observation, noted: Noted, n: Tally, n': Tally,
          issued: seq<CorrelationKey>)
    requires TokenBooks(c, n, issued) && TokensInv(c)
    requires WellFormed(o) && NoteAccepted(c, o) == Ok(noted)
    requires Tallied(n, n', Played(Redacted(Accepted, o, noted.token, None)))
    ensures TokenBooks(noted.tokens, n', issued + if noted.tokens.last > c.last then [RequestKey(o).value] else [])
  {
    var key := RequestKey(o);
    assert issued + [] == issued;
    if key.None? || (!o.kind.Request? && key.value !in c.active) {
      UnrelatedKeepsTokens(c, n, n', issued);
    } else if o.kind.Request? {
      OpeningKeepsTokens(c, n, n', issued, key.value);
    } else {
      AnswerKeepsTokens(c, n, n', issued, key.value);
    }
  }

  lemma {:induction false} ForwardKeepsTokens(c: Correlations, o: Observation, noted: Noted, n: Tally, n': Tally,
          issued: seq<CorrelationKey>)
    requires TokenBooks(c, n, issued)
    requires WellFormed(o) && NoteForwarded(c, o) == Ok(noted)
    requires Tallied(n, n', Played(Redacted(Forwarded, o, noted.token, None)))
    ensures TokenBooks(noted.tokens, n', issued)
  {
    var key := RequestKey(o);
    if key.None? || o.kind.Request? || key.value !in c.pending {
      UnrelatedKeepsTokens(c, n, n', issued);
    } else {
      DeliveryKeepsTokens(c, n, n', issued, key.value);
    }
  }

  lemma {:induction false} RecordKeepsTokens(w: World, op: Op, e: Event)
    requires JournalInv(w.journal) && TokenBooks(w.journal.tokens, TallyOf(w.log), w.issued)
    requires ValidOp(op) && Attempt(w.journal, op).Ok? && !op.PullOp? && !op.ClearOp?
    requires Grew(w, e, Step(w, op)) && e.detail == DetailOf(w.journal.tokens, op)
    ensures var w' := Step(w, op); TokenBooks(w'.journal.tokens, TallyOf(w'.log), w'.issued)
  {
    var c, n, n' := w.journal.tokens, TallyOf(w.log), TallyOf(Step(w, op).log);
    CountPush(w.log, e);
    assert w.issued + [] == w.issued;
    match op
    case Accept(o) => AcceptKeepsTokens(c, o, NoteAccepted(c, o).value, n, n', w.issued);
    case Forward(o) => ForwardKeepsTokens(c, o, NoteForwarded(c, o).value, n, n', w.issued);
    case Block(_, _) => UnrelatedKeepsTokens(c, n, n', w.issued);
    case Expire(origin, id) => LapseKeepsTokens(c, n, n', w.issued, KeyOf(origin, id));
  }

  // ---- Every run -------------------------------------------------------------------------

  ghost predicate Books(w: World) {
    JournalInv(w.journal) && SequenceBooks(w) && TokenBooks(w.journal.tokens, TallyOf(w.log), w.issued)
  }

  lemma {:induction false} StepKeepsBooks(w: World, op: Op)
    requires Books(w) && ValidOp(op)
    ensures Books(Step(w, op))
  {
    if Attempt(w.journal, op).Ok? {
      AttemptKeepsInv(w.journal, op);
      if op.PullOp? {
        PullKeepsBooks(w);
      } else if !op.ClearOp? {
        var e := RecordShape(w, op);
        RecordKeepsBooks(w, e, Step(w, op));
        RecordKeepsTokens(w, op, e);
      }
    }
  }

  /** Whatever is called in whatever order: retained events are the newest recorded ones, the
      sequence counts pulled, evicted and retained events, a puller's gaps are the evictions, and
      every token stands for one request that ends at most once. */
  lemma {:induction false} RunsBalance(limit: nat, ops: seq<Op>)
    requires 0 < limit <= ABSOLUTE_MAX_EVENTS
    requires forall op :: op in ops ==> ValidOp(op)
    ensures Books(Run(Start(limit), ops))
  {
    if ops != [] {
      RunsBalance(limit, ops[..|ops| - 1]);
      StepKeepsBooks(Run(Start(limit), ops[..|ops| - 1]), ops[|ops| - 1]);
    }
  }
}
