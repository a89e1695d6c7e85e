/** The redacted session event journal as a value, and the history of every run over it. */
module JournalModel {
  import opened Basics
  import opened Digests
  import opened Messages

  const ABSOLUTE_MAX_EVENTS: nat := 65_536

  datatype ControlError =
    | InvalidMethod
    | EventSequenceOverflow
    | CorrelationSequenceOverflow
    | EventEvictionOverflow
    | InconsistentCorrelation
    | InconsistentEvents

  datatype Stage = Accepted | Forwarded | Blocked

  datatype Fingerprint = Fingerprint(digest: Digest, byteLength: nat)

  datatype Detail =
    | Message(stage: Stage, direction: Direction, kind: Kind, fingerprint: Option<Fingerprint>,
              correlation: Option<nat>, byteLength: nat, rule: Option<nat>)
    | RequestExpired(origin: Direction, token: nat)

  datatype Event = Event(sequence: nat, detail: Detail)

  /** Requests awaiting a response, and responses accepted but not yet forwarded. Tokens are
      numbered from one within a journal. */
  datatype Correlations = Correlations(
    active: map<CorrelationKey, nat>,
    pending: map<CorrelationKey, nat>,
    last: nat)

  datatype Journal = Journal(
    limit: nat,
    events: seq<Event>,
    evicted: nat,
    lastSequence: nat,
    tokens: Correlations)

  function Empty(limit: nat): Journal {
    Journal(limit, [], 0, 0, Correlations(map[], map[], 0))
  }

  function FingerprintOf(name: Text): Fingerprint {
    Fingerprint(Sha256(Ascii("weregopher.app-server-observed-method.v1\0") + name), |name|)
  }

  function Redacted(stage: Stage, o: Observation, correlation: Option<nat>, rule: Option<nat>): Detail {
    Message(stage, o.direction, o.kind, if o.name.Some? then Some(FingerprintOf(o.name.value)) else None,
            correlation, o.byteLength, rule)
  }

  /** The correlation a message speaks about: its own if a request, its origin's if a response. */
  function RequestKey(o: Observation): Option<CorrelationKey> {
    if o.id.None? || o.kind.Notification? then None
    else Some(KeyOf(if o.kind.Request? then o.direction else o.direction.Opposite(), o.id.value))
  }

  function Push(j: Journal, detail: Detail): Journal {
    var full := |j.events| == j.limit && j.events != [];
    j.(events := (if full then j.events[1..] else j.events) + [Event(j.lastSequence + 1, detail)],
       evicted := if full then j.evicted + 1 else j.evicted,
       lastSequence := j.lastSequence + 1)
  }

  /** New correlation state and the token the event carries. */
  datatype Noted = Noted(tokens: Correlations, token: Option<nat>)

  function NoteAccepted(c: Correlations, o: Observation): Result<Noted, ControlError>
    requires WellFormed(o)
  {
    var key := RequestKey(o);
    if key.None? then Ok(Noted(c, None))
    else if o.kind.Request? then
      if key.value in c.active || key.value in c.pending then Err(InconsistentCorrelation)
      else Ok(Noted(c.(active := c.active[key.value := c.last + 1], last := c.last + 1), Some(c.last + 1)))
    else if key.value !in c.active then Ok(Noted(c, None))
    else
      var token := c.active[key.value];
      Ok(Noted(c.(active := c.active - {key.value}, pending := c.pending[key.value := token]), Some(token)))
  }

  function NoteForwarded(c: Correlations, o: Observation): Result<Noted, ControlError>
    requires WellFormed(o)
  {
    var key := RequestKey(o);
    if key.None? then Ok(Noted(c, None))
    else if o.kind.Request? then
      if key.value !in c.active then Err(InconsistentCorrelation)
      else Ok(Noted(c, Some(c.active[key.value])))
    else if key.value !in c.pending then Ok(Noted(c, None))
    else Ok(Noted(c.(pending := c.pending - {key.value}), Some(c.pending[key.value])))
  }

  function RecordAccepted(j: Journal, o: Observation): Result<Journal, ControlError>
    requires WellFormed(o)
  {
    var noted := NoteAccepted(j.tokens, o);
    if j.lastSequence >= U64_MAX then Err(EventSequenceOverflow)
    else if noted.Err? then Err(noted.error)
    else Ok(Push(j.(tokens := noted.value.tokens), Redacted(Accepted, o, noted.value.token, None)))
  }

  function RecordForwarded(j: Journal, o: Observation): Result<Journal, ControlError>
    requires WellFormed(o)
  {
    var noted := NoteForwarded(j.tokens, o);
    if j.lastSequence >= U64_MAX then Err(EventSequenceOverflow)
    else if noted.Err? then Err(noted.error)
    else Ok(Push(j.(tokens := noted.value.tokens), Redacted(Forwarded, o, noted.value.token, None)))
  }

  function RecordBlocked(j: Journal, o: Observation, rule: nat): Result<Journal, ControlError> {
    if j.lastSequence >= U64_MAX then Err(EventSequenceOverflow)
    else Ok(Push(j, Redacted(Blocked, o, None, Some(rule))))
  }

  function RecordExpired(j: Journal, origin: Direction, id: RequestId): Result<Journal, ControlError> {
    var key := KeyOf(origin, id);
    if j.lastSequence >= U64_MAX then Err(EventSequenceOverflow)
    else if key !in j.tokens.active then Err(InconsistentCorrelation)
    else Ok(Push(j.(tokens := j.tokens.(active := j.tokens.active - {key})),
                 RequestExpired(origin, j.tokens.active[key])))
  }

  function ClearCorrelations(j: Journal): Journal {
    j.(tokens := j.tokens.(active := map[], pending := map[]))
  }

  function Pull(j: Journal): Journal {
    if j.events == [] then j else j.(events := j.events[1..])
  }

  // ---- Invariant -------------------------------------------------------------------------

  /** Consecutive sequence numbers, `last` on the newest event. */
  predicate Numbered(events: seq<Event>, last: nat) {
    events == [] || (last > 0 && events[|events| - 1].sequence == last && Numbered(events[..|events| - 1], last - 1))
  }

  ghost predicate TokensBelow(m: map<CorrelationKey, nat>, last: nat) {
    forall k :: k in m ==> 0 < m[k] <= last
  }

  ghost predicate TokensInv(c: Correlations) {
    && c.active.Keys !! c.pending.Keys
    && TokensBelow(c.active, c.last) && TokensBelow(c.pending, c.last)
  }

  /** The retained events are the newest ones; everything else was evicted or pulled. */
  predicate BufferInv(j: Journal) {
    && 0 < j.limit <= ABSOLUTE_MAX_EVENTS
    && |j.events| <= j.limit
    && Numbered(j.events, j.lastSequence)
    && j.evicted + |j.events| <= j.lastSequence <= U64_MAX
  }

  ghost predicate JournalInv(j: Journal) {
    BufferInv(j) && TokensInv(j.tokens) && j.tokens.last <= j.lastSequence
  }

  lemma {:induction false} NumberedTail(events: seq<Event>, last: nat)
    requires events != [] && Numbered(events, last)
    ensures Numbered(events[1..], last) && events[0].sequence == last - |events| + 1 && |events| <= last
  {
    var n := |events| - 1;
    if n > 0 {
      NumberedTail(events[..n], last - 1);
      assert events[1..][..n - 1] == events[..n][1..];
    }
  }

  lemma {:induction false} PushKeepsBuffer(j: Journal, detail: Detail)
    requires BufferInv(j) && j.lastSequence < U64_MAX
    ensures BufferInv(Push(j, detail))
  {
    var full := |j.events| == j.limit && j.events != [];
    var kept := if full then j.events[1..] else j.events;
    if full { NumberedTail(j.events, j.lastSequence); }
    assert Push(j, detail).events[..|kept|] == kept;
  }

  datatype Op =
    | Accept(accepted: Observation)
    | Forward(forwarded: Observation)
    | Block(blocked: Observation, rule: nat)
    | Expire(origin: Direction, id: RequestId)
    | PullOp
    | ClearOp

  predicate ValidOp(op: Op) {
    match op
    case Accept(o) => WellFormed(o)
    case Forward(o) => WellFormed(o)
    case _ => true
  }

  /** What an operation attempts; only the recording ones can be refused. */
  function Attempt(j: Journal, op: Op): Result<Journal, ControlError>
    requires ValidOp(op)
  {
    match op
    case Accept(o) => RecordAccepted(j, o)
    case Forward(o) => RecordForwarded(j, o)
    case Block(o, rule) => RecordBlocked(j, o, rule)
    case Expire(origin, id) => RecordExpired(j, origin, id)
    case PullOp => Ok(Pull(j))
    case ClearOp => Ok(ClearCorrelations(j))
  }

  /** The event detail a successful recording appends. */
  function DetailOf(c: Correlations, op: Op): Detail
    requires ValidOp(op) && !op.PullOp? && !op.ClearOp?
    requires op.Accept? ==> NoteAccepted(c, op.accepted).Ok?
    requires op.Forward? ==> NoteForwarded(c, op.forwarded).Ok?
    requires op.Expire? ==> KeyOf(op.origin, op.id) in c.active
  {
    match op
    case Accept(o) => Redacted(Accepted, o, NoteAccepted(c, o).value.token, None)
    case Forward(o) => Redacted(Forwarded, o, NoteForwarded(c, o).value.token, None)
    case Block(o, rule) => Redacted(Blocked, o, None, Some(rule))
    case Expire(origin, id) => RequestExpired(origin, c.active[KeyOf(origin, id)])
  }

  /** Every recording appends one event and issues at most one token. */
  lemma {:induction false} AttemptShape(j: Journal, op: Op) returns (tokens: Correlations)
    requires JournalInv(j) && ValidOp(op) && Attempt(j, op).Ok? && !op.PullOp? && !op.ClearOp?
    ensures Attempt(j, op).value == Push(j.(tokens := tokens), DetailOf(j.tokens, op))
    ensures TokensInv(tokens) && j.tokens.last <= tokens.last <= j.tokens.last + 1
    ensures j.lastSequence < U64_MAX
  {
    tokens := Attempt(j, op).value.tokens;
  }

  lemma {:induction false} AttemptKeepsInv(j: Journal, op: Op)
    requires JournalInv(j) && ValidOp(op) && Attempt(j, op).Ok?
    ensures JournalInv(Attempt(j, op).value)
  {
    if op.PullOp? {
      if j.events != [] { NumberedTail(j.events, j.lastSequence); }
    } else if !op.ClearOp? {
      var tokens := AttemptShape(j, op);
      PushKeepsBuffer(j.(tokens := tokens), DetailOf(j.tokens, op));
    }
  }
}
