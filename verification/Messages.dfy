/** Symbolic SHA-256 and the length-prefixed encodings that are hashed. */
module Digests {
  import opened Basics

  /** A digest is identified with its preimage: hashing is injective and otherwise unspecified. */
  datatype Digest = Sha256(preimage: Bytes)

  function Pow256(width: nat): (p: nat)
    ensures p >= 1
  {
    if width == 0 then 1 else 256 * Pow256(width - 1)
  }

  /** `to_be_bytes` for a value of `width` bytes. */
  function BigEndian(v: nat, width: nat): (b: Bytes)
    ensures |b| == width
  {
    if width == 0 then [] else BigEndian(v / 256, width - 1) + [v % 256]
  }

  function FromBigEndian(b: Bytes): nat {
    if b == [] then 0 else 256 * FromBigEndian(b[..|b| - 1]) + b[|b| - 1]
  }

  lemma {:induction false} BigEndianRoundTrip(v: nat, width: nat)
    requires v < Pow256(width)
    ensures FromBigEndian(BigEndian(v, width)) == v
  {
    if width != 0 {
      BigEndianRoundTrip(v / 256, width - 1);
      assert BigEndian(v, width)[..width - 1] == BigEndian(v / 256, width - 1);
    }
  }

  lemma {:induction false} EightBytes()
    ensures Pow256(8) == U64_MAX + 1
  {
    assert Pow256(4) == 0x1_0000_0000;
    assert Pow256(8) == 256 * (256 * (256 * (256 * Pow256(4))));
  }

  lemma {:induction false} PrefixCancels(p: Bytes, a: Bytes, b: Bytes)
    requires p + a == p + b
    ensures a == b
  {
    assert a == (p + a)[|p|..] && b == (p + b)[|p|..];
  }
}

/** Protocol messages, their identities and the proxy's limits. */
module Messages {
  import opened Basics
  import opened Digests
  import opened Ordering

  const MAX_METHOD_BYTES: nat := 1_024
  const MAX_REQUEST_ID_BYTES: nat := 256

  datatype Direction = ClientToServer | ServerToClient {
    function Opposite(): Direction {
      match this
      case ClientToServer => ServerToClient
      case ServerToClient => ClientToServer
    }
  }

  datatype Kind = Request | Notification | SuccessResponse | ErrorResponse {
    predicate IsResponse() {
      SuccessResponse? || ErrorResponse?
    }
  }

  type u64 = x: int | 0 <= x <= U64_MAX
  type NegativeI64 = x: int | -0x8000_0000_0000_0000 <= x < 0 witness -1
  type IdText = t: Text | 0 < |t| <= MAX_REQUEST_ID_BYTES && !HasControl(t) witness [0x20]

  /** The identities `parse_request_id` can return. */
  datatype RequestId = Unsigned(value: u64) | Signed(number: NegativeI64) | TextId(text: IdText)

  /** Sort key of the derived `Ord`: variant first, then the value. */
  function IdKey(id: RequestId): seq<int> {
    match id
    case Unsigned(value) => var n: int := value; [0, n]
    case Signed(number) => var n: int := number; [1, n]
    case TextId(text) => [2] + text
  }

  lemma {:induction false} IdKeyInjective(a: RequestId, b: RequestId)
    requires IdKey(a) == IdKey(b)
    ensures a == b
  {
    var x, y := IdKey(a), IdKey(b);
    assert x[0] == y[0] && x[1] == y[1];
    if a.TextId? {
      assert a.text == x[1..] && b.text == y[1..];
    }
  }

  predicate IsFirstId(m: RequestId, s: set<RequestId>) {
    m in s && forall x :: x in s && x != m ==> Less(IdKey(m), IdKey(x))
  }

  lemma {:induction false} FirstIdExists(s: set<RequestId>)
    requires s != {}
    ensures exists m :: IsFirstId(m, s)
  {
    var keys := set id | id in s :: IdKey(id);
    var any :| any in s;
    assert IdKey(any) in keys;
    LeastExists(keys);
    var k :| IsLeast(k, keys);
    var m :| m in s && IdKey(m) == k;
    forall x | x in s && x != m ensures Less(IdKey(m), IdKey(x)) {
      assert IdKey(x) in keys;
      if IdKey(x) == k { IdKeyInjective(x, m); }
    }
    assert IsFirstId(m, s);
  }

  lemma {:induction false} FirstIdUnique(s: set<RequestId>)
    ensures forall m, n :: IsFirstId(m, s) && IsFirstId(n, s) ==> m == n
  {
    forall m, n | IsFirstId(m, s) && IsFirstId(n, s) ensures m == n {
      if m != n {
        LessTransitive(IdKey(m), IdKey(n), IdKey(m));
        LessIrreflexive(IdKey(m));
      }
    }
  }

  function FirstId(s: set<RequestId>): RequestId
    requires s != {}
  {
    FirstIdExists(s);
    FirstIdUnique(s);
    var m :| IsFirstId(m, s);
    m
  }

  /** Identities in `BTreeMap` key order. */
  function SortedIds(s: set<RequestId>): seq<RequestId> {
    if s == {} then [] else
      FirstIdExists(s);
      assert FirstId(s) in s;
      [FirstId(s)] + SortedIds(s - {FirstId(s)})
  }

  ghost predicate InKeyOrder(ids: seq<RequestId>) {
    forall i, j :: 0 <= i < j < |ids| ==> Less(IdKey(ids[i]), IdKey(ids[j]))
  }

  /** Every identity once, in ascending key order. */
  lemma {:induction false} SortedIdsFacts(s: set<RequestId>)
    ensures Elements(SortedIds(s)) == s && Distinct(SortedIds(s)) && InKeyOrder(SortedIds(s))
  {
    if s == {} {
      DistinctSingle(Unsigned(0));
    } else {
      FirstIdExists(s);
      var m := FirstId(s);
      SortedIdsFacts(s - {m});
      ConsDistinct(m, SortedIds(s - {m}));
      assert s == {m} + (s - {m});
      FirstIdLeads(m, s, SortedIds(s - {m}));
    }
  }

  lemma {:induction false} FirstIdLeads(m: RequestId, s: set<RequestId>, tail: seq<RequestId>)
    requires IsFirstId(m, s) && InKeyOrder(tail) && Elements(tail) == s - {m}
    ensures InKeyOrder([m] + tail)
  {
    var all := [m] + tail;
    forall i, j | 0 <= i < j < |all| ensures Less(IdKey(all[i]), IdKey(all[j])) {
      assert tail[j - 1] in Elements(tail);
    }
  }

  /** Tag, then a fixed-width number or a length-prefixed text. */
  function IdEncoding(id: RequestId): Bytes {
    match id
    case Unsigned(value) => [0] + BigEndian(value, 8)
    case Signed(number) => [1] + BigEndian(number + 0x1_0000_0000_0000_0000, 8)
    case TextId(text) => [2] + BigEndian(|text|, 8) + text
  }

  lemma {:induction false} IdEncodingInjective(a: RequestId, b: RequestId)
    requires IdEncoding(a) == IdEncoding(b)
    ensures a == b
  {
    var x, y := IdEncoding(a), IdEncoding(b);
    assert x[0] == y[0];
    EightBytes();
    match a {
      case Unsigned(v) =>
        assert BigEndian(v, 8) == x[1..] && BigEndian(b.value, 8) == y[1..];
        BigEndianRoundTrip(v, 8);
        BigEndianRoundTrip(b.value, 8);
      case Signed(n) =>
        assert BigEndian(n + 0x1_0000_0000_0000_0000, 8) == x[1..];
        assert BigEndian(b.number + 0x1_0000_0000_0000_0000, 8) == y[1..];
        BigEndianRoundTrip(n + 0x1_0000_0000_0000_0000, 8);
        BigEndianRoundTrip(b.number + 0x1_0000_0000_0000_0000, 8);
      case TextId(t) =>
        assert t == x[9..] && b.text == y[9..];
    }
  }

  /** Identity retained by the proxy after a request is retired. */
  function RetiredDigest(id: RequestId): Digest {
    Sha256(Ascii("weregopher.app-server-request-id.v1\0") + IdEncoding(id))
  }

  lemma {:induction false} RetiredDigestInjective(a: RequestId, b: RequestId)
    requires RetiredDigest(a) == RetiredDigest(b)
    ensures a == b
  {
    PrefixCancels(Ascii("weregopher.app-server-request-id.v1\0"), IdEncoding(a), IdEncoding(b));
    IdEncodingInjective(a, b);
  }

  /** Identity under which the journal correlates one request of one origin. */
  datatype CorrelationKey = CorrelationKey(origin: Direction, digest: Digest)

  function DirectionCode(d: Direction): byte {
    if d.ClientToServer? then 0 else 1
  }

  function KeyOf(origin: Direction, id: RequestId): CorrelationKey {
    CorrelationKey(origin, Sha256(Ascii("weregopher.app-server-observed-request.v1\0")
                                  + [DirectionCode(origin)] + IdEncoding(id)))
  }

  lemma {:induction false} KeyInjective(d: Direction, a: RequestId, e: Direction, b: RequestId)
    requires KeyOf(d, a) == KeyOf(e, b)
    ensures d == e && a == b
  {
    var domain := Ascii("weregopher.app-server-observed-request.v1\0");
    PrefixCancels(domain + [DirectionCode(d)], IdEncoding(a), IdEncoding(b));
    IdEncodingInjective(a, b);
  }

  datatype Observation = Observation(
    direction: Direction,
    kind: Kind,
    name: Option<Text>,
    id: Option<RequestId>,
    byteLength: nat)

  predicate ValidMethod(m: Text) {
    0 < |m| <= MAX_METHOD_BYTES && !HasControl(m)
  }

  /** The shapes `classify_object` can produce. */
  predicate WellFormed(o: Observation) {
    match o.kind
    case Request => o.name.Some? && ValidMethod(o.name.value) && o.id.Some?
    case Notification => o.name.Some? && ValidMethod(o.name.value) && o.id.None?
    case SuccessResponse => o.name.None?
    case ErrorResponse => o.name.None?
  }

  datatype Frame = Frame(observation: Observation, bytes: Bytes)

  predicate ValidFrame(f: Frame) {
    WellFormed(f.observation) && f.observation.byteLength == |f.bytes|
  }

  predicate IsRequestFor(f: Frame, id: RequestId) {
    f.observation.kind.Request? && f.observation.id == Some(id)
  }

  datatype QueueLimits = QueueLimits(messages: nat, bytes: nat)

  predicate ValidQueueLimits(l: QueueLimits) {
    0 < l.messages <= 4_096 && 0 < l.bytes <= 64 * 1024 * 1024
  }

  datatype JsonLimits = JsonLimits(depth: nat, nodes: nat)

  predicate ValidJsonLimits(l: JsonLimits) {
    0 < l.depth <= 128 && 0 < l.nodes <= 1_048_576
  }

  /** `Duration`s and `Instant`s are natural numbers of one tick. */
  const TICKS_PER_DAY: nat := 24 * 3_600 * 1_000_000_000

  datatype ProxyLimits = ProxyLimits(
    lineBytes: nat,
    toServer: QueueLimits,
    toClient: QueueLimits,
    json: JsonLimits,
    activeRequests: nat,
    requestHistory: nat,
    requestTimeout: nat)

  predicate ValidProxyLimits(l: ProxyLimits) {
    && 0 < l.lineBytes <= 16 * 1024 * 1024
    && ValidQueueLimits(l.toServer) && ValidQueueLimits(l.toClient)
    && ValidJsonLimits(l.json)
    && 0 < l.activeRequests <= 4_096
    && l.activeRequests <= l.requestHistory <= 1_048_576
    && 0 < l.requestTimeout <= TICKS_PER_DAY
  }

  datatype Candidate = Candidate(limits: ProxyLimits, frame: Frame)

  datatype ProxyError =
    | Closed
    | CandidateLimitsMismatch
    | EmptyLine
    | EmbeddedLineBreak
    | LineTooLarge
    | InvalidJson
    | TopLevelNotObject
    | DuplicateObjectKey
    | JsonDepthLimitExceeded
    | JsonNodeLimitExceeded
    | InvalidMethod
    | InvalidRequestId
    | AmbiguousMessageShape
    | QueueMessageLimitExceeded(messagesDirection: Direction)
    | QueueByteLimitExceeded(bytesDirection: Direction)
    | DuplicateRequestId(duplicateDirection: Direction)
    | ReusedRequestId(reusedDirection: Direction)
    | ActiveRequestLimitExceeded
    | RequestHistoryLimitExceeded
    | ResponseBeforeRequestForwarded
    | DeadlineOverflow
    | NonMonotonicClock
    | InconsistentCorrelationState
    | DiagnosticCounterOverflow
}
