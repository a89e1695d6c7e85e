/** The mutable proxy, step by step. Every method is proved to compute the transition of
    `ProxyModel`, to leave the state untouched when it fails, and never to report an inconsistent
    state, although several of them change maps before their last fallible step. */
module Proxies {
  import opened Basics
  import opened Digests
  import opened Messages
  import opened ProxyModel
  import opened ProxyInvariant
  import opened Json
  import opened Classification

  class ProxyQueue {
    const direction: Direction
    const limits: QueueLimits
    var frames: seq<Frame>
    var bytes: nat
    var peakMessages: nat
    var peakBytes: nat

    constructor (direction: Direction, limits: QueueLimits)
      ensures View() == Queue([], 0, 0, 0)
      ensures this.direction == direction && this.limits == limits
    {
      this.direction, this.limits := direction, limits;
      frames, bytes, peakMessages, peakBytes := [], 0, 0, 0;
    }

    ghost function View(): Queue
      reads this
    {
      Queue(frames, bytes, peakMessages, peakBytes)
    }

    method EnsureCapacity(size: nat) returns (failure: Option<ProxyError>)
      requires limits.bytes <= U64_MAX
      ensures failure.None? <==> |frames| + 1 <= limits.messages && bytes + size <= limits.bytes
      ensures failure.Some? ==> failure.value == if |frames| < limits.messages
                                                 then QueueByteLimitExceeded(direction)
                                                 else QueueMessageLimitExceeded(direction)
    {
      if |frames| >= limits.messages {
        return Some(QueueMessageLimitExceeded(direction));
      }
      if bytes + size > U64_MAX {
        return Some(QueueByteLimitExceeded(direction));
      }
      if bytes + size > limits.bytes {
        return Some(QueueByteLimitExceeded(direction));
      }
      return None;
    }

    method PushAfterCapacityCheck(f: Frame)
      modifies this
      ensures View() == Enqueue(old(View()), f)
    {
      bytes := bytes + |f.bytes|;
      frames := frames + [f];
      peakMessages := Max(peakMessages, |frames|);
      peakBytes := Max(peakBytes, bytes);
    }

    method Pop() returns (r: Result<Option<Frame>, ProxyError>)
      modifies this
      ensures old(frames) == [] ==> r == Ok(None) && View() == old(View())
      ensures old(frames) != [] && |old(frames)[0].bytes| > old(bytes) ==>
                r == Err(InconsistentCorrelationState) && View() == old(View())
      ensures old(frames) != [] && |old(frames)[0].bytes| <= old(bytes) ==>
                r == Ok(Some(old(frames)[0])) && View() == Dequeue(old(View()))
    {
      if frames == [] {
        return Ok(None);
      }
      var front := frames[0];
      if |front.bytes| > bytes {
        return Err(InconsistentCorrelationState);
      }
      frames, bytes := frames[1..], bytes - |front.bytes|;
      return Ok(Some(front));
    }

    method Clear() returns (messages: nat, abandoned: nat)
      modifies this
      ensures messages == |old(frames)| && abandoned == old(bytes)
      ensures View() == old(View()).(frames := [], bytes := 0)
    {
      messages, abandoned := |frames|, bytes;
      frames, bytes := [], 0;
    }
  }

  ghost function DigestsOf(ids: set<RequestId>): set<Digest> {
    set id | id in ids :: RetiredDigest(id)
  }

  /** The digest history stands for a set of identities: membership and size agree. */
  lemma {:induction false} DigestMembership(ids: set<RequestId>, id: RequestId)
    ensures RetiredDigest(id) in DigestsOf(ids) <==> id in ids
  {
    if RetiredDigest(id) in DigestsOf(ids) {
      var x :| x in ids && RetiredDigest(x) == RetiredDigest(id);
      RetiredDigestInjective(x, id);
    }
  }

  lemma {:induction false} DigestCount(ids: set<RequestId>)
    ensures |DigestsOf(ids)| == |ids|
  {
    if ids != {} {
      var id :| id in ids;
      DigestCount(ids - {id});
      DigestMembership(ids - {id}, id);
      DigestsInsert(ids - {id}, id);
      assert ids - {id} + {id} == ids;
    }
  }

  lemma {:induction false} DigestsInsert(ids: set<RequestId>, id: RequestId)
    ensures DigestsOf(ids + {id}) == DigestsOf(ids) + {RetiredDigest(id)}
  {
  }

  /** The values computed by the checks of an admission. */
  datatype Admission = Admission(action: Action, messages: nat, bytes: nat, late: nat, unmatched: nat)

  /** A request identity is new, and a completing response names an active, unretired request. */
  ghost predicate Fresh(p: Proxy, o: Observation, action: Action)
    requires WellFormed(o)
  {
    && (o.kind.Request? ==> o.id.value !in p.At(o.direction).requests)
    && (action.Complete? ==>
          && o.kind.IsResponse() && o.id.Some?
          && o.id.value in p.At(o.direction.Opposite()).requests
          && o.id.value !in p.At(o.direction.Opposite()).retired)
  }

  lemma {:induction false} AdmittedFresh(p: Proxy, o: Observation, action: Action)
    requires Inv(p) && WellFormed(o) && Correlate(p, o) == Ok(action)
    ensures Fresh(p, o, action)
  {
    LaneInvAt(p, o.direction.Opposite());
  }

  /** The state after the frame is queued and counted. */
  ghost function Counted(p: Proxy, f: Frame, a: Admission): Proxy {
    var d := f.observation.direction;
    p.With(d, p.At(d).(queue := Enqueue(p.At(d).queue, f), acceptedMessages := a.messages,
                       acceptedBytes := a.bytes))
     .(late := a.late, unmatched := a.unmatched)
  }

  /** Correlating, queueing and counting add up to the admission transition. */
  lemma {:induction false} AdmissionStages(p: Proxy, f: Frame, a: Admission)
    requires WellFormed(f.observation) && Fresh(p, f.observation, a.action)
    requires a.messages == p.At(f.observation.direction).acceptedMessages + 1
    requires a.bytes == p.At(f.observation.direction).acceptedBytes + |f.bytes|
    requires a.late == p.late + (if a.action.Late? then 1 else 0)
    requires a.unmatched == p.unmatched + (if a.action.Unmatched? then 1 else 0)
    ensures AfterAdmission(p, f, a.action) == Counted(Correlated(p, f.observation, a.action), f, a)
  {
  }

  class TransparentProxy {
    const limits: ProxyLimits
    const clockMax: nat
    const toServer: ProxyQueue
    const toClient: ProxyQueue
    var open: bool
    var clientRequests: map<RequestId, Phase>
    var serverRequests: map<RequestId, Phase>
    var clientHistory: set<Digest>
    var serverHistory: set<Digest>
    var lastTime: Option<nat>
    var acceptedClientMessages: nat
    var acceptedServerMessages: nat
    var acceptedClientBytes: nat
    var acceptedServerBytes: nat
    var forwardedToServer: nat
    var forwardedToClient: nat
    var lateResponses: nat
    var unmatchedResponses: nat
    var expiredRequests: nat

    // The identities behind the retained digests.
    ghost var clientRetired: set<RequestId>
    ghost var serverRetired: set<RequestId>

    ghost function View(): Proxy
      reads this, toServer, toClient
    {
      Proxy(limits, clockMax, open,
            Lane(toServer.View(), clientRequests, clientRetired,
                 acceptedClientMessages, acceptedClientBytes, forwardedToServer),
            Lane(toClient.View(), serverRequests, serverRetired,
                 acceptedServerMessages, acceptedServerBytes, forwardedToClient),
            lastTime, lateResponses, unmatchedResponses, expiredRequests)
    }

    /** The queues are wired to the right limits and the digest sets stand for the retired sets. */
    ghost predicate Linked()
      reads this
    {
      && toServer != toClient
      && toServer.direction == ClientToServer && toServer.limits == limits.toServer
      && toClient.direction == ServerToClient && toClient.limits == limits.toClient
      && clientHistory == DigestsOf(clientRetired)
      && serverHistory == DigestsOf(serverRetired)
    }

    ghost predicate Valid()
      reads this, toServer, toClient
    {
      Linked() && Inv(View())
    }

    constructor (limits: ProxyLimits, clockMax: nat)
      requires ValidProxyLimits(limits)
      ensures Valid() && fresh(toServer) && fresh(toClient)
      ensures View() == Initial(limits, clockMax)
    {
      this.limits, this.clockMax := limits, clockMax;
      var outbound := new ProxyQueue(ClientToServer, limits.toServer);
      var inbound := new ProxyQueue(ServerToClient, limits.toClient);
      toServer, toClient := outbound, inbound;
      open := true;
      clientRequests, serverRequests := map[], map[];
      clientHistory, serverHistory := {}, {};
      clientRetired, serverRetired := {}, {};
      lastTime := None;
      acceptedClientMessages, acceptedServerMessages := 0, 0;
      acceptedClientBytes, acceptedServerBytes := 0, 0;
      forwardedToServer, forwardedToClient := 0, 0;
      lateResponses, unmatchedResponses, expiredRequests := 0, 0, 0;
      new;
      InitialInv(limits, clockMax);
    }

    function QueueAt(d: Direction): ProxyQueue {
      if d.ClientToServer? then toServer else toClient
    }

    function RequestsAt(d: Direction): map<RequestId, Phase>
      reads this
    {
      if d.ClientToServer? then clientRequests else serverRequests
    }

    function HistoryAt(d: Direction): set<Digest>
      reads this
    {
      if d.ClientToServer? then clientHistory else serverHistory
    }

    ghost function RetiredAt(d: Direction): set<RequestId>
      reads this
    {
      if d.ClientToServer? then clientRetired else serverRetired
    }

    method PutRequests(d: Direction, requests: map<RequestId, Phase>)
      modifies this`clientRequests, this`serverRequests
      ensures clientRequests == if d.ClientToServer? then requests else old(clientRequests)
      ensures serverRequests == if d.ClientToServer? then old(serverRequests) else requests
    {
      if d.ClientToServer? {
        clientRequests := requests;
      } else {
        serverRequests := requests;
      }
    }

    /** Inserts a digest; `inserted` is false when it was already there. */
    method InsertHistory(d: Direction, id: RequestId) returns (inserted: bool)
      requires Linked()
      modifies this`clientHistory, this`serverHistory, this`clientRetired, this`serverRetired
      ensures Linked()
      ensures inserted <==> id !in old(RetiredAt(d))
      ensures clientRetired == old(clientRetired) + if d.ClientToServer? then {id} else {}
      ensures serverRetired == old(serverRetired) + if d.ClientToServer? then {} else {id}
    {
      DigestMembership(RetiredAt(d), id);
      DigestsInsert(RetiredAt(d), id);
      inserted := RetiredDigest(id) !in HistoryAt(d);
      if d.ClientToServer? {
        clientHistory := clientHistory + {RetiredDigest(id)};
        clientRetired := clientRetired + {id};
      } else {
        serverHistory := serverHistory + {RetiredDigest(id)};
        serverRetired := serverRetired + {id};
      }
    }

    // ---- Preparation ---------------------------------------------------------------------

    /** Validates one line without touching the proxy; the frame keeps the exact bytes. */
    method Prepare(d: Direction, line: Bytes, decode: Bytes -> Option<RawJson>)
        returns (r: Result<Candidate, ProxyError>)
      ensures r.Ok? <==> open && Acceptable(line, limits, decode)
      ensures r.Ok? ==> r.value == Candidate(limits, Framed(line, d, limits, decode))
      ensures r.Err? ==> r.error != InconsistentCorrelationState && r.error != NonMonotonicClock
      ensures r.Err? ==> (r.error == Closed <== !open)
    {
      if !open {
        return Err(Closed);
      }
      var frame := ParseAndClassify(line, d, limits, decode);
      if frame.Err? {
        return Err(frame.error);
      }
      return Ok(Candidate(limits, frame.value));
    }

    /** `ingest`: prepare and admit in one call. */
    method Ingest(d: Direction, line: Bytes, decode: Bytes -> Option<RawJson>)
        returns (r: Result<Observation, ProxyError>)
      requires Valid()
      modifies this, toServer, toClient
      ensures Valid()
      ensures r.Err? ==> View() == old(View()) && r.error != InconsistentCorrelationState
      ensures r.Ok? ==>
                && Acceptable(line, limits, decode) && Frame(r.value, line) == Framed(line, d, limits, decode)
                && ProxyModel.Admit(old(View()), Candidate(limits, Frame(r.value, line))) == Ok(View())
    {
      var candidate := Prepare(d, line, decode);
      if candidate.Err? {
        return Err(candidate.error);
      }
      r := AdmitCandidate(candidate.value.frame);
    }

    // ---- Admission -----------------------------------------------------------------------

    method PreflightCorrelation(o: Observation) returns (r: Result<Action, ProxyError>)
      requires Valid() && WellFormed(o)
      ensures r == Correlate(View(), o)
    {
      if o.kind.Notification? {
        return Ok(NoAction);
      }
      if o.kind.Request? {
        if o.id.None? {
          return Err(InconsistentCorrelationState);
        }
        var id := o.id.value;
        DigestMembership(RetiredAt(o.direction), id);
        DigestCount(clientRetired);
        DigestCount(serverRetired);
        if id in RequestsAt(o.direction) {
          return Err(DuplicateRequestId(o.direction));
        }
        if RetiredDigest(id) in HistoryAt(o.direction) {
          return Err(ReusedRequestId(o.direction));
        }
        var active := |clientRequests| + |serverRequests|;
        if active > U64_MAX || active >= limits.activeRequests {
          return Err(ActiveRequestLimitExceeded);
        }
        var tracked := active + |clientHistory| + |serverHistory|;
        if tracked > U64_MAX || tracked >= limits.requestHistory {
          return Err(RequestHistoryLimitExceeded);
        }
        return Ok(NoAction);
      }
      if o.id.None? {
        return Ok(Unmatched);
      }
      var id, origin := o.id.value, o.direction.Opposite();
      DigestMembership(RetiredAt(origin), id);
      LaneInvAt(View(), origin);
      if id in RequestsAt(origin) {
        if RequestsAt(origin)[id].Pending? {
          if RetiredDigest(id) !in HistoryAt(origin) {
            return Ok(Complete);
          }
          return Err(InconsistentCorrelationState);
        }
        return Err(ResponseBeforeRequestForwarded);
      }
      if RetiredDigest(id) in HistoryAt(origin) {
        return Ok(Late);
      }
      return Ok(Unmatched);
    }

    method ApplyCorrelation(o: Observation, action: Action) returns (failure: Option<ProxyError>)
      requires Linked() && WellFormed(o) && Fresh(View(), o, action)
      modifies this`clientRequests, this`serverRequests
      modifies this`clientHistory, this`serverHistory, this`clientRetired, this`serverRetired
      ensures failure.None? && Linked()
      ensures View() == Correlated(old(View()), o, action)
    {
      if o.kind.Request? {
        if o.id.None? {
          return Some(InconsistentCorrelationState);
        }
        var present := o.id.value in RequestsAt(o.direction);
        PutRequests(o.direction, RequestsAt(o.direction)[o.id.value := Queued]);
        if present {
          return Some(InconsistentCorrelationState);
        }
      } else if o.kind.IsResponse() && action.Complete? {
        if o.id.None? {
          return Some(InconsistentCorrelationState);
        }
        var origin := o.direction.Opposite();
        var present := o.id.value in RequestsAt(origin);
        PutRequests(origin, RequestsAt(origin) - {o.id.value});
        if !present {
          return Some(InconsistentCorrelationState);
        }
        var inserted := InsertHistory(origin, o.id.value);
        if !inserted {
          return Some(InconsistentCorrelationState);
        }
      }
      return None;
    }

    method Admit(c: Candidate) returns (r: Result<Observation, ProxyError>)
      requires Valid() && ValidFrame(c.frame)
      modifies this, toServer, toClient
      ensures Valid()
      ensures ProxyModel.Admit(old(View()), c).Err? ==>
                r == Err(ProxyModel.Admit(old(View()), c).error) && View() == old(View())
      ensures ProxyModel.Admit(old(View()), c).Ok? ==>
                r == Ok(c.frame.observation) && View() == ProxyModel.Admit(old(View()), c).value
    {
      if !open {
        return Err(Closed);
      }
      if c.limits != limits {
        return Err(CandidateLimitsMismatch);
      }
      r := AdmitCandidate(c.frame);
    }

    method AdmitCandidate(f: Frame) returns (r: Result<Observation, ProxyError>)
      requires Valid() && ValidFrame(f)
      modifies this, toServer, toClient
      ensures Valid()
      ensures var spec := ProxyModel.Admit(old(View()), Candidate(limits, f));
              && (spec.Err? ==> r == Err(spec.error) && View() == old(View()))
              && (spec.Ok? ==> r == Ok(f.observation) && View() == spec.value)
    {
      var checked := CheckAdmission(f);
      if checked.Err? {
        return Err(checked.error);
      }
      AdmitKeepsInv(View(), Candidate(limits, f));
      AdmittedFresh(View(), f.observation, checked.value.action);
      var failure := CommitAdmission(f, checked.value);
      if failure.Some? {
        return Err(InconsistentCorrelationState);
      }
      return Ok(f.observation);
    }

    /** The fallible checks of `admit_candidate`, in order, and the counter values they prepare. */
    method CheckAdmission(f: Frame) returns (r: Result<Admission, ProxyError>)
      requires Valid() && ValidFrame(f)
      ensures var spec := ProxyModel.Admit(View(), Candidate(limits, f));
              && (spec.Err? ==> r == Err(spec.error))
              && (spec.Ok? ==> && r.Ok? && Prepared(f, r.value)
                               && Correlate(View(), f.observation) == Ok(r.value.action)
                               && spec.value == AfterAdmission(View(), f, r.value.action))
    {
      if !open {
        return Err(Closed);
      }
      var d := f.observation.direction;
      var full := QueueAt(d).EnsureCapacity(|f.bytes|);
      if full.Some? {
        return Err(full.value);
      }
      var preflight := PreflightCorrelation(f.observation);
      if preflight.Err? {
        return Err(preflight.error);
      }
      var action := preflight.value;
      var messages := if d.ClientToServer? then acceptedClientMessages else acceptedServerMessages;
      var bytes := if d.ClientToServer? then acceptedClientBytes else acceptedServerBytes;
      if |f.bytes| > U64_MAX || messages >= U64_MAX || bytes + |f.bytes| > U64_MAX {
        return Err(DiagnosticCounterOverflow);
      }
      if action.Unmatched? && unmatchedResponses >= U64_MAX {
        return Err(DiagnosticCounterOverflow);
      }
      if action.Late? && lateResponses >= U64_MAX {
        return Err(DiagnosticCounterOverflow);
      }
      return Ok(Admission(action, messages + 1, bytes + |f.bytes|,
                          lateResponses + (if action.Late? then 1 else 0),
                          unmatchedResponses + (if action.Unmatched? then 1 else 0)));
    }

    ghost predicate Prepared(f: Frame, a: Admission)
      reads this
    {
      && a.messages == 1 + (if f.observation.direction.ClientToServer?
                            then acceptedClientMessages else acceptedServerMessages)
      && a.bytes == |f.bytes| + (if f.observation.direction.ClientToServer?
                                 then acceptedClientBytes else acceptedServerBytes)
      && a.late == lateResponses + (if a.action.Late? then 1 else 0)
      && a.unmatched == unmatchedResponses + (if a.action.Unmatched? then 1 else 0)
    }

    /** The mutating tail of `admit_candidate`, after every fallible check. */
    method CommitAdmission(f: Frame, a: Admission) returns (failure: Option<ProxyError>)
      requires Linked() && WellFormed(f.observation) && Prepared(f, a)
      requires Fresh(View(), f.observation, a.action)
      modifies this, toServer, toClient
      ensures failure.None? && Linked()
      ensures View() == AfterAdmission(old(View()), f, a.action)
    {
      AdmissionStages(View(), f, a);
      failure := ApplyCorrelation(f.observation, a.action);
      if failure.Some? {
        return;
      }
      QueueAndCount(f, a);
    }

    method QueueAndCount(f: Frame, a: Admission)
      requires toServer != toClient
      modifies this`acceptedClientMessages, this`acceptedClientBytes
      modifies this`acceptedServerMessages, this`acceptedServerBytes
      modifies this`lateResponses, this`unmatchedResponses, toServer, toClient
      ensures View() == Counted(old(View()), f, a)
    {
      if f.observation.direction.ClientToServer? {
        toServer.PushAfterCapacityCheck(f);
        acceptedClientMessages, acceptedClientBytes := a.messages, a.bytes;
      } else {
        toClient.PushAfterCapacityCheck(f);
        acceptedServerMessages, acceptedServerBytes := a.messages, a.bytes;
      }
      lateResponses, unmatchedResponses := a.late, a.unmatched;
    }

    // ---- Release -------------------------------------------------------------------------

    method Release(d: Direction, now: nat) returns (r: Result<Option<Frame>, ProxyError>)
      requires Valid()
      modifies this, toServer, toClient
      ensures Valid() && Releasable(old(View()), d)
      ensures var spec := ProxyModel.Release(old(View()), d, now);
              && (spec.Err? ==> r == Err(spec.error) && View() == old(View()))
              && (spec.Ok? ==> r == Ok(spec.value.frame) && View() == spec.value.proxy)
    {
      ghost var before := View();
      AlwaysReleasable(before, d);
      ReleaseKeepsInv(before, d, now);
      if lastTime.Some? && now < lastTime.value {
        return Err(NonMonotonicClock);
      }
      if QueueAt(d).frames == [] {
        lastTime := Some(now);
        return Ok(None);
      }
      var front := QueueAt(d).frames[0];
      var id := if front.observation.kind.Request? then front.observation.id else None;
      if id.Some? && now + limits.requestTimeout > clockMax {
        return Err(DeadlineOverflow);
      }
      var forwarded := if d.ClientToServer? then forwardedToServer else forwardedToClient;
      if forwarded >= U64_MAX {
        return Err(DiagnosticCounterOverflow);
      }
      r := CommitRelease(d, id, now, forwarded + 1);
    }

    /** The mutating tail of `release`: the request map changes before the queue is popped. */
    method CommitRelease(d: Direction, id: Option<RequestId>, now: nat, forwarded: nat)
        returns (r: Result<Option<Frame>, ProxyError>)
      requires Linked() && QueueAt(d).frames != [] && Releasable(View(), d)
      requires var o := QueueAt(d).frames[0].observation; id == if o.kind.Request? then o.id else None
      requires id.Some? ==> id.value in RequestsAt(d) && RequestsAt(d)[id.value].Queued?
      requires forwarded == 1 + (if d.ClientToServer? then forwardedToServer else forwardedToClient)
      modifies this, toServer, toClient
      ensures Linked()
      ensures r == Ok(Some(old(QueueAt(d).frames)[0]))
      ensures View() == AfterRelease(old(View()), d, now)
    {
      if id.Some? {
        if id.value !in RequestsAt(d) {
          return Err(InconsistentCorrelationState);
        }
        if !RequestsAt(d)[id.value].Queued? {
          return Err(InconsistentCorrelationState);
        }
        PutRequests(d, RequestsAt(d)[id.value := Pending(now + limits.requestTimeout)]);
      }
      var popped := QueueAt(d).Pop();
      if popped.Err? {
        return Err(InconsistentCorrelationState);
      }
      if popped.value.None? {
        return Err(InconsistentCorrelationState);
      }
      if d.ClientToServer? {
        forwardedToServer := forwarded;
      } else {
        forwardedToClient := forwarded;
      }
      lastTime := Some(now);
      return Ok(popped.value);
    }

    // ---- Expiry --------------------------------------------------------------------------

    method ExpireRequests(now: nat) returns (r: Result<seq<Expired>, ProxyError>)
      requires Valid()
      modifies this
      ensures Valid()
      ensures var spec := Expire(old(View()), now);
              && (spec.Err? ==> r == Err(spec.error) && View() == old(View()))
              && (spec.Ok? ==> r == Ok(spec.value.requests) && View() == spec.value.proxy)
    {
      r := FindExpired(now);
      if r.Err? {
        return;
      }
      ghost var swept := ExpirySwept(View(), now, r.value);
      var consistent := CommitExpiry(r.value, now);
      if !consistent {
        return Err(InconsistentCorrelationState);
      }
    }

    /** The fallible checks of `expire_requests` and the requests it will retire. */
    method FindExpired(now: nat) returns (r: Result<seq<Expired>, ProxyError>)
      ensures Expire(View(), now).Err? ==> r == Err(Expire(View(), now).error)
      ensures Expire(View(), now).Ok? ==> r == Ok(Due(View(), now))
    {
      if lastTime.Some? && now < lastTime.value {
        return Err(NonMonotonicClock);
      }
      var expired := ExpiredDirection(clientRequests, ClientToServer, now)
                     + ExpiredDirection(serverRequests, ServerToClient, now);
      if |expired| > U64_MAX || expiredRequests + |expired| > U64_MAX {
        return Err(DiagnosticCounterOverflow);
      }
      return Ok(expired);
    }

    /** The tail of `expire_requests`. */
    method CommitExpiry(expired: seq<Expired>, now: nat) returns (consistent: bool)
      requires Linked() && Distinct(expired)
      requires forall e :: e in expired ==> e.id in RequestsAt(e.origin) && e.id !in RetiredAt(e.origin)
      modifies this
      ensures consistent && Linked()
      ensures View() == Swept(old(View()), expired, now)
    {
      consistent := RetireChecked(expired);
      if !consistent {
        return;
      }
      expiredRequests := expiredRequests + |expired|;
      lastTime := Some(now);
    }

    /** A second look at the history, then the mutation. */
    method RetireChecked(expired: seq<Expired>) returns (consistent: bool)
      requires Linked() && Distinct(expired)
      requires forall e :: e in expired ==> e.id in RequestsAt(e.origin) && e.id !in RetiredAt(e.origin)
      modifies this`clientRequests, this`serverRequests
      modifies this`clientHistory, this`serverHistory, this`clientRetired, this`serverRetired
      ensures consistent && Linked()
      ensures View() == SweptLanes(old(View()), expired)
    {
      consistent := NoneRetired(expired);
      if !consistent {
        return;
      }
      consistent := RetireExpired(expired);
    }

    method NoneRetired(expired: seq<Expired>) returns (none: bool)
      requires Linked()
      ensures none <==> forall e :: e in expired ==> e.id !in RetiredAt(e.origin)
    {
      for i := 0 to |expired|
        invariant forall e :: e in expired[..i] ==> e.id !in RetiredAt(e.origin)
      {
        DigestMembership(RetiredAt(expired[i].origin), expired[i].id);
        if RetiredDigest(expired[i].id) in HistoryAt(expired[i].origin) {
          assert expired[i] in expired;
          return false;
        }
        assert expired[..i + 1] == expired[..i] + [expired[i]];
      }
      assert expired[..|expired|] == expired;
      return true;
    }

    /** Moves each expired identity from the active map to the digest history. */
    method RetireExpired(expired: seq<Expired>) returns (consistent: bool)
      requires Linked() && Distinct(expired)
      requires forall e :: e in expired ==> e.id in RequestsAt(e.origin) && e.id !in RetiredAt(e.origin)
      modifies this`clientRequests, this`serverRequests
      modifies this`clientHistory, this`serverHistory, this`clientRetired, this`serverRetired
      ensures consistent && Linked()
      ensures clientRequests == old(clientRequests) - IdsOf(expired, ClientToServer)
      ensures serverRequests == old(serverRequests) - IdsOf(expired, ServerToClient)
      ensures clientRetired == old(clientRetired) + IdsOf(expired, ClientToServer)
      ensures serverRetired == old(serverRetired) + IdsOf(expired, ServerToClient)
    {
      DistinctPositions(expired);
      for i := 0 to |expired|
        invariant Linked()
        invariant clientRequests == old(clientRequests) - IdsOf(expired[..i], ClientToServer)
        invariant serverRequests == old(serverRequests) - IdsOf(expired[..i], ServerToClient)
        invariant clientRetired == old(clientRetired) + IdsOf(expired[..i], ClientToServer)
        invariant serverRetired == old(serverRetired) + IdsOf(expired[..i], ServerToClient)
      {
        var e := expired[i];
        IdsOfNext(expired, i);
        var removed := e.id in RequestsAt(e.origin);
        PutRequests(e.origin, RequestsAt(e.origin) - {e.id});
        if !removed {
          return false;
        }
        var inserted := InsertHistory(e.origin, e.id);
        if !inserted {
          return false;
        }
      }
      assert expired[..|expired|] == expired;
      return true;
    }

    // ---- Closure -------------------------------------------------------------------------

    method Close() returns (report: CloseReport)
      requires Valid()
      modifies this, toServer, toClient
      ensures Valid() && View() == AfterClose(old(View())) && !open
      ensures report == Abandoned(old(View()))
    {
      CloseKeepsInv(View());
      CloseFits(View());
      report := ClearAll();
    }

    method ClearAll() returns (report: CloseReport)
      requires Linked()
      requires toServer.bytes == TotalBytes(toServer.frames) && toClient.bytes == TotalBytes(toClient.frames)
      requires |toServer.frames| + |toClient.frames| <= U64_MAX && toServer.bytes + toClient.bytes <= U64_MAX
      requires View().Active() <= U64_MAX && |clientRetired| + |serverRetired| <= U64_MAX
      modifies this, toServer, toClient
      ensures Linked() && View() == AfterClose(old(View()))
      ensures report == Abandoned(old(View()))
    {
      var serverMessages, serverBytes := toServer.Clear();
      var clientMessages, clientBytes := toClient.Clear();
      var requests, history := ClearCorrelation();
      open := false;
      report := CloseReport(SaturatingAdd(serverMessages, clientMessages),
                            SaturatingAdd(serverBytes, clientBytes), requests, history);
    }

    method ClearCorrelation() returns (requests: nat, history: nat)
      requires Linked()
      requires |clientRequests| + |serverRequests| <= U64_MAX && |clientRetired| + |serverRetired| <= U64_MAX
      modifies this`clientRequests, this`serverRequests
      modifies this`clientHistory, this`serverHistory, this`clientRetired, this`serverRetired
      ensures Linked()
      ensures clientRequests == map[] && serverRequests == map[] && clientRetired == {} && serverRetired == {}
      ensures requests == |old(clientRequests)| + |old(serverRequests)|
      ensures history == |old(clientRetired)| + |old(serverRetired)|
    {
      DigestCount(clientRetired);
      DigestCount(serverRetired);
      requests := SaturatingAdd(|clientRequests|, |serverRequests|);
      history := SaturatingAdd(|clientHistory|, |serverHistory|);
      clientRequests, serverRequests := map[], map[];
      clientHistory, serverHistory := {}, {};
      clientRetired, serverRetired := {}, {};
    }
  }

  /** No saturation happens within the configured limits. */
  lemma {:induction false} CloseFits(p: Proxy)
    requires Inv(p)
    ensures p.client.queue.bytes == TotalBytes(p.client.queue.frames)
    ensures p.server.queue.bytes == TotalBytes(p.server.queue.frames)
    ensures |p.client.queue.frames| + |p.server.queue.frames| <= U64_MAX
    ensures p.client.queue.bytes + p.server.queue.bytes <= U64_MAX
    ensures p.Active() <= U64_MAX && |p.client.retired| + |p.server.retired| <= U64_MAX
  {
  }

  ghost function SweptLanes(p: Proxy, expired: seq<Expired>): Proxy {
    p.(client := RetireAll(p.client, IdsOf(expired, ClientToServer)),
       server := RetireAll(p.server, IdsOf(expired, ServerToClient)))
  }

  ghost function Swept(p: Proxy, expired: seq<Expired>, now: nat): Proxy {
    SweptLanes(p, expired).(expired := p.expired + |expired|, lastTime := Some(now))
  }

  lemma {:induction false} IdsOfNext(expired: seq<Expired>, i: nat)
    requires i < |expired|
    requires forall j, k :: 0 <= j < k < |expired| ==> expired[j] != expired[k]
    ensures expired[i].id !in IdsOf(expired[..i], expired[i].origin)
    ensures IdsOf(expired[..i + 1], expired[i].origin) == IdsOf(expired[..i], expired[i].origin) + {expired[i].id}
    ensures IdsOf(expired[..i + 1], expired[i].origin.Opposite()) == IdsOf(expired[..i], expired[i].origin.Opposite())
  {
    assert expired[..i + 1] == expired[..i] + [expired[i]];
  }

  lemma {:induction false} DueFacts(p: Proxy, now: nat)
    requires Inv(p)
    ensures Distinct(Due(p, now))
    ensures forall e :: e in Due(p, now) ==> e.id in p.At(e.origin).requests && e.id !in p.At(e.origin).retired
    ensures IdsOf(Due(p, now), ClientToServer) == DueIds(p.client, now)
    ensures IdsOf(Due(p, now), ServerToClient) == DueIds(p.server, now)
  {
    DueInExact(p, ClientToServer, now);
    DueInExact(p, ServerToClient, now);
    DistinctConcat(DueIn(p, ClientToServer, now), DueIn(p, ServerToClient, now));
    DueFrom(p, ClientToServer, now);
    DueFrom(p, ServerToClient, now);
    LaneInvAt(p, ClientToServer);
    LaneInvAt(p, ServerToClient);
  }

  lemma {:induction false} ExpirySwept(p: Proxy, now: nat, expired: seq<Expired>) returns (swept: Proxy)
    requires Inv(p) && Expire(p, now).Ok? && expired == Due(p, now)
    ensures Expire(p, now).value == Expiry(swept, expired)
    ensures swept == Swept(p, expired, now) && Inv(swept)
    ensures Distinct(expired)
    ensures forall e :: e in expired ==> e.id in p.At(e.origin).requests && e.id !in p.At(e.origin).retired
  {
    DueFacts(p, now);
    ExpireKeepsInv(p, now);
    swept := AfterExpiry(p, now);
    SweptIsExpiry(p, now);
  }

  lemma {:induction false} SweptIsExpiry(p: Proxy, now: nat)
    requires IdsOf(Due(p, now), ClientToServer) == DueIds(p.client, now)
    requires IdsOf(Due(p, now), ServerToClient) == DueIds(p.server, now)
    ensures AfterExpiry(p, now) == Swept(p, Due(p, now), now)
  {
  }

  /** The intermediate state after correlation and before the frame is queued. */
  ghost function Correlated(p: Proxy, o: Observation, action: Action): Proxy
    requires WellFormed(o)
  {
    if o.kind.Request? then
      p.With(o.direction, p.At(o.direction).(requests := p.At(o.direction).requests[o.id.value := Queued]))
    else if action.Complete? && o.id.Some? then
      p.With(o.direction.Opposite(), RetireAll(p.At(o.direction.Opposite()), {o.id.value}))
    else p
  }
}
