/** The transparent proxy as a value: its state and what each operation may do to it.
    `Proxy.dfy` proves that the mutable implementation computes exactly these transitions. */
module ProxyModel {
  import opened Basics
  import opened Messages

  datatype Phase = Queued | Pending(deadline: nat)

  datatype Queue = Queue(frames: seq<Frame>, bytes: nat, peakMessages: nat, peakBytes: nat)

  /** Everything the proxy keeps for one direction: the frames travelling that way, the requests
      that originated there, and the identities retired there. */
  datatype Lane = Lane(
    queue: Queue,
    requests: map<RequestId, Phase>,
    retired: set<RequestId>,
    acceptedMessages: nat,
    acceptedBytes: nat,
    forwarded: nat)

  /** `clockMax` is the last instant the platform clock can represent. */
  datatype Proxy = Proxy(
    limits: ProxyLimits,
    clockMax: nat,
    open: bool,
    client: Lane,
    server: Lane,
    lastTime: Option<nat>,
    late: nat,
    unmatched: nat,
    expired: nat)
  {
    function At(d: Direction): Lane {
      if d.ClientToServer? then client else server
    }

    function With(d: Direction, lane: Lane): Proxy {
      if d.ClientToServer? then this.(client := lane) else this.(server := lane)
    }

    function QueueLimitsAt(d: Direction): QueueLimits {
      if d.ClientToServer? then limits.toServer else limits.toClient
    }

    function Active(): nat {
      |client.requests| + |server.requests|
    }

    function Tracked(): nat {
      Active() + |client.retired| + |server.retired|
    }
  }

  const EMPTY_LANE := Lane(Queue([], 0, 0, 0), map[], {}, 0, 0, 0)

  function Initial(limits: ProxyLimits, clockMax: nat): Proxy {
    Proxy(limits, clockMax, true, EMPTY_LANE, EMPTY_LANE, None, 0, 0, 0)
  }

  function TotalBytes(frames: seq<Frame>): nat {
    if frames == [] then 0 else TotalBytes(frames[..|frames| - 1]) + |frames[|frames| - 1].bytes|
  }

  // ---- Admission -------------------------------------------------------------------------

  datatype Action = NoAction | Complete | Late | Unmatched

  function CapacityError(p: Proxy, d: Direction, bytes: nat): Option<ProxyError> {
    var q := p.At(d).queue;
    if |q.frames| >= p.QueueLimitsAt(d).messages then Some(QueueMessageLimitExceeded(d))
    else if q.bytes + bytes > p.QueueLimitsAt(d).bytes then Some(QueueByteLimitExceeded(d))
    else None
  }

  function Correlate(p: Proxy, o: Observation): Result<Action, ProxyError>
    requires WellFormed(o)
  {
    match o.kind
    case Notification => Ok(NoAction)
    case Request =>
      var lane := p.At(o.direction);
      if o.id.value in lane.requests then Err(DuplicateRequestId(o.direction))
      else if o.id.value in lane.retired then Err(ReusedRequestId(o.direction))
      else if p.Active() >= p.limits.activeRequests then Err(ActiveRequestLimitExceeded)
      else if p.Tracked() >= p.limits.requestHistory then Err(RequestHistoryLimitExceeded)
      else Ok(NoAction)
    case _ =>
      var origin := p.At(o.direction.Opposite());
      if o.id.None? then Ok(Unmatched)
      else if o.id.value in origin.requests then
        if origin.requests[o.id.value].Pending? then Ok(Complete)
        else Err(ResponseBeforeRequestForwarded)
      else if o.id.value in origin.retired then Ok(Late)
      else Ok(Unmatched)
  }

  function Enqueue(q: Queue, f: Frame): Queue {
    Queue(q.frames + [f], q.bytes + |f.bytes|,
          Max(q.peakMessages, |q.frames| + 1), Max(q.peakBytes, q.bytes + |f.bytes|))
  }

  predicate CountersFit(p: Proxy, f: Frame, action: Action) {
    var lane := p.At(f.observation.direction);
    && lane.acceptedMessages < U64_MAX
    && lane.acceptedBytes + |f.bytes| <= U64_MAX
    && (action.Unmatched? ==> p.unmatched < U64_MAX)
    && (action.Late? ==> p.late < U64_MAX)
  }

  /** The lane a frame enters: it joins the queue, and a request becomes active. */
  function EnterLane(lane: Lane, f: Frame): Lane
    requires WellFormed(f.observation)
  {
    lane.(queue := Enqueue(lane.queue, f),
          requests := if f.observation.kind.Request?
                      then lane.requests[f.observation.id.value := Queued] else lane.requests,
          acceptedMessages := lane.acceptedMessages + 1,
          acceptedBytes := lane.acceptedBytes + |f.bytes|)
  }

  function RetireAll(lane: Lane, ids: set<RequestId>): Lane {
    lane.(requests := lane.requests - ids, retired := lane.retired + ids)
  }

  /** The lane the frame answers, if it completes a request there. */
  function AnswerLane(lane: Lane, f: Frame, action: Action): Lane {
    if action.Complete? && f.observation.id.Some? then RetireAll(lane, {f.observation.id.value}) else lane
  }

  function AfterAdmission(p: Proxy, f: Frame, action: Action): Proxy
    requires WellFormed(f.observation)
  {
    var d := f.observation.direction;
    var e := d.Opposite();
    p.With(d, EnterLane(p.At(d), f))
     .With(e, AnswerLane(p.At(e), f, action))
     .(late := p.late + if action.Late? then 1 else 0,
       unmatched := p.unmatched + if action.Unmatched? then 1 else 0)
  }

  /** `admit`: the new state, or the error that leaves the old one in place. */
  function Admit(p: Proxy, c: Candidate): Result<Proxy, ProxyError>
    requires ValidFrame(c.frame)
  {
    var o := c.frame.observation;
    if !p.open then Err(Closed)
    else if c.limits != p.limits then Err(CandidateLimitsMismatch)
    else if CapacityError(p, o.direction, |c.frame.bytes|).Some? then
      Err(CapacityError(p, o.direction, |c.frame.bytes|).value)
    else if Correlate(p, o).Err? then Err(Correlate(p, o).error)
    else if !CountersFit(p, c.frame, Correlate(p, o).value) then Err(DiagnosticCounterOverflow)
    else Ok(AfterAdmission(p, c.frame, Correlate(p, o).value))
  }

  // ---- Release ---------------------------------------------------------------------------

  predicate ClockMovedBack(p: Proxy, now: nat) {
    p.lastTime.Some? && now < p.lastTime.value
  }

  function Dequeue(q: Queue): Queue
    requires q.frames != []
    requires |q.frames[0].bytes| <= q.bytes
  {
    q.(frames := q.frames[1..], bytes := q.bytes - |q.frames[0].bytes|)
  }

  /** The front frame, if any, is a validated one that the queue accounts for. */
  predicate Releasable(p: Proxy, d: Direction) {
    var q := p.At(d).queue;
    q.frames != [] ==> ValidFrame(q.frames[0]) && |q.frames[0].bytes| <= q.bytes
  }

  /** The lane a frame leaves: it is dequeued, and a request becomes pending. */
  function LeaveLane(lane: Lane, deadline: nat): Lane
    requires lane.queue.frames != []
    requires ValidFrame(lane.queue.frames[0]) && |lane.queue.frames[0].bytes| <= lane.queue.bytes
  {
    var o := lane.queue.frames[0].observation;
    lane.(queue := Dequeue(lane.queue),
          requests := if o.kind.Request? then lane.requests[o.id.value := Pending(deadline)] else lane.requests,
          forwarded := lane.forwarded + 1)
  }

  function AfterRelease(p: Proxy, d: Direction, now: nat): Proxy
    requires p.At(d).queue.frames != [] && Releasable(p, d)
  {
    p.With(d, LeaveLane(p.At(d), now + p.limits.requestTimeout)).(lastTime := Some(now))
  }

  datatype Released = Released(proxy: Proxy, frame: Option<Frame>)

  function Release(p: Proxy, d: Direction, now: nat): Result<Released, ProxyError>
    requires Releasable(p, d)
  {
    var lane := p.At(d);
    if ClockMovedBack(p, now) then Err(NonMonotonicClock)
    else if lane.queue.frames == [] then Ok(Released(p.(lastTime := Some(now)), None))
    else if lane.queue.frames[0].observation.kind.Request?
            && now + p.limits.requestTimeout > p.clockMax then Err(DeadlineOverflow)
    else if lane.forwarded >= U64_MAX then Err(DiagnosticCounterOverflow)
    else Ok(Released(AfterRelease(p, d, now), Some(lane.queue.frames[0])))
  }

  // ---- Expiry ----------------------------------------------------------------------------

  datatype Expired = Expired(origin: Direction, id: RequestId)

  /** The identities of one origin among expired requests. */
  ghost function IdsOf(expired: seq<Expired>, d: Direction): set<RequestId> {
    set e | e in expired && e.origin == d :: e.id
  }

  function Overdue(requests: map<RequestId, Phase>, now: nat): set<RequestId> {
    set id | id in requests && requests[id].Pending? && requests[id].deadline <= now
  }

  function DueIds(lane: Lane, now: nat): set<RequestId> {
    Overdue(lane.requests, now)
  }

  /** `expired_direction`: one origin's overdue requests, in key order. */
  function ExpiredDirection(requests: map<RequestId, Phase>, origin: Direction, now: nat): seq<Expired> {
    var ids := SortedIds(Overdue(requests, now));
    seq(|ids|, i requires 0 <= i < |ids| => Expired(origin, ids[i]))
  }

  ghost function DueIn(p: Proxy, d: Direction, now: nat): seq<Expired> {
    ExpiredDirection(p.At(d).requests, d, now)
  }

  /** Every forwarded request whose deadline has passed, client origin first, in key order. */
  ghost function Due(p: Proxy, now: nat): seq<Expired> {
    DueIn(p, ClientToServer, now) + DueIn(p, ServerToClient, now)
  }

  ghost function AfterExpiry(p: Proxy, now: nat): Proxy {
    p.(client := RetireAll(p.client, DueIds(p.client, now)),
       server := RetireAll(p.server, DueIds(p.server, now)),
       expired := p.expired + |Due(p, now)|,
       lastTime := Some(now))
  }

  datatype Expiry = Expiry(proxy: Proxy, requests: seq<Expired>)

  ghost function Expire(p: Proxy, now: nat): Result<Expiry, ProxyError> {
    if ClockMovedBack(p, now) then Err(NonMonotonicClock)
    else if p.expired + |Due(p, now)| > U64_MAX then Err(DiagnosticCounterOverflow)
    else Ok(Expiry(AfterExpiry(p, now), Due(p, now)))
  }

  // ---- Closure ---------------------------------------------------------------------------

  datatype CloseReport = CloseReport(messages: nat, bytes: nat, requests: nat, history: nat)

  function Emptied(lane: Lane): Lane {
    lane.(queue := lane.queue.(frames := [], bytes := 0), requests := map[], retired := {})
  }

  function AfterClose(p: Proxy): Proxy {
    p.(open := false, client := Emptied(p.client), server := Emptied(p.server))
  }

  /** What closing abandons, counted exactly. */
  function Abandoned(p: Proxy): CloseReport {
    CloseReport(|p.client.queue.frames| + |p.server.queue.frames|,
                TotalBytes(p.client.queue.frames) + TotalBytes(p.server.queue.frames),
                p.Active(),
                |p.client.retired| + |p.server.retired|)
  }
}
