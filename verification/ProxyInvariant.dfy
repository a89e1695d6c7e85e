/** The whole-state invariant of the proxy and its preservation by every operation. */
module ProxyInvariant {
  import opened Basics
  import opened Messages
  import opened ProxyModel

  /** Identities of the request frames in `frames`, in order. */
  ghost function RequestIds(frames: seq<Frame>): seq<RequestId> {
    if frames == [] then [] else
      var last := frames[|frames| - 1].observation;
      RequestIds(frames[..|frames| - 1]) +
      (if last.kind.Request? && last.id.Some? then [last.id.value] else [])
  }

  ghost function QueuedIds(lane: Lane): set<RequestId> {
    set id | id in lane.requests && lane.requests[id].Queued?
  }

  ghost predicate QueueInv(q: Queue, d: Direction, limits: QueueLimits) {
    && (forall f :: f in q.frames ==> ValidFrame(f) && f.observation.direction == d)
    && q.bytes == TotalBytes(q.frames)
    && |q.frames| <= limits.messages && q.bytes <= limits.bytes
    && |q.frames| <= q.peakMessages <= limits.messages
    && q.bytes <= q.peakBytes <= limits.bytes
  }

  /** A request is `Queued` exactly when one request frame carrying its identity is queued, and no
      identity is both active and retired. */
  ghost predicate CorrelationInv(lane: Lane) {
    && Distinct(RequestIds(lane.queue.frames))
    && Elements(RequestIds(lane.queue.frames)) == QueuedIds(lane)
    && lane.requests.Keys !! lane.retired
  }

  ghost predicate DeadlineInv(lane: Lane, lastTime: Option<nat>, timeout: nat) {
    forall id :: id in lane.requests && lane.requests[id].Pending? ==>
                   && lastTime.Some?
                   && timeout <= lane.requests[id].deadline <= lastTime.value + timeout
  }

  ghost predicate LaneInv(lane: Lane, d: Direction, limits: QueueLimits, lastTime: Option<nat>, timeout: nat) {
    && QueueInv(lane.queue, d, limits)
    && CorrelationInv(lane)
    && DeadlineInv(lane, lastTime, timeout)
    && lane.acceptedMessages <= U64_MAX && lane.acceptedBytes <= U64_MAX
    && lane.forwarded <= U64_MAX
  }

  predicate LaneClear(lane: Lane) {
    lane.queue.frames == [] && lane.requests == map[] && lane.retired == {}
  }

  ghost predicate Inv(p: Proxy) {
    && ValidProxyLimits(p.limits)
    && LaneInv(p.client, ClientToServer, p.limits.toServer, p.lastTime, p.limits.requestTimeout)
    && LaneInv(p.server, ServerToClient, p.limits.toClient, p.lastTime, p.limits.requestTimeout)
    && (p.open || (LaneClear(p.client) && LaneClear(p.server)))
    && p.Active() <= p.limits.activeRequests
    && p.Tracked() <= p.limits.requestHistory
    && p.late <= U64_MAX && p.unmatched <= U64_MAX && p.expired <= U64_MAX
  }

  // ---- Sequences of frames ---------------------------------------------------------------

  lemma {:induction false} RequestIdsConcat(a: seq<Frame>, b: seq<Frame>)
    ensures RequestIds(a + b) == RequestIds(a) + RequestIds(b)
  {
    if b == [] {
      assert a + b == a;
    } else {
      assert (a + b)[..|a + b| - 1] == a + b[..|b| - 1];
      RequestIdsConcat(a, b[..|b| - 1]);
    }
  }

  lemma {:induction false} TotalBytesConcat(a: seq<Frame>, b: seq<Frame>)
    ensures TotalBytes(a + b) == TotalBytes(a) + TotalBytes(b)
  {
    if b == [] {
      assert a + b == a;
    } else {
      assert (a + b)[..|a + b| - 1] == a + b[..|b| - 1];
      TotalBytesConcat(a, b[..|b| - 1]);
    }
  }

  ghost function RequestIdOf(f: Frame): seq<RequestId> {
    if f.observation.kind.Request? && f.observation.id.Some? then [f.observation.id.value] else []
  }

  lemma {:induction false} Singleton(f: Frame)
    ensures RequestIds([f]) == RequestIdOf(f)
    ensures TotalBytes([f]) == |f.bytes|
  {
    assert [f][..0] == [];
  }

  lemma {:induction false} SplitFront(frames: seq<Frame>)
    requires frames != []
    ensures RequestIds(frames) == RequestIdOf(frames[0]) + RequestIds(frames[1..])
    ensures TotalBytes(frames) == |frames[0].bytes| + TotalBytes(frames[1..])
  {
    assert frames == [frames[0]] + frames[1..];
    Singleton(frames[0]);
    RequestIdsConcat([frames[0]], frames[1..]);
    TotalBytesConcat([frames[0]], frames[1..]);
  }

  lemma {:induction false} AppendLast(frames: seq<Frame>, f: Frame)
    ensures RequestIds(frames + [f]) == RequestIds(frames) + RequestIdOf(f)
    ensures TotalBytes(frames + [f]) == TotalBytes(frames) + |f.bytes|
  {
    Singleton(f);
    RequestIdsConcat(frames, [f]);
    TotalBytesConcat(frames, [f]);
  }

  // ---- Lanes -----------------------------------------------------------------------------

  lemma {:induction false} InitialInv(limits: ProxyLimits, clockMax: nat)
    requires ValidProxyLimits(limits)
    ensures Inv(Initial(limits, clockMax))
  {
  }

  lemma {:induction false} LaneInvAt(p: Proxy, d: Direction)
    requires Inv(p)
    ensures LaneInv(p.At(d), d, p.QueueLimitsAt(d), p.lastTime, p.limits.requestTimeout)
    ensures p.open || LaneClear(p.At(d))
  {
  }

  /** The invariant, stated for one direction and its opposite. */
  lemma {:induction false} InvIntro(q: Proxy, d: Direction)
    requires ValidProxyLimits(q.limits)
    requires LaneInv(q.At(d), d, q.QueueLimitsAt(d), q.lastTime, q.limits.requestTimeout)
    requires LaneInv(q.At(d.Opposite()), d.Opposite(), q.QueueLimitsAt(d.Opposite()), q.lastTime,
                     q.limits.requestTimeout)
    requires q.open || (LaneClear(q.At(d)) && LaneClear(q.At(d.Opposite())))
    requires |q.At(d).requests| + |q.At(d.Opposite()).requests| <= q.limits.activeRequests
    requires |q.At(d).requests| + |q.At(d.Opposite()).requests| + |q.At(d).retired| + |q.At(d.Opposite()).retired|
             <= q.limits.requestHistory
    requires q.late <= U64_MAX && q.unmatched <= U64_MAX && q.expired <= U64_MAX
    ensures Inv(q)
  {
  }

  lemma {:induction false} EnqueueQueueInv(q: Queue, d: Direction, limits: QueueLimits, f: Frame)
    requires QueueInv(q, d, limits)
    requires ValidFrame(f) && f.observation.direction == d
    requires |q.frames| < limits.messages && q.bytes + |f.bytes| <= limits.bytes
    ensures QueueInv(Enqueue(q, f), d, limits)
  {
    AppendLast(q.frames, f);
  }

  /** Enqueueing a frame whose fresh request identity, if any, becomes `Queued`. */
  lemma {:induction false} EnterCorrelationInv(lane: Lane, after: Lane, f: Frame)
    requires CorrelationInv(lane) && ValidFrame(f)
    requires after.queue.frames == lane.queue.frames + [f] && after.retired == lane.retired
    requires f.observation.kind.Request? ==>
               && f.observation.id.value !in lane.requests && f.observation.id.value !in lane.retired
               && after.requests == lane.requests[f.observation.id.value := Queued]
    requires !f.observation.kind.Request? ==> after.requests == lane.requests
    ensures CorrelationInv(after)
  {
    AppendLast(lane.queue.frames, f);
    if f.observation.kind.Request? {
      var id := f.observation.id.value;
      DistinctConcat(RequestIds(lane.queue.frames), [id]);
      DistinctSingle(id);
      assert QueuedIds(after) == QueuedIds(lane) + {id};
    } else {
      assert RequestIds(after.queue.frames) == RequestIds(lane.queue.frames);
    }
  }

  lemma {:induction false} EnterLaneInv(lane: Lane, f: Frame, limits: QueueLimits, lastTime: Option<nat>, timeout: nat)
    requires LaneInv(lane, f.observation.direction, limits, lastTime, timeout) && ValidFrame(f)
    requires |lane.queue.frames| < limits.messages && lane.queue.bytes + |f.bytes| <= limits.bytes
    requires lane.acceptedMessages < U64_MAX && lane.acceptedBytes + |f.bytes| <= U64_MAX
    requires f.observation.kind.Request? ==>
               f.observation.id.value !in lane.requests && f.observation.id.value !in lane.retired
    ensures LaneInv(EnterLane(lane, f), f.observation.direction, limits, lastTime, timeout)
    ensures |EnterLane(lane, f).requests| == |lane.requests| + if f.observation.kind.Request? then 1 else 0
  {
    EnqueueQueueInv(lane.queue, f.observation.direction, limits, f);
    EnterCorrelationInv(lane, EnterLane(lane, f), f);
  }

  /** Removing pending identities from the active map never touches the queued ones. */
  lemma {:induction false} RetireLaneInv(lane: Lane, ids: set<RequestId>, d: Direction, limits: QueueLimits,
          lastTime: Option<nat>, timeout: nat)
    requires LaneInv(lane, d, limits, lastTime, timeout)
    requires forall id :: id in ids ==> id in lane.requests && lane.requests[id].Pending?
    ensures LaneInv(RetireAll(lane, ids), d, limits, lastTime, timeout)
    ensures |RetireAll(lane, ids).requests| == |lane.requests| - |ids|
    ensures |RetireAll(lane, ids).retired| == |lane.retired| + |ids|
  {
    var after := RetireAll(lane, ids);
    assert QueuedIds(after) == QueuedIds(lane);
    assert after.requests.Keys == lane.requests.Keys - ids;
    assert ids <= lane.requests.Keys;
    assert ids !! lane.retired;
  }

  /** The front request of a queue is `Queued`. */
  lemma {:induction false} FrontReady(lane: Lane, d: Direction, limits: QueueLimits, lastTime: Option<nat>,
          timeout: nat)
    requires LaneInv(lane, d, limits, lastTime, timeout) && lane.queue.frames != []
    ensures var f := lane.queue.frames[0];
            && ValidFrame(f) && f.observation.direction == d
            && |f.bytes| <= lane.queue.bytes
            && (f.observation.kind.Request? ==>
                  && f.observation.id.value in lane.requests
                  && lane.requests[f.observation.id.value].Queued?)
  {
    var f := lane.queue.frames[0];
    assert f in lane.queue.frames;
    SplitFront(lane.queue.frames);
    if f.observation.kind.Request? {
      DistinctConcat([f.observation.id.value], RequestIds(lane.queue.frames[1..]));
      DistinctSingle(f.observation.id.value);
    }
  }

  lemma {:induction false} DequeueQueueInv(q: Queue, d: Direction, limits: QueueLimits)
    requires QueueInv(q, d, limits) && q.frames != []
    ensures |q.frames[0].bytes| <= q.bytes
    ensures QueueInv(Dequeue(q), d, limits)
  {
    SplitFront(q.frames);
  }

  lemma {:induction false} LeaveCorrelationInv(lane: Lane, after: Lane, f: Frame, deadline: nat)
    requires CorrelationInv(lane) && ValidFrame(f)
    requires lane.queue.frames == [f] + after.queue.frames
    requires after.retired == lane.retired
    requires after.requests == if f.observation.kind.Request?
                               then lane.requests[f.observation.id.value := Pending(deadline)]
                               else lane.requests
    ensures CorrelationInv(after)
    ensures after.requests.Keys == lane.requests.Keys
  {
    var rest := RequestIds(after.queue.frames);
    Singleton(f);
    RequestIdsConcat([f], after.queue.frames);
    DistinctConcat(RequestIdOf(f), rest);
    if f.observation.kind.Request? {
      DistinctSingle(f.observation.id.value);
      assert QueuedIds(after) == QueuedIds(lane) - {f.observation.id.value};
    } else {
      assert RequestIds(lane.queue.frames) == rest;
    }
  }

  lemma {:induction false} LeaveLaneInv(lane: Lane, after: Lane, d: Direction, limits: QueueLimits,
          lastTime: Option<nat>, now: nat, timeout: nat)
    requires LaneInv(lane, d, limits, lastTime, timeout) && lane.queue.frames != []
    requires lastTime.Some? ==> lastTime.value <= now
    requires lane.forwarded < U64_MAX
    requires ValidFrame(lane.queue.frames[0]) && |lane.queue.frames[0].bytes| <= lane.queue.bytes
    requires after == LeaveLane(lane, now + timeout)
    ensures LaneInv(after, d, limits, Some(now), timeout)
    ensures after.requests.Keys == lane.requests.Keys
  {
    DequeueQueueInv(lane.queue, d, limits);
    assert lane.queue.frames == [lane.queue.frames[0]] + after.queue.frames;
    LeaveCorrelationInv(lane, after, lane.queue.frames[0], now + timeout);
  }

  /** Deadlines stay within one timeout of a later clock reading. */
  lemma {:induction false} LaterLaneInv(lane: Lane, d: Direction, limits: QueueLimits, lastTime: Option<nat>, now: nat,
          timeout: nat)
    requires LaneInv(lane, d, limits, lastTime, timeout)
    requires lastTime.Some? ==> lastTime.value <= now
    ensures LaneInv(lane, d, limits, Some(now), timeout)
  {
  }

  // ---- Operations ------------------------------------------------------------------------

  /** Admission opens at most one request, within the limits; completing one only moves it. */
  lemma {:induction false} AdmissionCounts(p: Proxy, f: Frame, action: Action, d: Direction, e: Direction)
    requires ValidFrame(f) && d == f.observation.direction && e == d.Opposite()
    requires Correlate(p, f.observation) == Ok(action)
    requires p.At(e).requests.Keys !! p.At(e).retired
    requires p.Active() <= p.limits.activeRequests && p.Tracked() <= p.limits.requestHistory
    ensures var enter, answer := EnterLane(p.At(d), f), AnswerLane(p.At(e), f, action);
            && |enter.requests| + |answer.requests| <= p.limits.activeRequests
            && |enter.requests| + |answer.requests| + |enter.retired| + |answer.retired| <= p.limits.requestHistory
  {
    assert p.Active() == |p.At(d).requests| + |p.At(e).requests|;
    assert p.Tracked() == p.Active() + |p.At(d).retired| + |p.At(e).retired|;
    if action.Complete? {
      var id, lane := f.observation.id.value, p.At(e);
      assert (lane.requests - {id}).Keys == lane.requests.Keys - {id};
      assert |lane.requests - {id}| == |(lane.requests - {id}).Keys|;
    }
  }

  lemma {:induction false} AdmissionInv(p: Proxy, f: Frame, action: Action, q: Proxy, d: Direction, e: Direction)
    requires Inv(p) && ValidFrame(f)
    requires d == f.observation.direction && e == d.Opposite()
    requires p.open && CapacityError(p, d, |f.bytes|).None? && CountersFit(p, f, action)
    requires Correlate(p, f.observation) == Ok(action)
    requires q.At(d) == EnterLane(p.At(d), f) && q.At(e) == AnswerLane(p.At(e), f, action)
    requires q.limits == p.limits && q.open && q.lastTime == p.lastTime && q.expired == p.expired
    requires q.late <= U64_MAX && q.unmatched <= U64_MAX
    ensures Inv(q)
  {
    LaneInvAt(p, d);
    LaneInvAt(p, e);
    AdmissionCounts(p, f, action, d, e);
    AdmissionLanesInv(p.At(d), p.At(e), f, action, d, e, p.QueueLimitsAt(d), p.QueueLimitsAt(e), p.lastTime,
                      p.limits.requestTimeout);
    InvIntro(q, d);
  }

  lemma {:induction false} AdmissionLanesInv(enter: Lane, answer: Lane, f: Frame, action: Action, d: Direction,
          e: Direction, toD: QueueLimits, toE: QueueLimits, lastTime: Option<nat>, timeout: nat)
    requires ValidFrame(f) && d == f.observation.direction && e == d.Opposite()
    requires LaneInv(enter, d, toD, lastTime, timeout) && LaneInv(answer, e, toE, lastTime, timeout)
    requires |enter.queue.frames| < toD.messages && enter.queue.bytes + |f.bytes| <= toD.bytes
    requires enter.acceptedMessages < U64_MAX && enter.acceptedBytes + |f.bytes| <= U64_MAX
    requires f.observation.kind.Request? ==>
               f.observation.id.value !in enter.requests && f.observation.id.value !in enter.retired
    requires action.Complete? ==>
               && f.observation.id.Some? && f.observation.id.value in answer.requests
               && answer.requests[f.observation.id.value].Pending?
    ensures LaneInv(EnterLane(enter, f), d, toD, lastTime, timeout)
    ensures LaneInv(AnswerLane(answer, f, action), e, toE, lastTime, timeout)
  {
    EnterLaneInv(enter, f, toD, lastTime, timeout);
    if action.Complete? {
      RetireLaneInv(answer, {f.observation.id.value}, e, toE, lastTime, timeout);
    }
  }

  /** Every admission keeps the invariant. */
  lemma {:induction false} AdmitKeepsInv(p: Proxy, c: Candidate)
    requires Inv(p) && ValidFrame(c.frame)
    ensures Admit(p, c).Ok? ==> Inv(Admit(p, c).value)
  {
    if Admit(p, c).Ok? {
      var o := c.frame.observation;
      AdmissionInv(p, c.frame, Correlate(p, o).value, Admit(p, c).value, o.direction, o.direction.Opposite());
    }
  }

  lemma {:induction false} AlwaysReleasable(p: Proxy, d: Direction)
    requires Inv(p)
    ensures Releasable(p, d)
    ensures p.At(d).queue.frames != [] ==>
              var o := p.At(d).queue.frames[0].observation;
              && o.direction == d
              && (o.kind.Request? ==> o.id.value in p.At(d).requests && p.At(d).requests[o.id.value].Queued?)
  {
    if p.At(d).queue.frames != [] {
      FrontReady(p.At(d), d, p.QueueLimitsAt(d), p.lastTime, p.limits.requestTimeout);
    }
  }

  lemma {:induction false} FrameReleaseInv(p: Proxy, d: Direction, e: Direction, now: nat, q: Proxy)
    requires Inv(p) && p.open && Releasable(p, d) && !ClockMovedBack(p, now)
    requires p.At(d).queue.frames != [] && p.At(d).forwarded < U64_MAX
    requires e == d.Opposite() && q.At(e) == p.At(e)
    requires q.At(d) == LeaveLane(p.At(d), now + p.limits.requestTimeout)
    requires q.limits == p.limits && q.open == p.open && q.lastTime == Some(now)
    requires q.late == p.late && q.unmatched == p.unmatched && q.expired == p.expired
    ensures Inv(q)
  {
    LaneInvAt(p, d);
    LaneInvAt(p, e);
    assert p.limits == q.limits && p.QueueLimitsAt(d) == q.QueueLimitsAt(d) && p.QueueLimitsAt(e) == q.QueueLimitsAt(e);
    LaterLaneInv(p.At(e), e, p.QueueLimitsAt(e), p.lastTime, now, p.limits.requestTimeout);
    LeaveLaneInv(p.At(d), q.At(d), d, p.QueueLimitsAt(d), p.lastTime, now, p.limits.requestTimeout);
    assert |q.At(d).requests.Keys| == |p.At(d).requests.Keys|;
    InvIntro(q, d);
  }

  /** Every release keeps the invariant. */
  lemma {:induction false} ReleaseKeepsInv(p: Proxy, d: Direction, now: nat)
    requires Inv(p) && Releasable(p, d)
    ensures Release(p, d, now).Ok? ==> Inv(Release(p, d, now).value.proxy)
  {
    if Release(p, d, now).Ok? {
      if p.At(d).queue.frames == [] {
        var timeout := p.limits.requestTimeout;
        LaterLaneInv(p.client, ClientToServer, p.limits.toServer, p.lastTime, now, timeout);
        LaterLaneInv(p.server, ServerToClient, p.limits.toClient, p.lastTime, now, timeout);
      } else {
        LaneInvAt(p, d);
        FrameReleaseInv(p, d, d.Opposite(), now, Release(p, d, now).value.proxy);
      }
    }
  }

  /** Every expiry keeps the invariant. */
  lemma {:induction false} ExpireKeepsInv(p: Proxy, now: nat)
    requires Inv(p)
    ensures Expire(p, now).Ok? ==> Inv(Expire(p, now).value.proxy)
  {
    if Expire(p, now).Ok? {
      var timeout := p.limits.requestTimeout;
      LaterLaneInv(p.client, ClientToServer, p.limits.toServer, p.lastTime, now, timeout);
      LaterLaneInv(p.server, ServerToClient, p.limits.toClient, p.lastTime, now, timeout);
      RetireLaneInv(p.client, DueIds(p.client, now), ClientToServer, p.limits.toServer, Some(now), timeout);
      RetireLaneInv(p.server, DueIds(p.server, now), ServerToClient, p.limits.toClient, Some(now), timeout);
      assert p.open || (DueIds(p.client, now) == {} && DueIds(p.server, now) == {});
    }
  }

  /** Closing keeps the invariant, and closing again abandons nothing. */
  lemma {:induction false} CloseKeepsInv(p: Proxy)
    requires Inv(p)
    ensures Inv(AfterClose(p))
    ensures Abandoned(AfterClose(p)) == CloseReport(0, 0, 0, 0)
  {
    var q := AfterClose(p);
    DistinctSingle(Unsigned(0));
    assert QueuedIds(q.client) == {} && QueuedIds(q.server) == {};
  }

  // ---- Deadlines -------------------------------------------------------------------------

  /** Expiry returns each overdue forwarded request once, leaves none behind, and touches neither
      queued requests nor requests that still have time. */
  lemma {:induction false} ExpiryIsExact(p: Proxy, now: nat, d: Direction, id: RequestId)
    requires Inv(p) && Expire(p, now).Ok?
    ensures var e := Expire(p, now).value;
            var before, after := p.At(d), e.proxy.At(d);
            && Distinct(e.requests)
            && e.proxy.expired == p.expired + |e.requests|
            && (Expired(d, id) in e.requests <==>
                  id in before.requests && before.requests[id].Pending? && before.requests[id].deadline <= now)
            && (id in before.requests ==> (id in after.requests <==> Expired(d, id) !in e.requests))
            && (id in after.requests ==>
                  && id in before.requests && after.requests[id] == before.requests[id]
                  && (before.requests[id].Pending? ==> now < before.requests[id].deadline))
            && (id in after.retired <==> id in before.retired || Expired(d, id) in e.requests)
            && after.queue == before.queue
  {
    var e := Expire(p, now).value;
    var client, server := DueIn(p, ClientToServer, now), DueIn(p, ServerToClient, now);
    DueInExact(p, ClientToServer, now);
    DueInExact(p, ServerToClient, now);
    assert Expired(d, id) in e.requests <==> Expired(d, id) in client || Expired(d, id) in server;
    DistinctConcat(client, server);
  }

  lemma {:induction false} DueInExact(p: Proxy, d: Direction, now: nat)
    ensures Distinct(DueIn(p, d, now))
    ensures forall e: Expired :: e in DueIn(p, d, now) <==> e.origin == d && e.id in DueIds(p.At(d), now)
    ensures |DueIn(p, d, now)| == |DueIds(p.At(d), now)|
  {
    var ids, due := SortedIds(DueIds(p.At(d), now)), DueIn(p, d, now);
    SortedIdsFacts(DueIds(p.At(d), now));
    assert forall i :: 0 <= i < |due| ==> due[i] == Expired(d, ids[i]);
    DistinctPositions(ids);
    DistinctPositions(due);
    DistinctLength(ids);
    forall e: Expired ensures e in due <==> e.origin == d && e.id in DueIds(p.At(d), now) {
      if e in due {
        var i :| 0 <= i < |due| && due[i] == e;
        assert ids[i] in Elements(ids);
      }
      if e.origin == d && e.id in Elements(ids) {
        var i :| 0 <= i < |ids| && ids[i] == e.id;
        assert due[i] == e;
      }
    }
  }

  /** The expired requests of one origin are exactly its overdue ones. */
  lemma {:induction false} DueFrom(p: Proxy, d: Direction, now: nat)
    ensures IdsOf(Due(p, now), d) == DueIds(p.At(d), now)
  {
    DueInExact(p, ClientToServer, now);
    DueInExact(p, ServerToClient, now);
    forall id | id in DueIds(p.At(d), now) ensures id in IdsOf(Due(p, now), d) {
      assert Expired(d, id) in DueIn(p, d, now);
      assert Expired(d, id) in Due(p, now);
    }
  }

  /** Observed time never moves backward and a new deadline is exactly one timeout away. */
  lemma {:induction false} TimeIsMonotone(p: Proxy, d: Direction, now: nat)
    requires Inv(p) && Releasable(p, d)
    ensures Release(p, d, now).Ok? ==>
              var q := Release(p, d, now).value.proxy;
              && q.lastTime == Some(now) && (p.lastTime.Some? ==> p.lastTime.value <= now)
              && forall id :: id in q.At(d).requests && q.At(d).requests[id].Pending? ==>
                   || (id in p.At(d).requests && p.At(d).requests[id] == q.At(d).requests[id])
                   || q.At(d).requests[id].deadline == now + p.limits.requestTimeout
    ensures Expire(p, now).Ok? ==>
              && Expire(p, now).value.proxy.lastTime == Some(now)
              && (p.lastTime.Some? ==> p.lastTime.value <= now)
  {
  }
}
