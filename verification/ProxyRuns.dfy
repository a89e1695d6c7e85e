/** What holds over whole runs of the proxy: every frame and every request is accounted for. */
module ProxyRuns {
  import opened Basics
  import opened Messages
  import opened ProxyModel
  import opened ProxyInvariant

  /** What has happened in one direction so far. */
  datatype LaneHistory = LaneHistory(
    admitted: seq<Frame>,            // frames accepted
    released: seq<Frame>,            // frames handed to the peer
    abandoned: seq<Frame>,           // frames dropped by closure
    releasedAt: map<RequestId, nat>, // when each request was handed over
    completed: seq<RequestId>,       // requests of this origin answered by a peer
    lapsed: seq<RequestId>,          // requests of this origin that ran out of time
    answers: seq<Action>,            // how each response accepted in this direction was classified
    occupancy: seq<(nat, nat)>)      // queued messages and bytes after each operation

  datatype History = History(client: LaneHistory, server: LaneHistory) {
    function At(d: Direction): LaneHistory {
      if d.ClientToServer? then client else server
    }

    function With(d: Direction, lane: LaneHistory): History {
      if d.ClientToServer? then this.(client := lane) else this.(server := lane)
    }
  }

  datatype World = World(proxy: Proxy, history: History)

  datatype Op =
    | AdmitOp(candidate: Candidate)
    | ReleaseOp(direction: Direction, now: nat)
    | ExpireOp(now: nat)
    | CloseOp

  predicate ValidOp(op: Op) {
    op.AdmitOp? ==> ValidFrame(op.candidate.frame)
  }

  const NO_HISTORY := LaneHistory([], [], [], map[], [], [], [], [])

  function Start(limits: ProxyLimits, clockMax: nat): World {
    World(Initial(limits, clockMax), History(NO_HISTORY, NO_HISTORY))
  }

  ghost function Occupied(h: LaneHistory, q: Queue): LaneHistory {
    h.(occupancy := h.occupancy + [(|q.frames|, q.bytes)])
  }

  ghost function Observed(p: Proxy, h: History): World {
    World(p, History(Occupied(h.client, p.client.queue), Occupied(h.server, p.server.queue)))
  }

  ghost function EnterHistory(h: LaneHistory, f: Frame, action: Action): LaneHistory {
    h.(admitted := h.admitted + [f],
       answers := if f.observation.kind.IsResponse() then h.answers + [action] else h.answers)
  }

  ghost function AnswerHistory(h: LaneHistory, f: Frame, action: Action): LaneHistory {
    if action.Complete? && f.observation.id.Some?
    then h.(completed := h.completed + [f.observation.id.value])
    else h
  }

  ghost function LeaveHistory(h: LaneHistory, f: Frame, now: nat): LaneHistory
    requires ValidFrame(f)
  {
    h.(released := h.released + [f],
       releasedAt := if f.observation.kind.Request?
                     then h.releasedAt[f.observation.id.value := now] else h.releasedAt)
  }

  ghost function LapseHistory(h: LaneHistory, ids: seq<RequestId>): LaneHistory {
    h.(lapsed := h.lapsed + ids)
  }

  ghost function AdmitHistory(h: History, f: Frame, action: Action): History {
    var d := f.observation.direction;
    var e := d.Opposite();
    h.With(d, EnterHistory(h.At(d), f, action)).With(e, AnswerHistory(h.At(e), f, action))
  }

  ghost function ExpireHistory(h: History, p: Proxy, now: nat): History {
    History(LapseHistory(h.client, SortedIds(DueIds(p.client, now))),
            LapseHistory(h.server, SortedIds(DueIds(p.server, now))))
  }

  ghost function CloseHistory(h: History, p: Proxy): History {
    History(h.client.(abandoned := h.client.abandoned + p.client.queue.frames),
            h.server.(abandoned := h.server.abandoned + p.server.queue.frames))
  }

  predicate Ready(p: Proxy) {
    Releasable(p, ClientToServer) && Releasable(p, ServerToClient)
  }

  /** One operation. A rejected operation changes neither the proxy nor the history. */
  ghost function Step(w: World, op: Op): World
    requires Ready(w.proxy) && ValidOp(op)
  {
    match op
    case AdmitOp(c) =>
      var r := Admit(w.proxy, c);
      if r.Err? then w
      else Observed(r.value,
                    AdmitHistory(w.history, c.frame, Correlate(w.proxy, c.frame.observation).value))
    case ReleaseOp(d, now) =>
      var r := Release(w.proxy, d, now);
      if r.Err? then w
      else if r.value.frame.None? then Observed(r.value.proxy, w.history)
      else Observed(r.value.proxy, w.history.With(d, LeaveHistory(w.history.At(d), r.value.frame.value, now)))
    case ExpireOp(now) =>
      var r := Expire(w.proxy, now);
      if r.Err? then w else Observed(r.value.proxy, ExpireHistory(w.history, w.proxy, now))
    case CloseOp =>
      Observed(AfterClose(w.proxy), CloseHistory(w.history, w.proxy))
  }

  lemma {:induction false} StepKeepsInv(w: World, op: Op)
    requires Inv(w.proxy) && ValidOp(op)
    ensures Ready(w.proxy) && Inv(Step(w, op).proxy)
  {
    AlwaysReleasable(w.proxy, ClientToServer);
    AlwaysReleasable(w.proxy, ServerToClient);
    match op
    case AdmitOp(c) => AdmitKeepsInv(w.proxy, c);
    case ReleaseOp(d, now) => ReleaseKeepsInv(w.proxy, d, now);
    case ExpireOp(now) => ExpireKeepsInv(w.proxy, now);
    case CloseOp => CloseKeepsInv(w.proxy);
  }

  /** A whole run, oldest operation first. */
  ghost function Run(w: World, ops: seq<Op>): (r: World)
    requires Inv(w.proxy) && forall op :: op in ops ==> ValidOp(op)
    ensures Inv(r.proxy)
    decreases |ops|
  {
    if ops == [] then w else
      var front := Run(w, ops[..|ops| - 1]);
      StepKeepsInv(front, ops[|ops| - 1]);
      Step(front, ops[|ops| - 1])
  }

  // ---- The accounts ----------------------------------------------------------------------

  /** FIFO transparency: accepted frames are the released ones, then the abandoned ones, then the
      queued ones, byte for byte; and the counters say so. */
  ghost predicate FifoAccount(lane: Lane, h: LaneHistory) {
    && h.admitted == h.released + h.abandoned + lane.queue.frames
    && lane.acceptedMessages == |h.admitted|
    && lane.acceptedBytes == TotalBytes(h.admitted)
    && lane.forwarded == |h.released|
  }

  /** Exactly-once disposition of the requests of one origin. */
  ghost predicate RequestAccount(lane: Lane, h: LaneHistory, open: bool) {
    && Distinct(RequestIds(h.admitted))
    && Distinct(h.completed + h.lapsed)
    && (open ==> Disposition(lane, h))
  }

  /** Each request accepted so far is active, or was completed, or expired. */
  ghost predicate Disposition(lane: Lane, h: LaneHistory) {
    && h.abandoned == []
    && Elements(RequestIds(h.admitted)) == lane.requests.Keys + lane.retired
    && lane.retired == Elements(h.completed + h.lapsed)
  }

  /** A pending deadline is the release time of its request plus the timeout. */
  ghost predicate DeadlineAccount(lane: Lane, h: LaneHistory, timeout: nat) {
    forall id :: id in lane.requests && lane.requests[id].Pending? ==>
                   id in h.releasedAt && lane.requests[id].deadline == h.releasedAt[id] + timeout
  }

  /** Componentwise maximum of the occupancies observed so far. */
  ghost function Peak(occupancy: seq<(nat, nat)>): (nat, nat) {
    if occupancy == [] then (0, 0) else
      var front, last := Peak(occupancy[..|occupancy| - 1]), occupancy[|occupancy| - 1];
      (Max(front.0, last.0), Max(front.1, last.1))
  }

  /** The peaks are the largest occupancies ever observed. */
  ghost predicate PeakAccount(q: Queue, h: LaneHistory) {
    Peak(h.occupancy) == (q.peakMessages, q.peakBytes)
  }

  lemma {:induction false} PeakDominates(occupancy: seq<(nat, nat)>, i: nat)
    requires i < |occupancy|
    ensures occupancy[i].0 <= Peak(occupancy).0 && occupancy[i].1 <= Peak(occupancy).1
    ensures exists j :: 0 <= j < |occupancy| && occupancy[j].0 == Peak(occupancy).0
    ensures exists j :: 0 <= j < |occupancy| && occupancy[j].1 == Peak(occupancy).1
  {
    var n := |occupancy| - 1;
    var front := occupancy[..n];
    if n > 0 {
      PeakDominates(front, if i < n then i else 0);
      var j :| 0 <= j < n && front[j].0 == Peak(front).0;
      var k :| 0 <= k < n && front[k].1 == Peak(front).1;
      assert occupancy[j] == front[j] && occupancy[k] == front[k];
    }
    assert occupancy[n].0 == Peak(occupancy).0 || (n > 0 && Peak(front).0 == Peak(occupancy).0);
  }

  ghost function CountOf(answers: seq<Action>, a: Action): nat {
    if answers == [] then 0 else
      CountOf(answers[..|answers| - 1], a) + if answers[|answers| - 1] == a then 1 else 0
  }

  /** Accepted responses are the completing, the late and the unmatched ones. */
  ghost predicate AnswerAccount(w: World) {
    var c, s := w.history.client, w.history.server;
    && CountOf(s.answers, Complete) == |c.completed|
    && CountOf(c.answers, Complete) == |s.completed|
    && CountOf(c.answers, NoAction) == 0 && CountOf(s.answers, NoAction) == 0
    && w.proxy.late == CountOf(c.answers, Late) + CountOf(s.answers, Late)
    && w.proxy.unmatched == CountOf(c.answers, Unmatched) + CountOf(s.answers, Unmatched)
    && w.proxy.expired == |c.lapsed| + |s.lapsed|
  }

  ghost predicate LaneAccount(lane: Lane, h: LaneHistory, open: bool, timeout: nat) {
    && FifoAccount(lane, h)
    && RequestAccount(lane, h, open)
    && DeadlineAccount(lane, h, timeout)
    && PeakAccount(lane.queue, h)
  }

  ghost predicate Accounts(w: World) {
    && LaneAccount(w.proxy.client, w.history.client, w.proxy.open, w.proxy.limits.requestTimeout)
    && LaneAccount(w.proxy.server, w.history.server, w.proxy.open, w.proxy.limits.requestTimeout)
    && AnswerAccount(w)
  }

  // ---- One lane --------------------------------------------------------------------------

  lemma {:induction false} PeakStep(before: Queue, h: LaneHistory, after: Queue, g: LaneHistory)
    requires PeakAccount(before, h) && g.occupancy == h.occupancy
    requires after.peakMessages == Max(before.peakMessages, |after.frames|)
    requires after.peakBytes == Max(before.peakBytes, after.bytes)
    ensures PeakAccount(after, Occupied(g, after))
  {
    assert Occupied(g, after).occupancy[..|h.occupancy|] == h.occupancy;
  }

  lemma {:induction false} EnterFifo(lane: Lane, h: LaneHistory, f: Frame, action: Action)
    requires FifoAccount(lane, h) && WellFormed(f.observation)
    ensures FifoAccount(EnterLane(lane, f), EnterHistory(h, f, action))
  {
    assert h.admitted + [f] == h.released + h.abandoned + EnterLane(lane, f).queue.frames;
    AppendLast(h.admitted, f);
  }

  lemma {:induction false} LeaveFifo(lane: Lane, h: LaneHistory, now: nat, deadline: nat)
    requires FifoAccount(lane, h) && lane.queue.frames != [] && h.abandoned == []
    requires ValidFrame(lane.queue.frames[0]) && |lane.queue.frames[0].bytes| <= lane.queue.bytes
    ensures FifoAccount(LeaveLane(lane, deadline), LeaveHistory(h, lane.queue.frames[0], now))
  {
    var f := lane.queue.frames[0];
    assert h.released + [f] + [] + lane.queue.frames[1..] == h.released + [] + lane.queue.frames;
  }

  lemma {:induction false} CloseFifo(lane: Lane, h: LaneHistory)
    requires FifoAccount(lane, h)
    ensures FifoAccount(Emptied(lane), h.(abandoned := h.abandoned + lane.queue.frames))
  {
    assert h.released + (h.abandoned + lane.queue.frames) + [] == h.released + h.abandoned + lane.queue.frames;
  }

  /** A request identity enters the books once. */
  lemma {:induction false} EnterRequests(lane: Lane, h: LaneHistory, f: Frame, action: Action)
    requires RequestAccount(lane, h, true) && WellFormed(f.observation)
    requires f.observation.kind.Request? ==>
               f.observation.id.value !in lane.requests && f.observation.id.value !in lane.retired
    ensures RequestAccount(EnterLane(lane, f), EnterHistory(h, f, action), true)
  {
    AppendLast(h.admitted, f);
    if f.observation.kind.Request? {
      DistinctExtend(RequestIds(h.admitted), f.observation.id.value);
      EnterDisposition(lane, EnterLane(lane, f), h, EnterHistory(h, f, action), f.observation.id.value);
    } else {
      assert RequestIds(h.admitted + [f]) == RequestIds(h.admitted);
    }
  }

  lemma {:induction false} DistinctExtend(ids: seq<RequestId>, id: RequestId)
    requires Distinct(ids) && id !in Elements(ids)
    ensures Distinct(ids + [id])
  {
    assert (ids + [id])[..|ids|] == ids;
  }

  lemma {:induction false} EnterDisposition(lane: Lane, lane': Lane, h: LaneHistory, h': LaneHistory, id: RequestId)
    requires Disposition(lane, h)
    requires lane'.requests == lane.requests[id := Queued] && lane'.retired == lane.retired
    requires RequestIds(h'.admitted) == RequestIds(h.admitted) + [id] && h'.abandoned == h.abandoned
    requires h'.completed == h.completed && h'.lapsed == h.lapsed
    ensures Disposition(lane', h')
  {
    ElementsConcat(RequestIds(h.admitted), [id]);
    DistinctSingle(id);
    assert lane'.requests.Keys == lane.requests.Keys + {id};
  }

  /** A completed request leaves the active ones for good. */
  lemma {:induction false} CompleteRequests(lane: Lane, h: LaneHistory, id: RequestId)
    requires RequestAccount(lane, h, true)
    requires id in lane.requests && id !in lane.retired
    ensures RequestAccount(RetireAll(lane, {id}), h.(completed := h.completed + [id]), true)
  {
    CompleteDistinct(h.completed, id, h.lapsed);
    CompleteDisposition(lane, h, id);
  }

  lemma {:induction false} CompleteDistinct(completed: seq<RequestId>, id: RequestId, lapsed: seq<RequestId>)
    requires Distinct(completed + lapsed) && id !in Elements(completed + lapsed)
    ensures Distinct(completed + [id] + lapsed)
  {
    DistinctConcat(completed, lapsed);
    DistinctExtend(completed, id);
    DistinctConcat(completed + [id], lapsed);
    ElementsConcat(completed, [id]);
    DistinctSingle(id);
  }

  lemma {:induction false} CompleteDisposition(lane: Lane, h: LaneHistory, id: RequestId)
    requires Disposition(lane, h) && id in lane.requests
    ensures Disposition(RetireAll(lane, {id}), h.(completed := h.completed + [id]))
  {
    ElementsConcat(h.completed, h.lapsed);
    ElementsConcat(h.completed, [id]);
    ElementsConcat(h.completed + [id], h.lapsed);
    DistinctSingle(id);
    assert RetireAll(lane, {id}).requests.Keys == lane.requests.Keys - {id};
  }

  /** So does an expired one. */
  lemma {:induction false} LapseRequests(lane: Lane, h: LaneHistory, late: seq<RequestId>)
    requires RequestAccount(lane, h, true) && Distinct(late)
    requires Elements(late) <= lane.requests.Keys && lane.requests.Keys !! lane.retired
    ensures RequestAccount(RetireAll(lane, Elements(late)), LapseHistory(h, late), true)
  {
    LapseDistinct(h.completed, h.lapsed, late);
    LapseDisposition(lane, h, late);
  }

  lemma {:induction false} LapseDistinct(completed: seq<RequestId>, lapsed: seq<RequestId>, late: seq<RequestId>)
    requires Distinct(completed + lapsed) && Distinct(late) && Elements(completed + lapsed) !! Elements(late)
    ensures Distinct(completed + (lapsed + late))
  {
    assert completed + (lapsed + late) == (completed + lapsed) + late;
    DistinctConcat(completed + lapsed, late);
  }

  lemma {:induction false} LapseDisposition(lane: Lane, h: LaneHistory, late: seq<RequestId>)
    requires Disposition(lane, h) && Elements(late) <= lane.requests.Keys
    ensures Disposition(RetireAll(lane, Elements(late)), LapseHistory(h, late))
  {
    var done := h.completed + h.lapsed;
    assert h.completed + (h.lapsed + late) == done + late;
    ElementsConcat(done, late);
    assert RetireAll(lane, Elements(late)).requests.Keys == lane.requests.Keys - Elements(late);
  }

  /** Accepting a frame. */
  lemma {:induction false} EnterAccount(lane: Lane, h: LaneHistory, f: Frame, action: Action, timeout: nat)
    requires ValidFrame(f) && LaneAccount(lane, h, true, timeout)
    requires f.observation.kind.Request? ==>
               f.observation.id.value !in lane.requests && f.observation.id.value !in lane.retired
    ensures var lane' := EnterLane(lane, f);
            LaneAccount(lane', Occupied(EnterHistory(h, f, action), lane'.queue), true, timeout)
  {
    EnterFifo(lane, h, f, action);
    EnterRequests(lane, h, f, action);
    PeakStep(lane.queue, h, EnterLane(lane, f).queue, EnterHistory(h, f, action));
  }

  predicate WithinPeaks(q: Queue) {
    |q.frames| <= q.peakMessages && q.bytes <= q.peakBytes
  }

  /** Completing a pending request, or leaving the lane alone. */
  lemma {:induction false} AnswerLaneAccount(lane: Lane, h: LaneHistory, f: Frame, action: Action, timeout: nat)
    requires LaneAccount(lane, h, true, timeout) && WithinPeaks(lane.queue)
    requires action.Complete? && f.observation.id.Some? ==>
               f.observation.id.value in lane.requests && f.observation.id.value !in lane.retired
    ensures var lane' := AnswerLane(lane, f, action);
            LaneAccount(lane', Occupied(AnswerHistory(h, f, action), lane'.queue), true, timeout)
  {
    if action.Complete? && f.observation.id.Some? {
      CompleteRequests(lane, h, f.observation.id.value);
    }
    PeakStep(lane.queue, h, AnswerLane(lane, f, action).queue, AnswerHistory(h, f, action));
  }

  /** Releasing the front frame. */
  lemma {:induction false} LeaveAccount(lane: Lane, h: LaneHistory, now: nat, timeout: nat)
    requires LaneAccount(lane, h, true, timeout) && WithinPeaks(lane.queue) && lane.queue.frames != []
    requires ValidFrame(lane.queue.frames[0]) && |lane.queue.frames[0].bytes| <= lane.queue.bytes
    requires var o := lane.queue.frames[0].observation; o.kind.Request? ==> o.id.value in lane.requests
    ensures var lane' := LeaveLane(lane, now + timeout);
            LaneAccount(lane', Occupied(LeaveHistory(h, lane.queue.frames[0], now), lane'.queue), true, timeout)
  {
    var lane' := LeaveLane(lane, now + timeout);
    LeaveFifo(lane, h, now, now + timeout);
    assert lane'.requests.Keys == lane.requests.Keys;
    PeakStep(lane.queue, h, lane'.queue, LeaveHistory(h, lane.queue.frames[0], now));
  }

  lemma {:induction false} IdleAccount(lane: Lane, h: LaneHistory, open: bool, timeout: nat)
    requires LaneAccount(lane, h, open, timeout) && WithinPeaks(lane.queue)
    ensures LaneAccount(lane, Occupied(h, lane.queue), open, timeout)
  {
    PeakStep(lane.queue, h, lane.queue, h);
  }

  /** Expiring requests of one origin. */
  lemma {:induction false} LapseAccount(lane: Lane, h: LaneHistory, late: seq<RequestId>, timeout: nat)
    requires LaneAccount(lane, h, true, timeout) && WithinPeaks(lane.queue) && Distinct(late)
    requires Elements(late) <= lane.requests.Keys && lane.requests.Keys !! lane.retired
    ensures var lane' := RetireAll(lane, Elements(late));
            LaneAccount(lane', Occupied(LapseHistory(h, late), lane'.queue), true, timeout)
  {
    LapseRequests(lane, h, late);
    PeakStep(lane.queue, h, RetireAll(lane, Elements(late)).queue, LapseHistory(h, late));
  }

  lemma {:induction false} CloseAccount(lane: Lane, h: LaneHistory, timeout: nat, open: bool)
    requires LaneAccount(lane, h, open, timeout)
    ensures var h' := h.(abandoned := h.abandoned + lane.queue.frames);
            LaneAccount(Emptied(lane), Occupied(h', Emptied(lane).queue), false, timeout)
  {
    var h' := h.(abandoned := h.abandoned + lane.queue.frames);
    CloseFifo(lane, h);
    PeakStep(lane.queue, h, Emptied(lane).queue, h');
  }

  // ---- Whole steps -----------------------------------------------------------------------

  lemma {:induction false} AccountsIntro(w: World, d: Direction, e: Direction)
    requires e == d.Opposite()
    requires LaneAccount(w.proxy.At(d), w.history.At(d), w.proxy.open, w.proxy.limits.requestTimeout)
    requires LaneAccount(w.proxy.At(e), w.history.At(e), w.proxy.open, w.proxy.limits.requestTimeout)
    requires AnswerAccount(w)
    ensures Accounts(w)
  {
  }

  /** A correlated request is new to its lane; a completing response answers an active request. */
  predicate Answerable(lane: Lane, origin: Lane, o: Observation, action: Action) {
    && (o.kind.Request? && o.id.Some? ==> o.id.value !in lane.requests && o.id.value !in lane.retired)
    && (action.Complete? && o.id.Some? ==> o.id.value in origin.requests)
    && (o.kind.IsResponse() <==> !action.NoAction?) && (action.Complete? ==> o.id.Some?)
  }

  lemma {:induction false} CorrelateMeans(p: Proxy, o: Observation, action: Action)
    requires WellFormed(o) && Correlate(p, o) == Ok(action)
    ensures Answerable(p.At(o.direction), p.At(o.direction.Opposite()), o, action)
  {
  }

  lemma {:induction false} AdmitLanes(p: Proxy, h: History, f: Frame, action: Action, d: Direction, e: Direction,
          timeout: nat)
    requires ValidFrame(f) && Answerable(p.At(d), p.At(e), f.observation, action)
    requires WithinPeaks(p.At(e).queue) && p.At(e).requests.Keys !! p.At(e).retired
    requires LaneAccount(p.At(d), h.At(d), true, timeout)
    requires LaneAccount(p.At(e), h.At(e), true, timeout)
    ensures var lane := EnterLane(p.At(d), f);
            LaneAccount(lane, Occupied(EnterHistory(h.At(d), f, action), lane.queue), true, timeout)
    ensures var lane := AnswerLane(p.At(e), f, action);
            LaneAccount(lane, Occupied(AnswerHistory(h.At(e), f, action), lane.queue), true, timeout)
  {
    EnterAccount(p.At(d), h.At(d), f, action, timeout);
    AnswerLaneAccount(p.At(e), h.At(e), f, action, timeout);
  }

  lemma {:induction false} CountAppend(answers: seq<Action>, a: Action)
    ensures forall b: Action :: CountOf(answers + [a], b) == CountOf(answers, b) + if a == b then 1 else 0
  {
    assert (answers + [a])[..|answers|] == answers;
  }

  lemma {:induction false} AdmitAnswers(w: World, f: Frame, action: Action, w': World, d: Direction, e: Direction)
    requires AnswerAccount(w) && Answerable(w.proxy.At(d), w.proxy.At(e), f.observation, action) && e == d.Opposite()
    requires w'.history.At(d) == Occupied(EnterHistory(w.history.At(d), f, action), w'.proxy.At(d).queue)
    requires w'.history.At(e) == Occupied(AnswerHistory(w.history.At(e), f, action), w'.proxy.At(e).queue)
    requires w'.proxy.late == w.proxy.late + (if action.Late? then 1 else 0)
    requires w'.proxy.unmatched == w.proxy.unmatched + (if action.Unmatched? then 1 else 0)
    requires w'.proxy.expired == w.proxy.expired
    ensures AnswerAccount(w')
  {
    if d.ClientToServer? {
      CountAppend(w.history.client.answers, action);
    } else {
      CountAppend(w.history.server.answers, action);
    }
  }

  ghost predicate Books(w: World, d: Direction) {
    && LaneAccount(w.proxy.At(d), w.history.At(d), w.proxy.open, w.proxy.limits.requestTimeout)
    && WithinPeaks(w.proxy.At(d).queue)
    && w.proxy.At(d).requests.Keys !! w.proxy.At(d).retired
  }

  lemma {:induction false} BooksAt(w: World, d: Direction)
    requires Accounts(w) && Inv(w.proxy)
    ensures Books(w, d) && AnswerAccount(w)
    ensures w.proxy.open || LaneClear(w.proxy.At(d))
  {
    LaneInvAt(w.proxy, d);
  }

  lemma {:induction false} AdmitBooks(w: World, f: Frame, action: Action, d: Direction, e: Direction, w': World)
    requires Books(w, d) && Books(w, e) && AnswerAccount(w) && w.proxy.open
    requires ValidFrame(f) && Correlate(w.proxy, f.observation) == Ok(action)
    requires d == f.observation.direction && e == d.Opposite()
    requires w' == Observed(AfterAdmission(w.proxy, f, action), AdmitHistory(w.history, f, action))
    ensures Accounts(w')
  {
    CorrelateMeans(w.proxy, f.observation, action);
    AdmitLanes(w.proxy, w.history, f, action, d, e, w.proxy.limits.requestTimeout);
    AdmitAnswers(w, f, action, w', d, e);
    AccountsIntro(w', d, e);
  }

  lemma {:induction false} ReleaseShape(w: World, d: Direction, now: nat) returns (w': World)
    requires Ready(w.proxy) && Release(w.proxy, d, now).Ok? && w.proxy.At(d).queue.frames != []
    ensures Releasable(w.proxy, d) && w' == Step(w, ReleaseOp(d, now))
    ensures w'.proxy.At(d) == LeaveLane(w.proxy.At(d), now + w.proxy.limits.requestTimeout)
    ensures w'.proxy.At(d.Opposite()) == w.proxy.At(d.Opposite())
    ensures w'.proxy.open == w.proxy.open && w'.proxy.limits == w.proxy.limits
    ensures w'.proxy.late == w.proxy.late && w'.proxy.unmatched == w.proxy.unmatched
    ensures w'.proxy.expired == w.proxy.expired
    ensures w'.history.At(d) == Occupied(LeaveHistory(w.history.At(d), w.proxy.At(d).queue.frames[0], now),
                                         w'.proxy.At(d).queue)
    ensures w'.history.At(d.Opposite()) == Occupied(w.history.At(d.Opposite()), w.proxy.At(d.Opposite()).queue)
    ensures w'.history.client.answers == w.history.client.answers
    ensures w'.history.server.answers == w.history.server.answers
    ensures w'.history.client.completed == w.history.client.completed
    ensures w'.history.server.completed == w.history.server.completed
    ensures w'.history.client.lapsed == w.history.client.lapsed
    ensures w'.history.server.lapsed == w.history.server.lapsed
  {
    w' := Step(w, ReleaseOp(d, now));
  }

  lemma {:induction false} ReleaseStep(w: World, d: Direction, now: nat)
    requires Books(w, d) && Books(w, d.Opposite()) && AnswerAccount(w)
    requires Ready(w.proxy) && w.proxy.open && Release(w.proxy, d, now).Ok?
    requires w.proxy.At(d).queue.frames != []
    requires var o := w.proxy.At(d).queue.frames[0].observation;
             o.kind.Request? ==> o.id.Some? && o.id.value in w.proxy.At(d).requests
    ensures Accounts(Step(w, ReleaseOp(d, now)))
  {
    var w' := ReleaseShape(w, d, now);
    var timeout, e := w.proxy.limits.requestTimeout, d.Opposite();
    LeaveAccount(w.proxy.At(d), w.history.At(d), now, timeout);
    IdleAccount(w.proxy.At(e), w.history.At(e), true, timeout);
    AccountsIntro(w', d, e);
  }

  lemma {:induction false} IdleBooks(w: World, w': World)
    requires Books(w, ClientToServer) && Books(w, ServerToClient) && AnswerAccount(w)
    requires w' == Observed(w.proxy.(lastTime := w'.proxy.lastTime), w.history)
    ensures Accounts(w')
  {
    IdleAccount(w.proxy.client, w.history.client, w.proxy.open, w.proxy.limits.requestTimeout);
    IdleAccount(w.proxy.server, w.history.server, w.proxy.open, w.proxy.limits.requestTimeout);
  }

  lemma {:induction false} CloseBooks(w: World)
    requires Books(w, ClientToServer) && Books(w, ServerToClient) && AnswerAccount(w)
    ensures Accounts(Observed(AfterClose(w.proxy), CloseHistory(w.history, w.proxy)))
  {
    CloseAccount(w.proxy.client, w.history.client, w.proxy.limits.requestTimeout, w.proxy.open);
    CloseAccount(w.proxy.server, w.history.server, w.proxy.limits.requestTimeout, w.proxy.open);
  }

  /** The shape of an expiry step: which requests lapsed, and the world that results. */
  lemma {:induction false} ExpireShape(w: World, now: nat)
      returns (client: seq<RequestId>, server: seq<RequestId>, w': World)
    requires Ready(w.proxy) && Expire(w.proxy, now).Ok?
    ensures w' == Step(w, ExpireOp(now))
    ensures Distinct(client) && Elements(client) == DueIds(w.proxy.client, now)
    ensures Distinct(server) && Elements(server) == DueIds(w.proxy.server, now)
    ensures w'.proxy == w.proxy.(client := RetireAll(w.proxy.client, Elements(client)),
                                 server := RetireAll(w.proxy.server, Elements(server)),
                                 expired := w.proxy.expired + |client| + |server|,
                                 lastTime := w'.proxy.lastTime)
    ensures w' == Observed(w'.proxy, History(LapseHistory(w.history.client, client),
                                             LapseHistory(w.history.server, server)))
  {
    client, server := SortedIds(DueIds(w.proxy.client, now)), SortedIds(DueIds(w.proxy.server, now));
    SortedIdsFacts(DueIds(w.proxy.client, now));
    SortedIdsFacts(DueIds(w.proxy.server, now));
    w' := Step(w, ExpireOp(now));
  }

  lemma {:induction false} ExpireBooks(w: World, client: seq<RequestId>, server: seq<RequestId>, w': World)
    requires Books(w, ClientToServer) && Books(w, ServerToClient) && AnswerAccount(w)
    requires w.proxy.open || (client == [] && server == [])
    requires Distinct(client) && Elements(client) <= w.proxy.client.requests.Keys
    requires Distinct(server) && Elements(server) <= w.proxy.server.requests.Keys
    requires w'.proxy == w.proxy.(client := RetireAll(w.proxy.client, Elements(client)),
                                  server := RetireAll(w.proxy.server, Elements(server)),
                                  expired := w.proxy.expired + |client| + |server|,
                                  lastTime := w'.proxy.lastTime)
    requires w' == Observed(w'.proxy, History(LapseHistory(w.history.client, client),
                                              LapseHistory(w.history.server, server)))
    ensures Accounts(w')
  {
    if w.proxy.open {
      LapseAccount(w.proxy.client, w.history.client, client, w.proxy.limits.requestTimeout);
      LapseAccount(w.proxy.server, w.history.server, server, w.proxy.limits.requestTimeout);
      AccountsIntro(w', ClientToServer, ServerToClient);
    } else {
      NoneLapse(w.proxy.client, w.history.client);
      NoneLapse(w.proxy.server, w.history.server);
      IdleBooks(w, w');
    }
  }

  lemma {:induction false} NoneLapse(lane: Lane, h: LaneHistory)
    ensures RetireAll(lane, Elements<RequestId>([])) == lane && LapseHistory(h, []) == h
  {
    assert Elements<RequestId>([]) == {} && lane.requests - {} == lane.requests && lane.retired + {} == lane.retired;
    assert h.lapsed + [] == h.lapsed;
  }

  lemma {:induction false} ExpireStep(w: World, now: nat)
    requires Books(w, ClientToServer) && Books(w, ServerToClient) && AnswerAccount(w) && Ready(w.proxy)
    requires w.proxy.open || (LaneClear(w.proxy.client) && LaneClear(w.proxy.server))
    requires Expire(w.proxy, now).Ok?
    ensures Accounts(Step(w, ExpireOp(now)))
  {
    var client, server, w' := ExpireShape(w, now);
    if !w.proxy.open {
      NoElements(client);
      NoElements(server);
    }
    ExpireBooks(w, client, server, w');
  }

  lemma {:induction false} AdmitShape(w: World, c: Candidate) returns (action: Action, w': World)
    requires Ready(w.proxy) && ValidFrame(c.frame) && Admit(w.proxy, c).Ok?
    ensures w.proxy.open && Correlate(w.proxy, c.frame.observation) == Ok(action)
    ensures w' == Step(w, AdmitOp(c))
    ensures w' == Observed(AfterAdmission(w.proxy, c.frame, action), AdmitHistory(w.history, c.frame, action))
  {
    action, w' := Correlate(w.proxy, c.frame.observation).value, Step(w, AdmitOp(c));
  }

  lemma {:induction false} AdmitStep(w: World, c: Candidate)
    requires Books(w, c.frame.observation.direction) && Books(w, c.frame.observation.direction.Opposite())
    requires AnswerAccount(w) && Ready(w.proxy)
    requires ValidFrame(c.frame) && Admit(w.proxy, c).Ok?
    ensures Accounts(Step(w, AdmitOp(c)))
  {
    var action, w' := AdmitShape(w, c);
    AdmitBooks(w, c.frame, action, c.frame.observation.direction, c.frame.observation.direction.Opposite(), w');
  }

  lemma {:induction false} AdmitKeepsAccounts(w: World, c: Candidate)
    requires Inv(w.proxy) && Accounts(w) && ValidFrame(c.frame) && Ready(w.proxy) && Admit(w.proxy, c).Ok?
    ensures Accounts(Step(w, AdmitOp(c)))
  {
    BooksAt(w, c.frame.observation.direction);
    BooksAt(w, c.frame.observation.direction.Opposite());
    AdmitStep(w, c);
  }

  lemma {:induction false} ReleaseKeepsAccounts(w: World, d: Direction, now: nat)
    requires Inv(w.proxy) && Accounts(w) && Ready(w.proxy) && Release(w.proxy, d, now).Ok?
    ensures Accounts(Step(w, ReleaseOp(d, now)))
  {
    BooksAt(w, d);
    BooksAt(w, d.Opposite());
    if w.proxy.At(d).queue.frames == [] {
      IdleBooks(w, Step(w, ReleaseOp(d, now)));
    } else {
      AlwaysReleasable(w.proxy, d);
      ReleaseStep(w, d, now);
    }
  }

  lemma {:induction false} ExpireKeepsAccounts(w: World, now: nat)
    requires Inv(w.proxy) && Accounts(w) && Ready(w.proxy) && Expire(w.proxy, now).Ok?
    ensures Accounts(Step(w, ExpireOp(now)))
  {
    BooksAt(w, ClientToServer);
    BooksAt(w, ServerToClient);
    ExpireStep(w, now);
  }

  /** Every operation keeps the accounts balanced. */
  lemma {:induction false} StepKeepsAccounts(w: World, op: Op)
    requires Inv(w.proxy) && ValidOp(op) && Accounts(w)
    ensures Ready(w.proxy) && Accounts(Step(w, op))
  {
    StepKeepsInv(w, op);
    match op
    case AdmitOp(c) => if Admit(w.proxy, c).Ok? { AdmitKeepsAccounts(w, c); }
    case ReleaseOp(d, now) => if Release(w.proxy, d, now).Ok? { ReleaseKeepsAccounts(w, d, now); }
    case ExpireOp(now) => if Expire(w.proxy, now).Ok? { ExpireKeepsAccounts(w, now); }
    case CloseOp =>
      BooksAt(w, ClientToServer);
      BooksAt(w, ServerToClient);
      CloseBooks(w);
  }

  /** In every run the accounts balance. */
  lemma {:induction false} RunsBalance(limits: ProxyLimits, clockMax: nat, ops: seq<Op>)
    requires ValidProxyLimits(limits)
    requires forall op :: op in ops ==> ValidOp(op)
    ensures Inv(Initial(limits, clockMax))
    ensures Accounts(Run(Start(limits, clockMax), ops))
    decreases |ops|
  {
    InitialInv(limits, clockMax);
    if ops == [] {
      DistinctSingle(Unsigned(0));
    } else {
      var front := ops[..|ops| - 1];
      RunsBalance(limits, clockMax, front);
      StepKeepsAccounts(Run(Start(limits, clockMax), front), ops[|ops| - 1]);
    }
  }

  // ---- What the accounts mean ------------------------------------------------------------

  /** While the proxy is open, every accepted request is in exactly one of four places. */
  lemma {:induction false} EveryRequestHasOneFate(w: World, d: Direction, id: RequestId)
    requires Inv(w.proxy) && Accounts(w) && w.proxy.open
    requires id in RequestIds(w.history.At(d).admitted)
    ensures var lane, h := w.proxy.At(d), w.history.At(d);
            var queued := id in RequestIds(lane.queue.frames);
            var pending := id in lane.requests && lane.requests[id].Pending?;
            && (queued || pending || id in h.completed || id in h.lapsed)
            && (queued ==> !pending && id !in h.completed && id !in h.lapsed)
            && (pending ==> id !in h.completed && id !in h.lapsed)
            && (id in h.completed ==> id !in h.lapsed)
  {
    var lane, h := w.proxy.At(d), w.history.At(d);
    LaneInvAt(w.proxy, d);
    BooksAt(w, d);
    DistinctConcat(h.completed, h.lapsed);
    assert id in Elements(RequestIds(h.admitted));
    assert id in RequestIds(lane.queue.frames) <==> id in Elements(RequestIds(lane.queue.frames));
    assert id in h.completed <==> id in Elements(h.completed);
    assert id in h.lapsed <==> id in Elements(h.lapsed);
  }

  /** Once a request is completed or expired, every further response to it is late. */
  lemma {:induction false} LaterAnswersAreLate(w: World, o: Observation)
    requires Inv(w.proxy) && Accounts(w) && w.proxy.open
    requires WellFormed(o) && o.kind.IsResponse() && o.id.Some?
    requires var h := w.history.At(o.direction.Opposite()); o.id.value in h.completed || o.id.value in h.lapsed
    ensures Correlate(w.proxy, o) == Ok(Late)
  {
    var h := w.history.At(o.direction.Opposite());
    LaneInvAt(w.proxy, o.direction.Opposite());
    BooksAt(w, o.direction.Opposite());
    assert o.id.value in Elements(h.completed + h.lapsed);
  }

  lemma {:induction false} EveryAnswerCounted(answers: seq<Action>)
    ensures |answers| == CountOf(answers, NoAction) + CountOf(answers, Complete) + CountOf(answers, Late)
                         + CountOf(answers, Unmatched)
  {
    if answers != [] { EveryAnswerCounted(answers[..|answers| - 1]); }
  }

  /** Accepted responses are completed, late or unmatched; retired identities are completed or
      expired. */
  lemma {:induction false} Conservation(w: World)
    requires Inv(w.proxy) && Accounts(w)
    ensures var c, s := w.history.client, w.history.server;
            && |c.answers| + |s.answers| == |c.completed| + |s.completed| + w.proxy.late + w.proxy.unmatched
            && (w.proxy.open ==> |w.proxy.client.retired| + |w.proxy.server.retired|
                                 == |c.completed| + |s.completed| + w.proxy.expired)
  {
    var c, s := w.history.client, w.history.server;
    EveryAnswerCounted(c.answers);
    EveryAnswerCounted(s.answers);
    DistinctLength(c.completed + c.lapsed);
    DistinctLength(s.completed + s.lapsed);
  }

  /** Requests of one origin that are still active are those accepted and neither completed nor expired. */
  lemma {:induction false} ActiveRequestsRemain(lane: Lane, h: LaneHistory)
    requires RequestAccount(lane, h, true) && lane.requests.Keys !! lane.retired
    ensures |RequestIds(h.admitted)| == |lane.requests| + |h.completed| + |h.lapsed|
  {
    DistinctLength(RequestIds(h.admitted));
    DistinctLength(h.completed + h.lapsed);
    assert |lane.requests.Keys + lane.retired| == |lane.requests.Keys| + |lane.retired|;
    assert |lane.requests.Keys| == |lane.requests|;
  }

  /** The first closure drops exactly what was accepted and not released, byte for byte, and every
      request that was neither completed nor expired; a second closure drops nothing. */
  lemma {:induction false} ClosureReportsOnce(w: World)
    requires Inv(w.proxy) && Accounts(w) && w.proxy.open
    ensures var c, s, report := w.history.client, w.history.server, Abandoned(w.proxy);
            && |c.admitted| + |s.admitted| == |c.released| + |s.released| + report.messages
            && TotalBytes(c.admitted) + TotalBytes(s.admitted) ==
               TotalBytes(c.released) + TotalBytes(s.released) + report.bytes
            && |RequestIds(c.admitted)| + |RequestIds(s.admitted)| ==
               |c.completed| + |s.completed| + |c.lapsed| + |s.lapsed| + report.requests
            && report.history == |c.completed| + |s.completed| + w.proxy.expired
    ensures Abandoned(AfterClose(w.proxy)) == CloseReport(0, 0, 0, 0)
    ensures AfterClose(AfterClose(w.proxy)) == AfterClose(w.proxy)
  {
    CloseKeepsInv(w.proxy);
    Conservation(w);
    LaneInvAt(w.proxy, ClientToServer);
    LaneInvAt(w.proxy, ServerToClient);
    ActiveRequestsRemain(w.proxy.client, w.history.client);
    ActiveRequestsRemain(w.proxy.server, w.history.server);
    TotalBytesConcat(w.history.client.released + [], w.proxy.client.queue.frames);
    TotalBytesConcat(w.history.server.released + [], w.proxy.server.queue.frames);
    assert w.history.client.released + [] == w.history.client.released;
    assert w.history.server.released + [] == w.history.server.released;
  }
}
