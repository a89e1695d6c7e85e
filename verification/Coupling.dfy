/** The journal shadows the proxy: driven in the session's call order it never contradicts it. */
module Coupling {
  import opened Basics
  import opened Messages
  import opened ProxyModel
  import opened ProxyInvariant
  import J = JournalModel

  ghost function KeysOf(d: Direction, ids: set<RequestId>): set<CorrelationKey> {
    set id | id in ids :: KeyOf(d, id)
  }

  /** The correlations of one origin. */
  ghost function From(keys: set<CorrelationKey>, d: Direction): set<CorrelationKey> {
    set k | k in keys && k.origin == d
  }

  /** Active correlations are exactly the active requests; answered ones are retired identities. */
  ghost predicate LaneCoupled(lane: Lane, d: Direction, c: J.Correlations) {
    && From(c.active.Keys, d) == KeysOf(d, lane.requests.Keys)
    && From(c.pending.Keys, d) <= KeysOf(d, lane.retired)
  }

  ghost predicate Coupled(p: Proxy, c: J.Correlations) {
    LaneCoupled(p.client, ClientToServer, c) && LaneCoupled(p.server, ServerToClient, c)
  }

  lemma {:induction false} KeysMember(d: Direction, ids: set<RequestId>, id: RequestId)
    ensures KeyOf(d, id) in KeysOf(d, ids) <==> id in ids
  {
    if KeyOf(d, id) in KeysOf(d, ids) {
      var x :| x in ids && KeyOf(d, x) == KeyOf(d, id);
      KeyInjective(d, x, d, id);
    }
  }

  lemma {:induction false} KeysUnion(d: Direction, a: set<RequestId>, b: set<RequestId>)
    ensures KeysOf(d, a + b) == KeysOf(d, a) + KeysOf(d, b)
  {
  }

  lemma {:induction false} KeysMinus(d: Direction, a: set<RequestId>, b: set<RequestId>)
    ensures KeysOf(d, a - b) == KeysOf(d, a) - KeysOf(d, b)
  {
    forall id | id in a ensures KeyOf(d, id) in KeysOf(d, a - b) <==> KeyOf(d, id) !in KeysOf(d, b) {
      KeysMember(d, a - b, id);
      KeysMember(d, b, id);
    }
    forall k | k in KeysOf(d, a - b) ensures k in KeysOf(d, a) && k !in KeysOf(d, b) {
      var id :| id in a - b && KeyOf(d, id) == k;
      KeysMember(d, b, id);
    }
  }

  lemma {:induction false} KeysSingle(d: Direction, id: RequestId)
    ensures KeysOf(d, {id}) == {KeyOf(d, id)} && KeyOf(d, id).origin == d
  {
  }

  // ---- One lane, one correlation step -----------------------------------------------------

  lemma {:induction false} LaneOpens(lane: Lane, after: Lane, d: Direction, c: J.Correlations, id: RequestId,
          c': J.Correlations)
    requires LaneCoupled(lane, d, c) && id !in lane.requests && id !in lane.retired
    requires after.requests.Keys == lane.requests.Keys + {id} && after.retired == lane.retired
    requires c'.active.Keys == c.active.Keys + {KeyOf(d, id)} && c'.pending == c.pending
    ensures LaneCoupled(after, d, c') && KeyOf(d, id) !in c.active && KeyOf(d, id) !in c.pending
  {
    KeysUnion(d, lane.requests.Keys, {id});
    KeysSingle(d, id);
    KeysMember(d, lane.requests.Keys, id);
    KeysMember(d, lane.retired, id);
    var k := KeyOf(d, id);
    assert k in c.active ==> k in From(c.active.Keys, d);
    assert k in c.pending ==> k in From(c.pending.Keys, d);
    assert From(c'.active.Keys, d) == From(c.active.Keys, d) + {k};
  }

  lemma {:induction false} LaneAnswered(lane: Lane, d: Direction, c: J.Correlations, id: RequestId, c': J.Correlations)
    requires LaneCoupled(lane, d, c)
    requires c'.active.Keys == c.active.Keys - {KeyOf(d, id)}
    requires c'.pending.Keys == c.pending.Keys + {KeyOf(d, id)}
    ensures LaneCoupled(RetireAll(lane, {id}), d, c')
  {
    KeysMinus(d, lane.requests.Keys, {id});
    KeysUnion(d, lane.retired, {id});
    KeysSingle(d, id);
    var k, after := KeyOf(d, id), RetireAll(lane, {id});
    assert after.requests.Keys == lane.requests.Keys - {id};
    assert From(c'.active.Keys, d) == From(c.active.Keys, d) - {k};
    assert From(c'.pending.Keys, d) == From(c.pending.Keys, d) + {k};
  }

  /** Correlations of the other origin do not matter to a lane. */
  lemma {:induction false} LaneUntouched(lane: Lane, d: Direction, c: J.Correlations, k: CorrelationKey,
          c': J.Correlations)
    requires LaneCoupled(lane, d, c) && k.origin != d
    requires c'.active.Keys - {k} == c.active.Keys - {k} && c'.pending.Keys - {k} == c.pending.Keys - {k}
    ensures LaneCoupled(lane, d, c')
  {
    assert From(c'.active.Keys, d) == From(c'.active.Keys - {k}, d);
    assert From(c.active.Keys, d) == From(c.active.Keys - {k}, d);
    assert From(c'.pending.Keys, d) == From(c'.pending.Keys - {k}, d);
    assert From(c.pending.Keys, d) == From(c.pending.Keys - {k}, d);
  }

  lemma {:induction false} ActiveMeansTracked(lane: Lane, d: Direction, c: J.Correlations, id: RequestId)
    requires LaneCoupled(lane, d, c)
    ensures KeyOf(d, id) in c.active <==> id in lane.requests
    ensures KeyOf(d, id) in c.pending ==> id in lane.retired
  {
    KeysMember(d, lane.requests.Keys, id);
    KeysMember(d, lane.retired, id);
    KeysSingle(d, id);
    assert KeyOf(d, id) in c.active <==> KeyOf(d, id) in From(c.active.Keys, d);
    assert KeyOf(d, id) in c.pending <==> KeyOf(d, id) in From(c.pending.Keys, d);
  }

  lemma {:induction false} CoupledAt(p: Proxy, c: J.Correlations, d: Direction)
    requires Coupled(p, c)
    ensures LaneCoupled(p.At(d), d, c) && LaneCoupled(p.At(d.Opposite()), d.Opposite(), c)
  {
  }

  lemma {:induction false} CoupledIntro(q: Proxy, c: J.Correlations, d: Direction)
    requires LaneCoupled(q.At(d), d, c) && LaneCoupled(q.At(d.Opposite()), d.Opposite(), c)
    ensures Coupled(q, c)
  {
  }

  // ---- Admission and release --------------------------------------------------------------

  lemma {:induction false} AdmissionLanes(p: Proxy, f: Frame, action: Action, d: Direction, e: Direction)
    requires ValidFrame(f) && d == f.observation.direction && e == d.Opposite()
    ensures var q := AfterAdmission(p, f, action);
            q.At(d) == EnterLane(p.At(d), f) && q.At(e) == AnswerLane(p.At(e), f, action)
  {
  }

  lemma {:induction false} RequestCoupled(p: Proxy, c: J.Correlations, o: Observation, id: RequestId, q: Proxy,
          d: Direction, e: Direction)
    requires Coupled(p, c) && WellFormed(o) && o.kind.Request? && o.id == Some(id)
    requires o.direction == d && e == d.Opposite()
    requires id !in p.At(d).requests && id !in p.At(d).retired
    requires q.At(d).requests.Keys == p.At(d).requests.Keys + {id} && q.At(d).retired == p.At(d).retired
    requires q.At(e) == p.At(e)
    ensures J.NoteAccepted(c, o).Ok? && Coupled(q, J.NoteAccepted(c, o).value.tokens)
  {
    var k := KeyOf(d, id);
    var c' := c.(active := c.active[k := c.last + 1], last := c.last + 1);
    CoupledAt(p, c, d);
    LaneOpens(p.At(d), q.At(d), d, c, id, c');
    LaneUntouched(p.At(e), e, c, k, c');
    CoupledIntro(q, c', d);
    assert J.RequestKey(o) == Some(k);
  }

  lemma {:induction false} ResponseCoupled(p: Proxy, c: J.Correlations, o: Observation, id: RequestId, q: Proxy,
          d: Direction, e: Direction)
    requires Coupled(p, c) && J.TokensInv(c)
    requires WellFormed(o) && o.kind.IsResponse() && o.id == Some(id) && o.direction == d && e == d.Opposite()
    requires q.At(d).requests == p.At(d).requests && q.At(d).retired == p.At(d).retired
    requires q.At(e) == if id in p.At(e).requests then RetireAll(p.At(e), {id}) else p.At(e)
    ensures J.NoteAccepted(c, o).Ok? && Coupled(q, J.NoteAccepted(c, o).value.tokens)
  {
    var k := KeyOf(e, id);
    CoupledAt(p, c, d);
    ActiveMeansTracked(p.At(e), e, c, id);
    assert J.RequestKey(o) == Some(k);
    if k in c.active {
      var c' := c.(active := c.active - {k}, pending := c.pending[k := c.active[k]]);
      LaneAnswered(p.At(e), e, c, id, c');
      LaneUntouched(q.At(d), d, c, k, c');
      CoupledIntro(q, c', d);
    } else {
      CoupledIntro(q, c, d);
    }
  }

  lemma {:induction false} AdmitCoupled(p: Proxy, c: J.Correlations, f: Frame, action: Action)
    requires Coupled(p, c) && J.TokensInv(c)
    requires ValidFrame(f) && Correlate(p, f.observation) == Ok(action)
    ensures var noted := J.NoteAccepted(c, f.observation);
            noted.Ok? && Coupled(AfterAdmission(p, f, action), noted.value.tokens)
  {
    var o, d, q := f.observation, f.observation.direction, AfterAdmission(p, f, action);
    var e := d.Opposite();
    AdmissionLanes(p, f, action, d, e);
    if o.kind.Request? {
      assert q.At(d).requests.Keys == p.At(d).requests.Keys + {o.id.value};
      RequestCoupled(p, c, o, o.id.value, q, d, e);
    } else if o.kind.IsResponse() && o.id.Some? {
      ResponseCoupled(p, c, o, o.id.value, q, d, e);
    } else {
      CoupledAt(p, c, d);
      CoupledIntro(q, c, d);
    }
  }

  lemma {:induction false} ForwardCoupled(p: Proxy, c: J.Correlations, o: Observation, q: Proxy, d: Direction,
          e: Direction)
    requires Coupled(p, c) && WellFormed(o) && o.direction == d && e == d.Opposite()
    requires o.kind.Request? ==> o.id.value in p.At(d).requests
    requires q.At(d).requests.Keys == p.At(d).requests.Keys && q.At(d).retired == p.At(d).retired
    requires q.At(e) == p.At(e)
    ensures J.NoteForwarded(c, o).Ok? && Coupled(q, J.NoteForwarded(c, o).value.tokens)
  {
    CoupledAt(p, c, d);
    CoupledIntro(q, c, d);
    if o.kind.Request? {
      ActiveMeansTracked(p.At(d), d, c, o.id.value);
    } else if o.kind.IsResponse() && o.id.Some? {
      var k := KeyOf(e, o.id.value);
      var c' := c.(pending := c.pending - {k});
      LaneUntouched(q.At(d), d, c, k, c');
      assert From(c'.pending.Keys, e) <= From(c.pending.Keys, e);
      CoupledIntro(q, c', d);
    }
  }

  lemma {:induction false} ReleaseCoupled(p: Proxy, c: J.Correlations, d: Direction, now: nat)
    requires Inv(p) && Coupled(p, c) && p.At(d).queue.frames != [] && Releasable(p, d)
    ensures var noted := J.NoteForwarded(c, p.At(d).queue.frames[0].observation);
            noted.Ok? && Coupled(AfterRelease(p, d, now), noted.value.tokens)
  {
    var f, q := p.At(d).queue.frames[0], AfterRelease(p, d, now);
    LaneInvAt(p, d);
    FrontReady(p.At(d), d, p.QueueLimitsAt(d), p.lastTime, p.limits.requestTimeout);
    assert q.At(d).requests.Keys == p.At(d).requests.Keys;
    ForwardCoupled(p, c, f.observation, q, d, d.Opposite());
  }

  // ---- Expiry -----------------------------------------------------------------------------

  /** The proxy has retired the overdue requests; the journal still holds those in `rest`. */
  ghost predicate LaneDraining(lane: Lane, d: Direction, c: J.Correlations, rest: seq<Expired>) {
    && From(c.active.Keys, d) == KeysOf(d, lane.requests.Keys) + KeysOf(d, IdsOf(rest, d))
    && From(c.pending.Keys, d) <= KeysOf(d, lane.retired)
    && lane.requests.Keys !! IdsOf(rest, d)
  }

  ghost predicate Draining(q: Proxy, c: J.Correlations, rest: seq<Expired>) {
    && Distinct(rest)
    && LaneDraining(q.client, ClientToServer, c, rest) && LaneDraining(q.server, ServerToClient, c, rest)
  }

  lemma {:induction false} LaneDrainStarts(lane: Lane, d: Direction, c: J.Correlations, rest: seq<Expired>)
    requires LaneCoupled(lane, d, c) && IdsOf(rest, d) <= lane.requests.Keys
    ensures LaneDraining(RetireAll(lane, IdsOf(rest, d)), d, c, rest)
  {
    var ids, after := IdsOf(rest, d), RetireAll(lane, IdsOf(rest, d));
    assert after.requests.Keys == lane.requests.Keys - ids;
    KeysUnion(d, after.requests.Keys, ids);
    KeysUnion(d, lane.retired, ids);
    assert after.requests.Keys + ids == lane.requests.Keys;
  }

  lemma {:induction false} DrainStarts(p: Proxy, c: J.Correlations, now: nat)
    requires Coupled(p, c)
    ensures Draining(AfterExpiry(p, now), c, Due(p, now))
  {
    var rest := Due(p, now);
    DueInExact(p, ClientToServer, now);
    DueInExact(p, ServerToClient, now);
    DistinctConcat(DueIn(p, ClientToServer, now), DueIn(p, ServerToClient, now));
    DueFrom(p, ClientToServer, now);
    DueFrom(p, ServerToClient, now);
    LaneDrainStarts(p.client, ClientToServer, c, rest);
    LaneDrainStarts(p.server, ServerToClient, c, rest);
  }

  lemma {:induction false} LaneDrainStep(lane: Lane, d: Direction, c: J.Correlations, rest: seq<Expired>,
          c': J.Correlations)
    requires rest != [] && rest[0] !in rest[1..] && LaneDraining(lane, d, c, rest)
    requires c' == c.(active := c.active - {KeyOf(rest[0].origin, rest[0].id)})
    ensures LaneDraining(lane, d, c', rest[1..])
    ensures rest[0].origin == d ==> KeyOf(d, rest[0].id) in c.active
  {
    var e, tail := rest[0], rest[1..];
    var k := KeyOf(e.origin, e.id);
    if e.origin == d {
      assert IdsOf(rest, d) == IdsOf(tail, d) + {e.id} && e.id !in IdsOf(tail, d) by {
        assert rest == [e] + tail;
        assert e.id in IdsOf(tail, d) ==> e in tail;
      }
      KeysUnion(d, IdsOf(tail, d), {e.id});
      KeysSingle(d, e.id);
      KeysMember(d, IdsOf(tail, d), e.id);
      KeysMember(d, lane.requests.Keys, e.id);
      assert k in From(c.active.Keys, d);
      assert From(c'.active.Keys, d) == From(c.active.Keys, d) - {k};
    } else {
      assert IdsOf(rest, d) == IdsOf(tail, d) by { assert rest == [e] + tail; }
      assert From(c'.active.Keys, d) == From(c.active.Keys, d);
    }
  }

  lemma {:induction false} DrainStep(q: Proxy, c: J.Correlations, rest: seq<Expired>)
    requires rest != [] && Draining(q, c, rest)
    ensures var k := KeyOf(rest[0].origin, rest[0].id);
            k in c.active && Draining(q, c.(active := c.active - {k}), rest[1..])
  {
    var c' := c.(active := c.active - {KeyOf(rest[0].origin, rest[0].id)});
    assert rest == [rest[0]] + rest[1..];
    DistinctConcat([rest[0]], rest[1..]);
    assert rest[0] in Elements([rest[0]]);
    LaneDrainStep(q.client, ClientToServer, c, rest, c');
    LaneDrainStep(q.server, ServerToClient, c, rest, c');
  }

  lemma {:induction false} DrainEnds(q: Proxy, c: J.Correlations)
    requires Draining(q, c, [])
    ensures Coupled(q, c)
  {
    assert IdsOf([], ClientToServer) == {} && IdsOf([], ServerToClient) == {};
    assert KeysOf(ClientToServer, {}) == {} && KeysOf(ServerToClient, {}) == {};
  }

  lemma {:induction false} CloseCoupled(p: Proxy, j: J.Journal)
    ensures Coupled(AfterClose(p), J.ClearCorrelations(j).tokens)
  {
    var c := J.ClearCorrelations(j).tokens;
    assert From({}, ClientToServer) == {} && From({}, ServerToClient) == {};
    assert KeysOf(ClientToServer, {}) == {} && KeysOf(ServerToClient, {}) == {};
    assert c.active.Keys == {} && c.pending.Keys == {};
  }
}
