/** Each proxy transition followed by its journal record, as the session performs them. */
module Recording {
  import opened Basics
  import opened Messages
  import opened ProxyModel
  import opened ProxyInvariant
  import opened Coupling
  import opened Proxies
  import opened Journals
  import J = JournalModel

  /** The journal shadows the proxy until its event sequence is exhausted. */
  ghost predicate Matched(p: Proxy, j: J.Journal) {
    Coupled(p, j.tokens) || j.lastSequence == U64_MAX
  }

  predicate Recordable(j: J.Journal) {
    j.lastSequence < U64_MAX
  }

  /** A frame joined the queue of its direction and nothing else moved. */
  ghost predicate Entered(p: Proxy, f: Frame, q: Proxy) {
    var d, e := f.observation.direction, f.observation.direction.Opposite();
    && q.At(d).queue.frames == p.At(d).queue.frames + [f]
    && q.At(d).queue.bytes == p.At(d).queue.bytes + |f.bytes|
    && q.At(d).acceptedBytes == p.At(d).acceptedBytes + |f.bytes|
    && q.At(d).acceptedMessages == p.At(d).acceptedMessages + 1
    && q.At(e).queue == p.At(e).queue && q.At(e).acceptedBytes == p.At(e).acceptedBytes
    && q.At(e).acceptedMessages == p.At(e).acceptedMessages
    && q.client.forwarded == p.client.forwarded
    && q.open == p.open && q.limits == p.limits && q.expired == p.expired && q.lastTime == p.lastTime
  }

  /** The front frame left the queue of its direction and nothing else moved. */
  ghost predicate Left(p: Proxy, d: Direction, f: Frame, q: Proxy) {
    && p.At(d).queue.frames != [] && p.At(d).queue.frames[0] == f && f.observation.direction == d
    && q.At(d).queue.frames == p.At(d).queue.frames[1..] && q.At(d).queue.bytes == p.At(d).queue.bytes - |f.bytes|
    && q.At(d).forwarded == p.At(d).forwarded + 1 && q.At(d).acceptedBytes == p.At(d).acceptedBytes
    && q.At(d).acceptedMessages == p.At(d).acceptedMessages && q.At(d.Opposite()) == p.At(d.Opposite())
    && q.open == p.open && q.limits == p.limits && q.expired == p.expired
  }

  /** No frame moved. */
  ghost predicate Still(p: Proxy, q: Proxy) {
    && q.client.queue == p.client.queue && q.server.queue == p.server.queue
    && q.client.forwarded == p.client.forwarded && q.client.acceptedBytes == p.client.acceptedBytes
    && q.server.acceptedMessages == p.server.acceptedMessages
    && q.open == p.open && q.limits == p.limits
  }

  lemma {:induction false} AdmitEnters(p: Proxy, c: Candidate)
    requires ValidFrame(c.frame) && Admit(p, c).Ok?
    ensures Entered(p, c.frame, Admit(p, c).value)
  {
  }

  lemma {:induction false} ReleaseLeaves(p: Proxy, d: Direction, now: nat)
    requires Inv(p) && Releasable(p, d) && Release(p, d, now).Ok?
    ensures var r := Release(p, d, now).value;
            if r.frame.Some? then Left(p, d, r.frame.value, r.proxy) && ValidFrame(r.frame.value)
            else Still(p, r.proxy) && r.proxy.expired == p.expired && p.At(d).queue.frames == []
  {
    if p.At(d).queue.frames != [] {
      LaneInvAt(p, d);
      FrontReady(p.At(d), d, p.QueueLimitsAt(d), p.lastTime, p.limits.requestTimeout);
    }
  }

  lemma {:induction false} AcceptMatched(p: Proxy, j: J.Journal, c: Candidate)
    requires Matched(p, j) && J.JournalInv(j) && ValidFrame(c.frame) && Admit(p, c).Ok?
    ensures var r := J.RecordAccepted(j, c.frame.observation);
            if Recordable(j) then
              r.Ok? && Matched(Admit(p, c).value, r.value) && r.value.lastSequence == j.lastSequence + 1
            else r == Err(J.EventSequenceOverflow)
  {
    if Recordable(j) {
      AdmitCoupled(p, j.tokens, c.frame, Correlate(p, c.frame.observation).value);
    }
  }

  lemma {:induction false} ForwardMatched(p: Proxy, j: J.Journal, d: Direction, now: nat)
    requires Matched(p, j) && Inv(p) && Releasable(p, d)
    requires Release(p, d, now).Ok? && Release(p, d, now).value.frame.Some?
    ensures var f, q := Release(p, d, now).value.frame.value, Release(p, d, now).value.proxy;
            var r := J.RecordForwarded(j, f.observation);
            if Recordable(j) then r.Ok? && Matched(q, r.value) && r.value.lastSequence == j.lastSequence + 1
            else r == Err(J.EventSequenceOverflow)
  {
    if Recordable(j) { ReleaseCoupled(p, j.tokens, d, now); }
  }

  /** What an admission and its record did to proxy and journal. */
  ghost predicate AdmitOutcome(p: Proxy, j: J.Journal, f: Frame, admitted: Result<Observation, ProxyError>,
          refused: Option<J.ControlError>, p': Proxy, j': J.Journal)
  {
    && Matched(p', j')
    && (admitted.Err? ==>
          && !admitted.error.InconsistentCorrelationState? && !admitted.error.NonMonotonicClock?
          && refused.None? && p' == p && j' == j)
    && (admitted.Ok? ==>
          admitted.value == f.observation && Entered(p, f, p') && (refused.None? <==> Recordable(j)))
    && (refused.Some? ==> refused.value.EventSequenceOverflow? && !Recordable(j'))
    && (admitted.Ok? && refused.None? ==> j'.lastSequence == j.lastSequence + 1)
  }

  /** Admission and its record. The record is refused only when the sequence is exhausted. */
  method AdmitRecorded(proxy: TransparentProxy, journal: EventJournal, c: Candidate)
    returns (admitted: Result<Observation, ProxyError>, refused: Option<J.ControlError>)
    requires proxy.Valid() && journal.Valid() && Matched(proxy.View(), journal.View()) && ValidFrame(c.frame)
    modifies proxy, proxy.toServer, proxy.toClient, journal
    ensures proxy.Valid() && journal.Valid()
    ensures AdmitOutcome(old(proxy.View()), old(journal.View()), c.frame, admitted, refused, proxy.View(),
                         journal.View())
    ensures admitted.Ok? <==> Admit(old(proxy.View()), c).Ok?
    ensures admitted.Ok? && refused.None? <==> Admit(old(proxy.View()), c).Ok? && Recordable(old(journal.View()))
    ensures admitted.Ok? ==> Admit(old(proxy.View()), c) == Ok(proxy.View())
  {
    ghost var p, j := proxy.View(), journal.View();
    admitted := proxy.Admit(c);
    refused := None;
    if admitted.Err? {
      return;
    }
    AdmitEnters(p, c);
    AcceptMatched(p, j, c);
    var recorded := journal.RecordAccepted(c.frame.observation);
    if recorded.Err? {
      refused := Some(recorded.error);
    }
  }

  /** What a release and its record did to proxy and journal. */
  ghost predicate ReleaseOutcome(p: Proxy, j: J.Journal, d: Direction, now: nat,
          released: Result<Option<Frame>, ProxyError>, refused: Option<J.ControlError>, p': Proxy, j': J.Journal)
  {
    && Matched(p', j')
    && (released.Err? ==> !released.error.InconsistentCorrelationState? && refused.None? && p' == p && j' == j)
    && (released.Err? ==> (released.error.NonMonotonicClock? <==> ClockMovedBack(p, now)))
    && (released.Ok? ==> !ClockMovedBack(p, now) && p'.lastTime == Some(now))
    && (released == Ok(None) ==>
          refused.None? && Still(p, p') && p'.expired == p.expired && j' == j && p.At(d).queue.frames == [])
    && (released.Ok? && released.value.Some? ==>
          && Left(p, d, released.value.value, p') && ValidFrame(released.value.value)
          && (refused.None? <==> Recordable(j)))
    && (refused.Some? ==> refused.value.EventSequenceOverflow? && !Recordable(j'))
    && (refused.None? ==> j.lastSequence <= j'.lastSequence <= j.lastSequence + 1)
  }

  lemma {:induction false} ReleaseSettles(p: Proxy, j: J.Journal, d: Direction, now: nat)
    requires Matched(p, j) && J.JournalInv(j) && Inv(p) && Releasable(p, d) && Release(p, d, now).Ok?
    ensures var r := Release(p, d, now).value;
            if r.frame.None? then ReleaseOutcome(p, j, d, now, Ok(None), None, r.proxy, j)
            else var recorded := J.RecordForwarded(j, r.frame.value.observation);
                 ReleaseOutcome(p, j, d, now, Ok(r.frame), if recorded.Ok? then None else Some(recorded.error), r.proxy,
                                if recorded.Ok? then recorded.value else j)
  {
    ReleaseLeaves(p, d, now);
    if p.At(d).queue.frames != [] { ForwardMatched(p, j, d, now); }
  }

  /** Release and its record. */
  method ReleaseRecorded(proxy: TransparentProxy, journal: EventJournal, d: Direction, now: nat)
    returns (released: Result<Option<Frame>, ProxyError>, refused: Option<J.ControlError>)
    requires proxy.Valid() && journal.Valid() && Matched(proxy.View(), journal.View())
    modifies proxy, proxy.toServer, proxy.toClient, journal
    ensures proxy.Valid() && journal.Valid()
    ensures ReleaseOutcome(old(proxy.View()), old(journal.View()), d, now, released, refused, proxy.View(),
                           journal.View())
    ensures Releasable(old(proxy.View()), d)
    ensures var spec := Release(old(proxy.View()), d, now);
            && (released.Ok? <==> spec.Ok?) && (spec.Ok? ==> spec.value == Released(proxy.View(), released.value))
  {
    ghost var p, j := proxy.View(), journal.View();
    released := proxy.Release(d, now);
    refused := None;
    if released.Err? {
      return;
    }
    ReleaseSettles(p, j, d, now);
    if released.value.None? {
      return;
    }
    var recorded := journal.RecordForwarded(released.value.value.observation);
    if recorded.Err? {
      refused := Some(recorded.error);
    }
  }

  lemma {:induction false} ExpiryStarts(p: Proxy, j: J.Journal, now: nat, due: seq<Expired>, q: Proxy)
    requires Matched(p, j) && Expire(p, now) == Ok(Expiry(q, due))
    ensures Still(p, q) && q.expired == p.expired + |due| && (Recordable(j) ==> Draining(q, j.tokens, due))
  {
    if Recordable(j) { DrainStarts(p, j.tokens, now); }
  }

  lemma {:induction false} ExpiryContinues(q: Proxy, j: J.Journal, rest: seq<Expired>)
    requires rest != [] && (Recordable(j) ==> Draining(q, j.tokens, rest))
    ensures var r := J.RecordExpired(j, rest[0].origin, rest[0].id);
            if Recordable(j) then r.Ok? && Draining(q, r.value.tokens, rest[1..])
            else r == Err(J.EventSequenceOverflow)
  {
    if Recordable(j) { DrainStep(q, j.tokens, rest); }
  }

  lemma {:induction false} ExpiryEnds(q: Proxy, j: J.Journal, rest: seq<Expired>)
    requires J.JournalInv(j) && (Recordable(j) ==> Draining(q, j.tokens, rest)) && (rest == [] || !Recordable(j))
    ensures Matched(q, j)
  {
    if Recordable(j) { DrainEnds(q, j.tokens); }
  }

  /** Records expired requests in order until the sequence is exhausted. */
  method RecordExpirations(journal: EventJournal, expired: seq<Expired>, ghost q: Proxy)
    returns (refused: Option<J.ControlError>)
    requires journal.Valid() && (Recordable(journal.View()) ==> Draining(q, journal.View().tokens, expired))
    modifies journal
    ensures journal.Valid() && Matched(q, journal.View())
    ensures refused.Some? ==> refused.value.EventSequenceOverflow? && !Recordable(journal.View())
    ensures journal.View().lastSequence >= old(journal.View()).lastSequence
    ensures expired == [] ==> refused.None? && journal.View() == old(journal.View())
  {
    refused := None;
    var i := 0;
    while i < |expired|
      invariant i <= |expired| && refused.None? && journal.Valid()
      invariant i == 0 ==> journal.View() == old(journal.View())
      invariant Recordable(journal.View()) ==> Draining(q, journal.View().tokens, expired[i..])
      invariant journal.View().lastSequence >= old(journal.View()).lastSequence
    {
      assert expired[i..][1..] == expired[i + 1..];
      ExpiryContinues(q, journal.View(), expired[i..]);
      var recorded := journal.RecordExpired(expired[i].origin, expired[i].id);
      if recorded.Err? {
        ExpiryEnds(q, journal.View(), expired[i..]);
        return Some(recorded.error);
      }
      i := i + 1;
    }
    ExpiryEnds(q, journal.View(), expired[i..]);
  }

  /** Expiry and its records. */
  method ExpireRecorded(proxy: TransparentProxy, journal: EventJournal, now: nat)
    returns (expired: Result<seq<Expired>, ProxyError>, refused: Option<J.ControlError>)
    requires proxy.Valid() && journal.Valid() && Matched(proxy.View(), journal.View())
    modifies proxy, journal
    ensures proxy.Valid() && journal.Valid() && Matched(proxy.View(), journal.View())
    ensures Still(old(proxy.View()), proxy.View())
    ensures expired.Err? ==>
              && !expired.error.InconsistentCorrelationState? && refused.None?
              && (expired.error.NonMonotonicClock? <==> ClockMovedBack(old(proxy.View()), now))
              && proxy.View() == old(proxy.View()) && journal.View() == old(journal.View())
    ensures expired.Ok? <==> Expire(old(proxy.View()), now).Ok?
    ensures expired.Ok? ==>
              && Expire(old(proxy.View()), now) == Ok(Expiry(proxy.View(), expired.value))
              && proxy.View().expired == old(proxy.View()).expired + |expired.value|
              && !ClockMovedBack(old(proxy.View()), now) && proxy.View().lastTime == Some(now)
    ensures expired == Ok([]) ==> refused.None? && journal.View() == old(journal.View())
    ensures refused.Some? ==> refused.value.EventSequenceOverflow? && !Recordable(journal.View())
    ensures journal.View().lastSequence >= old(journal.View()).lastSequence
  {
    ghost var p, j := proxy.View(), journal.View();
    expired := proxy.ExpireRequests(now);
    refused := None;
    if expired.Err? {
      return;
    }
    ExpiryStarts(p, j, now, expired.value, proxy.View());
    refused := RecordExpirations(journal, expired.value, proxy.View());
  }
}
