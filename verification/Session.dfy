/** The process session: one owner driving proxy, journal, handshake and stdin worker. */
module Sessions {
  import opened Basics
  import opened Messages
  import opened ProxyModel
  import opened Handshake
  import opened SessionModel
  import opened SessionOutcomes
  import opened SessionEvents
  import opened SessionTraffic
  import opened Recording
  import opened Proxies
  import opened Journals
  import W = WriterLink
  import J = JournalModel

  class ProcessSession {
    const limits: ProcessLimits
    const clockMax: nat
    const environment: Environment
    const proxy: TransparentProxy
    const journal: EventJournal
    const initializationDeadline: nat
    const runtimeDeadline: nat
    var state: Fields
    ghost var trace: Trace

    var cursor: Cursor

    ghost function Standing(): Status
      reads this
    {
      StatusOf(state, trace)
    }

    ghost predicate Valid()
      reads this, proxy, proxy.toServer, proxy.toClient, journal
    {
      && ValidProcessLimits(limits) && proxy.Valid() && journal.Valid()
      && Kept(limits, state, trace, proxy.View(), journal.View())
    }

    constructor (limits: ProcessLimits, proxyLimits: ProxyLimits, eventLimit: nat, environment: Environment,
            clockMax: nat, now: nat)
      requires ValidProcessLimits(limits) && ValidProxyLimits(proxyLimits) && 0 < eventLimit <= J.ABSOLUTE_MAX_EVENTS
      ensures Valid() && state == Attached(limits, now) && trace == NO_TRACE && cursor == Cursor(0, 0, 0, 0)
      ensures this.limits == limits && this.environment == environment && this.clockMax == clockMax
      ensures initializationDeadline == now + limits.initializationTimeout
      ensures runtimeDeadline == now + limits.runtimeTimeout
      ensures proxy.View() == Initial(proxyLimits, clockMax) && journal.View() == J.Empty(eventLimit)
      ensures fresh(proxy) && fresh(proxy.toServer) && fresh(proxy.toClient) && fresh(journal)
    {
      this.limits, this.clockMax, this.environment := limits, clockMax, environment;
      proxy := new TransparentProxy(proxyLimits, clockMax);
      journal := new EventJournal(eventLimit);
      initializationDeadline := now + limits.initializationTimeout;
      runtimeDeadline := now + limits.runtimeTimeout;
      state, trace := Attached(limits, now), NO_TRACE;
      cursor := Cursor(0, 0, 0, 0);
      new;
      AttachedInv(limits, now, proxyLimits, clockMax, eventLimit);
      KeptMeans(limits, state, trace, proxy.View(), journal.View());
    }

    /** Validates and queues one exact client line. */
    method SendClient(line: Bytes) returns (r: Result<Observation, SessionError>)
      requires Valid()
      modifies this`state, this`trace, proxy, proxy.toServer, proxy.toClient, journal
      ensures Valid() && Later(old(Standing()), Standing())
      ensures r.Err? ==> CallError(r.error)
      ensures !old(state.lifecycle).Running? ==> r == Err(NotRunning) && state == old(state)
      ensures r.Ok? <==> Accepts(old(state), old(proxy.View()), old(journal.View()), line, environment)
      ensures r.Ok? ==>
                && Frame(r.value, line) == Offered(old(proxy.View()), ClientToServer, line, environment.decode).frame
                && Accepted(old(state), old(proxy.View()), Candidate(old(proxy.View()).limits, Frame(r.value, line)),
                            state, proxy.View())
                && journal.View().lastSequence == old(journal.View()).lastSequence + 1
      ensures r.Err? && !r.error.Control? ==> proxy.View() == old(proxy.View())
      ensures trace == Counting(old(trace), line, r)
    {
      var s;
      s, r := AdmitClientLine(limits, proxy, journal, state, line, environment, trace);
      state, trace := s, Counting(trace, line, r);
    }

    /** Releases the next exact server frame toward the client. */
    method NextForClient(now: nat) returns (r: Result<Option<Frame>, SessionError>)
      requires Valid()
      modifies this`state, this`trace, proxy, proxy.toServer, proxy.toClient, journal
      ensures Valid() && Later(old(Standing()), Standing())
      ensures r.Err? ==> !Contradiction(r.error) && !r.error.UnexpectedServerMessage?
      ensures r.Err? ==> trace == if r.error.Control? then Unrecording(old(trace), now) else old(trace)
      ensures r.Err? && ProxyClock(r.error) <==> Timely(old(state), now) && Overtaken(old(trace), now)
      ensures r.Ok? ==>
                old(state.lastObservedTime) <= now && Delivered(old(state), old(trace), now, r.value, state, trace)
      ensures Timely(old(state), now) && Recordable(old(journal.View())) ==>
                && Releasable(old(proxy.View()), ServerToClient)
                && var spec := Release(old(proxy.View()), ServerToClient, now);
                   && (r.Ok? <==> spec.Ok?) && (r.Ok? ==> spec.value == Released(proxy.View(), r.value))
      ensures r.Ok? ==> journal.View().lastSequence <= old(journal.View()).lastSequence + 1
    {
      var s;
      ghost var t;
      s, t, r := Deliver(limits, proxy, journal, state, now, trace);
      state, trace := s, t;
    }

    /** Begins graceful or immediate shutdown. */
    method Shutdown(mode: ShutdownMode, now: nat) returns (r: Option<SessionError>)
      requires Valid()
      modifies this`state, this`trace
      ensures Valid() && Later(old(Standing()), Standing())
      ensures r.Some? ==> CallError(r.value) && state == old(state) && trace == old(trace)
      ensures r.None? && mode.Graceful? && old(state.lifecycle).Running? ==>
                state.lifecycle == GracefulShutdown(now + limits.shutdownTimeout)
      ensures r.None? && mode.Immediate? && !old(state.lifecycle).Exited? ==> state.lifecycle.Terminating?
      ensures trace == old(trace).(graceful := trace.graceful)
    {
      var s, t, failure := RequestShutdown(limits, state, mode, now, clockMax, trace, proxy.View(), journal.View());
      state, trace := s, t;
      return failure;
    }

    /** Consumes worker events and advances the session without waiting. */
    method Poll(now: nat) returns (r: Result<Progress, SessionError>)
      requires Valid()
      modifies this`state, this`trace, this`cursor, proxy, proxy.toServer, proxy.toClient, journal
      ensures Later(old(Standing()), Standing())
      ensures r.Err? ==> PollError(r.error)
      ensures old(trace.handed) <= trace.handed && trace.delivered == old(trace.delivered)
      ensures trace.accepted == old(trace.accepted) && trace.unrecorded == old(trace.unrecorded)
      ensures r.Ok? ==> Progressed(old(state), old(trace), old(proxy.View()), r.value, state, trace, proxy.View())
      ensures Timely(old(state), now) ==>
                CalmPoll(limits, environment, (initializationDeadline, runtimeDeadline), now, clockMax,
                         At(old(state), now), old(trace), old(cursor), old(proxy.View()), old(journal.View()), state,
                         trace, cursor, proxy.View(), journal.View(), PollReading(r))
      ensures Valid()
    {
      var s, c;
      ghost var t;
      s, t, c, r := PollOnce(limits, proxy, journal, state, environment, cursor,
                             (initializationDeadline, runtimeDeadline), now, clockMax, trace);
      state, trace, cursor := s, t, c;
    }

    /** Returns and removes the oldest retained event. */
    method NextEvent() returns (e: Option<J.Event>)
      requires Valid()
      modifies journal
      ensures Valid() && journal.View() == J.Pull(old(journal.View()))
    {
      ghost var j := journal.View();
      KeptMatched(limits, state, trace, proxy.View(), j);
      e := journal.NextEvent();
      KeptStill(limits, state, trace, proxy.View(), j, proxy.View(), journal.View());
    }
  }

  /** Attaching to a launched child fails only when a deadline cannot be represented. */
  method Attach(limits: ProcessLimits, proxyLimits: ProxyLimits, eventLimit: nat, environment: Environment,
          clockMax: nat, now: nat)
    returns (r: Result<ProcessSession, SessionError>)
    requires ValidProcessLimits(limits) && ValidProxyLimits(proxyLimits) && 0 < eventLimit <= J.ABSOLUTE_MAX_EVENTS
    ensures r.Err? <==> now + limits.initializationTimeout > clockMax || now + limits.runtimeTimeout > clockMax
    ensures r.Err? ==> r.error == DeadlineTooFar
    ensures r.Ok? ==>
              && fresh(r.value) && fresh(r.value.proxy) && fresh(r.value.proxy.toServer)
              && fresh(r.value.proxy.toClient) && fresh(r.value.journal)
    ensures r.Ok? ==>
              && r.value.Valid() && r.value.state == Attached(limits, now) && r.value.trace == NO_TRACE
              && r.value.cursor == Cursor(0, 0, 0, 0)
              && r.value.limits == limits && r.value.environment == environment && r.value.clockMax == clockMax
              && r.value.initializationDeadline == now + limits.initializationTimeout
              && r.value.runtimeDeadline == now + limits.runtimeTimeout
              && r.value.proxy.View() == Initial(proxyLimits, clockMax)
              && r.value.journal.View() == J.Empty(eventLimit)
  {
    if now + limits.initializationTimeout > clockMax || now + limits.runtimeTimeout > clockMax {
      return Err(DeadlineTooFar);
    }
    var session := new ProcessSession(limits, proxyLimits, eventLimit, environment, clockMax, now);
    return Ok(session);
  }

  datatype Call =
    | Send(line: Bytes)
    | Poll(polledAt: nat)
    | Receive(receivedAt: nat)
    | Stop(mode: ShutdownMode, stoppedAt: nat)
    | Pull

  /** The line a call had accepted, if it was one. */
  function LineOf(call: Call, error: Option<SessionError>): seq<Bytes> {
    if call.Send? && error.None? then [call.line] else []
  }

  datatype Failure = Failure(call: Call, error: SessionError)

  /** What a call may fail with: nothing that would mean the session's parts contradict each other, no frame out of
      order in a poll, none in a delivery. */
  predicate Expectable(f: Failure) {
    && !Contradiction(f.error)
    && (f.call.Poll? ==> PollError(f.error))
    && (f.call.Receive? ==> !f.error.UnexpectedServerMessage?)
    && (ProxyClock(f.error) ==> f.call.Receive?)
  }

  /** A delivery whose record was refused. */
  predicate Refusal(f: Failure) {
    f.call.Receive? && f.error.Control?
  }

  method PerformSend(session: ProcessSession, line: Bytes) returns (error: Option<SessionError>)
    requires session.Valid()
    modifies session, session.proxy, session.proxy.toServer, session.proxy.toClient, session.journal
    ensures Later(old(session.Standing()), session.Standing())
    ensures error.Some? ==> CallError(error.value)
    ensures session.trace == old(session.trace).(accepted := session.trace.accepted)
    ensures W.LinesOf(session.trace.accepted) ==
              W.LinesOf(old(session.trace).accepted) + if error.None? then [line] else []
    ensures session.Valid()
  {
    ghost var accepted := session.trace.accepted;
    var r := session.SendClient(line);
    error := if r.Err? then Some(r.error) else None;
    if r.Ok? { W.LinesGrow(accepted, Frame(r.value, line)); }
  }

  /** One call, and the error it returned, if any. */
  method Perform(session: ProcessSession, call: Call) returns (error: Option<SessionError>)
    requires session.Valid()
    modifies session, session.proxy, session.proxy.toServer, session.proxy.toClient, session.journal
    ensures Later(old(session.Standing()), session.Standing())
    ensures error.Some? ==> Expectable(Failure(call, error.value))
    ensures error.Some? && ProxyClock(error.value) ==> Overtaken(old(session.trace), call.receivedAt)
    ensures session.trace.unrecorded ==
              if error.Some? && Refusal(Failure(call, error.value)) then Some(call.receivedAt)
              else old(session.trace).unrecorded
    ensures old(session.trace).handed <= session.trace.handed && old(session.trace).delivered <= session.trace.delivered
    ensures W.LinesOf(session.trace.accepted) == W.LinesOf(old(session.trace).accepted) + LineOf(call, error)
    ensures session.Valid()
  {
    ghost var accepted := session.trace.accepted;
    assert W.LinesOf(accepted) + [] == W.LinesOf(accepted);
    match call
    case Send(line) => error := PerformSend(session, line);
    case Poll(now) =>
      var r := session.Poll(now);
      error := if r.Err? then Some(r.error) else None;
    case Receive(now) =>
      var r := session.NextForClient(now);
      error := if r.Err? then Some(r.error) else None;
    case Stop(mode, now) =>
      error := session.Shutdown(mode, now);
    case Pull =>
      var e := session.NextEvent();
      error := None;
  }

  lemma {:induction false} Appended<T>(a: seq<T>, b: seq<T>, c: seq<T>, joined: seq<T>)
    requires joined == a + b
    ensures joined + c == a + (b + c)
  {
  }

  /** The proxy's clock refuses a delivery only after one at a later instant whose record was refused. */
  ghost predicate ClockExplained(failures: seq<Failure>) {
    forall k :: 0 <= k < |failures| && ProxyClock(failures[k].error) ==>
      exists i :: 0 <= i < k && failures[k].call.Receive? && Refusal(failures[i])
                  && failures[k].call.receivedAt < failures[i].call.receivedAt
  }

  /** The refused delivery a trace remembers is among the failures. */
  ghost predicate Remembered(failures: seq<Failure>, unrecorded: Option<nat>) {
    unrecorded.Some? ==>
      exists i :: 0 <= i < |failures| && Refusal(failures[i]) && failures[i].call.receivedAt == unrecorded.value
  }

  lemma {:induction false} FailureExplained(failures: seq<Failure>, f: Failure, unrecorded: Option<nat>)
    requires ClockExplained(failures) && Remembered(failures, unrecorded)
    requires ProxyClock(f.error) ==> f.call.Receive? && unrecorded.Some? && f.call.receivedAt < unrecorded.value
    ensures ClockExplained(failures + [f])
    ensures Remembered(failures + [f], if Refusal(f) then Some(f.call.receivedAt) else unrecorded)
  {
    var all := failures + [f];
    assert all[|failures|] == f;
    if unrecorded.Some? {
      var i :| 0 <= i < |failures| && Refusal(failures[i]) && failures[i].call.receivedAt == unrecorded.value;
      assert all[i] == failures[i];
    }
    forall k | 0 <= k < |all| && ProxyClock(all[k].error)
      ensures exists i :: 0 <= i < k && all[k].call.Receive? && Refusal(all[i])
                          && all[k].call.receivedAt < all[i].call.receivedAt
    {
      if k < |failures| {
        assert all[k] == failures[k];
        var i :| 0 <= i < k && Refusal(failures[i]) && failures[k].call.receivedAt < failures[i].call.receivedAt;
        assert all[i] == failures[i];
      }
    }
  }

  /** Performs the calls in order; returns their failures and the lines that were accepted. */
  method PerformAll(session: ProcessSession, calls: seq<Call>) returns (failures: seq<Failure>, lines: seq<Bytes>)
    requires session.Valid()
    modifies session, session.proxy, session.proxy.toServer, session.proxy.toClient, session.journal
    ensures Later(old(session.Standing()), session.Standing()) && old(session.trace).handed <= session.trace.handed
    ensures forall f :: f in failures ==> f.call in calls && Expectable(f)
    ensures old(session.trace).unrecorded.None? ==> ClockExplained(failures)
    ensures W.LinesOf(session.trace.accepted) == W.LinesOf(old(session.trace).accepted) + lines
    ensures session.Valid()
  {
    failures, lines := [], [];
    ghost var earlier, clean := W.LinesOf(session.trace.accepted), session.trace.unrecorded.None?;
    for i := 0 to |calls|
      invariant Later(old(session.Standing()), session.Standing())
      invariant old(session.trace).handed <= session.trace.handed
      invariant forall f :: f in failures ==> f.call in calls && Expectable(f)
      invariant clean ==> ClockExplained(failures) && Remembered(failures, session.trace.unrecorded)
      invariant W.LinesOf(session.trace.accepted) == earlier + lines
      invariant session.Valid()
    {
      ghost var said, unrecorded := W.LinesOf(session.trace.accepted), session.trace.unrecorded;
      var error := Perform(session, calls[i]);
      Appended(earlier, lines, LineOf(calls[i], error), said);
      lines := lines + LineOf(calls[i], error);
      if error.Some? {
        if clean { FailureExplained(failures, Failure(calls[i], error.value), unrecorded); }
        failures := failures + [Failure(calls[i], error.value)];
      }
    }
  }

  /** Any calls in any order, in any environment: no call ever reports that the session's parts contradict
      each other, its standing only moves forward, everything handed to the child follows the handshake, and the
      child's standard input is a prefix of the accepted lines, byte for byte. A session reports having been
      initialized exactly when its second frame was released and recorded, and that frame was handed over exactly
      when it found the stdin worker listening. */
  method Drive(session: ProcessSession, calls: seq<Call>) returns (failures: seq<Failure>, lines: seq<Bytes>)
    requires session.Valid()
    modifies session, session.proxy, session.proxy.toServer, session.proxy.toClient, session.journal
    ensures session.Valid() && Later(old(session.Standing()), session.Standing())
    ensures forall f :: f in failures ==> f.call in calls && Expectable(f)
    ensures old(session.trace).unrecorded.None? ==> ClockExplained(failures)
    ensures old(session.trace).handed <= session.trace.handed && Script(session.trace.handed, 0)
    ensures |session.trace.handed| >= 2 ==> Answered(session.trace.delivered, session.trace.handed[0])
    ensures session.state.link.stdin <= W.Joined(W.LinesOf(old(session.trace).accepted) + lines)
    ensures StatusInv(session.Standing()) && session.proxy.open == !session.state.lifecycle.Exited?
    ensures session.state.exitReport.Some? ==>
              (session.state.exitReport.value.initialized <==> |session.trace.sends| >= 2)
    ensures |session.trace.handed| >= 2 <==>
              |session.trace.sends| >= 2 && W.Listening(session.trace.sends[1])
  {
    failures, lines := PerformAll(session, calls);
    Guarantees(session.limits, session.state, session.trace, session.proxy.View(), session.journal.View());
    ReportedInitialization(session.limits, session.state, session.trace, session.proxy.View(), session.journal.View());
    W.RenderJoins(session.trace.accepted);
  }
}
