/** The mutable event journal, statement for statement, proved to compute the value-level model. */
module Journals {
  import opened Basics
  import opened Messages
  import JournalModel
  import opened M = JournalModel

  /** Fingerprints the method a message carries, if it carries one. */
  method FingerprintObserved(o: Observation) returns (r: Result<Option<Fingerprint>, ControlError>)
    ensures (o.name.Some? && !ValidMethod(o.name.value)) <==> r.Err?
    ensures r.Ok? ==> forall stage, c, rule :: Redacted(stage, o, c, rule).fingerprint == r.value
  {
    if o.name.None? {
      return Ok(None);
    }
    if !ValidMethod(o.name.value) {
      return Err(ControlError.InvalidMethod);
    }
    return Ok(Some(FingerprintOf(o.name.value)));
  }

  class EventJournal {
    const limit: nat
    var events: seq<Event>
    var evicted: nat
    var lastSequence: nat
    var lastCorrelation: nat
    var active: map<CorrelationKey, nat>
    var pending: map<CorrelationKey, nat>

    ghost function View(): Journal
      reads this
    {
      M.Journal(limit, events, evicted, lastSequence, Correlations(active, pending, lastCorrelation))
    }

    ghost predicate Valid()
      reads this
    {
      JournalInv(View())
    }

    constructor (limit: nat)
      requires 0 < limit <= ABSOLUTE_MAX_EVENTS
      ensures View() == Empty(limit) && Valid()
    {
      this.limit := limit;
      events := [];
      evicted := 0;
      lastSequence := 0;
      lastCorrelation := 0;
      active := map[];
      pending := map[];
    }

    method PreflightSequence() returns (r: Result<nat, ControlError>)
      requires Valid()
      ensures r == if lastSequence < U64_MAX then Ok(lastSequence + 1) else Err(EventSequenceOverflow)
    {
      if lastSequence >= U64_MAX {
        return Err(EventSequenceOverflow);
      }
      if |events| == limit && evicted >= U64_MAX {
        return Err(EventEvictionOverflow);
      }
      return Ok(lastSequence + 1);
    }

    method PushEvent(sequence: nat, detail: Detail) returns (r: Result<(), ControlError>)
      requires BufferInv(View()) && sequence == lastSequence + 1 <= U64_MAX
      modifies this
      ensures r.Ok? && View() == Push(old(View()), detail)
    {
      if |events| == limit {
        if events == [] {
          return Err(InconsistentEvents);
        }
        events := events[1..];
        if evicted >= U64_MAX {
          return Err(EventEvictionOverflow);
        }
        evicted := evicted + 1;
      }
      events := events + [Event(sequence, detail)];
      lastSequence := sequence;
      return Ok(());
    }

    method PushMessage(sequence: nat, stage: Stage, o: Observation, fingerprint: Option<Fingerprint>,
            correlation: Option<nat>, rule: Option<nat>)
      returns (r: Result<(), ControlError>)
      requires BufferInv(View()) && sequence == lastSequence + 1 <= U64_MAX
      requires fingerprint == Redacted(stage, o, correlation, rule).fingerprint
      modifies this
      ensures r.Ok? && View() == Push(old(View()), Redacted(stage, o, correlation, rule))
    {
      r := PushEvent(sequence, Message(stage, o.direction, o.kind, fingerprint, correlation, o.byteLength, rule));
    }

    /** Opens a request's correlation, or moves an answered one to the pending responses. */
    method NoteAccepted(o: Observation) returns (r: Result<Option<nat>, ControlError>)
      requires Valid() && WellFormed(o) && lastSequence < U64_MAX
      modifies this`active, this`pending, this`lastCorrelation
      ensures var spec := JournalModel.NoteAccepted(old(View()).tokens, o);
              if spec.Ok? then r == Ok(spec.value.token) && View().tokens == spec.value.tokens
              else r == Err(spec.error) && View() == old(View())
    {
      var key := RequestKey(o);
      r := Ok(None);
      match o.kind {
        case Request =>
          if key.None? {
            return Err(InconsistentCorrelation);
          }
          if key.value in active || key.value in pending {
            return Err(InconsistentCorrelation);
          }
          if lastCorrelation >= U64_MAX {
            return Err(CorrelationSequenceOverflow);
          }
          var token := lastCorrelation + 1;
          active := active[key.value := token];
          lastCorrelation := token;
          r := Ok(Some(token));
        case Notification =>
        case _ =>
          if key.Some? && key.value in active {
            var token := active[key.value];
            active := active - {key.value};
            if key.value in pending {
              return Err(InconsistentCorrelation);
            }
            pending := pending[key.value := token];
            r := Ok(Some(token));
          }
      }
    }

    method RecordAccepted(o: Observation) returns (r: Result<(), ControlError>)
      requires Valid() && WellFormed(o)
      modifies this
      ensures var spec := JournalModel.RecordAccepted(old(View()), o);
              if spec.Ok? then r.Ok? && View() == spec.value else r == Err(spec.error) && View() == old(View())
      ensures Valid()
    {
      ghost var before := View();
      var name := FingerprintObserved(o);
      if name.Err? {
        return Err(ControlError.InvalidMethod);
      }
      var sequence := PreflightSequence();
      if sequence.Err? {
        return Err(sequence.error);
      }
      var noted := NoteAccepted(o);
      if noted.Err? {
        return Err(noted.error);
      }
      r := PushMessage(sequence.value, Accepted, o, name.value, noted.value, None);
      AttemptKeepsInv(before, Accept(o));
    }

    method RecordForwarded(o: Observation) returns (r: Result<(), ControlError>)
      requires Valid() && WellFormed(o)
      modifies this
      ensures var spec := JournalModel.RecordForwarded(old(View()), o);
              if spec.Ok? then r.Ok? && View() == spec.value else r == Err(spec.error) && View() == old(View())
      ensures Valid()
    {
      ghost var before := View();
      var name := FingerprintObserved(o);
      if name.Err? {
        return Err(ControlError.InvalidMethod);
      }
      var sequence := PreflightSequence();
      if sequence.Err? {
        return Err(sequence.error);
      }
      var key := RequestKey(o);
      var correlation: Option<nat> := None;
      match o.kind {
        case Request =>
          if key.None? || key.value !in active {
            return Err(InconsistentCorrelation);
          }
          correlation := Some(active[key.value]);
        case Notification =>
        case _ =>
          if key.Some? && key.value in pending {
            correlation := Some(pending[key.value]);
            pending := pending - {key.value};
          }
      }
      r := PushMessage(sequence.value, Forwarded, o, name.value, correlation, None);
      AttemptKeepsInv(before, Forward(o));
    }

    method RecordBlocked(o: Observation, rule: nat) returns (r: Result<(), ControlError>)
      requires Valid() && WellFormed(o)
      modifies this
      ensures var spec := JournalModel.RecordBlocked(old(View()), o, rule);
              if spec.Ok? then r.Ok? && View() == spec.value else r == Err(spec.error) && View() == old(View())
      ensures Valid()
    {
      ghost var before := View();
      var name := FingerprintObserved(o);
      if name.Err? {
        return Err(ControlError.InvalidMethod);
      }
      var sequence := PreflightSequence();
      if sequence.Err? {
        return Err(sequence.error);
      }
      r := PushMessage(sequence.value, Blocked, o, name.value, None, Some(rule));
      AttemptKeepsInv(before, Block(o, rule));
    }

    method RecordExpired(origin: Direction, id: RequestId) returns (r: Result<(), ControlError>)
      requires Valid()
      modifies this
      ensures var spec := JournalModel.RecordExpired(old(View()), origin, id);
              if spec.Ok? then r.Ok? && View() == spec.value else r == Err(spec.error) && View() == old(View())
      ensures Valid()
    {
      ghost var before := View();
      var sequence := PreflightSequence();
      if sequence.Err? {
        return Err(sequence.error);
      }
      var key := KeyOf(origin, id);
      if key !in active {
        return Err(InconsistentCorrelation);
      }
      var token := active[key];
      active := active - {key};
      r := PushEvent(sequence.value, RequestExpired(origin, token));
      AttemptKeepsInv(before, Expire(origin, id));
    }

    method NextEvent() returns (e: Option<Event>)
      requires Valid()
      modifies this
      ensures View() == Pull(old(View())) && Valid()
      ensures e == if old(events) == [] then None else Some(old(events)[0])
    {
      AttemptKeepsInv(View(), PullOp);
      if events == [] {
        return None;
      }
      e := Some(events[0]);
      events := events[1..];
    }

    method ClearCorrelations()
      requires Valid()
      modifies this
      ensures View() == JournalModel.ClearCorrelations(old(View())) && Valid()
    {
      active := map[];
      pending := map[];
    }
  }
}
