/** The hash-chained certification ledger. */
module Ledger {
  import opened Basics

  datatype PublicationStatus = LocalOnly | Draft | Published | Withdrawn

  datatype Receipt = Receipt(attestationDigest: Bytes, status: PublicationStatus)

  /** Policies and attestations are documents of their own; the ledger only carries them. */
  datatype Event<P, A> =
    | Genesis(policy: P, attestation: A, receipt: Receipt)
    | Publication(published: A, publishedReceipt: Receipt)
    | PolicyReplacement(replacement: P)
    | CertificationRevocation(evidence: Bytes)
    | RunnerRevocation(runnerEvidence: Bytes)

  datatype Record<P, A> = Record(sequence: nat, previous: Option<Bytes>, event: Event<P, A>)

  datatype LedgerError =
    | InvalidAttestation
    | PolicyMismatch
    | ReceiptMismatch
    | InvalidPublicationStatus
    | InvalidSequence
    | InvalidGenesis
    | UnexpectedGenesis
    | MissingPreviousLink
    | SequenceExhausted

  /** What the ledger relies on: document checks, document digests, canonical JSON and SHA-256. */
  datatype Documents<!P, !A> = Documents(
    accepts: (P, A) -> bool,
    policyValid: P -> bool,
    attestationDigest: A -> Bytes,
    encode: Record<P, A> -> Bytes,
    hash: Bytes -> Bytes)
  {
    function Digest(r: Record<P, A>): Bytes {
      hash(encode(r))
    }
  }

  /** Canonical JSON distinguishes different records. */
  ghost predicate Canonical<P(!new), A(!new)>(docs: Documents<P, A>) {
    forall r, s :: docs.encode(r) == docs.encode(s) ==> r == s
  }

  // ---- Records -----------------------------------------------------------------------------

  function ReceiptError<P, A>(docs: Documents<P, A>, attestation: A, receipt: Receipt): Option<LedgerError> {
    if !receipt.status.LocalOnly? then Some(InvalidPublicationStatus)
    else if receipt.attestationDigest != docs.attestationDigest(attestation) then Some(ReceiptMismatch)
    else None
  }

  function EventError<P, A>(docs: Documents<P, A>, e: Event<P, A>): Option<LedgerError> {
    match e
    case Genesis(policy, attestation, receipt) =>
      if !docs.accepts(policy, attestation) then Some(PolicyMismatch) else ReceiptError(docs, attestation, receipt)
    case Publication(attestation, receipt) => ReceiptError(docs, attestation, receipt)
    case PolicyReplacement(policy) => if docs.policyValid(policy) then None else Some(InvalidAttestation)
    case _ => None
  }

  function GenesisRecord<P, A>(docs: Documents<P, A>, g: Event<P, A>): Result<Record<P, A>, LedgerError>
    requires g.Genesis?
  {
    if EventError(docs, g).Some? then Err(EventError(docs, g).value) else Ok(Record(1, None, g))
  }

  function NextRecord<P, A>(docs: Documents<P, A>, previous: Record<P, A>, e: Event<P, A>): Result<Record<P, A>,
      LedgerError> {
    if e.Genesis? then Err(UnexpectedGenesis)
    else if EventError(docs, e).Some? then Err(EventError(docs, e).value)
    else if previous.sequence >= U64_MAX then Err(SequenceExhausted)
    else Ok(Record(previous.sequence + 1, Some(docs.Digest(previous)), e))
  }

  /** `validate_shape`. */
  function ShapeError<P, A>(docs: Documents<P, A>, r: Record<P, A>): Option<LedgerError> {
    if r.sequence == 0 then Some(InvalidSequence)
    else if r.sequence == 1 && !(r.previous.None? && r.event.Genesis?) then Some(InvalidGenesis)
    else if r.sequence > 1 && r.previous.Some? && r.event.Genesis? then Some(UnexpectedGenesis)
    else if r.sequence > 1 && r.previous.None? then Some(MissingPreviousLink)
    else EventError(docs, r.event)
  }

  // ---- Chains ------------------------------------------------------------------------------

  /** `genesis`, then `next` for each further event. */
  function Build<P, A>(docs: Documents<P, A>, g: Event<P, A>, events: seq<Event<P, A>>): Result<seq<Record<P, A>>,
      LedgerError>
    requires g.Genesis?
    ensures Build(docs, g, events).Ok? ==> |Build(docs, g, events).value| == |events| + 1
  {
    if events == [] then
      var r := GenesisRecord(docs, g);
      if r.Err? then Err(r.error) else Ok([r.value])
    else
      var before := Build(docs, g, events[..|events| - 1]);
      if before.Err? then before
      else
        var r := NextRecord(docs, before.value[|events| - 1], events[|events| - 1]);
        if r.Err? then Err(r.error) else Ok(before.value + [r.value])
  }

  /** What a reader can check of a sequence of records without knowing how it was made. */
  ghost predicate Verifies<P(!new), A(!new)>(docs: Documents<P, A>, chain: seq<Record<P, A>>) {
    && (forall k :: 0 <= k < |chain| ==> chain[k].sequence == k + 1 <= U64_MAX)
    && (forall k :: 0 <= k < |chain| ==> ShapeError(docs, chain[k]).None?)
    && (forall k :: 0 < k < |chain| ==> chain[k].previous == Some(docs.Digest(chain[k - 1])))
  }

  /** Every built chain verifies: record k has sequence k, a valid shape and a link to its predecessor. */
  lemma {:induction false} BuiltChainsVerify<P(!new), A(!new)>(docs: Documents<P, A>, g: Event<P, A>,
          events: seq<Event<P, A>>)
    requires g.Genesis? && Build(docs, g, events).Ok?
    ensures Verifies(docs, Build(docs, g, events).value)
    ensures var chain := Build(docs, g, events).value;
            && chain[0].event == g
            && forall k :: 0 < k < |chain| ==> chain[k].event == events[k - 1] && !chain[k].event.Genesis?
  {
    if events != [] {
      var n := |events|;
      BuiltChainsVerify(docs, g, events[..n - 1]);
      var before, chain := Build(docs, g, events[..n - 1]).value, Build(docs, g, events).value;
      assert chain[..n] == before;
      forall k | 0 <= k < |chain| ensures chain[k].sequence == k + 1 <= U64_MAX && ShapeError(docs, chain[k]).None? {
        if k < n { assert chain[k] == before[k]; }
      }
      forall k | 0 < k < |chain|
        ensures chain[k].previous == Some(docs.Digest(chain[k - 1]))
        ensures chain[k].event == events[k - 1] && !chain[k].event.Genesis?
      {
        if k < n { assert chain[k] == before[k] && chain[k - 1] == before[k - 1]; }
      }
    }
  }

  function EventsOf<P, A>(chain: seq<Record<P, A>>): seq<Event<P, A>> {
    seq(|chain|, i requires 0 <= i < |chain| => chain[i].event)
  }

  /** Conversely, whatever verifies is a built chain: there is no other way to get one. */
  lemma {:induction false} VerifiedChainsAreBuilt<P(!new), A(!new)>(docs: Documents<P, A>, chain: seq<Record<P, A>>)
    requires chain != [] && Verifies(docs, chain)
    ensures chain[0].event.Genesis? && Build(docs, chain[0].event, EventsOf(chain[1..])) == Ok(chain)
  {
    assert ShapeError(docs, chain[0]).None?;
    var n := |chain| - 1;
    if n == 0 {
      assert EventsOf(chain[1..]) == [] && chain == [chain[0]];
    } else {
      var before := chain[..n];
      VerifiedChainsAreBuilt(docs, before);
      var events := EventsOf(chain[1..]);
      assert events[..n - 1] == EventsOf(before[1..]);
      assert ShapeError(docs, chain[n]).None? && chain[n].previous == Some(docs.Digest(chain[n - 1]));
      assert NextRecord(docs, before[n - 1], events[n - 1]) == Ok(chain[n]) by {
        assert before[n - 1] == chain[n - 1] && events[n - 1] == chain[n].event;
        assert chain[n].sequence == chain[n - 1].sequence + 1;
      }
      assert before[0] == chain[0] && chain == before + [chain[n]];
    }
  }

  /** Two records, one of each chain, whose different documents share a hash. */
  predicate RecordsCollide<P, A>(docs: Documents<P, A>, r: Record<P, A>, s: Record<P, A>) {
    docs.encode(r) != docs.encode(s) && docs.hash(docs.encode(r)) == docs.hash(docs.encode(s))
  }

  lemma {:induction false} EarlierVerifies<P(!new), A(!new)>(docs: Documents<P, A>, a: seq<Record<P, A>>,
          b: seq<Record<P, A>>)
    requires |a| > 1 && |b| > 1 && Verifies(docs, a) && Verifies(docs, b) && a[|a| - 1] == b[|b| - 1]
    ensures var x, y := a[..|a| - 1], b[..|b| - 1];
            && Verifies(docs, x) && Verifies(docs, y)
            && docs.Digest(x[|x| - 1]) == docs.Digest(y[|y| - 1])
  {
    var m, n := |a| - 1, |b| - 1;
    assert a[m].previous == Some(docs.Digest(a[m - 1])) && b[n].previous == Some(docs.Digest(b[n - 1]));
  }

  /** The head digest binds the whole history: two chains with the same head digest are the same chain, record
      for record, unless the documents of two of their own records collide. */
  lemma {:induction false} HeadBindsHistory<P(!new), A(!new)>(
      docs: Documents<P, A>, a: seq<Record<P, A>>, b: seq<Record<P, A>>)
    requires Canonical(docs) && a != [] && b != [] && Verifies(docs, a) && Verifies(docs, b)
    requires docs.Digest(a[|a| - 1]) == docs.Digest(b[|b| - 1])
    ensures a == b || exists i, j :: 0 <= i < |a| && 0 <= j < |b| && RecordsCollide(docs, a[i], b[j])
  {
    var m, n := |a| - 1, |b| - 1;
    if a[m] != b[n] {
      assert RecordsCollide(docs, a[m], b[n]);
    } else {
      assert m == n;
      assert a == a[..m] + [a[m]] && b == b[..n] + [b[n]];
      if m > 0 {
        EarlierVerifies(docs, a, b);
        var x, y := a[..m], b[..n];
        HeadBindsHistory(docs, x, y);
        if x != y {
          var i, j :| 0 <= i < |x| && 0 <= j < |y| && RecordsCollide(docs, x[i], y[j]);
          assert a[i] == x[i] && b[j] == y[j];
        }
      }
    }
  }
}
