/** The Layer 0 evidence record, shared by the hash chain, the status index,
    recovery and the compile queue. */
module Evidence {

  datatype Option<+T> = None | Some(value: T)

  type Id = string
  type Hash = string

  /** Observation types the modelled code branches on; every other type is `Other`. */
  datatype Kind =
    | Tombstone | Redaction | QuarantineReview | Erasure
    | ClaimExtracted | Correction
    | Other(name: string)

  /** The status written on the JSONL line itself. */
  datatype RawStatus = RawAccepted | RawQuarantined

  /** The parts of `content.body` that are read as fields. An absent or wrongly
      typed field is `None`. */
  datatype Body = Body(
    targetKind: Option<string>,
    scope: Option<string>,
    nestedScope: Option<string>,   // body.target.scope
    reason: Option<string>,
    targetId: Option<Id>,
    action: Option<string>,
    text: string)

  datatype Integrity = Integrity(hash: Hash, writer: Id, sequence: int, previous: Option<Hash>)

  datatype Observation = Observation(
    id: Id,
    kind: Kind,
    status: RawStatus,
    app: string,
    sourceId: Option<string>,
    scope: string,
    idempotency: Option<(Id, string)>,
    operationId: Option<Id>,
    actorId: Option<Id>,
    body: Body,
    integrity: Integrity)

  predicate Distinct<T(==)>(s: seq<T>) { forall i, j :: 0 <= i < j < |s| ==> s[i] != s[j] }

  /** Sequence numbers rise along the log. */
  predicate Increasing(log: seq<Observation>) {
    forall i, j :: 0 <= i < j < |log| ==> log[i].integrity.sequence < log[j].integrity.sequence
  }

  /** What an observation hash covers: everything except the hash field. */
  function Preimage(o: Observation): (r: Observation)
    ensures r.integrity.hash == ""
    ensures r.integrity.previous == o.integrity.previous && r.integrity.sequence == o.integrity.sequence
  {
    o.(integrity := o.integrity.(hash := ""))
  }

  /** SHA-256 over the canonical text is a parameter: any function of the preimage. */
  type Digest = Observation -> Hash

  function ComputeHash(digest: Digest, o: Observation): Hash {
    digest(Preimage(o))
  }

  ghost predicate CollisionFree(digest: Digest) {
    forall a, b :: digest(a) == digest(b) ==> a == b
  }
}
