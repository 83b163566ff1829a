/** The claim store: a row table and the append-only version log it must be rebuildable from. */
module ClaimStore {
  import opened Evidence

  /** Instants are integers; a missing time value is `None`. */
  type Time = int

  datatype Status = Active | Superseded | Contested | Retracted | Stale

  datatype Value = Value(kind: string, raw: string)

  datatype Claim = Claim(
    id: Id, subject: Id, predicateName: string, scope: string, value: Value,
    validFrom: Time, validTo: Option<Time>,
    ingested: Time, invalidated: Option<Time>,
    evidence: seq<Id>,
    status: Status, confidence: real,
    supersededBy: Option<Id>, contestedBy: set<Id>,
    versionAt: Time, createdAt: Time)

  type Rows = map<Id, Claim>

  datatype RecordState = RecordActive | RecordForgotten

  datatype Bucket = High | Medium | Low

  /** `confidenceToBucket` */
  function BucketOf(confidence: real): Bucket { if confidence >= 0.7 then High else if confidence >= 0.4 then Medium else Low }

  function BucketValue(b: Bucket): real { match b case High => 0.9 case Medium => 0.5 case Low => 0.2 }

  /** One line of the version log. */
  datatype Record = Record(
    claimId: Id, version: nat, supersedes: Option<nat>,
    state: RecordState,
    supersededBy: Option<Id>, supersededAt: Option<Time>,
    derivedFrom: seq<Id>,
    scope: string, predicateName: string, value: Value,      // the last two on active records only
    validFrom: Time, validTo: Option<Time>,
    bucket: Bucket,
    versionAt: Time, createdAt: Time)

  function StatusToState(s: Status): RecordState { if s == Retracted then RecordForgotten else RecordActive }

  /** The line `insertClaim` appends for a row. */
  function RecordOf(c: Claim, version: nat): Record {
    var demoted := c.status == Superseded && c.supersededBy.Some?;
    Record(c.id, version, if version > 1 then Some(version - 1) else None,
           StatusToState(c.status),
           if demoted then c.supersededBy else None,
           if demoted then Some(if c.invalidated.Some? then c.invalidated.value else c.versionAt) else None,
           c.evidence, c.scope, c.predicateName, c.value, c.validFrom, c.validTo, BucketOf(c.confidence), c.versionAt, c.createdAt)
  }

  // ---- The log -----------------------------------------------------------------------------

  function VersionsOf(log: seq<Record>, id: Id): (r: seq<Record>)
    ensures forall v :: v in r ==> v in log && v.claimId == id
  {
    if log == [] then []
    else
      var rest := VersionsOf(log[..|log| - 1], id);
      if log[|log| - 1].claimId == id then rest + [log[|log| - 1]] else rest
  }

  /** `readLatestVersion`: the first record with the highest version, by one pass over the log. */
  method ReadLatestVersion(log: seq<Record>, id: Id) returns (latest: Option<Record>)
    ensures latest.None? <==> VersionsOf(log, id) == []
    ensures latest.Some? ==> latest.value in VersionsOf(log, id) && latest.value.version == MaxVersion(log, id)
    ensures latest.Some? && VersionChain(VersionsOf(log, id)) ==> latest == Some(Last(VersionsOf(log, id)))
  {
    hide VersionsOf, MaxVersion, VersionChain;
    latest := None;
    EmptyLog(id);
    assert log[..0] == [];
    for k := 0 to |log|
      invariant latest.None? <==> VersionsOf(log[..k], id) == []
      invariant latest.None? ==> MaxVersion(log[..k], id) == 0
      invariant latest.Some? ==> latest.value in VersionsOf(log[..k], id) && latest.value.version == MaxVersion(log[..k], id)
    {
      VersionsAppend(log[..k], log[k], id);
      assert log[..k + 1] == log[..k] + [log[k]];
      if log[k].claimId == id {
        if latest.None? || log[k].version > latest.value.version {
          latest := Some(log[k]);
        }
      }
    }
    assert log[..|log|] == log;
    if latest.Some? && VersionChain(VersionsOf(log, id)) {
      ChainMax(log, id);
      HighestIsLast(VersionsOf(log, id), latest.value);
    }
  }

  lemma EmptyLog(id: Id)
    ensures VersionsOf([], id) == [] && MaxVersion([], id) == 0
  {
  }

  lemma HighestIsLast(vs: seq<Record>, v: Record)
    requires VersionChain(vs) && v in vs && v.version == |vs|
    ensures v == Last(vs)
  {
  }

  function MaxVersion(log: seq<Record>, id: Id): nat {
    if log == [] then 0
    else
      var rest := MaxVersion(log[..|log| - 1], id);
      var last := log[|log| - 1];
      if last.claimId == id && last.version > rest then last.version else rest
  }

  function Last<T>(s: seq<T>): T
    requires s != []
  {
    s[|s| - 1]
  }

  /** Versions are exactly 1..n and each names its predecessor. */
  predicate VersionChain(vs: seq<Record>) {
    forall k :: 0 <= k < |vs| ==> vs[k].version == k + 1 && vs[k].supersedes == if k == 0 then None else Some(k)
  }

  lemma {:induction false} ChainMax(log: seq<Record>, id: Id)
    requires VersionChain(VersionsOf(log, id))
    ensures MaxVersion(log, id) == |VersionsOf(log, id)|
  {
    if log != [] {
      var n := |log| - 1;
      assert VersionChain(VersionsOf(log[..n], id)) by {
        assert forall k :: 0 <= k < |VersionsOf(log[..n], id)| ==> VersionsOf(log[..n], id)[k] == VersionsOf(log, id)[k];
      }
      ChainMax(log[..n], id);
      if log[n].claimId == id {
        assert VersionsOf(log, id)[|VersionsOf(log[..n], id)|] == log[n];
      }
    }
  }

  lemma VersionsAppend(log: seq<Record>, r: Record, id: Id)
    ensures VersionsOf(log + [r], id) == if r.claimId == id then VersionsOf(log, id) + [r] else VersionsOf(log, id)
    ensures MaxVersion(log + [r], id) ==
      if r.claimId == id && r.version > MaxVersion(log, id) then r.version else MaxVersion(log, id)
  {
    assert (log + [r])[..|log|] == log;
  }

  // ---- Re-materialising --------------------------------------------------------------------

  /** What `claimVersionVals` derives from a record alone. */
  datatype Derived = Derived(status: Status, state: RecordState, supersededBy: Option<Id>, invalidated: Option<Time>, evidence: seq<Id>)

  function Rematerialise(v: Record): Derived {
    var pointer := if v.state.RecordActive? then v.supersededBy else None;
    var at := if pointer.None? then None else Some(if v.supersededAt.Some? then v.supersededAt.value else v.versionAt);
    Derived(if v.state.RecordForgotten? then Retracted else if pointer.Some? then Superseded else Active,
            v.state, pointer, at, v.derivedFrom)
  }

  /** The row a sync writes over an existing one. A forgotten record has no content: the predicate and
      the window come from the row, the value is the empty text. The subject is resolved to the same
      entity, and the contested list is the row's. */
  function Synced(existing: Claim, v: Record): Claim {
    var d, live := Rematerialise(v), v.state.RecordActive?;
    existing.(status := d.status, supersededBy := d.supersededBy, invalidated := d.invalidated, evidence := d.evidence,
              scope := v.scope,
              predicateName := if live then v.predicateName else existing.predicateName,
              value := if live then v.value else Value("text", ""),
              validFrom := if live then v.validFrom else existing.validFrom,
              validTo := if live then v.validTo else existing.validTo,
              ingested := v.createdAt, createdAt := v.createdAt,
              confidence := BucketValue(v.bucket),
              versionAt := v.versionAt)
  }

  /** The record tells the row's story: life state, evidence, and on a live record the demotion
      pointer and the content. */
  predicate Agrees(c: Claim, v: Record) {
    && v.state == StatusToState(c.status)
    && v.derivedFrom == c.evidence && v.scope == c.scope
    && v.bucket == BucketOf(c.confidence) && v.versionAt == c.versionAt && v.createdAt == c.createdAt
    && (v.state.RecordActive? && v.supersededBy.Some? ==>
          (if v.supersededAt.Some? then v.supersededAt.value else v.versionAt) == (if c.invalidated.Some? then c.invalidated.value else c.versionAt))
    && (v.state.RecordActive? ==>
          && v.supersededBy == (if c.status == Superseded then c.supersededBy else None)
          && v.predicateName == c.predicateName && v.value == c.value && v.validFrom == c.validFrom && v.validTo == c.validTo)
  }

  /** Versions are chains, and every row agrees with its latest record unless a version built by hand
      was appended since and the row still has to be synced. */
  ghost predicate StoreOkBut(rows: Rows, log: seq<Record>, unsynced: set<Id>) {
    && (forall id :: VersionChain(VersionsOf(log, id)))
    && (forall id :: id in rows ==> rows[id].id == id && VersionsOf(log, id) != []
                                    && (id !in unsynced ==> Agrees(rows[id], Last(VersionsOf(log, id)))))
  }

  ghost predicate StoreOk(rows: Rows, log: seq<Record>) { StoreOkBut(rows, log, {}) }

  /** The next version of its claim, naming its predecessor. */
  predicate IsNext(log: seq<Record>, r: Record) {
    r.version == MaxVersion(log, r.claimId) + 1 && r.supersedes == if r.version > 1 then Some(r.version - 1) else None
  }

  /** Appending a version, by hand or for a row, keeps the chains and leaves only its own row behind. */
  lemma AppendKeeps(rows: Rows, log: seq<Record>, unsynced: set<Id>, r: Record)
    requires StoreOkBut(rows, log, unsynced) && IsNext(log, r)
    ensures StoreOkBut(rows, log + [r], unsynced + {r.claimId})
  {
    hide VersionsOf, MaxVersion, VersionChain, Agrees, IsNext;
    forall id ensures VersionChain(VersionsOf(log + [r], id)) {
      VersionsAppend(log, r, id);
      if id == r.claimId { ChainGrows(log, r); }
    }
    forall id | id in rows
      ensures VersionsOf(log + [r], id) != [] && (id !in unsynced + {r.claimId} ==> Agrees(rows[id], Last(VersionsOf(log + [r], id))))
    {
      VersionsAppend(log, r, id);
    }
  }

  /** Writing a row that agrees with its latest record brings it up to date. */
  lemma RowWritten(rows: Rows, log: seq<Record>, unsynced: set<Id>, c: Claim)
    requires StoreOkBut(rows, log, unsynced) && VersionsOf(log, c.id) != [] && Agrees(c, Last(VersionsOf(log, c.id)))
    ensures StoreOkBut(rows[c.id := c], log, unsynced - {c.id})
  {
    hide VersionsOf, VersionChain, Agrees;
  }

  lemma InsertKeepsBut(rows: Rows, log: seq<Record>, unsynced: set<Id>, c: Claim)
    requires StoreOkBut(rows, log, unsynced)
    ensures StoreOkBut(rows[c.id := c], log + [RecordOf(c, MaxVersion(log, c.id) + 1)], unsynced - {c.id})
  {
    hide VersionsOf, MaxVersion, StoreOkBut, Agrees, RecordOf;
    var r := RecordOf(c, MaxVersion(log, c.id) + 1);
    RecordAgrees(c, MaxVersion(log, c.id) + 1);
    RecordIsNext(log, c);
    AppendKeeps(rows, log, unsynced, r);
    VersionsAppend(log, r, c.id);
    RowWritten(rows, log + [r], unsynced + {c.id}, c);
    assert unsynced + {c.id} - {c.id} == unsynced - {c.id};
  }

  lemma RecordIsNext(log: seq<Record>, c: Claim)
    ensures IsNext(log, RecordOf(c, MaxVersion(log, c.id) + 1))
  {
    hide MaxVersion;
  }

  lemma InsertKeeps(rows: Rows, log: seq<Record>, c: Claim)
    requires StoreOk(rows, log)
    ensures StoreOk(rows[c.id := c], log + [RecordOf(c, MaxVersion(log, c.id) + 1)])
  {
    hide StoreOkBut, RecordOf, MaxVersion;
    InsertKeepsBut(rows, log, {}, c);
    assert {} - {c.id} == {};
  }

  lemma RecordAgrees(c: Claim, version: nat)
    ensures RecordOf(c, version).claimId == c.id && Agrees(c, RecordOf(c, version))
  {
  }

  lemma ChainGrows(log: seq<Record>, r: Record)
    requires VersionChain(VersionsOf(log, r.claimId)) && IsNext(log, r)
    ensures VersionChain(VersionsOf(log, r.claimId) + [r])
  {
    hide VersionsOf, MaxVersion;
    ChainMax(log, r.claimId);
  }

  /** Rows that survive a round trip through their own record. */
  predicate Restorable(c: Claim) {
    c.status == Active || c.status == Retracted || (c.status == Superseded && c.supersededBy.Some?)
  }

  /** Re-materialising the latest record of any row restores life state and evidence always; it
      restores the status exactly for active, retracted and superseded-with-pointer rows, and
      for those the pointer too, and for a demoted row the time it was invalidated. The ingestion time
      comes back as the creation time, and the confidence as the middle of its bucket. */
  lemma RowIsRebuildable(rows: Rows, log: seq<Record>, id: Id)
    requires StoreOk(rows, log) && id in rows
    ensures VersionsOf(log, id) != []
    ensures var d := Rematerialise(Last(VersionsOf(log, id)));
      && d.state == StatusToState(rows[id].status)
      && d.evidence == rows[id].evidence
      && (d.status == rows[id].status <==> Restorable(rows[id]))
      && (rows[id].status == Superseded && rows[id].supersededBy.Some? ==>
            d.invalidated == if rows[id].invalidated.Some? then rows[id].invalidated else Some(rows[id].versionAt))
      && (Restorable(rows[id]) ==> d.supersededBy == if rows[id].status == Superseded then rows[id].supersededBy else None)
    ensures var row := Synced(rows[id], Last(VersionsOf(log, id)));
      && row.scope == rows[id].scope && row.predicateName == rows[id].predicateName
      && row.validFrom == rows[id].validFrom && row.validTo == rows[id].validTo
      && row.versionAt == rows[id].versionAt && row.createdAt == rows[id].createdAt
      && (row.ingested == rows[id].ingested <==> rows[id].ingested == rows[id].createdAt)
      && row.confidence == (if rows[id].confidence >= 0.7 then 0.9 else if rows[id].confidence >= 0.4 then 0.5 else 0.2)
      && (rows[id].status != Retracted ==> row.value == rows[id].value)
  {
  }

  /** `carryDemotion`: a hand-built next version keeps its predecessor's demotion. */
  function CarryDemotion(next: Record, previous: Record): Record {
    if previous.supersededBy.None? then next
    else next.(supersededBy := previous.supersededBy,
               supersededAt := Some(if previous.supersededAt.Some? then previous.supersededAt.value else previous.versionAt))
  }

  /** The last of a series of versions built by hand, each carrying from the one before. */
  function CarriedThrough(first: Record, built: seq<Record>): Record {
    if built == [] then first
    else CarryDemotion(built[|built| - 1], CarriedThrough(first, built[..|built| - 1]))
  }

  /** However many versions flows build by hand, a demoted claim is demoted to the same survivor
      at the same time whenever a live version is read. */
  lemma {:induction false} CarriedDemotionSurvives(first: Record, built: seq<Record>)
    requires first.supersededBy.Some? && first.supersededAt.Some?
    ensures var v := CarriedThrough(first, built);
      && v.supersededBy == first.supersededBy && v.supersededAt == first.supersededAt
      && (v.state.RecordActive? ==>
            && Rematerialise(v).status == Superseded
            && Rematerialise(v).supersededBy == first.supersededBy
            && Rematerialise(v).invalidated == first.supersededAt)
  {
    if built != [] { CarriedDemotionSurvives(first, built[..|built| - 1]); }
  }

  /** What a sync starts from: the row, or for a claim without one a blank with the resolved entity. */
  function SyncBase(rows: Rows, id: Id, blank: Claim): Claim { if id in rows then rows[id] else blank.(id := id) }

  /** Row writes, versions built by hand and appended (FORGET, REVISE, the compile path), and syncs of
      existing and of new rows. */
  datatype Write = Insert(claim: Claim) | Append(record: Record) | Sync(id: Id, blank: Claim)

  ghost predicate Wrote(rows: Rows, log: seq<Record>, w: Write, rows': Rows, log': seq<Record>) {
    match w
    case Insert(c) => rows' == rows[c.id := c] && log' == log + [RecordOf(c, MaxVersion(log, c.id) + 1)]
    case Append(r) => rows' == rows && IsNext(log, r) && log' == log + [r]
    case Sync(id, blank) =>
      VersionsOf(log, id) != [] && log' == log && rows' == rows[id := Synced(SyncBase(rows, id, blank), Last(VersionsOf(log, id)))]
  }

  /** The claims with a version built by hand that no sync or row write has followed yet. */
  function Unsynced(ws: seq<Write>): set<Id> {
    if ws == [] then {}
    else
      var before := Unsynced(ws[..|ws| - 1]);
      match ws[|ws| - 1]
      case Insert(c) => before - {c.id}
      case Append(r) => before + {r.claimId}
      case Sync(id, _) => before - {id}
  }

  ghost predicate WriteRun(rows: seq<Rows>, logs: seq<seq<Record>>, ws: seq<Write>) {
    && |rows| == |logs| == |ws| + 1
    && forall k :: 0 <= k < |ws| ==> Wrote(rows[k], logs[k], ws[k], rows[k + 1], logs[k + 1])
  }

  /** A sync brings its row into agreement whatever it was before. */
  lemma SyncKeeps(rows: Rows, log: seq<Record>, unsynced: set<Id>, id: Id, blank: Claim)
    requires StoreOkBut(rows, log, unsynced) && VersionsOf(log, id) != []
    ensures StoreOkBut(rows[id := Synced(SyncBase(rows, id, blank), Last(VersionsOf(log, id)))], log, unsynced - {id})
  {
    hide VersionsOf, VersionChain, Agrees, Synced;
    var base := SyncBase(rows, id, blank);
    SyncedAgrees(base, Last(VersionsOf(log, id)));
    RowWritten(rows, log, unsynced, Synced(base, Last(VersionsOf(log, id))));
  }

  lemma SyncedAgrees(c: Claim, v: Record)
    ensures Synced(c, v).id == c.id && Agrees(Synced(c, v), v)
  {
  }

  /** After any run every claim's versions are exactly 1..n, each naming its predecessor, and every row
      agrees with its latest record, except where a version built by hand awaits its sync. */
  lemma {:induction false} RunKeepsLog(rows: seq<Rows>, logs: seq<seq<Record>>, ws: seq<Write>, k: nat)
    requires WriteRun(rows, logs, ws) && StoreOk(rows[0], logs[0]) && k < |rows|
    ensures StoreOkBut(rows[k], logs[k], Unsynced(ws[..k])) && logs[0] <= logs[k]
  {
    hide StoreOkBut, RecordOf, Synced, MaxVersion, VersionsOf, IsNext;
    if k > 0 {
      RunKeepsLog(rows, logs, ws, k - 1);
      assert Wrote(rows[k - 1], logs[k - 1], ws[k - 1], rows[k - 1 + 1], logs[k - 1 + 1]);
      assert ws[..k][..k - 1] == ws[..k - 1];
      var unsynced := Unsynced(ws[..k - 1]);
      match ws[k - 1] {
        case Insert(c) => InsertKeepsBut(rows[k - 1], logs[k - 1], unsynced, c);
        case Append(r) => AppendKeeps(rows[k - 1], logs[k - 1], unsynced, r);
        case Sync(id, blank) => SyncKeeps(rows[k - 1], logs[k - 1], unsynced, id, blank);
      }
    }
  }

  // ---- Row updates --------------------------------------------------------------------------

  function WithStatus(c: Claim, status: Status, pointer: Option<Id>, invalidatedAt: Option<Time>, validTo: Option<Time>): Claim {
    c.(status := status,
       supersededBy := if status == Superseded then (if pointer.Some? then pointer else c.supersededBy) else None,
       invalidated := if invalidatedAt.Some? then invalidatedAt else c.invalidated,
       validTo := if validTo.Some? && c.validTo.None? then validTo else c.validTo)
  }

  function ContestedWith(c: Claim, other: Id): Claim {
    c.(contestedBy := c.contestedBy + {other}, status := Contested)
  }

  /** `[...new Set([...xs, y])]` */
  function AddUnique(xs: seq<Id>, y: Id): (r: seq<Id>)
    ensures forall x :: x in r <==> x in xs || x == y
  {
    if y in xs then xs else xs + [y]
  }

  function AddAll(xs: seq<Id>, ys: seq<Id>): (r: seq<Id>)
    ensures forall x :: x in r <==> x in xs || x in ys
  {
    if ys == [] then xs
    else
      assert ys == ys[..|ys| - 1] + [ys[|ys| - 1]];
      AddUnique(AddAll(xs, ys[..|ys| - 1]), ys[|ys| - 1])
  }

  /** Confidence and value normalisation are parameters. */
  datatype Policy = Policy(norm: Value -> string, confidence: Claim -> real)

  /** Equal up to the recomputed confidence. */
  predicate SameBut(a: Claim, b: Claim) { a.(confidence := 0.0) == b.(confidence := 0.0) }

  class Store {
    var rows: Rows
    var log: seq<Record>

    ghost predicate Valid()
      reads this
    {
      StoreOk(rows, log)
    }

    constructor ()
      ensures Valid() && rows == map[] && log == []
    {
      rows, log := map[], [];
    }

    /** Row replacement plus one log line. */
    method InsertClaim(c: Claim)
      requires Valid()
      modifies this
      ensures Valid() && rows == old(rows)[c.id := c]
      ensures log == old(log) + [RecordOf(c, MaxVersion(old(log), c.id) + 1)]
    {
      hide StoreOk, VersionsOf, MaxVersion, RecordOf, VersionChain;
      InsertKeeps(rows, log, c);
      var latest := ReadLatestVersion(log, c.id);
      var version := if latest.Some? then latest.value.version + 1 else 1;
      if latest.None? { NoVersions(log, c.id); }
      rows := rows[c.id := c];
      log := log + [RecordOf(c, version)];
    }

    /** Write a row, new or not, from the claim's latest record; nothing is appended. */
    method SyncFromLog(id: Id, blank: Claim)
      requires Valid() && VersionsOf(log, id) != []
      modifies this`rows
      ensures Valid() && rows == old(rows)[id := Synced(SyncBase(old(rows), id, blank), Last(VersionsOf(log, id)))]
    {
      hide Synced, VersionsOf, Agrees, MaxVersion, VersionChain;
      var latest := ReadLatestVersion(log, id);
      SyncKeeps(rows, log, {}, id, blank);
      assert {} - {id} == {};
      rows := rows[id := Synced(SyncBase(rows, id, blank), latest.value)];
    }

    /** A flow that builds the next version by hand: append it, then sync the row from it. */
    method AppendAndSync(r: Record, blank: Claim)
      requires Valid() && IsNext(log, r)
      modifies this
      ensures Valid() && log == old(log) + [r] && rows == old(rows)[r.claimId := Synced(SyncBase(old(rows), r.claimId, blank), r)]
    {
      hide Synced, VersionsOf, Agrees, MaxVersion, VersionChain, IsNext, StoreOkBut;
      AppendKeeps(rows, log, {}, r);
      VersionsAppend(log, r, r.claimId);
      SyncKeeps(rows, log + [r], {} + {r.claimId}, r.claimId, blank);
      assert {} + {r.claimId} - {r.claimId} == {};
      log := log + [r];
      rows := rows[r.claimId := Synced(SyncBase(rows, r.claimId, blank), r)];
    }

    method UpdateClaimStatus(id: Id, status: Status, pointer: Option<Id>, invalidatedAt: Option<Time>, validTo: Option<Time>)
      requires Valid()
      modifies this
      ensures Valid()
      ensures id !in old(rows) ==> rows == old(rows) && log == old(log)
      ensures id in old(rows) ==>
        var a, b := old(rows)[id], WithStatus(old(rows)[id], status, pointer, invalidatedAt, validTo);
        && rows == old(rows)[id := b]
        && log == old(log) + [RecordOf(b, MaxVersion(old(log), id) + 1)]
        && b.status == status
        && (status == Superseded && pointer.Some? ==> b.supersededBy == pointer)
        && (status == Superseded && pointer.None? ==> b.supersededBy == a.supersededBy)
        && (status != Superseded ==> b.supersededBy.None?)
        && (invalidatedAt.Some? ==> b.invalidated == invalidatedAt)
        && (invalidatedAt.None? ==> b.invalidated == a.invalidated)
        && (a.validTo.None? ==> b.validTo == validTo)
        && (a.validTo.Some? ==> b.validTo == a.validTo)
        && b == a.(status := b.status, supersededBy := b.supersededBy, invalidated := b.invalidated, validTo := b.validTo)
    {
      if id in rows {
        InsertClaim(WithStatus(rows[id], status, pointer, invalidatedAt, validTo));
      }
    }

    method UpdateClaimSupportingEvidence(id: Id, evidence: seq<Id>)
      requires Valid()
      modifies this
      ensures Valid() && old(log) <= log
      ensures rows == if id in old(rows) then old(rows)[id := old(rows)[id].(evidence := evidence)] else old(rows)
    {
      if id in rows {
        InsertClaim(rows[id].(evidence := evidence));
      }
    }

    method UpdateClaimConfidence(id: Id, confidence: real)
      requires Valid()
      modifies this
      ensures Valid() && old(log) <= log
      ensures rows == if id in old(rows) then old(rows)[id := old(rows)[id].(confidence := confidence)] else old(rows)
    {
      if id in rows {
        InsertClaim(rows[id].(confidence := confidence));
      }
    }

    method MarkContested(a: Id, b: Id)
      requires Valid()
      modifies this
      ensures Valid() && old(log) <= log
      ensures rows == if a in old(rows) && b in old(rows)
                      then old(rows)[a := ContestedWith(old(rows)[a], b)][b := ContestedWith(old(rows)[b], a)] else old(rows)
    {
      if a in rows && b in rows {
        var first, second := ContestedWith(rows[a], b), ContestedWith(rows[b], a);
        InsertClaim(first);
        InsertClaim(second);
      }
    }

    /** One more observation for an existing claim, confidence recomputed. */
    method AddCorroborationEvidence(pol: Policy, id: Id, observation: Id)
      requires Valid()
      modifies this
      ensures Valid() && old(log) <= log && rows.Keys == old(rows).Keys
      ensures forall x :: x in rows && x != id ==> rows[x] == old(rows)[x]
      ensures id in rows ==> SameBut(rows[id], old(rows)[id].(evidence := AddUnique(old(rows)[id].evidence, observation)))
    {
      hide StoreOk;
      if id in rows {
        IdsMatch(rows, log);
        UpdateClaimSupportingEvidence(id, AddUnique(rows[id].evidence, observation));
        UpdateClaimConfidence(id, pol.confidence(rows[id]));
      }
    }
  }

  lemma IdsMatch(rows: Rows, log: seq<Record>)
    requires StoreOk(rows, log)
    ensures forall id :: id in rows ==> rows[id].id == id
  {
  }

  lemma {:induction false} NoVersions(log: seq<Record>, id: Id)
    requires VersionsOf(log, id) == []
    ensures MaxVersion(log, id) == 0
  {
    if log != [] { NoVersions(log[..|log| - 1], id); }
  }
}
