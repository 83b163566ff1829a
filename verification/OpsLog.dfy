/** Operations log, operation intents and the writer fence: the durable surfaces that
    commit and recovery share. */
module OpsLog {
  import opened Evidence

  type Time = string

  datatype Stamp = Stamp(epoch: int, writer: Id)

  datatype Op =
    | OpObserve | OpRevise | OpForget | OpForgetScope | OpRevive | OpEndorse | OpReflect
    | OpOther(name: string)

  /** The `details` fields recovery compares. An absent field is `None`. */
  datatype Details = Details(
    payloadHash: Option<Hash>,
    observationId: Option<Id>,
    auditObservationId: Option<Id>,
    claimRecordHash: Option<Hash>,
    claimId: Option<Id>,
    newVersion: Option<int>,
    recordHash: Option<Hash>,
    pageId: Option<Id>,
    pageHash: Option<Hash>,
    repickSurvivor: Option<bool>,
    demoted: Option<seq<Id>>,
    recovered: bool,
    fence: Option<Stamp>)

  const NO_DETAILS := Details(None, None, None, None, None, None, None, None, None, None, None, false, None)

  datatype Entry = Entry(operationId: Id, actorId: Id, timestamp: Time, op: Op, details: Details)

  /** The actor and timestamp every appended entry must carry: `appendOpLogEntries` throws otherwise,
      although the intent reader lets both be empty. */
  predicate CanAppend(e: Entry) { e.actorId != "" && e.timestamp != "" }

  datatype LifeState = LiveRecord | ForgottenRecord
  datatype Owner = AgentOwned | UserOwned

  datatype ClaimVersion = ClaimVersion(
    claimId: Id,
    version: int,
    state: LifeState,
    operationId: Option<Id>,
    actorId: Id,
    versionAt: Time,
    owner: Owner,
    content: string)

  datatype Page = Page(locator: string, pageId: Option<Id>, operationId: Option<Id>, contentHash: Hash, inTombstones: bool)

  /** Content hashes are parameters. */
  datatype Hashes = Hashes(digest: Digest, record: ClaimVersion -> Hash)

  datatype Audit = Audit(observationId: Id, observationHash: Hash, sequence: int)
  datatype Expected = Expected(claimId: Id, version: int, recordHash: Hash)
  datatype Common = Common(operationId: Id, actorId: Id, payloadHash: Hash, stamp: Option<Stamp>, preparedAt: Time)

  /** The seven intent kinds, with the `expected` and `result` fields recovery reads. */
  datatype Intent =
    | ObserveIntent(common: Common, observation: Audit,
                    resultId: Id, resultStatus: RawStatus, resultSequence: int)
    | ReviseIntent(common: Common, target: Expected, repick: Option<seq<Expected>>,
                   resultClaimId: Id, resultVersion: int, resultOwner: Owner,
                   supersededBy: Option<Id>, resultDemoted: Option<seq<Id>>)
    | ForgetIntent(common: Common, audit: Audit, forgotten: Option<Expected>,
                   targetIsClaim: bool, resultAuditId: Id)
    | ForgetScopeIntent(common: Common, audit: Audit, scope: string, reason: string,
                        resultScope: string, resultReason: string, resultAuditId: Id)
    | ReviveIntent(common: Common, target: Expected, resultClaimId: Id, resultVersion: int)
    | EndorseIntent(common: Common, pageId: Id, pageHash: Hash, claims: seq<Expected>,
                    resultPageId: Id, resultClaims: int, resultAt: Time)
    | ReflectIntent(common: Common, target: Expected, resultClaimId: Id, resultVersion: int)

  function OpOf(i: Intent): Op {
    match i
    case ObserveIntent(_, _, _, _, _) => OpObserve
    case ReviseIntent(_, _, _, _, _, _, _, _) => OpRevise
    case ForgetIntent(_, _, _, _, _) => OpForget
    case ForgetScopeIntent(_, _, _, _, _, _, _) => OpForgetScope
    case ReviveIntent(_, _, _, _) => OpRevive
    case EndorseIntent(_, _, _, _, _, _, _) => OpEndorse
    case ReflectIntent(_, _, _, _) => OpReflect
  }

  // ---- Validators --------------------------------------------------------------------

  const CROCKFORD := "0123456789ABCDEFGHJKMNPQRSTVWXYZ"
  const HEX := "0123456789abcdef"

  predicate ValidOperationId(s: Id) {
    |s| == 29 && s[..3] == "op_" && forall i :: 3 <= i < 29 ==> s[i] in CROCKFORD
  }

  predicate ValidSha(s: Hash) {
    |s| == 64 && forall i :: 0 <= i < 64 ==> s[i] in HEX
  }

  predicate ValidCommon(c: Common) {
    && ValidOperationId(c.operationId)
    && ValidSha(c.payloadHash)
    && (c.stamp.Some? ==> c.stamp.value.epoch >= 1 && c.stamp.value.writer != "")
  }

  predicate RepickConsistent(repick: Option<seq<Expected>>, demoted: Option<seq<Id>>) {
    match repick
    case None => demoted == None
    case Some(es) =>
      && demoted.Some?
      && |es| == |demoted.value|
      && forall k :: 0 <= k < |es| ==> demoted.value[k] == es[k].claimId
  }

  /** `parseIntent` / `persistOperationIntent`: anything else is refused. */
  predicate WellFormed(i: Intent) {
    && ValidCommon(i.common)
    && match i
       case ObserveIntent(_, o, id, _, n) => id == o.observationId && n == o.sequence
       case ReviseIntent(_, t, repick, id, v, _, survivor, demoted) =>
         && ValidSha(t.recordHash)
         && (repick.Some? ==> forall k :: 0 <= k < |repick.value| ==> ValidSha(repick.value[k].recordHash))
         && RepickConsistent(repick, demoted)
         && id == t.claimId && v == t.version
         && (repick.Some? ==> survivor == None)
       case ForgetIntent(_, a, claim, isClaim, id) =>
         && (claim.Some? ==> ValidSha(claim.value.recordHash))
         && id == a.observationId
         && isClaim == claim.Some?
       case ForgetScopeIntent(_, a, scope, reason, rs, rr, id) =>
         && (reason == "erasure" || reason == "offboarding")
         && rs == scope && rr == reason && id == a.observationId
       case ReviveIntent(_, t, id, v) => ValidSha(t.recordHash) && id == t.claimId && v == t.version
       case EndorseIntent(c, page, hash, claims, rp, n, at) =>
         && ValidSha(hash)
         && (forall k :: 0 <= k < |claims| ==> ValidSha(claims[k].recordHash))
         && rp == page && n == |claims| && at == c.preparedAt
       case ReflectIntent(_, t, id, v) => ValidSha(t.recordHash) && id == t.claimId && v == t.version
  }

  // ---- Fence -------------------------------------------------------------------------

  /** `writer_fence` and `writer_fence_commits`: a mark and the authorization rows. */
  datatype Fence = Fence(highWater: nat, rows: map<Id, Stamp>)

  /** `INSERT OR IGNORE` of one row per operation. */
  function Authorized(f: Fence, ids: set<Id>, stamp: Stamp): Fence {
    f.(rows := (map id | id in ids :: stamp) + f.rows)
  }

  function Claim(f: Fence, token: int): Option<Fence> {
    if token < 1 || token < f.highWater then None else Some(f.(highWater := token))
  }

  /** The writer gate: `None` is a refusal; an unfenced legacy writer records nothing. */
  function GuardCommit(f: Fence, ids: set<Id>, stamp: Option<Stamp>): Option<Fence> {
    match stamp
    case None => if f.highWater == 0 then Some(f) else None
    case Some(s) =>
      if s.epoch < 1 || s.epoch < f.highWater then None
      else Some(Authorized(f.(highWater := s.epoch), ids, s))
  }

  /** The recovery gate: never advances the mark. */
  function AuthorizeAtEpoch(f: Fence, id: Id, stamp: Stamp): Option<Fence> {
    if stamp.epoch < 1 || stamp.epoch < f.highWater then None
    else Some(if id in f.rows then f else f.(rows := f.rows[id := stamp]))
  }

  // ---- World -------------------------------------------------------------------------

  /** Everything on disk. A file that does not parse is `None`. */
  datatype World = World(
    log: seq<Entry>,
    files: map<Id, Option<Intent>>,
    observations: seq<Observation>,
    versions: seq<ClaimVersion>,
    pages: seq<Page>,
    fence: Option<Fence>)

  function CommittedIds(log: seq<Entry>): set<Id> {
    set e | e in log :: e.operationId
  }

  function EntriesOf(log: seq<Entry>, id: Id): seq<Entry> {
    if log == [] then []
    else
      var rest := EntriesOf(log[..|log| - 1], id);
      if log[|log| - 1].operationId == id then rest + [log[|log| - 1]] else rest
  }

  function L0Of(all: seq<Observation>, id: Id): (r: seq<Observation>)
    ensures forall o :: o in r ==> o in all && o.operationId == Some(id)
    ensures forall o :: o in all && o.operationId == Some(id) ==> o in r
  {
    if all == [] then []
    else
      var rest := L0Of(all[1..], id);
      assert all == [all[0]] + all[1..];
      if all[0].operationId == Some(id) then [all[0]] + rest else rest
  }

  function L1Of(all: seq<ClaimVersion>, id: Id): (r: seq<ClaimVersion>)
    ensures forall v :: v in r ==> v in all && v.operationId == Some(id)
    ensures forall v :: v in all && v.operationId == Some(id) ==> v in r
  {
    if all == [] then []
    else
      var rest := L1Of(all[1..], id);
      assert all == [all[0]] + all[1..];
      if all[0].operationId == Some(id) then [all[0]] + rest else rest
  }

  function PagesOf(all: seq<Page>, id: Id): (r: seq<Page>)
    ensures forall p :: p in r ==> p in all && p.operationId == Some(id)
    ensures forall p :: p in all && p.operationId == Some(id) ==> p in r
  {
    if all == [] then []
    else
      var rest := PagesOf(all[1..], id);
      assert all == [all[0]] + all[1..];
      if all[0].operationId == Some(id) then [all[0]] + rest else rest
  }

  /** `readOperationIntentRecords`: the file must parse and carry its own file name. */
  function ReadIntent(w: World, id: Id): Option<Intent>
    requires id in w.files
  {
    match w.files[id]
    case None => None
    case Some(i) => if ValidOperationId(id) && WellFormed(i) && i.common.operationId == id then Some(i) else None
  }
}
