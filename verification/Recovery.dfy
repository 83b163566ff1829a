/** The startup recovery scan on values: what it decides for every intent, what carrying the
    decisions out leaves on disk, and what it reports. */
module Recovery {
  import opened Evidence
  import opened OpsLog
  import opened Exactness

  datatype StaleReason = EpochBehindHighWater | UnstampedOnFencedBrain

  /** What the scan does with one intent file. */
  datatype Verdict =
    | Unreadable
    | RejectStale(reason: StaleReason)
    | Clear       // already committed and consistent: drop the intent
    | Review
    | Wait        // pending
    | Abort       // prepared REFLECT claim without artifact
    | Finalize

  // ---- Epoch dispositions ----------------------------------------------------------------

  function HighWater(fence: Option<Fence>): nat {
    if fence.Some? then fence.value.highWater else 0
  }

  /** `mark` is the value read once at scan start; `fence` is what the store holds now. */
  function StaleReasonOf(mark: nat, fence: Option<Fence>, i: Intent): Option<StaleReason> {
    if fence.None? then None
    else if i.common.operationId in fence.value.rows then None
    else match i.common.stamp
      case None => if mark > 0 then Some(UnstampedOnFencedBrain) else None
      case Some(s) => if s.epoch < mark then Some(EpochBehindHighWater) else None
  }

  /** The gate inside `finalizeRecovered`: `None` means refused. */
  function Gate(mark: nat, fence: Option<Fence>, i: Intent): Option<Option<Fence>> {
    if fence.None? || i.common.operationId in fence.value.rows then Some(fence)
    else match i.common.stamp
      case Some(s) =>
        var f := AuthorizeAtEpoch(fence.value, i.common.operationId, s);
        if f.Some? then Some(f) else None
      case None => if mark == 0 then Some(fence) else None
  }

  // ---- Artifact dispositions -------------------------------------------------------------

  function ArtifactCount(w: World, id: Id): nat {
    |L0Of(w.observations, id)| + |L1Of(w.versions, id)| + |PagesOf(w.pages, id)|
  }

  /** Does a log entry record the commit this intent prepared? */
  predicate MatchingCommit(i: Intent, e: Entry) {
    && e.op == OpOf(i)
    && e.actorId == i.common.actorId
    && e.details.payloadHash == Some(i.common.payloadHash)
    && match i
       case ObserveIntent(_, o, _, _, _) => e.details.observationId == Some(o.observationId)
       case ReviseIntent(_, t, _, _, _, _, _, demoted) =>
         && e.details.claimId == Some(t.claimId)
         && e.details.newVersion == Some(t.version)
         && e.details.recordHash == Some(t.recordHash)
         && (demoted.Some? ==> e.details.repickSurvivor == Some(true) && e.details.demoted == demoted)
       case ForgetIntent(_, a, claim, _, _) =>
         && e.details.auditObservationId == Some(a.observationId)
         && e.details.claimRecordHash == (if claim.Some? then Some(claim.value.recordHash) else None)
       case ForgetScopeIntent(_, a, _, _, _, _, _) => e.details.auditObservationId == Some(a.observationId)
       case ReviveIntent(_, t, _, _) =>
         && e.details.claimId == Some(t.claimId)
         && e.details.newVersion == Some(t.version)
         && e.details.recordHash == Some(t.recordHash)
       case EndorseIntent(_, page, hash, _, _, _, _) =>
         && e.details.pageId == Some(page)
         && e.details.pageHash == Some(hash)
       case ReflectIntent(_, t, _, _) =>
         && e.details.claimId == Some(t.claimId)
         && e.details.recordHash == Some(t.recordHash)
  }

  /** The signal recovery appends, re-stamped from the intent. */
  function RecoveredEntry(i: Intent): (e: Entry)
    ensures e.operationId == i.common.operationId
  {
    var base := NO_DETAILS.(payloadHash := Some(i.common.payloadHash), recovered := true, fence := i.common.stamp);
    var details := match i
      case ObserveIntent(_, _, id, _, _) => base.(observationId := Some(id))
      case ReviseIntent(_, t, _, id, v, _, _, demoted) =>
        base.(claimId := Some(id), newVersion := Some(v), recordHash := Some(t.recordHash),
              repickSurvivor := (if demoted.Some? then Some(true) else None), demoted := demoted)
      case ForgetIntent(_, _, claim, _, id) =>
        base.(auditObservationId := Some(id),
              claimRecordHash := (if claim.Some? then Some(claim.value.recordHash) else None))
      case ForgetScopeIntent(_, _, _, _, _, _, id) => base.(auditObservationId := Some(id))
      case ReviveIntent(_, t, id, v) =>
        base.(claimId := Some(id), newVersion := Some(v), recordHash := Some(t.recordHash))
      case EndorseIntent(_, _, hash, _, page, _, _) => base.(pageId := Some(page), pageHash := Some(hash))
      case ReflectIntent(_, t, id, v) => base.(claimId := Some(id), recordHash := Some(t.recordHash));
    Entry(i.common.operationId, i.common.actorId, i.common.preparedAt, OpOf(i), details)
  }

  /** The artifacts an already committed operation must still show for its intent to be dropped. */
  predicate CommittedArtifactsExact(h: Hashes, w: World, i: Intent) {
    var l0 := L0Of(w.observations, i.common.operationId);
    var l1 := L1Of(w.versions, i.common.operationId);
    var pages := PagesOf(w.pages, i.common.operationId);
    match i
    case ObserveIntent(_, _, _, _, _) => true
    case ReviseIntent(_, _, _, _, _, _, _, _) => IsExactRevise(h, i, l1)
    case ForgetIntent(_, _, _, _, _) => ForgetAuditExact(h, w, i) && ForgetClaimExact(h, w, i) && !ForgetCountsWrong(w, i)
    case ForgetScopeIntent(_, _, _, _, _, _, _) => |l0| == 1 && IsExactScopeAudit(h, i, l0[0], w.observations)
    case ReviveIntent(c, t, _, _) => |l1| == 1 && IsExactVersion(h, c, t, LiveRecord, l1[0])
    case EndorseIntent(c, _, _, claims, _, _, _) => IsExactEndorseClaims(h, c, claims, l1) && IsExactPage(i, pages)
    case ReflectIntent(c, t, _, _) => |l1| == 1 && IsExactVersion(h, c, t, LiveRecord, l1[0])
  }

  predicate ForgetAuditExact(h: Hashes, w: World, i: Intent)
    requires i.ForgetIntent?
  {
    var l0 := L0Of(w.observations, i.common.operationId);
    |l0| == 1 && IsExactAudit(h, i.common, i.audit, l0[0], w.observations)
  }

  predicate ForgetClaimExact(h: Hashes, w: World, i: Intent)
    requires i.ForgetIntent?
  {
    var l1 := L1Of(w.versions, i.common.operationId);
    i.forgotten.None? || (|l1| == 1 && IsExactVersion(h, i.common, i.forgotten.value, ForgottenRecord, l1[0]))
  }

  predicate ForgetCountsWrong(w: World, i: Intent)
    requires i.ForgetIntent?
  {
    || |L0Of(w.observations, i.common.operationId)| > 1
    || |L1Of(w.versions, i.common.operationId)| > (if i.forgotten.Some? then 1 else 0)
  }

  /** Endorsement may be half written: keep only the expected claims that have some artifact. */
  function PresentClaims(es: seq<Expected>, vs: seq<ClaimVersion>): seq<Expected> {
    if es == [] then []
    else
      var rest := PresentClaims(es[..|es| - 1], vs);
      var e := es[|es| - 1];
      if exists v :: v in vs && v.claimId == e.claimId && v.version == e.version then rest + [e] else rest
  }

  /** The disposition of an operation with no log entry, once the epoch check let it through. */
  function Uncommitted(h: Hashes, w: World, i: Intent): (v: Verdict)
    ensures v in {Review, Wait, Abort, Finalize}
  {
    var l0 := L0Of(w.observations, i.common.operationId);
    var l1 := L1Of(w.versions, i.common.operationId);
    var pages := PagesOf(w.pages, i.common.operationId);
    match i
    case ForgetIntent(_, _, _, _, _) =>
      if ForgetCountsWrong(w, i) || (l0 != [] && !ForgetAuditExact(h, w, i)) || (l1 != [] && !ForgetClaimExact(h, w, i)) then Review
      else if !ForgetAuditExact(h, w, i) || !ForgetClaimExact(h, w, i) then Wait
      else Finalize
    case ForgetScopeIntent(_, _, _, _, _, _, _) =>
      if l0 == [] then Wait
      else if |l0| == 1 && IsExactScopeAudit(h, i, l0[0], w.observations) then Finalize
      else Review
    case ReviveIntent(c, t, _, _) =>
      if l1 == [] then Wait
      else if |l1| == 1 && IsExactVersion(h, c, t, LiveRecord, l1[0]) then Finalize
      else Review
    case EndorseIntent(c, _, _, claims, _, _, _) =>
      if (l1 != [] && !IsExactEndorseClaims(h, c, PresentClaims(claims, l1), l1)) || (pages != [] && !IsExactPage(i, pages)) then Review
      else if !IsExactEndorseClaims(h, c, claims, l1) || !IsExactPage(i, pages) then Wait
      else Finalize
    case ReflectIntent(c, t, _, _) =>
      if l1 == [] then Abort
      else if |l1| == 1 && IsExactVersion(h, c, t, LiveRecord, l1[0]) then Finalize
      else Review
    case ObserveIntent(_, _, _, _, _) =>
      if l0 == [] then Wait
      else if |l0| == 1 && IsExactObservation(h, i, l0[0], w.observations) then Finalize
      else Review
    case ReviseIntent(_, _, _, _, _, _, _, _) =>
      if l1 == [] then Wait
      else if IsExactRevise(h, i, l1) then Finalize
      else Review
  }

  /** One turn of the loop up to the gate; `w` is the scan-start snapshot, `fence` the live store. */
  function Decide(h: Hashes, w: World, fence: Option<Fence>, i: Intent): (v: Verdict)
    ensures !v.Unreadable?
  {
    var existing := EntriesOf(w.log, i.common.operationId);
    var stale := if existing == [] && ArtifactCount(w, i.common.operationId) > 0
                 then StaleReasonOf(HighWater(w.fence), fence, i) else None;
    if stale.Some? then RejectStale(stale.value)
    else if existing != [] then
      if (exists e :: e in existing && MatchingCommit(i, e)) && CommittedArtifactsExact(h, w, i) then Clear else Review
    else Uncommitted(h, w, i)
  }

  /** Epoch claims may land while the scan runs: `marks[id]` is the high-water mark in force
      when the file of `id` reaches the gate, if it moved. The empty map is a quiet scan. */
  type EpochMarks = map<Id, nat>

  function MarkAt(w: World, marks: EpochMarks, id: Id): (m: nat)
    ensures m >= HighWater(w.fence) && (id in marks ==> m >= marks[id])
    ensures m == HighWater(w.fence) || (id in marks && m == marks[id])
  {
    if id in marks && marks[id] >= HighWater(w.fence) then marks[id] else HighWater(w.fence)
  }

  function FenceAtMark(fence: Option<Fence>, mark: nat): Option<Fence> {
    if fence.None? then None else Some(fence.value.(highWater := mark))
  }

  /** What the scan does with one intent file. */
  function VerdictOf(h: Hashes, w: World, marks: EpochMarks, id: Id): Verdict
    requires id in w.files
  {
    var i := ReadIntent(w, id);
    if i.None? then Unreadable
    else
      var v := Decide(h, w, w.fence, i.value);
      if v == Finalize && Gate(HighWater(w.fence), FenceAtMark(w.fence, MarkAt(w, marks, id)), i.value).None?
      then RejectStale(EpochBehindHighWater) else v
  }

  type Verdicts = map<Id, Verdict>

  /** What the scan read and decided: the intents that parse and the verdict on every file. */
  datatype Plan = Plan(intents: map<Id, Intent>, verdicts: Verdicts)

  predicate Sound(p: Plan) {
    forall id :: id in p.verdicts ==> (id in p.intents <==> p.verdicts[id] != Unreadable)
  }

  function PlanOf(h: Hashes, w: World, marks: EpochMarks): (p: Plan)
    ensures Sound(p)
    ensures p.verdicts.Keys == w.files.Keys
    ensures forall id :: id in p.intents ==> p.intents[id].common.operationId == id
  {
    Plan(map id | id in w.files && ReadIntent(w, id).Some? :: ReadIntent(w, id).value,
         map id | id in w.files :: VerdictOf(h, w, marks, id))
  }

  predicate Removes(v: Verdict) { v.Clear? || v.Abort? || v.Finalize? }

  // ---- The scan's result, intent by intent -----------------------------------------------

  datatype Rejection = Rejection(operationId: Id, reason: StaleReason, epoch: Option<int>, highWater: nat, artifacts: nat)

  datatype Surface = SurfaceL0 | SurfaceL1 | SurfaceL2 | SurfaceTombstone
  datatype Orphan = OrphanRecord(surface: Surface, locator: string, version: int, operationId: Id)

  /** Sorted, duplicate-free arrays of the report are sets here. */
  datatype Report = Report(
    committedOperations: nat,
    orphans: seq<Orphan>,
    pending: set<Id>,
    intentErrors: set<Id>,
    manualReview: set<Id>,
    completed: set<Id>,
    stale: set<Rejection>,
    aborted: set<Id>)

  function Done(order: seq<Id>): set<Id> { set id | id in order }

  /** The files among `done` with a given verdict. */
  function With(vs: Verdicts, done: set<Id>, v: Verdict): set<Id> {
    set id | id in done && id in vs && vs[id] == v
  }

  function StaleIds(vs: Verdicts, done: set<Id>): set<Id> {
    set id | id in done && id in vs && vs[id].RejectStale?
  }

  function RejectionOf(w: World, i: Intent, reason: StaleReason): Rejection {
    Rejection(i.common.operationId, reason,
              if i.common.stamp.Some? then Some(i.common.stamp.value.epoch) else None,
              HighWater(w.fence), ArtifactCount(w, i.common.operationId))
  }

  function Rejections(w: World, p: Plan, done: set<Id>): set<Rejection>
    requires Sound(p)
  {
    set id | id in done && id in p.verdicts && p.verdicts[id].RejectStale? :: RejectionOf(w, p.intents[id], p.verdicts[id].reason)
  }

  function FilesAfter(files: map<Id, Option<Intent>>, vs: Verdicts, done: set<Id>): map<Id, Option<Intent>> {
    map id | id in files && !(id in done && id in vs && Removes(vs[id])) :: files[id]
  }

  /** Entries appended while reading `order`, in that order. */
  function Appended(p: Plan, order: seq<Id>): seq<Entry>
    requires Sound(p)
  {
    if order == [] then []
    else
      var rest := Appended(p, order[..|order| - 1]);
      var id := order[|order| - 1];
      if id in p.verdicts && p.verdicts[id] == Finalize then rest + [RecoveredEntry(p.intents[id])] else rest
  }

  /** Finalizing this file records an authorization row. */
  predicate NeedsRow(rows: map<Id, Stamp>, p: Plan, id: Id)
    requires Sound(p)
  {
    id in p.verdicts && p.verdicts[id] == Finalize && id !in rows && p.intents[id].common.stamp.Some?
  }

  /** The mark once every file of `order` has been read. */
  function MarkAfter(w: World, marks: EpochMarks, order: seq<Id>): nat {
    if order == [] then HighWater(w.fence) else MarkAt(w, marks, order[|order| - 1])
  }

  function FreshRows(rows: map<Id, Stamp>, p: Plan): map<Id, Stamp>
    requires Sound(p)
  {
    map id | id in p.verdicts && NeedsRow(rows, p, id) :: p.intents[id].common.stamp.value
  }

  function Restrict<K, V>(m: map<K, V>, keys: set<K>): map<K, V> {
    map k | k in m && k in keys :: m[k]
  }

  function RowsAfter(rows: map<Id, Stamp>, p: Plan, done: set<Id>): map<Id, Stamp>
    requires Sound(p)
  {
    rows + Restrict(FreshRows(rows, p), done)
  }

  function FenceAfter(w: World, p: Plan, marks: EpochMarks, order: seq<Id>): Option<Fence>
    requires Sound(p)
  {
    if w.fence.None? then None
    else Some(Fence(MarkAfter(w, marks, order), RowsAfter(w.fence.value.rows, p, Done(order))))
  }

  /** The disk once the files of `order` have been read. */
  function DiskAfter(w: World, p: Plan, marks: EpochMarks, order: seq<Id>): World
    requires Sound(p)
  {
    w.(log := w.log + Appended(p, order),
       files := FilesAfter(w.files, p.verdicts, Done(order)),
       fence := FenceAfter(w, p, marks, order))
  }

  /** The effect of one file on the disk, at mark `mark`. */
  function Carried(d: World, mark: nat, id: Id, v: Verdict, i: Option<Intent>): World
    requires v == Finalize ==> i.Some?
  {
    d.(log := d.log + (if v == Finalize then [RecoveredEntry(i.value)] else []),
       files := d.files - (if Removes(v) then {id} else {}),
       fence := if d.fence.None? then None else Some(Fence(mark,
         if v == Finalize && id !in d.fence.value.rows && i.value.common.stamp.Some?
         then d.fence.value.rows[id := i.value.common.stamp.value] else d.fence.value.rows)))
  }

  /** The scan's accumulators. */
  datatype Tally = Tally(
    pending: set<Id>, errors: set<Id>, review: set<Id>, completed: set<Id>, aborted: set<Id>,
    stale: set<Rejection>, staleIds: set<Id>)

  function TallyOf(w: World, p: Plan, done: set<Id>): Tally
    requires Sound(p)
  {
    Tally(With(p.verdicts, done, Wait), With(p.verdicts, done, Unreadable), With(p.verdicts, done, Review),
          With(p.verdicts, done, Finalize), With(p.verdicts, done, Abort),
          Rejections(w, p, done), StaleIds(p.verdicts, done))
  }

  function OrphansL0(all: seq<Observation>, settled: set<Id>): (r: seq<Orphan>)
    ensures forall o :: o in all && o.operationId.Some? && o.operationId.value !in settled
              ==> OrphanRecord(SurfaceL0, o.id, 0, o.operationId.value) in r
    ensures forall x :: x in r ==> x.operationId !in settled && exists o ::
              o in all && o.operationId == Some(x.operationId) && x == OrphanRecord(SurfaceL0, o.id, 0, x.operationId)
  {
    if all == [] then []
    else
      assert all == [all[0]] + all[1..];
      var rest := OrphansL0(all[1..], settled);
      if all[0].operationId.Some? && all[0].operationId.value !in settled
      then [OrphanRecord(SurfaceL0, all[0].id, 0, all[0].operationId.value)] + rest else rest
  }

  function OrphansL1(all: seq<ClaimVersion>, settled: set<Id>): (r: seq<Orphan>)
    ensures forall v :: v in all && v.operationId.Some? && v.operationId.value !in settled
              ==> OrphanRecord(SurfaceL1, v.claimId, v.version, v.operationId.value) in r
    ensures forall x :: x in r ==> x.operationId !in settled && exists v ::
              v in all && v.operationId == Some(x.operationId) && x == OrphanRecord(SurfaceL1, v.claimId, v.version, x.operationId)
  {
    if all == [] then []
    else
      assert all == [all[0]] + all[1..];
      var rest := OrphansL1(all[1..], settled);
      if all[0].operationId.Some? && all[0].operationId.value !in settled
      then [OrphanRecord(SurfaceL1, all[0].claimId, all[0].version, all[0].operationId.value)] + rest else rest
  }

  function PageOrphan(p: Page): Orphan
    requires p.operationId.Some?
  {
    OrphanRecord(if p.inTombstones then SurfaceTombstone else SurfaceL2, p.locator, 0, p.operationId.value)
  }

  function OrphansL2(all: seq<Page>, settled: set<Id>): (r: seq<Orphan>)
    ensures forall p :: p in all && p.operationId.Some? && p.operationId.value !in settled ==> PageOrphan(p) in r
    ensures forall x :: x in r ==> x.operationId !in settled && exists p ::
              p in all && p.operationId == Some(x.operationId) && x == PageOrphan(p)
  {
    if all == [] then []
    else
      assert all == [all[0]] + all[1..];
      var rest := OrphansL2(all[1..], settled);
      if all[0].operationId.Some? && all[0].operationId.value !in settled
      then [PageOrphan(all[0])] + rest else rest
  }

  function OrphansOf(w: World, settled: set<Id>): seq<Orphan> {
    OrphansL0(w.observations, settled) + OrphansL1(w.versions, settled) + OrphansL2(w.pages, settled)
  }

  predicate LooksLikeOperation(id: Id) { "op_" <= id }

  function ReportFor(w: World, p: Plan, order: seq<Id>): Report
    requires Sound(p)
  {
    var done := Done(order);
    var committed := CommittedIds(w.log + Appended(p, order));
    var orphans := OrphansOf(w, committed + StaleIds(p.verdicts, done));
    var pending := With(p.verdicts, done, Wait);
    var errors := With(p.verdicts, done, Unreadable);
    Report(
      |committed|,
      orphans,
      pending,
      errors,
      With(p.verdicts, done, Review)
        + (set id | id in errors && LooksLikeOperation(id))
        + (set x | x in orphans && x.operationId !in pending :: x.operationId),
      With(p.verdicts, done, Finalize),
      Rejections(w, p, done),
      With(p.verdicts, done, Abort))
  }

  /** The whole scan: the disk it leaves and the report it returns. */
  function WorldAfter(h: Hashes, w: World, marks: EpochMarks, order: seq<Id>): World {
    DiskAfter(w, PlanOf(h, w, marks), marks, order)
  }

  function ReportOf(h: Hashes, w: World, marks: EpochMarks, order: seq<Id>): Report {
    ReportFor(w, PlanOf(h, w, marks), order)
  }

  /** Claims only raise the mark. */
  predicate MarksRise(w: World, marks: EpochMarks, order: seq<Id>) {
    forall i, j :: 0 <= i < j < |order| ==> MarkAt(w, marks, order[i]) <= MarkAt(w, marks, order[j])
  }

  /** A directory listing: every file once. */
  predicate Listing(files: map<Id, Option<Intent>>, order: seq<Id>) {
    Distinct(order) && (set id | id in order) == files.Keys
  }
}
