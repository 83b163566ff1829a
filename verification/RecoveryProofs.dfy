/** What a recovery scan guarantees: whole exact artifact sets, full accounting of what it
    scanned, and the same outcome when it is crashed anywhere and run again. */
module RecoveryProofs {
  import opened Evidence
  import opened OpsLog
  import opened Exactness
  import opened Recovery
  import RecoveryScan

  // ---- Finalized sets are the expected sets ----------------------------------------------

  /** How an artifact of any surface is identified; hashes are recomputed from content. */
  datatype Artifact =
    | ObservationArtifact(id: Id, stored: Hash, recomputed: Hash, sequence: int, actor: Option<Id>, operation: Option<Id>)
    | VersionArtifact(mark: VersionMark)
    | PageArtifact(pageId: Option<Id>, contentHash: Hash)

  function SeenL0(h: Hashes, s: seq<Observation>): (r: seq<Artifact>)
    ensures |r| == |s|
  {
    seq(|s|, k requires 0 <= k < |s| =>
      ObservationArtifact(s[k].id, s[k].integrity.hash, ComputeHash(h.digest, s[k]), s[k].integrity.sequence, s[k].actorId, s[k].operationId))
  }

  function SeenL1(marks: seq<VersionMark>): (r: seq<Artifact>)
    ensures |r| == |marks|
  {
    seq(|marks|, k requires 0 <= k < |marks| => VersionArtifact(marks[k]))
  }

  function SeenPages(s: seq<Page>): (r: seq<Artifact>)
    ensures |r| == |s|
  {
    seq(|s|, k requires 0 <= k < |s| => PageArtifact(s[k].pageId, s[k].contentHash))
  }

  function ExpectedAudit(c: Common, a: Audit): Artifact {
    ObservationArtifact(a.observationId, a.observationHash, a.observationHash, a.sequence, Some(c.actorId), Some(c.operationId))
  }

  /** Everything the scan found under the operation id, on the surfaces its kind writes. */
  function Scanned(h: Hashes, w: World, i: Intent): multiset<Artifact> {
    var l0 := SeenL0(h, L0Of(w.observations, i.common.operationId));
    var l1 := SeenL1(Marks(h, L1Of(w.versions, i.common.operationId)));
    var pages := SeenPages(PagesOf(w.pages, i.common.operationId));
    match i
    case ObserveIntent(_, _, _, _, _) => multiset(l0)
    case ReviseIntent(_, _, _, _, _, _, _, _) => multiset(l1)
    case ForgetIntent(_, _, _, _, _) => multiset(l0) + multiset(l1)
    case ForgetScopeIntent(_, _, _, _, _, _, _) => multiset(l0)
    case ReviveIntent(_, _, _, _) => multiset(l1)
    case EndorseIntent(_, _, _, _, _, _, _) => multiset(l1) + multiset(pages)
    case ReflectIntent(_, _, _, _) => multiset(l1)
  }

  /** What the intent says should be there. */
  function ExpectedSet(i: Intent): multiset<Artifact> {
    var c := i.common;
    match i
    case ObserveIntent(_, o, _, _, _) => multiset{ExpectedAudit(c, o)}
    case ReviseIntent(_, _, _, _, _, _, _, _) => multiset(SeenL1(ExpectedMarks(c, ReviseSet(i))))
    case ForgetIntent(_, a, claim, _, _) =>
      multiset{ExpectedAudit(c, a)}
      + if claim.Some? then multiset{VersionArtifact(ExpectedMark(c, claim.value, ForgottenRecord))} else multiset{}
    case ForgetScopeIntent(_, a, _, _, _, _, _) => multiset{ExpectedAudit(c, a)}
    case ReviveIntent(_, t, _, _) => multiset{VersionArtifact(ExpectedMark(c, t, LiveRecord))}
    case EndorseIntent(_, page, hash, claims, _, _, _) =>
      multiset(SeenL1(ExpectedMarks(c, claims))) + multiset{PageArtifact(Some(page), hash)}
    case ReflectIntent(_, t, _, _) => multiset{VersionArtifact(ExpectedMark(c, t, LiveRecord))}
  }

  /** The intent names no artifact twice. Only re-picks and endorsements can. */
  predicate NamesEachOnce(i: Intent) {
    match i
    case ReviseIntent(_, _, _, _, _, _, _, _) => Distinct(ReviseSet(i))
    case EndorseIntent(_, _, _, claims, _, _, _) => DistinctIdentities(claims)
    case _ => true
  }

  lemma {:induction false} LiftedCount(s: seq<VersionMark>, x: VersionMark)
    ensures multiset(SeenL1(s))[VersionArtifact(x)] == multiset(s)[x]
  {
    if s != [] {
      var n := |s| - 1;
      LiftedCount(s[..n], x);
      assert s == s[..n] + [s[n]];
      assert SeenL1(s) == SeenL1(s[..n]) + [VersionArtifact(s[n])];
    }
  }

  lemma {:induction false} OnlyVersions(s: seq<VersionMark>, a: Artifact)
    requires a in multiset(SeenL1(s))
    ensures a.VersionArtifact?
  {
    assert a in SeenL1(s);
  }

  /** Lifting marks into artifacts loses nothing. */
  lemma LiftEqual(s: seq<VersionMark>, t: seq<VersionMark>)
    requires multiset(s) == multiset(t)
    ensures multiset(SeenL1(s)) == multiset(SeenL1(t))
  {
    forall a ensures multiset(SeenL1(s))[a] == multiset(SeenL1(t))[a] {
      match a {
        case VersionArtifact(x) => LiftedCount(s, x); LiftedCount(t, x);
        case ObservationArtifact(_, _, _, _, _, _) =>
          if a in multiset(SeenL1(s)) { OnlyVersions(s, a); }
          if a in multiset(SeenL1(t)) { OnlyVersions(t, a); }
        case PageArtifact(_, _) =>
          if a in multiset(SeenL1(s)) { OnlyVersions(s, a); }
          if a in multiset(SeenL1(t)) { OnlyVersions(t, a); }
      }
    }
  }

  lemma SingleL0(h: Hashes, c: Common, a: Audit, s: seq<Observation>, all: seq<Observation>)
    requires |s| == 1 && IsExactAudit(h, c, a, s[0], all)
    ensures multiset(SeenL0(h, s)) == multiset{ExpectedAudit(c, a)}
  {
    assert SeenL0(h, s) == [ExpectedAudit(c, a)];
  }

  lemma SingleL1(h: Hashes, c: Common, e: Expected, state: LifeState, s: seq<ClaimVersion>)
    requires |s| == 1 && IsExactVersion(h, c, e, state, s[0])
    ensures multiset(SeenL1(Marks(h, s))) == multiset{VersionArtifact(ExpectedMark(c, e, state))}
  {
    assert SeenL1(Marks(h, s)) == [VersionArtifact(ExpectedMark(c, e, state))];
  }

  /** A scan finalizes an operation only when everything found under its id, on the surfaces its
      kind writes, is, each exactly once and hash-exact, the set its intent names. For re-picks and
      endorsements this needs the intent to name no artifact twice; Exactness shows what is let
      through otherwise. */
  lemma FinalizedSetIsExact(h: Hashes, w: World, i: Intent)
    requires Uncommitted(h, w, i) == Finalize && NamesEachOnce(i)
    ensures Scanned(h, w, i) == ExpectedSet(i)
  {
    hide IsExactAudit, IsExactVersion, IsExactEndorseClaims, IsExactRevise;
    var l0 := L0Of(w.observations, i.common.operationId);
    var l1 := L1Of(w.versions, i.common.operationId);
    match i {
      case ObserveIntent(c, o, _, _, _) => SingleL0(h, c, o, l0, w.observations);
      case ForgetScopeIntent(c, a, _, _, _, _, _) => SingleL0(h, c, a, l0, w.observations);
      case ReviveIntent(c, t, _, _) => SingleL1(h, c, t, LiveRecord, l1);
      case ReflectIntent(c, t, _, _) => SingleL1(h, c, t, LiveRecord, l1);
      case ForgetIntent(c, a, claim, _, _) =>
        SingleL0(h, c, a, l0, w.observations);
        if claim.Some? {
          SingleL1(h, c, claim.value, ForgottenRecord, l1);
        } else {
          assert l1 == [];
        }
      case ReviseIntent(c, _, _, _, _, _, _, _) =>
        ExactReviseIffDistinct(h, i, l1);
        LiftEqual(Marks(h, l1), ExpectedMarks(c, ReviseSet(i)));
      case EndorseIntent(c, page, hash, claims, _, _, _) =>
        ExactEndorseIffComplete(h, c, claims, l1);
        LiftEqual(Marks(h, l1), ExpectedMarks(c, claims));
        assert SeenPages(PagesOf(w.pages, c.operationId)) == [PageArtifact(Some(page), hash)];
    }
  }

  /** Everything under the operation id, on every surface. */
  function Everything(h: Hashes, w: World, id: Id): multiset<Artifact> {
    multiset(SeenL0(h, L0Of(w.observations, id))) + multiset(SeenL1(Marks(h, L1Of(w.versions, id)))) + multiset(SeenPages(PagesOf(w.pages, id)))
  }

  /** How many artifacts stand under the id on surfaces that its kind does not write. */
  function Strays(w: World, i: Intent): nat {
    var id := i.common.operationId;
    var l0, l1, pages := |L0Of(w.observations, id)|, |L1Of(w.versions, id)|, |PagesOf(w.pages, id)|;
    match i
    case ObserveIntent(_, _, _, _, _) => l1 + pages
    case ReviseIntent(_, _, _, _, _, _, _, _) => l0 + pages
    case ForgetIntent(_, _, _, _, _) => pages
    case ForgetScopeIntent(_, _, _, _, _, _, _) => l1 + pages
    case ReviveIntent(_, _, _, _) => l0 + pages
    case EndorseIntent(_, _, _, _, _, _, _) => l0
    case ReflectIntent(_, _, _, _) => l0 + pages
  }

  lemma EverythingCounted(h: Hashes, w: World, i: Intent)
    ensures |Everything(h, w, i.common.operationId)| == |Scanned(h, w, i)| + Strays(w, i)
    ensures Strays(w, i) == 0 ==> Everything(h, w, i.common.operationId) == Scanned(h, w, i)
  {
    hide SeenL0, SeenL1, SeenPages, L0Of, L1Of, PagesOf, Marks;
    var id := i.common.operationId;
    ThreeSurfaces(SeenL0(h, L0Of(w.observations, id)), SeenL1(Marks(h, L1Of(w.versions, id))), SeenPages(PagesOf(w.pages, id)));
  }

  lemma ThreeSurfaces(a: seq<Artifact>, b: seq<Artifact>, c: seq<Artifact>)
    ensures |multiset(a) + multiset(b) + multiset(c)| == |a| + |b| + |c|
    ensures |multiset(a) + multiset(b)| == |a| + |b| && |multiset(b) + multiset(c)| == |b| + |c|
    ensures (a == [] ==> multiset(a) == multiset{}) && (b == [] ==> multiset(b) == multiset{}) && (c == [] ==> multiset(c) == multiset{})
  {
  }

  /** A finalized set is everything under the id if and only if nothing stands on the other surfaces:
      the scan does not look there, and what does stand there counts as committed afterwards. */
  lemma FinalizedIsWholeIff(h: Hashes, w: World, i: Intent)
    requires Uncommitted(h, w, i) == Finalize && NamesEachOnce(i)
    ensures Everything(h, w, i.common.operationId) == ExpectedSet(i) <==> Strays(w, i) == 0
  {
    hide Uncommitted, NamesEachOnce, ExpectedSet, Scanned, Everything, Strays;
    FinalizedSetIsExact(h, w, i);
    EverythingCounted(h, w, i);
  }

  /** The same of a whole scan, whatever claims land during it. */
  lemma ScanFinalizesOnlyExactSets(h: Hashes, w: World, marks: EpochMarks, id: Id)
    requires var p := PlanOf(h, w, marks); id in p.verdicts && p.verdicts[id] == Finalize && NamesEachOnce(p.intents[id])
    ensures Scanned(h, w, PlanOf(h, w, marks).intents[id]) == ExpectedSet(PlanOf(h, w, marks).intents[id])
  {
    hide Uncommitted, CommittedArtifactsExact, ArtifactCount, MatchingCommit, WellFormed, Scanned, ExpectedSet, NamesEachOnce;
    RecoveryScan.PlanAt(h, w, marks, id);
    FinalizedSetIsExact(h, w, PlanOf(h, w, marks).intents[id]);
  }

  // ---- Recovery recognises its own entry -------------------------------------------------

  /** The entry recovery writes matches the intent it was written for, for every kind. */
  lemma OwnEntryMatches(i: Intent)
    requires WellFormed(i)
    ensures MatchingCommit(i, RecoveredEntry(i))
    ensures RecoveredEntry(i).operationId == i.common.operationId
  {
  }

  /** What was exact enough to finalize is still exact when the entry is found afterwards. */
  lemma FinalizedStaysExact(h: Hashes, w: World, i: Intent)
    requires Uncommitted(h, w, i) == Finalize
    ensures CommittedArtifactsExact(h, w, i)
  {
    hide IsExactAudit, IsExactVersion, IsExactEndorseClaims, IsExactRevise;
  }

  lemma {:induction false} EntriesConcat(a: seq<Entry>, b: seq<Entry>, id: Id)
    ensures EntriesOf(a + b, id) == EntriesOf(a, id) + EntriesOf(b, id)
  {
    if b == [] {
      assert a + b == a;
    } else {
      assert (a + b)[..|a + b| - 1] == a + b[..|b| - 1];
      EntriesConcat(a, b[..|b| - 1], id);
    }
  }

  lemma {:induction false} NoEntries(log: seq<Entry>, id: Id)
    ensures EntriesOf(log, id) == [] <==> id !in CommittedIds(log)
    ensures forall e :: e in EntriesOf(log, id) <==> e in log && e.operationId == id
  {
    if log != [] {
      NoEntries(log[..|log| - 1], id);
      assert log == log[..|log| - 1] + [log[|log| - 1]];
    }
  }

  /** The part of the disk a decision about one operation reads. */
  predicate SameFor(a: World, b: World, id: Id) {
    && id in a.files && id in b.files && a.files[id] == b.files[id]
    && a.observations == b.observations && a.versions == b.versions && a.pages == b.pages
    && EntriesOf(a.log, id) == EntriesOf(b.log, id)
    && a.fence.Some? == b.fence.Some?
    && HighWater(a.fence) == HighWater(b.fence)
    && (a.fence.Some? ==> (id in a.fence.value.rows <==> id in b.fence.value.rows))
  }

  lemma UncommittedFrame(h: Hashes, a: World, b: World, i: Intent)
    requires a.observations == b.observations && a.versions == b.versions && a.pages == b.pages
    ensures Uncommitted(h, a, i) == Uncommitted(h, b, i)
    ensures CommittedArtifactsExact(h, a, i) <==> CommittedArtifactsExact(h, b, i)
    ensures ArtifactCount(a, i.common.operationId) == ArtifactCount(b, i.common.operationId)
  {
    hide IsExactAudit, IsExactVersion, IsExactEndorseClaims, IsExactRevise;
  }

  const QUIET: EpochMarks := map[]

  lemma VerdictFrame(h: Hashes, a: World, b: World, id: Id)
    requires SameFor(a, b, id)
    ensures VerdictOf(h, a, QUIET, id) == VerdictOf(h, b, QUIET, id)
  {
    hide Uncommitted, CommittedArtifactsExact, ArtifactCount, WellFormed, MatchingCommit;
    if ReadIntent(a, id).Some? {
      UncommittedFrame(h, a, b, ReadIntent(a, id).value);
    }
  }

  /** An authorized set is finalized whatever the mark. */
  lemma AuthorizedStaysFinal(h: Hashes, a: World, b: World, id: Id)
    requires SameFor(a, b.(fence := a.fence), id)
    requires VerdictOf(h, a, QUIET, id) == Finalize
    requires b.fence.Some? && id in b.fence.value.rows
    ensures VerdictOf(h, b, QUIET, id) == Finalize
  {
    hide Uncommitted, CommittedArtifactsExact, ArtifactCount, WellFormed, MatchingCommit;
    UncommittedFrame(h, a, b, ReadIntent(a, id).value);
  }

  /** Crashing between the append and the removal: the next scan finds its own entry and
      clears the intent, for every kind of intent and whatever the fence says by then. */
  lemma OwnEntryIsCleared(h: Hashes, a: World, b: World, id: Id)
    requires id in a.files && id in b.files && a.files[id] == b.files[id]
    requires a.observations == b.observations && a.versions == b.versions && a.pages == b.pages
    requires VerdictOf(h, a, QUIET, id) == Finalize
    requires RecoveredEntry(ReadIntent(a, id).value) in b.log
    ensures VerdictOf(h, b, QUIET, id) == Clear
  {
    hide Uncommitted, CommittedArtifactsExact, ArtifactCount, MatchingCommit, WellFormed, RecoveredEntry;
    var i := ReadIntent(a, id).value;
    OwnEntryMatches(i);
    FinalizedStaysExact(h, a, i);
    UncommittedFrame(h, a, b, i);
    NoEntries(b.log, id);
    assert RecoveredEntry(i) in EntriesOf(b.log, id);
  }

  // ---- Accounting ------------------------------------------------------------------------

  /** After a scan that reports, whatever claims landed during it: every artifact that carries an operation
      id is committed, stale-rejected or listed as an orphan; an orphan is never committed or
      rejected, and its operation is pending or in manual review. */
  lemma EveryArtifactAccountedFor(h: Hashes, w: World, marks: EpochMarks, order: seq<Id>)
    requires Listing(w.files, order)
    ensures var r, after := ReportOf(h, w, marks, order), WorldAfter(h, w, marks, order);
      var settled := CommittedIds(after.log) + StaleIds(PlanOf(h, w, marks).verdicts, Done(order));
      && (forall o :: o in w.observations && o.operationId.Some? ==>
            o.operationId.value in settled || OrphanRecord(SurfaceL0, o.id, 0, o.operationId.value) in r.orphans)
      && (forall v :: v in w.versions && v.operationId.Some? ==>
            v.operationId.value in settled || OrphanRecord(SurfaceL1, v.claimId, v.version, v.operationId.value) in r.orphans)
      && (forall p :: p in w.pages && p.operationId.Some? ==>
            p.operationId.value in settled || PageOrphan(p) in r.orphans)
      && (forall x :: x in r.orphans ==>
            x.operationId !in settled && (x.operationId in r.pending || x.operationId in r.manualReview))
  {
    hide PlanOf, Appended, StaleIds, With, Rejections;
  }

  /** A scan that gets to its end appends an entry for exactly the operations it finalized, one each, and each of
      them had none before. */
  lemma ScanAppendsOncePerFinalized(h: Hashes, w: World, marks: EpochMarks, order: seq<Id>, id: Id)
    requires Listing(w.files, order)
    ensures var p := PlanOf(h, w, marks);
      EntriesOf(WorldAfter(h, w, marks, order).log, id)
      == if id in p.verdicts && p.verdicts[id] == Finalize then [RecoveredEntry(p.intents[id])] else EntriesOf(w.log, id)
  {
    hide PlanOf, VerdictOf, RecoveredEntry;
    var p := PlanOf(h, w, marks);
    EntriesConcat(w.log, Appended(p, order), id);
    assert id in p.verdicts <==> id in Done(order);
    EntriesAppended(p, order, id);
    if id in p.verdicts && p.verdicts[id] == Finalize {
      FinalizedHadNoEntry(h, w, marks, id);
    }
  }

  lemma FinalizedHadNoEntry(h: Hashes, w: World, marks: EpochMarks, id: Id)
    requires id in w.files && PlanOf(h, w, marks).verdicts[id] == Finalize
    ensures EntriesOf(w.log, id) == []
  {
    hide Uncommitted, CommittedArtifactsExact, ArtifactCount, MatchingCommit, WellFormed;
    RecoveryScan.PlanAt(h, w, marks, id);
  }

  lemma {:induction false} EntriesAppended(p: Plan, order: seq<Id>, id: Id)
    requires Sound(p) && Distinct(order) && forall x :: x in p.intents ==> p.intents[x].common.operationId == x
    ensures EntriesOf(Appended(p, order), id)
         == if id in order && id in p.verdicts && p.verdicts[id] == Finalize then [RecoveredEntry(p.intents[id])] else []
  {
    hide RecoveredEntry, EntriesOf;
    if order == [] {
      NoEntries([], id);
    } else {
      var n := |order| - 1;
      assert order == order[..n] + [order[n]];
      assert order[n] !in order[..n];
      EntriesAppended(p, order[..n], id);
      if order[n] in p.verdicts && p.verdicts[order[n]] == Finalize {
        EntriesGrow(Appended(p, order[..n]), RecoveredEntry(p.intents[order[n]]), id);
      }
    }
  }

  lemma EntriesGrow(log: seq<Entry>, e: Entry, id: Id)
    ensures EntriesOf(log + [e], id) == if e.operationId == id then EntriesOf(log, id) + [e] else EntriesOf(log, id)
  {
    assert (log + [e])[..|log|] == log;
  }

  // ---- Crashing and re-running -----------------------------------------------------------

  /** Where a scan can die while it works on one file. */
  datatype Stage = BetweenFiles | GatePassed | SignalAppended

  /** The disk a scan leaves when it dies at file `k`: everything before is done, and a file
      being finalized may have its authorization row, or its row and its log entry. */
  function CrashedDisk(h: Hashes, w: World, order: seq<Id>, k: nat, stage: Stage): World
    requires k <= |order|
  {
    var p := PlanOf(h, w, QUIET);
    var d := DiskAfter(w, p, QUIET, order[..k]);
    if stage.BetweenFiles? || k == |order| || order[k] !in p.verdicts || p.verdicts[order[k]] != Finalize then d
    else
      var gated := Carried(d, HighWater(w.fence), order[k], Finalize, Some(p.intents[order[k]]));
      if stage.GatePassed? then gated.(log := d.log, files := d.files) else gated.(files := d.files)
  }

  /** A scan thrown out by an entry that cannot be appended leaves the disk of a crash past the gate. */
  lemma ThrownIsCrashed(h: Hashes, w: World, order: seq<Id>, k: nat)
    requires k < |order| && RecoveryScan.Throws(PlanOf(h, w, QUIET), order[k])
    ensures RecoveryScan.ThrownDisk(w, PlanOf(h, w, QUIET), QUIET, order, k) == CrashedDisk(h, w, order, k, GatePassed)
  {
    hide PlanOf, DiskAfter, RecoveredEntry;
  }

  predicate HalfDone(h: Hashes, w: World, order: seq<Id>, k: nat, stage: Stage)
    requires k <= |order|
  {
    var p := PlanOf(h, w, QUIET);
    !stage.BetweenFiles? && k < |order| && order[k] in p.verdicts && p.verdicts[order[k]] == Finalize
  }

  lemma CrashedForm(h: Hashes, w: World, order: seq<Id>, k: nat, stage: Stage)
    requires k <= |order|
    ensures var d, c := DiskAfter(w, PlanOf(h, w, QUIET), QUIET, order[..k]), CrashedDisk(h, w, order, k, stage);
      && c.files == d.files
      && (!HalfDone(h, w, order, k, stage) ==> c == d)
      && (HalfDone(h, w, order, k, stage) ==>
            && order[k] in w.files && ReadIntent(w, order[k]).Some?
            && var done := Carried(d, HighWater(w.fence), order[k], Finalize, ReadIntent(w, order[k]));
               c == if stage.GatePassed? then done.(log := d.log, files := d.files) else done.(files := d.files))
  {
    hide VerdictOf, RecoveredEntry, DiskAfter;
    if HalfDone(h, w, order, k, stage) {
      RecoveryScan.PlanAt(h, w, QUIET, order[k]);
    }
  }

  lemma PartialScanFrame(h: Hashes, w: World, order: seq<Id>, k: nat, id: Id)
    requires Listing(w.files, order) && k <= |order|
    requires var p := PlanOf(h, w, QUIET); id in DiskAfter(w, p, QUIET, order[..k]).files
    ensures var p := PlanOf(h, w, QUIET); SameFor(w, DiskAfter(w, p, QUIET, order[..k]), id)
  {
    hide PlanOf, VerdictOf;
    var p := PlanOf(h, w, QUIET);
    var prefix := order[..k];
    var d := DiskAfter(w, p, QUIET, prefix);
    EntriesConcat(w.log, Appended(p, prefix), id);
    NoEntries(Appended(p, prefix), id);
    RecoveryScan.AppendedIds(p, prefix);
    assert !(id in Done(prefix) && Removes(p.verdicts[id]));
    assert EntriesOf(d.log, id) == EntriesOf(w.log, id);
    if w.fence.Some? {
      assert id !in Restrict(FreshRows(w.fence.value.rows, p), Done(prefix));
    }
  }

  /** After a crash anywhere, every surviving file gets the verdict it had, except that a file
      whose entry was already written is now recognised and cleared. */
  lemma CrashedVerdict(h: Hashes, w: World, order: seq<Id>, k: nat, stage: Stage, id: Id)
    requires Listing(w.files, order) && k <= |order|
    requires id in CrashedDisk(h, w, order, k, stage).files
    ensures id in w.files
    ensures var p, q := PlanOf(h, w, QUIET), PlanOf(h, CrashedDisk(h, w, order, k, stage), QUIET);
      && id in p.verdicts && id in q.verdicts
      && q.verdicts[id] == (if stage.SignalAppended? && k < |order| && id == order[k] && p.verdicts[id] == Finalize then Clear
                            else p.verdicts[id])
  {
    hide PlanOf, VerdictOf, RecoveredEntry, ReadIntent, CrashedDisk, DiskAfter, Carried;
    var p := PlanOf(h, w, QUIET);
    var d := DiskAfter(w, p, QUIET, order[..k]);
    var c := CrashedDisk(h, w, order, k, stage);
    CrashedForm(h, w, order, k, stage);
    PartialScanFrame(h, w, order, k, id);
    RecoveryScan.PlanAt(h, w, QUIET, id);
    RecoveryScan.PlanAt(h, c, QUIET, id);
    if !HalfDone(h, w, order, k, stage) {
      VerdictFrame(h, w, c, id);
    } else {
      RecoveryScan.PlanAt(h, w, QUIET, order[k]);
      CrashedInsideFile(h, w, d, c, order[k], id, stage);
    }
  }

  /** One file half done, seen from any file. */
  lemma CrashedInsideFile(h: Hashes, w: World, d: World, c: World, at: Id, id: Id, stage: Stage)
    requires at in w.files && VerdictOf(h, w, QUIET, at) == Finalize && ReadIntent(w, at).Some?
    requires SameFor(w, d, id)
    requires var done := Carried(d, HighWater(w.fence), at, Finalize, ReadIntent(w, at));
      c == if stage.GatePassed? then done.(log := d.log, files := d.files) else done.(files := d.files)
    ensures VerdictOf(h, c, QUIET, id) == if !stage.GatePassed? && id == at then Clear else VerdictOf(h, w, QUIET, id)
  {
    hide VerdictOf, RecoveredEntry;
    var i := ReadIntent(w, at).value;
    EntriesConcat(d.log, [RecoveredEntry(i)], id);
    SignalNames(w, at);
    if id != at {
      assert EntriesOf([RecoveredEntry(i)], id) == [];
      assert SameFor(w, c, id);
      VerdictFrame(h, w, c, id);
    } else if stage.GatePassed? {
      if c.fence.Some? && id in c.fence.value.rows {
        AuthorizedStaysFinal(h, w, c, id);
      } else {
        VerdictFrame(h, w, c, id);
      }
    } else {
      assert RecoveredEntry(i) in c.log;
      OwnEntryIsCleared(h, w, c, id);
    }
  }

  lemma SignalNames(w: World, id: Id)
    requires id in w.files && ReadIntent(w, id).Some?
    ensures RecoveredEntry(ReadIntent(w, id).value).operationId == id
  {
  }

  /** Two plans agree on everything a scan leaves behind. */
  ghost predicate SameOutcome(w: World, p: Plan, c: World, q: Plan)
    requires Sound(p) && Sound(q)
  {
    && (forall id :: id in c.files ==> id in w.files && c.files[id] == w.files[id])
    && p.verdicts.Keys == w.files.Keys && q.verdicts.Keys == c.files.Keys
    && (forall id :: id in w.files && id !in c.files ==> Removes(p.verdicts[id]))
    && (forall id :: id in c.files ==>
          q.verdicts[id] == p.verdicts[id] || (q.verdicts[id] == Clear && p.verdicts[id] == Finalize))
    && (forall id :: id in c.files && id in p.intents ==> id in q.intents && q.intents[id] == p.intents[id])
  }

  /** Which files survive a crash. */
  lemma CrashedFiles(h: Hashes, w: World, order: seq<Id>, k: nat, stage: Stage)
    requires Listing(w.files, order) && k <= |order|
    ensures var p, c := PlanOf(h, w, QUIET), CrashedDisk(h, w, order, k, stage);
      && (forall id :: id in c.files <==> id in w.files && !(id in order[..k] && Removes(p.verdicts[id])))
      && (forall id :: id in c.files ==> c.files[id] == w.files[id])
  {
    hide PlanOf, VerdictOf, RecoveredEntry, ReadIntent, CrashedDisk, Carried, Appended, FenceAfter;
    CrashedForm(h, w, order, k, stage);
  }

  lemma CrashedOutcome(h: Hashes, w: World, order: seq<Id>, k: nat, stage: Stage)
    requires Listing(w.files, order) && k <= |order|
    ensures SameOutcome(w, PlanOf(h, w, QUIET), CrashedDisk(h, w, order, k, stage), PlanOf(h, CrashedDisk(h, w, order, k, stage), QUIET))
  {
    hide PlanOf, VerdictOf, RecoveredEntry, ReadIntent, CrashedDisk, Carried, DiskAfter;
    var c := CrashedDisk(h, w, order, k, stage);
    CrashedFiles(h, w, order, k, stage);
    forall id | id in c.files
      ensures
        var p, q := PlanOf(h, w, QUIET), PlanOf(h, c, QUIET);
        && (q.verdicts[id] == p.verdicts[id] || (q.verdicts[id] == Clear && p.verdicts[id] == Finalize))
        && (id in p.intents ==> id in q.intents && q.intents[id] == p.intents[id])
    {
      CrashedVerdict(h, w, order, k, stage, id);
      RecoveryScan.PlanAt(h, w, QUIET, id);
      RecoveryScan.PlanAt(h, c, QUIET, id);
      SameFileSameIntent(w, c, id);
    }
  }

  lemma SameFileSameIntent(a: World, b: World, id: Id)
    requires id in a.files && id in b.files && a.files[id] == b.files[id]
    ensures ReadIntent(a, id) == ReadIntent(b, id)
  {
  }

  lemma SameFilesLeft(w: World, p: Plan, c: World, q: Plan)
    requires Sound(p) && Sound(q) && SameOutcome(w, p, c, q)
    ensures FilesAfter(w.files, p.verdicts, w.files.Keys) == FilesAfter(c.files, q.verdicts, c.files.Keys)
  {
  }

  /** Verdicts that keep their file are reported by both scans. */
  lemma SameKept(w: World, p: Plan, c: World, q: Plan, v: Verdict)
    requires Sound(p) && Sound(q) && SameOutcome(w, p, c, q) && !Removes(v)
    ensures With(p.verdicts, w.files.Keys, v) == With(q.verdicts, c.files.Keys, v)
  {
  }

  lemma SameStale(w: World, p: Plan, c: World, q: Plan)
    requires Sound(p) && Sound(q) && SameOutcome(w, p, c, q)
    requires HighWater(w.fence) == HighWater(c.fence)
    requires w.observations == c.observations && w.versions == c.versions && w.pages == c.pages
    ensures StaleIds(p.verdicts, w.files.Keys) == StaleIds(q.verdicts, c.files.Keys)
    ensures Rejections(w, p, w.files.Keys) == Rejections(c, q, c.files.Keys)
  {
    forall id | id in w.files && p.verdicts[id].RejectStale?
      ensures id in c.files && q.verdicts[id] == p.verdicts[id]
           && RejectionOf(w, p.intents[id], p.verdicts[id].reason) == RejectionOf(c, q.intents[id], q.verdicts[id].reason)
    {
    }
    forall id | id in c.files && q.verdicts[id].RejectStale?
      ensures id in w.files && p.verdicts[id].RejectStale?
    {
    }
  }

  /** Each operation ends with the same entries in the log. */
  lemma CrashedEntries(h: Hashes, w: World, order: seq<Id>, k: nat, stage: Stage, again: seq<Id>, id: Id)
    requires Listing(w.files, order) && k <= |order|
    requires Listing(CrashedDisk(h, w, order, k, stage).files, again)
    ensures EntriesOf(WorldAfter(h, CrashedDisk(h, w, order, k, stage), QUIET, again).log, id)
         == EntriesOf(WorldAfter(h, w, QUIET, order).log, id)
  {
    hide PlanOf, VerdictOf, RecoveredEntry, ReadIntent, CrashedDisk, Carried, WorldAfter, FilesAfter;
    var c := CrashedDisk(h, w, order, k, stage);
    var p, q := PlanOf(h, w, QUIET), PlanOf(h, c, QUIET);
    ScanAppendsOncePerFinalized(h, w, QUIET, order, id);
    ScanAppendsOncePerFinalized(h, c, QUIET, again, id);
    CrashedFiles(h, w, order, k, stage);
    CrashedOutcome(h, w, order, k, stage);
    CrashedLog(h, w, order, k, stage, id);
    if id in c.files {
      CrashedVerdict(h, w, order, k, stage, id);
    }
  }

  /** What a partial scan has put in the log for one operation. */
  lemma PartialLog(h: Hashes, w: World, order: seq<Id>, k: nat, id: Id)
    requires Listing(w.files, order) && k <= |order|
    ensures var p := PlanOf(h, w, QUIET);
      EntriesOf(w.log + Appended(p, order[..k]), id)
      == if id in p.verdicts && p.verdicts[id] == Finalize && id in order[..k] then [RecoveredEntry(p.intents[id])] else EntriesOf(w.log, id)
  {
    hide PlanOf, VerdictOf, RecoveredEntry, ReadIntent, Appended;
    var p := PlanOf(h, w, QUIET);
    EntriesConcat(w.log, Appended(p, order[..k]), id);
    EntriesAppended(p, order[..k], id);
    if id in p.verdicts && p.verdicts[id] == Finalize {
      FinalizedHadNoEntry(h, w, QUIET, id);
    }
  }

  lemma CrashedLog(h: Hashes, w: World, order: seq<Id>, k: nat, stage: Stage, id: Id)
    requires Listing(w.files, order) && k <= |order|
    ensures var p := PlanOf(h, w, QUIET);
      EntriesOf(CrashedDisk(h, w, order, k, stage).log, id)
      == if id in p.verdicts && p.verdicts[id] == Finalize
            && (id in order[..k] || (HalfDone(h, w, order, k, stage) && stage.SignalAppended? && id == order[k]))
         then [RecoveredEntry(p.intents[id])] else EntriesOf(w.log, id)
  {
    hide PlanOf, VerdictOf, RecoveredEntry, ReadIntent, Appended, FenceAfter, FilesAfter;
    var p := PlanOf(h, w, QUIET);
    PartialLog(h, w, order, k, id);
    if HalfDone(h, w, order, k, stage) && stage.SignalAppended? {
      assert order[k] !in order[..k];
      var e := RecoveredEntry(p.intents[order[k]]);
      EntriesConcat(w.log + Appended(p, order[..k]), [e], id);
      assert EntriesOf([e], id) == if id == order[k] then [e] else [] by { assert [e][..0] == []; }
      if id == order[k] {
        FinalizedHadNoEntry(h, w, QUIET, id);
      }
    }
  }

  lemma SameEntriesSameIds(a: seq<Entry>, b: seq<Entry>)
    requires forall id :: EntriesOf(a, id) == EntriesOf(b, id)
    ensures CommittedIds(a) == CommittedIds(b)
  {
    forall id ensures id in CommittedIds(a) <==> id in CommittedIds(b) {
      NoEntries(a, id);
      NoEntries(b, id);
    }
  }

  /** What the two scans would leave if both ran to their end. */
  lemma WorldsConverge(h: Hashes, w: World, order: seq<Id>, k: nat, stage: Stage, again: seq<Id>)
    requires Listing(w.files, order) && k <= |order|
    requires Listing(CrashedDisk(h, w, order, k, stage).files, again)
    ensures var c := CrashedDisk(h, w, order, k, stage);
      var once, twice := WorldAfter(h, w, QUIET, order), WorldAfter(h, c, QUIET, again);
      var r, r' := ReportOf(h, w, QUIET, order), ReportOf(h, c, QUIET, again);
      && twice.files == once.files
      && (forall id :: EntriesOf(twice.log, id) == EntriesOf(once.log, id))
      && r'.(completed := r.completed, aborted := r.aborted) == r
  {
    hide PlanOf, VerdictOf, RecoveredEntry, ReadIntent, CrashedDisk, Carried, FilesAfter, With, Rejections, StaleIds, OrphansOf, Appended, FenceAfter;
    var c := CrashedDisk(h, w, order, k, stage);
    var p, q := PlanOf(h, w, QUIET), PlanOf(h, c, QUIET);
    var once, twice := WorldAfter(h, w, QUIET, order), WorldAfter(h, c, QUIET, again);
    CrashedOutcome(h, w, order, k, stage);
    assert Done(order) == w.files.Keys && Done(again) == c.files.Keys;
    SameFilesLeft(w, p, c, q);
    forall id ensures EntriesOf(twice.log, id) == EntriesOf(once.log, id) {
      CrashedEntries(h, w, order, k, stage, again, id);
    }
    SameEntriesSameIds(once.log, twice.log);
    SameKept(w, p, c, q, Wait);
    SameKept(w, p, c, q, Unreadable);
    SameKept(w, p, c, q, Review);
    CrashedSurfaces(h, w, order, k, stage);
    SameStale(w, p, c, q);
    SameOrphans(w, c, CommittedIds(once.log) + StaleIds(p.verdicts, Done(order)));
  }

  lemma SameOrphans(a: World, b: World, settled: set<Id>)
    requires a.observations == b.observations && a.versions == b.versions && a.pages == b.pages
    ensures OrphansOf(a, settled) == OrphansOf(b, settled)
  {
  }

  lemma CrashedSurfaces(h: Hashes, w: World, order: seq<Id>, k: nat, stage: Stage)
    requires k <= |order|
    ensures var c := CrashedDisk(h, w, order, k, stage);
      && c.observations == w.observations && c.versions == w.versions && c.pages == w.pages
      && HighWater(c.fence) == HighWater(w.fence)
  {
    hide PlanOf, RecoveredEntry, FilesAfter, Appended, RowsAfter;
  }

  /** What a second scan would leave after a first one that ran to its end. */
  lemma SecondWorldIsSame(h: Hashes, w: World, order: seq<Id>, again: seq<Id>)
    requires Listing(w.files, order) && Listing(WorldAfter(h, w, QUIET, order).files, again)
    ensures var once := WorldAfter(h, w, QUIET, order);
      var r, r' := ReportOf(h, w, QUIET, order), ReportOf(h, once, QUIET, again);
      && WorldAfter(h, once, QUIET, again) == once
      && r' == r.(completed := {}, aborted := {})
  {
    hide PlanOf, VerdictOf, RecoveredEntry, ReadIntent, Carried, DiskAfter, WorldAfter, ReportFor, CrashedDisk;
    var once := WorldAfter(h, w, QUIET, order);
    assert order[..|order|] == order;
    FinishedIsCrashedAtEnd(h, w, order);
    WorldsConverge(h, w, order, |order|, BetweenFiles, again);
    var q := PlanOf(h, once, QUIET);
    forall id | id in once.files ensures !Removes(q.verdicts[id]) {
      CrashedVerdict(h, w, order, |order|, BetweenFiles, id);
      CrashedFiles(h, w, order, |order|, BetweenFiles);
      assert id in Done(order);
    }
    IdlePlan(h, once, again);
  }

  lemma FinishedIsCrashedAtEnd(h: Hashes, w: World, order: seq<Id>)
    ensures WorldAfter(h, w, QUIET, order) == CrashedDisk(h, w, order, |order|, BetweenFiles)
  {
    hide PlanOf, DiskAfter;
    assert order[..|order|] == order;
  }

  /** A scan that removes nothing leaves the disk as it was. */
  lemma IdlePlan(h: Hashes, w: World, order: seq<Id>)
    requires forall id :: id in PlanOf(h, w, QUIET).verdicts ==> !Removes(PlanOf(h, w, QUIET).verdicts[id])
    ensures WorldAfter(h, w, QUIET, order) == w
    ensures ReportOf(h, w, QUIET, order).completed == {} && ReportOf(h, w, QUIET, order).aborted == {}
  {
    hide PlanOf, VerdictOf, RecoveredEntry, OrphansOf, Rejections;
    var q := PlanOf(h, w, QUIET);
    NothingAppended(q, order);
    assert FilesAfter(w.files, q.verdicts, Done(order)) == w.files;
    if w.fence.Some? {
      assert Restrict(FreshRows(w.fence.value.rows, q), Done(order)) == map[];
      assert RowsAfter(w.fence.value.rows, q, Done(order)) == w.fence.value.rows;
      assert FenceAfter(w, q, QUIET, order) == w.fence;
    }
    assert w.log + Appended(q, order) == w.log;
  }

  lemma {:induction false} NothingAppended(p: Plan, order: seq<Id>)
    requires Sound(p) && forall id :: id in p.verdicts ==> !Removes(p.verdicts[id])
    ensures Appended(p, order) == []
  {
    if order != [] { NothingAppended(p, order[..|order| - 1]); }
  }

  // ---- When a scan gets to its end -----------------------------------------------------------

  /** No file of the plan throws when it is finalized. */
  predicate Clean(p: Plan)
    requires Sound(p)
  {
    forall id :: id in p.verdicts ==> !RecoveryScan.Throws(p, id)
  }

  /** Where the code can die: it does not get past a file that throws, nor past its append. */
  predicate CrashPoint(h: Hashes, w: World, order: seq<Id>, k: nat, stage: Stage) {
    var p := PlanOf(h, w, QUIET);
    && k <= RecoveryScan.FirstThrow(p, order)
    && (stage.SignalAppended? && k < |order| ==> !RecoveryScan.Throws(p, order[k]))
  }

  lemma ReportsIffClean(h: Hashes, w: World, order: seq<Id>)
    requires Listing(w.files, order)
    ensures RecoveryScan.OutcomeOf(h, w, QUIET, order).report.Some? <==> Clean(PlanOf(h, w, QUIET))
    ensures !Clean(PlanOf(h, w, QUIET)) ==> RecoveryScan.FirstThrow(PlanOf(h, w, QUIET), order) < |order|
  {
    hide PlanOf, WorldAfter, ReportOf, RecoveryScan.Throws, RecoveryScan.ThrownDisk;
    var p := PlanOf(h, w, QUIET);
    var k := RecoveryScan.FirstThrow(p, order);
    forall id | id in p.verdicts ensures exists j :: 0 <= j < |order| && order[j] == id {
      assert id in (set x | x in order);
    }
    if k < |order| { assert order[k] in (set x | x in order); }
  }

  /** A file throws after a crash if and only if it threw before. */
  lemma ThrowsStay(h: Hashes, w: World, order: seq<Id>, k: nat, stage: Stage, id: Id)
    requires Listing(w.files, order) && k <= |order| && CrashPoint(h, w, order, k, stage)
    ensures RecoveryScan.Throws(PlanOf(h, CrashedDisk(h, w, order, k, stage), QUIET), id) <==> RecoveryScan.Throws(PlanOf(h, w, QUIET), id)
    ensures RecoveryScan.Throws(PlanOf(h, w, QUIET), id) ==> id in CrashedDisk(h, w, order, k, stage).files
  {
    hide PlanOf, CrashedDisk, RecoveredEntry, CanAppend;
    var p, c := PlanOf(h, w, QUIET), CrashedDisk(h, w, order, k, stage);
    CrashedFiles(h, w, order, k, stage);
    if RecoveryScan.Throws(p, id) {
      assert id !in order[..k] by { assert forall j :: 0 <= j < k ==> !RecoveryScan.Throws(p, order[j]); }
    }
    if id in c.files {
      CrashedVerdict(h, w, order, k, stage, id);
      SameFileSameIntent(w, c, id);
      RecoveryScan.PlanAt(h, w, QUIET, id);
      RecoveryScan.PlanAt(h, c, QUIET, id);
    }
  }

  lemma CleanStays(h: Hashes, w: World, order: seq<Id>, k: nat, stage: Stage)
    requires Listing(w.files, order) && k <= |order| && CrashPoint(h, w, order, k, stage)
    ensures Clean(PlanOf(h, CrashedDisk(h, w, order, k, stage), QUIET)) <==> Clean(PlanOf(h, w, QUIET))
  {
    hide PlanOf, CrashedDisk, CrashPoint;
    var p, q := PlanOf(h, w, QUIET), PlanOf(h, CrashedDisk(h, w, order, k, stage), QUIET);
    forall id ensures RecoveryScan.Throws(q, id) <==> RecoveryScan.Throws(p, id) { ThrowsStay(h, w, order, k, stage, id); }
  }

  /** Kill a quiet scan anywhere the code can die, and run it again over whatever listing the
      directory then has. The re-run reports if and only if no file of the plan throws. Then the
      files left and every operation's entries are those of the uninterrupted scan, and the report
      is the same apart from `completed` and `aborted`; with `k == |order|` this is plain
      re-running. Otherwise every throwing file is still there. */
  lemma CrashAndRerunConverges(h: Hashes, w: World, order: seq<Id>, k: nat, stage: Stage, again: seq<Id>)
    requires Listing(w.files, order) && k <= |order| && CrashPoint(h, w, order, k, stage)
    requires Listing(CrashedDisk(h, w, order, k, stage).files, again)
    ensures var once := RecoveryScan.OutcomeOf(h, w, QUIET, order);
      var twice := RecoveryScan.OutcomeOf(h, CrashedDisk(h, w, order, k, stage), QUIET, again);
      && (once.report.Some? <==> Clean(PlanOf(h, w, QUIET))) && (twice.report.Some? <==> Clean(PlanOf(h, w, QUIET)))
      && (twice.report.Some? ==>
            && twice.disk.files == once.disk.files
            && (forall id :: EntriesOf(twice.disk.log, id) == EntriesOf(once.disk.log, id))
            && twice.report.value.(completed := once.report.value.completed, aborted := once.report.value.aborted) == once.report.value)
      && (forall id :: RecoveryScan.Throws(PlanOf(h, w, QUIET), id) ==> id in twice.disk.files)
  {
    hide PlanOf, CrashedDisk, CrashPoint, WorldAfter, ReportOf, RecoveryScan.Throws;
    var c := CrashedDisk(h, w, order, k, stage);
    ReportsIffClean(h, w, order);
    ReportsIffClean(h, c, again);
    CleanStays(h, w, order, k, stage);
    WorldsConverge(h, w, order, k, stage, again);
    forall id | RecoveryScan.Throws(PlanOf(h, w, QUIET), id) ensures id in RecoveryScan.OutcomeOf(h, c, QUIET, again).disk.files {
      ThrowsStay(h, w, order, k, stage, id);
      ThrowingFileStays(h, c, again, id);
    }
  }

  /** Whatever a scan does, a file that throws is there afterwards and throws again. */
  lemma ThrowingFileStays(h: Hashes, w: World, order: seq<Id>, id: Id)
    requires Listing(w.files, order) && RecoveryScan.Throws(PlanOf(h, w, QUIET), id)
    ensures RecoveryScan.OutcomeOf(h, w, QUIET, order).report == None
    ensures id in RecoveryScan.OutcomeOf(h, w, QUIET, order).disk.files
    ensures RecoveryScan.Throws(PlanOf(h, RecoveryScan.OutcomeOf(h, w, QUIET, order).disk, QUIET), id)
  {
    hide PlanOf, CrashedDisk, WorldAfter, ReportOf, RecoveryScan.Throws, RecoveryScan.ThrownDisk;
    var p := PlanOf(h, w, QUIET);
    ReportsIffClean(h, w, order);
    assert id in p.verdicts by { ThrowsIsVerdict(p, id); }
    var k := RecoveryScan.FirstThrow(p, order);
    ThrownIsCrashed(h, w, order, k);
    ThrowsStay(h, w, order, k, GatePassed, id);
  }

  lemma ThrowsIsVerdict(p: Plan, id: Id)
    requires Sound(p) && RecoveryScan.Throws(p, id)
    ensures id in p.verdicts
  {
  }

  /** A thrown scan throws again at every later start, over every listing. */
  lemma ThrowsAgain(h: Hashes, w: World, order: seq<Id>, again: seq<Id>)
    requires Listing(w.files, order) && RecoveryScan.OutcomeOf(h, w, QUIET, order).report == None
    requires Listing(RecoveryScan.OutcomeOf(h, w, QUIET, order).disk.files, again)
    ensures RecoveryScan.OutcomeOf(h, RecoveryScan.OutcomeOf(h, w, QUIET, order).disk, QUIET, again).report == None
  {
    hide PlanOf, RecoveryScan.OutcomeOf, RecoveryScan.Throws;
    ReportsIffClean(h, w, order);
    var id :| id in PlanOf(h, w, QUIET).verdicts && RecoveryScan.Throws(PlanOf(h, w, QUIET), id);
    ThrowingFileStays(h, w, order, id);
    ThrowingFileStays(h, RecoveryScan.OutcomeOf(h, w, QUIET, order).disk, again, id);
  }

  lemma EndIsCrashPoint(h: Hashes, w: World, order: seq<Id>)
    requires RecoveryScan.OutcomeOf(h, w, QUIET, order).report.Some?
    ensures CrashPoint(h, w, order, |order|, BetweenFiles)
  {
  }

  /** Re-running a scan that reported changes nothing at all, reports again, and has nothing to
      complete or abort. */
  lemma RerunIsIdle(h: Hashes, w: World, order: seq<Id>, again: seq<Id>)
    requires Listing(w.files, order) && RecoveryScan.OutcomeOf(h, w, QUIET, order).report.Some?
    requires Listing(RecoveryScan.OutcomeOf(h, w, QUIET, order).disk.files, again)
    ensures var once := RecoveryScan.OutcomeOf(h, w, QUIET, order);
      RecoveryScan.OutcomeOf(h, once.disk, QUIET, again)
      == RecoveryScan.Outcome(once.disk, Some(once.report.value.(completed := {}, aborted := {})))
  {
    hide PlanOf, WorldAfter, ReportOf, RecoveryScan.Throws, CrashedDisk, CrashPoint;
    var once := WorldAfter(h, w, QUIET, order);
    ReportsIffClean(h, w, order);
    FinishedIsCrashedAtEnd(h, w, order);
    EndIsCrashPoint(h, w, order);
    CleanStays(h, w, order, |order|, BetweenFiles);
    ReportsIffClean(h, once, again);
    SecondWorldIsSame(h, w, order, again);
  }

  /** Starts of the scan one after the other, each crashed or thrown out somewhere, or finished. */
  ghost predicate Restarts(h: Hashes, disks: seq<World>, orders: seq<seq<Id>>, ks: seq<nat>, stages: seq<Stage>) {
    && |disks| == |orders| + 1 && |ks| == |stages| == |orders|
    && forall j :: 0 <= j < |orders| ==>
         && Listing(disks[j].files, orders[j]) && ks[j] <= |orders[j]| && CrashPoint(h, disks[j], orders[j], ks[j], stages[j])
         && disks[j + 1] == CrashedDisk(h, disks[j], orders[j], ks[j], stages[j])
  }

  predicate Behind(order: seq<Id>, first: Id, second: Id) {
    forall a, b :: 0 <= a < |order| && 0 <= b < |order| && order[a] == first && order[b] == second ==> a < b
  }

  /** One intent with an empty actor or timestamp blocks recovery for good: over any number of
      restarts its file stays, no scan ever reports, and a file listed behind it is never reached. */
  lemma {:induction false} BlockedForGood(h: Hashes, disks: seq<World>, orders: seq<seq<Id>>, ks: seq<nat>, stages: seq<Stage>, id: Id, x: Id, j: nat)
    requires Restarts(h, disks, orders, ks, stages) && j < |disks|
    requires RecoveryScan.Throws(PlanOf(h, disks[0], QUIET), id)
    requires x in disks[0].files && forall n :: 0 <= n < |orders| ==> Behind(orders[n], id, x)
    ensures RecoveryScan.Throws(PlanOf(h, disks[j], QUIET), id)
    ensures forall again :: Listing(disks[j].files, again) ==> RecoveryScan.OutcomeOf(h, disks[j], QUIET, again).report == None
    ensures x in disks[j].files && disks[j].files[x] == disks[0].files[x]
  {
    hide PlanOf, CrashedDisk, RecoveryScan.OutcomeOf, RecoveryScan.Throws, CrashPoint;
    if j > 0 {
      BlockedForGood(h, disks, orders, ks, stages, id, x, j - 1);
      assert disks[j - 1 + 1] == CrashedDisk(h, disks[j - 1], orders[j - 1], ks[j - 1], stages[j - 1]);
      ThrowsStay(h, disks[j - 1], orders[j - 1], ks[j - 1], stages[j - 1], id);
      NotReached(h, disks[j - 1], orders[j - 1], ks[j - 1], stages[j - 1], id, x);
    }
    forall again | Listing(disks[j].files, again) ensures RecoveryScan.OutcomeOf(h, disks[j], QUIET, again).report == None {
      ThrowingFileStays(h, disks[j], again, id);
    }
  }

  lemma NotReached(h: Hashes, w: World, order: seq<Id>, k: nat, stage: Stage, id: Id, x: Id)
    requires Listing(w.files, order) && k <= |order| && CrashPoint(h, w, order, k, stage)
    requires RecoveryScan.Throws(PlanOf(h, w, QUIET), id) && x in w.files && Behind(order, id, x)
    ensures var c := CrashedDisk(h, w, order, k, stage); x in c.files && c.files[x] == w.files[x]
  {
    hide PlanOf, CrashedDisk, RecoveryScan.Throws;
    var p := PlanOf(h, w, QUIET);
    CrashedFiles(h, w, order, k, stage);
    ThrowsIsVerdict(p, id);
    assert id in (set y | y in order);
    var a :| 0 <= a < |order| && order[a] == id;
    assert k <= a;
    assert x !in order[..k];
  }

  // ---- Partial views -----------------------------------------------------------------------

  /** What a scan sees that was not given the claim log or the wiki. */
  function Partial(w: World, claims: bool, pages: bool): World {
    w.(versions := if claims then w.versions else [], pages := if pages then w.pages else [])
  }

  /** OBSERVE and its retries scan with the evidence alone. An operation that a full scan finalizes is
      dropped by such a scan, its intent removed although its artifact is there, if and only if it is
      a prepared REFLECT claim; any other kind is finalized, or waits for a scan that sees it. */
  lemma PartialScanDropsIff(h: Hashes, w: World, id: Id)
    requires id in w.files && VerdictOf(h, w, QUIET, id) == Finalize
    ensures var v := VerdictOf(h, Partial(w, false, false), QUIET, id);
      && (v == Abort <==> ReadIntent(w, id).value.ReflectIntent?)
      && (v != Abort ==> v == Wait || v == Finalize)
  {
    hide IsExactAudit, IsExactVersion, IsExactRevise, WellFormed, ValidOperationId;
  }
}
