/** Commit and recovery under fencing as one state machine: writers, epoch claims, any number of
    recovery scans of any number of processes, with and without the fence, and crashes interleave
    step by step. A scan is not atomic: everything else falls between its gate, its append and its
    removal. */
module CommitProtocol {
  import opened Evidence
  import opened OpsLog
  import opened Exactness
  import opened Recovery

  /** What a caller gives a scan: the fence or not, the claim log or not, the wiki or not. */
  datatype View = View(fenced: bool, claims: bool, pages: bool)

  /** A scan in progress. `snapshot` and `mark` were read when it started. */
  datatype Scan = Scan(snapshot: World, mark: nat, fenced: bool, todo: seq<Id>, gated: Option<Intent>, appended: bool)

  /** `disk` survives a crash. `passed` are operations whose writer is past the gate but has not
      appended its signal. `recordedAt` and `legacy` are history: the mark in force when an
      authorization row was written, and the mark that the gate had read when it let an unstamped
      operation through without a row. */
  datatype Sys = Sys(
    disk: World,
    fence: Fence,
    passed: set<Id>,
    scans: map<nat, Scan>,
    recordedAt: map<Id, nat>,
    legacy: map<Id, nat>)

  datatype Action =
    | ClaimEpoch(token: int)
    | Persist(intent: Intent)
    | WriteObservation(observation: Observation)
    | WriteVersion(version: ClaimVersion)
    | WritePage(page: Page)
    | WriterGate(ids: set<Id>, stamp: Option<Stamp>)
    | WriterAppend(entry: Entry)
    | UnfencedAppend(entry: Entry)                        // a writer that was given no fence
    | WriterRemove(id: Id)
    | Crash(gone: set<nat>, lost: set<Id>)                // some scans and some writers die
    | ScanStart(n: nat, order: seq<Id>, view: View)
    | ScanFile(n: nat)        // decide on the next file; pass or fail the gate if it is to be finalized
    | ScanAppend(n: nat)      // the signal of the gated file
    | ScanRemove(n: nat)      // its intent

  function Noted(m: map<Id, nat>, ids: set<Id>, mark: nat): map<Id, nat> {
    m + map id | id in ids :: mark
  }

  /** `persistOperationIntent`: refuses a different intent under a taken id unless the identity matches. */
  predicate MayPersist(files: map<Id, Option<Intent>>, i: Intent) {
    && WellFormed(i)
    && var id := i.common.operationId;
       id in files ==>
         && files[id].Some?
         && var was := files[id].value;
            was == i || (OpOf(was) == OpOf(i) && was.common.actorId == i.common.actorId && was.common.payloadHash == i.common.payloadHash)
  }

  function Seen(disk: World, fence: Fence, view: View): World {
    disk.(fence := if view.fenced then Some(fence) else None,
          versions := if view.claims then disk.versions else [],
          pages := if view.pages then disk.pages else [])
  }

  function Put(s: Sys, n: nat, scan: Scan): Sys { s.(scans := s.scans[n := scan]) }

  /** One step, or `None` when the step is not possible. An append that throws is no step: the scan
      or the writer can only crash then. */
  function Step(h: Hashes, s: Sys, a: Action): Option<Sys> {
    match a
    case ClaimEpoch(token) =>
      var f := Claim(s.fence, token);
      if f.None? then None else Some(s.(fence := f.value))
    case Persist(i) =>
      if !MayPersist(s.disk.files, i) then None
      else Some(s.(disk := s.disk.(files := s.disk.files[i.common.operationId := Some(i)])))
    case WriteObservation(o) => Some(s.(disk := s.disk.(observations := s.disk.observations + [o])))
    case WriteVersion(v) => Some(s.(disk := s.disk.(versions := s.disk.versions + [v])))
    case WritePage(p) => Some(s.(disk := s.disk.(pages := s.disk.pages + [p])))
    case WriterGate(ids, stamp) => WriterPasses(s, ids, stamp)
    case WriterAppend(e) =>
      if e.operationId !in s.passed || !CanAppend(e) then None
      else Some(s.(disk := s.disk.(log := s.disk.log + [e]), passed := s.passed - {e.operationId}))
    case UnfencedAppend(e) => if !CanAppend(e) then None else Some(s.(disk := s.disk.(log := s.disk.log + [e])))
    case WriterRemove(id) => Some(s.(disk := s.disk.(files := s.disk.files - {id})))
    case Crash(gone, lost) => Some(s.(passed := s.passed - lost, scans := s.scans - gone))
    case ScanStart(n, order, view) =>
      if n in s.scans || !Listing(s.disk.files, order) then None
      else Some(Put(s, n, Scan(Seen(s.disk, s.fence, view), if view.fenced then s.fence.highWater else 0, view.fenced, order, None, false)))
    case ScanFile(n) =>
      if n !in s.scans || s.scans[n].todo == [] || s.scans[n].gated.Some? then None else Some(ScanOne(h, s, n))
    case ScanAppend(n) =>
      if n !in s.scans || s.scans[n].gated.None? || s.scans[n].appended || !CanAppend(RecoveredEntry(s.scans[n].gated.value)) then None
      else Some(Put(s.(disk := s.disk.(log := s.disk.log + [RecoveredEntry(s.scans[n].gated.value)])), n, s.scans[n].(appended := true)))
    case ScanRemove(n) =>
      if n !in s.scans || s.scans[n].gated.None? || !s.scans[n].appended then None
      else Some(Put(s.(disk := s.disk.(files := s.disk.files - {s.scans[n].gated.value.common.operationId})),
                    n, s.scans[n].(gated := None, appended := false)))
  }

  function WriterPasses(s: Sys, ids: set<Id>, stamp: Option<Stamp>): Option<Sys> {
    var f := GuardCommit(s.fence, ids, stamp);
    if f.None? then None
    else if stamp.None? then Some(s.(passed := s.passed + ids, legacy := Noted(s.legacy, ids, s.fence.highWater)))
    else Some(s.(fence := f.value, passed := s.passed + ids, recordedAt := Noted(s.recordedAt, ids - s.fence.rows.Keys, f.value.highWater)))
  }

  /** The fence as this scan has it. */
  function Live(s: Sys, scan: Scan): Option<Fence> { if scan.fenced then Some(s.fence) else None }

  /** The next file of the scan. */
  function ScanOne(h: Hashes, s: Sys, n: nat): (t: Sys)
    requires n in s.scans && s.scans[n].todo != []
    ensures n in t.scans
  {
    var scan := s.scans[n];
    var id := scan.todo[0];
    var rest := scan.(todo := scan.todo[1..]);
    if id !in scan.snapshot.files || ReadIntent(scan.snapshot, id).None? then Put(s, n, rest)
    else
      var i := ReadIntent(scan.snapshot, id).value;
      match Decide(h, scan.snapshot, Live(s, scan), i)
      case Finalize =>
        var f := Gate(scan.mark, Live(s, scan), i);
        if f.None? then Put(s, n, rest)                     // stale after all: rejected
        else PassScan(s, n, id, rest.(gated := Some(i), appended := false), f.value)
      case Clear => Put(s.(disk := s.disk.(files := s.disk.files - {id})), n, rest)
      case Abort => Put(s.(disk := s.disk.(files := s.disk.files - {id})), n, rest)
      case _ => Put(s, n, rest)
  }

  /** A scan past the gate: with the fence a row or a legacy note is left, without it nothing. */
  function PassScan(s: Sys, n: nat, id: Id, scan: Scan, f: Option<Fence>): Sys {
    if f.None? then Put(s, n, scan)
    else Put(s.(fence := f.value,
                recordedAt := Noted(s.recordedAt, {id} * (f.value.rows.Keys - s.fence.rows.Keys), s.fence.highWater),
                legacy := if id in f.value.rows then s.legacy else s.legacy[id := scan.mark]), n, scan)
  }

  /** Any run: states linked by steps. */
  ghost predicate Run(h: Hashes, states: seq<Sys>, actions: seq<Action>) {
    && |states| == |actions| + 1
    && forall k :: 0 <= k < |actions| ==> Step(h, states[k], actions[k]) == Some(states[k + 1])
  }

  // ---- Intent files and snapshots ------------------------------------------------------------------

  /** An intent can be written exactly when it is well formed and its name is free, or taken by itself or
      by a readable intent of the same kind, actor and payload. */
  lemma PersistIff(h: Hashes, s: Sys, i: Intent)
    ensures var id := i.common.operationId;
      (Step(h, s, Persist(i)).Some? <==>
        && WellFormed(i)
        && (id !in s.disk.files
            || (s.disk.files[id].Some?
                && (s.disk.files[id].value == i
                    || (OpOf(s.disk.files[id].value) == OpOf(i)
                        && s.disk.files[id].value.common.actorId == i.common.actorId
                        && s.disk.files[id].value.common.payloadHash == i.common.payloadHash)))))
    ensures Step(h, s, Persist(i)).Some? ==>
      Step(h, s, Persist(i)).value == s.(disk := s.disk.(files := s.disk.files[i.common.operationId := Some(i)]))
  {
  }

  predicate OneOperation(i: Intent, j: Intent) {
    OpOf(i) == OpOf(j) && i.common.actorId == j.common.actorId && i.common.payloadHash == j.common.payloadHash
  }

  lemma StepKeepsIdentity(h: Hashes, s: Sys, t: Sys, a: Action, id: Id)
    requires Step(h, s, a) == Some(t) && id in s.disk.files && id in t.disk.files
    ensures s.disk.files[id].None? ==> t.disk.files[id].None?
    ensures s.disk.files[id].Some? ==> t.disk.files[id].Some? && OneOperation(s.disk.files[id].value, t.disk.files[id].value)
  {
    hide ReadIntent, Decide, Gate, RecoveredEntry, Seen;
    if a.Persist? { PersistIff(h, s, a.intent); }
  }

  /** Over any run, for as long as a file stands under the name: what is pending there stays one
      operation of one kind by one actor with one payload, and an unreadable file stays unreadable. */
  lemma {:induction false} PendingIdentityIsKept(h: Hashes, states: seq<Sys>, actions: seq<Action>, id: Id, j: nat, k: nat)
    requires Run(h, states, actions) && j <= k < |states|
    requires forall n :: j <= n <= k ==> id in states[n].disk.files
    ensures states[j].disk.files[id].None? ==> states[k].disk.files[id].None?
    ensures states[j].disk.files[id].Some? ==>
      states[k].disk.files[id].Some? && OneOperation(states[j].disk.files[id].value, states[k].disk.files[id].value)
  {
    hide Step, OneOperation;
    if j < k {
      PendingIdentityIsKept(h, states, actions, id, j, k - 1);
      assert Step(h, states[k - 1], actions[k - 1]) == Some(states[k - 1 + 1]);
      StepKeepsIdentity(h, states[k - 1], states[k], actions[k - 1], id);
      IdentityThen(states[j].disk.files[id], states[k - 1].disk.files[id], states[k].disk.files[id]);
    } else {
      IdentityThen(states[j].disk.files[id], states[j].disk.files[id], states[j].disk.files[id]);
    }
  }

  lemma IdentityThen(a: Option<Intent>, b: Option<Intent>, c: Option<Intent>)
    ensures a.Some? ==> OneOperation(a.value, a.value)
    ensures a.Some? && b.Some? && c.Some? && OneOperation(a.value, b.value) && OneOperation(b.value, c.value) ==> OneOperation(a.value, c.value)
  {
  }

  /** The writer gate and the claim of an epoch. A stamped writer passes when its epoch is positive and not
      behind the mark: the mark moves to it, and each operation gets a row unless it has one. An
      unstamped one passes only a mark of 0 and leaves no row. A claim must be positive and not behind. */
  lemma GateSteps(h: Hashes, s: Sys, ids: set<Id>, stamp: Option<Stamp>, token: int)
    ensures Step(h, s, ClaimEpoch(token)).Some? <==> token >= 1 && token >= s.fence.highWater
    ensures Step(h, s, ClaimEpoch(token)).Some? ==> Step(h, s, ClaimEpoch(token)).value == s.(fence := s.fence.(highWater := token))
    ensures Step(h, s, WriterGate(ids, stamp)).Some? <==>
      if stamp.Some? then stamp.value.epoch >= 1 && stamp.value.epoch >= s.fence.highWater else s.fence.highWater == 0
    ensures Step(h, s, WriterGate(ids, stamp)).Some? ==>
      var t := Step(h, s, WriterGate(ids, stamp)).value;
      && t.passed == s.passed + ids && t.disk == s.disk && t.scans == s.scans
      && (stamp.None? ==> t.fence == s.fence)
      && (stamp.Some? ==>
            && t.fence.highWater == stamp.value.epoch && t.fence.rows.Keys == s.fence.rows.Keys + ids
            && forall id :: id in t.fence.rows ==> t.fence.rows[id] == if id in s.fence.rows then s.fence.rows[id] else stamp.value)
  {
  }

  /** An entry can be appended when it names an actor and a time: by a writer with the fence once for every
      operation it was let through with, by one without the fence always. Nothing else changes. */
  lemma AppendSteps(h: Hashes, s: Sys, e: Entry)
    ensures Step(h, s, WriterAppend(e)).Some? <==> e.operationId in s.passed && e.actorId != "" && e.timestamp != ""
    ensures Step(h, s, WriterAppend(e)).Some? ==>
      && Step(h, s, WriterAppend(e)).value == s.(disk := s.disk.(log := s.disk.log + [e]), passed := s.passed - {e.operationId})
      && Step(h, Step(h, s, WriterAppend(e)).value, WriterAppend(e)).None?
    ensures Step(h, s, UnfencedAppend(e)).Some? <==> e.actorId != "" && e.timestamp != ""
    ensures Step(h, s, UnfencedAppend(e)).Some? ==>
      Step(h, s, UnfencedAppend(e)).value == s.(disk := s.disk.(log := s.disk.log + [e]))
  {
  }

  /** A scan can start under a free number over any listing of the intent files. It has before it what
      stood on disk: the log, the files and the observations always, claim versions and pages where it is
      given them, and the fence and its mark where it holds one. */
  lemma ScanSees(h: Hashes, s: Sys, n: nat, order: seq<Id>, view: View)
    ensures Step(h, s, ScanStart(n, order, view)).Some? <==> n !in s.scans && Listing(s.disk.files, order)
    ensures Step(h, s, ScanStart(n, order, view)).Some? ==>
      var t := Step(h, s, ScanStart(n, order, view)).value;
      && n in t.scans && t == s.(scans := s.scans[n := t.scans[n]])
      && t.scans[n].todo == order && t.scans[n].gated.None? && t.scans[n].fenced == view.fenced
      && t.scans[n].snapshot.log == s.disk.log && t.scans[n].snapshot.files == s.disk.files
      && t.scans[n].snapshot.observations == s.disk.observations
      && (view.claims ==> t.scans[n].snapshot.versions == s.disk.versions)
      && (!view.claims ==> t.scans[n].snapshot.versions == [])
      && (view.pages ==> t.scans[n].snapshot.pages == s.disk.pages)
      && (!view.pages ==> t.scans[n].snapshot.pages == [])
      && (view.fenced ==> t.scans[n].snapshot.fence == Some(s.fence) && t.scans[n].mark == s.fence.highWater)
      && (!view.fenced ==> t.scans[n].snapshot.fence.None? && t.scans[n].mark == 0)
  {
  }

  // ---- The gate ------------------------------------------------------------------------------

  lemma ReadNamesItself(w: World, id: Id)
    requires id in w.files && ReadIntent(w, id).Some?
    ensures ReadIntent(w, id).value.common.operationId == id
    ensures var stamp := ReadIntent(w, id).value.common.stamp; stamp.Some? ==> stamp.value.epoch >= 1
  {
  }

  lemma ReadFrame(a: World, b: World, id: Id)
    requires id in a.files && id in b.files && a.files[id] == b.files[id]
    ensures ReadIntent(a, id) == ReadIntent(b, id)
  {
  }

  lemma GateRows(i: Intent, f: Fence, mark: nat)
    requires Gate(mark, Some(f), i).Some?
    ensures Gate(mark, Some(f), i).value.Some?
    ensures Gate(mark, Some(f), i).value.value.highWater == f.highWater
    ensures var rows, id := Gate(mark, Some(f), i).value.value.rows, i.common.operationId;
      && f.rows.Keys <= rows.Keys <= f.rows.Keys + {id}
      && (forall x :: x in f.rows ==> rows[x] == f.rows[x])
      && (id in rows && id !in f.rows ==> f.highWater <= rows[id].epoch)
      && (id !in rows <==> i.common.stamp.None? && id !in f.rows)
      && (id !in rows ==> mark == 0)
  {
  }

  /** Raising the mark never opens the recovery gate. */
  lemma GateMonotone(i: Intent, f: Fence, g: Fence, mark: nat)
    requires f.highWater <= g.highWater && (i.common.operationId in f.rows <==> i.common.operationId in g.rows)
    ensures Gate(mark, Some(g), i).Some? ==> Gate(mark, Some(f), i).Some?
    ensures f.highWater == g.highWater ==> (Gate(mark, Some(f), i).Some? <==> Gate(mark, Some(g), i).Some?)
  {
  }

  lemma DecideFrame(h: Hashes, w: World, f: Fence, g: Fence, i: Intent)
    requires i.common.operationId in f.rows <==> i.common.operationId in g.rows
    ensures Decide(h, w, Some(f), i) == Decide(h, w, Some(g), i)
  {
    hide Uncommitted, CommittedArtifactsExact, ArtifactCount, MatchingCommit;
  }

  // ---- Authorization ---------------------------------------------------------------------

  /** The gate let this operation through: a row, or unstamped on a mark read as 0. */
  predicate LetThrough(s: Sys, id: Id) { id in s.fence.rows || id in s.legacy }

  /** Every committed operation was let through. */
  predicate Authorized(s: Sys) { forall id :: id in CommittedIds(s.disk.log) ==> LetThrough(s, id) }

  predicate ScanOk(s: Sys, scan: Scan) {
    && (scan.fenced && scan.gated.Some? ==> LetThrough(s, scan.gated.value.common.operationId))
    && scan.mark <= s.fence.highWater && HighWater(scan.snapshot.fence) == scan.mark && scan.snapshot.fence.Some? == scan.fenced
    && (scan.appended ==> scan.gated.Some? && scan.gated.value.common.operationId in CommittedIds(s.disk.log))
  }

  predicate RowsOk(s: Sys) {
    && (forall id :: id in s.fence.rows ==>
          id in s.recordedAt && s.recordedAt[id] <= s.fence.rows[id].epoch && s.recordedAt[id] <= s.fence.highWater)
    && (forall id :: id in s.legacy ==> s.legacy[id] == 0)
  }

  /** What holds of every reachable state, whatever steps hold the fence. */
  predicate Base(s: Sys) {
    && (forall id :: id in s.passed ==> LetThrough(s, id))
    && (forall n :: n in s.scans ==> ScanOk(s, s.scans[n]))
    && RowsOk(s)
  }

  predicate Inv(s: Sys) { Authorized(s) && Base(s) }

  /** The step holds the fence, or the operation it commits was let through already. */
  predicate Held(s: Sys, a: Action) {
    match a
    case UnfencedAppend(e) => LetThrough(s, e.operationId)
    case ScanAppend(n) =>
      n in s.scans && s.scans[n].gated.Some? ==> s.scans[n].fenced || LetThrough(s, s.scans[n].gated.value.common.operationId)
    case _ => true
  }

  lemma CommittedGrows(log: seq<Entry>, e: Entry)
    ensures CommittedIds(log + [e]) == CommittedIds(log) + {e.operationId}
  {
    assert (log + [e])[|log|] == e;
    assert forall x :: x in log ==> x in log + [e];
  }

  /** Growing the rows, the notes, the mark and the log keeps a scan in order. */
  lemma ScanStaysOk(s: Sys, t: Sys, scan: Scan)
    requires ScanOk(s, scan) && s.fence.highWater <= t.fence.highWater
    requires forall id :: LetThrough(s, id) ==> LetThrough(t, id)
    requires CommittedIds(s.disk.log) <= CommittedIds(t.disk.log)
    ensures ScanOk(t, scan)
  {
    hide CommittedIds, LetThrough;
  }

  lemma PassKeeps(s: Sys, n: nat, scan: Scan, i: Intent)
    requires Base(s) && n in s.scans && ScanOk(s, scan.(gated := None)) && !scan.appended && scan.gated == Some(i)
    requires Gate(scan.mark, Live(s, scan), i).Some?
    ensures var t := PassScan(s, n, i.common.operationId, scan, Gate(scan.mark, Live(s, scan), i).value);
      Base(t) && t.fence.highWater == s.fence.highWater && t.disk == s.disk && (forall id :: LetThrough(s, id) ==> LetThrough(t, id))
  {
    hide CommittedIds, Gate, HighWater;
    var f, id := Gate(scan.mark, Live(s, scan), i).value, i.common.operationId;
    var t := PassScan(s, n, id, scan, f);
    if scan.fenced {
      GateRows(i, s.fence, scan.mark);
      assert forall x :: LetThrough(s, x) ==> LetThrough(t, x);
      assert LetThrough(t, id);
      PassKeepsRows(s, n, scan, i);
    } else {
      GateUnfenced(scan.mark, i);
    }
    forall m | m in t.scans ensures ScanOk(t, t.scans[m]) {
      if m != n { ScanStaysOk(s, t, s.scans[m]); }
    }
  }

  lemma GateUnfenced(mark: nat, i: Intent)
    ensures Gate(mark, None, i) == Some(None)
  {
  }

  lemma PassKeepsRows(s: Sys, n: nat, scan: Scan, i: Intent)
    requires RowsOk(s) && scan.fenced && Gate(scan.mark, Some(s.fence), i).Some?
    ensures RowsOk(PassScan(s, n, i.common.operationId, scan, Gate(scan.mark, Some(s.fence), i).value))
  {
    hide Gate;
    GateRows(i, s.fence, scan.mark);
  }

  lemma ScanOneKeepsBase(h: Hashes, s: Sys, n: nat)
    requires Base(s) && n in s.scans && s.scans[n].todo != [] && s.scans[n].gated.None?
    ensures var t := ScanOne(h, s, n);
      Base(t) && t.fence.highWater == s.fence.highWater && t.disk.log == s.disk.log && (forall id :: LetThrough(s, id) ==> LetThrough(t, id))
  {
    hide Decide, ReadIntent, Gate, CommittedIds, PassScan, RowsOk, HighWater;
    var scan, at, t := s.scans[n], s.scans[n].todo[0], ScanOne(h, s, n);
    var rest := scan.(todo := scan.todo[1..]);
    if at in scan.snapshot.files && ReadIntent(scan.snapshot, at).Some? {
      var i := ReadIntent(scan.snapshot, at).value;
      ReadNamesItself(scan.snapshot, at);
      if Decide(h, scan.snapshot, Live(s, scan), i) == Finalize && Gate(scan.mark, Live(s, scan), i).Some? {
        PassKeeps(s, n, rest.(gated := Some(i), appended := false), i);
        return;
      }
    }
    ScanSkips(h, s, n);
  }

  /** A file that is not let through the gate changes no more than the scan and the intent files. */
  lemma ScanSkips(h: Hashes, s: Sys, n: nat)
    requires Base(s) && n in s.scans && s.scans[n].todo != [] && s.scans[n].gated.None?
    requires var scan, at := s.scans[n], s.scans[n].todo[0];
      at in scan.snapshot.files && ReadIntent(scan.snapshot, at).Some? ==>
        var i := ReadIntent(scan.snapshot, at).value;
        Decide(h, scan.snapshot, Live(s, scan), i) != Finalize || Gate(scan.mark, Live(s, scan), i).None?
    ensures var t := ScanOne(h, s, n);
      && t == Put(s.(disk := s.disk.(files := t.disk.files)), n, s.scans[n].(todo := s.scans[n].todo[1..])) && Base(t)
      && t.disk.files.Keys <= s.disk.files.Keys && forall x :: x in t.disk.files ==> t.disk.files[x] == s.disk.files[x]
  {
    hide Decide, ReadIntent, Gate, CommittedIds, PassScan, HighWater;
    var t := ScanOne(h, s, n);
    forall m | m in t.scans ensures ScanOk(t, t.scans[m]) {
      if m != n { ScanStaysOk(s, t, s.scans[m]); }
    }
  }

  lemma WriterPassesKeeps(s: Sys, ids: set<Id>, stamp: Option<Stamp>)
    requires Base(s) && WriterPasses(s, ids, stamp).Some?
    ensures var t := WriterPasses(s, ids, stamp).value;
      && Base(t) && t.disk == s.disk && s.fence.highWater <= t.fence.highWater
      && (forall id :: LetThrough(s, id) ==> LetThrough(t, id))
      && t.fence.rows.Keys <= s.fence.rows.Keys + ids && t.scans == s.scans && t.passed == s.passed + ids
      && forall id :: id in s.fence.rows ==> id in t.fence.rows
  {
    hide CommittedIds, HighWater;
    var t := WriterPasses(s, ids, stamp).value;
    forall m | m in t.scans ensures ScanOk(t, t.scans[m]) { ScanStaysOk(s, t, s.scans[m]); }
  }

  /** Every step keeps the base, raises or keeps the mark, and only adds to the log. */
  lemma StepKeepsBase(h: Hashes, s: Sys, a: Action)
    requires Base(s) && Step(h, s, a).Some?
    ensures var t := Step(h, s, a).value;
      && Base(t) && s.fence.highWater <= t.fence.highWater && s.disk.log <= t.disk.log
      && (forall id :: LetThrough(s, id) ==> LetThrough(t, id))
  {
    hide ScanOne, WellFormed, RecoveredEntry, MayPersist, Listing, CommittedIds, WriterPasses, CanAppend, LetThrough;
    var t := Step(h, s, a).value;
    match a {
      case ScanFile(n) => ScanOneKeepsBase(h, s, n);
      case WriterGate(ids, stamp) => WriterPassesKeeps(s, ids, stamp);
      case WriterAppend(e) => AppendKeepsBase(s, t, e); SameLet(s, t);
      case UnfencedAppend(e) => AppendKeepsBase(s, t, e); SameLet(s, t);
      case ScanAppend(n) => ScanAppendKeepsBase(h, s, n); SameLet(s, t);
      case _ => PlainKeepsBase(h, s, a);
    }
  }

  lemma AppendKeepsBase(s: Sys, t: Sys, e: Entry)
    requires Base(s) && t == s.(disk := s.disk.(log := s.disk.log + [e]), passed := t.passed) && t.passed <= s.passed
    ensures Base(t)
  {
    hide CommittedIds, HighWater;
    CommittedGrows(s.disk.log, e);
    forall m | m in t.scans ensures ScanOk(t, t.scans[m]) { ScanStaysOk(s, t, s.scans[m]); }
  }

  lemma ScanAppendKeepsBase(h: Hashes, s: Sys, n: nat)
    requires Base(s) && Step(h, s, ScanAppend(n)).Some?
    ensures Base(Step(h, s, ScanAppend(n)).value)
  {
    hide CommittedIds, HighWater, RecoveredEntry;
    var t, e := Step(h, s, ScanAppend(n)).value, RecoveredEntry(s.scans[n].gated.value);
    CommittedGrows(s.disk.log, e);
    forall m | m in t.scans ensures ScanOk(t, t.scans[m]) { ScanStaysOk(s, t, s.scans[m]); }
  }

  lemma PlainKeepsBase(h: Hashes, s: Sys, a: Action)
    requires Base(s) && Step(h, s, a).Some?
    requires !a.ScanFile? && !a.WriterGate? && !a.WriterAppend? && !a.UnfencedAppend? && !a.ScanAppend?
    ensures Base(Step(h, s, a).value) && s.fence.highWater <= Step(h, s, a).value.fence.highWater
    ensures s.disk.log == Step(h, s, a).value.disk.log
    ensures forall id :: LetThrough(s, id) <==> LetThrough(Step(h, s, a).value, id)
  {
    hide CommittedIds, RecoveredEntry, MayPersist, Listing, ScanOk, RowsOk;
    var t := Step(h, s, a).value;
    assert RowsOk(t) by { RowsFrame(s, t); }
    forall m | m in t.scans ensures ScanOk(t, t.scans[m]) {
      if m in s.scans && t.scans[m] == s.scans[m] { ScanStaysOk(s, t, s.scans[m]); } else { MovedScan(h, s, a, m); }
    }
  }

  lemma RowsFrame(s: Sys, t: Sys)
    requires RowsOk(s) && t.fence.rows == s.fence.rows && t.legacy == s.legacy && t.recordedAt == s.recordedAt && s.fence.highWater <= t.fence.highWater
    ensures RowsOk(t)
  {
  }

  /** A scan that starts, or has removed its intent. */
  lemma MovedScan(h: Hashes, s: Sys, a: Action, m: nat)
    requires Base(s) && Step(h, s, a).Some? && (a.ScanStart? || a.ScanRemove?) && m == a.n
    ensures m in Step(h, s, a).value.scans && ScanOk(Step(h, s, a).value, Step(h, s, a).value.scans[m])
  {
    hide CommittedIds, RecoveredEntry, Listing;
  }

  /** From an authorized state a step leaves an authorized state if and only if it holds the fence, or
      the operation it commits was let through already. */
  lemma StepKeepsInvIff(h: Hashes, s: Sys, a: Action)
    requires Inv(s) && Step(h, s, a).Some?
    ensures Inv(Step(h, s, a).value) <==> Held(s, a)
  {
    hide Base, ScanOne, WellFormed, RecoveredEntry, MayPersist, Listing, CommittedIds, WriterPasses, LetThrough, CanAppend;
    StepKeepsBase(h, s, a);
    var t := Step(h, s, a).value;
    match a {
      case WriterAppend(e) => CommittedGrows(s.disk.log, e); PassedWasLet(s, e.operationId);
      case UnfencedAppend(e) => CommittedGrows(s.disk.log, e); SameLet(s, t);
      case ScanAppend(n) =>
        CommittedGrows(s.disk.log, RecoveredEntry(s.scans[n].gated.value));
        SameLet(s, t);
        GatedWasLet(s, n);
      case ScanFile(n) => ScanOneKeepsBase(h, s, n);
      case WriterGate(ids, stamp) => WriterPassesKeeps(s, ids, stamp);
      case _ => PlainKeepsBase(h, s, a);
    }
  }

  lemma SameLet(s: Sys, t: Sys)
    requires t.fence == s.fence && t.legacy == s.legacy
    ensures forall id :: LetThrough(s, id) <==> LetThrough(t, id)
  {
  }

  lemma PassedWasLet(s: Sys, id: Id)
    requires Base(s) && id in s.passed
    ensures LetThrough(s, id)
  {
  }

  lemma GatedWasLet(s: Sys, n: nat)
    requires Base(s)
    ensures n in s.scans && s.scans[n].fenced && s.scans[n].gated.Some? ==> LetThrough(s, s.scans[n].gated.value.common.operationId)
  {
    hide CommittedIds;
  }

  /** Over every run: every state is authorized if and only if every step holds the fence or commits
      what was let through already. */
  lemma RunAuthorizedIff(h: Hashes, states: seq<Sys>, actions: seq<Action>)
    requires Run(h, states, actions) && Inv(states[0])
    ensures (forall k :: 0 <= k < |states| ==> Inv(states[k])) <==> (forall j :: 0 <= j < |actions| ==> Held(states[j], actions[j]))
  {
    hide Step, Inv, Held;
    if forall j :: 0 <= j < |actions| ==> Held(states[j], actions[j]) {
      forall k | 0 <= k < |states| ensures Inv(states[k]) { HeldRunKeepsInv(h, states, actions, k); }
    }
    if forall k :: 0 <= k < |states| ==> Inv(states[k]) {
      forall j | 0 <= j < |actions| ensures Held(states[j], actions[j]) {
        assert Inv(states[j]) && Inv(states[j + 1]);
        StepKeepsInvIff(h, states[j], actions[j]);
      }
    }
  }

  lemma {:induction false} HeldRunKeepsInv(h: Hashes, states: seq<Sys>, actions: seq<Action>, k: nat)
    requires Run(h, states, actions) && Inv(states[0]) && k < |states|
    requires forall j :: 0 <= j < |actions| ==> Held(states[j], actions[j])
    ensures Inv(states[k])
  {
    hide Step, Inv, Held;
    if k > 0 {
      HeldRunKeepsInv(h, states, actions, k - 1);
      assert Step(h, states[k - 1], actions[k - 1]) == Some(states[k - 1 + 1]);
      StepKeepsInvIff(h, states[k - 1], actions[k - 1]);
    }
  }

  lemma {:induction false} RunKeepsBase(h: Hashes, states: seq<Sys>, actions: seq<Action>, k: nat)
    requires Run(h, states, actions) && Base(states[0]) && k < |states|
    ensures Base(states[k]) && states[0].disk.log <= states[k].disk.log && states[0].fence.highWater <= states[k].fence.highWater
  {
    hide Step, Base;
    if k > 0 {
      RunKeepsBase(h, states, actions, k - 1);
      assert Step(h, states[k - 1], actions[k - 1]) == Some(states[k - 1 + 1]);
      StepKeepsBase(h, states[k - 1], actions[k - 1]);
    }
  }

  /** Over every run whose steps hold the fence, with any number of scans: each committed operation
      has an authorization row whose epoch was not behind the mark when the row was written, or was
      let through unstamped by a gate that had read mark 0. The log only grows and the mark only
      rises, in every run. */
  lemma EveryCommitWasAuthorized(h: Hashes, states: seq<Sys>, actions: seq<Action>, k: nat)
    requires Run(h, states, actions) && Inv(states[0]) && k < |states|
    requires forall j :: 0 <= j < |actions| ==> Held(states[j], actions[j])
    ensures forall id :: id in CommittedIds(states[k].disk.log) ==>
      || (id in states[k].legacy && states[k].legacy[id] == 0)
      || (id in states[k].fence.rows && id in states[k].recordedAt && states[k].fence.rows[id].epoch >= states[k].recordedAt[id])
    ensures states[0].disk.log <= states[k].disk.log && states[0].fence.highWater <= states[k].fence.highWater
  {
    hide Step, Held, Run;
    HeldRunKeepsInv(h, states, actions, k);
    RunKeepsBase(h, states, actions, k);
  }

  // ---- Stamped runs ------------------------------------------------------------------------

  predicate StampedFiles(files: map<Id, Option<Intent>>) {
    forall id :: id in files && files[id].Some? ==> files[id].value.common.stamp.Some?
  }

  /** Every writer presents an epoch: nothing unstamped on disk or in a scan. */
  predicate Stamped(s: Sys) {
    && StampedFiles(s.disk.files)
    && (forall n :: n in s.scans ==> StampedFiles(s.scans[n].snapshot.files))
    && s.legacy == map[]
  }

  predicate StampedAction(a: Action) {
    match a
    case Persist(i) => i.common.stamp.Some?
    case WriterGate(_, stamp) => stamp.Some?
    case _ => true
  }

  lemma StampedScanOne(h: Hashes, s: Sys, n: nat)
    requires Stamped(s) && n in s.scans && s.scans[n].todo != []
    ensures Stamped(ScanOne(h, s, n))
  {
    hide Decide, ReadIntent, Gate, StampedFiles, PassScan;
    var scan, at := s.scans[n], s.scans[n].todo[0];
    FewerFiles(s.disk.files, at);
    if at in scan.snapshot.files && ReadIntent(scan.snapshot, at).Some? {
      var i := ReadIntent(scan.snapshot, at).value;
      StampedRead(scan.snapshot, at);
      if Gate(scan.mark, Live(s, scan), i).Some? {
        StampedPass(s, n, at, scan.(todo := scan.todo[1..], gated := Some(i), appended := false), i);
      }
    }
  }

  lemma FewerFiles(files: map<Id, Option<Intent>>, id: Id)
    requires StampedFiles(files)
    ensures StampedFiles(files - {id})
  {
  }

  lemma StampedRead(w: World, id: Id)
    requires StampedFiles(w.files) && id in w.files && ReadIntent(w, id).Some?
    ensures ReadIntent(w, id).value.common.stamp.Some? && ReadIntent(w, id).value.common.operationId == id
  {
  }

  lemma StampedPass(s: Sys, n: nat, id: Id, scan: Scan, i: Intent)
    requires Stamped(s) && StampedFiles(scan.snapshot.files) && i.common.stamp.Some? && i.common.operationId == id
    requires Gate(scan.mark, Live(s, scan), i).Some?
    ensures Stamped(PassScan(s, n, id, scan, Gate(scan.mark, Live(s, scan), i).value))
  {
    hide StampedFiles, Gate;
    if scan.fenced { GateRows(i, s.fence, scan.mark); } else { GateUnfenced(scan.mark, i); }
  }

  lemma StepKeepsStamped(h: Hashes, s: Sys, a: Action)
    requires Stamped(s) && StampedAction(a) && Step(h, s, a).Some?
    ensures Stamped(Step(h, s, a).value)
  {
    hide ScanOne, WellFormed, RecoveredEntry, Listing, MayPersist;
    if a.ScanFile? { StampedScanOne(h, s, a.n); }
  }

  /** On a brain where every writer is stamped and every step holds the fence, every committed
      operation has a row that was written while its epoch was current. */
  lemma {:induction false} StampedCommitsHaveRows(h: Hashes, states: seq<Sys>, actions: seq<Action>, k: nat)
    requires Run(h, states, actions) && Inv(states[0]) && Stamped(states[0]) && k < |states|
    requires forall j :: 0 <= j < |actions| ==> StampedAction(actions[j]) && Held(states[j], actions[j])
    ensures Stamped(states[k])
    ensures forall id :: id in CommittedIds(states[k].disk.log) ==>
      id in states[k].fence.rows && id in states[k].recordedAt && states[k].fence.rows[id].epoch >= states[k].recordedAt[id]
  {
    hide Step, Held, Inv;
    EveryCommitWasAuthorized(h, states, actions, k);
    if k > 0 {
      StampedCommitsHaveRows(h, states, actions, k - 1);
      assert Step(h, states[k - 1], actions[k - 1]) == Some(states[k - 1 + 1]);
      StepKeepsStamped(h, states[k - 1], actions[k - 1]);
    }
  }

  // ---- Stale sets stay out -------------------------------------------------------------------

  /** This scan still has the operation before it, and would let it through. */
  predicate Threat(h: Hashes, s: Sys, scan: Scan, id: Id) {
    && scan.fenced && id in scan.todo && id in scan.snapshot.files && ReadIntent(scan.snapshot, id).Some?
    && var i := ReadIntent(scan.snapshot, id).value;
       Decide(h, scan.snapshot, Some(s.fence), i) == Finalize && Gate(scan.mark, Some(s.fence), i).Some?
  }

  predicate Gated(scan: Scan, id: Id) { scan.gated.Some? && scan.gated.value.common.operationId == id }

  /** Nothing in flight will commit the operation: no writer is past the gate with it, and no scan
      has let it through or still would. */
  predicate NoWayIn(h: Hashes, s: Sys, id: Id) {
    && id !in s.passed
    && forall n :: n in s.scans ==> !Gated(s.scans[n], id) && !Threat(h, s, s.scans[n], id)
  }

  /** This copy of the intent can never pass the recovery gate again. */
  predicate StaleCopy(i: Intent, highWater: nat) {
    match i.common.stamp
    case Some(stamp) => stamp.epoch < highWater
    case None => highWater > 0
  }

  predicate StaleOnDisk(s: Sys, id: Id) {
    id in s.disk.files && ReadIntent(s.disk, id).Some? ==> StaleCopy(ReadIntent(s.disk, id).value, s.fence.highWater)
  }

  /** Nothing on disk or in flight can still commit this operation. */
  predicate Dead(h: Hashes, s: Sys, id: Id) {
    id !in CommittedIds(s.disk.log) && id !in s.fence.rows && StaleOnDisk(s, id) && NoWayIn(h, s, id)
  }

  /** The ways back: the writer gate authorizes the id, its intent is replaced, or a step without the
      fence takes it up. */
  predicate Revives(s: Sys, a: Action, id: Id) {
    match a
    case Persist(i) => i.common.operationId == id
    case WriterGate(ids, _) => id in ids
    case UnfencedAppend(e) => e.operationId == id
    case ScanFile(n) => n in s.scans && !s.scans[n].fenced && s.scans[n].todo != [] && s.scans[n].todo[0] == id
    case _ => false
  }

  /** A scan that does not let the operation through never will. */
  lemma ThreatFades(h: Hashes, s: Sys, t: Sys, scan: Scan, id: Id)
    requires s.fence.highWater <= t.fence.highWater && id !in s.fence.rows && id !in t.fence.rows
    ensures Threat(h, t, scan, id) ==> Threat(h, s, scan, id)
    ensures s.fence.highWater == t.fence.highWater ==> (Threat(h, s, scan, id) <==> Threat(h, t, scan, id))
  {
    hide Decide, Gate, ReadIntent;
    if id in scan.snapshot.files && ReadIntent(scan.snapshot, id).Some? {
      var i := ReadIntent(scan.snapshot, id).value;
      ReadNamesItself(scan.snapshot, id);
      DecideFrame(h, scan.snapshot, s.fence, t.fence, i);
      GateMonotone(i, s.fence, t.fence, scan.mark);
    }
  }

  /** A new scan reads a stale copy and refuses it. */
  lemma FreshScanRefuses(h: Hashes, s: Sys, scan: Scan, id: Id)
    requires StaleOnDisk(s, id) && id !in s.fence.rows && scan.fenced && scan.mark == s.fence.highWater && scan.snapshot.files == s.disk.files
    ensures !Threat(h, s, scan, id)
  {
    hide Decide, ReadIntent;
    if id in s.disk.files && ReadIntent(scan.snapshot, id).Some? {
      ReadFrame(s.disk, scan.snapshot, id);
      ReadNamesItself(s.disk, id);
      StaleCopyRefused(ReadIntent(s.disk, id).value, s.fence, scan.mark);
    }
  }

  lemma StaleCopyRefused(i: Intent, f: Fence, mark: nat)
    requires StaleCopy(i, f.highWater) && i.common.operationId !in f.rows && mark == f.highWater
    ensures Gate(mark, Some(f), i).None?
  {
  }

  lemma StaleStays(s: Sys, t: Sys, id: Id)
    requires StaleOnDisk(s, id) && s.fence.highWater <= t.fence.highWater
    requires id in t.disk.files ==> id in s.disk.files && t.disk.files[id] == s.disk.files[id]
    ensures StaleOnDisk(t, id)
  {
    hide ReadIntent;
    if id in t.disk.files { ReadFrame(s.disk, t.disk, id); }
  }

  /** What a file's turn in a scan means for another operation, or for one it does not let through. */
  lemma ScanOneKeepsDead(h: Hashes, s: Sys, n: nat, id: Id)
    requires Base(s) && Dead(h, s, id) && n in s.scans && s.scans[n].todo != [] && s.scans[n].gated.None?
    requires s.scans[n].fenced || s.scans[n].todo[0] != id
    ensures Dead(h, ScanOne(h, s, n), id)
  {
    hide Base, ScanOne, ReadIntent, Threat, StaleOnDisk, CommittedIds, Passing;
    var scan, t := s.scans[n], ScanOne(h, s, n);
    Turn(h, s, n);
    ScanTurn(h, s, n, id);
    StaleStays(s, t, id);
    forall m | m in t.scans ensures !Gated(t.scans[m], id) && !Threat(h, t, t.scans[m], id) {
      ThreatFades(h, s, t, if m == n then scan else s.scans[m], id);
      if m == n { ShorterTodo(h, t, scan, t.scans[n], id); }
    }
  }

  lemma ShorterTodo(h: Hashes, s: Sys, scan: Scan, rest: Scan, id: Id)
    requires scan.todo != [] && rest.todo == scan.todo[1..]
    requires rest.snapshot == scan.snapshot && rest.mark == scan.mark && rest.fenced == scan.fenced
    ensures Threat(h, s, rest, id) ==> Threat(h, s, scan, id)
  {
    hide Decide, Gate, ReadIntent;
  }

  /** The next file is let through. */
  predicate Passing(h: Hashes, s: Sys, scan: Scan) {
    && scan.todo != [] && scan.todo[0] in scan.snapshot.files && ReadIntent(scan.snapshot, scan.todo[0]).Some?
    && var i := ReadIntent(scan.snapshot, scan.todo[0]).value;
       Decide(h, scan.snapshot, Live(s, scan), i) == Finalize && Gate(scan.mark, Live(s, scan), i).Some?
  }

  /** Same scan, one file further. */
  predicate Further(scan: Scan, now: Scan) {
    && scan.todo != [] && now.todo == scan.todo[1..]
    && now.snapshot == scan.snapshot && now.mark == scan.mark && now.fenced == scan.fenced
  }

  /** One turn: the gated file stands with its row, or only the scan and an intent file move. */
  lemma Turn(h: Hashes, s: Sys, n: nat)
    requires n in s.scans && s.scans[n].todo != [] && s.scans[n].gated.None?
    ensures var t, scan, at := ScanOne(h, s, n), s.scans[n], s.scans[n].todo[0];
      && n in t.scans && Further(scan, t.scans[n])
      && t.scans == s.scans[n := t.scans[n]] && t.disk.log == s.disk.log && t.passed == s.passed
      && t.fence.highWater == s.fence.highWater && s.fence.rows.Keys <= t.fence.rows.Keys <= s.fence.rows.Keys + {at}
      && (forall x :: x in t.disk.files ==> x in s.disk.files && t.disk.files[x] == s.disk.files[x])
      && (Passing(h, s, scan) ==> t.scans[n].gated == ReadIntent(scan.snapshot, at) && !t.scans[n].appended)
      && (!Passing(h, s, scan) ==> t.scans[n].gated == None && t.scans[n].appended == scan.appended && t.fence == s.fence)
  {
    hide Decide, ReadIntent, Gate;
    var scan, at := s.scans[n], s.scans[n].todo[0];
    if Passing(h, s, scan) {
      var i := ReadIntent(scan.snapshot, at).value;
      ReadNamesItself(scan.snapshot, at);
      if scan.fenced { GateRows(i, s.fence, scan.mark); } else { GateUnfenced(scan.mark, i); }
    }
  }

  lemma PassingIsThreat(h: Hashes, s: Sys, scan: Scan)
    requires scan.fenced && scan.todo != []
    ensures Passing(h, s, scan) <==> Threat(h, s, scan, scan.todo[0])
  {
    hide Decide, ReadIntent, Gate;
  }

  /** The facts of one turn that the invariants need. */
  lemma ScanTurn(h: Hashes, s: Sys, n: nat, id: Id)
    requires n in s.scans && s.scans[n].todo != [] && s.scans[n].gated.None? && id !in s.fence.rows && !Threat(h, s, s.scans[n], id)
    requires s.scans[n].fenced || s.scans[n].todo[0] != id
    ensures var t := ScanOne(h, s, n); id !in t.fence.rows && !Gated(t.scans[n], id)
  {
    hide ScanOne, Threat, Passing, ReadIntent, Further;
    var scan, at := s.scans[n], s.scans[n].todo[0];
    Turn(h, s, n);
    if scan.fenced { PassingIsThreat(h, s, scan); }
    if Passing(h, s, scan) { PassingReads(h, s, scan); }
  }

  lemma PassingReads(h: Hashes, s: Sys, scan: Scan)
    requires Passing(h, s, scan)
    ensures var at := scan.todo[0];
      at in scan.snapshot.files && ReadIntent(scan.snapshot, at).Some? && ReadIntent(scan.snapshot, at).value.common.operationId == at
  {
    hide Decide, Gate, ReadIntent;
    ReadNamesItself(scan.snapshot, scan.todo[0]);
  }

  lemma StepKeepsDead(h: Hashes, s: Sys, a: Action, id: Id)
    requires Base(s) && Dead(h, s, id) && Step(h, s, a).Some? && !Revives(s, a, id)
    ensures Dead(h, Step(h, s, a).value, id)
  {
    hide Base, ScanOne, ReadIntent, RecoveredEntry, MayPersist, Listing, Threat, StaleOnDisk, CommittedIds, WriterPasses, CanAppend;
    var t := Step(h, s, a).value;
    match a {
      case ScanFile(n) => ScanOneKeepsDead(h, s, n, id);
      case WriterAppend(e) => CommittedGrows(s.disk.log, e); FlightStays(h, s, t, id);
      case UnfencedAppend(e) => CommittedGrows(s.disk.log, e); FlightStays(h, s, t, id);
      case ScanAppend(n) =>
        CommittedGrows(s.disk.log, RecoveredEntry(s.scans[n].gated.value));
        SameScanThreat(h, s, s.scans[n], t.scans[n], id);
        FlightStays(h, s, t, id);
      case ScanRemove(n) => SameScanThreat(h, s, s.scans[n], t.scans[n], id); FlightStays(h, s, t, id);
      case ScanStart(n, order, view) =>
        if view.fenced { FreshScanRefuses(h, s, t.scans[n], id); } else { UnfencedIsNoThreat(h, s, t.scans[n], id); }
        FlightStays(h, s, t, id);
      case WriterGate(ids, stamp) => WriterPassesKeeps(s, ids, stamp); FlightStays(h, s, t, id);
      case _ => FlightStays(h, s, t, id);
    }
  }

  lemma UnfencedIsNoThreat(h: Hashes, s: Sys, scan: Scan, id: Id)
    requires !scan.fenced
    ensures !Threat(h, s, scan, id)
  {
  }

  lemma SameScanThreat(h: Hashes, s: Sys, scan: Scan, now: Scan, id: Id)
    requires now.snapshot == scan.snapshot && now.mark == scan.mark && now.fenced == scan.fenced && now.todo == scan.todo
    ensures Threat(h, s, now, id) <==> Threat(h, s, scan, id)
  {
    hide Decide, Gate, ReadIntent;
  }

  /** Scans that stay, or were checked against the old fence, are no threat under the new one. */
  lemma FlightStays(h: Hashes, s: Sys, t: Sys, id: Id)
    requires Dead(h, s, id) && id !in CommittedIds(t.disk.log) && id !in t.fence.rows && id !in t.passed
    requires s.fence.highWater <= t.fence.highWater
    requires id in t.disk.files ==> id in s.disk.files && t.disk.files[id] == s.disk.files[id]
    requires forall n :: n in t.scans ==> !Gated(t.scans[n], id) && !Threat(h, s, t.scans[n], id)
    ensures Dead(h, t, id)
  {
    hide Threat, StaleOnDisk, CommittedIds;
    StaleStays(s, t, id);
    forall n | n in t.scans ensures !Threat(h, t, t.scans[n], id) { ThreatFades(h, s, t, t.scans[n], id); }
  }

  /** Runs in which nothing revives the operation. */
  ghost predicate RunWithout(h: Hashes, states: seq<Sys>, actions: seq<Action>, id: Id) {
    Run(h, states, actions) && forall j :: 0 <= j < |actions| ==> !Revives(states[j], actions[j], id)
  }

  /** In every continuation, with any number of scans, a dead operation is never committed unless it
      is revived. */
  lemma {:induction false} StaleRejectedNeverFinalized(h: Hashes, states: seq<Sys>, actions: seq<Action>, id: Id, k: nat)
    requires RunWithout(h, states, actions, id) && Base(states[0]) && Dead(h, states[0], id) && k < |states|
    ensures Dead(h, states[k], id) && id !in CommittedIds(states[k].disk.log)
  {
    hide Step, Base, NoWayIn, StaleOnDisk, Revives;
    if k > 0 {
      StaleRejectedNeverFinalized(h, states, actions, id, k - 1);
      RunKeepsBase(h, states, actions, k - 1);
      assert Step(h, states[k - 1], actions[k - 1]) == Some(states[k - 1 + 1]);
      StepKeepsDead(h, states[k - 1], actions[k - 1], id);
    }
  }

  predicate NeverIn(states: seq<Sys>, id: Id) { forall k :: 0 <= k < |states| ==> id !in CommittedIds(states[k].disk.log) }

  /** The operation is never committed by anything that is not one of the ways back. */
  ghost predicate StaysOut(h: Hashes, s: Sys, id: Id) {
    forall states, actions {:trigger RunWithout(h, states, actions, id)} ::
      RunWithout(h, states, actions, id) && states[0] == s ==> NeverIn(states, id)
  }

  lemma ComesInBefore(h: Hashes, s: Sys, a: Action, t: Sys, id: Id)
    requires Step(h, s, a) == Some(t) && !Revives(s, a, id) && !StaysOut(h, t, id)
    ensures !StaysOut(h, s, id)
  {
    hide Step, Revives, CommittedIds;
    var states: seq<Sys>, actions: seq<Action> :| RunWithout(h, states, actions, id) && states[0] == t && !NeverIn(states, id);
    var k :| 0 <= k < |states| && id in CommittedIds(states[k].disk.log);
    var longer, more := [s] + states, [a] + actions;
    forall j | 0 <= j < |more| ensures Step(h, longer[j], more[j]) == Some(longer[j + 1]) && !Revives(longer[j], more[j], id) {
      if j > 0 { assert Step(h, states[j - 1], actions[j - 1]) == Some(states[j - 1 + 1]) && !Revives(states[j - 1], actions[j - 1], id); }
    }
    assert RunWithout(h, longer, more, id) && longer[0] == s && longer[k + 1] == states[k];
  }

  lemma ComesInNow(h: Hashes, s: Sys, id: Id)
    requires id in CommittedIds(s.disk.log)
    ensures !StaysOut(h, s, id)
  {
    hide CommittedIds;
    assert RunWithout(h, [s], [], id) && [s][0] == s;
    assert !NeverIn([s], id) by { assert [s][0] == s; }
  }

  /** A writer past the gate still appends. */
  lemma PassedComesIn(h: Hashes, s: Sys, id: Id)
    requires id in s.passed
    ensures !StaysOut(h, s, id)
  {
    hide StaysOut;
    var e := Entry(id, "actor", "now", OpObserve, NO_DETAILS);
    var t := Step(h, s, WriterAppend(e)).value;
    CommittedGrows(s.disk.log, e);
    ComesInNow(h, t, id);
    ComesInBefore(h, s, WriterAppend(e), t, id);
  }

  /** So does a scan past the gate. */
  lemma GatedComesIn(h: Hashes, s: Sys, n: nat, id: Id)
    requires n in s.scans && Gated(s.scans[n], id) && !s.scans[n].appended && CanAppend(RecoveredEntry(s.scans[n].gated.value))
    ensures !StaysOut(h, s, id)
  {
    hide StaysOut, RecoveredEntry;
    var t := Step(h, s, ScanAppend(n)).value;
    CommittedGrows(s.disk.log, RecoveredEntry(s.scans[n].gated.value));
    ComesInNow(h, t, id);
    ComesInBefore(h, s, ScanAppend(n), t, id);
  }

  /** The intents this scan has before it, or has gated, can be signalled. */
  predicate Signals(scan: Scan) {
    && (forall x :: x in scan.snapshot.files && ReadIntent(scan.snapshot, x).Some? ==> CanAppend(RecoveredEntry(ReadIntent(scan.snapshot, x).value)))
    && (scan.gated.Some? ==> CanAppend(RecoveredEntry(scan.gated.value)))
  }

  function Ahead(scan: Scan): nat {
    3 * |scan.todo| + if scan.gated.None? then 0 else if scan.appended then 1 else 2
  }

  /** A scan that would let the operation through works its way to it. */
  lemma {:induction false} ThreatComesIn(h: Hashes, s: Sys, n: nat, id: Id)
    requires n in s.scans && Threat(h, s, s.scans[n], id) && Signals(s.scans[n]) && id !in s.fence.rows
    requires s.scans[n].appended ==> s.scans[n].gated.Some?
    ensures !StaysOut(h, s, id)
    decreases Ahead(s.scans[n])
  {
    hide StaysOut, RecoveredEntry, CanAppend, Decide, Gate, ReadIntent;
    var scan := s.scans[n];
    if scan.gated.Some? && !scan.appended {
      var t := Step(h, s, ScanAppend(n)).value;
      SameScanThreat(h, s, scan, t.scans[n], id);
      ThreatFades(h, s, t, t.scans[n], id);
      ThreatComesIn(h, t, n, id);
      ComesInBefore(h, s, ScanAppend(n), t, id);
    } else if scan.gated.Some? {
      var t := Step(h, s, ScanRemove(n)).value;
      SameScanThreat(h, s, scan, t.scans[n], id);
      ThreatFades(h, s, t, t.scans[n], id);
      ThreatComesIn(h, t, n, id);
      ComesInBefore(h, s, ScanRemove(n), t, id);
    } else {
      ThreatTurn(h, s, n, id);
      var t := Step(h, s, ScanFile(n)).value;
      if scan.todo[0] == id {
        GatedComesIn(h, t, n, id);
      } else {
        ThreatComesIn(h, t, n, id);
      }
      ComesInBefore(h, s, ScanFile(n), t, id);
    }
  }

  /** One turn of such a scan: it lets the operation through, or comes one file nearer to it. */
  lemma ThreatTurn(h: Hashes, s: Sys, n: nat, id: Id)
    requires n in s.scans && Threat(h, s, s.scans[n], id) && Signals(s.scans[n]) && id !in s.fence.rows
    requires s.scans[n].gated.None? && !s.scans[n].appended && s.scans[n].todo != [] && s.scans[n].fenced
    ensures Step(h, s, ScanFile(n)).Some? && !Revives(s, ScanFile(n), id)
    ensures var t := Step(h, s, ScanFile(n)).value;
      && n in t.scans && Signals(t.scans[n]) && t.scans[n].todo == s.scans[n].todo[1..] && !t.scans[n].appended
      && (s.scans[n].todo[0] == id ==> Gated(t.scans[n], id))
      && (s.scans[n].todo[0] != id ==> id !in t.fence.rows && Threat(h, t, t.scans[n], id))
  {
    hide ScanOne, ReadIntent, RecoveredEntry, CanAppend, Threat, Passing;
    var scan, at := s.scans[n], s.scans[n].todo[0];
    var t := ScanOne(h, s, n);
    Turn(h, s, n);
    PassingIsThreat(h, s, scan);
    if Passing(h, s, scan) { PassingReads(h, s, scan); }
    if at != id {
      ThreatFades(h, s, t, scan, id);
      LaterThreat(h, t, scan, t.scans[n], id);
    }
  }

  lemma LaterThreat(h: Hashes, s: Sys, scan: Scan, now: Scan, id: Id)
    requires Threat(h, s, scan, id) && Further(scan, now) && scan.todo[0] != id
    ensures Threat(h, s, now, id)
  {
    hide Decide, Gate, ReadIntent;
  }

  /** This scan rejects the operation as stale. */
  predicate Rejects(h: Hashes, s: Sys, scan: Scan, id: Id) {
    && scan.fenced && id in scan.snapshot.files && ReadIntent(scan.snapshot, id).Some?
    && var i := ReadIntent(scan.snapshot, id).value;
       var v := Decide(h, scan.snapshot, Some(s.fence), i);
       v.RejectStale? || (v == Finalize && Gate(scan.mark, Some(s.fence), i).None?)
  }

  /** The rejected copy is stale for every later scan too. */
  lemma RejectedIsStale(h: Hashes, s: Sys, n: nat, id: Id)
    requires Base(s) && n in s.scans && Rejects(h, s, s.scans[n], id)
    requires id in s.disk.files ==> s.disk.files[id] == s.scans[n].snapshot.files[id]
    ensures id !in s.fence.rows && StaleOnDisk(s, id)
  {
    hide ReadIntent, Uncommitted, CommittedArtifactsExact, ArtifactCount, MatchingCommit, CommittedIds;
    var scan := s.scans[n];
    assert ScanOk(s, scan);
    ReadNamesItself(scan.snapshot, id);
    if id in s.disk.files { ReadFrame(s.disk, scan.snapshot, id); }
  }

  /** When a scan rejects an operation as stale, its intent on disk is still the one the scan read, and
      nothing in flight still lets it in, the operation is dead. */
  lemma RejectedIsDead(h: Hashes, s: Sys, n: nat, id: Id)
    requires Base(s) && n in s.scans && Rejects(h, s, s.scans[n], id)
    requires id in s.disk.files ==> s.disk.files[id] == s.scans[n].snapshot.files[id]
    requires id !in CommittedIds(s.disk.log) && NoWayIn(h, s, id)
    ensures Dead(h, s, id) && StaysOut(h, s, id)
  {
    hide Base, NoWayIn, StaleOnDisk, Rejects, Step, Revives;
    RejectedIsStale(h, s, n, id);
    forall states: seq<Sys>, actions: seq<Action> | RunWithout(h, states, actions, id) && states[0] == s
      ensures NeverIn(states, id)
    {
      forall k | 0 <= k < |states| ensures id !in CommittedIds(states[k].disk.log) {
        StaleRejectedNeverFinalized(h, states, actions, id, k);
      }
    }
  }

  /** A rejected set stays out of the log in every continuation that does not revive it if and only if
      at the rejection no writer is past the gate with it and no other scan has let it through or
      still would. */
  lemma RejectedStaysOutIff(h: Hashes, s: Sys, n: nat, id: Id)
    requires Base(s) && n in s.scans && Rejects(h, s, s.scans[n], id)
    requires id in s.disk.files ==> s.disk.files[id] == s.scans[n].snapshot.files[id]
    requires id !in CommittedIds(s.disk.log) && forall m :: m in s.scans ==> Signals(s.scans[m])
    ensures StaysOut(h, s, id) <==> NoWayIn(h, s, id)
  {
    hide StaysOut, Rejects, RecoveredEntry, Threat, CommittedIds, CanAppend;
    if NoWayIn(h, s, id) {
      RejectedIsDead(h, s, n, id);
    } else {
      RejectedIsStale(h, s, n, id);
      if id in s.passed {
        PassedComesIn(h, s, id);
      } else {
        var m :| m in s.scans && (Gated(s.scans[m], id) || Threat(h, s, s.scans[m], id));
        assert ScanOk(s, s.scans[m]);
        if Gated(s.scans[m], id) {
          GatedComesIn(h, s, m, id);
        } else {
          ThreatComesIn(h, s, m, id);
        }
      }
    }
  }

  // ---- What gets through -----------------------------------------------------------------------

  /** The scan is about to take up this operation, and its artifacts are exact. */
  predicate AboutTo(h: Hashes, scan: Scan, id: Id, i: Intent) {
    && scan.gated.None? && scan.todo != [] && scan.todo[0] == id
    && id in scan.snapshot.files && ReadIntent(scan.snapshot, id) == Some(i) && CanAppend(RecoveredEntry(i))
    && EntriesOf(scan.snapshot.log, id) == [] && Uncommitted(h, scan.snapshot, i) == Finalize
  }

  /** The operation is committed after these two turns, without a row. */
  predicate CommitsWithoutRow(h: Hashes, s: Sys, n: nat, id: Id) {
    var gated := Step(h, s, ScanFile(n));
    && gated.Some?
    && var done := Step(h, gated.value, ScanAppend(n));
    && done.Some?
    && id in CommittedIds(done.value.disk.log) && id !in done.value.fence.rows
    && done.value.fence == s.fence
  }

  lemma UnstampedPasses(h: Hashes, s: Sys, n: nat, id: Id, i: Intent)
    requires n in s.scans && AboutTo(h, s.scans[n], id, i) && id !in s.fence.rows
    requires s.scans[n].fenced && i.common.stamp.None? && s.scans[n].mark == 0 && HighWater(s.scans[n].snapshot.fence) == 0
    ensures CommitsWithoutRow(h, s, n, id)
  {
    hide Uncommitted, WellFormed, RecoveredEntry, ValidOperationId, CanAppend;
    ReadNamesItself(s.scans[n].snapshot, id);
    assert Decide(h, s.scans[n].snapshot, Some(s.fence), i) == Finalize;
    assert Gate(0, Some(s.fence), i) == Some(Some(s.fence));
    CommittedGrows(s.disk.log, RecoveredEntry(i));
  }

  /** A scan that read mark 0 finalizes an unstamped set even though a claim has fenced the brain
      since, and no row is recorded for it. */
  lemma UnstampedSetOutlivesClaim(h: Hashes, s: Sys, token: int, n: nat, id: Id, i: Intent)
    requires token >= 1 && token >= s.fence.highWater
    requires n in s.scans && AboutTo(h, s.scans[n], id, i) && id !in s.fence.rows
    requires s.scans[n].fenced && i.common.stamp.None? && s.scans[n].mark == 0 && HighWater(s.scans[n].snapshot.fence) == 0
    ensures var claimed := Step(h, s, ClaimEpoch(token));
      claimed.Some? && claimed.value.fence.highWater > 0 && CommitsWithoutRow(h, claimed.value, n, id)
  {
    hide AboutTo, CommitsWithoutRow;
    UnstampedPasses(h, Step(h, s, ClaimEpoch(token)).value, n, id, i);
  }

  /** The run two scans allow: scan `b`, started after a claim, rejects an unstamped set; scan `a`,
      which had read mark 0, finalizes it afterwards. Nothing revived it. */
  lemma SecondScanFinalizesRejected(h: Hashes, s: Sys, a: nat, b: nat, id: Id, i: Intent)
    requires a in s.scans && b in s.scans && a != b && AboutTo(h, s.scans[a], id, i) && id !in s.fence.rows
    requires s.scans[a].fenced && i.common.stamp.None? && s.scans[a].mark == 0 && HighWater(s.scans[a].snapshot.fence) == 0
    requires s.scans[b].todo != [] && s.scans[b].todo[0] == id && s.scans[b].gated.None? && Rejects(h, s, s.scans[b], id)
    ensures var rejected := Step(h, s, ScanFile(b));
      && rejected.Some? && !Revives(s, ScanFile(b), id)
      && CommitsWithoutRow(h, rejected.value, a, id) && !Revives(rejected.value, ScanFile(a), id)
  {
    hide AboutTo, CommitsWithoutRow, Decide, Gate, ReadIntent;
    var t := Step(h, s, ScanFile(b)).value;
    UnstampedPasses(h, t, a, id, i);
  }

  /** A scan without the fence finalizes any exact set, stamped and behind the mark or not, and leaves
      no row: the state after it is not authorized. */
  lemma UnfencedScanCommitsStale(h: Hashes, s: Sys, n: nat, id: Id, i: Intent)
    requires n in s.scans && !s.scans[n].fenced && AboutTo(h, s.scans[n], id, i) && !LetThrough(s, id) && s.scans[n].snapshot.fence == None
    ensures CommitsWithoutRow(h, s, n, id)
    ensures !Authorized(Step(h, Step(h, s, ScanFile(n)).value, ScanAppend(n)).value)
  {
    hide Uncommitted, WellFormed, RecoveredEntry, ValidOperationId, CanAppend;
    ReadNamesItself(s.scans[n].snapshot, id);
    assert Decide(h, s.scans[n].snapshot, None, i) == Finalize;
    CommittedGrows(s.disk.log, RecoveredEntry(i));
  }

  /** On one and the same disk the scan with the fence rejects a stamped set behind the mark, and the
      scan without it finalizes the set. */
  lemma FenceDecides(h: Hashes, w: World, id: Id)
    requires id in w.files && ReadIntent(w, id).Some? && w.fence.Some? && id !in w.fence.value.rows
    requires EntriesOf(w.log, id) == [] && Uncommitted(h, w, ReadIntent(w, id).value) == Finalize && ArtifactCount(w, id) > 0
    requires var i := ReadIntent(w, id).value; i.common.stamp.Some? && i.common.stamp.value.epoch < w.fence.value.highWater
    ensures VerdictOf(h, w, map[], id) == RejectStale(EpochBehindHighWater)
    ensures VerdictOf(h, w.(fence := None), map[], id) == Finalize
  {
    hide IsExactAudit, IsExactVersion, IsExactRevise, IsExactEndorseClaims, WellFormed, ValidOperationId, L0Of, L1Of, PagesOf;
    ReadNamesItself(w, id);
    SameView(h, w, ReadIntent(w, id).value);
  }

  lemma SameView(h: Hashes, w: World, i: Intent)
    ensures Uncommitted(h, w.(fence := None), i) == Uncommitted(h, w, i)
  {
    hide IsExactAudit, IsExactVersion, IsExactRevise, IsExactEndorseClaims, L0Of, L1Of, PagesOf;
  }
}
