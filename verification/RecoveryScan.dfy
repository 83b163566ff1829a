/** `runRecovery` as the source runs it: one pass over the intent files that appends to the
    log, deletes intent files and records authorizations as it goes. */
module RecoveryScan {
  import opened Evidence
  import opened OpsLog
  import opened Exactness
  import opened Recovery

  /** Finalizing this file throws out of the scan. */
  predicate Throws(p: Plan, id: Id)
    requires Sound(p)
  {
    id in p.verdicts && p.verdicts[id] == Finalize && !CanAppend(RecoveredEntry(p.intents[id]))
  }

  /** The first file whose finalization throws, or the length. */
  function FirstThrow(p: Plan, order: seq<Id>): (k: nat)
    requires Sound(p)
    ensures k <= |order| && (k < |order| ==> Throws(p, order[k])) && forall j :: 0 <= j < k ==> !Throws(p, order[j])
  {
    if order == [] || Throws(p, order[0]) then 0
    else
      assert forall j :: 1 <= j < |order| ==> order[1..][j - 1] == order[j];
      1 + FirstThrow(p, order[1..])
  }

  /** What a throw leaves: the gate was passed, the row is there, the signal and the removal are not. */
  function Interrupted(d: World, mark: nat, id: Id, i: Intent): World {
    Carried(d, mark, id, Finalize, Some(i)).(log := d.log, files := d.files)
  }

  /** The disk after a scan that throws at file `k`. */
  function ThrownDisk(w: World, p: Plan, marks: EpochMarks, order: seq<Id>, k: nat): World
    requires Sound(p) && k < |order| && Throws(p, order[k])
  {
    Interrupted(DiskAfter(w, p, marks, order[..k]), MarkAt(w, marks, order[k]), order[k], p.intents[order[k]])
  }

  /** What one run of the scan leaves; no report is the error thrown out of it. */
  datatype Outcome = Outcome(disk: World, report: Option<Report>)

  function OutcomeOf(h: Hashes, w: World, marks: EpochMarks, order: seq<Id>): Outcome {
    var p := PlanOf(h, w, marks);
    var k := FirstThrow(p, order);
    if k == |order| then Outcome(WorldAfter(h, w, marks, order), Some(ReportOf(h, w, marks, order)))
    else Outcome(ThrownDisk(w, p, marks, order, k), None)
  }

  datatype Finalization = Refused | Signalled | Threw

  lemma DoneGrows(order: seq<Id>, k: nat)
    requires k < |order| && Distinct(order)
    ensures Done(order[..k + 1]) == Done(order[..k]) + {order[k]}
    ensures order[k] !in Done(order[..k])
  {
    assert order[..k + 1] == order[..k] + [order[k]];
  }

  /** Reading one more file adds it to the collection of its verdict and to no other. */
  lemma WithGrows(vs: Verdicts, order: seq<Id>, k: nat, v: Verdict)
    requires k < |order| && Distinct(order) && order[k] in vs
    ensures With(vs, Done(order[..k + 1]), v) == With(vs, Done(order[..k]), v) + if vs[order[k]] == v then {order[k]} else {}
  {
    DoneGrows(order, k);
  }

  lemma StaleGrows(w: World, p: Plan, order: seq<Id>, k: nat)
    requires Sound(p) && k < |order| && Distinct(order) && order[k] in p.verdicts
    ensures var v := p.verdicts[order[k]];
      && StaleIds(p.verdicts, Done(order[..k + 1]))
         == StaleIds(p.verdicts, Done(order[..k])) + (if v.RejectStale? then {order[k]} else {})
      && Rejections(w, p, Done(order[..k + 1]))
         == Rejections(w, p, Done(order[..k])) + (if v.RejectStale? then {RejectionOf(w, p.intents[order[k]], v.reason)} else {})
  {
    DoneGrows(order, k);
  }

  lemma LogGrows(p: Plan, order: seq<Id>, k: nat)
    requires Sound(p) && k < |order| && order[k] in p.verdicts
    ensures Appended(p, order[..k + 1])
         == Appended(p, order[..k]) + if p.verdicts[order[k]] == Finalize then [RecoveredEntry(p.intents[order[k]])] else []
  {
    assert order[..k + 1][..k] == order[..k];
  }

  lemma FilesShrink(files: map<Id, Option<Intent>>, vs: Verdicts, order: seq<Id>, k: nat)
    requires k < |order| && Distinct(order) && order[k] in vs
    ensures FilesAfter(files, vs, Done(order[..k + 1]))
         == FilesAfter(files, vs, Done(order[..k])) - if Removes(vs[order[k]]) then {order[k]} else {}
  {
    DoneGrows(order, k);
  }

  lemma RestrictGrows<K, V>(base: map<K, V>, m: map<K, V>, keys: set<K>, k: K)
    requires k !in keys && (k in m ==> k !in base)
    ensures base + Restrict(m, keys + {k}) == if k in m then (base + Restrict(m, keys))[k := m[k]] else base + Restrict(m, keys)
    ensures k in base + Restrict(m, keys) <==> k in base
  {
  }

  /** The next file meets its own authorization row, whatever was recorded for the files before it. */
  lemma RowsGrow(rows: map<Id, Stamp>, p: Plan, order: seq<Id>, k: nat)
    requires Sound(p) && k < |order| && Distinct(order) && order[k] in p.verdicts
    ensures order[k] in RowsAfter(rows, p, Done(order[..k])) <==> order[k] in rows
    ensures RowsAfter(rows, p, Done(order[..k + 1])) ==
         if NeedsRow(rows, p, order[k]) then RowsAfter(rows, p, Done(order[..k]))[order[k] := p.intents[order[k]].common.stamp.value]
         else RowsAfter(rows, p, Done(order[..k]))
  {
    DoneGrows(order, k);
    RestrictGrows(rows, FreshRows(rows, p), Done(order[..k]), order[k]);
  }

  lemma NothingRead(w: World, p: Plan, marks: EpochMarks)
    requires Sound(p)
    ensures DiskAfter(w, p, marks, []) == w
  {
    assert FilesAfter(w.files, p.verdicts, {}) == w.files;
    if w.fence.Some? {
      assert RowsAfter(w.fence.value.rows, p, {}) == w.fence.value.rows;
    }
  }

  lemma NothingCounted(w: World, p: Plan)
    requires Sound(p)
    ensures TallyOf(w, p, Done([])) == Tally({}, {}, {}, {}, {}, {}, {})
  {
  }

  lemma PlanAt(h: Hashes, w: World, marks: EpochMarks, id: Id)
    requires id in w.files
    ensures id in PlanOf(h, w, marks).verdicts && PlanOf(h, w, marks).verdicts[id] == VerdictOf(h, w, marks, id)
    ensures ReadIntent(w, id) == if id in PlanOf(h, w, marks).intents then Some(PlanOf(h, w, marks).intents[id]) else None
  {
  }

  /** Reading one more file changes the disk by that file's verdict alone. */
  lemma DiskGrows(w: World, p: Plan, marks: EpochMarks, order: seq<Id>, k: nat)
    requires Sound(p) && k < |order| && Distinct(order) && order[k] in p.verdicts
    ensures var i := if order[k] in p.intents then Some(p.intents[order[k]]) else None;
      DiskAfter(w, p, marks, order[..k + 1])
      == Carried(DiskAfter(w, p, marks, order[..k]), MarkAt(w, marks, order[k]), order[k], p.verdicts[order[k]], i)
    ensures DiskAfter(w, p, marks, order[..k]).fence.Some? == w.fence.Some?
    ensures w.fence.Some? ==>
      (order[k] in DiskAfter(w, p, marks, order[..k]).fence.value.rows <==> order[k] in w.fence.value.rows)
  {
    LogGrows(p, order, k);
    FilesShrink(w.files, p.verdicts, order, k);
    if w.fence.Some? {
      RowsGrow(w.fence.value.rows, p, order, k);
    }
  }

  lemma ThrownIsFinalized(p: Plan, id: Id)
    requires Sound(p) && Throws(p, id)
    ensures id in p.intents
  {
  }

  /** ... and the accumulators by one entry in the collection of its verdict. */
  function Counted(t: Tally, w: World, id: Id, v: Verdict, i: Option<Intent>): Tally
    requires v.Unreadable? || i.Some?
  {
    match v
    case Unreadable => t.(errors := t.errors + {id})
    case RejectStale(reason) => t.(stale := t.stale + {RejectionOf(w, i.value, reason)}, staleIds := t.staleIds + {id})
    case Clear => t
    case Review => t.(review := t.review + {id})
    case Wait => t.(pending := t.pending + {id})
    case Abort => t.(aborted := t.aborted + {id})
    case Finalize => t.(completed := t.completed + {id})
  }

  lemma TallyGrows(w: World, p: Plan, order: seq<Id>, k: nat)
    requires Sound(p) && k < |order| && Distinct(order) && order[k] in p.verdicts
    ensures var i := if order[k] in p.intents then Some(p.intents[order[k]]) else None;
      TallyOf(w, p, Done(order[..k + 1])) == Counted(TallyOf(w, p, Done(order[..k])), w, order[k], p.verdicts[order[k]], i)
  {
    StaleGrows(w, p, order, k);
    WithGrows(p.verdicts, order, k, Wait);
    WithGrows(p.verdicts, order, k, Unreadable);
    WithGrows(p.verdicts, order, k, Review);
    WithGrows(p.verdicts, order, k, Finalize);
    WithGrows(p.verdicts, order, k, Abort);
  }

  /** The live fence never changes the decision on a file that was not read yet. */
  lemma DecisionFrame(h: Hashes, w: World, fence: Option<Fence>, i: Intent)
    requires fence.Some? == w.fence.Some?
    requires fence.Some? ==> (i.common.operationId in fence.value.rows <==> i.common.operationId in w.fence.value.rows)
    ensures Decide(h, w, fence, i) == Decide(h, w, w.fence, i)
  {
  }

  /** The gate refuses on the mark and the file's own row alone. */
  lemma GateFrame(mark: nat, fence: Fence, other: Fence, i: Intent)
    requires fence.highWater == other.highWater
    requires i.common.operationId in fence.rows <==> i.common.operationId in other.rows
    ensures Gate(mark, Some(fence), i).Some? <==> Gate(mark, Some(other), i).Some?
    ensures Gate(mark, Some(fence), i).Some? ==>
      Gate(mark, Some(fence), i).value == Some(fence.(rows :=
        if i.common.operationId !in fence.rows && i.common.stamp.Some?
        then fence.rows[i.common.operationId := i.common.stamp.value] else fence.rows))
  {
  }

  lemma {:induction false} AppendedIds(p: Plan, order: seq<Id>)
    requires Sound(p) && forall id :: id in p.intents ==> p.intents[id].common.operationId == id
    ensures CommittedIds(Appended(p, order)) == With(p.verdicts, Done(order), Finalize)
  {
    hide CommittedIds, RecoveredEntry;
    if order == [] {
      NothingCommitted();
    } else {
      var n := |order| - 1;
      var id := order[n];
      AppendedIds(p, order[..n]);
      assert order == order[..n] + [id];
      assert Done(order) == Done(order[..n]) + {id};
      if id in p.verdicts && p.verdicts[id] == Finalize {
        CommittedConcat(Appended(p, order[..n]), [RecoveredEntry(p.intents[id])]);
        CommittedOne(p.intents[id]);
      }
    }
  }

  lemma NothingCommitted()
    ensures CommittedIds([]) == {}
  {
  }

  lemma CommittedOne(i: Intent)
    ensures CommittedIds([RecoveredEntry(i)]) == {i.common.operationId}
  {
    assert [RecoveredEntry(i)][0] == RecoveredEntry(i);
  }

  lemma CommittedConcat(a: seq<Entry>, b: seq<Entry>)
    ensures CommittedIds(a + b) == CommittedIds(a) + CommittedIds(b)
  {
  }

  /** The running `committed` set agrees with the log it describes. */
  lemma CommittedByScan(w: World, p: Plan, order: seq<Id>)
    requires Sound(p) && forall id :: id in p.intents ==> p.intents[id].common.operationId == id
    ensures CommittedIds(w.log + Appended(p, order)) == CommittedIds(w.log) + With(p.verdicts, Done(order), Finalize)
  {
    AppendedIds(p, order);
    CommittedConcat(w.log, Appended(p, order));
  }

  class Brain {
    var log: seq<Entry>
    var files: map<Id, Option<Intent>>
    var observations: seq<Observation>
    var versions: seq<ClaimVersion>
    var pages: seq<Page>
    var fence: Option<Fence>

    function Disk(): World
      reads this
    {
      World(log, files, observations, versions, pages, fence)
    }

    /** `appendOpLogEntry`; false is the thrown error. */
    method AppendOpLogEntry(e: Entry) returns (ok: bool)
      requires ValidOperationId(e.operationId)
      modifies this`log
      ensures ok <==> CanAppend(e)
      ensures log == if ok then old(log) + [e] else old(log)
    {
      if e.actorId == "" || e.timestamp == "" { return false; }
      log := log + [e];
      return true;
    }

    method RemoveOperationIntent(id: Id)
      modifies this`files
      ensures files == old(files) - {id}
    {
      files := files - {id};
    }

    /** `finalizeRecovered`: pass the gate, then append the signal. */
    method FinalizeRecovered(mark: nat, i: Intent) returns (r: Finalization)
      requires ValidOperationId(i.common.operationId)
      modifies this`log, this`fence
      ensures r.Refused? <==> Gate(mark, old(fence), i).None?
      ensures r.Signalled? <==> Gate(mark, old(fence), i).Some? && CanAppend(RecoveredEntry(i))
      ensures !r.Refused? ==> Some(fence) == Gate(mark, old(fence), i)
      ensures r.Refused? ==> fence == old(fence)
      ensures log == if r.Signalled? then old(log) + [RecoveredEntry(i)] else old(log)
    {
      if fence.Some? && i.common.operationId !in fence.value.rows {
        var authorized;
        match i.common.stamp {
          case Some(s) =>
            var f := AuthorizeAtEpoch(fence.value, i.common.operationId, s);
            authorized := f.Some?;
            if f.Some? { fence := f; }
          case None =>
            authorized := mark == 0;
        }
        if !authorized {
          return Refused;
        }
      }
      var ok := AppendOpLogEntry(RecoveredEntry(i));
      r := if ok then Signalled else Threw;
    }

    /** One file: the verdict, carried out. `snapshot` was read at scan start; claims may
        have moved the mark to `MarkAt(snapshot, marks, id)` since. */
    method ProcessFile(h: Hashes, snapshot: World, marks: EpochMarks, id: Id, ghost p: Plan)
      returns (v: Verdict, record: Option<Intent>, threw: bool)
      requires id in snapshot.files && p == PlanOf(h, snapshot, marks)
      requires fence.Some? == snapshot.fence.Some?
      requires fence.Some? ==> (id in fence.value.rows <==> id in snapshot.fence.value.rows)
      modifies this`log, this`files, this`fence
      ensures v == p.verdicts[id]
      ensures record == if id in p.intents then Some(p.intents[id]) else None
      ensures threw <==> Throws(p, id)
      ensures Disk() == if threw then Interrupted(old(Disk()), MarkAt(snapshot, marks, id), id, p.intents[id])
                        else Carried(old(Disk()), MarkAt(snapshot, marks, id), id, v, record)
    {
      hide PlanOf, Decide, IsExactAudit, WellFormed, CanAppend;
      PlanAt(h, snapshot, marks, id);
      threw := false;
      if fence.Some? {
        fence := Some(fence.value.(highWater := MarkAt(snapshot, marks, id)));
      }
      record := ReadIntent(snapshot, id);
      if record.None? {
        v := Unreadable;
        return;
      }
      var intent := record.value;
      DecisionFrame(h, snapshot, fence, intent);
      v := Decide(h, snapshot, fence, intent);
      if v == Finalize {
        if fence.Some? {
          GateFrame(HighWater(snapshot.fence), fence.value, FenceAtMark(snapshot.fence, MarkAt(snapshot, marks, id)).value, intent);
        }
        var r := FinalizeRecovered(HighWater(snapshot.fence), intent);
        match r {
          case Signalled => RemoveOperationIntent(id);
          case Threw => threw := true;
          case Refused => v := RejectStale(EpochBehindHighWater);   // a claim landed during the scan
        }
      } else if v == Clear || v == Abort {
        RemoveOperationIntent(id);
      }
    }

    /** The loop over the intent files; `done` is how many were read to the end. */
    method ScanFiles(h: Hashes, snapshot: World, order: seq<Id>, marks: EpochMarks, ghost p: Plan) returns (tally: Tally, done: nat)
      requires snapshot == Disk() && p == PlanOf(h, snapshot, marks)
      requires Listing(files, order)
      modifies this`log, this`files, this`fence
      ensures done == FirstThrow(p, order)
      ensures done == |order| ==> Disk() == DiskAfter(snapshot, p, marks, order) && tally == TallyOf(snapshot, p, Done(order))
      ensures done < |order| ==> Disk() == ThrownDisk(snapshot, p, marks, order, done)
    {
      hide PlanOf, DiskAfter, TallyOf, Carried, Counted, Throws, Interrupted;
      tally := Tally({}, {}, {}, {}, {}, {}, {});
      done := 0;
      NothingRead(snapshot, p, marks);
      NothingCounted(snapshot, p);
      assert order[..0] == [];
      while done < |order|
        invariant 0 <= done <= |order|
        invariant Disk() == DiskAfter(snapshot, p, marks, order[..done])
        invariant tally == TallyOf(snapshot, p, Done(order[..done]))
        invariant forall j :: 0 <= j < done ==> !Throws(p, order[j])
      {
        var id := order[done];
        assert id in Done(order);
        DiskGrows(snapshot, p, marks, order, done);
        TallyGrows(snapshot, p, order, done);
        var v, record, threw := ProcessFile(h, snapshot, marks, id, p);
        if threw {
          ThrownIsFinalized(p, id);
          return;
        }
        tally := Counted(tally, snapshot, id, v, record);
        done := done + 1;
      }
      assert order[..done] == order;
    }

    /** Scan every intent file. `marks` is the environment: epoch claims that land mid-scan. `None`
        is the error thrown out of the scan by an entry that cannot be appended. */
    method RunRecovery(h: Hashes, order: seq<Id>, marks: EpochMarks) returns (report: Option<Report>)
      requires Listing(files, order)
      requires MarksRise(Disk(), marks, order)
      modifies this`log, this`files, this`fence
      ensures Outcome(Disk(), report) == OutcomeOf(h, old(Disk()), marks, order)
    {
      var snapshot := Disk();
      ghost var p := PlanOf(h, snapshot, marks);
      var tally, done := ScanFiles(h, snapshot, order, marks, p);
      if done < |order| { return None; }
      var committed := CommittedIds(snapshot.log) + tally.completed;
      CommittedByScan(snapshot, p, order);
      var orphans := OrphansOf(snapshot, committed + tally.staleIds);
      var manual := tally.review
        + (set id | id in tally.errors && LooksLikeOperation(id))
        + (set x | x in orphans && x.operationId !in tally.pending :: x.operationId);
      report := Some(Report(|committed|, orphans, tally.pending, tally.errors, manual, tally.completed, tally.stale, tally.aborted));
    }
  }
}
