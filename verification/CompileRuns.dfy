/** The compile queue under concurrency: workers of several processes, users, status changes,
    crashes of any of them and syncs, as one state machine, with the runs in which it is safe and
    the runs in which it is not. */
module CompileRuns {
  import opened Evidence
  import opened CompileQueue

  /** A claimed batch: jobs still to look at, jobs compiled and waiting to be completed, the
      entries not flushed yet, and whether the flush has happened. */
  datatype Batch = Batch(todo: set<Id>, ready: set<Id>, buffer: seq<Mark>, flushed: bool)

  datatype Sys = Sys(
    jobs: Jobs,
    ops: seq<Mark>,
    evidence: map<Id, Observed>,
    accepted: set<Id>,            // effective status is 'accepted'
    retired: set<Id>,             // effective status is terminal
    batches: map<nat, Batch>)     // one per worker that is alive

  datatype Action =
    | Observe(id: Id, o: Observed)
    | Retire(id: Id)              // tombstoned, redacted, rejected or erased
    | Approve(id: Id)             // quarantine review of a raw-quarantined observation
    | EnqueueJob(id: Id, retry: bool)
    | ClaimJobs(b: nat, ids: set<Id>)
    | Process(b: nat, id: Id, compiles: bool)
    | Flush(b: nat)
    | Finish(b: nat, id: Id)
    | Crash(gone: set<nat>)       // some workers die
    | Sync                        // some process opens the queue; the workers alive go on

  predicate Worthwhile(s: Sys, id: Id) { id in s.evidence && id in s.accepted && s.evidence[id].compilable }

  /** One step, or `None` when it is not possible. The closing loop also completes the raw-accepted
      jobs that were done as not worthwhile; no step ever moves those again, so that is left out. */
  function Step(s: Sys, a: Action): Option<Sys> {
    match a
    case Observe(id, o) =>
      if id in s.evidence || id in s.jobs then None
      else Some(s.(evidence := s.evidence[id := o], retired := s.retired - {id},
                   accepted := if o.rawAccepted then s.accepted + {id} else s.accepted - {id}))
    case Retire(id) =>
      if id !in s.evidence then None else Some(s.(accepted := s.accepted - {id}, retired := s.retired + {id}))
    case Approve(id) =>
      if id !in s.evidence || s.evidence[id].rawAccepted || id in s.retired then None else Some(s.(accepted := s.accepted + {id}))
    case EnqueueJob(id, retry) => Some(s.(jobs := Enqueued(s.jobs, id, retry)))
    case ClaimJobs(b, ids) =>
      if b in s.batches || !(ids <= PendingIds(s.jobs)) then None
      else Some(s.(jobs := Claimed(s.jobs, ids), batches := s.batches[b := Batch(ids, {}, [], false)]))
    case Process(b, id, compiles) =>
      if b !in s.batches || s.batches[b].flushed || id !in s.batches[b].todo then None
      else
        var batch := s.batches[b].(todo := s.batches[b].todo - {id});
        if !Worthwhile(s, id) then Some(s.(jobs := Set(s.jobs, id, Done), batches := s.batches[b := batch]))
        else if compiles then
          Some(s.(batches := s.batches[b := batch.(ready := batch.ready + {id}, buffer := batch.buffer + [Resolved(id)])]))
        else
          Some(s.(jobs := Set(s.jobs, id, Failed), batches := s.batches[b := batch.(buffer := batch.buffer + [FailureMark(id)])]))
    case Flush(b) =>
      if b !in s.batches || s.batches[b].flushed || s.batches[b].todo != {} then None
      else Some(s.(ops := s.ops + s.batches[b].buffer, batches := s.batches[b := s.batches[b].(buffer := [], flushed := true)]))
    case Finish(b, id) =>
      if b !in s.batches || !s.batches[b].flushed || id !in s.batches[b].ready then None
      else
        var left := s.batches[b := s.batches[b].(ready := s.batches[b].ready - {id})];
        if id in s.evidence && s.evidence[id].rawAccepted then Some(s.(jobs := Set(s.jobs, id, Done), batches := left))
        else Some(s.(batches := left))
    case Crash(gone) => Some(s.(batches := s.batches - gone))
    case Sync => Some(s.(jobs := Synced(s.jobs, s.evidence.Keys, s.evidence, s.accepted, s.ops)))
  }

  /** The effective status as the machine tracks it: a new observation starts with its raw status, a
      retired one is accepted no more and never again, and only a quarantined one can be approved. */
  lemma StatusSteps(s: Sys, id: Id, o: Observed)
    ensures Step(s, Observe(id, o)).Some? <==> id !in s.evidence && id !in s.jobs
    ensures Step(s, Observe(id, o)).Some? ==>
      var t := Step(s, Observe(id, o)).value;
      && t.evidence == s.evidence[id := o] && (id in t.accepted <==> o.rawAccepted) && id !in t.retired
      && t.accepted - {id} == s.accepted - {id} && t.retired - {id} == s.retired - {id}
      && t == s.(evidence := t.evidence, accepted := t.accepted, retired := t.retired)
    ensures Step(s, Retire(id)).Some? <==> id in s.evidence
    ensures Step(s, Retire(id)).Some? ==>
      var t := Step(s, Retire(id)).value;
      && id !in t.accepted && id in t.retired && Step(t, Approve(id)).None?
      && t.accepted == s.accepted - {id} && t.retired == s.retired + {id}
      && t == s.(accepted := t.accepted, retired := t.retired)
    ensures Step(s, Approve(id)).Some? <==> id in s.evidence && !s.evidence[id].rawAccepted && id !in s.retired
    ensures Step(s, Approve(id)).Some? ==> Step(s, Approve(id)).value == s.(accepted := s.accepted + {id})
  {
  }

  /** No worker holds an unflushed failure mark for this job. */
  predicate NoMarkPending(s: Sys, id: Id) {
    forall b :: b in s.batches ==> FailureMark(id) !in s.batches[b].buffer
  }

  /** Every job a living worker holds is done, or has its receipt and is still accepted. */
  predicate Settled(s: Sys) {
    forall b, id :: b in s.batches && id in s.batches[b].todo + s.batches[b].ready ==>
      id in s.jobs && (s.jobs[id] == Done || (s.batches[b].flushed && Eligible(s.evidence, s.accepted, id)))
  }

  /** What the safe runs wait for: a retry until the failure mark is flushed, a sync until what the
      living workers hold is settled. `RetryIsSafeIff` and `SyncIsSafeIff` show both waits needed. */
  predicate Orderly(s: Sys, a: Action) {
    match a
    case EnqueueJob(id, retry) => retry && id in s.jobs && s.jobs[id] == Failed ==> NoMarkPending(s, id)
    case Sync => Settled(s)
    case _ => true
  }

  // ---- The invariant -----------------------------------------------------------------------------

  predicate StillDue(s: Sys, id: Id) { Worthwhile(s, id) && s.evidence[id].rawAccepted }

  predicate MarkOk(s: Sys, m: Mark) { m.id in s.evidence && s.evidence[m.id].compilable }

  /** A held job is running; a receipted one may have been completed by a sync. */
  predicate HeldOk(s: Sys, batch: Batch) {
    && (forall id :: id in batch.todo ==> id in s.jobs && s.jobs[id] == Running)
    && (forall id :: id in batch.ready ==> id in s.jobs && (s.jobs[id] == Running || (batch.flushed && s.jobs[id] == Done)))
    && batch.todo !! batch.ready
    && (batch.flushed ==> batch.todo == {} && batch.buffer == [])
  }

  predicate BufferOk(s: Sys, batch: Batch) {
    && (forall m :: m in batch.buffer ==> MarkOk(s, m))
    && (forall m :: m in batch.buffer && m.FailureMark? ==> m.id in s.jobs && s.jobs[m.id] == Failed)
    && (forall m :: m in batch.buffer && m.Resolved? ==> m.id in batch.ready)
  }

  predicate ReceiptOk(s: Sys, batch: Batch) {
    && (forall id :: id in batch.ready ==> MarkOk(s, Resolved(id)))
    && (forall id :: id in batch.ready ==>
          if batch.flushed then LastMark(s.ops, id) == Some(Resolved(id)) else Resolved(id) in batch.buffer && FailureMark(id) !in batch.buffer)
    && (forall id :: id in batch.todo + batch.ready && !batch.flushed && Eligible(s.evidence, s.accepted, id) ==>
          LastMark(s.ops, id) != Some(Resolved(id)))
  }

  predicate BatchOk(s: Sys, b: nat)
    requires b in s.batches
  {
    HeldOk(s, s.batches[b]) && BufferOk(s, s.batches[b]) && ReceiptOk(s, s.batches[b])
  }

  /** No observation is an open obligation of two batches. */
  predicate Disjoint(s: Sys) {
    forall b, c :: b in s.batches && c in s.batches && b != c ==>
      (s.batches[b].todo + s.batches[b].ready) !! (s.batches[c].todo + s.batches[c].ready)
  }

  /** A raw-quarantined observation that was not accepted while any worker looked at it. */
  predicate NeverCompiled(s: Sys, id: Id) {
    && id in s.evidence && !s.evidence[id].rawAccepted
    && ((id !in s.accepted && id !in s.retired) || (id in s.accepted && id in s.jobs && s.jobs[id] == Done))
  }

  predicate Unmentioned(s: Sys, id: Id) {
    && (forall m :: m in s.ops ==> m.id != id)
    && (forall b, m :: b in s.batches && m in s.batches[b].buffer ==> m.id != id)
  }

  /** The ledger against the operations log. */
  ghost predicate LedgerOk(s: Sys) {
    && (forall m :: m in s.ops ==> MarkOk(s, m))
    && (forall id :: id in s.jobs && s.jobs[id] == Done && StillDue(s, id) ==> LastMark(s.ops, id) == Some(Resolved(id)))
    && (forall id :: Eligible(s.evidence, s.accepted, id) && LastMark(s.ops, id) == Some(Resolved(id)) ==>
          id in s.jobs && (s.jobs[id] == Running || s.jobs[id] == Done))
  }

  ghost predicate Inv(s: Sys) {
    && (forall b :: b in s.batches ==> BatchOk(s, b))
    && Disjoint(s) && LedgerOk(s)
    && (forall id :: NeverCompiled(s, id) ==> Unmentioned(s, id))
  }

  /** A brain with nothing in it. */
  lemma EmptyIsInv()
    ensures Inv(Sys(map[], [], map[], {}, {}, map[]))
  {
  }

  // ---- Every orderly step keeps the invariant ------------------------------------------------------

  /** Taking a job out of `todo`, with a new status for it, disturbs no other batch. */
  lemma OtherBatch(s: Sys, b: nat, id: Id, next: Sys, c: nat)
    requires Inv(s) && b in s.batches && id in s.batches[b].todo && c in s.batches && c != b
    requires next.ops == s.ops && next.evidence == s.evidence && next.accepted == s.accepted
    requires next.batches.Keys == s.batches.Keys && next.batches[c] == s.batches[c]
    requires next.jobs == s.jobs || exists to :: next.jobs == Set(s.jobs, id, to)
    ensures BatchOk(next, c)
  {
    hide LastMark, LedgerOk, HeldOk, BufferOk, ReceiptOk, Unmentioned, NeverCompiled;
    assert BatchOk(s, b) && BatchOk(s, c);
    HeldIsRunning(s, b, id);
    assert id !in s.batches[c].todo + s.batches[c].ready by { assert id in s.batches[b].todo + s.batches[b].ready; }
    SetElsewhere(s, next, id, s.batches[c]);
  }

  /** Moving a running job that the batch does not hold leaves the batch in order. */
  lemma SetElsewhere(s: Sys, next: Sys, id: Id, batch: Batch)
    requires HeldOk(s, batch) && BufferOk(s, batch) && ReceiptOk(s, batch)
    requires id in s.jobs && s.jobs[id] == Running && id !in batch.todo + batch.ready
    requires next.ops == s.ops && next.evidence == s.evidence && next.accepted == s.accepted
    requires next.jobs == s.jobs || exists to :: next.jobs == Set(s.jobs, id, to)
    ensures HeldOk(next, batch) && BufferOk(next, batch) && ReceiptOk(next, batch)
  {
    hide LastMark;
  }

  lemma OwnBatch(s: Sys, b: nat, id: Id, compiles: bool)
    requires b in s.batches && BatchOk(s, b) && Step(s, Process(b, id, compiles)).Some?
    ensures BatchOk(Step(s, Process(b, id, compiles)).value, b)
  {
    hide LastMark;
    var next := Step(s, Process(b, id, compiles)).value;
    var was, now := s.batches[b], next.batches[b];
    assert forall m :: m in was.buffer ==> m.id != id;
    if Worthwhile(s, id) {
      assert forall m :: m in now.buffer ==> m in was.buffer || m == now.buffer[|was.buffer|];
    }
  }

  lemma ProcessKeeps(s: Sys, b: nat, id: Id, compiles: bool)
    requires Inv(s) && Step(s, Process(b, id, compiles)).Some?
    ensures Inv(Step(s, Process(b, id, compiles)).value)
  {
    hide BatchOk, LastMark, LedgerOk, NeverCompiled, Unmentioned;
    var next := Step(s, Process(b, id, compiles)).value;
    assert BatchOk(s, b);
    OwnBatch(s, b, id, compiles);
    forall c | c in next.batches ensures BatchOk(next, c) {
      if c != b { OtherBatch(s, b, id, next, c); }
    }
    ProcessKeepsLedger(s, b, id, compiles);
    forall x | NeverCompiled(next, x) ensures Unmentioned(next, x) {
      ProcessMentions(s, b, id, compiles, x);
    }
  }

  lemma ProcessKeepsLedger(s: Sys, b: nat, id: Id, compiles: bool)
    requires LedgerOk(s) && b in s.batches && BatchOk(s, b) && Step(s, Process(b, id, compiles)).Some?
    ensures LedgerOk(Step(s, Process(b, id, compiles)).value)
  {
    hide LastMark;
  }

  lemma ProcessMentions(s: Sys, b: nat, id: Id, compiles: bool, x: Id)
    requires Inv(s) && Step(s, Process(b, id, compiles)).Some? && NeverCompiled(Step(s, Process(b, id, compiles)).value, x)
    ensures Unmentioned(Step(s, Process(b, id, compiles)).value, x)
  {
    hide LastMark, ReceiptOk;
    var next := Step(s, Process(b, id, compiles)).value;
    assert BatchOk(s, b);
    if x == id && !NeverCompiled(s, x) {
      assert !s.evidence[x].compilable;
      forall c, m | c in s.batches && m in s.batches[c].buffer ensures m.id != x { assert BatchOk(s, c); }
    } else {
      assert Unmentioned(s, x);
      if Worthwhile(s, id) {
        assert x != id;
        var was, now := s.batches[b], next.batches[b];
        assert forall m :: m in now.buffer ==> m in was.buffer || m == now.buffer[|was.buffer|];
      }
    }
  }

  lemma FlushKeeps(s: Sys, b: nat)
    requires Inv(s) && Step(s, Flush(b)).Some?
    ensures Inv(Step(s, Flush(b)).value)
  {
    hide BatchOk, LastMark, LedgerOk, NeverCompiled, Unmentioned;
    var next := Step(s, Flush(b)).value;
    forall c | c in next.batches ensures BatchOk(next, c) { FlushedBatch(s, b, c); }
    FlushKeepsLedger(s, b);
    forall x | NeverCompiled(next, x) ensures Unmentioned(next, x) { FlushMentions(s, b, x); }
  }

  lemma FlushMentions(s: Sys, b: nat, x: Id)
    requires Inv(s) && Step(s, Flush(b)).Some? && NeverCompiled(Step(s, Flush(b)).value, x)
    ensures Unmentioned(Step(s, Flush(b)).value, x)
  {
    hide LastMark, BatchOk, LedgerOk;
    assert NeverCompiled(s, x);
  }

  /** A flush moves the last mark only of jobs it holds ready or has failed. */
  lemma FlushedIds(s: Sys, b: nat, id: Id)
    requires b in s.batches && BatchOk(s, b) && Step(s, Flush(b)).Some?
    ensures var was, now := LastMark(s.ops, id), LastMark(Step(s, Flush(b)).value.ops, id);
      || now == was
      || (id in s.batches[b].ready && now == Some(Resolved(id)))
      || (id in s.jobs && s.jobs[id] == Failed && now == Some(FailureMark(id)))
    ensures id in s.batches[b].ready ==> LastMark(Step(s, Flush(b)).value.ops, id) == Some(Resolved(id))
  {
    hide LastMark;
    var buffer := s.batches[b].buffer;
    FlushedMark(s.ops, buffer, id);
    LastMarkConcat(s.ops, buffer, id);
    LastMarkNames(buffer, id);
  }

  lemma FlushKeepsLedger(s: Sys, b: nat)
    requires LedgerOk(s) && b in s.batches && BatchOk(s, b) && Step(s, Flush(b)).Some?
    ensures LedgerOk(Step(s, Flush(b)).value)
  {
    hide LastMark;
    var next := Step(s, Flush(b)).value;
    forall id | id in next.jobs && next.jobs[id] == Done && StillDue(next, id) ensures LastMark(next.ops, id) == Some(Resolved(id)) {
      FlushedIds(s, b, id);
    }
    forall id | Eligible(next.evidence, next.accepted, id) && LastMark(next.ops, id) == Some(Resolved(id))
      ensures id in next.jobs && (next.jobs[id] == Running || next.jobs[id] == Done)
    {
      FlushedIds(s, b, id);
    }
  }

  /** What one batch's flush means for another, or for itself. */
  lemma FlushedBatch(s: Sys, b: nat, c: nat)
    requires Inv(s) && Step(s, Flush(b)).Some? && c in s.batches
    ensures BatchOk(Step(s, Flush(b)).value, c)
  {
    hide LastMark, LedgerOk, NeverCompiled, Unmentioned;
    var next := Step(s, Flush(b)).value;
    assert BatchOk(s, b) && BatchOk(s, c);
    forall id | id in s.batches[c].todo + s.batches[c].ready && c != b
      ensures LastMark(next.ops, id) == LastMark(s.ops, id)
    {
      FlushedIds(s, b, id);
      assert id !in s.batches[b].ready;
    }
    forall id | id in s.batches[b].ready ensures LastMark(next.ops, id) == Some(Resolved(id)) { FlushedIds(s, b, id); }
  }

  lemma FinishKeeps(s: Sys, b: nat, id: Id)
    requires Inv(s) && Step(s, Finish(b, id)).Some?
    ensures Inv(Step(s, Finish(b, id)).value)
  {
    hide LastMark, BatchOk, LedgerOk, NeverCompiled, Unmentioned;
    var next := Step(s, Finish(b, id)).value;
    forall c | c in next.batches ensures BatchOk(next, c) { FinishedBatch(s, b, id, c); }
    assert BatchOk(s, b);
    FinishKeepsLedger(s, b, id);
    forall x | NeverCompiled(next, x) ensures Unmentioned(next, x) { FinishMentions(s, b, id, x); }
  }

  lemma FinishMentions(s: Sys, b: nat, id: Id, x: Id)
    requires Inv(s) && Step(s, Finish(b, id)).Some? && NeverCompiled(Step(s, Finish(b, id)).value, x)
    ensures Unmentioned(Step(s, Finish(b, id)).value, x)
  {
    hide LastMark, BatchOk, LedgerOk;
    assert NeverCompiled(s, x);
  }

  lemma FinishKeepsLedger(s: Sys, b: nat, id: Id)
    requires LedgerOk(s) && b in s.batches && BatchOk(s, b) && Step(s, Finish(b, id)).Some?
    ensures LedgerOk(Step(s, Finish(b, id)).value)
  {
    hide LastMark;
  }

  lemma FinishedBatch(s: Sys, b: nat, id: Id, c: nat)
    requires Inv(s) && Step(s, Finish(b, id)).Some? && c in s.batches
    ensures BatchOk(Step(s, Finish(b, id)).value, c)
  {
    hide LastMark, LedgerOk, NeverCompiled, Unmentioned;
    assert BatchOk(s, c) && BatchOk(s, b);
  }

  lemma ClaimKeeps(s: Sys, b: nat, ids: set<Id>)
    requires Inv(s) && Step(s, ClaimJobs(b, ids)).Some?
    ensures Inv(Step(s, ClaimJobs(b, ids)).value)
  {
    hide LastMark, NeverCompiled, Unmentioned, BatchOk;
    var next := Step(s, ClaimJobs(b, ids)).value;
    forall c | c in next.batches ensures BatchOk(next, c) { ClaimedBatch(s, b, ids, c); }
    forall c | c in s.batches ensures (s.batches[c].todo + s.batches[c].ready) !! ids { HeldIsNotPending(s, c); }
    forall x | NeverCompiled(next, x) ensures Unmentioned(next, x) { ClaimMentions(s, b, ids, x); }
  }

  lemma HeldIsNotPending(s: Sys, c: nat)
    requires c in s.batches && BatchOk(s, c)
    ensures (s.batches[c].todo + s.batches[c].ready) !! PendingIds(s.jobs)
  {
    hide LastMark;
  }

  lemma ClaimMentions(s: Sys, b: nat, ids: set<Id>, x: Id)
    requires Inv(s) && Step(s, ClaimJobs(b, ids)).Some? && NeverCompiled(Step(s, ClaimJobs(b, ids)).value, x)
    ensures Unmentioned(Step(s, ClaimJobs(b, ids)).value, x)
  {
    hide LastMark, BatchOk, LedgerOk;
    assert NeverCompiled(s, x);
  }

  lemma ClaimedBatch(s: Sys, b: nat, ids: set<Id>, c: nat)
    requires Inv(s) && Step(s, ClaimJobs(b, ids)).Some? && c in Step(s, ClaimJobs(b, ids)).value.batches
    ensures BatchOk(Step(s, ClaimJobs(b, ids)).value, c)
  {
    hide LastMark, NeverCompiled, Unmentioned, HeldOk, BufferOk, ReceiptOk;
    if c != b {
      assert BatchOk(s, c);
      ClaimedElsewhere(s, Step(s, ClaimJobs(b, ids)).value, ids, s.batches[c]);
    } else {
      FreshBatch(s, Step(s, ClaimJobs(b, ids)).value, ids);
    }
  }

  lemma ClaimedElsewhere(s: Sys, next: Sys, ids: set<Id>, batch: Batch)
    requires HeldOk(s, batch) && BufferOk(s, batch) && ReceiptOk(s, batch) && ids <= PendingIds(s.jobs)
    requires next.ops == s.ops && next.evidence == s.evidence && next.accepted == s.accepted && next.jobs == Claimed(s.jobs, ids)
    ensures HeldOk(next, batch) && BufferOk(next, batch) && ReceiptOk(next, batch)
  {
    hide LastMark;
  }

  lemma FreshBatch(s: Sys, next: Sys, ids: set<Id>)
    requires LedgerOk(s) && ids <= PendingIds(s.jobs)
    requires next.ops == s.ops && next.evidence == s.evidence && next.accepted == s.accepted && next.jobs == Claimed(s.jobs, ids)
    ensures var batch := Batch(ids, {}, [], false); HeldOk(next, batch) && BufferOk(next, batch) && ReceiptOk(next, batch)
  {
    hide LastMark;
  }

  lemma OtherStepsKeep(s: Sys, a: Action)
    requires Inv(s) && Orderly(s, a) && Step(s, a).Some?
    requires a.Observe? || a.Retire? || a.Approve? || a.EnqueueJob?
    ensures Inv(Step(s, a).value)
  {
    hide LastMark, BatchOk, NeverCompiled, Unmentioned, LedgerOk;
    var next := Step(s, a).value;
    forall c | c in next.batches ensures BatchOk(next, c) { OtherStepBatch(s, a, c); }
    OtherStepLedger(s, a);
    forall x | NeverCompiled(next, x) ensures Unmentioned(next, x) { OtherStepMentions(s, a, x); }
  }

  lemma OtherStepLedger(s: Sys, a: Action)
    requires LedgerOk(s) && Orderly(s, a) && Step(s, a).Some?
    requires a.Observe? || a.Retire? || a.Approve? || a.EnqueueJob?
    ensures LedgerOk(Step(s, a).value)
  {
    hide LastMark;
    if a.Observe? { LastMarkNames(s.ops, a.id); }
  }

  lemma OtherStepMentions(s: Sys, a: Action, x: Id)
    requires Inv(s) && Step(s, a).Some? && NeverCompiled(Step(s, a).value, x)
    requires a.Observe? || a.Retire? || a.Approve? || a.EnqueueJob?
    ensures Unmentioned(Step(s, a).value, x)
  {
    hide LastMark, HeldOk, ReceiptOk;
    if a.Observe? && a.id == x {
      forall c, m | c in s.batches && m in s.batches[c].buffer ensures m.id != x { assert BatchOk(s, c); }
    } else {
      assert NeverCompiled(s, x);
    }
  }

  lemma OtherStepBatch(s: Sys, a: Action, c: nat)
    requires Inv(s) && Orderly(s, a) && Step(s, a).Some?
    requires a.Observe? || a.Retire? || a.Approve? || a.EnqueueJob?
    requires c in s.batches
    ensures BatchOk(Step(s, a).value, c)
  {
    hide LastMark, NeverCompiled, Unmentioned, HeldOk, BufferOk, ReceiptOk, LedgerOk;
    var next, batch := Step(s, a).value, s.batches[c];
    assert BatchOk(s, c);
    OtherStepHeld(s, a, batch);
    OtherStepBuffer(s, a, batch);
    OtherStepReceipt(s, a, batch);
    assert next.batches[c] == batch;
  }

  lemma OtherStepHeld(s: Sys, a: Action, batch: Batch)
    requires HeldOk(s, batch) && Step(s, a).Some? && (a.Observe? || a.Retire? || a.Approve? || a.EnqueueJob?)
    ensures HeldOk(Step(s, a).value, batch)
  {
  }

  lemma OtherStepBuffer(s: Sys, a: Action, batch: Batch)
    requires BufferOk(s, batch) && Step(s, a).Some? && (a.Observe? || a.Retire? || a.Approve? || a.EnqueueJob?)
    requires Orderly(s, a) && batch in s.batches.Values
    ensures BufferOk(Step(s, a).value, batch)
  {
    var next := Step(s, a).value;
    if a.EnqueueJob? && a.retry && a.id in s.jobs && s.jobs[a.id] == Failed {
      assert FailureMark(a.id) !in batch.buffer;
    }
  }

  lemma OtherStepReceipt(s: Sys, a: Action, batch: Batch)
    requires ReceiptOk(s, batch) && Step(s, a).Some? && (a.Observe? || a.Retire? || a.Approve? || a.EnqueueJob?)
    requires HeldOk(s, batch)
    ensures ReceiptOk(Step(s, a).value, batch)
  {
    hide LastMark;
  }

  lemma CrashKeeps(s: Sys, gone: set<nat>)
    requires Inv(s)
    ensures Inv(Step(s, Crash(gone)).value)
  {
    hide LastMark, HeldOk, BufferOk, ReceiptOk, LedgerOk;
    var next := Step(s, Crash(gone)).value;
    LedgerFrame(s, next);
    forall c | c in next.batches ensures BatchOk(next, c) {
      assert BatchOk(s, c);
      BatchFrame(s, next, s.batches[c]);
    }
    forall x | NeverCompiled(next, x) ensures Unmentioned(next, x) { assert NeverCompiled(s, x); }
  }

  lemma LedgerFrame(s: Sys, t: Sys)
    requires t.jobs == s.jobs && t.ops == s.ops && t.evidence == s.evidence && t.accepted == s.accepted
    ensures LedgerOk(t) <==> LedgerOk(s)
  {
    hide LastMark;
  }

  lemma BatchFrame(s: Sys, t: Sys, batch: Batch)
    requires t.jobs == s.jobs && t.ops == s.ops && t.evidence == s.evidence && t.accepted == s.accepted
    ensures HeldOk(t, batch) == HeldOk(s, batch) && BufferOk(t, batch) == BufferOk(s, batch) && ReceiptOk(t, batch) == ReceiptOk(s, batch)
  {
    hide LastMark;
  }

  lemma SyncKeeps(s: Sys)
    requires Inv(s) && Settled(s)
    ensures Inv(Step(s, Sync).value)
  {
    hide LastMark, BatchOk, LedgerOk, NeverCompiled, Unmentioned, Synced, Settled;
    var next := Step(s, Sync).value;
    forall c | c in next.batches ensures BatchOk(next, c) { SyncedBatch(s, c); }
    SyncKeepsLedger(s);
    forall x | NeverCompiled(next, x) ensures Unmentioned(next, x) { SyncMentions(s, x); }
  }

  lemma SyncMentions(s: Sys, x: Id)
    requires Inv(s) && NeverCompiled(Step(s, Sync).value, x)
    ensures Unmentioned(Step(s, Sync).value, x)
  {
    hide LastMark, BatchOk, LedgerOk;
    assert NeverCompiled(s, x);
  }

  lemma SyncKeepsLedger(s: Sys)
    requires LedgerOk(s)
    ensures LedgerOk(Step(s, Sync).value)
  {
    var next := Step(s, Sync).value;
    forall id | id in next.jobs && next.jobs[id] == Done && StillDue(next, id) ensures LastMark(next.ops, id) == Some(Resolved(id)) {
      LastMarkNames(s.ops, id);
    }
  }

  /** A settled batch is left as it was, apart from receipted jobs that become done. */
  lemma SyncedBatch(s: Sys, c: nat)
    requires Inv(s) && Settled(s) && c in s.batches
    ensures BatchOk(Step(s, Sync).value, c)
  {
    hide LastMark, NeverCompiled, Unmentioned, HeldOk, BufferOk, ReceiptOk, LedgerOk, Synced;
    var next, batch := Step(s, Sync).value, s.batches[c];
    assert BatchOk(s, c);
    SettledBatch(s, batch);
    SyncedHeld(s, batch);
    SyncedBuffer(s, batch);
    SyncedReceipt(s, next, batch);
  }

  lemma SettledBatch(s: Sys, batch: Batch)
    requires HeldOk(s, batch) && Settled(s) && batch in s.batches.Values
    ensures batch.todo == {} && (batch.ready != {} ==> batch.flushed)
    ensures forall id :: id in batch.ready ==> s.jobs[id] == Done || Eligible(s.evidence, s.accepted, id)
  {
    forall id | id in batch.todo + batch.ready ensures batch.flushed { assert id in s.jobs && (s.jobs[id] == Done || batch.flushed); }
  }

  lemma SyncedHeld(s: Sys, batch: Batch)
    requires HeldOk(s, batch) && ReceiptOk(s, batch) && batch.todo == {} && (batch.ready != {} ==> batch.flushed)
    requires forall id :: id in batch.ready ==> s.jobs[id] == Done || Eligible(s.evidence, s.accepted, id)
    ensures HeldOk(Step(s, Sync).value, batch)
  {
    hide LastMark;
  }

  lemma SyncedBuffer(s: Sys, batch: Batch)
    requires BufferOk(s, batch) && LedgerOk(s)
    ensures BufferOk(Step(s, Sync).value, batch)
  {
    hide LastMark;
    var next := Step(s, Sync).value;
    forall m | m in batch.buffer && m.FailureMark? ensures m.id in next.jobs && next.jobs[m.id] == Failed {
      LastMarkNames(s.ops, m.id);
    }
  }

  lemma SyncedReceipt(s: Sys, next: Sys, batch: Batch)
    requires ReceiptOk(s, batch) && next.ops == s.ops && next.evidence == s.evidence && next.accepted == s.accepted
    ensures ReceiptOk(next, batch)
  {
    hide LastMark;
  }

  lemma StepKeepsInv(s: Sys, a: Action)
    requires Inv(s) && Orderly(s, a) && Step(s, a).Some?
    ensures Inv(Step(s, a).value)
  {
    hide Step, Inv;
    match a {
      case Process(b, id, compiles) => ProcessKeeps(s, b, id, compiles);
      case Flush(b) => FlushKeeps(s, b);
      case Finish(b, id) => FinishKeeps(s, b, id);
      case Crash(gone) => CrashKeeps(s, gone);
      case Sync => SyncKeeps(s);
      case ClaimJobs(b, ids) => ClaimKeeps(s, b, ids);
      case _ => OtherStepsKeep(s, a);
    }
  }

  predicate IsDone(s: Sys, id: Id) { id in s.jobs && s.jobs[id] == Done }

  /** From a state that meets the invariant no step leaves `done`. */
  lemma DoneStays(s: Sys, a: Action, id: Id)
    requires Inv(s) && Step(s, a).Some? && IsDone(s, id)
    ensures IsDone(Step(s, a).value, id)
  {
    hide LastMark;
    if a.Process? { assert BatchOk(s, a.b); }
    if a.Sync? { LastMarkNames(s.ops, id); }
  }

  // ---- Runs ----------------------------------------------------------------------------------------

  ghost predicate Run(states: seq<Sys>, actions: seq<Action>) {
    && |states| == |actions| + 1
    && forall k :: 0 <= k < |actions| ==> Orderly(states[k], actions[k]) && Step(states[k], actions[k]) == Some(states[k + 1])
  }

  /** A done job of a compilable, effectively accepted observation has a terminal receipt if and
      only if the observation's raw status is accepted. */
  ghost predicate ReceiptsExact(s: Sys) {
    forall id :: IsDone(s, id) && Worthwhile(s, id) ==> (Resolved(id) in s.ops <==> s.evidence[id].rawAccepted)
  }

  lemma InvReceipts(s: Sys)
    requires Inv(s)
    ensures ReceiptsExact(s)
  {
    hide LastMark, BatchOk, Disjoint;
    forall id | IsDone(s, id) && Worthwhile(s, id) ensures Resolved(id) in s.ops <==> s.evidence[id].rawAccepted {
      LastMarkNames(s.ops, id);
      if !s.evidence[id].rawAccepted { assert NeverCompiled(s, id); }
    }
  }

  ghost predicate SafeRun(states: seq<Sys>) {
    && (forall k :: 0 <= k < |states| ==> Disjoint(states[k]) && ReceiptsExact(states[k]))
    && (forall j, k, id :: 0 <= j <= k < |states| && IsDone(states[j], id) ==> IsDone(states[k], id))
  }

  /** Over every orderly run, from every state that meets the invariant: receipts are exact, done is
      never left, and no observation is an open obligation of two batches. */
  lemma {:induction false} RunKeepsInv(states: seq<Sys>, actions: seq<Action>, j: nat, k: nat)
    requires Run(states, actions) && Inv(states[0]) && j <= k < |states|
    ensures Inv(states[k])
    ensures forall id :: IsDone(states[j], id) ==> IsDone(states[k], id)
    decreases k, k - j
  {
    hide Step, Inv, Orderly, IsDone;
    if k > 0 {
      RunKeepsInv(states, actions, if j < k then j else j - 1, k - 1);
      assert Step(states[k - 1], actions[k - 1]) == Some(states[k - 1 + 1]);
      StepKeepsInv(states[k - 1], actions[k - 1]);
      forall id | IsDone(states[k - 1], id) ensures IsDone(states[k], id) {
        DoneStays(states[k - 1], actions[k - 1], id);
      }
    }
  }

  lemma InvDisjoint(s: Sys)
    requires Inv(s)
    ensures Disjoint(s)
  {
  }

  lemma QueueIsSafe(states: seq<Sys>, actions: seq<Action>)
    requires Run(states, actions) && Inv(states[0])
    ensures SafeRun(states)
  {
    hide Inv, Run, Disjoint, ReceiptsExact, IsDone;
    assert |states| == |actions| + 1 by { RunLength(states, actions); }
    forall k | 0 <= k < |states| ensures Disjoint(states[k]) && ReceiptsExact(states[k]) {
      RunKeepsInv(states, actions, k, k);
      InvDisjoint(states[k]);
      InvReceipts(states[k]);
    }
    forall j, k, id | 0 <= j <= k < |states| && IsDone(states[j], id) ensures IsDone(states[k], id) {
      RunKeepsInv(states, actions, j, k);
    }
  }

  lemma RunLength(states: seq<Sys>, actions: seq<Action>)
    requires Run(states, actions)
    ensures |states| == |actions| + 1
  {
  }

  /** Every orderly continuation is safe. */
  ghost predicate SafeFrom(s: Sys) {
    forall states, actions {:trigger Run(states, actions)} :: Run(states, actions) && states[0] == s ==> SafeRun(states)
  }

  lemma InvIsSafe(s: Sys)
    requires Inv(s)
    ensures SafeFrom(s)
  {
    hide Inv, SafeRun, Step, Orderly;
    forall states, actions | Run(states, actions) && states[0] == s ensures SafeRun(states) { QueueIsSafe(states, actions); }
  }

  // ---- What safety costs -----------------------------------------------------------------------------

  lemma {:induction false} UnsafeBefore(s: Sys, a: Action, t: Sys)
    requires Orderly(s, a) && Step(s, a) == Some(t) && !SafeFrom(t)
    ensures !SafeFrom(s)
  {
    hide Step, Orderly, Disjoint, ReceiptsExact, IsDone;
    var states, actions :| Run(states, actions) && states[0] == t && !SafeRun(states);
    var longer, more := [s] + states, [a] + actions;
    forall k | 0 <= k < |more| ensures Orderly(longer[k], more[k]) && Step(longer[k], more[k]) == Some(longer[k + 1]) {
      if k > 0 { assert Step(states[k - 1], actions[k - 1]) == Some(states[k - 1 + 1]); }
    }
    assert Run(longer, more) && longer[0] == s;
    PrefixedRun(s, states);
  }

  lemma PrefixedRun(s: Sys, states: seq<Sys>)
    ensures SafeRun([s] + states) ==> SafeRun(states)
  {
    hide Disjoint, ReceiptsExact, IsDone;
    var longer := [s] + states;
    if SafeRun(longer) {
      forall k | 0 <= k < |states| ensures Disjoint(states[k]) && ReceiptsExact(states[k]) { assert longer[k + 1] == states[k]; }
      forall j, k, id | 0 <= j <= k < |states| && IsDone(states[j], id) ensures IsDone(states[k], id) {
        assert longer[j + 1] == states[j] && longer[k + 1] == states[k];
      }
    }
  }

  lemma SharedIsUnsafe(s: Sys)
    requires !Disjoint(s)
    ensures !SafeFrom(s)
  {
    hide Disjoint;
    assert Run([s], []) && [s][0] == s;
  }

  lemma LosingDoneIsUnsafe(s: Sys, a: Action, t: Sys, id: Id)
    requires Orderly(s, a) && Step(s, a) == Some(t) && IsDone(s, id) && !IsDone(t, id)
    ensures !SafeFrom(s)
  {
    hide Step, Orderly, IsDone;
    var states, actions := [s, t], [a];
    assert Run(states, actions) && states[0] == s;
    assert IsDone(states[0], id) && !IsDone(states[1], id);
    assert !SafeRun(states);
  }

  lemma {:induction false} AboveAll(xs: set<nat>) returns (c: nat)
    ensures forall x :: x in xs ==> x < c
    decreases |xs|
  {
    if xs == {} {
      c := 0;
    } else {
      var x :| x in xs;
      var rest := xs - {x};
      assert xs == rest + {x};
      var d := AboveAll(rest);
      c := if d > x then d else x + 1;
    }
  }

  /** What a sync makes of an unsettled job: it is offered again, at once or after a retry. */
  lemma UnsettledIsOffered(s: Sys, b: nat, id: Id)
    requires Inv(s) && b in s.batches && id in s.batches[b].todo + s.batches[b].ready
    requires s.jobs[id] != Done && !(s.batches[b].flushed && Eligible(s.evidence, s.accepted, id))
    ensures var next := Step(s, Sync).value;
      && id in next.jobs && (next.jobs[id] == Pending || next.jobs[id] == Failed)
      && NoMarkPending(next, id) && s.jobs[id] == Running
  {
    hide NeverCompiled, Unmentioned, LastMark;
    assert BatchOk(s, b);
    LastMarkNames(s.ops, id);
    forall c | c in s.batches ensures FailureMark(id) !in s.batches[c].buffer { assert BatchOk(s, c); }
  }

  /** The losing run: a living worker still holds the job, the sync offers it again, and a second
      worker claims it. */
  lemma UnsettledSyncIsUnsafe(s: Sys, b: nat, id: Id)
    requires Inv(s) && b in s.batches && id in s.batches[b].todo + s.batches[b].ready
    requires s.jobs[id] != Done && !(s.batches[b].flushed && Eligible(s.evidence, s.accepted, id))
    ensures !SafeFrom(Step(s, Sync).value)
  {
    hide Inv, SafeFrom, Synced;
    var next := Step(s, Sync).value;
    UnsettledIsOffered(s, b, id);
    var c := AboveAll(s.batches.Keys);
    var offered := Step(next, EnqueueJob(id, true)).value;
    assert offered.jobs[id] == Pending && offered.batches == s.batches;
    var shared := Step(offered, ClaimJobs(c, {id})).value;
    assert shared.batches[c].todo == {id} && shared.batches[b] == s.batches[b];
    assert !Disjoint(shared) by { assert id in (shared.batches[b].todo + shared.batches[b].ready) * (shared.batches[c].todo + shared.batches[c].ready); }
    SharedIsUnsafe(shared);
    UnsafeBefore(offered, ClaimJobs(c, {id}), shared);
    UnsafeBefore(next, EnqueueJob(id, true), offered);
  }

  /** A sync while workers are alive is safe if and only if everything they hold is settled. */
  lemma SyncIsSafeIff(s: Sys)
    requires Inv(s)
    ensures Settled(s) <==> SafeFrom(Step(s, Sync).value)
  {
    hide Inv, SafeFrom, Synced;
    if Settled(s) {
      SyncKeeps(s);
      InvIsSafe(Step(s, Sync).value);
    } else {
      var b, id :| b in s.batches && id in s.batches[b].todo + s.batches[b].ready
        && !(id in s.jobs && (s.jobs[id] == Done || (s.batches[b].flushed && Eligible(s.evidence, s.accepted, id))));
      HeldIsJob(s, b, id);
      UnsettledSyncIsUnsafe(s, b, id);
    }
  }

  lemma HeldIsJob(s: Sys, b: nat, id: Id)
    requires Inv(s) && b in s.batches && id in s.batches[b].todo + s.batches[b].ready
    ensures id in s.jobs
  {
    hide LastMark;
    assert BatchOk(s, b);
  }

  /** In full: worker `b` holds the job, another process syncs, worker `c` claims, compiles, flushes
      and finishes it, and then `b` fails it. `done` is left. */
  lemma SyncUnderWorkerLosesDone(s: Sys, b: nat, c: nat, id: Id)
    requires Inv(s) && b in s.batches && id in s.batches[b].todo && StillDue(s, id) && c !in s.batches
    ensures var s1 := Step(s, Sync).value;
      var s2 := Step(s1, EnqueueJob(id, true)).value;     // only needed after an earlier failure
      && Step(s2, ClaimJobs(c, {id})).Some?
      && var s3 := Step(s2, ClaimJobs(c, {id})).value;
      && Step(s3, Process(c, id, true)).Some?
      && var s4 := Step(s3, Process(c, id, true)).value;
      && Step(s4, Flush(c)).Some?
      && var s5 := Step(s4, Flush(c)).value;
      && Step(s5, Finish(c, id)).Some?
      && var s6 := Step(s5, Finish(c, id)).value;
      && IsDone(s6, id) && Step(s6, Process(b, id, false)).Some?
      && var s7 := Step(s6, Process(b, id, false)).value;
      id in s7.jobs && s7.jobs[id] == Failed
  {
    hide Inv, Step;
    OfferedAgain(s, b, id);
    var s2 := Step(Step(s, Sync).value, EnqueueJob(id, true)).value;
    CompiledAlone(s2, c, id);
    var s6 := Step(Step(Step(Step(s2, ClaimJobs(c, {id})).value, Process(c, id, true)).value, Flush(c)).value, Finish(c, id)).value;
    FailsHeld(s6, b, id);
  }

  lemma OfferedAgain(s: Sys, b: nat, id: Id)
    requires Inv(s) && b in s.batches && id in s.batches[b].todo && StillDue(s, id)
    ensures Step(s, Sync).Some? && Step(Step(s, Sync).value, EnqueueJob(id, true)).Some? && !s.batches[b].flushed
    ensures var s2 := Step(Step(s, Sync).value, EnqueueJob(id, true)).value;
      id in s2.jobs && s2.jobs[id] == Pending && StillDue(s2, id) && s2.batches == s.batches
  {
    hide Inv, Synced, LastMark;
    HeldIsRunning(s, b, id);
    UnsettledIsOffered(s, b, id);
  }

  lemma FailsHeld(s: Sys, b: nat, id: Id)
    requires b in s.batches && !s.batches[b].flushed && id in s.batches[b].todo && StillDue(s, id) && id in s.jobs
    ensures Step(s, Process(b, id, false)).Some?
    ensures id in Step(s, Process(b, id, false)).value.jobs && Step(s, Process(b, id, false)).value.jobs[id] == Failed
  {
  }

  lemma HeldIsRunning(s: Sys, b: nat, id: Id)
    requires Inv(s) && b in s.batches && id in s.batches[b].todo
    ensures id in s.jobs && s.jobs[id] == Running && !s.batches[b].flushed
  {
    hide LastMark;
    assert BatchOk(s, b);
  }

  /** A fresh worker that claims one pending job, compiles it, flushes and finishes. */
  lemma CompiledAlone(s: Sys, c: nat, id: Id)
    requires id in s.jobs && s.jobs[id] == Pending && StillDue(s, id) && c !in s.batches
    ensures var s3 := Step(s, ClaimJobs(c, {id}));
      && s3.Some?
      && var s4 := Step(s3.value, Process(c, id, true));
      && s4.Some?
      && var s5 := Step(s4.value, Flush(c));
      && s5.Some?
      && var s6 := Step(s5.value, Finish(c, id));
      && s6.Some?
      && s6.value.jobs.Keys == s.jobs.Keys && s6.value.jobs[id] == Done && StillDue(s6.value, id)
      && s6.value.evidence == s.evidence && s6.value.accepted == s.accepted
      && forall b :: b in s.batches ==> b in s6.value.batches && s6.value.batches[b] == s.batches[b]
  {
    assert id in PendingIds(s.jobs);
    var s3 := Step(s, ClaimJobs(c, {id})).value;
    assert s3.batches[c] == Batch({id}, {}, [], false);
    var s4 := Step(s3, Process(c, id, true)).value;
    assert s4.batches[c].todo == {} && s4.batches[c].ready == {id};
  }

  /** A failure mark that lands after the receipt: the batch drains, flushes, and the next sync
      turns the done job into a failed one. */
  lemma {:induction false} LateMarkIsUnsafe(s: Sys, b: nat, id: Id)
    requires b in s.batches && !s.batches[b].flushed && id !in s.batches[b].todo
    requires FailureMark(id) in s.batches[b].buffer && Resolved(id) !in s.batches[b].buffer
    requires IsDone(s, id) && StillDue(s, id)
    ensures !SafeFrom(s)
    decreases |s.batches[b].todo|
  {
    hide SafeFrom, LastMark;
    if s.batches[b].todo == {} {
      var flushed := Step(s, Flush(b)).value;
      var alone := Step(flushed, Crash(flushed.batches.Keys)).value;
      var next := Step(alone, Sync).value;
      assert Settled(alone);
      LastMarkConcat(s.ops, s.batches[b].buffer, id);
      LastMarkNames(s.batches[b].buffer, id);
      assert LastMark(s.batches[b].buffer, id) == Some(FailureMark(id));
      assert next.jobs[id] == Failed;
      LosingDoneIsUnsafe(alone, Sync, next, id);
      UnsafeBefore(flushed, Crash(flushed.batches.Keys), alone);
      UnsafeBefore(s, Flush(b), flushed);
    } else {
      var x :| x in s.batches[b].todo;
      var next := Step(s, Process(b, x, true)).value;
      var was, now := s.batches[b].buffer, next.batches[b].buffer;
      assert now == was || now == was + [Resolved(x)];
      assert FailureMark(id) in now && Resolved(id) !in now;
      LateMarkIsUnsafe(next, b, id);
      UnsafeBefore(s, Process(b, x, true), next);
    }
  }

  /** A retry of a failed job that is still due is safe if and only if no worker still buffers a
      failure mark for it. */
  lemma RetryIsSafeIff(s: Sys, id: Id)
    requires Inv(s) && StillDue(s, id) && id in s.jobs && s.jobs[id] == Failed
    ensures NoMarkPending(s, id) <==> SafeFrom(Step(s, EnqueueJob(id, true)).value)
  {
    hide Inv, SafeFrom;
    var offered := Step(s, EnqueueJob(id, true)).value;
    if NoMarkPending(s, id) {
      OtherStepsKeep(s, EnqueueJob(id, true));
      InvIsSafe(offered);
    } else {
      var b :| b in s.batches && FailureMark(id) in s.batches[b].buffer;
      BufferedIsFailed(s, b, id);
      var c := AboveAll(s.batches.Keys);
      CompiledAlone(offered, c, id);
      var s3 := Step(offered, ClaimJobs(c, {id})).value;
      var s4 := Step(s3, Process(c, id, true)).value;
      var s5 := Step(s4, Flush(c)).value;
      var s6 := Step(s5, Finish(c, id)).value;
      LateMarkIsUnsafe(s6, b, id);
      UnsafeBefore(s5, Finish(c, id), s6);
      UnsafeBefore(s4, Flush(c), s5);
      UnsafeBefore(s3, Process(c, id, true), s4);
      UnsafeBefore(offered, ClaimJobs(c, {id}), s3);
    }
  }

  lemma BufferedIsFailed(s: Sys, b: nat, id: Id)
    requires Inv(s) && b in s.batches && FailureMark(id) in s.batches[b].buffer
    ensures id !in s.batches[b].todo && Resolved(id) !in s.batches[b].buffer && !s.batches[b].flushed
  {
    hide LastMark;
    assert BatchOk(s, b);
  }

  // ---- Quarantined observations -----------------------------------------------------------------------

  /** The post-commit hooks enqueue only observations whose raw status is accepted. */
  predicate Hooked(s: Sys, a: Action) { a.EnqueueJob? ==> a.id in s.evidence && s.evidence[a.id].rawAccepted }

  predicate RawJobs(s: Sys) { forall id :: id in s.jobs ==> id in s.evidence && s.evidence[id].rawAccepted }

  lemma HookedStep(s: Sys, a: Action)
    requires RawJobs(s) && Hooked(s, a) && Step(s, a).Some?
    ensures RawJobs(Step(s, a).value)
  {
    hide LastMark;
  }

  /** With the repository's own hooks no raw-quarantined observation reaches the ledger, so every
      done job of a compilable, effectively accepted observation has its receipt. */
  lemma {:induction false} HookedRunsHaveReceipts(states: seq<Sys>, actions: seq<Action>, k: nat)
    requires Run(states, actions) && Inv(states[0]) && RawJobs(states[0]) && k < |states|
    requires forall j :: 0 <= j < |actions| ==> Hooked(states[j], actions[j])
    ensures RawJobs(states[k])
    ensures forall id :: IsDone(states[k], id) && Worthwhile(states[k], id) ==> Resolved(id) in states[k].ops
  {
    hide Step, Inv, Orderly, Hooked;
    if k > 0 {
      HookedRunsHaveReceipts(states, actions, k - 1);
      assert Step(states[k - 1], actions[k - 1]) == Some(states[k - 1 + 1]);
      HookedStep(states[k - 1], actions[k - 1]);
    }
    RunKeepsInv(states, actions, k, k);
    InvReceipts(states[k]);
  }

  /** Enqueued by hand, a quarantined observation is completed as not worthwhile; approved after
      that, it is compilable and accepted, done, and has no receipt. */
  lemma ApprovedAfterDone(s: Sys, b: nat, id: Id)
    requires Inv(s) && id !in s.evidence && id !in s.jobs && b !in s.batches
    ensures var s1 := Step(s, Observe(id, Observed(false, true))).value;
      var s2 := Step(s1, EnqueueJob(id, false)).value;
      && Step(s2, ClaimJobs(b, {id})).Some?
      && var s3 := Step(s2, ClaimJobs(b, {id})).value;
      && Step(s3, Process(b, id, true)).Some?
      && var s4 := Step(s3, Process(b, id, true)).value;
      && Step(s4, Approve(id)).Some?
      && var s5 := Step(s4, Approve(id)).value;
      IsDone(s5, id) && Worthwhile(s5, id) && Resolved(id) !in s5.ops
  {
    hide LastMark;
    assert forall m :: m in s.ops ==> m.id != id;
    var s2 := Step(Step(s, Observe(id, Observed(false, true))).value, EnqueueJob(id, false)).value;
    assert id in PendingIds(s2.jobs);
    var s3 := Step(s2, ClaimJobs(b, {id})).value;
    assert s3.batches[b] == Batch({id}, {}, [], false);
  }

  /** Enqueued by hand after its approval, it is compiled, but no step ever completes its job while
      it stays accepted: completion tests the raw status. The hooks never enqueue it at all. */
  lemma ApprovedQuarantineNeverDone(s: Sys, a: Action, id: Id)
    requires id in s.evidence && !s.evidence[id].rawAccepted && s.evidence[id].compilable && id in s.accepted
    requires id in s.jobs ==> s.jobs[id] != Done
    requires Step(s, a).Some? && id in Step(s, a).value.accepted
    ensures id in Step(s, a).value.jobs ==> Step(s, a).value.jobs[id] != Done
  {
    hide LastMark;
  }

  // ---- One drain ---------------------------------------------------------------------------------

  /** The ledger and the batch of one worker, between two of its statements. */
  ghost predicate Tracks(s: Sys, queue: Queue, ops: seq<Mark>, b: nat, todo: set<Id>, ready: set<Id>, buffer: seq<Mark>)
    reads queue
  {
    && Inv(s) && s.jobs == queue.jobs && s.ops == ops
    && b in s.batches && s.batches[b] == Batch(todo, ready, buffer, false)
  }

  /** How a claimed job ends up when nothing interrupts the drain. */
  predicate Drained(s: Sys, id: Id, compiles: map<Id, bool>, jobs: Jobs, ops: seq<Mark>) {
    id in jobs &&
    if !Worthwhile(s, id) then jobs[id] == Done
    else if !(id in compiles && compiles[id]) then jobs[id] == Failed && FailureMark(id) in ops
    else Resolved(id) in ops && jobs[id] == if s.evidence[id].rawAccepted then Done else Running
  }

  /** The per-job loop: complete what is not worth compiling, buffer a receipt or a failure mark
      for the rest. `compiles[id]` is whether production of claims succeeds. */
  method ProcessJobs(queue: Queue, ghost s0: Sys, b: nat, jobs: set<Id>, evidence: map<Id, Observed>, accepted: set<Id>, compiles: map<Id, bool>)
    returns (ready: set<Id>, buffer: seq<Mark>, ghost s: Sys)
    requires s0.evidence == evidence && s0.accepted == accepted && Tracks(s0, queue, s0.ops, b, jobs, {}, [])
    modifies queue
    ensures Tracks(s, queue, s0.ops, b, {}, ready, buffer)
    ensures s.evidence == evidence && s.accepted == accepted && s.batches.Keys == s0.batches.Keys
    ensures ready <= jobs && forall id :: id in jobs ==>
      if !Worthwhile(s0, id) then id in queue.jobs && queue.jobs[id] == Done
      else if id in compiles && compiles[id] then id in ready && Resolved(id) in buffer
      else id in queue.jobs && queue.jobs[id] == Failed && FailureMark(id) in buffer
    ensures forall id :: id in ready ==> Worthwhile(s0, id) && id in compiles && compiles[id]
  {
    hide Inv;
    s, ready, buffer := s0, {}, [];
    var todo := jobs;
    while todo != {}
      invariant todo <= jobs && ready <= jobs - todo
      invariant Tracks(s, queue, s0.ops, b, todo, ready, buffer)
      invariant s.evidence == evidence && s.accepted == accepted && s.batches.Keys == s0.batches.Keys
      invariant forall id :: id in jobs && id !in todo ==>
        if !Worthwhile(s0, id) then id in queue.jobs && queue.jobs[id] == Done
        else if id in compiles && compiles[id] then id in ready && Resolved(id) in buffer
        else id in queue.jobs && queue.jobs[id] == Failed && FailureMark(id) in buffer
      invariant forall id :: id in ready ==> Worthwhile(s0, id) && id in compiles && compiles[id]
      decreases todo
    {
      var id :| id in todo;
      ghost var step := Process(b, id, id in compiles && compiles[id]);
      StepKeepsInv(s, step);
      HeldIsRunning(s, b, id);
      s := Step(s, step).value;
      todo := todo - {id};
      if !(id in evidence && id in accepted && evidence[id].compilable) {
        queue.Complete(id);
      } else if id in compiles && compiles[id] {
        buffer := buffer + [Resolved(id)];
        ready := ready + {id};
      } else {
        queue.Fail(id);
        buffer := buffer + [FailureMark(id)];
      }
    }
  }

  /** The closing loop: complete every compiled job whose raw status is accepted. */
  method CompleteReady(queue: Queue, ghost s0: Sys, b: nat, ready: set<Id>, evidence: map<Id, Observed>) returns (ghost s: Sys)
    requires Inv(s0) && s0.jobs == queue.jobs && s0.evidence == evidence
    requires b in s0.batches && s0.batches[b] == Batch({}, ready, [], true)
    modifies queue
    ensures Inv(s) && s == s0.(jobs := queue.jobs, batches := s0.batches[b := Batch({}, {}, [], true)])
    ensures queue.jobs.Keys == old(queue.jobs).Keys && forall id :: id in queue.jobs ==>
      queue.jobs[id] == if id in ready && id in evidence && evidence[id].rawAccepted then Done else old(queue.jobs)[id]
  {
    hide Inv;
    s := s0;
    ghost var before := queue.jobs;
    var left := ready;
    while left != {}
      invariant left <= ready && Inv(s)
      invariant s == s0.(jobs := queue.jobs, batches := s0.batches[b := Batch({}, left, [], true)])
      invariant queue.jobs.Keys == before.Keys && forall id :: id in queue.jobs ==>
        queue.jobs[id] == if id in ready - left && id in evidence && evidence[id].rawAccepted then Done else before[id]
      decreases left
    {
      var id :| id in left;
      StepKeepsInv(s, Finish(b, id));
      s := Step(s, Finish(b, id)).value;
      left := left - {id};
      if id in evidence && evidence[id].rawAccepted {
        queue.Complete(id);
      }
    }
  }

  /** `runCompileBatch`: claim, process, flush, then complete. Every claimed job is resolved, and
      the system invariant holds again with the batch done. */
  method RunCompileBatch(queue: Queue, ghost s0: Sys, b: nat, limit: int, evidence: map<Id, Observed>, accepted: set<Id>,
                         ops: seq<Mark>, compiles: map<Id, bool>)
    returns (claimed: set<Id>, after: seq<Mark>, ghost s: Sys)
    requires Inv(s0) && s0 == Sys(queue.jobs, ops, evidence, accepted, s0.retired, s0.batches) && b !in s0.batches
    modifies queue
    ensures Inv(s) && s.jobs == queue.jobs && s.ops == after && ops <= after
    ensures s.evidence == evidence && s.accepted == accepted
    ensures b in s.batches && s.batches[b].todo == {} && s.batches[b].ready == {}
    ensures claimed <= PendingIds(s0.jobs) && forall id :: id in claimed ==> Drained(s0, id, compiles, queue.jobs, after)
  {
    hide Inv;
    claimed := queue.ClaimBatch(limit);
    StepKeepsInv(s0, ClaimJobs(b, claimed));
    s := Step(s0, ClaimJobs(b, claimed)).value;
    var ready, buffer;
    ready, buffer, s := ProcessJobs(queue, s, b, claimed, evidence, accepted, compiles);
    forall id | id in ready ensures id in queue.jobs && queue.jobs[id] == Running { ReadyIsRunning(s, b, id); }
    StepKeepsInv(s, Flush(b));
    s := Step(s, Flush(b)).value;
    after := ops + buffer;
    s := CompleteReady(queue, s, b, ready, evidence);
  }

  lemma ReadyIsRunning(s: Sys, b: nat, id: Id)
    requires Inv(s) && b in s.batches && id in s.batches[b].ready && !s.batches[b].flushed
    ensures id in s.jobs && s.jobs[id] == Running
  {
    assert BatchOk(s, b);
  }
}
