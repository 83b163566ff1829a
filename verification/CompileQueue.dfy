/** The durable compile queue: the job ledger, its transitions, and the sync that rebuilds it from
    evidence and receipts when a process opens it. */
module CompileQueue {
  import opened Evidence

  datatype Job = Pending | Running | Done | Failed
  type Jobs = map<Id, Job>

  /** What the worker needs to know of an observation on the evidence log. `compilable` is false
      for claim_extracted, correction, tombstone and erasure records. */
  datatype Observed = Observed(rawAccepted: bool, compilable: bool)

  /** The reflect.auto entries sync reads from the operations log. */
  datatype Mark = Resolved(id: Id) | FailureMark(id: Id)

  // ---- The ledger --------------------------------------------------------------------------

  function Enqueued(jobs: Jobs, id: Id, retry: bool): Jobs {
    if id !in jobs then jobs[id := Pending]
    else if jobs[id] == Failed && retry then jobs[id := Pending]
    else jobs
  }

  function Claimed(jobs: Jobs, ids: set<Id>): Jobs {
    map id | id in jobs :: if id in ids then Running else jobs[id]
  }

  function Set(jobs: Jobs, id: Id, to: Job): Jobs { if id in jobs then jobs[id := to] else jobs }

  function Reset(jobs: Jobs): Jobs { map id | id in jobs :: if jobs[id] == Running then Pending else jobs[id] }

  function LastMark(ops: seq<Mark>, id: Id): Option<Mark> {
    if ops == [] then None
    else if ops[|ops| - 1].id == id then Some(ops[|ops| - 1])
    else LastMark(ops[..|ops| - 1], id)
  }

  /** The queue object. */
  class Queue {
    var jobs: Jobs

    constructor ()
      ensures jobs == map[]
    {
      jobs := map[];
    }

    method Enqueue(id: Id, retry: bool) returns (enqueued: bool)
      modifies this
      ensures jobs == Enqueued(old(jobs), id, retry)
      ensures enqueued <==> id !in old(jobs) || (old(jobs)[id] != Done && (old(jobs)[id] == Failed ==> retry))
    {
      if id in jobs && jobs[id] == Done { return false; }
      if id in jobs && jobs[id] == Failed && !retry { return false; }
      if id in jobs && jobs[id] == Failed && retry {
        jobs := jobs[id := Pending];
        return true;
      }
      if id !in jobs {
        jobs := jobs[id := Pending];
      }
      return true;
    }

    /** One transaction: up to `limit` pending jobs become running. Which ones is the ledger's
        age order; any choice of the right size is allowed here. */
    method ClaimBatch(limit: int) returns (ids: set<Id>)
      modifies this
      ensures jobs == Claimed(old(jobs), ids)
      ensures forall id :: id in ids ==> id in old(jobs) && old(jobs)[id] == Pending
      ensures |ids| == Least(if limit <= 0 then 0 else limit, |PendingIds(old(jobs))|)
    {
      ids := {};
      var rest := PendingIds(jobs);
      while |ids| < limit && rest != {}
        invariant ids <= PendingIds(jobs) && rest == PendingIds(jobs) - ids
        invariant |ids| <= if limit <= 0 then 0 else limit
        decreases rest
      {
        var id :| id in rest;
        ids, rest := ids + {id}, rest - {id};
      }
      assert |PendingIds(jobs)| == |ids| + |rest| by { assert PendingIds(jobs) == ids + rest; }
      jobs := Claimed(jobs, ids);
    }

    method Complete(id: Id)
      modifies this
      ensures jobs == Set(old(jobs), id, Done)
    {
      if id in jobs { jobs := jobs[id := Done]; }
    }

    method Fail(id: Id)
      modifies this
      ensures jobs == Set(old(jobs), id, Failed)
    {
      if id in jobs { jobs := jobs[id := Failed]; }
    }

    method ResetStale()
      modifies this
      ensures jobs == Reset(old(jobs))
    {
      jobs := map id | id in jobs :: if jobs[id] == Running then Pending else jobs[id];
    }

    /** One observation of the sync pass: the latest receipt or failure mark decides, otherwise
        an existing row stays and a missing one is seeded. */
    method SyncObservation(id: Id, eligible: bool, ops: seq<Mark>)
      requires id in jobs ==> jobs[id] != Running
      modifies this
      ensures jobs == if eligible then old(jobs)[id := SyncedJob(old(jobs), ops, id)] else old(jobs)
    {
      if !eligible { return; }
      var last := LastMark(ops, id);
      if last.Some? && last.value.Resolved? {
        var _ := Enqueue(id, false);
        if jobs[id] != Done { Complete(id); }
      } else if last.Some? {
        var _ := Enqueue(id, false);
        if jobs[id] != Failed { Fail(id); }
      } else if !(id in jobs && (jobs[id] == Pending || jobs[id] == Running)) {
        var _ := Enqueue(id, false);
      }
    }

    /** `syncCompileQueue`: one pass over the evidence log. */
    method Sync(log: seq<Id>, evidence: map<Id, Observed>, accepted: set<Id>, ops: seq<Mark>)
      requires forall id :: id in log ==> id in evidence
      requires forall i, j :: 0 <= i < j < |log| ==> log[i] != log[j]
      modifies this
      ensures jobs == Synced(old(jobs), Seen(log), evidence, accepted, ops)
    {
      hide SyncedFrom, SyncedJob;
      ResetStale();
      ghost var base := jobs;
      NothingSeen(base, evidence, accepted, ops);
      for k := 0 to |log|
        invariant jobs == SyncedFrom(base, Seen(log[..k]), evidence, accepted, ops)
      {
        SeenGrows(log, k);
        SyncOne(base, Seen(log[..k]), evidence, accepted, ops, log[k]);
        SyncObservation(log[k], evidence[log[k]].rawAccepted && log[k] in accepted, ops);
      }
      assert log[..|log|] == log;
    }
  }

  function Seen(log: seq<Id>): set<Id> { set id | id in log }

  lemma SeenGrows(log: seq<Id>, k: nat)
    requires k < |log| && forall i, j :: 0 <= i < j < |log| ==> log[i] != log[j]
    ensures Seen(log[..k + 1]) == Seen(log[..k]) + {log[k]} && log[k] !in Seen(log[..k])
  {
    assert log[..k + 1] == log[..k] + [log[k]];
  }

  lemma NothingSeen(base: Jobs, evidence: map<Id, Observed>, accepted: set<Id>, ops: seq<Mark>)
    ensures SyncedFrom(base, Seen([]), evidence, accepted, ops) == base
  {
  }

  function Least(a: nat, b: nat): nat { if a < b then a else b }

  function PendingIds(jobs: Jobs): set<Id> { set id | id in jobs && jobs[id] == Pending }

  /** What sync makes of one eligible observation. */
  function SyncedJob(jobs: Jobs, ops: seq<Mark>, id: Id): Job {
    var last := LastMark(ops, id);
    if last.Some? then (if last.value.Resolved? then Done else Failed)
    else if id in jobs then jobs[id] else Pending
  }

  predicate Eligible(evidence: map<Id, Observed>, accepted: set<Id>, id: Id) {
    id in evidence && evidence[id].rawAccepted && id in accepted
  }

  function SyncedFrom(base: Jobs, seen: set<Id>, evidence: map<Id, Observed>, accepted: set<Id>, ops: seq<Mark>): Jobs {
    base + map id | id in seen && Eligible(evidence, accepted, id) :: SyncedJob(base, ops, id)
  }

  function Synced(jobs: Jobs, seen: set<Id>, evidence: map<Id, Observed>, accepted: set<Id>, ops: seq<Mark>): Jobs {
    SyncedFrom(Reset(jobs), seen, evidence, accepted, ops)
  }

  lemma SyncOne(base: Jobs, seen: set<Id>, evidence: map<Id, Observed>, accepted: set<Id>, ops: seq<Mark>, id: Id)
    requires id !in seen
    ensures var before, after := SyncedFrom(base, seen, evidence, accepted, ops), SyncedFrom(base, seen + {id}, evidence, accepted, ops);
      && (id in before <==> id in base) && (id in base ==> before[id] == base[id])
      && after == if Eligible(evidence, accepted, id) then before[id := SyncedJob(before, ops, id)] else before
  {
  }

  /** For every effectively accepted observation, whatever its raw status: it is on the ledger after
      a sync if and only if its raw status is accepted or it was there already, and nothing is left
      running. */
  lemma SyncCoversIff(jobs: Jobs, evidence: map<Id, Observed>, accepted: set<Id>, ops: seq<Mark>, id: Id)
    requires id in evidence && id in accepted
    ensures var after := Synced(jobs, evidence.Keys, evidence, accepted, ops);
      && (id in after <==> evidence[id].rawAccepted || id in jobs)
      && (id in after && LastMark(ops, id).None? ==> after[id] == if id in jobs && jobs[id] != Running then jobs[id] else Pending)
      && (id in after && evidence[id].rawAccepted && LastMark(ops, id).Some? ==>
            after[id] == if LastMark(ops, id).value.Resolved? then Done else Failed)
      && forall x :: x in after ==> after[x] != Running
  {
  }

  /** So a quarantined observation that a review approved is never put on the ledger by a sync. */
  lemma ApprovedQuarantineIsSkipped(jobs: Jobs, evidence: map<Id, Observed>, accepted: set<Id>, ops: seq<Mark>, id: Id)
    requires id in evidence && id in accepted && !evidence[id].rawAccepted && id !in jobs
    ensures id !in Synced(jobs, evidence.Keys, evidence, accepted, ops)
  {
    SyncCoversIff(jobs, evidence, accepted, ops, id);
  }

  // ---- Marks -----------------------------------------------------------------------------------

  lemma {:induction false} LastMarkNames(ops: seq<Mark>, id: Id)
    ensures LastMark(ops, id).Some? ==> LastMark(ops, id).value in ops && LastMark(ops, id).value.id == id
    ensures LastMark(ops, id).None? <==> forall m :: m in ops ==> m.id != id
  {
    if ops != [] {
      assert ops == ops[..|ops| - 1] + [ops[|ops| - 1]];
      LastMarkNames(ops[..|ops| - 1], id);
    }
  }

  lemma {:induction false} LastMarkConcat(ops: seq<Mark>, more: seq<Mark>, id: Id)
    ensures LastMark(ops + more, id) == if LastMark(more, id).Some? then LastMark(more, id) else LastMark(ops, id)
  {
    if more == [] {
      assert ops + more == ops;
    } else {
      assert (ops + more)[..|ops + more| - 1] == ops + more[..|more| - 1];
      LastMarkConcat(ops, more[..|more| - 1], id);
    }
  }

  /** A flush changes the last mark only of the ids it mentions. */
  lemma FlushedMark(ops: seq<Mark>, buffer: seq<Mark>, id: Id)
    ensures (forall m :: m in buffer ==> m.id != id) ==> LastMark(ops + buffer, id) == LastMark(ops, id)
    ensures Resolved(id) in buffer && FailureMark(id) !in buffer ==> LastMark(ops + buffer, id) == Some(Resolved(id))
  {
    LastMarkConcat(ops, buffer, id);
    LastMarkNames(buffer, id);
  }
}
