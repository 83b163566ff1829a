/** Event-valid time: half-open windows, bi-temporal matching, and the partition of time that a
    supersession chain maintains. */
module ValidTime {
  import opened Evidence
  import opened ClaimStore
  import opened Admission

  datatype Interval = Interval(from: Option<Time>, to: Option<Time>)
  datatype Document = Document(validTime: Interval, transactionTime: Interval)
  datatype Axis = ValidAxis | TransactionAxis
  datatype Relation = Overlaps | StartsIn

  datatype Constraint =
    | Current(axis: Axis, when: Option<Time>)
    | AsOf(axis: Axis, at: Time)
    | Range(axis: Axis, from: Time, to: Time, relation: Relation)

  predicate WellFormed(v: Interval) { v.from.Some? && v.to.Some? ==> v.from.value < v.to.value }

  predicate Contains(v: Interval, at: Time) {
    (v.from.None? || v.from.value <= at) && (v.to.None? || at < v.to.value)
  }

  function OnAxis(d: Document, a: Axis): Interval { if a.ValidAxis? then d.validTime else d.transactionTime }

  /** `matchesTemporalConstraint`; `None` is the thrown error. `now` is the clock. */
  function Matches(d: Document, c: Constraint, now: Time): Option<bool> {
    var v := OnAxis(d, c.axis);
    if !WellFormed(v) then None
    else match c
      case Current(_, when) => Some(Contains(v, if when.Some? then when.value else now))
      case AsOf(_, at) => Some(Contains(v, at))
      case Range(_, from, to, relation) =>
        if to <= from then None
        else if relation.StartsIn? then Some(v.from.Some? && from <= v.from.value < to)
        else Some((v.from.None? || v.from.value < to) && (v.to.None? || from < v.to.value))
  }

  /** A range overlaps a document's interval exactly when some instant lies in both. */
  lemma OverlapIsCommonInstant(d: Document, a: Axis, from: Time, to: Time, now: Time)
    requires WellFormed(OnAxis(d, a)) && from < to
    ensures Matches(d, Range(a, from, to, Overlaps), now) == Some(true)
      <==> exists t :: from <= t < to && Matches(d, AsOf(a, t), now) == Some(true)
  {
    var v := OnAxis(d, a);
    if Matches(d, Range(a, from, to, Overlaps), now) == Some(true) {
      var t := if v.from.Some? && v.from.value > from then v.from.value else from;
      assert Contains(v, t);
      assert Matches(d, AsOf(a, t), now) == Some(true);
    }
  }

  /** The document of a claim row. */
  function DocumentOf(c: Claim): Document {
    Document(Interval(Some(c.validFrom), c.validTo), Interval(Some(c.ingested), c.invalidated))
  }

  predicate HoldsAt(c: Claim, t: Time) {
    Matches(DocumentOf(c), AsOf(ValidAxis, t), 0) == Some(true)
  }

  // ---- Supersession chains ---------------------------------------------------------------------

  /** `ids` are all rows of this fact slot. */
  ghost predicate Members(rows: Rows, slot: Claim, ids: seq<Id>) {
    && (forall id :: id in rows && SameFact(rows[id], slot) <==> id in ids)
    && (forall k :: 0 <= k < |ids| ==> ids[k] in rows)
  }

  /** Each claim starts before the next, is superseded by it, closes where it begins and is invalidated
      when it was ingested. */
  ghost predicate Abutting(rows: Rows, ids: seq<Id>) {
    && (forall k :: 0 <= k < |ids| ==> ids[k] in rows)
    && (forall k :: 0 <= k < |ids| - 1 ==>
          && rows[ids[k]].validFrom < rows[ids[k + 1]].validFrom
          && rows[ids[k]].validTo == Some(rows[ids[k + 1]].validFrom)
          && rows[ids[k]].invalidated == Some(rows[ids[k + 1]].ingested)
          && rows[ids[k]].status == Superseded && rows[ids[k]].supersededBy == Some(ids[k + 1]))
  }

  /** The slot's rows in order of their start, abutting; only the last is open and active. */
  ghost predicate Chain(rows: Rows, slot: Claim, ids: seq<Id>) {
    && Members(rows, slot, ids)
    && Abutting(rows, ids)
    && (ids != [] ==> rows[Last(ids)].validTo == None && rows[Last(ids)].status == Active)
  }

  predicate OpenAndActive(c: Claim) { c.status == Active && c.validTo.None? }

  lemma {:induction false} StartsRise(rows: Rows, slot: Claim, ids: seq<Id>, i: nat, j: nat)
    requires Chain(rows, slot, ids) && i < j < |ids|
    ensures rows[ids[i]].validFrom < rows[ids[j]].validFrom
    ensures ids[i] != ids[j]
  {
    if i + 1 < j { StartsRise(rows, slot, ids, i, j - 1); }
    assert rows[ids[j - 1]].validFrom < rows[ids[j - 1 + 1]].validFrom;
  }

  /** Nothing in the slot shares the later start, and only its last claim is open to supersession. */
  lemma SlotBeforeLaterStart(rows: Rows, c: Claim, ids: seq<Id>)
    requires Chain(rows, c, ids) && (ids != [] ==> rows[Last(ids)].validFrom < c.validFrom)
    ensures SameKeyLive(rows, c) == {}
    ensures Supersedable(rows, c) == if ids == [] then {} else {Last(ids)}
  {
    forall id | id in rows && SameFact(rows[id], c) ensures rows[id].validFrom < c.validFrom && (rows[id].status == Active ==> id == Last(ids)) {
      var k :| 0 <= k < |ids| && ids[k] == id;
      if k < |ids| - 1 {
        StartsRise(rows, c, ids, k, |ids| - 1);
        assert rows[ids[k]].status == Superseded;
      }
    }
    if ids != [] { assert Last(ids) in ids; }
  }

  lemma ChainOfOne(rows: Rows, c: Claim, next: Rows, first: Claim)
    requires Chain(rows, c, []) && c.id !in rows && OpenAndActive(first) && SameFact(first, c)
    requires next == rows[c.id := first]
    ensures Chain(next, c, [c.id])
  {
    forall id ensures id in next && SameFact(next[id], c) <==> id in [c.id] {
      assert id in rows && SameFact(rows[id], c) <==> id in [];
    }
  }

  /** A claim of the slot that starts later than all before it extends the chain. */
  lemma LaterStartExtends(pol: Policy, rows: Rows, c: Claim, next: Rows, o: Outcome, ids: seq<Id>)
    requires Admitted(pol, rows, c, next, o) && c.id !in rows && OpenAndActive(c)
    requires Chain(rows, c, ids) && (ids != [] ==> rows[Last(ids)].validFrom < c.validFrom)
    ensures Chain(next, c, ids + [c.id])
    ensures o == if ids == [] then Inserted else Supersedes(Last(ids))
  {
    hide Chain, Supersedable;
    SlotBeforeLaterStart(rows, c, ids);
    assert Agreeing(pol, rows, c) <= SameKeyLive(rows, c);
    if ids == [] {
      assert o == Inserted;
      ChainOfOne(rows, c, next, WithConfidence(pol, c));
      assert ids + [c.id] == [c.id];
    } else {
      assert o == Supersedes(Last(ids));
      ChainAfterSupersession(pol, rows, c, next, ids);
    }
  }

  lemma RowsAfterSupersession(pol: Policy, rows: Rows, c: Claim, next: Rows, x: Id)
    requires Admitted(pol, rows, c, next, Supersedes(x)) && c.id !in rows
    ensures x in rows && x in next && c.id in next && next.Keys == rows.Keys + {c.id}
    ensures forall id :: id in rows && id != x ==> next[id] == rows[id]
    ensures next[c.id] == c.(confidence := next[c.id].confidence)
    ensures next[x] == rows[x].(status := Superseded, supersededBy := Some(c.id), invalidated := Some(c.ingested), validTo := next[x].validTo)
    ensures rows[x].validTo.None? ==> next[x].validTo == Some(c.validFrom)
  {
  }

  lemma ChainAfterSupersession(pol: Policy, rows: Rows, c: Claim, next: Rows, ids: seq<Id>)
    requires Chain(rows, c, ids) && ids != [] && c.id !in rows && OpenAndActive(c) && rows[Last(ids)].validFrom < c.validFrom
    requires Admitted(pol, rows, c, next, Supersedes(Last(ids)))
    ensures Chain(next, c, ids + [c.id])
  {
    hide Admitted, Abutting;
    RowsAfterSupersession(pol, rows, c, next, Last(ids));
    forall id ensures id in next && SameFact(next[id], c) <==> id in ids + [c.id] {
      assert id in rows && SameFact(rows[id], c) <==> id in ids;
    }
    forall k | 0 <= k < |ids| - 1 ensures ids[k] != Last(ids) { StartsRise(rows, c, ids, k, |ids| - 1); }
    AbuttingAfter(rows, c, next, ids);
  }

  lemma AbuttingAfter(rows: Rows, c: Claim, next: Rows, ids: seq<Id>)
    requires Abutting(rows, ids) && ids != [] && next.Keys == rows.Keys + {c.id} && c.id !in rows
    requires forall k :: 0 <= k < |ids| - 1 ==> ids[k] != Last(ids)
    requires forall id :: id in rows && id != Last(ids) ==> next[id] == rows[id]
    requires next[c.id].validFrom == c.validFrom && next[c.id].ingested == c.ingested
    requires var a, b := rows[Last(ids)], next[Last(ids)];
      && a.validFrom < c.validFrom && b.validFrom == a.validFrom && b.ingested == a.ingested
      && b.status == Superseded && b.supersededBy == Some(c.id) && b.invalidated == Some(c.ingested) && b.validTo == Some(c.validFrom)
    ensures Abutting(next, ids + [c.id])
  {
    var now := ids + [c.id];
    forall k | 0 <= k < |now| - 1
      ensures next[now[k]].validFrom < next[now[k + 1]].validFrom && next[now[k]].validTo == Some(next[now[k + 1]].validFrom)
           && next[now[k]].invalidated == Some(next[now[k + 1]].ingested)
           && next[now[k]].status == Superseded && next[now[k]].supersededBy == Some(now[k + 1])
    {
      if k + 1 < |ids| { assert rows[ids[k]].validFrom < rows[ids[k + 1]].validFrom; }
    }
  }

  /** Admitting a claim of another slot leaves the chain alone. */
  lemma OtherSlotUntouched(pol: Policy, rows: Rows, c: Claim, next: Rows, o: Outcome, slot: Claim, ids: seq<Id>)
    requires Admitted(pol, rows, c, next, o) && c.id !in rows && !SameFact(c, slot) && Chain(rows, slot, ids)
    ensures Chain(next, slot, ids)
  {
    hide Admitted, Chain;
    forall id ensures (id in next && SameFact(next[id], slot) <==> id in ids) && (id in ids ==> id in rows && id in next && next[id] == rows[id]) {
      FactsKept(pol, rows, c, next, o, id);
      ChainMember(rows, slot, ids, id);
    }
    ChainOnSameRows(rows, next, slot, ids);
  }

  lemma ChainMember(rows: Rows, slot: Claim, ids: seq<Id>, id: Id)
    requires Chain(rows, slot, ids)
    ensures id in rows && SameFact(rows[id], slot) <==> id in ids
  {
  }

  lemma ChainOnSameRows(rows: Rows, next: Rows, slot: Claim, ids: seq<Id>)
    requires Chain(rows, slot, ids)
    requires forall id :: id in next && SameFact(next[id], slot) <==> id in ids
    requires forall id :: id in ids ==> id in rows && id in next && next[id] == rows[id]
    ensures Chain(next, slot, ids)
  {
    assert forall k :: 0 <= k < |ids| ==> ids[k] in ids;
  }

  /** An admission writes only rows of its own fact slot, and never moves a row to another slot. */
  lemma FactsKept(pol: Policy, rows: Rows, c: Claim, next: Rows, o: Outcome, id: Id)
    requires Admitted(pol, rows, c, next, o) && c.id !in rows
    ensures id in next ==> id in rows || SameFact(next[id], c)
    ensures id in rows ==> id in next && SameFact(next[id], rows[id]) && (SameFact(rows[id], c) || next[id] == rows[id])
  {
  }

  /** The slot's admissions of a run, in order. */
  function SlotIds(steps: seq<Step>, slot: Claim): seq<Id> {
    if steps == [] then []
    else
      var rest := SlotIds(steps[..|steps| - 1], slot);
      if SameFact(steps[|steps| - 1].claim, slot) then rest + [steps[|steps| - 1].claim.id] else rest
  }

  /** The slot's claims arrive open, active and with strictly later starts; other slots arrive
      in between as they like. */
  ghost predicate InOrder(steps: seq<Step>, slot: Claim) {
    && (forall k :: 0 <= k < |steps| && SameFact(steps[k].claim, slot) ==> OpenAndActive(steps[k].claim))
    && (forall i, j :: 0 <= i < j < |steps| && SameFact(steps[i].claim, slot) && SameFact(steps[j].claim, slot)
          ==> steps[i].claim.validFrom < steps[j].claim.validFrom)
  }

  /** The row still has the start and the system times its claim was admitted with. */
  predicate CameAs(row: Claim, c: Claim) {
    row.validFrom == c.validFrom && row.ingested == c.ingested && row.invalidated == c.invalidated
  }

  lemma {:induction false} RunBuildsChain(pol: Policy, states: seq<Rows>, steps: seq<Step>, slot: Claim, k: nat)
    requires Run(pol, states, steps) && InOrder(steps, slot) && k < |states|
    requires forall id :: id in states[0] ==> !SameFact(states[0][id], slot)
    ensures Chain(states[k], slot, SlotIds(steps[..k], slot))
    ensures SlotIds(steps[..k], slot) != [] ==>
      exists j :: 0 <= j < k && SameFact(steps[j].claim, slot) && CameAs(states[k][Last(SlotIds(steps[..k], slot))], steps[j].claim)
  {
    hide Admitted;
    if k > 0 {
      RunBuildsChain(pol, states, steps, slot, k - 1);
      var ids, s := SlotIds(steps[..k - 1], slot), steps[k - 1];
      assert steps[..k][..k - 1] == steps[..k - 1];
      if SameFact(s.claim, slot) {
        ChainSlot(states[k - 1], slot, s.claim, ids);
        LaterStartExtends(pol, states[k - 1], s.claim, states[k], s.outcome, ids);
        ChainSlot(states[k], s.claim, slot, ids + [s.claim.id]);
        NewcomerStart(pol, states[k - 1], s.claim, states[k], s.outcome);
      } else {
        OtherSlotUntouched(pol, states[k - 1], s.claim, states[k], s.outcome, slot, ids);
        if ids != [] {
          LastKept(pol, states[k - 1], s.claim, states[k], s.outcome, slot, ids);
        }
      }
    }
  }

  lemma NewcomerStart(pol: Policy, rows: Rows, c: Claim, next: Rows, o: Outcome)
    requires Admitted(pol, rows, c, next, o) && c.id !in rows && !o.Corroborated?
    ensures c.id in next && CameAs(next[c.id], c)
  {
  }

  lemma LastKept(pol: Policy, rows: Rows, c: Claim, next: Rows, o: Outcome, slot: Claim, ids: seq<Id>)
    requires Admitted(pol, rows, c, next, o) && c.id !in rows && !SameFact(c, slot) && Chain(rows, slot, ids) && ids != []
    ensures Last(ids) in rows && Last(ids) in next && next[Last(ids)] == rows[Last(ids)]
  {
    hide Admitted;
    assert Last(ids) in ids;
    FactsKept(pol, rows, c, next, o, Last(ids));
  }

  /** A chain depends only on the slot, not on which of its claims names it. */
  lemma ChainSlot(rows: Rows, a: Claim, b: Claim, ids: seq<Id>)
    requires SameFact(a, b) && Chain(rows, a, ids)
    ensures Chain(rows, b, ids)
  {
  }

  /** Exactly one claim of a chain holds at every instant from the first start on, none before,
      and exactly one claim is active. */
  lemma {:induction false} ChainPartitionsTime(rows: Rows, slot: Claim, ids: seq<Id>, t: Time)
    requires Chain(rows, slot, ids) && ids != []
    ensures t < rows[ids[0]].validFrom ==> forall k :: 0 <= k < |ids| ==> !HoldsAt(rows[ids[k]], t)
    ensures rows[ids[0]].validFrom <= t ==>
      exists k :: 0 <= k < |ids| && HoldsAt(rows[ids[k]], t) && forall j :: 0 <= j < |ids| && j != k ==> !HoldsAt(rows[ids[j]], t)
    ensures forall k :: 0 <= k < |ids| ==> (rows[ids[k]].status == Active <==> k == |ids| - 1)
  {
    if rows[ids[0]].validFrom <= t {
      var k := Owner(rows, slot, ids, t);
      forall j | 0 <= j < |ids| && j != k ensures !HoldsAt(rows[ids[j]], t) {
        if j < k { WindowsApart(rows, slot, ids, j, k, t); } else { WindowsApart(rows, slot, ids, k, j, t); }
      }
    } else {
      forall k | 0 <= k < |ids| ensures !HoldsAt(rows[ids[k]], t) {
        if k > 0 { StartsRise(rows, slot, ids, 0, k); }
      }
    }
  }

  /** Two windows of a chain share no instant. */
  lemma WindowsApart(rows: Rows, slot: Claim, ids: seq<Id>, i: nat, j: nat, t: Time)
    requires Chain(rows, slot, ids) && i < j < |ids|
    ensures !(HoldsAt(rows[ids[i]], t) && HoldsAt(rows[ids[j]], t))
  {
    if i + 1 < j { StartsRise(rows, slot, ids, i + 1, j); }
    assert rows[ids[i]].validTo == Some(rows[ids[i + 1]].validFrom);
  }

  lemma Owner(rows: Rows, slot: Claim, ids: seq<Id>, t: Time) returns (k: nat)
    requires Chain(rows, slot, ids) && ids != [] && rows[ids[0]].validFrom <= t
    ensures k < |ids| && HoldsAt(rows[ids[k]], t)
  {
    k := 0;
    while k + 1 < |ids| && rows[ids[k + 1]].validFrom <= t
      invariant k < |ids| && rows[ids[k]].validFrom <= t
    {
      k := k + 1;
    }
  }

  /** Over a run: one slot admitted in order of start, anything else in between. Every instant
      from the first start on is covered by exactly one claim of the slot. */
  lemma EveryInstantHasOneClaim(pol: Policy, states: seq<Rows>, steps: seq<Step>, slot: Claim, t: Time)
    requires Run(pol, states, steps) && InOrder(steps, slot)
    requires forall id :: id in states[0] ==> !SameFact(states[0][id], slot)
    requires SlotIds(steps, slot) != []
    ensures var rows, ids := states[|steps|], SlotIds(steps, slot);
      && (forall k :: 0 <= k < |ids| ==> ids[k] in rows)
      && (forall id :: id in rows && SameFact(rows[id], slot) <==> id in ids)
      && (rows[ids[0]].validFrom <= t ==>
            exists k :: 0 <= k < |ids| && HoldsAt(rows[ids[k]], t) && forall j :: 0 <= j < |ids| && j != k ==> !HoldsAt(rows[ids[j]], t))
      && (forall k :: 0 <= k < |ids| ==> (rows[ids[k]].status == Active <==> k == |ids| - 1))
  {
    hide HoldsAt;
    assert steps[..|steps|] == steps;
    RunBuildsChain(pol, states, steps, slot, |steps|);
    ChainPartitionsTime(states[|steps|], slot, SlotIds(steps, slot), t);
  }

  // ---- System time -----------------------------------------------------------------------------------

  /** An as-of read on the transaction axis finds the claim. */
  predicate KnownAt(c: Claim, t: Time) {
    Matches(DocumentOf(c), AsOf(TransactionAxis, t), 0) == Some(true)
  }

  /** Once superseded, a claim is found on the transaction axis exactly from its own ingestion up to
      that of its replacement. */
  lemma SupersededInSystemTime(pol: Policy, rows: Rows, c: Claim, next: Rows, x: Id, t: Time)
    requires Admitted(pol, rows, c, next, Supersedes(x)) && c.id !in rows
    ensures x in rows && x in next && (KnownAt(next[x], t) <==> rows[x].ingested <= t < c.ingested)
  {
  }

  /** On a chain every claim but the last is found up to the ingestion of the next. */
  lemma ChainInSystemTime(rows: Rows, slot: Claim, ids: seq<Id>, k: nat, t: Time)
    requires Chain(rows, slot, ids) && k + 1 < |ids|
    ensures KnownAt(rows[ids[k]], t) <==> rows[ids[k]].ingested <= t < rows[ids[k + 1]].ingested
  {
  }

  /** The slot's claims are also ingested in order, and handed in as not invalidated. */
  ghost predicate IngestedInOrder(steps: seq<Step>, slot: Claim) {
    && (forall k :: 0 <= k < |steps| && SameFact(steps[k].claim, slot) ==> steps[k].claim.invalidated.None?)
    && (forall i, j :: 0 <= i < j < |steps| && SameFact(steps[i].claim, slot) && SameFact(steps[j].claim, slot)
          ==> steps[i].claim.ingested < steps[j].claim.ingested)
  }

  /** Ingestion rises along the chain and the last claim is not invalidated. */
  ghost predicate Ingested(rows: Rows, ids: seq<Id>) {
    && (forall k :: 0 <= k < |ids| ==> ids[k] in rows)
    && (forall k :: 0 <= k < |ids| - 1 ==> rows[ids[k]].ingested < rows[ids[k + 1]].ingested)
    && (ids != [] ==> rows[Last(ids)].invalidated.None?)
  }

  lemma IngestedGrows(pol: Policy, rows: Rows, c: Claim, next: Rows, o: Outcome, ids: seq<Id>)
    requires Admitted(pol, rows, c, next, o) && c.id !in rows && !o.Corroborated? && Ingested(rows, ids) && c.invalidated.None?
    requires ids != [] ==> rows[Last(ids)].ingested < c.ingested
    ensures Ingested(next, ids + [c.id])
  {
    var now := ids + [c.id];
    forall k | 0 <= k < |ids| ensures now[k] in next && next[now[k]].ingested == rows[ids[k]].ingested { }
    forall k | 0 <= k < |now| - 1 ensures next[now[k]].ingested < next[now[k + 1]].ingested {
      if k + 1 < |ids| { assert rows[ids[k]].ingested < rows[ids[k + 1]].ingested; }
    }
  }

  lemma {:induction false} RunIngests(pol: Policy, states: seq<Rows>, steps: seq<Step>, slot: Claim, k: nat)
    requires Run(pol, states, steps) && InOrder(steps, slot) && IngestedInOrder(steps, slot) && k < |states|
    requires forall id :: id in states[0] ==> !SameFact(states[0][id], slot)
    ensures Ingested(states[k], SlotIds(steps[..k], slot))
  {
    hide Admitted, Chain;
    if k > 0 {
      RunIngests(pol, states, steps, slot, k - 1);
      RunBuildsChain(pol, states, steps, slot, k - 1);
      var ids, s := SlotIds(steps[..k - 1], slot), steps[k - 1];
      assert steps[..k][..k - 1] == steps[..k - 1];
      if SameFact(s.claim, slot) {
        ChainSlot(states[k - 1], slot, s.claim, ids);
        LaterStartExtends(pol, states[k - 1], s.claim, states[k], s.outcome, ids);
        IngestedGrows(pol, states[k - 1], s.claim, states[k], s.outcome, ids);
      } else {
        IngestedElsewhere(pol, states[k - 1], s.claim, states[k], s.outcome, slot, ids);
      }
    }
  }

  lemma IngestedElsewhere(pol: Policy, rows: Rows, c: Claim, next: Rows, o: Outcome, slot: Claim, ids: seq<Id>)
    requires Admitted(pol, rows, c, next, o) && c.id !in rows && !SameFact(c, slot) && Chain(rows, slot, ids) && Ingested(rows, ids)
    ensures Ingested(next, ids)
  {
    hide Admitted;
    forall k | 0 <= k < |ids| ensures ids[k] in next && next[ids[k]] == rows[ids[k]] {
      assert ids[k] in ids;
      FactsKept(pol, rows, c, next, o, ids[k]);
    }
  }

  lemma {:induction false} IngestionRises(rows: Rows, ids: seq<Id>, i: nat, j: nat)
    requires Ingested(rows, ids) && i <= j < |ids|
    ensures rows[ids[i]].ingested <= rows[ids[j]].ingested
  {
    if i < j {
      IngestionRises(rows, ids, i, j - 1);
      assert rows[ids[j - 1]].ingested < rows[ids[j - 1 + 1]].ingested;
    }
  }

  /** The claim known at `t` is the last one ingested by then. */
  lemma KnownIffLatest(rows: Rows, slot: Claim, ids: seq<Id>, k: nat, t: Time)
    requires Chain(rows, slot, ids) && Ingested(rows, ids) && k < |ids|
    ensures KnownAt(rows[ids[k]], t) <==> rows[ids[k]].ingested <= t && forall j :: k < j < |ids| ==> t < rows[ids[j]].ingested
  {
    if k + 1 < |ids| {
      ChainInSystemTime(rows, slot, ids, k, t);
      forall j | k < j < |ids| ensures rows[ids[k + 1]].ingested <= rows[ids[j]].ingested { IngestionRises(rows, ids, k + 1, j); }
    }
  }

  /** Over a run in order of start: each superseded claim of the slot is found on the transaction axis
      exactly from its ingestion to that of the next. When ingestion is in order as well, the one found
      at an instant is the last ingested by then, so there is one from the first ingestion on. */
  lemma EveryInstantIsKnownOnce(pol: Policy, states: seq<Rows>, steps: seq<Step>, slot: Claim, t: Time)
    requires Run(pol, states, steps) && InOrder(steps, slot)
    requires forall id :: id in states[0] ==> !SameFact(states[0][id], slot)
    ensures var rows, ids := states[|steps|], SlotIds(steps, slot);
      && (forall k :: 0 <= k < |ids| ==> ids[k] in rows)
      && (forall k :: 0 <= k < |ids| - 1 ==>
            (KnownAt(rows[ids[k]], t) <==> rows[ids[k]].ingested <= t < rows[ids[k + 1]].ingested))
      && (IngestedInOrder(steps, slot) ==>
            && (forall k :: 0 <= k < |ids| ==>
                  (KnownAt(rows[ids[k]], t) <==> rows[ids[k]].ingested <= t && forall j :: k < j < |ids| ==> t < rows[ids[j]].ingested))
            && (ids != [] && rows[ids[0]].ingested <= t ==> exists k :: 0 <= k < |ids| && KnownAt(rows[ids[k]], t)))
  {
    hide KnownAt, Admitted, Chain, Ingested, InOrder, IngestedInOrder;
    assert steps[..|steps|] == steps;
    RunBuildsChain(pol, states, steps, slot, |steps|);
    var rows, ids := states[|steps|], SlotIds(steps, slot);
    ChainInRows(rows, slot, ids);
    SupersededKnown(rows, slot, ids, t);
    if IngestedInOrder(steps, slot) {
      RunIngests(pol, states, steps, slot, |steps|);
      KnownOnce(rows, slot, ids, t);
    }
  }

  lemma ChainInRows(rows: Rows, slot: Claim, ids: seq<Id>)
    requires Chain(rows, slot, ids)
    ensures forall k :: 0 <= k < |ids| ==> ids[k] in rows
  {
  }

  lemma SupersededKnown(rows: Rows, slot: Claim, ids: seq<Id>, t: Time)
    requires Chain(rows, slot, ids) && forall k :: 0 <= k < |ids| ==> ids[k] in rows
    ensures forall k :: 0 <= k < |ids| - 1 ==>
      (KnownAt(rows[ids[k]], t) <==> rows[ids[k]].ingested <= t < rows[ids[k + 1]].ingested)
  {
    hide KnownAt, Chain;
    forall k | 0 <= k < |ids| - 1 ensures KnownAt(rows[ids[k]], t) <==> rows[ids[k]].ingested <= t < rows[ids[k + 1]].ingested {
      ChainInSystemTime(rows, slot, ids, k, t);
    }
  }

  lemma KnownOnce(rows: Rows, slot: Claim, ids: seq<Id>, t: Time)
    requires Chain(rows, slot, ids) && Ingested(rows, ids) && forall k :: 0 <= k < |ids| ==> ids[k] in rows
    ensures forall k :: 0 <= k < |ids| ==>
      (KnownAt(rows[ids[k]], t) <==> rows[ids[k]].ingested <= t && forall j :: k < j < |ids| ==> t < rows[ids[j]].ingested)
    ensures ids != [] && rows[ids[0]].ingested <= t ==> exists k :: 0 <= k < |ids| && KnownAt(rows[ids[k]], t)
  {
    hide KnownAt, Chain, Ingested;
    forall k | 0 <= k < |ids|
      ensures KnownAt(rows[ids[k]], t) <==> rows[ids[k]].ingested <= t && forall j :: k < j < |ids| ==> t < rows[ids[j]].ingested
    {
      KnownIffLatest(rows, slot, ids, k, t);
    }
    if ids != [] && rows[ids[0]].ingested <= t {
      var k := LatestIngested(rows, ids, t);
    }
  }

  lemma LatestIngested(rows: Rows, ids: seq<Id>, t: Time) returns (k: nat)
    requires Ingested(rows, ids) && ids != [] && rows[ids[0]].ingested <= t
    ensures k < |ids| && rows[ids[k]].ingested <= t && forall j :: k < j < |ids| ==> t < rows[ids[j]].ingested
  {
    k := 0;
    while k + 1 < |ids| && rows[ids[k + 1]].ingested <= t
      invariant k < |ids| && rows[ids[k]].ingested <= t
    {
      k := k + 1;
    }
    forall j | k < j < |ids| ensures t < rows[ids[j]].ingested { IngestionRises(rows, ids, k + 1, j); }
  }

  // ---- When admission keeps windows apart ----------------------------------------------------------

  /** No instant is held by two claims of the slot. */
  ghost predicate NoOverlap(rows: Rows, slot: Claim) {
    forall a, b, t :: a in rows && b in rows && a != b && SameFact(rows[a], slot) && SameFact(rows[b], slot)
      ==> !(HoldsAt(rows[a], t) && HoldsAt(rows[b], t))
  }

  lemma ChainHasNoOverlap(rows: Rows, slot: Claim, ids: seq<Id>)
    requires Chain(rows, slot, ids)
    ensures NoOverlap(rows, slot)
  {
    hide HoldsAt;
    forall a, b, t | a in rows && b in rows && a != b && SameFact(rows[a], slot) && SameFact(rows[b], slot)
      ensures !(HoldsAt(rows[a], t) && HoldsAt(rows[b], t))
    {
      var i :| 0 <= i < |ids| && ids[i] == a;
      var j :| 0 <= j < |ids| && ids[j] == b;
      if i < j { WindowsApart(rows, slot, ids, i, j, t); } else { WindowsApart(rows, slot, ids, j, i, t); }
    }
  }

  /** Only the last claim of a chain is live. */
  lemma OnlyLastIsLive(rows: Rows, slot: Claim, ids: seq<Id>, id: Id)
    requires Chain(rows, slot, ids) && id in rows && SameFact(rows[id], slot) && Live(rows[id].status)
    ensures ids != [] && id == Last(ids)
  {
    var k :| 0 <= k < |ids| && ids[k] == id;
  }

  lemma LastOfChain(rows: Rows, c: Claim, ids: seq<Id>)
    requires Chain(rows, c, ids) && ids != []
    ensures Last(ids) in rows && SameFact(rows[Last(ids)], c) && OpenAndActive(rows[Last(ids)])
  {
    assert Last(ids) in ids;
  }

  lemma AgreementIsFolded(pol: Policy, rows: Rows, c: Claim, next: Rows, o: Outcome, e: Id)
    requires Admitted(pol, rows, c, next, o) && e in Agreeing(pol, rows, c)
    ensures o.Corroborated? && o.existing in rows && SameFact(rows[o.existing], c) && Live(rows[o.existing].status)
  {
    assert e in SameKeyLive(rows, c);
  }

  /** A restatement of the last claim is folded into it; the windows stay as they are. */
  lemma RestatementKeepsChain(pol: Policy, rows: Rows, c: Claim, next: Rows, o: Outcome, ids: seq<Id>)
    requires Admitted(pol, rows, c, next, o) && c.id !in rows && Chain(rows, c, ids) && ids != []
    requires rows[Last(ids)].validFrom == c.validFrom && pol.norm(rows[Last(ids)].value) == pol.norm(c.value)
    ensures o == Corroborated(Last(ids)) && Chain(next, c, ids)
  {
    hide Chain;
    var last := Last(ids);
    LastOfChain(rows, c, ids);
    AgreementIsFolded(pol, rows, c, next, o, last);
    OnlyLastIsLive(rows, c, ids, o.existing);
    ChainCongruent(rows, next, c, ids);
  }

  /** A chain is a matter of keys, times, status and pointers. */
  lemma ChainCongruent(rows: Rows, next: Rows, slot: Claim, ids: seq<Id>)
    requires Chain(rows, slot, ids) && next.Keys == rows.Keys
    requires forall id :: id in rows ==>
      && SameFact(next[id], rows[id]) && next[id].validFrom == rows[id].validFrom && next[id].validTo == rows[id].validTo
      && next[id].ingested == rows[id].ingested && next[id].invalidated == rows[id].invalidated
      && next[id].status == rows[id].status && next[id].supersededBy == rows[id].supersededBy
    ensures Chain(next, slot, ids)
  {
    forall id ensures id in next && SameFact(next[id], slot) <==> id in ids {
      assert id in rows && SameFact(rows[id], slot) <==> id in ids;
    }
  }

  /** Any other start leaves the newcomer and the last claim open together. */
  lemma EarlierOrRivalStartOverlaps(pol: Policy, rows: Rows, c: Claim, next: Rows, o: Outcome, ids: seq<Id>)
    requires Admitted(pol, rows, c, next, o) && c.id !in rows && OpenAndActive(c) && Chain(rows, c, ids) && ids != []
    requires var last := rows[Last(ids)];
      c.validFrom < last.validFrom || (c.validFrom == last.validFrom && pol.norm(last.value) != pol.norm(c.value))
    ensures o == if c.validFrom < rows[Last(ids)].validFrom then Inserted else ContestedBy({Last(ids)})
    ensures c.id in next && Last(ids) in next && c.id != Last(ids) && SameFact(next[c.id], c) && SameFact(next[Last(ids)], c)
    ensures HoldsAt(next[c.id], rows[Last(ids)].validFrom) && HoldsAt(next[Last(ids)], rows[Last(ids)].validFrom)
  {
    var last := Last(ids);
    LastOfChain(rows, c, ids);
    forall id | id in rows && SameFact(rows[id], c) && Live(rows[id].status) ensures id == last { OnlyLastIsLive(rows, c, ids, id); }
    assert SameKeyLive(rows, c) == if c.validFrom < rows[last].validFrom then {} else {last};
    assert Agreeing(pol, rows, c) == {};
    assert Supersedable(rows, c) == {};
  }

  /** For every slot whose windows form a chain and every open, active newcomer: no two claims of
      the slot hold at one instant afterwards if and only if the newcomer starts after the last
      claim, or restates it. */
  lemma AdmissionKeepsWindowsApartIff(pol: Policy, rows: Rows, c: Claim, next: Rows, o: Outcome, ids: seq<Id>)
    requires Admitted(pol, rows, c, next, o) && c.id !in rows && OpenAndActive(c) && Chain(rows, c, ids) && ids != []
    ensures var last := rows[Last(ids)];
      NoOverlap(next, c) <==>
        last.validFrom < c.validFrom || (last.validFrom == c.validFrom && pol.norm(last.value) == pol.norm(c.value))
  {
    hide Admitted, Chain, HoldsAt;
    LastOfChain(rows, c, ids);
    var last := rows[Last(ids)];
    if last.validFrom < c.validFrom {
      LaterStartExtends(pol, rows, c, next, o, ids);
      ChainHasNoOverlap(next, c, ids + [c.id]);
    } else if last.validFrom == c.validFrom && pol.norm(last.value) == pol.norm(c.value) {
      RestatementKeepsChain(pol, rows, c, next, o, ids);
      ChainHasNoOverlap(next, c, ids);
    } else {
      EarlierOrRivalStartOverlaps(pol, rows, c, next, o, ids);
    }
  }
}
