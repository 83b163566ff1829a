/** Duplicate resolution: several active claims that assert one fact are folded into the
    earliest, and the demotions ride the version log. */
module FactMatches {
  import opened Evidence
  import opened ClaimStore

  // ---- Claim id order ----------------------------------------------------------------------

  /** JavaScript string order: lexicographic by code unit. */
  predicate Before(a: string, b: string) {
    if b == [] then false
    else if a == [] then true
    else a[0] < b[0] || (a[0] == b[0] && Before(a[1..], b[1..]))
  }

  lemma {:induction false} OrderTotal(a: string, b: string)
    ensures a == b || Before(a, b) || Before(b, a)
    ensures !(Before(a, b) && Before(b, a)) && (a == b ==> !Before(a, b))
  {
    if a != [] && b != [] {
      OrderTotal(a[1..], b[1..]);
      if a[0] == b[0] && a[1..] == b[1..] {
        assert a == [a[0]] + a[1..] && b == [b[0]] + b[1..];
      }
    }
  }

  lemma {:induction false} OrderTransitive(a: string, b: string, c: string)
    requires Before(a, b) && Before(b, c)
    ensures Before(a, c)
  {
    if a != [] && a[0] == b[0] && b[0] == c[0] {
      OrderTransitive(a[1..], b[1..], c[1..]);
    }
  }

  /** One string is before another when it is a proper prefix of it or has the smaller unit at the first
      place where they differ. */
  lemma {:induction false} BeforeIff(a: string, b: string)
    ensures Before(a, b) <==>
      exists n :: 0 <= n <= |a| && n < |b| && a[..n] == b[..n] && (n == |a| || a[n] < b[n])
  {
    if a != [] && b != [] && a[0] == b[0] {
      BeforeIff(a[1..], b[1..]);
      if n :| 0 <= n <= |a[1..]| && n < |b[1..]| && a[1..][..n] == b[1..][..n] && (n == |a[1..]| || a[1..][n] < b[1..][n]) {
        assert a[..n + 1] == [a[0]] + a[1..][..n] && b[..n + 1] == [b[0]] + b[1..][..n];
      }
      if n :| 0 < n <= |a| && n < |b| && a[..n] == b[..n] && (n == |a| || a[n] < b[n]) {
        assert a[1..][..n - 1] == a[..n][1..] && b[1..][..n - 1] == b[..n][1..];
      }
    } else if b != [] {
      assert a[..0] == b[..0];
    }
  }

  /** The earliest-minted id of a set: the first after the sort. */
  method Earliest(ids: set<Id>) returns (least: Id)
    requires ids != {}
    ensures least in ids && forall x :: x in ids && x != least ==> Before(least, x)
  {
    var todo := ids;
    least :| least in todo;
    todo := todo - {least};
    while todo != {}
      invariant todo <= ids && least in ids && least !in todo
      invariant forall x :: x in ids && x !in todo && x != least ==> Before(least, x)
      decreases todo
    {
      var x :| x in todo;
      OrderTotal(least, x);
      if Before(x, least) {
        forall y | y in ids && y !in todo && y != least ensures Before(x, y) { OrderTransitive(x, least, y); }
        least := x;
      }
      todo := todo - {x};
    }
  }

  // ---- Matching -----------------------------------------------------------------------------

  datatype Fact = Fact(subject: Id, predicateName: string, scope: string, value: Value)

  predicate Asserts(pol: Policy, c: Claim, f: Fact) {
    && c.status == Active && c.validTo.None?
    && c.subject == f.subject && c.predicateName == f.predicateName && c.scope == f.scope
    && pol.norm(c.value) == pol.norm(f.value)
  }

  /** `findActiveFactMatches`, as the set of claim ids. */
  function ActiveFactMatches(pol: Policy, rows: Rows, f: Fact): set<Id> {
    set id | id in rows && Asserts(pol, rows[id], f)
  }

  lemma MatchesAre(pol: Policy, rows: Rows, f: Fact)
    ensures ActiveFactMatches(pol, rows, f) == set id | id in rows && rows[id].status == Active && rows[id].validTo.None?
      && rows[id].subject == f.subject && rows[id].predicateName == f.predicateName
      && rows[id].scope == f.scope && pol.norm(rows[id].value) == pol.norm(f.value)
  {
  }

  datatype Resolution = Resolution(claimId: Id, ambiguousMatches: nat, resolved: bool, superseded: set<Id>)

  /** All evidence of a set of claims. */
  function EvidenceOf(rows: Rows, ids: set<Id>): set<Id> {
    set id, x | id in ids && id in rows && x in rows[id].evidence :: x
  }

  /** Demotion, restored from the claim's own latest record. */
  ghost predicate StaysDemoted(log: seq<Record>, id: Id, survivor: Id) {
    && VersionsOf(log, id) != []
    && Rematerialise(Last(VersionsOf(log, id))).status == Superseded
    && Rematerialise(Last(VersionsOf(log, id))).supersededBy == Some(survivor)
  }

  /** The loser loop. */
  method DemoteAll(store: Store, losers: set<Id>, survivor: Id, now: Time)
    requires store.Valid() && survivor !in losers && losers <= store.rows.Keys
    modifies store
    ensures store.Valid() && old(store.log) <= store.log && store.rows.Keys == old(store.rows).Keys
    ensures forall id :: id in store.rows ==>
      store.rows[id] == if id in losers then WithStatus(old(store.rows)[id], Superseded, Some(survivor), Some(now), None) else old(store.rows)[id]
  {
    hide StoreOk;
    ghost var before := store.rows;
    IdsMatch(store.rows, store.log);
    var todo := losers;
    while todo != {}
      invariant store.Valid() && todo <= losers && old(store.log) <= store.log && store.rows.Keys == before.Keys
      invariant forall id :: id in store.rows ==>
        store.rows[id] == if id in losers - todo then WithStatus(before[id], Superseded, Some(survivor), Some(now), None) else before[id]
      decreases todo
    {
      var id :| id in todo;
      store.UpdateClaimStatus(id, Superseded, Some(survivor), Some(now), None);
      todo := todo - {id};
    }
  }

  /** The merged list of the survivor: its own evidence first, then every loser's, then the new one. */
  method MergeEvidence(rows: Rows, survivor: Id, losers: set<Id>, observation: Option<Id>) returns (merged: seq<Id>)
    requires survivor in rows && losers <= rows.Keys
    ensures forall x :: x in merged <==> x in rows[survivor].evidence || x in EvidenceOf(rows, losers) || observation == Some(x)
  {
    merged := rows[survivor].evidence;
    var todo := losers;
    while todo != {}
      invariant todo <= losers
      invariant forall x :: x in merged <==> x in rows[survivor].evidence || x in EvidenceOf(rows, losers - todo)
      decreases todo
    {
      var id :| id in todo;
      merged := AddAll(merged, rows[id].evidence);
      todo := todo - {id};
    }
    assert losers - todo == losers;
    if observation.Some? {
      merged := AddUnique(merged, observation.value);
    }
  }

  /** What resolution leaves: one claim keeps the fact with the union of the evidence, the
      others are demoted to it, and their own version records say so. */
  ghost predicate Resolved(pol: Policy, before: Rows, f: Fact, observation: Option<Id>, survivor: Id, rows: Rows, log: seq<Record>) {
    var matches := ActiveFactMatches(pol, before, f);
    && survivor in matches && rows.Keys == before.Keys
    && (forall id :: id in rows && id !in matches ==> rows[id] == before[id])
    && ActiveFactMatches(pol, rows, f) == {survivor}
    && (forall x :: x in rows[survivor].evidence <==> x in EvidenceOf(before, matches) || observation == Some(x))
    && (forall id :: id in matches && id != survivor ==> StaysDemoted(log, id, survivor))
  }

  method FoldInto(pol: Policy, store: Store, f: Fact, survivor: Id, losers: set<Id>, observation: Option<Id>, now: Time)
    requires store.Valid() && survivor !in losers && ActiveFactMatches(pol, store.rows, f) == losers + {survivor}
    modifies store
    ensures store.Valid() && old(store.log) <= store.log
    ensures Resolved(pol, old(store.rows), f, observation, survivor, store.rows, store.log)
  {
    hide StoreOk, Asserts, StaysDemoted, ActiveFactMatches, EvidenceOf, WithStatus, Resolved;
    ghost var before := store.rows;
    MatchesAreRows(pol, before, f);
    IdsMatch(store.rows, store.log);
    var merged := MergeEvidence(store.rows, survivor, losers, observation);
    store.UpdateClaimSupportingEvidence(survivor, merged);
    store.UpdateClaimConfidence(survivor, pol.confidence(store.rows[survivor]));
    ghost var folded := store.rows;
    DemoteAll(store, losers, survivor, now);
    FoldedIsResolved(pol, before, folded, store.rows, store.log, f, observation, survivor, losers, now);
  }

  lemma MatchesAreRows(pol: Policy, rows: Rows, f: Fact)
    ensures ActiveFactMatches(pol, rows, f) <= rows.Keys
  {
  }

  lemma FoldedIsResolved(pol: Policy, before: Rows, folded: Rows, after: Rows, log: seq<Record>, f: Fact,
                         observation: Option<Id>, survivor: Id, losers: set<Id>, now: Time)
    requires StoreOk(after, log)
    requires survivor !in losers && ActiveFactMatches(pol, before, f) == losers + {survivor}
    requires folded.Keys == before.Keys && after.Keys == before.Keys && survivor in before && losers <= before.Keys
    requires forall id :: id in before && id != survivor ==> folded[id] == before[id]
    requires SameBut(folded[survivor], before[survivor].(evidence := folded[survivor].evidence))
    requires forall x :: x in folded[survivor].evidence <==> x in before[survivor].evidence || x in EvidenceOf(before, losers) || observation == Some(x)
    requires forall id :: id in after ==>
      after[id] == if id in losers then WithStatus(folded[id], Superseded, Some(survivor), Some(now), None) else folded[id]
    ensures Resolved(pol, before, f, observation, survivor, after, log)
  {
    hide StoreOk, Asserts, StaysDemoted;
    OnlySurvivorLeft(pol, before, folded, after, f, survivor, losers, now);
    SurvivorAndRest(before, losers + {survivor}, survivor);
    assert losers + {survivor} - {survivor} == losers;
    forall id | id in losers ensures StaysDemoted(log, id, survivor) {
      assert id in after;
      DemotedRow(after, log, id, survivor);
    }
  }

  lemma DemotedRow(rows: Rows, log: seq<Record>, id: Id, survivor: Id)
    requires StoreOk(rows, log) && id in rows && rows[id].status == Superseded && rows[id].supersededBy == Some(survivor)
    ensures StaysDemoted(log, id, survivor)
  {
    RowIsRebuildable(rows, log, id);
  }

  /** `resolveFactMatches` on the store's own matches; `None` is the thrown error. */
  method ResolveFactMatches(pol: Policy, store: Store, f: Fact, observation: Option<Id>, now: Time) returns (r: Option<Resolution>)
    requires store.Valid()
    modifies store
    ensures store.Valid() && old(store.log) <= store.log
    ensures r.None? <==> ActiveFactMatches(pol, old(store.rows), f) == {}
    ensures r.None? ==> store.rows == old(store.rows)
    ensures (if r.None? then {} else r.value.superseded + {r.value.claimId}) ==
      set id | id in old(store.rows) && old(store.rows)[id].status == Active && old(store.rows)[id].validTo.None?
        && old(store.rows)[id].subject == f.subject && old(store.rows)[id].predicateName == f.predicateName
        && old(store.rows)[id].scope == f.scope && pol.norm(old(store.rows)[id].value) == pol.norm(f.value)
    ensures r.Some? ==>
      && Resolved(pol, old(store.rows), f, observation, r.value.claimId, store.rows, store.log)
      && r.value.superseded == ActiveFactMatches(pol, old(store.rows), f) - {r.value.claimId}
      && r.value.ambiguousMatches == |ActiveFactMatches(pol, old(store.rows), f)|
      && (forall x :: x in r.value.superseded ==> Before(r.value.claimId, x))
  {
    hide StoreOk, Asserts, StaysDemoted;
    var matches := ActiveFactMatches(pol, store.rows, f);
    MatchesAre(pol, store.rows, f);
    if matches == {} {
      return None;
    }
    var survivor := Earliest(matches);
    var losers := matches - {survivor};
    assert matches == losers + {survivor};
    if losers == {} {
      ghost var before := store.rows;
      SurvivorAndRest(before, matches, survivor);
      if observation.Some? {
        store.AddCorroborationEvidence(pol, survivor, observation.value);
      }
      LoneMatch(pol, before, store.rows, f, survivor);
      assert |matches| == 1;
      return Some(Resolution(survivor, 1, false, {}));
    }
    FoldInto(pol, store, f, survivor, losers, observation, now);
    r := Some(Resolution(survivor, |matches|, true, losers));
  }

  lemma SurvivorAndRest(rows: Rows, matches: set<Id>, survivor: Id)
    requires survivor in matches && matches <= rows.Keys
    ensures matches == (matches - {survivor}) + {survivor}
    ensures EvidenceOf(rows, matches) == EvidenceOf(rows, matches - {survivor}) + (set x | x in rows[survivor].evidence)
  {
  }

  lemma LoneMatch(pol: Policy, before: Rows, after: Rows, f: Fact, survivor: Id)
    requires ActiveFactMatches(pol, before, f) == {survivor} && after.Keys == before.Keys
    requires forall id :: id in before && id != survivor ==> after[id] == before[id]
    requires SameBut(after[survivor], before[survivor].(evidence := after[survivor].evidence))
    ensures ActiveFactMatches(pol, after, f) == {survivor}
  {
    assert survivor in ActiveFactMatches(pol, before, f);
    forall id ensures id in ActiveFactMatches(pol, after, f) <==> id == survivor {
      assert id in ActiveFactMatches(pol, before, f) <==> id == survivor;
    }
  }

  lemma OnlySurvivorLeft(pol: Policy, before: Rows, folded: Rows, after: Rows, f: Fact, survivor: Id, losers: set<Id>, now: Time)
    requires survivor !in losers && ActiveFactMatches(pol, before, f) == losers + {survivor}
    requires folded.Keys == before.Keys && after.Keys == before.Keys
    requires forall id :: id in before && id != survivor ==> folded[id] == before[id]
    requires SameBut(folded[survivor], before[survivor].(evidence := folded[survivor].evidence))
    requires forall id :: id in after ==>
      after[id] == if id in losers then WithStatus(folded[id], Superseded, Some(survivor), Some(now), None) else folded[id]
    ensures ActiveFactMatches(pol, after, f) == {survivor}
  {
    assert survivor in ActiveFactMatches(pol, before, f);
    forall id ensures id in ActiveFactMatches(pol, after, f) <==> id == survivor {
      assert id in ActiveFactMatches(pol, before, f) <==> id in losers || id == survivor;
    }
  }
}
