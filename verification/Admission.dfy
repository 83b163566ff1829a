/** Deterministic claim admission: corroborate, contest, supersede or insert. Row order is not
    promised by the store, so where the source takes the first match the model takes any. */
module Admission {
  import opened Evidence
  import opened ClaimStore

  predicate Live(s: Status) { s == Active || s == Stale || s == Contested }

  predicate SameFact(a: Claim, b: Claim) {
    a.subject == b.subject && a.predicateName == b.predicateName && a.scope == b.scope
  }

  /** The canonical key: fact slot plus event-valid start. */
  predicate SameKey(a: Claim, b: Claim) { SameFact(a, b) && a.validFrom == b.validFrom }

  function SameKeyLive(rows: Rows, c: Claim): set<Id> {
    set id | id in rows && Live(rows[id].status) && SameKey(rows[id], c)
  }

  function Agreeing(pol: Policy, rows: Rows, c: Claim): set<Id> {
    set id | id in rows && Live(rows[id].status) && SameKey(rows[id], c) && pol.norm(rows[id].value) == pol.norm(c.value)
  }

  function Supersedable(rows: Rows, c: Claim): set<Id> {
    set id | id in rows && rows[id].status == Active && SameFact(rows[id], c) && rows[id].validFrom < c.validFrom
  }

  datatype Outcome = Corroborated(existing: Id) | ContestedBy(others: set<Id>) | Supersedes(closed: Id) | Inserted

  function WithConfidence(pol: Policy, c: Claim): Claim { c.(confidence := pol.confidence(c)) }

  /** What one admission of a claim with a fresh id does to the rows. */
  ghost predicate Admitted(pol: Policy, rows: Rows, c: Claim, next: Rows, o: Outcome) {
    match o
    case Corroborated(e) =>
      && e in Agreeing(pol, rows, c) && next.Keys == rows.Keys
      && (forall id :: id in rows && id != e ==> next[id] == rows[id])
      && SameBut(next[e], rows[e].(evidence := AddAll(rows[e].evidence, c.evidence)))
    case ContestedBy(others) =>
      && others == SameKeyLive(rows, c) && others != {} && Agreeing(pol, rows, c) == {}
      && next.Keys == rows.Keys + {c.id}
      && (forall id :: id in rows && id !in others ==> next[id] == rows[id])
      && (forall id :: id in others ==> SameBut(next[id], ContestedWith(rows[id], c.id)))
      && SameBut(next[c.id], c.(status := Contested, contestedBy := c.contestedBy + others))
    case Supersedes(closed) =>
      && SameKeyLive(rows, c) == {} && closed in Supersedable(rows, c)
      && next == rows[c.id := WithConfidence(pol, c)]
                     [closed := WithStatus(rows[closed], Superseded, Some(c.id), Some(c.ingested), Some(c.validFrom))]
    case Inserted =>
      && SameKeyLive(rows, c) == {} && Supersedable(rows, c) == {}
      && next == rows[c.id := WithConfidence(pol, c)]
  }

  // ---- The operation ---------------------------------------------------------------------------

  /** The fold of `applySemanticConflict` over the sides already treated. */
  ghost predicate Contesting(rows: Rows, c: Claim, done: set<Id>, now: Rows) {
    && done <= rows.Keys
    && now.Keys == rows.Keys + {c.id}
    && (forall id :: id in rows && id !in done ==> now[id] == rows[id])
    && (forall id :: id in done ==> SameBut(now[id], ContestedWith(rows[id], c.id)))
    && SameBut(now[c.id], if done == {} then c else c.(status := Contested, contestedBy := c.contestedBy + done))
  }

  lemma ContestCongruent(a: Claim, b: Claim, x: Claim, id: Id)
    requires SameBut(a, ContestedWith(b, id)) && SameBut(b, x)
    ensures SameBut(a, ContestedWith(x, id))
  {
  }

  lemma ContestTwice(a: Claim, c: Claim, done: set<Id>, id: Id)
    requires SameBut(a, ContestedWith(if done == {} then c else c.(status := Contested, contestedBy := c.contestedBy + done), id))
    ensures SameBut(a, c.(status := Contested, contestedBy := c.contestedBy + (done + {id})))
  {
    assert c.contestedBy + done + {id} == c.contestedBy + (done + {id});
    assert c.contestedBy + {} == c.contestedBy;
  }

  lemma ContestOne(rows: Rows, c: Claim, done: set<Id>, now: Rows, id: Id, next: Rows)
    requires Contesting(rows, c, done, now) && id in rows && id !in done && c.id !in rows
    requires next.Keys == now.Keys
    requires forall x :: x in now && x != id && x != c.id ==> next[x] == now[x]
    requires SameBut(next[id], ContestedWith(now[id], c.id)) && SameBut(next[c.id], ContestedWith(now[c.id], id))
    ensures Contesting(rows, c, done + {id}, next)
  {
    hide SameBut, ContestedWith;
    var before := if done == {} then c else c.(status := Contested, contestedBy := c.contestedBy + done);
    ContestCongruent(next[c.id], now[c.id], before, id);
    ContestTwice(next[c.id], c, done, id);
  }

  method ApplySemanticConflict(pol: Policy, store: Store, existing: Id, newcomer: Id)
    requires store.Valid() && existing != newcomer && existing in store.rows && newcomer in store.rows
    modifies store
    ensures store.Valid() && store.rows.Keys == old(store.rows).Keys
    ensures forall x :: x in store.rows && x != existing && x != newcomer ==> store.rows[x] == old(store.rows)[x]
    ensures SameBut(store.rows[existing], ContestedWith(old(store.rows)[existing], newcomer))
    ensures SameBut(store.rows[newcomer], ContestedWith(old(store.rows)[newcomer], existing))
  {
    hide StoreOk;
    store.MarkContested(existing, newcomer);
    var a, b := store.rows[existing], store.rows[newcomer];
    store.UpdateClaimConfidence(existing, pol.confidence(a));
    store.UpdateClaimConfidence(newcomer, pol.confidence(b));
  }

  method ContestAll(pol: Policy, store: Store, c: Claim, others: set<Id>, ghost before: Rows)
    requires store.Valid() && c.id !in before && others <= before.Keys
    requires Contesting(before, c, {}, store.rows)
    modifies store
    ensures store.Valid() && Contesting(before, c, others, store.rows)
  {
    hide StoreOk, SameBut, ContestedWith;
    var todo := others;
    while todo != {}
      invariant store.Valid() && todo <= others
      invariant Contesting(before, c, others - todo, store.rows)
      decreases todo
    {
      var id :| id in todo;
      ghost var now := store.rows;
      ApplySemanticConflict(pol, store, id, c.id);
      ContestOne(before, c, others - todo, now, id, store.rows);
      assert others - todo + {id} == others - (todo - {id});
      todo := todo - {id};
    }
    assert others - todo == others;
  }

  method Corroborate(pol: Policy, store: Store, e: Id, evidence: seq<Id>)
    requires store.Valid() && e in store.rows
    modifies store
    ensures store.Valid() && store.rows.Keys == old(store.rows).Keys
    ensures forall x :: x in store.rows && x != e ==> store.rows[x] == old(store.rows)[x]
    ensures SameBut(store.rows[e], old(store.rows)[e].(evidence := AddAll(old(store.rows)[e].evidence, evidence)))
  {
    hide StoreOk;
    ghost var before := store.rows;
    for k := 0 to |evidence|
      invariant store.Valid() && store.rows.Keys == before.Keys
      invariant forall x :: x in store.rows && x != e ==> store.rows[x] == before[x]
      invariant SameBut(store.rows[e], before[e].(evidence := AddAll(before[e].evidence, evidence[..k])))
    {
      store.AddCorroborationEvidence(pol, e, evidence[k]);
      assert evidence[..k + 1][..k] == evidence[..k];
    }
    assert evidence[..|evidence|] == evidence;
  }

  /** `admitClaim` for a claim with a fresh id. */
  method AdmitClaim(pol: Policy, store: Store, c: Claim) returns (o: Outcome)
    requires store.Valid() && c.id !in store.rows
    modifies store
    ensures store.Valid()
    ensures Admitted(pol, old(store.rows), c, store.rows, o)
    ensures OutcomeFits(pol, old(store.rows), c, o) && RowsFit(old(store.rows), c, store.rows, o)
  {
    ghost var before := store.rows;
    o := ChooseAndWrite(pol, store, c);
    OutcomeByFields(pol, before, c, store.rows, o);
    RowsByFields(pol, before, c, store.rows, o);
  }

  method ChooseAndWrite(pol: Policy, store: Store, c: Claim) returns (o: Outcome)
    requires store.Valid() && c.id !in store.rows
    modifies store
    ensures store.Valid()
    ensures Admitted(pol, old(store.rows), c, store.rows, o)
  {
    hide StoreOk;
    ghost var before := store.rows;
    var same := SameKeyLive(store.rows, c);
    var agreeing := Agreeing(pol, store.rows, c);
    if same != {} {
      if agreeing != {} {
        var e :| e in agreeing;
        Corroborate(pol, store, e, c.evidence);
        o := Corroborated(e);
      } else {
        store.InsertClaim(WithConfidence(pol, c));
        ContestAll(pol, store, c, same, before);
        o := ContestedBy(same);
      }
      return;
    }
    assert agreeing == {} by { assert agreeing <= same; }
    var targets := Supersedable(store.rows, c);
    if targets != {} {
      var t :| t in targets;
      store.InsertClaim(WithConfidence(pol, c));
      store.UpdateClaimStatus(t, Superseded, Some(c.id), Some(c.ingested), Some(c.validFrom));
      o := Supersedes(t);
    } else {
      store.InsertClaim(WithConfidence(pol, c));
      o := Inserted;
    }
  }

  // ---- The outcome in terms of the fields -----------------------------------------------------------

  /** Which outcome it is and whom it names. Live is active, stale or contested; only an active claim
      is superseded. */
  ghost predicate OutcomeFits(pol: Policy, rows: Rows, c: Claim, o: Outcome) {
    var slot := set id | id in rows && rows[id].subject == c.subject && rows[id].predicateName == c.predicateName && rows[id].scope == c.scope;
    var rivals := set id | id in slot && rows[id].validFrom == c.validFrom
      && (rows[id].status == Active || rows[id].status == Stale || rows[id].status == Contested);
    var older := set id | id in slot && rows[id].validFrom < c.validFrom && rows[id].status == Active;
    && (o.Corroborated? <==> exists id :: id in rivals && pol.norm(rows[id].value) == pol.norm(c.value))
    && (o.ContestedBy? <==> rivals != {} && forall id :: id in rivals ==> pol.norm(rows[id].value) != pol.norm(c.value))
    && (o.Supersedes? <==> rivals == {} && older != {})
    && (o.Inserted? <==> rivals == {} && older == {})
    && (o.Corroborated? ==> o.existing in rivals && pol.norm(rows[o.existing].value) == pol.norm(c.value))
    && (o.ContestedBy? ==> o.others == rivals)
    && (o.Supersedes? ==> o.closed in older)
  }

  lemma OutcomeByFields(pol: Policy, rows: Rows, c: Claim, next: Rows, o: Outcome)
    requires Admitted(pol, rows, c, next, o) && c.id !in rows
    ensures OutcomeFits(pol, rows, c, o)
  {
    var slot := set id | id in rows && rows[id].subject == c.subject && rows[id].predicateName == c.predicateName && rows[id].scope == c.scope;
    var rivals := set id | id in slot && rows[id].validFrom == c.validFrom
      && (rows[id].status == Active || rows[id].status == Stale || rows[id].status == Contested);
    assert rivals == SameKeyLive(rows, c);
    assert Supersedable(rows, c) == set id | id in slot && rows[id].validFrom < c.validFrom && rows[id].status == Active;
    assert forall id :: id in Agreeing(pol, rows, c) <==> id in rivals && pol.norm(rows[id].value) == pol.norm(c.value);
  }

  /** What becomes of the rows. A row about another subject, predicate or scope stays exactly what it
      was. A contested side gains the newcomer as an opponent, a superseded one is closed on both time
      axes and points to the newcomer, a corroborated one gains its evidence; nothing else of them
      changes but the confidence of the first and the last. */
  ghost predicate RowsFit(rows: Rows, c: Claim, next: Rows, o: Outcome) {
    && rows.Keys <= next.Keys
    && (c.id in next <==> !o.Corroborated?) && next.Keys <= rows.Keys + {c.id}
    && (forall id :: id in rows && (rows[id].subject != c.subject || rows[id].predicateName != c.predicateName || rows[id].scope != c.scope)
          ==> next[id] == rows[id])
    && (forall id :: id in rows ==>
          var a, b := rows[id], next[id];
          && a.id == b.id && a.subject == b.subject && a.predicateName == b.predicateName && a.scope == b.scope && a.value == b.value
          && a.validFrom == b.validFrom && a.ingested == b.ingested && a.versionAt == b.versionAt && a.createdAt == b.createdAt
          && (if o.ContestedBy? && id in o.others
              then b.status == Contested && b.contestedBy == a.contestedBy + {c.id}
              else b.contestedBy == a.contestedBy && (o != Supersedes(id) ==> b.status == a.status))
          && (if o == Supersedes(id)
              then && b.status == Superseded && b.supersededBy == Some(c.id) && b.invalidated == Some(c.ingested)
                   && b.validTo == (if a.validTo.None? then Some(c.validFrom) else a.validTo)
              else b.supersededBy == a.supersededBy && b.invalidated == a.invalidated && b.validTo == a.validTo)
          && (if o == Corroborated(id)
              then forall x :: x in b.evidence <==> x in a.evidence || x in c.evidence
              else b.evidence == a.evidence)
          && (o == Corroborated(id) || (o.ContestedBy? && id in o.others) || b.confidence == a.confidence))
    && (c.id in next ==>
          next[c.id] == if o.ContestedBy?
                        then c.(status := Contested, contestedBy := c.contestedBy + o.others, confidence := next[c.id].confidence)
                        else c.(confidence := next[c.id].confidence))
  }

  lemma RowsByFields(pol: Policy, rows: Rows, c: Claim, next: Rows, o: Outcome)
    requires Admitted(pol, rows, c, next, o) && c.id !in rows
    ensures RowsFit(rows, c, next, o)
  {
  }

  // ---- Runs --------------------------------------------------------------------------------------

  datatype Step = Step(claim: Claim, outcome: Outcome)

  ghost predicate Run(pol: Policy, states: seq<Rows>, steps: seq<Step>) {
    && |states| == |steps| + 1
    && forall k :: 0 <= k < |steps| ==>
         steps[k].claim.id !in states[k] && Admitted(pol, states[k], steps[k].claim, states[k + 1], steps[k].outcome)
  }

  /** Two live claims about one key are an open disagreement, mutual and real. */
  predicate Disagree(pol: Policy, rows: Rows, a: Id, b: Id)
    requires a in rows && b in rows
  {
    && rows[a].status == Contested && rows[b].status == Contested
    && b in rows[a].contestedBy && a in rows[b].contestedBy
    && pol.norm(rows[a].value) != pol.norm(rows[b].value)
  }

  predicate Unresolved(pol: Policy, rows: Rows) {
    forall a, b :: a in rows && b in rows && a != b && Live(rows[a].status) && Live(rows[b].status) && SameKey(rows[a], rows[b])
      ==> Disagree(pol, rows, a, b)
  }

  /** The key fields and the value of a row never change; neither does the id set shrink. */
  ghost predicate Stable(rows: Rows, next: Rows) {
    forall id :: id in rows ==> id in next && SameKey(next[id], rows[id]) && next[id].value == rows[id].value
  }

  lemma AdmissionIsStable(pol: Policy, rows: Rows, c: Claim, next: Rows, o: Outcome)
    requires Admitted(pol, rows, c, next, o) && c.id !in rows
    ensures Stable(rows, next)
  {
  }

  lemma AdmissionKeepsUnresolved(pol: Policy, rows: Rows, c: Claim, next: Rows, o: Outcome)
    requires Unresolved(pol, rows) && Admitted(pol, rows, c, next, o) && c.id !in rows
    ensures Unresolved(pol, next)
  {
    AdmissionIsStable(pol, rows, c, next, o);
    forall a, b | a in next && b in next && a != b && Live(next[a].status) && Live(next[b].status) && SameKey(next[a], next[b])
      ensures Disagree(pol, next, a, b)
    {
      match o {
        case Corroborated(e) => assert Disagree(pol, rows, a, b);
        case ContestedBy(others) =>
          if a == c.id {
            ContestedPair(pol, rows, c, next, others, b);
          } else if b == c.id {
            ContestedPair(pol, rows, c, next, others, a);
          } else {
            LiveBefore(pol, rows, c, next, o, a);
            LiveBefore(pol, rows, c, next, o, b);
            assert Disagree(pol, rows, a, b);
          }
        case Supersedes(closed) =>
          if a in rows { NewcomerAlone(pol, rows, c, next, o, a); LiveBefore(pol, rows, c, next, o, a); }
          if b in rows { NewcomerAlone(pol, rows, c, next, o, b); LiveBefore(pol, rows, c, next, o, b); }
          assert Disagree(pol, rows, a, b);
        case Inserted =>
          if a in rows { NewcomerAlone(pol, rows, c, next, o, a); }
          if b in rows { NewcomerAlone(pol, rows, c, next, o, b); }
          assert Disagree(pol, rows, a, b);
      }
    }
  }

  /** Only supersession changes a live row to a dead one, so a live old row was live before. */
  lemma LiveBefore(pol: Policy, rows: Rows, c: Claim, next: Rows, o: Outcome, id: Id)
    requires Admitted(pol, rows, c, next, o) && c.id !in rows && id in rows && Live(next[id].status)
    ensures Live(rows[id].status)
    ensures o.Supersedes? ==> id != o.closed && next[id] == rows[id]
  {
  }

  /** A newcomer that was not contested shares its key with no live claim. */
  lemma NewcomerAlone(pol: Policy, rows: Rows, c: Claim, next: Rows, o: Outcome, x: Id)
    requires Admitted(pol, rows, c, next, o) && c.id !in rows && (o.Supersedes? || o.Inserted?)
    requires x in rows && Live(next[x].status)
    ensures !SameKey(next[x], next[c.id]) && !SameKey(next[c.id], next[x])
  {
    LiveBefore(pol, rows, c, next, o, x);
    assert x !in SameKeyLive(rows, c);
  }

  lemma ContestedPair(pol: Policy, rows: Rows, c: Claim, next: Rows, others: set<Id>, b: Id)
    requires Admitted(pol, rows, c, next, ContestedBy(others)) && c.id !in rows
    requires b in next && b != c.id && Live(next[b].status) && SameKey(next[b], next[c.id])
    ensures Disagree(pol, next, c.id, b) && Disagree(pol, next, b, c.id)
  {
    LiveBefore(pol, rows, c, next, ContestedBy(others), b);
    assert b in others;
    assert b !in Agreeing(pol, rows, c);
  }

  /** Over every run of admissions with fresh ids: live claims about one key are all contested,
      list each other, and assert pairwise different values. */
  lemma {:induction false} DisagreementsStayOpen(pol: Policy, states: seq<Rows>, steps: seq<Step>, k: nat)
    requires Run(pol, states, steps) && Unresolved(pol, states[0]) && k < |states|
    ensures Unresolved(pol, states[k])
  {
    hide Admitted, Unresolved;
    if k > 0 {
      DisagreementsStayOpen(pol, states, steps, k - 1);
      AdmissionKeepsUnresolved(pol, states[k - 1], steps[k - 1].claim, states[k], steps[k - 1].outcome);
    }
  }

  /** Contested rows stay contested and no listed opponent or evidence disappears. */
  ghost predicate Kept(rows: Rows, next: Rows) {
    forall id :: id in rows ==>
      && id in next
      && (rows[id].status == Contested ==> next[id].status == Contested)
      && rows[id].contestedBy <= next[id].contestedBy
      && (forall x :: x in rows[id].evidence ==> x in next[id].evidence)
  }

  lemma AdmissionKeeps(pol: Policy, rows: Rows, c: Claim, next: Rows, o: Outcome)
    requires Admitted(pol, rows, c, next, o) && c.id !in rows
    ensures Kept(rows, next)
    ensures var holder := if o.Corroborated? then o.existing else c.id;
      holder in next && forall x :: x in c.evidence ==> x in next[holder].evidence
  {
  }

  /** Over every run: recency never moves a claim out of contested, no evidence is lost, and the
      evidence of every admitted claim stays on the claim that carries its assertion. */
  lemma {:induction false} NothingIsLost(pol: Policy, states: seq<Rows>, steps: seq<Step>, j: nat, k: nat)
    requires Run(pol, states, steps) && j <= k < |states|
    ensures Kept(states[j], states[k])
    ensures j > 0 ==>
      var s := steps[j - 1];
      var holder := if s.outcome.Corroborated? then s.outcome.existing else s.claim.id;
      holder in states[k] && forall x :: x in s.claim.evidence ==> x in states[k][holder].evidence
  {
    hide Admitted;
    if j > 0 {
      AdmissionKeeps(pol, states[j - 1], steps[j - 1].claim, states[j], steps[j - 1].outcome);
    }
    if j < k {
      NothingIsLost(pol, states, steps, j, k - 1);
      AdmissionKeeps(pol, states[k - 1], steps[k - 1].claim, states[k], steps[k - 1].outcome);
    }
  }

  // ---- Links stay inside a slot --------------------------------------------------------------------

  /** The link was there before the run, or the claim came with it. */
  ghost predicate Brought(states: seq<Rows>, steps: seq<Step>, k: nat, a: Id, b: Id)
    requires |states| == |steps| + 1 && k < |states|
  {
    || (a in states[0] && (b in states[0][a].contestedBy || states[0][a].supersededBy == Some(b)))
    || exists j :: 0 <= j < k && steps[j].claim.id == a && !steps[j].outcome.Corroborated?
         && (b in steps[j].claim.contestedBy || steps[j].claim.supersededBy == Some(b))
  }

  /** An admission links claims of one slot only. */
  lemma NewLinks(pol: Policy, rows: Rows, c: Claim, next: Rows, o: Outcome, a: Id, b: Id)
    requires Admitted(pol, rows, c, next, o) && c.id !in rows && a in next
    requires b in next[a].contestedBy || next[a].supersededBy == Some(b)
    ensures || (a in rows && (b in rows[a].contestedBy || rows[a].supersededBy == Some(b)))
            || (a == c.id && a !in rows && !o.Corroborated? && (b in c.contestedBy || c.supersededBy == Some(b)))
            || (b in next && SameFact(next[a], next[b]))
  {
    RowsByFields(pol, rows, c, next, o);
  }

  lemma {:induction false} LinksStayInSlot(pol: Policy, states: seq<Rows>, steps: seq<Step>, k: nat, a: Id, b: Id)
    requires Run(pol, states, steps) && k < |states| && a in states[k]
    requires b in states[k][a].contestedBy || states[k][a].supersededBy == Some(b)
    ensures Brought(states, steps, k, a, b) || (b in states[k] && SameFact(states[k][a], states[k][b]))
  {
    hide Admitted;
    if k > 0 {
      var s := steps[k - 1];
      NewLinks(pol, states[k - 1], s.claim, states[k], s.outcome, a, b);
      AdmissionIsStable(pol, states[k - 1], s.claim, states[k], s.outcome);
      if a in states[k - 1] && (b in states[k - 1][a].contestedBy || states[k - 1][a].supersededBy == Some(b)) {
        LinksStayInSlot(pol, states, steps, k - 1, a, b);
      }
    }
  }

  /** Over every run: claims of different subjects, predicates or scopes list or supersede each other
      only where the store began so or the claim was handed in so, never because of an admission. */
  lemma SlotsNeverLinked(pol: Policy, states: seq<Rows>, steps: seq<Step>, k: nat, a: Id, b: Id)
    requires Run(pol, states, steps) && k < |states| && a in states[k] && b in states[k]
    requires var x, y := states[k][a], states[k][b]; x.subject != y.subject || x.predicateName != y.predicateName || x.scope != y.scope
    ensures b in states[k][a].contestedBy || states[k][a].supersededBy == Some(b) ==> Brought(states, steps, k, a, b)
  {
    hide Admitted;
    if b in states[k][a].contestedBy || states[k][a].supersededBy == Some(b) { LinksStayInSlot(pol, states, steps, k, a, b); }
  }
}
