/** The suppression graph over claims: who is effectively current, which edges may be admitted,
    what forgetting releases and what reviving must drop. */
module Suppression {
  import opened Evidence

  datatype RelationKind = Supports | Contradicts | Supersedes | Corrects | Invalidates | Summarizes | References

  datatype Relation = Relation(id: Id, source: Id, target: Id, kind: RelationKind, invalidAt: Option<string>)

  /** A claim row; `live` is `state = 'active'`. */
  datatype ClaimRow = ClaimRow(live: bool, evidence: seq<Id>)

  datatype Db = Db(
    claims: map<Id, ClaimRow>,
    relations: seq<Relation>,
    accepted: map<Id, bool>,        // observations: is effective_status 'accepted'?
    evidenceLifecycle: bool)

  predicate Suppressing(k: RelationKind) { k == Supersedes || k == Corrects }

  predicate LiveSuppression(r: Relation) { Suppressing(r.kind) && r.invalidAt.None? }

  // ---- Paths -----------------------------------------------------------------------------

  predicate Edge(rels: seq<Relation>, a: Id, b: Id) {
    exists r :: r in rels && LiveSuppression(r) && r.source == a && r.target == b
  }

  /** There is an edge for every supersedes or corrects relation not invalidated, and for no other. */
  lemma EdgeIff(rels: seq<Relation>, a: Id, b: Id)
    ensures Edge(rels, a, b) <==>
      exists i :: 0 <= i < |rels| && rels[i].source == a && rels[i].target == b
        && (rels[i].kind == Supersedes || rels[i].kind == Corrects) && rels[i].invalidAt.None?
  {
    if Edge(rels, a, b) {
      var r :| r in rels && LiveSuppression(r) && r.source == a && r.target == b;
      var i :| 0 <= i < |rels| && rels[i] == r;
    }
  }

  predicate Path(rels: seq<Relation>, p: seq<Id>) {
    p != [] && forall k :: 0 <= k < |p| - 1 ==> Edge(rels, p[k], p[k + 1])
  }

  predicate PathFrom(rels: seq<Relation>, a: Id, b: Id, p: seq<Id>) {
    Path(rels, p) && p[0] == a && p[|p| - 1] == b
  }

  /** A live suppression path, possibly of length zero. */
  ghost predicate Reaches(rels: seq<Relation>, a: Id, b: Id) {
    exists p :: PathFrom(rels, a, b, p)
  }

  ghost predicate Acyclic(rels: seq<Relation>) {
    forall a, b :: Edge(rels, a, b) ==> !Reaches(rels, b, a)
  }

  lemma ReachesSelf(rels: seq<Relation>, a: Id)
    ensures Reaches(rels, a, a)
  {
    assert PathFrom(rels, a, a, [a]);
  }

  lemma ReachesThen(rels: seq<Relation>, a: Id, b: Id, c: Id)
    requires Reaches(rels, a, b) && Reaches(rels, b, c)
    ensures Reaches(rels, a, c)
  {
    var p :| PathFrom(rels, a, b, p);
    var q :| PathFrom(rels, b, c, q);
    var r := p + q[1..];
    forall k | 0 <= k < |r| - 1 ensures Edge(rels, r[k], r[k + 1]) {
      if k < |p| - 1 {
        assert Edge(rels, p[k], p[k + 1]);
      } else {
        assert Edge(rels, q[k - |p| + 1], q[k - |p| + 2]);
      }
    }
    assert PathFrom(rels, a, c, r);
  }

  lemma ReachesStep(rels: seq<Relation>, a: Id, b: Id)
    requires Edge(rels, a, b)
    ensures Reaches(rels, a, b)
  {
    assert PathFrom(rels, a, b, [a, b]);
  }

  lemma SubPath(rels: seq<Relation>, p: seq<Id>, i: nat, j: nat)
    requires Path(rels, p) && i <= j < |p|
    ensures Reaches(rels, p[i], p[j])
  {
    var q := p[i..j + 1];
    forall k | 0 <= k < |q| - 1 ensures Edge(rels, q[k], q[k + 1]) {
      assert Edge(rels, p[i + k], p[i + k + 1]);
    }
    assert PathFrom(rels, p[i], p[j], q);
  }

  lemma {:induction false} ClosedUnderPath(rels: seq<Relation>, s: set<Id>, p: seq<Id>)
    requires Path(rels, p) && p[0] in s
    requires forall a, b :: a in s && Edge(rels, a, b) ==> b in s
    ensures p[|p| - 1] in s
  {
    if |p| > 1 {
      assert Edge(rels, p[0], p[1]);
      assert forall k :: 0 <= k < |p| - 2 ==> Edge(rels, p[1..][k], p[1..][k + 1]) by {
        forall k | 0 <= k < |p| - 2 ensures Edge(rels, p[1..][k], p[1..][k + 1]) { assert Edge(rels, p[k + 1], p[k + 2]); }
      }
      ClosedUnderPath(rels, s, p[1..]);
    }
  }

  // ---- The breadth-first check ------------------------------------------------------------

  /** `SELECT target_claim_id ... WHERE source_claim_id = ?`, in row order. */
  function Outbound(rels: seq<Relation>, a: Id): (r: seq<Id>)
    ensures forall b :: b in r <==> Edge(rels, a, b)
  {
    if rels == [] then []
    else
      assert rels == [rels[0]] + rels[1..];
      var rest := Outbound(rels[1..], a);
      if LiveSuppression(rels[0]) && rels[0].source == a then [rels[0].target] + rest else rest
  }

  function Nodes(rels: seq<Relation>): set<Id> { set r | r in rels :: r.target }

  lemma EdgeEndsAtNode(rels: seq<Relation>, a: Id, b: Id)
    requires Edge(rels, a, b)
    ensures b in Nodes(rels)
  {
  }

  lemma ClosedKeepsOut(rels: seq<Relation>, s: set<Id>, a: Id, b: Id)
    requires a in s && b !in s
    requires forall x, y :: x in s && Edge(rels, x, y) ==> y in s
    ensures !Reaches(rels, a, b)
  {
    if Reaches(rels, a, b) {
      var p :| PathFrom(rels, a, b, p);
      ClosedUnderPath(rels, s, p);
    }
  }

  /** The inner loop: queue every neighbour that was not visited. */
  method PushUnvisited(queue: seq<Id>, visited: set<Id>, outbound: seq<Id>) returns (grown: seq<Id>)
    ensures forall x :: x in grown <==> x in queue || (x in outbound && x !in visited)
  {
    grown := queue;
    for k := 0 to |outbound|
      invariant forall x :: x in grown <==> x in queue || (x in outbound[..k] && x !in visited)
    {
      if outbound[k] !in visited {
        grown := grown + [outbound[k]];
      }
    }
  }

  /** True exactly when no live suppression path leads from the target back to the source. */
  method CheckAcyclicity(rels: seq<Relation>, source: Id, target: Id, kind: RelationKind) returns (ok: bool)
    ensures ok <==> !(kind == Supersedes || kind == Corrects) || !Reaches(rels, target, source)
  {
    if !Suppressing(kind) {
      return true;
    }
    var visited: set<Id> := {};
    var queue := [target];
    ghost var all := Nodes(rels) + {target};
    hide Edge, Reaches;
    ReachesSelf(rels, target);
    while queue != []
      invariant visited <= all && (forall x :: x in queue ==> x in all)
      invariant source !in visited
      invariant target in visited || target in queue
      invariant forall x :: x in visited || x in queue ==> Reaches(rels, target, x)
      invariant forall a, b :: a in visited && Edge(rels, a, b) ==> b in visited || b in queue
      decreases |all - visited|, |queue|
    {
      var current := queue[0];
      ghost var before := queue;
      queue := queue[1..];
      assert before == [current] + queue;
      if current == source {
        return false;
      }
      if current in visited {
        continue;
      }
      visited := visited + {current};
      assert all - visited < all - (visited - {current});
      StrictlySmaller(all - visited, all - (visited - {current}));
      var outbound := Outbound(rels, current);
      queue := PushUnvisited(queue, visited, outbound);
      forall x | x in queue ensures x in all && Reaches(rels, target, x) {
        if x !in before {
          assert Edge(rels, current, x);
          EdgeEndsAtNode(rels, current, x);
          ReachesStep(rels, current, x);
          ReachesThen(rels, target, current, x);
        }
      }
    }
    ClosedKeepsOut(rels, visited, target, source);
    ok := true;
  }

  lemma StrictlySmaller<T>(a: set<T>, b: set<T>)
    requires a < b
    ensures |a| < |b|
  {
    assert b == a + (b - a);
    assert |b| == |a| + |b - a|;
    assert b - a != {};
  }

  // ---- Admission keeps the graph acyclic ----------------------------------------------------

  /** A REVISE admits relations of one claim, each checked against the table as it was. */
  ghost predicate Approved(rels: seq<Relation>, source: Id, adds: seq<Relation>) {
    forall r :: r in adds ==> r.source == source && (Suppressing(r.kind) ==> !Reaches(rels, r.target, source))
  }

  lemma EdgeOfConcat(rels: seq<Relation>, adds: seq<Relation>, a: Id, b: Id)
    ensures Edge(rels + adds, a, b) <==> Edge(rels, a, b) || Edge(adds, a, b)
  {
    if Edge(rels, a, b) {
      var r :| r in rels && LiveSuppression(r) && r.source == a && r.target == b;
      assert r in rels + adds;
    }
    if Edge(adds, a, b) {
      var r :| r in adds && LiveSuppression(r) && r.source == a && r.target == b;
      assert r in rels + adds;
    }
  }

  /** The stretch of a new path up to its first new edge is an old path to the source. */
  lemma {:induction false} BeforeFirstNew(rels: seq<Relation>, source: Id, adds: seq<Relation>, p: seq<Id>)
    requires (forall r :: r in adds ==> r.source == source) && Path(rels + adds, p)
    ensures Path(rels, p) || Reaches(rels, p[0], source)
  {
    if |p| == 1 {
    } else {
      assert Edge(rels + adds, p[0], p[1]);
      EdgeOfConcat(rels, adds, p[0], p[1]);
      if !Edge(rels, p[0], p[1]) {
        ReachesSelf(rels, source);
      } else {
        forall k | 0 <= k < |p| - 2 ensures Edge(rels + adds, p[1..][k], p[1..][k + 1]) { assert Edge(rels + adds, p[k + 1], p[k + 2]); }
        BeforeFirstNew(rels, source, adds, p[1..]);
        if Path(rels, p[1..]) {
          forall k | 0 <= k < |p| - 1 ensures Edge(rels, p[k], p[k + 1]) {
            if k > 0 { assert Edge(rels, p[1..][k - 1], p[1..][k]); }
          }
        } else {
          ReachesStep(rels, p[0], p[1]);
          ReachesThen(rels, p[0], p[1], source);
        }
      }
    }
  }

  /** The stretch after its last new edge is an old path from an admitted target. */
  lemma {:induction false} AfterLastNew(rels: seq<Relation>, source: Id, adds: seq<Relation>, p: seq<Id>)
    requires Path(rels + adds, p)
    ensures Path(rels, p) || exists r :: r in adds && LiveSuppression(r) && Reaches(rels, r.target, p[|p| - 1])
  {
    var n := |p| - 1;
    if n > 0 {
      assert Edge(rels + adds, p[n - 1], p[n]);
      EdgeOfConcat(rels, adds, p[n - 1], p[n]);
      if !Edge(rels, p[n - 1], p[n]) {
        ReachesSelf(rels, p[n]);
      } else {
        forall k | 0 <= k < n - 1 ensures Edge(rels + adds, p[..n][k], p[..n][k + 1]) { assert Edge(rels + adds, p[k], p[k + 1]); }
        AfterLastNew(rels, source, adds, p[..n]);
        if Path(rels, p[..n]) {
          forall k | 0 <= k < n ensures Edge(rels, p[k], p[k + 1]) {
            if k < n - 1 { assert Edge(rels, p[..n][k], p[..n][k + 1]); }
          }
        } else {
          var r :| r in adds && LiveSuppression(r) && Reaches(rels, r.target, p[n - 1]);
          ReachesStep(rels, p[n - 1], p[n]);
          ReachesThen(rels, r.target, p[n - 1], p[n]);
        }
      }
    }
  }

  /** A batch is safe although its members are checked only against the table, not against
      each other: they all leave the same claim. */
  lemma ApprovedBatchKeepsAcyclic(rels: seq<Relation>, source: Id, adds: seq<Relation>)
    requires Acyclic(rels) && Approved(rels, source, adds)
    ensures Acyclic(rels + adds)
  {
    var now := rels + adds;
    forall a, b | Edge(now, a, b) ensures !Reaches(now, b, a) {
      if Reaches(now, b, a) {
        var q :| PathFrom(now, b, a, q);
        var p := [a] + q;
        forall k | 0 <= k < |p| - 1 ensures Edge(now, p[k], p[k + 1]) {
          if k > 0 { assert Edge(now, q[k - 1], q[k]); }
        }
        NoClosedWalk(rels, source, adds, p);
      }
    }
  }

  lemma NoClosedWalk(rels: seq<Relation>, source: Id, adds: seq<Relation>, p: seq<Id>)
    requires Acyclic(rels) && Approved(rels, source, adds)
    requires Path(rels + adds, p) && |p| > 1
    ensures p[0] != p[|p| - 1]
  {
    BeforeFirstNew(rels, source, adds, p);
    AfterLastNew(rels, source, adds, p);
    if Path(rels, p) {
      SubPath(rels, p, 1, |p| - 1);
      assert Edge(rels, p[0], p[1]);
    } else {
      var r :| r in adds && LiveSuppression(r) && Reaches(rels, r.target, p[|p| - 1]);
      if p[0] == p[|p| - 1] {
        ReachesThen(rels, r.target, p[0], source);
      }
    }
  }

  /** Fewer edges never make a cycle. */
  lemma FewerEdgesKeepAcyclic(rels: seq<Relation>, fewer: seq<Relation>)
    requires forall a, b :: Edge(fewer, a, b) ==> Edge(rels, a, b)
    ensures Acyclic(rels) ==> Acyclic(fewer)
    ensures forall a, b :: Reaches(fewer, a, b) ==> Reaches(rels, a, b)
  {
    forall a, b | Reaches(fewer, a, b) ensures Reaches(rels, a, b) {
      var p :| PathFrom(fewer, a, b, p);
      assert PathFrom(rels, a, b, p);
    }
  }

  /** How the table changes: a checked admission, or rows that are retired, invalidated or
      rewritten without adding a live suppression edge. */
  datatype Change = Admit(source: Id, adds: seq<Relation>) | Rewrite(rels: seq<Relation>)

  ghost predicate Allowed(rels: seq<Relation>, c: Change, next: seq<Relation>) {
    match c
    case Admit(source, adds) => Approved(rels, source, adds) && next == rels + adds
    case Rewrite(now) => next == now && forall a, b :: Edge(now, a, b) ==> Edge(rels, a, b)
  }

  ghost predicate Run(tables: seq<seq<Relation>>, changes: seq<Change>) {
    && |tables| == |changes| + 1
    && forall k :: 0 <= k < |changes| ==> Allowed(tables[k], changes[k], tables[k + 1])
  }

  /** The suppression graph is acyclic over any run of admissions that passed the check. */
  lemma {:induction false} RunStaysAcyclic(tables: seq<seq<Relation>>, changes: seq<Change>, k: nat)
    requires Run(tables, changes) && Acyclic(tables[0]) && k < |tables|
    ensures Acyclic(tables[k])
  {
    if k > 0 {
      RunStaysAcyclic(tables, changes, k - 1);
      assert Allowed(tables[k - 1], changes[k - 1], tables[k - 1 + 1]);
      match changes[k - 1] {
        case Admit(source, adds) => ApprovedBatchKeepsAcyclic(tables[k - 1], source, adds);
        case Rewrite(now) => FewerEdgesKeepAcyclic(tables[k - 1], now);
      }
    }
  }

  // ---- Reviving ------------------------------------------------------------------------------

  predicate OutEdge(c: Id, r: Relation) { LiveSuppression(r) && r.source == c }

  /** `revalidateOnRevive`: split the claim's live suppression edges by the check. */
  method RevalidateOnRevive(rels: seq<Relation>, c: Id) returns (valid: seq<Id>, invalidated: seq<Id>)
    ensures forall x :: x in valid <==> exists r :: r in rels && OutEdge(c, r) && r.id == x && !Reaches(rels, r.target, c)
    ensures forall x :: x in invalidated <==> exists r :: r in rels && OutEdge(c, r) && r.id == x && Reaches(rels, r.target, c)
  {
    valid, invalidated := [], [];
    for k := 0 to |rels|
      invariant forall x :: x in valid <==> exists j :: 0 <= j < k && OutEdge(c, rels[j]) && rels[j].id == x && !Reaches(rels, rels[j].target, c)
      invariant forall x :: x in invalidated <==> exists j :: 0 <= j < k && OutEdge(c, rels[j]) && rels[j].id == x && Reaches(rels, rels[j].target, c)
    {
      var r := rels[k];
      if OutEdge(c, r) {
        var ok := CheckAcyclicity(rels, c, r.target, r.kind);
        if ok {
          valid := valid + [r.id];
        } else {
          invalidated := invalidated + [r.id];
        }
      }
    }
  }

  function Without(rels: seq<Relation>, dropped: set<Id>, at: string): seq<Relation> {
    seq(|rels|, k requires 0 <= k < |rels| => if rels[k].id in dropped then rels[k].(invalidAt := Some(at)) else rels[k])
  }

  lemma WithoutEdges(rels: seq<Relation>, dropped: set<Id>, at: string, a: Id, b: Id)
    ensures Edge(Without(rels, dropped, at), a, b) <==>
      exists k :: 0 <= k < |rels| && LiveSuppression(rels[k]) && rels[k].source == a && rels[k].target == b && rels[k].id !in dropped
  {
    var less := Without(rels, dropped, at);
    if Edge(less, a, b) {
      var r :| r in less && LiveSuppression(r) && r.source == a && r.target == b;
      var k :| 0 <= k < |less| && less[k] == r;
      assert rels[k] == r && rels[k].id !in dropped;
    }
    if k :| 0 <= k < |rels| && LiveSuppression(rels[k]) && rels[k].source == a && rels[k].target == b && rels[k].id !in dropped {
      assert less[k] == rels[k];
    }
  }

  ghost function OnCycleIds(rels: seq<Relation>, c: Id): set<Id> {
    set r | r in rels && OutEdge(c, r) && Reaches(rels, r.target, c) :: r.id
  }

  ghost function OutIds(rels: seq<Relation>, c: Id): set<Id> { set r | r in rels && OutEdge(c, r) :: r.id }

  predicate UniqueIds(rels: seq<Relation>) {
    forall i, j :: 0 <= i < j < |rels| ==> rels[i].id != rels[j].id
  }

  /** Dropping the invalidated edges leaves the graph acyclic exactly when the rest of the graph
      was: no cycle can use an edge that passed the check. */
  lemma ReviveLeavesAcyclic(rels: seq<Relation>, c: Id, at: string)
    requires UniqueIds(rels)
    ensures Acyclic(Without(rels, OnCycleIds(rels, c), at)) <==> Acyclic(Without(rels, OutIds(rels, c), at))
  {
    var kept, bare := Without(rels, OnCycleIds(rels, c), at), Without(rels, OutIds(rels, c), at);
    forall a, b ensures Edge(bare, a, b) ==> Edge(kept, a, b) {
      WithoutEdges(rels, OutIds(rels, c), at, a, b);
      WithoutEdges(rels, OnCycleIds(rels, c), at, a, b);
    }
    forall a, b ensures Edge(kept, a, b) ==> Edge(rels, a, b) {
      WithoutEdges(rels, OnCycleIds(rels, c), at, a, b);
    }
    FewerEdgesKeepAcyclic(kept, bare);
    FewerEdgesKeepAcyclic(rels, kept);
    if Acyclic(bare) {
      forall a, b | Edge(kept, a, b) ensures !Reaches(kept, b, a) {
        if Reaches(kept, b, a) {
          var q :| PathFrom(kept, b, a, q);
          KeptWalkNeverCloses(rels, c, at, a, b, a, q);
        }
      }
    }
  }

  /** An edge of the revived claim that survived the drop has no way back. */
  lemma KeptEdge(rels: seq<Relation>, c: Id, at: string, a: Id, b: Id)
    requires UniqueIds(rels) && Edge(Without(rels, OnCycleIds(rels, c), at), a, b)
    ensures a == c ==> !Reaches(rels, b, c)
    ensures a != c ==> Edge(Without(rels, OutIds(rels, c), at), a, b)
  {
    WithoutEdges(rels, OnCycleIds(rels, c), at, a, b);
    WithoutEdges(rels, OutIds(rels, c), at, a, b);
    var k :| 0 <= k < |rels| && LiveSuppression(rels[k]) && rels[k].source == a && rels[k].target == b && rels[k].id !in OnCycleIds(rels, c);
    if a != c {
      assert rels[k].id !in OutIds(rels, c);
    }
  }

  lemma KeptWalkNeverCloses(rels: seq<Relation>, c: Id, at: string, a: Id, b: Id, z: Id, q: seq<Id>)
    requires UniqueIds(rels)
    requires var kept := Without(rels, OnCycleIds(rels, c), at); Edge(kept, a, b) && PathFrom(kept, b, z, q)
    requires Acyclic(Without(rels, OutIds(rels, c), at))
    ensures z != a
  {
    var kept, bare := Without(rels, OnCycleIds(rels, c), at), Without(rels, OutIds(rels, c), at);
    forall x, y ensures Edge(kept, x, y) ==> Edge(rels, x, y) {
      WithoutEdges(rels, OnCycleIds(rels, c), at, x, y);
    }
    FewerEdgesKeepAcyclic(rels, kept);
    var p := [a] + q;
    assert Path(kept, p) by {
      forall k | 0 <= k < |p| - 1 ensures Edge(kept, p[k], p[k + 1]) {
        if k > 0 { assert Edge(kept, q[k - 1], q[k]); }
      }
    }
    if k :| 0 <= k < |p| - 1 && p[k] == c {
      assert Edge(kept, p[k], p[k + 1]);
      KeptEdge(rels, c, at, p[k], p[k + 1]);
      SubPath(kept, p, k + 1, |p| - 1);
      SubPath(kept, p, 0, k);
      if z == a {
        ReachesThen(kept, p[k + 1], a, c);
      }
    } else {
      forall k | 0 <= k < |p| - 1 ensures Edge(bare, p[k], p[k + 1]) {
        assert Edge(kept, p[k], p[k + 1]);
        KeptEdge(rels, c, at, p[k], p[k + 1]);
      }
      SubPath(bare, p, 1, |p| - 1);
      assert Edge(bare, p[0], p[1]);
    }
  }

  // ---- Who is current --------------------------------------------------------------------------

  predicate Suppressed(db: Db, id: Id) {
    exists r :: r in db.relations && LiveSuppression(r) && r.target == id && r.source in db.claims && db.claims[r.source].live
  }

  predicate EvidenceStands(db: Db, evidence: seq<Id>) {
    || (forall k :: 0 <= k < |evidence| ==> evidence[k] !in db.accepted)
    || (exists k :: 0 <= k < |evidence| && evidence[k] in db.accepted && db.accepted[evidence[k]])
  }

  /** What the read interfaces promise about a current claim. */
  predicate Current(db: Db, id: Id) {
    && id in db.claims && db.claims[id].live
    && (db.evidenceLifecycle ==> EvidenceStands(db, db.claims[id].evidence))
    && !Suppressed(db, id)
  }

  /** In the fields: a live claim with standing evidence is current unless a live claim supersedes or
      corrects it by a relation not invalidated. */
  lemma CurrentIff(db: Db, id: Id)
    ensures Current(db, id) <==>
      && id in db.claims && db.claims[id].live
      && (db.evidenceLifecycle && (exists x :: x in db.claims[id].evidence && x in db.accepted) ==>
            exists x :: x in db.claims[id].evidence && x in db.accepted && db.accepted[x])
      && (forall i :: 0 <= i < |db.relations| && db.relations[i].target == id && db.relations[i].invalidAt.None?
            && (db.relations[i].kind == Supersedes || db.relations[i].kind == Corrects)
            ==> db.relations[i].source !in db.claims || !db.claims[db.relations[i].source].live)
  {
    SuppressedIff(db, id);
    if id in db.claims { StandsIff(db, db.claims[id].evidence); }
  }

  lemma SuppressedIff(db: Db, id: Id)
    ensures Suppressed(db, id) <==>
      exists i :: 0 <= i < |db.relations| && db.relations[i].target == id && db.relations[i].invalidAt.None?
        && (db.relations[i].kind == Supersedes || db.relations[i].kind == Corrects)
        && db.relations[i].source in db.claims && db.claims[db.relations[i].source].live
  {
    if Suppressed(db, id) {
      var r :| r in db.relations && LiveSuppression(r) && r.target == id && r.source in db.claims && db.claims[r.source].live;
      var i :| 0 <= i < |db.relations| && db.relations[i] == r;
    }
  }

  lemma StandsIff(db: Db, evidence: seq<Id>)
    ensures EvidenceStands(db, evidence) <==>
      ((exists x :: x in evidence && x in db.accepted) ==> exists x :: x in evidence && x in db.accepted && db.accepted[x])
  {
    if x :| x in evidence && x in db.accepted && db.accepted[x] {
      var k :| 0 <= k < |evidence| && evidence[k] == x;
    }
    assert forall k :: 0 <= k < |evidence| ==> evidence[k] in evidence;
  }

  method IsEffectiveCurrent(db: Db, id: Id) returns (current: bool)
    ensures current <==> Current(db, id)
  {
    if id !in db.claims || !db.claims[id].live {
      return false;
    }
    if db.evidenceLifecycle {
      var evidence := db.claims[id].evidence;
      var matched, accepted := 0, 0;
      for k := 0 to |evidence|
        invariant 0 <= accepted <= matched
        invariant matched == 0 <==> forall j :: 0 <= j < k ==> evidence[j] !in db.accepted
        invariant accepted > 0 <==> exists j :: 0 <= j < k && evidence[j] in db.accepted && db.accepted[evidence[j]]
      {
        if evidence[k] in db.accepted {
          matched := matched + 1;
          if db.accepted[evidence[k]] {
            accepted := accepted + 1;
          }
        }
      }
      if matched > 0 && accepted == 0 {
        return false;
      }
    }
    current := !Suppressed(db, id);
  }

  function Forgotten(db: Db, c: Id): Db
    requires c in db.claims
  {
    db.(claims := db.claims[c := db.claims[c].(live := false)])
  }

  /** `computeReleasedClaims`, run after the state change. */
  method ComputeReleasedClaims(db: Db, c: Id) returns (released: seq<Id>)
    ensures forall id :: id in released <==> Edge(db.relations, c, id) && Current(db, id)
  {
    var targets := Outbound(db.relations, c);
    released := [];
    for k := 0 to |targets|
      invariant forall id :: id in released <==> id in targets[..k] && Current(db, id)
    {
      var current := IsEffectiveCurrent(db, targets[k]);
      if current {
        released := released + [targets[k]];
      }
    }
  }

  /** Forgetting a claim changes currentness only for itself and its live suppression targets. */
  lemma ForgettingIsLocal(db: Db, c: Id, id: Id)
    requires c in db.claims && id != c && !Edge(db.relations, c, id)
    ensures Current(Forgotten(db, c), id) <==> Current(db, id)
  {
    var after := Forgotten(db, c);
    if Suppressed(db, id) {
      var r :| r in db.relations && LiveSuppression(r) && r.target == id && r.source in db.claims && db.claims[r.source].live;
      assert r.source != c;
      assert Suppressed(after, id);
    }
    if Suppressed(after, id) {
      var r :| r in after.relations && LiveSuppression(r) && r.target == id && r.source in after.claims && after.claims[r.source].live;
      assert Suppressed(db, id);
    }
  }

  /** The released list is exactly the claims that became current by forgetting an active claim. */
  lemma ReleasedAreTheNewlyCurrent(db: Db, c: Id, id: Id)
    requires c in db.claims && db.claims[c].live
    ensures Edge(db.relations, c, id) && Current(Forgotten(db, c), id) <==> !Current(db, id) && Current(Forgotten(db, c), id)
  {
    if Edge(db.relations, c, id) {
      var r :| r in db.relations && LiveSuppression(r) && r.source == c && r.target == id;
      assert Suppressed(db, id);
    } else if id != c {
      ForgettingIsLocal(db, c, id);
    }
  }

  /** Climb from a suppressed claim along active suppressors; in an acyclic graph no claim
      repeats, so the climb ends at an active claim nothing suppresses. */
  lemma {:induction false} TopSuppressor(db: Db, p: seq<Id>) returns (top: Id)
    requires Acyclic(db.relations) && Path(db.relations, p)
    requires forall x :: x in p ==> x in db.claims && db.claims[x].live
    ensures top in db.claims && db.claims[top].live && !Suppressed(db, top)
    ensures Reaches(db.relations, top, p[|p| - 1])
    decreases db.claims.Keys - set x | x in p
  {
    var head := p[0];
    if Suppressed(db, head) {
      var r :| r in db.relations && LiveSuppression(r) && r.target == head && r.source in db.claims && db.claims[r.source].live;
      var up := r.source;
      assert Edge(db.relations, up, head);
      assert up !in p by {
        if up in p {
          var k :| 0 <= k < |p| && p[k] == up;
          SubPath(db.relations, p, 0, k);
        }
      }
      var q := [up] + p;
      assert Path(db.relations, q) by {
        forall k | 0 <= k < |q| - 1 ensures Edge(db.relations, q[k], q[k + 1]) {
          if k > 0 { assert Edge(db.relations, p[k - 1], p[k]); }
        }
      }
      var below, now := set x | x in p, set x | x in q;
      assert now == below + {up};
      assert db.claims.Keys - now < db.claims.Keys - below by { assert up in db.claims.Keys - below; }
      top := TopSuppressor(db, q);
    } else {
      top := head;
      SubPath(db.relations, p, 0, |p| - 1);
    }
  }

  /** No active claim is lost behind a cycle: each is current-by-suppression or reachable from
      an active claim that is not suppressed. */
  lemma EverySuppressedHasActiveTop(db: Db, id: Id)
    requires Acyclic(db.relations) && id in db.claims && db.claims[id].live
    ensures exists top :: top in db.claims && db.claims[top].live && !Suppressed(db, top) && Reaches(db.relations, top, id)
  {
    var top := TopSuppressor(db, [id]);
  }
}
