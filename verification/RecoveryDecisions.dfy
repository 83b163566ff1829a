/** What the recovery scan decides, said without its own case analysis: an operation is finalized
    exactly when what stands under its id is what its intent names, and what becomes of every other
    set, entry, stamp and file. */
module RecoveryDecisions {
  import opened Evidence
  import opened OpsLog
  import HashChain
  import opened Exactness
  import opened Recovery
  import RecoveryScan
  import opened RecoveryProofs

  // ---- The writer's chain --------------------------------------------------------------------

  function ByWriter(all: seq<Observation>, writer: Id): seq<Observation> {
    if all == [] then []
    else ByWriter(all[..|all| - 1], writer) + if all[|all| - 1].integrity.writer == writer then [all[|all| - 1]] else []
  }

  predicate Sorted(s: seq<Observation>) {
    forall i, j :: 0 <= i < j < |s| ==> s[i].integrity.sequence <= s[j].integrity.sequence
  }

  /** Nothing in the sequence comes after this record. */
  predicate AllUpTo(s: seq<Observation>, o: Observation) { forall k :: 0 <= k < |s| ==> s[k].integrity.sequence <= o.integrity.sequence }

  lemma SortedAppend(s: seq<Observation>, o: Observation)
    requires Sorted(s) && AllUpTo(s, o)
    ensures Sorted(s + [o])
  {
  }

  lemma LastIsHighest(s: seq<Observation>, o: Observation)
    requires Sorted(s) && s != [] && s[|s| - 1].integrity.sequence <= o.integrity.sequence
    ensures AllUpTo(s, o)
  {
  }

  lemma {:induction false} InsertionSorts(s: seq<Observation>, o: Observation)
    requires Sorted(s)
    ensures Sorted(InsertBySequence(s, o)) && multiset(InsertBySequence(s, o)) == multiset(s) + multiset{o}
    ensures forall x :: AllUpTo(s, x) && o.integrity.sequence <= x.integrity.sequence ==> AllUpTo(InsertBySequence(s, o), x)
  {
    hide Sorted;
    if s == [] {
      SingleSorted(o);
    } else if s[|s| - 1].integrity.sequence <= o.integrity.sequence {
      LastIsHighest(s, o);
      SortedAppend(s, o);
    } else {
      var n := |s| - 1;
      assert s == s[..n] + [s[n]];
      SortedPrefix(s, n);
      InsertionSorts(s[..n], o);
      SortedAppend(InsertBySequence(s[..n], o), s[n]);
      assert multiset(s) == multiset(s[..n]) + multiset{s[n]};
    }
  }

  lemma SingleSorted(o: Observation)
    ensures Sorted([o])
  {
  }

  lemma SortedPrefix(s: seq<Observation>, n: nat)
    requires Sorted(s) && n == |s| - 1
    ensures Sorted(s[..n]) && AllUpTo(s[..n], s[n])
  {
  }

  /** The chain the audit check sorts is the writer's records, in order of sequence. */
  lemma {:induction false} ChainIsSorted(all: seq<Observation>, writer: Id)
    ensures Sorted(SortedChain(all, writer)) && multiset(SortedChain(all, writer)) == multiset(ByWriter(all, writer))
  {
    if all != [] {
      ChainIsSorted(all[..|all| - 1], writer);
      if all[|all| - 1].integrity.writer == writer {
        InsertionSorts(SortedChain(all[..|all| - 1], writer), all[|all| - 1]);
      }
    }
  }

  /** Two sorted arrangements of records with different sequences are one. */
  lemma {:induction false} SortedIsUnique(s: seq<Observation>, t: seq<Observation>)
    requires Sorted(s) && Increasing(t) && multiset(s) == multiset(t)
    ensures s == t
  {
    hide Sorted, Increasing;
    assert |s| == |multiset(s)| == |multiset(t)| == |t|;
    if s != [] {
      var n := |s| - 1;
      SameLast(s, t);
      WithoutLast(s);
      WithoutLast(t);
      SortedPrefix(s, n);
      IncreasingPrefix(t, n);
      SortedIsUnique(s[..n], t[..n]);
    }
  }

  lemma WithoutLast<T>(s: seq<T>)
    requires s != []
    ensures multiset(s[..|s| - 1]) == multiset(s) - multiset{s[|s| - 1]} && s == s[..|s| - 1] + [s[|s| - 1]]
  {
    assert s == s[..|s| - 1] + [s[|s| - 1]];
  }

  lemma IncreasingPrefix(t: seq<Observation>, n: nat)
    requires Increasing(t) && n <= |t|
    ensures Increasing(t[..n])
  {
  }

  lemma SameLast(s: seq<Observation>, t: seq<Observation>)
    requires Sorted(s) && Increasing(t) && multiset(s) == multiset(t) && |s| == |t| && s != []
    ensures s[|s| - 1] == t[|t| - 1]
  {
    var n := |s| - 1;
    assert s[n] in multiset(t) && t[n] in multiset(s);
    var i :| 0 <= i < |t| && t[i] == s[n];
    var j :| 0 <= j < |s| && s[j] == t[n];
    assert s[j].integrity.sequence <= s[n].integrity.sequence;
  }

  /** The record stands in its writer's chain, and everything up to it is a valid chain. */
  ghost predicate VouchedBy(h: Hashes, o: Observation, chain: seq<Observation>) {
    exists k :: 0 <= k < |chain| && chain[k].id == o.id && (forall j :: 0 <= j < k ==> chain[j].id != o.id)
      && HashChain.ValidChain(h.digest, chain[..k + 1])
  }

  /** For every arrangement of the writer's records by rising sequence the check is that one. */
  lemma VouchesIff(h: Hashes, o: Observation, all: seq<Observation>, chain: seq<Observation>)
    requires Increasing(chain) && multiset(chain) == multiset(ByWriter(all, o.integrity.writer))
    ensures ChainVouches(h, o, all) <==> VouchedBy(h, o, chain)
  {
    hide HashChain.ValidChain, SortedChain, ByWriter, Sorted;
    ChainIsSorted(all, o.integrity.writer);
    SortedIsUnique(SortedChain(all, o.integrity.writer), chain);
    FirstOfId(chain, o.id);
  }

  lemma FirstOfId(s: seq<Observation>, id: Id)
    ensures forall k :: 0 <= k < |s| && s[k].id == id && (forall j :: 0 <= j < k ==> s[j].id != id) ==> k == IndexOf(s, id)
  {
  }

  // ---- What stands under the id ------------------------------------------------------------------

  /** What the intent says beyond identity, hash, actor and operation of the artifacts: the status of the
      observation, the owner of the released version, the scope and reason of a scope audit, and a
      chain that vouches for every audit. */
  predicate Fine(h: Hashes, w: World, i: Intent) {
    var l0 := L0Of(w.observations, i.common.operationId);
    var l1 := L1Of(w.versions, i.common.operationId);
    match i
    case ObserveIntent(_, _, id, status, sequence) =>
      forall o :: o in l0 ==> o.id == id && o.status == status && o.integrity.sequence == sequence && ChainVouches(h, o, w.observations)
    case ReviseIntent(c, t, _, _, _, owner, _, _) =>
      forall v :: v in l1 && MarkOf(h, v) == ExpectedMark(c, t, LiveRecord) ==> v.owner == owner
    case ForgetIntent(_, _, _, _, _) => forall o :: o in l0 ==> ChainVouches(h, o, w.observations)
    case ForgetScopeIntent(_, _, scope, reason, _, _, _) =>
      forall o :: o in l0 ==>
        && ChainVouches(h, o, w.observations) && o.body.reason == Some(reason)
        && (o.body.scope == Some(scope) || (o.body.scope == None && o.body.nestedScope == Some(scope)))
    case _ => true
  }

  /** The set is what the intent names, each artifact once. */
  predicate Whole(h: Hashes, w: World, i: Intent) { Scanned(h, w, i) == ExpectedSet(i) && Fine(h, w, i) }

  /** Some of it is there, and nothing else. */
  predicate Part(h: Hashes, w: World, i: Intent) { Scanned(h, w, i) <= ExpectedSet(i) && Fine(h, w, i) }

  lemma {:induction false} GroupCounts(all: seq<Observation>, id: Id, o: Observation)
    ensures multiset(L0Of(all, id))[o] == if o.operationId == Some(id) then multiset(all)[o] else 0
  {
    if all != [] {
      assert all == [all[0]] + all[1..];
      GroupCounts(all[1..], id, o);
    }
  }

  lemma {:induction false} VersionGroupCounts(all: seq<ClaimVersion>, id: Id, v: ClaimVersion)
    ensures multiset(L1Of(all, id))[v] == if v.operationId == Some(id) then multiset(all)[v] else 0
  {
    if all != [] {
      assert all == [all[0]] + all[1..];
      VersionGroupCounts(all[1..], id, v);
    }
  }

  lemma {:induction false} PageGroupCounts(all: seq<Page>, id: Id, p: Page)
    ensures multiset(PagesOf(all, id))[p] == if p.operationId == Some(id) then multiset(all)[p] else 0
  {
    if all != [] {
      assert all == [all[0]] + all[1..];
      PageGroupCounts(all[1..], id, p);
    }
  }

  // ---- Multisets of artifacts ---------------------------------------------------------------------

  predicate Audits(m: multiset<Artifact>) { forall a :: a in m ==> a.ObservationArtifact? }
  predicate Versions(m: multiset<Artifact>) { forall a :: a in m ==> a.VersionArtifact? }
  predicate PageSet(m: multiset<Artifact>) { forall a :: a in m ==> a.PageArtifact? }

  lemma SeenKinds(h: Hashes, l0: seq<Observation>, marks: seq<VersionMark>, ps: seq<Page>)
    ensures Audits(multiset(SeenL0(h, l0))) && Versions(multiset(SeenL1(marks))) && PageSet(multiset(SeenPages(ps)))
  {
    forall a | a in multiset(SeenL0(h, l0)) ensures a.ObservationArtifact? { assert a in SeenL0(h, l0); }
    forall a | a in multiset(SeenL1(marks)) ensures a.VersionArtifact? { OnlyVersions(marks, a); }
    forall a | a in multiset(SeenPages(ps)) ensures a.PageArtifact? { assert a in SeenPages(ps); }
  }

  /** Parts of different kinds compare one by one. */
  lemma KindsApart(a: multiset<Artifact>, b: multiset<Artifact>, a': multiset<Artifact>, b': multiset<Artifact>)
    requires (Audits(a) && Audits(a') && Versions(b) && Versions(b')) || (Versions(a) && Versions(a') && PageSet(b) && PageSet(b'))
    ensures a + b <= a' + b' <==> a <= a' && b <= b'
    ensures a + b == a' + b' <==> a == a' && b == b'
  {
    if a + b <= a' + b' {
      forall x ensures a[x] <= a'[x] && b[x] <= b'[x] { assert (a + b)[x] <= (a' + b')[x]; }
    }
    if a + b == a' + b' {
      forall x ensures a[x] == a'[x] && b[x] == b'[x] { assert (a + b)[x] == (a' + b')[x]; }
    }
  }

  predicate AuditFields(h: Hashes, c: Common, a: Audit, o: Observation) {
    && o.id == a.observationId && o.operationId == Some(c.operationId) && o.actorId == Some(c.actorId)
    && o.integrity.hash == a.observationHash && o.integrity.sequence == a.sequence && ComputeHash(h.digest, o) == a.observationHash
  }

  lemma SingletonIff<T>(s: seq<T>, x: T)
    ensures multiset(s) == multiset{x} <==> s == [x]
    ensures multiset(s) <= multiset{x} <==> s == [] || s == [x]
  {
    if multiset(s) <= multiset{x} {
      var left := multiset{x} - multiset(s);
      assert multiset{x} == multiset(s) + left;
      assert |multiset(s)| + |left| == 1;
      if |s| == 1 { assert s[0] in multiset(s); assert s == [x]; }
    }
  }

  lemma AuditIff(h: Hashes, c: Common, a: Audit, s: seq<Observation>)
    ensures multiset(SeenL0(h, s)) == multiset{ExpectedAudit(c, a)} <==> |s| == 1 && AuditFields(h, c, a, s[0])
    ensures multiset(SeenL0(h, s)) <= multiset{ExpectedAudit(c, a)} <==> s == [] || (|s| == 1 && AuditFields(h, c, a, s[0]))
    ensures multiset(SeenL0(h, s)) == multiset{} <==> s == []
  {
    SingletonIff(SeenL0(h, s), ExpectedAudit(c, a));
    if |s| == 1 {
      assert SeenL0(h, s) == [SeenL0(h, s)[0]];
      assert SeenL0(h, s) == [ExpectedAudit(c, a)] <==> SeenL0(h, s)[0] == ExpectedAudit(c, a);
    }
    if s != [] { assert SeenL0(h, s)[0] in multiset(SeenL0(h, s)); }
  }

  lemma VersionIff(h: Hashes, c: Common, e: Expected, state: LifeState, s: seq<ClaimVersion>)
    ensures var m, x := multiset(SeenL1(Marks(h, s))), VersionArtifact(ExpectedMark(c, e, state));
      && (m == multiset{x} <==> |s| == 1 && IsExactVersion(h, c, e, state, s[0]))
      && (m <= multiset{x} <==> s == [] || (|s| == 1 && IsExactVersion(h, c, e, state, s[0])))
      && (m == multiset{} <==> s == [])
  {
    var r, x := SeenL1(Marks(h, s)), VersionArtifact(ExpectedMark(c, e, state));
    SingletonIff(r, x);
    if |s| == 1 {
      assert r == [r[0]];
      assert r == [x] <==> r[0] == x;
    }
    if s != [] { assert r[0] in multiset(r); }
  }

  lemma PageIff(i: Intent, ps: seq<Page>)
    requires i.EndorseIntent?
    ensures var m, x := multiset(SeenPages(ps)), PageArtifact(Some(i.pageId), i.pageHash);
      && (m == multiset{x} <==> IsExactPage(i, ps)) && (m <= multiset{x} <==> ps == [] || IsExactPage(i, ps)) && (m == multiset{} <==> ps == [])
  {
    var r, x := SeenPages(ps), PageArtifact(Some(i.pageId), i.pageHash);
    SingletonIff(r, x);
    if |ps| == 1 {
      assert r == [r[0]];
      assert r == [x] <==> r[0] == x;
    }
    if ps != [] { assert r[0] in multiset(r); }
  }

  /** Marks and the artifacts they stand for compare alike. */
  lemma LiftedIff(s: seq<VersionMark>, t: seq<VersionMark>)
    ensures multiset(SeenL1(s)) == multiset(SeenL1(t)) <==> multiset(s) == multiset(t)
    ensures multiset(SeenL1(s)) <= multiset(SeenL1(t)) <==> multiset(s) <= multiset(t)
  {
    forall x ensures multiset(SeenL1(s))[VersionArtifact(x)] == multiset(s)[x] && multiset(SeenL1(t))[VersionArtifact(x)] == multiset(t)[x] {
      LiftedCount(s, x);
      LiftedCount(t, x);
    }
    if multiset(SeenL1(s)) <= multiset(SeenL1(t)) {
      forall x ensures multiset(s)[x] <= multiset(t)[x] { assert multiset(SeenL1(s))[VersionArtifact(x)] <= multiset(SeenL1(t))[VersionArtifact(x)]; }
    }
    if multiset(SeenL1(s)) == multiset(SeenL1(t)) {
      forall x ensures multiset(s)[x] == multiset(t)[x] { assert multiset(SeenL1(s))[VersionArtifact(x)] == multiset(SeenL1(t))[VersionArtifact(x)]; }
      assert multiset(s) == multiset(t);
    }
    if multiset(s) <= multiset(t) {
      forall a ensures multiset(SeenL1(s))[a] <= multiset(SeenL1(t))[a] {
        if a in multiset(SeenL1(s)) { OnlyVersions(s, a); assert a == VersionArtifact(a.mark); }
      }
    }
    if multiset(s) == multiset(t) { LiftEqual(s, t); }
  }

  // ---- Kind by kind ----------------------------------------------------------------------------------

  /** What becomes of an operation that no entry records and no epoch keeps out. */
  function Disposition(h: Hashes, w: World, i: Intent): Verdict {
    if Whole(h, w, i) then Finalize
    else if Scanned(h, w, i) == multiset{} then (if i.ReflectIntent? then Abort else Wait)
    else if (i.ForgetIntent? || i.EndorseIntent?) && Part(h, w, i) then Wait
    else Review
  }

  lemma ObserveIs(h: Hashes, w: World, i: Intent)
    requires i.ObserveIntent?
    ensures Uncommitted(h, w, i) == Disposition(h, w, i) && CommittedArtifactsExact(h, w, i)
  {
    hide ChainVouches;
    var l0 := L0Of(w.observations, i.common.operationId);
    AuditIff(h, i.common, i.observation, l0);
    if |l0| == 1 { assert l0[0] in l0; }
  }

  lemma ScopeIs(h: Hashes, w: World, i: Intent)
    requires i.ForgetScopeIntent?
    ensures Uncommitted(h, w, i) == Disposition(h, w, i)
    ensures Whole(h, w, i) <==> CommittedArtifactsExact(h, w, i)
  {
    hide ChainVouches;
    var l0 := L0Of(w.observations, i.common.operationId);
    AuditIff(h, i.common, i.audit, l0);
    if |l0| == 1 { assert l0[0] in l0; }
  }

  /** The forgotten version, as far as the intent names one. */
  predicate ForgottenVersion(h: Hashes, i: Intent, l1: seq<ClaimVersion>)
    requires i.ForgetIntent?
  {
    i.forgotten.Some? && |l1| == 1 && IsExactVersion(h, i.common, i.forgotten.value, ForgottenRecord, l1[0])
  }

  lemma ForgetScanned(h: Hashes, w: World, i: Intent)
    requires i.ForgetIntent?
    ensures var l0, l1 := L0Of(w.observations, i.common.operationId), L1Of(w.versions, i.common.operationId);
      var audit := |l0| == 1 && AuditFields(h, i.common, i.audit, l0[0]);
      && (Scanned(h, w, i) == ExpectedSet(i) <==> audit && if i.forgotten.Some? then ForgottenVersion(h, i, l1) else l1 == [])
      && (Scanned(h, w, i) <= ExpectedSet(i) <==> (l0 == [] || audit) && (l1 == [] || ForgottenVersion(h, i, l1)))
      && (Scanned(h, w, i) == multiset{} <==> l0 == [] && l1 == [])
  {
    hide IsExactVersion, AuditFields, SeenL0, SeenL1, Marks, ExpectedAudit, ExpectedMark;
    var l0, l1 := L0Of(w.observations, i.common.operationId), L1Of(w.versions, i.common.operationId);
    var a, b := multiset(SeenL0(h, l0)), multiset(SeenL1(Marks(h, l1)));
    var x := multiset{ExpectedAudit(i.common, i.audit)};
    var y := if i.forgotten.Some? then multiset{VersionArtifact(ExpectedMark(i.common, i.forgotten.value, ForgottenRecord))} else multiset{};
    AuditIff(h, i.common, i.audit, l0);
    ForgottenIff(h, i, l1);
    SeenKinds(h, l0, Marks(h, l1), []);
    AuditKind(i.common, i.audit);
    KindsApart(a, b, x, y);
    KindsApart(a, b, multiset{}, multiset{});
  }

  lemma AuditKind(c: Common, a: Audit)
    ensures ExpectedAudit(c, a).ObservationArtifact?
  {
  }

  lemma ForgetIs(h: Hashes, w: World, i: Intent)
    requires i.ForgetIntent?
    ensures Uncommitted(h, w, i) == Disposition(h, w, i)
    ensures Whole(h, w, i) <==> CommittedArtifactsExact(h, w, i)
  {
    hide ChainVouches, IsExactVersion, AuditFields, Scanned, ExpectedSet, IsExactAudit, L0Of, L1Of, PagesOf;
    var l0 := L0Of(w.observations, i.common.operationId);
    ForgetScanned(h, w, i);
    ForgetParts(h, w, i);
    assert |l0| == 1 ==> (Fine(h, w, i) <==> ChainVouches(h, l0[0], w.observations)) by { if |l0| == 1 { assert l0[0] in l0; } }
    assert l0 == [] ==> Fine(h, w, i);
  }

  lemma ForgottenIff(h: Hashes, i: Intent, s: seq<ClaimVersion>)
    requires i.ForgetIntent?
    ensures var m := multiset(SeenL1(Marks(h, s)));
      var y := if i.forgotten.Some? then multiset{VersionArtifact(ExpectedMark(i.common, i.forgotten.value, ForgottenRecord))} else multiset{};
      && (m == multiset{} <==> s == [])
      && (m == y <==> if i.forgotten.Some? then |s| == 1 && IsExactVersion(h, i.common, i.forgotten.value, ForgottenRecord, s[0]) else s == [])
      && (m <= y <==> s == [] || (i.forgotten.Some? && |s| == 1 && IsExactVersion(h, i.common, i.forgotten.value, ForgottenRecord, s[0])))
  {
    hide IsExactVersion;
    var r := SeenL1(Marks(h, s));
    if s != [] { assert r[0] in multiset(r); }
    if i.forgotten.Some? { VersionIff(h, i.common, i.forgotten.value, ForgottenRecord, s); }
  }

  /** The audit check, split into its fields and its chain. */
  lemma ForgetParts(h: Hashes, w: World, i: Intent)
    requires i.ForgetIntent?
    ensures var l0 := L0Of(w.observations, i.common.operationId);
      ForgetAuditExact(h, w, i) <==> |l0| == 1 && AuditFields(h, i.common, i.audit, l0[0]) && ChainVouches(h, l0[0], w.observations)
  {
    hide ChainVouches;
  }

  lemma SingleVersionIs(h: Hashes, w: World, i: Intent)
    requires i.ReviveIntent? || i.ReflectIntent?
    ensures Uncommitted(h, w, i) == Disposition(h, w, i)
    ensures Whole(h, w, i) <==> CommittedArtifactsExact(h, w, i)
  {
    hide IsExactVersion;
    VersionIff(h, i.common, i.target, LiveRecord, L1Of(w.versions, i.common.operationId));
  }

  lemma ReviseIs(h: Hashes, w: World, i: Intent)
    requires i.ReviseIntent? && NamesEachOnce(i)
    ensures Uncommitted(h, w, i) == Disposition(h, w, i)
    ensures Whole(h, w, i) <==> CommittedArtifactsExact(h, w, i)
  {
    hide IsExactVersion, IsExactRevise, MarkOf, ExpectedMark;
    var l1 := L1Of(w.versions, i.common.operationId);
    LiftedIff(Marks(h, l1), ExpectedMarks(i.common, ReviseSet(i)));
    if IsExactRevise(h, i, l1) {
      ExactReviseIffDistinct(h, i, l1);
      ReleasedOwner(h, i, l1);
    }
    if Whole(h, w, i) { CompleteReviseIsExact(h, i, l1); }
    if l1 != [] { assert SeenL1(Marks(h, l1))[0] in multiset(SeenL1(Marks(h, l1))); }
  }

  lemma ReleasedOwner(h: Hashes, i: Intent, vs: seq<ClaimVersion>)
    requires i.ReviseIntent? && IsExactRevise(h, i, vs) && NamesEachOnce(i)
    ensures forall v :: v in vs && MarkOf(h, v) == ExpectedMark(i.common, i.target, LiveRecord) ==> v.owner == i.resultOwner
  {
    ExactReviseIffDistinct(h, i, vs);
    CountIsMultiplicity(h, i.common, i.target, vs);
    var want := ExpectedMarks(i.common, ReviseSet(i));
    MarksDistinct(i.common, ReviseSet(i));
    DistinctCounts(want, ExpectedMark(i.common, i.target, LiveRecord));
    assert CountExact(h, i.common, i.target, vs) <= 1;
    ReleaseCountBound(h, i, vs);
  }

  // ---- Half-written endorsements -------------------------------------------------------------------------

  lemma {:induction false} PresentIs(es: seq<Expected>, vs: seq<ClaimVersion>, e: Expected)
    ensures e in PresentClaims(es, vs) <==> e in es && exists v :: v in vs && v.claimId == e.claimId && v.version == e.version
  {
    if es != [] {
      assert es == es[..|es| - 1] + [es[|es| - 1]];
      PresentIs(es[..|es| - 1], vs, e);
    }
  }

  lemma {:induction false} PresentDistinct(es: seq<Expected>, vs: seq<ClaimVersion>)
    requires DistinctIdentities(es)
    ensures DistinctIdentities(PresentClaims(es, vs))
  {
    if es != [] {
      var n := |es| - 1;
      PresentDistinct(es[..n], vs);
      forall e | e in PresentClaims(es[..n], vs) ensures e.claimId != es[n].claimId || e.version != es[n].version {
        PresentIs(es[..n], vs, e);
        var k :| 0 <= k < n && es[..n][k] == e;
      }
    }
  }

  lemma MarksOfIdentities(c: Common, es: seq<Expected>, x: VersionMark)
    requires DistinctIdentities(es)
    ensures multiset(ExpectedMarks(c, es))[x] == if x in ExpectedMarks(c, es) then 1 else 0
    ensures x in ExpectedMarks(c, es) <==> exists e :: e in es && x == ExpectedMark(c, e, LiveRecord)
  {
    assert Distinct(es);
    MarksDistinct(c, es);
    DistinctCounts(ExpectedMarks(c, es), x);
    if x in ExpectedMarks(c, es) {
      var k :| 0 <= k < |es| && ExpectedMarks(c, es)[k] == x;
      assert es[k] in es;
    }
    if e :| e in es && x == ExpectedMark(c, e, LiveRecord) {
      var k :| 0 <= k < |es| && es[k] == e;
      assert ExpectedMarks(c, es)[k] == x;
    }
  }

  /** Under the marks of the expected claims, what is there is what is expected of the claims that are
      there at all. */
  lemma PresentMarks(h: Hashes, c: Common, es: seq<Expected>, vs: seq<ClaimVersion>, x: VersionMark)
    requires DistinctIdentities(es) && multiset(Marks(h, vs)) <= multiset(ExpectedMarks(c, es))
    ensures x in Marks(h, vs) <==> x in ExpectedMarks(c, PresentClaims(es, vs))
  {
    hide PresentClaims;
    var present := PresentClaims(es, vs);
    PresentDistinct(es, vs);
    MarksOfIdentities(c, es, x);
    MarksOfIdentities(c, present, x);
    if x in Marks(h, vs) {
      var n :| 0 <= n < |vs| && Marks(h, vs)[n] == x;
      assert x in multiset(Marks(h, vs)) && x in multiset(ExpectedMarks(c, es));
      var e :| e in es && x == ExpectedMark(c, e, LiveRecord);
      assert vs[n] in vs && vs[n].claimId == e.claimId && vs[n].version == e.version;
      PresentIs(es, vs, e);
    }
    if x in ExpectedMarks(c, present) {
      var e :| e in present && x == ExpectedMark(c, e, LiveRecord);
      PresentIs(es, vs, e);
      var v :| v in vs && v.claimId == e.claimId && v.version == e.version;
      var n :| 0 <= n < |vs| && vs[n] == v;
      var y := Marks(h, vs)[n];
      assert y in multiset(Marks(h, vs)) && y in multiset(ExpectedMarks(c, es));
      MarksOfIdentities(c, es, y);
      var d :| d in es && y == ExpectedMark(c, d, LiveRecord);
      SameIdentityIsSame(es, d, e);
    }
  }

  lemma SameIdentityIsSame(es: seq<Expected>, d: Expected, e: Expected)
    requires DistinctIdentities(es) && d in es && e in es && d.claimId == e.claimId && d.version == e.version
    ensures d == e
  {
    var i :| 0 <= i < |es| && es[i] == d;
    var j :| 0 <= j < |es| && es[j] == e;
  }

  lemma PresentIff(h: Hashes, c: Common, es: seq<Expected>, vs: seq<ClaimVersion>)
    requires DistinctIdentities(es)
    ensures IsExactEndorseClaims(h, c, PresentClaims(es, vs), vs) <==> multiset(Marks(h, vs)) <= multiset(ExpectedMarks(c, es))
  {
    hide IsExactEndorseClaims, PresentClaims, Marks, ExpectedMarks, MarkOf, ExpectedMark;
    var present := PresentClaims(es, vs);
    var have, want, all := multiset(Marks(h, vs)), multiset(ExpectedMarks(c, present)), multiset(ExpectedMarks(c, es));
    PresentDistinct(es, vs);
    ExactEndorseIffComplete(h, c, present, vs);
    if have == want {
      forall x ensures have[x] <= all[x] {
        MarksOfIdentities(c, present, x);
        MarksOfIdentities(c, es, x);
        if x in ExpectedMarks(c, present) {
          var e :| e in present && x == ExpectedMark(c, e, LiveRecord);
          PresentIs(es, vs, e);
        }
      }
    }
    if have <= all {
      forall x ensures have[x] == want[x] {
        MarksOfIdentities(c, present, x);
        MarksOfIdentities(c, es, x);
        PresentMarks(h, c, es, vs, x);
        assert have[x] <= all[x];
        assert x in have <==> x in Marks(h, vs);
      }
      assert have == want;
    }
  }

  lemma EndorseScanned(h: Hashes, w: World, i: Intent)
    requires i.EndorseIntent? && NamesEachOnce(i)
    ensures var l1, pages := L1Of(w.versions, i.common.operationId), PagesOf(w.pages, i.common.operationId);
      && (Scanned(h, w, i) == ExpectedSet(i) <==> IsExactEndorseClaims(h, i.common, i.claims, l1) && IsExactPage(i, pages))
      && (Scanned(h, w, i) <= ExpectedSet(i) <==>
            IsExactEndorseClaims(h, i.common, PresentClaims(i.claims, l1), l1) && (pages == [] || IsExactPage(i, pages)))
      && (Scanned(h, w, i) == multiset{} <==> l1 == [] && pages == [])
      && (l1 == [] ==> IsExactEndorseClaims(h, i.common, PresentClaims(i.claims, l1), l1))
  {
    hide IsExactEndorseClaims, PresentClaims, IsExactPage, SeenL1, SeenPages, Marks, ExpectedMarks;
    var l1, pages := L1Of(w.versions, i.common.operationId), PagesOf(w.pages, i.common.operationId);
    var a, b := multiset(SeenL1(Marks(h, l1))), multiset(SeenPages(pages));
    var x, y := multiset(SeenL1(ExpectedMarks(i.common, i.claims))), multiset{PageArtifact(Some(i.pageId), i.pageHash)};
    LiftedIff(Marks(h, l1), ExpectedMarks(i.common, i.claims));
    ExactEndorseIffComplete(h, i.common, i.claims, l1);
    PresentIff(h, i.common, i.claims, l1);
    PageIff(i, pages);
    SeenKinds(h, [], Marks(h, l1), pages);
    SeenKinds(h, [], ExpectedMarks(i.common, i.claims), pages);
    KindsApart(a, b, x, y);
    KindsApart(a, b, multiset{}, multiset{});
    if l1 != [] { assert SeenL1(Marks(h, l1))[0] in a; } else { assert a == multiset{} && multiset(Marks(h, l1)) == multiset{}; }
  }

  lemma EndorseIs(h: Hashes, w: World, i: Intent)
    requires i.EndorseIntent? && NamesEachOnce(i)
    ensures Uncommitted(h, w, i) == Disposition(h, w, i)
    ensures Whole(h, w, i) <==> CommittedArtifactsExact(h, w, i)
  {
    hide IsExactEndorseClaims, PresentClaims, IsExactPage, DistinctIdentities, Scanned, ExpectedSet, L0Of, L1Of, PagesOf;
    EndorseScanned(h, w, i);
  }

  /** For all seven kinds: with no entry in the log and no epoch in the way, the operation is finalized
      exactly when what stands under its id is the set its intent names; an empty set waits, or aborts
      a prepared REFLECT claim; a half-written FORGET or ENDORSE waits; anything else goes to review. */
  lemma UncommittedIs(h: Hashes, w: World, i: Intent)
    requires NamesEachOnce(i)
    ensures Uncommitted(h, w, i) == Disposition(h, w, i)
    ensures CommittedArtifactsExact(h, w, i) <==> i.ObserveIntent? || Whole(h, w, i)
  {
    hide Uncommitted, Disposition, CommittedArtifactsExact, Whole;
    match i {
      case ObserveIntent(_, _, _, _, _) => ObserveIs(h, w, i);
      case ReviseIntent(_, _, _, _, _, _, _, _) => ReviseIs(h, w, i);
      case ForgetIntent(_, _, _, _, _) => ForgetIs(h, w, i);
      case ForgetScopeIntent(_, _, _, _, _, _, _) => ScopeIs(h, w, i);
      case ReviveIntent(_, _, _, _) => SingleVersionIs(h, w, i);
      case EndorseIntent(_, _, _, _, _, _, _) => EndorseIs(h, w, i);
      case ReflectIntent(_, _, _, _) => SingleVersionIs(h, w, i);
    }
  }

  // ---- Entries, epochs, verdicts ---------------------------------------------------------------------------

  // ---- Which intents are read ------------------------------------------------------------------------

  /** `op_` and a ULID: 26 digits or capital letters other than I, L, O and U. */
  predicate NamesOperation(s: Id) {
    && |s| == 29 && s[0] == 'o' && s[1] == 'p' && s[2] == '_'
    && forall i :: 3 <= i < 29 ==>
         '0' <= s[i] <= '9' || ('A' <= s[i] <= 'Z' && s[i] != 'I' && s[i] != 'L' && s[i] != 'O' && s[i] != 'U')
  }

  predicate HexDigest(s: Hash) {
    |s| == 64 && forall i :: 0 <= i < 64 ==> '0' <= s[i] <= '9' || 'a' <= s[i] <= 'f'
  }

  lemma CrockfordParts()
    ensures CROCKFORD == "0123456789" + "ABCDEFGH" + "JK" + "MN" + "PQRST" + "VWXYZ"
  {
  }

  lemma DigitRun(c: char)
    ensures c in "0123456789" <==> '0' <= c <= '9'
  {
    if '0' <= c <= '9' { assert "0123456789"[c as int - 48] == c; }
  }

  lemma EarlyLetterRuns(c: char)
    ensures c in "ABCDEFGH" <==> 'A' <= c <= 'H'
    ensures c in "JK" <==> 'J' <= c <= 'K'
    ensures c in "MN" <==> 'M' <= c <= 'N'
  {
    if 'A' <= c <= 'H' { assert "ABCDEFGH"[c as int - 65] == c; }
    if 'J' <= c <= 'K' { assert "JK"[c as int - 74] == c; }
    if 'M' <= c <= 'N' { assert "MN"[c as int - 77] == c; }
  }

  lemma LateLetterRuns(c: char)
    ensures c in "PQRST" <==> 'P' <= c <= 'T'
    ensures c in "VWXYZ" <==> 'V' <= c <= 'Z'
  {
    if 'P' <= c <= 'T' { assert "PQRST"[c as int - 80] == c; }
    if 'V' <= c <= 'Z' { assert "VWXYZ"[c as int - 86] == c; }
  }

  lemma InOneOf(s: string, c: char, a: string, b: string, d: string, e: string, f: string, g: string)
    requires s == a + b + d + e + f + g
    ensures c in s <==> c in a || c in b || c in d || c in e || c in f || c in g
  {
  }

  lemma InCrockford(c: char)
    ensures c in CROCKFORD <==> '0' <= c <= '9' || ('A' <= c <= 'Z' && c != 'I' && c != 'L' && c != 'O' && c != 'U')
  {
    DigitRun(c);
    EarlyLetterRuns(c);
    LateLetterRuns(c);
    InOneOf(CROCKFORD, c, "0123456789", "ABCDEFGH", "JK", "MN", "PQRST", "VWXYZ") by { CrockfordParts(); }
  }

  lemma InHex(c: char)
    ensures c in HEX <==> '0' <= c <= '9' || 'a' <= c <= 'f'
  {
    var n := c as int;
    if '0' <= c <= '9' { assert HEX[n - 48] == c; } else if 'a' <= c <= 'f' { assert HEX[n - 87] == c; }
  }

  lemma FormatsAre(s: string)
    ensures ValidOperationId(s) <==> NamesOperation(s)
    ensures ValidSha(s) <==> HexDigest(s)
  {
    forall c ensures c in CROCKFORD <==> '0' <= c <= '9' || ('A' <= c <= 'Z' && c != 'I' && c != 'L' && c != 'O' && c != 'U') { InCrockford(c); }
    forall c ensures c in HEX <==> '0' <= c <= '9' || 'a' <= c <= 'f' { InHex(c); }
    if |s| >= 3 { assert s[..3] == "op_" <==> s[0] == 'o' && s[1] == 'p' && s[2] == '_'; }
  }

  /** Which files are read: those that hold an intent under its own operation id, with hashes that are
      hashes, a stamp that is one, and a result that says of its kind what the intent expects. */
  lemma ReadableIff(w: World, id: Id)
    requires id in w.files && w.files[id].Some?
    ensures var i := w.files[id].value;
      var sound :=
        match i
        case ObserveIntent(_, o, r, _, n) => r == o.observationId && n == o.sequence
        case ReviseIntent(_, t, repick, r, v, _, survivor, demoted) =>
          && HexDigest(t.recordHash) && r == t.claimId && v == t.version
          && (repick.None? <==> demoted.None?) && (repick.Some? ==> survivor.None? && |repick.value| == |demoted.value|)
          && (repick.Some? ==> forall k :: 0 <= k < |repick.value| ==>
                HexDigest(repick.value[k].recordHash) && demoted.value[k] == repick.value[k].claimId)
        case ForgetIntent(_, a, claim, isClaim, r) =>
          r == a.observationId && isClaim == claim.Some? && (claim.Some? ==> HexDigest(claim.value.recordHash))
        case ForgetScopeIntent(_, a, scope, reason, rs, rr, r) =>
          r == a.observationId && rs == scope && rr == reason && (reason == "erasure" || reason == "offboarding")
        case ReviveIntent(_, t, r, v) => HexDigest(t.recordHash) && r == t.claimId && v == t.version
        case EndorseIntent(c, page, hash, claims, rp, n, at) =>
          && HexDigest(hash) && rp == page && n == |claims| && at == c.preparedAt
          && forall k :: 0 <= k < |claims| ==> HexDigest(claims[k].recordHash)
        case ReflectIntent(_, t, r, v) => HexDigest(t.recordHash) && r == t.claimId && v == t.version;
      ReadIntent(w, id) ==
        if NamesOperation(id) && i.common.operationId == id && HexDigest(i.common.payloadHash)
           && (i.common.stamp.Some? ==> i.common.stamp.value.epoch >= 1 && i.common.stamp.value.writer != "")
           && sound
        then Some(i) else None
  {
    hide ValidOperationId, ValidSha, NamesOperation, HexDigest;
    forall s ensures (ValidOperationId(s) <==> NamesOperation(s)) && (ValidSha(s) <==> HexDigest(s)) { FormatsAre(s); }
  }

  /** The signal recovery writes: whose operation, when it was prepared, under which stamp, that it was
      recovered, what the intent expected of its kind's artifacts, and nothing of another kind. */
  lemma SignalIs(i: Intent)
    requires WellFormed(i)
    ensures var e, d := RecoveredEntry(i), RecoveredEntry(i).details;
      var versioned := i.ReviseIntent? || i.ReviveIntent? || i.ReflectIntent?;
      var repicked := i.ReviseIntent? && i.repick.Some?;
      && e.operationId == i.common.operationId && e.actorId == i.common.actorId && e.timestamp == i.common.preparedAt
      && e.op == (match i
                  case ObserveIntent(_, _, _, _, _) => OpObserve
                  case ReviseIntent(_, _, _, _, _, _, _, _) => OpRevise
                  case ForgetIntent(_, _, _, _, _) => OpForget
                  case ForgetScopeIntent(_, _, _, _, _, _, _) => OpForgetScope
                  case ReviveIntent(_, _, _, _) => OpRevive
                  case EndorseIntent(_, _, _, _, _, _, _) => OpEndorse
                  case ReflectIntent(_, _, _, _) => OpReflect)
      && d.payloadHash == Some(i.common.payloadHash) && d.recovered && d.fence == i.common.stamp
      && d.observationId == (if i.ObserveIntent? then Some(i.observation.observationId) else None)
      && d.auditObservationId == (if i.ForgetIntent? || i.ForgetScopeIntent? then Some(i.audit.observationId) else None)
      && d.claimRecordHash == (if i.ForgetIntent? && i.forgotten.Some? then Some(i.forgotten.value.recordHash) else None)
      && d.claimId == (if versioned then Some(i.target.claimId) else None)
      && d.recordHash == (if versioned then Some(i.target.recordHash) else None)
      && d.newVersion == (if versioned && !i.ReflectIntent? then Some(i.target.version) else None)
      && d.pageId == (if i.EndorseIntent? then Some(i.pageId) else None)
      && d.pageHash == (if i.EndorseIntent? then Some(i.pageHash) else None)
      && d.repickSurvivor == (if repicked then Some(true) else None)
      && d.demoted.Some? == repicked
      && (repicked ==>
            && |d.demoted.value| == |i.repick.value|
            && forall k :: 0 <= k < |i.repick.value| ==> d.demoted.value[k] == i.repick.value[k].claimId)
  {
    hide ValidCommon, ValidSha;
  }

  /** The entry says what the signal of this intent says, in everything its kind is recognised by. */
  predicate SameSignal(i: Intent, e: Entry) {
    var r := RecoveredEntry(i);
    var d, x := e.details, r.details;
    && e.op == r.op && e.actorId == r.actorId && d.payloadHash == x.payloadHash
    && (i.ObserveIntent? ==> d.observationId == x.observationId)
    && (i.ReviseIntent? || i.ReviveIntent? || i.ReflectIntent? ==> d.claimId == x.claimId && d.recordHash == x.recordHash)
    && (i.ReviseIntent? || i.ReviveIntent? ==> d.newVersion == x.newVersion)
    && (i.ReviseIntent? && i.resultDemoted.Some? ==> d.repickSurvivor == x.repickSurvivor && d.demoted == x.demoted)
    && (i.ForgetIntent? || i.ForgetScopeIntent? ==> d.auditObservationId == x.auditObservationId)
    && (i.ForgetIntent? ==> d.claimRecordHash == x.claimRecordHash)
    && (i.EndorseIntent? ==> d.pageId == x.pageId && d.pageHash == x.pageHash)
  }

  lemma MatchingIff(i: Intent, e: Entry)
    requires WellFormed(i)
    ensures MatchingCommit(i, e) <==> SameSignal(i, e)
  {
    hide ValidCommon, ValidSha;
  }

  /** The epoch that keeps an operation out: a fence is there, it has not authorized the operation, and
      the stamp is behind the mark, or there is none although the mark has moved. */
  function Outdated(mark: nat, fence: Option<Fence>, i: Intent): Option<StaleReason> {
    if fence.None? || i.common.operationId in fence.value.rows then None
    else if i.common.stamp.Some? && i.common.stamp.value.epoch < mark then Some(EpochBehindHighWater)
    else if i.common.stamp.None? && mark != 0 then Some(UnstampedOnFencedBrain)
    else None
  }

  predicate HasArtifacts(w: World, id: Id) {
    || (exists o :: o in w.observations && o.operationId == Some(id))
    || (exists v :: v in w.versions && v.operationId == Some(id))
    || (exists p :: p in w.pages && p.operationId == Some(id))
  }

  lemma HasArtifactsIff(w: World, id: Id)
    ensures ArtifactCount(w, id) > 0 <==> HasArtifacts(w, id)
  {
    var l0, l1, pages := L0Of(w.observations, id), L1Of(w.versions, id), PagesOf(w.pages, id);
    if l0 != [] { assert l0[0] in l0; }
    if l1 != [] { assert l1[0] in l1; }
    if pages != [] { assert pages[0] in pages; }
  }

  /** The whole decision on a readable intent. */
  function Ruling(h: Hashes, w: World, marks: EpochMarks, i: Intent): Verdict {
    var id := i.common.operationId;
    if exists e :: e in w.log && e.operationId == id then
      if (exists e :: e in w.log && e.operationId == id && SameSignal(i, e)) && (i.ObserveIntent? || Whole(h, w, i)) then Clear else Review
    else if HasArtifacts(w, id) && Outdated(HighWater(w.fence), w.fence, i).Some? then
      RejectStale(Outdated(HighWater(w.fence), w.fence, i).value)
    else if Disposition(h, w, i) == Finalize && Outdated(MarkAt(w, marks, id), w.fence, i) == Some(EpochBehindHighWater) then
      RejectStale(EpochBehindHighWater)      // a claim landed before the gate
    else Disposition(h, w, i)
  }

  /** Every readable intent gets exactly this verdict, with claims landing during the scan. */
  lemma VerdictIs(h: Hashes, w: World, marks: EpochMarks, id: Id)
    requires id in w.files && ReadIntent(w, id).Some? && NamesEachOnce(ReadIntent(w, id).value)
    ensures VerdictOf(h, w, marks, id) == Ruling(h, w, marks, ReadIntent(w, id).value)
  {
    hide Uncommitted, Disposition, CommittedArtifactsExact, Whole, ArtifactCount, HasArtifacts, MatchingCommit, SameSignal, NamesEachOnce, Gate, StaleReasonOf, Outdated, EntriesOf;
    var i := ReadIntent(w, id).value;
    UncommittedIs(h, w, i);
    HasArtifactsIff(w, id);
    EntriesSay(w.log, i);
    StaleIs(HighWater(w.fence), w.fence, i);
    if Disposition(h, w, i) == Finalize {
      WholeHasArtifacts(h, w, i);
      if Outdated(HighWater(w.fence), w.fence, i) == None { GateIs(w, marks, i); }
    }
  }

  lemma EntriesSay(log: seq<Entry>, i: Intent)
    requires WellFormed(i)
    ensures var existing := EntriesOf(log, i.common.operationId);
      && (existing != [] <==> exists e :: e in log && e.operationId == i.common.operationId)
      && ((exists e :: e in existing && MatchingCommit(i, e)) <==> exists e :: e in log && e.operationId == i.common.operationId && SameSignal(i, e))
  {
    hide MatchingCommit, SameSignal, EntriesOf, WellFormed;
    var existing := EntriesOf(log, i.common.operationId);
    NoEntries(log, i.common.operationId);
    if existing != [] { assert existing[0] in existing; }
    if e :| e in existing && MatchingCommit(i, e) { MatchingIff(i, e); }
    if e :| e in log && e.operationId == i.common.operationId && SameSignal(i, e) { MatchingIff(i, e); assert e in existing; }
    if e :| e in log && e.operationId == i.common.operationId { assert e in existing; }
  }

  lemma StaleIs(mark: nat, fence: Option<Fence>, i: Intent)
    ensures StaleReasonOf(mark, fence, i) == Outdated(mark, fence, i)
  {
  }

  /** Past the first epoch check, the gate refuses exactly a stamp that a claim has overtaken since. */
  lemma GateIs(w: World, marks: EpochMarks, i: Intent)
    requires WellFormed(i) && Outdated(HighWater(w.fence), w.fence, i) == None
    ensures Gate(HighWater(w.fence), FenceAtMark(w.fence, MarkAt(w, marks, i.common.operationId)), i).None?
      <==> Outdated(MarkAt(w, marks, i.common.operationId), w.fence, i) == Some(EpochBehindHighWater)
  {
    assert i.common.stamp.Some? ==> i.common.stamp.value.epoch >= 1;
  }

  lemma WholeHasArtifacts(h: Hashes, w: World, i: Intent)
    requires Disposition(h, w, i) == Finalize
    ensures HasArtifacts(w, i.common.operationId)
  {
    hide Fine, Part, HasArtifacts, Scanned, ExpectedSet;
    HasArtifactsIff(w, i.common.operationId);
    NothingScanned(h, w, i);
    SomethingExpected(i);
  }

  lemma NothingScanned(h: Hashes, w: World, i: Intent)
    ensures ArtifactCount(w, i.common.operationId) == 0 ==> Scanned(h, w, i) == multiset{}
  {
    var id := i.common.operationId;
    if ArtifactCount(w, id) == 0 {
      assert SeenL0(h, L0Of(w.observations, id)) == [] && SeenL1(Marks(h, L1Of(w.versions, id))) == [] && SeenPages(PagesOf(w.pages, id)) == [];
    }
  }

  lemma SomethingExpected(i: Intent)
    ensures ExpectedSet(i) != multiset{}
  {
    match i
    case ReviseIntent(c, t, _, _, _, _, _, _) => assert SeenL1(ExpectedMarks(c, ReviseSet(i)))[0] in ExpectedSet(i);
    case ObserveIntent(c, o, _, _, _) => assert ExpectedAudit(c, o) in ExpectedSet(i);
    case ForgetIntent(c, a, _, _, _) => assert ExpectedAudit(c, a) in ExpectedSet(i);
    case ForgetScopeIntent(c, a, _, _, _, _, _) => assert ExpectedAudit(c, a) in ExpectedSet(i);
    case EndorseIntent(_, page, hash, _, _, _, _) => assert PageArtifact(Some(page), hash) in ExpectedSet(i);
    case ReviveIntent(c, t, _, _) => assert VersionArtifact(ExpectedMark(c, t, LiveRecord)) in ExpectedSet(i);
    case ReflectIntent(c, t, _, _) => assert VersionArtifact(ExpectedMark(c, t, LiveRecord)) in ExpectedSet(i);
  }

  // ---- What the scan does with its verdicts ------------------------------------------------------------------

  /** In every scan that reports, each file is dealt with by its verdict: in the log, among the intent
      files, in the fence and in the report. */
  lemma VerdictIsCarriedOut(h: Hashes, w: World, marks: EpochMarks, order: seq<Id>, id: Id)
    requires Listing(w.files, order) && id in w.files && RecoveryScan.OutcomeOf(h, w, marks, order).report.Some?
    ensures var v, out := VerdictOf(h, w, marks, id), RecoveryScan.OutcomeOf(h, w, marks, order);
      var r := out.report.value;
      && (id in out.disk.files <==> v != Finalize && v != Clear && v != Abort)
      && (v == Finalize <==> id in r.completed) && (v == Wait <==> id in r.pending) && (v == Abort <==> id in r.aborted)
      && (v == Unreadable <==> id in r.intentErrors) && (v == Review ==> id in r.manualReview)
      && (v == Finalize ==> ReadIntent(w, id).Some? && RecoveredEntry(ReadIntent(w, id).value) in out.disk.log)
      && (v.RejectStale? ==> ReadIntent(w, id).Some? && RejectionOf(w, ReadIntent(w, id).value, v.reason) in r.stale)
      && (v == Finalize && w.fence.Some? && ReadIntent(w, id).value.common.stamp.Some? ==> out.disk.fence.Some? && id in out.disk.fence.value.rows)
  {
    hide VerdictOf, RecoveredEntry, ReadIntent, OrphansOf, CommittedIds;
    var p := PlanOf(h, w, marks);
    RecoveryScan.PlanAt(h, w, marks, id);
    assert id in Done(order);
    var v := VerdictOf(h, w, marks, id);
    if v == Finalize {
      EntriesAppended(p, order, id);
      NoEntries(Appended(p, order), id);
      assert RecoveredEntry(p.intents[id]) in EntriesOf(Appended(p, order), id);
    }
    if v.RejectStale? {
      var x := RejectionOf(w, p.intents[id], v.reason);
      assert x in Rejections(w, p, Done(order));
    }
  }

  /** The report of a rejection: the operation, why, the epoch of its stamp if it has one, the mark read at
      the start of the scan, and how many artifacts it left. */
  lemma RejectionSays(w: World, i: Intent, reason: StaleReason)
    ensures var x, id := RejectionOf(w, i, reason), i.common.operationId;
      && x.operationId == id && x.reason == reason && x.highWater == (if w.fence.Some? then w.fence.value.highWater else 0)
      && (i.common.stamp.None? ==> x.epoch.None?) && (i.common.stamp.Some? ==> x.epoch == Some(i.common.stamp.value.epoch))
      && (x.artifacts > 0 <==> HasArtifacts(w, id))
  {
    HasArtifactsIff(w, i.common.operationId);
  }

  /** The orphans of a report, field by field: every observation, claim version and page with the id of an
      operation that is neither committed nor rejected, pages of tombstones told from the others. */
  lemma OrphansAre(w: World, settled: set<Id>, x: Orphan)
    ensures x in OrphansOf(w, settled) <==>
      && x.operationId !in settled
      && match x.surface
         case SurfaceL0 => x.version == 0 && exists o :: o in w.observations && o.operationId == Some(x.operationId) && o.id == x.locator
         case SurfaceL1 => exists v ::
           v in w.versions && v.operationId == Some(x.operationId) && v.claimId == x.locator && v.version == x.version
         case SurfaceL2 => x.version == 0 && exists p ::
           p in w.pages && p.operationId == Some(x.operationId) && p.locator == x.locator && !p.inTombstones
         case SurfaceTombstone => x.version == 0 && exists p ::
           p in w.pages && p.operationId == Some(x.operationId) && p.locator == x.locator && p.inTombstones
  {
    var a, b, c := OrphansL0(w.observations, settled), OrphansL1(w.versions, settled), OrphansL2(w.pages, settled);
    assert x in OrphansOf(w, settled) <==> x in a || x in b || x in c;
  }

  /** Whose operations need a manual review: those the verdict sends there, unreadable files named like an
      operation, and every orphan's unless it is pending. */
  lemma ManualReviewIs(h: Hashes, w: World, marks: EpochMarks, order: seq<Id>, id: Id)
    requires Listing(w.files, order)
    ensures var r := ReportOf(h, w, marks, order);
      id in r.manualReview <==>
        || (id in w.files && VerdictOf(h, w, marks, id) == Review)
        || (id in w.files && ReadIntent(w, id).None? && |id| >= 3 && id[..3] == "op_")
        || (id !in r.pending && exists x :: x in r.orphans && x.operationId == id)
  {
    hide ReadIntent, VerdictOf, ReportFor, LooksLikeOperation, PlanOf;
    assert id in w.files <==> id in Done(order);
    NamedLikeOperation(id);
    ReviewsOf(w, PlanOf(h, w, marks), order, id);
    if id in w.files {
      RecoveryScan.PlanAt(h, w, marks, id);
      UnreadableIff(h, w, marks, id);
    }
  }

  lemma ReviewsOf(w: World, p: Plan, order: seq<Id>, id: Id)
    requires Sound(p)
    ensures var r := ReportFor(w, p, order);
      id in r.manualReview <==>
        || (id in Done(order) && id in p.verdicts && p.verdicts[id] == Review)
        || (id in Done(order) && id in p.verdicts && p.verdicts[id] == Unreadable && LooksLikeOperation(id))
        || (id !in r.pending && exists x :: x in r.orphans && x.operationId == id)
  {
    hide OrphansOf, CommittedIds, Appended, Rejections, LooksLikeOperation, Done;
  }

  lemma NamedLikeOperation(id: Id)
    ensures LooksLikeOperation(id) <==> |id| >= 3 && id[..3] == "op_"
  {
  }

  lemma UnreadableIff(h: Hashes, w: World, marks: EpochMarks, id: Id)
    requires id in w.files
    ensures VerdictOf(h, w, marks, id) == Unreadable <==> ReadIntent(w, id).None?
  {
    hide ReadIntent, Decide, Gate;
  }

  /** So an operation that crashed after writing its whole set, and that no epoch keeps out, is
      signalled, reported completed and forgotten by the next scan that reports. */
  lemma ExactSetIsFinalized(h: Hashes, w: World, marks: EpochMarks, order: seq<Id>, id: Id)
    requires Listing(w.files, order) && id in w.files && RecoveryScan.OutcomeOf(h, w, marks, order).report.Some?
    requires ReadIntent(w, id).Some? && NamesEachOnce(ReadIntent(w, id).value)
    requires forall e :: e in w.log ==> e.operationId != id
    requires Outdated(HighWater(w.fence), w.fence, ReadIntent(w, id).value) == None
    requires Outdated(MarkAt(w, marks, id), w.fence, ReadIntent(w, id).value) != Some(EpochBehindHighWater)
    ensures var out := RecoveryScan.OutcomeOf(h, w, marks, order);
      && (id in out.report.value.completed <==> Whole(h, w, ReadIntent(w, id).value))
      && (Whole(h, w, ReadIntent(w, id).value) ==> id !in out.disk.files && exists e :: e in out.disk.log && e.operationId == id)
  {
    hide VerdictOf, RecoveryScan.OutcomeOf, Whole, RecoveredEntry, NamesEachOnce, Scanned, Part, HasArtifacts, Outdated;
    var i := ReadIntent(w, id).value;
    VerdictIs(h, w, marks, id);
    VerdictIsCarriedOut(h, w, marks, order, id);
    assert i.common.operationId == id;
    if Whole(h, w, i) { assert RecoveredEntry(i).operationId == id; }
  }
}
