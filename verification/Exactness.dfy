/** The `isExact*` predicates of recovery, and what they are worth: when the artifacts an
    intent expects are pairwise distinct, "exact" means the scanned artifacts are, as a
    multiset, precisely the expected ones. */
module Exactness {
  import opened Evidence
  import opened OpsLog
  import HashChain

  // ---- The predicates, as the scan evaluates them ---------------------------------------

  /** Stable insertion by sequence: `.sort((l, r) => l.sequence - r.sequence)`. */
  function InsertBySequence(s: seq<Observation>, o: Observation): seq<Observation> {
    if s == [] then [o]
    else if s[|s| - 1].integrity.sequence <= o.integrity.sequence then s + [o]
    else InsertBySequence(s[..|s| - 1], o) + [s[|s| - 1]]
  }

  function SortedChain(all: seq<Observation>, writer: Id): seq<Observation> {
    if all == [] then []
    else
      var rest := SortedChain(all[..|all| - 1], writer);
      var last := all[|all| - 1];
      if last.integrity.writer == writer then InsertBySequence(rest, last) else rest
  }

  /** `findIndex` by id, or the length when absent. */
  function IndexOf(s: seq<Observation>, id: Id): (n: nat)
    ensures n <= |s|
    ensures n < |s| ==> s[n].id == id
    ensures forall k :: 0 <= k < n ==> s[k].id != id
  {
    if s == [] then 0
    else if s[0].id == id then 0
    else
      assert forall k :: 1 <= k < |s| ==> s[k] == s[1..][k - 1];
      1 + IndexOf(s[1..], id)
  }

  predicate ChainVouches(h: Hashes, o: Observation, all: seq<Observation>) {
    var chain := SortedChain(all, o.integrity.writer);
    var position := IndexOf(chain, o.id);
    position < |chain| && HashChain.ValidChain(h.digest, chain[..position + 1])
  }

  predicate IsExactAudit(h: Hashes, c: Common, a: Audit, o: Observation, all: seq<Observation>) {
    && o.id == a.observationId
    && o.operationId == Some(c.operationId)
    && o.actorId == Some(c.actorId)
    && o.integrity.hash == a.observationHash
    && o.integrity.sequence == a.sequence
    && ComputeHash(h.digest, o) == o.integrity.hash
    && ChainVouches(h, o, all)
  }

  predicate IsExactObservation(h: Hashes, i: Intent, o: Observation, all: seq<Observation>)
    requires i.ObserveIntent?
  {
    && IsExactAudit(h, i.common, i.observation, o, all)
    && o.id == i.resultId && o.status == i.resultStatus && o.integrity.sequence == i.resultSequence
  }

  function TargetScope(b: Body): Option<string> {
    if b.scope.Some? then b.scope else b.nestedScope
  }

  predicate IsExactScopeAudit(h: Hashes, i: Intent, o: Observation, all: seq<Observation>)
    requires i.ForgetScopeIntent?
  {
    && IsExactAudit(h, i.common, i.audit, o, all)
    && TargetScope(o.body) == Some(i.scope)
    && o.body.reason == Some(i.reason)
  }

  /** One claim version against one expected record, with the life state the kind demands. */
  predicate IsExactVersion(h: Hashes, c: Common, e: Expected, state: LifeState, v: ClaimVersion) {
    && v.state == state
    && v.claimId == e.claimId
    && v.version == e.version
    && v.operationId == Some(c.operationId)
    && v.actorId == c.actorId
    && v.versionAt == c.preparedAt
    && h.record(v) == e.recordHash
  }

  function Demoted(i: Intent): seq<Expected>
    requires i.ReviseIntent?
  {
    if i.repick.Some? then i.repick.value else []
  }

  /** `versions.filter(v => isExactReviseRelease(intent, v)).length` */
  function CountRelease(h: Hashes, i: Intent, vs: seq<ClaimVersion>): nat
    requires i.ReviseIntent?
  {
    if vs == [] then 0
    else
      var last := vs[|vs| - 1];
      var here := if IsExactVersion(h, i.common, i.target, LiveRecord, last) && last.owner == i.resultOwner then 1 else 0;
      CountRelease(h, i, vs[..|vs| - 1]) + here
  }

  /** `versions.filter(v => isExactRepickDemotion(intent, expected, v)).length` */
  function CountExact(h: Hashes, c: Common, e: Expected, vs: seq<ClaimVersion>): nat {
    if vs == [] then 0
    else
      var here := if IsExactVersion(h, c, e, LiveRecord, vs[|vs| - 1]) then 1 else 0;
      CountExact(h, c, e, vs[..|vs| - 1]) + here
  }

  predicate IsExactRevise(h: Hashes, i: Intent, vs: seq<ClaimVersion>)
    requires i.ReviseIntent?
  {
    && |vs| == 1 + |Demoted(i)|
    && CountRelease(h, i, vs) == 1
    && forall k :: 0 <= k < |Demoted(i)| ==> CountExact(h, i.common, Demoted(i)[k], vs) == 1
  }

  /** `new Map(versions.map(v => [identity, v])).get(identity)`: the last one wins. */
  function LastByIdentity(vs: seq<ClaimVersion>, claimId: Id, version: int): (r: Option<ClaimVersion>)
    ensures r.Some? ==> r.value in vs && r.value.claimId == claimId && r.value.version == version
    ensures r.None? ==> forall v :: v in vs ==> v.claimId != claimId || v.version != version
  {
    if vs == [] then None
    else if vs[|vs| - 1].claimId == claimId && vs[|vs| - 1].version == version then Some(vs[|vs| - 1])
    else
      assert vs == vs[..|vs| - 1] + [vs[|vs| - 1]];
      LastByIdentity(vs[..|vs| - 1], claimId, version)
  }

  predicate FoundExact(h: Hashes, c: Common, e: Expected, vs: seq<ClaimVersion>) {
    var found := LastByIdentity(vs, e.claimId, e.version);
    found.Some? && IsExactVersion(h, c, e, LiveRecord, found.value)
  }

  predicate IsExactEndorseClaims(h: Hashes, c: Common, expected: seq<Expected>, vs: seq<ClaimVersion>) {
    && |vs| == |expected|
    && forall k :: 0 <= k < |expected| ==> FoundExact(h, c, expected[k], vs)
  }

  predicate IsExactPage(i: Intent, ps: seq<Page>)
    requires i.EndorseIntent?
  {
    |ps| == 1 && ps[0].pageId == Some(i.pageId) && ps[0].contentHash == i.pageHash
  }

  // ---- Reference meaning ---------------------------------------------------------------

  /** What a claim version looks like from outside. */
  datatype VersionMark = VersionMark(
    claimId: Id, version: int, hash: Hash, state: LifeState, operation: Option<Id>, actor: Id, at: Time)

  function MarkOf(h: Hashes, v: ClaimVersion): VersionMark {
    VersionMark(v.claimId, v.version, h.record(v), v.state, v.operationId, v.actorId, v.versionAt)
  }

  function ExpectedMark(c: Common, e: Expected, state: LifeState): VersionMark {
    VersionMark(e.claimId, e.version, e.recordHash, state, Some(c.operationId), c.actorId, c.preparedAt)
  }

  function Marks(h: Hashes, vs: seq<ClaimVersion>): (r: seq<VersionMark>)
    ensures |r| == |vs| && forall k :: 0 <= k < |vs| ==> r[k] == MarkOf(h, vs[k])
  {
    seq(|vs|, k requires 0 <= k < |vs| => MarkOf(h, vs[k]))
  }

  function ExpectedMarks(c: Common, es: seq<Expected>): (r: seq<VersionMark>)
    ensures |r| == |es| && forall k :: 0 <= k < |es| ==> r[k] == ExpectedMark(c, es[k], LiveRecord)
  {
    seq(|es|, k requires 0 <= k < |es| => ExpectedMark(c, es[k], LiveRecord))
  }

  /** Every artifact of a revise commit, the released copy first. */
  function ReviseSet(i: Intent): seq<Expected>
    requires i.ReviseIntent?
  {
    [i.target] + Demoted(i)
  }

  predicate DistinctIdentities(es: seq<Expected>) {
    forall i, j :: 0 <= i < j < |es| ==> es[i].claimId != es[j].claimId || es[i].version != es[j].version
  }

  // ---- Multisets -----------------------------------------------------------------------

  lemma {:induction false} DistinctCounts<T>(s: seq<T>, x: T)
    requires Distinct(s)
    ensures multiset(s)[x] == if x in s then 1 else 0
  {
    if s != [] {
      var n := |s| - 1;
      assert s == s[..n] + [s[n]];
      DistinctCounts(s[..n], x);
      assert multiset(s) == multiset(s[..n]) + multiset{s[n]};
    }
  }

  lemma SubmultisetOfEqualSize<T>(a: multiset<T>, b: multiset<T>)
    requires a <= b && |a| == |b|
    ensures a == b
  {
    assert b == a + (b - a);
    assert |b| == |a| + |b - a|;
    assert b - a == multiset{};
  }

  /** A distinct list that is covered by a list of the same length is a rearrangement of it. */
  lemma CoverIsRearrangement<T>(expected: seq<T>, found: seq<T>)
    requires Distinct(expected) && |expected| == |found|
    requires forall x :: x in expected ==> x in found
    ensures multiset(expected) == multiset(found)
  {
    forall x ensures multiset(expected)[x] <= multiset(found)[x] {
      DistinctCounts(expected, x);
    }
    assert multiset(expected) <= multiset(found);
    SubmultisetOfEqualSize(multiset(expected), multiset(found));
  }

  lemma {:induction false} CountIsMultiplicity(h: Hashes, c: Common, e: Expected, vs: seq<ClaimVersion>)
    ensures CountExact(h, c, e, vs) == multiset(Marks(h, vs))[ExpectedMark(c, e, LiveRecord)]
  {
    if vs != [] {
      var n := |vs| - 1;
      CountIsMultiplicity(h, c, e, vs[..n]);
      assert Marks(h, vs) == Marks(h, vs[..n]) + [MarkOf(h, vs[n])];
    }
  }

  lemma {:induction false} ReleaseCountBound(h: Hashes, i: Intent, vs: seq<ClaimVersion>)
    requires i.ReviseIntent?
    ensures CountRelease(h, i, vs) <= CountExact(h, i.common, i.target, vs)
    ensures (forall v :: v in vs && MarkOf(h, v) == ExpectedMark(i.common, i.target, LiveRecord) ==> v.owner == i.resultOwner)
            ==> CountRelease(h, i, vs) == CountExact(h, i.common, i.target, vs)
    ensures CountRelease(h, i, vs) == CountExact(h, i.common, i.target, vs)
            ==> forall v :: v in vs && MarkOf(h, v) == ExpectedMark(i.common, i.target, LiveRecord) ==> v.owner == i.resultOwner
  {
    if vs != [] {
      var n := |vs| - 1;
      assert vs == vs[..n] + [vs[n]];
      ReleaseCountBound(h, i, vs[..n]);
    }
  }

  // ---- Exact means exactly once --------------------------------------------------------

  lemma ReviseMarks(i: Intent)
    requires i.ReviseIntent?
    ensures ExpectedMarks(i.common, ReviseSet(i))
         == [ExpectedMark(i.common, i.target, LiveRecord)] + ExpectedMarks(i.common, Demoted(i))
  {
  }

  lemma MarksDistinct(c: Common, es: seq<Expected>)
    ensures Distinct(es) <==> Distinct(ExpectedMarks(c, es))
  {
    var m := ExpectedMarks(c, es);
    forall i, j | 0 <= i < j < |es| ensures es[i] == es[j] <==> m[i] == m[j] {
    }
    if Distinct(m) {
      forall i, j | 0 <= i < j < |es| ensures es[i] != es[j] { assert m[i] != m[j]; }
    }
  }

  /** For every revise intent that passes: the scanned versions are exactly the expected set
      if and only if the intent names no artifact twice. */
  lemma ExactReviseIffDistinct(h: Hashes, i: Intent, vs: seq<ClaimVersion>)
    requires i.ReviseIntent? && IsExactRevise(h, i, vs)
    ensures multiset(Marks(h, vs)) == multiset(ExpectedMarks(i.common, ReviseSet(i))) <==> Distinct(ReviseSet(i))
  {
    var want, have := ExpectedMarks(i.common, ReviseSet(i)), Marks(h, vs);
    ReviseMarks(i);
    MarksDistinct(i.common, ReviseSet(i));
    ReleaseCountBound(h, i, vs);
    CountIsMultiplicity(h, i.common, i.target, vs);
    forall k | 0 <= k < |want| ensures want[k] in have && (k > 0 ==> multiset(have)[want[k]] == 1) {
      CountIsMultiplicity(h, i.common, ReviseSet(i)[k], vs);
    }
    if Distinct(want) {
      CoverIsRearrangement(want, have);
    }
    if multiset(have) == multiset(want) {
      forall p, q | 0 <= p < q < |want| ensures want[p] != want[q] {
        RepeatCounts(want, p, q);
      }
    }
  }

  lemma RepeatCounts<T>(s: seq<T>, p: nat, q: nat)
    requires p < q < |s|
    ensures s[p] == s[q] ==> multiset(s)[s[q]] >= 2
  {
    assert s == s[..q] + [s[q]] + s[q + 1..];
    if s[p] == s[q] {
      assert s[..q][p] == s[q];
      assert multiset(s) == multiset(s[..q]) + multiset{s[q]} + multiset(s[q + 1..]);
    }
  }

  /** The other direction: a complete, once-each artifact set with the released owner is accepted. */
  lemma CompleteReviseIsExact(h: Hashes, i: Intent, vs: seq<ClaimVersion>)
    requires i.ReviseIntent? && Distinct(ReviseSet(i))
    requires multiset(Marks(h, vs)) == multiset(ExpectedMarks(i.common, ReviseSet(i)))
    requires forall v :: v in vs && MarkOf(h, v) == ExpectedMark(i.common, i.target, LiveRecord) ==> v.owner == i.resultOwner
    ensures IsExactRevise(h, i, vs)
  {
    var want, have := ExpectedMarks(i.common, ReviseSet(i)), Marks(h, vs);
    ReviseMarks(i);
    MarksDistinct(i.common, ReviseSet(i));
    assert |multiset(have)| == |multiset(want)|;
    forall k | 0 <= k < |want| ensures CountExact(h, i.common, ReviseSet(i)[k], vs) == 1 {
      CountIsMultiplicity(h, i.common, ReviseSet(i)[k], vs);
      DistinctCounts(want, want[k]);
      assert want[k] in want;
    }
    assert CountExact(h, i.common, ReviseSet(i)[0], vs) == 1;
    ReleaseCountBound(h, i, vs);
    forall k | 0 <= k < |Demoted(i)| ensures CountExact(h, i.common, Demoted(i)[k], vs) == 1 {
      assert Demoted(i)[k] == ReviseSet(i)[k + 1];
    }
  }

  /** A re-pick whose intent names one demotion twice is accepted with a foreign record in the
      operation's set: the count is right and the repeated artifact is found, but the third
      version is nothing the intent described. */
  lemma RepeatedDemotionAdmitsForeignVersion(h: Hashes, i: Intent, release: ClaimVersion, demotion: ClaimVersion, foreign: ClaimVersion, e: Expected)
    requires i.ReviseIntent? && i.repick == Some([e, e])
    requires IsExactVersion(h, i.common, i.target, LiveRecord, release) && release.owner == i.resultOwner
    requires IsExactVersion(h, i.common, e, LiveRecord, demotion)
    requires e != i.target
    requires MarkOf(h, foreign) != ExpectedMark(i.common, i.target, LiveRecord)
    requires MarkOf(h, foreign) != ExpectedMark(i.common, e, LiveRecord)
    ensures IsExactRevise(h, i, [release, demotion, foreign])
    ensures MarkOf(h, foreign) !in ExpectedMarks(i.common, ReviseSet(i))
  {
    var vs := [release, demotion, foreign];
    assert vs[..2] == [release, demotion] && vs[..2][..1] == [release] && vs[..2][..1][..0] == [];
    assert CountRelease(h, i, [release]) == 1;
    assert CountRelease(h, i, [release, demotion]) == 1 by { assert [release, demotion][..1] == [release]; }
    assert CountRelease(h, i, vs) == 1;
    assert CountExact(h, i.common, e, [release]) == 0;
    assert CountExact(h, i.common, e, [release, demotion]) == 1 by { assert [release, demotion][..1] == [release]; }
    assert CountExact(h, i.common, e, vs) == 1;
    ReviseMarks(i);
  }

  /** Endorsement cascade: with pairwise distinct identities, the identity-map check accepts
      exactly the complete once-each sets. */
  lemma ExactEndorseIffComplete(h: Hashes, c: Common, es: seq<Expected>, vs: seq<ClaimVersion>)
    requires DistinctIdentities(es)
    ensures IsExactEndorseClaims(h, c, es, vs) <==> multiset(Marks(h, vs)) == multiset(ExpectedMarks(c, es))
  {
    var want, have := ExpectedMarks(c, es), Marks(h, vs);
    if IsExactEndorseClaims(h, c, es, vs) {
      assert Distinct(es);
      MarksDistinct(c, es);
      forall x | x in want ensures x in have {
        var k :| 0 <= k < |want| && want[k] == x;
        var v := LastByIdentity(vs, es[k].claimId, es[k].version).value;
        assert FoundExact(h, c, es[k], vs);
        var n :| 0 <= n < |vs| && vs[n] == v;
        assert have[n] == x;
      }
      CoverIsRearrangement(want, have);
    }
    if multiset(have) == multiset(want) {
      assert |multiset(have)| == |multiset(want)|;
      forall k | 0 <= k < |es| ensures FoundExact(h, c, es[k], vs) {
        EndorseFound(h, c, es, vs, k);
      }
    }
  }

  lemma EndorseFound(h: Hashes, c: Common, es: seq<Expected>, vs: seq<ClaimVersion>, k: nat)
    requires DistinctIdentities(es) && k < |es|
    requires multiset(Marks(h, vs)) == multiset(ExpectedMarks(c, es))
    ensures FoundExact(h, c, es[k], vs)
  {
    var want, have := ExpectedMarks(c, es), Marks(h, vs);
    assert want[k] in multiset(have);
    var n :| 0 <= n < |have| && have[n] == want[k];
    assert vs[n] in vs && vs[n].claimId == es[k].claimId && vs[n].version == es[k].version;
    var v := LastByIdentity(vs, es[k].claimId, es[k].version).value;
    var m :| 0 <= m < |vs| && vs[m] == v;
    assert have[m] in multiset(want);
    var j :| 0 <= j < |want| && want[j] == have[m];
    assert es[j].claimId == es[k].claimId && es[j].version == es[k].version;
    assert j == k;
  }

  /** Each expected record has a version that is exactly it. */
  predicate Witnessed(h: Hashes, c: Common, es: seq<Expected>, ws: seq<ClaimVersion>) {
    |ws| == |es| && forall k :: 0 <= k < |es| ==> IsExactVersion(h, c, es[k], LiveRecord, ws[k])
  }

  predicate SameIdentity(a: Expected, b: Expected) { a.claimId == b.claimId && a.version == b.version }

  lemma {:induction false} LaterWins(first: ClaimVersion, rest: seq<ClaimVersion>, v: ClaimVersion)
    requires v in rest
    ensures LastByIdentity([first] + rest, v.claimId, v.version) == LastByIdentity(rest, v.claimId, v.version)
    decreases |rest|
  {
    var n := |rest| - 1;
    assert ([first] + rest)[..n + 1] == [first] + rest[..n];
    if rest[n].claimId != v.claimId || rest[n].version != v.version {
      assert rest == rest[..n] + [rest[n]];
      LaterWins(first, rest[..n], v);
    }
  }

  /** One identity named with two different hashes: no set at all is accepted. */
  lemma ConflictingRepeatAcceptsNothing(h: Hashes, c: Common, es: seq<Expected>, i: nat, j: nat, vs: seq<ClaimVersion>)
    requires i < j < |es| && SameIdentity(es[i], es[j]) && es[i] != es[j]
    ensures !IsExactEndorseClaims(h, c, es, vs)
  {
    assert !(FoundExact(h, c, es[i], vs) && FoundExact(h, c, es[j], vs));
  }

  /** One record named twice: any version under the same identity may stand in for one copy. */
  lemma RepeatedIdentityAdmitsForeignVersion(h: Hashes, c: Common, es: seq<Expected>, ws: seq<ClaimVersion>, i: nat, j: nat, foreign: ClaimVersion)
    requires Witnessed(h, c, es, ws) && i < j < |es| && es[i] == es[j]
    requires forall k, m :: 0 <= k < |es| && 0 <= m < |es| && SameIdentity(es[k], es[m]) ==> es[k] == es[m]
    ensures IsExactEndorseClaims(h, c, es, [foreign] + ws[..j] + ws[j + 1..])
  {
    hide FoundExact, IsExactVersion;
    var rest := ws[..j] + ws[j + 1..];
    assert [foreign] + ws[..j] + ws[j + 1..] == [foreign] + rest;
    forall k | 0 <= k < |es| ensures FoundExact(h, c, es[k], [foreign] + rest) {
      FoundAmong(h, c, es, ws, j, if k == j then i else k, foreign);
    }
  }

  /** Every expected record but the repeated copy is found, whatever stands in front. */
  lemma FoundAmong(h: Hashes, c: Common, es: seq<Expected>, ws: seq<ClaimVersion>, j: nat, k: nat, foreign: ClaimVersion)
    requires Witnessed(h, c, es, ws) && j < |es| && k < |es| && k != j
    requires forall a, b :: 0 <= a < |es| && 0 <= b < |es| && SameIdentity(es[a], es[b]) ==> es[a] == es[b]
    ensures FoundExact(h, c, es[k], [foreign] + (ws[..j] + ws[j + 1..]))
  {
    hide LastByIdentity;
    var rest := ws[..j] + ws[j + 1..];
    assert IsExactVersion(h, c, es[k], LiveRecord, ws[k]);
    assert ws[k] in rest by { assert rest[if k < j then k else k - 1] == ws[k]; }
    LaterWins(foreign, rest, ws[k]);
    var v := LastByIdentity(rest, es[k].claimId, es[k].version).value;
    var n :| 0 <= n < |rest| && rest[n] == v;
    var m := if n < j then n else n + 1;
    assert rest[n] == ws[m] && IsExactVersion(h, c, es[m], LiveRecord, ws[m]);
    assert SameIdentity(es[k], es[m]);
  }

  lemma WitnessesAreComplete(h: Hashes, c: Common, es: seq<Expected>, ws: seq<ClaimVersion>)
    requires Witnessed(h, c, es, ws)
    ensures Marks(h, ws) == ExpectedMarks(c, es)
  {
    forall k | 0 <= k < |es| ensures Marks(h, ws)[k] == ExpectedMarks(c, es)[k] {
      assert IsExactVersion(h, c, es[k], LiveRecord, ws[k]);
    }
  }

  /** What the scan groups under the operation. */
  predicate OfOperation(c: Common, vs: seq<ClaimVersion>) { forall v :: v in vs ==> v.operationId == Some(c.operationId) }

  /** The check accepts exactly the complete once-each sets, on everything that can be found under
      the operation, if and only if the intent names no identity twice. */
  lemma EndorseCheckIsExactIff(h: Hashes, c: Common, es: seq<Expected>, ws: seq<ClaimVersion>)
    requires Witnessed(h, c, es, ws)
    ensures (forall vs :: OfOperation(c, vs) ==>
               (IsExactEndorseClaims(h, c, es, vs) <==> multiset(Marks(h, vs)) == multiset(ExpectedMarks(c, es))))
      <==> DistinctIdentities(es)
  {
    hide IsExactEndorseClaims, Marks, ExpectedMarks;
    if DistinctIdentities(es) {
      forall vs ensures IsExactEndorseClaims(h, c, es, vs) <==> multiset(Marks(h, vs)) == multiset(ExpectedMarks(c, es)) {
        ExactEndorseIffComplete(h, c, es, vs);
      }
    } else {
      var vs := RepeatBreaksCheck(h, c, es, ws);
    }
  }

  lemma RepeatBreaksCheck(h: Hashes, c: Common, es: seq<Expected>, ws: seq<ClaimVersion>) returns (vs: seq<ClaimVersion>)
    requires Witnessed(h, c, es, ws) && !DistinctIdentities(es)
    ensures OfOperation(c, vs)
    ensures !(IsExactEndorseClaims(h, c, es, vs) <==> multiset(Marks(h, vs)) == multiset(ExpectedMarks(c, es)))
  {
    hide IsExactEndorseClaims, IsExactVersion, Marks, ExpectedMarks;
    WitnessesAreComplete(h, c, es, ws);
    forall v | v in ws ensures v.operationId == Some(c.operationId) {
      var n :| 0 <= n < |ws| && ws[n] == v;
      assert Marks(h, ws)[n] == ExpectedMarks(c, es)[n];
    }
    if k, m :| 0 <= k < |es| && 0 <= m < |es| && SameIdentity(es[k], es[m]) && es[k] != es[m] {
      vs := ws;
      ConflictingRepeatAcceptsNothing(h, c, es, if k < m then k else m, if k < m then m else k, ws);
    } else {
      var i, j :| 0 <= i < j < |es| && SameIdentity(es[i], es[j]);
      var foreign := ws[i].(state := ForgottenRecord);
      vs := [foreign] + ws[..j] + ws[j + 1..];
      RepeatedIdentityAdmitsForeignVersion(h, c, es, ws, i, j, foreign);
      assert vs[0] == foreign;
      ForgottenIsForeign(h, c, es, vs);
    }
  }

  lemma ForgottenIsForeign(h: Hashes, c: Common, es: seq<Expected>, vs: seq<ClaimVersion>)
    requires vs != [] && vs[0].state == ForgottenRecord
    ensures multiset(Marks(h, vs)) != multiset(ExpectedMarks(c, es))
  {
    var have, want := Marks(h, vs), ExpectedMarks(c, es);
    assert have[0] == MarkOf(h, vs[0]) && have[0] in multiset(have);
    assert have[0] !in want;
  }
}
