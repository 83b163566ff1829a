/** The derived fingerprint index: the latest version per claim, rebuilt from month files, caught up
    by size or written live, and a batched overlay that must agree with unbatched writes. */
module FingerprintIndex {
  import opened Evidence

  datatype Fingerprint = Fingerprint(text: string)
  type Month = string

  datatype Version = Version(claimId: Id, fingerprint: Fingerprint, number: int, active: bool, body: string, derivedFrom: set<Id>)

  /** `claim_state`: one row per claim. */
  type Table = map<Id, Version>

  /** `INSERT ... ON CONFLICT DO UPDATE ... WHERE excluded.version > claim_state.version` */
  function Upsert(t: Table, v: Version): Table {
    if v.claimId in t && v.number <= t[v.claimId].number then t else t[v.claimId := v]
  }

  /** A record of a version already held, or of an older one, changes nothing; a newer one replaces the row. */
  lemma OnlyNewerWrites(t: Table, v: Version)
    ensures Upsert(t, v) == t || (v.claimId in Upsert(t, v) && Upsert(t, v)[v.claimId] == v)
    ensures v.claimId in t && v.number == t[v.claimId].number ==> Upsert(t, v) == t
    ensures v.claimId in t && v.number < t[v.claimId].number ==> Upsert(t, v) == t
    ensures v.claimId !in t || v.number > t[v.claimId].number ==> Upsert(t, v)[v.claimId] == v
    ensures forall id :: id in t && id != v.claimId ==> id in Upsert(t, v) && Upsert(t, v)[id] == t[id]
    ensures Upsert(t, v).Keys == t.Keys + {v.claimId}
  {
  }

  function Replay(t: Table, vs: seq<Version>): Table {
    if vs == [] then t else Upsert(Replay(t, vs[..|vs| - 1]), vs[|vs| - 1])
  }

  // ---- The highest version wins, in any order --------------------------------------------------

  /** Exactly the claims of `vs`, each with a record of its highest version. */
  ghost predicate Highest(t: Table, vs: set<Version>) {
    && (forall v :: v in vs ==> v.claimId in t && v.number <= t[v.claimId].number)
    && (forall id :: id in t ==> t[id] in vs && t[id].claimId == id)
  }

  /** No claim has two different records of one version. */
  ghost predicate OneRecordPerVersion(vs: set<Version>) {
    forall a, b :: a in vs && b in vs && a.claimId == b.claimId && a.number == b.number ==> a == b
  }

  lemma UpsertKeepsHighest(t: Table, vs: set<Version>, v: Version)
    requires Highest(t, vs)
    ensures Highest(Upsert(t, v), vs + {v})
  {
  }

  function AsSet(vs: seq<Version>): set<Version> { set v | v in vs }

  lemma {:induction false} ReplayKeepsHighest(t: Table, fed: set<Version>, vs: seq<Version>)
    requires Highest(t, fed)
    ensures Highest(Replay(t, vs), fed + AsSet(vs))
  {
    if vs == [] {
      assert fed + AsSet(vs) == fed;
    } else {
      var n := |vs| - 1;
      ReplayKeepsHighest(t, fed, vs[..n]);
      UpsertKeepsHighest(Replay(t, vs[..n]), fed + AsSet(vs[..n]), vs[n]);
      assert vs == vs[..n] + [vs[n]];
      assert fed + AsSet(vs) == fed + AsSet(vs[..n]) + {vs[n]};
    }
  }

  /** The table is determined by the set of records it was fed, in whatever order and however often. */
  lemma HighestIsUnique(t: Table, u: Table, vs: set<Version>)
    requires Highest(t, vs) && Highest(u, vs) && OneRecordPerVersion(vs)
    ensures t == u
  {
    forall id | id in t ensures id in u && u[id] == t[id] {
      assert t[id] in vs && t[id].claimId == id;
      assert u[id] in vs;
    }
    forall id | id in u ensures id in t {
      assert u[id] in vs && u[id].claimId == id;
    }
    assert t.Keys == u.Keys;
  }

  lemma ReplayOrderIrrelevant(a: seq<Version>, b: seq<Version>)
    requires AsSet(a) == AsSet(b) && OneRecordPerVersion(AsSet(a))
    ensures Replay(map[], a) == Replay(map[], b)
  {
    ReplayKeepsHighest(map[], {}, a);
    ReplayKeepsHighest(map[], {}, b);
    assert {} + AsSet(a) == AsSet(a) && {} + AsSet(b) == AsSet(b);
    HighestIsUnique(Replay(map[], a), Replay(map[], b), AsSet(a));
  }

  /** Some record of `a` is of the same claim and not older. */
  ghost predicate Beaten(a: set<Version>, v: Version) {
    exists w :: w in a && w.claimId == v.claimId && v.number <= w.number
  }

  lemma BeatenBy(a: set<Version>, v: Version, w: Version)
    requires w in a && w.claimId == v.claimId && v.number <= w.number
    ensures Beaten(a, v)
  {
  }

  ghost predicate Dominates(a: set<Version>, b: set<Version>) { forall v :: v in b ==> Beaten(a, v) }

  lemma BeatenInTable(t: Table, fed: set<Version>, v: Version)
    requires Highest(t, fed)
    ensures Beaten(fed, v) <==> v.claimId in t && v.number <= t[v.claimId].number
  {
    if v.claimId in t && v.number <= t[v.claimId].number { BeatenBy(fed, v, t[v.claimId]); }
  }

  /** Two sets of records give the same table if and only if each dominates the other. */
  lemma SameTableIff(t: Table, a: set<Version>, u: Table, b: set<Version>)
    requires Highest(t, a) && Highest(u, b) && OneRecordPerVersion(a + b)
    ensures t == u <==> Dominates(a, b) && Dominates(b, a)
  {
    hide Beaten, OneRecordPerVersion, Highest;
    if Dominates(a, b) && Dominates(b, a) {
      HighestOfBoth(t, a, b);
      HighestOfBoth(u, b, a);
      assert a + b == b + a;
      HighestIsUnique(t, u, a + b);
    }
    if t == u {
      forall v | v in b ensures Beaten(a, v) { HighestAt(u, b, v); BeatenInTable(t, a, v); }
      forall v | v in a ensures Beaten(b, v) { HighestAt(t, a, v); BeatenInTable(u, b, v); }
    }
  }

  lemma HighestOfBoth(t: Table, a: set<Version>, b: set<Version>)
    requires Highest(t, a) && Dominates(a, b)
    ensures Highest(t, a + b)
  {
    hide Beaten, Highest;
    forall v | v in a + b ensures v.claimId in t && v.number <= t[v.claimId].number {
      if v in a { HighestAt(t, a, v); } else { BeatenInTable(t, a, v); }
    }
    HighestOfMore(t, a, a + b);
  }

  lemma HighestOfMore(t: Table, fed: set<Version>, all: set<Version>)
    requires Highest(t, fed) && fed <= all && forall v :: v in all ==> v.claimId in t && v.number <= t[v.claimId].number
    ensures Highest(t, all)
  {
  }

  lemma HighestAt(t: Table, fed: set<Version>, v: Version)
    requires Highest(t, fed) && v in fed
    ensures v.claimId in t && v.number <= t[v.claimId].number
  {
  }

  // ---- Month files --------------------------------------------------------------------------------

  type Files = map<Month, seq<Version>>

  /** The records of every month up to the given sizes. */
  function Upto(files: Files, sizes: map<Month, nat>): set<Version> {
    set m, k: nat | m in files && m in sizes && k < |files[m]| && k < sizes[m] :: files[m][k]
  }

  function FullSizes(files: Files): map<Month, nat> { map m | m in files :: |files[m]| }

  function AllRecords(files: Files): set<Version> { Upto(files, FullSizes(files)) }

  /** The recorded sizes are sizes the files have had, and everything up to them was fed to the
      index. Live writes may have fed it more. */
  ghost predicate Replayed(fed: set<Version>, synced: map<Month, nat>, files: Files) {
    && (forall m :: m in synced ==> m in files && synced[m] <= |files[m]|)
    && Upto(files, synced) <= fed
  }

  /** A month whose size is the recorded one is taken for unchanged and skipped. */
  predicate Skips(synced: map<Month, nat>, files: Files, m: Month, force: bool)
    requires m in files
  {
    !force && m in synced && synced[m] == |files[m]|
  }

  /** The records a catch-up replays: those of all other months. */
  function Fresh(files: Files, synced: map<Month, nat>, force: bool): set<Version> {
    set m, k: nat | m in files && !Skips(synced, files, m, force) && k < |files[m]| :: files[m][k]
  }

  lemma FreshIsRecords(files: Files, synced: map<Month, nat>, force: bool)
    ensures Fresh(files, synced, force) <= AllRecords(files)
    ensures force ==> Fresh(files, synced, force) == AllRecords(files)
  {
    var all := AllRecords(files);
    forall v | v in Fresh(files, synced, force) ensures v in all {
      var m, k: nat :| m in files && k < |files[m]| && files[m][k] == v;
      assert m in FullSizes(files) && k < FullSizes(files)[m];
    }
    if force {
      forall v | v in all ensures v in Fresh(files, synced, force) {
        var m, k: nat :| m in files && k < |files[m]| && files[m][k] == v;
        assert !Skips(synced, files, m, force);
      }
    }
  }

  /** No month that would be skipped holds a record that was not fed. */
  ghost predicate NothingMissed(fed: set<Version>, synced: map<Month, nat>, files: Files) {
    forall m :: m in files && Skips(synced, files, m, false) ==> AsSet(files[m]) <= fed
  }

  /** As long as files only grow, nothing is missed. */
  lemma ReplayedMissesNothing(fed: set<Version>, synced: map<Month, nat>, files: Files)
    requires Replayed(fed, synced, files)
    ensures NothingMissed(fed, synced, files)
  {
    forall m, v | m in files && Skips(synced, files, m, false) && v in AsSet(files[m]) ensures v in fed {
      var k :| 0 <= k < |files[m]| && files[m][k] == v;
      assert m in synced && k < synced[m];
    }
  }

  /** An erasure takes the claims out of the files and out of the index. */
  function Purged(files: Files, ids: set<Id>): Files { map m | m in files :: Without(files[m], ids) }

  lemma {:induction false} WithoutShrinks(vs: seq<Version>, ids: set<Id>)
    ensures |Without(vs, ids)| <= |vs| && (|Without(vs, ids)| == |vs| ==> Without(vs, ids) == vs)
  {
    if vs != [] {
      var n := |vs| - 1;
      WithoutShrinks(vs[..n], ids);
      assert vs == vs[..n] + [vs[n]];
    }
  }

  /** After an erasure over a caught-up index nothing is missed: a month that lost a record has another
      size than the recorded one. */
  lemma PurgeMissesNothing(fed: set<Version>, synced: map<Month, nat>, files: Files, ids: set<Id>)
    requires synced == FullSizes(files) && AllRecords(files) <= fed
    ensures NothingMissed(Kept(fed, ids), synced, Purged(files, ids))
  {
    var after := Purged(files, ids);
    forall m, v | m in after && Skips(synced, after, m, false) && v in AsSet(after[m]) ensures v in Kept(fed, ids) {
      WithoutShrinks(files[m], ids);
      var k :| 0 <= k < |files[m]| && files[m][k] == v;
      assert m in FullSizes(files) && k < FullSizes(files)[m];
      assert v in AllRecords(files);
    }
  }

  ghost predicate Grown(files: Files, grown: Files) { forall m :: m in files ==> m in grown && files[m] <= grown[m] }

  /** Appending to the files keeps what was replayed. */
  lemma AppendKeepsReplayed(fed: set<Version>, synced: map<Month, nat>, files: Files, grown: Files)
    requires Replayed(fed, synced, files) && Grown(files, grown)
    ensures Replayed(fed, synced, grown)
  {
    forall v | v in Upto(grown, synced) ensures v in fed {
      var m, k: nat :| m in grown && m in synced && k < |grown[m]| && k < synced[m] && grown[m][k] == v;
      assert m in files && files[m][k] == v;
    }
  }

  /** For every row some file holds that version of the claim, or a newer one. */
  ghost predicate Backed(t: Table, files: Files) {
    forall id :: id in t ==> t[id].claimId == id && Beaten(AllRecords(files), t[id])
  }

  /** A live write keeps the table backed if and only if it, or a newer version, is on file. The
      compile worker writes the index before it commits the record, so a crash in between leaves
      a row that no file backs. */
  lemma LiveWriteBackedIff(t: Table, files: Files, v: Version)
    requires Backed(t, files)
    ensures Backed(Upsert(t, v), files) <==> Beaten(AllRecords(files), v)
  {
    hide AllRecords;
    var next := Upsert(t, v);
    if Backed(next, files) {
      assert v.claimId in next && v.number <= next[v.claimId].number;
    }
  }

  /** Once the record is appended to its month file the row is backed again. */
  lemma AppendKeepsBacked(t: Table, files: Files, grown: Files)
    requires Backed(t, files) && Grown(files, grown)
    ensures Backed(t, grown)
  {
    hide AllRecords;
    forall id | id in t ensures Beaten(AllRecords(grown), t[id]) {
      var v :| v in AllRecords(files) && v.claimId == id && t[id].number <= v.number;
      RecordsGrow(files, grown, v);
    }
  }

  lemma RecordsGrow(files: Files, grown: Files, v: Version)
    requires v in AllRecords(files) && Grown(files, grown)
    ensures v in AllRecords(grown)
  {
    var m, k: nat :| m in files && k < |files[m]| && files[m][k] == v;
    assert grown[m][k] == v && m in FullSizes(grown);
  }

  lemma BackedIsDominated(t: Table, fed: set<Version>, files: Files)
    requires Highest(t, fed)
    ensures Backed(t, files) <==> Dominates(AllRecords(files), fed + AllRecords(files))
  {
    hide AllRecords, Beaten, Highest;
    var all := AllRecords(files);
    forall v | v in all ensures Beaten(all, v) { BeatenBy(all, v, v); }
    forall id | id in t ensures t[id] in fed && t[id].claimId == id { RowIsFed(t, fed, id); }
    if Backed(t, files) {
      forall v | v in fed ensures Beaten(all, v) {
        HighestAt(t, fed, v);
        BeatenTransitive(all, t[v.claimId], v);
      }
    }
  }

  lemma RowIsFed(t: Table, fed: set<Version>, id: Id)
    requires Highest(t, fed) && id in t
    ensures t[id] in fed && t[id].claimId == id
  {
  }

  // ---- Batching ------------------------------------------------------------------------------------

  type Overlay = map<Fingerprint, Version>

  /** Everything a batching index holds: stored rows and overlay entries. */
  function Holdings(t: Table, pending: Overlay): set<Version> {
    (set id | id in t :: t[id]) + (set fp | fp in pending :: pending[fp])
  }

  /** The overlay entry that a write displaces is not needed: it is an older version of the same
      claim, or the index holds a version of that claim elsewhere that is not older. */
  ghost predicate Harmless(t: Table, pending: Overlay, v: Version) {
    v.fingerprint in pending ==>
      var w := pending[v.fingerprint];
      || (w.claimId == v.claimId && w.number <= v.number)
      || Beaten(Holdings(t, pending - {v.fingerprint}), w)
  }

  lemma HoldingsAfterWrite(t: Table, pending: Overlay, v: Version)
    ensures Holdings(t, pending[v.fingerprint := v]) == Holdings(t, pending - {v.fingerprint}) + {v}
    ensures Holdings(t, pending) == Holdings(t, pending - {v.fingerprint}) + if v.fingerprint in pending then {pending[v.fingerprint]} else {}
  {
    var fp := v.fingerprint;
    var now, rest := pending[fp := v], pending - {fp};
    forall x ensures x in Holdings(t, now) <==> x in Holdings(t, rest) + {v} {
      if x in Holdings(t, rest) && x !in (set id | id in t :: t[id]) {
        var f :| f in rest && rest[f] == x;
        assert f in now && now[f] == x;
      }
      if x == v { assert fp in now && now[fp] == v; }
      if x in Holdings(t, now) && x !in (set id | id in t :: t[id]) {
        var f :| f in now && now[f] == x;
        if f != fp { assert f in rest && rest[f] == x; }
      }
    }
    forall x ensures x in Holdings(t, pending) <==> x in Holdings(t, rest) || (fp in pending && x == pending[fp]) {
      if x in Holdings(t, pending) && x !in (set id | id in t :: t[id]) {
        var f :| f in pending && pending[f] == x;
        if f != fp { assert f in rest && rest[f] == x; }
      }
      if x in Holdings(t, rest) && x !in (set id | id in t :: t[id]) {
        var f :| f in rest && rest[f] == x;
        assert f in pending && pending[f] == x;
      }
    }
  }

  /** From a batch that agrees with unbatched writes, the next write leaves it agreeing if and only
      if the entry it displaces is not needed. */
  lemma WriteAgreesIff(t: Table, pending: Overlay, fed: set<Version>, v: Version)
    requires Holdings(t, pending) <= fed && Dominates(Holdings(t, pending), fed)
    ensures Dominates(Holdings(t, pending[v.fingerprint := v]), fed + {v}) <==> Harmless(t, pending, v)
  {
    hide Holdings, Beaten;
    HoldingsAfterWrite(t, pending, v);
    var fp := v.fingerprint;
    var rest, now := Holdings(t, pending - {fp}), Holdings(t, pending[fp := v]);
    if Harmless(t, pending, v) {
      forall x | x in fed + {v} ensures Beaten(now, x) {
        if x == v { BeatenBy(now, v, v); } else { StillBeaten(t, pending, v, x); }
      }
    }
    if Dominates(now, fed + {v}) && fp in pending {
      assert pending[fp] in fed + {v};
      BeatenByMore(rest, v, pending[fp]);
    }
  }

  lemma BeatenByMore(a: set<Version>, v: Version, w: Version)
    ensures Beaten(a + {v}, w) <==> Beaten(a, w) || (w.claimId == v.claimId && w.number <= v.number)
  {
    if Beaten(a, w) {
      var x :| x in a && x.claimId == w.claimId && w.number <= x.number;
      BeatenBy(a + {v}, w, x);
    }
    if w.claimId == v.claimId && w.number <= v.number { BeatenBy(a + {v}, w, v); }
  }

  lemma BeatenTransitive(a: set<Version>, w: Version, x: Version)
    requires Beaten(a, w) && w.claimId == x.claimId && x.number <= w.number
    ensures Beaten(a, x)
  {
  }

  lemma StillBeaten(t: Table, pending: Overlay, v: Version, x: Version)
    requires Beaten(Holdings(t, pending), x) && Harmless(t, pending, v)
    ensures Beaten(Holdings(t, pending[v.fingerprint := v]), x)
  {
    hide Holdings, Beaten;
    HoldingsAfterWrite(t, pending, v);
    var fp := v.fingerprint;
    var rest := Holdings(t, pending - {fp});
    BeatenByMore(rest, v, x);
    if fp in pending {
      var w := pending[fp];
      BeatenByMore(rest, w, x);
      if !Beaten(rest, x) && Beaten(rest, w) { BeatenTransitive(rest, w, x); }
    } else {
      assert Holdings(t, pending) == rest;
    }
  }

  /** The write extends a claim under its own fingerprint with a newer version, or starts one, and
      its overlay slot is free or its own. Stored claims may share the fingerprint. */
  predicate Fits(pending: Overlay, u: Table, v: Version) {
    && (v.claimId in u ==> u[v.claimId].fingerprint == v.fingerprint && u[v.claimId].number < v.number)
    && (v.fingerprint in pending ==> pending[v.fingerprint].claimId == v.claimId)
  }

  /** In a disciplined batch that is the whole condition: the slot is free, or holds an older version
      of the same claim. */
  lemma SlotRule(t: Table, pending: Overlay, u: Table, v: Version)
    requires StandsFor(t, pending, u)
    ensures Harmless(t, pending, v) <==>
      v.fingerprint !in pending || (pending[v.fingerprint].claimId == v.claimId && pending[v.fingerprint].number <= v.number)
  {
    var fp := v.fingerprint;
    if fp in pending {
      var w := pending[fp];
      assert Newest(t, u, fp, w);
      forall o | o in pending && o != fp ensures pending[o].claimId != w.claimId { assert Newest(t, u, o, pending[o]); }
    }
  }

  /** The answer to a dedup lookup: an active latest version with this fingerprint, or none. */
  predicate Answers(t: Table, fp: Fingerprint, r: Option<Version>) {
    match r
    case Some(v) => v.claimId in t && t[v.claimId] == v && v.fingerprint == fp && v.active
    case None => forall id :: id in t && t[id].fingerprint == fp ==> !t[id].active
  }

  /** An inactive overlay entry answers for its fingerprint although another claim is active there. */
  predicate Hidden(pending: Overlay, u: Table, fp: Fingerprint) {
    fp in pending && !pending[fp].active && exists id :: id in u && u[id].fingerprint == fp && u[id].active
  }

  /** The overlay `pending` over the stored table `t` stands for the unbatched table `u`. */
  ghost predicate StandsFor(t: Table, pending: Overlay, u: Table) {
    Stored(t, u) && PendingIsNewest(t, pending, u) && Complete(t, pending, u)
  }

  ghost predicate Stored(t: Table, u: Table) {
    && t.Keys <= u.Keys && (forall id :: id in t ==> t[id].claimId == id && t[id].fingerprint == u[id].fingerprint)
    && forall id :: id in u ==> u[id].claimId == id
  }

  ghost predicate PendingIsNewest(t: Table, pending: Overlay, u: Table) {
    forall fp :: fp in pending ==> Newest(t, u, fp, pending[fp])
  }

  ghost predicate Newest(t: Table, u: Table, fp: Fingerprint, v: Version) {
    v.fingerprint == fp && v.claimId in u && u[v.claimId] == v && (v.claimId in t ==> t[v.claimId].number < v.number)
  }

  ghost predicate Complete(t: Table, pending: Overlay, u: Table) {
    forall id :: id in u ==>
      (u[id].fingerprint in pending && pending[u[id].fingerprint] == u[id]) || (id in t && t[id] == u[id])
  }

  type Snapshot = map<Fingerprint, seq<Version>>

  /** The in-memory snapshot holds exactly the stored rows, by fingerprint. */
  ghost predicate Mirrors(snapshot: Snapshot, t: Table) {
    && (forall fp, v :: fp in snapshot && v in snapshot[fp] ==> v.claimId in t && t[v.claimId] == v && v.fingerprint == fp)
    && (forall id :: id in t ==> t[id].fingerprint in snapshot && t[id] in snapshot[t[id].fingerprint])
  }

  function Without(vs: seq<Version>, ids: set<Id>): (r: seq<Version>)
    ensures forall v :: v in r <==> v in vs && v.claimId !in ids
  {
    if vs == [] then []
    else
      assert vs == vs[..|vs| - 1] + [vs[|vs| - 1]];
      var rest := Without(vs[..|vs| - 1], ids);
      if vs[|vs| - 1].claimId in ids then rest else rest + [vs[|vs| - 1]]
  }

  function Kept(vs: set<Version>, ids: set<Id>): set<Version> { set v | v in vs && v.claimId !in ids }

  function KeptPending(pending: Overlay, ids: set<Id>): Overlay { map fp | fp in pending && pending[fp].claimId !in ids :: pending[fp] }

  lemma RemoveKeepsOverlay(t: Table, pending: Overlay, u: Table, ids: set<Id>)
    requires StandsFor(t, pending, u)
    ensures StandsFor(t - ids, KeptPending(pending, ids), u - ids)
  {
    var p := KeptPending(pending, ids);
    forall fp | fp in p ensures Newest(t - ids, u - ids, fp, p[fp]) { assert Newest(t, u, fp, pending[fp]); }
  }

  lemma RemoveKeepsHoldings(t: Table, pending: Overlay, fed: set<Version>, ids: set<Id>)
    requires Keyed(t)
    requires Holdings(t, pending) <= fed
    ensures Holdings(t - ids, KeptPending(pending, ids)) == Kept(Holdings(t, pending), ids) <= Kept(fed, ids)
    ensures Dominates(Holdings(t, pending), fed) ==> Dominates(Kept(Holdings(t, pending), ids), Kept(fed, ids))
  {
    var p := KeptPending(pending, ids);
    forall v ensures v in Holdings(t - ids, p) <==> v in Kept(Holdings(t, pending), ids) {
      if v in Kept(Holdings(t, pending), ids) {
        if v in (set id | id in t :: t[id]) {
          assert v.claimId in t - ids && (t - ids)[v.claimId] == v;
        } else {
          var fp :| fp in pending && pending[fp] == v;
          assert fp in p && p[fp] == v;
        }
      }
      if v in Holdings(t - ids, p) {
        if v in (set id | id in t - ids :: (t - ids)[id]) {
          var id :| id in t - ids && t[id] == v;
          assert v in Holdings(t, pending);
        } else {
          var fp :| fp in p && p[fp] == v;
          assert fp in pending && pending[fp] == v;
        }
      }
    }
    if Dominates(Holdings(t, pending), fed) {
      forall v | v in Kept(fed, ids) ensures Beaten(Kept(Holdings(t, pending), ids), v) {
        assert Beaten(Holdings(t, pending), v);
        var w :| w in Holdings(t, pending) && w.claimId == v.claimId && v.number <= w.number;
        BeatenBy(Kept(Holdings(t, pending), ids), v, w);
      }
    }
  }

  lemma RemoveKeepsHighest(t: Table, fed: set<Version>, ids: set<Id>)
    requires Highest(t, fed)
    ensures Highest(t - ids, Kept(fed, ids))
  {
  }

  lemma RemoveKeepsMirror(snapshot: Snapshot, t: Table, ids: set<Id>)
    requires Mirrors(snapshot, t) && Keyed(t)
    ensures Mirrors(map fp | fp in snapshot && Without(snapshot[fp], ids) != [] :: Without(snapshot[fp], ids), t - ids)
  {
    forall id | id in t - ids ensures t[id] in Without(snapshot[t[id].fingerprint], ids) {
    }
  }

  /** Writing one overlay entry through is safe: its version is newer than the stored one. */
  lemma FlushOne(t: Table, pending: Overlay, u: Table, fp: Fingerprint)
    requires StandsFor(t, pending, u) && fp in pending
    ensures StandsFor(Upsert(t, pending[fp]), pending - {fp}, u)
  {
    hide Complete, Newest;
    var v := pending[fp];
    var t', rest := Upsert(t, v), pending - {fp};
    FlushedRow(t, pending, u, fp);
    forall other | other in rest ensures Newest(t', u, other, rest[other]) {
      OtherClaim(t, pending, u, fp, other);
    }
    FlushKeepsComplete(t, pending, u, fp);
  }

  lemma FlushedRow(t: Table, pending: Overlay, u: Table, fp: Fingerprint)
    requires StandsFor(t, pending, u) && fp in pending
    ensures var v := pending[fp]; Upsert(t, v) == t[v.claimId := v] && v.claimId in u && u[v.claimId] == v
  {
    assert Newest(t, u, fp, pending[fp]);
  }

  lemma OtherClaim(t: Table, pending: Overlay, u: Table, fp: Fingerprint, other: Fingerprint)
    requires StandsFor(t, pending, u) && fp in pending && other in pending && other != fp
    ensures Newest(Upsert(t, pending[fp]), u, other, pending[other])
  {
    hide Complete;
    assert Newest(t, u, fp, pending[fp]) && Newest(t, u, other, pending[other]);
  }

  lemma FlushKeepsComplete(t: Table, pending: Overlay, u: Table, fp: Fingerprint)
    requires StandsFor(t, pending, u) && fp in pending
    ensures Complete(Upsert(t, pending[fp]), pending - {fp}, u)
  {
    FlushedRow(t, pending, u, fp);
  }

  predicate ByFingerprint(pending: Overlay) { forall fp :: fp in pending ==> pending[fp].fingerprint == fp }

  predicate Keyed(t: Table) { forall id :: id in t ==> t[id].claimId == id }

  lemma Held(t: Table, pending: Overlay, v: Version)
    requires Keyed(t)
    ensures v in Holdings(t, pending) <==> (v.claimId in t && t[v.claimId] == v) || (exists fp :: fp in pending && pending[fp] == v)
  {
    if v.claimId in t && t[v.claimId] == v { assert v in (set id | id in t :: t[id]); }
  }

  lemma FlushHolds(t: Table, rest: Overlay, fp: Fingerprint, x: Version)
    requires fp in rest && Keyed(t)
    ensures Keyed(Upsert(t, rest[fp]))
    ensures x in Holdings(Upsert(t, rest[fp]), rest - {fp}) ==> x in Holdings(t, rest)
    ensures x in Holdings(t, rest) ==> Beaten(Holdings(Upsert(t, rest[fp]), rest - {fp}), x)
  {
    hide Holdings, Beaten;
    var v := rest[fp];
    var t', rest' := Upsert(t, v), rest - {fp};
    UpsertKeepsKeys(t, v);
    Held(t, rest, x);
    Held(t', rest', x);
    if x in Holdings(t, rest) {
      if f :| f in rest && rest[f] == x && f != fp {
        assert f in rest' && rest'[f] == x;
        BeatenBy(Holdings(t', rest'), x, x);
      } else {
        assert x == v || (x.claimId in t && t[x.claimId] == x);
        var row := t'[x.claimId];
        Held(t', rest', row);
        BeatenBy(Holdings(t', rest'), x, row);
      }
    }
  }

  lemma FlushKeepsHoldings(t: Table, rest: Overlay, fp: Fingerprint, all: set<Version>)
    requires fp in rest && Keyed(t)
    requires Holdings(t, rest) <= all && Dominates(Holdings(t, rest), all)
    ensures var t', rest' := Upsert(t, rest[fp]), rest - {fp};
      Keyed(t') && Holdings(t', rest') <= all && Dominates(Holdings(t', rest'), all)
  {
    hide Holdings;
    var t', rest' := Upsert(t, rest[fp]), rest - {fp};
    UpsertKeepsKeys(t, rest[fp]);
    forall x | x in Holdings(t', rest') ensures x in all { FlushHolds(t, rest, fp, x); }
    forall x | x in all ensures Beaten(Holdings(t', rest'), x) {
      assert Beaten(Holdings(t, rest), x);
      var w :| w in Holdings(t, rest) && w.claimId == x.claimId && x.number <= w.number;
      FlushHolds(t, rest, fp, w);
      BeatenTransitive(Holdings(t', rest'), w, x);
    }
  }

  /** With the overlay empty the table is the highest of what was held. */
  lemma AllFlushed(t: Table, all: set<Version>)
    requires Keyed(t) && Holdings(t, map[]) <= all && Dominates(Holdings(t, map[]), all)
    ensures Highest(t, all)
  {
    hide Holdings, Beaten;
    forall v | v in all ensures v.claimId in t && v.number <= t[v.claimId].number { BeatenInRows(t, v); }
    forall id | id in t ensures t[id] in all { Held(t, map[], t[id]); }
  }

  lemma BeatenInRows(t: Table, v: Version)
    requires Keyed(t) && Beaten(Holdings(t, map[]), v)
    ensures v.claimId in t && v.number <= t[v.claimId].number
  {
    hide Holdings;
    var w :| w in Holdings(t, map[]) && w.claimId == v.claimId && v.number <= w.number;
    Held(t, map[], w);
  }

  lemma PendOne(t: Table, pending: Overlay, u: Table, v: Version)
    requires StandsFor(t, pending, u) && Fits(pending, u, v)
    ensures StandsFor(t, pending[v.fingerprint := v], Upsert(u, v))
  {
    hide Complete;
    var u' := u[v.claimId := v];
    assert Upsert(u, v) == u';
    CompleteStays(t, pending, u, v);
    forall fp | fp in pending && fp != v.fingerprint ensures Newest(t, u', fp, pending[fp]) {
      assert Newest(t, u, fp, pending[fp]);
    }
    if v.claimId in t { StoredIsOlder(t, pending, u, v.claimId); }
  }

  lemma CompleteStays(t: Table, pending: Overlay, u: Table, v: Version)
    requires Complete(t, pending, u) && Fits(pending, u, v) && forall id :: id in u ==> u[id].claimId == id
    ensures Complete(t, pending[v.fingerprint := v], u[v.claimId := v])
  {
  }

  lemma StoredIsOlder(t: Table, pending: Overlay, u: Table, id: Id)
    requires StandsFor(t, pending, u) && id in t
    ensures id in u && t[id].number <= u[id].number
  {
    if t[id] != u[id] { assert Newest(t, u, u[id].fingerprint, pending[u[id].fingerprint]); }
  }

  lemma NothingPending(t: Table, u: Table)
    requires StandsFor(t, map[], u)
    ensures t == u
  {
  }

  /** A disciplined batch agrees with unbatched writes. */
  lemma StandsForDominates(t: Table, pending: Overlay, u: Table, fed: set<Version>)
    requires StandsFor(t, pending, u) && Highest(u, fed)
    ensures Dominates(Holdings(t, pending), fed)
  {
    forall v | v in fed ensures Beaten(Holdings(t, pending), v) {
      BeatenBy(Holdings(t, pending), v, u[v.claimId]);
    }
  }

  class Index {
    var table: Table
    var synced: map<Month, nat>
    var batching: bool
    var pending: Overlay
    var snapshot: Snapshot
    /** The table an index without batching would hold, and the records it was fed. */
    ghost var unbatched: Table
    ghost var fed: set<Version>

    ghost predicate Valid()
      reads this
    {
      && Keyed(table)
      && Highest(unbatched, fed)
      && if batching then ByFingerprint(pending) && Holdings(table, pending) <= fed && Mirrors(snapshot, table) else unbatched == table
    }

    /** Flushing now would give the unbatched table (`FlushBatch`). */
    ghost predicate Agrees()
      reads this
    {
      batching ==> Dominates(Holdings(table, pending), fed)
    }

    /** The writes of this batch were disciplined (`Fits`). */
    ghost predicate Sound()
      reads this
    {
      batching ==> StandsFor(table, pending, unbatched)
    }

    constructor ()
      ensures Valid() && table == map[] && synced == map[] && !batching && fed == {}
    {
      table, synced, batching, pending, snapshot, unbatched, fed := map[], map[], false, map[], map[], map[], {};
    }

    method UpsertVersion(v: Version)
      requires Valid()
      modifies this
      ensures Valid() && batching == old(batching) && synced == old(synced)
      ensures unbatched == Upsert(old(unbatched), v) && fed == old(fed) + {v}
      ensures old(Agrees()) ==> (Agrees() <==> !batching || Harmless(table, old(pending), v))
      ensures old(Sound()) && (batching ==> Fits(old(pending), old(unbatched), v)) ==> Sound()
    {
      hide StandsFor, Mirrors, Fits, Holdings, Harmless, Highest, Dominates;
      UpsertKeepsHighest(unbatched, fed, v);
      if batching {
        if Sound() && Fits(pending, unbatched, v) { PendOne(table, pending, unbatched, v); }
        if Agrees() { WriteAgreesIff(table, pending, fed, v); }
        HoldingsAfterWrite(table, pending, v);
        pending := pending[v.fingerprint := v];
      } else {
        UpsertKeepsKeys(table, v);
        table := Upsert(table, v);
      }
      unbatched, fed := Upsert(unbatched, v), fed + {v};
    }

    /** In a batch the overlay answers first, then the snapshot; otherwise the stored rows do. In a
        disciplined batch the answer is right if and only if no inactive entry hides an active claim. */
    method ActiveByFingerprint(fp: Fingerprint) returns (r: Option<Version>)
      requires Valid()
      ensures r.Some? ==> r.value in Holdings(table, if batching then pending else map[]) && r.value.fingerprint == fp && r.value.active
      ensures Sound() ==> (Answers(unbatched, fp, r) <==> !(batching && Hidden(pending, unbatched, fp)))
    {
      if batching {
        if fp in pending {
          if Sound() { assert Newest(table, unbatched, fp, pending[fp]); }
          return if pending[fp].active then Some(pending[fp]) else None;
        }
        r := None;
        if fp in snapshot {
          var list := snapshot[fp];
          for k := 0 to |list|
            invariant r.None? && forall j :: 0 <= j < k ==> !list[j].active
          {
            if list[k].active {
              assert list[k] in list;
              return Some(list[k]);
            }
          }
          assert forall id :: id in table && table[id].fingerprint == fp ==> table[id] in list;
        }
        return None;
      }
      if id :| id in table && table[id].fingerprint == fp && table[id].active {
        return Some(table[id]);
      }
      return None;
    }

    /** Erasure reaches the overlay, the snapshot and the table. */
    method RemoveByClaimIds(ids: set<Id>)
      requires Valid()
      modifies this
      ensures Valid() && batching == old(batching) && synced == old(synced)
      ensures unbatched == old(unbatched) - ids && fed == Kept(old(fed), ids)
      ensures old(Agrees()) ==> Agrees()
      ensures old(Sound()) ==> Sound()
    {
      hide StandsFor, Mirrors, Holdings, Highest, Dominates, Without;
      RemoveKeepsHighest(unbatched, fed, ids);
      if batching {
        if Sound() { RemoveKeepsOverlay(table, pending, unbatched, ids); }
        RemoveKeepsHoldings(table, pending, fed, ids);
        RemoveKeepsMirror(snapshot, table, ids);
      }
      pending := KeptPending(pending, ids);
      snapshot := map fp | fp in snapshot && Without(snapshot[fp], ids) != [] :: Without(snapshot[fp], ids);
      table := table - ids;
      unbatched, fed := unbatched - ids, Kept(fed, ids);
    }

    /** Load the snapshot row by row. */
    method LoadSnapshot() returns (snap: Snapshot)
      requires Keyed(table)
      ensures Mirrors(snap, table)
    {
      snap := map[];
      var todo := table.Keys;
      while todo != {}
        invariant todo <= table.Keys
        invariant forall fp, v :: fp in snap && v in snap[fp] ==> v.claimId in table && table[v.claimId] == v && v.fingerprint == fp
        invariant forall id :: id in table && id !in todo ==> table[id].fingerprint in snap && table[id] in snap[table[id].fingerprint]
        decreases todo
      {
        var id :| id in todo;
        var v := table[id];
        snap := snap[v.fingerprint := (if v.fingerprint in snap then snap[v.fingerprint] else []) + [v]];
        todo := todo - {id};
      }
    }

    /** A batch over any table: forgotten claims and their successors may share fingerprints. */
    method BeginBatch()
      requires Valid()
      modifies this
      ensures Valid() && batching && unbatched == old(unbatched) && fed == old(fed) && table == old(table)
      ensures old(Sound()) ==> Sound()
      ensures old(Agrees()) ==> Agrees()
    {
      if batching { return; }
      var snap := LoadSnapshot();
      batching, pending, snapshot := true, map[], snap;
      StandsForDominates(table, pending, unbatched, fed);
    }

    /** One transaction for the whole overlay, in any order: the table is what unbatched writes would
        have left if and only if the batch agreed. */
    method FlushBatch()
      requires Valid()
      modifies this
      ensures Valid() && !batching && synced == old(synced)
      ensures old(Sound()) ==> table == old(unbatched) && fed == old(fed)
      ensures OneRecordPerVersion(old(fed)) ==> (table == old(unbatched) <==> old(Agrees()))
    {
      hide StandsFor, Mirrors, Holdings, Dominates, Highest, OneRecordPerVersion;
      if !batching { return; }
      var rest := pending;
      ghost var held := Holdings(table, pending);
      HoldsItself(held);
      while rest != map[]
        invariant batching && unbatched == old(unbatched) && fed == old(fed) && synced == old(synced)
        invariant old(Sound()) ==> StandsFor(table, rest, unbatched)
        invariant Keyed(table)
        invariant Holdings(table, rest) <= held && Dominates(Holdings(table, rest), held)
        decreases rest.Keys
      {
        var fp :| fp in rest;
        if old(Sound()) { FlushOne(table, rest, unbatched, fp); }
        FlushKeepsHoldings(table, rest, fp, held);
        table := Upsert(table, rest[fp]);
        rest := rest - {fp};
      }
      AllFlushed(table, held);
      HeldIsBeaten(held, fed);
      assert held + fed == fed;
      if OneRecordPerVersion(fed) { SameTableIff(table, held, unbatched, fed); }
      if old(Sound()) {
        NothingPending(table, unbatched);
      } else {
        fed := held;
      }
      unbatched := table;
      batching, pending := false, map[];
    }

    /** `discardBatch`: the overlay is dropped, the stored table stays. */
    method DiscardBatch()
      requires Valid()
      modifies this
      ensures Valid() && !batching && table == old(table) && synced == old(synced)
    {
      if batching {
        unbatched, fed := table, Holdings(table, map[]);
        assert Highest(unbatched, fed);
      }
      batching, pending := false, map[];
    }

    /** `indexMonth`: skip a month whose size is the recorded one. */
    method IndexMonth(files: Files, m: Month, force: bool)
      requires Valid() && !batching && m in files
      modifies this
      ensures Valid() && !batching && synced == old(synced)[m := |files[m]|]
      ensures fed == old(fed) + if Skips(old(synced), files, m, force) then {} else AsSet(files[m])
    {
      hide Highest;
      if !force && m in synced && synced[m] == |files[m]| {
        assert synced[m := |files[m]|] == synced;
        return;
      }
      for k := 0 to |files[m]|
        invariant Valid() && !batching && synced == old(synced) && fed == old(fed) + AsSet(files[m][..k])
      {
        UpsertVersion(files[m][k]);
        assert files[m][..k + 1] == files[m][..k] + [files[m][k]];
      }
      assert files[m][..|files[m]|] == files[m];
      synced := synced[m := |files[m]|];
    }

    /** `catchUp`, months in any order, whatever happened to index and files before; no month the index
        has seen is missing. */
    method CatchUp(files: Files, force: bool)
      requires Valid() && !batching && synced.Keys <= files.Keys
      modifies this
      ensures Valid() && !batching && synced == FullSizes(files)
      ensures fed == old(fed) + Fresh(files, old(synced), force)
    {
      hide Highest;
      var todo := files.Keys;
      ghost var before := synced;
      while todo != {}
        invariant Valid() && !batching && todo <= files.Keys && synced.Keys <= files.Keys
        invariant forall m :: m in todo ==> (m in synced <==> m in before) && (m in before ==> synced[m] == before[m])
        invariant forall m :: m in files && m !in todo ==> m in synced && synced[m] == |files[m]|
        invariant fed == old(fed) + FreshOf(files, before, force, files.Keys - todo)
        decreases todo
      {
        var m :| m in todo;
        FreshStep(files, before, force, files.Keys - todo, m);
        IndexMonth(files, m, force);
        assert files.Keys - (todo - {m}) == files.Keys - todo + {m};
        todo := todo - {m};
      }
      assert files.Keys - todo == files.Keys;
      FreshOfAll(files, before, force);
      assert synced == FullSizes(files);
    }

    method Rebuild(files: Files)
      requires !batching
      modifies this
      ensures Valid() && !batching && synced == FullSizes(files)
      ensures fed == AllRecords(files) && Highest(table, AllRecords(files))
    {
      table, synced, unbatched, fed := map[], map[], map[], {};
      FreshIsRecords(files, map[], true);
      CatchUp(files, true);
    }
  }

  /** The part of `Fresh` that lies in these months. */
  function FreshOf(files: Files, synced: map<Month, nat>, force: bool, months: set<Month>): set<Version> {
    set m, k: nat | m in months && m in files && !Skips(synced, files, m, force) && k < |files[m]| :: files[m][k]
  }

  lemma FreshOfAll(files: Files, synced: map<Month, nat>, force: bool)
    ensures FreshOf(files, synced, force, files.Keys) == Fresh(files, synced, force)
  {
  }

  lemma FreshStep(files: Files, synced: map<Month, nat>, force: bool, months: set<Month>, m: Month)
    requires m in files
    ensures FreshOf(files, synced, force, months + {m})
         == FreshOf(files, synced, force, months) + if Skips(synced, files, m, force) then {} else AsSet(files[m])
  {
    forall v ensures v in FreshOf(files, synced, force, months + {m})
      <==> v in FreshOf(files, synced, force, months) || (!Skips(synced, files, m, force) && v in AsSet(files[m]))
    {
      if v in AsSet(files[m]) && !Skips(synced, files, m, force) {
        var k :| 0 <= k < |files[m]| && files[m][k] == v;
        assert m in months + {m};
      }
    }
  }

  lemma UpsertKeepsKeys(t: Table, v: Version)
    requires Keyed(t)
    ensures Keyed(Upsert(t, v))
  {
  }

  lemma HoldsItself(held: set<Version>)
    ensures Dominates(held, held)
  {
    HeldIsBeaten(held, held);
  }

  lemma HeldIsBeaten(fewer: set<Version>, more: set<Version>)
    requires fewer <= more
    ensures Dominates(more, fewer)
  {
    hide Beaten;
    forall v | v in fewer ensures Beaten(more, v) { BeatenBy(more, v, v); }
  }

  lemma MonthIsRecords(files: Files, m: Month)
    requires m in files
    ensures AsSet(files[m]) <= AllRecords(files)
  {
    forall v | v in AsSet(files[m]) ensures v in AllRecords(files) {
      var k :| 0 <= k < |files[m]| && files[m][k] == v;
      assert m in FullSizes(files) && k < FullSizes(files)[m];
    }
  }

  function RowsOf(t: Table): set<Version> { set id | id in t :: t[id] }

  /** No skipped month holds a record newer than all the index has or is about to replay. */
  ghost predicate Covered(t: Table, synced: map<Month, nat>, files: Files) {
    forall m, v :: m in files && Skips(synced, files, m, false) && v in AsSet(files[m]) ==> Beaten(RowsOf(t) + Fresh(files, synced, false), v)
  }

  /** Rows beat what the records they came from beat. */
  lemma RowsBeat(t: Table, fed: set<Version>, more: set<Version>, v: Version)
    requires Highest(t, fed)
    ensures Beaten(RowsOf(t) + more, v) <==> Beaten(fed + more, v)
  {
    if Beaten(fed + more, v) {
      var w :| w in fed + more && w.claimId == v.claimId && v.number <= w.number;
      if w in fed { BeatenBy(RowsOf(t) + more, v, t[w.claimId]); } else { BeatenBy(RowsOf(t) + more, v, w); }
    }
    if Beaten(RowsOf(t) + more, v) {
      var w :| w in RowsOf(t) + more && w.claimId == v.claimId && v.number <= w.number;
      BeatenBy(fed + more, v, w);
    }
  }

  lemma CoveredIsDominated(t: Table, fed: set<Version>, synced: map<Month, nat>, files: Files)
    requires Highest(t, fed)
    ensures Covered(t, synced, files) <==> Dominates(fed + Fresh(files, synced, false), AllRecords(files))
  {
    hide Beaten, Highest;
    var unread := Fresh(files, synced, false);
    if Covered(t, synced, files) {
      forall v | v in AllRecords(files) ensures Beaten(fed + unread, v) {
        var m, k: nat :| m in files && k < |files[m]| && files[m][k] == v;
        RowsBeat(t, fed, unread, v);
        if !Skips(synced, files, m, false) { assert v in unread; BeatenBy(fed + unread, v, v); } else { assert v in AsSet(files[m]); }
      }
    }
    if Dominates(fed + unread, AllRecords(files)) {
      forall m, v | m in files && Skips(synced, files, m, false) && v in AsSet(files[m]) ensures Beaten(RowsOf(t) + unread, v) {
        MonthIsRecords(files, m);
        RowsBeat(t, fed, unread, v);
      }
    }
  }

  /** Size-keyed catch-up, after any replays, appends, erasures and live writes, equals a rebuild if and
      only if every row it held is backed by the files and no skipped month holds anything newer. */
  method CatchUpMatchesRebuildIff(index: Index, clean: Index, files: Files)
    requires index != clean && index.Valid() && !index.batching && !clean.batching && index.synced.Keys <= files.Keys
    requires OneRecordPerVersion(index.fed + AllRecords(files))
    modifies index, clean
    ensures index.synced == clean.synced
    ensures index.table == clean.table <==> old(Backed(index.table, files) && Covered(index.table, index.synced, files))
  {
    hide Highest, AllRecords, OneRecordPerVersion, Backed, Covered, Beaten, Fresh;
    ghost var fed, all, unread := index.fed, AllRecords(files), Fresh(files, index.synced, false);
    BackedIsDominated(index.table, fed, files);
    CoveredIsDominated(index.table, fed, index.synced, files);
    FreshIsRecords(files, index.synced, false);
    index.CatchUp(files, false);
    clean.Rebuild(files);
    assert Dominates(all, fed + all) <==> Dominates(all, fed + unread) by { HeldIsBeaten(all, all); }
    assert fed + unread + all == fed + all;
    SameTableIff(index.table, fed + unread, clean.table, all);
  }

  /** With nothing missed the second condition holds, so only the backing counts: on files that only
      grew, and right after an erasure. */
  lemma NothingMissedIsCovered(t: Table, fed: set<Version>, synced: map<Month, nat>, files: Files)
    requires Highest(t, fed) && NothingMissed(fed, synced, files)
    ensures Covered(t, synced, files)
  {
    hide Beaten, Highest;
    var unread := Fresh(files, synced, false);
    forall m, v | m in files && Skips(synced, files, m, false) && v in AsSet(files[m]) ensures Beaten(RowsOf(t) + unread, v) {
      BeatenBy(fed + unread, v, v);
      RowsBeat(t, fed, unread, v);
    }
  }

  /** The exception: a record appended to a month that lost one brings the month back to the recorded
      size. It is skipped, and if the record is newer than all the index knows, it is missing. */
  lemma SizeCoincidenceMisses(t: Table, synced: map<Month, nat>, files: Files, m: Month, v: Version)
    requires m in files && Skips(synced, files, m, false) && v in files[m]
    requires !Beaten(RowsOf(t) + Fresh(files, synced, false), v)
    ensures !Covered(t, synced, files)
  {
    hide Beaten;
    assert v in AsSet(files[m]);
  }

  /** The slot rule at work: a second claim under a fingerprint that the overlay holds for another
      new claim drops the first, and the flushed table is not the unbatched one. */
  lemma SharedFingerprintLosesClaim(t: Table, pending: Overlay, fed: set<Version>, a: Version, b: Version)
    requires Holdings(t, pending) <= fed && Dominates(Holdings(t, pending), fed)
    requires a.fingerprint == b.fingerprint && a.claimId != b.claimId
    requires forall v :: v in fed ==> v.claimId != a.claimId
    requires Harmless(t, pending, a)
    ensures var after := pending[a.fingerprint := a][b.fingerprint := b];
      !Dominates(Holdings(t, after), fed + {a} + {b})
  {
    hide Holdings, Dominates, Harmless;
    var once := pending[a.fingerprint := a];
    HoldingsAfterWrite(t, pending, a);
    WriteAgreesIff(t, pending, fed, a);
    WriteAgreesIff(t, once, fed + {a}, b);
    NotElsewhere(t, pending, fed, a, b);
  }

  lemma NotElsewhere(t: Table, pending: Overlay, fed: set<Version>, a: Version, b: Version)
    requires Holdings(t, pending) <= fed && a.fingerprint == b.fingerprint && a.claimId != b.claimId
    requires forall v :: v in fed ==> v.claimId != a.claimId
    ensures !Harmless(t, pending[a.fingerprint := a], b)
  {
    hide Holdings;
    HoldingsAfterWrite(t, pending, a);
    assert pending[a.fingerprint := a] - {b.fingerprint} == pending - {a.fingerprint};
  }
}
