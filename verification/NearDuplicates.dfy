/** Near-duplicate clustering: union-find with path halving over the similar-pair relation. */
module NearDuplicates {
  import opened Evidence

  datatype Claim = Claim(id: Id, active: bool, claimType: string, fingerprint: string, tokens: set<string>)

  const CLAIM_LIMIT: nat := 500
  const THRESHOLD: real := 0.82

  function Jaccard(a: set<string>, b: set<string>): real {
    if |a| == 0 || |b| == 0 then 0.0
    else
      UnionPositive(a, b);
      (|a * b| as real) / ((|a| + |b| - |a * b|) as real)
  }

  lemma UnionPositive(a: set<string>, b: set<string>)
    requires |a| > 0 && |b| > 0
    ensures |a| + |b| - |a * b| > 0
  {
    assert |a + b| == |a| + |b| - |a * b|;
    assert a <= a + b;
    assert a + b == a + (b - a);
  }

  predicate Similar(a: Claim, b: Claim) {
    && a.claimType == b.claimType
    && a.fingerprint != b.fingerprint
    && |a.tokens| >= 3 && |b.tokens| >= 3
    && Jaccard(a.tokens, b.tokens) >= THRESHOLD
  }

  // ---- Connected components ----------------------------------------------------------------

  /** The pairs unioned so far. */
  type Links = set<(nat, nat)>

  predicate Linked(links: Links, a: nat, b: nat) { (a, b) in links || (b, a) in links }

  predicate Walk(links: Links, p: seq<nat>) {
    p != [] && forall k :: 0 <= k < |p| - 1 ==> Linked(links, p[k], p[k + 1])
  }

  predicate WalkFrom(links: Links, a: nat, b: nat, p: seq<nat>) { Walk(links, p) && p[0] == a && p[|p| - 1] == b }

  /** Reflexive, symmetric, transitive closure of the links. */
  ghost predicate Connected(links: Links, a: nat, b: nat) { exists p :: WalkFrom(links, a, b, p) }

  lemma ConnectedSelf(links: Links, a: nat)
    ensures Connected(links, a, a)
  {
    assert WalkFrom(links, a, a, [a]);
  }

  lemma {:induction false} ConnectedSymmetric(links: Links, a: nat, b: nat)
    requires Connected(links, a, b)
    ensures Connected(links, b, a)
  {
    var p :| WalkFrom(links, a, b, p);
    var n := |p|;
    var q := seq(n, k requires 0 <= k < n => p[n - 1 - k]);
    forall k | 0 <= k < n - 1 ensures Linked(links, q[k], q[k + 1]) {
      assert Linked(links, p[n - 2 - k], p[n - 2 - k + 1]);
    }
    assert WalkFrom(links, b, a, q);
  }

  lemma ConnectedThen(links: Links, a: nat, b: nat, c: nat)
    requires Connected(links, a, b) && Connected(links, b, c)
    ensures Connected(links, a, c)
  {
    var p :| WalkFrom(links, a, b, p);
    var q :| WalkFrom(links, b, c, q);
    var r := p + q[1..];
    forall k | 0 <= k < |r| - 1 ensures Linked(links, r[k], r[k + 1]) {
      if k < |p| - 1 {
        assert Linked(links, p[k], p[k + 1]);
      } else {
        assert Linked(links, q[k - |p| + 1], q[k - |p| + 2]);
      }
    }
    assert WalkFrom(links, a, c, r);
  }

  lemma MoreLinks(links: Links, more: Links, a: nat, b: nat)
    requires links <= more && Connected(links, a, b)
    ensures Connected(more, a, b)
  {
    var p :| WalkFrom(links, a, b, p);
    assert WalkFrom(more, a, b, p);
  }

  /** A walk that may use the new link stays inside the merged class. */
  lemma {:induction false} WalkInMerged(links: Links, l: nat, r: nat, p: seq<nat>)
    requires Walk(links + {(l, r)}, p)
    ensures Connected(links, p[0], p[|p| - 1])
         || (Joins(links, l, r, p[0]) && Joins(links, l, r, p[|p| - 1]))
  {
    var n := |p| - 1;
    if n == 0 {
      ConnectedSelf(links, p[0]);
    } else {
      assert forall k :: 0 <= k < n - 1 ==> Linked(links + {(l, r)}, p[..n][k], p[..n][k + 1]) by {
        forall k | 0 <= k < n - 1 ensures Linked(links + {(l, r)}, p[..n][k], p[..n][k + 1]) { assert Linked(links + {(l, r)}, p[k], p[k + 1]); }
      }
      WalkInMerged(links, l, r, p[..n]);
      assert Linked(links + {(l, r)}, p[n - 1], p[n]);
      if Linked(links, p[n - 1], p[n]) {
        assert WalkFrom(links, p[n - 1], p[n], [p[n - 1], p[n]]);
        assert WalkFrom(links, p[n], p[n - 1], [p[n], p[n - 1]]);
        if Connected(links, p[0], p[n - 1]) {
          ConnectedThen(links, p[0], p[n - 1], p[n]);
        } else {
          JoinsMoves(links, l, r, p[n - 1], p[n]);
        }
      } else {
        ConnectedSelf(links, l);
        ConnectedSelf(links, r);
        assert Joins(links, l, r, p[n]);
        assert p[n - 1] == l || p[n - 1] == r;
        assert Joins(links, l, r, p[0]);
      }
    }
  }

  ghost predicate Joins(links: Links, l: nat, r: nat, x: nat) { Connected(links, x, l) || Connected(links, x, r) }

  lemma JoinsMoves(links: Links, l: nat, r: nat, x: nat, y: nat)
    requires Joins(links, l, r, x) && Connected(links, y, x)
    ensures Joins(links, l, r, y)
  {
    if Connected(links, x, l) { ConnectedThen(links, y, x, l); } else { ConnectedThen(links, y, x, r); }
  }

  /** Adding one link merges exactly the two classes it joins. */
  lemma AddLink(links: Links, l: nat, r: nat, a: nat, b: nat)
    ensures Connected(links + {(l, r)}, a, b) <==>
      Connected(links, a, b) || (Joins(links, l, r, a) && Joins(links, l, r, b))
  {
    var more := links + {(l, r)};
    if Connected(more, a, b) {
      var p :| WalkFrom(more, a, b, p);
      WalkInMerged(links, l, r, p);
    }
    if Connected(links, a, b) {
      MoreLinks(links, more, a, b);
    }
    if Joins(links, l, r, a) && Joins(links, l, r, b) {
      assert WalkFrom(more, l, r, [l, r]) && WalkFrom(more, r, l, [r, l]);
      JoinedReaches(links, l, r, a);
      JoinedReaches(links, l, r, b);
      ConnectedSymmetric(more, b, l);
      ConnectedThen(more, a, l, b);
    }
  }

  lemma JoinedReaches(links: Links, l: nat, r: nat, x: nat)
    requires Joins(links, l, r, x)
    ensures Connected(links + {(l, r)}, x, l)
  {
    var more := links + {(l, r)};
    assert WalkFrom(more, r, l, [r, l]);
    if Connected(links, x, l) {
      MoreLinks(links, more, x, l);
    } else {
      MoreLinks(links, more, x, r);
      ConnectedThen(more, x, r, l);
    }
  }

  // ---- The parent array ----------------------------------------------------------------------

  /** A forest: `root` names each node's root, and `rank` strictly rises along every parent
      step, below `top`. */
  predicate WellFounded(p: seq<nat>, root: seq<nat>, rank: seq<nat>, top: nat) {
    && |p| == |root| == |rank|
    && (forall i {:trigger p[i]} :: 0 <= i < |p| ==> p[i] < |p| && root[p[i]] == root[i])
    && (forall i {:trigger p[i]} :: 0 <= i < |p| && p[i] == i ==> root[i] == i)
    && (forall i {:trigger p[i]} :: 0 <= i < |p| && p[i] != i ==> rank[i] < rank[p[i]])
    && (forall i :: 0 <= i < |p| ==> root[i] < |p|)
    && (forall i :: 0 <= i < |p| ==> rank[i] < top)
  }

  /** Pointing a node at its grandparent changes no root. */
  lemma HalvingKeepsRoots(p: seq<nat>, root: seq<nat>, rank: seq<nat>, top: nat, i: nat)
    requires WellFounded(p, root, rank, top) && i < |p|
    ensures WellFounded(p[i := p[p[i]]], root, rank, top)
    ensures p[i] != i ==> rank[i] < rank[p[p[i]]]
  {
  }

  /** Hanging one root under another merges their trees. */
  lemma HangingMerges(p: seq<nat>, root: seq<nat>, rank: seq<nat>, top: nat, left: nat, right: nat) returns (rank': seq<nat>)
    requires WellFounded(p, root, rank, top) && left < |p| && right < |p| && root[left] != root[right]
    requires p[root[left]] == root[left] && p[root[right]] == root[right]
    ensures WellFounded(p[root[right] := root[left]], Merged(root, left, right), rank', top + 1)
  {
    var l, r := root[left], root[right];
    assert root[l] == l && root[r] == r;
    rank' := rank[l := if rank[l] > rank[r] then rank[l] else rank[r] + 1];
    var p', root' := p[r := l], Merged(root, left, right);
    forall i | 0 <= i < |p| ensures root'[p'[i]] == root'[i] {
      assert root[p[i]] == root[i];
    }
  }

  /** `parents`, changed in place. */
  class Forest {
    const parents: array<nat>
    ghost var root: seq<nat>
    ghost var rank: seq<nat>
    ghost var top: nat

    ghost predicate Valid()
      reads this, parents
    {
      WellFounded(parents[..], root, rank, top)
    }

    /** Every node starts as its own root. */
    constructor (n: nat)
      ensures Valid() && parents.Length == n && fresh(parents)
      ensures root == seq(n, i => i)
    {
      parents := new nat[n](i => i);
      root := seq(n, i => i);
      rank := seq(n, i => 0);
      top := 1;
    }

    /** `find` with path halving: terminates because the rank rises, returns the root, and
        leaves every node's root as it was. */
    method Find(start: nat) returns (r: nat)
      requires Valid() && start < parents.Length
      modifies parents
      ensures Valid() && r == root[start] && r < parents.Length && parents[r] == r
    {
      var index: nat := start;
      while parents[index] != index
        invariant index < parents.Length == |root| == |rank|
        invariant WellFounded(parents[..], root, rank, top)
        invariant root[index] == root[start]
        decreases top - rank[index]
      {
        ghost var before := parents[..];
        HalvingKeepsRoots(before, root, rank, top, index);
        parents[index] := parents[parents[index]];
        assert parents[..] == before[index := before[before[index]]];
        index := parents[index];
      }
      r := index;
    }

    /** `union`: the right root is hung under the left root. */
    method Union(left: nat, right: nat)
      requires Valid() && left < parents.Length && right < parents.Length
      modifies this, parents
      ensures Valid()
      ensures root == Merged(old(root), left, right)
    {
      var leftRoot := Find(left);
      var rightRoot := Find(right);
      assert parents[leftRoot] == leftRoot by { RootIsFixed(parents[..], root, rank, top, left, leftRoot); }
      if leftRoot != rightRoot {
        ghost var before := parents[..];
        ghost var rank' := HangingMerges(before, root, rank, top, left, right);
        parents[rightRoot] := leftRoot;
        assert parents[..] == before[rightRoot := leftRoot];
        root, rank, top := Merged(root, left, right), rank', top + 1;
      } else {
        assert Merged(root, left, right) == root;
      }
    }
  }

  /** A node's root is a fixed point of the parent array: nothing ranks above the top of a tree. */
  lemma {:induction false} RootIsFixed(p: seq<nat>, root: seq<nat>, rank: seq<nat>, top: nat, i: nat, r: nat)
    requires WellFounded(p, root, rank, top) && i < |p| && r == root[i]
    ensures p[r] == r
    decreases top - rank[i]
  {
    if p[i] != i {
      RootIsFixed(p, root, rank, top, p[i], r);
    }
  }

  function Merged(root: seq<nat>, left: nat, right: nat): seq<nat>
    requires left < |root| && right < |root|
  {
    seq(|root|, i requires 0 <= i < |root| => if root[i] == root[right] then root[left] else root[i])
  }

  /** The roots partition the nodes as the links do. */
  ghost predicate Classes(root: seq<nat>, links: Links) {
    forall a, b :: 0 <= a < |root| && 0 <= b < |root| ==> (root[a] == root[b] <==> Connected(links, a, b))
  }

  lemma MergeFollowsLink(root: seq<nat>, links: Links, l: nat, r: nat)
    requires l < |root| && r < |root| && Classes(root, links)
    ensures Classes(Merged(root, l, r), links + {(l, r)})
  {
    var now := Merged(root, l, r);
    forall a, b | 0 <= a < |now| && 0 <= b < |now| ensures now[a] == now[b] <==> Connected(links + {(l, r)}, a, b) {
      AddLink(links, l, r, a, b);
    }
  }

  // ---- The clusters ----------------------------------------------------------------------------

  /** All similar pairs among the first `i` claims on the left and, for claim `i`, up to `j`. */
  function PairsUpTo(claims: seq<Claim>, i: nat, j: nat): Links
    requires i <= |claims| && j <= |claims|
  {
    set a: nat, b: nat | a < |claims| && b < |claims| && a < b && (a < i || (a == i && b < j)) && Similar(claims[a], claims[b]) :: (a, b)
  }

  function SimilarPairs(claims: seq<Claim>): Links { PairsUpTo(claims, |claims|, 0) }

  /** The links in the fields: same type, other fingerprint, three tokens at least on either side, and
      41 in 50 of all their tokens shared. */
  lemma LinksAre(claims: seq<Claim>, a: nat, b: nat)
    ensures (a, b) in SimilarPairs(claims) <==>
      && a < b < |claims|
      && claims[a].claimType == claims[b].claimType && claims[a].fingerprint != claims[b].fingerprint
      && |claims[a].tokens| >= 3 && |claims[b].tokens| >= 3
      && 50 * |claims[a].tokens * claims[b].tokens| >= 41 * |claims[a].tokens + claims[b].tokens|
  {
    if a < b < |claims| && |claims[a].tokens| >= 3 && |claims[b].tokens| >= 3 { SharedTokens(claims[a].tokens, claims[b].tokens); }
  }

  lemma SharedTokens(a: set<string>, b: set<string>)
    requires |a| > 0 && |b| > 0
    ensures Jaccard(a, b) >= THRESHOLD <==> 50 * |a * b| >= 41 * |a + b|
  {
    UnionPositive(a, b);
    assert |a + b| == |a| + |b| - |a * b|;
    RatioAtLeast(|a * b|, |a + b|);
  }

  lemma RatioAtLeast(x: nat, u: nat)
    requires u > 0
    ensures x as real / u as real >= 0.82 <==> 50 * x >= 41 * u
  {
    QuotientAtLeast(x as real, u as real, 0.82);
    assert 50.0 * x as real == (50 * x) as real && 41.0 * u as real == (41 * u) as real;
  }

  lemma QuotientAtLeast(x: real, u: real, r: real)
    requires u > 0.0
    ensures x / u >= r <==> x >= r * u
  {
  }

  lemma PairStep(claims: seq<Claim>, i: nat, j: nat)
    requires i < j < |claims|
    ensures Similar(claims[i], claims[j]) ==> PairsUpTo(claims, i, j + 1) == PairsUpTo(claims, i, j) + {(i, j)}
    ensures !Similar(claims[i], claims[j]) ==> PairsUpTo(claims, i, j + 1) == PairsUpTo(claims, i, j)
  {
  }

  lemma RowStep(claims: seq<Claim>, i: nat)
    requires i < |claims|
    ensures PairsUpTo(claims, i, i + 1) == PairsUpTo(claims, i, 0)
    ensures PairsUpTo(claims, i, |claims|) == PairsUpTo(claims, i + 1, 0)
  {
  }

  lemma NoLinks(n: nat, claims: seq<Claim>)
    ensures Classes(seq(n, i => i), PairsUpTo(claims, 0, 0))
  {
    assert PairsUpTo(claims, 0, 0) == {};
    forall a: nat, b: nat ensures a == b <==> Connected({}, a, b) {
      ConnectedSelf({}, a);
      if Connected({}, a, b) {
        var p :| WalkFrom({}, a, b, p);
        assert |p| == 1 by { assert |p| > 1 ==> Linked({}, p[0], p[1]); }
      }
    }
  }

  /** The nested loop over pairs. */
  method UnionSimilar(claims: seq<Claim>) returns (f: Forest)
    ensures fresh(f) && fresh(f.parents) && f.Valid() && f.parents.Length == |claims|
    ensures Classes(f.root, SimilarPairs(claims))
  {
    f := new Forest(|claims|);
    NoLinks(|claims|, claims);
    for left := 0 to |claims|
      invariant fresh(f) && fresh(f.parents) && f.Valid() && f.parents.Length == |claims|
      invariant Classes(f.root, PairsUpTo(claims, left, 0))
    {
      RowStep(claims, left);
      for right := left + 1 to |claims|
        invariant fresh(f) && fresh(f.parents) && f.Valid() && f.parents.Length == |claims|
        invariant Classes(f.root, PairsUpTo(claims, left, right))
      {
        PairStep(claims, left, right);
        if Similar(claims[left], claims[right]) {
          MergeFollowsLink(f.root, PairsUpTo(claims, left, right), left, right);
          f.Union(left, right);
        }
      }
    }
  }

  predicate Ascending(s: seq<nat>) { forall i, j :: 0 <= i < j < |s| ==> s[i] < s[j] }

  /** The nodes below `n` whose root is `r`. */
  predicate MembersAre(ids: seq<nat>, root: seq<nat>, r: nat, n: nat)
    requires n <= |root|
  {
    && (forall i :: i in ids ==> i < n && root[i] == r)
    && (forall i :: 0 <= i < n && root[i] == r ==> i in ids)
  }

  lemma AppendAscending(s: seq<nat>, x: nat)
    requires Ascending(s) && forall y :: y in s ==> y < x
    ensures Ascending(s + [x])
  {
    assert forall k :: 0 <= k < |s| ==> s[k] in s;
  }

  /** Group indices by root, in index order: `clusters.get(root) ?? []` then push. */
  method GroupByRoot(f: Forest, n: nat) returns (clusters: map<nat, seq<nat>>)
    requires f.Valid() && f.parents.Length == n
    modifies f.parents
    ensures f.Valid()
    ensures forall r :: r in clusters ==> clusters[r] != [] && Ascending(clusters[r])
    ensures forall r :: r in clusters ==> MembersAre(clusters[r], f.root, r, n)
    ensures forall i :: 0 <= i < n ==> f.root[i] in clusters
  {
    clusters := map[];
    for index := 0 to n
      invariant f.Valid()
      invariant forall r :: r in clusters ==> clusters[r] != [] && Ascending(clusters[r])
      invariant forall r :: r in clusters ==> MembersAre(clusters[r], f.root, r, index)
      invariant forall i :: 0 <= i < index ==> f.root[i] in clusters
    {
      var r := f.Find(index);
      var ids := if r in clusters then clusters[r] else [];
      AppendAscending(ids, index);
      clusters := clusters[r := ids + [index]];
    }
  }

  function ActiveClaims(claims: seq<Claim>): seq<Claim> {
    if claims == [] then []
    else
      var rest := ActiveClaims(claims[..|claims| - 1]);
      if claims[|claims| - 1].active then rest + [claims[|claims| - 1]] else rest
  }

  /** The review cohort: the first `CLAIM_LIMIT` active claims. */
  function Cohort(claims: seq<Claim>): (r: seq<Claim>)
    ensures |r| <= CLAIM_LIMIT
  {
    var active := ActiveClaims(claims);
    if |active| <= CLAIM_LIMIT then active else active[..CLAIM_LIMIT]
  }

  /** The places, in order, of the active claims, all of them or the first 500. */
  ghost predicate ActivePlaces(claims: seq<Claim>, cohort: seq<Claim>, at: seq<nat>) {
    && |at| == |cohort| <= 500 && Ascending(at)
    && (forall k :: 0 <= k < |at| ==> at[k] < |claims| && cohort[k] == claims[at[k]] && claims[at[k]].active)
    && (forall i :: 0 <= i < |claims| && claims[i].active ==> i in at || (|at| == 500 && at[499] < i))
  }

  /** All active claims with their places. */
  ghost predicate AllPlaces(claims: seq<Claim>, active: seq<Claim>, at: seq<nat>) {
    && |at| == |active| && Ascending(at)
    && (forall k :: 0 <= k < |at| ==> at[k] < |claims| && active[k] == claims[at[k]] && claims[at[k]].active)
    && (forall i :: 0 <= i < |claims| && claims[i].active ==> i in at)
  }

  lemma PlacesGrow(claims: seq<Claim>, active: seq<Claim>, at: seq<nat>, c: Claim)
    requires AllPlaces(claims, active, at)
    ensures if c.active then AllPlaces(claims + [c], active + [c], at + [|claims|]) else AllPlaces(claims + [c], active, at)
  {
    var longer := claims + [c];
    assert forall i :: 0 <= i < |claims| ==> longer[i] == claims[i];
    forall i | 0 <= i < |claims| && longer[i].active ensures i in at { assert claims[i].active; }
  }

  lemma {:induction false} ActiveAt(claims: seq<Claim>) returns (at: seq<nat>)
    ensures AllPlaces(claims, ActiveClaims(claims), at)
  {
    at := [];
    if claims != [] {
      hide AllPlaces;
      var n := |claims| - 1;
      at := ActiveAt(claims[..n]);
      PlacesGrow(claims[..n], ActiveClaims(claims[..n]), at, claims[n]);
      assert claims == claims[..n] + [claims[n]];
      if claims[n].active { at := at + [n]; }
    }
  }

  lemma CohortIs(claims: seq<Claim>)
    ensures exists at :: ActivePlaces(claims, Cohort(claims), at)
  {
    var all := ActiveAt(claims);
    var at := if |all| <= 500 then all else all[..500];
    forall i | 0 <= i < |claims| && claims[i].active ensures i in at || (|at| == 500 && at[499] < i) {
      var k :| 0 <= k < |all| && all[k] == i;
      if k < |at| { assert at[k] == i; }
    }
    assert ActivePlaces(claims, Cohort(claims), at);
  }

  /** `nearDuplicateCandidates`: the clusters with more than one member are exactly the
      connected components, of two claims or more, of the similar-pair relation. */
  method NearDuplicateCandidates(claims: seq<Claim>) returns (cohort: seq<Claim>, candidates: set<seq<nat>>)
    ensures exists at :: ActivePlaces(claims, cohort, at)
    ensures forall c :: c in candidates ==> |c| > 1 && Ascending(c) && forall i :: i in c ==> i < |cohort|
    ensures forall c, a: nat, b: nat :: c in candidates && a in c ==>
      (b in c <==> b < |cohort| && Connected(SimilarPairs(cohort), a, b))
    ensures forall a: nat, b: nat :: a < b < |cohort| && Connected(SimilarPairs(cohort), a, b) ==>
      exists c :: c in candidates && a in c && b in c
  {
    cohort := Cohort(claims);
    CohortIs(claims);
    var f := UnionSimilar(cohort);
    var clusters := GroupByRoot(f, |cohort|);
    candidates := set r | r in clusters && |clusters[r]| > 1 :: clusters[r];
    forall c | c in candidates ensures |c| > 1 && Ascending(c) && forall i :: i in c ==> i < |cohort| {
      var r :| r in clusters && c == clusters[r];
    }
    forall a: nat, b: nat | a < b < |cohort| && Connected(SimilarPairs(cohort), a, b)
      ensures exists c :: c in candidates && a in c && b in c
    {
      var c := clusters[f.root[a]];
      assert a in c && b in c;
      TwoMembers(c, a, b);
    }
  }

  lemma TwoMembers(c: seq<nat>, a: nat, b: nat)
    requires a in c && b in c && a != b
    ensures |c| > 1
  {
  }
}
