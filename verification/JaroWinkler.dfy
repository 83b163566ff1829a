/** Jaro-Winkler similarity of entity names, over UTF-16 code units. */
module JaroWinkler {
  import opened Evidence

  type Unit = u: int | 0 <= u < 0x10000
  type Text = seq<Unit>

  function Count(s: seq<bool>): nat {
    if s == [] then 0 else Count(s[..|s| - 1]) + if s[|s| - 1] then 1 else 0
  }

  lemma {:induction false} CountBounds(s: seq<bool>)
    ensures Count(s) <= |s|
    ensures Count(s) == |s| <==> forall i :: 0 <= i < |s| ==> s[i]
  {
    if s != [] { CountBounds(s[..|s| - 1]); }
  }

  lemma {:induction false} CountSplit(s: seq<bool>, t: seq<bool>)
    ensures Count(s + t) == Count(s) + Count(t)
  {
    if t == [] {
      assert s + t == s;
    } else {
      assert (s + t)[..|s + t| - 1] == s + t[..|t| - 1];
      CountSplit(s, t[..|t| - 1]);
    }
  }

  /** Setting a clear flag adds one. */
  lemma CountSet(s: seq<bool>, i: nat)
    requires i < |s| && !s[i]
    ensures Count(s[i := true]) == Count(s) + 1
  {
    var t := s[i := true];
    assert s == s[..i] + [s[i]] + s[i + 1..] && t == s[..i] + [true] + s[i + 1..];
    CountSplit(s[..i] + [s[i]], s[i + 1..]);
    CountSplit(s[..i] + [true], s[i + 1..]);
    CountSplit(s[..i], [s[i]]);
    CountSplit(s[..i], [true]);
    assert Count([s[i]]) == 0 && Count([true]) == 1 by { assert [s[i]][..0] == [] && [true][..0] == []; }
  }

  lemma {:induction false} NoneSet(s: seq<bool>)
    requires forall i :: 0 <= i < |s| ==> !s[i]
    ensures Count(s) == 0
  {
    if s != [] { NoneSet(s[..|s| - 1]); }
  }

  // ---- Matching --------------------------------------------------------------------------------

  /** For each unit of the first string, the unit of the second it was matched with. */
  type Pairs = seq<Option<nat>>

  function Distance(n1: nat, n2: nat): int { (if n1 > n2 then n1 else n2) / 2 - 1 }

  /** Unit `j` of the second string may match the next unit of the first: inside the window, the
      same unit, and not taken by an earlier one. */
  predicate Open(s1: Text, s2: Text, before: Pairs, j: nat)
    requires |before| < |s1|
  {
    var i, d := |before|, Distance(|s1|, |s2|);
    j < |s2| && i - d <= j <= i + d && s1[i] == s2[j] && Some(j) !in before
  }

  /** The window: two units may match when twice their distance, and two more, does not exceed the
      longer string. */
  lemma OpenIff(s1: Text, s2: Text, before: Pairs, j: nat)
    requires |before| < |s1|
    ensures var i := |before|;
      var apart := if i < j then j - i else i - j;
      Open(s1, s2, before, j) <==>
        && j < |s2| && s1[i] == s2[j] && Some(j) !in before
        && (2 * apart + 2 <= |s1| || 2 * apart + 2 <= |s2|)
  {
  }

  /** The first open unit, if there is one. */
  ghost predicate FirstOpen(s1: Text, s2: Text, before: Pairs, found: Option<nat>)
    requires |before| < |s1|
  {
    match found
    case None => forall j: nat :: !Open(s1, s2, before, j)
    case Some(j) => Open(s1, s2, before, j) && forall k: nat :: k < j ==> !Open(s1, s2, before, k)
  }

  /** Every unit of the first string in turn takes the first open unit of the second. */
  ghost predicate FirstFit(s1: Text, s2: Text, p: Pairs) {
    |p| <= |s1| && forall i :: 0 <= i < |p| ==> FirstOpen(s1, s2, p[..i], p[i])
  }

  /** There is only one such matching. */
  lemma {:induction false} FirstFitIsUnique(s1: Text, s2: Text, p: Pairs, q: Pairs)
    requires FirstFit(s1, s2, p) && FirstFit(s1, s2, q) && |p| == |q|
    ensures p == q
  {
    hide Open;
    if p != [] {
      var n := |p| - 1;
      assert forall i :: 0 <= i < n ==> p[..n][..i] == p[..i] && q[..n][..i] == q[..i];
      FirstFitIsUnique(s1, s2, p[..n], q[..n]);
      assert FirstOpen(s1, s2, p[..n], p[n]) && FirstOpen(s1, s2, q[..n], q[n]);
      assert p[n] == q[n] by {
        if p[n].Some? && q[n].Some? { assert !(p[n].value < q[n].value) && !(q[n].value < p[n].value); }
      }
      assert p == p[..n] + [p[n]] && q == q[..n] + [q[n]];
    }
  }

  function MatchedLeft(p: Pairs): (f: seq<bool>)
    ensures |f| == |p| && forall i :: 0 <= i < |p| ==> f[i] == p[i].Some?
  {
    seq(|p|, i requires 0 <= i < |p| => p[i].Some?)
  }

  function MatchedRight(p: Pairs, n2: nat): (f: seq<bool>)
    ensures |f| == n2 && forall j :: 0 <= j < n2 ==> f[j] == (Some(j) in p)
  {
    seq(n2, j requires 0 <= j < n2 => Some(j) in p)
  }

  /** The inner loop: the first unit of the window that is free and the same. */
  method FindOpen(s1: Text, s2: Text, f2: array<bool>, i: nat, ghost before: Pairs) returns (found: Option<nat>)
    requires |before| == i < |s1| && f2.Length == |s2| && forall j :: 0 <= j < |s2| ==> f2[j] == (Some(j) in before)
    ensures FirstOpen(s1, s2, before, found)
  {
    var matchDist := Distance(|s1|, |s2|);
    var start := if i - matchDist > 0 then i - matchDist else 0;
    var end := if i + matchDist + 1 < |s2| then i + matchDist + 1 else |s2|;
    var j := start;
    while j < end
      invariant start <= j && forall k: nat :: k < j ==> !Open(s1, s2, before, k)
    {
      if !f2[j] && s1[i] == s2[j] {
        return Some(j);
      }
      j := j + 1;
    }
    return None;
  }

  /** The two flag arrays: each match sets one flag on either side, and together they are the
      first-fit matching. */
  method MatchFlags(s1: Text, s2: Text, f1: array<bool>, f2: array<bool>) returns (matches: nat, ghost p: Pairs)
    requires f1.Length == |s1| && f2.Length == |s2| && f1 != f2
    requires (forall i :: 0 <= i < |s1| ==> !f1[i]) && (forall j :: 0 <= j < |s2| ==> !f2[j])
    modifies f1, f2
    ensures FirstFit(s1, s2, p) && |p| == |s1| && f1[..] == MatchedLeft(p) && f2[..] == MatchedRight(p, |s2|)
    ensures matches == Count(f1[..]) == Count(f2[..])
  {
    hide Open, Count;
    matches, p := 0, [];
    NoneSet(f1[..]);
    NoneSet(f2[..]);
    for i := 0 to |s1|
      invariant |p| == i && FirstFit(s1, s2, p)
      invariant forall k :: 0 <= k < |s1| ==> f1[k] == (k < i && p[k].Some?)
      invariant forall j :: 0 <= j < |s2| ==> f2[j] == (Some(j) in p)
      invariant matches == Count(f1[..]) == Count(f2[..])
    {
      var found := FindOpen(s1, s2, f2, i, p);
      if found.Some? {
        var j := found.value;
        OpenIsFree(s1, s2, p, j);
        CountSet(f1[..], i);
        CountSet(f2[..], j);
        ghost var was1, was2 := f1[..], f2[..];
        f1[i] := true;
        f2[j] := true;
        assert f1[..] == was1[i := true] && f2[..] == was2[j := true];
        matches := matches + 1;
      }
      FirstFitGrows(s1, s2, p, found);
      p := p + [found];
    }
    assert f1[..] == MatchedLeft(p) && f2[..] == MatchedRight(p, |s2|);
  }

  lemma OpenIsFree(s1: Text, s2: Text, before: Pairs, j: nat)
    requires |before| < |s1| && Open(s1, s2, before, j)
    ensures j < |s2| && Some(j) !in before
  {
  }

  lemma FirstFitGrows(s1: Text, s2: Text, p: Pairs, found: Option<nat>)
    requires |p| < |s1| && FirstFit(s1, s2, p) && FirstOpen(s1, s2, p, found)
    ensures FirstFit(s1, s2, p + [found])
  {
    hide FirstOpen;
    var q := p + [found];
    forall i | 0 <= i < |q| ensures FirstOpen(s1, s2, q[..i], q[i]) {
      assert q[..i] == p[..i];
      if i == |p| { assert p[..i] == p; }
    }
  }

  // ---- Transpositions ----------------------------------------------------------------------------

  /** The flagged units, in order. */
  function Selected(s: Text, f: seq<bool>): (r: Text)
    requires |s| == |f|
    ensures |r| == Count(f)
  {
    if s == [] then []
    else
      var n := |s| - 1;
      Selected(s[..n], f[..n]) + if f[n] then [s[n]] else []
  }

  /** In how many places two texts of one length differ. */
  function Mismatches(a: Text, b: Text): (d: nat)
    requires |a| == |b|
    ensures d <= |a| && (d == 0 <==> a == b)
  {
    if a == [] then 0
    else
      var n := |a| - 1;
      assert a == a[..n] + [a[n]] && b == b[..n] + [b[n]];
      Mismatches(a[..n], b[..n]) + if a[n] != b[n] then 1 else 0
  }

  lemma MismatchesGrow(a: Text, b: Text, x: Unit, y: Unit)
    requires |a| == |b|
    ensures Mismatches(a + [x], b + [y]) == Mismatches(a, b) + if x != y then 1 else 0
  {
    assert (a + [x])[..|a|] == a && (b + [y])[..|b|] == b;
  }

  lemma SelectedStep(s: Text, f: seq<bool>, i: nat)
    requires |s| == |f| && i < |s|
    ensures Selected(s[..i + 1], f[..i + 1]) == if f[i] then Selected(s[..i], f[..i]) + [s[i]] else Selected(s[..i], f[..i])
    ensures Count(f[..i + 1]) == Count(f[..i]) + if f[i] then 1 else 0
  {
    assert s[..i + 1][..i] == s[..i] && f[..i + 1][..i] == f[..i];
  }

  /** Clear flags select nothing. */
  lemma {:induction false} SelectedSkip(s: Text, f: seq<bool>, i: nat, k: nat)
    requires |s| == |f| && i <= k <= |s| && forall j :: i <= j < k ==> !f[j]
    ensures Selected(s[..k], f[..k]) == Selected(s[..i], f[..i])
  {
    if i < k {
      SelectedSkip(s, f, i, k - 1);
      SelectedStep(s, f, k - 1);
    }
  }

  lemma {:induction false} SelectedAll(s: Text, f: seq<bool>)
    requires |s| == |f| && forall i :: 0 <= i < |f| ==> f[i]
    ensures Selected(s, f) == s
  {
    if s != [] {
      SelectedAll(s[..|s| - 1], f[..|s| - 1]);
    }
  }

  /** If fewer flags are set before `k` than there are in all, one is set at or after `k`. */
  lemma MoreAhead(s: seq<bool>, k: nat)
    requires k <= |s| && Count(s[..k]) < Count(s)
    ensures exists j :: k <= j < |s| && s[j]
  {
    if forall j :: k <= j < |s| ==> !s[j] {
      assert s == s[..k] + s[k..];
      CountSplit(s[..k], s[k..]);
      NoneSet(s[k..]);
    }
  }

  lemma CountMonotone(s: seq<bool>, k: nat)
    requires k <= |s|
    ensures Count(s[..k]) <= Count(s)
  {
    assert s == s[..k] + s[k..];
    CountSplit(s[..k], s[k..]);
  }

  /** `while (!s2Matches[k]) k++`: stops at the next set flag, before the end. */
  method NextSet(f: seq<bool>, start: nat) returns (k: nat)
    requires start <= |f| && Count(f[..start]) < Count(f)
    ensures start <= k < |f| && f[k] && forall j :: start <= j < k ==> !f[j]
  {
    MoreAhead(f, start);
    k := start;
    while !f[k]
      invariant start <= k < |f| && forall j :: start <= j < k ==> !f[j]
      invariant exists j :: k <= j < |f| && f[j]
      decreases |f| - k
    {
      k := k + 1;
    }
  }

  /** The transposition scan counts the places where the two matched subsequences differ. It never
      runs past the second string: as many flags are set on one side as on the other, so a match
      on the left always has one left on the right. */
  method Transpositions(s1: Text, s2: Text, f1: seq<bool>, f2: seq<bool>) returns (transpositions: nat)
    requires |f1| == |s1| && |f2| == |s2| && Count(f1) == Count(f2)
    ensures transpositions == Mismatches(Selected(s1, f1), Selected(s2, f2))
  {
    hide Count, Selected, Mismatches;
    var k := 0;
    transpositions := 0;
    NothingSelected(s1, f1);
    NothingSelected(s2, f2);
    for i := 0 to |s1|
      invariant 0 <= k <= |s2|
      invariant Count(f2[..k]) == Count(f1[..i])
      invariant transpositions == Mismatches(Selected(s1[..i], f1[..i]), Selected(s2[..k], f2[..k]))
    {
      SelectedStep(s1, f1, i);
      if f1[i] {
        CountMonotone(f1, i + 1);
        ghost var from := k;
        k := NextSet(f2, k);
        SelectedSkip(s2, f2, from, k);
        SelectedStep(s2, f2, k);
        MismatchesGrow(Selected(s1[..i], f1[..i]), Selected(s2[..k], f2[..k]), s1[i], s2[k]);
        if s1[i] != s2[k] {
          transpositions := transpositions + 1;
        }
        k := k + 1;
      }
    }
    assert f1[..|s1|] == f1 && s1[..|s1|] == s1;
    RestUnset(f2, k);
    SelectedSkip(s2, f2, k, |s2|);
    assert f2[..|s2|] == f2 && s2[..|s2|] == s2;
  }

  lemma NothingSelected(s: Text, f: seq<bool>)
    requires |s| == |f|
    ensures Selected(s[..0], f[..0]) == [] && Count(f[..0]) == 0 && Mismatches([], []) == 0
  {
  }

  lemma RestUnset(f: seq<bool>, k: nat)
    requires k <= |f| && Count(f[..k]) == Count(f)
    ensures forall j :: k <= j < |f| ==> !f[j]
  {
    forall j | k <= j < |f| ensures !f[j] {
      assert f[..j + 1][..j] == f[..j] && f[..j][..k] == f[..k];
      CountMonotone(f[..j], k);
      CountMonotone(f, j + 1);
    }
  }

  // ---- The common prefix -------------------------------------------------------------------------

  predicate HighSurrogate(u: Unit) { 0xD800 <= u < 0xDC00 }
  predicate LowSurrogate(u: Unit) { 0xDC00 <= u < 0xE000 }

  /** `[...s]`: code points, each as its one or two units. */
  function CodePoints(s: Text): (r: seq<Text>)
    ensures |r| <= |s|
  {
    if s == [] then []
    else if |s| > 1 && HighSurrogate(s[0]) && LowSurrogate(s[1]) then [s[..2]] + CodePoints(s[2..])
    else [[s[0]]] + CodePoints(s[1..])
  }

  /** `findIndex((c, i) => c !== s2[i])`: code points against units; `None` is -1. */
  function FirstDifference(points: seq<Text>, s2: Text, i: nat): (r: int)
    requires i <= |points|
    ensures r == -1 || i <= r < |points|
    decreases |points| - i
  {
    if i == |points| then -1
    else if i >= |s2| || points[i] != [s2[i]] then i
    else FirstDifference(points, s2, i + 1)
  }

  function Shorter(a: nat, b: nat): nat { if a < b then a else b }

  function PrefixLength(s1: Text, s2: Text): (n: nat)
    ensures n <= 4
  {
    var at := FirstDifference(CodePoints(s1), s2, 0);
    Shorter(4, if at == -1 then Shorter(|s1|, |s2|) else at)
  }

  function CommonPrefix(a: Text, b: Text): (n: nat)
    ensures n <= |a| && n <= |b|
  {
    if a == [] || b == [] || a[0] != b[0] then 0 else 1 + CommonPrefix(a[1..], b[1..])
  }

  predicate NoPairs(s: Text) { forall i :: 0 <= i < |s| - 1 ==> !(HighSurrogate(s[i]) && LowSurrogate(s[i + 1])) }

  lemma {:induction false} UnitsAreCodePoints(s: Text)
    requires NoPairs(s)
    ensures |CodePoints(s)| == |s| && forall i :: 0 <= i < |s| ==> CodePoints(s)[i] == [s[i]]
  {
    if s != [] {
      if |s| > 1 { assert !(HighSurrogate(s[0]) && LowSurrogate(s[0 + 1])); }
      assert NoPairs(s[1..]) by {
        forall i | 0 <= i < |s[1..]| - 1 ensures !(HighSurrogate(s[1..][i]) && LowSurrogate(s[1..][i + 1])) {
          assert !(HighSurrogate(s[i + 1]) && LowSurrogate(s[i + 1 + 1]));
        }
      }
      UnitsAreCodePoints(s[1..]);
    }
  }

  lemma {:induction false} DifferenceFrom(s1: Text, s2: Text, i: nat)
    requires NoPairs(s1) && i <= |s1| && i <= |s2|
    ensures i <= |CodePoints(s1)|
    ensures FirstDifference(CodePoints(s1), s2, i) ==
      var n := CommonPrefix(s1[i..], s2[i..]);
      if n == |s1| - i then -1 else i + n
    decreases |s1| - i
  {
    UnitsAreCodePoints(s1);
    if i < |s1| && i < |s2| && s1[i] == s2[i] {
      assert s1[i..][1..] == s1[i + 1..] && s2[i..][1..] == s2[i + 1..];
      DifferenceFrom(s1, s2, i + 1);
    }
  }

  /** Without surrogate pairs the boosted prefix is the common prefix, up to four units. With a
      pair the code compares a whole code point with one unit, and the prefix ends there. */
  lemma PrefixIsCommonPrefix(s1: Text, s2: Text)
    requires NoPairs(s1)
    ensures PrefixLength(s1, s2) == Shorter(4, CommonPrefix(s1, s2))
  {
    DifferenceFrom(s1, s2, 0);
    assert s1[0..] == s1 && s2[0..] == s2;
  }

  /** A high and a low surrogate, one after the other. */
  predicate PairAt(s: Text, k: nat) {
    k + 1 < |s| && 0xD800 <= s[k] <= 0xDBFF && 0xDC00 <= s[k + 1] <= 0xDFFF
  }

  lemma {:induction false} PointsUpTo(s: Text, n: nat)
    requires n <= |s| && forall k: nat :: k < n ==> !PairAt(s, k)
    ensures n <= |CodePoints(s)| && forall k :: 0 <= k < n ==> CodePoints(s)[k] == [s[k]]
    ensures n == |s| ==> |CodePoints(s)| == n
    ensures n < |s| ==> n < |CodePoints(s)| && CodePoints(s)[n] == if PairAt(s, n) then s[n..n + 2] else [s[n]]
  {
    if n > 0 {
      assert !PairAt(s, 0);
      var rest := s[1..];
      forall k: nat | k < n - 1 ensures !PairAt(rest, k) { assert !PairAt(s, k + 1); }
      PointsUpTo(rest, n - 1);
      assert CodePoints(s) == [[s[0]]] + CodePoints(rest);
      assert PairAt(s, n) <==> PairAt(rest, n - 1);
      if PairAt(s, n) { assert s[n..n + 2] == rest[n - 1..n + 1]; }
    }
  }

  lemma {:induction false} DifferenceAt(points: seq<Text>, s2: Text, i: nat, n: nat)
    requires i <= n <= |points| && n <= |s2| && forall k :: 0 <= k < n ==> points[k] == [s2[k]]
    requires n < |points| ==> n >= |s2| || points[n] != [s2[n]]
    ensures FirstDifference(points, s2, i) == if n == |points| then -1 else n
    decreases n - i
  {
    if i < n {
      DifferenceAt(points, s2, i + 1, n);
    }
  }

  /** For all strings: the boosted prefix is what the strings share up to the first surrogate pair of the
      first one, and four units at most. */
  lemma PrefixIs(s1: Text, s2: Text, n: nat)
    requires n <= |s1| && n <= |s2| && forall k: nat :: k < n ==> s1[k] == s2[k] && !PairAt(s1, k)
    requires n == |s1| || n == |s2| || s1[n] != s2[n] || PairAt(s1, n)
    ensures PrefixLength(s1, s2) == if n < 4 then n else 4
  {
    hide CodePoints, FirstDifference;
    PointsUpTo(s1, n);
    DifferenceAt(CodePoints(s1), s2, 0, n);
  }

  // ---- The score -----------------------------------------------------------------------------------

  lemma RatioBounds(a: real, b: real)
    requires 0.0 <= a <= b && b > 0.0
    ensures 0.0 <= a / b <= 1.0 && (a / b == 1.0 <==> a == b)
  {
  }

  /** The Jaro mean of three ratios is in [0, 1], and 1 only when all three are. */
  lemma JaroBounds(m: nat, t: nat, n1: nat, n2: nat)
    requires 0 < m && m <= n1 && m <= n2 && t <= m
    ensures var jaro := (m as real / n1 as real + m as real / n2 as real + (m as real - t as real / 2.0) / m as real) / 3.0;
      0.0 <= jaro <= 1.0 && (jaro == 1.0 <==> m == n1 && m == n2 && t == 0)
  {
    RatioBounds(m as real, n1 as real);
    RatioBounds(m as real, n2 as real);
    RatioBounds(m as real - t as real / 2.0, m as real);
  }

  lemma BoostBounds(jaro: real, prefix: nat)
    requires 0.0 <= jaro <= 1.0 && prefix <= 4
    ensures var score := jaro + prefix as real * 0.1 * (1.0 - jaro);
      0.0 <= score <= 1.0 && (score == 1.0 <==> jaro == 1.0)
  {
    var w := prefix as real * 0.1;
    if
    case prefix == 0 => assert w == 0.0;
    case prefix == 1 => assert w == 0.1;
    case prefix == 2 => assert w == 0.2;
    case prefix == 3 => assert w == 0.3;
    case prefix == 4 => assert w == 0.4;
  }

  /** The score of two different non-empty strings, from a matching of them. */
  function ScoreOf(s1: Text, s2: Text, p: Pairs): real
    requires s1 != [] && s2 != [] && |p| == |s1| && Count(MatchedLeft(p)) == Count(MatchedRight(p, |s2|))
  {
    var matches := Count(MatchedLeft(p));
    if matches == 0 then 0.0
    else
      var m := matches as real;
      var t := Mismatches(Selected(s1, MatchedLeft(p)), Selected(s2, MatchedRight(p, |s2|))) as real;
      var jaro := (m / |s1| as real + m / |s2| as real + (m - t / 2.0) / m) / 3.0;
      jaro + PrefixLength(s1, s2) as real * 0.1 * (1.0 - jaro)
  }

  /** The score in the terms of its definition: with no match nothing; otherwise the Jaro mean, moved
      towards one by a tenth of what is missing for every unit of the prefix. */
  lemma ScoreIs(s1: Text, s2: Text, p: Pairs, m: nat, t: nat, jaro: real)
    requires s1 != [] && s2 != [] && |p| == |s1| && Count(MatchedLeft(p)) == Count(MatchedRight(p, |s2|))
    requires m == Count(MatchedLeft(p)) && t == Mismatches(Selected(s1, MatchedLeft(p)), Selected(s2, MatchedRight(p, |s2|)))
    requires m > 0 ==> 3.0 * jaro == m as real / |s1| as real + m as real / |s2| as real + (m as real - t as real / 2.0) / m as real
    ensures m == 0 ==> ScoreOf(s1, s2, p) == 0.0
    ensures m > 0 ==> 10.0 * (ScoreOf(s1, s2, p) - jaro) == PrefixLength(s1, s2) as real * (1.0 - jaro)
  {
    hide Count, Selected, Mismatches, PrefixLength, MatchedLeft, MatchedRight;
    if m > 0 { BoostIs(jaro, PrefixLength(s1, s2)); }
  }

  lemma BoostIs(jaro: real, prefix: nat)
    ensures 10.0 * (prefix as real * 0.1 * (1.0 - jaro)) == prefix as real * (1.0 - jaro)
  {
    var w := prefix as real * 0.1;
    assert 10.0 * w == prefix as real;
    assert 10.0 * (w * (1.0 - jaro)) == (10.0 * w) * (1.0 - jaro);
  }

  /** Only equal strings match everywhere without a transposition. */
  lemma FullMatchIsEqual(s1: Text, s2: Text, f1: seq<bool>, f2: seq<bool>)
    requires |f1| == |s1| && |f2| == |s2| && Count(f1) == Count(f2) == |s1| == |s2|
    requires Mismatches(Selected(s1, f1), Selected(s2, f2)) == 0
    ensures s1 == s2
  {
    CountBounds(f1);
    CountBounds(f2);
    SelectedAll(s1, f1);
    SelectedAll(s2, f2);
  }

  lemma ScoreBounds(s1: Text, s2: Text, p: Pairs)
    requires s1 != s2 && s1 != [] && s2 != [] && |p| == |s1| && Count(MatchedLeft(p)) == Count(MatchedRight(p, |s2|))
    ensures 0.0 <= ScoreOf(s1, s2, p) < 1.0
  {
    hide Count, Selected, Mismatches, PrefixLength, MatchedLeft, MatchedRight;
    var f1, f2 := MatchedLeft(p), MatchedRight(p, |s2|);
    var matches := Count(f1);
    if matches > 0 {
      CountBounds(f1);
      CountBounds(f2);
      var t := Mismatches(Selected(s1, f1), Selected(s2, f2));
      JaroBounds(matches, t, |s1|, |s2|);
      var jaro := (matches as real / |s1| as real + matches as real / |s2| as real + (matches as real - t as real / 2.0) / matches as real) / 3.0;
      BoostBounds(jaro, PrefixLength(s1, s2));
      if matches == |s1| == |s2| && t == 0 { FullMatchIsEqual(s1, s2, f1, f2); }
    }
  }

  /** For all strings the score is in [0, 1], and it is 1 exactly for equal strings. For two
      different non-empty strings it is the score of their first-fit matching. */
  method Similarity(s1: Text, s2: Text) returns (score: real)
    ensures 0.0 <= score <= 1.0
    ensures score == 1.0 <==> s1 == s2
    ensures s1 != s2 && (s1 == [] || s2 == []) ==> score == 0.0
    ensures s1 != s2 && s1 != [] && s2 != [] ==>
      exists p :: |p| == |s1| && FirstFit(s1, s2, p) && Count(MatchedLeft(p)) == Count(MatchedRight(p, |s2|)) && score == ScoreOf(s1, s2, p)
  {
    hide FirstFit, Count, Selected, Mismatches, PrefixLength;
    if s1 == s2 {
      return 1.0;
    }
    if |s1| == 0 || |s2| == 0 {
      return 0.0;
    }
    var f1 := new bool[|s1|](i => false);
    var f2 := new bool[|s2|](i => false);
    var matches;
    ghost var p;
    matches, p := MatchFlags(s1, s2, f1, f2);
    ScoreBounds(s1, s2, p);
    if matches == 0 {
      return 0.0;
    }
    var transpositions := Transpositions(s1, s2, f1[..], f2[..]);
    var m, t := matches as real, transpositions as real;
    var jaro := (m / |s1| as real + m / |s2| as real + (m - t / 2.0) / m) / 3.0;
    var prefix := PrefixLength(s1, s2);
    score := jaro + prefix as real * 0.1 * (1.0 - jaro);
    assert score == ScoreOf(s1, s2, p);
  }
}
