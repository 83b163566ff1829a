/** Two-pass token-budget packing over ranked evidence lanes. */
module ContextPacking {
  import opened Evidence

  /** A JavaScript number: finite, or NaN / infinite. */
  datatype Num = Finite(value: real) | NotFinite

  function Ceil(x: real): int { -((-x).Floor) }

  /** `normalizedCost` */
  function Cost(n: Num): (c: nat)
    ensures n.Finite? && n.value > 0.0 ==> c >= 1 && n.value <= c as real < n.value + 1.0
    ensures n.NotFinite? || n.value <= 0.0 ==> c == 0
  {
    if n.Finite? && n.value > 0.0 then Ceil(n.value) else 0
  }

  datatype Lane = Lane(name: string)
  type Costs = map<Lane, seq<Num>>

  function Spent(costs: seq<Num>, n: nat): nat
    requires n <= |costs|
  {
    if n == 0 then 0 else Spent(costs, n - 1) + Cost(costs[n - 1])
  }

  lemma {:induction false} SpentMonotone(costs: seq<Num>, m: nat, n: nat)
    requires m <= n <= |costs|
    ensures Spent(costs, m) <= Spent(costs, n)
  {
    if m < n { SpentMonotone(costs, m, n - 1); }
  }

  /** Tokens over all lanes, given how many items each lane selected. */
  function Total(costs: Costs, lanes: seq<Lane>, cursor: map<Lane, nat>): nat
    requires forall l :: l in lanes ==> l in costs && l in cursor && cursor[l] <= |costs[l]|
  {
    if lanes == [] then 0
    else
      assert lanes[|lanes| - 1] in lanes;
      Spent(costs[lanes[|lanes| - 1]], cursor[lanes[|lanes| - 1]]) + Total(costs, lanes[..|lanes| - 1], cursor)
  }

  /** `a` stands in `s` before `b` first does. */
  ghost predicate Ahead(s: seq<Lane>, a: Lane, b: Lane) {
    exists p :: 0 <= p < |s| && s[p] == a && b !in s[..p + 1]
  }

  ghost predicate InOrderOf(r: seq<Lane>, s: seq<Lane>) {
    forall i, j :: 0 <= i < j < |r| ==> Ahead(s, r[i], r[j])
  }

  lemma AheadLonger(s: seq<Lane>, x: Lane, a: Lane, b: Lane)
    requires Ahead(s, a, b)
    ensures Ahead(s + [x], a, b)
  {
    var p :| 0 <= p < |s| && s[p] == a && b !in s[..p + 1];
    assert (s + [x])[p] == a && (s + [x])[..p + 1] == s[..p + 1];
  }

  lemma AheadOfNew(s: seq<Lane>, x: Lane, a: Lane)
    requires a in s && x !in s
    ensures Ahead(s + [x], a, x)
  {
    var p :| 0 <= p < |s| && s[p] == a;
    assert (s + [x])[p] == a && (s + [x])[..p + 1] == s[..p + 1];
    assert forall l :: l in s[..p + 1] ==> l in s;
  }

  /** Appending to the listing an element its order has not seen yet. */
  lemma OrderGrows(r: seq<Lane>, s: seq<Lane>, x: Lane, take: bool)
    requires InOrderOf(r, s) && (forall l :: l in r ==> l in s) && (take ==> x !in s)
    ensures InOrderOf(if take then r + [x] else r, s + [x])
  {
    hide Ahead;
    var next := if take then r + [x] else r;
    forall i, j | 0 <= i < j < |next| ensures Ahead(s + [x], next[i], next[j]) {
      if j < |r| { AheadLonger(s, x, r[i], r[j]); } else { assert r[i] in r; AheadOfNew(s, x, r[i]); }
    }
  }

  /** `uniqueLanes`: first occurrences, in order. */
  function Unique(s: seq<Lane>): (r: seq<Lane>)
    ensures Distinct(r) && InOrderOf(r, s) && forall l :: l in r <==> l in s
  {
    if s == [] then []
    else
      var n := |s| - 1;
      assert s == s[..n] + [s[n]];
      var rest := Unique(s[..n]);
      OrderGrows(rest, s[..n], s[n], s[n] !in rest);
      if s[n] in rest then rest else rest + [s[n]]
  }

  function Filter(s: seq<Lane>, keep: set<Lane>, inside: bool): (r: seq<Lane>)
    requires Distinct(s)
    ensures Distinct(r) && InOrderOf(r, s) && forall l :: l in r <==> l in s && (l in keep <==> inside)
  {
    if s == [] then []
    else
      var n := |s| - 1;
      assert s == s[..n] + [s[n]];
      var rest := Filter(s[..n], keep, inside);
      OrderGrows(rest, s[..n], s[n], s[n] in keep <==> inside);
      if s[n] in keep <==> inside then rest + [s[n]] else rest
  }

  /** What the lanes are and their order leave one listing. */
  lemma {:induction false} OneListing(a: seq<Lane>, b: seq<Lane>, s: seq<Lane>)
    requires Distinct(a) && Distinct(b) && InOrderOf(a, s) && InOrderOf(b, s) && forall l :: l in a <==> l in b
    ensures a == b
  {
    assert b != [] ==> b[0] in b;
    if a != [] {
      assert a[0] in b;
      var j :| 0 <= j < |b| && b[j] == a[0];
      if j > 0 {
        assert b[0] in a;
        var i :| 0 <= i < |a| && a[i] == b[0];
        NotBothAhead(s, a[0], b[0]);
      }
      RestOf(a);
      RestOf(b);
      OneListing(a[1..], b[1..], s);
    }
  }

  lemma RestOf(a: seq<Lane>)
    requires Distinct(a) && a != []
    ensures Distinct(a[1..]) && forall l :: l in a[1..] <==> l in a && l != a[0]
  {
    assert a == [a[0]] + a[1..];
    assert forall k :: 0 <= k < |a[1..]| ==> a[1..][k] == a[k + 1];
  }

  lemma NotBothAhead(s: seq<Lane>, a: Lane, b: Lane)
    ensures !(Ahead(s, a, b) && Ahead(s, b, a))
  {
  }

  // ---- Shares --------------------------------------------------------------------------------

  function Weight(weights: map<Lane, Num>, l: Lane): (w: real)
    ensures w >= 0.0
  {
    if l !in weights || weights[l].NotFinite? then 1.0
    else if weights[l].value > 0.0 then weights[l].value else 0.0
  }

  function Sum(ws: seq<real>): real {
    if ws == [] then 0.0 else Sum(ws[..|ws| - 1]) + ws[|ws| - 1]
  }

  lemma {:induction false} SumNonNegative(ws: seq<real>)
    requires forall k :: 0 <= k < |ws| ==> ws[k] >= 0.0
    ensures Sum(ws) >= 0.0
    ensures forall k :: 0 <= k < |ws| ==> ws[k] <= Sum(ws)
  {
    if ws != [] { SumNonNegative(ws[..|ws| - 1]); }
  }

  /** The configured weights, or all ones when they add up to nothing. */
  function Weights(weights: map<Lane, Num>, lanes: seq<Lane>): (ws: seq<real>)
    ensures |ws| == |lanes| && forall k :: 0 <= k < |ws| ==> ws[k] >= 0.0
    ensures lanes != [] ==> Sum(ws) > 0.0
  {
    var raw := seq(|lanes|, k requires 0 <= k < |lanes| => Weight(weights, lanes[k]));
    if Sum(raw) > 0.0 then raw
    else
      var ones := seq(|lanes|, k => 1.0);
      OnesSum(ones);
      ones
  }

  /** The weight the policy gives a lane: its finite entry if positive and nothing otherwise, one
      where there is no finite entry. */
  predicate Configured(weights: map<Lane, Num>, l: Lane, w: real) {
    if l in weights && weights[l].Finite?
    then (weights[l].value > 0.0 ==> w == weights[l].value) && (weights[l].value <= 0.0 ==> w == 0.0)
    else w == 1.0
  }

  /** The weights the policy means: as configured, or all ones where every lane is weighted with
      nothing. */
  ghost predicate PolicyWeights(weights: map<Lane, Num>, lanes: seq<Lane>, ws: seq<real>) {
    && |ws| == |lanes|
    && if exists l :: l in lanes && !Configured(weights, l, 0.0)
       then forall k :: 0 <= k < |lanes| ==> Configured(weights, lanes[k], ws[k])
       else forall k :: 0 <= k < |lanes| ==> ws[k] == 1.0
  }

  lemma {:induction false} SumIsNothing(ws: seq<real>)
    requires forall k :: 0 <= k < |ws| ==> ws[k] == 0.0
    ensures Sum(ws) == 0.0
  {
    if ws != [] { SumIsNothing(ws[..|ws| - 1]); }
  }

  /** The weights the plan uses are the only ones the policy can mean. */
  lemma WeightsArePolicy(weights: map<Lane, Num>, lanes: seq<Lane>, ws: seq<real>)
    ensures PolicyWeights(weights, lanes, ws) <==> ws == Weights(weights, lanes)
  {
    var raw := seq(|lanes|, k requires 0 <= k < |lanes| => Weight(weights, lanes[k]));
    SumNonNegative(raw);
    if exists l :: l in lanes && !Configured(weights, l, 0.0) {
      var l :| l in lanes && !Configured(weights, l, 0.0);
      var k :| 0 <= k < |lanes| && lanes[k] == l;
      assert raw[k] > 0.0;
    } else {
      forall k | 0 <= k < |raw| ensures raw[k] == 0.0 { assert lanes[k] in lanes; }
      SumIsNothing(raw);
    }
  }

  lemma {:induction false} OnesSum(ws: seq<real>)
    requires forall k :: 0 <= k < |ws| ==> ws[k] == 1.0
    ensures Sum(ws) == |ws| as real
  {
    if ws != [] { OnesSum(ws[..|ws| - 1]); }
  }

  /** The protected share of lane `k`. */
  function Target(budget: nat, ws: seq<real>, k: nat): (t: nat)
    requires k < |ws| && Sum(ws) > 0.0 && forall j :: 0 <= j < |ws| ==> ws[j] >= 0.0
    ensures t as real <= budget as real * ws[k] / Sum(ws) < t as real + 1.0
  {
    ShareNonNegative(budget, ws[k], Sum(ws));
    (budget as real * ws[k] / Sum(ws)).Floor
  }

  lemma ShareNonNegative(budget: nat, w: real, total: real)
    requires w >= 0.0 && total > 0.0
    ensures budget as real * w / total >= 0.0
  {
    assert budget as real * w >= 0.0;
  }

  /** All shares, in lane order. */
  function TargetsOf(budget: nat, ws: seq<real>): (ts: seq<nat>)
    requires (ws != [] ==> Sum(ws) > 0.0) && forall j :: 0 <= j < |ws| ==> ws[j] >= 0.0
    ensures |ts| == |ws| && forall k :: 0 <= k < |ws| ==> ts[k] == Target(budget, ws, k)
  {
    seq(|ws|, k requires 0 <= k < |ws| => Target(budget, ws, k))
  }

  function Reserved(ts: seq<nat>, k: nat): nat
    requires k <= |ts|
  {
    if k == 0 then 0 else Reserved(ts, k - 1) + ts[k - 1]
  }

  lemma {:induction false} ReservedWithin(ts: seq<nat>, ws: seq<real>, rate: real, k: nat)
    requires |ts| == |ws| && k <= |ws| && forall j :: 0 <= j < |ws| ==> ts[j] as real <= rate * ws[j]
    ensures Reserved(ts, k) as real <= rate * Sum(ws[..k])
  {
    if k > 0 {
      ReservedWithin(ts, ws, rate, k - 1);
      assert ws[..k][..k - 1] == ws[..k - 1];
      var x, y := Sum(ws[..k - 1]), ws[k - 1];
      assert rate * (x + y) == rate * x + rate * y;
    }
  }

  /** Flooring keeps the protected shares of all lanes together inside the budget. */
  lemma SharesFit(budget: nat, ws: seq<real>)
    requires (ws != [] ==> Sum(ws) > 0.0) && forall j :: 0 <= j < |ws| ==> ws[j] >= 0.0
    ensures Reserved(TargetsOf(budget, ws), |ws|) <= budget
  {
    hide Target, Sum, TargetsOf, Reserved;
    if ws == [] {
      NothingReserved(TargetsOf(budget, ws));
    } else {
      var rate := SharedRate(budget, ws);
      ReservedWithin(TargetsOf(budget, ws), ws, rate, |ws|);
      assert ws[..|ws|] == ws;
    }
  }

  lemma NothingReserved(ts: seq<nat>)
    ensures Reserved(ts, 0) == 0
  {
  }

  /** Every share is at most the same multiple of its weight, and the multiple of the whole
      weight is the budget. */
  lemma SharedRate(budget: nat, ws: seq<real>) returns (rate: real)
    requires Sum(ws) > 0.0 && forall j :: 0 <= j < |ws| ==> ws[j] >= 0.0
    ensures rate * Sum(ws) == budget as real
    ensures forall j :: 0 <= j < |ws| ==> TargetsOf(budget, ws)[j] as real <= rate * ws[j]
  {
    hide Target, Sum, TargetsOf;
    var b, s := budget as real, Sum(ws);
    rate := b / s;
    RateIs(b, s, s);
    forall j | 0 <= j < |ws| ensures TargetsOf(budget, ws)[j] as real <= rate * ws[j] { RateIs(b, ws[j], s); }
  }

  lemma RateIs(b: real, w: real, s: real)
    requires s > 0.0
    ensures b * w / s == (b / s) * w
    ensures b * s / s == b
  {
  }

  lemma {:induction false} ReservedMonotone(ts: seq<nat>, j: nat, k: nat)
    requires j <= k <= |ts|
    ensures Reserved(ts, j) <= Reserved(ts, k)
  {
    if j < k { ReservedMonotone(ts, j, k - 1); }
  }

  /** The longest prefix of a lane that fits `limit`. */
  predicate LongestFitting(costs: seq<Num>, n: nat, limit: nat) {
    n <= |costs| && Spent(costs, n) <= limit && (n < |costs| ==> Spent(costs, n + 1) > limit)
  }

  /** What fits the lane's part of the budget fits its floored share. */
  lemma WithinShare(budget: nat, ws: seq<real>, k: nat, spent: nat)
    requires k < |ws| && Sum(ws) > 0.0 && forall j :: 0 <= j < |ws| ==> ws[j] >= 0.0
    requires spent as real * Sum(ws) <= budget as real * ws[k]
    ensures spent <= Target(budget, ws, k)
  {
    hide Target, Sum;
    Divided(spent as real, Sum(ws), budget as real * ws[k]);
  }

  lemma Divided(x: real, s: real, y: real)
    requires s > 0.0 && x * s <= y
    ensures x <= y / s
  {
    assert (y / s) * s == y;
  }

  // ---- The plan --------------------------------------------------------------------------------

  datatype Plan = Plan(cursor: map<Lane, nat>, selected: map<Lane, seq<nat>>, laneTokens: map<Lane, nat>, used: nat)

  predicate Bounded(costs: Costs, lanes: seq<Lane>, cursor: map<Lane, nat>) {
    forall l :: l in lanes ==> l in costs && l in cursor && cursor[l] <= |costs[l]|
  }

  function Prefix(n: nat): seq<nat> { seq(n, i => i) }

  /** Every lane selects a prefix, the lane and overall totals are what was selected, and the
      budget is not exceeded. */
  predicate PlanOk(costs: Costs, lanes: seq<Lane>, budget: nat, p: Plan) {
    && Bounded(costs, lanes, p.cursor)
    && (forall l :: l in lanes ==>
          && l in p.selected && p.selected[l] == Prefix(p.cursor[l])
          && l in p.laneTokens && p.laneTokens[l] == Spent(costs[l], p.cursor[l]))
    && p.used == Total(costs, lanes, p.cursor)
    && p.used <= budget
  }

  /** Select the next item of a lane. */
  function Take(costs: Costs, p: Plan, l: Lane): Plan
    requires l in costs && l in p.cursor && l in p.selected && l in p.laneTokens && p.cursor[l] < |costs[l]|
  {
    var c := Cost(costs[l][p.cursor[l]]);
    Plan(p.cursor[l := p.cursor[l] + 1], p.selected[l := p.selected[l] + [p.cursor[l]]],
         p.laneTokens[l := p.laneTokens[l] + c], p.used + c)
  }

  lemma {:induction false} TotalElsewhere(costs: Costs, lanes: seq<Lane>, cursor: map<Lane, nat>, l: Lane, n: nat)
    requires Bounded(costs, lanes, cursor) && l !in lanes
    ensures Total(costs, lanes, cursor[l := n]) == Total(costs, lanes, cursor)
  {
    if lanes != [] {
      assert lanes[|lanes| - 1] in lanes;
      TotalElsewhere(costs, lanes[..|lanes| - 1], cursor, l, n);
    }
  }

  lemma {:induction false} TotalStep(costs: Costs, lanes: seq<Lane>, cursor: map<Lane, nat>, l: Lane)
    requires Bounded(costs, lanes, cursor) && Distinct(lanes) && l in lanes && cursor[l] < |costs[l]|
    ensures Total(costs, lanes, cursor[l := cursor[l] + 1]) == Total(costs, lanes, cursor) + Cost(costs[l][cursor[l]])
  {
    var n := |lanes| - 1;
    assert lanes == lanes[..n] + [lanes[n]];
    if lanes[n] == l {
      TotalElsewhere(costs, lanes[..n], cursor, l, cursor[l] + 1);
    } else {
      TotalStep(costs, lanes[..n], cursor, l);
    }
  }

  lemma TakeKeeps(costs: Costs, lanes: seq<Lane>, budget: nat, p: Plan, l: Lane)
    requires PlanOk(costs, lanes, budget, p) && Distinct(lanes) && l in lanes && p.cursor[l] < |costs[l]|
    requires p.used + Cost(costs[l][p.cursor[l]]) <= budget
    ensures PlanOk(costs, lanes, budget, Take(costs, p, l))
  {
    TotalStep(costs, lanes, p.cursor, l);
    assert Prefix(p.cursor[l]) + [p.cursor[l]] == Prefix(p.cursor[l] + 1);
  }

  lemma {:induction false} NothingSpent(costs: Costs, lanes: seq<Lane>, cursor: map<Lane, nat>)
    requires Bounded(costs, lanes, cursor) && forall l :: l in lanes ==> cursor[l] == 0
    ensures Total(costs, lanes, cursor) == 0
  {
    if lanes != [] {
      assert lanes[|lanes| - 1] in lanes;
      NothingSpent(costs, lanes[..|lanes| - 1], cursor);
    }
  }

  /** One lane of the protected pass: fill it up to its share. The budget test never bites,
      because the shares of the lanes before it and its own add up to at most the budget. */
  method FillShare(costs: Costs, lanes: seq<Lane>, budget: nat, start: Plan, l: Lane, target: nat, ghost reserved: nat) returns (p: Plan)
    requires PlanOk(costs, lanes, budget, start) && Distinct(lanes) && l in lanes && start.cursor[l] == 0
    requires start.used <= reserved && reserved + target <= budget
    ensures PlanOk(costs, lanes, budget, p) && LongestFitting(costs[l], p.cursor[l], target)
    ensures forall x :: x in lanes && x != l ==> p.cursor[x] == start.cursor[x]
    ensures p.used <= reserved + target
  {
    p := start;
    while p.cursor[l] < |costs[l]|
      invariant PlanOk(costs, lanes, budget, p) && Spent(costs[l], p.cursor[l]) <= target
      invariant forall x :: x in lanes && x != l ==> p.cursor[x] == start.cursor[x]
      invariant p.used == start.used + p.laneTokens[l]
      decreases |costs[l]| - p.cursor[l]
    {
      var cost := Cost(costs[l][p.cursor[l]]);
      if p.laneTokens[l] + cost > target || p.used + cost > budget {
        break;
      }
      TakeKeeps(costs, lanes, budget, p, l);
      p := Take(costs, p, l);
    }
  }

  lemma EmptyPlanOk(costs: Costs, lanes: seq<Lane>, budget: nat, p: Plan, targets: seq<nat>)
    requires |targets| == |lanes|
    requires forall l :: l in lanes ==> l in costs && l in p.cursor && p.cursor[l] == 0 && l in p.selected && p.selected[l] == [] && l in p.laneTokens && p.laneTokens[l] == 0
    requires p.used == 0
    ensures PlanOk(costs, lanes, budget, p) && Filled(costs, lanes, p.cursor, targets, 0)
  {
    NothingSpent(costs, lanes, p.cursor);
  }

  /** The first `k` lanes hold the longest prefix that fits their share; the rest hold nothing yet. */
  predicate Filled(costs: Costs, lanes: seq<Lane>, cursor: map<Lane, nat>, targets: seq<nat>, k: nat)
    requires |targets| == |lanes|
  {
    && Bounded(costs, lanes, cursor)
    && forall j :: 0 <= j < |lanes| ==>
         lanes[j] in costs && lanes[j] in cursor
         && if j < k then LongestFitting(costs[lanes[j]], cursor[lanes[j]], targets[j]) else cursor[lanes[j]] == 0
  }

  lemma FilledOne(costs: Costs, lanes: seq<Lane>, before: map<Lane, nat>, after: map<Lane, nat>, targets: seq<nat>, k: nat)
    requires |targets| == |lanes| && k < |lanes| && Distinct(lanes) && Filled(costs, lanes, before, targets, k)
    requires Bounded(costs, lanes, after) && forall l :: l in lanes && l != lanes[k] ==> after[l] == before[l]
    requires LongestFitting(costs[lanes[k]], after[lanes[k]], targets[k])
    ensures Filled(costs, lanes, after, targets, k + 1)
  {
    hide LongestFitting;
    forall j | 0 <= j < |lanes| && j != k ensures lanes[j] in after && after[lanes[j]] == before[lanes[j]] {
      assert lanes[j] in lanes && lanes[j] != lanes[k];
    }
  }

  /** The protected-share pass. */
  method ProtectedPass(costs: Costs, lanes: seq<Lane>, budget: nat, targets: seq<nat>) returns (p: Plan)
    requires Distinct(lanes) && (forall l :: l in lanes ==> l in costs)
    requires |targets| == |lanes| && Reserved(targets, |targets|) <= budget
    ensures PlanOk(costs, lanes, budget, p) && Filled(costs, lanes, p.cursor, targets, |lanes|)
  {
    hide PlanOk, LongestFitting, Filled, Bounded, Distinct;
    p := Plan(map l | l in lanes :: 0, map l | l in lanes :: [], map l | l in lanes :: 0, 0);
    EmptyPlanOk(costs, lanes, budget, p, targets);
    for k := 0 to |lanes|
      invariant PlanOk(costs, lanes, budget, p) && Filled(costs, lanes, p.cursor, targets, k)
      invariant p.used <= Reserved(targets, k)
    {
      ReservedMonotone(targets, k + 1, |targets|);
      UnfilledIsEmpty(costs, lanes, budget, p, targets, k);
      ghost var before := p;
      p := FillShare(costs, lanes, budget, p, lanes[k], targets[k], Reserved(targets, k));
      PlanIsBounded(costs, lanes, budget, p);
      PlanIsBounded(costs, lanes, budget, before);
      FilledOne(costs, lanes, before.cursor, p.cursor, targets, k);
    }
  }

  lemma UnfilledIsEmpty(costs: Costs, lanes: seq<Lane>, budget: nat, p: Plan, targets: seq<nat>, k: nat)
    requires PlanOk(costs, lanes, budget, p) && |targets| == |lanes| && k < |lanes| && Filled(costs, lanes, p.cursor, targets, k)
    ensures lanes[k] in lanes && lanes[k] in p.cursor && p.cursor[lanes[k]] == 0
  {
  }

  lemma PlanIsBounded(costs: Costs, lanes: seq<Lane>, budget: nat, p: Plan)
    requires PlanOk(costs, lanes, budget, p)
    ensures Bounded(costs, lanes, p.cursor)
    ensures forall l :: l in lanes ==> l in p.cursor && l in costs
  {
  }

  function Remaining(costs: Costs, lanes: seq<Lane>, cursor: map<Lane, nat>): nat
    requires Bounded(costs, lanes, cursor)
  {
    if lanes == [] then 0
    else
      assert lanes[|lanes| - 1] in lanes;
      |costs[lanes[|lanes| - 1]]| - cursor[lanes[|lanes| - 1]] + Remaining(costs, lanes[..|lanes| - 1], cursor)
  }

  lemma {:induction false} RemainingElsewhere(costs: Costs, lanes: seq<Lane>, cursor: map<Lane, nat>, l: Lane, n: nat)
    requires Bounded(costs, lanes, cursor) && l !in lanes
    ensures Remaining(costs, lanes, cursor[l := n]) == Remaining(costs, lanes, cursor)
  {
    if lanes != [] {
      assert lanes[|lanes| - 1] in lanes;
      RemainingElsewhere(costs, lanes[..|lanes| - 1], cursor, l, n);
    }
  }

  lemma {:induction false} RemainingStep(costs: Costs, lanes: seq<Lane>, cursor: map<Lane, nat>, l: Lane)
    requires Bounded(costs, lanes, cursor) && Distinct(lanes) && l in lanes && cursor[l] < |costs[l]|
    ensures Remaining(costs, lanes, cursor[l := cursor[l] + 1]) == Remaining(costs, lanes, cursor) - 1
  {
    var n := |lanes| - 1;
    assert lanes == lanes[..n] + [lanes[n]];
    if lanes[n] == l {
      RemainingElsewhere(costs, lanes[..n], cursor, l, cursor[l] + 1);
    } else {
      RemainingStep(costs, lanes[..n], cursor, l);
    }
  }

  /** The next item of this lane does not fit, or there is none. */
  predicate Stuck(costs: Costs, budget: nat, p: Plan, l: Lane)
    requires l in costs && l in p.cursor
  {
    p.cursor[l] >= |costs[l]| || p.used + Cost(costs[l][p.cursor[l]]) > budget
  }

  predicate Grown(lanes: seq<Lane>, a: Plan, b: Plan) {
    forall l :: l in lanes ==> l in a.cursor && l in b.cursor && a.cursor[l] <= b.cursor[l]
  }

  /** A lane's turn in the overflow pass: its next item, if there is one and it fits. */
  function Turn(costs: Costs, budget: nat, p: Plan, l: Lane): Plan {
    if l in costs && l in p.cursor && l in p.selected && l in p.laneTokens && !Stuck(costs, budget, p, l) then Take(costs, p, l) else p
  }

  /** The first `k` lanes of the order have had their turn. */
  function Turns(costs: Costs, budget: nat, p: Plan, order: seq<Lane>, k: nat): Plan
    requires k <= |order|
  {
    if k == 0 then p else Turn(costs, budget, Turns(costs, budget, p, order, k - 1), order[k - 1])
  }

  /** Whole rounds over the order, each begun with budget to spare. */
  ghost predicate Rounds(costs: Costs, budget: nat, order: seq<Lane>, rounds: seq<Plan>) {
    && rounds != []
    && forall k :: 0 <= k < |rounds| - 1 ==>
         rounds[k].used < budget && rounds[k + 1] == Turns(costs, budget, rounds[k], order, |order|)
  }

  /** A turn keeps the plan in order; it takes one item, or the lane is stuck. */
  lemma TurnKeeps(costs: Costs, lanes: seq<Lane>, budget: nat, p: Plan, l: Lane)
    requires PlanOk(costs, lanes, budget, p) && Distinct(lanes) && l in lanes
    ensures var next := Turn(costs, budget, p, l);
      && PlanOk(costs, lanes, budget, next) && Grown(lanes, p, next) && Bounded(costs, lanes, p.cursor) && Bounded(costs, lanes, next.cursor)
      && l in p.selected && l in p.laneTokens
      && if Stuck(costs, budget, p, l) then next == p
         else next == Take(costs, p, l) && Remaining(costs, lanes, next.cursor) == Remaining(costs, lanes, p.cursor) - 1
  {
    hide Spent, Total, Prefix;
    if !Stuck(costs, budget, p, l) {
      TakeKeeps(costs, lanes, budget, p, l);
      RemainingStep(costs, lanes, p.cursor, l);
    }
  }

  lemma GrownStill(costs: Costs, lanes: seq<Lane>, budget: nat, p: Plan)
    requires PlanOk(costs, lanes, budget, p)
    ensures Grown(lanes, p, p)
  {
  }

  lemma GrownOn(lanes: seq<Lane>, a: Plan, b: Plan, c: Plan)
    requires Grown(lanes, a, b) && Grown(lanes, b, c)
    ensures Grown(lanes, a, c)
  {
  }

  /** One round-robin sweep. */
  method Sweep(costs: Costs, lanes: seq<Lane>, order: seq<Lane>, budget: nat, start: Plan) returns (p: Plan, progressed: bool)
    requires PlanOk(costs, lanes, budget, start) && Distinct(lanes) && forall l :: l in order ==> l in lanes
    ensures PlanOk(costs, lanes, budget, p) && Grown(lanes, start, p)
    ensures p == Turns(costs, budget, start, order, |order|)
    ensures !progressed ==> p == start && forall l :: l in order ==> Stuck(costs, budget, p, l)
    ensures progressed ==> Remaining(costs, lanes, p.cursor) < Remaining(costs, lanes, start.cursor)
  {
    hide Spent, Total, Prefix, Turn, Take, Grown, Distinct, Remaining;
    p, progressed := start, false;
    assert Grown(lanes, start, p) by { GrownStill(costs, lanes, budget, p); }
    for k := 0 to |order|
      invariant PlanOk(costs, lanes, budget, p) && Grown(lanes, start, p)
      invariant p == Turns(costs, budget, start, order, k)
      invariant !progressed ==> p == start && forall j :: 0 <= j < k ==> Stuck(costs, budget, p, order[j])
      invariant progressed ==> Remaining(costs, lanes, p.cursor) < Remaining(costs, lanes, start.cursor)
    {
      var l := order[k];
      TurnKeeps(costs, lanes, budget, p, l);
      GrownOn(lanes, start, p, Turn(costs, budget, p, l));
      if p.cursor[l] < |costs[l]| && p.used + Cost(costs[l][p.cursor[l]]) <= budget {
        p := Take(costs, p, l);
        progressed := true;
      }
    }
  }

  function Budget(n: Num): (b: nat)
    ensures n.Finite? && n.value >= 0.0 ==> b as real <= n.value < b as real + 1.0
    ensures n.NotFinite? || n.value < 0.0 ==> b == 0
  {
    if n.Finite? && n.value.Floor > 0 then n.value.Floor else 0
  }

  /** The order of the overflow pass: the configured lanes that exist, then the others as listed. */
  ghost predicate OverflowOrder(lanes: seq<Lane>, overflow: seq<Lane>, order: seq<Lane>) {
    exists n :: 0 <= n <= |order|
      && Distinct(order[..n]) && InOrderOf(order[..n], overflow) && (forall l :: l in order[..n] <==> l in lanes && l in overflow)
      && Distinct(order[n..]) && InOrderOf(order[n..], lanes) && (forall l :: l in order[n..] <==> l in lanes && l !in overflow)
  }

  /** Every lane keeps whatever prefix costs no more than its part of the budget. */
  ghost predicate SharesProtected(costs: Costs, lanes: seq<Lane>, budget: nat, ws: seq<real>, p: Plan) {
    forall k, n | 0 <= k < |lanes| && k < |ws| && lanes[k] in costs && lanes[k] in p.cursor && 0 <= n <= |costs[lanes[k]]| ::
      Spent(costs[lanes[k]], n) as real * Sum(ws) <= budget as real * ws[k] ==> n <= p.cursor[lanes[k]]
  }

  /** The plan is what rounds over the order make of the protected shares. */
  ghost predicate Overflowed(costs: Costs, lanes: seq<Lane>, budget: nat, targets: seq<nat>, order: seq<Lane>, p: Plan)
    requires |targets| == |lanes|
  {
    exists rounds: seq<Plan> :: Rounds(costs, budget, order, rounds) && PlanOk(costs, lanes, budget, rounds[0])
      && Filled(costs, lanes, rounds[0].cursor, targets, |lanes|) && rounds[|rounds| - 1] == p
  }

  /** What a packing plan promises: prefixes within the budget; no next positive-cost item fits;
      and with budget to spare no next item at all fits. */
  ghost predicate Packed(costs: Costs, lanes: seq<Lane>, budget: nat, p: Plan) {
    && PlanOk(costs, lanes, budget, p)
    && (forall l :: l in lanes && p.cursor[l] < |costs[l]| && Cost(costs[l][p.cursor[l]]) > 0 ==> p.used + Cost(costs[l][p.cursor[l]]) > budget)
    && (p.used < budget ==> forall l :: l in lanes ==> Stuck(costs, budget, p, l))
  }

  lemma PackedAtExit(costs: Costs, lanes: seq<Lane>, budget: nat, p: Plan)
    requires PlanOk(costs, lanes, budget, p) && (p.used < budget ==> AllStuck(costs, lanes, budget, p))
    ensures Packed(costs, lanes, budget, p)
  {
  }

  lemma ProtectedAtExit(costs: Costs, lanes: seq<Lane>, budget: nat, ws: seq<real>, first: Plan, p: Plan)
    requires |ws| == |lanes| && (ws != [] ==> Sum(ws) > 0.0) && forall j :: 0 <= j < |ws| ==> ws[j] >= 0.0
    requires Filled(costs, lanes, first.cursor, TargetsOf(budget, ws), |lanes|) && Grown(lanes, first, p)
    ensures SharesProtected(costs, lanes, budget, ws, p)
  {
    hide Target, Sum, TargetsOf, Spent;
    forall k, n | 0 <= k < |lanes| && k < |ws| && lanes[k] in costs && lanes[k] in p.cursor && 0 <= n <= |costs[lanes[k]]|
      && Spent(costs[lanes[k]], n) as real * Sum(ws) <= budget as real * ws[k] ensures n <= p.cursor[lanes[k]]
    {
      WithinShare(budget, ws, k, Spent(costs[lanes[k]], n));
      assert lanes[k] in lanes;
      LongestIsLongest(costs[lanes[k]], first.cursor[lanes[k]], Target(budget, ws, k), n);
    }
  }

  lemma LongestIsLongest(costs: seq<Num>, m: nat, limit: nat, n: nat)
    requires LongestFitting(costs, m, limit) && n <= |costs| && Spent(costs, n) <= limit
    ensures n <= m
  {
    if m < n { SpentMonotone(costs, m + 1, n); }
  }

  predicate AllStuck(costs: Costs, lanes: seq<Lane>, budget: nat, p: Plan) {
    forall l :: l in lanes ==> l in costs && l in p.cursor && Stuck(costs, budget, p, l)
  }

  /** The overflow pass: sweep until nothing moves or the budget is used up. */
  method OverflowPass(costs: Costs, lanes: seq<Lane>, order: seq<Lane>, budget: nat, first: Plan) returns (p: Plan, ghost rounds: seq<Plan>)
    requires PlanOk(costs, lanes, budget, first) && Distinct(lanes) && forall l :: l in order <==> l in lanes
    ensures PlanOk(costs, lanes, budget, p) && Grown(lanes, first, p)
    ensures p.used < budget ==> AllStuck(costs, lanes, budget, p)
    ensures Rounds(costs, budget, order, rounds) && rounds[0] == first && rounds[|rounds| - 1] == p
  {
    hide Turns, Spent, Total, Prefix;
    var progressed := true;
    p := first;
    rounds := [first];
    while progressed && p.used < budget
      invariant PlanOk(costs, lanes, budget, p) && Grown(lanes, first, p)
      invariant !progressed ==> AllStuck(costs, lanes, budget, p)
      invariant Rounds(costs, budget, order, rounds) && rounds[0] == first && rounds[|rounds| - 1] == p
      decreases Remaining(costs, lanes, p.cursor), if progressed then 1 else 0
    {
      p, progressed := Sweep(costs, lanes, order, budget, p);
      rounds := rounds + [p];
    }
  }

  /** `Object.keys(costs).find(lane => !lanes.includes(lane))` */
  function FirstUnknown(keys: seq<Lane>, lanes: seq<Lane>): (r: Option<Lane>)
    ensures r.None? <==> forall l :: l in keys ==> l in lanes
    ensures r.Some? ==> exists i :: 0 <= i < |keys| && keys[i] == r.value && r.value !in lanes && forall j :: 0 <= j < i ==> keys[j] in lanes
  {
    if keys == [] then None else if keys[0] !in lanes then Some(keys[0]) else FirstUnknown(keys[1..], lanes)
  }

  /** `planContextPacking`; `keys` is the key order of `costs`, `None` the thrown error. A lane of the
      policy without costs always throws. An unknown lane throws unless the first one found has the
      empty name: the code tests the found name for truth, and then all unknown lanes are ignored. */
  method PlanContextPacking(costs: Costs, keys: seq<Lane>, tokenBudget: Num, laneOrder: seq<Lane>, weights: map<Lane, Num>, overflow: seq<Lane>)
    returns (r: Option<Plan>)
    requires forall l :: l in keys <==> l in costs
    ensures r.None? <==>
      || (exists l :: l in laneOrder && l !in costs)
      || (FirstUnknown(keys, laneOrder).Some? && FirstUnknown(keys, laneOrder).value.name != "")
    ensures r.Some? ==>
      var lanes, budget := Unique(laneOrder), Budget(tokenBudget);
      && Packed(costs, lanes, budget, r.value)
      && (forall ws :: PolicyWeights(weights, lanes, ws) ==> SharesProtected(costs, lanes, budget, ws, r.value))
      && (forall order :: OverflowOrder(lanes, overflow, order) ==>
            Overflowed(costs, lanes, budget, TargetsOf(budget, Weights(weights, lanes)), order, r.value))
  {
    hide Target, Sum, Weights, PlanOk, Filled, Packed, Grown, AllStuck, PolicyWeights, SharesProtected, OverflowOrder, Rounds, InOrderOf, Distinct;
    var lanes := Unique(laneOrder);
    UnknownInUnique(keys, laneOrder);
    var unknown := FirstUnknown(keys, lanes);
    if unknown.Some? && unknown.value.name != "" {
      return None;
    }
    if exists l :: l in lanes && l !in costs {
      return None;
    }
    var budget := Budget(tokenBudget);
    var ws := Weights(weights, lanes);
    SharesFit(budget, ws);
    var first := ProtectedPass(costs, lanes, budget, TargetsOf(budget, ws));
    var order := OrderFor(lanes, overflow);
    ghost var rounds;
    var p;
    p, rounds := OverflowPass(costs, lanes, order, budget, first);
    PackedAtExit(costs, lanes, budget, p);
    ProtectedAtExit(costs, lanes, budget, ws, first, p);
    forall other | PolicyWeights(weights, lanes, other) ensures other == ws { WeightsArePolicy(weights, lanes, other); }
    forall other | OverflowOrder(lanes, overflow, other) ensures other == order { OneOrder(lanes, overflow, order, other); }
    r := Some(p);
  }

  /** The overflow order, each lane once. */
  function OrderFor(lanes: seq<Lane>, overflow: seq<Lane>): (order: seq<Lane>)
    requires Distinct(lanes)
    ensures OverflowOrder(lanes, overflow, order) && forall l :: l in order <==> l in lanes
  {
    var configured := Unique(overflow);
    var a, b := Filter(configured, set l | l in lanes, true), Filter(lanes, set l | l in configured, false);
    assert (a + b)[..|a|] == a && (a + b)[|a|..] == b;
    UniqueOrder(a, overflow);
    a + b
  }

  /** Order among first occurrences is order in the listing. */
  lemma UniqueOrder(a: seq<Lane>, s: seq<Lane>)
    requires InOrderOf(a, Unique(s))
    ensures InOrderOf(a, s)
  {
    var u := Unique(s);
    forall i, j | 0 <= i < j < |a| ensures Ahead(s, a[i], a[j]) {
      assert Ahead(u, a[i], a[j]);
      var p :| 0 <= p < |u| && u[p] == a[i] && a[j] !in u[..p + 1];
      if a[j] in u {
        var q :| 0 <= q < |u| && u[q] == a[j];
        assert forall k :: 0 <= k <= p ==> u[k] in u[..p + 1];
        assert Ahead(s, u[p], u[q]);
      } else {
        assert a[i] in s && a[j] !in s;
        var k :| 0 <= k < |s| && s[k] == a[i];
        assert forall l :: l in s[..k + 1] ==> l in s;
      }
    }
  }

  /** There is one overflow order. */
  lemma OneOrder(lanes: seq<Lane>, overflow: seq<Lane>, a: seq<Lane>, b: seq<Lane>)
    requires OverflowOrder(lanes, overflow, a) && OverflowOrder(lanes, overflow, b)
    ensures a == b
  {
    hide Ahead, InOrderOf, Distinct;
    var m :| 0 <= m <= |a|
      && Distinct(a[..m]) && InOrderOf(a[..m], overflow) && (forall l :: l in a[..m] <==> l in lanes && l in overflow)
      && Distinct(a[m..]) && InOrderOf(a[m..], lanes) && (forall l :: l in a[m..] <==> l in lanes && l !in overflow);
    var n :| 0 <= n <= |b|
      && Distinct(b[..n]) && InOrderOf(b[..n], overflow) && (forall l :: l in b[..n] <==> l in lanes && l in overflow)
      && Distinct(b[n..]) && InOrderOf(b[n..], lanes) && (forall l :: l in b[n..] <==> l in lanes && l !in overflow);
    OneListing(a[..m], b[..n], overflow);
    OneListing(a[m..], b[n..], lanes);
    assert a == a[..m] + a[m..] && b == b[..n] + b[n..];
  }

  lemma {:induction false} UnknownInUnique(keys: seq<Lane>, laneOrder: seq<Lane>)
    ensures FirstUnknown(keys, Unique(laneOrder)) == FirstUnknown(keys, laneOrder)
  {
    if keys != [] { UnknownInUnique(keys[1..], laneOrder); }
  }
}
