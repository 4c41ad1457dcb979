/** The water level in the weighted queue
    (mahimahi/src/packet/weighted_packet_queue.cc), over real numbers. */
module WaterFilling {
  import opened Words

  function Sum(v: seq<real>): real {
    if v == [] then 0.0 else Sum(v[..|v| - 1]) + v[|v| - 1]
  }

  /** What each flow gets at level `alpha`. */
  function Share(v: seq<real>, alpha: real): (r: seq<real>)
    ensures |r| == |v| && forall i | 0 <= i < |v| :: r[i] == MinReal(v[i], alpha)
  {
    seq(|v|, i requires 0 <= i < |v| => MinReal(v[i], alpha))
  }

  function Filled(v: seq<real>, alpha: real): real {
    Sum(Share(v, alpha))
  }

  predicate Ascending(v: seq<real>) {
    forall i, j | 0 <= i < j < |v| :: v[i] <= v[j]
  }

  predicate NonNegative(v: seq<real>) {
    forall i | 0 <= i < |v| :: v[i] >= 0.0
  }

  /** `sort`. */
  function Insert(v: seq<real>, x: real): (r: seq<real>)
    requires Ascending(v)
    ensures Ascending(r) && multiset(r) == multiset(v) + multiset{x} && |r| == |v| + 1
  {
    if v == [] || v[|v| - 1] <= x then v + [x]
    else
      var last := v[|v| - 1];
      assert v == v[..|v| - 1] + [last];
      var front := Insert(v[..|v| - 1], x);
      assert forall i | 0 <= i < |front| :: front[i] <= last by {
        forall i | 0 <= i < |front| ensures front[i] <= last {
          assert front[i] in multiset(front);
        }
      }
      front + [last]
  }

  function Sort(v: seq<real>): (r: seq<real>)
    ensures Ascending(r) && multiset(r) == multiset(v) && |r| == |v|
  {
    if v == [] then []
    else
      assert v == v[..|v| - 1] + [v[|v| - 1]];
      Insert(Sort(v[..|v| - 1]), v[|v| - 1])
  }

  // ----- the order of the flows does not matter -----

  lemma {:induction false} SumConcat(a: seq<real>, b: seq<real>)
    ensures Sum(a + b) == Sum(a) + Sum(b)
  {
    if b == [] {
      assert a + b == a;
    } else {
      var n := |b| - 1;
      assert (a + b)[..|a + b| - 1] == a + b[..n];
      SumConcat(a, b[..n]);
    }
  }

  lemma {:induction false} FilledOfPermutation(a: seq<real>, b: seq<real>, alpha: real)
    requires multiset(a) == multiset(b)
    ensures Filled(a, alpha) == Filled(b, alpha)
    decreases |a|
  {
    assert |a| == |multiset(a)| == |multiset(b)| == |b|;
    if a != [] {
      var n, x := |a| - 1, a[|a| - 1];
      assert a == a[..n] + [x];
      assert x in multiset(b);
      var k :| 0 <= k < |b| && b[k] == x;
      var b' := b[..k] + b[k + 1..];
      assert b == b[..k] + [x] + b[k + 1..];
      assert multiset(a[..n]) == multiset(a) - multiset{x};
      assert multiset(b') == multiset(b) - multiset{x};
      FilledOfPermutation(a[..n], b', alpha);
      FilledConcat(a[..n], [x], alpha);
      FilledConcat(b[..k] + [x], b[k + 1..], alpha);
      FilledConcat(b[..k], [x], alpha);
      FilledConcat(b[..k], b[k + 1..], alpha);
    }
  }

  lemma FilledConcat(a: seq<real>, b: seq<real>, alpha: real)
    ensures Filled(a + b, alpha) == Filled(a, alpha) + Filled(b, alpha)
  {
    assert Share(a + b, alpha) == Share(a, alpha) + Share(b, alpha);
    SumConcat(Share(a, alpha), Share(b, alpha));
  }

  // ----- multiples of a level -----

  function Times(alpha: real, n: nat): real {
    alpha * (n as real)
  }

  lemma TimesSuccessor(alpha: real, n: nat)
    ensures Times(alpha, n + 1) == Times(alpha, n) + alpha && Times(alpha, 0) == 0.0 && Times(0.0, n) == 0.0
  {
  }

  lemma TimesCancels(a: real, b: real, n: nat)
    requires n > 0
    ensures Times(a, n) <= Times(b, n) ==> a <= b
    ensures Times(a / (n as real), n) == a
  {
    if b < a {
      assert Times(a, n) - Times(b, n) == (a - b) * (n as real) > 0.0;
    }
  }

  // ----- sums at and below a level -----

  lemma {:induction false} BelowLevel(v: seq<real>, alpha: real)
    requires forall i | 0 <= i < |v| :: v[i] <= alpha
    ensures Filled(v, alpha) == Sum(v)
  {
    assert Share(v, alpha) == v;
  }

  lemma {:induction false} AboveLevel(v: seq<real>, alpha: real)
    requires forall i | 0 <= i < |v| :: alpha <= v[i]
    ensures Filled(v, alpha) == Times(alpha, |v|)
    decreases |v|
  {
    hide Times;
    TimesSuccessor(alpha, 0);
    if v != [] {
      var n := |v| - 1;
      AboveLevel(v[..n], alpha);
      assert Share(v, alpha)[..n] == Share(v[..n], alpha);
      TimesSuccessor(alpha, n);
    }
  }

  /** The sum at a level that lies between flow `i - 1` and flow `i`. */
  lemma SplitAtLevel(v: seq<real>, i: nat, alpha: real)
    requires i <= |v| && (forall j | 0 <= j < i :: v[j] <= alpha) && (forall j | i <= j < |v| :: alpha <= v[j])
    ensures Filled(v, alpha) == Sum(v[..i]) + Times(alpha, |v| - i)
  {
    hide Times;
    assert v == v[..i] + v[i..];
    FilledConcat(v[..i], v[i..], alpha);
    BelowLevel(v[..i], alpha);
    AboveLevel(v[i..], alpha);
  }

  /** The loop's test: filling to `v[i]` costs `prefix + v[i] * remaining`. */
  lemma CostOfLevel(v: seq<real>, i: nat)
    requires Ascending(v) && i < |v|
    ensures Filled(v, v[i]) == Sum(v[..i]) + Times(v[i], |v| - i)
  {
    hide Times;
    SplitAtLevel(v, i, v[i]);
  }

  // ----- the algorithm -----

  /** Prefix sums, then the first flow whose level costs more than there is. */
  method WaterLevel(v3: seq<real>, total: real) returns (alphaWater: real)
    requires Ascending(v3) && NonNegative(v3) && total >= 0.0
    ensures Filled(v3, alphaWater) == MinReal(total, Sum(v3))
    ensures alphaWater >= 0.0
  {
    hide Filled, Times;
    var v4 := [0.0];
    for i := 0 to |v3|
      invariant |v4| == i + 1 && forall j | 0 <= j <= i :: v4[j] == Sum(v3[..j])
    {
      assert v3[..i + 1][..i] == v3[..i];
      v4 := v4 + [v4[i] + v3[i]];
    }
    alphaWater := 0.0;
    AboveLevel(v3, 0.0);
    TimesSuccessor(0.0, |v3|);
    for i := 0 to |v3|
      invariant alphaWater == if i == 0 then 0.0 else v3[i - 1]
      invariant alphaWater >= 0.0 && Filled(v3, alphaWater) <= total
    {
      CostOfLevel(v3, i);
      if v4[i] + Times(v3[i], |v3| - i) > total {
        alphaWater := (total - v4[i]) / ((|v3| - i) as real);
        LevelWithin(v3, i, total);
        return;
      }
      alphaWater := v3[i];
    }
    BelowLevel(v3, alphaWater);
  }

  /** The level computed lies between flow `i - 1` and flow `i`, and uses up the
      total exactly. */
  lemma {:induction false} LevelWithin(v: seq<real>, i: nat, total: real)
    requires Ascending(v) && NonNegative(v) && i < |v| && total >= 0.0
    requires Filled(v, v[i]) > total
    requires i > 0 ==> Filled(v, v[i - 1]) <= total
    ensures var alpha := (total - Sum(v[..i])) / ((|v| - i) as real);
            0.0 <= alpha && Filled(v, alpha) == total && total <= Sum(v)
  {
    hide Times, Sum, Filled;
    var n := |v| - i;
    var alpha := (total - Sum(v[..i])) / (n as real);
    TimesCancels(total - Sum(v[..i]), 0.0, n);
    CostOfLevel(v, i);
    TimesCancels(alpha, v[i], n);
    if i > 0 {
      SplitAtLevel(v, i, v[i - 1]);
      TimesCancels(v[i - 1], alpha, n);
    } else {
      TimesSuccessor(0.0, n);
      TimesCancels(0.0, alpha, n);
      SumOfNone(v);
    }
    SplitAtLevel(v, i, alpha);
    FilledBound(v, v[i]);
  }

  lemma SumOfNone(v: seq<real>)
    ensures Sum(v[..0]) == 0.0
  {
  }

  lemma {:induction false} FilledBound(v: seq<real>, alpha: real)
    ensures Filled(v, alpha) <= Sum(v)
    decreases |v|
  {
    if v != [] {
      assert Share(v, alpha)[..|v| - 1] == Share(v[..|v| - 1], alpha);
      FilledBound(v[..|v| - 1], alpha);
    }
  }

  // ----- no other level does better or differently -----

  lemma {:induction false} FilledMonotone(v: seq<real>, a: real, b: real)
    requires a <= b
    ensures Filled(v, a) <= Filled(v, b)
    ensures Filled(v, a) == Filled(v, b) ==> Share(v, a) == Share(v, b)
    decreases |v|
  {
    if v != [] {
      var n := |v| - 1;
      assert Share(v, a)[..n] == Share(v[..n], a) && Share(v, b)[..n] == Share(v[..n], b);
      FilledMonotone(v[..n], a, b);
      if Filled(v, a) == Filled(v, b) {
        assert Share(v, a) == Share(v[..n], a) + [MinReal(v[n], a)];
        assert Share(v, b) == Share(v[..n], b) + [MinReal(v[n], b)];
      }
    }
  }

  /** Any two levels that hand out the same sum give every flow the same share. */
  lemma LevelIsUnique(v: seq<real>, a: real, b: real)
    requires Filled(v, a) == Filled(v, b)
    ensures Share(v, a) == Share(v, b)
  {
    if a <= b { FilledMonotone(v, a, b); } else { FilledMonotone(v, b, a); }
  }

  /** For demands in any order: the level of the sorted demands hands out exactly
      the total, or every demand when the total is more than enough. */
  method LevelForDemands(demands: seq<real>, total: real) returns (alphaWater: real)
    requires NonNegative(demands) && total >= 0.0
    ensures Filled(demands, alphaWater) == MinReal(total, Sum(demands))
    ensures forall other: real :: Filled(demands, other) == MinReal(total, Sum(demands)) ==> Share(demands, other) == Share(demands, alphaWater)
  {
    var v3 := Sort(demands);
    assert NonNegative(v3) by {
      forall i | 0 <= i < |v3| ensures v3[i] >= 0.0 {
        assert v3[i] in multiset(v3);
        assert v3[i] in demands;
      }
    }
    alphaWater := WaterLevel(v3, total);
    FilledOfPermutation(demands, v3, alphaWater);
    SumOfPermutation(demands, v3);
    forall other: real | Filled(demands, other) == MinReal(total, Sum(demands))
      ensures Share(demands, other) == Share(demands, alphaWater)
    {
      LevelIsUnique(demands, other, alphaWater);
    }
  }

  lemma Bounded(v: seq<real>) returns (m: real)
    ensures forall i | 0 <= i < |v| :: v[i] <= m
  {
    m := 0.0;
    for i := 0 to |v|
      invariant forall j | 0 <= j < i :: v[j] <= m
    {
      if m < v[i] { m := v[i]; }
    }
  }

  lemma {:induction false} SumOfPermutation(a: seq<real>, b: seq<real>)
    requires multiset(a) == multiset(b)
    ensures Sum(a) == Sum(b)
  {
    var m := Bounded(a + b);
    assert forall i | 0 <= i < |a| :: (a + b)[i] == a[i];
    assert forall i | 0 <= i < |b| :: (a + b)[|a| + i] == b[i];
    BelowLevel(a, m);
    BelowLevel(b, m);
    FilledOfPermutation(a, b, m);
  }

  // ----- the choice of queue -----

  function Distance(x: real, y: real): real {
    if x < y then y - x else x - y
  }

  /** The weight of the first queue: of the weights between 0.05 and 0.95 that are
      within a fifth of the share it actually had, the one nearest to its share of
      the water-filled demand. */
  function Weight(share1: real, share2: real, actual: real): (w: real)
    requires share1 + share2 > 0.0
    ensures 0.05 <= w <= 0.95
    ensures var wanted := share1 / (share1 + share2);
            var low, high := MaxReal(0.05, 0.8 * actual), MinReal(0.95, 1.2 * actual);
            if low <= high then low <= w <= high && forall x: real | low <= x <= high :: Distance(w, wanted) <= Distance(x, wanted)
            else w == 0.05 || w == 0.95
  {
    var w := share1 / (share1 + share2);
    MinReal(0.95, MaxReal(0.05, MinReal(1.2 * actual, MaxReal(0.8 * actual, w))))
  }

  /** Which queue is served for a random draw below 1000, and whether the other
      one, being empty, is told of the opportunity. */
  datatype Choice = First(tellSecond: bool) | Second

  predicate DrawnFirst(draw: nat, weight: real) {
    (draw as real) < weight * 1000.0
  }

  function Choose(empty1: bool, empty2: bool, draw: nat, weight: real): (c: Choice)
    requires !(empty1 && empty2)
    ensures c.First? ==> !empty1
    ensures c.Second? ==> !empty2
    ensures c.First? && c.tellSecond ==> empty2
  {
    if empty2 || (DrawnFirst(draw, weight) && !empty1) then First(empty2 && !DrawnFirst(draw, weight)) else Second
  }

  /** How many of the draws below `n` serve the first queue when both have packets. */
  function FirstServed(weight: real, n: nat): nat {
    if n == 0 then 0 else FirstServed(weight, n - 1) + if Choose(false, false, n - 1, weight).First? then 1 else 0
  }

  /** With both queues backlogged the thousand draws divide the service by the
      weight, to within one draw. */
  lemma {:induction false} ServiceFollowsWeight(weight: real, n: nat)
    requires weight >= 0.0
    ensures var x := weight * 1000.0;
            && (x <= n as real ==> x <= FirstServed(weight, n) as real < x + 1.0)
            && (x >= n as real ==> FirstServed(weight, n) == n)
  {
    if n > 0 { ServiceFollowsWeight(weight, n - 1); }
  }

  /** How many of them tell an empty second queue of an opportunity. */
  function SecondTold(weight: real, n: nat): nat {
    if n == 0 then 0 else SecondTold(weight, n - 1) + if Choose(false, true, n - 1, weight) == First(true) then 1 else 0
  }

  /** An empty second queue is told of exactly those opportunities that would have
      served it. */
  lemma {:induction false} EmptySecondIsTold(weight: real, n: nat)
    ensures SecondTold(weight, n) + FirstServed(weight, n) == n
  {
    if n > 0 { EmptySecondIsTold(weight, n - 1); }
  }
}
