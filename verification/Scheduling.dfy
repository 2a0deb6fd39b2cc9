/**
 Weighted scheduling of `core/routing.py`: weight normalisation and the ratio-based round
 robin. Weights are positive integers, ratios exact reals, a Python dict an ordered sequence of
 distinct names with a map.
 */
module Scheduling {
  import opened Collections

  const WRR_MAX_TOTAL := 1000

  type Weights = map<string, int>

  ghost predicate Distinct<T>(s: seq<T>) {
    forall i, j :: 0 <= i < j < |s| ==> s[i] != s[j]
  }

  // A dictionary from the names, in insertion order, to positive weights.
  ghost predicate WeightTable(names: seq<string>, w: Weights) {
    Distinct(names) && (forall name :: name in names <==> name in w) && forall name :: name in w ==> w[name] >= 1
  }

  function Total(names: seq<string>, w: Weights): int
    requires forall name :: name in names ==> name in w
  {
    if names == [] then 0 else Total(names[..|names| - 1], w) + w[names[|names| - 1]]
  }

  // ---------- greatest common divisor ----------

  function Gcd(a: nat, b: nat): (g: nat)
    ensures a > 0 || b > 0 ==> g > 0
    decreases b
  {
    if b == 0 then a else Gcd(b, a % b)
  }

  ghost predicate Divides(d: int, n: int) {
    exists q: int :: n == d * q
  }

  lemma DividesRemainder(d: int, a: nat, b: nat)
    requires b > 0 && Divides(d, b)
    ensures Divides(d, a) <==> Divides(d, a % b)
  {
    var y: int :| b == d * y;
    assert a == b * (a / b) + a % b;
    if Divides(d, a) {
      var x: int :| a == d * x;
      assert a % b == d * (x - y * (a / b)) by { Distribute(d, x, y * (a / b)); Reassociate(d, y, a / b); }
    }
    if Divides(d, a % b) {
      var r: int :| a % b == d * r;
      assert a == d * (y * (a / b) + r) by { Distribute(d, r, -(y * (a / b))); Reassociate(d, y, a / b); }
    }
  }

  lemma Distribute(d: int, x: int, z: int)
    ensures d * (x - z) == d * x - d * z
  {
  }

  lemma Reassociate(d: int, y: int, z: int)
    ensures (d * y) * z == d * (y * z)
  {
  }

  lemma {:induction false} GcdIsGreatest(a: nat, b: nat, d: int)
    ensures Divides(Gcd(a, b), a) && Divides(Gcd(a, b), b)
    ensures Divides(d, a) && Divides(d, b) ==> Divides(d, Gcd(a, b))
    decreases b
  {
    if b == 0 {
      assert a == a * 1 && b == a * 0;
    } else {
      GcdIsGreatest(b, a % b, d);
      DividesRemainder(Gcd(a, b), a, b);
      if Divides(d, b) { DividesRemainder(d, a, b); }
    }
  }

  // `reduce(gcd, values)`
  function GcdOf(names: seq<string>, w: Weights): (g: nat)
    requires names != [] && forall name :: name in names ==> name in w && w[name] >= 1
    ensures g >= 1
  {
    if |names| == 1 then w[names[0]] else Gcd(GcdOf(names[..|names| - 1], w), w[names[|names| - 1]])
  }

  /** The divisor used is the greatest common divisor of all the weights. */
  lemma {:induction false} GcdOfIsGreatest(names: seq<string>, w: Weights, d: int)
    requires names != [] && forall name :: name in names ==> name in w && w[name] >= 1
    ensures forall name :: name in names ==> Divides(GcdOf(names, w), w[name])
    ensures (forall name :: name in names ==> Divides(d, w[name])) ==> Divides(d, GcdOf(names, w))
  {
    var g := GcdOf(names, w);
    if |names| == 1 {
      assert w[names[0]] == g * 1;
    } else {
      var init, last := names[..|names| - 1], w[names[|names| - 1]];
      GcdOfIsGreatest(init, w, d);
      GcdIsGreatest(GcdOf(init, w), last, d);
      forall name | name in init
        ensures Divides(g, w[name])
      {
        DividesTrans(g, GcdOf(init, w), w[name]);
      }
      assert forall name :: name in names <==> name in init || name == names[|names| - 1];
    }
  }

  lemma DividesTrans(a: int, b: int, c: int)
    requires Divides(a, b) && Divides(b, c)
    ensures Divides(a, c)
  {
    var x: int :| b == a * x;
    var y: int :| c == b * y;
    Reassociate(a, x, y);
  }

  // ---------- normalisation ----------

  function DividedBy(w: Weights, g: nat): Weights
    requires g >= 1
  {
    map name | name in w :: w[name] / g
  }

  function ScaledTo(w: Weights, total: int): Weights
    requires total > 0
  {
    map name | name in w :: var v := w[name] * WRR_MAX_TOTAL / total; if v < 1 then 1 else v
  }

  function Reduced(names: seq<string>, w: Weights): Weights
    requires WeightTable(names, w)
  {
    if names == [] then w
    else
      var g := GcdOf(names, w);
      if g > 1 then DividedBy(w, g) else w
  }

  function Normalised(names: seq<string>, w: Weights): (r: Weights)
    requires WeightTable(names, w)
    ensures r.Keys == w.Keys
  {
    var reduced := Reduced(names, w);
    assert reduced.Keys == w.Keys;
    if Total(names, reduced) > WRR_MAX_TOTAL then ScaledTo(reduced, Total(names, reduced)) else reduced
  }

  lemma DivExact(v: int, g: int)
    requires g >= 1 && Divides(g, v)
    ensures v == g * (v / g)
  {
    var q: int :| v == g * q;
    assert (v - g * q) == 0;
    DivUnique(v, g, q);
  }

  lemma DivUnique(v: int, g: int, q: int)
    requires g >= 1 && v == g * q
    ensures v / g == q
  {
    var r := v / g;
    assert v == g * r + v % g;
    Distribute(g, r, -1);
    ScaleOrder(g, r, q);
    ScaleOrder(g, r + 1, q);
  }

  /** The GCD step leaves positive weights in exactly the same proportions. */
  lemma ReducedExact(names: seq<string>, w: Weights)
    requires WeightTable(names, w)
    ensures WeightTable(names, Reduced(names, w))
    ensures exists g :: Multiple(w, Reduced(names, w), g)
  {
    var r := Reduced(names, w);
    if names == [] || GcdOf(names, w) <= 1 {
      assert Multiple(w, r, 1);
    } else {
      var g := GcdOf(names, w);
      GcdOfIsGreatest(names, w, 1);
      forall name | name in w
        ensures w[name] == g * r[name] && r[name] >= 1
      {
        DivExact(w[name], g);
      }
      assert Multiple(w, r, g);
    }
  }

  lemma DivMonotone(a: int, b: int, d: int)
    requires a <= b && d > 0
    ensures a / d <= b / d
  {
    assert a == d * (a / d) + a % d && b == d * (b / d) + b % d;
    Distribute(d, b / d, -1);
    ScaleOrder(d, b / d + 1, a / d);
  }

  lemma MulMonotone(k: int, x: int, y: int)
    requires k >= 0 && x <= y
    ensures k * x <= k * y && x * k <= y * k
  {
  }

  // `w` is `r` with every weight multiplied by `g`.
  ghost predicate Multiple(w: Weights, r: Weights, g: int) {
    g >= 1 && w.Keys == r.Keys && forall name :: name in w ==> w[name] == g * r[name]
  }

  /** Normalisation keeps every weight at least 1 and their order. */
  lemma NormalisedOrder(names: seq<string>, w: Weights, a: string, b: string)
    requires WeightTable(names, w) && a in w && b in w
    ensures WeightTable(names, Normalised(names, w))
    ensures w[a] <= w[b] ==> Normalised(names, w)[a] <= Normalised(names, w)[b]
  {
    var r := Reduced(names, w);
    ReducedExact(names, w);
    var g :| Multiple(w, r, g);
    assert r.Keys == w.Keys;
    ScaleOrder(g, r[a], r[b]);
    var total := Total(names, r);
    if total > WRR_MAX_TOTAL && r[a] <= r[b] {
      MulMonotone(WRR_MAX_TOTAL, r[a], r[b]);
      DivMonotone(r[a] * WRR_MAX_TOTAL, r[b] * WRR_MAX_TOTAL, total);
    }
  }

  /** When only the GCD step applies all ratios are exact; otherwise the sum is at most
      1000 + n, so the scheduler's number of rounds is bounded by that. */
  lemma NormalisedSize(names: seq<string>, w: Weights, a: string, b: string)
    requires WeightTable(names, w) && a in w && b in w
    ensures Total(names, Normalised(names, w)) <= WRR_MAX_TOTAL + |names|
    ensures Total(names, Reduced(names, w)) <= WRR_MAX_TOTAL ==>
      Normalised(names, w)[a] * w[b] == Normalised(names, w)[b] * w[a]
  {
    var r := Reduced(names, w);
    ReducedExact(names, w);
    var g :| Multiple(w, r, g);
    assert r[a] * (g * r[b]) == r[b] * (g * r[a]) by {
      Reassociate(g, r[a], r[b]);
      Reassociate(g, r[b], r[a]);
    }
    if Total(names, r) > WRR_MAX_TOTAL {
      ScaledTotal(names, r, Total(names, r));
    }
  }

  lemma {:induction false} ScaledTotal(names: seq<string>, r: Weights, total: int)
    requires total > 0 && forall name :: name in names ==> name in r && r[name] >= 1
    ensures total * (Total(names, ScaledTo(r, total)) - |names|) <= WRR_MAX_TOTAL * Total(names, r)
    ensures total >= Total(names, r) ==> Total(names, ScaledTo(r, total)) <= WRR_MAX_TOTAL + |names|
  {
    var s := ScaledTo(r, total);
    if names != [] {
      var init, last := names[..|names| - 1], names[|names| - 1];
      ScaledTotal(init, r, total);
      ScaledOne(r[last], total);
      Distribute(total, Total(init, s) - |init|, 1 - s[last]);
    }
    if total >= Total(names, r) {
      MulMonotone(WRR_MAX_TOTAL, Total(names, r), total);
      ScaleOrder(total, Total(names, s) - |names|, WRR_MAX_TOTAL);
    }
  }

  lemma ScaledOne(v: int, total: int)
    requires total > 0 && v >= 1
    ensures var s := v * WRR_MAX_TOTAL / total; total * ((if s < 1 then 1 else s) - 1) <= WRR_MAX_TOTAL * v
  {
    var s := v * WRR_MAX_TOTAL / total;
    assert total * s <= v * WRR_MAX_TOTAL;
    Distribute(total, s, 1);
  }

  // ---------- proportions ----------

  /** `share` is what a weight is worth among weights of this sum and greatest common divisor: the
      weight without the divisor when that leaves a sum of at most 1000, otherwise its part of 1000
      rounded down, and at least 1. */
  ghost predicate FairShare(divisor: int, total: int, weight: int, share: int) {
    if total <= 1000 * divisor then divisor * share == weight
    else share >= 1 && (share == 1 || total * share <= 1000 * weight) && 1000 * weight < total * (share + 1)
  }

  lemma ScaledShare(v: int, total: int)
    requires total > 0 && v >= 1
    ensures var s := v * WRR_MAX_TOTAL / total;
      var share := if s < 1 then 1 else s;
      share >= 1 && (share == 1 || total * share <= 1000 * v) && 1000 * v < total * (share + 1)
  {
    var s := v * WRR_MAX_TOTAL / total;
    assert v * WRR_MAX_TOTAL == total * s + (v * WRR_MAX_TOTAL) % total;
    Distribute(total, s, -1);
    Distribute(total, 1, -1);
    if s < 1 { MulMonotone(total, s + 1, 2); }
  }

  lemma {:induction false} MultipleTotal(names: seq<string>, w: Weights, r: Weights, g: int)
    requires Multiple(w, r, g) && forall name :: name in names ==> name in w
    ensures Total(names, w) == g * Total(names, r)
  {
    if names != [] {
      var init, last := names[..|names| - 1], names[|names| - 1];
      MultipleTotal(init, w, r, g);
      Distribute(g, Total(init, r), -r[last]);
    }
  }

  lemma ReducedMultiple(names: seq<string>, w: Weights)
    requires WeightTable(names, w) && names != []
    ensures Multiple(w, Reduced(names, w), GcdOf(names, w))
  {
    var g := GcdOf(names, w);
    GcdOfIsGreatest(names, w, 1);
    forall name | name in w && g > 1
      ensures w[name] == g * (w[name] / g)
    {
      DivExact(w[name], g);
    }
  }

  /** Every normalised weight is the fair share of its weight. */
  lemma NormalisedShare(names: seq<string>, w: Weights, name: string)
    requires WeightTable(names, w) && name in names
    ensures FairShare(GcdOf(names, w), Total(names, w), w[name], Normalised(names, w)[name])
  {
    hide GcdOf, Reduced, Total;
    var g, r := GcdOf(names, w), Reduced(names, w);
    ReducedExact(names, w);
    ReducedMultiple(names, w);
    MultipleTotal(names, w, r, g);
    TotalPositive(names, r);
    if Total(names, r) > WRR_MAX_TOTAL { ScaledShare(r[name], Total(names, r)); }
    ShareMultiplied(g, Total(names, r), r[name], Normalised(names, w)[name]);
  }

  lemma ShareMultiplied(g: int, total: int, v: int, share: int)
    requires g >= 1 && total >= 1
    requires if total <= 1000 then share == v
      else share >= 1 && (share == 1 || total * share <= 1000 * v) && 1000 * v < total * (share + 1)
    ensures FairShare(g, g * total, g * v, share)
  {
    ScaleOrder(g, total, 1000);
    ScaleOrder(g, total * share, 1000 * v);
    ScaleOrder(g, 1000 * v + 1, total * (share + 1));
    Distribute(g, 1000 * v, -1);
    Reassociate(g, total, share);
    Reassociate(g, total, share + 1);
    Reassociate(1000, g, v);
    assert g * (1000 * v) == 1000 * (g * v);
  }

  /** The shares of all names miss the sum they stand for by less than one each. */
  lemma {:induction false} SharesTotal(names: seq<string>, w: Weights, s: Weights, divisor: int, total: int)
    requires forall name :: name in names ==> name in w && name in s && FairShare(divisor, total, w[name], s[name])
    ensures total <= 1000 * divisor ==> divisor * Total(names, s) == Total(names, w)
    ensures total > 1000 * divisor ==> 1000 * Total(names, w) <= total * (Total(names, s) + |names|)
  {
    if names != [] {
      var init, last := names[..|names| - 1], names[|names| - 1];
      SharesTotal(init, w, s, divisor, total);
      assert FairShare(divisor, total, w[last], s[last]);
      Distribute(divisor, Total(init, s), -s[last]);
      Distribute(total, Total(init, s) + |init|, -(s[last] + 1));
    }
  }

  /** The normalised weights add up to the weights without their divisor, or else to at least 1000
      less one for each name. */
  lemma NormalisedTotal(names: seq<string>, w: Weights)
    requires WeightTable(names, w) && names != []
    ensures var g, total, size := GcdOf(names, w), Total(names, w), Total(names, Normalised(names, w));
      if total <= 1000 * g then g * size == total else 1000 - |names| <= size <= 1000 + |names|
  {
    var g, total, s := GcdOf(names, w), Total(names, w), Normalised(names, w);
    forall name | name in names
      ensures FairShare(g, total, w[name], s[name])
    {
      NormalisedShare(names, w, name);
    }
    SharesTotal(names, w, s, g, total);
    NormalisedSize(names, w, names[0], names[0]);
    if total > 1000 * g {
      TotalPositive(names, w);
      ScaleOrder(total, Total(names, s) + |names| + 1, 1000);
      Distribute(total, Total(names, s) + |names|, -1);
    }
  }

  // ---------- the round robin ----------

  function Picks(picked: seq<string>, name: string): nat {
    if picked == [] then 0
    else Picks(picked[..|picked| - 1], name) + (if picked[|picked| - 1] == name then 1 else 0)
  }

  lemma PicksAppend(picked: seq<string>, last: string, name: string)
    ensures Picks(picked + [last], name) == Picks(picked, name) + (if last == name then 1 else 0)
  {
    assert (picked + [last])[..|picked|] == picked;
  }

  // Name `i` has been served least for its weight, and less than every name before it.
  ghost predicate LeastServed(names: seq<string>, w: Weights, picked: seq<string>, i: int)
    requires forall name :: name in names ==> name in w
  {
    && 0 <= i < |names|
    && forall j :: 0 <= j < |names| ==>
      var mine, theirs := Picks(picked, names[i]) * w[names[j]], Picks(picked, names[j]) * w[names[i]];
      mine <= theirs && (j < i ==> mine < theirs)
  }

  /** A schedule in which every pick is the first of the least served names: the round robin
      described without its credits and ratios. */
  ghost predicate FairSchedule(names: seq<string>, w: Weights, picked: seq<string>)
    requires forall name :: name in names ==> name in w
  {
    picked == [] ||
    var init := picked[..|picked| - 1];
    FairSchedule(names, w, init) && exists i :: LeastServed(names, w, init, i) && names[i] == picked[|picked| - 1]
  }

  lemma {:induction false} ScheduledNames(names: seq<string>, w: Weights, picked: seq<string>)
    requires (forall name :: name in names ==> name in w) && FairSchedule(names, w, picked)
    ensures forall name :: name in picked ==> name in names
  {
    if picked != [] {
      ScheduledNames(names, w, picked[..|picked| - 1]);
    }
  }

  /** At every prefix no name is more than one pick ahead of its share against any other. */
  lemma {:induction false} PrefixFair(names: seq<string>, w: Weights, picked: seq<string>, a: int, b: int)
    requires WeightTable(names, w) && FairSchedule(names, w, picked)
    requires 0 <= a < |names| && 0 <= b < |names| && Picks(picked, names[a]) >= 1
    ensures (Picks(picked, names[a]) - 1) * w[names[b]] <= Picks(picked, names[b]) * w[names[a]]
  {
    var init := picked[..|picked| - 1];
    var i :| LeastServed(names, w, init, i) && names[i] == picked[|picked| - 1];
    if i != a {
      PrefixFair(names, w, init, a, b);
    }
    assert (Picks(picked, names[a]) - 1) * w[names[b]] <= Picks(init, names[b]) * w[names[a]];
    MulMonotone(w[names[a]], Picks(init, names[b]), Picks(picked, names[b]));
  }

  function TotalPicks(names: seq<string>, picked: seq<string>): int {
    if names == [] then 0 else TotalPicks(names[..|names| - 1], picked) + Picks(picked, names[|names| - 1])
  }

  lemma {:induction false} TotalPicksAppend(names: seq<string>, picked: seq<string>, last: string)
    requires Distinct(names)
    ensures TotalPicks(names, picked + [last]) == TotalPicks(names, picked) + (if last in names then 1 else 0)
  {
    if names != [] {
      var init := names[..|names| - 1];
      TotalPicksAppend(init, picked, last);
      PicksAppend(picked, last, names[|names| - 1]);
      assert names == init + [names[|names| - 1]];
    }
  }

  lemma {:induction false} EveryPickCounted(names: seq<string>, picked: seq<string>)
    requires Distinct(names) && forall name :: name in picked ==> name in names
    ensures TotalPicks(names, picked) == |picked|
  {
    if picked == [] {
      NoPicks(names);
    } else {
      var init := picked[..|picked| - 1];
      EveryPickCounted(names, init);
      TotalPicksAppend(names, init, picked[|picked| - 1]);
      assert picked == init + [picked[|picked| - 1]];
    }
  }

  lemma {:induction false} NoPicks(names: seq<string>)
    ensures TotalPicks(names, []) == 0
  {
    if names != [] { NoPicks(names[..|names| - 1]); }
  }

  // Comparing picks with weights name by name compares the sums.
  lemma {:induction false} SumsAtLeast(names: seq<string>, w: Weights, picked: seq<string>)
    requires forall name :: name in names ==> name in w && Picks(picked, name) >= w[name]
    ensures TotalPicks(names, picked) >= Total(names, w)
    ensures (exists name :: name in names && Picks(picked, name) > w[name]) ==>
      TotalPicks(names, picked) > Total(names, w)
  {
    if names != [] { SumsAtLeast(names[..|names| - 1], w, picked); }
  }

  lemma {:induction false} SumsAtMost(names: seq<string>, w: Weights, picked: seq<string>)
    requires forall name :: name in names ==> name in w && Picks(picked, name) <= w[name]
    ensures TotalPicks(names, picked) <= Total(names, w)
    ensures (exists name :: name in names && Picks(picked, name) < w[name]) ==>
      TotalPicks(names, picked) < Total(names, w)
  {
    if names != [] { SumsAtMost(names[..|names| - 1], w, picked); }
  }

  /** A full schedule serves every name exactly as often as its weight says. */
  lemma FullScheduleExact(names: seq<string>, w: Weights, picked: seq<string>, a: int)
    requires WeightTable(names, w) && FairSchedule(names, w, picked) && |picked| == Total(names, w)
    requires 0 <= a < |names|
    ensures Picks(picked, names[a]) == w[names[a]]
  {
    ScheduledNames(names, w, picked);
    EveryPickCounted(names, picked);
    forall c | 0 <= c < |names|
      ensures Picks(picked, names[c]) <= w[names[c]]
    {
      if Picks(picked, names[c]) > w[names[c]] {
        forall b | 0 <= b < |names|
          ensures Picks(picked, names[b]) >= w[names[b]]
        {
          PrefixFair(names, w, picked, c, b);
          CrossBound(Picks(picked, names[c]) - 1, w[names[c]], Picks(picked, names[b]), w[names[b]]);
        }
        SumsAtLeast(names, w, picked);
        assert false;
      }
    }
    SumsAtMost(names, w, picked);
    assert names[a] in names;
  }

  lemma CrossBound(ca: int, wa: int, cb: int, wb: int)
    requires wa >= 1 && wb >= 1 && ca >= wa && ca * wb <= cb * wa
    ensures cb >= wb
  {
    MulMonotone(wb, wa, ca);
    ScaleOrder(wa, wb, cb);
  }

  // ---------- credits and ratios ----------

  // Credit of a name after `rounds` increments.
  function Credit(rounds: int, total: int, picks: int, weight: int): int {
    rounds * weight - total * picks
  }

  lemma CreditRound(rounds: int, total: int, picks: int, weight: int)
    ensures Credit(rounds + 1, total, picks, weight) == Credit(rounds, total, picks, weight) + weight
    ensures Credit(rounds, total, picks + 1, weight) == Credit(rounds, total, picks, weight) - total
  {
    Distribute(weight, rounds, -1);
    Distribute(total, picks, -1);
  }

  lemma CreditShare(rounds: int, total: int, picks: int, weight: int)
    ensures Credit(rounds, total, picks, weight) >= 0 <==> total * picks <= rounds * weight
  {
  }

  // Higher credit per weight is fewer picks per weight.
  lemma RatioOrder(rounds: int, total: int, ca: int, wa: int, cb: int, wb: int)
    requires total >= 1 && wa >= 1 && wb >= 1
    ensures var ra := Credit(rounds, total, ca, wa) as real / wa as real;
      var rb := Credit(rounds, total, cb, wb) as real / wb as real;
      (ra >= rb <==> ca * wb <= cb * wa)
  {
    var xa, xb := Credit(rounds, total, ca, wa), Credit(rounds, total, cb, wb);
    RatioCross(xa, wa, xb, wb);
    assert xa * wb == rounds * (wa * wb) - total * (ca * wb) by { Expand(rounds, total, ca, wa, wb); }
    assert xb * wa == rounds * (wb * wa) - total * (cb * wa) by { Expand(rounds, total, cb, wb, wa); }
    ScaleOrder(total, ca * wb, cb * wa);
  }

  lemma Expand(rounds: int, total: int, c: int, w: int, v: int)
    ensures (rounds * w - total * c) * v == rounds * (w * v) - total * (c * v)
  {
    assert (rounds * w - total * c) * v == (rounds * w) * v - (total * c) * v;
    Reassociate(rounds, w, v);
    Reassociate(total, c, v);
  }

  lemma ScaleOrder(k: int, x: int, y: int)
    requires k >= 1
    ensures k * x <= k * y <==> x <= y
  {
    if x <= y - 1 { assert k * x <= k * (y - 1); }
    if y <= x - 1 { assert k * y <= k * (x - 1); }
  }

  lemma RatioCross(xa: int, wa: int, xb: int, wb: int)
    requires wa >= 1 && wb >= 1
    ensures xa as real / wa as real >= xb as real / wb as real <==> xa * wb >= xb * wa
  {
    var ra, rb, a, b := xa as real / wa as real, xb as real / wb as real, wa as real, wb as real;
    assert ra * a == xa as real && rb * b == xb as real;
    assert (ra * a) * b == ra * (a * b) && (rb * b) * a == rb * (a * b);
    assert a * b > 0.0;
    if ra >= rb { assert ra * (a * b) >= rb * (a * b); }
    if ra < rb { assert ra * (a * b) < rb * (a * b); }
    assert (xa * wb) as real == xa as real * b && (xb * wa) as real == xb as real * a;
  }

  // Some name has had at most its share, so its credit is at least its weight after the round.
  lemma SomeUnderserved(names: seq<string>, w: Weights, picked: seq<string>)
    requires WeightTable(names, w) && names != []
    requires forall name :: name in picked ==> name in names
    ensures exists i :: (0 <= i < |names| &&
      Credit(|picked| + 1, Total(names, w), Picks(picked, names[i]), w[names[i]]) >= w[names[i]])
  {
    hide Picks, Total, TotalPicks, Credit;
    var k, total := |picked|, Total(names, w);
    EveryPickCounted(names, picked);
    if forall i :: 0 <= i < |names| ==> total * Picks(picked, names[i]) > k * w[names[i]] {
      OverservedSum(names, w, picked, total, k);
    } else {
      var i :| 0 <= i < |names| && total * Picks(picked, names[i]) <= k * w[names[i]];
      CreditRound(k, total, Picks(picked, names[i]), w[names[i]]);
      CreditShare(k, total, Picks(picked, names[i]), w[names[i]]);
      assert Credit(|picked| + 1, Total(names, w), Picks(picked, names[i]), w[names[i]]) >= w[names[i]];
    }
  }

  lemma {:induction false} OverservedSum(names: seq<string>, w: Weights, picked: seq<string>, total: int, k: int)
    requires forall name :: name in names ==> name in w
    requires names != [] && forall i :: 0 <= i < |names| ==> total * Picks(picked, names[i]) > k * w[names[i]]
    ensures total * TotalPicks(names, picked) > k * Total(names, w)
  {
    hide Picks;
    var init, last := names[..|names| - 1], names[|names| - 1];
    if init != [] {
      OverservedSum(init, w, picked, total, k);
    }
    Distribute(total, TotalPicks(init, picked), 0 - Picks(picked, last));
    Distribute(k, Total(init, w), 0 - w[last]);
  }

  lemma {:induction false} TotalPositive(names: seq<string>, w: Weights)
    requires forall name :: name in names ==> name in w && w[name] >= 1
    ensures Total(names, w) >= |names|
  {
    if names != [] { TotalPositive(names[..|names| - 1], w); }
  }

  /** The scheduler on already normalised weights. `bestRatios` records the winning ratio of
      each round. */
  method Schedule(names: seq<string>, w: Weights) returns (picked: seq<string>, bestRatios: seq<real>)
    requires WeightTable(names, w)
    ensures |picked| == Total(names, w) == |bestRatios|
    ensures FairSchedule(names, w, picked)
    ensures forall i :: 0 <= i < |bestRatios| ==> bestRatios[i] >= 1.0
  {
    hide Picks, LeastServed, Credit, FairSchedule;
    var credits := map name | name in w :: 0;
    var total := Total(names, w);
    picked, bestRatios := [], [];
    TotalPositive(names, w);
    NothingPicked(names, w, total);
    for round := 0 to total
      invariant |picked| == |bestRatios| == round
      invariant FairSchedule(names, w, picked)
      invariant credits.Keys == w.Keys
      invariant forall name :: name in w ==> credits[name] == Credit(round, total, Picks(picked, name), w[name])
      invariant forall i :: 0 <= i < |bestRatios| ==> bestRatios[i] >= 1.0
    {
      var selected, best;
      credits, selected, best := Round(names, w, picked, credits);
      FairNext(names, w, picked, selected);
      CreditsSettled(w, picked, names[selected], round + 1, total);
      picked := picked + [names[selected]];
      bestRatios := bestRatios + [best];
      credits := credits[names[selected] := credits[names[selected]] - total];
    }
  }

  lemma NothingPicked(names: seq<string>, w: Weights, total: int)
    requires WeightTable(names, w)
    ensures FairSchedule(names, w, [])
    ensures forall name :: name in w ==> Credit(0, total, Picks([], name), w[name]) == 0
  {
  }

  // The winner pays the total weight.
  lemma CreditsSettled(w: Weights, picked: seq<string>, winner: string, rounds: int, total: int)
    ensures forall name :: name in w ==>
      Credit(rounds, total, Picks(picked + [winner], name), w[name])
        == Credit(rounds, total, Picks(picked, name), w[name]) - (if name == winner then total else 0)
  {
    hide Picks, Credit;
    forall name | name in w
      ensures Credit(rounds, total, Picks(picked + [winner], name), w[name])
        == Credit(rounds, total, Picks(picked, name), w[name]) - (if name == winner then total else 0)
    {
      PicksAppend(picked, winner, name);
      CreditRound(rounds, total, Picks(picked, name), w[name]);
    }
  }

  lemma FairNext(names: seq<string>, w: Weights, picked: seq<string>, i: int)
    requires (forall name :: name in names ==> name in w) && FairSchedule(names, w, picked)
    requires LeastServed(names, w, picked, i)
    ensures FairSchedule(names, w, picked + [names[i]])
  {
    assert (picked + [names[i]])[..|picked|] == picked;
  }

  function Ratio(credits: map<string, int>, w: Weights, name: string): real
    requires name in credits && name in w && w[name] >= 1
  {
    credits[name] as real / w[name] as real
  }

  /** One round: every name gains its weight and the first largest ratio wins. The starting
      ratio -1 and the missing selection never survive. */
  method Round(names: seq<string>, w: Weights, ghost picked: seq<string>, before: map<string, int>)
    returns (credits: map<string, int>, selected: nat, best: real)
    requires WeightTable(names, w) && names != []
    requires before.Keys == w.Keys && FairSchedule(names, w, picked)
    requires forall name :: name in w ==>
      before[name] == Credit(|picked|, Total(names, w), Picks(picked, name), w[name])
    ensures credits.Keys == w.Keys
    ensures forall name :: name in w ==>
      credits[name] == Credit(|picked| + 1, Total(names, w), Picks(picked, name), w[name])
    ensures selected < |names| && LeastServed(names, w, picked, selected) && best >= 1.0
  {
    hide Picks, FairSchedule, Total, Credit, LeastServed, Ratio;
    ghost var rounds, total := |picked| + 1, Total(names, w);
    credits := before;
    best := -1.0;
    var choice: Option<nat> := None;
    for i := 0 to |names|
      invariant credits.Keys == w.Keys
      invariant forall j :: 0 <= j < |names| ==>
        credits[names[j]] == Credit(if j < i then rounds else rounds - 1, total, Picks(picked, names[j]), w[names[j]])
      invariant choice.None? ==> best == -1.0
      invariant choice.Some? ==> choice.value < i && best == Ratio(credits, w, names[choice.value])
      invariant forall j :: 0 <= j < i ==> Ratio(credits, w, names[j]) <= best
      invariant choice.Some? ==> forall j :: 0 <= j < choice.value ==> Ratio(credits, w, names[j]) < best
    {
      CreditRound(rounds - 1, total, Picks(picked, names[i]), w[names[i]]);
      ghost var was := credits;
      credits := credits[names[i] := credits[names[i]] + w[names[i]]];
      RatiosKept(names, w, was, credits, i);
      var ratio := Ratio(credits, w, names[i]);
      if ratio > best {
        best := ratio;
        choice := Some(i);
      }
    }
    SomeoneWins(names, w, picked, credits);
    selected := choice.value;
    BestIsLeast(names, w, picked, credits, selected);
    NamesCover(names, w);
  }

  // Somebody's ratio reaches 1, so the sentinel -1 cannot be the largest.
  lemma SomeoneWins(names: seq<string>, w: Weights, picked: seq<string>, credits: map<string, int>)
    requires WeightTable(names, w) && names != [] && credits.Keys == w.Keys && FairSchedule(names, w, picked)
    requires forall j :: 0 <= j < |names| ==>
      credits[names[j]] == Credit(|picked| + 1, Total(names, w), Picks(picked, names[j]), w[names[j]])
    ensures exists j :: 0 <= j < |names| && Ratio(credits, w, names[j]) >= 1.0
  {
    hide Picks, Total, Credit, FairSchedule, Ratio;
    ScheduledNames(names, w, picked);
    SomeUnderserved(names, w, picked);
    var i :| 0 <= i < |names|
      && Credit(|picked| + 1, Total(names, w), Picks(picked, names[i]), w[names[i]]) >= w[names[i]];
    RatioAtLeastOne(credits, w, names[i]);
  }

  lemma NamesCover(names: seq<string>, w: Weights)
    requires WeightTable(names, w)
    ensures forall name :: name in w ==> exists j :: 0 <= j < |names| && names[j] == name
  {
  }

  lemma RatiosKept(names: seq<string>, w: Weights, was: map<string, int>, credits: map<string, int>, i: nat)
    requires WeightTable(names, w) && was.Keys == credits.Keys == w.Keys && i < |names|
    requires credits == was[names[i] := credits[names[i]]]
    ensures forall j :: 0 <= j < i ==> Ratio(credits, w, names[j]) == Ratio(was, w, names[j])
  {
  }

  lemma RatioAtLeastOne(credits: map<string, int>, w: Weights, name: string)
    requires name in credits && name in w && w[name] >= 1 && credits[name] >= w[name]
    ensures Ratio(credits, w, name) >= 1.0
  {
    RatioCross(credits[name], w[name], 1, 1);
  }

  // The first largest ratio belongs to the first least served name.
  lemma BestIsLeast(names: seq<string>, w: Weights, picked: seq<string>, credits: map<string, int>, selected: int)
    requires WeightTable(names, w) && 0 <= selected < |names| && credits.Keys == w.Keys
    requires forall j :: 0 <= j < |names| ==>
      credits[names[j]] == Credit(|picked| + 1, Total(names, w), Picks(picked, names[j]), w[names[j]])
    requires forall j :: 0 <= j < |names| ==> Ratio(credits, w, names[j]) <= Ratio(credits, w, names[selected])
    requires forall j :: 0 <= j < selected ==> Ratio(credits, w, names[j]) < Ratio(credits, w, names[selected])
    ensures LeastServed(names, w, picked, selected)
  {
    hide Picks, Total, Credit, FairSchedule;
    var rounds, total, me := |picked| + 1, Total(names, w), names[selected];
    TotalPositive(names, w);
    forall j | 0 <= j < |names|
      ensures var mine, theirs := Picks(picked, me) * w[names[j]], Picks(picked, names[j]) * w[me];
        mine <= theirs && (j < selected ==> mine < theirs)
    {
      RatioOrder(rounds, total, Picks(picked, me), w[me], Picks(picked, names[j]), w[names[j]]);
      RatioOrder(rounds, total, Picks(picked, names[j]), w[names[j]], Picks(picked, me), w[me]);
    }
  }

  /** `weighted_round_robin`: each name is picked exactly its normalised weight times, in at most
      1000 + n rounds, fairly at every prefix. */
  method WeightedRoundRobin(names: seq<string>, weights: Weights) returns (picked: seq<string>)
    requires WeightTable(names, weights)
    ensures var w := Normalised(names, weights);
      && FairSchedule(names, w, picked)
      && |picked| == Total(names, w)
      && (forall name :: name in names ==> Picks(picked, name) == w[name] && w[name] >= 1)
    ensures |picked| <= WRR_MAX_TOTAL + |names|
    ensures forall name :: name in names ==>
      FairShare(GcdOf(names, weights), Total(names, weights), weights[name], Picks(picked, name))
    ensures names != [] && Total(names, weights) > 1000 * GcdOf(names, weights) ==> |picked| >= 1000 - |names|
  {
    hide FairShare;
    var w := Normalised(names, weights);
    if names != [] {
      NormalisedTotal(names, weights);
      NormalisedOrder(names, weights, names[0], names[0]);
      NormalisedSize(names, weights, names[0], names[0]);
    }
    var bestRatios;
    picked, bestRatios := Schedule(names, w);
    forall name | name in names
      ensures Picks(picked, name) == w[name]
      ensures FairShare(GcdOf(names, weights), Total(names, weights), weights[name], w[name])
    {
      NormalisedShare(names, weights, name);
      var a :| 0 <= a < |names| && names[a] == name;
      FullScheduleExact(names, w, picked, a);
    }
  }
}
