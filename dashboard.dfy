/**
 * The monitoring dashboard's computations over its list of cultivated areas:
 * the total area, the rounded mean health, the health tiers behind the
 * colours, the healthy/alert filter of the table and the update of one area
 * from the server's answer.
 */
module Dashboard {
  import opened Options

  /** A monitored area: size in hectares, health and water as percentages. */
  datatype Area = Area(id: int, name: string, fruit: string, size: int, health: int, water: int, coords: string)

  function Size(a: Area): int { a.size }

  function Health(a: Area): int { a.health }

  /** `areas.reduce((sum, area) => sum + f(area), 0)`, summed from the left. */
  function SumBy(areas: seq<Area>, f: Area -> int): (total: int)
    decreases |areas|
    ensures (forall i :: 0 <= i < |areas| ==> f(areas[i]) >= 0) ==> total >= 0
  {
    if |areas| == 0 then 0 else SumBy(areas[..|areas| - 1], f) + f(areas[|areas| - 1])
  }

  /** The sum over a concatenation is the sum of the two sums. */
  lemma {:induction false} SumByAppend(s: seq<Area>, t: seq<Area>, f: Area -> int)
    decreases |t|
    ensures SumBy(s + t, f) == SumBy(s, f) + SumBy(t, f)
  {
    if |t| > 0 {
      var t' := t[..|t| - 1];
      assert (s + t)[..|s + t| - 1] == s + t';
      SumByAppend(s, t', f);
    } else {
      assert s + t == s;
    }
  }

  /** Adding an element in front adds its value to the sum. */
  lemma SumByCons(a: Area, t: seq<Area>, f: Area -> int)
    ensures SumBy([a] + t, f) == f(a) + SumBy(t, f)
  {
    SumByAppend([a], t, f);
    assert [a][..0] == [];
  }

  /** When every value lies in [lo, hi], the sum lies in [n * lo, n * hi]. */
  lemma {:induction false} SumByWithin(s: seq<Area>, f: Area -> int, lo: int, hi: int)
    requires forall i :: 0 <= i < |s| ==> lo <= f(s[i]) <= hi
    decreases |s|
    ensures |s| * lo <= SumBy(s, f) <= |s| * hi
  {
    if |s| > 0 {
      SumByWithin(s[..|s| - 1], f, lo, hi);
      assert lo <= f(s[|s| - 1]) <= hi;
      assert (|s| - 1) * lo + lo == |s| * lo;
      assert (|s| - 1) * hi + hi == |s| * hi;
    }
  }

  /** The total area card: the sizes of all areas added up, 0 for none. */
  function TotalArea(areas: seq<Area>): (total: int)
    ensures |areas| == 0 ==> total == 0
  {
    SumBy(areas, Size)
  }

  /** `Math.round`: the nearest integer, halves rounded up. */
  function Round(x: real): (r: int)
    ensures x - 0.5 < r as real <= x + 0.5
  {
    (x + 0.5).Floor
  }

  /** Real division of integers, rounded down, is integer division. */
  lemma FloorOfQuotient(m: int, d: int)
    requires d > 0
    ensures (m as real / d as real).Floor == m / d
  {
    var q, r := m / d, m % d;
    assert m == d * q + r && 0 <= r < d;
    var x := m as real / d as real;
    assert x * d as real == m as real;
    assert (q as real + r as real / d as real) * d as real == m as real;
    assert x == q as real + r as real / d as real;
    assert 0.0 <= r as real / d as real < 1.0;
  }

  /** Adding one half to `sum / n` is dividing `2 * sum + n` by `2 * n`. */
  lemma HalfUpQuotient(sum: int, n: int)
    requires n > 0
    ensures sum as real / n as real + 0.5 == (2 * sum + n) as real / (2 * n) as real
  {
    var s, m := sum as real, n as real;
    assert (2 * sum + n) as real == 2.0 * s + m;
    assert (2 * n) as real == 2.0 * m;
    assert (2.0 * s + m) / (2.0 * m) == (2.0 * s) / (2.0 * m) + m / (2.0 * m);
    assert (2.0 * s) / (2.0 * m) == s / m;
    assert m / (2.0 * m) == 0.5;
  }

  /**
   * The average health card: 0 for an empty list, otherwise the mean health
   * rounded half up, which is `(2 * sum + n) / (2 * n)` in integer division.
   */
  function AvgHealth(areas: seq<Area>): (avg: int)
    ensures |areas| == 0 ==> avg == 0
    ensures |areas| > 0 ==> avg == (2 * SumBy(areas, Health) + |areas|) / (2 * |areas|)
  {
    if |areas| > 0 then
      var sum, n := SumBy(areas, Health), |areas|;
      HalfUpQuotient(sum, n);
      FloorOfQuotient(2 * sum + n, 2 * n);
      Round(sum as real / n as real)
    else 0
  }

  lemma MulMonotone(d: int, a: int, b: int)
    requires d >= 0 && a <= b
    ensures d * a <= d * b
  {
    assert d * b - d * a == d * (b - a);
  }

  /** A lower bound `d * k` on `m` gives the lower bound `k` on `m / d`. */
  lemma DivAtLeast(m: int, d: int, k: int)
    requires d > 0 && d * k <= m
    ensures k <= m / d
  {
    var q := m / d;
    assert m == d * q + m % d && m % d < d;
    if q < k {
      MulMonotone(d, q + 1, k);
    }
  }

  /** An upper bound `d * (k + 1)`, not reached by `m`, gives the upper bound `k` on `m / d`. */
  lemma DivAtMost(m: int, d: int, k: int)
    requires d > 0 && m < d * (k + 1)
    ensures m / d <= k
  {
    var q := m / d;
    assert m == d * q + m % d && 0 <= m % d;
    if q > k {
      MulMonotone(d, k + 1, q);
    }
  }

  /** A sum between `n * lo` and `n * hi`, divided by `n` and rounded half up, lies in [lo, hi]. */
  lemma HalfUpWithin(sum: int, n: int, lo: int, hi: int)
    requires n > 0 && n * lo <= sum <= n * hi
    ensures lo <= (2 * sum + n) / (2 * n) <= hi
  {
    assert (2 * n) * lo == 2 * (n * lo);
    assert (2 * n) * (hi + 1) == 2 * (n * hi) + 2 * n;
    DivAtLeast(2 * sum + n, 2 * n, lo);
    DivAtMost(2 * sum + n, 2 * n, hi);
  }

  /** When every health lies in [lo, hi], so does the average. */
  lemma AvgHealthWithin(areas: seq<Area>, lo: int, hi: int)
    requires |areas| > 0
    requires forall i :: 0 <= i < |areas| ==> lo <= areas[i].health <= hi
    ensures lo <= AvgHealth(areas) <= hi
  {
    SumByWithin(areas, Health, lo, hi);
    HalfUpWithin(SumBy(areas, Health), |areas|, lo, hi);
  }

  /** The three health tiers behind the colours of the table. */
  datatype Tier = Healthy | Attention | Critical

  /** Health of 90 or more is healthy, 75 up to 90 needs attention, and below 75 is critical. */
  function HealthTier(health: int): (t: Tier)
    ensures t == Healthy <==> health >= 90
    ensures t == Attention <==> 75 <= health < 90
    ensures t == Critical <==> health < 75
  {
    if health >= 90 then Healthy else if health >= 75 then Attention else Critical
  }

  function TierColor(t: Tier): string
  {
    match t
    case Healthy => "text-green-400"
    case Attention => "text-yellow-400"
    case Critical => "text-red-400"
  }

  function TierBg(t: Tier): string
  {
    match t
    case Healthy => "bg-green-500"
    case Attention => "bg-yellow-500"
    case Critical => "bg-red-500"
  }

  /** getHealthColor: green from 90, yellow from 75, red below. */
  function HealthColor(health: int): (c: string)
    ensures c == "text-green-400" <==> health >= 90
    ensures c == "text-yellow-400" <==> 75 <= health < 90
    ensures c == "text-red-400" <==> health < 75
  {
    TierColor(HealthTier(health))
  }

  /** getHealthBg: the bar colour, on the same thresholds as the text colour. */
  function HealthBg(health: int): (c: string)
    ensures c == "bg-green-500" <==> health >= 90
    ensures c == "bg-yellow-500" <==> 75 <= health < 90
    ensures c == "bg-red-500" <==> health < 75
  {
    TierBg(HealthTier(health))
  }

  /** Two healths get the same text colour exactly when they get the same bar colour. */
  lemma ColorAgreesWithBg(h: int, k: int)
    ensures HealthColor(h) == HealthColor(k) <==> HealthBg(h) == HealthBg(k)
    ensures HealthColor(h) == HealthColor(k) <==> HealthTier(h) == HealthTier(k)
  {
    var th, tk := HealthTier(h), HealthTier(k);
    assert TierColor(th) == TierColor(tk) <==> th == tk;
    assert TierBg(th) == TierBg(tk) <==> th == tk;
  }

  /** A higher health never gets a worse tier. */
  lemma TierMonotone(h: int, k: int)
    requires h <= k
    ensures HealthTier(h) == Healthy ==> HealthTier(k) == Healthy
    ensures HealthTier(k) == Critical ==> HealthTier(h) == Critical
  {
  }

  /** Whether the table shows an area under the selected filter. */
  predicate Shown(selectedFilter: string, a: Area): (shown: bool)
    ensures selectedFilter == "healthy" ==> (shown <==> HealthTier(a.health) == Healthy)
    ensures selectedFilter == "alert" ==> (shown <==> HealthTier(a.health) != Healthy)
    ensures selectedFilter != "healthy" && selectedFilter != "alert" ==> shown
  {
    if selectedFilter == "healthy" then a.health >= 90
    else if selectedFilter == "alert" then a.health < 90
    else true
  }

  /** filteredAreas: the areas the selected filter shows, in their order. */
  function FilterAreas(areas: seq<Area>, selectedFilter: string): (r: seq<Area>)
    decreases |areas|
    ensures |r| <= |areas|
  {
    if |areas| == 0 then []
    else (if Shown(selectedFilter, areas[0]) then [areas[0]] else []) + FilterAreas(areas[1..], selectedFilter)
  }

  /** An area is in the filtered table exactly when it is in the list and the filter shows it. */
  lemma {:induction false} FilterMembership(areas: seq<Area>, selectedFilter: string, a: Area)
    decreases |areas|
    ensures a in FilterAreas(areas, selectedFilter) <==> a in areas && Shown(selectedFilter, a)
  {
    if |areas| > 0 {
      FilterMembership(areas[1..], selectedFilter, a);
      FilterCons(areas[0], areas[1..], selectedFilter);
      assert areas == [areas[0]] + areas[1..];
    }
  }

  /** `xs` is `ys` with some elements left out, the rest kept in order. */
  predicate IsSubsequence<T(==)>(xs: seq<T>, ys: seq<T>)
    decreases |ys|
  {
    if |xs| == 0 then true
    else if |ys| == 0 then false
    else (xs[0] == ys[0] && IsSubsequence(xs[1..], ys[1..])) || IsSubsequence(xs, ys[1..])
  }

  /** The filtered table keeps the areas in the order of the full list. */
  lemma {:induction false} FilterIsSubsequence(areas: seq<Area>, selectedFilter: string)
    decreases |areas|
    ensures IsSubsequence(FilterAreas(areas, selectedFilter), areas)
  {
    if |areas| > 0 {
      var rest := FilterAreas(areas[1..], selectedFilter);
      FilterIsSubsequence(areas[1..], selectedFilter);
      if Shown(selectedFilter, areas[0]) {
        assert FilterAreas(areas, selectedFilter) == [areas[0]] + rest;
        assert ([areas[0]] + rest)[1..] == rest;
      } else {
        assert FilterAreas(areas, selectedFilter) == rest;
      }
    }
  }

  /** A filter value other than `healthy` and `alert` shows every area. */
  lemma {:induction false} FilterOtherShowsAll(areas: seq<Area>, selectedFilter: string)
    requires selectedFilter != "healthy" && selectedFilter != "alert"
    decreases |areas|
    ensures FilterAreas(areas, selectedFilter) == areas
  {
    if |areas| > 0 {
      FilterOtherShowsAll(areas[1..], selectedFilter);
      assert [areas[0]] + areas[1..] == areas;
    }
  }

  /** Filtering a list with a first element: that element, when shown, then the filtered rest. */
  lemma FilterCons(a: Area, rest: seq<Area>, selectedFilter: string)
    ensures FilterAreas([a] + rest, selectedFilter)
         == (if Shown(selectedFilter, a) then [a] else []) + FilterAreas(rest, selectedFilter)
  {
    assert ([a] + rest)[1..] == rest;
  }

  /** The healthy and the alert tables split the list: every area is in exactly one of them. */
  lemma {:induction false} HealthyAlertPartition(areas: seq<Area>)
    decreases |areas|
    ensures multiset(FilterAreas(areas, "healthy")) + multiset(FilterAreas(areas, "alert")) == multiset(areas)
  {
    if |areas| > 0 {
      var a, rest := areas[0], areas[1..];
      var h, l := FilterAreas(rest, "healthy"), FilterAreas(rest, "alert");
      HealthyAlertPartition(rest);
      assert areas == [a] + rest;
      FilterCons(a, rest, "healthy");
      FilterCons(a, rest, "alert");
      var sh, sl := Shown("healthy", a), Shown("alert", a);
      assert sh != sl;
      assert multiset(FilterAreas(areas, "healthy")) == multiset(if sh then [a] else []) + multiset(h);
      assert multiset(FilterAreas(areas, "alert")) == multiset(if sl then [a] else []) + multiset(l);
      assert multiset(if sh then [a] else []) + multiset(if sl then [a] else []) == multiset{a};
    }
  }

  /** So the lengths of the healthy and the alert tables add up to the list's. */
  lemma HealthyAlertLength(areas: seq<Area>)
    ensures |FilterAreas(areas, "healthy")| + |FilterAreas(areas, "alert")| == |areas|
  {
    HealthyAlertPartition(areas);
    var h, l := FilterAreas(areas, "healthy"), FilterAreas(areas, "alert");
    assert |multiset(h) + multiset(l)| == |multiset(areas)|;
  }

  /** The total areas of the healthy and the alert tables add up to the total area. */
  lemma {:induction false} HealthyAlertTotalArea(areas: seq<Area>)
    decreases |areas|
    ensures TotalArea(FilterAreas(areas, "healthy")) + TotalArea(FilterAreas(areas, "alert")) == TotalArea(areas)
  {
    if |areas| > 0 {
      var a, rest := areas[0], areas[1..];
      var h, l := FilterAreas(rest, "healthy"), FilterAreas(rest, "alert");
      HealthyAlertTotalArea(rest);
      assert areas == [a] + rest;
      SumByCons(a, rest, Size);
      if a.health >= 90 {
        assert FilterAreas(areas, "healthy") == [a] + h;
        assert FilterAreas(areas, "alert") == l;
        SumByCons(a, h, Size);
      } else {
        assert FilterAreas(areas, "healthy") == h;
        assert FilterAreas(areas, "alert") == [a] + l;
        SumByCons(a, l, Size);
      }
    }
  }

  /**
   * The healthy table keeps exactly the areas with health 90 or more, which
   * are the areas whose health colour is green; the alert table keeps
   * exactly those below 90.
   */
  lemma FilterThresholds(areas: seq<Area>, a: Area)
    ensures a in FilterAreas(areas, "healthy") <==> a in areas && a.health >= 90
    ensures a in FilterAreas(areas, "healthy") <==> a in areas && HealthColor(a.health) == "text-green-400"
    ensures a in FilterAreas(areas, "alert") <==> a in areas && a.health < 90
  {
    FilterMembership(areas, "healthy", a);
    FilterMembership(areas, "alert", a);
  }

  /**
   * The fields of an area in a server answer; `None` is a field the answer
   * does not carry.
   */
  datatype AreaPatch = AreaPatch(
    id: Option<int>, name: Option<string>, fruit: Option<string>, size: Option<int>,
    health: Option<int>, water: Option<int>, coords: Option<string>)

  /** The answer that carries no field (a missing body spreads nothing). */
  const EmptyPatch := AreaPatch(None, None, None, None, None, None, None)

  /** `{ ...area, ...patch }`: the fields of the patch override, the others are kept. */
  function ApplyPatch(a: Area, p: AreaPatch): (r: Area)
    ensures p.id.Some? ==> r.id == p.id.value
    ensures p.id.None? ==> r.id == a.id
    ensures p.name.Some? ==> r.name == p.name.value
    ensures p.name.None? ==> r.name == a.name
    ensures p.fruit.Some? ==> r.fruit == p.fruit.value
    ensures p.fruit.None? ==> r.fruit == a.fruit
    ensures p.size.Some? ==> r.size == p.size.value
    ensures p.size.None? ==> r.size == a.size
    ensures p.health.Some? ==> r.health == p.health.value
    ensures p.health.None? ==> r.health == a.health
    ensures p.water.Some? ==> r.water == p.water.value
    ensures p.water.None? ==> r.water == a.water
    ensures p.coords.Some? ==> r.coords == p.coords.value
    ensures p.coords.None? ==> r.coords == a.coords
  {
    Area(p.id.GetOr(a.id), p.name.GetOr(a.name), p.fruit.GetOr(a.fruit), p.size.GetOr(a.size),
         p.health.GetOr(a.health), p.water.GetOr(a.water), p.coords.GetOr(a.coords))
  }

  /** `{ ...p, ...q }`: the fields of `q` override those of `p`. */
  function ThenPatch(p: AreaPatch, q: AreaPatch): AreaPatch
  {
    AreaPatch(Later(p.id, q.id), Later(p.name, q.name), Later(p.fruit, q.fruit), Later(p.size, q.size),
              Later(p.health, q.health), Later(p.water, q.water), Later(p.coords, q.coords))
  }

  function Later<T>(o: Option<T>, o': Option<T>): Option<T>
  {
    if o'.Some? then o' else o
  }

  /**
   * Spreading keeps what is not overridden: the empty patch changes nothing,
   * a patch applied twice is applied once, and two patches in a row are the
   * patch that merges them.
   */
  lemma ApplyPatchLaws(a: Area, p: AreaPatch, q: AreaPatch)
    ensures ApplyPatch(a, EmptyPatch) == a
    ensures ApplyPatch(ApplyPatch(a, p), p) == ApplyPatch(a, p)
    ensures ApplyPatch(ApplyPatch(a, p), q) == ApplyPatch(a, ThenPatch(p, q))
  {
  }

  /** refreshAreaData's update: the area with the requested id takes the answer's fields; the rest is untouched. */
  function MergeById(areas: seq<Area>, areaId: int, p: AreaPatch): (r: seq<Area>)
    decreases |areas|
    ensures |r| == |areas|
    ensures forall i :: 0 <= i < |areas| && areas[i].id != areaId ==> r[i] == areas[i]
    ensures forall i :: 0 <= i < |areas| && areas[i].id == areaId ==> r[i] == ApplyPatch(areas[i], p)
  {
    if |areas| == 0 then []
    else [if areas[0].id == areaId then ApplyPatch(areas[0], p) else areas[0]] + MergeById(areas[1..], areaId, p)
  }

  /** An answer without fields, or an id no area has, leaves the list as it was. */
  lemma MergeWithoutEffect(areas: seq<Area>, areaId: int, p: AreaPatch)
    requires p == EmptyPatch || forall i :: 0 <= i < |areas| ==> areas[i].id != areaId
    ensures MergeById(areas, areaId, p) == areas
  {
    var r := MergeById(areas, areaId, p);
    forall i | 0 <= i < |areas| ensures r[i] == areas[i] {
      ApplyPatchLaws(areas[i], p, p);
    }
  }

  /**
   * Refreshing the same area twice with the same answer is refreshing it once:
   * an area the first update reached carries the answer's fields already, and
   * one whose id the answer changed is not reached again.
   */
  lemma MergeIdempotent(areas: seq<Area>, areaId: int, p: AreaPatch)
    ensures MergeById(MergeById(areas, areaId, p), areaId, p) == MergeById(areas, areaId, p)
  {
    var once := MergeById(areas, areaId, p);
    var twice := MergeById(once, areaId, p);
    forall i | 0 <= i < |areas| ensures twice[i] == once[i] {
      ApplyPatchLaws(areas[i], p, p);
    }
  }

  /** An answer without a size leaves the total area as it was. */
  lemma {:induction false} MergeKeepsTotalArea(areas: seq<Area>, areaId: int, p: AreaPatch)
    requires p.size.None?
    decreases |areas|
    ensures TotalArea(MergeById(areas, areaId, p)) == TotalArea(areas)
  {
    if |areas| > 0 {
      var a, rest := areas[0], areas[1..];
      var r := MergeById(areas, areaId, p);
      MergeKeepsTotalArea(rest, areaId, p);
      assert areas == [a] + rest;
      assert r == [r[0]] + MergeById(rest, areaId, p);
      SumByCons(a, rest, Size);
      SumByCons(r[0], MergeById(rest, areaId, p), Size);
    }
  }
}
