/**
 * The regional table's health score: the share of a region's stations whose
 * status is normal, as a percentage rounded by `Math.round`.  The division is
 * exact here; `Math.round` rounds half-way values up, towards positive
 * infinity.
 */
module Regional {

  /** A row of the regional table. */
  datatype Region = Region(name: string, stations: nat, critical: nat, warning: nat, normal: nat)

  /** The five sample regions the table shows. */
  const SampleRegions: seq<Region> := [
    Region("North", 892, 78, 156, 658),
    Region("South", 1240, 134, 287, 819),
    Region("East", 756, 45, 98, 613),
    Region("West", 1456, 203, 345, 908),
    Region("Central", 916, 67, 178, 671)
  ]

  /** Every station is counted under exactly one status. */
  predicate Consistent(r: Region)
  {
    r.critical + r.warning + r.normal == r.stations
  }

  /** A JavaScript number as `Math.round` can leave it here: an integer, NaN (0/0) or Infinity (n/0). */
  datatype Rounded = Finite(value: int) | NaN | Infinity

  /**
   * `Math.round(normal / stations * 100)`.  With no stations the quotient is
   * NaN when nothing is normal and Infinity otherwise; else the result is the
   * integer p with p - 1/2 <= 100 * normal / stations < p + 1/2.
   */
  function HealthScore(normal: nat, stations: nat): (r: Rounded)
    ensures r.Finite? <==> stations > 0
    ensures stations == 0 ==> (r == NaN <==> normal == 0)
    ensures r.Finite? ==> 2 * (r.value * stations) - stations <= 200 * normal < 2 * (r.value * stations) + stations
  {
    if stations == 0 then (if normal == 0 then NaN else Infinity)
    else
      var p := (200 * normal + stations) / (2 * stations);
      DivBounds(200 * normal + stations, 2 * stations);
      Finite(p)
  }

  lemma DivBounds(a: nat, b: nat)
    requires b > 0
    ensures b * (a / b) <= a < b * (a / b) + b
  {
  }

  /** Scaling by a non-negative factor keeps the order of two integers at least one factor apart. */
  lemma StepApart(p: int, q: int, s: nat)
    requires p < q
    ensures p * s + s <= q * s
  {
    var d := q - p - 1;
    assert q * s == (p + 1 + d) * s == p * s + s + d * s;
  }

  /** The rounding rule determines the score: no other integer is within half a point of the share. */
  lemma HealthScoreUnique(normal: nat, stations: nat, p: int)
    requires stations > 0
    requires 2 * (p * stations) - stations <= 200 * normal < 2 * (p * stations) + stations
    ensures HealthScore(normal, stations) == Finite(p)
  {
    var q := HealthScore(normal, stations).value;
    if p < q {
      StepApart(p, q, stations);
    } else if q < p {
      StepApart(q, p, stations);
    }
  }

  /** A consistent, non-empty region scores between 0 and 100. */
  lemma HealthScoreBounds(normal: nat, stations: nat)
    requires 0 < stations && normal <= stations
    ensures 0 <= HealthScore(normal, stations).value <= 100
  {
    var p := HealthScore(normal, stations).value;
    if p < 0 {
      StepApart(p, 0, stations);
    } else if p > 100 {
      StepApart(100, p, stations);
    }
  }

  /** A region whose stations are all normal scores 100. */
  lemma AllNormalScoresHundred(stations: nat)
    requires stations > 0
    ensures HealthScore(stations, stations) == Finite(100)
  {
    HealthScoreUnique(stations, stations, 100);
  }

  /**
   * The score is 100 exactly when at least 99.5% of the stations are normal,
   * so a region with a station that is not normal can still show 100.
   */
  lemma HundredExactly(normal: nat, stations: nat)
    requires 0 < stations && normal <= stations
    ensures HealthScore(normal, stations) == Finite(100) <==> 200 * normal >= 199 * stations
  {
    if 200 * normal >= 199 * stations {
      HealthScoreUnique(normal, stations, 100);
    }
  }

  /** 999 normal stations out of 1000 round to 100. */
  lemma HundredWithoutAllNormal()
    ensures HealthScore(999, 1000) == Finite(100)
  {
    HealthScoreUnique(999, 1000, 100);
  }

  /** More normal stations never lower the score. */
  lemma HealthScoreMonotone(n1: nat, n2: nat, stations: nat)
    requires stations > 0 && n1 <= n2
    ensures HealthScore(n1, stations).value <= HealthScore(n2, stations).value
  {
    var p1, p2 := HealthScore(n1, stations).value, HealthScore(n2, stations).value;
    if p1 > p2 {
      StepApart(p2, p1, stations);
    }
  }

  /** The width of the region's bar: the exact percentage of normal stations. */
  function NormalShare(normal: nat, stations: nat): (w: real)
    requires stations > 0
    ensures w >= 0.0
    ensures w * stations as real == 100.0 * normal as real
  {
    var q := normal as real / stations as real;
    assert q * stations as real == normal as real;
    q * 100.0
  }

  /** The score printed beside the bar is the bar's percentage rounded to the nearest integer, halves up. */
  lemma ScoreRoundsShare(normal: nat, stations: nat)
    requires stations > 0
    ensures var p := HealthScore(normal, stations).value as real;
      p - 0.5 <= NormalShare(normal, stations) < p + 0.5
  {
    var p := HealthScore(normal, stations).value;
    Distribute(p, stations);
    QuotientBetween(2 * p - 1, 200 * normal, 2 * p + 1, stations);
    ShareIsHalfQuotient(normal, stations);
  }

  lemma Distribute(p: int, s: int)
    ensures (2 * p - 1) * s == 2 * (p * s) - s
    ensures (2 * p + 1) * s == 2 * (p * s) + s
  {
  }

  /** Dividing `lo * s <= m < hi * s` by a positive `s`. */
  lemma QuotientBetween(lo: int, m: int, hi: int, s: int)
    requires s > 0 && lo * s <= m < hi * s
    ensures lo as real <= m as real / s as real < hi as real
  {
    QuotientAtLeast(lo, m, s);
    QuotientBelow(m, hi, s);
  }

  lemma QuotientAtLeast(lo: int, m: int, s: int)
    requires s > 0 && lo * s <= m
    ensures lo as real <= m as real / s as real
  {
    var q, sr, lr := m as real / s as real, s as real, lo as real;
    CastProduct(lo, s);
    assert lr * sr <= m as real;
    assert q * sr == m as real;
    CancelPositive(lr, q, sr);
  }

  lemma QuotientBelow(m: int, hi: int, s: int)
    requires s > 0 && m < hi * s
    ensures m as real / s as real < hi as real
  {
    var q, sr, hr := m as real / s as real, s as real, hi as real;
    CastProduct(hi, s);
    assert m as real < hr * sr;
    assert q * sr == m as real;
    CancelPositive(q, hr, sr);
  }

  lemma CastProduct(a: int, b: int)
    ensures (a * b) as real == a as real * b as real
  {
  }

  lemma ShareIsHalfQuotient(normal: nat, stations: nat)
    requires stations > 0
    ensures NormalShare(normal, stations) == ((200 * normal) as real / stations as real) / 2.0
  {
    var w, q := NormalShare(normal, stations), (200 * normal) as real / stations as real;
    assert q * stations as real == 200.0 * normal as real;
    assert (2.0 * w) * stations as real == 200.0 * normal as real;
    CancelPositive(2.0 * w, q, stations as real);
    CancelPositive(q, 2.0 * w, stations as real);
  }

  lemma CancelPositive(a: real, b: real, s: real)
    requires s > 0.0
    ensures a * s <= b * s ==> a <= b
    ensures a * s < b * s ==> a < b
  {
    if a > b {
      assert (a - b) * s > 0.0;
    }
  }

  /** Every sample region is consistent and non-empty, so its score lies in [0, 100]. */
  lemma SampleRegionsScored()
    ensures forall r :: r in SampleRegions ==> Consistent(r) && r.stations > 0
    ensures forall r :: r in SampleRegions ==> 0 <= HealthScore(r.normal, r.stations).value <= 100
  {
    forall r | r in SampleRegions
      ensures Consistent(r) && r.stations > 0
      ensures 0 <= HealthScore(r.normal, r.stations).value <= 100
    {
      HealthScoreBounds(r.normal, r.stations);
    }
  }

  /** The scores the table shows for North, South, East, West and Central. */
  lemma SampleScores()
    ensures HealthScore(658, 892) == Finite(74)
    ensures HealthScore(819, 1240) == Finite(66)
    ensures HealthScore(613, 756) == Finite(81)
    ensures HealthScore(908, 1456) == Finite(62)
    ensures HealthScore(671, 916) == Finite(73)
  {
    HealthScoreUnique(658, 892, 74);
    HealthScoreUnique(819, 1240, 66);
    HealthScoreUnique(613, 756, 81);
    HealthScoreUnique(908, 1456, 62);
    HealthScoreUnique(671, 916, 73);
  }
}
