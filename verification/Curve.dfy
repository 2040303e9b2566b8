/** Piecewise-linear fan curves, over the reals. */
module Curve {
  datatype Point = Point(temp: real, duty: real)

  /** The duty at `temp` on the segment from `a` to `b`. */
  function Between(a: Point, b: Point, temp: real): real {
    var span := b.temp - a.temp;
    if span <= 0.0 then b.duty
    else
      var t := (temp - a.temp) / span;
      a.duty + t * (b.duty - a.duty)
  }

  /** The segment from point `i` on that `temp` falls on first; the last point if it falls on none. */
  function Scanned(points: seq<Point>, temp: real, i: nat): real
    requires i < |points|
    decreases |points| - i
  {
    if i + 1 == |points| then points[i].duty
    else if points[i].temp <= temp <= points[i + 1].temp then Between(points[i], points[i + 1], temp)
    else Scanned(points, temp, i + 1)
  }

  function DutyAt(points: seq<Point>, temp: real): real {
    if points == [] then 0.0
    else if temp <= points[0].temp then points[0].duty
    else if temp >= points[|points| - 1].temp then points[|points| - 1].duty
    else Scanned(points, temp, 0)
  }

  // ------------------------------ one segment ------------------------------

  lemma Fraction(x: real, span: real)
    requires 0.0 <= x <= span && span > 0.0
    ensures 0.0 <= x / span <= 1.0
    ensures x == span ==> x / span == 1.0
  {
    FractionOf(x, span, x / span);
  }

  lemma FractionOf(x: real, span: real, t: real)
    requires 0.0 <= x <= span && span > 0.0 && t * span == x
    ensures 0.0 <= t <= 1.0
    ensures x == span ==> t == 1.0
  {
    Expands(t, span);
    if t < 0.0 {
      Product(-t, span);
    } else if t < 1.0 {
      Product(1.0 - t, span);
    } else if t > 1.0 {
      Product(t - 1.0, span);
    }
  }

  lemma Expands(t: real, span: real)
    ensures -t * span == -(t * span)
    ensures (1.0 - t) * span == span - t * span && (t - 1.0) * span == t * span - span
  {
  }

  lemma Product(a: real, b: real)
    requires a > 0.0 && b > 0.0
    ensures a * b > 0.0
  {
  }

  lemma Scaled(t: real, u: real, d: real)
    requires 0.0 <= t <= u && d >= 0.0
    ensures 0.0 <= t * d <= u * d
  {
    if t > 0.0 && d > 0.0 { Product(t, d); }
    if u > t && d > 0.0 {
      Product(u - t, d);
      assert (u - t) * d == u * d - t * d;
    }
  }

  lemma MixedStays(p: real, d: real, t: real, low: real, high: real)
    requires 0.0 <= t <= 1.0 && low <= p <= high && low <= p + d <= high
    ensures low <= p + t * d <= high
  {
    var m := t * d;
    if d >= 0.0 {
      Scaled(t, 1.0, d);
    } else {
      Scaled(t, 1.0, -d);
      assert t * -d == -m;
    }
    assert d <= m <= 0.0 || 0.0 <= m <= d;
    assert low <= p + m <= high;
  }

  lemma BetweenStays(a: Point, b: Point, temp: real, low: real, high: real)
    requires a.temp <= temp <= b.temp && low <= a.duty <= high && low <= b.duty <= high
    ensures low <= Between(a, b, temp) <= high
  {
    var span := b.temp - a.temp;
    if span > 0.0 {
      Fraction(temp - a.temp, span);
      MixedStays(a.duty, b.duty - a.duty, (temp - a.temp) / span, low, high);
    }
  }

  lemma BetweenRises(a: Point, b: Point, s: real, t: real)
    requires a.temp <= s <= t <= b.temp && a.duty <= b.duty
    ensures Between(a, b, s) <= Between(a, b, t)
  {
    var span := b.temp - a.temp;
    if span > 0.0 {
      Fraction(s - a.temp, span);
      if t > s {
        Fraction(t - s, span);
        assert (t - a.temp) / span == (s - a.temp) / span + (t - s) / span;
      }
      Scaled((s - a.temp) / span, (t - a.temp) / span, b.duty - a.duty);
    }
  }

  // ------------------------------ whole curves ------------------------------

  lemma {:induction false} ScanStays(points: seq<Point>, temp: real, i: nat, low: real, high: real)
    requires i < |points| && forall k :: 0 <= k < |points| ==> low <= points[k].duty <= high
    ensures low <= Scanned(points, temp, i) <= high
    decreases |points| - i
  {
    if i + 1 < |points| {
      if points[i].temp <= temp <= points[i + 1].temp {
        BetweenStays(points[i], points[i + 1], temp, low, high);
      } else {
        ScanStays(points, temp, i + 1, low, high);
      }
    }
  }

  /** Whatever bounds the points' duties bounds the curve, sorted or not: it never leaves the range
      from the least duty to the greatest. Without points it is zero. */
  lemma DutyStaysInRange(points: seq<Point>, temp: real, low: real, high: real)
    requires forall k :: 0 <= k < |points| ==> low <= points[k].duty <= high
    ensures if points == [] then DutyAt(points, temp) == 0.0 else low <= DutyAt(points, temp) <= high
  {
    if points != [] { ScanStays(points, temp, 0, low, high); }
  }

  ghost predicate Sorted(points: seq<Point>) {
    forall i, j :: 0 <= i < j < |points| ==> points[i].temp <= points[j].temp
  }

  ghost predicate Rising(points: seq<Point>) {
    forall i, j :: 0 <= i < j < |points| ==> points[i].duty <= points[j].duty
  }

  /** The first segment that holds `temp`, from segment `i` on. */
  lemma {:induction false} FirstSegment(points: seq<Point>, temp: real, i: nat) returns (k: nat)
    requires i + 1 < |points| && points[i].temp <= temp <= points[|points| - 1].temp
    ensures i <= k && k + 1 < |points| && points[k].temp <= temp <= points[k + 1].temp
    ensures Scanned(points, temp, i) == Between(points[k], points[k + 1], temp)
    ensures k == i || points[k].temp < temp
    decreases |points| - i
  {
    if temp <= points[i + 1].temp {
      k := i;
    } else {
      k := FirstSegment(points, temp, i + 1);
    }
  }

  lemma SegmentsFollow(points: seq<Point>, s: real, t: real, j: nat, k: nat)
    requires Sorted(points) && Rising(points) && s <= t
    requires j + 1 < |points| && points[j].temp <= s <= points[j + 1].temp
    requires k + 1 < |points| && points[k].temp <= t <= points[k + 1].temp && (k == 0 || points[k].temp < t)
    requires j == 0 || points[j].temp < s
    ensures s < t ==> Between(points[j], points[j + 1], s) <= Between(points[k], points[k + 1], t)
  {
    InOrder(points, k, j);
    InOrder(points, j, k);
    if s < t {
      if j == k {
        BetweenRises(points[j], points[j + 1], s, t);
      } else {
        BetweenStays(points[j], points[j + 1], s, points[j].duty, points[j + 1].duty);
        BetweenStays(points[k], points[k + 1], t, points[k].duty, points[k + 1].duty);
      }
    }
  }

  lemma InOrder(points: seq<Point>, j: nat, k: nat)
    requires Sorted(points) && Rising(points)
    ensures j < k < |points| ==> points[j + 1].temp <= points[k].temp && points[j + 1].duty <= points[k].duty
    ensures j + 1 < |points| ==> points[j].duty <= points[j + 1].duty
  {
  }

  /** A hotter sensor never gets a lower duty, when the points are sorted and their duties rise. */
  lemma DutyRises(points: seq<Point>, s: real, t: real)
    requires Sorted(points) && Rising(points) && s <= t
    ensures DutyAt(points, s) <= DutyAt(points, t)
  {
    if points != [] && s < t {
      var last := |points| - 1;
      var low, high := points[0].duty, points[last].duty;
      forall k | 0 <= k <= last ensures low <= points[k].duty <= high {
        assert Rising(points);
      }
      DutyStaysInRange(points, s, low, high);
      DutyStaysInRange(points, t, low, high);
      if points[0].temp < s && t < points[last].temp {
        var j := FirstSegment(points, s, 0);
        var k := FirstSegment(points, t, 0);
        SegmentsFollow(points, s, t, j, k);
      }
    }
  }

  /** The point the curve passes through at the temperature of point `k`: the first of those that
      share it, save that at the end of the curve it is the last point. */
  ghost predicate Decides(points: seq<Point>, k: nat, f: nat)
    requires k < |points| && f < |points|
  {
    && points[f].temp == points[k].temp
    && if points[k].temp == points[|points| - 1].temp && points[0].temp < points[k].temp then f == |points| - 1
       else forall i :: 0 <= i < f ==> points[i].temp < points[k].temp
  }

  lemma SortedTo(points: seq<Point>, i: nat, j: nat)
    requires Sorted(points)
    ensures i <= j < |points| ==> points[i].temp <= points[j].temp
  {
  }

  /** At a point's temperature a sorted curve has that point's duty, or that of the point which
      decides among those at one temperature. */
  lemma PassesThroughPoints(points: seq<Point>, k: nat, f: nat)
    requires Sorted(points) && k < |points| && f < |points| && Decides(points, k, f)
    ensures DutyAt(points, points[k].temp) == points[f].duty
  {
    var temp, last := points[k].temp, |points| - 1;
    if points[0].temp < temp < points[last].temp {
      var j := FirstSegment(points, temp, 0);
      SortedTo(points, f, j);
      assert j + 1 == f;
      Fraction(temp - points[j].temp, points[f].temp - points[j].temp);
    }
  }

  /** With strictly increasing temperatures the curve passes through every point. */
  lemma PassesThroughEveryPoint(points: seq<Point>, k: nat)
    requires k < |points| && forall i, j :: 0 <= i < j < |points| ==> points[i].temp < points[j].temp
    ensures DutyAt(points, points[k].temp) == points[k].duty
  {
    PassesThroughPoints(points, k, k);
  }

  /** Between two points of a sorted curve the duty is on the straight line through them. */
  lemma DutyIsOnTheLine(points: seq<Point>, k: nat, temp: real)
    requires Sorted(points) && k + 1 < |points| && points[k].temp < temp < points[k + 1].temp
    ensures var (a, b) := (points[k], points[k + 1]);
            (DutyAt(points, temp) - a.duty) * (b.temp - a.temp) == (temp - a.temp) * (b.duty - a.duty)
  {
    var a, b := points[k], points[k + 1];
    SortedTo(points, 0, k);
    SortedTo(points, k + 1, |points| - 1);
    var j := FirstSegment(points, temp, 0);
    SortedTo(points, j + 1, k);
    SortedTo(points, k + 1, j);
    assert j == k;
    OnTheLine(a, b, temp);
  }

  lemma OnTheLine(a: Point, b: Point, temp: real)
    requires a.temp < b.temp
    ensures (Between(a, b, temp) - a.duty) * (b.temp - a.temp) == (temp - a.temp) * (b.duty - a.duty)
  {
    var span, rise := b.temp - a.temp, b.duty - a.duty;
    var t := (temp - a.temp) / span;
    assert t * span == temp - a.temp;
    assert Between(a, b, temp) - a.duty == t * rise;
    Swapped(t, rise, span);
  }

  lemma Swapped(t: real, rise: real, span: real)
    ensures t * rise * span == t * span * rise
  {
  }
}
