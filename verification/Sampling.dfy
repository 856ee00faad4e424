/**
 * The rate curve as a clock. Times are exact reals; a local time is counted in seconds from a
 * Monday midnight of the network's fixed offset, so its hour of week is read off by division.
 */
module Sampling {
  import opened Wrappers

  type Curve = Option<seq<real>>

  function HourOf(local: real): int {
    (local / 3600.0).Floor
  }

  function IntoHour(local: real): real {
    local - HourOf(local) as real * 3600.0
  }

  /** 24 or 168 entries, as the loader holds a program to. */
  predicate ValidCurve(curve: Curve) {
    curve.Some? ==> |curve.value| == 24 || |curve.value| == 168
  }

  /** The curve's entry for the ``h``-th hour since the Monday the clock counts from. */
  function Speed(curve: Curve, h: int): real
    requires ValidCurve(curve)
  {
    match curve
    case None => 1.0
    case Some(c) => if |c| == 24 then c[h % 24] else c[h % 168]
  }

  function Multiplier(curve: Curve, local: real): real
    requires ValidCurve(curve)
  {
    Speed(curve, HourOf(local))
  }

  /** The speed at which operational time passes in each hour: ``factor`` times the curve. */
  function RateOf(curve: Curve, factor: real): int -> real
    requires ValidCurve(curve)
  {
    h => factor * Speed(curve, h)
  }

  lemma HourBounds(x: real)
    ensures 0.0 <= IntoHour(x) < 3600.0
  {
    var q := x / 3600.0;
    assert q * 3600.0 == x;
    assert q.Floor as real <= q < q.Floor as real + 1.0;
  }

  lemma HourIs(x: real, h: int)
    requires h as real * 3600.0 <= x < (h + 1) as real * 3600.0
    ensures HourOf(x) == h
  {
    var q := x / 3600.0;
    assert q * 3600.0 == x;
    assert h as real <= q < (h + 1) as real;
  }

  lemma HourMonotone(x: real, y: real)
    requires x <= y
    ensures HourOf(x) <= HourOf(y)
  {
    assert x / 3600.0 <= y / 3600.0;
  }

  /** Less than an hour's rest on, it is the same hour; exactly the rest on, the next. */
  lemma HourAfter(a: real, y: real)
    requires 0.0 <= y <= 3600.0 - IntoHour(a)
    ensures y < 3600.0 - IntoHour(a) ==> HourOf(a + y) == HourOf(a) && IntoHour(a + y) == IntoHour(a) + y
    ensures y == 3600.0 - IntoHour(a) ==> HourOf(a + y) == HourOf(a) + 1 && IntoHour(a + y) == 0.0
  {
    var h := HourOf(a);
    HourBounds(a);
    assert (h + 1) as real * 3600.0 == h as real * 3600.0 + 3600.0;
    if y < 3600.0 - IntoHour(a) {
      HourIs(a + y, h);
    } else {
      assert (h + 2) as real * 3600.0 == (h + 1) as real * 3600.0 + 3600.0;
      HourIs(a + y, h + 1);
    }
  }

  // ----- the integral of a rate that is constant in every hour

  /** For up to ``boundary`` seconds after ``b`` the area grows at speed ``r``. */
  ghost predicate Linear(area: real -> real, b: real, r: real, boundary: real) {
    forall x :: b <= x <= b + boundary ==> area(x) == area(b) + r * (x - b)
  }

  /** ``area`` is an integral of the rate: in every hour, its end included, it grows at the hour's speed. */
  ghost predicate Integrates(rate: int -> real, area: real -> real) {
    forall b, boundary :: 0.0 <= boundary <= 3600.0 - IntoHour(b) ==> Linear(area, b, rate(HourOf(b)), boundary)
  }

  /** The area over the whole hours from 0 to ``h``, negative to the left of 0. */
  ghost function WholeHours(rate: int -> real, h: int): real
    decreases if h < 0 then -h else h
  {
    if h == 0 then 0.0
    else if h > 0 then WholeHours(rate, h - 1) + rate(h - 1) * 3600.0
    else WholeHours(rate, h + 1) - rate(h) * 3600.0
  }

  /** One integral, by whole hours and the rest. */
  ghost function ByHours(rate: int -> real): real -> real {
    x => WholeHours(rate, HourOf(x)) + rate(HourOf(x)) * IntoHour(x)
  }

  lemma ByHoursAt(rate: int -> real, x: real, h: int, into: real, w: real, r: real)
    requires HourOf(x) == h && IntoHour(x) == into && WholeHours(rate, h) == w && rate(h) == r
    ensures ByHours(rate)(x) == w + r * into
  {
  }

  lemma NextHour(rate: int -> real, h: int)
    ensures WholeHours(rate, h + 1) == WholeHours(rate, h) + rate(h) * 3600.0
  {
  }

  /** At the end of an hour the next one starts with nothing of its own. */
  lemma ByHoursAtEnd(rate: int -> real, x: real, h: int, w: real, r: real)
    requires HourOf(x) == h + 1 && IntoHour(x) == 0.0 && WholeHours(rate, h) == w && rate(h) == r
    ensures ByHours(rate)(x) == w + r * 3600.0
  {
    NextHour(rate, h);
    var r1 := rate(h + 1);
    ByHoursAt(rate, x, h + 1, 0.0, w + r * 3600.0, r1);
    assert r1 * 0.0 == 0.0;
  }

  lemma ByHoursAfter(rate: int -> real, a: real, y: real, h: int, into: real, w: real, r: real)
    requires 0.0 <= y <= 3600.0 - IntoHour(a)
    requires HourOf(a) == h && IntoHour(a) == into && WholeHours(rate, h) == w && rate(h) == r
    ensures ByHours(rate)(a + y) == w + r * (into + y)
  {
    HourAfter(a, y);
    var x, z := a + y, into + y;
    if y < 3600.0 - into {
      ByHoursAt(rate, x, h, z, w, r);
    } else {
      ByHoursAtEnd(rate, x, h, w, r);
      assert z == 3600.0;
    }
  }

  lemma ByHoursGrows(rate: int -> real, b: real, x: real)
    requires b <= x <= b + (3600.0 - IntoHour(b))
    ensures ByHours(rate)(x) == ByHours(rate)(b) + rate(HourOf(b)) * (x - b)
  {
    hide ByHours, WholeHours, HourOf, IntoHour;
    var w, r, into := WholeHours(rate, HourOf(b)), rate(HourOf(b)), IntoHour(b);
    ByHoursAt(rate, b, HourOf(b), into, w, r);
    ByHoursAfter(rate, b, x - b, HourOf(b), into, w, r);
    assert b + (x - b) == x;
    Distribute(r, into, x - b);
  }

  lemma Distribute(r: real, x: real, y: real)
    ensures r * (x + y) == r * x + r * y
  {
  }

  lemma ByHoursIntegrates(rate: int -> real)
    ensures Integrates(rate, ByHours(rate))
  {
    forall b, boundary | 0.0 <= boundary <= 3600.0 - IntoHour(b)
      ensures Linear(ByHours(rate), b, rate(HourOf(b)), boundary)
    {
      LinearWithin(rate, b, boundary);
    }
  }

  lemma LinearWithin(rate: int -> real, b: real, boundary: real)
    requires boundary <= 3600.0 - IntoHour(b)
    ensures Linear(ByHours(rate), b, rate(HourOf(b)), boundary)
  {
    hide ByHours;
    forall x | b <= x <= b + boundary
      ensures ByHours(rate)(x) == ByHours(rate)(b) + rate(HourOf(b)) * (x - b)
    {
      ByHoursGrows(rate, b, x);
    }
  }

  /** An integral of the curve's rate, known by what it is and not by how it is computed. */
  ghost function AreaOf(curve: Curve, factor: real): (area: real -> real)
    requires ValidCurve(curve)
    ensures Integrates(RateOf(curve, factor), area)
  {
    ByHoursIntegrates(RateOf(curve, factor));
    var area: real -> real :| Integrates(RateOf(curve, factor), area);
    area
  }

  /** The operational seconds in the wall interval ``a..b``: the integral of the rate over it. */
  ghost function Work(curve: Curve, factor: real, a: real, b: real): real
    requires ValidCurve(curve)
  {
    AreaOf(curve, factor)(b) - AreaOf(curve, factor)(a)
  }

  /**
   * Within hour ``h`` since the Monday operational time passes at the factor times the curve's entry for
   * the hour of the day or of the week, and at the factor alone where there is no curve.
   */
  lemma WorkInHour(curve: Curve, factor: real, a: real, b: real, h: int)
    requires ValidCurve(curve) && h as real * 3600.0 <= a <= b <= h as real * 3600.0 + 3600.0
    ensures curve.None? ==> Work(curve, factor, a, b) == factor * (b - a)
    ensures curve.Some? && |curve.value| == 24 ==> Work(curve, factor, a, b) == factor * curve.value[h % 24] * (b - a)
    ensures curve.Some? && |curve.value| == 168 ==> Work(curve, factor, a, b) == factor * curve.value[h % 168] * (b - a)
  {
    var rate := factor * Speed(curve, h);
    assert (h + 1) as real * 3600.0 == h as real * 3600.0 + 3600.0;
    if a < b {
      HourIs(a, h);
      GrowsInHour(curve, factor, a, b);
    }
    assert Work(curve, factor, a, b) == rate * (b - a);
  }

  lemma GrowsInHour(curve: Curve, factor: real, a: real, b: real)
    requires ValidCurve(curve) && a <= b <= a + (3600.0 - IntoHour(a))
    ensures Work(curve, factor, a, b) == factor * Speed(curve, HourOf(a)) * (b - a)
  {
    var area, rate := AreaOf(curve, factor), RateOf(curve, factor);
    assert Linear(area, a, rate(HourOf(a)), 3600.0 - IntoHour(a));
    hide Integrates;
    assert area(b) == area(a) + rate(HourOf(a)) * (b - a);
  }

  /** Without a curve operational time is wall time, times the factor. */
  lemma {:induction false} WorkWithoutCurve(factor: real, a: real, b: real)
    requires a <= b
    ensures Work(None, factor, a, b) == factor * (b - a)
    decreases HourOf(b) - HourOf(a)
  {
    var h := HourOf(a);
    var end := h as real * 3600.0 + 3600.0;
    HourBounds(a);
    if b <= end {
      WorkInHour(None, factor, a, b, h);
    } else {
      WorkInHour(None, factor, a, end, h);
      assert (h + 1) as real * 3600.0 == end;
      HourIs(end, h + 1);
      HourMonotone(end, b);
      WorkWithoutCurve(factor, end, b);
      Distribute(factor, end - a, b - end);
      assert (end - a) + (b - end) == b - a;
    }
  }

  // ----- advance

  /** Until ``elapsed`` seconds after ``a`` fewer than ``operational`` seconds have passed. */
  ghost predicate NotBefore(operational: real, a: real, area: real -> real, elapsed: real) {
    forall x :: a <= x < a + elapsed ==> area(x) < area(a) + operational
  }

  /**
   * ``elapsed`` is the first moment at which ``operational`` seconds have passed, or the limit if
   * that comes first, and ``done`` is what passed by then.
   */
  ghost predicate FirstPassage(operational: real, a: real, limit: real, area: real -> real, elapsed: real, done: real) {
    if operational <= 0.0 then elapsed == 0.0 && done == operational
    else if limit <= 0.0 then elapsed == 0.0 && done == 0.0
    else
      && 0.0 < elapsed <= limit
      && done == area(a + elapsed) - area(a)
      && done <= operational
      && (elapsed < limit ==> done == operational)
      && NotBefore(operational, a, area, elapsed)
  }

  ghost predicate Advanced(operational: real, t: real, limit: real, start: real, curve: Curve, factor: real, elapsed: real, done: real)
    requires ValidCurve(curve)
  {
    FirstPassage(operational, start + t, limit, AreaOf(curve, factor), elapsed, done)
  }

  /** The loop of ``advance`` between two hours. */
  ghost predicate Advancing(operational: real, limit: real, a: real, area: real -> real, elapsed: real, left: real) {
    && 0.0 <= elapsed <= limit && 0.0 <= left
    && (left == 0.0 ==> 0.0 < elapsed)
    && left == operational - (area(a + elapsed) - area(a))
    && NotBefore(operational, a, area, elapsed)
  }

  method Advance(operational: real, t: real, limit: real, start: real, curve: Curve, factor: real) returns (elapsed: real, done: real)
    requires ValidCurve(curve)
    ensures Advanced(operational, t, limit, start, curve, factor, elapsed, done)
  {
    ghost var area := AreaOf(curve, factor);
    elapsed := 0.0;
    var left := operational;
    ghost var a := start + t;
    while left > 0.0 && elapsed < limit
      invariant if operational <= 0.0 || limit <= 0.0 then left == operational && elapsed == 0.0
                else Advancing(operational, limit, a, area, elapsed, left)
      decreases if left > 0.0 && elapsed < limit then 1 + HourOf(a + limit) - HourOf(a + elapsed) else 0
    {
      var local := start + (t + elapsed);
      var rate := factor * Multiplier(curve, local);
      var boundary := Min(3600.0 - IntoHour(local), limit - elapsed);
      Iteration(operational, limit, a, RateOf(curve, factor), area, elapsed, left, local, rate, boundary);
      HoursLeft(a, elapsed, limit, boundary);
      if rate > 0.0 && left / rate <= boundary {
        elapsed := elapsed + left / rate;
        left := 0.0;
      } else {
        elapsed := elapsed + boundary;
        left := left - boundary * rate;
      }
    }
    done := operational - if left > 0.0 then left else 0.0;
  }

  function Min(a: real, b: real): real {
    if a < b then a else b
  }

  /** The termination of ``advance``: a step that is not the last ends an hour. */
  lemma HoursLeft(a: real, elapsed: real, limit: real, boundary: real)
    requires elapsed < limit && boundary == Min(3600.0 - IntoHour(a + elapsed), limit - elapsed)
    ensures HourOf(a + elapsed) <= HourOf(a + limit)
    ensures elapsed + boundary < limit ==>
      HourOf(a + elapsed) < HourOf(a + (elapsed + boundary)) <= HourOf(a + limit)
  {
    HourMonotone(a + elapsed, a + limit);
    HourBounds(a + elapsed);
    HourAfter(a + elapsed, boundary);
    assert a + elapsed + boundary == a + (elapsed + boundary);
    if elapsed + boundary < limit {
      HourMonotone(a + (elapsed + boundary), a + limit);
    }
  }

  lemma Scale(rate: real, x: real, y: real)
    requires rate > 0.0 && x < y
    ensures rate * x < rate * y
  {
  }

  lemma NotPositiveProduct(rate: real, y: real)
    requires rate <= 0.0 <= y
    ensures rate * y <= 0.0
  {
  }

  /** A step short of the boundary adds its work, and does not overshoot before its end. */
  lemma Steps(operational: real, limit: real, a: real, area: real -> real, elapsed: real, left: real, rate: real,
        step: real, boundary: real)
    requires Advancing(operational, limit, a, area, elapsed, left) && left > 0.0
    requires Linear(area, a + elapsed, rate, boundary) && 0.0 < step <= boundary && step <= limit - elapsed
    requires rate <= 0.0 || rate * step <= left
    requires left - rate * step >= 0.0
    ensures Advancing(operational, limit, a, area, elapsed + step, left - rate * step)
  {
    var b := a + elapsed;
    assert b + step == a + (elapsed + step);
    assert area(b + step) == area(b) + rate * step;
    forall x | a <= x < a + (elapsed + step)
      ensures area(x) < area(a) + operational
    {
      if b <= x {
        assert area(x) == area(b) + rate * (x - b);
        ShortOf(left, rate, x - b, step);
      }
    }
  }

  lemma ShortOf(left: real, rate: real, y: real, step: real)
    requires 0.0 <= y < step && 0.0 < left && (rate <= 0.0 || rate * step <= left)
    ensures rate * y < left
  {
    if rate > 0.0 {
      Scale(rate, y, step);
    } else {
      NotPositiveProduct(rate, y);
    }
  }

  lemma Quotient(left: real, rate: real)
    requires rate > 0.0 && left > 0.0
    ensures left / rate > 0.0 && rate * (left / rate) == left
  {
    var q := left / rate;
    assert q * rate == left;
    if q <= 0.0 {
      NotPositiveProduct(q, rate);
    }
  }

  lemma Finishes(operational: real, limit: real, a: real, area: real -> real, elapsed: real, left: real,
        rate: real, q: real, boundary: real)
    requires Advancing(operational, limit, a, area, elapsed, left)
    requires Linear(area, a + elapsed, rate, boundary) && rate > 0.0 && left > 0.0
    requires q == left / rate && q <= boundary && boundary <= limit - elapsed
    ensures Advancing(operational, limit, a, area, elapsed + q, 0.0)
  {
    Quotient(left, rate);
    Steps(operational, limit, a, area, elapsed, left, rate, q, boundary);
  }

  lemma RestIsPositive(left: real, rate: real, boundary: real)
    requires left > 0.0 && boundary > 0.0
    requires rate <= 0.0 || left / rate > boundary
    ensures left - rate * boundary > 0.0
  {
    if rate > 0.0 {
      Quotient(left, rate);
      Scale(rate, boundary, left / rate);
    } else {
      NotPositiveProduct(rate, boundary);
    }
  }

  lemma Continues(operational: real, limit: real, a: real, area: real -> real, elapsed: real, left: real, rate: real, boundary: real)
    requires Advancing(operational, limit, a, area, elapsed, left)
    requires Linear(area, a + elapsed, rate, boundary) && left > 0.0 && 0.0 < boundary <= limit - elapsed
    requires rate <= 0.0 || left / rate > boundary
    ensures Advancing(operational, limit, a, area, elapsed + boundary, left - boundary * rate)
  {
    RestIsPositive(left, rate, boundary);
    Steps(operational, limit, a, area, elapsed, left, rate, boundary, boundary);
  }

  lemma Iteration(operational: real, limit: real, a: real, rates: int -> real, area: real -> real, elapsed: real, left: real,
                  local: real, rate: real, boundary: real)
    requires Integrates(rates, area) && rate == rates(HourOf(local))
    requires Advancing(operational, limit, a, area, elapsed, left) && left > 0.0 && elapsed < limit
    requires local == a + elapsed && boundary == Min(3600.0 - IntoHour(local), limit - elapsed)
    ensures if rate > 0.0 && left / rate <= boundary then Advancing(operational, limit, a, area, elapsed + left / rate, 0.0)
            else Advancing(operational, limit, a, area, elapsed + boundary, left - boundary * rate)
  {
    HourBounds(local);
    assert Linear(area, local, rate, boundary);
    if rate > 0.0 && left / rate <= boundary {
      Finishes(operational, limit, a, area, elapsed, left, rate, left / rate, boundary);
    } else {
      Continues(operational, limit, a, area, elapsed, left, rate, boundary);
    }
  }

  /** The result of ``advance`` is determined by what it is for. */
  lemma FirstPassageUnique(operational: real, a: real, limit: real, area: real -> real, e1: real, d1: real, e2: real, d2: real)
    requires FirstPassage(operational, a, limit, area, e1, d1)
    requires FirstPassage(operational, a, limit, area, e2, d2)
    ensures e1 == e2 && d1 == d2
  {
    if operational > 0.0 && limit > 0.0 {
      assert e1 < e2 ==> area(a + e1) < area(a) + operational;
      assert e2 < e1 ==> area(a + e2) < area(a) + operational;
    }
  }

  /** Cutting the limit in two changes nothing: what is unfinished is carried over. */
  lemma FirstPassageAdds(operational: real, a: real, l1: real, l2: real, area: real -> real,
                         e: real, d: real, e1: real, d1: real, e2: real, d2: real)
    requires l1 >= 0.0 && l2 >= 0.0
    requires FirstPassage(operational, a, l1 + l2, area, e, d)
    requires FirstPassage(operational, a, l1, area, e1, d1)
    requires d1 < operational ==> FirstPassage(operational - d1, a + l1, l2, area, e2, d2)
    ensures if d1 < operational then e == e1 + e2 && d == d1 + d2 && e1 == l1 else e == e1 && d == d1
  {
    if operational > 0.0 && l1 > 0.0 && d1 < operational && l2 > 0.0 {
      assert a + l1 + e2 == a + (l1 + e2);
      FirstPassageUnique(operational, a, l1 + l2, area, e, d, e1 + e2, d1 + d2);
    } else if operational > 0.0 && l1 > 0.0 {
      FirstPassageUnique(operational, a, l1 + l2, area, e, d, e1, d1);
    } else if operational > 0.0 {
      assert a + l1 == a && l1 + l2 == l2;
      FirstPassageUnique(operational, a, l2, area, e, d, e2, d2);
    }
  }

  lemma AdvanceIsAdditive(operational: real, t: real, l1: real, l2: real, start: real, curve: Curve, factor: real,
                          e: real, d: real, e1: real, d1: real, e2: real, d2: real)
    requires ValidCurve(curve) && l1 >= 0.0 && l2 >= 0.0
    requires Advanced(operational, t, l1 + l2, start, curve, factor, e, d)
    requires Advanced(operational, t, l1, start, curve, factor, e1, d1)
    requires d1 < operational ==> Advanced(operational - d1, t + l1, l2, start, curve, factor, e2, d2)
    ensures if d1 < operational then e == e1 + e2 && d == d1 + d2 && e1 == l1 else e == e1 && d == d1
  {
    assert start + (t + l1) == start + t + l1;
    FirstPassageAdds(operational, start + t, l1, l2, AreaOf(curve, factor), e, d, e1, d1, e2, d2);
  }
}
