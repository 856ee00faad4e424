/**
 * The fit's side of the rate curve: wall time back to operational time, and the hours each host
 * was observed in. Wall times become local ones by adding ``offset``.
 */
module FitClock {
  import opened Wrappers
  import opened Sampling

  datatype Stream = Stream(host: string, times: seq<real>, marks: seq<string>, window: (real, real))

  type Day = c: seq<real> | |c| == 24 witness seq(24, _ => 0.0)

  /** Work between two wall times, none if the second is not later. */
  ghost function WorkBetween(curve: Day, offset: real, start: real, end: real): real {
    if start < end then Work(Some(curve), 1.0, offset + start, offset + end) else 0.0
  }

  /** One step of an hour-by-hour walk adds what the integral grows by. */
  lemma WalkStep(curve: Day, a: real, x: real, step: real)
    requires 0.0 <= step <= 3600.0 - IntoHour(x)
    ensures Work(Some(curve), 1.0, a, x + step) == Work(Some(curve), 1.0, a, x) + curve[HourOf(x) % 24] * step
  {
    var area := AreaOf(Some(curve), 1.0);
    assert Linear(area, x, RateOf(Some(curve), 1.0)(HourOf(x)), step);
    assert area(x + step) == area(x) + curve[HourOf(x) % 24] * (x + step - x);
  }

  method Operational(start: real, end: real, curve: Day, offset: real) returns (total: real)
    ensures total == WorkBetween(curve, offset, start, end)
  {
    total := 0.0;
    var at := start;
    while at < end
      invariant at == start || start < at <= end
      invariant total == Work(Some(curve), 1.0, offset + start, offset + at)
      decreases if at < end then 1 + HourOf(offset + end) - HourOf(offset + at) else 0
    {
      var local := offset + at;
      var step := Min(3600.0 - IntoHour(local), end - at);
      HourBounds(local);
      HoursLeft(local, 0.0, end - at, step);
      WalkStep(curve, offset + start, local, step);
      assert local + step == offset + (at + step);
      assert local + (end - at) == offset + end && local + (0.0 + step) == local + step && local + 0.0 == local;
      total := total + step * curve[HourOf(local) % 24];
      at := at + step;
    }
  }

  /** The fit's clock undoes the loop's: over the wall interval ``advance`` took it finds the work ``advance`` did. */
  method AdvanceThenOperational(operational: real, t: real, limit: real, start: real, curve: Day, offset: real)
    returns (elapsed: real, done: real, found: real)
    requires operational >= 0.0
    ensures Advanced(operational, t, limit, start, Some(curve), 1.0, elapsed, done)
    ensures found == done
  {
    elapsed, done := Advance(operational, t, limit, start, Some(curve), 1.0);
    var wall := start + t - offset;
    found := Operational(wall, wall + elapsed, curve, offset);
    assert offset + wall == start + t && offset + (wall + elapsed) == start + t + elapsed;
  }

  // ----- events and exposure by local hour

  /** The curve that is 1 in hour ``h`` of the day and 0 in every other. */
  function Indicator(h: int): (c: Day)
    ensures forall k :: 0 <= k < 24 ==> c[k] == if k == h then 1.0 else 0.0
  {
    seq(24, k => if k == h then 1.0 else 0.0)
  }

  ghost function TimeAt(found: seq<Stream>, offset: real, h: int): real {
    if found == [] then 0.0
    else
      var s := found[|found| - 1];
      TimeAt(found[..|found| - 1], offset, h) + WorkBetween(Indicator(h), offset, s.window.0, s.window.1)
  }

  function EventsIn(times: seq<real>, offset: real, h: int): nat {
    if times == [] then 0
    else EventsIn(times[..|times| - 1], offset, h) + if HourOf(offset + times[|times| - 1]) % 24 == h then 1 else 0
  }

  function EventsAt(found: seq<Stream>, offset: real, h: int): nat {
    if found == [] then 0
    else EventsAt(found[..|found| - 1], offset, h) + EventsIn(found[|found| - 1].times, offset, h)
  }

  method Hourly(found: seq<Stream>, offset: real) returns (counts: array<real>, exposure: array<real>)
    ensures counts.Length == 24 && exposure.Length == 24
    ensures forall h :: 0 <= h < 24 ==> counts[h] == EventsAt(found, offset, h) as real
    ensures forall h :: 0 <= h < 24 ==> exposure[h] * 3600.0 == TimeAt(found, offset, h)
  {
    counts := new real[24](_ => 0.0);
    exposure := new real[24](_ => 0.0);
    for n := 0 to |found|
      invariant forall h :: 0 <= h < 24 ==> counts[h] == EventsAt(found[..n], offset, h) as real
      invariant forall h :: 0 <= h < 24 ==> exposure[h] * 3600.0 == TimeAt(found[..n], offset, h)
    {
      assert found[..n + 1][..n] == found[..n];
      CountEvents(found[n].times, offset, counts);
      ghost var before := exposure[..];
      Expose(found[n].window.0, found[n].window.1, offset, exposure);
      forall h | 0 <= h < 24
        ensures exposure[h] * 3600.0 == TimeAt(found[..n + 1], offset, h)
      {
        assert exposure[h] * 3600.0 == before[h] * 3600.0 + WorkBetween(Indicator(h), offset, found[n].window.0, found[n].window.1);
      }
    }
    assert found[..|found|] == found;
  }

  method CountEvents(times: seq<real>, offset: real, counts: array<real>)
    requires counts.Length == 24
    modifies counts
    ensures forall h :: 0 <= h < 24 ==> counts[h] == old(counts[h]) + EventsIn(times, offset, h) as real
  {
    for k := 0 to |times|
      invariant forall h :: 0 <= h < 24 ==> counts[h] == old(counts[h]) + EventsIn(times[..k], offset, h) as real
    {
      assert times[..k + 1][..k] == times[..k];
      var hour := HourOf(offset + times[k]) % 24;
      counts[hour] := counts[hour] + 1.0;
    }
    assert times[..|times|] == times;
  }

  method Expose(start: real, end: real, offset: real, exposure: array<real>)
    requires exposure.Length == 24
    modifies exposure
    ensures forall h :: 0 <= h < 24 ==>
      exposure[h] * 3600.0 == old(exposure[h]) * 3600.0 + WorkBetween(Indicator(h), offset, start, end)
  {
    var at := start;
    while at < end
      invariant at == start || start < at <= end
      invariant forall h :: 0 <= h < 24 ==>
        exposure[h] * 3600.0 == old(exposure[h]) * 3600.0 + Work(Some(Indicator(h)), 1.0, offset + start, offset + at)
      decreases if at < end then 1 + HourOf(offset + end) - HourOf(offset + at) else 0
    {
      var local := offset + at;
      var step := Min(3600.0 - IntoHour(local), end - at);
      HourBounds(local);
      HoursLeft(local, 0.0, end - at, step);
      assert local + step == offset + (at + step);
      assert local + (end - at) == offset + end && local + (0.0 + step) == local + step && local + 0.0 == local;
      forall h | 0 <= h < 24
        ensures Work(Some(Indicator(h)), 1.0, offset + start, local + step) ==
          Work(Some(Indicator(h)), 1.0, offset + start, local) + if h == HourOf(local) % 24 then step else 0.0
      {
        WalkStep(Indicator(h), offset + start, local, step);
      }
      var hour := HourOf(local) % 24;
      exposure[hour] := exposure[hour] + step / 3600.0;
      at := at + step;
    }
  }

  // ----- the hours weighted by the curve are the operational time

  ghost function Dot(c: Day, w: Day, n: nat): real
    requires n <= 24
  {
    if n == 0 then 0.0 else Dot(c, w, n - 1) + c[n - 1] * w[n - 1]
  }

  /** The time a wall interval spends in each hour of the day. */
  ghost function Times(a: real, b: real): Day {
    seq(24, h => Work(Some(Indicator(h)), 1.0, a, b))
  }

  lemma {:induction false} DotAdds(c: Day, u: Day, v: Day, w: Day, n: nat)
    requires n <= 24 && forall h :: 0 <= h < 24 ==> w[h] == u[h] + v[h]
    ensures Dot(c, w, n) == Dot(c, u, n) + Dot(c, v, n)
  {
    if n > 0 {
      DotAdds(c, u, v, w, n - 1);
      Distribute(c[n - 1], u[n - 1], v[n - 1]);
    }
  }

  ghost predicate OnlyAt(w: Day, k: nat, y: real) {
    forall h :: 0 <= h < 24 ==> w[h] == if h == k then y else 0.0
  }

  lemma {:induction false} DotOfOne(c: Day, w: Day, k: nat, y: real, n: nat)
    requires n <= 24 && k < 24 && OnlyAt(w, k, y)
    ensures Dot(c, w, n) == if k < n then c[k] * y else 0.0
  {
    if n > 0 {
      DotOfOne(c, w, k, y, n - 1);
      assert n - 1 != k ==> c[n - 1] * w[n - 1] == 0.0;
    }
  }

  lemma TimesInOneHour(a: real, y: real)
    requires 0.0 <= y <= 3600.0 - IntoHour(a)
    ensures OnlyAt(Times(a, a + y), HourOf(a) % 24, y)
  {
    var w := Times(a, a + y);
    forall h | 0 <= h < 24
      ensures w[h] == if h == HourOf(a) % 24 then y else 0.0
    {
      WalkStep(Indicator(h), a, a, y);
    }
  }

  lemma OneHourIsDot(curve: Day, a: real, y: real)
    requires 0.0 <= y <= 3600.0 - IntoHour(a)
    ensures Work(Some(curve), 1.0, a, a + y) == Dot(curve, Times(a, a + y), 24)
  {
    WalkStep(curve, a, a, y);
    TimesInOneHour(a, y);
    DotOfOne(curve, Times(a, a + y), HourOf(a) % 24, y, 24);
  }

  /** Operational time is the curve's value in each hour of the day times the wall time spent in it. */
  lemma {:induction false} WorkIsDot(curve: Day, a: real, b: real)
    requires a <= b
    ensures Work(Some(curve), 1.0, a, b) == Dot(curve, Times(a, b), 24)
    decreases HourOf(b) - HourOf(a)
  {
    HourBounds(a);
    HourMonotone(a, b);
    var y := 3600.0 - IntoHour(a);
    if b - a <= y {
      OneHourIsDot(curve, a, b - a);
      assert a + (b - a) == b;
    } else {
      HourAfter(a, y);
      HourMonotone(a + y, b);
      OneHourIsDot(curve, a, y);
      WorkIsDot(curve, a + y, b);
      forall h | 0 <= h < 24
        ensures Times(a, b)[h] == Times(a, a + y)[h] + Times(a + y, b)[h]
      {
      }
      DotAdds(curve, Times(a, a + y), Times(a + y, b), Times(a, b), 24);
    }
  }

  ghost function Exposures(found: seq<Stream>, offset: real): Day {
    seq(24, h => TimeAt(found, offset, h))
  }

  ghost function TotalWork(found: seq<Stream>, offset: real, curve: Day): real {
    if found == [] then 0.0
    else
      var s := found[|found| - 1];
      TotalWork(found[..|found| - 1], offset, curve) + WorkBetween(curve, offset, s.window.0, s.window.1)
  }

  ghost function TimesBetween(offset: real, start: real, end: real): Day {
    seq(24, h => WorkBetween(Indicator(h), offset, start, end))
  }

  lemma WorkBetweenIsDot(curve: Day, offset: real, start: real, end: real)
    ensures WorkBetween(curve, offset, start, end) == Dot(curve, TimesBetween(offset, start, end), 24)
  {
    if start < end {
      WorkIsDot(curve, offset + start, offset + end);
      assert TimesBetween(offset, start, end) == Times(offset + start, offset + end);
    } else {
      DotOfOne(curve, TimesBetween(offset, start, end), 0, 0.0, 24);
    }
  }

  /** Whatever the curve, the exposures it weights are all the operational time of all the windows. */
  lemma {:induction false} ExposureIsOperational(found: seq<Stream>, offset: real, curve: Day)
    ensures TotalWork(found, offset, curve) == Dot(curve, Exposures(found, offset), 24)
  {
    if found == [] {
      DotOfOne(curve, Exposures(found, offset), 0, 0.0, 24);
    } else {
      var before, s := found[..|found| - 1], found[|found| - 1];
      ExposureIsOperational(before, offset, curve);
      WorkBetweenIsDot(curve, offset, s.window.0, s.window.1);
      DotAdds(curve, Exposures(before, offset), TimesBetween(offset, s.window.0, s.window.1), Exposures(found, offset), 24);
    }
  }

  // ----- gaps

  /** The gaps after the first ``n`` events of a stream that are of this state, in operational seconds. */
  ghost function GapsIn(s: Stream, curve: Day, offset: real, state: string, n: nat): seq<real>
    requires |s.marks| == |s.times| && (n == 0 || n < |s.times|)
  {
    if n == 0 then []
    else
      GapsIn(s, curve, offset, state, n - 1)
      + if s.marks[n - 1] == state then [WorkBetween(curve, offset, s.times[n - 1], s.times[n])] else []
  }

  function Steps(s: Stream): nat {
    if s.times == [] then 0 else |s.times| - 1
  }

  ghost function GapsOver(found: seq<Stream>, curve: Day, offset: real, state: string): seq<real>
    requires forall i :: 0 <= i < |found| ==> |found[i].marks| == |found[i].times|
  {
    if found == [] then []
    else
      var s := found[|found| - 1];
      GapsOver(found[..|found| - 1], curve, offset, state) + GapsIn(s, curve, offset, state, Steps(s))
  }

  /** What is filed under each state. */
  ghost predicate Filed(gaps: map<string, seq<real>>, states: seq<string>, file: string -> seq<real>) {
    (forall s :: s in gaps <==> s in states) && forall s :: s in states ==> gaps[s] == file(s)
  }

  ghost function WithGaps(was: string -> seq<real>, stream: Stream, curve: Day, offset: real, n: nat): string -> seq<real>
    requires |stream.marks| == |stream.times| && (n == 0 || n < |stream.times|)
  {
    s => was(s) + GapsIn(stream, curve, offset, s, n)
  }

  /** The gaps of one stream, filed after what there was. */
  method FileGaps(filed: map<string, seq<real>>, ghost was: string -> seq<real>, stream: Stream, states: seq<string>,
                  curve: Day, offset: real)
    returns (gaps: map<string, seq<real>>)
    requires |stream.marks| == |stream.times| && Filed(filed, states, was)
    ensures Filed(gaps, states, WithGaps(was, stream, curve, offset, Steps(stream)))
  {
    hide WorkBetween;
    gaps := filed;
    for i := 0 to Steps(stream)
      invariant Filed(gaps, states, WithGaps(was, stream, curve, offset, i))
    {
      var state := stream.marks[i];
      if state in gaps {
        var gap := Operational(stream.times[i], stream.times[i + 1], curve, offset);
        gaps := gaps[state := gaps[state] + [gap]];
      }
    }
  }

  ghost function AllGaps(found: seq<Stream>, curve: Day, offset: real): string -> seq<real>
    requires forall i :: 0 <= i < |found| ==> |found[i].marks| == |found[i].times|
  {
    s => GapsOver(found, curve, offset, s)
  }

  lemma OneMoreStream(gaps: map<string, seq<real>>, states: seq<string>, found: seq<Stream>, n: nat, curve: Day, offset: real)
    requires n < |found| && forall i :: 0 <= i < |found| ==> |found[i].marks| == |found[i].times|
    requires Filed(gaps, states, WithGaps(AllGaps(found[..n], curve, offset), found[n], curve, offset, Steps(found[n])))
    ensures Filed(gaps, states, AllGaps(found[..n + 1], curve, offset))
  {
    hide GapsIn;
    assert found[..n + 1][..n] == found[..n];
  }

  /** ``_gaps_by_state``: the gap from each action to the next, under the state of the first. */
  method GapsByState(found: seq<Stream>, states: seq<string>, curve: Day, offset: real) returns (gaps: map<string, seq<real>>)
    requires forall i :: 0 <= i < |found| ==> |found[i].marks| == |found[i].times|
    ensures forall s :: s in gaps <==> s in states
    ensures forall s :: s in states ==> gaps[s] == GapsOver(found, curve, offset, s)
  {
    hide GapsIn;
    gaps := map s | s in states :: [];
    for n := 0 to |found|
      invariant Filed(gaps, states, AllGaps(found[..n], curve, offset))
    {
      gaps := FileGaps(gaps, AllGaps(found[..n], curve, offset), found[n], states, curve, offset);
      OneMoreStream(gaps, states, found, n, curve, offset);
    }
    assert found[..|found|] == found;
  }
}
