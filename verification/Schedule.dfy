/** The schedule of one behaviour, and operational time under the factors it sets. */
module Schedule {
  import opened Wrappers
  import opened Sampling
  import Sorting

  datatype Op = Start | Stop | SetRate(factor: real) | RunSequence

  /** ``arg`` names the behaviour of a ``Start`` or ``Stop``. */
  datatype Event = Event(at: real, op: Op, arg: string)

  /** The events a behaviour's loop keeps: every rate change, and its own starts and stops. */
  function Relevant(events: seq<Event>, behaviour: string): seq<Event> {
    if events == [] then []
    else
      var rest := Relevant(events[1..], behaviour);
      var e := events[0];
      if e.op.SetRate? || ((e.op.Start? || e.op.Stop?) && e.arg == behaviour) then [e] + rest else rest
  }

  ghost predicate InTime(events: seq<Event>) {
    forall i, j :: 0 <= i < j < |events| ==> events[i].at <= events[j].at
  }

  predicate NotLater(a: Event, b: Event) {
    a.at <= b.at
  }

  /** ``sorted`` by time. */
  function SortByTime(events: seq<Event>): seq<Event> {
    Sorting.Sort(NotLater, events)
  }

  /** The events of one time, in order. */
  function AtTime(events: seq<Event>, at: real): seq<Event> {
    if events == [] then [] else (if events[0].at == at then [events[0]] else []) + AtTime(events[1..], at)
  }

  lemma {:induction false} AtTimeIsAlike(events: seq<Event>, e: Event)
    ensures AtTime(events, e.at) == Sorting.Alike(NotLater, e, events)
  {
    if events != [] {
      AtTimeIsAlike(events[1..], e);
    }
  }

  /** In time order, the same events, and those of one time in the schedule's order. */
  lemma SortedByTime(events: seq<Event>)
    ensures InTime(SortByTime(events)) && multiset(SortByTime(events)) == multiset(events)
    ensures forall at :: AtTime(SortByTime(events), at) == AtTime(events, at)
  {
    Sorting.Sorted(NotLater, events);
    var sorted := SortByTime(events);
    forall i, j | 0 <= i < j < |sorted|
      ensures sorted[i].at <= sorted[j].at
    {
      assert NotLater(sorted[i], sorted[j]);
    }
    forall at
      ensures AtTime(sorted, at) == AtTime(events, at)
    {
      var e := Event(at, Start, "");
      AtTimeIsAlike(sorted, e);
      AtTimeIsAlike(events, e);
      Sorting.Stable(NotLater, e, events);
    }
  }

  // ----- which events those are, and in what order

  /** It sets a rate, or starts or stops this behaviour. */
  predicate Concerns(e: Event, behaviour: string) {
    e.op.SetRate? || (e.op.Start? && e.arg == behaviour) || (e.op.Stop? && e.arg == behaviour)
  }

  lemma ShiftedHas(from: seq<nat>, k: nat)
    ensures k in Sorting.Shifted(from) <==> k > 0 && k - 1 in from
  {
    var later := Sorting.Shifted(from);
    if k > 0 && k - 1 in from {
      var j :| 0 <= j < |from| && from[j] == k - 1;
      assert later[j] == k;
    }
    if k in later {
      var j :| 0 <= j < |later| && later[j] == k;
      assert from[j] == k - 1;
    }
  }

  ghost predicate Ascending(from: seq<nat>) {
    forall i, j :: 0 <= i < j < |from| ==> from[i] < from[j]
  }

  /** A list's places in its tail... */
  lemma PlacesOfTail(events: seq<Event>, r: seq<Event>, rest: seq<nat>)
    requires events != [] && Sorting.Places(events[1..], r, rest) && Ascending(rest)
    ensures Sorting.Places(events, r, Sorting.Shifted(rest)) && Ascending(Sorting.Shifted(rest))
    ensures forall k :: 0 <= k < |Sorting.Shifted(rest)| ==> Sorting.Shifted(rest)[k] > 0
  {
    assert forall k :: 0 <= k < |rest| ==> events[1..][rest[k]] == events[rest[k] + 1];
  }

  /** ...and what its head adds. */
  lemma PlacesWithHead(events: seq<Event>, r: seq<Event>, later: seq<nat>)
    requires events != [] && Sorting.Places(events, r, later) && Ascending(later)
    requires forall k :: 0 <= k < |later| ==> later[k] > 0
    ensures Sorting.Places(events, [events[0]] + r, [0] + later) && Ascending([0] + later)
  {
  }

  ghost predicate AreConcerned(events: seq<Event>, behaviour: string, from: seq<nat>) {
    forall k :: 0 <= k < |events| ==> (k in from <==> Concerns(events[k], behaviour))
  }

  lemma ConcernedOfTail(events: seq<Event>, behaviour: string, rest: seq<nat>)
    requires events != [] && AreConcerned(events[1..], behaviour, rest)
    ensures var later := Sorting.Shifted(rest);
            AreConcerned(events, behaviour, if Concerns(events[0], behaviour) then [0] + later else later)
  {
    hide Concerns, Sorting.Shifted;
    var later := Sorting.Shifted(rest);
    var from := if Concerns(events[0], behaviour) then [0] + later else later;
    forall k | 0 <= k < |events|
      ensures k in from <==> Concerns(events[k], behaviour)
    {
      assert k > 0 ==> events[1..][k - 1] == events[k];
      ShiftedHas(rest, k);
      assert k in from <==> k in later || (k == 0 && Concerns(events[0], behaviour));
    }
  }

  lemma RelevantHead(events: seq<Event>, behaviour: string)
    requires events != []
    ensures Relevant(events, behaviour) ==
      if Concerns(events[0], behaviour) then [events[0]] + Relevant(events[1..], behaviour) else Relevant(events[1..], behaviour)
  {
  }

  lemma {:induction false} RelevantPlaces(events: seq<Event>, behaviour: string) returns (from: seq<nat>)
    ensures Sorting.Places(events, Relevant(events, behaviour), from) && Ascending(from) && AreConcerned(events, behaviour, from)
  {
    if events == [] {
      from := [];
    } else {
      hide Sorting.Places, Relevant, Concerns, AreConcerned, Ascending, Sorting.Shifted;
      var rest := RelevantPlaces(events[1..], behaviour);
      PlacesOfTail(events, Relevant(events[1..], behaviour), rest);
      PlacesWithHead(events, Relevant(events[1..], behaviour), Sorting.Shifted(rest));
      ConcernedOfTail(events, behaviour, rest);
      RelevantHead(events, behaviour);
      var later := Sorting.Shifted(rest);
      from := if Concerns(events[0], behaviour) then [0] + later else later;
    }
  }

  /** What the loop goes by: each event that concerns the behaviour as often as the schedule has it, and no other. */
  lemma {:induction false} EventsCount(schedule: seq<Event>, behaviour: string, e: Event)
    ensures multiset(SortByTime(Relevant(schedule, behaviour)))[e] == if Concerns(e, behaviour) then multiset(schedule)[e] else 0
  {
    SortedByTime(Relevant(schedule, behaviour));
    if schedule != [] {
      EventsCount(schedule[1..], behaviour, e);
      SortedByTime(Relevant(schedule[1..], behaviour));
      assert schedule == [schedule[0]] + schedule[1..];
    }
  }

  /** Before, by time and then by place. */
  predicate Earlier(events: seq<Event>, i: nat, j: nat)
    requires i < |events| && j < |events|
  {
    events[i].at < events[j].at || (events[i].at == events[j].at && i < j)
  }

  /** The places in the schedule of the events a loop goes by, those that concern it, by time and then by place. */
  ghost predicate GoesBy(schedule: seq<Event>, behaviour: string, events: seq<Event>, from: seq<nat>) {
    && Sorting.Places(schedule, events, from) && AreConcerned(schedule, behaviour, from)
    && forall i, j :: 0 <= i < j < |from| ==> Earlier(schedule, from[i], from[j])
  }

  /**
   * The events a loop goes by are those of the schedule that set a rate or start or stop its own
   * behaviour, each once, by time and within one time in the schedule's order.
   */
  lemma EventsPlaces(schedule: seq<Event>, behaviour: string) returns (from: seq<nat>)
    ensures GoesBy(schedule, behaviour, SortByTime(Relevant(schedule, behaviour)), from)
  {
    hide Relevant, Concerns, AreConcerned;
    var kept := Relevant(schedule, behaviour);
    var places := RelevantPlaces(schedule, behaviour);
    var order := Sorting.SortPlaces(NotLater, kept);
    SortedByTime(kept);
    assert SortByTime(kept) == Sorting.Sort(NotLater, kept);
    hide SortByTime;
    from := Sorting.Taken(places, order);
    ComposedPlaces(schedule, kept, SortByTime(kept), places, order);
    ComposedMembers(places, order);
    SameConcerned(schedule, behaviour, places, from);
  }

  lemma SameConcerned(schedule: seq<Event>, behaviour: string, places: seq<nat>, from: seq<nat>)
    requires AreConcerned(schedule, behaviour, places) && forall k: nat :: k in from <==> k in places
    ensures AreConcerned(schedule, behaviour, from)
  {
    hide Concerns;
  }

  lemma ComposedPlaces(schedule: seq<Event>, kept: seq<Event>, sorted: seq<Event>, places: seq<nat>, order: seq<nat>)
    requires Sorting.Places(schedule, kept, places) && Ascending(places)
    requires Sorting.Places(kept, sorted, order) && Sorting.AlikeInOrder(NotLater, kept, order) && InTime(sorted)
    ensures var from := Sorting.Taken(places, order);
            Sorting.Places(schedule, sorted, from) && forall i, j :: 0 <= i < j < |from| ==> Earlier(schedule, from[i], from[j])
  {
    var from := Sorting.Taken(places, order);
    forall i, j | 0 <= i < j < |from|
      ensures from[i] != from[j] && Earlier(schedule, from[i], from[j])
    {
      assert sorted[i].at <= sorted[j].at;
      assert order[i] != order[j];
      if order[j] < order[i] {
        assert !NotLater(kept[order[j]], kept[order[i]]);
        assert places[order[j]] < places[order[i]];
      } else {
        assert places[order[i]] < places[order[j]];
      }
    }
  }

  lemma ComposedMembers(places: seq<nat>, order: seq<nat>)
    requires (forall k :: 0 <= k < |order| ==> order[k] < |places|) && forall n :: 0 <= n < |places| ==> n in order
    ensures forall k: nat :: k in Sorting.Taken(places, order) <==> k in places
  {
    var from := Sorting.Taken(places, order);
    forall k: nat
      ensures k in from <==> k in places
    {
      if k in places {
        var n :| 0 <= n < |places| && places[n] == k;
        assert n in order;
        var m :| 0 <= m < |order| && order[m] == n;
        assert from[m] == k;
      }
      if k in from {
        var m :| 0 <= m < |from| && from[m] == k;
        assert places[order[m]] == k;
      }
    }
  }

  /** At time ``at`` the behaviour has been started, by its own last start or stop by then. */
  ghost predicate OnAt(schedule: seq<Event>, behaviour: string, at: real) {
    exists i :: 0 <= i < |schedule| && IsLastStart(schedule, behaviour, at, i)
  }

  ghost predicate IsLastStart(schedule: seq<Event>, behaviour: string, at: real, i: nat)
    requires i < |schedule|
  {
    && schedule[i].op.Start? && schedule[i].arg == behaviour && schedule[i].at <= at
    && forall j :: 0 <= j < |schedule| && schedule[j].op.Stop? && schedule[j].arg == behaviour && schedule[j].at <= at ==>
         schedule[j].at < schedule[i].at || (schedule[j].at == schedule[i].at && j < i)
  }

  /** Of the first ``k`` events ``p`` is a start and no later one a stop. */
  ghost predicate NoneStops(events: seq<Event>, k: nat, p: nat)
    requires k <= |events|
  {
    p < k && events[p].op.Start? && forall q :: p < q < k ==> !events[q].op.Stop?
  }

  lemma {:induction false} StartedIff(events: seq<Event>, k: nat)
    requires k <= |events|
    ensures Started(events[..k]) <==> exists p: nat :: NoneStops(events, k, p)
  {
    if k > 0 {
      var n := k - 1;
      StartedIff(events, n);
      assert events[..k][..n] == events[..n];
      if p: nat :| NoneStops(events, n, p) && !events[n].op.Stop? {
        assert NoneStops(events, k, p);
      }
      if events[n].op.Start? {
        assert NoneStops(events, k, n);
      }
      if p: nat :| NoneStops(events, k, p) && p < n {
        assert NoneStops(events, n, p);
      }
    }
  }

  /** These are the events whose time has come at ``at``. */
  ghost predicate DueBy(events: seq<Event>, k: nat, at: real) {
    && k <= |events| && (forall i :: 0 <= i < k ==> events[i].at <= at)
    && forall i :: k <= i < |events| ==> at < events[i].at
  }

  /** Once the events due by a time have been applied the behaviour is started exactly when the schedule has it on. */
  lemma StartedIsOn(schedule: seq<Event>, behaviour: string, k: nat, at: real)
    requires DueBy(SortByTime(Relevant(schedule, behaviour)), k, at)
    ensures Started(SortByTime(Relevant(schedule, behaviour))[..k]) <==> OnAt(schedule, behaviour, at)
  {
    hide Relevant, SortByTime, OnAt, GoesBy, NoneStops, Started;
    var events := SortByTime(Relevant(schedule, behaviour));
    var from := EventsPlaces(schedule, behaviour);
    StartedIff(events, k);
    if p: nat :| NoneStops(events, k, p) {
      LastStartStands(schedule, behaviour, events, from, k, at, p);
    }
    if OnAt(schedule, behaviour, at) {
      var p := OnStands(schedule, behaviour, events, from, k, at);
    }
  }

  lemma OnStands(schedule: seq<Event>, behaviour: string, events: seq<Event>, from: seq<nat>, k: nat, at: real) returns (p: nat)
    requires GoesBy(schedule, behaviour, events, from) && DueBy(events, k, at) && OnAt(schedule, behaviour, at)
    ensures NoneStops(events, k, p)
  {
    var i: nat :| i < |schedule| && IsLastStart(schedule, behaviour, at, i);
    assert i in from;
    p :| 0 <= p < |from| && from[p] == i;
    forall q | p < q < k
      ensures !events[q].op.Stop?
    {
      assert Earlier(schedule, from[p], from[q]);
      assert from[q] in from;
    }
  }

  lemma LastStartStands(schedule: seq<Event>, behaviour: string, events: seq<Event>, from: seq<nat>, k: nat, at: real, p: nat)
    requires GoesBy(schedule, behaviour, events, from) && DueBy(events, k, at) && NoneStops(events, k, p)
    ensures OnAt(schedule, behaviour, at)
  {
    var i := from[p];
    assert i in from;
    forall j | 0 <= j < |schedule| && schedule[j].op.Stop? && schedule[j].arg == behaviour && schedule[j].at <= at
      ensures schedule[j].at < schedule[i].at || (schedule[j].at == schedule[i].at && j < i)
    {
      assert j in from;
      var q :| 0 <= q < |from| && from[q] == j;
      assert events[q] == schedule[j];
      assert q < p;
      assert Earlier(schedule, from[q], from[p]);
    }
    assert IsLastStart(schedule, behaviour, at, i);
  }

  /** The factor an event leaves in force. */
  function FactorAfter(f: real, e: Event): real {
    if e.op.SetRate? then e.op.factor else f
  }

  function Factor(f: real, events: seq<Event>): real {
    if events == [] then f else FactorAfter(Factor(f, events[..|events| - 1]), events[|events| - 1])
  }

  /** Whether the behaviour is started once these events have been applied, in order. */
  function Started(events: seq<Event>): bool {
    if events == [] then false
    else
      var last := events[|events| - 1].op;
      last.Start? || (!last.Stop? && Started(events[..|events| - 1]))
  }

  /**
   * Operational seconds between scenario times ``a`` and ``b``: the integral of curve times factor,
   * the factor being ``f`` until the first of ``events`` and then what each event sets.
   */
  ghost function Integral(curve: Curve, start: real, events: seq<Event>, f: real, a: real, b: real): real
    requires ValidCurve(curve)
  {
    if events == [] || b <= events[0].at then Work(curve, f, start + a, start + b)
    else if events[0].at <= a then Integral(curve, start, events[1..], FactorAfter(f, events[0]), a, b)
    else
      Work(curve, f, start + a, start + events[0].at)
      + Integral(curve, start, events[1..], FactorAfter(f, events[0]), events[0].at, b)
  }

  lemma {:induction false} IntegralOfNothing(curve: Curve, start: real, events: seq<Event>, f: real, a: real)
    requires ValidCurve(curve)
    ensures Integral(curve, start, events, f, a, a) == 0.0
  {
    if events != [] && events[0].at < a {
      IntegralOfNothing(curve, start, events[1..], FactorAfter(f, events[0]), a);
    }
  }

  lemma {:induction false} IntegralAdds(curve: Curve, start: real, events: seq<Event>, f: real, a: real, m: real, b: real)
    requires ValidCurve(curve) && InTime(events) && a <= m <= b
    ensures Integral(curve, start, events, f, a, b) ==
      Integral(curve, start, events, f, a, m) + Integral(curve, start, events, f, m, b)
  {
    if events != [] && events[0].at < b {
      var at, f', rest := events[0].at, FactorAfter(f, events[0]), events[1..];
      if at <= a {
        IntegralAdds(curve, start, rest, f', a, m, b);
        if m <= at {
          IntegralOfNothing(curve, start, rest, f', m);
        }
      } else if at < m {
        IntegralAdds(curve, start, rest, f', at, m, b);
      } else if at == m {
        IntegralOfNothing(curve, start, rest, f', m);
      }
    }
  }

  /** Events already past at ``a`` only set the factor. */
  lemma {:induction false} IntegralAfter(curve: Curve, start: real, events: seq<Event>, f: real, k: nat, a: real, b: real)
    requires ValidCurve(curve) && InTime(events) && k <= |events| && a <= b
    requires forall i :: 0 <= i < k ==> events[i].at <= a
    ensures Integral(curve, start, events, f, a, b) == Integral(curve, start, events[k..], Factor(f, events[..k]), a, b)
  {
    if k == 0 {
      assert events[0..] == events;
    } else {
      IntegralAfter(curve, start, events, f, k - 1, a, b);
      assert events[..k][..k - 1] == events[..k - 1];
      var rest := events[k - 1..];
      assert rest[1..] == events[k..];
      if b <= rest[0].at {
        IntegralOfNothing(curve, start, rest, Factor(f, events[..k - 1]), a);
        IntegralOfNothing(curve, start, events[k..], Factor(f, events[..k]), a);
      }
    }
  }

  /** Until the next event, the factor in force and the curve are all there is. */
  lemma UntilNext(curve: Curve, start: real, events: seq<Event>, k: nat, a: real, b: real)
    requires ValidCurve(curve) && InTime(events) && k <= |events| && a <= b
    requires forall i :: 0 <= i < k ==> events[i].at <= a
    requires forall i :: k <= i < |events| ==> b <= events[i].at
    ensures Integral(curve, start, events, 1.0, a, b) == Work(curve, Factor(1.0, events[..k]), start + a, start + b)
  {
    IntegralAfter(curve, start, events, 1.0, k, a, b);
  }

  // ----- speed limits

  /** No hour of the curve under any factor in force passes faster than ``limit``. */
  ghost predicate SpeedLimit(curve: Curve, f: real, events: seq<Event>, limit: real)
    requires ValidCurve(curve)
  {
    && (forall h: int :: RateOf(curve, f)(h) <= limit)
    && (forall i, h: int :: 0 <= i < |events| && events[i].op.SetRate? ==> RateOf(curve, events[i].op.factor)(h) <= limit)
  }

  /** Inside one hour the work is at most the limit times the wall time. */
  lemma HourWithin(curve: Curve, f: real, a: real, y: real, limit: real)
    requires ValidCurve(curve) && 0.0 <= y <= 3600.0 - IntoHour(a) && RateOf(curve, f)(HourOf(a)) <= limit
    ensures Work(curve, f, a, a + y) <= limit * y
  {
    var area, r := AreaOf(curve, f), RateOf(curve, f)(HourOf(a));
    assert Linear(area, a, r, y);
    assert area(a + y) == area(a) + r * (a + y - a);
    Scaled(r, limit, y);
  }

  lemma {:induction false} WorkWithin(curve: Curve, f: real, a: real, b: real, limit: real)
    requires ValidCurve(curve) && a <= b && forall h: int :: RateOf(curve, f)(h) <= limit
    ensures Work(curve, f, a, b) <= limit * (b - a)
    decreases HourOf(b) - HourOf(a)
  {
    HourBounds(a);
    HourMonotone(a, b);
    var rest := 3600.0 - IntoHour(a);
    if b - a <= rest {
      HourWithin(curve, f, a, b - a, limit);
      assert a + (b - a) == b;
    } else {
      var next := a + rest;
      HourWithin(curve, f, a, rest, limit);
      HourAfter(a, rest);
      HourMonotone(next, b);
      WorkWithin(curve, f, next, b, limit);
      assert next - a == rest;
      assert Work(curve, f, a, next) <= limit * (next - a);
      assert Work(curve, f, next, b) <= limit * (b - next);
      Added(Work(curve, f, a, next), Work(curve, f, next, b), limit, a, next, b);
    }
  }

  lemma Scaled(r: real, limit: real, y: real)
    requires r <= limit && 0.0 <= y
    ensures r * y <= limit * y
  {
  }

  lemma WorkWithinRun(curve: Curve, f: real, start: real, a: real, b: real, limit: real)
    requires ValidCurve(curve) && a <= b && forall h: int :: RateOf(curve, f)(h) <= limit
    ensures Work(curve, f, start + a, start + b) <= limit * (b - a)
  {
    WorkWithin(curve, f, start + a, start + b, limit);
    assert start + b - (start + a) == b - a;
  }

  lemma Added(x: real, y: real, limit: real, a: real, m: real, b: real)
    requires x <= limit * (m - a) && y <= limit * (b - m)
    ensures x + y <= limit * (b - a)
  {
    Distribute(limit, m - a, b - m);
    assert m - a + (b - m) == b - a;
  }

  lemma LimitAfter(curve: Curve, f: real, events: seq<Event>, limit: real)
    requires ValidCurve(curve) && events != [] && SpeedLimit(curve, f, events, limit)
    ensures SpeedLimit(curve, FactorAfter(f, events[0]), events[1..], limit)
  {
    forall i, h: int | 0 <= i < |events| - 1 && events[1..][i].op.SetRate?
      ensures RateOf(curve, events[1..][i].op.factor)(h) <= limit
    {
      assert events[1..][i] == events[i + 1];
    }
  }

  lemma {:induction false} IntegralWithin(curve: Curve, start: real, events: seq<Event>, f: real, a: real, b: real, limit: real)
    requires ValidCurve(curve) && InTime(events) && a <= b && SpeedLimit(curve, f, events, limit)
    ensures Integral(curve, start, events, f, a, b) <= limit * (b - a)
  {
    if events == [] || b <= events[0].at {
      WorkWithinRun(curve, f, start, a, b, limit);
    } else {
      var at, f', rest := events[0].at, FactorAfter(f, events[0]), events[1..];
      LimitAfter(curve, f, events, limit);
      if at <= a {
        IntegralWithin(curve, start, rest, f', a, b, limit);
      } else {
        WorkWithinRun(curve, f, start, a, at, limit);
        IntegralWithin(curve, start, rest, f', at, b, limit);
        Added(Work(curve, f, start + a, start + at), Integral(curve, start, rest, f', at, b), limit, a, at, b);
      }
    }
  }
}
