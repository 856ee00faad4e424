/** From a run to the fit and back: the gaps the fit measures are the holding times the loop drew. */
module FitRun {
  import opened Wrappers
  import opened Sampling
  import opened Schedule
  import BehaviourLoop
  import FitClock
  import SimLabel
  import SimThenLabel

  /** No rate change, so the factor stays 1. */
  ghost predicate Unchanged(events: seq<Event>) {
    forall i :: 0 <= i < |events| ==> !events[i].op.SetRate?
  }

  lemma {:induction false} IntegralIsWork(curve: Curve, start: real, events: seq<Event>, a: real, b: real)
    requires ValidCurve(curve) && InTime(events) && Unchanged(events) && a <= b
    ensures Integral(curve, start, events, 1.0, a, b) == Work(curve, 1.0, start + a, start + b)
  {
    if events != [] && events[0].at < b {
      var rest := events[1..];
      assert Unchanged(rest) && InTime(rest);
      assert FactorAfter(1.0, events[0]) == 1.0;
      if events[0].at <= a {
        IntegralIsWork(curve, start, rest, a, b);
      } else {
        IntegralIsWork(curve, start, rest, events[0].at, b);
        WorkAdds(curve, start + a, start + events[0].at, start + b);
      }
    }
  }

  lemma WorkAdds(curve: Curve, a: real, m: real, b: real)
    requires ValidCurve(curve)
    ensures Work(curve, 1.0, a, m) + Work(curve, 1.0, m, b) == Work(curve, 1.0, a, b)
  {
  }

  /** Every state of the behaviour has an action and somebody to run it against. */
  ghost predicate AllAct(p: BehaviourLoop.Program) {
    forall k: nat :: k < |p.behaviour.states| ==> BehaviourLoop.Acts(p, k).Some?
  }

  /** Then every entry is a record, in order. */
  lemma {:induction false} EveryEntryRecords(p: BehaviourLoop.Program, d: BehaviourLoop.Draws, epoch: real,
                                             entries: seq<BehaviourLoop.Entry>)
    requires BehaviourLoop.ValidDraws(d) && BehaviourLoop.InRange(p, entries) && AllAct(p)
    ensures var records := BehaviourLoop.Invoked(p, d, epoch, entries);
            |records| == |entries| && forall i :: 0 <= i < |entries| ==>
              entries[i].state < |p.behaviour.states| && records[i].start == epoch + entries[i].at
              && records[i].action == p.behaviour.states[entries[i].state]
  {
    hide BehaviourLoop.Acts;
    if entries != [] {
      var n := |entries| - 1;
      EveryEntryRecords(p, d, epoch, entries[..n]);
      assert entries[n] in entries;
      assert BehaviourLoop.Acts(p, entries[n].state).Some?;
      assert forall i :: 0 <= i < n ==> entries[..n][i] == entries[i];
    }
  }

  /** The wall times and states of a run's records, as the fit would have them. */
  function MarksOf(records: seq<BehaviourLoop.Record>): (r: seq<(real, string)>)
    ensures |r| == |records| && forall k :: 0 <= k < |records| ==> r[k] == (records[k].start, records[k].action)
  {
    seq(|records|, k requires 0 <= k < |records| => (records[k].start, records[k].action))
  }

  function StreamFrom(host: string, marks: seq<(real, string)>, window: (real, real)): (s: FitClock.Stream)
    ensures |s.times| == |s.marks| == |marks| && forall k :: 0 <= k < |marks| ==> s.times[k] == marks[k].0 && s.marks[k] == marks[k].1
  {
    FitClock.Stream(host,
                    seq(|marks|, k requires 0 <= k < |marks| => marks[k].0),
                    seq(|marks|, k requires 0 <= k < |marks| => marks[k].1),
                    window)
  }

  /** The holding times drawn for a state at the first ``n`` entries, in order. */
  ghost function DrawnFor(p: BehaviourLoop.Program, entries: seq<BehaviourLoop.Entry>, state: string, n: nat): seq<real>
    requires n <= |entries| && BehaviourLoop.InRange(p, entries)
  {
    if n == 0 then []
    else
      var e := entries[n - 1];
      DrawnFor(p, entries, state, n - 1)
      + if e.state < |p.behaviour.states| && p.behaviour.states[e.state] == state then [e.drawn] else []
  }

  /** A run that was started once, at the curve's own rate, whose every state acts. */
  ghost predicate Plain(r: BehaviourLoop.Setting, s: BehaviourLoop.State, curve: FitClock.Day, offset: real) {
    && BehaviourLoop.GoodAndChained(r, s) && s.firsts <= 1 && Unchanged(r.events) && AllAct(r.program)
    && r.program.behaviour.rate == Some(curve) && offset + r.epoch == r.program.start
  }

  /** Between two records of such a run the fit's clock finds the holding time drawn at the first. */
  lemma GapIsDrawn(r: BehaviourLoop.Setting, s: BehaviourLoop.State, curve: FitClock.Day, offset: real, j: nat)
    requires Plain(r, s, curve, offset) && j + 1 < |s.entries|
    ensures FitClock.WorkBetween(curve, offset, r.epoch + s.entries[j].at, r.epoch + s.entries[j + 1].at) == s.entries[j].drawn
  {
    hide Plain, BehaviourLoop.GoodAndChained;
    PlainIs(r, s, curve, offset);
    HoldingIsConserved(r, s, j);
    GapIsIntegral(r, curve, offset, s.entries[j].at, s.entries[j + 1].at);
  }

  lemma GapIsIntegral(r: BehaviourLoop.Setting, curve: FitClock.Day, offset: real, a: real, b: real)
    requires r.program.behaviour.rate == Some(curve) && offset + r.epoch == r.program.start && Unchanged(r.events) && InTime(r.events)
    requires a <= b
    ensures FitClock.WorkBetween(curve, offset, r.epoch + a, r.epoch + b)
      == Integral(Some(curve), r.program.start, r.events, 1.0, a, b)
  {
    IntegralIsWork(Some(curve), r.program.start, r.events, a, b);
    assert offset + (r.epoch + a) == r.program.start + a && offset + (r.epoch + b) == r.program.start + b;
  }

  lemma PlainIs(r: BehaviourLoop.Setting, s: BehaviourLoop.State, curve: FitClock.Day, offset: real)
    requires Plain(r, s, curve, offset)
    ensures BehaviourLoop.GoodAndChained(r, s) && s.firsts <= 1 && Unchanged(r.events) && InTime(r.events)
    ensures r.program.behaviour.rate == Some(curve) && offset + r.epoch == r.program.start
  {
  }

  lemma HoldingIsConserved(r: BehaviourLoop.Setting, s: BehaviourLoop.State, j: nat)
    requires BehaviourLoop.GoodAndChained(r, s) && s.firsts <= 1 && j + 1 < |s.entries|
    ensures ValidCurve(r.program.behaviour.rate) && s.entries[j].at <= s.entries[j + 1].at
    ensures Integral(r.program.behaviour.rate, r.program.start, r.events, 1.0, s.entries[j].at, s.entries[j + 1].at)
      == s.entries[j].drawn
  {
    BehaviourLoop.CountsOf(r, s);
    assert j < |s.holdings|;
    assert BehaviourLoop.EndsAtNext(s.entries, s.holdings[j], j);
    assert s.holdings[j] in s.holdings;
    assert BehaviourLoop.Conserved(r.program, r.events, s.entries, s.holdings[j]);
  }

  lemma RecordsOf(r: BehaviourLoop.Setting, s: BehaviourLoop.State, curve: FitClock.Day, offset: real)
    requires Plain(r, s, curve, offset)
    ensures BehaviourLoop.InRange(r.program, s.entries) && |s.records| == |s.entries|
    ensures forall i :: 0 <= i < |s.entries| ==>
      s.entries[i].state < |r.program.behaviour.states| && s.records[i].start == r.epoch + s.entries[i].at
      && s.records[i].action == r.program.behaviour.states[s.entries[i].state]
  {
    EveryEntryRecords(r.program, r.draws, r.epoch, s.entries);
  }

  /** The gaps of the run's stream after a state are the holding times drawn for it. */
  lemma {:induction false} GapsAreDrawn(r: BehaviourLoop.Setting, s: BehaviourLoop.State, curve: FitClock.Day, offset: real,
                                        stream: FitClock.Stream, state: string, n: nat)
    requires Plain(r, s, curve, offset) && BehaviourLoop.InRange(r.program, s.entries)
    requires |stream.times| == |stream.marks| == |s.records| == |s.entries| && (n == 0 || n < |s.entries|)
    requires forall k :: 0 <= k < |s.records| ==> stream.times[k] == s.records[k].start && stream.marks[k] == s.records[k].action
    ensures FitClock.GapsIn(stream, curve, offset, state, n) == DrawnFor(r.program, s.entries, state, n)
  {
    hide Plain, FitClock.WorkBetween;
    if n > 0 {
      GapsAreDrawn(r, s, curve, offset, stream, state, n - 1);
      GapIsDrawn(r, s, curve, offset, n - 1);
      RecordsOf(r, s, curve, offset);
    }
  }

  /**
   * A run of the loop simulated as connections, labelled again and fitted: where labelling recovers the
   * run's records, the gaps under each state are exactly the holding times the loop drew for it, but for
   * the last, which the run's end cut or nothing followed.
   */
  method FitTheRun(loop: BehaviourLoop.Loop, w: SimLabel.World, p: nat, curve: FitClock.Day, offset: real)
    returns (gaps: map<string, seq<real>>)
    requires loop.Valid() && Plain(loop.run, loop.Now(), curve, offset)
    requires SimThenLabel.Simulated(w) && SimLabel.SignaturesKnown(w)
    requires forall i :: i in w.calls ==> w.calls[i].signature in w.signatures
    requires p < |w.programs| && SimThenLabel.AllTold(w)
    requires SimThenLabel.Recovered(w, w.programs[p].instance, loop.run.program.behaviour.name)
    requires SimThenLabel.RecordMarks(w, p, loop.run.program.behaviour.name) == MarksOf(loop.records)
    ensures BehaviourLoop.InRange(loop.run.program, loop.entries)
    ensures forall state :: state in loop.run.program.behaviour.states ==>
      state in gaps && gaps[state] == DrawnFor(loop.run.program, loop.entries, state, AllButLast(loop.entries))
  {
    hide SimThenLabel.Simulated, SimThenLabel.AllTold, SimThenLabel.Recovered, SimThenLabel.RecordMarks, Plain,
         BehaviourLoop.Loop.Valid;
    var states := loop.run.program.behaviour.states;
    var marks := LabelOne(w, p, loop.run.program.behaviour.name);
    gaps := FitGaps(loop, marks, states, curve, offset, w.programs[p].instance);
  }

  /** The fit of a run's own marks. */
  method FitGaps(loop: BehaviourLoop.Loop, marks: seq<(real, string)>, states: seq<string>, curve: FitClock.Day, offset: real,
                 host: string)
    returns (gaps: map<string, seq<real>>)
    requires Plain(loop.run, loop.Now(), curve, offset) && marks == MarksOf(loop.records)
    ensures BehaviourLoop.InRange(loop.run.program, loop.entries)
    ensures forall state :: state in states ==>
      state in gaps && gaps[state] == DrawnFor(loop.run.program, loop.entries, state, AllButLast(loop.entries))
  {
    hide FitClock.GapsIn, Plain, DrawnFor;
    ghost var r, s := loop.run, loop.Now();
    var stream := StreamFrom(host, marks, (0.0, 0.0));
    gaps := FitClock.GapsByState([stream], states, curve, offset);
    RecordsOf(r, s, curve, offset);
    forall state | state in states
      ensures FitClock.GapsOver([stream], curve, offset, state) == DrawnFor(r.program, s.entries, state, AllButLast(s.entries))
    {
      OneStream(stream, curve, offset, state);
      GapsAreDrawn(r, s, curve, offset, stream, state, AllButLast(s.entries));
    }
  }

  /** One behaviour's stream of a simulated run, where labelling recovers it. */
  method LabelOne(w: SimLabel.World, p: nat, behaviour: string) returns (marks: seq<(real, string)>)
    requires SimThenLabel.Simulated(w) && SimLabel.SignaturesKnown(w)
    requires forall i :: i in w.calls ==> w.calls[i].signature in w.signatures
    requires p < |w.programs| && SimThenLabel.AllTold(w) && SimThenLabel.Recovered(w, w.programs[p].instance, behaviour)
    ensures marks == SimThenLabel.RecordMarks(w, p, behaviour)
  {
    hide SimThenLabel.Simulated, SimThenLabel.AllTold, SimThenLabel.Recovered, SimThenLabel.RecordMarks, SimThenLabel.StreamAt,
         SimThenLabel.Later, SimThenLabel.NoCopies;
    var streams, reasons, kept := SimThenLabel.SimulateThenLabel(w);
    marks := SimThenLabel.StreamAt(streams, SimThenLabel.KeyAt(w, p, behaviour));
  }

  function AllButLast<T>(s: seq<T>): (n: nat)
    ensures n <= |s| && (n == 0 || n < |s|)
  {
    if s == [] then 0 else |s| - 1
  }

  lemma OneStream(stream: FitClock.Stream, curve: FitClock.Day, offset: real, state: string)
    requires |stream.marks| == |stream.times|
    ensures FitClock.GapsOver([stream], curve, offset, state)
      == FitClock.GapsIn(stream, curve, offset, state, FitClock.Steps(stream))
  {
    assert [stream][..0] == [];
    assert FitClock.GapsOver([], curve, offset, state) == [];
  }
}
