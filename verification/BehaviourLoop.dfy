/**
 * One behaviour's loop under the simulator's jumping clock. Draws are streams given in advance:
 * the k-th draw of a stream is a function of k and of what is drawn from.
 */
module BehaviourLoop {
  import opened Wrappers
  import opened Sampling
  import opened Schedule

  datatype Action = Action(tie: string, one: bool)

  datatype Behaviour = Behaviour(
    name: string,
    states: seq<string>,
    initial: seq<real>,
    transitions: seq<seq<real>>,
    rate: Curve,
    actions: map<string, Option<Action>>)

  datatype Program = Program(
    behaviour: Behaviour,
    peers: map<string, seq<string>>,
    schedule: seq<Event>,
    start: real,
    duration: real)

  datatype Outcome = Succeeded | Failed

  /** ``choose`` and ``hold`` share the behaviour's stream, ``peer`` is the selection stream's. */
  datatype Draws = Draws(
    choose: (nat, seq<real>) -> nat,
    hold: (nat, nat) -> real,
    peer: (nat, nat) -> nat,
    runs: nat -> Outcome)

  datatype Record = Record(n: nat, action: string, targets: seq<string>, start: real, end: real, outcome: Outcome)

  /** A state entered at ``at``, its holding time, and how many events had been applied by then. */
  datatype Entry = Entry(state: nat, at: real, drawn: real, applied: nat)

  /** The holding of entry number ``entry`` ran out at ``left``. */
  datatype Holding = Holding(entry: nat, left: real)

  /** What the loader holds a program to. */
  ghost predicate ValidProgram(p: Program) {
    var b := p.behaviour;
    && b.states != [] && |b.initial| == |b.states| && |b.transitions| == |b.states|
    && (forall i :: 0 <= i < |b.states| ==> |b.transitions[i]| == |b.states|)
    && ValidCurve(b.rate) && p.duration >= 0.0
  }

  ghost predicate ValidDraws(d: Draws) {
    && (forall k, w :: w != [] ==> d.choose(k, w) < |w|)
    && (forall k, n :: n > 0 ==> d.peer(k, n) < n)
    && (forall k, s :: d.hold(k, s) >= 0.0)
  }

  // ----- what the run leaves behind, as functions of what happened

  function PeersOn(p: Program, tie: string): seq<string> {
    if tie in p.peers then p.peers[tie] else []
  }

  /** The action a state runs, if it has one and somebody to run it against. */
  function Acts(p: Program, state: nat): Option<Action>
    requires state < |p.behaviour.states|
  {
    var name := p.behaviour.states[state];
    if name in p.behaviour.actions && p.behaviour.actions[name].Some? && PeersOn(p, p.behaviour.actions[name].value.tie) != []
    then p.behaviour.actions[name] else None
  }

  ghost predicate InRange(p: Program, entries: seq<Entry>) {
    forall e :: e in entries ==> e.state < |p.behaviour.states|
  }

  /** How many peers the selection stream has drawn for these entries. */
  ghost function Selections(p: Program, entries: seq<Entry>): nat
    requires InRange(p, entries)
  {
    if entries == [] then 0
    else
      var action := Acts(p, entries[|entries| - 1].state);
      Selections(p, entries[..|entries| - 1]) + if action.Some? && action.value.one then 1 else 0
  }

  /** The records of these entries: one for each that acts, numbered in order. */
  ghost function Invoked(p: Program, d: Draws, epoch: real, entries: seq<Entry>): seq<Record>
    requires ValidDraws(d) && InRange(p, entries)
  {
    if entries == [] then []
    else
      var before, e := entries[..|entries| - 1], entries[|entries| - 1];
      var records := Invoked(p, d, epoch, before);
      match Acts(p, e.state)
      case None => records
      case Some(a) =>
        var peers := PeersOn(p, a.tie);
        var targets := if a.one then [peers[d.peer(Selections(p, before), |peers|)]] else peers;
        records + [Record(|records| + 1, p.behaviour.states[e.state], targets, epoch + e.at, epoch + e.at, d.runs(|records| + 1))]
  }

  /** How often these events start a behaviour that is not running. */
  function EffectiveStarts(events: seq<Event>): nat {
    if events == [] then 0
    else
      var before := events[..|events| - 1];
      EffectiveStarts(before) + if events[|events| - 1].op.Start? && !Started(before) then 1 else 0
  }

  // ----- invariants

  /** The state was entered with the behaviour started, by the events up to its time. */
  ghost predicate EntryOk(events: seq<Event>, d: Draws, e: Entry) {
    && e.applied <= |events|
    && Started(events[..e.applied])
    && (forall i :: 0 <= i < e.applied ==> events[i].at <= e.at)
    && (forall i :: e.applied <= i < |events| ==> e.at <= events[i].at)
    && (exists k :: e.drawn == d.hold(k, e.state))
  }

  /** The integral of factor times curve over the holding's wall interval is the holding time drawn on entry. */
  ghost predicate Conserved(p: Program, events: seq<Event>, entries: seq<Entry>, h: Holding)
    requires ValidCurve(p.behaviour.rate)
  {
    && h.entry < |entries| && entries[h.entry].at <= h.left
    && Integral(p.behaviour.rate, p.start, events, 1.0, entries[h.entry].at, h.left) == entries[h.entry].drawn
  }

  /** The wall time the completed holdings took. */
  ghost function Spent(entries: seq<Entry>, holdings: seq<Holding>): real {
    if holdings == [] then 0.0
    else
      var h := holdings[|holdings| - 1];
      Spent(entries, holdings[..|holdings| - 1]) + if h.entry < |entries| then h.left - entries[h.entry].at else 0.0
  }

  lemma SpentSnoc(entries: seq<Entry>, holdings: seq<Holding>, h: Holding)
    requires h.entry < |entries|
    ensures Spent(entries, holdings + [h]) == Spent(entries, holdings) + (h.left - entries[h.entry].at)
  {
    assert (holdings + [h])[..|holdings|] == holdings;
  }

  lemma {:induction false} SpentKept(entries: seq<Entry>, e: Entry, holdings: seq<Holding>)
    requires forall h :: h in holdings ==> h.entry < |entries|
    ensures Spent(entries + [e], holdings) == Spent(entries, holdings)
  {
    if holdings != [] {
      SpentKept(entries, e, holdings[..|holdings| - 1]);
    }
  }

  ghost predicate History(p: Program, d: Draws, epoch: real, events: seq<Event>, entries: seq<Entry>, holdings: seq<Holding>,
                          records: seq<Record>)
    requires ValidProgram(p) && ValidDraws(d)
  {
    && InRange(p, entries)
    && (forall e :: e in entries ==> EntryOk(events, d, e))
    && (forall i, j :: 0 <= i < j < |entries| ==> entries[i].at <= entries[j].at)
    && (forall h :: h in holdings ==> Conserved(p, events, entries, h))
    && records == Invoked(p, d, epoch, entries)
  }

  /** The ``i``-th record is number ``i + 1`` and was made at some entry. */
  ghost predicate RecordOk(epoch: real, entries: seq<Entry>, records: seq<Record>, i: nat)
    requires i < |records|
  {
    records[i].n == i + 1 && records[i].start == records[i].end && exists e :: e in entries && records[i].start == epoch + e.at
  }

  lemma {:induction false} RecordsNumbered(p: Program, d: Draws, epoch: real, entries: seq<Entry>)
    requires ValidDraws(d) && InRange(p, entries)
    ensures |Invoked(p, d, epoch, entries)| <= |entries|
    ensures forall i :: 0 <= i < |Invoked(p, d, epoch, entries)| ==> RecordOk(epoch, entries, Invoked(p, d, epoch, entries), i)
  {
    if entries != [] {
      var before, last := entries[..|entries| - 1], entries[|entries| - 1];
      RecordsNumbered(p, d, epoch, before);
      var was, now := Invoked(p, d, epoch, before), Invoked(p, d, epoch, entries);
      assert last in entries;
      forall i | 0 <= i < |now|
        ensures RecordOk(epoch, entries, now, i)
      {
        if i < |was| {
          assert RecordOk(epoch, before, was, i);
          assert now[i] == was[i];
          assert forall e :: e in before ==> e in entries;
        }
      }
    }
  }

  /** What the loop's variables say about the events applied so far. */
  ghost predicate Applied(events: seq<Event>, applied: nat, pending: seq<Event>, t: real, factor: real, active: bool, starts: nat) {
    && InTime(events) && applied <= |events| && pending == events[applied..]
    && (forall i :: 0 <= i < applied ==> events[i].at <= t)
    && factor == Factor(1.0, events[..applied])
    && active == Started(events[..applied])
    && starts == EffectiveStarts(events[..applied])
  }

  lemma ApplyOne(events: seq<Event>, applied: nat, pending: seq<Event>, t: real, factor: real, active: bool, starts: nat)
    requires Applied(events, applied, pending, t, factor, active, starts) && pending != [] && pending[0].at <= t
    ensures Applied(events, applied + 1, pending[1..], t, FactorAfter(factor, pending[0]),
                    pending[0].op.Start? || (!pending[0].op.Stop? && active),
                    starts + if pending[0].op.Start? && !active then 1 else 0)
  {
    assert events[..applied + 1][..applied] == events[..applied];
    assert events[..applied + 1][applied] == pending[0];
  }

  /** The state being held: how much of its holding time has passed. */
  ghost predicate Held(p: Program, events: seq<Event>, entries: seq<Entry>, state: Option<nat>, left: real, t: real)
    requires ValidCurve(p.behaviour.rate)
  {
    state.Some? ==>
      && entries != []
      && entries[|entries| - 1].state == state.value
      && entries[|entries| - 1].at <= t && left >= 0.0
      && Integral(p.behaviour.rate, p.start, events, 1.0, entries[|entries| - 1].at, t) == entries[|entries| - 1].drawn - left
  }

  /** Holdings are disjoint in time, and every entry but the first after a start follows one. */
  ghost predicate Counted(entries: seq<Entry>, holdings: seq<Holding>, firsts: nat, starts: nat, active: bool,
        state: Option<nat>, t: real) {
    && (forall h :: h in holdings ==> h.entry < |entries|)
    && Spent(entries, holdings) <= (if state.Some? && entries != [] then entries[|entries| - 1].at else t)
    && |entries| == firsts + |holdings|
    && firsts + (if active && state.None? then 1 else 0) <= starts
  }

  /** Everything the loop keeps: the clock, the sink, its local variables, and the history they came from. */
  datatype State = State(
    t: real,
    n: nat,
    records: seq<Record>,
    drawn: nat,
    selected: nat,
    pending: seq<Event>,
    factor: real,
    active: bool,
    state: Option<nat>,
    left: real,
    applied: nat,
    starts: nat,
    firsts: nat,
    entries: seq<Entry>,
    holdings: seq<Holding>)

  datatype Setting = Setting(program: Program, draws: Draws, epoch: real, events: seq<Event>)

  ghost predicate Inv(r: Setting, s: State) {
    && ValidProgram(r.program) && ValidDraws(r.draws)
    && 0.0 <= s.t <= r.program.duration
    && Applied(r.events, s.applied, s.pending, s.t, s.factor, s.active, s.starts)
    && (!s.active ==> s.state.None?)
    && History(r.program, r.draws, r.epoch, r.events, s.entries, s.holdings, s.records)
    && s.n == |s.records| && s.selected == Selections(r.program, s.entries)
    && (forall e :: e in s.entries ==> e.at <= s.t)
    && Held(r.program, r.events, s.entries, s.state, s.left, s.t)
    && Counted(s.entries, s.holdings, s.firsts, s.starts, s.active, s.state, s.t)
  }

  /** The states satisfying the invariant, as one value. */
  ghost function Good(r: Setting): iset<State> {
    iset s | Inv(r, s)
  }

  // ----- the loop's steps, one by one, and that each keeps the invariant

  function ApplyEvent(s: State): State
    requires s.pending != []
  {
    var e := s.pending[0];
    var s1 := s.(pending := s.pending[1..], applied := s.applied + 1);
    match e.op
    case Start => if s.active then s1 else s1.(active := true, state := None, starts := s.starts + 1)
    case Stop => s1.(active := false, state := None)
    case SetRate(f) => s1.(factor := f)
    case RunSequence => s1
  }

  lemma ApplyEventKeeps(r: Setting, s: State)
    requires s in Good(r) && s.pending != [] && s.pending[0].at <= s.t
    ensures ApplyEvent(s) in Good(r)
  {
    hide History, ValidProgram, ValidDraws, Spent, Factor, Started, EffectiveStarts;
    ApplyOne(r.events, s.applied, s.pending, s.t, s.factor, s.active, s.starts);
  }

  /** Sleep until the next event or the end. */
  lemma IdleKeeps(r: Setting, s: State, wall: real)
    requires s in Good(r) && !s.active && 0.0 <= wall <= r.program.duration - s.t
    ensures s.(t := s.t + wall) in Good(r)
  {
  }

  /** The record of entering ``state`` now, if it acts, as ``_invoke`` makes it. */
  function Invoke(r: Setting, s: State, state: nat): State
    requires state < |r.program.behaviour.states| && forall k, n :: n > 0 ==> r.draws.peer(k, n) < n
  {
    match Acts(r.program, state)
    case None => s
    case Some(a) =>
      var peers := PeersOn(r.program, a.tie);
      var targets := if a.one then [peers[r.draws.peer(s.selected, |peers|)]] else peers;
      var n := s.n + 1;
      var now := r.epoch + s.t;
      s.(n := n, selected := s.selected + (if a.one then 1 else 0),
         records := s.records + [Record(n, r.program.behaviour.states[state], targets, now, now, r.draws.runs(n))])
  }

  /** ``state = _draw(weights); left = _enter(state)``. */
  function Enter(r: Setting, s: State, weights: seq<real>): State
    requires weights != [] && |weights| == |r.program.behaviour.states|
    requires ValidDraws(r.draws)
  {
    var state := r.draws.choose(s.drawn, weights);
    var s1 := Invoke(r, s, state);
    var left := r.draws.hold(s.drawn + 1, state);
    s1.(state := Some(state), left := left, drawn := s.drawn + 2, entries := s.entries + [Entry(state, s.t, left, s.applied)])
  }

  /** An invocation neither looks at nor changes how much the behaviour's stream has drawn, the time or the history. */
  lemma InvokeBeside(r: Setting, s: State, state: nat, drawn: nat)
    requires state < |r.program.behaviour.states| && forall k, n :: n > 0 ==> r.draws.peer(k, n) < n
    ensures Invoke(r, s.(drawn := drawn), state) == Invoke(r, s, state).(drawn := drawn)
    ensures Invoke(r, s, state).t == s.t && Invoke(r, s, state).entries == s.entries && Invoke(r, s, state).applied == s.applied
  {
  }

  lemma InvokeRecords(r: Setting, s: State, e: Entry)
    requires ValidDraws(r.draws) && InRange(r.program, s.entries) && e.state < |r.program.behaviour.states| && e.at == s.t
    requires s.records == Invoked(r.program, r.draws, r.epoch, s.entries) && s.n == |s.records|
    requires s.selected == Selections(r.program, s.entries)
    ensures InRange(r.program, s.entries + [e])
    ensures Invoke(r, s, e.state).records == Invoked(r.program, r.draws, r.epoch, s.entries + [e])
    ensures Invoke(r, s, e.state).selected == Selections(r.program, s.entries + [e])
    ensures Invoke(r, s, e.state).n == |Invoke(r, s, e.state).records|
  {
    var entries := s.entries + [e];
    assert entries[..|entries| - 1] == s.entries && entries[|entries| - 1] == e;
    match Acts(r.program, e.state) {
      case None =>
      case Some(a) =>
    }
  }

  lemma ConservedKept(p: Program, events: seq<Event>, entries: seq<Entry>, e: Entry, holdings: seq<Holding>)
    requires ValidCurve(p.behaviour.rate) && forall h :: h in holdings ==> Conserved(p, events, entries, h)
    ensures forall h :: h in holdings ==> Conserved(p, events, entries + [e], h)
  {
    forall h | h in holdings
      ensures Conserved(p, events, entries + [e], h)
    {
      assert (entries + [e])[h.entry] == entries[h.entry];
    }
  }

  /** Just before a state is entered: nothing is being held, and the count has room for one more entry. */
  ghost predicate Ready(r: Setting, s: State) {
    && ValidProgram(r.program) && ValidDraws(r.draws)
    && 0.0 <= s.t <= r.program.duration && s.active
    && Applied(r.events, s.applied, s.pending, s.t, s.factor, s.active, s.starts)
    && (forall i :: s.applied <= i < |r.events| ==> s.t <= r.events[i].at)
    && History(r.program, r.draws, r.epoch, r.events, s.entries, s.holdings, s.records)
    && s.n == |s.records| && s.selected == Selections(r.program, s.entries)
    && (forall e :: e in s.entries ==> e.at <= s.t)
    && (forall h :: h in s.holdings ==> h.entry < |s.entries|)
    && Spent(s.entries, s.holdings) <= s.t
    && |s.entries| + 1 == s.firsts + |s.holdings| && s.firsts <= s.starts
  }

  lemma HistoryGrows(r: Setting, s: State, e: Entry)
    requires Ready(r, s) && e.state < |r.program.behaviour.states| && EntryOk(r.events, r.draws, e) && e.at == s.t
    ensures History(r.program, r.draws, r.epoch, r.events, s.entries + [e], s.holdings, Invoke(r, s, e.state).records)
  {
    InvokeRecords(r, s, e);
    ConservedKept(r.program, r.events, s.entries, e, s.holdings);
    assert forall x :: x in s.entries + [e] ==> x in s.entries || x == e;
  }

  lemma EnteredHeld(p: Program, events: seq<Event>, entries: seq<Entry>, e: Entry)
    requires ValidCurve(p.behaviour.rate) && e.drawn >= 0.0
    ensures Held(p, events, entries + [e], Some(e.state), e.drawn, e.at)
  {
    IntegralOfNothing(p.behaviour.rate, p.start, events, 1.0, e.at);
    assert (entries + [e])[|entries|] == e;
  }

  lemma EnteredCounted(r: Setting, s: State, e: Entry)
    requires Ready(r, s) && e.at == s.t
    ensures Counted(s.entries + [e], s.holdings, s.firsts, s.starts, s.active, Some(e.state), s.t)
  {
    SpentKept(s.entries, e, s.holdings);
    assert (s.entries + [e])[|s.entries|] == e;
  }

  function NextEntry(r: Setting, s: State, weights: seq<real>): Entry {
    var state := r.draws.choose(s.drawn, weights);
    Entry(state, s.t, r.draws.hold(s.drawn + 1, state), s.applied)
  }

  lemma EnterFields(r: Setting, s: State, weights: seq<real>, e: Entry, i: State, s': State)
    requires weights != [] && |weights| == |r.program.behaviour.states| && ValidDraws(r.draws)
    requires e == NextEntry(r, s, weights) && i == Invoke(r, s, e.state) && s' == Enter(r, s, weights)
    ensures s'.entries == s.entries + [e] && s'.state == Some(e.state) && s'.left == e.drawn && s'.drawn == s.drawn + 2
    ensures s'.records == i.records && s'.n == i.n && s'.selected == i.selected
    ensures s'.t == s.t && s'.pending == s.pending && s'.factor == s.factor && s'.active == s.active
    ensures s'.applied == s.applied && s'.starts == s.starts && s'.firsts == s.firsts && s'.holdings == s.holdings
  {
  }

  lemma EntryIsOk(r: Setting, s: State, weights: seq<real>)
    requires Ready(r, s) && |weights| == |r.program.behaviour.states|
    ensures EntryOk(r.events, r.draws, NextEntry(r, s, weights))
    ensures NextEntry(r, s, weights).state < |weights| && NextEntry(r, s, weights).drawn >= 0.0
  {
  }

  lemma EnterKeeps(r: Setting, s: State, weights: seq<real>)
    requires Ready(r, s) && |weights| == |r.program.behaviour.states|
    ensures Enter(r, s, weights) in Good(r)
  {
    var e, s' := NextEntry(r, s, weights), Enter(r, s, weights);
    EntryIsOk(r, s, weights);
    var i := Invoke(r, s, e.state);
    EnterFields(r, s, weights, e, i, s');
    HistoryGrows(r, s, e);
    InvokeRecords(r, s, e);
    EnteredHeld(r.program, r.events, s.entries, e);
    EnteredCounted(r, s, e);
    EnteredInv(r, s, e, i, s');
  }

  lemma EnteredInv(r: Setting, s: State, e: Entry, i: State, s': State)
    requires Ready(r, s) && e.at == s.t
    requires s'.entries == s.entries + [e] && s'.state == Some(e.state) && s'.left == e.drawn
    requires s'.records == i.records && s'.n == i.n && s'.selected == i.selected
    requires s'.t == s.t && s'.pending == s.pending && s'.factor == s.factor && s'.active == s.active
    requires s'.applied == s.applied && s'.starts == s.starts && s'.firsts == s.firsts && s'.holdings == s.holdings
    requires History(r.program, r.draws, r.epoch, r.events, s'.entries, s'.holdings, s'.records)
    requires s'.n == |s'.records| && s'.selected == Selections(r.program, s'.entries)
    requires Held(r.program, r.events, s'.entries, s'.state, s'.left, s'.t)
    requires Counted(s'.entries, s'.holdings, s'.firsts, s'.starts, s'.active, s'.state, s'.t)
    ensures s' in Good(r)
  {
    hide History, Counted, Held, Selections;
    assert forall x :: x in s'.entries ==> x in s.entries || x == e;
  }

  /** The first state after a start. */
  lemma FirstIsReady(r: Setting, s: State)
    requires s in Good(r) && s.active && s.state.None?
    requires forall i :: s.applied <= i < |r.events| ==> s.t <= r.events[i].at
    ensures Ready(r, s.(firsts := s.firsts + 1))
  {
  }

  /** Part of a holding, as far as the next event or the end allows. */
  ghost predicate Advances(r: Setting, s: State, wall: real, done: real)
    requires ValidCurve(r.program.behaviour.rate)
  {
    && s.state.Some?
    && (forall i :: s.applied <= i < |r.events| ==> s.t + wall <= r.events[i].at)
    && 0.0 <= wall <= r.program.duration - s.t
    && done <= s.left
    && done == Work(r.program.behaviour.rate, s.factor, r.program.start + s.t, r.program.start + s.t + wall)
  }

  lemma HeldOn(r: Setting, s: State, wall: real, done: real)
    requires ValidCurve(r.program.behaviour.rate) && Advances(r, s, wall, done)
    requires Applied(r.events, s.applied, s.pending, s.t, s.factor, s.active, s.starts)
    requires Held(r.program, r.events, s.entries, s.state, s.left, s.t)
    ensures Held(r.program, r.events, s.entries, s.state, s.left - done, s.t + wall)
  {
    UntilNext(r.program.behaviour.rate, r.program.start, r.events, s.applied, s.t, s.t + wall);
    assert r.program.start + (s.t + wall) == r.program.start + s.t + wall;
    IntegralAdds(r.program.behaviour.rate, r.program.start, r.events, 1.0, s.entries[|s.entries| - 1].at, s.t, s.t + wall);
  }

  lemma HoldKeeps(r: Setting, s: State, wall: real, done: real)
    requires s in Good(r) && Advances(r, s, wall, done)
    ensures s.(t := s.t + wall, left := s.left - done) in Good(r)
  {
    hide History, ValidDraws, Spent, Factor, Started, EffectiveStarts;
    HeldOn(r, s, wall, done);
  }

  /** A holding that has run out is logged; the next entry follows it at once. */
  function Complete(s: State): State
    requires s.entries != []
  {
    s.(holdings := s.holdings + [Holding(|s.entries| - 1, s.t)])
  }

  lemma HistoryCompletes(p: Program, d: Draws, epoch: real, events: seq<Event>, entries: seq<Entry>, holdings: seq<Holding>,
                         records: seq<Record>, h: Holding)
    requires ValidProgram(p) && ValidDraws(d) && History(p, d, epoch, events, entries, holdings, records)
    requires Conserved(p, events, entries, h)
    ensures History(p, d, epoch, events, entries, holdings + [h], records)
  {
    assert forall x :: x in holdings + [h] ==> x in holdings || x == h;
  }

  lemma LastIsConserved(r: Setting, s: State)
    requires s in Good(r) && s.state.Some? && s.left == 0.0
    ensures s.entries != [] && Conserved(r.program, r.events, s.entries, Holding(|s.entries| - 1, s.t))
  {
  }

  lemma CompleteIsReady(r: Setting, s: State)
    requires s in Good(r) && s.state.Some? && s.left == 0.0
    requires forall i :: s.applied <= i < |r.events| ==> s.t <= r.events[i].at
    ensures s.entries != [] && Ready(r, Complete(s))
  {
    LastIsConserved(r, s);
    var h := Holding(|s.entries| - 1, s.t);
    HistoryCompletes(r.program, r.draws, r.epoch, r.events, s.entries, s.holdings, s.records, h);
    SpentSnoc(s.entries, s.holdings, h);
    CompleteCounted(s, h);
  }

  lemma CompleteCounted(s: State, h: Holding)
    requires s.entries != [] && h.entry == |s.entries| - 1 && h.left == s.t
    requires Counted(s.entries, s.holdings, s.firsts, s.starts, s.active, s.state, s.t) && s.state.Some?
    ensures Spent(s.entries, s.holdings + [h]) <= s.t
    ensures forall x :: x in s.holdings + [h] ==> x.entry < |s.entries|
    ensures |s.entries| + 1 == s.firsts + |s.holdings + [h]|
  {
    SpentSnoc(s.entries, s.holdings, h);
    assert forall x :: x in s.holdings + [h] ==> x in s.holdings || x == h;
  }

  // ----- how many iterations a run can take

  /** The next moment the loop must wake at. */
  function Horizon(r: Setting, s: State): real {
    if s.pending != [] then Min(r.program.duration, s.pending[0].at) else r.program.duration
  }

  /** Holding times of at least ``least`` and speeds of at most ``limit``. */
  ghost predicate Paced(r: Setting, least: real, limit: real)
    requires ValidCurve(r.program.behaviour.rate)
  {
    && least > 0.0 && limit >= 0.0
    && (forall k, s :: r.draws.hold(k, s) >= least)
    && SpeedLimit(r.program.behaviour.rate, 1.0, r.events, limit)
  }

  /** The most holdings a run has time for. */
  function MostHoldings(duration: real, least: real, limit: real): int
    requires least > 0.0
  {
    (limit * duration / least).Floor
  }

  /** A holding lasts at least as long as its least time takes at the limit. */
  ghost predicate TakesTime(entries: seq<Entry>, h: Holding, least: real, limit: real) {
    h.entry < |entries| && least <= limit * (h.left - entries[h.entry].at)
  }

  lemma HoldingTakesTime(r: Setting, entries: seq<Entry>, h: Holding, least: real, limit: real)
    requires ValidCurve(r.program.behaviour.rate) && Paced(r, least, limit) && InTime(r.events)
    requires Conserved(r.program, r.events, entries, h) && EntryOk(r.events, r.draws, entries[h.entry])
    ensures TakesTime(entries, h, least, limit)
  {
    IntegralWithin(r.program.behaviour.rate, r.program.start, r.events, 1.0, entries[h.entry].at, h.left, limit);
  }

  /** ``n`` times ``least``, by addition. */
  ghost function Repeat(least: real, n: nat): real {
    if n == 0 then 0.0 else Repeat(least, n - 1) + least
  }

  lemma OneMore(x: real, least: real)
    ensures (x + 1.0) * least == x * least + least
  {
  }

  lemma {:induction false} RepeatIsProduct(least: real, n: nat)
    ensures Repeat(least, n) == n as real * least
  {
    if n > 0 {
      RepeatIsProduct(least, n - 1);
      OneMore((n - 1) as real, least);
      assert n as real == (n - 1) as real + 1.0;
    }
  }

  lemma {:induction false} HoldingsTakeTime(r: Setting, entries: seq<Entry>, holdings: seq<Holding>, least: real, limit: real)
    requires forall h :: h in holdings ==> TakesTime(entries, h, least, limit)
    ensures Repeat(least, |holdings|) <= limit * Spent(entries, holdings)
  {
    if holdings != [] {
      var before, h := holdings[..|holdings| - 1], holdings[|holdings| - 1];
      assert h in holdings;
      HoldingsTakeTime(r, entries, before, least, limit);
      Distribute(limit, Spent(entries, before), h.left - entries[h.entry].at);
    }
  }

  lemma Quotients(least: real, limit: real, n: nat, spent: real, duration: real)
    requires least > 0.0 && limit >= 0.0 && Repeat(least, n) <= limit * spent && spent <= duration
    ensures n <= MostHoldings(duration, least, limit)
  {
    Larger(limit, spent, duration);
    RepeatIsProduct(least, n);
    AtMostQuotient(n as real, least, limit * duration);
    AtMostFloor(n, limit * duration / least);
  }

  lemma AtMostFloor(n: int, q: real)
    requires n as real <= q
    ensures n <= q.Floor
  {
    assert q - 1.0 < q.Floor as real;
  }

  lemma AtMostQuotient(n: real, least: real, total: real)
    requires least > 0.0 && n * least <= total
    ensures n <= total / least
  {
    var q := total / least;
    assert q * least == total;
    if q < n {
      Scale(least, q, n);
    }
  }

  lemma Larger(limit: real, x: real, y: real)
    requires limit >= 0.0 && x <= y
    ensures limit * x <= limit * y
  {
  }

  lemma AllTakeTime(r: Setting, s: State, least: real, limit: real)
    requires s in Good(r) && Paced(r, least, limit)
    ensures forall h :: h in s.holdings ==> TakesTime(s.entries, h, least, limit)
  {
    forall h | h in s.holdings
      ensures TakesTime(s.entries, h, least, limit)
    {
      assert Conserved(r.program, r.events, s.entries, h);
      assert s.entries[h.entry] in s.entries;
      HoldingTakesTime(r, s.entries, h, least, limit);
    }
  }

  lemma SpentFits(r: Setting, s: State)
    requires s in Good(r)
    ensures Spent(s.entries, s.holdings) <= r.program.duration
  {
    assert s.state.Some? ==> s.entries[|s.entries| - 1] in s.entries;
  }

  /** The completed holdings of any moment of a run fit in its duration. */
  lemma HoldingsFit(r: Setting, s: State, least: real, limit: real)
    requires s in Good(r) && Paced(r, least, limit)
    ensures |s.holdings| <= MostHoldings(r.program.duration, least, limit)
  {
    AllTakeTime(r, s, least, limit);
    SpentFits(r, s);
    TimesFit(r, s.entries, s.holdings, least, limit);
  }

  lemma TimesFit(r: Setting, entries: seq<Entry>, holdings: seq<Holding>, least: real, limit: real)
    requires least > 0.0 && limit >= 0.0
    requires forall h :: h in holdings ==> TakesTime(entries, h, least, limit)
    requires Spent(entries, holdings) <= r.program.duration
    ensures |holdings| <= MostHoldings(r.program.duration, least, limit)
  {
    HoldingsTakeTime(r, entries, holdings, least, limit);
    Quotients(least, limit, |holdings|, Spent(entries, holdings), r.program.duration);
  }

  /** How many iterations are left at most. */
  ghost function Iterations(r: Setting, s: State, least: real, limit: real): int
    requires least > 0.0
  {
    3 * |s.pending| + (MostHoldings(r.program.duration, least, limit) - |s.holdings|)
    + (if s.t < Horizon(r, s) then 1 else 0) + (if s.active && s.state.None? then 1 else 0)
  }

  // ----- one iteration of the loop, as a function of what advance returned

  /** Apply every event whose time has come. */
  function ApplyDue(s: State): (s': State)
    ensures s'.pending == [] || s'.pending[0].at > s'.t
    decreases |s.pending|
  {
    if s.pending != [] && s.pending[0].at <= s.t then ApplyDue(ApplyEvent(s)) else s
  }

  lemma {:induction false} ApplyDueFields(s: State)
    ensures ApplyDue(s).t == s.t && ApplyDue(s).entries == s.entries && ApplyDue(s).holdings == s.holdings
    ensures |ApplyDue(s).pending| <= |s.pending|
    ensures |ApplyDue(s).pending| == |s.pending| ==> ApplyDue(s) == s
    decreases |s.pending|
  {
    if s.pending != [] && s.pending[0].at <= s.t {
      ApplyDueFields(ApplyEvent(s));
    }
  }

  lemma {:induction false} ApplyDueKeepsAny(inv: State -> bool, s: State)
    requires inv(s) && forall x: State :: inv(x) && x.pending != [] && x.pending[0].at <= x.t ==> inv(ApplyEvent(x))
    ensures inv(ApplyDue(s))
    decreases |s.pending|
  {
    if s.pending != [] && s.pending[0].at <= s.t {
      ApplyDueKeepsAny(inv, ApplyEvent(s));
    }
  }

  lemma ApplyDueKeeps(r: Setting, s: State)
    requires s in Good(r)
    ensures ApplyDue(s) in Good(r)
  {
    forall x: State | x in Good(r) && x.pending != [] && x.pending[0].at <= x.t
      ensures ApplyEvent(x) in Good(r)
    {
      ApplyEventKeeps(r, x);
    }
    ApplyDueKeepsAny(x => x in Good(r), s);
  }

  /** After the due events, those to come are later than now, and none is before the horizon. */
  lemma HorizonIsNext(r: Setting, s: State)
    requires s in Good(r) && Settled(s) && s.t < r.program.duration
    ensures s.t < Horizon(r, s) <= r.program.duration
    ensures forall i :: s.applied <= i < |r.events| ==> Horizon(r, s) <= r.events[i].at
  {
    if s.pending != [] {
      assert s.pending[0] == r.events[s.applied];
    }
  }

  function Initial(r: Setting): State {
    State(0.0, 0, [], 0, 0, r.events, 1.0, false, None, 0.0, 0, 0, 0, [], [])
  }

  lemma InitialInv(r: Setting)
    requires ValidProgram(r.program) && ValidDraws(r.draws) && InTime(r.events)
    ensures Initial(r) in Good(r)
  {
    assert r.events[0..] == r.events;
  }

  /** What ``advance`` may answer for the state being held. */
  ghost predicate MayAdvance(r: Setting, s: State, wall: real, done: real)
    requires ValidCurve(r.program.behaviour.rate)
  {
    Advanced(s.left, s.t, Horizon(r, s) - s.t, r.program.start, r.program.behaviour.rate, s.factor, wall, done)
  }

  function HeldFor(s: State, wall: real, done: real): State {
    s.(t := s.t + wall, left := s.left - done)
  }

  /** If the holding ran out, enter the next state. */
  function NextIfOver(r: Setting, s: State): State
    requires ValidProgram(r.program) && ValidDraws(r.draws) && IsHeld(r, s)
  {
    if s.left <= 0.0 then Enter(r, Complete(s), r.program.behaviour.transitions[s.state.value]) else s
  }

  /** Hold on for ``wall``, in which ``done`` operational seconds pass. */
  function HoldOn(r: Setting, s: State, wall: real, done: real): State
    requires ValidProgram(r.program) && ValidDraws(r.draws) && IsHeld(r, s)
  {
    NextIfOver(r, HeldFor(s, wall, done))
  }

  /** One pass through the loop: apply the due events, then idle, enter a first state or hold on. */
  ghost predicate Iterated(r: Setting, s: State, s': State) {
    ValidProgram(r.program) && ValidDraws(r.draws) && Passed(r, ApplyDue(s), s')
  }

  ghost predicate Passed(r: Setting, s: State, s': State)
    requires ValidProgram(r.program) && ValidDraws(r.draws)
  {
    if s.t >= r.program.duration then s' == s
    else if !s.active then s' == s.(t := Horizon(r, s))
    else if s.state.None? then s' == Enter(r, s.(firsts := s.firsts + 1), r.program.behaviour.initial)
    else IsHeld(r, s) && exists wall, done :: MayAdvance(r, s, wall, done) && s' == HoldOn(r, s, wall, done)
  }

  /** What a state being held says about itself, without its history. */
  ghost predicate HoldingNow(r: Setting, s: State) {
    && ValidProgram(r.program)
    && s.state.Some? && s.entries != [] && s.left >= 0.0
    && Applied(r.events, s.applied, s.pending, s.t, s.factor, s.active, s.starts)
    && s.t < Horizon(r, s) <= r.program.duration
    && (forall i :: s.applied <= i < |r.events| ==> Horizon(r, s) <= r.events[i].at)
  }

  lemma IsHolding(r: Setting, s: State)
    requires s in Good(r) && s.state.Some? && Settled(s) && s.t < r.program.duration
    ensures HoldingNow(r, s) && IsHeld(r, s)
  {
    HorizonIsNext(r, s);
    assert s.entries[|s.entries| - 1] in s.entries;
  }

  lemma AdvanceFits(r: Setting, s: State, wall: real, done: real)
    requires HoldingNow(r, s) && MayAdvance(r, s, wall, done)
    ensures Advances(r, s, wall, done)
    ensures s.left - done <= 0.0 ==> s.left - done == 0.0
    ensures s.left - done > 0.0 ==> s.t + wall == Horizon(r, s)
  {
    assert r.program.start + s.t + 0.0 == r.program.start + s.t;
  }

  lemma HoldOnKeeps(r: Setting, s: State, wall: real, done: real)
    requires s in Good(r) && Awake(r, s) && ValidProgram(r.program) && ValidDraws(r.draws)
    requires IsHeld(r, s) && MayAdvance(r, s, wall, done)
    ensures HoldOn(r, s, wall, done) in Good(r)
  {
    HeldPart(r, s, wall, done);
    Next(r, HeldFor(s, wall, done));
  }

  lemma HeldPart(r: Setting, s: State, wall: real, done: real)
    requires s in Good(r) && Awake(r, s) && IsHeld(r, s) && ValidCurve(r.program.behaviour.rate) && MayAdvance(r, s, wall, done)
    ensures HeldFor(s, wall, done) in Good(r) && Timely(r, HeldFor(s, wall, done))
    ensures HeldFor(s, wall, done).left <= 0.0 ==> HeldFor(s, wall, done).left == 0.0
  {
    hide Inv, Horizon;
    IsHolding(r, s);
    AdvanceFits(r, s, wall, done);
    HoldKeeps(r, s, wall, done);
  }

  /** No event to come is already past. */
  ghost predicate Timely(r: Setting, s: State) {
    forall i :: s.applied <= i < |r.events| ==> s.t <= r.events[i].at
  }

  lemma Next(r: Setting, s: State)
    requires s in Good(r) && Timely(r, s) && IsHeld(r, s) && ValidProgram(r.program) && ValidDraws(r.draws)
    requires s.left <= 0.0 ==> s.left == 0.0
    ensures NextIfOver(r, s) in Good(r)
  {
    if s.left <= 0.0 {
      RanOutKeeps(r, s);
    }
  }

  lemma RanOutKeeps(r: Setting, s: State)
    requires s in Good(r) && s.left == 0.0 && IsHeld(r, s) && ValidProgram(r.program) && ValidDraws(r.draws)
    requires forall i :: s.applied <= i < |r.events| ==> s.t <= r.events[i].at
    ensures Enter(r, Complete(s), r.program.behaviour.transitions[s.state.value]) in Good(r)
  {
    CompleteIsReady(r, s);
    EnterKeeps(r, Complete(s), r.program.behaviour.transitions[s.state.value]);
  }

  /** The invariant, as a value the steps below are checked against one by one. */
  ghost predicate StepsKeep(r: Setting, inv: State -> bool)
    requires ValidProgram(r.program) && ValidDraws(r.draws)
  {
    && (forall s: State :: inv(s) && s.pending != [] && s.pending[0].at <= s.t ==> inv(ApplyEvent(s)))
    && (forall s: State :: inv(s) && Awake(r, s) && !s.active ==> inv(s.(t := Horizon(r, s))))
    && (forall s: State :: inv(s) && Awake(r, s) && s.active && s.state.None? ==>
         inv(Enter(r, s.(firsts := s.firsts + 1), r.program.behaviour.initial)))
    && (forall s: State, wall, done :: inv(s) && Awake(r, s) && IsHeld(r, s) && MayAdvance(r, s, wall, done) ==>
         inv(HoldOn(r, s, wall, done)))
  }

  predicate Settled(s: State) {
    s.pending == [] || s.pending[0].at > s.t
  }

  predicate Awake(r: Setting, s: State) {
    Settled(s) && s.t < r.program.duration
  }

  predicate IsHeld(r: Setting, s: State) {
    s.active && s.state.Some? && s.entries != [] && s.state.value < |r.program.behaviour.states|
  }

  lemma InvIsKept(r: Setting)
    requires ValidProgram(r.program) && ValidDraws(r.draws)
    ensures StepsKeep(r, s => s in Good(r))
  {
    hide Good, Horizon, MayAdvance, Awake, IsHeld, ApplyEvent, HoldOn, Enter;
    forall s: State | s in Good(r) && s.pending != [] && s.pending[0].at <= s.t
      ensures ApplyEvent(s) in Good(r)
    {
      ApplyEventKeeps(r, s);
    }
    forall s: State | s in Good(r) && Awake(r, s) && !s.active
      ensures s.(t := Horizon(r, s)) in Good(r)
    {
      SleepKeeps(r, s);
    }
    forall s: State | s in Good(r) && Awake(r, s) && s.active && s.state.None?
      ensures Enter(r, s.(firsts := s.firsts + 1), r.program.behaviour.initial) in Good(r)
    {
      FirstKeeps(r, s);
    }
    forall s: State, wall, done | s in Good(r) && Awake(r, s) && IsHeld(r, s) && MayAdvance(r, s, wall, done)
      ensures HoldOn(r, s, wall, done) in Good(r)
    {
      HoldOnKeeps(r, s, wall, done);
    }
  }

  /** Holding number ``j`` is entry ``j``'s and ends where the next state is entered. */
  ghost predicate EndsAtNext(entries: seq<Entry>, h: Holding, j: nat) {
    h.entry == j && j + 1 < |entries| && h.left == entries[j + 1].at
  }

  ghost predicate Linked(entries: seq<Entry>, holdings: seq<Holding>) {
    forall j :: 0 <= j < |holdings| ==> EndsAtNext(entries, holdings[j], j)
  }

  /** In a run that enters no second first state each holding ends where the next state is entered. */
  ghost predicate Chained(s: State) {
    s.firsts <= 1 ==> Linked(s.entries, s.holdings)
  }

  ghost predicate GoodAndChained(r: Setting, s: State) {
    s in Good(r) && Chained(s)
  }

  /** Before a first state there is no holding. */
  lemma NoneHeldYet(s: State)
    requires Chained(s) && |s.entries| == s.firsts + |s.holdings|
    ensures s.firsts == 0 ==> s.holdings == [] && s.entries == []
  {
    var n := |s.holdings|;
    assert s.firsts <= 1 && n > 0 ==> EndsAtNext(s.entries, s.holdings[n - 1], n - 1);
  }

  lemma EnteredChained(s: State, s': State, e: Entry)
    requires Chained(s) && |s.entries| == s.firsts + |s.holdings| && s'.entries == s.entries + [e]
    requires || (s'.holdings == s.holdings && s'.firsts == s.firsts + 1)
             || (s.entries != [] && s'.holdings == s.holdings + [Holding(|s.entries| - 1, e.at)] && s'.firsts == s.firsts)
    ensures Chained(s')
  {
    NoneHeldYet(s);
    if s'.firsts <= 1 {
      forall j | 0 <= j < |s'.holdings|
        ensures EndsAtNext(s'.entries, s'.holdings[j], j)
      {
        assert j < |s.holdings| ==> EndsAtNext(s.entries, s.holdings[j], j);
      }
    }
  }

  lemma ChainedIsKept(r: Setting)
    requires ValidProgram(r.program) && ValidDraws(r.draws)
    ensures StepsKeep(r, s => GoodAndChained(r, s))
  {
    hide GoodAndChained, Horizon, MayAdvance, Awake, IsHeld, ApplyEvent, HoldOn, Enter;
    forall s: State | GoodAndChained(r, s) && s.pending != [] && s.pending[0].at <= s.t
      ensures GoodAndChained(r, ApplyEvent(s))
    {
      EventChained(r, s);
    }
    forall s: State | GoodAndChained(r, s) && Awake(r, s) && !s.active
      ensures GoodAndChained(r, s.(t := Horizon(r, s)))
    {
      SleepChained(r, s);
    }
    forall s: State | GoodAndChained(r, s) && Awake(r, s) && s.active && s.state.None?
      ensures GoodAndChained(r, Enter(r, s.(firsts := s.firsts + 1), r.program.behaviour.initial))
    {
      FirstChained(r, s);
    }
    forall s: State, wall, done | GoodAndChained(r, s) && Awake(r, s) && IsHeld(r, s) && MayAdvance(r, s, wall, done)
      ensures GoodAndChained(r, HoldOn(r, s, wall, done))
    {
      HoldChained(r, s, wall, done);
    }
  }

  lemma EventChained(r: Setting, s: State)
    requires GoodAndChained(r, s) && s.pending != [] && s.pending[0].at <= s.t
    ensures GoodAndChained(r, ApplyEvent(s))
  {
    hide Good, Chained, ApplyEvent;
    ApplyEventKeeps(r, s);
    EventFields(s);
    SameChain(s, ApplyEvent(s));
  }

  lemma EventFields(s: State)
    requires s.pending != []
    ensures ApplyEvent(s).holdings == s.holdings && ApplyEvent(s).entries == s.entries && ApplyEvent(s).firsts == s.firsts
  {
  }

  lemma SameChain(s: State, s': State)
    requires Chained(s) && s'.holdings == s.holdings && s'.entries == s.entries && s'.firsts == s.firsts
    ensures Chained(s')
  {
  }

  lemma SleepChained(r: Setting, s: State)
    requires GoodAndChained(r, s) && Awake(r, s) && !s.active
    ensures GoodAndChained(r, s.(t := Horizon(r, s)))
  {
    SleepKeeps(r, s);
    hide Good;
    SameChain(s, s.(t := Horizon(r, s)));
  }

  lemma CountsOf(r: Setting, s: State)
    requires s in Good(r)
    ensures |s.entries| == s.firsts + |s.holdings|
  {
  }

  lemma FirstChained(r: Setting, s: State)
    requires GoodAndChained(r, s) && Awake(r, s) && s.active && s.state.None? && ValidProgram(r.program) && ValidDraws(r.draws)
    ensures GoodAndChained(r, Enter(r, s.(firsts := s.firsts + 1), r.program.behaviour.initial))
  {
    hide Good, Chained, Enter, Invoke;
    CountsOf(r, s);
    FirstKeeps(r, s);
    var s0, weights := s.(firsts := s.firsts + 1), r.program.behaviour.initial;
    var e := NextEntry(r, s0, weights);
    EnterFields(r, s0, weights, e, Invoke(r, s0, e.state), Enter(r, s0, weights));
    EnteredChained(s, Enter(r, s0, weights), e);
  }

  lemma HoldChained(r: Setting, s: State, wall: real, done: real)
    requires GoodAndChained(r, s) && Awake(r, s) && IsHeld(r, s) && MayAdvance(r, s, wall, done)
    requires ValidProgram(r.program) && ValidDraws(r.draws)
    ensures GoodAndChained(r, HoldOn(r, s, wall, done))
  {
    hide Good, Enter, Invoke, MayAdvance;
    CountsOf(r, s);
    HoldOnKeeps(r, s, wall, done);
    var held := HeldFor(s, wall, done);
    if held.left > 0.0 {
      SameChain(s, held);
    } else {
      var s0, weights := Complete(held), r.program.behaviour.transitions[s.state.value];
      var e := NextEntry(r, s0, weights);
      EnterFields(r, s0, weights, e, Invoke(r, s0, e.state), Enter(r, s0, weights));
      EnteredChained(s, Enter(r, s0, weights), e);
    }
  }

  lemma SleepKeeps(r: Setting, s: State)
    requires s in Good(r) && Awake(r, s) && !s.active
    ensures s.(t := Horizon(r, s)) in Good(r)
  {
    HorizonIsNext(r, s);
    IdleKeeps(r, s, Horizon(r, s) - s.t);
  }

  lemma FirstKeeps(r: Setting, s: State)
    requires s in Good(r) && Awake(r, s) && s.active && s.state.None? && ValidProgram(r.program) && ValidDraws(r.draws)
    ensures Enter(r, s.(firsts := s.firsts + 1), r.program.behaviour.initial) in Good(r)
  {
    HorizonIsNext(r, s);
    FirstIsReady(r, s);
    EnterKeeps(r, s.(firsts := s.firsts + 1), r.program.behaviour.initial);
  }

  lemma PassedKeepsAny(r: Setting, inv: State -> bool, s: State, s': State)
    requires ValidProgram(r.program) && ValidDraws(r.draws) && StepsKeep(r, inv)
    requires inv(s) && Settled(s) && Passed(r, s, s')
    ensures inv(s')
  {
  }

  lemma IteratedKeepsAny(r: Setting, inv: State -> bool, s: State, s': State)
    requires ValidProgram(r.program) && ValidDraws(r.draws) && StepsKeep(r, inv)
    requires inv(s) && Iterated(r, s, s')
    ensures inv(s')
  {
    ApplyDueKeepsAny(inv, s);
    PassedKeepsAny(r, inv, ApplyDue(s), s');
  }

  /** The invariant holds after every pass, whatever the draws. */
  lemma IteratedKeeps(r: Setting, s: State, s': State)
    requires s in Good(r) && Iterated(r, s, s')
    ensures s' in Good(r)
  {
    InvIsKept(r);
    IteratedKeepsAny(r, x => x in Good(r), s, s');
  }

  /** Every state a run reaches satisfies the invariant. */
  lemma {:induction false} RunsKeep(r: Setting, trace: seq<State>, k: nat)
    requires ValidProgram(r.program) && ValidDraws(r.draws) && InTime(r.events)
    requires k < |trace| && trace[0] == Initial(r)
    requires forall i, j :: 0 <= i < j < |trace| && j == i + 1 ==> Iterated(r, trace[i], trace[j])
    ensures trace[k] in Good(r)
  {
    InvIsKept(r);
    InitialInv(r);
    RunsKeepAny(r, s => s in Good(r), trace, k);
  }

  lemma {:induction false} RunsKeepAny(r: Setting, inv: State -> bool, trace: seq<State>, k: nat)
    requires ValidProgram(r.program) && ValidDraws(r.draws) && StepsKeep(r, inv)
    requires k < |trace| && inv(trace[0])
    requires forall i, j :: 0 <= i < j < |trace| && j == i + 1 ==> Iterated(r, trace[i], trace[j])
    ensures inv(trace[k])
  {
    if k > 0 {
      RunsKeepAny(r, inv, trace, k - 1);
      IteratedKeepsAny(r, inv, trace[k - 1], trace[k]);
    }
  }

  /** A pass that does not end the run leaves fewer passes to make. */
  lemma IteratedDrops(r: Setting, s: State, s': State, least: real, limit: real)
    requires s in Good(r) && Iterated(r, s, s') && least > 0.0 && ApplyDue(s).t < r.program.duration
    ensures Iterations(r, s', least, limit) < Iterations(r, s, least, limit)
  {
    ApplyDueKeeps(r, s);
    ApplyDueFields(s);
    var s1 := ApplyDue(s);
    DueDrops(r, s, s1, least, limit);
    PassDrops(r, s1, s', least, limit);
  }

  lemma DueDrops(r: Setting, s: State, s1: State, least: real, limit: real)
    requires least > 0.0 && |s1.holdings| == |s.holdings| && (|s1.pending| < |s.pending| || s1 == s)
    ensures Iterations(r, s1, least, limit) <= Iterations(r, s, least, limit)
  {
  }

  /** The part of a pass after the due events. */
  lemma PassDrops(r: Setting, s: State, s': State, least: real, limit: real)
    requires s in Good(r) && Awake(r, s) && least > 0.0
    requires ValidProgram(r.program) && ValidDraws(r.draws) && Passed(r, s, s')
    ensures Iterations(r, s', least, limit) < Iterations(r, s, least, limit)
  {
    HorizonIsNext(r, s);
    if s.active && s.state.Some? {
      IsHolding(r, s);
      var wall, done :| MayAdvance(r, s, wall, done) && s' == HoldOn(r, s, wall, done);
      AdvanceFits(r, s, wall, done);
      HoldDrops(r, s, wall, done, least, limit);
    } else if s.active {
      EnterDrops(r, s, least, limit);
    } else {
      IdleDrops(r, s, least, limit);
    }
  }

  lemma IdleDrops(r: Setting, s: State, least: real, limit: real)
    requires least > 0.0 && s.t < Horizon(r, s)
    ensures Iterations(r, s.(t := Horizon(r, s)), least, limit) < Iterations(r, s, least, limit)
  {
  }

  lemma EnterDrops(r: Setting, s: State, least: real, limit: real)
    requires ValidProgram(r.program) && ValidDraws(r.draws) && least > 0.0 && s.active && s.state.None?
    ensures Iterations(r, Enter(r, s.(firsts := s.firsts + 1), r.program.behaviour.initial), least,
          limit) < Iterations(r, s, least, limit)
  {
  }

  lemma HoldDrops(r: Setting, s: State, wall: real, done: real, least: real, limit: real)
    requires ValidProgram(r.program) && ValidDraws(r.draws) && least > 0.0 && IsHeld(r, s) && s.t < Horizon(r, s) && wall >= 0.0
    requires s.left - done > 0.0 ==> s.t + wall == Horizon(r, s)
    ensures Iterations(r, HoldOn(r, s, wall, done), least, limit) < Iterations(r, s, least, limit)
  {
  }

  // ----- when a state is entered at all

  /** The behaviour is on at ``at``: started by the events due by then. */
  ghost predicate OnBy(events: seq<Event>, at: real) {
    exists k: nat :: DueBy(events, k, at) && Started(events[..k])
  }

  ghost predicate OnWithin(events: seq<Event>, until: real) {
    exists at :: 0.0 <= at < until && OnBy(events, at)
  }

  /** Between two passes: an active behaviour is in a state, and one was entered if and only if it has been on so far. */
  ghost predicate Tracked(r: Setting, s: State) {
    && (s.active ==> s.state.Some?)
    && (s.t > 0.0 ==> Timely(r, s))
    && (s.entries == [] ==> !OnWithin(r.events, s.t))
    && (s.entries != [] ==> OnWithin(r.events, r.program.duration))
  }

  lemma DueOnce(events: seq<Event>, j: nat, k: nat, at: real)
    requires DueBy(events, j, at) && DueBy(events, k, at)
    ensures j <= k
  {
    var last := if k < |events| then events[k].at else at;
    assert k < |events| ==> at < last;
  }

  lemma OneDue(events: seq<Event>, k: nat, at: real)
    requires DueBy(events, k, at)
    ensures OnBy(events, at) <==> Started(events[..k])
  {
    if OnBy(events, at) {
      var j: nat :| DueBy(events, j, at) && Started(events[..j]);
      DueOnce(events, j, k, at);
      DueOnce(events, k, j, at);
    }
  }

  /** Until the horizon the events applied are those due. */
  lemma OnUntilHorizon(r: Setting, s: State, at: real)
    requires s in Good(r) && Settled(s) && s.t < r.program.duration && s.t <= at < Horizon(r, s)
    ensures DueBy(r.events, s.applied, at) && (OnBy(r.events, at) <==> s.active)
  {
    hide History, Held, Counted, Started;
    HorizonIsNext(r, s);
    OneDue(r.events, s.applied, at);
  }

  lemma InitialIsTracked(r: Setting)
    ensures Tracked(r, Initial(r))
  {
  }

  lemma PassTracks(r: Setting, s: State, s': State)
    requires s in Good(r) && Awake(r, s) && ValidProgram(r.program) && ValidDraws(r.draws) && Passed(r, s, s')
    requires (s.entries == [] ==> !OnWithin(r.events, s.t)) && (s.entries != [] ==> OnWithin(r.events, r.program.duration))
    ensures Tracked(r, s')
  {
    hide Good, DueBy, OnBy, Horizon, Enter, MayAdvance;
    if s.active {
      OnNow(r, s);
    }
    if !s.active {
      IdleTracks(r, s);
    } else if s.state.None? {
      EnterOnly(r, s.(firsts := s.firsts + 1), r.program.behaviour.initial);
      FirstTracks(r, s, s');
    } else {
      var wall, done :| MayAdvance(r, s, wall, done) && s' == HoldOn(r, s, wall, done);
      HoldTracks(r, s, wall, done);
    }
  }

  lemma OnNow(r: Setting, s: State)
    requires s in Good(r) && Awake(r, s) && s.active
    ensures OnWithin(r.events, r.program.duration)
  {
    hide OnBy, History, Held, Counted, Applied;
    HorizonIsNext(r, s);
    OnUntilHorizon(r, s, s.t);
    assert 0.0 <= s.t;
  }

  lemma IdleTracks(r: Setting, s: State)
    requires s in Good(r) && Awake(r, s) && !s.active
    requires (s.entries == [] ==> !OnWithin(r.events, s.t)) && (s.entries != [] ==> OnWithin(r.events, r.program.duration))
    ensures Tracked(r, s.(t := Horizon(r, s)))
  {
    hide Good, DueBy, OnBy, Horizon;
    HorizonIsNext(r, s);
    forall at | 0.0 <= at < Horizon(r, s) && s.entries == []
      ensures !OnBy(r.events, at)
    {
      if at >= s.t {
        OnUntilHorizon(r, s, at);
      }
    }
  }

  lemma EnterOnly(r: Setting, s: State, weights: seq<real>)
    requires weights != [] && |weights| == |r.program.behaviour.states| && ValidDraws(r.draws)
    ensures var s' := Enter(r, s, weights);
            s'.t == s.t && s'.applied == s.applied && s'.active == s.active && s'.state.Some? && s'.entries != []
  {
  }

  lemma FirstTracks(r: Setting, s: State, s': State)
    requires s in Good(r) && Awake(r, s) && OnWithin(r.events, r.program.duration)
    requires s'.t == s.t && s'.applied == s.applied && s'.state.Some? && s'.entries != []
    ensures Tracked(r, s')
  {
    HorizonIsNext(r, s);
  }

  lemma HeldIsTimely(r: Setting, s: State, wall: real, done: real)
    requires ValidCurve(r.program.behaviour.rate) && Advances(r, s, wall, done)
    ensures Timely(r, HeldFor(s, wall, done))
  {
  }

  lemma HoldTracks(r: Setting, s: State, wall: real, done: real)
    requires s in Good(r) && Awake(r, s) && ValidProgram(r.program) && ValidDraws(r.draws) && IsHeld(r, s)
    requires MayAdvance(r, s, wall, done) && OnWithin(r.events, r.program.duration)
    ensures Tracked(r, HoldOn(r, s, wall, done))
  {
    hide Good, DueBy, OnBy, Horizon, Enter, MayAdvance;
    IsHolding(r, s);
    AdvanceFits(r, s, wall, done);
    HorizonIsNext(r, s);
    var held := HeldFor(s, wall, done);
    HeldIsTimely(r, s, wall, done);
    if held.left <= 0.0 {
      EnterOnly(r, Complete(held), r.program.behaviour.transitions[s.state.value]);
    }
  }

  lemma IterateTracks(r: Setting, s: State, s': State)
    requires s in Good(r) && Tracked(r, s) && Iterated(r, s, s') && ApplyDue(s).t < r.program.duration
    ensures Tracked(r, s')
  {
    hide Good, OnWithin, Timely;
    ApplyDueKeeps(r, s);
    ApplyDueFields(s);
    PassTracks(r, ApplyDue(s), s');
  }

  /** At the end of a run a state has been entered exactly if the behaviour was on at some moment before. */
  lemma EndTracked(r: Setting, s: State)
    requires Tracked(r, s) && s.t == r.program.duration
    ensures s.entries != [] <==> OnWithin(r.events, r.program.duration)
  {
    hide OnWithin;
  }

  /** The behaviour is on, by the schedule itself, at some moment before ``until``. */
  ghost predicate OnBefore(schedule: seq<Event>, behaviour: string, until: real) {
    exists at :: 0.0 <= at < until && OnAt(schedule, behaviour, at)
  }

  lemma {:induction false} DueExists(events: seq<Event>, at: real) returns (k: nat)
    requires InTime(events)
    ensures DueBy(events, k, at)
  {
    k := 0;
    if events != [] {
      var n := |events| - 1;
      if events[n].at <= at {
        k := |events|;
      } else {
        k := DueExists(events[..n], at);
        assert forall i :: 0 <= i < n ==> events[..n][i] == events[i];
      }
    }
  }

  lemma OnByIsOnAt(schedule: seq<Event>, behaviour: string, at: real)
    ensures OnBy(SortByTime(Relevant(schedule, behaviour)), at) <==> OnAt(schedule, behaviour, at)
  {
    hide SortByTime, Relevant, OnAt, OnBy;
    var events := SortByTime(Relevant(schedule, behaviour));
    SortedByTime(Relevant(schedule, behaviour));
    var k := DueExists(events, at);
    OneDue(events, k, at);
    StartedIsOn(schedule, behaviour, k, at);
  }

  lemma OnWithinIsOnBefore(schedule: seq<Event>, behaviour: string, until: real)
    ensures OnWithin(SortByTime(Relevant(schedule, behaviour)), until) <==> OnBefore(schedule, behaviour, until)
  {
    hide SortByTime, Relevant, OnAt, OnBy;
    forall at
      ensures OnBy(SortByTime(Relevant(schedule, behaviour)), at) <==> OnAt(schedule, behaviour, at)
    {
      OnByIsOnAt(schedule, behaviour, at);
    }
  }

  /** A schedule without a start of the behaviour never has it on. */
  lemma NeverOn(schedule: seq<Event>, behaviour: string, until: real)
    requires forall i :: 0 <= i < |schedule| && schedule[i].op.Start? ==> schedule[i].arg != behaviour
    ensures !OnBefore(schedule, behaviour, until)
  {
  }

  /** A start before the end that no stop of the behaviour's comes with or after has it on. */
  lemma StartIsOn(schedule: seq<Event>, behaviour: string, until: real, i: nat)
    requires i < |schedule| && schedule[i].op.Start? && schedule[i].arg == behaviour && schedule[i].at < until && 0.0 < until
    requires forall j :: 0 <= j < |schedule| && schedule[j].op.Stop? && schedule[j].arg == behaviour ==> schedule[j].at < schedule[i].at
    ensures OnBefore(schedule, behaviour, until)
  {
    var at := if schedule[i].at > 0.0 then schedule[i].at else 0.0;
    assert IsLastStart(schedule, behaviour, at, i);
    assert OnAt(schedule, behaviour, at);
  }

  /** The loop's object: its clock, counter and sink, the local variables of ``run``, and the history behind them. */
  class Loop {
    const run: Setting

    var t: real
    var n: nat
    var records: seq<Record>
    var drawn: nat
    var selected: nat
    var pending: seq<Event>
    var factor: real
    var active: bool
    var state: Option<nat>
    var left: real

    ghost var applied: nat
    ghost var starts: nat
    ghost var firsts: nat
    ghost var entries: seq<Entry>
    ghost var holdings: seq<Holding>

    ghost function Now(): State
      reads this
    {
      State(t, n, records, drawn, selected, pending, factor, active, state, left, applied, starts, firsts, entries, holdings)
    }

    ghost predicate Valid()
      reads this
    {
      && ValidProgram(run.program) && ValidDraws(run.draws) && GoodAndChained(run, Now())
      && run.events == SortByTime(Relevant(run.program.schedule, run.program.behaviour.name))
    }

    constructor (program: Program, draws: Draws, epoch: real)
      requires ValidProgram(program) && ValidDraws(draws)
      ensures Valid() && Now() == Initial(run)
      ensures run == Setting(program, draws, epoch, SortByTime(Relevant(program.schedule, program.behaviour.name)))
      ensures forall e ::
        multiset(run.events)[e] == if Concerns(e, program.behaviour.name) then multiset(program.schedule)[e] else 0
    {
      var events := SortByTime(Relevant(program.schedule, program.behaviour.name));
      SortedByTime(Relevant(program.schedule, program.behaviour.name));
      forall e
        ensures multiset(events)[e] == if Concerns(e, program.behaviour.name) then multiset(program.schedule)[e] else 0
      {
        EventsCount(program.schedule, program.behaviour.name, e);
      }
      run := Setting(program, draws, epoch, events);
      t, n, records, drawn, selected := 0.0, 0, [], 0, 0;
      pending, factor, active, state, left := events, 1.0, false, None, 0.0;
      applied, starts, firsts, entries, holdings := 0, 0, 0, [], [];
      new;
      InitialInv(run);
    }

    method ApplyNext()
      requires pending != []
      modifies this
      ensures Now() == ApplyEvent(old(Now()))
    {
      var event := pending[0];
      pending := pending[1..];
      applied := applied + 1;
      match event.op {
        case Start =>
          if !active {
            active, state := true, None;
            starts := starts + 1;
          }
        case Stop =>
          active, state := false, None;
        case SetRate(f) =>
          factor := f;
        case RunSequence =>
      }
    }

    /** Apply every event whose time has come. */
    method ApplyDueEvents()
      modifies this
      ensures Now() == ApplyDue(old(Now()))
    {
      while pending != [] && pending[0].at <= t
        invariant ApplyDue(Now()) == ApplyDue(old(Now()))
        decreases |pending|
      {
        ghost var before := Now();
        ApplyNext();
        assert ApplyDue(before) == ApplyDue(Now());
      }
    }

    /** ``_invoke``: run the action against the tie's peers and write the record. */
    method InvokeAction(entered: nat)
      requires entered < |run.program.behaviour.states| && ValidDraws(run.draws)
      modifies this
      ensures Now() == Invoke(run, old(Now()), entered)
    {
      var action := Acts(run.program, entered);
      if action.Some? {
        var peers := PeersOn(run.program, action.value.tie);
        var targets := peers;
        if action.value.one {
          targets := [peers[run.draws.peer(selected, |peers|)]];
          selected := selected + 1;
        }
        n := n + 1;
        var begin := run.epoch + t;
        var outcome := run.draws.runs(n);
        var end := run.epoch + t;
        records := records + [Record(n, run.program.behaviour.states[entered], targets, begin, end, outcome)];
      }
    }

    /** Draw a state, run its action, and draw the holding time that follows it. */
    method EnterState(weights: seq<real>)
      requires weights != [] && |weights| == |run.program.behaviour.states| && ValidDraws(run.draws)
      modifies this
      ensures Now() == Enter(run, old(Now()), weights)
    {
      hide Invoke, Good, Acts;
      var entered := run.draws.choose(drawn, weights);
      InvokeBeside(run, Now(), entered, drawn + 1);
      drawn := drawn + 1;
      InvokeAction(entered);
      left := run.draws.hold(drawn, entered);
      drawn := drawn + 1;
      state := Some(entered);
      entries := entries + [Entry(entered, t, left, applied)];
    }

    method Sleep(seconds: real)
      modifies this`t
      ensures t == old(t) + if seconds > 0.0 then seconds else 0.0
    {
      t := t + if seconds > 0.0 then seconds else 0.0;
    }

    /** Hold on until the holding runs out or the horizon, and enter the next state in the first case. */
    method HoldState(horizon: real) returns (ghost wall: real, ghost done: real)
      requires ValidProgram(run.program) && ValidDraws(run.draws)
      requires IsHeld(run, Now()) && HoldingNow(run, Now()) && horizon == Horizon(run, Now())
      modifies this
      ensures MayAdvance(run, old(Now()), wall, done)
      ensures Now() == HoldOn(run, old(Now()), wall, done)
    {
      hide Applied, Good, Enter;
      ghost var before := Now();
      var slept, passed := Advance(left, t, horizon - t, run.program.start, run.program.behaviour.rate, factor);
      wall, done := slept, passed;
      AdvanceFits(run, before, wall, done);
      Sleep(slept);
      left := left - passed;
      assert Now() == HeldFor(before, wall, done);
      if left <= 0.0 {
        holdings := holdings + [Holding(|entries| - 1, t)];
        EnterState(run.program.behaviour.transitions[state.value]);
      }
    }

    /** The rest of a pass once the due events are applied. */
    method Wait()
      requires ValidProgram(run.program) && ValidDraws(run.draws) && Now() in Good(run) && Awake(run, Now())
      modifies this
      ensures ValidProgram(run.program) && ValidDraws(run.draws) && Passed(run, old(Now()), Now())
    {
      hide Good, Enter, HoldOn, MayAdvance, Applied;
      HorizonIsNext(run, Now());
      var horizon := if pending != [] then Min(run.program.duration, pending[0].at) else run.program.duration;
      if !active {
        Sleep(horizon - t);
      } else if state.None? {
        firsts := firsts + 1;
        EnterState(run.program.behaviour.initial);
      } else {
        IsHolding(run, Now());
        ghost var wall, done := HoldState(horizon);
      }
    }

    /** One pass of the ``while True`` loop; true when the run is over. */
    method Iterate() returns (finished: bool)
      requires Valid()
      modifies this
      ensures Valid() && Iterated(run, old(Now()), Now())
      ensures finished <==> ApplyDue(old(Now())).t >= run.program.duration
      ensures finished ==> t == run.program.duration
    {
      ghost var before := Now();
      ApplyDueKeeps(run, Now());
      ApplyDueEvents();
      finished := t >= run.program.duration;
      if finished {
        EndsExactly(run, Now());
      } else {
        Wait();
      }
      ChainedIsKept(run);
      IteratedKeepsAny(run, s => GoodAndChained(run, s), before, Now());
    }

    /**
     * ``run``. With holding times of at least ``least`` and speeds of at most ``limit`` it ends, at
     * the duration exactly, having entered no more states than its starts and its time allow.
     */
    method Run(ghost least: real, ghost limit: real)
      requires Valid() && Paced(run, least, limit) && Now() == Initial(run)
      modifies this
      ensures Valid() && t == run.program.duration
      ensures entries != [] <==> OnBefore(run.program.schedule, run.program.behaviour.name, run.program.duration)
      ensures entries == [] ==> records == []
      ensures forall h :: h in holdings ==> Conserved(run.program, run.events, entries, h)
      ensures |entries| <= starts + MostHoldings(run.program.duration, least, limit)
      ensures starts <= EffectiveStarts(run.events)
      ensures forall i :: 0 <= i < |records| ==>
        RecordOk(run.epoch, entries, records, i) && records[i].start <= run.epoch + run.program.duration
    {
      InitialIsTracked(run);
      while true
        invariant Valid() && Tracked(run, Now())
        decreases Iterations(run, Now(), least, limit)
      {
        ghost var before := Now();
        HoldingsFit(run, before, least, limit);
        var finished := Iterate();
        HoldingsFit(run, Now(), least, limit);
        if finished {
          ApplyDueFields(before);
          EndTracked(run, before);
          break;
        }
        IterateTracks(run, before, Now());
        IteratedDrops(run, before, Now(), least, limit);
      }
      RunSummary(run, Now(), least, limit);
      OnWithinIsOnBefore(run.program.schedule, run.program.behaviour.name, run.program.duration);
    }
  }

  lemma {:induction false} StartsGrow(events: seq<Event>, k: nat)
    requires k <= |events|
    ensures EffectiveStarts(events[..k]) <= EffectiveStarts(events)
    decreases |events| - k
  {
    if k < |events| {
      assert events[..k + 1][..k] == events[..k];
      StartsGrow(events, k + 1);
    } else {
      assert events[..k] == events;
    }
  }

  /** What the invariant says at the end of a run. */
  lemma RunSummary(r: Setting, s: State, least: real, limit: real)
    requires s in Good(r) && Paced(r, least, limit)
    ensures forall h :: h in s.holdings ==> Conserved(r.program, r.events, s.entries, h)
    ensures |s.entries| <= s.starts + MostHoldings(r.program.duration, least, limit)
    ensures s.starts <= EffectiveStarts(r.events)
    ensures forall i :: 0 <= i < |s.records| ==>
      RecordOk(r.epoch, s.entries, s.records, i) && s.records[i].start <= r.epoch + r.program.duration
  {
    HoldingsFit(r, s, least, limit);
    StartsGrow(r.events, s.applied);
    RecordsNumbered(r.program, r.draws, r.epoch, s.entries);
  }

  lemma EndsExactly(r: Setting, s: State)
    requires s in Good(r) && s.t >= r.program.duration
    ensures s.t == r.program.duration
  {
  }
}
