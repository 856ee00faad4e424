/**
 * One run of a built scenario: up, on, released, waited, down. Everything it drives is a step that
 * may raise, an ordinary error or an interrupt; the trace holds what was tried and how it went.
 */
module Scheduler {
  import opened Wrappers

  datatype Outcome = Fine | Error | Interrupt

  datatype Manifest = Manifest(backend: string, collectors: seq<string>)

  /** What one undo entry takes down. */
  datatype Part = Hosts(backend: string) | Collector(name: string, backend: string) | Capture

  datatype Step =
    | Up(backend: string) | Save(backend: string)
    | Attach(name: string, backend: string)
    | LoadPoints | Quiesce(backend: string) | CaptureOn | WriteOffsets
    | ReadClock | Release(backend: string) | Sleep
    | Collect(backend: string) | TakeDown(backend: string) | DropState(backend: string)
    | Detach(name: string, backend: string) | CaptureOff
    | WriteRun

  datatype Phase = Rising | Waiting | Timing | Falling | Recording

  datatype Event = Event(phase: Phase, step: Step, outcome: Outcome)

  type Trace = seq<Event>

  // ----- what a trace says was started and taken down

  function PartOn(e: Event): seq<Part> {
    if e.outcome != Fine then []
    else
      match e.step
      case Up(b) => [Hosts(b)]
      case Attach(a, b) => [Collector(a, b)]
      case CaptureOn => [Capture]
      case _ => []
  }

  function PartOff(e: Event): seq<Part> {
    match e.step
    case TakeDown(b) => [Hosts(b)]
    case Detach(a, b) => [Collector(a, b)]
    case CaptureOff => [Capture]
    case _ => []
  }

  /** The parts whose start completed, in order. */
  function Started(t: Trace): seq<Part> {
    if t == [] then [] else Started(t[..|t| - 1]) + PartOn(t[|t| - 1])
  }

  /** The parts taken down, well or badly, in order. */
  function TakenDown(t: Trace): seq<Part> {
    if t == [] then [] else TakenDown(t[..|t| - 1]) + PartOff(t[|t| - 1])
  }

  function Reverse(s: seq<Part>): (r: seq<Part>)
    ensures |r| == |s| && forall k :: 0 <= k < |s| ==> r[k] == s[|s| - 1 - k]
  {
    seq(|s|, k requires 0 <= k < |s| => s[|s| - 1 - k])
  }

  lemma Snoc(t: Trace, e: Event)
    ensures Started(t + [e]) == Started(t) + PartOn(e) && TakenDown(t + [e]) == TakenDown(t) + PartOff(e)
  {
    assert (t + [e])[..|t|] == t;
  }

  // ----- what a whole run starts

  /** The first ``n`` manifests' hosts; and so on below. */
  function HostsOf(found: seq<Manifest>, n: nat): seq<Part>
    requires n <= |found|
  {
    if n == 0 then [] else HostsOf(found, n - 1) + [Hosts(found[n - 1].backend)]
  }

  function CollectorsIn(names: seq<string>, backend: string, n: nat): seq<Part>
    requires n <= |names|
  {
    if n == 0 then [] else CollectorsIn(names, backend, n - 1) + [Collector(names[n - 1], backend)]
  }

  function CollectorsOf(found: seq<Manifest>, n: nat): seq<Part>
    requires n <= |found|
  {
    if n == 0 then []
    else CollectorsOf(found, n - 1) + CollectorsIn(found[n - 1].collectors, found[n - 1].backend, |found[n - 1].collectors|)
  }

  /** All hosts, then all collectors, then the capture. */
  function Everything(found: seq<Manifest>): seq<Part> {
    HostsOf(found, |found|) + CollectorsOf(found, |found|) + [Capture]
  }

  function Attachments(found: seq<Manifest>, n: nat): nat
    requires n <= |found|
  {
    if n == 0 then 0 else Attachments(found, n - 1) + |found[n - 1].collectors|
  }

  /** How many steps it takes to bring everything up and release the agents. */
  function StepsUp(found: seq<Manifest>): nat {
    4 * |found| + 2 * Attachments(found, |found|) + 4
  }

  // ----- the steps of a whole way up, in order

  function StepsOf(t: Trace): (r: seq<Step>)
    ensures |r| == |t|
  {
    seq(|t|, k requires 0 <= k < |t| => t[k].step)
  }

  function HostSteps(found: seq<Manifest>, n: nat): seq<Step>
    requires n <= |found|
  {
    if n == 0 then [] else HostSteps(found, n - 1) + [Up(found[n - 1].backend), Save(found[n - 1].backend)]
  }

  function AttachSteps(names: seq<string>, backend: string, n: nat): seq<Step>
    requires n <= |names|
  {
    if n == 0 then [] else AttachSteps(names, backend, n - 1) + [Attach(names[n - 1], backend), Save(backend)]
  }

  function CollectorSteps(found: seq<Manifest>, n: nat): seq<Step>
    requires n <= |found|
  {
    if n == 0 then []
    else CollectorSteps(found, n - 1) + AttachSteps(found[n - 1].collectors, found[n - 1].backend, |found[n - 1].collectors|)
  }

  function QuiesceSteps(found: seq<Manifest>, n: nat): seq<Step>
    requires n <= |found|
  {
    if n == 0 then [] else QuiesceSteps(found, n - 1) + [Quiesce(found[n - 1].backend)]
  }

  function ReleaseSteps(found: seq<Manifest>, n: nat): seq<Step>
    requires n <= |found|
  {
    if n == 0 then [ReadClock] else ReleaseSteps(found, n - 1) + [Release(found[n - 1].backend)]
  }

  function CaptureSteps(found: seq<Manifest>): seq<Step> {
    [LoadPoints] + QuiesceSteps(found, |found|) + [CaptureOn, WriteOffsets]
  }

  /** Hosts up, collectors on, networks quiet, capture on, and only then the clock read and the agents released. */
  function StepsToGo(found: seq<Manifest>): seq<Step> {
    HostSteps(found, |found|) + CollectorSteps(found, |found|) + CaptureSteps(found) + ReleaseSteps(found, |found|)
  }

  lemma StepsSnoc(t: Trace, e: Event)
    ensures StepsOf(t + [e]) == StepsOf(t) + [e.step]
  {
  }

  lemma {:induction false} HostsGrow(found: seq<Manifest>, k: nat)
    requires k <= |found|
    ensures HostSteps(found, k) <= HostSteps(found, |found|)
    decreases |found| - k
  {
    if k < |found| {
      HostsGrow(found, k + 1);
    }
  }

  lemma {:induction false} AttachGrows(names: seq<string>, backend: string, k: nat)
    requires k <= |names|
    ensures AttachSteps(names, backend, k) <= AttachSteps(names, backend, |names|)
    decreases |names| - k
  {
    if k < |names| {
      AttachGrows(names, backend, k + 1);
    }
  }

  lemma {:induction false} CollectorsGrow(found: seq<Manifest>, k: nat)
    requires k <= |found|
    ensures CollectorSteps(found, k) <= CollectorSteps(found, |found|)
    decreases |found| - k
  {
    if k < |found| {
      CollectorsGrow(found, k + 1);
    }
  }

  lemma {:induction false} QuiesceGrows(found: seq<Manifest>, k: nat)
    requires k <= |found|
    ensures QuiesceSteps(found, k) <= QuiesceSteps(found, |found|)
    decreases |found| - k
  {
    if k < |found| {
      QuiesceGrows(found, k + 1);
    }
  }

  lemma {:induction false} ReleaseGrows(found: seq<Manifest>, k: nat)
    requires k <= |found|
    ensures ReleaseSteps(found, k) <= ReleaseSteps(found, |found|)
    decreases |found| - k
  {
    if k < |found| {
      ReleaseGrows(found, k + 1);
    }
  }

  lemma NoneCollected(found: seq<Manifest>)
    ensures CollectorSteps(found, 0) == []
  {
  }

  lemma CollectedSteps(found: seq<Manifest>, k: nat, base: seq<Step>)
    requires k < |found|
    ensures base + CollectorSteps(found, k) + AttachSteps(found[k].collectors, found[k].backend, |found[k].collectors|)
      == base + CollectorSteps(found, k + 1)
    ensures CollectorSteps(found, k + 1) <= CollectorSteps(found, |found|)
  {
    CollectorsGrow(found, k + 1);
  }

  lemma CollectedParts(found: seq<Manifest>, k: nat, parts: seq<Part>)
    requires k < |found|
    ensures parts + CollectorsOf(found, k) + CollectorsIn(found[k].collectors, found[k].backend,
          |found[k].collectors|) == parts + CollectorsOf(found, k + 1)
    ensures Attachments(found, k + 1) == Attachments(found, k) + |found[k].collectors| <= Attachments(found, |found|)
  {
    AttachmentsGrow(found, k + 1);
  }

  /** Two steps on from ``base + part``, ``whole`` going that far: both are within it. */
  lemma TwoOn(base: seq<Step>, part: seq<Step>, a: Step, b: Step, whole: seq<Step>)
    requires part + [a, b] <= whole
    ensures base + part + [a] <= base + whole && base + part + [a] + [b] == base + (part + [a, b]) <= base + whole
  {
    var now := base + part + [a] + [b];
    assert now == base + (part + [a, b]);
    Within(base, part + [a, b], whole);
    assert base + part + [a] == now[..|now| - 1];
  }

  lemma OneOn(base: seq<Step>, part: seq<Step>, a: Step, whole: seq<Step>)
    requires part + [a] <= whole
    ensures base + part + [a] == base + (part + [a]) <= base + whole
  {
    Within(base, part + [a], whole);
  }

  lemma Within(base: seq<Step>, part: seq<Step>, whole: seq<Step>)
    requires part <= whole
    ensures base + part <= base + whole
  {
    assert base + whole == base + part + whole[|part|..];
  }

  /** What has been done, ``now`` being all of it, is a beginning of ``base + whole``. */
  lemma Ahead(base: seq<Step>, now: seq<Step>, part: seq<Step>, whole: seq<Step>)
    requires now <= base + part && part <= whole
    ensures now <= base + whole
  {
    Within(base, part, whole);
  }

  ghost predicate AllFine(t: Trace) {
    forall e :: e in t ==> e.outcome == Fine
  }

  ghost predicate AllIn(t: Trace, phase: Phase) {
    forall e :: e in t ==> e.phase == phase
  }

  /** Agents are released only when everything is on. */
  ghost predicate ReleasedLast(t: Trace, found: seq<Manifest>) {
    forall k :: 0 <= k < |t| && t[k].step.Release? ==> Started(t[..k]) == Everything(found)
  }

  lemma ReleasedSnoc(t: Trace, e: Event, found: seq<Manifest>)
    requires ReleasedLast(t, found) && (e.step.Release? ==> Started(t) == Everything(found))
    ensures ReleasedLast(t + [e], found)
  {
    assert (t + [e])[..|t|] == t;
    forall k | 0 <= k < |t + [e]| && (t + [e])[k].step.Release?
      ensures Started((t + [e])[..k]) == Everything(found)
    {
      if k < |t| {
        assert (t + [e])[..k] == t[..k];
      }
    }
  }

  /** On the way up: what has started can be undone, in order, and nothing has been. */
  ghost predicate GoingUp(t: Trace, undo: seq<Part>, found: seq<Manifest>) {
    && undo == Started(t) && TakenDown(t) == [] && AllIn(t, Rising) && AllFine(t) && ReleasedLast(t, found)
  }

  /** The last step on the way up raised; everything else is as it was before. */
  ghost predicate StoppedUp(t: Trace, undo: seq<Part>, found: seq<Manifest>, o: Outcome) {
    && t != [] && o != Fine && t[|t| - 1].outcome == o
    && undo == Started(t) && TakenDown(t) == [] && AllIn(t, Rising) && AllFine(t[..|t| - 1]) && ReleasedLast(t, found)
  }

  ghost predicate WentUp(t: Trace, undo: seq<Part>, found: seq<Manifest>, o: Outcome) {
    if o == Fine then GoingUp(t, undo, found) else StoppedUp(t, undo, found, o)
  }

  lemma OneUp(t: Trace, undo: seq<Part>, found: seq<Manifest>, e: Event)
    requires GoingUp(t, undo, found) && e.phase == Rising && PartOff(e) == []
    requires e.step.Release? ==> Started(t) == Everything(found)
    ensures WentUp(t + [e], undo + PartOn(e), found, e.outcome)
    ensures e.outcome != Fine ==> undo + PartOn(e) == undo
  {
    Snoc(t, e);
    ReleasedSnoc(t, e, found);
    assert (t + [e])[..|t|] == t;
  }

  lemma NothingYet(found: seq<Manifest>)
    ensures GoingUp([], [], found) && Started([]) == []
  {
  }

  // ----- how a run ends

  predicate Loses(e: Event) {
    (e.phase == Waiting && e.outcome == Error) || (e.phase == Timing && e.outcome != Fine)
  }

  predicate Breaks(e: Event) {
    e.phase == Falling && e.outcome == Interrupt
  }

  predicate Quiet(e: Event) {
    e.outcome == Fine || (e.phase == Waiting && e.outcome == Interrupt)
  }

  /** An error while waiting, or anything at all while reading the time that was waited, escapes without unwinding. */
  ghost predicate Lost(t: Trace) {
    exists e :: e in t && Loses(e)
  }

  predicate Cuts(e: Event) {
    e.phase == Waiting && e.outcome == Interrupt
  }

  /** The wait was interrupted. */
  ghost predicate Cut(t: Trace) {
    exists e :: e in t && Cuts(e)
  }

  /** An interrupt while taking down. */
  ghost predicate Broken(t: Trace) {
    exists e :: e in t && Breaks(e)
  }

  /** Nothing raised, but for an interrupt that cut the wait short. */
  ghost predicate Sound(t: Trace) {
    forall e :: e in t ==> Quiet(e)
  }

  /** ``t`` goes on from ``t0``, and not on the way up. */
  ghost predicate After(t0: Trace, t: Trace) {
    t0 <= t && forall k :: |t0| <= k < |t| ==> t[k].phase != Rising
  }

  lemma OneMore(t: Trace, e: Event, found: seq<Manifest>)
    ensures Started(t + [e]) == Started(t) + PartOn(e) && TakenDown(t + [e]) == TakenDown(t) + PartOff(e)
    ensures Lost(t + [e]) <==> Lost(t) || Loses(e)
    ensures Broken(t + [e]) <==> Broken(t) || Breaks(e)
    ensures Cut(t + [e]) <==> Cut(t) || Cuts(e)
    ensures Sound(t + [e]) <==> Sound(t) && Quiet(e)
    ensures ReleasedLast(t, found) && !e.step.Release? ==> ReleasedLast(t + [e], found)
  {
    Snoc(t, e);
    if ReleasedLast(t, found) && !e.step.Release? {
      ReleasedSnoc(t, e, found);
    }
    var s := t + [e];
    assert s[|t|] == e && forall k :: 0 <= k < |t| ==> s[k] == t[k];
    assert forall x :: x in s <==> x in t || x == e;
  }

  /** The way up is neither lost nor broken, and sound exactly if nothing raised. */
  lemma UpSummary(t: Trace, undo: seq<Part>, found: seq<Manifest>, o: Outcome)
    requires WentUp(t, undo, found, o)
    ensures !Lost(t) && !Broken(t) && !Cut(t) && (Sound(t) <==> o == Fine)
    ensures undo == Started(t) && TakenDown(t) == [] && ReleasedLast(t, found)
    ensures AllFine(t) ==> o == Fine
  {
    if o != Fine {
      assert t[|t| - 1] in t;
    }
  }

  datatype Result =
    | Refused
    | Raised(cause: Outcome)
    | Recorded(started: real, ran: real)

  /** The clock passes every instant sooner or later. */
  ghost predicate Progresses(clock: nat -> real) {
    forall limit: real :: Passes(clock, limit)
  }

  ghost predicate Passes(clock: nat -> real, limit: real) {
    exists n: nat :: PastFrom(clock, limit, n)
  }

  ghost predicate PastFrom(clock: nat -> real, limit: real, n: nat) {
    forall k: nat :: k >= n ==> clock(k) >= limit
  }

  ghost predicate Monotone(clock: nat -> real) {
    forall j: nat, k: nat :: j <= k ==> clock(j) <= clock(k)
  }

  class Run {
    /** How the ``k``-th step goes, and what the clock says then. */
    const faults: nat -> Outcome
    const clock: nat -> real
    var trace: Trace
    var undo: seq<Part>

    constructor (faults: nat -> Outcome, clock: nat -> real)
      ensures this.faults == faults && this.clock == clock && trace == [] && undo == []
    {
      this.faults, this.clock, trace, undo := faults, clock, [], [];
    }

    method Do(phase: Phase, step: Step) returns (o: Outcome)
      modifies this`trace
      ensures o == faults(|old(trace)|)
      ensures trace == old(trace) + [Event(phase, step, o)]
    {
      o := faults(|trace|);
      trace := trace + [Event(phase, step, o)];
    }

    /** The last step raised, among the first ``n``. */
    predicate FailedAt(o: Outcome, n: nat)
      reads this`trace
    {
      0 < |trace| <= n && o == faults(|trace| - 1)
    }

    /** A step on the way up; what it starts, if it does, is pushed onto the undo list. */
    method Rise(ghost found: seq<Manifest>, step: Step) returns (o: Outcome)
      requires GoingUp(trace, undo, found) && PartOff(Event(Rising, step, Fine)) == []
      requires step.Release? ==> Started(trace) == Everything(found)
      modifies this`trace, this`undo
      ensures o == faults(|old(trace)|) && WentUp(trace, undo, found, o)
      ensures trace == old(trace) + [Event(Rising, step, o)]
      ensures Started(trace) == Started(old(trace)) + PartOn(Event(Rising, step, o))
      ensures StepsOf(trace) == StepsOf(old(trace)) + [step]
    {
      StepsSnoc(trace, Event(Rising, step, faults(|trace|)));
      OneUp(trace, undo, found, Event(Rising, step, faults(|trace|)));
      Snoc(trace, Event(Rising, step, faults(|trace|)));
      o := Do(Rising, step);
      undo := undo + PartOn(Event(Rising, step, o));
    }

    method HostsUp(found: seq<Manifest>) returns (o: Outcome)
      requires trace == [] && undo == []
      modifies this`trace, this`undo
      ensures WentUp(trace, undo, found, o) && (o != Fine ==> FailedAt(o, 2 * |found|))
      ensures o == Fine ==> Started(trace) == HostsOf(found, |found|) && |trace| == 2 * |found|
      ensures StepsOf(trace) <= HostSteps(found, |found|) && (o == Fine ==> StepsOf(trace) == HostSteps(found, |found|))
    {
      hide GoingUp, StoppedUp, Started, ReleasedLast, StepsOf;
      NothingYet(found);
      assert StepsOf([]) == [];
      for k := 0 to |found|
        invariant GoingUp(trace, undo, found) && Started(trace) == HostsOf(found, k) && |trace| == 2 * k
        invariant StepsOf(trace) == HostSteps(found, k)
      {
        HostsGrow(found, k + 1);
        TwoOn([], HostSteps(found, k), Up(found[k].backend), Save(found[k].backend), HostSteps(found, |found|));
        o := Rise(found, Up(found[k].backend));
        if o != Fine {
          return;
        }
        o := Rise(found, Save(found[k].backend));
        if o != Fine {
          return;
        }
      }
      o := Fine;
    }

    method CollectorsOn(found: seq<Manifest>) returns (o: Outcome)
      requires GoingUp(trace, undo, found) && Started(trace) == HostsOf(found, |found|)
      modifies this`trace, this`undo
      ensures WentUp(trace, undo, found, o) && (o != Fine ==> FailedAt(o, |old(trace)| + 2 * Attachments(found, |found|)))
      ensures o == Fine ==> Started(trace) == HostsOf(found, |found|) + CollectorsOf(found, |found|)
      ensures o == Fine ==> |trace| == |old(trace)| + 2 * Attachments(found, |found|)
      ensures StepsOf(trace) <= StepsOf(old(trace)) + CollectorSteps(found, |found|)
      ensures o == Fine ==> StepsOf(trace) == StepsOf(old(trace)) + CollectorSteps(found, |found|)
    {
      ghost var base := StepsOf(trace);
      hide GoingUp, StoppedUp, Started, StepsOf, HostsOf, CollectorsIn, AttachSteps, CollectorSteps;
      assert CollectorSteps(found, 0) == [] by {
        NoneCollected(found);
      }
      for k := 0 to |found|
        invariant GoingUp(trace, undo, found) && Started(trace) == HostsOf(found, |found|) + CollectorsOf(found, k)
        invariant |trace| == |old(trace)| + 2 * Attachments(found, k)
        invariant StepsOf(trace) == base + CollectorSteps(found, k)
      {
        CollectedParts(found, k, HostsOf(found, |found|));
        CollectedSteps(found, k, base);
        o := Attaching(found, found[k].collectors, found[k].backend);
        Ahead(base, StepsOf(trace), CollectorSteps(found, k + 1), CollectorSteps(found, |found|));
        if o != Fine {
          return;
        }
      }
      o := Fine;
    }

    method Attaching(ghost found: seq<Manifest>, names: seq<string>, backend: string) returns (o: Outcome)
      requires GoingUp(trace, undo, found)
      modifies this`trace, this`undo
      ensures WentUp(trace, undo, found, o) && (o != Fine ==> FailedAt(o, |old(trace)| + 2 * |names|))
      ensures o == Fine ==> Started(trace) == Started(old(trace)) + CollectorsIn(names, backend, |names|)
      ensures o == Fine ==> |trace| == |old(trace)| + 2 * |names|
      ensures StepsOf(trace) <= StepsOf(old(trace)) + AttachSteps(names, backend, |names|)
      ensures o == Fine ==> StepsOf(trace) == StepsOf(old(trace)) + AttachSteps(names, backend, |names|)
    {
      ghost var base := StepsOf(trace);
      hide GoingUp, StoppedUp, Started, StepsOf;
      for j := 0 to |names|
        invariant GoingUp(trace, undo, found) && Started(trace) == Started(old(trace)) + CollectorsIn(names, backend, j)
        invariant |trace| == |old(trace)| + 2 * j
        invariant StepsOf(trace) == base + AttachSteps(names, backend, j)
      {
        AttachGrows(names, backend, j + 1);
        TwoOn(base, AttachSteps(names, backend, j), Attach(names[j], backend), Save(backend), AttachSteps(names, backend, |names|));
        o := Rise(found, Attach(names[j], backend));
        if o != Fine {
          return;
        }
        o := Rise(found, Save(backend));
        if o != Fine {
          return;
        }
      }
      o := Fine;
    }

    method CaptureUp(found: seq<Manifest>) returns (o: Outcome)
      requires GoingUp(trace, undo, found) && Started(trace) == HostsOf(found, |found|) + CollectorsOf(found, |found|)
      modifies this`trace, this`undo
      ensures WentUp(trace, undo, found, o) && (o != Fine ==> FailedAt(o, |old(trace)| + |found| + 3))
      ensures o == Fine ==> Started(trace) == Everything(found) && |trace| == |old(trace)| + |found| + 3
      ensures StepsOf(trace) <= StepsOf(old(trace)) + CaptureSteps(found)
      ensures o == Fine ==> StepsOf(trace) == StepsOf(old(trace)) + CaptureSteps(found)
    {
      ghost var base := StepsOf(trace);
      hide GoingUp, StoppedUp, Started, HostsOf, CollectorsOf, StepsOf;
      o := Rise(found, LoadPoints);
      if o != Fine {
        return;
      }
      o := QuietNetworks(found);
      assert base + [LoadPoints] + QuiesceSteps(found, |found|) == base + ([LoadPoints] + QuiesceSteps(found, |found|));
      Ahead(base, StepsOf(trace), [LoadPoints] + QuiesceSteps(found, |found|), CaptureSteps(found));
      if o != Fine {
        return;
      }
      o := SwitchOn(found);
      TwoOn(base, [LoadPoints] + QuiesceSteps(found, |found|), CaptureOn, WriteOffsets, CaptureSteps(found));
      assert o == Fine ==> StepsOf(trace) == base + CaptureSteps(found);
    }

    /** The capture itself, and the offsets of the hosts' clocks. */
    method SwitchOn(found: seq<Manifest>) returns (o: Outcome)
      requires GoingUp(trace, undo, found)
      modifies this`trace, this`undo
      ensures WentUp(trace, undo, found, o) && (o != Fine ==> FailedAt(o, |old(trace)| + 2))
      ensures o == Fine ==> Started(trace) == Started(old(trace)) + [Capture] && |trace| == |old(trace)| + 2
      ensures StepsOf(trace) == StepsOf(old(trace)) + [CaptureOn]
              || StepsOf(trace) == StepsOf(old(trace)) + [CaptureOn] + [WriteOffsets]
      ensures o == Fine ==> StepsOf(trace) == StepsOf(old(trace)) + [CaptureOn] + [WriteOffsets]
    {
      hide GoingUp, StoppedUp, Started, StepsOf;
      o := Rise(found, CaptureOn);
      if o == Fine {
        o := Rise(found, WriteOffsets);
      }
    }

    method QuietNetworks(found: seq<Manifest>) returns (o: Outcome)
      requires GoingUp(trace, undo, found)
      modifies this`trace, this`undo
      ensures WentUp(trace, undo, found, o) && (o != Fine ==> FailedAt(o, |old(trace)| + |found|))
      ensures o == Fine ==> Started(trace) == Started(old(trace)) && |trace| == |old(trace)| + |found|
      ensures StepsOf(trace) <= StepsOf(old(trace)) + QuiesceSteps(found, |found|)
      ensures o == Fine ==> StepsOf(trace) == StepsOf(old(trace)) + QuiesceSteps(found, |found|)
    {
      ghost var base := StepsOf(trace);
      hide GoingUp, StoppedUp, Started, StepsOf;
      for k := 0 to |found|
        invariant GoingUp(trace, undo, found) && Started(trace) == Started(old(trace))
        invariant |trace| == |old(trace)| + k
        invariant StepsOf(trace) == base + QuiesceSteps(found, k)
      {
        QuiesceGrows(found, k + 1);
        OneOn(base, QuiesceSteps(found, k), Quiesce(found[k].backend), QuiesceSteps(found, |found|));
        o := Rise(found, Quiesce(found[k].backend));
        if o != Fine {
          return;
        }
      }
      o := Fine;
    }

    method ReleaseAgents(found: seq<Manifest>) returns (o: Outcome, started: real)
      requires GoingUp(trace, undo, found) && Started(trace) == Everything(found)
      modifies this`trace, this`undo
      ensures WentUp(trace, undo, found, o) && (o != Fine ==> FailedAt(o, |old(trace)| + |found| + 1))
      ensures o == Fine ==> Started(trace) == Everything(found) && |trace| == |old(trace)| + |found| + 1
      ensures started == clock(|old(trace)|)
      ensures StepsOf(trace) <= StepsOf(old(trace)) + ReleaseSteps(found, |found|)
      ensures o == Fine ==> StepsOf(trace) == StepsOf(old(trace)) + ReleaseSteps(found, |found|)
    {
      ghost var base := StepsOf(trace);
      hide GoingUp, StoppedUp, Started, StepsOf;
      started := clock(|trace|);
      ReleaseGrows(found, 0);
      Within(base, ReleaseSteps(found, 0), ReleaseSteps(found, |found|));
      o := Rise(found, ReadClock);
      if o != Fine {
        return;
      }
      for k := 0 to |found|
        invariant GoingUp(trace, undo, found) && Started(trace) == Everything(found)
        invariant |trace| == |old(trace)| + 1 + k
        invariant StepsOf(trace) == base + ReleaseSteps(found, k)
      {
        ReleaseGrows(found, k + 1);
        OneOn(base, ReleaseSteps(found, k), Release(found[k].backend), ReleaseSteps(found, |found|));
        o := Rise(found, Release(found[k].backend));
        if o != Fine {
          return;
        }
      }
      o := Fine;
    }

    /** The first ``try`` block. */
    method BringUp(found: seq<Manifest>) returns (o: Outcome, started: real)
      requires trace == [] && undo == []
      modifies this`trace, this`undo
      ensures WentUp(trace, undo, found, o) && (o != Fine ==> FailedAt(o, StepsUp(found)))
      ensures o == Fine ==> Started(trace) == Everything(found) && |trace| == StepsUp(found)
      ensures o == Fine ==> started == clock(StepsUp(found) - |found| - 1)
      ensures StepsOf(trace) <= StepsToGo(found) && (o == Fine ==> StepsOf(trace) == StepsToGo(found))
    {
      hide GoingUp, StoppedUp, StepsOf, HostSteps, CollectorSteps, CaptureSteps, ReleaseSteps, HostsOf, CollectorsOf, Started;
      started := 0.0;
      o := HostsUp(found);
      if o != Fine {
        return;
      }
      o := CollectorsOn(found);
      if o != Fine {
        return;
      }
      o := CaptureUp(found);
      if o != Fine {
        return;
      }
      o, started := ReleaseAgents(found);
    }

    /** A step after the way up: it starts nothing. */
    method Try(ghost found: seq<Manifest>, phase: Phase, step: Step) returns (o: Outcome)
      requires PartOn(Event(phase, step, Fine)) == [] && !step.Release? && ReleasedLast(trace, found) && phase != Rising
      modifies this`trace
      ensures o == faults(|old(trace)|) && trace == old(trace) + [Event(phase, step, o)]
      ensures Started(trace) == Started(old(trace)) && TakenDown(trace) == TakenDown(old(trace)) + PartOff(Event(phase, step, o))
      ensures Lost(trace) <==> Lost(old(trace)) || Loses(Event(phase, step, o))
      ensures Broken(trace) <==> Broken(old(trace)) || Breaks(Event(phase, step, o))
      ensures Cut(trace) <==> Cut(old(trace)) || Cuts(Event(phase, step, o))
      ensures Sound(trace) <==> Sound(old(trace)) && Quiet(Event(phase, step, o))
      ensures ReleasedLast(trace, found)
    {
      OneMore(trace, Event(phase, step, faults(|trace|)), found);
      o := Do(phase, step);
    }

    /** The second ``try`` block: ``Interrupt`` if the wait was cut, ``Error`` if an error escapes it. */
    method Wait(ghost found: seq<Manifest>, started: real, duration: real) returns (o: Outcome)
      requires Progresses(clock) && ReleasedLast(trace, found)
      modifies this`trace
      ensures Started(trace) == Started(old(trace)) && TakenDown(trace) == TakenDown(old(trace)) && ReleasedLast(trace, found)
      ensures Lost(trace) <==> Lost(old(trace)) || o == Error
      ensures Cut(trace) <==> Cut(old(trace)) || o == Interrupt
      ensures Broken(trace) <==> Broken(old(trace))
      ensures Sound(trace) <==> Sound(old(trace)) && o != Error
      ensures old(trace) < trace && (o == Fine ==> clock(|trace| - 1) >= started + duration)
      ensures faults(|old(trace)|) == Error ==> o == Error
      ensures After(old(trace), trace)
    {
      hide Started, TakenDown, Lost, Broken, Cut, Sound, ReleasedLast;
      assert Passes(clock, started + duration);
      ghost var n: nat :| PastFrom(clock, started + duration, n);
      ghost var t := trace;
      while true
        invariant Started(trace) == Started(t) && TakenDown(trace) == TakenDown(t) && ReleasedLast(trace, found)
        invariant (Lost(trace) <==> Lost(t)) && (Cut(trace) <==> Cut(t)) && (Broken(trace) <==> Broken(t))
            && (Sound(trace) <==> Sound(t))
        invariant t <= trace && (trace != t ==> faults(|t|) == Fine) && After(t, trace)
        decreases if |trace| < n then n - |trace| else 0
      {
        var left := started + duration - clock(|trace|);
        o := Try(found, Waiting, ReadClock);
        if o != Fine || left <= 0.0 {
          return;
        }
        o := Try(found, Waiting, Sleep);
        if o != Fine {
          return;
        }
      }
    }

    /**
     * What taking a part down does from step ``n`` on: hosts are collected from, then taken down
     * whatever became of that, and their state file dropped if that went well.
     */
    function OffEvents(part: Part, n: nat): seq<Event> {
      match part
      case Hosts(b) =>
        [Event(Falling, Collect(b), faults(n)), Event(Falling, TakeDown(b), faults(n + 1))]
        + if faults(n + 1) == Fine then [Event(Falling, DropState(b), faults(n + 2))] else []
      case Collector(a, b) => [Event(Falling, Detach(a, b), faults(n))]
      case Capture => [Event(Falling, CaptureOff, faults(n))]
    }

    /** One undo entry; ``_down`` for hosts, whose state file goes only once they are down. */
    method TakeOff(ghost found: seq<Manifest>, part: Part) returns (o: Outcome)
      requires ReleasedLast(trace, found)
      modifies this`trace
      ensures Started(trace) == Started(old(trace)) && TakenDown(trace) == TakenDown(old(trace)) + [part]
      ensures ReleasedLast(trace, found) && (Lost(trace) <==> Lost(old(trace))) && (Cut(trace) <==> Cut(old(trace)))
      ensures Broken(old(trace)) || o == Interrupt ==> Broken(trace)
      ensures Sound(trace) <==> Sound(old(trace)) && o == Fine
      ensures trace == old(trace) + OffEvents(part, |old(trace)|)
    {
      hide Started, TakenDown, Lost, Broken, Cut, Sound, ReleasedLast;
      match part
      case Hosts(b) =>
        var collected := Try(found, Falling, Collect(b));
        o := Try(found, Falling, TakeDown(b));
        if o == Fine {
          o := Try(found, Falling, DropState(b));
        }
        if o == Fine {
          o := collected;
        }
      case Collector(a, b) => o := Try(found, Falling, Detach(a, b));
      case Capture => o := Try(found, Falling, CaptureOff);
    }

    /** ``_unwind``: every undo entry in reverse, whichever of them fail; only an interrupt stops it. */
    method Unwind(ghost found: seq<Manifest>) returns (o: Outcome)
      requires ReleasedLast(trace, found) && undo == Started(trace) && TakenDown(trace) == []
      modifies this`trace, this`undo
      ensures Started(trace) == old(undo) && ReleasedLast(trace, found)
      ensures (Lost(trace) <==> Lost(old(trace))) && (Cut(trace) <==> Cut(old(trace)))
      ensures TakenDown(trace) <= Reverse(Started(trace))
      ensures o != Interrupt ==> TakenDown(trace) == Reverse(Started(trace)) && undo == []
      ensures Broken(old(trace)) || o == Interrupt ==> Broken(trace)
      ensures Sound(trace) <==> Sound(old(trace)) && o == Fine
      ensures After(old(trace), trace)
    {
      hide Started, TakenDown, Lost, Broken, Cut, Sound, ReleasedLast;
      ghost var t := trace;
      var k := |undo|;
      o := Fine;
      while k > 0
        invariant undo == old(undo) == Started(trace) && 0 <= k <= |undo| && o != Interrupt
        invariant TakenDown(trace) == Reverse(undo)[..|undo| - k]
        invariant ReleasedLast(trace, found) && (Lost(trace) <==> Lost(t)) && (Cut(trace) <==> Cut(t)) && (Broken(t) ==> Broken(trace))
        invariant Sound(trace) <==> Sound(t) && o == Fine
        invariant After(t, trace)
      {
        k := k - 1;
        var taken := TakeOff(found, undo[k]);
        assert Reverse(undo)[..|undo| - k] == Reverse(undo)[..|undo| - k - 1] + [undo[k]];
        if taken == Interrupt {
          o := Interrupt;
          return;
        }
        o := if o == Fine then taken else o;
      }
      undo := [];
    }

    /** A run from the release of its agents: waited out or cut, timed, taken down and recorded. */
    method WaitAndFall(found: seq<Manifest>, started: real, duration: real) returns (r: Result)
      requires Progresses(clock) && ReleasedLast(trace, found) && undo == Started(trace) == Everything(found) && TakenDown(trace) == []
      requires Sound(trace) && !Lost(trace) && !Broken(trace) && !Cut(trace)
      modifies this`trace, this`undo
      ensures After(old(trace), trace) && ReleasedLast(trace, found) && Started(trace) == Everything(found)
      ensures !r.Refused? && (r.Recorded? <==> Sound(trace))
      ensures TakenDown(trace) <= Reverse(Started(trace))
      ensures !Broken(trace) ==> (TakenDown(trace) == Reverse(Started(trace)) <==> !Lost(trace))
      ensures Lost(trace) ==> TakenDown(trace) == []
      ensures r.Recorded? ==> r.started == started && TimedAt(old(trace), trace, r)
      ensures r.Recorded? && Monotone(clock) && !Cut(trace) ==> r.ran >= duration
      ensures faults(|old(trace)|) == Error ==> Lost(trace)
    {
      hide Started, TakenDown, Lost, Broken, Cut, Sound, ReleasedLast, Everything;
      NonEmpty(found);
      var o := Wait(found, started, duration);
      if o == Error {
        return Raised(Error);
      }
      ghost var timing := |trace|;
      var ran := clock(|trace|) - started;
      o := Try(found, Timing, ReadClock);
      if o != Fine {
        return Raised(o);
      }
      o := Unwind(found);
      if o != Fine {
        return Raised(o);
      }
      o := Try(found, Recording, WriteRun);
      if o != Fine {
        return Raised(o);
      }
      r := Recorded(started, ran);
      assert trace[timing].phase == Timing;
    }

    /** The time recorded is from the start to a reading of the clock after the wait. */
    ghost predicate TimedAt(t0: Trace, t: Trace, r: Result)
      requires r.Recorded?
    {
      exists k: nat :: |t0| < k < |t| && t[k].phase == Timing && r.ran == clock(k) - r.started
    }

    /**
     * ``run_scenario``, ``ready`` saying whether a manifest was found and everything it asks for is
     * installed. The run is recorded exactly when nothing raised but an interrupt of the wait; what was started is taken
     * down once, in reverse, exactly when no error escaped the wait.
     */
    method RunScenario(found: seq<Manifest>, duration: real, ready: bool) returns (r: Result, ghost up: nat)
      requires trace == [] && undo == [] && Progresses(clock)
      modifies this`trace, this`undo
      ensures r.Refused? <==> !ready
      ensures r.Refused? ==> trace == []
      ensures up <= |trace| && StepsOf(trace[..up]) <= StepsToGo(found) && After(trace[..up], trace)
      ensures ready && AllFine(trace[..up]) ==> StepsOf(trace[..up]) == StepsToGo(found)
      ensures ready ==> (r.Recorded? <==> Sound(trace))
      ensures TakenDown(trace) <= Reverse(Started(trace))
      ensures !Broken(trace) ==> (TakenDown(trace) == Reverse(Started(trace)) <==> !Lost(trace))
      ensures Lost(trace) ==> TakenDown(trace) == [] && Started(trace) == Everything(found)
      ensures ReleasedLast(trace, found)
      ensures r.Recorded? ==>
        r.started == clock(StepsUp(found) - |found| - 1) && TimedAt(trace[..up], trace, r)
      ensures r.Recorded? && Monotone(clock) && !Cut(trace) ==> r.ran >= duration
      ensures ready && FaultOnlyAt(StepsUp(found)) ==> Lost(trace)
    {
      hide Started, TakenDown, Lost, Broken, Cut, Sound, ReleasedLast, GoingUp, StoppedUp, StepsOf, StepsToGo, AllFine;
      up := 0;
      if !ready {
        Idle(found);
        NoSteps(found);
        r := Refused;
        return;
      }
      var o, started := BringUp(found);
      up := |trace|;
      ghost var t := trace;
      assert t[..up] == t;
      UpSummary(trace, undo, found, o);
      if o != Fine {
        var u := Unwind(found);
        assert trace[..up] == t;
        r := Raised(if u == Interrupt then Interrupt else o);
        return;
      }
      r := WaitAndFall(found, started, duration);
      assert trace[..up] == t;
    }

    /** The first time the clock is read after the agents are released, it raises an error; nothing does before. */
    ghost predicate FaultOnlyAt(n: nat) {
      faults(n) == Error && forall k: nat :: k < n ==> faults(k) == Fine
    }
  }

  lemma NoSteps(found: seq<Manifest>)
    ensures StepsOf([]) <= StepsToGo(found)
  {
  }

  lemma Idle(found: seq<Manifest>)
    ensures !Lost([]) && !Broken([]) && Sound([]) && ReleasedLast([], found) && Started([]) == [] && TakenDown([]) == []
  {
  }

  lemma {:induction false} AttachmentsGrow(found: seq<Manifest>, k: nat)
    requires k <= |found|
    ensures Attachments(found, k) <= Attachments(found, |found|)
    decreases |found| - k
  {
    if k < |found| {
      AttachmentsGrow(found, k + 1);
    }
  }

  lemma NonEmpty(found: seq<Manifest>)
    ensures Reverse(Everything(found)) != []
  {
    assert |Everything(found)| > 0;
  }
}
