/**
 * From invocations, the kernel's records and a sensor's connections to labels and flags. The
 * join's indexes and memo table are proved to give the plain definitions; times are exact.
 */
module AssembleJoin {
  import opened Wrappers
  import opened Ordering
  import Sorting

  datatype Principal = Principal(platform: string, principal: string)

  datatype FiveTuple = FiveTuple(origAddr: string, origPort: int, respAddr: string, respPort: int, proto: string)

  datatype Flow = Flow(sensor: string, capturePoint: string, native: string)

  datatype Connection = Connection(flow: Flow, five: FiveTuple, start: real)

  datatype Record = Record(instance: string, principal: Principal, five: FiveTuple, start: real, end: real, tgid: int)

  datatype LabelKey = LabelKey(instance: string, behaviour: string, action: string, invocation: string)

  /** ``offset`` moves ``start`` and ``end`` onto the capture host's clock. */
  datatype Invocation = Invocation(key: LabelKey, principal: Principal, start: real, end: real, succeeded: bool, offset: real)

  datatype Label = Label(flow: Flow, key: LabelKey, signature: string, succeeded: bool, principal: Principal, observed: real)

  datatype Reason = NoAttribution | NoInvocation | NoConnection

  datatype Flag =
    | Unattributed(reason: Reason, at: real, flow: Flow, five: FiveTuple)
    | Failed(reason: Reason, at: real, invocation: string)

  type SignatureKey = (string, string, string)

  datatype Inputs = Inputs(
    connections: seq<Connection>,
    records: seq<Record>,
    ran: seq<Invocation>,
    signatures: map<SignatureKey, string>,
    instanceOf: map<string, string>,
    tolerance: real)

  // ----- who owns a record

  /** ``str(n)``. */
  function Str(n: int): string {
    if n < 0 then "-" + Decimal(-n) else Decimal(n)
  }

  /** A thread group's number as text. */
  lemma StrOf()
    ensures Str(0) == "0" && Str(7) == "7" && Str(41) == "41" && Str(1000) == "1000" && Str(-12) == "-12"
  {
    assert Decimal(41) == Decimal(4) + [Digit(1)] && Decimal(12) == Decimal(1) + [Digit(2)];
    assert Decimal(1000) == Decimal(100) + [Digit(0)] && Decimal(100) == Decimal(10) + [Digit(0)] && Decimal(10) == Decimal(1) + [Digit(0)];
  }

  /** ``s.partition(":")`` without its separator. */
  function Partition(s: string): (string, string) {
    if s == "" then ("", "")
    else if s[0] == ':' then ("", s[1..])
    else
      var (before, after) := Partition(s[1..]);
      ([s[0]] + before, after)
  }

  predicate Within(v: Invocation, r: Record, tolerance: real) {
    v.start + v.offset - tolerance <= r.start <= v.end + v.offset + tolerance
  }

  /** ``owns``. */
  predicate Owns(v: Invocation, r: Record, tolerance: real) {
    if v.key.instance != r.instance then false
    else if v.principal != r.principal then
      var (kind, n) := Partition(v.principal.principal);
      if v.principal.platform != r.principal.platform || kind != "pid" || r.tgid == 0 || Str(r.tgid) != n then false
      else Within(v, r, tolerance)
    else Within(v, r, tolerance)
  }

  lemma {:induction false} PartitionAt(s: string, kind: string, n: string)
    requires ':' !in kind && n != ""
    ensures Partition(s) == (kind, n) <==> s == kind + ":" + n
    decreases s
  {
    if s != "" && s[0] != ':' {
      if kind == "" {
        assert Partition(s).0 != "";
      } else {
        PartitionAt(s[1..], kind[1..], n);
        assert kind == [kind[0]] + kind[1..];
        if s[0] == kind[0] {
          assert s == [s[0]] + s[1..];
          assert s == kind + ":" + n <==> s[1..] == kind[1..] + ":" + n by {
            if s == kind + ":" + n {
              assert s[1..] == kind[1..] + ":" + n;
            }
          }
        }
      }
    } else if s != "" {
      assert Partition(s) == ("", s[1..]);
      assert s == [s[0]] + s[1..];
    }
  }

  /** A ``pid`` principal owns what its thread group did; any other only its very own. */
  lemma OwnsByPrincipal(v: Invocation, r: Record, tolerance: real)
    ensures Owns(v, r, tolerance) <==>
      && v.key.instance == r.instance
      && v.start + v.offset - tolerance <= r.start && r.start <= v.end + v.offset + tolerance
      && (v.principal == r.principal
          || (v.principal == Principal(r.principal.platform, "pid:" + Str(r.tgid)) && r.tgid != 0))
  {
    PartitionAt(v.principal.principal, "pid", Str(r.tgid));
    assert "pid" + ":" + Str(r.tgid) == "pid:" + Str(r.tgid);
  }

  // ----- the plain definitions

  function Gap(r: Record, c: Connection): real {
    if r.start >= c.start then r.start - c.start else c.start - r.start
  }

  /** The kernel saw this connection from its originator, about then. */
  predicate Near(x: Inputs, c: Connection, i: nat) {
    && c.five.origAddr in x.instanceOf && i < |x.records|
    && x.records[i].instance == x.instanceOf[c.five.origAddr] && x.records[i].five == c.five
    && Gap(x.records[i], c) <= x.tolerance
  }

  /** The nearest record in time, the first of equals. */
  ghost predicate IsPick(x: Inputs, c: Connection, i: nat) {
    && Near(x, c, i)
    && forall j: nat :: Near(x, c, j) ==>
         Gap(x.records[i], c) < Gap(x.records[j], c) || (Gap(x.records[i], c) == Gap(x.records[j], c) && i <= j)
  }

  /** The first invocation that owns a record. */
  ghost predicate IsOwner(x: Inputs, i: nat, v: nat) {
    && i < |x.records| && v < |x.ran| && Owns(x.ran[v], x.records[i], x.tolerance)
    && forall w :: 0 <= w < v ==> !Owns(x.ran[w], x.records[i], x.tolerance)
  }

  ghost function Pick(x: Inputs, c: Connection): Option<nat> {
    if i: nat :| IsPick(x, c, i) then Some(i) else None
  }

  ghost function Owner(x: Inputs, i: nat): Option<nat> {
    if v: nat :| IsOwner(x, i, v) then Some(v) else None
  }

  lemma PickIs(x: Inputs, c: Connection, i: nat)
    requires IsPick(x, c, i)
    ensures Pick(x, c) == Some(i)
  {
    var j := Pick(x, c).value;
    assert IsPick(x, c, j);
  }

  lemma OwnerIs(x: Inputs, i: nat, v: nat)
    requires IsOwner(x, i, v)
    ensures Owner(x, i) == Some(v)
  {
    var w := Owner(x, i).value;
    assert IsOwner(x, i, w);
  }

  /** Record ``i`` started no further from the connection than ``j``, either way. */
  ghost predicate NoFurther(x: Inputs, c: Connection, i: nat, j: nat)
    requires i < |x.records| && j < |x.records|
  {
    var a, b := x.records[i].start - c.start, x.records[j].start - c.start;
    (-b <= a <= b) || (b <= a <= -b)
  }

  /**
   * A record is near a connection when it is the originator's, of the same five-tuple, and started within
   * the tolerance before or after it; picked is the one that started closest, the first of those.
   */
  lemma PickedIsClosest(x: Inputs, c: Connection, i: nat)
    ensures Near(x, c, i) <==>
      && c.five.origAddr in x.instanceOf && i < |x.records| && x.records[i].instance == x.instanceOf[c.five.origAddr]
      && x.records[i].five == c.five && c.start - x.tolerance <= x.records[i].start <= c.start + x.tolerance
    ensures Pick(x, c) == Some(i) <==>
      && Near(x, c, i)
      && forall j: nat :: Near(x, c, j) ==> NoFurther(x, c, i, j) && (NoFurther(x, c, j, i) ==> i <= j)
  {
    if IsPick(x, c, i) {
      PickIs(x, c, i);
    }
    if Near(x, c, i) && forall j: nat :: Near(x, c, j) ==> NoFurther(x, c, i, j) && (NoFurther(x, c, j, i) ==> i <= j) {
      assert IsPick(x, c, i);
    }
  }

  /** What becomes of a connection: the invocation that made it, by the record that says so, or why not. */
  datatype Verdict = Unseen | Unowned(record: nat) | Made(record: nat, maker: nat)

  ghost function VerdictOf(x: Inputs, c: Connection): (r: Verdict)
    ensures !r.Unseen? ==> r.record < |x.records|
    ensures r.Made? ==> r.maker < |x.ran|
  {
    match Pick(x, c)
    case None => Unseen
    case Some(i) =>
      assert IsPick(x, c, i);
      match Owner(x, i)
      case None => Unowned(i)
      case Some(v) => assert IsOwner(x, i, v); Made(i, v)
  }

  function SignedAs(v: Invocation): SignatureKey {
    (v.key.instance, v.key.behaviour, v.key.action)
  }

  /** A label is due whose state has no signature. */
  ghost predicate Unsigned(x: Inputs, c: Connection) {
    VerdictOf(x, c).Made? && SignedAs(x.ran[VerdictOf(x, c).maker]) !in x.signatures
  }

  function LabelFor(c: Connection, v: Invocation, r: Record, signature: string): Label {
    Label(c.flow, v.key, signature, v.succeeded, r.principal, r.start)
  }

  /** The labels of the first ``n`` connections, in their order. */
  ghost function Labels(x: Inputs, n: nat): seq<Label>
    requires n <= |x.connections|
  {
    if n == 0 then []
    else
      var c := x.connections[n - 1];
      var before := Labels(x, n - 1);
      match VerdictOf(x, c)
      case Made(i, v) =>
        var key := SignedAs(x.ran[v]);
        before + [LabelFor(c, x.ran[v], x.records[i], if key in x.signatures then x.signatures[key] else "")]
      case _ => before
  }

  /** The flags of the first ``n`` connections. */
  ghost function ConnectionFlags(x: Inputs, n: nat): seq<Flag>
    requires n <= |x.connections|
  {
    if n == 0 then []
    else
      var c := x.connections[n - 1];
      var before := ConnectionFlags(x, n - 1);
      match VerdictOf(x, c)
      case Unseen => before + [Unattributed(NoAttribution, c.start, c.flow, c.five)]
      case Unowned(_) => before + [Unattributed(NoInvocation, c.start, c.flow, c.five)]
      case Made(_, _) => before
  }

  /** Some connection was matched to this record. */
  ghost predicate Seen(x: Inputs, i: nat) {
    exists k :: 0 <= k < |x.connections| && Pick(x, x.connections[k]) == Some(i)
  }

  ghost predicate Mine(x: Inputs, v: nat, i: nat) {
    v < |x.ran| && i < |x.records| && Owns(x.ran[v], x.records[i], x.tolerance)
  }

  /** An invocation's flag, if it failed. */
  ghost function Failure(x: Inputs, v: nat): Option<Flag>
    requires v < |x.ran|
  {
    var at := x.ran[v].start + x.ran[v].offset;
    if forall i: nat :: !Mine(x, v, i) then Some(Failed(NoAttribution, at, x.ran[v].key.invocation))
    else if forall i: nat :: Mine(x, v, i) ==> !Seen(x, i) then Some(Failed(NoConnection, at, x.ran[v].key.invocation))
    else None
  }

  ghost function Failures(x: Inputs, n: nat): seq<Flag>
    requires n <= |x.ran|
  {
    if n == 0 then []
    else
      match Failure(x, n - 1)
      case None => Failures(x, n - 1)
      case Some(f) => Failures(x, n - 1) + [f]
  }

  // ----- what the definitions promise

  /** Every connection has exactly one label or one unattributed flag. */
  lemma {:induction false} OneEach(x: Inputs, n: nat)
    requires n <= |x.connections|
    ensures |Labels(x, n)| + |ConnectionFlags(x, n)| == n
  {
    if n > 0 {
      OneEach(x, n - 1);
    }
  }

  /**
   * What a label says: connection ``k``'s flow, made by its maker's invocation, with that invocation's
   * outcome, seen from the principal and at the time of the record that says so.
   */
  ghost predicate SaysOf(x: Inputs, k: nat, l: Label)
    requires k < |x.connections| && VerdictOf(x, x.connections[k]).Made?
  {
    var c, r, v := x.connections[k], x.records[VerdictOf(x, x.connections[k]).record], x.ran[VerdictOf(x, x.connections[k]).maker];
    && l.flow == c.flow && l.key == v.key && (l.succeeded <==> v.succeeded) && l.principal == r.principal && l.observed == r.start
    && var signed := (v.key.instance, v.key.behaviour, v.key.action);
       signed in x.signatures ==> l.signature == x.signatures[signed]
  }

  /** Each connection whose maker is known has a label that says so, after those of the connections before it. */
  lemma {:induction false} LabelAt(x: Inputs, n: nat, k: nat)
    requires k < n <= |x.connections| && VerdictOf(x, x.connections[k]).Made?
    ensures |Labels(x, k)| < |Labels(x, n)| && SaysOf(x, k, Labels(x, n)[|Labels(x, k)|])
  {
    hide SaysOf, VerdictOf;
    if k < n - 1 {
      LabelAt(x, n - 1, k);
    } else {
      LabelNext(x, k);
    }
  }

  lemma LabelNext(x: Inputs, k: nat)
    requires k < |x.connections| && VerdictOf(x, x.connections[k]).Made?
    ensures |Labels(x, k + 1)| == |Labels(x, k)| + 1 && SaysOf(x, k, Labels(x, k + 1)[|Labels(x, k)|])
  {
    hide Owner, Pick;
  }

  /** Every label is some connection's, and says what it should. */
  lemma {:induction false} LabelSays(x: Inputs, n: nat, m: nat) returns (k: nat)
    requires n <= |x.connections| && m < |Labels(x, n)|
    ensures k < n && VerdictOf(x, x.connections[k]).Made? && |Labels(x, k)| == m && SaysOf(x, k, Labels(x, n)[m])
  {
    hide SaysOf, VerdictOf;
    k := n - 1;
    if m < |Labels(x, n - 1)| {
      k := LabelSays(x, n - 1, m);
    } else {
      LabelNext(x, k);
    }
  }

  ghost predicate Labelled(x: Inputs, v: nat) {
    exists k :: 0 <= k < |x.connections| && VerdictOf(x, x.connections[k]).Made? && VerdictOf(x, x.connections[k]).maker == v
  }

  ghost predicate OneOwner(x: Inputs) {
    forall i: nat, v, w :: Mine(x, v, i) && Mine(x, w, i) ==> v == w
  }

  /** An earlier invocation owns the record too, so it has it. */
  ghost predicate Taken(x: Inputs, v: nat, i: nat) {
    exists w :: 0 <= w < v && Mine(x, w, i)
  }

  /** Some connection was matched to a record invocation ``v`` owns. */
  ghost predicate Shown(x: Inputs, v: nat) {
    exists i: nat :: Mine(x, v, i) && Seen(x, i)
  }

  lemma NothingTaken(x: Inputs, v: nat, i: nat)
    requires OneOwner(x) && Mine(x, v, i)
    ensures !Taken(x, v, i)
  {
  }

  lemma FirstIsOwner(x: Inputs, v: nat, i: nat)
    ensures IsOwner(x, i, v) <==> Mine(x, v, i) && !Taken(x, v, i)
  {
    hide Owns;
    if Mine(x, v, i) {
      assert forall w :: 0 <= w < v ==> (Owns(x.ran[w], x.records[i], x.tolerance) <==> Mine(x, w, i));
    }
  }

  /** An invocation has a label exactly when a connection was matched to a record of its own no earlier one has. */
  lemma LabelledBy(x: Inputs, v: nat)
    ensures Labelled(x, v) <==> exists i: nat :: Mine(x, v, i) && Seen(x, i) && !Taken(x, v, i)
  {
    hide Owns, Mine, Taken;
    if Labelled(x, v) {
      var k :| 0 <= k < |x.connections| && VerdictOf(x, x.connections[k]).Made? && VerdictOf(x, x.connections[k]).maker == v;
      var i := VerdictOf(x, x.connections[k]).record;
      assert IsOwner(x, i, v);
      FirstIsOwner(x, v, i);
      assert Seen(x, i);
    }
    if i: nat :| Mine(x, v, i) && Seen(x, i) && !Taken(x, v, i) {
      var k :| 0 <= k < |x.connections| && Pick(x, x.connections[k]) == Some(i);
      FirstIsOwner(x, v, i);
      OwnerIs(x, i, v);
      assert VerdictOf(x, x.connections[k]) == Made(i, v);
    }
  }

  /** An invocation with a label is never flagged failed. */
  lemma LabelledIsShown(x: Inputs, v: nat)
    requires Labelled(x, v)
    ensures v < |x.ran| && Failure(x, v).None?
  {
    hide Owns;
    LabelledBy(x, v);
  }

  /**
   * An invocation is flagged failed exactly when no connection was labelled with it, unless every
   * record of its own that a connection was matched to is an earlier invocation's as well, and there is one.
   */
  lemma FailedIsUnlabelled(x: Inputs, v: nat)
    requires v < |x.ran|
    ensures (Failure(x, v).Some? <==> !Labelled(x, v))
      <==> !(Shown(x, v) && forall i: nat :: Mine(x, v, i) && Seen(x, i) ==> Taken(x, v, i))
    ensures OneOwner(x) ==> (Failure(x, v).Some? <==> !Labelled(x, v))
  {
    hide Owns, Taken, Seen;
    LabelledBy(x, v);
    if OneOwner(x) && Failure(x, v).None? {
      var i: nat :| Mine(x, v, i) && Seen(x, i);
      NothingTaken(x, v, i);
    }
  }

  /** One record, one connection matched to it, and two invocations with the principal it was seen from. */
  function Shared(first: real, tolerance: real): Inputs {
    var host, five := "ws", FiveTuple("10.0.0.2", 40000, "10.0.0.80", 80, "tcp");
    var principal := Principal("linux", "cgroup:7");
    Inputs(
      [Connection(Flow("zeek", "lan", "C1"), five, 100.0)],
      [Record(host, principal, five, 100.0, 100.0, 0)],
      [Invocation(LabelKey(host, "browse", "get", "ws/browse#1"), principal, first, first, true, 0.0),
       Invocation(LabelKey(host, "browse", "get", "ws/browse#2"), principal, 100.0, 101.0, true, 0.0)],
      map[(host, "browse", "get") := "http.get"], map["10.0.0.2" := host], tolerance)
  }

  lemma SharedVerdict(first: real, tolerance: real)
    requires 0.0 <= tolerance
    ensures var x := Shared(first, tolerance);
            VerdictOf(x, x.connections[0]) == Made(0, if first - tolerance <= 100.0 <= first + tolerance then 0 else 1)
  {
    var x := Shared(first, tolerance);
    assert IsPick(x, x.connections[0], 0);
    PickIs(x, x.connections[0], 0);
    var v := if first - tolerance <= 100.0 <= first + tolerance then 0 else 1;
    assert IsOwner(x, 0, v);
    OwnerIs(x, 0, v);
  }

  /** With two owners an invocation may be neither flagged nor labelled. */
  lemma SharedRecordHidesFailure()
    ensures var x := Shared(100.0, 1.0);
            !OneOwner(x) && Failure(x, 1).None? && !Labelled(x, 1)
  {
    var x := Shared(100.0, 1.0);
    SharedVerdict(100.0, 1.0);
    assert Mine(x, 0, 0) && Mine(x, 1, 0);
    assert Pick(x, x.connections[0]) == Some(0);
    assert Seen(x, 0);
  }

  // ----- tolerance

  lemma OwnsMore(v: Invocation, r: Record, t: real, t': real)
    requires t <= t' && Owns(v, r, t)
    ensures Owns(v, r, t')
  {
  }

  lemma PickStays(x: Inputs, c: Connection, t': real)
    requires x.tolerance <= t' && Pick(x, c).Some?
    ensures Pick(x.(tolerance := t'), c) == Pick(x, c)
  {
    var y, i := x.(tolerance := t'), Pick(x, c).value;
    assert IsPick(x, c, i);
    forall j: nat | Near(y, c, j)
      ensures Gap(x.records[i], c) < Gap(x.records[j], c) || (Gap(x.records[i], c) == Gap(x.records[j], c) && i <= j)
    {
      if Gap(x.records[j], c) <= x.tolerance {
        assert Near(x, c, j);
      }
    }
    PickIs(y, c, i);
  }

  /**
   * Raising the tolerance keeps a label exactly when no earlier invocation comes to own its record,
   * and so every label where no record has two owners at the larger one.
   */
  lemma ToleranceKeepsLabels(x: Inputs, c: Connection, t': real)
    requires x.tolerance <= t' && VerdictOf(x, c).Made?
    ensures var y, r := x.(tolerance := t'), VerdictOf(x, c);
            && (VerdictOf(y, c) == r <==> !Taken(y, r.maker, r.record))
            && (OneOwner(y) ==> VerdictOf(y, c) == r)
  {
    hide Owns, Taken, IsPick, Near;
    var y, i, v := x.(tolerance := t'), VerdictOf(x, c).record, VerdictOf(x, c).maker;
    PickStays(x, c, t');
    assert IsOwner(x, i, v);
    OwnsMore(x.ran[v], x.records[i], x.tolerance, t');
    FirstIsOwner(y, v, i);
    if OneOwner(y) {
      NothingTaken(y, v, i);
    }
    if IsOwner(y, i, v) {
      OwnerIs(y, i, v);
    }
  }

  /** With two owners a larger tolerance may hand a label to another invocation. */
  lemma SharedRecordMovesLabel()
    ensures var x := Shared(97.0, 1.0);
            !OneOwner(x.(tolerance := 4.0)) && VerdictOf(x, x.connections[0]) == Made(0, 1)
            && VerdictOf(x.(tolerance := 4.0), x.connections[0]) == Made(0, 0)
  {
    var y := Shared(97.0, 4.0);
    SharedVerdict(97.0, 1.0);
    SharedVerdict(97.0, 4.0);
    assert Shared(97.0, 1.0).(tolerance := 4.0) == y;
    assert Mine(y, 0, 0) && Mine(y, 1, 0);
  }

  // ----- clocks

  /** ``on_capture_clock``: ``None`` where a host's offset is missing. */
  function OnCaptureClock(offsets: map<string, real>, ran: seq<Invocation>,
        records: seq<Record>): Option<(seq<Invocation>, seq<Record>)> {
    if (exists k :: 0 <= k < |ran| && ran[k].key.instance !in offsets)
       || (exists k :: 0 <= k < |records| && records[k].instance !in offsets)
    then None
    else
      Some((seq(|ran|, k requires 0 <= k < |ran| && ran[k].key.instance in offsets => ran[k].(offset := offsets[ran[k].key.instance])),
            seq(|records|, k requires 0 <= k < |records| && records[k].instance in offsets => Moved(records[k],
                  offsets[records[k].instance]))))
  }

  function Moved(r: Record, shift: real): Record {
    r.(start := r.start + shift, end := r.end + shift)
  }

  function MovedRun(v: Invocation, shift: real): Invocation {
    v.(start := v.start + shift, end := v.end + shift)
  }

  function MovedRuns(ran: seq<Invocation>, shift: string -> real): (r: seq<Invocation>)
    ensures |r| == |ran|
  {
    seq(|ran|, k requires 0 <= k < |ran| => MovedRun(ran[k], -shift(ran[k].key.instance)))
  }

  function MovedRecords(records: seq<Record>, shift: string -> real): (r: seq<Record>)
    ensures |r| == |records|
  {
    seq(|records|, k requires 0 <= k < |records| => Moved(records[k], -shift(records[k].instance)))
  }

  /** Runs that differ only by where each host's clock stands: everything the join reads of them agrees. */
  ghost predicate SameOnCapture(a: seq<Invocation>, b: seq<Invocation>) {
    |a| == |b| && forall k :: 0 <= k < |a| ==>
      && a[k].key == b[k].key && a[k].principal == b[k].principal && a[k].succeeded == b[k].succeeded
      && a[k].start + a[k].offset == b[k].start + b[k].offset && a[k].end + a[k].offset == b[k].end + b[k].offset
  }

  /**
   * Stamping each host's invocations and records ``shift(host)`` earlier and giving the host that much
   * more offset changes nothing on the capture host's clock.
   */
  lemma ClocksCancel(offsets: map<string, real>, offsets': map<string, real>, shift: string -> real,
                     ran: seq<Invocation>, records: seq<Record>)
    requires offsets'.Keys == offsets.Keys && forall h :: h in offsets ==> offsets'[h] == offsets[h] + shift(h)
    requires OnCaptureClock(offsets, ran, records).Some?
    ensures var a := OnCaptureClock(offsets, ran, records);
            var b := OnCaptureClock(offsets', MovedRuns(ran, shift), MovedRecords(records, shift));
            b.Some? && SameOnCapture(a.value.0, b.value.0) && a.value.1 == b.value.1
  {
  }

  lemma OwnsOnCapture(v: Invocation, w: Invocation, r: Record, tolerance: real)
    requires v.key == w.key && v.principal == w.principal
    requires v.start + v.offset == w.start + w.offset && v.end + v.offset == w.end + w.offset
    ensures Owns(v, r, tolerance) <==> Owns(w, r, tolerance)
  {
    OwnsByPrincipal(v, r, tolerance);
    OwnsByPrincipal(w, r, tolerance);
  }

  lemma SameVerdict(x: Inputs, ran: seq<Invocation>, c: Connection)
    requires SameOnCapture(x.ran, ran)
    ensures VerdictOf(x.(ran := ran), c) == VerdictOf(x, c)
  {
    var y := x.(ran := ran);
    assert forall i: nat :: Near(x, c, i) <==> Near(y, c, i);
    if i: nat :| IsPick(x, c, i) {
      assert IsPick(y, c, i);
      PickIs(x, c, i);
      PickIs(y, c, i);
      SameOwner(x, ran, i);
    } else if i: nat :| IsPick(y, c, i) {
      assert IsPick(x, c, i);
    }
  }

  lemma SameOwner(x: Inputs, ran: seq<Invocation>, i: nat)
    requires SameOnCapture(x.ran, ran)
    ensures Owner(x.(ran := ran), i) == Owner(x, i)
  {
    var y := x.(ran := ran);
    if i < |x.records| {
      forall v | 0 <= v < |ran|
        ensures Owns(ran[v], x.records[i], x.tolerance) <==> Owns(x.ran[v], x.records[i], x.tolerance)
      {
        OwnsOnCapture(x.ran[v], ran[v], x.records[i], x.tolerance);
      }
    }
    if v: nat :| IsOwner(x, i, v) {
      assert IsOwner(y, i, v);
      OwnerIs(x, i, v);
      OwnerIs(y, i, v);
    } else if v: nat :| IsOwner(y, i, v) {
      assert IsOwner(x, i, v);
    }
  }

  lemma SameFailure(x: Inputs, ran: seq<Invocation>, v: nat)
    requires SameOnCapture(x.ran, ran) && v < |ran|
    ensures Failure(x.(ran := ran), v) == Failure(x, v)
  {
    var y := x.(ran := ran);
    forall i: nat
      ensures Mine(y, v, i) <==> Mine(x, v, i)
      ensures Seen(y, i) <==> Seen(x, i)
    {
      if i < |x.records| {
        OwnsOnCapture(x.ran[v], ran[v], x.records[i], x.tolerance);
      }
      forall k | 0 <= k < |x.connections|
        ensures Pick(y, x.connections[k]) == Pick(x, x.connections[k])
      {
        SamePick(x, ran, x.connections[k]);
      }
    }
  }

  lemma SamePick(x: Inputs, ran: seq<Invocation>, c: Connection)
    ensures Pick(x.(ran := ran), c) == Pick(x, c)
  {
    var y := x.(ran := ran);
    assert forall i: nat :: Near(x, c, i) <==> Near(y, c, i);
    assert forall i: nat :: IsPick(x, c, i) <==> IsPick(y, c, i);
    if i: nat :| IsPick(x, c, i) {
      PickIs(x, c, i);
      PickIs(y, c, i);
    }
  }

  /** The join ignores host clocks: labels and flags are the same. */
  lemma {:induction false} SameLabels(x: Inputs, ran: seq<Invocation>, n: nat)
    requires SameOnCapture(x.ran, ran) && n <= |x.connections|
    ensures Labels(x.(ran := ran), n) == Labels(x, n) && ConnectionFlags(x.(ran := ran), n) == ConnectionFlags(x, n)
  {
    hide VerdictOf;
    if n > 0 {
      SameLabels(x, ran, n - 1);
      SameVerdict(x, ran, x.connections[n - 1]);
    }
  }

  lemma {:induction false} SameFailures(x: Inputs, ran: seq<Invocation>, n: nat)
    requires SameOnCapture(x.ran, ran) && n <= |ran|
    ensures Failures(x.(ran := ran), n) == Failures(x, n)
  {
    hide Failure;
    if n > 0 {
      SameFailures(x, ran, n - 1);
      SameFailure(x, ran, n - 1);
    }
  }

  // ----- the order of flags

  predicate BeforeList(a: seq<string>, b: seq<string>) {
    b != [] && (a == [] || Before(a[0], b[0]) || (a[0] == b[0] && BeforeList(a[1..], b[1..])))
  }

  lemma BeforeListTotal(a: seq<string>, b: seq<string>)
    ensures BeforeList(a, b) ==> !BeforeList(b, a)
  {
    if a != [] && b != [] {
      BeforeListTotal(a[1..], b[1..]);
      BeforeIrreflexive(a[0]);
      if Before(a[0], b[0]) && Before(b[0], a[0]) {
        BeforeTransitive(a[0], b[0], a[0]);
      }
    }
  }

  lemma NotAfterTransitive(a: seq<string>, b: seq<string>, c: seq<string>)
    requires !BeforeList(b, a) && !BeforeList(c, b)
    ensures !BeforeList(c, a)
  {
    if a != [] && b != [] && c != [] {
      BeforeConnected(a[0], b[0]);
      BeforeConnected(b[0], c[0]);
      BeforeIrreflexive(a[0]);
      if Before(c[0], a[0]) {
        if Before(a[0], b[0]) {
          BeforeTransitive(c[0], a[0], b[0]);
        }
      }
      if a[0] == b[0] && b[0] == c[0] {
        NotAfterTransitive(a[1..], b[1..], c[1..]);
      }
    }
  }

  function ReasonText(r: Reason): string {
    match r
    case NoAttribution => "no_attribution"
    case NoInvocation => "no_invocation"
    case NoConnection => "no_connection"
  }

  function SortText(f: Flag): seq<string> {
    match f
    case Unattributed(reason, _, flow, _) => ["unattributed", ReasonText(reason), "", flow.sensor, flow.capturePoint, flow.native]
    case Failed(reason, _, invocation) => ["failed", ReasonText(reason), invocation, "", "", ""]
  }

  predicate NotAfter(f: Flag, g: Flag) {
    f.at < g.at || (f.at == g.at && !BeforeList(SortText(g), SortText(f)))
  }

  function SortFlags(flags: seq<Flag>): seq<Flag> {
    Sorting.Sort(NotAfter, flags)
  }

  lemma NotAfterTotal(f: Flag, g: Flag)
    ensures NotAfter(f, g) || NotAfter(g, f)
  {
    BeforeListTotal(SortText(g), SortText(f));
  }

  lemma NotAfterAgain(f: Flag, g: Flag, h: Flag)
    requires NotAfter(f, g) && NotAfter(g, h)
    ensures NotAfter(f, h)
  {
    if f.at == g.at == h.at {
      NotAfterTransitive(SortText(f), SortText(g), SortText(h));
    }
  }

  /** The flags come sorted, and are the ones there were. */
  lemma SortedFlags(flags: seq<Flag>)
    ensures multiset(SortFlags(flags)) == multiset(flags) && |SortFlags(flags)| == |flags|
    ensures forall i, j :: 0 <= i < j < |flags| ==> NotAfter(SortFlags(flags)[i], SortFlags(flags)[j])
  {
    assert Sorting.TotalPreorder(NotAfter) by {
      forall f, g
        ensures NotAfter(f, g) || NotAfter(g, f)
      {
        NotAfterTotal(f, g);
      }
      forall f, g, h | NotAfter(f, g) && NotAfter(g, h)
        ensures NotAfter(f, h)
      {
        NotAfterAgain(f, g, h);
      }
    }
    Sorting.Sorted(NotAfter, flags);
    assert |multiset(SortFlags(flags))| == |multiset(flags)|;
  }

  // ----- the indexes

  /** The positions of ``k`` among ``keys``, ascending. */
  function Positions<K(==)>(keys: seq<K>, k: K): (r: seq<nat>)
    ensures forall j :: 0 <= j < |r| ==> r[j] < |keys| && keys[r[j]] == k
    ensures forall i, j :: 0 <= i < j < |r| ==> r[i] < r[j]
    ensures forall i :: 0 <= i < |keys| && keys[i] == k ==> i in r
  {
    if keys == [] then []
    else
      var n := |keys| - 1;
      var before := Positions(keys[..n], k);
      assert forall i :: 0 <= i < n ==> keys[..n][i] == keys[i];
      if keys[n] == k then before + [n] else before
  }

  function Get<K(==)>(index: map<K, seq<nat>>, k: K): seq<nat> {
    if k in index then index[k] else []
  }

  ghost predicate Indexes<K(!new)>(index: map<K, seq<nat>>, keys: seq<K>) {
    forall k :: Get(index, k) == Positions(keys, k)
  }

  method IndexBy<K(==, !new)>(keys: seq<K>) returns (index: map<K, seq<nat>>)
    ensures Indexes(index, keys)
  {
    index := map[];
    for i := 0 to |keys|
      invariant forall k :: Get(index, k) == Positions(keys[..i], k)
    {
      assert keys[..i + 1][..i] == keys[..i];
      index := index[keys[i] := Get(index, keys[i]) + [i]];
    }
    assert keys[..|keys|] == keys;
  }

  function Keep(list: seq<nat>, p: nat -> bool): (r: seq<nat>)
    ensures forall i :: i in r <==> i in list && p(i)
    ensures (forall i, j :: 0 <= i < j < |list| ==> list[i] < list[j]) ==> forall i, j :: 0 <= i < j < |r| ==> r[i] < r[j]
  {
    if list == [] then []
    else
      var n := |list| - 1;
      var before := Keep(list[..n], p);
      assert list == list[..n] + [list[n]];
      assert forall j :: 0 <= j < |before| ==> before[j] in before && before[j] in list[..n];
      if p(list[n]) then before + [list[n]] else before
  }

  // ----- the join

  function Flows(records: seq<Record>): seq<(string, FiveTuple)> {
    seq(|records|, i requires 0 <= i < |records| => (records[i].instance, records[i].five))
  }

  function Hosts(records: seq<Record>): seq<string> {
    seq(|records|, i requires 0 <= i < |records| => records[i].instance)
  }

  function Runners(ran: seq<Invocation>): (r: seq<string>)
    ensures |r| == |ran|
  {
    seq(|ran|, v requires 0 <= v < |ran| => ran[v].key.instance)
  }

  /** The first of the nearest among ``near``: ``min`` by the gap. */
  method Nearest(x: Inputs, c: Connection, near: seq<nat>) returns (i: nat)
    requires near != [] && (forall j :: 0 <= j < |near| ==> near[j] < |x.records|)
    requires forall j, k :: 0 <= j < k < |near| ==> near[j] < near[k]
    ensures i in near
    ensures forall j :: j in near ==>
      Gap(x.records[i], c) < Gap(x.records[j], c) || (Gap(x.records[i], c) == Gap(x.records[j], c) && i <= j)
  {
    i := near[0];
    for n := 1 to |near|
      invariant i in near[..n]
      invariant forall j :: 0 <= j < n ==>
        Gap(x.records[i], c) < Gap(x.records[near[j]], c) || (Gap(x.records[i], c) == Gap(x.records[near[j]], c) && i <= near[j])
    {
      if Gap(x.records[near[n]], c) < Gap(x.records[i], c) {
        i := near[n];
      }
    }
    assert near[..|near|] == near;
  }

  /** The record a connection is matched to, by the index. */
  method FindPick(x: Inputs, byFlow: map<(string, FiveTuple), seq<nat>>, c: Connection) returns (r: Option<nat>)
    requires Indexes(byFlow, Flows(x.records))
    ensures r == Pick(x, c) && (r.Some? ==> r.value < |x.records|)
  {
    if c.five.origAddr !in x.instanceOf {
      assert forall i: nat :: !Near(x, c, i);
      return None;
    }
    var flow := (x.instanceOf[c.five.origAddr], c.five);
    var found := Positions(Flows(x.records), flow);
    assert Get(byFlow, flow) == found;
    var near := Keep(Get(byFlow, flow), (i: nat) => i < |x.records| && Gap(x.records[i], c) <= x.tolerance);
    assert forall i: nat :: i in near <==> Near(x, c, i);
    if near == [] {
      return None;
    }
    assert forall j :: 0 <= j < |near| ==> near[j] in near;
    var i := Nearest(x, c, near);
    PickIs(x, c, i);
    r := Some(i);
  }

  /** What the memo table holds: owners, as they are defined. */
  ghost predicate Memo(x: Inputs, owner: map<nat, Option<nat>>) {
    forall i :: i in owner ==> owner[i] == Owner(x, i)
  }

  /** ``owner_of``: the first invocation of the record's host that owns it, remembered. */
  method OwnerOf(x: Inputs, byInstance: map<string, seq<nat>>, owner: map<nat, Option<nat>>, i: nat)
    returns (r: Option<nat>, remembered: map<nat, Option<nat>>)
    requires i < |x.records| && Memo(x, owner)
    requires Indexes(byInstance, Runners(x.ran))
    ensures r == Owner(x, i) && Memo(x, remembered)
    ensures r.Some? ==> r.value < |x.ran|
  {
    remembered := owner;
    if i !in owner {
      var candidates := Get(byInstance, x.records[i].instance);
      var found := FirstOwning(x, candidates, i);
      remembered := owner[i := found];
    }
    r := remembered[i];
    if r.Some? {
      assert IsOwner(x, i, r.value);
    }
  }

  method FirstOwning(x: Inputs, candidates: seq<nat>, i: nat) returns (r: Option<nat>)
    requires i < |x.records| && candidates == Positions(Runners(x.ran), x.records[i].instance)
    ensures r == Owner(x, i)
  {
    hide Owns, Runners, Positions;
    for n := 0 to |candidates|
      invariant forall m :: 0 <= m < n ==> !Owns(x.ran[candidates[m]], x.records[i], x.tolerance)
    {
      var v := candidates[n];
      if Owns(x.ran[v], x.records[i], x.tolerance) {
        forall w: nat | w < v && Owns(x.ran[w], x.records[i], x.tolerance)
          ensures false
        {
          OwnerIsCandidate(x, i, w);
        }
        OwnerIs(x, i, v);
        return Some(v);
      }
    }
    forall v: nat | v < |x.ran| && Owns(x.ran[v], x.records[i], x.tolerance)
      ensures false
    {
      OwnerIsCandidate(x, i, v);
    }
    r := None;
  }

  lemma OwnerIsCandidate(x: Inputs, i: nat, v: nat)
    requires i < |x.records| && v < |x.ran| && Owns(x.ran[v], x.records[i], x.tolerance)
    ensures v in Positions(Runners(x.ran), x.records[i].instance)
  {
    assert Runners(x.ran)[v] == x.records[i].instance;
  }

  function BySensor(labels: seq<Label>, sensor: string): seq<Label> {
    if labels == [] then []
    else
      var l := labels[|labels| - 1];
      var before := BySensor(labels[..|labels| - 1], sensor);
      if l.flow.sensor == sensor then before + [l] else before
  }

  ghost predicate AreLabels(labels: map<string, seq<Label>>, all: seq<Label>) {
    forall s :: (s in labels <==> BySensor(all, s) != []) && (s in labels ==> labels[s] == BySensor(all, s))
  }

  lemma OneMoreLabel(labels: map<string, seq<Label>>, all: seq<Label>, l: Label)
    requires AreLabels(labels, all)
    ensures var s := l.flow.sensor;
            AreLabels(labels[s := (if s in labels then labels[s] else []) + [l]], all + [l])
  {
    assert (all + [l])[..|all|] == all;
  }

  ghost predicate SeenBefore(x: Inputs, n: nat, i: nat)
    requires n <= |x.connections|
  {
    exists k :: 0 <= k < n && Pick(x, x.connections[k]) == Some(i)
  }

  datatype Joined = Joined(labels: map<string, seq<Label>>, flags: seq<Flag>)

  lemma Started(x: Inputs)
    ensures Memo(x, map[]) && AreLabels(map[], []) && forall i: nat :: !SeenBefore(x, 0, i)
  {
  }

  lemma SeenOneMore(x: Inputs, n: nat)
    requires n < |x.connections|
    ensures forall i: nat :: SeenBefore(x, n + 1, i) <==> SeenBefore(x, n, i) || Pick(x, x.connections[n]) == Some(i)
  {
  }

  lemma AllSeen(x: Inputs)
    ensures forall i: nat :: SeenBefore(x, |x.connections|, i) <==> Seen(x, i)
  {
  }

  /** The first label due without a signature is connection ``k``'s. */
  ghost predicate FirstUnsigned(x: Inputs, k: nat, key: SignatureKey) {
    && k < |x.connections| && Unsigned(x, x.connections[k]) && key == SignedAs(x.ran[VerdictOf(x, x.connections[k]).maker])
    && forall j :: 0 <= j < k ==> !Unsigned(x, x.connections[j])
  }

  /** The labels and flags of the definitions, or the first label's missing signature. */
  ghost predicate IsJoin(x: Inputs, r: Result<Joined, SignatureKey>) {
    match r
    case Err(key) => exists k :: FirstUnsigned(x, k, key)
    case Ok(joined) =>
      && (forall k :: 0 <= k < |x.connections| ==> !Unsigned(x, x.connections[k]))
      && AreLabels(joined.labels, Labels(x, |x.connections|))
      && joined.flags == SortFlags(ConnectionFlags(x, |x.connections|) + Failures(x, |x.ran|))
  }

  /** ``join``. */
  method Join(x: Inputs) returns (r: Result<Joined, SignatureKey>)
    ensures IsJoin(x, r)
  {
    hide Indexes, AreLabels, BySensor, IsPick, IsOwner, Pick, Owner, Memo, SeenBefore, Seen;
    var byFlow := IndexBy(Flows(x.records));
    var byHost := IndexBy(Hosts(x.records));
    var byInstance := IndexBy(Runners(x.ran));
    var owner: map<nat, Option<nat>> := map[];
    var labels: map<string, seq<Label>> := map[];
    var flags: seq<Flag> := [];
    var seen: set<nat> := {};
    Started(x);
    for n := 0 to |x.connections|
      invariant Memo(x, owner)
      invariant forall k :: 0 <= k < n ==> !Unsigned(x, x.connections[k])
      invariant AreLabels(labels, Labels(x, n))
      invariant flags == ConnectionFlags(x, n)
      invariant forall i: nat :: i in seen <==> SeenBefore(x, n, i)
    {
      var c := x.connections[n];
      var pick := FindPick(x, byFlow, c);
      SeenOneMore(x, n);
      if pick.None? {
        flags := flags + [Unattributed(NoAttribution, c.start, c.flow, c.five)];
        continue;
      }
      var i := pick.value;
      seen := seen + {i};
      var v;
      v, owner := OwnerOf(x, byInstance, owner, i);
      if v.None? {
        flags := flags + [Unattributed(NoInvocation, c.start, c.flow, c.five)];
        continue;
      }
      var invocation := x.ran[v.value];
      assert VerdictOf(x, c) == Made(i, v.value);
      if SignedAs(invocation) !in x.signatures {
        assert FirstUnsigned(x, n, SignedAs(invocation));
        return Err(SignedAs(invocation));
      }
      var l := LabelFor(c, invocation, x.records[i], x.signatures[SignedAs(invocation)]);
      OneMoreLabel(labels, Labels(x, n), l);
      labels := labels[c.flow.sensor := (if c.flow.sensor in labels then labels[c.flow.sensor] else []) + [l]];
    }
    assert forall i: nat :: i in seen <==> Seen(x, i) by {
      AllSeen(x);
    }
    var failures := FailuresOf(x, byHost, seen);
    r := Ok(Joined(labels, SortFlags(flags + failures)));
  }

  method FailuresOf(x: Inputs, byHost: map<string, seq<nat>>, seen: set<nat>) returns (flags: seq<Flag>)
    requires Indexes(byHost, Hosts(x.records))
    requires forall i: nat :: i in seen <==> Seen(x, i)
    ensures flags == Failures(x, |x.ran|)
  {
    hide Failure, Indexes, Seen;
    flags := [];
    for v := 0 to |x.ran|
      invariant flags == Failures(x, v)
    {
      var f := FailureOf(x, byHost, seen, v);
      if f.Some? {
        flags := flags + [f.value];
      }
    }
  }

  method FailureOf(x: Inputs, byHost: map<string, seq<nat>>, seen: set<nat>, v: nat) returns (f: Option<Flag>)
    requires v < |x.ran| && Indexes(byHost, Hosts(x.records))
    requires forall i: nat :: i in seen <==> Seen(x, i)
    ensures f == Failure(x, v)
  {
    var invocation := x.ran[v];
    var mine := OwnedOf(x, v, Get(byHost, invocation.key.instance));
    FailureBy(x, v, Get(byHost, invocation.key.instance), seen);
    hide *;
    var at := invocation.start + invocation.offset;
    if mine == [] {
      f := Some(Failed(NoAttribution, at, invocation.key.invocation));
    } else if !exists i :: i in mine && i in seen {
      f := Some(Failed(NoConnection, at, invocation.key.invocation));
    } else {
      f := None;
    }
  }

  lemma FailureBy(x: Inputs, v: nat, host: seq<nat>, seen: set<nat>)
    requires v < |x.ran| && host == Positions(Hosts(x.records), x.ran[v].key.instance)
    requires forall i: nat :: i in seen <==> Seen(x, i)
    ensures var mine, at := OwnedOf(x, v, host), x.ran[v].start + x.ran[v].offset;
            Failure(x, v) ==
              if mine == [] then Some(Failed(NoAttribution, at, x.ran[v].key.invocation))
              else if !exists i :: i in mine && i in seen then Some(Failed(NoConnection, at, x.ran[v].key.invocation))
              else None
  {
    hide Mine, Seen, OwnedOf, Positions, Hosts;
    MineIsKept(x, v, host);
    var mine := OwnedOf(x, v, host);
    assert mine == [] <==> forall i: nat :: !Mine(x, v, i) by {
      if mine != [] {
        assert Mine(x, v, mine[0]);
      }
    }
    assert (forall i :: i in mine ==> i !in seen) <==> forall i: nat :: Mine(x, v, i) ==> !Seen(x, i);
  }

  /** The records of a host that one of its invocations owns. */
  function OwnedOf(x: Inputs, v: nat, host: seq<nat>): seq<nat>
    requires v < |x.ran|
  {
    Keep(host, (i: nat) => i < |x.records| && Owns(x.ran[v], x.records[i], x.tolerance))
  }

  lemma MineIsKept(x: Inputs, v: nat, host: seq<nat>)
    requires v < |x.ran| && host == Positions(Hosts(x.records), x.ran[v].key.instance)
    ensures forall i: nat :: i in OwnedOf(x, v, host) <==> Mine(x, v, i)
  {
    assert forall i :: 0 <= i < |x.records| ==> Hosts(x.records)[i] == x.records[i].instance;
  }

  /** What is joined is what the definitions say, so runs that agree on the capture host's clock join alike. */
  lemma JoinsAlike(x: Inputs, ran: seq<Invocation>, r: Result<Joined, SignatureKey>, r': Result<Joined, SignatureKey>)
    requires SameOnCapture(x.ran, ran) && IsJoin(x, r) && IsJoin(x.(ran := ran), r')
    ensures r' == r
  {
    hide VerdictOf, AreLabels, Labels, ConnectionFlags, Failures;
    var y := x.(ran := ran);
    SameLabels(x, ran, |x.connections|);
    SameFailures(x, ran, |ran|);
    forall k | 0 <= k < |x.connections|
      ensures Unsigned(x, x.connections[k]) <==> Unsigned(y, x.connections[k])
      ensures VerdictOf(y, x.connections[k]) == VerdictOf(x, x.connections[k])
    {
      SameVerdict(x, ran, x.connections[k]);
    }
    if r.Ok? && r'.Ok? {
      SameTables(r.value.labels, r'.value.labels, Labels(x, |x.connections|));
    }
  }

  lemma SameTables(a: map<string, seq<Label>>, b: map<string, seq<Label>>, all: seq<Label>)
    requires AreLabels(a, all) && AreLabels(b, all)
    ensures a == b
  {
  }

  lemma SameHosts(offsets: map<string, real>, offsets': map<string, real>, shift: string -> real,
                  ran: seq<Invocation>, records: seq<Record>)
    requires offsets'.Keys == offsets.Keys
    ensures OnCaptureClock(offsets', MovedRuns(ran, shift), MovedRecords(records, shift)).None?
      <==> OnCaptureClock(offsets, ran, records).None?
  {
    var ran', records' := MovedRuns(ran, shift), MovedRecords(records, shift);
    forall k | 0 <= k < |ran|
      ensures ran'[k].key == ran[k].key
    {
      assert ran'[k] == MovedRun(ran[k], -shift(ran[k].key.instance));
    }
    forall k | 0 <= k < |records|
      ensures records'[k].instance == records[k].instance
    {
      assert records'[k] == Moved(records[k], -shift(records[k].instance));
    }
  }

  /** Put on the capture host's clock and joined; ``None`` where a host's offset is missing. */
  method JoinOnCapture(x: Inputs, offsets: map<string, real>) returns (r: Option<Result<Joined, SignatureKey>>)
    ensures r.None? <==> OnCaptureClock(offsets, x.ran, x.records).None?
    ensures r.Some? ==>
      var there := OnCaptureClock(offsets, x.ran, x.records).value;
      IsJoin(x.(ran := there.0, records := there.1), r.value)
  {
    var there := OnCaptureClock(offsets, x.ran, x.records);
    if there.None? {
      return None;
    }
    var joined := Join(x.(ran := there.value.0, records := there.value.1));
    r := Some(joined);
  }

  /**
   * Host clocks do not matter: every stamp of a host taken ``shift(host)`` earlier, and the host given
   * that much more offset, the join gives the same labels and flags.
   */
  method JoinMovedClocks(x: Inputs, offsets: map<string, real>, shift: string -> real)
    returns (r: Option<Result<Joined, SignatureKey>>, r': Option<Result<Joined, SignatureKey>>)
    ensures r' == r
    ensures r.None? <==> OnCaptureClock(offsets, x.ran, x.records).None?
  {
    var y := x.(ran := MovedRuns(x.ran, shift), records := MovedRecords(x.records, shift));
    var offsets' := map h | h in offsets :: offsets[h] + shift(h);
    r := JoinOnCapture(x, offsets);
    r' := JoinOnCapture(y, offsets');
    SameHosts(offsets, offsets', shift, x.ran, x.records);
    if r.Some? {
      ClocksCancel(offsets, offsets', shift, x.ran, x.records);
      var a, b := OnCaptureClock(offsets, x.ran, x.records).value, OnCaptureClock(offsets', y.ran, y.records).value;
      JoinsAlike(x.(ran := a.0, records := a.1), b.0, r.value, r'.value);
    }
  }
}
