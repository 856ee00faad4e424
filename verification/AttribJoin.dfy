/** From the collector's events to attribution records: opens and closes of sockets, paired by a table of pending ones. */
module AttribJoin {
  import opened Wrappers

  datatype Kind = Start | Connect | Accept | Close | UdpSend | UdpRecv | Packet

  datatype Event = Event(ev: Kind, ns: int, cg: int, containerCg: int, tgid: int, proto: string,
                         src: string, sport: int, dst: string, dport: int, sk: int)

  datatype FiveTuple = FiveTuple(origAddr: string, origPort: int, respAddr: string, respPort: int, proto: string)

  /** The principal is the cgroup's number; its text is not modelled. */
  datatype Record = Record(instance: string, cgroup: int, five: FiveTuple, start: real, end: real, tgid: int)

  function Seconds(ns: int): real {
    ns as real / 1000000000.0
  }

  function FiveOf(e: Event): FiveTuple {
    if e.ev.Accept? || e.ev.UdpRecv? then FiveTuple(e.dst, e.dport, e.src, e.sport, e.proto)
    else FiveTuple(e.src, e.sport, e.dst, e.dport, e.proto)
  }

  // ----- what the records should be, by index

  predicate Recorded(e: Event, containers: map<int, string>) {
    !e.ev.Start? && !e.ev.Close? && e.containerCg in containers
  }

  predicate Strange(e: Event, containers: map<int, string>) {
    !e.ev.Start? && !e.ev.Close? && e.containerCg !in containers
  }

  predicate Opens(e: Event, containers: map<int, string>) {
    Recorded(e, containers) && (e.ev.Connect? || e.ev.Accept?) && e.sk != 0
  }

  /** An event that decides what becomes of an open connection of this socket: its close, or a recorded open of its own. */
  predicate Touches(e: Event, containers: map<int, string>, sk: int) {
    e.sk == sk && (e.ev.Close? || Opens(e, containers))
  }

  /** The first event of ``events[i..n]`` that touches a socket. */
  function NextTouch(events: seq<Event>, containers: map<int, string>, sk: int, i: nat, n: nat): (j: Option<nat>)
    requires i <= n <= |events|
    ensures j.Some? ==> i <= j.value < n && Touches(events[j.value], containers, sk)
    decreases n - i
  {
    if i == n then None
    else if Touches(events[i], containers, sk) then Some(i)
    else NextTouch(events, containers, sk, i + 1, n)
  }

  lemma {:induction false} NextTouchIsFirst(events: seq<Event>, containers: map<int, string>, sk: int, i: nat, n: nat, k: nat)
    requires i <= k < n <= |events| && Touches(events[k], containers, sk)
    ensures NextTouch(events, containers, sk, i, n).Some? && NextTouch(events, containers, sk, i, n).value <= k
    decreases n - i
  {
    if i < k && !Touches(events[i], containers, sk) {
      NextTouchIsFirst(events, containers, sk, i + 1, n, k);
    }
  }

  /** When event ``k``'s record ends, ``n`` events having been seen: at the close of its socket, if that comes next for it. */
  function EndOf(events: seq<Event>, containers: map<int, string>, k: nat, n: nat): real
    requires k < n <= |events|
  {
    var own := Seconds(events[k].ns);
    if !Opens(events[k], containers) then own
    else
      match NextTouch(events, containers, events[k].sk, k + 1, n)
      case None => own
      case Some(j) => if events[j].ev.Close? then Seconds(events[j].ns) else own
  }

  function RecordOf(events: seq<Event>, containers: map<int, string>, k: nat, n: nat): Record
    requires k < n <= |events| && Recorded(events[k], containers)
  {
    var e := events[k];
    Record(containers[e.containerCg], e.cg, FiveOf(e), Seconds(e.ns), EndOf(events, containers, k, n), e.tgid)
  }

  /** The recorded events among the first ``n``, in order. */
  function Kept(events: seq<Event>, containers: map<int, string>, n: nat): (r: seq<nat>)
    requires n <= |events|
    ensures forall i :: 0 <= i < |r| ==> r[i] < n && Recorded(events[r[i]], containers)
    ensures forall i, j :: 0 <= i < j < |r| ==> r[i] < r[j]
    ensures forall k :: 0 <= k < n && Recorded(events[k], containers) ==> k in r
  {
    if n == 0 then []
    else
      var before := Kept(events, containers, n - 1);
      if Recorded(events[n - 1], containers) then before + [n - 1] else before
  }

  predicate AreRecords(events: seq<Event>, containers: map<int, string>, n: nat, records: seq<Record>)
    requires n <= |events|
  {
    var kept := Kept(events, containers, n);
    |records| == |kept| && forall i :: 0 <= i < |kept| ==> records[i] == RecordOf(events, containers, kept[i], n)
  }

  /** Event ``j`` closes the connection event ``k`` opened: its socket's close, no recorded open of the socket in between. */
  predicate Closes(events: seq<Event>, containers: map<int, string>, k: nat, j: nat)
    requires k < |events|
  {
    && k < j < |events| && events[j].ev.Close? && events[j].sk == events[k].sk
    && forall m :: k < m < j ==> !Touches(events[m], containers, events[k].sk)
  }

  /** A connection ends at the close that is its own, and where it began if there is none. */
  lemma EndsAtItsClose(events: seq<Event>, containers: map<int, string>, k: nat)
    requires k < |events| && Opens(events[k], containers)
    ensures forall j: nat :: Closes(events, containers, k, j) ==> EndOf(events, containers, k, |events|) == Seconds(events[j].ns)
    ensures (forall j: nat :: !Closes(events, containers, k, j)) ==> EndOf(events, containers, k, |events|) == Seconds(events[k].ns)
  {
    var sk, next := events[k].sk, NextTouch(events, containers, events[k].sk, k + 1, |events|);
    forall m | k < m < |events| && Touches(events[m], containers, sk)
      ensures next.Some? && next.value <= m
    {
      NextTouchIsFirst(events, containers, sk, k + 1, |events|, m);
    }
    if next.Some? && events[next.value].ev.Close? {
      assert Closes(events, containers, k, next.value);
    }
  }

  /** The event opens a connection that a close may end. */
  predicate Connects(e: Event) {
    (e.ev.Connect? || e.ev.Accept?) && e.sk != 0
  }

  /**
   * ``r`` is the record of event ``k``: whose container and process it was, when, and from where to
   * where. The local side originated a connect, a UDP send and a packet, the remote side what was
   * accepted or received; a connection ends at the close that is its own, and where it began if there is none.
   */
  ghost predicate IsRecordOf(events: seq<Event>, containers: map<int, string>, k: nat, r: Record)
    requires k < |events|
  {
    var e := events[k];
    && e.containerCg in containers && r.instance == containers[e.containerCg] && r.cgroup == e.cg && r.tgid == e.tgid
    && r.start * 1000000000.0 == e.ns as real && r.five.proto == e.proto
    && (e.ev.Connect? || e.ev.UdpSend? || e.ev.Packet? ==>
          r.five.origAddr == e.src && r.five.origPort == e.sport && r.five.respAddr == e.dst && r.five.respPort == e.dport)
    && (e.ev.Accept? || e.ev.UdpRecv? ==>
          r.five.origAddr == e.dst && r.five.origPort == e.dport && r.five.respAddr == e.src && r.five.respPort == e.sport)
    && (forall j: nat :: Connects(e) && Closes(events, containers, k, j) ==> r.end * 1000000000.0 == events[j].ns as real)
    && ((forall j: nat :: !(Connects(e) && Closes(events, containers, k, j))) ==> r.end == r.start)
  }

  lemma RecordIs(events: seq<Event>, containers: map<int, string>, k: nat)
    requires k < |events| && Recorded(events[k], containers)
    ensures IsRecordOf(events, containers, k, RecordOf(events, containers, k, |events|))
  {
    hide NextTouch, Closes;
    if Opens(events[k], containers) {
      EndsAtItsClose(events, containers, k);
    }
  }

  /** The records of a join are those of the events recorded, in their order. */
  lemma RecordsAre(events: seq<Event>, containers: map<int, string>, records: seq<Record>, i: nat)
    requires AreRecords(events, containers, |events|, records) && i < |records|
    ensures var kept := Kept(events, containers, |events|);
            |kept| == |records| && IsRecordOf(events, containers, kept[i], records[i])
  {
    hide IsRecordOf;
    RecordIs(events, containers, Kept(events, containers, |events|)[i]);
  }

  // ----- the table of pending sockets

  /** The ``i``-th record is of a connection of socket ``sk`` not yet closed nor opened again. */
  predicate OpenAt(events: seq<Event>, containers: map<int, string>, n: nat, sk: int, i: nat)
    requires n <= |events|
  {
    var kept := Kept(events, containers, n);
    && i < |kept| && Opens(events[kept[i]], containers) && events[kept[i]].sk == sk
    && NextTouch(events, containers, sk, kept[i] + 1, n).None?
  }

  /** The table holds exactly the open records, so its indexes are valid and distinct. */
  ghost predicate IsPending(events: seq<Event>, containers: map<int, string>, n: nat, pending: map<int, nat>)
    requires n <= |events|
  {
    && (forall sk :: sk in pending ==> OpenAt(events, containers, n, sk, pending[sk]))
    && (forall sk, i :: OpenAt(events, containers, n, sk, i) ==> sk in pending && pending[sk] == i)
  }

  lemma PendingIsSound(events: seq<Event>, containers: map<int, string>, n: nat, pending: map<int, nat>, records: seq<Record>)
    requires n <= |events| && IsPending(events, containers, n, pending) && AreRecords(events, containers, n, records)
    ensures forall sk :: sk in pending ==> pending[sk] < |records|
    ensures forall a, b :: a in pending && b in pending && a != b ==> pending[a] != pending[b]
  {
    forall a, b | a in pending && b in pending && a != b
      ensures pending[a] != pending[b]
    {
      assert OpenAt(events, containers, n, a, pending[a]) && OpenAt(events, containers, n, b, pending[b]);
    }
  }

  lemma {:induction false} TouchLater(events: seq<Event>, containers: map<int, string>, sk: int, i: nat, n: nat)
    requires i <= n < |events|
    ensures var before := NextTouch(events, containers, sk, i, n);
            NextTouch(events, containers, sk, i, n + 1) ==
              if before.Some? then before else if Touches(events[n], containers, sk) then Some(n) else None
    decreases n - i
  {
    if i < n {
      TouchLater(events, containers, sk, i + 1, n);
    }
  }

  /** What one more event does to a record: its close ends the open one of its socket, and nothing else changes. */
  lemma OneMore(events: seq<Event>, containers: map<int, string>, n: nat, i: nat)
    requires n < |events| && i < |Kept(events, containers, n)|
    ensures var k, e := Kept(events, containers, n)[i], events[n];
            RecordOf(events, containers, k, n + 1) ==
              if e.ev.Close? && OpenAt(events, containers, n, e.sk, i) then RecordOf(events, containers, k, n).(end := Seconds(e.ns))
              else RecordOf(events, containers, k, n)
    ensures forall sk :: OpenAt(events, containers, n + 1, sk, i) <==>
              OpenAt(events, containers, n, sk, i) && !Touches(events[n], containers, sk)
  {
    hide Opens, Touches, Recorded, Kept, NextTouch, FiveOf, Seconds;
    var k := Kept(events, containers, n)[i];
    KeptOn(events, containers, n, i);
    TouchLater(events, containers, events[k].sk, k + 1, n);
    TouchIs(events[n], containers, events[k].sk);
  }

  lemma KeptOn(events: seq<Event>, containers: map<int, string>, n: nat, i: nat)
    requires n < |events| && i < |Kept(events, containers, n)|
    ensures i < |Kept(events, containers, n + 1)| && Kept(events, containers, n + 1)[i] == Kept(events, containers, n)[i]
  {
  }

  lemma TouchIs(e: Event, containers: map<int, string>, sk: int)
    ensures Touches(e, containers, sk) ==> e.sk == sk
    ensures e.ev.Close? && e.sk == sk ==> Touches(e, containers, sk)
  {
  }

  // ----- what is not recorded

  function Times(dropped: map<Kind, nat>, kind: Kind): nat {
    if kind in dropped then dropped[kind] else 0
  }

  function Strangers(events: seq<Event>, containers: map<int, string>, n: nat, kind: Kind): nat
    requires n <= |events|
  {
    if n == 0 then 0
    else
      Strangers(events, containers, n - 1, kind)
      + if events[n - 1].ev == kind && Strange(events[n - 1], containers) then 1 else 0
  }

  predicate Counts(events: seq<Event>, containers: map<int, string>, n: nat, dropped: map<Kind, nat>)
    requires n <= |events|
  {
    forall kind :: Times(dropped, kind) == Strangers(events, containers, n, kind) && (kind in dropped <==> Times(dropped, kind) > 0)
  }

  function CountOf(events: seq<Event>, n: nat, kind: Kind): nat
    requires n <= |events|
  {
    if n == 0 then 0 else CountOf(events, n - 1, kind) + if events[n - 1].ev == kind then 1 else 0
  }

  /** Every event is a record, a start, a close or dropped. */
  lemma {:induction false} Conserved(events: seq<Event>, containers: map<int, string>, n: nat)
    requires n <= |events|
    ensures |Kept(events, containers, n)| + CountOf(events, n, Start) + CountOf(events, n, Close)
      + Strangers(events, containers, n, Connect) + Strangers(events, containers, n, Accept)
      + Strangers(events, containers, n, UdpSend) + Strangers(events, containers, n, UdpRecv)
      + Strangers(events, containers, n, Packet) == n
  {
    if n > 0 {
      Conserved(events, containers, n - 1);
    }
  }

  // ----- the table, event by event

  /** What holds after ``n`` events. */
  ghost predicate Joined(events: seq<Event>, containers: map<int, string>, n: nat,
                         records: seq<Record>, pending: map<int, nat>, dropped: map<Kind, nat>)
    requires n <= |events|
  {
    && AreRecords(events, containers, n, records)
    && IsPending(events, containers, n, pending)
    && Counts(events, containers, n, dropped)
  }

  lemma CountsOn(events: seq<Event>, containers: map<int, string>, n: nat, dropped: map<Kind, nat>)
    requires n < |events| && Counts(events, containers, n, dropped)
    ensures var e := events[n];
            Counts(events, containers, n + 1,
                   if Strange(e, containers) then dropped[e.ev := Times(dropped, e.ev) + 1] else dropped)
  {
    var e := events[n];
    var more := if Strange(e, containers) then dropped[e.ev := Times(dropped, e.ev) + 1] else dropped;
    forall kind
      ensures Times(more, kind) == Strangers(events, containers, n + 1, kind) && (kind in more <==> Times(more, kind) > 0)
    {
      assert Times(dropped, kind) == Strangers(events, containers, n, kind);
    }
  }

  /** The table after one more event. */
  function PendingOn(pending: map<int, nat>, e: Event, containers: map<int, string>, next: nat): map<int, nat> {
    if e.ev.Close? then pending - {e.sk} else if Opens(e, containers) then pending[e.sk := next] else pending
  }

  lemma IsPendingOn(events: seq<Event>, containers: map<int, string>, n: nat, pending: map<int, nat>)
    requires n < |events| && IsPending(events, containers, n, pending)
    ensures IsPending(events, containers, n + 1, PendingOn(pending, events[n], containers, |Kept(events, containers, n)|))
  {
    hide OpenAt, Kept;
    var next := PendingOn(pending, events[n], containers, |Kept(events, containers, n)|);
    forall sk | sk in next
      ensures OpenAt(events, containers, n + 1, sk, next[sk])
    {
      OpenOneMore(events, containers, n, sk, next[sk]);
    }
    var after := n + 1;
    forall sk, i | OpenAt(events, containers, after, sk, i)
      ensures sk in next && next[sk] == i
    {
      OpenOneMore(events, containers, n, sk, i);
    }
  }

  /** After one more event a record is open if it was and its socket is not touched, or the event opens it. */
  lemma OpenOneMore(events: seq<Event>, containers: map<int, string>, n: nat, sk: int, i: nat)
    requires n < |events|
    ensures OpenAt(events, containers, n + 1, sk, i) <==>
      || (OpenAt(events, containers, n, sk, i) && !Touches(events[n], containers, sk))
      || (i == |Kept(events, containers, n)| && Opens(events[n], containers) && events[n].sk == sk)
  {
    if i < |Kept(events, containers, n)| {
      OneMore(events, containers, n, i);
    }
  }

  /** The records after one more event. */
  function RecordsOn(records: seq<Record>, pending: map<int, nat>, e: Event, containers: map<int, string>): seq<Record> {
    if e.ev.Close? then
      if e.sk in pending && pending[e.sk] < |records| then records[pending[e.sk] := records[pending[e.sk]].(end := Seconds(e.ns))]
      else records
    else if Recorded(e, containers) then
      records + [Record(containers[e.containerCg], e.cg, FiveOf(e), Seconds(e.ns), Seconds(e.ns), e.tgid)]
    else records
  }

  lemma AreRecordsOn(events: seq<Event>, containers: map<int, string>, n: nat, records: seq<Record>, pending: map<int, nat>)
    requires n < |events| && AreRecords(events, containers, n, records) && IsPending(events, containers, n, pending)
    ensures events[n].sk in pending ==> pending[events[n].sk] < |records|
    ensures AreRecords(events, containers, n + 1, RecordsOn(records, pending, events[n], containers))
  {
    var kept, e := Kept(events, containers, n), events[n];
    var more := RecordsOn(records, pending, e, containers);
    PendingIsSound(events, containers, n, pending, records);
    forall i | 0 <= i < |kept|
      ensures more[i] == RecordOf(events, containers, kept[i], n + 1)
    {
      OneMore(events, containers, n, i);
      assert OpenAt(events, containers, n, e.sk, i) <==> e.sk in pending && pending[e.sk] == i;
    }
  }

  function DroppedOn(dropped: map<Kind, nat>, e: Event, containers: map<int, string>): map<Kind, nat> {
    if Strange(e, containers) then dropped[e.ev := Times(dropped, e.ev) + 1] else dropped
  }

  lemma JoinedOn(events: seq<Event>, containers: map<int, string>, n: nat,
                 records: seq<Record>, pending: map<int, nat>, dropped: map<Kind, nat>)
    requires n < |events| && Joined(events, containers, n, records, pending, dropped)
    ensures var e := events[n];
            && (e.sk in pending ==> pending[e.sk] < |records|)
            && Joined(events, containers, n + 1, RecordsOn(records, pending, e, containers),
                      PendingOn(pending, e, containers, |records|), DroppedOn(dropped, e, containers))
  {
    CountsOn(events, containers, n, dropped);
    IsPendingOn(events, containers, n, pending);
    AreRecordsOn(events, containers, n, records, pending);
  }

  /** ``join``: one record per kept event, in order, each ended by its socket's close; the rest counted. */
  method Join(events: seq<Event>, containers: map<int, string>) returns (records: seq<Record>, dropped: map<Kind, nat>)
    ensures AreRecords(events, containers, |events|, records)
    ensures Counts(events, containers, |events|, dropped)
    ensures |records| + CountOf(events, |events|, Start) + CountOf(events, |events|, Close)
      + Times(dropped, Connect) + Times(dropped, Accept) + Times(dropped, UdpSend) + Times(dropped, UdpRecv) + Times(dropped, Packet)
      == |events|
  {
    hide *;
    records, dropped := [], map[];
    var pending: map<int, nat> := map[];
    JoinedNothing(events, containers);
    for n := 0 to |events|
      invariant Joined(events, containers, n, records, pending, dropped)
    {
      JoinedOn(events, containers, n, records, pending, dropped);
      records, pending, dropped := JoinOne(events[n], containers, records, pending, dropped);
    }
    Finished(events, containers, records, dropped, pending);
  }

  method JoinOne(e: Event, containers: map<int, string>, records: seq<Record>, pending: map<int, nat>, dropped: map<Kind, nat>)
    returns (records': seq<Record>, pending': map<int, nat>, dropped': map<Kind, nat>)
    requires e.sk in pending ==> pending[e.sk] < |records|
    ensures records' == RecordsOn(records, pending, e, containers)
    ensures pending' == PendingOn(pending, e, containers, |records|)
    ensures dropped' == DroppedOn(dropped, e, containers)
  {
    records', pending', dropped' := records, pending, dropped;
    if e.ev.Start? {
      return;
    }
    if e.ev.Close? {
      if e.sk in pending {
        var index := pending[e.sk];
        pending' := pending - {e.sk};
        records' := records[index := records[index].(end := Seconds(e.ns))];
      } else {
        assert pending - {e.sk} == pending;
      }
      return;
    }
    if e.containerCg !in containers {
      dropped' := dropped[e.ev := Times(dropped, e.ev) + 1];
      return;
    }
    var record := Record(containers[e.containerCg], e.cg, FiveOf(e), Seconds(e.ns), Seconds(e.ns), e.tgid);
    if (e.ev.Connect? || e.ev.Accept?) && e.sk != 0 {
      pending' := pending[e.sk := |records|];
    }
    records' := records + [record];
  }

  lemma JoinedNothing(events: seq<Event>, containers: map<int, string>)
    ensures Joined(events, containers, 0, [], map[], map[])
  {
  }

  lemma Finished(events: seq<Event>, containers: map<int, string>, records: seq<Record>, dropped: map<Kind, nat>,
        pending: map<int, nat>)
    requires Joined(events, containers, |events|, records, pending, dropped)
    ensures AreRecords(events, containers, |events|, records)
    ensures Counts(events, containers, |events|, dropped)
    ensures |records| + CountOf(events, |events|, Start) + CountOf(events, |events|, Close)
      + Times(dropped, Connect) + Times(dropped, Accept) + Times(dropped, UdpSend) + Times(dropped, UdpRecv) + Times(dropped, Packet)
      == |events|
  {
    Conserved(events, containers, |events|);
  }
}
