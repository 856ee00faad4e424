/** From the collector's events to labels: which records the assemble join matches to a connection. */
module SeenByKernel {
  import opened Wrappers
  import AssembleJoin
  import AttribJoin

  /** A record as the assemble join reads it: its principal is the cgroup it was seen from. */
  function AsSeen(r: AttribJoin.Record): AssembleJoin.Record {
    AssembleJoin.Record(r.instance, AssembleJoin.Principal("linux", "cgroup:" + AssembleJoin.Str(r.cgroup)),
                        AssembleJoin.FiveTuple(r.five.origAddr, r.five.origPort, r.five.respAddr, r.five.respPort, r.five.proto),
                        r.start, r.end, r.tgid)
  }

  /** The records assembled are those the collector's events were joined to. */
  ghost predicate FromEvents(x: AssembleJoin.Inputs, events: seq<AttribJoin.Event>, containers: map<int, string>,
                             records: seq<AttribJoin.Record>)
  {
    && AttribJoin.AreRecords(events, containers, |events|, records) && |x.records| == |records|
    && forall i :: 0 <= i < |records| ==> x.records[i] == AsSeen(records[i])
  }

  /** A connection from ``src`` to ``dst``, about when the event was. */
  ghost predicate Between(x: AssembleJoin.Inputs, c: AssembleJoin.Connection, e: AttribJoin.Event) {
    && c.five == AssembleJoin.FiveTuple(e.src, e.sport, e.dst, e.dport, e.proto)
    && -x.tolerance <= c.start - e.ns as real / 1000000000.0 <= x.tolerance
  }

  /**
   * A connection a container opened, sent or put on the wire itself is near its record exactly if its
   * source address is planned for the container's instance.
   */
  lemma OpenedIsNear(x: AssembleJoin.Inputs, events: seq<AttribJoin.Event>, containers: map<int, string>,
                     records: seq<AttribJoin.Record>, i: nat, c: AssembleJoin.Connection)
    requires FromEvents(x, events, containers, records) && i < |records|
    requires var e := events[AttribJoin.Kept(events, containers, |events|)[i]];
             (e.ev.Connect? || e.ev.UdpSend? || e.ev.Packet?) && Between(x, c, e)
    ensures var e := events[AttribJoin.Kept(events, containers, |events|)[i]];
            AssembleJoin.Near(x, c, i) <==>
              e.src in x.instanceOf && e.containerCg in containers && x.instanceOf[e.src] == containers[e.containerCg]
  {
    hide AttribJoin.AreRecords, AttribJoin.Kept;
    AttribJoin.RecordsAre(events, containers, records, i);
  }

  /**
   * A connection a container accepted or received is near that container's record only if the address
   * it came from is its own: the responder's view of it is not consulted.
   */
  lemma AcceptedIsNot(x: AssembleJoin.Inputs, events: seq<AttribJoin.Event>, containers: map<int, string>,
                      records: seq<AttribJoin.Record>, i: nat, c: AssembleJoin.Connection)
    requires FromEvents(x, events, containers, records) && i < |records| && AssembleJoin.Near(x, c, i)
    requires var e := events[AttribJoin.Kept(events, containers, |events|)[i]]; e.ev.Accept? || e.ev.UdpRecv?
    ensures var e := events[AttribJoin.Kept(events, containers, |events|)[i]];
            && c.five == AssembleJoin.FiveTuple(e.dst, e.dport, e.src, e.sport, e.proto)
            && e.dst in x.instanceOf && e.containerCg in containers && x.instanceOf[e.dst] == containers[e.containerCg]
  {
    hide AttribJoin.AreRecords, AttribJoin.Kept;
    AttribJoin.RecordsAre(events, containers, records, i);
  }

  /**
   * From the event to the label: a connection a container opened, whose own record is the only one near
   * it, is labelled with the first invocation of that instance run in that cgroup at the time.
   */
  lemma OpenedIsLabelled(x: AssembleJoin.Inputs, events: seq<AttribJoin.Event>, containers: map<int, string>,
                         records: seq<AttribJoin.Record>, i: nat, k: nat, v: nat)
    requires FromEvents(x, events, containers, records) && i < |records| && k < |x.connections| && v < |x.ran|
    requires var e := events[AttribJoin.Kept(events, containers, |events|)[i]];
             && (e.ev.Connect? || e.ev.UdpSend? || e.ev.Packet?) && Between(x, x.connections[k], e)
             && e.src in x.instanceOf && e.containerCg in containers && x.instanceOf[e.src] == containers[e.containerCg]
             && x.ran[v].key.instance == containers[e.containerCg]
             && x.ran[v].principal == AssembleJoin.Principal("linux", "cgroup:" + AssembleJoin.Str(e.cg))
             && x.ran[v].start + x.ran[v].offset - x.tolerance <= e.ns as real / 1000000000.0
             && e.ns as real / 1000000000.0 <= x.ran[v].end + x.ran[v].offset + x.tolerance
    requires forall j: nat :: AssembleJoin.Near(x, x.connections[k], j) ==> j == i
    requires forall w :: 0 <= w < v ==> !AssembleJoin.Mine(x, w, i)
    ensures AssembleJoin.VerdictOf(x, x.connections[k]) == AssembleJoin.Made(i, v)
    ensures var labels := AssembleJoin.Labels(x, |x.connections|);
            exists m :: 0 <= m < |labels| && AssembleJoin.SaysOf(x, k, labels[m])
  {
    hide AttribJoin.AreRecords, AttribJoin.Kept, AssembleJoin.Owns;
    AttribJoin.RecordsAre(events, containers, records, i);
    OpenedIsNear(x, events, containers, records, i, x.connections[k]);
    AssembleJoin.PickIs(x, x.connections[k], i);
    AssembleJoin.OwnsByPrincipal(x.ran[v], x.records[i], x.tolerance);
    assert AssembleJoin.Mine(x, v, i);
    AssembleJoin.FirstIsOwner(x, v, i);
    AssembleJoin.OwnerIs(x, i, v);
    AssembleJoin.LabelAt(x, |x.connections|, k);
  }
}
