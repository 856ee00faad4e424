/** Static routes, derived from who sits on which segment, and what packets do under them. */
module Routing {
  import opened Wrappers
  import opened Ir
  import opened Ordering
  import Graph
  import Groups

  /** Reach ``segment`` via the forwarder at address ``via`` on ``out``. */
  datatype Route = Route(segment: string, cidr: Option<Network>, via: Address, out: string)

  /** ``instance`` has several equally short next hops to ``dest``. */
  datatype Problem = Ambiguous(instance: string, dest: string, winners: seq<string>)

  /** What the planner reads: instances in order, forwarders, addresses, data segments. */
  datatype Net = Net(
    ids: seq<string>,
    forwarders: seq<string>,
    addresses: map<string, OrderedMap<string, Address>>,
    data: set<string>,
    cidr: map<string, Option<Network>>)

  /** The planner's stand-in for "no path". */
  const FAR: nat := 1_000_000_000

  function IdsOf(instances: seq<Groups.Instance>): (r: seq<string>)
    ensures |r| == |instances| && forall i :: 0 <= i < |r| ==> r[i] == instances[i].id
  {
    seq(|instances|, i requires 0 <= i < |instances| => instances[i].id)
  }

  function NetOf(s: Scenario, t: Topology, plan: AddressPlan): Net {
    Net(IdsOf(Groups.InstanceIds(s)), Groups.Forwarders(s), plan.addresses, DataSegments(t), CidrOf(t.segments))
  }

  /** The segments of a list of interfaces that lie on the data plane, in interface order. */
  function DataOnly(nets: OrderedMap<string, Address>, data: set<string>): seq<string> {
    if nets == [] then []
    else if nets[0].0 in data then [nets[0].0] + DataOnly(nets[1..], data)
    else DataOnly(nets[1..], data)
  }

  lemma {:induction false} DataOnlyMember(nets: OrderedMap<string, Address>, data: set<string>, x: string)
    ensures x in DataOnly(nets, data) <==> x in data && Has(nets, x)
  {
    if nets != [] {
      DataOnlyMember(nets[1..], data, x);
      HasTail(nets, x);
    }
  }

  function SegmentsOf(net: Net, instance: string): seq<string> {
    if instance in net.addresses then DataOnly(net.addresses[instance], net.data) else []
  }

  /** A segment of an instance is a data segment it has an address on, and conversely. */
  lemma Interface(net: Net, instance: string, x: string)
    ensures x in SegmentsOf(net, instance) <==> x in net.data && AddressOn(net, instance, x).Some?
  {
    if instance in net.addresses {
      DataOnlyMember(net.addresses[instance], net.data, x);
    }
  }

  lemma Interfaces(net: Net, instance: string)
    ensures forall x :: x in SegmentsOf(net, instance) ==> x in net.data
  {
    forall x | x in SegmentsOf(net, instance)
      ensures x in net.data
    {
      Interface(net, instance, x);
    }
  }

  function AddressOn(net: Net, instance: string, segment: string): Option<Address> {
    if instance in net.addresses then Lookup(net.addresses[instance], segment) else None
  }

  /** Two segments are adjacent when one forwarder is on both. */
  ghost predicate Joined(net: Net, f: string, s: string, t: string) {
    f in net.forwarders && s in SegmentsOf(net, f) && t in SegmentsOf(net, f)
  }

  ghost function EdgesOf(net: Net): Graph.Edges {
    map s | s in net.data :: (set t | t in net.data && t != s && exists f :: Joined(net, f, s, t))
  }

  lemma EdgesAreSound(net: Net)
    ensures Graph.Closed(EdgesOf(net)) && Graph.Symmetric(EdgesOf(net)) && EdgesOf(net).Keys == net.data
  {
    var e := EdgesOf(net);
    forall s, t | s in e && t in e[s]
      ensures t in e && s in e[t]
    {
      var f :| Joined(net, f, s, t);
      assert Joined(net, f, t, s);
    }
  }

  // ----- the planner's choice, as a definition

  /** The fewest forwarders between any of ``segs`` and ``dest``; ``FAR`` when there is no path. */
  ghost function Hops(net: Net, segs: seq<string>, dest: string): nat {
    if segs == [] then FAR
    else
      var rest := Hops(net, segs[1..], dest);
      var here := if Graph.Connected(EdgesOf(net), segs[0], dest) then Graph.Distance(EdgesOf(net), segs[0], dest) else FAR;
      if here < rest then here else rest
  }

  /** How many forwarders stand between a host and ``dest``. */
  ghost function Steps(net: Net, host: string, dest: string): nat {
    Hops(net, SegmentsOf(net, host), dest)
  }

  ghost predicate Shares(net: Net, i: string, f: string, out: string) {
    out in SegmentsOf(net, f) && out in SegmentsOf(net, i)
  }

  ghost predicate Candidate(net: Net, i: string, dest: string, f: string) {
    && f in net.forwarders && f != i
    && (exists out :: Shares(net, i, f, out))
    && Steps(net, f, dest) < FAR
  }

  /** No candidate is closer to the destination than ``f``. */
  ghost predicate Winner(net: Net, i: string, dest: string, f: string) {
    && Candidate(net, i, dest, f)
    && forall g :: Candidate(net, i, dest, g) ==> Steps(net, f, dest) <= Steps(net, g, dest)
  }

  ghost function Winners(net: Net, i: string, dest: string): set<string> {
    set f | f in net.forwarders && Winner(net, i, dest, f)
  }

  /** The first of ``segs`` that is in ``mine``. */
  function FirstShared(segs: seq<string>, mine: seq<string>): (out: string)
    requires exists x :: x in segs && x in mine
    ensures out in segs && out in mine
  {
    if segs[0] in mine then segs[0]
    else
      assert exists x :: x in segs[1..] && x in mine by {
        var x :| x in segs && x in mine;
        assert x in segs[1..];
      }
      FirstShared(segs[1..], mine)
  }

  ghost function RouteVia(net: Net, i: string, dest: string, f: string): Route
    requires Candidate(net, i, dest, f) && dest in net.cidr
  {
    var out := FirstShared(SegmentsOf(net, f), SegmentsOf(net, i));
    Interface(net, f, out);
    Route(dest, net.cidr[dest], AddressOn(net, f, out).value, out)
  }

  ghost predicate WellFormed(net: Net) {
    && net.data <= net.cidr.Keys
    && |net.data| <= FAR
    && forall f :: f in net.forwarders ==> f in net.ids
  }

  ghost function Destinations(net: Net, i: string): set<string> {
    set d | d in net.data && d !in SegmentsOf(net, i) && exists s :: s in SegmentsOf(net, i) && Graph.Connected(EdgesOf(net), s, d)
  }

  /** ``f`` is the one closest forwarder. */
  ghost predicate Only(net: Net, i: string, dest: string, f: string) {
    Winners(net, i, dest) == {f}
  }

  /** The one route to ``dest``, or none. */
  ghost function RouteHere(net: Net, i: string, dest: string): seq<Route>
    requires WellFormed(net)
  {
    if f :| Only(net, i, dest, f) && dest in net.data then
      assert f in Winners(net, i, dest);
      [RouteVia(net, i, dest, f)]
    else []
  }

  ghost function RoutesTo(net: Net, i: string, dests: seq<string>): seq<Route>
    requires WellFormed(net)
  {
    if dests == [] then []
    else
      RoutesTo(net, i, dests[..|dests| - 1]) + RouteHere(net, i, dests[|dests| - 1])
  }

  /** Several forwarders equally close make the next hop ambiguous. */
  ghost function ProblemHere(net: Net, i: string, dest: string): seq<Problem> {
    if |Winners(net, i, dest)| > 1 then [Ambiguous(i, dest, SortedSeq(Winners(net, i, dest)))] else []
  }

  ghost function ProblemsTo(net: Net, i: string, dests: seq<string>): seq<Problem> {
    if dests == [] then []
    else
      var last := dests[|dests| - 1];
      ProblemsTo(net, i, dests[..|dests| - 1]) + ProblemHere(net, i, last)
  }

  ghost function RoutesOf(net: Net, i: string): seq<Route>
    requires WellFormed(net)
  {
    RoutesTo(net, i, SortedSeq(Destinations(net, i)))
  }

  ghost function Problems(net: Net, ids: seq<string>): seq<Problem> {
    if ids == [] then []
    else Problems(net, ids[..|ids| - 1]) + ProblemsTo(net, ids[|ids| - 1], SortedSeq(Destinations(net, ids[|ids| - 1])))
  }

  lemma CidrCovers(segments: seq<Segment>)
    ensures forall k :: 0 <= k < |segments| ==> segments[k].name in CidrOf(segments)
  {
  }

  /** Segment ``k`` is the last of its name. */
  predicate LastNamed(t: Topology, k: nat) {
    k < |t.segments| && forall j :: k < j < |t.segments| ==> t.segments[j].name != t.segments[k].name
  }

  lemma {:induction false} CidrIsLast(segments: seq<Segment>, name: string) returns (k: nat)
    requires name in CidrOf(segments)
    ensures k < |segments| && segments[k].name == name && CidrOf(segments)[name] == segments[k].cidr
    ensures forall j :: k < j < |segments| ==> segments[j].name != name
  {
    var n := |segments| - 1;
    if segments[n].name == name {
      k := n;
    } else {
      k := CidrIsLast(segments[..n], name);
    }
  }

  /** A planned route carries the prefix its segment was last given. */
  ghost predicate CarriesPrefix(t: Topology, r: Route) {
    exists k: nat :: LastNamed(t, k) && t.segments[k].name == r.segment && r.cidr == t.segments[k].cidr
  }

  lemma NetIsWellFormed(s: Scenario, t: Topology, plan: AddressPlan)
    requires |t.segments| < FAR
    ensures WellFormed(NetOf(s, t, plan))
  {
    var net := NetOf(s, t, plan);
    CidrCovers(t.segments);
    DataCount(t.segments, net.data);
    forall f | f in net.forwarders
      ensures f in net.ids
    {
      var instances := Groups.InstanceIds(s);
      var k :| 0 <= k < |instances| && instances[k].id == f && Groups.KindForwards(s.kinds, instances[k].kind);
      assert net.ids[k] == f;
    }
  }

  lemma {:induction false} DataCount(segments: seq<Segment>, names: set<string>)
    requires forall x :: x in names ==> exists k :: 0 <= k < |segments| && segments[k].name == x
    ensures |names| <= |segments|
  {
    if segments == [] {
      assert names == {};
    } else {
      var last, before := segments[|segments| - 1], segments[..|segments| - 1];
      forall x | x in names - {last.name}
        ensures exists k :: 0 <= k < |before| && before[k].name == x
      {
        var k :| 0 <= k < |segments| && segments[k].name == x;
        assert before[k].name == x;
      }
      DataCount(before, names - {last.name});
      if last.name in names {
        assert names == (names - {last.name}) + {last.name};
      } else {
        assert names == names - {last.name};
      }
    }
  }

  // ----- the chosen first hop is one step nearer, and nothing is nearer still

  lemma {:induction false} HopsIsLeast(net: Net, segs: seq<string>, dest: string)
    requires WellFormed(net)
    requires forall s :: s in segs ==> s in net.data
    ensures Hops(net, segs, dest) <= FAR
    ensures forall s :: s in segs && Graph.Connected(EdgesOf(net), s, dest) ==>
      Hops(net, segs, dest) <= Graph.Distance(EdgesOf(net), s, dest) < FAR
    ensures Hops(net, segs, dest) < FAR ==>
      exists s :: s in segs && Graph.Connected(EdgesOf(net), s, dest) && Hops(net, segs, dest) == Graph.Distance(EdgesOf(net), s, dest)
  {
    if segs != [] {
      HopsIsLeast(net, segs[1..], dest);
      EdgesAreSound(net);
      forall s | s in segs && Graph.Connected(EdgesOf(net), s, dest)
        ensures Graph.Distance(EdgesOf(net), s, dest) < FAR
      {
        Graph.DistanceBound(EdgesOf(net), s, dest);
        Graph.SubsetSize(EdgesOf(net).Keys, net.data);
      }
      assert forall s :: s in segs ==> s == segs[0] || s in segs[1..];
      assert segs[0] in segs;
    }
  }

  lemma HopsWitness(net: Net, h: string, dest: string) returns (s: string)
    requires WellFormed(net) && Steps(net, h, dest) < FAR
    ensures s in SegmentsOf(net, h) && s in net.data && Graph.Connected(EdgesOf(net), s, dest)
    ensures Graph.Distance(EdgesOf(net), s, dest) == Steps(net, h, dest)
  {
    Interfaces(net, h);
    HopsIsLeast(net, SegmentsOf(net, h), dest);
    s :| s in SegmentsOf(net, h) && Graph.Connected(EdgesOf(net), s, dest) &&
         Steps(net, h, dest) == Graph.Distance(EdgesOf(net), s, dest);
  }

  lemma HopsAtMost(net: Net, h: string, s: string, dest: string)
    requires WellFormed(net) && s in SegmentsOf(net, h) && Graph.Connected(EdgesOf(net), s, dest)
    ensures Steps(net, h, dest) <= Graph.Distance(EdgesOf(net), s, dest) < FAR
  {
    Interfaces(net, h);
    HopsIsLeast(net, SegmentsOf(net, h), dest);
  }

  lemma JoinedIsEdge(net: Net, f: string, s: string, t: string)
    requires Joined(net, f, s, t) && s != t
    ensures s in EdgesOf(net) && t in EdgesOf(net)[s]
  {
    Interfaces(net, f);
  }

  lemma EdgeIsJoined(net: Net, s: string, t: string) returns (f: string)
    requires s in EdgesOf(net) && t in EdgesOf(net)[s]
    ensures Joined(net, f, s, t)
  {
    f :| Joined(net, f, s, t);
  }

  /** Crossing one forwarder brings a host at most one step nearer. */
  lemma CandidateIsNoNearer(net: Net, i: string, dest: string, f: string, out: string)
    requires WellFormed(net) && f in net.forwarders && Shares(net, i, f, out)
    requires Steps(net, f, dest) < FAR
    ensures Steps(net, i, dest) <= Steps(net, f, dest) + 1
  {
    var s := HopsWitness(net, f, dest);
    if out != s {
      JoinedIsEdge(net, f, out, s);
      Graph.DistanceStep(EdgesOf(net), out, s, dest);
    }
    HopsAtMost(net, i, out, dest);
  }

  /** The first forwarder of a shortest path is a candidate, one step nearer. */
  lemma CandidateExists(net: Net, i: string, dest: string) returns (f: string)
    requires WellFormed(net) && dest in Destinations(net, i)
    ensures 1 <= Steps(net, i, dest) < FAR
    ensures Candidate(net, i, dest, f)
    ensures Steps(net, f, dest) == Steps(net, i, dest) - 1
  {
    var r :| r in SegmentsOf(net, i) && Graph.Connected(EdgesOf(net), r, dest);
    HopsAtMost(net, i, r, dest);
    var s := HopsWitness(net, i, dest);
    f := FirstForwarder(net, s, dest);
    assert f != i;
    assert Shares(net, i, f, s);
    CandidateIsNoNearer(net, i, dest, f, s);
  }

  lemma FirstForwarder(net: Net, s: string, dest: string) returns (f: string)
    requires WellFormed(net) && s in net.data && s != dest && Graph.Connected(EdgesOf(net), s, dest)
    ensures f in net.forwarders && s in SegmentsOf(net, f)
    ensures Steps(net, f, dest) < Graph.Distance(EdgesOf(net), s, dest)
    ensures Steps(net, f, dest) < FAR
  {
    var n := Graph.Distance(EdgesOf(net), s, dest);
    var t := Graph.WalkFirst(EdgesOf(net), s, dest, n);
    f := EdgeIsJoined(net, s, t);
    assert Graph.Connected(EdgesOf(net), t, dest);
    HopsAtMost(net, f, t, dest);
  }

  lemma WinnersAreOneStepNearer(net: Net, i: string, dest: string)
    requires WellFormed(net) && dest in Destinations(net, i)
    ensures 1 <= Steps(net, i, dest) < FAR
    ensures Winners(net, i, dest) != {}
    ensures forall f :: f in Winners(net, i, dest) ==>
      Candidate(net, i, dest, f) && Steps(net, f, dest) == Steps(net, i, dest) - 1
  {
    var g := CandidateExists(net, i, dest);
    forall f | Candidate(net, i, dest, f)
      ensures Steps(net, f, dest) >= Steps(net, i, dest) - 1
    {
      var out :| Shares(net, i, f, out);
      CandidateIsNoNearer(net, i, dest, f, out);
    }
    assert Winner(net, i, dest, g);
    assert g in Winners(net, i, dest);
  }

  lemma OnlyOne(net: Net, i: string, dest: string)
    requires Winners(net, i, dest) != {}
    ensures (exists f :: Only(net, i, dest, f)) <==> |Winners(net, i, dest)| <= 1
  {
    var w := Winners(net, i, dest);
    var f :| f in w;
    if |w| <= 1 {
      assert |w - {f}| == 0;
      assert w == {f} + (w - {f});
      assert Only(net, i, dest, f);
    }
  }

  /** ``r`` goes via the one closest forwarder to its segment. */
  ghost predicate ViaOnly(net: Net, i: string, r: Route, f: string) {
    && Only(net, i, r.segment, f) && Candidate(net, i, r.segment, f)
    && r.segment in net.cidr
    && r == RouteVia(net, i, r.segment, f)
  }

  lemma RouteHereMember(net: Net, i: string, dest: string, r: Route)
    requires WellFormed(net) && dest in net.data
    ensures r in RouteHere(net, i, dest) <==> r.segment == dest && exists f :: ViaOnly(net, i, r, f)
  {
    if f :| Only(net, i, dest, f) {
      assert f in Winners(net, i, dest);
      forall g | Only(net, i, dest, g)
        ensures g == f
      {
        assert g in {f};
      }
      assert RouteHere(net, i, dest) == [RouteVia(net, i, dest, f)];
      assert r == RouteVia(net, i, dest, f) ==> ViaOnly(net, i, r, f);
    }
  }

  lemma {:induction false} RoutesToMember(net: Net, i: string, dests: seq<string>, r: Route)
    requires WellFormed(net) && forall d :: d in dests ==> d in net.data
    ensures r in RoutesTo(net, i, dests) <==> r.segment in dests && exists f :: ViaOnly(net, i, r, f)
  {
    if dests != [] {
      var last := dests[|dests| - 1];
      var before := dests[..|dests| - 1];
      RoutesToMember(net, i, before, r);
      RouteHereMember(net, i, last, r);
      assert r.segment in dests <==> r.segment in before || r.segment == last;
    }
  }

  /** A route exists exactly where the closest forwarder is unique, and names it. */
  lemma RoutesOfMember(net: Net, i: string, r: Route)
    requires WellFormed(net)
    ensures r in RoutesOf(net, i) <==> r.segment in Destinations(net, i) && exists f :: ViaOnly(net, i, r, f)
  {
    RoutesToMember(net, i, SortedSeq(Destinations(net, i)), r);
  }

  // ----- packets

  ghost function Planned(net: Net): map<string, seq<Route>>
    requires WellFormed(net)
  {
    map i | i in net.ids :: RoutesOf(net, i)
  }

  /** On each data segment an address names one instance. */
  ghost predicate UniqueAddresses(net: Net) {
    forall s, j, k :: s in net.data && AddressOn(net, j, s).Some? && AddressOn(net, j, s) == AddressOn(net, k, s) ==> j == k
  }

  /** ``i`` hands a packet for ``dest`` to whoever has the address its route names. */
  ghost predicate Forwards(net: Net, routes: map<string, seq<Route>>, i: string, dest: string, j: string) {
    && i in routes
    && exists r :: r in routes[i] && r.segment == dest && AddressOn(net, j, r.out) == Some(r.via)
  }

  /** Host ``k`` of a packet's way got it from the host before, which is not on ``dest``. */
  ghost predicate Hop(net: Net, routes: map<string, seq<Route>>, dest: string, hosts: seq<string>, k: nat)
    requires 0 < k < |hosts|
  {
    dest !in SegmentsOf(net, hosts[k - 1]) && Forwards(net, routes, hosts[k - 1], dest, hosts[k])
  }

  /** The hosts a packet visits, each passing it on by its own route. */
  ghost predicate Run(net: Net, routes: map<string, seq<Route>>, dest: string, hosts: seq<string>) {
    && hosts != []
    && forall k :: 0 < k < |hosts| ==> Hop(net, routes, dest, hosts, k)
  }

  /** One hop: the receiver is the one closest forwarder, on a shared segment, one step nearer. */
  ghost predicate Descends(net: Net, i: string, dest: string, j: string) {
    && dest in Destinations(net, i) && Only(net, i, dest, j)
    && j in net.forwarders && (exists out :: Shares(net, i, j, out))
    && Steps(net, i, dest) == Steps(net, j, dest) + 1 <= FAR
  }

  lemma ForwardingStep(net: Net, i: string, dest: string, j: string)
    requires WellFormed(net) && UniqueAddresses(net) && Forwards(net, Planned(net), i, dest, j)
    ensures Descends(net, i, dest, j)
  {
    var r :| r in RoutesOf(net, i) && r.segment == dest && AddressOn(net, j, r.out) == Some(r.via);
    RoutesOfMember(net, i, r);
    var f :| ViaOnly(net, i, r, f);
    assert f in Winners(net, i, dest);
    RouteOnWire(net, i, r, f);
    assert j == f;
    WinnersAreOneStepNearer(net, i, dest);
  }

  lemma RouteOnWire(net: Net, i: string, r: Route, f: string)
    requires ViaOnly(net, i, r, f)
    ensures Shares(net, i, f, r.out) && r.out in net.data && AddressOn(net, f, r.out) == Some(r.via)
  {
    Interface(net, f, r.out);
  }

  lemma HopDescends(net: Net, dest: string, hosts: seq<string>, k: nat)
    requires WellFormed(net) && UniqueAddresses(net) && Run(net, Planned(net), dest, hosts) && 0 < k < |hosts|
    ensures Steps(net, hosts[k - 1], dest) == Steps(net, hosts[k], dest) + 1
    ensures hosts[k] in net.forwarders
  {
    RunStep(net, dest, hosts, k);
    ForwardingStep(net, hosts[k - 1], dest, hosts[k]);
  }

  /** Whatever problems were reported, every hop brings a packet one step nearer. */
  lemma {:induction false} RunsDescend(net: Net, dest: string, hosts: seq<string>, k: nat)
    requires WellFormed(net) && UniqueAddresses(net) && Run(net, Planned(net), dest, hosts) && k < |hosts|
    ensures Steps(net, hosts[k], dest) + k == Steps(net, hosts[0], dest)
    ensures k > 0 ==> hosts[k] in net.forwarders
  {
    if k > 0 {
      RunsDescend(net, dest, hosts, k - 1);
      HopDescends(net, dest, hosts, k);
    }
  }

  /** Following routes never loops: no host sees a packet twice, and runs are bounded. */
  lemma RunsNeverLoop(net: Net, dest: string, hosts: seq<string>)
    requires WellFormed(net) && UniqueAddresses(net) && Run(net, Planned(net), dest, hosts)
    ensures Distinct(hosts) && |hosts| - 1 <= Steps(net, hosts[0], dest)
    ensures forall k :: 0 < k < |hosts| ==> hosts[k] in net.forwarders
  {
    forall k | 0 <= k < |hosts|
      ensures Steps(net, hosts[k], dest) + k == Steps(net, hosts[0], dest)
      ensures k > 0 ==> hosts[k] in net.forwarders
    {
      RunsDescend(net, dest, hosts, k);
    }
    assert Steps(net, hosts[|hosts| - 1], dest) + (|hosts| - 1) == Steps(net, hosts[0], dest);
    forall j, k | 0 <= j < k < |hosts|
      ensures hosts[j] != hosts[k]
    {
      assert Steps(net, hosts[j], dest) + j == Steps(net, hosts[0], dest);
    }
  }

  lemma RunStep(net: Net, dest: string, hosts: seq<string>, k: nat)
    requires WellFormed(net) && Run(net, Planned(net), dest, hosts) && 0 < k < |hosts|
    ensures Forwards(net, Planned(net), hosts[k - 1], dest, hosts[k])
  {
    assert Hop(net, Planned(net), dest, hosts, k);
  }

  lemma StepsAgree(net: Net, i: string, dest: string, j: string, k: string)
    requires WellFormed(net) && UniqueAddresses(net)
    requires Forwards(net, Planned(net), i, dest, j) && Forwards(net, Planned(net), i, dest, k)
    ensures j == k
  {
    ForwardingStep(net, i, dest, j);
    ForwardingStep(net, i, dest, k);
    assert j in {k};
  }

  lemma RunsAgreeNext(net: Net, dest: string, a: seq<string>, b: seq<string>, k: nat, h: string)
    requires WellFormed(net) && UniqueAddresses(net)
    requires Run(net, Planned(net), dest, a) && Run(net, Planned(net), dest, b)
    requires 0 < k < |a| && k < |b| && a[k - 1] == h && b[k - 1] == h
    ensures a[k] == b[k]
  {
    RunStep(net, dest, a, k);
    RunStep(net, dest, b, k);
    var x, y := a[k], b[k];
    StepsAgree(net, h, dest, x, y);
  }

  /** Two runs of a packet from one host agree as far as both go. */
  lemma {:induction false} RunsAgree(net: Net, dest: string, a: seq<string>, b: seq<string>, k: nat)
    requires WellFormed(net) && UniqueAddresses(net)
    requires Run(net, Planned(net), dest, a) && Run(net, Planned(net), dest, b) && a[0] == b[0]
    requires k < |a| && k < |b|
    ensures a[k] == b[k]
  {
    if k > 0 {
      RunsAgree(net, dest, a, b, k - 1);
      RunsAgreeNext(net, dest, a, b, k, a[k - 1]);
    }
  }

  ghost predicate NoAmbiguity(net: Net) {
    forall i, d :: i in net.ids && d in Destinations(net, i) ==> exists f :: Only(net, i, d, f)
  }

  /** The planner reports nothing exactly when every reachable destination has one best first hop. */
  lemma NoProblemsMeansUnique(net: Net)
    requires WellFormed(net)
    ensures Problems(net, net.ids) == [] <==> NoAmbiguity(net)
  {
    ProblemsEmpty(net, net.ids);
    forall i, d | i in net.ids && d in Destinations(net, i)
      ensures (exists f :: Only(net, i, d, f)) <==> |Winners(net, i, d)| <= 1
    {
      WinnersAreOneStepNearer(net, i, d);
      OnlyOne(net, i, d);
    }
  }

  lemma {:induction false} ProblemsEmpty(net: Net, ids: seq<string>)
    ensures Problems(net, ids) == [] <==> forall i, d :: i in ids && d in Destinations(net, i) ==> |Winners(net, i, d)| <= 1
  {
    if ids != [] {
      var last := ids[|ids| - 1];
      ProblemsEmpty(net, ids[..|ids| - 1]);
      ProblemsToEmpty(net, last, SortedSeq(Destinations(net, last)));
      assert forall i :: i in ids <==> i in ids[..|ids| - 1] || i == last;
    }
  }

  lemma {:induction false} ProblemsToEmpty(net: Net, i: string, dests: seq<string>)
    ensures ProblemsTo(net, i, dests) == [] <==> forall d :: d in dests ==> |Winners(net, i, d)| <= 1
  {
    if dests != [] {
      ProblemsToEmpty(net, i, dests[..|dests| - 1]);
      assert forall d :: d in dests <==> d in dests[..|dests| - 1] || d == dests[|dests| - 1];
    }
  }

  /** A host the destination is reachable from, but not on, forwards to its one closest forwarder. */
  lemma StepExists(net: Net, i: string, dest: string) returns (f: string, r: Route)
    requires WellFormed(net) && NoAmbiguity(net) && i in net.ids && dest in Destinations(net, i)
    ensures r in RoutesOf(net, i) && r.segment == dest
    ensures Forwards(net, Planned(net), i, dest, f)
    ensures f in net.ids && Only(net, i, dest, f)
    ensures Steps(net, i, dest) == Steps(net, f, dest) + 1 <= FAR
  {
    f :| Only(net, i, dest, f);
    assert f in Winners(net, i, dest);
    WinnersAreOneStepNearer(net, i, dest);
    r := RouteVia(net, i, dest, f);
    assert ViaOnly(net, i, r, f);
    RoutesOfMember(net, i, r);
    RouteOnWire(net, i, r, f);
  }

  lemma StillReachable(net: Net, f: string, dest: string)
    requires WellFormed(net) && dest in net.data && dest !in SegmentsOf(net, f) && Steps(net, f, dest) < FAR
    ensures dest in Destinations(net, f)
  {
    var s := HopsWitness(net, f, dest);
  }

  /** A run grows at the front by a host that forwards to its first one. */
  lemma ExtendRun(net: Net, i: string, dest: string, rest: seq<string>)
    requires WellFormed(net) && Run(net, Planned(net), dest, rest)
    requires dest !in SegmentsOf(net, i) && Forwards(net, Planned(net), i, dest, rest[0])
    ensures Run(net, Planned(net), dest, [i] + rest)
  {
    var hosts := [i] + rest;
    forall k | 0 < k < |hosts|
      ensures Hop(net, Planned(net), dest, hosts, k)
    {
      if k > 1 {
        assert Hop(net, Planned(net), dest, rest, k - 1);
      }
    }
  }

  /** The packet arrives, after as many forwarders as ``i`` is steps away. */
  ghost predicate Delivery(net: Net, i: string, dest: string, hosts: seq<string>)
    requires WellFormed(net)
  {
    && Run(net, Planned(net), dest, hosts) && hosts[0] == i
    && dest in SegmentsOf(net, hosts[|hosts| - 1])
    && |hosts| - 1 == Steps(net, i, dest)
  }

  /** One step of ``Arrives``: the next host, the segment now on link or still reachable. */
  lemma NextHost(net: Net, i: string, dest: string) returns (f: string)
    requires WellFormed(net) && NoAmbiguity(net) && i in net.ids && dest in Destinations(net, i)
    ensures f in net.ids && Forwards(net, Planned(net), i, dest, f)
    ensures Steps(net, i, dest) == Steps(net, f, dest) + 1
    ensures dest in SegmentsOf(net, f) || dest in Destinations(net, f)
  {
    var r;
    f, r := StepExists(net, i, dest);
    if dest !in SegmentsOf(net, f) {
      StillReachable(net, f, dest);
    }
  }

  lemma ExtendDelivery(net: Net, i: string, dest: string, f: string, rest: seq<string>)
    requires WellFormed(net) && Delivery(net, f, dest, rest)
    requires dest !in SegmentsOf(net, i) && Forwards(net, Planned(net), i, dest, f)
    requires Steps(net, i, dest) == Steps(net, f, dest) + 1
    ensures Delivery(net, i, dest, [i] + rest)
  {
    ExtendRun(net, i, dest, rest);
    var hosts := [i] + rest;
    assert hosts[|hosts| - 1] == rest[|rest| - 1];
  }

  lemma {:induction false} Arrives(net: Net, i: string, dest: string) returns (hosts: seq<string>)
    requires WellFormed(net) && NoAmbiguity(net) && i in net.ids && dest in net.data
    requires dest in SegmentsOf(net, i) || dest in Destinations(net, i)
    ensures Delivery(net, i, dest, hosts)
    decreases Steps(net, i, dest)
  {
    if dest in SegmentsOf(net, i) {
      hosts := [i];
      OnLinkIsZero(net, i, dest);
    } else {
      var f := NextHost(net, i, dest);
      var rest := Arrives(net, f, dest);
      ExtendDelivery(net, i, dest, f, rest);
      hosts := [i] + rest;
    }
  }

  /**
   * With no problem reported, a packet to any segment its host has a route to arrives, through
   * exactly one forwarder more than the chosen forwarder's own distance.
   */
  lemma Delivers(net: Net, i: string, r: Route) returns (hosts: seq<string>, f: string)
    requires WellFormed(net) && NoAmbiguity(net) && i in net.ids && r in RoutesOf(net, i)
    ensures Run(net, Planned(net), r.segment, hosts) && hosts[0] == i
    ensures r.segment in SegmentsOf(net, hosts[|hosts| - 1])
    ensures f in net.forwarders && AddressOn(net, f, r.out) == Some(r.via)
    ensures |hosts| - 1 == Steps(net, f, r.segment) + 1
  {
    RoutesOfMember(net, i, r);
    f :| ViaOnly(net, i, r, f);
    RouteOnWire(net, i, r, f);
    assert f in Winners(net, i, r.segment);
    WinnersAreOneStepNearer(net, i, r.segment);
    hosts := Arrives(net, i, r.segment);
  }

  lemma OnLinkIsZero(net: Net, f: string, dest: string)
    requires WellFormed(net) && dest in SegmentsOf(net, f)
    ensures Steps(net, f, dest) == 0
  {
    assert Graph.Walk(EdgesOf(net), dest, dest, 0);
    HopsAtMost(net, f, dest, dest);
  }

  /** Forwarders that carry a packet from ``i`` to ``dest``, each sharing a data segment with the one before. */
  ghost predicate Chain(net: Net, i: string, dest: string, fs: seq<string>)
    decreases |fs|
  {
    if fs == [] then dest in SegmentsOf(net, i)
    else fs[0] in net.forwarders && (exists out :: Shares(net, i, fs[0], out)) && Chain(net, fs[0], dest, fs[1..])
  }

  /** No chain of forwarders, routed or not, is shorter than the one the routes take. */
  lemma {:induction false} NoShorterChain(net: Net, i: string, dest: string, fs: seq<string>)
    requires WellFormed(net) && Chain(net, i, dest, fs)
    ensures Steps(net, i, dest) <= |fs|
    decreases |fs|
  {
    if fs == [] {
      OnLinkIsZero(net, i, dest);
    } else {
      NoShorterChain(net, fs[0], dest, fs[1..]);
      Interfaces(net, i);
      HopsIsLeast(net, SegmentsOf(net, i), dest);
      if Steps(net, fs[0], dest) < FAR {
        var out :| Shares(net, i, fs[0], out);
        CandidateIsNoNearer(net, i, dest, fs[0], out);
      }
    }
  }

  /** Every route planned for a topology carries its segment's prefix. */
  lemma RoutePrefix(s: Scenario, t: Topology, plan: AddressPlan, i: string, r: Route)
    requires var net := NetOf(s, t, plan); WellFormed(net) && i in Planned(net) && r in Planned(net)[i]
    ensures CarriesPrefix(t, r)
  {
    hide ViaOnly, RoutesOf, WellFormed, EdgesOf, CidrOf;
    var net := NetOf(s, t, plan);
    RoutesOfMember(net, i, r);
    RouteCidr(net, i, r);
    var k := CidrIsLast(t.segments, r.segment);
    assert LastNamed(t, k);
  }

  lemma RouteCidr(net: Net, i: string, r: Route)
    requires WellFormed(net) && r in RoutesOf(net, i)
    ensures r.segment in net.data && r.segment in net.cidr && r.cidr == net.cidr[r.segment]
  {
    hide RoutesOf, EdgesOf;
    RoutesOfMember(net, i, r);
  }

  // ----- reachable

  /** Check 10's question: a shared data segment, or a route to a segment of the target. */
  predicate Reachable(net: Net, routes: map<string, seq<Route>>, source: string, target: string) {
    || (exists s :: s in SegmentsOf(net, source) && s in SegmentsOf(net, target))
    || (source in routes && exists k :: 0 <= k < |routes[source]| && routes[source][k].segment in SegmentsOf(net, target))
  }

  /** Some data segment of one is joined to some data segment of the other by forwarders. */
  ghost predicate JoinedByForwarders(net: Net, a: string, b: string) {
    exists s, t :: s in SegmentsOf(net, a) && t in SegmentsOf(net, b) && Graph.Connected(EdgesOf(net), s, t)
  }

  lemma ReachableIsJoined(net: Net, a: string, b: string)
    requires WellFormed(net) && Reachable(net, Planned(net), a, b)
    ensures JoinedByForwarders(net, a, b)
  {
    hide WellFormed, RoutesOf, SegmentsOf, EdgesOf;
    if s :| s in SegmentsOf(net, a) && s in SegmentsOf(net, b) {
      assert Graph.Walk(EdgesOf(net), s, s, 0);
    } else {
      var k :| 0 <= k < |Planned(net)[a]| && Planned(net)[a][k].segment in SegmentsOf(net, b);
      RouteIsConnected(net, a, RoutesOf(net, a)[k]);
    }
  }

  lemma RouteIsConnected(net: Net, a: string, r: Route)
    requires WellFormed(net) && r in RoutesOf(net, a)
    ensures exists s :: s in SegmentsOf(net, a) && Graph.Connected(EdgesOf(net), s, r.segment)
  {
    hide ViaOnly, RoutesOf, Graph.Connected, WellFormed, EdgesOf;
    RoutesOfMember(net, a, r);
  }

  lemma JoinedIsReachable(net: Net, a: string, b: string)
    requires WellFormed(net) && NoAmbiguity(net) && a in net.ids && JoinedByForwarders(net, a, b)
    ensures Reachable(net, Planned(net), a, b)
  {
    var s, t :| s in SegmentsOf(net, a) && t in SegmentsOf(net, b) && Graph.Connected(EdgesOf(net), s, t);
    if t !in SegmentsOf(net, a) {
      assert t in Destinations(net, a);
      var f, r := StepExists(net, a, t);
      var k :| 0 <= k < |RoutesOf(net, a)| && RoutesOf(net, a)[k] == r;
      assert Planned(net)[a][k].segment in SegmentsOf(net, b);
    }
  }

  lemma ReachableIsConnectivity(net: Net, a: string, b: string)
    requires WellFormed(net) && NoAmbiguity(net) && a in net.ids
    ensures Reachable(net, Planned(net), a, b) <==> JoinedByForwarders(net, a, b)
  {
    if Reachable(net, Planned(net), a, b) {
      ReachableIsJoined(net, a, b);
    }
    if JoinedByForwarders(net, a, b) {
      JoinedIsReachable(net, a, b);
    }
  }

  lemma JoinedIsSymmetric(net: Net, a: string, b: string)
    requires JoinedByForwarders(net, a, b)
    ensures JoinedByForwarders(net, b, a)
  {
    var s, t :| s in SegmentsOf(net, a) && t in SegmentsOf(net, b) && Graph.Connected(EdgesOf(net), s, t);
    EdgesAreSound(net);
    Graph.WalkBack(EdgesOf(net), s, t, Graph.Distance(EdgesOf(net), s, t));
    assert Graph.Connected(EdgesOf(net), t, s);
  }

  lemma ReachableIsSymmetric(net: Net, a: string, b: string)
    requires WellFormed(net) && NoAmbiguity(net) && a in net.ids && b in net.ids
    ensures Reachable(net, Planned(net), a, b) <==> Reachable(net, Planned(net), b, a)
  {
    ReachableIsConnectivity(net, a, b);
    ReachableIsConnectivity(net, b, a);
    if JoinedByForwarders(net, a, b) {
      JoinedIsSymmetric(net, a, b);
    }
    if JoinedByForwarders(net, b, a) {
      JoinedIsSymmetric(net, b, a);
    }
  }

  // ----- the planner itself

  /** ``min((distance[s].get(dest, 10**9) for s in segs), default=10**9)``. */
  function MinHops(distance: map<string, map<string, nat>>, segs: seq<string>, dest: string): nat
    requires forall s :: s in segs ==> s in distance
  {
    if segs == [] then FAR
    else
      var rest := MinHops(distance, segs[1..], dest);
      var here := if dest in distance[segs[0]] then distance[segs[0]][dest] else FAR;
      if here < rest then here else rest
  }

  /** The distance tables of every data segment. */
  ghost predicate Tables(net: Net, distance: map<string, map<string, nat>>) {
    && distance.Keys == net.data
    && forall s :: s in distance ==> Graph.AreDistances(EdgesOf(net), s, distance[s])
  }

  lemma {:induction false} MinHopsIsHops(net: Net, distance: map<string, map<string, nat>>, segs: seq<string>, dest: string)
    requires Tables(net, distance) && forall s :: s in segs ==> s in distance
    ensures MinHops(distance, segs, dest) == Hops(net, segs, dest)
  {
    if segs != [] {
      MinHopsIsHops(net, distance, segs[1..], dest);
      assert segs[0] in segs;
      assert Graph.AreDistances(EdgesOf(net), segs[0], distance[segs[0]]);
    }
  }

  /** Every forwarder with its data segments. */
  ghost predicate Attached(net: Net, attached: map<string, seq<string>>) {
    && (forall f :: f in attached <==> f in net.forwarders)
    && (forall f :: f in attached ==> attached[f] == SegmentsOf(net, f))
  }

  method Adjacency(net: Net, attached: map<string, seq<string>>) returns (adjacent: Graph.Edges)
    requires Attached(net, attached)
    ensures adjacent == EdgesOf(net)
  {
    adjacent := map s | s in net.data :: {};
    var todo := attached.Keys;
    while todo != {}
      invariant todo <= attached.Keys && adjacent.Keys == net.data
      invariant forall s, t :: s in adjacent ==>
        (t in adjacent[s] <==> t != s && exists f :: f !in todo && Joined(net, f, s, t))
      decreases todo
    {
      var f :| f in todo;
      todo := todo - {f};
      ghost var was := adjacent;
      var segs := attached[f];
      adjacent := map s | s in adjacent ::
        if s in segs then adjacent[s] + (set x | x in segs && x != s) else adjacent[s];
      forall s, t | s in adjacent
        ensures t in adjacent[s] <==> t != s && exists g :: g !in todo && Joined(net, g, s, t)
      {
        assert t in adjacent[s] <==> t in was[s] || (t != s && Joined(net, f, s, t));
      }
    }
    forall f, s, t | Joined(net, f, s, t)
      ensures t in net.data
    {
      Interfaces(net, f);
    }
    assert forall s :: s in net.data ==> adjacent[s] == EdgesOf(net)[s];
  }

  /** What one forwarder's segments leave in ``best``: the first shared one, at its distance. */
  ghost predicate Entry(segs: seq<string>, mine: seq<string>, hops: nat, entry: Option<(string, nat)>) {
    if hops < FAR && exists x :: x in segs && x in mine then entry == Some((FirstShared(segs, mine), hops))
    else entry == None
  }

  method EntryOf(distance: map<string, map<string, nat>>, segs: seq<string>, mine: seq<string>, dest: string)
    returns (entry: Option<(string, nat)>)
    requires forall s :: s in segs ==> s in distance
    ensures Entry(segs, mine, MinHops(distance, segs, dest), entry)
  {
    entry := None;
    for k := 0 to |segs|
      invariant entry.Some? <==> (exists x :: x in segs[..k] && x in mine) && MinHops(distance, segs, dest) < FAR
      invariant entry.Some? ==>
        (exists x :: x in segs && x in mine) && entry.value == (FirstShared(segs, mine), MinHops(distance, segs, dest))
    {
      var out := segs[k];
      assert segs[..k + 1] == segs[..k] + [out];
      if out !in mine {
        continue;
      }
      var hops := MinHops(distance, segs, dest);
      if hops < (match entry case None => FAR case Some(e) => e.1) {
        FirstSharedAt(segs, mine, k);
        entry := Some((out, hops));
      }
    }
    assert segs[..|segs|] == segs;
  }

  ghost predicate Best(net: Net, i: string, dest: string, f: string, entry: (string, nat)) {
    && Candidate(net, i, dest, f)
    && entry == (FirstShared(SegmentsOf(net, f), SegmentsOf(net, i)), Steps(net, f, dest))
  }

  lemma EntryIsBest(net: Net, i: string, dest: string, f: string, entry: Option<(string, nat)>)
    requires f in net.forwarders && f != i
    requires Entry(SegmentsOf(net, f), SegmentsOf(net, i), Steps(net, f, dest), entry)
    ensures entry.Some? <==> Candidate(net, i, dest, f)
    ensures entry.Some? ==> Best(net, i, dest, f, entry.value)
  {
    if x :| x in SegmentsOf(net, f) && x in SegmentsOf(net, i) {
      assert Shares(net, i, f, x);
    }
  }

  ghost predicate Candidates(net: Net, i: string, dest: string, best: map<string, (string, nat)>) {
    && (forall f :: f in best <==> Candidate(net, i, dest, f))
    && (forall f :: f in best ==> Best(net, i, dest, f, best[f]))
  }

  /** The candidate first hops of one instance to one destination: forwarder to (out, hops). */
  method FirstHops(net: Net, attached: map<string, seq<string>>, distance: map<string, map<string, nat>>, i: string, dest: string)
    returns (best: map<string, (string, nat)>)
    requires Attached(net, attached)
    requires Tables(net, distance)
    ensures Candidates(net, i, dest, best)
  {
    best := map[];
    var mine := SegmentsOf(net, i);
    var todo := attached.Keys;
    while todo != {}
      invariant todo <= attached.Keys
      invariant forall f :: f in best <==> Candidate(net, i, dest, f) && f !in todo
      invariant forall f :: f in best ==> Best(net, i, dest, f, best[f])
      decreases todo
    {
      var f :| f in todo;
      todo := todo - {f};
      if f == i {
        continue;
      }
      Interfaces(net, f);
      var entry := EntryOf(distance, attached[f], mine, dest);
      MinHopsIsHops(net, distance, attached[f], dest);
      EntryIsBest(net, i, dest, f, entry);
      if entry.Some? {
        best := best[f := entry.value];
      }
    }
  }

  /** The forwarders with the fewest hops among the candidates. */
  method Closest(net: Net, i: string, dest: string, best: map<string, (string, nat)>) returns (winners: seq<string>)
    requires best != map[] && Candidates(net, i, dest, best)
    ensures winners == SortedSeq(Winners(net, i, dest))
  {
    var shortest := LeastHops(best);
    var nearest := set f | f in best && best[f].1 == shortest;
    NearestAreWinners(net, i, dest, best, shortest);
    winners := Sorted(nearest);
  }

  method LeastHops(best: map<string, (string, nat)>) returns (shortest: nat)
    requires best != map[]
    ensures forall f :: f in best ==> shortest <= best[f].1
    ensures exists f :: f in best && shortest == best[f].1
  {
    var todo := best.Keys;
    var g :| g in todo;
    shortest := best[g].1;
    while todo != {}
      invariant todo <= best.Keys
      invariant forall f :: f in best && f !in todo ==> shortest <= best[f].1
      invariant exists f :: f in best && shortest == best[f].1
      decreases todo
    {
      var f :| f in todo;
      todo := todo - {f};
      if best[f].1 < shortest {
        shortest := best[f].1;
      }
    }
  }

  lemma NearestAreWinners(net: Net, i: string, dest: string, best: map<string, (string, nat)>, shortest: nat)
    requires Candidates(net, i, dest, best)
    requires forall f :: f in best ==> shortest <= best[f].1
    requires exists f :: f in best && shortest == best[f].1
    ensures (set f | f in best && best[f].1 == shortest) == Winners(net, i, dest)
  {
    forall f
      ensures f in best && best[f].1 == shortest <==> f in Winners(net, i, dest)
    {
      if f in best && best[f].1 == shortest {
        forall g | Candidate(net, i, dest, g)
          ensures Steps(net, f, dest) <= Steps(net, g, dest)
        {
          assert Best(net, i, dest, g, best[g]);
        }
        assert Best(net, i, dest, f, best[f]);
      }
      if f in Winners(net, i, dest) {
        var g :| g in best && shortest == best[g].1;
        assert Best(net, i, dest, g, best[g]) && Best(net, i, dest, f, best[f]);
      }
    }
  }

  lemma {:induction false} FirstSharedAt(segs: seq<string>, mine: seq<string>, k: nat)
    requires k < |segs| && segs[k] in mine && forall x :: x in segs[..k] ==> x !in mine
    ensures FirstShared(segs, mine) == segs[k]
  {
    if k > 0 {
      assert segs[0] in segs[..k];
      assert forall x :: x in segs[1..][..k - 1] ==> x in segs[..k];
      FirstSharedAt(segs[1..], mine, k - 1);
    }
  }

  lemma SortedSize(s: set<string>)
    ensures |SortedSeq(s)| == |s|
    decreases s
  {
    DistinctCount(SortedSeq(s));
  }

  lemma {:induction false} DistinctCount(r: seq<string>)
    requires Ascending(r)
    ensures |Elements(r)| == |r|
  {
    if r != [] {
      var before := r[..|r| - 1];
      DistinctCount(before);
      var last := r[|r| - 1];
      assert last !in before by {
        if last in before {
          var k :| 0 <= k < |before| && before[k] == last;
          assert Before(r[k], last);
          BeforeIrreflexive(last);
        }
      }
      assert Elements(r) == Elements(before) + {last};
    }
  }

  /** The route to one destination, or why there is none. */
  method PlanDestination(net: Net, attached: map<string, seq<string>>, distance: map<string, map<string, nat>>,
        i: string, dest: string)
    returns (found: seq<Route>, problems: seq<Problem>)
    requires WellFormed(net) && Tables(net, distance) && Attached(net, attached)
    requires dest in Destinations(net, i)
    ensures found == RouteHere(net, i, dest) && problems == ProblemHere(net, i, dest)
  {
    found, problems := [], [];
    var best := FirstHops(net, attached, distance, i, dest);
    var g := CandidateExists(net, i, dest);
    assert g in best;
    var winners := Closest(net, i, dest, best);
    SortedWinners(net, i, dest, winners);
    if |winners| > 1 {
      problems := [Ambiguous(i, dest, winners)];
    } else {
      var via := winners[0];
      var out := best[via].0;
      OnlyIs(net, i, dest, via, best[via]);
      found := [Route(dest, net.cidr[dest], AddressOn(net, via, out).value, out)];
    }
  }

  lemma SortedWinners(net: Net, i: string, dest: string, winners: seq<string>)
    requires WellFormed(net) && dest in Destinations(net, i)
    requires winners == SortedSeq(Winners(net, i, dest))
    ensures winners != [] && Winner(net, i, dest, winners[0])
    ensures if |winners| > 1 then ProblemHere(net, i, dest) == [Ambiguous(i, dest, winners)] && RouteHere(net, i, dest) == []
            else ProblemHere(net, i, dest) == [] && exists f :: Only(net, i, dest, f)
  {
    WinnersAreOneStepNearer(net, i, dest);
    SortedSize(Winners(net, i, dest));
    OnlyOne(net, i, dest);
    assert winners[0] in winners;
  }

  /** One instance's routes, destination by destination, and what stopped some of them. */
  method PlanInstance(net: Net, attached: map<string, seq<string>>, distance: map<string, map<string, nat>>, i: string)
    returns (found: seq<Route>, problems: seq<Problem>)
    requires WellFormed(net) && Tables(net, distance) && Attached(net, attached)
    ensures found == RoutesOf(net, i)
    ensures problems == ProblemsTo(net, i, SortedSeq(Destinations(net, i)))
  {
    hide WellFormed, Attached, RouteHere, ProblemHere, Destinations, SegmentsOf, ReachedFrom, SortedSeq;
    found, problems := [], [];
    var mine := SegmentsOf(net, i);
    ReachedIsDestinations(net, distance, i);
    var dests := Sorted(ReachedFrom(distance, mine));
    for n := 0 to |dests|
      invariant found == RoutesTo(net, i, dests[..n])
      invariant problems == ProblemsTo(net, i, dests[..n])
    {
      assert dests[..n + 1][..n] == dests[..n];
      assert dests[n] in dests;
      var more, wrong := PlanDestination(net, attached, distance, i, dests[n]);
      found := found + more;
      problems := problems + wrong;
    }
    assert dests[..|dests|] == dests;
  }

  lemma OnlyIs(net: Net, i: string, dest: string, via: string, entry: (string, nat))
    requires WellFormed(net) && dest in net.data && Best(net, i, dest, via, entry)
    requires Winner(net, i, dest, via) && exists f :: Only(net, i, dest, f)
    ensures AddressOn(net, via, entry.0).Some?
    ensures RouteHere(net, i, dest) == [Route(dest, net.cidr[dest], AddressOn(net, via, entry.0).value, entry.0)]
  {
    Interface(net, via, entry.0);
    assert via in Winners(net, i, dest);
    forall f | Only(net, i, dest, f)
      ensures f == via
    {
      assert via in {f};
    }
  }

  /** The segments some distance is known to, from these and apart from these. */
  function ReachedFrom(distance: map<string, map<string, nat>>, mine: seq<string>): set<string>
    requires forall s :: s in mine ==> s in distance
  {
    (set s, d | s in mine && d in distance[s] :: d) - (set s | s in mine)
  }

  lemma ReachedIsDestinations(net: Net, distance: map<string, map<string, nat>>, i: string)
    requires Tables(net, distance)
    ensures forall s :: s in SegmentsOf(net, i) ==> s in distance
    ensures ReachedFrom(distance, SegmentsOf(net, i)) == Destinations(net, i)
  {
    Interfaces(net, i);
    EdgesAreSound(net);
    forall s, d | s in SegmentsOf(net, i)
      ensures d in distance[s] <==> d in net.data && Graph.Connected(EdgesOf(net), s, d)
    {
      assert Graph.AreDistances(EdgesOf(net), s, distance[s]);
      if Graph.Connected(EdgesOf(net), s, d) {
        Graph.WalkStaysInside(EdgesOf(net), s, d, Graph.Distance(EdgesOf(net), s, d));
      }
    }
  }

  method AllDistances(net: Net, adjacent: Graph.Edges) returns (distance: map<string, map<string, nat>>)
    requires adjacent == EdgesOf(net)
    ensures Tables(net, distance)
  {
    EdgesAreSound(net);
    distance := map[];
    var todo := net.data;
    while todo != {}
      invariant todo <= net.data && distance.Keys == net.data - todo
      invariant forall x :: x in distance ==> Graph.AreDistances(adjacent, x, distance[x])
      decreases todo
    {
      var x :| x in todo;
      todo := todo - {x};
      var d := Graph.Distances(x, adjacent);
      distance := distance[x := d];
    }
  }

  /** ``plan_routes``: every instance's static routes, and what stops some from existing. */
  method PlanRoutes(s: Scenario, t: Topology, plan: AddressPlan) returns (routes: map<string, seq<Route>>, problems: seq<Problem>)
    requires |t.segments| < FAR
    ensures WellFormed(NetOf(s, t, plan))
    ensures routes == Planned(NetOf(s, t, plan))
    ensures problems == Problems(NetOf(s, t, plan), NetOf(s, t, plan).ids)
    ensures forall i, r :: i in routes && r in routes[i] ==> CarriesPrefix(t, r)
  {
    hide WellFormed, Planned, Problems, CarriesPrefix;
    NetIsWellFormed(s, t, plan);
    routes, problems := PlanNet(NetOf(s, t, plan));
    forall i, r | i in routes && r in routes[i]
      ensures CarriesPrefix(t, r)
    {
      RoutePrefix(s, t, plan, i, r);
    }
  }

  method PlanNet(net: Net) returns (routes: map<string, seq<Route>>, problems: seq<Problem>)
    requires WellFormed(net)
    ensures routes == Planned(net)
    ensures problems == Problems(net, net.ids)
  {
    hide PlannedUpTo, RoutesOf, WellFormed, Planned;
    var attached := map f | f in net.forwarders :: SegmentsOf(net, f);
    var adjacent := Adjacency(net, attached);
    var distance := AllDistances(net, adjacent);
    routes, problems := map[], [];
    NonePlanned(net);
    for n := 0 to |net.ids|
      invariant PlannedUpTo(net, n, routes)
      invariant problems == Problems(net, net.ids[..n])
    {
      assert net.ids[..n + 1][..n] == net.ids[..n];
      var found, more := PlanInstance(net, attached, distance, net.ids[n]);
      problems := problems + more;
      PlanOneMore(net, n, routes);
      routes := routes[net.ids[n] := found];
    }
    assert net.ids[..|net.ids|] == net.ids;
    AllPlanned(net, routes);
  }

  lemma AllPlanned(net: Net, routes: map<string, seq<Route>>)
    requires WellFormed(net) && PlannedUpTo(net, |net.ids|, routes)
    ensures routes == Planned(net)
  {
    hide RoutesOf;
    assert net.ids[..|net.ids|] == net.ids;
    assert routes.Keys == Planned(net).Keys;
  }

  lemma NonePlanned(net: Net)
    requires WellFormed(net)
    ensures PlannedUpTo(net, 0, map[])
  {
  }

  ghost predicate PlannedUpTo(net: Net, n: nat, routes: map<string, seq<Route>>)
    requires WellFormed(net) && n <= |net.ids|
  {
    && (forall i :: i in routes <==> i in net.ids[..n])
    && (forall i :: i in routes ==> routes[i] == RoutesOf(net, i))
  }

  lemma PlanOneMore(net: Net, n: nat, routes: map<string, seq<Route>>)
    requires WellFormed(net) && n < |net.ids| && PlannedUpTo(net, n, routes)
    ensures PlannedUpTo(net, n + 1, routes[net.ids[n] := RoutesOf(net, net.ids[n])])
  {
    hide RoutesOf, WellFormed;
    assert net.ids[..n + 1] == net.ids[..n] + [net.ids[n]];
  }
}
