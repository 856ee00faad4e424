/**
 * The simulator's rendering of invocations as connections, and the fit's labelling of connections
 * as actions, which undoes it. Parameter values and ports are given parsed; flows are numbered.
 */
module SimLabel {
  import opened Wrappers
  import opened Ordering
  import Sorting

  datatype Endpoint = Endpoint(protocol: string, port: int, transport: string)

  datatype Peer = Peer(instance: string, address: string, served: seq<Endpoint>)

  datatype Connections = Exactly(n: nat) | Many

  datatype Signature = Signature(protocol: string, endpoints: seq<string>, connections: Connections,
        transport: string, port: Option<int>)

  datatype Param = Literal(value: string) | Choice(options: seq<string>)

  datatype Action = Action(signature: string, tie: string, path: Option<Param>, startPath: Option<Param>)

  datatype Behaviour = Behaviour(name: string, actionMap: OrderedMap<string, Option<Action>>)

  datatype Program = Program(instance: string, kind: string, behaviours: seq<Behaviour>, peers: map<string, seq<Peer>>)

  datatype Ports = NoPorts | OnePort(port: int) | Ranges(ranges: seq<(int, int)>)

  datatype Call = Call(signature: string, path: Option<string>, startPath: Option<string>, ports: Ports, targets: seq<Peer>)

  datatype Record = Record(instance: string, behaviour: string, state: string, invocation: string, start: real)

  datatype Five = Five(origAddr: string, origPort: int, respAddr: string, respPort: int, proto: string)

  /** ``flow`` is the native part of the sensor's id. */
  datatype Event =
    | Conn(flow: string, five: Five, start: real, rejected: bool)
    | App(flow: string, start: real, protocol: string, verb: string, host: string, uri: Option<string>)

  datatype World = World(
    signatures: map<string, Signature>,
    programs: seq<Program>,
    addresses: map<string, OrderedMap<string, string>>,
    records: seq<Record>,
    calls: map<string, Call>)

  // ----- rendering

  function PlanOf(w: World, instance: string): OrderedMap<string, string> {
    if instance in w.addresses then w.addresses[instance] else []
  }

  /** ``_source``. */
  function Source(mine: OrderedMap<string, string>, theirs: OrderedMap<string, string>, address: string): string {
    if theirs == [] then (if mine == [] then "0.0.0.0" else mine[0].1)
    else if theirs[0].1 == address && Has(mine, theirs[0].0) then Lookup(mine, theirs[0].0).value
    else Source(mine, theirs[1..], address)
  }

  lemma {:induction false} SourceIsMine(mine: OrderedMap<string, string>, theirs: OrderedMap<string, string>, address: string)
    requires mine != []
    ensures exists i :: 0 <= i < |mine| && mine[i].1 == Source(mine, theirs, address)
    decreases theirs
  {
    if theirs == [] {
      assert mine[0].1 == Source(mine, theirs, address);
    } else if theirs[0].1 == address && Has(mine, theirs[0].0) {
      var v := Lookup(mine, theirs[0].0).value;
      var i :| 0 <= i < |mine| && mine[i] == (theirs[0].0, v);
    } else {
      SourceIsMine(mine, theirs[1..], address);
    }
  }

  function FirstServed(served: seq<Endpoint>, protocols: seq<string>): Option<Endpoint> {
    if served == [] then None
    else if served[0].protocol in protocols then Some(served[0])
    else FirstServed(served[1..], protocols)
  }

  function Range(lo: int, hi: int): seq<int>
    decreases hi - lo
  {
    if lo > hi then [] else [lo] + Range(lo + 1, hi)
  }

  function AllRanges(ranges: seq<(int, int)>): seq<int> {
    if ranges == [] then [] else Range(ranges[0].0, ranges[0].1) + AllRanges(ranges[1..])
  }

  predicate Scan(s: Signature) {
    s.endpoints == [] && s.port.None?
  }

  /** ``_ports``. */
  function PortsOf(s: Signature, call: Call, target: Peer): seq<int> {
    if s.port.Some? then [s.port.value]
    else if s.endpoints != [] then
      match FirstServed(target.served, s.endpoints)
      case None => []
      case Some(e) => [e.port]
    else
      match call.ports
      case NoPorts => []
      case OnePort(p) => [p]
      case Ranges(ranges) => AllRanges(ranges)
  }

  function Repeat<T>(x: T, n: nat): (r: seq<T>)
    ensures |r| == n
  {
    seq(n, _ => x)
  }

  function PortSlots(target: Peer, ports: seq<int>, times: nat): seq<(Peer, int)> {
    if ports == [] then [] else Repeat((target, ports[0]), times) + PortSlots(target, ports[1..], times)
  }

  function TargetSlots(s: Signature, call: Call, targets: seq<Peer>, times: nat): seq<(Peer, int)> {
    if targets == [] then []
    else PortSlots(targets[0], PortsOf(s, call, targets[0]), times) + TargetSlots(s, call, targets[1..], times)
  }

  /** Where one invocation connects to, in order: each target, each port, as often as its shape says. */
  function Slots(s: Signature, call: Call): seq<(Peer, int)> {
    TargetSlots(s, call, call.targets, if Scan(s) || s.connections.Many? then 1 else s.connections.n)
  }

  function RequestPath<T>(path: Option<T>, startPath: Option<T>): Option<T> {
    if path.Some? then path else startPath
  }

  predicate Spoken(s: Signature) {
    s.protocol == "http" && !Scan(s)
  }

  function ConnAt(w: World, r: Record, s: Signature, slot: (Peer, int), n: nat): Event {
    Conn(Decimal(n),
         Five(Source(PlanOf(w, r.instance), PlanOf(w, slot.0.instance), slot.0.address), 49152 + n % 16384,
              slot.0.address, slot.1, s.transport),
         r.start, Scan(s))
  }

  /** ``part in s``. */
  predicate Contains(s: string, part: string) {
    part <= s || (s != "" && Contains(s[1..], part))
  }

  /** The application event of a connection, numbered ``n``, if its action speaks HTTP. */
  function AppAt(r: Record, call: Call, s: Signature, slot: (Peer, int), n: nat): (a: seq<Event>)
    ensures |a| <= 1 && forall x :: x in a ==> x.App? && x.flow == Decimal(n)
  {
    if Spoken(s) then
      [App(Decimal(n), r.start, "http", if Contains(call.signature, "post") then "POST" else "GET", slot.0.address,
           RequestPath(call.path, call.startPath))]
    else []
  }

  /** The events of one connection, numbered ``n``. */
  function SlotEvents(w: World, r: Record, call: Call, s: Signature, slot: (Peer, int), n: nat): seq<Event> {
    [ConnAt(w, r, s, slot, n)] + AppAt(r, call, s, slot, n)
  }

  function SlotsEvents(w: World, r: Record, call: Call, s: Signature, slots: seq<(Peer, int)>, before: nat): seq<Event> {
    if slots == [] then []
    else
      SlotsEvents(w, r, call, s, slots[..|slots| - 1], before)
      + SlotEvents(w, r, call, s, slots[|slots| - 1], before + |slots|)
  }

  /** What a record's implementation was asked for, if it was. */
  predicate Called(w: World, r: Record) {
    r.invocation in w.calls && w.calls[r.invocation].signature in w.signatures
  }

  function SlotsOf(w: World, r: Record): seq<(Peer, int)> {
    if Called(w, r) then Slots(w.signatures[w.calls[r.invocation].signature], w.calls[r.invocation]) else []
  }

  /** How many connections the first ``k`` records make. */
  function Numbered(w: World, k: nat): nat
    requires k <= |w.records|
  {
    if k == 0 then 0 else Numbered(w, k - 1) + |SlotsOf(w, w.records[k - 1])|
  }

  function RecordEvents(w: World, r: Record, before: nat): seq<Event> {
    if Called(w, r) then
      var call := w.calls[r.invocation];
      SlotsEvents(w, r, call, w.signatures[call.signature], SlotsOf(w, r), before)
    else []
  }

  function EventsOf(w: World, k: nat): seq<Event>
    requires k <= |w.records|
  {
    if k == 0 then [] else EventsOf(w, k - 1) + RecordEvents(w, w.records[k - 1], Numbered(w, k - 1))
  }

  /** ``_events``: every call's signature is a known one. */
  method Render(w: World) returns (events: seq<Event>)
    requires forall i :: i in w.calls ==> w.calls[i].signature in w.signatures
    ensures events == EventsOf(w, |w.records|)
  {
    hide RecordEvents, SlotsOf, Slots;
    events := [];
    var n := 0;
    for k := 0 to |w.records|
      invariant n == Numbered(w, k) && events == EventsOf(w, k)
    {
      var r := w.records[k];
      Uncalled(w, r, n);
      if r.invocation in w.calls {
        var call := w.calls[r.invocation];
        var more, last := RenderCall(w, r, call, w.signatures[call.signature], n);
        events, n := events + more, last;
      }
    }
  }

  /** Nothing on the wire for a record without a call. */
  lemma Uncalled(w: World, r: Record, before: nat)
    ensures !Called(w, r) ==> RecordEvents(w, r, before) == [] && SlotsOf(w, r) == []
    ensures Called(w, r) ==>
      var call := w.calls[r.invocation];
      var s := w.signatures[call.signature];
      RecordEvents(w, r, before) == SlotsEvents(w, r, call, s, Slots(s, call), before) && SlotsOf(w, r) == Slots(s, call)
  {
  }

  /** One call's connections, numbered on from ``before``. */
  method RenderCall(w: World, r: Record, call: Call, s: Signature, before: nat) returns (events: seq<Event>, n: nat)
    ensures events == SlotsEvents(w, r, call, s, Slots(s, call), before) && n == before + |Slots(s, call)|
  {
    hide Slots, SlotEvents;
    events, n := [], before;
    var slots := Slots(s, call);
    for j := 0 to |slots|
      invariant n == before + j && events == SlotsEvents(w, r, call, s, slots[..j], before)
    {
      n := n + 1;
      assert slots[..j + 1][..j] == slots[..j];
      events := events + SlotEvents(w, r, call, s, slots[j], n);
    }
    assert slots[..|slots|] == slots;
  }

  // ----- the vocabulary

  datatype Candidate = Candidate(instance: string, kind: string, behaviour: string, state: string, signature: string,
                                 endpoints: set<(string, Option<int>, string)>, paths: Option<set<string>>, many: bool)

  function Options(p: Param): set<string> {
    match p
    case Literal(v) => {v}
    case Choice(options) => set o | o in options
  }

  function PathsOf(a: Action): Option<set<string>> {
    match RequestPath(a.path, a.startPath)
    case None => None
    case Some(p) => Some(Options(p))
  }

  function PeerEndpoints(s: Signature, peer: Peer): set<(string, Option<int>, string)> {
    (set e | e in peer.served && e.protocol in s.endpoints :: (peer.address, Some(e.port), e.transport))
    + (if s.port.Some? then {(peer.address, s.port, s.transport)} else {})
    + if Scan(s) then {(peer.address, None, s.transport)} else {}
  }

  function Endpoints(s: Signature, peers: seq<Peer>): set<(string, Option<int>, string)> {
    if peers == [] then {} else PeerEndpoints(s, peers[0]) + Endpoints(s, peers[1..])
  }

  lemma {:induction false} EndpointOf(s: Signature, peers: seq<Peer>, k: nat)
    requires k < |peers|
    ensures PeerEndpoints(s, peers[k]) <= Endpoints(s, peers)
  {
    if k > 0 {
      EndpointOf(s, peers[1..], k - 1);
    }
  }

  function PeersOn(p: Program, tie: string): seq<Peer> {
    if tie in p.peers then p.peers[tie] else []
  }

  function CandidateFor(p: Program, behaviour: string, state: string, a: Action, s: Signature): Candidate {
    Candidate(p.instance, p.kind, behaviour, state, a.signature, Endpoints(s, PeersOn(p, a.tie)), PathsOf(a), s.connections.Many?)
  }

  /** The acting states of a behaviour. */
  function Acting(w: World, p: Program, behaviour: string, entries: OrderedMap<string, Option<Action>>): seq<Candidate> {
    if entries == [] then []
    else
      var last := entries[|entries| - 1];
      var before := Acting(w, p, behaviour, entries[..|entries| - 1]);
      if last.1.None? || last.1.value.signature !in w.signatures then before
      else before + [CandidateFor(p, behaviour, last.0, last.1.value, w.signatures[last.1.value.signature])]
  }

  function CandidatesIn(w: World, p: Program, behaviours: seq<Behaviour>): seq<Candidate> {
    if behaviours == [] then []
    else
      var last := behaviours[|behaviours| - 1];
      CandidatesIn(w, p, behaviours[..|behaviours| - 1]) + Acting(w, p, last.name, last.actionMap)
  }

  function CandidatesOf(w: World, p: Program): seq<Candidate> {
    CandidatesIn(w, p, p.behaviours)
  }

  /** ``extend`` once for each time the address is listed. */
  function Extended(mine: OrderedMap<string, string>, a: string, candidates: seq<Candidate>): seq<Candidate> {
    if mine == [] then []
    else Extended(mine[..|mine| - 1], a, candidates) + if mine[|mine| - 1].1 == a then candidates else []
  }

  /** The candidates of the first ``n`` programs at an address. */
  function ListedAt(w: World, n: nat, a: string): seq<Candidate>
    requires n <= |w.programs|
  {
    if n == 0 then []
    else ListedAt(w, n - 1, a) + Extended(PlanOf(w, w.programs[n - 1].instance), a, CandidatesOf(w, w.programs[n - 1]))
  }

  predicate Holds(mine: OrderedMap<string, string>, a: string) {
    exists i :: 0 <= i < |mine| && mine[i].1 == a
  }

  predicate Known(w: World, n: nat, a: string)
    requires n <= |w.programs|
  {
    exists k :: 0 <= k < n && Holds(PlanOf(w, w.programs[k].instance), a)
  }

  ghost predicate IsVocabulary(w: World, n: nat, vocabulary: map<string, seq<Candidate>>)
    requires n <= |w.programs|
  {
    forall a :: (a in vocabulary <==> Known(w, n, a)) && (a in vocabulary ==> vocabulary[a] == ListedAt(w, n, a))
  }

  /** Every action names a known signature, as the checks see to. */
  predicate SignaturesKnown(w: World) {
    forall p, b, e :: p in w.programs && b in p.behaviours && e in b.actionMap && e.1.Some? ==> e.1.value.signature in w.signatures
  }

  /** The last of the first ``n`` programs at an address. */
  function HolderOf(w: World, n: nat, a: string): Option<string>
    requires n <= |w.programs|
  {
    if n == 0 then None
    else if Holds(PlanOf(w, w.programs[n - 1].instance), a) then Some(w.programs[n - 1].instance)
    else HolderOf(w, n - 1, a)
  }

  ghost predicate IsInstanceOf(w: World, n: nat, instanceOf: map<string, string>)
    requires n <= |w.programs|
  {
    forall a :: (if a in instanceOf then Some(instanceOf[a]) else None) == HolderOf(w, n, a)
  }

  method NameAll(was: map<string, string>, mine: OrderedMap<string, string>, instance: string)
    returns (instanceOf: map<string, string>)
    ensures forall a :: a in instanceOf <==> a in was || Holds(mine, a)
    ensures forall a :: a in instanceOf ==> instanceOf[a] == if Holds(mine, a) then instance else was[a]
  {
    instanceOf := was;
    for i := 0 to |mine|
      invariant forall a :: a in instanceOf <==> a in was || Holds(mine[..i], a)
      invariant forall a :: a in instanceOf ==> instanceOf[a] == if Holds(mine[..i], a) then instance else was[a]
    {
      HoldsMore(mine, i);
      instanceOf := instanceOf[mine[i].1 := instance];
    }
    assert mine[..|mine|] == mine;
  }

  /** ``vocabulary``. */
  method BuildVocabulary(w: World) returns (vocabulary: map<string, seq<Candidate>>, instanceOf: map<string, string>)
    requires SignaturesKnown(w)
    ensures IsVocabulary(w, |w.programs|, vocabulary) && IsInstanceOf(w, |w.programs|, instanceOf)
  {
    hide CandidatesOf, Extended, PlanOf, Holds;
    vocabulary, instanceOf := map[], map[];
    for n := 0 to |w.programs|
      invariant IsVocabulary(w, n, vocabulary) && IsInstanceOf(w, n, instanceOf)
    {
      var mine, candidates := PlanOf(w, w.programs[n].instance), CandidatesOf(w, w.programs[n]);
      instanceOf := NameAll(instanceOf, mine, w.programs[n].instance);
      NotListed(w, n);
      Absentees(mine, candidates);
      ghost var was := vocabulary;
      vocabulary := ExtendAll(vocabulary, mine, candidates);
      VocabularyOn(w, n, was, vocabulary);
    }
  }

  ghost predicate ExtendedBy(was: map<string, seq<Candidate>>, mine: OrderedMap<string, string>, candidates: seq<Candidate>,
                             vocabulary: map<string, seq<Candidate>>)
  {
    && (forall a :: a in vocabulary <==> a in was || Holds(mine, a))
    && (forall a :: a in vocabulary ==> vocabulary[a] == (if a in was then was[a] else []) + Extended(mine, a, candidates))
  }

  lemma VocabularyOn(w: World, n: nat, was: map<string, seq<Candidate>>, vocabulary: map<string, seq<Candidate>>)
    requires n < |w.programs| && IsVocabulary(w, n, was)
    requires ExtendedBy(was, PlanOf(w, w.programs[n].instance), CandidatesOf(w, w.programs[n]), vocabulary)
    ensures IsVocabulary(w, n + 1, vocabulary)
  {
    hide CandidatesOf, Extended, PlanOf, Holds, Known, ListedAt;
    NotListed(w, n);
    forall a
      ensures a in vocabulary <==> Known(w, n + 1, a)
      ensures a in vocabulary ==> vocabulary[a] == ListedAt(w, n + 1, a)
    {
      KnownOn(w, n, a);
    }
  }

  lemma KnownOn(w: World, n: nat, a: string)
    requires n < |w.programs|
    ensures Known(w, n + 1, a) <==> Known(w, n, a) || Holds(PlanOf(w, w.programs[n].instance), a)
    ensures ListedAt(w, n + 1, a) ==
      ListedAt(w, n, a) + Extended(PlanOf(w, w.programs[n].instance), a, CandidatesOf(w, w.programs[n]))
  {
    hide Holds;
    if Holds(PlanOf(w, w.programs[n].instance), a) {
      assert 0 <= n < n + 1;
    }
  }

  method ExtendAll(was: map<string, seq<Candidate>>, mine: OrderedMap<string, string>, candidates: seq<Candidate>)
    returns (vocabulary: map<string, seq<Candidate>>)
    ensures ExtendedBy(was, mine, candidates, vocabulary)
  {
    vocabulary := was;
    for i := 0 to |mine|
      invariant ExtendedBy(was, mine[..i], candidates, vocabulary)
    {
      ExtendOne(was, mine, i, candidates, vocabulary);
      var a := mine[i].1;
      vocabulary := vocabulary[a := (if a in vocabulary then vocabulary[a] else []) + candidates];
    }
    assert mine[..|mine|] == mine;
  }

  lemma ExtendOne(was: map<string, seq<Candidate>>, mine: OrderedMap<string, string>, i: nat, candidates: seq<Candidate>,
                  vocabulary: map<string, seq<Candidate>>)
    requires i < |mine| && ExtendedBy(was, mine[..i], candidates, vocabulary)
    ensures var a := mine[i].1;
            ExtendedBy(was, mine[..i + 1], candidates, vocabulary[a := (if a in vocabulary then vocabulary[a] else []) + candidates])
  {
    hide Holds, Extended;
    var a := mine[i].1;
    var more := vocabulary[a := (if a in vocabulary then vocabulary[a] else []) + candidates];
    HoldsMore(mine, i);
    Absentees(mine[..i], candidates);
    forall b | b in more
      ensures more[b] == (if b in was then was[b] else []) + Extended(mine[..i + 1], b, candidates)
    {
      ExtendedOnce(mine, i, b, candidates);
      Associates(if b in was then was[b] else [], Extended(mine[..i], b, candidates), candidates);
    }
  }

  lemma ExtendedOnce(mine: OrderedMap<string, string>, i: nat, a: string, candidates: seq<Candidate>)
    requires i < |mine|
    ensures Extended(mine[..i + 1], a, candidates) == Extended(mine[..i], a, candidates) + if mine[i].1 == a then candidates else []
  {
    assert mine[..i + 1][..i] == mine[..i];
  }

  lemma Associates<T>(x: seq<T>, y: seq<T>, z: seq<T>)
    ensures x + y + z == x + (y + z)
  {
  }

  lemma Absentees(mine: OrderedMap<string, string>, candidates: seq<Candidate>)
    ensures forall a :: !Holds(mine, a) ==> Extended(mine, a, candidates) == []
  {
    forall a | !Holds(mine, a)
      ensures Extended(mine, a, candidates) == []
    {
      Absent(mine, a, candidates);
    }
  }

  lemma HoldsMore(mine: OrderedMap<string, string>, i: nat)
    requires i < |mine|
    ensures forall a :: Holds(mine[..i + 1], a) <==> Holds(mine[..i], a) || mine[i].1 == a
  {
    forall a
      ensures Holds(mine[..i + 1], a) <==> Holds(mine[..i], a) || mine[i].1 == a
    {
      if Holds(mine[..i], a) {
        var k :| 0 <= k < i && mine[..i][k].1 == a;
        assert mine[..i + 1][k].1 == a;
      }
      if Holds(mine[..i + 1], a) && mine[i].1 != a {
        var k :| 0 <= k < i + 1 && mine[..i + 1][k].1 == a;
        assert mine[..i][k].1 == a;
      }
      if mine[i].1 == a {
        assert mine[..i + 1][i].1 == a;
      }
    }
  }

  lemma {:induction false} Absent(mine: OrderedMap<string, string>, a: string, candidates: seq<Candidate>)
    ensures !Holds(mine, a) ==> Extended(mine, a, candidates) == []
  {
    if mine != [] && !Holds(mine, a) {
      var n := |mine| - 1;
      assert forall k :: 0 <= k < n ==> mine[..n][k] == mine[k];
      Absent(mine[..n], a, candidates);
    }
  }

  lemma {:induction false} NotListed(w: World, n: nat)
    requires n <= |w.programs|
    ensures forall a :: !Known(w, n, a) ==> ListedAt(w, n, a) == []
  {
    if n > 0 {
      NotListed(w, n - 1);
      forall a | !Known(w, n, a)
        ensures ListedAt(w, n, a) == []
      {
        Absent(PlanOf(w, w.programs[n - 1].instance), a, CandidatesOf(w, w.programs[n - 1]));
      }
    }
  }

  // ----- what a connection is

  datatype Found = Is(candidate: Candidate) | Not(reason: string)

  function Filter<T>(s: seq<T>, p: T -> bool): (r: seq<T>)
    ensures |r| <= |s|
  {
    if s == [] then []
    else
      var before := Filter(s[..|s| - 1], p);
      if p(s[|s| - 1]) then before + [s[|s| - 1]] else before
  }

  lemma {:induction false} FilterNone<T>(s: seq<T>, p: T -> bool)
    requires forall i :: 0 <= i < |s| ==> !p(s[i])
    ensures Filter(s, p) == []
  {
    if s != [] {
      FilterNone(s[..|s| - 1], p);
    }
  }

  lemma {:induction false} FilterOne<T>(s: seq<T>, p: T -> bool, m: nat)
    requires m < |s| && p(s[m]) && forall i :: 0 <= i < |s| && i != m ==> !p(s[i])
    ensures Filter(s, p) == [s[m]]
  {
    var n := |s| - 1;
    if m == n {
      FilterNone(s[..n], p);
    } else {
      FilterOne(s[..n], p, m);
    }
  }

  function Uris(apps: seq<Event>): set<string> {
    set a | a in apps && a.App? && a.uri.Some? :: a.uri.value
  }

  predicate Reaches(c: Candidate, five: Five) {
    (five.respAddr, Some(five.respPort), five.proto) in c.endpoints
  }

  predicate Sweeps(c: Candidate, five: Five) {
    (five.respAddr, None, five.proto) in c.endpoints
  }

  predicate Allows(c: Candidate, uris: set<string>) {
    c.paths.None? || uris * c.paths.value != {}
  }

  function ByReach(five: Five): Candidate -> bool {
    c => Reaches(c, five)
  }

  function BySweep(five: Five): Candidate -> bool {
    c => Sweeps(c, five)
  }

  function ByPath(uris: set<string>): Candidate -> bool {
    c => Allows(c, uris)
  }

  /** One hit is the one; of several the one the paths seen leave, if they leave one. */
  function Choose(hits: seq<Candidate>, uris: set<string>): Found {
    if |hits| > 1 then
      var narrowed := Filter(hits, ByPath(uris));
      if |narrowed| == 1 then Is(narrowed[0]) else Not("ambiguous")
    else if hits == [] then Not("no action")
    else Is(hits[0])
  }

  /** ``Vocabulary.match`` among the originator's candidates. */
  function MatchAmong(found: seq<Candidate>, five: Five, uris: set<string>): Found {
    var named := Filter(found, ByReach(five));
    Choose(if named == [] then Filter(found, BySweep(five)) else named, uris)
  }

  /** ``Vocabulary.match``. */
  function Match(vocabulary: map<string, seq<Candidate>>, five: Five, apps: seq<Event>): Found {
    if five.origAddr !in vocabulary then Not(UNKNOWN)
    else MatchAmong(vocabulary[five.origAddr], five, Uris(apps))
  }

  // ----- labelling

  /** Python's ``round``: to the nearest integer, halves to the even one. */
  function Round(x: real): int {
    var f := x.Floor;
    if x - f as real < 0.5 then f
    else if x - f as real > 0.5 then f + 1
    else if f % 2 == 0 then f else f + 1
  }

  function Copy(c: Event): (Five, int)
    requires c.Conn?
  {
    (c.five, Round(c.start * 1000.0))
  }

  predicate Earlier(a: Event, b: Event) {
    a.start <= b.start
  }

  function ConnsOf(events: seq<Event>): (r: seq<Event>)
    ensures forall i :: 0 <= i < |r| ==> r[i].Conn?
  {
    if events == [] then []
    else
      var before := ConnsOf(events[..|events| - 1]);
      if events[|events| - 1].Conn? then before + [events[|events| - 1]] else before
  }

  /** The application events of a flow. */
  function AppsOf(events: seq<Event>, flow: string): seq<Event> {
    if events == [] then []
    else
      var e := events[|events| - 1];
      var before := AppsOf(events[..|events| - 1], flow);
      if e.App? && e.flow == flow then before + [e] else before
  }

  /** The first of each connection seen at two points. */
  function FirstCopies(conns: seq<Event>): (r: seq<Event>)
    requires forall i :: 0 <= i < |conns| ==> conns[i].Conn?
    ensures forall i :: 0 <= i < |r| ==> r[i].Conn?
  {
    if conns == [] then []
    else
      var n := |conns| - 1;
      var before := FirstCopies(conns[..n]);
      if exists j :: 0 <= j < n && Copy(conns[j]) == Copy(conns[n]) then before else before + [conns[n]]
  }

  lemma SortedConns(conns: seq<Event>)
    requires forall i :: 0 <= i < |conns| ==> conns[i].Conn?
    ensures forall i :: 0 <= i < |Sorting.Sort(Earlier, conns)| ==> Sorting.Sort(Earlier, conns)[i].Conn?
  {
    Sorting.Sorted(Earlier, conns);
    var sorted := Sorting.Sort(Earlier, conns);
    forall i | 0 <= i < |sorted|
      ensures sorted[i].Conn?
    {
      assert sorted[i] in multiset(sorted);
      assert sorted[i] in multiset(conns);
    }
  }

  /** ``_dedupe``. */
  method Dedupe(conns: seq<Event>) returns (kept: seq<Event>)
    requires forall i :: 0 <= i < |conns| ==> conns[i].Conn?
    ensures forall i :: 0 <= i < |Sorting.Sort(Earlier, conns)| ==> Sorting.Sort(Earlier, conns)[i].Conn?
    ensures kept == FirstCopies(Sorting.Sort(Earlier, conns))
  {
    SortedConns(conns);
    var sorted := Sorting.Sort(Earlier, conns);
    kept := [];
    var seen: set<(Five, int)> := {};
    for n := 0 to |sorted|
      invariant seen == set j | 0 <= j < n :: Copy(sorted[j])
      invariant kept == FirstCopies(sorted[..n])
    {
      assert sorted[..n + 1][..n] == sorted[..n];
      assert forall j :: 0 <= j < n ==> sorted[..n + 1][j] == sorted[j];
      if Copy(sorted[n]) !in seen {
        kept := kept + [sorted[n]];
      }
      seen := seen + {Copy(sorted[n])};
    }
    assert sorted[..|sorted|] == sorted;
  }

  const UNKNOWN: string := "unknown originator"

  datatype Hit = Hit(start: real, state: string, many: bool)

  /** The order of Python's tuples. */
  predicate HitOrder(a: Hit, b: Hit) {
    a.start < b.start
    || (a.start == b.start && (Before(a.state, b.state) || (a.state == b.state && (a.many ==> b.many))))
  }

  /** Kind, behaviour and instance. */
  type Key = (string, string, string)

  function KeyOf(c: Candidate): Key {
    (c.kind, c.behaviour, c.instance)
  }

  predicate Inside(window: (real, real), c: Event) {
    window.0 <= c.start < window.1
  }

  function FoundAt(events: seq<Event>, vocabulary: map<string, seq<Candidate>>, c: Event): Found
    requires c.Conn?
  {
    Match(vocabulary, c.five, AppsOf(events, c.flow))
  }

  /** What the first connections of a key's behaviour are labelled. */
  function HitsOf(events: seq<Event>, vocabulary: map<string, seq<Candidate>>, window: (real, real),
        conns: seq<Event>, key: Key): seq<Hit>
    requires forall i :: 0 <= i < |conns| ==> conns[i].Conn?
  {
    if conns == [] then []
    else
      var n := |conns| - 1;
      var before, found := HitsOf(events, vocabulary, window, conns[..n], key), FoundAt(events, vocabulary, conns[n]);
      if Inside(window, conns[n]) && found.Is? && KeyOf(found.candidate) == key
      then before + [Hit(conns[n].start, found.candidate.state, found.candidate.many)]
      else before
  }

  function Misses(events: seq<Event>, vocabulary: map<string, seq<Candidate>>, window: (real, real),
        conns: seq<Event>, reason: string): nat
    requires forall i :: 0 <= i < |conns| ==> conns[i].Conn?
  {
    if conns == [] then 0
    else
      var n := |conns| - 1;
      Misses(events, vocabulary, window, conns[..n], reason)
      + if Inside(window, conns[n]) && FoundAt(events, vocabulary, conns[n]) == Not(reason) then 1 else 0
  }

  /** How many connections of an originator are from nobody known. */
  function Strangers(events: seq<Event>, vocabulary: map<string, seq<Candidate>>, window: (real, real),
        conns: seq<Event>, originator: string): nat
    requires forall i :: 0 <= i < |conns| ==> conns[i].Conn?
  {
    if conns == [] then 0
    else
      var n := |conns| - 1;
      Strangers(events, vocabulary, window, conns[..n], originator)
      + if Inside(window, conns[n]) && conns[n].five.origAddr == originator && FoundAt(events, vocabulary, conns[n]) == Not(UNKNOWN)
        then 1 else 0
  }

  predicate Web(events: seq<Event>, c: Event)
    requires c.Conn?
  {
    c.five.respPort in [80, 8080, 8000, 443] || exists a :: a in AppsOf(events, c.flow) && a.App? && a.protocol == "http"
  }

  /** The HTTP connections, and those of them with an application event. */
  function Coverage(events: seq<Event>, window: (real, real), conns: seq<Event>): (nat, nat)
    requires forall i :: 0 <= i < |conns| ==> conns[i].Conn?
  {
    if conns == [] then (0, 0)
    else
      var n := |conns| - 1;
      var (http, withApp) := Coverage(events, window, conns[..n]);
      if Inside(window, conns[n]) && Web(events, conns[n])
      then (http + 1, withApp + if AppsOf(events, conns[n].flow) != [] then 1 else 0)
      else (http, withApp)
  }

  /** A scan's connections within a second of the one before are that one's invocation. */
  function Fold(hits: seq<Hit>): seq<(real, string)> {
    if hits == [] then []
    else
      var h, kept := hits[|hits| - 1], Fold(hits[..|hits| - 1]);
      if h.many && kept != [] && kept[|kept| - 1].1 == h.state && h.start - kept[|kept| - 1].0 < 1.0 then kept
      else kept + [(h.start, h.state)]
  }

  /** The fit's stream of one behaviour of one instance. */
  function StreamOf(events: seq<Event>, vocabulary: map<string, seq<Candidate>>, window: (real, real), conns: seq<Event>, key: Key)
    : seq<(real, string)>
    requires forall i :: 0 <= i < |conns| ==> conns[i].Conn?
  {
    Fold(Sorting.Sort(HitOrder, HitsOf(events, vocabulary, window, conns, key)))
  }

  function WindowOf(window: Option<(real, real)>, conns: seq<Event>): (real, real) {
    match window
    case Some(given) => given
    case None => if conns == [] then (0.0, 0.0) else (conns[0].start, conns[|conns| - 1].start + 0.001)
  }

  predicate Wanted(vocabulary: map<string, seq<Candidate>>, key: Key) {
    exists a :: a in vocabulary && exists i :: 0 <= i < |vocabulary[a]| && KeyOf(vocabulary[a][i]) == key
  }

  /** Streams by kind, behaviour and instance, with one, maybe empty, for every candidate's. */
  ghost predicate Labelled(events: seq<Event>, vocabulary: map<string, seq<Candidate>>, window: (real, real), conns: seq<Event>,
                           streams: map<Key, seq<(real, string)>>, reasons: map<string, nat>)
    requires forall i :: 0 <= i < |conns| ==> conns[i].Conn?
  {
    && (forall key :: key in streams <==> HitsOf(events, vocabulary, window, conns, key) != [] || Wanted(vocabulary, key))
    && (forall key :: key in streams ==> streams[key] == StreamOf(events, vocabulary, window, conns, key))
    && (forall r :: (if r in reasons then reasons[r] else 0) == Misses(events, vocabulary, window, conns, r))
  }

  function HitsOn(hits: map<Key, seq<Hit>>, c: Event, found: Found): map<Key, seq<Hit>> {
    match found
    case Not(_) => hits
    case Is(f) => hits[KeyOf(f) := (if KeyOf(f) in hits then hits[KeyOf(f)] else []) + [Hit(c.start, f.state, f.many)]]
  }

  function ReasonsOn(reasons: map<string, nat>, found: Found): map<string, nat> {
    match found
    case Not(r) => reasons[r := (if r in reasons then reasons[r] else 0) + 1]
    case Is(_) => reasons
  }

  /** The tables of hits and reasons after some connections. */
  ghost predicate Tallied(events: seq<Event>, vocabulary: map<string, seq<Candidate>>, window: (real, real), conns: seq<Event>,
                          hits: map<Key, seq<Hit>>, reasons: map<string, nat>)
    requires forall i :: 0 <= i < |conns| ==> conns[i].Conn?
  {
    && (forall key :: (if key in hits then hits[key] else []) == HitsOf(events, vocabulary, window, conns, key))
    && (forall key :: key in hits ==> hits[key] != [])
    && (forall r :: (if r in reasons then reasons[r] else 0) == Misses(events, vocabulary, window, conns, r))
  }

  lemma TalliedOn(events: seq<Event>, vocabulary: map<string, seq<Candidate>>, window: (real, real), conns: seq<Event>, n: nat,
                  hits: map<Key, seq<Hit>>, reasons: map<string, nat>)
    requires (forall i :: 0 <= i < |conns| ==> conns[i].Conn?) && n < |conns|
    requires Tallied(events, vocabulary, window, conns[..n], hits, reasons)
    ensures var c, found := conns[n], FoundAt(events, vocabulary, conns[n]);
            Tallied(events, vocabulary, window, conns[..n + 1],
                    if Inside(window, c) then HitsOn(hits, c, found) else hits,
                    if Inside(window, c) then ReasonsOn(reasons, found) else reasons)
  {
    hide FoundAt, HitsOf, Misses, Inside, HitsOn, ReasonsOn;
    var c, found := conns[n], FoundAt(events, vocabulary, conns[n]);
    var hits' := if Inside(window, c) then HitsOn(hits, c, found) else hits;
    var reasons' := if Inside(window, c) then ReasonsOn(reasons, found) else reasons;
    var upTo := conns[..n + 1];
    forall key
      ensures (if key in hits' then hits'[key] else []) == HitsOf(events, vocabulary, window, upTo, key)
      ensures key in hits' ==> hits'[key] != []
    {
      HitsStep(events, vocabulary, window, conns, n, key);
      HitsOnAt(hits, c, found, key);
    }
    forall r
      ensures (if r in reasons' then reasons'[r] else 0) == Misses(events, vocabulary, window, upTo, r)
    {
      MissesStep(events, vocabulary, window, conns, n, r);
      ReasonsOnAt(reasons, found, r);
    }
  }

  lemma HitsOnAt(hits: map<Key, seq<Hit>>, c: Event, found: Found, key: Key)
    ensures var hits' := HitsOn(hits, c, found);
            && (if key in hits' then hits'[key] else []) ==
                 (if key in hits then hits[key] else [])
                 + (if found.Is? && KeyOf(found.candidate) == key then [Hit(c.start, found.candidate.state,
                       found.candidate.many)] else [])
            && (key in hits' ==> hits'[key] != [] || (key in hits && hits[key] == []))
  {
  }

  lemma ReasonsOnAt(reasons: map<string, nat>, found: Found, r: string)
    ensures var reasons' := ReasonsOn(reasons, found);
            (if r in reasons' then reasons'[r] else 0) == (if r in reasons then reasons[r] else 0) + if found == Not(r) then 1 else 0
  {
  }

  lemma HitsStep(events: seq<Event>, vocabulary: map<string, seq<Candidate>>, window: (real, real),
        conns: seq<Event>, n: nat, key: Key)
    requires (forall i :: 0 <= i < |conns| ==> conns[i].Conn?) && n < |conns|
    ensures var c, found := conns[n], FoundAt(events, vocabulary, conns[n]);
            HitsOf(events, vocabulary, window, conns[..n + 1], key) ==
              HitsOf(events, vocabulary, window, conns[..n], key)
              + if Inside(window, c) && found.Is? && KeyOf(found.candidate) == key
                then [Hit(c.start, found.candidate.state, found.candidate.many)] else []
  {
    hide FoundAt, KeyOf, Inside;
    assert conns[..n + 1][..n] == conns[..n];
  }

  lemma MissesStep(events: seq<Event>, vocabulary: map<string, seq<Candidate>>, window: (real, real),
        conns: seq<Event>, n: nat, r: string)
    requires (forall i :: 0 <= i < |conns| ==> conns[i].Conn?) && n < |conns|
    ensures Misses(events, vocabulary, window, conns[..n + 1], r) ==
      Misses(events, vocabulary, window, conns[..n], r)
      + if Inside(window, conns[n]) && FoundAt(events, vocabulary, conns[n]) == Not(r) then 1 else 0
  {
    hide FoundAt, Inside;
    assert conns[..n + 1][..n] == conns[..n];
  }

  method CountOriginators(events: seq<Event>, vocabulary: map<string, seq<Candidate>>, window: (real, real), conns: seq<Event>)
    returns (originators: map<string, nat>, http: nat, withApp: nat)
    requires forall i :: 0 <= i < |conns| ==> conns[i].Conn?
    ensures forall a :: (if a in originators then originators[a] else 0) == Strangers(events, vocabulary, window, conns, a)
    ensures (http, withApp) == Coverage(events, window, conns)
  {
    hide FoundAt, Inside, Web, AppsOf;
    originators, http, withApp := map[], 0, 0;
    for n := 0 to |conns|
      invariant forall a :: (if a in originators then originators[a] else 0) == Strangers(events, vocabulary, window, conns[..n], a)
      invariant (http, withApp) == Coverage(events, window, conns[..n])
    {
      assert conns[..n + 1][..n] == conns[..n];
      var c := conns[n];
      if Inside(window, c) {
        if Web(events, c) {
          http := http + 1;
          if AppsOf(events, c.flow) != [] {
            withApp := withApp + 1;
          }
        }
        if FoundAt(events, vocabulary, c) == Not(UNKNOWN) {
          var a := c.five.origAddr;
          originators := originators[a := (if a in originators then originators[a] else 0) + 1];
        }
      }
    }
    assert conns[..|conns|] == conns;
  }

  /** ``label``. */
  method Label(events: seq<Event>, vocabulary: map<string, seq<Candidate>>, window: Option<(real, real)>)
    returns (streams: map<Key, seq<(real, string)>>, reasons: map<string, nat>, conns: seq<Event>,
             originators: map<string, nat>, http: nat, withApp: nat)
    ensures forall i :: 0 <= i < |Sorting.Sort(Earlier, ConnsOf(events))| ==> Sorting.Sort(Earlier, ConnsOf(events))[i].Conn?
    ensures conns == FirstCopies(Sorting.Sort(Earlier, ConnsOf(events)))
    ensures Labelled(events, vocabulary, WindowOf(window, conns), conns, streams, reasons)
    ensures forall a :: (if a in originators then originators[a] else 0) ==
                        Strangers(events, vocabulary, WindowOf(window, conns), conns, a)
    ensures (http, withApp) == Coverage(events, WindowOf(window, conns), conns)
  {
    hide FoundAt, KeyOf, HitsOf, Misses, Inside, WindowOf, FirstCopies, Strangers, Coverage;
    conns := Dedupe(ConnsOf(events));
    var span := WindowOf(window, conns);
    var hits: map<Key, seq<Hit>> := map[];
    reasons := map[];
    NothingTallied(events, vocabulary, span);
    for n := 0 to |conns|
      invariant Tallied(events, vocabulary, span, conns[..n], hits, reasons)
    {
      var c := conns[n];
      TalliedOn(events, vocabulary, span, conns, n, hits, reasons);
      if !Inside(span, c) {
        continue;
      }
      var found := FoundAt(events, vocabulary, c);
      hits, reasons := HitsOn(hits, c, found), ReasonsOn(reasons, found);
    }
    assert conns[..|conns|] == conns;
    streams := FoldAll(hits, vocabulary);
    AllTallied(events, vocabulary, span, conns, hits, reasons, streams);
    originators, http, withApp := CountOriginators(events, vocabulary, span, conns);
  }

  lemma NothingTallied(events: seq<Event>, vocabulary: map<string, seq<Candidate>>, window: (real, real))
    ensures Tallied(events, vocabulary, window, [], map[], map[])
  {
  }

  lemma AllTallied(events: seq<Event>, vocabulary: map<string, seq<Candidate>>, window: (real, real), conns: seq<Event>,
                   hits: map<Key, seq<Hit>>, reasons: map<string, nat>, streams: map<Key, seq<(real, string)>>)
    requires (forall i :: 0 <= i < |conns| ==> conns[i].Conn?) && Tallied(events, vocabulary, window, conns, hits, reasons)
    requires forall key :: key in streams <==> key in hits || Wanted(vocabulary, key)
    requires forall key :: key in streams ==> streams[key] == Fold(Sorting.Sort(HitOrder, if key in hits then hits[key] else []))
    ensures Labelled(events, vocabulary, window, conns, streams, reasons)
  {
    hide HitsOf, Misses, Wanted, Fold;
    forall key
      ensures key in streams <==> HitsOf(events, vocabulary, window, conns, key) != [] || Wanted(vocabulary, key)
      ensures key in streams ==> streams[key] == StreamOf(events, vocabulary, window, conns, key)
    {
      assert (if key in hits then hits[key] else []) == HitsOf(events, vocabulary, window, conns, key);
    }
  }

  method FoldAll(hits: map<Key, seq<Hit>>, vocabulary: map<string, seq<Candidate>>) returns (streams: map<Key, seq<(real, string)>>)
    ensures forall key :: key in streams <==> key in hits || Wanted(vocabulary, key)
    ensures forall key :: key in streams ==> streams[key] == Fold(Sorting.Sort(HitOrder, if key in hits then hits[key] else []))
  {
    streams := map[];
    var todo := hits.Keys;
    while todo != {}
      invariant todo <= hits.Keys && streams.Keys == hits.Keys - todo
      invariant forall key :: key in streams ==> streams[key] == Fold(Sorting.Sort(HitOrder, hits[key]))
      decreases todo
    {
      var key :| key in todo;
      todo := todo - {key};
      var kept := FoldOne(Sorting.Sort(HitOrder, hits[key]));
      streams := streams[key := kept];
    }
    var wanted := set a, i | a in vocabulary && 0 <= i < |vocabulary[a]| :: KeyOf(vocabulary[a][i]);
    streams := (map key | key in wanted - streams.Keys :: []) + streams;
    assert forall key :: key in wanted <==> Wanted(vocabulary, key);
  }

  method FoldOne(hits: seq<Hit>) returns (kept: seq<(real, string)>)
    ensures kept == Fold(hits)
  {
    kept := [];
    for n := 0 to |hits|
      invariant kept == Fold(hits[..n])
    {
      assert hits[..n + 1][..n] == hits[..n];
      var h := hits[n];
      if h.many && kept != [] && kept[|kept| - 1].1 == h.state && h.start - kept[|kept| - 1].0 < 1.0 {
        continue;
      }
      kept := kept + [(h.start, h.state)];
    }
    assert hits[..|hits|] == hits;
  }
}
