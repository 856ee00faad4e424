/** Labelling undoes simulating: exactly when, and the proof. */
module SimThenLabel {
  import opened Wrappers
  import opened Ordering
  import opened SimLabel
  import opened TellApart
  import Sorting

  // ----- a simulated run

  ghost predicate DrawnFrom(p: Option<Param>, v: Option<string>) {
    (p.None? <==> v.None?) && (p.Some? ==> v.value in Options(p.value))
  }

  /** Record ``r`` is of entry ``e`` of behaviour ``b`` of program ``p``, and its call is that entry's action's. */
  ghost predicate Acts(w: World, r: Record, p: nat, b: nat, e: nat) {
    && p < |w.programs| && w.programs[p].instance == r.instance
    && b < |w.programs[p].behaviours| && w.programs[p].behaviours[b].name == r.behaviour
    && e < |w.programs[p].behaviours[b].actionMap|
    && var entry := w.programs[p].behaviours[b].actionMap[e];
       && entry.0 == r.state && entry.1.Some? && Called(w, r)
       && var call := w.calls[r.invocation];
          && call.signature == entry.1.value.signature
          && (forall t :: t in call.targets ==> t in PeersOn(w.programs[p], entry.1.value.tie))
          && DrawnFrom(entry.1.value.path, call.path) && DrawnFrom(entry.1.value.startPath, call.startPath)
  }

  lemma ActsIn(w: World, r: Record, p: nat, b: nat, e: nat)
    requires Acts(w, r, p, b, e)
    ensures p < |w.programs| && w.programs[p].instance == r.instance
    ensures b < |w.programs[p].behaviours| && w.programs[p].behaviours[b].name == r.behaviour
    ensures e < |w.programs[p].behaviours[b].actionMap| && w.programs[p].behaviours[b].actionMap[e].0 == r.state
    ensures w.programs[p].behaviours[b].actionMap[e].1.Some?
    ensures w.programs[p].behaviours[b].actionMap[e].1.value.signature in w.signatures
  {
  }

  /** Each invocation makes one connection. */
  predicate OneConnection(w: World, r: Record) {
    Called(w, r) && |SlotsOf(w, r)| == 1
  }

  /** No address is listed twice, as checks 9 and 10 see to (``Planes.PlannedAddressesAreOwn``). */
  ghost predicate OwnAddresses(w: World) {
    forall p, q, i, j ::
      && 0 <= p < |w.programs| && 0 <= q < |w.programs|
      && 0 <= i < |PlanOf(w, w.programs[p].instance)| && 0 <= j < |PlanOf(w, w.programs[q].instance)|
      && PlanOf(w, w.programs[p].instance)[i].1 == PlanOf(w, w.programs[q].instance)[j].1
      ==> p == q && i == j
  }

  /** A behaviour's name and a state's are used once, as check 11 and the dict see to. */
  ghost predicate OwnNames(w: World) {
    forall p :: 0 <= p < |w.programs| ==>
      && (forall b, c :: 0 <= b < c < |w.programs[p].behaviours| ==>
           w.programs[p].behaviours[b].name != w.programs[p].behaviours[c].name)
      && (forall b :: 0 <= b < |w.programs[p].behaviours| ==> DistinctKeys(w.programs[p].behaviours[b].actionMap))
  }

  /** The records of a run in time order, each making one connection as its state's action. */
  ghost predicate Simulated(w: World) {
    && (forall i, j :: 0 <= i < j < |w.records| ==> w.records[i].start <= w.records[j].start)
    && (forall k :: 0 <= k < |w.records| ==> RecordIsRun(w, w.records[k]))
    && OwnAddresses(w) && OwnNames(w)
  }

  ghost predicate RecordIsRun(w: World, r: Record) {
    && OneConnection(w, r) && PlanOf(w, r.instance) != []
    && exists p, b, e :: Acts(w, r, p, b, e)
  }

  /** The record's first connection, if it makes any, numbered ``n``. */
  function ConnOf(w: World, r: Record, n: nat): (c: Event)
    ensures c.Conn? && c.start == r.start && c.flow == Decimal(n) && c.five.origPort == 49152 + n % 16384
  {
    if Called(w, r) && SlotsOf(w, r) != [] then ConnAt(w, r, w.signatures[w.calls[r.invocation].signature], SlotsOf(w, r)[0], n)
    else Conn(Decimal(n), Five("", 49152 + n % 16384, "", 0, ""), r.start, false)
  }

  function AppsWith(w: World, r: Record, n: nat): (a: seq<Event>)
    requires OneConnection(w, r)
    ensures |a| <= 1 && forall x :: x in a ==> x.App? && x.flow == Decimal(n)
  {
    var call := w.calls[r.invocation];
    AppAt(r, call, w.signatures[call.signature], SlotsOf(w, r)[0], n)
  }

  /** The connections of the first ``k`` records. */
  function Conns(w: World, k: nat): (r: seq<Event>)
    requires k <= |w.records|
    ensures |r| == k && forall i :: 0 <= i < k ==> r[i].Conn?
  {
    seq(k, i requires 0 <= i < k => ConnOf(w, w.records[i], i + 1))
  }

  lemma ConnsSnoc(w: World, k: nat)
    requires 0 < k <= |w.records|
    ensures Conns(w, k) == Conns(w, k - 1) + [ConnOf(w, w.records[k - 1], k)]
  {
    hide ConnOf;
  }

  lemma RunAt(w: World, k: nat)
    requires Simulated(w) && k < |w.records|
    ensures OneConnection(w, w.records[k]) && Called(w, w.records[k]) && |SlotsOf(w, w.records[k])| == 1
    ensures PlanOf(w, w.records[k].instance) != [] && exists p, b, e :: Acts(w, w.records[k], p, b, e)
  {
    hide OwnAddresses, OwnNames;
    assert RecordIsRun(w, w.records[k]);
  }

  lemma OneEvent(w: World, r: Record, n: nat)
    requires OneConnection(w, r)
    ensures RecordEvents(w, r, n) == [ConnOf(w, r, n + 1)] + AppsWith(w, r, n + 1)
  {
    var call, slots := w.calls[r.invocation], SlotsOf(w, r);
    var s := w.signatures[call.signature];
    assert slots[..0] == [];
    assert SlotsEvents(w, r, call, s, slots, n) == SlotsEvents(w, r, call, s, slots[..0], n) + SlotEvents(w, r,
          call, s, slots[0], n + 1);
  }

  lemma ConnsOfSnoc(events: seq<Event>, c: Event, apps: seq<Event>)
    requires c.Conn? && |apps| <= 1 && forall a :: a in apps ==> a.App?
    ensures ConnsOf(events + ([c] + apps)) == ConnsOf(events) + [c]
  {
    assert (events + [c])[..|events|] == events;
    if apps != [] {
      assert apps == [apps[0]] && apps[0] in apps;
      var all := events + ([c] + apps);
      assert all[..|all| - 1] == events + [c];
      assert all[|all| - 1] == apps[0];
    } else {
      assert events + ([c] + apps) == events + [c];
    }
  }

  lemma AppsOfSnoc(events: seq<Event>, c: Event, apps: seq<Event>, flow: string)
    requires c.Conn? && |apps| <= 1 && forall a :: a in apps ==> a.App?
    ensures AppsOf(events + ([c] + apps), flow) == AppsOf(events, flow) + if apps != [] && apps[0].flow == flow then apps else []
  {
    assert (events + [c])[..|events|] == events;
    if apps != [] {
      var all := events + ([c] + apps);
      assert all[..|all| - 1] == events + [c];
      assert all[|all| - 1] == apps[0];
      assert apps == [apps[0]] && apps[0] in apps;
    } else {
      assert events + ([c] + apps) == events + [c];
    }
  }

  lemma OneMoreRecord(w: World, k: nat)
    requires Simulated(w) && k < |w.records| && OneConnection(w, w.records[k]) && Numbered(w, k) == k
    ensures Numbered(w, k + 1) == k + 1
    ensures EventsOf(w, k + 1) == EventsOf(w, k) + ([ConnOf(w, w.records[k], k + 1)] + AppsWith(w, w.records[k], k + 1))
  {
    hide ConnOf, AppsWith, RecordEvents, Simulated, OneConnection, SlotsOf;
    RunAt(w, k);
    OneEvent(w, w.records[k], k);
  }

  lemma NothingRendered(w: World, flow: string)
    ensures EventsOf(w, 0) == [] && Numbered(w, 0) == 0 && Conns(w, 0) == [] && ConnsOf([]) == [] && AppsOf([], flow) == []
  {
  }

  /** Connections are numbered as their records are. */
  lemma {:induction false} Rendered(w: World, k: nat)
    requires Simulated(w) && k <= |w.records|
    ensures Numbered(w, k) == k && ConnsOf(EventsOf(w, k)) == Conns(w, k)
  {
    hide *;
    if k == 0 {
      NothingRendered(w, "");
    } else {
      var r := w.records[k - 1];
      Rendered(w, k - 1);
      RunAt(w, k - 1);
      OneMoreRecord(w, k - 1);
      ConnsOfSnoc(EventsOf(w, k - 1), ConnOf(w, r, k), AppsWith(w, r, k));
      ConnsSnoc(w, k);
    }
  }

  lemma OneMoreApp(w: World, k: nat, flow: string)
    requires Simulated(w) && k < |w.records| && OneConnection(w, w.records[k])
    ensures AppsOf(EventsOf(w, k + 1), flow) ==
      AppsOf(EventsOf(w, k), flow) + if flow == Decimal(k + 1) then AppsWith(w, w.records[k], k + 1) else []
  {
    hide ConnOf, AppsWith, Simulated, Decimal, Numbered, EventsOf, AppsOf, Called;
    var c, apps := ConnOf(w, w.records[k], k + 1), AppsWith(w, w.records[k], k + 1);
    Rendered(w, k);
    OneMoreRecord(w, k);
    AppsOfSnoc(EventsOf(w, k), c, apps, flow);
    if apps != [] {
      assert apps[0] in apps;
    }
  }

  /** No flow of a later connection has application events yet. */
  lemma {:induction false} NoAppsYet(w: World, k: nat, i: nat)
    requires Simulated(w) && k <= i < |w.records|
    ensures AppsOf(EventsOf(w, k), Decimal(i + 1)) == []
  {
    hide *;
    if k == 0 {
      NothingRendered(w, Decimal(i + 1));
    } else {
      RunAt(w, k - 1);
      NoAppsYet(w, k - 1, i);
      OneMoreApp(w, k - 1, Decimal(i + 1));
      if Decimal(k) == Decimal(i + 1) {
        DecimalInjective(k, i + 1);
      }
    }
  }

  /** A flow's application events are those of its own connection. */
  lemma {:induction false} OwnApps(w: World, k: nat, i: nat)
    requires Simulated(w) && i < k <= |w.records| && OneConnection(w, w.records[i])
    ensures AppsOf(EventsOf(w, k), Decimal(i + 1)) == AppsWith(w, w.records[i], i + 1)
  {
    hide *;
    if i == k - 1 {
      NoAppsYet(w, i, i);
      OneMoreApp(w, i, Decimal(i + 1));
    } else {
      RunAt(w, k - 1);
      OwnApps(w, k - 1, i);
      OneMoreApp(w, k - 1, Decimal(i + 1));
      if Decimal(k) == Decimal(i + 1) {
        DecimalInjective(k, i + 1);
      }
    }
  }

  // ----- what is dropped as a copy

  /** An earlier connection has the five-tuple and the millisecond of record ``k``'s. */
  predicate Copied(w: World, k: nat)
    requires k < |w.records|
  {
    exists j :: 0 <= j < k && Copy(ConnOf(w, w.records[j], j + 1)) == Copy(ConnOf(w, w.records[k], k + 1))
  }

  predicate NoCopies(w: World) {
    forall k :: 0 <= k < |w.records| ==> !Copied(w, k)
  }

  /** Source ports come round after 16384 connections, so a copy is that many records after its original. */
  lemma CopyIsWrapped(w: World, j: nat, k: nat)
    requires j < k < |w.records|
    ensures Copy(ConnOf(w, w.records[j], j + 1)) == Copy(ConnOf(w, w.records[k], k + 1)) ==> (k - j) % 16384 == 0
  {
    var a, b := ConnOf(w, w.records[j], j + 1), ConnOf(w, w.records[k], k + 1);
    assert Copy(a) == Copy(b) ==> a.five.origPort == b.five.origPort;
    if (k - j) % 16384 != 0 {
      PortsDiffer(j + 1, k + 1);
    }
  }

  lemma PortsDiffer(m: nat, n: nat)
    requires m < n && (n - m) % 16384 != 0
    ensures m % 16384 != n % 16384
  {
  }

  /** Keeping first copies keeps everything exactly when no two are copies. */
  lemma {:induction false} AllFirst(conns: seq<Event>)
    requires forall i :: 0 <= i < |conns| ==> conns[i].Conn?
    ensures |FirstCopies(conns)| <= |conns|
    ensures |FirstCopies(conns)| == |conns| <==> forall i, j :: 0 <= i < j < |conns| ==> Copy(conns[i]) != Copy(conns[j])
    ensures |FirstCopies(conns)| == |conns| <==> FirstCopies(conns) == conns
  {
    hide Copy;
    if conns != [] {
      AllFirst(conns[..|conns| - 1]);
    }
  }

  lemma StartsInOrder(w: World)
    requires Simulated(w)
    ensures Sorting.InOrder(Earlier, Conns(w, |w.records|))
  {
    hide ConnOf, RecordIsRun, OwnAddresses, OwnNames;
    var conns := Conns(w, |w.records|);
    assert forall i :: 0 <= i < |conns| ==> conns[i].start == w.records[i].start;
  }

  /** Every simulated connection is kept exactly when no two agree on the five-tuple and on the millisecond. */
  lemma DedupeKeeps(w: World)
    requires Simulated(w)
    ensures var conns := Conns(w, |w.records|);
            Sorting.Sort(Earlier, conns) == conns && (FirstCopies(conns) == conns <==> NoCopies(w))
  {
    var conns := Conns(w, |w.records|);
    StartsInOrder(w);
    hide Simulated, Conns, NoCopies;
    Sorting.SortKeeps(Earlier, conns);
    AllFirst(conns);
    CopiesAmong(w);
  }

  lemma CopiesAmong(w: World)
    ensures var conns := Conns(w, |w.records|);
            (forall i, j :: 0 <= i < j < |conns| ==> Copy(conns[i]) != Copy(conns[j])) <==> NoCopies(w)
  {
    hide Copy, ConnOf;
    var conns := Conns(w, |w.records|);
    assert forall k :: 0 <= k < |conns| ==> conns[k] == ConnOf(w, w.records[k], k + 1);
    if NoCopies(w) {
      forall i, j | 0 <= i < j < |conns|
        ensures Copy(conns[i]) != Copy(conns[j])
      {
        assert !Copied(w, j);
      }
    } else {
      var k :| 0 <= k < |w.records| && Copied(w, k);
      var j :| 0 <= j < k && Copy(ConnOf(w, w.records[j], j + 1)) == Copy(ConnOf(w, w.records[k], k + 1));
      assert Copy(conns[j]) == Copy(conns[k]);
    }
  }

  lemma FirstCopiesSnoc(w: World, n: nat)
    requires 0 < n <= |w.records|
    ensures FirstCopies(Conns(w, n)) ==
      FirstCopies(Conns(w, n - 1)) + if Copied(w, n - 1) then [] else [ConnOf(w, w.records[n - 1], n)]
  {
    hide ConnOf, Copy;
    ConnsSnoc(w, n);
    var conns := Conns(w, n);
    assert conns[..n - 1] == Conns(w, n - 1);
    assert forall k :: 0 <= k < n ==> conns[k] == ConnOf(w, w.records[k], k + 1);
  }

  // ----- each connection is its record's action

  lemma {:induction false} ActingHas(w: World, p: Program, behaviour: string, entries: OrderedMap<string, Option<Action>>, e: nat)
    requires e < |entries| && entries[e].1.Some? && entries[e].1.value.signature in w.signatures
    ensures CandidateFor(p, behaviour, entries[e].0, entries[e].1.value, w.signatures[entries[e].1.value.signature])
      in Acting(w, p, behaviour, entries)
  {
    hide CandidateFor;
    if e < |entries| - 1 {
      ActingHas(w, p, behaviour, entries[..|entries| - 1], e);
    }
  }

  lemma {:induction false} CandidatesHave(w: World, p: Program, behaviours: seq<Behaviour>, b: nat, e: nat)
    requires b < |behaviours| && e < |behaviours[b].actionMap| && behaviours[b].actionMap[e].1.Some?
    requires behaviours[b].actionMap[e].1.value.signature in w.signatures
    ensures var entry := behaviours[b].actionMap[e];
            CandidateFor(p, behaviours[b].name, entry.0, entry.1.value, w.signatures[entry.1.value.signature])
              in CandidatesIn(w, p, behaviours)
  {
    hide CandidateFor;
    if b < |behaviours| - 1 {
      CandidatesHave(w, p, behaviours[..|behaviours| - 1], b, e);
    } else {
      ActingHas(w, p, behaviours[b].name, behaviours[b].actionMap, e);
    }
  }

  lemma {:induction false} ExtendedOnlyBy(mine: OrderedMap<string, string>, i: nat, a: string, candidates: seq<Candidate>)
    requires i < |mine| && mine[i].1 == a && forall j :: 0 <= j < |mine| && j != i ==> mine[j].1 != a
    ensures Extended(mine, a, candidates) == candidates
  {
    var n := |mine| - 1;
    if i < n {
      ExtendedOnlyBy(mine[..n], i, a, candidates);
    } else {
      assert !Holds(mine[..n], a);
      Absent(mine[..n], a, candidates);
    }
  }

  /** An address of an instance lists exactly its candidates. */
  lemma {:induction false} ListedOnlyBy(w: World, n: nat, p: nat, i: nat)
    requires p < n <= |w.programs| && OwnAddresses(w) && i < |PlanOf(w, w.programs[p].instance)|
    ensures ListedAt(w, n, PlanOf(w, w.programs[p].instance)[i].1) == CandidatesOf(w, w.programs[p])
  {
    hide CandidatesOf, PlanOf;
    var a, last := PlanOf(w, w.programs[p].instance)[i].1, PlanOf(w, w.programs[n - 1].instance);
    if p < n - 1 {
      ListedOnlyBy(w, n - 1, p, i);
      assert !Holds(last, a);
      Absent(last, a, CandidatesOf(w, w.programs[n - 1]));
    } else {
      ExtendedOnlyBy(last, i, a, CandidatesOf(w, w.programs[p]));
      assert !Known(w, n - 1, a) by {
        forall k | 0 <= k < n - 1
          ensures !Holds(PlanOf(w, w.programs[k].instance), a)
        {
        }
      }
      NotListed(w, n - 1);
    }
  }

  lemma {:induction false} ActingFrom(w: World, p: Program, behaviour: string, entries: OrderedMap<string, Option<Action>>,
                                      c: Candidate)
    returns (e: nat)
    requires c in Acting(w, p, behaviour, entries)
    ensures e < |entries| && entries[e].1.Some? && entries[e].1.value.signature in w.signatures
    ensures c == CandidateFor(p, behaviour, entries[e].0, entries[e].1.value, w.signatures[entries[e].1.value.signature])
  {
    hide CandidateFor;
    var n := |entries| - 1;
    if c in Acting(w, p, behaviour, entries[..n]) {
      e := ActingFrom(w, p, behaviour, entries[..n], c);
    } else {
      e := n;
    }
  }

  /** Every candidate of a program is of one of its entries. */
  lemma {:induction false} CandidateFrom(w: World, p: Program, behaviours: seq<Behaviour>, c: Candidate) returns (b: nat, e: nat)
    requires c in CandidatesIn(w, p, behaviours)
    ensures b < |behaviours| && e < |behaviours[b].actionMap| && behaviours[b].actionMap[e].1.Some?
    ensures var entry := behaviours[b].actionMap[e];
            && entry.1.value.signature in w.signatures
            && c == CandidateFor(p, behaviours[b].name, entry.0, entry.1.value, w.signatures[entry.1.value.signature])
  {
    hide CandidateFor;
    var n := |behaviours| - 1;
    if c in CandidatesIn(w, p, behaviours[..n]) {
      b, e := CandidateFrom(w, p, behaviours[..n], c);
    } else {
      b := n;
      e := ActingFrom(w, p, behaviours[n].name, behaviours[n].actionMap, c);
    }
  }

  /** A call that makes one connection has one target it makes it to, on one port. */
  lemma {:induction false} OneTarget(s: Signature, call: Call, targets: seq<Peer>, times: nat)
    requires |TargetSlots(s, call, targets, times)| == 1
    ensures var slot := TargetSlots(s, call, targets, times)[0];
            slot.0 in targets && slot.1 in PortsOf(s, call, slot.0)
  {
    var ports := PortsOf(s, call, targets[0]);
    var first := PortSlots(targets[0], ports, times);
    if first == [] {
      OneTarget(s, call, targets[1..], times);
    } else {
      assert TargetSlots(s, call, targets, times)[0] == first[0];
      SlotIsPort(targets[0], ports, times, 0);
    }
  }

  lemma {:induction false} SlotIsPort(target: Peer, ports: seq<int>, times: nat, k: nat)
    requires k < |PortSlots(target, ports, times)|
    ensures PortSlots(target, ports, times)[k].0 == target && PortSlots(target, ports, times)[k].1 in ports
  {
    if k >= times {
      SlotIsPort(target, ports[1..], times, k - times);
    }
  }

  lemma {:induction false} EndpointsAre(s: Signature, peers: seq<Peer>, x: (string, Option<int>, string))
    ensures x in Endpoints(s, peers) <==> exists k :: 0 <= k < |peers| && x in PeerEndpoints(s, peers[k])
  {
    hide PeerEndpoints;
    if peers != [] {
      EndpointsAre(s, peers[1..], x);
      if k :| 0 <= k < |peers| && x in PeerEndpoints(s, peers[k]) {
        if k > 0 {
          assert x in PeerEndpoints(s, peers[1..][k - 1]);
        }
      }
      if k :| 0 <= k < |peers[1..]| && x in PeerEndpoints(s, peers[1..][k]) {
        assert x in PeerEndpoints(s, peers[k + 1]);
      }
    }
  }

  /** Some peer at the address serves the protocol on this port over the signature's transport. */
  predicate ServedThere(s: Signature, peers: seq<Peer>, address: string, port: int) {
    exists k, e :: 0 <= k < |peers| && peers[k].address == address && e in peers[k].served
                   && e.protocol in s.endpoints && e.port == port && e.transport == s.transport
  }

  /** An action's connection is among its candidate's endpoints: a scan by its wildcard, any other by name if it is served there. */
  lemma ReachesOwn(w: World, r: Record, p: nat, b: nat, e: nat, n: nat)
    requires Acts(w, r, p, b, e) && OneConnection(w, r)
    ensures var a := w.programs[p].behaviours[b].actionMap[e].1.value;
            var s, slot, five := w.signatures[a.signature], SlotsOf(w, r)[0], ConnOf(w, r, n).five;
            var c := CandidateFor(w.programs[p], r.behaviour, r.state, a, s);
            && (Scan(s) ==> Sweeps(c, five) && !Reaches(c, five))
            && (s.port.Some? ==> Reaches(c, five))
            && (!Scan(s) && s.port.None? ==>
                  (Reaches(c, five) <==> ServedThere(s, PeersOn(w.programs[p], a.tie), slot.0.address, slot.1)))
  {
    var a, call := w.programs[p].behaviours[b].actionMap[e].1.value, w.calls[r.invocation];
    var s, slot, peers := w.signatures[a.signature], SlotsOf(w, r)[0], PeersOn(w.programs[p], a.tie);
    var five := ConnOf(w, r, n).five;
    OneTarget(s, call, call.targets, if Scan(s) || s.connections.Many? then 1 else s.connections.n);
    assert slot.0 in peers;
    var k :| 0 <= k < |peers| && peers[k] == slot.0;
    EndpointsAre(s, peers, (five.respAddr, Some(five.respPort), five.proto));
    EndpointsAre(s, peers, (five.respAddr, None, five.proto));
    if Scan(s) {
      assert (slot.0.address, None, s.transport) in PeerEndpoints(s, peers[k]);
    } else if s.port.Some? {
      assert (slot.0.address, s.port, s.transport) in PeerEndpoints(s, peers[k]);
    }
  }

  lemma UrisOfOne(w: World, r: Record, n: nat)
    requires OneConnection(w, r)
    ensures var call := w.calls[r.invocation];
            var uri := RequestPath(call.path, call.startPath);
            Uris(AppsWith(w, r, n)) == if Spoken(w.signatures[call.signature]) && uri.Some? then {uri.value} else {}
  {
    var call, apps := w.calls[r.invocation], AppsWith(w, r, n);
    var uri := RequestPath(call.path, call.startPath);
    if apps != [] && uri.Some? {
      assert apps[0] in apps && apps[0].uri == uri;
    }
  }

  function Mine(w: World, r: Record, p: nat, b: nat, e: nat): Candidate
    requires p < |w.programs| && b < |w.programs[p].behaviours| && e < |w.programs[p].behaviours[b].actionMap|
    requires w.programs[p].behaviours[b].actionMap[e].1.Some?
    requires w.programs[p].behaviours[b].actionMap[e].1.value.signature in w.signatures
  {
    var a := w.programs[p].behaviours[b].actionMap[e].1.value;
    CandidateFor(w.programs[p], r.behaviour, r.state, a, w.signatures[a.signature])
  }

  /** Record ``k``'s connection, with the path it shows, is told apart as its own action's. */
  ghost predicate ToldAs(w: World, k: nat, p: nat, b: nat, e: nat, m: nat)
    requires k < |w.records|
  {
    && Acts(w, w.records[k], p, b, e) && OneConnection(w, w.records[k])
    && m < |CandidatesOf(w, w.programs[p])| && CandidatesOf(w, w.programs[p])[m] == Mine(w, w.records[k], p, b, e)
    && Told(CandidatesOf(w, w.programs[p]), m, ConnOf(w, w.records[k], k + 1).five, Uris(AppsWith(w, w.records[k], k + 1)))
  }

  ghost predicate ToldApart(w: World, k: nat)
    requires k < |w.records|
  {
    exists p, b, e, m :: ToldAs(w, k, p, b, e, m)
  }

  ghost predicate AllTold(w: World) {
    forall k :: 0 <= k < |w.records| ==> ToldApart(w, k)
  }

  /** What is shown of a record's connection is what its action can show. */
  lemma ShowsItsPath(w: World, r: Record, p: nat, b: nat, e: nat, n: nat)
    requires Acts(w, r, p, b, e) && OneConnection(w, r)
    ensures Shows(w, Mine(w, r, p, b, e), Uris(AppsWith(w, r, n)))
  {
    UrisOfOne(w, r, n);
  }

  /** So telling actions apart once, for every path they can draw, tells every record apart. */
  lemma ToldByPaths(w: World, k: nat, p: nat, b: nat, e: nat, m: nat)
    requires k < |w.records| && Acts(w, w.records[k], p, b, e) && OneConnection(w, w.records[k])
    requires m < |CandidatesOf(w, w.programs[p])| && CandidatesOf(w, w.programs[p])[m] == Mine(w, w.records[k], p, b, e)
    requires var found, five := CandidatesOf(w, w.programs[p]), ConnOf(w, w.records[k], k + 1).five;
             Claims(found, found[m], five)
             && forall i :: 0 <= i < |found| && i != m && Claims(found, found[i], five) ==> Apart(w, found[m], found[i])
    ensures ToldApart(w, k)
  {
    ActsIn(w, w.records[k], p, b, e);
    hide Claims, Apart, Acts, ConnOf, Shows, CandidatesOf, MatchAmong;
    var found := CandidatesOf(w, w.programs[p]);
    var five, uris := ConnOf(w, w.records[k], k + 1).five, Uris(AppsWith(w, w.records[k], k + 1));
    ShowsItsPath(w, w.records[k], p, b, e, k + 1);
    DrawsSome(w, w.records[k], p, b, e);
    MatchIs(w, found, m, five);
    MatchExactly(found, m, five, uris);
    assert ToldAs(w, k, p, b, e, m);
  }

  lemma DrawsSome(w: World, r: Record, p: nat, b: nat, e: nat)
    requires Acts(w, r, p, b, e)
    ensures var c := Mine(w, r, p, b, e); c.paths.Some? ==> c.paths.value != {}
  {
    var a, call := w.programs[p].behaviours[b].actionMap[e].1.value, w.calls[r.invocation];
    var drawn := RequestPath(call.path, call.startPath);
    if RequestPath(a.path, a.startPath).Some? {
      assert drawn.Some? && drawn.value in Options(RequestPath(a.path, a.startPath).value);
    }
  }

  lemma ListedHere(w: World, vocabulary: map<string, seq<Candidate>>, p: nat, r: Record, address: string, n: nat)
    requires Simulated(w) && IsVocabulary(w, |w.programs|, vocabulary) && p < |w.programs| && w.programs[p].instance == r.instance
    requires OneConnection(w, r) && PlanOf(w, r.instance) != [] && address == ConnOf(w, r, n).five.origAddr
    ensures address in vocabulary && vocabulary[address] == CandidatesOf(w, w.programs[p])
  {
    hide CandidatesOf, OwnNames;
    var target := SlotsOf(w, r)[0].0;
    var mine, theirs := PlanOf(w, r.instance), PlanOf(w, target.instance);
    SourceIsMine(mine, theirs, target.address);
    var i :| 0 <= i < |mine| && mine[i].1 == Source(mine, theirs, target.address);
    ListedOnlyBy(w, |w.programs|, p, i);
    assert Holds(mine, address);
    assert Known(w, |w.programs|, address);
  }

  /** The kind, behaviour, instance and state a record should be labelled with. */
  ghost predicate LabelledAs(w: World, r: Record, p: nat, found: Found)
    requires p < |w.programs|
  {
    found.Is? && found.candidate.state == r.state && KeyOf(found.candidate) == (w.programs[p].kind, r.behaviour, r.instance)
  }

  lemma SameEntry(w: World, p: nat, b: nat, e: nat, b': nat, e': nat)
    requires OwnNames(w) && p < |w.programs| && b < |w.programs[p].behaviours| && b' < |w.programs[p].behaviours|
    requires e < |w.programs[p].behaviours[b].actionMap| && e' < |w.programs[p].behaviours[b'].actionMap|
    requires w.programs[p].behaviours[b].name == w.programs[p].behaviours[b'].name
    requires w.programs[p].behaviours[b].actionMap[e].0 == w.programs[p].behaviours[b'].actionMap[e'].0
    ensures b == b' && e == e'
  {
    var behaviours := w.programs[p].behaviours;
    assert forall i, j :: 0 <= i < j < |behaviours| ==> behaviours[i].name != behaviours[j].name;
    assert b == b';
    assert DistinctKeys(behaviours[b].actionMap);
  }

  /** Of a program's candidates only a record's own is of its behaviour and state. */
  lemma OnlyMine(w: World, r: Record, p: nat, b: nat, e: nat, c: Candidate)
    requires OwnNames(w) && Acts(w, r, p, b, e) && c in CandidatesOf(w, w.programs[p])
    ensures LabelledAs(w, r, p, Is(c)) <==> c == Mine(w, r, p, b, e)
  {
    hide OwnNames, Endpoints, PathsOf;
    if c.behaviour == r.behaviour && c.state == r.state {
      var b', e' := CandidateFrom(w, w.programs[p], w.programs[p].behaviours, c);
      SameEntry(w, p, b, e, b', e');
    }
  }

  lemma MatchedIsFound(found: seq<Candidate>, five: Five, uris: set<string>)
    ensures MatchAmong(found, five, uris).Is? ==> MatchAmong(found, five, uris).candidate in found
  {
    hide Filter, Choose;
    var p := ByClaim(found, five);
    HitsClaim(found, five);
    assert MatchAmong(found, five, uris) == Choose(Filter(found, p), uris);
    ChosenIsHit(Filter(found, p), uris);
    FilterIs(found, p);
  }

  /** A record is told apart exactly when its connection, with the path it shows, is matched to its own action. */
  lemma ToldExactly(w: World, k: nat, p: nat, b: nat, e: nat)
    requires Simulated(w) && k < |w.records| && Acts(w, w.records[k], p, b, e)
    ensures OneConnection(w, w.records[k])
    ensures var r := w.records[k];
            ToldApart(w, k) <==>
              MatchAmong(CandidatesOf(w, w.programs[p]), ConnOf(w, r, k + 1).five, Uris(AppsWith(w, r, k + 1))) == Is(Mine(w, r, p, b, e))
  {
    hide Reaches, Sweeps, MatchAmong, CandidateFor, ConnOf, OwnNames, OwnAddresses, Told, Uris, Acts;
    var r := w.records[k];
    RunAt(w, k);
    ActsIn(w, r, p, b, e);
    var five, uris := ConnOf(w, r, k + 1).five, Uris(AppsWith(w, r, k + 1));
    var found := CandidatesOf(w, w.programs[p]);
    var m := MineIsThere(w, r, p, b, e);
    MatchExactly(found, m, five, uris);
    if Told(found, m, five, uris) {
      assert ToldAs(w, k, p, b, e, m);
    } else if ToldApart(w, k) {
      var p', b', e', m' :| ToldAs(w, k, p', b', e', m');
      SameActs(w, r, p, b, e, p', b', e');
      MatchExactly(found, m', five, uris);
    }
  }

  /** The fit labels a record's connection with the record's own behaviour and state exactly when it is told apart. */
  lemma FoundIsRecord(w: World, vocabulary: map<string, seq<Candidate>>, k: nat, p: nat, b: nat, e: nat)
    requires Simulated(w) && IsVocabulary(w, |w.programs|, vocabulary) && k < |w.records| && Acts(w, w.records[k], p, b, e)
    ensures var r, found := w.records[k], FoundAt(EventsOf(w, |w.records|), vocabulary, ConnOf(w, w.records[k], k + 1));
            && (LabelledAs(w, r, p, found) <==> ToldApart(w, k))
            && (ToldApart(w, k) ==> found == Is(Mine(w, r, p, b, e)))
  {
    hide MatchAmong, CandidateFor, EventsOf, ConnOf, OwnNames, OwnAddresses, Uris, Acts, LabelledAs, ToldApart;
    var r := w.records[k];
    RunAt(w, k);
    ActsIn(w, r, p, b, e);
    var five, uris, found := ConnOf(w, r, k + 1).five, Uris(AppsWith(w, r, k + 1)), CandidatesOf(w, w.programs[p]);
    FoundHere(w, vocabulary, k, p, b, e);
    ToldExactly(w, k, p, b, e);
    MatchedIsFound(found, five, uris);
    LabelOfMine(w, r, p, b, e, MatchAmong(found, five, uris));
  }

  lemma LabelOfMine(w: World, r: Record, p: nat, b: nat, e: nat, found: Found)
    requires OwnNames(w) && Acts(w, r, p, b, e) && (found.Is? ==> found.candidate in CandidatesOf(w, w.programs[p]))
    ensures LabelledAs(w, r, p, found) <==> found == Is(Mine(w, r, p, b, e))
  {
    hide OwnNames, Acts, CandidatesOf, CandidateFor;
    if found.Is? {
      OnlyMine(w, r, p, b, e, found.candidate);
    }
  }

  lemma MineIsThere(w: World, r: Record, p: nat, b: nat, e: nat) returns (m: nat)
    requires Acts(w, r, p, b, e)
    ensures m < |CandidatesOf(w, w.programs[p])| && CandidatesOf(w, w.programs[p])[m] == Mine(w, r, p, b, e)
  {
    hide CandidateFor;
    CandidatesHave(w, w.programs[p], w.programs[p].behaviours, b, e);
    m :| m < |CandidatesOf(w, w.programs[p])| && CandidatesOf(w, w.programs[p])[m] == Mine(w, r, p, b, e);
  }

  /** What the fit looks at for a record's connection: its instance's candidates, its five-tuple, the paths it shows. */
  lemma FoundHere(w: World, vocabulary: map<string, seq<Candidate>>, k: nat, p: nat, b: nat, e: nat)
    requires Simulated(w) && IsVocabulary(w, |w.programs|, vocabulary) && k < |w.records| && Acts(w, w.records[k], p, b, e)
    ensures OneConnection(w, w.records[k])
    ensures var r := w.records[k];
            FoundAt(EventsOf(w, |w.records|), vocabulary, ConnOf(w, r, k + 1))
              == MatchAmong(CandidatesOf(w, w.programs[p]), ConnOf(w, r, k + 1).five, Uris(AppsWith(w, r, k + 1)))
  {
    hide MatchAmong, CandidatesOf, EventsOf, IsVocabulary, Simulated, Uris, AppsWith;
    var r := w.records[k];
    RunAt(w, k);
    ListedHere(w, vocabulary, p, r, ConnOf(w, r, k + 1).five.origAddr, k + 1);
    OwnApps(w, |w.records|, k);
  }

  lemma SameProgram(w: World, p: nat, q: nat)
    requires OwnAddresses(w) && p < |w.programs| && q < |w.programs|
    requires w.programs[p].instance == w.programs[q].instance && PlanOf(w, w.programs[p].instance) != []
    ensures p == q
  {
    assert PlanOf(w, w.programs[p].instance)[0].1 == PlanOf(w, w.programs[q].instance)[0].1;
  }

  /** One record is of one entry of one behaviour of one program. */
  lemma SameActs(w: World, r: Record, p: nat, b: nat, e: nat, p': nat, b': nat, e': nat)
    requires OwnAddresses(w) && OwnNames(w) && PlanOf(w, r.instance) != [] && Acts(w, r, p, b, e) && Acts(w, r, p', b', e')
    ensures p == p' && b == b' && e == e'
  {
    hide OwnAddresses, OwnNames;
    SameProgram(w, p, p');
    SameEntry(w, p, b, e, b', e');
  }

  // ----- the round trip

  /** Whether the record's action opens as many connections as it takes, which the labelling folds. */
  predicate IsMany(w: World, r: Record) {
    Called(w, r) && w.signatures[w.calls[r.invocation].signature].connections.Many?
  }

  predicate OfBehaviour(r: Record, instance: string, behaviour: string) {
    r.instance == instance && r.behaviour == behaviour
  }

  /** The invocations of one behaviour of one instance among the first ``n`` records: when, and in what state. */
  function RecordHits(w: World, n: nat, instance: string, behaviour: string): seq<Hit>
    requires n <= |w.records|
  {
    if n == 0 then []
    else
      var r := w.records[n - 1];
      RecordHits(w, n - 1, instance, behaviour)
      + if OfBehaviour(r, instance, behaviour) then [Hit(r.start, r.state, IsMany(w, r))] else []
  }

  /** Those of them that are no copy of an earlier connection. */
  function KeptHits(w: World, n: nat, instance: string, behaviour: string): seq<Hit>
    requires n <= |w.records|
  {
    if n == 0 then []
    else
      var r := w.records[n - 1];
      KeptHits(w, n - 1, instance, behaviour)
      + if OfBehaviour(r, instance, behaviour) && !Copied(w, n - 1) then [Hit(r.start, r.state, IsMany(w, r))] else []
  }

  /** No record of the behaviour is a copy of an earlier connection. */
  predicate NoneCopied(w: World, n: nat, instance: string, behaviour: string)
    requires n <= |w.records|
  {
    forall k :: 0 <= k < n && OfBehaviour(w.records[k], instance, behaviour) ==> !Copied(w, k)
  }

  /** A copy is lost from its behaviour's stream, and nothing else is. */
  lemma {:induction false} KeptExactly(w: World, n: nat, instance: string, behaviour: string)
    requires n <= |w.records|
    ensures var kept, hits := KeptHits(w, n, instance, behaviour), RecordHits(w, n, instance, behaviour);
            && |kept| <= |hits|
            && (|kept| == |hits| <==> NoneCopied(w, n, instance, behaviour))
            && (|kept| == |hits| <==> kept == hits)
  {
    hide Copied, IsMany, OfBehaviour;
    if n > 0 {
      KeptExactly(w, n - 1, instance, behaviour);
    }
  }

  function Marks(hits: seq<Hit>): (r: seq<(real, string)>)
    ensures |r| == |hits| && forall k :: 0 <= k < |hits| ==> r[k] == (hits[k].start, hits[k].state)
  {
    seq(|hits|, k requires 0 <= k < |hits| => (hits[k].start, hits[k].state))
  }

  /** A told record gives its hit to its own key. */
  lemma HitOfRecord(w: World, vocabulary: map<string, seq<Candidate>>, k: nat, p: nat, behaviour: string)
    requires Simulated(w) && IsVocabulary(w, |w.programs|, vocabulary) && k < |w.records| && p < |w.programs| && ToldApart(w, k)
    ensures var r, found := w.records[k], FoundAt(EventsOf(w, |w.records|), vocabulary, ConnOf(w, w.records[k], k + 1));
            && found.Is? && found.candidate.state == r.state && found.candidate.many == IsMany(w, r)
            && (KeyOf(found.candidate) == (w.programs[p].kind, behaviour, w.programs[p].instance)
                <==> OfBehaviour(r, w.programs[p].instance, behaviour))
  {
    hide FoundAt, Endpoints, PathsOf, EventsOf, ConnOf, IsVocabulary, ToldApart, OwnAddresses, OwnNames;
    var r := w.records[k];
    RunAt(w, k);
    var q, b, e :| Acts(w, r, q, b, e);
    FoundIsRecord(w, vocabulary, k, q, b, e);
    if r.instance == w.programs[p].instance {
      SameProgram(w, q, p);
    }
  }

  ghost predicate AllInside(window: (real, real), conns: seq<Event>) {
    forall i :: 0 <= i < |conns| ==> Inside(window, conns[i])
  }

  lemma InsideBefore(window: (real, real), conns: seq<Event>, more: seq<Event>)
    requires AllInside(window, conns + more)
    ensures AllInside(window, conns) && (more != [] ==> Inside(window, more[0]))
  {
    assert forall i :: 0 <= i < |conns| ==> (conns + more)[i] == conns[i];
    if more != [] {
      assert (conns + more)[|conns|] == more[0];
    }
  }

  /** The first ``n`` records' connections are told apart. */
  ghost predicate FirstTold(w: World, n: nat)
    requires n <= |w.records|
  {
    forall k :: 0 <= k < n ==> ToldApart(w, k)
  }

  lemma {:induction false} HitsAreRecords(w: World, vocabulary: map<string, seq<Candidate>>, window: (real, real),
        n: nat, p: nat, behaviour: string)
    requires Simulated(w) && IsVocabulary(w, |w.programs|, vocabulary) && n <= |w.records| && p < |w.programs|
    requires AllInside(window, FirstCopies(Conns(w, n))) && FirstTold(w, n)
    ensures HitsOf(EventsOf(w, |w.records|), vocabulary, window, FirstCopies(Conns(w, n)),
                   (w.programs[p].kind, behaviour, w.programs[p].instance))
      == KeptHits(w, n, w.programs[p].instance, behaviour)
  {
    hide FoundAt, EventsOf, ConnOf, Simulated, IsVocabulary, Conns, KeyOf, Inside, FirstCopies, ToldApart, OfBehaviour, IsMany,
         AllInside, Copied;
    if n == 0 {
      NoConns(w);
    } else {
      FirstCopiesSnoc(w, n);
      var before, all := FirstCopies(Conns(w, n - 1)), FirstCopies(Conns(w, n));
      var more := if Copied(w, n - 1) then [] else [ConnOf(w, w.records[n - 1], n)];
      InsideBefore(window, before, more);
      HitsAreRecords(w, vocabulary, window, n - 1, p, behaviour);
      if Copied(w, n - 1) {
        assert all == before;
      } else {
        assert all[..|all| - 1] == before && all[|all| - 1] == more[0];
        HitOfRecord(w, vocabulary, n - 1, p, behaviour);
      }
    }
  }

  lemma NoConns(w: World)
    ensures FirstCopies(Conns(w, 0)) == []
  {
  }

  lemma {:induction false} NothingMissed(w: World, vocabulary: map<string, seq<Candidate>>, window: (real, real),
        n: nat, reason: string)
    requires Simulated(w) && IsVocabulary(w, |w.programs|, vocabulary) && n <= |w.records| && FirstTold(w, n)
    ensures Misses(EventsOf(w, |w.records|), vocabulary, window, FirstCopies(Conns(w, n)), reason) == 0
  {
    hide FoundAt, EventsOf, ConnOf, IsVocabulary, Conns, KeyOf, Inside, Simulated, FirstCopies, ToldApart, Copied;
    if n == 0 {
      NoConns(w);
    } else {
      FirstCopiesSnoc(w, n);
      var before, all := FirstCopies(Conns(w, n - 1)), FirstCopies(Conns(w, n));
      NothingMissed(w, vocabulary, window, n - 1, reason);
      if Copied(w, n - 1) {
        assert all == before;
      } else {
        assert all[..|all| - 1] == before && all[|all| - 1] == ConnOf(w, w.records[n - 1], n);
        RunAt(w, n - 1);
        var q, b, e :| Acts(w, w.records[n - 1], q, b, e);
        HitOfRecord(w, vocabulary, n - 1, q, "");
      }
    }
  }

  // ----- folding and order

  /** Hit ``i`` is taken for more of the one before it. */
  predicate Folds(hits: seq<Hit>, i: nat)
    requires 0 < i < |hits|
  {
    hits[i].many && hits[i - 1].state == hits[i].state && hits[i].start - hits[i - 1].start < 1.0
  }

  predicate NoneFolded(hits: seq<Hit>) {
    forall i :: 0 < i < |hits| ==> !Folds(hits, i)
  }

  lemma FoldsBefore(hits: seq<Hit>)
    requires hits != []
    ensures var n := |hits| - 1; NoneFolded(hits) <==> NoneFolded(hits[..n]) && (n > 0 ==> !Folds(hits, n))
    ensures var n := |hits| - 1; Marks(hits) == Marks(hits[..n]) + [(hits[n].start, hits[n].state)]
  {
    var n := |hits| - 1;
    assert forall i :: 0 < i < n ==> (Folds(hits[..n], i) <==> Folds(hits, i));
  }

  /** Folding keeps every hit exactly when none is taken for more of the one before. */
  lemma {:induction false} FoldExactly(hits: seq<Hit>)
    ensures |Fold(hits)| <= |hits| && (hits != [] ==> Fold(hits) != [])
    ensures |Fold(hits)| == |hits| <==> NoneFolded(hits)
    ensures |Fold(hits)| == |hits| <==> Fold(hits) == Marks(hits)
  {
    hide NoneFolded;
    if hits == [] {
      assert NoneFolded(hits) by {
        NothingFolded();
      }
    } else {
      var n := |hits| - 1;
      FoldExactly(hits[..n]);
      FoldsBefore(hits);
      if n > 0 && Fold(hits[..n]) == Marks(hits[..n]) {
        assert Fold(hits[..n])[n - 1] == (hits[n - 1].start, hits[n - 1].state);
      }
    }
  }

  lemma NothingFolded()
    ensures NoneFolded([])
  {
  }

  lemma HitOrderIsTotal()
    ensures Sorting.TotalPreorder(HitOrder)
  {
    forall a, b
      ensures HitOrder(a, b) || HitOrder(b, a)
    {
      BeforeConnected(a.state, b.state);
    }
    forall a, b, c | HitOrder(a, b) && HitOrder(b, c)
      ensures HitOrder(a, c)
    {
      if Before(a.state, b.state) && Before(b.state, c.state) {
        BeforeTransitive(a.state, b.state, c.state);
      }
    }
  }

  /** In one behaviour a state is one action, so whether a hit may be folded goes by its state. */
  ghost predicate ManyByState(hits: seq<Hit>) {
    forall g, h :: g in hits && h in hits && g.state == h.state ==> g.many == h.many
  }

  lemma {:induction false} HitsFrom(w: World, n: nat, instance: string, behaviour: string, h: Hit) returns (k: nat)
    requires n <= |w.records| && h in RecordHits(w, n, instance, behaviour)
    ensures k < n && OfBehaviour(w.records[k], instance, behaviour)
    ensures h == Hit(w.records[k].start, w.records[k].state, IsMany(w, w.records[k]))
  {
    hide OfBehaviour, IsMany;
    if h in RecordHits(w, n - 1, instance, behaviour) {
      k := HitsFrom(w, n - 1, instance, behaviour, h);
    } else {
      k := n - 1;
    }
  }

  lemma OneActionPerState(w: World, instance: string, behaviour: string)
    requires Simulated(w)
    ensures ManyByState(RecordHits(w, |w.records|, instance, behaviour))
  {
    hide Simulated, RecordHits;
    var hits := RecordHits(w, |w.records|, instance, behaviour);
    forall g, h | g in hits && h in hits && g.state == h.state
      ensures g.many == h.many
    {
      var i := HitsFrom(w, |w.records|, instance, behaviour, g);
      var j := HitsFrom(w, |w.records|, instance, behaviour, h);
      SameMany(w, i, j);
    }
  }

  lemma SameMany(w: World, i: nat, j: nat)
    requires Simulated(w) && i < |w.records| && j < |w.records|
    requires w.records[i].instance == w.records[j].instance && w.records[i].behaviour == w.records[j].behaviour
    requires w.records[i].state == w.records[j].state
    ensures IsMany(w, w.records[i]) == IsMany(w, w.records[j])
  {
    hide OwnAddresses, OwnNames, RecordIsRun;
    RunAt(w, i);
    RunAt(w, j);
    var p, b, e :| Acts(w, w.records[i], p, b, e);
    var q, c, f :| Acts(w, w.records[j], q, c, f);
    SameProgram(w, p, q);
    SameEntry(w, p, b, e, c, f);
  }

  lemma {:induction false} MarksTell(a: seq<Hit>, b: seq<Hit>)
    requires ManyByState(b) && (forall h :: h in a ==> h in b) && Marks(a) == Marks(b)
    ensures a == b
  {
    assert |a| == |Marks(a)| == |b|;
    forall k | 0 <= k < |a|
      ensures a[k] == b[k]
    {
      assert Marks(a)[k] == Marks(b)[k];
      assert a[k] in a && b[k] in b;
    }
  }

  /** The records' own sequence is recovered: none is a copy, none folded, and those at one time come in the order of their states. */
  ghost predicate Recovered(w: World, instance: string, behaviour: string) {
    var hits := RecordHits(w, |w.records|, instance, behaviour);
    NoneCopied(w, |w.records|, instance, behaviour) && NoneFolded(hits) && Sorting.InOrder(HitOrder, hits)
  }

  /** A stream is its records' own sequence exactly then. */
  lemma StreamIsTheRecords(w: World, instance: string, behaviour: string)
    requires Simulated(w)
    ensures Fold(Sorting.Sort(HitOrder, KeptHits(w, |w.records|, instance, behaviour)))
              == Marks(RecordHits(w, |w.records|, instance, behaviour))
      <==> Recovered(w, instance, behaviour)
  {
    hide Simulated, KeptHits, RecordHits, Fold, NoneCopied, NoneFolded;
    var kept, hits := KeptHits(w, |w.records|, instance, behaviour), RecordHits(w, |w.records|, instance, behaviour);
    var sorted := Sorting.Sort(HitOrder, kept);
    HitOrderIsTotal();
    KeptExactly(w, |w.records|, instance, behaviour);
    OneActionPerState(w, instance, behaviour);
    Sorting.Sorted(HitOrder, kept);
    assert |multiset(sorted)| == |multiset(kept)|;
    FoldExactly(sorted);
    if Recovered(w, instance, behaviour) {
      Sorting.SortKeeps(HitOrder, hits);
    } else if Fold(sorted) == Marks(hits) {
      assert |Fold(sorted)| == |hits|;
      assert kept == hits && Marks(sorted) == Marks(hits);
      SameElements(sorted, kept);
      MarksTell(sorted, hits);
    }
  }

  lemma SameElements(a: seq<Hit>, b: seq<Hit>)
    requires multiset(a) == multiset(b)
    ensures forall h :: h in a ==> h in b
  {
    forall h | h in a
      ensures h in b
    {
      assert h in multiset(a);
      assert h in multiset(b);
    }
  }

  /** Every record is later than the one before. */
  ghost predicate Later(w: World) {
    forall i, j :: 0 <= i < j < |w.records| ==> w.records[i].start < w.records[j].start
  }

  lemma {:induction false} LaterIsInOrder(w: World, n: nat, instance: string, behaviour: string)
    requires n <= |w.records| && Later(w)
    ensures Sorting.InOrder(HitOrder, RecordHits(w, n, instance, behaviour))
    ensures forall h :: h in RecordHits(w, n, instance, behaviour) ==> exists i :: 0 <= i < n && w.records[i].start == h.start
  {
    hide IsMany, OfBehaviour;
    if n > 0 {
      LaterIsInOrder(w, n - 1, instance, behaviour);
      var before := RecordHits(w, n - 1, instance, behaviour);
      forall i | 0 <= i < |before|
        ensures before[i].start < w.records[n - 1].start
      {
        assert before[i] in before;
      }
    }
  }

  lemma WindowHoldsAll(conns: seq<Event>)
    requires Sorting.InOrder(Earlier, conns)
    ensures AllInside(WindowOf(None, conns), conns)
  {
    forall i | 0 <= i < |conns|
      ensures Inside(WindowOf(None, conns), conns[i])
    {
      assert i > 0 ==> Earlier(conns[0], conns[i]);
      assert i < |conns| - 1 ==> Earlier(conns[i], conns[|conns| - 1]);
    }
  }

  function StreamAt(streams: map<Key, seq<(real, string)>>, key: Key): seq<(real, string)> {
    if key in streams then streams[key] else []
  }

  function KeyAt(w: World, p: nat, behaviour: string): Key
    requires p < |w.programs|
  {
    (w.programs[p].kind, behaviour, w.programs[p].instance)
  }

  ghost function RecordMarks(w: World, p: nat, behaviour: string): seq<(real, string)>
    requires p < |w.programs|
  {
    Marks(RecordHits(w, |w.records|, w.programs[p].instance, behaviour))
  }

  /** The streams are the records' own sequences, for every behaviour of every instance. */
  ghost predicate AllRecovered(w: World, streams: map<Key, seq<(real, string)>>) {
    forall p, behaviour :: 0 <= p < |w.programs| ==> StreamAt(streams, KeyAt(w, p, behaviour)) == RecordMarks(w, p, behaviour)
  }

  ghost predicate NothingFolds(w: World) {
    forall p, behaviour :: 0 <= p < |w.programs| ==>
      NoneFolded(RecordHits(w, |w.records|, w.programs[p].instance, behaviour))
  }

  /**
   * A simulated run rendered and labelled again. With every connection told apart nothing is unmapped,
   * the stream of each behaviour of each instance is what is kept of its records, sorted and folded, and
   * it is the records' own sequence exactly when that loses nothing. Where every record is later than the
   * one before, all streams are the records' own sequences exactly when every connection is told apart,
   * none is a copy of another, and none is folded.
   */
  method SimulateThenLabel(w: World) returns (streams: map<Key, seq<(real, string)>>, reasons: map<string, nat>, kept: nat)
    requires Simulated(w) && SignaturesKnown(w)
    requires forall i :: i in w.calls ==> w.calls[i].signature in w.signatures
    ensures kept == |w.records| <==> NoCopies(w)
    ensures AllTold(w) ==> forall r :: r in reasons ==> reasons[r] == 0
    ensures AllTold(w) ==> forall p, behaviour :: 0 <= p < |w.programs| ==>
      && StreamAt(streams, KeyAt(w, p, behaviour)) == Fold(Sorting.Sort(HitOrder,
            KeptHits(w, |w.records|, w.programs[p].instance, behaviour)))
      && (StreamAt(streams, KeyAt(w, p, behaviour)) == RecordMarks(w, p, behaviour) <==>
            Recovered(w, w.programs[p].instance, behaviour))
    ensures Later(w) ==> (AllRecovered(w, streams) <==> AllTold(w) && NoCopies(w) && NothingFolds(w))
  {
    hide Simulated, IsVocabulary, EventsOf, Labelled, AllTold, Later, NoCopies, NothingFolds, AllRecovered, Recovered, KeptHits, Fold,
         RecordMarks, KeyAt, HitOrder, StreamAt, Conns, FirstCopies, WindowOf, Coverage, Strangers;
    var events := Render(w);
    var vocabulary, _ := BuildVocabulary(w);
    var conns, originators, http, withApp;
    streams, reasons, conns, originators, http, withApp := Label(events, vocabulary, None);
    kept := |conns|;
    Rendered(w, |w.records|);
    DedupeKeeps(w);
    AllFirst(Conns(w, |w.records|));
    KeptInside(w);
    ghost var window := WindowOf(None, conns);
    if AllTold(w) {
      forall r | r in reasons
        ensures reasons[r] == 0
      {
        ReasonsZero(w, vocabulary, window, conns, streams, reasons, r);
      }
      forall p: nat, behaviour | p < |w.programs|
        ensures StreamAt(streams, KeyAt(w, p, behaviour)) == Fold(Sorting.Sort(HitOrder,
            KeptHits(w, |w.records|, w.programs[p].instance, behaviour)))
        ensures StreamAt(streams, KeyAt(w, p, behaviour)) == RecordMarks(w, p, behaviour)
          <==> Recovered(w, w.programs[p].instance, behaviour)
      {
        StreamIsKept(w, vocabulary, window, conns, streams, reasons, p, behaviour);
      }
    }
    if Later(w) {
      if AllTold(w) && NoCopies(w) && NothingFolds(w) {
        AllAreRecovered(w, streams);
      } else if AllRecovered(w, streams) {
        RecoveredIsTold(w, vocabulary, window, conns, streams, reasons);
      }
    }
  }

  /** The window holds every connection kept. */
  lemma KeptInside(w: World)
    requires Simulated(w)
    ensures var conns := FirstCopies(Conns(w, |w.records|)); AllInside(WindowOf(None, conns), conns)
  {
    hide ConnOf, Simulated;
    StartsInOrder(w);
    FirstCopiesInOrder(Conns(w, |w.records|));
    WindowHoldsAll(FirstCopies(Conns(w, |w.records|)));
  }

  lemma {:induction false} FirstCopiesInOrder(conns: seq<Event>)
    requires (forall i :: 0 <= i < |conns| ==> conns[i].Conn?) && Sorting.InOrder(Earlier, conns)
    ensures Sorting.InOrder(Earlier, FirstCopies(conns))
    ensures forall c :: c in FirstCopies(conns) ==> c in conns
  {
    hide Copy;
    if conns != [] {
      var n := |conns| - 1;
      FirstCopiesInOrder(conns[..n]);
      var before := FirstCopies(conns[..n]);
      forall i | 0 <= i < |before|
        ensures Earlier(before[i], conns[n])
      {
        assert before[i] in conns[..n];
        var k :| 0 <= k < n && conns[k] == before[i];
      }
    }
  }

  lemma ReasonsZero(w: World, vocabulary: map<string, seq<Candidate>>, window: (real, real), conns: seq<Event>,
                    streams: map<Key, seq<(real, string)>>, reasons: map<string, nat>, reason: string)
    requires Simulated(w) && IsVocabulary(w, |w.programs|, vocabulary) && AllTold(w)
    requires conns == FirstCopies(Conns(w, |w.records|)) && reason in reasons
    requires Labelled(EventsOf(w, |w.records|), vocabulary, window, conns, streams, reasons)
    ensures reasons[reason] == 0
  {
    hide Simulated, IsVocabulary, Conns, EventsOf, HitsOf, Misses, Wanted, ToldApart, FirstCopies, StreamOf;
    NothingMissed(w, vocabulary, window, |w.records|, reason);
    assert (if reason in reasons then reasons[reason] else 0) == Misses(EventsOf(w, |w.records|), vocabulary, window, conns, reason);
  }

  /** A key's stream, or nothing for a key without one. */
  lemma StreamAtIs(w: World, vocabulary: map<string, seq<Candidate>>, window: (real, real), conns: seq<Event>,
                   streams: map<Key, seq<(real, string)>>, reasons: map<string, nat>, key: Key)
    requires conns == FirstCopies(Conns(w, |w.records|))
    requires Labelled(EventsOf(w, |w.records|), vocabulary, window, conns, streams, reasons)
    ensures StreamAt(streams, key) ==
      Fold(Sorting.Sort(HitOrder, HitsOf(EventsOf(w, |w.records|), vocabulary, window, conns, key)))
  {
    hide Conns, EventsOf, HitsOf, Misses, Wanted, FirstCopies;
  }

  lemma StreamIsKept(w: World, vocabulary: map<string, seq<Candidate>>, window: (real, real), conns: seq<Event>,
                     streams: map<Key, seq<(real, string)>>, reasons: map<string, nat>, p: nat, behaviour: string)
    requires Simulated(w) && IsVocabulary(w, |w.programs|, vocabulary) && p < |w.programs| && AllTold(w)
    requires conns == FirstCopies(Conns(w, |w.records|)) && AllInside(window, conns)
    requires Labelled(EventsOf(w, |w.records|), vocabulary, window, conns, streams, reasons)
    ensures StreamAt(streams, KeyAt(w, p, behaviour)) ==
      Fold(Sorting.Sort(HitOrder, KeptHits(w, |w.records|, w.programs[p].instance, behaviour)))
    ensures StreamAt(streams, KeyAt(w, p, behaviour)) == RecordMarks(w, p, behaviour)
      <==> Recovered(w, w.programs[p].instance, behaviour)
  {
    hide Simulated, IsVocabulary, Conns, EventsOf, HitsOf, KeptHits, RecordHits, AllInside, FirstCopies, ToldApart, Labelled,
         Recovered, Fold, StreamAt, HitOrder;
    HitsAreRecords(w, vocabulary, window, |w.records|, p, behaviour);
    StreamAtIs(w, vocabulary, window, conns, streams, reasons, KeyAt(w, p, behaviour));
    StreamIsTheRecords(w, w.programs[p].instance, behaviour);
  }

  lemma AllAreRecovered(w: World, streams: map<Key, seq<(real, string)>>)
    requires Later(w) && NoCopies(w) && NothingFolds(w)
    requires forall p, behaviour :: 0 <= p < |w.programs| ==>
      (StreamAt(streams, KeyAt(w, p, behaviour)) == RecordMarks(w, p, behaviour) <==> Recovered(w, w.programs[p].instance, behaviour))
    ensures AllRecovered(w, streams)
  {
    hide Later, NoneFolded, StreamAt, RecordMarks, Copied, HitOrder, OfBehaviour, RecordHits;
    forall p, behaviour | 0 <= p < |w.programs|
      ensures StreamAt(streams, KeyAt(w, p, behaviour)) == RecordMarks(w, p, behaviour)
    {
      LaterIsInOrder(w, |w.records|, w.programs[p].instance, behaviour);
    }
  }

  // ----- and only then

  lemma {:induction false} RecordHasHit(w: World, n: nat, k: nat)
    requires k < n <= |w.records|
    ensures var r := w.records[k]; Hit(r.start, r.state, IsMany(w, r)) in RecordHits(w, n, r.instance, r.behaviour)
  {
    if k < n - 1 {
      RecordHasHit(w, n - 1, k);
    }
  }

  lemma {:induction false} FoldFrom(hits: seq<Hit>, mark: (real, string)) returns (h: Hit)
    requires mark in Fold(hits)
    ensures h in hits && mark == (h.start, h.state)
  {
    var n := |hits| - 1;
    if mark in Fold(hits[..n]) {
      h := FoldFrom(hits[..n], mark);
    } else {
      h := hits[n];
    }
  }

  lemma {:induction false} HitFrom(events: seq<Event>, vocabulary: map<string, seq<Candidate>>, window: (real, real),
        conns: seq<Event>, key: Key, h: Hit) returns (i: nat)
    requires (forall i :: 0 <= i < |conns| ==> conns[i].Conn?) && h in HitsOf(events, vocabulary, window, conns, key)
    ensures i < |conns| && conns[i].start == h.start
    ensures var found := FoundAt(events, vocabulary, conns[i]);
            found.Is? && KeyOf(found.candidate) == key && found.candidate.state == h.state
  {
    hide FoundAt, Inside, KeyOf;
    var n := |conns| - 1;
    if h in HitsOf(events, vocabulary, window, conns[..n], key) {
      i := HitFrom(events, vocabulary, window, conns[..n], key, h);
    } else {
      i := n;
    }
  }

  lemma {:induction false} KeptFrom(w: World, n: nat, c: Event) returns (j: nat)
    requires n <= |w.records| && c in FirstCopies(Conns(w, n))
    ensures j < n && !Copied(w, j) && c == ConnOf(w, w.records[j], j + 1)
  {
    hide Copied, ConnOf, FirstCopies, Conns;
    NoConns(w);
    FirstCopiesSnoc(w, n);
    if c in FirstCopies(Conns(w, n - 1)) {
      j := KeptFrom(w, n - 1, c);
    } else {
      j := n - 1;
    }
  }

  /** Where records are told by their times, a stream that shows a record shows its connection kept and labelled as its own. */
  lemma ShownIsTold(w: World, vocabulary: map<string, seq<Candidate>>, window: (real, real), conns: seq<Event>,
                    streams: map<Key, seq<(real, string)>>, reasons: map<string, nat>, k: nat)
    requires Simulated(w) && Later(w) && IsVocabulary(w, |w.programs|, vocabulary) && k < |w.records|
    requires conns == FirstCopies(Conns(w, |w.records|)) && AllRecovered(w, streams)
    requires Labelled(EventsOf(w, |w.records|), vocabulary, window, conns, streams, reasons)
    ensures ToldApart(w, k) && !Copied(w, k)
  {
    hide Simulated, IsVocabulary, Conns, EventsOf, HitsOf, FirstCopies, ToldApart, Labelled, Fold, HitOrder, Copied, ConnOf, FoundAt,
         RecordHits, AllRecovered, StreamAt, Acts, IsMany;
    var r := w.records[k];
    RunAt(w, k);
    var p, b, e :| Acts(w, r, p, b, e);
    ActsIn(w, r, p, b, e);
    var key := KeyAt(w, p, r.behaviour);
    MarkThere(w, streams, k, p);
    StreamAtIs(w, vocabulary, window, conns, streams, reasons, key);
    var hits := HitsOf(EventsOf(w, |w.records|), vocabulary, window, conns, key);
    var sorted := Sorting.Sort(HitOrder, hits);
    var h := FoldFrom(sorted, (r.start, r.state));
    HitOrderIsTotal();
    Sorting.Sorted(HitOrder, hits);
    SameElements(sorted, hits);
    var i := HitFrom(EventsOf(w, |w.records|), vocabulary, window, conns, key, h);
    var j := KeptFrom(w, |w.records|, conns[i]);
    SameTime(w, j, k, conns[i]);
    FoundIsRecord(w, vocabulary, k, p, b, e);
  }

  lemma SameTime(w: World, j: nat, k: nat, c: Event)
    requires Later(w) && j < |w.records| && k < |w.records| && c == ConnOf(w, w.records[j], j + 1) && c.start == w.records[k].start
    ensures j == k
  {
    hide ConnOf;
  }

  lemma MarkThere(w: World, streams: map<Key, seq<(real, string)>>, k: nat, p: nat)
    requires AllRecovered(w, streams) && k < |w.records| && p < |w.programs| && w.programs[p].instance == w.records[k].instance
    ensures (w.records[k].start, w.records[k].state) in StreamAt(streams, KeyAt(w, p, w.records[k].behaviour))
  {
    hide StreamAt, RecordHits, KeyAt;
    var r := w.records[k];
    RecordHasHit(w, |w.records|, k);
    var hits := RecordHits(w, |w.records|, r.instance, r.behaviour);
    var n :| 0 <= n < |hits| && hits[n] == Hit(r.start, r.state, IsMany(w, r));
    assert Marks(hits)[n] == (r.start, r.state);
  }

  lemma RecoveredIsTold(w: World, vocabulary: map<string, seq<Candidate>>, window: (real, real), conns: seq<Event>,
                        streams: map<Key, seq<(real, string)>>, reasons: map<string, nat>)
    requires Simulated(w) && Later(w) && IsVocabulary(w, |w.programs|, vocabulary)
    requires conns == FirstCopies(Conns(w, |w.records|)) && AllInside(window, conns) && AllRecovered(w, streams)
    requires Labelled(EventsOf(w, |w.records|), vocabulary, window, conns, streams, reasons)
    ensures AllTold(w) && NoCopies(w) && NothingFolds(w)
  {
    hide Simulated, Later, IsVocabulary, Conns, EventsOf, FirstCopies, ToldApart, Labelled, Copied, AllInside, NoneFolded, RecordMarks,
         KeyAt, StreamAt, Fold, KeptHits, HitOrder;
    forall k | 0 <= k < |w.records|
      ensures ToldApart(w, k) && !Copied(w, k)
    {
      ShownIsTold(w, vocabulary, window, conns, streams, reasons, k);
    }
    forall p, behaviour | 0 <= p < |w.programs|
      ensures NoneFolded(RecordHits(w, |w.records|, w.programs[p].instance, behaviour))
    {
      StreamIsKept(w, vocabulary, window, conns, streams, reasons, p, behaviour);
    }
  }
}
