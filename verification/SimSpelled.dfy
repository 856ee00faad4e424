/** What the simulator puts on the wire and the fit counts, event by event, in their own terms. */
module SimSpelled {
  import opened Wrappers
  import opened SimLabel

  // ----- the ports an invocation goes to

  /** A port of ``target`` this call connects to. */
  ghost predicate GoesTo(s: Signature, call: Call, target: Peer, port: int) {
    if s.port.Some? then port == s.port.value
    else if s.endpoints != [] then
      exists e :: 0 <= e < |target.served| && target.served[e].protocol in s.endpoints && target.served[e].port == port
                  && forall d :: 0 <= d < e ==> target.served[d].protocol !in s.endpoints
    else
      match call.ports
      case NoPorts => false
      case OnePort(p) => port == p
      case Ranges(ranges) => exists k :: 0 <= k < |ranges| && ranges[k].0 <= port <= ranges[k].1
  }

  lemma {:induction false} ServedIs(served: seq<Endpoint>, protocols: seq<string>)
    ensures match FirstServed(served, protocols)
            case None => forall e :: 0 <= e < |served| ==> served[e].protocol !in protocols
            case Some(found) =>
              exists e :: 0 <= e < |served| && served[e] == found && found.protocol in protocols
                          && forall d :: 0 <= d < e ==> served[d].protocol !in protocols
  {
    if served != [] && served[0].protocol !in protocols {
      var rest := served[1..];
      ServedIs(rest, protocols);
      assert forall e :: 0 <= e < |rest| ==> rest[e] == served[e + 1];
      match FirstServed(rest, protocols)
      case None =>
      case Some(found) =>
        var e :| 0 <= e < |rest| && rest[e] == found && found.protocol in protocols
                 && forall d :: 0 <= d < e ==> rest[d].protocol !in protocols;
        assert forall d :: 0 < d < e + 1 ==> served[d] == rest[d - 1];
        assert served[e + 1] == found;
    }
  }

  /** A range lists every port from its first to its last, once, upwards. */
  lemma {:induction false} RangeIs(lo: int, hi: int)
    ensures |Range(lo, hi)| == if lo <= hi then hi - lo + 1 else 0
    ensures forall k :: 0 <= k < |Range(lo, hi)| ==> Range(lo, hi)[k] == lo + k
    decreases hi - lo
  {
    if lo <= hi {
      RangeIs(lo + 1, hi);
    }
  }

  lemma {:induction false} RangesAre(ranges: seq<(int, int)>, port: int)
    ensures port in AllRanges(ranges) <==> exists k :: 0 <= k < |ranges| && ranges[k].0 <= port <= ranges[k].1
  {
    if ranges != [] {
      var lo, hi, rest := ranges[0].0, ranges[0].1, ranges[1..];
      RangesAre(rest, port);
      RangeIs(lo, hi);
      if lo <= port <= hi {
        assert Range(lo, hi)[port - lo] == port;
      }
      if k :| 0 <= k < |rest| && rest[k].0 <= port <= rest[k].1 {
        assert ranges[k + 1] == rest[k];
      }
      if k :| 0 < k < |ranges| && ranges[k].0 <= port <= ranges[k].1 {
        assert rest[k - 1] == ranges[k];
      }
    }
  }

  lemma PortsAre(s: Signature, call: Call, target: Peer, port: int)
    ensures port in PortsOf(s, call, target) <==> GoesTo(s, call, target, port)
  {
    if s.port.None? && s.endpoints != [] {
      ServedIs(target.served, s.endpoints);
    } else if s.port.None? && call.ports.Ranges? {
      RangesAre(call.ports.ranges, port);
    }
  }

  // ----- how often it connects to each

  /** How often a list holds something. */
  function Times<T(==)>(x: T, s: seq<T>): nat {
    if s == [] then 0 else (if s[0] == x then 1 else 0) + Times(x, s[1..])
  }

  lemma {:induction false} TimesPlus<T>(x: T, a: seq<T>, b: seq<T>)
    ensures Times(x, a + b) == Times(x, a) + Times(x, b)
  {
    if a == [] {
      assert a + b == b;
    } else {
      assert (a + b)[1..] == a[1..] + b;
      TimesPlus(x, a[1..], b);
    }
  }

  lemma {:induction false} TimesRepeat<T>(x: T, y: T, n: nat)
    ensures Times(x, Repeat(y, n)) == if x == y then n else 0
  {
    if n > 0 {
      assert Repeat(y, n)[1..] == Repeat(y, n - 1);
      TimesRepeat(x, y, n - 1);
    }
  }

  /** How many connections one invocation makes to each target and port: as many as the shape says, or one if it scans or says many. */
  function PerPort(s: Signature): nat {
    if s.endpoints == [] && s.port.None? then 1
    else match s.connections
         case Exactly(n) => n
         case Many => 1
  }

  lemma {:induction false} PortSlotTimes(target: Peer, ports: seq<int>, times: nat, slot: (Peer, int))
    ensures Times(slot, PortSlots(target, ports, times)) == if slot.0 == target then times * Times(slot.1, ports) else 0
  {
    if ports != [] {
      PortSlotTimes(target, ports[1..], times, slot);
      TimesPlus(slot, Repeat((target, ports[0]), times), PortSlots(target, ports[1..], times));
      TimesRepeat(slot, (target, ports[0]), times);
      OneMoreTime(times, Times(slot.1, ports[1..]));
    }
  }

  lemma OneMoreTime(a: nat, b: nat)
    ensures a * (1 + b) == a + a * b
  {
  }

  /** A call whose targets differ connects to each port it lists of each target of its, so often, and nowhere else. */
  lemma {:induction false} SlotTimes(s: Signature, call: Call, targets: seq<Peer>, times: nat, slot: (Peer, int))
    requires Distinct(targets)
    ensures Times(slot, TargetSlots(s, call, targets, times)) ==
      if slot.0 in targets then times * Times(slot.1, PortsOf(s, call, slot.0)) else 0
  {
    if targets != [] {
      var rest := targets[1..];
      assert forall k :: 0 <= k < |rest| ==> rest[k] == targets[k + 1];
      SlotTimes(s, call, rest, times, slot);
      PortSlotTimes(targets[0], PortsOf(s, call, targets[0]), times, slot);
      TimesPlus(slot, PortSlots(targets[0], PortsOf(s, call, targets[0]), times), TargetSlots(s, call, rest, times));
      assert targets[0] !in rest;
      assert slot.0 in targets <==> slot.0 == targets[0] || slot.0 in rest;
    }
  }

  lemma {:induction false} ListedIsIn<T>(x: T, s: seq<T>)
    ensures Times(x, s) > 0 <==> x in s
  {
    if s != [] {
      ListedIsIn(x, s[1..]);
    }
  }

  /** Where an invocation connects to: each port of each of its targets, as often as its shape says for each time the port is listed. */
  lemma SlotsAre(s: Signature, call: Call, slot: (Peer, int))
    requires Distinct(call.targets)
    ensures Times(slot, Slots(s, call)) ==
      if slot.0 in call.targets then PerPort(s) * Times(slot.1, PortsOf(s, call, slot.0)) else 0
    ensures slot in Slots(s, call) <==> slot.0 in call.targets && PerPort(s) > 0 && GoesTo(s, call, slot.0, slot.1)
  {
    SlotTimes(s, call, call.targets, PerPort(s), slot);
    ListedIsIn(slot, Slots(s, call));
    ListedIsIn(slot.1, PortsOf(s, call, slot.0));
    PortsAre(s, call, slot.0, slot.1);
    PositiveProduct(PerPort(s), Times(slot.1, PortsOf(s, call, slot.0)));
  }

  lemma PositiveProduct(a: nat, b: nat)
    ensures a * b > 0 <==> a > 0 && b > 0
  {
    if a > 0 && b > 0 {
      assert a * b >= b;
    }
  }

  // ----- the address it connects from

  /** The target's address is on this segment of the target's, and the source is on the segment too. */
  ghost predicate Shared(mine: OrderedMap<string, string>, theirs: OrderedMap<string, string>, address: string, e: nat, m: nat) {
    && e < |theirs| && m < |mine| && theirs[e].1 == address && mine[m].0 == theirs[e].0
    && forall k :: 0 <= k < m ==> mine[k].0 != theirs[e].0
  }

  lemma {:induction false} FirstKeyed(mine: OrderedMap<string, string>, x: string) returns (m: nat)
    requires Has(mine, x)
    ensures m < |mine| && mine[m] == (x, Lookup(mine, x).value) && forall k :: 0 <= k < m ==> mine[k].0 != x
  {
    m := 0;
    if mine[0].0 != x {
      HasTail(mine, x);
      m := FirstKeyed(mine[1..], x);
      assert forall k :: 0 < k < m + 1 ==> mine[k] == mine[1..][k - 1];
      m := m + 1;
    }
  }

  /**
   * An invocation comes from the instance's own address on the first segment it shares with the target's
   * address, and where there is none from its first address.
   */
  lemma {:induction false} SourceIs(mine: OrderedMap<string, string>, theirs: OrderedMap<string, string>, address: string)
    returns (e: nat, m: nat)
    ensures forall d, k: nat :: 0 <= d < e ==> !Shared(mine, theirs, address, d, k)
    ensures if e < |theirs| then Shared(mine, theirs, address, e, m) && Source(mine, theirs, address) == mine[m].1
            else Source(mine, theirs, address) == if mine == [] then "0.0.0.0" else mine[0].1
    decreases theirs
  {
    e, m := 0, 0;
    if theirs != [] {
      if theirs[0].1 == address && Has(mine, theirs[0].0) {
        m := FirstKeyed(mine, theirs[0].0);
      } else {
        var rest := theirs[1..];
        e, m := SourceIs(mine, rest, address);
        forall d, k: nat | 0 <= d < e + 1
          ensures !Shared(mine, theirs, address, d, k)
        {
          if d > 0 {
            assert !Shared(mine, rest, address, d - 1, k);
          } else if k < |mine| {
            assert mine[k].0 == theirs[0].0 ==> Has(mine, theirs[0].0);
          }
        }
        e := e + 1;
      }
    }
  }

  // ----- the events of a connection

  /** A part of a text. */
  ghost predicate Within(part: string, text: string) {
    exists before, after :: text == before + part + after
  }

  lemma {:induction false} ContainsIs(text: string, part: string)
    ensures Contains(text, part) <==> Within(part, text)
  {
    if part <= text {
      assert text == [] + part + text[|part|..];
    } else if text != [] {
      ContainsIs(text[1..], part);
      if before, after :| text[1..] == before + part + after {
        assert text == [text[0]] + before + part + after;
      }
      if before, after :| text == before + part + after {
        WithoutFirst(text, before, part, after);
      }
    }
  }

  lemma WithoutFirst(text: string, before: string, part: string, after: string)
    requires text == before + part + after && text != []
    ensures part <= text || (before != [] && text[1..] == before[1..] + part + after)
  {
    if before == [] {
      assert text == part + after;
    } else {
      assert text[1..] == before[1..] + part + after;
    }
  }

  /**
   * What connection number ``n`` of a record to one target and port puts on the wire: the connection,
   * rejected if it scans, and with HTTP the request, a POST if its signature says so, of the path asked for.
   */
  lemma ConnectionEvents(w: World, r: Record, call: Call, s: Signature, slot: (Peer, int), n: nat)
    ensures var events, scan := SlotEvents(w, r, call, s, slot, n), s.endpoints == [] && s.port.None?;
            && |events| == (if s.protocol == "http" && !scan then 2 else 1)
            && events[0].Conn? && events[0].flow == Decimal(n) && events[0].start == r.start && (events[0].rejected <==> scan)
            && events[0].five.origAddr == Source(PlanOf(w, r.instance), PlanOf(w, slot.0.instance), slot.0.address)
            && events[0].five.origPort == 49152 + n % 16384
            && events[0].five.respAddr == slot.0.address && events[0].five.respPort == slot.1 && events[0].five.proto == s.transport
            && (|events| == 2 ==>
                  && events[1].App? && events[1].flow == Decimal(n) && events[1].protocol == "http" && events[1].host == slot.0.address
                  && events[1].verb == (if Within("post", call.signature) then "POST" else "GET")
                  && events[1].uri == (if call.path.None? then call.startPath else call.path))
  {
    ContainsIs(call.signature, "post");
  }

  // ----- copies of a connection

  /** ``n`` is the integer nearest to ``x``, the even one of two. */
  predicate Nearest(x: real, n: int) {
    -0.5 <= x - n as real <= 0.5 && (x - n as real == 0.5 || x - n as real == -0.5 ==> n % 2 == 0)
  }

  lemma RoundIs(x: real, n: int)
    ensures Round(x) == n <==> Nearest(x, n)
  {
    var f := x.Floor;
    assert f as real <= x < f as real + 1.0;
  }

  /** A time's millisecond. */
  predicate Millisecond(start: real, n: int) {
    Nearest(start * 1000.0, n)
  }

  /** Two connections are taken for one exactly if they have one five-tuple and one millisecond is nearest to both. */
  lemma CopiesAre(a: Event, b: Event)
    requires a.Conn? && b.Conn?
    ensures Copy(a) == Copy(b) <==> a.five == b.five && exists n: int :: Millisecond(a.start, n) && Millisecond(b.start, n)
  {
    RoundIs(a.start * 1000.0, Round(a.start * 1000.0));
    assert Millisecond(a.start, Round(a.start * 1000.0));
    if n: int :| Millisecond(a.start, n) && Millisecond(b.start, n) {
      RoundIs(a.start * 1000.0, n);
      RoundIs(b.start * 1000.0, n);
    }
    if Round(a.start * 1000.0) == Round(b.start * 1000.0) {
      RoundIs(b.start * 1000.0, Round(b.start * 1000.0));
      assert Millisecond(b.start, Round(a.start * 1000.0));
    }
  }

  // ----- the share of web connections with an application event

  lemma {:induction false} AppsAre(events: seq<Event>, flow: string)
    ensures forall a :: a in AppsOf(events, flow) <==> a in events && a.App? && a.flow == flow
  {
    if events != [] {
      AppsAre(events[..|events| - 1], flow);
      assert forall a :: a in events <==> a in events[..|events| - 1] || a == events[|events| - 1];
    }
  }

  /** A connection in the window to a port of the web, or with an application event that is HTTP's. */
  ghost predicate IsWeb(events: seq<Event>, window: (real, real), c: Event)
    requires c.Conn?
  {
    && window.0 <= c.start && c.start < window.1
    && (c.five.respPort == 80 || c.five.respPort == 8080 || c.five.respPort == 8000 || c.five.respPort == 443
        || exists a :: a in events && a.App? && a.flow == c.flow && a.protocol == "http")
  }

  ghost predicate HasApp(events: seq<Event>, c: Event)
    requires c.Conn?
  {
    exists a :: a in events && a.App? && a.flow == c.flow
  }

  /** The connections of the web among the first ``n``, all of them or those with an application event. */
  ghost function WebPlaces(events: seq<Event>, window: (real, real), conns: seq<Event>, n: nat, app: bool): set<nat>
    requires n <= |conns| && forall i :: 0 <= i < |conns| ==> conns[i].Conn?
  {
    set k: nat | k < n && IsWeb(events, window, conns[k]) && (app ==> HasApp(events, conns[k]))
  }

  lemma WebPlacesSnoc(events: seq<Event>, window: (real, real), conns: seq<Event>, n: nat, app: bool)
    requires n < |conns| && forall i :: 0 <= i < |conns| ==> conns[i].Conn?
    ensures n !in WebPlaces(events, window, conns, n, app)
    ensures WebPlaces(events, window, conns, n + 1, app) ==
      if IsWeb(events, window, conns[n]) && (app ==> HasApp(events, conns[n]))
      then WebPlaces(events, window, conns, n, app) + {n} else WebPlaces(events, window, conns, n, app)
  {
    hide IsWeb, HasApp;
  }

  lemma CoverageSnoc(events: seq<Event>, window: (real, real), conns: seq<Event>, n: nat)
    requires n < |conns| && forall i :: 0 <= i < |conns| ==> conns[i].Conn?
    ensures var before, web := Coverage(events, window, conns[..n]), Inside(window, conns[n]) && Web(events, conns[n]);
            Coverage(events, window, conns[..n + 1]) ==
              (before.0 + (if web then 1 else 0), before.1 + if web && AppsOf(events, conns[n].flow) != [] then 1 else 0)
  {
    hide Web, Inside, AppsOf;
    assert conns[..n + 1][..n] == conns[..n];
  }

  lemma OneWebMore(events: seq<Event>, window: (real, real), conns: seq<Event>, n: nat, app: bool)
    requires n < |conns| && forall i :: 0 <= i < |conns| ==> conns[i].Conn?
    ensures |WebPlaces(events, window, conns, n + 1, app)| ==
      |WebPlaces(events, window, conns, n, app)| + if IsWeb(events, window, conns[n]) && (app ==> HasApp(events, conns[n])) then 1 else 0
  {
    hide IsWeb, HasApp, WebPlaces;
    WebPlacesSnoc(events, window, conns, n, app);
  }

  /** The share is of the connections of the web in the window, those with an application event. */
  lemma {:induction false} CoverageIs(events: seq<Event>, window: (real, real), conns: seq<Event>, n: nat)
    requires n <= |conns| && forall i :: 0 <= i < |conns| ==> conns[i].Conn?
    ensures Coverage(events, window, conns[..n]) ==
      (|WebPlaces(events, window, conns, n, false)|, |WebPlaces(events, window, conns, n, true)|)
  {
    hide IsWeb, HasApp, Web, Inside, AppsOf, Coverage, WebPlaces;
    if n == 0 {
      NoCoverage(events, window, conns);
    } else {
      var last := n - 1;
      CoverageIs(events, window, conns, last);
      WebIs(events, window, conns[last]);
      CoverageSnoc(events, window, conns, last);
      OneWebMore(events, window, conns, last, false);
      OneWebMore(events, window, conns, last, true);
    }
  }

  lemma NoCoverage(events: seq<Event>, window: (real, real), conns: seq<Event>)
    requires forall i :: 0 <= i < |conns| ==> conns[i].Conn?
    ensures Coverage(events, window, conns[..0]) == (0, 0)
    ensures WebPlaces(events, window, conns, 0, false) == {} && WebPlaces(events, window, conns, 0, true) == {}
  {
  }

  lemma WebIs(events: seq<Event>, window: (real, real), c: Event)
    requires c.Conn?
    ensures IsWeb(events, window, c) <==> Inside(window, c) && Web(events, c)
    ensures HasApp(events, c) <==> AppsOf(events, c.flow) != []
  {
    hide AppsOf;
    AppsAre(events, c.flow);
    if AppsOf(events, c.flow) != [] {
      assert AppsOf(events, c.flow)[0] in AppsOf(events, c.flow);
    }
  }
}
