/** Runs the round trip does not survive, one for each condition it asks for. */
module SimCases {
  import opened Wrappers
  import opened Ordering
  import opened SimLabel
  import opened TellApart
  import opened SimThenLabel
  import Sorting

  // ----- one workstation and one server

  const WS := "lan/ws[0]"
  const WS_AT := "10.0.0.2"
  const SRV_AT := "10.0.0.80"
  const SMB := Endpoint("smb", 445, "tcp")
  const HTTP := Endpoint("http", 80, "tcp")
  const SRV := Peer("lan/srv[0]", SRV_AT, [SMB, HTTP])

  const SMB_READ := Signature("smb", ["smb"], Exactly(1), "tcp", None)
  const HTTP_GET := Signature("http", ["http", "https"], Exactly(1), "tcp", None)
  const HTTP_BROWSE := Signature("http", ["http", "https"], Many, "tcp", None)
  const SCAN_SYN := Signature("scan", [], Many, "tcp", None)

  const SIGNATURES := map["smb.read" := SMB_READ, "http.get" := HTTP_GET, "http.browse" := HTTP_BROWSE, "scan.tcp_syn" := SCAN_SYN]

  function WorkOf(entries: OrderedMap<string, Option<Action>>): Program {
    Program(WS, "ws", [Behaviour("work", entries)], map["srv" := [SRV]])
  }

  function Lab(entries: OrderedMap<string, Option<Action>>, records: seq<Record>, calls: map<string, Call>): World {
    World(SIGNATURES, [WorkOf(entries)], map[WS := [("lan", WS_AT)], "lan/srv[0]" := [("lan", SRV_AT)]], records, calls)
  }

  function At(state: string, invocation: string, start: real): Record {
    Record(WS, "work", state, invocation, start)
  }

  /** The port an action's connection goes to: the scan's, or where the server serves the protocol. */
  function PortOf(call: Call): int {
    if call.signature == "scan.tcp_syn" then (if call.ports.OnePort? then call.ports.port else 0)
    else if call.signature == "smb.read" then 445
    else 80
  }

  predicate AtOnePort(call: Call) {
    call.signature in SIGNATURES && call.targets == [SRV] && (call.signature == "scan.tcp_syn" ==> call.ports.OnePort?)
  }

  lemma OneSlot(call: Call)
    requires AtOnePort(call)
    ensures Slots(SIGNATURES[call.signature], call) == [(SRV, PortOf(call))]
  {
    var s := SIGNATURES[call.signature];
    assert SRV.served[1..] == [HTTP];
    assert FirstServed(SRV.served, ["smb"]) == Some(SMB);
    assert FirstServed([HTTP], ["http", "https"]) == Some(HTTP);
    assert FirstServed(SRV.served, ["http", "https"]) == Some(HTTP);
    var ports := PortsOf(s, call, SRV);
    assert ports == [PortOf(call)];
    assert ports[1..] == [] && PortSlots(SRV, [], 1) == [];
    assert Repeat((SRV, ports[0]), 1) == [(SRV, ports[0])];
    assert PortSlots(SRV, ports, 1) == [(SRV, ports[0])];
    assert [SRV][1..] == [];
    assert TargetSlots(s, call, [SRV], 1) == [(SRV, ports[0])] + [];
  }

  /** The record is of entry ``e``, and its call is what that entry's action asks for. */
  ghost predicate Fits(entries: OrderedMap<string, Option<Action>>, r: Record, calls: map<string, Call>, e: nat) {
    && r.instance == WS && r.behaviour == "work" && e < |entries| && entries[e].0 == r.state && entries[e].1.Some?
    && r.invocation in calls && AtOnePort(calls[r.invocation])
    && var a, call := entries[e].1.value, calls[r.invocation];
       && a.tie == "srv" && call.signature == a.signature
       && DrawnFrom(a.path, call.path) && DrawnFrom(a.startPath, call.startPath)
  }

  ghost predicate FitsSome(entries: OrderedMap<string, Option<Action>>, r: Record, calls: map<string, Call>) {
    exists e: nat :: Fits(entries, r, calls, e)
  }

  lemma FitsIsRun(entries: OrderedMap<string, Option<Action>>, records: seq<Record>, calls: map<string, Call>, r: Record, e: nat)
    requires Fits(entries, r, calls, e)
    ensures var w := Lab(entries, records, calls);
            && RecordIsRun(w, r) && Acts(w, r, 0, 0, e) && SlotsOf(w, r) == [(SRV, PortOf(calls[r.invocation]))]
  {
    OneSlot(calls[r.invocation]);
    var w := Lab(entries, records, calls);
    assert PeersOn(w.programs[0], "srv") == [SRV];
    assert forall t :: t in [SRV] ==> t in PeersOn(w.programs[0], "srv");
    assert Acts(w, r, 0, 0, e);
  }

  /** What such a record's connection looks like. */
  lemma FitsConn(entries: OrderedMap<string, Option<Action>>, records: seq<Record>, calls: map<string, Call>, r: Record, e: nat,
                 n: nat)
    requires Fits(entries, r, calls, e)
    ensures ConnOf(Lab(entries, records, calls), r, n).five
      == Five(WS_AT, 49152 + n % 16384, SRV_AT, PortOf(calls[r.invocation]), "tcp")
  {
    FitsIsRun(entries, records, calls, r, e);
    var w := Lab(entries, records, calls);
    var mine, theirs := PlanOf(w, WS), PlanOf(w, SRV.instance);
    assert mine[0] == ("lan", WS_AT) && theirs[0] == ("lan", SRV_AT);
    assert Lookup(mine, "lan") == Some(WS_AT);
    assert Source(mine, theirs, SRV_AT) == WS_AT;
  }

  lemma LabIsSimulated(entries: OrderedMap<string, Option<Action>>, records: seq<Record>, calls: map<string, Call>)
    requires DistinctKeys(entries)
    requires forall i, j :: 0 <= i < j < |records| ==> records[i].start <= records[j].start
    requires forall k :: 0 <= k < |records| ==> FitsSome(entries, records[k], calls)
    ensures Simulated(Lab(entries, records, calls))
  {
    hide Fits, RecordIsRun;
    var w := Lab(entries, records, calls);
    forall k | 0 <= k < |records|
      ensures RecordIsRun(w, records[k])
    {
      var e: nat :| Fits(entries, records[k], calls, e);
      FitsIsRun(entries, records, calls, records[k], e);
    }
    assert OwnAddresses(w) by {
      OneAddress(entries, records, calls);
    }
  }

  lemma OneAddress(entries: OrderedMap<string, Option<Action>>, records: seq<Record>, calls: map<string, Call>)
    ensures OwnAddresses(Lab(entries, records, calls))
  {
    assert PlanOf(Lab(entries, records, calls), WS) == [("lan", WS_AT)];
  }

  // ----- its candidates

  function CandidateOf(entries: OrderedMap<string, Option<Action>>, state: string, a: Action): Candidate
    requires a.signature in SIGNATURES
  {
    CandidateFor(WorkOf(entries), "work", state, a, SIGNATURES[a.signature])
  }

  lemma OneCandidate(state: string, a: Action, records: seq<Record>, calls: map<string, Call>)
    requires a.signature in SIGNATURES
    ensures var entries := [(state, Some(a))];
            CandidatesOf(Lab(entries, records, calls), WorkOf(entries)) == [CandidateOf(entries, state, a)]
  {
    hide CandidateFor;
    var entries := [(state, Some(a))];
    var w, behaviours := Lab(entries, records, calls), WorkOf(entries).behaviours;
    assert entries[..0] == [] && behaviours[..0] == [];
    assert Acting(w, WorkOf(entries), "work", entries) == [] + [CandidateOf(entries, state, a)];
    assert CandidatesIn(w, WorkOf(entries), behaviours) == [] + [CandidateOf(entries, state, a)];
  }

  lemma TwoCandidates(s: string, a: Action, t: string, b: Action, records: seq<Record>, calls: map<string, Call>)
    requires a.signature in SIGNATURES && b.signature in SIGNATURES
    ensures var entries := [(s, Some(a)), (t, Some(b))];
            CandidatesOf(Lab(entries, records, calls), WorkOf(entries)) == [CandidateOf(entries, s, a), CandidateOf(entries, t, b)]
  {
    hide CandidateFor;
    var entries := [(s, Some(a)), (t, Some(b))];
    var w, behaviours, p := Lab(entries, records, calls), WorkOf(entries).behaviours, WorkOf(entries);
    assert entries[..1] == [(s, Some(a))] && entries[..1][..0] == [] && behaviours[..0] == [];
    assert Acting(w, p, "work", entries[..1]) == [] + [CandidateOf(entries, s, a)];
    assert Acting(w, p, "work", entries) == [CandidateOf(entries, s, a)] + [CandidateOf(entries, t, b)];
    assert CandidatesIn(w, p, behaviours) == [] + [CandidateOf(entries, s, a), CandidateOf(entries, t, b)];
  }

  /** What an action's candidate has among its endpoints. */
  lemma EndpointsOf(entries: OrderedMap<string, Option<Action>>, state: string, a: Action)
    requires a.signature in SIGNATURES && a.tie == "srv"
    ensures var c := CandidateOf(entries, state, a);
            && (a.signature == "smb.read" ==> c.endpoints == {(SRV_AT, Some(445), "tcp")})
            && (a.signature == "http.get" || a.signature == "http.browse" ==> c.endpoints == {(SRV_AT, Some(80), "tcp")})
            && (a.signature == "scan.tcp_syn" ==> c.endpoints == {(SRV_AT, None, "tcp")})
            && c.state == state && c.paths == PathsOf(a) && c.signature == a.signature
  {
    var s := SIGNATURES[a.signature];
    assert PeersOn(WorkOf(entries), "srv") == [SRV];
    assert [SRV][1..] == [];
    assert Endpoints(s, []) == {};
    assert Endpoints(s, [SRV]) == PeerEndpoints(s, SRV);
    assert forall e :: e in SRV.served <==> e == SMB || e == HTTP;
    if a.signature == "smb.read" {
      assert PeerEndpoints(s, SRV) == {(SRV_AT, Some(445), "tcp")};
    } else if a.signature == "scan.tcp_syn" {
      assert PeerEndpoints(s, SRV) == {(SRV_AT, None, "tcp")};
    } else {
      assert PeerEndpoints(s, SRV) == {(SRV_AT, Some(80), "tcp")};
    }
  }

  // ----- two files on one share, which labelling does not read

  const READ_A := Action("smb.read", "srv", Some(Literal("a.txt")), None)
  const READ_B := Action("smb.read", "srv", Some(Literal("b.txt")), None)

  const READS := [("read a", Some(READ_A)), ("read b", Some(READ_B))]

  const READ_RECORDS := [At("read a", "ws/work#1", 10.0)]

  const READ_CALLS := map["ws/work#1" := Call("smb.read", Some("a.txt"), None, NoPorts, [SRV])]

  const READ_RUN := Lab(READS, READ_RECORDS, READ_CALLS)

  /** Disjoint paths tell nothing apart but HTTP: the simulator shows no path of an SMB read, so it is ambiguous. */
  lemma SmbIsAmbiguous(vocabulary: map<string, seq<Candidate>>)
    requires IsVocabulary(READ_RUN, 1, vocabulary)
    ensures Simulated(READ_RUN) && Later(READ_RUN) && !ToldApart(READ_RUN, 0)
    ensures FoundAt(EventsOf(READ_RUN, 1), vocabulary, ConnOf(READ_RUN, READ_RECORDS[0], 1)) == Not("ambiguous")
    ensures PathsOf(READ_A).Some? && PathsOf(READ_B).Some? && PathsOf(READ_A).value !! PathsOf(READ_B).value
  {
    hide FoundAt, EventsOf, ConnOf, CandidatesOf, MatchAmong, IsVocabulary, Simulated, ToldApart, CandidateOf;
    var w, r, found := READ_RUN, READ_RECORDS[0], [CandidateOf(READS, "read a", READ_A), CandidateOf(READS, "read b", READ_B)];
    assert Fits(READS, r, READ_CALLS, 0);
    LabIsSimulated(READS, READ_RECORDS, READ_CALLS);
    FitsIsRun(READS, READ_RECORDS, READ_CALLS, r, 0);
    FitsConn(READS, READ_RECORDS, READ_CALLS, r, 0, 1);
    TwoCandidates("read a", READ_A, "read b", READ_B, READ_RECORDS, READ_CALLS);
    EndpointsOf(READS, "read a", READ_A);
    EndpointsOf(READS, "read b", READ_B);
    FoundHere(w, vocabulary, 0, 0, 0, 0);
    UrisOfOne(w, r, 1);
    BothAmbiguous(found, ConnOf(w, r, 1).five);
    FoundIsRecord(w, vocabulary, 0, 0, 0, 0);
  }

  /** Two that claim a connection, both with paths, and none seen. */
  lemma BothAmbiguous(found: seq<Candidate>, five: Five)
    requires |found| == 2 && Reaches(found[0], five) && Reaches(found[1], five) && found[0].paths.Some? && found[1].paths.Some?
    ensures MatchAmong(found, five, {}) == Not("ambiguous")
  {
    HitsClaim(found, five);
    FilterTwo(found, ByClaim(found, five), 0, 1);
    FilterBoth(found, ByClaim(found, five), ByPath({}));
    FilterNone(found, Both(ByClaim(found, five), ByPath({})));
  }

  // ----- a request and a scan of one peer

  const GET := Action("http.get", "srv", Some(Literal("/")), None)
  const SCAN := Action("scan.tcp_syn", "srv", None, None)

  const PROBES := [("get", Some(GET)), ("scan", Some(SCAN))]

  const PROBE_RECORDS := [At("get", "ws/work#1", 10.0), At("scan", "ws/work#2", 20.0)]

  const PROBE_CALLS := map["ws/work#1" := Call("http.get", Some("/"), None, NoPorts, [SRV]),
                           "ws/work#2" := Call("scan.tcp_syn", None, None, OnePort(80), [SRV])]

  const PROBE_RUN := Lab(PROBES, PROBE_RECORDS, PROBE_CALLS)

  lemma ProbeConn(k: nat)
    requires k < 2
    ensures OneConnection(PROBE_RUN, PROBE_RECORDS[k]) && Acts(PROBE_RUN, PROBE_RECORDS[k], 0, 0, k)
    ensures ConnOf(PROBE_RUN, PROBE_RECORDS[k], k + 1).five == Five(WS_AT, 49152 + k + 1, SRV_AT, 80, "tcp")
  {
    assert Fits(PROBES, PROBE_RECORDS[k], PROBE_CALLS, k);
    FitsIsRun(PROBES, PROBE_RECORDS, PROBE_CALLS, PROBE_RECORDS[k], k);
    FitsConn(PROBES, PROBE_RECORDS, PROBE_CALLS, PROBE_RECORDS[k], k, k + 1);
  }

  lemma ProbesSimulated()
    ensures Simulated(PROBE_RUN) && Later(PROBE_RUN)
  {
    assert Fits(PROBES, PROBE_RECORDS[0], PROBE_CALLS, 0) && Fits(PROBES, PROBE_RECORDS[1], PROBE_CALLS, 1);
    LabIsSimulated(PROBES, PROBE_RECORDS, PROBE_CALLS);
  }

  /** A named port wins over a scan: the request is told apart from the scan of its peer, the scan of that port is not. */
  lemma NamedPortWins()
    ensures Simulated(PROBE_RUN) && Later(PROBE_RUN) && ToldApart(PROBE_RUN, 0) && !ToldApart(PROBE_RUN, 1)
  {
    hide ConnOf, CandidatesOf, Simulated, CandidateOf, Told, Acts, Uris, MatchAmong, OneConnection, ToldApart, Later;
    var w, found := PROBE_RUN, [CandidateOf(PROBES, "get", GET), CandidateOf(PROBES, "scan", SCAN)];
    ProbesSimulated();
    TwoCandidates("get", GET, "scan", SCAN, PROBE_RECORDS, PROBE_CALLS);
    EndpointsOf(PROBES, "get", GET);
    EndpointsOf(PROBES, "scan", SCAN);
    forall k: nat | k < 2
      ensures ToldApart(w, k) <==> k == 0
    {
      ProbeConn(k);
      var five, uris := ConnOf(w, PROBE_RECORDS[k], k + 1).five, Uris(AppsWith(w, PROBE_RECORDS[k], k + 1));
      GetAlone(found, five, uris);
      MatchExactly(found, 0, five, uris);
      ToldExactly(w, k, 0, 0, k);
      assert Mine(w, PROBE_RECORDS[k], 0, 0, k) == found[k] by {
        MineIs(k);
      }
    }
    assert ToldApart(w, 0) && !ToldApart(w, 1);
  }

  lemma MineIs(k: nat)
    requires k < 2 && Acts(PROBE_RUN, PROBE_RECORDS[k], 0, 0, k)
    ensures Mine(PROBE_RUN, PROBE_RECORDS[k], 0, 0, k) ==
      if k == 0 then CandidateOf(PROBES, "get", GET) else CandidateOf(PROBES, "scan", SCAN)
  {
  }

  lemma GetAlone(found: seq<Candidate>, five: Five, uris: set<string>)
    requires |found| == 2 && five.respAddr == SRV_AT && five.respPort == 80 && five.proto == "tcp"
    requires found[0].endpoints == {(SRV_AT, Some(80), "tcp")} && found[1].endpoints == {(SRV_AT, None, "tcp")}
    ensures Told(found, 0, five, uris)
  {
  }

  // ----- one action by itself

  const ALONE := [("get", Some(GET))]

  function GetCall(): Call {
    Call("http.get", Some("/"), None, NoPorts, [SRV])
  }

  /** Records of one action alone are all told apart. */
  lemma AloneIsTold(a: Action, state: string, records: seq<Record>, calls: map<string, Call>)
    requires a.signature == "http.get" || a.signature == "http.browse"
    requires forall k :: 0 <= k < |records| ==> Fits([(state, Some(a))], records[k], calls, 0)
    ensures AllTold(Lab([(state, Some(a))], records, calls))
  {
    hide ToldApart, Fits;
    forall k: nat | k < |records|
      ensures ToldApart(Lab([(state, Some(a))], records, calls), k)
    {
      assert Fits([(state, Some(a))], records[k], calls, 0);
      AloneOne(a, state, records, calls, k);
    }
  }

  lemma AloneOne(a: Action, state: string, records: seq<Record>, calls: map<string, Call>, k: nat)
    requires a.signature == "http.get" || a.signature == "http.browse"
    requires k < |records| && Fits([(state, Some(a))], records[k], calls, 0)
    ensures ToldApart(Lab([(state, Some(a))], records, calls), k)
  {
    hide ConnOf, CandidatesOf, CandidateOf, Told, Uris, Acts, OneConnection, AppsWith;
    var entries := [(state, Some(a))];
    var w, found, r := Lab(entries, records, calls), [CandidateOf(entries, state, a)], records[k];
    OneCandidate(state, a, records, calls);
    FitsIsRun(entries, records, calls, r, 0);
    FitsConn(entries, records, calls, r, 0, k + 1);
    EndpointsOf(entries, state, a);
    AloneMine(entries, records, calls, r);
    AloneTold(found, ConnOf(w, r, k + 1).five, Uris(AppsWith(w, r, k + 1)));
    assert ToldAs(w, k, 0, 0, 0, 0);
  }

  lemma AloneMine(entries: OrderedMap<string, Option<Action>>, records: seq<Record>, calls: map<string, Call>, r: Record)
    requires Fits(entries, r, calls, 0) && Acts(Lab(entries, records, calls), r, 0, 0, 0)
    ensures Mine(Lab(entries, records, calls), r, 0, 0, 0) == CandidateOf(entries, entries[0].0, entries[0].1.value)
  {
  }

  lemma AloneTold(found: seq<Candidate>, five: Five, uris: set<string>)
    requires |found| == 1 && Reaches(found[0], five)
    ensures Told(found, 0, five, uris)
  {
  }

  // ----- source ports come round

  /** ``n`` requests in one instant. */
  function Burst(n: nat): World {
    Lab(ALONE, BurstRecords(n), BurstCalls(n))
  }

  function Numeral(k: nat): string {
    "ws/work#" + Decimal(k + 1)
  }

  function BurstRecords(n: nat): (r: seq<Record>)
    ensures |r| == n && forall k :: 0 <= k < n ==> r[k] == At("get", Numeral(k), 10.0)
  {
    seq(n, k requires 0 <= k < n => At("get", Numeral(k), 10.0))
  }

  function BurstCalls(n: nat): (r: map<string, Call>)
    ensures forall k :: 0 <= k < n ==> Numeral(k) in r && r[Numeral(k)] == GetCall()
  {
    if n == 0 then map[] else BurstCalls(n - 1)[Numeral(n - 1) := GetCall()]
  }

  lemma BurstFits(n: nat, k: nat)
    requires k < n
    ensures Fits(ALONE, BurstRecords(n)[k], BurstCalls(n), 0)
  {
    hide Numeral;
    assert BurstRecords(n)[k] == At("get", Numeral(k), 10.0);
  }

  /** The 16385th of as many requests in one instant has the five-tuple of the first: it is taken for a copy, and its record lost. */
  lemma BurstLosesOne(n: nat)
    requires n > 16384
    ensures var w := Burst(n);
            && Simulated(w) && AllTold(w) && Copied(w, 16384) && !NoCopies(w) && !Recovered(w, WS, "work")
            && |KeptHits(w, n, WS, "work")| < |RecordHits(w, n, WS, "work")| == n
  {
    hide Simulated, AllTold, RecordHits, KeptHits, Copied, NoneFolded, HitOrder;
    BurstIsRun(n);
    BurstWraps(n);
    assert OfBehaviour(Burst(n).records[16384], WS, "work");
    KeptExactly(Burst(n), n, WS, "work");
    BurstHits(n, n);
  }

  lemma BurstIsRun(n: nat)
    ensures Simulated(Burst(n)) && AllTold(Burst(n))
  {
    hide Simulated, AllTold, Fits, BurstCalls;
    var records := BurstRecords(n);
    forall k | 0 <= k < n
      ensures Fits(ALONE, records[k], BurstCalls(n), 0) && FitsSome(ALONE, records[k], BurstCalls(n))
    {
      BurstFits(n, k);
    }
    LabIsSimulated(ALONE, records, BurstCalls(n));
    AloneIsTold(GET, "get", records, BurstCalls(n));
  }

  lemma BurstWraps(n: nat)
    requires n > 16384
    ensures Copied(Burst(n), 16384)
  {
    hide ConnOf, Fits;
    var w, records := Burst(n), BurstRecords(n);
    BurstFits(n, 0);
    BurstFits(n, 16384);
    FitsConn(ALONE, records, BurstCalls(n), records[0], 0, 1);
    FitsConn(ALONE, records, BurstCalls(n), records[16384], 0, 16385);
    assert Copy(ConnOf(w, records[0], 1)) == Copy(ConnOf(w, records[16384], 16385));
  }

  lemma {:induction false} BurstHits(n: nat, k: nat)
    requires k <= n
    ensures |RecordHits(Burst(n), k, WS, "work")| == k
  {
    hide IsMany;
    if k > 0 {
      BurstHits(n, k - 1);
    }
  }

  // ----- two invocations at one instant

  const FETCH_NEW := Action("http.get", "srv", Some(Literal("/new")), None)
  const FETCH_ALL := Action("http.get", "srv", Some(Literal("/all")), None)

  const FETCHES := [("new", Some(FETCH_NEW)), ("all", Some(FETCH_ALL))]

  const FETCH_RECORDS := [At("new", "ws/work#1", 10.0), At("all", "ws/work#2", 10.0)]

  const FETCH_CALLS := map["ws/work#1" := Call("http.get", Some("/new"), None, NoPorts, [SRV]),
                           "ws/work#2" := Call("http.get", Some("/all"), None, NoPorts, [SRV])]

  const FETCH_RUN := Lab(FETCHES, FETCH_RECORDS, FETCH_CALLS)

  lemma FetchConn(k: nat)
    requires k < 2
    ensures OneConnection(FETCH_RUN, FETCH_RECORDS[k]) && Acts(FETCH_RUN, FETCH_RECORDS[k], 0, 0, k)
    ensures ConnOf(FETCH_RUN, FETCH_RECORDS[k], k + 1).five == Five(WS_AT, 49152 + k + 1, SRV_AT, 80, "tcp")
    ensures Uris(AppsWith(FETCH_RUN, FETCH_RECORDS[k], k + 1)) == {if k == 0 then "/new" else "/all"}
  {
    hide ConnOf, Uris, Acts, Fits, AppsWith;
    FetchFits(k);
    FitsIsRun(FETCHES, FETCH_RECORDS, FETCH_CALLS, FETCH_RECORDS[k], k);
    FitsConn(FETCHES, FETCH_RECORDS, FETCH_CALLS, FETCH_RECORDS[k], k, k + 1);
    UrisOfOne(FETCH_RUN, FETCH_RECORDS[k], k + 1);
  }

  lemma FetchFits(k: nat)
    requires k < 2
    ensures Fits(FETCHES, FETCH_RECORDS[k], FETCH_CALLS, k)
  {
  }

  lemma FetchMine(k: nat)
    requires k < 2 && Acts(FETCH_RUN, FETCH_RECORDS[k], 0, 0, k)
    ensures Mine(FETCH_RUN, FETCH_RECORDS[k], 0, 0, k) ==
      if k == 0 then CandidateOf(FETCHES, "new", FETCH_NEW) else CandidateOf(FETCHES, "all", FETCH_ALL)
  {
  }

  lemma FetchesTold()
    ensures AllTold(FETCH_RUN)
  {
    hide ToldApart;
    FetchTold(0);
    FetchTold(1);
  }

  lemma FetchTold(k: nat)
    requires k < 2
    ensures ToldApart(FETCH_RUN, k)
  {
    hide ConnOf, CandidatesOf, CandidateOf, Told, Uris, Acts, OneConnection, AppsWith;
    var w, found := FETCH_RUN, [CandidateOf(FETCHES, "new", FETCH_NEW), CandidateOf(FETCHES, "all", FETCH_ALL)];
    TwoCandidates("new", FETCH_NEW, "all", FETCH_ALL, FETCH_RECORDS, FETCH_CALLS);
    EndpointsOf(FETCHES, "new", FETCH_NEW);
    EndpointsOf(FETCHES, "all", FETCH_ALL);
    FetchConn(k);
    FetchMine(k);
    PathTells(found, ConnOf(w, FETCH_RECORDS[k], k + 1).five, k);
    assert ToldAs(w, k, 0, 0, k, k);
  }

  lemma PathTells(found: seq<Candidate>, five: Five, k: nat)
    requires |found| == 2 && k < 2 && Reaches(found[0], five) && Reaches(found[1], five)
    requires found[0].paths == Some({"/new"}) && found[1].paths == Some({"/all"})
    ensures Told(found, k, five, {if k == 0 then "/new" else "/all"})
  {
    assert "/new"[1] == 'n' && "/all"[1] == 'a';
    assert "/new" in {"/new"} * {"/new"} && "/all" in {"/all"} * {"/all"};
  }

  /** Two invocations at one instant are told apart and kept, but come in the order of their states' names. */
  lemma OneInstantIsReordered()
    ensures Simulated(FETCH_RUN) && AllTold(FETCH_RUN) && NoCopies(FETCH_RUN) && !Recovered(FETCH_RUN, WS, "work")
    ensures Marks(RecordHits(FETCH_RUN, 2, WS, "work")) == [(10.0, "new"), (10.0, "all")]
    ensures Fold(Sorting.Sort(HitOrder, KeptHits(FETCH_RUN, 2, WS, "work"))) == [(10.0, "all"), (10.0, "new")]
  {
    hide ConnOf, Simulated, AllTold, Copied, RecordHits, KeptHits, HitOrder, NoneFolded, Fold, Sorting.Sort;
    var w := FETCH_RUN;
    FetchesSimulated();
    FetchesTold();
    FewAreNoCopies(w);
    FetchHits();
    KeptExactly(w, 2, WS, "work");
    var a, b := Hit(10.0, "new", false), Hit(10.0, "all", false);
    AllBeforeNew();
    assert KeptHits(w, 2, WS, "work") == [a, b];
    SwapTwo(a, b);
    assert !HitOrder([a, b][0], [a, b][1]);
  }

  lemma FetchesSimulated()
    ensures Simulated(FETCH_RUN)
  {
    hide Fits;
    FetchFits(0);
    FetchFits(1);
    assert FitsSome(FETCHES, FETCH_RECORDS[0], FETCH_CALLS) && FitsSome(FETCHES, FETCH_RECORDS[1], FETCH_CALLS);
    LabIsSimulated(FETCHES, FETCH_RECORDS, FETCH_CALLS);
  }

  lemma AllBeforeNew()
    ensures !HitOrder(Hit(10.0, "new", false), Hit(10.0, "all", false))
  {
    assert Before("all", "new") && !Before("new", "all");
  }

  lemma FewAreNoCopies(w: World)
    requires |w.records| <= 16384
    ensures NoCopies(w)
  {
    hide ConnOf, Copy;
    forall k, j | 0 <= j < k < |w.records|
      ensures Copy(ConnOf(w, w.records[j], j + 1)) != Copy(ConnOf(w, w.records[k], k + 1))
    {
      CopyIsWrapped(w, j, k);
      assert 0 < k - j < 16384;
    }
  }

  lemma FetchHits()
    ensures RecordHits(FETCH_RUN, 2, WS, "work") == [Hit(10.0, "new", false), Hit(10.0, "all", false)]
  {
    var w := FETCH_RUN;
    assert RecordHits(w, 0, WS, "work") == [];
    assert RecordHits(w, 1, WS, "work") == [] + [Hit(10.0, "new", false)];
    assert RecordHits(w, 2, WS, "work") == [Hit(10.0, "new", false)] + [Hit(10.0, "all", false)];
  }

  lemma SwapTwo(a: Hit, b: Hit)
    requires !HitOrder(a, b) && !a.many && !b.many
    ensures Fold(Sorting.Sort(HitOrder, [a, b])) == [(b.start, b.state), (a.start, a.state)]
  {
    assert [a, b][1..] == [b] && [b][1..] == [] && [b, a][..1] == [b] && [b][..0] == [];
    assert Sorting.Sort(HitOrder, []) == [];
    assert Sorting.Sort(HitOrder, [b]) == [b] + [];
    assert Sorting.Insert(HitOrder, a, []) == [a] + [];
    assert Sorting.Insert(HitOrder, a, [b]) == [b] + [a];
    assert Fold([b]) == [] + [(b.start, b.state)];
    assert Fold([b, a]) == [(b.start, b.state)] + [(a.start, a.state)];
  }

  // ----- pages browsed within a second

  const BROWSE := Action("http.browse", "srv", None, Some(Literal("/")))

  const BROWSES := [("browse", Some(BROWSE))]

  const BROWSE_RECORDS := [At("browse", "ws/work#1", 10.0), At("browse", "ws/work#2", 10.5)]

  const BROWSE_CALL := Call("http.browse", None, Some("/"), NoPorts, [SRV])

  const BROWSE_CALLS := map["ws/work#1" := BROWSE_CALL, "ws/work#2" := BROWSE_CALL]

  const BROWSE_RUN := Lab(BROWSES, BROWSE_RECORDS, BROWSE_CALLS)

  /** Two invocations of one many-connection action within a second are folded into one. */
  lemma BrowsesAreFolded()
    ensures Simulated(BROWSE_RUN) && Later(BROWSE_RUN) && AllTold(BROWSE_RUN) && NoCopies(BROWSE_RUN)
    ensures !Recovered(BROWSE_RUN, WS, "work")
  {
    hide ConnOf, Simulated, AllTold, Copied;
    var w := BROWSE_RUN;
    assert Fits(BROWSES, BROWSE_RECORDS[0], BROWSE_CALLS, 0) && Fits(BROWSES, BROWSE_RECORDS[1], BROWSE_CALLS, 0);
    LabIsSimulated(BROWSES, BROWSE_RECORDS, BROWSE_CALLS);
    AloneIsTold(BROWSE, "browse", BROWSE_RECORDS, BROWSE_CALLS);
    FewAreNoCopies(w);
    BrowseHits();
    assert Folds(RecordHits(w, 2, WS, "work"), 1);
  }

  lemma BrowseHits()
    ensures RecordHits(BROWSE_RUN, 2, WS, "work") == [Hit(10.0, "browse", true), Hit(10.5, "browse", true)]
  {
    var w := BROWSE_RUN;
    assert RecordHits(w, 0, WS, "work") == [];
    assert RecordHits(w, 1, WS, "work") == [] + [Hit(10.0, "browse", true)];
    assert RecordHits(w, 2, WS, "work") == [Hit(10.0, "browse", true)] + [Hit(10.5, "browse", true)];
  }
}
