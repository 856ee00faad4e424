/** The address plan: gateways first, then pins, then every other member the next free address. */
module Addressing {
  import opened Wrappers
  import opened Ir
  import Groups

  datatype Problem =
    | DefinedTwice(index: nat)
    | NotAPrefix(index: nat)
    | NoRoomForHosts(segment: string)
    | PinUnknown(key: string)
    | PinMalformed(key: string)
    | PinNowhere(key: string)
    | PinNotAHost(key: string)
    | PinTaken(key: string)
    | Full(segment: string)

  type Held = map<string, OrderedMap<string, Address>>

  // ----- one prefix

  predicate Covers(n: Network, a: Address) {
    n.base <= a < n.base + n.size
  }

  /** Neither the network nor the broadcast address. */
  predicate IsHost(n: Network, a: Address) {
    n.base < a < n.base + n.size - 1
  }

  /** Fewer than four addresses leave no host beside the gateway. */
  predicate Roomy(n: Network) {
    n.size >= 4
  }

  function Gateway(n: Network): Address {
    n.base + 1
  }

  /** How many addresses of ``lo..hi`` are not in ``taken``. */
  function Free(lo: Address, hi: Address, taken: set<Address>): nat
    decreases hi - lo
  {
    if lo >= hi then 0 else (if lo in taken then 0 else 1) + Free(lo + 1, hi, taken)
  }

  lemma {:induction false} FreeIsComplement(lo: Address, hi: Address, taken: set<Address>)
    requires lo <= hi && forall a :: a in taken ==> lo <= a < hi
    ensures Free(lo, hi, taken) == hi - lo - |taken|
    decreases hi - lo
  {
    if lo == hi {
      assert taken == {};
    } else {
      var rest := taken - {lo};
      FreeIsComplement(lo + 1, hi, rest);
      FreeIgnores(lo + 1, hi, taken, lo);
      if lo in taken {
        assert taken == rest + {lo};
      } else {
        assert taken == rest;
      }
    }
  }

  lemma {:induction false} FreeIgnores(lo: Address, hi: Address, taken: set<Address>, a: Address)
    requires a < lo
    ensures Free(lo, hi, taken) == Free(lo, hi, taken - {a})
    decreases hi - lo
  {
    if lo < hi {
      FreeIgnores(lo + 1, hi, taken, a);
    }
  }

  lemma {:induction false} FreeSplit(lo: Address, mid: Address, hi: Address, taken: set<Address>)
    requires lo <= mid <= hi
    ensures Free(lo, hi, taken) == Free(lo, mid, taken) + Free(mid, hi, taken)
    decreases mid - lo
  {
    if lo < mid {
      FreeSplit(lo + 1, mid, hi, taken);
    }
  }

  // ----- who is on which segment

  /** The attachments of the last group with this path, as the source's dict keeps them. */
  function AttachmentsOf(groups: seq<Group>, path: string): OrderedMap<string, seq<string>> {
    if groups == [] then []
    else if groups[|groups| - 1].path == path then groups[|groups| - 1].attachments
    else AttachmentsOf(groups[..|groups| - 1], path)
  }

  predicate Joins(s: Scenario, i: Groups.Instance, seg: Segment) {
    seg.plane == Management ||
    match Lookup(AttachmentsOf(s.groups, i.group), i.kind)
    case None => false
    case Some(nets) => seg.name in nets
  }

  function Joining(s: Scenario, instances: seq<Groups.Instance>, seg: Segment): (r: seq<string>) {
    if instances == [] then []
    else (if Joins(s, instances[0], seg) then [instances[0].id] else []) + Joining(s, instances[1..], seg)
  }

  /** A segment's members, in instance order. */
  function Members(s: Scenario, seg: Segment): seq<string> {
    Joining(s, Groups.InstanceIds(s), seg)
  }

  lemma {:induction false} JoiningMember(s: Scenario, instances: seq<Groups.Instance>, seg: Segment, id: string)
    ensures id in Joining(s, instances, seg) <==>
      exists k :: 0 <= k < |instances| && instances[k].id == id && Joins(s, instances[k], seg)
  {
    if instances != [] {
      JoiningMember(s, instances[1..], seg, id);
      if k :| 0 <= k < |instances[1..]| && instances[1..][k].id == id && Joins(s, instances[1..][k], seg) {
        assert instances[k + 1].id == id && Joins(s, instances[k + 1], seg);
      }
      if k :| 0 <= k < |instances| && instances[k].id == id && Joins(s, instances[k], seg) {
        if k > 0 {
          assert instances[1..][k - 1].id == id && Joins(s, instances[1..][k - 1], seg);
        }
      }
    }
  }

  lemma {:induction false} JoiningDistinct(s: Scenario, instances: seq<Groups.Instance>, seg: Segment)
    requires forall i, j :: 0 <= i < j < |instances| ==> instances[i].id != instances[j].id
    ensures Distinct(Joining(s, instances, seg))
  {
    if instances != [] {
      var rest := instances[1..];
      JoiningDistinct(s, rest, seg);
      JoiningMember(s, rest, seg, instances[0].id);
    }
  }

  // ----- stage one: what is defined, and who is on it

  predicate Named(segments: seq<Segment>, name: string) {
    exists k :: 0 <= k < |segments| && segments[k].name == name
  }

  /** The segments whose name no earlier one has, in order. */
  function FirstDefinitions(segments: seq<Segment>): seq<Segment> {
    if segments == [] then []
    else
      var before, last := segments[..|segments| - 1], segments[|segments| - 1];
      if Named(before, last.name) then FirstDefinitions(before) else FirstDefinitions(before) + [last]
  }

  function SurveyProblems(segments: seq<Segment>): seq<Problem> {
    if segments == [] then []
    else
      var before, n := segments[..|segments| - 1], |segments| - 1;
      if Named(before, segments[n].name) then SurveyProblems(before) + [DefinedTwice(n)]
      else if segments[n].cidr == None then SurveyProblems(before) + [NotAPrefix(n)]
      else SurveyProblems(before)
  }

  /** The parsed prefixes by segment name, in order. */
  function Prefixes(defs: seq<Segment>): OrderedMap<string, Network> {
    if defs == [] then []
    else
      var last := defs[|defs| - 1];
      var before := Prefixes(defs[..|defs| - 1]);
      if last.cidr.Some? then before + [(last.name, last.cidr.value)] else before
  }

  function MembersByName(s: Scenario, defs: seq<Segment>): map<string, seq<string>> {
    if defs == [] then map[]
    else
      var last := defs[|defs| - 1];
      MembersByName(s, defs[..|defs| - 1])[last.name := Members(s, last)]
  }

  lemma NamedSnoc(before: seq<Segment>, last: Segment, name: string)
    ensures Named(before + [last], name) <==> Named(before, name) || last.name == name
  {
    var all := before + [last];
    assert all[|before|] == last;
    if k :| 0 <= k < |before| && before[k].name == name {
      assert all[k].name == name;
    }
  }

  lemma {:induction false} MembersByNameKeys(s: Scenario, segments: seq<Segment>, name: string)
    ensures name in MembersByName(s, FirstDefinitions(segments)) <==> Named(segments, name)
  {
    if segments != [] {
      var before, last := segments[..|segments| - 1], segments[|segments| - 1];
      assert segments == before + [last];
      MembersByNameKeys(s, before, name);
      NamedSnoc(before, last, name);
      DefinitionsSnoc(s, before, last);
    }
  }

  lemma DefinitionsSnoc(s: Scenario, before: seq<Segment>, last: Segment)
    ensures FirstDefinitions(before + [last]) ==
      if Named(before, last.name) then FirstDefinitions(before) else FirstDefinitions(before) + [last]
    ensures SurveyProblems(before + [last]) ==
      if Named(before, last.name) then SurveyProblems(before) + [DefinedTwice(|before|)]
      else if last.cidr == None then SurveyProblems(before) + [NotAPrefix(|before|)]
      else SurveyProblems(before)
    ensures MembersByName(s, FirstDefinitions(before) + [last]) == MembersByName(s,
          FirstDefinitions(before))[last.name := Members(s, last)]
    ensures Prefixes(FirstDefinitions(before) + [last]) ==
      if last.cidr.Some? then Prefixes(FirstDefinitions(before)) + [(last.name,
            last.cidr.value)] else Prefixes(FirstDefinitions(before))
  {
    assert (before + [last])[..|before|] == before;
    var defs := FirstDefinitions(before);
    assert (defs + [last])[..|defs|] == defs;
  }

  method Survey(s: Scenario, segments: seq<Segment>)
    returns (members: map<string, seq<string>>, parsed: OrderedMap<string, Network>, problems: seq<Problem>)
    ensures members == MembersByName(s, FirstDefinitions(segments))
    ensures parsed == Prefixes(FirstDefinitions(segments))
    ensures problems == SurveyProblems(segments)
  {
    members, parsed, problems := map[], [], [];
    for n := 0 to |segments|
      invariant members == MembersByName(s, FirstDefinitions(segments[..n]))
      invariant parsed == Prefixes(FirstDefinitions(segments[..n]))
      invariant problems == SurveyProblems(segments[..n])
    {
      var net := segments[n];
      assert segments[..n + 1] == segments[..n] + [net];
      MembersByNameKeys(s, segments[..n], net.name);
      DefinitionsSnoc(s, segments[..n], net);
      if net.name in members {
        problems := problems + [DefinedTwice(n)];
      } else {
        members := members[net.name := Members(s, net)];
        if net.cidr.Some? {
          parsed := parsed + [(net.name, net.cidr.value)];
        } else {
          problems := problems + [NotAPrefix(n)];
        }
      }
    }
    assert segments[..|segments|] == segments;
  }

  // ----- stage two: gateways

  function Usable(parsed: OrderedMap<string, Network>): OrderedMap<string, Network> {
    if parsed == [] then []
    else
      var last := parsed[|parsed| - 1];
      Usable(parsed[..|parsed| - 1]) + if Roomy(last.1) then [last] else []
  }

  function RoomProblems(parsed: OrderedMap<string, Network>): seq<Problem> {
    if parsed == [] then []
    else
      var last := parsed[|parsed| - 1];
      RoomProblems(parsed[..|parsed| - 1]) + if Roomy(last.1) then [] else [NoRoomForHosts(last.0)]
  }

  method Gateways(parsed: OrderedMap<string, Network>)
    returns (gateways: map<string, Address>, usable: OrderedMap<string, Network>, problems: seq<Problem>)
    ensures usable == Usable(parsed) && problems == RoomProblems(parsed)
    ensures forall x :: x in gateways <==> Has(usable, x)
    ensures DistinctKeys(parsed) ==>
      forall k :: 0 <= k < |usable| ==> usable[k].0 in gateways && gateways[usable[k].0] == Gateway(usable[k].1)
  {
    gateways, usable, problems := map[], [], [];
    for n := 0 to |parsed|
      invariant usable == Usable(parsed[..n]) && problems == RoomProblems(parsed[..n])
      invariant forall x :: x in gateways <==> Has(usable, x)
      invariant forall k :: 0 <= k < |usable| ==> usable[k] in parsed[..n]
      invariant DistinctKeys(parsed) ==>
        forall k :: 0 <= k < |usable| ==> usable[k].0 in gateways && gateways[usable[k].0] == Gateway(usable[k].1)
    {
      assert parsed[..n + 1][..n] == parsed[..n];
      var name, network := parsed[n].0, parsed[n].1;
      if !Roomy(network) {
        problems := problems + [NoRoomForHosts(name)];
      } else {
        ghost var was := usable;
        gateways := gateways[name := Gateway(network)];
        usable := usable + [parsed[n]];
        forall x
          ensures x in gateways <==> Has(usable, x)
        {
          HasSnoc(was, parsed[n], x);
        }
      }
    }
    assert parsed[..|parsed|] == parsed;
  }

  lemma HasSnoc<V>(m: OrderedMap<string, V>, e: (string, V), x: string)
    ensures Has(m + [e], x) <==> Has(m, x) || e.0 == x
  {
    if k :| 0 <= k < |m| && m[k].0 == x {
      assert (m + [e])[k].0 == x;
    }
    assert (m + [e])[|m|] == e;
  }

  lemma LookupSnoc<V>(m: OrderedMap<string, V>, e: (string, V), x: string)
    ensures Lookup(m + [e], x) == if Has(m, x) then Lookup(m, x) else if e.0 == x then Some(e.1) else None
  {
    if m == [] {
      assert m + [e] == [e];
    } else {
      assert (m + [e])[1..] == m[1..] + [e];
      LookupSnoc(m[1..], e, x);
      HasTail(m, x);
    }
  }

  // ----- the state the last two stages build

  function On(held: Held, i: string, x: string): Option<Address> {
    if i in held then Lookup(held[i], x) else None
  }

  function Put(held: Held, i: string, x: string, a: Address): Held
    requires i in held
  {
    held[i := held[i] + [(x, a)]]
  }

  lemma PutOn(held: Held, i: string, x: string, a: Address)
    requires i in held && On(held, i, x) == None
    ensures forall j, y :: On(Put(held, i, x, a), j, y) == if j == i && y == x then Some(a) else On(held, j, y)
  {
    forall j, y
      ensures On(Put(held, i, x, a), j, y) == if j == i && y == x then Some(a) else On(held, j, y)
    {
      LookupSnoc(held[i], (x, a), y);
    }
  }

  /** What the segments allow: ``i`` is a member of ``x`` and ``a`` a host address beside the gateway. */
  ghost predicate Legit(usable: OrderedMap<string, Network>, members: map<string, seq<string>>, i: string, x: string, a: Address) {
    && x in members && i in members[x]
    && match Lookup(usable, x)
       case None => false
       case Some(n) => IsHost(n, a) && a != Gateway(n)
  }

  ghost predicate Sound(usable: OrderedMap<string, Network>, members: map<string, seq<string>>, held: Held) {
    && (forall i, x :: On(held, i, x).Some? ==> Legit(usable, members, i, x, On(held, i, x).value))
    && (forall i, j, x :: i != j && On(held, i, x).Some? ==> On(held, i, x) != On(held, j, x))
    && ListedOnce(held)
  }

  /** An instance's dict lists a segment once. */
  ghost predicate ListedOnce(held: Held) {
    forall i :: i in held ==> DistinctKeys(held[i])
  }

  lemma PutSound(usable: OrderedMap<string, Network>, members: map<string, seq<string>>, held: Held, i: string, x: string,
                 a: Address)
    requires Sound(usable, members, held) && i in held && On(held, i, x) == None
    requires Legit(usable, members, i, x, a)
    requires forall j :: On(held, j, x) != Some(a)
    ensures Sound(usable, members, Put(held, i, x, a))
  {
    PutOn(held, i, x, a);
  }

  ghost function Holders(held: Held, x: string): set<string> {
    set i | i in held && On(held, i, x).Some?
  }

  /** The taken addresses of ``x`` are the gateway and what its members hold. */
  ghost predicate TakenOn(n: Network, held: Held, x: string, taken: set<Address>) {
    && (forall a :: a in taken <==> a == Gateway(n) || exists i :: On(held, i, x) == Some(a))
    && |taken| == 1 + |Holders(held, x)|
  }

  lemma PutTaken(n: Network, held: Held, x: string, taken: set<Address>, i: string, a: Address)
    requires TakenOn(n, held, x, taken) && i in held && On(held, i, x) == None && a !in taken
    ensures TakenOn(n, Put(held, i, x, a), x, taken + {a})
  {
    PutOn(held, i, x, a);
    assert Holders(Put(held, i, x, a), x) == Holders(held, x) + {i};
    var after := Put(held, i, x, a);
    assert On(after, i, x) == Some(a);
    forall b
      ensures b in taken + {a} <==> b == Gateway(n) || exists j :: On(after, j, x) == Some(b)
    {
      if j :| On(held, j, x) == Some(b) {
        assert On(after, j, x) == Some(b);
      }
    }
  }

  lemma PutElsewhere(n: Network, held: Held, x: string, taken: set<Address>, i: string, y: string, a: Address)
    requires TakenOn(n, held, x, taken) && i in held && On(held, i, y) == None && x != y
    ensures TakenOn(n, Put(held, i, y, a), x, taken)
  {
    PutOn(held, i, y, a);
    var after := Put(held, i, y, a);
    assert Holders(after, x) == Holders(held, x);
    forall b
      ensures (exists j :: On(after, j, x) == Some(b)) <==> exists j :: On(held, j, x) == Some(b)
    {
      if j :| On(held, j, x) == Some(b) {
        assert On(after, j, x) == Some(b);
      }
    }
  }

  // ----- stage three: pins

  /** The first usable segment the instance is on whose prefix covers the address. */
  function Home(usable: OrderedMap<string, Network>, members: map<string, seq<string>>, key: string,
        a: Address): (h: Option<(string, Network)>)
    ensures h.Some? ==> h.value in usable && h.value.0 in members && key in members[h.value.0] && Covers(h.value.1, a)
    ensures h.None? ==> forall e :: e in usable && e.0 in members && key in members[e.0] ==> !Covers(e.1, a)
  {
    if usable == [] then None
    else if usable[0].0 in members && key in members[usable[0].0] && Covers(usable[0].1, a) then Some(usable[0])
    else
      var h := Home(usable[1..], members, key, a);
      assert forall e :: e in usable <==> e == usable[0] || e in usable[1..];
      h
  }

  predicate AboutPin(p: Problem, key: string) {
    match p
    case PinUnknown(k) => k == key
    case PinMalformed(k) => k == key
    case PinNowhere(k) => k == key
    case PinNotAHost(k) => k == key
    case PinTaken(k) => k == key
    case _ => false
  }

  ghost predicate Reported(problems: seq<Problem>, key: string) {
    exists p :: p in problems && AboutPin(p, key)
  }

  /** What a pin asks for that no plan could give, whatever else is pinned. */
  function Hopeless(usable: OrderedMap<string, Network>, members: map<string, seq<string>>, ids: set<string>, key: string,
                    text: Option<Address>): Option<Problem>
  {
    if key !in ids then Some(PinUnknown(key))
    else if text.None? then Some(PinMalformed(key))
    else
      match Home(usable, members, key, text.value)
      case None => Some(PinNowhere(key))
      case Some(h) => if IsHost(h.1, text.value) then None else Some(PinNotAHost(key))
  }

  /** The instance sits at the pinned address on its home segment. */
  ghost predicate Honoured(usable: OrderedMap<string, Network>, members: map<string, seq<string>>, held: Held, key: string,
                           text: Option<Address>)
  {
    && Hopeless(usable, members, held.Keys, key, text) == None
    && On(held, key, Home(usable, members, key, text.value).value.0) == text
  }

  /** Honoured or reported, never both; a pin reported as taken asks for an address someone else has. */
  ghost predicate Settled(usable: OrderedMap<string, Network>, members: map<string, seq<string>>, held: Held,
                          problems: seq<Problem>, key: string, text: Option<Address>)
  {
    var hopeless := Hopeless(usable, members, held.Keys, key, text);
    && (Honoured(usable, members, held, key, text) <==> !Reported(problems, key))
    && (hopeless.Some? ==> hopeless.value in problems)
    && (hopeless.None? && Reported(problems, key) ==>
          PinTaken(key) in problems && Occupied(usable, members, held, key, text.value))
  }

  /** On its home segment the address is the gateway's or another instance's. */
  ghost predicate Occupied(usable: OrderedMap<string, Network>, members: map<string, seq<string>>, held: Held, key: string, a: Address)
    requires Home(usable, members, key, a).Some?
  {
    var h := Home(usable, members, key, a).value;
    a == Gateway(h.1) || exists j :: j != key && On(held, j, h.0) == Some(a)
  }

  ghost predicate AllTaken(usable: OrderedMap<string, Network>, held: Held, taken: map<string, set<Address>>) {
    && (forall x :: x in taken <==> Has(usable, x))
    && forall e :: e in usable ==> e.0 in taken && TakenOn(e.1, held, e.0, taken[e.0])
  }

  ghost predicate Pinned(usable: OrderedMap<string, Network>, members: map<string, seq<string>>, held: Held,
                         taken: map<string, set<Address>>)
  {
    && DistinctKeys(usable) && Sound(usable, members, held) && AllTaken(usable, held, taken)
  }

  lemma LookupIn<V>(m: OrderedMap<string, V>, e: (string, V))
    requires DistinctKeys(m) && e in m
    ensures Has(m, e.0) && Lookup(m, e.0) == Some(e.1)
  {
    var k :| 0 <= k < |m| && m[k] == e;
    LookupAt(m, k);
  }

  /** Placing an address nobody has keeps the plan sound and the taken sets exact. */
  lemma PlaceKeeps(usable: OrderedMap<string, Network>, members: map<string, seq<string>>, held: Held,
        taken: map<string, set<Address>>,
                   i: string, h: (string, Network), a: Address)
    requires Pinned(usable, members, held, taken)
    requires h in usable && h.0 in members && i in members[h.0] && IsHost(h.1, a)
    requires i in held && On(held, i, h.0) == None && h.0 in taken && a !in taken[h.0]
    ensures Pinned(usable, members, Put(held, i, h.0, a), taken[h.0 := taken[h.0] + {a}])
  {
    LookupIn(usable, h);
    assert TakenOn(h.1, held, h.0, taken[h.0]);
    PutSound(usable, members, held, i, h.0, a);
    forall e | e in usable
      ensures TakenAfter(e, held, i, h.0, a, taken)
    {
      LookupIn(usable, e);
      assert TakenOn(e.1, held, e.0, taken[e.0]);
      TakenAfterPut(e, held, i, h, a, taken);
    }
    AllTakenAfter(usable, held, i, h.0, a, taken);
  }

  ghost predicate TakenAfter(e: (string, Network), held: Held, i: string, x: string, a: Address, taken: map<string, set<Address>>)
    requires i in held && x in taken
  {
    var after := taken[x := taken[x] + {a}];
    e.0 in after && TakenOn(e.1, Put(held, i, x, a), e.0, after[e.0])
  }

  lemma TakenAfterPut(e: (string, Network), held: Held, i: string, h: (string, Network), a: Address, taken: map<string, set<Address>>)
    requires i in held && On(held, i, h.0) == None && h.0 in taken && e.0 in taken && a !in taken[h.0]
    requires TakenOn(e.1, held, e.0, taken[e.0]) && TakenOn(h.1, held, h.0, taken[h.0])
    ensures TakenAfter(e, held, i, h.0, a, taken)
  {
    if e.0 == h.0 {
      PutTaken(e.1, held, h.0, taken[h.0], i, a);
    } else {
      PutElsewhere(e.1, held, e.0, taken[e.0], i, h.0, a);
    }
  }

  lemma AllTakenAfter(usable: OrderedMap<string, Network>, held: Held, i: string, x: string, a: Address,
        taken: map<string, set<Address>>)
    requires i in held && x in taken && forall y :: y in taken <==> Has(usable, y)
    requires forall e :: e in usable ==> TakenAfter(e, held, i, x, a, taken)
    ensures AllTaken(usable, Put(held, i, x, a), taken[x := taken[x] + {a}])
  {
  }

  /** A pin settled earlier stays settled when another key's pin is placed or reported. */
  lemma SettledStays(usable: OrderedMap<string, Network>, members: map<string, seq<string>>, held: Held, problems: seq<Problem>,
                     key: string, text: Option<Address>, held': Held, problems': seq<Problem>)
    requires Settled(usable, members, held, problems, key, text)
    requires held'.Keys == held.Keys
    requires forall x :: On(held', key, x) == On(held, key, x)
    requires forall j, x :: On(held, j, x).Some? ==> On(held', j, x) == On(held, j, x)
    requires forall p :: p in problems ==> p in problems'
    requires forall p :: p in problems' && AboutPin(p, key) ==> p in problems
    ensures Settled(usable, members, held', problems', key, text)
  {
    assert Reported(problems', key) <==> Reported(problems, key);
    assert Honoured(usable, members, held', key, text) <==> Honoured(usable, members, held, key, text);
    if Hopeless(usable, members, held.Keys, key, text).None? && Reported(problems, key) {
      var h := Home(usable, members, key, text.value).value;
      if j :| j != key && On(held, j, h.0) == text {
        assert On(held', j, h.0) == text;
      }
    }
  }

  method PlacePin(usable: OrderedMap<string, Network>, members: map<string, seq<string>>, held0: Held,
        taken0: map<string, set<Address>>,
                  problems0: seq<Problem>, key: string, text: Option<Address>)
    returns (held: Held, taken: map<string, set<Address>>, problems: seq<Problem>)
    requires Pinned(usable, members, held0, taken0)
    requires forall x :: On(held0, key, x) == None
    requires !Reported(problems0, key)
    ensures Pinned(usable, members, held, taken) && held.Keys == held0.Keys
    ensures Settled(usable, members, held, problems, key, text)
    ensures PinStep(held0, held, problems0, problems, key)
  {
    held, taken, problems := held0, taken0, problems0;
    if key !in held {
      problems := problems + [PinUnknown(key)];
    } else if text.None? {
      problems := problems + [PinMalformed(key)];
    } else {
      var address := text.value;
      var home := Home(usable, members, key, address);
      if home.None? {
        problems := problems + [PinNowhere(key)];
      } else if !IsHost(home.value.1, address) {
        problems := problems + [PinNotAHost(key)];
      } else {
        var h := home.value;
        LookupIn(usable, h);
        assert TakenOn(h.1, held, h.0, taken[h.0]);
        if address in taken[h.0] {
          problems := problems + [PinTaken(key)];
          assert Occupied(usable, members, held, key, address);
        } else {
          PlaceKeeps(usable, members, held, taken, key, h, address);
          PutOn(held, key, h.0, address);
          held := Put(held, key, h.0, address);
          taken := taken[h.0 := taken[h.0] + {address}];
        }
      }
    }
    assert problems != problems0 ==> AboutPin(problems[|problems0|], key);
  }

  function GatewaysTaken(usable: OrderedMap<string, Network>): map<string, set<Address>> {
    if usable == [] then map[]
    else GatewaysTaken(usable[..|usable| - 1])[usable[|usable| - 1].0 := {Gateway(usable[|usable| - 1].1)}]
  }

  lemma {:induction false} GatewaysTakenAt(usable: OrderedMap<string, Network>, x: string)
    requires DistinctKeys(usable)
    ensures x in GatewaysTaken(usable) <==> Has(usable, x)
    ensures forall e :: e in usable && e.0 == x ==> GatewaysTaken(usable)[x] == {Gateway(e.1)}
  {
    if usable != [] {
      var before, last := usable[..|usable| - 1], usable[|usable| - 1];
      GatewaysTakenAt(before, x);
      assert usable == before + [last];
      HasSnoc(before, last, x);
      forall e | e in usable && e.0 == x
        ensures GatewaysTaken(usable)[x] == {Gateway(e.1)}
      {
        LookupIn(usable, e);
        if e.0 == last.0 {
          LookupIn(usable, last);
        } else {
          assert e in before;
        }
      }
    }
  }

  lemma NobodyPlaced(usable: OrderedMap<string, Network>, members: map<string, seq<string>>, held: Held)
    requires DistinctKeys(usable) && forall i :: i in held ==> held[i] == []
    ensures Pinned(usable, members, held, GatewaysTaken(usable))
    ensures forall i, x :: On(held, i, x) == None
  {
    forall x
      ensures x in GatewaysTaken(usable) <==> Has(usable, x)
      ensures Holders(held, x) == {}
    {
      GatewaysTakenAt(usable, x);
    }
    forall e | e in usable
      ensures e.0 in GatewaysTaken(usable) && TakenOn(e.1, held, e.0, GatewaysTaken(usable)[e.0])
    {
      GatewaysTakenAt(usable, e.0);
      LookupIn(usable, e);
    }
  }

  /** After ``k`` pins: each is settled, the others' instances are untouched, and every problem is about one of them. */
  ghost predicate PinsDone(usable: OrderedMap<string, Network>, members: map<string, seq<string>>, held: Held, problems: seq<Problem>,
                           pins: OrderedMap<string, Option<Address>>, k: nat)
    requires k <= |pins|
  {
    && (forall m :: 0 <= m < k ==> Settled(usable, members, held, problems, pins[m].0, pins[m].1))
    && (forall m, x :: k <= m < |pins| ==> On(held, pins[m].0, x) == None)
    && (forall p :: p in problems ==> exists m :: 0 <= m < k && AboutPin(p, pins[m].0))
  }

  /** How one pin changes the plan: nothing of other keys, at most one problem, about its own key. */
  ghost predicate PinStep(held0: Held, held: Held, problems0: seq<Problem>, problems: seq<Problem>, key: string) {
    && held.Keys == held0.Keys
    && (forall j, x :: j != key ==> On(held, j, x) == On(held0, j, x))
    && (forall x :: On(held0, key, x) == None)
    && (forall p :: p in problems0 ==> p in problems)
    && (forall p :: p in problems ==> p in problems0 || AboutPin(p, key))
  }

  lemma PinsDoneNext(usable: OrderedMap<string, Network>, members: map<string, seq<string>>, held0: Held, held: Held,
                     problems0: seq<Problem>, problems: seq<Problem>, pins: OrderedMap<string, Option<Address>>, k: nat)
    requires DistinctKeys(pins) && k < |pins| && PinsDone(usable, members, held0, problems0, pins, k)
    requires PinStep(held0, held, problems0, problems, pins[k].0)
    requires Settled(usable, members, held, problems, pins[k].0, pins[k].1)
    ensures PinsDone(usable, members, held, problems, pins, k + 1)
  {
    forall m | 0 <= m < k
      ensures Settled(usable, members, held, problems, pins[m].0, pins[m].1)
    {
      assert pins[m].0 != pins[k].0;
      forall p | p in problems && AboutPin(p, pins[m].0)
        ensures p in problems0
      {
        AboutOne(p, pins[m].0, pins[k].0);
      }
      SettledStays(usable, members, held0, problems0, pins[m].0, pins[m].1, held, problems);
    }
    forall p | p in problems
      ensures exists m :: 0 <= m < k + 1 && AboutPin(p, pins[m].0)
    {
      if p in problems0 {
        var m :| 0 <= m < k && AboutPin(p, pins[m].0);
      }
    }
  }

  lemma AboutOne(p: Problem, a: string, b: string)
    ensures AboutPin(p, a) && AboutPin(p, b) ==> a == b
  {
  }

  lemma NotYetReported(problems: seq<Problem>, pins: OrderedMap<string, Option<Address>>, k: nat)
    requires DistinctKeys(pins) && k < |pins|
    requires forall p :: p in problems ==> exists m :: 0 <= m < k && AboutPin(p, pins[m].0)
    ensures !Reported(problems, pins[k].0)
  {
    forall p | p in problems
      ensures !AboutPin(p, pins[k].0)
    {
      var m :| 0 <= m < k && AboutPin(p, pins[m].0);
      AboutOne(p, pins[m].0, pins[k].0);
    }
  }

  method PlacePins(usable: OrderedMap<string, Network>, members: map<string, seq<string>>, ids: set<string>,
                   pins: OrderedMap<string, Option<Address>>)
    returns (held: Held, taken: map<string, set<Address>>, problems: seq<Problem>)
    requires DistinctKeys(usable) && DistinctKeys(pins)
    ensures Pinned(usable, members, held, taken) && held.Keys == ids
    ensures PinsDone(usable, members, held, problems, pins, |pins|)
  {
    held := map i | i in ids :: [];
    taken := GatewaysTaken(usable);
    NobodyPlaced(usable, members, held);
    problems := [];
    for k := 0 to |pins|
      invariant Pinned(usable, members, held, taken) && held.Keys == ids
      invariant PinsDone(usable, members, held, problems, pins, k)
    {
      ghost var held0, problems0 := held, problems;
      NotYetReported(problems, pins, k);
      held, taken, problems := PlacePin(usable, members, held, taken, problems, pins[k].0, pins[k].1);
      PinsDoneNext(usable, members, held0, held, problems0, problems, pins, k);
    }
  }

  // ----- stage four: everyone else, the next free address

  function Waiting(held: Held, ids: seq<string>, x: string): seq<string> {
    if ids == [] then []
    else (if On(held, ids[0], x).None? then [ids[0]] else []) + Waiting(held, ids[1..], x)
  }

  lemma {:induction false} WaitingMember(held: Held, ids: seq<string>, x: string, i: string)
    ensures i in Waiting(held, ids, x) <==> i in ids && On(held, i, x).None?
  {
    if ids != [] {
      WaitingMember(held, ids[1..], x, i);
    }
  }

  lemma {:induction false} WaitingCount(held: Held, ids: seq<string>, x: string)
    requires Distinct(ids)
    ensures Distinct(Waiting(held, ids, x))
    ensures |Waiting(held, ids, x)| == |ids| - |set i | i in ids && On(held, i, x).Some?|
  {
    if ids != [] {
      var rest := ids[1..];
      WaitingCount(held, rest, x);
      WaitingMember(held, rest, x, ids[0]);
      var placed := set i | i in rest && On(held, i, x).Some?;
      var all := set i | i in ids && On(held, i, x).Some?;
      if On(held, ids[0], x).Some? {
        assert all == placed + {ids[0]};
        assert ids[0] !in rest;
      } else {
        assert all == placed;
      }
    }
  }

  /** ``a`` is the free address with exactly ``rank`` free ones below it. */
  ghost predicate NthFree(n: Network, taken: set<Address>, rank: nat, a: Address) {
    IsHost(n, a) && a !in taken && Free(n.base + 1, a, taken) == rank
  }

  /** The first ``k`` of those waiting have the first ``k`` free addresses, in order; nothing else changed. */
  ghost predicate FilledUpTo(n: Network, x: string, taken: set<Address>, waiting: seq<string>, k: nat, held0: Held, held: Held)
    requires k <= |waiting|
  {
    && held.Keys == held0.Keys
    && (forall i, y :: y != x || i !in waiting[..k] ==> On(held, i, y) == On(held0, i, y))
    && (forall m :: 0 <= m < k ==> On(held, waiting[m], x).Some? && NthFree(n, taken, m, On(held, waiting[m], x).value))
  }

  lemma FillOne(usable: OrderedMap<string, Network>, members: map<string, seq<string>>, e: (string, Network), taken: set<Address>,
                waiting: seq<string>, k: nat, held0: Held, held: Held, at: Address)
    requires DistinctKeys(usable) && e in usable && Sound(usable, members, held)
    requires k < |waiting| && FilledUpTo(e.1, e.0, taken, waiting, k, held0, held)
    requires CanWait(members, held0, e.0, waiting)
    requires TakenOn(e.1, held0, e.0, taken)
    requires NthFree(e.1, taken, k, at)
    ensures waiting[k] in held && On(held, waiting[k], e.0) == None
    ensures FilledUpTo(e.1, e.0, taken, waiting, k + 1, held0, Put(held, waiting[k], e.0, at))
    ensures Sound(usable, members, Put(held, waiting[k], e.0, at))
  {
    hide Sound;
    var i := waiting[k];
    assert i in waiting;
    assert i !in waiting[..k];
    assert waiting[..k + 1] == waiting[..k] + [i];
    LookupIn(usable, e);
    assert at != Gateway(e.1);
    forall j
      ensures On(held, j, e.0) != Some(at)
    {
      if j in waiting[..k] {
        var m :| 0 <= m < k && waiting[m] == j;
        assert NthFree(e.1, taken, m, On(held, j, e.0).value);
      } else {
        assert On(held, j, e.0) == On(held0, j, e.0);
      }
    }
    PutSound(usable, members, held, i, e.0, at);
    PutOn(held, i, e.0, at);
  }

  ghost predicate CanWait(members: map<string, seq<string>>, held: Held, x: string, waiting: seq<string>) {
    && Distinct(waiting)
    && forall i :: i in waiting ==> i in held && On(held, i, x).None? && x in members && i in members[x]
  }

  lemma FreeNext(lo: Address, at: Address, taken: set<Address>)
    requires lo <= at
    ensures Free(lo, at + 1, taken) == Free(lo, at, taken) + if at in taken then 0 else 1
  {
    FreeSplit(lo, at, at + 1, taken);
  }

  /** ``next(free, None)``: the least address from ``from`` that is not taken, or the end. */
  method NextFree(n: Network, from: Address, taken: set<Address>, ghost k: nat) returns (at: Address)
    requires n.base + 1 <= from <= n.base + n.size - 1
    requires FreeBelow(n, from, taken, k)
    ensures from <= at <= n.base + n.size - 1 && FreeBelow(n, at, taken, k)
    ensures at < n.base + n.size - 1 ==> NthFree(n, taken, k, at) && FreeBelow(n, at + 1, taken, k + 1)
  {
    at := from;
    while at < n.base + n.size - 1 && at in taken
      invariant from <= at <= n.base + n.size - 1 && FreeBelow(n, at, taken, k)
    {
      FreeNext(n.base + 1, at, taken);
      at := at + 1;
    }
    FreeNext(n.base + 1, at, taken);
  }

  /** One segment: the addresses its waiting members get, and whether it ran out. */
  method FillSegment(usable: OrderedMap<string, Network>, members: map<string, seq<string>>, held0: Held, e: (string, Network),
                     taken: set<Address>)
    returns (held: Held, full: bool)
    requires DistinctKeys(usable) && e in usable && Roomy(e.1) && Sound(usable, members, held0)
    requires e.0 in members && Distinct(members[e.0]) && forall i :: i in members[e.0] ==> i in held0
    requires TakenOn(e.1, held0, e.0, taken)
    ensures Sound(usable, members, held)
    ensures Filled(e.1, e.0, taken, members[e.0], held0, held)
    ensures full <==> |members[e.0]| > e.1.size - 3
  {
    var waiting := Waiting(held0, members[e.0], e.0);
    MembersCanWait(members, held0, e.0);
    var k;
    held, k := FillWaiting(usable, members, held0, e, taken, waiting);
    full := k < |waiting|;
    RoomCount(usable, members, held0, e, taken);
  }

  method FillWaiting(usable: OrderedMap<string, Network>, members: map<string, seq<string>>, held0: Held, e: (string, Network),
                     taken: set<Address>, waiting: seq<string>)
    returns (held: Held, k: nat)
    requires DistinctKeys(usable) && e in usable && Roomy(e.1) && Sound(usable, members, held0)
    requires CanWait(members, held0, e.0, waiting) && TakenOn(e.1, held0, e.0, taken)
    ensures Sound(usable, members, held)
    ensures k == if HostsFree(e.1, taken) < |waiting| then HostsFree(e.1, taken) else |waiting|
    ensures FilledUpTo(e.1, e.0, taken, waiting, k, held0, held)
  {
    hide Sound, CanWait;
    held := held0;
    var at := e.1.base + 1;
    k := 0;
    assert FilledUpTo(e.1, e.0, taken, waiting, k, held0, held) && FreeBelow(e.1, at, taken, k);
    hide TakenOn, FilledUpTo, FreeBelow;
    while k < |waiting|
      invariant k <= |waiting| && e.1.base + 1 <= at <= e.1.base + e.1.size - 1
      invariant Sound(usable, members, held)
      invariant FilledUpTo(e.1, e.0, taken, waiting, k, held0, held)
      invariant FreeBelow(e.1, at, taken, k)
    {
      at := NextFree(e.1, at, taken, k);
      if at == e.1.base + e.1.size - 1 {
        break;
      }
      FillOne(usable, members, e, taken, waiting, k, held0, held, at);
      held := Put(held, waiting[k], e.0, at);
      at := at + 1;
      k := k + 1;
    }
    FreeTotal(e.1, at, taken, k);
  }

  lemma FreeTotal(n: Network, at: Address, taken: set<Address>, k: nat)
    requires n.base + 1 <= at <= n.base + n.size - 1 && FreeBelow(n, at, taken, k)
    ensures k <= HostsFree(n, taken) && (at == n.base + n.size - 1 ==> k == HostsFree(n, taken))
  {
    FreeSplit(n.base + 1, at, n.base + n.size - 1, taken);
  }

  /** Exactly ``k`` host addresses below ``at`` are free. */
  ghost predicate FreeBelow(n: Network, at: Address, taken: set<Address>, k: nat) {
    Free(n.base + 1, at, taken) == k
  }

  /** How many host addresses of a prefix are free. */
  ghost function HostsFree(n: Network, taken: set<Address>): nat {
    Free(n.base + 1, n.base + n.size - 1, taken)
  }

  lemma MembersCanWait(members: map<string, seq<string>>, held: Held, x: string)
    requires x in members && Distinct(members[x]) && forall i :: i in members[x] ==> i in held
    ensures CanWait(members, held, x, Waiting(held, members[x], x))
  {
    WaitingCount(held, members[x], x);
    forall i | i in Waiting(held, members[x], x)
      ensures i in members[x] && On(held, i, x).None?
    {
      WaitingMember(held, members[x], x, i);
    }
  }

  /** Those waiting took the free addresses in order, until one side ran out. */
  ghost predicate Filled(n: Network, x: string, taken: set<Address>, members: seq<string>, held0: Held, held: Held) {
    var waiting := Waiting(held0, members, x);
    FilledUpTo(n, x, taken, waiting, if HostsFree(n, taken) < |waiting| then HostsFree(n, taken) else |waiting|, held0, held)
  }

  lemma TakenAreHosts(usable: OrderedMap<string, Network>, members: map<string, seq<string>>, held: Held, e: (string, Network),
                      taken: set<Address>)
    requires DistinctKeys(usable) && e in usable && Roomy(e.1) && Sound(usable, members, held)
    requires TakenOn(e.1, held, e.0, taken)
    ensures forall a :: a in taken ==> e.1.base + 1 <= a < e.1.base + e.1.size - 1
  {
    hide ListedOnce;
    LookupIn(usable, e);
    forall a | a in taken
      ensures e.1.base + 1 <= a < e.1.base + e.1.size - 1
    {
      if a != Gateway(e.1) {
        var i :| On(held, i, e.0) == Some(a);
        assert Legit(usable, members, i, e.0, a);
      }
    }
  }

  lemma HoldersAreMembers(usable: OrderedMap<string, Network>, members: map<string, seq<string>>, held: Held, x: string)
    requires Sound(usable, members, held) && x in members && forall i :: i in members[x] ==> i in held
    ensures Holders(held, x) == set i | i in members[x] && On(held, i, x).Some?
  {
    hide ListedOnce;
    forall i | i in Holders(held, x)
      ensures i in members[x]
    {
      assert Legit(usable, members, i, x, On(held, i, x).value);
    }
  }

  lemma RoomCount(usable: OrderedMap<string, Network>, members: map<string, seq<string>>, held: Held, e: (string, Network),
                  taken: set<Address>)
    requires DistinctKeys(usable) && e in usable && Roomy(e.1) && Sound(usable, members, held)
    requires e.0 in members && Distinct(members[e.0]) && forall i :: i in members[e.0] ==> i in held
    requires TakenOn(e.1, held, e.0, taken)
    ensures |Waiting(held, members[e.0], e.0)| > HostsFree(e.1, taken) <==> |members[e.0]| > e.1.size - 3
  {
    TakenAreHosts(usable, members, held, e, taken);
    HoldersAreMembers(usable, members, held, e.0);
    hide Sound;
    FreeIsComplement(e.1.base + 1, e.1.base + e.1.size - 1, taken);
    WaitingCount(held, members[e.0], e.0);
  }

  // ----- the whole plan

  ghost predicate Extends(held0: Held, held: Held) {
    && held.Keys == held0.Keys
    && forall i, x :: On(held0, i, x).Some? ==> On(held, i, x) == On(held0, i, x)
  }

  /** Allocation never gives a reported pin the address it asked for. */
  lemma SettledForGood(usable: OrderedMap<string, Network>, members: map<string, seq<string>>, held0: Held, held: Held,
                       problems0: seq<Problem>, problems: seq<Problem>, key: string, text: Option<Address>)
    requires DistinctKeys(usable) && Settled(usable, members, held0, problems0, key, text)
    requires Extends(held0, held) && Sound(usable, members, held)
    requires forall p :: p in problems0 ==> p in problems
    requires forall p :: p in problems && AboutPin(p, key) ==> p in problems0
    ensures Settled(usable, members, held, problems, key, text)
  {
    assert Reported(problems, key) <==> Reported(problems0, key);
    if Hopeless(usable, members, held.Keys, key, text).None? && Reported(problems0, key) {
      var h := Home(usable, members, key, text.value).value;
      LookupIn(usable, h);
      assert On(held, key, h.0).Some? ==> Legit(usable, members, key, h.0, On(held, key, h.0).value);
      if j :| j != key && On(held0, j, h.0) == text {
        assert On(held, j, h.0) == text;
      }
    }
  }

  /** On segment ``x`` the members placed by no pin take the free addresses in member order. */
  ghost predicate InOrder(e: (string, Network), members: map<string, seq<string>>, pinned: Held, held: Held) {
    && e.0 in members
    && exists taken :: TakenOn(e.1, pinned, e.0, taken) && OrderedOn(e, members[e.0], taken, pinned, held)
  }

  ghost predicate OrderedOn(e: (string, Network), members: seq<string>, taken: set<Address>, pinned: Held, held: Held) {
    var waiting := Waiting(pinned, members, e.0);
    forall m :: 0 <= m < |waiting| ==>
      if m < HostsFree(e.1, taken)
      then On(held, waiting[m], e.0).Some? && NthFree(e.1, taken, m, On(held, waiting[m], e.0).value)
      else On(held, waiting[m], e.0).None?
  }

  ghost predicate SameOn(held0: Held, held: Held, x: string) {
    held.Keys == held0.Keys && forall i :: On(held, i, x) == On(held0, i, x)
  }

  lemma TakenOnSame(n: Network, held0: Held, held: Held, x: string, taken: set<Address>)
    requires TakenOn(n, held0, x, taken) && SameOn(held0, held, x)
    ensures TakenOn(n, held, x, taken)
  {
    assert Holders(held, x) == Holders(held0, x);
    forall a
      ensures (exists i :: On(held, i, x) == Some(a)) <==> exists i :: On(held0, i, x) == Some(a)
    {
      if i :| On(held0, i, x) == Some(a) {
        assert On(held, i, x) == Some(a);
      }
    }
  }

  lemma {:induction false} WaitingSame(held0: Held, held: Held, ids: seq<string>, x: string)
    requires SameOn(held0, held, x)
    ensures Waiting(held, ids, x) == Waiting(held0, ids, x)
  {
    if ids != [] {
      WaitingSame(held0, held, ids[1..], x);
    }
  }

  lemma FilledIsOrdered(e: (string, Network), members: map<string, seq<string>>, pinned: Held, before: Held,
        held: Held, taken: set<Address>)
    requires e.0 in members && SameOn(pinned, before, e.0) && TakenOn(e.1, pinned, e.0, taken)
    requires forall i :: i in members[e.0] ==> i in pinned
    requires Distinct(members[e.0]) && Filled(e.1, e.0, taken, members[e.0], before, held)
    ensures InOrder(e, members, pinned, held)
  {
    WaitingSame(pinned, before, members[e.0], e.0);
    MembersCanWait(members, pinned, e.0);
    var waiting := Waiting(pinned, members[e.0], e.0);
    forall m | HostsFree(e.1, taken) <= m < |waiting|
      ensures On(held, waiting[m], e.0).None?
    {
      assert waiting[m] in waiting;
      assert waiting[m] !in waiting[..HostsFree(e.1, taken)];
    }
    assert OrderedOn(e, members[e.0], taken, pinned, held);
  }

  /** What one usable segment looks like in the finished plan. */
  ghost predicate SegmentDone(e: (string, Network), members: map<string, seq<string>>, pinned: Held, held: Held, full: seq<Problem>) {
    && InOrder(e, members, pinned, held)
    && (Full(e.0) in full <==> |members[e.0]| > e.1.size - 3)
  }

  ghost predicate Allocatable(usable: OrderedMap<string, Network>, members: map<string, seq<string>>, ids: set<string>) {
    && DistinctKeys(usable)
    && forall e :: e in usable ==>
         Roomy(e.1) && e.0 in members && Distinct(members[e.0]) && forall i :: i in members[e.0] ==> i in ids
  }

  /** The segments before ``k`` are done, those from ``k`` on are as the pins left them. */
  ghost predicate Allocated(usable: OrderedMap<string, Network>, members: map<string, seq<string>>, pinned: Held, held: Held,
                            full: seq<Problem>, k: nat)
    requires k <= |usable|
  {
    && Sound(usable, members, held) && Extends(pinned, held)
    && (forall j :: 0 <= j < k ==> SegmentDone(usable[j], members, pinned, held, full))
    && (forall j :: k <= j < |usable| ==> SameOn(pinned, held, usable[j].0))
    && (forall p :: p in full ==> p.Full? && exists j :: 0 <= j < k && p.segment == usable[j].0)
  }

  lemma SegmentStaysDone(e: (string, Network), members: map<string, seq<string>>, pinned: Held, held0: Held, held: Held,
                         full0: seq<Problem>, full: seq<Problem>)
    requires SegmentDone(e, members, pinned, held0, full0) && SameOn(held0, held, e.0)
    requires Full(e.0) in full <==> Full(e.0) in full0
    ensures SegmentDone(e, members, pinned, held, full)
  {
    var taken :| TakenOn(e.1, pinned, e.0, taken) && OrderedOn(e, members[e.0], taken, pinned, held0);
    assert OrderedOn(e, members[e.0], taken, pinned, held);
  }

  lemma AllocatedNext(usable: OrderedMap<string, Network>, members: map<string, seq<string>>, pinned: Held, held0: Held, held: Held,
                      full0: seq<Problem>, full: seq<Problem>, k: nat, taken: set<Address>)
    requires k < |usable| && Allocatable(usable, members, pinned.Keys)
    requires Allocated(usable, members, pinned, held0, full0, k)
    requires TakenOn(usable[k].1, pinned, usable[k].0, taken)
    requires Sound(usable, members, held)
    requires Filled(usable[k].1, usable[k].0, taken, members[usable[k].0], held0, held)
    requires full == full0 + if |members[usable[k].0]| > usable[k].1.size - 3 then [Full(usable[k].0)] else []
    ensures Allocated(usable, members, pinned, held, full, k + 1)
  {
    hide Sound;
    var e := usable[k];
    FilledKeeps(e, members, pinned.Keys, held0, held, taken);
    assert Full(e.0) !in full0;
    FilledIsOrdered(e, members, pinned, held0, held, taken);
    forall j | 0 <= j < k
      ensures SegmentDone(usable[j], members, pinned, held, full)
    {
      assert usable[j].0 != e.0;
      SegmentStaysDone(usable[j], members, pinned, held0, held, full0, full);
    }
    forall p | p in full
      ensures p.Full? && exists j :: 0 <= j < k + 1 && p.segment == usable[j].0
    {
      if p in full0 {
        var j :| 0 <= j < k && p.segment == usable[j].0;
      }
    }
  }

  lemma FilledKeeps(e: (string, Network), members: map<string, seq<string>>, ids: set<string>, held0: Held,
        held: Held, taken: set<Address>)
    requires e.0 in members && Distinct(members[e.0]) && held0.Keys == ids && forall i :: i in members[e.0] ==> i in ids
    requires Filled(e.1, e.0, taken, members[e.0], held0, held)
    ensures Extends(held0, held)
    ensures forall x :: x != e.0 ==> SameOn(held0, held, x)
  {
    MembersCanWait(members, held0, e.0);
    var waiting := Waiting(held0, members[e.0], e.0);
    var k := if HostsFree(e.1, taken) < |waiting| then HostsFree(e.1, taken) else |waiting|;
    forall i | On(held0, i, e.0).Some?
      ensures On(held, i, e.0) == On(held0, i, e.0)
    {
      assert i !in waiting;
      assert i !in waiting[..k];
    }
  }

  lemma NothingAllocated(usable: OrderedMap<string, Network>, members: map<string, seq<string>>, pinned: Held,
                         taken: map<string, set<Address>>)
    requires Pinned(usable, members, pinned, taken)
    ensures Allocated(usable, members, pinned, pinned, [], 0)
  {
  }

  /** What the next segment's filling asks for. */
  lemma ReadyToFill(usable: OrderedMap<string, Network>, members: map<string, seq<string>>, pinned: Held,
                    taken: map<string, set<Address>>, held: Held, full: seq<Problem>, k: nat)
    requires k < |usable| && Allocatable(usable, members, pinned.Keys) && Pinned(usable, members, pinned, taken)
    requires Allocated(usable, members, pinned, held, full, k)
    ensures var e := usable[k];
            && DistinctKeys(usable) && Roomy(e.1) && Sound(usable, members, held)
            && e.0 in members && Distinct(members[e.0]) && (forall i :: i in members[e.0] ==> i in held)
            && e.0 in taken && TakenOn(e.1, pinned, e.0, taken[e.0]) && TakenOn(e.1, held, e.0, taken[e.0])
  {
    hide Sound, TakenOn, SegmentDone;
    var e := usable[k];
    assert e in usable;
    TakenOnSame(e.1, pinned, held, e.0, taken[e.0]);
  }

  method Allocate(usable: OrderedMap<string, Network>, members: map<string, seq<string>>, pinned: Held,
        taken: map<string, set<Address>>)
    returns (held: Held, full: seq<Problem>)
    requires Allocatable(usable, members, pinned.Keys) && Pinned(usable, members, pinned, taken)
    ensures Allocated(usable, members, pinned, held, full, |usable|)
  {
    hide Allocated, Allocatable, Pinned, Filled, TakenOn, Sound;
    held, full := pinned, [];
    NothingAllocated(usable, members, pinned, taken);
    for k := 0 to |usable|
      invariant Allocated(usable, members, pinned, held, full, k)
    {
      var e := usable[k];
      ghost var held0, full0 := held, full;
      ReadyToFill(usable, members, pinned, taken, held, full, k);
      var out: bool;
      held, out := FillSegment(usable, members, held, e, taken[e.0]);
      if out {
        full := full + [Full(e.0)];
      }
      AllocatedNext(usable, members, pinned, held0, held, full0, full, k, taken[e.0]);
    }
  }

  function UsableSegments(t: Topology): OrderedMap<string, Network> {
    Usable(Prefixes(FirstDefinitions(t.segments)))
  }

  function MemberLists(s: Scenario, t: Topology): map<string, seq<string>> {
    MembersByName(s, FirstDefinitions(t.segments))
  }

  ghost function Ids(s: Scenario): set<string> {
    set i | i in Groups.InstanceIds(s) :: i.id
  }

  // What the survey gives the later stages.

  lemma {:induction false} DefinitionsDistinct(segments: seq<Segment>)
    ensures forall d :: d in FirstDefinitions(segments) ==> Named(segments, d.name)
    ensures forall i, j :: 0 <= i < j < |FirstDefinitions(segments)| ==>
      FirstDefinitions(segments)[i].name != FirstDefinitions(segments)[j].name
  {
    if segments != [] {
      var before, last := segments[..|segments| - 1], segments[|segments| - 1];
      DefinitionsDistinct(before);
      assert segments == before + [last];
      forall d | d in FirstDefinitions(segments)
        ensures Named(segments, d.name)
      {
        NamedSnoc(before, last, d.name);
      }
      forall i, j | 0 <= i < j < |FirstDefinitions(segments)|
        ensures FirstDefinitions(segments)[i].name != FirstDefinitions(segments)[j].name
      {
        if j == |FirstDefinitions(before)| {
          assert FirstDefinitions(before)[i] in FirstDefinitions(before);
        }
      }
    }
  }

  lemma {:induction false} PrefixesFrom(defs: seq<Segment>)
    requires forall i, j :: 0 <= i < j < |defs| ==> defs[i].name != defs[j].name
    ensures DistinctKeys(Prefixes(defs))
    ensures forall e :: e in Prefixes(defs) ==> exists k :: 0 <= k < |defs| && defs[k].name == e.0 && defs[k].cidr == Some(e.1)
  {
    if defs != [] {
      var before := defs[..|defs| - 1];
      PrefixesFrom(before);
      forall e | e in Prefixes(before)
        ensures exists k :: 0 <= k < |defs| - 1 && defs[k].name == e.0 && defs[k].cidr == Some(e.1)
      {
        var k :| 0 <= k < |before| && before[k].name == e.0 && before[k].cidr == Some(e.1);
        assert defs[k].name == e.0;
      }
    }
  }

  lemma {:induction false} UsableFrom(parsed: OrderedMap<string, Network>)
    requires DistinctKeys(parsed)
    ensures DistinctKeys(Usable(parsed))
    ensures forall e :: e in Usable(parsed) <==> e in parsed && Roomy(e.1)
  {
    if parsed != [] {
      var before, last := parsed[..|parsed| - 1], parsed[|parsed| - 1];
      UsableFrom(before);
      assert parsed == before + [last];
    }
  }

  lemma {:induction false} MembersOf(s: Scenario, defs: seq<Segment>, k: nat)
    requires k < |defs| && forall i, j :: 0 <= i < j < |defs| ==> defs[i].name != defs[j].name
    ensures defs[k].name in MembersByName(s, defs) && MembersByName(s, defs)[defs[k].name] == Members(s, defs[k])
  {
    if k < |defs| - 1 {
      MembersOf(s, defs[..|defs| - 1], k);
    }
  }

  lemma Usables(s: Scenario, t: Topology)
    requires Groups.DistinctIds(s)
    ensures DistinctKeys(Prefixes(FirstDefinitions(t.segments)))
    ensures Allocatable(UsableSegments(t), MemberLists(s, t), Ids(s))
  {
    var defs := FirstDefinitions(t.segments);
    DefinitionsDistinct(t.segments);
    PrefixesFrom(defs);
    UsableFrom(Prefixes(defs));
    forall e | e in UsableSegments(t)
      ensures e.0 in MemberLists(s, t) && Distinct(MemberLists(s, t)[e.0])
      ensures forall i :: i in MemberLists(s, t)[e.0] ==> i in Ids(s)
    {
      var k :| 0 <= k < |defs| && defs[k].name == e.0 && defs[k].cidr == Some(e.1);
      MembersOf(s, defs, k);
      JoiningDistinct(s, Groups.InstanceIds(s), defs[k]);
      forall i | i in MemberLists(s, t)[e.0]
        ensures i in Ids(s)
      {
        JoiningMember(s, Groups.InstanceIds(s), defs[k], i);
      }
    }
  }

  /** No member of a segment with room goes without an address. */
  lemma EveryoneServed(e: (string, Network), usable: OrderedMap<string, Network>, members: map<string, seq<string>>, pinned: Held,
                       held: Held, i: string)
    requires e in usable && Allocatable(usable, members, pinned.Keys) && Sound(usable, members, pinned)
    requires InOrder(e, members, pinned, held) && Extends(pinned, held)
    requires |members[e.0]| <= e.1.size - 3 && i in members[e.0]
    ensures On(held, i, e.0).Some?
  {
    var taken :| TakenOn(e.1, pinned, e.0, taken) && OrderedOn(e, members[e.0], taken, pinned, held);
    RoomCount(usable, members, pinned, e, taken);
    if On(pinned, i, e.0).None? {
      WaitingMember(pinned, members[e.0], e.0, i);
      var m :| 0 <= m < |Waiting(pinned, members[e.0], e.0)| && Waiting(pinned, members[e.0], e.0)[m] == i;
    }
  }

  /** No problem in the survey or the room check means every segment is usable. */
  lemma {:induction false} CleanMeansUsable(segments: seq<Segment>, k: nat)
    requires SurveyProblems(segments) == [] && k < |segments|
    ensures FirstDefinitions(segments) == segments && segments[k].cidr.Some?
    ensures (segments[k].name, segments[k].cidr.value) in Prefixes(segments)
  {
    var before, last := segments[..|segments| - 1], segments[|segments| - 1];
    assert segments == before + [last];
    if k < |before| {
      CleanMeansUsable(before, k);
    } else if before != [] {
      CleanMeansUsable(before, 0);
    }
  }

  lemma {:induction false} CleanMeansRoomy(parsed: OrderedMap<string, Network>)
    requires RoomProblems(parsed) == []
    ensures Usable(parsed) == parsed
  {
    if parsed != [] {
      CleanMeansRoomy(parsed[..|parsed| - 1]);
    }
  }

  /** Every member of every segment has an address there. */
  ghost predicate Complete(s: Scenario, t: Topology, held: Held) {
    forall k, i :: 0 <= k < |t.segments| && i in Members(s, t.segments[k]) ==> On(held, i, t.segments[k].name).Some?
  }

  lemma CleanPlanIsComplete(s: Scenario, t: Topology, pinned: Held, held: Held, full: seq<Problem>)
    requires Groups.DistinctIds(s) && pinned.Keys == Ids(s)
    requires SurveyProblems(t.segments) == [] && RoomProblems(Prefixes(FirstDefinitions(t.segments))) == [] && full == []
    requires Sound(UsableSegments(t), MemberLists(s, t), pinned)
    requires Allocated(UsableSegments(t), MemberLists(s, t), pinned, held, full, |UsableSegments(t)|)
    ensures Complete(s, t, held)
  {
    var usable, members := UsableSegments(t), MemberLists(s, t);
    Usables(s, t);
    forall k, i | 0 <= k < |t.segments| && i in Members(s, t.segments[k])
      ensures On(held, i, t.segments[k].name).Some?
    {
      CleanMeansUsable(t.segments, k);
      CleanMeansRoomy(Prefixes(FirstDefinitions(t.segments)));
      DefinitionsDistinct(t.segments);
      MembersOf(s, t.segments, k);
      var e := (t.segments[k].name, t.segments[k].cidr.value);
      var j :| 0 <= j < |usable| && usable[j] == e;
      assert SegmentDone(usable[j], members, pinned, held, full);
      EveryoneServed(e, usable, members, pinned, held, i);
    }
  }

  /** What a finished plan promises, whatever was reported about it. */
  ghost predicate Planned(s: Scenario, t: Topology, plan: AddressPlan, problems: seq<Problem>) {
    var usable, members := UsableSegments(t), MemberLists(s, t);
    && plan.addresses.Keys == Ids(s)
    && (forall x :: x in plan.gateways <==> Has(usable, x))
    && (forall e :: e in usable ==> e.0 in plan.gateways && plan.gateways[e.0] == Gateway(e.1))
    && Sound(usable, members, plan.addresses)
    && (forall k :: 0 <= k < |t.pins| ==> Settled(usable, members, plan.addresses, problems, t.pins[k].0, t.pins[k].1))
    && (forall e :: e in usable ==> e.0 in members && (Full(e.0) in problems <==> |members[e.0]| > e.1.size - 3))
    && SurveyProblems(t.segments) + RoomProblems(Prefixes(FirstDefinitions(t.segments))) <= problems
    && (forall p :: p in problems ==> Founded(t, p))
    && (problems == [] ==> Complete(s, t, plan.addresses))
  }

  /** A problem of the survey, of a prefix's size, of a pin, or of a full segment: there are no others. */
  ghost predicate Founded(t: Topology, p: Problem) {
    || p in SurveyProblems(t.segments) || p in RoomProblems(Prefixes(FirstDefinitions(t.segments)))
    || (exists k :: 0 <= k < |t.pins| && AboutPin(p, t.pins[k].0))
    || (p.Full? && Has(UsableSegments(t), p.segment))
  }

  /** Nothing is reported exactly when every segment is usable and has room, and every pin is honoured. */
  lemma CleanExactlyWhen(s: Scenario, t: Topology, plan: AddressPlan, problems: seq<Problem>)
    requires Planned(s, t, plan, problems)
    ensures problems == [] <==>
      && SurveyProblems(t.segments) == [] && RoomProblems(Prefixes(FirstDefinitions(t.segments))) == []
      && (forall e :: e in UsableSegments(t) ==> e.0 in MemberLists(s, t) && |MemberLists(s, t)[e.0]| <= e.1.size - 3)
      && (forall k :: 0 <= k < |t.pins| ==> Honoured(UsableSegments(t), MemberLists(s, t), plan.addresses, t.pins[k].0, t.pins[k].1))
  {
    hide Sound, Honoured, SurveyProblems, RoomProblems, UsableSegments, MemberLists, Complete, Hopeless, Occupied;
    var usable, members := UsableSegments(t), MemberLists(s, t);
    forall k | 0 <= k < |t.pins|
      ensures Honoured(usable, members, plan.addresses, t.pins[k].0, t.pins[k].1) <==> !Reported(problems, t.pins[k].0)
    {
      assert Settled(usable, members, plan.addresses, problems, t.pins[k].0, t.pins[k].1);
    }
    if problems != [] {
      var p := problems[0];
      assert Founded(t, p);
      if k :| 0 <= k < |t.pins| && AboutPin(p, t.pins[k].0) {
        assert Reported(problems, t.pins[k].0);
      } else if p.Full? && Has(usable, p.segment) {
        var e :| 0 <= e < |usable| && usable[e].0 == p.segment;
        assert usable[e] in usable && Full(usable[e].0) in problems;
      }
    }
  }

  /** ``plan_addresses``. ``pinned`` is what the pins alone placed; the rest is filled in around it, in member order. */
  method PlanAddresses(s: Scenario, t: Topology) returns (plan: AddressPlan, problems: seq<Problem>, ghost pinned: Held)
    requires Groups.DistinctIds(s) && DistinctKeys(t.pins)
    ensures Planned(s, t, plan, problems)
    ensures Extends(pinned, plan.addresses)
    ensures forall e :: e in UsableSegments(t) ==> InOrder(e, MemberLists(s, t), pinned, plan.addresses)
  {
    Usables(s, t);
    var members, parsed, survey := Survey(s, t.segments);
    var gateways, usable, room := Gateways(parsed);
    var ids := set i | i in Groups.InstanceIds(s) :: i.id;
    var placed, taken, pins := PlacePins(usable, members, ids, t.pins);
    var held, full := Allocate(usable, members, placed, taken);
    pinned := placed;
    problems := survey + room + pins + full;
    plan := AddressPlan(held, gateways);
    AllInOrder(usable, members, pinned, held, full);
    Finish(s, t, pinned, plan, pins, full, problems);
  }

  lemma AllInOrder(usable: OrderedMap<string, Network>, members: map<string, seq<string>>, pinned: Held,
        held: Held, full: seq<Problem>)
    requires Allocated(usable, members, pinned, held, full, |usable|)
    ensures forall e :: e in usable ==> InOrder(e, members, pinned, held)
  {
    forall e | e in usable
      ensures InOrder(e, members, pinned, held)
    {
      var k :| 0 <= k < |usable| && usable[k] == e;
      assert SegmentDone(usable[k], members, pinned, held, full);
    }
  }

  lemma Finish(s: Scenario, t: Topology, pinned: Held, plan: AddressPlan, pins: seq<Problem>, full: seq<Problem>,
        problems: seq<Problem>)
    requires Groups.DistinctIds(s) && DistinctKeys(t.pins) && pinned.Keys == Ids(s)
    requires problems == SurveyProblems(t.segments) + RoomProblems(Prefixes(FirstDefinitions(t.segments))) + pins + full
    requires Sound(UsableSegments(t), MemberLists(s, t), pinned)
    requires PinsDone(UsableSegments(t), MemberLists(s, t), pinned, pins, t.pins, |t.pins|)
    requires Allocated(UsableSegments(t), MemberLists(s, t), pinned, plan.addresses, full, |UsableSegments(t)|)
    requires forall x :: x in plan.gateways <==> Has(UsableSegments(t), x)
    requires forall k :: 0 <= k < |UsableSegments(t)| ==>
      UsableSegments(t)[k].0 in plan.gateways && plan.gateways[UsableSegments(t)[k].0] == Gateway(UsableSegments(t)[k].1)
    ensures Planned(s, t, plan, problems)
  {
    Usables(s, t);
    PinsSettled(UsableSegments(t), MemberLists(s, t), pinned, plan.addresses, SurveyProblems(t.segments),
                RoomProblems(Prefixes(FirstDefinitions(t.segments))), pins, full, t);
    FullReported(UsableSegments(t), MemberLists(s, t), pinned, plan.addresses, SurveyProblems(t.segments),
                 RoomProblems(Prefixes(FirstDefinitions(t.segments))), pins, full, t);
    AllFounded(s, t, pinned, plan.addresses, pins, full, problems);
    if problems == [] {
      CleanPlanIsComplete(s, t, pinned, plan.addresses, full);
    }
  }

  lemma AllFounded(s: Scenario, t: Topology, pinned: Held, held: Held, pins: seq<Problem>, full: seq<Problem>, problems: seq<Problem>)
    requires problems == SurveyProblems(t.segments) + RoomProblems(Prefixes(FirstDefinitions(t.segments))) + pins + full
    requires PinsDone(UsableSegments(t), MemberLists(s, t), pinned, pins, t.pins, |t.pins|)
    requires Allocated(UsableSegments(t), MemberLists(s, t), pinned, held, full, |UsableSegments(t)|)
    ensures forall p :: p in problems ==> Founded(t, p)
  {
    hide SurveyProblems, RoomProblems, UsableSegments, MemberLists, Settled, Sound, Extends, SegmentDone;
    forall p | p in problems
      ensures Founded(t, p)
    {
      if p in full {
        var j :| 0 <= j < |UsableSegments(t)| && p.segment == UsableSegments(t)[j].0;
      }
    }
  }

  lemma PinsSettled(usable: OrderedMap<string, Network>, members: map<string, seq<string>>, pinned: Held, held: Held,
                    survey: seq<Problem>, room: seq<Problem>, pins: seq<Problem>, full: seq<Problem>, t: Topology)
    requires DistinctKeys(usable) && PinsDone(usable, members, pinned, pins, t.pins, |t.pins|)
    requires Allocated(usable, members, pinned, held, full, |usable|)
    requires survey == SurveyProblems(t.segments) && room == RoomProblems(Prefixes(FirstDefinitions(t.segments)))
    ensures forall k :: 0 <= k < |t.pins| ==> Settled(usable, members, held, survey + room + pins + full, t.pins[k].0, t.pins[k].1)
  {
    SurveyKinds(t.segments);
    RoomKinds(Prefixes(FirstDefinitions(t.segments)));
    forall k | 0 <= k < |t.pins|
      ensures Settled(usable, members, held, survey + room + pins + full, t.pins[k].0, t.pins[k].1)
    {
      SettledForGood(usable, members, pinned, held, pins, survey + room + pins + full, t.pins[k].0, t.pins[k].1);
    }
  }

  lemma FullReported(usable: OrderedMap<string, Network>, members: map<string, seq<string>>, pinned: Held, held: Held,
                     survey: seq<Problem>, room: seq<Problem>, pins: seq<Problem>, full: seq<Problem>, t: Topology)
    requires Allocatable(usable, members, pinned.Keys) && PinsDone(usable, members, pinned, pins, t.pins, |t.pins|)
    requires Allocated(usable, members, pinned, held, full, |usable|)
    requires survey == SurveyProblems(t.segments) && room == RoomProblems(Prefixes(FirstDefinitions(t.segments)))
    ensures forall e :: e in usable ==> (Full(e.0) in survey + room + pins + full <==> |members[e.0]| > e.1.size - 3)
  {
    hide SurveyProblems, RoomProblems, Allocatable;
    SurveyKinds(t.segments);
    RoomKinds(Prefixes(FirstDefinitions(t.segments)));
    forall e | e in usable
      ensures Full(e.0) in survey + room + pins + full <==> |members[e.0]| > e.1.size - 3
    {
      var k :| 0 <= k < |usable| && usable[k] == e;
      assert SegmentDone(usable[k], members, pinned, held, full);
      assert Full(e.0) !in pins;
    }
  }

  lemma {:induction false} SurveyKinds(segments: seq<Segment>)
    ensures forall p :: p in SurveyProblems(segments) ==> p.DefinedTwice? || p.NotAPrefix?
  {
    if segments != [] {
      SurveyKinds(segments[..|segments| - 1]);
    }
  }

  lemma {:induction false} RoomKinds(parsed: OrderedMap<string, Network>)
    ensures forall p :: p in RoomProblems(parsed) ==> p.NoRoomForHosts?
  {
    if parsed != [] {
      RoomKinds(parsed[..|parsed| - 1]);
    }
  }
}
