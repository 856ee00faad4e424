/**
 * Wire keys shared by ties of two kinds: exactly when a clean check 1 bounds the targets of a tie,
 * whichever of the ties under its key is counted.
 */
module SharedKeys {
  import opened Wrappers
  import opened Ordering
  import opened Ir
  import opened Checks
  import Groups

  // ----- an order with a kind of one's choice last

  ghost function HeldNames(s: Scenario, g: Group): set<string> {
    set e | e in g.instances && HoldsKind(s, g, e.0) :: e.0
  }

  /** The held kinds sorted. */
  ghost function SortedNames(s: Scenario, g: Group): (names: seq<string>)
    ensures OrderOf(s, g, names)
  {
    IsSortedOrder(s, g);
    SortedSeq(HeldNames(s, g))
  }

  lemma IsSortedOrder(s: Scenario, g: Group)
    ensures OrderOf(s, g, SortedSeq(HeldNames(s, g)))
  {
    AscendingDistinct(SortedSeq(HeldNames(s, g)));
    HeldAre(s, g);
  }

  lemma HeldAre(s: Scenario, g: Group)
    ensures forall name :: name in HeldNames(s, g) <==> HoldsKind(s, g, name)
  {
    forall name | HoldsKind(s, g, name)
      ensures name in HeldNames(s, g)
    {
      var e :| 0 <= e < |g.instances| && g.instances[e].0 == name && g.instances[e].1 > 0;
      assert g.instances[e] in g.instances;
    }
  }

  lemma AscendingDistinct(names: seq<string>)
    requires Ascending(names)
    ensures Distinct(names)
  {
    forall i, j | 0 <= i < j < |names|
      ensures names[i] != names[j]
    {
      BeforeIrreflexive(names[i]);
    }
  }

  /** The held kinds with this one last. */
  ghost function LastNames(s: Scenario, g: Group, last: string): (names: seq<string>)
    requires HoldsKind(s, g, last)
    ensures OrderOf(s, g, names)
  {
    HeldAre(s, g);
    AscendingDistinct(SortedSeq(HeldNames(s, g) - {last}));
    SortedSeq(HeldNames(s, g) - {last}) + [last]
  }

  /** The last kind's tie is the one counted. */
  lemma LastIsCounted(kinds: seq<Kind>, before: seq<string>, k: nat, t: nat)
    requires KindsApart(kinds) && k < |kinds| && t < |kinds[k].ties| && DistinctTies(kinds[k].ties)
    ensures var key := WireKey(kinds[k].name, kinds[k].ties[t].name);
            var expected := ExpectedOf(kinds, before + [kinds[k].name]);
            key in expected && expected[key] == kinds[k].ties[t]
  {
    var names := before + [kinds[k].name];
    assert names[..|names| - 1] == before;
    LastKindIs(kinds, k);
    AddsLast(ExpectedOf(kinds, before), kinds[k].name, kinds[k].ties, t);
  }

  lemma {:induction false} AddsLast(expected: map<string, Tie>, kind: string, ties: seq<Tie>, t: nat)
    requires t < |ties| && DistinctTies(ties)
    ensures var key := WireKey(kind, ties[t].name);
            key in AddTies(expected, kind, ties) && AddTies(expected, kind, ties)[key] == ties[t]
  {
    var n := |ties| - 1;
    if t < n {
      AddsLast(expected, kind, ties[..n], t);
      SameKindKeys(kind, ties[t].name, ties[n].name);
    }
  }

  lemma SameKindKeys(kind: string, a: string, b: string)
    ensures WireKey(kind, a) == WireKey(kind, b) ==> a == b
  {
    assert WireKey(kind, a)[|kind| + 1..] == a && WireKey(kind, b)[|kind| + 1..] == b;
  }

  // ----- a scenario with the same kinds, each alone in a group of its own, twice

  const FIRST := "w"
  const HOME := "x"
  const TWIN := "y"
  const EMPTY := "z"

  /** Every tie reaches the one instance in its target kind's home. */
  function HomeWires(k: Kind): (r: OrderedMap<string, seq<string>>)
    ensures |r| == |k.ties|
    ensures forall t :: 0 <= t < |r| ==> r[t] == (WireKey(k.name, k.ties[t].name), [HOME + k.ties[t].targetKind])
  {
    seq(|k.ties|, t requires 0 <= t < |k.ties| => (WireKey(k.name, k.ties[t].name), [HOME + k.ties[t].targetKind]))
  }

  function Alone(prefix: string, k: Kind): Group {
    Group(prefix + k.name, [(k.name, 1)], [], HomeWires(k))
  }

  function AllAlone(prefix: string, kinds: seq<Kind>): (r: seq<Group>)
    ensures |r| == |kinds| && forall k :: 0 <= k < |r| ==> r[k] == Alone(prefix, kinds[k])
  {
    seq(|kinds|, k requires 0 <= k < |kinds| => Alone(prefix, kinds[k]))
  }

  /** The group ``g`` rewired, an empty group, and each kind alone twice. */
  function Rewired(kinds: seq<Kind>, instances: OrderedMap<string, int>, wiring: OrderedMap<string, seq<string>>): Scenario {
    Scenario(kinds, [Group(FIRST, instances, [], wiring), Group(EMPTY, [], [], [])] + AllAlone(HOME, kinds) + AllAlone(TWIN, kinds))
  }

  lemma PathsApart(kinds: seq<Kind>, instances: OrderedMap<string, int>, wiring: OrderedMap<string, seq<string>>)
    requires KindsApart(kinds)
    ensures var groups := Rewired(kinds, instances, wiring).groups;
            forall i, j :: 0 <= i < j < |groups| ==> groups[i].path != groups[j].path
  {
    var groups, n := Rewired(kinds, instances, wiring).groups, |kinds|;
    forall i | 0 <= i < |groups|
      ensures groups[i].path ==
        if i == 0 then FIRST else if i == 1 then EMPTY else if i < n + 2 then HOME + kinds[i - 2].name else TWIN + kinds[i - 2 - n].name
    {
    }
    forall i, j | 0 <= i < j < |groups|
      ensures groups[i].path != groups[j].path
    {
      if 2 <= i < n + 2 && j < n + 2 {
        AfterPrefix(HOME, kinds[i - 2].name, kinds[j - 2].name);
      } else if i >= n + 2 {
        AfterPrefix(TWIN, kinds[i - 2 - n].name, kinds[j - 2 - n].name);
      } else if i > 0 {
        assert groups[i].path[0] < groups[j].path[0] || groups[j].path[0] < groups[i].path[0];
      }
    }
  }

  lemma AfterPrefix(prefix: string, a: string, b: string)
    ensures prefix + a == prefix + b ==> a == b
  {
    assert (prefix + a)[|prefix|..] == a && (prefix + b)[|prefix|..] == b;
  }

  // ----- how many of a kind a wire counts there

  lemma {:induction false} TotalPlus(a: seq<Group>, b: seq<Group>, kind: string, wired: seq<string>)
    ensures Total(a + b, kind, wired) == Total(a, kind, wired) + Total(b, kind, wired)
  {
    if a == [] {
      assert a + b == b;
    } else {
      assert (a + b)[1..] == a[1..] + b;
      TotalPlus(a[1..], b, kind, wired);
    }
  }

  lemma AloneCounts(prefix: string, k: Kind, kind: string)
    ensures Groups.Count(Alone(prefix, k), kind) == if k.name == kind then 1 else 0
  {
    assert Alone(prefix, k).instances[1..] == [];
    assert Lookup<string, int>([], kind) == None;
  }

  lemma {:induction false} TotalAlone(prefix: string, kinds: seq<Kind>, kind: string, wired: seq<string>)
    requires KindsApart(kinds)
    ensures Total(AllAlone(prefix, kinds), kind, wired) == if Among(kinds, kind) && prefix + kind in wired then 1 else 0
  {
    hide Groups.Count, HomeWires;
    if kinds != [] {
      var rest := kinds[1..];
      assert forall k :: 0 <= k < |rest| ==> rest[k] == kinds[k + 1];
      assert KindsApart(rest);
      TotalAlone(prefix, rest, kind, wired);
      assert AllAlone(prefix, kinds)[1..] == AllAlone(prefix, rest);
      AloneCounts(prefix, kinds[0], kind);
      AmongTail(kinds, kind);
    }
  }

  lemma AmongTail(kinds: seq<Kind>, kind: string)
    requires kinds != [] && KindsApart(kinds)
    ensures Among(kinds, kind) <==> kinds[0].name == kind || Among(kinds[1..], kind)
    ensures kinds[0].name == kind ==> !Among(kinds[1..], kind)
  {
    var rest := kinds[1..];
    assert forall k :: 0 <= k < |rest| ==> rest[k] == kinds[k + 1];
    if k :| 0 < k < |kinds| && kinds[k].name == kind {
      assert rest[k - 1].name == kind;
    }
  }

  lemma TotalRewired(kinds: seq<Kind>, instances: OrderedMap<string, int>, wiring: OrderedMap<string, seq<string>>, kind: string,
                     wired: seq<string>)
    requires KindsApart(kinds) && Among(kinds, kind) && FIRST !in wired
    ensures Total(Rewired(kinds, instances, wiring).groups, kind, wired) ==
      (if HOME + kind in wired then 1 else 0) + (if TWIN + kind in wired then 1 else 0)
  {
    hide Groups.Count, AllAlone;
    var first := [Group(FIRST, instances, [], wiring), Group(EMPTY, [], [], [])];
    TotalPlus(first + AllAlone(HOME, kinds), AllAlone(TWIN, kinds), kind, wired);
    TotalPlus(first, AllAlone(HOME, kinds), kind, wired);
    TotalAlone(HOME, kinds, kind, wired);
    TotalAlone(TWIN, kinds, kind, wired);
    EmptyCounts(kind);
    assert first[1..] == [first[1]] && first[1..][1..] == [];
    assert Total(first[1..], kind, wired) == 0;
    assert Total(first, kind, wired) == 0;
  }

  lemma EmptyCounts(kind: string)
    ensures Groups.Count(Group(EMPTY, [], [], []), kind) == 0
  {
    assert Lookup<string, int>([], kind) == None;
  }

  // ----- when check 1 has nothing to say

  lemma WireIsClean(s: Scenario, g: Group, order: Order, key: string, wired: seq<string>)
    requires key in Expected(s, g, order) && IsKind(s, Expected(s, g, order)[key].targetKind)
    requires wired != [] && forall p :: p in wired ==> IsGroup(s, p)
    requires var tie := Expected(s, g, order)[key]; Allows(tie.multiplicity, Total(s.groups, tie.targetKind, wired))
    ensures WireDiagnostics(s, g, order, key, wired) == []
  {
    hide Expected, Total;
    NoneUnknown(s, g.path, key, wired);
  }

  lemma {:induction false} NoneUnknown(s: Scenario, path: string, key: string, wired: seq<string>)
    requires forall p :: p in wired ==> IsGroup(s, p)
    ensures UnknownGroups(s, path, key, wired) == []
  {
    if wired != [] {
      NoneUnknown(s, path, key, wired[1..]);
    }
  }

  lemma {:induction false} WiresAreClean(s: Scenario, g: Group, order: Order, wiring: OrderedMap<string, seq<string>>)
    requires forall k :: 0 <= k < |wiring| ==> WireDiagnostics(s, g, order, wiring[k].0, wiring[k].1) == []
    ensures WiresDiagnostics(s, g, order, wiring) == []
  {
    hide WireDiagnostics;
    if wiring != [] {
      assert forall k :: 0 <= k < |wiring[1..]| ==> wiring[1..][k] == wiring[k + 1];
      WiresAreClean(s, g, order, wiring[1..]);
    }
  }

  lemma GroupIsClean(s: Scenario, g: Group, order: Order)
    requires CountDiagnostics(s, g.path, g.instances) == []
    requires forall key :: key in Expected(s, g, order) ==> Has(g.wiring, key)
    requires forall k :: 0 <= k < |g.wiring| ==> WireDiagnostics(s, g, order, g.wiring[k].0, g.wiring[k].1) == []
    ensures GroupDiagnostics(s, g, order) == []
  {
    hide WireDiagnostics, Expected;
    WiresAreClean(s, g, order, g.wiring);
    forall key | key in Expected(s, g, order)
      ensures key in (set e | e in g.wiring :: e.0)
    {
      var k :| 0 <= k < |g.wiring| && g.wiring[k].0 == key;
      assert g.wiring[k] in g.wiring;
    }
    assert Expected(s, g, order).Keys - (set e | e in g.wiring :: e.0) == {};
    assert SortedSeq({}) == [];
  }

  lemma {:induction false} GroupsAreClean(s: Scenario, order: Order, groups: seq<Group>)
    requires forall g :: 0 <= g < |groups| ==> GroupDiagnostics(s, groups[g], order) == []
    ensures GroupsDiagnostics(s, order, groups) == []
  {
    hide GroupDiagnostics;
    if groups != [] {
      assert forall g :: 0 <= g < |groups[1..]| ==> groups[1..][g] == groups[g + 1];
      GroupsAreClean(s, order, groups[1..]);
    }
  }

  lemma {:induction false} SameKinds(s: Scenario, r: Scenario, kinds: seq<Kind>)
    requires s.kinds == r.kinds
    ensures KindDiagnostics(s, kinds) == KindDiagnostics(r, kinds)
  {
    if kinds != [] {
      SameKinds(s, r, kinds[1..]);
      SameTargets(s, r, kinds[0].name, kinds[0].ties);
    }
  }

  lemma {:induction false} SameTargets(s: Scenario, r: Scenario, kind: string, ties: seq<Tie>)
    requires s.kinds == r.kinds
    ensures UnknownTargets(s, kind, ties) == UnknownTargets(r, kind, ties)
  {
    if ties != [] {
      SameTargets(s, r, kind, ties[1..]);
    }
  }

  /** No instance count is of an unknown kind or negative. */
  predicate Counts(kinds: seq<Kind>, instances: OrderedMap<string, int>) {
    forall e :: 0 <= e < |instances| ==> Among(kinds, instances[e].0) && instances[e].1 >= 0
  }

  lemma {:induction false} CountsAreClean(s: Scenario, path: string, instances: OrderedMap<string, int>)
    ensures CountDiagnostics(s, path, instances) == [] <==> Counts(s.kinds, instances)
  {
    if instances != [] {
      CountsAreClean(s, path, instances[1..]);
      assert forall e :: 0 <= e < |instances[1..]| ==> instances[1..][e] == instances[e + 1];
      assert Counts(s.kinds, instances) ==> Counts(s.kinds, instances[1..]);
      if Counts(s.kinds, instances[1..]) && Among(s.kinds, instances[0].0) && instances[0].1 >= 0 {
        forall e | 0 <= e < |instances|
          ensures Among(s.kinds, instances[e].0) && instances[e].1 >= 0
        {
          assert e > 0 ==> instances[1..][e - 1] == instances[e];
        }
      }
    }
  }

  // ----- that scenario, wired so that one tie under a key has what it allows and another has not

  /** Groups to wire a key to where ``counted`` does not stand for ``built``. */
  function Contrary(counted: Tie, built: Tie): (wired: seq<string>)
    ensures wired != [] && FIRST !in wired
  {
    FirstLetters(counted.targetKind, built.targetKind);
    FirstLetters(built.targetKind, built.targetKind);
    var home, twin := HOME + built.targetKind, TWIN + built.targetKind;
    match (built.multiplicity.Single?, counted.targetKind == built.targetKind)
    case (true, true) => [EMPTY]
    case (true, false) => [HOME + counted.targetKind]
    case (false, true) => [home, twin]
    case (false, false) => [HOME + counted.targetKind, home, twin]
  }

  lemma FirstLetters(a: string, b: string)
    ensures HOME + a != TWIN + b && HOME + a != EMPTY && TWIN + a != EMPTY && HOME + a != FIRST && TWIN + a != FIRST
  {
    assert (HOME + a)[0] == 'x' && (TWIN + b)[0] == 'y' && (TWIN + a)[0] == 'y';
  }

  lemma ContraryIsContrary(kinds: seq<Kind>, instances: OrderedMap<string, int>, wiring: OrderedMap<string, seq<string>>, counted: Tie,
                           built: Tie)
    requires KindsApart(kinds) && Among(kinds, counted.targetKind) && Among(kinds, built.targetKind) && !Stands(counted, built)
    ensures var groups, wired := Rewired(kinds, instances, wiring).groups, Contrary(counted, built);
            Allows(counted.multiplicity, Total(groups, counted.targetKind, wired)) &&
            !Allows(built.multiplicity, Total(groups, built.targetKind, wired))
  {
    hide Total, Rewired;
    var wired, b, c := Contrary(counted, built), built.targetKind, counted.targetKind;
    TotalRewired(kinds, instances, wiring, c, wired);
    TotalRewired(kinds, instances, wiring, b, wired);
    FirstLetters(b, b);
    FirstLetters(b, c);
    FirstLetters(c, b);
    FirstLetters(c, c);
    AfterPrefix(HOME, b, c);
    AfterPrefix(TWIN, b, c);
  }

  /** Every key to its tie's home, but this one. */
  ghost function WiringBut(expected: map<string, Tie>, key: string, wired: seq<string>): (r: OrderedMap<string, seq<string>>)
    ensures |r| == |SortedSeq(expected.Keys)|
    ensures forall k :: 0 <= k < |r| ==> r[k].0 == SortedSeq(expected.Keys)[k] && r[k].0 in expected
    ensures forall k :: 0 <= k < |r| ==> r[k].1 == if r[k].0 == key then wired else [HOME + expected[r[k].0].targetKind]
    ensures DistinctKeys(r)
  {
    var keys := SortedSeq(expected.Keys);
    AscendingDistinct(keys);
    seq(|keys|, k requires 0 <= k < |keys| =>
      assert keys[k] in keys;
      (keys[k], if keys[k] == key then wired else [HOME + expected[keys[k]].targetKind]))
  }

  ghost function OrderWith(s: Scenario, names: seq<string>): Order {
    (g: Group) => if g.path == FIRST then names else SortedNames(s, g)
  }

  lemma RewiredIsNamed(kinds: seq<Kind>, instances: OrderedMap<string, int>, wiring: OrderedMap<string, seq<string>>)
    requires KindsApart(kinds) && AllTiesDistinct(kinds) && DistinctKeys(instances) && DistinctKeys(wiring)
    ensures Named(Rewired(kinds, instances, wiring))
  {
    var s := Rewired(kinds, instances, wiring);
    PathsApart(kinds, instances, wiring);
    forall g | 0 <= g < |s.groups|
      ensures DistinctKeys(s.groups[g].instances) && DistinctKeys(s.groups[g].wiring)
    {
      if g >= 2 {
        HomeWiresDistinct(if g < |kinds| + 2 then kinds[g - 2] else kinds[g - 2 - |kinds|]);
      }
    }
  }

  lemma HomeWiresDistinct(k: Kind)
    requires DistinctTies(k.ties)
    ensures DistinctKeys(HomeWires(k))
  {
    forall i, j | 0 <= i < j < |k.ties|
      ensures HomeWires(k)[i].0 != HomeWires(k)[j].0
    {
      SameKindKeys(k.name, k.ties[i].name, k.ties[j].name);
    }
  }

  ghost predicate KnownTies(kinds: seq<Kind>) {
    forall k, t :: 0 <= k < |kinds| && 0 <= t < |kinds[k].ties| ==> Among(kinds, kinds[k].ties[t].targetKind)
  }

  lemma IsHome(kinds: seq<Kind>, instances: OrderedMap<string, int>, wiring: OrderedMap<string, seq<string>>, kind: string)
    requires Among(kinds, kind)
    ensures IsGroup(Rewired(kinds, instances, wiring), HOME + kind) && IsGroup(Rewired(kinds, instances, wiring), TWIN + kind)
    ensures IsGroup(Rewired(kinds, instances, wiring), EMPTY)
  {
    var s := Rewired(kinds, instances, wiring);
    var k :| 0 <= k < |kinds| && kinds[k].name == kind;
    assert s.groups[1].path == EMPTY;
    assert s.groups[2 + k].path == HOME + kind;
    assert s.groups[2 + |kinds| + k].path == TWIN + kind;
  }

  predicate IsRewired(s: Scenario) {
    s.groups != [] && s == Rewired(s.kinds, s.groups[0].instances, s.groups[0].wiring)
  }

  /** A wire to its tie's home. */
  lemma HomeWireIsClean(s: Scenario, g: Group, order: Order, key: string)
    requires KindsApart(s.kinds) && KnownTies(s.kinds)
    requires IsRewired(s) && Named(s) && OrderOf(s, g, order(g))
    requires key in Expected(s, g, order)
    ensures WireDiagnostics(s, g, order, key, [HOME + Expected(s, g, order)[key].targetKind]) == []
  {
    hide Total, Rewired, Expected, HoldsKind, Named, KindsApart;
    var tie, instances, wiring := Expected(s, g, order)[key], s.groups[0].instances, s.groups[0].wiring;
    ExpectedIs(s, g, order, key);
    var k: nat, t: nat :| Keyed(s, g, k, t, key) && tie == s.kinds[k].ties[t];
    assert Among(s.kinds, tie.targetKind);
    IsHome(s.kinds, instances, wiring, tie.targetKind);
    FirstLetters(tie.targetKind, tie.targetKind);
    TotalRewired(s.kinds, instances, wiring, tie.targetKind, [HOME + tie.targetKind]);
    WireIsClean(s, g, order, key, [HOME + tie.targetKind]);
  }

  lemma AloneIsClean(s: Scenario, prefix: string, k: nat, order: Order)
    requires KindsApart(s.kinds) && AllTiesDistinct(s.kinds) && KnownTies(s.kinds) && k < |s.kinds|
    requires IsRewired(s) && Named(s) && OrderOf(s, Alone(prefix, s.kinds[k]), order(Alone(prefix, s.kinds[k])))
    ensures GroupDiagnostics(s, Alone(prefix, s.kinds[k]), order) == []
  {
    hide Expected, WireDiagnostics, Named, KindsApart, AllTiesDistinct, KnownTies, IsRewired, WireKey;
    var g, kind := Alone(prefix, s.kinds[k]), s.kinds[k];
    assert g.instances[0] == (kind.name, 1);
    assert Among(s.kinds, kind.name);
    CountsAreClean(s, g.path, g.instances);
    forall key
      ensures key in Expected(s, g, order) ==>
        exists t: nat :: t < |kind.ties| && WireKey(kind.name, kind.ties[t].name) == key && Expected(s, g, order)[key] == kind.ties[t]
      ensures key in Expected(s, g, order) ==> Has(g.wiring, key)
    {
      ExpectedIs(s, g, order, key);
      if key in Expected(s, g, order) {
        var j: nat, t: nat :| Keyed(s, g, j, t, key) && Expected(s, g, order)[key] == s.kinds[j].ties[t];
        OnlyHolds(s, g, j, k);
        assert g.wiring[t].0 == key;
      }
    }
    forall t | 0 <= t < |g.wiring|
      ensures WireDiagnostics(s, g, order, g.wiring[t].0, g.wiring[t].1) == []
    {
      var key := g.wiring[t].0;
      AloneHolds(s, prefix, k);
      IsKeyed(s, g, k, t);
      ExpectedIs(s, g, order, key);
      var u: nat :| u < |kind.ties| && WireKey(kind.name, kind.ties[u].name) == key && Expected(s, g, order)[key] == kind.ties[u];
      SameTie(s, k, t, u);
      HomeWireIsClean(s, g, order, key);
    }
    GroupIsClean(s, g, order);
  }

  lemma SameTie(s: Scenario, k: nat, t: nat, u: nat)
    requires AllTiesDistinct(s.kinds) && k < |s.kinds| && t < |s.kinds[k].ties| && u < |s.kinds[k].ties|
    requires WireKey(s.kinds[k].name, s.kinds[k].ties[t].name) == WireKey(s.kinds[k].name, s.kinds[k].ties[u].name)
    ensures t == u
  {
    assert DistinctTies(s.kinds[k].ties);
    SameKindKeys(s.kinds[k].name, s.kinds[k].ties[t].name, s.kinds[k].ties[u].name);
  }

  lemma AloneHolds(s: Scenario, prefix: string, k: nat)
    requires k < |s.kinds|
    ensures HoldsKind(s, Alone(prefix, s.kinds[k]), s.kinds[k].name)
  {
    assert Alone(prefix, s.kinds[k]).instances[0] == (s.kinds[k].name, 1);
  }

  lemma OnlyHolds(s: Scenario, g: Group, j: nat, k: nat)
    requires KindsApart(s.kinds) && j < |s.kinds| && k < |s.kinds| && g.instances == [(s.kinds[k].name, 1)]
    requires HoldsKind(s, g, s.kinds[j].name)
    ensures j == k
  {
  }

  lemma EmptyIsClean(s: Scenario, order: Order)
    requires Named(s) && OrderOf(s, Group(EMPTY, [], [], []), order(Group(EMPTY, [], [], [])))
    ensures GroupDiagnostics(s, Group(EMPTY, [], [], []), order) == []
  {
    hide Named;
    var g := Group(EMPTY, [], [], []);
    forall key
      ensures key !in Expected(s, g, order)
    {
      ExpectedIs(s, g, order, key);
    }
    GroupIsClean(s, g, order);
  }

  /** The group in question, its key wired to the contrary. */
  lemma FirstIsClean(s: Scenario, g: Group, order: Order, key: string, built: Tie)
    requires KindsApart(s.kinds) && KnownTies(s.kinds) && IsRewired(s) && Named(s) && Counts(s.kinds, g.instances)
    requires OrderOf(s, g, order(g)) && key in Expected(s, g, order)
    requires Among(s.kinds, built.targetKind) && !Stands(Expected(s, g, order)[key], built)
    requires g.wiring == WiringBut(Expected(s, g, order), key, Contrary(Expected(s, g, order)[key], built))
    ensures GroupDiagnostics(s, g, order) == []
  {
    hide WireDiagnostics, Named, KindsApart, KnownTies, IsRewired, OrderOf, Counts, Expected, Stands, Contrary, Among, WiringBut;
    var expected := Expected(s, g, order);
    CountsAreClean(s, g.path, g.instances);
    forall x | x in expected
      ensures Has(g.wiring, x)
    {
      WiredSomewhere(expected, key, Contrary(expected[key], built), x);
    }
    forall k | 0 <= k < |g.wiring|
      ensures WireDiagnostics(s, g, order, g.wiring[k].0, g.wiring[k].1) == []
    {
      if g.wiring[k].0 == key {
        ContraryIsClean(s, g, order, key, built);
      } else {
        HomeWireIsClean(s, g, order, g.wiring[k].0);
      }
    }
    GroupIsClean(s, g, order);
  }

  lemma WiredSomewhere(expected: map<string, Tie>, key: string, wired: seq<string>, x: string)
    requires x in expected
    ensures Has(WiringBut(expected, key, wired), x)
  {
    var k :| 0 <= k < |SortedSeq(expected.Keys)| && SortedSeq(expected.Keys)[k] == x;
    assert WiringBut(expected, key, wired)[k].0 == x;
  }

  lemma ContraryIsClean(s: Scenario, g: Group, order: Order, key: string, built: Tie)
    requires KindsApart(s.kinds) && KnownTies(s.kinds) && IsRewired(s) && Named(s)
    requires OrderOf(s, g, order(g)) && key in Expected(s, g, order)
    requires Among(s.kinds, built.targetKind) && !Stands(Expected(s, g, order)[key], built)
    ensures WireDiagnostics(s, g, order, key, Contrary(Expected(s, g, order)[key], built)) == []
  {
    hide Named, KindsApart, Rewired, Expected, HoldsKind, Stands, Total;
    var tie, first := Expected(s, g, order)[key], s.groups[0];
    ExpectedIs(s, g, order, key);
    var k: nat, t: nat :| Keyed(s, g, k, t, key) && tie == s.kinds[k].ties[t];
    assert Among(s.kinds, tie.targetKind);
    IsHome(s.kinds, first.instances, first.wiring, tie.targetKind);
    IsHome(s.kinds, first.instances, first.wiring, built.targetKind);
    ContraryIsContrary(s.kinds, first.instances, first.wiring, tie, built);
    WireIsClean(s, g, order, key, Contrary(tie, built));
  }

  // ----- the exact condition

  predicate TargetsAllowed(s: Scenario, g: nat, k: nat, t: nat)
    requires g < |s.groups| && k < |s.kinds| && t < |s.kinds[k].ties|
  {
    var targets := TargetsOf(s, s.groups[g].path, s.kinds[k].name, s.kinds[k].ties[t].name);
    targets.Some? && Allows(s.kinds[k].ties[t].multiplicity, |targets.value|)
  }

  /** In every scenario of these kinds, and in any order, a clean check 1 means the tie has as many targets as it allows. */
  ghost predicate CleanIsEnough(kinds: seq<Kind>, instances: OrderedMap<string, int>, k: nat, t: nat)
    requires k < |kinds| && t < |kinds[k].ties|
  {
    forall s: Scenario, order: Order, g: nat ::
      s.kinds == kinds && g < |s.groups| && s.groups[g].instances == instances && TiesAreClean(s, order) ==> TargetsAllowed(s, g, k, t)
  }

  lemma HeldIsCounted(s: Scenario, g: Group, k: nat)
    requires k < |s.kinds| && HoldsKind(s, g, s.kinds[k].name) && DistinctKeys(g.instances)
    ensures Groups.Count(g, s.kinds[k].name) > 0
  {
    var e: nat :| e < |g.instances| && g.instances[e].0 == s.kinds[k].name && g.instances[e].1 > 0;
    LookupAt(g.instances, e);
  }

  /** The scenario in which the group's kinds come out in this order, and the key is wired contrary to what ``built`` allows. */
  ghost function ContraryTo(s: Scenario, g: Group, names: seq<string>, key: string, counted: Tie, built: Tie): Scenario {
    Rewired(s.kinds, g.instances, WiringBut(ExpectedOf(s.kinds, names), key, Contrary(counted, built)))
  }

  lemma ContraryIsNamed(s: Scenario, g: nat, names: seq<string>, key: string, counted: Tie, built: Tie)
    requires Named(s) && AllTiesDistinct(s.kinds) && g < |s.groups| && OrderOf(s, s.groups[g], names)
    ensures var r := ContraryTo(s, s.groups[g], names, key, counted, built);
            && IsRewired(r) && r.kinds == s.kinds && r.groups != [] && Named(r) && KindsApart(r.kinds)
            && r.groups[0].instances == s.groups[g].instances
            && r.groups[0].wiring == WiringBut(ExpectedOf(s.kinds, names), key, Contrary(counted, built))
            && OrderOf(r, r.groups[0], names) && IsOrder(r, OrderWith(r, names)) && OrderWith(r, names)(r.groups[0]) == names
  {
    hide Rewired, Contrary, ExpectedOf, AllTiesDistinct, Named, HoldsKind, WiringBut;
    var kinds, instances := s.kinds, s.groups[g].instances;
    var wiring := WiringBut(ExpectedOf(kinds, names), key, Contrary(counted, built));
    NamesApart(s);
    RewiredShape(kinds, instances, wiring);
    InstancesApart(s, g);
    RewiredIsNamed(kinds, instances, wiring);
    var r := Rewired(kinds, instances, wiring);
    SameHeld(s, s.groups[g], r, r.groups[0]);
    Ordered(r, names);
  }

  lemma ContraryTiesAreClean(s: Scenario, g: nat, names: seq<string>, key: string, counted: Tie, built: Tie)
    requires Named(s) && AllTiesDistinct(s.kinds) && KnownTies(s.kinds) && g < |s.groups| && Counts(s.kinds, s.groups[g].instances)
    requires OrderOf(s, s.groups[g], names) && key in ExpectedOf(s.kinds, names) && ExpectedOf(s.kinds, names)[key] == counted
    requires Among(s.kinds, built.targetKind) && !Stands(counted, built)
    ensures var r := ContraryTo(s, s.groups[g], names, key, counted, built); TiesAreClean(r, OrderWith(r, names))
  {
    hide Rewired, Contrary, ExpectedOf, Stands, Counts, KnownTies, AllTiesDistinct, Named, KindDiagnostics, GroupDiagnostics,
         HoldsKind, Among, OrderWith, WiringBut, ContraryTo, IsOrder, OrderOf, IsRewired;
    var r := ContraryTo(s, s.groups[g], names, key, counted, built);
    ContraryIsNamed(s, g, names, key, counted, built);
    var order := OrderWith(r, names);
    FirstIsClean(r, r.groups[0], order, key, built);
    RestIsClean(r, order);
    SameKinds(s, r, r.kinds);
    NoneUnknownTarget(s, s.kinds);
    GroupsAreClean(r, order, r.groups);
  }

  /** A scenario where tie ``u`` of kind ``j`` is counted under the key of tie ``t`` of kind ``k``, which it does not stand for. */
  lemma Witness(s: Scenario, g: nat, k: nat, t: nat, j: nat, u: nat) returns (r: Scenario, order: Order)
    requires Named(s) && AllTiesDistinct(s.kinds) && KnownTies(s.kinds) && g < |s.groups| && Counts(s.kinds, s.groups[g].instances)
    requires k < |s.kinds| && t < |s.kinds[k].ties|
    requires Keyed(s, s.groups[g], j, u, WireKey(s.kinds[k].name, s.kinds[k].ties[t].name))
    requires !Stands(s.kinds[j].ties[u], s.kinds[k].ties[t])
    ensures r.kinds == s.kinds && r.groups != [] && r.groups[0].instances == s.groups[g].instances && TiesAreClean(r, order)
    ensures !TargetsAllowed(r, 0, k, t)
  {
    hide Rewired, Contrary, ExpectedOf, WireKey, Stands, Counts, KnownTies, AllTiesDistinct, Named, HoldsKind, Among, OrderOf,
         ContraryTo, TargetsAllowed, TiesAreClean;
    var kinds, built, counted := s.kinds, s.kinds[k].ties[t], s.kinds[j].ties[u];
    var key := WireKey(kinds[k].name, built.name);
    var names := CountedLast(s, s.groups[g], j, u);
    Known(kinds, k, t);
    Known(kinds, j, u);
    ContraryIsNamed(s, g, names, key, counted, built);
    ContraryTiesAreClean(s, g, names, key, counted, built);
    r := ContraryTo(s, s.groups[g], names, key, counted, built);
    order := OrderWith(r, names);
    var w := WiredAt(ExpectedOf(kinds, names), key, Contrary(counted, built));
    NotAllowed(r, k, t, w, counted);
  }

  lemma WiredAt(expected: map<string, Tie>, key: string, wired: seq<string>) returns (w: nat)
    requires key in expected
    ensures w < |WiringBut(expected, key, wired)| && WiringBut(expected, key, wired)[w] == (key, wired)
  {
    assert key in SortedSeq(expected.Keys);
    w :| w < |SortedSeq(expected.Keys)| && SortedSeq(expected.Keys)[w] == key;
  }

  /** An order in which this tie is the one counted. */
  lemma CountedLast(s: Scenario, g: Group, j: nat, u: nat) returns (names: seq<string>)
    requires Named(s) && AllTiesDistinct(s.kinds) && j < |s.kinds| && u < |s.kinds[j].ties| && HoldsKind(s, g, s.kinds[j].name)
    ensures OrderOf(s, g, names)
    ensures var key := WireKey(s.kinds[j].name, s.kinds[j].ties[u].name);
            key in ExpectedOf(s.kinds, names) && ExpectedOf(s.kinds, names)[key] == s.kinds[j].ties[u]
  {
    hide HoldsKind, ExpectedOf, WireKey, Named, KindsApart;
    NamesApart(s);
    TiesApart(s.kinds, j);
    names := LastNames(s, g, s.kinds[j].name);
    LastIsCounted(s.kinds, SortedSeq(HeldNames(s, g) - {s.kinds[j].name}), j, u);
  }

  lemma TiesApart(kinds: seq<Kind>, k: nat)
    requires AllTiesDistinct(kinds) && k < |kinds|
    ensures DistinctTies(kinds[k].ties)
  {
  }

  lemma Known(kinds: seq<Kind>, k: nat, t: nat)
    requires KnownTies(kinds) && k < |kinds| && t < |kinds[k].ties|
    ensures Among(kinds, kinds[k].ties[t].targetKind)
  {
  }

  lemma InstancesApart(s: Scenario, g: nat)
    requires Named(s) && g < |s.groups|
    ensures DistinctKeys(s.groups[g].instances)
  {
  }

  lemma RewiredShape(kinds: seq<Kind>, instances: OrderedMap<string, int>, wiring: OrderedMap<string, seq<string>>)
    ensures var s := Rewired(kinds, instances, wiring);
            && IsRewired(s) && s.kinds == kinds && |s.groups| == 2 + 2 * |kinds|
            && s.groups[0] == Group(FIRST, instances, [], wiring) && s.groups[1] == Group(EMPTY, [], [], [])
            && (forall k :: 0 <= k < |kinds| ==> s.groups[2 + k] == Alone(HOME, kinds[k]))
            && (forall k :: 0 <= k < |kinds| ==> s.groups[2 + |kinds| + k] == Alone(TWIN, kinds[k]))
  {
    hide Alone;
    var first := [Group(FIRST, instances, [], wiring), Group(EMPTY, [], [], [])];
    var homes, twins := AllAlone(HOME, kinds), AllAlone(TWIN, kinds);
    var groups := first + homes + twins;
    assert groups[0] == first[0] && groups[1] == first[1];
    assert forall k :: 0 <= k < |kinds| ==> groups[2 + k] == homes[k];
    assert forall k :: 0 <= k < |kinds| ==> groups[2 + |kinds| + k] == twins[k];
  }

  lemma SameHeld(s: Scenario, g: Group, r: Scenario, h: Group)
    requires s.kinds == r.kinds && g.instances == h.instances
    ensures forall name :: HoldsKind(s, g, name) <==> HoldsKind(r, h, name)
  {
  }

  lemma Ordered(r: Scenario, names: seq<string>)
    requires IsRewired(r) && OrderOf(r, r.groups[0], names) && KindsApart(r.kinds)
    ensures IsOrder(r, OrderWith(r, names))
  {
    hide HoldsKind;
    PathsApart(r.kinds, r.groups[0].instances, r.groups[0].wiring);
    assert r.groups[0].path == FIRST;
  }

  lemma {:induction false} NoneUnknownTarget(s: Scenario, kinds: seq<Kind>)
    requires KnownTies(s.kinds) && forall k :: 0 <= k < |kinds| ==> kinds[k] in s.kinds
    ensures KindDiagnostics(s, kinds) == []
  {
    hide KnownTies;
    if kinds != [] {
      assert forall k :: 0 <= k < |kinds[1..]| ==> kinds[1..][k] == kinds[k + 1];
      NoneUnknownTarget(s, kinds[1..]);
      assert kinds[0] in s.kinds;
      var k :| 0 <= k < |s.kinds| && s.kinds[k] == kinds[0];
      forall t | 0 <= t < |kinds[0].ties|
        ensures Among(s.kinds, kinds[0].ties[t].targetKind)
      {
        Known(s.kinds, k, t);
      }
      NoneUnknownOf(s, kinds[0].name, kinds[0].ties);
    }
  }

  lemma {:induction false} NoneUnknownOf(s: Scenario, kind: string, ties: seq<Tie>)
    requires forall t :: 0 <= t < |ties| ==> Among(s.kinds, ties[t].targetKind)
    ensures UnknownTargets(s, kind, ties) == []
  {
    if ties != [] {
      assert Among(s.kinds, ties[0].targetKind);
      assert forall t :: 0 <= t < |ties[1..]| ==> ties[1..][t] == ties[t + 1];
      NoneUnknownOf(s, kind, ties[1..]);
    }
  }

  lemma RestIsClean(s: Scenario, order: Order)
    requires KindsApart(s.kinds) && AllTiesDistinct(s.kinds) && KnownTies(s.kinds) && IsRewired(s) && Named(s) && IsOrder(s, order)
    requires GroupDiagnostics(s, s.groups[0], order) == []
    ensures forall g :: 0 <= g < |s.groups| ==> GroupDiagnostics(s, s.groups[g], order) == []
  {
    hide GroupDiagnostics, Named, KindsApart, AllTiesDistinct, KnownTies, OrderOf, Alone, Rewired;
    var n := |s.kinds|;
    RewiredShape(s.kinds, s.groups[0].instances, s.groups[0].wiring);
    forall g | 0 <= g < |s.groups|
      ensures GroupDiagnostics(s, s.groups[g], order) == []
    {
      if g == 1 {
        EmptyIsClean(s, order);
      } else if 2 <= g < n + 2 {
        AloneIsClean(s, HOME, g - 2, order);
      } else if g >= n + 2 {
        assert s.groups[g] == Alone(TWIN, s.kinds[g - 2 - n]);
        AloneIsClean(s, TWIN, g - 2 - n, order);
      }
    }
  }

  lemma NotAllowed(s: Scenario, k: nat, t: nat, w: nat, counted: Tie)
    requires Named(s) && IsRewired(s) && KindsApart(s.kinds) && AllTiesDistinct(s.kinds) && KnownTies(s.kinds)
    requires k < |s.kinds| && t < |s.kinds[k].ties| && w < |s.groups[0].wiring|
    requires Among(s.kinds, counted.targetKind) && !Stands(counted, s.kinds[k].ties[t])
    requires s.groups[0].wiring[w] == (WireKey(s.kinds[k].name, s.kinds[k].ties[t].name), Contrary(counted, s.kinds[k].ties[t]))
    ensures !TargetsAllowed(s, 0, k, t)
  {
    hide Named, KindsApart, AllTiesDistinct, KnownTies, Rewired, WireKey, Stands, Contrary, Total, Reached, WireOf, FindTie,
         Groups.OfGroups;
    var built := s.kinds[k].ties[t];
    WireFound(s, 0, k, t, w);
    var j := FindTieIs(s.kinds[k].ties, t);
    TiesApart(s.kinds, k);
    assert j == t;
    Known(s.kinds, k, t);
    ReachedIsTotal(s.groups, s.kinds, built.targetKind, Contrary(counted, built));
    ContraryIsContrary(s.kinds, s.groups[0].instances, s.groups[0].wiring, counted, built);
  }

  /**
   * Where kinds' ties have names of their own, as check 11 sees to, a clean check 1 gives a tie as many
   * targets as it allows, whatever the groups and the order, exactly when every tie of a held kind under its key stands for it.
   */
  lemma EnoughExactlyWhenAllStand(s: Scenario, g: nat, k: nat, t: nat)
    requires Named(s) && AllTiesDistinct(s.kinds) && KnownTies(s.kinds) && g < |s.groups| && Counts(s.kinds, s.groups[g].instances)
    requires k < |s.kinds| && t < |s.kinds[k].ties| && HoldsKind(s, s.groups[g], s.kinds[k].name)
    ensures CleanIsEnough(s.kinds, s.groups[g].instances, k, t) <==>
      AllStand(s, s.groups[g], WireKey(s.kinds[k].name, s.kinds[k].ties[t].name), s.kinds[k].ties[t])
  {
    hide Named, AllTiesDistinct, KnownTies, Counts, HoldsKind, WireKey, Stands, TargetsAllowed, TiesAreClean;
    var kinds, instances := s.kinds, s.groups[g].instances;
    var tie, key := kinds[k].ties[t], WireKey(kinds[k].name, kinds[k].ties[t].name);
    if AllStand(s, s.groups[g], key, tie) {
      forall r: Scenario, order: Order, h: nat |
        r.kinds == kinds && h < |r.groups| && r.groups[h].instances == instances && TiesAreClean(r, order)
        ensures TargetsAllowed(r, h, k, t)
      {
        SameHeld(s, s.groups[g], r, r.groups[h]);
        StandsElsewhere(r, order, h, k, t);
      }
    } else {
      var j: nat, u: nat :| Keyed(s, s.groups[g], j, u, key) && !Stands(kinds[j].ties[u], tie);
      var r, order := Witness(s, g, k, t, j, u);
    }
  }

  lemma StandsElsewhere(s: Scenario, order: Order, g: nat, k: nat, t: nat)
    requires TiesAreClean(s, order) && AllTiesDistinct(s.kinds) && g < |s.groups| && k < |s.kinds| && t < |s.kinds[k].ties|
    requires HoldsKind(s, s.groups[g], s.kinds[k].name)
    requires AllStand(s, s.groups[g], WireKey(s.kinds[k].name, s.kinds[k].ties[t].name), s.kinds[k].ties[t])
    ensures TargetsAllowed(s, g, k, t)
  {
    hide Named, IsOrder, CheckTies, AllTiesDistinct, HoldsKind, WireKey, AllStand, FindTie, TargetsOf, Groups.Count, Expected;
    InstancesApart(s, g);
    HeldIsCounted(s, s.groups[g], k);
    CleanTie(s, order, g, k, t);
    var j := FindTieIs(s.kinds[k].ties, t);
    TiesApart(s.kinds, k);
    assert j == t;
  }

  // ----- where no key is shared

  /** Where no two ties of a group's held kinds share a key, check 1 says the same in any order. */
  lemma OrderIsNoMatter(s: Scenario, a: Order, b: Order)
    requires Named(s) && IsOrder(s, a) && IsOrder(s, b)
    requires forall g, k: nat, t: nat, key ::
      g in s.groups && Keyed(s, g, k, t, key) ==> OnlyTie(s, g, key, s.kinds[k].ties[t])
    ensures CheckTies(s, a) == CheckTies(s, b)
  {
    hide Keyed, OnlyTie, Named, GroupsDiagnostics;
    forall g | g in s.groups
      ensures Expected(s, g, a) == Expected(s, g, b)
    {
      var n :| 0 <= n < |s.groups| && s.groups[n] == g;
      SameExpected(s, g, a, b);
    }
    SameGroups(s, a, b, s.groups);
  }

  lemma SameExpected(s: Scenario, g: Group, a: Order, b: Order)
    requires Named(s) && OrderOf(s, g, a(g)) && OrderOf(s, g, b(g))
    requires forall k: nat, t: nat, key :: Keyed(s, g, k, t, key) ==> OnlyTie(s, g, key, s.kinds[k].ties[t])
    ensures Expected(s, g, a) == Expected(s, g, b)
  {
    hide Expected, HoldsKind, WireKey, Named;
    forall key
      ensures key in Expected(s, g, a) <==> key in Expected(s, g, b)
      ensures key in Expected(s, g, a) && key in Expected(s, g, b) ==> Expected(s, g, a)[key] == Expected(s, g, b)[key]
    {
      ExpectedIs(s, g, a, key);
      ExpectedIs(s, g, b, key);
    }
  }

  lemma {:induction false} SameGroups(s: Scenario, a: Order, b: Order, groups: seq<Group>)
    requires forall g :: g in groups ==> Expected(s, g, a) == Expected(s, g, b)
    ensures GroupsDiagnostics(s, a, groups) == GroupsDiagnostics(s, b, groups)
  {
    hide Expected, WiresDiagnostics;
    if groups != [] {
      SameGroups(s, a, b, groups[1..]);
      SameWires(s, groups[0], a, b, groups[0].wiring);
    }
  }

  lemma {:induction false} SameWires(s: Scenario, g: Group, a: Order, b: Order, wiring: OrderedMap<string, seq<string>>)
    requires Expected(s, g, a) == Expected(s, g, b)
    ensures WiresDiagnostics(s, g, a, wiring) == WiresDiagnostics(s, g, b, wiring)
  {
    hide Expected;
    if wiring != [] {
      SameWires(s, g, a, b, wiring[1..]);
    }
  }
}
