/** Tie targets and check 1, and what a clean check 1 says of a tie. */
module Checks {
  import opened Wrappers
  import opened Ir
  import opened Ordering
  import Groups

  // ----- tie targets

  function FindGroup(groups: seq<Group>, path: string): Option<Group> {
    if groups == [] then None else if groups[0].path == path then Some(groups[0]) else FindGroup(groups[1..], path)
  }

  function FindKind(kinds: seq<Kind>, name: string): Option<Kind> {
    if kinds == [] then None else if kinds[0].name == name then Some(kinds[0]) else FindKind(kinds[1..], name)
  }

  function FindTie(ties: seq<Tie>, name: string): Option<Tie> {
    if ties == [] then None else if ties[0].name == name then Some(ties[0]) else FindTie(ties[1..], name)
  }

  function WireKey(kind: string, tie: string): string {
    kind + "." + tie
  }

  /** Instances of ``kind`` in the wired groups, in instance order. */
  function Reached(instances: seq<Groups.Instance>, kind: string, wired: seq<string>): seq<string> {
    if instances == [] then []
    else
      var i := instances[|instances| - 1];
      var before := Reached(instances[..|instances| - 1], kind, wired);
      if i.kind == kind && i.group in wired then before + [i.id] else before
  }

  /** The relation a wire is of, and the groups it names. */
  function WireOf(s: Scenario, path: string, kind: string, tie: string): Option<(Tie, seq<string>)> {
    match FindGroup(s.groups, path)
    case None => None
    case Some(g) =>
      match FindKind(s.kinds, kind)
      case None => None
      case Some(k) =>
        match (FindTie(k.ties, tie), Lookup(g.wiring, WireKey(kind, tie)))
        case (Some(t), Some(wired)) => Some((t, wired))
        case _ => None
  }

  /** ``targets``. */
  function TargetsOf(s: Scenario, path: string, kind: string, tie: string): Option<seq<string>> {
    match WireOf(s, path, kind, tie)
    case None => None
    case Some((t, wired)) => Some(Reached(Groups.InstanceIds(s), t.targetKind, wired))
  }

  method Targets(s: Scenario, path: string, kind: string, tie: string) returns (r: Option<seq<string>>)
    ensures r == TargetsOf(s, path, kind, tie)
  {
    var wire := WireOf(s, path, kind, tie);
    if wire.None? {
      return None;
    }
    var (relation, wired) := wire.value;
    var all := Groups.InstanceIds(s);
    var found: seq<string> := [];
    for n := 0 to |all|
      invariant found == Reached(all[..n], relation.targetKind, wired)
    {
      assert all[..n + 1][..n] == all[..n];
      if all[n].kind == relation.targetKind && all[n].group in wired {
        found := found + [all[n].id];
      }
    }
    assert all[..|all|] == all;
    r := Some(found);
  }

  // ----- check 1

  datatype Diagnostic =
    | UnknownTargetKind(kind: string, tie: string)
    | UnknownKind(group: string, kind: string)
    | NegativeCount(group: string, kind: string)
    | NotWired(group: string, key: string)
    | NoSuchTie(group: string, key: string)
    | HoldsNone(group: string, key: string)
    | UnknownGroup(group: string, key: string, wired: string)
    | WiredToNone(group: string, key: string)
    | NotExactlyOne(group: string, key: string, total: nat)
    | MoreThanOne(group: string, key: string, total: nat)

  /** ``str.partition(".")`` without its separator. */
  function AtDot(key: string): (string, string) {
    if key == "" then ("", "")
    else if key[0] == '.' then ("", key[1..])
    else
      var (before, after) := AtDot(key[1..]);
      ([key[0]] + before, after)
  }

  lemma {:induction false} AtDotOfKey(kind: string, tie: string)
    requires '.' !in kind
    ensures AtDot(WireKey(kind, tie)) == (kind, tie)
  {
    var key := WireKey(kind, tie);
    if kind == "" {
      assert key == "." + tie;
    } else {
      assert key[0] == kind[0] && key[1..] == WireKey(kind[1..], tie);
      AtDotOfKey(kind[1..], tie);
      assert kind == [kind[0]] + kind[1..];
    }
  }

  predicate Among(kinds: seq<Kind>, name: string) {
    exists k :: 0 <= k < |kinds| && kinds[k].name == name
  }

  predicate IsKind(s: Scenario, name: string) {
    Among(s.kinds, name)
  }

  predicate IsGroup(s: Scenario, path: string) {
    exists g :: 0 <= g < |s.groups| && s.groups[g].path == path
  }

  /** ``{k.name: k}``: the last kind of a name. */
  function LastKind(kinds: seq<Kind>, name: string): Option<Kind> {
    if kinds == [] then None
    else if kinds[|kinds| - 1].name == name then Some(kinds[|kinds| - 1])
    else LastKind(kinds[..|kinds| - 1], name)
  }

  predicate HoldsKind(s: Scenario, g: Group, name: string) {
    IsKind(s, name) && exists e :: 0 <= e < |g.instances| && g.instances[e].0 == name && g.instances[e].1 > 0
  }

  function AddTies(expected: map<string, Tie>, kind: string, ties: seq<Tie>): map<string, Tie> {
    if ties == [] then expected
    else AddTies(expected, kind, ties[..|ties| - 1])[WireKey(kind, ties[|ties| - 1].name) := ties[|ties| - 1]]
  }

  /**
   * ``held`` of each group as it is iterated over. It is a set of strings, so its order is not the
   * scenario's and may differ from one process to the next.
   */
  type Order = Group -> seq<string>

  ghost predicate OrderOf(s: Scenario, g: Group, names: seq<string>) {
    Distinct(names) && forall name :: name in names <==> HoldsKind(s, g, name)
  }

  ghost predicate IsOrder(s: Scenario, order: Order) {
    forall g :: 0 <= g < |s.groups| ==> OrderOf(s, s.groups[g], order(s.groups[g]))
  }

  /** The ties of these kinds by wire key, a later kind's over an earlier one's. */
  function ExpectedOf(kinds: seq<Kind>, names: seq<string>): map<string, Tie> {
    if names == [] then map[]
    else
      var last, before := names[|names| - 1], ExpectedOf(kinds, names[..|names| - 1]);
      match LastKind(kinds, last)
      case None => before
      case Some(kind) => AddTies(before, last, kind.ties)
  }

  /** ``expected``. */
  function Expected(s: Scenario, g: Group, order: Order): map<string, Tie> {
    ExpectedOf(s.kinds, order(g))
  }

  /** How many instances of a kind the groups named in ``wired`` count. */
  function Total(groups: seq<Group>, kind: string, wired: seq<string>): nat {
    if groups == [] then 0
    else (if groups[0].path in wired then Groups.Count(groups[0], kind) else 0) + Total(groups[1..], kind, wired)
  }

  function UnknownTargets(s: Scenario, kind: string, ties: seq<Tie>): seq<Diagnostic> {
    if ties == [] then []
    else
      (if IsKind(s, ties[0].targetKind) then [] else [UnknownTargetKind(kind, ties[0].name)])
      + UnknownTargets(s, kind, ties[1..])
  }

  function KindDiagnostics(s: Scenario, kinds: seq<Kind>): seq<Diagnostic> {
    if kinds == [] then [] else UnknownTargets(s, kinds[0].name, kinds[0].ties) + KindDiagnostics(s, kinds[1..])
  }

  function CountDiagnostics(s: Scenario, path: string, instances: OrderedMap<string, int>): seq<Diagnostic> {
    if instances == [] then []
    else
      (if !IsKind(s, instances[0].0) then [UnknownKind(path, instances[0].0)]
       else if instances[0].1 < 0 then [NegativeCount(path, instances[0].0)]
       else [])
      + CountDiagnostics(s, path, instances[1..])
  }

  ghost function Unwired(path: string, keys: seq<string>): (r: seq<Diagnostic>)
    ensures |r| == |keys|
  {
    seq(|keys|, k requires 0 <= k < |keys| => NotWired(path, keys[k]))
  }

  function UnknownGroups(s: Scenario, path: string, key: string, wired: seq<string>): seq<Diagnostic> {
    if wired == [] then []
    else (if IsGroup(s, wired[0]) then [] else [UnknownGroup(path, key, wired[0])]) + UnknownGroups(s, path, key, wired[1..])
  }

  /** What check 1 says of a wire no tie of a held kind expects. */
  function StrayDiagnostics(s: Scenario, g: Group, key: string): seq<Diagnostic> {
    var (kind, tie) := AtDot(key);
    if HoldsKind(s, g, kind) then
      match LastKind(s.kinds, kind)
      case None => []
      case Some(k) => if exists t :: 0 <= t < |k.ties| && k.ties[t].name == tie then [] else [NoSuchTie(g.path, key)]
    else [HoldsNone(g.path, key)]
  }

  function WireDiagnostics(s: Scenario, g: Group, order: Order, key: string, wired: seq<string>): seq<Diagnostic> {
    if key !in Expected(s, g, order) then StrayDiagnostics(s, g, key)
    else
      var tie := Expected(s, g, order)[key];
      if !IsKind(s, tie.targetKind) then []
      else
        var unknown := UnknownGroups(s, g.path, key, wired);
        if wired == [] then [WiredToNone(g.path, key)]
        else if unknown != [] then unknown
        else
          var total := Total(s.groups, tie.targetKind, wired);
          if tie.multiplicity.Single? && total != 1 then [NotExactlyOne(g.path, key, total)]
          else if tie.multiplicity.Optional? && total > 1 then [MoreThanOne(g.path, key, total)]
          else []
  }

  function WiresDiagnostics(s: Scenario, g: Group, order: Order, wiring: OrderedMap<string, seq<string>>): seq<Diagnostic> {
    if wiring == [] then []
    else WireDiagnostics(s, g, order, wiring[0].0, wiring[0].1) + WiresDiagnostics(s, g, order, wiring[1..])
  }

  ghost function GroupDiagnostics(s: Scenario, g: Group, order: Order): seq<Diagnostic> {
    CountDiagnostics(s, g.path, g.instances)
    + Unwired(g.path, SortedSeq(Expected(s, g, order).Keys - set e | e in g.wiring :: e.0))
    + WiresDiagnostics(s, g, order, g.wiring)
  }

  ghost function GroupsDiagnostics(s: Scenario, order: Order, groups: seq<Group>): seq<Diagnostic> {
    if groups == [] then [] else GroupDiagnostics(s, groups[0], order) + GroupsDiagnostics(s, order, groups[1..])
  }

  /** Check 1, the held kinds coming in this order. */
  ghost function CheckTies(s: Scenario, order: Order): seq<Diagnostic> {
    KindDiagnostics(s, s.kinds) + GroupsDiagnostics(s, order, s.groups)
  }

  // ----- what a clean check 1 says

  lemma {:induction false} KnownTargets(s: Scenario, kinds: seq<Kind>, k: nat, t: nat)
    requires KindDiagnostics(s, kinds) == [] && k < |kinds| && t < |kinds[k].ties|
    ensures IsKind(s, kinds[k].ties[t].targetKind)
  {
    if k > 0 {
      KnownTargets(s, kinds[1..], k - 1, t);
    } else {
      KnownTiesOf(s, kinds[0].name, kinds[0].ties, t);
    }
  }

  lemma {:induction false} KnownTiesOf(s: Scenario, kind: string, ties: seq<Tie>, t: nat)
    requires UnknownTargets(s, kind, ties) == [] && t < |ties|
    ensures IsKind(s, ties[t].targetKind)
  {
    if t > 0 {
      KnownTiesOf(s, kind, ties[1..], t - 1);
    }
  }

  lemma {:induction false} CleanGroup(s: Scenario, order: Order, groups: seq<Group>, g: nat)
    requires GroupsDiagnostics(s, order, groups) == [] && g < |groups|
    ensures GroupDiagnostics(s, groups[g], order) == []
  {
    if g > 0 {
      CleanGroup(s, order, groups[1..], g - 1);
    }
  }

  lemma {:induction false} CleanWire(s: Scenario, g: Group, order: Order, wiring: OrderedMap<string, seq<string>>, k: nat)
    requires WiresDiagnostics(s, g, order, wiring) == [] && k < |wiring|
    ensures WireDiagnostics(s, g, order, wiring[k].0, wiring[k].1) == []
  {
    if k > 0 {
      CleanWire(s, g, order, wiring[1..], k - 1);
    }
  }

  /** Groups and kinds are told apart by their names, and dicts have distinct keys. */
  ghost predicate Named(s: Scenario) {
    && Distinct(seq(|s.groups|, g requires 0 <= g < |s.groups| => s.groups[g].path))
    && Distinct(seq(|s.kinds|, k requires 0 <= k < |s.kinds| => s.kinds[k].name))
    && (forall g :: 0 <= g < |s.groups| ==> DistinctKeys(s.groups[g].instances) && DistinctKeys(s.groups[g].wiring))
  }

  /** No two ties of a name, as check 11 sees to. */
  ghost predicate DistinctTies(ties: seq<Tie>) {
    forall i, j :: 0 <= i < j < |ties| ==> ties[i].name != ties[j].name
  }

  ghost predicate AllTiesDistinct(kinds: seq<Kind>) {
    forall k :: 0 <= k < |kinds| ==> DistinctTies(kinds[k].ties)
  }

  /** Nothing for check 1 to say, the held kinds coming in this order. */
  ghost predicate TiesAreClean(s: Scenario, order: Order) {
    Named(s) && IsOrder(s, order) && CheckTies(s, order) == []
  }

  lemma NamesApart(s: Scenario)
    requires Named(s)
    ensures forall i, j :: 0 <= i < |s.groups| && 0 <= j < |s.groups| && s.groups[i].path == s.groups[j].path ==> i == j
    ensures KindsApart(s.kinds)
  {
    var paths := seq(|s.groups|, g requires 0 <= g < |s.groups| => s.groups[g].path);
    var names := seq(|s.kinds|, k requires 0 <= k < |s.kinds| => s.kinds[k].name);
    assert forall g :: 0 <= g < |s.groups| ==> paths[g] == s.groups[g].path;
    assert forall k :: 0 <= k < |s.kinds| ==> names[k] == s.kinds[k].name;
  }

  lemma {:induction false} FindGroupIs(groups: seq<Group>, g: nat)
    requires g < |groups| && forall i :: 0 <= i < g ==> groups[i].path != groups[g].path
    ensures FindGroup(groups, groups[g].path) == Some(groups[g])
  {
    if g > 0 {
      FindGroupIs(groups[1..], g - 1);
    }
  }

  lemma {:induction false} FindKindIs(kinds: seq<Kind>, k: nat)
    requires k < |kinds| && forall i :: 0 <= i < k ==> kinds[i].name != kinds[k].name
    ensures FindKind(kinds, kinds[k].name) == Some(kinds[k])
  {
    if k > 0 {
      FindKindIs(kinds[1..], k - 1);
    }
  }

  /** The tie found by a name is the first of that name. */
  lemma {:induction false} FindTieIs(ties: seq<Tie>, t: nat) returns (j: nat)
    requires t < |ties|
    ensures j <= t && FindTie(ties, ties[t].name) == Some(ties[j]) && ties[j].name == ties[t].name
    ensures forall i :: 0 <= i < j ==> ties[i].name != ties[t].name
  {
    if ties[0].name == ties[t].name {
      j := 0;
    } else {
      j := FindTieIs(ties[1..], t - 1);
      j := j + 1;
    }
  }

  lemma {:induction false} LastKindIs(kinds: seq<Kind>, k: nat)
    requires k < |kinds| && KindsApart(kinds)
    ensures LastKind(kinds, kinds[k].name) == Some(kinds[k])
  {
    if k < |kinds| - 1 {
      LastKindIs(kinds[..|kinds| - 1], k);
    }
  }

  lemma KeysDiffer(a: string, x: string, b: string, y: string)
    requires '.' !in a && '.' !in b && WireKey(a, x) == WireKey(b, y)
    ensures a == b && x == y
  {
    AtDotOfKey(a, x);
    AtDotOfKey(b, y);
  }

  lemma {:induction false} AddedTies(expected: map<string, Tie>, kind: string, ties: seq<Tie>, key: string)
    ensures key in AddTies(expected, kind, ties) <==>
      key in expected || exists t :: 0 <= t < |ties| && WireKey(kind, ties[t].name) == key
    ensures key in AddTies(expected, kind, ties) ==>
      || (key in expected && AddTies(expected, kind, ties)[key] == expected[key])
      || (exists t :: 0 <= t < |ties| && WireKey(kind, ties[t].name) == key && AddTies(expected, kind, ties)[key] == ties[t])
  {
    if ties != [] {
      var n := |ties| - 1;
      AddedTies(expected, kind, ties[..n], key);
      assert forall t :: 0 <= t < n ==> ties[..n][t] == ties[t];
    }
  }

  /** Tie ``t`` of kind ``k``, one of these, is wired under this key. */
  predicate KeyedAmong(kinds: seq<Kind>, names: seq<string>, k: nat, t: nat, key: string) {
    k < |kinds| && t < |kinds[k].ties| && kinds[k].name in names && WireKey(kinds[k].name, kinds[k].ties[t].name) == key
  }

  /** Tie ``t`` of kind ``k``, held by the group, is wired under this key. */
  ghost predicate Keyed(s: Scenario, g: Group, k: nat, t: nat, key: string) {
    && k < |s.kinds| && t < |s.kinds[k].ties| && HoldsKind(s, g, s.kinds[k].name)
    && WireKey(s.kinds[k].name, s.kinds[k].ties[t].name) == key
  }

  ghost predicate KindsApart(kinds: seq<Kind>) {
    forall i, j :: 0 <= i < |kinds| && 0 <= j < |kinds| && kinds[i].name == kinds[j].name ==> i == j
  }

  /** Under a key stands the tie of one of the kinds, if there is one. */
  lemma {:induction false} ExpectedAmong(kinds: seq<Kind>, names: seq<string>, key: string)
    requires KindsApart(kinds)
    ensures key in ExpectedOf(kinds, names) <==> exists k: nat, t: nat :: KeyedAmong(kinds, names, k, t, key)
    ensures key in ExpectedOf(kinds, names) ==>
      exists k: nat, t: nat :: KeyedAmong(kinds, names, k, t, key) && ExpectedOf(kinds, names)[key] == kinds[k].ties[t]
  {
    hide WireKey, KindsApart;
    if names != [] {
      var before, last := names[..|names| - 1], names[|names| - 1];
      ExpectedAmong(kinds, before, key);
      forall k: nat, t: nat | KeyedAmong(kinds, before, k, t, key)
        ensures KeyedAmong(kinds, names, k, t, key)
      {
      }
      match LastKind(kinds, last)
      case Some(kind) =>
        var k := LastIs(kinds, last);
        AddedTies(ExpectedOf(kinds, before), last, kind.ties, key);
        assert forall t: nat :: t < |kind.ties| && WireKey(last, kind.ties[t].name) == key ==> KeyedAmong(kinds, names, k, t, key);
        OneMoreKind(kinds, names, k, key);
      case None =>
        NoKindMore(kinds, names, key);
    }
  }

  lemma {:induction false} LastIs(kinds: seq<Kind>, name: string) returns (k: nat)
    requires LastKind(kinds, name).Some?
    ensures k < |kinds| && kinds[k].name == name && LastKind(kinds, name) == Some(kinds[k])
  {
    if kinds[|kinds| - 1].name == name {
      k := |kinds| - 1;
    } else {
      k := LastIs(kinds[..|kinds| - 1], name);
    }
  }

  lemma {:induction false} HasLast(kinds: seq<Kind>, k: nat)
    requires k < |kinds|
    ensures LastKind(kinds, kinds[k].name).Some?
  {
    if k < |kinds| - 1 && kinds[|kinds| - 1].name != kinds[k].name {
      HasLast(kinds[..|kinds| - 1], k);
    }
  }

  lemma OneMoreKind(kinds: seq<Kind>, names: seq<string>, last: nat, key: string)
    requires KindsApart(kinds) && names != [] && last < |kinds| && kinds[last].name == names[|names| - 1]
    ensures forall k: nat, t: nat :: KeyedAmong(kinds, names, k, t, key) ==>
      k == last || KeyedAmong(kinds, names[..|names| - 1], k, t, key)
  {
    hide WireKey;
    assert forall name :: name in names ==> name in names[..|names| - 1] || name == names[|names| - 1];
  }

  lemma NoKindMore(kinds: seq<Kind>, names: seq<string>, key: string)
    requires names != [] && LastKind(kinds, names[|names| - 1]).None?
    ensures forall k: nat, t: nat :: KeyedAmong(kinds, names, k, t, key) ==> KeyedAmong(kinds, names[..|names| - 1], k, t, key)
  {
    hide WireKey;
    forall k: nat, t: nat | KeyedAmong(kinds, names, k, t, key)
      ensures KeyedAmong(kinds, names[..|names| - 1], k, t, key)
    {
      HasLast(kinds, k);
      assert forall name :: name in names ==> name in names[..|names| - 1] || name == names[|names| - 1];
    }
  }

  /** Whatever the order, under a key stands the tie of a held kind, if there is one. */
  lemma ExpectedIs(s: Scenario, g: Group, order: Order, key: string)
    requires Named(s) && OrderOf(s, g, order(g))
    ensures key in Expected(s, g, order) <==> exists k: nat, t: nat :: Keyed(s, g, k, t, key)
    ensures key in Expected(s, g, order) ==>
      exists k: nat, t: nat :: Keyed(s, g, k, t, key) && Expected(s, g, order)[key] == s.kinds[k].ties[t]
  {
    hide HoldsKind, WireKey, ExpectedOf;
    NamesApart(s);
    ExpectedAmong(s.kinds, order(g), key);
    assert forall k: nat, t: nat :: Keyed(s, g, k, t, key) <==> KeyedAmong(s.kinds, order(g), k, t, key);
  }

  /** No other tie of a kind the group holds is wired under this key. */
  ghost predicate OnlyTie(s: Scenario, g: Group, key: string, tie: Tie) {
    forall k: nat, t: nat :: Keyed(s, g, k, t, key) ==> s.kinds[k].ties[t] == tie
  }

  /** Where the group holds no kind with a dot in its name and the kind's ties have names of their own, a key is one tie's. */
  lemma PlainKeyIsOne(s: Scenario, g: Group, k: nat, t: nat)
    requires Named(s) && k < |s.kinds| && t < |s.kinds[k].ties| && DistinctTies(s.kinds[k].ties)
    requires '.' !in s.kinds[k].name
    requires forall m :: 0 <= m < |s.kinds| && HoldsKind(s, g, s.kinds[m].name) ==> '.' !in s.kinds[m].name
    ensures OnlyTie(s, g, WireKey(s.kinds[k].name, s.kinds[k].ties[t].name), s.kinds[k].ties[t])
  {
    hide HoldsKind;
    NamesApart(s);
    forall m: nat, u: nat | Keyed(s, g, m, u, WireKey(s.kinds[k].name, s.kinds[k].ties[t].name))
      ensures s.kinds[m].ties[u] == s.kinds[k].ties[t]
    {
      KeysDiffer(s.kinds[m].name, s.kinds[m].ties[u].name, s.kinds[k].name, s.kinds[k].ties[t].name);
    }
  }

  // ----- the multiplicity count is the number of targets

  lemma {:induction false} ReachedPlus(a: seq<Groups.Instance>, b: seq<Groups.Instance>, kind: string, wired: seq<string>)
    ensures Reached(a + b, kind, wired) == Reached(a, kind, wired) + Reached(b, kind, wired)
  {
    if b == [] {
      assert a + b == a;
    } else {
      var n := |b| - 1;
      assert (a + b)[..|a + b| - 1] == a + b[..n];
      ReachedPlus(a, b[..n], kind, wired);
    }
  }

  lemma {:induction false} ReachedAll(list: seq<Groups.Instance>, kind: string, wired: seq<string>)
    requires forall i :: 0 <= i < |list| ==> list[i].kind == kind && list[i].group in wired
    ensures |Reached(list, kind, wired)| == |list|
  {
    if list != [] {
      ReachedAll(list[..|list| - 1], kind, wired);
    }
  }

  lemma {:induction false} ReachedNone(list: seq<Groups.Instance>, kind: string, wired: seq<string>)
    requires forall i :: 0 <= i < |list| ==> list[i].kind != kind || list[i].group !in wired
    ensures Reached(list, kind, wired) == []
  {
    if list != [] {
      ReachedNone(list[..|list| - 1], kind, wired);
    }
  }

  lemma {:induction false} ReachedInGroup(g: Group, kinds: seq<Kind>, kind: string, wired: seq<string>)
    requires KindsApart(kinds)
    ensures |Reached(Groups.OfGroup(g, kinds), kind, wired)| ==
      if g.path in wired && exists k :: 0 <= k < |kinds| && kinds[k].name == kind then Groups.Count(g, kind) else 0
  {
    if kinds != [] {
      var first := Groups.OfKind(g, kinds[0].name);
      assert forall i, j :: 0 <= i < |kinds[1..]| && 0 <= j < |kinds[1..]| && kinds[1..][i].name == kinds[1..][j].name ==> i == j by {
        assert forall i :: 0 <= i < |kinds[1..]| ==> kinds[1..][i] == kinds[i + 1];
      }
      ReachedInGroup(g, kinds[1..], kind, wired);
      ReachedPlus(first, Groups.OfGroup(g, kinds[1..]), kind, wired);
      if kinds[0].name == kind && g.path in wired {
        ReachedAll(first, kind, wired);
      } else {
        ReachedNone(first, kind, wired);
      }
      assert (exists k :: 0 <= k < |kinds| && kinds[k].name == kind) <==>
        kinds[0].name == kind || exists k :: 0 <= k < |kinds[1..]| && kinds[1..][k].name == kind by {
        if k :| 0 < k < |kinds| && kinds[k].name == kind {
          assert kinds[1..][k - 1].name == kind;
        }
        if k :| 0 <= k < |kinds[1..]| && kinds[1..][k].name == kind {
          assert kinds[k + 1].name == kind;
        }
      }
    }
  }

  /** A wire reaches as many instances as check 1 counts. */
  lemma {:induction false} ReachedIsTotal(groups: seq<Group>, kinds: seq<Kind>, kind: string, wired: seq<string>)
    requires KindsApart(kinds)
    requires exists k :: 0 <= k < |kinds| && kinds[k].name == kind
    ensures |Reached(Groups.OfGroups(groups, kinds), kind, wired)| == Total(groups, kind, wired)
  {
    if groups != [] {
      ReachedIsTotal(groups[1..], kinds, kind, wired);
      ReachedInGroup(groups[0], kinds, kind, wired);
      ReachedPlus(Groups.OfGroup(groups[0], kinds), Groups.OfGroups(groups[1..], kinds), kind, wired);
    }
  }

  // ----- where an instance comes from

  lemma {:induction false} KindOf(g: Group, kinds: seq<Kind>, i: Groups.Instance) returns (k: nat)
    requires i in Groups.OfGroup(g, kinds)
    ensures k < |kinds| && kinds[k].name == i.kind && i.group == g.path && Groups.Count(g, i.kind) > 0
  {
    if i in Groups.OfKind(g, kinds[0].name) {
      k := 0;
    } else {
      k := KindOf(g, kinds[1..], i);
      k := k + 1;
    }
  }

  lemma {:induction false} HomeOf(groups: seq<Group>, kinds: seq<Kind>, i: Groups.Instance) returns (g: nat, k: nat)
    requires i in Groups.OfGroups(groups, kinds)
    ensures g < |groups| && k < |kinds| && kinds[k].name == i.kind && i.group == groups[g].path && Groups.Count(groups[g], i.kind) > 0
  {
    if i in Groups.OfGroup(groups[0], kinds) {
      g := 0;
      k := KindOf(groups[0], kinds, i);
    } else {
      g, k := HomeOf(groups[1..], kinds, i);
      g := g + 1;
    }
  }

  lemma CountIsHeld(s: Scenario, g: Group, k: nat)
    requires k < |s.kinds| && Groups.Count(g, s.kinds[k].name) > 0
    ensures HoldsKind(s, g, s.kinds[k].name)
  {
    var n := Lookup(g.instances, s.kinds[k].name).value;
    var e :| 0 <= e < |g.instances| && g.instances[e] == (s.kinds[k].name, n);
  }

  /** As many targets as the tie allows. */
  predicate Allows(m: Multiplicity, n: nat) {
    (m.Single? ==> n == 1) && (m.Optional? ==> n <= 1)
  }

  /** Whatever allows ``counted`` as many targets as it has allows ``built`` as many as it has. */
  predicate Stands(counted: Tie, built: Tie) {
    || built.multiplicity.Multiple?
    || (counted.targetKind == built.targetKind && (counted.multiplicity.Single? || counted.multiplicity == built.multiplicity))
  }

  /** Every tie of a held kind under this key stands for ``tie``. */
  ghost predicate AllStand(s: Scenario, g: Group, key: string, tie: Tie) {
    forall k: nat, t: nat :: Keyed(s, g, k, t, key) ==> Stands(s.kinds[k].ties[t], tie)
  }

  /**
   * What a clean check 1 says of the first tie of a name of a kind a group holds, which is the one a
   * program is built from: it is wired, and, if the tie counted under its key stands for it, as often as it allows.
   */
  lemma CleanTie(s: Scenario, order: Order, g: nat, k: nat, t: nat)
    requires TiesAreClean(s, order)
    requires g < |s.groups| && k < |s.kinds| && t < |s.kinds[k].ties| && Groups.Count(s.groups[g], s.kinds[k].name) > 0
    ensures var group, kind := s.groups[g], s.kinds[k];
            var tie, key := FindTie(kind.ties, kind.ties[t].name), WireKey(kind.name, kind.ties[t].name);
            var targets := TargetsOf(s, group.path, kind.name, kind.ties[t].name);
            && tie.Some? && key in Expected(s, group, order) && Has(group.wiring, key) && targets.Some?
            && (Stands(Expected(s, group, order)[key], tie.value) ==> Allows(tie.value.multiplicity, |targets.value|))
            && (AllStand(s, group, key, tie.value) ==> Allows(tie.value.multiplicity, |targets.value|))
  {
    hide WireDiagnostics, Expected, GroupDiagnostics, CountDiagnostics, WiresDiagnostics, Reached, Total,
         FindGroup, FindKind, WireOf, HoldsKind, WireKey, KindDiagnostics, Keyed;
    var group, kind := s.groups[g], s.kinds[k];
    var j := FindTieIs(kind.ties, t);
    var tie, key := kind.ties[j], WireKey(kind.name, kind.ties[t].name);
    CleanGroup(s, order, s.groups, g);
    CleanWires(s, group, order);
    CountIsHeld(s, group, k);
    ExpectedIs(s, group, order, key);
    assert Keyed(s, group, k, t, key) by {
      IsKeyed(s, group, k, t);
    }
    var w := KeyIsWired(s, group, order, key);
    CleanWire(s, group, order, group.wiring, w);
    KnownTargets(s, s.kinds, k, j);
    NamesApart(s);
    WireFound(s, g, k, t, w);
    ReachedIsTotal(s.groups, s.kinds, tie.targetKind, group.wiring[w].1);
    var counted := Expected(s, group, order)[key];
    if Stands(counted, tie) && !tie.multiplicity.Multiple? {
      CleanTotal(s, group, order, key, counted, group.wiring[w].1);
    }
  }

  lemma IsKeyed(s: Scenario, g: Group, k: nat, t: nat)
    requires k < |s.kinds| && t < |s.kinds[k].ties| && HoldsKind(s, g, s.kinds[k].name)
    ensures Keyed(s, g, k, t, WireKey(s.kinds[k].name, s.kinds[k].ties[t].name))
  {
  }

  lemma CleanWires(s: Scenario, g: Group, order: Order)
    requires GroupDiagnostics(s, g, order) == []
    ensures WiresDiagnostics(s, g, order, g.wiring) == []
  {
    hide Expected, WiresDiagnostics, CountDiagnostics;
  }

  lemma CleanTotal(s: Scenario, g: Group, order: Order, key: string, tie: Tie, wired: seq<string>)
    requires WireDiagnostics(s, g, order, key, wired) == [] && key in Expected(s, g, order) && Expected(s, g, order)[key] == tie
        && IsKind(s, tie.targetKind)
    ensures Allows(tie.multiplicity, Total(s.groups, tie.targetKind, wired))
  {
    hide Expected, Total, UnknownGroups, StrayDiagnostics;
  }

  lemma KeyIsWired(s: Scenario, g: Group, order: Order, key: string) returns (w: nat)
    requires GroupDiagnostics(s, g, order) == [] && key in Expected(s, g, order)
    ensures w < |g.wiring| && g.wiring[w].0 == key
  {
    hide Expected;
    var keys := Expected(s, g, order).Keys - set e | e in g.wiring :: e.0;
    assert |Unwired(g.path, SortedSeq(keys))| == 0;
    assert key !in SortedSeq(keys);
    var e :| e in g.wiring && e.0 == key;
    w :| w < |g.wiring| && g.wiring[w] == e;
  }

  lemma WireFound(s: Scenario, g: nat, k: nat, t: nat, w: nat)
    requires Named(s) && g < |s.groups| && k < |s.kinds| && t < |s.kinds[k].ties| && w < |s.groups[g].wiring|
    requires s.groups[g].wiring[w].0 == WireKey(s.kinds[k].name, s.kinds[k].ties[t].name)
    ensures var tie := FindTie(s.kinds[k].ties, s.kinds[k].ties[t].name);
            tie.Some? &&
            WireOf(s, s.groups[g].path, s.kinds[k].name, s.kinds[k].ties[t].name) == Some((tie.value, s.groups[g].wiring[w].1))
    ensures Has(s.groups[g].wiring, WireKey(s.kinds[k].name, s.kinds[k].ties[t].name))
  {
    NamesApart(s);
    FindGroupIs(s.groups, g);
    FindKindIs(s.kinds, k);
    var _ := FindTieIs(s.kinds[k].ties, t);
    LookupAt(s.groups[g].wiring, w);
  }
}
