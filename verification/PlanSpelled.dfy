/** What the planners read off a scenario, in the scenario's own terms. */
module PlanSpelled {
  import opened Wrappers
  import opened Ir
  import Addressing
  import Groups
  import Programs
  import Routing

  // ----- instances

  /** The group counts this many of the kind: by the entry that has it first. */
  ghost predicate Counted(g: Group, kind: string, n: int) {
    exists e :: 0 <= e < |g.instances| && g.instances[e] == (kind, n) && forall d :: 0 <= d < e ==> g.instances[d].0 != kind
  }

  /** An instance of a kind a group counts, numbered from 0. */
  ghost predicate IsInstance(s: Scenario, i: Groups.Instance, g: nat, k: nat, n: nat) {
    && g < |s.groups| && k < |s.kinds| && i.group == s.groups[g].path && i.kind == s.kinds[k].name
    && i.id == i.group + "/" + i.kind + "[" + Decimal(n) + "]"
    && exists c :: Counted(s.groups[g], i.kind, c) && n < c
  }

  lemma {:induction false} FoundAt<V>(m: OrderedMap<string, V>, key: string, e: nat)
    requires e < |m| && m[e].0 == key && forall d :: 0 <= d < e ==> m[d].0 != key
    ensures Lookup(m, key) == Some(m[e].1)
  {
    if e > 0 {
      assert m[0].0 != key;
      FoundAt(m[1..], key, e - 1);
    }
  }

  lemma {:induction false} FoundFrom<V>(m: OrderedMap<string, V>, key: string) returns (e: nat)
    requires Lookup(m, key).Some?
    ensures e < |m| && m[e] == (key, Lookup(m, key).value) && forall d :: 0 <= d < e ==> m[d].0 != key
  {
    e := 0;
    if m[0].0 == key {
      assert m[0] == (key, m[0].1);
    } else {
      e := FoundFrom(m[1..], key);
      assert forall d :: 0 < d < e + 1 ==> m[d] == m[1..][d - 1];
      e := e + 1;
    }
  }

  /** A look-up finds the first entry of a key. */
  lemma FirstOf<V(!new)>(m: OrderedMap<string, V>, key: string)
    ensures forall v :: Lookup(m, key) == Some(v) <==>
      exists e :: 0 <= e < |m| && m[e] == (key, v) && forall d :: 0 <= d < e ==> m[d].0 != key
  {
    if Lookup(m, key).Some? {
      var e := FoundFrom(m, key);
    }
    forall e | 0 <= e < |m| && m[e].0 == key && forall d :: 0 <= d < e ==> m[d].0 != key
      ensures Lookup(m, key) == Some(m[e].1)
    {
      FoundAt(m, key, e);
    }
  }

  lemma CountIs(g: Group, kind: string, n: nat)
    ensures n < Groups.Count(g, kind) <==> exists c :: Counted(g, kind, c) && n < c
  {
    FirstOf(g.instances, kind);
    forall c
      ensures Counted(g, kind, c) <==> Lookup(g.instances, kind) == Some(c)
    {
    }
  }

  /** Number ``n`` of a kind in a group. */
  predicate Numbered(g: Group, kinds: seq<Kind>, i: Groups.Instance, k: nat, n: nat) {
    && k < |kinds| && n < Groups.Count(g, kinds[k].name)
    && i == Groups.Instance(g.path, kinds[k].name, Groups.InstanceId(g.path, kinds[k].name, n))
  }

  lemma {:induction false} OfGroupIs(g: Group, kinds: seq<Kind>, i: Groups.Instance)
    ensures i in Groups.OfGroup(g, kinds) <==> exists k: nat, n: nat :: Numbered(g, kinds, i, k, n)
  {
    hide Groups.Count;
    if kinds != [] {
      var first, rest := Groups.OfKind(g, kinds[0].name), kinds[1..];
      OfGroupIs(g, rest, i);
      if i in first {
        var n: nat :| n < |first| && first[n] == i;
        assert Numbered(g, kinds, i, 0, n);
      }
      if k: nat, n: nat :| Numbered(g, rest, i, k, n) {
        assert Numbered(g, kinds, i, k + 1, n);
      }
      if k: nat, n: nat :| Numbered(g, kinds, i, k, n) {
        if k > 0 {
          assert Numbered(g, rest, i, k - 1, n);
        } else {
          assert first[n] == i;
        }
      }
    }
  }

  lemma {:induction false} OfGroupsIs(groups: seq<Group>, kinds: seq<Kind>, i: Groups.Instance)
    ensures i in Groups.OfGroups(groups, kinds) <==> exists g :: 0 <= g < |groups| && i in Groups.OfGroup(groups[g], kinds)
  {
    if groups != [] {
      OfGroupsIs(groups[1..], kinds, i);
      assert forall g :: 0 <= g < |groups[1..]| ==> groups[1..][g] == groups[g + 1];
      assert i in Groups.OfGroups(groups, kinds) <==> i in Groups.OfGroup(groups[0], kinds) || i in Groups.OfGroups(groups[1..], kinds);
      if g :| 0 < g < |groups| && i in Groups.OfGroup(groups[g], kinds) {
        assert groups[1..][g - 1] == groups[g];
      }
    }
  }

  /** The instances are one for each group, kind and number below the group's count of the kind, called after all three. */
  lemma InstancesAre(s: Scenario, i: Groups.Instance)
    ensures i in Groups.InstanceIds(s) <==> exists g: nat, k: nat, n: nat :: IsInstance(s, i, g, k, n)
  {
    hide Groups.Count, Groups.OfGroup, Groups.OfGroups;
    OfGroupsIs(s.groups, s.kinds, i);
    forall g | 0 <= g < |s.groups|
      ensures i in Groups.OfGroup(s.groups[g], s.kinds) <==> exists k: nat, n: nat :: IsInstance(s, i, g, k, n)
    {
      OfGroupIs(s.groups[g], s.kinds, i);
      forall k: nat, n: nat | k < |s.kinds|
        ensures IsInstance(s, i, g, k, n) <==> Numbered(s.groups[g], s.kinds, i, k, n)
      {
        CountIs(s.groups[g], s.kinds[k].name, n);
      }
    }
  }

  /** The forwarders are the instances of a kind that is said to forward. */
  lemma ForwardersAre(s: Scenario, id: string)
    ensures id in Groups.Forwarders(s) <==>
      exists i, k: nat :: i in Groups.InstanceIds(s) && i.id == id && k < |s.kinds| && s.kinds[k].name == i.kind && s.kinds[k].forwards
  {
    hide Groups.InstanceIds;
    var all := Groups.InstanceIds(s);
    if id in Groups.Forwarders(s) {
      var n :| 0 <= n < |all| && all[n].id == id && Groups.KindForwards(s.kinds, all[n].kind);
      assert all[n] in all;
      var k :| 0 <= k < |s.kinds| && s.kinds[k].name == all[n].kind && s.kinds[k].forwards;
    }
    if i, k: nat :| i in all && i.id == id && k < |s.kinds| && s.kinds[k].name == i.kind && s.kinds[k].forwards {
      var n :| 0 <= n < |all| && all[n] == i;
      assert Groups.KindForwards(s.kinds, all[n].kind);
    }
  }

  /** The data plane's segments are those said to be on it. */
  lemma DataAre(t: Topology, x: string)
    ensures x in DataSegments(t) <==> exists k :: 0 <= k < |t.segments| && t.segments[k].name == x && t.segments[k].plane == Data
  {
  }

  // ----- members

  /** The last group of this path attaches the kind, by its first entry for it, to segments of which this is one. */
  ghost predicate Attached(groups: seq<Group>, path: string, kind: string, x: string) {
    exists g: nat, e: nat :: AttachedBy(groups, path, kind, x, g, e)
  }

  ghost predicate AttachedBy(groups: seq<Group>, path: string, kind: string, x: string, g: nat, e: nat) {
    && g < |groups| && groups[g].path == path && (forall h :: g < h < |groups| ==> groups[h].path != path)
    && e < |groups[g].attachments| && groups[g].attachments[e].0 == kind && x in groups[g].attachments[e].1
    && forall d :: 0 <= d < e ==> groups[g].attachments[d].0 != kind
  }

  lemma {:induction false} AttachmentsAre(groups: seq<Group>, path: string) returns (g: nat)
    ensures g <= |groups| && forall h :: g < h < |groups| ==> groups[h].path != path
    ensures if g < |groups| then groups[g].path == path && Addressing.AttachmentsOf(groups, path) == groups[g].attachments
            else Addressing.AttachmentsOf(groups, path) == [] && forall h :: 0 <= h < |groups| ==> groups[h].path != path
  {
    var n := |groups| - 1;
    if groups == [] {
      g := 0;
    } else if groups[n].path == path {
      g := n;
    } else {
      g := AttachmentsAre(groups[..n], path);
      if g == n {
        g := |groups|;
      }
    }
  }

  /** A segment's members are the instances its plane or their group's attachments put on it: everyone is on management. */
  lemma MembersAre(s: Scenario, seg: Segment, id: string)
    ensures id in Addressing.Members(s, seg) <==>
      exists i :: i in Groups.InstanceIds(s) && i.id == id && (seg.plane == Management || Attached(s.groups, i.group, i.kind, seg.name))
  {
    hide Groups.InstanceIds, Addressing.Joins, Attached;
    var all := Groups.InstanceIds(s);
    Addressing.JoiningMember(s, all, seg, id);
    forall i
      ensures Addressing.Joins(s, i, seg) <==> seg.plane == Management || Attached(s.groups, i.group, i.kind, seg.name)
    {
      JoinsIs(s, i, seg);
    }
    if i :| i in all && i.id == id && Addressing.Joins(s, i, seg) {
      var k :| 0 <= k < |all| && all[k] == i;
    }
    if k :| 0 <= k < |all| && all[k].id == id && Addressing.Joins(s, all[k], seg) {
      assert all[k] in all;
    }
  }

  lemma JoinsIs(s: Scenario, i: Groups.Instance, seg: Segment)
    ensures Addressing.Joins(s, i, seg) <==> seg.plane == Management || Attached(s.groups, i.group, i.kind, seg.name)
  {
    hide Addressing.AttachmentsOf, AttachedBy;
    var g := AttachmentsAre(s.groups, i.group);
    var attachments := Addressing.AttachmentsOf(s.groups, i.group);
    if g: nat, e: nat :| AttachedBy(s.groups, i.group, i.kind, seg.name, g, e) {
      AttachedIsFound(s.groups, i.group, i.kind, seg.name, g, e);
    }
    if Lookup(attachments, i.kind).Some? && seg.name in Lookup(attachments, i.kind).value {
      FoundIsAttached(s.groups, i.group, i.kind, seg.name, g);
    }
  }

  lemma AttachedIsFound(groups: seq<Group>, path: string, kind: string, x: string, g: nat, e: nat)
    requires AttachedBy(groups, path, kind, x, g, e)
    ensures Lookup(Addressing.AttachmentsOf(groups, path), kind).Some? && x in Lookup(Addressing.AttachmentsOf(groups, path), kind).value
  {
    hide Addressing.AttachmentsOf;
    var h := AttachmentsAre(groups, path);
    assert h == g;
    FoundAt(groups[g].attachments, kind, e);
  }

  lemma FoundIsAttached(groups: seq<Group>, path: string, kind: string, x: string, g: nat)
    requires g <= |groups| && forall h :: g < h < |groups| ==> groups[h].path != path
    requires if g < |groups| then groups[g].path == path && Addressing.AttachmentsOf(groups, path) == groups[g].attachments
             else Addressing.AttachmentsOf(groups, path) == []
    requires Lookup(Addressing.AttachmentsOf(groups, path), kind).Some? && x in Lookup(Addressing.AttachmentsOf(groups, path), kind).value
    ensures exists e: nat :: AttachedBy(groups, path, kind, x, g, e)
  {
    hide Addressing.AttachmentsOf;
    var e := FoundFrom(Addressing.AttachmentsOf(groups, path), kind);
    assert AttachedBy(groups, path, kind, x, g, e);
  }

  // ----- usable segments

  /** Segment ``k`` is the first of its name, has a prefix of these addresses, and four of them or more. */
  ghost predicate UsableAt(t: Topology, k: nat, x: string, n: Network) {
    && k < |t.segments| && t.segments[k].name == x && t.segments[k].cidr == Some(n) && n.size >= 4
    && forall j :: 0 <= j < k ==> t.segments[j].name != x
  }

  lemma {:induction false} DefinitionsAre(segments: seq<Segment>, d: Segment)
    ensures d in Addressing.FirstDefinitions(segments) <==>
      exists k :: 0 <= k < |segments| && segments[k] == d && forall j :: 0 <= j < k ==> segments[j].name != d.name
  {
    if segments != [] {
      var n := |segments| - 1;
      var before := segments[..n];
      DefinitionsAre(before, d);
      if k :| 0 <= k < n && before[k] == d && forall j :: 0 <= j < k ==> before[j].name != d.name {
        assert segments[k] == d && forall j :: 0 <= j < k ==> segments[j] == before[j];
      }
      if k :| 0 <= k < |segments| && segments[k] == d && forall j :: 0 <= j < k ==> segments[j].name != d.name {
        assert k < n ==> before[k] == d && forall j :: 0 <= j < k ==> before[j] == segments[j];
      }
    }
  }

  lemma {:induction false} PrefixesAre(defs: seq<Segment>, x: string, n: Network)
    ensures (x, n) in Addressing.Prefixes(defs) <==> exists d :: d in defs && d.name == x && d.cidr == Some(n)
  {
    if defs != [] {
      PrefixesAre(defs[..|defs| - 1], x, n);
      assert forall d :: d in defs <==> d in defs[..|defs| - 1] || d == defs[|defs| - 1];
    }
  }

  lemma {:induction false} UsableOf(parsed: OrderedMap<string, Network>, x: string, n: Network)
    ensures (x, n) in Addressing.Usable(parsed) <==> (x, n) in parsed && n.size >= 4
  {
    if parsed != [] {
      UsableOf(parsed[..|parsed| - 1], x, n);
      assert forall e :: e in parsed <==> e in parsed[..|parsed| - 1] || e == parsed[|parsed| - 1];
    }
  }

  /** A segment is usable by its first definition, with a prefix of at least four addresses. */
  lemma UsableAre(t: Topology, x: string, n: Network)
    ensures (x, n) in Addressing.UsableSegments(t) <==> exists k: nat :: UsableAt(t, k, x, n)
  {
    hide Addressing.FirstDefinitions, Addressing.Prefixes, Addressing.Usable;
    var defs := Addressing.FirstDefinitions(t.segments);
    UsableOf(Addressing.Prefixes(defs), x, n);
    PrefixesAre(defs, x, n);
    if (x, n) in Addressing.UsableSegments(t) {
      var d :| d in defs && d.name == x && d.cidr == Some(n);
      DefinitionsAre(t.segments, d);
      var k :| 0 <= k < |t.segments| && t.segments[k] == d && forall j :: 0 <= j < k ==> t.segments[j].name != d.name;
      assert UsableAt(t, k, x, n);
    }
    if k: nat :| UsableAt(t, k, x, n) {
      DefinitionsAre(t.segments, t.segments[k]);
      assert t.segments[k] in defs;
    }
  }

  // ----- pins

  /** Segment ``x`` is usable with prefix ``n``, the instance is on it, and the address is one of the prefix. */
  ghost predicate CouldSit(s: Scenario, t: Topology, id: string, a: Address, x: string, n: Network) {
    && (x, n) in Addressing.UsableSegments(t) && n.base <= a < n.base + n.size
    && x in Addressing.MemberLists(s, t) && id in Addressing.MemberLists(s, t)[x]
  }

  /** What becomes of a pin, whatever else is planned: why it is refused, or who else has the address, or that it is honoured. */
  lemma PinVerdict(s: Scenario, t: Topology, plan: AddressPlan, problems: seq<Addressing.Problem>, p: nat)
    requires Addressing.Planned(s, t, plan, problems) && p < |t.pins|
    ensures var (id, text) := t.pins[p];
            && (id !in plan.addresses ==> Addressing.PinUnknown(id) in problems)
            && (id in plan.addresses && text.None? ==> Addressing.PinMalformed(id) in problems)
            && (id in plan.addresses && text.Some? && (forall x, n :: !CouldSit(s, t, id, text.value, x, n)) ==>
                  Addressing.PinNowhere(id) in problems)
    ensures var (id, text) := t.pins[p];
            id in plan.addresses && text.Some? && (exists x, n :: CouldSit(s, t, id, text.value, x, n)) ==>
              exists x, n :: CouldSit(s, t, id, text.value, x, n)
                && if text.value == n.base || text.value == n.base + n.size - 1 then Addressing.PinNotAHost(id) in problems
                   else || Addressing.On(plan.addresses, id, x) == text
                        || (&& Addressing.PinTaken(id) in problems
                            && (text.value == n.base + 1
                                || exists j :: j != id && Addressing.On(plan.addresses, j, x) == text))
  {
    hide Addressing.Sound, Addressing.UsableSegments, Addressing.MemberLists, Addressing.Complete, Addressing.SurveyProblems,
         Addressing.RoomProblems;
    var (id, text) := t.pins[p];
    var usable, members := Addressing.UsableSegments(t), Addressing.MemberLists(s, t);
    assert Addressing.Settled(usable, members, plan.addresses, problems, id, text);
    if id in plan.addresses && text.Some? {
      var home := Addressing.Home(usable, members, id, text.value);
      if home.None? {
        forall x, n
          ensures !CouldSit(s, t, id, text.value, x, n)
        {
          var e := (x, n);
          assert e in usable && e.0 in members && id in members[e.0] ==> !Addressing.Covers(e.1, text.value);
        }
      } else {
        assert CouldSit(s, t, id, text.value, home.value.0, home.value.1);
      }
    }
  }
}
