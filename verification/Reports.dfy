/** What checks 1 and 10 report, finding by finding: each exactly where its condition holds. */
module Reports {
  import opened Wrappers
  import opened Ir
  import opened Ordering
  import opened Checks
  import opened CheckPlans
  import Groups

  // ----- a key, cut

  /** A key without a dot is all kind; any other is cut at its first. */
  lemma {:induction false} AtDotIs(key: string)
    ensures var (kind, tie) := AtDot(key);
            '.' !in kind && if '.' in key then key == kind + "." + tie else kind == key && tie == ""
  {
    if key != "" && key[0] != '.' {
      AtDotIs(key[1..]);
      assert key == [key[0]] + key[1..];
    } else if key != "" {
      assert key == "" + "." + key[1..];
    }
  }

  // ----- check 1

  /** Some kind of this name has a tie of this one, to a kind nobody is of. */
  ghost predicate BadTarget(s: Scenario, kind: string, tie: string) {
    exists k, t :: 0 <= k < |s.kinds| && 0 <= t < |s.kinds[k].ties| && s.kinds[k].name == kind && s.kinds[k].ties[t].name == tie
                   && !IsKind(s, s.kinds[k].ties[t].targetKind)
  }

  /** What is wrong with a wire, by its group, key and groups. */
  ghost predicate BadWire(s: Scenario, g: Group, order: Order, key: string, wired: seq<string>, d: Diagnostic) {
    if key !in Expected(s, g, order) then
      var (kind, tie) := AtDot(key);
      || (d == HoldsNone(g.path, key) && !HoldsKind(s, g, kind))
      || (d == NoSuchTie(g.path, key) && HoldsKind(s, g, kind)
          && exists k: nat :: IsLastKind(s, k, kind) && forall t :: 0 <= t < |s.kinds[k].ties| ==> s.kinds[k].ties[t].name != tie)
    else
      var tie := Expected(s, g, order)[key];
      var total := Total(s.groups, tie.targetKind, wired);
      && IsKind(s, tie.targetKind)
      && (|| (d == WiredToNone(g.path, key) && wired == [])
          || (exists w :: w in wired && d == UnknownGroup(g.path, key, w) && !IsGroup(s, w))
          || (d == NotExactlyOne(g.path, key, total) && tie.multiplicity == Single && total != 1 && AllGroups(s, wired))
          || (d == MoreThanOne(g.path, key, total) && tie.multiplicity == Optional && total > 1 && AllGroups(s, wired)))
  }

  ghost predicate AllGroups(s: Scenario, wired: seq<string>) {
    wired != [] && forall w :: w in wired ==> IsGroup(s, w)
  }

  ghost predicate IsLastKind(s: Scenario, k: nat, name: string) {
    k < |s.kinds| && s.kinds[k].name == name && forall j :: k < j < |s.kinds| ==> s.kinds[j].name != name
  }

  /** What is wrong with a group. */
  ghost predicate BadGroup(s: Scenario, g: Group, order: Order, d: Diagnostic) {
    || (exists e :: 0 <= e < |g.instances| && d == UnknownKind(g.path, g.instances[e].0) && !IsKind(s, g.instances[e].0))
    || (exists e :: 0 <= e < |g.instances| && d == NegativeCount(g.path, g.instances[e].0) && IsKind(s, g.instances[e].0)
                    && g.instances[e].1 < 0)
    || (exists key :: key in Expected(s, g, order) && d == NotWired(g.path, key)
                      && forall w :: 0 <= w < |g.wiring| ==> g.wiring[w].0 != key)
    || (exists w :: 0 <= w < |g.wiring| && BadWire(s, g, order, g.wiring[w].0, g.wiring[w].1, d))
  }

  /** Check 1 reports exactly what is wrong with the ties' targets and with some group. */
  lemma TieFindings(s: Scenario, order: Order, d: Diagnostic)
    ensures d in CheckTies(s, order) <==>
      || (d.UnknownTargetKind? && BadTarget(s, d.kind, d.tie))
      || exists g :: 0 <= g < |s.groups| && BadGroup(s, s.groups[g], order, d)
  {
    hide KindDiagnostics, GroupsDiagnostics, BadGroup;
    KindsReported(s, s.kinds, d);
    GroupsReported(s, order, s.groups, d);
  }

  lemma {:induction false} TargetsReported(s: Scenario, kind: string, ties: seq<Tie>, d: Diagnostic)
    ensures d in UnknownTargets(s, kind, ties) <==>
      exists t :: 0 <= t < |ties| && d == UnknownTargetKind(kind, ties[t].name) && !IsKind(s, ties[t].targetKind)
  {
    if ties != [] {
      var rest := ties[1..];
      TargetsReported(s, kind, rest, d);
      if t :| 0 <= t < |rest| && d == UnknownTargetKind(kind, rest[t].name) && !IsKind(s, rest[t].targetKind) {
        assert ties[t + 1] == rest[t];
      }
      if t :| 0 < t < |ties| && d == UnknownTargetKind(kind, ties[t].name) && !IsKind(s, ties[t].targetKind) {
        assert rest[t - 1] == ties[t];
      }
    }
  }

  lemma {:induction false} KindsReported(s: Scenario, kinds: seq<Kind>, d: Diagnostic)
    ensures d in KindDiagnostics(s, kinds) <==>
      d.UnknownTargetKind? &&
      exists k, t :: 0 <= k < |kinds| && 0 <= t < |kinds[k].ties| && kinds[k].name == d.kind && kinds[k].ties[t].name == d.tie
                     && !IsKind(s, kinds[k].ties[t].targetKind)
  {
    hide IsKind;
    if kinds != [] {
      var rest := kinds[1..];
      KindsReported(s, rest, d);
      TargetsReported(s, kinds[0].name, kinds[0].ties, d);
      assert forall k :: 0 <= k < |rest| ==> rest[k] == kinds[k + 1];
      if d.UnknownTargetKind? {
        if k, t :| 0 <= k < |rest| && 0 <= t < |rest[k].ties| && rest[k].name == d.kind && rest[k].ties[t].name == d.tie
                   && !IsKind(s, rest[k].ties[t].targetKind) {
          assert kinds[k + 1].ties[t].name == d.tie;
        }
        if k, t :| 0 < k < |kinds| && 0 <= t < |kinds[k].ties| && kinds[k].name == d.kind && kinds[k].ties[t].name == d.tie
                   && !IsKind(s, kinds[k].ties[t].targetKind) {
          assert rest[k - 1].ties[t].name == d.tie;
        }
      }
    }
  }

  lemma {:induction false} GroupsReported(s: Scenario, order: Order, groups: seq<Group>, d: Diagnostic)
    ensures d in GroupsDiagnostics(s, order, groups) <==> exists g :: 0 <= g < |groups| && BadGroup(s, groups[g], order, d)
  {
    hide BadGroup, GroupDiagnostics;
    if groups != [] {
      var rest := groups[1..];
      GroupsReported(s, order, rest, d);
      GroupReported(s, groups[0], order, d);
      if g :| 0 <= g < |rest| && BadGroup(s, rest[g], order, d) {
        assert groups[g + 1] == rest[g];
      }
      if g :| 0 < g < |groups| && BadGroup(s, groups[g], order, d) {
        assert rest[g - 1] == groups[g];
      }
    }
  }

  lemma GroupReported(s: Scenario, g: Group, order: Order, d: Diagnostic)
    ensures d in GroupDiagnostics(s, g, order) <==> BadGroup(s, g, order, d)
  {
    hide BadWire, Expected, CountDiagnostics, WiresDiagnostics;
    CountsReported(s, g.path, g.instances, d);
    WiresReported(s, g, order, g.wiring, d);
    UnwiredReported(g, Expected(s, g, order), d);
  }

  lemma UnwiredReported(g: Group, expected: map<string, Tie>, d: Diagnostic)
    ensures d in Unwired(g.path, SortedSeq(expected.Keys - set e | e in g.wiring :: e.0)) <==>
      exists key :: key in expected && d == NotWired(g.path, key) && forall w :: 0 <= w < |g.wiring| ==> g.wiring[w].0 != key
  {
    var keys := SortedSeq(expected.Keys - set e | e in g.wiring :: e.0);
    var found := Unwired(g.path, keys);
    if d in found {
      var k :| 0 <= k < |found| && found[k] == d;
      assert keys[k] in keys;
      assert forall w :: 0 <= w < |g.wiring| ==> g.wiring[w] in g.wiring;
    }
    if key :| key in expected && d == NotWired(g.path, key) && forall w :: 0 <= w < |g.wiring| ==> g.wiring[w].0 != key {
      assert key in keys;
      var k :| 0 <= k < |keys| && keys[k] == key;
      assert found[k] == d;
    }
  }

  lemma {:induction false} CountsReported(s: Scenario, path: string, instances: OrderedMap<string, int>, d: Diagnostic)
    ensures d in CountDiagnostics(s, path, instances) <==>
      || (exists e :: 0 <= e < |instances| && d == UnknownKind(path, instances[e].0) && !IsKind(s, instances[e].0))
      || (exists e :: 0 <= e < |instances| && d == NegativeCount(path, instances[e].0) && IsKind(s, instances[e].0) && instances[e].1 < 0)
  {
    hide IsKind;
    if instances != [] {
      var rest := instances[1..];
      CountsReported(s, path, rest, d);
      assert forall e :: 0 <= e < |rest| ==> rest[e] == instances[e + 1];
      assert forall e :: 0 < e < |instances| ==> instances[e] == rest[e - 1];
    }
  }

  lemma {:induction false} WiresReported(s: Scenario, g: Group, order: Order, wiring: OrderedMap<string, seq<string>>, d: Diagnostic)
    ensures d in WiresDiagnostics(s, g, order, wiring) <==>
      exists w :: 0 <= w < |wiring| && BadWire(s, g, order, wiring[w].0, wiring[w].1, d)
  {
    hide BadWire, WireDiagnostics;
    if wiring != [] {
      var rest := wiring[1..];
      WiresReported(s, g, order, rest, d);
      WireReported(s, g, order, wiring[0].0, wiring[0].1, d);
      if w :| 0 <= w < |rest| && BadWire(s, g, order, rest[w].0, rest[w].1, d) {
        assert wiring[w + 1] == rest[w];
      }
      if w :| 0 < w < |wiring| && BadWire(s, g, order, wiring[w].0, wiring[w].1, d) {
        assert rest[w - 1] == wiring[w];
      }
    }
  }

  lemma WireReported(s: Scenario, g: Group, order: Order, key: string, wired: seq<string>, d: Diagnostic)
    ensures d in WireDiagnostics(s, g, order, key, wired) <==> BadWire(s, g, order, key, wired, d)
  {
    hide Expected, Total, HoldsKind, IsKind, IsGroup, AtDot;
    if key !in Expected(s, g, order) {
      var (kind, tie) := AtDot(key);
      LastKindAt(s, kind);
    } else {
      GroupsUnknown(s, g.path, key, wired, d);
      NoneUnknownIff(s, g.path, key, wired);
    }
  }

  lemma LastKindAt(s: Scenario, name: string)
    ensures HoldsName(s, name) ==> LastKind(s.kinds, name).Some?
    ensures forall k: nat :: IsLastKind(s, k, name) ==> LastKind(s.kinds, name) == Some(s.kinds[k])
    ensures LastKind(s.kinds, name).Some? ==> exists k: nat :: IsLastKind(s, k, name)
  {
    LastKindOf(s.kinds, name);
    if LastKind(s.kinds, name).Some? {
      var k :| 0 <= k < |s.kinds| && s.kinds[k].name == name && LastKind(s.kinds, name) == Some(s.kinds[k])
               && forall j :: k < j < |s.kinds| ==> s.kinds[j].name != name;
      assert IsLastKind(s, k, name);
    }
  }

  predicate HoldsName(s: Scenario, name: string) {
    exists k :: 0 <= k < |s.kinds| && s.kinds[k].name == name
  }

  lemma {:induction false} LastKindOf(kinds: seq<Kind>, name: string)
    ensures LastKind(kinds, name).None? <==> forall k :: 0 <= k < |kinds| ==> kinds[k].name != name
    ensures LastKind(kinds, name).Some? ==>
      exists k :: 0 <= k < |kinds| && kinds[k].name == name && LastKind(kinds, name) == Some(kinds[k])
                  && forall j :: k < j < |kinds| ==> kinds[j].name != name
  {
    if kinds != [] && kinds[|kinds| - 1].name != name {
      var n := |kinds| - 1;
      LastKindOf(kinds[..n], name);
      assert forall k :: 0 <= k < n ==> kinds[..n][k] == kinds[k];
    }
  }

  lemma {:induction false} GroupsUnknown(s: Scenario, path: string, key: string, wired: seq<string>, d: Diagnostic)
    ensures d in UnknownGroups(s, path, key, wired) <==> exists w :: w in wired && d == UnknownGroup(path, key, w) && !IsGroup(s, w)
  {
    hide IsGroup;
    if wired != [] {
      GroupsUnknown(s, path, key, wired[1..], d);
      assert forall w :: w in wired <==> w == wired[0] || w in wired[1..];
    }
  }

  lemma {:induction false} NoneUnknownIff(s: Scenario, path: string, key: string, wired: seq<string>)
    ensures UnknownGroups(s, path, key, wired) == [] <==> forall w :: w in wired ==> IsGroup(s, w)
  {
    hide IsGroup;
    if wired != [] {
      NoneUnknownIff(s, path, key, wired[1..]);
      assert forall w :: w in wired <==> w == wired[0] || w in wired[1..];
    }
  }

  // ----- check 10: overlaps and attachments

  /** Two data segments, the first defined before the second, and an address of both. */
  ghost predicate ShareAddress(a: Segment, b: Segment) {
    && a.plane == Data && b.plane == Data && a.cidr.Some? && b.cidr.Some?
    && exists x: Address :: IsOf(a.cidr.value, x) && IsOf(b.cidr.value, x)
  }

  /** One of a prefix's addresses. */
  predicate IsOf(n: Network, x: Address) {
    n.base <= x < n.base + n.size
  }

  lemma ClashIs(a: Segment, b: Segment)
    requires (a.cidr.Some? ==> a.cidr.value.size > 0) && (b.cidr.Some? ==> b.cidr.value.size > 0)
    ensures Clash(a, b) <==> ShareAddress(a, b)
  {
    if Clash(a, b) {
      var x := if a.cidr.value.base < b.cidr.value.base then b.cidr.value.base else a.cidr.value.base;
      assert IsOf(a.cidr.value, x) && IsOf(b.cidr.value, x);
    }
  }

  lemma {:induction false} OverlapsWithAre(a: Segment, later: seq<Segment>, f: Finding)
    ensures f in OverlapsWith(a, later) <==>
      exists j :: 0 <= j < |later| && f == Overlapping(a.name, later[j].name) && Clash(a, later[j])
  {
    hide Clash;
    if later != [] {
      var n := |later| - 1;
      OverlapsWithAre(a, later[..n], f);
      assert forall j :: 0 <= j < n ==> later[..n][j] == later[j];
    }
  }

  /** The ``i``-th and a later segment are those of the finding. */
  ghost predicate OverlapAt(segments: seq<Segment>, i: nat, j: nat, f: Finding) {
    i < j < |segments| && f == Overlapping(segments[i].name, segments[j].name) && Clash(segments[i], segments[j])
  }

  lemma OverlapsFrom(segments: seq<Segment>, i: nat, f: Finding)
    requires i < |segments|
    ensures f in OverlapsWith(segments[i], segments[i + 1..]) <==> exists j: nat :: OverlapAt(segments, i, j, f)
  {
    hide Clash;
    var later := segments[i + 1..];
    OverlapsWithAre(segments[i], later, f);
    assert forall j :: 0 <= j < |later| ==> later[j] == segments[i + 1 + j];
    if k :| 0 <= k < |later| && f == Overlapping(segments[i].name, later[k].name) && Clash(segments[i], later[k]) {
      assert OverlapAt(segments, i, i + 1 + k, f);
    }
    if j: nat :| OverlapAt(segments, i, j, f) {
      assert later[j - i - 1] == segments[j];
    }
  }

  lemma {:induction false} OverlapsAre(segments: seq<Segment>, n: nat, f: Finding)
    requires n <= |segments|
    ensures f in Overlaps(segments, n) <==> exists i: nat, j: nat :: i < n && OverlapAt(segments, i, j, f)
  {
    hide OverlapAt, OverlapsWith;
    if n > 0 {
      var last := n - 1;
      OverlapsAre(segments, last, f);
      OverlapsFrom(segments, last, f);
      if j: nat :| OverlapAt(segments, last, j, f) {
        assert last < n && OverlapAt(segments, last, j, f);
      }
    }
  }

  /** Check 10 reports an overlap exactly of two data segments with an address in common. */
  lemma OverlapFindings(t: Topology, f: Finding)
    requires forall k :: 0 <= k < |t.segments| && t.segments[k].cidr.Some? ==> t.segments[k].cidr.value.size > 0
    ensures f in Overlaps(t.segments, |t.segments|) <==>
      exists i, j :: 0 <= i < j < |t.segments| && f == Overlapping(t.segments[i].name, t.segments[j].name)
                     && ShareAddress(t.segments[i], t.segments[j])
  {
    hide Clash, ShareAddress, Overlaps;
    OverlapsAre(t.segments, |t.segments|, f);
    if i: nat, j: nat :| i < |t.segments| && OverlapAt(t.segments, i, j, f) {
      ClashIs(t.segments[i], t.segments[j]);
      assert 0 <= i < j < |t.segments| && f == Overlapping(t.segments[i].name, t.segments[j].name)
             && ShareAddress(t.segments[i], t.segments[j]);
    }
    if i, j :| 0 <= i < j < |t.segments| && f == Overlapping(t.segments[i].name, t.segments[j].name)
               && ShareAddress(t.segments[i], t.segments[j]) {
      ClashIs(t.segments[i], t.segments[j]);
      assert OverlapAt(t.segments, i, j, f);
    }
  }

  /** A segment's plane is what the last definition of its name says. */
  ghost predicate OnPlane(t: Topology, x: string, plane: Plane) {
    exists k :: 0 <= k < |t.segments| && t.segments[k].name == x && t.segments[k].plane == plane
                && forall j :: k < j < |t.segments| ==> t.segments[j].name != x
  }

  lemma {:induction false} PlaneIs(segments: seq<Segment>, x: string)
    ensures PlaneOf(segments, x).None? <==> forall k :: 0 <= k < |segments| ==> segments[k].name != x
    ensures forall plane :: PlaneOf(segments, x) == Some(plane) <==>
      exists k :: 0 <= k < |segments| && segments[k].name == x && segments[k].plane == plane
                  && forall j :: k < j < |segments| ==> segments[j].name != x
  {
    if segments != [] {
      var n := |segments| - 1;
      PlaneIs(segments[..n], x);
      assert forall k :: 0 <= k < n ==> segments[..n][k] == segments[k];
    }
  }

  /** What is wrong with a group's attachments. */
  ghost predicate BadAttachment(s: Scenario, t: Topology, g: Group, f: Finding) {
    exists e :: 0 <= e < |g.attachments| &&
      var (kind, networks) := g.attachments[e];
      || (f == NoKind(g.path, kind) && !IsKind(s, kind))
      || (exists x :: x in networks && f == NoSegment(g.path, kind, x) && !Defined(t, x))
      || (exists x :: x in networks && f == OnManagement(g.path, kind, x) && OnPlane(t, x, Management))
  }

  ghost predicate Defined(t: Topology, x: string) {
    exists k :: 0 <= k < |t.segments| && t.segments[k].name == x
  }

  /** A kind the group counts and puts on no data segment. */
  ghost predicate Stranded(s: Scenario, t: Topology, g: Group, f: Finding) {
    exists e :: 0 <= e < |g.instances| && f == Unattached(g.path, g.instances[e].0) && g.instances[e].1 > 0
                && IsKind(s, g.instances[e].0) && forall x :: x in NetworksOf(g, g.instances[e].0) ==> !OnPlane(t, x, Data)
  }

  /** Of attachments check 10 reports exactly what is wrong with some group's, and the kinds it leaves without a data segment. */
  lemma AttachmentFindings(s: Scenario, t: Topology, f: Finding)
    ensures f in OfGroups(s, t, s.groups) <==>
      exists g :: 0 <= g < |s.groups| && (BadAttachment(s, t, s.groups[g], f) || Stranded(s, t, s.groups[g], f))
  {
    GroupsAttached(s, t, s.groups, f);
  }

  lemma {:induction false} GroupsAttached(s: Scenario, t: Topology, groups: seq<Group>, f: Finding)
    ensures f in OfGroups(s, t, groups) <==>
      exists g :: 0 <= g < |groups| && (BadAttachment(s, t, groups[g], f) || Stranded(s, t, groups[g], f))
  {
    hide BadAttachment, Stranded, OfAttachments, OfInstances;
    if groups != [] {
      var n := |groups| - 1;
      GroupsAttached(s, t, groups[..n], f);
      assert forall g :: 0 <= g < n ==> groups[..n][g] == groups[g];
      AttachmentsReported(s, t, groups[n], f);
      StrandedReported(s, t, groups[n], groups[n].instances, f);
      StrandedIs(s, t, groups[n], f);
    }
  }

  lemma {:induction false} NetworksReported(t: Topology, path: string, kind: string, networks: seq<string>, f: Finding)
    ensures f in OfNetworks(t, path, kind, networks) <==>
      || (exists x :: x in networks && f == NoSegment(path, kind, x) && !Defined(t, x))
      || (exists x :: x in networks && f == OnManagement(path, kind, x) && OnPlane(t, x, Management))
  {
    hide PlaneOf;
    if networks != [] {
      var n := |networks| - 1;
      NetworksReported(t, path, kind, networks[..n], f);
      PlaneIs(t.segments, networks[n]);
      assert forall x :: x in networks <==> x in networks[..n] || x == networks[n];
    }
  }

  ghost predicate BadEntry(s: Scenario, t: Topology, path: string, kind: string, networks: seq<string>, f: Finding) {
    || (f == NoKind(path, kind) && !IsKind(s, kind))
    || (exists x :: x in networks && f == NoSegment(path, kind, x) && !Defined(t, x))
    || (exists x :: x in networks && f == OnManagement(path, kind, x) && OnPlane(t, x, Management))
  }

  lemma {:induction false} EntriesReported(s: Scenario, t: Topology, path: string, attachments: OrderedMap<string, seq<string>>, f: Finding)
    ensures f in OfAttachments(s, t, path, attachments) <==>
      exists e :: 0 <= e < |attachments| && BadEntry(s, t, path, attachments[e].0, attachments[e].1, f)
  {
    hide OfNetworks, IsKind;
    if attachments != [] {
      var n := |attachments| - 1;
      EntriesReported(s, t, path, attachments[..n], f);
      NetworksReported(t, path, attachments[n].0, attachments[n].1, f);
      hide BadEntry;
      assert forall e :: 0 <= e < n ==> attachments[..n][e] == attachments[e];
      EntryReported(s, t, path, attachments[n].0, attachments[n].1, f);
    }
  }

  lemma EntryReported(s: Scenario, t: Topology, path: string, kind: string, networks: seq<string>, f: Finding)
    ensures BadEntry(s, t, path, kind, networks, f) <==>
      (f == NoKind(path, kind) && !IsKind(s, kind)) || f in OfNetworks(t, path, kind, networks)
  {
    hide OfNetworks, IsKind;
    NetworksReported(t, path, kind, networks, f);
  }

  lemma AttachmentsReported(s: Scenario, t: Topology, g: Group, f: Finding)
    ensures f in OfAttachments(s, t, g.path, g.attachments) <==> BadAttachment(s, t, g, f)
  {
    hide OfAttachments, IsKind, Defined, OnPlane;
    EntriesReported(s, t, g.path, g.attachments, f);
  }

  lemma {:induction false} StrandedReported(s: Scenario, t: Topology, g: Group, instances: OrderedMap<string, int>, f: Finding)
    ensures f in OfInstances(s, t, g, instances) <==>
      exists e :: 0 <= e < |instances| && f == Unattached(g.path, instances[e].0) && Astray(s, t, g, instances[e].0, instances[e].1)
  {
    hide Astray;
    if instances != [] {
      var n := |instances| - 1;
      StrandedReported(s, t, g, instances[..n], f);
      assert forall e :: 0 <= e < n ==> instances[..n][e] == instances[e];
    }
  }

  lemma StrandedIs(s: Scenario, t: Topology, g: Group, f: Finding)
    ensures Stranded(s, t, g, f) <==>
      exists e :: 0 <= e < |g.instances| && f == Unattached(g.path, g.instances[e].0) && Astray(s, t, g, g.instances[e].0, g.instances[e].1)
  {
    hide IsKind, NetworksOf, PlaneOf, OnPlane;
    forall networks: seq<string>
      ensures JoinsData(t, networks) <==> exists x :: x in networks && OnPlane(t, x, Data)
    {
      JoinsDataIs(t, networks);
    }
  }

  lemma JoinsDataIs(t: Topology, networks: seq<string>)
    ensures JoinsData(t, networks) <==> exists x :: x in networks && OnPlane(t, x, Data)
  {
    hide PlaneOf;
    forall x
      ensures PlaneOf(t.segments, x) == Some(Data) <==> OnPlane(t, x, Data)
    {
      PlaneIs(t.segments, x);
    }
    if k :| 0 <= k < |networks| && PlaneOf(t.segments, networks[k]) == Some(Data) {
      assert networks[k] in networks;
    }
  }
}
