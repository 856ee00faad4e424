/** What check 9 says of a topology's segments, and what it gives the simulator with check 10. */
module Planes {
  import opened Wrappers
  import opened Ir
  import opened CheckPlans
  import Addressing
  import Programs
  import SimLabel
  import SimThenLabel

  datatype Remark =
    | NotOneManagement(count: nat)
    | OverlapsManagement(management: string, data: string)

  function ManagementOf(segments: seq<Segment>): seq<Segment> {
    if segments == [] then []
    else
      var last := segments[|segments| - 1];
      ManagementOf(segments[..|segments| - 1]) + if last.plane == Management then [last] else []
  }

  /** A data segment whose prefix shares an address with this management segment's. */
  predicate Intrudes(m: Segment, d: Segment) {
    d.plane == Data && m.cidr.Some? && d.cidr.Some? && Overlap(m.cidr.value, d.cidr.value)
  }

  function Intruders(m: Segment, segments: seq<Segment>): seq<Remark> {
    if segments == [] then []
    else
      var last := segments[|segments| - 1];
      Intruders(m, segments[..|segments| - 1]) + if Intrudes(m, last) then [OverlapsManagement(m.name, last.name)] else []
  }

  function AllIntruders(management: seq<Segment>, segments: seq<Segment>): seq<Remark> {
    if management == [] then []
    else AllIntruders(management[..|management| - 1], segments) + Intruders(management[|management| - 1], segments)
  }

  function Remarks(segments: seq<Segment>): seq<Remark> {
    var management := ManagementOf(segments);
    (if |management| != 1 then [NotOneManagement(|management|)] else []) + AllIntruders(management, segments)
  }

  method FindManagement(segments: seq<Segment>) returns (management: seq<Segment>)
    ensures management == ManagementOf(segments)
  {
    management := [];
    for n := 0 to |segments|
      invariant management == ManagementOf(segments[..n])
    {
      assert segments[..n + 1][..n] == segments[..n];
      if segments[n].plane == Management {
        management := management + [segments[n]];
      }
    }
    assert segments[..|segments|] == segments;
  }

  method FindIntruders(m: Segment, segments: seq<Segment>) returns (found: seq<Remark>)
    ensures found == Intruders(m, segments)
  {
    hide Intrudes;
    found := [];
    for n := 0 to |segments|
      invariant found == Intruders(m, segments[..n])
    {
      assert segments[..n + 1][..n] == segments[..n];
      if Intrudes(m, segments[n]) {
        found := found + [OverlapsManagement(m.name, segments[n].name)];
      }
    }
    assert segments[..|segments|] == segments;
  }

  method FindAllIntruders(management: seq<Segment>, segments: seq<Segment>) returns (found: seq<Remark>)
    ensures found == AllIntruders(management, segments)
  {
    hide Intruders;
    found := [];
    for m := 0 to |management|
      invariant found == AllIntruders(management[..m], segments)
    {
      assert management[..m + 1][..m] == management[..m];
      var more := FindIntruders(management[m], segments);
      found := found + more;
    }
    assert management[..|management|] == management;
  }

  /** The first part of check 9. */
  method CheckPlanes(segments: seq<Segment>) returns (found: seq<Remark>)
    ensures found == Remarks(segments)
  {
    hide ManagementOf, AllIntruders;
    var management := FindManagement(segments);
    found := if |management| != 1 then [NotOneManagement(|management|)] else [];
    var more := FindAllIntruders(management, segments);
    found := found + more;
  }

  lemma {:induction false} ManagementIs(segments: seq<Segment>)
    ensures forall d :: d in ManagementOf(segments) <==> d in segments && d.plane == Management
  {
    if segments != [] {
      ManagementIs(segments[..|segments| - 1]);
      assert forall d :: d in segments <==> d in segments[..|segments| - 1] || d == segments[|segments| - 1];
    }
  }

  lemma {:induction false} NoIntruders(m: Segment, segments: seq<Segment>)
    ensures Intruders(m, segments) == [] <==> forall d :: d in segments ==> !Intrudes(m, d)
  {
    if segments != [] {
      NoIntruders(m, segments[..|segments| - 1]);
      assert forall d :: d in segments <==> d in segments[..|segments| - 1] || d == segments[|segments| - 1];
    }
  }

  lemma {:induction false} NoIntrudersAtAll(management: seq<Segment>, segments: seq<Segment>)
    ensures AllIntruders(management, segments) == [] <==>
      forall m, d :: m in management && d in segments ==> !Intrudes(m, d)
  {
    if management != [] {
      var before, last := management[..|management| - 1], management[|management| - 1];
      NoIntrudersAtAll(before, segments);
      NoIntruders(last, segments);
      assert forall m :: m in management <==> m in before || m == last;
    }
  }

  lemma {:induction false} TwoManagement(segments: seq<Segment>, a: nat, b: nat)
    requires a < b < |segments| && segments[a].plane == Management && segments[b].plane == Management
    ensures |ManagementOf(segments)| >= 2
  {
    var before := segments[..|segments| - 1];
    if b < |before| {
      TwoManagement(before, a, b);
    } else {
      ManagementIs(before);
      assert before[a] in before;
    }
  }

  /** With check 9 and check 10 both silent no two segments' prefixes share an address. */
  lemma AllApart(segments: seq<Segment>, a: nat, b: nat)
    requires Remarks(segments) == [] && Overlaps(segments, |segments|) == [] && a < b < |segments|
    requires segments[a].cidr.Some? && segments[b].cidr.Some?
    ensures !Overlap(segments[a].cidr.value, segments[b].cidr.value)
  {
    hide Overlaps, AllIntruders, ManagementOf;
    var m, n := segments[a], segments[b];
    ManagementIs(segments);
    NoIntrudersAtAll(ManagementOf(segments), segments);
    if m.plane == Data && n.plane == Data {
      NoOverlaps(segments, |segments|, a, b);
    } else if m.plane == Management && n.plane == Management {
      TwoManagement(segments, a, b);
    } else if m.plane == Management {
      assert !Intrudes(m, n);
    } else {
      assert !Intrudes(n, m);
    }
  }

  /** So an address is one host's on one segment, of either plane. */
  lemma OneHostAnywhere(s: Scenario, t: Topology, plan: AddressPlan, problems: seq<Addressing.Problem>, x: string, y: string,
                        i: string, j: string)
    requires Addressing.Planned(s, t, plan, problems) && Remarks(t.segments) == [] && Overlaps(t.segments, |t.segments|) == []
    requires Addressing.On(plan.addresses, i, x).Some? && Addressing.On(plan.addresses, i, x) == Addressing.On(plan.addresses, j, y)
    ensures x == y && i == j
  {
    hide Addressing.Planned, Addressing.Sound, Overlaps, Remarks;
    var a := Programs.PrefixOf(s, t, plan, problems, x, i);
    var b := Programs.PrefixOf(s, t, plan, problems, y, j);
    if a < b {
      AllApart(t.segments, a, b);
    } else if b < a {
      AllApart(t.segments, b, a);
    }
    Programs.PlanIsSound(s, t, plan, problems);
    OneHolder(Addressing.UsableSegments(t), Addressing.MemberLists(s, t), plan.addresses, i, j, x);
  }

  lemma OneHolder(usable: OrderedMap<string, Network>, members: map<string, seq<string>>, held: Addressing.Held, i: string, j: string,
                  x: string)
    requires Addressing.Sound(usable, members, held) && Addressing.On(held, i, x).Some?
    requires Addressing.On(held, i, x) == Addressing.On(held, j, x)
    ensures i == j
  {
  }

  // ----- the simulator's addresses are a plan's

  /** The addresses of the world are the plan's, written as text. */
  ghost predicate Written(w: SimLabel.World, plan: AddressPlan, text: Address -> string) {
    && w.addresses.Keys == plan.addresses.Keys
    && forall i :: i in w.addresses ==>
      && |w.addresses[i]| == |plan.addresses[i]|
      && forall k :: 0 <= k < |w.addresses[i]| ==>
        w.addresses[i][k] == (plan.addresses[i][k].0, text(plan.addresses[i][k].1))
  }

  /** One program per instance. */
  ghost predicate OneProgramEach(w: SimLabel.World) {
    forall p, q :: 0 <= p < |w.programs| && 0 <= q < |w.programs| && w.programs[p].instance == w.programs[q].instance ==> p == q
  }

  /** Where checks 9 and 10 find no overlap a world whose addresses are the planner's lists none twice. */
  lemma PlannedAddressesAreOwn(s: Scenario, t: Topology, plan: AddressPlan, problems: seq<Addressing.Problem>, w: SimLabel.World,
                               text: Address -> string)
    requires Addressing.Planned(s, t, plan, problems) && Remarks(t.segments) == [] && Overlaps(t.segments, |t.segments|) == []
    requires Written(w, plan, text) && OneProgramEach(w) && forall a, b :: text(a) == text(b) ==> a == b
    ensures SimThenLabel.OwnAddresses(w)
  {
    hide Addressing.Planned, Overlaps, Remarks, Written;
    forall p, q, i, j |
      && 0 <= p < |w.programs| && 0 <= q < |w.programs|
      && 0 <= i < |SimLabel.PlanOf(w, w.programs[p].instance)| && 0 <= j < |SimLabel.PlanOf(w, w.programs[q].instance)|
      && SimLabel.PlanOf(w, w.programs[p].instance)[i].1 == SimLabel.PlanOf(w, w.programs[q].instance)[j].1
      ensures p == q && i == j
    {
      var a, b := w.programs[p].instance, w.programs[q].instance;
      var x := ListedOn(s, t, plan, problems, w, text, a, i);
      var y := ListedOn(s, t, plan, problems, w, text, b, j);
      var m, n := Addressing.On(plan.addresses, a, x), Addressing.On(plan.addresses, b, y);
      assert text(m.value) == text(n.value) ==> m.value == n.value;
      OneHostAnywhere(s, t, plan, problems, x, y, a, b);
    }
  }

  lemma ListedOn(s: Scenario, t: Topology, plan: AddressPlan, problems: seq<Addressing.Problem>, w: SimLabel.World,
                 text: Address -> string, i: string, k: nat) returns (x: string)
    requires Addressing.Planned(s, t, plan, problems) && Written(w, plan, text) && k < |SimLabel.PlanOf(w, i)|
    ensures Addressing.On(plan.addresses, i, x).Some? && SimLabel.PlanOf(w, i)[k].1 == text(Addressing.On(plan.addresses, i, x).value)
    ensures i in plan.addresses && k < |plan.addresses[i]| && plan.addresses[i][k].0 == x && DistinctKeys(plan.addresses[i])
  {
    hide Addressing.Planned;
    Programs.PlanIsSound(s, t, plan, problems);
    x := plan.addresses[i][k].0;
    LookupAt(plan.addresses[i], k);
  }
}
