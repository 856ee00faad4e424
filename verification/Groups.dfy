/** Instance ids and tie targets, read off a scenario's groups. */
module Groups {
  import opened Wrappers
  import opened Ir

  datatype Instance = Instance(group: string, kind: string, id: string)

  function InstanceId(path: string, kind: string, index: nat): string {
    path + "/" + kind + "[" + Decimal(index) + "]"
  }

  /** How many instances of a kind a group holds: a missing or negative count is none. */
  function Count(g: Group, kind: string): (n: nat) {
    match Lookup(g.instances, kind)
    case None => 0
    case Some(n) => if n < 0 then 0 else n
  }

  function OfKind(g: Group, kind: string): (r: seq<Instance>)
    ensures |r| == Count(g, kind)
    ensures forall i :: 0 <= i < |r| ==> r[i] == Instance(g.path, kind, InstanceId(g.path, kind, i))
  {
    seq(Count(g, kind), i requires 0 <= i => Instance(g.path, kind, InstanceId(g.path, kind, i)))
  }

  function OfGroup(g: Group, kinds: seq<Kind>): seq<Instance> {
    if kinds == [] then [] else OfKind(g, kinds[0].name) + OfGroup(g, kinds[1..])
  }

  function OfGroups(groups: seq<Group>, kinds: seq<Kind>): seq<Instance> {
    if groups == [] then [] else OfGroup(groups[0], kinds) + OfGroups(groups[1..], kinds)
  }

  /** Groups in order, then the scenario's kind order, then index. */
  function InstanceIds(s: Scenario): seq<Instance> {
    OfGroups(s.groups, s.kinds)
  }

  ghost predicate DistinctIds(s: Scenario) {
    forall i, j :: 0 <= i < j < |InstanceIds(s)| ==> InstanceIds(s)[i].id != InstanceIds(s)[j].id
  }

  predicate KindForwards(kinds: seq<Kind>, name: string) {
    exists k :: 0 <= k < |kinds| && kinds[k].name == name && kinds[k].forwards
  }

  function ForwardersOf(instances: seq<Instance>, kinds: seq<Kind>): (r: seq<string>)
    ensures forall f :: f in r <==>
      exists k :: 0 <= k < |instances| && instances[k].id == f && KindForwards(kinds, instances[k].kind)
  {
    if instances == [] then []
    else
      var rest := ForwardersOf(instances[1..], kinds);
      var here := if KindForwards(kinds, instances[0].kind) then [instances[0].id] else [];
      assert forall f :: f in here + rest <==> f in here || f in rest;
      assert forall f :: f in rest ==>
        exists k :: 1 <= k < |instances| && instances[k].id == f && KindForwards(kinds, instances[k].kind) by {
        forall f | f in rest
          ensures exists k :: 1 <= k < |instances| && instances[k].id == f && KindForwards(kinds, instances[k].kind)
        {
          var k :| 0 <= k < |instances| - 1 && instances[1..][k].id == f && KindForwards(kinds, instances[1..][k].kind);
          assert instances[k + 1].id == f;
        }
      }
      here + rest
  }

  /** The instances of forwarding kinds, in instance order. */
  function Forwarders(s: Scenario): seq<string> {
    ForwardersOf(InstanceIds(s), s.kinds)
  }
}
