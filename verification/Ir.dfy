/** As much of the scenario IR as the plans and the checks read. */
module Ir {
  import opened Wrappers

  /** An IPv4 address as the number it stands for. */
  type Address = int

  /** One parsed prefix: its network address and how many addresses it covers. */
  datatype Network = Network(base: Address, size: nat)

  datatype Plane = Data | Management

  /** ``cidr`` is ``None`` where the text is not a prefix. */
  datatype Segment = Segment(name: string, cidr: Option<Network>, plane: Plane)

  /** ``pins`` maps an instance id to the address asked for, ``None`` where the text is none. */
  datatype Topology = Topology(segments: seq<Segment>, pins: OrderedMap<string, Option<Address>>)

  datatype Multiplicity = Single | Optional | Multiple

  datatype Tie = Tie(name: string, targetKind: string, multiplicity: Multiplicity)

  datatype Kind = Kind(name: string, ties: seq<Tie>, forwards: bool)

  datatype Group = Group(
    path: string,
    instances: OrderedMap<string, int>,
    attachments: OrderedMap<string, seq<string>>,
    wiring: OrderedMap<string, seq<string>>)

  datatype Scenario = Scenario(kinds: seq<Kind>, groups: seq<Group>)

  datatype AddressPlan = AddressPlan(
    addresses: map<string, OrderedMap<string, Address>>,
    gateways: map<string, Address>)

  /** The data-plane segment names of a topology. */
  function DataSegments(t: Topology): set<string> {
    set i | 0 <= i < |t.segments| && t.segments[i].plane == Data :: t.segments[i].name
  }

  /** ``{seg.name: seg.cidr}``, a later segment of the same name replacing an earlier one. */
  function CidrOf(segments: seq<Segment>): map<string, Option<Network>> {
    if segments == [] then map[]
    else CidrOf(segments[..|segments| - 1])[segments[|segments| - 1].name := segments[|segments| - 1].cidr]
  }
}
