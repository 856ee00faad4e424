/** The pcapng writer, and that reading gives back what was written. */
module PcapngWriter {
  import opened Wrappers
  import opened Pcapng
  import opened PcapngPackets

  function SectionBody(application: bytes): bytes
    requires |application| < 0x1_0000
  {
    Pack32(MAGIC, true) + Pack16(1, true) + Pack16(0, true) + [255, 255, 255, 255, 255, 255, 255, 255]
    + OptionBytes(SHB_USERAPPL, application) + OptionBytes(OPT_END, [])
  }

  predicate InterfaceFits(i: Interface) {
    i.linkType < 0x1_0000 && |i.name| < 0x1_0000 && i.tsresol < 256
  }

  function InterfaceBody(i: Interface): bytes
    requires InterfaceFits(i)
  {
    Pack16(i.linkType, true) + Pack16(0, true) + Pack32(0, true)
    + OptionBytes(IF_NAME, i.name) + OptionBytes(IF_TSRESOL, [i.tsresol]) + OptionBytes(OPT_END, [])
  }

  predicate PacketFits(p: Packet, tsresol: nat) {
    && p.interface < WORD && WireLen(p) < WORD && ToUnits(p.ns, tsresol) < WORD * WORD
    && 12 + 20 + |p.data| + Pad(|p.data|) + 4 < WORD
  }

  function PacketBody(p: Packet, tsresol: nat): bytes
    requires PacketFits(p, tsresol)
  {
    var units := ToUnits(p.ns, tsresol);
    Pack32(p.interface, true) + Pack32(units / WORD, true) + Pack32(units % WORD, true)
    + Pack32(|p.data|, true) + Pack32(WireLen(p), true)
    + p.data + Zeros(Pad(|p.data|)) + OptionBytes(OPT_END, [])
  }

  /** What a reader makes of an interface: its name without trailing NULs. */
  function Normal(i: Interface): Interface {
    i.(name := StripNuls(i.name))
  }

  /** What a reader makes of a packet: its time in the interface's resolution, its length only if it differs. */
  function NormalPacket(p: Packet, tsresol: nat): Packet {
    Packet(p.interface, Floored(p.ns, tsresol), p.data, if WireLen(p) == |p.data| then None else Some(WireLen(p)))
  }

  // ----- each body reads back

  lemma ReadInterface(i: Interface)
    requires InterfaceFits(i)
    ensures InterfaceOf(InterfaceBody(i), true) == if i.tsresol < 128 then Some(Normal(i)) else None
  {
    var body := InterfaceBody(i);
    var opts := map[IF_NAME := i.name][IF_TSRESOL := [i.tsresol]];
    assert body[0..2] == Pack16(i.linkType, true);
    assert At(body, 0, Pack16(i.linkType, true));
    ShortAt(body, 0, i.linkType, true);
    ReadInterfaceOptions(i);
    assert opts[IF_NAME] == i.name && opts[IF_TSRESOL] == [i.tsresol];
  }

  lemma ReadInterfaceOptions(i: Interface)
    requires InterfaceFits(i)
    ensures Options(InterfaceBody(i), 8, true, map[]) == map[IF_NAME := i.name][IF_TSRESOL := [i.tsresol]]
  {
    hide OptionBytes, Options, Pack16, Pack32;
    var body := InterfaceBody(i);
    var name, tsresol, end := OptionBytes(IF_NAME, i.name), OptionBytes(IF_TSRESOL, [i.tsresol]), OptionBytes(OPT_END, []);
    OptionsLie(Pack16(i.linkType, true) + Pack16(0, true) + Pack32(0, true), name, tsresol, end);
    ReadOption(body, 8, IF_NAME, i.name, map[]);
    ReadOption(body, 8 + |name|, IF_TSRESOL, [i.tsresol], map[IF_NAME := i.name]);
    ReadOption(body, 8 + |name| + |tsresol|, OPT_END, [], map[IF_NAME := i.name][IF_TSRESOL := [i.tsresol]]);
  }

  lemma OptionsLie(head: bytes, a: bytes, b: bytes, c: bytes)
    ensures var s := head + a + b + c;
            At(s, |head|, a) && At(s, |head| + |a|, b) && At(s, |head| + |a| + |b|, c)
  {
  }

  lemma PacketFields(p: Packet, tsresol: nat)
    requires PacketFits(p, tsresol)
    ensures var body, units := PacketBody(p, tsresol), ToUnits(p.ns, tsresol);
            && |body| >= 20 + |p.data|
            && Word(body, 0, true) == p.interface
            && Word(body, 4, true) == units / WORD && Word(body, 8, true) == units % WORD
            && Word(body, 12, true) == |p.data| && Word(body, 16, true) == WireLen(p)
            && Slice(body, 20, |p.data|) == p.data
  {
    var body, units := PacketBody(p, tsresol), ToUnits(p.ns, tsresol);
    var a, b, c, d, e := Pack32(p.interface, true), Pack32(units / WORD, true), Pack32(units % WORD, true),
                         Pack32(|p.data|, true), Pack32(WireLen(p), true);
    var rest := Zeros(Pad(|p.data|)) + OptionBytes(OPT_END, []);
    assert body == a + b + c + d + e + p.data + rest;
    assert body[0..4] == a && body[4..8] == b && body[8..12] == c && body[12..16] == d && body[16..20] == e;
    assert body[20..20 + |p.data|] == p.data;
    WordAt(body, 0, p.interface, true);
    WordAt(body, 4, units / WORD, true);
    WordAt(body, 8, units % WORD, true);
    WordAt(body, 12, |p.data|, true);
    WordAt(body, 16, WireLen(p), true);
  }

  lemma ReadPacket(p: Packet, interfaces: seq<Interface>)
    requires p.interface < |interfaces| && PacketFits(p, interfaces[p.interface].tsresol)
    ensures PacketOf(PacketBody(p, interfaces[p.interface].tsresol), true, 0, interfaces)
      == Some(NormalPacket(p, interfaces[p.interface].tsresol))
  {
    hide PacketBody, Word, ToUnits, ToNs, Floored, Slice;
    var tsresol := interfaces[p.interface].tsresol;
    PacketFields(p, tsresol);
    UnitsAndBack(p.ns, tsresol);
  }

  function NormalAll(interfaces: seq<Interface>): (r: seq<Interface>)
    ensures |r| == |interfaces| && forall k :: 0 <= k < |interfaces| ==> r[k] == Normal(interfaces[k])
  {
    seq(|interfaces|, k requires 0 <= k < |interfaces| => Normal(interfaces[k]))
  }

  /** Every interface's resolution is a power of ten, which is all the reader supports. */
  predicate Readable(interfaces: seq<Interface>) {
    forall k :: 0 <= k < |interfaces| ==> interfaces[k].tsresol < 128
  }

  /** Little-endian blocks, as the writer's are. */
  ghost predicate Little(bs: seq<Block>) {
    AllEmittable(bs) && forall k :: 0 <= k < |bs| ==> bs[k].le && Headed(bs[k])
  }

  /** They read back as they are. */
  lemma {:induction false} ReadLittle(bs: seq<Block>)
    requires Little(bs)
    ensures Blocks(EmitAll(bs), true) == Some(bs)
  {
    LittleInSections(bs);
    ReadEmitAll(bs, true);
    assert AsReadAll(bs) == bs;
  }

  lemma {:induction false} LittleInSections(bs: seq<Block>)
    requires forall k :: 0 <= k < |bs| ==> bs[k].le && Headed(bs[k])
    ensures InSections(bs, true)
  {
    if bs != [] {
      assert bs[0].le && Headed(bs[0]);
      LittleInSections(bs[1..]);
    }
  }

  lemma PacketEmits(p: Packet, tsresol: nat)
    requires PacketFits(p, tsresol)
    ensures Emittable(Block(EPB, PacketBody(p, tsresol), true))
  {
    hide Pack32, OptionBytes;
  }

  /** One section, little-endian, written as it goes. */
  class Writer {
    var file: bytes
    var interfaces: seq<Interface>
    ghost var blocks: seq<Block>
    ghost var written: seq<Item>

    /** The file so far reads back as what was written, if every resolution can be read, and not at all otherwise. */
    ghost predicate Valid()
      reads this
    {
      && Little(blocks) && file == EmitAll(blocks)
      && (forall k :: 0 <= k < |interfaces| ==> InterfaceFits(interfaces[k]))
      && Items(blocks) == if Readable(interfaces) then Some(Reader(0, NormalAll(interfaces), written)) else None
    }

    constructor (application: bytes)
      requires |application| < 0x1_0000
      ensures Valid() && interfaces == [] && written == []
    {
      var block := Block(SHB, SectionBody(application), true);
      assert block.body[0..4] == Pack32(MAGIC, true);
      assert At(block.body, 0, Pack32(MAGIC, true));
      WordAt(block.body, 0, MAGIC, true);
      file := Emit(block);
      interfaces, written := [], [];
      blocks := [block];
      assert EmitAll([block]) == Emit(block) + EmitAll([]) == Emit(block);
      ItemsSnoc([], block);
      assert [] + [block] == [block];
    }

    method AddInterface(i: Interface) returns (index: nat)
      requires Valid() && InterfaceFits(i)
      modifies this
      ensures Valid() && interfaces == old(interfaces) + [i] && index == |old(interfaces)|
      ensures written == old(written) + [Declared(Normal(i))]
      ensures old(file) <= file
    {
      hide EmitAll, Items, InterfaceOf, Pack32, Pack16;
      var block := Block(IDB, InterfaceBody(i), true);
      EmittableSnoc(blocks, block);
      ItemsSnoc(blocks, block);
      ReadInterface(i);
      assert NormalAll(interfaces + [i]) == NormalAll(interfaces) + [Normal(i)];
      assert Readable(interfaces + [i]) <==> Readable(interfaces) && i.tsresol < 128 by {
        assert (interfaces + [i])[|interfaces|] == i;
        assert forall k :: 0 <= k < |interfaces| ==> (interfaces + [i])[k] == interfaces[k];
      }
      file := file + Emit(block);
      interfaces := interfaces + [i];
      blocks := blocks + [block];
      written := written + [Declared(Normal(i))];
      index := |interfaces| - 1;
    }

    method WritePacket(p: Packet)
      requires Valid() && p.interface < |interfaces| && PacketFits(p, interfaces[p.interface].tsresol)
      modifies this`file, this`blocks, this`written
      ensures Valid() && old(file) <= file
      ensures written == old(written) + [Seen(NormalPacket(p, interfaces[p.interface].tsresol))]
    {
      hide PacketBody, PacketOf, PacketFits, EmitAll, Items, InterfaceFits;
      PacketEmits(p, interfaces[p.interface].tsresol);
      var block := Block(EPB, PacketBody(p, interfaces[p.interface].tsresol), true);
      EmittableSnoc(blocks, block);
      ItemsSnoc(blocks, block);
      assert NormalAll(interfaces)[p.interface].tsresol == interfaces[p.interface].tsresol;
      ReadPacket(p, NormalAll(interfaces));
      file := file + Emit(block);
      blocks := blocks + [block];
      written := written + [Seen(NormalPacket(p, interfaces[p.interface].tsresol))];
    }
  }

  /** The items of a written file: every interface, then every packet, as a reader sees them. */
  ghost function Written(interfaces: seq<Interface>, packets: seq<Packet>): seq<Item>
    requires forall k :: 0 <= k < |packets| ==> packets[k].interface < |interfaces|
  {
    if packets == [] then DeclaredAll(interfaces)
    else
      var p := packets[|packets| - 1];
      Written(interfaces, packets[..|packets| - 1]) + [Seen(NormalPacket(p, interfaces[p.interface].tsresol))]
  }

  ghost function DeclaredAll(interfaces: seq<Interface>): seq<Item> {
    if interfaces == [] then []
    else DeclaredAll(interfaces[..|interfaces| - 1]) + [Declared(Normal(interfaces[|interfaces| - 1]))]
  }

  method WriteInterfaces(w: Writer, interfaces: seq<Interface>)
    requires w.Valid() && w.interfaces == [] && w.written == []
    requires forall k :: 0 <= k < |interfaces| ==> InterfaceFits(interfaces[k])
    modifies w
    ensures w.Valid() && w.interfaces == interfaces && w.written == DeclaredAll(interfaces)
  {
    hide Writer.Valid, InterfaceFits;
    for k := 0 to |interfaces|
      invariant w.Valid() && w.interfaces == interfaces[..k] && w.written == DeclaredAll(interfaces[..k])
    {
      assert interfaces[..k + 1][..k] == interfaces[..k];
      assert interfaces[..k + 1] == interfaces[..k] + [interfaces[k]];
      var _ := w.AddInterface(interfaces[k]);
    }
    assert interfaces[..|interfaces|] == interfaces;
  }

  method WritePackets(w: Writer, interfaces: seq<Interface>, packets: seq<Packet>)
    requires w.Valid() && w.interfaces == interfaces && w.written == DeclaredAll(interfaces)
    requires forall k :: 0 <= k < |packets| ==>
      packets[k].interface < |interfaces| && PacketFits(packets[k], interfaces[packets[k].interface].tsresol)
    modifies w
    ensures w.Valid() && w.interfaces == interfaces && w.written == Written(interfaces, packets)
  {
    hide Writer.Valid, PacketFits;
    for k := 0 to |packets|
      invariant w.Valid() && w.interfaces == interfaces && w.written == Written(interfaces, packets[..k])
    {
      assert packets[..k + 1][..k] == packets[..k];
      w.WritePacket(packets[k]);
    }
    assert packets[..|packets|] == packets;
  }

  /** ``write``: the interfaces, then the packets; reading the file gives them back, normalised. */
  method Write(interfaces: seq<Interface>, packets: seq<Packet>) returns (file: bytes)
    requires forall k :: 0 <= k < |interfaces| ==> InterfaceFits(interfaces[k])
    requires forall k :: 0 <= k < |packets| ==>
      packets[k].interface < |interfaces| && PacketFits(packets[k], interfaces[packets[k].interface].tsresol)
    ensures Blocks(file, true).Some?
    ensures Items(Blocks(file, true).value)
      == if Readable(interfaces) then Some(Reader(0, NormalAll(interfaces), Written(interfaces, packets))) else None
  {
    var application: bytes := [0x74, 0x69, 0x65, 0x72, 0x67, 0x65, 0x6e];
    var w := new Writer(application);
    WriteInterfaces(w, interfaces);
    WritePackets(w, interfaces, packets);
    file := w.file;
    ReadLittle(w.blocks);
  }
}
