/** Interfaces and packets of a pcapng file, the writer, and 802.1Q tag insertion. */
module PcapngPackets {
  import opened Wrappers
  import opened Pcapng

  /** ``name`` without trailing NULs; ``tsresol`` is the power of ten of the timestamp unit. */
  datatype Interface = Interface(name: bytes, linkType: nat, tsresol: nat)

  /** ``originalLen`` is the length on the wire where it differs from that of ``data``. */
  datatype Packet = Packet(interface: nat, ns: nat, data: bytes, originalLen: Option<nat>)

  datatype Item = Declared(interface: Interface) | Seen(packet: Packet)

  function WireLen(p: Packet): nat {
    match p.originalLen
    case None => |p.data|
    case Some(n) => n
  }

  // ----- options

  function Pad(n: nat): nat {
    (4 - n % 4) % 4
  }

  function Zeros(n: nat): (z: bytes)
    ensures |z| == n
  {
    seq(n, _ => 0)
  }

  /** Python's ``s[i:i + n]``. */
  function Slice(s: bytes, i: nat, n: nat): bytes {
    if i >= |s| then [] else if i + n <= |s| then s[i..i + n] else s[i..]
  }

  /** The options from ``offset`` on, the first of each code; ``found`` holds the ones before. */
  function Options(body: bytes, offset: nat, le: bool, found: map<nat, bytes>): map<nat, bytes>
    decreases |body| - offset
  {
    if offset + 4 > |body| then found
    else
      var code, length := Short(body, offset, le), Short(body, offset + 2, le);
      if code == OPT_END then found
      else
        Options(body, offset + 4 + length + Pad(length), le,
                if code in found then found else found[code := Slice(body, offset + 4, length)])
  }

  method ReadOptions(body: bytes, start: nat, le: bool) returns (found: map<nat, bytes>)
    ensures found == Options(body, start, le, map[])
  {
    found := map[];
    var offset := start;
    while offset + 4 <= |body|
      invariant Options(body, start, le, map[]) == Options(body, offset, le, found)
      decreases |body| - offset
    {
      var code, length := Short(body, offset, le), Short(body, offset + 2, le);
      offset := offset + 4;
      if code == OPT_END {
        return;
      }
      if code !in found {
        found := found[code := Slice(body, offset, length)];
      }
      offset := offset + length + Pad(length);
    }
  }

  function OptionBytes(code: nat, value: bytes): (b: bytes)
    requires code < 0x1_0000 && |value| < 0x1_0000
    ensures |b| == 4 + |value| + Pad(|value|)
  {
    Pack16(code, true) + Pack16(|value|, true) + value + Zeros(Pad(|value|))
  }

  lemma ReadOption(body: bytes, offset: nat, code: nat, value: bytes, found: map<nat, bytes>)
    requires code < 0x1_0000 && |value| < 0x1_0000 && At(body, offset, OptionBytes(code, value))
    ensures code == OPT_END ==> Options(body, offset, true, found) == found
    ensures code != OPT_END && code !in found ==>
      Options(body, offset, true, found) == Options(body, offset + |OptionBytes(code, value)|, true, found[code := value])
  {
    OptionHead(body, offset, code, value);
    assert offset + 4 + |value| + Pad(|value|) == offset + |OptionBytes(code, value)|;
  }

  lemma OptionHead(body: bytes, offset: nat, code: nat, value: bytes)
    requires code < 0x1_0000 && |value| < 0x1_0000 && At(body, offset, OptionBytes(code, value))
    ensures offset + 4 + |value| <= |body|
    ensures Short(body, offset, true) == code && Short(body, offset + 2, true) == |value|
    ensures Slice(body, offset + 4, |value|) == value
  {
    hide Pack16, Short, Pad, At;
    var o := OptionBytes(code, value);
    assert o[0..2] == Pack16(code, true) && o[2..4] == Pack16(|value|, true) && o[4..4 + |value|] == value;
    Within(body, offset, o, 0, 2);
    Within(body, offset, o, 2, 4);
    Within(body, offset, o, 4, 4 + |value|);
    ShortAt(body, offset, code, true);
    ShortAt(body, offset + 2, |value|, true);
  }

  /** A part of what lies at ``i`` lies at its place. */
  lemma Within(s: bytes, i: nat, p: bytes, lo: nat, hi: nat)
    requires At(s, i, p) && lo <= hi <= |p|
    ensures s[i + lo..i + hi] == p[lo..hi] && At(s, i + lo, p[lo..hi])
  {
    var part, there := p[lo..hi], s[i + lo..i + hi];
    forall k | 0 <= k < hi - lo
      ensures there[k] == part[k]
    {
      Same(s, i, p, lo + k);
    }
    assert there == part;
  }

  // ----- interface blocks

  function StripNuls(name: bytes): (s: bytes)
    ensures s == [] || s[|s| - 1] != 0
    ensures s <= name
  {
    if name != [] && name[|name| - 1] == 0 then StripNuls(name[..|name| - 1]) else name
  }

  function FromOptions(linkType: nat, opts: map<nat, bytes>): Option<Interface> {
    var name := StripNuls(if IF_NAME in opts then opts[IF_NAME] else []);
    if IF_TSRESOL !in opts then Some(Interface(name, linkType, 6))
    else if opts[IF_TSRESOL] == [] || opts[IF_TSRESOL][0] >= 128 then None
    else Some(Interface(name, linkType, opts[IF_TSRESOL][0]))
  }

  /** ``_interface``; ``None`` where it raises. */
  function InterfaceOf(body: bytes, le: bool): Option<Interface> {
    if |body| < 2 then None else FromOptions(Short(body, 0, le), Options(body, 8, le, map[]))
  }

  // ----- packet blocks

  function Pow10(n: nat): (p: nat)
    ensures p > 0
  {
    if n == 0 then 1 else 10 * Pow10(n - 1)
  }

  function Times(a: nat, b: nat): nat {
    a * b
  }

  function Over(a: nat, b: nat): nat
    requires b > 0
  {
    a / b
  }

  function ToNs(units: nat, tsresol: nat): nat {
    if tsresol <= 9 then Times(units, Pow10(9 - tsresol)) else Over(units, Pow10(tsresol - 9))
  }

  function ToUnits(ns: nat, tsresol: nat): nat {
    if tsresol <= 9 then Over(ns, Pow10(9 - tsresol)) else Times(ns, Pow10(tsresol - 9))
  }

  /** The latest time an interface of this resolution can tell that is not after ``ns``. */
  function Floored(ns: nat, tsresol: nat): nat {
    if tsresol <= 9 then Times(Over(ns, Pow10(9 - tsresol)), Pow10(9 - tsresol)) else ns
  }

  lemma UnitsAndBack(ns: nat, tsresol: nat)
    ensures ToNs(ToUnits(ns, tsresol), tsresol) == Floored(ns, tsresol)
  {
    if tsresol > 9 {
      Undo(ns, Pow10(tsresol - 9));
    }
  }

  lemma Undo(n: nat, p: nat)
    requires p > 0
    ensures n * p / p == n
  {
    var q, r := n * p / p, n * p % p;
    assert q * p + r == n * p;
    if q < n {
      Bigger(p, q + 1, n);
    } else if q > n {
      Bigger(p, n + 1, q);
    }
  }

  lemma Bigger(p: nat, a: nat, b: nat)
    requires a <= b
    ensures a * p <= b * p
  {
  }

  /** Flooring loses less than one unit, and nothing above nanosecond resolution. */
  lemma FlooredIsClose(ns: nat, tsresol: nat)
    ensures Floored(ns, tsresol) <= ns
    ensures tsresol <= 9 ==> ns < Floored(ns, tsresol) + Pow10(9 - tsresol)
    ensures tsresol >= 9 ==> Floored(ns, tsresol) == ns
  {
    if tsresol <= 9 {
      var p := Pow10(9 - tsresol);
      assert ns / p * p + ns % p == ns;
      if tsresol == 9 {
        assert p == 1;
      }
    }
  }

  /** ``_packet``; ``None`` where it raises. */
  function PacketOf(body: bytes, le: bool, base: nat, interfaces: seq<Interface>): Option<Packet> {
    if |body| < 20 then None
    else
      var interface := base + Word(body, 0, le);
      if interface >= |interfaces| then None
      else
        var units := Word(body, 4, le) * WORD + Word(body, 8, le);
        var caplen, origlen := Word(body, 12, le), Word(body, 16, le);
        Some(Packet(interface, ToNs(units, interfaces[interface].tsresol), Slice(body, 20, caplen),
                    if origlen == caplen then None else Some(origlen)))
  }

  // ----- reading

  /** A reader between two blocks. */
  datatype Reader = Reader(base: nat, interfaces: seq<Interface>, items: seq<Item>)

  const START := Reader(0, [], [])

  function Step(r: Reader, b: Block): Option<Reader> {
    if b.kind == SHB then Some(r.(base := |r.interfaces|))
    else if b.kind == IDB then
      match InterfaceOf(b.body, b.le)
      case None => None
      case Some(i) => Some(r.(interfaces := r.interfaces + [i], items := r.items + [Declared(i)]))
    else if b.kind == EPB then
      match PacketOf(b.body, b.le, r.base, r.interfaces)
      case None => None
      case Some(p) => Some(r.(items := r.items + [Seen(p)]))
    else Some(r)
  }

  /** ``packets``: the interfaces and packets of these blocks in order, or ``None`` where reading stops. */
  function Items(bs: seq<Block>): Option<Reader> {
    if bs == [] then Some(START)
    else
      match Items(bs[..|bs| - 1])
      case None => None
      case Some(r) => Step(r, bs[|bs| - 1])
  }

  lemma ItemsSnoc(bs: seq<Block>, b: Block)
    ensures Items(bs + [b]) == match Items(bs) case None => None case Some(r) => Step(r, b)
  {
    assert (bs + [b])[..|bs|] == bs;
  }

  /** ``read``: every interface and packet of a file. */
  method Read(s: bytes) returns (r: Option<seq<Item>>)
    ensures r == match Blocks(s, true)
                 case None => None
                 case Some(bs) => match Items(bs) case None => None case Some(reader) => Some(reader.items)
  {
    var found := ReadBlocks(s);
    if found.None? {
      return None;
    }
    var bs := found.value;
    var reader := START;
    for k := 0 to |bs|
      invariant Items(bs[..k]) == Some(reader)
    {
      assert bs[..k + 1] == bs[..k] + [bs[k]];
      ItemsSnoc(bs[..k], bs[k]);
      var next := Step(reader, bs[k]);
      if next.None? {
        Stopped(bs, k + 1);
        return None;
      }
      reader := next.value;
    }
    assert bs[..|bs|] == bs;
    r := Some(reader.items);
  }

  lemma {:induction false} Stopped(bs: seq<Block>, k: nat)
    requires k <= |bs| && Items(bs[..k]).None?
    ensures Items(bs).None?
    decreases |bs| - k
  {
    if k < |bs| {
      assert bs[..k + 1][..k] == bs[..k];
      Stopped(bs, k + 1);
    } else {
      assert bs[..k] == bs;
    }
  }

  // ----- tag insertion

  /** ``data`` with an 802.1Q header carrying ``vlan`` after the two MAC addresses. */
  function Tag(data: bytes, vlan: int): (t: bytes)
    ensures |t| == |data| + 4
  {
    Slice(data, 0, 12) + [0x81, 0x00] + Pack16(vlan % 4096, false) + Slice(data, 12, |data|)
  }

  /** The packet block of ``body`` with its data tagged; ``None`` where packing a length raises. */
  function TagBody(body: bytes, le: bool, vlan: int): (r: Option<bytes>)
    ensures r.Some? ==> |body| >= 20
  {
    if |body| < 20 then None
    else
      var caplen, origlen := Word(body, 12, le), Word(body, 16, le);
      var data := Tag(Slice(body, 20, caplen), vlan);
      var trailer := Slice(body, 20 + caplen + Pad(caplen), |body|);
      if |data| >= WORD || origlen + 4 >= WORD then None
      else Some(body[..12] + Pack32(|data|, le) + Pack32(origlen + 4, le) + data + Zeros(Pad(|data|)) + trailer)
  }

  /** ``insert_tags`` between two blocks: its reader's state, the blocks written and the count. */
  datatype Tagger = Tagger(base: nat, interfaces: seq<Interface>, out: seq<Block>, tagged: nat)

  const FRESH := Tagger(0, [], [], 0)

  predicate Mapped(interfaces: seq<Interface>, vlans: map<nat, int>, interface: nat) {
    interface in vlans && interface < |interfaces| && interfaces[interface].linkType == ETHERNET
  }

  function TagStep(t: Tagger, b: Block, vlans: map<nat, int>): Option<Tagger> {
    if b.kind == SHB then Some(t.(base := |t.interfaces|, out := t.out + [b]))
    else if b.kind == IDB then
      match InterfaceOf(b.body, b.le)
      case None => None
      case Some(i) => Some(t.(interfaces := t.interfaces + [i], out := t.out + [b]))
    else if b.kind != EPB then Some(t.(out := t.out + [b]))
    else if |b.body| < 4 then None
    else
      var interface := t.base + Word(b.body, 0, b.le);
      if interface in vlans && interface >= |t.interfaces| then None
      else if !Mapped(t.interfaces, vlans, interface) then Some(t.(out := t.out + [b]))
      else
        match TagBody(b.body, b.le, vlans[interface])
        case None => None
        case Some(body) => Some(t.(out := t.out + [b.(body := body)], tagged := t.tagged + 1))
  }

  function Tagged(bs: seq<Block>, vlans: map<nat, int>): Option<Tagger> {
    if bs == [] then Some(FRESH)
    else
      match Tagged(bs[..|bs| - 1], vlans)
      case None => None
      case Some(t) =>
        match TagStep(t, bs[|bs| - 1], vlans)
        case None => None
        case Some(t') => if Emittable(t'.out[|t'.out| - 1]) then Some(t') else None
  }

  lemma TaggedSnoc(bs: seq<Block>, b: Block, vlans: map<nat, int>)
    ensures Tagged(bs + [b], vlans) ==
      match Tagged(bs, vlans)
      case None => None
      case Some(t) =>
        match TagStep(t, b, vlans)
        case None => None
        case Some(t') => if Emittable(t'.out[|t'.out| - 1]) then Some(t') else None
  {
    assert (bs + [b])[..|bs|] == bs;
  }

  lemma {:induction false} TaggedStopped(bs: seq<Block>, k: nat, vlans: map<nat, int>)
    requires k <= |bs| && Tagged(bs[..k], vlans).None?
    ensures Tagged(bs, vlans).None?
    decreases |bs| - k
  {
    if k < |bs| {
      assert bs[..k + 1][..k] == bs[..k];
      TaggedStopped(bs, k + 1, vlans);
    } else {
      assert bs[..k] == bs;
    }
  }

  /** The packet block ``b`` is one to tag. */
  predicate Tags(t: Tagger, b: Block, vlans: map<nat, int>) {
    b.kind == EPB && |b.body| >= 4 && Mapped(t.interfaces, vlans, t.base + Word(b.body, 0, b.le))
  }

  /** One step writes one block: the one read, or that packet with its data tagged, which counts. */
  lemma TagStepOut(t: Tagger, b: Block, vlans: map<nat, int>)
    requires TagStep(t, b, vlans).Some?
    ensures var t' := TagStep(t, b, vlans).value;
            && t'.out == t.out + [t'.out[|t.out|]] && |t'.out| == |t.out| + 1
            && t'.out[|t.out|].kind == b.kind && t'.out[|t.out|].le == b.le
            && t'.tagged == t.tagged + (if Tags(t, b, vlans) then 1 else 0)
            && (!Tags(t, b, vlans) ==> t'.out[|t.out|] == b)
    ensures Tags(t, b, vlans) ==>
      var tagged := TagBody(b.body, b.le, vlans[t.base + Word(b.body, 0, b.le)]);
      |b.body| >= 20 && tagged.Some? && TagStep(t, b, vlans).value.out[|t.out|] == b.(body := tagged.value)
  {
    hide TagBody, Word;
  }

  lemma {:induction false} OutIsEmittable(bs: seq<Block>, vlans: map<nat, int>)
    requires Tagged(bs, vlans).Some?
    ensures |Tagged(bs, vlans).value.out| == |bs| && AllEmittable(Tagged(bs, vlans).value.out)
  {
    hide TagStep;
    if bs != [] {
      var before := bs[..|bs| - 1];
      OutIsEmittable(before, vlans);
      var t, out := Tagged(before, vlans).value, Tagged(bs, vlans).value.out;
      TagStepOut(t, bs[|bs| - 1], vlans);
      EmittableSnoc(t.out, out[|t.out|]);
    }
  }

  /** Whether the ``k``-th block is tagged, by the interfaces the file has declared before it. */
  predicate Retagged(bs: seq<Block>, vlans: map<nat, int>, k: nat)
    requires k < |bs|
  {
    Tagged(bs[..k], vlans).Some? && Tags(Tagged(bs[..k], vlans).value, bs[k], vlans)
  }

  /** Every block is written, in order, as it was unless it is a packet to tag; then only its data is tagged. */
  lemma {:induction false} OneForOne(bs: seq<Block>, vlans: map<nat, int>, k: nat)
    requires Tagged(bs, vlans).Some? && k < |bs|
    ensures |Tagged(bs, vlans).value.out| == |bs|
    ensures var out := Tagged(bs, vlans).value.out;
            && out[k].kind == bs[k].kind && out[k].le == bs[k].le
            && (!Retagged(bs, vlans, k) ==> out[k] == bs[k])
            && (Retagged(bs, vlans, k) ==>
                  var interface := Tagged(bs[..k], vlans).value.base + Word(bs[k].body, 0, bs[k].le);
                  var tagged := TagBody(bs[k].body, bs[k].le, vlans[interface]);
                  tagged.Some? && out[k] == bs[k].(body := tagged.value))
  {
    hide TagStep, TagBody, Tags, Word;
    var n := |bs| - 1;
    var before := bs[..n];
    OutIsEmittable(before, vlans);
    TagStepOut(Tagged(before, vlans).value, bs[n], vlans);
    if k < n {
      assert before[..k] == bs[..k];
      OneForOne(before, vlans, k);
    }
  }

  /** How many of the first ``n`` blocks are tagged. */
  function Retags(bs: seq<Block>, vlans: map<nat, int>, n: nat): nat
    requires n <= |bs|
  {
    if n == 0 then 0 else Retags(bs, vlans, n - 1) + if Retagged(bs, vlans, n - 1) then 1 else 0
  }

  /** The count returned is the number of blocks tagged. */
  lemma {:induction false} CountsRetagged(bs: seq<Block>, vlans: map<nat, int>, n: nat)
    requires n <= |bs| && Tagged(bs[..n], vlans).Some?
    ensures Tagged(bs[..n], vlans).value.tagged == Retags(bs, vlans, n)
  {
    hide TagStep, Tags;
    if n > 0 {
      assert bs[..n] == bs[..n - 1] + [bs[n - 1]];
      TaggedSnoc(bs[..n - 1], bs[n - 1], vlans);
      CountsRetagged(bs, vlans, n - 1);
      TagStepOut(Tagged(bs[..n - 1], vlans).value, bs[n - 1], vlans);
    }
  }

  lemma {:induction false} EmittableSnoc(bs: seq<Block>, b: Block)
    requires AllEmittable(bs) && Emittable(b)
    ensures AllEmittable(bs + [b])
    ensures EmitAll(bs + [b]) == EmitAll(bs) + Emit(b)
  {
    hide Emit;
    if bs == [] {
      assert EmitAll([b]) == Emit(b) + EmitAll([]);
    } else {
      EmittableSnoc(bs[1..], b);
      assert (bs + [b])[1..] == bs[1..] + [b];
    }
  }

  /** ``insert_tags``: the file written and how many packets it tagged, or ``None`` where it raises. */
  method InsertTags(src: bytes, vlans: map<nat, int>) returns (r: Option<(bytes, nat)>)
    ensures Blocks(src, true).None? ==> r.None?
    ensures Blocks(src, true).Some? && Tagged(Blocks(src, true).value, vlans).None? ==> r.None?
    ensures Blocks(src, true).Some? && Tagged(Blocks(src, true).value, vlans).Some? ==>
      var bs := Blocks(src, true).value;
      var t := Tagged(bs, vlans).value;
      AllEmittable(t.out) && r == Some((EmitAll(t.out), t.tagged)) && t.tagged == Retags(bs, vlans, |bs|)
  {
    var found := ReadBlocks(src);
    if found.None? {
      return None;
    }
    var bs := found.value;
    r := WriteTagged(bs, vlans);
    assert bs[..|bs|] == bs;
    if r.Some? {
      CountsRetagged(bs, vlans, |bs|);
    }
  }

  method WriteTagged(bs: seq<Block>, vlans: map<nat, int>) returns (r: Option<(bytes, nat)>)
    ensures Tagged(bs, vlans).None? ==> r.None?
    ensures Tagged(bs, vlans).Some? ==>
      AllEmittable(Tagged(bs, vlans).value.out) && r == Some((EmitAll(Tagged(bs, vlans).value.out), Tagged(bs, vlans).value.tagged))
  {
    hide TagStep, Emit;
    var t, out := FRESH, [];
    for k := 0 to |bs|
      invariant Tagged(bs[..k], vlans) == Some(t)
      invariant AllEmittable(t.out) && out == EmitAll(t.out)
    {
      assert bs[..k + 1] == bs[..k] + [bs[k]];
      TaggedSnoc(bs[..k], bs[k], vlans);
      var next := TagStep(t, bs[k], vlans);
      if next.Some? {
        TagStepOut(t, bs[k], vlans);
      }
      if next.None? || !Emittable(next.value.out[|t.out|]) {
        TaggedStopped(bs, k + 1, vlans);
        return None;
      }
      EmittableSnoc(t.out, next.value.out[|t.out|]);
      out := out + Emit(next.value.out[|t.out|]);
      t := next.value;
    }
    assert bs[..|bs|] == bs;
    r := Some((out, t.tagged));
  }

  // ----- tagging commutes with reading

  function TagPacket(p: Packet, vlan: int): Packet {
    p.(data := Tag(p.data, vlan), originalLen := match p.originalLen case None => None case Some(n) => Some(n + 4))
  }

  function TagItem(x: Item, interfaces: seq<Interface>, vlans: map<nat, int>): Item {
    match x
    case Declared(i) => x
    case Seen(p) => if Mapped(interfaces, vlans, p.interface) then Seen(TagPacket(p, vlans[p.interface])) else x
  }

  /** The items of a file with exactly the Ethernet packets of the mapped interfaces tagged. */
  function TagItems(items: seq<Item>, interfaces: seq<Interface>, vlans: map<nat, int>): (r: seq<Item>)
    ensures |r| == |items| && forall k :: 0 <= k < |items| ==> r[k] == TagItem(items[k], interfaces, vlans)
  {
    seq(|items|, k requires 0 <= k < |items| => TagItem(items[k], interfaces, vlans))
  }

  function TaggedCount(items: seq<Item>, interfaces: seq<Interface>, vlans: map<nat, int>): nat {
    if items == [] then 0
    else
      var x := items[|items| - 1];
      TaggedCount(items[..|items| - 1], interfaces, vlans)
      + if x.Seen? && Mapped(interfaces, vlans, x.packet.interface) then 1 else 0
  }

  /** A frame is kept around its tag, and the tag carries the low twelve bits of the id. */
  lemma TagShape(data: bytes, vlan: int)
    requires |data| >= 12
    ensures Tag(data, vlan)[..12] == data[..12] && Tag(data, vlan)[16..] == data[12..]
    ensures Short(Tag(data, vlan), 12, false) == 0x8100 && Short(Tag(data, vlan), 14, false) == vlan % 4096
  {
    var t, tci := Tag(data, vlan), Pack16(vlan % 4096, false);
    assert t == data[..12] + [0x81, 0x00] + tci + data[12..];
    assert t[14] == tci[0] && t[15] == tci[1];
    assert t[12] == 0x81 && t[13] == 0;
  }

  lemma TagLengths(p: Packet, vlan: int)
    ensures |TagPacket(p, vlan).data| == |p.data| + 4 && WireLen(TagPacket(p, vlan)) == WireLen(p) + 4
    ensures TagPacket(p, vlan).ns == p.ns && TagPacket(p, vlan).interface == p.interface
  {
  }

  /**
   * The captured bytes lie inside the block, as section 4.3 has it; or, where they run past it, the
   * length on the wire is neither the length captured nor what there is of it.
   */
  predicate Settled(body: bytes, le: bool) {
    |body| < 20 ||
    var caplen, origlen := Word(body, 12, le), Word(body, 16, le);
    20 + caplen <= |body| || (origlen != caplen && origlen != |body| - 20)
  }

  lemma FieldsOf(body: bytes, le: bool, vlan: int)
    requires TagBody(body, le, vlan).Some?
    ensures var body', data := TagBody(body, le, vlan).value, Tag(Slice(body, 20, Word(body, 12, le)), vlan);
            && |body'| >= 20 + |data|
            && Word(body', 0, le) == Word(body, 0, le) && Word(body', 4, le) == Word(body, 4, le)
            && Word(body', 8, le) == Word(body, 8, le)
            && Word(body', 12, le) == |data| && Word(body', 16, le) == Word(body, 16, le) + 4
            && Slice(body', 20, |data|) == data
  {
    hide Pack32, Tag, Word, Zeros, Pad;
    var body', data := TagBody(body, le, vlan).value, Tag(Slice(body, 20, Word(body, 12, le)), vlan);
    var trailer := Slice(body, 20 + Word(body, 12, le) + Pad(Word(body, 12, le)), |body|);
    var n, w := Pack32(|data|, le), Pack32(Word(body, 16, le) + 4, le);
    assert body' == body[..12] + n + w + data + Zeros(Pad(|data|)) + trailer;
    assert body'[12..16] == n && body'[16..20] == w && body'[20..20 + |data|] == data;
    assert At(body', 12, n) && At(body', 16, w);
    WordAt(body', 12, |data|, le);
    WordAt(body', 16, Word(body, 16, le) + 4, le);
    assert body'[..12] == body[..12];
    SameWords(body, body', le);
  }

  lemma SameWords(a: bytes, b: bytes, le: bool)
    requires |a| >= 12 && |b| >= 12 && a[..12] == b[..12]
    ensures Word(a, 0, le) == Word(b, 0, le) && Word(a, 4, le) == Word(b, 4, le) && Word(a, 8, le) == Word(b, 8, le)
  {
    assert forall k :: 0 <= k < 12 ==> a[k] == a[..12][k] == b[..12][k] == b[k];
  }

  /** How many bytes a packet block holds of those it says were captured. */
  lemma HeldData(body: bytes, caplen: nat)
    requires |body| >= 20
    ensures |Slice(body, 20, caplen)| == if 20 + caplen <= |body| then caplen else |body| - 20
  {
  }

  /** Reading a tagged packet block is tagging the packet read, exactly where the block's lengths are settled. */
  lemma PacketCommutes(body: bytes, le: bool, base: nat, interfaces: seq<Interface>, vlan: int)
    requires TagBody(body, le, vlan).Some? && PacketOf(body, le, base, interfaces).Some?
    ensures var before := PacketOf(body, le, base, interfaces).value;
            var after := PacketOf(TagBody(body, le, vlan).value, le, base, interfaces);
            after.Some? && after.value.interface == before.interface && (after.value == TagPacket(before, vlan) <==> Settled(body, le))
  {
    hide TagBody, Word, Tag, Slice;
    FieldsOf(body, le, vlan);
    HeldData(body, Word(body, 12, le));
  }

  /** The options after the packet data are kept byte for byte. */
  lemma TrailerKept(body: bytes, le: bool, vlan: int)
    requires TagBody(body, le, vlan).Some?
    ensures var body', n, n' := TagBody(body, le, vlan).value, Word(body, 12, le), |Slice(body, 20, Word(body, 12, le))| + 4;
            Slice(body', 20 + n' + Pad(n'), |body'|) == Slice(body, 20 + n + Pad(n), |body|)
  {
    hide Word, Pack32, Tag;
    var body', n := TagBody(body, le, vlan).value, Word(body, 12, le);
    var data := Tag(Slice(body, 20, n), vlan);
    var trailer := Slice(body, 20 + n + Pad(n), |body|);
    var head := body[..12] + Pack32(|data|, le) + Pack32(Word(body, 16, le) + 4, le) + data + Zeros(Pad(|data|));
    assert body' == head + trailer && |head| == 20 + |data| + Pad(|data|);
    assert body'[|head|..] == trailer;
  }

  /**
   * The reader of the tagged blocks keeps step with the tagger and with the reader of the source:
   * what it has read is what that has read, tagged, if and only if ``exact``.
   */
  ghost predicate InStep(r: Reader, t: Tagger, r': Reader, vlans: map<nat, int>, exact: bool) {
    && t.base == r.base == r'.base && t.interfaces == r.interfaces == r'.interfaces
    && (forall x :: x in r.items && x.Seen? ==> x.packet.interface < |r.interfaces|)
    && |r'.items| == |r.items| && (r'.items == TagItems(r.items, r.interfaces, vlans) <==> exact)
    && t.tagged == TaggedCount(r.items, r.interfaces, vlans)
  }

  lemma {:induction false} CountGrows(items: seq<Item>, interfaces: seq<Interface>, i: Interface, vlans: map<nat, int>)
    requires forall x :: x in items && x.Seen? ==> x.packet.interface < |interfaces|
    ensures TaggedCount(items, interfaces + [i], vlans) == TaggedCount(items, interfaces, vlans)
  {
    if items != [] {
      assert items[|items| - 1] in items;
      CountGrows(items[..|items| - 1], interfaces, i, vlans);
    }
  }

  lemma DeclareInStep(r: Reader, t: Tagger, r': Reader, i: Interface, vlans: map<nat, int>, exact: bool)
    requires InStep(r, t, r', vlans, exact)
    ensures var x := Declared(i); var ifs := r.interfaces + [i];
            InStep(r.(interfaces := ifs, items := r.items + [x]), t.(interfaces := ifs), r'.(interfaces := ifs,
                  items := r'.items + [x]), vlans, exact)
  {
    hide TaggedCount, TagItem, Mapped;
    var items, ifs := r.items + [Declared(i)], r.interfaces + [i];
    assert forall x :: x in items ==> x in r.items || x == Declared(i);
    CountDeclared(r.items, r.interfaces, i, vlans);
    TagDeclared(r.items, r.interfaces, i, vlans);
    LastApart(r'.items, TagItems(r.items, r.interfaces, vlans), Declared(i), Declared(i));
  }

  lemma CountDeclared(items: seq<Item>, interfaces: seq<Interface>, i: Interface, vlans: map<nat, int>)
    requires forall x :: x in items && x.Seen? ==> x.packet.interface < |interfaces|
    ensures TaggedCount(items + [Declared(i)], interfaces + [i], vlans) == TaggedCount(items, interfaces, vlans)
  {
    assert (items + [Declared(i)])[..|items|] == items;
    CountGrows(items, interfaces, i, vlans);
  }

  lemma TagDeclared(items: seq<Item>, interfaces: seq<Interface>, i: Interface, vlans: map<nat, int>)
    requires forall x :: x in items && x.Seen? ==> x.packet.interface < |interfaces|
    ensures TagItems(items + [Declared(i)], interfaces + [i], vlans) == TagItems(items, interfaces, vlans) + [Declared(i)]
  {
    forall k | 0 <= k < |items|
      ensures TagItem(items[k], interfaces + [i], vlans) == TagItem(items[k], interfaces, vlans)
    {
      assert items[k] in items;
    }
  }

  lemma LastApart<T>(a: seq<T>, b: seq<T>, x: T, y: T)
    ensures a + [x] == b + [y] <==> a == b && x == y
  {
    assert (a + [x])[..|a|] == a && (a + [x])[|a|] == x;
    assert (b + [y])[..|b|] == b && (b + [y])[|b|] == y;
  }

  lemma SeeInStep(r: Reader, t: Tagger, r': Reader, p: Packet, p': Packet, vlans: map<nat, int>, exact: bool)
    requires InStep(r, t, r', vlans, exact) && p.interface < |r.interfaces|
    ensures InStep(r.(items := r.items + [Seen(p)]),
                   t.(tagged := t.tagged + if Mapped(r.interfaces, vlans, p.interface) then 1 else 0),
                   r'.(items := r'.items + [Seen(p')]), vlans, exact && Seen(p') == TagItem(Seen(p), r.interfaces, vlans))
  {
    var items := r.items + [Seen(p)];
    assert items[..|items| - 1] == r.items;
    assert forall x :: x in items ==> x in r.items || x == Seen(p);
    assert TagItems(items, r.interfaces, vlans)
        == TagItems(r.items, r.interfaces, vlans) + [TagItem(Seen(p), r.interfaces, vlans)];
    LastApart(r'.items, TagItems(r.items, r.interfaces, vlans), Seen(p'), TagItem(Seen(p), r.interfaces, vlans));
  }

  lemma StepInStep(r: Reader, t: Tagger, r': Reader, b: Block, vlans: map<nat, int>, exact: bool)
    requires InStep(r, t, r', vlans, exact)
    requires Step(r, b).Some? && TagStep(t, b, vlans).Some?
    ensures var b' := TagStep(t, b, vlans).value.out[|t.out|];
            && Step(r', b').Some?
            && InStep(Step(r, b).value, TagStep(t, b, vlans).value, Step(r', b').value, vlans,
                      exact && (Tags(t, b, vlans) ==> Settled(b.body, b.le)))
  {
    hide TagBody, InterfaceOf, Word, TaggedCount, TagItems, Settled;
    TagStepOut(t, b, vlans);
    if b.kind == IDB {
      DeclareInStep(r, t, r', InterfaceOf(b.body, b.le).value, vlans, exact);
    } else if b.kind == EPB {
      var p := PacketOf(b.body, b.le, r.base, r.interfaces).value;
      var b' := TagStep(t, b, vlans).value.out[|t.out|];
      if Mapped(t.interfaces, vlans, p.interface) {
        PacketCommutes(b.body, b.le, r.base, r.interfaces, vlans[p.interface]);
      }
      SeeInStep(r, t, r', p, PacketOf(b'.body, b.le, r.base, r.interfaces).value, vlans, exact);
    }
  }

  /** Every packet tagged has settled lengths. */
  predicate AllSettled(bs: seq<Block>, vlans: map<nat, int>) {
    forall k :: 0 <= k < |bs| && Retagged(bs, vlans, k) ==> Settled(bs[k].body, bs[k].le)
  }

  lemma SettledSnoc(bs: seq<Block>, vlans: map<nat, int>)
    requires bs != [] && Tagged(bs[..|bs| - 1], vlans).Some?
    ensures var n := |bs| - 1;
            AllSettled(bs, vlans) <==>
              AllSettled(bs[..n], vlans) && (Tags(Tagged(bs[..n], vlans).value, bs[n], vlans) ==> Settled(bs[n].body, bs[n].le))
  {
    hide Retagged, Settled;
    var n := |bs| - 1;
    forall k | 0 <= k < n
      ensures Retagged(bs[..n], vlans, k) <==> Retagged(bs, vlans, k)
    {
      RetaggedStays(bs, n, vlans, k);
    }
    LastRetagged(bs, vlans);
  }

  lemma RetaggedStays(bs: seq<Block>, n: nat, vlans: map<nat, int>, k: nat)
    requires k < n <= |bs|
    ensures Retagged(bs[..n], vlans, k) <==> Retagged(bs, vlans, k)
  {
    assert bs[..n][..k] == bs[..k];
  }

  lemma LastRetagged(bs: seq<Block>, vlans: map<nat, int>)
    requires bs != [] && Tagged(bs[..|bs| - 1], vlans).Some?
    ensures Retagged(bs, vlans, |bs| - 1) <==> Tags(Tagged(bs[..|bs| - 1], vlans).value, bs[|bs| - 1], vlans)
  {
  }

  /** Reading the tagged blocks is tagging what reading the source gives, exactly where the tagged packets' lengths are settled. */
  lemma {:induction false} BlocksCommute(bs: seq<Block>, vlans: map<nat, int>)
    requires Items(bs).Some? && Tagged(bs, vlans).Some?
    ensures Items(Tagged(bs, vlans).value.out).Some?
    ensures InStep(Items(bs).value, Tagged(bs, vlans).value, Items(Tagged(bs, vlans).value.out).value, vlans, AllSettled(bs, vlans))
  {
    hide TagStep, Step, InStep, AllSettled, Tags, Settled;
    if bs == [] {
      NothingRead(vlans);
    } else {
      var before, last := bs[..|bs| - 1], bs[|bs| - 1];
      BlocksCommute(before, vlans);
      var t, t' := Tagged(before, vlans).value, Tagged(bs, vlans).value;
      TagStepOut(t, last, vlans);
      ItemsSnoc(t.out, t'.out[|t.out|]);
      SettledSnoc(bs, vlans);
      StepInStep(Items(before).value, t, Items(t.out).value, last, vlans, AllSettled(before, vlans));
    }
  }

  lemma NothingRead(vlans: map<nat, int>)
    ensures Items([]).Some? && Tagged([], vlans).Some? && AllSettled([], vlans)
    ensures InStep(START, FRESH, START, vlans, true)
  {
  }

  // ----- the file-level theorems

  lemma {:induction false} OutInSections(bs: seq<Block>, out: seq<Block>, le: bool)
    requires |out| == |bs| && InSections(bs, le)
    requires forall k :: 0 <= k < |bs| ==>
      out[k].kind == bs[k].kind && out[k].le == bs[k].le && (bs[k].kind != EPB ==> out[k] == bs[k])
    ensures InSections(out, le)
  {
    if bs != [] {
      OutInSections(bs[1..], out[1..], bs[0].le);
    }
  }

  /** What was written reads back as the blocks written, but for the types in big-endian sections. */
  lemma TaggedFileReadsBack(src: bytes, vlans: map<nat, int>)
    requires Blocks(src, true).Some? && Tagged(Blocks(src, true).value, vlans).Some?
    ensures var out := Tagged(Blocks(src, true).value, vlans).value.out;
            AllEmittable(out) && Blocks(EmitAll(out), true) == Some(AsReadAll(out))
  {
    hide Blocks, Tagged, Retagged, TagBody, InSections, AsRead;
    var bs := Blocks(src, true).value;
    var out := Tagged(bs, vlans).value.out;
    OutIsEmittable(bs, vlans);
    ParsedInSections(src, true);
    forall k | 0 <= k < |bs|
      ensures out[k].kind == bs[k].kind && out[k].le == bs[k].le && (bs[k].kind != EPB ==> out[k] == bs[k])
    {
      OneForOne(bs, vlans, k);
      if bs[k].kind != EPB {
        OnlyPackets(bs, vlans, k);
      }
    }
    OutInSections(bs, out, true);
    ReadEmitAll(out, true);
  }

  lemma OnlyPackets(bs: seq<Block>, vlans: map<nat, int>, k: nat)
    requires k < |bs| && bs[k].kind != EPB
    ensures !Retagged(bs, vlans, k)
  {
  }

  /** A big-endian block that is an interface or a packet neither as it stands nor with its type reversed. */
  predicate Foreign(b: Block) {
    !b.le ==> b.kind != IDB && b.kind != EPB && AsRead(b).kind != IDB && AsRead(b).kind != EPB
  }

  lemma {:induction false} ForeignItems(bs: seq<Block>)
    requires forall k :: 0 <= k < |bs| ==> Foreign(bs[k]) && bs[k].kind < WORD
    ensures Items(AsReadAll(bs)) == Items(bs)
  {
    hide AsRead, InterfaceOf, PacketOf;
    if bs != [] {
      var n := |bs| - 1;
      ForeignItems(bs[..n]);
      assert AsReadAll(bs)[..n] == AsReadAll(bs[..n]);
      assert Foreign(bs[n]);
      OrderStays(bs[n]);
      HeaderStays(bs[n]);
    }
  }

  // ----- which items are tagged, in their own terms

  /** Item ``k`` is a packet whose interface is mapped, and was declared with link type 1, Ethernet's. */
  predicate ToTag(items: seq<Item>, vlans: map<nat, int>, k: nat)
    requires k < |items|
  {
    && items[k].Seen? && items[k].packet.interface in vlans
    && items[k].packet.interface < |Interfaces(items)| && Interfaces(items)[items[k].packet.interface].linkType == 1
  }

  /** The packet with an 802.1Q header, section 9.6 of IEEE 802.1Q, in front of its EtherType, four bytes longer than it was. */
  ghost predicate Carries(p: Packet, vlan: int, q: Packet) {
    var n := if |p.data| < 12 then |p.data| else 12;
    && q.interface == p.interface && q.ns == p.ns
    && q.data == p.data[..n] + [0x81, 0x00, vlan % 4096 / 256, vlan % 256] + p.data[n..]
    && q.originalLen == match p.originalLen case None => None case Some(wire) => Some(wire + 4)
  }

  /** ``after`` is ``before`` with the packets to tag carrying their interface's id, and everything else as it was. */
  ghost predicate ItemsTagged(before: seq<Item>, vlans: map<nat, int>, after: seq<Item>) {
    && |after| == |before|
    && forall k :: 0 <= k < |before| ==> ItemTagged(before, vlans, k, after[k])
  }

  ghost predicate ItemTagged(before: seq<Item>, vlans: map<nat, int>, k: nat, x: Item)
    requires k < |before|
  {
    if ToTag(before, vlans, k) then x.Seen? && Carries(before[k].packet, vlans[before[k].packet.interface], x.packet)
    else x == before[k]
  }

  lemma CarriesIsTag(p: Packet, vlan: int, q: Packet)
    ensures Carries(p, vlan, q) <==> q == TagPacket(p, vlan)
  {
    var n := if |p.data| < 12 then |p.data| else 12;
    assert vlan % 4096 % 256 == vlan % 256;
    assert Slice(p.data, 0, 12) == p.data[..n] && Slice(p.data, 12, |p.data|) == p.data[n..];
    assert Pack16(vlan % 4096, false) == [vlan % 4096 / 256, vlan % 256];
    assert p.data[..n] + [0x81, 0x00, vlan % 4096 / 256, vlan % 256] + p.data[n..]
        == p.data[..n] + [0x81, 0x00] + [vlan % 4096 / 256, vlan % 256] + p.data[n..];
  }

  lemma ItemTaggedIs(before: seq<Item>, vlans: map<nat, int>, k: nat, x: Item)
    requires k < |before|
    ensures ItemTagged(before, vlans, k, x) <==> x == TagItem(before[k], Interfaces(before), vlans)
  {
    hide Carries, TagPacket;
    if x.Seen? && before[k].Seen? && before[k].packet.interface in vlans {
      CarriesIsTag(before[k].packet, vlans[before[k].packet.interface], x.packet);
    }
  }

  lemma ItemsTaggedAre(before: seq<Item>, vlans: map<nat, int>, after: seq<Item>)
    ensures ItemsTagged(before, vlans, after) <==> after == TagItems(before, Interfaces(before), vlans)
  {
    hide TagItem, ItemTagged;
    var tagged := TagItems(before, Interfaces(before), vlans);
    if |after| == |before| {
      forall k | 0 <= k < |before|
        ensures ItemTagged(before, vlans, k, after[k]) <==> after[k] == tagged[k]
      {
        ItemTaggedIs(before, vlans, k, after[k]);
      }
    }
  }

  ghost function TagPlaces(items: seq<Item>, vlans: map<nat, int>, n: nat): set<nat>
    requires n <= |items|
  {
    set k: nat | k < n && ToTag(items, vlans, k)
  }

  lemma TagPlacesSnoc(items: seq<Item>, vlans: map<nat, int>, n: nat)
    requires 0 < n <= |items|
    ensures TagPlaces(items, vlans, n) ==
      if ToTag(items, vlans, n - 1) then TagPlaces(items, vlans, n - 1) + {n - 1} else TagPlaces(items, vlans, n - 1)
    ensures n - 1 !in TagPlaces(items, vlans, n - 1)
  {
    hide ToTag;
  }

  lemma CountSnoc(items: seq<Item>, vlans: map<nat, int>, n: nat)
    requires 0 < n <= |items|
    ensures TaggedCount(items[..n], Interfaces(items), vlans) ==
      TaggedCount(items[..n - 1], Interfaces(items), vlans) + if ToTag(items, vlans, n - 1) then 1 else 0
  {
    hide Interfaces;
    assert items[..n][..n - 1] == items[..n - 1];
  }

  lemma {:induction false} CountIsToTag(items: seq<Item>, vlans: map<nat, int>, n: nat)
    requires n <= |items|
    ensures TaggedCount(items[..n], Interfaces(items), vlans) == |TagPlaces(items, vlans, n)|
  {
    hide ToTag, TaggedCount, Interfaces;
    if n > 0 {
      CountIsToTag(items, vlans, n - 1);
      CountSnoc(items, vlans, n);
      hide TagPlaces;
      TagPlacesSnoc(items, vlans, n);
    } else {
      NoneCounted(items, vlans);
    }
  }

  lemma NoneCounted(items: seq<Item>, vlans: map<nat, int>)
    ensures TaggedCount(items[..0], Interfaces(items), vlans) == 0 && TagPlaces(items, vlans, 0) == {}
  {
  }

  /**
   * Tagging raises at a block exactly where an interface cannot be read, a packet is too short to say its
   * interface, that interface is mapped and not declared, or the packet is to be tagged and has not its twenty
   * bytes of fields or no room for four bytes more.
   */
  lemma TaggingRaises(t: Tagger, b: Block, vlans: map<nat, int>)
    ensures TagStep(t, b, vlans).None? <==>
      || (b.kind == IDB && InterfaceOf(b.body, b.le).None?)
      || (b.kind == EPB && |b.body| < 4)
      || (b.kind == EPB && |b.body| >= 4
          && var interface := t.base + Word(b.body, 0, b.le);
             && interface in vlans
             && (|| interface >= |t.interfaces|
                 || (t.interfaces[interface].linkType == 1 && (|b.body| < 20 || !HasRoom(b.body, b.le)))))
  {
    hide InterfaceOf, Word, Tag, Pack32, Zeros;
  }

  /** A captured and a wire length four higher still fit their fields. */
  predicate HasRoom(body: bytes, le: bool)
    requires |body| >= 20
  {
    |Slice(body, 20, Word(body, 12, le))| + 4 < 0x1_0000_0000 && Word(body, 16, le) + 4 < 0x1_0000_0000
  }

  /** No block is within a tag's length of the longest there can be, nor a packet's length on the wire. */
  predicate RoomToTag(bs: seq<Block>) {
    forall k :: 0 <= k < |bs| ==>
      && bs[k].kind < 0x1_0000_0000 && |bs[k].body| + 20 < 0x1_0000_0000
      && (bs[k].kind == EPB && |bs[k].body| >= 20 ==> Word(bs[k].body, 16, bs[k].le) + 4 < 0x1_0000_0000)
  }

  lemma TagFits(body: bytes, le: bool, vlan: int)
    requires 20 <= |body| && |body| + 20 < WORD && Word(body, 16, le) + 4 < WORD
    ensures TagBody(body, le, vlan).Some? && Fits(TagBody(body, le, vlan).value)
  {
    hide Word, Tag, Pack32, Zeros;
    var caplen := Word(body, 12, le);
    HeldData(body, caplen);
    assert |Slice(body, 20 + caplen + Pad(caplen), |body|)| <= |body| - 20;
    if 20 + caplen <= |body| {
      assert |Slice(body, 20 + caplen + Pad(caplen), |body|)| <= |body| - 20 - caplen;
    } else {
      assert Slice(body, 20 + caplen + Pad(caplen), |body|) == [];
    }
  }

  lemma StepTags(r: Reader, t: Tagger, b: Block, vlans: map<nat, int>)
    requires Step(r, b).Some? && t.base == r.base && t.interfaces == r.interfaces && RoomToTag([b])
    ensures TagStep(t, b, vlans).Some? && Emittable(TagStep(t, b, vlans).value.out[|t.out|])
  {
    hide TagBody, InterfaceOf, Word, ToNs;
    assert [b][0] == b;
    if b.kind == EPB {
      var interface := t.base + Word(b.body, 0, b.le);
      if Mapped(t.interfaces, vlans, interface) {
        TagFits(b.body, b.le, vlans[interface]);
      }
    }
  }

  /** Whatever can be read can be tagged, where no length outgrows its field. */
  lemma {:induction false} ReadableIsTaggable(bs: seq<Block>, vlans: map<nat, int>)
    requires Items(bs).Some? && RoomToTag(bs)
    ensures Tagged(bs, vlans).Some?
  {
    hide Step, TagStep, RoomToTag, Emittable;
    if bs != [] {
      var before, last := bs[..|bs| - 1], bs[|bs| - 1];
      RoomOfParts(bs);
      ReadableIsTaggable(before, vlans);
      BlocksCommute(before, vlans);
      var t := Tagged(before, vlans).value;
      StepTags(Items(before).value, t, last, vlans);
      TagStepOut(t, last, vlans);
    }
  }

  lemma RoomOfParts(bs: seq<Block>)
    requires bs != [] && RoomToTag(bs)
    ensures RoomToTag(bs[..|bs| - 1]) && RoomToTag([bs[|bs| - 1]])
  {
  }

  /**
   * Reading what ``insert_tags`` wrote is reading the source and then tagging exactly the packets of
   * the mapped interfaces that were declared as Ethernet, exactly where the tagged packets' lengths are
   * settled, over any number of sections with no interface or packet in a big-endian one; the count it
   * returns is how many such packets there are. Whatever can be read it tags, where no length outgrows its field.
   */
  method InsertTagsThenRead(src: bytes, vlans: map<nat, int>) returns (tagged: Option<(bytes, nat)>,
        before: Option<seq<Item>>, after: Option<seq<Item>>)
    ensures before.Some? ==> Blocks(src, true).Some?
    ensures before.Some? && RoomToTag(Blocks(src, true).value) ==> tagged.Some?
    ensures tagged.Some? && before.Some? ==>
      tagged.value.1 == |set k: nat | k < |before.value| && ToTag(before.value, vlans, k)|
    ensures tagged.Some? && before.Some? && (forall b :: b in Blocks(src, true).value ==> Foreign(b)) ==>
      && after.Some? && |after.value| == |before.value|
      && (ItemsTagged(before.value, vlans, after.value) <==> AllSettled(Blocks(src, true).value, vlans))
  {
    hide Blocks, Tagged, Items, AllSettled, Foreign, AllEmittable, EmitAll, ToTag, ItemsTagged, TaggedCount,
         RoomToTag;
    tagged := InsertTags(src, vlans);
    before := Read(src);
    after := None;
    if before.Some? && RoomToTag(Blocks(src, true).value) {
      ReadableIsTaggable(Blocks(src, true).value, vlans);
    }
    if tagged.Some? {
      after := Read(tagged.value.0);
      if before.Some? {
        ghost var bs := Blocks(src, true).value;
        TaggedFileReadsBack(src, vlans);
        BlocksCommute(bs, vlans);
        InterfacesOf(bs);
        CountIsToTag(before.value, vlans, |before.value|);
        assert before.value[..|before.value|] == before.value;
        if after.Some? {
          ItemsTaggedAre(before.value, vlans, after.value);
        }
        if forall b :: b in bs ==> Foreign(b) {
          ForeignOut(bs, vlans);
        }
      }
    }
  }

  lemma ForeignOut(bs: seq<Block>, vlans: map<nat, int>)
    requires Tagged(bs, vlans).Some? && forall b :: b in bs ==> Foreign(b)
    ensures var out := Tagged(bs, vlans).value.out; Items(AsReadAll(out)) == Items(out)
  {
    hide Tagged, AsRead, TagBody, Retagged, Items;
    var out := Tagged(bs, vlans).value.out;
    OutIsEmittable(bs, vlans);
    forall k | 0 <= k < |out|
      ensures Foreign(out[k]) && out[k].kind < WORD
    {
      OneForOne(bs, vlans, k);
      KindKept(out[k], bs[k]);
      assert bs[k] in bs;
      EmittableAt(out, k);
    }
    ForeignItems(out);
  }

  lemma KindKept(b: Block, c: Block)
    requires b.kind == c.kind && b.le == c.le
    ensures AsRead(b).kind == AsRead(c).kind
  {
  }

  lemma {:induction false} EmittableAt(bs: seq<Block>, k: nat)
    requires AllEmittable(bs) && k < |bs|
    ensures Emittable(bs[k])
  {
    if k > 0 {
      EmittableAt(bs[1..], k - 1);
    }
  }

  /** The interfaces among some items, in order. */
  function Interfaces(items: seq<Item>): seq<Interface> {
    if items == [] then []
    else
      var before, x := Interfaces(items[..|items| - 1]), items[|items| - 1];
      if x.Declared? then before + [x.interface] else before
  }

  lemma {:induction false} InterfacesOf(bs: seq<Block>)
    requires Items(bs).Some?
    ensures Interfaces(Items(bs).value.items) == Items(bs).value.interfaces
  {
    hide Step;
    if bs != [] {
      InterfacesOf(bs[..|bs| - 1]);
      StepDeclares(Items(bs[..|bs| - 1]).value, bs[|bs| - 1]);
    }
  }

  lemma StepDeclares(r: Reader, b: Block)
    requires Step(r, b).Some? && Interfaces(r.items) == r.interfaces
    ensures var r' := Step(r, b).value; Interfaces(r'.items) == r'.interfaces
  {
    hide InterfaceOf, PacketOf;
    var r' := Step(r, b).value;
    if r'.items != r.items {
      assert r'.items[..|r.items|] == r.items && |r'.items| == |r.items| + 1;
    }
  }
}
