/** The blocks the writer writes, byte by byte, and what any writer's interfaces and packets are read as. */
module PcapngFormat {
  import opened Wrappers
  import opened Pcapng
  import opened PcapngPackets
  import opened PcapngWriter

  /** ``n`` zero bytes that fill ``length`` up to a multiple of four. */
  ghost predicate Fills(z: bytes, length: nat) {
    |z| < 4 && (length + |z|) % 4 == 0 && forall k :: 0 <= k < |z| ==> z[k] == 0
  }

  lemma FillsIs(z: bytes, length: nat)
    ensures Fills(z, length) <==> z == Zeros(Pad(length))
  {
    if Fills(z, length) {
      assert |z| == Pad(length);
    }
  }

  // ----- what the writer writes

  /** An option, section 3.5: its code, its length, its value. */
  lemma OptionIs(code: nat, value: bytes, z: bytes)
    requires code < 0x1_0000 && |value| < 0x1_0000 && Fills(z, |value|)
    ensures OptionBytes(code, value) == Pack16(code, true) + Pack16(|value|, true) + value + z
  {
    FillsIs(z, |value|);
  }

  lemma EndOption()
    ensures OptionBytes(OPT_END, []) == [0, 0, 0, 0]
  {
    assert Pack16(0, true) == [0, 0];
  }

  /** A block, section 3.1: its type, its length, its body, its length again. */
  lemma BlockIs(kind: nat, body: bytes, n: nat, typed: bytes, written: bytes)
    requires kind < WORD && n == 12 + |body| < WORD && typed == Pack32(kind, true) && written == body
    ensures Emit(Block(kind, body, true)) == typed + Pack32(n, true) + written + Pack32(n, true)
  {
    hide Pack32;
  }

  lemma SectionHead()
    ensures Pack32(MAGIC, true) + Pack16(1, true) + Pack16(0, true) + [255, 255, 255, 255, 255, 255, 255, 255]
            == [0x4D, 0x3C, 0x2B, 0x1A, 1, 0, 0, 0, 255, 255, 255, 255, 255, 255, 255, 255]
  {
    Digits(0x4D, 0x3C, 0x2B, 0x1A);
    assert Pack32(MAGIC, true) == [0x4D, 0x3C, 0x2B, 0x1A];
    assert Pack16(1, true) == [1, 0] && Pack16(0, true) == [0, 0];
  }

  /** The section header, section 4.1: magic, version 1.0, no section length, the application. */
  lemma SectionBytes(application: bytes, z: bytes)
    requires |application| < 0x1_0000 && Fills(z, |application|)
    ensures var n := 36 + |application| + |z|;
            Emit(Block(SHB, SectionBody(application), true)) ==
              [0x0A, 0x0D, 0x0D, 0x0A] + Pack32(n, true)
              + ([0x4D, 0x3C, 0x2B, 0x1A, 1, 0, 0, 0, 255, 255, 255, 255, 255, 255, 255, 255]
                 + ([4, 0] + Pack16(|application|, true) + application + z) + [0, 0, 0, 0])
              + Pack32(n, true)
  {
    SectionHead();
    HeaderIsPalindrome();
    OptionIs(4, application, z);
    EndOption();
    assert Pack16(4, true) == [4, 0];
    hide Pack16, Pack32, OptionBytes, Emit;
    BlockIs(SHB, SectionBody(application), 36 + |application| + |z|, [0x0A, 0x0D, 0x0D, 0x0A], SectionBody(application));
  }

  lemma InterfaceHead()
    ensures Pack32(1, true) == [1, 0, 0, 0] && Pack16(2, true) == [2, 0]
  {
  }

  lemma ResolutionOption(tsresol: byte)
    ensures OptionBytes(9, [tsresol]) == [9, 0, 1, 0, tsresol, 0, 0, 0]
  {
    assert Pack16(9, true) + Pack16(1, true) == [9, 0, 1, 0];
    assert Pad(1) == 3 && Zeros(3) == [0, 0, 0];
  }

  /** An interface, section 4.2: its link type, no snap length, its name, its resolution. */
  lemma InterfaceBytes(i: Interface, z: bytes)
    requires InterfaceFits(i) && Fills(z, |i.name|)
    ensures var n := 36 + |i.name| + |z|;
            Emit(Block(IDB, InterfaceBody(i), true)) ==
              [1, 0, 0, 0] + Pack32(n, true)
              + (Pack16(i.linkType, true) + [0, 0, 0, 0, 0, 0]
                 + ([2, 0] + Pack16(|i.name|, true) + i.name + z) + [9, 0, 1, 0, i.tsresol, 0, 0, 0] + [0, 0, 0, 0])
              + Pack32(n, true)
  {
    InterfaceHead();
    OptionIs(2, i.name, z);
    ResolutionOption(i.tsresol);
    EndOption();
    NoSnapLength(Pack16(i.linkType, true));
    hide Pack16, Pack32, OptionBytes, Emit;
    BlockIs(IDB, InterfaceBody(i), 36 + |i.name| + |z|, [1, 0, 0, 0], InterfaceBody(i));
  }

  lemma NoSnapLength(linkType: bytes)
    ensures linkType + Pack16(0, true) + Pack32(0, true) == linkType + [0, 0, 0, 0, 0, 0]
  {
    assert Pack16(0, true) == [0, 0] && Pack32(0, true) == [0, 0, 0, 0];
  }

  /** A packet, section 4.3: its interface, its time high and low, its lengths captured and on the wire, its data. */
  lemma PacketBytes(p: Packet, tsresol: nat, z: bytes)
    requires PacketFits(p, tsresol) && Fills(z, |p.data|)
    ensures var n := 36 + |p.data| + |z|;
            var units, wire := ToUnits(p.ns, tsresol), if p.originalLen.Some? then p.originalLen.value else |p.data|;
            n < WORD
            && Emit(Block(EPB, PacketBody(p, tsresol), true)) ==
              [6, 0, 0, 0] + Pack32(n, true)
              + (Pack32(p.interface, true) + Pack32(units / 0x1_0000_0000, true) + Pack32(units % 0x1_0000_0000, true)
                 + Pack32(|p.data|, true) + Pack32(wire, true) + p.data + z + [0, 0, 0, 0])
              + Pack32(n, true)
  {
    FillsIs(z, |p.data|);
    EndOption();
    PacketType();
    hide ToUnits, Pack32, OptionBytes, Emit, Pad, Zeros;
    BlockIs(EPB, PacketBody(p, tsresol), 36 + |p.data| + |z|, [6, 0, 0, 0], PacketBody(p, tsresol));
  }

  lemma PacketType()
    ensures Pack32(6, true) == [6, 0, 0, 0]
  {
  }

  // ----- what any writer's options are read as, in either byte order

  /** These options, one after another, each filled up to a multiple of four. */
  function Encoded(options: seq<(nat, bytes)>, le: bool): (b: bytes)
    requires forall k :: 0 <= k < |options| ==> options[k].0 < 0x1_0000 && |options[k].1| < 0x1_0000
  {
    if options == [] then []
    else
      OneEncoded(options[0].0, options[0].1, le) + Encoded(options[1..], le)
  }

  /** The first value of a code. */
  function FirstValue(options: seq<(nat, bytes)>, code: nat): Option<bytes> {
    if options == [] then None else if options[0].0 == code then Some(options[0].1) else FirstValue(options[1..], code)
  }

  /** ``found`` with the first value of every code not in it yet. */
  ghost predicate FirstOfEach(options: seq<(nat, bytes)>, found: map<nat, bytes>, all: map<nat, bytes>) {
    forall code ::
      && (code in all <==> code in found || FirstValue(options, code).Some?)
      && (code in found ==> code in all && all[code] == found[code])
      && (code !in found && FirstValue(options, code).Some? ==> code in all && all[code] == FirstValue(options, code).value)
  }

  /** Options end at the end of the block, or at the end-of-options option, whatever follows it. */
  predicate Ends(rest: bytes) {
    |rest| < 4 || (rest[0] == 0 && rest[1] == 0)
  }

  lemma {:induction false} OptionsRead(head: bytes, options: seq<(nat, bytes)>, rest: bytes, le: bool, found: map<nat, bytes>)
    requires forall k :: 0 <= k < |options| ==> 0 < options[k].0 < 0x1_0000 && |options[k].1| < 0x1_0000
    requires Ends(rest)
    ensures FirstOfEach(options, found, Options(head + Encoded(options, le) + rest, |head|, le, found))
    decreases |options|
  {
    hide Options, Encoded, FirstOfEach, OneEncoded, Ends;
    if options == [] {
      NoOption(head, rest, le, found);
      NothingEncoded(head, rest, le, found);
    } else {
      var (code, value) := options[0];
      var later, one := Encoded(options[1..], le), OneEncoded(code, value, le);
      var more := if code in found then found else found[code := value];
      OptionsRead(head + one, options[1..], rest, le, more);
      StepOver(head, code, value, later + rest, le, found);
      EncodedHead(options, le);
      Regrouped(head, one, later, rest);
      OneMoreFound(options, found, more, Options(head + Encoded(options, le) + rest, |head|, le, found));
    }
  }

  lemma NothingEncoded(head: bytes, rest: bytes, le: bool, found: map<nat, bytes>)
    ensures head + Encoded([], le) + rest == head + rest && FirstOfEach([], found, found)
  {
  }

  lemma Regrouped(a: bytes, b: bytes, c: bytes, d: bytes)
    ensures a + (b + c) + d == a + b + (c + d) && a + b + c + d == a + b + (c + d)
  {
  }

  function OneEncoded(code: nat, value: bytes, le: bool): bytes
    requires code < 0x1_0000 && |value| < 0x1_0000
  {
    Pack16(code, le) + Pack16(|value|, le) + value + Zeros(Pad(|value|))
  }

  lemma EncodedHead(options: seq<(nat, bytes)>, le: bool)
    requires options != [] && forall k :: 0 <= k < |options| ==> options[k].0 < 0x1_0000 && |options[k].1| < 0x1_0000
    ensures Encoded(options, le) == OneEncoded(options[0].0, options[0].1, le) + Encoded(options[1..], le)
  {
  }

  lemma NoOption(head: bytes, rest: bytes, le: bool, found: map<nat, bytes>)
    requires Ends(rest)
    ensures Options(head + rest, |head|, le, found) == found
  {
    var body := head + rest;
    if |rest| >= 4 {
      assert body[|head|] == rest[0] && body[|head| + 1] == rest[1];
      assert Short(body, |head|, le) == 0;
    }
  }

  lemma StepOver(head: bytes, code: nat, value: bytes, rest: bytes, le: bool, found: map<nat, bytes>)
    requires 0 < code < 0x1_0000 && |value| < 0x1_0000
    ensures var body := head + OneEncoded(code, value, le) + rest;
            Options(body, |head|, le, found) ==
              Options(body, |head + OneEncoded(code, value, le)|, le, if code in found then found else found[code := value])
  {
    hide Short, Pad, Slice;
    OneOption(head, code, value, rest, le);
  }

  lemma OneOption(head: bytes, code: nat, value: bytes, rest: bytes, le: bool)
    requires 0 < code < 0x1_0000 && |value| < 0x1_0000
    ensures var one := OneEncoded(code, value, le);
            var body := head + one + rest;
            && |head| + 4 <= |body| && Short(body, |head|, le) == code && Short(body, |head| + 2, le) == |value|
            && Slice(body, |head| + 4, |value|) == value && |head + one| == |head| + 4 + |value| + Pad(|value|)
  {
    hide Pack16, Short, Pad;
    var a, b := Pack16(code, le), Pack16(|value|, le);
    var one := a + b + value + Zeros(Pad(|value|));
    var body := head + one + rest;
    assert body[|head|..|head| + 2] == a && body[|head| + 2..|head| + 4] == b;
    assert body[|head| + 4..|head| + 4 + |value|] == value;
    ShortAt(body, |head|, code, le);
    ShortAt(body, |head| + 2, |value|, le);
  }

  lemma OneMoreFound(options: seq<(nat, bytes)>, found: map<nat, bytes>, more: map<nat, bytes>, all: map<nat, bytes>)
    requires options != [] && more == if options[0].0 in found then found else found[options[0].0 := options[0].1]
    requires FirstOfEach(options[1..], more, all)
    ensures FirstOfEach(options, found, all)
  {
  }

  /**
   * An interface block of any writer, in either byte order: its link type, its name up to the NULs it ends
   * with, and its resolution, six where none is given; none at all where the resolution is not a power of ten.
   */
  lemma InterfaceRead(linkType: nat, reserved: bytes, options: seq<(nat, bytes)>, rest: bytes, le: bool)
    requires linkType < 0x1_0000 && |reserved| == 6
    requires forall k :: 0 <= k < |options| ==> 0 < options[k].0 < 0x1_0000 && |options[k].1| < 0x1_0000
    requires Ends(rest)
    ensures var i := InterfaceOf(Pack16(linkType, le) + reserved + Encoded(options, le) + rest, le);
            var name, tsresol := FirstValue(options, 2), FirstValue(options, 9);
            && (i.None? <==> tsresol.Some? && (tsresol.value == [] || tsresol.value[0] >= 128))
            && (i.Some? ==>
                  && i.value.linkType == linkType
                  && i.value.tsresol == (if tsresol.Some? then tsresol.value[0] else 6)
                  && IsStripped(if name.Some? then name.value else [], i.value.name))
  {
    hide Options, Encoded, FirstValue, Pack16, StripNuls;
    var head := Pack16(linkType, le) + reserved;
    var body := head + Encoded(options, le) + rest;
    OptionsRead(head, options, rest, le, map[]);
    assert At(body, 0, Pack16(linkType, le));
    ShortAt(body, 0, linkType, le);
    var opts := Options(body, 8, le, map[]);
    assert (2 in opts <==> FirstValue(options, 2).Some?) && (9 in opts <==> FirstValue(options, 9).Some?);
    Stripped(if IF_NAME in opts then opts[IF_NAME] else []);
  }

  /** ``r`` is ``s`` without the zero bytes it ends with. */
  ghost predicate IsStripped(s: bytes, r: bytes) {
    && r <= s && (r == [] || r[|r| - 1] != 0) && forall k :: |r| <= k < |s| ==> s[k] == 0
  }

  lemma {:induction false} Stripped(s: bytes)
    ensures IsStripped(s, StripNuls(s))
  {
    if s != [] && s[|s| - 1] == 0 {
      Stripped(s[..|s| - 1]);
    }
  }

  /**
   * A packet block of any writer, in either byte order: the interface counts from its section's first, the
   * time is in units of that interface's resolution, and the data is as much of what was captured as is there.
   */
  lemma PacketRead(interface: nat, units: nat, captured: nat, wire: nat, rest: bytes, le: bool, base: nat,
                   interfaces: seq<Interface>)
    requires interface < WORD && units < WORD * WORD && captured < WORD && wire < WORD
    ensures var body := Pack32(interface, le) + Pack32(units / WORD, le) + Pack32(units % WORD, le)
                        + Pack32(captured, le) + Pack32(wire, le) + rest;
            var p := PacketOf(body, le, base, interfaces);
            && (p.Some? <==> base + interface < |interfaces|)
            && (p.Some? ==>
                  && p.value.interface == base + interface && p.value.ns == ToNs(units, interfaces[base + interface].tsresol)
                  && p.value.data == (if captured <= |rest| then rest[..captured] else rest)
                  && (if p.value.originalLen.Some? then p.value.originalLen.value else captured) == wire
                  && p.value.originalLen != Some(captured))
  {
    hide Pack32, Word, ToNs;
    var a, b, c := Pack32(interface, le), Pack32(units / WORD, le), Pack32(units % WORD, le);
    var d, e := Pack32(captured, le), Pack32(wire, le);
    var body := a + b + c + d + e + rest;
    assert body[0..4] == a && body[4..8] == b && body[8..12] == c && body[12..16] == d && body[16..20] == e && body[20..] == rest;
    WordAt(body, 0, interface, le);
    WordAt(body, 4, units / WORD, le);
    WordAt(body, 8, units % WORD, le);
    WordAt(body, 12, captured, le);
    WordAt(body, 16, wire, le);
    assert Slice(body, 20, captured) == if captured <= |rest| then rest[..captured] else rest;
    assert units / WORD * WORD + units % WORD == units;
  }

  /** A unit is ten to the minus resolution of a second: so many nanoseconds, or what is left of them below one. */
  lemma UnitsRead(units: nat, tsresol: nat)
    ensures tsresol <= 9 ==> ToNs(units, tsresol) == units * Pow10(9 - tsresol)
    ensures tsresol > 9 ==> ToNs(units, tsresol) * Pow10(tsresol - 9) <= units < (ToNs(units, tsresol) + 1) * Pow10(tsresol - 9)
    ensures Pow10(0) == 1 && forall n: nat :: Pow10(n + 1) == Pow10(n) * 10
  {
    if tsresol > 9 {
      var p := Pow10(tsresol - 9);
      assert units / p * p + units % p == units;
    }
  }

  /** An interface block of less than its eight bytes has no options, a packet block of less than its twenty is none. */
  lemma ShortBodies(body: bytes, le: bool, base: nat, interfaces: seq<Interface>)
    ensures |body| < 2 ==> InterfaceOf(body, le).None?
    ensures 2 <= |body| < 12 ==> InterfaceOf(body, le) == Some(Interface([], Short(body, 0, le), 6))
    ensures |body| < 20 ==> PacketOf(body, le, base, interfaces).None?
  {
  }
}
