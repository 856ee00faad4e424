/**
 * pcapng, as much of it as the tool reads and writes: blocks (section 3.1 of
 * draft-ietf-opsawg-pcapng), options (3.5), section headers, interfaces and packets (4.1 to 4.3),
 * and 802.1Q tag insertion. A file is its bytes.
 */
module Pcapng {
  import opened Wrappers

  type byte = x: int | 0 <= x < 256
  type bytes = seq<byte>

  const SHB: nat := 0x0A0D0D0A
  const IDB: nat := 1
  const EPB: nat := 6
  const MAGIC: nat := 0x1A2B3C4D
  const OPT_END: nat := 0
  const IF_NAME: nat := 2
  const IF_TSRESOL: nat := 9
  const SHB_USERAPPL: nat := 4
  const ETHERNET: nat := 1
  const WORD: nat := 0x1_0000_0000

  // ----- words

  function Pack16(n: nat, le: bool): (b: bytes)
    requires n < 0x1_0000
    ensures |b| == 2
  {
    if le then [n % 256, n / 256] else [n / 256, n % 256]
  }

  function Pack32(n: nat, le: bool): (b: bytes)
    requires n < WORD
    ensures |b| == 4
  {
    if le then [n % 256, n / 256 % 256, n / 65536 % 256, n / 16777216]
    else [n / 16777216, n / 65536 % 256, n / 256 % 256, n % 256]
  }

  function Join16(a: byte, b: byte): (n: nat)
    ensures n < 0x1_0000
  {
    a as int + 256 * b as int
  }

  function Join32(a: byte, b: byte, c: byte, d: byte): (n: nat)
    ensures n < WORD
  {
    a as int + 256 * b as int + 65536 * c as int + 16777216 * d as int
  }

  function Short(s: bytes, i: nat, le: bool): (n: nat)
    requires i + 2 <= |s|
    ensures n < 0x1_0000
  {
    if le then Join16(s[i], s[i + 1]) else Join16(s[i + 1], s[i])
  }

  function Word(s: bytes, i: nat, le: bool): (n: nat)
    requires i + 4 <= |s|
    ensures n < WORD
  {
    if le then Join32(s[i], s[i + 1], s[i + 2], s[i + 3]) else Join32(s[i + 3], s[i + 2], s[i + 1], s[i])
  }

  /** ``p`` lies in ``s`` from ``i`` on. */
  ghost predicate At(s: bytes, i: nat, p: bytes) {
    i + |p| <= |s| && s[i..i + |p|] == p
  }

  lemma Same(s: bytes, i: nat, p: bytes, k: nat)
    requires At(s, i, p) && k < |p|
    ensures s[i + k] == p[k]
  {
    assert s[i..i + |p|][k] == p[k];
  }

  lemma WordAt(s: bytes, i: nat, n: nat, le: bool)
    requires n < WORD && At(s, i, Pack32(n, le))
    ensures Word(s, i, le) == n
  {
    var p := Pack32(n, le);
    Same(s, i, p, 0);
    Same(s, i, p, 1);
    Same(s, i, p, 2);
    Same(s, i, p, 3);
    Rejoined(n);
  }

  lemma Rejoined(n: nat)
    requires n < WORD
    ensures Join32(n % 256, n / 256 % 256, n / 65536 % 256, n / 16777216) == n
  {
    assert n / 65536 == n / 256 / 256 && n / 16777216 == n / 65536 / 256;
  }

  lemma ShortAt(s: bytes, i: nat, n: nat, le: bool)
    requires n < 0x1_0000 && At(s, i, Pack16(n, le))
    ensures Short(s, i, le) == n
  {
    var p := Pack16(n, le);
    Same(s, i, p, 0);
    Same(s, i, p, 1);
  }

  /** A word is packed back to the bytes it was read from. */
  lemma PackWord(s: bytes, i: nat, le: bool)
    requires i + 4 <= |s|
    ensures Pack32(Word(s, i, le), le) == s[i..i + 4]
  {
    var a, b, c, d := s[i], s[i + 1], s[i + 2], s[i + 3];
    assert s[i..i + 4] == [a, b, c, d];
    if le {
      Digits(a, b, c, d);
    } else {
      Digits(d, c, b, a);
    }
  }

  lemma Digits(a: byte, b: byte, c: byte, d: byte)
    ensures var n := Join32(a, b, c, d);
            n % 256 == a && n / 256 % 256 == b && n / 65536 % 256 == c && n / 16777216 == d
  {
    var n := Join32(a, b, c, d);
    assert n / 256 == b as int + 256 * c as int + 65536 * d as int;
    assert n / 65536 == c as int + 256 * d as int;
  }

  // ----- blocks

  datatype Block = Block(kind: nat, body: bytes, le: bool)

  /** The byte order a section header announces; ``None`` where its magic is neither. */
  function Order(s: bytes): Option<bool>
    requires |s| >= 12
  {
    if Word(s, 8, true) == MAGIC then Some(true)
    else if Word(s, 8, false) == MAGIC then Some(false)
    else None
  }

  /**
   * How far the block starting ``s`` extends, ``h`` bytes of it being read before its length is used.
   * ``f.read(-1)`` reads to the end of the file, so a length of ``h - 1`` takes everything.
   */
  function Extent(s: bytes, h: nat, total: nat): Option<nat> {
    if total == h - 1 then Some(|s|)
    else if h <= total <= |s| then Some(total)
    else None
  }

  /** The first block of ``s`` and its extent, ``le`` being the section's order so far. */
  function NextBlock(s: bytes, le: bool): (r: Option<(Block, nat)>)
    ensures r.Some? ==> 12 <= r.value.1 <= |s| && r.value.0.body == s[8..r.value.1 - 4]
    ensures r.Some? ==> r.value.0.kind == Word(s, 0, true)
  {
    if |s| < 8 then None
    else
      var kind := Word(s, 0, true);
      var h := if kind == SHB then 12 else 8;
      if |s| < h then None
      else
        match (if kind == SHB then Order(s) else Some(le))
        case None => None
        case Some(order) =>
          var total := Word(s, 4, order);
          match Extent(s, h, total)
          case None => None
          case Some(c) =>
            if c >= h + 4 && Word(s, c - 4, order) == total then Some((Block(kind, s[8..c - 4], order), c)) else None
  }

  /** Every block of a file, or ``None`` where reading stops with an error. */
  function Blocks(s: bytes, le: bool): Option<seq<Block>>
    decreases |s|
  {
    if s == [] then Some([])
    else
      match NextBlock(s, le)
      case None => None
      case Some((b, c)) =>
        match Blocks(s[c..], b.le)
        case None => None
        case Some(rest) => Some([b] + rest)
  }

  /** ``parse`` takes a file apart block by block, as ``Blocks`` does. */
  ghost predicate BlockByBlock(parse: (bytes, bool) -> Option<seq<Block>>) {
    && (forall le :: parse([], le) == Some([]))
    && forall s, le :: s != [] ==>
         parse(s, le) ==
           match NextBlock(s, le)
           case None => None
           case Some((b, c)) => Prepend([b], parse(s[c..], b.le))
  }

  function Prepend(found: seq<Block>, rest: Option<seq<Block>>): Option<seq<Block>> {
    match rest
    case None => None
    case Some(bs) => Some(found + bs)
  }

  lemma PrependTwice(x: seq<Block>, y: seq<Block>, rest: Option<seq<Block>>)
    ensures Prepend(x, Prepend(y, rest)) == Prepend(x + y, rest)
  {
    if rest.Some? {
      assert x + (y + rest.value) == x + y + rest.value;
    }
  }

  /** ``blocks``, moving through the file. */
  method ReadBlocks(s: bytes) returns (r: Option<seq<Block>>)
    ensures r == Blocks(s, true)
  {
    ghost var parse := (x, l) => Blocks(x, l);
    assert BlockByBlock(parse);
    r := ReadUnder(s, parse, Blocks(s, true));
  }

  method ReadUnder(s: bytes, ghost parse: (bytes, bool) -> Option<seq<Block>>, ghost all: Option<seq<Block>>)
    returns (r: Option<seq<Block>>)
    requires BlockByBlock(parse) && all == parse(s, true)
    ensures r == all
  {
    var found: seq<Block> := [];
    var left, le := s, true;
    assert all.Some? ==> found + all.value == all.value;
    while left != []
      invariant all == Prepend(found, parse(left, le))
      decreases |left|
    {
      var next := NextBlock(left, le);
      if next.None? {
        return None;
      }
      var (b, c) := next.value;
      PrependTwice(found, [b], parse(left[c..], b.le));
      found, left, le := found + [b], left[c..], b.le;
    }
    assert found + [] == found;
    r := Some(found);
  }

  // ----- writing a block

  predicate Fits(body: bytes) {
    12 + |body| < WORD
  }

  predicate Emittable(b: Block) {
    b.kind < WORD && Fits(b.body)
  }

  /** A block in its section's byte order, its length before and after the body. */
  function Emit(b: Block): (s: bytes)
    requires Emittable(b)
    ensures |s| == 12 + |b.body|
  {
    Pack32(b.kind, b.le) + Pack32(12 + |b.body|, b.le) + b.body + Pack32(12 + |b.body|, b.le)
  }

  /** A section header carries its magic. */
  predicate Headed(b: Block) {
    b.kind == SHB ==> |b.body| >= 4 && Word(b.body, 0, b.le) == MAGIC
  }

  /** What a reader finds of a block written: its type is read little-endian in every section. */
  function AsRead(b: Block): Block {
    if b.le || b.kind >= WORD then b else b.(kind := Word(Pack32(b.kind, false), 0, true))
  }

  function AsReadAll(bs: seq<Block>): (r: seq<Block>)
    ensures |r| == |bs| && forall k :: 0 <= k < |bs| ==> r[k] == AsRead(bs[k])
  {
    seq(|bs|, k requires 0 <= k < |bs| => AsRead(bs[k]))
  }

  /** A reversed word, read forwards. */
  lemma Reversed(n: nat)
    requires n < WORD
    ensures Pack32(Word(Pack32(n, false), 0, true), true) == Pack32(n, false)
  {
    var p := Pack32(n, false);
    PackWord(p, 0, true);
    assert p[0..4] == p;
  }

  lemma HeaderIsPalindrome()
    ensures Pack32(SHB, true) == [0x0A, 0x0D, 0x0D, 0x0A] == Pack32(SHB, false)
  {
    Digits(0x0A, 0x0D, 0x0D, 0x0A);
  }

  lemma HeaderStays(b: Block)
    requires b.kind < WORD
    ensures AsRead(b).kind == SHB <==> b.kind == SHB
  {
    hide Pack32, Word;
    HeaderIsPalindrome();
    if !b.le {
      Reversed(b.kind);
      PackInjective(AsRead(b).kind, SHB, true);
      PackInjective(b.kind, SHB, false);
    }
  }

  /** No four bytes are the magic both ways. */
  lemma OneMagic(s: bytes)
    requires |s| >= 12
    ensures Word(s, 8, true) == MAGIC ==> Word(s, 8, false) != MAGIC
  {
    Digits(s[8], s[9], s[10], s[11]);
    Digits(s[11], s[10], s[9], s[8]);
  }

  lemma ReadEmit(b: Block, rest: bytes, le: bool)
    requires Emittable(b) && InSection(b, le)
    ensures NextBlock(Emit(b) + rest, le) == Some((AsRead(b), |Emit(b)|))
  {
    hide Pack32, Word;
    var s, n, kind := Emit(b) + rest, 12 + |b.body|, Pack32(b.kind, b.le);
    KindAsRead(s, b);
    HeaderStays(b);
    assert At(s, 4, Pack32(n, b.le));
    WordAt(s, 4, n, b.le);
    assert s[8..n - 4] == b.body;
    assert At(s, n - 4, Pack32(n, b.le));
    WordAt(s, n - 4, n, b.le);
    if b.kind == SHB {
      MagicAt(s, b);
      OneMagic(s);
    }
  }

  lemma KindAsRead(s: bytes, b: Block)
    requires b.kind < WORD && |s| >= 4 && s[..4] == Pack32(b.kind, b.le)
    ensures Word(s, 0, true) == AsRead(b).kind
  {
    var p := Pack32(b.kind, b.le);
    assert forall k :: 0 <= k < 4 ==> s[k] == s[..4][k] == p[k];
    if b.le {
      Rejoined(b.kind);
    }
  }

  lemma MagicAt(s: bytes, b: Block)
    requires |s| >= 12 && |b.body| >= 4 && At(s, 8, b.body)
    ensures Word(s, 8, b.le) == Word(b.body, 0, b.le)
  {
    Same(s, 8, b.body, 0);
    Same(s, 8, b.body, 1);
    Same(s, 8, b.body, 2);
    Same(s, 8, b.body, 3);
  }

  predicate AllEmittable(bs: seq<Block>) {
    bs == [] || (Emittable(bs[0]) && AllEmittable(bs[1..]))
  }

  /** A section header with its magic, or a block in the order of the section it is in. */
  predicate InSection(b: Block, le: bool) {
    if b.kind == SHB then Headed(b) else b.le == le
  }

  predicate InSections(bs: seq<Block>, le: bool) {
    bs == [] || (InSection(bs[0], le) && InSections(bs[1..], bs[0].le))
  }

  function EmitAll(bs: seq<Block>): bytes
    requires AllEmittable(bs)
  {
    if bs == [] then [] else Emit(bs[0]) + EmitAll(bs[1..])
  }

  /** A file written block by block reads back as its blocks, but for the types in big-endian sections. */
  lemma {:induction false} ReadEmitAll(bs: seq<Block>, le: bool)
    requires AllEmittable(bs) && InSections(bs, le)
    ensures Blocks(EmitAll(bs), le) == Some(AsReadAll(bs))
  {
    hide NextBlock, Emit, InSection, AsRead;
    if bs != [] {
      ReadEmitAll(bs[1..], bs[0].le);
      var s, head := EmitAll(bs), Emit(bs[0]);
      var tail := EmitAll(bs[1..]);
      ReadEmit(bs[0], tail, le);
      assert s == head + tail;
      assert s[|head|..] == tail;
      OrderStays(bs[0]);
      assert [AsRead(bs[0])] + AsReadAll(bs[1..]) == AsReadAll(bs);
    }
  }

  lemma OrderStays(b: Block)
    ensures AsRead(b).le == b.le && (b.le ==> AsRead(b) == b)
  {
  }

  /** What ``Blocks`` finds in a file is in sections. */
  lemma {:induction false} ParsedInSections(s: bytes, le: bool)
    requires Blocks(s, le).Some?
    ensures InSections(Blocks(s, le).value, le)
    decreases |s|
  {
    hide NextBlock, InSection;
    if s != [] {
      var (b, c) := NextBlock(s, le).value;
      NextInSection(s, le);
      ParsedInSections(s[c..], b.le);
      assert Blocks(s, le).value[1..] == Blocks(s[c..], b.le).value;
    }
  }

  lemma NextInSection(s: bytes, le: bool)
    requires NextBlock(s, le).Some?
    ensures InSection(NextBlock(s, le).value.0, le)
  {
    hide Word;
    var (b, c) := NextBlock(s, le).value;
    if b.kind == SHB {
      MagicAt(s, b);
    }
  }

  /** Reading a block from the front and writing it again gives its own bytes... */
  predicate Symmetric(kind: nat)
    requires kind < WORD
  {
    Pack32(kind, true) == Pack32(kind, false)
  }

  /**
   * ...exactly when its length is the length it takes up and, the type being read little-endian in
   * every section, its section is little-endian or its type reads the same both ways.
   */
  lemma CopiesExactly(s: bytes, le: bool)
    requires NextBlock(s, le).Some? && Emittable(NextBlock(s, le).value.0)
    ensures var (b, c) := NextBlock(s, le).value;
            Emit(b) == s[..c] <==> Word(s, 4, b.le) == c && (b.le || Symmetric(b.kind))
  {
    var (b, c) := NextBlock(s, le).value;
    FirstBytes(s, c, b);
  }

  lemma SplitBlock(s: bytes, c: nat, le: bool)
    requires 12 <= c <= |s| && Word(s, c - 4, le) == Word(s, 4, le)
    ensures s[..c] == Pack32(Word(s, 0, true), true) + Pack32(Word(s, 4, le), le) + s[8..c - 4] + Pack32(Word(s, 4, le), le)
  {
    PackWord(s, 0, true);
    PackWord(s, 4, le);
    PackWord(s, c - 4, le);
    assert s[..c] == s[0..4] + s[4..8] + s[8..c - 4] + s[c - 4..c];
  }

  lemma FirstBytes(s: bytes, c: nat, b: Block)
    requires 12 <= c <= |s| && c < WORD && b.kind == Word(s, 0, true) && b.body == s[8..c - 4]
    requires Word(s, c - 4, b.le) == Word(s, 4, b.le)
    ensures Emit(b) == s[..c] <==> Word(s, 4, b.le) == c && (b.le || Symmetric(b.kind))
  {
    var total := Word(s, 4, b.le);
    SplitBlock(s, c, b.le);
    Pieces(Pack32(b.kind, true), Pack32(total, b.le), Pack32(b.kind, b.le), Pack32(c, b.le), b.body);
    PackInjective(total, c, b.le);
  }

  lemma PackInjective(m: nat, n: nat, le: bool)
    requires m < WORD && n < WORD
    ensures Pack32(m, le) == Pack32(n, le) <==> m == n
  {
    var t := Pack32(m, le);
    if t == Pack32(n, le) {
      assert At(t, 0, t);
      WordAt(t, 0, m, le);
      WordAt(t, 0, n, le);
    }
  }

  lemma Pieces(k: bytes, t: bytes, k': bytes, t': bytes, body: bytes)
    requires |k| == |k'| == |t| == |t'| == 4
    ensures k' + t' + body + t' == k + t + body + t <==> k == k' && t == t'
  {
    var x, y := k + t + body + t, k' + t' + body + t';
    assert x[..4] == k && y[..4] == k' && x[4..8] == t && y[4..8] == t';
  }
}
