/** What copying does to a file's bytes: which files, and which blocks of a file being tagged, come through as they were. */
module PcapngCopy {
  import opened Wrappers
  import opened Pcapng
  import opened PcapngPackets

  /** The block's stated length is what it takes up, and its section is little-endian or its type a palindrome. */
  predicate Exact(s: bytes, le: bool) {
    match NextBlock(s, le)
    case None => false
    case Some((b, c)) => Word(s, 4, b.le) == c && (b.le || Symmetric(b.kind))
  }

  /** Every block of the file is exact. */
  predicate Copyable(s: bytes, le: bool)
    decreases |s|
  {
    s == [] || (Exact(s, le) && var (b, c) := NextBlock(s, le).value; Copyable(s[c..], b.le))
  }

  /** Written back block by block, a file is itself exactly when it is copyable. */
  lemma {:induction false} CopyIsExact(s: bytes, le: bool)
    requires Blocks(s, le).Some? && AllEmittable(Blocks(s, le).value)
    ensures EmitAll(Blocks(s, le).value) == s <==> Copyable(s, le)
    decreases |s|
  {
    hide NextBlock, Emit, Symmetric, Word;
    if s != [] {
      var (b, c) := NextBlock(s, le).value;
      var bs := Blocks(s, le).value;
      assert bs[0] == b && bs[1..] == Blocks(s[c..], b.le).value;
      CopiesExactly(s, le);
      CopyIsExact(s[c..], b.le);
      Halves(s, c, Emit(b), EmitAll(bs[1..]));
    }
  }

  lemma Halves(s: bytes, c: nat, head: bytes, rest: bytes)
    requires c <= |s| && |head| == c
    ensures head + rest == s <==> head == s[..c] && rest == s[c..]
  {
    assert s == s[..c] + s[c..];
    assert (head + rest)[..c] == head && (head + rest)[c..] == rest;
  }

  // ----- block by block

  /** The bytes from the ``k``-th block of a file on. */
  function From(s: bytes, le: bool, k: nat): (bytes, bool) {
    if k == 0 then (s, le)
    else
      match NextBlock(s, le)
      case None => ([], le)
      case Some((b, c)) => From(s[c..], b.le, k - 1)
  }

  /** The ``k``-th block starts where ``From`` says, and what was before it has been read. */
  lemma {:induction false} BlockAt(s: bytes, le: bool, k: nat)
    requires Blocks(s, le).Some? && k < |Blocks(s, le).value|
    ensures var (t, o) := From(s, le, k); t != [] && NextBlock(t, o).Some? && NextBlock(t, o).value.0 == Blocks(s, le).value[k]
  {
    hide NextBlock;
    if k > 0 {
      var (b, c) := NextBlock(s, le).value;
      BlockAt(s[c..], b.le, k - 1);
    }
  }

  /** The bytes the ``k``-th block takes up. */
  function Piece(s: bytes, le: bool, k: nat): bytes {
    var (t, o) := From(s, le, k);
    match NextBlock(t, o)
    case None => []
    case Some((_, c)) => t[..c]
  }

  function Pieces(s: bytes, le: bool, n: nat): bytes {
    if n == 0 then [] else Pieces(s, le, n - 1) + Piece(s, le, n - 1)
  }

  /** A file is the bytes of its blocks, one after the other. */
  lemma {:induction false} FileIsItsPieces(s: bytes, le: bool, n: nat)
    requires Blocks(s, le).Some? && n <= |Blocks(s, le).value|
    ensures Pieces(s, le, n) + From(s, le, n).0 == s
    ensures n == |Blocks(s, le).value| ==> Pieces(s, le, n) == s
  {
    hide Blocks, From, Piece;
    if n == 0 {
      assert From(s, le, 0) == (s, le) by { FromStart(s, le); }
    } else {
      FileIsItsPieces(s, le, n - 1);
      PieceThenRest(s, le, n - 1);
      assert Pieces(s, le, n - 1) + (Piece(s, le, n - 1) + From(s, le, n).0) == Pieces(s, le, n) + From(s, le, n).0;
    }
    if n == |Blocks(s, le).value| {
      NothingLeft(s, le);
    }
  }

  lemma FromStart(s: bytes, le: bool)
    ensures From(s, le, 0) == (s, le)
  {
  }

  lemma PieceThenRest(s: bytes, le: bool, k: nat)
    requires Blocks(s, le).Some? && k < |Blocks(s, le).value|
    ensures Piece(s, le, k) + From(s, le, k + 1).0 == From(s, le, k).0
  {
    hide NextBlock, Blocks;
    OneOn(s, le, k);
  }

  lemma {:induction false} OneOn(s: bytes, le: bool, k: nat)
    requires Blocks(s, le).Some? && k < |Blocks(s, le).value|
    ensures var (t, o) := From(s, le, k);
            && NextBlock(t, o).Some?
            && From(s, le, k + 1) == (t[NextBlock(t, o).value.1..], NextBlock(t, o).value.0.le)
  {
    hide NextBlock;
    var (b, c) := NextBlock(s, le).value;
    if k == 0 {
      assert From(s[c..], b.le, 0) == (s[c..], b.le);
    } else {
      OneOn(s[c..], b.le, k - 1);
    }
  }

  lemma {:induction false} NothingLeft(s: bytes, le: bool)
    requires Blocks(s, le).Some?
    ensures From(s, le, |Blocks(s, le).value|).0 == []
    decreases |s|
  {
    hide NextBlock;
    if s != [] {
      var (b, c) := NextBlock(s, le).value;
      NothingLeft(s[c..], b.le);
    }
  }

  /**
   * Tagging writes every block that is not a packet to tag byte for byte as it was, exactly where its
   * stated length is what it takes up and its section is little-endian or its type a palindrome.
   */
  lemma OthersAsTheyWere(src: bytes, vlans: map<nat, int>, k: nat)
    requires Blocks(src, true).Some? && Tagged(Blocks(src, true).value, vlans).Some? && k < |Blocks(src, true).value|
    requires !Retagged(Blocks(src, true).value, vlans, k)
    ensures var out := Tagged(Blocks(src, true).value, vlans).value.out;
            && k < |out| && Emittable(out[k])
            && (Emit(out[k]) == Piece(src, true, k) <==> Exact(From(src, true, k).0, From(src, true, k).1))
  {
    hide NextBlock, Emit, Word, Symmetric, Tagged, Retagged;
    var bs := Blocks(src, true).value;
    OneForOne(bs, vlans, k);
    OutIsEmittable(bs, vlans);
    EmittableAt(Tagged(bs, vlans).value.out, k);
    BlockAt(src, true, k);
    var (t, o) := From(src, true, k);
    CopiesExactly(t, o);
  }

  // ----- copying with nothing to tag

  lemma {:induction false} NothingToTag(bs: seq<Block>)
    requires Tagged(bs, map[]).Some?
    ensures Tagged(bs, map[]).value.out == bs && Tagged(bs, map[]).value.tagged == 0
  {
    hide TagStep;
    if bs != [] {
      var n := |bs| - 1;
      NothingToTag(bs[..n]);
      TagStepOut(Tagged(bs[..n], map[]).value, bs[n], map[]);
    }
  }

  /** With no interface to tag, what ``insert_tags`` writes is the file itself exactly when that is copyable. */
  method CopyThrough(src: bytes) returns (r: Option<(bytes, nat)>)
    ensures r.Some? ==> Blocks(src, true).Some? && r.value.1 == 0 && (r.value.0 == src <==> Copyable(src, true))
  {
    r := InsertTags(src, map[]);
    if r.Some? {
      NothingToTag(Blocks(src, true).value);
      CopyIsExact(src, true);
    }
  }

  // ----- files copying changes

  lemma LastBlock(s: bytes, le: bool, b: Block)
    requires s != [] && NextBlock(s, le) == Some((b, |s|))
    ensures Blocks(s, le) == Some([b])
  {
    hide NextBlock;
    assert s[|s|..] == [];
    assert Blocks(s[|s|..], b.le) == Some([]);
    assert [b] + [] == [b];
  }

  /** A big-endian section header and, in its section, an interface block without a body. */
  const BIG: bytes :=
    [0x0A, 0x0D, 0x0D, 0x0A, 0, 0, 0, 16, 0x1A, 0x2B, 0x3C, 0x4D, 0, 0, 0, 16] + [0, 0, 0, 1, 0, 0, 0, 12, 0, 0, 0, 12]

  const BIG_TAIL: bytes := [0, 0, 0, 1, 0, 0, 0, 12, 0, 0, 0, 12]

  lemma BigWords()
    ensures |BIG| == 28 && Word(BIG, 0, true) == SHB && Word(BIG, 4, false) == 16 && Word(BIG, 12, false) == 16
    ensures Word(BIG, 8, true) != MAGIC && Word(BIG, 8, false) == MAGIC
  {
  }

  lemma BigHeader()
    ensures NextBlock(BIG, true) == Some((Block(SHB, BIG[8..12], false), 16)) && BIG[16..] == BIG_TAIL
  {
    BigWords();
    assert BIG[16..] == BIG_TAIL;
    hide Word;
    assert Order(BIG) == Some(false);
    assert Extent(BIG, 12, 16) == Some(16);
  }

  lemma BigInterface()
    ensures NextBlock(BIG_TAIL, false) == Some((Block(0x0100_0000, [], false), 12))
    ensures Word(BIG_TAIL, 4, false) == 12 && !Symmetric(0x0100_0000)
  {
    assert BIG_TAIL[8..8] == [];
    assert Pack32(0x0100_0000, true) == [0, 0, 0, 1] && Pack32(0x0100_0000, false) == [1, 0, 0, 0];
  }

  /** A big-endian file that reading accepts and copying changes: its interface block's type is read little-endian. */
  lemma BigEndianIsNotCopied()
    ensures Blocks(BIG, true) == Some([Block(SHB, BIG[8..12], false), Block(0x0100_0000, [], false)])
    ensures !Copyable(BIG, true)
  {
    hide NextBlock, Word, Symmetric;
    BigHeader();
    BigInterface();
    LastBlock(BIG_TAIL, false, Block(0x0100_0000, [], false));
    assert [Block(SHB, BIG[8..12], false)] + [Block(0x0100_0000, [], false)]
        == [Block(SHB, BIG[8..12], false), Block(0x0100_0000, [], false)];
    assert !Exact(BIG_TAIL, false);
    assert !Copyable(BIG_TAIL, false);
  }

  /** A file of one block whose stated length is 7, so that ``read(-1)`` takes whatever follows. */
  function Seven(kind: nat, body: bytes): bytes
    requires kind < WORD
  {
    Pack32(kind, true) + Pack32(7, true) + body + Pack32(7, true)
  }

  /** It is accepted whatever its body, and a copy corrects both lengths. */
  lemma SevenIsCorrected(kind: nat, body: bytes)
    requires kind < WORD && kind != SHB && Fits(body)
    ensures var b := Block(kind, body, true);
            && Blocks(Seven(kind, body), true) == Some([b]) && !Copyable(Seven(kind, body), true)
            && Emit(b) == Pack32(kind, true) + Pack32(12 + |body|, true) + body + Pack32(12 + |body|, true)
            && Emit(b) != Seven(kind, body)
  {
    hide Pack32, Word;
    var s, n := Seven(kind, body), 12 + |body|;
    assert At(s, 0, Pack32(kind, true));
    WordAt(s, 0, kind, true);
    assert At(s, 4, Pack32(7, true));
    WordAt(s, 4, 7, true);
    assert At(s, n - 4, Pack32(7, true));
    WordAt(s, n - 4, 7, true);
    assert s[8..n - 4] == body;
    assert NextBlock(s, true) == Some((Block(kind, body, true), n));
    LastBlock(s, true, Block(kind, body, true));
    CopiesExactly(s, true);
    assert s[..n] == s;
  }

  // ----- a packet whose data is cut off

  /** A packet block that says four bytes were captured of a frame of four, and holds none. */
  const CUT: bytes := [0, 0, 0, 0, 0, 0, 0, 0, 0, 0, 0, 0, 4, 0, 0, 0, 4, 0, 0, 0]

  lemma CutFields()
    ensures Word(CUT, 0, true) == 0 && Word(CUT, 12, true) == 4 && Word(CUT, 16, true) == 4 && Slice(CUT, 20, 4) == []
  {
  }

  /** Its lengths are not settled: before tagging the wire length is left out as the captured one, and after it no longer is. */
  lemma CutPacketDiffers(interfaces: seq<Interface>, vlan: int)
    requires interfaces != []
    ensures !Settled(CUT, true) && TagBody(CUT, true, vlan).Some? && PacketOf(CUT, true, 0, interfaces).Some?
    ensures PacketOf(CUT, true, 0, interfaces).value.originalLen == None
    ensures PacketOf(TagBody(CUT, true, vlan).value, true, 0, interfaces)
      != Some(TagPacket(PacketOf(CUT, true, 0, interfaces).value, vlan))
  {
    hide Word, Slice, Tag, Pack32;
    CutFields();
    PacketCommutes(CUT, true, 0, interfaces, vlan);
  }
}
