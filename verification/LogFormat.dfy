/** The layout of a log file. */
module LogFormat {
  // Records are cut into fragments that never cross a 32KB block, each with a
  // checksum, a length and a type; the last six bytes or fewer of a block are zero
  // filled.

  import opened Coding
  import opened Layout

  const BLOCK: nat := 32768
  const HEADER: nat := 7

  const FULL: byte := 1
  const FIRST: byte := 2
  const MIDDLE: byte := 3
  const LAST: byte := 4

  type Word = w: int | 0 <= w < 0x1_0000_0000
  type Four = s: Bytes | |s| == 4 witness [0, 0, 0, 0]

  /** CRC-32C of a byte string, and how a checksum is stored and loaded.  Extending
      the checksum of the type byte by the payload is the checksum of the two
      together. */
  datatype Crc = Crc(value: Bytes -> Word, store: Word -> Four, load: Four -> Word)

  ghost predicate Loads(crc: Crc) {
    forall w :: crc.load(crc.store(w)) == w
  }

  // ----- Masked checksums -----

  function Mask(c: Word): Word {
    (c / 32768 + c % 32768 * 131072 + 0xa282ead8) % 0x1_0000_0000
  }

  function Unmask(m: Word): Word {
    var rot := (m + 0x1_0000_0000 - 0xa282ead8) % 0x1_0000_0000;
    rot / 131072 + rot % 131072 * 32768
  }

  lemma Shifted(r: Word)
    ensures ((r + 0xa282ead8) % 0x1_0000_0000 + 0x1_0000_0000 - 0xa282ead8) % 0x1_0000_0000 == r
  {
    var t := r + 0xa282ead8;
    if t < 0x1_0000_0000 {
      Reduced(t, 0);
      Reduced(t + 0x1_0000_0000 - 0xa282ead8, 1);
    } else {
      Reduced(t, 1);
      Reduced(t - 0xa282ead8, 0);
    }
  }

  lemma Reduced(t: int, k: int)
    requires 0 <= t - k * 0x1_0000_0000 < 0x1_0000_0000
    ensures t % 0x1_0000_0000 == t - k * 0x1_0000_0000
  {}

  lemma Split131072(hi: int, lo: int)
    requires 0 <= hi < 131072
    ensures (hi + lo * 131072) / 131072 == lo && (hi + lo * 131072) % 131072 == hi
  {}

  /** Rotated right by fifteen bits, and a constant added. */
  lemma MaskedWords()
    ensures Mask(0) == 0xa282ead8 && Mask(1) == 0xa284ead8 && Mask(32768) == 0xa282ead9
  {
  }

  lemma UnmaskMask(c: Word)
    ensures Unmask(Mask(c)) == c
  {
    var hi, lo := c / 32768, c % 32768;
    assert c == hi * 32768 + lo && 0 <= hi < 131072;
    Shifted(hi + lo * 131072);
    Split131072(hi, lo);
  }

  function Word32(s: Four): Word {
    var a: int, b: int, c: int, d: int := s[0], s[1], s[2], s[3];
    a + 256 * b + 65536 * c + 16777216 * d
  }

  lemma Word32Fixed(v: Word)
    ensures Word32(Fixed(v, 4)) == v
  {
    var s := Fixed(v, 4);
    assert s[0] == v % 256;
    assert s[1] == v / 256 % 256;
    assert s[2] == v / 256 / 256 % 256;
    assert s[3] == v / 256 / 256 / 256 % 256;
  }

  /** Checksums are stored masked, in four little-endian bytes. */
  function Masked(value: Bytes -> Word): Crc {
    Crc(value, w => Fixed(Mask(w), 4), s => Unmask(Word32(s)))
  }

  lemma MaskedLoads(value: Bytes -> Word)
    ensures Loads(Masked(value))
  {
    forall w: Word ensures Masked(value).load(Masked(value).store(w)) == w {
      Word32Fixed(Mask(w));
      UnmaskMask(w);
    }
  }

  // ----- Fragments -----

  datatype Frag = Frag(kind: byte, data: Bytes)

  function Header(checksum: Four, n: nat, kind: byte): (r: Bytes)
    ensures |r| == HEADER
  {
    checksum + [n % 256, n / 256 % 256, kind]
  }

  function Encode(crc: Crc, f: Frag): (r: Bytes)
    ensures |r| == HEADER + |f.data|
  {
    Header(crc.store(crc.value([f.kind] + f.data)), |f.data|, f.kind) + f.data
  }

  /** How many bytes are left in the block at file position `p`. */
  function Left(p: nat): (r: nat)
    ensures 0 < r <= BLOCK
  {
    BLOCK - p % BLOCK
  }

  function Pad(p: nat): nat {
    if Left(p) < HEADER then Left(p) else 0
  }

  lemma LeftEnds(p: nat)
    ensures (p + Left(p)) % BLOCK == 0 && Left(p + Left(p)) == BLOCK && Left(p + Pad(p)) >= HEADER
  {
  }

  function Zeros(n: nat): (r: Bytes)
    ensures |r| == n && forall i :: 0 <= i < n ==> r[i] == 0
  {
    seq(n, _ => 0)
  }

  /** The payload that fits in one fragment at `p`, after the padding. */
  function Room(p: nat): (r: nat)
    ensures r <= BLOCK - HEADER
  {
    LeftEnds(p);
    Left(p + Pad(p)) - HEADER
  }

  predicate Fits(p: nat, f: Frag) {
    |f.data| <= Room(p) && FULL <= f.kind <= LAST
  }

  function FragImage(crc: Crc, p: nat, f: Frag): (r: Bytes)
    ensures |r| == Pad(p) + HEADER + |f.data|
  {
    Zeros(Pad(p)) + Encode(crc, f)
  }

  function FragForm(crc: Crc): Form<Frag> {
    (p, f) => FragImage(crc, p, f)
  }

  function FragEnd(p: nat, f: Frag): nat {
    p + Pad(p) + HEADER + |f.data|
  }

  predicate FitAll(p: nat, frags: seq<Frag>)
    decreases |frags|
  {
    |frags| > 0 ==> Fits(p, frags[0]) && FitAll(FragEnd(p, frags[0]), frags[1..])
  }

  // ----- Cutting a record -----

  function KindOf(begin: bool, end: bool): byte {
    if begin && end then FULL else if begin then FIRST else if end then LAST else MIDDLE
  }

  /** The first fragment of data to be written at `p`. */
  function Cut(p: nat, data: Bytes, begin: bool): (f: Frag)
    ensures |f.data| <= |data|
  {
    var n := if |data| < Room(p) then |data| else Room(p);
    Frag(KindOf(begin, n == |data|), data[..n])
  }

  /** It fits; and if it takes nothing, the next one will. */
  lemma CutFits(p: nat, data: Bytes, begin: bool)
    ensures var f := Cut(p, data, begin);
            Fits(p, f) && (|f.data| == 0 < |data| ==> Room(p) == 0 < Room(FragEnd(p, f)))
  {
    var f := Cut(p, data, begin);
    LeftEnds(p);
    if |f.data| == 0 < |data| {
      FullBlock(p);
    }
  }

  lemma FullBlock(p: nat)
    requires Room(p) == 0
    ensures Room(p + Pad(p) + HEADER) > 0
  {
    var q := p + Pad(p);
    assert Left(q) == HEADER;
    LeftEnds(q);
  }

  function Split(p: nat, data: Bytes, begin: bool): (r: seq<Frag>)
    decreases |data|, if Room(p) == 0 then 1 else 0
  {
    CutFits(p, data, begin);
    var f := Cut(p, data, begin);
    if |f.data| == |data| then [f] else [f] + Split(FragEnd(p, f), data[|f.data|..], false)
  }

  function RecordImage(crc: Crc, p: nat, data: Bytes): Bytes {
    Laid(FragForm(crc), p, Split(p, data, true))
  }

  function RecordForm(crc: Crc): Form<Bytes> {
    (p, data) => RecordImage(crc, p, data)
  }

  /** What joins the fragments of a record again. */
  function Joined(frags: seq<Frag>): Bytes
    decreases |frags|
  {
    if |frags| == 0 then [] else frags[0].data + Joined(frags[1..])
  }

  /** First, middles, last; or one full fragment. */
  predicate Shaped(frags: seq<Frag>, begin: bool)
    decreases |frags|
  {
    && |frags| > 0 && frags[0].kind == KindOf(begin, |frags| == 1)
    && (|frags| > 1 ==> Shaped(frags[1..], false))
  }

  /** Every fragment but the last reaches to the end of its block. */
  predicate FillAll(p: nat, frags: seq<Frag>)
    decreases |frags|
  {
    |frags| > 1 ==> FragEnd(p, frags[0]) % 32768 == 0 && FillAll(FragEnd(p, frags[0]), frags[1..])
  }

  /** A record is cut only where a block ends. */
  lemma {:induction false} SplitFills(p: nat, data: Bytes, begin: bool)
    ensures FillAll(p, Split(p, data, begin))
    decreases |data|, if Room(p) == 0 then 1 else 0
  {
    CutFits(p, data, begin);
    var f := Cut(p, data, begin);
    if |f.data| < |data| {
      SplitFills(FragEnd(p, f), data[|f.data|..], false);
      LeftEnds(p + Pad(p));
      assert Split(p, data, begin)[1..] == Split(FragEnd(p, f), data[|f.data|..], false);
    }
  }

  /** A record's fragments join to the record, fit their blocks, and their types
      say where the record starts and ends. */
  lemma {:induction false} SplitJoins(p: nat, data: Bytes, begin: bool)
    ensures Joined(Split(p, data, begin)) == data && Shaped(Split(p, data, begin), begin)
    ensures FitAll(p, Split(p, data, begin))
    decreases |data|, if Room(p) == 0 then 1 else 0
  {
    CutFits(p, data, begin);
    var f, all := Cut(p, data, begin), Split(p, data, begin);
    var n := |f.data|;
    if n == |data| {
      assert all == [f] && data[..n] == data;
      assert all[1..] == [];
    } else {
      SplitJoins(FragEnd(p, f), data[n..], false);
      assert all[1..] == Split(FragEnd(p, f), data[n..], false);
      assert data == data[..n] + data[n..];
    }
  }

  // ----- The writer -----

  /** Where a record's remaining data goes from position `p` on. */
  ghost function ToWrite(crc: Crc, p: nat, data: Bytes, begin: bool): Bytes {
    Laid(FragForm(crc), p, Split(p, data, begin))
  }

  lemma FragFormIs(crc: Crc, p: nat, f: Frag)
    ensures FragForm(crc)(p, f) == FragImage(crc, p, f) && p + |FragImage(crc, p, f)| == FragEnd(p, f)
  {
  }

  lemma SplitFirst(p: nat, data: Bytes, begin: bool)
    ensures var f := Cut(p, data, begin);
            Split(p, data, begin)
            == [f] + (if |f.data| == |data| then [] else Split(FragEnd(p, f), data[|f.data|..], false))
  {
  }

  lemma ToWriteStep(crc: Crc, p: nat, data: Bytes, begin: bool)
    ensures var f := Cut(p, data, begin);
            ToWrite(crc, p, data, begin)
            == FragImage(crc, p, f)
               + (if |f.data| == |data| then [] else ToWrite(crc, FragEnd(p, f), data[|f.data|..], false))
  {
    var f := Cut(p, data, begin);
    var rest := if |f.data| == |data| then [] else Split(FragEnd(p, f), data[|f.data|..], false);
    SplitFirst(p, data, begin);
    LaidFirst(FragForm(crc), p, f, rest);
    FragFormIs(crc, p, f);
  }

  lemma OffsetStep(length: nat, offset: nat, n: nat)
    requires length % BLOCK == offset % BLOCK
    ensures (length + n) % BLOCK == (offset + n) % BLOCK
  {
  }

  class Writer {
    const crc: Crc
    var dest: Bytes
    var blockOffset: nat

    ghost predicate Valid()
      reads this
    {
      blockOffset <= BLOCK && |dest| % BLOCK == blockOffset % BLOCK
    }

    constructor (crc: Crc)
      ensures Valid() && dest == [] && this.crc == crc
    {
      this.crc := crc;
      dest, blockOffset := [], 0;
    }

    /** Zero-fill the end of a block that has no room for a header. */
    method FillTrailer()
      requires Valid()
      modifies this`dest, this`blockOffset
      ensures Valid() && dest == old(dest) + Zeros(Pad(|old(dest)|))
      ensures BLOCK - blockOffset - HEADER == Room(|old(dest)|)
    {
      LeftEnds(|dest|);
      var leftover := BLOCK - blockOffset;
      if leftover < HEADER {
        if leftover > 0 {
          dest := dest + Zeros(leftover);
        } else {
          assert dest + Zeros(0) == dest;
        }
        blockOffset := 0;
      } else {
        assert dest + Zeros(0) == dest;
      }
    }

    method EmitPhysicalRecord(kind: byte, data: Bytes)
      requires Valid() && blockOffset + HEADER + |data| <= BLOCK
      modifies this`dest, this`blockOffset
      ensures Valid() && dest == old(dest) + Encode(crc, Frag(kind, data))
    {
      var header := Header(crc.store(crc.value([kind] + data)), |data|, kind);
      Regroup(dest, header, data);
      OffsetStep(|dest|, blockOffset, |header| + |data|);
      assert Encode(crc, Frag(kind, data)) == header + data;
      dest := dest + header;
      dest := dest + data;
      blockOffset := blockOffset + HEADER + |data|;
    }

    /** Padding, then as much of the data as fits. */
    method WriteFragment(left: Bytes, begin: bool) returns (n: nat)
      requires Valid()
      modifies this`dest, this`blockOffset
      ensures Valid() && n == |Cut(|old(dest)|, left, begin).data|
      ensures dest == old(dest) + FragImage(crc, |old(dest)|, Cut(|old(dest)|, left, begin))
    {
      FillTrailer();
      CutFits(|old(dest)|, left, begin);
      var avail := BLOCK - blockOffset - HEADER;
      n := if |left| < avail then |left| else avail;
      var end := n == |left|;
      EmitPhysicalRecord(KindOf(begin, end), left[..n]);
      Regroup(old(dest), Zeros(Pad(|old(dest)|)), Encode(crc, Frag(KindOf(begin, end), left[..n])));
    }

    /** One round of AddRecord's loop: what was to be written splits in two. */
    method AddFragment(left: Bytes, begin: bool) returns (n: nat)
      requires Valid()
      modifies this`dest, this`blockOffset
      ensures Valid() && n == |Cut(|old(dest)|, left, begin).data|
      ensures |dest| == FragEnd(|old(dest)|, Cut(|old(dest)|, left, begin))
      ensures old(dest) + ToWrite(crc, |old(dest)|, left, begin)
              == dest + (if n == |left| then [] else ToWrite(crc, |dest|, left[n..], false))
    {
      ghost var p, f := |dest|, Cut(|dest|, left, begin);
      n := WriteFragment(left, begin);
      ToWriteStep(crc, p, left, begin);
      Regroup(old(dest), FragImage(crc, p, f),
              if n == |left| then [] else ToWrite(crc, FragEnd(p, f), left[n..], false));
    }

    /** AddRecord: an empty record still gets one fragment. */
    method AddRecord(data: Bytes)
      requires Valid()
      modifies this`dest, this`blockOffset
      ensures Valid() && dest == old(dest) + RecordImage(crc, |old(dest)|, data)
    {
      var left, begin, more := data, true, true;
      ghost var target := dest + ToWrite(crc, |dest|, data, true);
      while more
        invariant Valid()
        invariant if more then target == dest + ToWrite(crc, |dest|, left, begin) else target == dest
        decreases if more then 1 else 0, |left|, if Room(|dest|) == 0 then 1 else 0
      {
        CutFits(|dest|, left, begin);
        var n := AddFragment(left, begin);
        more := n < |left|;
        left, begin := left[n..], false;
      }
    }
  }

  /** A fragment: four bytes of checksum over type and data, two of length, one of type, the data. */
  lemma FragmentBytes(crc: Crc, data: Bytes)
    requires |data| == 258
    ensures Encode(crc, Frag(FULL, data)) == crc.store(crc.value([1] + data)) + [2, 1, 1] + data
    ensures Encode(crc, Frag(FIRST, data)) == crc.store(crc.value([2] + data)) + [2, 1, 2] + data
    ensures Encode(crc, Frag(MIDDLE, data)) == crc.store(crc.value([3] + data)) + [2, 1, 3] + data
    ensures Encode(crc, Frag(LAST, data)) == crc.store(crc.value([4] + data)) + [2, 1, 4] + data
  {
  }
}
