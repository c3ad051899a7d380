/** Tables whose blocks are bytes. */
module TableBytes {
  // Data blocks and the index are written by the block builder and searched in their bytes;
  // an index entry leads to its block by an encoded handle.

  import opened Entries
  import opened TableFile
  import opened TableLookup
  import B = Block
  import BB = BlockBuilder
  import Bloom
  import Coding
  import FB = FilterBlock
  import S = Separators

  // ----- Keys -----

  /** An internal key as stored: the user key and eight bytes of tag. */
  function EncodeKey(k: Key): Bytes {
    k.user + Coding.Fixed(k.tag, 8)
  }

  /** ExtractUserKey and the tag behind it. */
  function DecodeKey(s: Bytes): Key {
    if |s| < 8 then S.IKey(s, 0) else S.IKey(s[..|s| - 8], Coding.DecodeFixed(s[|s| - 8..]))
  }

  lemma KeyRoundTrip(k: Key)
    requires k.tag < Coding.LONG
    ensures DecodeKey(EncodeKey(k)) == k
  {
    var s := EncodeKey(k);
    assert s[..|s| - 8] == k.user && s[|s| - 8..] == Coding.Fixed(k.tag, 8);
    Coding.Fixed64RoundTrip(k.tag);
  }

  /** A key and a handle, byte by byte. */
  lemma KeyBytes()
    ensures EncodeKey(S.IKey([97], 1)) == [97, 1, 0, 0, 0, 0, 0, 0, 0] && Handle(300, 7) == [172, 2, 7]
  {
    Coding.FixedByte(1, 8);
    Coding.IntegerBytes();
    assert Coding.Fixed(1, 8) == [1, 0, 0, 0, 0, 0, 0, 0];
  }

  /** InternalKeyComparator::Compare on stored keys. */
  function Before(lt: UserOrder): B.Order {
    (a, b) => Precedes(lt, DecodeKey(a), DecodeKey(b))
  }

  lemma BeforeChains(lt: UserOrder)
    requires IsOrder(lt)
    ensures B.Chains(Before(lt))
  {
    var before := Before(lt);
    forall a, b, c | before(a, b) && before(b, c) ensures before(a, c) {
      Chain(lt, DecodeKey(a), DecodeKey(b), DecodeKey(c));
    }
  }

  // ----- Rows as entries -----

  function PairOf(r: Row): B.Pair {
    B.Pair(EncodeKey(r.key), r.value)
  }

  function RowOf(p: B.Pair): Row {
    Row(DecodeKey(p.key), p.value)
  }

  function PairsOf(rows: seq<Row>): (r: seq<B.Pair>)
    ensures |r| == |rows|
  {
    seq(|rows|, i requires 0 <= i < |rows| => PairOf(rows[i]))
  }

  /** Tags have 64 bits, keys and values less than 2^32 bytes. */
  predicate Fit(r: Row) {
    r.key.tag < Coding.LONG && B.Small(PairOf(r))
  }

  predicate AllFit(rows: seq<Row>) {
    forall i :: 0 <= i < |rows| ==> Fit(rows[i])
  }

  lemma RowsAscend(lt: UserOrder, rows: seq<Row>, plan: B.Plan)
    requires Increasing(lt, rows) && AllFit(rows) && plan.pairs == PairsOf(rows)
    ensures B.KeysAscend(plan, Before(lt))
  {
    forall i, j | 0 <= i < j < |plan.pairs| ensures Before(lt)(plan.pairs[i].key, plan.pairs[j].key) {
      KeyRoundTrip(rows[i].key);
      KeyRoundTrip(rows[j].key);
    }
  }

  // ----- The index -----

  function Handle(offset: nat, size: nat): Bytes {
    Coding.Varint(offset) + Coding.Varint(size)
  }

  /** BlockHandle::DecodeFrom. */
  function GetHandle(s: Bytes): Option<(nat, nat)> {
    match Coding.GetVarint64(s)
    case None => None
    case Some(o) =>
      match Coding.GetVarint64(o.1)
      case None => None
      case Some(n) => Some((o.0, n.0))
  }

  lemma HandleRoundTrip(offset: nat, size: nat)
    requires offset < Coding.LONG && size < Coding.LONG
    ensures GetHandle(Handle(offset, size)) == Some((offset, size))
  {
    Coding.Varint64RoundTrip(offset, Coding.Varint(size));
    Coding.Varint64RoundTrip(size, []);
    assert Coding.Varint(size) + [] == Coding.Varint(size);
  }

  function IndexPairs(t: Table): (r: seq<B.Pair>)
    requires |t.index| == |t.blocks|
    ensures |r| == |t.index|
  {
    seq(|t.index|, b requires 0 <= b < |t.index| =>
      B.Pair(EncodeKey(t.index[b]), Handle(t.blocks[b].offset, t.blocks[b].size)))
  }

  lemma IndexRises(lt: UserOrder, t: Table, b: nat, c: nat)
    requires TableOk(lt, t) && b < c < |t.index|
    ensures Precedes(lt, t.index[b], t.index[c])
  {
    var x, y := LastKey(t.blocks[b]), LastKey(t.blocks[c]);
    assert BlocksApart(lt, t.blocks[b], t.blocks[c]) && Precedes(lt, x, y);
    assert EndsWith(lt, y, t.index[c]) && Short(lt, t.blocks[b], t.index[b], t.blocks[c].rows);
    assert Precedes(lt, t.index[b], y);
    if t.index[c] != y {
      Chain(lt, t.index[b], y, t.index[c]);
    }
  }

  /** Block `b` and its index entry have room for their lengths, tags and offsets. */
  predicate Stores(t: Table, b: nat)
    requires |t.index| == |t.blocks| && b < |t.blocks|
  {
    && AllFit(t.blocks[b].rows) && t.blocks[b].offset < Coding.LONG && t.blocks[b].size < Coding.LONG
    && t.index[b].tag < Coding.LONG && B.Small(IndexPairs(t)[b])
  }

  predicate Storable(t: Table) {
    |t.index| == |t.blocks| && forall b :: 0 <= b < |t.blocks| ==> Stores(t, b)
  }

  lemma IndexAscends(lt: UserOrder, t: Table, plan: B.Plan)
    requires TableOk(lt, t) && Storable(t) && plan.pairs == IndexPairs(t)
    ensures B.KeysAscend(plan, Before(lt))
  {
    forall i, j | 0 <= i < j < |plan.pairs| ensures Before(lt)(plan.pairs[i].key, plan.pairs[j].key) {
      assert Stores(t, i) && Stores(t, j);
      KeyRoundTrip(t.index[i]);
      KeyRoundTrip(t.index[j]);
      IndexRises(lt, t, i, j);
    }
  }

  // ----- Writing -----

  /** The data blocks by their offsets, the index block and the filter block. */
  datatype Image = Image(blocks: map<nat, Bytes>, index: Bytes, filter: Option<Bytes>)

  ghost predicate BlockAt(dec: B.Decoder, blocks: map<nat, Bytes>, s: Stored, plan: B.Plan) {
    s.offset in blocks && BB.IsBlock(dec, blocks[s.offset], plan) && plan.pairs == PairsOf(s.rows)
  }

  ghost predicate BlocksAt(dec: B.Decoder, blocks: map<nat, Bytes>, t: Table, plans: seq<B.Plan>) {
    |plans| <= |t.blocks| && forall b :: 0 <= b < |plans| ==> BlockAt(dec, blocks, t.blocks[b], plans[b])
  }

  ghost predicate ImageOf(dec: B.Decoder, image: Image, t: Table, plans: seq<B.Plan>, top: B.Plan) {
    && |t.index| == |t.blocks| == |plans| && BlocksAt(dec, image.blocks, t, plans) && image.filter == t.filter
    && BB.IsBlock(dec, image.index, top) && top.pairs == IndexPairs(t)
  }

  /** Every block stays below 2^32 bytes. */
  ghost predicate Roomy(t: Table)
    requires |t.index| == |t.blocks|
  {
    && (forall b :: 0 <= b < |t.blocks| ==> BB.Bulk(PairsOf(t.blocks[b].rows)) < Coding.WORD)
    && BB.Bulk(IndexPairs(t)) < Coding.WORD
  }

  lemma BlocksGrow(dec: B.Decoder, blocks: map<nat, Bytes>, t: Table, plans: seq<B.Plan>, data: Bytes, plan: B.Plan)
    requires BlocksAt(dec, blocks, t, plans) && |plans| < |t.blocks| && exists end :: Spaced(t.blocks, end)
    requires BB.IsBlock(dec, data, plan) && plan.pairs == PairsOf(t.blocks[|plans|].rows)
    ensures BlocksAt(dec, blocks[t.blocks[|plans|].offset := data], t, plans + [plan])
  {
    var end :| Spaced(t.blocks, end);
    var n := |plans|;
    var more := blocks[t.blocks[n].offset := data];
    forall b | 0 <= b <= n ensures BlockAt(dec, more, t.blocks[b], (plans + [plan])[b]) {
      if b < n {
        assert BlockAt(dec, blocks, t.blocks[b], plans[b]) && t.blocks[b].offset < t.blocks[n].offset;
      }
    }
  }

  /** The data blocks. */
  method WriteBlocks(t: Table, interval: nat, ghost dec: B.Decoder)
    returns (blocks: Option<map<nat, Bytes>>, ghost plans: seq<B.Plan>)
    requires Storable(t) && interval >= 1 && B.IsDecoder(dec) && exists end :: Spaced(t.blocks, end)
    ensures blocks.Some? ==> |plans| == |t.blocks| && BlocksAt(dec, blocks.value, t, plans)
    ensures (forall b :: 0 <= b < |t.blocks| ==> BB.Bulk(PairsOf(t.blocks[b].rows)) < Coding.WORD) ==> blocks.Some?
  {
    var written: map<nat, Bytes> := map[];
    plans := [];
    for b := 0 to |t.blocks|
      invariant |plans| == b && BlocksAt(dec, written, t, plans)
    {
      assert Stores(t, b);
      var data;
      ghost var plan;
      data, plan := BB.Write(PairsOf(t.blocks[b].rows), interval, dec);
      if data.None? {
        return None, plans;
      }
      BlocksGrow(dec, written, t, plans, data.value, plan);
      written, plans := written[t.blocks[b].offset := data.value], plans + [plan];
    }
    blocks := Some(written);
  }

  lemma IndexSmall(t: Table)
    requires Storable(t)
    ensures forall i :: 0 <= i < |t.index| ==> B.Small(IndexPairs(t)[i])
  {
    forall i | 0 <= i < |t.index| ensures B.Small(IndexPairs(t)[i]) {
      assert Stores(t, i);
    }
  }

  /** The blocks of a table.  The index has a restart point at every entry. */
  method WriteImage(t: Table, interval: nat, ghost lt: UserOrder, ghost dec: B.Decoder)
    returns (image: Option<Image>, ghost plans: seq<B.Plan>, ghost top: B.Plan)
    requires TableOk(lt, t) && Storable(t) && interval >= 1 && B.IsDecoder(dec)
    ensures image.Some? ==> ImageOf(dec, image.value, t, plans, top)
    ensures Roomy(t) ==> image.Some?
  {
    var blocks, index;
    blocks, plans := WriteBlocks(t, interval, dec);
    IndexSmall(t);
    index, top := BB.Write(IndexPairs(t), 1, dec);
    image := None;
    if blocks.Some? && index.Some? {
      image := Some(Image(blocks.value, index.value, t.filter));
    }
  }

  // ----- Reading -----

  /** The index seek in the bytes: which block, by its handle. */
  method FindBlock(image: Image, lt: UserOrder, k: Key, ghost dec: B.Decoder, ghost t: Table,
                   ghost plans: seq<B.Plan>, ghost top: B.Plan)
    returns (handle: Option<(nat, nat)>, ghost i: nat)
    requires TableOk(lt, t) && Storable(t) && k.tag < Coding.LONG
    requires B.IsDecoder(dec) && ImageOf(dec, image, t, plans, top)
    ensures TableFile.Found(lt, t.index, k, i)
    ensures handle == if i < |t.index| then Some((t.blocks[i].offset, t.blocks[i].size)) else None
  {
    BeforeChains(lt);
    IndexAscends(lt, t, top);
    var p;
    p, i := BB.SeekIn(image.index, Before(lt), EncodeKey(k), dec, top);
    KeyRoundTrip(k);
    forall b | 0 <= b < |t.index| ensures DecodeKey(top.pairs[b].key) == t.index[b] {
      assert Stores(t, b);
      KeyRoundTrip(t.index[b]);
    }
    handle := None;
    if p.Some? {
      assert Stores(t, i);
      HandleRoundTrip(t.blocks[i].offset, t.blocks[i].size);
      handle := GetHandle(p.value.value);
    }
  }

  /** The seek in the bytes of a data block finds what the seek among its rows finds. */
  method SeekBlock(data: Bytes, lt: UserOrder, k: Key, ghost dec: B.Decoder, ghost rows: seq<Row>, ghost plan: B.Plan)
    returns (r: Option<Row>, ghost n: nat)
    requires IsOrder(lt) && Increasing(lt, rows) && AllFit(rows) && k.tag < Coding.LONG
    requires B.IsDecoder(dec) && BB.IsBlock(dec, data, plan) && plan.pairs == PairsOf(rows)
    ensures n <= |rows| && r == (if n < |rows| then Some(rows[n]) else None)
    ensures forall j :: 0 <= j < n ==> Precedes(lt, rows[j].key, k)
    ensures n < |rows| ==> !Precedes(lt, rows[n].key, k)
  {
    BeforeChains(lt);
    RowsAscend(lt, rows, plan);
    var p;
    p, n := BB.SeekIn(data, Before(lt), EncodeKey(k), dec, plan);
    KeyRoundTrip(k);
    forall j | 0 <= j < |rows| ensures DecodeKey(plan.pairs[j].key) == rows[j].key {
      KeyRoundTrip(rows[j].key);
    }
    r := if p.Some? then Some(RowOf(p.value)) else None;
  }

  /** Table::InternalGet on bytes. */
  method Get(image: Image, lt: UserOrder, k: Key, policy: FB.Policy, ghost dec: B.Decoder, ghost t: Table,
             ghost plans: seq<B.Plan>, ghost top: B.Plan)
    returns (r: Option<Row>)
    requires TableOk(lt, t) && FilterOk(t, policy) && Storable(t) && k.tag < Coding.LONG
    requires B.IsDecoder(dec) && ImageOf(dec, image, t, plans, top)
    ensures Got(t, k, r) && exists i, n :: Looks(lt, t, k, policy, i, n, r)
  {
    var handle;
    ghost var i, n := 0, 0;
    handle, i := FindBlock(image, lt, k, dec, t, plans, top);
    r := None;
    if handle.Some? {
      var offset := handle.value.0;
      if image.filter.None? || FB.KeyMayMatch(policy, image.filter.value, offset, k.user) {
        assert BlockAt(dec, image.blocks, t.blocks[i], plans[i]) && Stores(t, i);
        r, n := SeekBlock(image.blocks[offset], lt, k, dec, t.blocks[i].rows, plans[i]);
      }
    }
    assert Looks(lt, t, k, policy, i, n, r);
    Complete(lt, t, k, policy, i, n, r);
  }

  /** Rows in key order, built into a table, written out block by block and looked up in the
      bytes: the newest row of the user key that the lookup may see, or none exactly when there
      is none.  `small` is false only if some block or the filters take 2^32 bytes or more. */
  method BuildWriteGet(rows: seq<Row>, k: Key, interval: nat, bitsPerKey: nat, tries: Bloom.Tries, hash: Bloom.Hash,
                       blockSize: nat, estimate: seq<Row> -> nat, sizeOf: seq<Row> -> nat, filtered: bool)
    returns (small: bool, r: Option<Row>, ghost t: Table)
    requires Increasing(InternalKeys().lt, rows) && k.tag < Coding.LONG && interval >= 1
    ensures TableOk(InternalKeys().lt, t) && RowsOf(t.blocks) == rows
    ensures small ==> Answers(rows, k, r)
    ensures (!filtered || |rows| * (bitsPerKey + 10) < Coding.WORD) && Storable(t) && Roomy(t) ==> small
  {
    var table;
    table, small := Build(rows, bitsPerKey, tries, hash, blockSize, estimate, sizeOf, filtered);
    t, r := table, None;
    if !small || !Storable(table) {
      return false, None, t;
    }
    var lt, policy := InternalKeys().lt, BloomPolicy(bitsPerKey, tries, hash);
    BB.DecodeEntryIsDecoder();
    var image;
    ghost var plans, top;
    image, plans, top := WriteImage(table, interval, lt, B.DecodeEntry);
    if image.None? {
      return false, None, t;
    }
    var row := Get(image.value, lt, k, policy, B.DecodeEntry, t, plans, top);
    GotAnswers(t, rows, k, row);
    if row.Some? && row.value.key.user == k.user {
      r := row;
    }
  }
}
