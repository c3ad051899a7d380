/** The filter block of a table: one filter for every 2KB of block offsets. */
module FilterBlock {
  import opened Coding

  const BASE: nat := 2048
  const BASE_LG: byte := 11

  datatype Policy = Policy(create: seq<Bytes> -> Bytes, may: (Bytes, Bytes) -> bool)

  /** A filter never denies a key it was made from. */
  ghost predicate NoFalseNegatives(policy: Policy) {
    forall keys, k :: k in keys ==> policy.may(k, policy.create(keys))
  }

  /** A filter for no keys takes no bytes. */
  function Image(policy: Policy, keys: seq<Bytes>): Bytes {
    if |keys| == 0 then [] else policy.create(keys)
  }

  function EndOf(offsets: seq<nat>, i: nat, size: nat): nat {
    if i + 1 < |offsets| then offsets[i + 1] else size
  }

  ghost predicate LaidAt(policy: Policy, result: Bytes, offsets: seq<nat>, i: nat, keys: seq<Bytes>) {
    && i < |offsets| && offsets[i] <= EndOf(offsets, i, |result|) <= |result|
    && result[offsets[i]..EndOf(offsets, i, |result|)] == Image(policy, keys)
  }

  /** Filter `i` is made from the keys `filters[i]`. */
  ghost predicate Laid(policy: Policy, result: Bytes, offsets: seq<nat>, filters: seq<seq<Bytes>>) {
    |offsets| == |filters| && forall i :: 0 <= i < |filters| ==> LaidAt(policy, result, offsets, i, filters[i])
  }

  lemma LaidGrows(policy: Policy, result: Bytes, offsets: seq<nat>, filters: seq<seq<Bytes>>, keys: seq<Bytes>)
    requires Laid(policy, result, offsets, filters)
    ensures Laid(policy, result + Image(policy, keys), offsets + [|result|], filters + [keys])
  {
    var r, o, f := result + Image(policy, keys), offsets + [|result|], filters + [keys];
    forall i | 0 <= i < |f| ensures LaidAt(policy, r, o, i, f[i]) {
      if i < |filters| {
        assert LaidAt(policy, result, offsets, i, filters[i]);
        assert EndOf(o, i, |r|) == EndOf(offsets, i, |result|);
        Extended(result, Image(policy, keys), offsets[i], EndOf(offsets, i, |result|));
      } else {
        assert r[|result|..|r|] == Image(policy, keys);
      }
    }
  }

  /** How many keys the filters were made from, and how many bytes they take. */
  ghost function Count(filters: seq<seq<Bytes>>): nat
    decreases |filters|
  {
    if |filters| == 0 then 0 else Count(filters[..|filters| - 1]) + |filters[|filters| - 1]|
  }

  ghost function ImageSize(policy: Policy, filters: seq<seq<Bytes>>): nat
    decreases |filters|
  {
    if |filters| == 0 then 0
    else ImageSize(policy, filters[..|filters| - 1]) + |Image(policy, filters[|filters| - 1])|
  }

  lemma CountSnoc(policy: Policy, filters: seq<seq<Bytes>>, keys: seq<Bytes>)
    ensures Count(filters + [keys]) == Count(filters) + |keys|
    ensures ImageSize(policy, filters + [keys]) == ImageSize(policy, filters) + |Image(policy, keys)|
  {
    assert (filters + [keys])[..|filters|] == filters;
  }

  /** With a bound per key, the filters are bounded by the number of keys. */
  lemma {:induction false} SizeBound(policy: Policy, filters: seq<seq<Bytes>>, perKey: nat)
    requires forall keys :: |keys| > 0 ==> |policy.create(keys)| <= |keys| * perKey
    ensures ImageSize(policy, filters) <= Count(filters) * perKey
    decreases |filters|
  {
    if |filters| > 0 {
      var n := |filters| - 1;
      SizeBound(policy, filters[..n], perKey);
      Distribute(Count(filters[..n]), |filters[n]|, perKey);
    }
  }

  lemma Distribute(a: nat, b: nat, c: nat)
    ensures (a + b) * c == a * c + b * c
  {
  }

  // ----- Building -----

  /** The pending keys, laid end to end. */
  ghost predicate SliceIs(flat: Bytes, start: seq<nat>, i: nat, key: Bytes) {
    i < |start| && start[i] <= EndOf(start, i, |flat|) <= |flat| && flat[start[i]..EndOf(start, i, |flat|)] == key
  }

  ghost predicate Flattened(flat: Bytes, start: seq<nat>, pending: seq<Bytes>) {
    |start| == |pending| && forall i :: 0 <= i < |start| ==> SliceIs(flat, start, i, pending[i])
  }

  lemma FlattenedGrows(flat: Bytes, start: seq<nat>, pending: seq<Bytes>, key: Bytes)
    requires Flattened(flat, start, pending)
    ensures Flattened(flat + key, start + [|flat|], pending + [key])
  {
    var s, p := start + [|flat|], pending + [key];
    forall i | 0 <= i < |s| ensures SliceIs(flat + key, s, i, p[i]) {
      if i < |start| {
        assert SliceIs(flat, start, i, pending[i]);
        assert EndOf(s, i, |flat + key|) == EndOf(start, i, |flat|);
        Extended(flat, key, start[i], EndOf(start, i, |flat|));
      } else {
        assert (flat + key)[|flat|..|flat + key|] == key;
      }
    }
  }

  /** A key of a block at file offset `o` is in the filter for that offset, written
      or still pending. */
  ghost predicate Covered(filters: seq<seq<Bytes>>, pending: seq<Bytes>, index: nat, key: Bytes) {
    if index < |filters| then key in filters[index] else index == |filters| && key in pending
  }

  /** The list of keys from the flattened structure. */
  method SliceKeys(flat: Bytes, start: seq<nat>, ghost pending: seq<Bytes>) returns (keys: seq<Bytes>)
    requires Flattened(flat, start, pending)
    ensures keys == pending
  {
    keys := [];
    for i := 0 to |start|
      invariant |keys| == i && forall j :: 0 <= j < i ==> keys[j] == pending[j]
    {
      assert SliceIs(flat, start, i, pending[i]);
      var key := flat[start[i]..EndOf(start, i, |flat|)];
      keys := keys + [key];
    }
  }

  /** The pending keys make the next filter, and ranges without blocks get empty ones. */
  ghost predicate Started(filters: seq<seq<Bytes>>, pending: seq<Bytes>, filters': seq<seq<Bytes>>,
                          pending': seq<Bytes>) {
    if |filters'| == |filters| then filters' == filters && pending' == pending
    else && filters + [pending] <= filters' && pending' == []
         && forall i :: |filters| < i < |filters'| ==> filters'[i] == []
  }

  class FilterBlockBuilder {
    const policy: Policy
    var flat: Bytes
    var start: seq<nat>
    var result: Bytes
    var offsets: seq<nat>
    ghost var pending: seq<Bytes>
    ghost var filters: seq<seq<Bytes>>

    ghost predicate Valid()
      reads this
    {
      && Flattened(flat, start, pending) && Laid(policy, result, offsets, filters)
      && |result| == ImageSize(policy, filters)
    }

    /** The keys added so far. */
    ghost function Added(): nat
      reads this
    {
      Count(filters) + |pending|
    }

    constructor (policy: Policy)
      ensures Valid() && pending == [] && filters == [] && this.policy == policy
    {
      this.policy := policy;
      flat, start, result, offsets, pending, filters := [], [], [], [], [], [];
    }

    method AddKey(key: Bytes)
      requires Valid()
      modifies this
      ensures Valid() && pending == old(pending) + [key] && filters == old(filters) && Added() == old(Added()) + 1
    {
      FlattenedGrows(flat, start, pending, key);
      start := start + [|flat|];
      flat := flat + key;
      pending := pending + [key];
    }

    /** GenerateFilter: the pending keys become the next filter. */
    method GenerateFilter()
      requires Valid()
      modifies this
      ensures Valid() && filters == old(filters) + [old(pending)] && pending == [] && Added() == old(Added())
    {
      CountSnoc(policy, filters, pending);
      LaidGrows(policy, result, offsets, filters, pending);
      if |start| == 0 {
        assert result + [] == result;
        offsets := offsets + [|result|];
        filters := filters + [pending];
        return;
      }
      var keys := SliceKeys(flat, start, pending);
      offsets := offsets + [|result|];
      result := result + policy.create(keys);
      filters := filters + [pending];
      flat, start, pending := [], [], [];
    }

    /** StartBlock: the filters for all earlier 2KB ranges are written; whatever was
        covered stays covered. */
    method StartBlock(offset: nat)
      requires Valid() && |filters| <= offset / BASE
      modifies this
      ensures Valid() && |filters| == offset / BASE && Added() == old(Added())
      ensures Started(old(filters), old(pending), filters, pending)
      ensures forall i: nat, k: Bytes :: Covered(old(filters), old(pending), i, k) ==> Covered(filters, pending, i, k)
    {
      var index := offset / BASE;
      while index > |offsets|
        invariant Valid() && |filters| <= index && Added() == old(Added())
        invariant Started(old(filters), old(pending), filters, pending)
        invariant forall i: nat, k: Bytes :: Covered(old(filters), old(pending), i, k) ==>
                    Covered(filters, pending, i, k)
        decreases index - |offsets|
      {
        ghost var f, p := filters, pending;
        GenerateFilter();
        forall i: nat, k: Bytes | Covered(f, p, i, k) ensures Covered(filters, pending, i, k) {
        }
      }
    }

    /** Finish: filters, their offsets, where the offsets start, and the base. */
    method Finish() returns (data: Bytes)
      requires Valid()
      modifies this
      ensures Valid() && data == Encoded(result, offsets) && Added() == old(Added())
      ensures filters == old(filters) + (if old(pending) == [] then [] else [old(pending)])
      ensures forall i: nat, k: Bytes :: Covered(old(filters), old(pending), i, k) ==> i < |filters| && k in filters[i]
    {
      if |start| > 0 {
        GenerateFilter();
      }
      data := EncodeBlock(result, offsets);
    }
  }

  method EncodeBlock(result: Bytes, offsets: seq<nat>) returns (data: Bytes)
    ensures data == Encoded(result, offsets)
  {
    data := result;
    for i := 0 to |offsets|
      invariant data == result + FixedArray(offsets[..i])
    {
      FixedArraySnoc(result, offsets, i);
      data := data + Fixed(offsets[i], 4);
    }
    assert offsets[..|offsets|] == offsets;
    data := data + Fixed(|result|, 4);
    data := data + [BASE_LG];
  }

  function Encoded(result: Bytes, offsets: seq<nat>): Bytes {
    result + FixedArray(offsets) + Fixed(|result|, 4) + [BASE_LG]
  }

  // ----- Reading -----

  lemma EncodedSize(result: Bytes, offsets: seq<nat>)
    ensures var data := Encoded(result, offsets);
            |data| == |result| + 4 * |offsets| + 5 && data[|data| - 1] == BASE_LG
  {
  }

  /** The offsets and the final word are one array. */
  lemma EncodedWord(result: Bytes, offsets: seq<nat>, i: nat)
    requires i <= |offsets| && |result| < WORD && (i < |offsets| ==> offsets[i] < WORD)
    ensures |result| + 4 * i + 4 <= |Encoded(result, offsets)|
    ensures WordAt(Encoded(result, offsets), |result| + 4 * i) == if i < |offsets| then offsets[i] else |result|
  {
    var vs := offsets + [|result|];
    var points := FixedArray(vs);
    assert vs[..|vs| - 1] == offsets;
    assert points == FixedArray(offsets) + Fixed(|result|, 4);
    RegroupFour(result, FixedArray(offsets), Fixed(|result|, 4), [BASE_LG]);
    FixedArrayAt(vs, i);
    WordIn(result, points, [BASE_LG], i, vs[i]);
  }

  lemma RegroupFour(a: Bytes, b: Bytes, c: Bytes, d: Bytes)
    ensures a + (b + c) + d == a + b + c + d == a + (b + c + d)
  {
  }

  /** What the reader works from: where the offset array starts and how long it is. */
  datatype Index = Index(word: nat, num: nat, base: byte)

  /** The constructor of FilterBlockReader; contents too short to be a filter block
      give an empty index. */
  function OpenIndex(data: Bytes): (x: Index)
    ensures x.num > 0 ==> x.word + 4 * x.num + 5 <= |data|
  {
    var n := |data|;
    if n < 5 then Index(0, 0, 0)
    else
      var word := WordAt(data, n - 5);
      if word > n - 5 then Index(0, 0, data[n - 1]) else Index(word, (n - 5 - word) / 4, data[n - 1])
  }

  function FilterIndex(offset: nat, base: byte): nat {
    offset / Pow(2, base)
  }

  lemma FilterIndexIs(offset: nat)
    ensures FilterIndex(offset, BASE_LG) == offset / BASE
  {
    assert Pow(2, 3) == 8;
    assert Pow(2, 6) == 64;
    assert Pow(2, 9) == 512;
    assert Pow(2, 11) == 2048;
  }

  /** Filter `i` on a key. */
  function Ask(policy: Policy, data: Bytes, x: Index, i: nat, key: Bytes): bool
    requires i < x.num && x.word + 4 * x.num + 5 <= |data|
  {
    var from, to := WordAt(data, x.word + 4 * i), WordAt(data, x.word + 4 * (i + 1));
    if from <= to <= x.word then policy.may(key, data[from..to]) else from != to
  }

  /** FilterBlockReader::KeyMayMatch; errors are treated as potential matches. */
  function KeyMayMatch(policy: Policy, data: Bytes, offset: nat, key: Bytes): bool {
    var x := OpenIndex(data);
    FilterIndex(offset, x.base) < x.num ==> Ask(policy, data, x, FilterIndex(offset, x.base), key)
  }

  lemma SmallOffsets(policy: Policy, result: Bytes, offsets: seq<nat>, filters: seq<seq<Bytes>>, i: nat)
    requires Laid(policy, result, offsets, filters) && |result| < WORD && i < |offsets|
    ensures offsets[i] <= |result|
  {
    assert LaidAt(policy, result, offsets, i, filters[i]);
  }

  lemma GoodIndex(result: Bytes, offsets: seq<nat>)
    requires |result| < WORD
    ensures OpenIndex(Encoded(result, offsets)) == Index(|result|, |offsets|, BASE_LG)
  {
    EncodedSize(result, offsets);
    EncodedWord(result, offsets, |offsets|);
  }

  lemma GoodAsk(policy: Policy, result: Bytes, offsets: seq<nat>, filters: seq<seq<Bytes>>, i: nat, key: Bytes)
    requires Laid(policy, result, offsets, filters) && |result| < WORD && i < |filters|
    ensures |Encoded(result, offsets)| == |result| + 4 * |offsets| + 5
    ensures Ask(policy, Encoded(result, offsets), Index(|result|, |offsets|, BASE_LG), i, key)
         == policy.may(key, Image(policy, filters[i]))
  {
    EncodedSize(result, offsets);
    SmallOffsets(policy, result, offsets, filters, i);
    EncodedWord(result, offsets, i);
    if i + 1 < |offsets| {
      SmallOffsets(policy, result, offsets, filters, i + 1);
    }
    EncodedWord(result, offsets, i + 1);
    assert LaidAt(policy, result, offsets, i, filters[i]);
    RegroupFour(result, FixedArray(offsets), Fixed(|result|, 4), [BASE_LG]);
    Extended(result, FixedArray(offsets) + Fixed(|result|, 4) + [BASE_LG], offsets[i], EndOf(offsets, i, |result|));
  }

  /** The reader asks the policy about exactly the filter of the block's 2KB range; past the last
      range it denies nothing. */
  lemma AsksTheFilter(policy: Policy, result: Bytes, offsets: seq<nat>, filters: seq<seq<Bytes>>, offset: nat,
                      key: Bytes)
    requires Laid(policy, result, offsets, filters) && |result| < WORD
    ensures KeyMayMatch(policy, Encoded(result, offsets), offset, key)
        <==> (offset / 2048 < |filters| ==> policy.may(key, Image(policy, filters[offset / 2048])))
  {
    GoodIndex(result, offsets);
    FilterIndexIs(offset);
    if offset / BASE < |filters| {
      GoodAsk(policy, result, offsets, filters, offset / BASE, key);
    }
  }

  /** A key that a filter covers is never denied. */
  lemma CoveredMayMatch(policy: Policy, result: Bytes, offsets: seq<nat>, filters: seq<seq<Bytes>>, offset: nat,
                        key: Bytes)
    requires NoFalseNegatives(policy) && Laid(policy, result, offsets, filters) && |result| < WORD
    requires offset / BASE < |filters| && key in filters[offset / BASE]
    ensures KeyMayMatch(policy, Encoded(result, offsets), offset, key)
  {
    AsksTheFilter(policy, result, offsets, filters, offset, key);
    assert policy.may(key, policy.create(filters[offset / BASE]));
  }
}
