/** Building a table and looking a key up in it, with the real comparator and filter. */
module TableLookup {
  import opened Entries
  import opened TableFile
  import Bloom
  import Coding
  import FB = FilterBlock
  import S = Separators

  // ----- The internal key comparator -----

  /** Bytewise user keys, and the internal key comparator's shortening functions. */
  function InternalKeys(): Comparator {
    Comparator((a, b) => S.LexLess(a, b), (a, b) => S.SeparatorKey(a, b), a => S.SuccessorKey(a))
  }

  lemma LexIsOrder()
    ensures IsOrder(InternalKeys().lt)
  {
    var lt := InternalKeys().lt;
    forall a ensures !lt(a, a) {
      S.LexIrreflexive(a);
    }
    forall a, b, c | lt(a, b) && lt(b, c) ensures lt(a, c) {
      S.LexTransitive(a, b, c);
    }
    forall a, b ensures lt(a, b) || lt(b, a) || a == b {
      S.LexTotal(a, b);
    }
  }

  lemma InternalKeysSeparate()
    ensures Separates(InternalKeys())
  {
    var cmp := InternalKeys();
    LexIsOrder();
    forall a, b | Precedes(cmp.lt, a, b) ensures SeparatesAt(cmp, a, b) {
      S.SeparatorEnds(a, b);
    }
    forall a ensures EndsWith(cmp.lt, a, cmp.successor(a)) {
      S.SuccessorEnds(a);
    }
  }

  // ----- The Bloom filter policy -----

  function BloomPolicy(bitsPerKey: nat, k: Bloom.Tries, hash: Bloom.Hash): FB.Policy {
    FB.Policy(keys => Bloom.Filter(keys, bitsPerKey, k, hash), (key, filter) => Bloom.MayMatch(key, filter, hash))
  }

  lemma BloomDeniesNone(bitsPerKey: nat, k: Bloom.Tries, hash: Bloom.Hash)
    ensures FB.NoFalseNegatives(BloomPolicy(bitsPerKey, k, hash))
  {
    var policy := BloomPolicy(bitsPerKey, k, hash);
    forall keys, key | key in keys ensures policy.may(key, policy.create(keys)) {
      Bloom.MadeFromMatches(keys, key, bitsPerKey, k, hash);
    }
  }

  /** A filter takes so many bytes for each of its keys. */
  lemma BloomSize(keys: seq<Bytes>, bitsPerKey: nat, k: Bloom.Tries, hash: Bloom.Hash)
    requires |keys| > 0
    ensures |Bloom.Filter(keys, bitsPerKey, k, hash)| <= |keys| * (bitsPerKey + 10)
  {
    var bits := |keys| * bitsPerKey;
    FB.Distribute(bitsPerKey, 10, |keys|);
    assert Bloom.FilterBytes(|keys|, bitsPerKey) + 1 <= bits + 10;
  }

  /** Filters made from fewer than 2^32 bytes' worth of keys are small enough. */
  lemma FiltersSmall(filters: seq<seq<Bytes>>, bitsPerKey: nat, k: Bloom.Tries, hash: Bloom.Hash)
    ensures FB.ImageSize(BloomPolicy(bitsPerKey, k, hash), filters) <= FB.Count(filters) * (bitsPerKey + 10)
  {
    var policy := BloomPolicy(bitsPerKey, k, hash);
    forall keys | |keys| > 0 ensures |policy.create(keys)| <= |keys| * (bitsPerKey + 10) {
      BloomSize(keys, bitsPerKey, k, hash);
    }
    FB.SizeBound(policy, filters, bitsPerKey + 10);
  }

  // ----- Rows and blocks -----

  lemma {:induction false} RowPlace(blocks: seq<Stored>, i: nat) returns (b: nat, n: nat)
    requires i < |RowsOf(blocks)|
    ensures b < |blocks| && n < |blocks[b].rows| && blocks[b].rows[n] == RowsOf(blocks)[i]
    decreases |blocks|
  {
    var z := |blocks| - 1;
    var front := RowsOf(blocks[..z]);
    if i < |front| {
      b, n := RowPlace(blocks[..z], i);
    } else {
      b, n := z, i - |front|;
    }
  }

  lemma {:induction false} PlacedRow(blocks: seq<Stored>, b: nat, n: nat)
    requires b < |blocks| && n < |blocks[b].rows|
    ensures blocks[b].rows[n] in RowsOf(blocks)
    decreases |blocks|
  {
    var z := |blocks| - 1;
    if b < z {
      PlacedRow(blocks[..z], b, n);
    }
  }

  /** The answer a lookup of `k` among the rows should give. */
  ghost predicate Answers(rows: seq<Row>, k: Key, r: Option<Row>) {
    match r
    case None => forall i :: 0 <= i < |rows| ==> !Matches(rows[i].key, k)
    case Some(x) =>
      && x in rows && Matches(x.key, k)
      && forall i :: 0 <= i < |rows| && Matches(rows[i].key, k) ==> rows[i].key.tag <= x.key.tag
  }

  lemma GotAnswers(t: Table, rows: seq<Row>, k: Key, r: Option<Row>)
    requires Got(t, k, r) && RowsOf(t.blocks) == rows
    ensures Answers(rows, k, if r.Some? && r.value.key.user == k.user then r else None)
  {
    if r.Some? && r.value.key.user == k.user {
      var b: nat, n: nat :| Newest(t, k, b, n) && r.value == t.blocks[b].rows[n];
      PlacedRow(t.blocks, b, n);
      forall i | 0 <= i < |rows| && Matches(rows[i].key, k) ensures rows[i].key.tag <= r.value.key.tag {
        var c, m := RowPlace(t.blocks, i);
        assert InTable(t, c, m);
      }
    } else {
      forall i | 0 <= i < |rows| ensures !Matches(rows[i].key, k) {
        var c, m := RowPlace(t.blocks, i);
        if Matches(rows[i].key, k) {
          assert InTable(t, c, m);
          var b, n := SomeNewest(t, k, c, m);
        }
      }
    }
  }

  lemma Fewer(a: nat, b: nat, c: nat)
    requires a <= b
    ensures a * c <= b * c
  {
    FB.Distribute(a, b - a, c);
  }

  // ----- Building and getting -----

  /** A table of the rows; `small` says that its filters took less than 2^32 bytes. */
  method Build(rows: seq<Row>, bitsPerKey: nat, tries: Bloom.Tries, hash: Bloom.Hash, blockSize: nat,
               estimate: seq<Row> -> nat, sizeOf: seq<Row> -> nat, filtered: bool)
    returns (t: Table, small: bool)
    requires Increasing(InternalKeys().lt, rows)
    ensures TableOk(InternalKeys().lt, t) && RowsOf(t.blocks) == rows
    ensures small ==> FilterOk(t, BloomPolicy(bitsPerKey, tries, hash))
    ensures !filtered || |rows| * (bitsPerKey + 10) < Coding.WORD ==> small
  {
    var policy, cmp := BloomPolicy(bitsPerKey, tries, hash), InternalKeys();
    InternalKeysSeparate();
    BloomDeniesNone(bitsPerKey, tries, hash);
    var filter: FB.FilterBlockBuilder? := null;
    if filtered {
      filter := new FB.FilterBlockBuilder(policy);
    }
    var builder := new TableBuilder(cmp, policy, blockSize, estimate, sizeOf, filter);
    AddRows(builder, rows);
    t := builder.Finish();
    small := filter == null || |filter.result| < Coding.WORD;
    if filter != null {
      ResultSmall(filter, |rows|, bitsPerKey, tries, hash);
    }
  }

  lemma ResultSmall(filter: FB.FilterBlockBuilder, n: nat, bitsPerKey: nat, k: Bloom.Tries, hash: Bloom.Hash)
    requires filter.Valid() && filter.policy == BloomPolicy(bitsPerKey, k, hash) && filter.Added() == n
    ensures |filter.result| <= n * (bitsPerKey + 10)
  {
    FiltersSmall(filter.filters, bitsPerKey, k, hash);
    Fewer(FB.Count(filter.filters), n, bitsPerKey + 10);
  }

  method AddRows(builder: TableBuilder, rows: seq<Row>)
    requires builder.Valid() && AllRows(builder.rep) == [] && Increasing(builder.cmp.lt, rows)
    modifies builder, builder.filter
    ensures builder.Valid() && AllRows(builder.rep) == rows
  {
    for i := 0 to |rows|
      invariant builder.Valid() && AllRows(builder.rep) == rows[..i]
      invariant i > 0 ==> builder.rep.lastKey == rows[i - 1].key
    {
      assert i > 0 ==> Precedes(builder.cmp.lt, rows[i - 1].key, rows[i].key);
      builder.Add(rows[i]);
      assert rows[..i + 1] == rows[..i] + [rows[i]];
    }
    assert rows[..|rows|] == rows;
  }

  /** Whatever rows go in, in key order, however they are cut into blocks, with or without
      filters: a lookup gives the newest row of the user key that it may see, or none
      exactly when there is none. */
  method BuildThenGet(rows: seq<Row>, k: Key, bitsPerKey: nat, tries: Bloom.Tries, hash: Bloom.Hash, blockSize: nat,
                      estimate: seq<Row> -> nat, sizeOf: seq<Row> -> nat, filtered: bool)
    returns (small: bool, r: Option<Row>)
    requires Increasing(InternalKeys().lt, rows)
    ensures small ==> Answers(rows, k, r)
    ensures !filtered || |rows| * (bitsPerKey + 10) < Coding.WORD ==> small
  {
    var t;
    t, small := Build(rows, bitsPerKey, tries, hash, blockSize, estimate, sizeOf, filtered);
    r := None;
    if small {
      var row := InternalGet(InternalKeys().lt, t, k, BloomPolicy(bitsPerKey, tries, hash));
      GotAnswers(t, rows, k, row);
      if row.Some? && row.value.key.user == k.user {
        r := row;
      }
    }
  }
}
