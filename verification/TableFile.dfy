/** Tables: sorted rows in blocks, an index, filters and the point lookup. */
module TableFile {
  // The index holds shortened separator keys, and there is a filter for every 2KB.  User
  // keys are bytes under any total order, which the comparator brings along.

  import opened Entries
  import Coding
  import FB = FilterBlock
  import S = Separators

  type Bytes = Coding.Bytes
  type Key = S.IKey

  const TRAILER: nat := 5

  datatype Row = Row(key: Key, value: Bytes)

  /** A block as written: where it starts, how long it is, what it holds. */
  datatype Stored = Stored(offset: nat, size: nat, rows: seq<Row>)

  // ----- The order -----

  type UserOrder = (Bytes, Bytes) -> bool

  ghost predicate IsOrder(lt: UserOrder) {
    && (forall a :: !lt(a, a))
    && (forall a, b, c :: lt(a, b) && lt(b, c) ==> lt(a, c))
    && (forall a, b :: lt(a, b) || lt(b, a) || a == b)
  }

  /** Rising user key, then falling tag. */
  predicate Precedes(lt: UserOrder, a: Key, b: Key) {
    lt(a.user, b.user) || (a.user == b.user && a.tag > b.tag)
  }

  lemma Chain(lt: UserOrder, a: Key, b: Key, c: Key)
    requires IsOrder(lt) && Precedes(lt, a, b) && Precedes(lt, b, c)
    ensures Precedes(lt, a, c)
  {
  }

  ghost predicate Increasing(lt: UserOrder, rows: seq<Row>) {
    forall i, j :: 0 <= i < j < |rows| ==> Precedes(lt, rows[i].key, rows[j].key)
  }

  /** `k` may stand in the index for a block that ends with `last`: the key itself,
      or a key of a greater user key. */
  ghost predicate EndsWith(lt: UserOrder, last: Key, k: Key) {
    k == last || lt(last.user, k.user)
  }

  /** The comparator: the order of user keys, and its key-shortening functions. */
  datatype Comparator = Comparator(lt: UserOrder, separator: (Key, Key) -> Key, successor: Key -> Key)

  ghost predicate SeparatesAt(cmp: Comparator, a: Key, b: Key) {
    var k := cmp.separator(a, b);
    EndsWith(cmp.lt, a, k) && (k == a || cmp.lt(k.user, b.user))
  }

  ghost predicate Separates(cmp: Comparator) {
    && IsOrder(cmp.lt)
    && (forall a, b :: Precedes(cmp.lt, a, b) ==> SeparatesAt(cmp, a, b))
    && (forall a :: EndsWith(cmp.lt, a, cmp.successor(a)))
  }

  // ----- A finished table -----

  datatype Table = Table(blocks: seq<Stored>, index: seq<Key>, filter: Option<Bytes>)

  ghost predicate InTable(t: Table, b: nat, n: nat) {
    b < |t.blocks| && n < |t.blocks[b].rows|
  }

  ghost predicate BlocksApart(lt: UserOrder, a: Stored, b: Stored) {
    forall m, n :: 0 <= m < |a.rows| && 0 <= n < |b.rows| ==> Precedes(lt, a.rows[m].key, b.rows[n].key)
  }

  ghost predicate Ordered(lt: UserOrder, blocks: seq<Stored>) {
    && (forall b :: 0 <= b < |blocks| ==> |blocks[b].rows| > 0 && Increasing(lt, blocks[b].rows))
    && (forall b, c :: 0 <= b < c < |blocks| ==> BlocksApart(lt, blocks[b], blocks[c]))
  }

  function LastKey(s: Stored): Key
    requires |s.rows| > 0
  {
    s.rows[|s.rows| - 1].key
  }

  /** The index key of a block falls short of the user keys of some later rows, unless
      it is the block's last key itself. */
  ghost predicate Short(lt: UserOrder, s: Stored, k: Key, rows: seq<Row>)
    requires |s.rows| > 0
  {
    k != LastKey(s) ==> forall n :: 0 <= n < |rows| ==> lt(k.user, rows[n].key.user)
  }

  ghost predicate IndexOk(lt: UserOrder, blocks: seq<Stored>, index: seq<Key>)
    requires Ordered(lt, blocks) && |index| <= |blocks|
  {
    && (forall b :: 0 <= b < |index| ==> EndsWith(lt, LastKey(blocks[b]), index[b]))
    && (forall b, c :: 0 <= b < |index| && b < c < |blocks| ==> Short(lt, blocks[b], index[b], blocks[c].rows))
  }

  /** Blocks lie one behind the other, up to `end`. */
  ghost predicate Spaced(blocks: seq<Stored>, end: nat) {
    && (forall b, c :: 0 <= b < c < |blocks| ==> blocks[b].offset < blocks[c].offset)
    && (forall b :: 0 <= b < |blocks| ==> blocks[b].offset + blocks[b].size < end)
  }

  ghost predicate TableOk(lt: UserOrder, t: Table) {
    && IsOrder(lt) && |t.index| == |t.blocks| && Ordered(lt, t.blocks) && IndexOk(lt, t.blocks, t.index)
    && exists end :: Spaced(t.blocks, end)
  }

  /** No filter denies a row of a block. */
  ghost predicate FilterOk(t: Table, policy: FB.Policy) {
    t.filter.Some? ==> forall b, n :: 0 <= b < |t.blocks| && 0 <= n < |t.blocks[b].rows| ==>
      FB.KeyMayMatch(policy, t.filter.value, t.blocks[b].offset, t.blocks[b].rows[n].key.user)
  }

  // ----- Point lookup -----

  /** `i` is the first index key at or after `k`. */
  ghost predicate Found(lt: UserOrder, index: seq<Key>, k: Key, i: nat) {
    && i <= |index| && (forall j :: 0 <= j < i ==> Precedes(lt, index[j], k))
    && (i < |index| ==> !Precedes(lt, index[i], k))
  }

  method SeekIndex(lt: UserOrder, index: seq<Key>, k: Key) returns (i: nat)
    ensures Found(lt, index, k, i)
  {
    i := 0;
    while i < |index| && Precedes(lt, index[i], k)
      invariant i <= |index| && forall j :: 0 <= j < i ==> Precedes(lt, index[j], k)
    {
      i := i + 1;
    }
  }

  method SeekRows(lt: UserOrder, rows: seq<Row>, k: Key) returns (i: nat)
    ensures i <= |rows| && (forall j :: 0 <= j < i ==> Precedes(lt, rows[j].key, k))
    ensures i < |rows| ==> !Precedes(lt, rows[i].key, k)
  {
    i := 0;
    while i < |rows| && Precedes(lt, rows[i].key, k)
      invariant i <= |rows| && forall j :: 0 <= j < i ==> Precedes(lt, rows[j].key, k)
    {
      i := i + 1;
    }
  }

  /** A version of the user key that the lookup may see. */
  predicate Matches(x: Key, k: Key) {
    x.user == k.user && x.tag <= k.tag
  }

  /** Row `n` of block `b` is the newest one of its user key at or after `k`. */
  ghost predicate Newest(t: Table, k: Key, b: nat, n: nat) {
    && InTable(t, b, n) && Matches(t.blocks[b].rows[n].key, k)
    && forall c: nat, m: nat :: InTable(t, c, m) && Matches(t.blocks[c].rows[m].key, k) ==>
         t.blocks[c].rows[m].key.tag <= t.blocks[b].rows[n].key.tag
  }

  /** The newest match is the first row at or after the lookup key. */
  lemma NewestIsFirst(lt: UserOrder, t: Table, k: Key, b: nat, n: nat, c: nat, m: nat)
    requires TableOk(lt, t) && Newest(t, k, b, n) && InTable(t, c, m) && (c < b || (c == b && m < n))
    ensures Precedes(lt, t.blocks[c].rows[m].key, k)
  {
    var r, x := t.blocks[b].rows[n].key, t.blocks[c].rows[m].key;
    assert c < b ==> BlocksApart(lt, t.blocks[c], t.blocks[b]);
    assert Precedes(lt, x, r);
    assert x.user == k.user ==> !Matches(x, k);
  }

  /** The index seek finds the block of the newest match. */
  lemma IndexFindsIt(lt: UserOrder, t: Table, k: Key, b: nat, n: nat, i: nat)
    requires TableOk(lt, t) && Newest(t, k, b, n) && Found(lt, t.index, k, i)
    ensures i == b
  {
    var r, last := t.blocks[b].rows[n].key, LastKey(t.blocks[b]);
    assert r == last || Precedes(lt, r, last);
    assert EndsWith(lt, last, t.index[b]);
    assert !Precedes(lt, t.index[b], k) by {
      NotBefore(lt, r, last, t.index[b], k);
    }
    forall j | 0 <= j < b ensures Precedes(lt, t.index[j], k) {
      EarlierIndex(lt, t, k, b, n, j);
    }
  }

  lemma NotBefore(lt: UserOrder, r: Key, last: Key, end: Key, k: Key)
    requires IsOrder(lt) && Matches(r, k) && (r == last || Precedes(lt, r, last)) && EndsWith(lt, last, end)
    ensures !Precedes(lt, end, k)
  {
    assert last.user == k.user || lt(k.user, last.user);
    assert end == last || end.user == k.user || lt(k.user, end.user);
  }

  lemma EarlierIndex(lt: UserOrder, t: Table, k: Key, b: nat, n: nat, j: nat)
    requires TableOk(lt, t) && Newest(t, k, b, n) && j < b
    ensures Precedes(lt, t.index[j], k)
  {
    var m := |t.blocks[j].rows| - 1;
    assert InTable(t, j, m);
    assert Short(lt, t.blocks[j], t.index[j], t.blocks[b].rows);
    NewestIsFirst(lt, t, k, b, n, j, m);
  }

  /** What InternalGet gives for `k`: the newest row of its user key that it may see. */
  ghost predicate Got(t: Table, k: Key, r: Option<Row>) {
    && ((r.Some? && r.value.key.user == k.user) <==> exists b: nat, n: nat :: Newest(t, k, b, n))
    && (r.Some? && r.value.key.user == k.user ==>
          exists b: nat, n: nat :: Newest(t, k, b, n) && r.value == t.blocks[b].rows[n])
  }

  /** Table::InternalGet: a row of the user key comes back exactly when the table
      holds one that the lookup may see, and then it is the newest such row. */
  method InternalGet(lt: UserOrder, t: Table, k: Key, policy: FB.Policy) returns (r: Option<Row>)
    requires TableOk(lt, t) && FilterOk(t, policy)
    ensures Got(t, k, r) && exists i, n :: Looks(lt, t, k, policy, i, n, r)
  {
    var i := SeekIndex(lt, t.index, k);
    r := None;
    ghost var n := 0;
    if i < |t.index| {
      if t.filter.None? || FB.KeyMayMatch(policy, t.filter.value, t.blocks[i].offset, k.user) {
        var m := SeekRows(lt, t.blocks[i].rows, k);
        n := m;
        if m < |t.blocks[i].rows| {
          r := Some(t.blocks[i].rows[m]);
        }
      }
    }
    assert Looks(lt, t, k, policy, i, n, r);
    Complete(lt, t, k, policy, i, n, r);
  }

  /** The block the index seek found was searched: its filter did not deny the key. */
  ghost predicate Searched(t: Table, k: Key, policy: FB.Policy, i: nat) {
    && i < |t.index| && i < |t.blocks|
    && (t.filter.None? || FB.KeyMayMatch(policy, t.filter.value, t.blocks[i].offset, k.user))
  }

  /** `n` is the first row at or after `k`. */
  ghost predicate FoundRow(lt: UserOrder, rows: seq<Row>, k: Key, n: nat) {
    && n <= |rows| && (forall j :: 0 <= j < n ==> Precedes(lt, rows[j].key, k))
    && (n < |rows| ==> !Precedes(lt, rows[n].key, k))
  }

  /** The one block that may hold the key is looked at, and only if its filter does not deny the key;
      the first row at or after it is the answer. */
  ghost predicate Looks(lt: UserOrder, t: Table, k: Key, policy: FB.Policy, i: nat, n: nat, r: Option<Row>) {
    && Found(lt, t.index, k, i)
    && if Searched(t, k, policy, i)
       then && FoundRow(lt, t.blocks[i].rows, k, n)
            && r == if n < |t.blocks[i].rows| then Some(t.blocks[i].rows[n]) else None
       else r == None
  }

  /** What the lookup found is all there is to find. */
  lemma Complete(lt: UserOrder, t: Table, k: Key, policy: FB.Policy, i: nat, n: nat, r: Option<Row>)
    requires TableOk(lt, t) && FilterOk(t, policy) && Found(lt, t.index, k, i)
    requires r.Some? ==> InTable(t, i, n) && r.value == t.blocks[i].rows[n] && !Precedes(lt, r.value.key, k)
                         && forall j :: 0 <= j < n ==> Precedes(lt, t.blocks[i].rows[j].key, k)
    requires r.None? && Searched(t, k, policy, i) ==>
               forall j :: 0 <= j < |t.blocks[i].rows| ==> Precedes(lt, t.blocks[i].rows[j].key, k)
    ensures Got(t, k, r)
  {
    if b: nat, m: nat :| Newest(t, k, b, m) {
      CompleteFound(lt, t, k, policy, i, n, r, b, m);
    } else if r.Some? && r.value.key.user == k.user {
      assert Matches(r.value.key, k);
      var b, m := SomeNewest(t, k, i, n);
    }
  }

  lemma CompleteFound(lt: UserOrder, t: Table, k: Key, policy: FB.Policy, i: nat, n: nat, r: Option<Row>, b: nat,
                      m: nat)
    requires TableOk(lt, t) && FilterOk(t, policy) && Found(lt, t.index, k, i) && Newest(t, k, b, m)
    requires r.Some? ==> InTable(t, i, n) && r.value == t.blocks[i].rows[n] && !Precedes(lt, r.value.key, k)
                         && forall j :: 0 <= j < n ==> Precedes(lt, t.blocks[i].rows[j].key, k)
    requires r.None? && Searched(t, k, policy, i) ==>
               forall j :: 0 <= j < |t.blocks[i].rows| ==> Precedes(lt, t.blocks[i].rows[j].key, k)
    ensures r.Some? && Newest(t, k, i, n)
  {
    IndexFindsIt(lt, t, k, b, m, i);
    assert Searched(t, k, policy, i);
    assert !Precedes(lt, t.blocks[b].rows[m].key, k);
    if n < m {
      NewestIsFirst(lt, t, k, b, m, i, n);
    }
  }

  /** Among finitely many versions one is newest. */
  lemma SomeNewest(t: Table, k: Key, b: nat, n: nat) returns (c: nat, m: nat)
    requires InTable(t, b, n) && Matches(t.blocks[b].rows[n].key, k)
    ensures Newest(t, k, c, m)
    decreases k.tag - t.blocks[b].rows[n].key.tag
  {
    c, m := b, n;
    if d: nat, j: nat :| InTable(t, d, j) && Matches(t.blocks[d].rows[j].key, k)
                         && t.blocks[d].rows[j].key.tag > t.blocks[b].rows[n].key.tag
    {
      c, m := SomeNewest(t, k, d, j);
    }
  }

  // ----- Building -----

  /** All rows added so far: those in written blocks and those in the open one. */
  ghost function RowsOf(blocks: seq<Stored>): seq<Row>
    decreases |blocks|
  {
    if |blocks| == 0 then [] else RowsOf(blocks[..|blocks| - 1]) + blocks[|blocks| - 1].rows
  }

  lemma RowsSnoc(blocks: seq<Stored>, b: Stored)
    ensures RowsOf(blocks + [b]) == RowsOf(blocks) + b.rows
  {
    assert (blocks + [b])[..|blocks|] == blocks;
  }

  /** The open block comes after everything written, and index keys fall short of it. */
  ghost predicate OpenAfter(lt: UserOrder, blocks: seq<Stored>, index: seq<Key>, data: seq<Row>) {
    && Increasing(lt, data)
    && (forall b :: 0 <= b < |blocks| ==> BlocksApart(lt, blocks[b], Stored(0, 0, data)))
    && (forall b :: 0 <= b < |index| && b < |blocks| && |blocks[b].rows| > 0 ==> Short(lt, blocks[b], index[b], data))
  }

  /** Every row is covered by the filter for the offset of its block. */
  ghost predicate RowsCovered(filters: seq<seq<Bytes>>, pending: seq<Bytes>, offset: nat, rows: seq<Row>) {
    forall n :: 0 <= n < |rows| ==> FB.Covered(filters, pending, offset / FB.BASE, rows[n].key.user)
  }

  ghost predicate AllCovered(filters: seq<seq<Bytes>>, pending: seq<Bytes>, blocks: seq<Stored>) {
    forall b :: 0 <= b < |blocks| ==> RowsCovered(filters, pending, blocks[b].offset, blocks[b].rows)
  }

  /** One more row in an open block that has some. */
  lemma AddToOpen(lt: UserOrder, blocks: seq<Stored>, index: seq<Key>, data: seq<Row>, r: Row)
    requires IsOrder(lt) && OpenAfter(lt, blocks, index, data) && |data| > 0
    requires Precedes(lt, data[|data| - 1].key, r.key)
    ensures OpenAfter(lt, blocks, index, data + [r])
  {
    var z, more := |data| - 1, data + [r];
    forall i | 0 <= i < |data| ensures Precedes(lt, data[i].key, r.key) {
      if i < z {
        Chain(lt, data[i].key, data[z].key, r.key);
      }
    }
    forall b | 0 <= b < |blocks| ensures BlocksApart(lt, blocks[b], Stored(0, 0, more)) {
      AfterLast(lt, blocks[b], data, r);
    }
    forall b | 0 <= b < |index| && b < |blocks| && |blocks[b].rows| > 0 ensures Short(lt, blocks[b], index[b], more) {
      assert Short(lt, blocks[b], index[b], data);
    }
  }

  lemma AfterLast(lt: UserOrder, s: Stored, data: seq<Row>, r: Row)
    requires IsOrder(lt) && BlocksApart(lt, s, Stored(0, 0, data)) && |data| > 0
    requires Precedes(lt, data[|data| - 1].key, r.key)
    ensures BlocksApart(lt, s, Stored(0, 0, data + [r]))
  {
    var open := Stored(0, 0, data);
    forall m | 0 <= m < |s.rows| ensures Precedes(lt, s.rows[m].key, r.key) {
      assert Precedes(lt, s.rows[m].key, open.rows[|data| - 1].key);
      Chain(lt, s.rows[m].key, data[|data| - 1].key, r.key);
    }
    forall m, n | 0 <= m < |s.rows| && 0 <= n < |data| + 1 ensures Precedes(lt, s.rows[m].key, (data + [r])[n].key) {
      assert n < |data| ==> Precedes(lt, s.rows[m].key, open.rows[n].key);
    }
  }

  /** The first row of a block. */
  lemma FirstInOpen(lt: UserOrder, blocks: seq<Stored>, index: seq<Key>, r: Row)
    requires IsOrder(lt) && Ordered(lt, blocks) && |index| == |blocks| && IndexOk(lt, blocks, index)
    requires |blocks| > 0 ==> var z := |blocks| - 1;
                              && Precedes(lt, LastKey(blocks[z]), r.key)
                              && (index[z] == LastKey(blocks[z]) || lt(index[z].user, r.key.user))
    ensures OpenAfter(lt, blocks, index, [r])
  {
    forall b | 0 <= b < |blocks|
      ensures BlocksApart(lt, blocks[b], Stored(0, 0, [r])) && Short(lt, blocks[b], index[b], [r])
    {
      FirstAfter(lt, blocks, index, b, r);
    }
  }

  lemma FirstAfter(lt: UserOrder, blocks: seq<Stored>, index: seq<Key>, b: nat, r: Row)
    requires IsOrder(lt) && Ordered(lt, blocks) && |index| == |blocks| && IndexOk(lt, blocks, index) && b < |blocks|
    requires var z := |blocks| - 1;
             && Precedes(lt, LastKey(blocks[z]), r.key)
             && (index[z] == LastKey(blocks[z]) || lt(index[z].user, r.key.user))
    ensures BlocksApart(lt, blocks[b], Stored(0, 0, [r])) && Short(lt, blocks[b], index[b], [r])
  {
    var z := |blocks| - 1;
    var last := |blocks[z].rows| - 1;
    forall m | 0 <= m < |blocks[b].rows| ensures Precedes(lt, blocks[b].rows[m].key, r.key) {
      var x := blocks[b].rows[m].key;
      assert b < z ==> BlocksApart(lt, blocks[b], blocks[z]);
      if b < z || m < last {
        Chain(lt, x, LastKey(blocks[z]), r.key);
      }
    }
    assert b < z ==> Short(lt, blocks[b], index[b], blocks[z].rows);
  }

  lemma IndexGrows(lt: UserOrder, blocks: seq<Stored>, index: seq<Key>, k: Key)
    requires Ordered(lt, blocks) && |index| + 1 == |blocks| && IndexOk(lt, blocks, index)
    requires EndsWith(lt, LastKey(blocks[|index|]), k)
    ensures IndexOk(lt, blocks, index + [k])
  {
    var more := index + [k];
    forall b, c | 0 <= b < |more| && b < c < |blocks| ensures Short(lt, blocks[b], more[b], blocks[c].rows) {
      assert more[b] == index[b];
    }
  }

  lemma CloseBlock(lt: UserOrder, blocks: seq<Stored>, index: seq<Key>, s: Stored)
    requires Ordered(lt, blocks) && |index| == |blocks| && IndexOk(lt, blocks, index)
    requires OpenAfter(lt, blocks, index, s.rows) && |s.rows| > 0
    ensures Ordered(lt, blocks + [s]) && IndexOk(lt, blocks + [s], index)
  {
    var all := blocks + [s];
    forall b, c | 0 <= b < c < |all| ensures BlocksApart(lt, all[b], all[c]) {
      if c == |blocks| {
        assert BlocksApart(lt, blocks[b], Stored(0, 0, s.rows));
        SameRows(lt, blocks[b], s);
      }
    }
    forall b, c | 0 <= b < |index| && b < c < |all| ensures Short(lt, all[b], index[b], all[c].rows) {
      assert all[b] == blocks[b];
    }
  }

  lemma SameRows(lt: UserOrder, a: Stored, s: Stored)
    requires BlocksApart(lt, a, Stored(0, 0, s.rows))
    ensures BlocksApart(lt, a, s)
  {
    var open := Stored(0, 0, s.rows);
    forall m, n | 0 <= m < |a.rows| && 0 <= n < |s.rows| ensures Precedes(lt, a.rows[m].key, s.rows[n].key) {
      assert Precedes(lt, a.rows[m].key, open.rows[n].key);
    }
  }

  /** The builder's state. */
  datatype Rep = Rep(blocks: seq<Stored>, index: seq<Key>, data: seq<Row>, pending: bool, lastKey: Key, offset: nat)

  /** The index is complete but for the last block while its entry is pending, and
      the open block follows everything written. */
  ghost predicate ShapeBody(lt: UserOrder, rep: Rep, lock: Lock) {
    && Ordered(lt, rep.blocks) && |rep.index| == |rep.blocks| - (if rep.pending then 1 else 0)
    && IndexOk(lt, rep.blocks, rep.index) && OpenAfter(lt, rep.blocks, rep.index, rep.data)
    && (|rep.data| == 0 && |rep.blocks| > 0 <==> rep.pending) && Spaced(rep.blocks, rep.offset)
    && (|rep.data| > 0 ==> rep.lastKey == rep.data[|rep.data| - 1].key)
    && (rep.pending ==> rep.lastKey == LastKey(rep.blocks[|rep.blocks| - 1]))
  }

  ghost predicate Shape(lt: UserOrder, rep: Rep) {
    forall lock: Lock :: ShapeBody(lt, rep, lock)
  }

  /** Every row, written or not, is covered by the filter for its offset. */
  ghost predicate CoverBody(filters: seq<seq<Bytes>>, pending: seq<Bytes>, rep: Rep, lock: Lock) {
    && |filters| == rep.offset / FB.BASE
    && AllCovered(filters, pending, rep.blocks) && RowsCovered(filters, pending, rep.offset, rep.data)
  }

  ghost predicate Cover(filters: seq<seq<Bytes>>, pending: seq<Bytes>, rep: Rep) {
    forall lock: Lock :: CoverBody(filters, pending, rep, lock)
  }

  ghost function AllRows(rep: Rep): seq<Row> {
    RowsOf(rep.blocks) + rep.data
  }

  /** The pending index entry, once the next block's first key is known. */
  function WithIndex(cmp: Comparator, rep: Rep, r: Row): Rep {
    if rep.pending then rep.(index := rep.index + [cmp.separator(rep.lastKey, r.key)], pending := false) else rep
  }

  function WithRow(rep: Rep, r: Row): Rep {
    rep.(data := rep.data + [r], lastKey := r.key)
  }

  function WithBlock(rep: Rep, size: nat): Rep {
    rep.(blocks := rep.blocks + [Stored(rep.offset, size, rep.data)], data := [], pending := true,
         offset := rep.offset + size + TRAILER)
  }

  lemma AddMore(lt: UserOrder, rep: Rep, r: Row)
    requires IsOrder(lt) && ShapeBody(lt, rep, Lock) && |rep.data| > 0 && Precedes(lt, rep.lastKey, r.key)
    ensures ShapeBody(lt, WithRow(rep, r), Lock)
  {
    AddToOpen(lt, rep.blocks, rep.index, rep.data, r);
  }

  lemma AddFirst(cmp: Comparator, rep: Rep, r: Row)
    requires Separates(cmp) && ShapeBody(cmp.lt, rep, Lock) && |rep.data| == 0
    requires |rep.blocks| > 0 ==> Precedes(cmp.lt, rep.lastKey, r.key)
    ensures ShapeBody(cmp.lt, WithRow(WithIndex(cmp, rep, r), r), Lock)
  {
    if rep.pending {
      assert SeparatesAt(cmp, rep.lastKey, r.key);
      IndexGrows(cmp.lt, rep.blocks, rep.index, cmp.separator(rep.lastKey, r.key));
    }
    FirstInOpen(cmp.lt, rep.blocks, WithIndex(cmp, rep, r).index, r);
    assert rep.data + [r] == [r];
  }

  lemma AddShape(cmp: Comparator, rep: Rep, r: Row)
    requires Separates(cmp) && Shape(cmp.lt, rep) && (AllRows(rep) != [] ==> Precedes(cmp.lt, rep.lastKey, r.key))
    ensures Shape(cmp.lt, WithRow(WithIndex(cmp, rep, r), r))
    ensures AllRows(WithRow(WithIndex(cmp, rep, r), r)) == AllRows(rep) + [r]
  {
    assert ShapeBody(cmp.lt, rep, Lock);
    RowsNonempty(cmp.lt, rep.blocks, rep.data);
    if |rep.data| > 0 {
      AddMore(cmp.lt, rep, r);
    } else {
      AddFirst(cmp, rep, r);
    }
    assert RowsOf(rep.blocks) + (rep.data + [r]) == RowsOf(rep.blocks) + rep.data + [r];
  }

  lemma FlushShape(lt: UserOrder, rep: Rep, size: nat)
    requires Shape(lt, rep) && |rep.data| > 0
    ensures Shape(lt, WithBlock(rep, size)) && AllRows(WithBlock(rep, size)) == AllRows(rep)
  {
    assert ShapeBody(lt, rep, Lock);
    var s := Stored(rep.offset, size, rep.data);
    CloseBlock(lt, rep.blocks, rep.index, s);
    RowsSnoc(rep.blocks, s);
    NothingOpen(lt, rep.blocks + [s], rep.index);
    assert ShapeBody(lt, WithBlock(rep, size), Lock);
  }

  lemma NothingOpen(lt: UserOrder, blocks: seq<Stored>, index: seq<Key>)
    ensures OpenAfter(lt, blocks, index, [])
  {
  }

  lemma AddCover(filters: seq<seq<Bytes>>, pending: seq<Bytes>, cmp: Comparator, rep: Rep, r: Row)
    requires Cover(filters, pending, rep)
    ensures Cover(filters, pending + [r.key.user], WithRow(WithIndex(cmp, rep, r), r))
  {
    assert CoverBody(filters, pending, rep, Lock);
    CoverOne(filters, pending, rep.blocks, rep.offset, rep.data, r);
  }

  lemma FlushCover(filters: seq<seq<Bytes>>, pending: seq<Bytes>, rep: Rep, size: nat,
                   filters': seq<seq<Bytes>>, pending': seq<Bytes>)
    requires Cover(filters, pending, rep) && |filters'| == (rep.offset + size + TRAILER) / FB.BASE
    requires forall i: nat, k: Bytes :: FB.Covered(filters, pending, i, k) ==> FB.Covered(filters', pending', i, k)
    ensures Cover(filters', pending', WithBlock(rep, size))
  {
    assert CoverBody(filters, pending, rep, Lock);
    var after := WithBlock(rep, size);
    forall b | 0 <= b < |after.blocks|
      ensures RowsCovered(filters', pending', after.blocks[b].offset, after.blocks[b].rows)
    {
      assert b < |rep.blocks| ==> RowsCovered(filters, pending, rep.blocks[b].offset, rep.blocks[b].rows);
    }
  }

  lemma RowsNonempty(lt: UserOrder, blocks: seq<Stored>, data: seq<Row>)
    requires Ordered(lt, blocks)
    ensures |data| > 0 || |blocks| > 0 ==> RowsOf(blocks) + data != []
  {
    if |blocks| > 0 {
      assert |blocks[|blocks| - 1].rows| > 0;
    }
  }

  lemma CoverOne(filters: seq<seq<Bytes>>, pending: seq<Bytes>, blocks: seq<Stored>, offset: nat, data: seq<Row>,
                 r: Row)
    requires |filters| == offset / FB.BASE
    requires AllCovered(filters, pending, blocks) && RowsCovered(filters, pending, offset, data)
    ensures var more := pending + [r.key.user];
            AllCovered(filters, more, blocks) && RowsCovered(filters, more, offset, data + [r])
  {
    var more := pending + [r.key.user];
    assert forall i: nat, k :: FB.Covered(filters, pending, i, k) ==> FB.Covered(filters, more, i, k);
    forall b | 0 <= b < |blocks| ensures RowsCovered(filters, more, blocks[b].offset, blocks[b].rows) {
      assert RowsCovered(filters, pending, blocks[b].offset, blocks[b].rows);
    }
    assert FB.Covered(filters, more, offset / FB.BASE, r.key.user) by {
      assert more[|pending|] == r.key.user;
    }
  }

  /** The rows were written as the next block, and the offset is past it and its trailer. */
  ghost predicate Closed(blocks: seq<Stored>, offset: nat, rows: seq<Row>, size: nat, rep: Rep) {
    && rep.data == [] && rep.pending && rep.blocks == blocks + [Stored(offset, size, rows)]
    && rep.offset == offset + size + 5
  }

  class TableBuilder {
    const cmp: Comparator
    const policy: FB.Policy
    const blockSize: nat
    const estimate: seq<Row> -> nat
    const sizeOf: seq<Row> -> nat
    const filter: FB.FilterBlockBuilder?
    var rep: Rep

    ghost predicate Valid()
      reads this, filter
    {
      && Separates(cmp) && Shape(cmp.lt, rep)
      && (filter != null ==> filter.Valid() && filter.policy == policy && Cover(filter.filters, filter.pending, rep)
                             && filter.Added() == |AllRows(rep)|)
    }

    constructor (cmp: Comparator, policy: FB.Policy, blockSize: nat,
                 estimate: seq<Row> -> nat, sizeOf: seq<Row> -> nat, filter: FB.FilterBlockBuilder?)
      requires Separates(cmp)
      requires filter != null ==>
                 filter.Valid() && filter.policy == policy && filter.filters == [] && filter.pending == []
      ensures Valid() && AllRows(rep) == []
      ensures this.cmp == cmp && this.filter == filter && this.policy == policy
    {
      this.cmp, this.policy, this.blockSize := cmp, policy, blockSize;
      this.estimate, this.sizeOf, this.filter := estimate, sizeOf, filter;
      rep := Rep([], [], [], false, S.IKey([], 0), 0);
    }

    /** Add: one more row at the end of the table. */
    method Add(r: Row)
      requires Valid() && (AllRows(rep) != [] ==> Precedes(cmp.lt, rep.lastKey, r.key))
      modifies this, filter
      ensures Valid() && AllRows(rep) == old(AllRows(rep)) + [r] && rep.lastKey == r.key
      ensures rep.index == old(rep.index) + (if old(rep.pending) then [cmp.separator(old(rep.lastKey), r.key)] else [])
      ensures var data := old(rep.data) + [r];
              if estimate(data) < blockSize
              then rep.data == data && rep.blocks == old(rep.blocks) && rep.offset == old(rep.offset)
              else Closed(old(rep.blocks), old(rep.offset), data, sizeOf(data), rep)
    {
      AddShape(cmp, rep, r);
      if filter != null {
        AddCover(filter.filters, filter.pending, cmp, rep, r);
        filter.AddKey(r.key.user);
      }
      rep := WithIndex(cmp, rep, r);
      rep := WithRow(rep, r);
      if estimate(rep.data) >= blockSize {
        Flush();
      }
    }

    /** Flush: the open block is written, and filters are brought up to date. */
    method Flush()
      requires Valid()
      modifies this, filter
      ensures Valid() && rep.data == [] && AllRows(rep) == old(AllRows(rep)) && rep.lastKey == old(rep.lastKey)
      ensures rep.index == old(rep.index)
      ensures if old(rep.data) == [] then rep == old(rep)
              else Closed(old(rep.blocks), old(rep.offset), old(rep.data), sizeOf(old(rep.data)), rep)
    {
      if |rep.data| == 0 {
        return;
      }
      var size := sizeOf(rep.data);
      FlushShape(cmp.lt, rep, size);
      ghost var before := rep;
      rep := WithBlock(rep, size);
      if filter != null {
        ghost var f, p := filter.filters, filter.pending;
        CoverCount(f, p, before);
        filter.StartBlock(rep.offset);
        FlushCover(f, p, before, size, filter.filters, filter.pending);
      }
    }

    /** The filter block, if the table has one. */
    method FinishFilter() returns (bytes: Option<Bytes>)
      requires Valid()
      modifies filter
      ensures bytes.Some? <==> filter != null
      ensures filter != null ==> filter.Valid() && filter.Added() == old(filter.Added())
      ensures FB.NoFalseNegatives(policy) && (filter != null ==> |filter.result| < Coding.WORD) ==>
                forall index :: FilterOk(Table(rep.blocks, index, bytes), policy)
    {
      bytes := None;
      if filter != null {
        ghost var f, p := filter.filters, filter.pending;
        var d := filter.Finish();
        bytes := Some(d);
        if FB.NoFalseNegatives(policy) && |filter.result| < Coding.WORD {
          FilterCovers(f, p, rep, filter.filters, filter.result, filter.offsets, policy);
        }
      }
    }

    /** Finish: a table that holds exactly the rows added, in order. */
    method Finish() returns (t: Table)
      requires Valid()
      modifies this, filter
      ensures TableOk(cmp.lt, t) && RowsOf(t.blocks) == old(AllRows(rep)) && (t.filter.Some? <==> filter != null)
      ensures filter != null ==> filter.Valid() && filter.Added() == |old(AllRows(rep))|
      ensures |t.blocks| == |old(rep.blocks)| + (if old(rep.data) == [] then 0 else 1)
      ensures t.index == old(rep.index) + if |t.blocks| == 0 then [] else [cmp.successor(old(rep.lastKey))]
      ensures FB.NoFalseNegatives(policy) && (filter != null ==> |filter.result| < Coding.WORD) ==> FilterOk(t, policy)
    {
      Flush();
      FinishShape(cmp, rep);
      var bytes := FinishFilter();
      var index := if rep.pending then rep.index + [cmp.successor(rep.lastKey)] else rep.index;
      t := Table(rep.blocks, index, bytes);
    }
  }

  lemma CoverCount(filters: seq<seq<Bytes>>, pending: seq<Bytes>, rep: Rep)
    requires Cover(filters, pending, rep)
    ensures |filters| == rep.offset / FB.BASE
  {
    assert CoverBody(filters, pending, rep, Lock);
  }

  lemma FinishShape(cmp: Comparator, rep: Rep)
    requires Separates(cmp) && Shape(cmp.lt, rep) && rep.data == []
    ensures var index := if rep.pending then rep.index + [cmp.successor(rep.lastKey)] else rep.index;
            && |index| == |rep.blocks| && Ordered(cmp.lt, rep.blocks) && IndexOk(cmp.lt, rep.blocks, index)
            && Spaced(rep.blocks, rep.offset)
    ensures AllRows(rep) == RowsOf(rep.blocks) && (rep.pending <==> |rep.blocks| > 0)
  {
    assert ShapeBody(cmp.lt, rep, Lock);
    if rep.pending {
      IndexGrows(cmp.lt, rep.blocks, rep.index, cmp.successor(rep.lastKey));
    }
  }

  /** The filter block denies no row of the table. */
  lemma FilterCovers(f: seq<seq<Bytes>>, p: seq<Bytes>, rep: Rep, filters: seq<seq<Bytes>>, result: Bytes,
                     offsets: seq<nat>, policy: FB.Policy)
    requires Cover(f, p, rep) && FB.NoFalseNegatives(policy)
    requires FB.Laid(policy, result, offsets, filters) && |result| < Coding.WORD
    requires forall i: nat, k: Bytes :: FB.Covered(f, p, i, k) ==> i < |filters| && k in filters[i]
    ensures forall b, n :: 0 <= b < |rep.blocks| && 0 <= n < |rep.blocks[b].rows| ==>
              FB.KeyMayMatch(policy, FB.Encoded(result, offsets), rep.blocks[b].offset, rep.blocks[b].rows[n].key.user)
  {
    assert CoverBody(f, p, rep, Lock);
    forall b, n | 0 <= b < |rep.blocks| && 0 <= n < |rep.blocks[b].rows|
      ensures FB.KeyMayMatch(policy, FB.Encoded(result, offsets), rep.blocks[b].offset, rep.blocks[b].rows[n].key.user)
    {
      var o, k := rep.blocks[b].offset, rep.blocks[b].rows[n].key.user;
      assert RowsCovered(f, p, o, rep.blocks[b].rows);
      assert FB.Covered(f, p, o / FB.BASE, k);
      FB.CoveredMayMatch(policy, result, offsets, filters, o, k);
    }
  }
}
