/** The hash table of the block cache. */
module HandleTable {
  // Chained buckets that double when there are more entries than buckets.

  import opened Entries

  type Key = nat

  /** A cache entry; `id` tells apart entries that had one key at different times. */
  datatype Handle = Handle(id: nat, key: Key, charge: nat, value: Val)

  type Buckets = seq<seq<Handle>>

  /** The bucket of a key.  The length is a power of two, so masking the hash is
      taking its remainder. */
  function Slot(hash: Key -> nat, key: Key, length: nat): (b: nat)
    requires length > 0
    ensures b < length
  {
    hash(key) % length
  }

  function Total(buckets: Buckets): nat
    decreases |buckets|
  {
    if |buckets| == 0 then 0 else Total(buckets[..|buckets| - 1]) + |buckets[|buckets| - 1]|
  }

  lemma {:induction false} TotalUpdate(buckets: Buckets, b: nat, chain: seq<Handle>)
    requires b < |buckets|
    ensures Total(buckets[b := chain]) == Total(buckets) - |buckets[b]| + |chain|
    decreases |buckets|
  {
    var last := |buckets| - 1;
    if b < last {
      assert buckets[b := chain][..last] == buckets[..last][b := chain];
      TotalUpdate(buckets[..last], b, chain);
    } else {
      assert buckets[b := chain][..last] == buckets[..last];
    }
  }

  /** The chains hold exactly the entries of the map, each once and in its bucket. */
  ghost predicate Chains(hash: Key -> nat, buckets: Buckets, contents: map<Key, Handle>) {
    && |buckets| > 0
    && (forall b, i :: 0 <= b < |buckets| && 0 <= i < |buckets[b]| ==>
          && buckets[b][i].key in contents && contents[buckets[b][i].key] == buckets[b][i]
          && Slot(hash, buckets[b][i].key, |buckets|) == b)
    && (forall b, i, j :: 0 <= b < |buckets| && 0 <= i < j < |buckets[b]| ==> buckets[b][i].key != buckets[b][j].key)
    && (forall k :: k in contents ==> contents[k].key == k && Listed(buckets[Slot(hash, k, |buckets|)], contents[k]))
  }

  ghost predicate Listed(chain: seq<Handle>, h: Handle) {
    exists i :: 0 <= i < |chain| && chain[i] == h
  }

  lemma ReplaceInChain(hash: Key -> nat, buckets: Buckets, contents: map<Key, Handle>, b: nat, i: nat, h: Handle)
    requires Chains(hash, buckets, contents) && b < |buckets| && i < |buckets[b]| && buckets[b][i].key == h.key
    ensures Chains(hash, buckets[b := buckets[b][i := h]], contents[h.key := h])
  {
    var chain := buckets[b];
    var after := chain[i := h];
    forall k | k in contents[h.key := h]
      ensures Listed(buckets[b := after][Slot(hash, k, |buckets|)], contents[h.key := h][k])
    {
      if k == h.key {
        assert after[i] == h;
      } else {
        var s := Slot(hash, k, |buckets|);
        var j :| 0 <= j < |buckets[s]| && buckets[s][j] == contents[k];
        assert buckets[b := after][s][j] == contents[k];
      }
    }
  }

  lemma AppendToChain(hash: Key -> nat, buckets: Buckets, contents: map<Key, Handle>, h: Handle)
    requires Chains(hash, buckets, contents) && h.key !in contents
    ensures var b := Slot(hash, h.key, |buckets|);
            Chains(hash, buckets[b := buckets[b] + [h]], contents[h.key := h])
  {
    var b := Slot(hash, h.key, |buckets|);
    var after := buckets[b := buckets[b] + [h]];
    forall k | k in contents[h.key := h] ensures Listed(after[Slot(hash, k, |buckets|)], contents[h.key := h][k]) {
      var s := Slot(hash, k, |buckets|);
      if k == h.key {
        assert after[b][|buckets[b]|] == h;
      } else {
        var j :| 0 <= j < |buckets[s]| && buckets[s][j] == contents[k];
        assert after[s][j] == contents[k];
      }
    }
  }

  lemma RemoveFromChain(hash: Key -> nat, buckets: Buckets, contents: map<Key, Handle>, b: nat, i: nat)
    requires Chains(hash, buckets, contents) && b < |buckets| && i < |buckets[b]|
    ensures Chains(hash, buckets[b := buckets[b][..i] + buckets[b][i + 1..]], contents - {buckets[b][i].key})
  {
    var chain, gone := buckets[b], buckets[b][i].key;
    var rest := chain[..i] + chain[i + 1..];
    var after := buckets[b := rest];
    assert forall j :: 0 <= j < |rest| ==> rest[j] == chain[if j < i then j else j + 1];
    forall k | k in contents - {gone} ensures Listed(after[Slot(hash, k, |buckets|)], contents[k]) {
      var s := Slot(hash, k, |buckets|);
      var j :| 0 <= j < |buckets[s]| && buckets[s][j] == contents[k];
      if s == b {
        assert rest[if j < i then j else j - 1] == contents[k];
      } else {
        assert after[s][j] == contents[k];
      }
    }
  }

  /** Where a key is, or would go, in its chain. */
  method FindPointer(chain: seq<Handle>, key: Key) returns (i: nat)
    ensures i <= |chain| && (i < |chain| ==> chain[i].key == key) && forall j :: 0 <= j < i ==> chain[j].key != key
  {
    i := 0;
    while i < |chain| && chain[i].key != key
      invariant i <= |chain| && forall j :: 0 <= j < i ==> chain[j].key != key
    {
      i := i + 1;
    }
  }

  lemma NotInChain(hash: Key -> nat, buckets: Buckets, contents: map<Key, Handle>, key: Key)
    requires Chains(hash, buckets, contents)
    requires var chain := buckets[Slot(hash, key, |buckets|)]; forall j :: 0 <= j < |chain| ==> chain[j].key != key
    ensures key !in contents
  {
  }

  /** Lengths of the list of buckets: so the last bits of a hash are its remainder. */
  predicate PowerOfTwo(n: nat) {
    n == 1 || (n > 1 && n % 2 == 0 && PowerOfTwo(n / 2))
  }

  class Table {
    const hash: Key -> nat
    var buckets: Buckets
    var elems: nat
    ghost var contents: map<Key, Handle>

    ghost predicate Body(lock: Lock)
      reads this
    {
      Chains(hash, buckets, contents) && elems == Total(buckets)
    }

    ghost predicate Filed()
      reads this
    {
      forall lock: Lock :: Body(lock)
    }

    /** There are never more entries than buckets. */
    ghost predicate Valid()
      reads this
    {
      Filed() && elems <= |buckets| && 4 <= |buckets| && PowerOfTwo(|buckets|)
    }

    /** Entries are filed under their own keys. */
    lemma OwnKeys(key: Key)
      requires Valid() && key in contents
      ensures contents[key].key == key
    {
      assert Body(Lock);
    }

    constructor (hash: Key -> nat)
      ensures Valid() && contents == map[] && this.hash == hash
    {
      this.hash := hash;
      buckets, elems, contents := [[], [], [], []], 0, map[];
      new;
      assert PowerOfTwo(2) && PowerOfTwo(4);
      EmptyTotal(buckets);
    }

    method Lookup(key: Key) returns (r: Option<Handle>)
      requires Valid()
      ensures r == if key in contents then Some(contents[key]) else None
    {
      assert Body(Lock);
      var chain := buckets[Slot(hash, key, |buckets|)];
      var i := FindPointer(chain, key);
      if i < |chain| {
        r := Some(chain[i]);
      } else {
        NotInChain(hash, buckets, contents, key);
        r := None;
      }
    }

    /** Insert: takes the place of an entry with the same key, which is returned. */
    method Insert(h: Handle) returns (old': Option<Handle>)
      requires Valid()
      modifies this
      ensures Valid() && contents == old(contents)[h.key := h]
      ensures old' == if h.key in old(contents) then Some(old(contents)[h.key]) else None
      ensures elems == old(elems) + (if old'.None? then 1 else 0)
    {
      assert Body(Lock);
      var b := Slot(hash, h.key, |buckets|);
      var chain := buckets[b];
      var i := FindPointer(chain, h.key);
      if i < |chain| {
        old' := Some(chain[i]);
        ReplaceInChain(hash, buckets, contents, b, i, h);
        TotalUpdate(buckets, b, chain[i := h]);
        buckets := buckets[b := chain[i := h]];
        contents := contents[h.key := h];
      } else {
        old' := None;
        NotInChain(hash, buckets, contents, h.key);
        AppendToChain(hash, buckets, contents, h);
        TotalUpdate(buckets, b, chain + [h]);
        buckets := buckets[b := chain + [h]];
        contents := contents[h.key := h];
        elems := elems + 1;
        if elems > |buckets| {
          Resize();
        }
      }
    }

    method Remove(key: Key) returns (r: Option<Handle>)
      requires Valid()
      modifies this
      ensures Valid() && contents == old(contents) - {key}
      ensures r == if key in old(contents) then Some(old(contents)[key]) else None
      ensures elems == old(elems) - (if r.Some? then 1 else 0) && |buckets| == |old(buckets)|
    {
      assert Body(Lock);
      var b := Slot(hash, key, |buckets|);
      var chain := buckets[b];
      var i := FindPointer(chain, key);
      if i < |chain| {
        r := Some(chain[i]);
        RemoveFromChain(hash, buckets, contents, b, i);
        TotalUpdate(buckets, b, chain[..i] + chain[i + 1..]);
        buckets := buckets[b := chain[..i] + chain[i + 1..]];
        contents := contents - {key};
        elems := elems - 1;
      } else {
        NotInChain(hash, buckets, contents, key);
        assert contents - {key} == contents;
        r := None;
      }
    }

    /** Resize: every entry moves to its bucket in a longer list; the map stays. */
    method Resize()
      requires Filed()
      modifies this
      ensures Valid() && contents == old(contents) && elems == old(elems)
      ensures |buckets| == 4 || |buckets| < 2 * elems
    {
      assert Body(Lock);
      var length := 4;
      assert PowerOfTwo(2) && PowerOfTwo(4);
      while length < elems
        invariant length >= 4 && PowerOfTwo(length) && (length == 4 || length < 2 * elems)
      {
        length := length * 2;
      }
      var list, count := Rehash(hash, buckets, length, contents);
      buckets := list;
    }
  }

  /** The entries of the first `b` buckets and the first `i` of the next. */
  ghost predicate Moved(buckets: Buckets, b: nat, i: nat, h: Handle) {
    exists c, j :: 0 <= c < |buckets| && 0 <= j < |buckets[c]| && (c < b || (c == b && j < i)) && buckets[c][j] == h
  }

  ghost predicate MovedAll(buckets: Buckets, b: nat, i: nat, part: map<Key, Handle>) {
    && (forall k :: k in part ==> part[k].key == k && Moved(buckets, b, i, part[k]))
    && (forall c, j :: 0 <= c < |buckets| && 0 <= j < |buckets[c]| && (c < b || (c == b && j < i)) ==>
          buckets[c][j].key in part && part[buckets[c][j].key] == buckets[c][j])
  }

  lemma PushOnChain(hash: Key -> nat, buckets: Buckets, contents: map<Key, Handle>, h: Handle)
    requires Chains(hash, buckets, contents) && h.key !in contents
    ensures var b := Slot(hash, h.key, |buckets|);
            Chains(hash, buckets[b := [h] + buckets[b]], contents[h.key := h])
  {
    var b := Slot(hash, h.key, |buckets|);
    var chain := [h] + buckets[b];
    var after := buckets[b := chain];
    assert forall j :: 0 < j < |chain| ==> chain[j] == buckets[b][j - 1];
    forall k | k in contents[h.key := h] ensures Listed(after[Slot(hash, k, |buckets|)], contents[h.key := h][k]) {
      var s := Slot(hash, k, |buckets|);
      if k == h.key {
        assert chain[0] == h;
      } else {
        var j :| 0 <= j < |buckets[s]| && buckets[s][j] == contents[k];
        assert s == b ==> chain[j + 1] == contents[k];
        assert s != b ==> after[s][j] == contents[k];
      }
    }
  }

  /** The next entry to move has a key not moved before. */
  lemma NextIsNew(hash: Key -> nat, buckets: Buckets, contents: map<Key, Handle>, b: nat, i: nat,
                  part: map<Key, Handle>)
    requires Chains(hash, buckets, contents) && b < |buckets| && i < |buckets[b]| && MovedAll(buckets, b, i, part)
    ensures buckets[b][i].key !in part
  {
  }

  lemma MoveOne(buckets: Buckets, b: nat, i: nat, part: map<Key, Handle>)
    requires b < |buckets| && i < |buckets[b]| && MovedAll(buckets, b, i, part) && buckets[b][i].key !in part
    ensures MovedAll(buckets, b, i + 1, part[buckets[b][i].key := buckets[b][i]])
  {
    var h := buckets[b][i];
    var more := part[h.key := h];
    forall k | k in more ensures more[k].key == k && Moved(buckets, b, i + 1, more[k]) {
      if k != h.key {
        assert Moved(buckets, b, i, part[k]);
        var c, j :| 0 <= c < |buckets| && 0 <= j < |buckets[c]| && (c < b || (c == b && j < i)) &&
            buckets[c][j] == part[k];
        assert buckets[c][j] == more[k];
      } else {
        assert buckets[b][i] == more[k];
      }
    }
  }

  lemma NextBucket(buckets: Buckets, b: nat, part: map<Key, Handle>)
    requires b < |buckets| && MovedAll(buckets, b, |buckets[b]|, part)
    ensures MovedAll(buckets, b + 1, 0, part)
  {
    forall k | k in part ensures part[k].key == k && Moved(buckets, b + 1, 0, part[k]) {
      assert Moved(buckets, b, |buckets[b]|, part[k]);
      var c, j :| 0 <= c < |buckets| && 0 <= j < |buckets[c]| && (c < b || (c == b && j < |buckets[b]|)) &&
          buckets[c][j] == part[k];
      assert buckets[c][j] == part[k];
    }
  }

  lemma AllMoved(hash: Key -> nat, buckets: Buckets, contents: map<Key, Handle>, part: map<Key, Handle>)
    requires Chains(hash, buckets, contents) && MovedAll(buckets, |buckets|, 0, part)
    ensures part == contents
  {
    forall k | k in contents ensures k in part && part[k] == contents[k] {
      var s := Slot(hash, k, |buckets|);
      assert Listed(buckets[s], contents[k]);
      var j :| 0 <= j < |buckets[s]| && buckets[s][j] == contents[k];
    }
    forall k | k in part ensures k in contents {
      assert Moved(buckets, |buckets|, 0, part[k]);
    }
  }

  lemma {:induction false} EmptyTotal(buckets: Buckets)
    requires forall b :: 0 <= b < |buckets| ==> buckets[b] == []
    ensures Total(buckets) == 0
    decreases |buckets|
  {
    if |buckets| > 0 {
      EmptyTotal(buckets[..|buckets| - 1]);
    }
  }

  /** Resize's inner loop: one chain, each entry to the front of its new bucket. */
  method MoveBucket(hash: Key -> nat, buckets: Buckets, b: nat, list0: Buckets, count0: nat,
                    ghost contents: map<Key, Handle>, ghost part0: map<Key, Handle>)
    returns (list: Buckets, count: nat, ghost part: map<Key, Handle>)
    requires Chains(hash, buckets, contents) && b < |buckets|
    requires Chains(hash, list0, part0) && MovedAll(buckets, b, 0, part0) && count0 == Total(list0)
    ensures |list| == |list0| && Chains(hash, list, part) && MovedAll(buckets, b + 1, 0, part)
    ensures count == count0 + |buckets[b]| == Total(list)
  {
    list, count, part := list0, count0, part0;
    var chain := buckets[b];
    for i := 0 to |chain|
      invariant |list| == |list0| && Chains(hash, list, part) && MovedAll(buckets, b, i, part)
      invariant count == count0 + i == Total(list)
    {
      var h := chain[i];
      NextIsNew(hash, buckets, contents, b, i, part);
      PushOnChain(hash, list, part, h);
      MoveOne(buckets, b, i, part);
      var s := Slot(hash, h.key, |list|);
      TotalUpdate(list, s, [h] + list[s]);
      list := list[s := [h] + list[s]];
      part := part[h.key := h];
      count := count + 1;
    }
    NextBucket(buckets, b, part);
  }

  /** The two loops of Resize. */
  method Rehash(hash: Key -> nat, buckets: Buckets, length: nat, ghost contents: map<Key, Handle>)
    returns (list: Buckets, count: nat)
    requires Chains(hash, buckets, contents) && length > 0
    ensures |list| == length && Chains(hash, list, contents) && count == Total(buckets) == Total(list)
  {
    list := seq(length, _ => []);
    count := 0;
    ghost var part: map<Key, Handle> := map[];
    EmptyTotal(list);
    for b := 0 to |buckets|
      invariant |list| == length && Chains(hash, list, part) && MovedAll(buckets, b, 0, part)
      invariant count == Total(list) == Total(buckets[..b])
    {
      assert buckets[..b + 1][..b] == buckets[..b];
      list, count, part := MoveBucket(hash, buckets, b, list, count, contents, part);
    }
    assert buckets[..|buckets|] == buckets;
    AllMoved(hash, buckets, contents, part);
  }
}
