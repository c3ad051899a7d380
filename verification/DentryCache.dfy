/** The dentry cache: nodes in order of use and a map from keys to nodes. */
module DentryCache {
  // Inserting a key again and evicting a key leave old nodes in the list.

  import opened Entries

  type Key = nat
  type Inode = nat

  /** A list node; `id` stands for its address. */
  datatype Node = Node(id: nat, key: Key, value: Inode)

  ghost predicate DistinctNodes(list: seq<Node>) {
    forall i, j :: 0 <= i < j < |list| ==> list[i].id != list[j].id
  }

  ghost predicate At(list: seq<Node>, id: nat, key: Key, value: Inode) {
    exists i :: 0 <= i < |list| && list[i] == Node(id, key, value)
  }

  /** Every pointer in the map leads to a node of its key that holds the key's
      latest value. */
  ghost predicate Points(list: seq<Node>, lookup: map<Key, nat>, latest: map<Key, Inode>) {
    forall k :: k in lookup ==> k in latest && At(list, lookup[k], k, latest[k])
  }

  lemma {:induction false} SubsetSmaller<T>(a: set<T>, b: set<T>)
    requires a <= b
    ensures |a| <= |b|
    decreases |a|
  {
    if x :| x in a {
      SubsetSmaller(a - {x}, b - {x});
    }
  }

  ghost function KeysOf(list: seq<Node>): set<Key> {
    set i | 0 <= i < |list| :: list[i].key
  }

  lemma {:induction false} FewKeys(list: seq<Node>)
    ensures |KeysOf(list)| <= |list|
    decreases |list|
  {
    if |list| > 0 {
      var rest, last := list[..|list| - 1], list[|list| - 1].key;
      FewKeys(rest);
      assert KeysOf(list) == KeysOf(rest) + {last};
    } else {
      assert KeysOf(list) == {};
    }
  }

  /** The map never has more keys than the list has nodes. */
  lemma MapFitsList(list: seq<Node>, lookup: map<Key, nat>, latest: map<Key, Inode>)
    requires Points(list, lookup, latest)
    ensures |lookup| <= |list|
  {
    forall k | k in lookup.Keys ensures k in KeysOf(list) {
      var i :| 0 <= i < |list| && list[i] == Node(lookup[k], k, latest[k]);
    }
    SubsetSmaller(lookup.Keys, KeysOf(list));
    FewKeys(list);
    assert |lookup| == |lookup.Keys|;
  }

  lemma PointsPush(list: seq<Node>, lookup: map<Key, nat>, latest: map<Key, Inode>, n: Node)
    requires Points(list, lookup, latest)
    ensures Points([n] + list, lookup[n.key := n.id], latest[n.key := n.value])
  {
    var l, more, now := [n] + list, lookup[n.key := n.id], latest[n.key := n.value];
    forall k | k in more ensures k in now && At(l, more[k], k, now[k]) {
      if k == n.key {
        assert l[0] == n;
      } else {
        var i :| 0 <= i < |list| && list[i] == Node(lookup[k], k, latest[k]);
        assert l[i + 1] == list[i];
      }
    }
  }

  /** The last node goes, and with it its key, though the map may have led to a
      newer node of that key. */
  lemma PointsPop(list: seq<Node>, lookup: map<Key, nat>, latest: map<Key, Inode>)
    requires Points(list, lookup, latest) && |list| > 0
    ensures Points(list[..|list| - 1], lookup - {list[|list| - 1].key}, latest)
  {
    var l := list[..|list| - 1];
    forall k | k in lookup && k != list[|list| - 1].key ensures At(l, lookup[k], k, latest[k]) {
      var i :| 0 <= i < |list| && list[i] == Node(lookup[k], k, latest[k]);
      assert l[i] == list[i];
    }
  }

  /** A node that the map does not lead to may go. */
  lemma PointsErase(list: seq<Node>, lookup: map<Key, nat>, latest: map<Key, Inode>, i: nat)
    requires Points(list, lookup, latest) && i < |list| && forall k :: k in lookup ==> lookup[k] != list[i].id
    ensures Points(list[..i] + list[i + 1..], lookup, latest)
  {
    var l := list[..i] + list[i + 1..];
    forall k | k in lookup ensures At(l, lookup[k], k, latest[k]) {
      var j :| 0 <= j < |list| && list[j] == Node(lookup[k], k, latest[k]);
      assert l[if j < i then j else j - 1] == list[j];
    }
  }

  /** After a hit the map leads to the new node, and to no node of that key besides. */
  lemma Unpointed(list: seq<Node>, lookup: map<Key, nat>, latest: map<Key, Inode>, i: nat)
    requires Points(list, lookup, latest) && DistinctNodes(list) && 0 < i < |list|
    requires list[i].key in lookup && lookup[list[i].key] == list[0].id
    ensures forall k :: k in lookup ==> lookup[k] != list[i].id
  {
    forall k | k in lookup ensures lookup[k] != list[i].id {
      var j :| 0 <= j < |list| && list[j] == Node(lookup[k], k, latest[k]);
    }
  }

  ghost predicate Body(list: seq<Node>, lookup: map<Key, nat>, latest: map<Key, Inode>, nextId: nat, lock: Lock) {
    && DistinctNodes(list) && (forall i :: 0 <= i < |list| ==> list[i].id < nextId)
    && Points(list, lookup, latest)
  }

  ghost predicate Ok(list: seq<Node>, lookup: map<Key, nat>, latest: map<Key, Inode>, nextId: nat) {
    forall lock: Lock :: Body(list, lookup, latest, nextId, lock)
  }

  lemma OkFits(list: seq<Node>, lookup: map<Key, nat>, latest: map<Key, Inode>, nextId: nat)
    requires Ok(list, lookup, latest, nextId)
    ensures |lookup| <= |list|
  {
    assert Body(list, lookup, latest, nextId, Lock);
    MapFitsList(list, lookup, latest);
  }

  lemma OkPush(list: seq<Node>, lookup: map<Key, nat>, latest: map<Key, Inode>, nextId: nat, key: Key, value: Inode)
    requires Ok(list, lookup, latest, nextId)
    ensures Ok([Node(nextId, key, value)] + list, lookup[key := nextId], latest[key := value], nextId + 1)
  {
    assert Body(list, lookup, latest, nextId, Lock);
    PointsPush(list, lookup, latest, Node(nextId, key, value));
  }

  lemma OkPop(list: seq<Node>, lookup: map<Key, nat>, latest: map<Key, Inode>, nextId: nat)
    requires Ok(list, lookup, latest, nextId) && |list| > 0
    ensures Ok(list[..|list| - 1], lookup - {list[|list| - 1].key}, latest, nextId)
  {
    assert Body(list, lookup, latest, nextId, Lock);
    PointsPop(list, lookup, latest);
  }

  lemma OkErase(list: seq<Node>, lookup: map<Key, nat>, latest: map<Key, Inode>, nextId: nat, i: nat)
    requires Ok(list, lookup, latest, nextId) && 0 < i < |list|
    requires list[i].key in lookup && lookup[list[i].key] == list[0].id
    ensures Ok(list[..i] + list[i + 1..], lookup, latest, nextId)
  {
    assert Body(list, lookup, latest, nextId, Lock);
    Unpointed(list, lookup, latest, i);
    PointsErase(list, lookup, latest, i);
  }

  lemma OkForget(list: seq<Node>, lookup: map<Key, nat>, latest: map<Key, Inode>, nextId: nat, key: Key)
    requires Ok(list, lookup, latest, nextId)
    ensures Ok(list, lookup - {key}, latest - {key}, nextId)
  {
    assert Body(list, lookup, latest, nextId, Lock);
    var less, now := lookup - {key}, latest - {key};
    forall k | k in less ensures k in now && At(list, less[k], k, now[k]) {
      assert k in lookup && At(list, lookup[k], k, latest[k]);
    }
  }

  /** The node moves to the front, as a new one. */
  ghost predicate Renewed(before: seq<Node>, id: nat, nextId: nat, after: seq<Node>) {
    exists i :: 0 <= i < |before| && before[i].id == id
                && after == [Node(nextId, before[i].key, before[i].value)] + before[..i] + before[i + 1..]
  }

  function Front(list: seq<Node>, n: nat): seq<Node> {
    if |list| <= n then list else list[..n]
  }

  class DentryCache {
    const maxSize: nat
    var list: seq<Node>
    var lookup: map<Key, nat>
    var nextId: nat

    /** For each key, the value of its latest Insert not followed by an Evict. */
    ghost var latest: map<Key, Inode>

    ghost predicate Valid()
      reads this
    {
      Ok(list, lookup, latest, nextId) && |list| <= maxSize
    }

    constructor (maxSize: nat)
      ensures Valid() && latest == map[] && list == [] && lookup == map[] && this.maxSize == maxSize
    {
      this.maxSize := maxSize;
      list, lookup, nextId, latest := [], map[], 0, map[];
    }

    /** Follow a pointer of the map: it never dangles. */
    method Deref(id: nat, ghost key: Key) returns (i: nat)
      requires Valid() && key in lookup && lookup[key] == id
      ensures i < |list| && key in latest && list[i] == Node(id, key, latest[key])
    {
      assert Body(list, lookup, latest, nextId, Lock);
      i := 0;
      while list[i].id != id
        invariant i < |list| && forall j :: 0 <= j < i ==> list[j].id != id
        decreases |list| - i
      {
        i := i + 1;
      }
    }

    /** Find: a miss, or the latest value; a hit moves the node to the front. */
    method Find(key: Key) returns (r: Option<Inode>)
      requires Valid()
      modifies this
      ensures Valid() && latest == old(latest) && |lookup| <= |list| <= maxSize
      ensures r.Some? <==> key in old(lookup)
      ensures r.Some? ==> key in latest && r.value == latest[key]
      ensures r.Some? ==> |list| > 0 && list[0] == Node(old(nextId), key, r.value)
      ensures lookup == if r.Some? then old(lookup)[key := old(nextId)] else old(lookup)
      ensures if r.Some? then Renewed(old(list), old(lookup)[key], old(nextId), list) && nextId == old(nextId) + 1
              else list == old(list) && nextId == old(nextId)
    {
      if key !in lookup {
        OkFits(list, lookup, latest, nextId);
        return None;
      }
      var i := Deref(lookup[key], key);
      var n := list[i];
      r := Some(n.value);
      OkPush(list, lookup, latest, nextId, key, n.value);
      assert latest[key := n.value] == latest;
      list, lookup, nextId := [Node(nextId, key, n.value)] + list, lookup[key := nextId], nextId + 1;
      assert list[i + 1] == n;
      OkErase(list, lookup, latest, nextId, i + 1);
      list := list[..i + 1] + list[i + 2..];
      assert list == [Node(old(nextId), key, n.value)] + old(list)[..i] + old(list)[i + 1..];
      OkFits(list, lookup, latest, nextId);
    }

    /** Insert: the key's latest value changes; past the maximum the oldest node goes. */
    method Insert(key: Key, value: Inode)
      requires Valid()
      modifies this
      ensures Valid() && latest == old(latest)[key := value] && |lookup| <= |list| <= maxSize
      ensures |old(list)| < maxSize ==> lookup == old(lookup)[key := old(nextId)]
      ensures |old(list)| == maxSize > 0 ==> lookup == old(lookup)[key := old(nextId)] - {old(list)[maxSize - 1].key}
      ensures maxSize == 0 ==> lookup == old(lookup) - {key}
      ensures list == Front([Node(old(nextId), key, value)] + old(list), maxSize) && nextId == old(nextId) + 1
    {
      OkPush(list, lookup, latest, nextId, key, value);
      var nodes, pointers := [Node(nextId, key, value)] + list, lookup[key := nextId];
      latest := latest[key := value];
      nextId := nextId + 1;
      if |nodes| > maxSize {
        OkPop(nodes, pointers, latest, nextId);
        pointers := pointers - {nodes[|nodes| - 1].key};
        nodes := nodes[..|nodes| - 1];
      }
      OkFits(nodes, pointers, latest, nextId);
      list, lookup := nodes, pointers;
    }

    /** Evict: the key is forgotten; its node stays behind. */
    method Evict(key: Key)
      requires Valid()
      modifies this
      ensures Valid() && latest == old(latest) - {key} && |lookup| <= |list| <= maxSize
      ensures lookup == old(lookup) - {key} && list == old(list) && nextId == old(nextId)
    {
      OkForget(list, lookup, latest, nextId, key);
      lookup, latest := lookup - {key}, latest - {key};
      OkFits(list, lookup, latest, nextId);
    }
  }

  // ----- Runs -----

  datatype Op = FindOp(key: Key) | InsertOp(key: Key, value: Inode) | EvictOp(key: Key)

  /** What a call does to the nodes, by age, and to the pointers, and what it answers. */
  ghost predicate Takes(list: seq<Node>, lookup: map<Key, nat>, nextId: nat, op: Op, maxSize: nat, list': seq<Node>,
                        lookup': map<Key, nat>, nextId': nat, answer: Option<Inode>) {
    match op
    case FindOp(key) =>
      if key in lookup
      then && Renewed(list, lookup[key], nextId, list') && lookup' == lookup[key := nextId] && nextId' == nextId + 1
           && |list'| > 0 && list'[0].key == key && answer == Some(list'[0].value)
      else list' == list && lookup' == lookup && nextId' == nextId && answer == None
    case InsertOp(key, value) =>
      && list' == Front([Node(nextId, key, value)] + list, maxSize) && nextId' == nextId + 1 && answer == None
      && lookup' == if |list| < maxSize then lookup[key := nextId]
                    else if maxSize == 0 then lookup - {key}
                    else lookup[key := nextId] - {list[|list| - 1].key}
    case EvictOp(key) => list' == list && lookup' == lookup - {key} && nextId' == nextId && answer == None
  }

  ghost function After(latest: map<Key, Inode>, op: Op): map<Key, Inode> {
    match op
    case FindOp(_) => latest
    case InsertOp(key, value) => latest[key := value]
    case EvictOp(key) => latest - {key}
  }

  ghost function Latest(ops: seq<Op>): map<Key, Inode>
    decreases |ops|
  {
    if |ops| == 0 then map[] else After(Latest(ops[..|ops| - 1]), ops[|ops| - 1])
  }

  /** A hit is the value of the latest insertion not evicted since. */
  ghost predicate IsLatest(ops: seq<Op>, i: nat, answer: Option<Inode>)
    requires i < |ops|
  {
    answer.Some? ==>
      ops[i].FindOp? && ops[i].key in Latest(ops[..i]) && answer.value == Latest(ops[..i])[ops[i].key]
  }

  method Perform(cache: DentryCache, op: Op) returns (answer: Option<Inode>)
    requires cache.Valid()
    modifies cache
    ensures cache.Valid() && cache.latest == After(old(cache.latest), op)
    ensures Takes(old(cache.list), old(cache.lookup), old(cache.nextId), op, cache.maxSize,
                  cache.list, cache.lookup, cache.nextId, answer)
    ensures answer.Some? ==> op.FindOp? && op.key in cache.latest && answer.value == cache.latest[op.key]
  {
    answer := None;
    match op {
      case FindOp(key) => answer := cache.Find(key);
      case InsertOp(key, value) => cache.Insert(key, value);
      case EvictOp(key) => cache.Evict(key);
    }
  }

  /** Any calls on a new cache: each does and answers what it should, and every hit is the value of
      the latest insertion not evicted since. */
  method Run(maxSize: nat, ops: seq<Op>) returns (cache: DentryCache, answers: seq<Option<Inode>>)
    ensures cache.Valid() && |answers| == |ops| && forall i :: 0 <= i < |ops| ==> IsLatest(ops, i, answers[i])
  {
    cache := new DentryCache(maxSize);
    answers := [];
    for n := 0 to |ops|
      invariant fresh(cache) && cache.Valid() && cache.latest == Latest(ops[..n]) && |answers| == n
      invariant forall i :: 0 <= i < n ==> IsLatest(ops, i, answers[i])
    {
      assert ops[..n + 1][..n] == ops[..n];
      var answer := Perform(cache, ops[n]);
      assert ops[n].FindOp? ==> Latest(ops[..n + 1]) == Latest(ops[..n]);
      assert IsLatest(ops, n, answer);
      answers := answers + [answer];
    }
  }

  /** Room for two nodes: a key inserted twice leaves an old node behind, and when that one falls off
      the end, the key is gone, though its newest node is there. */
  method StaleNodeExample(a: Key, b: Key, v: Inode) returns (hit: Option<Inode>, cache: DentryCache)
    requires a != b
    ensures hit == None && |cache.list| == 2 && cache.list[1].key == a && a in cache.latest
  {
    cache := new DentryCache(2);
    cache.Insert(a, v);
    cache.Insert(a, v);
    cache.Insert(b, v);
    hit := cache.Find(a);
  }
}
