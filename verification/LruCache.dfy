/** One shard of the block cache. */
module LruCache {
  // A hash table and a list in order of use over reference-counted entries.  A client
  // that holds a handle keeps its entry alive after the cache has dropped it.

  import opened Entries
  import HT = HandleTable

  type Handle = HT.Handle

  function Charges(hs: seq<Handle>): nat
    decreases |hs|
  {
    if |hs| == 0 then 0 else Charges(hs[..|hs| - 1]) + hs[|hs| - 1].charge
  }

  function Without(hs: seq<Handle>, i: nat): seq<Handle>
    requires i < |hs|
  {
    hs[..i] + hs[i + 1..]
  }

  lemma {:induction false} ChargesWithout(hs: seq<Handle>, i: nat)
    requires i < |hs|
    ensures Charges(Without(hs, i)) == Charges(hs) - hs[i].charge
    decreases |hs|
  {
    var n := |hs| - 1;
    var w := Without(hs, i);
    if i < n {
      ChargesWithout(hs[..n], i);
      assert w[..n - 1] == Without(hs[..n], i) && w[n - 1] == hs[n];
    } else {
      assert w == hs[..n];
    }
  }

  lemma ChargesSnoc(hs: seq<Handle>, h: Handle)
    ensures Charges(hs + [h]) == Charges(hs) + h.charge
  {
    assert (hs + [h])[..|hs|] == hs;
  }

  ghost predicate DistinctIds(hs: seq<Handle>) {
    forall i, j :: 0 <= i < j < |hs| ==> hs[i].id != hs[j].id
  }

  ghost predicate Listed(hs: seq<Handle>, h: Handle) {
    exists i :: 0 <= i < |hs| && hs[i] == h
  }

  method Find(hs: seq<Handle>, h: Handle) returns (i: nat)
    requires Listed(hs, h)
    ensures i < |hs| && hs[i] == h
  {
    i := 0;
    while hs[i] != h
      invariant i < |hs| && forall j :: 0 <= j < i ==> hs[j] != h
      decreases |hs| - i
    {
      i := i + 1;
    }
  }

  lemma WithoutListed(hs: seq<Handle>, i: nat, h: Handle)
    requires i < |hs| && DistinctIds(hs)
    ensures Listed(Without(hs, i), h) <==> Listed(hs, h) && h != hs[i]
    ensures DistinctIds(Without(hs, i))
  {
    var w := Without(hs, i);
    assert forall j :: 0 <= j < |w| ==> w[j] == hs[if j < i then j else j + 1];
    if Listed(hs, h) && h != hs[i] {
      var j :| 0 <= j < |hs| && hs[j] == h;
      assert w[if j < i then j else j - 1] == h;
    }
  }

  lemma SnocListed(hs: seq<Handle>, x: Handle, h: Handle)
    ensures Listed(hs + [x], h) <==> Listed(hs, h) || h == x
  {
    var s := hs + [x];
    if Listed(hs, h) {
      var j :| 0 <= j < |hs| && hs[j] == h;
      assert s[j] == h;
    }
    assert s[|hs|] == x;
  }

  // ----- What every operation keeps -----

  ghost function Ids(hs: seq<Handle>): set<nat> {
    set i | 0 <= i < |hs| :: hs[i].id
  }

  ghost function Cached(lru: seq<Handle>, h: Handle): nat {
    if Listed(lru, h) then 1 else 0
  }

  /** The list and the table hold the same entries, one per key. */
  ghost predicate Synced(lru: seq<Handle>, contents: map<HT.Key, Handle>) {
    DistinctIds(lru) && forall h :: Listed(lru, h) <==> h.key in contents && contents[h.key] == h
  }

  /** The count of an entry is its place in the cache plus the handles clients hold;
      `owed` is an entry about to lose a reference. */
  ghost predicate Counted(lru: seq<Handle>, h: Handle, refs: map<nat, nat>, held: map<nat, nat>, owed: Option<nat>) {
    && h.id in refs && h.id in held && refs[h.id] > 0
    && refs[h.id] == Cached(lru, h) + held[h.id] + (if owed == Some(h.id) then 1 else 0)
  }

  ghost predicate Balanced(lru: seq<Handle>, live: seq<Handle>, refs: map<nat, nat>, held: map<nat, nat>,
                           owed: Option<nat>) {
    && DistinctIds(live) && refs.Keys == Ids(live) && held.Keys == Ids(live)
    && (forall h :: Listed(lru, h) ==> Listed(live, h))
    && (forall i :: 0 <= i < |live| ==> Counted(lru, live[i], refs, held, owed))
  }

  /** Every entry ever made is live or its deleter has run, and that only once. */
  ghost predicate Accounted(live: seq<Handle>, deleted: seq<nat>, nextId: nat) {
    && (forall id :: 0 <= id < nextId <==> id in Ids(live) || id in deleted)
    && (forall i, j :: 0 <= i < j < |deleted| ==> deleted[i] != deleted[j])
    && (forall i :: 0 <= i < |deleted| ==> deleted[i] !in Ids(live))
  }

  lemma IdsOf(hs: seq<Handle>, h: Handle)
    requires Listed(hs, h)
    ensures h.id in Ids(hs)
  {
    var i :| 0 <= i < |hs| && hs[i] == h;
  }

  lemma WithoutIds(hs: seq<Handle>, i: nat)
    requires i < |hs| && DistinctIds(hs)
    ensures Ids(Without(hs, i)) == Ids(hs) - {hs[i].id}
  {
    var w := Without(hs, i);
    assert forall j :: 0 <= j < |w| ==> w[j] == hs[if j < i then j else j + 1];
    forall x | x in Ids(hs) - {hs[i].id} ensures x in Ids(w) {
      var j :| 0 <= j < |hs| && hs[j].id == x;
      assert w[if j < i then j else j - 1].id == x;
    }
  }

  /** One reference less, but not the last. */
  lemma DropRef(lru: seq<Handle>, live: seq<Handle>, refs: map<nat, nat>, held: map<nat, nat>, i: nat)
    requires i < |live| && Balanced(lru, live, refs, held, Some(live[i].id)) && refs[live[i].id] > 1
    ensures Balanced(lru, live, refs[live[i].id := refs[live[i].id] - 1], held, None)
  {
    var id := live[i].id;
    var after := refs[id := refs[id] - 1];
    forall j | 0 <= j < |live| ensures Counted(lru, live[j], after, held, None) {
      assert Counted(lru, live[j], refs, held, Some(id));
      assert j != i ==> live[j].id != id;
    }
  }

  /** An entry on its last, owed reference is neither cached nor held. */
  lemma LastRef(lru: seq<Handle>, live: seq<Handle>, refs: map<nat, nat>, held: map<nat, nat>, i: nat)
    requires i < |live| && Balanced(lru, live, refs, held, Some(live[i].id)) && refs[live[i].id] == 1
    ensures !Listed(lru, live[i])
    ensures forall x :: Listed(lru, x) ==> Listed(Without(live, i), x)
  {
    assert Counted(lru, live[i], refs, held, Some(live[i].id));
    forall x | Listed(lru, x) ensures Listed(Without(live, i), x) {
      WithoutListed(live, i, x);
    }
  }

  lemma OthersCounted(lru: seq<Handle>, live: seq<Handle>, refs: map<nat, nat>, held: map<nat, nat>, i: nat, j: nat)
    requires i < |live| && j < |Without(live, i)| && Balanced(lru, live, refs, held, Some(live[i].id))
    ensures Counted(lru, Without(live, i)[j], refs - {live[i].id}, held - {live[i].id}, None)
  {
    var k := if j < i then j else j + 1;
    assert Without(live, i)[j] == live[k];
    assert Counted(lru, live[k], refs, held, Some(live[i].id));
  }

  /** The last reference goes: the entry is freed. */
  lemma FreeEntry(lru: seq<Handle>, live: seq<Handle>, refs: map<nat, nat>, held: map<nat, nat>, i: nat)
    requires i < |live| && Balanced(lru, live, refs, held, Some(live[i].id)) && refs[live[i].id] == 1
    ensures Balanced(lru, Without(live, i), refs - {live[i].id}, held - {live[i].id}, None)
  {
    LastRef(lru, live, refs, held, i);
    WithoutIds(live, i);
    WithoutListed(live, i, live[i]);
    forall j | 0 <= j < |Without(live, i)|
      ensures Counted(lru, Without(live, i)[j], refs - {live[i].id}, held - {live[i].id}, None)
    {
      OthersCounted(lru, live, refs, held, i, j);
    }
  }

  /** Taking an entry out of the cache owes it one reference. */
  lemma TakeOut(lru: seq<Handle>, live: seq<Handle>, refs: map<nat, nat>, held: map<nat, nat>, k: nat)
    requires k < |lru| && DistinctIds(lru) && Balanced(lru, live, refs, held, None)
    ensures Balanced(Without(lru, k), live, refs, held, Some(lru[k].id)) && Listed(live, lru[k])
  {
    var h := lru[k];
    assert Listed(lru, h);
    forall x | Listed(Without(lru, k), x) ensures Listed(live, x) {
      WithoutListed(lru, k, x);
    }
    forall j | 0 <= j < |live| ensures Counted(Without(lru, k), live[j], refs, held, Some(h.id)) {
      assert Counted(lru, live[j], refs, held, None);
      WithoutListed(lru, k, live[j]);
      SameId(live, h, live[j]);
    }
  }

  /** Among live entries the id tells them apart. */
  lemma SameId(live: seq<Handle>, a: Handle, b: Handle)
    requires DistinctIds(live) && Listed(live, a) && Listed(live, b)
    ensures a.id == b.id ==> a == b
  {
    var i :| 0 <= i < |live| && live[i] == a;
    var j :| 0 <= j < |live| && live[j] == b;
  }

  /** A client gives a handle back. */
  lemma GiveBack(lru: seq<Handle>, live: seq<Handle>, refs: map<nat, nat>, held: map<nat, nat>, id: nat)
    requires Balanced(lru, live, refs, held, None) && id in held && held[id] > 0
    ensures Balanced(lru, live, refs, held[id := held[id] - 1], Some(id))
  {
    assert held[id := held[id] - 1].Keys == held.Keys;
    forall j | 0 <= j < |live| ensures Counted(lru, live[j], refs, held[id := held[id] - 1], Some(id)) {
      assert Counted(lru, live[j], refs, held, None);
    }
  }

  /** A client takes another handle on a live entry. */
  lemma HandOut(lru: seq<Handle>, live: seq<Handle>, refs: map<nat, nat>, held: map<nat, nat>, id: nat)
    requires Balanced(lru, live, refs, held, None) && id in held
    ensures Balanced(lru, live, refs[id := refs[id] + 1], held[id := held[id] + 1], None)
  {
    assert refs[id := refs[id] + 1].Keys == refs.Keys && held[id := held[id] + 1].Keys == held.Keys;
    forall j | 0 <= j < |live| ensures Counted(lru, live[j], refs[id := refs[id] + 1], held[id := held[id] + 1], None) {
      assert Counted(lru, live[j], refs, held, None);
    }
  }

  /** A new entry: one reference from the cache, one for the caller. */
  lemma NewEntry(lru: seq<Handle>, live: seq<Handle>, refs: map<nat, nat>, held: map<nat, nat>, e: Handle)
    requires Balanced(lru, live, refs, held, None) && e.id !in Ids(live)
    ensures Balanced(lru + [e], live + [e], refs[e.id := 2], held[e.id := 1], None)
  {
    var l := live + [e];
    assert Ids(l) == Ids(live) + {e.id} by {
      assert l[|live|] == e;
      assert forall i :: 0 <= i < |live| ==> l[i] == live[i];
    }
    assert DistinctIds(l) by {
      assert forall i :: 0 <= i < |live| ==> live[i].id in Ids(live);
    }
    forall h | Listed(lru + [e], h) ensures Listed(l, h) {
      SnocListed(lru, e, h);
      SnocListed(live, e, h);
    }
    forall j | 0 <= j < |l| ensures Counted(lru + [e], l[j], refs[e.id := 2], held[e.id := 1], None) {
      SnocListed(lru, e, l[j]);
      if j < |live| {
        assert l[j] == live[j] && live[j].id in Ids(live);
        assert Counted(lru, live[j], refs, held, None);
      } else if Listed(lru, e) {
        IdsOf(live, e);
      }
    }
  }

  lemma FreeAccounted(live: seq<Handle>, deleted: seq<nat>, nextId: nat, i: nat)
    requires i < |live| && DistinctIds(live) && Accounted(live, deleted, nextId)
    ensures Accounted(Without(live, i), deleted + [live[i].id], nextId)
  {
    var x, left, more := live[i].id, Without(live, i), deleted + [live[i].id];
    WithoutIds(live, i);
    assert more[|deleted|] == x && x in Ids(live);
    assert forall j :: 0 <= j < |deleted| ==> more[j] == deleted[j] && deleted[j] != x;
    forall id ensures 0 <= id < nextId <==> id in Ids(left) || id in more {
      if id == x {
        assert id in more;
      } else {
        assert id in more <==> id in deleted;
        assert id in Ids(left) <==> id in Ids(live);
      }
    }
  }

  lemma NewAccounted(live: seq<Handle>, deleted: seq<nat>, nextId: nat, e: Handle)
    requires Accounted(live, deleted, nextId) && e.id == nextId
    ensures e.id !in Ids(live) && Accounted(live + [e], deleted, nextId + 1)
  {
    var l := live + [e];
    assert Ids(l) == Ids(live) + {e.id} by {
      assert l[|live|] == e;
      assert forall i :: 0 <= i < |live| ==> l[i] == live[i];
    }
  }

  lemma SyncedWithout(lru: seq<Handle>, contents: map<HT.Key, Handle>, k: nat)
    requires k < |lru| && Synced(lru, contents)
    ensures Synced(Without(lru, k), contents - {lru[k].key})
  {
    assert Listed(lru, lru[k]);
    forall h ensures Listed(Without(lru, k), h) <==> h.key in contents - {lru[k].key} && contents[h.key] == h {
      WithoutListed(lru, k, h);
    }
    WithoutListed(lru, k, lru[k]);
  }

  lemma MovedListed(lru: seq<Handle>, k: nat, h: Handle)
    requires k < |lru| && DistinctIds(lru)
    ensures Listed(Without(lru, k) + [lru[k]], h) <==> Listed(lru, h)
  {
    WithoutListed(lru, k, h);
    SnocListed(Without(lru, k), lru[k], h);
    assert Listed(lru, lru[k]);
  }

  lemma SnocDistinct(hs: seq<Handle>, h: Handle)
    requires DistinctIds(hs) && h.id !in Ids(hs)
    ensures DistinctIds(hs + [h])
  {
    assert forall i :: 0 <= i < |hs| ==> hs[i].id in Ids(hs);
  }

  /** Moving an entry to the newest end changes nothing but the order. */
  lemma SyncedMoved(lru: seq<Handle>, contents: map<HT.Key, Handle>, k: nat)
    requires k < |lru| && Synced(lru, contents)
    ensures Synced(Without(lru, k) + [lru[k]], contents)
    ensures forall h :: Listed(Without(lru, k) + [lru[k]], h) <==> Listed(lru, h)
  {
    forall h ensures Listed(Without(lru, k) + [lru[k]], h) <==> Listed(lru, h) {
      MovedListed(lru, k, h);
    }
    WithoutIds(lru, k);
    WithoutListed(lru, k, lru[k]);
    SnocDistinct(Without(lru, k), lru[k]);
  }

  lemma SyncedNew(lru: seq<Handle>, contents: map<HT.Key, Handle>, e: Handle)
    requires Synced(lru, contents) && e.id !in Ids(lru) && e.key !in contents
    ensures Synced(lru + [e], contents[e.key := e])
  {
    SnocDistinct(lru, e);
    forall h ensures Listed(lru + [e], h) <==> h.key in contents[e.key := e] && contents[e.key := e][h.key] == h {
      SnocListed(lru, e, h);
    }
  }

  /** A new entry is appended and the one with its key leaves the list. */
  lemma SyncedReplace(lru: seq<Handle>, contents: map<HT.Key, Handle>, e: Handle, k: nat)
    requires Synced(lru, contents) && e.id !in Ids(lru) && k < |lru| && lru[k].key == e.key
    ensures DistinctIds(lru + [e]) && Synced(Without(lru + [e], k), contents[e.key := e])
  {
    SnocDistinct(lru, e);
    var all := lru + [e];
    assert all[k] == lru[k] && lru[k].id in Ids(lru);
    assert Listed(lru, lru[k]);
    forall h ensures Listed(Without(all, k), h) <==> h.key in contents[e.key := e] && contents[e.key := e][h.key] == h {
      WithoutListed(all, k, h);
      SnocListed(lru, e, h);
    }
    WithoutListed(all, k, e);
  }

  lemma BalancedSame(lru: seq<Handle>, lru': seq<Handle>, live: seq<Handle>, refs: map<nat, nat>, held: map<nat, nat>)
    requires Balanced(lru, live, refs, held, None) && forall h :: Listed(lru', h) <==> Listed(lru, h)
    ensures Balanced(lru', live, refs, held, None)
  {
    forall j | 0 <= j < |live| ensures Counted(lru', live[j], refs, held, None) {
      assert Counted(lru, live[j], refs, held, None);
    }
  }

  // ----- Handles -----

  /** Some client holds a handle on the entry. */
  ghost predicate IsHeld(live: seq<Handle>, held: map<nat, nat>, h: Handle) {
    Listed(live, h) && h.id in held && held[h.id] > 0
  }

  /** Handles that clients hold stay good, and no others appear. */
  ghost predicate HandlesStay(live: seq<Handle>, held: map<nat, nat>, live': seq<Handle>, held': map<nat, nat>) {
    && (forall h :: IsHeld(live, held, h) ==> IsHeld(live', held', h))
    && (forall h :: Listed(live', h) ==> Listed(live, h))
    && (forall id :: id in held' ==> id in held && held'[id] == held[id])
  }

  // ----- What the entries weigh -----

  /** The charges of the entries with these ids, among all that were ever made. */
  ghost function Weight(made: seq<Handle>, ids: set<nat>): nat
    decreases |made|
  {
    if |made| == 0 then 0
    else Weight(made[..|made| - 1], ids) + (if |made| - 1 in ids then made[|made| - 1].charge else 0)
  }

  ghost function HeldIds(held: map<nat, nat>): set<nat> {
    set id | id in held && held[id] > 0
  }

  /** `made` lists every entry ever made, by id. */
  ghost predicate Known(made: seq<Handle>, live: seq<Handle>, nextId: nat) {
    && |made| == nextId && (forall i :: 0 <= i < |made| ==> made[i].id == i)
    && (forall h :: Listed(live, h) ==> h.id < |made| && made[h.id] == h)
  }

  lemma KnownNew(made: seq<Handle>, live: seq<Handle>, nextId: nat, e: Handle)
    requires Known(made, live, nextId) && e.id == nextId
    ensures Known(made + [e], live + [e], nextId + 1)
  {
    forall h | Listed(live + [e], h) ensures h.id <= |made| && (made + [e])[h.id] == h {
      SnocListed(live, e, h);
    }
  }

  lemma {:induction false} WeightMore(made: seq<Handle>, ids: set<nat>, id: nat)
    requires id < |made| && id !in ids
    ensures Weight(made, ids + {id}) == Weight(made, ids) + made[id].charge
    decreases |made|
  {
    var n := |made| - 1;
    if id < n {
      WeightMore(made[..n], ids, id);
    } else {
      WeightBelow(made[..n], ids, ids + {id});
    }
  }

  lemma {:induction false} WeightBelow(made: seq<Handle>, ids: set<nat>, ids': set<nat>)
    requires forall i :: 0 <= i < |made| ==> (i in ids <==> i in ids')
    ensures Weight(made, ids) == Weight(made, ids')
    decreases |made|
  {
    if |made| > 0 {
      WeightBelow(made[..|made| - 1], ids, ids');
    }
  }

  lemma {:induction false} NoWeight(made: seq<Handle>)
    ensures Weight(made, {}) == 0
    decreases |made|
  {
    if |made| > 0 {
      NoWeight(made[..|made| - 1]);
    }
  }

  lemma {:induction false} ChargesAreWeight(made: seq<Handle>, live: seq<Handle>)
    requires DistinctIds(live) && forall i :: 0 <= i < |live| ==> live[i].id < |made| && made[live[i].id] == live[i]
    ensures Charges(live) == Weight(made, Ids(live))
    decreases |live|
  {
    if |live| == 0 {
      assert Ids(live) == {};
      NoWeight(made);
    } else {
      var n := |live| - 1;
      ChargesAreWeight(made, live[..n]);
      assert Ids(live) == Ids(live[..n]) + {live[n].id} by {
        assert live == live[..n] + [live[n]];
        assert forall i :: 0 <= i < n ==> live[..n][i] == live[i];
      }
      WeightMore(made, Ids(live[..n]), live[n].id);
    }
  }

  /** What is not freed is what is cached or held. */
  lemma UnfreedIds(lru: seq<Handle>, live: seq<Handle>, refs: map<nat, nat>, held: map<nat, nat>)
    requires Balanced(lru, live, refs, held, None)
    ensures Ids(live) == Ids(lru) + HeldIds(held)
  {
    forall id: nat ensures id in Ids(live) <==> id in Ids(lru) + HeldIds(held) {
      CachedIsLive(lru, live, id);
      if id in Ids(live) {
        var i :| 0 <= i < |live| && live[i].id == id;
        assert Counted(lru, live[i], refs, held, None);
        if Listed(lru, live[i]) {
          IdsOf(lru, live[i]);
        }
      }
    }
  }

  lemma UsageIsWeight(lru: seq<Handle>, live: seq<Handle>, refs: map<nat, nat>, held: map<nat, nat>, usage: nat,
                      deleted: seq<nat>, nextId: nat, made: seq<Handle>)
    requires Books(lru, live, refs, held, usage, deleted, nextId, None) && Known(made, live, nextId)
    ensures usage == Weight(made, Ids(lru) + HeldIds(held))
  {
    assert BooksBody(lru, live, refs, held, usage, deleted, nextId, None, Lock);
    UnfreedIds(lru, live, refs, held);
    assert forall i :: 0 <= i < |live| ==> Listed(live, live[i]);
    ChargesAreWeight(made, live);
  }

  lemma HeldSame(lru: seq<Handle>, live: seq<Handle>, refs: map<nat, nat>, held: map<nat, nat>, usage: nat,
                 deleted: seq<nat>, nextId: nat, live': seq<Handle>, held': map<nat, nat>)
    requires Books(lru, live, refs, held, usage, deleted, nextId, None) && HandlesStay(live, held, live', held')
    ensures HeldIds(held') == HeldIds(held)
  {
    assert BooksBody(lru, live, refs, held, usage, deleted, nextId, None, Lock);
    forall id | id in HeldIds(held) ensures id in HeldIds(held') {
      assert id in Ids(live);
      var i :| 0 <= i < |live| && live[i].id == id;
      assert IsHeld(live, held, live[i]);
    }
  }

  /** Of the entries in order of age exactly `gone` leave: each while what is cached or held
      weighs too much, and no more. */
  ghost predicate Evicted(made: seq<Handle>, placed: seq<Handle>, held: set<nat>, gone: nat, capacity: nat) {
    && gone <= |placed|
    && (forall g :: 0 <= g < gone ==> Weight(made, Ids(placed[g..]) + held) > capacity)
    && (gone < |placed| ==> Weight(made, Ids(placed[gone..]) + held) <= capacity)
  }

  /** The entry moves to the newest end. */
  ghost predicate Moved(before: seq<Handle>, h: Handle, after: seq<Handle>) {
    exists k :: 0 <= k < |before| && before[k] == h && after == Without(before, k) + [h]
  }

  /** The entry with the key leaves, if there is one. */
  ghost predicate Dropped(before: seq<Handle>, key: HT.Key, after: seq<Handle>) {
    if exists k :: 0 <= k < |before| && before[k].key == key
    then exists k :: 0 <= k < |before| && before[k].key == key && after == Without(before, k)
    else after == before
  }

  lemma NotDropped(lru: seq<Handle>, contents: map<HT.Key, Handle>, key: HT.Key)
    requires Same(lru, contents) && key !in contents
    ensures Dropped(lru, key, lru) && forall k :: 0 <= k < |lru| ==> lru[k].key != key
  {
    assert SameBody(lru, contents, Lock);
    forall k | 0 <= k < |lru| ensures lru[k].key != key {
      assert Listed(lru, lru[k]);
    }
  }

  // ----- The books, closed -----

  ghost predicate BooksBody(lru: seq<Handle>, live: seq<Handle>, refs: map<nat, nat>, held: map<nat, nat>, usage: nat,
                            deleted: seq<nat>, nextId: nat, owed: Option<nat>, lock: Lock) {
    Balanced(lru, live, refs, held, owed) && usage == Charges(live) && Accounted(live, deleted, nextId)
  }

  /** Reference counts balance, the usage is the total charge of what is not yet
      freed, and every deleter has run at most once. */
  ghost predicate Books(lru: seq<Handle>, live: seq<Handle>, refs: map<nat, nat>, held: map<nat, nat>, usage: nat,
                        deleted: seq<nat>, nextId: nat, owed: Option<nat>) {
    forall lock: Lock :: BooksBody(lru, live, refs, held, usage, deleted, nextId, owed, lock)
  }

  ghost predicate SameBody(lru: seq<Handle>, contents: map<HT.Key, Handle>, lock: Lock) {
    Synced(lru, contents)
  }

  ghost predicate Same(lru: seq<Handle>, contents: map<HT.Key, Handle>) {
    forall lock: Lock :: SameBody(lru, contents, lock)
  }

  ghost function IndexOf(hs: seq<Handle>, h: Handle): (i: nat)
    requires Listed(hs, h)
    ensures i < |hs| && hs[i] == h
  {
    var i :| 0 <= i < |hs| && hs[i] == h;
    i
  }

  ghost function Minus(hs: seq<Handle>, h: Handle): seq<Handle>
    requires Listed(hs, h)
  {
    Without(hs, IndexOf(hs, h))
  }

  /** Freeing an entry that no client holds takes no handle away. */
  lemma OthersStay(live: seq<Handle>, held: map<nat, nat>, i: nat)
    requires i < |live| && DistinctIds(live) && live[i].id in held && held[live[i].id] == 0
    ensures HandlesStay(live, held, Without(live, i), held - {live[i].id})
  {
    forall h ensures IsHeld(live, held, h) ==> IsHeld(Without(live, i), held - {live[i].id}, h) {
      WithoutListed(live, i, h);
    }
    forall h ensures Listed(Without(live, i), h) ==> Listed(live, h) {
      WithoutListed(live, i, h);
    }
  }

  lemma UnrefBooks(lru: seq<Handle>, live: seq<Handle>, refs: map<nat, nat>, held: map<nat, nat>, usage: nat,
                   deleted: seq<nat>, nextId: nat, h: Handle)
    requires Books(lru, live, refs, held, usage, deleted, nextId, Some(h.id)) && Listed(live, h)
    ensures h.id in refs && h.id in held && refs[h.id] > 0 && h.charge <= usage
    ensures refs[h.id] > 1 ==> Books(lru, live, refs[h.id := refs[h.id] - 1], held, usage, deleted, nextId, None)
    ensures refs[h.id] == 1 ==>
              && held[h.id] == 0 && HandlesStay(live, held, Minus(live, h), held - {h.id})
              && Books(lru, Minus(live, h), refs - {h.id}, held - {h.id}, usage - h.charge,
                       deleted + [h.id], nextId, None)
  {
    assert BooksBody(lru, live, refs, held, usage, deleted, nextId, Some(h.id), Lock);
    var i := IndexOf(live, h);
    assert Counted(lru, live[i], refs, held, Some(h.id));
    ChargesWithout(live, i);
    if refs[h.id] > 1 {
      DropRef(lru, live, refs, held, i);
    } else {
      FreeEntry(lru, live, refs, held, i);
      FreeAccounted(live, deleted, nextId, i);
      OthersStay(live, held, i);
    }
  }

  lemma TakeOutBooks(lru: seq<Handle>, live: seq<Handle>, refs: map<nat, nat>, held: map<nat, nat>, usage: nat,
                     deleted: seq<nat>, nextId: nat, k: nat)
    requires Books(lru, live, refs, held, usage, deleted, nextId, None) && DistinctIds(lru) && k < |lru|
    ensures Books(Without(lru, k), live, refs, held, usage, deleted, nextId, Some(lru[k].id)) && Listed(live, lru[k])
  {
    assert BooksBody(lru, live, refs, held, usage, deleted, nextId, None, Lock);
    TakeOut(lru, live, refs, held, k);
  }

  lemma GiveBackBooks(lru: seq<Handle>, live: seq<Handle>, refs: map<nat, nat>, held: map<nat, nat>, usage: nat,
                      deleted: seq<nat>, nextId: nat, id: nat)
    requires Books(lru, live, refs, held, usage, deleted, nextId, None) && id in held && held[id] > 0
    ensures Books(lru, live, refs, held[id := held[id] - 1], usage, deleted, nextId, Some(id))
  {
    assert BooksBody(lru, live, refs, held, usage, deleted, nextId, None, Lock);
    GiveBack(lru, live, refs, held, id);
  }

  /** A hit: one more handle, and the entry moves to the newest end. */
  lemma HitBooks(lru: seq<Handle>, live: seq<Handle>, refs: map<nat, nat>, held: map<nat, nat>, usage: nat,
                 deleted: seq<nat>, nextId: nat,
                 contents: map<HT.Key, Handle>, k: nat)
    requires Books(lru, live, refs, held, usage, deleted, nextId, None) && Same(lru, contents) && k < |lru|
    ensures var id, moved := lru[k].id, Without(lru, k) + [lru[k]];
            && id in refs && id in held && Same(moved, contents) && Listed(live, lru[k])
            && Books(moved, live, refs[id := refs[id] + 1], held[id := held[id] + 1], usage, deleted, nextId, None)
  {
    assert BooksBody(lru, live, refs, held, usage, deleted, nextId, None, Lock) && SameBody(lru, contents, Lock);
    var h := lru[k];
    assert Listed(lru, h);
    IdsOf(live, h);
    HandOut(lru, live, refs, held, h.id);
    SyncedMoved(lru, contents, k);
    BalancedSame(lru, Without(lru, k) + [h], live, refs[h.id := refs[h.id] + 1], held[h.id := held[h.id] + 1]);
  }

  lemma NewBooks(lru: seq<Handle>, live: seq<Handle>, refs: map<nat, nat>, held: map<nat, nat>, usage: nat,
                 deleted: seq<nat>, nextId: nat, e: Handle)
    requires Books(lru, live, refs, held, usage, deleted, nextId, None) && e.id == nextId
    ensures Books(lru + [e], live + [e], refs[e.id := 2], held[e.id := 1], usage + e.charge, deleted, nextId + 1, None)
    ensures e.id !in Ids(lru)
  {
    assert BooksBody(lru, live, refs, held, usage, deleted, nextId, None, Lock);
    NewAccounted(live, deleted, nextId, e);
    NewEntry(lru, live, refs, held, e);
    ChargesSnoc(live, e);
    CachedIsLive(lru, live, e.id);
  }

  lemma CachedIsLive(lru: seq<Handle>, live: seq<Handle>, id: nat)
    requires forall h :: Listed(lru, h) ==> Listed(live, h)
    ensures id in Ids(lru) ==> id in Ids(live)
  {
    if id in Ids(lru) {
      var i :| 0 <= i < |lru| && lru[i].id == id;
      assert Listed(lru, lru[i]);
      IdsOf(live, lru[i]);
    }
  }

  lemma NewHeld(live: seq<Handle>, held: map<nat, nat>, e: Handle)
    ensures IsHeld(live + [e], held[e.id := 1], e)
  {
    SnocListed(live, e, e);
  }

  lemma Positions(lru: seq<Handle>, contents: map<HT.Key, Handle>, key: HT.Key)
    requires Same(lru, contents) && key in contents && contents[key].key == key
    ensures Listed(lru, contents[key]) && DistinctIds(lru)
  {
    assert SameBody(lru, contents, Lock);
  }

  lemma DropSame(lru: seq<Handle>, contents: map<HT.Key, Handle>, k: nat)
    requires Same(lru, contents) && k < |lru|
    ensures DistinctIds(lru) && Same(Without(lru, k), contents - {lru[k].key})
    ensures lru[k].key in contents && contents[lru[k].key] == lru[k]
  {
    assert SameBody(lru, contents, Lock);
    assert Listed(lru, lru[k]);
    SyncedWithout(lru, contents, k);
  }

  // ----- The shard -----

  class Shard {
    const table: HT.Table
    const capacity: nat
    var lru: seq<Handle>
    var refs: map<nat, nat>
    var usage: nat
    var nextId: nat

    /** Entries not yet freed; handles clients hold on them; deleter calls so far; all entries
        ever made. */
    ghost var live: seq<Handle>
    ghost var held: map<nat, nat>
    ghost var deleted: seq<nat>
    ghost var made: seq<Handle>

    ghost predicate Valid()
      reads this, table
    {
      && table.Valid() && Same(lru, table.contents) && Books(lru, live, refs, held, usage, deleted, nextId, None)
      && Known(made, live, nextId)
    }

    constructor (capacity: nat, hash: HT.Key -> nat)
      ensures Valid() && lru == [] && usage == 0 && live == [] && this.capacity == capacity && fresh(table)
      ensures table.contents == map[] && made == []
    {
      this.capacity := capacity;
      table := new HT.Table(hash);
      lru, refs, usage, nextId := [], map[], 0, 0;
      live, held, deleted, made := [], map[], [], [];
    }

    /** Unref: the last reference runs the deleter and frees the entry. */
    method Unref(h: Handle)
      requires Listed(live, h) && Books(lru, live, refs, held, usage, deleted, nextId, Some(h.id))
      modifies this`refs, this`usage, this`live, this`held, this`deleted
      ensures Books(lru, live, refs, held, usage, deleted, nextId, None)
      ensures h.id in old(refs) && deleted == (if old(refs)[h.id] == 1 then old(deleted) + [h.id] else old(deleted))
      ensures HandlesStay(old(live), old(held), live, held)
    {
      UnrefBooks(lru, live, refs, held, usage, deleted, nextId, h);
      var left := refs[h.id] - 1;
      if left > 0 {
        refs := refs[h.id := left];
      } else {
        refs := refs - {h.id};
        usage := usage - h.charge;
        live, held, deleted := Minus(live, h), held - {h.id}, deleted + [h.id];
      }
    }

    /** Lookup: a hit is one more handle, and the entry becomes the newest. */
    method Lookup(key: HT.Key) returns (r: Option<Handle>)
      requires Valid()
      modifies this`lru, this`refs, this`held
      ensures Valid() && r == (if key in table.contents then Some(table.contents[key]) else None)
      ensures r.Some? ==> Listed(live, r.value) && r.value.id in old(held)
      ensures r.Some? ==> held == old(held)[r.value.id := old(held)[r.value.id] + 1]
      ensures r.Some? ==> Moved(old(lru), r.value, lru)
      ensures r.None? ==> held == old(held) && lru == old(lru)
    {
      r := table.Lookup(key);
      if r.Some? {
        var h := r.value;
        table.OwnKeys(key);
        Positions(lru, table.contents, key);
        var k := Find(lru, h);
        HitBooks(lru, live, refs, held, usage, deleted, nextId, table.contents, k);
        refs := refs[h.id := refs[h.id] + 1];
        held := held[h.id := held[h.id] + 1];
        lru := Without(lru, k) + [h];
      }
    }

    /** Release: a client gives one handle back. */
    method Release(h: Handle)
      requires Valid() && Listed(live, h) && h.id in held && held[h.id] > 0
      modifies this`refs, this`usage, this`live, this`held, this`deleted
      ensures Valid() && h.id in old(refs)
      ensures deleted == if old(refs)[h.id] == 1 then old(deleted) + [h.id] else old(deleted)
      ensures HandlesStay(old(live), old(held)[h.id := old(held)[h.id] - 1], live, held)
    {
      GiveBackBooks(lru, live, refs, held, usage, deleted, nextId, h.id);
      held := held[h.id := held[h.id] - 1];
      Unref(h);
    }

    /** The oldest entry leaves list and table. */
    method Evict()
      requires Valid() && |lru| > 0
      modifies this, table
      ensures Valid() && lru == old(lru)[1..] && table.contents == old(table.contents) - {old(lru)[0].key}
      ensures HandlesStay(old(live), old(held), live, held) && HeldIds(held) == HeldIds(old(held)) && made == old(made)
    {
      var h := lru[0];
      ghost var lru0, live0, refs0, held0, usage0, deleted0 := lru, live, refs, held, usage, deleted;
      DropSame(lru, table.contents, 0);
      TakeOutBooks(lru, live, refs, held, usage, deleted, nextId, 0);
      lru := Without(lru, 0);
      var _ := table.Remove(h.key);
      Unref(h);
      HeldSame(lru0, live0, refs0, held0, usage0, deleted0, nextId, live, held);
    }

    method Erase(key: HT.Key)
      requires Valid()
      modifies this, table
      ensures Valid() && table.contents == old(table.contents) - {key} && HandlesStay(old(live), old(held), live, held)
      ensures Dropped(old(lru), key, lru) && made == old(made)
    {
      ghost var before := table.contents;
      if key in before {
        table.OwnKeys(key);
        Positions(lru, before, key);
      } else {
        NotDropped(lru, before, key);
      }
      var e := table.Remove(key);
      if e.Some? {
        var k := Find(lru, e.value);
        DropSame(lru, before, k);
        TakeOutBooks(lru, live, refs, held, usage, deleted, nextId, k);
        lru := Without(lru, k);
        Unref(e.value);
      } else {
        assert before - {key} == before;
      }
    }

    /** A new entry at the newest end of the list, with a reference each for list and caller. */
    method AddEntry(e: Handle)
      requires Books(lru, live, refs, held, usage, deleted, nextId, None) && Known(made, live, nextId) && e.id == nextId
      modifies this`lru, this`refs, this`usage, this`nextId, this`live, this`held, this`made
      ensures Books(lru, live, refs, held, usage, deleted, nextId, None) && Known(made, live, nextId)
      ensures lru == old(lru) + [e] && live == old(live) + [e] && held == old(held)[e.id := 1]
      ensures made == old(made) + [e] && nextId == old(nextId) + 1
      ensures e.id !in Ids(old(lru)) && IsHeld(live, held, e)
    {
      NewBooks(lru, live, refs, held, usage, deleted, nextId, e);
      NewHeld(live, held, e);
      KnownNew(made, live, nextId, e);
      refs := refs[e.id := 2];
      lru := lru + [e];
      usage := usage + e.charge;
      nextId := nextId + 1;
      live, held, made := live + [e], held[e.id := 1], made + [e];
    }

    /** Insert, before eviction: the new entry takes the place of one with its key. */
    method Place(e: Handle)
      requires Valid() && e.id == nextId
      modifies this, table
      ensures Valid() && table.contents == old(table.contents)[e.key := e] && nextId == old(nextId) + 1
      ensures Placed(old(lru), e, lru) && IsHeld(live, held, e) && made == old(made) + [e]
      ensures HandlesStay(old(live) + [e], old(held)[e.id := 1], live, held)
    {
      ghost var list, before := lru, table.contents;
      AddEntry(e);
      if e.key in before {
        table.OwnKeys(e.key);
        Positions(list, before, e.key);
      }
      var old' := table.Insert(e);
      if old'.Some? {
        SnocListed(list, e, old'.value);
        var k := Find(lru, old'.value);
        ReplaceSame(list, before, e, k);
        TakeOutBooks(lru, live, refs, held, usage, deleted, nextId, k);
        lru := Without(lru, k);
        Unref(old'.value);
      } else {
        NewSame(list, before, e);
      }
    }

    /** `gone` entries leave, oldest first, each only while what is cached or held weighs more
        than the capacity. */
    method Shrink() returns (ghost gone: nat)
      requires Valid()
      modifies this, table
      ensures Valid() && (usage <= capacity || lru == []) && made == old(made)
      ensures gone <= |old(lru)| && lru == old(lru)[gone..] && Evicted(made, old(lru), HeldIds(held), gone, capacity)
      ensures HandlesStay(old(live), old(held), live, held) && HeldIds(held) == HeldIds(old(held))
      ensures forall k :: k in table.contents ==>
                k in old(table.contents) && table.contents[k] == old(table.contents)[k]
      ensures gone == 0 ==> table.contents == old(table.contents)
    {
      gone := 0;
      while usage > capacity && |lru| > 0
        invariant Valid() && HeldIds(held) == HeldIds(old(held)) && made == old(made)
        invariant HandlesStay(old(live), old(held), live, held)
        invariant forall k :: k in table.contents ==>
                    k in old(table.contents) && table.contents[k] == old(table.contents)[k]
        invariant gone <= |old(lru)| && lru == old(lru)[gone..]
        invariant forall g :: 0 <= g < gone ==> Weight(made, Ids(old(lru)[g..]) + HeldIds(held)) > capacity
        invariant gone == 0 ==> table.contents == old(table.contents)
        decreases |lru|
      {
        UsageIsWeight(lru, live, refs, held, usage, deleted, nextId, made);
        Evict();
        gone := gone + 1;
      }
      UsageIsWeight(lru, live, refs, held, usage, deleted, nextId, made);
    }

    /** Insert: the key now leads to the new entry, unless that had to go at once, and the caller
        has its handle. */
    method Insert(key: HT.Key, value: Val, charge: nat)
      returns (e: Handle, ghost placed: seq<Handle>, ghost gone: nat)
      requires Valid()
      modifies this, table
      ensures Valid() && (usage <= capacity || lru == [])
      ensures e.key == key && e.value == value && e.charge == charge && e.id == old(nextId) && made == old(made) + [e]
      ensures IsHeld(live, held, e) && HandlesStay(old(live) + [e], old(held)[e.id := 1], live, held)
      ensures forall k :: k in table.contents ==>
                k in old(table.contents)[key := e] && table.contents[k] == old(table.contents)[key := e][k]
      ensures Placed(old(lru), e, placed) && gone <= |placed| && lru == placed[gone..]
      ensures Evicted(made, placed, HeldIds(held), gone, capacity)
      ensures gone == 0 ==> table.contents == old(table.contents)[key := e]
    {
      e := HT.Handle(nextId, key, charge, value);
      Place(e);
      placed := lru;
      gone := Shrink();
    }

    /** One call of a client that holds the handles `mine`. */
    method Perform(op: Op, mine: seq<Handle>, ghost latest: map<HT.Key, Val>)
      returns (mine': seq<Handle>, answer: Option<Val>)
      requires Valid() && Holdings(mine, live, held) && Fits(table.contents, latest)
      modifies this, table
      ensures Valid() && Holdings(mine', live, held) && Fits(table.contents, After(latest, op))
      ensures Takes(Model(old(made), old(lru), mine), op, capacity, Model(made, lru, mine'), answer)
      ensures answer.Some? ==> op.LookupOp? && op.key in latest && answer.value == latest[op.key]
    {
      mine', answer := mine, None;
      match op {
        case InsertOp(key, value, charge) =>
          mine' := PerformInsert(key, value, charge, mine, latest);
        case LookupOp(key) =>
          mine', answer := PerformLookup(key, mine, latest);
        case ReleaseOp(n) =>
          if n < |mine| {
            mine' := PerformRelease(n, mine);
          }
        case EraseOp(key) =>
          ghost var was, handles := live, held;
          Erase(key);
          HoldingsStay(mine, was, handles, live, held);
      }
    }

    method PerformInsert(key: HT.Key, value: Val, charge: nat, mine: seq<Handle>, ghost latest: map<HT.Key, Val>)
      returns (mine': seq<Handle>)
      requires Valid() && Holdings(mine, live, held) && Fits(table.contents, latest)
      modifies this, table
      ensures Valid() && Holdings(mine', live, held) && Fits(table.contents, latest[key := value])
      ensures Inserts(Model(old(made), old(lru), mine), key, value, charge, capacity, Model(made, lru, mine'))
    {
      ghost var was, handles := live, held;
      NewIsUnheld(lru, live, refs, held, usage, deleted, nextId);
      var e, placed, gone := Insert(key, value, charge);
      HoldingsNew(mine, was, handles, e);
      mine' := mine + [e];
      HoldingsStay(mine', was + [e], handles[e.id := 1], live, held);
      HeldAreMine(mine', live, held);
    }

    method PerformLookup(key: HT.Key, mine: seq<Handle>, ghost latest: map<HT.Key, Val>)
      returns (mine': seq<Handle>, answer: Option<Val>)
      requires Valid() && Holdings(mine, live, held) && Fits(table.contents, latest)
      modifies this`lru, this`refs, this`held
      ensures Valid() && Holdings(mine', live, held)
      ensures Looks(Model(made, old(lru), mine), key, Model(made, lru, mine'), answer)
      ensures answer.Some? ==> key in latest && answer.value == latest[key]
    {
      ghost var handles := held;
      if key in table.contents {
        table.OwnKeys(key);
      } else {
        NotDropped(lru, table.contents, key);
      }
      var r := Lookup(key);
      mine', answer := mine, None;
      if r.Some? {
        HoldingsGain(mine, live, handles, r.value);
        mine', answer := mine + [r.value], Some(r.value.value);
      }
    }

    method PerformRelease(n: nat, mine: seq<Handle>) returns (mine': seq<Handle>)
      requires Valid() && Holdings(mine, live, held) && n < |mine|
      modifies this`refs, this`usage, this`live, this`held, this`deleted
      ensures Valid() && Holdings(mine', live, held) && mine' == Without(mine, n)
    {
      ghost var was, handles := live, held;
      HoldingsLose(mine, live, held, n);
      Release(mine[n]);
      mine' := Without(mine, n);
      HoldingsStay(mine', was, handles[mine[n].id := handles[mine[n].id] - 1], live, held);
    }
  }

  // ----- Runs -----

  /** Calls of a client; it releases the n-th of the handles it has. */
  datatype Op =
    | InsertOp(key: HT.Key, value: Val, charge: nat)
    | LookupOp(key: HT.Key)
    | ReleaseOp(n: nat)
    | EraseOp(key: HT.Key)

  /** A cache as its clients see it: all entries ever made, those in it by age, and the handles
      they have. */
  datatype Model = Model(made: seq<Handle>, lru: seq<Handle>, mine: seq<Handle>)

  ghost predicate Inserts(m: Model, key: HT.Key, value: Val, charge: nat, capacity: nat, m': Model) {
    var e := HT.Handle(|m.made|, key, charge, value);
    && m'.made == m.made + [e] && m'.mine == m.mine + [e]
    && exists placed, gone: nat :: Placed(m.lru, e, placed) && Evicted(m'.made, placed, Ids(m'.mine), gone, capacity)
                                   && m'.lru == placed[gone..]
  }

  ghost predicate Looks(m: Model, key: HT.Key, m': Model, answer: Option<Val>) {
    if exists k :: 0 <= k < |m.lru| && m.lru[k].key == key
    then m'.made == m.made && exists h: Handle :: h.key == key && Moved(m.lru, h, m'.lru)
                                                  && m'.mine == m.mine + [h] && answer == Some(h.value)
    else m' == m && answer == None
  }

  /** What a call does and answers. */
  ghost predicate Takes(m: Model, op: Op, capacity: nat, m': Model, answer: Option<Val>) {
    forall lock: Lock :: TakesBody(m, op, capacity, m', answer, lock)
  }

  ghost predicate TakesBody(m: Model, op: Op, capacity: nat, m': Model, answer: Option<Val>, lock: Lock) {
    match op
    case InsertOp(key, value, charge) => Inserts(m, key, value, charge, capacity, m') && answer == None
    case LookupOp(key) => Looks(m, key, m', answer)
    case ReleaseOp(n) => m' == (if n < |m.mine| then m.(mine := Without(m.mine, n)) else m) && answer == None
    case EraseOp(key) => Dropped(m.lru, key, m'.lru) && m'.made == m.made && m'.mine == m.mine && answer == None
  }

  ghost predicate TakesAll(models: seq<Model>, ops: seq<Op>, answers: seq<Option<Val>>, capacity: nat) {
    && |models| == |ops| + 1 && |answers| == |ops| && models[0] == Model([], [], [])
    && forall i :: 0 <= i < |ops| ==> Takes(models[i], ops[i], capacity, models[i + 1], answers[i])
  }

  lemma HeldAreMine(mine: seq<Handle>, live: seq<Handle>, held: map<nat, nat>)
    requires Holdings(mine, live, held)
    ensures HeldIds(held) == Ids(mine)
  {
    forall id: nat ensures id in HeldIds(held) <==> id in Ids(mine) {
      CountNone(mine, id);
    }
  }

  /** The values of the latest insertions that were not erased since. */
  ghost function After(latest: map<HT.Key, Val>, op: Op): map<HT.Key, Val> {
    match op
    case InsertOp(key, value, _) => latest[key := value]
    case EraseOp(key) => latest - {key}
    case _ => latest
  }

  ghost function Latest(ops: seq<Op>): map<HT.Key, Val>
    decreases |ops|
  {
    if |ops| == 0 then map[] else After(Latest(ops[..|ops| - 1]), ops[|ops| - 1])
  }

  /** A hit is the latest value of its key. */
  ghost predicate IsLatest(ops: seq<Op>, i: nat, answer: Option<Val>)
    requires i < |ops|
  {
    answer.Some? ==>
      ops[i].LookupOp? && ops[i].key in Latest(ops[..i]) && answer.value == Latest(ops[..i])[ops[i].key]
  }

  ghost predicate Fits(contents: map<HT.Key, Handle>, latest: map<HT.Key, Val>) {
    forall k :: k in contents ==> k in latest && contents[k].value == latest[k]
  }

  /** How many of the handles are on the entry. */
  ghost function Count(mine: seq<Handle>, id: nat): nat
    decreases |mine|
  {
    if |mine| == 0 then 0
    else Count(mine[..|mine| - 1], id) + (if mine[|mine| - 1].id == id then 1 else 0)
  }

  lemma CountSnoc(mine: seq<Handle>, h: Handle, id: nat)
    ensures Count(mine + [h], id) == Count(mine, id) + (if h.id == id then 1 else 0)
  {
    assert (mine + [h])[..|mine|] == mine;
  }

  lemma {:induction false} CountWithout(mine: seq<Handle>, n: nat, id: nat)
    requires n < |mine|
    ensures Count(mine, id) == Count(Without(mine, n), id) + (if mine[n].id == id then 1 else 0)
    decreases |mine|
  {
    var last, w := |mine| - 1, Without(mine, n);
    if n < last {
      CountWithout(mine[..last], n, id);
      assert w[..last - 1] == Without(mine[..last], n) && w[last - 1] == mine[last];
    } else {
      assert w == mine[..last];
    }
  }

  lemma {:induction false} CountNone(mine: seq<Handle>, id: nat)
    ensures Count(mine, id) > 0 <==> exists i :: 0 <= i < |mine| && mine[i].id == id
    decreases |mine|
  {
    if |mine| > 0 {
      var rest := mine[..|mine| - 1];
      CountNone(rest, id);
      if i :| 0 <= i < |rest| && rest[i].id == id {
        assert mine[i].id == id;
      }
      if i :| 0 <= i < |mine| && mine[i].id == id {
        assert i < |rest| ==> rest[i].id == id;
      }
    }
  }

  /** The handles the shard has given out are those the client has. */
  ghost predicate Holdings(mine: seq<Handle>, live: seq<Handle>, held: map<nat, nat>) {
    && (forall i :: 0 <= i < |mine| ==> Listed(live, mine[i]) && mine[i].id in held)
    && (forall id :: id in held ==> held[id] == Count(mine, id))
  }

  lemma HoldingsStay(mine: seq<Handle>, live: seq<Handle>, held: map<nat, nat>,
                     live': seq<Handle>, held': map<nat, nat>)
    requires Holdings(mine, live, held) && HandlesStay(live, held, live', held')
    ensures Holdings(mine, live', held')
  {
    forall i | 0 <= i < |mine| ensures Listed(live', mine[i]) && mine[i].id in held' {
      CountNone(mine, mine[i].id);
      assert IsHeld(live, held, mine[i]);
    }
  }

  lemma HoldingsGain(mine: seq<Handle>, live: seq<Handle>, held: map<nat, nat>, h: Handle)
    requires Holdings(mine, live, held) && Listed(live, h) && h.id in held
    ensures Holdings(mine + [h], live, held[h.id := held[h.id] + 1])
  {
    forall id | id in held ensures held[h.id := held[h.id] + 1][id] == Count(mine + [h], id) {
      CountSnoc(mine, h, id);
    }
  }

  lemma HoldingsNew(mine: seq<Handle>, live: seq<Handle>, held: map<nat, nat>, e: Handle)
    requires Holdings(mine, live, held) && e.id !in held
    ensures Holdings(mine + [e], live + [e], held[e.id := 1])
  {
    forall id | id in held[e.id := 1] ensures held[e.id := 1][id] == Count(mine + [e], id) {
      CountSnoc(mine, e, id);
      CountNone(mine, id);
    }
    forall i | 0 <= i < |mine + [e]| ensures Listed(live + [e], (mine + [e])[i]) {
      SnocListed(live, e, (mine + [e])[i]);
    }
  }

  lemma HoldingsLose(mine: seq<Handle>, live: seq<Handle>, held: map<nat, nat>, n: nat)
    requires Holdings(mine, live, held) && n < |mine|
    ensures IsHeld(live, held, mine[n])
    ensures Holdings(Without(mine, n), live, held[mine[n].id := held[mine[n].id] - 1])
  {
    var w := Without(mine, n);
    CountNone(mine, mine[n].id);
    forall id | id in held ensures held[mine[n].id := held[mine[n].id] - 1][id] == Count(w, id) {
      CountWithout(mine, n, id);
    }
    assert forall i :: 0 <= i < |w| ==> w[i] == mine[if i < n then i else i + 1];
  }

  lemma NewIsUnheld(lru: seq<Handle>, live: seq<Handle>, refs: map<nat, nat>, held: map<nat, nat>, usage: nat,
                    deleted: seq<nat>, nextId: nat)
    requires Books(lru, live, refs, held, usage, deleted, nextId, None)
    ensures nextId !in held
  {
    assert BooksBody(lru, live, refs, held, usage, deleted, nextId, None, Lock);
  }

  /** Reference counts are the cache's own and the client's; the usage is the charge of what is
      not freed; and an entry's deleter has run, once, exactly when neither has it any more. */
  ghost predicate Settled(lru: seq<Handle>, live: seq<Handle>, refs: map<nat, nat>, usage: nat, deleted: seq<nat>,
                          nextId: nat, mine: seq<Handle>) {
    && (forall h :: Listed(live, h) ==> h.id in refs && refs[h.id] == Cached(lru, h) + Count(mine, h.id))
    && (forall h :: Listed(lru, h) ==> Listed(live, h))
    && (forall i :: 0 <= i < |mine| ==> Listed(live, mine[i]))
    && usage == Charges(live)
    && (forall i, j :: 0 <= i < j < |deleted| ==> deleted[i] != deleted[j])
    && (forall id: nat :: id in deleted <==> id < nextId && id !in Ids(lru) && Count(mine, id) == 0)
  }

  lemma HoldingsSettle(lru: seq<Handle>, live: seq<Handle>, refs: map<nat, nat>, held: map<nat, nat>, usage: nat,
                       deleted: seq<nat>, nextId: nat, mine: seq<Handle>)
    requires Books(lru, live, refs, held, usage, deleted, nextId, None) && Holdings(mine, live, held)
    ensures Settled(lru, live, refs, usage, deleted, nextId, mine)
  {
    assert BooksBody(lru, live, refs, held, usage, deleted, nextId, None, Lock);
    forall h | Listed(live, h) ensures h.id in refs && refs[h.id] == Cached(lru, h) + Count(mine, h.id) {
      var i := IndexOf(live, h);
      assert Counted(lru, live[i], refs, held, None);
    }
    forall id: nat ensures id in deleted <==> id < nextId && id !in Ids(lru) && Count(mine, id) == 0 {
      DeletedIff(lru, live, refs, held, deleted, nextId, mine, id);
    }
  }

  lemma DeletedIff(lru: seq<Handle>, live: seq<Handle>, refs: map<nat, nat>, held: map<nat, nat>, deleted: seq<nat>,
                   nextId: nat, mine: seq<Handle>, id: nat)
    requires Balanced(lru, live, refs, held, None) && Accounted(live, deleted, nextId) && Holdings(mine, live, held)
    ensures id in deleted <==> id < nextId && id !in Ids(lru) && Count(mine, id) == 0
  {
    if id in Ids(live) {
      var i :| 0 <= i < |live| && live[i].id == id;
      assert Counted(lru, live[i], refs, held, None);
      if Listed(lru, live[i]) {
        IdsOf(lru, live[i]);
      }
      assert id !in deleted;
    } else {
      CachedIsLive(lru, live, id);
      CountNone(mine, id);
    }
  }

  /** Any calls on a new shard, by clients that release only handles they have: every call does
      and answers what it should, the books balance at the end, and a hit is the value of the
      latest insertion not erased since. */
  method Run(capacity: nat, hash: HT.Key -> nat, ops: seq<Op>)
    returns (shard: Shard, mine: seq<Handle>, answers: seq<Option<Val>>, ghost models: seq<Model>)
    ensures shard.Valid() && TakesAll(models, ops, answers, capacity)
    ensures models[|ops|] == Model(shard.made, shard.lru, mine)
    ensures Settled(shard.lru, shard.live, shard.refs, shard.usage, shard.deleted, shard.nextId, mine)
    ensures |answers| == |ops| && forall i :: 0 <= i < |ops| ==> IsLatest(ops, i, answers[i])
  {
    shard := new Shard(capacity, hash);
    mine, answers, models := [], [], [Model([], [], [])];
    NothingHeld(shard.lru, shard.live, shard.refs, shard.held, shard.usage, shard.deleted, shard.nextId);
    for n := 0 to |ops|
      invariant fresh(shard) && fresh(shard.table) && shard.Valid() && shard.capacity == capacity && |answers| == n
      invariant |models| == n + 1 && models[0] == Model([], [], []) && models[n] == Model(shard.made, shard.lru, mine)
      invariant forall i :: 0 <= i < n ==> Takes(models[i], ops[i], capacity, models[i + 1], answers[i])
      invariant Holdings(mine, shard.live, shard.held) && Fits(shard.table.contents, Latest(ops[..n]))
      invariant forall i :: 0 <= i < n ==> IsLatest(ops, i, answers[i])
    {
      assert ops[..n + 1][..n] == ops[..n];
      assert Latest(ops[..n + 1]) == After(Latest(ops[..n]), ops[n]);
      var answer;
      mine, answer := shard.Perform(ops[n], mine, Latest(ops[..n]));
      assert IsLatest(ops, n, answer);
      answers, models := answers + [answer], models + [Model(shard.made, shard.lru, mine)];
    }
    HoldingsSettle(shard.lru, shard.live, shard.refs, shard.held, shard.usage, shard.deleted, shard.nextId, mine);
  }

  // ----- What stays cached -----

  ghost predicate KeysApart(lru: seq<Handle>) {
    forall i, j :: 0 <= i < j < |lru| ==> lru[i].key != lru[j].key
  }

  /** The key is cached, with this value. */
  ghost predicate Caches(lru: seq<Handle>, key: HT.Key, value: Val) {
    exists k :: 0 <= k < |lru| && lru[k].key == key && lru[k].value == value
  }

  lemma WithoutApart(lru: seq<Handle>, k: nat)
    requires KeysApart(lru) && k < |lru|
    ensures KeysApart(Without(lru, k))
    ensures forall i :: 0 <= i < |Without(lru, k)| ==> Without(lru, k)[i].key != lru[k].key
  {
    var w := Without(lru, k);
    assert forall i :: 0 <= i < |w| ==> w[i] == lru[if i < k then i else i + 1];
  }

  lemma WithoutCaches(lru: seq<Handle>, k: nat, key: HT.Key, value: Val)
    requires k < |lru| && lru[k].key != key && Caches(lru, key, value)
    ensures Caches(Without(lru, k), key, value)
  {
    var i :| 0 <= i < |lru| && lru[i].key == key && lru[i].value == value;
    assert Without(lru, k)[if i < k then i else i - 1] == lru[i];
  }

  lemma SnocCaches(lru: seq<Handle>, h: Handle, key: HT.Key, value: Val)
    requires Caches(lru, key, value) || (h.key == key && h.value == value)
    ensures Caches(lru + [h], key, value)
  {
    if Caches(lru, key, value) {
      var i :| 0 <= i < |lru| && lru[i].key == key && lru[i].value == value;
      assert (lru + [h])[i] == lru[i];
    } else {
      assert (lru + [h])[|lru|] == h;
    }
  }

  lemma PlacedKeeps(lru: seq<Handle>, e: Handle, placed: seq<Handle>, key: HT.Key, value: Val)
    requires KeysApart(lru) && Placed(lru, e, placed)
    ensures KeysApart(placed) && Caches(placed, e.key, e.value)
    ensures Caches(lru, key, value) && key != e.key ==> Caches(placed, key, value)
  {
    if placed == lru + [e] && (forall i :: 0 <= i < |lru| ==> lru[i].key != e.key) {
      SnocCaches(lru, e, e.key, e.value);
      if Caches(lru, key, value) {
        SnocCaches(lru, e, key, value);
      }
    } else {
      var k :| 0 <= k < |lru| && lru[k].key == e.key && placed == Without(lru, k) + [e];
      WithoutApart(lru, k);
      SnocCaches(Without(lru, k), e, e.key, e.value);
      if Caches(lru, key, value) && key != e.key {
        WithoutCaches(lru, k, key, value);
        SnocCaches(Without(lru, k), e, key, value);
      }
    }
  }

  lemma MovedKeeps(lru: seq<Handle>, h: Handle, moved: seq<Handle>, key: HT.Key, value: Val)
    requires KeysApart(lru) && Moved(lru, h, moved)
    ensures KeysApart(moved) && (Caches(lru, key, value) ==> Caches(moved, key, value))
    ensures Caches(lru, key, value) && h.key == key ==> h.value == value
  {
    var k :| 0 <= k < |lru| && lru[k] == h && moved == Without(lru, k) + [h];
    WithoutApart(lru, k);
    if Caches(lru, key, value) {
      var i :| 0 <= i < |lru| && lru[i].key == key && lru[i].value == value;
      assert h.key == key ==> i == k;
      if h.key != key {
        WithoutCaches(lru, k, key, value);
      }
      SnocCaches(Without(lru, k), h, key, value);
    }
  }

  lemma DroppedKeeps(lru: seq<Handle>, key': HT.Key, left: seq<Handle>, key: HT.Key, value: Val)
    requires KeysApart(lru) && Dropped(lru, key', left)
    ensures KeysApart(left) && (Caches(lru, key, value) && key != key' ==> Caches(left, key, value))
  {
    if exists k :: 0 <= k < |lru| && lru[k].key == key' {
      var k :| 0 <= k < |lru| && lru[k].key == key' && left == Without(lru, k);
      WithoutApart(lru, k);
      if Caches(lru, key, value) && key != key' {
        WithoutCaches(lru, k, key, value);
      }
    }
  }

  /** An insertion that finds room: with the new entry placed, nothing is over the capacity. */
  ghost predicate HasRoom(m: Model, op: Op, capacity: nat) {
    forall lock: Lock :: HasRoomBody(m, op, capacity, lock)
  }

  ghost predicate HasRoomBody(m: Model, op: Op, capacity: nat, lock: Lock) {
    op.InsertOp? ==>
      var e := HT.Handle(|m.made|, op.key, op.charge, op.value);
      forall placed :: Placed(m.lru, e, placed) ==> Weight(m.made + [e], Ids(placed) + Ids(m.mine + [e])) <= capacity
  }

  ghost predicate Touches(op: Op, key: HT.Key) {
    (op.InsertOp? || op.EraseOp?) && op.key == key
  }

  lemma TakesKeeps(m: Model, op: Op, capacity: nat, m': Model, answer: Option<Val>, key: HT.Key, value: Val)
    requires Takes(m, op, capacity, m', answer) && KeysApart(m.lru)
    ensures KeysApart(m'.lru)
    ensures HasRoom(m, op, capacity) && Caches(m.lru, key, value) && !Touches(op, key) ==> Caches(m'.lru, key, value)
    ensures HasRoom(m, op, capacity) && op.InsertOp? ==> Caches(m'.lru, op.key, op.value)
    ensures op == LookupOp(key) && Caches(m.lru, key, value) ==> answer == Some(value)
  {
    assert TakesBody(m, op, capacity, m', answer, Lock);
    match op {
      case InsertOp(k, v, c) =>
        var e := HT.Handle(|m.made|, k, c, v);
        var placed, gone: nat :| Placed(m.lru, e, placed) && Evicted(m'.made, placed, Ids(m'.mine), gone, capacity)
                                 && m'.lru == placed[gone..];
        PlacedKeeps(m.lru, e, placed, key, value);
        assert placed[0..] == placed;
        if HasRoom(m, op, capacity) {
          assert HasRoomBody(m, op, capacity, Lock);
          assert Weight(m'.made, Ids(placed[0..]) + Ids(m'.mine)) <= capacity;
          assert m'.lru == placed;
        }
      case LookupOp(k) =>
        if exists i :: 0 <= i < |m.lru| && m.lru[i].key == k {
          var h: Handle :| h.key == k && Moved(m.lru, h, m'.lru) && m'.mine == m.mine + [h] && answer == Some(h.value);
          MovedKeeps(m.lru, h, m'.lru, key, value);
        }
      case ReleaseOp(n) =>
      case EraseOp(k) =>
        DroppedKeeps(m.lru, k, m'.lru, key, value);
    }
  }

  lemma {:induction false} CachedOnce(models: seq<Model>, ops: seq<Op>, answers: seq<Option<Val>>, capacity: nat,
                                      n: nat)
    requires TakesAll(models, ops, answers, capacity) && n <= |ops|
    ensures KeysApart(models[n].lru)
    decreases n
  {
    if n > 0 {
      CachedOnce(models, ops, answers, capacity, n - 1);
      TakesKeeps(models[n - 1], ops[n - 1], capacity, models[n], answers[n - 1], 0, "");
    }
  }

  /** After an insertion of a key, as long as every insertion finds room and the key is neither
      inserted again nor erased, it stays cached. */
  lemma {:induction false} StaysCached(models: seq<Model>, ops: seq<Op>, answers: seq<Option<Val>>, capacity: nat,
                                       i: nat, n: nat)
    requires TakesAll(models, ops, answers, capacity) && i < n <= |ops| && ops[i].InsertOp?
    requires forall j :: i <= j < n ==> HasRoom(models[j], ops[j], capacity)
    requires forall j :: i < j < n ==> !Touches(ops[j], ops[i].key)
    ensures Caches(models[n].lru, ops[i].key, ops[i].value)
    decreases n
  {
    var m := n - 1;
    CachedOnce(models, ops, answers, capacity, m);
    if i < m {
      StaysCached(models, ops, answers, capacity, i, m);
    }
    TakesKeeps(models[m], ops[m], capacity, models[m + 1], answers[m], ops[i].key, ops[i].value);
  }

  /** So a lookup then hits, with that value. */
  lemma FreshHits(models: seq<Model>, ops: seq<Op>, answers: seq<Option<Val>>, capacity: nat, i: nat, n: nat)
    requires TakesAll(models, ops, answers, capacity) && i < n < |ops| && ops[i].InsertOp?
    requires forall j :: i <= j < n ==> HasRoom(models[j], ops[j], capacity)
    requires forall j :: i < j < n ==> !Touches(ops[j], ops[i].key)
    requires ops[n] == LookupOp(ops[i].key)
    ensures answers[n] == Some(ops[i].value)
  {
    StaysCached(models, ops, answers, capacity, i, n);
    CachedOnce(models, ops, answers, capacity, n);
    TakesKeeps(models[n], ops[n], capacity, models[n + 1], answers[n], ops[i].key, ops[i].value);
  }

  lemma NothingHeld(lru: seq<Handle>, live: seq<Handle>, refs: map<nat, nat>, held: map<nat, nat>, usage: nat,
                    deleted: seq<nat>, nextId: nat)
    requires Books(lru, live, refs, held, usage, deleted, nextId, None) && live == []
    ensures Holdings([], live, held)
  {
    assert BooksBody(lru, live, refs, held, usage, deleted, nextId, None, Lock);
  }

  /** The list with a new entry at its newest end, in place of one with the same key. */
  ghost predicate Placed(before: seq<Handle>, e: Handle, after: seq<Handle>) {
    || (after == before + [e] && forall i :: 0 <= i < |before| ==> before[i].key != e.key)
    || exists k :: 0 <= k < |before| && before[k].key == e.key && after == Without(before, k) + [e]
  }

  lemma NewSame(lru: seq<Handle>, contents: map<HT.Key, Handle>, e: Handle)
    requires Same(lru, contents) && e.id !in Ids(lru) && e.key !in contents
    ensures Same(lru + [e], contents[e.key := e]) && Placed(lru, e, lru + [e])
  {
    assert SameBody(lru, contents, Lock);
    forall i | 0 <= i < |lru| ensures lru[i].key != e.key {
      assert Listed(lru, lru[i]);
    }
    SyncedNew(lru, contents, e);
  }

  lemma PlacedOver(lru: seq<Handle>, e: Handle, k: nat)
    requires k < |lru| && lru[k].key == e.key
    ensures Placed(lru, e, Without(lru + [e], k))
  {
    assert Without(lru + [e], k) == Without(lru, k) + [e];
  }

  lemma ReplaceSame(lru: seq<Handle>, contents: map<HT.Key, Handle>, e: Handle, k: nat)
    requires Same(lru, contents) && e.id !in Ids(lru) && e.key in contents && contents[e.key].key == e.key
    requires k < |lru + [e]| && (lru + [e])[k] == contents[e.key]
    ensures DistinctIds(lru + [e]) && Same(Without(lru + [e], k), contents[e.key := e])
    ensures Placed(lru, e, Without(lru + [e], k))
  {
    assert SameBody(lru, contents, Lock);
    assert Listed(lru, contents[e.key]);
    IdsOf(lru, contents[e.key]);
    PlacedOver(lru, e, k);
    SyncedReplace(lru, contents, e, k);
  }
}
