/** Building a block of prefix-compressed entries. */
module BlockBuilder {
  // Keys are compressed against their predecessor, with a restart point every so many
  // entries.

  import opened Entries
  import opened Coding
  import opened Block

  lemma EntryStays(dec: Decoder, data: Bytes, more: Bytes, from: nat, to: nat, shared: nat, p: Pair)
    requires EntryWritten(dec, data, from, to, shared, p)
    ensures EntryWritten(dec, data + more, from, to, shared, p)
  {
    var rest := p.key[shared..];
    var head :| Holds(dec, data, from, to, shared, rest, p.value, head);
    Extended(data, more, from, to);
    assert Holds(dec, data + more, from, to, shared, rest, p.value, head);
  }

  lemma WrittenStays(dec: Decoder, data: Bytes, more: Bytes, plan: Plan)
    requires PlanOk(plan) && Written(dec, data, plan)
    ensures Written(dec, data + more, plan)
  {
    forall i | 0 <= i < |plan.pairs| ensures WrittenAt(dec, data + more, plan, i) {
      assert WrittenAt(dec, data, plan, i);
      EntryStays(dec, data, more, plan.offsets[i], plan.offsets[i + 1], plan.shared[i], plan.pairs[i]);
    }
  }

  /** One more entry at the end of the plan; `restart` says whether it is a restart point. */
  function Grown(plan: Plan, p: Pair, shared: nat, size: nat, restart: bool): Plan
    requires |plan.offsets| > 0
  {
    Plan(plan.pairs + [p], plan.offsets + [Limit(plan) + size], plan.shared + [shared],
         if restart then plan.restarts + [|plan.pairs|] else plan.restarts)
  }

  /** How the new entry relates to the last one. */
  ghost predicate Follows(plan: Plan, p: Pair, shared: nat, restart: bool) {
    && Small(p) && shared <= |p.key| && (restart ==> shared == 0 && |plan.pairs| > 0)
    && (shared > 0 ==> |plan.pairs| > 0 && shared <= |plan.pairs[|plan.pairs| - 1].key|
                       && p.key[..shared] == plan.pairs[|plan.pairs| - 1].key[..shared])
  }

  /** The parts that were there stay the same. */
  lemma GrownKeeps(plan: Plan, p: Pair, shared: nat, size: nat, restart: bool)
    requires Counts(plan)
    ensures var g, n := Grown(plan, p, shared, size, restart), |plan.pairs|;
            && |g.pairs| == n + 1 && |g.offsets| == n + 2 && |g.shared| == n + 1
            && (forall i :: 0 <= i < n ==> g.pairs[i] == plan.pairs[i])
            && (forall i :: 0 <= i < n ==> g.shared[i] == plan.shared[i])
            && (forall i :: 0 <= i <= n ==> g.offsets[i] == plan.offsets[i])
            && g.pairs[n] == p && g.shared[n] == shared && g.offsets[n + 1] == plan.offsets[n] + size
  {
  }

  lemma GrownCounts(plan: Plan, p: Pair, shared: nat, size: nat, restart: bool)
    requires PlanOk(plan) && Follows(plan, p, shared, restart) && size > 0
    ensures Counts(Grown(plan, p, shared, size, restart))
  {
    var g, n := Grown(plan, p, shared, size, restart), |plan.pairs|;
    GrownKeeps(plan, p, shared, size, restart);
    forall i, j | 0 <= i < j <= |g.pairs| ensures g.offsets[i] < g.offsets[j] {
      assert i < n ==> plan.offsets[i] < plan.offsets[n];
    }
  }

  lemma GrownShares(plan: Plan, p: Pair, shared: nat, size: nat, restart: bool)
    requires PlanOk(plan) && Follows(plan, p, shared, restart) && Counts(Grown(plan, p, shared, size, restart))
    ensures Shares(Grown(plan, p, shared, size, restart))
  {
    GrownKeeps(plan, p, shared, size, restart);
  }

  lemma GrownRestarts(plan: Plan, p: Pair, shared: nat, size: nat, restart: bool)
    requires PlanOk(plan) && Follows(plan, p, shared, restart) && Counts(Grown(plan, p, shared, size, restart))
    ensures Restarts(Grown(plan, p, shared, size, restart))
  {
    var g, n := Grown(plan, p, shared, size, restart), |plan.pairs|;
    GrownKeeps(plan, p, shared, size, restart);
    assert forall j :: 0 <= j < |plan.restarts| ==> g.restarts[j] == plan.restarts[j];
    if n == 0 {
      assert forall j :: 0 < j < |plan.restarts| ==> plan.restarts[j] < 0;
      assert shared == 0;
    }
  }

  lemma GrownOk(plan: Plan, p: Pair, shared: nat, size: nat, restart: bool)
    requires PlanOk(plan) && Follows(plan, p, shared, restart) && size > 0
    ensures PlanOk(Grown(plan, p, shared, size, restart))
  {
    GrownCounts(plan, p, shared, size, restart);
    GrownShares(plan, p, shared, size, restart);
    GrownRestarts(plan, p, shared, size, restart);
  }

  lemma GrownWritten(dec: Decoder, data: Bytes, more: Bytes, plan: Plan, p: Pair, shared: nat, restart: bool)
    requires PlanOk(plan) && Written(dec, data, plan) && |data| == Limit(plan)
    requires Follows(plan, p, shared, restart) && |more| > 0
    requires EntryWritten(dec, data + more, |data|, |data| + |more|, shared, p)
    ensures PlanOk(Grown(plan, p, shared, |more|, restart))
    ensures Written(dec, data + more, Grown(plan, p, shared, |more|, restart))
  {
    var g := Grown(plan, p, shared, |more|, restart);
    GrownOk(plan, p, shared, |more|, restart);
    forall i | 0 <= i < |g.pairs| ensures WrittenAt(dec, data + more, g, i) {
      if i < |plan.pairs| {
        assert WrittenAt(dec, data, plan, i);
        EntryStays(dec, data, more, plan.offsets[i], plan.offsets[i + 1], plan.shared[i], plan.pairs[i]);
      }
    }
  }

  lemma NewEntry(dec: Decoder, data: Bytes, head: Bytes, p: Pair, shared: nat)
    requires IsDecoder(dec) && Small(p) && shared <= |p.key| && head == EntryHead(shared, |p.key| - shared, |p.value|)
    ensures var more := head + (p.key[shared..] + p.value);
            EntryWritten(dec, data + more, |data|, |data| + |more|, shared, p)
  {
    var rest := p.key[shared..];
    EntryHeadIs(dec, shared, |rest|, |p.value|);
    Appended(dec, data, head, shared, rest, p.value);
  }

  lemma Appended(dec: Decoder, data: Bytes, head: Bytes, shared: nat, rest: Bytes, value: Bytes)
    requires HeadIs(dec, head, shared, |rest|, |value|)
    ensures var more := head + (rest + value);
            HoldsEntry(dec, data + more, |data|, |data| + |more|, shared, rest, value)
  {
    var more := head + (rest + value);
    assert (data + more)[|data|..|data| + |more|] == more;
    assert Holds(dec, data + more, |data|, |data| + |more|, shared, rest, value, head);
  }

  // ----- The restart array -----

  lemma CountWritten(front: Bytes, n: nat)
    requires n < WORD
    ensures var data := front + Fixed(n, 4); |data| == |front| + 4 && DecodeFixed(data[|data| - 4..]) == n
  {
    var data := front + Fixed(n, 4);
    assert data[|data| - 4..] == Fixed(n, 4);
    Fixed32RoundTrip(n);
  }

  lemma FinishedIndexed(buffer: Bytes, plan: Plan, points: Bytes, tail: Bytes)
    requires PlanOk(plan) && |buffer| == Limit(plan) < WORD && |points| == 4 * |plan.restarts|
    requires forall j :: 0 <= j < |plan.restarts| ==>
               points[4 * j..4 * j + 4] == Fixed(plan.offsets[plan.restarts[j]], 4)
    ensures Indexed(buffer + points + tail, plan)
  {
    var data := buffer + points + tail;
    forall j | 0 <= j < |plan.restarts| ensures RestartAt(data, Limit(plan), j) == plan.offsets[plan.restarts[j]] {
      var i := plan.restarts[j];
      assert i < |plan.pairs| ==> plan.offsets[i] < plan.offsets[|plan.pairs|];
      WordIn(buffer, points, tail, j, plan.offsets[i]);
    }
  }

  // ----- The builder -----

  /** The bytes, the restart list and the last key are those of the plan. */
  ghost predicate Tracks(dec: Decoder, buffer: Bytes, restarts: seq<nat>, lastKey: Bytes, plan: Plan, lock: Lock) {
    && PlanOk(plan) && Written(dec, buffer, plan) && |buffer| == Limit(plan)
    && |restarts| == |plan.restarts|
    && (forall j :: 0 <= j < |restarts| ==> restarts[j] == plan.offsets[plan.restarts[j]])
    && lastKey == (if |plan.pairs| == 0 then [] else plan.pairs[|plan.pairs| - 1].key)
  }

  ghost predicate Built(dec: Decoder, buffer: Bytes, restarts: seq<nat>, lastKey: Bytes, plan: Plan) {
    forall lock: Lock :: Tracks(dec, buffer, restarts, lastKey, plan, lock)
  }

  lemma BuiltGrows(dec: Decoder, buffer: Bytes, restarts: seq<nat>, lastKey: Bytes, plan: Plan,
                   more: Bytes, p: Pair, shared: nat, restart: bool)
    requires Built(dec, buffer, restarts, lastKey, plan) && Small(p) && |more| > 0
    requires shared <= |lastKey| && shared <= |p.key| && p.key[..shared] == lastKey[..shared]
    requires restart ==> shared == 0 && |plan.pairs| > 0
    requires EntryWritten(dec, buffer + more, |buffer|, |buffer| + |more|, shared, p)
    ensures |plan.offsets| > 0 && Built(dec, buffer + more, if restart then restarts + [|buffer|] else restarts, p.key,
                                        Grown(plan, p, shared, |more|, restart))
  {
    assert Tracks(dec, buffer, restarts, lastKey, plan, Lock);
    GrownWritten(dec, buffer, more, plan, p, shared, restart);
    var g, rs := Grown(plan, p, shared, |more|, restart), if restart then restarts + [|buffer|] else restarts;
    GrownKeeps(plan, p, shared, |more|, restart);
    forall j | 0 <= j < |rs| ensures rs[j] == g.offsets[g.restarts[j]] {
      assert j < |restarts| ==> plan.restarts[j] <= |plan.pairs|;
    }
    assert Tracks(dec, buffer + more, rs, p.key, g, Lock);
  }

  lemma BuiltFinishes(dec: Decoder, buffer: Bytes, restarts: seq<nat>, lastKey: Bytes, plan: Plan)
    requires Built(dec, buffer, restarts, lastKey, plan) && |buffer| < WORD && |restarts| < WORD
    ensures var data := buffer + FixedArray(restarts) + Fixed(|restarts|, 4);
            && BlockOk(dec, data, plan) && DecodeFixed(data[|data| - 4..]) == |plan.restarts| == |restarts|
            && |data| == |buffer| + 4 * (|restarts| + 1) && |buffer| == Limit(plan)
  {
    assert Tracks(dec, buffer, restarts, lastKey, plan, Lock);
    var points := FixedArray(restarts);
    forall j | 0 <= j < |plan.restarts| ensures points[4 * j..4 * j + 4] == Fixed(plan.offsets[plan.restarts[j]], 4) {
      FixedArrayAt(restarts, j);
    }
    CountWritten(buffer + points, |restarts|);
    FinishedIndexed(buffer, plan, points, Fixed(|restarts|, 4));
    WrittenStays(dec, buffer, points, plan);
    WrittenStays(dec, buffer + points, Fixed(|restarts|, 4), plan);
  }

  /** The most bytes an entry can take: three lengths of five bytes, the key and the value. */
  function EntrySize(p: Pair): nat {
    15 + |p.key| + |p.value|
  }

  lemma HeadShort(shared: nat, rest: nat, value: nat)
    requires shared < WORD && rest < WORD && value < WORD
    ensures |EntryHead(shared, rest, value)| <= 15
  {
    PowFive();
    VarintShort(shared, 5);
    VarintShort(rest, 5);
    VarintShort(value, 5);
  }

  /** Every `interval`-th entry is a restart point, and `counter` came since the last one. */
  ghost predicate Regular(plan: Plan, interval: nat, counter: nat) {
    && |plan.restarts| > 0 && |plan.pairs| == Multiple(interval, |plan.restarts| - 1) + counter
    && forall j :: 0 <= j < |plan.restarts| ==> plan.restarts[j] == Multiple(interval, j)
  }

  function Multiple(n: nat, k: nat): nat {
    n * k
  }

  lemma RegularGrows(plan: Plan, interval: nat, counter: nat, next: Plan, restart: bool)
    requires Regular(plan, interval, counter) && counter <= interval && restart == (counter >= interval)
    requires |next.pairs| == |plan.pairs| + 1
    requires next.restarts == if restart then plan.restarts + [|plan.pairs|] else plan.restarts
    ensures Regular(next, interval, if restart then 1 else counter + 1)
  {
    assert Multiple(interval, |plan.restarts|) == Multiple(interval, |plan.restarts| - 1) + interval;
  }

  /** The longest common prefix of the two keys. */
  ghost predicate IsShared(last: Bytes, key: Bytes, n: nat) {
    && n <= |last| && n <= |key| && key[..n] == last[..n]
    && (n < |last| && n < |key| ==> key[n] != last[n])
  }

  /** An entry that leaves out the first bytes of its key. */
  function Cell(key: Bytes, value: Bytes, shared: nat): Bytes {
    EntryHead(shared, if shared <= |key| then |key| - shared else 0, |value|)
    + ((if shared <= |key| then key[shared..] else []) + value)
  }

  /** An entry, byte by byte. */
  lemma CellBytes()
    ensures Cell([97, 98, 99], [120], 2) == [2, 1, 1, 99, 120]
  {
  }

  class BlockBuilder {
    const interval: nat
    ghost const dec: Decoder
    var buffer: Bytes
    var restarts: seq<nat>
    var counter: nat
    var lastKey: Bytes
    ghost var plan: Plan

    ghost predicate Valid()
      reads this
    {
      && IsDecoder(dec) && interval >= 1 && counter <= interval && (|plan.pairs| == 0 ==> counter == 0)
      && Regular(plan, interval, counter)
      && Built(dec, buffer, restarts, lastKey, plan)
    }

    constructor (interval: nat, ghost dec: Decoder)
      requires interval >= 1 && IsDecoder(dec)
      ensures Valid() && plan.pairs == [] && this.interval == interval && this.dec == dec
      ensures |buffer| == 0 && |restarts| == 1
    {
      this.interval, this.dec := interval, dec;
      buffer, restarts, counter, lastKey := [], [0], 0, [];
      plan := Plan([], [0], [], [0]);
      new;
      assert Tracks(dec, buffer, restarts, lastKey, plan, Lock);
      assert Multiple(interval, 0) == 0;
    }

    /** The length of the common prefix of the last key and this one. */
    method SharedPrefix(key: Bytes) returns (shared: nat)
      ensures IsShared(lastKey, key, shared)
    {
      shared := 0;
      var min := if |lastKey| < |key| then |lastKey| else |key|;
      while shared < min && lastKey[shared] == key[shared]
        invariant shared <= min && key[..shared] == lastKey[..shared]
      {
        shared := shared + 1;
      }
    }

    /** Add: the block gains exactly this entry. */
    method Add(key: Bytes, value: Bytes)
      requires Valid() && Small(Pair(key, value))
      modifies this
      ensures Valid() && plan.pairs == old(plan.pairs) + [Pair(key, value)]
      ensures plan.restarts == if old(counter) == interval then old(plan.restarts) + [|old(plan.pairs)|]
                               else old(plan.restarts)
      ensures |buffer| <= |old(buffer)| + EntrySize(Pair(key, value)) && |restarts| <= |old(restarts)| + 1
      ensures exists shared :: (if old(counter) == interval then shared == 0 else IsShared(old(lastKey), key, shared))
                               && buffer == old(buffer) + Cell(key, value, shared)
      ensures lastKey == key && counter == (if old(counter) == interval then 1 else old(counter) + 1)
    {
      var shared, restart := 0, counter >= interval;
      if !restart {
        shared := SharedPrefix(key);
      }
      ghost var p := Pair(key, value);
      var more := EncodeEntry(key, value, shared);
      BuiltGrows(dec, buffer, restarts, lastKey, plan, more, p, shared, restart);
      if restart {
        restarts := restarts + [|buffer|];
        counter := 0;
      }
      buffer := buffer + more;
      RegularGrows(plan, interval, old(counter), Grown(plan, p, shared, |more|, restart), restart);
      plan := Grown(plan, p, shared, |more|, restart);
      lastKey := key;
      counter := counter + 1;
    }

    /** The three lengths, the unshared part of the key, and the value. */
    method EncodeEntry(key: Bytes, value: Bytes, shared: nat) returns (more: Bytes)
      requires IsDecoder(dec) && Small(Pair(key, value)) && shared <= |key|
      ensures |more| > 0 && EntryWritten(dec, buffer + more, |buffer|, |buffer| + |more|, shared, Pair(key, value))
      ensures |more| <= EntrySize(Pair(key, value)) && more == Cell(key, value, shared)
    {
      HeadShort(shared, |key| - shared, |value|);
      var head := EntryHead(shared, |key| - shared, |value|);
      NewEntry(dec, buffer, head, Pair(key, value), shared);
      more := head + (key[shared..] + value);
    }

    /** Finish: the contents of a block that reads back as the entries added. */
    method Finish() returns (data: Bytes)
      requires Valid() && |buffer| < WORD && |restarts| < WORD
      ensures BlockOk(dec, data, plan) && data == buffer + FixedArray(restarts) + Fixed(|restarts|, 4)
      ensures |data| >= 8 && DecodeFixed(data[|data| - 4..]) == |plan.restarts|
      ensures |data| - 4 * (1 + |plan.restarts|) == Limit(plan)
      ensures forall j :: 0 <= j < |plan.restarts| ==> plan.restarts[j] == Multiple(interval, j)
    {
      data := buffer;
      for i := 0 to |restarts|
        invariant data == buffer + FixedArray(restarts[..i])
      {
        FixedArraySnoc(buffer, restarts, i);
        data := data + Fixed(restarts[i], 4);
      }
      assert restarts[..|restarts|] == restarts;
      data := data + Fixed(|restarts|, 4);
      BuiltFinishes(dec, buffer, restarts, lastKey, plan);
    }
  }

  /** Block::Block and NewIterator: where the restart array starts, or that the
      contents cannot be a block. */
  method Open(data: Bytes) returns (ok: bool, restarts: nat, numRestarts: nat)
    ensures ok ==> |data| >= 8 && numRestarts == DecodeFixed(data[|data| - 4..])
    ensures ok ==> restarts + 4 * (1 + numRestarts) == |data|
    ensures |data| >= 8 && 4 * (1 + DecodeFixed(data[|data| - 4..])) <= |data| ==> ok
  {
    restarts, numRestarts := 0, 0;
    if |data| < 8 {
      return false, 0, 0;
    }
    numRestarts := DecodeFixed(data[|data| - 4..]);
    if 4 * (1 + numRestarts) > |data| {
      return false, 0, 0;
    }
    restarts := |data| - 4 * (1 + numRestarts);
    ok := true;
  }

  lemma DecodeEntryIsDecoder()
    ensures IsDecoder(DecodeEntry)
  {
  }

  /** The most bytes the entries can take. */
  ghost function Bulk(pairs: seq<Pair>): (r: nat)
    ensures r >= 15 * |pairs|
    decreases |pairs|
  {
    if |pairs| == 0 then 0 else Bulk(pairs[..|pairs| - 1]) + EntrySize(pairs[|pairs| - 1])
  }

  /** Every entry of a block, front to back. */
  method Scan(it: Iter) returns (pairs: seq<Pair>)
    requires it.Valid()
    modifies it
    ensures it.Valid() && pairs == it.plan.pairs
  {
    it.SeekToFirst();
    pairs := [];
    var p := it.Current();
    while p.Some?
      invariant it.Valid() && it.pos == |pairs| <= |it.plan.pairs| && pairs == it.plan.pairs[..|pairs|]
      invariant p == if it.pos < |it.plan.pairs| then Some(it.plan.pairs[it.pos]) else None
      decreases |it.plan.pairs| - it.pos
    {
      pairs := pairs + [p.value];
      it.Next();
      p := it.Current();
    }
  }

  /** `data` reads as the entries of the plan. */
  ghost predicate IsBlock(dec: Decoder, data: Bytes, plan: Plan) {
    && BlockOk(dec, data, plan) && |data| >= 8 && DecodeFixed(data[|data| - 4..]) == |plan.restarts|
    && |data| - 4 * (1 + |plan.restarts|) == Limit(plan)
  }

  /** A block of the entries, unless it takes 2^32 bytes or more. */
  method Write(pairs: seq<Pair>, interval: nat, ghost dec: Decoder) returns (data: Option<Bytes>, ghost plan: Plan)
    requires interval >= 1 && IsDecoder(dec) && forall i :: 0 <= i < |pairs| ==> Small(pairs[i])
    ensures plan.pairs == pairs && (data.Some? ==> IsBlock(dec, data.value, plan))
    ensures Bulk(pairs) < WORD ==> data.Some?
  {
    var b := new BlockBuilder(interval, dec);
    for i := 0 to |pairs|
      invariant fresh(b) && b.Valid() && b.dec == dec && b.plan.pairs == pairs[..i]
      invariant |b.buffer| <= Bulk(pairs[..i]) && |b.restarts| <= 1 + i
    {
      assert pairs[..i + 1][..i] == pairs[..i];
      b.Add(pairs[i].key, pairs[i].value);
    }
    assert pairs[..|pairs|] == pairs;
    plan := b.plan;
    if |b.buffer| >= WORD || |b.restarts| >= WORD {
      return None, plan;
    }
    var bytes := b.Finish();
    data := Some(bytes);
  }

  /** A cursor over the bytes of a block. */
  method Cursor(data: Bytes, before: Order, ghost dec: Decoder, ghost plan: Plan) returns (it: Iter)
    requires IsDecoder(dec) && IsBlock(dec, data, plan)
    ensures fresh(it) && it.Valid() && it.plan == plan && it.before == before
  {
    var ok, restarts, numRestarts := Open(data);
    assert ok;
    it := new Iter(dec, data, plan, before, restarts, numRestarts);
  }

  method ScanBuilt(pairs: seq<Pair>, interval: nat, before: Order, ghost dec: Decoder) returns (r: Option<seq<Pair>>)
    requires interval >= 1 && IsDecoder(dec) && forall i :: 0 <= i < |pairs| ==> Small(pairs[i])
    ensures r.Some? ==> r.value == pairs
    ensures Bulk(pairs) < WORD ==> r.Some?
  {
    var data;
    ghost var plan;
    data, plan := Write(pairs, interval, dec);
    if data.None? {
      return None;
    }
    var it := Cursor(data.value, before, dec, plan);
    var all := Scan(it);
    r := Some(all);
  }

  /** The first entry at or after the target, found in the bytes. */
  method SeekIn(data: Bytes, before: Order, target: Bytes, ghost dec: Decoder, ghost plan: Plan)
    returns (p: Option<Pair>, ghost i: nat)
    requires IsDecoder(dec) && IsBlock(dec, data, plan) && Chains(before) && KeysAscend(plan, before)
    ensures i <= |plan.pairs| && p == (if i < |plan.pairs| then Some(plan.pairs[i]) else None)
    ensures forall j :: 0 <= j < i ==> before(plan.pairs[j].key, target)
    ensures i < |plan.pairs| ==> !before(plan.pairs[i].key, target)
  {
    var it := Cursor(data, before, dec, plan);
    it.Seek(target);
    p := it.Current();
    i := it.pos;
  }

  /** Entries whose sizes add up to less than 2^32 come back, with any restart interval. */
  method BuildThenScan(pairs: seq<Pair>, interval: nat, before: Order) returns (r: Option<seq<Pair>>)
    requires interval >= 1 && forall i :: 0 <= i < |pairs| ==> Small(pairs[i])
    ensures r.Some? ==> r.value == pairs
    ensures Bulk(pairs) < WORD ==> r.Some?
  {
    DecodeEntryIsDecoder();
    r := ScanBuilt(pairs, interval, before, DecodeEntry);
  }
}
