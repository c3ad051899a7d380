/** Reading a block: a cursor over prefix-compressed entries. */
module Block {
  // It seeks by binary search over the restart array and steps both ways.

  import opened Entries
  import opened Coding

  datatype Pair = Pair(key: Bytes, value: Bytes)

  /** Comparator::Compare(a, b) < 0. */
  type Order = (Bytes, Bytes) -> bool

  ghost predicate Chains(before: Order) {
    forall a, b, c :: before(a, b) && before(b, c) ==> before(a, c)
  }

  // ----- One entry -----

  function EntryHead(shared: nat, rest: nat, value: nat): Bytes {
    Varint(shared) + (Varint(rest) + Varint(value))
  }

  /** What the head of an entry says, and the bytes after it. */
  datatype Head = Head(shared: nat, rest: nat, value: nat, tail: Bytes)

  function SlowHead(s: Bytes): Option<Head> {
    match GetVarint32(s)
    case None => None
    case Some(a) =>
      match GetVarint32(a.1)
      case None => None
      case Some(b) =>
        match GetVarint32(b.1)
        case None => None
        case Some(c) => Some(Head(a.0, b.0, c.0, c.1))
  }

  /** DecodeEntry, with its fast path for three one-byte lengths. */
  function DecodeEntry(s: Bytes): (r: Option<Head>)
    ensures r.Some? ==> |r.value.tail| >= r.value.rest + r.value.value
  {
    if |s| < 3 then None
    else
      var h := if s[0] < 128 && s[1] < 128 && s[2] < 128 then Some(Head(s[0], s[1], s[2], s[3..])) else SlowHead(s);
      if h.Some? && |h.value.tail| < h.value.rest + h.value.value then None else h
  }

  lemma OneByte(s: Bytes)
    requires |s| > 0 && s[0] < 128
    ensures GetVarint32(s) == Some((s[0] as nat, s[1..]))
  {
  }

  /** The fast path agrees with the general one. */
  lemma FastIsSlow(s: Bytes)
    requires |s| >= 3 && s[0] < 128 && s[1] < 128 && s[2] < 128
    ensures SlowHead(s) == Some(Head(s[0], s[1], s[2], s[3..]))
  {
    OneByte(s);
    OneByte(s[1..]);
    OneByte(s[1..][1..]);
    assert s[1..][1..][1..] == s[3..];
  }

  lemma HeadShrinks(s: Bytes)
    ensures DecodeEntry(s).Some? ==> |DecodeEntry(s).value.tail| <= |s|
  {
    GetVarintShrinks(s, 5);
    if GetVarint32(s).Some? {
      var a := GetVarint32(s).value.1;
      GetVarintShrinks(a, 5);
      if GetVarint32(a).Some? {
        GetVarintShrinks(GetVarint32(a).value.1, 5);
      }
    }
  }

  lemma Nest(a: Bytes, b: Bytes, c: Bytes, d: Bytes)
    ensures a + (b + c) + d == a + (b + (c + d))
  {
  }

  lemma HeadRoundTrip(shared: nat, rest: nat, value: nat, tail: Bytes)
    requires shared < WORD && rest < WORD && value < WORD && |tail| >= rest + value
    ensures DecodeEntry(EntryHead(shared, rest, value) + tail) == Some(Head(shared, rest, value, tail))
  {
    var s := EntryHead(shared, rest, value) + tail;
    Nest(Varint(shared), Varint(rest), Varint(value), tail);
    Varint32RoundTrip(shared, Varint(rest) + (Varint(value) + tail));
    Varint32RoundTrip(rest, Varint(value) + tail);
    Varint32RoundTrip(value, tail);
    assert SlowHead(s) == Some(Head(shared, rest, value, tail));
    if s[0] < 128 && s[1] < 128 && s[2] < 128 {
      FastIsSlow(s);
    }
  }

  // ----- A whole block -----

  /** A block's contents: where each entry starts, how much of the previous key it
      shares, and which entries are restart points. */
  datatype Plan = Plan(pairs: seq<Pair>, offsets: seq<nat>, shared: seq<nat>, restarts: seq<nat>)

  predicate Small(p: Pair) {
    |p.key| < WORD && |p.value| < WORD
  }

  ghost predicate Counts(plan: Plan) {
    && |plan.offsets| == |plan.pairs| + 1 && |plan.shared| == |plan.pairs| && plan.offsets[0] == 0
    && (forall i :: 0 <= i < |plan.pairs| ==> Small(plan.pairs[i]) && plan.shared[i] <= |plan.pairs[i].key|)
    && (forall i, j :: 0 <= i < j <= |plan.pairs| ==> plan.offsets[i] < plan.offsets[j])
  }

  /** What entry `i` shares with its predecessor is the same in both keys. */
  ghost predicate Shares(plan: Plan)
    requires Counts(plan)
  {
    forall i :: 0 <= i < |plan.pairs| && plan.shared[i] > 0 ==>
      && i > 0 && plan.shared[i] <= |plan.pairs[i - 1].key|
      && plan.pairs[i].key[..plan.shared[i]] == plan.pairs[i - 1].key[..plan.shared[i]]
  }

  /** Restart points are entries in increasing order, the first one first, and
      share nothing. */
  ghost predicate Restarts(plan: Plan)
    requires Counts(plan)
  {
    && |plan.restarts| > 0 && plan.restarts[0] == 0
    && (forall j :: 0 < j < |plan.restarts| ==> plan.restarts[j] < |plan.pairs|)
    && (forall i, j :: 0 <= i < j < |plan.restarts| ==> plan.restarts[i] < plan.restarts[j])
    && (forall j :: 0 <= j < |plan.restarts| && plan.restarts[j] < |plan.pairs| ==> plan.shared[plan.restarts[j]] == 0)
  }

  ghost predicate PlanOk(plan: Plan) {
    Counts(plan) && Shares(plan) && Restarts(plan)
  }

  function Limit(plan: Plan): nat
    requires |plan.offsets| > 0
  {
    plan.offsets[|plan.offsets| - 1]
  }

  type Decoder = Bytes -> Option<Head>

  /** `dec` is DecodeEntry.  Kept behind a quantifier so that proofs about whole
      blocks do not look inside it. */
  ghost predicate IsDecodeEntry(dec: Decoder, lock: Lock) {
    dec == DecodeEntry
  }

  ghost predicate IsDecoder(dec: Decoder) {
    forall lock: Lock :: IsDecodeEntry(dec, lock)
  }

  /** DecodeEntry as the cursor calls it. */
  method Decode(s: Bytes, ghost dec: Decoder) returns (h: Option<Head>)
    requires IsDecoder(dec)
    ensures h == dec(s) && (h.Some? ==> |s| >= |h.value.tail| >= h.value.rest + h.value.value)
  {
    assert IsDecodeEntry(dec, Lock);
    HeadShrinks(s);
    h := DecodeEntry(s);
  }

  /** A head with the right lengths, then `rest`, then `value`. */
  ghost predicate Holds(dec: Decoder, data: Bytes, from: nat, to: nat, shared: nat, rest: Bytes, value: Bytes,
                        head: Bytes) {
    && from <= to <= |data| && data[from..to] == head + (rest + value)
    && HeadIs(dec, head, shared, |rest|, |value|)
  }

  ghost predicate HoldsEntry(dec: Decoder, data: Bytes, from: nat, to: nat, shared: nat, rest: Bytes, value: Bytes) {
    exists head :: Holds(dec, data, from, to, shared, rest, value, head)
  }

  ghost predicate EntryWritten(dec: Decoder, data: Bytes, from: nat, to: nat, shared: nat, p: Pair) {
    shared <= |p.key| && HoldsEntry(dec, data, from, to, shared, p.key[shared..], p.value)
  }

  ghost predicate WrittenAt(dec: Decoder, data: Bytes, plan: Plan, i: nat)
    requires PlanOk(plan) && i < |plan.pairs|
  {
    EntryWritten(dec, data, plan.offsets[i], plan.offsets[i + 1], plan.shared[i], plan.pairs[i])
  }

  /** The bytes of the block follow the plan. */
  ghost predicate Written(dec: Decoder, data: Bytes, plan: Plan)
    requires PlanOk(plan)
  {
    Limit(plan) <= |data| && forall i :: 0 <= i < |plan.pairs| ==> WrittenAt(dec, data, plan, i)
  }

  function RestartAt(data: Bytes, restarts: nat, j: nat): nat
    requires restarts + 4 * j + 4 <= |data|
  {
    WordAt(data, restarts + 4 * j)
  }

  /** The restart array holds the offsets of the restart points. */
  ghost predicate Indexed(data: Bytes, plan: Plan)
    requires PlanOk(plan)
  {
    && Limit(plan) + 4 * |plan.restarts| <= |data|
    && forall j :: 0 <= j < |plan.restarts| ==> RestartAt(data, Limit(plan), j) == plan.offsets[plan.restarts[j]]
  }

  ghost predicate BlockOk(dec: Decoder, data: Bytes, plan: Plan) {
    PlanOk(plan) && Written(dec, data, plan) && Indexed(data, plan)
  }

  ghost predicate KeysAscend(plan: Plan, before: Order) {
    forall i, j :: 0 <= i < j < |plan.pairs| ==> before(plan.pairs[i].key, plan.pairs[j].key)
  }

  /** `head` decodes to the given lengths, whatever follows it. */
  ghost predicate HeadIs(dec: Decoder, head: Bytes, shared: nat, rest: nat, value: nat) {
    forall tail :: Decodes(dec, head, shared, rest, value, tail)
  }

  ghost predicate Decodes(dec: Decoder, head: Bytes, shared: nat, rest: nat, value: nat, tail: Bytes) {
    |tail| >= rest + value ==> dec(head + tail) == Some(Head(shared, rest, value, tail))
  }

  lemma EntryHeadIs(dec: Decoder, shared: nat, rest: nat, value: nat)
    requires shared < WORD && rest < WORD && value < WORD
    requires IsDecoder(dec)
    ensures HeadIs(dec, EntryHead(shared, rest, value), shared, rest, value)
  {
    assert IsDecodeEntry(dec, Lock);
    forall tail: Bytes ensures Decodes(dec, EntryHead(shared, rest, value), shared, rest, value, tail) {
      if |tail| >= rest + value {
        HeadRoundTrip(shared, rest, value, tail);
      }
    }
  }

  /** Where the unshared part of an entry's key, and its value, lie, and what the
      entry's head says. */
  ghost predicate Located(dec: Decoder, data: Bytes, from: nat, to: nat, limit: nat, shared: nat, rest: Bytes,
                          value: Bytes) {
    var k := to - |rest| - |value|;
    && from <= k <= to <= limit <= |data|
    && dec(data[from..limit]) == Some(Head(shared, |rest|, |value|, data[k..limit]))
    && data[k..k + |rest|] == rest && data[k + |rest|..to] == value
  }

  /** Decoding at an entry finds its lengths, and its bytes end where it ends. */
  lemma DecodeAt(dec: Decoder, data: Bytes, from: nat, to: nat, limit: nat, shared: nat, rest: Bytes, value: Bytes)
    requires HoldsEntry(dec, data, from, to, shared, rest, value) && to <= limit <= |data|
    ensures Located(dec, data, from, to, limit, shared, rest, value)
  {
    var head :| Holds(dec, data, from, to, shared, rest, value, head);
    Slices(data, from, to, limit, head, rest, value);
    assert Decodes(dec, head, shared, |rest|, |value|, data[from + |head|..limit]);
  }

  lemma Slices(data: Bytes, from: nat, to: nat, limit: nat, head: Bytes, key: Bytes, value: Bytes)
    requires from <= to <= limit <= |data| && data[from..to] == head + (key + value)
    ensures var k := from + |head|;
            && k + |key| + |value| == to
            && data[from..limit] == head + data[k..limit]
            && data[k..k + |key|] == key && data[k + |key|..to] == value
  {
    var k := from + |head|;
    var s := data[from..to];
    assert s[..|head|] == head && s[|head|..] == key + value;
    assert data[from..k] == s[..|head|];
    assert data[k..to] == s[|head|..];
    assert data[from..limit] == data[from..k] + data[k..limit];
    assert data[k..k + |key|] == data[k..to][..|key|];
    assert data[k + |key|..to] == data[k..to][|key|..];
  }

  lemma EntryFacts(dec: Decoder, data: Bytes, plan: Plan, i: nat)
    requires BlockOk(dec, data, plan) && i < |plan.pairs|
    ensures var p, s := plan.pairs[i], plan.shared[i];
            Located(dec, data, plan.offsets[i], plan.offsets[i + 1], Limit(plan), s, p.key[s..], p.value)
  {
    var p, s := plan.pairs[i], plan.shared[i];
    assert WrittenAt(dec, data, plan, i);
    assert i + 1 < |plan.pairs| ==> plan.offsets[i + 1] < plan.offsets[|plan.pairs|];
    DecodeAt(dec, data, plan.offsets[i], plan.offsets[i + 1], Limit(plan), s, p.key[s..], p.value);
  }

  // ----- The cursor -----

  /** The bytes at `from` decode to an entry that shares no more than there is of the key before. */
  ghost predicate Readable(dec: Decoder, data: Bytes, from: nat, limit: nat, before: Bytes) {
    from < limit <= |data| && var h := dec(data[from..limit]); h.Some? && h.value.shared <= |before|
  }

  /** Then the key, and where the value is. */
  ghost predicate ReadsAs(dec: Decoder, data: Bytes, from: nat, limit: nat, before: Bytes, key: Bytes, start: nat,
                          end: nat) {
    && Readable(dec, data, from, limit, before)
    && var h := dec(data[from..limit]).value;
       var k := limit - |h.tail|;
       && 0 <= k <= k + h.rest + h.value <= limit
       && key == before[..h.shared] + data[k..k + h.rest] && start == k + h.rest && end == start + h.value
  }

  class Iter {
    const data: Bytes
    const restarts: nat
    const numRestarts: nat
    const before: Order
    ghost const dec: Decoder
    ghost const plan: Plan
    var current: nat
    var restartIndex: nat
    var key: Bytes
    var valueStart: nat
    var valueEnd: nat
    var corrupt: bool

    /** The position: an index into the entries, or their number at the end. */
    ghost var pos: nat

    ghost predicate OnBlock() {
      BlockOk(dec, data, plan) && IsDecoder(dec) && restarts == Limit(plan) && numRestarts == |plan.restarts|
    }

    /** Everything about entry `i` is in the fields. */
    ghost predicate On(i: nat)
      requires OnBlock() && i < |plan.pairs|
      reads this
    {
      && current == plan.offsets[i] && key == plan.pairs[i].key
      && valueStart <= valueEnd <= |data| && data[valueStart..valueEnd] == plan.pairs[i].value
      && valueEnd == plan.offsets[i + 1]
      && restartIndex < numRestarts && plan.restarts[restartIndex] <= i
    }

    ghost predicate Body(lock: Lock)
      reads this
    {
      && OnBlock() && !corrupt && pos <= |plan.pairs|
      && if pos < |plan.pairs| then On(pos) else current == restarts && restartIndex == numRestarts
    }

    ghost predicate Valid()
      reads this
    {
      pos <= |plan.pairs| && forall lock: Lock :: Body(lock)
    }

    lemma OnEntry()
      requires Valid() && pos < |plan.pairs|
      ensures key == plan.pairs[pos].key && current < restarts
      ensures |plan.offsets| == |plan.pairs| + 1 && valueEnd == plan.offsets[pos + 1]
      ensures valueEnd < restarts <==> pos + 1 < |plan.pairs|
    {
      assert Body(Lock);
      LastOffset(plan, pos);
      LastOffset(plan, pos + 1);
    }

    /** The next entry to parse is `i`, and enough of the previous key is there. */
    ghost predicate Ready(i: nat)
      requires OnBlock()
      reads this
    {
      && i <= |plan.pairs| && valueEnd == plan.offsets[i] && !corrupt
      && restartIndex < numRestarts && plan.restarts[restartIndex] <= i
      && (i < |plan.pairs| ==> plan.shared[i] <= |key| && key[..plan.shared[i]] == plan.pairs[i].key[..plan.shared[i]])
    }

    constructor (ghost dec': Decoder, data': Bytes, ghost plan': Plan, before': Order, restarts': nat,
                 numRestarts': nat)
      requires BlockOk(dec', data', plan') && IsDecoder(dec')
      requires restarts' == Limit(plan') && numRestarts' == |plan'.restarts|
      ensures Valid() && pos == |plan.pairs| && data == data' && plan == plan' && before == before'
    {
      data, before, restarts, numRestarts := data', before', restarts', numRestarts';
      dec, plan := dec', plan';
      current, restartIndex := restarts', numRestarts';
      key, valueStart, valueEnd, corrupt := [], 0, 0, false;
      pos := |plan'.pairs|;
    }

    /** Valid(), key() and value() of the cursor. */
    method Current() returns (p: Option<Pair>)
      requires Valid()
      ensures p == if pos < |plan.pairs| then Some(plan.pairs[pos]) else None
    {
      assert Body(Lock);
      LastOffset(plan, pos);
      if current < restarts {
        p := Some(Pair(key, data[valueStart..valueEnd]));
      } else {
        p := None;
      }
    }

    /** A restart point comes before an entry exactly when its offset does. */
    lemma RestartBefore(j: nat, i: nat)
      requires OnBlock() && j < numRestarts && i < |plan.pairs|
      ensures restarts + 4 * j + 4 <= |data| && RestartAt(data, restarts, j) == plan.offsets[plan.restarts[j]]
      ensures RestartAt(data, restarts, j) < plan.offsets[i] <==> plan.restarts[j] < i
    {
    }

    method SeekToRestartPoint(j: nat)
      requires OnBlock() && !corrupt && j < numRestarts
      modifies this`key, this`restartIndex, this`valueStart, this`valueEnd
      ensures Ready(plan.restarts[j]) && restartIndex == j && key == []
    {
      assert RestartAt(data, restarts, j) == plan.offsets[plan.restarts[j]];
      key := [];
      restartIndex := j;
      valueStart := RestartAt(data, restarts, j);
      valueEnd := valueStart;
    }

    method CorruptionError()
      modifies this
      ensures current == restarts && restartIndex == numRestarts && corrupt && key == []
      ensures valueStart == valueEnd == 0 && pos == old(pos)
    {
      current, restartIndex, corrupt, key := restarts, numRestarts, true, [];
      valueStart, valueEnd := 0, 0;
    }

    /** Decode the entry at `current` and rebuild its key from the previous one. */
    method TakeEntry() returns (ok: bool)
      requires IsDecoder(dec) && current < restarts <= |data|
      modifies this
      ensures ok == Readable(dec, data, old(current), restarts, old(key)) && pos == old(pos)
      ensures !ok ==> corrupt && current == restarts && restartIndex == numRestarts && key == []
      ensures ok ==>
                && ReadsAs(dec, data, old(current), restarts, old(key), key, valueStart, valueEnd)
                && current == old(current) && restartIndex == old(restartIndex) && corrupt == old(corrupt)
    {
      var h := Decode(data[current..restarts], dec);
      if h.None? || |key| < h.value.shared {
        CorruptionError();
        return false;
      }
      var k := restarts - |h.value.tail|;
      key := key[..h.value.shared] + data[k..k + h.value.rest];
      valueStart := k + h.value.rest;
      valueEnd := valueStart + h.value.value;
      ok := true;
    }

    /** On a block that follows its plan, the next entry is taken whole. */
    lemma TakePlanned(i: nat)
      requires OnBlock() && i < |plan.pairs| && Ready(i) && valueEnd == plan.offsets[i] < restarts
      ensures Readable(dec, data, valueEnd, restarts, key)
      ensures forall k, start: nat, end: nat :: ReadsAs(dec, data, valueEnd, restarts, key, k, start, end) ==>
                && k == plan.pairs[i].key && start <= end <= |data|
                && data[start..end] == plan.pairs[i].value && end == plan.offsets[i + 1]
    {
      EntryFacts(dec, data, plan, i);
      KeyParts(plan.pairs[i].key, plan.shared[i]);
    }

    /** ParseNextKey.  On any bytes: past the last entry the cursor is invalid; an entry that cannot be
        decoded, or that shares more than there is of the key before, makes it invalid and the
        block corrupt; any other is read as it stands.  On a block that follows its plan, the
        entry is read whole, and never found corrupt. */
    method ParseNextKey(ghost i: Option<nat>) returns (ok: bool)
      requires IsDecoder(dec) && restarts + 4 * numRestarts <= |data|
      requires i.Some? ==> OnBlock() && Ready(i.value)
      modifies this
      ensures i.Some? ==> Valid() && pos == i.value && ok == (i.value < |plan.pairs|)
      ensures ok == Readable(dec, data, old(valueEnd), restarts, old(key))
      ensures ok ==>
                && ReadsAs(dec, data, old(valueEnd), restarts, old(key), key, valueStart, valueEnd)
                && current == old(valueEnd) && corrupt == old(corrupt)
      ensures !ok ==>
                && current == restarts && restartIndex == numRestarts
                && corrupt == (old(corrupt) || old(valueEnd) < restarts)
    {
      if i.Some? {
        LastOffset(plan, i.value);
        if i.value < |plan.pairs| {
          TakePlanned(i.value);
        }
      }
      current := valueEnd;
      if i.Some? {
        pos := i.value;
      }
      if current >= restarts {
        current, restartIndex := restarts, numRestarts;
        return false;
      }
      ok := TakeEntry();
      if !ok {
        return;
      }
      AdvanceRestart(i);
    }

    method AdvanceRestart(ghost i: Option<nat>)
      requires restarts + 4 * numRestarts <= |data|
      requires i.Some? ==> OnBlock() && !corrupt && i.value < |plan.pairs| && On(i.value)
      modifies this`restartIndex
      ensures i.Some? ==> On(i.value)
    {
      while restartIndex + 1 < numRestarts && RestartAt(data, restarts, restartIndex + 1) < current
        invariant i.Some? ==> On(i.value)
        decreases numRestarts - restartIndex
      {
        if i.Some? {
          RestartBefore(restartIndex + 1, i.value);
        }
        restartIndex := restartIndex + 1;
      }
    }

    /** ParseNextKey from an entry: the next one, if there is one. */
    method Advance() returns (ok: bool)
      requires Valid() && pos < |plan.pairs|
      modifies this
      ensures Valid() && pos == old(pos) + 1 && ok == (pos < |plan.pairs|)
    {
      assert Body(Lock);
      SharesNext(plan, pos);
      ok := ParseNextKey(Some(pos + 1));
    }

    method Next()
      requires Valid() && pos < |plan.pairs|
      modifies this
      ensures Valid() && pos == old(pos) + 1
    {
      var ok := Advance();
    }

    method SeekToFirst()
      requires Valid()
      modifies this
      ensures Valid() && pos == 0
    {
      assert Body(Lock);
      SeekToRestartPoint(0);
      var ok := ParseNextKey(Some(0));
    }

    /** Skip forward while the current entry ends before `stop`. */
    method ScanUpTo(stop: nat, ghost from: nat, ghost last: nat)
      requires OnBlock() && Ready(from) && from <= last < |plan.pairs| && stop == plan.offsets[last + 1]
      modifies this
      ensures Valid() && pos == last
    {
      var ok := ParseNextKey(Some(from));
      while ok && valueEnd < stop
        invariant Valid() && ok && from <= pos <= last
        decreases last - pos
      {
        OnEntry();
        ok := Advance();
      }
      OnEntry();
    }

    /** SeekToLast: from the last restart point, skip to the entry that ends where
        the restart array starts. */
    method SeekToLast()
      requires Valid()
      modifies this
      ensures Valid() && pos == (if |plan.pairs| == 0 then 0 else |plan.pairs| - 1)
    {
      assert Body(Lock);
      LastRestart(plan);
      SeekToRestartPoint(numRestarts - 1);
      var ok := ParseNextKey(Some(plan.restarts[numRestarts - 1]));
      while ok && valueEnd < restarts
        invariant Valid() && ok == (pos < |plan.pairs|) && (ok || |plan.pairs| == 0)
        decreases |plan.pairs| - pos
      {
        OnEntry();
        ok := Advance();
      }
      if ok {
        OnEntry();
      }
    }

    /** Prev: back to a restart point before the entry, then forward to the one
        just before it. */
    method Prev()
      requires Valid() && pos < |plan.pairs|
      modifies this
      ensures Valid() && pos == (if old(pos) == 0 then |plan.pairs| else old(pos) - 1)
    {
      assert Body(Lock);
      var original := current;
      ghost var i := pos;
      RestartBefore(restartIndex, i);
      while RestartAt(data, restarts, restartIndex) >= original
        invariant OnBlock() && !corrupt && pos == i && restartIndex < numRestarts && plan.restarts[restartIndex] <= i
        invariant restarts + 4 * restartIndex + 4 <= |data|
        decreases restartIndex
      {
        RestartBefore(restartIndex, i);
        if restartIndex == 0 {
          current, restartIndex := restarts, numRestarts;
          pos := |plan.pairs|;
          return;
        }
        restartIndex := restartIndex - 1;
        RestartBefore(restartIndex, i);
      }
      RestartBefore(restartIndex, i);
      SeekToRestartPoint(restartIndex);
      ScanUpTo(original, plan.restarts[restartIndex], i - 1);
    }

    /** The restart array lies within the block. */
    predicate InBounds() {
      restarts + 4 * numRestarts <= |data| && numRestarts > 0
    }

    lemma Planned(j: nat)
      requires OnBlock() && 0 < j < numRestarts
      ensures var i := plan.restarts[j];
              && i < |plan.pairs| && InBounds() && RestartAt(data, restarts, j) == plan.offsets[i] <= restarts
              && Located(dec, data, plan.offsets[i], plan.offsets[i + 1], restarts, 0, plan.pairs[i].key,
                         plan.pairs[i].value)
    {
      var i := plan.restarts[j];
      EntryFacts(dec, data, plan, i);
      LastOffset(plan, i);
      assert plan.pairs[i].key[0..] == plan.pairs[i].key;
    }

    /** The key of a restart point, read without moving the cursor; a restart
        point that does not decode, or shares bytes, is an error. */
    method RestartKey(j: nat) returns (ok: bool, k: Bytes)
      requires IsDecoder(dec) && InBounds() && j < numRestarts
      ensures OnBlock() && j > 0 ==> ok && k == plan.pairs[plan.restarts[j]].key
    {
      if OnBlock() && j > 0 {
        Planned(j);
      }
      var offset := RestartAt(data, restarts, j);
      if offset > restarts {
        return false, [];
      }
      var h := Decode(data[offset..restarts], dec);
      if h.None? || h.value.shared != 0 {
        return false, [];
      }
      k := h.value.tail[..h.value.rest];
      ok := true;
    }

    /** The restart point is the first one or is below the target. */
    ghost predicate Below(target: Bytes, left: nat)
      requires OnBlock() && left < numRestarts
    {
      left > 0 ==> before(plan.pairs[plan.restarts[left]].key, target)
    }

    /** The binary search of Seek: a restart point from which the target can be
        reached by walking forward. */
    method FindRestart(target: Bytes) returns (ok: bool, left: nat)
      requires IsDecoder(dec) && InBounds()
      modifies this
      ensures ok ==> left < numRestarts && unchanged(this)
      ensures !ok ==> corrupt && current == restarts
      ensures OnBlock() ==> ok && Below(target, left)
    {
      left := 0;
      var right: nat := numRestarts - 1;
      ok := true;
      while left < right
        invariant left <= right < numRestarts && ok && unchanged(this)
        invariant OnBlock() ==> Below(target, left)
        decreases right - left
      {
        var mid := (left + right + 1) / 2;
        var good, k := RestartKey(mid);
        if !good {
          CorruptionError();
          return false, left;
        }
        if before(k, target) {
          left := mid;
        } else {
          right := mid - 1;
        }
      }
    }

    ghost predicate AllBelow(target: Bytes, i: nat) {
      i <= |plan.pairs| && forall j :: 0 <= j < i ==> before(plan.pairs[j].key, target)
    }

    lemma RestartAllBelow(target: Bytes, left: nat)
      requires OnBlock() && Chains(before) && KeysAscend(plan, before) && left < numRestarts && Below(target, left)
      ensures AllBelow(target, plan.restarts[left])
    {
      var i := plan.restarts[left];
      assert left > 0 ==> forall j :: 0 <= j < i ==> before(plan.pairs[j].key, plan.pairs[i].key);
    }

    /** Walk forward to the first entry at or after the target. */
    method ScanTo(target: Bytes, ghost from: nat)
      requires OnBlock() && Ready(from) && AllBelow(target, from)
      modifies this
      ensures Valid() && AllBelow(target, pos) && (pos < |plan.pairs| ==> !before(plan.pairs[pos].key, target))
    {
      var ok := ParseNextKey(Some(from));
      while ok && before(key, target)
        invariant Valid() && AllBelow(target, pos) && ok == (pos < |plan.pairs|)
        decreases |plan.pairs| - pos
      {
        OnEntry();
        ok := Advance();
      }
      if ok {
        OnEntry();
      }
    }

    /** Seek: lands on the first entry at or after the target. */
    method Seek(target: Bytes)
      requires Valid() && Chains(before) && KeysAscend(plan, before)
      modifies this
      ensures Valid() && AllBelow(target, pos) && (pos < |plan.pairs| ==> !before(plan.pairs[pos].key, target))
    {
      assert Body(Lock);
      var found, left := FindRestart(target);
      if !found {
        return;
      }
      RestartAllBelow(target, left);
      SeekToRestartPoint(left);
      ScanTo(target, plan.restarts[left]);
    }
  }

  lemma KeyParts(key: Bytes, s: nat)
    requires s <= |key|
    ensures key[..s] + key[s..] == key
  {
  }

  lemma LastOffset(plan: Plan, i: nat)
    requires PlanOk(plan) && i <= |plan.pairs|
    ensures plan.offsets[i] >= Limit(plan) <==> i == |plan.pairs|
  {
  }

  lemma LastRestart(plan: Plan)
    requires PlanOk(plan)
    ensures var i := plan.restarts[|plan.restarts| - 1]; i < |plan.pairs| || |plan.pairs| == 0 == i
  {
  }

  lemma SharesNext(plan: Plan, i: nat)
    requires PlanOk(plan) && i < |plan.pairs|
    ensures i + 1 < |plan.pairs| ==>
              plan.shared[i + 1] <= |plan.pairs[i].key|
              && plan.pairs[i].key[..plan.shared[i + 1]] == plan.pairs[i + 1].key[..plan.shared[i + 1]]
  {
    if i + 1 < |plan.pairs| && plan.shared[i + 1] == 0 {
      assert plan.pairs[i].key[..0] == plan.pairs[i + 1].key[..0];
    }
  }
}
