/** The two-level iterator over an index and its blocks. */
module TwoLevel {
  // An index cursor chooses a block, a data cursor walks it, and empty blocks are
  // skipped.  It moves as one cursor over the concatenation of the blocks.

  import opened Entries
  import opened Cursors

  /** The blocks in order, each with an index key at or after its own keys and
      before those of later blocks. */
  datatype Table = Table(blocks: seq<seq<Key>>, index: seq<Key>)

  ghost predicate TableOk(t: Table) {
    && |t.blocks| == |t.index| && Increasing(t.index)
    && (forall i :: 0 <= i < |t.blocks| ==> Increasing(t.blocks[i]))
    && (forall i, k :: 0 <= i < |t.blocks| && 0 <= k < |t.blocks[i]| ==> t.blocks[i][k] <= t.index[i])
    && (forall i, j, k :: 0 <= i < j < |t.blocks| && 0 <= k < |t.blocks[j]| ==> t.index[i] < t.blocks[j][k])
  }

  ghost function AllKeys(t: Table): set<Key> {
    set i, k | 0 <= i < |t.blocks| && 0 <= k < |t.blocks[i]| :: t.blocks[i][k]
  }

  ghost predicate BlockBelow(b: seq<Key>, cut: Cut) {
    forall k :: 0 <= k < |b| ==> Below(cut, b[k])
  }

  ghost predicate BlockAbove(b: seq<Key>, cut: Cut) {
    forall k :: 0 <= k < |b| ==> !Below(cut, b[k])
  }

  /** The cut falls in block `i`: earlier blocks are below it, later ones are not. */
  ghost predicate CutIn(t: Table, i: int, cut: Cut) {
    && (forall j :: 0 <= j < |t.blocks| && j < i ==> BlockBelow(t.blocks[j], cut))
    && (forall j :: 0 <= j < |t.blocks| && j > i ==> BlockAbove(t.blocks[j], cut))
  }

  lemma AheadEmpty(c: Child, cut: Cut)
    requires Ahead(c, cut)
    ensures !IsValid(c) ==> BlockBelow(c.keys, cut)
  {
    RankSplits(c.keys, cut);
  }

  lemma BehindEmpty(c: Child, cut: Cut)
    requires Behind(c, cut)
    ensures !IsValid(c) ==> BlockAbove(c.keys, cut)
  {
    RankSplits(c.keys, cut);
  }

  lemma FirstOfAbove(keys: seq<Key>, cut: Cut)
    requires Increasing(keys) && BlockAbove(keys, cut)
    ensures Ahead(ToFirst(Child(keys, None)), cut)
  {
    RankSplits(keys, cut);
    assert |keys| > 0 ==> !Below(cut, keys[0]);
  }

  lemma LastOfBelow(keys: seq<Key>, cut: Cut)
    requires Increasing(keys) && BlockBelow(keys, cut)
    ensures Behind(ToLast(Child(keys, None)), cut)
  {
    RankSplits(keys, cut);
    assert |keys| > 0 ==> Below(cut, keys[|keys| - 1]);
  }

  lemma FoundLeast(t: Table, i: nat, c: Child, cut: Cut)
    requires TableOk(t) && i < |t.blocks| && CutIn(t, i, cut) && c.keys == t.blocks[i] && Ahead(c, cut) && IsValid(c)
    ensures Least(AllKeys(t), cut, Some(KeyOfChild(c)))
  {
    AheadMeans(c, cut);
    var m := KeyOfChild(c);
    forall x | x in AllKeys(t) && !Below(cut, x) ensures m <= x {
      var j, k :| 0 <= j < |t.blocks| && 0 <= k < |t.blocks[j]| && t.blocks[j][k] == x;
      if j == i {
        assert x in Members(c.keys);
      } else {
        assert j > i ==> m <= t.index[i] < x;
      }
    }
  }

  lemma FoundGreatest(t: Table, i: nat, c: Child, cut: Cut)
    requires TableOk(t) && i < |t.blocks| && CutIn(t, i, cut) && c.keys == t.blocks[i] && Behind(c, cut) && IsValid(c)
    ensures Greatest(AllKeys(t), cut, Some(KeyOfChild(c)))
  {
    BehindMeans(c, cut);
    var m := KeyOfChild(c);
    forall x | x in AllKeys(t) && Below(cut, x) ensures x <= m {
      var j, k :| 0 <= j < |t.blocks| && 0 <= k < |t.blocks[j]| && t.blocks[j][k] == x;
      if j == i {
        assert x in Members(c.keys);
      } else {
        assert j < i ==> x <= t.index[j] < m;
      }
    }
  }

  class TwoLevelIterator {
    ghost const table: Table
    const blocks: seq<seq<Key>>
    var index: Child
    var data: Option<Child>
    var handle: nat

    /** The data cursor, if any, is over the block the index cursor stands on. */
    ghost predicate Aligned()
      reads this
    {
      && TableOk(table) && blocks == table.blocks && index.keys == table.index && ChildOk(index)
      && (data.Some? ==> index.at == Some(handle) && data.value.keys == blocks[handle] && ChildOk(data.value))
    }

    ghost predicate Valid()
      reads this
    {
      Aligned() && (data.Some? ==> IsValid(data.value))
    }

    ghost function Where(): Option<Key>
      requires Valid()
      reads this
    {
      if data.Some? then Some(KeyOfChild(data.value)) else None
    }

    constructor (table': Table)
      requires TableOk(table')
      ensures Valid() && Where() == None && table == table'
    {
      table, blocks := table', table'.blocks;
      index, data, handle := Child(table'.index, None), None, 0;
    }

    /** Open the block the index stands on, unless it is open already. */
    method InitDataBlock()
      requires TableOk(table) && blocks == table.blocks && index.keys == table.index && ChildOk(index)
      requires data.Some? ==> handle < |blocks| && data.value.keys == blocks[handle] && ChildOk(data.value)
      modifies this`data, this`handle
      ensures Aligned() && (data.Some? <==> IsValid(index))
    {
      if !IsValid(index) {
        data := None;
      } else if data.Some? && handle == index.at.value {
        assert data.value.keys == blocks[handle];
      } else {
        handle := index.at.value;
        data := Some(Child(blocks[handle], None));
      }
    }

    /** Where a search stands before empty blocks are skipped. */
    ghost predicate Searching(cut: Cut)
      reads this
    {
      && Aligned() && (data.Some? <==> IsValid(index))
      && CutIn(table, if index.at.Some? then index.at.value else |blocks|, cut)
      && (data.Some? ==> Ahead(data.value, cut))
    }

    ghost predicate SearchingBack(cut: Cut)
      reads this
    {
      && Aligned() && (data.Some? <==> IsValid(index))
      && CutIn(table, if index.at.Some? then index.at.value else -1, cut)
      && (data.Some? ==> Behind(data.value, cut))
    }

    /** One block further, from its start. */
    method NextBlock(ghost cut: Cut)
      requires Searching(cut) && data.Some? && !IsValid(data.value)
      modifies this
      ensures Searching(cut) && (data.Some? ==> index.at.value == old(index.at.value) + 1)
    {
      ghost var i := index.at.value;
      AheadEmpty(data.value, cut);
      index := Step(index);
      assert CutIn(table, i + 1, cut);
      InitDataBlock();
      if data.Some? {
        FirstOfAbove(blocks[handle], cut);
        data := Some(ToFirst(data.value));
      }
    }

    method SkipEmptyDataBlocksForward(ghost cut: Cut)
      requires Searching(cut)
      modifies this
      ensures Valid() && Least(AllKeys(table), cut, Where())
    {
      while data.None? || !IsValid(data.value)
        invariant Searching(cut)
        decreases if data.Some? then |blocks| - index.at.value else 0
      {
        if !IsValid(index) {
          data := None;
          return;
        }
        NextBlock(cut);
      }
      FoundLeast(table, handle, data.value, cut);
    }

    method PrevBlock(ghost cut: Cut)
      requires SearchingBack(cut) && data.Some? && !IsValid(data.value)
      modifies this
      ensures SearchingBack(cut) && (data.Some? ==> index.at.value == old(index.at.value) - 1)
    {
      ghost var i: int := index.at.value;
      BehindEmpty(data.value, cut);
      index := Back(index);
      assert CutIn(table, i - 1, cut);
      InitDataBlock();
      if data.Some? {
        LastOfBelow(blocks[handle], cut);
        data := Some(ToLast(data.value));
      }
    }

    method SkipEmptyDataBlocksBackward(ghost cut: Cut)
      requires SearchingBack(cut)
      modifies this
      ensures Valid() && Greatest(AllKeys(table), cut, Where())
    {
      while data.None? || !IsValid(data.value)
        invariant SearchingBack(cut)
        decreases if data.Some? then index.at.value + 1 else 0
      {
        if !IsValid(index) {
          data := None;
          return;
        }
        PrevBlock(cut);
      }
      FoundGreatest(table, handle, data.value, cut);
    }

    method Seek(target: Key)
      requires Valid()
      modifies this
      ensures Valid() && Least(AllKeys(table), Before(target), Where())
    {
      index := SeekTo(index, target);
      SeekCut(table, index, target);
      InitDataBlock();
      if data.Some? {
        data := Some(SeekTo(data.value, target));
      }
      SkipEmptyDataBlocksForward(Before(target));
    }

    method SeekToFirst()
      requires Valid()
      modifies this
      ensures Valid() && Least(AllKeys(table), Bottom, Where())
    {
      index := ToFirst(index);
      InitDataBlock();
      if data.Some? {
        FirstIsAhead(data.value);
        data := Some(ToFirst(data.value));
      }
      SkipEmptyDataBlocksForward(Bottom);
    }

    method SeekToLast()
      requires Valid()
      modifies this
      ensures Valid() && Greatest(AllKeys(table), Top, Where())
    {
      index := ToLast(index);
      InitDataBlock();
      if data.Some? {
        LastIsBehind(data.value);
        data := Some(ToLast(data.value));
      }
      SkipEmptyDataBlocksBackward(Top);
    }

    method Next()
      requires Valid() && Where().Some?
      modifies this
      ensures Valid() && Least(AllKeys(table), UpTo(old(Where()).value), Where())
    {
      ghost var k := Where().value;
      StepIsAhead(data.value);
      KeyCut(table, handle, data.value.at.value, k);
      data := Some(Step(data.value));
      SkipEmptyDataBlocksForward(UpTo(k));
    }

    method Prev()
      requires Valid() && Where().Some?
      modifies this
      ensures Valid() && Greatest(AllKeys(table), Before(old(Where()).value), Where())
    {
      ghost var k := Where().value;
      BackIsBehind(data.value);
      KeyCut(table, handle, data.value.at.value, k);
      data := Some(Back(data.value));
      SkipEmptyDataBlocksBackward(Before(k));
    }
  }

  /** The index seek lands on the block the target falls in. */
  lemma SeekCut(t: Table, index: Child, target: Key)
    requires TableOk(t) && index.keys == t.index && Ahead(index, Before(target))
    ensures CutIn(t, if index.at.Some? then index.at.value else |t.blocks|, Before(target))
  {
    RankSplits(t.index, Before(target));
    var i := if index.at.Some? then index.at.value else |t.blocks|;
    forall j | 0 <= j < |t.blocks| && j < i ensures BlockBelow(t.blocks[j], Before(target)) {
      assert Below(Before(target), t.index[j]);
    }
    forall j | 0 <= j < |t.blocks| && j > i ensures BlockAbove(t.blocks[j], Before(target)) {
      assert !Below(Before(target), t.index[i]);
    }
  }

  /** A key of a block cuts the table in that block. */
  lemma KeyCut(t: Table, i: nat, n: nat, k: Key)
    requires TableOk(t) && i < |t.blocks| && n < |t.blocks[i]| && k == t.blocks[i][n]
    ensures CutIn(t, i, UpTo(k)) && CutIn(t, i, Before(k))
  {
    forall j, m | 0 <= j < i && 0 <= m < |t.blocks[j]| ensures t.blocks[j][m] < k {
      assert t.blocks[j][m] <= t.index[j] < k;
    }
    forall j, m | i < j < |t.blocks| && 0 <= m < |t.blocks[j]| ensures t.blocks[j][m] > k {
      assert k <= t.index[i] < t.blocks[j][m];
    }
  }
}
