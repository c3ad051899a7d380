/** DBImpl::Get and Version::Get. */
module Reading {
  // The search that a reader runs without the mutex, over the memtables and the file
  // lists it picked up under it.

  import opened Entries
  import opened Lsm
  import opened LsmSteps
  import opened Version
  import opened Picking
  import LC = LsmCompaction
  import LsmReads

  // ----- One sorted run of entries -----

  /** Index of the first entry at or after `key` in a sorted run. */
  function Seek(es: seq<Entry>, key: IKey): (i: nat)
    requires Sorted(es)
    ensures i <= |es|
    ensures forall j :: 0 <= j < i ==> Less(KeyOf(es[j]), key)
    ensures forall j :: i <= j < |es| ==> !Less(KeyOf(es[j]), key)
    decreases |es|
  {
    if |es| == 0 then 0
    else
      var n := |es| - 1;
      if Less(KeyOf(es[n]), key) then
        assert forall j :: 0 <= j < n ==> Before(es[j], es[n]);
        |es|
      else
        Seek(es[..n], key)
  }

  /** The entry a run yields for `u` at `s`: what follows the seek key, if it is of `u`. */
  function RunGet(es: seq<Entry>, u: UserKey, s: nat): (r: Option<Entry>)
    requires Sorted(es)
    ensures r.Some? ==> IsNewest(Elems(es), u, s, r.value)
    ensures r.None? ==> forall e :: !Seen(Elems(es), u, s, e)
  {
    var i := Seek(es, SeekKey(u, s));
    assert forall j :: 0 <= j < i && es[j].user == u ==> es[j].sn > s;
    if i < |es| && es[i].user == u then
      assert Seen(Elems(es), u, s, es[i]);
      assert forall j :: i < j < |es| && es[j].user == u ==> Before(es[i], es[j]);
      Some(es[i])
    else
      assert forall j :: i < j < |es| ==> Before(es[i], es[j]);
      None
  }

  // ----- Level 0 -----

  predicate NewestFirst(files: seq<File>) {
    forall i, j :: 0 <= i < j < |files| ==> files[i].number > files[j].number
  }

  /** Inserts `f` into a list ordered by falling file number. */
  method InsertByNumber(files: seq<File>, f: File) returns (r: seq<File>)
    requires NewestFirst(files) && forall i :: 0 <= i < |files| ==> files[i].number != f.number
    ensures NewestFirst(r) && |r| == |files| + 1
    ensures forall g :: g in r <==> g in files || g == f
  {
    var k := 0;
    while k < |files| && files[k].number > f.number
      invariant k <= |files|
      invariant forall i :: 0 <= i < k ==> files[i].number > f.number
    {
      k := k + 1;
    }
    r := files[..k] + [f] + files[k..];
    forall g ensures g in r <==> g in files || g == f {
      assert files == files[..k] + files[k..];
    }
  }

  ghost predicate DistinctNumbers(files: seq<File>) {
    forall i, j :: 0 <= i < j < |files| ==> files[i].number != files[j].number
  }

  /** The level-0 files whose range covers `u`, newest first. */
  method Candidates(files: seq<File>, u: UserKey) returns (tmp: seq<File>)
    requires DistinctNumbers(files)
    ensures NewestFirst(tmp)
    ensures forall f :: f in tmp <==> f in files && Covers(f, u)
  {
    tmp := [];
    for i := 0 to |files|
      invariant NewestFirst(tmp)
      invariant forall f :: f in tmp <==> f in files[..i] && Covers(f, u)
    {
      assert files[..i + 1] == files[..i] + [files[i]];
      if Lo(files[i]) <= u <= Hi(files[i]) {
        forall k | 0 <= k < |tmp| ensures tmp[k].number != files[i].number {
          assert tmp[k] in files[..i];
          var j :| 0 <= j < i && files[j] == tmp[k];
        }
        tmp := InsertByNumber(tmp, files[i]);
      }
    }
    assert files[..|files|] == files;
  }

  // ----- A whole version -----

  /** Lists that a read at or above `floor` may search. */
  ghost predicate SearchableLists(lists: Lists, floor: nat) {
    && ListsOk(lists)
    && DistinctNumbers(lists[0])
    && Recency(LevelsOf(lists), floor)
    && ZeroOrdered(LevelsOf(lists))
  }

  /** No entry of level `l` is visible. */
  ghost predicate Blind(lists: Lists, l: nat, u: UserKey, s: nat)
    requires l < |lists|
  {
    forall i, e :: 0 <= i < |lists[l]| && e in lists[l][i].entries ==> !(e.user == u && e.sn <= s)
  }

  /** Nothing below the level where `e` was found beats it. */
  lemma FoundIsNewest(lists: Lists, l: nat, k: nat, e: Entry, u: UserKey, s: nat, floor: nat)
    requires SearchableLists(lists, floor) && floor <= s && l < |lists| && k < |lists[l]|
    requires IsNewest(Elems(lists[l][k].entries), u, s, e)
    requires forall m :: 0 <= m < l ==> Blind(lists, m, u, s)
    requires forall i, x :: 0 <= i < |lists[l]| && x in lists[l][i].entries && x.user == u && x.sn <= s ==> x.sn <= e.sn
    ensures IsNewest(Tables(LevelsOf(lists)), u, s, e)
  {
    var levels := LevelsOf(lists);
    assert levels[l] == SetOf(lists[l]) && lists[l][k] in lists[l];
    assert Seen(Elems(lists[l][k].entries), u, s, e);
    assert Holds(levels, l, lists[l][k], e);
    LC.InTables(levels, e);
    forall x | Seen(Tables(levels), u, s, x) ensures x.sn <= e.sn {
      LC.InTables(levels, x);
      var m: nat, g :| Holds(levels, m, g, x);
      NotHidden(lists, l, e, x, u, s, floor);
      var i :| 0 <= i < |lists[m]| && lists[m][i] == g;
      assert m < l ==> Blind(lists, m, u, s);
    }
  }

  /** Nothing newer than `e` that the read would see lies where the search has been. */
  lemma NotHidden(lists: Lists, l: nat, e: Entry, x: Entry, u: UserKey, s: nat, floor: nat)
    requires ListsOk(lists) && l < |lists| && floor <= s && x.user == u
    requires forall m :: 0 <= m < l ==> Blind(lists, m, u, s)
    requires forall i, x :: 0 <= i < |lists[l]| && x in lists[l][i].entries && x.user == u && x.sn <= s ==> x.sn <= e.sn
    ensures Hidden(LevelsOf(lists), floor, l, x) ==> x.sn <= e.sn
  {
    var levels := LevelsOf(lists);
    if m: nat, g, z :| Holds(levels, m, g, z) && m <= l && Beats(z, x, floor) {
      var i :| 0 <= i < |lists[m]| && lists[m][i] == g;
      assert m < l ==> Blind(lists, m, u, s);
    }
  }

  lemma AllBlind(lists: Lists, u: UserKey, s: nat)
    requires forall m :: 0 <= m < |lists| ==> Blind(lists, m, u, s)
    ensures forall e :: !Seen(Tables(LevelsOf(lists)), u, s, e)
  {
    var levels := LevelsOf(lists);
    forall e | e in Tables(levels) && e.user == u ensures e.sn > s {
      LC.InTables(levels, e);
      var m: nat, g :| Holds(levels, m, g, e);
      var i :| 0 <= i < |lists[m]| && lists[m][i] == g;
      assert Blind(lists, m, u, s);
    }
  }

  /** Searches level 0: every file over `u`, newest first, until one knows the key. */
  method GetFromZero(lists: Lists, u: UserKey, s: nat, ghost floor: nat) returns (r: Option<Entry>)
    requires SearchableLists(lists, floor) && floor <= s
    ensures r.Some? ==> IsNewest(Tables(LevelsOf(lists)), u, s, r.value)
    ensures r.None? ==> Blind(lists, 0, u, s)
  {
    var tmp := Candidates(lists[0], u);
    for i := 0 to |tmp|
      invariant Missed(tmp[..i], u, s)
    {
      ghost var k := IndexOf(lists[0], tmp[i]);
      r := RunGet(tmp[i].entries, u, s);
      if r.Some? {
        ZeroFound(lists, tmp, i, k, r.value, u, s, floor);
        return;
      }
      MissedOne(tmp, i, u, s);
    }
    r := None;
    assert tmp[..|tmp|] == tmp;
    ZeroMissed(lists, tmp, u, s);
  }

  ghost predicate Missed(files: seq<File>, u: UserKey, s: nat) {
    forall j, e :: 0 <= j < |files| && e in files[j].entries ==> !(e.user == u && e.sn <= s)
  }

  lemma MissedOne(tmp: seq<File>, i: nat, u: UserKey, s: nat)
    requires i < |tmp| && Missed(tmp[..i], u, s) && forall e :: !Seen(Elems(tmp[i].entries), u, s, e)
    ensures Missed(tmp[..i + 1], u, s)
  {
    var more := tmp[..i + 1];
    forall j, e | 0 <= j < |more| && e in more[j].entries ensures !(e.user == u && e.sn <= s) {
      if j < i {
        assert tmp[..i][j] == tmp[j];
      } else {
        assert !Seen(Elems(tmp[i].entries), u, s, e);
      }
    }
  }

  lemma ZeroMissed(lists: Lists, tmp: seq<File>, u: UserKey, s: nat)
    requires ListsOk(lists) && Missed(tmp, u, s) && forall f :: f in tmp <==> f in lists[0] && Covers(f, u)
    ensures Blind(lists, 0, u, s)
  {
    forall i, e | 0 <= i < |lists[0]| && e in lists[0][i].entries ensures !(e.user == u && e.sn <= s) {
      if e.user == u {
        EntriesAreCovered(lists[0][i], e);
        assert lists[0][i] in tmp;
      }
    }
  }

  lemma IndexOf(files: seq<File>, f: File) returns (k: nat)
    requires f in files
    ensures k < |files| && files[k] == f
  {
    k :| 0 <= k < |files| && files[k] == f;
  }

  /** Files behind the one that answers hold nothing newer. */
  lemma ZeroOlder(lists: Lists, tmp: seq<File>, i: nat, e: Entry, u: UserKey, s: nat, n: nat, x: Entry)
    requires ListsOk(lists) && ZeroOrdered(LevelsOf(lists)) && NewestFirst(tmp)
    requires forall f :: f in tmp <==> f in lists[0] && Covers(f, u)
    requires i < |tmp| && IsNewest(Elems(tmp[i].entries), u, s, e) && Missed(tmp[..i], u, s)
    requires n < |lists[0]| && x in lists[0][n].entries && x.user == u && x.sn <= s
    ensures x.sn <= e.sn
  {
    var levels := LevelsOf(lists);
    assert levels[0] == SetOf(lists[0]);
    assert Seen(Elems(tmp[i].entries), u, s, e);
    assert Holds(levels, 0, tmp[i], e);
    assert forall j :: 0 <= j < i ==> tmp[..i][j] == tmp[j];
    EntriesAreCovered(lists[0][n], x);
    assert lists[0][n] in tmp;
    var j :| 0 <= j < |tmp| && tmp[j] == lists[0][n];
    assert Holds(levels, 0, tmp[j], x);
    if j == i {
      assert Seen(Elems(tmp[i].entries), u, s, x);
    }
  }

  lemma ZeroFound(lists: Lists, tmp: seq<File>, i: nat, k: nat, e: Entry, u: UserKey, s: nat, floor: nat)
    requires SearchableLists(lists, floor) && floor <= s && NewestFirst(tmp)
    requires forall f :: f in tmp <==> f in lists[0] && Covers(f, u)
    requires i < |tmp| && k < |lists[0]| && lists[0][k] == tmp[i] && IsNewest(Elems(tmp[i].entries), u, s, e)
    requires Missed(tmp[..i], u, s)
    ensures IsNewest(Tables(LevelsOf(lists)), u, s, e)
  {
    var levels := LevelsOf(lists);
    assert levels[0] == SetOf(lists[0]);
    assert Seen(Elems(tmp[i].entries), u, s, e);
    assert Holds(levels, 0, tmp[i], e);
    forall n, x | 0 <= n < |lists[0]| && x in lists[0][n].entries && x.user == u && x.sn <= s ensures x.sn <= e.sn {
      ZeroOlder(lists, tmp, i, e, u, s, n, x);
    }
    FoundIsNewest(lists, 0, k, e, u, s, floor);
  }

  /** Searches a deeper level: of the files that can hold the key, the one that holds
      its newest visible version. */
  method GetFromDeep(lists: Lists, level: nat, u: UserKey, s: nat, ghost floor: nat) returns (r: Option<Entry>)
    requires SearchableLists(lists, floor) && floor <= s && 0 < level < NUM_LEVELS
    requires forall m :: 0 <= m < level ==> Blind(lists, m, u, s)
    ensures r.Some? ==> IsNewest(Tables(LevelsOf(lists)), u, s, r.value)
    ensures r.None? ==> Blind(lists, level, u, s)
  {
    var files := lists[level];
    InOrderAscends(files);
    var index := FindFile(files, SeekKey(u, s));
    r := None;
    if index < |files| && !(u < Lo(files[index])) {
      r := RunGet(files[index].entries, u, s);
    }
    forall i, x | 0 <= i < |files| && x in files[i].entries && x.user == u && x.sn <= s
      ensures r.Some? && x.sn <= r.value.sn
    {
      OnlyHere(files, index, u, s, i, x, r);
    }
    if r.Some? {
      FoundIsNewest(lists, level, index, r.value, u, s, floor);
    }
  }

  /** Below level 0 the file FindFile returns shows the newest version of `u` at `s`, though
      older versions may follow in later files. */
  lemma OnlyHere(files: seq<File>, index: nat, u: UserKey, s: nat, i: nat, x: Entry, r: Option<Entry>)
    requires InKeyOrder(files) && index <= |files|
    requires forall i :: 0 <= i < index ==> Less(Largest(files[i]), SeekKey(u, s))
    requires forall i :: index <= i < |files| ==> !Less(Largest(files[i]), SeekKey(u, s))
    requires i < |files| && x in files[i].entries && x.user == u && x.sn <= s
    requires r == if index < |files| && !(u < Lo(files[index])) then RunGet(files[index].entries, u, s) else None
    ensures r.Some? && x.sn <= r.value.sn
  {
    EndsAreExtreme(files[i], x);
    assert index <= i;
    var f := files[index];
    var last := f.entries[|f.entries| - 1];
    assert last in f.entries;
    EndsAreExtreme(f, f.entries[0]);
    assert index < i ==> last.user == u && x.sn <= last.sn <= s;
    EntriesAreCovered(files[i], x);
    EntriesAreCovered(f, last);
    var y := if index < i then last else x;
    assert Seen(Elems(f.entries), u, s, y);
  }

  /** Version::Get: level by level, stopping at the first entry found. */
  method VersionGet(lists: Lists, u: UserKey, s: nat, ghost floor: nat) returns (r: Option<Entry>)
    requires SearchableLists(lists, floor) && floor <= s
    ensures r.Some? ==> IsNewest(Tables(LevelsOf(lists)), u, s, r.value)
    ensures r.None? ==> forall e :: !Seen(Tables(LevelsOf(lists)), u, s, e)
  {
    r := GetFromZero(lists, u, s, floor);
    if r.Some? {
      return;
    }
    var level := 1;
    while level < NUM_LEVELS
      invariant 0 < level <= NUM_LEVELS
      invariant forall m :: 0 <= m < level ==> Blind(lists, m, u, s)
      invariant r.None?
    {
      r := GetFromDeep(lists, level, u, s, floor);
      if r.Some? {
        return;
      }
      level := level + 1;
    }
    AllBlind(lists, u, s);
  }

  // ----- The database -----

  /** What Get takes hold of under the mutex.  The memtable may keep growing
      while the reader runs without it. */
  datatype View = View(mem: seq<Entry>, imm: Option<seq<Entry>>, lists: Lists)

  ghost predicate Captured(v: View, st: State) {
    && Sorted(v.mem)
    && (forall e :: e in st.mem ==> e in v.mem)
    && (forall e :: e in v.mem ==> e in st.mem || e.sn > st.applied)
    && (v.imm.Some? <==> st.imm.Some?)
    && (v.imm.Some? ==> Sorted(v.imm.value) && Elems(v.imm.value) == st.imm.value)
    && ListsOk(v.lists) && LevelsOf(v.lists) == st.levels && DistinctNumbers(v.lists[0])
  }

  lemma MemDecides(st: State, v: View, u: UserKey, s: nat, e: Entry)
    requires ViewInv(st) && Captured(v, st) && s <= st.applied && IsNewest(Elems(v.mem), u, s, e)
    ensures IsNewest(Tables(st.levels) + Span(st.spec.history, st.spec.flushed, st.applied), u, s, e)
  {
    OpenView(st);
    var all := Tables(st.levels) + Span(st.spec.history, st.spec.flushed, st.applied);
    assert Seen(Elems(v.mem), u, s, e);
    assert e in st.mem;
    LC.AllLogged(st.spec.history, st.spec.flushed, st.levels);
    forall x | Seen(all, u, s, x) ensures x.sn <= e.sn {
      if x.sn > st.spec.immEnd {
        assert x in st.mem;
        assert Seen(Elems(v.mem), u, s, x);
      }
    }
  }

  lemma MemBlind(st: State, v: View, u: UserKey, s: nat)
    requires ViewInv(st) && Captured(v, st) && forall e :: !Seen(Elems(v.mem), u, s, e)
    ensures forall x :: Seen(Tables(st.levels) + Span(st.spec.history, st.spec.flushed, st.applied), u, s, x) ==>
              x.sn <= st.spec.immEnd
  {
    OpenView(st);
    LC.AllLogged(st.spec.history, st.spec.flushed, st.levels);
    forall x | x in Span(st.spec.history, st.spec.flushed, st.applied) && x.sn > st.spec.immEnd
      ensures x in Elems(v.mem)
    {
      assert x in st.mem;
    }
    forall x | Seen(Tables(st.levels) + Span(st.spec.history, st.spec.flushed, st.applied), u, s, x)
      ensures x.sn <= st.spec.immEnd
    {
      assert x in Elems(v.mem) ==> Seen(Elems(v.mem), u, s, x);
    }
  }

  lemma ImmDecides(st: State, v: View, u: UserKey, s: nat, e: Entry)
    requires ViewInv(st) && Captured(v, st) && v.imm.Some? && IsNewest(Elems(v.imm.value), u, s, e)
    requires forall x :: Seen(Tables(st.levels) + Span(st.spec.history, st.spec.flushed, st.applied), u, s, x) ==>
               x.sn <= st.spec.immEnd
    ensures IsNewest(Tables(st.levels) + Span(st.spec.history, st.spec.flushed, st.applied), u, s, e)
  {
    OpenView(st);
    var all := Tables(st.levels) + Span(st.spec.history, st.spec.flushed, st.applied);
    assert Seen(Elems(v.imm.value), u, s, e);
    LC.AllLogged(st.spec.history, st.spec.flushed, st.levels);
    forall x | Seen(all, u, s, x) ensures x.sn <= e.sn {
      if x.sn > st.spec.flushed {
        assert x in st.imm.value;
        assert Seen(Elems(v.imm.value), u, s, x);
      }
    }
  }

  /** With both memtables blind, only tables can show the key. */
  lemma OnlyTables(st: State, v: View, u: UserKey, s: nat, x: Entry)
    requires ViewInv(st) && Captured(v, st)
    requires v.imm.Some? ==> forall e :: !Seen(Elems(v.imm.value), u, s, e)
    requires forall x :: Seen(Tables(st.levels) + Span(st.spec.history, st.spec.flushed, st.applied), u, s, x) ==>
               x.sn <= st.spec.immEnd
    requires Seen(Tables(st.levels) + Span(st.spec.history, st.spec.flushed, st.applied), u, s, x)
    ensures Seen(Tables(st.levels), u, s, x)
  {
    OpenView(st);
    assert v.imm.Some? ==> !Seen(Elems(v.imm.value), u, s, x);
  }

  /** DBImpl::Get at the last sequence or at a held snapshot. */
  method Get(v: View, ghost st: State, u: UserKey, s: nat) returns (a: Answer)
    requires ViewInv(st) && Captured(v, st) && (s == st.lastSeq || s in st.snapshots)
    ensures a == Lookup(Span(st.spec.history, 0, |st.spec.history|), u, s)
  {
    ghost var all := Tables(st.levels) + Span(st.spec.history, st.spec.flushed, st.applied);
    LsmReads.ReadsSeeAll(st, u, s);
    var r := RunGet(v.mem, u, s);
    if r.Some? {
      MemDecides(st, v, u, s, r.value);
    } else {
      MemBlind(st, v, u, s);
      if v.imm.Some? {
        r := RunGet(v.imm.value, u, s);
      }
      if r.Some? {
        ImmDecides(st, v, u, s, r.value);
      } else {
        assert SearchableLists(v.lists, st.spec.floor) && st.spec.floor <= s by { OpenView(st); }
        r := VersionGet(v.lists, u, s, st.spec.floor);
        forall x | Seen(all, u, s, x) ensures Seen(Tables(st.levels), u, s, x) {
          OnlyTables(st, v, u, s, x);
        }
      }
    }
    if r.Some? {
      LookupIs(all, u, s, r.value);
      a := AnswerOf(r.value);
    } else {
      LookupNone(all, u, s);
      a := NotFound;
    }
  }
}
