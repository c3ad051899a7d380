/** What a reader gets. */
module LsmReads {
  // The search goes through the memtable, the immutable memtable, the level-0 tables
  // from the newest to the oldest and the deeper levels in order, and stops at the
  // first layer that knows the key.

  import opened Entries
  import opened Lsm
  import opened LsmSteps
  import LC = LsmCompaction
  import LsmRuns

  ghost function Search(layers: seq<set<Entry>>, u: UserKey, s: nat): Answer {
    if |layers| == 0 then NotFound
    else if exists e :: Seen(layers[0], u, s, e) then Lookup(layers[0], u, s)
    else Search(layers[1..], u, s)
  }

  ghost function Union(layers: seq<set<Entry>>): set<Entry> {
    set i, e | 0 <= i < |layers| && e in layers[i] :: e
  }

  /** In the first `i + 1` layers something newer than `y` is seen by every read at or above `floor`. */
  ghost predicate HiddenIn(layers: seq<set<Entry>>, floor: nat, i: nat, y: Entry) {
    exists k, z :: 0 <= k < |layers| && k <= i && z in layers[k] && Beats(z, y, floor)
  }

  /** Of two entries of a key the one in the upper layer is newer, or both are hidden. */
  ghost predicate NewestFirst(layers: seq<set<Entry>>, floor: nat) {
    forall i, j, x, y :: 0 <= i < j < |layers| && x in layers[i] && y in layers[j] && x.user == y.user
      ==> x.sn > y.sn || HiddenIn(layers, floor, i, y)
  }

  /** The layer in which the search stops. */
  lemma {:induction false} FirstLayer(layers: seq<set<Entry>>, u: UserKey, s: nat) returns (i: nat)
    ensures i <= |layers| && forall k, e :: 0 <= k < i ==> !Seen(layers[k], u, s, e)
    ensures i < |layers| ==> (exists e :: Seen(layers[i], u, s, e)) && Search(layers, u, s) == Lookup(layers[i], u, s)
    ensures i == |layers| ==> Search(layers, u, s) == NotFound
    decreases |layers|
  {
    if |layers| == 0 || exists e :: Seen(layers[0], u, s, e) {
      i := 0;
    } else {
      var k := FirstLayer(layers[1..], u, s);
      i := k + 1;
      forall n, e | 0 <= n < i ensures !Seen(layers[n], u, s, e) {
        assert n > 0 ==> layers[1..][n - 1] == layers[n];
      }
    }
  }

  /** What the search stops at is the newest entry of all layers. */
  lemma StopIsNewest(layers: seq<set<Entry>>, floor: nat, u: UserKey, s: nat, i: nat, e: Entry)
    requires NewestFirst(layers, floor) && s >= floor && i < |layers| && IsNewest(layers[i], u, s, e)
    requires forall k, x :: 0 <= k < i ==> !Seen(layers[k], u, s, x)
    ensures IsNewest(Union(layers), u, s, e)
  {
    assert Seen(layers[i], u, s, e);
    forall y | Seen(Union(layers), u, s, y) ensures y.sn <= e.sn {
      var j :| 0 <= j < |layers| && y in layers[j];
      assert Seen(layers[j], u, s, y);
      if i < j && y.sn >= e.sn {
        var k, z :| 0 <= k < |layers| && k <= i && z in layers[k] && Beats(z, y, floor);
        assert Seen(layers[k], u, s, z);
      }
    }
  }

  /** Searching layers that are newest first is one lookup in their union, at or above the floor. */
  lemma SearchIsLookup(layers: seq<set<Entry>>, floor: nat, u: UserKey, s: nat)
    requires NewestFirst(layers, floor) && UniqueSn(Union(layers)) && s >= floor
    ensures Search(layers, u, s) == Lookup(Union(layers), u, s)
  {
    var i := FirstLayer(layers, u, s);
    if i < |layers| {
      var w :| Seen(layers[i], u, s, w);
      var e := NewestExists(layers[i], u, s, w);
      StopIsNewest(layers, floor, u, s, i, e);
      assert forall x :: x in layers[i] ==> x in Union(layers);
      LookupIs(layers[i], u, s, e);
      LookupIs(Union(layers), u, s, e);
    } else {
      forall e ensures !Seen(Union(layers), u, s, e) {
        assert forall k :: 0 <= k < |layers| ==> !Seen(layers[k], u, s, e);
      }
      LookupNone(Union(layers), u, s);
    }
  }

  // ----- The layers of a state -----

  /** `zero` lists the level-0 files from the newest to the oldest. */
  ghost predicate ZeroListing(st: State, zero: seq<File>) {
    && |st.levels| == NUM_LEVELS
    && (forall f :: f in zero <==> f in st.levels[0])
    && (forall i, j :: 0 <= i < j < |zero| ==> zero[i].number > zero[j].number)
  }

  ghost function ImmLayer(st: State): set<Entry> {
    if st.imm.Some? then st.imm.value else {}
  }

  ghost function Layers(st: State, zero: seq<File>): seq<set<Entry>>
    requires |st.levels| == NUM_LEVELS
  {
    [st.mem, ImmLayer(st)]
    + seq(|zero|, i requires 0 <= i < |zero| => Elems(zero[i].entries))
    + seq(NUM_LEVELS - 1, l requires 0 <= l < NUM_LEVELS - 1 => FileEntries(st.levels[l + 1]))
  }

  /** Where the entries of a table layer come from. */
  lemma TableLayer(st: State, zero: seq<File>, i: nat, e: Entry) returns (l: nat, f: File)
    requires ZeroListing(st, zero) && 2 <= i < |Layers(st, zero)| && e in Layers(st, zero)[i]
    ensures Holds(st.levels, l, f, e)
    ensures if i < 2 + |zero| then l == 0 && f == zero[i - 2] else l == i - 1 - |zero|
  {
    if i < 2 + |zero| {
      l, f := 0, zero[i - 2];
    } else {
      l := i - 1 - |zero|;
      assert e in FileEntries(st.levels[l]);
      f :| f in st.levels[l] && e in f.entries;
    }
  }

  lemma LayersNewestFirst(st: State, zero: seq<File>)
    requires ViewInv(st) && ZeroListing(st, zero)
    ensures NewestFirst(Layers(st, zero), st.spec.floor)
  {
    var layers := Layers(st, zero);
    forall i, j, x: Entry, y: Entry | 0 <= i < j < |layers| && x in layers[i] && y in layers[j] && x.user == y.user
      ensures x.sn > y.sn || HiddenIn(layers, st.spec.floor, i, y)
    {
      LayerPair(st, zero, i, j, x, y);
    }
  }

  /** What hides an entry in the levels hides it in the layers. */
  lemma HiddenLayer(st: State, zero: seq<File>, floor: nat, i: nat, l: nat, y: Entry)
    requires ZeroListing(st, zero) && Hidden(st.levels, floor, l, y) && 2 <= i < |Layers(st, zero)|
    requires if l == 0 then i >= 1 + |zero| else i == 1 + |zero| + l
    ensures HiddenIn(Layers(st, zero), floor, i, y)
  {
    var m: nat, g, z :| Holds(st.levels, m, g, z) && m <= l && Beats(z, y, floor);
    var k := LayerOf(st, zero, m, g, z);
  }

  lemma TablePair(st: State, zero: seq<File>, floor: nat, i: nat, j: nat, x: Entry, y: Entry)
    requires Recency(st.levels, floor) && ZeroOrdered(st.levels) && ZeroListing(st, zero)
    requires 2 <= i < j < |Layers(st, zero)|
    requires x in Layers(st, zero)[i] && y in Layers(st, zero)[j] && x.user == y.user
    ensures x.sn > y.sn || HiddenIn(Layers(st, zero), floor, i, y)
  {
    var l, f := TableLayer(st, zero, i, x);
    var m, g := TableLayer(st, zero, j, y);
    if l < m && x.sn <= y.sn {
      if l > 0 {
        HiddenLayer(st, zero, floor, i, l, y);
      } else {
        ZeroHidden(st, zero, floor, i, x, y);
      }
    }
  }

  /** A level-0 file newer than everything in an older one hides what it hides. */
  lemma ZeroHidden(st: State, zero: seq<File>, floor: nat, i: nat, x: Entry, y: Entry)
    requires ZeroOrdered(st.levels) && ZeroListing(st, zero) && Hidden(st.levels, floor, 0, y)
    requires 2 <= i < 2 + |zero| && x in zero[i - 2].entries && x.sn <= y.sn
    ensures HiddenIn(Layers(st, zero), floor, i, y)
  {
    var m: nat, g, z :| Holds(st.levels, m, g, z) && m <= 0 && Beats(z, y, floor);
    var k := LayerOf(st, zero, m, g, z);
    assert Holds(st.levels, 0, zero[i - 2], x);
    assert z.sn > x.sn;
  }

  lemma LayerPair(st: State, zero: seq<File>, i: nat, j: nat, x: Entry, y: Entry)
    requires ViewInv(st) && ZeroListing(st, zero)
    requires i < j < |Layers(st, zero)| && x in Layers(st, zero)[i] && y in Layers(st, zero)[j] && x.user == y.user
    ensures x.sn > y.sn || HiddenIn(Layers(st, zero), st.spec.floor, i, y)
  {
    OpenView(st);
    if i >= 2 {
      TablePair(st, zero, st.spec.floor, i, j, x, y);
    } else if j >= 2 {
      var m, g := TableLayer(st, zero, j, y);
      assert y.sn <= st.spec.flushed;
    }
  }

  lemma UnionOfLayers(st: State, zero: seq<File>)
    requires ViewInv(st) && ZeroListing(st, zero)
    ensures Union(Layers(st, zero)) == Tables(st.levels) + Span(st.spec.history, st.spec.flushed, st.applied)
  {
    OpenView(st);
    var layers := Layers(st, zero);
    var all := Tables(st.levels) + Span(st.spec.history, st.spec.flushed, st.applied);
    forall e | e in Union(layers) ensures e in all {
      var i :| 0 <= i < |layers| && e in layers[i];
      if i >= 2 {
        var l, f := TableLayer(st, zero, i, e);
        LC.InTables(st.levels, e);
      }
    }
    forall e | e in all ensures e in Union(layers) {
      if e in Tables(st.levels) {
        LC.InTables(st.levels, e);
        var l: nat, f :| Holds(st.levels, l, f, e);
        var k := LayerOf(st, zero, l, f, e);
      } else if e.sn <= st.spec.immEnd {
        assert e in layers[1];
      } else {
        assert e in layers[0];
      }
    }
  }

  lemma LayerOf(st: State, zero: seq<File>, l: nat, f: File, e: Entry) returns (k: nat)
    requires ZeroListing(st, zero) && Holds(st.levels, l, f, e)
    ensures 2 <= k < |Layers(st, zero)| && e in Layers(st, zero)[k]
    ensures if l == 0 then k < 2 + |zero| && zero[k - 2] == f else k == 1 + |zero| + l
  {
    var layers := Layers(st, zero);
    if l == 0 {
      var i :| 0 <= i < |zero| && zero[i] == f;
      k := 2 + i;
    } else {
      assert e in FileEntries(st.levels[l]);
      k := 1 + |zero| + l;
    }
  }

  /** Up to the applied operations nothing is missing. */
  lemma ReadsSeeAll(st: State, u: UserKey, s: nat)
    requires ViewInv(st) && (s == st.lastSeq || s in st.snapshots)
    ensures var all := Tables(st.levels) + Span(st.spec.history, st.spec.flushed, st.applied);
            && s <= st.applied && UniqueSn(all)
            && Lookup(all, u, s) == Lookup(Span(st.spec.history, 0, |st.spec.history|), u, s)
  {
    OpenView(st);
    var h, flushed := st.spec.history, st.spec.flushed;
    var now, all := Tables(st.levels) + Span(h, flushed, st.applied), Tables(st.levels) + Span(h, flushed, |h|);
    LC.AllLogged(h, flushed, st.levels);
    LC.LoggedUnique(h, now);
    LC.LoggedUnique(h, all);
    LookupSame(now, all, u, s);
  }

  /** In one good state a read gives what the history says. */
  lemma ReadIsNewest(st: State, zero: seq<File>, u: UserKey, s: nat)
    requires ViewInv(st) && ZeroListing(st, zero)
    requires s == st.lastSeq || s in st.snapshots
    ensures Search(Layers(st, zero), u, s) == Lookup(Span(st.spec.history, 0, |st.spec.history|), u, s)
  {
    ReadsSeeAll(st, u, s);
    UnionOfLayers(st, zero);
    LayersNewestFirst(st, zero);
    OpenView(st);
    SearchIsLookup(Layers(st, zero), st.spec.floor, u, s);
  }

  /** In every run, whatever steps and crashes it takes, every read at the last
      sequence or at a held snapshot returns the newest logged write at or below it. */
  lemma EveryRunReadsNewest(states: seq<State>, steps: seq<Step>, i: nat, zero: seq<File>, u: UserKey, s: nat)
    requires IsRun(states, steps) && i < |states|
    requires ZeroListing(states[i], zero) && (s == states[i].lastSeq || s in states[i].snapshots)
    ensures Search(Layers(states[i], zero), u, s)
         == Lookup(Span(states[i].spec.history, 0, |states[i].spec.history|), u, s)
  {
    LsmRuns.RunKeeps(states, steps, i);
    Unfold(states[i]);
    ReadIsNewest(states[i], zero, u, s);
  }
}
