/** Version edits and the builder that applies them. */
module VersionBuilder {
  // Edits are applied one at a time while the database runs, and all at once through
  // one Builder when it is reopened.  Both give the same version.

  import opened Entries

  const NUM_LEVELS: nat := 7

  datatype Meta = Meta(number: nat, size: nat, smallest: IKey, largest: IKey)

  /** A version: per level, the files in Builder's order. */
  type Version = seq<seq<Meta>>

  datatype Edit = Edit(
    comparator: Option<string>,
    logNumber: Option<nat>,
    prevLogNumber: Option<nat>,
    nextFile: Option<nat>,
    lastSequence: Option<nat>,
    deleted: seq<(nat, nat)>,
    added: seq<(nat, Meta)>)

  /** BySmallestKey: smallest key, ties broken by file number. */
  predicate By(f: Meta, g: Meta) {
    Less(f.smallest, g.smallest) || (f.smallest == g.smallest && f.number < g.number)
  }

  predicate Ordered(fs: seq<Meta>) {
    forall i, j :: 0 <= i < j < |fs| ==> By(fs[i], fs[j])
  }

  ghost function Files(fs: seq<Meta>): set<Meta> {
    set f | f in fs
  }

  ghost function FilesOf(v: Version): (r: seq<set<Meta>>)
    ensures |r| == |v|
  {
    seq(|v|, l requires 0 <= l < |v| => Files(v[l]))
  }

  ghost predicate OrderedVersion(v: Version) {
    |v| == NUM_LEVELS && forall l :: 0 <= l < |v| ==> Ordered(v[l])
  }

  /** An ordered list of files is determined by its elements. */
  lemma {:induction false} OrderedUnique(a: seq<Meta>, b: seq<Meta>)
    requires Ordered(a) && Ordered(b) && Files(a) == Files(b)
    ensures a == b
    decreases |a|
  {
    if |a| == 0 {
      NoFilesEmpty(b);
    } else {
      assert a[0] in Files(b);
      assert b[0] in Files(a);
      var i :| 0 <= i < |a| && a[i] == b[0];
      var j :| 0 <= j < |b| && b[j] == a[0];
      assert forall k :: 0 < k < |a| ==> By(a[0], a[k]);
      assert forall k :: 0 < k < |b| ==> By(b[0], b[k]);
      assert a[0] == b[0];
      assert Files(a[1..]) == Files(a) - {a[0]} by { TailFiles(a); }
      assert Files(b[1..]) == Files(b) - {b[0]} by { TailFiles(b); }
      OrderedUnique(a[1..], b[1..]);
      assert a == [a[0]] + a[1..] && b == [b[0]] + b[1..];
    }
  }

  lemma NoFilesEmpty(b: seq<Meta>)
    ensures |b| > 0 ==> Files(b) != {}
  {
    if |b| > 0 {
      assert b[0] in Files(b);
    }
  }

  lemma TailFiles(a: seq<Meta>)
    requires Ordered(a) && |a| > 0
    ensures Files(a[1..]) == Files(a) - {a[0]}
  {
    assert forall i :: 0 < i < |a| ==> By(a[0], a[i]);
    forall f | f in Files(a) - {a[0]} ensures f in Files(a[1..]) {
      var i :| 0 <= i < |a| && a[i] == f;
      assert a[1..][i - 1] == f;
    }
  }

  lemma VersionUnique(v: Version, w: Version)
    requires OrderedVersion(v) && OrderedVersion(w) && FilesOf(v) == FilesOf(w)
    ensures v == w
  {
    forall l | 0 <= l < NUM_LEVELS ensures v[l] == w[l] {
      assert FilesOf(v)[l] == Files(v[l]) && FilesOf(w)[l] == Files(w[l]);
      OrderedUnique(v[l], w[l]);
    }
  }

  // ----- What an edit means -----

  ghost predicate ValidEdit(e: Edit) {
    && (forall i :: 0 <= i < |e.deleted| ==> e.deleted[i].0 < NUM_LEVELS)
    && (forall i :: 0 <= i < |e.added| ==> e.added[i].0 < NUM_LEVELS)
  }

  ghost function AddedAt(e: Edit, l: nat): set<Meta> {
    set i | 0 <= i < |e.added| && e.added[i].0 == l :: e.added[i].1
  }

  /** Deletions first, then additions. */
  ghost function AfterLevel(s: set<Meta>, e: Edit, l: nat): set<Meta> {
    (set f | f in s && (l, f.number) !in e.deleted) + AddedAt(e, l)
  }

  ghost function After(v: seq<set<Meta>>, e: Edit): (r: seq<set<Meta>>)
    ensures |r| == |v|
  {
    seq(|v|, l requires 0 <= l < |v| => AfterLevel(v[l], e, l))
  }

  /** The edits applied one at a time. */
  ghost function Replayed(v: seq<set<Meta>>, edits: seq<Edit>): (r: seq<set<Meta>>)
    ensures |r| == |v|
    decreases |edits|
  {
    if |edits| == 0 then v
    else After(Replayed(v, edits[..|edits| - 1]), edits[|edits| - 1])
  }

  // ----- The builder -----

  datatype LevelState = LevelState(deleted: set<nat>, added: seq<Meta>)

  /** A level's state with its ordered set as a plain one. */
  datatype Sets = Sets(deleted: set<nat>, added: set<Meta>)

  ghost function View(s: LevelState): Sets {
    Sets(s.deleted, Files(s.added))
  }

  /** The files a builder stands for at one level. */
  ghost function Stands(base: set<Meta>, s: Sets): set<Meta> {
    set f | f in base + s.added && f.number !in s.deleted
  }

  ghost function Net(base: seq<Meta>, s: LevelState): set<Meta> {
    Stands(Files(base), View(s))
  }

  /** The ordered set takes the two for one file. */
  predicate Twins(f: Meta, g: Meta) {
    f.smallest == g.smallest && f.number == g.number
  }

  /** std::set::insert: nothing happens if the file has a twin there. */
  ghost function Inserted(fs: set<Meta>, f: Meta): set<Meta> {
    if exists g :: g in fs && Twins(g, f) then fs else fs + {f}
  }

  ghost function Adding(s: Sets, f: Meta): Sets {
    Sets(s.deleted - {f.number}, Inserted(s.added, f))
  }

  ghost function AddingAll(s: Sets, added: seq<(nat, Meta)>, l: nat): Sets
    decreases |added|
  {
    if |added| == 0 then s
    else
      var p := AddingAll(s, added[..|added| - 1], l);
      var (level, f) := added[|added| - 1];
      if level == l then Adding(p, f) else p
  }

  ghost function DeletedAt(e: Edit, l: nat): set<nat> {
    set i | 0 <= i < |e.deleted| && e.deleted[i].0 == l :: e.deleted[i].1
  }

  /** What Builder::Apply leaves at one level, whatever the edit. */
  ghost function Applied(s: Sets, e: Edit, l: nat): Sets {
    AddingAll(Sets(s.deleted + DeletedAt(e, l), s.added), e.added, l)
  }

  /** Adding a file does to the builder what it does to a version exactly when the set does
      not refuse the file for a twin, and the number does not belong to some other, deleted
      file, which erasing the number from the deleted set would bring back. */
  lemma AddIff(base: set<Meta>, s: Sets, f: Meta)
    ensures Stands(base, Adding(s, f)) == Stands(base, s) + {f} <==>
              && (f in base || f in s.added || forall g :: g in s.added ==> !Twins(g, f))
              && (f.number in s.deleted ==> forall g :: g in base + s.added && g.number == f.number ==> g == f)
  {
    var want := Stands(base, s) + {f};
    if g :| g in base + s.added && g.number == f.number && g != f && f.number in s.deleted {
      assert g in Stands(base, Adding(s, f)) && g !in want;
    } else if f !in base && f !in s.added && exists g :: g in s.added && Twins(g, f) {
      assert f !in Stands(base, Adding(s, f));
    } else {
      assert forall g :: g in Stands(base, Adding(s, f)) <==> g in want;
    }
  }

  lemma GivingAdds(s: Sets, f: Meta, l: nat)
    ensures Applied(s, Giving(l, f), l) == Adding(s, f)
  {
    var e := Giving(l, f);
    assert DeletedAt(e, l) == {} && s.deleted + {} == s.deleted;
    assert e.added[|e.added| - 1] == (l, f) && |e.added[..0]| == 0;
    assert AddingAll(s, e.added[..0], l) == s;
  }

  /** Deleting a file and then adding another by its number brings the first one back. */
  lemma Revived(was: Meta, next: Meta, l: nat)
    requires was.number == next.number && was != next
    ensures var e1, e2 := Deleting(l, was.number), Giving(l, next);
            && Stands({was}, Applied(Applied(Sets({}, {}), e1, l), e2, l)) == {was, next}
            && AfterLevel(AfterLevel({was}, e1, l), e2, l) == {next}
  {
    var e1, e2 := Deleting(l, was.number), Giving(l, next);
    assert e1.deleted[0] == (l, was.number) && DeletedAt(e1, l) == {was.number};
    assert e2.added[0] == (l, next) && AddedAt(e2, l) == {next};
    assert DeletedAt(e2, l) == {} && AddedAt(e1, l) == {};
    assert Applied(Sets({}, {}), e1, l) == Sets({was.number}, {});
    GivingAdds(Sets({was.number}, {}), next, l);
    assert Applied(Sets({was.number}, {}), e2, l) == Sets({}, {next});
  }

  /** Adding a file whose twin was added leaves the twin. */
  lemma Refused(was: Meta, next: Meta, l: nat)
    requires Twins(was, next) && was != next
    ensures Stands({}, Applied(Sets({}, {was}), Giving(l, next), l)) == {was}
    ensures AfterLevel({was}, Giving(l, next), l) == {was, next}
  {
    var e := Giving(l, next);
    assert e.added[0] == (l, next) && AddedAt(e, l) == {next};
    assert DeletedAt(e, l) == {};
    GivingAdds(Sets({}, {was}), next, l);
  }

  lemma NumberReused()
    ensures var was, next := Meta(5, 1, IKey(1.0, 257), IKey(2.0, 257)), Meta(5, 1, IKey(3.0, 257), IKey(4.0, 257));
            Stands({was}, Applied(Applied(Sets({}, {}), Deleting(1, 5), 1), Giving(1, next), 1)) == {was, next}
            != AfterLevel(AfterLevel({was}, Deleting(1, 5), 1), Giving(1, next), 1)
  {
    var was, next := Meta(5, 1, IKey(1.0, 257), IKey(2.0, 257)), Meta(5, 1, IKey(3.0, 257), IKey(4.0, 257));
    Revived(was, next, 1);
    assert was !in {next};
  }

  function Deleting(l: nat, number: nat): Edit {
    Edit(None, None, None, None, None, [(l, number)], [])
  }

  function Giving(l: nat, f: Meta): Edit {
    Edit(None, None, None, None, None, [], [(l, f)])
  }

  ghost predicate Unused(base: set<Meta>, s: Sets, number: nat) {
    forall f :: f in base + s.added ==> f.number != number
  }

  /** The files of both kinds share no number. */
  ghost predicate StateOk(base: seq<Meta>, s: LevelState) {
    && Ordered(base) && Ordered(s.added)
    && forall f, g :: f in base && g in s.added ==> f.number != g.number
  }

  /** Numbers that are new, each added once, are added as the edit says. */
  lemma {:induction false} FreshAdds(base: set<Meta>, s: Sets, e: Edit, l: nat)
    requires AddsOnce(e)
    requires forall i :: 0 <= i < |e.added| && e.added[i].0 == l ==> Unused(base, s, e.added[i].1.number)
    ensures AddingAll(s, e.added, l).added == s.added + AddedAt(e, l)
    ensures Stands(base, AddingAll(s, e.added, l)) == Stands(base, s) + AddedAt(e, l)
    decreases |e.added|
  {
    if |e.added| == 0 {
    } else {
      var n := |e.added| - 1;
      var d := e.(added := e.added[..n]);
      AddedStep(e, n);
      assert e.(added := e.added[..n + 1]) == e by { assert e.added[..n + 1] == e.added; }
      FreshAdds(base, s, d, l);
      if e.added[n].0 == l {
        StillUnused(base, s, e, n);
        var p := AddingAll(s, d.added, l);
        AddIff(base, p, e.added[n].1);
      }
    }
  }

  lemma AddedStep(e: Edit, i: nat)
    requires i < |e.added|
    ensures forall l :: AddedAt(e.(added := e.added[..i + 1]), l)
                        == AddedAt(e.(added := e.added[..i]), l) + (if l == e.added[i].0 then {e.added[i].1} else {})
  {
    var a, b := e.(added := e.added[..i]), e.(added := e.added[..i + 1]);
    assert forall k :: 0 <= k < i ==> a.added[k] == b.added[k];
    assert b.added[i] == e.added[i];
  }

  lemma StillUnused(base: set<Meta>, s: Sets, e: Edit, n: nat)
    requires n < |e.added| && AddsOnce(e) && Unused(base, s, e.added[n].1.number)
    ensures Unused(base, Sets(s.deleted, s.added + AddedAt(e.(added := e.added[..n]), e.added[n].0)),
                   e.added[n].1.number)
  {
    forall f | f in AddedAt(e.(added := e.added[..n]), e.added[n].0) ensures f.number != e.added[n].1.number {
      var k :| 0 <= k < n && e.added[..n][k].0 == e.added[n].0 && e.added[..n][k].1 == f;
      assert e.added[k] == e.added[..n][k];
    }
  }

  lemma FreshApplied(base: set<Meta>, s: Sets, e: Edit, l: nat)
    requires AddsOnce(e)
    requires forall i :: 0 <= i < |e.added| && e.added[i].0 == l ==> Unused(base, s, e.added[i].1.number)
    ensures Applied(s, e, l).added == s.added + AddedAt(e, l)
    ensures Stands(base, Applied(s, e, l)) == AfterLevel(Stands(base, s), e, l)
  {
    var d := Sets(s.deleted + DeletedAt(e, l), s.added);
    FreshAdds(base, d, e, l);
    assert forall n: nat :: n in DeletedAt(e, l) <==> (l, n) in e.deleted;
  }

  lemma PlacedOrdered(fs: seq<Meta>, i: nat, f: Meta)
    requires Ordered(fs) && i <= |fs|
    requires forall j :: 0 <= j < i ==> By(fs[j], f)
    requires i < |fs| ==> By(f, fs[i])
    ensures Ordered(fs[..i] + [f] + fs[i..])
    ensures Files(fs[..i] + [f] + fs[i..]) == Files(fs) + {f}
  {
    assert fs == fs[..i] + fs[i..];
    var r := fs[..i] + [f] + fs[i..];
    assert forall j :: i <= j < |fs| ==> By(f, fs[j]) by {
      assert forall j :: i < j < |fs| ==> By(fs[i], fs[j]);
    }
    forall j, k | 0 <= j < k < |r| ensures By(r[j], r[k]) {
      assert j < i ==> r[j] == fs[j];
      assert j > i ==> r[j] == fs[j - 1];
      assert k < i ==> r[k] == fs[k];
      assert k > i ==> r[k] == fs[k - 1];
    }
  }

  /** std::set::insert under BySmallestKey. */
  method InsertFile(fs: seq<Meta>, f: Meta) returns (r: seq<Meta>)
    requires Ordered(fs)
    ensures Ordered(r) && Files(r) == Inserted(Files(fs), f)
  {
    var i := 0;
    while i < |fs| && By(fs[i], f)
      invariant 0 <= i <= |fs|
      invariant forall j :: 0 <= j < i ==> By(fs[j], f)
    {
      i := i + 1;
    }
    if i < |fs| && !By(f, fs[i]) {
      assert fs[i] in Files(fs) && Twins(fs[i], f);
      r := fs;
    } else {
      NoTwin(fs, i, f);
      PlacedOrdered(fs, i, f);
      r := fs[..i] + [f] + fs[i..];
    }
  }

  lemma NoTwin(fs: seq<Meta>, i: nat, f: Meta)
    requires Ordered(fs) && i <= |fs|
    requires forall j :: 0 <= j < i ==> By(fs[j], f)
    requires i < |fs| ==> By(f, fs[i])
    ensures forall g :: g in fs ==> !Twins(g, f)
  {
    forall g | g in fs ensures !Twins(g, f) {
      var j :| 0 <= j < |fs| && fs[j] == g;
      assert j > i ==> By(fs[i], fs[j]);
    }
  }

  /** Each (level, number) the edit adds is new to the builder. */
  ghost predicate Fresh(base: Version, levels: seq<LevelState>, e: Edit)
    requires |base| == |levels| == NUM_LEVELS && ValidEdit(e)
  {
    && (forall i :: 0 <= i < |e.added| ==>
          Unused(Files(base[e.added[i].0]), View(levels[e.added[i].0]), e.added[i].1.number))
    && AddsOnce(e)
  }

  ghost predicate AddsOnce(e: Edit) {
    forall i, j :: 0 <= i < j < |e.added| && e.added[i].0 == e.added[j].0 ==>
      e.added[i].1.number != e.added[j].1.number
  }

  ghost function NetOf(base: Version, levels: seq<LevelState>): (r: seq<set<Meta>>)
    requires |base| == |levels|
    ensures |r| == |base|
  {
    seq(|base|, l requires 0 <= l < |base| => Net(base[l], levels[l]))
  }

  class Builder {
    const base: Version
    var levels: seq<LevelState>

    ghost predicate Valid()
      reads this
    {
      && |base| == |levels| == NUM_LEVELS
      && forall l :: 0 <= l < NUM_LEVELS ==> Ordered(base[l]) && Ordered(levels[l].added)
    }

    /** No added file has the number of a file of the base. */
    ghost predicate Tidy()
      reads this
    {
      Valid() && forall l :: 0 <= l < NUM_LEVELS ==> StateOk(base[l], levels[l])
    }

    constructor (base: Version)
      requires OrderedVersion(base)
      ensures this.base == base && Tidy() && NetOf(base, levels) == FilesOf(base)
      ensures forall l :: 0 <= l < NUM_LEVELS ==> levels[l] == LevelState({}, [])
    {
      this.base := base;
      this.levels := seq(NUM_LEVELS, _ => LevelState({}, []));
      new;
      assert forall l :: 0 <= l < NUM_LEVELS ==> NetOf(base, levels)[l] == FilesOf(base)[l];
    }

    /** Apply: deletions, then additions. */
    method Apply(e: Edit)
      requires Valid() && ValidEdit(e)
      modifies this`levels
      ensures Valid() && forall l :: 0 <= l < NUM_LEVELS ==> View(levels[l]) == Applied(View(old(levels[l])), e, l)
    {
      DeleteFiles(e);
      AddFiles(e);
    }

    method DeleteFiles(e: Edit)
      requires Valid() && ValidEdit(e)
      modifies this`levels
      ensures Valid()
      ensures forall l :: 0 <= l < NUM_LEVELS ==>
                levels[l] == old(levels[l]).(deleted := old(levels[l]).deleted + DeletedAt(e, l))
    {
      for i := 0 to |e.deleted|
        invariant Valid()
        invariant forall l :: 0 <= l < NUM_LEVELS ==>
                    levels[l] == old(levels[l]).(deleted := old(levels[l]).deleted
                                                            + DeletedAt(e.(deleted := e.deleted[..i]), l))
      {
        var (level, number) := e.deleted[i];
        DeletedStep(e, i);
        levels := levels[level := levels[level].(deleted := levels[level].deleted + {number})];
      }
      assert e.(deleted := e.deleted[..|e.deleted|]) == e by { assert e.deleted[..|e.deleted|] == e.deleted; }
    }

    method AddFile(level: nat, f: Meta)
      requires Valid() && level < NUM_LEVELS
      modifies this`levels
      ensures Valid() && View(levels[level]) == Adding(View(old(levels[level])), f)
      ensures forall l :: 0 <= l < NUM_LEVELS && l != level ==> levels[l] == old(levels[l])
    {
      var s := levels[level];
      var added := InsertFile(s.added, f);
      levels := levels[level := LevelState(s.deleted - {f.number}, added)];
    }

    method AddFiles(e: Edit)
      requires Valid() && ValidEdit(e)
      modifies this`levels
      ensures Valid()
      ensures forall l :: 0 <= l < NUM_LEVELS ==>
                View(levels[l]) == AddingAll(View(old(levels[l])), e.added, l)
    {
      for i := 0 to |e.added|
        invariant Valid()
        invariant forall l :: 0 <= l < NUM_LEVELS ==>
                    View(levels[l]) == AddingAll(View(old(levels[l])), e.added[..i], l)
      {
        var (level, f) := e.added[i];
        assert e.added[..i + 1][..i] == e.added[..i];
        AddFile(level, f);
      }
      assert e.added[..|e.added|] == e.added;
    }

    /** What an edit of new numbers does is what it means. */
    lemma AppliedIsAfter(was: seq<LevelState>, e: Edit)
      requires Valid() && |was| == NUM_LEVELS && ValidEdit(e) && Fresh(base, was, e)
      requires forall l :: 0 <= l < NUM_LEVELS ==> StateOk(base[l], was[l])
      requires forall l :: 0 <= l < NUM_LEVELS ==> View(levels[l]) == Applied(View(was[l]), e, l)
      ensures Tidy() && NetOf(base, levels) == After(NetOf(base, was), e)
      ensures forall l :: 0 <= l < NUM_LEVELS ==> Files(levels[l].added) == Files(was[l].added) + AddedAt(e, l)
    {
      forall l | 0 <= l < NUM_LEVELS
        ensures StateOk(base[l], levels[l]) && NetOf(base, levels)[l] == After(NetOf(base, was), e)[l]
        ensures Files(levels[l].added) == Files(was[l].added) + AddedAt(e, l)
      {
        FreshApplied(Files(base[l]), View(was[l]), e, l);
        StaysTidy(base[l], was[l], levels[l], e, l);
      }
    }

    /** SaveTo: the merged lists are sorted and hold what the builder stands for. */
    method SaveTo() returns (v: Version)
      requires Valid()
      ensures |v| == NUM_LEVELS && forall l :: 0 <= l < NUM_LEVELS ==> Rising(v[l])
      ensures FilesOf(v) == NetOf(base, levels)
      ensures Tidy() ==> OrderedVersion(v)
    {
      v := [];
      for l := 0 to NUM_LEVELS
        invariant |v| == l
        invariant forall k :: 0 <= k < l ==> Rising(v[k]) && Files(v[k]) == Net(base[k], levels[k])
        invariant forall k :: 0 <= k < l ==> StateOk(base[k], levels[k]) ==> Ordered(v[k])
      {
        var fs := MergeLevel(base[l], levels[l]);
        v := v + [fs];
      }
      assert forall l :: 0 <= l < NUM_LEVELS ==> FilesOf(v)[l] == NetOf(base, levels)[l];
    }
  }

  lemma DeletedStep(e: Edit, i: nat)
    requires i < |e.deleted|
    ensures forall l :: DeletedAt(e.(deleted := e.deleted[..i + 1]), l)
                        == DeletedAt(e.(deleted := e.deleted[..i]), l)
                           + (if l == e.deleted[i].0 then {e.deleted[i].1} else {})
  {
    var a, b := e.(deleted := e.deleted[..i]), e.(deleted := e.deleted[..i + 1]);
    assert forall k :: 0 <= k < i ==> a.deleted[k] == b.deleted[k];
    assert b.deleted[i] == e.deleted[i];
  }

  lemma StaysTidy(base: seq<Meta>, was: LevelState, now: LevelState, e: Edit, l: nat)
    requires StateOk(base, was) && Ordered(now.added) && Files(now.added) == Files(was.added) + AddedAt(e, l)
    requires forall i :: 0 <= i < |e.added| && e.added[i].0 == l ==> Unused(Files(base), View(was), e.added[i].1.number)
    ensures StateOk(base, now)
  {
    forall f, g | f in base && g in now.added ensures f.number != g.number {
      assert g in Files(now.added) && f in Files(base);
      if g in was.added {
      } else {
        assert g !in Files(was.added);
        var i :| 0 <= i < |e.added| && e.added[i].0 == l && e.added[i].1 == g;
        assert f in Files(base) + View(was).added;
      }
    }
  }

  // ----- The merge -----

  /** `r` holds the undeleted ones of the first `b` base files and the first `a` added ones. */
  ghost predicate Merged(base: seq<Meta>, s: LevelState, b: nat, a: nat, r: seq<Meta>)
    requires b <= |base| && a <= |s.added|
  {
    && Rising(r) && (StateOk(base, s) ==> Ordered(r))
    && Files(r) == set f | f in Files(base[..b]) + Files(s.added[..a]) && f.number !in s.deleted
  }

  /** In order, twins side by side. */
  predicate Rising(fs: seq<Meta>) {
    forall i, j :: 0 <= i < j < |fs| ==> !By(fs[j], fs[i])
  }

  /** Nothing taken sorts after `f`. */
  ghost predicate NoneAfter(r: seq<Meta>, f: Meta) {
    forall i :: 0 <= i < |r| ==> !By(f, r[i])
  }

  /** Everything taken sorts before `f`. */
  ghost predicate AllBy(r: seq<Meta>, f: Meta) {
    forall i :: 0 <= i < |r| ==> By(r[i], f)
  }

  method MaybeAddFile(r: seq<Meta>, f: Meta, deleted: set<nat>) returns (r': seq<Meta>)
    requires Rising(r) && NoneAfter(r, f)
    ensures Rising(r') && Files(r') == Files(r) + (if f.number in deleted then {} else {f})
    ensures Ordered(r) && AllBy(r, f) ==> Ordered(r')
  {
    if f.number in deleted {
      r' := r;
    } else {
      r' := r + [f];
    }
  }

  lemma MergedFirst(base: seq<Meta>, s: LevelState, b: nat, a: nat, r: seq<Meta>, f: Meta)
    requires b <= |base| && a <= |s.added| && Merged(base, s, b, a, r)
    requires forall k :: 0 <= k < b ==> !By(f, base[k])
    requires forall k :: 0 <= k < a ==> By(s.added[k], f)
    ensures NoneAfter(r, f)
    ensures (forall k :: 0 <= k < b ==> By(base[k], f)) ==> AllBy(r, f)
  {
    forall i | 0 <= i < |r|
      ensures !By(f, r[i]) && ((forall k :: 0 <= k < b ==> By(base[k], f)) ==> By(r[i], f))
    {
      assert r[i] in Files(r);
      if r[i] in Files(base[..b]) {
        var k :| 0 <= k < b && base[k] == r[i];
      } else {
        assert r[i] in s.added[..a];
        var k :| 0 <= k < a && s.added[k] == r[i];
      }
    }
  }

  lemma MergedBase(base: seq<Meta>, s: LevelState, b: nat, a: nat, r: seq<Meta>, r': seq<Meta>)
    requires b < |base| && a <= |s.added| && Merged(base, s, b, a, r)
    requires Rising(r') && (StateOk(base, s) ==> Ordered(r'))
    requires Files(r') == Files(r) + (if base[b].number in s.deleted then {} else {base[b]})
    ensures Merged(base, s, b + 1, a, r')
  {
    assert base[..b + 1] == base[..b] + [base[b]];
  }

  lemma MergedAdded(base: seq<Meta>, s: LevelState, b: nat, a: nat, r: seq<Meta>, r': seq<Meta>)
    requires b <= |base| && a < |s.added| && Merged(base, s, b, a, r)
    requires Rising(r') && (StateOk(base, s) ==> Ordered(r'))
    requires Files(r') == Files(r) + (if s.added[a].number in s.deleted then {} else {s.added[a]})
    ensures Merged(base, s, b, a + 1, r')
  {
    assert s.added[..a + 1] == s.added[..a] + [s.added[a]];
  }

  /** Base files are taken before the next added one up to its upper bound. */
  ghost predicate Interleaved(base: seq<Meta>, s: LevelState, b: nat, a: nat)
    requires b <= |base| && a <= |s.added|
  {
    && (b < |base| ==> forall k :: 0 <= k < a ==> By(s.added[k], base[b]))
    && (a < |s.added| ==> forall k :: 0 <= k < b ==> !By(s.added[a], base[k]))
  }

  lemma ApartIsBy(base: seq<Meta>, s: LevelState, b: nat, a: nat)
    requires b <= |base| && a < |s.added| && forall k :: 0 <= k < b ==> !By(s.added[a], base[k])
    ensures StateOk(base, s) ==> forall k :: 0 <= k < b ==> By(base[k], s.added[a])
  {
    assert forall k :: 0 <= k < b ==> base[k] in base;
    assert s.added[a] in s.added;
  }

  method TakeBase(base: seq<Meta>, s: LevelState, b: nat, a: nat, r: seq<Meta>) returns (r': seq<Meta>)
    requires Ordered(base) && b < |base| && a <= |s.added| && Merged(base, s, b, a, r)
    requires forall k :: 0 <= k < a ==> By(s.added[k], base[b])
    ensures Merged(base, s, b + 1, a, r')
  {
    MergedFirst(base, s, b, a, r, base[b]);
    r' := MaybeAddFile(r, base[b], s.deleted);
    MergedBase(base, s, b, a, r, r');
  }

  /** The base files that go before the added file `a`. */
  method TakeSmaller(base: seq<Meta>, s: LevelState, start: nat, a: nat, r: seq<Meta>) returns (b: nat, r': seq<Meta>)
    requires Ordered(base) && Ordered(s.added) && start <= |base| && a < |s.added|
    requires Merged(base, s, start, a, r) && Interleaved(base, s, start, a)
    ensures start <= b <= |base| && Merged(base, s, b, a, r')
    ensures forall k :: 0 <= k < b ==> !By(s.added[a], base[k])
    ensures b < |base| ==> By(s.added[a], base[b])
  {
    b, r' := start, r;
    while b < |base| && !By(s.added[a], base[b])
      invariant start <= b <= |base| && Merged(base, s, b, a, r')
      invariant forall k :: 0 <= k < b ==> !By(s.added[a], base[k])
      invariant b < |base| ==> forall k :: 0 <= k < a ==> By(s.added[k], base[b])
    {
      r' := TakeBase(base, s, b, a, r');
      b := b + 1;
    }
  }

  method TakeAdded(base: seq<Meta>, s: LevelState, b: nat, a: nat, r: seq<Meta>) returns (r': seq<Meta>)
    requires Ordered(s.added) && b <= |base| && a < |s.added| && Merged(base, s, b, a, r)
    requires forall k :: 0 <= k < b ==> !By(s.added[a], base[k])
    ensures Merged(base, s, b, a + 1, r')
  {
    MergedFirst(base, s, b, a, r, s.added[a]);
    ApartIsBy(base, s, b, a);
    r' := MaybeAddFile(r, s.added[a], s.deleted);
    MergedAdded(base, s, b, a, r, r');
  }

  method TakeRest(base: seq<Meta>, s: LevelState, start: nat, r: seq<Meta>) returns (r': seq<Meta>)
    requires Ordered(base) && Ordered(s.added) && start <= |base|
    requires Merged(base, s, start, |s.added|, r) && Interleaved(base, s, start, |s.added|)
    ensures Merged(base, s, |base|, |s.added|, r')
  {
    r' := r;
    for b := start to |base|
      invariant Merged(base, s, b, |s.added|, r')
      invariant b < |base| ==> forall k :: 0 <= k < |s.added| ==> By(s.added[k], base[b])
    {
      r' := TakeBase(base, s, b, |s.added|, r');
    }
  }

  lemma NextInterleaved(base: seq<Meta>, s: LevelState, b: nat, a: nat)
    requires Ordered(base) && Ordered(s.added) && b <= |base| && a < |s.added|
    requires forall k :: 0 <= k < b ==> !By(s.added[a], base[k])
    requires b < |base| ==> By(s.added[a], base[b])
    ensures Interleaved(base, s, b, a + 1)
  {
    assert forall k :: 0 <= k < a ==> By(s.added[k], s.added[a]);
    assert a + 1 < |s.added| ==> By(s.added[a], s.added[a + 1]);
  }

  lemma AllMerged(base: seq<Meta>, s: LevelState, r: seq<Meta>)
    requires Merged(base, s, |base|, |s.added|, r)
    ensures Files(r) == Net(base, s)
  {
    assert base[..|base|] == base && s.added[..|s.added|] == s.added;
  }

  method MergeLevel(base: seq<Meta>, s: LevelState) returns (r: seq<Meta>)
    requires Ordered(base) && Ordered(s.added)
    ensures Rising(r) && Files(r) == Net(base, s)
    ensures StateOk(base, s) ==> Ordered(r)
  {
    var b := 0;
    r := [];
    for a := 0 to |s.added|
      invariant 0 <= b <= |base| && Merged(base, s, b, a, r) && Interleaved(base, s, b, a)
    {
      b, r := TakeSmaller(base, s, b, a, r);
      r := TakeAdded(base, s, b, a, r);
      NextInterleaved(base, s, b, a);
    }
    r := TakeRest(base, s, b, r);
    AllMerged(base, s, r);
  }
}
