/** The descriptor log. */
module ManifestLog {
  // LogAndApply appends one edit and installs one version; Recover replays every
  // record through a single Builder.

  import opened Entries
  import opened VersionBuilder

  // ----- What was ever added -----

  ghost predicate AddedBefore(edits: seq<Edit>, l: nat, n: nat) {
    exists i, k ::
      0 <= i < |edits| && 0 <= k < |edits[i].added| && edits[i].added[k].0 == l && edits[i].added[k].1.number == n
  }

  ghost predicate NewIn(edits: seq<Edit>, e: Edit) {
    forall k :: 0 <= k < |e.added| ==> !AddedBefore(edits, e.added[k].0, e.added[k].1.number)
  }

  /** Each (level, file number) is added at most once. */
  ghost predicate Disciplined(edits: seq<Edit>) {
    forall i :: 0 <= i < |edits| ==> ValidEdit(edits[i]) && AddsOnce(edits[i]) && NewIn(edits[..i], edits[i])
  }

  lemma DisciplinedStep(edits: seq<Edit>, e: Edit)
    requires Disciplined(edits) && ValidEdit(e) && AddsOnce(e) && NewIn(edits, e)
    ensures Disciplined(edits + [e])
  {
    var all := edits + [e];
    forall i | 0 <= i < |all| ensures ValidEdit(all[i]) && AddsOnce(all[i]) && NewIn(all[..i], all[i]) {
      if i < |edits| {
        assert all[..i] == edits[..i];
      } else {
        assert all[..i] == edits;
      }
    }
  }

  lemma AddedBeforeStep(edits: seq<Edit>, e: Edit, l: nat, n: nat)
    ensures AddedBefore(edits + [e], l, n) <==>
              AddedBefore(edits, l, n) || exists f :: f in AddedAt(e, l) && f.number == n
  {
    var all := edits + [e];
    if AddedBefore(all, l, n) {
      var i, k :| 0 <= i < |all| && 0 <= k < |all[i].added| && all[i].added[k].0 == l && all[i].added[k].1.number == n;
      if i == |edits| {
        assert e.added[k].1 in AddedAt(e, l);
      } else {
        assert edits[i] == all[i];
      }
    }
    if AddedBefore(edits, l, n) {
      var i, k :| 0 <= i < |edits| && 0 <= k < |edits[i].added| && edits[i].added[k].0 == l &&
          edits[i].added[k].1.number == n;
      assert all[i] == edits[i];
    }
    if f :| f in AddedAt(e, l) && f.number == n {
      var k :| 0 <= k < |e.added| && e.added[k].0 == l && e.added[k].1 == f;
      assert all[|edits|] == e;
    }
  }

  ghost function Empty(): (r: seq<set<Meta>>)
    ensures |r| == NUM_LEVELS && forall l :: 0 <= l < |r| ==> r[l] == {}
  {
    seq(NUM_LEVELS, _ => {})
  }

  lemma ReplayedStep(v: seq<set<Meta>>, edits: seq<Edit>, e: Edit)
    ensures Replayed(v, edits + [e]) == After(Replayed(v, edits), e)
  {
    var all := edits + [e];
    assert all[..|all| - 1] == edits;
  }

  /** Whatever a version holds was added by some edit. */
  lemma {:induction false} HeldWasAdded(edits: seq<Edit>, l: nat, f: Meta)
    requires l < NUM_LEVELS && f in Replayed(Empty(), edits)[l]
    ensures AddedBefore(edits, l, f.number)
    decreases |edits|
  {
    if |edits| > 0 {
      var rest, e := edits[..|edits| - 1], edits[|edits| - 1];
      assert edits == rest + [e];
      AddedBeforeStep(rest, e, l, f.number);
      if f !in AddedAt(e, l) {
        HeldWasAdded(rest, l, f);
      }
    }
  }

  // ----- Numbers are fresh or move one level down -----

  ghost predicate NewNumber(edits: seq<Edit>, n: nat) {
    forall l: nat :: !AddedBefore(edits, l, n)
  }

  /** A table written by a flush or a compaction gets a number never used before;
      a trivial move deletes the file at its level and adds it one level down. */
  ghost predicate Natural(edits: seq<Edit>, e: Edit) {
    && ValidEdit(e)
    && (forall k :: 0 <= k < |e.added| ==>
          NewNumber(edits, e.added[k].1.number) || Moved(edits, e, e.added[k].0, e.added[k].1))
    && (forall i, j :: 0 <= i < j < |e.added| ==> e.added[i].1.number != e.added[j].1.number)
  }

  ghost predicate Moved(edits: seq<Edit>, e: Edit, l: nat, f: Meta) {
    0 < l < NUM_LEVELS && (l - 1, f.number) in e.deleted && f in Replayed(Empty(), edits)[l - 1]
  }

  ghost predicate AllNatural(edits: seq<Edit>) {
    forall i :: 0 <= i < |edits| ==> Natural(edits[..i], edits[i])
  }

  /** Files only sink: no number was ever added below where it now is. */
  ghost predicate Sunk(edits: seq<Edit>) {
    forall l: nat, m: nat, f: Meta ::
      AddedBefore(edits, l, f.number) && m < NUM_LEVELS && f in Replayed(Empty(), edits)[m] ==> l <= m
  }

  lemma SunkStep(edits: seq<Edit>, e: Edit)
    requires Sunk(edits) && Natural(edits, e)
    ensures Sunk(edits + [e])
  {
    var all := edits + [e];
    ReplayedStep(Empty(), edits, e);
    forall l: nat, m: nat, f: Meta | AddedBefore(all, l, f.number) && m < NUM_LEVELS && f in Replayed(Empty(), all)[m]
      ensures l <= m
    {
      SunkPair(edits, e, l, m, f);
    }
  }

  lemma SunkPair(edits: seq<Edit>, e: Edit, l: nat, m: nat, f: Meta)
    requires Sunk(edits) && Natural(edits, e) && m < NUM_LEVELS
    requires AddedBefore(edits + [e], l, f.number) && f in After(Replayed(Empty(), edits), e)[m]
    ensures l <= m
  {
    var now := Replayed(Empty(), edits);
    AddedBeforeStep(edits, e, l, f.number);
    if f in AddedAt(e, m) {
      var k :| 0 <= k < |e.added| && e.added[k].0 == m && e.added[k].1 == f;
      AddedHere(e, k, l);
      if Moved(edits, e, m, f) {
        assert AddedBefore(edits, l, f.number) ==> l <= m - 1;
      }
    } else {
      HeldWasAdded(edits, m, f);
      assert AddedBefore(edits, l, f.number) ==> l <= m;
      if g :| g in AddedAt(e, l) && g.number == f.number {
        var k :| 0 <= k < |e.added| && e.added[k].0 == l && e.added[k].1 == g;
        assert !NewNumber(edits, g.number);
        HeldWasAdded(edits, l - 1, g);
        assert false;
      }
    }
  }

  /** Within one natural edit, one number goes to one level. */
  lemma AddedHere(e: Edit, k: nat, l: nat)
    requires k < |e.added|
    requires forall i, j :: 0 <= i < j < |e.added| ==> e.added[i].1.number != e.added[j].1.number
    ensures (exists g :: g in AddedAt(e, l) && g.number == e.added[k].1.number) ==> l == e.added[k].0
  {
    if g :| g in AddedAt(e, l) && g.number == e.added[k].1.number {
      var i :| 0 <= i < |e.added| && e.added[i].0 == l && e.added[i].1 == g;
    }
  }

  lemma NaturalIsNew(edits: seq<Edit>, e: Edit)
    requires Sunk(edits) && Natural(edits, e)
    ensures NewIn(edits, e) && AddsOnce(e)
  {
    forall k | 0 <= k < |e.added| ensures !AddedBefore(edits, e.added[k].0, e.added[k].1.number) {
      var (l, f) := e.added[k];
      assert Moved(edits, e, l, f) ==> !AddedBefore(edits, l, f.number) by {
        if Moved(edits, e, l, f) {
          assert f in Replayed(Empty(), edits)[l - 1];
        }
      }
    }
  }

  /** A manifest whose edits only use fresh numbers and downward moves adds no
      (level, number) twice. */
  lemma {:induction false} NaturalIsDisciplined(edits: seq<Edit>)
    requires AllNatural(edits)
    ensures Disciplined(edits) && Sunk(edits)
    decreases |edits|
  {
    if |edits| > 0 {
      var rest, e := edits[..|edits| - 1], edits[|edits| - 1];
      assert edits == rest + [e];
      assert AllNatural(rest) by {
        assert forall i :: 0 <= i < |rest| ==> rest[..i] == edits[..i] && rest[i] == edits[i];
      }
      NaturalIsDisciplined(rest);
      assert Natural(edits[..|rest|], edits[|rest|]);
      assert edits[..|rest|] == rest;
      NaturalIsNew(rest, e);
      SunkStep(rest, e);
      DisciplinedStep(rest, e);
    }
  }

  // ----- Counters -----

  datatype Counters = Counters(logNumber: Option<nat>, prevLogNumber: Option<nat>, nextFile: Option<nat>,
                               lastSequence: Option<nat>)

  function Later<T>(was: Option<T>, now: Option<T>): Option<T> {
    if now.Some? then now else was
  }

  ghost function Counted(edits: seq<Edit>): Counters
    decreases |edits|
  {
    if |edits| == 0 then Counters(None, None, None, None)
    else
      var c, e := Counted(edits[..|edits| - 1]), edits[|edits| - 1];
      Counters(Later(c.logNumber, e.logNumber), Later(c.prevLogNumber, e.prevLogNumber),
               Later(c.nextFile, e.nextFile), Later(c.lastSequence, e.lastSequence))
  }

  lemma CountedStep(edits: seq<Edit>, e: Edit)
    ensures var c := Counted(edits);
            Counted(edits + [e]) == Counters(Later(c.logNumber, e.logNumber), Later(c.prevLogNumber, e.prevLogNumber),
                                             Later(c.nextFile, e.nextFile), Later(c.lastSequence, e.lastSequence))
  {
    var all := edits + [e];
    assert all[..|all| - 1] == edits;
  }

  // ----- Recovering a version -----

  datatype Result<T> = Ok(value: T) | Corruption(message: string) | InvalidArgument(message: string)

  datatype Recovered = Recovered(
    version: Version,
    logNumber: nat,
    prevLogNumber: nat,
    manifestNumber: nat,
    nextFile: nat,
    lastSequence: nat)

  /** What the builder holds of one level once it has been through the edits. */
  ghost function AppliedAll(edits: seq<Edit>, l: nat): Sets
    decreases |edits|
  {
    if |edits| == 0 then Sets({}, {})
    else Applied(AppliedAll(edits[..|edits| - 1], l), edits[|edits| - 1], l)
  }

  ghost function Built(edits: seq<Edit>): (r: seq<set<Meta>>)
    ensures |r| == NUM_LEVELS
  {
    seq(NUM_LEVELS, l requires 0 <= l < NUM_LEVELS => Stands({}, AppliedAll(edits, l)))
  }

  lemma AppliedStep(edits: seq<Edit>, e: Edit, l: nat)
    ensures AppliedAll(edits + [e], l) == Applied(AppliedAll(edits, l), e, l)
  {
    var all := edits + [e];
    assert all[..|all| - 1] == edits;
  }

  lemma {:induction false} AppliedWereAdded(edits: seq<Edit>, l: nat, f: Meta)
    requires Disciplined(edits) && f in AppliedAll(edits, l).added
    ensures AddedBefore(edits, l, f.number)
    decreases |edits|, 0
  {
    if |edits| > 0 {
      var rest, e := edits[..|edits| - 1], edits[|edits| - 1];
      assert edits == rest + [e];
      DisciplinedRest(edits);
      AddedBeforeStep(rest, e, l, f.number);
      FreshHere(rest, e, l);
      FreshApplied({}, AppliedAll(rest, l), e, l);
      if f !in AddedAt(e, l) {
        AppliedWereAdded(rest, l, f);
      }
    }
  }

  lemma DisciplinedRest(edits: seq<Edit>)
    requires Disciplined(edits) && |edits| > 0
    ensures var rest, e := edits[..|edits| - 1], edits[|edits| - 1];
            Disciplined(rest) && ValidEdit(e) && AddsOnce(e) && NewIn(rest, e)
  {
    var rest := edits[..|edits| - 1];
    assert forall i :: 0 <= i < |rest| ==> rest[..i] == edits[..i] && rest[i] == edits[i];
    assert NewIn(edits[..|rest|], edits[|rest|]);
  }

  lemma FreshHere(edits: seq<Edit>, e: Edit, l: nat)
    requires Disciplined(edits) && NewIn(edits, e)
    ensures forall i :: 0 <= i < |e.added| && e.added[i].0 == l ==>
              Unused({}, AppliedAll(edits, l), e.added[i].1.number)
    decreases |edits|, 1
  {
    forall i | 0 <= i < |e.added| && e.added[i].0 == l ensures Unused({}, AppliedAll(edits, l), e.added[i].1.number) {
      forall f | f in {} + AppliedAll(edits, l).added ensures f.number != e.added[i].1.number {
        AppliedWereAdded(edits, l, f);
      }
    }
  }

  /** If no (level, number) is added twice, one builder for all the edits gives what the
      edits give one at a time. */
  lemma {:induction false} BuiltIsReplayed(edits: seq<Edit>)
    requires Disciplined(edits)
    ensures Built(edits) == Replayed(Empty(), edits)
    decreases |edits|
  {
    forall l | 0 <= l < NUM_LEVELS ensures Built(edits)[l] == Replayed(Empty(), edits)[l] {
      if |edits| > 0 {
        var rest, e := edits[..|edits| - 1], edits[|edits| - 1];
        DisciplinedRest(edits);
        BuiltIsReplayed(rest);
        assert Built(rest)[l] == Stands({}, AppliedAll(rest, l));
        FreshHere(rest, e, l);
        FreshApplied({}, AppliedAll(rest, l), e, l);
      }
    }
  }

  /** The record was written under another comparator. */
  predicate Foreign(e: Edit, name: string) {
    e.comparator.Some? && e.comparator.value != name
  }

  /** Every record goes to the builder, up to one that names another comparator. */
  method ReplayRecords(records: seq<Edit>, name: string) returns (foreign: Option<string>, v: Version, c: Counters)
    requires forall i :: 0 <= i < |records| ==> ValidEdit(records[i])
    ensures foreign.Some? <==> exists i :: 0 <= i < |records| && Foreign(records[i], name)
    ensures foreign.None? ==> FilesOf(v) == Built(records) && c == Counted(records)
    ensures foreign.None? ==> OrderedVersion(v)
  {
    var none: Version := seq(NUM_LEVELS, _ => []);
    var b := new Builder(none);
    c := Counters(None, None, None, None);
    v := none;
    foreign := None;
    assert records[..0] == [];
    for i := 0 to |records|
      invariant fresh(b) && b.Tidy() && b.base == none && c == Counted(records[..i])
      invariant forall l :: 0 <= l < NUM_LEVELS ==> View(b.levels[l]) == AppliedAll(records[..i], l)
      invariant forall k :: 0 <= k < i ==> !Foreign(records[k], name)
    {
      var e := records[i];
      if e.comparator.Some? && e.comparator.value != name {
        assert Foreign(records[i], name);
        return e.comparator, v, c;
      }
      assert records[..i + 1] == records[..i] + [e];
      b.Apply(e);
      forall l | 0 <= l < NUM_LEVELS ensures View(b.levels[l]) == AppliedAll(records[..i + 1], l) {
        AppliedStep(records[..i], e, l);
      }
      CountedStep(records[..i], e);
      c := Counters(Later(c.logNumber, e.logNumber), Later(c.prevLogNumber, e.prevLogNumber),
                    Later(c.nextFile, e.nextFile), Later(c.lastSequence, e.lastSequence));
    }
    assert records[..|records|] == records;
    v := b.SaveTo();
    assert forall l :: 0 <= l < NUM_LEVELS ==> FilesOf(v)[l] == Built(records)[l];
  }

  /** VersionSet::Recover after the records have been decoded. */
  method Recover(records: seq<Edit>, name: string) returns (r: Result<Recovered>)
    requires forall i :: 0 <= i < |records| ==> ValidEdit(records[i])
    ensures r.InvalidArgument? <==> exists i :: 0 <= i < |records| && Foreign(records[i], name)
    ensures !r.InvalidArgument? ==>
              var c := Counted(records);
              r.Ok? <==> c.nextFile.Some? && c.logNumber.Some? && c.lastSequence.Some?
    ensures r.Ok? ==>
              var c := Counted(records);
              && OrderedVersion(r.value.version) && FilesOf(r.value.version) == Built(records)
              && Some(r.value.logNumber) == c.logNumber && Some(r.value.lastSequence) == c.lastSequence
              && r.value.prevLogNumber == (if c.prevLogNumber.Some? then c.prevLogNumber.value else 0)
              && Some(r.value.manifestNumber) == c.nextFile && r.value.nextFile == r.value.manifestNumber + 1
  {
    var foreign, v, c := ReplayRecords(records, name);
    if foreign.Some? {
      return InvalidArgument(foreign.value + "does not match existing comparator " + name);
    }
    if c.nextFile.None? {
      return Corruption("no meta-nextfile entry in descriptor");
    }
    if c.logNumber.None? {
      return Corruption("no meta-lognumber entry in descriptor");
    }
    if c.lastSequence.None? {
      return Corruption("no last-sequence-number entry in descriptor");
    }
    var prev := if c.prevLogNumber.Some? then c.prevLogNumber.value else 0;
    r := Ok(Recovered(v, c.logNumber.value, prev, c.nextFile.value, c.nextFile.value + 1, c.lastSequence.value));
  }

  // ----- Every number is held once -----

  ghost predicate HeldOnce(v: Version) {
    forall l, m, i, j ::
      0 <= l < |v| && 0 <= m < |v| && 0 <= i < |v[l]| && 0 <= j < |v[m]| && v[l][i].number == v[m][j].number
      ==> l == m && i == j
  }

  /** At one level, a number stands for one file. */
  lemma {:induction false} HeldUnique(edits: seq<Edit>, l: nat, f: Meta, g: Meta)
    requires Disciplined(edits) && l < NUM_LEVELS && f.number == g.number
    requires f in Replayed(Empty(), edits)[l] && g in Replayed(Empty(), edits)[l]
    ensures f == g
    decreases |edits|
  {
    if |edits| > 0 {
      var rest, e := edits[..|edits| - 1], edits[|edits| - 1];
      DisciplinedRest(edits);
      AddedNew(rest, e, l, f);
      AddedNew(rest, e, l, g);
      if f in AddedAt(e, l) && g in AddedAt(e, l) {
        var i :| 0 <= i < |e.added| && e.added[i].0 == l && e.added[i].1 == f;
        var j :| 0 <= j < |e.added| && e.added[j].0 == l && e.added[j].1 == g;
      } else if f in Replayed(Empty(), rest)[l] && g in Replayed(Empty(), rest)[l] {
        HeldUnique(rest, l, f, g);
      }
    }
  }

  /** An added file's number was not held before. */
  lemma AddedNew(edits: seq<Edit>, e: Edit, l: nat, f: Meta)
    requires NewIn(edits, e) && l < NUM_LEVELS
    ensures f in AddedAt(e, l) ==> forall g :: g in Replayed(Empty(), edits)[l] ==> g.number != f.number
  {
    if f in AddedAt(e, l) {
      var k :| 0 <= k < |e.added| && e.added[k].0 == l && e.added[k].1 == f;
      forall g | g in Replayed(Empty(), edits)[l] ensures g.number != f.number {
        HeldWasAdded(edits, l, g);
      }
    }
  }

  lemma NaturalHeldOnce(edits: seq<Edit>, v: Version)
    requires AllNatural(edits) && OrderedVersion(v) && FilesOf(v) == Replayed(Empty(), edits)
    ensures HeldOnce(v)
  {
    NaturalIsDisciplined(edits);
    forall l, m, i, j |
      0 <= l < |v| && 0 <= m < |v| && 0 <= i < |v[l]| && 0 <= j < |v[m]| && v[l][i].number == v[m][j].number
      ensures l == m && i == j
    {
      var f, g := v[l][i], v[m][j];
      assert f in FilesOf(v)[l] && g in FilesOf(v)[m];
      HeldWasAdded(edits, l, f);
      HeldWasAdded(edits, m, g);
      HeldUnique(edits, l, f, g);
      assert Ordered(v[l]);
    }
  }

  // ----- Applying one edit at a time -----

  ghost predicate NumbersOnce(added: seq<(nat, Meta)>) {
    forall i, j :: 0 <= i < j < |added| ==> added[i].1.number != added[j].1.number
  }

  method LevelFiles(v: Version, l: nat) returns (added: seq<(nat, Meta)>)
    requires l < |v| && HeldOnce(v)
    ensures |added| == |v[l]| && forall k :: 0 <= k < |added| ==> added[k] == (l, v[l][k])
    ensures NumbersOnce(added)
  {
    added := [];
    for i := 0 to |v[l]|
      invariant |added| == i && forall k :: 0 <= k < i ==> added[k] == (l, v[l][k])
    {
      added := added + [(l, v[l][i])];
    }
  }

  /** WriteSnapshot: one edit that adds every file of the version. */
  method Snapshot(v: Version, name: string) returns (e: Edit)
    requires |v| == NUM_LEVELS && HeldOnce(v)
    ensures ValidEdit(e) && NumbersOnce(e.added) && After(Empty(), e) == FilesOf(v)
    ensures e.comparator == Some(name) && e.deleted == []
    ensures e.logNumber.None? && e.prevLogNumber.None? && e.nextFile.None? && e.lastSequence.None?
  {
    var added: seq<(nat, Meta)> := [];
    for l := 0 to NUM_LEVELS
      invariant forall k :: 0 <= k < |added| ==> added[k].0 < l && added[k].1 in v[added[k].0]
      invariant forall m, f :: 0 <= m < l && f in v[m] ==> (m, f) in added
      invariant NumbersOnce(added)
    {
      var more := LevelFiles(v, l);
      assert NumbersOnce(added + more);
      added := added + more;
    }
    e := Edit(Some(name), None, None, None, None, [], added);
    forall l | 0 <= l < NUM_LEVELS ensures AfterLevel({}, e, l) == Files(v[l]) {
      forall f | f in v[l] ensures f in AddedAt(e, l) {
        var k :| 0 <= k < |added| && added[k] == (l as nat, f);
      }
    }
    assert forall l :: 0 <= l < NUM_LEVELS ==> After(Empty(), e)[l] == FilesOf(v)[l];
  }

  /** The edit's files have numbers the version does not hold. */
  ghost predicate OnlyNew(v: Version, e: Edit) {
    && ValidEdit(e) && NumbersOnce(e.added)
    && forall l, i, k :: 0 <= l < |v| && 0 <= i < |v[l]| && 0 <= k < |e.added| ==> v[l][i].number != e.added[k].1.number
  }

  /** In an empty manifest every number is new. */
  lemma FirstIsNatural(e: Edit)
    requires ValidEdit(e) && NumbersOnce(e.added)
    ensures Natural([], e)
  {
    forall k | 0 <= k < |e.added| ensures NewNumber([], e.added[k].1.number) {
    }
  }

  lemma SnapshotIsNatural(v: Version, snapshot: Edit)
    requires |v| == NUM_LEVELS && ValidEdit(snapshot) && NumbersOnce(snapshot.added)
    requires After(Empty(), snapshot) == FilesOf(v)
    ensures AllNatural([snapshot]) && FilesOf(v) == Replayed(Empty(), [snapshot])
  {
    var none: seq<Edit> := [];
    assert none + [snapshot] == [snapshot];
    ReplayedStep(Empty(), none, snapshot);
    FirstIsNatural(snapshot);
    NaturalStep(none, snapshot);
  }

  lemma NewAfterSnapshot(v: Version, snapshot: Edit, e: Edit)
    requires |v| == NUM_LEVELS && ValidEdit(snapshot) && After(Empty(), snapshot) == FilesOf(v) && OnlyNew(v, e)
    ensures Natural([snapshot], e)
  {
    forall k | 0 <= k < |e.added| ensures NewNumber([snapshot], e.added[k].1.number) {
      forall l: nat ensures !AddedBefore([snapshot], l, e.added[k].1.number) {
        assert [] + [snapshot] == [snapshot];
        AddedBeforeStep([], snapshot, l, e.added[k].1.number);
        SnapshotHolds(v, snapshot, l);
      }
    }
  }

  lemma SnapshotHolds(v: Version, snapshot: Edit, l: nat)
    requires |v| == NUM_LEVELS && ValidEdit(snapshot) && After(Empty(), snapshot) == FilesOf(v)
    ensures forall g :: g in AddedAt(snapshot, l) ==> l < NUM_LEVELS && g in v[l]
  {
    forall g | g in AddedAt(snapshot, l) ensures l < NUM_LEVELS && g in v[l] {
      assert g in After(Empty(), snapshot)[l];
      assert g in FilesOf(v)[l];
    }
  }

  lemma NaturalStep(edits: seq<Edit>, e: Edit)
    requires AllNatural(edits) && Natural(edits, e)
    ensures AllNatural(edits + [e])
  {
    var all := edits + [e];
    forall i | 0 <= i < |all| ensures Natural(all[..i], all[i]) {
      if i < |edits| {
        assert all[..i] == edits[..i];
      } else {
        assert all[..i] == edits;
      }
    }
  }

  ghost predicate InLog(v: Version, records: seq<Edit>) {
    OrderedVersion(v) && AllNatural(records) && FilesOf(v) == Replayed(Empty(), records)
  }

  lemma StartsFresh(b: Builder, current: Version, log: seq<Edit>, e: Edit)
    requires InLog(current, log) && ValidEdit(e) && NewIn(log, e) && AddsOnce(e)
    requires b.base == current && b.Tidy() && forall l :: 0 <= l < NUM_LEVELS ==> b.levels[l] == LevelState({}, [])
    ensures Fresh(b.base, b.levels, e)
  {
    forall k | 0 <= k < |e.added|
      ensures Unused(Files(b.base[e.added[k].0]), View(b.levels[e.added[k].0]), e.added[k].1.number)
    {
      var l := e.added[k].0;
      forall f | f in current[l] ensures f.number != e.added[k].1.number {
        assert f in FilesOf(current)[l];
        HeldWasAdded(log, l, f);
      }
    }
  }

  /** Builder(current), Apply, SaveTo; and the log that will say the same. */
  method Prepare(current: Version, ghost log: seq<Edit>, e: Edit) returns (v: Version)
    requires InLog(current, log) && Natural(log, e)
    ensures InLog(v, log + [e]) && FilesOf(v) == After(FilesOf(current), e)
  {
    NaturalIsDisciplined(log);
    NaturalIsNew(log, e);
    var b := new Builder(current);
    StartsFresh(b, current, log, e);
    ghost var was := b.levels;
    b.Apply(e);
    b.AppliedIsAfter(was, e);
    v := b.SaveTo();
    ReplayedStep(Empty(), log, e);
    NaturalStep(log, e);
  }

  /** The counters LogAndApply writes into every edit. */
  function Stamped(e: Edit, logNumber: nat, prevLogNumber: nat, nextFile: nat, lastSequence: nat): Edit {
    e.(logNumber := Some(if e.logNumber.Some? then e.logNumber.value else logNumber),
       prevLogNumber := Some(if e.prevLogNumber.Some? then e.prevLogNumber.value else prevLogNumber),
       nextFile := Some(nextFile), lastSequence := Some(lastSequence))
  }

  lemma StampedSame(v: seq<set<Meta>>, log: seq<Edit>, e: Edit, s: Edit)
    requires s.deleted == e.deleted && s.added == e.added
    ensures After(v, s) == After(v, e)
    ensures Natural(log, e) ==> Natural(log, s)
  {
    assert forall l :: AddedAt(e, l) == AddedAt(s, l);
    assert forall l :: 0 <= l < |v| ==> After(v, e)[l] == After(v, s)[l];
    if Natural(log, e) {
      assert forall k :: 0 <= k < |e.added| && Moved(log, e, e.added[k].0, e.added[k].1) ==>
               Moved(log, s, e.added[k].0, e.added[k].1);
    }
  }

  /** What became of the writes to the descriptor: all done; or failed, with the record not in
      the file, or in it but perhaps not on disk, as when only Sync fails. */
  datatype Write = Done | Lost | Left

  class VersionSet {
    const name: string
    var current: Version
    /** The manifest that CURRENT names. */
    var records: seq<Edit>
    /** Whether that is the descriptor log this process has open. */
    var started: bool
    var logNumber: nat
    var prevLogNumber: nat
    var nextFile: nat
    var lastSequence: nat

    /** The records of the open descriptor log that were installed. */
    ghost var installed: seq<Edit>

    /** Every number is held once, the manifest can be recovered, and the records that were
        installed say what the fields say. */
    ghost predicate Valid()
      reads this
    {
      && OrderedVersion(current) && HeldOnce(current) && Readable(records, name)
      && (started ==>
            && InLog(current, installed)
            && Counted(installed).logNumber == Some(logNumber)
            && Counted(installed).prevLogNumber == Some(prevLogNumber))
    }

    /** No failed call has left a record behind: the manifest says what the process has. */
    ghost predicate Clean()
      reads this
    {
      if started then records == installed
      else FilesOf(current) == Built(records) && Counted(records).logNumber == Some(logNumber)
           && OrZero(Counted(records).prevLogNumber) == prevLogNumber
    }

    /** After Recover. */
    constructor (name: string, records: seq<Edit>, r: Recovered)
      requires Readable(records, name) && OrderedVersion(r.version) && HeldOnce(r.version)
      requires FilesOf(r.version) == Built(records) && Counted(records).logNumber == Some(r.logNumber)
      requires OrZero(Counted(records).prevLogNumber) == r.prevLogNumber
      ensures Valid() && Clean() && !started && current == r.version && this.records == records && this.name == name
      ensures logNumber == r.logNumber && prevLogNumber == r.prevLogNumber
      ensures nextFile == r.nextFile && lastSequence == r.lastSequence
    {
      this.name, current, this.records, started := name, r.version, records, false;
      logNumber, prevLogNumber, nextFile, lastSequence := r.logNumber, r.prevLogNumber, r.nextFile, r.lastSequence;
      installed := [];
    }

    /** New tables have new numbers, and a moved table goes one level down. */
    ghost predicate Acceptable(e: Edit)
      reads this
    {
      e.comparator.None? && if started then Natural(installed, e) else OnlyNew(current, e)
    }

    /** What a new descriptor log starts with, and what of the open one was installed. */
    method Descriptor(ghost e: Edit) returns (snapshot: Option<Edit>, ghost log: seq<Edit>)
      requires Valid() && Acceptable(e)
      ensures InLog(current, log) && Natural(log, e)
      ensures snapshot.None? <==> started
      ensures log == if snapshot.None? then installed else [snapshot.value]
      ensures snapshot.Some? ==> snapshot.value.comparator == Some(name) && ValidEdit(snapshot.value)
      ensures snapshot.Some? ==> After(Empty(), snapshot.value) == FilesOf(current)
    {
      if started {
        snapshot, log := None, installed;
      } else {
        var s := Snapshot(current, name);
        snapshot, log := Some(s), [s];
        SnapshotIsNatural(current, s);
        NewAfterSnapshot(current, s, e);
      }
    }

    /** The record LogAndApply writes. */
    ghost function Record(edit: Edit): Edit
      reads this
    {
      Stamped(edit, logNumber, prevLogNumber, nextFile, lastSequence)
    }

    /** VersionSet::LogAndApply.  When the writes fail nothing in memory changes; and nothing in
        the manifest either, except that a record may stay in a descriptor log that was open
        before.  A new descriptor file is removed again. */
    method LogAndApply(edit: Edit, write: Write)
      requires Valid() && Acceptable(edit)
      modifies this
      ensures Valid() && nextFile == old(nextFile) && lastSequence == old(lastSequence)
      ensures write.Done? ==> started && FilesOf(current) == After(old(FilesOf(current)), edit)
      ensures write.Done? ==> logNumber == (if edit.logNumber.Some? then edit.logNumber.value else old(logNumber))
      ensures write.Done? ==>
                prevLogNumber == (if edit.prevLogNumber.Some? then edit.prevLogNumber.value else old(prevLogNumber))
      ensures write.Done? ==>
                Counted(records) == Counters(Some(logNumber), Some(prevLogNumber), Some(nextFile), Some(lastSequence))
      ensures write.Done? && old(started) ==>
                && records == old(records) + [old(Record(edit))]
                && installed == old(installed) + [old(Record(edit))]
      ensures write.Done? && !old(started) ==>
                && records == installed && |records| == 2 && records[1] == old(Record(edit))
                && After(Empty(), records[0]) == old(FilesOf(current))
      ensures !write.Done? ==> current == old(current) && started == old(started) && installed == old(installed)
      ensures !write.Done? ==> logNumber == old(logNumber) && prevLogNumber == old(prevLogNumber)
      ensures !write.Done? ==>
                records == old(records) + (if write.Left? && started then [old(Record(edit))] else [])
      ensures old(Clean()) && (write.Left? ==> !old(started)) ==> Clean()
    {
      var e := Stamped(edit, logNumber, prevLogNumber, nextFile, lastSequence);
      ghost var log;
      var snapshot;
      snapshot, log := Descriptor(edit);
      StampedSame(FilesOf(current), log, edit, e);
      var v := Prepare(current, log, e);
      CountedStep(log, e);
      if write.Done? {
        NaturalHeldOnce(log + [e], v);
        if snapshot.None? {
          ReadableStep(records, name, e);
          records := records + [e];
        } else {
          ReadableNew(name, snapshot.value, e);
          records := [snapshot.value, e];
        }
        current, installed, started := v, log + [e], true;
        logNumber, prevLogNumber := e.logNumber.value, e.prevLogNumber.value;
      } else if write.Left? && started {
        ReadableStep(records, name, e);
        records := records + [e];
      }
    }

    /** Reopening under the comparator of that name.  Under another one it fails; otherwise the
        version is what one builder makes of the manifest.  If no record was left behind, that
        is the running version, with the running counters as of the last edit. */
    method Reopen(under: string) returns (r: Result<Recovered>)
      requires Valid()
      ensures under != name <==> r.InvalidArgument?
      ensures under == name <==> r.Ok?
      ensures r.Ok? ==>
                && OrderedVersion(r.value.version) && FilesOf(r.value.version) == Built(records)
                && Some(r.value.logNumber) == Counted(records).logNumber
                && Some(r.value.manifestNumber) == Counted(records).nextFile
                && r.value.nextFile == r.value.manifestNumber + 1
                && Some(r.value.lastSequence) == Counted(records).lastSequence
      ensures r.Ok? && Clean() ==>
                && r.value.version == current
                && r.value.logNumber == logNumber && r.value.prevLogNumber == prevLogNumber
    {
      r := Recover(records, under);
      if under != name {
        assert Foreign(records[0], under);
      } else if Clean() {
        CleanIsBuilt();
        VersionUnique(r.value.version, current);
      }
    }

    /** A call that succeeds and then a reopening give back everything: the version and all counters. */
    method LogThenReopen(edit: Edit) returns (r: Result<Recovered>)
      requires Valid() && Clean() && Acceptable(edit)
      modifies this
      ensures Valid() && r.Ok?
      ensures r.value == Recovered(current, logNumber, prevLogNumber, nextFile, nextFile + 1, lastSequence)
      ensures FilesOf(current) == After(old(FilesOf(current)), edit)
      ensures nextFile == old(nextFile) && lastSequence == old(lastSequence)
    {
      LogAndApply(edit, Done);
      r := Reopen(name);
    }

    lemma CleanIsBuilt()
      requires Valid() && Clean()
      ensures FilesOf(current) == Built(records)
    {
      if started {
        NaturalIsDisciplined(records);
        BuiltIsReplayed(records);
      }
    }

    /** A failed call and then a reopening give the running version if and only if the record is
        not in the manifest, or belonged to a new one, or changes nothing. */
    method FailThenReopen(edit: Edit, write: Write) returns (r: Result<Recovered>)
      requires Valid() && Clean() && Acceptable(edit) && !write.Done?
      modifies this
      ensures Valid() && current == old(current) && started == old(started) && r.Ok?
      ensures write.Left? && started ==> FilesOf(r.value.version) == After(FilesOf(current), edit)
      ensures r.value.version == current <==>
                write.Lost? || !started || After(FilesOf(current), edit) == FilesOf(current)
    {
      ghost var e := Record(edit);
      LogAndApply(edit, write);
      r := Reopen(name);
      if write.Left? && started {
        LeftIsApplied(installed, current, edit, e);
        if After(FilesOf(current), edit) == FilesOf(current) {
          VersionUnique(r.value.version, current);
        }
      }
    }
  }

  function OrZero(n: Option<nat>): nat {
    if n.Some? then n.value else 0
  }

  /** Recover succeeds under the name, and under no other. */
  ghost predicate Readable(records: seq<Edit>, name: string) {
    && (forall i :: 0 <= i < |records| ==> ValidEdit(records[i]) && !Foreign(records[i], name))
    && |records| > 0 && records[0].comparator == Some(name)
    && Counted(records).logNumber.Some? && Counted(records).nextFile.Some? && Counted(records).lastSequence.Some?
  }

  lemma ReadableStep(records: seq<Edit>, name: string, e: Edit)
    requires Readable(records, name) && ValidEdit(e) && e.comparator.None?
    ensures Readable(records + [e], name)
  {
    CountedStep(records, e);
  }

  lemma ReadableNew(name: string, snapshot: Edit, e: Edit)
    requires ValidEdit(snapshot) && snapshot.comparator == Some(name) && ValidEdit(e) && e.comparator.None?
    requires e.logNumber.Some? && e.nextFile.Some? && e.lastSequence.Some?
    ensures Readable([snapshot, e], name)
  {
    assert [snapshot, e] == [snapshot] + [e];
    CountedStep([snapshot], e);
  }

  /** A record left behind is an edit applied. */
  lemma LeftIsApplied(log: seq<Edit>, current: Version, edit: Edit, e: Edit)
    requires InLog(current, log) && Natural(log, edit) && e.deleted == edit.deleted && e.added == edit.added
    ensures Built(log + [e]) == After(FilesOf(current), edit)
  {
    StampedSame(FilesOf(current), log, edit, e);
    NaturalStep(log, e);
    NaturalIsDisciplined(log + [e]);
    BuiltIsReplayed(log + [e]);
    ReplayedStep(Empty(), log, e);
  }
  lemma NothingBuilt(records: seq<Edit>)
    requires |records| == 1 && records[0].added == [] && ValidEdit(records[0])
    ensures Built(records) == Empty()
  {
    var e := records[0];
    assert NewIn([], e) && AddsOnce(e) && records[..0] == [];
    assert Disciplined(records);
    BuiltIsReplayed(records);
    assert records[..|records| - 1] == [];
    assert forall l :: AddedAt(e, l) == {};
    assert forall l :: 0 <= l < NUM_LEVELS ==> After(Empty(), e)[l] == {};
  }

  lemma NoneAdded(e: Edit)
    requires ValidEdit(e)
    ensures |e.added| > 0 ==> exists l :: 0 <= l < NUM_LEVELS && After(Empty(), e)[l] != {}
  {
    if |e.added| > 0 {
      var (l, m) := e.added[0];
      assert m in AddedAt(e, l);
      assert m in After(Empty(), e)[l];
    }
  }

  lemma NeverAdded(installed: seq<Edit>, n: nat)
    requires |installed| == 2 && installed[0].added == [] && installed[1].added == []
    ensures NewNumber(installed, n)
  {
  }

  lemma NothingChanges(v: seq<set<Meta>>, e: Edit)
    requires e.added == [] && e.deleted == []
    ensures After(v, e) == v
  {
    assert forall l :: AddedAt(e, l) == {};
    assert forall l :: 0 <= l < |v| ==> After(v, e)[l] == v[l];
  }

  /** A new database, opened. */
  method OpenNew(name: string) returns (vs: VersionSet)
    ensures fresh(vs) && vs.Valid() && vs.Clean() && vs.started && FilesOf(vs.current) == Empty()
    ensures vs.logNumber == 3 && vs.nextFile == 4 && forall n :: NewNumber(vs.installed, n)
  {
    var none: Version := seq(NUM_LEVELS, _ => []);
    var first := Edit(Some(name), Some(0), None, Some(2), Some(0), [], []);
    assert FilesOf(none) == Empty() by {
      assert forall l :: 0 <= l < NUM_LEVELS ==> FilesOf(none)[l] == Empty()[l];
    }
    NothingBuilt([first]);
    assert [first][..0] == [];
    vs := new VersionSet(name, [first], Recovered(none, 0, 0, 2, 3, 0));
    var opening := Edit(None, Some(vs.nextFile), Some(0), None, None, [], []);
    vs.nextFile := vs.nextFile + 1;
    vs.LogAndApply(opening, Done);
    NothingChanges(Empty(), opening);
    NoneAdded(vs.installed[0]);
    forall n ensures NewNumber(vs.installed, n) {
      NeverAdded(vs.installed, n);
    }
  }

  lemma GivenFile(f: Meta)
    ensures After(Empty(), Giving(0, f))[0] == {f} && ValidEdit(Giving(0, f))
  {
    var e := Giving(0, f);
    assert e.added[0] == (0, f);
    assert AddedAt(e, 0) == {f};
  }

  /** A flush writes its record into an open manifest and Sync fails.  The running version has
      no file; after reopening there is one. */
  method LeftBehindExample() returns (running: Version, reopened: Version)
    ensures FilesOf(running) == Empty()
    ensures |reopened| > 0 && Files(reopened[0]) == {Meta(5, 1, IKey(1.0, 257), IKey(2.0, 257))}
  {
    var vs := OpenNew("bytewise");
    var f := Meta(5, 1, IKey(1.0, 257), IKey(2.0, 257));
    GivenFile(f);
    assert vs.Acceptable(Giving(0, f));
    var r := vs.FailThenReopen(Giving(0, f), Left);
    running, reopened := vs.current, r.value.version;
    assert FilesOf(reopened)[0] == {f};
  }
}
