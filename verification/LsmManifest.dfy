/** The manifest that a run of the engine writes. */
module LsmManifest {
  // Lsm keeps what a crash leaves of the version set as a value.  Here the edits behind it
  // are written out: in every run they only use fresh numbers and downward moves, so that
  // what Recover builds from them is that value.

  import opened Entries
  import opened Lsm
  import opened LsmSteps
  import LsmRuns
  import B = VersionBuilder
  import M = ManifestLog

  // ----- Files as the manifest knows them -----

  function MetaOf(f: File): B.Meta {
    if |f.entries| > 0 then B.Meta(f.number, f.size, KeyOf(f.entries[0]), KeyOf(f.entries[|f.entries| - 1]))
    else B.Meta(f.number, f.size, IKey(0.0, 0), IKey(0.0, 0))
  }

  ghost function Metas(fs: set<File>): set<B.Meta> {
    set f | f in fs :: MetaOf(f)
  }

  ghost function Numbers(fs: set<File>): set<nat> {
    set f | f in fs :: f.number
  }

  ghost function MetaLevels(levels: Levels): (r: seq<set<B.Meta>>)
    ensures |r| == |levels|
  {
    seq(|levels|, l requires 0 <= l < |levels| => Metas(levels[l]))
  }

  // ----- What an edit says -----

  /** The record deletes exactly the files `gone` and adds each of the files `came` once. */
  ghost predicate Says(e: B.Edit, gone: Levels, came: Levels) {
    && |gone| == |came| == NUM_LEVELS && B.ValidEdit(e)
    && (forall i, j :: 0 <= i < j < |e.added| ==> e.added[i] != e.added[j])
    && (forall l :: 0 <= l < NUM_LEVELS ==> B.AddedAt(e, l) == Metas(came[l]) && B.DeletedAt(e, l) == Numbers(gone[l]))
  }

  function Changed(levels: Levels, gone: Levels, came: Levels): (r: Levels)
    requires |levels| == |gone| == |came|
    ensures |r| == |levels|
  {
    seq(|levels|, l requires 0 <= l < |levels| => (levels[l] - gone[l]) + came[l])
  }

  function Gone(edit: Edit): (r: Levels)
    ensures |r| == NUM_LEVELS
  {
    match edit
    case FlushEdit(_, _) => NoFiles()
    case CompactEdit(job, _) =>
      seq(NUM_LEVELS, l => if l == job.level then job.in0 else if l == job.level + 1 then job.in1 else {})
  }

  function Came(edit: Edit): (r: Levels)
    ensures |r| == NUM_LEVELS
  {
    match edit
    case FlushEdit(at, Some(f)) => seq(NUM_LEVELS, l => if l == at then {f} else {})
    case FlushEdit(_, None) => NoFiles()
    case CompactEdit(job, outs) => seq(NUM_LEVELS, l => if l == job.level + 1 then outs else {})
  }

  ghost predicate InReach(edit: Edit) {
    match edit
    case FlushEdit(at, _) => at < NUM_LEVELS
    case CompactEdit(job, _) => job.level + 1 < NUM_LEVELS
  }

  lemma ApplyIsChange(levels: Levels, edit: Edit)
    requires |levels| == NUM_LEVELS && InReach(edit)
    ensures ApplyEdit(levels, edit) == Changed(levels, Gone(edit), Came(edit))
  {
    var a, b := ApplyEdit(levels, edit), Changed(levels, Gone(edit), Came(edit));
    forall l | 0 <= l < NUM_LEVELS ensures a[l] == b[l] {
      assert forall f :: !In(NoFiles(), l, f);
    }
  }

  ghost predicate OneFilePerNumber(levels: Levels) {
    forall l, f, m, g :: In(levels, l, f) && In(levels, m, g) && f.number == g.number ==> l == m && f == g
  }

  ghost predicate Within(gone: Levels, levels: Levels) {
    forall l, f :: In(gone, l, f) ==> In(levels, l, f)
  }

  /** Deleting by number deletes the files that are meant. */
  lemma SaysAfter(levels: Levels, e: B.Edit, gone: Levels, came: Levels)
    requires |levels| == NUM_LEVELS && Says(e, gone, came) && OneFilePerNumber(levels) && Within(gone, levels)
    ensures B.After(MetaLevels(levels), e) == MetaLevels(Changed(levels, gone, came))
  {
    var a, b := B.After(MetaLevels(levels), e), MetaLevels(Changed(levels, gone, came));
    forall l | 0 <= l < NUM_LEVELS ensures a[l] == b[l] {
      LevelAfter(levels, e, gone, came, l);
    }
  }

  lemma LevelAfter(levels: Levels, e: B.Edit, gone: Levels, came: Levels, l: nat)
    requires |levels| == NUM_LEVELS && Says(e, gone, came) && OneFilePerNumber(levels) && Within(gone, levels)
    requires l < NUM_LEVELS
    ensures B.AfterLevel(Metas(levels[l]), e, l) == Metas((levels[l] - gone[l]) + came[l])
  {
    forall f | f in levels[l] ensures (l, f.number) in e.deleted <==> f in gone[l] {
      DeletedIff(levels, e, gone, came, l, f);
    }
    var kept := set m | m in Metas(levels[l]) && (l, m.number) !in e.deleted;
    assert kept == Metas(levels[l] - gone[l]) by {
      forall m | m in kept ensures m in Metas(levels[l] - gone[l]) {
        var f :| f in levels[l] && MetaOf(f) == m;
        assert f in levels[l] - gone[l];
      }
      forall m | m in Metas(levels[l] - gone[l]) ensures m in kept {
        var f :| f in levels[l] - gone[l] && MetaOf(f) == m;
      }
    }
    assert Metas((levels[l] - gone[l]) + came[l]) == Metas(levels[l] - gone[l]) + Metas(came[l]);
  }

  lemma DeletedIff(levels: Levels, e: B.Edit, gone: Levels, came: Levels, l: nat, f: File)
    requires |levels| == NUM_LEVELS && Says(e, gone, came) && OneFilePerNumber(levels) && Within(gone, levels)
    requires l < NUM_LEVELS && f in levels[l]
    ensures (l, f.number) in e.deleted <==> f in gone[l]
  {
    if (l, f.number) in e.deleted {
      var i :| 0 <= i < |e.deleted| && e.deleted[i] == (l, f.number);
      assert f.number in B.DeletedAt(e, l);
      var g :| g in gone[l] && g.number == f.number;
      assert In(gone, l, g) && In(levels, l, g) && In(levels, l, f);
    }
    if f in gone[l] {
      assert f.number in Numbers(gone[l]);
      var i :| 0 <= i < |e.deleted| && e.deleted[i].0 == l && e.deleted[i].1 == f.number;
    }
  }

  // ----- The records of a run -----

  /** One more record, saying `edit`. */
  ghost predicate Grows(log: seq<B.Edit>, next: seq<B.Edit>, edit: Edit) {
    |next| == |log| + 1 && next[..|log|] == log && Says(next[|log|], Gone(edit), Came(edit))
  }

  function Recovering(tables: seq<File>): (r: Levels)
    ensures |r| == NUM_LEVELS
  {
    seq(NUM_LEVELS, l => if l == 0 then set f | f in tables else {})
  }

  /** What a step writes: flushes, compactions and moves append their edit; recovery starts
      a new manifest with a snapshot and the tables it made of the logs. */
  ghost predicate Records(st: State, step: Step, log: seq<B.Edit>, next: seq<B.Edit>) {
    match step
    case LogFlush(at, file) => Grows(log, next, FlushEdit(at, file))
    case LogCompaction(outs) => st.job.Some? && Grows(log, next, CompactEdit(st.job.value, outs))
    case LogMove => st.job.Some? && Grows(log, next, CompactEdit(st.job.value, st.job.value.in0))
    case Crash(_, _, tables, _, _) =>
      |next| == 2 && Says(next[0], NoFiles(), st.disk.levels) && Says(next[1], NoFiles(), Recovering(tables))
    case _ => next == log
  }

  /** `logs[i]` is the manifest when the run is at `states[i]`; the first records of a new
      database name no file and are left away. */
  ghost predicate Written(states: seq<State>, steps: seq<Step>, logs: seq<seq<B.Edit>>) {
    && |logs| == |states| == |steps| + 1
    && logs[0] == []
    && forall i :: 0 <= i < |steps| ==> Records(states[i], steps[i], logs[i], logs[i + 1])
  }

  // ----- The invariant -----

  /** No number in the manifest is still to be given out. */
  ghost predicate Spent(log: seq<B.Edit>, st: State) {
    forall l: nat, n: nat :: M.AddedBefore(log, l, n) ==> n < st.nextFile && n !in Installed(st).pending
  }

  ghost predicate Kept(log: seq<B.Edit>, st: State) {
    && M.AllNatural(log)
    && B.Replayed(M.Empty(), log) == MetaLevels(st.disk.levels)
    && Spent(log, st)
  }

  ghost predicate MayCome(log: seq<B.Edit>, gone: Levels, l: nat, f: File) {
    || M.NewNumber(log, f.number)
    || (0 < l < NUM_LEVELS && In(gone, l - 1, f) && MetaOf(f) in B.Replayed(M.Empty(), log)[l - 1])
  }

  lemma CameFrom(e: B.Edit, gone: Levels, came: Levels, k: nat) returns (f: File)
    requires Says(e, gone, came) && k < |e.added|
    ensures In(came, e.added[k].0, f) && MetaOf(f) == e.added[k].1
  {
    var (l, m) := e.added[k];
    assert m in B.AddedAt(e, l);
    f :| f in came[l] && MetaOf(f) == m;
  }

  lemma SaysOnce(e: B.Edit, gone: Levels, came: Levels)
    requires Says(e, gone, came) && OneFilePerNumber(came)
    ensures M.NumbersOnce(e.added)
  {
    forall i, j | 0 <= i < j < |e.added| ensures e.added[i].1.number != e.added[j].1.number {
      var f := CameFrom(e, gone, came, i);
      var g := CameFrom(e, gone, came, j);
      assert e.added[i] != e.added[j];
    }
  }

  lemma SaysNatural(log: seq<B.Edit>, e: B.Edit, gone: Levels, came: Levels)
    requires Says(e, gone, came) && OneFilePerNumber(came)
    requires forall l, f :: In(came, l, f) ==> MayCome(log, gone, l, f)
    ensures M.Natural(log, e)
  {
    SaysOnce(e, gone, came);
    forall k | 0 <= k < |e.added|
      ensures M.NewNumber(log, e.added[k].1.number) || M.Moved(log, e, e.added[k].0, e.added[k].1)
    {
      var f := CameFrom(e, gone, came, k);
      var l := e.added[k].0;
      assert MayCome(log, gone, l, f);
      if !M.NewNumber(log, f.number) {
        assert f.number in Numbers(gone[l - 1]);
        var i :| 0 <= i < |e.deleted| && e.deleted[i].0 == l - 1 && e.deleted[i].1 == f.number;
        assert e.deleted[i] == (l - 1, f.number);
      }
    }
  }

  /** After a record, the numbers it names are spent too. */
  lemma SpentStep(log: seq<B.Edit>, e: B.Edit, gone: Levels, came: Levels, st: State)
    requires Says(e, gone, came)
    requires Spent(log, st)
    requires forall l, f :: In(came, l, f) ==> f.number < st.nextFile && f.number !in Installed(st).pending
    ensures Spent(log + [e], st)
  {
    forall l: nat, n: nat | M.AddedBefore(log + [e], l, n) ensures n < st.nextFile && n !in Installed(st).pending {
      M.AddedBeforeStep(log, e, l, n);
      if m :| m in B.AddedAt(e, l) && m.number == n {
        var k :| 0 <= k < |e.added| && e.added[k].0 == l && e.added[k].1 == m;
        var f := CameFrom(e, gone, came, k);
      }
    }
  }

  /** Appending a record that says a change to the levels. */
  lemma Appends(log: seq<B.Edit>, e: B.Edit, gone: Levels, came: Levels, levels: Levels)
    requires M.AllNatural(log) && |levels| == NUM_LEVELS && B.Replayed(M.Empty(), log) == MetaLevels(levels)
    requires Says(e, gone, came) && OneFilePerNumber(came) && OneFilePerNumber(levels) && Within(gone, levels)
    requires forall l, f :: In(came, l, f) ==> MayCome(log, gone, l, f)
    ensures M.AllNatural(log + [e]) && M.Natural(log, e)
    ensures B.Replayed(M.Empty(), log + [e]) == MetaLevels(Changed(levels, gone, came))
  {
    SaysNatural(log, e, gone, came);
    M.NaturalStep(log, e);
    M.ReplayedStep(M.Empty(), log, e);
    SaysAfter(levels, e, gone, came);
  }

  // ----- Steps that write -----

  /** What a step may log: fresh files, or files that go one level down. */
  ghost predicate Fair(st: State, edit: Edit) {
    && InReach(edit) && Within(Gone(edit), st.levels) && OneFilePerNumber(Came(edit))
    && forall l: nat, f :: In(Came(edit), l, f) ==>
         f.number == st.nextFile || f.number in st.pending || (l > 0 && In(Gone(edit), l - 1, f))
  }

  lemma FlushIsFair(st: State, at: nat, file: Option<File>)
    requires CanFlush(st, at, file) && |st.levels| == NUM_LEVELS && (file.None? ==> at < NUM_LEVELS)
    ensures Fair(st, FlushEdit(at, file))
  {
    assert forall l, f :: !In(NoFiles(), l, f);
  }

  lemma FinishIsFair(st: State, outs: set<File>)
    requires CanFinish(st, outs) && JobShape(st.levels, st.job.value)
    ensures Fair(st, CompactEdit(st.job.value, outs))
  {
  }

  lemma MoveIsFair(st: State)
    requires CanMove(st) && JobShape(st.levels, st.job.value) && OneFilePerNumber(st.levels)
    ensures Fair(st, CompactEdit(st.job.value, st.job.value.in0))
  {
    var job := st.job.value;
    assert forall f :: f in job.in0 ==> In(st.levels, job.level, f);
  }

  lemma FairMayCome(st: State, log: seq<B.Edit>, edit: Edit, l: nat, f: File)
    requires Kept(log, st) && st.installing.None? && st.disk.levels == st.levels && |st.levels| == NUM_LEVELS
    requires Fair(st, edit) && In(Came(edit), l, f)
    ensures MayCome(log, Gone(edit), l, f)
  {
    if l > 0 && In(Gone(edit), l - 1, f) {
      assert In(st.levels, l - 1, f);
      assert MetaOf(f) in Metas(st.levels[l - 1]);
      assert MetaLevels(st.levels)[l - 1] == Metas(st.levels[l - 1]);
    } else {
      forall m: nat ensures !M.AddedBefore(log, m, f.number) {
      }
    }
  }

  /** Logging a fair edit keeps the manifest natural and tells it what reaches the disk. */
  lemma GrowthKeeps(st: State, edit: Edit, next: State, log: seq<B.Edit>, after: seq<B.Edit>)
    requires Inv(st) && st.installing.None? && Kept(log, st) && Fair(st, edit) && Grows(log, after, edit)
    requires next.disk.levels == ApplyEdit(st.levels, edit)
    ensures M.AllNatural(after) && B.Replayed(M.Empty(), after) == MetaLevels(next.disk.levels)
  {
    UnfoldIdle(st);
    OpenView(st);
    OpenDisk(st);
    assert after == log + [after[|log|]];
    forall l, f | In(Came(edit), l, f) ensures MayCome(log, Gone(edit), l, f) {
      FairMayCome(st, log, edit, l, f);
    }
    Appends(log, after[|log|], Gone(edit), Came(edit), st.levels);
    ApplyIsChange(st.levels, edit);
  }

  lemma GrowthSpends(st: State, edit: Edit, next: State, log: seq<B.Edit>, after: seq<B.Edit>)
    requires Spent(log, st) && st.installing.None? && Grows(log, after, edit)
    requires st.nextFile <= next.nextFile && Installed(next).pending <= st.pending
    requires forall l, f :: In(Came(edit), l, f) ==> f.number < next.nextFile && f.number !in Installed(next).pending
    ensures Spent(after, next)
  {
    assert Spent(log, next) by {
      forall l: nat, n: nat | M.AddedBefore(log, l, n) ensures n < next.nextFile && n !in Installed(next).pending {
        assert n !in Installed(st).pending;
      }
    }
    assert after == log + [after[|log|]];
    SpentStep(log, after[|log|], Gone(edit), Came(edit), next);
  }

  lemma FlushKeeps(st: State, at: nat, file: Option<File>, log: seq<B.Edit>, after: seq<B.Edit>)
    requires Inv(st) && Kept(log, st) && CanFlush(st, at, file) && Grows(log, after, FlushEdit(at, file))
    ensures Kept(after, Flushing(st, at, file))
  {
    UnfoldIdle(st);
    OpenView(st);
    var edit, next := FlushEdit(at, file), Flushing(st, at, file);
    if file.Some? {
      FlushIsFair(st, at, file);
      GrowthKeeps(st, edit, next, log, after);
    } else {
      BlankKeeps(st, at, log, after);
    }
    assert forall l, f :: In(Came(edit), l, f) ==> f.number == st.nextFile by {
      assert forall l, f :: !In(NoFiles(), l, f);
    }
    GrowthSpends(st, edit, next, log, after);
  }

  /** An empty memtable is flushed by a record without files. */
  lemma BlankKeeps(st: State, at: nat, log: seq<B.Edit>, after: seq<B.Edit>)
    requires Inv(st) && st.installing.None? && Kept(log, st) && Grows(log, after, FlushEdit(at, None))
    ensures M.AllNatural(after) && B.Replayed(M.Empty(), after) == MetaLevels(Flushing(st, at, None).disk.levels)
  {
    UnfoldIdle(st);
    OpenDisk(st);
    assert Grows(log, after, FlushEdit(0, None));
    assert Fair(st, FlushEdit(0, None)) by {
      assert forall l, f :: !In(NoFiles(), l, f);
    }
    GrowthKeeps(st, FlushEdit(0, None), Flushing(st, at, None), log, after);
  }

  lemma FinishKeeps(st: State, outs: set<File>, log: seq<B.Edit>, after: seq<B.Edit>)
    requires Inv(st) && Kept(log, st) && CanFinish(st, outs) && Grows(log, after, CompactEdit(st.job.value, outs))
    ensures Kept(after, Finishing(st, outs))
  {
    UnfoldIdle(st);
    OpenView(st);
    FinishIsFair(st, outs);
    GrowthKeeps(st, CompactEdit(st.job.value, outs), Finishing(st, outs), log, after);
    GrowthSpends(st, CompactEdit(st.job.value, outs), Finishing(st, outs), log, after);
  }

  lemma MoveKeeps(st: State, log: seq<B.Edit>, after: seq<B.Edit>)
    requires Inv(st) && Kept(log, st) && CanMove(st)
    requires Grows(log, after, CompactEdit(st.job.value, st.job.value.in0))
    ensures Kept(after, Moving(st))
  {
    UnfoldIdle(st);
    OpenView(st);
    MoveIsFair(st);
    var job := st.job.value;
    assert forall f :: f in job.in0 ==> In(st.levels, job.level, f);
    GrowthKeeps(st, CompactEdit(job, job.in0), Moving(st), log, after);
    GrowthSpends(st, CompactEdit(job, job.in0), Moving(st), log, after);
  }

  // ----- Recovery -----

  lemma {:induction false} AddAllIsChange(levels: Levels, tables: seq<File>)
    requires |levels| == NUM_LEVELS
    ensures AddAll(levels, tables) == Changed(levels, NoFiles(), Recovering(tables))
    decreases |tables|
  {
    var a, b := AddAll(levels, tables), Changed(levels, NoFiles(), Recovering(tables));
    if |tables| > 0 {
      var n := |tables| - 1;
      AddAllIsChange(levels, tables[..n]);
      assert tables == tables[..n] + [tables[n]];
      assert (set f | f in tables) == (set f | f in tables[..n]) + {tables[n]};
    }
    forall l | 0 <= l < NUM_LEVELS ensures a[l] == b[l] {
      assert forall f :: !In(NoFiles(), l, f);
    }
  }

  lemma FromNothing(levels: Levels)
    requires |levels| == NUM_LEVELS
    ensures Changed(NoFiles(), NoFiles(), levels) == levels
  {
    var all := Changed(NoFiles(), NoFiles(), levels);
    forall l | 0 <= l < NUM_LEVELS ensures all[l] == levels[l] {
      forall f ensures f in all[l] <==> f in levels[l] {
        assert !In(NoFiles(), l, f);
      }
    }
  }

  /** The snapshot alone stands for the levels it was taken of. */
  lemma SnapshotKeeps(s: B.Edit, levels: Levels)
    requires |levels| == NUM_LEVELS && Says(s, NoFiles(), levels) && OneFilePerNumber(levels)
    ensures M.AllNatural([s]) && B.Replayed(M.Empty(), [s]) == MetaLevels(levels)
  {
    assert forall l, f :: !In(NoFiles(), l, f);
    assert B.Replayed(M.Empty(), []) == MetaLevels(NoFiles()) by {
      assert forall l :: 0 <= l < NUM_LEVELS ==> M.Empty()[l] == MetaLevels(NoFiles())[l];
    }
    assert [] + [s] == [s];
    assert forall l, f :: In(levels, l, f) ==> MayCome([], NoFiles(), l, f);
    Appends([], s, NoFiles(), levels, NoFiles());
    FromNothing(levels);
  }

  /** The numbers a snapshot names are those of the files. */
  lemma SnapshotNumbers(s: B.Edit, levels: Levels, l: nat, n: nat)
    requires Says(s, NoFiles(), levels) && M.AddedBefore([s], l, n)
    ensures exists f :: In(levels, l, f) && f.number == n
  {
    assert [] + [s] == [s];
    M.AddedBeforeStep([], s, l, n);
    var m :| m in B.AddedAt(s, l) && m.number == n;
    var k :| 0 <= k < |s.added| && s.added[k].0 == l && s.added[k].1 == m;
    var f := CameFrom(s, NoFiles(), levels, k);
  }

  lemma TableIsNew(s: B.Edit, levels: Levels, bound: nat, n: nat)
    requires Says(s, NoFiles(), levels) && bound <= n && forall l, f :: In(levels, l, f) ==> f.number < bound
    ensures M.NewNumber([s], n)
  {
    forall m: nat ensures !M.AddedBefore([s], m, n) {
      if M.AddedBefore([s], m, n) {
        SnapshotNumbers(s, levels, m, n);
      }
    }
  }

  lemma SnapshotSpent(s: B.Edit, st: State, levels: Levels)
    requires Says(s, NoFiles(), levels) && Installed(st).pending == {}
    requires forall l, f :: In(levels, l, f) ==> f.number < st.nextFile
    ensures Spent([s], st)
  {
    forall l: nat, n: nat | M.AddedBefore([s], l, n) ensures n < st.nextFile && n !in Installed(st).pending {
      SnapshotNumbers(s, levels, l, n);
    }
  }

  /** A snapshot of `levels` and a record that adds files with new numbers. */
  lemma TwoRecords(s: B.Edit, e: B.Edit, levels: Levels, came: Levels, bound: nat, st: State)
    requires |levels| == NUM_LEVELS && Says(s, NoFiles(), levels) && Says(e, NoFiles(), came)
    requires OneFilePerNumber(levels) && OneFilePerNumber(came)
    requires forall l, f :: In(levels, l, f) ==> f.number < bound
    requires forall l, f :: In(came, l, f) ==> bound <= f.number < st.nextFile
    requires bound <= st.nextFile && Installed(st).pending == {}
    ensures M.AllNatural([s, e]) && Spent([s, e], st)
    ensures B.Replayed(M.Empty(), [s, e]) == MetaLevels(Changed(levels, NoFiles(), came))
  {
    SnapshotKeeps(s, levels);
    forall l, f | In(came, l, f) ensures MayCome([s], NoFiles(), l, f) {
      TableIsNew(s, levels, bound, f.number);
    }
    assert [s, e] == [s] + [e];
    assert Within(NoFiles(), levels);
    Appends([s], e, NoFiles(), came, levels);
    SnapshotSpent(s, st, levels);
    SpentStep([s], e, NoFiles(), came, st);
  }

  lemma TablesCome(tables: seq<File>, bound: nat, newLog: nat)
    requires Ascending(tables, bound) && forall i :: 0 <= i < |tables| ==> tables[i].number < newLog
    ensures OneFilePerNumber(Recovering(tables))
    ensures forall l, f :: In(Recovering(tables), l, f) ==> bound <= f.number < newLog
  {
  }

  lemma CrashKeeps(st: State, interrupted: set<nat>, live: seq<nat>, tables: seq<File>, cuts: seq<nat>, newLog: nat,
                   after: seq<B.Edit>)
    requires Inv(st) && CanRecover(st, interrupted, live, tables, cuts, newLog)
    requires |after| == 2 && Says(after[0], NoFiles(), st.disk.levels) && Says(after[1], NoFiles(), Recovering(tables))
    ensures Kept(after, Recovered(st, interrupted, live, tables, newLog))
  {
    Unfold(st);
    OpenView(Installed(st));
    OpenDisk(Installed(st));
    TablesCome(tables, st.disk.nextFile, newLog);
    assert after == [after[0], after[1]];
    TwoRecords(after[0], after[1], st.disk.levels, Recovering(tables), st.disk.nextFile,
               Recovered(st, interrupted, live, tables, newLog));
    AddAllIsChange(st.disk.levels, tables);
  }

  // ----- Every run -----

  /** Steps that write nothing take no number back. */
  lemma NumbersStaySpent(st: State, step: Step, next: State)
    requires Next(st, step, next)
    requires !step.LogFlush? && !step.LogCompaction? && !step.LogMove? && !step.Crash?
    ensures next.disk == st.disk && st.nextFile <= next.nextFile
    ensures forall n :: n in Installed(next).pending ==> n in Installed(st).pending || n >= st.nextFile
  {
  }

  lemma QuietKeeps(st: State, step: Step, next: State, log: seq<B.Edit>)
    requires Kept(log, st) && Next(st, step, next)
    requires !step.LogFlush? && !step.LogCompaction? && !step.LogMove? && !step.Crash?
    ensures Kept(log, next)
  {
    NumbersStaySpent(st, step, next);
    StaysKept(log, st, next);
  }

  lemma StaysKept(log: seq<B.Edit>, st: State, next: State)
    requires Kept(log, st) && next.disk == st.disk && st.nextFile <= next.nextFile
    requires forall n :: n in Installed(next).pending ==> n in Installed(st).pending || n >= st.nextFile
    ensures Kept(log, next)
  {
    forall l: nat, n: nat | M.AddedBefore(log, l, n) ensures n < next.nextFile && n !in Installed(next).pending {
      assert n !in Installed(st).pending;
    }
  }

  lemma JobKeeps(st: State, step: Step, next: State, log: seq<B.Edit>, after: seq<B.Edit>)
    requires Inv(st) && Kept(log, st) && Next(st, step, next) && Records(st, step, log, after)
    requires step.LogCompaction? || step.LogMove?
    ensures Kept(after, next)
  {
    if step.LogMove? {
      MoveKeeps(st, log, after);
    } else {
      FinishKeeps(st, step.outs, log, after);
    }
  }

  lemma RecordKeeps(st: State, step: Step, next: State, log: seq<B.Edit>, after: seq<B.Edit>)
    requires Inv(st) && Kept(log, st) && Next(st, step, next) && Records(st, step, log, after)
    ensures Kept(after, next)
  {
    if step.LogFlush? {
      FlushKeeps(st, step.at, step.file, log, after);
    } else if step.LogCompaction? || step.LogMove? {
      JobKeeps(st, step, next, log, after);
    } else if step.Crash? {
      CrashKeeps(st, step.interrupted, step.live, step.tables, step.cuts, step.newLog, after);
    } else {
      QuietKeeps(st, step, next, log);
    }
  }

  /** In every run, every edit that is logged is natural, and the manifest's edits, one after
      the other, give the levels that a crash leaves. */
  lemma {:induction false} RunRecords(states: seq<State>, steps: seq<Step>, logs: seq<seq<B.Edit>>, i: nat)
    requires IsRun(states, steps) && Written(states, steps, logs) && i < |states|
    ensures Kept(logs[i], states[i])
    decreases i
  {
    if i == 0 {
      assert forall l :: 0 <= l < NUM_LEVELS ==> M.Empty()[l] == MetaLevels(NoFiles())[l] by {
        assert forall l, f :: !In(NoFiles(), l, f);
      }
    } else {
      RunRecords(states, steps, logs, i - 1);
      LsmRuns.RunKeeps(states, steps, i - 1);
      RecordKeeps(states[i - 1], steps[i - 1], states[i], logs[i - 1], logs[i]);
    }
  }

  /** What Recover builds from the manifest of any reachable state is what the crash step
      starts from. */
  lemma ManifestIsDisk(states: seq<State>, steps: seq<Step>, logs: seq<seq<B.Edit>>, i: nat)
    requires IsRun(states, steps) && Written(states, steps, logs) && i < |states|
    ensures M.Disciplined(logs[i]) && M.Built(logs[i]) == MetaLevels(states[i].disk.levels)
  {
    RunRecords(states, steps, logs, i);
    M.NaturalIsDisciplined(logs[i]);
    M.BuiltIsReplayed(logs[i]);
  }
}
