/** Runs in which the code makes an unsafe pick and a read goes wrong. */
module LsmStaleRun {
  // Two versions of one key, a snapshot between them.  The first compaction merges their
  // two tables and cuts its output between the versions; every step so far is a step of
  // the engine.  The second one picks the table of the newer version alone, as the code
  // may, and moves it below the older.

  import opened Entries
  import opened Lsm
  import opened LsmFlush
  import opened LsmSteps
  import opened LsmReads
  import opened LsmSplitKeys
  import LC = LsmCompaction

  // ----- Runs step by step -----

  ghost predicate IsPath(a: State, states: seq<State>, steps: seq<Step>, b: State) {
    && |states| == |steps| + 1 && states[0] == a && states[|steps|] == b
    && forall i :: 0 <= i < |steps| ==> Next(states[i], steps[i], states[i + 1])
  }

  ghost predicate Body(a: State, steps: seq<Step>, b: State, lock: Lock) {
    exists states :: IsPath(a, states, steps, b)
  }

  /** The steps lead from `a` to `b`. */
  ghost predicate Leads(a: State, steps: seq<Step>, b: State) {
    forall lock: Lock :: Body(a, steps, b, lock)
  }

  lemma NoSteps(a: State)
    ensures Leads(a, [], a)
  {
    assert IsPath(a, [a], [], a);
  }

  lemma LeadStep(a: State, steps: seq<Step>, m: State, step: Step, b: State)
    requires Leads(a, steps, m) && Next(m, step, b)
    ensures Leads(a, steps + [step], b)
  {
    assert Body(a, steps, m, Lock);
    var states :| IsPath(a, states, steps, m);
    PathStep(a, states, steps, m, step, b);
  }

  lemma PathStep(a: State, states: seq<State>, steps: seq<Step>, m: State, step: Step, b: State)
    requires IsPath(a, states, steps, m) && Next(m, step, b)
    ensures IsPath(a, states + [b], steps + [step], b)
  {
    var more, all := states + [b], steps + [step];
    forall i | 0 <= i < |all| ensures Next(more[i], all[i], more[i + 1]) {
      assert i < |steps| ==> Next(states[i], steps[i], states[i + 1]);
    }
  }

  /** From the start they are a run. */
  lemma LeadsIsRun(steps: seq<Step>, b: State) returns (states: seq<State>)
    requires Leads(Start(), steps, b)
    ensures IsRun(states, steps) && states[|steps|] == b
  {
    assert Body(Start(), steps, b, Lock);
    states :| IsPath(Start(), states, steps, b);
  }

  // ----- One write, one flush -----

  function Written(st: State, op: Op): State
    requires st.memLog in st.logs
  {
    var logged := WithBatch(st, [op]);
    logged.(mem := st.mem + {Entry(op.user, |st.spec.history| + 1, op.kind, op.value)},
            applied := st.applied + 1, lastSeq := st.applied + 1)
  }

  lemma WriteLeads(a: State, steps: seq<Step>, st: State, op: Op)
    requires Leads(a, steps, st) && CanLog(st)
    ensures Leads(a, steps + [LogBatch([op])] + [InsertOp] + [Publish], Written(st, op))
  {
    var logged := WithBatch(st, [op]);
    var inserted := logged.(mem := st.mem + {EntryAt(logged.spec.history, st.applied)}, applied := st.applied + 1);
    LeadStep(a, steps, st, LogBatch([op]), logged);
    LeadStep(a, steps + [LogBatch([op])], logged, InsertOp, inserted);
    LeadStep(a, steps + [LogBatch([op])] + [InsertOp], inserted, Publish, inserted.(lastSeq := inserted.applied));
  }

  function Flushed(st: State, at: nat, f: File): State {
    Installed(Flushing(Switched(st), at, Some(f)))
  }

  lemma FlushLeads(a: State, steps: seq<Step>, st: State, at: nat, f: File)
    requires Leads(a, steps, st) && CanSwitch(st) && CanFlush(Switched(st), at, Some(f))
    ensures Leads(a, steps + [Switch] + [LogFlush(at, Some(f))] + [Install], Flushed(st, at, f))
  {
    LeadStep(a, steps, st, Switch, Switched(st));
    LeadStep(a, steps + [Switch], Switched(st), LogFlush(at, Some(f)), Flushing(Switched(st), at, Some(f)));
    LeadStep(a, steps + [Switch] + [LogFlush(at, Some(f))],
             Flushing(Switched(st), at, Some(f)), Install, Flushed(st, at, f));
  }

  // ----- The entries and tables -----

  const OLD := Entry(0.0, 1, Value, "old")
  const NEW := Entry(0.0, 2, Value, "new")
  const WRITE_OLD := Op(0.0, Value, "old")
  const WRITE_NEW := Op(0.0, Value, "new")

  /** As flushed: the first to the deepest level allowed, the second just above it. */
  const FIRST := File(5, 1, [OLD])
  const SECOND := File(7, 1, [NEW])

  /** As the merge cuts them. */
  const NEWER := File(8, 1, [NEW])
  const OLDER := File(9, 1, [OLD])

  function Three(one: set<File>, two: set<File>, three: set<File>): (r: Levels)
    ensures |r| == NUM_LEVELS
  {
    [{}, one, two, three, {}, {}, {}]
  }

  lemma ThreeAdd(f: File, two: set<File>)
    ensures NoFiles() == Three({}, {}, {})
    ensures Three({}, {f}, {}) == Three({}, {}, {})[2 := Three({}, {}, {})[2] + {f}]
    ensures Three({f}, two, {}) == Three({}, two, {})[1 := Three({}, two, {})[1] + {f}]
  {
    assert {} + {f} == {f};
  }

  const MERGE := Job(1, {SECOND}, {FIRST}, Three({SECOND}, {FIRST}, {}), 1, false)
  const MOVE := Job(2, {NEWER}, {}, Three({}, {NEWER, OLDER}, {}), 1, false)

  // ----- The states on the way -----

  function AfterFirst(): State {
    Flushed(Written(Start(), WRITE_OLD), 2, FIRST)
  }

  function AfterSecond(): State {
    var st := AfterFirst();
    var held := st.(snapshots := st.snapshots + multiset{st.lastSeq});
    if held.memLog in held.logs then Flushed(Written(held, WRITE_NEW), 1, SECOND) else held
  }

  function AfterMerge(): State {
    Installed(Finishing(Reserving(Reserving(Picked(AfterSecond(), MERGE))), {NEWER, OLDER}))
  }

  function AfterMove(): State {
    Installed(Moving(Picked(AfterMerge(), MOVE)))
  }

  /** What the next steps look at. */
  ghost predicate Looks(st: State, history: History, levels: Levels, nextFile: nat, snapshots: multiset<nat>) {
    && st.spec.history == history && Quiet(st) && st.mem == {} && st.imm.None?
    && st.levels == levels && st.nextFile == nextFile && st.snapshots == snapshots
    && st.job.None? && st.installing.None? && st.pending == {} && st.memLog in st.logs
  }

  lemma FlushLooks(st: State, op: Op, e: Entry, at: nat, f: File, history: History, levels: Levels, after: Levels,
                   nextFile: nat,
                   snapshots: multiset<nat>)
    requires Looks(st, history, levels, nextFile, snapshots) && e == Entry(op.user, |history| + 1, op.kind, op.value)
    requires f == File(nextFile + 1, 1, [e]) && PlaceOk(levels, at, f) && after == levels[at := levels[at] + {f}]
    ensures CanLog(st) && CanSwitch(Written(st, op)) && CanFlush(Switched(Written(st, op)), at, Some(f))
    ensures Looks(Flushed(Written(st, op), at, f), history + [Done(op)], after, nextFile + 2, snapshots)
  {
    assert Elems(f.entries) == {e} by { assert e in f.entries; }
  }

  lemma FirstLeads(steps: seq<Step>)
    requires Leads(Start(), steps, Start())
    ensures Looks(AfterFirst(), [Done(WRITE_OLD)], Three({}, {FIRST}, {}), 6, multiset{})
    ensures Leads(Start(), steps + WriteSteps(WRITE_OLD) + FlushSteps(2, FIRST), AfterFirst())
  {
    ThreeAdd(FIRST, {});
    FlushLooks(Start(), WRITE_OLD, OLD, 2, FIRST, [], Three({}, {}, {}), Three({}, {FIRST}, {}), 4, multiset{});
    assert [] + [Done(WRITE_OLD)] == [Done(WRITE_OLD)];
    WriteFlushLeads(Start(), steps, Start(), WRITE_OLD, 2, FIRST);
  }

  function WriteSteps(op: Op): seq<Step> { [LogBatch([op]), InsertOp, Publish] }

  function FlushSteps(at: nat, f: File): seq<Step> { [Switch, LogFlush(at, Some(f)), Install] }

  lemma WriteFlushLeads(a: State, steps: seq<Step>, st: State, op: Op, at: nat, f: File)
    requires Leads(a, steps, st) && CanLog(st) && CanSwitch(Written(st, op))
    requires CanFlush(Switched(Written(st, op)), at, Some(f))
    ensures Leads(a, steps + WriteSteps(op) + FlushSteps(at, f), Flushed(Written(st, op), at, f))
  {
    WriteLeads(a, steps, st, op);
    assert steps + [LogBatch([op])] + [InsertOp] + [Publish] == steps + WriteSteps(op);
    FlushLeads(a, steps + WriteSteps(op), Written(st, op), at, f);
    assert steps + WriteSteps(op) + [Switch] + [LogFlush(at, Some(f))] + [Install]
           == steps + WriteSteps(op) + FlushSteps(at, f);
  }

  lemma SecondLeads(steps: seq<Step>)
    requires Leads(Start(), steps, AfterFirst())
    requires Looks(AfterFirst(), [Done(WRITE_OLD)], Three({}, {FIRST}, {}), 6, multiset{})
    ensures Looks(AfterSecond(), [Done(WRITE_OLD), Done(WRITE_NEW)], Three({SECOND}, {FIRST}, {}), 8, multiset{1})
    ensures Leads(Start(), steps + [Take] + WriteSteps(WRITE_NEW) + FlushSteps(1, SECOND), AfterSecond())
  {
    var st := AfterFirst();
    var held := st.(snapshots := st.snapshots + multiset{st.lastSeq});
    LeadStep(Start(), steps, st, Take, held);
    var before, after := Three({}, {FIRST}, {}), Three({SECOND}, {FIRST}, {});
    ThreeAdd(SECOND, {FIRST});
    assert held.snapshots == multiset{1};
    FlushLooks(held, WRITE_NEW, NEW, 1, SECOND, [Done(WRITE_OLD)], before, after, 6, multiset{1});
    assert [Done(WRITE_OLD)] + [Done(WRITE_NEW)] == [Done(WRITE_OLD), Done(WRITE_NEW)];
    WriteFlushLeads(Start(), steps + [Take], held, WRITE_NEW, 1, SECOND);
  }

  // ----- The merge -----

  lemma MergeInputs()
    ensures Inputs(MERGE) == {NEW, OLD} && Survivors(MERGE) == {NEW, OLD}
  {
    assert MERGE.in0 + MERGE.in1 == {SECOND, FIRST};
    assert NEW in SECOND.entries && OLD in FIRST.entries;
    assert !Dropped(MERGE, NEW) && !Dropped(MERGE, OLD);
  }

  lemma MergePicked()
    ensures PickedOk(Three({SECOND}, {FIRST}, {}), MERGE) && SafePick(Three({SECOND}, {FIRST}, {}), MERGE)
  {
    var levels := Three({SECOND}, {FIRST}, {});
    assert Covers(FIRST, 0.0) && InRange(MERGE.in0, 0.0);
    assert Overlaps(FIRST, MERGE.in0);
    assert MERGE.in1 == set f | f in levels[2] && Overlaps(f, MERGE.in0);
    forall u | InHull(MERGE, u) ensures exists f :: IsInput(MERGE, f) && Covers(f, u) {
      assert IsInput(MERGE, SECOND) && Covers(SECOND, u);
    }
    MergeInputs();
  }

  lemma MergeOutputs()
    ensures OutputsOk(MERGE, {NEWER, OLDER})
  {
    MergeInputs();
    assert FileEntries({NEWER, OLDER}) == {NEW, OLD} by {
      assert NEW in NEWER.entries && OLD in OLDER.entries;
    }
    assert Consecutive(NEWER, OLDER) && Consecutive(OLDER, NEWER);
  }

  function MergeSteps(): seq<Step> { [Pick(MERGE), Reserve, Reserve, LogCompaction({NEWER, OLDER}), Install] }

  /** Cut between the two versions, as the loop may at any point. */
  lemma MergeLeads(steps: seq<Step>)
    requires Leads(Start(), steps, AfterSecond())
    requires Looks(AfterSecond(), [Done(WRITE_OLD), Done(WRITE_NEW)], Three({SECOND}, {FIRST}, {}), 8, multiset{1})
    ensures Looks(AfterMerge(), [Done(WRITE_OLD), Done(WRITE_NEW)], Three({}, {NEWER, OLDER}, {}), 10, multiset{1})
    ensures Leads(Start(), steps + MergeSteps(), AfterMerge())
  {
    var st := AfterSecond();
    MergePicked();
    MergeOutputs();
    var picked := Picked(st, MERGE);
    var both := Reserving(Reserving(picked));
    assert both.pending == {8, 9} && both.nextFile == 10;
    LeadStep(Start(), steps, st, Pick(MERGE), picked);
    ReserveTwice(steps + [Pick(MERGE)], picked);
    MergeEnds(steps + [Pick(MERGE)] + [Reserve] + [Reserve], both);
    assert steps + [Pick(MERGE)] + [Reserve] + [Reserve] + [LogCompaction({NEWER, OLDER})] + [Install]
           == steps + MergeSteps();
  }

  lemma ReserveTwice(steps: seq<Step>, st: State)
    requires Leads(Start(), steps, st) && CanReserve(st)
    ensures Leads(Start(), steps + [Reserve] + [Reserve], Reserving(Reserving(st)))
  {
    LeadStep(Start(), steps, st, Reserve, Reserving(st));
    LeadStep(Start(), steps + [Reserve], Reserving(st), Reserve, Reserving(Reserving(st)));
  }

  lemma MergeEnds(steps: seq<Step>, both: State)
    requires Leads(Start(), steps, both) && both.job == Some(MERGE) && both.pending == {8, 9} && both.installing.None?
    requires OutputsOk(MERGE, {NEWER, OLDER}) && both.levels == Three({SECOND}, {FIRST}, {})
    ensures Leads(Start(), steps + [LogCompaction({NEWER, OLDER})] + [Install],
                  Installed(Finishing(both, {NEWER, OLDER})))
    ensures Installed(Finishing(both, {NEWER, OLDER})).levels == Three({}, {NEWER, OLDER}, {})
  {
    var outs := {NEWER, OLDER};
    LeadStep(Start(), steps, both, LogCompaction(outs), Finishing(both, outs));
    LeadStep(Start(), steps + [LogCompaction(outs)], Finishing(both, outs), Install, Installed(Finishing(both, outs)));
    var levels := both.levels;
    assert levels[1] - {SECOND} == {} && levels[2] - {FIRST} + outs == outs;
    assert Replace(levels, 1, {SECOND}, {FIRST}, outs) == Three({}, outs, {});
  }

  // ----- The unsafe pick -----

  lemma MovePicked()
    ensures PickedOk(Three({}, {NEWER, OLDER}, {}), MOVE) && !SafePick(Three({}, {NEWER, OLDER}, {}), MOVE)
  {
    var levels := Three({}, {NEWER, OLDER}, {});
    forall u | InHull(MOVE, u) ensures exists f :: IsInput(MOVE, f) && Covers(f, u) {
      assert IsInput(MOVE, NEWER) && Covers(NEWER, u);
    }
    assert MOVE.in1 == set f | f in levels[3] && Overlaps(f, MOVE.in0);
    assert NEW in NEWER.entries && OLD in OLDER.entries;
    assert Holds(levels, 2, OLDER, OLD) && OLDER !in MOVE.in0 && NEWER in MOVE.in0;
    assert !Sheltered(levels, MOVE, 2, NEW);
  }

  lemma MoveLooks()
    requires Looks(AfterMerge(), [Done(WRITE_OLD), Done(WRITE_NEW)], Three({}, {NEWER, OLDER}, {}), 10, multiset{1})
    ensures CanMove(Picked(AfterMerge(), MOVE))
    ensures Looks(AfterMove(), [Done(WRITE_OLD), Done(WRITE_NEW)], Three({}, {OLDER}, {NEWER}), 10, multiset{1})
  {
    MoveLevels();
  }

  lemma MoveLevels()
    ensures Replace(Three({}, {NEWER, OLDER}, {}), 2, {NEWER}, {}, {NEWER}) == Three({}, {OLDER}, {NEWER})
  {
    var levels := Three({}, {NEWER, OLDER}, {});
    assert levels[2] - {NEWER} == {OLDER} && levels[3] - {} + {NEWER} == {NEWER};
  }

  /** The search stops at the first layer that has an answer. */
  lemma FourthLayerAnswers(ls: seq<set<Entry>>)
    requires |ls| == 8 && ls[0] == {} && ls[1] == {} && ls[2] == {} && ls[3] == {OLD}
    ensures Search(ls, 0.0, 2) == Found("old")
  {
    assert IsNewest({OLD}, 0.0, 2, OLD);
    LookupIs({OLD}, 0.0, 2, OLD);
    var i := FirstLayer(ls, 0.0, 2);
    assert Seen(ls[3], 0.0, 2, OLD);
    assert i == 3;
  }

  lemma HistoryAnswers()
    ensures Lookup(Span([Done(WRITE_OLD), Done(WRITE_NEW)], 0, 2), 0.0, 2) == Found("new")
  {
    var h := [Done(WRITE_OLD), Done(WRITE_NEW)];
    var all := Span(h, 0, 2);
    assert EntryAt(h, 1) == NEW && Logged(h, NEW);
    LC.LoggedUnique(h, all);
    assert IsNewest(all, 0.0, 2, NEW);
    LookupIs(all, 0.0, 2, NEW);
  }

  /** A run of the engine up to a state in which the code may pick what is not safe; the move
      and its installation follow; and a read at the last sequence finds the old version,
      though the history has a newer one. */
  lemma StaleRead() returns (states: seq<State>, steps: seq<Step>, before: State, after: State)
    ensures IsRun(states, steps) && states[|steps|] == before
    ensures MayPick(before, MOVE) && !SafePick(before.levels, MOVE)
    ensures CanMove(Picked(before, MOVE)) && after == Installed(Moving(Picked(before, MOVE)))
    ensures after.lastSeq == 2 && ZeroListing(after, [])
    ensures Search(Layers(after, []), 0.0, 2) == Found("old")
    ensures Lookup(Span(after.spec.history, 0, |after.spec.history|), 0.0, 2) == Found("new")
  {
    NoSteps(Start());
    FirstLeads([]);
    var one := [] + WriteSteps(WRITE_OLD) + FlushSteps(2, FIRST);
    SecondLeads(one);
    var two := one + [Take] + WriteSteps(WRITE_NEW) + FlushSteps(1, SECOND);
    MergeLeads(two);
    steps, before, after := two + MergeSteps(), AfterMerge(), AfterMove();
    states := LeadsIsRun(steps, before);
    MovePicked();
    MoveLooks();
    StaleLayers(after);
    FourthLayerAnswers(Layers(after, []));
    HistoryAnswers();
  }

  lemma StaleLayers(st: State)
    requires Looks(st, [Done(WRITE_OLD), Done(WRITE_NEW)], Three({}, {OLDER}, {NEWER}), 10, multiset{1})
    ensures ZeroListing(st, [])
    ensures var ls := Layers(st, []);
            |ls| == 8 && ls[0] == {} && ls[1] == {} && ls[2] == {} && ls[3] == {OLD}
  {
    assert FileEntries({OLDER}) == {OLD} by { assert OLD in OLDER.entries; }
    assert FileEntries({}) == {};
  }

  // ----- A dropped deletion -----

  const KEPT := Entry(-1.0, 4, Value, "kept")
  const GONE := Entry(0.0, 3, Deletion, "")
  const BELOW := Entry(-1.0, 2, Value, "below")
  const UPPER := File(6, 1, [KEPT, GONE])
  const LEFT := File(7, 1, [OLD])
  const LOWER := File(5, 1, [BELOW])
  const DROP := Job(1, {UPPER}, {LOWER}, Three({UPPER, LEFT}, {LOWER}, {}), 4, true)
  const RESULT := File(8, 1, [KEPT])

  lemma DropInputs()
    ensures Inputs(DROP) == {KEPT, GONE, BELOW} && Survivors(DROP) == {KEPT} && Obsolete(DROP, GONE)
  {
    assert DROP.in0 + DROP.in1 == {UPPER, LOWER};
    assert KEPT in UPPER.entries && GONE in UPPER.entries && BELOW in LOWER.entries;
    assert forall e :: e in UPPER.entries ==> e == KEPT || e == GONE;
    assert Inputs(DROP) == {KEPT, GONE, BELOW};
    assert Shadowed(Inputs(DROP), 4, BELOW);
    assert !Dropped(DROP, KEPT);
    assert BaseLevelFor(DROP.base, 1, 0.0);
    assert Dropped(DROP, GONE);
  }

  lemma DropPicked()
    ensures PickedOk(DROP.base, DROP) && OutputsOk(DROP, {RESULT})
  {
    assert Covers(LOWER, -1.0) && InRange(DROP.in0, -1.0) && Overlaps(LOWER, DROP.in0);
    assert DROP.in1 == set f | f in DROP.base[2] && Overlaps(f, DROP.in0);
    forall u | InHull(DROP, u) ensures exists f :: IsInput(DROP, f) && Covers(f, u) {
      assert IsInput(DROP, UPPER) && Covers(UPPER, u);
    }
    DropInputs();
    assert FileEntries({RESULT}) == {KEPT} by { assert KEPT in RESULT.entries; }
  }

  lemma DropTables()
    ensures Tables(DROP.base) == {KEPT, GONE, OLD, BELOW}
    ensures Tables(Replace(DROP.base, 1, DROP.in0, DROP.in1, {RESULT})) == {KEPT, OLD}
  {
    var levels := DROP.base;
    var after := Replace(levels, 1, DROP.in0, DROP.in1, {RESULT});
    assert after[1] == {LEFT} && after[2] == {RESULT};
    assert forall l :: 0 <= l < 7 && l != 1 && l != 2 ==> levels[l] == {} && after[l] == {};
    assert Holds(levels, 1, UPPER, KEPT) && Holds(levels, 1, UPPER, GONE) && Holds(levels, 1, LEFT, OLD)
           && Holds(levels, 2, LOWER, BELOW) by {
      assert UPPER.entries[0] == KEPT && UPPER.entries[1] == GONE && LEFT.entries[0] == OLD
             && LOWER.entries[0] == BELOW;
    }
    assert Holds(after, 1, LEFT, OLD) && Holds(after, 2, RESULT, KEPT) by {
      assert LEFT.entries[0] == OLD && RESULT.entries[0] == KEPT;
    }
    forall e ensures e in Tables(levels) <==> e in {KEPT, GONE, OLD, BELOW} {
      LC.InTables(levels, e);
    }
    forall e ensures e in Tables(after) <==> e in {KEPT, OLD} {
      LC.InTables(after, e);
    }
  }

  /** The merge keeps all that it should and cuts nothing, and older data stays below newer;
      yet the deletion it may drop hid a version that stays behind. */
  lemma DroppedDeletion()
    ensures PickedOk(DROP.base, DROP) && OutputsOk(DROP, {RESULT}) && !SafePick(DROP.base, DROP)
    ensures Lookup(Tables(DROP.base), 0.0, 4) == NotFound
    ensures Lookup(Tables(Replace(DROP.base, 1, DROP.in0, DROP.in1, {RESULT})), 0.0, 4) == Found("old")
  {
    DropPicked();
    DropTables();
    DropUnsafe();
    DropReads();
  }

  lemma DropReads()
    ensures Lookup({KEPT, GONE, OLD, BELOW}, 0.0, 4) == NotFound && Lookup({KEPT, OLD}, 0.0, 4) == Found("old")
  {
    assert IsNewest({KEPT, GONE, OLD, BELOW}, 0.0, 4, GONE);
    LookupIs({KEPT, GONE, OLD, BELOW}, 0.0, 4, GONE);
    assert IsNewest({KEPT, OLD}, 0.0, 4, OLD);
    LookupIs({KEPT, OLD}, 0.0, 4, OLD);
  }

  lemma DropUnsafe()
    ensures !SafePick(DROP.base, DROP)
  {
    var levels := DROP.base;
    assert GONE in UPPER.entries && OLD in LEFT.entries;
    assert Holds(levels, 1, LEFT, OLD) && LEFT !in DROP.in0 && UPPER in DROP.in0;
    assert !Sheltered(levels, DROP, 1, GONE);
  }
}
