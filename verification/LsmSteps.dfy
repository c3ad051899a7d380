/** The steps of the engine. */
module LsmSteps {
  // Steps that hold the mutex are atomic; logging a batch, inserting its operations,
  // writing the manifest and installing the new version are separate steps, so that a
  // crash or another thread can fall between any two of them.

  import opened Entries
  import opened Lsm
  import opened LsmFlush

  datatype Step =
    | LogBatch(ops: seq<Op>)
    | InsertOp
    | Publish
    | AppendFailed(n: nat)
    | SyncFailed
    | Switch
    | Take
    | Release(s: nat)
    | LogFlush(at: nat, file: Option<File>)
    | Pick(job: Job)
    | Reserve
    | Abandon
    | LogCompaction(outs: set<File>)
    | LogMove
    | Install
    | DropLogs(obsolete: set<nat>)
    | Crash(interrupted: set<nat>, live: seq<nat>, tables: seq<File>, cuts: seq<nat>, newLog: nat)

  // ----- Picking inputs -----

  ghost predicate InRange(fs: set<File>, u: UserKey) {
    exists f, g :: f in fs && g in fs && Lo(f) <= u <= Hi(g)
  }

  /** Some user key lies both in the range of `f` and between the extremes of `fs`. */
  ghost predicate Overlaps(f: File, fs: set<File>) {
    exists u :: Covers(f, u) && InRange(fs, u)
  }

  /** What PickCompaction and SetupOtherInputs promise about the files they choose. */
  ghost predicate PickedOk(levels: Levels, job: Job) {
    && job.level + 1 < NUM_LEVELS == |levels|
    && job.base == levels
    && job.in0 != {}
    && job.in0 <= levels[job.level]
    && job.in1 == (set f | f in levels[job.level + 1] && Overlaps(f, job.in0))
    && (job.level == 0 ==> forall f :: f in levels[0] && f !in job.in0 ==> !Overlaps(f, job.in0))
    && Gapless(job)
  }

  /** `cutoff` is the oldest held snapshot, or the last sequence when none is held. */
  ghost predicate CutoffOk(st: State, job: Job) {
    && job.unheld == (st.snapshots == multiset{})
    && (job.unheld ==> job.cutoff == st.lastSeq)
    && (!job.unheld ==> job.cutoff in st.snapshots)
    && (forall s :: s in st.snapshots ==> job.cutoff <= s)
  }

  // ----- Replaying the log -----

  /** The entries of one record, numbered from its first sequence number. */
  function BatchEntries(b: Batch): seq<Entry> {
    seq(|b.ops|, i requires 0 <= i < |b.ops| => Entry(b.ops[i].user, b.first + i, b.ops[i].kind, b.ops[i].value))
  }

  function Replay(batches: seq<Batch>): seq<Entry>
    decreases |batches|
  {
    if |batches| == 0 then []
    else Replay(batches[..|batches| - 1]) + BatchEntries(batches[|batches| - 1])
  }

  /** The largest sequence number RecoverLogFile meets in a log. */
  function MaxLogged(batches: seq<Batch>): nat
    decreases |batches|
  {
    if |batches| == 0 then 0
    else
      var b := batches[|batches| - 1];
      var last := if b.first + |b.ops| > 0 then b.first + |b.ops| - 1 else 0;
      Max(MaxLogged(batches[..|batches| - 1]), last)
  }

  /** `live` lists the logs that the manifest does not declare obsolete, oldest first. */
  ghost predicate LiveLogs(logs: map<nat, seq<Batch>>, logNumber: nat, live: seq<nat>) {
    && (forall n :: n in live <==> n in logs && n >= logNumber)
    && (forall i, j :: 0 <= i < j < |live| ==> live[i] < live[j])
  }

  function ReplayAll(logs: map<nat, seq<Batch>>, live: seq<nat>): seq<Entry>
    requires forall n :: n in live ==> n in logs
    decreases |live|
  {
    if |live| == 0 then []
    else ReplayAll(logs, live[..|live| - 1]) + Replay(logs[live[|live| - 1]])
  }

  function MaxAll(logs: map<nat, seq<Batch>>, live: seq<nat>): nat
    requires forall n :: n in live ==> n in logs
    decreases |live|
  {
    if |live| == 0 then 0
    else Max(MaxAll(logs, live[..|live| - 1]), MaxLogged(logs[live[|live| - 1]]))
  }

  /** `tables` hold the replayed entries `es`, cut into non-empty runs at `cuts`. */
  ghost predicate TablesOf(es: seq<Entry>, tables: seq<File>, cuts: seq<nat>) {
    && |cuts| == |tables| + 1
    && cuts[0] == 0 && cuts[|tables|] == |es|
    && (forall i :: 0 <= i <= |tables| ==> cuts[i] <= |es|)
    && (forall i :: 0 <= i < |tables| ==> TableOf(es, cuts[i], cuts[i + 1], tables[i]))
  }

  /** The recovered tables are numbered upwards from `from`. */
  predicate Ascending(tables: seq<File>, from: nat) {
    && (forall i :: 0 <= i < |tables| ==> from <= tables[i].number)
    && (forall i, j :: 0 <= i < j < |tables| ==> tables[i].number < tables[j].number)
  }

  ghost predicate TableOf(es: seq<Entry>, a: nat, b: nat, f: File) {
    ValidFile(f) && a <= b <= |es| && Elems(f.entries) == Elems(es[a..b])
  }

  // ----- Guards and effects -----

  ghost predicate CanFlush(st: State, at: nat, file: Option<File>) {
    && st.installing.None? && st.imm.Some?
    && match file
       case None => st.imm.value == {}
       case Some(f) =>
         ValidFile(f) && Elems(f.entries) == st.imm.value && f.number == st.nextFile && PlaceOk(st.levels, at, f)
  }

  /** What the code checks when it picks. */
  ghost predicate MayPick(st: State, job: Job) {
    st.installing.None? && st.job.None? && PickedOk(st.levels, job) && CutoffOk(st, job)
  }

  /** The one hypothesis on the code: the pick leaves no older version of a key behind. */
  ghost predicate CanPick(st: State, job: Job) {
    MayPick(st, job) && SafePick(st.levels, job)
  }

  /** Opening an output file takes a number; other steps may take numbers in between. */
  predicate CanReserve(st: State) {
    st.installing.None? && st.job.Some?
  }

  /** Output files may be cut anywhere. */
  ghost predicate CanFinish(st: State, outs: set<File>) {
    && st.installing.None? && st.job.Some?
    && OutputsOk(st.job.value, outs)
    && forall f :: f in outs ==> f.number in st.pending
  }

  predicate CanMove(st: State) {
    && st.installing.None? && st.job.Some?
    && |st.job.value.in0| == 1 && st.job.value.in1 == {}
  }

  /** Recoveries that crashed before they wrote their manifest leave an empty log each. */
  function LeftLogs(logs: map<nat, seq<Batch>>, interrupted: set<nat>): map<nat, seq<Batch>> {
    logs + map n | n in interrupted :: []
  }

  /** Recovery sees the manifest and the logs, nothing else. */
  ghost predicate CanRecover(st: State, interrupted: set<nat>, live: seq<nat>, tables: seq<File>, cuts: seq<nat>,
                             newLog: nat) {
    var logs := LeftLogs(st.logs, interrupted);
    && (forall n, m :: n in interrupted && m in st.logs ==> m < n)
    && LiveLogs(logs, st.disk.logNumber, live)
    && TablesOf(ReplayAll(logs, live), tables, cuts)
    && Ascending(tables, st.disk.nextFile)
    && (forall i :: 0 <= i < |tables| ==> tables[i].number < newLog)
    && (forall n :: n in logs ==> n < newLog)
    && st.disk.nextFile <= newLog
  }

  /** No write is between its log record and its publication. */
  predicate Quiet(st: State) {
    st.lastSeq == st.applied == |st.spec.history|
  }

  predicate CanLog(st: State) {
    Quiet(st) && st.memLog in st.logs
  }

  predicate CanSwitch(st: State) {
    Quiet(st) && st.imm.None?
  }

  function AddAll(levels: Levels, tables: seq<File>): (r: Levels)
    requires |levels| > 0
    ensures |r| == |levels|
    decreases |tables|
  {
    if |tables| == 0 then levels else Add(AddAll(levels, tables[..|tables| - 1]), 0, tables[|tables| - 1])
  }

  function Logging(st: State, edit: Edit, logNumber: nat, next: nat): State {
    st.(installing := Some(edit), nextFile := next,
        disk := Manifest(ApplyEdit(st.levels, edit), logNumber, st.lastSeq, next))
  }

  /** A crash forgets the numbers used up after the last record it finds, and brings back the
      operations in the logs whose writers were told that Sync failed. */
  function Revived(h: History, flushed: nat, seen: nat): (r: History)
    ensures |r| == if seen <= |h| then seen else |h|
  {
    seq(if seen <= |h| then seen else |h|,
        i requires 0 <= i < |h| => if i >= flushed && h[i].Limbo? then Done(h[i].op) else h[i])
  }

  function Recovered(st: State, interrupted: set<nat>, live: seq<nat>, tables: seq<File>, newLog: nat): State
    requires forall n :: n in live ==> n in LeftLogs(st.logs, interrupted)
  {
    var logs, spec := LeftLogs(st.logs, interrupted), Installed(st).spec;
    var seen := Max(st.disk.lastSeq, MaxAll(logs, live));
    var levels := if |st.disk.levels| > 0 then AddAll(st.disk.levels, tables) else st.disk.levels;
    State(Spec(Revived(spec.history, spec.flushed, seen), seen, seen, spec.floor),
          seen, seen, {}, None, levels, newLog + 1, multiset{}, None, {}, None,
          newLog, logs[newLog := []], Manifest(levels, newLog, seen, newLog + 1))
  }

  function AllDone(ops: seq<Op>): History {
    seq(|ops|, i requires 0 <= i < |ops| => Done(ops[i]))
  }

  function WithBatch(st: State, ops: seq<Op>): State
    requires st.memLog in st.logs
  {
    var h := st.spec.history;
    st.(spec := st.spec.(history := h + AllDone(ops)),
        logs := st.logs[st.memLog := st.logs[st.memLog] + [Batch(|h| + 1, ops)]])
  }

  /** The record could not be written: its sequence numbers are used up all the same. */
  function Wasted(st: State, n: nat): State {
    var h := st.spec.history + seq(n, _ => Void);
    st.(spec := st.spec.(history := h), applied := |h|, lastSeq := |h|)
  }

  /** The operations from `a` on, logged but not applied. */
  function Unapplied(h: History, a: nat): (r: History)
    ensures |r| == |h|
  {
    seq(|h|, i requires 0 <= i < |h| => if i >= a && h[i].Done? then Limbo(h[i].op) else h[i])
  }

  /** The record was written and Sync failed: nothing goes into the memtable. */
  function Forsaken(st: State): State {
    st.(spec := st.spec.(history := Unapplied(st.spec.history, st.applied)),
        applied := |st.spec.history|, lastSeq := |st.spec.history|)
  }

  function Switched(st: State): State {
    st.(imm := Some(st.mem), mem := {}, memLog := st.nextFile, nextFile := st.nextFile + 1,
        logs := st.logs[st.nextFile := []], spec := st.spec.(immEnd := |st.spec.history|))
  }

  function Flushing(st: State, at: nat, file: Option<File>): State {
    Logging(st, FlushEdit(at, file), st.memLog, st.nextFile + 1)
  }

  function Picked(st: State, job: Job): State {
    st.(job := Some(job))
  }

  function Reserving(st: State): State {
    st.(pending := st.pending + {st.nextFile}, nextFile := st.nextFile + 1)
  }

  function Abandoned(st: State): State {
    st.(job := None, pending := {})
  }

  function Finishing(st: State, outs: set<File>): State
    requires st.job.Some?
  {
    Logging(st, CompactEdit(st.job.value, outs), st.disk.logNumber, st.nextFile)
  }

  function Moving(st: State): State
    requires st.job.Some?
  {
    Finishing(st, st.job.value.in0)
  }

  /** Steps that touch one field or two. */
  ghost predicate SmallStep(st: State, step: Step, next: State) {
    match step
    case InsertOp =>
      st.applied < |st.spec.history| && st.spec.history[st.applied].Done?
      && next == st.(mem := st.mem + {EntryAt(st.spec.history, st.applied)}, applied := st.applied + 1)
    case Publish => st.applied == |st.spec.history| && next == st.(lastSeq := st.applied)
    case Take => next == st.(snapshots := st.snapshots + multiset{st.lastSeq})
    case Release(s) => s in st.snapshots && next == st.(snapshots := st.snapshots - multiset{s})
    case DropLogs(obsolete) =>
      (forall n :: n in obsolete ==> n < st.disk.logNumber) && next == st.(logs := st.logs - obsolete)
    case _ => false
  }

  ghost predicate Next(st: State, step: Step, next: State) {
    match step
    case LogBatch(ops) => CanLog(st) && next == WithBatch(st, ops)
    case AppendFailed(n) => CanLog(st) && next == Wasted(st, n)
    case SyncFailed => st.applied == st.lastSeq && next == Forsaken(st)
    case Switch => CanSwitch(st) && next == Switched(st)
    case LogFlush(at, file) => CanFlush(st, at, file) && next == Flushing(st, at, file)
    case Pick(job) => CanPick(st, job) && next == Picked(st, job)
    case Reserve => CanReserve(st) && next == Reserving(st)
    case Abandon => st.installing.None? && next == Abandoned(st)
    case LogCompaction(outs) => CanFinish(st, outs) && next == Finishing(st, outs)
    case LogMove => CanMove(st) && next == Moving(st)
    case Install => next == Installed(st)
    case Crash(interrupted, live, tables, cuts, newLog) =>
      && CanRecover(st, interrupted, live, tables, cuts, newLog)
      && next == Recovered(st, interrupted, live, tables, newLog)
    case _ => SmallStep(st, step, next)
  }

  /** A freshly created database. */
  function Start(): State {
    State(Spec([], 0, 0, 0), 0, 0, {}, None, NoFiles(), 4, multiset{}, None, {}, None,
          3, map[3 := []], Manifest(NoFiles(), 3, 0, 4))
  }

  function NoFiles(): (r: Levels)
    ensures |r| == NUM_LEVELS && forall l, f :: !In(r, l, f)
  {
    seq(NUM_LEVELS, i => {})
  }

  /** A run: the states it passes through, the first one freshly created. */
  ghost predicate IsRun(states: seq<State>, steps: seq<Step>) {
    && |states| == |steps| + 1
    && states[0] == Start()
    && forall i :: 0 <= i < |steps| ==> Next(states[i], steps[i], states[i + 1])
  }
}
