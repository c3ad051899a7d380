/** The log-structured merge tree as a state machine: its states and invariants. */
module Lsm {
  // Memtable, immutable memtable, seven levels of table files, snapshots, one
  // background compaction that runs while other steps interleave, a write-ahead log,
  // a manifest and crashes.  The specification is one flat history of operations.

  import opened Entries

  const NUM_LEVELS: nat := 7
  const MAX_MEM_COMPACT_LEVEL: nat := 2

  // ----- The history -----

  datatype Op = Op(user: UserKey, kind: Kind, value: Val)

  /** What became of the operation with a sequence number: it was logged; it is in the log, but
      its writer was told that Sync failed and it is not in memory; or its record was never
      written and only the number is used up. */
  datatype Slot = Done(op: Op) | Limbo(op: Op) | Void

  /** Sequence numbers start at one. */
  type History = seq<Slot>

  function EntryOf(op: Op, i: nat): Entry {
    Entry(op.user, i + 1, op.kind, op.value)
  }

  /** The entry of the i-th operation. */
  function EntryAt(h: History, i: nat): Entry
    requires i < |h| && h[i].Done?
  {
    EntryOf(h[i].op, i)
  }

  predicate Logged(h: History, e: Entry) {
    0 < e.sn <= |h| && h[e.sn - 1].Done? && e == EntryAt(h, e.sn - 1)
  }

  /** The entries with sequence numbers a+1 .. b. */
  ghost function Span(h: History, a: nat, b: nat): (r: set<Entry>)
    ensures forall e :: e in r <==> a < e.sn <= b && Logged(h, e)
  {
    var r := set i | a <= i < b && i < |h| && h[i].Done? :: EntryAt(h, i);
    assert forall e: Entry :: a < e.sn <= b && Logged(h, e) ==> EntryAt(h, e.sn - 1) in r;
    r
  }

  // ----- Table files and levels -----

  datatype File = File(number: nat, size: nat, entries: seq<Entry>)

  predicate ValidFile(f: File) {
    |f.entries| > 0 && Sorted(f.entries)
  }

  function Lo(f: File): UserKey {
    if |f.entries| > 0 then f.entries[0].user else 0.0
  }

  function Hi(f: File): UserKey {
    if |f.entries| > 0 then f.entries[|f.entries| - 1].user else 0.0
  }

  /** User key `u` lies in the key range of `f`. */
  predicate Covers(f: File, u: UserKey) {
    Lo(f) <= u <= Hi(f)
  }

  predicate Apart(f: File, g: File) {
    Hi(f) < Lo(g) || Hi(g) < Lo(f)
  }

  lemma EntriesAreCovered(f: File, e: Entry)
    requires ValidFile(f) && e in f.entries
    ensures Covers(f, e.user)
  {
    var i :| 0 <= i < |f.entries| && f.entries[i] == e;
    assert i > 0 ==> Before(f.entries[0], f.entries[i]);
    assert i < |f.entries| - 1 ==> Before(f.entries[i], f.entries[|f.entries| - 1]);
  }

  type Levels = seq<set<File>>

  predicate In(levels: Levels, l: nat, f: File) {
    l < |levels| && f in levels[l]
  }

  ghost predicate Holds(levels: Levels, l: nat, f: File, e: Entry) {
    In(levels, l, f) && e in f.entries
  }

  ghost function FileEntries(fs: set<File>): set<Entry> {
    set f, e | f in fs && e in f.entries :: e
  }

  ghost function Tables(levels: Levels): set<Entry> {
    set l, f, e | 0 <= l < |levels| && f in levels[l] && e in f.entries :: e
  }

  // ----- Invariants of the levels -----

  ghost predicate FilesOk(h: History, flushed: nat, levels: Levels) {
    && (forall l, f :: In(levels, l, f) ==> ValidFile(f))
    && (forall l, f, e :: Holds(levels, l, f, e) ==> e.sn <= flushed && Logged(h, e))
  }

  /** At level `l` or above it lies an entry newer than `x` that every read at or above
      `floor` sees. */
  ghost predicate Hidden(levels: Levels, floor: nat, l: nat, x: Entry) {
    exists m: nat, g, z :: Holds(levels, m, g, z) && m <= l && Beats(z, x, floor)
  }

  /** `z` is newer than `x`, of the same user key, and seen by every read at or above `floor`. */
  predicate Beats(z: Entry, x: Entry, floor: nat) {
    z.user == x.user && x.sn < z.sn <= floor
  }

  /** Older data is never above newer data of the same user key, unless something
      newer still hides both from every read at or above `floor`. */
  ghost predicate Recency(levels: Levels, floor: nat) {
    forall l, f, e, m, g, x :: Holds(levels, l, f, e) && Holds(levels, m, g, x) && l < m && e.user == x.user
      ==> e.sn > x.sn || Hidden(levels, floor, l, x)
  }

  /** Level-0 files are whole memtables, numbered in the order they were filled. */
  ghost predicate ZeroOrdered(levels: Levels) {
    forall f, e, g, x :: Holds(levels, 0, f, e) && Holds(levels, 0, g, x) && f.number < g.number
      ==> e.sn < x.sn
  }

  /** Every entry of one file precedes every entry of the other. */
  ghost predicate Consecutive(f: File, g: File) {
    || (forall e, x :: e in f.entries && x in g.entries ==> Before(e, x))
    || (forall e, x :: e in f.entries && x in g.entries ==> Before(x, e))
  }

  /** Below level 0 the files of a level follow each other in internal key order; two of
      them may share a user key, one holding its newer and one its older versions. */
  ghost predicate LevelsOrdered(levels: Levels) {
    forall l, f, g :: In(levels, l, f) && In(levels, l, g) && l > 0 && f != g ==> Consecutive(f, g)
  }

  /** An entry is held by one file only. */
  ghost predicate HeldOnce(levels: Levels) {
    forall l, f, m, g, e :: Holds(levels, l, f, e) && Holds(levels, m, g, e) ==> l == m && f == g
  }

  ghost predicate NumbersOk(levels: Levels, nextFile: nat) {
    && (forall l, f :: In(levels, l, f) ==> f.number < nextFile)
    && (forall l, f, m, g :: In(levels, l, f) && In(levels, m, g) && f.number == g.number ==> l == m && f == g)
  }

  ghost predicate LevelsInv(h: History, flushed: nat, floor: nat, levels: Levels, nextFile: nat) {
    && |levels| == NUM_LEVELS
    && FilesOk(h, flushed, levels)
    && Recency(levels, floor)
    && ZeroOrdered(levels)
    && LevelsOrdered(levels)
    && HeldOnce(levels)
    && NumbersOk(levels, nextFile)
  }

  /** Tables plus the logged operations not yet in tables answer every read at
      or above `floor` as the whole history does. */
  ghost predicate Complete(h: History, flushed: nat, floor: nat, levels: Levels) {
    forall u, s :: s >= floor ==>
      Lookup(Tables(levels) + Span(h, flushed, |h|), u, s) == Lookup(Span(h, 0, |h|), u, s)
  }

  // ----- A running compaction -----

  /** Inputs of a compaction of `level` into `level + 1`; `base` is the version
      it was picked from, `cutoff` its smallest snapshot and `unheld` says that
      no snapshot was held when it started. */
  datatype Job = Job(level: nat, in0: set<File>, in1: set<File>, base: Levels, cutoff: nat, unheld: bool)

  ghost predicate IsInput(job: Job, f: File) {
    f in job.in0 || f in job.in1
  }

  ghost function Inputs(job: Job): set<Entry> {
    FileEntries(job.in0 + job.in1)
  }

  /** `u` lies between the smallest and the largest user key of the inputs. */
  ghost predicate InHull(job: Job, u: UserKey) {
    exists f, g :: IsInput(job, f) && IsInput(job, g) && Lo(f) <= u <= Hi(g)
  }

  ghost predicate OutsideHull(job: Job, f: File) {
    forall u :: Covers(f, u) ==> !InHull(job, u)
  }

  /** The ranges of the inputs leave no gap. */
  ghost predicate Gapless(job: Job) {
    forall u :: InHull(job, u) ==> exists f :: IsInput(job, f) && Covers(f, u)
  }

  ghost predicate JobShape(levels: Levels, job: Job) {
    && job.level + 1 < NUM_LEVELS == |levels| == |job.base|
    && job.in0 != {}
    && job.in0 <= levels[job.level]
    && job.in1 <= levels[job.level + 1]
    && Gapless(job)
  }

  /** The inputs all precede the file, or all follow it. */
  ghost predicate Beside(job: Job, f: File) {
    || (forall e, x :: e in Inputs(job) && x in f.entries ==> Before(e, x))
    || (forall e, x :: e in Inputs(job) && x in f.entries ==> Before(x, e))
  }

  ghost predicate TargetBeside(levels: Levels, job: Job) {
    forall f :: In(levels, job.level + 1, f) && f !in job.in1 ==> Beside(job, f)
  }

  /** Files that appeared below the target level after the pick miss the inputs. */
  ghost predicate DeepClear(levels: Levels, job: Job) {
    forall m: nat, f :: In(levels, m, f) && m >= job.level + 2 && !In(job.base, m, f) ==> OutsideHull(job, f)
  }

  // ----- The drop rule -----

  /** A newer entry of the same key that every live snapshot can see. */
  ghost predicate Shadowed(ins: set<Entry>, cutoff: nat, e: Entry) {
    exists x :: x in ins && x.user == e.user && e.sn < x.sn <= cutoff
  }

  /** No file of the picked version below the target level covers `u`. */
  ghost predicate BaseLevelFor(base: Levels, level: nat, u: UserKey) {
    forall m: nat, f :: In(base, m, f) && m >= level + 2 ==> !Covers(f, u)
  }

  ghost predicate Dropped(job: Job, e: Entry) {
    || Shadowed(Inputs(job), job.cutoff, e)
    || (e.kind.Deletion? && e.sn <= job.cutoff && BaseLevelFor(job.base, job.level, e.user))
  }

  ghost function Survivors(job: Job): set<Entry> {
    set e | e in Inputs(job) && !Dropped(job, e)
  }

  // ----- Which picks are safe -----

  /** A file that is no input holds, at level `l` or above it, an entry that hides `x` from
      every read at or above the cutoff. */
  ghost predicate Sheltered(levels: Levels, job: Job, l: nat, x: Entry) {
    exists m: nat, g, z :: Holds(levels, m, g, z) && m <= l && !IsInput(job, g) && Beats(z, x, job.cutoff)
  }

  /** A file left at the level of the inputs holds no older version of a key that leaves it. */
  ghost predicate StaysNewer(levels: Levels, job: Job) {
    forall f, x, g, e ::
      Holds(levels, job.level, f, x) && f !in job.in0 && g in job.in0 && e in g.entries && x.user == e.user
      ==> x.sn > e.sn || Sheltered(levels, job, job.level, e)
  }

  /** The rules give `e` up as an obsolete deletion. */
  ghost predicate Obsolete(job: Job, e: Entry) {
    && e in Inputs(job) && !Shadowed(Inputs(job), job.cutoff, e)
    && e.kind.Deletion? && e.sn <= job.cutoff && BaseLevelFor(job.base, job.level, e.user)
  }

  /** A file left at the target level holds no version that an obsolete deletion covers. */
  ghost predicate UncoversNone(levels: Levels, job: Job) {
    forall e, f, y :: Obsolete(job, e) && Holds(levels, job.level + 1, f, y) && f !in job.in1 && y.user == e.user
      ==> y.sn > e.sn || Sheltered(levels, job, job.level + 1, e)
  }

  /** The picked inputs may be replaced by their survivors. */
  ghost predicate SafePick(levels: Levels, job: Job) {
    StaysNewer(levels, job) && UncoversNone(levels, job)
  }

  ghost predicate JobInv(levels: Levels, job: Job, floor: nat, lastSeq: nat, snapshots: multiset<nat>) {
    && JobShape(levels, job)
    && SafePick(levels, job)
    && TargetBeside(levels, job)
    && DeepClear(levels, job)
    && floor <= job.cutoff <= lastSeq
    && (forall s :: s in snapshots ==> job.cutoff <= s)
    && (job.unheld ==> forall e :: e in Inputs(job) ==> e.sn <= job.cutoff)
  }

  // ----- Outputs -----

  ghost predicate OutputsOk(job: Job, outs: set<File>) {
    && (forall f :: f in outs ==> ValidFile(f))
    && (forall f, g :: f in outs && g in outs && f.number == g.number ==> f == g)
    && (forall f, g :: f in outs && g in outs && f != g ==> Consecutive(f, g))
    && FileEntries(outs) == Survivors(job)
  }

  // ----- Version edits -----

  datatype Edit =
    | FlushEdit(at: nat, file: Option<File>)
    | CompactEdit(job: Job, outs: set<File>)

  function Replace(levels: Levels, l: nat, in0: set<File>, in1: set<File>, outs: set<File>): Levels
    requires l + 1 < |levels|
  {
    levels[l := levels[l] - in0][l + 1 := (levels[l + 1] - in1) + outs]
  }

  function ApplyEdit(levels: Levels, edit: Edit): Levels {
    match edit
    case FlushEdit(l, Some(f)) => if l < |levels| then levels[l := levels[l] + {f}] else levels
    case FlushEdit(_, None) => levels
    case CompactEdit(job, outs) =>
      if job.level + 1 < |levels| then Replace(levels, job.level, job.in0, job.in1, outs) else levels
  }

  // ----- States -----

  /** What a crash leaves of the version set: the replayed manifest. */
  datatype Manifest = Manifest(levels: Levels, logNumber: nat, lastSeq: nat, nextFile: nat)

  /** One log record: a write batch with the sequence number of its first operation. */
  datatype Batch = Batch(first: nat, ops: seq<Op>)

  /** Numbers that a running compaction has taken for its outputs are used by no file. */
  ghost predicate PendingOk(levels: Levels, pending: set<nat>, nextFile: nat) {
    && (forall n :: n in pending ==> n < nextFile)
    && (forall l, f :: In(levels, l, f) ==> f.number !in pending)
  }

  /** History variables: the operations in `0 .. flushed` have reached tables, those up
      to `immEnd` sit in the immutable memtable, and reads below `floor` may
      have been given up by a compaction. */
  datatype Spec = Spec(history: History, flushed: nat, immEnd: nat, floor: nat)

  datatype State = State(
    spec: Spec,
    lastSeq: nat,
    applied: nat,
    mem: set<Entry>,
    imm: Option<set<Entry>>,
    levels: Levels,
    nextFile: nat,
    snapshots: multiset<nat>,
    job: Option<Job>,
    pending: set<nat>,
    installing: Option<Edit>,
    memLog: nat,
    logs: map<nat, seq<Batch>>,
    disk: Manifest)

  function Max(a: nat, b: nat): nat {
    if a < b then b else a
  }

  /** The state once the edit that is already in the manifest reaches memory. */
  function Installed(st: State): State {
    match st.installing
    case None => st
    case Some(edit) =>
      var now := st.(levels := ApplyEdit(st.levels, edit), installing := None);
      match edit
      case FlushEdit(_, _) => now.(imm := None, spec := st.spec.(flushed := st.spec.immEnd))
      case CompactEdit(job, _) =>
        now.(job := None, pending := {}, spec := st.spec.(floor := Max(st.spec.floor, job.cutoff)))
  }

  ghost predicate CountsOk(st: State) {
    && st.spec.floor <= st.lastSeq <= st.applied <= |st.spec.history|
    && st.spec.flushed <= st.spec.immEnd <= st.lastSeq
    && (forall s :: s in st.snapshots ==> st.spec.floor <= s <= st.lastSeq)
    && (forall i :: st.applied <= i < |st.spec.history| ==> st.spec.history[i].Done?)
  }

  ghost predicate MemtablesOk(st: State) {
    && st.mem == Span(st.spec.history, st.spec.immEnd, st.applied)
    && match st.imm
       case None => st.spec.flushed == st.spec.immEnd
       case Some(m) => m == Span(st.spec.history, st.spec.flushed, st.spec.immEnd)
  }

  /** What reads rely on, clause by clause. */
  datatype Clause = Counts | Memtables | Order | Completeness | Background | Numbering

  ghost predicate ViewClause(st: State, c: Clause) {
    match c
    case Counts => CountsOk(st)
    case Memtables => MemtablesOk(st)
    case Order => LevelsInv(st.spec.history, st.spec.flushed, st.spec.floor, st.levels, st.nextFile)
    case Completeness => Complete(st.spec.history, st.spec.flushed, st.spec.floor, st.levels)
    case Background => st.job.Some? ==> JobInv(st.levels, st.job.value, st.spec.floor, st.lastSeq, st.snapshots)
    case Numbering => PendingOk(st.levels, st.pending, st.nextFile)
  }

  ghost predicate ViewInv(st: State) {
    forall c :: ViewClause(st, c)
  }

  lemma OpenView(st: State)
    requires ViewInv(st)
    ensures CountsOk(st) && MemtablesOk(st)
    ensures LevelsInv(st.spec.history, st.spec.flushed, st.spec.floor, st.levels, st.nextFile)
    ensures Complete(st.spec.history, st.spec.flushed, st.spec.floor, st.levels)
    ensures st.job.Some? ==> JobInv(st.levels, st.job.value, st.spec.floor, st.lastSeq, st.snapshots)
    ensures PendingOk(st.levels, st.pending, st.nextFile)
  {
    assert ViewClause(st, Counts) && ViewClause(st, Memtables) && ViewClause(st, Order);
    assert ViewClause(st, Completeness) && ViewClause(st, Background) && ViewClause(st, Numbering);
  }

  // ----- The write-ahead log -----

  predicate AllVoid(h: History, a: nat, b: nat)
    requires b <= |h|
  {
    forall i :: a <= i < b ==> h[i].Void?
  }

  predicate Carries(slot: Slot, op: Op) {
    !slot.Void? && slot.op == op
  }

  /** The operations of the history from `start` on are `ops`, whatever their writers were told. */
  predicate Recorded(h: History, start: nat, ops: seq<Op>)
    requires start + |ops| <= |h|
  {
    forall k :: 0 <= k < |ops| ==> Carries(h[start + k], ops[k])
  }

  /** `batches` are the operations `a .. b` of the history that were logged, cut into records. */
  ghost predicate LogCovers(h: History, batches: seq<Batch>, a: nat, b: nat)
    decreases |batches|
  {
    if |batches| == 0 then a <= b <= |h| && AllVoid(h, a, b)
    else
      var n := |batches| - 1;
      var ops, start := batches[n].ops, batches[n].first - 1;
      && a <= start && start + |ops| <= b <= |h|
      && Recorded(h, start, ops) && AllVoid(h, start + |ops|, b)
      && LogCovers(h, batches[..n], a, start)
  }

  /** Manifest and logs of a state in which no edit is under way. */
  ghost predicate LogsOk(st: State) {
    && st.memLog in st.logs
    && st.disk.logNumber in st.logs
    && (forall n :: n in st.logs ==> 0 < n < st.nextFile)
    && (forall n :: n in st.logs && n >= st.disk.logNumber ==> n == st.disk.logNumber || n == st.memLog)
    && LogCovers(st.spec.history, st.logs[st.memLog], st.spec.immEnd, |st.spec.history|)
    && (if st.imm.None? then st.disk.logNumber == st.memLog
        else st.disk.logNumber < st.memLog
             && LogCovers(st.spec.history, st.logs[st.disk.logNumber], st.spec.flushed, st.spec.immEnd))
  }

  ghost predicate ManifestOk(st: State) {
    && st.disk.levels == st.levels
    && (forall l, f :: In(st.levels, l, f) ==> f.number < st.disk.nextFile)
    && st.disk.nextFile <= st.nextFile
    && st.spec.flushed <= st.disk.lastSeq <= st.lastSeq && st.spec.floor <= st.disk.lastSeq
  }

  datatype DiskClause = Logs | ManifestFile

  ghost predicate HoldsOnDisk(st: State, c: DiskClause) {
    match c
    case Logs => LogsOk(st)
    case ManifestFile => ManifestOk(st)
  }

  /** What recovery relies on, in a state in which no edit is under way. */
  ghost predicate DiskInv(st: State) {
    forall c :: HoldsOnDisk(st, c)
  }

  lemma OpenDisk(st: State)
    requires DiskInv(st)
    ensures LogsOk(st) && ManifestOk(st)
  {
    assert HoldsOnDisk(st, Logs) && HoldsOnDisk(st, ManifestFile);
  }

  /** The immutable memtable stays until its table is installed. */
  predicate InstallingOk(st: State) {
    st.installing.Some? && st.installing.value.FlushEdit? ==> st.imm.Some?
  }

  /** What every reachable state promises: to readers now, to readers once the
      logged edit is installed, and to recovery after a crash. */
  datatype Promise = ReadsNow | ReadsInstalled | Recovery

  ghost predicate Honours(st: State, p: Promise) {
    match p
    case ReadsNow => InstallingOk(st) && ViewInv(st)
    case ReadsInstalled => ViewInv(Installed(st))
    case Recovery => DiskInv(Installed(st))
  }

  ghost predicate Inv(st: State) {
    forall p :: Honours(st, p)
  }

  lemma Unfold(st: State)
    requires Inv(st)
    ensures InstallingOk(st) && ViewInv(st) && ViewInv(Installed(st)) && DiskInv(Installed(st))
  {
    assert Honours(st, ReadsNow) && Honours(st, ReadsInstalled) && Honours(st, Recovery);
  }

  lemma UnfoldIdle(st: State)
    requires Inv(st) && st.installing.None?
    ensures ViewInv(st) && DiskInv(st)
  {
    Unfold(st);
  }

  lemma FoldIdle(st: State)
    requires ViewInv(st) && DiskInv(st) && st.installing.None?
    ensures Inv(st)
  {
    Fold(st);
  }

  lemma Fold(st: State)
    requires InstallingOk(st) && ViewInv(st) && ViewInv(Installed(st)) && DiskInv(Installed(st))
    ensures Inv(st)
  {
  }
}
