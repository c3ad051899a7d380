/** Every step keeps the invariant, so every run does, crashes included. */
module LsmRuns {
  import opened Entries
  import opened Lsm
  import opened LsmFlush
  import opened LsmSteps
  import LC = LsmCompaction
  import LR = LsmRecovery

  // ----- Growing the history -----

  lemma SpanGrows(h: History, more: History, a: nat, b: nat)
    requires b <= |h|
    ensures Span(h + more, a, b) == Span(h, a, b)
  {
    assert forall e: Entry :: e.sn <= |h| ==> (Logged(h, e) <==> Logged(h + more, e));
  }

  lemma LevelsGrow(h: History, more: History, flushed: nat, floor: nat, levels: Levels, nextFile: nat)
    requires LevelsInv(h, flushed, floor, levels, nextFile)
    ensures LevelsInv(h + more, flushed, floor, levels, nextFile)
  {
    assert forall e: Entry :: Logged(h, e) ==> Logged(h + more, e);
  }

  lemma CompleteGrows(h: History, more: History, flushed: nat, floor: nat, levels: Levels)
    requires flushed <= |h| && FilesOk(h, flushed, levels) && Complete(h, flushed, floor, levels)
    ensures Complete(h + more, flushed, floor, levels)
  {
    var g := h + more;
    assert g[..flushed] == h[..flushed];
    assert forall e: Entry :: Logged(h, e) ==> Logged(g, e);
    LR.CompleteMore(h, g, flushed, floor, levels);
  }

  /** What is logged after `b` does not touch a log that ends there. */
  lemma {:induction false} LogGrows(h: History, g: History, batches: seq<Batch>, a: nat, b: nat)
    requires LogCovers(h, batches, a, b) && b <= |g| && SameRecords(h, g, b)
    ensures LogCovers(g, batches, a, b)
    decreases |batches|
  {
    if |batches| > 0 {
      var n := |batches| - 1;
      var ops, start := batches[n].ops, batches[n].first - 1;
      LogGrows(h, g, batches[..n], a, start);
      SameRecord(h, g, start, ops, b);
    }
  }

  lemma SameRecord(h: History, g: History, start: nat, ops: seq<Op>, b: nat)
    requires SameRecords(h, g, b) && start + |ops| <= b
    requires Recorded(h, start, ops) && AllVoid(h, start + |ops|, b)
    ensures Recorded(g, start, ops) && AllVoid(g, start + |ops|, b)
  {
    forall k | 0 <= k < |ops| ensures Carries(g[start + k], ops[k]) {
      assert Carries(h[start + k], ops[k]);
    }
    forall i | start + |ops| <= i < b ensures g[i].Void? {
      assert h[i].Void?;
    }
  }

  /** Up to `b` the same operations were logged. */
  ghost predicate SameRecords(h: History, g: History, b: nat) {
    && b <= |h| && b <= |g|
    && forall i :: 0 <= i < b ==> h[i].Void? == g[i].Void? && (!h[i].Void? ==> h[i].op == g[i].op)
  }

  lemma {:induction false} LogAppend(h: History, ops: seq<Op>, batches: seq<Batch>, a: nat)
    requires LogCovers(h, batches, a, |h|)
    ensures LogCovers(h + AllDone(ops), batches + [Batch(|h| + 1, ops)], a, |h| + |ops|)
  {
    var more, g := batches + [Batch(|h| + 1, ops)], h + AllDone(ops);
    assert more[..|more| - 1] == batches;
    assert forall k :: 0 <= k < |ops| ==> g[|h| + k] == Done(ops[k]);
    LogGrows(h, g, batches, a, |h|);
    LogStartsBefore(h, batches, a, |h|);
  }

  /** Numbers used up at the end leave the log as it is. */
  lemma {:induction false} LogWastes(h: History, n: nat, batches: seq<Batch>, a: nat)
    requires LogCovers(h, batches, a, |h|)
    ensures LogCovers(h + seq(n, _ => Void), batches, a, |h| + n)
  {
    var g := h + seq(n, _ => Void);
    if |batches| > 0 {
      var last := |batches| - 1;
      LogGrows(h, g, batches[..last], a, batches[last].first - 1);
    }
  }

  lemma LogStartsBefore(h: History, batches: seq<Batch>, a: nat, b: nat)
    requires LogCovers(h, batches, a, b)
    ensures a <= b
    decreases |batches|
  {
  }

  // ----- Failed writes -----

  lemma SpanVoid(h: History, n: nat, a: nat)
    requires a <= |h|
    ensures Span(h + seq(n, _ => Void), a, |h| + n) == Span(h, a, |h|)
  {
    var g := h + seq(n, _ => Void);
    assert forall e: Entry :: Logged(g, e) <==> Logged(h, e);
  }

  lemma WastedView(st: State, n: nat)
    requires ViewInv(st) && CanLog(st)
    ensures ViewInv(Wasted(st, n))
  {
    OpenView(st);
    var h, spec, more := st.spec.history, st.spec, seq(n, _ => Void);
    LevelsGrow(h, more, spec.flushed, spec.floor, st.levels, st.nextFile);
    CompleteGrows(h, more, spec.flushed, spec.floor, st.levels);
    SpanVoid(h, n, spec.immEnd);
    SpanGrows(h, more, spec.flushed, spec.immEnd);
  }

  lemma WastedDisk(st: State, n: nat)
    requires DiskInv(st) && st.spec.immEnd <= |st.spec.history| && CanLog(st)
    ensures DiskInv(Wasted(st, n))
  {
    OpenDisk(st);
    var h, more := st.spec.history, seq(n, _ => Void);
    LogWastes(h, n, st.logs[st.memLog], st.spec.immEnd);
    if st.imm.Some? {
      LogGrows(h, h + more, st.logs[st.disk.logNumber], st.spec.flushed, st.spec.immEnd);
    }
  }

  lemma WastedKeeps(st: State, n: nat)
    requires Inv(st) && CanLog(st)
    ensures Inv(Wasted(st, n))
  {
    Unfold(st);
    assert CanLog(Installed(st)) && Installed(Wasted(st, n)) == Wasted(Installed(st), n);
    WastedView(st, n);
    WastedView(Installed(st), n);
    OpenView(Installed(st));
    WastedDisk(Installed(st), n);
    Fold(Wasted(st, n));
  }

  /** What is forsaken is gone for readers; nothing before it changes. */
  lemma SpanForsaken(h: History, a: nat, x: nat, y: nat)
    requires x <= a <= |h|
    ensures y <= a ==> Span(Unapplied(h, a), x, y) == Span(h, x, y)
    ensures Span(Unapplied(h, a), x, |h|) == Span(h, x, a)
  {
    var g := Unapplied(h, a);
    assert forall e: Entry :: Logged(g, e) <==> Logged(h, e) && e.sn <= a;
  }

  lemma CompleteForsaken(h: History, a: nat, flushed: nat, floor: nat, levels: Levels)
    requires flushed <= a <= |h| && floor <= a && FilesOk(h, flushed, levels) && Complete(h, flushed, floor, levels)
    ensures Complete(Unapplied(h, a), flushed, floor, levels)
  {
    var g := Unapplied(h, a);
    SpanForsaken(h, a, flushed, a);
    SpanForsaken(h, a, 0, a);
    LC.AllLogged(h, flushed, levels);
    var kept, all := Tables(levels) + Span(h, flushed, |h|), Span(h, 0, |h|);
    LC.LoggedUnique(h, kept);
    LC.LoggedUnique(h, all);
    forall u, s: nat | s >= floor
      ensures Lookup(Tables(levels) + Span(g, flushed, |g|), u, s) == Lookup(Span(g, 0, |g|), u, s)
    {
      var t := if s < a then s else a;
      LC.LoggedUnique(h, Tables(levels) + Span(h, flushed, a));
      LC.LoggedUnique(h, Span(h, 0, a));
      LookupAt(Tables(levels) + Span(h, flushed, a), kept, u, s, t);
      LookupAt(Span(h, 0, a), all, u, s, t);
    }
  }

  /** Entries up to `t` answer at `s` as more entries do at `t`. */
  lemma LookupAt(some: set<Entry>, more: set<Entry>, u: UserKey, s: nat, t: nat)
    requires UniqueSn(some) && UniqueSn(more) && some <= more && t <= s
    requires forall e :: e in more && e.sn <= t ==> e in some
    requires forall e :: e in some && e.sn <= s ==> e.sn <= t
    ensures Lookup(some, u, s) == Lookup(more, u, t)
  {
    if x :| Seen(some, u, s, x) {
      var e := NewestExists(some, u, s, x);
      LookupIs(some, u, s, e);
      LookupIs(more, u, t, e);
    } else {
      assert forall e :: Seen(more, u, t, e) ==> Seen(some, u, s, e);
      LookupNone(some, u, s);
      LookupNone(more, u, t);
    }
  }

  lemma ForsakenView(st: State)
    requires ViewInv(st) && st.applied == st.lastSeq
    ensures ViewInv(Forsaken(st))
  {
    OpenView(st);
    var h, spec, a := st.spec.history, st.spec, st.applied;
    assert forall e: Entry :: Logged(h, e) && e.sn <= a ==> Logged(Unapplied(h, a), e);
    CompleteForsaken(h, a, spec.flushed, spec.floor, st.levels);
    SpanForsaken(h, a, spec.immEnd, a);
    SpanForsaken(h, a, spec.flushed, spec.immEnd);
  }

  lemma ForsakenDisk(st: State)
    requires DiskInv(st) && CountsOk(st)
    ensures DiskInv(Forsaken(st))
  {
    OpenDisk(st);
    var h := st.spec.history;
    var g := Unapplied(h, st.applied);
    LogGrows(h, g, st.logs[st.memLog], st.spec.immEnd, |h|);
    if st.imm.Some? {
      LogGrows(h, g, st.logs[st.disk.logNumber], st.spec.flushed, st.spec.immEnd);
    }
  }

  lemma ForsakenKeeps(st: State)
    requires Inv(st) && st.applied == st.lastSeq
    ensures Inv(Forsaken(st))
  {
    Unfold(st);
    assert Installed(Forsaken(st)) == Forsaken(Installed(st));
    ForsakenView(st);
    ForsakenView(Installed(st));
    OpenView(Installed(st));
    ForsakenDisk(Installed(st));
    Fold(Forsaken(st));
  }

  // ----- Logging a batch -----

  lemma LogBatchView(st: State, ops: seq<Op>)
    requires ViewInv(st) && CanLog(st)
    ensures ViewInv(WithBatch(st, ops))
  {
    OpenView(st);
    var h, spec, more := st.spec.history, st.spec, AllDone(ops);
    LevelsGrow(h, more, spec.flushed, spec.floor, st.levels, st.nextFile);
    CompleteGrows(h, more, spec.flushed, spec.floor, st.levels);
    SpanGrows(h, more, spec.immEnd, st.applied);
    SpanGrows(h, more, spec.flushed, spec.immEnd);
  }

  lemma {:induction false} LogBatchDisk(st: State, ops: seq<Op>)
    requires DiskInv(st) && st.spec.immEnd <= |st.spec.history| && CanLog(st)
    ensures DiskInv(WithBatch(st, ops))
  {
    OpenDisk(st);
    var h := st.spec.history;
    LogAppend(h, ops, st.logs[st.memLog], st.spec.immEnd);
    if st.imm.Some? {
      LogGrows(h, h + AllDone(ops), st.logs[st.disk.logNumber], st.spec.flushed, st.spec.immEnd);
    }
  }

  // Steps of writers and readers do not care whether a logged edit is already installed.

  lemma BatchCommutes(st: State, ops: seq<Op>)
    requires InstallingOk(st) && CanLog(st)
    ensures CanLog(Installed(st))
    ensures InstallingOk(WithBatch(st, ops)) && Installed(WithBatch(st, ops)) == WithBatch(Installed(st), ops)
  {
  }

  lemma SmallCommutes(st: State, step: Step, next: State)
    requires InstallingOk(st) && SmallStep(st, step, next)
    ensures InstallingOk(next) && SmallStep(Installed(st), step, Installed(next))
  {
  }

  lemma SwitchCommutes(st: State)
    requires InstallingOk(st) && CanSwitch(st)
    ensures CanSwitch(Installed(st))
    ensures InstallingOk(Switched(st)) && Installed(Switched(st)) == Switched(Installed(st))
  {
  }

  lemma {:induction false} LogBatchKeeps(st: State, ops: seq<Op>)
    requires Inv(st) && CanLog(st)
    ensures Inv(WithBatch(st, ops))
  {
    Unfold(st);
    BatchCommutes(st, ops);
    LogBatchView(st, ops);
    LogBatchView(Installed(st), ops);
    OpenView(Installed(st));
    LogBatchDisk(Installed(st), ops);
    Fold(WithBatch(st, ops));
  }

  // ----- Small steps -----

  lemma SmallView(st: State, step: Step, next: State)
    requires ViewInv(st) && SmallStep(st, step, next)
    ensures ViewInv(next)
  {
    if step.InsertOp? {
      InsertView(st, next);
    } else if step.DropLogs? {
      OpenView(st);
    } else {
      CountView(st, step, next);
    }
  }

  lemma CountView(st: State, step: Step, next: State)
    requires ViewInv(st) && SmallStep(st, step, next) && (step.Publish? || step.Take? || step.Release?)
    ensures ViewInv(next)
  {
    OpenView(st);
    assert CountsOk(next) && MemtablesOk(next);
  }

  lemma InsertView(st: State, next: State)
    requires ViewInv(st) && SmallStep(st, InsertOp, next)
    ensures ViewInv(next)
  {
    OpenView(st);
    var h := st.spec.history;
    assert Span(h, st.spec.immEnd, st.applied + 1) == Span(h, st.spec.immEnd, st.applied) + {EntryAt(h, st.applied)};
  }

  lemma SmallDisk(st: State, step: Step, next: State)
    requires DiskInv(st) && SmallStep(st, step, next) && st.lastSeq <= st.applied
    ensures DiskInv(next)
  {
    OpenDisk(st);
  }

  lemma SmallKeeps(st: State, step: Step, next: State)
    requires Inv(st) && SmallStep(st, step, next)
    ensures Inv(next)
  {
    Unfold(st);
    SmallCommutes(st, step, next);
    SmallView(st, step, next);
    SmallView(Installed(st), step, Installed(next));
    OpenView(Installed(st));
    SmallDisk(Installed(st), step, Installed(next));
    Fold(next);
  }

  lemma SwitchView(st: State)
    requires ViewInv(st) && CanSwitch(st)
    ensures ViewInv(Switched(st))
  {
    OpenView(st);
    var h := st.spec.history;
    MoreNumbers(h, st.spec.flushed, st.spec.floor, st.levels, st.nextFile, st.nextFile + 1);
    assert Span(h, |h|, |h|) == {};
  }

  lemma SwitchDisk(st: State)
    requires DiskInv(st) && ViewInv(st) && CanSwitch(st)
    ensures DiskInv(Switched(st))
  {
    OpenView(st);
    OpenDisk(st);
  }

  lemma SwitchKeeps(st: State)
    requires Inv(st) && CanSwitch(st)
    ensures Inv(Switched(st))
  {
    Unfold(st);
    SwitchCommutes(st);
    SwitchView(st);
    SwitchView(Installed(st));
    SwitchDisk(Installed(st));
    Fold(Switched(st));
  }

  // ----- Flushing -----

  /** Logging an edit changes nothing readers see. */
  lemma LoggingView(st: State, edit: Edit, logNumber: nat, next: nat)
    requires ViewInv(st) && st.nextFile <= next && (edit.FlushEdit? ==> st.imm.Some?)
    ensures InstallingOk(Logging(st, edit, logNumber, next)) && ViewInv(Logging(st, edit, logNumber, next))
  {
    OpenView(st);
    MoreNumbers(st.spec.history, st.spec.flushed, st.spec.floor, st.levels, st.nextFile, next);
  }

  lemma FlushedLevels(st: State, at: nat, f: File)
    requires ViewInv(st) && CanFlush(st, at, Some(f))
    ensures var levels := Add(st.levels, at, f);
            && LevelsInv(st.spec.history, st.spec.immEnd, st.spec.floor, levels, st.nextFile + 1)
            && Complete(st.spec.history, st.spec.immEnd, st.spec.floor, levels)
            && (st.job.Some? ==> JobInv(levels, st.job.value, st.spec.floor, st.lastSeq, st.snapshots))
            && PendingOk(levels, st.pending, st.nextFile + 1)
  {
    OpenView(st);
    var h, spec := st.spec.history, st.spec;
    FlushLevels(h, spec.flushed, spec.immEnd, spec.floor, st.levels, at, f, st.nextFile, st.nextFile + 1);
    FlushTables(h, spec.flushed, spec.immEnd, st.levels, at, f);
    if st.job.Some? {
      FlushKeepsJob(h, spec.flushed, spec.immEnd, st.levels, at, f, st.job.value, spec.floor, st.lastSeq, st.snapshots);
    }
    forall l, g | In(Add(st.levels, at, f), l, g) ensures g.number !in st.pending {
      PlaceAfterAdd(st.levels, at, f, l, g);
    }
  }

  /** The state once an immutable memtable without entries is gone. */
  function Emptied(st: State, next: nat): State {
    st.(imm := None, nextFile := next, spec := st.spec.(flushed := st.spec.immEnd))
  }

  lemma EmptiedView(st: State, next: nat)
    requires ViewInv(st) && st.imm == Some({}) && st.nextFile <= next
    ensures ViewInv(Emptied(st, next))
  {
    OpenView(st);
    var h, spec := st.spec.history, st.spec;
    assert Span(h, spec.flushed, |h|) == Span(h, spec.immEnd, |h|) by {
      assert Span(h, spec.flushed, spec.immEnd) == {};
      assert forall e :: e in Span(h, spec.flushed, |h|) && e.sn <= spec.immEnd ==>
          e in Span(h, spec.flushed, spec.immEnd);
    }
    MoreNumbers(h, spec.flushed, spec.floor, st.levels, st.nextFile, next);
    assert LevelsInv(h, spec.immEnd, spec.floor, st.levels, next);
  }

  lemma FlushedCounts(st: State, at: nat, f: File)
    requires CountsOk(st) && MemtablesOk(st) && CanFlush(st, at, Some(f)) && at < |st.levels|
    ensures var d := Installed(Flushing(st, at, Some(f)));
            CountsOk(d) && MemtablesOk(d) && d.levels == Add(st.levels, at, f)
  {
  }

  lemma SomeFlushInstalled(st: State, at: nat, f: File)
    requires ViewInv(st) && CanFlush(st, at, Some(f))
    ensures ViewInv(Installed(Flushing(st, at, Some(f))))
  {
    OpenView(st);
    FlushedCounts(st, at, f);
    FlushedLevels(st, at, f);
  }

  /** Readers do not look at the manifest. */
  lemma SameView(st: State, other: State)
    requires ViewInv(st) && other.(disk := st.disk) == st
    ensures ViewInv(other)
  {
    OpenView(st);
  }

  lemma FlushInstalled(st: State, at: nat, file: Option<File>)
    requires ViewInv(st) && CanFlush(st, at, file)
    ensures ViewInv(Installed(Flushing(st, at, file)))
  {
    if file.Some? {
      SomeFlushInstalled(st, at, file.value);
    } else {
      EmptiedView(st, st.nextFile + 1);
      SameView(Emptied(st, st.nextFile + 1), Installed(Flushing(st, at, None)));
    }
  }

  lemma FlushDisk(st: State, at: nat, file: Option<File>)
    requires DiskInv(st) && ViewInv(st) && CanFlush(st, at, file)
    ensures DiskInv(Installed(Flushing(st, at, file)))
  {
    OpenView(st);
    OpenDisk(st);
    var d := Installed(Flushing(st, at, file));
    forall l, g | In(d.levels, l, g) ensures g.number < d.disk.nextFile {
      if file.Some? {
        PlaceAfterAdd(st.levels, at, file.value, l, g);
      }
    }
  }

  lemma FlushWaits(st: State, at: nat, file: Option<File>)
    requires ViewInv(st) && st.imm.Some?
    ensures InstallingOk(Flushing(st, at, file)) && ViewInv(Flushing(st, at, file))
  {
    LoggingView(st, FlushEdit(at, file), st.memLog, st.nextFile + 1);
  }

  lemma FlushKeeps(st: State, at: nat, file: Option<File>)
    requires Inv(st) && CanFlush(st, at, file)
    ensures Inv(Flushing(st, at, file))
  {
    UnfoldIdle(st);
    FlushWaits(st, at, file);
    FlushInstalled(st, at, file);
    FlushDisk(st, at, file);
    Fold(Flushing(st, at, file));
  }

  // ----- Compacting -----

  /** Picked inputs lie on one side of every file left at the target level. */
  lemma PickedJob(st: State, job: Job)
    requires ViewInv(st) && CanPick(st, job)
    ensures JobInv(st.levels, job, st.spec.floor, st.lastSeq, st.snapshots)
  {
    OpenView(st);
    forall f | In(st.levels, job.level + 1, f) && f !in job.in1 ensures Beside(job, f) {
      PickedBeside(st.levels, job, f);
    }
    forall e | e in Inputs(job) ensures e.sn <= st.lastSeq {
      var l, f := LC.InputPlace(st.levels, job, e);
    }
  }

  /** A file that misses the range of the level inputs lies before or after all of it. */
  lemma MissesRange(job: Job, f: File)
    requires ValidFile(f) && !Overlaps(f, job.in0) && forall g :: g in job.in0 ==> ValidFile(g)
    ensures (forall g :: g in job.in0 ==> Hi(g) < Lo(f)) || (forall g :: g in job.in0 ==> Hi(f) < Lo(g))
  {
    LC.RangeOrdered(f);
    forall g | g in job.in0 ensures Hi(g) < Lo(f) || Hi(f) < Lo(g) {
      MissesFile(job, f, g);
    }
    forall g, k | g in job.in0 && k in job.in0 && Hi(g) < Lo(f) ensures Hi(k) < Lo(f) {
      LC.RangeOrdered(g);
      assert Covers(f, Lo(f));
      assert Lo(g) <= Lo(f) <= Hi(k) ==> InRange(job.in0, Lo(f));
    }
  }

  lemma MissesFile(job: Job, f: File, g: File)
    requires ValidFile(f) && ValidFile(g) && g in job.in0 && !Overlaps(f, job.in0)
    ensures Hi(g) < Lo(f) || Hi(f) < Lo(g)
  {
    LC.RangeOrdered(f);
    LC.RangeOrdered(g);
    var u := if Lo(f) < Lo(g) then Lo(g) else Lo(f);
    assert Covers(f, u) && Covers(g, u) ==> InRange(job.in0, u);
  }

  /** A target input overlaps that range, so it lies on the same side. */
  lemma SameSide(job: Job, f: File, a: File, after: bool)
    requires ValidFile(f) && ValidFile(a) && Overlaps(a, job.in0) && Consecutive(a, f)
    requires if after then forall g :: g in job.in0 ==> Hi(g) < Lo(f) else forall g :: g in job.in0 ==> Hi(f) < Lo(g)
    ensures if after then forall e, x :: e in a.entries && x in f.entries ==> Before(e, x)
            else forall e, x :: e in a.entries && x in f.entries ==> Before(x, e)
  {
    LC.RangeOrdered(f);
    var u :| Covers(a, u) && InRange(job.in0, u);
    var first, last := a.entries[0], a.entries[|a.entries| - 1];
    assert first in a.entries && last in a.entries && f.entries[0] in f.entries &&
        f.entries[|f.entries| - 1] in f.entries;
    assert after ==> !Before(f.entries[0], first);
    assert !after ==> !Before(last, f.entries[|f.entries| - 1]);
  }

  lemma PickedBeside(levels: Levels, job: Job, f: File)
    requires PickedOk(levels, job) && LevelsOrdered(levels) && forall l, g :: In(levels, l, g) ==> ValidFile(g)
    requires In(levels, job.level + 1, f) && f !in job.in1
    ensures Beside(job, f)
  {
    assert forall g :: g in job.in0 ==> In(levels, job.level, g);
    MissesRange(job, f);
    var after := forall g :: g in job.in0 ==> Hi(g) < Lo(f);
    forall e, x | e in Inputs(job) && x in f.entries ensures if after then Before(e, x) else Before(x, e) {
      var l, g := LC.InputPlace(levels, job, e);
      EntriesAreCovered(f, x);
      EntriesAreCovered(g, e);
      if g !in job.in0 {
        assert In(levels, job.level + 1, g);
        SameSide(job, f, g, after);
      }
    }
  }

  lemma WithJob(st: State, job: Job)
    requires Inv(st) && st.installing.None? && JobInv(st.levels, job, st.spec.floor, st.lastSeq, st.snapshots)
    ensures Inv(st.(job := Some(job)))
  {
    UnfoldIdle(st);
    OpenView(st);
    OpenDisk(st);
    FoldIdle(st.(job := Some(job)));
  }

  lemma PickKeeps(st: State, job: Job)
    requires Inv(st) && CanPick(st, job)
    ensures Inv(Picked(st, job))
  {
    UnfoldIdle(st);
    PickedJob(st, job);
    WithJob(st, job);
  }

  lemma ReserveKeeps(st: State)
    requires Inv(st) && CanReserve(st)
    ensures Inv(Reserving(st))
  {
    UnfoldIdle(st);
    OpenView(st);
    OpenDisk(st);
    MoreNumbers(st.spec.history, st.spec.flushed, st.spec.floor, st.levels, st.nextFile, st.nextFile + 1);
    FoldIdle(Reserving(st));
  }

  /** Everything a finished compaction leaves behind, given well-formed outputs. */
  ghost predicate ReplacedOk(st: State, job: Job, outs: set<File>) {
    job.level + 1 < |st.levels| &&
    var levels := Replace(st.levels, job.level, job.in0, job.in1, outs);
    && LevelsInv(st.spec.history, st.spec.flushed, job.cutoff, levels, st.nextFile)
    && Complete(st.spec.history, st.spec.flushed, job.cutoff, levels)
  }

  lemma OnGround(st: State)
    requires ViewInv(st) && st.job.Some?
    ensures LC.Ground(st.levels, st.job.value, st.spec.floor) && SafePick(st.levels, st.job.value)
    ensures TargetBeside(st.levels, st.job.value)
  {
    OpenView(st);
    LC.AllLogged(st.spec.history, st.spec.flushed, st.levels);
    LC.LoggedUnique(st.spec.history, Tables(st.levels));
  }

  lemma CompactedLevels(st: State, outs: set<File>)
    requires ViewInv(st) && CanFinish(st, outs)
    ensures ReplacedOk(st, st.job.value, outs)
  {
    OpenView(st);
    OnGround(st);
    var h, job := st.spec.history, st.job.value;
    LC.FilesOkAfter(h, st.spec.flushed, st.levels, job, outs);
    LC.RecencyAfter(st.levels, job, st.spec.floor, outs);
    LC.ZeroOrderedAfter(st.levels, job, outs);
    LC.LevelsOrderedAfter(st.levels, job, outs);
    LC.HeldOnceAfter(st.levels, job, outs);
    LC.NumbersAfter(st.levels, st.nextFile, st.pending, job, outs);
    LC.CompleteAfter(h, st.spec.flushed, st.spec.floor, st.levels, job, outs);
  }

  lemma MovedNumbers(levels: Levels, nextFile: nat, job: Job)
    requires NumbersOk(levels, nextFile) && JobShape(levels, job) && job.in1 == {}
    ensures NumbersOk(Replace(levels, job.level, job.in0, job.in1, job.in0), nextFile)
  {
    var after := Replace(levels, job.level, job.in0, job.in1, job.in0);
    forall l, f | In(after, l, f)
      ensures exists m: nat :: In(levels, m, f) && l == if m == job.level && f in job.in0 then m + 1 else m
    {
      if In(levels, l, f) {
        assert l == job.level ==> f !in job.in0;
      } else {
        assert In(levels, job.level, f);
      }
    }
  }

  lemma MovedGood(levels: Levels, job: Job)
    requires JobShape(levels, job) && |job.in0| == 1 && forall l, f :: In(levels, l, f) ==> ValidFile(f)
    ensures LC.GoodOuts(job, job.in0)
  {
    var f :| f in job.in0;
    assert |job.in0 - {f}| == 0;
    assert job.in0 == {f};
    assert In(levels, job.level, f);
    forall e | e in FileEntries(job.in0) ensures e in Inputs(job) {
      assert f in job.in0 + job.in1;
    }
  }

  lemma MovedLevels(st: State)
    requires ViewInv(st) && CanMove(st)
    ensures ReplacedOk(st, st.job.value, st.job.value.in0)
  {
    OpenView(st);
    OnGround(st);
    var h, job := st.spec.history, st.job.value;
    var outs := job.in0;
    MovedGood(st.levels, job);
    LC.FilesOkAfter(h, st.spec.flushed, st.levels, job, outs);
    LC.RecencyAfter(st.levels, job, st.spec.floor, outs);
    LC.ZeroOrderedAfter(st.levels, job, outs);
    LC.LevelsOrderedAfter(st.levels, job, outs);
    LC.HeldOnceAfter(st.levels, job, outs);
    MovedNumbers(st.levels, st.nextFile, job);
    LC.MovedTables(st.levels, job);
  }

  lemma ReplacedView(st: State, job: Job, outs: set<File>)
    requires CountsOk(st) && MemtablesOk(st) && st.job == Some(job)
    requires JobInv(st.levels, job, st.spec.floor, st.lastSeq, st.snapshots) && ReplacedOk(st, job, outs)
    ensures ViewInv(Installed(Logging(st, CompactEdit(job, outs), st.disk.logNumber, st.nextFile)))
  {
    assert Max(st.spec.floor, job.cutoff) == job.cutoff;
  }

  lemma ReplacedDisk(st: State, job: Job, outs: set<File>)
    requires DiskInv(st) && st.lastSeq <= st.applied && job.level + 1 < |st.levels|
    requires st.spec.floor <= st.lastSeq && job.cutoff <= st.lastSeq
    requires forall l, f :: In(Replace(st.levels, job.level, job.in0, job.in1, outs), l, f) ==> f.number < st.nextFile
    ensures DiskInv(Installed(Logging(st, CompactEdit(job, outs), st.disk.logNumber, st.nextFile)))
  {
    OpenDisk(st);
  }

  lemma ReplacedKeeps(st: State, job: Job, outs: set<File>)
    requires Inv(st) && st.installing.None? && st.job == Some(job) && ReplacedOk(st, job, outs)
    ensures Inv(Logging(st, CompactEdit(job, outs), st.disk.logNumber, st.nextFile))
  {
    UnfoldIdle(st);
    OpenView(st);
    LoggingView(st, CompactEdit(job, outs), st.disk.logNumber, st.nextFile);
    ReplacedView(st, job, outs);
    ReplacedDisk(st, job, outs);
    Fold(Logging(st, CompactEdit(job, outs), st.disk.logNumber, st.nextFile));
  }

  lemma CompactionKeeps(st: State, outs: set<File>)
    requires Inv(st) && CanFinish(st, outs)
    ensures Inv(Finishing(st, outs))
  {
    UnfoldIdle(st);
    CompactedLevels(st, outs);
    ReplacedKeeps(st, st.job.value, outs);
  }

  lemma MoveKeeps(st: State)
    requires Inv(st) && CanMove(st)
    ensures Inv(Moving(st))
  {
    UnfoldIdle(st);
    MovedLevels(st);
    ReplacedKeeps(st, st.job.value, st.job.value.in0);
  }

  lemma InstallKeeps(st: State)
    requires Inv(st)
    ensures Inv(Installed(st))
  {
    Unfold(st);
    Fold(Installed(st));
  }

  lemma AbandonKeeps(st: State)
    requires Inv(st) && st.installing.None?
    ensures Inv(Abandoned(st))
  {
    UnfoldIdle(st);
    OpenView(st);
    OpenDisk(st);
    FoldIdle(Abandoned(st));
  }

  // ----- Runs -----

  lemma NoFilesInv(h: History, levels: Levels)
    requires |levels| == NUM_LEVELS && forall l, f :: !In(levels, l, f)
    ensures LevelsInv(h, 0, 0, levels, 4) && Complete(h, 0, 0, levels)
  {
    forall e ensures e !in Tables(levels) {
      LC.InTables(levels, e);
    }
    assert Tables(levels) + Span(h, 0, |h|) == Span(h, 0, |h|);
  }

  lemma StartInv()
    ensures Inv(Start())
  {
    NoFilesInv([], NoFiles());
    assert Span([], 0, 0) == {};
    assert LogCovers([], [], 0, 0) && AllVoid([], 0, 0);
    Fold(Start());
  }

  /** Every step keeps the invariant. */
  lemma StepKeeps(st: State, step: Step, next: State)
    requires Inv(st) && Next(st, step, next)
    ensures Inv(next)
  {
    match step
    case LogBatch(ops) => LogBatchKeeps(st, ops);
    case Switch => SwitchKeeps(st);
    case LogFlush(at, file) => FlushKeeps(st, at, file);
    case Pick(job) => PickKeeps(st, job);
    case Reserve => ReserveKeeps(st);
    case Abandon => AbandonKeeps(st);
    case LogCompaction(outs) => CompactionKeeps(st, outs);
    case LogMove => MoveKeeps(st);
    case Install => InstallKeeps(st);
    case AppendFailed(n) => WastedKeeps(st, n);
    case SyncFailed => ForsakenKeeps(st);
    case Crash(interrupted, live, tables, cuts, newLog) =>
      LR.CrashKeeps(st, interrupted, live, tables, cuts, newLog);
    case _ => SmallKeeps(st, step, next);
  }

  lemma {:induction false} RunKeeps(states: seq<State>, steps: seq<Step>, i: nat)
    requires IsRun(states, steps) && i < |states|
    ensures Inv(states[i])
  {
    if i == 0 {
      StartInv();
    } else {
      RunKeeps(states, steps, i - 1);
      StepKeeps(states[i - 1], steps[i - 1], states[i]);
    }
  }

  // ----- What was acknowledged stays -----

  /** Writes that were published, and not told to have failed, are still there. */
  ghost predicate Keeps(st: State, next: State) {
    forall lock: Lock :: KeepsBody(st, next, lock)
  }

  ghost predicate KeepsBody(st: State, next: State, lock: Lock) {
    forall k :: 0 <= k < st.lastSeq && k < |st.spec.history| && st.spec.history[k].Done? ==>
      k < next.lastSeq && k < |next.spec.history| && next.spec.history[k] == st.spec.history[k]
  }

  lemma GrowingKeeps(st: State, next: State)
    requires st.spec.history <= next.spec.history && st.lastSeq <= next.lastSeq
    ensures Keeps(st, next)
  {
  }

  lemma ForsakingKeeps(st: State)
    requires st.applied == st.lastSeq
    ensures Keeps(st, Forsaken(st))
  {
  }

  lemma CrashPublished(st: State, next: State)
    requires LR.Survives(st.spec.history, next.spec.history) && next.lastSeq == |next.spec.history|
    ensures Keeps(st, next)
  {
  }

  lemma StepPublished(st: State, step: Step, next: State)
    requires Inv(st) && Next(st, step, next)
    ensures Keeps(st, next)
  {
    if step.Crash? {
      LR.CrashKeeps(st, step.interrupted, step.live, step.tables, step.cuts, step.newLog);
      CrashPublished(st, next);
    } else if step.SyncFailed? {
      ForsakingKeeps(st);
    } else {
      HistoryGrows(st, step, next);
      GrowingKeeps(st, next);
    }
  }

  lemma HistoryGrows(st: State, step: Step, next: State)
    requires Inv(st) && Next(st, step, next) && !step.Crash? && !step.SyncFailed?
    ensures st.spec.history <= next.spec.history && st.lastSeq <= next.lastSeq
  {
    Unfold(st);
    OpenView(st);
    if !step.AppendFailed? && !step.LogBatch? && !step.Publish? {
      SameHistory(st, step, next);
    }
  }

  lemma SameHistory(st: State, step: Step, next: State)
    requires Next(st, step, next)
    requires !step.Crash? && !step.AppendFailed? && !step.SyncFailed? && !step.LogBatch? && !step.Publish?
    ensures next.spec.history == st.spec.history && next.lastSeq == st.lastSeq
  {
  }

  /** In every run, across crashes, a write once published as done stays done. */
  lemma PublishedStays(states: seq<State>, steps: seq<Step>, i: nat, j: nat)
    requires IsRun(states, steps) && i <= j < |states|
    ensures Keeps(states[i], states[j])
  {
    forall k: nat | k < |states| - 1 ensures Keeps(states[k], states[k + 1]) {
      NextPublished(states, steps, k);
    }
    KeepsChain(states, i, j);
  }

  lemma {:induction false} KeepsChain(states: seq<State>, i: nat, j: nat)
    requires i <= j < |states| && forall k: nat :: k < |states| - 1 ==> Keeps(states[k], states[k + 1])
    ensures Keeps(states[i], states[j])
    decreases j
  {
    if i == j {
      KeepsSelf(states[i]);
    } else {
      KeepsChain(states, i, j - 1);
      assert Keeps(states[j - 1], states[j - 1 + 1]);
      KeepsJoin(states[i], states[j - 1], states[j]);
    }
  }

  lemma NextPublished(states: seq<State>, steps: seq<Step>, k: nat)
    requires IsRun(states, steps) && k < |steps|
    ensures Keeps(states[k], states[k + 1])
  {
    RunKeeps(states, steps, k);
    StepPublished(states[k], steps[k], states[k + 1]);
  }

  lemma KeepsSelf(st: State)
    ensures Keeps(st, st)
  {
  }

  lemma KeepsJoin(a: State, b: State, c: State)
    requires Keeps(a, b) && Keeps(b, c)
    ensures Keeps(a, c)
  {
    assert KeepsBody(a, b, Lock) && KeepsBody(b, c, Lock);
  }

  // ----- File numbers while a compaction runs -----

  /** As long as one compaction runs, whatever else happens, the counter does not fall and
      the numbers it took stay its own. */
  lemma JobStepKeeps(st: State, step: Step, next: State)
    requires Next(st, step, next) && st.job.Some? && next.job.Some?
    ensures st.nextFile <= next.nextFile && st.pending <= next.pending
  {
  }

  lemma {:induction false} NumbersRise(states: seq<State>, steps: seq<Step>, i: nat, j: nat)
    requires IsRun(states, steps) && i <= j < |states| && forall k :: i <= k <= j ==> states[k].job.Some?
    ensures states[i].nextFile <= states[j].nextFile && states[i].pending <= states[j].pending
    decreases j
  {
    if i < j {
      NumbersRise(states, steps, i, j - 1);
      assert Next(states[j - 1], steps[j - 1], states[j - 1 + 1]);
      JobStepKeeps(states[j - 1], steps[j - 1], states[j]);
    }
  }

  lemma ReservedStays(states: seq<State>, steps: seq<Step>, i: nat, j: nat)
    requires IsRun(states, steps) && i < j < |states| && steps[i].Reserve?
    requires forall k :: i <= k <= j ==> states[k].job.Some?
    ensures states[i].nextFile in states[j].pending
  {
    assert Next(states[i], steps[i], states[i + 1]);
    NumbersRise(states, steps, i + 1, j);
  }
}
