/** Runs in which no output is cut inside a user key, or no snapshot is held. */
module LsmApart {
  // As long as no two files below level 0 share a user key, every pick is safe.  A
  // compaction that starts with no snapshot held keeps it so wherever it cuts its
  // outputs; one that starts under a snapshot keeps it so if it cuts between user keys.

  import opened Entries
  import opened Lsm
  import opened LsmFlush
  import opened LsmSteps
  import LC = LsmCompaction
  import LR = LsmRecovery
  import LsmRuns
  import LsmReads

  ghost predicate PairwiseApart(fs: set<File>) {
    forall f, g :: f in fs && g in fs && f != g ==> Apart(f, g)
  }

  /** Below level 0 no two files of a level share a user key, nor do their ranges meet. */
  ghost predicate LevelsApart(levels: Levels) {
    forall l, f, g :: In(levels, l, f) && In(levels, l, g) && l > 0 && f != g ==> Apart(f, g)
  }

  /** Files left at the target level miss the whole range of the inputs. */
  ghost predicate TargetClear(levels: Levels, job: Job) {
    forall f :: In(levels, job.level + 1, f) && f !in job.in1 ==> OutsideHull(job, f)
  }

  ghost predicate AllValid(levels: Levels) {
    forall l, f :: In(levels, l, f) ==> ValidFile(f)
  }

  // ----- With no snapshot held, one entry per key survives -----

  lemma OneSurvivorPerKey(job: Job, e: Entry, x: Entry)
    requires forall y :: y in Inputs(job) ==> y.sn <= job.cutoff
    requires e in Survivors(job) && x in Survivors(job) && e.user == x.user
    ensures e.sn == x.sn
  {
    assert !Shadowed(Inputs(job), job.cutoff, e) && !Shadowed(Inputs(job), job.cutoff, x);
  }

  lemma SurvivorsApart(job: Job, outs: set<File>, f: File, g: File)
    requires UniqueSn(Inputs(job)) && forall y :: y in Inputs(job) ==> y.sn <= job.cutoff
    requires FileEntries(outs) == Survivors(job)
    requires f in outs && g in outs && ValidFile(f) && ValidFile(g)
    requires forall e, x :: e in f.entries && x in g.entries ==> Before(e, x)
    ensures Hi(f) < Lo(g)
  {
    var z, a := f.entries[|f.entries| - 1], g.entries[0];
    assert z in f.entries && a in g.entries;
    assert z in FileEntries(outs) && a in FileEntries(outs);
    assert Before(z, a);
    assert z.sn == a.sn ==> z == a;
    if z.user == a.user {
      OneSurvivorPerKey(job, z, a);
    }
  }

  /** So its outputs share no user key, wherever the output files were cut. */
  lemma UnheldOutputsApart(job: Job, outs: set<File>)
    requires UniqueSn(Inputs(job)) && forall y :: y in Inputs(job) ==> y.sn <= job.cutoff
    requires OutputsOk(job, outs)
    ensures PairwiseApart(outs)
  {
    forall f, g | f in outs && g in outs && f != g ensures Apart(f, g) {
      assert Consecutive(f, g);
      if forall e, x :: e in f.entries && x in g.entries ==> Before(e, x) {
        SurvivorsApart(job, outs, f, g);
      } else {
        assert forall e, x :: e in g.entries && x in f.entries ==> Before(e, x);
        SurvivorsApart(job, outs, g, f);
      }
    }
  }

  // ----- Picks -----

  lemma TargetPoint(levels: Levels, job: Job, f: File, u: UserKey)
    requires PickedOk(levels, job) && LevelsApart(levels)
    requires In(levels, job.level + 1, f) && Covers(f, u) && InHull(job, u)
    ensures f in job.in1
  {
    var g :| IsInput(job, g) && Covers(g, u);
    if g in job.in0 {
      assert InRange(job.in0, u);
      assert Overlaps(f, job.in0);
    } else {
      assert In(levels, job.level + 1, g);
    }
  }

  lemma PickedTarget(levels: Levels, job: Job)
    requires PickedOk(levels, job) && LevelsApart(levels)
    ensures TargetClear(levels, job)
  {
    forall f, u | In(levels, job.level + 1, f) && Covers(f, u) && InHull(job, u) ensures f in job.in1 {
      TargetPoint(levels, job, f, u);
    }
  }

  lemma NoSharedKey(levels: Levels, job: Job, f: File, x: Entry, g: File, e: Entry)
    requires PickedOk(levels, job) && LevelsApart(levels) && ValidFile(f) && ValidFile(g)
    requires Holds(levels, job.level, f, x) && f !in job.in0 && g in job.in0 && e in g.entries
    ensures x.user != e.user
  {
    EntriesAreCovered(f, x);
    EntriesAreCovered(g, e);
    assert In(levels, job.level, g);
    assert InRange(job.in0, e.user);
    if job.level == 0 {
      assert !Overlaps(f, job.in0);
    }
  }

  /** Whatever PickCompaction may choose is safe. */
  lemma ApartIsSafe(levels: Levels, job: Job)
    requires PickedOk(levels, job) && LevelsApart(levels) && AllValid(levels)
    ensures SafePick(levels, job)
  {
    forall f, x, g, e | Holds(levels, job.level, f, x) && f !in job.in0 && g in job.in0 && e in g.entries
      ensures x.user != e.user
    {
      assert In(levels, job.level, g);
      NoSharedKey(levels, job, f, x, g, e);
    }
    forall e, f, y | Obsolete(job, e) && Holds(levels, job.level + 1, f, y) && f !in job.in1 ensures y.user != e.user {
      var l, g := LC.InputPlace(levels, job, e);
      EntriesAreCovered(g, e);
      EntriesAreCovered(f, y);
      LC.InputsInHull(job, g, e.user);
      if y.user == e.user {
        TargetPoint(levels, job, f, e.user);
      }
    }
  }

  // ----- What keeps the files apart -----

  lemma OutInHull(levels: Levels, job: Job, outs: set<File>, f: File, u: UserKey)
    requires JobShape(levels, job) && LC.GoodOuts(job, outs) && f in outs && Covers(f, u) && AllValid(levels)
    ensures InHull(job, u)
  {
    var a, z := f.entries[0], f.entries[|f.entries| - 1];
    LC.OutEntry(job, outs, f, a);
    LC.OutEntry(job, outs, f, z);
    var _, fa := LC.InputPlace(levels, job, a);
    var _, fz := LC.InputPlace(levels, job, z);
    EntriesAreCovered(fa, a);
    EntriesAreCovered(fz, z);
  }

  lemma ApartFromOuts(levels: Levels, job: Job, outs: set<File>, f: File, g: File)
    requires JobShape(levels, job) && LC.GoodOuts(job, outs) && TargetClear(levels, job) && AllValid(levels)
    requires In(levels, job.level + 1, f) && f !in job.in1 && g in outs
    ensures Apart(f, g)
  {
    if !Apart(f, g) {
      var u := if Lo(f) < Lo(g) then Lo(g) else Lo(f);
      LC.RangeOrdered(f);
      LC.RangeOrdered(g);
      assert Covers(f, u) && Covers(g, u);
      OutInHull(levels, job, outs, g, u);
    }
  }

  lemma LevelsApartAfter(levels: Levels, job: Job, outs: set<File>)
    requires LevelsApart(levels) && JobShape(levels, job) && LC.GoodOuts(job, outs) && TargetClear(levels, job)
    requires PairwiseApart(outs) && AllValid(levels)
    ensures LevelsApart(Replace(levels, job.level, job.in0, job.in1, outs))
  {
    var after := Replace(levels, job.level, job.in0, job.in1, outs);
    forall l, f, g | In(after, l, f) && In(after, l, g) && l > 0 && f != g ensures Apart(f, g) {
      if l == job.level + 1 && f !in outs && g in outs {
        ApartFromOuts(levels, job, outs, f, g);
      } else if l == job.level + 1 && f in outs && g !in outs {
        ApartFromOuts(levels, job, outs, g, f);
      } else if l != job.level + 1 || f !in outs {
        assert In(levels, l, f) && In(levels, l, g);
      }
    }
  }

  lemma FlushApart(levels: Levels, at: nat, f: File)
    requires LevelsApart(levels) && PlaceOk(levels, at, f)
    ensures LevelsApart(Add(levels, at, f))
  {
    var after := Add(levels, at, f);
    forall l, g, k | In(after, l, g) && In(after, l, k) && l > 0 && g != k ensures Apart(g, k) {
      PlaceAfterAdd(levels, at, f, l, g);
      PlaceAfterAdd(levels, at, f, l, k);
    }
  }

  lemma FlushClear(levels: Levels, at: nat, f: File, job: Job)
    requires JobShape(levels, job) && PlaceOk(levels, at, f) && TargetClear(levels, job)
    ensures TargetClear(Add(levels, at, f), job)
  {
    if at > job.level {
      MissesHull(levels, job, at, f);
    }
    forall g | In(Add(levels, at, f), job.level + 1, g) && g !in job.in1 ensures OutsideHull(job, g) {
      PlaceAfterAdd(levels, at, f, job.level + 1, g);
    }
  }

  lemma {:induction false} AddAllApart(levels: Levels, tables: seq<File>)
    requires LevelsApart(levels) && |levels| > 0
    ensures LevelsApart(AddAll(levels, tables))
    decreases |tables|
  {
    if |tables| > 0 {
      var n := |tables| - 1;
      AddAllApart(levels, tables[..n]);
      FlushApart(AddAll(levels, tables[..n]), 0, tables[n]);
    }
  }

  // ----- Runs of the code -----

  /** A step of the code as it is: nothing is asked of a pick beyond what PickCompaction
      promises; a compaction that started under a snapshot does not cut inside a user key. */
  ghost predicate CodeNext(st: State, step: Step, next: State) {
    match step
    case Pick(job) => MayPick(st, job) && next == Picked(st, job)
    case LogCompaction(outs) => Next(st, step, next) && (st.job.value.unheld || PairwiseApart(outs))
    case _ => Next(st, step, next)
  }

  ghost predicate IsCodeRun(states: seq<State>, steps: seq<Step>) {
    && |states| == |steps| + 1
    && states[0] == Start()
    && forall i :: 0 <= i < |steps| ==> CodeNext(states[i], steps[i], states[i + 1])
  }

  ghost predicate Tidy(st: State) {
    LevelsApart(st.levels) && (st.job.Some? ==> TargetClear(st.levels, st.job.value))
  }

  ghost predicate TidyInv(st: State) {
    Tidy(st) && Tidy(Installed(st))
  }

  lemma PickTidy(st: State, job: Job)
    requires Inv(st) && TidyInv(st) && MayPick(st, job)
    ensures SafePick(st.levels, job) && TidyInv(Picked(st, job))
  {
    Unfold(st);
    OpenView(st);
    ApartIsSafe(st.levels, job);
    PickedTarget(st.levels, job);
  }

  lemma FlushTidy(st: State, at: nat, file: Option<File>)
    requires Inv(st) && TidyInv(st) && CanFlush(st, at, file)
    ensures TidyInv(Flushing(st, at, file))
  {
    Unfold(st);
    OpenView(st);
    if file.Some? {
      FlushApart(st.levels, at, file.value);
      if st.job.Some? {
        FlushClear(st.levels, at, file.value, st.job.value);
      }
    }
  }

  lemma ReplaceTidy(st: State, outs: set<File>)
    requires Inv(st) && TidyInv(st) && st.installing.None? && st.job.Some?
    requires LC.GoodOuts(st.job.value, outs) && PairwiseApart(outs)
    ensures TidyInv(Finishing(st, outs))
  {
    Unfold(st);
    OpenView(st);
    LevelsApartAfter(st.levels, st.job.value, outs);
  }

  lemma CompactionTidy(st: State, outs: set<File>)
    requires Inv(st) && TidyInv(st) && CanFinish(st, outs) && (st.job.value.unheld || PairwiseApart(outs))
    ensures TidyInv(Finishing(st, outs))
  {
    var job := st.job.value;
    if job.unheld {
      InputsUnique(st);
      UnheldOutputsApart(job, outs);
    }
    ReplaceTidy(st, outs);
  }

  lemma InputsUnique(st: State)
    requires Inv(st) && st.job.Some?
    ensures UniqueSn(Inputs(st.job.value))
    ensures st.job.value.unheld ==> forall y :: y in Inputs(st.job.value) ==> y.sn <= st.job.value.cutoff
  {
    Unfold(st);
    OpenView(st);
    forall e | e in Inputs(st.job.value) ensures Logged(st.spec.history, e) {
      var l, f := LC.InputPlace(st.levels, st.job.value, e);
    }
    LC.LoggedUnique(st.spec.history, Inputs(st.job.value));
  }

  lemma MoveTidy(st: State)
    requires Inv(st) && TidyInv(st) && CanMove(st)
    ensures TidyInv(Moving(st))
  {
    Unfold(st);
    OpenView(st);
    LsmRuns.MovedGood(st.levels, st.job.value);
    var f :| f in st.job.value.in0;
    assert |st.job.value.in0 - {f}| == 0;
    assert st.job.value.in0 == {f};
    ReplaceTidy(st, st.job.value.in0);
  }

  lemma CrashTidy(st: State, interrupted: set<nat>, live: seq<nat>, tables: seq<File>, cuts: seq<nat>, newLog: nat)
    requires Inv(st) && TidyInv(st) && CanRecover(st, interrupted, live, tables, cuts, newLog)
    ensures TidyInv(Recovered(st, interrupted, live, tables, newLog))
  {
    Unfold(st);
    LR.DurableFacts(st);
    AddAllApart(st.disk.levels, tables);
  }

  ghost predicate SameFiles(st: State, next: State) {
    next.levels == st.levels && next.job == st.job && next.installing == st.installing
  }

  lemma SameTidy(st: State, next: State)
    requires TidyInv(st) && SameFiles(st, next)
    ensures TidyInv(next)
  {
    assert Installed(next).levels == Installed(st).levels && Installed(next).job == Installed(st).job;
  }

  lemma InstallTidy(st: State)
    requires TidyInv(st)
    ensures TidyInv(Installed(st)) && (st.installing.None? ==> TidyInv(Abandoned(st)))
  {
  }

  lemma SmallSame(st: State, step: Step, next: State)
    requires SmallStep(st, step, next)
    ensures SameFiles(st, next)
  {
  }

  lemma OtherSame(st: State, step: Step, next: State)
    requires Next(st, step, next)
    requires !step.Pick? && !step.LogFlush? && !step.LogCompaction? && !step.LogMove? && !step.Crash?
    ensures SameFiles(st, next) || next == Installed(st) || (st.installing.None? && next == Abandoned(st))
  {
    if !(step.LogBatch? || step.AppendFailed? || step.SyncFailed? || step.Switch? || step.Reserve? || step.Abandon?
         || step.Install?) {
      SmallSame(st, step, next);
    }
  }

  /** Every step of the code is a step of the engine and leaves files apart. */
  lemma CodeStep(st: State, step: Step, next: State)
    requires Inv(st) && TidyInv(st) && CodeNext(st, step, next)
    ensures Next(st, step, next) && TidyInv(next)
  {
    if step.Pick? {
      PickTidy(st, step.job);
    } else if step.LogFlush? {
      FlushTidy(st, step.at, step.file);
    } else if step.LogCompaction? {
      CompactionTidy(st, step.outs);
    } else if step.LogMove? {
      MoveTidy(st);
    } else if step.Crash? {
      CrashTidy(st, step.interrupted, step.live, step.tables, step.cuts, step.newLog);
    } else {
      OtherSame(st, step, next);
      InstallTidy(st);
      if SameFiles(st, next) {
        SameTidy(st, next);
      }
    }
  }

  lemma {:induction false} CodeRunKeeps(states: seq<State>, steps: seq<Step>, i: nat)
    requires IsCodeRun(states, steps) && i < |states|
    ensures Inv(states[i]) && TidyInv(states[i])
    ensures i < |steps| ==> Next(states[i], steps[i], states[i + 1])
    decreases i
  {
    if i == 0 {
      LsmRuns.StartInv();
    } else {
      CodeRunKeeps(states, steps, i - 1);
      CodeStep(states[i - 1], steps[i - 1], states[i]);
      LsmRuns.StepKeeps(states[i - 1], steps[i - 1], states[i]);
    }
    if i < |steps| {
      CodeStep(states[i], steps[i], states[i + 1]);
    }
  }

  /** So such a run of the code is a run of the engine: every pick in it is safe, and every
      read at the last sequence or at a held snapshot returns the newest logged write. */
  lemma CodeRunReadsNewest(states: seq<State>, steps: seq<Step>, i: nat, zero: seq<File>, u: UserKey, s: nat)
    requires IsCodeRun(states, steps) && i < |states|
    requires LsmReads.ZeroListing(states[i], zero) && (s == states[i].lastSeq || s in states[i].snapshots)
    ensures IsRun(states, steps)
    ensures LsmReads.Search(LsmReads.Layers(states[i], zero), u, s)
         == Lookup(Span(states[i].spec.history, 0, |states[i].spec.history|), u, s)
  {
    forall k | 0 <= k < |steps| ensures Next(states[k], steps[k], states[k + 1]) {
      CodeRunKeeps(states, steps, k);
    }
    LsmReads.EveryRunReadsNewest(states, steps, i, zero, u, s);
  }
}
