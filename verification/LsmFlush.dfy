/** What turning the immutable memtable into a table keeps. */
module LsmFlush {
  // The levels stay in order, even when the table is pushed below level 0 and a
  // compaction is running.

  import opened Entries
  import opened Lsm
  import LC = LsmCompaction

  /** PickLevelForMemTableOutput: below level 0 only if nothing on the way overlaps. */
  ghost predicate PlaceOk(levels: Levels, at: nat, f: File) {
    && at <= MAX_MEM_COMPACT_LEVEL
    && at < |levels|
    && (at > 0 ==> forall l: nat, g :: In(levels, l, g) && l <= at ==> Apart(f, g))
  }

  function Add(levels: Levels, at: nat, f: File): Levels
    requires at < |levels|
  {
    levels[at := levels[at] + {f}]
  }

  lemma PlaceAfterAdd(levels: Levels, at: nat, f: File, l: nat, g: File)
    requires at < |levels|
    ensures In(Add(levels, at, f), l, g) <==> In(levels, l, g) || (l == at && g == f)
  {
  }

  /** The new table only holds entries newer than every table. */
  ghost predicate NewTable(h: History, flushed: nat, upTo: nat, f: File) {
    && ValidFile(f)
    && flushed <= upTo
    && Elems(f.entries) == Span(h, flushed, upTo)
  }

  lemma NewTableEntry(h: History, flushed: nat, upTo: nat, f: File, e: Entry)
    requires NewTable(h, flushed, upTo, f) && e in f.entries
    ensures flushed < e.sn <= upTo && Logged(h, e)
  {
    assert e in Elems(f.entries);
  }

  lemma FlushFilesOk(h: History, flushed: nat, upTo: nat, levels: Levels, at: nat, f: File)
    requires at < |levels| && FilesOk(h, flushed, levels) && NewTable(h, flushed, upTo, f)
    ensures FilesOk(h, upTo, Add(levels, at, f))
  {
    var after := Add(levels, at, f);
    forall l, g | In(after, l, g) ensures ValidFile(g) {
      PlaceAfterAdd(levels, at, f, l, g);
    }
    forall l, g, e | Holds(after, l, g, e) ensures e.sn <= upTo && Logged(h, e) {
      PlaceAfterAdd(levels, at, f, l, g);
      if Holds(levels, l, g, e) {
      } else {
        NewTableEntry(h, flushed, upTo, f, e);
      }
    }
  }

  lemma HiddenStays(levels: Levels, at: nat, f: File, floor: nat, l: nat, x: Entry)
    requires at < |levels| && Hidden(levels, floor, l, x)
    ensures Hidden(Add(levels, at, f), floor, l, x)
  {
    var m: nat, g, z :| Holds(levels, m, g, z) && m <= l && Beats(z, x, floor);
    assert Holds(Add(levels, at, f), m, g, z);
  }

  lemma FlushRecency(h: History, flushed: nat, upTo: nat, levels: Levels, at: nat, f: File, floor: nat)
    requires at < |levels| && FilesOk(h, flushed, levels) && NewTable(h, flushed, upTo, f)
    requires Recency(levels, floor) && PlaceOk(levels, at, f)
    ensures Recency(Add(levels, at, f), floor)
  {
    var after := Add(levels, at, f);
    forall l, g, e, m, k, x | Holds(after, l, g, e) && Holds(after, m, k, x) && l < m && e.user == x.user
      ensures e.sn > x.sn || Hidden(after, floor, l, x)
    {
      PlaceAfterAdd(levels, at, f, l, g);
      PlaceAfterAdd(levels, at, f, m, k);
      if Holds(levels, l, g, e) && Holds(levels, m, k, x) {
        if e.sn <= x.sn {
          HiddenStays(levels, at, f, floor, l, x);
        }
      } else if Holds(levels, m, k, x) {
        NewTableEntry(h, flushed, upTo, f, e);
      } else {
        EntriesAreCovered(f, x);
        EntriesAreCovered(g, e);
      }
    }
  }

  lemma FlushZeroOrdered(h: History, flushed: nat, upTo: nat, levels: Levels, at: nat, f: File)
    requires 0 < |levels| && at < |levels| && FilesOk(h, flushed, levels) && NewTable(h, flushed, upTo, f)
    requires ZeroOrdered(levels) && forall l, g :: In(levels, l, g) ==> g.number < f.number
    ensures ZeroOrdered(Add(levels, at, f))
  {
    var after := Add(levels, at, f);
    forall g, e, k, x | Holds(after, 0, g, e) && Holds(after, 0, k, x) && g.number < k.number
      ensures e.sn < x.sn
    {
      PlaceAfterAdd(levels, at, f, 0, g);
      PlaceAfterAdd(levels, at, f, 0, k);
      assert In(levels, 0, g);
      if !In(levels, 0, k) {
        NewTableEntry(h, flushed, upTo, f, x);
        assert Holds(levels, 0, g, e);
      } else {
        assert Holds(levels, 0, g, e) && Holds(levels, 0, k, x);
      }
    }
  }

  /** Files that share no user key follow each other in key order. */
  lemma ApartIsConsecutive(f: File, g: File)
    requires ValidFile(f) && ValidFile(g) && Apart(f, g)
    ensures Consecutive(f, g)
  {
    forall e | e in f.entries ensures Covers(f, e.user) {
      EntriesAreCovered(f, e);
    }
    forall e | e in g.entries ensures Covers(g, e.user) {
      EntriesAreCovered(g, e);
    }
  }

  lemma FlushOrdered(levels: Levels, at: nat, f: File)
    requires LevelsOrdered(levels) && PlaceOk(levels, at, f)
    requires ValidFile(f) && forall l, g :: In(levels, l, g) ==> ValidFile(g)
    ensures LevelsOrdered(Add(levels, at, f))
  {
    var after := Add(levels, at, f);
    forall l, g, k | In(after, l, g) && In(after, l, k) && l > 0 && g != k ensures Consecutive(g, k) {
      PlaceAfterAdd(levels, at, f, l, g);
      PlaceAfterAdd(levels, at, f, l, k);
      if !(In(levels, l, g) && In(levels, l, k)) {
        ApartIsConsecutive(g, k);
      }
    }
  }

  lemma FlushHeldOnce(h: History, flushed: nat, upTo: nat, levels: Levels, at: nat, f: File)
    requires at < |levels| && FilesOk(h, flushed, levels) && NewTable(h, flushed, upTo, f) && HeldOnce(levels)
    ensures HeldOnce(Add(levels, at, f))
  {
    var after := Add(levels, at, f);
    forall e | e in f.entries ensures e.sn > flushed {
      NewTableEntry(h, flushed, upTo, f, e);
    }
    forall l, g, m, k, e | Holds(after, l, g, e) && Holds(after, m, k, e) ensures l == m && g == k {
      PlaceAfterAdd(levels, at, f, l, g);
      PlaceAfterAdd(levels, at, f, m, k);
      assert In(levels, l, g) ==> Holds(levels, l, g, e);
      assert In(levels, m, k) ==> Holds(levels, m, k, e);
    }
  }

  lemma FlushNumbers(levels: Levels, at: nat, f: File, nextFile: nat, next: nat)
    requires at < |levels| && NumbersOk(levels, nextFile) && nextFile <= f.number < next
    ensures NumbersOk(Add(levels, at, f), next)
  {
    var after := Add(levels, at, f);
    forall l, g | In(after, l, g) ensures g.number < next {
      PlaceAfterAdd(levels, at, f, l, g);
    }
    forall l, g, m, k | In(after, l, g) && In(after, m, k) && g.number == k.number ensures l == m && g == k {
      PlaceAfterAdd(levels, at, f, l, g);
      PlaceAfterAdd(levels, at, f, m, k);
    }
  }

  lemma FlushLevels(h: History, flushed: nat, upTo: nat, floor: nat, levels: Levels, at: nat, f: File, nextFile: nat,
                    next: nat)
    requires LevelsInv(h, flushed, floor, levels, nextFile) && nextFile <= f.number < next
    requires NewTable(h, flushed, upTo, f) && PlaceOk(levels, at, f)
    ensures LevelsInv(h, upTo, floor, Add(levels, at, f), next)
  {
    FlushFilesOk(h, flushed, upTo, levels, at, f);
    FlushRecency(h, flushed, upTo, levels, at, f, floor);
    FlushZeroOrdered(h, flushed, upTo, levels, at, f);
    FlushOrdered(levels, at, f);
    FlushHeldOnce(h, flushed, upTo, levels, at, f);
    FlushNumbers(levels, at, f, nextFile, next);
  }

  lemma FlushTables(h: History, flushed: nat, upTo: nat, levels: Levels, at: nat, f: File)
    requires at < |levels| && NewTable(h, flushed, upTo, f) && upTo <= |h|
    ensures Tables(Add(levels, at, f)) + Span(h, upTo, |h|) == Tables(levels) + Span(h, flushed, |h|)
  {
    var after := Add(levels, at, f);
    forall e ensures e in Tables(after) <==> e in Tables(levels) || e in Span(h, flushed, upTo) {
      LC.InTables(after, e);
      LC.InTables(levels, e);
      if e in Tables(after) {
        var l: nat, g :| Holds(after, l, g, e);
        PlaceAfterAdd(levels, at, f, l, g);
        assert Holds(levels, l, g, e) || e in Elems(f.entries);
      }
      if e in Tables(levels) {
        var l: nat, g :| Holds(levels, l, g, e);
        PlaceAfterAdd(levels, at, f, l, g);
        assert Holds(after, l, g, e);
      }
      if e in Span(h, flushed, upTo) {
        assert e in Elems(f.entries);
        PlaceAfterAdd(levels, at, f, at, f);
        assert Holds(after, at, f, e);
      }
    }
  }

  /** A table that misses every input file misses their whole hull, because the hull has no gap. */
  lemma MissesHull(levels: Levels, job: Job, at: nat, f: File)
    requires JobShape(levels, job) && PlaceOk(levels, at, f) && at > job.level
    ensures OutsideHull(job, f)
  {
    forall u | Covers(f, u) ensures !InHull(job, u) {
      if InHull(job, u) {
        var g :| IsInput(job, g) && Covers(g, u);
        assert In(levels, if g in job.in0 then job.level else job.level + 1, g);
      }
    }
  }

  /** A table outside the hull has all the inputs on one side. */
  lemma OutsideIsBeside(levels: Levels, job: Job, f: File)
    requires JobShape(levels, job) && OutsideHull(job, f)
    requires ValidFile(f) && forall l, g :: In(levels, l, g) ==> ValidFile(g)
    ensures Beside(job, f)
  {
    LC.RangeOrdered(f);
    forall e | e in f.entries ensures Covers(f, e.user) {
      EntriesAreCovered(f, e);
    }
    assert Covers(f, Lo(f)) && !InHull(job, Lo(f));
    forall e | e in Inputs(job) ensures e.user < Lo(f) || e.user > Hi(f) {
      var l, g := LC.InputPlace(levels, job, e);
      EntriesAreCovered(g, e);
      LC.InputsInHull(job, g, e.user);
      assert !Covers(f, e.user);
    }
    forall e, x | e in Inputs(job) && x in Inputs(job) && e.user < Lo(f) ensures x.user < Lo(f) {
      var l, g := LC.InputPlace(levels, job, e);
      var m, k := LC.InputPlace(levels, job, x);
      EntriesAreCovered(g, e);
      EntriesAreCovered(k, x);
      assert Lo(g) <= Lo(f) <= Hi(k) ==> InHull(job, Lo(f));
    }
    if e :| e in Inputs(job) && e.user < Lo(f) {
      assert forall x, y :: x in Inputs(job) && y in f.entries ==> Before(x, y);
    } else {
      assert forall x, y :: x in Inputs(job) && y in f.entries ==> Before(y, x);
    }
  }

  lemma ShelterStays(levels: Levels, at: nat, f: File, job: Job, l: nat, x: Entry)
    requires at < |levels| && Sheltered(levels, job, l, x)
    ensures Sheltered(Add(levels, at, f), job, l, x)
  {
    var m: nat, g, z :| Holds(levels, m, g, z) && m <= l && !IsInput(job, g) && Beats(z, x, job.cutoff);
    assert Holds(Add(levels, at, f), m, g, z);
  }

  /** An old entry and a new place: the place is an old one, or its entry is newer. */
  lemma NewOrOld(h: History, flushed: nat, upTo: nat, levels: Levels, at: nat, f: File, job: Job, l: nat, k: File,
                 x: Entry, e: Entry)
    requires FilesOk(h, flushed, levels) && NewTable(h, flushed, upTo, f) && at < |levels| && JobShape(levels, job)
    requires Holds(Add(levels, at, f), l, k, x) && e in Inputs(job)
    ensures Holds(levels, l, k, x) || x.sn > e.sn
  {
    var m, g := LC.InputPlace(levels, job, e);
    PlaceAfterAdd(levels, at, f, l, k);
    if !In(levels, l, k) {
      NewTableEntry(h, flushed, upTo, f, x);
    }
  }

  lemma FlushStaysNewer(h: History, flushed: nat, upTo: nat, levels: Levels, at: nat, f: File, job: Job)
    requires FilesOk(h, flushed, levels) && NewTable(h, flushed, upTo, f) && at < |levels|
    requires JobShape(levels, job) && StaysNewer(levels, job)
    ensures StaysNewer(Add(levels, at, f), job)
  {
    var after := Add(levels, at, f);
    forall k, x, g, e |
      Holds(after, job.level, k, x) && k !in job.in0 && g in job.in0 && e in g.entries && x.user == e.user
      ensures x.sn > e.sn || Sheltered(after, job, job.level, e)
    {
      LC.InInputs(job, e);
      assert IsInput(job, g);
      NewOrOld(h, flushed, upTo, levels, at, f, job, job.level, k, x, e);
      if x.sn <= e.sn {
        ShelterStays(levels, at, f, job, job.level, e);
      }
    }
  }

  lemma FlushUncoversNone(h: History, flushed: nat, upTo: nat, levels: Levels, at: nat, f: File, job: Job)
    requires FilesOk(h, flushed, levels) && NewTable(h, flushed, upTo, f) && at < |levels|
    requires JobShape(levels, job) && UncoversNone(levels, job)
    ensures UncoversNone(Add(levels, at, f), job)
  {
    var after := Add(levels, at, f);
    forall e, k, y | Obsolete(job, e) && Holds(after, job.level + 1, k, y) && k !in job.in1 && y.user == e.user
      ensures y.sn > e.sn || Sheltered(after, job, job.level + 1, e)
    {
      NewOrOld(h, flushed, upTo, levels, at, f, job, job.level + 1, k, y, e);
      if y.sn <= e.sn {
        ShelterStays(levels, at, f, job, job.level + 1, e);
      }
    }
  }

  lemma FlushStaysClear(levels: Levels, at: nat, f: File, job: Job)
    requires JobShape(levels, job) && PlaceOk(levels, at, f) && TargetBeside(levels, job) && DeepClear(levels, job)
    requires ValidFile(f) && forall l, g :: In(levels, l, g) ==> ValidFile(g)
    ensures TargetBeside(Add(levels, at, f), job) && DeepClear(Add(levels, at, f), job)
  {
    var after := Add(levels, at, f);
    if at > job.level {
      MissesHull(levels, job, at, f);
      OutsideIsBeside(levels, job, f);
    }
    forall g | In(after, job.level + 1, g) && g !in job.in1 ensures Beside(job, g) {
      PlaceAfterAdd(levels, at, f, job.level + 1, g);
    }
    forall m: nat, g | In(after, m, g) && m >= job.level + 2 && !In(job.base, m, g) ensures OutsideHull(job, g) {
      PlaceAfterAdd(levels, at, f, m, g);
    }
  }

  lemma FlushKeepsJob(h: History, flushed: nat, upTo: nat, levels: Levels, at: nat, f: File, job: Job, floor: nat,
                      lastSeq: nat, snapshots: multiset<nat>)
    requires FilesOk(h, flushed, levels) && NewTable(h, flushed, upTo, f) && PlaceOk(levels, at, f)
    requires JobInv(levels, job, floor, lastSeq, snapshots)
    ensures JobInv(Add(levels, at, f), job, floor, lastSeq, snapshots)
  {
    FlushStaysClear(levels, at, f, job);
    FlushStaysNewer(h, flushed, upTo, levels, at, f, job);
    FlushUncoversNone(h, flushed, upTo, levels, at, f, job);
  }

  lemma MoreNumbers(h: History, flushed: nat, floor: nat, levels: Levels, nextFile: nat, next: nat)
    requires LevelsInv(h, flushed, floor, levels, nextFile) && nextFile <= next
    ensures LevelsInv(h, flushed, floor, levels, next)
  {
  }
}
