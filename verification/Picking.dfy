/** Which files a compaction takes, and how deep a flushed memtable may go. */
module Picking {
  import opened Entries
  import opened Lsm
  import opened LsmFlush
  import opened LsmSteps
  import opened Version
  import LC = LsmCompaction

  const TARGET_FILE_SIZE: nat := 2 * 1048576
  const MAX_GRANDPARENT_OVERLAP: nat := 10 * TARGET_FILE_SIZE
  const EXPANDED_LIMIT: nat := 25 * TARGET_FILE_SIZE

  type Lists = seq<seq<File>>

  ghost function SetOf(files: seq<File>): set<File> {
    set f | f in files
  }

  ghost function LevelsOf(lists: Lists): Levels {
    seq(|lists|, i requires 0 <= i < |lists| => SetOf(lists[i]))
  }

  ghost predicate ListsOk(lists: Lists) {
    && |lists| == NUM_LEVELS
    && (forall l :: 0 <= l < |lists| ==> AllValid(lists[l]) && SequencesOk(lists[l]))
    && (forall l :: 0 < l < |lists| ==> InKeyOrder(lists[l]))
  }

  // ----- Sizes and ranges -----

  function TotalSize(files: seq<File>): nat
    decreases |files|
  {
    if |files| == 0 then 0 else TotalSize(files[..|files| - 1]) + files[|files| - 1].size
  }

  lemma {:induction false} TotalSizeAdds(a: seq<File>, b: seq<File>, f: File)
    ensures TotalSize([f]) == f.size && TotalSize(a + b) == TotalSize(a) + TotalSize(b)
    decreases |b|
  {
    if |b| == 0 {
      assert a + b == a;
    } else {
      var n := |b| - 1;
      assert (a + b)[..|a| + n] == a + b[..n];
      TotalSizeAdds(a, b[..n], f);
    }
  }

  method TotalFileSize(files: seq<File>) returns (sum: nat)
    ensures sum == TotalSize(files)
  {
    sum := 0;
    for i := 0 to |files|
      invariant sum == TotalSize(files[..i])
    {
      sum := sum + files[i].size;
      assert files[..i + 1][..i] == files[..i];
    }
    assert files[..|files|] == files;
  }

  /** The smallest and the largest internal key of some files. */
  ghost predicate IsRange(inputs: seq<File>, smallest: IKey, largest: IKey)
    requires AllValid(inputs)
  {
    && (exists i :: 0 <= i < |inputs| && smallest == Smallest(inputs[i]))
    && (exists i :: 0 <= i < |inputs| && largest == Largest(inputs[i]))
    && (forall i :: 0 <= i < |inputs| ==> !Less(Smallest(inputs[i]), smallest) && !Less(largest, Largest(inputs[i])))
  }

  ghost predicate IsLargest(inputs: seq<File>, p: IKey) {
    && AllValid(inputs)
    && (exists i :: 0 <= i < |inputs| && p == Largest(inputs[i]))
    && (forall i :: 0 <= i < |inputs| ==> !Less(p, Largest(inputs[i])))
  }

  method GetRange(inputs: seq<File>) returns (smallest: IKey, largest: IKey)
    requires AllValid(inputs) && |inputs| > 0
    ensures IsRange(inputs, smallest, largest)
  {
    smallest, largest := Smallest(inputs[0]), Largest(inputs[0]);
    for i := 1 to |inputs|
      invariant exists j :: 0 <= j < i && smallest == Smallest(inputs[j])
      invariant exists j :: 0 <= j < i && largest == Largest(inputs[j])
      invariant forall j :: 0 <= j < i ==> !Less(Smallest(inputs[j]), smallest) && !Less(largest, Largest(inputs[j]))
    {
      if Less(Smallest(inputs[i]), smallest) {
        smallest := Smallest(inputs[i]);
      }
      if Less(largest, Largest(inputs[i])) {
        largest := Largest(inputs[i]);
      }
    }
  }

  lemma RangeMeans(inputs: seq<File>, smallest: IKey, largest: IKey, u: UserKey)
    requires AllValid(inputs) && IsRange(inputs, smallest, largest)
    ensures InRange(SetOf(inputs), u) <==> smallest.user <= u <= largest.user
  {
    var i :| 0 <= i < |inputs| && smallest == Smallest(inputs[i]);
    var j :| 0 <= j < |inputs| && largest == Largest(inputs[j]);
    assert inputs[i] in SetOf(inputs) && inputs[j] in SetOf(inputs);
    if InRange(SetOf(inputs), u) {
      var f, g :| f in SetOf(inputs) && g in SetOf(inputs) && Lo(f) <= u <= Hi(g);
      var a :| 0 <= a < |inputs| && inputs[a] == f;
      var b :| 0 <= b < |inputs| && inputs[b] == g;
    }
  }

  /** Meeting the range between the extremes is overlapping the files. */
  lemma MeetsMeans(inputs: seq<File>, smallest: IKey, largest: IKey, f: File)
    requires AllValid(inputs) && IsRange(inputs, smallest, largest) && ValidFile(f)
    ensures Meets(f, Some(smallest.user), Some(largest.user)) <==> Overlaps(f, SetOf(inputs))
  {
    var lo, hi := smallest.user, largest.user;
    LC.RangeOrdered(f);
    if Meets(f, Some(lo), Some(hi)) {
      var i :| 0 <= i < |inputs| && smallest == Smallest(inputs[i]);
      LC.RangeOrdered(inputs[i]);
      var u := if Lo(f) < lo then lo else Lo(f);
      RangeMeans(inputs, smallest, largest, u);
      assert Covers(f, u) && InRange(SetOf(inputs), u);
    }
    if Overlaps(f, SetOf(inputs)) {
      var u :| Covers(f, u) && InRange(SetOf(inputs), u);
      RangeMeans(inputs, smallest, largest, u);
    }
  }

  // ----- Placing a flushed memtable -----

  /** Some file of level `l` meets `[lo, hi]`. */
  ghost predicate OverlapAt(lists: Lists, l: nat, lo: UserKey, hi: UserKey) {
    l < |lists| && exists i :: 0 <= i < |lists[l]| && Meets(lists[l][i], Some(lo), Some(hi))
  }

  /** The bytes of the files of level `l` that meet `[lo, hi]`. */
  ghost function SizeOver(lists: Lists, l: nat, lo: UserKey, hi: UserKey): nat {
    if l < |lists| then TotalSize(Select(lists[l], Some(lo), Some(hi))) else 0
  }

  method PickLevelForMemTableOutput(lists: Lists, lo: UserKey, hi: UserKey) returns (level: nat)
    requires ListsOk(lists)
    ensures level <= MAX_MEM_COMPACT_LEVEL
    ensures level > 0 ==> forall l :: 0 <= l <= level ==> !OverlapAt(lists, l, lo, hi)
    ensures level < MAX_MEM_COMPACT_LEVEL ==>
              || OverlapAt(lists, level, lo, hi)
              || OverlapAt(lists, level + 1, lo, hi)
              || SizeOver(lists, level + 2, lo, hi) > MAX_GRANDPARENT_OVERLAP
    ensures forall l :: 2 <= l < level + 2 ==> SizeOver(lists, l, lo, hi) <= MAX_GRANDPARENT_OVERLAP
  {
    level := 0;
    var overlap := SomeFileOverlapsRange(false, lists[0], Some(lo), Some(hi));
    if !overlap {
      while level < MAX_MEM_COMPACT_LEVEL
        invariant level <= MAX_MEM_COMPACT_LEVEL
        invariant forall l :: 0 <= l <= level ==> !OverlapAt(lists, l, lo, hi)
        invariant forall l :: 2 <= l < level + 2 ==> SizeOver(lists, l, lo, hi) <= MAX_GRANDPARENT_OVERLAP
      {
        overlap := SomeFileOverlapsRange(true, lists[level + 1], Some(lo), Some(hi));
        if overlap {
          break;
        }
        var overlaps, _, _ := GetOverlappingInputs(level + 2, lists[level + 2], Some(lo), Some(hi));
        var sum := TotalFileSize(overlaps);
        if sum > MAX_GRANDPARENT_OVERLAP {
          break;
        }
        level := level + 1;
      }
    }
  }

  /** The chosen level is one the flush step accepts. */
  lemma PickedLevelIsSafe(lists: Lists, level: nat, f: File)
    requires ListsOk(lists) && ValidFile(f) && level <= MAX_MEM_COMPACT_LEVEL
    requires level > 0 ==> forall l :: 0 <= l <= level ==> !OverlapAt(lists, l, Lo(f), Hi(f))
    ensures PlaceOk(LevelsOf(lists), level, f)
  {
    forall l: nat, g | level > 0 && In(LevelsOf(lists), l, g) && l <= level ensures Apart(f, g) {
      var i :| 0 <= i < |lists[l]| && lists[l][i] == g;
      assert !OverlapAt(lists, l, Lo(f), Hi(f));
      assert !Meets(lists[l][i], Some(Lo(f)), Some(Hi(f)));
    }
  }

  // ----- Gapless inputs -----

  ghost predicate Covered(fs: set<File>, u: UserKey) {
    exists f :: f in fs && Covers(f, u)
  }

  ghost predicate NoGap(fs: set<File>) {
    forall u :: InRange(fs, u) ==> Covered(fs, u)
  }

  /** Files that overlap a gapless set leave no gap when they join it. */
  lemma JoinNoGap(fs: set<File>, gs: set<File>)
    requires NoGap(fs) && forall g :: g in gs ==> Overlaps(g, fs)
    ensures NoGap(fs + gs)
  {
    var all := fs + gs;
    forall u | InRange(all, u) ensures Covered(all, u) {
      if InRange(fs, u) {
        var f :| f in fs && Covers(f, u);
        assert f in all;
      } else {
        JoinPoint(fs, gs, u);
      }
    }
  }

  lemma JoinPoint(fs: set<File>, gs: set<File>, u: UserKey)
    requires forall g :: g in gs ==> Overlaps(g, fs)
    requires InRange(fs + gs, u) && !InRange(fs, u)
    ensures Covered(fs + gs, u)
  {
    var a, z :| a in fs + gs && z in fs + gs && Lo(a) <= u <= Hi(z);
    if forall f :: f in fs ==> Lo(f) > u {
      assert a in gs;
      var v :| Covers(a, v) && InRange(fs, v);
      var f, g :| f in fs && g in fs && Lo(f) <= v <= Hi(g);
      assert Covers(a, u);
    } else {
      var low :| low in fs && Lo(low) <= u;
      assert forall f :: f in fs ==> Hi(f) < u;
      assert z in gs;
      var v :| Covers(z, v) && InRange(fs, v);
      var f, g :| f in fs && g in fs && Lo(f) <= v <= Hi(g);
      assert Covers(z, u);
    }
  }

  lemma OneFileNoGap(f: File)
    ensures NoGap({f})
  {
    forall u | InRange({f}, u) ensures Covered({f}, u) {
      assert f in {f} && Covers(f, u);
    }
  }

  lemma NoGapIsGapless(job: Job)
    requires NoGap(job.in0 + job.in1)
    ensures Gapless(job)
  {
    forall u | InHull(job, u) ensures exists f :: IsInput(job, f) && Covers(f, u) {
      var f, g :| IsInput(job, f) && IsInput(job, g) && Lo(f) <= u <= Hi(g);
      assert f in job.in0 + job.in1 && g in job.in0 + job.in1;
      assert InRange(job.in0 + job.in1, u);
      var c :| c in job.in0 + job.in1 && Covers(c, u);
      assert IsInput(job, c);
    }
  }

  // ----- Inputs of a compaction -----

  /** At level 0 no file that was left out overlaps the chosen ones. */
  ghost predicate ClosedAtZero(lists: Lists, level: nat, in0: seq<File>)
    requires |lists| > 0
  {
    level == 0 ==> forall f :: f in lists[0] && f !in in0 ==> !Overlaps(f, SetOf(in0))
  }

  ghost predicate Chosen(lists: Lists, level: nat, in0: seq<File>) {
    && level + 1 < |lists|
    && |in0| > 0
    && (forall f :: f in in0 ==> f in lists[level])
    && ClosedAtZero(lists, level, in0)
  }

  /** `in1` is what the next level holds over the range of `in0`. */
  ghost predicate Below(lists: Lists, level: nat, in0: seq<File>, in1: seq<File>)
    requires level + 1 < |lists|
  {
    forall f :: f in in1 <==> f in lists[level + 1] && Overlaps(f, SetOf(in0))
  }

  lemma ChosenValid(lists: Lists, level: nat, in0: seq<File>)
    requires ListsOk(lists) && level < |lists| && forall f :: f in in0 ==> f in lists[level]
    ensures AllValid(in0)
  {
    forall i | 0 <= i < |in0| ensures ValidFile(in0[i]) {
      assert in0[i] in lists[level];
      var j :| 0 <= j < |lists[level]| && lists[level][j] == in0[i];
    }
  }

  lemma SelectedBelow(lists: Lists, level: nat, in0: seq<File>, smallest: IKey, largest: IKey, in1: seq<File>)
    requires ListsOk(lists) && level + 1 < |lists| && AllValid(in0) && IsRange(in0, smallest, largest)
    requires in1 == Select(lists[level + 1], Some(smallest.user), Some(largest.user))
    ensures Below(lists, level, in0, in1)
  {
    forall f | f in lists[level + 1]
      ensures Meets(f, Some(smallest.user), Some(largest.user)) <==> Overlaps(f, SetOf(in0))
    {
      var j :| 0 <= j < |lists[level + 1]| && lists[level + 1][j] == f;
      MeetsMeans(in0, smallest, largest, f);
    }
  }

  lemma BelowNoGap(lists: Lists, level: nat, in0: seq<File>, in1: seq<File>)
    requires level + 1 < |lists| && NoGap(SetOf(in0)) && Below(lists, level, in0, in1)
    ensures NoGap(SetOf(in0 + in1))
  {
    JoinNoGap(SetOf(in0), SetOf(in1));
    assert SetOf(in0 + in1) == SetOf(in0) + SetOf(in1);
  }

  lemma RangeMonotone(fs: set<File>, gs: set<File>, f: File)
    requires fs <= gs && Overlaps(f, fs)
    ensures Overlaps(f, gs)
  {
    var u :| Covers(f, u) && InRange(fs, u);
    assert InRange(gs, u);
  }

  /** Every chosen file is found again over the whole range of the inputs. */
  lemma GrownKeeps(lists: Lists, level: nat, in0: seq<File>, in1: seq<File>, start: IKey, limit: IKey,
                   b: Option<UserKey>, e: Option<UserKey>, grown: seq<File>)
    requires ListsOk(lists) && Chosen(lists, level, in0) && AllValid(in0 + in1) && IsRange(in0 + in1, start, limit)
    requires Wider(b, e, Some(start.user), Some(limit.user)) && grown == Select(lists[level], b, e)
    ensures forall f :: f in in0 ==> f in grown
  {
    forall f | f in in0 ensures f in grown {
      var i :| 0 <= i < |in0| && in0[i] == f;
      assert (in0 + in1)[i] == f && f in SetOf(in0 + in1);
      LC.RangeOrdered(f);
      assert InRange(SetOf(in0 + in1), Lo(f));
      RangeMeans(in0 + in1, start, limit, Lo(f));
    }
  }

  /** What was found over the range `[b, e]` stays inside it at level 0. */
  lemma GrownInside(lists: Lists, b: Option<UserKey>, e: Option<UserKey>, grown: seq<File>, u: UserKey)
    requires ListsOk(lists) && ClosedRange(lists[0], b, e) && grown == Select(lists[0], b, e)
    requires InRange(SetOf(grown), u)
    ensures Contains(b, e, u)
  {
    var f, g :| f in SetOf(grown) && g in SetOf(grown) && Lo(f) <= u <= Hi(g);
    var i :| 0 <= i < |lists[0]| && lists[0][i] == f;
    var j :| 0 <= j < |lists[0]| && lists[0][j] == g;
    assert Inside(lists[0][i], b, e) && Inside(lists[0][j], b, e);
  }

  lemma GrownClosed(lists: Lists, b: Option<UserKey>, e: Option<UserKey>, grown: seq<File>)
    requires ListsOk(lists) && ClosedRange(lists[0], b, e) && grown == Select(lists[0], b, e)
    ensures ClosedAtZero(lists, 0, grown)
  {
    forall f, u | f in lists[0] && Covers(f, u) && InRange(SetOf(grown), u) ensures f in grown {
      GrownInside(lists, b, e, grown, u);
    }
    forall f | f in lists[0] && f !in grown ensures !Overlaps(f, SetOf(grown)) {
    }
  }

  /** Level 0: what the stretched range adds is covered by the files it added. */
  lemma ZeroNoGap(lists: Lists, in0: seq<File>, in1: seq<File>, start: IKey, limit: IKey,
                  b: Option<UserKey>, e: Option<UserKey>, grown: seq<File>)
    requires ListsOk(lists) && AllValid(in0 + in1) && IsRange(in0 + in1, start, limit) && NoGap(SetOf(in0 + in1))
    requires ClosedRange(lists[0], b, e) && grown == Select(lists[0], b, e)
    requires Stretched(lists[0], Some(start.user), Some(limit.user), b, e)
    requires forall f :: f in in0 ==> f in grown
    ensures NoGap(SetOf(grown + in1))
  {
    var all := SetOf(grown + in1);
    forall u | InRange(all, u) ensures Covered(all, u) {
      ZeroPoint(lists, in0, in1, start, limit, b, e, grown, u);
      RangeMeans(in0 + in1, start, limit, u);
      if Contains(Some(start.user), Some(limit.user), u) {
        var f :| f in SetOf(in0 + in1) && Covers(f, u);
        assert f in all;
      } else {
        var i :| 0 <= i < |lists[0]| && Covers(lists[0][i], u) && Meets(lists[0][i], b, e);
        assert lists[0][i] in grown;
        assert lists[0][i] in all;
      }
    }
  }

  lemma ZeroPoint(lists: Lists, in0: seq<File>, in1: seq<File>, start: IKey, limit: IKey,
                  b: Option<UserKey>, e: Option<UserKey>, grown: seq<File>, u: UserKey)
    requires ListsOk(lists) && AllValid(in0 + in1) && IsRange(in0 + in1, start, limit)
    requires ClosedRange(lists[0], b, e) && grown == Select(lists[0], b, e)
    requires Wider(b, e, Some(start.user), Some(limit.user))
    requires InRange(SetOf(grown + in1), u)
    ensures Contains(b, e, u)
  {
    var f, g :| f in SetOf(grown + in1) && g in SetOf(grown + in1) && Lo(f) <= u <= Hi(g);
    EndInside(lists, in0, in1, start, limit, b, e, grown, f);
    EndInside(lists, in0, in1, start, limit, b, e, grown, g);
  }

  lemma EndInside(lists: Lists, in0: seq<File>, in1: seq<File>, start: IKey, limit: IKey,
                  b: Option<UserKey>, e: Option<UserKey>, grown: seq<File>, f: File)
    requires ListsOk(lists) && AllValid(in0 + in1) && IsRange(in0 + in1, start, limit)
    requires ClosedRange(lists[0], b, e) && grown == Select(lists[0], b, e)
    requires Wider(b, e, Some(start.user), Some(limit.user))
    requires f in grown || f in in1
    ensures Inside(f, b, e)
  {
    if f in grown {
      var i :| 0 <= i < |lists[0]| && lists[0][i] == f;
    } else {
      var i :| 0 <= i < |in1| && in1[i] == f;
      assert (in0 + in1)[|in0| + i] == f && f in SetOf(in0 + in1);
      LC.RangeOrdered(f);
      assert InRange(SetOf(in0 + in1), Lo(f)) && InRange(SetOf(in0 + in1), Hi(f));
      RangeMeans(in0 + in1, start, limit, Lo(f));
      RangeMeans(in0 + in1, start, limit, Hi(f));
    }
  }

  /** Deeper levels: the files found all overlap the gapless inputs. */
  lemma DeepNoGap(lists: Lists, level: nat, in0: seq<File>, in1: seq<File>, start: IKey, limit: IKey, grown: seq<File>)
    requires ListsOk(lists) && level < |lists| && AllValid(in0 + in1) && IsRange(in0 + in1, start, limit)
    requires NoGap(SetOf(in0 + in1)) && grown == Select(lists[level], Some(start.user), Some(limit.user))
    requires forall f :: f in in0 ==> f in grown
    ensures NoGap(SetOf(grown + in1))
  {
    forall f | f in SetOf(grown) ensures Overlaps(f, SetOf(in0 + in1)) {
      var j :| 0 <= j < |lists[level]| && lists[level][j] == f;
      MeetsMeans(in0 + in1, start, limit, f);
    }
    JoinNoGap(SetOf(in0 + in1), SetOf(grown));
    assert SetOf(in0 + in1) + SetOf(grown) == SetOf(grown + in1);
  }

  /** Replacing the level inputs by the grown ones leaves no gap either. */
  lemma GrownBelowNoGap(lists: Lists, level: nat, in0: seq<File>, in1: seq<File>, grown: seq<File>, below: seq<File>)
    requires level + 1 < |lists| && Below(lists, level, in0, in1) && Below(lists, level, grown, below)
    requires NoGap(SetOf(grown + in1)) && forall f :: f in in0 ==> f in grown
    ensures NoGap(SetOf(grown + below))
  {
    forall f | f in in1 ensures f in below {
      RangeMonotone(SetOf(in0), SetOf(grown), f);
    }
    forall f | f in SetOf(below) ensures Overlaps(f, SetOf(grown + in1)) {
      RangeMonotone(SetOf(grown), SetOf(grown + in1), f);
    }
    JoinNoGap(SetOf(grown + in1), SetOf(below));
    assert SetOf(grown + in1) + SetOf(below) == SetOf(grown + below);
  }

  /** The files of one compaction, as lists. */
  datatype Choice = Choice(level: nat, in0: seq<File>, in1: seq<File>, grandparents: seq<File>)

  ghost predicate ChoiceOk(lists: Lists, c: Choice) {
    && Chosen(lists, c.level, c.in0)
    && Below(lists, c.level, c.in0, c.in1)
    && NoGap(SetOf(c.in0 + c.in1))
  }

  ghost function JobOf(lists: Lists, c: Choice, cutoff: nat, unheld: bool): Job {
    Job(c.level, SetOf(c.in0), SetOf(c.in1), LevelsOf(lists), cutoff, unheld)
  }

  /** A choice is what the compaction step of the engine asks for. */
  lemma ChoiceIsPicked(lists: Lists, c: Choice, cutoff: nat, unheld: bool)
    requires ListsOk(lists) && ChoiceOk(lists, c)
    ensures PickedOk(LevelsOf(lists), JobOf(lists, c, cutoff, unheld))
  {
    var levels, job := LevelsOf(lists), JobOf(lists, c, cutoff, unheld);
    assert SetOf(c.in0 + c.in1) == job.in0 + job.in1;
    NoGapIsGapless(job);
    assert c.in0[0] in job.in0;
    assert levels[c.level] == SetOf(lists[c.level]) && levels[c.level + 1] == SetOf(lists[c.level + 1]);
    assert levels[0] == SetOf(lists[0]);
  }

  /** Which file a compaction should start from: the level whose score asks for
      it, or a file that too many reads have passed over. */
  datatype Trigger = BySize(level: nat) | BySeek(level: nat, file: File) | NoNeed

  predicate IsPast(pointer: Option<IKey>, f: File)
    requires ValidFile(f)
  {
    pointer.None? || Less(pointer.value, Largest(f))
  }

  /** The first of the files past the pointer, or the first of all when none is. */
  ghost predicate IsSeed(files: seq<File>, pointer: Option<IKey>, f: File)
    requires AllValid(files)
  {
    exists i :: 0 <= i < |files| && files[i] == f
                && (forall j :: 0 <= j < i ==> !IsPast(pointer, files[j]))
                && (IsPast(pointer, f) || (i == 0 && forall j :: 0 <= j < |files| ==> !IsPast(pointer, files[j])))
  }

  /** The files of a level over `[lo, hi]`; at level 0 also those that they meet, and so on. */
  ghost predicate IsCover(files: seq<File>, level: nat, lo: UserKey, hi: UserKey, inputs: seq<File>) {
    exists b, e :: inputs == Select(files, b, e) && Stretched(files, Some(lo), Some(hi), b, e)
                   && if level == 0 then ClosedRange(files, b, e) else b == Some(lo) && e == Some(hi)
  }

  /** How a choice came about: what the next level holds over the range of the first inputs, the
      inputs grown over that range, what the next level holds over them, and the range chosen. */
  datatype Growth = Growth(first: seq<File>, grown: seq<File>, below: seq<File>, start: IKey, limit: IKey)

  ghost predicate Grows(lists: Lists, level: nat, in0: seq<File>, g: Growth)
    requires level + 1 < |lists|
  {
    g.first != [] ==>
      && AllValid(in0 + g.first) && ChoiceOk(lists, Choice(level, g.grown, g.below, []))
      && (forall f :: f in in0 ==> f in g.grown)
      && exists lo, hi :: IsRange(in0 + g.first, lo, hi) && IsCover(lists[level], level, lo.user, hi.user, g.grown)
  }

  /** It is more files, few enough bytes, and no more files of the next level. */
  ghost predicate ShouldGrow(in0: seq<File>, g: Growth) {
    && g.first != [] && |g.grown| > |in0| && |g.below| == |g.first|
    && TotalSize(g.first) + TotalSize(g.grown) < EXPANDED_LIMIT
  }

  /** The inputs grow exactly when they should; the grandparents are what lies two levels down
      over the range chosen. */
  ghost predicate IsSetUp(lists: Lists, level: nat, in0: seq<File>, c: Choice, g: Growth) {
    && level + 1 < |lists| && c.level == level && ChoiceOk(lists, c) && (forall f :: f in in0 ==> f in c.in0)
    && Below(lists, level, in0, g.first) && Grows(lists, level, in0, g)
    && c.in0 == (if ShouldGrow(in0, g) then g.grown else in0)
    && c.in1 == (if ShouldGrow(in0, g) then g.below else g.first)
    && AllValid(c.in0 + c.in1) && IsRange(c.in0 + c.in1, g.start, g.limit)
    && c.grandparents
       == if level + 2 < |lists| then Select(lists[level + 2], Some(g.start.user), Some(g.limit.user)) else []
  }

  class VersionSet {
    var lists: Lists
    var compactPointer: seq<Option<IKey>>

    ghost predicate Valid()
      reads this
    {
      ListsOk(lists) && |compactPointer| == NUM_LEVELS
    }

    method SetupOtherInputs(level: nat, in0: seq<File>) returns (c: Choice, ghost g: Growth)
      requires Valid() && Chosen(lists, level, in0) && NoGap(SetOf(in0))
      modifies this`compactPointer
      ensures Valid() && IsSetUp(lists, level, in0, c, g)
      ensures exists p :: IsLargest(c.in0, p) && compactPointer == old(compactPointer)[level := Some(p)]
    {
      var in1, first, start, limit := TargetInputs(level, in0);
      var files0, files1, largest, lo, hi;
      files0, files1, largest, lo, hi, g := MaybeGrow(level, in0, in1, first, start, limit);
      var grandparents := [];
      if level + 2 < NUM_LEVELS {
        ghost var b, e;
        grandparents, b, e := GetOverlappingInputs(level + 2, lists[level + 2], Some(lo.user), Some(hi.user));
      }
      c := Choice(level, files0, files1, grandparents);
      compactPointer := compactPointer[level := Some(largest)];
    }

    /** The inputs, grown when they should, with their largest key and the range of all. */
    method MaybeGrow(level: nat, in0: seq<File>, in1: seq<File>, first: IKey, start: IKey, limit: IKey)
      returns (files0: seq<File>, files1: seq<File>, largest: IKey, lo: IKey, hi: IKey, ghost g: Growth)
      requires Valid() && Chosen(lists, level, in0) && Below(lists, level, in0, in1) && IsLargest(in0, first)
      requires NoGap(SetOf(in0 + in1)) && AllValid(in0 + in1) && IsRange(in0 + in1, start, limit)
      ensures ChoiceOk(lists, Choice(level, files0, files1, [])) && IsLargest(files0, largest)
      ensures forall f :: f in in0 ==> f in files0
      ensures AllValid(files0 + files1) && IsRange(files0 + files1, lo, hi)
      ensures g.first == in1 && g.start == lo && g.limit == hi && Grows(lists, level, in0, g)
      ensures files0 == (if ShouldGrow(in0, g) then g.grown else in0)
      ensures files1 == (if ShouldGrow(in0, g) then g.below else in1)
    {
      files0, files1, largest, lo, hi := in0, in1, first, start, limit;
      g := Growth(in1, [], [], lo, hi);
      if |in1| > 0 {
        var expanded0, expanded1, grown := Expand(level, in0, in1, start, limit);
        var size0 := TotalFileSize(expanded0);
        var size1 := TotalFileSize(in1);
        if |expanded0| > |in0| && size1 + size0 < EXPANDED_LIMIT && |expanded1| == |in1| {
          files0, files1, largest := expanded0, expanded1, grown;
          ChosenValid(lists, level, expanded0);
          ChosenValid(lists, level + 1, expanded1);
          lo, hi := GetRange(expanded0 + expanded1);
        }
        g := Growth(in1, expanded0, expanded1, lo, hi);
      }
    }

    /** What the next level holds over the range of `in0`, and the range of both. */
    method TargetInputs(level: nat, in0: seq<File>) returns (in1: seq<File>, largest: IKey, start: IKey, limit: IKey)
      requires Valid() && Chosen(lists, level, in0) && NoGap(SetOf(in0))
      ensures Below(lists, level, in0, in1) && NoGap(SetOf(in0 + in1)) && IsLargest(in0, largest)
      ensures AllValid(in0 + in1) && IsRange(in0 + in1, start, limit)
    {
      ChosenValid(lists, level, in0);
      var smallest;
      smallest, largest := GetRange(in0);
      ghost var b, e;
      in1, b, e := GetOverlappingInputs(level + 1, lists[level + 1], Some(smallest.user), Some(largest.user));
      SelectedBelow(lists, level, in0, smallest, largest, in1);
      BelowNoGap(lists, level, in0, in1);
      ChosenValid(lists, level + 1, in1);
      start, limit := GetRange(in0 + in1);
    }

    /** The inputs over the whole range of the first choice, and what lies below them. */
    method Expand(level: nat, in0: seq<File>, in1: seq<File>, start: IKey, limit: IKey)
      returns (grown: seq<File>, below: seq<File>, largest: IKey)
      requires Valid() && Chosen(lists, level, in0) && Below(lists, level, in0, in1)
      requires NoGap(SetOf(in0 + in1)) && AllValid(in0 + in1) && IsRange(in0 + in1, start, limit)
      ensures ChoiceOk(lists, Choice(level, grown, below, []))
      ensures forall f :: f in in0 ==> f in grown
      ensures IsCover(lists[level], level, start.user, limit.user, grown) && IsLargest(grown, largest)
    {
      ghost var b, e;
      grown, b, e := GetOverlappingInputs(level, lists[level], Some(start.user), Some(limit.user));
      GrownKeeps(lists, level, in0, in1, start, limit, b, e, grown);
      assert in0[0] in grown;
      ChosenValid(lists, level, grown);
      if level == 0 {
        GrownClosed(lists, b, e, grown);
        ZeroNoGap(lists, in0, in1, start, limit, b, e, grown);
      } else {
        DeepNoGap(lists, level, in0, in1, start, limit, grown);
      }
      var newStart, newLimit := GetRange(grown);
      ghost var b', e';
      below, b', e' := GetOverlappingInputs(level + 1, lists[level + 1], Some(newStart.user), Some(newLimit.user));
      SelectedBelow(lists, level, grown, newStart, newLimit, below);
      GrownBelowNoGap(lists, level, in0, in1, grown, below);
      largest := newLimit;
    }

    /** The first file after the compaction pointer of the level, or the first file. */
    method SeedFile(level: nat) returns (f: File)
      requires Valid() && level < NUM_LEVELS && |lists[level]| > 0
      ensures IsSeed(lists[level], compactPointer[level], f)
    {
      var files, pointer := lists[level], compactPointer[level];
      for i := 0 to |files|
        invariant forall j :: 0 <= j < i ==> !IsPast(pointer, files[j])
      {
        if IsPast(pointer, files[i]) {
          return files[i];
        }
      }
      f := files[0];
    }

    /** The inputs to start from: one file, and at level 0 all that must go with it. */
    method FirstInputs(level: nat, f: File) returns (in0: seq<File>)
      requires Valid() && level + 1 < NUM_LEVELS && f in lists[level]
      ensures Chosen(lists, level, in0) && NoGap(SetOf(in0)) && f in in0
      ensures if level == 0 then IsCover(lists[0], 0, Lo(f), Hi(f), in0) else in0 == [f]
    {
      in0 := [f];
      ChosenValid(lists, level, in0);
      OneFileNoGap(f);
      assert SetOf(in0) == {f};
      if level == 0 {
        var smallest, largest := GetRange(in0);
        var inputs, b, e := GetOverlappingInputs(0, lists[0], Some(smallest.user), Some(largest.user));
        SeedGrown(lists, in0, smallest, largest, b, e, inputs);
        in0 := inputs;
      }
    }

    /** PickCompaction: `None` when there is nothing to do.  Otherwise it starts from the file `f`. */
    method PickCompaction(trigger: Trigger) returns (r: Option<Choice>, ghost f: File, ghost in0: seq<File>,
                                                     ghost g: Growth)
      requires Valid()
      requires trigger.BySize? ==> trigger.level + 1 < NUM_LEVELS && |lists[trigger.level]| > 0
      requires trigger.BySeek? ==> trigger.level + 1 < NUM_LEVELS && trigger.file in lists[trigger.level]
      modifies this`compactPointer
      ensures Valid()
      ensures r.None? <==> trigger.NoNeed?
      ensures r.None? ==> compactPointer == old(compactPointer)
      ensures trigger.BySeek? ==> f == trigger.file
      ensures trigger.BySize? ==> IsSeed(lists[trigger.level], old(compactPointer[trigger.level]), f)
      ensures r.Some? ==> if trigger.level == 0 then IsCover(lists[0], 0, Lo(f), Hi(f), in0) else in0 == [f]
      ensures r.Some? ==> f in in0 && IsSetUp(lists, trigger.level, in0, r.value, g)
      ensures r.Some? ==>
                exists p :: IsLargest(r.value.in0, p) && compactPointer == old(compactPointer)[trigger.level := Some(p)]
    {
      r, f, in0, g := None, File(0, 0, []), [], Growth([], [], [], IKey(0.0, 0), IKey(0.0, 0));
      if !trigger.NoNeed? {
        var start;
        if trigger.BySize? {
          start := SeedFile(trigger.level);
        } else {
          start := trigger.file;
        }
        var inputs := FirstInputs(trigger.level, start);
        var c;
        c, g := SetupOtherInputs(trigger.level, inputs);
        r, f, in0 := Some(c), start, inputs;
      }
    }
  }

  /** At level 0 the closure of one file's range is a gapless, closed choice. */
  lemma SeedGrown(lists: Lists, seed: seq<File>, smallest: IKey, largest: IKey, b: Option<UserKey>,
                  e: Option<UserKey>, inputs: seq<File>)
    requires ListsOk(lists) && |seed| == 1 && seed[0] in lists[0] && AllValid(seed) && IsRange(seed, smallest, largest)
    requires Stretched(lists[0], Some(smallest.user), Some(largest.user), b, e) && ClosedRange(lists[0], b, e)
    requires inputs == Select(lists[0], b, e)
    ensures Chosen(lists, 0, inputs) && NoGap(SetOf(inputs)) && seed[0] in inputs
  {
    var f := seed[0];
    assert SetOf(seed) == {f};
    OneFileNoGap(f);
    LC.RangeOrdered(f);
    assert seed + [] == seed;
    assert f in inputs by {
      assert f in SetOf(seed) && InRange(SetOf(seed), Lo(f));
      RangeMeans(seed, smallest, largest, Lo(f));
    }
    GrownClosed(lists, b, e, inputs);
    ZeroNoGap(lists, seed, [], smallest, largest, b, e, inputs);
    assert inputs + [] == inputs;
  }
}
