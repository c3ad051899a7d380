/** The compaction loop. */
module Compacting {
  // One pass over the merged inputs that drops what no live snapshot can see and cuts
  // the survivors into output files.

  import opened Entries
  import opened Lsm
  import opened Version
  import opened Picking
  import opened LsmSteps
  import LC = LsmCompaction
  import LsmRuns

  // ----- The moving test "is this the base level for the key?" -----

  class Compaction {
    const level: nat
    const lists: Lists
    const grandparents: seq<File>
    var levelPtrs: seq<nat>
    var grandparentIndex: nat
    var seenKey: bool
    var overlapped: nat
    ghost var since: nat

    constructor (level: nat, lists: Lists, grandparents: seq<File>)
      requires ListsOk(lists)
      ensures this.level == level && this.lists == lists && this.grandparents == grandparents
      ensures PtrsOk() && (forall u :: Behind(u)) && StopsOk() && !seenKey && grandparentIndex == 0
    {
      this.level, this.lists, this.grandparents := level, lists, grandparents;
      levelPtrs := seq(NUM_LEVELS, i => 0);
      grandparentIndex, seenKey, overlapped, since := 0, false, 0, 0;
      new;
      assert grandparents[0..0] == [];
    }

    ghost predicate PtrsOk()
      reads this`levelPtrs
    {
      && ListsOk(lists) && |levelPtrs| == NUM_LEVELS
      && forall l :: 0 <= l < NUM_LEVELS ==> levelPtrs[l] <= |lists[l]|
    }

    /** The files already passed all end before `u`. */
    ghost predicate Behind(u: UserKey)
      requires PtrsOk()
      reads this`levelPtrs
    {
      forall l, i :: 0 <= l < NUM_LEVELS && 0 <= i < levelPtrs[l] ==> Hi(lists[l][i]) < u
    }

    lemma BehindLater(u: UserKey, v: UserKey)
      requires PtrsOk() && Behind(u) && u <= v
      ensures Behind(v)
    {
    }

    /** No file of level `l` covers `u`. */
    ghost predicate Free(l: nat, u: UserKey)
      requires l < |lists|
    {
      forall i :: 0 <= i < |lists[l]| ==> !Covers(lists[l][i], u)
    }

    /** Asked with rising keys, the ever-advancing pointers answer the plain question. */
    method IsBaseLevelForKey(u: UserKey) returns (base: bool)
      requires PtrsOk() && Behind(u)
      modifies this`levelPtrs
      ensures PtrsOk() && Behind(u)
      ensures base <==> BaseLevelFor(LevelsOf(lists), level, u)
    {
      var l := level + 2;
      while l < NUM_LEVELS
        invariant PtrsOk() && Behind(u)
        invariant forall m :: level + 2 <= m < l && m < NUM_LEVELS ==> Free(m, u)
      {
        var free := Advance(l, u);
        if !free {
          BaseMeans(u);
          return false;
        }
        l := l + 1;
      }
      BaseMeans(u);
      return true;
    }

    method Advance(l: nat, u: UserKey) returns (free: bool)
      requires PtrsOk() && Behind(u) && 0 < l < NUM_LEVELS
      modifies this`levelPtrs
      ensures PtrsOk() && Behind(u)
      ensures free <==> Free(l, u)
    {
      var files := lists[l];
      while levelPtrs[l] < |files|
        invariant PtrsOk() && Behind(u)
        decreases |files| - levelPtrs[l]
      {
        var f := files[levelPtrs[l]];
        if u <= Hi(f) {
          InOrderAscends(files);
          LC.RangeOrdered(f);
          if u >= Lo(f) {
            return false;
          }
          return true;
        }
        levelPtrs := levelPtrs[l := levelPtrs[l] + 1];
      }
      return true;
    }

    lemma BaseMeans(u: UserKey)
      requires ListsOk(lists)
      ensures BaseLevelFor(LevelsOf(lists), level, u) <==> forall m :: level + 2 <= m < NUM_LEVELS ==> Free(m, u)
    {
      var levels := LevelsOf(lists);
      if BaseLevelFor(levels, level, u) {
        forall m, i | level + 2 <= m < NUM_LEVELS && 0 <= i < |lists[m]| ensures !Covers(lists[m][i], u) {
          assert In(levels, m, lists[m][i]);
        }
      }
      if forall m :: level + 2 <= m < NUM_LEVELS ==> Free(m, u) {
        forall m: nat, f | In(levels, m, f) && m >= level + 2 ensures !Covers(f, u) {
          assert Free(m, u);
          var i :| 0 <= i < |lists[m]| && lists[m][i] == f;
        }
      }
    }

    // ----- When to cut an output because it meets too many grandparents -----

    ghost predicate StopsOk()
      reads this`grandparentIndex, this`seenKey, this`overlapped, this`since
    {
      && since <= grandparentIndex <= |grandparents|
      && overlapped == TotalSize(grandparents[since..grandparentIndex])
      && (!seenKey ==> since == grandparentIndex)
    }

    /** Cuts when the grandparents passed since the last cut exceed the limit. */
    method ShouldStopBefore(key: IKey) returns (stop: bool)
      requires AllValid(grandparents) && StopsOk()
      modifies this`grandparentIndex, this`seenKey, this`overlapped, this`since
      ensures StopsOk() && seenKey && grandparentIndex >= old(grandparentIndex)
      ensures grandparentIndex < |grandparents| ==> !Less(Largest(grandparents[grandparentIndex]), key)
      ensures overlapped <= MAX_GRANDPARENT_OVERLAP
      ensures forall i :: old(grandparentIndex) <= i < grandparentIndex ==> Less(Largest(grandparents[i]), key)
      ensures stop <==> old(seenKey) && TotalSize(grandparents[old(since)..grandparentIndex]) > MAX_GRANDPARENT_OVERLAP
      ensures since == if stop || !old(seenKey) then grandparentIndex else old(since)
    {
      while grandparentIndex < |grandparents| && Less(Largest(grandparents[grandparentIndex]), key)
        invariant StopsOk() && grandparentIndex >= old(grandparentIndex) && seenKey == old(seenKey)
        invariant seenKey ==> since == old(since)
        invariant forall i :: old(grandparentIndex) <= i < grandparentIndex ==> Less(Largest(grandparents[i]), key)
      {
        if seenKey {
          overlapped := overlapped + grandparents[grandparentIndex].size;
          ghost var upTo := grandparents[since..grandparentIndex + 1];
          assert upTo[..|upTo| - 1] == grandparents[since..grandparentIndex];
        } else {
          since := since + 1;
        }
        grandparentIndex := grandparentIndex + 1;
      }
      seenKey := true;
      if overlapped > MAX_GRANDPARENT_OVERLAP {
        overlapped := 0;
        since := grandparentIndex;
        assert grandparents[since..grandparentIndex] == [];
        return true;
      }
      return false;
    }
  }

  // ----- The loop -----

  ghost function KeptOf(job: Job, es: seq<Entry>): seq<Entry>
    decreases |es|
  {
    if |es| == 0 then []
    else
      var n := |es| - 1;
      KeptOf(job, es[..n]) + if Dropped(job, es[n]) then [] else [es[n]]
  }

  /** What goes: an entry that a newer one of its key in the inputs hides from every read at or above the
      cutoff, and a deletion at or below the cutoff over a key that no deeper file covers. */
  lemma DroppedMeans(job: Job, lists: Lists, e: Entry)
    requires job.base == LevelsOf(lists)
    ensures Dropped(job, e) <==>
              || (exists f, x :: f in job.in0 + job.in1 && x in f.entries && x.user == e.user
                                 && x.sn > e.sn && x.sn <= job.cutoff)
              || (e.kind.Deletion? && e.sn <= job.cutoff
                  && forall m, i :: job.level + 2 <= m < |lists| && 0 <= i < |lists[m]| ==>
                       !(Lo(lists[m][i]) <= e.user <= Hi(lists[m][i])))
  {
    if BaseLevelFor(job.base, job.level, e.user) {
      forall m, i | job.level + 2 <= m < |lists| && 0 <= i < |lists[m]| ensures !Covers(lists[m][i], e.user) {
        assert In(job.base, m, lists[m][i]);
      }
    } else {
      var m: nat, f :| In(job.base, m, f) && m >= job.level + 2 && Covers(f, e.user);
      var i :| 0 <= i < |lists[m]| && lists[m][i] == f;
      assert Covers(lists[m][i], e.user);
    }
    if x :| x in Inputs(job) && x.user == e.user && e.sn < x.sn <= job.cutoff {
      LC.InInputs(job, x);
    }
  }

  lemma KeptStep(job: Job, es: seq<Entry>, i: nat)
    requires i < |es|
    ensures KeptOf(job, es[..i + 1]) == KeptOf(job, es[..i]) + if Dropped(job, es[i]) then [] else [es[i]]
  {
    assert es[..i + 1][..i] == es[..i];
  }

  lemma KeptElems(job: Job, es: seq<Entry>)
    ensures forall e :: e in KeptOf(job, es) <==> e in es && !Dropped(job, e)
    decreases |es|
  {
    if |es| > 0 {
      var n := |es| - 1;
      KeptElems(job, es[..n]);
      assert es == es[..n] + [es[n]];
    }
  }

  lemma KeptSorted(job: Job, es: seq<Entry>)
    requires Sorted(es)
    ensures Sorted(KeptOf(job, es))
    decreases |es|
  {
    if |es| > 0 {
      var n := |es| - 1;
      KeptSorted(job, es[..n]);
      var kept := KeptOf(job, es[..n]);
      forall i | 0 <= i < |kept| ensures Before(kept[i], es[n]) {
        KeptElems(job, es[..n]);
        assert kept[i] in es[..n];
        var j :| 0 <= j < n && es[j] == kept[i];
      }
    }
  }

  /** The entry before it in the merged order decides whether an entry is shadowed. */
  lemma PreviousDecides(es: seq<Entry>, i: nat, cutoff: nat)
    requires Sorted(es) && UniqueSn(Elems(es)) && i < |es|
    ensures Shadowed(Elems(es), cutoff, es[i]) <==> i > 0 && es[i - 1].user == es[i].user && es[i - 1].sn <= cutoff
  {
    var e := es[i];
    if i > 0 && es[i - 1].user == e.user && es[i - 1].sn <= cutoff {
      assert Before(es[i - 1], es[i]) && es[i - 1] in Elems(es) && es[i] in Elems(es);
      assert es[i - 1].sn != e.sn;
    }
    forall j | i < j < |es| ensures Before(e, es[j]) {
    }
    if x :| x in Elems(es) && x.user == e.user && e.sn < x.sn <= cutoff {
      var j :| 0 <= j < |es| && es[j] == x;
      assert j < i;
      if j < i - 1 {
        assert Before(es[j], es[i - 1]) && Before(es[i - 1], es[i]);
      }
    }
  }

  ghost function Flatten(outs: seq<File>): seq<Entry>
    decreases |outs|
  {
    if |outs| == 0 then [] else Flatten(outs[..|outs| - 1]) + outs[|outs| - 1].entries
  }

  lemma FlattenOne(outs: seq<File>, f: File)
    ensures Flatten(outs + [f]) == Flatten(outs) + f.entries
  {
    assert (outs + [f])[..|outs|] == outs;
  }

  lemma FlattenElems(outs: seq<File>)
    ensures Elems(Flatten(outs)) == FileEntries(SetOf(outs))
    decreases |outs|
  {
    if |outs| > 0 {
      var n := |outs| - 1;
      FlattenElems(outs[..n]);
      assert outs == outs[..n] + [outs[n]];
      assert SetOf(outs) == SetOf(outs[..n]) + {outs[n]};
      assert FileEntries(SetOf(outs)) == FileEntries(SetOf(outs[..n])) + Elems(outs[n].entries);
      assert Elems(Flatten(outs)) == Elems(Flatten(outs[..n])) + Elems(outs[n].entries);
    }
  }

  lemma InFlatten(outs: seq<File>, i: nat, e: Entry)
    requires i < |outs| && e in outs[i].entries
    ensures e in Flatten(outs)
  {
    FlattenElems(outs);
    assert outs[i] in SetOf(outs);
    assert e in FileEntries(SetOf(outs));
  }

  lemma SortedParts(a: seq<Entry>, b: seq<Entry>, e: Entry, x: Entry)
    requires Sorted(a + b) && e in a && x in b
    ensures Before(e, x)
  {
    var i :| 0 <= i < |a| && a[i] == e;
    var j :| 0 <= j < |b| && b[j] == x;
    assert Before((a + b)[i], (a + b)[|a| + j]);
  }

  lemma SortedHalves(a: seq<Entry>, b: seq<Entry>)
    requires Sorted(a + b)
    ensures Sorted(a) && Sorted(b)
  {
    forall i, j | 0 <= i < j < |a| ensures Before(a[i], a[j]) {
      assert (a + b)[i] == a[i] && (a + b)[j] == a[j];
    }
    forall i, j | 0 <= i < j < |b| ensures Before(b[i], b[j]) {
      assert (a + b)[|a| + i] == b[i] && (a + b)[|a| + j] == b[j];
    }
  }

  /** Cutting a sorted list gives sorted files, each wholly before the next. */
  lemma {:induction false} FlattenSorted(outs: seq<File>)
    requires Sorted(Flatten(outs))
    ensures forall i :: 0 <= i < |outs| ==> Sorted(outs[i].entries)
    ensures forall i, j, e, x :: 0 <= i < j < |outs| && e in outs[i].entries && x in outs[j].entries ==> Before(e, x)
    decreases |outs|
  {
    if |outs| > 0 {
      var n := |outs| - 1;
      var init, last := Flatten(outs[..n]), outs[n].entries;
      SortedHalves(init, last);
      FlattenSorted(outs[..n]);
      forall i, e, x | 0 <= i < n && e in outs[i].entries && x in last ensures Before(e, x) {
        InFlatten(outs[..n], i, e);
        SortedParts(init, last, e, x);
      }
    }
  }

  ghost predicate Rising(ns: seq<nat>) {
    forall i, j :: 0 <= i < j < |ns| ==> ns[i] < ns[j]
  }

  /** The finished outputs, the entries of the file being built and its number, the next
      number of the counter, and the numbers taken so far. */
  datatype Output = Output(outs: seq<File>, cur: seq<Entry>, number: nat, next: nat, taken: seq<nat>)

  ghost predicate NumbersTaken(o: Output, first: nat) {
    && Rising(o.taken) && (forall k :: 0 <= k < |o.taken| ==> first <= o.taken[k] < o.next)
    && |o.taken| == |o.outs| + (if |o.cur| > 0 then 1 else 0)
    && (forall i :: 0 <= i < |o.outs| ==> o.outs[i].number == o.taken[i])
    && (|o.cur| > 0 ==> o.number == o.taken[|o.outs|])
  }

  ghost predicate Building(o: Output, first: nat, kept: seq<Entry>) {
    forall lock: Lock :: BuildingBody(o, first, kept, lock)
  }

  ghost predicate BuildingBody(o: Output, first: nat, kept: seq<Entry>, lock: Lock) {
    && Flatten(o.outs) + o.cur == kept
    && (forall i :: 0 <= i < |o.outs| ==> |o.outs[i].entries| > 0)
    && NumbersTaken(o, first)
  }

  lemma BuiltOutputs(job: Job, o: Output, first: nat, input: seq<Entry>)
    requires Sorted(input) && Elems(input) == Inputs(job)
    requires Building(o, first, KeptOf(job, input)) && o.cur == []
    ensures OutputsOk(job, SetOf(o.outs)) && |o.taken| == |o.outs| && Rising(o.taken)
    ensures forall i :: 0 <= i < |o.outs| ==> o.outs[i].number == o.taken[i] >= first
  {
    var outs := o.outs;
    assert BuildingBody(o, first, KeptOf(job, input), Lock);
    assert Flatten(outs) + [] == Flatten(outs);
    KeptElems(job, input);
    KeptSorted(job, input);
    FlattenElems(outs);
    FlattenSorted(outs);
    assert FileEntries(SetOf(outs)) == Survivors(job);
    forall f, g | f in SetOf(outs) && g in SetOf(outs) && f != g ensures Consecutive(f, g) && f.number != g.number {
      NumberedApart(outs, o.taken, f, g);
    }
  }

  lemma NumberedApart(outs: seq<File>, taken: seq<nat>, f: File, g: File)
    requires |taken| == |outs| && Rising(taken) && forall i :: 0 <= i < |outs| ==> outs[i].number == taken[i]
    requires forall i, j :: 0 <= i < j < |outs| ==> Consecutive(outs[i], outs[j])
    requires f in outs && g in outs && f != g
    ensures Consecutive(f, g) && f.number != g.number
  {
    var i :| 0 <= i < |outs| && outs[i] == f;
    var j :| 0 <= j < |outs| && outs[j] == g;
    assert outs[i].number == taken[i] && outs[j].number == taken[j];
  }

  /** OpenCompactionOutputFile: the number is taken now; other threads took `others` since the last one. */
  method OpenOutput(o: Output, others: nat, e: Entry, ghost first: nat, ghost kept: seq<Entry>) returns (r: Output)
    requires Building(o, first, kept) && o.cur == [] && first <= o.next
    ensures Building(r, first, kept + [e]) && r.cur == [e] && r.outs == o.outs && first <= r.next
    ensures r.number == o.next + others && r.next == r.number + 1 && r.taken == o.taken + [r.number]
  {
    var number := o.next + others;
    assert BuildingBody(o, first, kept, Lock);
    r := Output(o.outs, [e], number, number + 1, o.taken + [number]);
    assert Flatten(o.outs) + [e] == Flatten(o.outs) + [] + [e];
  }

  /** FinishCompactionOutputFile: the file being built becomes an output. */
  method FinishOutput(o: Output, size: nat, ghost first: nat, ghost kept: seq<Entry>) returns (r: Output)
    requires Building(o, first, kept) && |o.cur| > 0
    ensures Building(r, first, kept) && r.cur == [] && r.next == o.next && r.taken == o.taken
    ensures r.outs == o.outs + [File(o.number, size, o.cur)]
  {
    var f := File(o.number, size, o.cur);
    assert BuildingBody(o, first, kept, Lock);
    r := o.(outs := o.outs + [f], cur := []);
    FlattenOne(o.outs, f);
    assert Flatten(r.outs) + [] == Flatten(r.outs);
  }

  /** The drop test of one entry: rule (A), then the obsolete deletion. */
  method ShouldDrop(c: Compaction, ghost job: Job, ghost input: seq<Entry>, ghost i: nat, e: Entry, lastSequence: nat,
                    cutoff: nat)
    returns (drop: bool)
    requires c.PtrsOk() && c.Behind(e.user)
    requires Sorted(input) && UniqueSn(Elems(input)) && Elems(input) == Inputs(job) && i < |input| && e == input[i]
    requires job.level == c.level && job.base == LevelsOf(c.lists) && job.cutoff == cutoff < MAX_SEQUENCE
    requires lastSequence == if i > 0 && input[i - 1].user == e.user then input[i - 1].sn else MAX_SEQUENCE
    modifies c`levelPtrs
    ensures c.PtrsOk() && c.Behind(e.user)
    ensures drop <==> Dropped(job, e)
  {
    PreviousDecides(input, i, cutoff);
    drop := false;
    if lastSequence <= cutoff {
      drop := true;
    } else if e.kind.Deletion? && e.sn <= cutoff {
      drop := c.IsBaseLevelForKey(e.user);
    }
  }

  /** The variables of the loop: the outputs, and the key and sequence of the entry handled last. */
  datatype Progress = Progress(output: Output, user: Option<UserKey>, last: nat)

  ghost predicate ProgressOk(p: Progress, job: Job, input: seq<Entry>, first: nat, i: nat) {
    && i <= |input| && first <= p.output.next
    && Building(p.output, first, KeptOf(job, input[..i]))
    && (i == 0 ==> p.user == None)
    && (i > 0 ==> p.user == Some(input[i - 1].user) && p.last == input[i - 1].sn)
  }

  /** Adds a kept entry to the file being built, opening one if there is none and closing
      it when it is big enough. */
  method Keep(o: Output, others: nat, e: Entry, ghost first: nat, ghost kept: seq<Entry>,
              fileSize: seq<Entry> -> nat, maxSize: nat)
    returns (r: Output)
    requires Building(o, first, kept) && first <= o.next
    ensures Building(r, first, kept + [e]) && first <= r.next
    ensures if o.cur == [] then r.taken == o.taken + [o.next + others] else r.taken == o.taken
    ensures var es := o.cur + [e];
            if fileSize(es) < maxSize then r.cur == es && r.outs == o.outs
            else r.cur == [] && exists n :: r.outs == o.outs + [File(n, fileSize(es), es)]
  {
    if |o.cur| == 0 {
      r := OpenOutput(o, others, e, first, kept);
      assert o.cur + [e] == [e];
    } else {
      assert BuildingBody(o, first, kept, Lock);
      r := o.(cur := o.cur + [e]);
      assert Flatten(o.outs) + (o.cur + [e]) == Flatten(o.outs) + o.cur + [e];
    }
    if fileSize(r.cur) >= maxSize {
      r := FinishOutput(r, fileSize(r.cur), first, kept + [e]);
    }
  }

  // ----- Where the loop is told to stop -----

  /** What decides the cuts: the compaction, its grandparents and how far it had come among them
      before the loop, and the sizes of tables. */
  datatype Rules = Rules(job: Job, grandparents: seq<File>, seen: bool, index: nat, since: nat,
                         fileSize: seq<Entry> -> nat, maxSize: nat)

  /** The entries so far: whether the loop was told to stop before them, and how many grandparents
      it had passed then. */
  datatype Stop = Stop(told: bool, passed: nat)

  /** The grandparent from which overlaps count before entry `i`: the one reached at the last stop,
      or at the first entry of all. */
  ghost function Since(w: Rules, stops: seq<Stop>, i: nat): nat
    requires i <= |stops|
    decreases i
  {
    if i == 0 then w.since
    else if stops[i - 1].told || (i == 1 && !w.seen) then stops[i - 1].passed
    else Since(w, stops, i - 1)
  }

  ghost function Reached(w: Rules, stops: seq<Stop>, i: nat): nat
    requires i <= |stops|
  {
    if i == 0 then w.index else stops[i - 1].passed
  }

  /** Entry `e` passes the grandparents that end before it, and is a stop if and only if those
      passed since the last stop weigh too much. */
  ghost predicate IsStop(w: Rules, from: nat, since: nat, seen: bool, e: Entry, s: Stop) {
    forall lock: Lock :: IsStopBody(w, from, since, seen, e, s, lock)
  }

  ghost predicate IsStopBody(w: Rules, from: nat, since: nat, seen: bool, e: Entry, s: Stop, lock: Lock) {
    && from <= s.passed <= |w.grandparents| && since <= s.passed && AllValid(w.grandparents)
    && (forall g :: from <= g < s.passed ==> Less(Largest(w.grandparents[g]), KeyOf(e)))
    && (s.passed < |w.grandparents| ==> !Less(Largest(w.grandparents[s.passed]), KeyOf(e)))
    && (s.told <==> seen && TotalSize(w.grandparents[since..s.passed]) > MAX_GRANDPARENT_OVERLAP)
  }

  ghost predicate StopsRight(w: Rules, input: seq<Entry>, stops: seq<Stop>) {
    forall lock: Lock :: StopsRightBody(w, input, stops, lock)
  }

  ghost predicate StopsRightBody(w: Rules, input: seq<Entry>, stops: seq<Stop>, lock: Lock) {
    && |stops| <= |input|
    && forall i :: 0 <= i < |stops| ==>
         IsStop(w, Reached(w, stops, i), Since(w, stops, i), w.seen || i > 0, input[i], stops[i])
  }

  lemma {:induction false} SinceMore(w: Rules, stops: seq<Stop>, s: Stop, i: nat)
    requires i <= |stops|
    ensures Since(w, stops + [s], i) == Since(w, stops, i)
    decreases i
  {
    if i > 0 {
      SinceMore(w, stops, s, i - 1);
    }
  }

  lemma StopsMore(w: Rules, input: seq<Entry>, stops: seq<Stop>, s: Stop)
    requires StopsRight(w, input, stops) && |stops| < |input|
    requires IsStop(w, Reached(w, stops, |stops|), Since(w, stops, |stops|), w.seen || |stops| > 0, input[|stops|], s)
    ensures StopsRight(w, input, stops + [s])
  {
    var more := stops + [s];
    assert StopsRightBody(w, input, stops, Lock);
    forall i | 0 <= i < |more|
      ensures IsStop(w, Reached(w, more, i), Since(w, more, i), w.seen || i > 0, input[i], more[i])
    {
      SinceMore(w, stops, s, i);
      assert Reached(w, more, i) == Reached(w, stops, i);
    }
  }

  /** The compaction stands where the stops say. */
  ghost predicate OnTrail(c: Compaction, w: Rules, stops: seq<Stop>)
    reads c`seenKey, c`grandparentIndex, c`since
  {
    && c.seenKey == (w.seen || |stops| > 0) && c.grandparents == w.grandparents
    && c.grandparentIndex == Reached(w, stops, |stops|) && c.since == Since(w, stops, |stops|)
  }

  /** ShouldStopBefore, entry after entry. */
  method AskStop(c: Compaction, ghost w: Rules, input: seq<Entry>, i: nat, ghost stops: seq<Stop>)
    returns (stop: bool, ghost passed: nat)
    requires c.StopsOk() && AllValid(c.grandparents) && i == |stops| < |input|
    requires OnTrail(c, w, stops) && StopsRight(w, input, stops)
    modifies c`grandparentIndex, c`seenKey, c`overlapped, c`since
    ensures c.StopsOk() && OnTrail(c, w, stops + [Stop(stop, passed)])
    ensures StopsRight(w, input, stops + [Stop(stop, passed)])
  {
    stop := c.ShouldStopBefore(KeyOf(input[i]));
    passed := c.grandparentIndex;
    SinceMore(w, stops, Stop(stop, passed), i);
    StopsMore(w, input, stops, Stop(stop, passed));
  }

  // ----- Where the outputs are cut -----

  /** The entries kept of `input[b..e]`. */
  ghost function Part(w: Rules, input: seq<Entry>, b: nat, e: nat): seq<Entry> {
    if b <= e <= |input| then KeptOf(w.job, input[b..e]) else []
  }

  ghost predicate Fits(w: Rules, es: seq<Entry>) {
    es == [] || w.fileSize(es) < w.maxSize
  }

  /** Nothing asked for a cut inside `input[b..e]`. */
  ghost predicate Uncut(w: Rules, input: seq<Entry>, stops: seq<Stop>, b: nat, e: nat) {
    forall lock: Lock :: UncutBody(w, input, stops, b, e, lock)
  }

  ghost predicate UncutBody(w: Rules, input: seq<Entry>, stops: seq<Stop>, b: nat, e: nat, lock: Lock) {
    && e <= |stops|
    && (forall j: nat :: b < j <= e ==> Fits(w, Part(w, input, b, j)))
    && (forall j: nat :: b <= j < e ==> !stops[j].told || Part(w, input, b, j) == [])
  }

  /** Nor does a stop at `e`. */
  ghost predicate NoStop(w: Rules, input: seq<Entry>, stops: seq<Stop>, b: nat, e: nat) {
    Uncut(w, input, stops, b, e) && e < |stops| && (!stops[e].told || Part(w, input, b, e) == [])
  }

  /** The file holds what is kept of `input[b..e]`, and it was closed there because of a stop, its
      size, or the end of the input, and for none of these earlier. */
  ghost predicate Closed(w: Rules, input: seq<Entry>, stops: seq<Stop>, b: nat, e: nat, f: File) {
    forall lock: Lock :: ClosedBody(w, input, stops, b, e, f, lock)
  }

  ghost predicate ClosedBody(w: Rules, input: seq<Entry>, stops: seq<Stop>, b: nat, e: nat, f: File, lock: Lock) {
    && b <= e <= |input| && f.entries == Part(w, input, b, e) && |f.entries| > 0 && f.size == w.fileSize(f.entries)
    && (|| (Uncut(w, input, stops, b, e) && (e == |input| || (e < |stops| && stops[e].told)))
        || (e > 0 && NoStop(w, input, stops, b, e - 1) && w.fileSize(f.entries) >= w.maxSize))
  }

  ghost function Begin(ends: seq<nat>, k: nat): nat
    requires k <= |ends|
  {
    if k == 0 then 0 else ends[k - 1]
  }

  /** `ends` says up to which entry each output goes. */
  ghost predicate CutsRight(w: Rules, input: seq<Entry>, stops: seq<Stop>, ends: seq<nat>, outs: seq<File>) {
    && |ends| == |outs|
    && forall k :: 0 <= k < |outs| ==> Closed(w, input, stops, Begin(ends, k), ends[k], outs[k])
  }

  lemma PartGrows(w: Rules, input: seq<Entry>, b: nat, i: nat)
    requires b <= i < |input|
    ensures Part(w, input, b, i + 1) == Part(w, input, b, i) + if Dropped(w.job, input[i]) then [] else [input[i]]
  {
    assert input[b..i + 1][..i - b] == input[b..i];
  }

  lemma UncutMore(w: Rules, input: seq<Entry>, stops: seq<Stop>, s: Stop, b: nat, e: nat)
    requires Uncut(w, input, stops, b, e)
    ensures Uncut(w, input, stops + [s], b, e) && e <= |stops|
  {
    assert UncutBody(w, input, stops, b, e, Lock);
  }

  lemma UncutNone(w: Rules, input: seq<Entry>, stops: seq<Stop>, b: nat)
    requires b <= |stops|
    ensures Uncut(w, input, stops, b, b)
  {
  }

  lemma UncutOne(w: Rules, input: seq<Entry>, stops: seq<Stop>, b: nat, i: nat)
    requires b <= i < |input| && NoStop(w, input, stops, b, i)
    requires Dropped(w.job, input[i]) || Fits(w, Part(w, input, b, i) + [input[i]])
    ensures Uncut(w, input, stops, b, i + 1)
  {
    PartGrows(w, input, b, i);
    assert Part(w, input, b, i) + [] == Part(w, input, b, i);
    assert UncutBody(w, input, stops, b, i, Lock);
    assert b == i ==> Part(w, input, b, i) == [];
    forall j: nat | b < j <= i + 1 ensures Fits(w, Part(w, input, b, j)) {
    }
  }

  lemma ClosedMore(w: Rules, input: seq<Entry>, stops: seq<Stop>, s: Stop, b: nat, e: nat, f: File)
    requires Closed(w, input, stops, b, e, f)
    ensures Closed(w, input, stops + [s], b, e, f)
  {
    assert ClosedBody(w, input, stops, b, e, f, Lock);
    if Uncut(w, input, stops, b, e) {
      UncutMore(w, input, stops, s, b, e);
    }
    if e > 0 && NoStop(w, input, stops, b, e - 1) {
      UncutMore(w, input, stops, s, b, e - 1);
    }
  }

  lemma CutsMore(w: Rules, input: seq<Entry>, stops: seq<Stop>, s: Stop, ends: seq<nat>, outs: seq<File>)
    requires CutsRight(w, input, stops, ends, outs)
    ensures CutsRight(w, input, stops + [s], ends, outs)
  {
    forall k | 0 <= k < |outs| ensures Closed(w, input, stops + [s], Begin(ends, k), ends[k], outs[k]) {
      ClosedMore(w, input, stops, s, Begin(ends, k), ends[k], outs[k]);
    }
  }

  lemma CutsOne(w: Rules, input: seq<Entry>, stops: seq<Stop>, ends: seq<nat>, outs: seq<File>, e: nat, f: File)
    requires CutsRight(w, input, stops, ends, outs) && Closed(w, input, stops, Begin(ends, |ends|), e, f)
    ensures CutsRight(w, input, stops, ends + [e], outs + [f])
  {
    forall k | 0 <= k <= |outs|
      ensures Closed(w, input, stops, Begin(ends + [e], k), (ends + [e])[k], (outs + [f])[k])
    {
      assert Begin(ends + [e], k) == Begin(ends, k);
    }
  }

  /** The cuts so far, and the file being built, before entry `i`. */
  ghost predicate Cutting(w: Rules, input: seq<Entry>, stops: seq<Stop>, ends: seq<nat>, o: Output, i: nat) {
    forall lock: Lock :: CuttingBody(w, input, stops, ends, o, i, lock)
  }

  ghost predicate CuttingBody(w: Rules, input: seq<Entry>, stops: seq<Stop>, ends: seq<nat>, o: Output, i: nat,
                              lock: Lock) {
    && CutsRight(w, input, stops, ends, o.outs) && Begin(ends, |ends|) <= i <= |input|
    && o.cur == Part(w, input, Begin(ends, |ends|), i) && Uncut(w, input, stops, Begin(ends, |ends|), i)
  }

  lemma CuttingMore(w: Rules, input: seq<Entry>, stops: seq<Stop>, s: Stop, ends: seq<nat>, o: Output, i: nat)
    requires Cutting(w, input, stops, ends, o, i)
    ensures Cutting(w, input, stops + [s], ends, o, i)
  {
    assert CuttingBody(w, input, stops, ends, o, i, Lock);
    CutsMore(w, input, stops, s, ends, o.outs);
    UncutMore(w, input, stops, s, Begin(ends, |ends|), i);
  }

  /** The file being built is closed before entry `i`. */
  lemma CutHere(w: Rules, input: seq<Entry>, stops: seq<Stop>, ends: seq<nat>, o: Output, i: nat, r: Output)
    requires Cutting(w, input, stops, ends, o, i) && o.cur != [] && i <= |stops|
    requires i == |input| || (i < |stops| && stops[i].told)
    requires r.cur == [] && r.outs == o.outs + [File(o.number, w.fileSize(o.cur), o.cur)]
    ensures Cutting(w, input, stops, ends + [i], r, i)
  {
    assert CuttingBody(w, input, stops, ends, o, i, Lock);
    CutsOne(w, input, stops, ends, o.outs, i, File(o.number, w.fileSize(o.cur), o.cur));
    UncutNone(w, input, stops, i);
  }

  /** What Keep does to the file being built. */
  ghost predicate Kept(w: Rules, o: Output, e: Entry, r: Output) {
    var es := o.cur + [e];
    if w.fileSize(es) < w.maxSize then r.cur == es && r.outs == o.outs
    else r.cur == [] && exists n :: r.outs == o.outs + [File(n, w.fileSize(es), es)]
  }

  lemma CutAfter(w: Rules, input: seq<Entry>, stops: seq<Stop>, ends: seq<nat>, o: Output, i: nat, r: Output)
    returns (ends': seq<nat>)
    requires i < |input| && Cutting(w, input, stops, ends, o, i) && NoStop(w, input, stops, Begin(ends, |ends|), i)
    requires if Dropped(w.job, input[i]) then r == o else Kept(w, o, input[i], r)
    ensures Cutting(w, input, stops, ends', r, i + 1)
  {
    var b, es := Begin(ends, |ends|), o.cur + [input[i]];
    ends' := ends;
    assert CuttingBody(w, input, stops, ends, o, i, Lock);
    PartGrows(w, input, b, i);
    if !Dropped(w.job, input[i]) && w.fileSize(es) >= w.maxSize {
      var n :| r.outs == o.outs + [File(n, w.fileSize(es), es)];
      CutsOne(w, input, stops, ends, o.outs, i + 1, File(n, w.fileSize(es), es));
      ends' := ends + [i + 1];
      UncutNone(w, input, stops, i + 1);
    } else {
      UncutOne(w, input, stops, b, i);
    }
  }

  // ----- The loop itself -----

  /** Before an entry: whether to stop there, and if so the file being built is closed. */
  method StopBefore(c: Compaction, ghost w: Rules, input: seq<Entry>, i: nat, o: Output, ghost stops: seq<Stop>,
                    ghost ends: seq<nat>, ghost first: nat, fileSize: seq<Entry> -> nat)
    returns (r: Output, ghost stop: Stop, ghost ends': seq<nat>)
    requires c.StopsOk() && AllValid(c.grandparents) && w.fileSize == fileSize && i == |stops| < |input|
    requires OnTrail(c, w, stops) && StopsRight(w, input, stops) && Cutting(w, input, stops, ends, o, i)
    requires Building(o, first, KeptOf(w.job, input[..i]))
    modifies c`grandparentIndex, c`seenKey, c`overlapped, c`since
    ensures c.StopsOk() && OnTrail(c, w, stops + [stop]) && StopsRight(w, input, stops + [stop])
    ensures Cutting(w, input, stops + [stop], ends', r, i)
    ensures NoStop(w, input, stops + [stop], Begin(ends', |ends'|), i)
    ensures Building(r, first, KeptOf(w.job, input[..i])) && r.next == o.next && r.taken == o.taken
  {
    var told;
    ghost var passed;
    told, passed := AskStop(c, w, input, i, stops);
    stop, r, ends' := Stop(told, passed), o, ends;
    CuttingMore(w, input, stops, stop, ends, o, i);
    if told && |o.cur| > 0 {
      r := FinishOutput(o, fileSize(o.cur), first, KeptOf(w.job, input[..i]));
      CutHere(w, input, stops + [stop], ends, o, i, r);
      ends' := ends + [i];
    }
    assert CuttingBody(w, input, stops + [stop], ends', r, i, Lock);
  }

  method KeepOrDrop(ghost w: Rules, input: seq<Entry>, i: nat, o: Output, drop: bool, others: nat, ghost first: nat,
                    fileSize: seq<Entry> -> nat, maxSize: nat)
    returns (r: Output)
    requires i < |input| && (drop <==> Dropped(w.job, input[i])) && w.fileSize == fileSize && w.maxSize == maxSize
    requires Building(o, first, KeptOf(w.job, input[..i])) && first <= o.next
    ensures Building(r, first, KeptOf(w.job, input[..i + 1])) && first <= r.next
    ensures if drop then r == o else Kept(w, o, input[i], r)
  {
    KeptStep(w.job, input, i);
    r := o;
    if !drop {
      r := Keep(o, others, input[i], first, KeptOf(w.job, input[..i]), fileSize, maxSize);
    } else {
      assert KeptOf(w.job, input[..i]) + [] == KeptOf(w.job, input[..i]);
    }
  }

  /** One turn of the loop. */
  method HandleEntry(c: Compaction, ghost w: Rules, input: seq<Entry>, i: nat, p: Progress, cutoff: nat, others: nat,
                     ghost first: nat, fileSize: seq<Entry> -> nat, maxSize: nat, ghost stops: seq<Stop>,
                     ghost ends: seq<nat>)
    returns (p': Progress, ghost stop: Stop, ghost ends': seq<nat>)
    requires c.PtrsOk() && c.StopsOk() && AllValid(c.grandparents)
    requires Sorted(input) && UniqueSn(Elems(input)) && Elems(input) == Inputs(w.job)
    requires w.job.level == c.level && w.job.base == LevelsOf(c.lists) && w.job.cutoff == cutoff < MAX_SEQUENCE
    requires i == |stops| < |input| && c.Behind(input[i].user) && ProgressOk(p, w.job, input, first, i)
    requires w.fileSize == fileSize && w.maxSize == maxSize
    requires OnTrail(c, w, stops) && StopsRight(w, input, stops) && Cutting(w, input, stops, ends, p.output, i)
    modifies c
    ensures c.PtrsOk() && c.StopsOk() && c.Behind(input[i].user)
    ensures ProgressOk(p', w.job, input, first, i + 1)
    ensures OnTrail(c, w, stops + [stop]) && StopsRight(w, input, stops + [stop])
    ensures Cutting(w, input, stops + [stop], ends', p'.output, i + 1)
  {
    var e := input[i];
    var last := p.last;
    var before;
    before, stop, ends' := StopBefore(c, w, input, i, p.output, stops, ends, first, fileSize);
    if p.user != Some(e.user) {
      last := MAX_SEQUENCE;
    }
    var drop := ShouldDrop(c, w.job, input, i, e, last, cutoff);
    var o := KeepOrDrop(w, input, i, before, drop, others, first, fileSize, maxSize);
    ends' := CutAfter(w, input, stops + [stop], ends', before, i, o);
    p' := Progress(o, Some(e.user), e.sn);
  }

  /** The end of the loop: the file being built, if any, becomes the last output. */
  method FinishAll(ghost w: Rules, ghost input: seq<Entry>, p: Progress, ghost first: nat,
                   fileSize: seq<Entry> -> nat, ghost stops: seq<Stop>, ghost ends: seq<nat>)
    returns (outs: seq<File>, taken: seq<nat>, ghost ends': seq<nat>)
    requires Sorted(input) && Elems(input) == Inputs(w.job) && ProgressOk(p, w.job, input, first, |input|)
    requires w.fileSize == fileSize && |stops| == |input| && Cutting(w, input, stops, ends, p.output, |input|)
    ensures OutputsOk(w.job, SetOf(outs)) && |taken| == |outs| && Rising(taken)
    ensures forall i :: 0 <= i < |outs| ==> outs[i].number == taken[i] >= first
    ensures CutsRight(w, input, stops, ends', outs)
  {
    assert input[..|input|] == input;
    var o := p.output;
    ends' := ends;
    if |o.cur| > 0 {
      o := FinishOutput(o, fileSize(o.cur), first, KeptOf(w.job, input));
      CutHere(w, input, stops, ends, p.output, |input|, o);
      ends' := ends + [|input|];
    }
    BuiltOutputs(w.job, o, first, input);
    assert CuttingBody(w, input, stops, ends', o, |input|, Lock);
    outs, taken := o.outs, o.taken;
  }

  /** DoCompactionWork.  `fileSize` is what the table builder reports for the entries added so
      far; before the i-th entry other threads take `others(i)` file numbers.  Each output has
      one of the numbers taken, in rising order, and ends where it should. */
  method DoCompactionWork(c: Compaction, ghost job: Job, input: seq<Entry>, cutoff: nat, first: nat, others: nat -> nat,
                          fileSize: seq<Entry> -> nat, maxSize: nat)
    returns (outs: seq<File>, taken: seq<nat>, ghost w: Rules, ghost stops: seq<Stop>, ghost ends: seq<nat>)
    requires c.PtrsOk() && (forall u :: c.Behind(u)) && c.StopsOk() && AllValid(c.grandparents)
    requires Sorted(input) && UniqueSn(Elems(input)) && Elems(input) == Inputs(job)
    requires job.level == c.level && job.base == LevelsOf(c.lists) && job.cutoff == cutoff < MAX_SEQUENCE
    modifies c
    ensures OutputsOk(job, SetOf(outs)) && |taken| == |outs| && Rising(taken)
    ensures forall i :: 0 <= i < |outs| ==> outs[i].number == taken[i] >= first
    ensures w == Rules(job, c.grandparents, old(c.seenKey), old(c.grandparentIndex), old(c.since), fileSize, maxSize)
    ensures |stops| == |input| && StopsRight(w, input, stops) && CutsRight(w, input, stops, ends, outs)
  {
    var p := Progress(Output([], [], 0, first, []), None, MAX_SEQUENCE);
    w := Rules(job, c.grandparents, c.seenKey, c.grandparentIndex, c.since, fileSize, maxSize);
    stops, ends := [], [];
    UncutNone(w, input, stops, 0);
    for i := 0 to |input|
      invariant c.PtrsOk() && c.StopsOk() && |stops| == i
      invariant i < |input| ==> c.Behind(input[i].user)
      invariant ProgressOk(p, job, input, first, i)
      invariant OnTrail(c, w, stops) && StopsRight(w, input, stops) && Cutting(w, input, stops, ends, p.output, i)
    {
      ghost var stop;
      p, stop, ends := HandleEntry(c, w, input, i, p, cutoff, others(i), first, fileSize, maxSize, stops, ends);
      stops := stops + [stop];
      if i + 1 < |input| {
        assert Before(input[i], input[i + 1]);
        c.BehindLater(input[i].user, input[i + 1].user);
      }
    }
    outs, taken, ends := FinishAll(w, input, p, first, fileSize, stops, ends);
  }

  // ----- The loop inside a run of the engine -----

  /** Step `i` of the run opens an output file. */
  ghost predicate Opens(states: seq<State>, steps: seq<Step>, i: nat) {
    i < |steps| < |states| && steps[i].Reserve?
  }

  /** Whatever steps fall between, outputs with the numbers taken on the way may be
      installed: InstallCompactionResults is the LogCompaction step. */
  lemma WorkIsStep(states: seq<State>, steps: seq<Step>, openings: seq<nat>, from: nat, to: nat, job: Job,
                   outs: seq<File>)
    requires IsRun(states, steps) && from <= to < |states|
    requires forall k :: from <= k <= to ==> states[k].job == Some(job)
    requires states[to].installing.None? && OutputsOk(job, SetOf(outs)) && |openings| == |outs|
    requires forall n :: 0 <= n < |openings| ==> from <= openings[n] < to && Opens(states, steps, openings[n])
    requires forall n :: 0 <= n < |outs| ==> outs[n].number == states[openings[n]].nextFile
    ensures Next(states[to], LogCompaction(SetOf(outs)), Finishing(states[to], SetOf(outs)))
  {
    forall f | f in SetOf(outs) ensures f.number in states[to].pending {
      var n :| 0 <= n < |outs| && outs[n] == f;
      LsmRuns.ReservedStays(states, steps, openings[n], to);
    }
  }

  /** The numbers a run takes at its openings rise, as the loop above assumes. */
  lemma TakenRise(states: seq<State>, steps: seq<Step>, openings: seq<nat>, from: nat, to: nat)
    requires IsRun(states, steps) && from <= to < |states| && Rising(openings)
    requires forall k :: from <= k <= to ==> states[k].job.Some?
    requires forall n :: 0 <= n < |openings| ==> from <= openings[n] < to && Opens(states, steps, openings[n])
    ensures Rising(seq(|openings|, n requires 0 <= n < |openings| => states[openings[n]].nextFile))
  {
    forall m, n | 0 <= m < n < |openings| ensures states[openings[m]].nextFile < states[openings[n]].nextFile {
      assert Next(states[openings[m]], steps[openings[m]], states[openings[m] + 1]);
      LsmRuns.NumbersRise(states, steps, openings[m] + 1, openings[n]);
    }
  }
}
