/** Exactly when a compaction leaves every read alone. */
module LsmSplitKeys {
  // A compaction may cut its outputs between two versions of one user key.  A later
  // compaction that takes only the file of the newer version moves it below the older
  // one, or drops a deletion that hid it.  SafePick, a condition on the version and the
  // chosen inputs alone, says when that does not happen: this module proves it both
  // sufficient and necessary.

  import opened Entries
  import opened Lsm
  import opened LsmSteps
  import LC = LsmCompaction

  // ----- What the search through the levels stops at -----

  /** A read of `u` at `s` can see `e` at level `l`. */
  ghost predicate Shown(levels: Levels, l: nat, u: UserKey, s: nat, e: Entry) {
    e.user == u && e.sn <= s && exists f :: Holds(levels, l, f, e)
  }

  /** The search stops at level `l` with `e`: nothing shows above, and nothing newer there. */
  ghost predicate Stops(levels: Levels, l: nat, u: UserKey, s: nat, e: Entry) {
    && Shown(levels, l, u, s, e)
    && (forall x :: Shown(levels, l, u, s, x) ==> x.sn <= e.sn)
    && (forall m: nat, x :: m < l ==> !Shown(levels, m, u, s, x))
  }

  ghost predicate StopsAt(levels: Levels, u: UserKey, s: nat, e: Entry) {
    exists l: nat :: Stops(levels, l, u, s, e)
  }

  ghost predicate ShowsNothing(levels: Levels, u: UserKey, s: nat) {
    forall l: nat, e :: !Shown(levels, l, u, s, e)
  }

  /** Every read at or above the cutoff stops at the same entry as before, or finds nothing
      where it used to stop at a deletion. */
  ghost predicate SameStops(levels: Levels, after: Levels, cutoff: nat) {
    forall u, s: nat, e :: s >= cutoff && StopsAt(levels, u, s, e) ==>
      StopsAt(after, u, s, e) || (e.kind.Deletion? && ShowsNothing(after, u, s))
  }

  lemma ShownInTables(levels: Levels, u: UserKey, s: nat, e: Entry)
    ensures Seen(Tables(levels), u, s, e) <==> exists l: nat :: Shown(levels, l, u, s, e)
  {
    LC.InTables(levels, e);
    if l: nat, f :| Holds(levels, l, f, e) && e.user == u && e.sn <= s {
      assert Shown(levels, l, u, s, e);
    }
    if l: nat :| Shown(levels, l, u, s, e) {
      var f :| Holds(levels, l, f, e);
    }
  }

  /** The search stops no deeper than anything that shows. */
  lemma {:induction false} StopExists(levels: Levels, l: nat, u: UserKey, s: nat, x: Entry) returns (k: nat, e: Entry)
    requires Shown(levels, l, u, s, x)
    ensures k <= l && Stops(levels, k, u, s, e)
    decreases l
  {
    if m: nat, y :| m < l && Shown(levels, m, u, s, y) {
      k, e := StopExists(levels, m, u, s, y);
    } else {
      k := l;
      e := NewestShown(levels, l, u, s, x);
    }
  }

  lemma {:induction false} NewestShown(levels: Levels, l: nat, u: UserKey, s: nat, x: Entry) returns (e: Entry)
    requires Shown(levels, l, u, s, x)
    ensures Shown(levels, l, u, s, e) && forall y :: Shown(levels, l, u, s, y) ==> y.sn <= e.sn
    decreases s - x.sn
  {
    e := x;
    if y :| Shown(levels, l, u, s, y) && y.sn > x.sn {
      e := NewestShown(levels, l, u, s, y);
    }
  }

  /** With older data below newer data, the search stops at the newest entry there is. */
  lemma StopIsNewest(levels: Levels, floor: nat, l: nat, u: UserKey, s: nat, e: Entry)
    requires Recency(levels, floor) && s >= floor && Stops(levels, l, u, s, e)
    ensures IsNewest(Tables(levels), u, s, e)
  {
    ShownInTables(levels, u, s, e);
    var f :| Holds(levels, l, f, e);
    forall y | Seen(Tables(levels), u, s, y) ensures y.sn <= e.sn {
      ShownInTables(levels, u, s, y);
      var m: nat :| Shown(levels, m, u, s, y);
      var g :| Holds(levels, m, g, y);
      if m > l && e.sn <= y.sn {
        var k: nat, i, z :| Holds(levels, k, i, z) && k <= l && Beats(z, y, floor);
        assert Shown(levels, k, u, s, z);
      }
    }
  }

  lemma NewestIsStop(levels: Levels, floor: nat, u: UserKey, s: nat, e: Entry)
    requires Recency(levels, floor) && s >= floor && UniqueSn(Tables(levels)) && IsNewest(Tables(levels), u, s, e)
    ensures StopsAt(levels, u, s, e)
  {
    assert Seen(Tables(levels), u, s, e);
    ShownInTables(levels, u, s, e);
    var l: nat :| Shown(levels, l, u, s, e);
    var k, x := StopExists(levels, l, u, s, e);
    StopIsNewest(levels, floor, k, u, s, x);
    assert Seen(Tables(levels), u, s, x);
  }

  /** Before the compaction the search stops at the newest entry. */
  lemma OldStop(levels: Levels, job: Job, floor: nat, u: UserKey, s: nat, x: Entry) returns (n: Entry)
    requires LC.Ground(levels, job, floor) && s >= job.cutoff && Seen(Tables(levels), u, s, x)
    ensures IsNewest(Tables(levels), u, s, n) && StopsAt(levels, u, s, n)
  {
    n := NewestExists(Tables(levels), u, s, x);
    NewestIsStop(levels, floor, u, s, n);
  }

  // ----- The condition is sufficient -----

  lemma StopKept(levels: Levels, job: Job, floor: nat, outs: set<File>, u: UserKey, s: nat, e: Entry)
    requires LC.Ground(levels, job, floor) && SafePick(levels, job) && FileEntries(outs) == Survivors(job)
    requires s >= job.cutoff && StopsAt(levels, u, s, e)
    ensures var after := Replace(levels, job.level, job.in0, job.in1, outs);
            StopsAt(after, u, s, e) || (e.kind.Deletion? && ShowsNothing(after, u, s))
  {
    var after := Replace(levels, job.level, job.in0, job.in1, outs);
    var l: nat :| Stops(levels, l, u, s, e);
    StopIsNewest(levels, floor, l, u, s, e);
    assert Seen(Tables(levels), u, s, e);
    LC.IsDropping(levels, job, outs);
    LC.RecencyAfter(levels, job, floor, outs);
    assert forall x :: Seen(Tables(after), u, s, x) ==> Seen(Tables(levels), u, s, x);
    if e in Tables(after) {
      NewestIsStop(after, job.cutoff, u, s, e);
    } else {
      LC.NewestDropped(levels, job, floor, u, s, e);
      forall m: nat, x ensures !Shown(after, m, u, s, x) {
        ShownInTables(after, u, s, x);
      }
    }
  }

  // ----- The condition is necessary -----

  /** What stays at level `l` shows after the compaction, so the search goes no deeper. */
  lemma StaysShown(levels: Levels, job: Job, outs: set<File>, l: nat, f: File, x: Entry, u: UserKey, s: nat, n: Entry)
    returns (k: nat, g: File)
    requires JobShape(levels, job) && Holds(levels, l, f, x) && !IsInput(job, f) && x.user == u && x.sn <= s
    requires var after := Replace(levels, job.level, job.in0, job.in1, outs);
             StopsAt(after, u, s, n) || ShowsNothing(after, u, s)
    ensures k <= l && Holds(Replace(levels, job.level, job.in0, job.in1, outs), k, g, n)
  {
    var after := Replace(levels, job.level, job.in0, job.in1, outs);
    LC.Untouched(levels, job, outs, l, f, x);
    assert Shown(after, l, u, s, x);
    k :| Stops(after, k, u, s, n);
    g :| Holds(after, k, g, n);
  }

  lemma StaysNewerNeeded(levels: Levels, job: Job, floor: nat, outs: set<File>, f: File, x: Entry, g: File, e: Entry)
    requires LC.Ground(levels, job, floor) && FileEntries(outs) <= Inputs(job)
    requires SameStops(levels, Replace(levels, job.level, job.in0, job.in1, outs), job.cutoff)
    requires Holds(levels, job.level, f, x) && f !in job.in0 && g in job.in0 && e in g.entries
    requires x.user == e.user && x.sn <= e.sn
    ensures Sheltered(levels, job, job.level, e)
  {
    var s := Max(e.sn, job.cutoff);
    assert Holds(levels, job.level, g, e);
    LC.InTables(levels, e);
    var n := OldStop(levels, job, floor, e.user, s, e);
    assert Seen(Tables(levels), e.user, s, n);
    LC.InputLevel(levels, job, job.level, f, x);
    var k, i := StaysShown(levels, job, outs, job.level, f, x, e.user, s, n);
    LC.PlaceAfter(levels, job, outs, k, i, n);
    LC.InputLevel(levels, job, k, i, n);
    assert n.sn > e.sn;
    assert Beats(n, e, job.cutoff);
  }

  lemma UncoversNoneNeeded(levels: Levels, job: Job, floor: nat, outs: set<File>, e: Entry, f: File, y: Entry)
    requires LC.Ground(levels, job, floor) && FileEntries(outs) == Survivors(job)
    requires SameStops(levels, Replace(levels, job.level, job.in0, job.in1, outs), job.cutoff)
    requires Obsolete(job, e) && Holds(levels, job.level + 1, f, y) && f !in job.in1 && y.user == e.user && y.sn <= e.sn
    ensures Sheltered(levels, job, job.level + 1, e)
  {
    var l, g := LC.InputPlace(levels, job, e);
    LC.InTables(levels, e);
    var n := OldStop(levels, job, floor, e.user, job.cutoff, e);
    assert Seen(Tables(levels), e.user, job.cutoff, n) && Seen(Tables(levels), e.user, job.cutoff, e);
    LC.InputLevel(levels, job, job.level + 1, f, y);
    var k, i := StaysShown(levels, job, outs, job.level + 1, f, y, e.user, job.cutoff, n);
    LC.KeptPlace(levels, job, outs, k, i, n);
    assert n != e;
    assert n !in Inputs(job);
    LC.PlaceAfter(levels, job, outs, k, i, n);
    assert n in FileEntries(outs) || Holds(levels, k, i, n);
    LC.InputLevel(levels, job, k, i, n);
    assert Beats(n, e, job.cutoff);
  }

  // ----- Both together -----

  /** Replacing the inputs by their survivors leaves every read at or above the cutoff alone
      if and only if the pick was safe. */
  lemma ReadsKeptIff(levels: Levels, job: Job, floor: nat, outs: set<File>)
    requires LC.Ground(levels, job, floor) && FileEntries(outs) == Survivors(job)
    ensures SameStops(levels, Replace(levels, job.level, job.in0, job.in1, outs), job.cutoff) <==> SafePick(levels, job)
  {
    var after := Replace(levels, job.level, job.in0, job.in1, outs);
    if SafePick(levels, job) {
      forall u, s: nat, e | s >= job.cutoff && StopsAt(levels, u, s, e)
        ensures StopsAt(after, u, s, e) || (e.kind.Deletion? && ShowsNothing(after, u, s))
      {
        StopKept(levels, job, floor, outs, u, s, e);
      }
    }
    if SameStops(levels, after, job.cutoff) {
      forall f, x, g, e | Holds(levels, job.level, f, x) && f !in job.in0 && g in job.in0 && e in g.entries
                          && x.user == e.user && x.sn <= e.sn
        ensures Sheltered(levels, job, job.level, e)
      {
        StaysNewerNeeded(levels, job, floor, outs, f, x, g, e);
      }
      forall e, f, y |
        Obsolete(job, e) && Holds(levels, job.level + 1, f, y) && f !in job.in1 && y.user == e.user && y.sn <= e.sn
        ensures Sheltered(levels, job, job.level + 1, e)
      {
        UncoversNoneNeeded(levels, job, floor, outs, e, f, y);
      }
    }
  }

  /** A trivial move drops nothing: only the files left at its level matter. */
  lemma MoveKeptIff(levels: Levels, job: Job, floor: nat)
    requires LC.Ground(levels, job, floor) && job.in1 == {}
    ensures SameStops(levels, Replace(levels, job.level, job.in0, {}, job.in0), job.cutoff) <==> StaysNewer(levels, job)
  {
    var after := Replace(levels, job.level, job.in0, {}, job.in0);
    assert job.in0 + job.in1 == job.in0;
    LC.MovedTables(levels, job);
    if StaysNewer(levels, job) {
      LC.RecencyAfter(levels, job, floor, job.in0);
      forall u, s: nat, e | s >= job.cutoff && StopsAt(levels, u, s, e) ensures StopsAt(after, u, s, e) {
        var l: nat :| Stops(levels, l, u, s, e);
        StopIsNewest(levels, floor, l, u, s, e);
        NewestIsStop(after, job.cutoff, u, s, e);
      }
    }
    if SameStops(levels, after, job.cutoff) {
      forall f, x, g, e | Holds(levels, job.level, f, x) && f !in job.in0 && g in job.in0 && e in g.entries
                          && x.user == e.user && x.sn <= e.sn
        ensures Sheltered(levels, job, job.level, e)
      {
        StaysNewerNeeded(levels, job, floor, job.in0, f, x, g, e);
      }
    }
  }
}
