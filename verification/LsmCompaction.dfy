/** What replacing compaction inputs by their survivors keeps. */
module LsmCompaction {
  // The levels stay in order and no read at or above the smallest snapshot of the
  // compaction changes.

  import opened Entries
  import opened Lsm

  /** Two entries cannot agree on the sequence number unless they are one. */
  lemma LoggedUnique(h: History, es: set<Entry>)
    requires forall e :: e in es ==> Logged(h, e)
    ensures UniqueSn(es)
  {
  }

  lemma InTables(levels: Levels, e: Entry)
    ensures e in Tables(levels) <==> exists l: nat, f :: Holds(levels, l, f, e)
  {
    if e in Tables(levels) {
      var l, f :| 0 <= l < |levels| && f in levels[l] && e in f.entries;
      assert Holds(levels, l, f, e);
    }
  }

  lemma InInputs(job: Job, e: Entry)
    ensures e in Inputs(job) <==> exists f :: IsInput(job, f) && e in f.entries
  {
    if e in Inputs(job) {
      var f :| f in job.in0 + job.in1 && e in f.entries;
      assert IsInput(job, f);
    }
    if f :| IsInput(job, f) && e in f.entries {
      assert f in job.in0 + job.in1;
    }
  }

  /** An input entry sits in the level of the compaction or the one below. */
  lemma InputPlace(levels: Levels, job: Job, e: Entry) returns (l: nat, f: File)
    requires JobShape(levels, job) && e in Inputs(job)
    ensures Holds(levels, l, f, e) && IsInput(job, f)
    ensures (l == job.level && f in job.in0) || (l == job.level + 1 && f in job.in1)
  {
    InInputs(job, e);
    f :| IsInput(job, f) && e in f.entries;
    l := if f in job.in0 then job.level else job.level + 1;
  }

  lemma InputsInHull(job: Job, f: File, u: UserKey)
    requires IsInput(job, f) && Covers(f, u)
    ensures InHull(job, u)
  {
  }

  lemma RangeOrdered(f: File)
    requires ValidFile(f)
    ensures Lo(f) <= Hi(f)
  {
    EntriesAreCovered(f, f.entries[0]);
  }

  /** What a compaction finds, whether or not its pick was safe. */
  ghost predicate Ground(levels: Levels, job: Job, floor: nat) {
    && (forall l, f :: In(levels, l, f) ==> ValidFile(f))
    && UniqueSn(Tables(levels))
    && Recency(levels, floor)
    && HeldOnce(levels)
    && JobShape(levels, job)
    && DeepClear(levels, job)
    && floor <= job.cutoff
  }

  /** A file is an input where it is, not at another level. */
  lemma InputLevel(levels: Levels, job: Job, m: nat, g: File, z: Entry)
    requires HeldOnce(levels) && JobShape(levels, job) && Holds(levels, m, g, z)
    ensures g in job.in0 ==> m == job.level
    ensures g in job.in1 ==> m == job.level + 1
    ensures z in Inputs(job) <==> IsInput(job, g)
  {
    assert g in job.in0 ==> Holds(levels, job.level, g, z);
    assert g in job.in1 ==> Holds(levels, job.level + 1, g, z);
    InInputs(job, z);
    if z in Inputs(job) {
      var l, f := InputPlace(levels, job, z);
    }
  }

  // ----- Where entries are afterwards -----

  /** After a compaction an entry is an untouched one or one of an output. */
  lemma PlaceAfter(levels: Levels, job: Job, outs: set<File>, l: nat, f: File, e: Entry)
    requires JobShape(levels, job)
    requires Holds(Replace(levels, job.level, job.in0, job.in1, outs), l, f, e)
    ensures || (l == job.level + 1 && f in outs)
            || (Holds(levels, l, f, e) && (l == job.level ==> f !in job.in0) && (l == job.level + 1 ==> f !in job.in1))
  {
  }

  /** An entry of a file that is no input stays where it was. */
  lemma Untouched(levels: Levels, job: Job, outs: set<File>, l: nat, f: File, e: Entry)
    requires JobShape(levels, job) && Holds(levels, l, f, e) && !IsInput(job, f)
    ensures Holds(Replace(levels, job.level, job.in0, job.in1, outs), l, f, e)
  {
  }

  ghost predicate GoodOuts(job: Job, outs: set<File>) {
    && (forall f :: f in outs ==> ValidFile(f))
    && (forall f, g :: f in outs && g in outs && f != g ==> Consecutive(f, g))
    && FileEntries(outs) <= Inputs(job)
  }

  lemma OutEntry(job: Job, outs: set<File>, f: File, e: Entry)
    requires FileEntries(outs) <= Inputs(job) && f in outs && e in f.entries
    ensures e in Inputs(job)
  {
    assert e in FileEntries(outs);
  }

  /** Entries the rules keep are where the outputs go. */
  lemma SurvivorPlace(levels: Levels, job: Job, outs: set<File>, e: Entry) returns (f: File)
    requires JobShape(levels, job) && Survivors(job) <= FileEntries(outs) && e in Survivors(job)
    ensures Holds(Replace(levels, job.level, job.in0, job.in1, outs), job.level + 1, f, e)
  {
    f :| f in outs && e in f.entries;
  }

  lemma FilesOkAfter(h: History, flushed: nat, levels: Levels, job: Job, outs: set<File>)
    requires FilesOk(h, flushed, levels) && JobShape(levels, job) && GoodOuts(job, outs)
    ensures FilesOk(h, flushed, Replace(levels, job.level, job.in0, job.in1, outs))
  {
    var after := Replace(levels, job.level, job.in0, job.in1, outs);
    forall l, f | In(after, l, f) ensures ValidFile(f) {
      assert f in outs || In(levels, l, f);
    }
    forall l, f, e | Holds(after, l, f, e) ensures e.sn <= flushed && Logged(h, e) {
      PlaceAfter(levels, job, outs, l, f, e);
      if f in outs {
        OutEntry(job, outs, f, e);
        var m, g := InputPlace(levels, job, e);
      }
    }
  }

  lemma ZeroOrderedAfter(levels: Levels, job: Job, outs: set<File>)
    requires ZeroOrdered(levels) && JobShape(levels, job)
    ensures ZeroOrdered(Replace(levels, job.level, job.in0, job.in1, outs))
  {
    var after := Replace(levels, job.level, job.in0, job.in1, outs);
    assert forall f, e :: Holds(after, 0, f, e) ==> Holds(levels, 0, f, e);
  }

  /** Outputs lie on the side of a file where all the inputs lay. */
  lemma OutsBeside(job: Job, outs: set<File>, f: File, g: File)
    requires GoodOuts(job, outs) && Beside(job, f) && g in outs
    ensures Consecutive(f, g) && Consecutive(g, f)
  {
    assert forall e :: e in g.entries ==> e in FileEntries(outs);
    if forall e, x :: e in Inputs(job) && x in f.entries ==> Before(e, x) {
      assert forall e, x :: e in g.entries && x in f.entries ==> Before(e, x);
    } else {
      assert forall e, x :: e in g.entries && x in f.entries ==> Before(x, e);
    }
  }

  lemma LevelsOrderedAfter(levels: Levels, job: Job, outs: set<File>)
    requires LevelsOrdered(levels) && JobShape(levels, job) && GoodOuts(job, outs) && TargetBeside(levels, job)
    ensures LevelsOrdered(Replace(levels, job.level, job.in0, job.in1, outs))
  {
    var after := Replace(levels, job.level, job.in0, job.in1, outs);
    forall l, f, g | In(after, l, f) && In(after, l, g) && l > 0 && f != g ensures Consecutive(f, g) {
      if l == job.level + 1 && g in outs && f !in outs {
        assert In(levels, l, f) && f !in job.in1;
        OutsBeside(job, outs, f, g);
      } else if l == job.level + 1 && f in outs && g !in outs {
        assert In(levels, l, g) && g !in job.in1;
        OutsBeside(job, outs, g, f);
      } else if l != job.level + 1 || f !in outs {
        assert In(levels, l, f) && In(levels, l, g);
      }
    }
  }

  lemma OneOut(outs: set<File>, f: File, g: File, e: Entry)
    requires forall f, g :: f in outs && g in outs && f != g ==> Consecutive(f, g)
    requires f in outs && g in outs && e in f.entries && e in g.entries
    ensures f == g
  {
    assert !Before(e, e);
  }

  lemma HeldOnceAfter(levels: Levels, job: Job, outs: set<File>)
    requires HeldOnce(levels) && JobShape(levels, job) && GoodOuts(job, outs)
    ensures HeldOnce(Replace(levels, job.level, job.in0, job.in1, outs))
  {
    var after := Replace(levels, job.level, job.in0, job.in1, outs);
    forall l, f, m, g, e | Holds(after, l, f, e) && Holds(after, m, g, e) ensures l == m && f == g {
      PlaceAfter(levels, job, outs, l, f, e);
      PlaceAfter(levels, job, outs, m, g, e);
      if l == job.level + 1 && f in outs {
        OutEntry(job, outs, f, e);
        var k, i := InputPlace(levels, job, e);
        if m == job.level + 1 && g in outs {
          OneOut(outs, f, g, e);
        }
      } else if m == job.level + 1 && g in outs {
        OutEntry(job, outs, g, e);
        var k, i := InputPlace(levels, job, e);
      }
    }
  }

  // ----- Deletions that may go -----

  /** An input entry that sees no newer input at or below the cutoff. */
  lemma NewestInput(job: Job, z: Entry) returns (w: Entry)
    requires z in Inputs(job) && z.sn <= job.cutoff
    ensures w in Inputs(job) && w.user == z.user && z.sn <= w.sn <= job.cutoff && !Shadowed(Inputs(job), job.cutoff, w)
    ensures w in Survivors(job) || Obsolete(job, w)
  {
    assert Seen(Inputs(job), z.user, job.cutoff, z);
    w := NewestExists(Inputs(job), z.user, job.cutoff, z);
    forall x | x in Inputs(job) && x.user == w.user && x.sn <= job.cutoff ensures x.sn <= w.sn {
      assert Seen(Inputs(job), z.user, job.cutoff, x);
    }
  }

  /** Below the target level nothing covers the key of an obsolete deletion. */
  lemma NothingDeep(levels: Levels, job: Job, w: Entry, m: nat, g: File, y: Entry)
    requires JobShape(levels, job) && DeepClear(levels, job) && forall l, f :: In(levels, l, f) ==> ValidFile(f)
    requires Obsolete(job, w) && Holds(levels, m, g, y) && y.user == w.user
    ensures m <= job.level + 1
  {
    var l, f := InputPlace(levels, job, w);
    EntriesAreCovered(f, w);
    InputsInHull(job, f, w.user);
    EntriesAreCovered(g, y);
    assert !OutsideHull(job, g);
  }

  /** Whatever an obsolete deletion hides at the newest place is an input itself. */
  lemma NothingOlder(levels: Levels, job: Job, floor: nat, e: Entry, m: nat, g: File, y: Entry)
    requires Ground(levels, job, floor) && SafePick(levels, job)
    requires Obsolete(job, e) && (forall z :: z in Tables(levels) ==> !Beats(z, e, job.cutoff))
    requires Holds(levels, m, g, y) && y.user == e.user && y.sn < e.sn
    ensures IsInput(job, g)
  {
    var l, f := InputPlace(levels, job, e);
    NothingDeep(levels, job, e, m, g, y);
    InputLevel(levels, job, m, g, y);
    assert !Hidden(levels, floor, m, e) && !Sheltered(levels, job, job.level, e)
           && !Sheltered(levels, job, job.level + 1, e) by {
      forall k: nat, i, z | Holds(levels, k, i, z) ensures !Beats(z, e, job.cutoff) {
        InTables(levels, z);
      }
    }
  }

  /** If the newest visible entry is dropped, it is a deletion and so is everything it hid. */
  lemma NewestDropped(levels: Levels, job: Job, floor: nat, u: UserKey, s: nat, e: Entry)
    requires Ground(levels, job, floor) && SafePick(levels, job) && s >= job.cutoff
    requires IsNewest(Tables(levels), u, s, e) && e in Inputs(job) && Dropped(job, e)
    ensures Obsolete(job, e)
    ensures forall y :: Seen(Tables(levels), u, s, y) ==> y in Inputs(job) && Dropped(job, y)
  {
    assert !Shadowed(Inputs(job), job.cutoff, e) by {
      forall x | x in Inputs(job) ensures x in Tables(levels) {
        var l, f := InputPlace(levels, job, x);
        InTables(levels, x);
      }
      assert forall x :: x in Inputs(job) && x.user == u && x.sn <= s ==> Seen(Tables(levels), u, s, x);
    }
    assert forall z :: z in Tables(levels) && Beats(z, e, job.cutoff) ==> Seen(Tables(levels), u, s, z);
    forall y | Seen(Tables(levels), u, s, y) && y != e ensures y in Inputs(job) && Dropped(job, y) {
      InTables(levels, y);
      var m: nat, g :| Holds(levels, m, g, y);
      assert y.sn < e.sn;
      NothingOlder(levels, job, floor, e, m, g, y);
      InInputs(job, y);
      assert Shadowed(Inputs(job), job.cutoff, y);
    }
  }

  // ----- Recency -----

  /** A hider that is no input still hides. */
  lemma HiderStays(levels: Levels, job: Job, outs: set<File>, l: nat, x: Entry)
    requires JobShape(levels, job) && Sheltered(levels, job, l, x)
    ensures Hidden(Replace(levels, job.level, job.in0, job.in1, outs), job.cutoff, l, x)
  {
    var m: nat, g, z :| Holds(levels, m, g, z) && m <= l && !IsInput(job, g) && Beats(z, x, job.cutoff);
    Untouched(levels, job, outs, m, g, z);
  }

  /** One that was an input has a survivor to stand in for it, above whatever lies deeper. */
  lemma HiderSurvives(levels: Levels, job: Job, outs: set<File>, l: nat, z: Entry, m: nat, g: File, x: Entry)
    requires JobShape(levels, job) && DeepClear(levels, job) && forall l, f :: In(levels, l, f) ==> ValidFile(f)
    requires Survivors(job) <= FileEntries(outs) && l > job.level && z in Inputs(job) && Beats(z, x, job.cutoff)
    requires Holds(levels, m, g, x) && m > l
    ensures Hidden(Replace(levels, job.level, job.in0, job.in1, outs), job.cutoff, l, x)
  {
    var w := NewestInput(job, z);
    if Obsolete(job, w) {
      NothingDeep(levels, job, w, m, g, x);
    } else {
      var f := SurvivorPlace(levels, job, outs, w);
    }
  }

  /** At the level of the inputs, a file that stays is sheltered from what leaves. */
  lemma HiderLeaves(levels: Levels, job: Job, f: File, e: Entry, g: File, z: Entry, x: Entry)
    requires JobShape(levels, job) && StaysNewer(levels, job)
    requires Holds(levels, job.level, f, e) && f !in job.in0 && g in job.in0 && z in g.entries
    requires e.user == x.user && e.sn <= x.sn && Beats(z, x, job.cutoff)
    ensures Sheltered(levels, job, job.level, x)
  {
    assert Sheltered(levels, job, job.level, z);
    var m: nat, k, y :| Holds(levels, m, k, y) && m <= job.level && !IsInput(job, k) && Beats(y, z, job.cutoff);
    assert Beats(y, x, job.cutoff);
  }

  /** An entry `e` that stays put above an older place of `x`. */
  lemma AboveStays(levels: Levels, job: Job, floor: nat, outs: set<File>, l: nat, f: File, e: Entry, m: nat, g: File,
                   x: Entry)
    requires Ground(levels, job, floor) && StaysNewer(levels, job) && Survivors(job) <= FileEntries(outs)
    requires Holds(levels, l, f, e) && !IsInput(job, f) && Holds(levels, m, g, x) && e.user == x.user && e.sn <= x.sn
    requires l < m
    ensures Hidden(Replace(levels, job.level, job.in0, job.in1, outs), job.cutoff, l, x)
  {
    assert Hidden(levels, floor, l, x);
    var k: nat, i, z :| Holds(levels, k, i, z) && k <= l && Beats(z, x, floor);
    assert Beats(z, x, job.cutoff);
    HiddenStays(levels, job, outs, l, f, e, m, g, x, k, i, z);
  }

  lemma HiddenStays(levels: Levels, job: Job, outs: set<File>, l: nat, f: File, e: Entry, m: nat, g: File, x: Entry,
                    k: nat, i: File, z: Entry)
    requires (forall l, f :: In(levels, l, f) ==> ValidFile(f)) && HeldOnce(levels) && DeepClear(levels, job)
    requires JobShape(levels, job) && StaysNewer(levels, job) && Survivors(job) <= FileEntries(outs)
    requires Holds(levels, l, f, e) && !IsInput(job, f) && Holds(levels, m, g, x) && e.user == x.user && e.sn <= x.sn
    requires Holds(levels, k, i, z) && k <= l < m && Beats(z, x, job.cutoff)
    ensures Hidden(Replace(levels, job.level, job.in0, job.in1, outs), job.cutoff, l, x)
  {
    InputLevel(levels, job, k, i, z);
    if !IsInput(job, i) {
      assert Sheltered(levels, job, l, x);
      HiderStays(levels, job, outs, l, x);
    } else if l > job.level {
      HiderSurvives(levels, job, outs, l, z, m, g, x);
    } else {
      HiderLeaves(levels, job, f, e, i, z, x);
      HiderStays(levels, job, outs, l, x);
    }
  }

  lemma RecencyPair(levels: Levels, job: Job, floor: nat, outs: set<File>, l: nat, f: File, e: Entry, m: nat, g: File,
                    x: Entry)
    requires Ground(levels, job, floor) && StaysNewer(levels, job)
    requires Survivors(job) <= FileEntries(outs) <= Inputs(job)
    requires var after := Replace(levels, job.level, job.in0, job.in1, outs);
             Holds(after, l, f, e) && Holds(after, m, g, x) && l < m && e.user == x.user && e.sn <= x.sn
    ensures Hidden(Replace(levels, job.level, job.in0, job.in1, outs), job.cutoff, l, x)
  {
    PlaceAfter(levels, job, outs, l, f, e);
    PlaceAfter(levels, job, outs, m, g, x);
    if l == job.level + 1 && f in outs {
      OutAbove(levels, job, floor, outs, f, e, m, g, x);
    } else {
      InputLevel(levels, job, l, f, e);
      if m == job.level + 1 && g in outs {
        OutBelow(levels, job, floor, outs, l, f, e, g, x);
      } else {
        InputLevel(levels, job, m, g, x);
        AboveStays(levels, job, floor, outs, l, f, e, m, g, x);
      }
    }
  }

  lemma OutAbove(levels: Levels, job: Job, floor: nat, outs: set<File>, f: File, e: Entry, m: nat, g: File, x: Entry)
    requires Ground(levels, job, floor)
    requires Survivors(job) <= FileEntries(outs) <= Inputs(job) && f in outs && e in f.entries
    requires Holds(levels, m, g, x) && m > job.level + 1 && e.user == x.user && e.sn <= x.sn
    ensures Hidden(Replace(levels, job.level, job.in0, job.in1, outs), job.cutoff, job.level + 1, x)
  {
    OutEntry(job, outs, f, e);
    var k, i := InputPlace(levels, job, e);
    assert Hidden(levels, floor, k, x);
    var n: nat, j, z :| Holds(levels, n, j, z) && n <= k && Beats(z, x, floor);
    assert Beats(z, x, job.cutoff);
    InputLevel(levels, job, n, j, z);
    if IsInput(job, j) {
      HiderSurvives(levels, job, outs, job.level + 1, z, m, g, x);
    } else {
      assert Sheltered(levels, job, job.level + 1, x);
      HiderStays(levels, job, outs, job.level + 1, x);
    }
  }

  lemma OutBelow(levels: Levels, job: Job, floor: nat, outs: set<File>, l: nat, f: File, e: Entry, g: File, x: Entry)
    requires Ground(levels, job, floor) && StaysNewer(levels, job)
    requires Survivors(job) <= FileEntries(outs) <= Inputs(job) && g in outs && x in g.entries
    requires Holds(levels, l, f, e) && !IsInput(job, f) && l <= job.level && e.user == x.user && e.sn <= x.sn
    ensures Hidden(Replace(levels, job.level, job.in0, job.in1, outs), job.cutoff, l, x)
  {
    OutEntry(job, outs, g, x);
    var k, i := InputPlace(levels, job, x);
    if l < k {
      AboveStays(levels, job, floor, outs, l, f, e, k, i, x);
    } else {
      assert Sheltered(levels, job, job.level, x);
      HiderStays(levels, job, outs, l, x);
    }
  }

  lemma RecencyAfter(levels: Levels, job: Job, floor: nat, outs: set<File>)
    requires Ground(levels, job, floor) && StaysNewer(levels, job)
    requires Survivors(job) <= FileEntries(outs) <= Inputs(job)
    ensures Recency(Replace(levels, job.level, job.in0, job.in1, outs), job.cutoff)
  {
    var after := Replace(levels, job.level, job.in0, job.in1, outs);
    forall l, f, e, m, g, x |
      Holds(after, l, f, e) && Holds(after, m, g, x) && l < m && e.user == x.user && e.sn <= x.sn
      ensures Hidden(after, job.cutoff, l, x)
    {
      RecencyPair(levels, job, floor, outs, l, f, e, m, g, x);
    }
  }

  // ----- Reads of the tables -----

  lemma AllLogged(h: History, flushed: nat, levels: Levels)
    requires FilesOk(h, flushed, levels)
    ensures forall e :: e in Tables(levels) ==> Logged(h, e) && e.sn <= flushed
  {
    forall e | e in Tables(levels) ensures Logged(h, e) && e.sn <= flushed {
      InTables(levels, e);
      var l: nat, f :| Holds(levels, l, f, e);
    }
  }

  /** `after` holds the tables of `levels` less the entries the drop rule gave up. */
  ghost predicate Dropping(levels: Levels, job: Job, after: Levels) {
    && Tables(after) <= Tables(levels)
    && (forall e :: e in Tables(levels) && e !in Tables(after) ==> e in Inputs(job) && Dropped(job, e))
    && (forall e :: e in Tables(after) && e in Inputs(job) ==> !Dropped(job, e))
  }

  lemma IsDropping(levels: Levels, job: Job, outs: set<File>)
    requires HeldOnce(levels) && JobShape(levels, job) && FileEntries(outs) == Survivors(job)
    ensures Dropping(levels, job, Replace(levels, job.level, job.in0, job.in1, outs))
  {
    var after := Replace(levels, job.level, job.in0, job.in1, outs);
    forall e ensures e in Tables(after) <==> e in Tables(levels) && (e in Inputs(job) ==> !Dropped(job, e)) {
      InTables(levels, e);
      InTables(after, e);
      if l: nat, f :| Holds(levels, l, f, e) {
        InputLevel(levels, job, l, f, e);
        if e in Survivors(job) {
          var g := SurvivorPlace(levels, job, outs, e);
        } else if !IsInput(job, f) {
          Untouched(levels, job, outs, l, f, e);
        }
      }
      if l: nat, f :| Holds(after, l, f, e) {
        KeptPlace(levels, job, outs, l, f, e);
      }
    }
  }

  lemma KeptPlace(levels: Levels, job: Job, outs: set<File>, l: nat, f: File, e: Entry)
    requires HeldOnce(levels) && JobShape(levels, job) && FileEntries(outs) == Survivors(job)
    requires Holds(Replace(levels, job.level, job.in0, job.in1, outs), l, f, e)
    ensures e in Tables(levels) && (e in Inputs(job) ==> !Dropped(job, e))
  {
    PlaceAfter(levels, job, outs, l, f, e);
    InTables(levels, e);
    if l == job.level + 1 && f in outs {
      assert e in FileEntries(outs);
      var m, g := InputPlace(levels, job, e);
    } else {
      InputLevel(levels, job, l, f, e);
    }
  }

  lemma NothingVisible(h: History, flushed: nat, levels: Levels, job: Job, after: Levels, u: UserKey, s: nat, e: Entry)
    requires Dropping(levels, job, after) && e.sn <= flushed
    requires IsNewest(Tables(levels) + Span(h, flushed, |h|), u, s, e)
    requires forall y :: Seen(Tables(levels), u, s, y) ==> y in Inputs(job) && Dropped(job, y)
    ensures forall y :: !Seen(Tables(after) + Span(h, flushed, |h|), u, s, y)
  {
    var all, kept := Tables(levels) + Span(h, flushed, |h|), Tables(after) + Span(h, flushed, |h|);
    forall y ensures !Seen(kept, u, s, y) {
      assert Seen(kept, u, s, y) ==> Seen(all, u, s, y) && y.sn <= e.sn;
      assert y in Tables(after) && y.user == u && y.sn <= s ==> Seen(Tables(levels), u, s, y);
    }
  }

  /** A read at or above the cutoff does not notice the dropped entries. */
  lemma DropKeepsReads(h: History, flushed: nat, levels: Levels, job: Job, floor: nat, after: Levels, u: UserKey,
                       s: nat)
    requires FilesOk(h, flushed, levels) && flushed <= |h| && Ground(levels, job, floor) && SafePick(levels, job)
    requires s >= job.cutoff && Dropping(levels, job, after)
    ensures Lookup(Tables(after) + Span(h, flushed, |h|), u, s) == Lookup(Tables(levels) + Span(h, flushed, |h|), u, s)
  {
    var all, kept := Tables(levels) + Span(h, flushed, |h|), Tables(after) + Span(h, flushed, |h|);
    AllLogged(h, flushed, levels);
    LoggedUnique(h, all);
    LoggedUnique(h, kept);
    assert forall x :: Seen(kept, u, s, x) ==> Seen(all, u, s, x);
    if w :| Seen(all, u, s, w) {
      var e := NewestExists(all, u, s, w);
      LookupIs(all, u, s, e);
      if e in kept {
        LookupIs(kept, u, s, e);
      } else {
        assert forall y :: Seen(Tables(levels), u, s, y) ==> Seen(all, u, s, y);
        NewestDropped(levels, job, floor, u, s, e);
        NothingVisible(h, flushed, levels, job, after, u, s, e);
        LookupNone(kept, u, s);
      }
    } else {
      LookupNone(all, u, s);
      LookupNone(kept, u, s);
    }
  }

  lemma CompleteAfter(h: History, flushed: nat, floor: nat, levels: Levels, job: Job, outs: set<File>)
    requires FilesOk(h, flushed, levels) && flushed <= |h| && Ground(levels, job, floor) && SafePick(levels, job)
    requires Complete(h, flushed, floor, levels) && FileEntries(outs) == Survivors(job)
    ensures Complete(h, flushed, job.cutoff, Replace(levels, job.level, job.in0, job.in1, outs))
  {
    var after := Replace(levels, job.level, job.in0, job.in1, outs);
    IsDropping(levels, job, outs);
    forall u, s: nat | s >= job.cutoff
      ensures Lookup(Tables(after) + Span(h, flushed, |h|), u, s) == Lookup(Span(h, 0, |h|), u, s)
    {
      DropKeepsReads(h, flushed, levels, job, floor, after, u, s);
    }
  }

  /** Output numbers were taken before, each for one file. */
  lemma NumbersAfter(levels: Levels, nextFile: nat, pending: set<nat>, job: Job, outs: set<File>)
    requires NumbersOk(levels, nextFile) && PendingOk(levels, pending, nextFile) && JobShape(levels, job)
    requires forall f :: f in outs ==> f.number in pending
    requires forall f, g :: f in outs && g in outs && f.number == g.number ==> f == g
    ensures NumbersOk(Replace(levels, job.level, job.in0, job.in1, outs), nextFile)
  {
    var after := Replace(levels, job.level, job.in0, job.in1, outs);
    forall l, f, m, g | In(after, l, f) && In(after, m, g) && f.number == g.number ensures l == m && f == g {
      assert (f in outs && l == job.level + 1) || In(levels, l, f);
      assert (g in outs && m == job.level + 1) || In(levels, m, g);
    }
    forall l, f | In(after, l, f) ensures f.number < nextFile {
      assert f in outs || In(levels, l, f);
    }
  }

  /** A file moved down leaves the tables with the entries they had. */
  lemma MovedTables(levels: Levels, job: Job)
    requires JobShape(levels, job) && job.in1 == {}
    ensures Tables(Replace(levels, job.level, job.in0, job.in1, job.in0)) == Tables(levels)
  {
    var after := Replace(levels, job.level, job.in0, job.in1, job.in0);
    forall e ensures e in Tables(after) <==> e in Tables(levels) {
      InTables(after, e);
      InTables(levels, e);
      if l: nat, f :| Holds(after, l, f, e) {
        assert Holds(levels, l, f, e) || Holds(levels, job.level, f, e);
      }
      if l: nat, f :| Holds(levels, l, f, e) {
        assert Holds(after, l, f, e) || Holds(after, job.level + 1, f, e);
      }
    }
  }
}
