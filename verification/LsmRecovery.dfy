/** A crash keeps the manifest and the logs. */
module LsmRecovery {
  // Replaying the manifest and the live logs gives back a state with the same logged
  // history.

  import opened Entries
  import opened Lsm
  import opened LsmFlush
  import opened LsmSteps
  import LC = LsmCompaction

  // ----- Completeness does not depend on what is not in tables -----

  /** More operations after `flushed` answer alike on both sides. */
  lemma CompleteMore(h: History, g: History, flushed: nat, floor: nat, levels: Levels)
    requires flushed <= |h| && flushed <= |g| && h[..flushed] == g[..flushed]
    requires FilesOk(h, flushed, levels) && Complete(h, flushed, floor, levels)
    requires Span(h, flushed, |h|) <= Span(g, flushed, |g|)
    ensures Complete(g, flushed, floor, levels)
  {
    SameBelow(h, g, flushed);
    LC.AllLogged(h, flushed, levels);
    var low, tables := Span(h, 0, flushed), Tables(levels);
    assert low + Span(h, flushed, |h|) == Span(h, 0, |h|) && low + Span(g, flushed, |g|) == Span(g, 0, |g|);
    forall u, s: nat | s >= floor
      ensures Lookup(tables + Span(g, flushed, |g|), u, s) == Lookup(Span(g, 0, |g|), u, s)
    {
      assert Lookup(tables + Span(h, flushed, |h|), u, s) == Lookup(Span(h, 0, |h|), u, s);
      SameOnTop(h, g, tables, low, flushed, u, s);
    }
  }

  ghost predicate Sees(es: set<Entry>, u: UserKey, s: nat) {
    exists e :: Seen(es, u, s, e)
  }

  lemma SeesMore(some: set<Entry>, more: set<Entry>, u: UserKey, s: nat)
    requires some <= more
    ensures Sees(some, u, s) ==> Sees(more, u, s)
  {
    if e :| Seen(some, u, s, e) {
      assert Seen(more, u, s, e);
    }
  }

  lemma SameOnTop(h: History, g: History, x: set<Entry>, y: set<Entry>, flushed: nat, u: UserKey, s: nat)
    requires forall e :: e in x + y ==> Logged(h, e) && Logged(g, e) && e.sn <= flushed
    requires Span(h, flushed, |h|) <= Span(g, flushed, |g|)
    requires Lookup(x + Span(h, flushed, |h|), u, s) == Lookup(y + Span(h, flushed, |h|), u, s)
    ensures Lookup(x + Span(g, flushed, |g|), u, s) == Lookup(y + Span(g, flushed, |g|), u, s)
  {
    SeesMore(Span(h, flushed, |h|), Span(g, flushed, |g|), u, s);
    assert forall e :: e in x ==> e in x + y;
    assert forall e :: e in y ==> e in x + y;
    if Sees(Span(g, flushed, |g|), u, s) {
      Stacked(g, x, flushed, u, s);
      Stacked(g, y, flushed, u, s);
    } else {
      Stacked(h, x, flushed, u, s);
      Stacked(h, y, flushed, u, s);
      Stacked(g, x, flushed, u, s);
      Stacked(g, y, flushed, u, s);
    }
  }

  lemma SameBelow(h: History, g: History, n: nat)
    requires n <= |h| && n <= |g| && h[..n] == g[..n]
    ensures Span(h, 0, n) == Span(g, 0, n)
    ensures forall e: Entry :: e.sn <= n ==> (Logged(h, e) <==> Logged(g, e))
  {
    assert forall i :: 0 <= i < n ==> h[i] == h[..n][i] && g[i] == g[..n][i];
  }

  /** Operations after `flushed` answer first; what is below them answers otherwise. */
  lemma Stacked(h: History, low: set<Entry>, flushed: nat, u: UserKey, s: nat)
    requires forall e :: e in low ==> Logged(h, e) && e.sn <= flushed
    ensures var top := Span(h, flushed, |h|);
            Lookup(low + top, u, s) == if Sees(top, u, s) then Lookup(top, u, s) else Lookup(low, u, s)
  {
    var top := Span(h, flushed, |h|);
    LC.LoggedUnique(h, top + low);
    assert top + low == low + top;
    LookupLayered(top, low, u, s);
  }

  // ----- A log is a stretch of the history -----

  /** The entry of an operation that was logged, whatever its writer was told. */
  ghost predicate Written(h: History, e: Entry) {
    0 < e.sn <= |h| && !h[e.sn - 1].Void? && e == EntryOf(h[e.sn - 1].op, e.sn - 1)
  }

  ghost predicate Rising(es: seq<Entry>) {
    forall i, j :: 0 <= i < j < |es| ==> es[i].sn < es[j].sn
  }

  /** `es` are the logged operations `a .. b`, in order. */
  ghost predicate Lists(h: History, es: seq<Entry>, a: nat, b: nat) {
    Rising(es) && forall e :: e in es <==> a < e.sn <= b && Written(h, e)
  }

  lemma BatchLists(h: History, start: nat, ops: seq<Op>, b: nat)
    requires start + |ops| <= b <= |h| && Recorded(h, start, ops) && AllVoid(h, start + |ops|, b)
    ensures Lists(h, BatchEntries(Batch(start + 1, ops)), start, b)
  {
    var es := BatchEntries(Batch(start + 1, ops));
    assert forall k :: 0 <= k < |ops| ==> es[k] == EntryOf(ops[k], start + k);
    forall e: Entry | start < e.sn <= b && Written(h, e) ensures e in es {
      assert e.sn - 1 < start + |ops|;
      assert es[e.sn - 1 - start] == e;
    }
  }

  lemma ListsJoin(h: History, x: seq<Entry>, y: seq<Entry>, a: nat, m: nat, b: nat)
    requires Lists(h, x, a, m) && Lists(h, y, m, b) && a <= m <= b
    ensures Lists(h, x + y, a, b)
  {
    assert forall i :: 0 <= i < |x| ==> x[i] in x;
    assert forall i :: 0 <= i < |y| ==> y[i] in y;
  }

  lemma {:induction false} ReplayLists(h: History, batches: seq<Batch>, a: nat, b: nat)
    requires LogCovers(h, batches, a, b)
    ensures a <= b && Lists(h, Replay(batches), a, b)
    decreases |batches|
  {
    if |batches| > 0 {
      var n := |batches| - 1;
      var ops, start := batches[n].ops, batches[n].first - 1;
      ReplayLists(h, batches[..n], a, start);
      BatchLists(h, start, ops, b);
      assert Batch(start + 1, ops) == batches[n];
      ListsJoin(h, Replay(batches[..n]), BatchEntries(batches[n]), a, start, b);
    }
  }

  /** The largest number met is that of the last record; nothing was logged after it. */
  lemma {:induction false} ReplayMax(h: History, batches: seq<Batch>, a: nat, b: nat)
    requires LogCovers(h, batches, a, b)
    ensures MaxLogged(batches) <= b
    ensures forall i :: a <= i < b && !h[i].Void? ==> i < MaxLogged(batches)
    decreases |batches|
  {
    if |batches| > 0 {
      var n := |batches| - 1;
      ReplayMax(h, batches[..n], a, batches[n].first - 1);
    }
  }

  // ----- The live logs -----

  lemma OneLive(logs: map<nat, seq<Batch>>, n: nat, live: seq<nat>)
    requires LiveLogs(logs, n, live) && n in logs && forall m :: m in logs && m >= n ==> m == n
    ensures live == [n]
  {
    assert |live| > 1 ==> live[0] < live[1];
    assert n in live;
    assert forall i :: 0 <= i < |live| ==> live[i] in live;
  }

  lemma TwoLive(logs: map<nat, seq<Batch>>, a: nat, b: nat, live: seq<nat>)
    requires LiveLogs(logs, a, live) && a in logs && b in logs && a < b
    requires forall m :: m in logs && m >= a ==> m == a || m == b
    ensures live == [a, b]
  {
    assert |live| > 2 ==> live[0] < live[1] < live[2];
    assert a in live && b in live;
    assert forall i :: 0 <= i < |live| ==> live[i] in live;
    var i :| 0 <= i < |live| && live[i] == a;
    var j :| 0 <= j < |live| && live[j] == b;
  }

  /** Replaying two logs is replaying the one and then the other. */
  lemma ReplayTwo(logs: map<nat, seq<Batch>>, a: nat, b: nat)
    requires a in logs && b in logs
    ensures ReplayAll(logs, [a]) == Replay(logs[a]) && MaxAll(logs, [a]) == MaxLogged(logs[a])
    ensures ReplayAll(logs, [a, b]) == Replay(logs[a]) + Replay(logs[b])
    ensures MaxAll(logs, [a, b]) == Max(MaxLogged(logs[a]), MaxLogged(logs[b]))
  {
    assert [a][..0] == [] && [a, b][..1] == [a];
    assert ReplayAll(logs, []) == [];
    assert [] + Replay(logs[a]) == Replay(logs[a]);
  }

  /** What is replayed is exactly the logged operations that are in no table yet. */
  lemma ReplayIsTail(st: State, live: seq<nat>)
    requires LogsOk(st) && CountsOk(st) && LiveLogs(st.logs, st.disk.logNumber, live)
    requires st.imm.None? ==> st.spec.flushed == st.spec.immEnd
    ensures Lists(st.spec.history, ReplayAll(st.logs, live), st.spec.flushed, |st.spec.history|)
  {
    var h, spec := st.spec.history, st.spec;
    ReplayLists(h, st.logs[st.memLog], spec.immEnd, |h|);
    if st.imm.None? {
      ReplayTwo(st.logs, st.disk.logNumber, st.memLog);
      OneLive(st.logs, st.memLog, live);
    } else {
      LiveReplay(st.logs, st.disk.logNumber, st.memLog, live);
      ReplayLists(h, st.logs[st.disk.logNumber], spec.flushed, spec.immEnd);
      ListsJoin(h, Replay(st.logs[st.disk.logNumber]), Replay(st.logs[st.memLog]), spec.flushed, spec.immEnd, |h|);
    }
  }

  lemma LiveReplay(logs: map<nat, seq<Batch>>, a: nat, b: nat, live: seq<nat>)
    requires LiveLogs(logs, a, live) && a in logs && b in logs && a < b
    requires forall m :: m in logs && m >= a ==> m == a || m == b
    ensures ReplayAll(logs, live) == Replay(logs[a]) + Replay(logs[b])
  {
    ReplayTwo(logs, a, b);
    TwoLive(logs, a, b, live);
  }

  /** The recovered last sequence is at most the number of operations, and every operation
      after it was never logged. */
  lemma RecoveredSeqIsAll(st: State, live: seq<nat>)
    requires LogsOk(st) && ManifestOk(st) && CountsOk(st) && LiveLogs(st.logs, st.disk.logNumber, live)
    requires st.imm.None? ==> st.spec.flushed == st.spec.immEnd
    ensures var h, seen := st.spec.history, Max(st.disk.lastSeq, MaxAll(st.logs, live));
            st.spec.flushed <= seen <= |h| && st.spec.floor <= seen && AllVoid(h, seen, |h|)
  {
    var h := st.spec.history;
    ReplayMax(h, st.logs[st.memLog], st.spec.immEnd, |h|);
    ReplayTwo(st.logs, st.disk.logNumber, st.memLog);
    if st.imm.None? {
      OneLive(st.logs, st.memLog, live);
    } else {
      TwoLive(st.logs, st.disk.logNumber, st.memLog, live);
      ReplayMax(h, st.logs[st.disk.logNumber], st.spec.flushed, st.spec.immEnd);
    }
  }

  // ----- Recoveries that were interrupted -----

  /** Empty logs newer than all others add nothing. */
  lemma {:induction false} DropInterrupted(logs: map<nat, seq<Batch>>, interrupted: set<nat>, logNumber: nat,
                                           live: seq<nat>) returns (filled: seq<nat>)
    requires logNumber in logs && forall n, m :: n in interrupted && m in logs ==> m < n
    requires LiveLogs(LeftLogs(logs, interrupted), logNumber, live)
    ensures LiveLogs(logs, logNumber, filled)
    ensures ReplayAll(LeftLogs(logs, interrupted), live) == ReplayAll(logs, filled)
    ensures MaxAll(LeftLogs(logs, interrupted), live) == MaxAll(logs, filled)
    decreases |live|
  {
    var all := LeftLogs(logs, interrupted);
    assert logNumber in live;
    var last, rest := live[|live| - 1], live[..|live| - 1];
    assert last in live;
    if last in interrupted {
      var fewer := LeftLogs(logs, interrupted - {last});
      DropLast(logs, interrupted, logNumber, live);
      filled := DropInterrupted(logs, interrupted - {last}, logNumber, rest);
      assert forall n :: n in rest ==> n in fewer && n in all && all[n] == fewer[n];
      SameReplay(fewer, all, rest);
    } else {
      filled := live;
      NoneInterrupted(logs, interrupted, logNumber, live);
      SameReplay(logs, all, live);
    }
  }

  lemma DropLast(logs: map<nat, seq<Batch>>, interrupted: set<nat>, logNumber: nat, live: seq<nat>)
    requires LiveLogs(LeftLogs(logs, interrupted), logNumber, live) && |live| > 0
    requires live[|live| - 1] in interrupted && live[|live| - 1] !in logs
    ensures LiveLogs(LeftLogs(logs, interrupted - {live[|live| - 1]}), logNumber, live[..|live| - 1])
  {
    var last, rest := live[|live| - 1], live[..|live| - 1];
    assert forall i :: 0 <= i < |rest| ==> rest[i] in live && rest[i] < last;
    assert last in live;
    forall n | n in live && n != last ensures n in rest {
      var i :| 0 <= i < |live| && live[i] == n;
      assert rest[i] == n;
    }
  }

  lemma NoneInterrupted(logs: map<nat, seq<Batch>>, interrupted: set<nat>, logNumber: nat, live: seq<nat>)
    requires forall n, m :: n in interrupted && m in logs ==> m < n
    requires LiveLogs(LeftLogs(logs, interrupted), logNumber, live) && |live| > 0 && live[|live| - 1] in logs
    ensures LiveLogs(logs, logNumber, live) && forall n :: n in live ==> n in logs && n !in interrupted
  {
    forall n | n in live ensures n in logs && n !in interrupted {
      var i :| 0 <= i < |live| && live[i] == n;
      assert n <= live[|live| - 1];
    }
  }

  lemma {:induction false} SameReplay(logs: map<nat, seq<Batch>>, all: map<nat, seq<Batch>>, live: seq<nat>)
    requires forall n :: n in live ==> n in logs && n in all && all[n] == logs[n]
    ensures ReplayAll(all, live) == ReplayAll(logs, live) && MaxAll(all, live) == MaxAll(logs, live)
    decreases |live|
  {
    if |live| > 0 {
      assert live[|live| - 1] in live;
      SameReplay(logs, all, live[..|live| - 1]);
    }
  }

  // ----- The history that comes back -----

  /** What was done stays done, what was in limbo stays so or is done after all, and only numbers
      of writes that never reached the log are forgotten. */
  ghost predicate Survives(h: History, g: History) {
    && |g| <= |h| && AllVoid(h, |g|, |h|)
    && forall i :: 0 <= i < |g| ==> g[i] == h[i] || (h[i].Limbo? && g[i] == Done(h[i].op))
  }

  lemma RevivedIs(h: History, flushed: nat, seen: nat)
    requires flushed <= seen <= |h| && AllVoid(h, seen, |h|)
    ensures var g := Revived(h, flushed, seen);
            && Survives(h, g) && |g| == seen && g[..flushed] == h[..flushed]
            && Span(h, flushed, |h|) <= Span(g, flushed, seen)
            && forall es :: Lists(h, es, flushed, |h|) ==> IsTail(g, flushed, es)
  {
    var g := Revived(h, flushed, seen);
    assert forall e: Entry :: flushed < e.sn <= |h| ==> (Written(h, e) <==> Logged(g, e));
    assert forall e :: e in Span(h, flushed, |h|) ==> Written(h, e);
    forall es | Lists(h, es, flushed, |h|) ensures IsTail(g, flushed, es) {
      TailFromList(h, g, es, flushed);
    }
  }

  lemma TailFromList(h: History, g: History, es: seq<Entry>, flushed: nat)
    requires Lists(h, es, flushed, |h|) && |g| <= |h|
    requires forall e: Entry :: flushed < e.sn <= |h| ==> (Written(h, e) <==> Logged(g, e))
    ensures IsTail(g, flushed, es)
  {
    assert forall e :: e in es <==> e in Span(g, flushed, |g|);
  }

  /** `es` are the operations of the history after `a`, in order. */
  ghost predicate IsTail(h: History, a: nat, es: seq<Entry>) {
    Rising(es) && Elems(es) == Span(h, a, |h|)
  }

  // ----- Tables of replayed entries -----

  /** The sequence number up to which the first `c` replayed entries reach. */
  ghost function Edge(flushed: nat, es: seq<Entry>, c: nat): nat
    requires c <= |es|
  {
    if c == 0 then flushed else es[c - 1].sn
  }

  lemma SliceIsSpan(h: History, flushed: nat, es: seq<Entry>, a: nat, b: nat)
    requires IsTail(h, flushed, es) && a <= b <= |es|
    ensures Elems(es[a..b]) == Span(h, Edge(flushed, es, a), Edge(flushed, es, b))
    ensures Edge(flushed, es, a) <= Edge(flushed, es, b) && (flushed <= |h| ==> Edge(flushed, es, b) <= |h|)
  {
    EdgesRise(h, flushed, es, a, b);
    var x, y := Edge(flushed, es, a), Edge(flushed, es, b);
    forall e | e in Span(h, x, y) ensures e in es[a..b] {
      EdgesSpan(h, flushed, es, a);
      EdgesSpan(h, flushed, es, b);
      assert e in Elems(es);
      var i :| 0 <= i < |es| && es[i] == e;
      assert es[a..b][i - a] == es[i];
    }
    forall e | e in es[a..b] ensures e in Span(h, x, y) {
      var i :| a <= i < b && es[i] == e;
      EdgesSpan(h, flushed, es, a);
      EdgesSpan(h, flushed, es, b);
      assert e in Elems(es);
    }
  }

  lemma EdgesSpan(h: History, flushed: nat, es: seq<Entry>, c: nat)
    requires IsTail(h, flushed, es) && c <= |es|
    ensures forall i :: 0 <= i < |es| ==> (es[i].sn <= Edge(flushed, es, c) <==> i < c)
    ensures flushed <= Edge(flushed, es, c)
  {
    assert forall i :: 0 <= i < |es| ==> es[i] in Elems(es);
  }

  lemma EdgesRise(h: History, flushed: nat, es: seq<Entry>, a: nat, b: nat)
    requires IsTail(h, flushed, es) && a <= b <= |es|
    ensures Edge(flushed, es, a) <= Edge(flushed, es, b) && (flushed <= |h| ==> Edge(flushed, es, b) <= |h|)
  {
    assert forall i :: 0 <= i < |es| ==> es[i] in Elems(es);
  }

  lemma ReplayedTable(h: History, flushed: nat, es: seq<Entry>, a: nat, b: nat, f: File)
    requires IsTail(h, flushed, es) && TableOf(es, a, b, f)
    ensures NewTable(h, Edge(flushed, es, a), Edge(flushed, es, b), f)
  {
    SliceIsSpan(h, flushed, es, a, b);
  }

  datatype Aspect = InOrder | Whole

  ghost predicate HasAspect(h: History, flushed: nat, floor: nat, levels: Levels, nextFile: nat, a: Aspect) {
    match a
    case InOrder => LevelsInv(h, flushed, floor, levels, nextFile)
    case Whole => Complete(h, flushed, floor, levels)
  }

  /** The tables are in order and, with the operations after `flushed`, answer every read. */
  ghost predicate GoodTables(h: History, flushed: nat, floor: nat, levels: Levels, nextFile: nat) {
    |levels| == NUM_LEVELS && forall a :: HasAspect(h, flushed, floor, levels, nextFile, a)
  }

  lemma OpenTables(h: History, flushed: nat, floor: nat, levels: Levels, nextFile: nat)
    requires GoodTables(h, flushed, floor, levels, nextFile)
    ensures LevelsInv(h, flushed, floor, levels, nextFile) && Complete(h, flushed, floor, levels)
  {
    assert HasAspect(h, flushed, floor, levels, nextFile, InOrder);
    assert HasAspect(h, flushed, floor, levels, nextFile, Whole);
  }

  lemma AddOne(h: History, a: nat, b: nat, floor: nat, levels: Levels, nextFile: nat, f: File, next: nat)
    requires GoodTables(h, a, floor, levels, nextFile)
    requires NewTable(h, a, b, f) && b <= |h| && nextFile <= f.number < next
    ensures GoodTables(h, b, floor, Add(levels, 0, f), next)
  {
    OpenTables(h, a, floor, levels, nextFile);
    FlushLevels(h, a, b, floor, levels, 0, f, nextFile, next);
    FlushTables(h, a, b, levels, 0, f);
  }

  lemma AddNone(h: History, flushed: nat, floor: nat, levels: Levels, nextFile: nat, next: nat)
    requires GoodTables(h, flushed, floor, levels, nextFile) && nextFile <= next
    ensures GoodTables(h, flushed, floor, levels, next)
  {
    OpenTables(h, flushed, floor, levels, nextFile);
    MoreNumbers(h, flushed, floor, levels, nextFile, next);
  }

  lemma AddAllSplits(levels: Levels, tables: seq<File>, n: nat)
    requires 0 < n <= |tables| && |levels| > 0
    ensures AddAll(levels, tables[..n]) == Add(AddAll(levels, tables[..n - 1]), 0, tables[n - 1])
  {
    assert tables[..n][..n - 1] == tables[..n - 1];
  }

  /** Adding the first `n` recovered tables at level 0 keeps everything in order. */
  lemma {:induction false} ReplayedLevels(h: History, flushed: nat, floor: nat, levels: Levels, nextFile: nat,
                                          es: seq<Entry>, tables: seq<File>, cuts: seq<nat>, n: nat, next: nat)
    requires GoodTables(h, flushed, floor, levels, nextFile)
    requires IsTail(h, flushed, es) && flushed <= |h| && TablesOf(es, tables, cuts) && n <= |tables|
    requires Ascending(tables, nextFile) && nextFile <= next && (n > 0 ==> tables[n - 1].number < next)
    ensures GoodTables(h, Edge(flushed, es, cuts[n]), floor, AddAll(levels, tables[..n]), next)
  {
    if n == 0 {
      AddNone(h, flushed, floor, levels, nextFile, next);
    } else {
      var f, a, b := tables[n - 1], cuts[n - 1], cuts[n];
      ReplayedLevels(h, flushed, floor, levels, nextFile, es, tables, cuts, n - 1, f.number);
      ReplayedTable(h, flushed, es, a, b, f);
      SliceIsSpan(h, flushed, es, a, b);
      AddOne(h, Edge(flushed, es, a), Edge(flushed, es, b), floor, AddAll(levels, tables[..n - 1]), f.number, f, next);
      AddAllSplits(levels, tables, n);
    }
  }

  lemma AllReplayed(h: History, flushed: nat, floor: nat, levels: Levels, nextFile: nat,
                    es: seq<Entry>, tables: seq<File>, cuts: seq<nat>, next: nat)
    requires GoodTables(h, flushed, floor, levels, nextFile)
    requires IsTail(h, flushed, es) && flushed <= |h| && TablesOf(es, tables, cuts)
    requires Ascending(tables, nextFile) && nextFile <= next
    requires forall i :: 0 <= i < |tables| ==> tables[i].number < next
    ensures GoodTables(h, |h|, floor, AddAll(levels, tables), next)
  {
    ReplayedLevels(h, flushed, floor, levels, nextFile, es, tables, cuts, |tables|, next);
    assert tables[..|tables|] == tables;
    SliceIsSpan(h, flushed, es, |es|, |es|);
    NothingAfter(h, flushed, es);
    SkipAhead(h, Edge(flushed, es, |es|), |h|, floor, AddAll(levels, tables), next);
  }

  lemma NothingAfter(h: History, flushed: nat, es: seq<Entry>)
    requires IsTail(h, flushed, es)
    ensures Span(h, Edge(flushed, es, |es|), |h|) == {}
  {
    forall e | e in Span(h, Edge(flushed, es, |es|), |h|) ensures false {
      if |es| > 0 {
        assert es[|es| - 1] in Elems(es);
      }
      assert e in Elems(es);
      var i :| 0 <= i < |es| && es[i] == e;
    }
  }

  /** Where nothing was logged, tables reach further without change. */
  lemma SkipAhead(h: History, a: nat, b: nat, floor: nat, levels: Levels, nextFile: nat)
    requires GoodTables(h, a, floor, levels, nextFile) && a <= b <= |h| && Span(h, a, b) == {}
    ensures GoodTables(h, b, floor, levels, nextFile)
  {
    OpenTables(h, a, floor, levels, nextFile);
    assert Span(h, a, |h|) == Span(h, b, |h|) by {
      assert forall e :: e in Span(h, a, |h|) && e.sn <= b ==> e in Span(h, a, b);
    }
    assert LevelsInv(h, b, floor, levels, nextFile);
  }

  /** What the crash leaves: the installed state's tables, manifest and logs. */
  lemma DurableFacts(st: State)
    requires ViewInv(Installed(st)) && DiskInv(Installed(st))
    ensures var d := Installed(st);
            && d.spec.history == st.spec.history && d.disk == st.disk && d.logs == st.logs && d.levels == st.disk.levels
            && LogsOk(d) && ManifestOk(d) && CountsOk(d)
            && (d.imm.None? ==> d.spec.flushed == d.spec.immEnd)
            && GoodTables(st.spec.history, d.spec.flushed, d.spec.floor, st.disk.levels, st.disk.nextFile)
  {
    OpenView(Installed(st));
    OpenDisk(Installed(st));
  }

  /** The state as recovery finds it: what interrupted recoveries left is not in the way. */
  lemma Found(st: State, interrupted: set<nat>, live: seq<nat>) returns (filled: seq<nat>)
    requires ViewInv(Installed(st)) && DiskInv(Installed(st))
    requires forall n, m :: n in interrupted && m in st.logs ==> m < n
    requires LiveLogs(LeftLogs(st.logs, interrupted), st.disk.logNumber, live)
    ensures LiveLogs(st.logs, st.disk.logNumber, filled)
    ensures ReplayAll(LeftLogs(st.logs, interrupted), live) == ReplayAll(st.logs, filled)
    ensures MaxAll(LeftLogs(st.logs, interrupted), live) == MaxAll(st.logs, filled)
  {
    DurableFacts(st);
    filled := DropInterrupted(st.logs, interrupted, st.disk.logNumber, live);
  }

  /** The history a crash leaves, and the sequence counter with it. */
  lemma CrashSeq(st: State, interrupted: set<nat>, live: seq<nat>)
    requires ViewInv(Installed(st)) && DiskInv(Installed(st))
    requires forall n, m :: n in interrupted && m in st.logs ==> m < n
    requires LiveLogs(LeftLogs(st.logs, interrupted), st.disk.logNumber, live)
    ensures var h, d, logs := st.spec.history, Installed(st).spec, LeftLogs(st.logs, interrupted);
            var seen := Max(st.disk.lastSeq, MaxAll(logs, live));
            var g := Revived(h, d.flushed, seen);
            && d.flushed <= seen <= |h| && d.floor <= seen && |g| == seen && Survives(h, g)
            && h[..d.flushed] == g[..d.flushed] && Span(h, d.flushed, |h|) <= Span(g, d.flushed, |g|)
            && IsTail(g, d.flushed, ReplayAll(logs, live))
  {
    DurableFacts(st);
    var filled := Found(st, interrupted, live);
    RecoveredSeqIsAll(Installed(st), filled);
    ReplayIsTail(Installed(st), filled);
    RevivedIs(st.spec.history, Installed(st).spec.flushed,
              Max(st.disk.lastSeq, MaxAll(LeftLogs(st.logs, interrupted), live)));
  }

  lemma RevivedTables(h: History, g: History, flushed: nat, floor: nat, levels: Levels, nextFile: nat)
    requires GoodTables(h, flushed, floor, levels, nextFile)
    requires flushed <= |h| && flushed <= |g| && h[..flushed] == g[..flushed]
    requires Span(h, flushed, |h|) <= Span(g, flushed, |g|)
    ensures GoodTables(g, flushed, floor, levels, nextFile)
  {
    OpenTables(h, flushed, floor, levels, nextFile);
    CompleteMore(h, g, flushed, floor, levels);
    SameBelow(h, g, flushed);
    assert LevelsInv(g, flushed, floor, levels, nextFile);
  }

  lemma CrashLevels(st: State, interrupted: set<nat>, live: seq<nat>, tables: seq<File>, cuts: seq<nat>, newLog: nat)
    requires ViewInv(Installed(st)) && DiskInv(Installed(st))
    requires CanRecover(st, interrupted, live, tables, cuts, newLog)
    ensures |st.disk.levels| == NUM_LEVELS
    ensures var g := Recovered(st, interrupted, live, tables, newLog).spec.history;
            GoodTables(g, |g|, Installed(st).spec.floor, AddAll(st.disk.levels, tables), newLog + 1)
  {
    var d, h := Installed(st), st.spec.history;
    var g := Recovered(st, interrupted, live, tables, newLog).spec.history;
    DurableFacts(st);
    CrashSeq(st, interrupted, live);
    RevivedTables(h, g, d.spec.flushed, d.spec.floor, d.levels, st.disk.nextFile);
    AllReplayed(g, d.spec.flushed, d.spec.floor, d.levels, st.disk.nextFile,
                ReplayAll(LeftLogs(st.logs, interrupted), live), tables, cuts, newLog + 1);
  }

  lemma CrashView(st: State, interrupted: set<nat>, live: seq<nat>, tables: seq<File>, cuts: seq<nat>, newLog: nat)
    requires ViewInv(Installed(st)) && DiskInv(Installed(st))
    requires CanRecover(st, interrupted, live, tables, cuts, newLog)
    ensures ViewInv(Recovered(st, interrupted, live, tables, newLog))
  {
    var g := Recovered(st, interrupted, live, tables, newLog).spec.history;
    CrashLevels(st, interrupted, live, tables, cuts, newLog);
    CrashSeq(st, interrupted, live);
    OpenTables(g, |g|, Installed(st).spec.floor, AddAll(st.disk.levels, tables), newLog + 1);
    assert Span(g, |g|, |g|) == {};
  }

  lemma LogsNumbered(st: State, interrupted: set<nat>, newLog: nat)
    requires DiskInv(Installed(st)) && forall n, m :: n in interrupted && m in st.logs ==> m < n
    requires forall n :: n in LeftLogs(st.logs, interrupted) ==> n < newLog
    ensures 0 < newLog && forall n :: n in LeftLogs(st.logs, interrupted) ==> 0 < n
  {
    OpenDisk(Installed(st));
    assert Installed(st).memLog in st.logs && Installed(st).memLog in LeftLogs(st.logs, interrupted);
  }

  lemma CrashDisk(st: State, interrupted: set<nat>, live: seq<nat>, tables: seq<File>, cuts: seq<nat>, newLog: nat)
    requires ViewInv(Installed(st)) && DiskInv(Installed(st))
    requires CanRecover(st, interrupted, live, tables, cuts, newLog)
    ensures DiskInv(Recovered(st, interrupted, live, tables, newLog))
  {
    var g := Recovered(st, interrupted, live, tables, newLog).spec.history;
    CrashLevels(st, interrupted, live, tables, cuts, newLog);
    CrashSeq(st, interrupted, live);
    OpenTables(g, |g|, Installed(st).spec.floor, AddAll(st.disk.levels, tables), newLog + 1);
    LogsNumbered(st, interrupted, newLog);
    assert LogCovers(g, [], |g|, |g|);
  }

  /** A crash at any point, and any number of recoveries that crash themselves, followed by one
      that does not, lose no operation that was done and make none up. */
  lemma CrashKeeps(st: State, interrupted: set<nat>, live: seq<nat>, tables: seq<File>, cuts: seq<nat>, newLog: nat)
    requires Inv(st) && CanRecover(st, interrupted, live, tables, cuts, newLog)
    ensures var next := Recovered(st, interrupted, live, tables, newLog);
            Inv(next) && Survives(st.spec.history, next.spec.history) && next.lastSeq == |next.spec.history|
  {
    Unfold(st);
    CrashView(st, interrupted, live, tables, cuts, newLog);
    CrashDisk(st, interrupted, live, tables, cuts, newLog);
    FoldIdle(Recovered(st, interrupted, live, tables, newLog));
    CrashSeq(st, interrupted, live);
  }
}
