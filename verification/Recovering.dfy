/** Opening a database after a crash. */
module Recovering {
  // The loops that read the live logs back into memtables and turn those into level-0
  // tables.  What they produce is exactly what the crash step of the state machine
  // asks for.

  import opened Entries
  import opened Lsm
  import opened LsmSteps
  import LR = LsmRecovery

  ghost predicate DistinctKeys(es: seq<Entry>) {
    forall i, j :: 0 <= i < j < |es| ==> KeyOf(es[i]) != KeyOf(es[j])
  }

  /** `tables` hold the entries of `es` up to the last cut, `mem` the rest. */
  ghost predicate Split(es: seq<Entry>, tables: seq<File>, cuts: seq<nat>, mem: seq<Entry>) {
    && |cuts| == |tables| + 1 && cuts[0] == 0
    && (forall i :: 0 <= i <= |tables| ==> cuts[i] <= |es|)
    && (forall i :: 0 <= i < |tables| ==> TableOf(es, cuts[i], cuts[i + 1], tables[i]))
    && Sorted(mem) && Elems(mem) == Elems(es[cuts[|tables|]..])
  }

  lemma SplitGrows(es: seq<Entry>, tables: seq<File>, cuts: seq<nat>, mem: seq<Entry>, e: Entry, next: seq<Entry>)
    requires Split(es, tables, cuts, mem) && Sorted(next) && Elems(next) == Elems(mem) + {e}
    ensures Split(es + [e], tables, cuts, next)
  {
    var all, c := es + [e], cuts[|tables|];
    forall i | 0 <= i < |tables| ensures TableOf(all, cuts[i], cuts[i + 1], tables[i]) {
      assert all[cuts[i]..cuts[i + 1]] == es[cuts[i]..cuts[i + 1]];
    }
    assert all[c..] == es[c..] + [e];
    assert Elems(all[c..]) == Elems(es[c..]) + {e};
  }

  lemma NothingLeft(es: seq<Entry>, tables: seq<File>, cuts: seq<nat>)
    requires Split(es, tables, cuts, [])
    ensures TablesOf(es, tables, cuts)
  {
    var c := cuts[|tables|];
    assert c < |es| ==> es[c] in Elems(es[c..]) by {
      assert c < |es| ==> es[c..][0] == es[c];
    }
  }

  lemma NotInMemtable(es: seq<Entry>, c: nat, mem: seq<Entry>, e: Entry)
    requires DistinctKeys(es + [e]) && c <= |es| && Elems(mem) == Elems(es[c..])
    ensures forall x :: x in mem ==> KeyOf(x) != KeyOf(e)
  {
    forall x | x in mem ensures KeyOf(x) != KeyOf(e) {
      assert x in Elems(mem);
      var i :| 0 <= i < |es[c..]| && es[c..][i] == x;
      assert (es + [e])[c + i] == x && (es + [e])[|es|] == e;
    }
  }

  lemma PlacedSorted(mem: seq<Entry>, i: nat, e: Entry)
    requires Sorted(mem) && i <= |mem|
    requires forall j :: 0 <= j < i ==> Before(mem[j], e)
    requires i < |mem| ==> Before(e, mem[i])
    ensures Sorted(mem[..i] + [e] + mem[i..])
  {
    var r := mem[..i] + [e] + mem[i..];
    assert forall j :: i <= j < |mem| ==> Before(e, mem[j]) by {
      assert forall j :: i < j < |mem| ==> Before(mem[i], mem[j]);
    }
    forall j, k | 0 <= j < k < |r| ensures Before(r[j], r[k]) {
      assert j < i ==> r[j] == mem[j];
      assert j > i ==> r[j] == mem[j - 1];
      assert k < i ==> r[k] == mem[k];
      assert k > i ==> r[k] == mem[k - 1];
    }
  }

  lemma PlacedElems(mem: seq<Entry>, i: nat, e: Entry)
    requires i <= |mem|
    ensures Elems(mem[..i] + [e] + mem[i..]) == Elems(mem) + {e}
  {
    assert mem == mem[..i] + mem[i..];
  }

  /** MemTable::Add: the entry goes to its place in key order. */
  method Add(mem: seq<Entry>, e: Entry) returns (r: seq<Entry>)
    requires Sorted(mem) && forall x :: x in mem ==> KeyOf(x) != KeyOf(e)
    ensures Sorted(r) && Elems(r) == Elems(mem) + {e}
  {
    var i := 0;
    while i < |mem| && Before(mem[i], e)
      invariant 0 <= i <= |mem|
      invariant forall j :: 0 <= j < i ==> Before(mem[j], e)
    {
      i := i + 1;
    }
    assert i < |mem| ==> mem[i] in mem;
    PlacedSorted(mem, i, e);
    PlacedElems(mem, i, e);
    r := mem[..i] + [e] + mem[i..];
  }

  /** WriteBatchInternal::InsertInto: the operations get consecutive sequence
      numbers from the batch's first. */
  method InsertInto(b: Batch, mem: seq<Entry>, ghost es: seq<Entry>, ghost tables: seq<File>, ghost cuts: seq<nat>)
    returns (r: seq<Entry>)
    requires Split(es, tables, cuts, mem) && DistinctKeys(es + BatchEntries(b))
    ensures Split(es + BatchEntries(b), tables, cuts, r)
  {
    r := mem;
    ghost var all := BatchEntries(b);
    assert es + all[..0] == es;
    for i := 0 to |b.ops|
      invariant Split(es + all[..i], tables, cuts, r)
    {
      var e := Entry(b.ops[i].user, b.first + i, b.ops[i].kind, b.ops[i].value);
      ghost var sofar := es + all[..i];
      assert all[..i + 1] == all[..i] + [e];
      assert sofar + [e] == es + all[..i + 1];
      assert DistinctKeys(sofar + [e]) by {
        assert forall k :: 0 <= k < |sofar + [e]| ==> (sofar + [e])[k] == (es + all)[k];
      }
      NotInMemtable(sofar, cuts[|tables|], r, e);
      ghost var before := r;
      r := Add(r, e);
      SplitGrows(sofar, tables, cuts, before, e, r);
    }
    assert all[..|b.ops|] == all;
  }

  ghost predicate Numbered(tables: seq<File>, from: nat, next: nat) {
    && Ascending(tables, from) && from <= next
    && forall i :: 0 <= i < |tables| ==> tables[i].number < next
  }

  /** WriteLevel0Table without a base version: a memtable with no entry leaves no
      table, but its file number is spent. */
  method WriteLevel0Table(tables: seq<File>, mem: seq<Entry>, next: nat, size: nat,
                          ghost es: seq<Entry>, ghost cuts: seq<nat>, ghost from: nat)
    returns (r: seq<File>, next': nat, ghost cuts': seq<nat>)
    requires Split(es, tables, cuts, mem) && Numbered(tables, from, next)
    ensures Split(es, r, cuts', []) && Numbered(r, from, next')
    ensures next' == next + 1 && r == (if |mem| == 0 then tables else tables + [File(next, size, mem)])
  {
    next' := next + 1;
    if |mem| == 0 {
      return tables, next', cuts;
    }
    var f := File(next, size, mem);
    r := tables + [f];
    cuts' := cuts + [|es|];
    ghost var c := cuts[|tables|];
    assert es[c..|es|] == es[c..];
    assert TableOf(es, c, |es|, f);
    forall i | 0 <= i < |r| ensures TableOf(es, cuts'[i], cuts'[i + 1], r[i]) {
      assert i < |tables| ==> TableOf(es, cuts[i], cuts[i + 1], tables[i]);
    }
    assert es[|es|..] == [];
  }

  lemma ReplayStep(batches: seq<Batch>, i: nat)
    requires i < |batches|
    ensures Replay(batches[..i + 1]) == Replay(batches[..i]) + BatchEntries(batches[i])
    ensures MaxLogged(batches[..i + 1])
            == Max(MaxLogged(batches[..i]),
                   if batches[i].first + |batches[i].ops| > 0 then batches[i].first + |batches[i].ops| - 1 else 0)
  {
    var some := batches[..i + 1];
    assert some[..|some| - 1] == batches[..i];
  }

  lemma {:induction false} ReplayPrefix(batches: seq<Batch>, i: nat)
    requires i <= |batches|
    ensures Replay(batches[..i]) <= Replay(batches)
    decreases |batches| - i
  {
    if i == |batches| {
      assert batches[..i] == batches;
    } else {
      ReplayStep(batches, i);
      ReplayPrefix(batches, i + 1);
    }
  }

  lemma DistinctPrefix(done: seq<Entry>, some: seq<Entry>, all: seq<Entry>)
    requires some <= all && DistinctKeys(done + all)
    ensures DistinctKeys(done + some)
  {
    assert forall k :: 0 <= k < |done + some| ==> (done + some)[k] == (done + all)[k];
  }

  /** One round of RecoverLogFile's loop: insert the batch, and write the memtable
      out when it has grown past the buffer size. */
  method RecoverBatch(b: Batch, mem: Option<seq<Entry>>, tables: seq<File>, next: nat, usage: seq<Entry> -> nat,
                      bufferSize: nat,
                      ghost es: seq<Entry>, ghost cuts: seq<nat>, ghost from: nat)
    returns (mem': Option<seq<Entry>>, tables': seq<File>, next': nat, ghost cuts': seq<nat>,
             ghost filled: seq<Entry>)
    requires Split(es, tables, cuts, Held(mem)) && Numbered(tables, from, next)
    requires DistinctKeys(es + BatchEntries(b))
    ensures Split(es + BatchEntries(b), tables', cuts', Held(mem')) && Numbered(tables', from, next')
    ensures next' == next + (if mem'.None? then 1 else 0)
    ensures IsRound(es + BatchEntries(b), tables, cuts, filled, usage, bufferSize, next, mem', tables')
  {
    var es' := InsertInto(b, Held(mem), es, tables, cuts);
    mem', tables', next', cuts', filled := Some(es'), tables, next, cuts, es';
    if usage(es') > bufferSize {
      tables', next', cuts' := WriteLevel0Table(tables, es', next, usage(es'), es + BatchEntries(b), cuts, from);
      mem' := None;
    }
  }

  /** With the batch in it, the memtable is `filled`; it is written out, and a new one started, if and
      only if that takes more than the buffer size. */
  ghost predicate IsRound(es: seq<Entry>, tables: seq<File>, cuts: seq<nat>, filled: seq<Entry>,
                          usage: seq<Entry> -> nat, bufferSize: nat, next: nat, mem': Option<seq<Entry>>,
                          tables': seq<File>) {
    forall lock: Lock :: RoundBody(es, tables, cuts, filled, usage, bufferSize, next, mem', tables', lock)
  }

  ghost predicate RoundBody(es: seq<Entry>, tables: seq<File>, cuts: seq<nat>, filled: seq<Entry>,
                            usage: seq<Entry> -> nat, bufferSize: nat, next: nat, mem': Option<seq<Entry>>,
                            tables': seq<File>, lock: Lock) {
    && Split(es, tables, cuts, filled)
    && if usage(filled) <= bufferSize then mem' == Some(filled) && tables' == tables
       else mem' == None && tables' == if filled == [] then tables else tables + [File(next, usage(filled), filled)]
  }

  /** What the memtable holds, if there is one. */
  function Held(mem: Option<seq<Entry>>): seq<Entry> {
    if mem.Some? then mem.value else []
  }

  /** RecoverLogFile: every record of one log, cut into tables by memory use.  A log that has
      records takes a file number, even if they hold no operation. */
  method RecoverLogFile(batches: seq<Batch>, tables: seq<File>, next: nat, maxSeq: nat, usage: seq<Entry> -> nat,
                        bufferSize: nat,
                        ghost done: seq<Entry>, ghost cuts: seq<nat>, ghost from: nat)
    returns (tables': seq<File>, next': nat, max': nat, ghost cuts': seq<nat>)
    requires Split(done, tables, cuts, []) && Numbered(tables, from, next)
    requires DistinctKeys(done + Replay(batches))
    ensures Split(done + Replay(batches), tables', cuts', []) && Numbered(tables', from, next')
    ensures next <= next' && (next < next' <==> |batches| > 0)
    ensures max' == Max(maxSeq, MaxLogged(batches))
  {
    var mem: Option<seq<Entry>> := None;
    tables', next', max', cuts' := tables, next, maxSeq, cuts;
    assert done + Replay(batches[..0]) == done;
    for i := 0 to |batches|
      invariant Split(done + Replay(batches[..i]), tables', cuts', Held(mem)) && Numbered(tables', from, next')
      invariant next <= next' && (next < next' || mem.Some? <==> i > 0)
      invariant max' == Max(maxSeq, MaxLogged(batches[..i]))
    {
      var b := batches[i];
      ghost var es := done + Replay(batches[..i]);
      ReplayStep(batches, i);
      ReplayPrefix(batches, i + 1);
      DistinctPrefix(done, Replay(batches[..i + 1]), Replay(batches));
      assert es + BatchEntries(b) == done + Replay(batches[..i + 1]);
      ghost var filled;
      mem, tables', next', cuts', filled := RecoverBatch(b, mem, tables', next', usage, bufferSize, es, cuts', from);
      var last := if b.first + |b.ops| > 0 then b.first + |b.ops| - 1 else 0;
      if last > max' {
        max' := last;
      }
    }
    assert batches[..|batches|] == batches;
    if mem.Some? {
      tables', next', cuts' := WriteLevel0Table(tables', mem.value, next', usage(mem.value),
                                                done + Replay(batches), cuts', from);
    }
  }

  // ----- All live logs -----

  ghost predicate Ordered(ns: seq<nat>) {
    forall i, j :: 0 <= i < j < |ns| ==> ns[i] < ns[j]
  }

  method InsertNumber(ns: seq<nat>, n: nat) returns (r: seq<nat>)
    requires Ordered(ns) && n !in ns
    ensures Ordered(r) && forall m :: m in r <==> m in ns || m == n
  {
    var i := 0;
    while i < |ns| && ns[i] < n
      invariant 0 <= i <= |ns|
      invariant forall j :: 0 <= j < i ==> ns[j] < n
    {
      i := i + 1;
    }
    r := ns[..i] + [n] + ns[i..];
    Inserted(ns, i, n);
  }

  lemma Inserted(ns: seq<nat>, i: nat, n: nat)
    requires i <= |ns|
    ensures forall m :: m in ns[..i] + [n] + ns[i..] <==> m in ns || m == n
  {
    assert ns == ns[..i] + ns[i..];
  }

  /** The logs not older than the manifest's log number, and the one it names as the previous
      one, in order of creation. */
  method LogsToRecover(listing: seq<nat>, minLog: nat, prevLog: nat) returns (live: seq<nat>)
    requires forall i, j :: 0 <= i < j < |listing| ==> listing[i] != listing[j]
    ensures Ordered(live) && forall n :: n in live <==> n in listing && (n >= minLog || n == prevLog)
  {
    live := [];
    for i := 0 to |listing|
      invariant Ordered(live)
      invariant forall n :: n in live <==> n in listing[..i] && (n >= minLog || n == prevLog)
    {
      assert listing[..i + 1] == listing[..i] + [listing[i]];
      if listing[i] >= minLog || listing[i] == prevLog {
        live := InsertNumber(live, listing[i]);
      }
    }
    assert listing[..|listing|] == listing;
  }

  lemma ReplayAllStep(logs: map<nat, seq<Batch>>, live: seq<nat>, i: nat)
    requires i < |live| && forall n :: n in live ==> n in logs
    ensures ReplayAll(logs, live[..i + 1]) == ReplayAll(logs, live[..i]) + Replay(logs[live[i]])
    ensures MaxAll(logs, live[..i + 1]) == Max(MaxAll(logs, live[..i]), MaxLogged(logs[live[i]]))
  {
    var some := live[..i + 1];
    assert some[..|some| - 1] == live[..i];
  }

  lemma {:induction false} ReplayAllPrefix(logs: map<nat, seq<Batch>>, live: seq<nat>, i: nat)
    requires i <= |live| && forall n :: n in live ==> n in logs
    ensures ReplayAll(logs, live[..i]) <= ReplayAll(logs, live)
    decreases |live| - i
  {
    if i == |live| {
      assert live[..i] == live;
    } else {
      ReplayAllStep(logs, live, i);
      ReplayAllPrefix(logs, live, i + 1);
    }
  }

  /** What was logged carries each sequence number once. */
  lemma ReplayDistinct(st: State, interrupted: set<nat>, live: seq<nat>)
    requires Inv(st) && forall n, m :: n in interrupted && m in st.logs ==> m < n
    requires LiveLogs(LeftLogs(st.logs, interrupted), st.disk.logNumber, live)
    ensures DistinctKeys(ReplayAll(LeftLogs(st.logs, interrupted), live))
  {
    Unfold(st);
    LR.CrashSeq(st, interrupted, live);
    RisingDistinct(ReplayAll(LeftLogs(st.logs, interrupted), live));
  }

  lemma RisingDistinct(es: seq<Entry>)
    requires LR.Rising(es)
    ensures DistinctKeys(es)
  {
  }

  /** The keys of one more log are new. */
  lemma NextLogDistinct(logs: map<nat, seq<Batch>>, live: seq<nat>, i: nat)
    requires i < |live| && forall n :: n in live ==> n in logs
    requires DistinctKeys(ReplayAll(logs, live))
    ensures DistinctKeys(ReplayAll(logs, live[..i]) + Replay(logs[live[i]]))
  {
    ReplayAllStep(logs, live, i);
    ReplayAllPrefix(logs, live, i + 1);
    var some, all := ReplayAll(logs, live[..i + 1]), ReplayAll(logs, live);
    assert [] + some == some && [] + all == all;
    DistinctPrefix([], some, all);
  }

  /** The tables of all live logs, and the largest sequence number in them. */
  method RecoverLogs(live: seq<nat>, logs: map<nat, seq<Batch>>, first: nat, usage: seq<Entry> -> nat, bufferSize: nat)
    returns (tables: seq<File>, next: nat, maxSeq: nat, ghost cuts: seq<nat>)
    requires forall n :: n in live ==> n in logs
    requires DistinctKeys(ReplayAll(logs, live))
    ensures TablesOf(ReplayAll(logs, live), tables, cuts) && Numbered(tables, first, next)
    ensures maxSeq == MaxAll(logs, live)
    ensures forall n :: n in live ==> n < next
  {
    tables, next, maxSeq, cuts := [], first, 0, [0];
    for i := 0 to |live|
      invariant Split(ReplayAll(logs, live[..i]), tables, cuts, []) && Numbered(tables, first, next)
      invariant maxSeq == MaxAll(logs, live[..i])
      invariant forall k :: 0 <= k < i ==> live[k] < next
    {
      var n := live[i];
      NextLogDistinct(logs, live, i);
      ReplayAllStep(logs, live, i);
      tables, next, maxSeq, cuts :=
        RecoverLogFile(logs[n], tables, next, maxSeq, usage, bufferSize, ReplayAll(logs, live[..i]), cuts, first);
      next := MarkFileNumberUsed(next, n);
    }
    assert live[..|live|] == live;
    NothingLeft(ReplayAll(logs, live), tables, cuts);
  }

  function MarkFileNumberUsed(next: nat, number: nat): (r: nat)
    ensures next <= r && number < r
  {
    if next <= number then number + 1 else next
  }

  lemma CurrentLogExists(st: State)
    requires Inv(st)
    ensures st.disk.logNumber in st.logs
  {
    Unfold(st);
    LR.DurableFacts(st);
  }

  /** What every manifest names as the previous log: none has that number. */
  const NO_LOG: nat := 0

  lemma LogsAreNumbered(st: State, interrupted: set<nat>)
    requires Inv(st) && forall n, m :: n in interrupted && m in st.logs ==> m < n
    ensures NO_LOG !in LeftLogs(st.logs, interrupted)
  {
    Unfold(st);
    OpenDisk(Installed(st));
    assert Installed(st).memLog in st.logs;
  }

  /** DBImpl::Recover and the start of DB::Open: whatever reachable state the crash struck, and
      whatever empty logs earlier recoveries that crashed have left, the loops above take a
      crash step of the state machine, and the sequence counter comes back as the length of the
      history. */
  method Recover(manifest: Manifest, logs: map<nat, seq<Batch>>, listing: seq<nat>, usage: seq<Entry> -> nat,
                 bufferSize: nat, ghost st: State, ghost interrupted: set<nat>)
    returns (live: seq<nat>, tables: seq<File>, lastSeq: nat, newLog: nat, ghost cuts: seq<nat>)
    requires Inv(st) && manifest == st.disk && logs == LeftLogs(st.logs, interrupted)
    requires forall n, m :: n in interrupted && m in st.logs ==> m < n
    requires forall i, j :: 0 <= i < j < |listing| ==> listing[i] != listing[j]
    requires forall n :: n in listing <==> n in logs
    ensures CanRecover(st, interrupted, live, tables, cuts, newLog)
    ensures var next := Recovered(st, interrupted, live, tables, newLog);
            && Inv(next) && LR.Survives(st.spec.history, next.spec.history)
            && lastSeq == |next.spec.history| == next.lastSeq
    ensures manifest.nextFile < newLog && forall i :: 0 <= i < |tables| ==> manifest.nextFile < tables[i].number
  {
    live := LogsToRecover(listing, manifest.logNumber, NO_LOG);
    LogsAreNumbered(st, interrupted);
    ReplayDistinct(st, interrupted, live);
    var next, maxSeq;
    tables, next, maxSeq, cuts := RecoverLogs(live, logs, manifest.nextFile + 1, usage, bufferSize);
    lastSeq := if manifest.lastSeq < maxSeq then maxSeq else manifest.lastSeq;
    newLog := next;
    CurrentLogExists(st);
    LR.CrashKeeps(st, interrupted, live, tables, cuts, newLog);
  }
}
