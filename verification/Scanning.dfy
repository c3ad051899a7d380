/** Scans of the whole database. */
module Scanning {
  // DBIter over the entries of all memtables and tables, front to back, gives the history's
  // live keys and values at the scan's sequence number, in order.

  import opened Entries
  import opened Cursors
  import opened DbIterator
  import opened Lsm
  import opened LsmSteps
  import LsmReads
  import LsmRuns

  datatype Row = Row(key: Key, value: Val)

  /** The row is that of a live entry. */
  ghost predicate IsRow(es: seq<Entry>, s: nat, r: Row) {
    exists i :: 0 <= i < |es| && LiveAt(es, s, i) && es[i].user == r.key && es[i].value == r.value
  }

  /** What has been passed once the rows are out. */
  function Passed(rows: seq<Row>): Cut {
    if |rows| == 0 then Bottom else UpTo(rows[|rows| - 1].key)
  }

  predicate Increasing(rows: seq<Row>) {
    forall i, j :: 0 <= i < j < |rows| ==> rows[i].key < rows[j].key
  }

  /** The rows are those of the live keys that have been passed. */
  ghost predicate RowsOf(es: seq<Entry>, s: nat, rows: seq<Row>) {
    && Increasing(rows)
    && (forall r :: r in rows ==> IsRow(es, s, r))
    && (forall k :: k in LiveKeys(es, s) && Below(Passed(rows), k) ==> exists r :: r in rows && r.key == k)
  }

  /** A key has one live entry. */
  lemma OneRow(es: seq<Entry>, s: nat, a: Row, b: Row)
    requires Entries.Sorted(es) && IsRow(es, s, a) && IsRow(es, s, b) && a.key == b.key
    ensures a == b
  {
    var i :| 0 <= i < |es| && LiveAt(es, s, i) && es[i].user == a.key && es[i].value == a.value;
    var j :| 0 <= j < |es| && LiveAt(es, s, j) && es[j].user == b.key && es[j].value == b.value;
  }

  lemma NextRow(es: seq<Entry>, s: nat, rows: seq<Row>, r: Row)
    requires RowsOf(es, s, rows) && IsRow(es, s, r) && Least(LiveKeys(es, s), Passed(rows), Some(r.key))
    ensures RowsOf(es, s, rows + [r])
  {
    var more := rows + [r];
    forall k | k in LiveKeys(es, s) && Below(Passed(more), k) ensures exists x :: x in more && x.key == k {
      if Below(Passed(rows), k) {
        var x :| x in rows && x.key == k;
        assert x in more;
      } else {
        assert r in more;
      }
    }
  }

  lemma AllRows(es: seq<Entry>, s: nat, rows: seq<Row>)
    requires Entries.Sorted(es) && RowsOf(es, s, rows) && Least(LiveKeys(es, s), Passed(rows), None)
    ensures Increasing(rows) && forall r :: r in rows <==> IsRow(es, s, r)
  {
    forall r | IsRow(es, s, r) ensures r in rows {
      assert r.key in LiveKeys(es, s);
      var x :| x in rows && x.key == r.key;
      OneRow(es, s, x, r);
    }
  }

  lemma NoRows(es: seq<Entry>, s: nat)
    ensures RowsOf(es, s, [])
  {
  }

  lemma Later(es: seq<Entry>, i: nat, j: nat)
    requires Entries.Sorted(es) && i < |es| && j < |es| && es[i].user < es[j].user
    ensures i < j
  {
    if j < i {
      DbIterator.Order(es, j, i);
    }
  }

  method TakeRow(it: DBIter, rows: seq<Row>) returns (more: seq<Row>)
    requires it.Valid() && it.forward && it.valid
    requires RowsOf(it.es, it.s, rows) && Least(LiveKeys(it.es, it.s), Passed(rows), it.Where())
    modifies it
    ensures it.Valid() && it.forward && (it.valid ==> old(it.m) < it.m < |it.es|)
    ensures RowsOf(it.es, it.s, more) && Least(LiveKeys(it.es, it.s), Passed(more), it.Where())
  {
    var k, v := it.Current();
    ghost var here := it.m;
    NextRow(it.es, it.s, rows, Row(k, v));
    more := rows + [Row(k, v)];
    it.Next();
    if it.valid {
      Later(it.es, here, it.m);
    }
  }

  /** SeekToFirst, and Next while the iterator is valid. */
  method Scan(es: seq<Entry>, s: nat) returns (rows: seq<Row>)
    requires Entries.Sorted(es)
    ensures Increasing(rows) && forall r :: r in rows <==> IsRow(es, s, r)
  {
    var it := new DBIter(es, s);
    it.SeekToFirst();
    rows := [];
    NoRows(es, s);
    while it.valid
      invariant fresh(it) && it.Valid() && it.forward && it.es == es && it.s == s
      invariant RowsOf(es, s, rows) && Least(LiveKeys(es, s), Passed(rows), it.Where())
      decreases if it.valid then |es| - it.m else -1
    {
      rows := TakeRow(it, rows);
    }
    AllRows(es, s, rows);
  }

  // ----- Back to front -----

  function Left(rows: seq<Row>): Cut {
    if |rows| == 0 then Top else Cut.Before(rows[|rows| - 1].key)
  }

  predicate Decreasing(rows: seq<Row>) {
    forall i, j :: 0 <= i < j < |rows| ==> rows[i].key > rows[j].key
  }

  ghost predicate BackRowsOf(es: seq<Entry>, s: nat, rows: seq<Row>) {
    && Decreasing(rows)
    && (forall r :: r in rows ==> IsRow(es, s, r))
    && (forall k :: k in LiveKeys(es, s) && !Below(Left(rows), k) ==> exists r :: r in rows && r.key == k)
  }

  lemma BackRow(es: seq<Entry>, s: nat, rows: seq<Row>, r: Row)
    requires BackRowsOf(es, s, rows) && IsRow(es, s, r) && Greatest(LiveKeys(es, s), Left(rows), Some(r.key))
    ensures BackRowsOf(es, s, rows + [r])
  {
    var more := rows + [r];
    forall k | k in LiveKeys(es, s) && !Below(Left(more), k) ensures exists x :: x in more && x.key == k {
      if !Below(Left(rows), k) {
        var x :| x in rows && x.key == k;
        assert x in more;
      } else {
        assert r in more;
      }
    }
  }

  lemma AllBackRows(es: seq<Entry>, s: nat, rows: seq<Row>)
    requires Entries.Sorted(es) && BackRowsOf(es, s, rows) && Greatest(LiveKeys(es, s), Left(rows), None)
    ensures Decreasing(rows) && forall r :: r in rows <==> IsRow(es, s, r)
  {
    forall r | IsRow(es, s, r) ensures r in rows {
      assert r.key in LiveKeys(es, s);
      var x :| x in rows && x.key == r.key;
      OneRow(es, s, x, r);
    }
  }

  method TakeBackRow(it: DBIter, rows: seq<Row>) returns (more: seq<Row>)
    requires it.Valid() && it.valid
    requires BackRowsOf(it.es, it.s, rows) && Greatest(LiveKeys(it.es, it.s), Left(rows), it.Where())
    modifies it
    ensures it.Valid() && (it.valid ==> it.m < old(it.m))
    ensures BackRowsOf(it.es, it.s, more) && Greatest(LiveKeys(it.es, it.s), Left(more), it.Where())
  {
    var k, v := it.Current();
    ghost var here := it.m;
    BackRow(it.es, it.s, rows, Row(k, v));
    more := rows + [Row(k, v)];
    it.Prev();
    if it.valid {
      Later(it.es, it.m, here);
    }
  }

  lemma NoBackRows(es: seq<Entry>, s: nat)
    ensures BackRowsOf(es, s, [])
  {
  }

  /** SeekToLast, and Prev while the iterator is valid. */
  method ScanBack(es: seq<Entry>, s: nat) returns (rows: seq<Row>)
    requires Entries.Sorted(es)
    ensures Decreasing(rows) && forall r :: r in rows <==> IsRow(es, s, r)
  {
    var it := new DBIter(es, s);
    it.SeekToLast();
    rows := [];
    NoBackRows(es, s);
    while it.valid
      invariant fresh(it) && it.Valid() && it.es == es && it.s == s
      invariant BackRowsOf(es, s, rows) && Greatest(LiveKeys(es, s), Left(rows), it.Where())
      decreases if it.valid then it.m as int else -1
    {
      rows := TakeBackRow(it, rows);
    }
    AllBackRows(es, s, rows);
  }

  // ----- Scans of a state -----

  /** Everything the memtables and tables hold, as the merging iterator lists it. */
  ghost predicate Lists(st: State, es: seq<Entry>) {
    && Entries.Sorted(es)
    && Elems(es) == Tables(st.levels) + Span(st.spec.history, st.spec.flushed, st.applied)
  }

  lemma RowIsFound(st: State, es: seq<Entry>, s: nat, r: Row)
    requires ViewInv(st) && Lists(st, es) && (s == st.lastSeq || s in st.snapshots)
    ensures IsRow(es, s, r) <==> Lookup(Span(st.spec.history, 0, |st.spec.history|), r.key, s) == Found(r.value)
  {
    LsmReads.ReadsSeeAll(st, r.key, s);
    if IsRow(es, s, r) {
      var i :| 0 <= i < |es| && LiveAt(es, s, i) && es[i].user == r.key && es[i].value == r.value;
      LiveIsFound(es, s, i);
    }
    if Lookup(Elems(es), r.key, s) == Found(r.value) {
      FoundIsLive(es, s, r.key, r.value);
    }
  }

  /** In every reachable state, a scan at the last sequence or at a held snapshot, front to back
      or back to front, returns exactly the keys that the history holds there, each with its
      newest value. */
  method ScanState(ghost states: seq<State>, ghost steps: seq<Step>, ghost i: nat, es: seq<Entry>, s: nat,
                   back: bool)
    returns (rows: seq<Row>)
    requires IsRun(states, steps) && i < |states| && Lists(states[i], es)
    requires s == states[i].lastSeq || s in states[i].snapshots
    ensures if back then Decreasing(rows) else Increasing(rows)
    ensures forall r :: r in rows <==>
              Lookup(Span(states[i].spec.history, 0, |states[i].spec.history|), r.key, s) == Found(r.value)
  {
    if back {
      rows := ScanBack(es, s);
    } else {
      rows := Scan(es, s);
    }
    LsmRuns.RunKeeps(states, steps, i);
    Unfold(states[i]);
    forall r: Row ensures r in rows <==>
        Lookup(Span(states[i].spec.history, 0, |states[i].spec.history|), r.key, s) == Found(r.value)
    {
      RowIsFound(states[i], es, s, r);
    }
  }
}
