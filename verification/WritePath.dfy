/** From the writers' queue to a read: the two protocols joined. */
module WritePath {
  // A group of writers is one or more steps of the engine: log the record, insert its
  // operations one by one, publish; or one of the ways this fails.

  import opened Entries
  import opened GroupCommit
  import opened Lsm
  import LsmReads
  import LW = LsmWrites
  import S = LsmSteps

  type State = Lsm.State

  function Inserts(n: nat): (r: seq<S.Step>)
    ensures |r| == n && forall i :: 0 <= i < n ==> r[i] == S.InsertOp
  {
    seq(n, _ => S.InsertOp)
  }

  /** What the engine does for a turn of the queue. */
  function StepsOf(t: Turn): seq<S.Step> {
    if !t.grouped then []
    else if t.status.Fine? then [S.LogBatch(t.ops)] + Inserts(|t.ops|) + [S.Publish]
    else if t.logged then [S.LogBatch(t.ops), S.SyncFailed]
    else [S.AppendFailed(|t.ops|)]
  }

  /** Each state leads to the next by its step. */
  ghost predicate Leads(states: seq<State>, steps: seq<S.Step>) {
    |states| == |steps| + 1 && forall i :: 0 <= i < |steps| ==> S.Next(states[i], steps[i], states[i + 1])
  }

  lemma LeadsOn(a: seq<State>, s: seq<S.Step>, b: seq<State>, t: seq<S.Step>)
    requires Leads(a, s) && Leads(b, t) && a[|s|] == b[0]
    ensures Leads(a + b[1..], s + t) && (a + b[1..])[0] == a[0] && (a + b[1..])[|s + t|] == b[|t|]
  {
    var all, steps := a + b[1..], s + t;
    forall i | 0 <= i < |steps| ensures S.Next(all[i], steps[i], all[i + 1]) {
      if i < |s| {
        assert all[i] == a[i] && all[i + 1] == a[i + 1];
      } else {
        assert all[i] == b[i - |s|] && all[i + 1] == b[i - |s| + 1];
      }
    }
  }

  /** The operations from `applied` on go into the memtable, one step each. */
  lemma {:induction false} InsertsRun(st: State, n: nat) returns (states: seq<State>)
    requires st.applied + n == |st.spec.history|
    requires forall i :: st.applied <= i < |st.spec.history| ==> st.spec.history[i].Done?
    ensures Leads(states, Inserts(n)) && states[0] == st
    ensures states[n] == st.(mem := states[n].mem, applied := |st.spec.history|)
    decreases n
  {
    if n == 0 {
      states := [st];
    } else {
      var next := st.(mem := st.mem + {EntryAt(st.spec.history, st.applied)}, applied := st.applied + 1);
      assert S.Next(st, S.InsertOp, next);
      var rest := InsertsRun(next, n - 1);
      states := [st] + rest;
      forall i | 0 <= i < n ensures S.Next(states[i], Inserts(n)[i], states[i + 1]) {
        if i > 0 {
          assert S.Next(rest[i - 1], Inserts(n - 1)[i - 1], rest[i]);
        }
      }
    }
  }

  /** The engine is between writes, has written no table, and has the queue's records and numbers. */
  ghost predicate Matches(st: State, log: seq<(nat, seq<Op>)>, lastSeq: nat, done: seq<Op>) {
    && S.CanLog(st) && st.levels == S.NoFiles() && st.lastSeq == lastSeq && LW.DoneOps(st.spec.history) == done
    && |st.logs[st.memLog]| == |log|
    && forall i :: 0 <= i < |log| ==> st.logs[st.memLog][i] == Batch(log[i].0, log[i].1)
  }

  lemma {:induction false} DoneJoin(h: History, ops: seq<Op>)
    ensures LW.DoneOps(h + S.AllDone(ops)) == LW.DoneOps(h) + ops
    decreases |ops|
  {
    var g := h + S.AllDone(ops);
    if |ops| == 0 {
      assert g == h && LW.DoneOps(h) + ops == LW.DoneOps(h);
    } else {
      var n := |ops| - 1;
      assert g[..|g| - 1] == h + S.AllDone(ops[..n]) && g[|g| - 1] == Done(ops[n]);
      DoneJoin(h, ops[..n]);
      assert LW.DoneOps(h) + ops[..n] + [ops[n]] == LW.DoneOps(h) + ops;
    }
  }

  lemma {:induction false} NoneDone(h: History, g: History)
    requires forall i :: 0 <= i < |g| ==> !g[i].Done?
    ensures LW.DoneOps(h + g) == LW.DoneOps(h)
    decreases |g|
  {
    if |g| == 0 {
      assert h + g == h;
    } else {
      assert (h + g)[..|h + g| - 1] == h + g[..|g| - 1];
      NoneDone(h, g[..|g| - 1]);
    }
  }

  lemma FineRuns(st: State, t: Turn, log: seq<(nat, seq<Op>)>, done: seq<Op>) returns (states: seq<State>)
    requires t.first > 0 && Matches(st, log, t.first - 1, done) && t.grouped && t.status.Fine?
    ensures Leads(states, StepsOf(t)) && states[0] == st
    ensures Matches(states[|StepsOf(t)|], log + [(t.first, t.ops)], t.first - 1 + |t.ops|, done + t.ops)
  {
    var logged := S.WithBatch(st, t.ops);
    var inserted := InsertsRun(logged, |t.ops|);
    var n := |t.ops|;
    var last := inserted[n].(lastSeq := inserted[n].applied);
    assert S.Next(st, S.LogBatch(t.ops), logged) && S.Next(inserted[n], S.Publish, last);
    LeadsOn([st, logged], [S.LogBatch(t.ops)], inserted, Inserts(n));
    var most := [st, logged] + inserted[1..];
    LeadsOn(most, [S.LogBatch(t.ops)] + Inserts(n), [inserted[n], last], [S.Publish]);
    states := most + [inserted[n], last][1..];
    DoneJoin(st.spec.history, t.ops);
  }

  lemma UnsyncedRuns(st: State, t: Turn, log: seq<(nat, seq<Op>)>, done: seq<Op>) returns (states: seq<State>)
    requires t.first > 0 && Matches(st, log, t.first - 1, done) && t.grouped && t.status.Failed? && t.logged
    ensures Leads(states, StepsOf(t)) && states[0] == st
    ensures Matches(states[2], log + [(t.first, t.ops)], t.first - 1 + |t.ops|, done)
  {
    var logged := S.WithBatch(st, t.ops);
    var last := S.Forsaken(logged);
    states := [st, logged, last];
    assert S.Next(st, S.LogBatch(t.ops), logged) && S.Next(logged, S.SyncFailed, last);
    var h, g := st.spec.history, last.spec.history;
    assert g == h + g[|h|..];
    NoneDone(h, g[|h|..]);
  }

  lemma UnloggedRuns(st: State, t: Turn, log: seq<(nat, seq<Op>)>, done: seq<Op>) returns (states: seq<State>)
    requires t.first > 0 && Matches(st, log, t.first - 1, done) && t.grouped && t.status.Failed? && !t.logged
    ensures Leads(states, StepsOf(t)) && states[0] == st
    ensures Matches(states[1], log, t.first - 1 + |t.ops|, done)
  {
    var last := S.Wasted(st, |t.ops|);
    states := [st, last];
    assert S.Next(st, S.AppendFailed(|t.ops|), last);
    var h, g := st.spec.history, last.spec.history;
    assert g == h + g[|h|..];
    NoneDone(h, g[|h|..]);
  }

  /** One turn of the queue is a stretch of a run of the engine. */
  lemma TurnRuns(st: State, reqs: Requests, t: Turn, log: seq<(nat, seq<Op>)>, done: seq<Op>)
    returns (states: seq<State>)
    requires t.first > 0 && Matches(st, log, t.first - 1, done) && TurnOk(reqs, t) && Spill(t) == []
    ensures Leads(states, StepsOf(t)) && states[0] == st
    ensures Matches(states[|StepsOf(t)|], log + Record(t, false), t.first - 1 + |t.ops|,
                    done + if t.status.Fine? then t.ops else [])
  {
    assert done + [] == done && log + [] == log;
    if !t.grouped {
      states := [st];
    } else if t.status.Fine? {
      states := FineRuns(st, t, log, done);
    } else if t.logged {
      states := UnsyncedRuns(st, t, log, done);
    } else {
      states := UnloggedRuns(st, t, log, done);
    }
  }

  function AllSteps(turns: seq<Turn>): seq<S.Step>
    decreases |turns|
  {
    if |turns| == 0 then [] else AllSteps(turns[..|turns| - 1]) + StepsOf(turns[|turns| - 1])
  }

  /** The operations of the turns that went well. */
  function FineTurns(turns: seq<Turn>): seq<Op>
    decreases |turns|
  {
    if |turns| == 0 then []
    else FineTurns(turns[..|turns| - 1]) + (if turns[|turns| - 1].status.Fine? then turns[|turns| - 1].ops else [])
  }

  lemma {:induction false} TurnsRun(reqs: Requests, turns: seq<Turn>, lastSeq: nat) returns (states: seq<State>)
    requires AllOk(reqs, turns) && Contiguous(turns, lastSeq) && Spilled(turns) == 0
    ensures S.IsRun(states, AllSteps(turns))
    ensures Matches(states[|AllSteps(turns)|], Records(turns, false), lastSeq, FineTurns(turns))
    decreases |turns|
  {
    if |turns| == 0 {
      states := [S.Start()];
    } else {
      var front, t := turns[..|turns| - 1], turns[|turns| - 1];
      ContiguousFront(turns, lastSeq);
      var before := TurnsRun(reqs, front, t.first - 1);
      var steps := AllSteps(front);
      var more := TurnRuns(before[|steps|], reqs, t, Records(front, false), FineTurns(front));
      LeadsOn(before, steps, more, StepsOf(t));
      states := before + more[1..];
    }
  }

  lemma {:induction false} ContiguousFront(turns: seq<Turn>, lastSeq: nat)
    requires Contiguous(turns, lastSeq) && |turns| > 0
    ensures turns[|turns| - 1].first > 0 && Contiguous(turns[..|turns| - 1], turns[|turns| - 1].first - 1)
    ensures lastSeq == turns[|turns| - 1].first - 1 + |turns[|turns| - 1].ops|
    decreases |turns|
  {
    var n := |turns| - 1;
    if n > 0 {
      assert turns[n - 1 + 1].first == turns[n - 1].first + |turns[n - 1].ops|;
      FirstsPositive(turns, n);
    }
  }

  lemma {:induction false} FirstsPositive(turns: seq<Turn>, n: nat)
    requires n < |turns| && turns[0].first == 1
    requires forall i :: 0 <= i < |turns| - 1 ==> turns[i + 1].first == turns[i].first + |turns[i].ops|
    ensures turns[n].first > 0
    decreases n
  {
    if n > 0 {
      FirstsPositive(turns, n - 1);
      assert turns[n - 1 + 1].first == turns[n - 1].first + |turns[n - 1].ops|;
    }
  }

  lemma {:induction false} FineTurnsAreMem(reqs: Requests, turns: seq<Turn>)
    requires AllKnown(reqs, turns) && AllOk(reqs, turns) && Spilled(turns) == 0
    ensures FineTurns(turns) == MemOps(reqs, turns)
    decreases |turns|
  {
    if |turns| > 0 {
      FineTurnsAreMem(reqs, turns[..|turns| - 1]);
      var t := turns[|turns| - 1];
      assert TurnOk(reqs, t);
      if !t.grouped {
        BatchesStep(reqs, t.writers, 0);
        assert t.writers[..1] == t.writers;
      }
    }
  }

  /** Whatever the writers do: between groups the engine has the queue's log and numbers, by a run of
      its own steps, and a read finds the last operation on its key among the batches of the writers
      that were told "fine", in the order they queued up, and nothing of the others. */
  lemma WritersAreRead(qs: seq<Queue>, steps: seq<GroupCommit.Step>, i: nat, u: UserKey)
    returns (states: seq<State>, engine: seq<S.Step>)
    requires GroupCommit.IsRun(qs, steps) && i < |qs| && qs[i].phase.Idle? && Spilled(qs[i].turns) == 0
    ensures S.IsRun(states, engine)
    ensures var q, st, settled := qs[i], states[|engine|], WritersOf(qs[i].turns);
            && Known(q.requests, settled) && (forall k :: 0 <= k < |settled| ==> settled[k] in q.outcome)
            && Matches(st, q.log, q.lastSeq, FineOps(q.requests, q.outcome, settled)) && LsmReads.ZeroListing(st, [])
            && LsmReads.Search(LsmReads.Layers(st, []), u, st.lastSeq)
               == LW.Latest(FineOps(q.requests, q.outcome, settled), u)
  {
    var q := qs[i];
    GroupCommit.RunKeeps(qs, steps, i);
    assert Keeps(q, Numbers) && Keeps(q, Promises) && Keeps(q, Contents);
    assert Records(q.turns, false) + [] == Records(q.turns, false);
    states := TurnsRun(q.requests, q.turns, q.lastSeq);
    engine := AllSteps(q.turns);
    AppliedInOrder(q);
    FineTurnsAreMem(q.requests, q.turns);
    var st := states[|engine|];
    LsmReads.EveryRunReadsNewest(states, engine, |engine|, [], u, st.lastSeq);
    LW.LookupIsLatest(st.spec.history, u, st.lastSeq);
    assert st.spec.history[..st.lastSeq] == st.spec.history;
  }
}
