/** The history of a run is what its writers handed in. */
module LsmWrites {
  // Everything here is said of the steps of a run alone: the batches its writers gave,
  // which of them were told that Sync failed, and what was published.

  import opened Entries
  import opened Lsm
  import opened LsmReads
  import opened LsmSteps
  import LR = LsmRecovery
  import LsmRuns

  /** An operation that went into the log, and whether its writer was told that Sync failed. */
  datatype Given = Given(op: Op, failed: bool)

  function Fresh(ops: seq<Op>): (r: seq<Given>)
    ensures |r| == |ops|
  {
    seq(|ops|, i requires 0 <= i < |ops| => Given(ops[i], false))
  }

  function Refused(gs: seq<Given>): (r: seq<Given>)
    ensures |r| == |gs|
  {
    seq(|gs|, i requires 0 <= i < |gs| => Given(gs[i].op, true))
  }

  /** The operations handed in, batch after batch. */
  function Handed(steps: seq<Step>): seq<Given>
    decreases |steps|
  {
    if |steps| == 0 then []
    else
      var front, last := steps[..|steps| - 1], steps[|steps| - 1];
      var before := Handed(front);
      match last
      case LogBatch(ops) => before + Fresh(ops)
      case SyncFailed =>
        var n := Answered(front);
        if n <= |before| then before[..n] + Refused(before[n..]) else before
      case _ => before
  }

  /** How many of them belong to writers that have their answer, or to a log that was recovered. */
  function Answered(steps: seq<Step>): nat
    decreases |steps|
  {
    if |steps| == 0 then 0
    else
      var front, last := steps[..|steps| - 1], steps[|steps| - 1];
      if last.Publish? || last.SyncFailed? || last.Crash? then |Handed(front)| else Answered(front)
  }

  // ----- Slots that hold an operation -----

  /** The slots of the history that are not void, in order. */
  function Filled(h: History): History
    decreases |h|
  {
    if |h| == 0 then []
    else Filled(h[..|h| - 1]) + (if h[|h| - 1].Void? then [] else [h[|h| - 1]])
  }

  lemma {:induction false} FilledJoin(h: History, g: History)
    ensures Filled(h + g) == Filled(h) + Filled(g)
    decreases |g|
  {
    if |g| == 0 {
      assert h + g == h;
    } else {
      var n := |g| - 1;
      assert (h + g)[..|h| + n] == h + g[..n];
      FilledJoin(h, g[..n]);
    }
  }

  lemma {:induction false} FilledAll(h: History)
    requires forall i :: 0 <= i < |h| ==> !h[i].Void?
    ensures Filled(h) == h
    decreases |h|
  {
    if |h| > 0 {
      FilledAll(h[..|h| - 1]);
    }
  }

  lemma {:induction false} FilledNone(h: History)
    requires forall i :: 0 <= i < |h| ==> h[i].Void?
    ensures Filled(h) == []
    decreases |h|
  {
    if |h| > 0 {
      FilledNone(h[..|h| - 1]);
    }
  }

  /** Slot by slot the operations handed in; only where the writer was told so may one be in limbo. */
  ghost predicate Holds(slots: History, gs: seq<Given>) {
    && |slots| == |gs|
    && forall i :: 0 <= i < |gs| ==> slots[i] == Done(gs[i].op) || (gs[i].failed && slots[i] == Limbo(gs[i].op))
  }

  /** Slots that stay, or come back as done. */
  ghost predicate Revives(h: History, g: History) {
    |g| == |h| && forall i :: 0 <= i < |h| ==> g[i] == h[i] || (h[i].Limbo? && g[i] == Done(h[i].op))
  }

  lemma {:induction false} FilledRevives(h: History, g: History)
    requires Revives(h, g)
    ensures Revives(Filled(h), Filled(g))
    decreases |h|
  {
    if |h| > 0 {
      FilledRevives(h[..|h| - 1], g[..|h| - 1]);
    }
  }

  // ----- The history and the steps -----

  /** The history holds what was handed in, and up to `seen` the first `n` of it. */
  ghost predicate Tracks(h: History, seen: nat, gs: seq<Given>, n: nat) {
    seen <= |h| && Holds(Filled(h), gs) && |Filled(h[..seen])| == n <= |gs|
  }

  lemma DoneTracks(h: History, g: History, seen: nat, gs: seq<Given>, n: nat, ops: seq<Op>)
    requires Tracks(h, seen, gs, n)
    requires |g| == |h| + |ops| && h <= g && forall i :: 0 <= i < |ops| ==> g[|h| + i] == Done(ops[i])
    ensures Tracks(g, seen, gs + Fresh(ops), n)
  {
    var more := g[|h|..];
    assert forall i :: 0 <= i < |ops| ==> more[i] == Done(ops[i]);
    assert h + more == g && g[..seen] == h[..seen];
    FilledJoin(h, more);
    FilledAll(more);
  }

  lemma VoidTracks(h: History, g: History, gs: seq<Given>, n: nat)
    requires Tracks(h, |h|, gs, n) && h <= g && forall i :: |h| <= i < |g| ==> g[i].Void?
    ensures Tracks(g, |g|, gs, n)
  {
    assert h + g[|h|..] == g && g[..|g|] == g && h[..|h|] == h;
    FilledJoin(h, g[|h|..]);
    FilledNone(g[|h|..]);
  }

  lemma LimboTracks(h: History, g: History, seen: nat, gs: seq<Given>, n: nat)
    requires Tracks(h, seen, gs, n) && |g| == |h| && g[..seen] == h[..seen]
    requires forall i :: seen <= i < |h| ==> h[i].Done? && g[i] == Limbo(h[i].op)
    ensures Tracks(g, |g|, gs[..n] + Refused(gs[n..]), |gs|)
  {
    var front, was, now := h[..seen], h[seen..], g[seen..];
    assert h == front + was && g == front + now && g[..|g|] == g;
    FilledJoin(front, was);
    FilledJoin(front, now);
    FilledAll(was);
    FilledAll(now);
    HoldsRefused(Filled(front), was, now, gs);
  }

  lemma HoldsRefused(front: History, was: History, now: History, gs: seq<Given>)
    requires Holds(front + was, gs) && |now| == |was|
    requires forall i :: 0 <= i < |was| ==> was[i].Done? && now[i] == Limbo(was[i].op)
    ensures Holds(front + now, gs[..|front|] + Refused(gs[|front|..]))
  {
    var slots, told, n := front + now, gs[..|front|] + Refused(gs[|front|..]), |front|;
    forall i | 0 <= i < |told|
      ensures slots[i] == Done(told[i].op) || (told[i].failed && slots[i] == Limbo(told[i].op))
    {
      assert (front + was)[i] == Done(gs[i].op) || (gs[i].failed && (front + was)[i] == Limbo(gs[i].op));
      if i >= n {
        assert slots[i] == now[i - n] && (front + was)[i] == was[i - n] && told[i] == Given(gs[i].op, true);
      }
    }
  }

  lemma RevivedTracks(h: History, g: History, seen: nat, gs: seq<Given>, n: nat)
    requires Tracks(h, seen, gs, n) && LR.Survives(h, g)
    ensures Tracks(g, |g|, gs, |gs|)
  {
    var front, rest := h[..|g|], h[|g|..];
    assert h == front + rest && g[..|g|] == g;
    FilledJoin(front, rest);
    FilledNone(rest);
    FilledRevives(front, g);
    assert Filled(h) == Filled(front);
  }

  ghost predicate Agrees(st: State, steps: seq<Step>) {
    Tracks(st.spec.history, st.lastSeq, Handed(steps), Answered(steps))
  }

  lemma StepsGrow(steps: seq<Step>, step: Step)
    ensures Handed(steps + [step]) ==
              if step.LogBatch? then Handed(steps) + Fresh(step.ops)
              else if step.SyncFailed? && Answered(steps) <= |Handed(steps)|
              then Handed(steps)[..Answered(steps)] + Refused(Handed(steps)[Answered(steps)..])
              else Handed(steps)
    ensures Answered(steps + [step]) ==
              if step.Publish? || step.SyncFailed? || step.Crash? then |Handed(steps)| else Answered(steps)
  {
    assert (steps + [step])[..|steps|] == steps;
  }

  /** A batch goes into history and log as it is. */
  lemma BatchLogged(st: State, ops: seq<Op>, next: State)
    requires Next(st, LogBatch(ops), next)
    ensures var h, g := st.spec.history, next.spec.history;
            && |g| == |h| + |ops| && h <= g && (forall i :: 0 <= i < |ops| ==> g[|h| + i] == Done(ops[i]))
            && st.memLog in st.logs && next.logs == st.logs[st.memLog := st.logs[st.memLog] + [Batch(|h| + 1, ops)]]
            && next.lastSeq == st.lastSeq
  {
  }

  lemma AppendFailedWastes(st: State, n: nat, next: State)
    requires Next(st, AppendFailed(n), next)
    ensures var h, g := st.spec.history, next.spec.history;
            && |g| == |h| + n && h <= g && (forall i :: |h| <= i < |g| ==> g[i].Void?)
            && st.lastSeq == |h| && next.lastSeq == |g|
  {
  }

  lemma SyncFailedForsakes(st: State, next: State)
    requires CountsOk(st) && Next(st, SyncFailed, next)
    ensures var h, g, s := st.spec.history, next.spec.history, st.lastSeq;
            && |g| == |h| && s <= |h| && g[..s] == h[..s] && next.lastSeq == |g|
            && forall i :: s <= i < |h| ==> h[i].Done? && g[i] == Limbo(h[i].op)
  {
  }

  lemma PublishShows(st: State, next: State)
    requires Next(st, Publish, next)
    ensures next.spec.history == st.spec.history && next.lastSeq == |st.spec.history|
  {
  }

  lemma StepAgrees(st: State, steps: seq<Step>, step: Step, next: State)
    requires Inv(st) && CountsOk(st) && Agrees(st, steps) && Next(st, step, next)
    ensures Agrees(next, steps + [step])
  {
    var h, g, gs, n := st.spec.history, next.spec.history, Handed(steps), Answered(steps);
    StepsGrow(steps, step);
    if step.LogBatch? {
      BatchLogged(st, step.ops, next);
      DoneTracks(h, g, st.lastSeq, gs, n, step.ops);
    } else if step.AppendFailed? {
      AppendFailedWastes(st, step.n, next);
      VoidTracks(h, g, gs, n);
    } else if step.SyncFailed? {
      SyncFailedForsakes(st, next);
      LimboTracks(h, g, st.lastSeq, gs, n);
    } else if step.Crash? {
      LR.CrashKeeps(st, step.interrupted, step.live, step.tables, step.cuts, step.newLog);
      RevivedTracks(h, g, st.lastSeq, gs, n);
    } else if step.Publish? {
      PublishShows(st, next);
      assert h[..|h|] == h;
    } else {
      LsmRuns.SameHistory(st, step, next);
    }
  }

  /** In every run the operations in the history are those the writers handed in, each once and in
      order; the ones published are those of the writers that have their answer. */
  lemma {:induction false} RunAgrees(states: seq<State>, steps: seq<Step>, i: nat)
    requires IsRun(states, steps) && i < |states|
    ensures Agrees(states[i], steps[..i])
    decreases i
  {
    if i > 0 {
      RunAgrees(states, steps, i - 1);
      LsmRuns.RunKeeps(states, steps, i - 1);
      Unfold(states[i - 1]);
      OpenView(states[i - 1]);
      assert steps[..i] == steps[..i - 1] + [steps[i - 1]];
      StepAgrees(states[i - 1], steps[..i - 1], steps[i - 1], states[i]);
    }
  }

  // ----- Reads -----

  /** The last operation on the key decides. */
  function Latest(ops: seq<Op>, u: UserKey): Answer
    decreases |ops|
  {
    if |ops| == 0 then NotFound
    else
      var op := ops[|ops| - 1];
      if op.user != u then Latest(ops[..|ops| - 1], u)
      else if op.kind.Value? then Found(op.value)
      else NotFound
  }

  /** The operations that are done. */
  function DoneOps(h: History): seq<Op>
    decreases |h|
  {
    if |h| == 0 then [] else DoneOps(h[..|h| - 1]) + (if h[|h| - 1].Done? then [h[|h| - 1].op] else [])
  }

  lemma SeenBelow(h: History, u: UserKey, n: nat)
    requires 0 < n <= |h| && (h[n - 1].Done? ==> h[n - 1].op.user != u)
    ensures forall e :: Seen(Span(h, 0, |h|), u, n, e) <==> Seen(Span(h, 0, |h|), u, n - 1, e)
  {
    forall e | Seen(Span(h, 0, |h|), u, n, e) ensures e.sn <= n - 1 {
      assert Logged(h, e);
    }
  }

  /** Reading the history at a sequence is looking for the last operation done up to there. */
  lemma {:induction false} LookupIsLatest(h: History, u: UserKey, n: nat)
    requires n <= |h|
    ensures Lookup(Span(h, 0, |h|), u, n) == Latest(DoneOps(h[..n]), u)
    decreases n
  {
    var es := Span(h, 0, |h|);
    LsmRuns.LC.LoggedUnique(h, es);
    if n == 0 {
      assert forall e :: !Seen(es, u, 0, e);
    } else {
      assert h[..n][..n - 1] == h[..n - 1];
      if h[n - 1].Done? && h[n - 1].op.user == u {
        var e := EntryAt(h, n - 1);
        assert Logged(h, e) && IsNewest(es, u, n, e);
        LookupIs(es, u, n, e);
      } else {
        LookupIsLatest(h, u, n - 1);
        SeenBelow(h, u, n);
        SameSeen(es, u, n, n - 1);
        SkipLast(h[..n], u);
      }
    }
  }

  lemma SkipLast(h: History, u: UserKey)
    requires |h| > 0 && (h[|h| - 1].Done? ==> h[|h| - 1].op.user != u)
    ensures Latest(DoneOps(h), u) == Latest(DoneOps(h[..|h| - 1]), u)
  {
    var front := DoneOps(h[..|h| - 1]);
    if h[|h| - 1].Done? {
      assert DoneOps(h)[..|front|] == front;
    } else {
      assert DoneOps(h) == front;
    }
  }

  lemma SameSeen(es: set<Entry>, u: UserKey, s: nat, t: nat)
    requires UniqueSn(es) && forall e :: Seen(es, u, s, e) <==> Seen(es, u, t, e)
    ensures Lookup(es, u, s) == Lookup(es, u, t)
  {
    if e :| IsNewest(es, u, s, e) {
      assert IsNewest(es, u, t, e);
      LookupIs(es, u, s, e);
      LookupIs(es, u, t, e);
    } else if e :| IsNewest(es, u, t, e) {
      assert IsNewest(es, u, s, e);
    }
  }

  /** The operations in order, less some of those whose writers were told that they failed. */
  ghost predicate Picks(ops: seq<Op>, gs: seq<Given>)
    decreases |gs|
  {
    if |gs| == 0 then ops == []
    else
      var n := |gs| - 1;
      || (|ops| > 0 && ops[|ops| - 1] == gs[n].op && Picks(ops[..|ops| - 1], gs[..n]))
      || (gs[n].failed && Picks(ops, gs[..n]))
  }

  lemma {:induction false} DonePicks(h: History, gs: seq<Given>)
    requires Holds(Filled(h), gs)
    ensures Picks(DoneOps(h), gs)
    decreases |h|
  {
    if |h| > 0 {
      var front, last, n := h[..|h| - 1], h[|h| - 1], |gs| - 1;
      if last.Void? {
        DonePicks(front, gs);
        assert DoneOps(h) == DoneOps(front);
      } else {
        assert Filled(h)[..n] == Filled(front);
        DonePicks(front, gs[..n]);
        if last.Done? {
          assert DoneOps(h)[..|DoneOps(front)|] == DoneOps(front);
        } else {
          assert DoneOps(h) == DoneOps(front);
        }
      }
    }
  }

  lemma {:induction false} NoneRefused(ops: seq<Op>, gs: seq<Given>)
    requires Picks(ops, gs) && forall i :: 0 <= i < |gs| ==> !gs[i].failed
    ensures |ops| == |gs| && forall i :: 0 <= i < |gs| ==> ops[i] == gs[i].op
    decreases |gs|
  {
    if |gs| > 0 {
      NoneRefused(ops[..|ops| - 1], gs[..|gs| - 1]);
    }
  }

  lemma FilledFront(h: History, gs: seq<Given>, n: nat)
    requires Holds(Filled(h), gs) && n <= |h|
    ensures |Filled(h[..n])| <= |gs| && Holds(Filled(h[..n]), gs[..|Filled(h[..n])|])
  {
    assert h == h[..n] + h[n..];
    FilledJoin(h[..n], h[n..]);
  }

  /** In every run, whatever its steps, failures and crashes: a read at the last sequence finds the
      last operation on its key, among those of the writers that have their answer, in the order
      they were handed in, less some of those told that Sync failed. */
  lemma ReadsWhatWasHanded(states: seq<State>, steps: seq<Step>, i: nat, zero: seq<File>, u: UserKey)
    returns (ops: seq<Op>)
    requires IsRun(states, steps) && i < |states| && ZeroListing(states[i], zero)
    ensures Answered(steps[..i]) <= |Handed(steps[..i])|
    ensures Picks(ops, Handed(steps[..i])[..Answered(steps[..i])])
    ensures Search(Layers(states[i], zero), u, states[i].lastSeq) == Latest(ops, u)
  {
    var h, n := states[i].spec.history, states[i].lastSeq;
    RunAgrees(states, steps, i);
    EveryRunReadsNewest(states, steps, i, zero, u, n);
    LookupIsLatest(h, u, n);
    FilledFront(h, Handed(steps[..i]), n);
    ops := DoneOps(h[..n]);
    DonePicks(h[..n], Handed(steps[..i])[..Answered(steps[..i])]);
  }

  // ----- Runs in which no Sync fails -----

  /** All batches, one after the other. */
  function Batches(steps: seq<Step>): seq<Op>
    decreases |steps|
  {
    if |steps| == 0 then []
    else
      Batches(steps[..|steps| - 1]) + (if steps[|steps| - 1].LogBatch? then steps[|steps| - 1].ops else [])
  }

  /** The batches logged before the last publication or recovery. */
  function Published(steps: seq<Step>): seq<Op>
    decreases |steps|
  {
    if |steps| == 0 then []
    else if steps[|steps| - 1].Publish? || steps[|steps| - 1].Crash? then Batches(steps)
    else Published(steps[..|steps| - 1])
  }

  ghost predicate SyncsWork(steps: seq<Step>) {
    forall i :: 0 <= i < |steps| ==> !steps[i].SyncFailed?
  }

  lemma {:induction false} HandedAreBatches(steps: seq<Step>)
    requires SyncsWork(steps)
    ensures Handed(steps) == Fresh(Batches(steps))
    ensures Answered(steps) == |Published(steps)| && Published(steps) <= Batches(steps)
    decreases |steps|
  {
    if |steps| > 0 {
      HandedAreBatches(steps[..|steps| - 1]);
    }
  }

  /** If no Sync fails, a read at the last sequence finds the last operation on its key in the
      concatenation of all batches published, or recovered, so far. */
  lemma ReadsLatestPublished(states: seq<State>, steps: seq<Step>, i: nat, zero: seq<File>, u: UserKey)
    requires IsRun(states, steps) && i < |states| && ZeroListing(states[i], zero) && SyncsWork(steps[..i])
    ensures Search(Layers(states[i], zero), u, states[i].lastSeq) == Latest(Published(steps[..i]), u)
  {
    var front := steps[..i];
    var ops := ReadsWhatWasHanded(states, steps, i, zero, u);
    HandedAreBatches(front);
    NoneRefused(ops, Handed(front)[..Answered(front)]);
    assert ops == Published(front);
  }

  // ----- Snapshots -----

  lemma FrontStays(st: State, step: Step, next: State, s: nat)
    requires Inv(st) && Next(st, step, next) && !step.Crash? && s <= st.lastSeq
    ensures s <= next.lastSeq && s <= |st.spec.history| && s <= |next.spec.history|
    ensures next.spec.history[..s] == st.spec.history[..s]
  {
    Unfold(st);
    OpenView(st);
    if !step.SyncFailed? {
      LsmRuns.HistoryGrows(st, step, next);
    }
  }

  lemma StaysHeld(st: State, step: Step, next: State, s: nat)
    requires Next(st, step, next) && !step.Crash? && step != Release(s) && s in st.snapshots
    ensures s in next.snapshots
  {
  }

  ghost predicate Undisturbed(steps: seq<Step>, s: nat, i: nat, j: nat)
    requires i <= j <= |steps|
  {
    forall k :: i <= k < j ==> !steps[k].Crash? && steps[k] != Release(s)
  }

  lemma {:induction false} SnapshotKept(states: seq<State>, steps: seq<Step>, i: nat, j: nat)
    requires IsRun(states, steps) && i < j < |states| && steps[i].Take?
    requires Undisturbed(steps, states[i].lastSeq, i, j)
    ensures var s := states[i].lastSeq;
            && s in states[j].snapshots && s <= states[j].lastSeq
            && s <= |states[i].spec.history| && s <= |states[j].spec.history|
            && states[j].spec.history[..s] == states[i].spec.history[..s]
    decreases j
  {
    var s, k := states[i].lastSeq, j - 1;
    LsmRuns.RunKeeps(states, steps, k);
    if i < k {
      SnapshotKept(states, steps, i, k);
      StaysHeld(states[k], steps[k], states[k + 1], s);
    }
    FrontStays(states[k], steps[k], states[k + 1], s);
  }

  /** A snapshot, until it is released, answers as the database did when it was taken. */
  lemma SnapshotReads(states: seq<State>, steps: seq<Step>, i: nat, j: nat, then': seq<File>, now: seq<File>,
                      u: UserKey)
    requires IsRun(states, steps) && i < j < |states| && steps[i].Take?
    requires Undisturbed(steps, states[i].lastSeq, i, j)
    requires ZeroListing(states[i], then') && ZeroListing(states[j], now)
    ensures states[i].lastSeq in states[j].snapshots
    ensures Search(Layers(states[j], now), u, states[i].lastSeq)
         == Search(Layers(states[i], then'), u, states[i].lastSeq)
  {
    var s := states[i].lastSeq;
    SnapshotKept(states, steps, i, j);
    EveryRunReadsNewest(states, steps, i, then', u, s);
    EveryRunReadsNewest(states, steps, j, now, u, s);
    LookupIsLatest(states[i].spec.history, u, s);
    LookupIsLatest(states[j].spec.history, u, s);
  }
}
