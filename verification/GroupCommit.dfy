/** Group commit: one writer logs and applies the batches of several. */
module GroupCommit {
  // Writers queue up, the front one logs and applies a prefix of the queue in one
  // record, and hands its status to the writers it served.  The mutex is free while
  // the record is written, so new writers arrive at any point.

  import opened Entries
  import Lsm

  type Writer = nat
  type Op = Lsm.Op

  datatype Status = Fine | Failed

  /** A call to Write: no batch asks for a memtable switch only. */
  datatype Request = Request(batch: Option<seq<Op>>, size: nat, sync: bool)

  type Requests = map<Writer, Request>

  function OpsOf(r: Request): seq<Op> {
    if r.batch.Some? then r.batch.value else []
  }

  predicate Known(reqs: Requests, ws: seq<Writer>) {
    forall i :: 0 <= i < |ws| ==> ws[i] in reqs
  }

  function BatchesOf(reqs: Requests, ws: seq<Writer>): seq<Op>
    requires Known(reqs, ws)
    decreases |ws|
  {
    if |ws| == 0 then [] else BatchesOf(reqs, ws[..|ws| - 1]) + OpsOf(reqs[ws[|ws| - 1]])
  }

  lemma BatchesStep(reqs: Requests, ws: seq<Writer>, i: nat)
    requires Known(reqs, ws) && i < |ws|
    ensures BatchesOf(reqs, ws[..i + 1]) == BatchesOf(reqs, ws[..i]) + OpsOf(reqs[ws[i]])
  {
    assert ws[..i + 1][..i] == ws[..i];
  }

  // ----- Choosing a group -----

  function SizeOf(reqs: Requests, ws: seq<Writer>): nat
    requires Known(reqs, ws)
    decreases |ws|
  {
    if |ws| == 0 then 0
    else
      var r := reqs[ws[|ws| - 1]];
      SizeOf(reqs, ws[..|ws| - 1]) + (if r.batch.Some? then r.size else 0)
  }

  lemma SizeStep(reqs: Requests, ws: seq<Writer>, i: nat)
    requires Known(reqs, ws) && i < |ws|
    ensures SizeOf(reqs, ws[..i + 1])
         == SizeOf(reqs, ws[..i]) + (if reqs[ws[i]].batch.Some? then reqs[ws[i]].size else 0)
  {
    assert ws[..i + 1][..i] == ws[..i];
  }

  /** A small leader is not slowed down by more than 128KB of followers. */
  function MaxSize(size: nat): nat {
    if size <= 131072 then size + 131072 else 1048576
  }

  /** The bytes of the batches up to writer `j`. */
  function SizeUpTo(reqs: Requests, queue: seq<Writer>, j: nat): nat
    requires Known(reqs, queue) && j < |queue|
  {
    SizeOf(reqs, queue[..j + 1])
  }

  /** Writer `j` of the queue cannot ride with the front one. */
  predicate Bars(reqs: Requests, queue: seq<Writer>, j: nat)
    requires Known(reqs, queue) && j < |queue|
  {
    var first, w := reqs[queue[0]], reqs[queue[j]];
    || (w.sync && !first.sync)
    || (w.batch.Some? && SizeUpTo(reqs, queue, j) > MaxSize(first.size))
  }

  /** The group is the longest prefix in which no follower is barred. */
  ghost predicate IsGroup(reqs: Requests, queue: seq<Writer>, n: nat)
    requires Known(reqs, queue)
  {
    && 1 <= n <= |queue|
    && (forall j :: 0 < j < n ==> !Bars(reqs, queue, j))
    && (n < |queue| ==> Bars(reqs, queue, n))
  }

  predicate Follows(reqs: Requests, queue: seq<Writer>, n: nat)
    requires Known(reqs, queue) && n <= |queue|
  {
    exists j :: 0 < j < n && reqs[queue[j]].batch.Some?
  }

  /** What the leader will log, and the temporary batch: only when some follower
      has a batch is the temporary one used. */
  ghost predicate Content(reqs: Requests, queue: seq<Writer>, n: nat, tmp: seq<Op>, updates: seq<Op>, tmp': seq<Op>,
                          shared: bool)
    requires Known(reqs, queue) && n <= |queue|
  {
    forall lock: Lock :: ContentBody(reqs, queue, n, tmp, updates, tmp', shared, lock)
  }

  ghost predicate ContentBody(reqs: Requests, queue: seq<Writer>, n: nat, tmp: seq<Op>, updates: seq<Op>,
                              tmp': seq<Op>, shared: bool, lock: Lock)
    requires Known(reqs, queue) && n <= |queue|
  {
    && shared == Follows(reqs, queue, n)
    && updates == (if shared then tmp + BatchesOf(reqs, queue[..n]) else BatchesOf(reqs, queue[..n]))
    && tmp' == (if shared then updates else tmp)
  }

  lemma LeaderAlone(reqs: Requests, queue: seq<Writer>, tmp: seq<Op>)
    requires Known(reqs, queue) && |queue| > 0 && reqs[queue[0]].batch.Some?
    ensures Content(reqs, queue, 1, tmp, reqs[queue[0]].batch.value, tmp, false)
  {
    BatchesStep(reqs, queue, 0);
  }

  /** Append a follower's batch, moving the leader's into the temporary one first. */
  method AppendFollower(reqs: Requests, queue: seq<Writer>, n: nat, ghost tmp: seq<Op>, updates: seq<Op>,
                        tmp': seq<Op>, shared: bool)
    returns (updates': seq<Op>)
    requires Known(reqs, queue) && 1 <= n < |queue| && reqs[queue[0]].batch.Some? && reqs[queue[n]].batch.Some?
    requires Content(reqs, queue, n, tmp, updates, tmp', shared)
    ensures Content(reqs, queue, n + 1, tmp, updates', updates', true)
  {
    assert ContentBody(reqs, queue, n, tmp, updates, tmp', shared, Lock);
    BatchesStep(reqs, queue, n);
    if shared {
      updates' := updates + reqs[queue[n]].batch.value;
    } else {
      OnlyLeader(reqs, queue, n);
      updates' := tmp' + reqs[queue[0]].batch.value + reqs[queue[n]].batch.value;
      assert updates' == tmp + BatchesOf(reqs, queue[..n + 1]);
    }
  }

  lemma NoBatchNoChange(reqs: Requests, queue: seq<Writer>, n: nat, tmp: seq<Op>, updates: seq<Op>, tmp': seq<Op>,
                        shared: bool)
    requires Known(reqs, queue) && 1 <= n < |queue| && reqs[queue[n]].batch.None?
    requires Content(reqs, queue, n, tmp, updates, tmp', shared)
    ensures Content(reqs, queue, n + 1, tmp, updates, tmp', shared)
  {
    assert ContentBody(reqs, queue, n, tmp, updates, tmp', shared, Lock);
    BatchesStep(reqs, queue, n);
  }

  /** BuildBatchGroup. */
  method BuildBatchGroup(reqs: Requests, queue: seq<Writer>, tmp: seq<Op>)
    returns (n: nat, updates: seq<Op>, tmp': seq<Op>, shared: bool)
    requires Known(reqs, queue) && |queue| > 0 && reqs[queue[0]].batch.Some?
    ensures IsGroup(reqs, queue, n) && Content(reqs, queue, n, tmp, updates, tmp', shared)
    ensures var size := reqs[queue[0]].size;
            && (forall j :: 0 < j < n && reqs[queue[j]].batch.Some? ==>
                  SizeUpTo(reqs, queue, j) <= if size <= 131072 then size + 131072 else 1048576)
            && (n < |queue| ==>
                  || (reqs[queue[n]].sync && !reqs[queue[0]].sync)
                  || (reqs[queue[n]].batch.Some?
                      && SizeUpTo(reqs, queue, n) > if size <= 131072 then size + 131072 else 1048576))
  {
    var first := reqs[queue[0]];
    var size := first.size;
    var max := MaxSize(size);
    SizeStep(reqs, queue, 0);
    LeaderAlone(reqs, queue, tmp);
    n, updates, tmp', shared := 1, first.batch.value, tmp, false;
    while n < |queue|
      invariant 1 <= n <= |queue| && Content(reqs, queue, n, tmp, updates, tmp', shared)
      invariant forall j :: 0 < j < n ==> !Bars(reqs, queue, j)
      invariant size == SizeOf(reqs, queue[..n])
    {
      var w := reqs[queue[n]];
      SizeStep(reqs, queue, n);
      if w.sync && !first.sync {
        break;
      }
      if w.batch.Some? {
        size := size + w.size;
        if size > max {
          break;
        }
        updates := AppendFollower(reqs, queue, n, tmp, updates, tmp', shared);
        tmp', shared := updates, true;
      } else {
        NoBatchNoChange(reqs, queue, n, tmp, updates, tmp', shared);
      }
      n := n + 1;
    }
    forall j | 0 < j < n && reqs[queue[j]].batch.Some? ensures SizeUpTo(reqs, queue, j) <= max {
      assert !Bars(reqs, queue, j);
    }
  }

  /** Until a follower brings a batch, the group's batches are the leader's. */
  lemma {:induction false} OnlyLeader(reqs: Requests, queue: seq<Writer>, n: nat)
    requires Known(reqs, queue) && 1 <= n <= |queue| && !Follows(reqs, queue, n)
    ensures BatchesOf(reqs, queue[..n]) == OpsOf(reqs[queue[0]])
    decreases n
  {
    BatchesStep(reqs, queue, n - 1);
    if n > 1 {
      assert reqs[queue[n - 1]].batch.None?;
      OnlyLeader(reqs, queue, n - 1);
    }
  }

  // ----- The protocol -----

  /** One round at the front of the queue and what became of it; `applied` is how many of the
      operations went into the memtable, if any were tried. */
  datatype Turn = Turn(grouped: bool, writers: seq<Writer>, first: nat, ops: seq<Op>, logged: bool, synced: bool,
                       applied: Option<nat>, status: Status)

  datatype Phase = Idle | Grouped | Logged | Inserted

  datatype Queue = Queue(
    requests: Requests,
    queue: seq<Writer>,
    lastSeq: nat,
    tmp: seq<Op>,
    phase: Phase,
    shared: bool,
    turn: Turn,
    outcome: map<Writer, Status>,
    log: seq<(nat, seq<Op>)>,
    mem: seq<(nat, seq<Op>)>,
    arrivals: seq<Writer>,
    turns: seq<Turn>)

  datatype Step =
    | Arrive(w: Writer, request: Request)
    | Pass(status: Status)
    | Begin(n: nat)
    | Append(recordOk: bool, syncOk: bool)
    | Insert(n: nat, ok: bool)
    | Finish

  function Everyone(ws: seq<Writer>): set<Writer> {
    set i | 0 <= i < |ws| :: ws[i]
  }

  function Served(outcome: map<Writer, Status>, ws: seq<Writer>, status: Status): map<Writer, Status> {
    outcome + map w | w in Everyone(ws) :: status
  }

  function Settle(q: Queue, t: Turn): Queue
    requires |t.writers| <= |q.queue|
  {
    q.(queue := q.queue[|t.writers|..], outcome := Served(q.outcome, t.writers, t.status), turns := q.turns + [t],
       lastSeq := q.lastSeq + |t.ops|, phase := Idle)
  }

  ghost predicate CanPass(q: Queue, status: Status) {
    && q.phase.Idle? && |q.queue| > 0 && q.queue[0] in q.requests
    && (status.Fine? ==> q.requests[q.queue[0]].batch.None?)
  }

  ghost predicate CanBegin(q: Queue, n: nat) {
    && q.phase.Idle? && |q.queue| > 0 && Known(q.requests, q.queue)
    && q.requests[q.queue[0]].batch.Some? && IsGroup(q.requests, q.queue, n)
  }

  function Started(q: Queue, n: nat): Queue
    requires Known(q.requests, q.queue) && n <= |q.queue|
  {
    var shared := Follows(q.requests, q.queue, n);
    var ops := BatchesOf(q.requests, q.queue[..n]);
    var updates := if shared then q.tmp + ops else ops;
    q.(phase := Grouped, shared := shared, tmp := if shared then updates else q.tmp,
       turn := Turn(true, q.queue[..n], q.lastSeq + 1, updates, false, false, None, Fine))
  }

  function Appended(q: Queue, recordOk: bool, syncOk: bool): Queue
    requires |q.turn.writers| > 0 && q.turn.writers[0] in q.requests
  {
    var sync := q.requests[q.turn.writers[0]].sync;
    var t := q.turn.(logged := recordOk, synced := recordOk && sync && syncOk,
                     status := if recordOk && (sync ==> syncOk) then Fine else Failed);
    q.(phase := Logged, turn := t, log := if recordOk then q.log + [(t.first, t.ops)] else q.log)
  }

  /** InsertInto, if the record was written: `n` operations go in before it ends or fails. */
  function Applied(q: Queue, n: nat, ok: bool): Queue
    requires n <= |q.turn.ops|
  {
    if q.turn.status.Fine? then
      q.(phase := Inserted, turn := q.turn.(applied := Some(n), status := if ok then Fine else Failed),
         mem := q.mem + [(q.turn.first, q.turn.ops[..n])])
    else
      q.(phase := Inserted)
  }

  ghost predicate Next(q: Queue, step: Step, q': Queue) {
    match step
    case Arrive(w, r) =>
      w !in q.requests && q' == q.(requests := q.requests[w := r], queue := q.queue + [w], arrivals := q.arrivals + [w])
    case Pass(status) =>
      CanPass(q, status) && q' == Settle(q, Passed(q, status))
    case Begin(n) => CanBegin(q, n) && q' == Started(q, n)
    case Append(recordOk, syncOk) =>
      q.phase.Grouped? && |q.turn.writers| > 0 && q.turn.writers[0] in q.requests && q' == Appended(q, recordOk, syncOk)
    case Insert(n, ok) =>
      q.phase.Logged? && n <= |q.turn.ops| && (ok ==> n == |q.turn.ops|) && q' == Applied(q, n, ok)
    case Finish =>
      && q.phase.Inserted? && |q.turn.writers| <= |q.queue|
      && q' == Settle(q, q.turn).(tmp := if q.shared then [] else q.tmp)
  }

  function Opened(): Queue {
    Queue(map[], [], 0, [], Idle, false, Turn(false, [], 1, [], false, false, None, Fine), map[], [], [], [], [])
  }

  // ----- What every interleaving keeps -----

  ghost predicate Distinct(ws: seq<Writer>) {
    forall i, j :: 0 <= i < j < |ws| ==> ws[i] != ws[j]
  }

  function WritersOf(turns: seq<Turn>): seq<Writer>
    decreases |turns|
  {
    if |turns| == 0 then [] else WritersOf(turns[..|turns| - 1]) + turns[|turns| - 1].writers
  }

  /** What a turn puts into the log, or into the memtable. */
  function Record(t: Turn, memtable: bool): seq<(nat, seq<Op>)> {
    if !memtable then if t.logged then [(t.first, t.ops)] else []
    else if t.applied.Some? && t.applied.value <= |t.ops| then [(t.first, t.ops[..t.applied.value])]
    else []
  }

  /** The records of the turns that reached the log, or the memtable, in order. */
  function Records(turns: seq<Turn>, memtable: bool): seq<(nat, seq<Op>)>
    decreases |turns|
  {
    if |turns| == 0 then [] else Records(turns[..|turns| - 1], memtable) + Record(turns[|turns| - 1], memtable)
  }

  ghost predicate SyncOk(reqs: Requests, ws: seq<Writer>)
    requires Known(reqs, ws)
  {
    forall i :: 0 <= i < |ws| && reqs[ws[i]].sync ==> reqs[ws[0]].sync
  }

  /** What a finished turn did for its writers: nothing is applied that was not logged; a fine
      group is logged and applied as a whole; no sync write rides a non-sync leader; a fine
      sync group is on disk. */
  ghost predicate TurnOk(reqs: Requests, t: Turn) {
    && |t.writers| > 0 && Known(reqs, t.writers) && SyncOk(reqs, t.writers)
    && (t.applied.Some? ==> t.logged && t.applied.value <= |t.ops|)
    && (if t.grouped
        then t.ops == BatchesOf(reqs, t.writers) && (t.status.Fine? ==> t.applied == Some(|t.ops|))
             && (t.status.Fine? && reqs[t.writers[0]].sync ==> t.synced)
        else t.ops == [] && !t.logged && |t.writers| == 1 && (t.status.Fine? ==> reqs[t.writers[0]].batch.None?))
  }

  ghost predicate Contiguous(turns: seq<Turn>, lastSeq: nat) {
    && (forall i :: 0 <= i < |turns| - 1 ==> turns[i + 1].first == turns[i].first + |turns[i].ops|)
    && (|turns| > 0 ==> turns[0].first == 1)
    && lastSeq + 1 == (if |turns| == 0 then 1 else turns[|turns| - 1].first + |turns[|turns| - 1].ops|)
  }

  /** The turn in progress: the group is still at the front of the queue. */
  ghost predicate Running(q: Queue) {
    var t := q.turn;
    && t.grouped && 0 < |t.writers| <= |q.queue| && t.writers == q.queue[..|t.writers|]
    && Known(q.requests, t.writers) && t.first == q.lastSeq + 1 && t.ops == BatchesOf(q.requests, t.writers)
    && SyncOk(q.requests, t.writers)
    && q.tmp == (if q.shared then t.ops else [])
    && (q.phase.Grouped? ==> t == Turn(true, t.writers, t.first, t.ops, false, false, None, Fine))
    && (q.phase.Logged? ==> t.applied.None?)
    && (q.phase.Logged? || q.phase.Inserted? ==>
          (t.status.Fine? ==> t.logged && (q.requests[t.writers[0]].sync ==> t.synced)))
    && (t.applied.Some? ==> t.logged && t.applied.value <= |t.ops|)
    && (q.phase.Inserted? && t.status.Fine? ==> t.applied == Some(|t.ops|))
  }

  ghost predicate Told(outcome: map<Writer, Status>, turns: seq<Turn>) {
    forall i, k :: 0 <= i < |turns| && 0 <= k < |turns[i].writers| ==>
      turns[i].writers[k] in outcome && outcome[turns[i].writers[k]] == turns[i].status
  }

  ghost predicate AllOk(reqs: Requests, turns: seq<Turn>) {
    forall i :: 0 <= i < |turns| ==> TurnOk(reqs, turns[i])
  }

  datatype Promise = Registered | Order | Numbers | Promises | Statuses | Contents | Front

  ghost predicate Keeps(q: Queue, p: Promise) {
    match p
    case Registered => Distinct(q.arrivals) && q.requests.Keys == Everyone(q.arrivals)
    case Order => q.arrivals == WritersOf(q.turns) + q.queue
    case Numbers => Contiguous(q.turns, q.lastSeq)
    case Promises => AllOk(q.requests, q.turns)
    case Statuses => q.outcome.Keys == Everyone(WritersOf(q.turns)) && Told(q.outcome, q.turns)
    case Contents =>
      && q.log == Records(q.turns, false) + (if q.phase.Idle? then [] else Record(q.turn, false))
      && q.mem == Records(q.turns, true) + (if q.phase.Idle? then [] else Record(q.turn, true))
    case Front => Known(q.requests, q.queue) && if q.phase.Idle? then q.tmp == [] else Running(q)
  }

  ghost predicate Inv(q: Queue) {
    forall p: Promise :: Keeps(q, p)
  }

  // ----- Each step keeps it -----

  lemma {:induction false} BatchesGrow(reqs: Requests, more: Requests, ws: seq<Writer>)
    requires Known(reqs, ws) && forall w :: w in reqs ==> w in more && more[w] == reqs[w]
    ensures Known(more, ws) && BatchesOf(more, ws) == BatchesOf(reqs, ws)
    decreases |ws|
  {
    if |ws| > 0 {
      BatchesGrow(reqs, more, ws[..|ws| - 1]);
    }
  }

  lemma AllGrow(reqs: Requests, more: Requests, turns: seq<Turn>)
    requires AllOk(reqs, turns) && forall w :: w in reqs ==> w in more && more[w] == reqs[w]
    ensures AllOk(more, turns)
  {
    forall i | 0 <= i < |turns| ensures TurnOk(more, turns[i]) {
      BatchesGrow(reqs, more, turns[i].writers);
    }
  }

  lemma EveryoneJoin(a: seq<Writer>, b: seq<Writer>)
    ensures Everyone(a + b) == Everyone(a) + Everyone(b)
  {
    forall w | w in Everyone(a) + Everyone(b) ensures w in Everyone(a + b) {
      if w in Everyone(a) {
        var i :| 0 <= i < |a| && a[i] == w;
        assert (a + b)[i] == w;
      } else {
        var i :| 0 <= i < |b| && b[i] == w;
        assert (a + b)[|a| + i] == w;
      }
    }
  }

  lemma KeepsRegistered(q: Queue, step: Step, q': Queue)
    requires Keeps(q, Registered) && Next(q, step, q')
    ensures Keeps(q', Registered)
  {
    if step.Arrive? {
      EveryoneJoin(q.arrivals, [step.w]);
      assert Everyone([step.w]) == {step.w} by {
        assert [step.w][0] == step.w;
      }
      assert forall i :: 0 <= i < |q.arrivals| ==> q.arrivals[i] in Everyone(q.arrivals);
    }
  }

  lemma TurnsStep(turns: seq<Turn>, t: Turn)
    ensures WritersOf(turns + [t]) == WritersOf(turns) + t.writers
    ensures forall m :: Records(turns + [t], m) == Records(turns, m) + Record(t, m)
  {
    assert (turns + [t])[..|turns|] == turns;
  }

  /** The turn can be settled: it is about the front of the queue, and next in number. */
  ghost predicate Ready(q: Queue, t: Turn) {
    && TurnOk(q.requests, t) && |t.writers| <= |q.queue| && t.writers == q.queue[..|t.writers|]
    && t.first == q.lastSeq + 1
  }

  function Passed(q: Queue, status: Status): Turn
    requires |q.queue| > 0
  {
    Turn(false, [q.queue[0]], q.lastSeq + 1, [], false, false, None, status)
  }

  lemma PassReady(q: Queue, status: Status)
    requires CanPass(q, status)
    ensures Ready(q, Passed(q, status))
  {
  }

  lemma FinishReady(q: Queue)
    requires Keeps(q, Front) && q.phase.Inserted?
    ensures Ready(q, q.turn)
  {
  }

  lemma SettleOrder(q: Queue, t: Turn)
    requires Keeps(q, Order) && Ready(q, t)
    ensures Keeps(Settle(q, t), Order)
  {
    TurnsStep(q.turns, t);
    assert q.queue == t.writers + q.queue[|t.writers|..];
  }

  lemma KeepsOrder(q: Queue, step: Step, q': Queue)
    requires Keeps(q, Order) && Keeps(q, Front) && Next(q, step, q')
    ensures Keeps(q', Order)
  {
    match step
    case Arrive(w, r) =>
      assert q'.arrivals == WritersOf(q.turns) + q'.queue;
    case Pass(status) =>
      PassReady(q, status);
      SettleOrder(q, Passed(q, status));
    case Finish =>
      FinishReady(q);
      SettleOrder(q, q.turn);
    case _ =>
  }

  lemma KeepsNumbers(q: Queue, step: Step, q': Queue)
    requires Keeps(q, Numbers) && Keeps(q, Front) && Next(q, step, q')
    ensures Keeps(q', Numbers)
  {
  }

  lemma KeepsPromises(q: Queue, step: Step, q': Queue)
    requires Keeps(q, Promises) && Keeps(q, Front) && Next(q, step, q')
    ensures Keeps(q', Promises)
  {
    match step
    case Arrive(w, r) => AllGrow(q.requests, q'.requests, q.turns);
    case Pass(status) => PassReady(q, status);
    case Finish => FinishReady(q);
    case _ =>
  }

  lemma {:induction false} WriterOfTurn(turns: seq<Turn>, i: nat, k: nat)
    requires i < |turns| && k < |turns[i].writers|
    ensures turns[i].writers[k] in Everyone(WritersOf(turns))
    decreases |turns|
  {
    var rest, t := turns[..|turns| - 1], turns[|turns| - 1];
    EveryoneJoin(WritersOf(rest), t.writers);
    if i < |turns| - 1 {
      WriterOfTurn(rest, i, k);
    }
  }

  lemma FrontIsNew(q: Queue, t: Turn)
    requires Keeps(q, Registered) && Keeps(q, Order) && Ready(q, t)
    ensures Everyone(t.writers) !! Everyone(WritersOf(q.turns))
  {
    var done := WritersOf(q.turns);
    assert forall i :: 0 <= i < |done| ==> q.arrivals[i] == done[i];
    assert forall j :: 0 <= j < |t.writers| ==> q.arrivals[|done| + j] == t.writers[j];
  }

  lemma SettleStatuses(q: Queue, t: Turn)
    requires Keeps(q, Registered) && Keeps(q, Order) && Keeps(q, Statuses) && Ready(q, t)
    ensures Keeps(Settle(q, t), Statuses)
  {
    var q' := Settle(q, t);
    TurnsStep(q.turns, t);
    EveryoneJoin(WritersOf(q.turns), t.writers);
    FrontIsNew(q, t);
    forall i, k | 0 <= i < |q'.turns| && 0 <= k < |q'.turns[i].writers|
      ensures q'.turns[i].writers[k] in q'.outcome && q'.outcome[q'.turns[i].writers[k]] == q'.turns[i].status
    {
      if i < |q.turns| {
        WriterOfTurn(q.turns, i, k);
      }
    }
  }

  lemma KeepsStatuses(q: Queue, step: Step, q': Queue)
    requires Keeps(q, Registered) && Keeps(q, Order) && Keeps(q, Statuses) && Keeps(q, Front) && Next(q, step, q')
    ensures Keeps(q', Statuses)
  {
    match step
    case Pass(status) =>
      PassReady(q, status);
      SettleStatuses(q, Passed(q, status));
    case Finish =>
      FinishReady(q);
      SettleStatuses(q, q.turn);
    case _ =>
  }

  lemma SettleContents(q: Queue, t: Turn, q': Queue)
    requires q'.turns == q.turns + [t] && q'.log == q.log && q'.mem == q.mem && q'.phase.Idle?
    requires q.log == Records(q.turns, false) + Record(t, false)
    requires q.mem == Records(q.turns, true) + Record(t, true)
    ensures Keeps(q', Contents)
  {
    TurnsStep(q.turns, t);
    assert q'.log == Records(q'.turns, false) && q'.mem == Records(q'.turns, true);
  }

  lemma KeepsContents(q: Queue, step: Step, q': Queue)
    requires Keeps(q, Contents) && Keeps(q, Front) && Next(q, step, q')
    ensures Keeps(q', Contents)
  {
    match step
    case Arrive(_, _) =>
    case Pass(status) => SettleContents(q, Passed(q, status), q');
    case Begin(_) =>
    case Append(recordOk, syncOk) => AppendContents(q, recordOk, syncOk);
    case Insert(n, ok) => InsertContents(q, n, ok);
    case Finish => SettleContents(q, q.turn, q');
  }

  lemma AppendContents(q: Queue, recordOk: bool, syncOk: bool)
    requires Keeps(q, Contents) && Keeps(q, Front) && q.phase.Grouped?
    ensures Keeps(Appended(q, recordOk, syncOk), Contents)
  {
    assert Record(q.turn, false) == [] && Record(q.turn, true) == [];
  }

  lemma InsertContents(q: Queue, n: nat, ok: bool)
    requires Keeps(q, Contents) && Keeps(q, Front) && q.phase.Logged? && n <= |q.turn.ops|
    ensures Keeps(Applied(q, n, ok), Contents)
  {
    assert Record(q.turn, true) == [];
  }

  lemma GroupSync(q: Queue, n: nat)
    requires CanBegin(q, n)
    ensures SyncOk(q.requests, q.queue[..n])
  {
    var ws := q.queue[..n];
    forall i | 0 <= i < |ws| && q.requests[ws[i]].sync ensures q.requests[ws[0]].sync {
      assert i > 0 ==> !Bars(q.requests, q.queue, i);
    }
  }

  lemma ArriveFront(q: Queue, w: Writer, r: Request, q': Queue)
    requires Keeps(q, Front) && Next(q, Arrive(w, r), q')
    ensures Keeps(q', Front)
  {
    if !q.phase.Idle? {
      BatchesGrow(q.requests, q'.requests, q.turn.writers);
      assert q'.queue[..|q.turn.writers|] == q.queue[..|q.turn.writers|];
    }
  }

  lemma BeginFront(q: Queue, n: nat, q': Queue)
    requires Keeps(q, Front) && Next(q, Begin(n), q')
    ensures Keeps(q', Front)
  {
    GroupSync(q, n);
    assert q'.turn.ops == BatchesOf(q.requests, q.queue[..n]);
  }

  lemma KeepsFront(q: Queue, step: Step, q': Queue)
    requires Keeps(q, Front) && Next(q, step, q')
    ensures Keeps(q', Front)
  {
    match step
    case Arrive(w, r) => ArriveFront(q, w, r, q');
    case Begin(n) => BeginFront(q, n, q');
    case _ =>
  }

  lemma StepKeeps(q: Queue, step: Step, q': Queue)
    requires Inv(q) && Next(q, step, q')
    ensures Inv(q')
  {
    forall p: Promise ensures Keeps(q', p) {
      assert Keeps(q, p) && Keeps(q, Registered) && Keeps(q, Order) && Keeps(q, Front);
      match p
      case Registered => KeepsRegistered(q, step, q');
      case Order => KeepsOrder(q, step, q');
      case Numbers => KeepsNumbers(q, step, q');
      case Promises => KeepsPromises(q, step, q');
      case Statuses => KeepsStatuses(q, step, q');
      case Contents => KeepsContents(q, step, q');
      case Front => KeepsFront(q, step, q');
    }
  }

  ghost predicate IsRun(qs: seq<Queue>, steps: seq<Step>) {
    && |qs| == |steps| + 1 && qs[0] == Opened()
    && forall i :: 0 <= i < |steps| ==> Next(qs[i], steps[i], qs[i + 1])
  }

  /** Every interleaving of writers, leaders and failures. */
  lemma {:induction false} RunKeeps(qs: seq<Queue>, steps: seq<Step>, i: nat)
    requires IsRun(qs, steps) && i < |qs|
    ensures Inv(qs[i])
    decreases i
  {
    if i == 0 {
      forall p: Promise ensures Keeps(qs[0], p) {
        match p case _ =>
      }
    } else {
      RunKeeps(qs, steps, i - 1);
      StepKeeps(qs[i - 1], steps[i - 1], qs[i]);
    }
  }

  // ----- What the writers are told -----

  /** Every write to disk and memtable since the group was formed went well; `sync` says whether
      one to disk had to be synced. */
  predicate AllWell(steps: seq<Step>, sync: bool)
    decreases |steps|
  {
    if |steps| == 0 then true
    else
      var front, last := steps[..|steps| - 1], steps[|steps| - 1];
      match last
      case Arrive(_, _) => AllWell(front, sync)
      case Append(recordOk, syncOk) => AllWell(front, sync) && recordOk && (sync ==> syncOk)
      case Insert(_, ok) => AllWell(front, sync) && ok
      case _ => true
  }

  /** How many writers the group has that was formed last. */
  function GroupSize(steps: seq<Step>): nat
    decreases |steps|
  {
    if |steps| == 0 then 0
    else
      match steps[|steps| - 1]
      case Begin(n) => n
      case _ => GroupSize(steps[..|steps| - 1])
  }

  ghost predicate Traces(q: Queue, steps: seq<Step>) {
    !q.phase.Idle? ==>
      && |q.turn.writers| == GroupSize(steps) > 0 && q.turn.writers[0] in q.requests
      && (q.turn.status.Fine? <==> AllWell(steps, q.requests[q.turn.writers[0]].sync))
  }

  lemma StepTraces(q: Queue, steps: seq<Step>, step: Step, q': Queue)
    requires Traces(q, steps) && Keeps(q, Front) && Next(q, step, q')
    ensures Traces(q', steps + [step])
  {
    assert (steps + [step])[..|steps|] == steps;
  }

  lemma {:induction false} RunTraces(qs: seq<Queue>, steps: seq<Step>, i: nat)
    requires IsRun(qs, steps) && i < |qs|
    ensures Traces(qs[i], steps[..i])
    decreases i
  {
    if i > 0 {
      RunTraces(qs, steps, i - 1);
      RunKeeps(qs, steps, i - 1);
      assert Keeps(qs[i - 1], Front);
      assert steps[..i] == steps[..i - 1] + [steps[i - 1]];
      StepTraces(qs[i - 1], steps[..i - 1], steps[i - 1], qs[i]);
    }
  }

  /** The group at the front of the queue is done: its writers are told that all is well if and only
      if it is, and no one else is told anything. */
  ghost predicate Answers(q: Queue, n: nat, well: bool, q': Queue) {
    && 0 < n <= |q.queue| && q'.queue == q.queue[n..]
    && (forall k :: 0 <= k < n ==> q.queue[k] in q'.outcome && (q'.outcome[q.queue[k]].Fine? <==> well))
    && (forall w :: w !in q.queue[..n] ==> (w in q'.outcome <==> w in q.outcome))
    && (forall w :: w !in q.queue[..n] && w in q.outcome ==> q'.outcome[w] == q.outcome[w])
  }

  /** Its record is the last one in log and memtable. */
  ghost predicate Lasting(q: Queue, n: nat, q': Queue)
    requires n <= |q.queue| && Known(q.requests, q.queue[..n])
  {
    var record := (q.lastSeq + 1, BatchesOf(q.requests, q.queue[..n]));
    |q'.log| > 0 && q'.log[|q'.log| - 1] == record && |q'.mem| > 0 && q'.mem[|q'.mem| - 1] == record
  }

  lemma FinishAnswers(q: Queue, q': Queue)
    requires Keeps(q, Front) && Next(q, Finish, q')
    ensures Answers(q, |q.turn.writers|, q.turn.status.Fine?, q')
  {
    var n := |q.turn.writers|;
    forall k | 0 <= k < n ensures q.queue[k] in q'.outcome && q'.outcome[q.queue[k]] == q.turn.status {
      assert q.turn.writers[k] == q.queue[k] && q.queue[k] in Everyone(q.turn.writers);
    }
    forall w | w !in q.queue[..n] ensures w !in Everyone(q.turn.writers) {
    }
  }

  lemma FineLasts(q: Queue, q': Queue)
    requires Keeps(q, Front) && Keeps(q, Contents) && Next(q, Finish, q') && q.turn.status.Fine?
    ensures Lasting(q, |q.turn.writers|, q')
  {
    assert q.turn.ops[..|q.turn.ops|] == q.turn.ops;
  }

  /** In every run, when a group finishes, its writers are told that their write is fine if and only
      if the record was written, synced if the leader asked for it, and every operation went into
      the memtable; and then the operations of exactly these writers are in log and memtable. */
  lemma ToldFineIff(qs: seq<Queue>, steps: seq<Step>, i: nat)
    requires IsRun(qs, steps) && i < |steps| && steps[i].Finish?
    ensures var q, n := qs[i], GroupSize(steps[..i]);
            && 0 < n <= |q.queue| && Known(q.requests, q.queue[..n])
            && (var well := AllWell(steps[..i], q.requests[q.queue[0]].sync);
                Answers(q, n, well, qs[i + 1]) && (well ==> Lasting(q, n, qs[i + 1])))
  {
    RunKeeps(qs, steps, i);
    RunTraces(qs, steps, i);
    assert Keeps(qs[i], Front) && Keeps(qs[i], Contents);
    FinishAnswers(qs[i], qs[i + 1]);
    if qs[i].turn.status.Fine? {
      FineLasts(qs[i], qs[i + 1]);
    }
  }

  /** A writer that brings no batch, or finds no room, is told just that. */
  lemma PassAnswers(qs: seq<Queue>, steps: seq<Step>, i: nat)
    requires IsRun(qs, steps) && i < |steps| && steps[i].Pass?
    ensures Answers(qs[i], 1, steps[i].status.Fine?, qs[i + 1])
    ensures qs[i + 1].log == qs[i].log && qs[i + 1].mem == qs[i].mem && qs[i + 1].lastSeq == qs[i].lastSeq
  {
    var q := qs[i];
    assert Next(q, steps[i], qs[i + 1]);
    assert [q.queue[0]] == q.queue[..1] && q.queue[..1][0] in Everyone([q.queue[0]]);
    forall w | w !in q.queue[..1] ensures w !in Everyone([q.queue[0]]) {
    }
  }

  // ----- What that means for the writers -----

  /** The batches of the writers that were told "fine", in the order given. */
  function FineOps(reqs: Requests, outcome: map<Writer, Status>, ws: seq<Writer>): seq<Op>
    requires Known(reqs, ws) && forall i :: 0 <= i < |ws| ==> ws[i] in outcome
    decreases |ws|
  {
    if |ws| == 0 then []
    else
      var w := ws[|ws| - 1];
      FineOps(reqs, outcome, ws[..|ws| - 1]) + (if outcome[w].Fine? then OpsOf(reqs[w]) else [])
  }

  function Flat(records: seq<(nat, seq<Op>)>): seq<Op>
    decreases |records|
  {
    if |records| == 0 then [] else Flat(records[..|records| - 1]) + records[|records| - 1].1
  }

  lemma {:induction false} FineSplit(reqs: Requests, outcome: map<Writer, Status>, a: seq<Writer>, b: seq<Writer>)
    requires Known(reqs, a + b) && forall i :: 0 <= i < |a + b| ==> (a + b)[i] in outcome
    ensures Known(reqs, a) && Known(reqs, b)
    ensures forall i :: 0 <= i < |a| ==> a[i] in outcome
    ensures forall i :: 0 <= i < |b| ==> b[i] in outcome
    ensures FineOps(reqs, outcome, a + b) == FineOps(reqs, outcome, a) + FineOps(reqs, outcome, b)
    decreases |b|
  {
    assert forall i :: 0 <= i < |a| ==> a[i] == (a + b)[i];
    assert forall i :: 0 <= i < |b| ==> b[i] == (a + b)[|a| + i];
    if |b| == 0 {
      assert a + b == a;
    } else {
      var b' := b[..|b| - 1];
      assert (a + b)[..|a + b| - 1] == a + b';
      FineSplit(reqs, outcome, a, b');
    }
  }

  lemma {:induction false} FineTurn(reqs: Requests, outcome: map<Writer, Status>, ws: seq<Writer>, status: Status)
    requires Known(reqs, ws) && forall i :: 0 <= i < |ws| ==> ws[i] in outcome && outcome[ws[i]] == status
    ensures FineOps(reqs, outcome, ws) == if status.Fine? then BatchesOf(reqs, ws) else []
    decreases |ws|
  {
    if |ws| > 0 {
      FineTurn(reqs, outcome, ws[..|ws| - 1], status);
    }
  }

  /** What of a failed group is in the memtable all the same. */
  function Spill(t: Turn): seq<Op> {
    if t.status.Fine? || t.applied.None? || t.applied.value > |t.ops| then [] else t.ops[..t.applied.value]
  }

  function Spilled(turns: seq<Turn>): nat
    decreases |turns|
  {
    if |turns| == 0 then 0 else Spilled(turns[..|turns| - 1]) + |Spill(turns[|turns| - 1])|
  }

  /** Turn by turn: the batches of a fine group, or as much of a failed one as went in. */
  function MemOps(reqs: Requests, turns: seq<Turn>): seq<Op>
    requires AllKnown(reqs, turns)
    decreases |turns|
  {
    if |turns| == 0 then []
    else
      var t := turns[|turns| - 1];
      MemOps(reqs, turns[..|turns| - 1]) + (if t.status.Fine? then BatchesOf(reqs, t.writers) else Spill(t))
  }

  predicate AllKnown(reqs: Requests, turns: seq<Turn>) {
    forall i :: 0 <= i < |turns| ==> Known(reqs, turns[i].writers)
  }

  lemma {:induction false} FlatIsMem(reqs: Requests, turns: seq<Turn>)
    requires AllOk(reqs, turns)
    ensures AllKnown(reqs, turns) && Flat(Records(turns, true)) == MemOps(reqs, turns)
    decreases |turns|
  {
    assert forall i :: 0 <= i < |turns| ==> TurnOk(reqs, turns[i]);
    if |turns| > 0 {
      var rest, t := turns[..|turns| - 1], turns[|turns| - 1];
      FlatIsMem(reqs, rest);
      TurnFlat(reqs, t, Records(rest, true));
    }
  }

  lemma {:induction false} MemIsFine(reqs: Requests, outcome: map<Writer, Status>, turns: seq<Turn>)
    requires AllOk(reqs, turns) && AllKnown(reqs, turns) && Told(outcome, turns)
    ensures Known(reqs, WritersOf(turns)) && forall i :: 0 <= i < |WritersOf(turns)| ==> WritersOf(turns)[i] in outcome
    ensures |MemOps(reqs, turns)| == |FineOps(reqs, outcome, WritersOf(turns))| + Spilled(turns)
    ensures Spilled(turns) == 0 ==> MemOps(reqs, turns) == FineOps(reqs, outcome, WritersOf(turns))
    decreases |turns|
  {
    if |turns| > 0 {
      var rest, t := turns[..|turns| - 1], turns[|turns| - 1];
      MemIsFine(reqs, outcome, rest);
      FineSplit(reqs, outcome, WritersOf(rest), t.writers);
      FineTurn(reqs, outcome, t.writers, t.status);
    }
  }

  lemma TurnFlat(reqs: Requests, t: Turn, before: seq<(nat, seq<Op>)>)
    requires TurnOk(reqs, t)
    ensures Flat(before + Record(t, true))
         == Flat(before) + (if t.status.Fine? then BatchesOf(reqs, t.writers) else Spill(t))
  {
    if t.applied.Some? {
      var all := before + Record(t, true);
      assert all[..|all| - 1] == before;
      assert t.status.Fine? ==> t.ops[..|t.ops|] == t.ops;
    } else {
      assert before + [] == before;
      if t.status.Fine? {
        BatchesStep(reqs, t.writers, 0);
        assert t.writers[..0] == [] && t.writers[..1] == t.writers;
      }
    }
  }

  /** Between groups, the memtable holds, turn by turn, the batches of the groups that were
      told "fine" and as much of the others as went in before the failure.  So it holds exactly
      the batches of the writers told "fine", each once, in the order the writers queued up, if
      and only if no insertion failed half way. */
  lemma AppliedInOrder(q: Queue)
    requires Inv(q) && q.phase.Idle?
    ensures AllKnown(q.requests, q.turns) && Flat(q.mem) == MemOps(q.requests, q.turns)
    ensures var settled := WritersOf(q.turns);
            && settled <= q.arrivals && Distinct(settled) && Known(q.requests, settled)
            && (forall i :: 0 <= i < |settled| ==> settled[i] in q.outcome)
            && (Flat(q.mem) == FineOps(q.requests, q.outcome, settled) <==> Spilled(q.turns) == 0)
  {
    SettledFirst(q);
    SettledApplied(q);
    assert Keeps(q, Promises) && Keeps(q, Statuses);
    FlatIsMem(q.requests, q.turns);
    MemIsFine(q.requests, q.outcome, q.turns);
  }

  function OneWriter(op: Op): Queue {
    Opened().(requests := map[0 := Request(Some([op, op]), 2, false)], queue := [0], arrivals := [0])
  }

  lemma SpillBegins(op: Op)
    ensures var q := OneWriter(op);
            && Next(q, Begin(1), Started(q, 1))
            && Started(q, 1).turn == Turn(true, [0], 1, [op, op], false, false, None, Fine)
  {
    var q := OneWriter(op);
    assert [0][..1] == [0] && [0][..0] == [];
    BatchesStep(q.requests, [0], 0);
  }

  lemma SpillInserts(q: Queue, op: Op)
    requires q.turn == Turn(true, [0], 1, [op, op], false, false, None, Fine) && q.phase.Grouped? && !q.shared
    requires q.requests == map[0 := Request(Some([op, op]), 2, false)] && q.mem == [] && |q.queue| > 0
    ensures var logged := Appended(q, true, true);
            var half := Applied(logged, 1, false);
            && Next(q, Append(true, true), logged) && Next(logged, Insert(1, false), half)
            && Next(half, Finish, Settle(half, half.turn))
            && half.turn == Turn(true, [0], 1, [op, op], true, false, Some(1), Failed) && half.mem == [(1, [op])]
  {
    assert [op, op][..1] == [op];
  }

  lemma FiveSteps(qs: seq<Queue>, steps: seq<Step>)
    requires |qs| == 6 && |steps| == 5 && qs[0] == Opened()
    requires Next(qs[0], steps[0], qs[1]) && Next(qs[1], steps[1], qs[2]) && Next(qs[2], steps[2], qs[3])
    requires Next(qs[3], steps[3], qs[4]) && Next(qs[4], steps[4], qs[5])
    ensures IsRun(qs, steps)
  {
    forall i | 0 <= i < 5 ensures Next(qs[i], steps[i], qs[i + 1]) {
      assert i == 0 || i == 1 || i == 2 || i == 3 || i == 4;
    }
  }

  /** One writer's two operations are logged; the first goes into the memtable and the second
      does not.  The writer is told so, and the memtable keeps the first. */
  lemma SpillExample(op: Op) returns (qs: seq<Queue>, steps: seq<Step>)
    ensures IsRun(qs, steps)
    ensures var q := qs[|steps|];
            && q.phase.Idle? && 0 in q.outcome && q.outcome[0].Failed?
            && Flat(q.mem) == [op] && Spilled(q.turns) == 1
  {
    var one := OneWriter(op);
    SpillBegins(op);
    var begun := Started(one, 1);
    SpillInserts(begun, op);
    var logged := Appended(begun, true, true);
    var half := Applied(logged, 1, false);
    var done := Settle(half, half.turn);
    SpillEnds(half, done, op);
    steps := [Arrive(0, Request(Some([op, op]), 2, false)), Begin(1), Append(true, true), Insert(1, false), Finish];
    qs := [Opened(), one, begun, logged, half, done];
    FiveSteps(qs, steps);
  }

  lemma SpillEnds(q: Queue, q': Queue, op: Op)
    requires q.turn == Turn(true, [0], 1, [op, op], true, false, Some(1), Failed) && |q.queue| > 0
    requires q.turns == [] && q.mem == [(1, [op])] && q' == Settle(q, q.turn)
    ensures 0 in q'.outcome && q'.outcome[0].Failed? && Flat(q'.mem) == [op] && Spilled(q'.turns) == 1
  {
    assert [0][0] == 0 && 0 in Everyone([0]);
    assert q'.mem[..0] == [] && q'.turns[..0] == [] && [op, op][..1] == [op];
  }

  lemma SettledFirst(q: Queue)
    requires Inv(q)
    ensures WritersOf(q.turns) <= q.arrivals && Distinct(WritersOf(q.turns))
  {
    assert Keeps(q, Registered) && Keeps(q, Order);
    var settled := WritersOf(q.turns);
    assert forall i :: 0 <= i < |settled| ==> settled[i] == q.arrivals[i];
  }

  lemma SettledApplied(q: Queue)
    requires Inv(q) && q.phase.Idle?
    ensures q.mem == Records(q.turns, true)
  {
    assert Keeps(q, Contents);
  }

  /** Records below `bound`, one after the other. */
  ghost predicate Ascends(records: seq<(nat, seq<Op>)>, bound: nat) {
    && (forall i, j :: 0 <= i < j < |records| ==> records[i].0 + |records[i].1| <= records[j].0)
    && (forall i :: 0 <= i < |records| ==> records[i].0 + |records[i].1| <= bound)
  }

  lemma {:induction false} FirstPositive(turns: seq<Turn>, lastSeq: nat, i: nat)
    requires Contiguous(turns, lastSeq) && i < |turns|
    ensures turns[i].first >= 1
    decreases i
  {
    if i > 0 {
      FirstPositive(turns, lastSeq, i - 1);
      assert turns[i - 1 + 1].first == turns[i - 1].first + |turns[i - 1].ops|;
    }
  }

  lemma {:induction false} RecordsAscend(turns: seq<Turn>, lastSeq: nat, memtable: bool)
    requires Contiguous(turns, lastSeq)
    ensures Ascends(Records(turns, memtable), lastSeq + 1)
    decreases |turns|
  {
    if |turns| > 0 {
      var rest, t := turns[..|turns| - 1], turns[|turns| - 1];
      FirstPositive(turns, lastSeq, |rest|);
      assert |rest| > 0 ==> turns[|rest| - 1 + 1].first == turns[|rest| - 1].first + |turns[|rest| - 1].ops|;
      RecordsAscend(rest, t.first - 1, memtable);
    }
  }

  /** Sequence ranges never overlap, in the log or in the memtable, even across
      records that failed. */
  lemma RangesDisjoint(q: Queue)
    requires Inv(q)
    ensures Ascends(Records(q.turns, false), q.lastSeq + 1) && Ascends(Records(q.turns, true), q.lastSeq + 1)
    ensures !q.phase.Idle? ==> q.turn.first == q.lastSeq + 1
  {
    assert Keeps(q, Numbers) && Keeps(q, Front);
    RecordsAscend(q.turns, q.lastSeq, false);
    RecordsAscend(q.turns, q.lastSeq, true);
  }

  // ----- Handing out the status -----

  lemma ServedOne(outcome: map<Writer, Status>, ws: seq<Writer>, i: nat, status: Status)
    requires i < |ws|
    ensures Served(outcome, ws[..i + 1], status) == Served(outcome, ws[..i], status)[ws[i] := status]
  {
    var some := ws[..i];
    assert ws[..i + 1] == some + [ws[i]];
    EveryoneJoin(some, [ws[i]]);
    assert Everyone([ws[i]]) == {ws[i]} by {
      assert [ws[i]][0] == ws[i];
    }
  }

  /** The leader pops writers up to the last of its group and marks each one done
      with its own status. */
  method HandOut(queue: seq<Writer>, lastWriter: Writer, n: nat, status: Status, outcome: map<Writer, Status>)
    returns (queue': seq<Writer>, outcome': map<Writer, Status>)
    requires 1 <= n <= |queue| && Distinct(queue) && queue[n - 1] == lastWriter
    ensures queue' == queue[n..] && outcome' == Served(outcome, queue[..n], status)
  {
    queue', outcome' := queue, outcome;
    ghost var i := 0;
    while true
      invariant 0 <= i < n && queue' == queue[i..] && outcome' == Served(outcome, queue[..i], status)
      decreases n - i
    {
      var ready := queue'[0];
      queue', outcome' := queue'[1..], outcome'[ready := status];
      ServedOne(outcome, queue, i, status);
      i := i + 1;
      if ready == lastWriter {
        break;
      }
    }
  }

  /** The leader's section before it drops the mutex is the Begin step. */
  method StartGroup(q: Queue) returns (n: nat, q': Queue)
    requires Inv(q) && q.phase.Idle? && |q.queue| > 0 && q.queue[0] in q.requests && q.requests[q.queue[0]].batch.Some?
    ensures Next(q, Begin(n), q')
    ensures q'.turn.ops == BatchesOf(q.requests, q.queue[..n])
  {
    assert Keeps(q, Front);
    var updates, tmp, shared;
    n, updates, tmp, shared := BuildBatchGroup(q.requests, q.queue, q.tmp);
    assert ContentBody(q.requests, q.queue, n, q.tmp, updates, tmp, shared, Lock);
    q' := q.(phase := Grouped, shared := shared, tmp := tmp,
             turn := Turn(true, q.queue[..n], q.lastSeq + 1, updates, false, false, None, Fine));
  }

  lemma QueueDistinct(q: Queue)
    requires Inv(q)
    ensures Distinct(q.queue)
  {
    assert Keeps(q, Registered) && Keeps(q, Order);
    var n := |WritersOf(q.turns)|;
    assert forall i :: 0 <= i < |q.queue| ==> q.queue[i] == q.arrivals[n + i];
  }

  /** The leader's section after it takes the mutex back is the Finish step. */
  method FinishGroup(q: Queue) returns (q': Queue)
    requires Inv(q) && q.phase.Inserted?
    ensures Next(q, Finish, q')
  {
    assert Keeps(q, Front);
    QueueDistinct(q);
    var n := |q.turn.writers|;
    var tmp := if q.shared then [] else q.tmp;
    var queue, outcome := HandOut(q.queue, q.turn.writers[n - 1], n, q.turn.status, q.outcome);
    q' := q.(tmp := tmp, lastSeq := q.lastSeq + |q.turn.ops|, queue := queue, outcome := outcome,
             turns := q.turns + [q.turn], phase := Idle);
  }
}
