/** The list of held snapshots, and the cutoff a compaction takes from it. */
module Snapshots {
  // A circular doubly linked list around a dummy head; node pointers are ids.

  import opened Entries
  import opened Lsm
  import opened LsmSteps

  type Id = nat

  const HEAD: Id := 0

  type Links = map<Id, Id>

  // ----- The ring -----

  /** The i-th node; before the first and after the last stands the head. */
  ghost function Node(held: seq<Id>, i: int): Id {
    if 0 <= i < |held| then held[i] else HEAD
  }

  ghost predicate Joined(next: Links, prev: Links, held: seq<Id>, i: int) {
    && Node(held, i - 1) in next && next[Node(held, i - 1)] == Node(held, i)
    && Node(held, i) in prev && prev[Node(held, i)] == Node(held, i - 1)
  }

  ghost predicate DistinctNodes(held: seq<Id>) {
    HEAD !in held && forall i, j :: 0 <= i < j < |held| ==> held[i] != held[j]
  }

  /** Both chains go round the held nodes in order. */
  ghost predicate Ring(next: Links, prev: Links, held: seq<Id>) {
    DistinctNodes(held) && forall i :: 0 <= i <= |held| ==> Joined(next, prev, held, i)
  }

  function Without<T>(s: seq<T>, k: nat): seq<T>
    requires k < |s|
  {
    s[..k] + s[k + 1..]
  }

  lemma SameNode(held: seq<Id>, i: int, j: int)
    requires DistinctNodes(held) && -1 <= i < |held| && -1 <= j < |held| && i != j
    ensures Node(held, i) != Node(held, j)
  {
    assert forall k :: 0 <= k < |held| ==> held[k] in held;
  }

  lemma RingPush(next: Links, prev: Links, held: seq<Id>, id: Id)
    requires Ring(next, prev, held) && id != HEAD && id !in held
    ensures Joined(next, prev, held, |held|)
    ensures Ring(next[id := HEAD][prev[HEAD] := id], prev[id := prev[HEAD]][HEAD := id], held + [id])
  {
    assert Joined(next, prev, held, |held|);
    var more, last := held + [id], prev[HEAD];
    var next', prev' := next[id := HEAD][last := id], prev[id := last][HEAD := id];
    forall i | 0 <= i <= |more| ensures Joined(next', prev', more, i) {
      if i < |held| {
        assert Joined(next, prev, held, i);
        assert Node(more, i - 1) == Node(held, i - 1) && Node(more, i) == Node(held, i);
        SameNode(held, i - 1, |held| - 1);
      }
    }
  }

  lemma RingPop(next: Links, prev: Links, held: seq<Id>, k: nat)
    requires Ring(next, prev, held) && k < |held|
    ensures Joined(next, prev, held, k) && Joined(next, prev, held, k + 1)
    ensures var p, n := Node(held, k - 1), Node(held, k + 1);
            Ring(next[p := n] - {held[k]}, prev[n := p] - {held[k]}, Without(held, k))
  {
    assert Joined(next, prev, held, k) && Joined(next, prev, held, k + 1);
    var p, n, less := Node(held, k - 1), Node(held, k + 1), Without(held, k);
    var next', prev' := next[p := n] - {held[k]}, prev[n := p] - {held[k]};
    forall i | 0 <= i <= |less| ensures Joined(next', prev', less, i) {
      var j := if i <= k then i else i + 1;
      assert Node(less, i) == Node(held, if i < k then i else i + 1);
      assert Node(less, i - 1) == Node(held, if i <= k then i - 1 else i);
      assert Joined(next, prev, held, j);
      PopApart(held, k, i);
    }
  }

  /** The links that stay are neither into nor out of the node that goes. */
  lemma PopApart(held: seq<Id>, k: nat, i: nat)
    requires DistinctNodes(held) && k < |held| && i < |held|
    ensures i <= k ==> Node(held, i - 1) != held[k]
    ensures i < k ==> Node(held, i) != held[k] && Node(held, i - 1) != Node(held, k - 1)
    ensures i < k ==> Node(held, i) != Node(held, k + 1)
    ensures i == k ==> Node(held, i + 1) != held[k]
    ensures i > k ==> Node(held, i) != held[k] && Node(held, i + 1) != held[k]
                      && Node(held, i) != Node(held, k - 1) && Node(held, i + 1) != Node(held, k + 1)
  {
    assert forall m :: 0 <= m < |held| ==> held[m] in held;
  }

  // ----- Their numbers -----

  ghost predicate Known(number: map<Id, nat>, held: seq<Id>) {
    forall i :: 0 <= i < |held| ==> held[i] in number
  }

  ghost function Numbers(number: map<Id, nat>, held: seq<Id>): seq<nat>
    requires Known(number, held)
  {
    seq(|held|, i requires 0 <= i < |held| => number[held[i]])
  }

  ghost predicate Rising(ns: seq<nat>) {
    forall i, j :: 0 <= i < j < |ns| ==> ns[i] <= ns[j]
  }

  lemma NumbersPush(number: map<Id, nat>, held: seq<Id>, id: Id, n: nat)
    requires Known(number, held) && id !in held && Rising(Numbers(number, held))
    requires forall m :: m in Numbers(number, held) ==> m <= n
    ensures Known(number[id := n], held + [id])
    ensures Numbers(number[id := n], held + [id]) == Numbers(number, held) + [n]
    ensures Rising(Numbers(number[id := n], held + [id]))
  {
    assert forall i :: 0 <= i < |held| ==> held[i] in held;
    assert Numbers(number[id := n], held + [id]) == Numbers(number, held) + [n];
    var ns := Numbers(number, held);
    assert forall i :: 0 <= i < |ns| ==> ns[i] in ns;
  }

  lemma NumbersPop(number: map<Id, nat>, held: seq<Id>, k: nat)
    requires Known(number, held) && DistinctNodes(held) && k < |held| && Rising(Numbers(number, held))
    ensures Known(number - {held[k]}, Without(held, k))
    ensures Numbers(number - {held[k]}, Without(held, k)) == Without(Numbers(number, held), k)
    ensures Rising(Without(Numbers(number, held), k))
  {
    assert Numbers(number - {held[k]}, Without(held, k)) == Without(Numbers(number, held), k);
  }

  lemma MultisetWithout(ns: seq<nat>, k: nat)
    requires k < |ns|
    ensures multiset(Without(ns, k)) == multiset(ns) - multiset{ns[k]}
  {
    assert ns == ns[..k] + [ns[k]] + ns[k + 1..];
  }

  /** Where a node is in the ring. */
  ghost function Place(held: seq<Id>, s: Id): (k: nat)
    requires s in held
    ensures k < |held| && held[k] == s
  {
    var k :| 0 <= k < |held| && held[k] == s;
    k
  }

  // ----- The list -----

  ghost predicate Body(number: map<Id, nat>, next: Links, prev: Links, fresh': Id, held: seq<Id>, lock: Lock) {
    && Ring(next, prev, held) && Known(number, held) && Rising(Numbers(number, held))
    && fresh' > HEAD && forall i :: 0 <= i < |held| ==> held[i] < fresh'
  }

  class SnapshotList {
    var number: map<Id, nat>
    var next: Links
    var prev: Links
    var nextId: Id

    /** The nodes in the order they were made. */
    ghost var held: seq<Id>

    ghost predicate Valid()
      reads this
    {
      forall lock: Lock :: Body(number, next, prev, nextId, held, lock)
    }

    /** The sequence numbers held, oldest snapshot first. */
    ghost function Sequences(): (r: seq<nat>)
      reads this
      requires Valid()
      ensures |r| == |held|
    {
      assert Body(number, next, prev, nextId, held, Lock);
      Numbers(number, held)
    }

    /** The sequence numbers held, as the state machine keeps them. */
    ghost function Held(): multiset<nat>
      reads this
      requires Valid()
    {
      multiset(Sequences())
    }

    constructor ()
      ensures Valid() && held == [] && Held() == multiset{}
    {
      number, next, prev, nextId, held := map[], map[HEAD := HEAD], map[HEAD := HEAD], 1, [];
      new;
      assert Joined(next, prev, held, 0);
    }

    method Empty() returns (b: bool)
      requires Valid()
      ensures b <==> Held() == multiset{}
    {
      assert Body(number, next, prev, nextId, held, Lock);
      assert Joined(next, prev, held, 0);
      assert |held| > 0 ==> held[0] in held && Numbers(number, held)[0] in multiset(Numbers(number, held));
      b := next[HEAD] == HEAD;
    }

    /** The first node carries the least number, the last one the greatest. */
    method Ends() returns (oldest: Id, newest: Id)
      requires Valid() && Held() != multiset{}
      ensures oldest in number && number[oldest] in Held() && forall m :: m in Held() ==> number[oldest] <= m
      ensures newest in number && number[newest] in Held() && forall m :: m in Held() ==> m <= number[newest]
    {
      assert Body(number, next, prev, nextId, held, Lock);
      assert Joined(next, prev, held, 0) && Joined(next, prev, held, |held|);
      oldest, newest := next[HEAD], prev[HEAD];
      ghost var ns := Numbers(number, held);
      assert |ns| > 0 && ns[0] == number[oldest] && ns[|ns| - 1] == number[newest];
      forall m | m in multiset(ns) ensures ns[0] <= m <= ns[|ns| - 1] {
        var i :| 0 <= i < |ns| && ns[i] == m;
      }
    }

    /** New: spliced in before the head; the sequence counter never falls. */
    method New(sn: nat) returns (s: Id)
      requires Valid() && forall m :: m in Held() ==> m <= sn
      modifies this
      ensures Valid() && Held() == old(Held()) + multiset{sn} && Sequences() == old(Sequences()) + [sn]
      ensures s !in old(held) && held == old(held) + [s] && number == old(number)[s := sn]
    {
      assert Body(number, next, prev, nextId, held, Lock);
      s := nextId;
      forall m | m in Numbers(number, held) ensures m <= sn {
        assert m in Held();
      }
      RingPush(next, prev, held, s);
      NumbersPush(number, held, s, sn);
      nextId := nextId + 1;
      number := number[s := sn];
      next := next[s := HEAD];
      prev := prev[s := prev[HEAD]];
      next := next[prev[s] := s];
      prev := prev[next[s] := s];
      held := held + [s];
    }

    /** Delete: its neighbours are joined. */
    method Delete(s: Id)
      requires Valid() && s in held
      modifies this
      ensures Valid() && s in old(number) && Held() == old(Held()) - multiset{old(number)[s]}
      ensures held == Without(old(held), Place(old(held), s)) && number == old(number) - {s}
      ensures Sequences() == Without(old(Sequences()), Place(old(held), s))
    {
      assert Body(number, next, prev, nextId, held, Lock);
      ghost var k := Place(held, s);
      RingPop(next, prev, held, k);
      NumbersPop(number, held, k);
      MultisetWithout(Numbers(number, held), k);
      next := next[prev[s] := next[s]];
      prev := prev[next[s] := prev[s]];
      next, prev, number := next - {s}, prev - {s}, number - {s};
      held := Without(held, k);
    }
  }

  // ----- Runs -----

  /** Calls of the clients: take a snapshot, or release the n-th of those held. */
  datatype Op = TakeOp(sn: nat) | ReleaseOp(n: nat)

  ghost function After(ns: seq<nat>, op: Op): seq<nat> {
    match op
    case TakeOp(sn) => ns + [sn]
    case ReleaseOp(n) => if n < |ns| then Without(ns, n) else ns
  }

  ghost function AfterAll(ops: seq<Op>): seq<nat>
    decreases |ops|
  {
    if |ops| == 0 then [] else After(AfterAll(ops[..|ops| - 1]), ops[|ops| - 1])
  }

  /** The sequence counter never falls. */
  ghost predicate Clocked(ops: seq<Op>) {
    forall i, j :: 0 <= i < j < |ops| && ops[i].TakeOp? && ops[j].TakeOp? ==> ops[i].sn <= ops[j].sn
  }

  /** What is held was taken. */
  lemma {:induction false} HeldWasTaken(ops: seq<Op>, m: nat)
    requires m in AfterAll(ops)
    ensures exists i :: 0 <= i < |ops| && ops[i] == TakeOp(m)
    decreases |ops|
  {
    if |ops| > 0 {
      var rest, op := ops[..|ops| - 1], ops[|ops| - 1];
      if op != TakeOp(m) {
        assert m in AfterAll(rest);
        HeldWasTaken(rest, m);
        var i :| 0 <= i < |rest| && rest[i] == TakeOp(m);
        assert ops[i] == TakeOp(m);
      }
    }
  }

  lemma NoneLater(ops: seq<Op>, n: nat, m: nat)
    requires Clocked(ops) && n < |ops| && ops[n].TakeOp? && m in AfterAll(ops[..n])
    ensures m <= ops[n].sn
  {
    HeldWasTaken(ops[..n], m);
    var i :| 0 <= i < n && ops[..n][i] == TakeOp(m);
    assert ops[i] == TakeOp(m);
  }

  lemma PlaceIs(held: seq<Id>, n: nat)
    requires DistinctNodes(held) && n < |held|
    ensures Place(held, held[n]) == n
  {
  }

  /** Any calls on a new list, in any order of release, leave exactly the snapshots taken and
      not released; `mine` are the clients' pointers to them. */
  method Run(ops: seq<Op>) returns (list: SnapshotList, mine: seq<Id>)
    requires Clocked(ops)
    ensures list.Valid() && list.held == mine && list.Sequences() == AfterAll(ops)
  {
    list := new SnapshotList();
    mine := [];
    for n := 0 to |ops|
      invariant fresh(list) && list.Valid() && list.held == mine && list.Sequences() == AfterAll(ops[..n])
    {
      assert ops[..n + 1][..n] == ops[..n];
      match ops[n] {
        case TakeOp(sn) =>
          forall m | m in list.Held() ensures m <= sn {
            NoneLater(ops, n, m);
          }
          var s := list.New(sn);
          mine := mine + [s];
        case ReleaseOp(k) =>
          if k < |mine| {
            assert Body(list.number, list.next, list.prev, list.nextId, list.held, Lock);
            PlaceIs(mine, k);
            list.Delete(mine[k]);
            mine := Without(mine, k);
          }
      }
    }
    assert ops[..|ops|] == ops;
  }

  /** What DoCompactionWork starts with is the cutoff the compaction step asks for. */
  method SmallestSnapshot(list: SnapshotList, lastSeq: nat, ghost st: State) returns (cutoff: nat, unheld: bool)
    requires list.Valid() && st.snapshots == list.Held() && st.lastSeq == lastSeq
    ensures forall job: Job :: job.cutoff == cutoff && job.unheld == unheld ==> CutoffOk(st, job)
  {
    unheld := list.Empty();
    if unheld {
      cutoff := lastSeq;
    } else {
      var oldest, _ := list.Ends();
      cutoff := list.number[oldest];
    }
  }
}
