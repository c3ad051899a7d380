/** The skip list of the memtable, read while it is written. */
module SkipList {
  // One writer links a new node level by level, from the bottom, while readers walk
  // the links without locks.  Node pointers are ids into a memory of keys and links;
  // a NULL link is None.

  import opened Entries

  type Id = int
  type Key = real

  const HEAD: Id := 0
  const MAX_HEIGHT: nat := 12

  type Keys = map<Id, Key>
  type Links = map<Id, Option<Id>>

  datatype Memory = Memory(keys: Keys, next: seq<Links>, maxHeight: nat)

  // ----- What the links stand for -----

  function At(c: seq<Id>, i: nat): Option<Id> {
    if i < |c| then Some(c[i]) else None
  }

  ghost predicate NodesOk(keys: Keys, c: seq<Id>) {
    forall i :: 0 <= i < |c| ==> c[i] != HEAD && c[i] in keys
  }

  ghost predicate Ascending(keys: Keys, c: seq<Id>)
    requires NodesOk(keys, c)
  {
    forall i, j :: 0 <= i < j < |c| ==> keys[c[i]] < keys[c[j]]
  }

  ghost predicate Linked(links: Links, c: seq<Id>) {
    && HEAD in links && links[HEAD] == At(c, 0)
    && forall i :: 0 <= i < |c| ==> c[i] in links && links[c[i]] == At(c, i + 1)
  }

  /** The links of one level are the list `c`, in key order. */
  ghost predicate Chain(keys: Keys, links: Links, c: seq<Id>) {
    NodesOk(keys, c) && Ascending(keys, c) && Linked(links, c)
  }

  /** `d` is a sublist of `c`: both are in key order, so this is about members. */
  ghost predicate Sublist(d: seq<Id>, c: seq<Id>) {
    forall i :: 0 <= i < |d| ==> Member(c, d[i])
  }

  /** Every level is a sorted sublist of the level below. */
  ghost predicate Shape(mem: Memory, cs: seq<seq<Id>>) {
    && |mem.next| == |cs| == MAX_HEIGHT && 1 <= mem.maxHeight <= MAX_HEIGHT
    && (forall l :: 0 <= l < MAX_HEIGHT ==> Chain(mem.keys, mem.next[l], cs[l]))
    && (forall l :: 0 < l < MAX_HEIGHT ==> Sublist(cs[l], cs[l - 1]))
    && (forall l :: mem.maxHeight <= l < MAX_HEIGHT ==> cs[l] == [])
  }

  ghost predicate Member(c: seq<Id>, x: Id) {
    exists i :: 0 <= i < |c| && c[i] == x
  }

  // ----- Searching -----

  /** What a walk looks for: the first node at or after a key, the last one before
      it, or the last one of all. */
  datatype Goal = AtLeast(key: Key) | Before(key: Key) | Last

  /** The walk moves on to `id`. */
  predicate Passes(keys: Keys, goal: Goal, id: Id)
    requires id in keys
  {
    match goal
    case AtLeast(k) => keys[id] < k
    case Before(k) => keys[id] < k
    case Last => true
  }

  /** `x` is where the walk may stand at a level with list `c`. */
  ghost predicate Standing(keys: Keys, c: seq<Id>, goal: Goal, x: Id) {
    x == HEAD || (Member(c, x) && x in keys && Passes(keys, goal, x))
  }

  /** `x` is the last node of `c` the walk passes, `next` the one after it. */
  ghost predicate Stops(keys: Keys, c: seq<Id>, goal: Goal, x: Id, next: Option<Id>)
    requires NodesOk(keys, c)
  {
    exists n :: 0 <= n <= |c|
      && (forall i :: 0 <= i < n ==> Passes(keys, goal, c[i]))
      && (forall i :: n <= i < |c| ==> !Passes(keys, goal, c[i]))
      && x == (if n == 0 then HEAD else c[n - 1]) && next == At(c, n)
  }

  ghost predicate StopsAt(keys: Keys, c: seq<Id>, goal: Goal, x: Id) {
    NodesOk(keys, c) && exists next :: Stops(keys, c, goal, x, next)
  }

  /** Where a standing walk is, the link read there is the node after it. */
  lemma StandingLink(keys: Keys, links: Links, c: seq<Id>, goal: Goal, x: Id) returns (n: nat)
    requires Chain(keys, links, c) && Standing(keys, c, goal, x)
    ensures n <= |c| && x == (if n == 0 then HEAD else c[n - 1])
    ensures x in links && links[x] == At(c, n)
    ensures forall i :: 0 <= i < n ==> Passes(keys, goal, c[i])
  {
    if x == HEAD {
      n := 0;
    } else {
      var i :| 0 <= i < |c| && c[i] == x;
      n := i + 1;
    }
  }

  /** One step right: the walk stands on the node it read. */
  lemma MoveRight(keys: Keys, links: Links, c: seq<Id>, goal: Goal, x: Id)
    requires Chain(keys, links, c) && Standing(keys, c, goal, x)
    ensures x in links
    ensures var next := links[x]; next.Some? ==>
              next.value in keys && Member(c, next.value)
              && (Passes(keys, goal, next.value) ==> Standing(keys, c, goal, next.value))
  {
    var n := StandingLink(keys, links, c, goal, x);
  }

  /** Not passing the node it read: the walk has found its place at this level. */
  lemma StopHere(keys: Keys, links: Links, c: seq<Id>, goal: Goal, x: Id)
    requires Chain(keys, links, c) && Standing(keys, c, goal, x)
    ensures x in links
    ensures var next := links[x];
            (next.Some? ==> next.value in keys && !Passes(keys, goal, next.value)) ==> Stops(keys, c, goal, x, next)
  {
    var n := StandingLink(keys, links, c, goal, x);
    assert forall i :: n < i < |c| ==> keys[c[n]] < keys[c[i]];
  }

  /** One level down: the node is on the level below as well. */
  lemma MoveDown(mem: Memory, cs: seq<seq<Id>>, l: nat, goal: Goal, x: Id)
    requires Shape(mem, cs) && 0 < l < MAX_HEIGHT && Standing(mem.keys, cs[l], goal, x)
    ensures Standing(mem.keys, cs[l - 1], goal, x)
  {
    if x != HEAD {
      var i :| 0 <= i < |cs[l]| && cs[l][i] == x;
      assert Sublist(cs[l], cs[l - 1]);
    }
  }

  // ----- Linking a node in -----

  ghost function InsertAt(c: seq<Id>, n: nat, x: Id): (r: seq<Id>)
    requires n <= |c|
    ensures |r| == |c| + 1
    ensures forall i :: 0 <= i < |r| ==> r[i] == (if i < n then c[i] else if i == n then x else c[i - 1])
  {
    c[..n] + [x] + c[n..]
  }

  /** The place of a key in a level: after `prev`. */
  ghost predicate Place(keys: Keys, c: seq<Id>, key: Key, prev: Id, n: nat)
    requires NodesOk(keys, c)
  {
    && n <= |c| && prev == (if n == 0 then HEAD else c[n - 1])
    && (forall i :: 0 <= i < n ==> keys[c[i]] < key)
    && (forall i :: n <= i < |c| ==> key < keys[c[i]])
  }

  /** A new node's own link may be set before anyone can reach the node. */
  lemma StoreOwnLinked(keys: Keys, links: Links, c: seq<Id>, x: Id, to: Option<Id>)
    requires Chain(keys, links, c) && x != HEAD && !Member(c, x)
    ensures Chain(keys, links[x := to], c)
  {
    forall i | 0 <= i < |c| ensures c[i] != x {
      assert c[i] == x ==> Member(c, x);
    }
  }

  lemma InsertAscends(keys: Keys, c: seq<Id>, key: Key, x: Id, prev: Id, n: nat)
    requires NodesOk(keys, c) && Ascending(keys, c) && Place(keys, c, key, prev, n)
    requires x != HEAD && x in keys && keys[x] == key
    ensures NodesOk(keys, InsertAt(c, n, x)) && Ascending(keys, InsertAt(c, n, x))
  {
  }

  lemma InsertLinks(links: Links, c: seq<Id>, x: Id, n: nat)
    requires Linked(links, c) && n <= |c| && x in links && links[x] == At(c, n)
    requires forall i :: 0 <= i < |c| ==> c[i] != x && c[i] != HEAD
    requires forall i, j :: 0 <= i < j < |c| ==> c[i] != c[j]
    requires x != HEAD
    ensures Linked(links[(if n == 0 then HEAD else c[n - 1]) := Some(x)], InsertAt(c, n, x))
  {
    var r := InsertAt(c, n, x);
    var prev := if n == 0 then HEAD else c[n - 1];
    var after := links[prev := Some(x)];
    forall i | 0 <= i < |r| ensures r[i] in after && after[r[i]] == At(r, i + 1) {
      if i < n {
        assert r[i] == c[i];
        assert i < n - 1 ==> c[i] != c[n - 1];
      } else if i > n {
        assert r[i] == c[i - 1];
        assert n > 0 ==> c[i - 1] != c[n - 1];
      }
    }
  }

  /** The one store that makes the node visible at a level. */
  lemma PublishLinked(keys: Keys, links: Links, c: seq<Id>, key: Key, x: Id, prev: Id, n: nat)
    requires Chain(keys, links, c) && Place(keys, c, key, prev, n)
    requires x != HEAD && x in keys && keys[x] == key && x in links && links[x] == At(c, n)
    ensures Chain(keys, links[prev := Some(x)], InsertAt(c, n, x))
  {
    InsertAscends(keys, c, key, x, prev, n);
    InsertLinks(links, c, x, n);
  }

  lemma MemberGrows(c: seq<Id>, n: nat, x: Id, y: Id)
    requires n <= |c|
    ensures Member(InsertAt(c, n, x), y) <==> Member(c, y) || y == x
  {
    var r := InsertAt(c, n, x);
    assert r[n] == x;
    if Member(c, y) {
      var j :| 0 <= j < |c| && c[j] == y;
      assert r[if j < n then j else j + 1] == y;
    }
    if Member(r, y) && y != x {
      var j :| 0 <= j < |r| && r[j] == y;
      assert c[if j < n then j else j - 1] == y;
    }
  }

  lemma SublistGrows(d: seq<Id>, c: seq<Id>, n: nat, x: Id)
    requires Sublist(d, c) && n <= |c|
    ensures Sublist(d, InsertAt(c, n, x))
  {
    forall i | 0 <= i < |d| ensures Member(InsertAt(c, n, x), d[i]) {
      MemberGrows(c, n, x, d[i]);
    }
  }

  lemma SublistGains(d: seq<Id>, n: nat, c: seq<Id>, x: Id)
    requires Sublist(d, c) && n <= |d| && Member(c, x)
    ensures Sublist(InsertAt(d, n, x), c)
  {
    var r := InsertAt(d, n, x);
    forall i | 0 <= i < |r| ensures Member(c, r[i]) {
      assert i < n ==> r[i] == d[i];
      assert i > n ==> r[i] == d[i - 1];
    }
  }

  // ----- The writer -----

  datatype Writer = Resting | Linking(x: Id, key: Key, height: nat, prev: seq<Id>, level: nat, own: bool)

  function NewNode(mem: Memory, x: Id, key: Key, height: nat): Memory {
    mem.(keys := mem.keys[x := key], maxHeight := if height > mem.maxHeight then height else mem.maxHeight)
  }

  function StoreOwn(mem: Memory, l: nat, x: Id, prev: Id): Memory
    requires l < |mem.next| && prev in mem.next[l]
  {
    mem.(next := mem.next[l := mem.next[l][x := mem.next[l][prev]]])
  }

  function Publish(mem: Memory, l: nat, x: Id, prev: Id): Memory
    requires l < |mem.next|
  {
    mem.(next := mem.next[l := mem.next[l][prev := Some(x)]])
  }

  ghost predicate HasPlace(keys: Keys, c: seq<Id>, key: Key, prev: Id) {
    NodesOk(keys, c) && exists n :: Place(keys, c, key, prev, n)
  }

  /** The writer's search has given it the place of its key on every level. */
  ghost predicate Places(keys: Keys, cs: seq<seq<Id>>, key: Key, prev: seq<Id>, from: nat, height: nat) {
    && height <= |prev| && height <= |cs|
    && forall l :: from <= l < height ==> HasPlace(keys, cs[l], key, prev[l])
  }

  /** The node is on exactly the levels linked so far. */
  ghost predicate LinkedUpTo(cs: seq<seq<Id>>, x: Id, level: nat) {
    forall l :: 0 <= l < |cs| ==> (Member(cs[l], x) <==> l < level)
  }

  ghost predicate WriterOk(mem: Memory, cs: seq<seq<Id>>, w: Writer) {
    Shape(mem, cs) && (w.Linking? ==>
      && w.x != HEAD && w.x in mem.keys && mem.keys[w.x] == w.key
      && w.level < w.height <= mem.maxHeight
      && Places(mem.keys, cs, w.key, w.prev, w.level, w.height)
      && LinkedUpTo(cs, w.x, w.level)
      && (w.own ==> w.prev[w.level] in mem.next[w.level] && w.x in mem.next[w.level]
                    && mem.next[w.level][w.x] == mem.next[w.level][w.prev[w.level]]))
  }

  lemma FreshNode(mem: Memory, cs: seq<seq<Id>>, x: Id, l: nat)
    requires Shape(mem, cs) && x !in mem.keys && l < MAX_HEIGHT
    ensures !Member(cs[l], x)
  {
    assert Chain(mem.keys, mem.next[l], cs[l]);
  }

  lemma PlaceStays(keys: Keys, more: Keys, c: seq<Id>, key: Key, prev: Id)
    requires HasPlace(keys, c, key, prev) && forall x :: x in keys ==> x in more && more[x] == keys[x]
    ensures HasPlace(more, c, key, prev)
  {
    var n :| Place(keys, c, key, prev, n);
    assert NodesOk(more, c);
    assert Place(more, c, key, prev, n);
  }

  /** Raising max_height_ and allocating the node change no list. */
  lemma BeginKeeps(mem: Memory, cs: seq<seq<Id>>, x: Id, key: Key, height: nat, prev: seq<Id>)
    requires Shape(mem, cs) && x != HEAD && x !in mem.keys && 1 <= height <= MAX_HEIGHT
    requires Places(mem.keys, cs, key, prev, 0, height)
    ensures WriterOk(NewNode(mem, x, key, height), cs, Linking(x, key, height, prev, 0, false))
  {
    var after := NewNode(mem, x, key, height);
    forall l | 0 <= l < MAX_HEIGHT ensures Chain(after.keys, after.next[l], cs[l]) {
      assert Chain(mem.keys, mem.next[l], cs[l]);
    }
    forall l | 0 <= l < height ensures HasPlace(after.keys, cs[l], key, prev[l]) {
      PlaceStays(mem.keys, after.keys, cs[l], key, prev[l]);
    }
    forall l | 0 <= l < |cs| ensures !Member(cs[l], x) {
      FreshNode(mem, cs, x, l);
    }
  }

  lemma PrevLinked(mem: Memory, cs: seq<seq<Id>>, w: Writer) returns (n: nat)
    requires WriterOk(mem, cs, w) && w.Linking?
    ensures Place(mem.keys, cs[w.level], w.key, w.prev[w.level], n)
    ensures w.prev[w.level] in mem.next[w.level] && mem.next[w.level][w.prev[w.level]] == At(cs[w.level], n)
  {
    assert HasPlace(mem.keys, cs[w.level], w.key, w.prev[w.level]);
    n :| Place(mem.keys, cs[w.level], w.key, w.prev[w.level], n);
    assert Chain(mem.keys, mem.next[w.level], cs[w.level]);
  }

  lemma StoreOwnKeeps(mem: Memory, cs: seq<seq<Id>>, w: Writer)
    requires WriterOk(mem, cs, w) && w.Linking?
    ensures w.prev[w.level] in mem.next[w.level]
    ensures WriterOk(StoreOwn(mem, w.level, w.x, w.prev[w.level]), cs, w.(own := true))
  {
    var n := PrevLinked(mem, cs, w);
    var l, prev := w.level, w.prev[w.level];
    var after := StoreOwn(mem, l, w.x, prev);
    StoreOwnLinked(mem.keys, mem.next[l], cs[l], w.x, mem.next[l][prev]);
    forall k | 0 <= k < MAX_HEIGHT ensures Chain(after.keys, after.next[k], cs[k]) {
      assert Chain(mem.keys, mem.next[k], cs[k]);
    }
    NotItself(mem, cs, w, n);
  }

  /** The node is not its own predecessor. */
  lemma NotItself(mem: Memory, cs: seq<seq<Id>>, w: Writer, n: nat)
    requires WriterOk(mem, cs, w) && w.Linking? && Place(mem.keys, cs[w.level], w.key, w.prev[w.level], n)
    ensures w.prev[w.level] != w.x
  {
    assert n > 0 ==> Member(cs[w.level], cs[w.level][n - 1]);
  }

  function NextWriter(w: Writer): Writer
    requires w.Linking?
  {
    if w.level + 1 == w.height then Resting else w.(level := w.level + 1, own := false)
  }

  /** At the store that publishes the node on one level, that level gains it and
      stays a sublist of the one below. */
  lemma PublishShape(mem: Memory, cs: seq<seq<Id>>, w: Writer, n: nat)
    requires WriterOk(mem, cs, w) && w.Linking? && w.own && Place(mem.keys, cs[w.level], w.key, w.prev[w.level], n)
    ensures Shape(Publish(mem, w.level, w.x, w.prev[w.level]), cs[w.level := InsertAt(cs[w.level], n, w.x)])
  {
    var l, prev := w.level, w.prev[w.level];
    var after, c := Publish(mem, l, w.x, prev), InsertAt(cs[l], n, w.x);
    var cs' := cs[l := c];
    assert Chain(mem.keys, mem.next[l], cs[l]);
    PublishLinked(mem.keys, mem.next[l], cs[l], w.key, w.x, prev, n);
    forall k | 0 <= k < MAX_HEIGHT ensures Chain(after.keys, after.next[k], cs'[k]) {
      assert Chain(mem.keys, mem.next[k], cs[k]);
    }
    forall k | 0 < k < MAX_HEIGHT ensures Sublist(cs'[k], cs'[k - 1]) {
      assert Sublist(cs[k], cs[k - 1]);
      if k == l {
        SublistGains(cs[l], n, cs[l - 1], w.x);
      } else if k == l + 1 {
        SublistGrows(cs[k], cs[l], n, w.x);
      }
    }
  }

  lemma PublishKeeps(mem: Memory, cs: seq<seq<Id>>, w: Writer, n: nat)
    requires WriterOk(mem, cs, w) && w.Linking? && w.own && Place(mem.keys, cs[w.level], w.key, w.prev[w.level], n)
    ensures WriterOk(Publish(mem, w.level, w.x, w.prev[w.level]), cs[w.level := InsertAt(cs[w.level], n, w.x)],
                     NextWriter(w))
  {
    PublishShape(mem, cs, w, n);
    var l := w.level;
    var after := Publish(mem, l, w.x, w.prev[l]);
    var cs' := cs[l := InsertAt(cs[l], n, w.x)];
    forall k | 0 <= k < |cs'| ensures Member(cs'[k], w.x) <==> k < l + 1 {
      assert Member(cs[k], w.x) <==> k < l;
      if k == l {
        MemberGrows(cs[l], n, w.x, w.x);
      }
    }
  }

  // ----- Readers beside the writer -----

  datatype Reader = Reader(goal: Goal, x: Id, level: nat)

  ghost predicate ReaderOk(mem: Memory, cs: seq<seq<Id>>, r: Reader) {
    r.level < |cs| && Standing(mem.keys, cs[r.level], r.goal, r.x)
  }

  datatype State = State(mem: Memory, cs: seq<seq<Id>>, writer: Writer, readers: map<nat, Reader>)

  datatype Step =
    | Begin(x: Id, key: Key, height: nat, prev: seq<Id>)
    | Own
    | Show(n: nat)
    | Start(r: nat, goal: Goal, height: nat)
    | Right(r: nat)
    | Down(r: nat)
    | Finish(r: nat)

  /** The link a reader is about to follow. */
  ghost predicate Reads(st: State, r: nat, next: Option<Id>) {
    && r in st.readers && st.readers[r].level < |st.mem.next|
    && st.readers[r].x in st.mem.next[st.readers[r].level]
    && next == st.mem.next[st.readers[r].level][st.readers[r].x]
  }

  ghost predicate GoesOn(st: State, r: nat, next: Option<Id>)
    requires r in st.readers
  {
    next.Some? && next.value in st.mem.keys && Passes(st.mem.keys, st.readers[r].goal, next.value)
  }

  ghost predicate Next(st: State, step: Step, st': State) {
    match step
    case Begin(x, key, height, prev) =>
      && st.writer.Resting? && Shape(st.mem, st.cs) && x != HEAD && x !in st.mem.keys && 1 <= height <= MAX_HEIGHT
      && Places(st.mem.keys, st.cs, key, prev, 0, height)
      && st' == st.(mem := NewNode(st.mem, x, key, height), writer := Linking(x, key, height, prev, 0, false))
    case Own =>
      && st.writer.Linking? && !st.writer.own && st.writer.level < |st.mem.next| && st.writer.level < |st.writer.prev|
      && st.writer.prev[st.writer.level] in st.mem.next[st.writer.level]
      && st' == st.(mem := StoreOwn(st.mem, st.writer.level, st.writer.x, st.writer.prev[st.writer.level]),
                    writer := st.writer.(own := true))
    case Show(n) =>
      && st.writer.Linking? && st.writer.own && st.writer.level < |st.mem.next| && st.writer.level < |st.cs|
      && st.writer.level < |st.writer.prev|
      && NodesOk(st.mem.keys, st.cs[st.writer.level])
      && Place(st.mem.keys, st.cs[st.writer.level], st.writer.key, st.writer.prev[st.writer.level], n)
      && st' == st.(mem := Publish(st.mem, st.writer.level, st.writer.x, st.writer.prev[st.writer.level]),
                    cs := st.cs[st.writer.level := InsertAt(st.cs[st.writer.level], n, st.writer.x)],
                    writer := NextWriter(st.writer))
    case Start(r, goal, height) =>
      && r !in st.readers && 1 <= height <= MAX_HEIGHT
      && st' == st.(readers := st.readers[r := Reader(goal, HEAD, height - 1)])
    case Right(r) =>
      exists next :: Reads(st, r, next) && GoesOn(st, r, next)
                     && st' == st.(readers := st.readers[r := st.readers[r].(x := next.value)])
    case Down(r) =>
      && (exists next :: Reads(st, r, next) && !GoesOn(st, r, next)) && st.readers[r].level > 0
      && st' == st.(readers := st.readers[r := st.readers[r].(level := st.readers[r].level - 1)])
    case Finish(r) =>
      && (exists next :: Reads(st, r, next) && !GoesOn(st, r, next)) && st.readers[r].level == 0
      && st' == st.(readers := st.readers - {r})
  }

  ghost predicate Inv(st: State) {
    WriterOk(st.mem, st.cs, st.writer) && forall r :: r in st.readers ==> ReaderOk(st.mem, st.cs, st.readers[r])
  }

  /** Nodes keep their keys and no list loses a node. */
  ghost predicate Grows(st: State, st': State) {
    && (forall x :: x in st.mem.keys ==> x in st'.mem.keys && st'.mem.keys[x] == st.mem.keys[x])
    && |st.cs| == |st'.cs|
    && forall l, x :: 0 <= l < |st.cs| && Member(st.cs[l], x) ==> Member(st'.cs[l], x)
  }

  lemma StepGrows(st: State, step: Step, st': State)
    requires Inv(st) && Next(st, step, st')
    ensures Grows(st, st')
  {
    if step.Show? {
      forall l, x | 0 <= l < |st.cs| && Member(st.cs[l], x) ensures Member(st'.cs[l], x) {
        if l == st.writer.level {
          MemberGrows(st.cs[l], step.n, st.writer.x, x);
        }
      }
    }
  }

  lemma ReaderStays(st: State, st': State, r: nat)
    requires Grows(st, st') && r in st.readers && r in st'.readers && st.readers[r] == st'.readers[r]
    requires ReaderOk(st.mem, st.cs, st.readers[r])
    ensures ReaderOk(st'.mem, st'.cs, st'.readers[r])
  {
  }

  lemma ReaderMoves(st: State, step: Step, st': State)
    requires Inv(st) && Next(st, step, st') && (step.Right? || step.Down?)
    ensures ReaderOk(st'.mem, st'.cs, st'.readers[step.r])
  {
    var r := st.readers[step.r];
    assert ReaderOk(st.mem, st.cs, r);
    assert Chain(st.mem.keys, st.mem.next[r.level], st.cs[r.level]);
    MoveRight(st.mem.keys, st.mem.next[r.level], st.cs[r.level], r.goal, r.x);
    if step.Down? {
      MoveDown(st.mem, st.cs, r.level, r.goal, r.x);
    }
  }

  lemma WriterKeeps(st: State, step: Step, st': State)
    requires Inv(st) && Next(st, step, st')
    ensures WriterOk(st'.mem, st'.cs, st'.writer)
  {
    match step
    case Begin(x, key, height, prev) => BeginKeeps(st.mem, st.cs, x, key, height, prev);
    case Own => StoreOwnKeeps(st.mem, st.cs, st.writer);
    case Show(n) => PublishKeeps(st.mem, st.cs, st.writer, n);
    case _ =>
  }

  lemma StepKeeps(st: State, step: Step, st': State)
    requires Inv(st) && Next(st, step, st')
    ensures Inv(st')
  {
    WriterKeeps(st, step, st');
    StepGrows(st, step, st');
    forall r | r in st'.readers ensures ReaderOk(st'.mem, st'.cs, st'.readers[r]) {
      if (step.Right? || step.Down?) && r == step.r {
        ReaderMoves(st, step, st');
      } else if !(step.Start? && r == step.r) {
        ReaderStays(st, st', r);
      }
    }
  }

  // ----- What a finished walk returns -----

  /** The node a walk hands back. */
  function ResultOf(goal: Goal, x: Id, next: Option<Id>): Option<Id> {
    if goal.AtLeast? then next else if x == HEAD then None else Some(x)
  }

  /** The right answer on the list `c`. */
  ghost predicate RightAnswer(keys: Keys, c: seq<Id>, goal: Goal, result: Option<Id>)
    requires NodesOk(keys, c)
  {
    match goal
    case AtLeast(k) =>
      (match result
       case None => forall i :: 0 <= i < |c| ==> keys[c[i]] < k
       case Some(y) =>
         && Member(c, y) && y in keys && keys[y] >= k
         && forall i :: 0 <= i < |c| && keys[c[i]] >= k ==> keys[y] <= keys[c[i]])
    case Before(k) =>
      (match result
       case None => forall i :: 0 <= i < |c| ==> keys[c[i]] >= k
       case Some(y) =>
         && Member(c, y) && y in keys && keys[y] < k
         && forall i :: 0 <= i < |c| && keys[c[i]] < k ==> keys[c[i]] <= keys[y])
    case Last =>
      (match result
       case None => c == []
       case Some(y) => Member(c, y) && y in keys && forall i :: 0 <= i < |c| ==> keys[c[i]] <= keys[y])
  }

  lemma StopsRight(keys: Keys, c: seq<Id>, goal: Goal, x: Id, next: Option<Id>)
    requires NodesOk(keys, c) && Ascending(keys, c) && Stops(keys, c, goal, x, next)
    ensures RightAnswer(keys, c, goal, ResultOf(goal, x, next))
  {
    var n :| 0 <= n <= |c|
      && (forall i :: 0 <= i < n ==> Passes(keys, goal, c[i]))
      && (forall i :: n <= i < |c| ==> !Passes(keys, goal, c[i]))
      && x == (if n == 0 then HEAD else c[n - 1]) && next == At(c, n);
    assert forall i :: n < i < |c| ==> keys[c[n]] < keys[c[i]];
    assert n > 0 ==> forall i :: 0 <= i < n - 1 ==> keys[c[i]] < keys[c[n - 1]];
    assert n < |c| ==> Member(c, c[n]);
    assert n > 0 ==> Member(c, c[n - 1]);
  }

  /** A walk that finishes returns the right answer for the level-0 list as it is
      at the walk's last read, wherever the writer was. */
  lemma FinishIsRight(st: State, r: nat, next: Option<Id>, st': State)
    requires Inv(st) && Next(st, Finish(r), st') && Reads(st, r, next)
    ensures RightAnswer(st.mem.keys, st.cs[0], st.readers[r].goal, ResultOf(st.readers[r].goal, st.readers[r].x, next))
  {
    var w := st.readers[r];
    assert ReaderOk(st.mem, st.cs, w);
    assert Chain(st.mem.keys, st.mem.next[0], st.cs[0]);
    MoveRight(st.mem.keys, st.mem.next[0], st.cs[0], w.goal, w.x);
    StopHere(st.mem.keys, st.mem.next[0], st.cs[0], w.goal, w.x);
    StopsRight(st.mem.keys, st.cs[0], w.goal, w.x, next);
  }

  // ----- Whole runs -----

  ghost predicate IsRun(states: seq<State>, steps: seq<Step>) {
    && |states| == |steps| + 1 && Inv(states[0])
    && forall i :: 0 <= i < |steps| ==> Next(states[i], steps[i], states[i + 1])
  }

  lemma {:induction false} RunKeeps(states: seq<State>, steps: seq<Step>, i: nat)
    requires IsRun(states, steps) && i < |states|
    ensures Inv(states[i])
    decreases i
  {
    if i > 0 {
      RunKeeps(states, steps, i - 1);
      StepKeeps(states[i - 1], steps[i - 1], states[i]);
    }
  }

  lemma RunStepGrows(states: seq<State>, steps: seq<Step>, i: nat)
    requires IsRun(states, steps) && i < |steps|
    ensures Grows(states[i], states[i + 1])
  {
    RunKeeps(states, steps, i);
    StepGrows(states[i], steps[i], states[i + 1]);
  }

  lemma GrowsOn(a: State, b: State, c: State)
    requires Grows(a, b) && Grows(b, c)
    ensures Grows(a, c)
  {}

  lemma {:induction false} RunGrows(states: seq<State>, steps: seq<Step>, i: nat, j: nat)
    requires IsRun(states, steps) && i <= j < |states|
    ensures Grows(states[i], states[j])
    decreases j
  {
    if i < j {
      RunGrows(states, steps, i, j - 1);
      RunStepGrows(states, steps, j - 1);
      GrowsOn(states[i], states[j - 1], states[j]);
    }
  }

  /** In every interleaving, a seek that began when `y` was already in the list and
      `y` is at or after its target does not come back with anything after `y`. */
  lemma SeekSeesEarlierInserts(states: seq<State>, steps: seq<Step>, i: nat, j: nat, r: nat, y: Id, next: Option<Id>)
    requires IsRun(states, steps) && i <= j < |steps| && steps[j] == Finish(r) && Reads(states[j], r, next)
    requires states[j].readers[r].goal.AtLeast?
    requires |states[i].cs| > 0 && Member(states[i].cs[0], y) && y in states[i].mem.keys
    requires states[i].mem.keys[y] >= states[j].readers[r].goal.key
    ensures next.Some? && next.value in states[j].mem.keys
    ensures states[j].readers[r].goal.key <= states[j].mem.keys[next.value] <= states[i].mem.keys[y]
  {
    RunKeeps(states, steps, j);
    RunGrows(states, steps, i, j);
    FinishIsRight(states[j], r, next, states[j + 1]);
    var k :| 0 <= k < |states[j].cs[0]| && states[j].cs[0][k] == y;
  }

  // ----- The operations themselves -----

  /** With the key absent, the last node before it is its place. */
  lemma StopsIsPlace(keys: Keys, c: seq<Id>, key: Key, x: Id, next: Option<Id>)
    requires NodesOk(keys, c) && Stops(keys, c, AtLeast(key), x, next)
    requires forall i :: 0 <= i < |c| ==> keys[c[i]] != key
    ensures HasPlace(keys, c, key, x)
  {
    var goal := AtLeast(key);
    var n :| 0 <= n <= |c|
      && (forall i :: 0 <= i < n ==> Passes(keys, goal, c[i]))
      && (forall i :: n <= i < |c| ==> !Passes(keys, goal, c[i]))
      && x == (if n == 0 then HEAD else c[n - 1]) && next == At(c, n);
    assert Place(keys, c, key, x, n);
  }

  /** A key missing at the bottom is missing on every level. */
  lemma {:induction false} MissingAbove(mem: Memory, cs: seq<seq<Id>>, key: Key, l: nat)
    requires Shape(mem, cs) && l < MAX_HEIGHT && NodesOk(mem.keys, cs[0]) && NodesOk(mem.keys, cs[l])
    requires forall i :: 0 <= i < |cs[0]| ==> mem.keys[cs[0][i]] != key
    ensures forall i :: 0 <= i < |cs[l]| ==> mem.keys[cs[l][i]] != key
    decreases l
  {
    if l > 0 {
      assert Chain(mem.keys, mem.next[l - 1], cs[l - 1]);
      MissingAbove(mem, cs, key, l - 1);
      assert Sublist(cs[l], cs[l - 1]);
      forall i | 0 <= i < |cs[l]| ensures mem.keys[cs[l][i]] != key {
        assert Member(cs[l - 1], cs[l][i]);
        var j :| 0 <= j < |cs[l - 1]| && cs[l - 1][j] == cs[l][i];
      }
    }
  }

  class List {
    var mem: Memory
    var nextId: Id
    ghost var cs: seq<seq<Id>>

    ghost predicate Valid()
      reads this
    {
      Shape(mem, cs) && nextId > HEAD && forall x :: x in mem.keys ==> x < nextId
    }

    ghost function KeySet(): set<Key>
      requires Valid()
      reads this
    {
      assert Chain(mem.keys, mem.next[0], cs[0]);
      KeysOf(mem.keys, cs[0])
    }

    constructor ()
      ensures Valid() && KeySet() == {}
    {
      mem := Memory(map[], seq(MAX_HEIGHT, _ => map[HEAD := None]), 1);
      nextId := HEAD + 1;
      cs := seq(MAX_HEIGHT, _ => []);
    }

    /** How far along `c` the walk stands at `x`. */
    ghost function Position(c: seq<Id>, x: Id): (n: nat)
      requires x == HEAD || Member(c, x)
      ensures n <= |c|
    {
      if x == HEAD then 0
      else
        var i :| 0 <= i < |c| && c[i] == x;
        i + 1
    }

    lemma RightIsLater(l: nat, goal: Goal, x: Id)
      requires Valid() && l < MAX_HEIGHT && Standing(mem.keys, cs[l], goal, x)
      ensures x in mem.next[l]
      ensures var next := mem.next[l][x];
              next.Some? && Member(cs[l], next.value) ==> Position(cs[l], next.value) > Position(cs[l], x)
    {
      var c := cs[l];
      assert Chain(mem.keys, mem.next[l], c);
      var n := StandingLink(mem.keys, mem.next[l], c, goal, x);
      assert forall i, j :: 0 <= i < j < |c| ==> c[i] != c[j];
    }

    /** From level `level` up, `prev` is where the walk stopped. */
    ghost predicate StoppedFrom(goal: Goal, prev: seq<Id>, level: nat)
      requires |prev| == |cs| == MAX_HEIGHT
      reads this
    {
      forall l :: level <= l < MAX_HEIGHT ==> StopsAt(mem.keys, cs[l], goal, prev[l])
    }

    lemma EmptyAbove(goal: Goal, prev: seq<Id>)
      requires Valid() && |prev| == MAX_HEIGHT && forall l :: 0 <= l < MAX_HEIGHT ==> prev[l] == HEAD
      ensures StoppedFrom(goal, prev, mem.maxHeight)
    {
      forall l | mem.maxHeight <= l < MAX_HEIGHT ensures StopsAt(mem.keys, cs[l], goal, prev[l]) {
        assert Stops(mem.keys, cs[l], goal, prev[l], At(cs[l], 0));
      }
    }

    lemma StoppedOne(goal: Goal, prev: seq<Id>, level: nat, x: Id)
      requires Valid() && |prev| == MAX_HEIGHT && level < MAX_HEIGHT && StoppedFrom(goal, prev, level + 1)
      requires StopsAt(mem.keys, cs[level], goal, x)
      ensures StoppedFrom(goal, prev[level := x], level)
    {
    }

    /** One level of the walk: right while the next node is before the goal. */
    method WalkLevel(goal: Goal, start: Id, level: nat) returns (x: Id, next: Option<Id>)
      requires Valid() && level < MAX_HEIGHT && Standing(mem.keys, cs[level], goal, start)
      ensures Standing(mem.keys, cs[level], goal, x)
      ensures NodesOk(mem.keys, cs[level]) && Stops(mem.keys, cs[level], goal, x, next)
    {
      ghost var c := cs[level];
      assert Chain(mem.keys, mem.next[level], c);
      x := start;
      while true
        invariant Standing(mem.keys, c, goal, x)
        decreases |c| - Position(c, x)
      {
        MoveRight(mem.keys, mem.next[level], c, goal, x);
        StopHere(mem.keys, mem.next[level], c, goal, x);
        RightIsLater(level, goal, x);
        next := mem.next[level][x];
        if next.None? || !Passes(mem.keys, goal, next.value) {
          return;
        }
        x := next.value;
      }
    }

    /** FindGreaterOrEqual, FindLessThan and FindLast share this walk: level by
        level from the top, noting where it left each one. */
    method Walk(goal: Goal) returns (x: Id, next: Option<Id>, prev: seq<Id>)
      requires Valid()
      ensures NodesOk(mem.keys, cs[0]) && Stops(mem.keys, cs[0], goal, x, next)
      ensures |prev| == MAX_HEIGHT && StoppedFrom(goal, prev, 0)
    {
      prev := seq(MAX_HEIGHT, _ => HEAD);
      EmptyAbove(goal, prev);
      var level := mem.maxHeight - 1;
      x, next := WalkLevel(goal, HEAD, level);
      StoppedOne(goal, prev, level, x);
      prev := prev[level := x];
      while level > 0
        invariant 0 <= level < MAX_HEIGHT && |prev| == MAX_HEIGHT && StoppedFrom(goal, prev, level)
        invariant Standing(mem.keys, cs[level], goal, x)
        invariant NodesOk(mem.keys, cs[level]) && Stops(mem.keys, cs[level], goal, x, next)
      {
        MoveDown(mem, cs, level, goal, x);
        level := level - 1;
        x, next := WalkLevel(goal, x, level);
        StoppedOne(goal, prev, level, x);
        prev := prev[level := x];
      }
    }

    /** The first key at or after `key`, if any. */
    method Seek(key: Key) returns (r: Option<Id>)
      requires Valid()
      ensures NodesOk(mem.keys, cs[0]) && RightAnswer(mem.keys, cs[0], AtLeast(key), r)
    {
      assert Chain(mem.keys, mem.next[0], cs[0]);
      var x, next, prev := Walk(AtLeast(key));
      StopsRight(mem.keys, cs[0], AtLeast(key), x, next);
      r := next;
    }

    method Contains(key: Key) returns (b: bool)
      requires Valid()
      ensures b <==> key in KeySet()
    {
      var r := Seek(key);
      b := r.Some? && mem.keys[r.value] == key;
    }

    /** The iterator's Prev: the last node before the current one. */
    method Prev(id: Id) returns (r: Option<Id>)
      requires Valid() && id in mem.keys
      ensures NodesOk(mem.keys, cs[0]) && RightAnswer(mem.keys, cs[0], Before(mem.keys[id]), r)
    {
      assert Chain(mem.keys, mem.next[0], cs[0]);
      var goal := Before(mem.keys[id]);
      var x, next, prev := Walk(goal);
      StopsRight(mem.keys, cs[0], goal, x, next);
      r := if x == HEAD then None else Some(x);
    }

    /** SeekToLast. */
    method FindLast() returns (r: Option<Id>)
      requires Valid()
      ensures NodesOk(mem.keys, cs[0]) && RightAnswer(mem.keys, cs[0], Last, r)
    {
      assert Chain(mem.keys, mem.next[0], cs[0]);
      var x, next, prev := Walk(Last);
      StopsRight(mem.keys, cs[0], Last, x, next);
      r := if x == HEAD then None else Some(x);
    }

    lemma ReadyToLink(key: Key, prev: seq<Id>, height: nat)
      requires Valid() && |prev| == MAX_HEIGHT && StoppedFrom(AtLeast(key), prev, 0) && height <= MAX_HEIGHT
      requires key !in KeySet()
      ensures Places(mem.keys, cs, key, prev, 0, height)
    {
      assert Chain(mem.keys, mem.next[0], cs[0]);
      forall l | 0 <= l < height ensures HasPlace(mem.keys, cs[l], key, prev[l]) {
        assert StopsAt(mem.keys, cs[l], AtLeast(key), prev[l]);
        MissingAbove(mem, cs, key, l);
        var next :| Stops(mem.keys, cs[l], AtLeast(key), prev[l], next);
        StopsIsPlace(mem.keys, cs[l], key, prev[l], next);
      }
    }

    /** Link the node on one level: its own pointer first, then the predecessor's. */
    method LinkLevel(x: Id, prev: Id, level: nat, ghost w: Writer)
      requires Valid() && WriterOk(mem, cs, w) && w.Linking? && !w.own && x == w.x
      requires level == w.level && prev == w.prev[level]
      modifies this`mem, this`cs
      ensures Valid() && WriterOk(mem, cs, NextWriter(w))
      ensures mem.keys == old(mem.keys) && mem.maxHeight == old(mem.maxHeight)
      ensures level > 0 ==> cs[0] == old(cs[0])
      ensures level == 0 ==> exists n :: 0 <= n <= |old(cs[0])| && cs[0] == InsertAt(old(cs[0]), n, x)
    {
      StoreOwnKeeps(mem, cs, w);
      mem := StoreOwn(mem, level, x, prev);
      ghost var n := PrevLinked(mem, cs, w.(own := true));
      PublishKeeps(mem, cs, w.(own := true), n);
      mem := Publish(mem, level, x, prev);
      cs := cs[level := InsertAt(cs[level], n, x)];
    }

    /** The linking loop, from the bottom level up. */
    method LinkAll(x: Id, prev: seq<Id>, height: nat, ghost w: Writer)
      requires Valid() && WriterOk(mem, cs, w) && w.Linking? && w == Linking(x, w.key, height, prev, 0, false)
      modifies this`mem, this`cs
      ensures Valid() && mem.keys == old(mem.keys)
      ensures exists n :: 0 <= n <= |old(cs[0])| && cs[0] == InsertAt(old(cs[0]), n, x)
    {
      LinkLevel(x, prev[0], 0, w);
      for i := 1 to height
        invariant Valid() && mem.keys == old(mem.keys) && mem.maxHeight == old(mem.maxHeight)
        invariant WriterOk(mem, cs, if i == height then Resting else w.(level := i))
        invariant exists n :: 0 <= n <= |old(cs[0])| && cs[0] == InsertAt(old(cs[0]), n, x)
      {
        LinkLevel(x, prev[i], i, w.(level := i));
      }
    }

    /** Insert: `height` is what RandomHeight returned.  The key set grows by the
        key and nothing else, whatever the height. */
    method Insert(key: Key, height: nat)
      requires Valid() && key !in KeySet() && 1 <= height <= MAX_HEIGHT
      modifies this
      ensures Valid() && KeySet() == old(KeySet()) + {key}
    {
      var _, _, prev := Walk(AtLeast(key));
      ReadyToLink(key, prev, height);
      ghost var before, was := cs[0], mem.keys;
      assert NodesOk(was, before) by {
        assert Chain(mem.keys, mem.next[0], cs[0]);
      }
      var x := nextId;
      BeginKeeps(mem, cs, x, key, height, prev);
      mem, nextId := NewNode(mem, x, key, height), nextId + 1;
      LinkAll(x, prev, height, Linking(x, key, height, prev, 0, false));
      ghost var n :| 0 <= n <= |before| && cs[0] == InsertAt(before, n, x);
      KeysAfter(was, before, n, x, key);
    }
  }

  ghost function KeysOf(keys: Keys, c: seq<Id>): set<Key>
    requires NodesOk(keys, c)
  {
    set i | 0 <= i < |c| :: keys[c[i]]
  }

  /** The keys of a list that gained a node. */
  lemma KeysAfter(keys: Keys, c: seq<Id>, n: nat, x: Id, key: Key)
    requires NodesOk(keys, c) && n <= |c| && x !in keys && x != HEAD
    ensures NodesOk(keys[x := key], InsertAt(c, n, x))
    ensures KeysOf(keys[x := key], InsertAt(c, n, x)) == KeysOf(keys, c) + {key}
  {
    var r, more := InsertAt(c, n, x), keys[x := key];
    forall k | k in KeysOf(keys, c) ensures k in KeysOf(more, r) {
      var i :| 0 <= i < |c| && keys[c[i]] == k;
      assert more[r[if i < n then i else i + 1]] == k;
    }
    assert more[r[n]] == key;
    forall k | k in KeysOf(more, r) ensures k in KeysOf(keys, c) + {key} {
      var i :| 0 <= i < |r| && more[r[i]] == k;
      assert i < n ==> r[i] == c[i];
      assert i > n ==> r[i] == c[i - 1];
    }
  }
}
