/** What a cursor over sorted keys is: it stands on a key or nowhere. */
module Cursors {
  // Positions are described by a cut of the key space, so that seeking and stepping,
  // in either direction, are one notion.

  import opened Entries

  type Key = real

  /** A downward-closed part of the key space. */
  datatype Cut = Bottom | Before(key: Key) | UpTo(key: Key) | Top

  predicate Below(c: Cut, x: Key) {
    match c
    case Bottom => false
    case Before(k) => x < k
    case UpTo(k) => x <= k
    case Top => true
  }

  /** The least key that is not below the cut. */
  ghost predicate Least(keys: set<Key>, c: Cut, r: Option<Key>) {
    match r
    case None => forall x :: x in keys ==> Below(c, x)
    case Some(m) => m in keys && !Below(c, m) && forall x :: x in keys && !Below(c, x) ==> m <= x
  }

  /** The greatest key below the cut. */
  ghost predicate Greatest(keys: set<Key>, c: Cut, r: Option<Key>) {
    match r
    case None => forall x :: x in keys ==> !Below(c, x)
    case Some(m) => m in keys && Below(c, m) && forall x :: x in keys && Below(c, x) ==> x <= m
  }

  ghost predicate Increasing(keys: seq<Key>) {
    forall i, j :: 0 <= i < j < |keys| ==> keys[i] < keys[j]
  }

  ghost function Members(keys: seq<Key>): set<Key> {
    set i | 0 <= i < |keys| :: keys[i]
  }

  /** How many of the keys are below the cut. */
  function Rank(keys: seq<Key>, c: Cut): (n: nat)
    ensures n <= |keys|
    decreases |keys|
  {
    if |keys| == 0 then 0
    else if Below(c, keys[|keys| - 1]) then |keys|
    else Rank(keys[..|keys| - 1], c)
  }

  lemma {:induction false} RankSplits(keys: seq<Key>, c: Cut)
    requires Increasing(keys)
    ensures forall i :: 0 <= i < |keys| ==> (Below(c, keys[i]) <==> i < Rank(keys, c))
    decreases |keys|
  {
    if |keys| > 0 && !Below(c, keys[|keys| - 1]) {
      RankSplits(keys[..|keys| - 1], c);
    }
  }

  function At(keys: seq<Key>, i: int): Option<nat> {
    if 0 <= i < |keys| then Some(i) else None
  }

  /** A cursor over one sorted list. */
  datatype Child = Child(keys: seq<Key>, at: Option<nat>)

  ghost predicate ChildOk(c: Child) {
    Increasing(c.keys) && (c.at.Some? ==> c.at.value < |c.keys|)
  }

  predicate IsValid(c: Child) {
    c.at.Some? && c.at.value < |c.keys|
  }

  function KeyOfChild(c: Child): Key
    requires IsValid(c)
  {
    c.keys[c.at.value]
  }

  function SeekTo(c: Child, target: Key): Child {
    c.(at := At(c.keys, Rank(c.keys, Before(target))))
  }

  function ToFirst(c: Child): Child {
    c.(at := At(c.keys, 0))
  }

  function ToLast(c: Child): Child {
    c.(at := At(c.keys, |c.keys| - 1))
  }

  function Step(c: Child): Child
    requires IsValid(c)
  {
    c.(at := At(c.keys, c.at.value + 1))
  }

  function Back(c: Child): Child
    requires IsValid(c)
  {
    c.(at := At(c.keys, c.at.value - 1))
  }

  /** The child stands on its first key not below the cut. */
  ghost predicate Ahead(c: Child, cut: Cut) {
    ChildOk(c) && c.at == At(c.keys, Rank(c.keys, cut))
  }

  /** The child stands on its last key below the cut. */
  ghost predicate Behind(c: Child, cut: Cut) {
    ChildOk(c) && c.at == At(c.keys, Rank(c.keys, cut) - 1)
  }

  lemma FirstIsAhead(c: Child)
    requires ChildOk(c)
    ensures Ahead(ToFirst(c), Bottom)
  {
    RankSplits(c.keys, Bottom);
    assert |c.keys| > 0 ==> !Below(Bottom, c.keys[0]);
  }

  lemma LastIsBehind(c: Child)
    requires ChildOk(c)
    ensures Behind(ToLast(c), Top)
  {
    RankSplits(c.keys, Top);
  }

  /** Two cuts that split the keys alike have one rank. */
  lemma {:induction false} SameRank(keys: seq<Key>, c: Cut, d: Cut)
    requires forall i :: 0 <= i < |keys| ==> (Below(c, keys[i]) <==> Below(d, keys[i]))
    ensures Rank(keys, c) == Rank(keys, d)
    decreases |keys|
  {
    if |keys| > 0 && !Below(c, keys[|keys| - 1]) {
      SameRank(keys[..|keys| - 1], c, d);
    }
  }

  lemma StepIsAhead(c: Child)
    requires ChildOk(c) && IsValid(c)
    ensures Ahead(Step(c), UpTo(KeyOfChild(c)))
  {
    var i, k := c.at.value, KeyOfChild(c);
    RankSplits(c.keys, UpTo(k));
    var n := Rank(c.keys, UpTo(k));
    assert Below(UpTo(k), c.keys[i]);
    assert i + 1 < |c.keys| ==> c.keys[i] < c.keys[i + 1];
    assert i + 1 < |c.keys| ==> !Below(UpTo(k), c.keys[i + 1]);
  }

  lemma BackIsBehind(c: Child)
    requires ChildOk(c) && IsValid(c)
    ensures Behind(Back(c), Before(KeyOfChild(c)))
  {
    var i, k := c.at.value, KeyOfChild(c);
    RankSplits(c.keys, Before(k));
    assert !Below(Before(k), c.keys[i]);
    assert i > 0 ==> c.keys[i - 1] < c.keys[i];
    assert i > 0 ==> Below(Before(k), c.keys[i - 1]);
  }

  /** A child that does not hold `k` stands the same before it and up to it. */
  lemma AbsentKey(c: Child, k: Key)
    requires ChildOk(c) && k !in Members(c.keys)
    ensures Rank(c.keys, Before(k)) == Rank(c.keys, UpTo(k))
  {
    forall i | 0 <= i < |c.keys| ensures Below(Before(k), c.keys[i]) <==> Below(UpTo(k), c.keys[i]) {
      assert c.keys[i] in Members(c.keys);
    }
    SameRank(c.keys, Before(k), UpTo(k));
  }

  /** Moving the cut over keys a child does not have leaves it ahead. */
  lemma AheadStays(c: Child, low: Cut, k: Key)
    requires Ahead(c, low) && !Below(low, k) && k !in Members(c.keys)
    requires IsValid(c) ==> k <= KeyOfChild(c)
    ensures Ahead(c, UpTo(k))
  {
    RankSplits(c.keys, low);
    forall i | 0 <= i < |c.keys| ensures Below(low, c.keys[i]) <==> Below(UpTo(k), c.keys[i]) {
      assert c.keys[i] in Members(c.keys);
      if IsValid(c) && i > c.at.value {
        assert KeyOfChild(c) < c.keys[i];
      }
    }
    SameRank(c.keys, low, UpTo(k));
  }

  lemma BehindStays(c: Child, high: Cut, k: Key)
    requires Behind(c, high) && Below(high, k) && k !in Members(c.keys)
    requires IsValid(c) ==> KeyOfChild(c) <= k
    ensures Behind(c, Before(k))
  {
    RankSplits(c.keys, high);
    forall i | 0 <= i < |c.keys| ensures Below(high, c.keys[i]) <==> Below(Before(k), c.keys[i]) {
      assert c.keys[i] in Members(c.keys);
      if IsValid(c) && i < c.at.value {
        assert c.keys[i] < KeyOfChild(c);
      }
    }
    SameRank(c.keys, high, Before(k));
  }

  /** What an Ahead child says about its own keys. */
  lemma AheadMeans(c: Child, cut: Cut)
    requires Ahead(c, cut)
    ensures IsValid(c) ==> !Below(cut, KeyOfChild(c)) && KeyOfChild(c) in Members(c.keys)
    ensures forall x :: x in Members(c.keys) && !Below(cut, x) ==> IsValid(c) && KeyOfChild(c) <= x
  {
    RankSplits(c.keys, cut);
  }

  lemma BehindMeans(c: Child, cut: Cut)
    requires Behind(c, cut)
    ensures IsValid(c) ==> Below(cut, KeyOfChild(c)) && KeyOfChild(c) in Members(c.keys)
    ensures forall x :: x in Members(c.keys) && Below(cut, x) ==> IsValid(c) && x <= KeyOfChild(c)
  {
    RankSplits(c.keys, cut);
  }

  function Shown(c: Child): Option<Key> {
    if IsValid(c) then Some(KeyOfChild(c)) else None
  }

  /** A place described by a cut is an index into the sorted list, and the other way round:
      an iterator that stands where its contract says is a cursor over one list. */
  lemma PlaceIsIndex(c: Child, cut: Cut, r: Option<Key>)
    requires ChildOk(c)
    ensures Least(Members(c.keys), cut, r) <==> r == Shown(c.(at := At(c.keys, Rank(c.keys, cut))))
    ensures Greatest(Members(c.keys), cut, r) <==> r == Shown(c.(at := At(c.keys, Rank(c.keys, cut) - 1)))
  {
    var ahead, behind := c.(at := At(c.keys, Rank(c.keys, cut))), c.(at := At(c.keys, Rank(c.keys, cut) - 1));
    AheadMeans(ahead, cut);
    BehindMeans(behind, cut);
    OnePlace(Members(c.keys), cut, r, Shown(ahead));
    OnePlace(Members(c.keys), cut, r, Shown(behind));
  }

  /** A cut and a direction leave one place to stand. */
  lemma OnePlace(keys: set<Key>, cut: Cut, a: Option<Key>, b: Option<Key>)
    ensures Least(keys, cut, a) && Least(keys, cut, b) ==> a == b
    ensures Greatest(keys, cut, a) && Greatest(keys, cut, b) ==> a == b
  {
  }
}
