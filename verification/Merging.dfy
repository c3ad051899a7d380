/** The merging iterator: several child cursors, one of them current. */
module Merging {
  // It moves, in either direction, as one cursor over the union of their keys.

  import opened Entries
  import opened Cursors

  ghost function AllKeys(cs: seq<Child>): set<Key> {
    set i, k | 0 <= i < |cs| && 0 <= k < |cs[i].keys| :: cs[i].keys[k]
  }

  /** Children are sorted and hold distinct keys. */
  ghost predicate ChildrenOk(cs: seq<Child>) {
    && (forall i :: 0 <= i < |cs| ==> ChildOk(cs[i]))
    && (forall i, j :: 0 <= i < j < |cs| ==> Members(cs[i].keys) !! Members(cs[j].keys))
  }

  ghost predicate SameKeys(cs: seq<Child>, ds: seq<Child>) {
    |cs| == |ds| && forall i :: 0 <= i < |cs| ==> cs[i].keys == ds[i].keys
  }

  lemma InAllKeys(cs: seq<Child>, i: nat, x: Key)
    requires i < |cs| && x in Members(cs[i].keys)
    ensures x in AllKeys(cs)
  {
    var k :| 0 <= k < |cs[i].keys| && cs[i].keys[k] == x;
  }

  ghost predicate AllAhead(cs: seq<Child>, cut: Cut) {
    forall i :: 0 <= i < |cs| ==> Ahead(cs[i], cut)
  }

  ghost predicate AllBehind(cs: seq<Child>, cut: Cut) {
    forall i :: 0 <= i < |cs| ==> Behind(cs[i], cut)
  }

  /** The first child with the smallest key among the first `n`. */
  ghost predicate SmallestOf(cs: seq<Child>, n: nat, r: Option<nat>)
    requires n <= |cs|
  {
    match r
    case None => forall i :: 0 <= i < n ==> !IsValid(cs[i])
    case Some(s) =>
      && s < n && IsValid(cs[s])
      && (forall i :: 0 <= i < n && IsValid(cs[i]) ==> KeyOfChild(cs[s]) <= KeyOfChild(cs[i]))
      && (forall i :: 0 <= i < s && IsValid(cs[i]) ==> KeyOfChild(cs[s]) < KeyOfChild(cs[i]))
  }

  /** The last child with the largest key among those from `n` on. */
  ghost predicate LargestOf(cs: seq<Child>, n: nat, r: Option<nat>)
    requires n <= |cs|
  {
    match r
    case None => forall i :: n <= i < |cs| ==> !IsValid(cs[i])
    case Some(s) =>
      && n <= s < |cs| && IsValid(cs[s])
      && (forall i :: n <= i < |cs| && IsValid(cs[i]) ==> KeyOfChild(cs[i]) <= KeyOfChild(cs[s]))
      && (forall i :: s < i < |cs| && IsValid(cs[i]) ==> KeyOfChild(cs[i]) < KeyOfChild(cs[s]))
  }

  function KeyAt(cs: seq<Child>, r: Option<nat>): Option<Key>
    requires r.Some? ==> r.value < |cs| && IsValid(cs[r.value])
  {
    if r.Some? then Some(KeyOfChild(cs[r.value])) else None
  }

  method FindSmallest(cs: seq<Child>) returns (r: Option<nat>)
    ensures SmallestOf(cs, |cs|, r)
  {
    r := None;
    for i := 0 to |cs|
      invariant SmallestOf(cs, i, r)
    {
      if IsValid(cs[i]) {
        if r.None? {
          r := Some(i);
        } else if KeyOfChild(cs[i]) < KeyOfChild(cs[r.value]) {
          r := Some(i);
        }
      }
    }
  }

  method FindLargest(cs: seq<Child>) returns (r: Option<nat>)
    ensures LargestOf(cs, 0, r)
  {
    r := None;
    for i := |cs| downto 0
      invariant LargestOf(cs, i, r)
    {
      if IsValid(cs[i]) {
        if r.None? {
          r := Some(i);
        } else if KeyOfChild(cs[i]) > KeyOfChild(cs[r.value]) {
          r := Some(i);
        }
      }
    }
  }

  /** Every child but the current one stands just past the current key. */
  ghost predicate OthersAhead(cs: seq<Child>, s: nat)
    requires s < |cs| && IsValid(cs[s])
  {
    forall i :: 0 <= i < |cs| && i != s ==> Ahead(cs[i], UpTo(KeyOfChild(cs[s])))
  }

  ghost predicate OthersBehind(cs: seq<Child>, s: nat)
    requires s < |cs| && IsValid(cs[s])
  {
    forall i :: 0 <= i < |cs| && i != s ==> Behind(cs[i], Before(KeyOfChild(cs[s])))
  }

  /** With all children ahead of a cut, the smallest is the union's least key past it. */
  lemma SmallestIsLeast(cs: seq<Child>, cut: Cut, r: Option<nat>)
    requires ChildrenOk(cs) && AllAhead(cs, cut) && SmallestOf(cs, |cs|, r)
    ensures Least(AllKeys(cs), cut, KeyAt(cs, r))
    ensures r.Some? ==> OthersAhead(cs, r.value)
  {
    forall i | 0 <= i < |cs|
      ensures IsValid(cs[i]) ==> !Below(cut, KeyOfChild(cs[i])) && KeyOfChild(cs[i]) in Members(cs[i].keys)
      ensures forall x :: x in Members(cs[i].keys) && !Below(cut, x) ==> IsValid(cs[i]) && KeyOfChild(cs[i]) <= x
    {
      AheadMeans(cs[i], cut);
    }
    if r.Some? {
      var s, m := r.value, KeyOfChild(cs[r.value]);
      InAllKeys(cs, s, m);
      forall i | 0 <= i < |cs| && i != s ensures Ahead(cs[i], UpTo(m)) {
        assert m !in Members(cs[i].keys) by { Elsewhere(cs, s, i, m); }
        AheadStays(cs[i], cut, m);
      }
    }
    forall x | x in AllKeys(cs) && !Below(cut, x) ensures r.Some? && KeyOfChild(cs[r.value]) <= x {
      var i, k :| 0 <= i < |cs| && 0 <= k < |cs[i].keys| && cs[i].keys[k] == x;
      assert x in Members(cs[i].keys);
    }
  }

  lemma Elsewhere(cs: seq<Child>, s: nat, i: nat, m: Key)
    requires ChildrenOk(cs) && s < |cs| && i < |cs| && i != s && m in Members(cs[s].keys)
    ensures m !in Members(cs[i].keys)
  {
    if s < i {
      assert Members(cs[s].keys) !! Members(cs[i].keys);
    } else {
      assert Members(cs[i].keys) !! Members(cs[s].keys);
    }
  }

  lemma LargestIsGreatest(cs: seq<Child>, cut: Cut, r: Option<nat>)
    requires ChildrenOk(cs) && AllBehind(cs, cut) && LargestOf(cs, 0, r)
    ensures Greatest(AllKeys(cs), cut, KeyAt(cs, r))
    ensures r.Some? ==> OthersBehind(cs, r.value)
  {
    forall i | 0 <= i < |cs|
      ensures IsValid(cs[i]) ==> Below(cut, KeyOfChild(cs[i])) && KeyOfChild(cs[i]) in Members(cs[i].keys)
      ensures forall x :: x in Members(cs[i].keys) && Below(cut, x) ==> IsValid(cs[i]) && x <= KeyOfChild(cs[i])
    {
      BehindMeans(cs[i], cut);
    }
    if r.Some? {
      var s, m := r.value, KeyOfChild(cs[r.value]);
      InAllKeys(cs, s, m);
      forall i | 0 <= i < |cs| && i != s ensures Behind(cs[i], Before(m)) {
        assert m !in Members(cs[i].keys) by { Elsewhere(cs, s, i, m); }
        BehindStays(cs[i], cut, m);
      }
    }
    forall x | x in AllKeys(cs) && Below(cut, x) ensures r.Some? && x <= KeyOfChild(cs[r.value]) {
      var i, k :| 0 <= i < |cs| && 0 <= k < |cs[i].keys| && cs[i].keys[k] == x;
      assert x in Members(cs[i].keys);
    }
  }

  class MergingIterator {
    var children: seq<Child>
    var current: Option<nat>
    var forward: bool

    ghost predicate Valid()
      reads this
    {
      && ChildrenOk(children)
      && (current.Some? ==>
            && current.value < |children| && IsValid(children[current.value])
            && if forward then OthersAhead(children, current.value) else OthersBehind(children, current.value))
    }

    /** The key the iterator stands on. */
    ghost function Where(): Option<Key>
      requires Valid()
      reads this
    {
      KeyAt(children, current)
    }

    constructor (children: seq<Child>)
      requires ChildrenOk(children)
      ensures Valid() && Where() == None && this.children == children
    {
      this.children := children;
      current, forward := None, true;
    }

    /** Pick the smallest child once all stand ahead of the cut. */
    method Settle(ghost cut: Cut)
      requires ChildrenOk(children) && AllAhead(children, cut)
      modifies this`current, this`forward
      ensures Valid() && forward && Least(AllKeys(children), cut, Where())
    {
      current := FindSmallest(children);
      forward := true;
      SmallestIsLeast(children, cut, current);
    }

    method SettleBack(ghost cut: Cut)
      requires ChildrenOk(children) && AllBehind(children, cut)
      modifies this`current, this`forward
      ensures Valid() && !forward && Greatest(AllKeys(children), cut, Where())
    {
      current := FindLargest(children);
      forward := false;
      LargestIsGreatest(children, cut, current);
    }

    method SeekToFirst()
      requires Valid()
      modifies this
      ensures Valid() && SameKeys(children, old(children)) && Least(AllKeys(children), Bottom, Where())
    {
      for i := 0 to |children|
        invariant ChildrenOk(children) && SameKeys(children, old(children))
        invariant forall j :: 0 <= j < i ==> Ahead(children[j], Bottom)
      {
        FirstIsAhead(children[i]);
        children := children[i := ToFirst(children[i])];
      }
      Settle(Bottom);
    }

    method SeekToLast()
      requires Valid()
      modifies this
      ensures Valid() && SameKeys(children, old(children)) && Greatest(AllKeys(children), Top, Where())
    {
      for i := 0 to |children|
        invariant ChildrenOk(children) && SameKeys(children, old(children))
        invariant forall j :: 0 <= j < i ==> Behind(children[j], Top)
      {
        LastIsBehind(children[i]);
        children := children[i := ToLast(children[i])];
      }
      SettleBack(Top);
    }

    method Seek(target: Key)
      requires Valid()
      modifies this
      ensures Valid() && SameKeys(children, old(children)) && Least(AllKeys(children), Before(target), Where())
    {
      for i := 0 to |children|
        invariant ChildrenOk(children) && SameKeys(children, old(children))
        invariant forall j :: 0 <= j < i ==> Ahead(children[j], Before(target))
      {
        children := children[i := SeekTo(children[i], target)];
      }
      Settle(Before(target));
    }

    /** Turn around: put every other child just past the current key. */
    method TurnForward()
      requires Valid() && current.Some?
      modifies this`children
      ensures ChildrenOk(children) && SameKeys(children, old(children))
      ensures children[current.value] == old(children)[current.value] && OthersAhead(children, current.value)
    {
      var s := current.value;
      var k := KeyOfChild(children[s]);
      for i := 0 to |children|
        invariant ChildrenOk(children) && SameKeys(children, old(children)) && children[s] == old(children)[s]
        invariant forall j :: 0 <= j < i && j != s ==> Ahead(children[j], UpTo(k))
      {
        if i != s {
          var child := SeekTo(children[i], k);
          Elsewhere(children, s, i, k);
          AbsentKey(children[i], k);
          AheadMeans(child, Before(k));
          if IsValid(child) && KeyOfChild(child) == k {
            child := Step(child);
          }
          children := children[i := child];
        }
      }
    }

    /** Turn around: put every other child just before the current key. */
    method TurnBack()
      requires Valid() && current.Some?
      modifies this`children
      ensures ChildrenOk(children) && SameKeys(children, old(children))
      ensures children[current.value] == old(children)[current.value] && OthersBehind(children, current.value)
    {
      var s := current.value;
      var k := KeyOfChild(children[s]);
      for i := 0 to |children|
        invariant ChildrenOk(children) && SameKeys(children, old(children)) && children[s] == old(children)[s]
        invariant forall j :: 0 <= j < i && j != s ==> Behind(children[j], Before(k))
      {
        if i != s {
          var child := SeekTo(children[i], k);
          if IsValid(child) {
            child := Back(child);
          } else {
            child := ToLast(child);
          }
          children := children[i := child];
        }
      }
    }

    /** Next: the least key of the union after the current one, whichever way the
        iterator was moving. */
    method Next()
      requires Valid() && Where().Some?
      modifies this
      ensures Valid() && SameKeys(children, old(children))
      ensures Least(AllKeys(children), UpTo(old(Where()).value), Where())
    {
      if !forward {
        TurnForward();
        forward := true;
      }
      var s := current.value;
      ghost var k := KeyOfChild(children[s]);
      StepIsAhead(children[s]);
      children := children[s := Step(children[s])];
      Settle(UpTo(k));
    }

    /** Prev: the greatest key of the union before the current one. */
    method Prev()
      requires Valid() && Where().Some?
      modifies this
      ensures Valid() && SameKeys(children, old(children))
      ensures Greatest(AllKeys(children), Before(old(Where()).value), Where())
    {
      if forward {
        TurnBack();
        forward := false;
      }
      var s := current.value;
      ghost var k := KeyOfChild(children[s]);
      BackIsBehind(children[s]);
      children := children[s := Back(children[s])];
      SettleBack(Before(k));
    }
  }

  ghost function Passed(ks: seq<Key>): Cut {
    if |ks| == 0 then Bottom else UpTo(ks[|ks| - 1])
  }

  /** The keys below the cut that the last one makes, in order. */
  ghost predicate Listed(keys: set<Key>, ks: seq<Key>) {
    Increasing(ks) && forall x :: x in Members(ks) <==> x in keys && Below(Passed(ks), x)
  }

  lemma ListOne(keys: set<Key>, ks: seq<Key>, x: Key)
    requires Listed(keys, ks) && Least(keys, Passed(ks), Some(x))
    ensures Listed(keys, ks + [x])
  {
    var more := ks + [x];
    forall i | 0 <= i < |ks| ensures ks[i] < x {
      assert ks[i] in Members(ks);
    }
    forall y ensures y in Members(more) <==> y in keys && Below(Passed(more), y) {
      assert more[|ks|] == x;
      if y in Members(ks) {
        var i :| 0 <= i < |ks| && ks[i] == y;
        assert more[i] == y;
      }
    }
  }

  /** The iterator stands on the first of the keys after `ks`. */
  ghost predicate AtNext(it: MergingIterator, keys: set<Key>, ks: seq<Key>)
    reads it
  {
    it.Valid() && AllKeys(it.children) == keys && Listed(keys, ks) && Least(keys, Passed(ks), it.Where())
  }

  method TakeKey(it: MergingIterator, ks: seq<Key>, ghost keys: set<Key>) returns (more: seq<Key>)
    requires AtNext(it, keys, ks) && it.current.Some?
    modifies it
    ensures AtNext(it, keys, more) && |keys - Members(more)| < |keys - Members(ks)|
  {
    var x := KeyOfChild(it.children[it.current.value]);
    ListOne(keys, ks, x);
    OneFewer(keys, ks, x);
    ghost var before := it.children;
    it.Next();
    SameAllKeys(before, it.children);
    more := ks + [x];
  }

  lemma NoneListed(keys: set<Key>)
    ensures Listed(keys, [])
  {
  }

  lemma AllListed(keys: set<Key>, ks: seq<Key>)
    requires Listed(keys, ks) && Least(keys, Passed(ks), None)
    ensures Increasing(ks) && Members(ks) == keys
  {
    forall x ensures x in Members(ks) <==> x in keys {
      assert x in keys ==> Below(Passed(ks), x);
    }
  }

  /** The children's keys, merged into one sorted list: front to back. */
  method ListAll(children: seq<Child>) returns (ks: seq<Key>)
    requires ChildrenOk(children)
    ensures Increasing(ks) && Members(ks) == AllKeys(children)
  {
    var it := new MergingIterator(children);
    it.SeekToFirst();
    ks := [];
    ghost var keys := AllKeys(children);
    SameAllKeys(children, it.children);
    NoneListed(keys);
    while it.current.Some?
      invariant fresh(it) && AtNext(it, keys, ks)
      decreases |keys - Members(ks)|
    {
      ks := TakeKey(it, ks, keys);
    }
    AllListed(keys, ks);
  }

  lemma SameAllKeys(cs: seq<Child>, ds: seq<Child>)
    requires SameKeys(cs, ds)
    ensures AllKeys(cs) == AllKeys(ds)
  {
  }

  lemma OneFewer(keys: set<Key>, ks: seq<Key>, x: Key)
    requires x in keys && x !in Members(ks)
    ensures |keys - Members(ks + [x])| < |keys - Members(ks)|
  {
    assert Members(ks + [x]) == Members(ks) + {x} by {
      assert (ks + [x])[|ks|] == x;
      assert forall i :: 0 <= i < |ks| ==> (ks + [x])[i] == ks[i];
    }
    assert keys - Members(ks + [x]) == (keys - Members(ks)) - {x};
  }
}
