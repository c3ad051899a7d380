/** Bytewise order, and the shortened keys between two blocks of a table. */
module Separators {
  import opened Coding

  // ----- Bytewise order -----

  predicate LexLess(a: Bytes, b: Bytes)
    decreases |a|
  {
    |b| > 0 && (|a| == 0 || a[0] < b[0] || (a[0] == b[0] && LexLess(a[1..], b[1..])))
  }

  lemma {:induction false} LexTransitive(a: Bytes, b: Bytes, c: Bytes)
    ensures LexLess(a, b) && LexLess(b, c) ==> LexLess(a, c)
    decreases |a|
  {
    if |a| > 0 && |b| > 0 && |c| > 0 && a[0] == b[0] == c[0] {
      LexTransitive(a[1..], b[1..], c[1..]);
    }
  }

  lemma {:induction false} LexIrreflexive(a: Bytes)
    ensures !LexLess(a, a)
    decreases |a|
  {
    if |a| > 0 {
      LexIrreflexive(a[1..]);
    }
  }

  lemma {:induction false} LexTotal(a: Bytes, b: Bytes)
    ensures !(LexLess(a, b) && LexLess(b, a)) && (LexLess(a, b) || LexLess(b, a) || a == b)
    decreases |a|
  {
    if |a| > 0 && |b| > 0 && a[0] == b[0] {
      LexTotal(a[1..], b[1..]);
      assert a == [a[0]] + a[1..] && b == [b[0]] + b[1..];
    }
  }

  /** The first byte that differs decides. */
  lemma {:induction false} LexByDifference(a: Bytes, b: Bytes, d: nat)
    requires d < |a| && d < |b| && a[..d] == b[..d] && a[d] < b[d]
    ensures LexLess(a, b)
    decreases d
  {
    if d > 0 {
      assert a[0] == a[..d][0] == b[..d][0] == b[0];
      assert a[1..][..d - 1] == a[..d][1..] == b[..d][1..] == b[1..][..d - 1];
      LexByDifference(a[1..], b[1..], d - 1);
    }
  }

  /** The length of the common prefix. */
  function Common(a: Bytes, b: Bytes): (d: nat)
    ensures d <= |a| && d <= |b| && a[..d] == b[..d] && (d < |a| && d < |b| ==> a[d] != b[d])
    decreases |a|
  {
    if |a| == 0 || |b| == 0 || a[0] != b[0] then 0 else 1 + Common(a[1..], b[1..])
  }

  lemma CommonIs(a: Bytes, b: Bytes, d: nat)
    requires d <= |a| && d <= |b| && a[..d] == b[..d] && (d < |a| && d < |b| ==> a[d] != b[d])
    ensures d == Common(a, b)
  {
    var c := Common(a, b);
    assert forall j :: 0 <= j < d ==> a[j] == a[..d][j] == b[..d][j] == b[j];
    assert forall j :: 0 <= j < c ==> a[j] == a[..c][j] == b[..c][j] == b[j];
  }

  /** How many bytes cannot be raised. */
  function High(key: Bytes): (i: nat)
    ensures i <= |key| && (forall j :: 0 <= j < i ==> key[j] == 255) && (i < |key| ==> key[i] < 255)
    decreases |key|
  {
    if |key| == 0 || key[0] != 255 then 0 else 1 + High(key[1..])
  }

  /** The start cut after the first difference and raised there, if that stays below the limit. */
  function UserSeparator(start: Bytes, limit: Bytes): Bytes {
    var d := Common(start, limit);
    if d < |start| && d < |limit| && start[d] < 255 && start[d] as int + 1 < limit[d] as int
    then start[..d] + [start[d] + 1] else start
  }

  /** The key cut after the first byte below 0xff and raised there. */
  function UserSuccessor(key: Bytes): Bytes {
    var i := High(key);
    if i < |key| then key[..i] + [key[i] + 1] else key
  }

  /** A separator is the start, or lies after it and before the limit, and is never longer. */
  lemma SeparatorBetween(start: Bytes, limit: Bytes)
    ensures var r := UserSeparator(start, limit);
            |r| <= |start| && (r == start || (LexLess(start, r) && LexLess(r, limit)))
  {
    var d, r := Common(start, limit), UserSeparator(start, limit);
    if r != start {
      assert r[..d] == start[..d];
      LexByDifference(start, r, d);
      LexByDifference(r, limit, d);
    }
  }

  /** It is cut right after the first difference, and one more there, exactly when that is still below
      the limit's byte; in every other case it is the start. */
  lemma SeparatorCuts(start: Bytes, limit: Bytes, d: nat)
    requires d <= |start| && d <= |limit| && start[..d] == limit[..d]
    requires d < |start| && d < |limit| ==> start[d] != limit[d]
    ensures if d < |start| && d < |limit| && start[d] as int + 1 < limit[d] as int
            then UserSeparator(start, limit) == start[..d] + [start[d] + 1]
            else UserSeparator(start, limit) == start
  {
    CommonIs(start, limit, d);
  }

  /** It is cut right after the first byte that is not 0xff, and one more there. */
  lemma SuccessorCuts(key: Bytes, i: nat)
    requires i < |key| && key[i] < 255 && forall j :: 0 <= j < i ==> key[j] == 255
    ensures UserSuccessor(key) == key[..i] + [key[i] + 1]
  {
    assert !(High(key) < i) && !(i < High(key));
  }

  lemma SuccessorAfter(key: Bytes)
    ensures var r := UserSuccessor(key);
            && |r| <= |key| && (r == key || LexLess(key, r))
            && (r == key <==> forall i :: 0 <= i < |key| ==> key[i] == 255)
  {
    var i, r := High(key), UserSuccessor(key);
    if i < |key| {
      assert r[..i] == key[..i];
      LexByDifference(key, r, i);
      LexIrreflexive(key);
    }
  }

  /** BytewiseComparator::FindShortestSeparator. */
  method FindShortestSeparator(start: Bytes, limit: Bytes) returns (r: Bytes)
    ensures r == UserSeparator(start, limit)
  {
    var min := if |start| < |limit| then |start| else |limit|;
    var d := 0;
    while d < min && start[d] == limit[d]
      invariant 0 <= d <= min && start[..d] == limit[..d]
    {
      d := d + 1;
    }
    CommonIs(start, limit, d);
    r := start;
    if d < min && start[d] < 255 && start[d] as int + 1 < limit[d] as int {
      r := start[..d] + [start[d] + 1];
    }
  }

  /** BytewiseComparator::FindShortSuccessor: a run of 0xff is left alone. */
  method FindShortSuccessor(key: Bytes) returns (r: Bytes)
    ensures r == UserSuccessor(key)
  {
    for i := 0 to |key|
      invariant forall j :: 0 <= j < i ==> key[j] == 255
    {
      if key[i] != 255 {
        assert i == High(key);
        r := key[..i] + [key[i] + 1];
        return;
      }
    }
    r := key;
  }

  // ----- Internal keys -----

  datatype IKey = IKey(user: Bytes, tag: nat)

  /** The tag of the highest sequence number and the seek type: it sorts first
      among the entries of its user key. */
  const FIRST_TAG: nat := 0xff_ffff_ffff_ffff * 256 + 1

  predicate Less(a: IKey, b: IKey) {
    LexLess(a.user, b.user) || (a.user == b.user && a.tag > b.tag)
  }

  lemma LessOrder(a: IKey, b: IKey, c: IKey)
    ensures Less(a, b) && Less(b, c) ==> Less(a, c)
    ensures !(Less(a, b) && Less(b, a)) && (Less(a, b) || Less(b, a) || a == b)
  {
    LexTransitive(a.user, b.user, c.user);
    LexTotal(a.user, b.user);
    LexTotal(b.user, c.user);
  }

  /** `r` may stand for the end of a block that ends with `last`. */
  ghost predicate Ends(last: IKey, r: IKey) {
    r == last || (LexLess(last.user, r.user) && r.tag == FIRST_TAG)
  }

  function SeparatorKey(start: IKey, limit: IKey): IKey {
    var tmp := UserSeparator(start.user, limit.user);
    if |tmp| < |start.user| && LexLess(start.user, tmp) then IKey(tmp, FIRST_TAG) else start
  }

  function SuccessorKey(key: IKey): IKey {
    var tmp := UserSuccessor(key.user);
    if |tmp| < |key.user| && LexLess(key.user, tmp) then IKey(tmp, FIRST_TAG) else key
  }

  /** A separator of internal keys is the start, or is shorter, past all entries of its user
      key and before those of the limit's. */
  lemma SeparatorEnds(start: IKey, limit: IKey)
    ensures var r := SeparatorKey(start, limit);
            Ends(start, r) && (r != start ==> LexLess(r.user, limit.user) && |r.user| < |start.user|)
  {
    SeparatorBetween(start.user, limit.user);
    LexIrreflexive(start.user);
  }

  /** The user key is shortened whenever that makes it shorter, and then the tag is the first one. */
  lemma ShortenedKeys(start: IKey, limit: IKey)
    ensures var u, r := UserSeparator(start.user, limit.user), SeparatorKey(start, limit);
            r == if |u| < |start.user| then IKey(u, 256 * 0xff_ffff_ffff_ffff + 1) else start
    ensures var u, r := UserSuccessor(start.user), SuccessorKey(start);
            r == if |u| < |start.user| then IKey(u, 256 * 0xff_ffff_ffff_ffff + 1) else start
  {
    SeparatorBetween(start.user, limit.user);
    SuccessorAfter(start.user);
  }

  lemma SuccessorEnds(key: IKey)
    ensures var r := SuccessorKey(key);
            Ends(key, r) && (r != key ==> |r.user| < |key.user|)
  {
  }

  /** InternalKeyComparator::FindShortestSeparator. */
  method ShortestSeparator(start: IKey, limit: IKey) returns (r: IKey)
    ensures r == SeparatorKey(start, limit)
  {
    var tmp := FindShortestSeparator(start.user, limit.user);
    r := start;
    if |tmp| < |start.user| && LexLess(start.user, tmp) {
      r := IKey(tmp, FIRST_TAG);
    }
  }

  /** InternalKeyComparator::FindShortSuccessor. */
  method ShortSuccessor(key: IKey) returns (r: IKey)
    ensures r == SuccessorKey(key)
  {
    var tmp := FindShortSuccessor(key.user);
    r := key;
    if |tmp| < |key.user| && LexLess(key.user, tmp) {
      r := IKey(tmp, FIRST_TAG);
    }
  }
}
