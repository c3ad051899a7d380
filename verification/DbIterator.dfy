/** The user-facing iterator. */
module DbIterator {
  // It turns the versions of all keys, in internal key order, into the live keys with
  // their newest values at one sequence number.

  import opened Entries
  import opened Cursors

  /** Entry `i` is the newest version of its key at or below `s`. */
  ghost predicate FirstVisible(es: seq<Entry>, s: nat, i: nat) {
    i < |es| && es[i].sn <= s && forall j :: 0 <= j < i && es[j].user == es[i].user ==> es[j].sn > s
  }

  /** ... and it is a value, so the key is live. */
  ghost predicate LiveAt(es: seq<Entry>, s: nat, i: nat) {
    FirstVisible(es, s, i) && es[i].kind.Value?
  }

  ghost function LiveKeys(es: seq<Entry>, s: nat): set<Key> {
    set i | 0 <= i < |es| && LiveAt(es, s, i) :: es[i].user
  }

  /** Keys come in increasing order, and the versions of one key newest first. */
  lemma Order(es: seq<Entry>, i: nat, j: nat)
    requires Entries.Sorted(es) && i < j < |es|
    ensures es[i].user <= es[j].user
    ensures es[i].user == es[j].user ==> es[i].sn >= es[j].sn
  {
    assert Entries.Before(es[i], es[j]);
  }

  lemma AllOrdered(es: seq<Entry>)
    requires Entries.Sorted(es)
    ensures forall i, j :: 0 <= i < j < |es| ==> es[i].user <= es[j].user
    ensures forall i, j :: 0 <= i < j < |es| && es[i].user == es[j].user ==> es[i].sn >= es[j].sn
  {
    forall i, j | 0 <= i < j < |es|
      ensures es[i].user <= es[j].user && (es[i].user == es[j].user ==> es[i].sn >= es[j].sn)
    {
      Order(es, i, j);
    }
  }

  /** The live keys are those a read finds, with the value it finds. */
  lemma LiveIsFound(es: seq<Entry>, s: nat, i: nat)
    requires Entries.Sorted(es) && UniqueSn(Elems(es)) && LiveAt(es, s, i)
    ensures Lookup(Elems(es), es[i].user, s) == Found(es[i].value)
  {
    var e := es[i];
    assert Seen(Elems(es), e.user, s, e);
    forall x | Seen(Elems(es), e.user, s, x) ensures x.sn <= e.sn {
      var j :| 0 <= j < |es| && es[j] == x;
      if i < j {
        Order(es, i, j);
      }
    }
    LookupIs(Elems(es), e.user, s, e);
  }

  lemma {:induction false} FirstVisibleExists(es: seq<Entry>, s: nat, u: Key, n: nat) returns (i: nat)
    requires n <= |es| && exists j :: 0 <= j < n && es[j].user == u && es[j].sn <= s
    ensures i < n && FirstVisible(es, s, i) && es[i].user == u
    decreases n
  {
    if j :| 0 <= j < n - 1 && es[j].user == u && es[j].sn <= s {
      i := FirstVisibleExists(es, s, u, n - 1);
    } else {
      i := n - 1;
    }
  }

  lemma FoundIsLive(es: seq<Entry>, s: nat, u: Key, v: Val)
    requires Entries.Sorted(es) && UniqueSn(Elems(es)) && Lookup(Elems(es), u, s) == Found(v)
    ensures exists i :: 0 <= i < |es| && LiveAt(es, s, i) && es[i].user == u && es[i].value == v
  {
    var e :| IsNewest(Elems(es), u, s, e) && AnswerOf(e) == Found(v);
    var k :| 0 <= k < |es| && es[k] == e;
    var i := FirstVisibleExists(es, s, u, |es|);
    assert es[i] in Elems(es) && Seen(Elems(es), u, s, es[i]);
    assert es[i].sn <= e.sn;
    AllOrdered(es);
    assert i <= k && es[i].sn >= e.sn;
    assert es[i] == e;
    assert LiveAt(es, s, i);
  }

  // ----- Forward -----

  predicate Hidden(skipping: bool, skip: Key, u: Key) {
    skipping && u <= skip
  }

  /** A forward scan may start at `p`: a key with an older visible entry before `p`
      is one that is skipped. */
  ghost predicate CanStart(es: seq<Entry>, s: nat, p: nat, skipping: bool, skip: Key) {
    forall j, i :: 0 <= j < p <= i < |es| && es[j].user == es[i].user && es[j].sn <= s ==>
      Hidden(skipping, skip, es[i].user)
  }

  /** The first live entry from `p` on that is not skipped. */
  ghost predicate NextLive(es: seq<Entry>, s: nat, p: nat, skipping: bool, skip: Key, r: Option<nat>) {
    && (r.Some? ==> p <= r.value && LiveAt(es, s, r.value) && !Hidden(skipping, skip, es[r.value].user))
    && (forall j :: p <= j < (if r.Some? then r.value else |es|) && LiveAt(es, s, j) ==>
          Hidden(skipping, skip, es[j].user))
  }

  /** Where the scan has come from: nothing passed is an answer, and what is
      skipped now was skipped from the start or is the key of a passed deletion. */
  ghost predicate Scanned(es: seq<Entry>, s: nat, p: nat, i: nat, skipping0: bool, skip0: Key, skipping: bool,
                          skip: Key) {
    && p <= i <= |es|
    && (forall j :: p <= j < i && LiveAt(es, s, j) ==> Hidden(skipping0, skip0, es[j].user))
    && (skipping0 ==> skipping && skip0 <= skip)
    && (skipping && !(skipping0 && skip == skip0) ==> exists d :: p <= d < i && es[d].user == skip && es[d].sn <= s)
    && CanStart(es, s, i, skipping, skip)
  }

  lemma PassEntry(es: seq<Entry>, s: nat, p: nat, i: nat, skipping0: bool, skip0: Key, skipping: bool, skip: Key)
    requires Entries.Sorted(es) && Scanned(es, s, p, i, skipping0, skip0, skipping, skip) && i < |es|
    requires es[i].sn > s || (es[i].kind.Value? && Hidden(skipping, skip, es[i].user))
    ensures Scanned(es, s, p, i + 1, skipping0, skip0, skipping, skip)
  {
    AllOrdered(es);
  }

  lemma PassDeletion(es: seq<Entry>, s: nat, p: nat, i: nat, skipping0: bool, skip0: Key, skipping: bool, skip: Key)
    requires Entries.Sorted(es) && Scanned(es, s, p, i, skipping0, skip0, skipping, skip) && i < |es|
    requires es[i].sn <= s && es[i].kind.Deletion?
    requires skipping0 ==> skip0 <= es[i].user
    ensures Scanned(es, s, p, i + 1, skipping0, skip0, true, es[i].user)
  {
    forall j, k | 0 <= j < i + 1 <= k < |es| && es[j].user == es[k].user && es[j].sn <= s
      ensures Hidden(true, es[i].user, es[k].user)
    {
      if j < i {
        Order(es, j, i);
        Order(es, i, k);
      }
    }
  }

  lemma Accept(es: seq<Entry>, s: nat, p: nat, i: nat, skipping0: bool, skip0: Key, skipping: bool, skip: Key)
    requires Entries.Sorted(es) && Scanned(es, s, p, i, skipping0, skip0, skipping, skip) && i < |es|
    requires es[i].sn <= s && es[i].kind.Value? && !Hidden(skipping, skip, es[i].user)
    ensures NextLive(es, s, p, skipping0, skip0, Some(i))
  {
  }

  /** FindNextUserEntry. */
  method FindNextUserEntry(es: seq<Entry>, s: nat, p: nat, skipping0: bool, skip0: Key) returns (r: Option<nat>)
    requires Entries.Sorted(es) && p <= |es| && CanStart(es, s, p, skipping0, skip0)
    requires skipping0 ==> forall i :: p <= i < |es| ==> skip0 <= es[i].user
    ensures NextLive(es, s, p, skipping0, skip0, r) && (r.Some? ==> r.value < |es|)
  {
    var skipping, skip, i := skipping0, skip0, p;
    while i < |es|
      invariant Scanned(es, s, p, i, skipping0, skip0, skipping, skip)
    {
      var e := es[i];
      if e.sn <= s {
        if e.kind.Deletion? {
          PassDeletion(es, s, p, i, skipping0, skip0, skipping, skip);
          skipping, skip := true, e.user;
        } else if skipping && e.user <= skip {
          PassEntry(es, s, p, i, skipping0, skip0, skipping, skip);
        } else {
          Accept(es, s, p, i, skipping0, skip0, skipping, skip);
          return Some(i);
        }
      } else {
        PassEntry(es, s, p, i, skipping0, skip0, skipping, skip);
      }
      i := i + 1;
    }
    r := None;
  }

  // ----- Backward -----

  /** Entry `p` is the last version of its key. */
  ghost predicate LastOfKey(es: seq<Entry>, p: nat) {
    p < |es| && forall j :: p < j < |es| ==> es[j].user > es[p].user
  }

  /** What a backward scan from `p` has gathered when it is about to look at
      `i - 1`: `m` is the last visible entry it passed, if that is a value. */
  ghost predicate Gathered(es: seq<Entry>, s: nat, p: nat, i: nat, m: Option<nat>) {
    && i <= p + 1 <= |es|
    && (m.Some? ==> && i <= m.value <= p && es[m.value].sn <= s && es[m.value].kind.Value?
                    && forall j :: i <= j < m.value ==> es[j].sn > s)
    && (forall j :: i <= j <= p && LiveAt(es, s, j) ==> m == Some(j))
  }

  lemma GatherInvisible(es: seq<Entry>, s: nat, p: nat, i: nat, m: Option<nat>)
    requires Gathered(es, s, p, i + 1, m) && es[i].sn > s
    ensures Gathered(es, s, p, i, m)
  {
  }

  /** A visible entry replaces what was gathered, unless that was a live key. */
  lemma GatherVisible(es: seq<Entry>, s: nat, p: nat, i: nat, m: Option<nat>)
    requires Entries.Sorted(es) && Gathered(es, s, p, i + 1, m) && es[i].sn <= s
    requires m.Some? ==> es[i].user >= es[m.value].user
    ensures Gathered(es, s, p, i, if es[i].kind.Value? then Some(i) else None)
  {
    AllOrdered(es);
  }

  /** The greatest live key at or before `p`; where the internal cursor is left. */
  ghost predicate PrevLive(es: seq<Entry>, s: nat, p: int, m: Option<nat>, left: Option<nat>) {
    && p < |es|
    && (match m
        case None => forall j :: 0 <= j <= p ==> !LiveAt(es, s, j)
        case Some(i) =>
          && i <= p && LiveAt(es, s, i) && (forall j :: i < j <= p ==> !LiveAt(es, s, j))
          && LeftOf(es, s, i, left))
  }

  /** The cursor is just before the live entry `m`, past entries that are not
      visible: on the last version of a smaller key, or off the front. */
  ghost predicate LeftOf(es: seq<Entry>, s: nat, m: nat, left: Option<nat>) {
    && m < |es|
    && (left.Some? ==>
          && left.value < m && es[left.value].sn <= s && es[left.value].user < es[m].user
          && LastOfKey(es, left.value))
    && (forall j :: (if left.Some? then left.value else -1) < j < m ==> es[j].sn > s)
  }

  lemma StopBefore(es: seq<Entry>, s: nat, p: nat, i: nat, m: nat)
    requires Entries.Sorted(es) && Gathered(es, s, p, i + 1, Some(m)) && es[i].sn <= s && es[i].user < es[m].user
    ensures PrevLive(es, s, p, Some(m), Some(i))
  {
    AllOrdered(es);
    assert forall j :: 0 <= j <= i ==> es[j].user <= es[i].user;
    assert forall j :: i < j < |es| ==> es[j].user >= es[i].user;
    assert forall j :: m <= j < |es| ==> es[j].user >= es[m].user;
    assert forall j :: i < j < m && es[j].user == es[i].user ==> es[j].sn <= es[i].sn;
  }

  lemma StopAtFront(es: seq<Entry>, s: nat, p: nat, m: Option<nat>)
    requires Gathered(es, s, p, 0, m)
    ensures PrevLive(es, s, p, m, None)
  {
  }

  /** FindPrevUserEntry.  `kept` is the entry whose key and value are saved. */
  method FindPrevUserEntry(es: seq<Entry>, s: nat, p: Option<nat>) returns (kept: Option<nat>, left: Option<nat>)
    requires Entries.Sorted(es) && (p.Some? ==> p.value < |es|)
    ensures p.Some? ==> PrevLive(es, s, p.value, kept, left)
    ensures p.None? ==> kept.None?
    ensures left.Some? ==> left.value < |es|
  {
    kept, left := None, p;
    if p.None? {
      return;
    }
    var i: nat := p.value + 1;
    while i > 0
      invariant i <= |es| && Gathered(es, s, p.value, i, kept)
    {
      var e := es[i - 1];
      if e.sn <= s {
        if kept.Some? && e.user < es[kept.value].user {
          StopBefore(es, s, p.value, i - 1, kept.value);
          left := Some(i - 1);
          return;
        }
        GatherVisible(es, s, p.value, i - 1, kept);
        kept := if e.kind.Deletion? then None else Some(i - 1);
      } else {
        GatherInvisible(es, s, p.value, i - 1, kept);
      }
      i := i - 1;
    }
    StopAtFront(es, s, p.value, kept);
    left := None;
  }

  // ----- The iterator -----

  lemma NextIsLeast(es: seq<Entry>, s: nat, p: nat, skipping: bool, skip: Key, r: Option<nat>, cut: Cut)
    requires NextLive(es, s, p, skipping, skip, r) && Entries.Sorted(es) && p <= |es| && (r.Some? ==> r.value < |es|)
    requires forall j :: 0 <= j < p && LiveAt(es, s, j) ==> Below(cut, es[j].user)
    requires forall j :: p <= j < |es| && LiveAt(es, s, j) ==>
               (Below(cut, es[j].user) <==> Hidden(skipping, skip, es[j].user))
    ensures Least(LiveKeys(es, s), cut, if r.Some? then Some(es[r.value].user) else None)
  {
    forall x | x in LiveKeys(es, s) && !Below(cut, x) ensures r.Some? && es[r.value].user <= x {
      var j :| 0 <= j < |es| && LiveAt(es, s, j) && es[j].user == x;
      if r.Some? && r.value < j {
        Order(es, r.value, j);
      }
    }
  }

  lemma PrevIsGreatest(es: seq<Entry>, s: nat, p: int, m: Option<nat>, left: Option<nat>, cut: Cut)
    requires Entries.Sorted(es) && PrevLive(es, s, p, m, left)
    requires forall j :: 0 <= j < |es| && LiveAt(es, s, j) ==> (Below(cut, es[j].user) <==> j <= p)
    ensures Greatest(LiveKeys(es, s), cut, if m.Some? then Some(es[m.value].user) else None)
  {
    forall x | x in LiveKeys(es, s) && Below(cut, x) ensures m.Some? && x <= es[m.value].user {
      var j :| 0 <= j < |es| && LiveAt(es, s, j) && es[j].user == x;
      assert j <= p;
      if m.Some? && j < m.value {
        Order(es, j, m.value);
      }
    }
  }

  class DBIter {
    const es: seq<Entry>
    const s: nat
    var at: Option<nat>
    var savedKey: Key
    var savedValue: Val
    var forward: bool
    var valid: bool

    /** The live entry the iterator stands on. */
    ghost var m: nat

    ghost predicate Valid()
      reads this
    {
      && Entries.Sorted(es) && (at.Some? ==> at.value < |es|)
      && (valid ==>
            && LiveAt(es, s, m)
            && if forward then at == Some(m)
               else savedKey == es[m].user && savedValue == es[m].value && LeftOf(es, s, m, at))
    }

    /** The key and value the iterator reports. */
    ghost function Where(): Option<Key>
      requires Valid()
      reads this
    {
      if valid then Some(es[m].user) else None
    }

    constructor (es: seq<Entry>, s: nat)
      requires Entries.Sorted(es)
      ensures Valid() && Where() == None && this.es == es && this.s == s
    {
      this.es, this.s := es, s;
      at, savedKey, savedValue, forward, valid, m := None, 0.0, "", true, false, 0;
    }

    /** key() and value(). */
    method Current() returns (k: Key, v: Val)
      requires Valid() && valid
      ensures LiveAt(es, s, m) && k == es[m].user && v == es[m].value
    {
      if forward {
        k, v := es[at.value].user, es[at.value].value;
      } else {
        k, v := savedKey, savedValue;
      }
    }

    /** Scan on from `p` and stand on what is found. */
    method Land(p: nat, skipping: bool, skip: Key)
      requires Valid() && p <= |es| && CanStart(es, s, p, skipping, skip) && forward
      requires skipping ==> forall i :: p <= i < |es| ==> skip <= es[i].user
      modifies this`at, this`valid, this`m, this`savedKey
      ensures Valid()
      ensures NextLive(es, s, p, skipping, skip, if valid then Some(m) else None) && (valid ==> m < |es|)
    {
      var r := FindNextUserEntry(es, s, p, skipping, skip);
      at, savedKey, valid := r, 0.0, r.Some?;
      if r.Some? {
        m := r.value;
      }
    }

    method SeekToFirst()
      requires Valid()
      modifies this
      ensures Valid() && forward && Least(LiveKeys(es, s), Bottom, Where())
    {
      forward, savedValue, valid := true, "", false;
      Land(0, false, 0.0);
      NextIsLeast(es, s, 0, false, 0.0, if valid then Some(m) else None, Bottom);
    }

    /** The internal cursor's Seek: the first entry at or after (target, s). */
    method SeekInternal(target: Key) returns (p: nat)
      requires Entries.Sorted(es)
      ensures p <= |es|
      ensures forall j :: 0 <= j < p ==> es[j].user < target || (es[j].user == target && es[j].sn > s)
      ensures forall j :: p <= j < |es| ==> es[j].user > target || (es[j].user == target && es[j].sn <= s)
    {
      p := 0;
      while p < |es| && Less(KeyOf(es[p]), SeekKey(target, s))
        invariant p <= |es| && forall j :: 0 <= j < p ==> Less(KeyOf(es[j]), SeekKey(target, s))
      {
        p := p + 1;
      }
      forall j | p <= j < |es| ensures es[j].user > target || (es[j].user == target && es[j].sn <= s) {
        if p < j {
          Order(es, p, j);
        }
      }
    }

    method Seek(target: Key)
      requires Valid()
      modifies this
      ensures Valid() && forward && Least(LiveKeys(es, s), Cut.Before(target), Where())
    {
      forward, savedValue, valid := true, "", false;
      var p := SeekInternal(target);
      Land(p, false, 0.0);
      NextIsLeast(es, s, p, false, 0.0, if valid then Some(m) else None, Cut.Before(target));
    }

    /** Prev and SeekToLast once the internal cursor is on `p`. */
    method LandBack(p: Option<nat>)
      requires Valid() && (p.Some? ==> p.value < |es|)
      modifies this
      ensures Valid() && (valid <==> !forward)
      ensures p.Some? ==> PrevLive(es, s, p.value, if valid then Some(m) else None, at)
      ensures p.None? ==> !valid
    {
      var kept, left := FindPrevUserEntry(es, s, p);
      at, valid := left, kept.Some?;
      if kept.Some? {
        savedKey, savedValue, forward := es[kept.value].user, es[kept.value].value, false;
        m := kept.value;
      } else {
        savedKey, savedValue, forward := 0.0, "", true;
      }
    }

    method SeekToLast()
      requires Valid()
      modifies this
      ensures Valid() && (valid <==> !forward) && Greatest(LiveKeys(es, s), Top, Where())
    {
      LandBack(if |es| > 0 then Some(|es| - 1) else None);
      if |es| > 0 {
        PrevIsGreatest(es, s, |es| - 1, if valid then Some(m) else None, at, Top);
      }
    }

    /** Where Next starts scanning: at the current entry, or one past the internal
        cursor when the iterator was moving backward. */
    ghost function Resume(): nat
      requires Valid() && valid
      reads this
      ensures Resume() <= m < |es|
    {
      if forward then m else if at.None? then 0 else at.value + 1
    }

    /** The entry there belongs to the current key. */
    ghost predicate CanTurn()
      requires Valid() && valid
      reads this
    {
      es[Resume()].user == es[m].user
    }

    /** Next.  It moves to the least live key after the current one exactly when
        the entry it resumes from belongs to the current key; otherwise an entry
        that is not visible lies between, and it stays where it is. */
    method Next()
      requires Valid() && valid
      modifies this
      ensures Valid() && forward
      ensures old(CanTurn()) ==> Least(LiveKeys(es, s), UpTo(old(Where()).value), Where())
      ensures !old(CanTurn()) ==> Where() == old(Where())
    {
      ghost var k, here := es[m].user, m;
      ghost var turn := CanTurn();
      if !forward {
        forward := true;
        at := if at.None? then Some(0) else Some(at.value + 1);
      }
      var p := at.value;
      var skip := es[p].user;
      SkipFrom(es, s, p);
      valid := false;
      Land(p, true, skip);
      if turn {
        NextAfter(es, s, p, if valid then Some(m) else None);
      } else {
        Stuck(es, s, p, skip, here, if valid then Some(m) else None);
      }
    }

    /** Back to the last entry of a smaller key. */
    method SkipBack(k: Key) returns (p: Option<nat>)
      requires Valid() && valid && forward && k == es[m].user
      ensures p.Some? ==> p.value < |es|
      ensures forall j :: 0 <= j < |es| ==> (es[j].user < k <==> j <= (if p.Some? then p.value else -1))
    {
      AllOrdered(es);
      var i: nat := at.value;
      while i > 0 && es[i - 1].user >= k
        invariant i <= m && forall j :: i <= j < |es| ==> es[j].user >= k
      {
        i := i - 1;
      }
      p := if i == 0 then None else Some(i - 1);
    }

    /** Prev: the greatest live key before the current one, whichever way the
        iterator was moving. */
    method Prev()
      requires Valid() && valid
      modifies this
      ensures Valid() && Greatest(LiveKeys(es, s), Cut.Before(old(Where()).value), Where())
    {
      ghost var k := es[m].user;
      var p := at;
      if forward {
        var key := es[at.value].user;
        p := SkipBack(key);
      } else {
        LeftSplits(es, s, m, at);
      }
      LandBack(p);
      if p.Some? {
        PrevIsGreatest(es, s, p.value, if valid then Some(m) else None, at, Cut.Before(k));
      }
    }
  }

  lemma SkipFrom(es: seq<Entry>, s: nat, p: nat)
    requires Entries.Sorted(es) && p < |es|
    ensures CanStart(es, s, p, true, es[p].user) && forall i :: p <= i < |es| ==> es[p].user <= es[i].user
  {
    AllOrdered(es);
  }

  lemma NextAfter(es: seq<Entry>, s: nat, p: nat, r: Option<nat>)
    requires Entries.Sorted(es) && p < |es| && NextLive(es, s, p, true, es[p].user, r) && (r.Some? ==> r.value < |es|)
    ensures Least(LiveKeys(es, s), UpTo(es[p].user), if r.Some? then Some(es[r.value].user) else None)
  {
    AllOrdered(es);
    NextIsLeast(es, s, p, true, es[p].user, r, UpTo(es[p].user));
  }

  /** Resuming on an entry of a smaller key finds the current key again. */
  lemma Stuck(es: seq<Entry>, s: nat, p: nat, skip: Key, m: nat, r: Option<nat>)
    requires Entries.Sorted(es) && p < m < |es| && LiveAt(es, s, m) && skip == es[p].user < es[m].user
    requires forall j :: p <= j < m ==> es[j].sn > s
    requires NextLive(es, s, p, true, skip, r)
    ensures r == Some(m)
  {
    assert !Hidden(true, skip, es[m].user);
  }

  /** The live keys before a key are those up to where the cursor was left. */
  lemma LeftSplits(es: seq<Entry>, s: nat, m: nat, left: Option<nat>)
    requires Entries.Sorted(es) && LiveAt(es, s, m) && LeftOf(es, s, m, left)
    ensures forall j :: 0 <= j < |es| && LiveAt(es, s, j) ==>
              (es[j].user < es[m].user <==> j <= (if left.Some? then left.value else -1))
  {
    AllOrdered(es);
  }

  /** Where direction cannot be reversed, some entry is not visible; so with every
      entry visible Next and Prev move as one cursor over the live keys. */
  lemma OnlyHiddenEntriesBlock(it: DBIter)
    requires it.Valid() && it.valid && !it.CanTurn()
    ensures exists i :: 0 <= i < |it.es| && it.es[i].sn > it.s
  {
    var p := it.Resume();
    assert p < it.m;
    assert it.es[p].sn > it.s;
  }

  /** Three entries, the middle one of a later sequence number. */
  function ThreeEntries(): seq<Entry> {
    [Entry(1.0, 1, Value, "a"), Entry(2.0, 4, Value, "b"), Entry(3.0, 2, Value, "c")]
  }

  lemma ThreeLive()
    ensures Entries.Sorted(ThreeEntries()) && LiveKeys(ThreeEntries(), 3) == {1.0, 3.0}
    ensures forall i :: 0 <= i < 3 ==> (LiveAt(ThreeEntries(), 3, i) <==> i != 1)
  {
    var es := ThreeEntries();
    assert LiveAt(es, 3, 0) && LiveAt(es, 3, 2) && !LiveAt(es, 3, 1);
    assert es[0].user in LiveKeys(es, 3) && es[2].user in LiveKeys(es, 3);
  }

  lemma ThreeBlocked(it: DBIter)
    requires it.Valid() && it.valid && !it.forward && it.es == ThreeEntries() && it.s == 3 && it.Where() == Some(3.0)
    ensures !it.CanTurn()
  {
    assert it.m == 2;
    assert it.es[0].sn <= it.s && it.es[1].sn > it.s;
    assert it.at.Some? && it.at.value == 0;
  }

  /** Keys 1 and 3 are visible at sequence 3 and key 2 is not.  SeekToLast stands on key 3,
      and Next, which should pass the end, stays on it. */
  method StuckExample() returns (it: DBIter, last: Key, next: Key)
    ensures LiveKeys(it.es, it.s) == {1.0, 3.0} && last == 3.0 && next == 3.0
  {
    var es := ThreeEntries();
    ThreeLive();
    it := new DBIter(es, 3);
    it.SeekToLast();
    assert it.Where() == Some(3.0);
    var v;
    last, v := it.Current();
    ThreeBlocked(it);
    it.Next();
    next, v := it.Current();
  }
}
