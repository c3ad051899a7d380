/** Entries of the key-value store and the flat meaning of a read. */
module Entries {
  // A user key only ever meets the user comparator, which is a total order on
  // countably many byte strings.  Every such order embeds in the rationals, so the
  // engine modules take user keys to be reals and compare them as such.

  type UserKey = real
  type Val = string

  datatype Option<+T> = None | Some(value: T)

  /** A predicate quantified over this one value is its body, kept from the solver until a
      proof names the value. */
  datatype Lock = Lock

  datatype Kind = Deletion | Value

  /** One version of one user key; `sn` is its sequence number. */
  datatype Entry = Entry(user: UserKey, sn: nat, kind: Kind, value: Val)

  /** An internal key: the user key and the packed (sequence << 8 | type). */
  datatype IKey = IKey(user: UserKey, tag: nat)

  function TypeCode(k: Kind): nat {
    if k.Value? then 1 else 0
  }

  function PackTag(s: nat, k: Kind): nat {
    256 * s + TypeCode(k)
  }

  /** The last byte is the type, 1 for a value and 0 for a deletion, and the rest the sequence. */
  lemma TagParts(s: nat, k: Kind)
    ensures PackTag(s, k) / 256 == s && PackTag(s, k) % 256 == match k case Deletion => 0 case Value => 1
  {
  }

  function KeyOf(e: Entry): IKey {
    IKey(e.user, PackTag(e.sn, e.kind))
  }

  /** The key a read at snapshot `s` seeks to: it sorts at or before exactly the
      entries of `u` with sequence at most `s`. */
  function SeekKey(u: UserKey, s: nat): IKey {
    IKey(u, PackTag(s, Value))
  }

  /** Increasing user key, then decreasing tag. */
  predicate Less(a: IKey, b: IKey) {
    a.user < b.user || (a.user == b.user && a.tag > b.tag)
  }

  predicate Before(a: Entry, b: Entry) {
    Less(KeyOf(a), KeyOf(b))
  }

  predicate Sorted(es: seq<Entry>) {
    forall i, j :: 0 <= i < j < |es| ==> Before(es[i], es[j])
  }

  ghost function Elems(es: seq<Entry>): set<Entry> {
    set e | e in es
  }

  // ----- What a read means -----

  datatype Answer = NotFound | Found(value: Val)

  ghost predicate Seen(es: set<Entry>, u: UserKey, s: nat, e: Entry) {
    e in es && e.user == u && e.sn <= s
  }

  ghost predicate IsNewest(es: set<Entry>, u: UserKey, s: nat, e: Entry) {
    && Seen(es, u, s, e)
    && forall x :: Seen(es, u, s, x) ==> x.sn <= e.sn
  }

  function AnswerOf(e: Entry): Answer {
    if e.kind.Value? then Found(e.value) else NotFound
  }

  /** The answer of the newest entry of `u` at or below `s`. */
  ghost function Lookup(es: set<Entry>, u: UserKey, s: nat): Answer {
    if exists e :: IsNewest(es, u, s, e) then
      var e :| IsNewest(es, u, s, e);
      AnswerOf(e)
    else NotFound
  }

  /** No two entries carry one sequence number. */
  ghost predicate UniqueSn(es: set<Entry>) {
    forall x, y :: x in es && y in es && x.sn == y.sn ==> x == y
  }

  lemma NewestExists(es: set<Entry>, u: UserKey, s: nat, x: Entry) returns (e: Entry)
    requires Seen(es, u, s, x)
    ensures IsNewest(es, u, s, e)
    decreases s - x.sn
  {
    e := x;
    if y :| Seen(es, u, s, y) && y.sn > x.sn {
      e := NewestExists(es, u, s, y);
    }
  }

  lemma LookupIs(es: set<Entry>, u: UserKey, s: nat, e: Entry)
    requires UniqueSn(es) && IsNewest(es, u, s, e)
    ensures Lookup(es, u, s) == AnswerOf(e)
  {
    var x :| IsNewest(es, u, s, x) && Lookup(es, u, s) == AnswerOf(x);
    assert IsNewest(es, u, s, x);
    assert Seen(es, u, s, x);
    assert Seen(es, u, s, e);
  }

  lemma LookupNone(es: set<Entry>, u: UserKey, s: nat)
    requires forall e :: !Seen(es, u, s, e)
    ensures Lookup(es, u, s) == NotFound
  {
  }

  /** A read depends only on the entries it may see. */
  lemma LookupSame(es: set<Entry>, fs: set<Entry>, u: UserKey, s: nat)
    requires UniqueSn(es) && UniqueSn(fs)
    requires forall e :: Seen(es, u, s, e) <==> Seen(fs, u, s, e)
    ensures Lookup(es, u, s) == Lookup(fs, u, s)
  {
    if x :| Seen(es, u, s, x) {
      var e := NewestExists(es, u, s, x);
      assert IsNewest(fs, u, s, e);
      LookupIs(es, u, s, e);
      LookupIs(fs, u, s, e);
    } else {
      LookupNone(es, u, s);
      LookupNone(fs, u, s);
    }
  }

  /** Entries that are newer than everything in `lower`, key by key, decide the read. */
  lemma LookupLayered(upper: set<Entry>, lower: set<Entry>, u: UserKey, s: nat)
    requires UniqueSn(upper + lower)
    requires forall x, y :: x in upper && y in lower && x.user == y.user ==> x.sn > y.sn
    ensures (exists e :: Seen(upper, u, s, e)) ==> Lookup(upper + lower, u, s) == Lookup(upper, u, s)
    ensures (forall e :: !Seen(upper, u, s, e)) ==> Lookup(upper + lower, u, s) == Lookup(lower, u, s)
  {
    var all := upper + lower;
    if x :| Seen(upper, u, s, x) {
      var e := NewestExists(upper, u, s, x);
      assert IsNewest(all, u, s, e);
      LookupIs(all, u, s, e);
      LookupIs(upper, u, s, e);
    } else {
      assert forall e :: Seen(all, u, s, e) ==> Seen(upper, u, s, e) || Seen(lower, u, s, e);
      LookupSame(all, lower, u, s);
    }
  }
}
