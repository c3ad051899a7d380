/** The encoded form of a version edit: a list of tagged fields. */
module VersionEdit {
  import opened Entries
  import opened Coding
  import opened Layout

  const NUM_LEVELS: nat := 7

  datatype Meta = Meta(number: nat, size: nat, smallest: Bytes, largest: Bytes)

  /** `deleted` is an ordered set: its pairs are listed in increasing order. */
  datatype Edit = Edit(
    comparator: Option<Bytes>,
    logNumber: Option<nat>,
    prevLogNumber: Option<nat>,
    nextFile: Option<nat>,
    lastSequence: Option<nat>,
    pointers: seq<(nat, Bytes)>,
    deleted: seq<(nat, nat)>,
    added: seq<(nat, Meta)>)

  datatype Field =
    | Comparator(name: Bytes)
    | LogNumber(n: nat)
    | PrevLogNumber(n: nat)
    | NextFile(n: nat)
    | LastSequence(n: nat)
    | Pointer(level: nat, key: Bytes)
    | Deleted(level: nat, number: nat)
    | Added(level: nat, file: Meta)

  predicate Small(f: Field) {
    match f
    case Comparator(s) => |s| < WORD
    case LogNumber(n) => n < LONG
    case PrevLogNumber(n) => n < LONG
    case NextFile(n) => n < LONG
    case LastSequence(n) => n < LONG
    case Pointer(l, k) => l < NUM_LEVELS && |k| < WORD
    case Deleted(l, n) => l < NUM_LEVELS && n < LONG
    case Added(l, m) => l < NUM_LEVELS && m.number < LONG && m.size < LONG && |m.smallest| < WORD && |m.largest| < WORD
  }

  function Tag(f: Field): nat {
    match f
    case Comparator(_) => 1
    case LogNumber(_) => 2
    case NextFile(_) => 3
    case LastSequence(_) => 4
    case Pointer(_, _) => 5
    case Deleted(_, _) => 6
    case Added(_, _) => 7
    case PrevLogNumber(_) => 9
  }

  function Body(f: Field): Bytes {
    match f
    case Comparator(s) => LengthPrefixed(s)
    case LogNumber(n) => Varint(n)
    case PrevLogNumber(n) => Varint(n)
    case NextFile(n) => Varint(n)
    case LastSequence(n) => Varint(n)
    case Pointer(l, k) => Varint(l) + LengthPrefixed(k)
    case Deleted(l, n) => Varint(l) + Varint(n)
    case Added(l, m) =>
      Varint(l) + (Varint(m.number) + (Varint(m.size) + (LengthPrefixed(m.smallest) + LengthPrefixed(m.largest))))
  }

  function EncodeField(f: Field): (r: Bytes)
    ensures |r| > 0
  {
    Varint(Tag(f)) + Body(f)
  }

  function FieldEncoder(): Encoder<Field> {
    f => EncodeField(f)
  }

  // ----- One field at a time -----

  function GetLevel(s: Bytes): Option<(nat, Bytes)> {
    match GetVarint32(s)
    case None => None
    case Some(p) => if p.0 < NUM_LEVELS then Some(p) else None
  }

  function GetMeta(s: Bytes): Option<(Meta, Bytes)> {
    match GetVarint64(s)
    case None => None
    case Some(number) =>
      match GetVarint64(number.1)
      case None => None
      case Some(size) =>
        match GetLengthPrefixed(size.1)
        case None => None
        case Some(smallest) =>
          match GetLengthPrefixed(smallest.1)
          case None => None
          case Some(largest) => Some((Meta(number.0, size.0, smallest.0, largest.0), largest.1))
  }

  function GetNumber(tag: nat, s: Bytes): Option<(Field, Bytes)> {
    match GetVarint64(s)
    case None => None
    case Some(p) =>
      if tag == 2 then Some((LogNumber(p.0), p.1))
      else if tag == 3 then Some((NextFile(p.0), p.1))
      else if tag == 4 then Some((LastSequence(p.0), p.1))
      else Some((PrevLogNumber(p.0), p.1))
  }

  function GetAtLevel(tag: nat, s: Bytes): Option<(Field, Bytes)> {
    match GetLevel(s)
    case None => None
    case Some(l) =>
      if tag == 5 then
        match GetLengthPrefixed(l.1)
        case None => None
        case Some(k) => Some((Pointer(l.0, k.0), k.1))
      else if tag == 6 then
        match GetVarint64(l.1)
        case None => None
        case Some(n) => Some((Deleted(l.0, n.0), n.1))
      else
        match GetMeta(l.1)
        case None => None
        case Some(m) => Some((Added(l.0, m.0), m.1))
  }

  /** The body of a field with the given tag. */
  function GetBody(tag: nat, s: Bytes): Option<(Field, Bytes)> {
    if tag == 1 then
      match GetLengthPrefixed(s)
      case None => None
      case Some(p) => Some((Comparator(p.0), p.1))
    else if tag == 2 || tag == 3 || tag == 4 || tag == 9 then GetNumber(tag, s)
    else if tag == 5 || tag == 6 || tag == 7 then GetAtLevel(tag, s)
    else None
  }

  function GetField(s: Bytes): Option<(Field, Bytes)> {
    match GetVarint32(s)
    case None => None
    case Some(t) => GetBody(t.0, t.1)
  }

  function FieldDecoder(): Decoder<Field> {
    s => GetField(s)
  }

  lemma MetaRoundTrip(m: Meta, rest: Bytes)
    requires Small(Added(0, m))
    ensures GetMeta(Varint(m.number) + (Varint(m.size) + (LengthPrefixed(m.smallest) + LengthPrefixed(m.largest)))
                    + rest)
         == Some((m, rest))
  {
    var d := LengthPrefixed(m.largest) + rest;
    var c := LengthPrefixed(m.smallest) + d;
    var b := Varint(m.size) + c;
    Nest4(Varint(m.number), Varint(m.size), LengthPrefixed(m.smallest), LengthPrefixed(m.largest), rest);
    Varint64RoundTrip(m.number, b);
    Varint64RoundTrip(m.size, c);
    LengthPrefixedRoundTrip(m.smallest, d);
    LengthPrefixedRoundTrip(m.largest, rest);
  }

  lemma Nest4(a: Bytes, b: Bytes, c: Bytes, d: Bytes, rest: Bytes)
    ensures a + (b + (c + d)) + rest == a + (b + (c + (d + rest)))
  {
  }

  lemma LevelRoundTrip(l: nat, rest: Bytes)
    requires l < NUM_LEVELS
    ensures GetLevel(Varint(l) + rest) == Some((l, rest))
  {
    Varint32RoundTrip(l, rest);
  }

  lemma AtLevelRoundTrip(f: Field, rest: Bytes)
    requires Small(f) && (f.Pointer? || f.Deleted? || f.Added?)
    ensures GetAtLevel(Tag(f), Body(f) + rest) == Some((f, rest))
  {
    match f
    case Pointer(l, k) =>
      Regroup(Varint(l), LengthPrefixed(k), rest);
      LevelRoundTrip(l, LengthPrefixed(k) + rest);
      LengthPrefixedRoundTrip(k, rest);
    case Deleted(l, n) =>
      Regroup(Varint(l), Varint(n), rest);
      LevelRoundTrip(l, Varint(n) + rest);
      Varint64RoundTrip(n, rest);
    case Added(l, m) =>
      var meta := Varint(m.number) + (Varint(m.size) + (LengthPrefixed(m.smallest) + LengthPrefixed(m.largest)));
      Regroup(Varint(l), meta, rest);
      LevelRoundTrip(l, meta + rest);
      MetaRoundTrip(m, rest);
  }

  lemma BodyRoundTrip(f: Field, rest: Bytes)
    requires Small(f)
    ensures GetBody(Tag(f), Body(f) + rest) == Some((f, rest))
  {
    match f
    case Comparator(s) => LengthPrefixedRoundTrip(s, rest);
    case LogNumber(n) => Varint64RoundTrip(n, rest);
    case PrevLogNumber(n) => Varint64RoundTrip(n, rest);
    case NextFile(n) => Varint64RoundTrip(n, rest);
    case LastSequence(n) => Varint64RoundTrip(n, rest);
    case _ => AtLevelRoundTrip(f, rest);
  }

  lemma FieldUndoes(f: Field)
    requires Small(f)
    ensures Undoes(FieldDecoder(), FieldEncoder(), f)
  {
    forall rest ensures FieldDecoder()(FieldEncoder()(f) + rest) == Some((f, rest)) {
      Regroup(Varint(Tag(f)), Body(f), rest);
      Varint32RoundTrip(Tag(f), Body(f) + rest);
      BodyRoundTrip(f, rest);
    }
  }

  // ----- The fields of an edit -----

  function PointerField(p: (nat, Bytes)): Field { Pointer(p.0, p.1) }
  function DeletedField(p: (nat, nat)): Field { Deleted(p.0, p.1) }
  function AddedField(p: (nat, Meta)): Field { Added(p.0, p.1) }

  function Each<T>(f: T -> Field, xs: seq<T>): (r: seq<Field>)
    ensures |r| == |xs| && forall i :: 0 <= i < |xs| ==> r[i] == f(xs[i])
  {
    seq(|xs|, i requires 0 <= i < |xs| => f(xs[i]))
  }

  function Maybe<T>(f: T -> Field, x: Option<T>): (r: seq<Field>)
    ensures |r| == (if x.Some? then 1 else 0) && (x.Some? ==> r[0] == f(x.value))
  {
    if x.Some? then [f(x.value)] else []
  }

  function Heads(e: Edit): seq<Field> {
    Maybe(s => Comparator(s), e.comparator) + Maybe(n => LogNumber(n), e.logNumber)
    + Maybe(n => PrevLogNumber(n), e.prevLogNumber) + Maybe(n => NextFile(n), e.nextFile)
    + Maybe(n => LastSequence(n), e.lastSequence)
  }

  function Lists(e: Edit): seq<Field> {
    Each(PointerField, e.pointers) + Each(DeletedField, e.deleted) + Each(AddedField, e.added)
  }

  /** In the order in which they are written. */
  function Fields(e: Edit): seq<Field> {
    Heads(e) + Lists(e)
  }

  predicate PairLess(a: (nat, nat), b: (nat, nat)) {
    a.0 < b.0 || (a.0 == b.0 && a.1 < b.1)
  }

  predicate PairsOrdered(ps: seq<(nat, nat)>) {
    forall i, j :: 0 <= i < j < |ps| ==> PairLess(ps[i], ps[j])
  }

  predicate AllSmall(fs: seq<Field>) {
    forall i :: 0 <= i < |fs| ==> Small(fs[i])
  }

  // ----- Taking fields in -----

  /** Insertion into the ordered set of deleted files. */
  function InsertPair(ps: seq<(nat, nat)>, p: (nat, nat)): seq<(nat, nat)>
    decreases |ps|
  {
    if |ps| == 0 then [p]
    else
      var q := ps[|ps| - 1];
      if PairLess(q, p) then ps + [p]
      else if q == p then ps
      else InsertPair(ps[..|ps| - 1], p) + [q]
  }

  /** The set has the new pair besides its own, and stays in order. */
  lemma {:induction false} InsertPairIs(ps: seq<(nat, nat)>, p: (nat, nat))
    requires PairsOrdered(ps)
    ensures PairsOrdered(InsertPair(ps, p)) && forall q :: q in InsertPair(ps, p) <==> q in ps || q == p
    ensures |InsertPair(ps, p)| == |ps| + if p in ps then 0 else 1
    decreases |ps|
  {
    if |ps| > 0 {
      var front, q := ps[..|ps| - 1], ps[|ps| - 1];
      assert ps == front + [q];
      if !PairLess(q, p) && q != p {
        InsertPairIs(front, p);
        var r := InsertPair(front, p);
        forall i | 0 <= i < |r| ensures PairLess(r[i], q) {
          assert r[i] in front || r[i] == p;
        }
      }
    }
  }

  /** Levels are below seven, and the deleted files in order. */
  ghost predicate Sane(e: Edit) {
    && PairsOrdered(e.deleted) && (forall i :: 0 <= i < |e.deleted| ==> e.deleted[i].0 < 7)
    && (forall i :: 0 <= i < |e.pointers| ==> e.pointers[i].0 < 7)
    && (forall i :: 0 <= i < |e.added| ==> e.added[i].0 < 7)
  }

  lemma AcceptSane(e: Edit, f: Field)
    requires Sane(e) && (f.Pointer? || f.Deleted? || f.Added? ==> f.level < 7)
    ensures Sane(Accept(e, f))
  {
    if f.Deleted? {
      InsertPairIs(e.deleted, (f.level, f.number));
      var ps := InsertPair(e.deleted, (f.level, f.number));
      forall i | 0 <= i < |ps| ensures ps[i].0 < 7 {
        assert ps[i] in ps;
      }
    }
  }

  function Accept(e: Edit, f: Field): Edit {
    match f
    case Comparator(s) => e.(comparator := Some(s))
    case LogNumber(n) => e.(logNumber := Some(n))
    case PrevLogNumber(n) => e.(prevLogNumber := Some(n))
    case NextFile(n) => e.(nextFile := Some(n))
    case LastSequence(n) => e.(lastSequence := Some(n))
    case Pointer(l, k) => e.(pointers := e.pointers + [(l, k)])
    case Deleted(l, n) => e.(deleted := InsertPair(e.deleted, (l, n)))
    case Added(l, m) => e.(added := e.added + [(l, m)])
  }

  function AcceptAll(e: Edit, fs: seq<Field>): Edit
    decreases |fs|
  {
    if |fs| == 0 then e else AcceptAll(Accept(e, fs[0]), fs[1..])
  }

  lemma {:induction false} AcceptJoin(e: Edit, a: seq<Field>, b: seq<Field>)
    ensures AcceptAll(e, a + b) == AcceptAll(AcceptAll(e, a), b)
    decreases |a|
  {
    if |a| == 0 {
      assert a + b == b;
    } else {
      assert (a + b)[1..] == a[1..] + b;
      AcceptJoin(Accept(e, a[0]), a[1..], b);
    }
  }

  lemma AcceptOne(e: Edit, f: Field)
    ensures AcceptAll(e, [f]) == Accept(e, f)
  {
    assert [f][1..] == [];
  }

  /** Clear leaves the compaction pointers alone. */
  function Cleared(e: Edit): Edit {
    Edit(None, None, None, None, None, e.pointers, [], [])
  }

  lemma {:induction false} AcceptPointers(e: Edit, ps: seq<(nat, Bytes)>)
    ensures AcceptAll(e, Each(PointerField, ps)) == e.(pointers := e.pointers + ps)
    decreases |ps|
  {
    if |ps| == 0 {
      assert e.pointers + ps == e.pointers;
    } else {
      var fs := Each(PointerField, ps);
      assert fs[1..] == Each(PointerField, ps[1..]);
      AcceptPointers(Accept(e, fs[0]), ps[1..]);
      assert e.pointers + [ps[0]] + ps[1..] == e.pointers + ps;
    }
  }

  lemma {:induction false} AcceptDeleted(e: Edit, ps: seq<(nat, nat)>)
    requires PairsOrdered(e.deleted + ps)
    ensures AcceptAll(e, Each(DeletedField, ps)) == e.(deleted := e.deleted + ps)
    decreases |ps|
  {
    if |ps| == 0 {
      assert e.deleted + ps == e.deleted;
    } else {
      var fs, all := Each(DeletedField, ps), e.deleted + ps;
      assert fs[1..] == Each(DeletedField, ps[1..]);
      assert all[|e.deleted|] == ps[0];
      assert |e.deleted| > 0 ==> all[|e.deleted| - 1] == e.deleted[|e.deleted| - 1];
      assert InsertPair(e.deleted, ps[0]) == e.deleted + [ps[0]];
      assert e.deleted + [ps[0]] + ps[1..] == all;
      AcceptDeleted(Accept(e, fs[0]), ps[1..]);
    }
  }

  lemma {:induction false} AcceptAdded(e: Edit, ps: seq<(nat, Meta)>)
    ensures AcceptAll(e, Each(AddedField, ps)) == e.(added := e.added + ps)
    decreases |ps|
  {
    if |ps| == 0 {
      assert e.added + ps == e.added;
    } else {
      var fs := Each(AddedField, ps);
      assert fs[1..] == Each(AddedField, ps[1..]);
      AcceptAdded(Accept(e, fs[0]), ps[1..]);
      assert e.added + [ps[0]] + ps[1..] == e.added + ps;
    }
  }

  lemma AcceptMaybe<T>(e: Edit, f: T -> Field, x: Option<T>)
    ensures AcceptAll(e, Maybe(f, x)) == if x.Some? then Accept(e, f(x.value)) else e
  {
    if x.Some? {
      AcceptOne(e, f(x.value));
    }
  }

  lemma AcceptHeads(into: Edit, e: Edit)
    ensures AcceptAll(Cleared(into), Heads(e))
            == e.(pointers := into.pointers, deleted := [], added := [])
  {
    var a, b := Maybe(s => Comparator(s), e.comparator), Maybe(n => LogNumber(n), e.logNumber);
    var c, d := Maybe(n => PrevLogNumber(n), e.prevLogNumber), Maybe(n => NextFile(n), e.nextFile);
    var last := Maybe(n => LastSequence(n), e.lastSequence);
    var e0 := Cleared(into);
    AcceptJoin(e0, a + b + c + d, last);
    AcceptJoin(e0, a + b + c, d);
    AcceptJoin(e0, a + b, c);
    AcceptJoin(e0, a, b);
    AcceptMaybe(e0, s => Comparator(s), e.comparator);
    var e1 := AcceptAll(e0, a);
    AcceptMaybe(e1, n => LogNumber(n), e.logNumber);
    var e2 := AcceptAll(e1, b);
    AcceptMaybe(e2, n => PrevLogNumber(n), e.prevLogNumber);
    var e3 := AcceptAll(e2, c);
    AcceptMaybe(e3, n => NextFile(n), e.nextFile);
    var e4 := AcceptAll(e3, d);
    AcceptMaybe(e4, n => LastSequence(n), e.lastSequence);
  }

  /** Taking in all the fields of an edit gives the edit, after any compaction
      pointers that were there before. */
  lemma AcceptFields(into: Edit, e: Edit)
    requires PairsOrdered(e.deleted)
    ensures AcceptAll(Cleared(into), Fields(e)) == e.(pointers := into.pointers + e.pointers)
  {
    AcceptJoin(Cleared(into), Heads(e), Lists(e));
    AcceptHeads(into, e);
    var e0 := e.(pointers := into.pointers, deleted := [], added := []);
    var ps, ds, ns := Each(PointerField, e.pointers), Each(DeletedField, e.deleted), Each(AddedField, e.added);
    AcceptJoin(e0, ps + ds, ns);
    AcceptJoin(e0, ps, ds);
    AcceptPointers(e0, e.pointers);
    var e1 := e0.(pointers := into.pointers + e.pointers);
    assert [] + e.deleted == e.deleted;
    AcceptDeleted(e1, e.deleted);
    assert [] + e.added == e.added;
    AcceptAdded(e1.(deleted := e.deleted), e.added);
  }

  // ----- EncodeTo -----

  lemma FlatSnoc(enc: Encoder<Field>, dst: Bytes, done: seq<Field>, f: Field)
    ensures dst + Flat(enc, done) + enc(f) == dst + Flat(enc, done + [f])
  {
    FlatJoin(enc, done, [f]);
    FlatOne(enc, f);
    Regroup(dst, Flat(enc, done), enc(f));
  }

  lemma RegroupLists(a: seq<Field>, b: seq<Field>, c: seq<Field>, d: seq<Field>)
    ensures a + b + c + d == a + (b + c + d)
  {
  }

  lemma OneMore(done: seq<Field>, all: seq<Field>, i: nat)
    requires i < |all|
    ensures done + all[..i] + [all[i]] == done + all[..i + 1]
  {
  }

  /** One tagged field at the end of the buffer. */
  method PutField(buffer: Bytes, f: Field, ghost dst: Bytes, ghost done: seq<Field>) returns (r: Bytes)
    requires buffer == dst + Flat(FieldEncoder(), done)
    ensures r == dst + Flat(FieldEncoder(), done + [f])
  {
    FlatSnoc(FieldEncoder(), dst, done, f);
    r := buffer + EncodeField(f);
  }

  method PutMaybe<T>(buffer: Bytes, put: T -> Field, x: Option<T>, ghost dst: Bytes, ghost done: seq<Field>)
    returns (r: Bytes)
    requires buffer == dst + Flat(FieldEncoder(), done)
    ensures r == dst + Flat(FieldEncoder(), done + Maybe(put, x))
  {
    if x.Some? {
      r := PutField(buffer, put(x.value), dst, done);
    } else {
      assert done + [] == done;
      r := buffer;
    }
  }

  method PutEach<T>(buffer: Bytes, put: T -> Field, xs: seq<T>, ghost dst: Bytes, ghost done: seq<Field>)
    returns (r: Bytes)
    requires buffer == dst + Flat(FieldEncoder(), done)
    ensures r == dst + Flat(FieldEncoder(), done + Each(put, xs))
  {
    r := buffer;
    ghost var all := Each(put, xs);
    assert done + all[..0] == done;
    for i := 0 to |xs|
      invariant r == dst + Flat(FieldEncoder(), done + all[..i])
    {
      OneMore(done, all, i);
      r := PutField(r, put(xs[i]), dst, done + all[..i]);
    }
    assert all[..|xs|] == all;
  }

  method PutHeads(dst: Bytes, e: Edit) returns (r: Bytes)
    ensures r == dst + Flat(FieldEncoder(), Heads(e))
  {
    assert dst == dst + Flat(FieldEncoder(), []);
    ghost var a := Maybe(s => Comparator(s), e.comparator);
    ghost var b := Maybe(n => LogNumber(n), e.logNumber);
    ghost var c := Maybe(n => PrevLogNumber(n), e.prevLogNumber);
    ghost var d := Maybe(n => NextFile(n), e.nextFile);
    r := PutMaybe(dst, s => Comparator(s), e.comparator, dst, []);
    assert [] + a == a;
    r := PutMaybe(r, n => LogNumber(n), e.logNumber, dst, a);
    r := PutMaybe(r, n => PrevLogNumber(n), e.prevLogNumber, dst, a + b);
    r := PutMaybe(r, n => NextFile(n), e.nextFile, dst, a + b + c);
    r := PutMaybe(r, n => LastSequence(n), e.lastSequence, dst, a + b + c + d);
  }

  /** EncodeTo: the fields that are set, then the three lists. */
  method EncodeTo(dst: Bytes, e: Edit) returns (r: Bytes)
    ensures r == dst + Flat(FieldEncoder(), Fields(e))
  {
    r := PutHeads(dst, e);
    ghost var heads, ps, ds := Heads(e), Each(PointerField, e.pointers), Each(DeletedField, e.deleted);
    r := PutEach(r, PointerField, e.pointers, dst, heads);
    r := PutEach(r, DeletedField, e.deleted, dst, heads + ps);
    r := PutEach(r, AddedField, e.added, dst, heads + ps + ds);
    RegroupLists(heads, ps, ds, Each(AddedField, e.added));
  }

  // ----- DecodeFrom -----

  datatype Result = Ok(edit: Edit) | Corruption(message: string)

  function BadField(tag: nat): string {
    if tag == 1 then "comparator name"
    else if tag == 2 then "log number"
    else if tag == 3 then "next file number"
    else if tag == 4 then "last sequence number"
    else if tag == 5 then "compaction pointer"
    else if tag == 6 then "deleted file"
    else if tag == 7 then "new-file entry"
    else if tag == 9 then "previous log number"
    else "unknown tag"
  }

  /** The input is the encoded form of the fields still to come. */
  ghost predicate Encoded(input: Bytes, fs: seq<Field>) {
    AllSmall(fs) && input == Flat(FieldEncoder(), fs)
  }

  lemma EncodedFront(input: Bytes, fs: seq<Field>)
    requires Encoded(input, fs)
    ensures |fs| == 0 ==> input == []
    ensures |fs| > 0 ==> && |input| > 0 && Encoded(Flat(FieldEncoder(), fs[1..]), fs[1..])
                         && GetField(input) == Some((fs[0], Flat(FieldEncoder(), fs[1..])))
  {
    if |fs| > 0 {
      FieldUndoes(fs[0]);
      FlatFront(FieldDecoder(), FieldEncoder(), fs);
    }
  }

  /** What DecodeFrom makes of any bytes: every field in turn, up to a bad one. */
  function Parsed(edit: Edit, input: Bytes): Result
    decreases |input|
  {
    match GetVarint32(input)
    case None => if |input| > 0 then Corruption("invalid tag") else Ok(edit)
    case Some((tag, body)) =>
      match GetBody(tag, body)
      case None => Corruption(BadField(tag))
      case Some((field, rest)) =>
        GetVarintShrinks(input, 5);
        BodyShrinks(tag, body);
        Parsed(Accept(edit, field), rest)
  }

  /** Whatever bytes decode, decode to an edit with good levels. */
  lemma {:induction false} ParsedSane(e: Edit, input: Bytes)
    requires Sane(e)
    ensures Parsed(e, input).Ok? ==> Sane(Parsed(e, input).edit)
    decreases |input|
  {
    var tag := GetVarint32(input);
    if tag.Some? && GetBody(tag.value.0, tag.value.1).Some? {
      var field := GetBody(tag.value.0, tag.value.1).value;
      GetVarintShrinks(input, 5);
      BodyShrinks(tag.value.0, tag.value.1);
      AcceptSane(e, field.0);
      ParsedSane(Accept(e, field.0), field.1);
    }
  }

  /** Fields and then bytes that are no field: an error, whatever came before. */
  lemma {:induction false} ParsedBad(e: Edit, fs: seq<Field>, rest: Bytes)
    requires AllSmall(fs) && rest != [] && GetField(rest) == None
    ensures Parsed(e, Flat(FieldEncoder(), fs) + rest).Corruption?
    decreases |fs|
  {
    if |fs| == 0 {
      assert Flat(FieldEncoder(), fs) + rest == rest;
    } else {
      var tail := Flat(FieldEncoder(), fs[1..]);
      FieldUndoes(fs[0]);
      Regroup(EncodeField(fs[0]), tail, rest);
      assert fs == [fs[0]] + fs[1..];
      FlatFirst(FieldEncoder(), fs[0], fs[1..]);
      assert FieldDecoder()(FieldEncoder()(fs[0]) + (tail + rest)) == Some((fs[0], tail + rest));
      ParsedBad(Accept(e, fs[0]), fs[1..], rest);
    }
  }

  /** Every kind of field, byte by byte. */
  lemma FieldBytes()
    ensures EncodeField(Comparator([97])) == [1, 1, 97] && EncodeField(LogNumber(5)) == [2, 5]
    ensures EncodeField(NextFile(300)) == [3, 172, 2] && EncodeField(LastSequence(7)) == [4, 7]
    ensures EncodeField(Pointer(2, [97])) == [5, 2, 1, 97] && EncodeField(Deleted(1, 9)) == [6, 1, 9]
    ensures EncodeField(Added(0, Meta(4, 5, [97], [98]))) == [7, 0, 4, 5, 1, 97, 1, 98]
    ensures EncodeField(PrevLogNumber(0)) == [9, 0]
  {
    assert Varint(300) == [172] + Varint(2);
  }

  /** The fields of an edit in the order they are written. */
  lemma FieldOrder(e: Edit, m: Meta)
    requires e == Edit(Some([97]), Some(1), Some(2), Some(3), Some(4), [(0, [98])], [(1, 5)], [(2, m)])
    ensures Fields(e)
         == [Comparator([97]), LogNumber(1), PrevLogNumber(2), NextFile(3), LastSequence(4), Pointer(0, [98]),
             Deleted(1, 5), Added(2, m)]
  {
  }

  /** What a field that ends after its tag is called. */
  lemma CutFields(e: Edit)
    ensures Parsed(e, [1]) == Corruption("comparator name") && Parsed(e, [2]) == Corruption("log number")
    ensures Parsed(e, [3]) == Corruption("next file number") && Parsed(e, [4]) == Corruption("last sequence number")
  {
  }

  lemma CutListFields(e: Edit)
    ensures Parsed(e, [5]) == Corruption("compaction pointer") && Parsed(e, [6]) == Corruption("deleted file")
    ensures Parsed(e, [7]) == Corruption("new-file entry") && Parsed(e, [9]) == Corruption("previous log number")
    ensures Parsed(e, [8]) == Corruption("unknown tag") && Parsed(e, [128]) == Corruption("invalid tag")
  {
  }

  /** DecodeFrom: the fields in `src` go into the edit, which is cleared first,
      except for its compaction pointers.  Decoding an encoded edit into a fresh
      one gives it back. */
  method DecodeFrom(into: Edit, src: Bytes, ghost e: Edit) returns (r: Result)
    ensures r == Parsed(Cleared(into), src)
    ensures PairsOrdered(e.deleted) && Encoded(src, Fields(e)) ==> r == Ok(e.(pointers := into.pointers + e.pointers))
    ensures r.Ok? && (forall i :: 0 <= i < |into.pointers| ==> into.pointers[i].0 < 7) ==> Sane(r.edit)
  {
    if forall i :: 0 <= i < |into.pointers| ==> into.pointers[i].0 < 7 {
      ParsedSane(Cleared(into), src);
    }
    var edit, input := Cleared(into), src;
    ghost var good := PairsOrdered(e.deleted) && Encoded(src, Fields(e));
    ghost var todo := Fields(e);
    while true
      invariant Parsed(edit, input) == Parsed(Cleared(into), src)
      invariant good ==> Encoded(input, todo) && AcceptAll(edit, todo) == AcceptAll(Cleared(into), Fields(e))
      decreases |input|
    {
      if good {
        EncodedFront(input, todo);
      }
      var tag := GetVarint32(input);
      if tag.None? {
        break;
      }
      GetVarintShrinks(input, 5);
      var field := GetBody(tag.value.0, tag.value.1);
      if field.None? {
        return Corruption(BadField(tag.value.0));
      }
      BodyShrinks(tag.value.0, tag.value.1);
      edit, input := Accept(edit, field.value.0), field.value.1;
      todo := if good then todo[1..] else todo;
    }
    if |input| > 0 {
      return Corruption("invalid tag");
    }
    if good {
      AcceptFields(into, e);
    }
    r := Ok(edit);
  }

  lemma BodyShrinks(tag: nat, s: Bytes)
    ensures GetBody(tag, s).Some? ==> |GetBody(tag, s).value.1| <= |s|
  {
    forall t: Bytes ensures GetVarint32(t).Some? ==> |GetVarint32(t).value.1| < |t| {
      GetVarintShrinks(t, 5);
    }
    forall t: Bytes ensures GetVarint64(t).Some? ==> |GetVarint64(t).value.1| < |t| {
      GetVarintShrinks(t, 10);
    }
  }
}
