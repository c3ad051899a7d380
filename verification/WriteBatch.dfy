/** The encoded form of a write batch. */
module WriteBatch {
  // An 8-byte sequence number, a 4-byte count, and one tagged record per operation.

  import opened Entries
  import opened Coding
  import opened Layout

  const HEADER: nat := 12
  const DELETION_TAG: byte := 0
  const VALUE_TAG: byte := 1

  datatype BatchOp = Put(key: Bytes, value: Bytes) | Delete(key: Bytes)

  datatype Result = Ok(ops: seq<BatchOp>) | Corruption(message: string)

  predicate Short(s: Bytes) {
    |s| < WORD
  }

  predicate SmallOp(op: BatchOp) {
    Short(op.key) && (op.Put? ==> Short(op.value))
  }

  predicate SmallOps(ops: seq<BatchOp>) {
    forall i :: 0 <= i < |ops| ==> SmallOp(ops[i])
  }

  function EncodeOp(op: BatchOp): (r: Bytes)
    ensures |r| > 0
  {
    match op
    case Put(k, v) => [VALUE_TAG] + LengthPrefixed(k) + LengthPrefixed(v)
    case Delete(k) => [DELETION_TAG] + LengthPrefixed(k)
  }

  function OpEncoder(): Encoder<BatchOp> {
    op => EncodeOp(op)
  }

  function EncodeOps(ops: seq<BatchOp>): Bytes {
    Flat(OpEncoder(), ops)
  }

  /** A batch as bytes. */
  function Image(sequence: nat, count: nat, ops: seq<BatchOp>): Bytes {
    Fixed(sequence, 8) + Fixed(count, 4) + EncodeOps(ops)
  }

  lemma Parts(a: Bytes, b: Bytes, c: Bytes)
    requires |a| == 8 && |b| == 4
    ensures var s := a + b + c; s[..8] == a && s[8..12] == b && s[12..] == c && s[8..] == b + c
  {
  }

  lemma ImageParts(sequence: nat, count: nat, ops: seq<BatchOp>)
    ensures var s := Image(sequence, count, ops);
            |s| >= HEADER && s[..8] == Fixed(sequence, 8) && s[8..12] == Fixed(count, 4) && s[12..] == EncodeOps(ops)
            && s[8..] == Fixed(count, 4) + EncodeOps(ops)
  {
    Parts(Fixed(sequence, 8), Fixed(count, 4), EncodeOps(ops));
  }

  lemma ImageAppend(sequence: nat, a: seq<BatchOp>, b: seq<BatchOp>)
    ensures Fixed(sequence, 8) + Fixed(|a| + |b|, 4) + EncodeOps(a) + EncodeOps(b) == Image(sequence, |a + b|, a + b)
  {
    FlatJoin(OpEncoder(), a, b);
    Regroup(Fixed(sequence, 8) + Fixed(|a| + |b|, 4), EncodeOps(a), EncodeOps(b));
  }

  // ----- Decoding -----

  /** One operation off the front of the input. */
  function GetOp(s: Bytes): Option<(BatchOp, Bytes)>
    requires |s| > 0
  {
    if s[0] == VALUE_TAG then
      match GetLengthPrefixed(s[1..])
      case None => None
      case Some(k) =>
        match GetLengthPrefixed(k.1)
        case None => None
        case Some(v) => Some((Put(k.0, v.0), v.1))
    else if s[0] == DELETION_TAG then
      match GetLengthPrefixed(s[1..])
      case None => None
      case Some(k) => Some((Delete(k.0), k.1))
    else None
  }

  lemma Tagged(tag: byte, x: Bytes, y: Bytes, rest: Bytes)
    ensures ([tag] + x + y + rest)[0] == tag && ([tag] + x + y + rest)[1..] == x + (y + rest)
    ensures ([tag] + x + rest)[0] == tag && ([tag] + x + rest)[1..] == x + rest
  {
  }

  lemma OpRoundTrip(op: BatchOp, rest: Bytes)
    requires SmallOp(op)
    ensures GetOp(EncodeOp(op) + rest) == Some((op, rest))
  {
    match op
    case Put(k, v) =>
      Tagged(VALUE_TAG, LengthPrefixed(k), LengthPrefixed(v), rest);
      LengthPrefixedRoundTrip(k, LengthPrefixed(v) + rest);
      LengthPrefixedRoundTrip(v, rest);
    case Delete(k) =>
      Tagged(DELETION_TAG, LengthPrefixed(k), [], rest);
      LengthPrefixedRoundTrip(k, rest);
  }

  lemma GetOpShrinks(s: Bytes)
    requires |s| > 0
    ensures GetOp(s).Some? ==> |GetOp(s).value.1| < |s|
  {
    GetVarintShrinks(s[1..], 5);
    if GetLengthPrefixed(s[1..]).Some? {
      GetVarintShrinks(GetLengthPrefixed(s[1..]).value.1, 5);
    }
  }

  function BadTag(tag: byte): string {
    if tag == VALUE_TAG then "bad WriteBatch Put"
    else if tag == DELETION_TAG then "bad WriteBatch Delete"
    else "unknown WriteBatch tag"
  }

  /** The operations that can be read off the front, and what is wrong with the rest. */
  function Parsed(input: Bytes): (seq<BatchOp>, Option<string>)
    decreases |input|
  {
    if |input| == 0 then ([], None)
    else match GetOp(input)
      case None => ([], Some(BadTag(input[0])))
      case Some((op, rest)) =>
        GetOpShrinks(input);
        var (ops, wrong) := Parsed(rest);
        ([op] + ops, wrong)
  }

  /** What Iterate returns for any bytes. */
  function Verdict(rep: Bytes): Result {
    if |rep| < HEADER then Corruption("malformed WriteBatch (too small)")
    else
      var (ops, wrong) := Parsed(rep[HEADER..]);
      if wrong.Some? then Corruption(wrong.value)
      else if |ops| != DecodeFixed(rep[8..12]) then Corruption("WriteBatch has wrong count")
      else Ok(ops)
  }

  /** WriteBatch::Iterate, collecting what the handler is told: on any bytes, the operations
      up to the first bad one. */
  method Iterate(rep: Bytes) returns (r: Result, told: seq<BatchOp>)
    ensures r == Verdict(rep) && told == if |rep| < HEADER then [] else Parsed(rep[HEADER..]).0
  {
    told := [];
    if |rep| < HEADER {
      return Corruption("malformed WriteBatch (too small)"), told;
    }
    var input := rep[HEADER..];
    ghost var all, wrong := Parsed(input).0, Parsed(input).1;
    ghost var todo := all;
    while |input| > 0
      invariant Reads(input, todo, wrong) && all == told + todo
      decreases |input|
    {
      GetOpShrinks(input);
      ReadsStep(input, todo, wrong);
      var op := GetOp(input);
      if op.None? {
        return Corruption(BadTag(input[0])), told;
      }
      assert told + todo == told + [op.value.0] + todo[1..];
      told, input, todo := told + [op.value.0], op.value.1, todo[1..];
    }
    ReadsStep(input, todo, wrong);
    if |told| != DecodeFixed(rep[8..12]) {
      return Corruption("WriteBatch has wrong count"), told;
    }
    r := Ok(told);
  }

  ghost predicate ParsedAs(input: Bytes, ops: seq<BatchOp>, wrong: Option<string>, lock: Lock) {
    Parsed(input) == (ops, wrong)
  }

  /** The bytes are those of `ops`, and then of nothing, or of something wrong. */
  ghost predicate Reads(input: Bytes, ops: seq<BatchOp>, wrong: Option<string>) {
    forall lock: Lock :: ParsedAs(input, ops, wrong, lock)
  }

  lemma ReadsNone()
    ensures Reads([], [], None)
  {
  }

  lemma ReadsBad(input: Bytes)
    requires |input| > 0 && GetOp(input) == None
    ensures Reads(input, [], Some(BadTag(input[0])))
  {
  }

  lemma ReadsStep(input: Bytes, ops: seq<BatchOp>, wrong: Option<string>)
    requires Reads(input, ops, wrong)
    ensures |input| == 0 ==> ops == [] && wrong == None
    ensures |input| > 0 && GetOp(input).None? ==> ops == [] && wrong == Some(BadTag(input[0]))
    ensures |input| > 0 && GetOp(input).Some? ==>
              |ops| > 0 && ops[0] == GetOp(input).value.0 && Reads(GetOp(input).value.1, ops[1..], wrong)
  {
    assert ParsedAs(input, ops, wrong, Lock);
    if |input| > 0 && GetOp(input).Some? {
      assert ops[1..] == Parsed(GetOp(input).value.1).0;
    }
  }

  lemma ReadsFirst(input: Bytes, op: BatchOp, rest: Bytes, ops: seq<BatchOp>, wrong: Option<string>)
    requires |input| > 0 && GetOp(input) == Some((op, rest)) && Reads(rest, ops, wrong)
    ensures Reads(input, [op] + ops, wrong)
  {
    assert ParsedAs(rest, ops, wrong, Lock);
    assert ParsedAs(input, [op] + ops, wrong, Lock);
  }

  /** Operations, and then any bytes: what can be read of those, and what is wrong with them. */
  lemma {:induction false} OpsParse(ops: seq<BatchOp>, rest: Bytes, more: seq<BatchOp>, wrong: Option<string>)
    requires SmallOps(ops) && Reads(rest, more, wrong)
    ensures Reads(EncodeOps(ops) + rest, ops + more, wrong)
    decreases |ops|
  {
    if |ops| == 0 {
      assert EncodeOps(ops) + rest == rest && ops + more == more;
    } else {
      var tail := EncodeOps(ops[1..]);
      assert ops == [ops[0]] + ops[1..];
      FlatFirst(OpEncoder(), ops[0], ops[1..]);
      Regroup(EncodeOp(ops[0]), tail, rest);
      OpRoundTrip(ops[0], tail + rest);
      OpsParse(ops[1..], rest, more, wrong);
      ReadsFirst(EncodeOps(ops) + rest, ops[0], tail + rest, ops[1..] + more, wrong);
      assert [ops[0]] + (ops[1..] + more) == ops + more;
    }
  }

  /** A batch with a header, operations and more bytes. */
  lemma VerdictIs(sequence: nat, count: nat, ops: seq<BatchOp>, rest: Bytes, wrong: Option<string>)
    requires SmallOps(ops) && count < WORD && Reads(rest, [], wrong)
    ensures Verdict(Image(sequence, count, ops) + rest)
         == if wrong.Some? then Corruption(wrong.value)
            else if |ops| != count then Corruption("WriteBatch has wrong count")
            else Ok(ops)
  {
    var rep := Image(sequence, count, ops) + rest;
    ImageParts(sequence, count, ops);
    assert rep[HEADER..] == EncodeOps(ops) + rest && rep[8..12] == Fixed(count, 4);
    OpsParse(ops, rest, [], wrong);
    assert ops + [] == ops;
    assert ParsedAs(EncodeOps(ops) + rest, ops, wrong, Lock);
    Fixed32RoundTrip(count);
  }

  /** When a batch is refused: it is shorter than its header, or something after some operations is
      none, or the operations are not as many as it says. */
  lemma Refusals(sequence: nat, count: nat, ops: seq<BatchOp>, rest: Bytes)
    requires SmallOps(ops) && count < WORD
    ensures |rest| < 12 ==> Verdict(rest) == Corruption("malformed WriteBatch (too small)")
    ensures |rest| > 0 && GetOp(rest) == None ==>
              Verdict(Image(sequence, count, ops) + rest) == Corruption(BadTag(rest[0]))
    ensures count != |ops| ==> Verdict(Image(sequence, count, ops)) == Corruption("WriteBatch has wrong count")
  {
    if |rest| > 0 && GetOp(rest) == None {
      ReadsBad(rest);
      VerdictIs(sequence, count, ops, rest, Some(BadTag(rest[0])));
    }
    ReadsNone();
    VerdictIs(sequence, count, ops, [], None);
    assert Image(sequence, count, ops) + [] == Image(sequence, count, ops);
  }

  lemma TwoOps(a: BatchOp, b: BatchOp)
    ensures EncodeOps([a, b]) == EncodeOp(a) + EncodeOp(b)
  {
    assert [a, b] == [a] + [b];
    FlatFirst(OpEncoder(), a, [b]);
    FlatOne(OpEncoder(), b);
  }

  /** Every kind of record, byte by byte; and what a record that ends after its tag is called. */
  lemma RecordBytes()
    ensures Image(1, 2, [Put([97], [98]), Delete([99])])
         == [1, 0, 0, 0, 0, 0, 0, 0, 2, 0, 0, 0, 1, 1, 97, 1, 98, 0, 1, 99]
    ensures GetOp([1]) == None && BadTag(1) == "bad WriteBatch Put"
    ensures GetOp([0]) == None && BadTag(0) == "bad WriteBatch Delete"
    ensures GetOp([2]) == None && BadTag(2) == "unknown WriteBatch tag"
  {
    FixedByte(1, 8);
    FixedByte(2, 4);
    assert Fixed(1, 8) == [1, 0, 0, 0, 0, 0, 0, 0] && Fixed(2, 4) == [2, 0, 0, 0];
    TwoOps(Put([97], [98]), Delete([99]));
    assert EncodeOp(Put([97], [98])) == [1, 1, 97, 1, 98] && EncodeOp(Delete([99])) == [0, 1, 99];
  }

  /** A batch built by Put, Delete and Append reports every operation, in order. */
  lemma BuiltIsFine(sequence: nat, ops: seq<BatchOp>)
    requires SmallOps(ops) && |ops| < WORD
    ensures Verdict(Image(sequence, |ops|, ops)) == Ok(ops)
  {
    ReadsNone();
    VerdictIs(sequence, |ops|, ops, [], None);
    assert Image(sequence, |ops|, ops) + [] == Image(sequence, |ops|, ops);
  }

  // ----- Building -----

  /** Overwriting the count and appending records gives the longer batch. */
  lemma Recounted(rep: Bytes, sequence: nat, a: seq<BatchOp>, b: seq<BatchOp>)
    requires rep == Image(sequence, |a|, a) && |a| < WORD
    ensures |rep| >= HEADER && DecodeFixed(rep[8..12]) == |a|
    ensures rep[..8] + Fixed(|a| + |b|, 4) + rep[12..] + EncodeOps(b) == Image(sequence, |a + b|, a + b)
  {
    ImageParts(sequence, |a|, a);
    Fixed32RoundTrip(|a|);
    ImageAppend(sequence, a, b);
  }

  class Batch {
    var rep: Bytes
    ghost var sequence: nat
    ghost var ops: seq<BatchOp>

    ghost predicate Valid()
      reads this
    {
      rep == Image(sequence, |ops|, ops) && SmallOps(ops) && |ops| < WORD
    }

    constructor ()
      ensures Valid() && ops == [] && sequence == 0
    {
      rep := seq(HEADER, _ => 0);
      ops, sequence := [], 0;
      new;
      ZeroHeader();
    }

    function Count(): nat
      reads this
      requires |rep| >= HEADER
    {
      DecodeFixed(rep[8..12])
    }

    method SetCount(n: nat)
      requires |rep| >= HEADER
      modifies this`rep
      ensures rep == old(rep)[..8] + Fixed(n, 4) + old(rep)[12..]
    {
      rep := rep[..8] + Fixed(n, 4) + rep[12..];
    }

    method SetSequence(n: nat)
      requires Valid()
      modifies this
      ensures Valid() && ops == old(ops) && sequence == n
    {
      ImageParts(sequence, |ops|, ops);
      rep := Fixed(n, 8) + rep[8..];
      sequence := n;
      assert rep == Image(n, |ops|, ops);
    }

    /** Put and Delete: count up, then one more record at the end. */
    method Add(op: BatchOp)
      requires Valid() && SmallOp(op) && |ops| + 1 < WORD
      modifies this
      ensures Valid() && ops == old(ops) + [op] && sequence == old(sequence)
    {
      FlatOne(OpEncoder(), op);
      Recounted(rep, sequence, ops, [op]);
      SetCount(Count() + 1);
      AppendRecord(op);
      ops := ops + [op];
    }

    method AppendRecord(op: BatchOp)
      modifies this`rep
      ensures rep == old(rep) + EncodeOp(op)
    {
      match op {
        case Put(k, v) =>
          Regroup(rep + [VALUE_TAG], LengthPrefixed(k), LengthPrefixed(v));
          Regroup(rep, [VALUE_TAG], LengthPrefixed(k) + LengthPrefixed(v));
          Regroup([VALUE_TAG], LengthPrefixed(k), LengthPrefixed(v));
          rep := rep + [VALUE_TAG];
          rep := rep + LengthPrefixed(k);
          rep := rep + LengthPrefixed(v);
        case Delete(k) =>
          Regroup(rep, [DELETION_TAG], LengthPrefixed(k));
          rep := rep + [DELETION_TAG];
          rep := rep + LengthPrefixed(k);
      }
    }

    /** Append: the operations of the other batch follow this one's. */
    method Append(src: Batch)
      requires Valid() && src.Valid() && |ops| + |src.ops| < WORD
      modifies this
      ensures Valid() && ops == old(ops) + old(src.ops) && sequence == old(sequence)
    {
      Recounted(rep, sequence, ops, src.ops);
      ImageParts(src.sequence, |src.ops|, src.ops);
      Fixed32RoundTrip(|src.ops|);
      ghost var all := ops + src.ops;
      var n, more := Count() + src.Count(), src.rep[HEADER..];
      SetCount(n);
      rep := rep + more;
      ops := all;
    }

    /** Reading back what was built. */
    method Contents() returns (r: Result, first: nat)
      requires Valid() && sequence < LONG
      ensures r == Ok(ops) && first == sequence
    {
      ImageParts(sequence, |ops|, ops);
      Fixed64RoundTrip(sequence);
      var told;
      r, told := Iterate(rep);
      BuiltIsFine(sequence, ops);
      first := DecodeFixed(rep[..8]);
    }

    /** InsertInto: consecutive sequence numbers from the batch's own. */
    method InsertInto() returns (adds: seq<(nat, BatchOp)>)
      requires Valid() && sequence < LONG
      ensures |adds| == |ops| && forall i :: 0 <= i < |adds| ==> adds[i] == (sequence + i, ops[i])
    {
      var r, first := Contents();
      adds := Numbered(first, r.ops);
    }
  }

  /** MemTableInserter: one entry per operation, numbered on from `first`. */
  method Numbered(first: nat, ops: seq<BatchOp>) returns (adds: seq<(nat, BatchOp)>)
    ensures |adds| == |ops| && forall i :: 0 <= i < |adds| ==> adds[i] == (first + i, ops[i])
  {
    var next := first;
    adds := [];
    for i := 0 to |ops|
      invariant next == first + i && |adds| == i
      invariant forall k :: 0 <= k < i ==> adds[k] == (first + k, ops[k])
    {
      adds := adds + [(next, ops[i])];
      next := next + 1;
    }
  }

  lemma ZeroHeader()
    ensures Image(0, 0, []) == seq(HEADER, _ => 0)
  {
    ZeroFixed(8);
    ZeroFixed(4);
  }

  lemma ZeroFixed(width: nat)
    ensures forall i :: 0 <= i < width ==> Fixed(0, width)[i] == 0
  {
    forall i | 0 <= i < width ensures Fixed(0, width)[i] == 0 {
      ZeroDigit(i);
    }
  }

  lemma {:induction false} ZeroDigit(i: nat)
    ensures Digit(0, i) == 0
    decreases i
  {
    if i > 0 {
      ZeroDigit(i - 1);
    }
  }
}
