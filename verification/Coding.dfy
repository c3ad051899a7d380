/** Fixed-width and variable-length integers and length-prefixed strings. */
module Coding {
  import opened Entries

  type byte = b: int | 0 <= b < 256
  type Bytes = seq<byte>

  const WORD: nat := 0x1_0000_0000
  const LONG: nat := 0x1_0000_0000_0000_0000

  // ----- Fixed width, little endian -----

  function Digit(v: nat, i: nat): byte
    decreases i
  {
    if i == 0 then v % 256 else Digit(v / 256, i - 1)
  }

  function Fixed(v: nat, width: nat): (r: Bytes)
    ensures |r| == width
  {
    seq(width, i requires 0 <= i < width => Digit(v, i))
  }

  /** The least significant byte comes first. */
  lemma FixedAt(v: nat, width: nat, i: nat)
    requires i < width
    ensures Fixed(v, width)[i] == v / Pow(256, i) % 256
  {
    DigitIs(v, i);
  }

  lemma {:induction false} DigitIs(v: nat, i: nat)
    ensures Digit(v, i) == v / Pow(256, i) % 256
    decreases i
  {
    if i > 0 {
      DigitIs(v / 256, i - 1);
      DivDiv(v, Pow(256, i - 1));
    }
  }

  lemma DivDiv(v: nat, p: nat)
    requires p > 0
    ensures v / 256 / p == v / (256 * p)
  {
    var q, r := v / 256 / p, v / 256 % p;
    assert v / 256 == p * q + r;
    assert v == 256 * (p * q + r) + v % 256;
    assert 256 * (p * q + r) == 256 * p * q + 256 * r;
    Quotient(v, 256 * p, q, 256 * r + v % 256);
  }

  lemma Quotient(v: nat, d: nat, q: nat, r: nat)
    requires r < d && v == d * q + r
    ensures v / d == q
  {
    var k := v / d;
    assert v == d * k + v % d;
    assert k < q ==> d * q >= d * (k + 1);
    assert k > q ==> d * k >= d * (q + 1);
  }

  lemma {:induction false} SmallDigit(v: byte, i: nat)
    ensures Digit(v, i) == if i == 0 then v else 0
  {
    if i > 1 {
      SmallDigit(0, i - 1);
    }
  }

  /** Two numbers, byte by byte. */
  lemma IntegerBytes()
    ensures Fixed(0x01020304, 4) == [4, 3, 2, 1] && Varint(300) == [172, 2] && Varint(127) == [127]
    ensures LengthPrefixed([97, 98]) == [2, 97, 98]
  {
    assert Varint(300) == [172] + Varint(2);
    assert Digit(0x01020304, 1) == 3 && Digit(0x01020304, 2) == Digit(0x010203, 1) == 2;
    assert Digit(0x01020304, 3) == Digit(0x010203, 2) == Digit(0x0102, 1) == 1;
  }

  /** A small number is its byte and zeros. */
  lemma FixedByte(v: byte, width: nat)
    requires width > 0
    ensures Fixed(v, width)[0] == v && forall i :: 0 < i < width ==> Fixed(v, width)[i] == 0
  {
    forall i: nat | i < width ensures Fixed(v, width)[i] == if i == 0 then v else 0 {
      SmallDigit(v, i);
    }
  }

  function DecodeFixed(s: Bytes): nat {
    if |s| == 0 then 0 else s[0] + 256 * DecodeFixed(s[1..])
  }

  function Pow(base: nat, e: nat): (r: nat)
    ensures base > 0 ==> r > 0
    decreases e
  {
    if e == 0 then 1 else base * Pow(base, e - 1)
  }

  lemma {:induction false} FixedRoundTrip(v: nat, width: nat)
    requires v < Pow(256, width)
    ensures DecodeFixed(Fixed(v, width)) == v
    decreases width
  {
    if width > 0 {
      FixedRoundTrip(v / 256, width - 1);
      assert Fixed(v, width)[1..] == Fixed(v / 256, width - 1);
    }
  }

  lemma Fixed32RoundTrip(v: nat)
    requires v < WORD
    ensures DecodeFixed(Fixed(v, 4)) == v
  {
    assert Pow(256, 2) == 65536;
    assert Pow(256, 3) == 16777216;
    FixedRoundTrip(v, 4);
  }

  lemma Fixed64RoundTrip(v: nat)
    requires v < LONG
    ensures DecodeFixed(Fixed(v, 8)) == v
  {
    assert Pow(256, 2) == 65536;
    assert Pow(256, 3) == 16777216;
    assert Pow(256, 4) == WORD;
    assert Pow(256, 5) == 256 * WORD;
    assert Pow(256, 6) == 65536 * WORD;
    assert Pow(256, 7) == 16777216 * WORD;
    FixedRoundTrip(v, 8);
  }

  // ----- Arrays of 32-bit words -----

  lemma Extended(data: Bytes, more: Bytes, from: nat, to: nat)
    requires from <= to <= |data|
    ensures (data + more)[from..to] == data[from..to]
  {
  }

  function FixedArray(vs: seq<nat>): (r: Bytes)
    ensures |r| == 4 * |vs|
    decreases |vs|
  {
    if |vs| == 0 then [] else FixedArray(vs[..|vs| - 1]) + Fixed(vs[|vs| - 1], 4)
  }

  lemma {:induction false} FixedArrayAt(vs: seq<nat>, j: nat)
    requires j < |vs|
    ensures FixedArray(vs)[4 * j..4 * j + 4] == Fixed(vs[j], 4)
    decreases |vs|
  {
    var rest, last := vs[..|vs| - 1], Fixed(vs[|vs| - 1], 4);
    var before := FixedArray(rest);
    if j < |rest| {
      FixedArrayAt(rest, j);
      Extended(before, last, 4 * j, 4 * j + 4);
    } else {
      assert (before + last)[4 * j..4 * j + 4] == last;
    }
  }

  lemma FixedArraySnoc(front: Bytes, vs: seq<nat>, i: nat)
    requires i < |vs|
    ensures front + FixedArray(vs[..i]) + Fixed(vs[i], 4) == front + FixedArray(vs[..i + 1])
  {
    assert vs[..i + 1][..i] == vs[..i];
  }

  lemma Middle(a: Bytes, b: Bytes, c: Bytes, k: nat)
    requires k + 4 <= |b|
    ensures (a + b + c)[|a| + k..|a| + k + 4] == b[k..k + 4]
  {
  }

  function WordAt(s: Bytes, at: nat): nat
    requires at + 4 <= |s|
  {
    DecodeFixed(s[at..at + 4])
  }

  lemma WordIn(front: Bytes, words: Bytes, tail: Bytes, j: nat, v: nat)
    requires v < WORD && 4 * j + 4 <= |words| && words[4 * j..4 * j + 4] == Fixed(v, 4)
    ensures WordAt(front + words + tail, |front| + 4 * j) == v
  {
    Middle(front, words, tail, 4 * j);
    Fixed32RoundTrip(v);
  }

  // ----- Variable length, seven bits a byte -----

  function Varint(v: nat): (r: Bytes)
    ensures |r| > 0
  {
    if v < 128 then [v] else [v % 128 + 128] + Varint(v / 128)
  }

  /** At most `max` bytes are looked at; the result is the value and what follows. */
  function GetVarint(s: Bytes, max: nat): Option<(nat, Bytes)>
    decreases max
  {
    if |s| == 0 || max == 0 then None
    else if s[0] < 128 then Some((s[0], s[1..]))
    else match GetVarint(s[1..], max - 1)
      case None => None
      case Some(p) => Some((s[0] - 128 + 128 * p.0, p.1))
  }

  lemma {:induction false} VarintRoundTrip(v: nat, rest: Bytes, max: nat)
    requires max > 0 && v < Pow(128, max)
    ensures GetVarint(Varint(v) + rest, max) == Some((v, rest))
    decreases max
  {
    if v < 128 {
      assert Varint(v) + rest == [v] + rest;
      assert (Varint(v) + rest)[1..] == rest;
    } else {
      var s := Varint(v) + rest;
      assert s[1..] == Varint(v / 128) + rest;
      VarintRoundTrip(v / 128, rest, max - 1);
    }
  }

  lemma {:induction false} VarintShort(v: nat, max: nat)
    requires max > 0 && v < Pow(128, max)
    ensures |Varint(v)| <= max
    decreases max
  {
    if v >= 128 {
      assert Pow(128, 1) == 128 * Pow(128, 0) == 128;
      assert v / 128 < Pow(128, max - 1);
      VarintShort(v / 128, max - 1);
    }
  }

  lemma {:induction false} GetVarintShrinks(s: Bytes, max: nat)
    ensures GetVarint(s, max).Some? ==> |GetVarint(s, max).value.1| < |s|
    decreases max
  {
    if |s| > 0 && max > 0 && s[0] >= 128 {
      GetVarintShrinks(s[1..], max - 1);
    }
  }

  /** A varint is there if and only if one of the bytes looked at ends it. */
  lemma {:induction false} GetVarintIff(s: Bytes, max: nat)
    ensures GetVarint(s, max).Some? <==> exists i :: 0 <= i < |s| && i < max && s[i] < 128
    decreases max
  {
    if |s| > 0 && max > 0 && s[0] >= 128 {
      GetVarintIff(s[1..], max - 1);
      if i :| 0 <= i < |s| && i < max && s[i] < 128 {
        assert s[1..][i - 1] == s[i];
      }
      if i :| 0 <= i < |s[1..]| && i < max - 1 && s[1..][i] < 128 {
        assert s[i + 1] < 128;
      }
    }
  }

  /** A 32-bit varint: five bytes, truncated to the word. */
  function GetVarint32(s: Bytes): Option<(nat, Bytes)> {
    match GetVarint(s, 5)
    case None => None
    case Some(p) => Some((p.0 % WORD, p.1))
  }

  function GetVarint64(s: Bytes): Option<(nat, Bytes)> {
    match GetVarint(s, 10)
    case None => None
    case Some(p) => Some((p.0 % LONG, p.1))
  }

  lemma Varint32RoundTrip(v: nat, rest: Bytes)
    requires v < WORD
    ensures GetVarint32(Varint(v) + rest) == Some((v, rest))
  {
    assert Pow(128, 5) == 34359738368 by { PowFive(); }
    VarintRoundTrip(v, rest, 5);
  }

  lemma PowFive()
    ensures Pow(128, 5) == 34359738368
  {
    assert Pow(128, 2) == 16384;
    assert Pow(128, 3) == 2097152;
    assert Pow(128, 4) == 268435456;
  }

  lemma Varint64RoundTrip(v: nat, rest: Bytes)
    requires v < LONG
    ensures GetVarint64(Varint(v) + rest) == Some((v, rest))
  {
    PowFive();
    assert Pow(128, 6) == 128 * Pow(128, 5);
    assert Pow(128, 7) == 128 * Pow(128, 6);
    assert Pow(128, 8) == 128 * Pow(128, 7);
    assert Pow(128, 9) == 128 * Pow(128, 8);
    assert Pow(128, 10) == 128 * Pow(128, 9);
    VarintRoundTrip(v, rest, 10);
  }

  // ----- Length-prefixed strings -----

  function LengthPrefixed(s: Bytes): Bytes {
    Varint(|s|) + s
  }

  function GetLengthPrefixed(s: Bytes): Option<(Bytes, Bytes)> {
    match GetVarint32(s)
    case None => None
    case Some(p) => if |p.1| >= p.0 then Some((p.1[..p.0], p.1[p.0..])) else None
  }

  lemma LengthPrefixedRoundTrip(s: Bytes, rest: Bytes)
    requires |s| < WORD
    ensures GetLengthPrefixed(LengthPrefixed(s) + rest) == Some((s, rest))
  {
    assert LengthPrefixed(s) + rest == Varint(|s|) + (s + rest);
    Varint32RoundTrip(|s|, s + rest);
  }

  // ----- The loops -----

  /** EncodeVarint32, spelled out by length. */
  method EncodeVarint32(v: nat) returns (r: Bytes)
    requires v < WORD
    ensures r == Varint(v)
  {
    if v < 128 {
      r := [v];
    } else if v < 16384 {
      r := [v % 128 + 128, v / 128];
    } else if v < 2097152 {
      r := [v % 128 + 128, v / 128 % 128 + 128, v / 16384];
      assert v / 128 / 128 == v / 16384;
      assert Varint(v / 128) == [v / 128 % 128 + 128] + Varint(v / 16384);
    } else if v < 268435456 {
      r := [v % 128 + 128, v / 128 % 128 + 128, v / 16384 % 128 + 128, v / 2097152];
      assert v / 128 / 128 == v / 16384 && v / 16384 / 128 == v / 2097152;
      assert Varint(v / 128) == [v / 128 % 128 + 128] + Varint(v / 16384);
      assert Varint(v / 16384) == [v / 16384 % 128 + 128] + Varint(v / 2097152);
    } else {
      r := [v % 128 + 128, v / 128 % 128 + 128, v / 16384 % 128 + 128, v / 2097152 % 128 + 128, v / 268435456];
      assert v / 128 / 128 == v / 16384 && v / 16384 / 128 == v / 2097152 && v / 2097152 / 128 == v / 268435456;
      assert Varint(v / 128) == [v / 128 % 128 + 128] + Varint(v / 16384);
      assert Varint(v / 16384) == [v / 16384 % 128 + 128] + Varint(v / 2097152);
      assert Varint(v / 2097152) == [v / 2097152 % 128 + 128] + Varint(v / 268435456);
    }
  }

  method EncodeVarint64(v: nat) returns (r: Bytes)
    requires v < LONG
    ensures r == Varint(v)
  {
    var left := v;
    r := [];
    while left >= 128
      invariant Varint(v) == r + Varint(left)
    {
      r := r + [left % 128 + 128];
      left := left / 128;
    }
    r := r + [left];
  }

  method VarintLength(v: nat) returns (len: nat)
    ensures len == |Varint(v)|
  {
    var left := v;
    len := 1;
    while left >= 128
      invariant |Varint(v)| == len - 1 + |Varint(left)|
    {
      left := left / 128;
      len := len + 1;
    }
  }

  /** What a decoding loop still owes: the digits read so far and the rest. */
  ghost function Owed(result: nat, weight: nat, s: Bytes, max: nat): Option<(nat, Bytes)> {
    match GetVarint(s, max)
    case None => None
    case Some(p) => Some((result + Times(weight, p.0), p.1))
  }

  lemma OwedStep(result: nat, weight: nat, s: Bytes, max: nat, next: nat)
    requires |s| > 0 && max > 0 && s[0] >= 128 && next == result + Times(s[0] - 128, weight)
    ensures Owed(result, weight, s, max) == Owed(next, 128 * weight, s[1..], max - 1)
  {
    match GetVarint(s[1..], max - 1)
    case None =>
    case Some(p) => OwedSum(result, weight, s[0] - 128, p.0);
  }

  function Times(a: nat, b: nat): nat {
    a * b
  }

  lemma OwedSum(result: nat, weight: nat, digit: nat, v: nat)
    ensures result + Times(weight, digit + 128 * v) == result + Times(digit, weight) + Times(128 * weight, v)
  {
  }

  /** GetVarint32Ptr and GetVarint64Ptr: digits accumulate by shifting; the shifted
      digits do not overlap, so "or" is addition. */
  method GetVarintPtr(s: Bytes, max: nat) returns (r: Option<(nat, Bytes)>)
    ensures r == GetVarint(s, max)
  {
    var result: nat, weight: nat, i := 0, 1, 0;
    assert s[0..] == s;
    while i < max && i < |s|
      invariant 0 <= i <= max && i <= |s|
      invariant GetVarint(s, max) == Owed(result, weight, s[i..], max - i)
    {
      var b: nat := s[i];
      ghost var rest := s[i..];
      assert rest[1..] == s[i + 1..] && rest[0] == s[i];
      if b < 128 {
        return Some((result + Times(weight, b), s[i + 1..]));
      }
      var next := result + Times(b - 128, weight);
      OwedStep(result, weight, rest, max - i, next);
      result, weight := next, 128 * weight;
      i := i + 1;
    }
    return None;
  }
}
