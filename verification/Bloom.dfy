/** The Bloom filter policy: a filter never denies a key it was built from. */
module Bloom {
  import opened Coding

  // ----- Bits of a byte -----

  predicate Bit(b: nat, i: nat)
    decreases i
  {
    if i == 0 then b % 2 == 1 else Bit(b / 2, i - 1)
  }

  function SetBit(b: nat, i: nat): nat
    decreases i
  {
    if i == 0 then (if b % 2 == 1 then b else b + 1) else 2 * SetBit(b / 2, i - 1) + b % 2
  }

  lemma {:induction false} SetBitBits(b: nat, i: nat, j: nat)
    ensures Bit(SetBit(b, i), j) <==> Bit(b, j) || j == i
    decreases i
  {
    if i == 0 {
      if j > 0 {
        assert SetBit(b, 0) / 2 == b / 2;
      }
    } else {
      var c := SetBit(b / 2, i - 1);
      assert SetBit(b, i) == 2 * c + b % 2;
      assert SetBit(b, i) % 2 == b % 2 && SetBit(b, i) / 2 == c;
      if j > 0 {
        SetBitBits(b / 2, i - 1, j - 1);
      }
    }
  }

  lemma {:induction false} SetBitSmall(b: nat, i: nat, width: nat)
    requires i < width && b < Pow(2, width)
    ensures SetBit(b, i) < Pow(2, width)
    decreases i
  {
    var p: int := Pow(2, width - 1);
    assert Pow(2, width) == 2 * p;
    var half: int, bit: int := b / 2, b % 2;
    assert b == 2 * half + bit && half < p;
    if i > 0 {
      SetBitSmall(half, i - 1, width - 1);
      assert SetBit(b, i) == 2 * SetBit(half, i - 1) + bit;
    }
  }

  lemma SetBitByte(b: byte, i: nat)
    requires i < 8
    ensures SetBit(b, i) < 256
  {
    assert Pow(2, 8) == 256 by {
      assert Pow(2, 3) == 8;
      assert Pow(2, 5) == 32;
    }
    SetBitSmall(b, i, 8);
  }

  // ----- Bits of a buffer -----

  predicate BitAt(a: Bytes, pos: nat)
    requires pos / 8 < |a|
  {
    Bit(a[pos / 8], pos % 8)
  }

  function Marked(a: Bytes, pos: nat): (r: Bytes)
    requires pos / 8 < |a|
    ensures |r| == |a|
  {
    SetBitByte(a[pos / 8], pos % 8);
    a[pos / 8 := SetBit(a[pos / 8], pos % 8)]
  }

  lemma MarkedBits(a: Bytes, pos: nat, q: nat)
    requires pos / 8 < |a| && q / 8 < |a|
    ensures BitAt(Marked(a, pos), q) <==> BitAt(a, q) || q == pos
  {
    if q / 8 == pos / 8 {
      SetBitBits(a[pos / 8], pos % 8, q % 8);
    }
  }

  // ----- Probes -----

  /** The hash of a key, a 32-bit word. */
  type Hash = Bytes -> nat

  /** Rotate right by 17 bits. */
  function Delta(h: nat): nat {
    h / 131072 + h * 32768 % WORD
  }

  function Probe(h: nat, j: nat): nat
    decreases j
  {
    if j == 0 then h % WORD else (Probe(h, j - 1) + Delta(h)) % WORD
  }

  /** The first `k` probes of `h` all find a bit. */
  predicate Present(a: Bytes, h: nat, k: nat) {
    |a| > 0 && forall j :: 0 <= j < k ==> ProbeSet(a, h, j)
  }

  predicate ProbeSet(a: Bytes, h: nat, j: nat)
    requires |a| > 0
  {
    BitAt(a, Probe(h, j) % (8 * |a|))
  }

  lemma MarkKeepsPresent(a: Bytes, pos: nat, h: nat, k: nat)
    requires pos / 8 < |a| && Present(a, h, k)
    ensures Present(Marked(a, pos), h, k)
  {
    forall j | 0 <= j < k ensures ProbeSet(Marked(a, pos), h, j) {
      assert ProbeSet(a, h, j);
      MarkedBits(a, pos, Probe(h, j) % (8 * |a|));
    }
  }

  /** Bit `q` is one of the first `k` probes of `h`. */
  ghost predicate Probes(h: nat, k: nat, bits: nat, q: nat) {
    bits > 0 && exists j :: 0 <= j < k && Probe(h, j) % bits == q
  }

  ghost predicate Asked(keys: seq<Bytes>, hash: Hash, k: nat, bits: nat, q: nat) {
    exists i :: 0 <= i < |keys| && Probes(hash(keys[i]), k, bits, q)
  }

  /** Only bits that some key asks for are set. */
  ghost predicate OnlyAsked(a: Bytes, keys: seq<Bytes>, hash: Hash, k: nat) {
    forall q :: 0 <= q < 8 * |a| && BitAt(a, q) ==> Asked(keys, hash, k, 8 * |a|, q)
  }

  lemma ProbesMore(h: nat, k: nat, bits: nat, q: nat)
    requires bits > 0 && (Probes(h, k, bits, q) || Probe(h, k) % bits == q)
    ensures Probes(h, k + 1, bits, q)
  {}

  lemma {:induction false} ZeroBit(i: nat)
    ensures !Bit(0, i)
    decreases i
  {
    if i > 0 {
      ZeroBit(i - 1);
    }
  }

  /** The buffer with the first `k` probe bits of one key set. */
  function WithKey(a: Bytes, h: nat, k: nat): (r: Bytes)
    requires |a| > 0
    ensures |r| == |a|
    decreases k
  {
    if k == 0 then a else Marked(WithKey(a, h, k - 1), Probe(h, k - 1) % (8 * |a|))
  }

  lemma {:induction false} WithKeyKeeps(a: Bytes, h: nat, k: nat, g: nat, n: nat)
    requires Present(a, g, n)
    ensures Present(WithKey(a, h, k), g, n)
    decreases k
  {
    if k > 0 {
      WithKeyKeeps(a, h, k - 1, g, n);
      MarkKeepsPresent(WithKey(a, h, k - 1), Probe(h, k - 1) % (8 * |a|), g, n);
    }
  }

  lemma {:induction false} WithKeyPresent(a: Bytes, h: nat, k: nat)
    requires |a| > 0
    ensures Present(WithKey(a, h, k), h, k)
    decreases k
  {
    if k > 0 {
      var before, pos := WithKey(a, h, k - 1), Probe(h, k - 1) % (8 * |a|);
      WithKeyPresent(a, h, k - 1);
      MarkKeepsPresent(before, pos, h, k - 1);
      MarkedBits(before, pos, pos);
      assert ProbeSet(WithKey(a, h, k), h, k - 1);
    }
  }

  /** It sets nothing else. */
  lemma {:induction false} WithKeyOnly(a: Bytes, h: nat, k: nat, q: nat)
    requires |a| > 0 && q < 8 * |a| && BitAt(WithKey(a, h, k), q)
    ensures BitAt(a, q) || Probes(h, k, 8 * |a|, q)
    decreases k
  {
    if k > 0 {
      var pos := Probe(h, k - 1) % (8 * |a|);
      MarkedBits(WithKey(a, h, k - 1), pos, q);
      if q != pos {
        WithKeyOnly(a, h, k - 1, q);
      }
      if !BitAt(a, q) {
        ProbesMore(h, k - 1, 8 * |a|, q);
      }
    }
  }

  function WithKeys(a: Bytes, keys: seq<Bytes>, k: nat, hash: Hash): (r: Bytes)
    requires |a| > 0
    ensures |r| == |a|
    decreases |keys|
  {
    if |keys| == 0 then a else WithKey(WithKeys(a, keys[..|keys| - 1], k, hash), hash(keys[|keys| - 1]), k)
  }

  lemma {:induction false} WithKeysPresent(a: Bytes, keys: seq<Bytes>, k: nat, hash: Hash, i: nat)
    requires |a| > 0 && i < |keys|
    ensures Present(WithKeys(a, keys, k, hash), hash(keys[i]), k)
    decreases |keys|
  {
    var n := |keys| - 1;
    var before := WithKeys(a, keys[..n], k, hash);
    if i < n {
      WithKeysPresent(a, keys[..n], k, hash, i);
      WithKeyKeeps(before, hash(keys[n]), k, hash(keys[i]), k);
    } else {
      WithKeyPresent(before, hash(keys[n]), k);
    }
  }

  lemma {:induction false} WithKeysOnly(a: Bytes, keys: seq<Bytes>, k: nat, hash: Hash, q: nat)
    requires |a| > 0 && q < 8 * |a| && BitAt(WithKeys(a, keys, k, hash), q)
    ensures BitAt(a, q) || Asked(keys, hash, k, 8 * |a|, q)
    decreases |keys|
  {
    if |keys| > 0 {
      var n := |keys| - 1;
      var before := WithKeys(a, keys[..n], k, hash);
      WithKeyOnly(before, hash(keys[n]), k, q);
      if BitAt(before, q) {
        WithKeysOnly(a, keys[..n], k, hash, q);
        if !BitAt(a, q) {
          var i :| 0 <= i < n && Probes(hash(keys[..n][i]), k, 8 * |a|, q);
          assert keys[..n][i] == keys[i];
        }
      }
    }
  }

  /** How many bytes of bits a filter takes. */
  function FilterBytes(n: nat, bitsPerKey: nat): (r: nat)
    ensures 8 * r >= 64 && 8 * (r - 1) < (if n * bitsPerKey < 64 then 64 else n * bitsPerKey) <= 8 * r
  {
    ((if n * bitsPerKey < 64 then 64 else n * bitsPerKey) + 7) / 8
  }

  function Zeros(n: nat): (r: Bytes)
    ensures |r| == n
  {
    seq(n, _ => 0)
  }

  /** The number of probes, as the policy's constructor limits it. */
  type Tries = k: nat | 1 <= k <= 30 witness 1

  function Filter(keys: seq<Bytes>, bitsPerKey: nat, k: Tries, hash: Hash): Bytes {
    WithKeys(Zeros(FilterBytes(|keys|, bitsPerKey)), keys, k, hash) + [k]
  }

  /** The probe bits of the keys are set, and no others. */
  lemma FilterBits(keys: seq<Bytes>, bitsPerKey: nat, k: Tries, hash: Hash)
    ensures var f := Filter(keys, bitsPerKey, k, hash);
            && |f| == FilterBytes(|keys|, bitsPerKey) + 1 && f[|f| - 1] == k
            && (forall i :: 0 <= i < |keys| ==> Present(f[..|f| - 1], hash(keys[i]), k))
            && OnlyAsked(f[..|f| - 1], keys, hash, k)
  {
    var zeros := Zeros(FilterBytes(|keys|, bitsPerKey));
    var a, f := WithKeys(zeros, keys, k, hash), Filter(keys, bitsPerKey, k, hash);
    assert f[..|f| - 1] == a;
    forall i | 0 <= i < |keys| ensures Present(a, hash(keys[i]), k) {
      WithKeysPresent(zeros, keys, k, hash, i);
    }
    forall q | 0 <= q < 8 * |a| && BitAt(a, q) ensures Asked(keys, hash, k, 8 * |a|, q) {
      ZeroBit(q % 8);
      WithKeysOnly(zeros, keys, k, hash, q);
    }
  }

  /** Set the `k` probe bits of one key. */
  method AddKey(a: Bytes, h: nat, k: nat) returns (r: Bytes)
    requires |a| > 0 && h < WORD
    ensures r == WithKey(a, h, k)
  {
    r := a;
    var bits := 8 * |a|;
    var delta := Delta(h);
    var x := h;
    for j := 0 to k
      invariant r == WithKey(a, h, j) && x == Probe(h, j)
    {
      var pos := x % bits;
      assert pos / 8 < |r|;
      r := Marked(r, pos);
      x := (x + delta) % WORD;
    }
  }

  /** BloomFilterPolicy::CreateFilter. */
  method CreateFilter(keys: seq<Bytes>, bitsPerKey: nat, k: Tries, hash: Hash) returns (filter: Bytes)
    requires forall s :: hash(s) < WORD
    ensures filter == Filter(keys, bitsPerKey, k, hash)
  {
    var bits := |keys| * bitsPerKey;
    if bits < 64 {
      bits := 64;
    }
    var size := (bits + 7) / 8;
    var a := Zeros(size);
    for i := 0 to |keys|
      invariant a == WithKeys(Zeros(size), keys[..i], k, hash)
    {
      assert keys[..i + 1][..i] == keys[..i];
      a := AddKey(a, hash(keys[i]), k);
    }
    assert keys[..|keys|] == keys;
    filter := a + [k];
  }

  /** What KeyMayMatch answers. */
  predicate MayMatch(key: Bytes, filter: Bytes, hash: Hash) {
    |filter| >= 2 && (filter[|filter| - 1] > 30 || Present(filter[..|filter| - 1], hash(key), filter[|filter| - 1]))
  }

  /** BloomFilterPolicy::KeyMayMatch. */
  method KeyMayMatch(key: Bytes, filter: Bytes, hash: Hash) returns (may: bool)
    requires hash(key) < WORD
    ensures may <==> MayMatch(key, filter, hash)
  {
    var len := |filter|;
    if len < 2 {
      return false;
    }
    var k: nat := filter[len - 1];
    if k > 30 {
      return true;
    }
    var a := filter[..len - 1];
    var bits := 8 * (len - 1);
    var h := hash(key);
    var delta, x := Delta(h), h;
    for j := 0 to k
      invariant x == Probe(h, j) && Present(a, h, j)
    {
      var pos := x % bits;
      if !BitAt(a, pos) {
        assert !ProbeSet(a, h, j);
        return false;
      }
      assert ProbeSet(a, h, j);
      x := (x + delta) % WORD;
    }
    may := true;
  }

  /** No false negatives: every key a filter was made from may match it. */
  lemma MadeFromMatches(keys: seq<Bytes>, key: Bytes, bitsPerKey: nat, k: Tries, hash: Hash)
    requires key in keys
    ensures MayMatch(key, Filter(keys, bitsPerKey, k, hash), hash)
  {
    FilterBits(keys, bitsPerKey, k, hash);
    var i :| 0 <= i < |keys| && keys[i] == key;
  }

  method CreateThenMatch(keys: seq<Bytes>, i: nat, bitsPerKey: nat, k: Tries, hash: Hash) returns (may: bool)
    requires i < |keys| && forall s :: hash(s) < WORD
    ensures may
  {
    var filter := CreateFilter(keys, bitsPerKey, k, hash);
    MadeFromMatches(keys, keys[i], bitsPerKey, k, hash);
    may := KeyMayMatch(keys[i], filter, hash);
  }

  // ----- Exactly which keys a filter denies -----

  lemma AskedIsSet(keys: seq<Bytes>, bitsPerKey: nat, k: Tries, hash: Hash, q: nat)
    requires q < 8 * FilterBytes(|keys|, bitsPerKey)
    ensures var f := Filter(keys, bitsPerKey, k, hash);
            q / 8 < |f| - 1 && (BitAt(f[..|f| - 1], q) <==> Asked(keys, hash, k, 8 * (|f| - 1), q))
  {
    FilterBits(keys, bitsPerKey, k, hash);
    var f := Filter(keys, bitsPerKey, k, hash);
    var a := f[..|f| - 1];
    if Asked(keys, hash, k, 8 * |a|, q) {
      var i :| 0 <= i < |keys| && Probes(hash(keys[i]), k, 8 * |a|, q);
      var j :| 0 <= j < k && Probe(hash(keys[i]), j) % (8 * |a|) == q;
      assert Present(a, hash(keys[i]), k) && ProbeSet(a, hash(keys[i]), j);
    }
  }

  /** Each of the first `k` probes of `h` falls on a probe of some key. */
  ghost predicate AllAsked(keys: seq<Bytes>, hash: Hash, k: nat, bits: nat, h: nat) {
    bits > 0 && forall j :: 0 <= j < k ==> Asked(keys, hash, k, bits, Probe(h, j) % bits)
  }

  /** A filter lets a key through if and only if each of the key's probes falls on a probe of some
      key it was made from. */
  lemma MatchesIff(keys: seq<Bytes>, key: Bytes, bitsPerKey: nat, k: Tries, hash: Hash)
    ensures MayMatch(key, Filter(keys, bitsPerKey, k, hash), hash)
        <==> AllAsked(keys, hash, k, 8 * FilterBytes(|keys|, bitsPerKey), hash(key))
  {
    FilterBits(keys, bitsPerKey, k, hash);
    var f := Filter(keys, bitsPerKey, k, hash);
    var a, bits := f[..|f| - 1], 8 * FilterBytes(|keys|, bitsPerKey);
    forall j: nat | j < k
      ensures ProbeSet(a, hash(key), j) <==> Asked(keys, hash, k, bits, Probe(hash(key), j) % bits)
    {
      AskedIsSet(keys, bitsPerKey, k, hash, Probe(hash(key), j) % bits);
    }
    assert MayMatch(key, f, hash) <==> Present(a, hash(key), k);
    if AllAsked(keys, hash, k, bits, hash(key)) {
      forall j: nat | j < k ensures ProbeSet(a, hash(key), j) {
        assert Asked(keys, hash, k, bits, Probe(hash(key), j) % bits);
      }
    }
    if Present(a, hash(key), k) {
      forall j: nat | j < k ensures Asked(keys, hash, k, bits, Probe(hash(key), j) % bits) {
        assert ProbeSet(a, hash(key), j);
      }
    }
  }

  /** A 32-bit word rotated right by 17 bits: its low 17 bits go to the top. */
  lemma DeltaIs(h: nat)
    requires h < 0x1_0000_0000
    ensures Delta(h) == h % 131072 * 32768 + h / 131072 < 0x1_0000_0000
  {
    var hi, lo := h / 131072, h % 131072;
    assert h == 131072 * hi + lo && lo * 32768 < 0x1_0000_0000;
    assert h * 32768 == lo * 32768 + 0x1_0000_0000 * hi;
    Wraps(lo * 32768, hi);
  }

  lemma Wraps(x: nat, q: nat)
    requires x < 0x1_0000_0000
    ensures (x + 0x1_0000_0000 * q) % 0x1_0000_0000 == x
  {
  }

  lemma AddWord(a: nat, d: nat)
    ensures (a % WORD + d) % WORD == (a + d) % WORD
  {
  }

  /** Probe `j` of a hash is the hash plus `j` times its rotation, in 32 bits. */
  lemma {:induction false} ProbeIs(h: nat, j: nat)
    ensures Probe(h, j) == (h + j * Delta(h)) % 0x1_0000_0000
    decreases j
  {
    if j > 0 {
      ProbeIs(h, j - 1);
      AddWord(h + (j - 1) * Delta(h), Delta(h));
      assert h + (j - 1) * Delta(h) + Delta(h) == h + j * Delta(h);
    }
  }
}
