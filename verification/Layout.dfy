/** Items written one after the other, in forms that depend on where they start. */
module Layout {
  import opened Entries
  import opened Coding

  type Form<!T> = (nat, T) -> Bytes

  function Laid<T>(form: Form<T>, p: nat, items: seq<T>): Bytes
    decreases |items|
  {
    if |items| == 0 then []
    else form(p, items[0]) + Laid(form, p + |form(p, items[0])|, items[1..])
  }

  lemma LaidFirst<T>(form: Form<T>, p: nat, item: T, rest: seq<T>)
    ensures Laid(form, p, [item] + rest) == form(p, item) + Laid(form, p + |form(p, item)|, rest)
  {
    assert ([item] + rest)[1..] == rest;
  }

  lemma Regroup(a: Bytes, b: Bytes, c: Bytes)
    ensures a + (b + c) == a + b + c
  {
  }

  lemma {:induction false} LaidAppend<T>(form: Form<T>, p: nat, items: seq<T>, item: T)
    ensures Laid(form, p, items + [item]) == Laid(form, p, items) + form(p + |Laid(form, p, items)|, item)
    decreases |items|
  {
    if |items| == 0 {
      assert items + [item] == [item] + items;
      LaidFirst(form, p, item, items);
    } else {
      var head, rest := form(p, items[0]), items[1..];
      var q := p + |head|;
      LaidAppend(form, q, rest, item);
      assert items + [item] == [items[0]] + (rest + [item]);
      LaidFirst(form, p, items[0], rest + [item]);
      Regroup(head, Laid(form, q, rest), form(q + |Laid(form, q, rest)|, item));
    }
  }

  /** How many of the items lie wholly within the first `n` bytes. */
  function Inside<T>(form: Form<T>, p: nat, items: seq<T>, n: nat): (k: nat)
    ensures k <= |items|
    decreases |items|
  {
    if |items| > 0 && |form(p, items[0])| <= n
    then 1 + Inside(form, p + |form(p, items[0])|, items[1..], n - |form(p, items[0])|)
    else 0
  }

  lemma LaidPrefix<T>(form: Form<T>, p: nat, items: seq<T>, k: nat)
    requires k < |items|
    ensures |Laid(form, p, items[..k + 1])| == |form(p, items[0])|
              + |Laid(form, p + |form(p, items[0])|, items[1..][..k])|
  {
    assert items[..k + 1] == [items[0]] + items[1..][..k];
    LaidFirst(form, p, items[0], items[1..][..k]);
  }

  /** It is the largest number of items whose bytes fit in `n`. */
  lemma {:induction false} InsideIsLargest<T>(form: Form<T>, p: nat, items: seq<T>, n: nat)
    ensures var k := Inside(form, p, items, n);
            && |Laid(form, p, items[..k])| <= n
            && (k < |items| ==> |Laid(form, p, items[..k + 1])| > n)
    decreases |items|
  {
    var k := Inside(form, p, items, n);
    if |items| > 0 {
      var head, rest := form(p, items[0]), items[1..];
      if |head| <= n {
        InsideIsLargest(form, p + |head|, rest, n - |head|);
        LaidPrefix(form, p, items, k - 1);
        if k < |items| {
          LaidPrefix(form, p, items, k);
        }
      } else {
        LaidPrefix(form, p, items, 0);
      }
    }
  }

  // ----- Items whose form does not depend on the position -----

  type Encoder<!T> = T -> Bytes

  function Flat<T>(enc: Encoder<T>, items: seq<T>): Bytes
    decreases |items|
  {
    if |items| == 0 then [] else enc(items[0]) + Flat(enc, items[1..])
  }

  lemma FlatFirst<T>(enc: Encoder<T>, item: T, rest: seq<T>)
    ensures Flat(enc, [item] + rest) == enc(item) + Flat(enc, rest)
  {
    assert ([item] + rest)[1..] == rest;
  }

  lemma {:induction false} FlatJoin<T>(enc: Encoder<T>, a: seq<T>, b: seq<T>)
    ensures Flat(enc, a + b) == Flat(enc, a) + Flat(enc, b)
    decreases |a|
  {
    if |a| == 0 {
      assert a + b == b;
    } else {
      assert a + b == [a[0]] + (a[1..] + b);
      FlatFirst(enc, a[0], a[1..] + b);
      FlatJoin(enc, a[1..], b);
      Regroup(enc(a[0]), Flat(enc, a[1..]), Flat(enc, b));
    }
  }

  lemma FlatOne<T>(enc: Encoder<T>, item: T)
    ensures Flat(enc, [item]) == enc(item)
  {
    assert [item] == [item] + [];
    FlatFirst(enc, item, []);
  }

  /** One item off the front of the input. */
  type Decoder<!T> = Bytes -> Option<(T, Bytes)>

  /** Decoding takes exactly the item off the front, whatever follows it. */
  ghost predicate Undoes<T(!new)>(dec: Decoder<T>, enc: Encoder<T>, item: T) {
    forall rest :: dec(enc(item) + rest) == Some((item, rest))
  }

  /** The front of an encoded list decodes to its first item and the rest. */
  lemma FlatFront<T(!new)>(dec: Decoder<T>, enc: Encoder<T>, items: seq<T>)
    requires |items| > 0 && Undoes(dec, enc, items[0])
    ensures dec(Flat(enc, items)) == Some((items[0], Flat(enc, items[1..])))
  {
    assert items == [items[0]] + items[1..];
    FlatFirst(enc, items[0], items[1..]);
  }
}
