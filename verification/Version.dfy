/** The file lists of one version and the algorithms that search them. */
module Version {
  import opened Entries
  import opened Lsm
  import opened LsmFlush
  import opened LsmSteps
  import LC = LsmCompaction

  const MAX_SEQUENCE: nat := 0xFF_FFFF_FFFF_FFFF

  function Smallest(f: File): IKey
    requires |f.entries| > 0
  {
    KeyOf(f.entries[0])
  }

  function Largest(f: File): IKey
    requires |f.entries| > 0
  {
    KeyOf(f.entries[|f.entries| - 1])
  }

  ghost predicate AllValid(files: seq<File>) {
    forall i :: 0 <= i < |files| ==> ValidFile(files[i])
  }

  ghost predicate LargestAscend(files: seq<File>)
    requires AllValid(files)
  {
    forall i, j :: 0 <= i < j < |files| ==> Less(Largest(files[i]), Largest(files[j]))
  }

  /** The index of the first file whose largest key is at or after `key`. */
  method FindFile(files: seq<File>, key: IKey) returns (index: nat)
    requires AllValid(files) && LargestAscend(files)
    ensures index <= |files|
    ensures forall i :: 0 <= i < index ==> Less(Largest(files[i]), key)
    ensures forall i :: index <= i < |files| ==> !Less(Largest(files[i]), key)
  {
    var left, right := 0, |files|;
    while left < right
      invariant left <= right <= |files|
      invariant forall i :: 0 <= i < left ==> Less(Largest(files[i]), key)
      invariant forall i :: right <= i < |files| ==> !Less(Largest(files[i]), key)
    {
      var mid := (left + right) / 2;
      if Less(Largest(files[mid]), key) {
        left := mid + 1;
      } else {
        right := mid;
      }
    }
    index := right;
  }

  // ----- Range overlap; `None` stands for an open end -----

  predicate AfterFile(user: Option<UserKey>, f: File) {
    user.Some? && user.value > Hi(f)
  }

  predicate BeforeFile(user: Option<UserKey>, f: File) {
    user.Some? && user.value < Lo(f)
  }

  /** The range `[lo, hi]` and the range of `f` meet. */
  predicate Meets(f: File, lo: Option<UserKey>, hi: Option<UserKey>) {
    !AfterFile(lo, f) && !BeforeFile(hi, f)
  }

  /** Files below level 0: in internal key order, so that two neighbours may share a user key. */
  ghost predicate InKeyOrder(files: seq<File>) {
    && AllValid(files)
    && forall i, j :: 0 <= i < j < |files| ==> Less(Largest(files[i]), Smallest(files[j]))
  }

  /** No entry of a file is before its smallest key or after its largest. */
  lemma EndsAreExtreme(f: File, x: Entry)
    requires ValidFile(f) && x in f.entries
    ensures !Less(KeyOf(x), Smallest(f)) && !Less(Largest(f), KeyOf(x))
  {
    var i :| 0 <= i < |f.entries| && f.entries[i] == x;
    assert i > 0 ==> Before(f.entries[0], f.entries[i]);
    assert i < |f.entries| - 1 ==> Before(f.entries[i], f.entries[|f.entries| - 1]);
  }

  lemma InOrderAscends(files: seq<File>)
    requires InKeyOrder(files)
    ensures LargestAscend(files)
    ensures forall i, j :: 0 <= i < j < |files| ==> Hi(files[i]) <= Lo(files[j])
  {
    forall i, j | 0 <= i < j < |files| ensures Less(Largest(files[i]), Largest(files[j])) {
      EndsAreExtreme(files[j], files[j].entries[0]);
    }
  }

  ghost predicate SequencesOk(files: seq<File>) {
    forall i, e :: 0 <= i < |files| && e in files[i].entries ==> e.sn <= MAX_SEQUENCE
  }

  method SomeFileOverlapsRange(disjoint: bool, files: seq<File>, lo: Option<UserKey>, hi: Option<UserKey>)
    returns (overlap: bool)
    requires AllValid(files) && SequencesOk(files)
    requires disjoint ==> InKeyOrder(files)
    ensures overlap <==> exists i :: 0 <= i < |files| && Meets(files[i], lo, hi)
  {
    if !disjoint {
      for i := 0 to |files|
        invariant forall j :: 0 <= j < i ==> !Meets(files[j], lo, hi)
      {
        if AfterFile(lo, files[i]) || BeforeFile(hi, files[i]) {
        } else {
          return true;
        }
      }
      return false;
    }

    var index := 0;
    if lo.Some? {
      InOrderAscends(files);
      index := FindFile(files, SeekKey(lo.value, MAX_SEQUENCE));
      forall i | 0 <= i < |files| ensures AfterFile(lo, files[i]) <==> i < index {
        var last := files[i].entries[|files[i].entries| - 1];
        assert last in files[i].entries;
      }
    }
    if index >= |files| {
      return false;
    }
    InOrderAscends(files);
    overlap := !BeforeFile(hi, files[index]);
    assert forall i :: 0 <= i < |files| && Meets(files[i], lo, hi) ==> i >= index;
    LC.RangeOrdered(files[index]);
  }

  // ----- Files that overlap a range, and its closure at level 0 -----

  /** `[b, e]` contains `[lo, hi]`. */
  predicate Wider(b: Option<UserKey>, e: Option<UserKey>, lo: Option<UserKey>, hi: Option<UserKey>) {
    && (b.Some? ==> lo.Some? && b.value <= lo.value)
    && (e.Some? ==> hi.Some? && hi.value <= e.value)
  }

  predicate Inside(f: File, b: Option<UserKey>, e: Option<UserKey>) {
    (b.Some? ==> b.value <= Lo(f)) && (e.Some? ==> Hi(f) <= e.value)
  }

  /** Every file that meets the range lies inside it. */
  ghost predicate ClosedRange(files: seq<File>, b: Option<UserKey>, e: Option<UserKey>) {
    forall i :: 0 <= i < |files| && Meets(files[i], b, e) ==> Inside(files[i], b, e)
  }

  /** Nothing closed and wide enough is narrower than `[b, e]`. */
  ghost predicate Narrowest(files: seq<File>, lo: Option<UserKey>, hi: Option<UserKey>, b: Option<UserKey>,
                            e: Option<UserKey>) {
    forall b', e' :: Wider(b', e', lo, hi) && ClosedRange(files, b', e') ==> Wider(b', e', b, e)
  }

  predicate Contains(b: Option<UserKey>, e: Option<UserKey>, u: UserKey) {
    (b.Some? ==> b.value <= u) && (e.Some? ==> u <= e.value)
  }

  /** What `[b, e]` adds to `[lo, hi]` is covered by files that meet it. */
  ghost predicate GrownByFiles(files: seq<File>, lo: Option<UserKey>, hi: Option<UserKey>, b: Option<UserKey>,
                               e: Option<UserKey>) {
    forall u :: Contains(b, e, u) && !Contains(lo, hi, u) ==>
      exists i :: 0 <= i < |files| && Covers(files[i], u) && Meets(files[i], b, e)
  }

  function Select(files: seq<File>, b: Option<UserKey>, e: Option<UserKey>): (r: seq<File>)
    ensures forall f :: f in r <==> f in files && Meets(f, b, e)
    decreases |files|
  {
    if |files| == 0 then []
    else
      var n := |files| - 1;
      var r := Select(files[..n], b, e);
      assert files == files[..n] + [files[n]];
      if Meets(files[n], b, e) then r + [files[n]] else r
  }

  lemma SelectStep(files: seq<File>, i: nat, b: Option<UserKey>, e: Option<UserKey>)
    requires i < |files|
    ensures Select(files[..i + 1], b, e) == Select(files[..i], b, e) + if Meets(files[i], b, e) then [files[i]] else []
  {
    assert files[..i + 1][..i] == files[..i];
  }

  /** How many file ends stick out of the range. */
  function Outside(files: seq<File>, b: Option<UserKey>, e: Option<UserKey>): nat
    decreases |files|
  {
    if |files| == 0 then 0
    else
      var n := |files| - 1;
      Outside(files[..n], b, e)
      + (if b.Some? && Lo(files[n]) < b.value then 1 else 0)
      + (if e.Some? && Hi(files[n]) > e.value then 1 else 0)
  }

  lemma {:induction false} OutsideShrinks(files: seq<File>, b: Option<UserKey>, e: Option<UserKey>,
                                          b': Option<UserKey>, e': Option<UserKey>)
    requires Wider(b', e', b, e) && (b.Some? <==> b'.Some?) && (e.Some? <==> e'.Some?)
    ensures Outside(files, b', e') <= Outside(files, b, e)
    ensures (exists i :: 0 <= i < |files| &&
              ((b.Some? && b'.value <= Lo(files[i]) < b.value) || (e.Some? && e.value < Hi(files[i]) <= e'.value)))
            ==> Outside(files, b', e') < Outside(files, b, e)
    decreases |files|
  {
    if |files| > 0 {
      var n := |files| - 1;
      OutsideShrinks(files[..n], b, e, b', e');
      if i :| 0 <= i < |files| &&
              ((b.Some? && b'.value <= Lo(files[i]) < b.value) || (e.Some? && e.value < Hi(files[i]) <= e'.value))
      {
        assert i < n ==> files[..n][i] == files[i];
      }
    }
  }

  /** `[b, e]` is `[lo, hi]` stretched over files that had to be included. */
  ghost predicate Stretched(files: seq<File>, lo: Option<UserKey>, hi: Option<UserKey>, b: Option<UserKey>,
                            e: Option<UserKey>) {
    && Wider(b, e, lo, hi)
    && (b.Some? <==> lo.Some?) && (e.Some? <==> hi.Some?)
    && Narrowest(files, lo, hi, b, e)
    && GrownByFiles(files, lo, hi, b, e)
  }

  lemma StretchNarrowest(files: seq<File>, lo: Option<UserKey>, hi: Option<UserKey>, b: Option<UserKey>,
                         e: Option<UserKey>,
                         i: nat, b': Option<UserKey>, e': Option<UserKey>)
    requires Narrowest(files, lo, hi, b, e) && i < |files| && Meets(files[i], b, e)
    requires (b' == b || b' == Some(Lo(files[i]))) && (e' == e || e' == Some(Hi(files[i])))
    ensures Narrowest(files, lo, hi, b', e')
  {
    forall c, d | Wider(c, d, lo, hi) && ClosedRange(files, c, d) ensures Wider(c, d, b', e') {
      assert Wider(c, d, b, e);
      assert Meets(files[i], c, d);
    }
  }

  lemma StretchGrown(files: seq<File>, lo: Option<UserKey>, hi: Option<UserKey>, b: Option<UserKey>, e: Option<UserKey>,
                     i: nat, b': Option<UserKey>, e': Option<UserKey>)
    requires GrownByFiles(files, lo, hi, b, e) && i < |files| && Meets(files[i], b, e) && Wider(b', e', b, e)
    requires (b' == b || b' == Some(Lo(files[i]))) && (e' == e || e' == Some(Hi(files[i])))
    ensures GrownByFiles(files, lo, hi, b', e')
  {
    forall u | Contains(b', e', u) && !Contains(lo, hi, u)
      ensures exists j :: 0 <= j < |files| && Covers(files[j], u) && Meets(files[j], b', e')
    {
      if Contains(b, e, u) {
        var j :| 0 <= j < |files| && Covers(files[j], u) && Meets(files[j], b, e);
        assert Meets(files[j], b', e');
      } else {
        assert Covers(files[i], u) && Meets(files[i], b', e');
      }
    }
  }

  lemma Stretch(files: seq<File>, lo: Option<UserKey>, hi: Option<UserKey>, b: Option<UserKey>, e: Option<UserKey>,
                i: nat, b': Option<UserKey>, e': Option<UserKey>)
    requires Stretched(files, lo, hi, b, e) && i < |files| && ValidFile(files[i]) && Meets(files[i], b, e)
    requires || (b.Some? && Lo(files[i]) < b.value && b' == Some(Lo(files[i])) && e' == e)
             || (e.Some? && Hi(files[i]) > e.value && e' == Some(Hi(files[i])) && b' == b)
    ensures Stretched(files, lo, hi, b', e')
    ensures Outside(files, b', e') < Outside(files, b, e)
  {
    OutsideShrinks(files, b, e, b', e');
    StretchNarrowest(files, lo, hi, b, e, i, b', e');
    StretchGrown(files, lo, hi, b, e, i, b', e');
  }

  /** All files of the level that meet `[begin, end]`; at level 0 the range grows
      until no file sticks out, restarting the scan each time. */
  method GetOverlappingInputs(level: nat, files: seq<File>, begin: Option<UserKey>, end: Option<UserKey>)
    returns (inputs: seq<File>, ghost b: Option<UserKey>, ghost e: Option<UserKey>)
    requires AllValid(files)
    ensures inputs == Select(files, b, e)
    ensures Stretched(files, begin, end, b, e)
    ensures level != 0 ==> b == begin && e == end
    ensures level == 0 ==> ClosedRange(files, b, e)
  {
    inputs := [];
    var userBegin, userEnd := begin, end;
    var i := 0;
    while i < |files|
      invariant i <= |files|
      invariant inputs == Select(files[..i], userBegin, userEnd)
      invariant Stretched(files, begin, end, userBegin, userEnd)
      invariant level != 0 ==> userBegin == begin && userEnd == end
      invariant level == 0 ==>
                  forall j :: 0 <= j < i && Meets(files[j], userBegin, userEnd) ==> Inside(files[j], userBegin, userEnd)
      decreases Outside(files, userBegin, userEnd), |files| - i
    {
      var f := files[i];
      SelectStep(files, i, userBegin, userEnd);
      i := i + 1;
      if userBegin.Some? && Hi(f) < userBegin.value {
      } else if userEnd.Some? && Lo(f) > userEnd.value {
      } else {
        inputs := inputs + [f];
        if level == 0 {
          if userBegin.Some? && Lo(f) < userBegin.value {
            Stretch(files, begin, end, userBegin, userEnd, i - 1, Some(Lo(f)), userEnd);
            userBegin := Some(Lo(f));
            inputs := [];
            i := 0;
          } else if userEnd.Some? && Hi(f) > userEnd.value {
            Stretch(files, begin, end, userBegin, userEnd, i - 1, userBegin, Some(Hi(f)));
            userEnd := Some(Hi(f));
            inputs := [];
            i := 0;
          }
        }
      }
    }
    assert files[..|files|] == files;
    b, e := userBegin, userEnd;
  }
}
