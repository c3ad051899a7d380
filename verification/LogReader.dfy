/** Reading a log back, block by block and fragment by fragment. */
module LogReader {
  import opened Entries
  import opened Coding
  import opened Layout
  import opened LogFormat

  const EOF_KIND: nat := 5
  const BAD_KIND: nat := 6

  /** The bytes of `f`, as the writer lays them out at `p`, are all in the file. */
  ghost predicate Whole(crc: Crc, file: Bytes, p: nat, f: Frag) {
    Fits(p, f) && FragEnd(p, f) <= |file| && file[p..FragEnd(p, f)] == FragImage(crc, p, f)
  }

  ghost predicate ZeroFrom(file: Bytes, p: nat) {
    p <= |file| && forall i :: p <= i < |file| ==> file[i] == 0
  }

  /** The file ends inside a fragment that was being written at `p`. */
  ghost predicate Broken(crc: Crc, file: Bytes, p: nat, f: Frag) {
    Fits(p, f) && p <= |file| < FragEnd(p, f) && file[p..] == FragImage(crc, p, f)[..|file| - p]
  }

  /** No fragment is left at or after `p`. */
  ghost predicate Nothing(crc: Crc, file: Bytes, p: nat) {
    ZeroFrom(file, p) || exists f :: Broken(crc, file, p, f)
  }

  // ----- Parsing one fragment -----

  /** What the front of a buffer holds: its type, its payload, and how many bytes
      of the buffer are used up; a bad fragment uses up all of them. */
  datatype Parsed = Parsed(kind: nat, data: Bytes, used: nat)

  function Parse(crc: Crc, buffer: Bytes): (r: Parsed)
    requires |buffer| >= HEADER
    ensures 0 < r.used <= |buffer|
  {
    var low: int, high: int := buffer[4], buffer[5];
    var length := low + 256 * high;
    var kind: nat := buffer[6];
    if HEADER + length > |buffer| || (kind == 0 && length == 0) then Parsed(BAD_KIND, [], |buffer|)
    else if crc.load(buffer[..4]) != crc.value(buffer[6..HEADER + length]) then Parsed(BAD_KIND, [], |buffer|)
    else Parsed(kind, buffer[HEADER..HEADER + length], HEADER + length)
  }

  lemma HeaderFields(checksum: Four, n: nat, kind: byte)
    requires n < 65536
    ensures var h := Header(checksum, n, kind);
            h[..4] == checksum && h[4] == n % 256 && h[5] == n / 256 && h[6] == kind
  {
  }

  /** A whole fragment is read back as written. */
  lemma ParseWhole(crc: Crc, f: Frag, buffer: Bytes)
    requires Loads(crc) && |f.data| < 65536 && f.kind > 0 && Encode(crc, f) <= buffer
    ensures Parse(crc, buffer) == Parsed(f.kind, f.data, HEADER + |f.data|)
  {
    var n := |f.data|;
    var sum := crc.value([f.kind] + f.data);
    var h, e := Header(crc.store(sum), n, f.kind), Encode(crc, f);
    HeaderFields(crc.store(sum), n, f.kind);
    assert forall i :: 0 <= i < |e| ==> buffer[i] == e[i];
    assert forall i :: 0 <= i < HEADER ==> e[i] == h[i];
    assert forall i :: 0 <= i < n ==> e[HEADER + i] == f.data[i];
    assert buffer[..4] == h[..4];
    assert crc.load(buffer[..4]) == sum;
    assert buffer[HEADER..HEADER + n] == f.data;
    assert buffer[6..HEADER + n] == [f.kind] + f.data;
  }

  /** A fragment cut short is bad. */
  lemma ParseBroken(crc: Crc, f: Frag, buffer: Bytes)
    requires |f.data| < 65536 && HEADER <= |buffer| < HEADER + |f.data| && buffer == Encode(crc, f)[..|buffer|]
    ensures Parse(crc, buffer) == Parsed(BAD_KIND, [], |buffer|)
  {
    var sum := crc.value([f.kind] + f.data);
    var h, e := Header(crc.store(sum), |f.data|, f.kind), Encode(crc, f);
    HeaderFields(crc.store(sum), |f.data|, f.kind);
    assert forall i :: 0 <= i < |buffer| ==> buffer[i] == e[i];
    assert forall i :: 0 <= i < HEADER ==> e[i] == h[i];
  }

  /** The fragment ends at `z`, with its length, its type and a checksum that matches. */
  ghost predicate Intact(crc: Crc, file: Bytes, f: Frag, z: nat) {
    forall c: Case :: IntactCase(crc, file, f, z, c)
  }

  ghost predicate IntactCase(crc: Crc, file: Bytes, f: Frag, z: nat, c: Case) {
    && HEADER + |f.data| <= z <= |file|
    && var a := z - HEADER - |f.data|;
       && file[a + 4] as int + 256 * file[a + 5] as int == |f.data| && file[a + 6] == f.kind
       && file[a + HEADER..z] == f.data
       && crc.load(file[a..a + 4]) == crc.value([f.kind] + f.data)
  }

  /** On any bytes: what is not bad has a checksum that matches. */
  lemma ParseChecks(crc: Crc, buffer: Bytes)
    requires |buffer| >= HEADER
    ensures var r := Parse(crc, buffer);
            r != Parsed(BAD_KIND, [], |buffer|) ==>
              r.kind < 256 && r.used == HEADER + |r.data| && Intact(crc, buffer, Frag(r.kind as byte, r.data), r.used)
  {
    var r := Parse(crc, buffer);
    if r != Parsed(BAD_KIND, [], |buffer|) {
      assert buffer[6..r.used] == [buffer[6]] + r.data;
      assert buffer[0..4] == buffer[..4];
    }
  }

  lemma IntactInFile(crc: Crc, file: Bytes, a: nat, b: nat, f: Frag, z: nat)
    requires a <= b <= |file| && Intact(crc, file[a..b], f, z)
    ensures Intact(crc, file, f, a + z)
  {
    assert IntactCase(crc, file[a..b], f, z, More);
    var c := z - HEADER - |f.data|;
    SliceOfSlice(file, a, b, c, c + 4);
    SliceOfSlice(file, a, b, c + HEADER, z);
  }

  lemma SliceOfSlice(file: Bytes, a: nat, b: nat, i: nat, j: nat)
    requires a <= b <= |file| && i <= j <= b - a
    ensures file[a..b][i..j] == file[a + i..a + j]
  {
    var l, r := file[a..b][i..j], file[a + i..a + j];
    forall k | 0 <= k < |l| ensures l[k] == r[k] {
      assert l[k] == file[a..b][i + k];
    }
  }

  /** Fragments found one after the other between `from` and `to`. */
  ghost predicate Gathered(crc: Crc, file: Bytes, from: nat, to: nat, got: seq<Frag>, ends: seq<nat>) {
    && |ends| == |got|
    && forall i :: 0 <= i < |got| ==>
         && Intact(crc, file, got[i], ends[i]) && ends[i] <= to
         && (if i == 0 then from else ends[i - 1]) + HEADER + |got[i].data| <= ends[i]
  }

  lemma GatheredMore(crc: Crc, file: Bytes, from: nat, to: nat, got: seq<Frag>, ends: seq<nat>, f: Frag, z: nat)
    requires Gathered(crc, file, from, to, got, ends) && Intact(crc, file, f, z)
    requires from <= to && to + HEADER + |f.data| <= z
    ensures Gathered(crc, file, from, z, got + [f], ends + [z])
  {
    var got', ends' := got + [f], ends + [z];
    forall i | 0 <= i < |got'|
      ensures Intact(crc, file, got'[i], ends'[i]) && ends'[i] <= z
      ensures (if i == 0 then from else ends'[i - 1]) + HEADER + |got'[i].data| <= ends'[i]
    {
      if i < |got| {
        assert got'[i] == got[i] && ends'[i] == ends[i];
      }
      if 0 < i {
        assert ends'[i - 1] == ends[i - 1] && Intact(crc, file, got[i - 1], ends[i - 1]);
      }
    }
  }

  /** One full fragment; or a first one, middles, and, when complete, a last one. */
  ghost predicate InTurn(got: seq<Frag>, complete: bool) {
    forall i :: 0 <= i < |got| ==> got[i].kind == KindOf(i == 0, complete && i == |got| - 1)
  }

  lemma {:induction false} JoinedSnoc(frags: seq<Frag>, f: Frag)
    ensures Joined(frags + [f]) == Joined(frags) + f.data
    decreases |frags|
  {
    if |frags| > 0 {
      assert (frags + [f])[1..] == frags[1..] + [f];
      JoinedSnoc(frags[1..], f);
      Regroup(frags[0].data, Joined(frags[1..]), f.data);
    } else {
      assert frags + [f] == [f] && [f][1..] == [];
      assert f.data + [] == f.data;
    }
  }

  /** A buffer that ends with its block is empty at the block's start or reaches
      all the way. */
  lemma BlockEnd(p: nat, n: nat)
    requires n <= Left(p)
    ensures (p + n) % BLOCK == 0 ==> (n == 0 && p % BLOCK == 0) || n == Left(p)
  {
  }

  lemma EndsWithin(q: nat, n: nat, data: nat)
    requires HEADER <= n <= Left(q) && HEADER + data <= Left(q)
    ensures (q + n) % BLOCK == 0 ==> HEADER + data <= n
  {
    BlockEnd(q, n);
  }

  lemma PrefixOf(file: Bytes, a: nat, b: nat, c: nat)
    requires a <= b <= c <= |file|
    ensures file[a..b] <= file[a..c]
  {
  }

  /** A fragment ends in the block it starts in, after the padding. */
  lemma FragInBlock(p: nat, f: Frag)
    requires Fits(p, f)
    ensures Pad(p) == 0 ==> FragEnd(p, f) <= p + Left(p)
    ensures Pad(p) > 0 ==> (p + Pad(p)) % BLOCK == 0 && FragEnd(p, f) <= p + Pad(p) + BLOCK
  {
  }

  class Reader {
    const crc: Crc
    const file: Bytes
    var buffer: Bytes
    var end: nat
    var eof: bool

    ghost predicate Valid()
      reads this
    {
      && Loads(crc) && |buffer| <= end <= |file| && buffer == file[end - |buffer|..end]
      && |buffer| <= Left(end - |buffer|)
      && (if eof then end == |file| else end % BLOCK == 0)
    }

    ghost function Pos(): nat
      reads this
      requires Valid()
    {
      end - |buffer|
    }

    constructor (crc: Crc, file: Bytes)
      requires Loads(crc)
      ensures Valid() && Pos() == 0 && this.crc == crc && this.file == file
    {
      this.crc, this.file := crc, file;
      buffer, end, eof := [], 0, false;
    }

    /** Read one more block; fewer bytes than a block mean the end of the file. */
    method Load()
      requires Valid() && !eof
      modifies this
      ensures Valid() && Pos() == old(end) && end == (if |file| - old(end) < BLOCK then |file| else old(end) + BLOCK)
      ensures eof <==> |file| - old(end) < BLOCK
    {
      var n := if |file| - end < BLOCK then |file| - end else BLOCK;
      buffer := file[end..end + n];
      end := end + n;
      eof := n < BLOCK;
    }

    /** Get a header's worth of bytes: a shorter rest is a trailer to skip, or the
        end of the file. */
    method Refill() returns (ok: bool)
      requires Valid()
      modifies this
      ensures Valid() && Pos() >= old(Pos())
      ensures ok ==> |buffer| >= HEADER
      ensures ok ==> if old(|buffer|) >= HEADER then Pos() == old(Pos()) else !old(eof) && Pos() == old(end)
      ensures !ok ==> buffer == [] && old(|buffer|) < HEADER && (old(eof) || |file| - old(end) < HEADER)
    {
      while |buffer| < HEADER
        invariant Valid()
        invariant (Pos() == old(Pos()) && end == old(end) && eof == old(eof) && |buffer| == old(|buffer|))
                  || (old(|buffer|) < HEADER && !old(eof) && Pos() == old(end)
                      && (eof ==> |buffer| == |file| - old(end))
                      && (!eof ==> |buffer| == BLOCK))
        decreases if eof then 0 else 1, if |buffer| < HEADER then 1 else 0
      {
        if !eof {
          Load();
        } else {
          ok := false;
          buffer := [];
          return;
        }
      }
      ok := true;
    }

    /** Before the next fragment is looked at, the reader stands where it starts. */
    lemma RefillWhole(f: Frag)
      requires Valid() && Whole(crc, file, Pos(), f)
      ensures if |buffer| >= HEADER then Pad(Pos()) == 0
              else !eof && |file| - end >= HEADER && end == Pos() + Pad(Pos())
    {
      BlockEnd(Pos(), |buffer|);
      FragInBlock(Pos(), f);
    }

    lemma RefillBroken(f: Frag)
      requires Valid() && Broken(crc, file, Pos(), f)
      ensures if |buffer| >= HEADER then Pad(Pos()) == 0 else eof || end == Pos() + Pad(Pos())
    {
      BlockEnd(Pos(), |buffer|);
    }

    lemma WholeInBuffer(p: nat, f: Frag)
      requires Valid() && Whole(crc, file, p, f) && Pos() == p + Pad(p) && |buffer| >= HEADER
      ensures Encode(crc, f) <= buffer && Pos() + HEADER + |f.data| == FragEnd(p, f) <= end
    {
      var q, z := Pos(), FragEnd(p, f);
      EndsWithin(q, |buffer|, |f.data|);
      assert z <= end;
      EncodedAt(p, f, q);
      PrefixOf(file, q, z, end);
    }

    lemma EncodedAt(p: nat, f: Frag, q: nat)
      requires Whole(crc, file, p, f) && q == p + Pad(p)
      ensures file[q..FragEnd(p, f)] == Encode(crc, f)
    {
      var image := FragImage(crc, p, f);
      assert file[q..FragEnd(p, f)] == file[p..FragEnd(p, f)][Pad(p)..];
      assert image[Pad(p)..] == Encode(crc, f);
    }

    lemma BrokenAt(p: nat, f: Frag, q: nat)
      requires Broken(crc, file, p, f) && q == p + Pad(p) <= |file|
      ensures file[q..] == Encode(crc, f)[..|file| - q]
    {
      var image := FragImage(crc, p, f);
      assert image == Zeros(Pad(p)) + Encode(crc, f);
      assert file[q..] == file[p..][Pad(p)..];
      assert image[..|file| - p][Pad(p)..] == Encode(crc, f)[..|file| - q];
    }

    lemma BrokenInBuffer(p: nat, f: Frag)
      requires Valid() && Broken(crc, file, p, f) && Pos() == p + Pad(p) && |buffer| >= HEADER
      ensures end == |file| && |buffer| < HEADER + |f.data| && buffer == Encode(crc, f)[..|buffer|]
    {
      EndsWithin(Pos(), |buffer|, |f.data|);
      BrokenAt(p, f, Pos());
      assert file[Pos()..end] == file[Pos()..];
    }

    lemma ZeroInBuffer(p: nat)
      requires Valid() && ZeroFrom(file, p) && p <= Pos() && |buffer| >= HEADER
      ensures Parse(crc, buffer) == Parsed(BAD_KIND, [], |buffer|)
    {
      assert forall i :: 0 <= i < |buffer| ==> buffer[i] == file[Pos() + i];
    }

    /** Use up the front of the buffer. */
    method Consume(n: nat)
      requires Valid() && n <= |buffer|
      modifies this`buffer
      ensures Valid() && Pos() == old(Pos()) + n
    {
      LeftShrinks(Pos(), |buffer|, n);
      buffer := buffer[n..];
    }

    /** Take the fragment at the front of the buffer, or all of the buffer if it is bad. */
    method Take() returns (kind: nat, data: Bytes)
      requires Valid() && |buffer| >= HEADER
      modifies this`buffer
      ensures Valid() && Pos() == old(Pos()) + old(Parse(crc, buffer).used)
      ensures kind == old(Parse(crc, buffer).kind) && data == old(Parse(crc, buffer).data)
      ensures kind != BAD_KIND ==>
                && kind < 256 && Intact(crc, file, Frag(kind as byte, data), Pos())
                && Pos() == old(Pos()) + HEADER + |data|
    {
      var parsed := Parse(crc, buffer);
      ParseChecks(crc, buffer);
      if parsed != Parsed(BAD_KIND, [], |buffer|) {
        IntactInFile(crc, file, Pos(), end, Frag(parsed.kind as byte, parsed.data), parsed.used);
      }
      Consume(parsed.used);
      kind, data := parsed.kind, parsed.data;
    }

    /** ReadPhysicalRecord: a whole fragment comes back as written; where none is left, what comes
        back is bad or the end; and on any file what comes back otherwise is there, with a
        checksum that matches. */
    method ReadPhysicalRecord(ghost f: Option<Frag>) returns (kind: nat, data: Bytes)
      requires Valid() && (f.Some? ==> Whole(crc, file, Pos(), f.value))
      modifies this
      ensures Valid() && Pos() >= old(Pos()) && (kind != EOF_KIND ==> Pos() > old(Pos()))
      ensures f.Some? ==> kind == f.value.kind && data == f.value.data && Pos() == FragEnd(old(Pos()), f.value)
      ensures f.None? && old(Nothing(crc, file, Pos())) ==>
                kind == EOF_KIND || (kind == BAD_KIND && Nothing(crc, file, Pos()))
      ensures kind != EOF_KIND && kind != BAD_KIND ==>
                && kind < 256 && Intact(crc, file, Frag(kind as byte, data), Pos())
                && Pos() >= old(Pos()) + HEADER + |data|
    {
      ghost var p := Pos();
      if f.Some? {
        RefillWhole(f.value);
      }
      ghost var broken := f.None? && !ZeroFrom(file, p) && Nothing(crc, file, p);
      ghost var g := Frag(FULL, []);
      if broken {
        g :| Broken(crc, file, p, g);
        RefillBroken(g);
      }
      var ok := Refill();
      if !ok {
        return EOF_KIND, [];
      }
      if f.Some? {
        WholeInBuffer(p, f.value);
        ParseWhole(crc, f.value, buffer);
      } else if broken {
        BrokenInBuffer(p, g);
        ParseBroken(crc, g, buffer);
      } else if ZeroFrom(file, p) {
        ZeroInBuffer(p);
      }
      kind, data := Take();
    }

    /** What is left of the record being read: more of its fragments, or nothing
        because the file ends before the record does. */
    ghost predicate MidCase(todo: seq<Frag>, begin: bool, rest: Bytes, stop: nat, c: Case)
      requires Valid()
      reads this
    {
      match c
      case More => |todo| > 0 ==>
        Coming(crc, file, Pos(), todo, begin, rest) && stop == Pos() + |Laid(FragForm(crc), Pos(), todo)|
      case Over => |todo| == 0 ==> Nothing(crc, file, Pos()) && stop > |file|
    }

    ghost predicate Mid(todo: seq<Frag>, begin: bool, rest: Bytes, stop: nat)
      requires Valid()
      reads this
    {
      forall c: Case :: MidCase(todo, begin, rest, stop, c)
    }

    /** The next fragment of the record being read, if it is all there. */
    method NextFragment(ghost known: bool, ghost todo: seq<Frag>, ghost begin: bool, ghost rest: Bytes, ghost stop: nat)
      returns (kind: nat, data: Bytes, ghost whole: bool)
      requires Valid() && (known ==> Mid(todo, begin, rest, stop))
      modifies this
      ensures Valid() && Pos() >= old(Pos()) && (kind != EOF_KIND ==> Pos() > old(Pos()))
      ensures kind != EOF_KIND && kind != BAD_KIND ==>
                && kind < 256 && Intact(crc, file, Frag(kind as byte, data), Pos())
                && Pos() >= old(Pos()) + HEADER + |data|
      ensures whole ==> known && |todo| > 0
      ensures whole ==> kind == todo[0].kind == KindOf(begin, |todo| == 1) && data == todo[0].data
      ensures whole && |todo| > 1 ==> Mid(todo[1..], false, rest, stop)
      ensures whole && |todo| == 1 ==> Pos() == stop <= |file| && Tail(file, stop, rest)
      ensures known && !whole ==> stop > |file| && (kind == EOF_KIND || (kind == BAD_KIND && Mid([], true, rest, stop)))
    {
      assert known ==> MidCase(todo, begin, rest, stop, More) && MidCase(todo, begin, rest, stop, Over);
      whole := false;
      if known && |todo| > 0 {
        ComingStep(crc, file, Pos(), todo, begin, rest);
        whole := FragEnd(Pos(), todo[0]) <= |file|;
      }
      kind, data := ReadPhysicalRecord(if whole then Some(todo[0]) else None);
      if whole && |todo| == 1 {
        assert todo[1..] == [];
        assert [] + rest == rest;
      }
    }

    /** ReadRecord.  When the record that stands here is all in the file it comes back whole, however
        it was cut, and no fragment is reported; when it is cut off, nothing comes back.  And on
        any file at all, a record that comes back is made of fragments in turn that are there,
        each with a checksum that matches. */
    method ReadRecord(ghost known: bool, ghost frags: seq<Frag>, ghost rest: Bytes, ghost stop: nat)
      returns (r: Option<Bytes>, reports: seq<Report>, ghost got: seq<Frag>, ghost ends: seq<nat>,
               ghost seen: seq<Seen>)
      requires Valid() && (known ==> Mid(frags, true, rest, stop))
      modifies this
      ensures Valid() && Pos() >= old(Pos()) && (r.Some? ==> Pos() > old(Pos()))
      ensures known && stop <= |file| ==>
                r == Some(Joined(frags)) && Pos() == stop && Tail(file, stop, rest) && reports == []
      ensures known && stop > |file| ==> r == None
      ensures r.Some? ==> IsRead(crc, file, old(Pos()), Pos(), got, ends, r.value)
      ensures reports == ReportsOf(seen) + (if r.None? then Unfinished(seen) else [])
    {
      var scratch: Bytes, inFragment := [], false;
      reports, got, ends, seen := [], [], [], [];
      ghost var todo := frags;
      while true
        invariant Valid() && Pos() >= old(Pos()) && (known ==> Mid(todo, !inFragment, rest, stop))
        invariant known && stop <= |file| ==> reports == []
        invariant known && |todo| > 0 ==>
                    Joined(frags) == scratch + Joined(todo) && (!inFragment ==> scratch == [])
        invariant inFragment ==> IsOpen(scratch, got) && Gathered(crc, file, old(Pos()), Pos(), got, ends)
        invariant reports == ReportsOf(seen) && Gathering(seen) == (scratch, inFragment)
        decreases |file| - Pos()
      {
        var kind, data;
        ghost var whole, p := false, Pos();
        kind, data, whole := NextFragment(known, todo, !inFragment, rest, stop);
        if kind == EOF_KIND {
          if inFragment {
            reports := reports + [Report(|scratch|, WithoutEnd)];
          }
          return None, reports, got, ends, seen;
        }
        if whole {
          JoinedStep(todo, scratch);
        }
        got, ends := Gather(crc, file, old(Pos()), p, Pos(), got, ends, scratch, inFragment, kind, data);
        var more;
        ReportsStep(seen, Seen(kind, data));
        seen := seen + [Seen(kind, data)];
        scratch, inFragment, r, more := HandleFragment(kind, data, scratch, inFragment);
        reports := reports + more;
        if r.Some? {
          return;
        }
        todo := if whole then todo[1..] else [];
      }
    }
  }

  /** A fragment as it was read, bad ones included. */
  datatype Seen = Seen(kind: nat, data: Bytes)

  /** The bytes gathered after the fragments seen, and whether a record is open. */
  function Gathering(seen: seq<Seen>): (Bytes, bool)
    decreases |seen|
  {
    if |seen| == 0 then ([], false)
    else
      var before, last := Gathering(seen[..|seen| - 1]), seen[|seen| - 1];
      if last.kind == FIRST as nat then (last.data, true)
      else if last.kind == MIDDLE as nat then (if before.1 then before.0 + last.data else before.0, before.1)
      else if last.kind == LAST as nat && !before.1 then before
      else ([], false)
  }

  /** Each fragment is reported for what it cuts off, or for coming out of turn. */
  function ReportsOf(seen: seq<Seen>): seq<Report>
    decreases |seen|
  {
    if |seen| == 0 then []
    else
      var front, last := seen[..|seen| - 1], seen[|seen| - 1];
      ReportsOf(front) + Complaint(last.kind, last.data, Gathering(front).0, Gathering(front).1)
  }

  /** And a record that is still open at the end. */
  function Unfinished(seen: seq<Seen>): seq<Report> {
    if Gathering(seen).1 then [Report(|Gathering(seen).0|, WithoutEnd)] else []
  }

  lemma ReportsStep(seen: seq<Seen>, s: Seen)
    ensures ReportsOf(seen + [s])
         == ReportsOf(seen) + Complaint(s.kind, s.data, Gathering(seen).0, Gathering(seen).1)
    ensures var before, after := Gathering(seen), Gathering(seen + [s]);
            after == if s.kind == FIRST as nat then (s.data, true)
                     else if s.kind == MIDDLE as nat
                     then (if before.1 then before.0 + s.data else before.0, before.1)
                     else if s.kind == LAST as nat && !before.1 then before
                     else ([], false)
  {
    assert (seen + [s])[..|seen|] == seen;
  }

  /** The record is made of the fragments, which are in turn and between `from` and `to`. */
  ghost predicate IsRead(crc: Crc, file: Bytes, from: nat, to: nat, got: seq<Frag>, ends: seq<nat>, r: Bytes) {
    |got| > 0 && InTurn(got, true) && Gathered(crc, file, from, to, got, ends) && r == Joined(got)
  }

  /** What has been gathered of a record so far. */
  ghost predicate IsOpen(scratch: Bytes, got: seq<Frag>) {
    |got| > 0 && InTurn(got, false) && scratch == Joined(got)
  }

  /** The fragments gathered after one more of them. */
  lemma Gather(crc: Crc, file: Bytes, from: nat, p: nat, q: nat, got: seq<Frag>, ends: seq<nat>, scratch: Bytes,
               inFragment: bool, kind: nat, data: Bytes)
    returns (got': seq<Frag>, ends': seq<nat>)
    requires from <= p <= q && kind != EOF_KIND
    requires inFragment ==> IsOpen(scratch, got) && Gathered(crc, file, from, p, got, ends)
    requires kind != BAD_KIND ==>
               kind < 256 && Intact(crc, file, Frag(kind as byte, data), q) && q >= p + HEADER + |data|
    ensures kind == FULL as nat || (kind == LAST as nat && inFragment) ==>
              && |got'| > 0 && InTurn(got', true) && Gathered(crc, file, from, q, got', ends')
              && Joined(got') == if kind == FULL as nat then data else scratch + data
    ensures kind == FIRST as nat ==> IsOpen(data, got') && Gathered(crc, file, from, q, got', ends')
    ensures kind == MIDDLE as nat && inFragment ==>
              IsOpen(scratch + data, got') && Gathered(crc, file, from, q, got', ends')
  {
    got', ends' := got, ends;
    if kind == FULL as nat || kind == FIRST as nat {
      got', ends' := [Frag(kind as byte, data)], [q];
      JoinedSnoc([], Frag(kind as byte, data));
      assert [] + got' == got' && [] + data == data;
      GatheredMore(crc, file, from, p, [], [], got'[0], q);
      assert [] + ends' == ends';
    } else if (kind == MIDDLE as nat || kind == LAST as nat) && inFragment {
      got', ends' := got + [Frag(kind as byte, data)], ends + [q];
      JoinedSnoc(got, Frag(kind as byte, data));
      GatheredMore(crc, file, from, p, got, ends, Frag(kind as byte, data), q);
    }
  }

  datatype Case = More | Over

  lemma JoinedStep(todo: seq<Frag>, scratch: Bytes)
    requires |todo| > 0
    ensures |todo| == 1 ==> Joined(todo) == todo[0].data
    ensures scratch + Joined(todo) == scratch + todo[0].data + Joined(todo[1..])
    ensures scratch == [] ==> scratch + Joined(todo) == todo[0].data + Joined(todo[1..])
  {
    if |todo| == 1 {
      assert todo[1..] == [];
      assert Joined(todo[1..]) == [];
    }
    Regroup(scratch, todo[0].data, Joined(todo[1..]));
  }

  datatype Reason =
    | WithoutEnd
    | MissingStart
    | ErrorInMiddle
    | UnknownType(kind: nat)

  /** What the reporter is told: how many bytes were dropped, and why. */
  datatype Report = Report(bytes: nat, reason: Reason)

  /** The reports for a fragment: what it cuts off, or that it comes out of turn. */
  function Complaint(kind: nat, data: Bytes, scratch: Bytes, inFragment: bool): seq<Report> {
    if kind == FULL as nat || kind == FIRST as nat then
      if inFragment && scratch != [] then [Report(|scratch|, WithoutEnd)] else []
    else if kind == MIDDLE as nat || kind == LAST as nat then
      if inFragment then [] else [Report(|data|, MissingStart)]
    else if kind == BAD_KIND then
      if inFragment then [Report(|scratch|, ErrorInMiddle)] else []
    else
      [Report(|data| + (if inFragment then |scratch| else 0), UnknownType(kind))]
  }

  /** The switch of ReadRecord: what a fragment does to the record being gathered. */
  method HandleFragment(kind: nat, data: Bytes, scratch: Bytes, inFragment: bool)
    returns (scratch': Bytes, inFragment': bool, r: Option<Bytes>, reports: seq<Report>)
    ensures reports == Complaint(kind, data, scratch, inFragment)
    ensures kind == FULL ==> r == Some(data)
    ensures kind == FIRST ==> r == None && scratch' == data && inFragment'
    ensures kind == MIDDLE ==>
              r == None && inFragment' == inFragment && scratch' == (if inFragment then scratch + data else scratch)
    ensures kind == LAST ==>
              if inFragment then r == Some(scratch + data) else r == None && scratch' == scratch && !inFragment'
    ensures !(FULL as int <= kind <= LAST as int) ==> r == None && scratch' == [] && !inFragment'
  {
    scratch', inFragment', r, reports := scratch, inFragment, None, [];
    if kind == FULL as nat {
      if inFragment && |scratch| > 0 {
        reports := [Report(|scratch|, WithoutEnd)];
      }
      r := Some(data);
    } else if kind == FIRST as nat {
      if inFragment && |scratch| > 0 {
        reports := [Report(|scratch|, WithoutEnd)];
      }
      scratch', inFragment' := data, true;
    } else if kind == MIDDLE as nat {
      if !inFragment {
        reports := [Report(|data|, MissingStart)];
      } else {
        scratch' := scratch + data;
      }
    } else if kind == LAST as nat {
      if !inFragment {
        reports := [Report(|data|, MissingStart)];
      } else {
        scratch' := scratch + data;
        r := Some(scratch');
      }
    } else if kind == BAD_KIND {
      if inFragment {
        reports := [Report(|scratch|, ErrorInMiddle)];
      }
      scratch', inFragment' := [], false;
    } else {
      reports := [Report(|data| + (if inFragment then |scratch| else 0), UnknownType(kind))];
      scratch', inFragment' := [], false;
    }
  }

  lemma LeftShrinks(p: nat, n: nat, used: nat)
    requires used <= n <= Left(p)
    ensures n - used <= Left(p + used)
  {
  }

  // ----- Whole records -----

  /** From `p` on, the file is a prefix of `image`, or all of it and then zeros. */
  ghost predicate Tail(file: Bytes, p: nat, image: Bytes) {
    p <= |file| && (file[p..] <= image || (image <= file[p..] && ZeroFrom(file, p + |image|)))
  }

  lemma TailFrag(crc: Crc, file: Bytes, p: nat, f: Frag, more: Bytes)
    requires Fits(p, f) && Tail(file, p, FragImage(crc, p, f) + more)
    ensures if FragEnd(p, f) <= |file| then Whole(crc, file, p, f) && Tail(file, FragEnd(p, f), more)
            else Broken(crc, file, p, f)
  {
    var image, z := FragImage(crc, p, f), FragEnd(p, f);
    var all := image + more;
    assert forall i :: 0 <= i < |all| && p + i < |file| ==> file[p + i] == all[i] by {
      assert forall i :: 0 <= i < |file| - p ==> file[p..][i] == file[p + i];
    }
    if z <= |file| {
      assert forall i :: 0 <= i < |more| ==> all[|image| + i] == more[i];
      assert file[p..z] == image;
      assert |file| - p <= |all| ==> file[z..] <= more;
      assert |file| - p >= |all| ==> more <= file[z..];
    } else {
      assert file[p..] == image[..|file| - p];
    }
  }

  /** The fragments still to come of the record being read. */
  ghost predicate Coming(crc: Crc, file: Bytes, p: nat, todo: seq<Frag>, begin: bool, rest: Bytes) {
    && Shaped(todo, begin) && FitAll(p, todo)
    && Tail(file, p, Laid(FragForm(crc), p, todo) + rest)
  }

  lemma ComingStep(crc: Crc, file: Bytes, p: nat, todo: seq<Frag>, begin: bool, rest: Bytes)
    requires Coming(crc, file, p, todo, begin, rest)
    ensures var f := todo[0];
            && p + |Laid(FragForm(crc), p, todo)| == FragEnd(p, f) + |Laid(FragForm(crc), FragEnd(p, f), todo[1..])|
            && if FragEnd(p, f) <= |file|
               then Whole(crc, file, p, f)
                    && Tail(file, FragEnd(p, f), Laid(FragForm(crc), FragEnd(p, f), todo[1..]) + rest)
               else Broken(crc, file, p, f)
  {
    var f, later := todo[0], todo[1..];
    var tail := Laid(FragForm(crc), FragEnd(p, f), later);
    assert todo == [f] + later;
    LaidFirst(FragForm(crc), p, f, later);
    FragFormIs(crc, p, f);
    Regroup(FragImage(crc, p, f), tail, rest);
    TailFrag(crc, file, p, f, tail + rest);
  }

  /** The fragments of one record. */
  lemma RecordParts(crc: Crc, p: nat, r: Bytes) returns (frags: seq<Frag>)
    ensures |frags| > 0 && Joined(frags) == r && Shaped(frags, true) && FitAll(p, frags)
    ensures Laid(FragForm(crc), p, frags) == RecordImage(crc, p, r)
  {
    frags := Split(p, r, true);
    SplitJoins(p, r, true);
  }

  lemma TailFirst<T>(form: Form<T>, file: Bytes, p: nat, items: seq<T>)
    requires Tail(file, p, Laid(form, p, items)) && |items| > 0
    ensures Tail(file, p, form(p, items[0]) + Laid(form, p + |form(p, items[0])|, items[1..]))
  {
    assert items == [items[0]] + items[1..];
    LaidFirst(form, p, items[0], items[1..]);
  }

  lemma TailNone<T>(form: Form<T>, crc: Crc, file: Bytes, p: nat)
    requires Tail(file, p, Laid(form, p, []))
    ensures Nothing(crc, file, p)
  {
    assert file[p..] <= [] ==> p == |file|;
  }

  /** `form` is the form of records in a log. */
  ghost predicate IsFormCase(crc: Crc, form: Form<Bytes>, c: Case) {
    c.More? ==> form == RecordForm(crc)
  }

  ghost predicate IsForm(crc: Crc, form: Form<Bytes>) {
    forall c: Case :: IsFormCase(crc, form, c)
  }

  lemma RecordFormIsForm(crc: Crc)
    ensures IsForm(crc, RecordForm(crc))
  {
  }

  lemma FormIs(crc: Crc, form: Form<Bytes>, p: nat, data: Bytes)
    requires IsForm(crc, form)
    ensures form(p, data) == RecordImage(crc, p, data)
  {
    assert IsFormCase(crc, form, More);
  }

  /** The reader is about to read `records`, as far as the file goes. */
  ghost predicate About(reader: Reader, form: Form<Bytes>, records: seq<Bytes>)
    reads reader
  {
    && reader.Valid() && IsForm(reader.crc, form)
    && Tail(reader.file, reader.Pos(), Laid(form, reader.Pos(), records))
  }

  lemma AheadParts(reader: Reader, form: Form<Bytes>, records: seq<Bytes>) returns (frags: seq<Frag>)
    requires About(reader, form, records) && |records| > 0
    ensures |frags| > 0 && Joined(frags) == records[0] && Shaped(frags, true) && FitAll(reader.Pos(), frags)
    ensures Laid(FragForm(reader.crc), reader.Pos(), frags) == form(reader.Pos(), records[0])
  {
    frags := RecordParts(reader.crc, reader.Pos(), records[0]);
    FormIs(reader.crc, form, reader.Pos(), records[0]);
  }

  /** What the next ReadRecord will find. */
  lemma Ahead(reader: Reader, form: Form<Bytes>, records: seq<Bytes>) returns (frags: seq<Frag>, rest: Bytes, stop: nat)
    requires About(reader, form, records)
    ensures reader.Mid(frags, true, rest, stop)
    ensures |records| == 0 ==> stop > |reader.file|
    ensures |records| > 0 ==>
              && Joined(frags) == records[0]
              && stop == reader.Pos() + |form(reader.Pos(), records[0])|
              && rest == Laid(form, stop, records[1..])
  {
    var p := reader.Pos();
    frags, rest, stop := [], [], |reader.file| + 1;
    if |records| == 0 {
      TailNone(form, reader.crc, reader.file, p);
    } else {
      frags := AheadParts(reader, form, records);
      TailFirst(form, reader.file, p, records);
      stop := p + |form(p, records[0])|;
      rest := Laid(form, stop, records[1..]);
    }
    assert reader.MidCase(frags, true, rest, stop, More) && reader.MidCase(frags, true, rest, stop, Over);
  }

  lemma InsideStep<T>(form: Form<T>, p: nat, items: seq<T>, n: nat)
    requires p <= n
    ensures if |items| > 0 && p + |form(p, items[0])| <= n
            then Inside(form, p, items, n - p)
                 == 1 + Inside(form, p + |form(p, items[0])|, items[1..], n - (p + |form(p, items[0])|))
            else Inside(form, p, items, n - p) == 0
  {
  }

  /** The records still to come that are wholly in the file. */
  ghost function ToCome(reader: Reader, form: Form<Bytes>, records: seq<Bytes>): (k: nat)
    requires reader.Valid()
    reads reader
    ensures k <= |records|
  {
    Inside(form, reader.Pos(), records, |reader.file| - reader.Pos())
  }

  /** One call of ReadRecord, in terms of whole records. */
  method ReadNext(reader: Reader, ghost form: Form<Bytes>, ghost records: seq<Bytes>) returns (r: Option<Bytes>)
    requires About(reader, form, records)
    modifies reader
    ensures reader.Valid() && (r.Some? <==> old(ToCome(reader, form, records)) > 0)
    ensures r.Some? ==> && |records| > 0 && r.value == records[0] && About(reader, form, records[1..])
                        && old(ToCome(reader, form, records)) == 1 + ToCome(reader, form, records[1..])
  {
    ghost var frags, rest, stop := Ahead(reader, form, records);
    InsideStep(form, reader.Pos(), records, |reader.file|);
    var reports;
    ghost var got, ends, seen;
    r, reports, got, ends, seen := reader.ReadRecord(true, frags, rest, stop);
  }

  method ReadRest(reader: Reader, ghost form: Form<Bytes>, ghost records: seq<Bytes>) returns (rs: seq<Bytes>)
    requires About(reader, form, records)
    modifies reader
    ensures rs == records[..old(ToCome(reader, form, records))]
  {
    rs := [];
    ghost var todo, total := records, ToCome(reader, form, records);
    while true
      invariant About(reader, form, todo) && records == rs + todo
      invariant total == |rs| + ToCome(reader, form, todo)
      decreases |todo|
    {
      var r := ReadNext(reader, form, todo);
      if r.None? {
        assert records[..|rs|] == rs;
        return;
      }
      MoveOne(rs, todo);
      rs := rs + [r.value];
      todo := todo[1..];
    }
  }

  lemma MoveOne<T>(a: seq<T>, b: seq<T>)
    requires |b| > 0
    ensures a + b == a + [b[0]] + b[1..]
  {
  }

  /** Reading a file back.  Whatever prefix of the written log the file is, the
      records that come back are exactly those that lie wholly in it; and zeros
      after a complete log add none. */
  method ReadAll(crc: Crc, file: Bytes, ghost form: Form<Bytes>, ghost records: seq<Bytes>) returns (rs: seq<Bytes>)
    requires Loads(crc) && IsForm(crc, form) && Tail(file, 0, Laid(form, 0, records))
    ensures rs == records[..Inside(form, 0, records, |file|)]
  {
    var reader := new Reader(crc, file);
    rs := ReadRest(reader, form, records);
  }

  lemma {:induction false} AllInside<T>(form: Form<T>, p: nat, items: seq<T>, n: nat)
    requires |Laid(form, p, items)| <= n
    ensures Inside(form, p, items, n) == |items|
    decreases |items|
  {
    if |items| > 0 {
      var head := form(p, items[0]);
      AllInside(form, p + |head|, items[1..], n - |head|);
    }
  }

  lemma ZerosAfter(image: Bytes, n: nat)
    ensures Tail(image + Zeros(n), 0, image)
  {
    var file := image + Zeros(n);
    assert file[0..] == file;
    assert forall i :: |image| <= i < |file| ==> file[i] == 0;
  }

  /** The first `cut` bytes, or all there are. */
  predicate IsCut(log: Bytes, cut: nat, file: Bytes) {
    file <= log && |file| <= cut && (|file| < cut ==> file == log)
  }

  method WriteAll(crc: Crc, ghost form: Form<Bytes>, records: seq<Bytes>) returns (file: Bytes)
    requires IsForm(crc, form)
    ensures file == Laid(form, 0, records)
  {
    var w := new Writer(crc);
    for i := 0 to |records|
      invariant fresh(w) && w.Valid() && w.crc == crc && w.dest == Laid(form, 0, records[..i])
    {
      assert records[..i + 1] == records[..i] + [records[i]];
      LaidAppend(form, 0, records[..i], records[i]);
      FormIs(crc, form, |w.dest|, records[i]);
      w.AddRecord(records[i]);
    }
    assert records[..|records|] == records;
    file := w.dest;
  }

  method ReadWritten(crc: Crc, ghost form: Form<Bytes>, records: seq<Bytes>, zeros: nat)
    returns (file: Bytes, rs: seq<Bytes>)
    requires Loads(crc) && IsForm(crc, form)
    ensures file == Laid(form, 0, records) + Zeros(zeros) && rs == records
  {
    var log := WriteAll(crc, form, records);
    file := log + Zeros(zeros);
    ZerosAfter(log, zeros);
    AllInside(form, 0, records, |file|);
    rs := ReadAll(crc, file, form, records);
  }

  method ReadWrittenPrefix(crc: Crc, ghost form: Form<Bytes>, records: seq<Bytes>, cut: nat)
    returns (file: Bytes, rs: seq<Bytes>)
    requires Loads(crc) && IsForm(crc, form)
    ensures IsCut(Laid(form, 0, records), cut, file)
    ensures rs <= records && |Laid(form, 0, rs)| <= cut
    ensures |rs| < |records| ==> |Laid(form, 0, records[..|rs| + 1])| > cut
  {
    var log := WriteAll(crc, form, records);
    var n := if cut < |log| then cut else |log|;
    file := log[..n];
    assert file[0..] <= log;
    rs := ReadAll(crc, file, form, records);
    InsideIsLargest(form, 0, records, n);
    if |rs| < |records| {
      CutIsBefore(form, records, n);
    }
  }

  /** Writing any records, with masked checksums, and reading the file back, with any run
      of zeros after it, gives exactly those records. */
  method WriteThenRead(value: Bytes -> Word, records: seq<Bytes>, zeros: nat) returns (file: Bytes, rs: seq<Bytes>)
    ensures file == Laid(RecordForm(Masked(value)), 0, records) + Zeros(zeros) && rs == records
  {
    MaskedLoads(value);
    RecordFormIsForm(Masked(value));
    file, rs := ReadWritten(Masked(value), RecordForm(Masked(value)), records, zeros);
  }

  /** Cutting the file anywhere loses exactly the records that reach past the cut. */
  method WriteThenReadPrefix(value: Bytes -> Word, records: seq<Bytes>, cut: nat)
    returns (file: Bytes, rs: seq<Bytes>)
    ensures IsCut(Laid(RecordForm(Masked(value)), 0, records), cut, file)
    ensures rs <= records && |Laid(RecordForm(Masked(value)), 0, rs)| <= cut
    ensures |rs| < |records| ==> |Laid(RecordForm(Masked(value)), 0, records[..|rs| + 1])| > cut
  {
    MaskedLoads(value);
    RecordFormIsForm(Masked(value));
    file, rs := ReadWrittenPrefix(Masked(value), RecordForm(Masked(value)), records, cut);
  }

  /** Reading any file at all: every record that comes back is made of fragments in turn that are in
      the file, each with a checksum that matches, and no two records share a byte. */
  method ReadAnyFile(crc: Crc, file: Bytes)
    returns (rs: seq<Bytes>, ghost got: seq<seq<Frag>>, ghost ends: seq<seq<nat>>, ghost at: seq<nat>)
    requires Loads(crc)
    ensures |got| == |ends| == |rs| && |at| == |rs| + 1
    ensures forall k :: 0 <= k < |rs| ==> IsRead(crc, file, at[k], at[k + 1], got[k], ends[k], rs[k])
  {
    var reader := new Reader(crc, file);
    rs, got, ends, at := [], [], [], [0];
    while true
      invariant fresh(reader) && reader.Valid() && reader.crc == crc && reader.file == file
      invariant |got| == |ends| == |rs| && |at| == |rs| + 1 && at[|rs|] == reader.Pos()
      invariant forall k :: 0 <= k < |rs| ==> IsRead(crc, file, at[k], at[k + 1], got[k], ends[k], rs[k])
      decreases |file| - reader.Pos()
    {
      var r, reports;
      ghost var frags, where, seen;
      r, reports, frags, where, seen := reader.ReadRecord(false, [], [], 0);
      if r.None? {
        return;
      }
      rs, got, ends, at := rs + [r.value], got + [frags], ends + [where], at + [reader.Pos()];
    }
  }

  /** A whole record that stands at the reader, whatever follows it. */
  lemma NextWhole(reader: Reader, form: Form<Bytes>, data: Bytes) returns (frags: seq<Frag>, rest: Bytes, stop: nat)
    requires reader.Valid() && IsForm(reader.crc, form) && form(reader.Pos(), data) <= reader.file[reader.Pos()..]
    ensures reader.Mid(frags, true, rest, stop) && Joined(frags) == data
    ensures stop == reader.Pos() + |form(reader.Pos(), data)| <= |reader.file|
  {
    var p := reader.Pos();
    FormIs(reader.crc, form, p, data);
    frags := RecordParts(reader.crc, p, data);
    stop := p + |form(p, data)|;
    rest := reader.file[stop..];
    assert reader.file[p..] == form(p, data) + rest;
    assert reader.MidCase(frags, true, rest, stop, More) && reader.MidCase(frags, true, rest, stop, Over);
  }

  /** The first calls of ReadRecord give the records the file starts with. */
  method ReadFirst(crc: Crc, file: Bytes, n: nat, ghost form: Form<Bytes>, ghost records: seq<Bytes>)
    returns (rs: seq<Bytes>)
    requires Loads(crc) && IsForm(crc, form) && Laid(form, 0, records) <= file && n == |records|
    ensures rs == records
  {
    var reader := new Reader(crc, file);
    rs := [];
    for i := 0 to n
      invariant fresh(reader) && reader.Valid() && reader.crc == crc && reader.file == file
      invariant rs == records[..i] && reader.Pos() == |Laid(form, 0, records[..i])|
    {
      LaidStep(form, records, i, file);
      ghost var frags, rest, stop := NextWhole(reader, form, records[i]);
      var r, reports, got, ends, seen := reader.ReadRecord(true, frags, rest, stop);
      rs := rs + [r.value];
    }
  }

  lemma LaidStep(form: Form<Bytes>, records: seq<Bytes>, i: nat, file: Bytes)
    requires i < |records| && Laid(form, 0, records) <= file
    ensures var p := |Laid(form, 0, records[..i])|;
            && p <= |file| && form(p, records[i]) <= file[p..]
            && |Laid(form, 0, records[..i + 1])| == p + |form(p, records[i])|
            && records[..i + 1] == records[..i] + [records[i]]
  {
    var p := |Laid(form, 0, records[..i])|;
    assert records[..i + 1] == records[..i] + [records[i]];
    LaidAppend(form, 0, records[..i], records[i]);
    LaidPrefix(form, records, i + 1);
    assert file[p..][..|form(p, records[i])|] == form(p, records[i]);
  }

  lemma {:induction false} LaidPrefix(form: Form<Bytes>, records: seq<Bytes>, i: nat)
    requires i <= |records|
    ensures Laid(form, 0, records[..i]) <= Laid(form, 0, records)
    decreases |records| - i
  {
    if i < |records| {
      assert records[..i + 1] == records[..i] + [records[i]];
      LaidAppend(form, 0, records[..i], records[i]);
      LaidPrefix(form, records, i + 1);
    } else {
      assert records[..i] == records;
    }
  }

  /** A log cut anywhere and followed by any bytes, zeros among them: the records inside
      the cut still come first. */
  method WriteThenReadDamaged(value: Bytes -> Word, records: seq<Bytes>, cut: nat, after: Bytes, n: nat)
    returns (file: Bytes, ghost kept: Bytes, rs: seq<Bytes>)
    requires n <= |records| && |Laid(RecordForm(Masked(value)), 0, records[..n])| <= cut
    ensures IsCut(Laid(RecordForm(Masked(value)), 0, records), cut, kept) && file == kept + after
    ensures rs == records[..n]
  {
    ghost var form := RecordForm(Masked(value));
    MaskedLoads(value);
    RecordFormIsForm(Masked(value));
    var log := WriteAll(Masked(value), form, records);
    LaidPrefix(form, records, n);
    file := log[..if cut < |log| then cut else |log|] + after;
    kept := log[..if cut < |log| then cut else |log|];
    rs := ReadFirst(Masked(value), file, n, form, records[..n]);
  }

  /** Below the whole log's length, some record is cut. */
  lemma CutIsBefore(form: Form<Bytes>, records: seq<Bytes>, n: nat)
    requires Inside(form, 0, records, n) < |records|
    ensures n < |Laid(form, 0, records)|
  {
    if n >= |Laid(form, 0, records)| {
      AllInside(form, 0, records, n);
    }
  }
}
