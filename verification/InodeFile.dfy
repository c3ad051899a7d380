/** One regular file of TableFS, inline or on disk. */
module InodeFile {
  // Its bytes follow the inode header and the name while they fit a threshold, and
  // lie in a disk file named by the inode beyond it.

  import opened Entries
  import opened Coding

  /** The fields of the inode header that tell where the bytes are. */
  datatype Header = Header(size: nat, hasBlob: bool, namelen: nat)

  /** An inode value: the header, then everything after it. */
  datatype Inode = Inode(header: Header, tail: Bytes)

  // ----- A file as a plain byte sequence -----

  function Zeros(n: nat): (r: Bytes)
    ensures |r| == n
  {
    seq(n, _ => 0)
  }

  function Resized(c: Bytes, n: nat): (r: Bytes)
    ensures |r| == n
  {
    if n <= |c| then c[..n] else c + Zeros(n - |c|)
  }

  /** std::string resize and replace: grow to the offset, then replace as many bytes as there are. */
  function Overwrite(c: Bytes, offset: nat, buf: Bytes): (r: Bytes)
    ensures |r| == if offset + |buf| > |c| then offset + |buf| else |c|
  {
    var d := if offset > |c| then Resized(c, offset) else c;
    d[..offset] + buf + (if offset + |buf| < |d| then d[offset + |buf|..] else [])
  }

  /** pwrite: an empty write does nothing at all. */
  function Written(c: Bytes, offset: nat, buf: Bytes): Bytes {
    if buf == [] then c else Overwrite(c, offset, buf)
  }

  function Slice(c: Bytes, offset: nat, size: nat): Bytes {
    if offset >= |c| then [] else if offset + size > |c| then c[offset..] else c[offset..offset + size]
  }

  /** Byte by byte: the buffer where it goes, the old bytes elsewhere, zeros in a hole. */
  lemma OverwriteAt(c: Bytes, offset: nat, buf: Bytes, i: nat)
    requires i < |Overwrite(c, offset, buf)|
    ensures Overwrite(c, offset, buf)[i]
         == if offset <= i < offset + |buf| then buf[i - offset] else if i < |c| then c[i] else 0
  {
    var d := if offset > |c| then Resized(c, offset) else c;
    if i < offset {
      assert Overwrite(c, offset, buf)[i] == d[i];
    }
  }

  /** Byte by byte: an empty write changes nothing; any other puts its bytes where they go, leaves the
      rest, and fills a hole with zeros. */
  ghost predicate IsWritten(c: Bytes, offset: nat, buf: Bytes, d: Bytes) {
    forall lock: Lock :: WrittenBody(c, offset, buf, d, lock)
  }

  ghost predicate WrittenBody(c: Bytes, offset: nat, buf: Bytes, d: Bytes, lock: Lock) {
    if |buf| == 0 then d == c
    else && |d| == (if offset + |buf| > |c| then offset + |buf| else |c|)
         && forall i: nat :: i < |d| ==>
              d[i] == if offset <= i < offset + |buf| then buf[i - offset] else if i < |c| then c[i] else 0
  }

  lemma WrittenIs(c: Bytes, offset: nat, buf: Bytes)
    ensures IsWritten(c, offset, buf, Written(c, offset, buf))
  {
    if |buf| > 0 {
      forall i: nat | i < |Overwrite(c, offset, buf)|
        ensures Overwrite(c, offset, buf)[i]
             == if offset <= i < offset + |buf| then buf[i - offset] else if i < |c| then c[i] else 0
      {
        OverwriteAt(c, offset, buf, i);
      }
    }
  }

  /** What was written is what is read, and no other byte changes. */
  lemma ReadAfterWrite(c: Bytes, offset: nat, buf: Bytes, from: nat, size: nat)
    ensures Slice(Written(c, offset, buf), offset, |buf|) == buf
    ensures (from + size <= offset <= |c|) || offset + |buf| <= from
        ==> Slice(Written(c, offset, buf), from, size) == Slice(c, from, size)
  {
    var w := Written(c, offset, buf);
    if buf != [] {
      forall i: nat | i < |w|
        ensures w[i] == if offset <= i < offset + |buf| then buf[i - offset] else if i < |c| then c[i] else 0
      {
        OverwriteAt(c, offset, buf, i);
      }
      assert Slice(w, offset, |buf|) == buf;
      if (from + size <= offset <= |c|) || offset + |buf| <= from {
        assert Slice(w, from, size) == Slice(c, from, size);
      }
    }
  }

  // ----- Bytes behind a name -----

  lemma OverwriteBehind(name: Bytes, c: Bytes, offset: nat, buf: Bytes)
    ensures Overwrite(name + c, |name| + offset, buf) == name + Overwrite(c, offset, buf)
  {
    var l, r := Overwrite(name + c, |name| + offset, buf), name + Overwrite(c, offset, buf);
    forall i: nat | i < |l| ensures l[i] == r[i] {
      OverwriteAt(name + c, |name| + offset, buf, i);
      if i >= |name| {
        OverwriteAt(c, offset, buf, i - |name|);
      }
    }
  }

  lemma ResizedBehind(name: Bytes, c: Bytes, n: nat)
    ensures Resized(name + c, |name| + n) == name + Resized(c, n)
  {}

  lemma SliceBehind(name: Bytes, c: Bytes, offset: nat, size: nat)
    ensures Slice(name + c, |name| + offset, size) == Slice(c, offset, size)
  {}

  /** An overwrite from the start of nothing leaves the buffer. */
  lemma OverwriteFresh(buf: Bytes)
    ensures Overwrite([], 0, buf) == buf
  {}

  lemma Behind(name: Bytes, c: Bytes)
    ensures (name + c)[..|name|] == name && (name + c)[|name|..] == c
  {}

  // ----- The representation -----

  /** The bytes of the name with its terminating zero. */
  function Terminated(name: Bytes): Bytes { name + [0] }

  ghost predicate Body(inode: Inode, blob: Option<Bytes>, name: Bytes, c: Bytes, threshold: nat, lock: Lock) {
    && inode.header.namelen == |name|
    && inode.header.size == |c|
    && (inode.header.hasBlob <==> |c| > threshold)
    && blob == (if |c| > threshold then Some(c) else None)
    && inode.tail == Terminated(name) + (if |c| > threshold then [] else c)
  }

  /** The inode value and the disk file hold exactly the bytes `c` under `name`: inline up to
      the threshold, with no disk file; beyond it in the disk file, with nothing inline. */
  ghost predicate Holds(inode: Inode, blob: Option<Bytes>, name: Bytes, c: Bytes, threshold: nat) {
    forall lock: Lock :: Body(inode, blob, name, c, threshold, lock)
  }

  /** A representation stands for one name and one content only. */
  lemma HoldsOne(inode: Inode, blob: Option<Bytes>, threshold: nat, name: Bytes, c: Bytes, name': Bytes, c': Bytes)
    requires Holds(inode, blob, name, c, threshold) && Holds(inode, blob, name', c', threshold)
    ensures name == name' && c == c'
  {
    assert Body(inode, blob, name, c, threshold, Lock) && Body(inode, blob, name', c', threshold, Lock);
    var rest, rest' := if |c| > threshold then [] else c, if |c'| > threshold then [] else c';
    Behind(name, [0] + rest);
    Behind(name', [0] + rest');
    assert inode.tail == name + ([0] + rest) == name' + ([0] + rest');
    Behind(Terminated(name), rest);
    Behind(Terminated(name'), rest');
  }

  /** Inline and disk forms of `Holds`. */
  lemma HoldsInline(inode: Inode, name: Bytes, c: Bytes, threshold: nat)
    requires |c| <= threshold && inode == Inode(Header(|c|, false, |name|), Terminated(name) + c)
    ensures Holds(inode, None, name, c, threshold)
  {}

  lemma HoldsOnDisk(inode: Inode, name: Bytes, c: Bytes, threshold: nat)
    requires |c| > threshold && inode == Inode(Header(|c|, true, |name|), Terminated(name))
    ensures Holds(inode, Some(c), name, c, threshold)
  {
    assert Terminated(name) == Terminated(name) + [];
  }

  /** What a caller may read off a representation. */
  lemma HoldsMeans(inode: Inode, blob: Option<Bytes>, name: Bytes, c: Bytes, threshold: nat)
    requires Holds(inode, blob, name, c, threshold)
    ensures inode.header == Header(|c|, |c| > threshold, |name|) && |Terminated(name)| == |name| + 1
    ensures blob == if |c| > threshold then Some(c) else None
    ensures inode.tail == if |c| > threshold then Terminated(name) else Terminated(name) + c
  {
    assert Body(inode, blob, name, c, threshold, Lock);
    assert Terminated(name) == Terminated(name) + [];
  }

  /** When an inode value and a disk file, written to as the code does, hold what they should. */
  lemma WriteHolds(inode: Inode, blob: Option<Bytes>, name: Bytes, c: Bytes, threshold: nat, offset: nat, buf: Bytes)
    requires inode.header == Header(if |c| < offset + |buf| then offset + |buf| else |c|,
                                    |c| > threshold || offset + |buf| > threshold, |name|)
    requires inode.header.hasBlob ==> blob == Some(Written(c, offset, buf)) && inode.tail == Terminated(name)
    requires !inode.header.hasBlob ==> blob == None && inode.tail == Terminated(name) + Overwrite(c, offset, buf)
    ensures Holds(inode, blob, name, Written(c, offset, buf), threshold) <==> !EmptyPastEnd(c, offset, buf)
  {
    var w := Written(c, offset, buf);
    if EmptyPastEnd(c, offset, buf) {
      assert !Body(inode, blob, name, w, threshold, Lock);
    } else if inode.header.hasBlob {
      HoldsOnDisk(inode, name, w, threshold);
    } else {
      assert buf == [] ==> Overwrite(c, offset, buf) == c;
      HoldsInline(inode, name, w, threshold);
    }
  }

  /** No name and no content is what the inode value and the disk file hold. */
  ghost predicate Broken(inode: Inode, blob: Option<Bytes>, threshold: nat) {
    forall name, c :: !Holds(inode, blob, name, c, threshold)
  }

  /** What the one wrong write leaves: up to the threshold a sound file that has grown by
      zeros, past it a disk file shorter than its inode says, which holds nothing. */
  lemma EmptyWriteLeaves(inode: Inode, blob: Option<Bytes>, name: Bytes, c: Bytes, threshold: nat, offset: nat)
    requires offset > |c| && inode.header == Header(offset, |c| > threshold || offset > threshold, |name|)
    requires inode.header.hasBlob ==> blob == Some(Written(c, offset, [])) && inode.tail == Terminated(name)
    requires !inode.header.hasBlob ==> blob == None && inode.tail == Terminated(name) + Overwrite(c, offset, [])
    ensures Holds(inode, blob, name, Resized(c, offset), threshold) <==> offset <= threshold
    ensures Broken(inode, blob, threshold) <==> offset > threshold
  {
    if offset <= threshold {
      assert Overwrite(c, offset, []) == Resized(c, offset);
      HoldsInline(inode, name, Resized(c, offset), threshold);
    } else {
      forall n, d ensures !Holds(inode, blob, n, d, threshold) {
        assert !Body(inode, blob, n, d, threshold, Lock);
      }
    }
  }

  // ----- Runs against the plain byte sequence -----

  datatype Op =
    | Write(offset: nat, buf: Bytes)
    | Truncate(size: nat)
    | Rename(name: Bytes)
    | Read(from: nat, count: nat)

  /** A write that is empty and lies past the end: the one case the code gets wrong. */
  predicate EmptyPastEnd(c: Bytes, offset: nat, buf: Bytes) { buf == [] && offset > |c| }

  function After(c: Bytes, op: Op): Bytes {
    match op
    case Write(offset, buf) => Written(c, offset, buf)
    case Truncate(size) => Resized(c, size)
    case Rename(_) => c
    case Read(_, _) => c
  }

  function AfterAll(c: Bytes, ops: seq<Op>): Bytes {
    if ops == [] then c else After(AfterAll(c, ops[..|ops| - 1]), ops[|ops| - 1])
  }

  /** What the reads of a run return. */
  function Answers(c: Bytes, ops: seq<Op>): seq<Bytes> {
    if ops == [] then [] else
      var front, last := ops[..|ops| - 1], ops[|ops| - 1];
      Answers(c, front) + (if last.Read? then [Slice(AfterAll(c, front), last.from, last.count)] else [])
  }

  ghost predicate Sound(c: Bytes, ops: seq<Op>) {
    forall i :: 0 <= i < |ops| ==> ops[i].Write? ==> !EmptyPastEnd(AfterAll(c, ops[..i]), ops[i].offset, ops[i].buf)
  }

  // ----- The code -----

  function GetInlineData(inode: Inode, offset: nat, size: nat): Bytes {
    Slice(inode.tail, inode.header.namelen + 1 + offset, size)
  }

  function UpdateInlineData(inode: Inode, offset: nat, buf: Bytes): Inode {
    inode.(tail := Overwrite(inode.tail, inode.header.namelen + 1 + offset, buf))
  }

  function TruncateInlineData(inode: Inode, size: nat): Inode {
    inode.(tail := Resized(inode.tail, inode.header.namelen + size + 1))
  }

  function DropInlineData(inode: Inode): Inode {
    inode.(tail := Resized(inode.tail, inode.header.namelen + 1))
  }

  class DataFile {
    const threshold: nat
    var inode: Inode
    var blob: Option<Bytes>

    /** The name and the bytes the file is to have. */
    ghost var name: Bytes
    ghost var contents: Bytes

    ghost predicate Valid()
      reads this
    {
      Holds(inode, blob, name, contents, threshold)
    }

    /** InitInodeValue of a new file. */
    constructor (threshold: nat, filename: Bytes)
      ensures Valid() && contents == [] && name == filename && this.threshold == threshold
    {
      this.threshold := threshold;
      inode := Inode(Header(0, false, |filename|), Terminated(filename));
      blob, name, contents := None, filename, [];
      assert Terminated(filename) == Terminated(filename) + [];
    }

    /** The bytes move from the inode value to the disk file; the header is left for the caller. */
    method MigrateToDiskFile()
      requires Valid() && !inode.header.hasBlob
      modifies `inode, `blob
      ensures inode == Inode(old(inode.header), Terminated(name)) && blob == Some(contents)
    {
      HoldsMeans(inode, blob, name, contents, threshold);
      Behind(Terminated(name), contents);
      blob := Some([]);
      if inode.header.size > 0 {
        var start := inode.header.namelen + 1;
        blob := Some(Written(blob.value, 0, inode.tail[start..start + inode.header.size]));
        assert inode.tail[start..start + inode.header.size] == inode.tail[start..] == contents;
        OverwriteFresh(contents);
        inode := DropInlineData(inode);
      }
      assert Terminated(name) + [] == Terminated(name);
    }

    /** Read: the slice of the contents that is there. */
    method Read(offset: nat, size: nat) returns (buf: Bytes)
      requires Valid()
      ensures buf == Slice(contents, offset, size)
      ensures |buf| == if offset >= |contents| then 0
                       else if size < |contents| - offset then size else |contents| - offset
      ensures forall i :: 0 <= i < |buf| ==> buf[i] == contents[offset + i]
    {
      HoldsMeans(inode, blob, name, contents, threshold);
      if inode.header.hasBlob {
        buf := Slice(blob.value, offset, size);
      } else {
        SliceBehind(Terminated(name), contents, offset, size);
        buf := GetInlineData(inode, offset, size);
      }
    }

    /** Write: the file holds what a plain byte sequence would, if and only if the write is not
        an empty one past the end; that one moves the recorded size and no byte. */
    method Write(offset: nat, buf: Bytes)
      requires Valid()
      modifies `inode, `blob, `contents
      ensures contents == Written(old(contents), offset, buf)
      ensures IsWritten(old(contents), offset, buf, contents)
      ensures Valid() <==> !EmptyPastEnd(old(contents), offset, buf)
      ensures Valid() ==> (inode.header.hasBlob <==> |contents| > threshold) && (blob.Some? <==> |contents| > threshold)
      ensures EmptyPastEnd(old(contents), offset, buf) ==>
                && (Holds(inode, blob, name, Resized(old(contents), offset), threshold) <==> offset <= threshold)
                && (Broken(inode, blob, threshold) <==> offset > threshold)
    {
      HoldsMeans(inode, blob, name, contents, threshold);
      var larger, migrated := inode.header.size < offset + |buf|, false;
      if inode.header.hasBlob {
        blob := Some(Written(blob.value, offset, buf));
      } else if offset + |buf| > threshold {
        MigrateToDiskFile();
        inode := inode.(header := inode.header.(size := offset + |buf|, hasBlob := true));
        migrated := true;
        blob := Some(Written(blob.value, offset, buf));
      } else {
        OverwriteBehind(Terminated(name), contents, offset, buf);
        inode := UpdateInlineData(inode, offset, buf);
      }
      if larger && !migrated {
        inode := inode.(header := inode.header.(size := offset + |buf|));
      }
      contents := Written(contents, offset, buf);
      WrittenIs(old(contents), offset, buf);
      WriteHolds(inode, blob, name, old(contents), threshold, offset, buf);
      if EmptyPastEnd(old(contents), offset, buf) {
        EmptyWriteLeaves(inode, blob, name, old(contents), threshold, offset);
      } else {
        HoldsMeans(inode, blob, name, contents, threshold);
      }
    }

    /** Truncate: the file is cut or grows by zeros, and moves between the two forms. */
    method Truncate(size: nat)
      requires Valid()
      modifies `inode, `blob, `contents
      ensures Valid() && contents == Resized(old(contents), size) && |contents| == size
      ensures forall i :: 0 <= i < size ==> contents[i] == if i < |old(contents)| then old(contents)[i] else 0
      ensures (inode.header.hasBlob <==> size > threshold) && (blob.Some? <==> size > threshold)
    {
      HoldsMeans(inode, blob, name, contents, threshold);
      var entry := inode.header.size;
      if inode.header.hasBlob {
        if size > threshold {
          blob := Some(Resized(blob.value, size));
        } else {
          var buffer := Slice(blob.value, 0, size);
          blob := None;
          inode := UpdateInlineData(inode, 0, buffer);
          OverwriteBehind(Terminated(name), [], 0, buffer);
          OverwriteFresh(buffer);
          assert Terminated(name) + [] == Terminated(name);
        }
      } else if size > threshold {
        MigrateToDiskFile();
        blob := Some(Resized(blob.value, size));
      } else {
        ResizedBehind(Terminated(name), contents, size);
        inode := TruncateInlineData(inode, size);
      }
      if size != entry {
        inode := inode.(header := inode.header.(size := size, hasBlob := size > threshold));
      }
      contents := Resized(contents, size);
      if size > threshold {
        HoldsOnDisk(inode, name, contents, threshold);
      } else {
        HoldsInline(inode, name, contents, threshold);
      }
      HoldsMeans(inode, blob, name, contents, threshold);
    }

    /** InitInodeValue for a rename: the name region is replaced, whatever its length was. */
    method Rename(filename: Bytes)
      requires Valid()
      modifies `inode, `name
      ensures Valid() && name == filename
    {
      HoldsMeans(inode, blob, name, contents, threshold);
      Behind(Terminated(name), if |contents| > threshold then [] else contents);
      assert Terminated(name) + [] == Terminated(name) && Terminated(filename) + [] == Terminated(filename);
      inode := inode.(tail := Terminated(filename) + inode.tail[inode.header.namelen + 1..]);
      inode := inode.(header := inode.header.(namelen := |filename|));
      name := filename;
    }

    /** Unlink: the disk file is removed if and only if there is one. */
    method Unlink() returns (unlinked: bool)
      requires Valid()
      modifies `blob
      ensures blob == None
      ensures unlinked <==> old(blob).Some?
    {
      HoldsMeans(inode, blob, name, contents, threshold);
      unlinked := inode.header.size > threshold;
      if unlinked {
        blob := None;
      }
    }

    /** Any run of calls answers as a plain byte sequence would. */
    method Perform(ops: seq<Op>) returns (answers: seq<Bytes>)
      requires Valid() && Sound(contents, ops)
      modifies this
      ensures Valid() && contents == AfterAll(old(contents), ops)
      ensures answers == Answers(old(contents), ops)
    {
      answers := [];
      ghost var c := contents;
      assert ops[..0] == [];
      for i := 0 to |ops|
        invariant Valid() && contents == AfterAll(c, ops[..i]) && answers == Answers(c, ops[..i])
      {
        assert ops[..i + 1][..i] == ops[..i];
        match ops[i] {
          case Write(offset, buf) => Write(offset, buf);
          case Truncate(size) => Truncate(size);
          case Rename(filename) => Rename(filename);
          case Read(from, count) =>
            var buf := Read(from, count);
            answers := answers + [buf];
        }
      }
      assert ops[..|ops|] == ops;
    }
  }

  /** An empty write at offset 1 of a new file makes it a file of one zero byte. */
  method EmptyWriteGrows() returns (file: DataFile)
    ensures fresh(file) && file.contents == [] && Holds(file.inode, file.blob, file.name, [0], 4096)
  {
    file := new DataFile(4096, []);
    file.Write(1, []);
    assert Resized([], 1) == [0];
  }

  /** An empty write at offset 5000 of a new file leaves an inode that claims 5000 bytes and an
      empty disk file. */
  method EmptyWriteBreaks() returns (file: DataFile)
    ensures fresh(file) && file.contents == [] && Broken(file.inode, file.blob, 4096)
  {
    file := new DataFile(4096, []);
    file.Write(5000, []);
  }
}
