/** A descriptor log as a file of bytes. */
module ManifestFile {
  // Edits are encoded field by field, framed as log records, and read back from any
  // prefix of the file.

  import opened Entries
  import Coding
  import Layout
  import E = VersionEdit
  import LF = LogFormat
  import LogReader
  import ML = ManifestLog
  import V = VersionBuilder

  type Bytes = Coding.Bytes

  /** How keys and comparator names are stored. */
  datatype Codec = Codec(key: IKey -> Bytes, unkey: Bytes -> IKey, name: string -> Bytes, unname: Bytes -> string)

  function StoredMeta(c: Codec, f: V.Meta): E.Meta {
    E.Meta(f.number, f.size, c.key(f.smallest), c.key(f.largest))
  }

  function LoadedMeta(c: Codec, f: E.Meta): V.Meta {
    V.Meta(f.number, f.size, c.unkey(f.smallest), c.unkey(f.largest))
  }

  /** The edit with its keys and its comparator's name as bytes. */
  function Stored(c: Codec, e: V.Edit): E.Edit {
    E.Edit(if e.comparator.Some? then Some(c.name(e.comparator.value)) else None,
           e.logNumber, e.prevLogNumber, e.nextFile, e.lastSequence, [], e.deleted,
           seq(|e.added|, i requires 0 <= i < |e.added| => (e.added[i].0, StoredMeta(c, e.added[i].1))))
  }

  function Loaded(c: Codec, e: E.Edit): V.Edit {
    V.Edit(if e.comparator.Some? then Some(c.unname(e.comparator.value)) else None,
           e.logNumber, e.prevLogNumber, e.nextFile, e.lastSequence, e.deleted,
           seq(|e.added|, i requires 0 <= i < |e.added| => (e.added[i].0, LoadedMeta(c, e.added[i].1))))
  }

  /** The codec gives back the keys and the name in the edit, which fit their fields. */
  ghost predicate Storable(c: Codec, e: V.Edit) {
    && (e.comparator.Some? ==> c.unname(c.name(e.comparator.value)) == e.comparator.value)
    && (forall i :: 0 <= i < |e.added| ==> LoadedMeta(c, StoredMeta(c, e.added[i].1)) == e.added[i].1)
    && E.PairsOrdered(e.deleted) && E.AllSmall(E.Fields(Stored(c, e)))
  }

  lemma LoadedStored(c: Codec, e: V.Edit)
    requires Storable(c, e)
    ensures Loaded(c, Stored(c, e)) == e
  {
    assert Loaded(c, Stored(c, e)).added == e.added;
  }

  /** The record of an edit. */
  function RecordOf(c: Codec, e: V.Edit): Bytes {
    Layout.Flat(E.FieldEncoder(), E.Fields(Stored(c, e)))
  }

  function RecordsOf(c: Codec, edits: seq<V.Edit>): (r: seq<Bytes>)
    ensures |r| == |edits|
  {
    seq(|edits|, i requires 0 <= i < |edits| => RecordOf(c, edits[i]))
  }

  method EncodeEdits(c: Codec, edits: seq<V.Edit>) returns (records: seq<Bytes>)
    ensures records == RecordsOf(c, edits)
  {
    records := [];
    for i := 0 to |edits|
      invariant records == RecordsOf(c, edits)[..i]
    {
      var r := E.EncodeTo([], Stored(c, edits[i]));
      assert r == RecordOf(c, edits[i]);
      records := records + [r];
    }
  }

  method DecodeEdit(c: Codec, record: Bytes, ghost e: V.Edit) returns (r: V.Edit)
    requires Storable(c, e) && record == RecordOf(c, e)
    ensures r == e
  {
    var none := E.Edit(None, None, None, None, None, [], [], []);
    var decoded := E.DecodeFrom(none, record, Stored(c, e));
    assert [] + Stored(c, e).pointers == [];
    LoadedStored(c, e);
    r := Loaded(c, decoded.edit);
  }

  method DecodeEdits(c: Codec, records: seq<Bytes>, ghost edits: seq<V.Edit>) returns (es: seq<V.Edit>)
    requires records == RecordsOf(c, edits) && forall i :: 0 <= i < |edits| ==> Storable(c, edits[i])
    ensures es == edits
  {
    es := [];
    for i := 0 to |records|
      invariant es == edits[..i]
    {
      assert records[i] == RecordOf(c, edits[i]);
      var e := DecodeEdit(c, records[i], edits[i]);
      es := es + [e];
    }
  }

  /** The edits whose records lie inside the cut. */
  ghost predicate InsideCut(c: Codec, form: Layout.Form<Bytes>, edits: seq<V.Edit>, cut: nat, es: seq<V.Edit>) {
    forall lock: Lock :: InsideCutBody(c, form, edits, cut, es, lock)
  }

  ghost predicate InsideCutBody(c: Codec, form: Layout.Form<Bytes>, edits: seq<V.Edit>, cut: nat, es: seq<V.Edit>,
                                lock: Lock) {
    && es <= edits && |Layout.Laid(form, 0, RecordsOf(c, es))| <= cut
    && (|es| < |edits| ==> |Layout.Laid(form, 0, RecordsOf(c, edits[..|es| + 1]))| > cut)
  }

  /** The edits read back from a file that was cut. */
  method ReadBack(value: Bytes -> LF.Word, c: Codec, edits: seq<V.Edit>, cut: nat)
    returns (file: Bytes, es: seq<V.Edit>)
    requires forall i :: 0 <= i < |edits| ==> Storable(c, edits[i])
    ensures LogReader.IsCut(Layout.Laid(LF.RecordForm(LF.Masked(value)), 0, RecordsOf(c, edits)), cut, file)
    ensures InsideCut(c, LF.RecordForm(LF.Masked(value)), edits, cut, es) && es <= edits
  {
    var records := EncodeEdits(c, edits);
    var rs;
    file, rs := LogReader.WriteThenReadPrefix(value, records, cut);
    ghost var kept := edits[..|rs|];
    assert rs == RecordsOf(c, kept);
    assert |rs| < |records| ==> records[..|rs| + 1] == RecordsOf(c, edits[..|rs| + 1]);
    es := DecodeEdits(c, rs, kept);
  }

  /** A descriptor file cut anywhere: Recover goes by exactly the edits whose records are all
      there, and if the edits add no file twice, the version is what those edits give one at
      a time. */
  method WriteThenRecover(value: Bytes -> LF.Word, c: Codec, edits: seq<V.Edit>, cut: nat, name: string)
    returns (file: Bytes, r: ML.Result<ML.Recovered>, es: seq<V.Edit>)
    requires forall i :: 0 <= i < |edits| ==> Storable(c, edits[i]) && V.ValidEdit(edits[i])
    ensures LogReader.IsCut(Layout.Laid(LF.RecordForm(LF.Masked(value)), 0, RecordsOf(c, edits)), cut, file)
    ensures InsideCut(c, LF.RecordForm(LF.Masked(value)), edits, cut, es)
    ensures r.InvalidArgument? <==> exists i :: 0 <= i < |es| && ML.Foreign(es[i], name)
    ensures !r.InvalidArgument? ==>
              var n := ML.Counted(es);
              r.Ok? <==> n.nextFile.Some? && n.logNumber.Some? && n.lastSequence.Some?
    ensures r.Ok? && ML.Disciplined(edits) ==>
              V.OrderedVersion(r.value.version) && V.FilesOf(r.value.version) == V.Replayed(ML.Empty(), es)
  {
    file, es := ReadBack(value, c, edits, cut);
    assert es == edits[..|es|];
    r := ML.Recover(es, name);
    if ML.Disciplined(edits) {
      FrontDisciplined(edits, |es|);
      ML.BuiltIsReplayed(es);
    }
  }

  lemma FrontDisciplined(edits: seq<V.Edit>, n: nat)
    requires ML.Disciplined(edits) && n <= |edits|
    ensures ML.Disciplined(edits[..n])
  {
    var front := edits[..n];
    forall i | 0 <= i < n
      ensures V.ValidEdit(front[i]) && V.AddsOnce(front[i]) && ML.NewIn(front[..i], front[i])
    {
      assert front[..i] == edits[..i] && front[i] == edits[i];
    }
  }
}
