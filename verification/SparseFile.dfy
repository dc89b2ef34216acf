/** The bytes of sparse.bin (pkg/image/sparse.go). */
module SparseFile {
  import opened Bytes
  import opened Codec
  import opened Sparse

  function Magic(): (r: nat)
    ensures r < U32
  {
    0x53505253
  }

  function EncodeRun(r: Run): Bytes
  {
    Put(Quad, r.offset) + Put(Quad, r.size)
  }

  function RunCoder(): Run -> Bytes
  {
    (r: Run) => EncodeRun(r)
  }

  function EncodeSparse(runs: seq<Run>): Bytes
  {
    Put(Word, Magic()) + (Put(Word, |runs|) + PutAll(RunCoder(), runs))
  }

  function DecodeRun(b: Bytes): Option<(Run, Bytes)>
  {
    var offset := Take(Quad, b);
    if offset.None? then None else
    var size := Take(Quad, offset.value.1);
    if size.None? then None else Some((Run(offset.value.0, size.value.0), size.value.1))
  }

  function RunDecoder(): Decoder<Run>
  {
    (b: Bytes) => DecodeRun(b)
  }

  function DecodeSparse(b: Bytes): Option<(seq<Run>, Bytes)>
  {
    var magic := Take(Word, b);
    if magic.None? || magic.value.0 != Magic() then None else
    var count := Take(Word, magic.value.1);
    if count.None? then None else Many(RunDecoder(), count.value.0, count.value.1)
  }

  method WriteSparse(w: Writer, runs: seq<Run>)
    modifies w
    ensures w.out == old(w.out) + EncodeSparse(runs)
  {
    w.Number(Word, Magic());
    w.Number(Word, |runs|);
    ghost var head := w.out;
    for i := 0 to |runs|
      invariant w.out == head + PutAll(RunCoder(), runs[..i])
    {
      w.Number(Quad, runs[i].offset);
      w.Number(Quad, runs[i].size);
      Assoc(head + PutAll(RunCoder(), runs[..i]), Put(Quad, runs[i].offset), Put(Quad, runs[i].size));
      PutAllStep(head, RunCoder(), runs, i);
    }
    assert runs[..|runs|] == runs;
    Group3(old(w.out), Put(Word, Magic()), Put(Word, |runs|), PutAll(RunCoder(), runs));
  }

  method ReadRun(r: Reader) returns (run: Option<Run>)
    requires r.Valid()
    modifies r`pos
    ensures r.Valid()
    ensures run.Some? <==> DecodeRun(old(r.Rest())).Some?
    ensures run.Some? ==> DecodeRun(old(r.Rest())) == Some((run.value, r.Rest()))
  {
    var offset := r.Number(Quad);
    if offset.None? { return None; }
    var size := r.Number(Quad);
    if size.None? { return None; }
    run := Some(Run(offset.value, size.value));
  }

  method ReadRuns(r: Reader, count: nat) returns (runs: Option<seq<Run>>)
    requires r.Valid()
    modifies r`pos
    ensures r.Valid()
    ensures runs.Some? <==> Many(RunDecoder(), count, old(r.Rest())).Some?
    ensures runs.Some? ==> Many(RunDecoder(), count, old(r.Rest())) == Some((runs.value, r.Rest()))
  {
    var out := [];
    ghost var start := r.Rest();
    for i := 0 to count
      invariant r.Valid() && Many(RunDecoder(), i, start) == Some((out, r.Rest()))
    {
      ManySnoc(RunDecoder(), i, start);
      var run := ReadRun(r);
      if run.None? {
        ManyNeedsFront(RunDecoder(), i + 1, count, start);
        return None;
      }
      out := out + [run.value];
    }
    runs := Some(out);
  }

  /** A missing file is an empty index. */
  method ReadSparse(file: Option<Bytes>) returns (runs: Option<seq<Run>>)
    ensures file.None? ==> runs == Some([])
    ensures file.Some? ==> (runs.Some? <==> DecodeSparse(file.value).Some?)
    ensures file.Some? && runs.Some? ==> runs.value == DecodeSparse(file.value).value.0
  {
    if file.None? { return Some([]); }
    var r := new Reader(file.value);
    var magic := r.Number(Word);
    if magic.None? || magic.value != Magic() { return None; }
    var count := r.Number(Word);
    if count.None? { return None; }
    runs := ReadRuns(r, count.value);
  }

  /** What is written is what is read, for runs of 64-bit offsets and sizes. */
  lemma {:induction false} SparseRoundTrip(runs: seq<Run>, rest: Bytes)
    requires |runs| < U32 && forall i | 0 <= i < |runs| :: runs[i].offset < U64 && runs[i].size < U64
    ensures DecodeSparse(EncodeSparse(runs) + rest) == Some((runs, rest))
  {
    var body := PutAll(RunCoder(), runs) + rest;
    assert EncodeSparse(runs) + rest == Put(Word, Magic()) + (Put(Word, |runs|) + body);
    TakePut(Word, Magic(), Put(Word, |runs|) + body);
    TakePut(Word, |runs|, body);
    forall i | 0 <= i < |runs| ensures Decodes(RunDecoder(), RunCoder()(runs[i]), runs[i]) {
      RunRoundTrip(runs[i]);
    }
    ManyOfAll(RunDecoder(), RunCoder(), runs, runs, rest);
  }

  lemma {:induction false} RunBytes(r: Run)
    requires r.offset < U64 && r.size < U64
    ensures var b := EncodeRun(r); |b| == 16 && FromLE(b[0..8]) == r.offset && FromLE(b[8..16]) == r.size
  {
    FieldAt([], Quad, r.offset, Put(Quad, r.size));
    FieldAt(Put(Quad, r.offset), Quad, r.size, []);
    assert [] + EncodeRun(r) == EncodeRun(r);
    assert Put(Quad, r.offset) + (Put(Quad, r.size) + []) == EncodeRun(r);
  }

  lemma {:induction false} RunsLength(runs: seq<Run>)
    ensures |PutAll(RunCoder(), runs)| == 16 * |runs|
  {
    if runs != [] {
      RunsLength(runs[1..]);
      assert |EncodeRun(runs[0])| == 16;
    }
  }

  /** The file, byte range by byte range: magic number, count, and 16 bytes for each run. */
  lemma {:induction false} SparseBytes(runs: seq<Run>)
    requires |runs| < U32
    ensures var b := EncodeSparse(runs);
            && |b| == 8 + 16 * |runs| && FromLE(b[0..4]) == 0x5350_5253 && FromLE(b[4..8]) == |runs|
            && b[8..] == PutAll(RunCoder(), runs)
  {
    var b, body := EncodeSparse(runs), PutAll(RunCoder(), runs);
    FieldAt([], Word, Magic(), Put(Word, |runs|) + body);
    FieldAt(Put(Word, Magic()), Word, |runs|, body);
    assert [] + b == b && b[8..] == body;
    RunsLength(runs);
  }

  lemma {:induction false} RunPosition(runs: seq<Run>, i: nat)
    requires |runs| < U32 && i < |runs|
    ensures var b, o := EncodeSparse(runs), 8 + 16 * i; o + 16 <= |b| && b[o..o + 16] == EncodeRun(runs[i])
  {
    RunsLength(runs[..i]);
    Assoc(Put(Word, Magic()), Put(Word, |runs|), PutAll(RunCoder(), runs));
    PutAllBehind(Put(Word, Magic()) + Put(Word, |runs|), RunCoder(), runs, i, 8 + 16 * i, EncodeRun(runs[i]));
  }

  lemma {:induction false} RunRoundTrip(r: Run)
    requires r.offset < U64 && r.size < U64
    ensures Decodes(RunDecoder(), EncodeRun(r), r)
  {
    forall rest ensures DecodeRun(EncodeRun(r) + rest) == Some((r, rest)) {
      Assoc(Put(Quad, r.offset), Put(Quad, r.size), rest);
      TakePut(Quad, r.offset, Put(Quad, r.size) + rest);
      TakePut(Quad, r.size, rest);
    }
  }
}
