/** pkg/image/sparse.go: the index of all-zero chunks. */
module Sparse {
  import opened Bytes
  import opened Format

  datatype Run = Run(offset: nat, size: nat)

  const MinZeroRun: nat := 4096

  ghost predicate AllZero(data: Bytes)
  {
    forall i | 0 <= i < |data| :: data[i] == 0
  }

  method IsZero(data: Bytes) returns (r: bool)
    ensures r <==> AllZero(data)
  {
    for i := 0 to |data|
      invariant AllZero(data[..i])
    {
      if data[i] != 0 { return false; }
    }
    r := true;
  }

  predicate Large(e: Entry)
  {
    e.size >= MinZeroRun
  }

  ghost predicate LargeReadable(entries: seq<Entry>, device: Bytes)
  {
    forall i | 0 <= i < |entries| && Large(entries[i]) :: ReadAt(device, entries[i].offset, entries[i].size).Some?
  }

  ghost predicate IsZeroRun(e: Entry, device: Bytes)
  {
    Large(e) && var r := ReadAt(device, e.offset, e.size); r.Some? && AllZero(r.value)
  }

  ghost function ZeroRuns(entries: seq<Entry>, device: Bytes): seq<Run>
  {
    if entries == [] then [] else
    var front, e := ZeroRuns(entries[..|entries| - 1], device), entries[|entries| - 1];
    if IsZeroRun(e, device) then front + [Run(e.offset, e.size)] else front
  }

  /** The loop of ApplySparse. */
  method FindZeroRuns(entries: seq<Entry>, device: Bytes) returns (r: Option<seq<Run>>)
    ensures r.Some? <==> LargeReadable(entries, device)
    ensures r.Some? <==> forall i | 0 <= i < |entries| && entries[i].size >= 4096 ::
              entries[i].offset < 0x8000_0000_0000_0000 && entries[i].offset + entries[i].size <= |device|
    ensures r.Some? ==> r.value == ZeroRuns(entries, device)
  {
    var runs := [];
    for i := 0 to |entries|
      invariant LargeReadable(entries[..i], device) && runs == ZeroRuns(entries[..i], device)
    {
      var e := entries[i];
      assert entries[..i + 1][..i] == entries[..i];
      if e.size < MinZeroRun { continue; }
      var buf := ReadAt(device, e.offset, e.size);
      if buf.None? { return None; }
      var zero := IsZero(buf.value);
      if zero { runs := runs + [Run(e.offset, e.size)]; }
    }
    assert entries[..|entries|] == entries;
    r := Some(runs);
  }

  /** A chunk of at least 4096 bytes that lies in the file and holds only zeros. */
  ghost predicate ZeroChunk(e: Entry, device: Bytes)
  {
    && e.size >= 4096 && e.offset < 0x8000_0000_0000_0000 && e.offset + e.size <= |device|
    && forall p | e.offset <= p < e.offset + e.size :: device[p] == 0
  }

  lemma {:induction false} ZeroRunIsZeroChunk(e: Entry, device: Bytes)
    ensures IsZeroRun(e, device) <==> ZeroChunk(e, device)
  {
    if e.offset + e.size <= |device| {
      var chunk := device[e.offset..e.offset + e.size];
      forall p | e.offset <= p < e.offset + e.size ensures device[p] == chunk[p - e.offset] {}
      assert AllZero(chunk) ==> forall p | e.offset <= p < e.offset + e.size :: device[p] == 0;
    }
  }

  /** The index lists exactly the chunks of at least 4096 bytes that hold only zeros. */
  lemma {:induction false} IndexedIffZero(entries: seq<Entry>, device: Bytes, r: Run)
    ensures r in ZeroRuns(entries, device) <==>
            exists i | 0 <= i < |entries| ::
              ZeroChunk(entries[i], device) && r == Run(entries[i].offset, entries[i].size)
  {
    RunsAreTheZeroChunks(entries, device, r);
    forall i | 0 <= i < |entries| ensures IsZeroRun(entries[i], device) <==> ZeroChunk(entries[i], device) {
      ZeroRunIsZeroChunk(entries[i], device);
    }
  }

  lemma {:induction false} RunsAreTheZeroChunks(entries: seq<Entry>, device: Bytes, r: Run)
    ensures r in ZeroRuns(entries, device) <==>
            exists i | 0 <= i < |entries| ::
              IsZeroRun(entries[i], device) && r == Run(entries[i].offset, entries[i].size)
  {
    if entries != [] {
      var front := entries[..|entries| - 1];
      RunsAreTheZeroChunks(front, device, r);
      if i :| 0 <= i < |front| && IsZeroRun(front[i], device) && r == Run(front[i].offset, front[i].size) {
        assert entries[i] == front[i];
      }
    }
  }

  /** Of a tiled image, the runs do not overlap and come in the order of the file. */
  lemma {:induction false} RunsAreOrdered(entries: seq<Entry>, device: Bytes, total: nat, i: nat, j: nat)
    requires Tiled(entries, total) && i < j < |ZeroRuns(entries, device)|
    ensures var runs := ZeroRuns(entries, device); runs[i].offset + runs[i].size <= runs[j].offset
  {
    var front, e := entries[..|entries| - 1], entries[|entries| - 1];
    assert front != [] ==> Tiled(front, front[|front| - 1].offset + front[|front| - 1].size);
    var runs := ZeroRuns(front, device);
    if j < |runs| {
      RunsAreOrdered(front, device, front[|front| - 1].offset + front[|front| - 1].size, i, j);
    } else {
      RunsAreTheZeroChunks(front, device, runs[i]);
      var h :| 0 <= h < |front| && IsZeroRun(front[h], device) && runs[i] == Run(front[h].offset, front[h].size);
      TiledInside(entries, total, h, |entries| - 1);
    }
  }
}
