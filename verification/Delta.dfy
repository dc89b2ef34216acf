/** pkg/image/delta.go: the difference of an image against a parent, and its reconstruction. */
module Delta {
  import opened Bytes
  import opened Format

  datatype Record = Record(ptr: nat, size: nat, deviceOff: nat, patchOff: nat)

  /** Entries by pointer; of several with one pointer the last wins. */
  function ByPtr(entries: seq<Entry>): map<nat, Entry>
  {
    if entries == [] then map[] else ByPtr(entries[..|entries| - 1])[entries[|entries| - 1].ptr := entries[|entries| - 1]]
  }

  /** The parent has a chunk with this pointer, size and checksum. */
  predicate Skips(e: Entry, parent: map<nat, Entry>)
  {
    e.ptr in parent && parent[e.ptr].size == e.size && parent[e.ptr].crc == e.crc
  }

  predicate Inside(entries: seq<Entry>, size: nat)
  {
    forall i | 0 <= i < |entries| :: entries[i].offset + entries[i].size <= size
  }

  function Range(data: Bytes, e: Entry): (r: Bytes)
    requires e.offset + e.size <= |data|
    ensures |r| == e.size
  {
    data[e.offset..e.offset + e.size]
  }

  /** Every chunk that is not skipped ends within size. */
  predicate CarriedInside(entries: seq<Entry>, parent: map<nat, Entry>, size: nat)
  {
    forall i | 0 <= i < |entries| && !Skips(entries[i], parent) :: entries[i].offset + entries[i].size <= size
  }

  /** The records and the patch: every chunk that is not skipped, in order. */
  function Diff(entries: seq<Entry>, parent: map<nat, Entry>, buffer: Bytes): (seq<Record>, Bytes)
    requires CarriedInside(entries, parent, |buffer|)
  {
    if entries == [] then ([], []) else
    var (recs, patch) := Diff(entries[..|entries| - 1], parent, buffer);
    var e := entries[|entries| - 1];
    if Skips(e, parent) then (recs, patch)
    else (recs + [Record(e.ptr, e.size, e.offset, |patch|)], patch + Range(buffer, e))
  }

  function MaxEnd(entries: seq<Entry>): nat
  {
    if entries == [] then 0 else
    var rest, e := MaxEnd(entries[..|entries| - 1]), entries[|entries| - 1];
    if e.offset + e.size > rest then e.offset + e.size else rest
  }

  /** Grown with zeros or truncated. */
  function Resize(base: Bytes, total: nat): (r: Bytes)
    ensures |r| == total
    ensures forall p | 0 <= p < total :: r[p] == if p < |base| then base[p] else 0
  {
    if |base| < total then base + ZeroBytes(total - |base|) else base[..total]
  }

  /** One copy from the patch; None where the slices would be out of range. */
  function ApplyRecord(buf: Bytes, r: Record, patch: Bytes): (res: Option<Bytes>)
    ensures res.Some? ==> |res.value| == |buf|
  {
    if r.deviceOff + r.size <= |buf| && r.patchOff + r.size <= |patch| then
      Some(buf[..r.deviceOff] + patch[r.patchOff..r.patchOff + r.size] + buf[r.deviceOff + r.size..])
    else None
  }

  function Patched(buf: Bytes, recs: seq<Record>, patch: Bytes): (res: Option<Bytes>)
    ensures res.Some? ==> |res.value| == |buf|
  {
    if recs == [] then Some(buf) else
    var front := Patched(buf, recs[..|recs| - 1], patch);
    if front.None? then None else ApplyRecord(front.value, recs[|recs| - 1], patch)
  }

  /** What ApplyDelta computes from the parent's device.bin. */
  function Rebuild(base: Bytes, entries: seq<Entry>, recs: seq<Record>, patch: Bytes): Option<Bytes>
  {
    Patched(Resize(base, MaxEnd(entries)), recs, patch)
  }

  // ---------- the loops ----------

  method MakeByPtr(entries: seq<Entry>) returns (m: map<nat, Entry>)
    ensures m == ByPtr(entries)
  {
    m := map[];
    for i := 0 to |entries|
      invariant m == ByPtr(entries[..i])
    {
      m := m[entries[i].ptr := entries[i]];
      assert entries[..i + 1][..i] == entries[..i];
    }
    assert entries[..|entries|] == entries;
  }

  /** The loop of WriteDelta.  buffer is device.bin followed by the spare capacity of the slice that holds
      it, within which Go lets a slice expression reach; ok is false where the expression would panic. */
  method MakeDiff(entries: seq<Entry>, parent: map<nat, Entry>, buffer: Bytes)
    returns (ok: bool, recs: seq<Record>, patch: Bytes)
    ensures ok <==> CarriedInside(entries, parent, |buffer|)
    ensures ok ==> (recs, patch) == Diff(entries, parent, buffer)
  {
    recs, patch := [], [];
    for i := 0 to |entries|
      invariant CarriedInside(entries[..i], parent, |buffer|)
      invariant (recs, patch) == Diff(entries[..i], parent, buffer)
    {
      var e := entries[i];
      assert entries[..i + 1][..i] == entries[..i];
      if Skips(e, parent) { continue; }
      if e.offset + e.size > |buffer| { return false, [], []; }
      recs := recs + [Record(e.ptr, e.size, e.offset, |patch|)];
      patch := patch + buffer[e.offset..e.offset + e.size];
    }
    assert entries[..|entries|] == entries;
    ok := true;
  }

  method Reconstruct(base: Bytes, entries: seq<Entry>, recs: seq<Record>, patch: Bytes) returns (r: Option<Bytes>)
    ensures r == Rebuild(base, entries, recs, patch)
  {
    var total := 0;
    for i := 0 to |entries|
      invariant total == MaxEnd(entries[..i])
    {
      var end := entries[i].offset + entries[i].size;
      if end > total { total := end; }
      assert entries[..i + 1][..i] == entries[..i];
    }
    assert entries[..|entries|] == entries;
    var buf := Resize(base, total);
    ghost var sized := buf;
    for i := 0 to |recs|
      invariant |buf| == |sized| && Patched(sized, recs[..i], patch) == Some(buf)
    {
      assert recs[..i + 1][..i] == recs[..i];
      var rec := recs[i];
      if rec.deviceOff + rec.size > |buf| || rec.patchOff + rec.size > |patch| {
        PatchedStaysNone(sized, recs, i + 1, patch);
        return None;
      }
      buf := buf[..rec.deviceOff] + patch[rec.patchOff..rec.patchOff + rec.size] + buf[rec.deviceOff + rec.size..];
    }
    assert recs[..|recs|] == recs;
    r := Some(buf);
  }

  lemma {:induction false} PatchedStaysNone(buf: Bytes, recs: seq<Record>, i: nat, patch: Bytes)
    requires i <= |recs| && Patched(buf, recs[..i], patch).None?
    ensures Patched(buf, recs, patch).None?
    decreases |recs|
  {
    if i < |recs| {
      assert recs[..|recs| - 1][..i] == recs[..i];
      PatchedStaysNone(buf, recs[..|recs| - 1], i, patch);
    } else {
      assert recs[..i] == recs;
    }
  }

  /** Entry i has the pointer, size and checksum of e, and no later one has its pointer. */
  ghost predicate LastMatch(e: Entry, entries: seq<Entry>, i: nat)
  {
    && i < |entries| && entries[i].ptr == e.ptr && entries[i].size == e.size && entries[i].crc == e.crc
    && forall j | i < j < |entries| :: entries[j].ptr != e.ptr
  }

  /** A chunk is skipped exactly when the last entry of the parent at its pointer has its size and checksum. */
  lemma {:induction false} SkippedIff(e: Entry, parent: seq<Entry>)
    ensures Skips(e, ByPtr(parent)) <==>
            exists i: nat :: LastMatch(e, parent, i)
  {
    if parent != [] {
      var n := |parent| - 1;
      var front := parent[..n];
      if parent[n].ptr == e.ptr {
        assert Skips(e, ByPtr(parent)) ==> LastMatch(e, parent, n);
      } else {
        SkippedIff(e, front);
        if Skips(e, ByPtr(front)) {
          var i :| LastMatch(e, front, i);
          assert LastMatch(e, parent, i);
        }
        if i :| LastMatch(e, parent, i) {
          assert LastMatch(e, front, i);
        }
      }
    }
  }

  // ---------- when the reconstruction is exact ----------

  /** Position p lies in a chunk that the delta carries. */
  ghost predicate Carried(entries: seq<Entry>, parent: map<nat, Entry>, p: nat)
  {
    exists i | 0 <= i < |entries| ::
      !Skips(entries[i], parent) && entries[i].offset <= p < entries[i].offset + entries[i].size
  }

  /** Records and patch positions only look at the part of the patch that existed when they were made. */
  lemma {:induction false} PatchedExtends(buf: Bytes, recs: seq<Record>, patch: Bytes, more: Bytes)
    requires Patched(buf, recs, patch).Some?
    ensures Patched(buf, recs, patch + more) == Patched(buf, recs, patch)
  {
    if recs != [] {
      PatchedExtends(buf, recs[..|recs| - 1], patch, more);
      var r := recs[|recs| - 1];
      assert (patch + more)[r.patchOff..r.patchOff + r.size] == patch[r.patchOff..r.patchOff + r.size];
    }
  }

  lemma {:induction false} CarriedSnoc(entries: seq<Entry>, parent: map<nat, Entry>, p: nat)
    requires entries != []
    ensures var front, e := entries[..|entries| - 1], entries[|entries| - 1];
            Carried(entries, parent, p) <==>
              Carried(front, parent, p) || (!Skips(e, parent) && e.offset <= p < e.offset + e.size)
  {
    var front := entries[..|entries| - 1];
    if Carried(front, parent, p) {
      var i :| 0 <= i < |front| && !Skips(front[i], parent) && front[i].offset <= p < front[i].offset + front[i].size;
      assert entries[i] == front[i];
    }
  }

  lemma {:induction false} ApplyOne(before: Bytes, e: Entry, patch: Bytes, data: Bytes, p: nat)
    requires e.offset + e.size <= |before| && |data| == e.size && p < |before|
    ensures var r := ApplyRecord(before, Record(e.ptr, e.size, e.offset, |patch|), patch + data);
            r.Some? && r.value[p] == if e.offset <= p < e.offset + e.size then data[p - e.offset] else before[p]
  {
    RecordAt(before, Record(e.ptr, e.size, e.offset, |patch|), patch + data, p);
  }

  /** One more carried chunk. */
  lemma {:induction false} CarryOne(buf: Bytes, recs: seq<Record>, patch: Bytes, e: Entry, data: Bytes, p: nat)
    requires Patched(buf, recs, patch).Some? && e.offset + e.size <= |buf| && |data| == e.size && p < |buf|
    ensures var r := Patched(buf, recs + [Record(e.ptr, e.size, e.offset, |patch|)], patch + data);
            r.Some? && r.value[p] == if e.offset <= p < e.offset + e.size then data[p - e.offset]
                                     else Patched(buf, recs, patch).value[p]
  {
    var r, longer, before := Record(e.ptr, e.size, e.offset, |patch|), patch + data, Patched(buf, recs, patch).value;
    PatchedExtends(buf, recs, patch, data);
    PatchedSnoc(buf, recs, r, longer);
    assert Patched(buf, recs + [r], longer) == ApplyRecord(before, r, longer);
    ApplyOne(before, e, patch, data, p);
  }

  lemma {:induction false} CarriedBound(entries: seq<Entry>, parent: map<nat, Entry>, size: nat, p: nat)
    requires CarriedInside(entries, parent, size)
    ensures Carried(entries, parent, p) ==> p < size
  {
  }

  /** The reconstruction never fails on records of its own making; a carried position holds the child's
      byte and any other one what the resized parent had. */
  lemma {:induction false} PatchedByte(buf: Bytes, entries: seq<Entry>, parent: map<nat, Entry>, buffer: Bytes, p: nat)
    requires CarriedInside(entries, parent, |buffer|) && CarriedInside(entries, parent, |buf|)
    requires p < |buf| && (Carried(entries, parent, p) ==> p < |buffer|)
    ensures var (recs, patch) := Diff(entries, parent, buffer);
            var r := Patched(buf, recs, patch);
            r.Some? && r.value[p] == if Carried(entries, parent, p) then buffer[p] else buf[p]
  {
    if entries != [] {
      var front, e := entries[..|entries| - 1], entries[|entries| - 1];
      CarriedSnoc(entries, parent, p);
      PatchedByte(buf, front, parent, buffer, p);
      var (recs, patch) := Diff(front, parent, buffer);
      if !Skips(e, parent) {
        CarryOne(buf, recs, patch, e, Range(buffer, e), p);
      }
    }
  }

  lemma {:induction false} PatchedSucceeds(buf: Bytes, entries: seq<Entry>, parent: map<nat, Entry>, buffer: Bytes)
    requires CarriedInside(entries, parent, |buffer|) && CarriedInside(entries, parent, |buf|)
    ensures var (recs, patch) := Diff(entries, parent, buffer); Patched(buf, recs, patch).Some?
  {
    if entries != [] {
      var front, e := entries[..|entries| - 1], entries[|entries| - 1];
      PatchedSucceeds(buf, front, parent, buffer);
      var (recs, patch) := Diff(front, parent, buffer);
      if !Skips(e, parent) {
        PatchedExtends(buf, recs, patch, Range(buffer, e));
        PatchedSnoc(buf, recs, Record(e.ptr, e.size, e.offset, |patch|), patch + Range(buffer, e));
      }
    }
  }

  lemma {:induction false} RecordAt(buf: Bytes, r: Record, patch: Bytes, p: nat)
    requires r.deviceOff + r.size <= |buf| && r.patchOff + r.size <= |patch| && p < |buf|
    ensures ApplyRecord(buf, r, patch).value[p] ==
            if r.deviceOff <= p < r.deviceOff + r.size then patch[r.patchOff + (p - r.deviceOff)] else buf[p]
  {
  }

  lemma {:induction false} PatchedSnoc(buf: Bytes, recs: seq<Record>, r: Record, patch: Bytes)
    requires Patched(buf, recs, patch).Some?
    ensures Patched(buf, recs + [r], patch) == ApplyRecord(Patched(buf, recs, patch).value, r, patch)
  {
    assert (recs + [r])[..|recs|] == recs;
  }

  lemma {:induction false} MaxEndTiled(entries: seq<Entry>, total: nat)
    requires Tiled(entries, total)
    ensures MaxEnd(entries) == total && Inside(entries, total)
  {
    forall i | 0 <= i < |entries| ensures entries[i].offset + entries[i].size <= total {
      TiledInside(entries, total, i, i);
    }
    MaxEndBounds(entries, total);
  }

  lemma {:induction false} MaxEndBounds(entries: seq<Entry>, bound: nat)
    requires Inside(entries, bound)
    ensures MaxEnd(entries) <= bound
    ensures entries != [] ==> MaxEnd(entries) >= entries[|entries| - 1].offset + entries[|entries| - 1].size
  {
    if entries != [] {
      MaxEndBounds(entries[..|entries| - 1], bound);
    }
  }

  lemma {:induction false} MaxEndCovers(entries: seq<Entry>)
    ensures Inside(entries, MaxEnd(entries))
  {
    if entries != [] {
      MaxEndCovers(entries[..|entries| - 1]);
      forall i | 0 <= i < |entries| ensures entries[i].offset + entries[i].size <= MaxEnd(entries) {
        assert i < |entries| - 1 ==> entries[i] == entries[..|entries| - 1][i];
      }
    }
  }

  /** What reconstruction needs of the parent: the chunks end where the child's device.bin does, and at
      every position that no carried chunk covers the resized parent has the child's byte. */
  ghost predicate ParentServes(entries: seq<Entry>, parent: map<nat, Entry>, base: Bytes, device: Bytes)
  {
    && MaxEnd(entries) == |device|
    && forall p | 0 <= p < |device| && !Carried(entries, parent, p) :: Resize(base, |device|)[p] == device[p]
  }

  /** For any manifest whatever, a delta that can be written is rebuilt without failing, and the result is
      the child's device.bin if and only if the parent serves. */
  lemma {:induction false} DeltaExact(entries: seq<Entry>, parent: map<nat, Entry>, base: Bytes, device: Bytes,
                                      spare: Bytes)
    requires CarriedInside(entries, parent, |device + spare|)
    ensures var (recs, patch) := Diff(entries, parent, device + spare);
            var r := Rebuild(base, entries, recs, patch);
            && r.Some? && |r.value| == MaxEnd(entries)
            && (r == Some(device) <==> ParentServes(entries, parent, base, device))
  {
    var buffer, sized := device + spare, Resize(base, MaxEnd(entries));
    MaxEndCovers(entries);
    PatchedSucceeds(sized, entries, parent, buffer);
    var (recs, patch) := Diff(entries, parent, buffer);
    var r := Patched(sized, recs, patch).value;
    if MaxEnd(entries) == |device| {
      forall p | 0 <= p < |device|
        ensures r[p] == device[p] <==> Carried(entries, parent, p) || sized[p] == device[p]
      {
        CarriedBound(entries, parent, |buffer|, p);
        PatchedByte(sized, entries, parent, buffer, p);
      }
      if ParentServes(entries, parent, base, device) { assert r == device; }
    }
  }

  // ---------- another parent ----------

  /** Some record writes to position p. */
  ghost predicate Covered(recs: seq<Record>, p: nat)
  {
    exists i | 0 <= i < |recs| :: recs[i].deviceOff <= p < recs[i].deviceOff + recs[i].size
  }

  /** Whether the records fit does not depend on the contents of the buffer. */
  lemma {:induction false} PatchedTogether(a: Bytes, b: Bytes, recs: seq<Record>, patch: Bytes)
    requires |a| == |b|
    ensures Patched(a, recs, patch).Some? <==> Patched(b, recs, patch).Some?
  {
    if recs != [] {
      PatchedTogether(a, b, recs[..|recs| - 1], patch);
    }
  }

  lemma {:induction false} CoveredSnoc(recs: seq<Record>, p: nat)
    requires recs != []
    ensures var last := recs[|recs| - 1];
            Covered(recs, p) <==> Covered(recs[..|recs| - 1], p) || last.deviceOff <= p < last.deviceOff + last.size
  {
    var front := recs[..|recs| - 1];
    if Covered(front, p) {
      var i :| 0 <= i < |front| && front[i].deviceOff <= p < front[i].deviceOff + front[i].size;
      assert recs[i] == front[i];
    }
  }

  /** The same records in two buffers: the results differ where the buffers do and no record writes. */
  lemma {:induction false} PatchedDiffers(a: Bytes, b: Bytes, recs: seq<Record>, patch: Bytes, p: nat)
    requires |a| == |b| && p < |a| && Patched(a, recs, patch).Some? && Patched(b, recs, patch).Some?
    ensures Patched(a, recs, patch).value[p] == Patched(b, recs, patch).value[p] <==> Covered(recs, p) || a[p] == b[p]
  {
    if recs != [] {
      var front, last := recs[..|recs| - 1], recs[|recs| - 1];
      PatchedDiffers(a, b, front, patch, p);
      CoveredSnoc(recs, p);
      RecordAt(Patched(a, front, patch).value, last, patch, p);
      RecordAt(Patched(b, front, patch).value, last, patch, p);
    }
  }

  /** A delta that can be rebuilt gives the same contents on two parents if and only if they agree, once
      resized, wherever it does not write. */
  lemma {:induction false} RebuildAgreesIff(base: Bytes, other: Bytes, entries: seq<Entry>, recs: seq<Record>,
                                            patch: Bytes)
    requires Rebuild(base, entries, recs, patch).Some?
    ensures Rebuild(other, entries, recs, patch) == Rebuild(base, entries, recs, patch) <==>
            forall p | 0 <= p < MaxEnd(entries) && !Covered(recs, p) ::
              Resize(other, MaxEnd(entries))[p] == Resize(base, MaxEnd(entries))[p]
  {
    var a, b := Resize(base, MaxEnd(entries)), Resize(other, MaxEnd(entries));
    PatchedTogether(a, b, recs, patch);
    var x, y := Patched(a, recs, patch).value, Patched(b, recs, patch).value;
    forall p | 0 <= p < MaxEnd(entries) ensures x[p] == y[p] <==> Covered(recs, p) || a[p] == b[p] {
      PatchedDiffers(a, b, recs, patch, p);
    }
    if forall p | 0 <= p < MaxEnd(entries) && !Covered(recs, p) :: b[p] == a[p] {
      assert x == y;
    }
  }

  // ---------- skipped chunks ----------

  /** Every skipped chunk has the parent's bytes at its own offset, after resizing the parent. */
  ghost predicate SkippedAgree(entries: seq<Entry>, parent: map<nat, Entry>, base: Bytes, device: Bytes)
    requires Inside(entries, |device|)
  {
    forall i | 0 <= i < |entries| && Skips(entries[i], parent) ::
      Range(Resize(base, |device|), entries[i]) == Range(device, entries[i])
  }

  /** For a tiled manifest the parent serves if and only if the skipped chunks agree with it at the child's
      offsets. */
  lemma {:induction false} TiledServes(entries: seq<Entry>, parent: map<nat, Entry>, base: Bytes, device: Bytes)
    requires Tiled(entries, |device|)
    ensures Inside(entries, |device|)
    ensures ParentServes(entries, parent, base, device) <==> SkippedAgree(entries, parent, base, device)
  {
    MaxEndTiled(entries, |device|);
    if SkippedAgree(entries, parent, base, device) {
      forall p | 0 <= p < |device| && !Carried(entries, parent, p) ensures Resize(base, |device|)[p] == device[p] {
        PositionAgrees(entries, parent, base, device, p);
      }
    }
    if ParentServes(entries, parent, base, device) {
      forall i | 0 <= i < |entries| && Skips(entries[i], parent)
        ensures Range(Resize(base, |device|), entries[i]) == Range(device, entries[i])
      {
        ServedRange(entries, parent, base, device, i);
      }
    }
  }

  lemma {:induction false} ServedRange(entries: seq<Entry>, parent: map<nat, Entry>, base: Bytes, device: Bytes, i: nat)
    requires Tiled(entries, |device|) && Inside(entries, |device|) && ParentServes(entries, parent, base, device)
    requires i < |entries| && Skips(entries[i], parent)
    ensures Range(Resize(base, |device|), entries[i]) == Range(device, entries[i])
  {
    var sized := Resize(base, |device|);
    forall p | entries[i].offset <= p < entries[i].offset + entries[i].size ensures sized[p] == device[p] {
      NotCarriedInSkipped(entries, parent, |device|, i, p);
    }
  }

  /** Nothing is carried exactly when every chunk is skipped. */
  lemma {:induction false} EmptyDiffIff(entries: seq<Entry>, parent: map<nat, Entry>, buffer: Bytes)
    requires CarriedInside(entries, parent, |buffer|)
    ensures Diff(entries, parent, buffer).0 == [] <==> forall i | 0 <= i < |entries| :: Skips(entries[i], parent)
  {
    if entries != [] {
      EmptyDiffIff(entries[..|entries| - 1], parent, buffer);
    }
  }

  lemma {:induction false} PositionAgrees(entries: seq<Entry>, parent: map<nat, Entry>, base: Bytes, device: Bytes,
                                          p: nat)
    requires Tiled(entries, |device|) && Inside(entries, |device|) && p < |device|
    requires SkippedAgree(entries, parent, base, device) && !Carried(entries, parent, p)
    ensures Resize(base, |device|)[p] == device[p]
  {
    var h := TiledCovers(entries, |device|, p, 0);
    var e := entries[h];
    assert Skips(e, parent);
    assert Range(Resize(base, |device|), e)[p - e.offset] == Range(device, e)[p - e.offset];
  }

  lemma {:induction false} NotCarriedInSkipped(entries: seq<Entry>, parent: map<nat, Entry>, total: nat, i: nat, p: nat)
    requires Tiled(entries, total) && i < |entries| && Skips(entries[i], parent)
    requires entries[i].offset <= p < entries[i].offset + entries[i].size
    ensures !Carried(entries, parent, p)
  {
    forall h | 0 <= h < |entries| && entries[h].offset <= p < entries[h].offset + entries[h].size ensures h == i {
      if h < i { TiledInside(entries, total, h, i); }
      if i < h { TiledInside(entries, total, i, h); }
    }
  }

  /** A sufficient case: each skipped chunk sits at the offset it has in the parent, whose bytes there
      are the same. */
  lemma {:induction false} UnmovedChunksAgree(entries: seq<Entry>, parent: map<nat, Entry>, base: Bytes, device: Bytes)
    requires Inside(entries, |device|)
    requires forall i | 0 <= i < |entries| && Skips(entries[i], parent) ::
      var pe := parent[entries[i].ptr];
      && pe.offset == entries[i].offset && pe.offset + pe.size <= |base|
      && Range(base, pe) == Range(device, entries[i])
    ensures SkippedAgree(entries, parent, base, device)
  {
    forall i | 0 <= i < |entries| && Skips(entries[i], parent)
      ensures Range(Resize(base, |device|), entries[i]) == Range(device, entries[i])
    {
      assert Range(Resize(base, |device|), entries[i]) == Range(base, parent[entries[i].ptr]);
    }
  }

  /** The parent's chunks of the example: one byte each at pointers 16 and 32. */
  function MovedParent(): seq<Entry>
  {
    [Entry(16, 1, 0, 101, 1, []), Entry(32, 1, 1, 102, 2, [])]
  }

  /** The child lost the first chunk and got a new one, so the second one, unchanged, now starts at 0. */
  function MovedChild(): seq<Entry>
  {
    [Entry(32, 1, 0, 102, 2, []), Entry(48, 1, 1, 103, 3, [])]
  }

  lemma {:induction false} MovedByPtr()
    ensures ByPtr(MovedParent()) == map[16 := MovedParent()[0]][32 := MovedParent()[1]]
  {
    var parents := MovedParent();
    assert parents[..1] == [parents[0]] && parents[..1][..0] == [] && ByPtr([]) == map[];
    assert ByPtr(parents[..1]) == map[16 := parents[0]];
  }

  /** A chunk that moved breaks the reconstruction: the new chunk is carried, so a delta is written, but the
      skipped one is taken from the parent's bytes at its new offset. */
  lemma {:induction false} MovedChunkIsLost()
    ensures var base, device: Bytes := [1, 2], [2, 5];
            var parent, entries := ByPtr(MovedParent()), MovedChild();
            && Tiled(entries, |device|) && CarriedInside(entries, parent, |device|)
            && Diff(entries, parent, device).0 != []
            && !ParentServes(entries, parent, base, device)
            && Rebuild(base, entries, Diff(entries, parent, device).0, Diff(entries, parent, device).1) != Some(device)
  {
    var base, device: Bytes := [1, 2], [2, 5];
    var parent, entries := ByPtr(MovedParent()), MovedChild();
    MovedByPtr();
    assert Skips(entries[0], parent) && !Skips(entries[1], parent);
    EmptyDiffIff(entries, parent, device);
    TiledServes(entries, parent, base, device);
    assert Resize(base, 2)[0] == 1;
    assert Range(Resize(base, 2), entries[0])[0] != Range(device, entries[0])[0];
    assert device + [] == device;
    DeltaExact(entries, parent, base, device, []);
  }
}
