/** CompareImages of pkg/control/drift.go. */
module Drift {
  import opened Bytes
  import opened Format
  import opened Delta
  import opened MetaFile

  datatype Row =
    | FlagsDiffer(left: Flags, right: Flags)
    | CountDiffers(leftCount: nat, rightCount: nat)
    | DevDiffers(leftDev: nat, rightDev: nat)
    | VisibleDiffers(leftVisible: Bytes, rightVisible: Bytes)
    | Missing(ptr: nat, size: nat)
    | SizeDiffers(ptr: nat, leftSize: nat, rightSize: nat)
    | CrcDiffers(ptr: nat, leftCrc: nat, rightCrc: nat)

  datatype Report = Report(manifest: seq<Row>, meta: seq<Row>, flags: seq<Row>)

  /** The row says something that is so. */
  ghost predicate Truthful(row: Row, left: Manifest, right: Manifest)
  {
    var byPtr := ByPtr(right.entries);
    match row
    case FlagsDiffer(l, r) => l == left.flags && r == right.flags && l != r
    case CountDiffers(l, r) => l == |left.entries| && r == |right.entries| && l != r
    case Missing(p, size) =>
      p !in byPtr && exists i | 0 <= i < |left.entries| :: left.entries[i].ptr == p && left.entries[i].size == size
    case SizeDiffers(p, l, r) =>
      p in byPtr && byPtr[p].size == r && l != r
      && exists i | 0 <= i < |left.entries| :: left.entries[i].ptr == p && left.entries[i].size == l
    case CrcDiffers(p, l, r) =>
      p in byPtr && byPtr[p].crc == r && l != r
      && exists i | 0 <= i < |left.entries| :: left.entries[i].ptr == p && left.entries[i].crc == l
    case _ => false
  }

  /** Only as many left entries are looked at as there are right ones. */
  ghost predicate AllMatched(left: seq<Entry>, right: seq<Entry>)
  {
    forall i | 0 <= i < |left| && i < |right| :: Skips(left[i], ByPtr(right))
  }

  /** Whatever is wrong with this left entry has its row. */
  ghost predicate Reported(rows: seq<Row>, a: Entry, byPtr: map<nat, Entry>)
  {
    if a.ptr !in byPtr then Missing(a.ptr, a.size) in rows else
      && (a.size != byPtr[a.ptr].size ==> SizeDiffers(a.ptr, a.size, byPtr[a.ptr].size) in rows)
      && (a.crc != byPtr[a.ptr].crc ==> CrcDiffers(a.ptr, a.crc, byPtr[a.ptr].crc) in rows)
  }

  /** The rows are true, and of the left entries looked at every difference has its row. */
  method CompareEntries(left: Manifest, right: Manifest) returns (rows: seq<Row>)
    ensures rows == [] <==> AllMatched(left.entries, right.entries)
    ensures forall r | r in rows :: Truthful(r, left, right) && (r.Missing? || r.SizeDiffers? || r.CrcDiffers?)
    ensures forall i | 0 <= i < |left.entries| && i < |right.entries| ::
              Reported(rows, left.entries[i], ByPtr(right.entries))
  {
    var byPtr := MakeByPtr(right.entries);
    rows := [];
    var n := if |right.entries| < |left.entries| then |right.entries| else |left.entries|;
    for i := 0 to n
      invariant rows == [] <==> forall h | 0 <= h < i :: Skips(left.entries[h], byPtr)
      invariant forall r | r in rows :: Truthful(r, left, right) && (r.Missing? || r.SizeDiffers? || r.CrcDiffers?)
      invariant forall h | 0 <= h < i :: Reported(rows, left.entries[h], byPtr)
    {
      var a := left.entries[i];
      if a.ptr !in byPtr {
        rows := rows + [Missing(a.ptr, a.size)];
        continue;
      }
      var b := byPtr[a.ptr];
      if a.size != b.size { rows := rows + [SizeDiffers(a.ptr, a.size, b.size)]; }
      if a.crc != b.crc { rows := rows + [CrcDiffers(a.ptr, a.crc, b.crc)]; }
    }
  }

  /** The row says something that is so of the two records. */
  ghost predicate TruthfulMeta(row: Row, left: Meta, right: Meta)
  {
    match row
    case DevDiffers(l, r) => l == left.dev && r == right.dev && l != r
    case VisibleDiffers(l, r) => l == left.visible && r == right.visible && l != r
    case _ => false
  }

  /** Every row is true of the two images, every difference looked for has its row, and there is none exactly
      when flags, counts and the entries looked at agree.  Meta drift is looked for only if both records could
      be read. */
  method CompareImages(left: Option<Manifest>, right: Option<Manifest>, leftMeta: Option<Meta>, rightMeta: Option<Meta>)
    returns (report: Option<Report>)
    ensures report.Some? <==> left.Some? && right.Some?
    ensures report.Some? ==>
      && (report.value.flags == [] <==> left.value.flags == right.value.flags)
      && (report.value.manifest == [] <==> NoManifestDrift(left.value.entries, right.value.entries))
      && (report.value.meta == [] <==>
            leftMeta.None? || rightMeta.None?
            || (leftMeta.value.dev == rightMeta.value.dev && leftMeta.value.visible == rightMeta.value.visible))
      && (forall r | r in report.value.manifest + report.value.flags :: Truthful(r, left.value, right.value))
      && (|left.value.entries| != |right.value.entries| ==>
            CountDiffers(|left.value.entries|, |right.value.entries|) in report.value.manifest)
      && (forall i | 0 <= i < |left.value.entries| && i < |right.value.entries| ::
            Reported(report.value.manifest, left.value.entries[i], ByPtr(right.value.entries)))
    ensures report.Some? && leftMeta.Some? && rightMeta.Some? ==>
      && (forall r | r in report.value.meta :: TruthfulMeta(r, leftMeta.value, rightMeta.value))
      && (leftMeta.value.dev != rightMeta.value.dev ==>
            DevDiffers(leftMeta.value.dev, rightMeta.value.dev) in report.value.meta)
      && (leftMeta.value.visible != rightMeta.value.visible ==>
            VisibleDiffers(leftMeta.value.visible, rightMeta.value.visible) in report.value.meta)
  {
    if left.None? || right.None? { return None; }
    var flags, manifest, meta := [], [], [];
    if left.value.flags != right.value.flags { flags := [FlagsDiffer(left.value.flags, right.value.flags)]; }
    if |left.value.entries| != |right.value.entries| {
      manifest := [CountDiffers(|left.value.entries|, |right.value.entries|)];
    }
    if leftMeta.Some? && rightMeta.Some? {
      if leftMeta.value.dev != rightMeta.value.dev {
        meta := meta + [DevDiffers(leftMeta.value.dev, rightMeta.value.dev)];
      }
      if leftMeta.value.visible != rightMeta.value.visible {
        meta := meta + [VisibleDiffers(leftMeta.value.visible, rightMeta.value.visible)];
      }
    }
    var rows := CompareEntries(left.value, right.value);
    report := Some(Report(manifest + rows, meta, flags));
  }

  // ---------- what an empty report means ----------

  /** The loop's condition for an empty manifest part of the report. */
  ghost predicate NoManifestDrift(left: seq<Entry>, right: seq<Entry>)
  {
    |left| == |right| && AllMatched(left, right)
  }

  ghost predicate DistinctPtrs(entries: seq<Entry>)
  {
    forall i, j | 0 <= i < j < |entries| :: entries[i].ptr != entries[j].ptr
  }

  ghost function Ptrs(entries: seq<Entry>): set<nat>
  {
    set i | 0 <= i < |entries| :: entries[i].ptr
  }

  /** A manifest as a map from pointer to size and checksum. */
  ghost function AsMap(entries: seq<Entry>): map<nat, (nat, nat)>
  {
    var m := ByPtr(entries);
    map p | p in m :: (m[p].size, m[p].crc)
  }

  lemma {:induction false} ByPtrKeys(entries: seq<Entry>)
    ensures ByPtr(entries).Keys == Ptrs(entries)
  {
    if entries != [] {
      ByPtrKeys(entries[..|entries| - 1]);
      assert Ptrs(entries) == Ptrs(entries[..|entries| - 1]) + {entries[|entries| - 1].ptr};
    }
  }

  lemma {:induction false} ByPtrOfDistinct(entries: seq<Entry>, i: nat)
    requires DistinctPtrs(entries) && i < |entries|
    ensures entries[i].ptr in ByPtr(entries) && ByPtr(entries)[entries[i].ptr] == entries[i]
  {
    if i < |entries| - 1 {
      ByPtrOfDistinct(entries[..|entries| - 1], i);
    }
  }

  lemma {:induction false} DistinctSnoc(entries: seq<Entry>)
    requires entries != []
    ensures var front, last := entries[..|entries| - 1], entries[|entries| - 1];
            && Ptrs(entries) == Ptrs(front) + {last.ptr}
            && (DistinctPtrs(entries) <==> DistinctPtrs(front) && last.ptr !in Ptrs(front))
  {
    var front, last := entries[..|entries| - 1], entries[|entries| - 1];
    if DistinctPtrs(front) && last.ptr !in Ptrs(front) {
      forall i | 0 <= i < |front| ensures entries[i].ptr != last.ptr {
        assert front[i].ptr in Ptrs(front);
      }
    }
  }

  lemma {:induction false} PtrCount(entries: seq<Entry>)
    ensures |Ptrs(entries)| <= |entries|
    ensures DistinctPtrs(entries) <==> |Ptrs(entries)| == |entries|
  {
    if entries != [] {
      var front, last := entries[..|entries| - 1], entries[|entries| - 1];
      PtrCount(front);
      DistinctSnoc(entries);
      if last.ptr in Ptrs(front) { assert Ptrs(entries) == Ptrs(front); }
    }
  }

  lemma {:induction false} SubsetOfSameSize(a: set<nat>, b: set<nat>)
    requires a <= b && |b| <= |a|
    ensures a == b
  {
    if x :| x in b && x !in a {
      SubsetSize(a, b - {x});
      assert false;
    }
  }

  lemma {:induction false} SubsetSize(a: set<nat>, b: set<nat>)
    requires a <= b
    ensures |a| <= |b|
  {
    if a != {} {
      var x :| x in a;
      SubsetSize(a - {x}, b - {x});
    }
  }

  /** With distinct pointers on the left, no manifest drift means that both manifests hold the same
      chunks; looking from the left is enough, because the counts are equal. */
  lemma {:induction false} NoDriftIffSameMap(left: seq<Entry>, right: seq<Entry>)
    requires DistinctPtrs(left)
    ensures NoManifestDrift(left, right) <==> |left| == |right| && AsMap(left) == AsMap(right)
    ensures NoManifestDrift(left, right) ==> DistinctPtrs(right)
  {
    ByPtrKeys(left);
    ByPtrKeys(right);
    forall i | 0 <= i < |left| { ByPtrOfDistinct(left, i); }
    if NoManifestDrift(left, right) {
      PtrCount(left);
      PtrCount(right);
      SubsetOfSameSize(Ptrs(left), Ptrs(right));
      forall p | p in Ptrs(left) ensures AsMap(left)[p] == AsMap(right)[p] {
        var i :| 0 <= i < |left| && left[i].ptr == p;
        assert Skips(left[i], ByPtr(right));
      }
      assert AsMap(left).Keys == AsMap(right).Keys;
    }
    if |left| == |right| && AsMap(left) == AsMap(right) {
      forall i | 0 <= i < |left| ensures Skips(left[i], ByPtr(right)) {
        assert left[i].ptr in AsMap(left);
        assert AsMap(left)[left[i].ptr] == AsMap(right)[left[i].ptr];
      }
    }
  }

  /** With distinct pointers on both sides the counts need no mention, and the verdict is symmetric. */
  lemma {:induction false} NoDriftIsSymmetric(left: seq<Entry>, right: seq<Entry>)
    requires DistinctPtrs(left) && DistinctPtrs(right)
    ensures NoManifestDrift(left, right) <==> AsMap(left) == AsMap(right)
    ensures NoManifestDrift(left, right) <==> NoManifestDrift(right, left)
  {
    NoDriftIffSameMap(left, right);
    NoDriftIffSameMap(right, left);
    if AsMap(left) == AsMap(right) {
      ByPtrKeys(left);
      ByPtrKeys(right);
      assert Ptrs(left) == AsMap(left).Keys && Ptrs(right) == AsMap(right).Keys;
      PtrCount(left);
      PtrCount(right);
    }
  }

  /** Without distinct pointers on the left the report can be empty although the right manifest has a
      chunk that the left one lacks. */
  lemma {:induction false} RepeatedPointersHideDrift(a: Entry, b: Entry)
    requires a.ptr != b.ptr
    ensures NoManifestDrift([a, a], [a, b]) && AsMap([a, a]) != AsMap([a, b])
    ensures !NoManifestDrift([a, b], [a, a])
  {
    ByPtrKeys([a, a]);
    ByPtrKeys([a, b]);
    assert DistinctPtrs([a, b]);
    ByPtrOfDistinct([a, b], 0);
    assert [a, b][1].ptr in Ptrs([a, b]) && b.ptr !in Ptrs([a, a]);
    assert b.ptr in AsMap([a, b]) && b.ptr !in AsMap([a, a]);
    assert !Skips([a, b][1], ByPtr([a, a]));
  }

  // ---------- repeated pointers ----------

  /** Entries that share a pointer agree. */
  ghost predicate RepeatsAgree(entries: seq<Entry>)
  {
    forall i, j | 0 <= i < j < |entries| && entries[i].ptr == entries[j].ptr ::
      entries[i].size == entries[j].size && entries[i].crc == entries[j].crc
  }

  lemma {:induction false} ByPtrIsMember(entries: seq<Entry>, p: nat) returns (i: nat)
    requires p in ByPtr(entries)
    ensures i < |entries| && entries[i].ptr == p && ByPtr(entries)[p] == entries[i]
  {
    var n := |entries| - 1;
    if entries[n].ptr == p { i := n; } else { i := ByPtrIsMember(entries[..n], p); }
  }

  /** Without drift every pointer of the left manifest is on the right with the same size and checksum. */
  lemma {:induction false} NoDriftMatchesLeft(left: seq<Entry>, right: seq<Entry>)
    requires NoManifestDrift(left, right)
    ensures RepeatsAgree(left) && Ptrs(left) <= Ptrs(right)
    ensures forall p | p in AsMap(left) :: p in AsMap(right) && AsMap(left)[p] == AsMap(right)[p]
  {
    ByPtrKeys(left);
    ByPtrKeys(right);
    forall i | 0 <= i < |left| ensures Skips(left[i], ByPtr(right)) {}
    forall p | p in AsMap(left) ensures p in AsMap(right) && AsMap(left)[p] == AsMap(right)[p] {
      var i := ByPtrIsMember(left, p);
      assert Skips(left[i], ByPtr(right));
    }
  }

  /** What an empty manifest part means for any two manifests: they hold the same chunks if and only if
      the right one has no pointer that the left one lacks. */
  lemma {:induction false} NoDriftMeans(left: seq<Entry>, right: seq<Entry>)
    requires NoManifestDrift(left, right)
    ensures AsMap(left) == AsMap(right) <==> Ptrs(right) <= Ptrs(left)
  {
    NoDriftMatchesLeft(left, right);
    ByPtrKeys(left);
    ByPtrKeys(right);
    assert AsMap(left).Keys == Ptrs(left) && AsMap(right).Keys == Ptrs(right);
    if Ptrs(right) <= Ptrs(left) {
      assert AsMap(left).Keys == AsMap(right).Keys;
    }
  }

  /** Some right manifest passes without drift although it holds other chunks. */
  ghost predicate CanBeFooled(left: seq<Entry>)
  {
    exists right :: NoManifestDrift(left, right) && AsMap(left) != AsMap(right)
  }

  lemma {:induction false} FreshPtr(entries: seq<Entry>) returns (p: nat)
    ensures p !in Ptrs(entries) && p <= |entries|
  {
    UpToSize(|entries|);
    PtrCount(entries);
    if UpTo(|entries|) <= Ptrs(entries) {
      SubsetSize(UpTo(|entries|), Ptrs(entries));
      assert false;
    }
    p :| p in UpTo(|entries|) && p !in Ptrs(entries);
  }

  ghost function UpTo(n: nat): (r: set<nat>)
    ensures forall p | p in r :: p <= n
  {
    if n == 0 then {0} else UpTo(n - 1) + {n}
  }

  lemma {:induction false} UpToSize(n: nat)
    ensures |UpTo(n)| == n + 1
  {
    if n > 0 {
      UpToSize(n - 1);
    }
  }

  /** The repeat at j gives way to a chunk at a pointer that the left manifest does not have. */
  lemma {:induction false} RepeatCanHide(left: seq<Entry>, i: nat, j: nat)
    requires RepeatsAgree(left) && i < |left| && j < |left| && i != j && left[i].ptr == left[j].ptr
    ensures CanBeFooled(left)
  {
    var p := FreshPtr(left);
    var right := left[j := left[j].(ptr := p)];
    ByPtrKeys(left);
    ByPtrKeys(right);
    forall k | 0 <= k < |left| ensures Skips(left[k], ByPtr(right)) {
      var h := if k == j then i else k;
      assert right[h].ptr == left[k].ptr && right[h].ptr in Ptrs(right);
      var m := ByPtrIsMember(right, left[k].ptr);
      assert m != j && right[m] == left[m];
      assert left[m].ptr == left[k].ptr;
    }
    assert right[j].ptr in Ptrs(right) && p in AsMap(right) && p !in AsMap(left);
    assert NoManifestDrift(left, right) && AsMap(left) != AsMap(right);
  }

  /** The left manifests for which an empty report can mislead: exactly those with repeated pointers whose
      repeats all agree.  Repeats that disagree always give a row. */
  lemma {:induction false} FooledIff(left: seq<Entry>)
    ensures CanBeFooled(left) <==> !DistinctPtrs(left) && RepeatsAgree(left)
  {
    if CanBeFooled(left) {
      var right :| NoManifestDrift(left, right) && AsMap(left) != AsMap(right);
      NoDriftMatchesLeft(left, right);
      if DistinctPtrs(left) { NoDriftIffSameMap(left, right); }
    }
    if !DistinctPtrs(left) && RepeatsAgree(left) {
      var i, j :| 0 <= i < j < |left| && left[i].ptr == left[j].ptr;
      RepeatCanHide(left, i, j);
    }
  }
}
