/** Image directories and their materialisation (pkg/image/compress.go, pkg/image/delta.go).  An image is
    the set of files of its directory; absent files are None. */
module ImageStore {
  import opened Bytes
  import opened Format
  import opened Delta
  import opened Sparse
  import opened MetaFile

  type Path = string

  /** delta.bin */
  datatype DeltaFile = DeltaFile(parent: Path, recs: seq<Record>)

  datatype Image = Image(manifest: Option<Manifest>, device: Option<Bytes>, zst: Option<Bytes>,
                         delta: Option<DeltaFile>, patch: Option<Bytes>, sparse: Option<seq<Run>>,
                         listing: Option<string>, cas: map<Bytes, Bytes>,
                         dev: Option<nat>, meta: Option<Meta>, criu: bool, complete: bool)

  type Store = map<Path, Image>

  function Lookup(s: Store, d: Path): Option<Image>
  {
    if d in s then Some(s[d]) else None
  }

  /** The compressor, as a pair of functions. */
  datatype Zstd = Zstd(enc: Bytes -> Bytes, dec: Bytes -> Option<Bytes>)

  ghost predicate Lossless(z: Zstd)
  {
    forall b :: z.dec(z.enc(b)) == Some(b)
  }

  // ---------- what an image stands for ----------

  /** The parent that materialisation will consult. */
  function Link(img: Image): Option<Path>
  {
    if img.manifest.Some? && img.manifest.value.flags.delta && img.delta.Some? then Some(img.delta.value.parent)
        else None
  }

  function ParentOf(s: Store, d: Path): Option<Path>
  {
    if d in s then Link(s[d]) else None
  }

  /** What the delta of an image rebuilds from the contents of its parent. */
  function Rebuilt(img: Image, base: Option<Bytes>): Option<Bytes>
  {
    if Link(img).Some? && base.Some? && img.patch.Some? then
      Rebuild(base.value, img.manifest.value.entries, img.delta.value.recs, img.patch.value)
    else None
  }

  /** The device contents an image stands for, given those of its parent. */
  function Own(z: Zstd, img: Image, base: Option<Bytes>): Option<Bytes>
  {
    if img.manifest.None? then None
    else if Link(img).Some? && Rebuilt(img, base).None? then None
    else if img.manifest.value.flags.compressed then (if img.zst.Some? then z.dec(img.zst.value) else None)
    else if Link(img).Some? then Rebuilt(img, base)
    else img.device
  }

  /** A measure that goes down along every parent link: the parent relation has no cycle. */
  ghost predicate Ranked(s: Store, rank: Path -> nat)
  {
    forall d | d in s && Link(s[d]).Some? :: rank(Link(s[d]).value) < rank(d)
  }

  ghost function Logical(z: Zstd, s: Store, rank: Path -> nat, d: Path): Option<Bytes>
    requires Ranked(s, rank)
    decreases rank(d)
  {
    if d !in s then None
    else Own(z, s[d], if Link(s[d]).Some? then Logical(z, s, rank, Link(s[d]).value) else None)
  }

  /** What the delta of image d rebuilds from what its parent stands for. */
  ghost function FromParent(z: Zstd, s: Store, rank: Path -> nat, d: Path): Option<Bytes>
    requires Ranked(s, rank)
  {
    if d in s && Link(s[d]).Some? then Rebuilt(s[d], Logical(z, s, rank, Link(s[d]).value)) else None
  }

  /** Where an image or one of its ancestors is both compressed and a delta, the two forms have the same
      contents.  An image with both flags stands for its compressed form until it is materialised, which
      clears the one flag, and for its delta from then on. */
  ghost predicate Harmonious(z: Zstd, s: Store, rank: Path -> nat, d: Path)
    requires Ranked(s, rank)
    decreases rank(d)
  {
    d in s && Link(s[d]).Some? ==>
      && Harmonious(z, s, rank, Link(s[d]).value)
      && (s[d].manifest.value.flags.compressed && Logical(z, s, rank, d).Some? ==>
            FromParent(z, s, rank, d) == Logical(z, s, rank, d))
  }

  /** An image and all its ancestors. */
  ghost function Chain(s: Store, rank: Path -> nat, d: Path): set<Path>
    requires Ranked(s, rank)
    decreases rank(d)
  {
    if d in s && Link(s[d]).Some? then {d} + Chain(s, rank, Link(s[d]).value) else {d}
  }

  /** Materialised, with all its ancestors. */
  ghost predicate Settled(z: Zstd, s: Store, rank: Path -> nat, d: Path)
    requires Ranked(s, rank)
    decreases rank(d)
  {
    && d in s && s[d].manifest.Some? && !s[d].manifest.value.flags.compressed
    && s[d].device.Some? && s[d].device == Logical(z, s, rank, d)
    && (Link(s[d]).Some? ==> Settled(z, s, rank, Link(s[d]).value))
  }

  /** What materialisation may change in one image: device.bin, and the compressed flag going off. */
  ghost predicate Refreshed(a: Image, b: Image)
  {
    && a == b.(device := a.device, manifest := a.manifest)
    && (b.manifest == a.manifest
        || (a.manifest.Some?
            && b.manifest == Some(a.manifest.value.(flags := a.manifest.value.flags.(compressed := false)))))
  }

  ghost predicate StoreRefreshed(s: Store, t: Store)
  {
    s.Keys == t.Keys && forall d | d in s :: Refreshed(s[d], t[d])
  }

  lemma {:induction false} RefreshedTransitive(s: Store, t: Store, u: Store)
    requires StoreRefreshed(s, t) && StoreRefreshed(t, u)
    ensures StoreRefreshed(s, u)
  {
    forall d | d in s ensures Refreshed(s[d], u[d]) {
      assert Refreshed(s[d], t[d]) && Refreshed(t[d], u[d]);
    }
  }

  // ---------- rankings ----------

  /** What depends on an image's chain depends on nothing else, and not on the ranking either. */
  lemma {:induction false} SameAlongChain(z: Zstd, s: Store, rank: Path -> nat, t: Store, next: Path -> nat, x: Path)
    requires Ranked(s, rank) && Ranked(t, next)
    requires forall y | y in Chain(s, rank, x) :: Lookup(t, y) == Lookup(s, y)
    ensures Logical(z, t, next, x) == Logical(z, s, rank, x) && Chain(t, next, x) == Chain(s, rank, x)
    ensures Harmonious(z, t, next, x) == Harmonious(z, s, rank, x)
    ensures Settled(z, t, next, x) == Settled(z, s, rank, x)
    decreases rank(x)
  {
    assert x in Chain(s, rank, x);
    assert Lookup(t, x) == Lookup(s, x);
    if x in s && Link(s[x]).Some? {
      SameAlongChain(z, s, rank, t, next, Link(s[x]).value);
    }
  }

  lemma {:induction false} SameParentsSameChain(s: Store, t: Store, rank: Path -> nat, x: Path)
    requires Ranked(s, rank) && Ranked(t, rank) && forall y :: ParentOf(t, y) == ParentOf(s, y)
    ensures Chain(t, rank, x) == Chain(s, rank, x)
    decreases rank(x)
  {
    assert ParentOf(t, x) == ParentOf(s, x);
    if x in s && Link(s[x]).Some? {
      SameParentsSameChain(s, t, rank, Link(s[x]).value);
    }
  }

  /** The parent relation has no cycle. */
  ghost predicate Acyclic(s: Store)
  {
    exists rank: Path -> nat :: Ranked(s, rank)
  }

  /** A ranking with d, and all that descends from it, lifted above another image. */
  ghost function Above(s: Store, rank: Path -> nat, d: Path, parent: Path): Path -> nat
    requires Ranked(s, rank)
  {
    (x: Path) => if d in Chain(s, rank, x) then rank(x) + rank(parent) + 1 else rank(x)
  }

  lemma {:induction false} AboveRanks(s: Store, rank: Path -> nat, d: Path, parent: Path)
    requires Ranked(s, rank)
    ensures Ranked(s, Above(s, rank, d, parent))
    ensures forall x :: rank(x) <= Above(s, rank, d, parent)(x)
    ensures d !in Chain(s, rank, parent) ==>
              Above(s, rank, d, parent)(parent) == rank(parent) < Above(s, rank, d, parent)(d)
  {
    forall x | x in s && Link(s[x]).Some?
      ensures Above(s, rank, d, parent)(Link(s[x]).value) < Above(s, rank, d, parent)(x)
    {
      assert Chain(s, rank, x) == {x} + Chain(s, rank, Link(s[x]).value);
    }
    assert d in Chain(s, rank, d);
  }

  /** A ranking for work on d with this parent: if the parent does not descend from d, it comes before d. */
  ghost predicate Suits(s: Store, rank: Path -> nat, d: Path, parent: Path)
  {
    Ranked(s, rank) && (d !in Chain(s, rank, parent) ==> rank(parent) < rank(d))
  }

  /** Every store without cycles has one. */
  lemma {:induction false} SuitableRanking(s: Store, rank: Path -> nat, d: Path, parent: Path)
    requires Ranked(s, rank)
    ensures Suits(s, Above(s, rank, d, parent), d, parent)
  {
    var next := Above(s, rank, d, parent);
    AboveRanks(s, rank, d, parent);
    SameAlongChain(Zstd(b => b, b => Some(b)), s, rank, s, next, parent);
  }

  /** In any ranking an ancestor comes before. */
  lemma {:induction false} AncestorsComeBefore(s: Store, rank: Path -> nat, t: Store, next: Path -> nat, d: Path,
                                               x: Path)
    requires Ranked(s, rank) && Ranked(t, next) && d in Chain(s, rank, x)
    requires forall y | y != d && y in s && Link(s[y]).Some? :: y in t && Link(t[y]) == Link(s[y])
    ensures next(d) <= next(x)
    decreases rank(x)
  {
    if x != d {
      AncestorsComeBefore(s, rank, t, next, d, Link(s[x]).value);
    }
  }

  /** A link from d to an image that descends from it, all other links being there. */
  lemma {:induction false} CycleHasNoRanking(s: Store, rank: Path -> nat, t: Store, d: Path, parent: Path)
    requires Ranked(s, rank) && d in Chain(s, rank, parent)
    requires forall y | y != d && y in s && Link(s[y]).Some? :: y in t && Link(t[y]) == Link(s[y])
    requires d in t && Link(t[d]) == Some(parent)
    ensures !Acyclic(t)
  {
    if Acyclic(t) {
      var next: Path -> nat :| Ranked(t, next);
      AncestorsComeBefore(s, rank, t, next, d, parent);
    }
  }

  /** Making d a delta of a parent keeps the parent relation acyclic if and only if the parent does not
      descend from d. */
  lemma {:induction false} LinkingKeepsAcyclic(s: Store, rank: Path -> nat, d: Path, parent: Path, img: Image)
    requires Ranked(s, rank) && Link(img) == Some(parent)
    ensures Acyclic(s[d := img]) <==> d !in Chain(s, rank, parent)
  {
    if d in Chain(s, rank, parent) {
      CycleHasNoRanking(s, rank, s[d := img], d, parent);
    } else {
      AboveRanks(s, rank, d, parent);
      assert Ranked(s[d := img], Above(s, rank, d, parent));
    }
  }

  // ---------- replacing one image ----------

  /** Images below d do not see a change of d. */
  lemma {:induction false} LogicalBelow(z: Zstd, s: Store, rank: Path -> nat, d: Path, img: Image, x: Path)
    requires d in s && Ranked(s, rank) && Ranked(s[d := img], rank) && x != d && rank(x) <= rank(d)
    ensures Logical(z, s[d := img], rank, x) == Logical(z, s, rank, x)
    decreases rank(x)
  {
    if x in s && Link(s[x]).Some? {
      LogicalBelow(z, s, rank, d, img, Link(s[x]).value);
    }
  }

  /** Replacing d by an image that stands for the same contents changes no image's contents. */
  lemma {:induction false} ReplaceKeepsLogical(z: Zstd, s: Store, rank: Path -> nat, d: Path, img: Image, x: Path)
    requires d in s && Ranked(s, rank) && Ranked(s[d := img], rank)
    requires Logical(z, s[d := img], rank, d) == Logical(z, s, rank, d)
    ensures Logical(z, s[d := img], rank, x) == Logical(z, s, rank, x)
    decreases rank(x)
  {
    if x != d && x in s && Link(s[x]).Some? {
      ReplaceKeepsLogical(z, s, rank, d, img, Link(s[x]).value);
    }
  }

  /** The contents of d after its own replacement, with the parent unchanged. */
  lemma {:induction false} LogicalOfReplaced(z: Zstd, s: Store, rank: Path -> nat, d: Path, img: Image)
    requires d in s && Ranked(s, rank) && Ranked(s[d := img], rank)
    ensures Logical(z, s[d := img], rank, d) ==
            Own(z, img, if Link(img).Some? then Logical(z, s, rank, Link(img).value) else None)
  {
    assert s[d := img][d] == img;
    if Link(img).Some? {
      LogicalBelow(z, s, rank, d, img, Link(img).value);
    }
  }

  /** Images whose chain avoids d are settled as before. */
  lemma {:induction false} SettledBelow(z: Zstd, s: Store, rank: Path -> nat, d: Path, img: Image, x: Path)
    requires d in s && Ranked(s, rank) && Ranked(s[d := img], rank) && x != d && rank(x) <= rank(d)
    ensures Settled(z, s[d := img], rank, x) == Settled(z, s, rank, x)
    decreases rank(x)
  {
    LogicalBelow(z, s, rank, d, img, x);
    if x in s && Link(s[x]).Some? {
      SettledBelow(z, s, rank, d, img, Link(s[x]).value);
    }
  }

  lemma {:induction false} ChainBelow(s: Store, rank: Path -> nat, d: Path, x: Path)
    requires Ranked(s, rank) && x in Chain(s, rank, d)
    ensures x == d || rank(x) < rank(d)
    decreases rank(d)
  {
    if x != d {
      ChainBelow(s, rank, Link(s[d]).value, x);
    }
  }

  lemma {:induction false} SameChain(s: Store, t: Store, rank: Path -> nat, d: Path)
    requires StoreRefreshed(s, t) && Ranked(s, rank) && Ranked(t, rank)
    ensures Chain(t, rank, d) == Chain(s, rank, d)
    decreases rank(d)
  {
    if d in s {
      assert Refreshed(s[d], t[d]);
      assert Link(t[d]) == Link(s[d]);
      if Link(s[d]).Some? {
        SameChain(s, t, rank, Link(s[d]).value);
      }
    }
  }

  // ---------- what a call of materialisation may do ----------

  /** An image with its compressed form unpacked. */
  function Unpacked(img: Image, device: Bytes): Image
    requires img.manifest.Some?
  {
    var m := img.manifest.value;
    img.(device := Some(device), manifest := Some(m.(flags := m.flags.(compressed := false))))
  }

  /** device.bin and the compressed flag change, only along the chain, and not in materialised images. */
  ghost predicate Touches(z: Zstd, s: Store, t: Store, rank: Path -> nat, d: Path)
    requires Ranked(s, rank)
  {
    && StoreRefreshed(s, t) && Ranked(t, rank)
    && (forall x | x in s && x !in Chain(s, rank, d) :: t[x] == s[x])
    && (forall x | x in s && Settled(z, s, rank, x) :: t[x] == s[x])
  }

  ghost predicate SameContents(z: Zstd, s: Store, t: Store, rank: Path -> nat)
    requires Ranked(s, rank) && Ranked(t, rank)
  {
    forall x :: Logical(z, t, rank, x) == Logical(z, s, rank, x)
  }

  ghost predicate SameOnChain(z: Zstd, s: Store, t: Store, rank: Path -> nat, d: Path)
    requires Ranked(s, rank) && Ranked(t, rank)
  {
    forall x | x in Chain(s, rank, d) :: Logical(z, t, rank, x) == Logical(z, s, rank, x)
  }

  /** A materialised image stays so, whatever else is materialised. */
  lemma {:induction false} SettledStays(z: Zstd, s: Store, t: Store, rank: Path -> nat, d: Path, x: Path)
    requires Ranked(s, rank) && Touches(z, s, t, rank, d) && Settled(z, s, rank, x)
    ensures Settled(z, t, rank, x) && Logical(z, t, rank, x) == Logical(z, s, rank, x)
    decreases rank(x)
  {
    assert t[x] == s[x];
    if Link(s[x]).Some? {
      SettledStays(z, s, t, rank, d, Link(s[x]).value);
    }
  }

  /** With an image all its ancestors are materialised. */
  lemma {:induction false} SettledAncestors(z: Zstd, s: Store, rank: Path -> nat, d: Path, x: Path)
    requires Ranked(s, rank) && Settled(z, s, rank, d) && x in Chain(s, rank, d)
    ensures Settled(z, s, rank, x)
    decreases rank(d)
  {
    if x != d {
      SettledAncestors(z, s, rank, Link(s[d]).value, x);
    }
  }

  /** Materialising an image rewrites it if and only if its device.bin is not up to date or its compressed
      flag is set. */
  lemma {:induction false} RewrittenIff(z: Zstd, s: Store, t: Store, rank: Path -> nat, x: Path)
    requires Ranked(s, rank) && Ranked(t, rank) && Settled(z, t, rank, x)
    requires x in s && Refreshed(s[x], t[x]) && Logical(z, t, rank, x) == Logical(z, s, rank, x)
    ensures t[x] != s[x] <==>
            s[x].manifest.value.flags.compressed || s[x].device != Logical(z, s, rank, x)
  {
    assert s[x].manifest.Some? && t[x].device == Logical(z, s, rank, x);
  }

  lemma {:induction false} TouchesTransitive(z: Zstd, s: Store, t: Store, u: Store, rank: Path -> nat, p: Path, d: Path)
    requires Ranked(s, rank) && Touches(z, s, t, rank, p) && Touches(z, t, u, rank, d)
    requires Chain(s, rank, p) <= Chain(s, rank, d)
    ensures Touches(z, s, u, rank, d)
  {
    RefreshedTransitive(s, t, u);
    SameChain(s, t, rank, d);
    forall x | x in s && Settled(z, s, rank, x) ensures u[x] == s[x] {
      SettledStays(z, s, t, rank, p, x);
    }
  }

  /** Contents that are the same everywhere leave harmony as it was. */
  lemma {:induction false} HarmonyStays(z: Zstd, s: Store, t: Store, rank: Path -> nat, x: Path)
    requires StoreRefreshed(s, t) && Ranked(s, rank) && Ranked(t, rank) && SameContents(z, s, t, rank)
    requires Harmonious(z, s, rank, x)
    ensures Harmonious(z, t, rank, x)
    decreases rank(x)
  {
    if x in s {
      assert Refreshed(s[x], t[x]);
      assert Link(t[x]) == Link(s[x]);
      if Link(s[x]).Some? {
        HarmonyStays(z, s, t, rank, Link(s[x]).value);
      }
    }
  }

  /** An image that is a delta, its parent having been replaced: it stands for what it did if and only if the
      old and the new parent agree, once resized, wherever the delta does not write. */
  lemma {:induction false} ChildOfReplaced(z: Zstd, s: Store, t: Store, rank: Path -> nat, x: Path)
    requires Ranked(s, rank) && Ranked(t, rank) && x in s && x in t && t[x] == s[x]
    requires Link(s[x]).Some? && !s[x].manifest.value.flags.compressed && Logical(z, s, rank, x).Some?
    requires Logical(z, t, rank, Link(s[x]).value).Some?
    ensures var base, other := Logical(z, s, rank, Link(s[x]).value), Logical(z, t, rank, Link(s[x]).value);
            var total := MaxEnd(s[x].manifest.value.entries);
            && base.Some?
            && (Logical(z, t, rank, x) == Logical(z, s, rank, x) <==>
                  forall p | 0 <= p < total && !Covered(s[x].delta.value.recs, p) ::
                    Resize(other.value, total)[p] == Resize(base.value, total)[p])
  {
    var base, other := Logical(z, s, rank, Link(s[x]).value), Logical(z, t, rank, Link(s[x]).value);
    RebuildAgreesIff(base.value, other.value, s[x].manifest.value.entries, s[x].delta.value.recs, s[x].patch.value);
  }

  /** And with it what descends from it. */
  lemma {:induction false} DescendantFollows(z: Zstd, s: Store, t: Store, rank: Path -> nat, c: Path, x: Path)
    requires Ranked(s, rank) && Ranked(t, rank) && c in Chain(s, rank, x)
    requires forall y | y in Chain(s, rank, x) && y !in Chain(s, rank, c) :: Lookup(t, y) == Lookup(s, y)
    requires Logical(z, t, rank, c) == Logical(z, s, rank, c)
    ensures Logical(z, t, rank, x) == Logical(z, s, rank, x)
    decreases rank(x)
  {
    if x != c {
      assert x !in Chain(s, rank, c) by {
        ChainBelow(s, rank, x, c);
        if x in Chain(s, rank, c) { ChainBelow(s, rank, c, x); }
      }
      assert x in Chain(s, rank, x) && Lookup(t, x) == Lookup(s, x);
      DescendantFollows(z, s, t, rank, c, Link(s[x]).value);
    }
  }

  /** Images without an ancestor that is both compressed and a delta are in harmony. */
  lemma {:induction false} ExclusiveIsHarmonious(z: Zstd, s: Store, rank: Path -> nat, d: Path)
    requires Ranked(s, rank)
    requires forall x | x in Chain(s, rank, d) && x in s && Link(s[x]).Some? :: !s[x].manifest.value.flags.compressed
    ensures Harmonious(z, s, rank, d)
    decreases rank(d)
  {
    assert d in Chain(s, rank, d);
    if d in s && Link(s[d]).Some? {
      ExclusiveIsHarmonious(z, s, rank, Link(s[d]).value);
    }
  }

  /** Rewriting one image that is not materialised yet. */
  lemma {:induction false} TouchOne(z: Zstd, s: Store, rank: Path -> nat, d: Path, img: Image)
    requires d in s && Ranked(s, rank) && Refreshed(s[d], img) && (Settled(z, s, rank, d) ==> img == s[d])
    ensures Touches(z, s, s[d := img], rank, d)
  {
    assert StoreRefreshed(s, s[d := img]);
  }

  /** Rewriting one image without changing what it stands for. */
  lemma {:induction false} SameContentsByOne(z: Zstd, s: Store, rank: Path -> nat, d: Path, img: Image)
    requires d in s && Ranked(s, rank) && Ranked(s[d := img], rank)
    requires Logical(z, s[d := img], rank, d) == Logical(z, s, rank, d)
    ensures SameContents(z, s, s[d := img], rank)
  {
    forall x ensures Logical(z, s[d := img], rank, x) == Logical(z, s, rank, x) {
      ReplaceKeepsLogical(z, s, rank, d, img, x);
    }
  }

  /** Unpacking device.zst: the image now stands for its delta, if it is one. */
  lemma {:induction false} Unpack(z: Zstd, s: Store, rank: Path -> nat, d: Path)
    requires d in s && Ranked(s, rank) && s[d].manifest.Some? && s[d].manifest.value.flags.compressed
    ensures var m := s[d].manifest.value;
            var t := s[d := s[d].(device := Logical(z, s, rank, d),
                manifest := Some(m.(flags := m.flags.(compressed := false))))];
            && Touches(z, s, t, rank, d)
            && Logical(z, t, rank, d) == (if Link(s[d]).Some? then FromParent(z, s, rank, d) else Logical(z, s, rank, d))
            && (forall x | x != d && rank(x) <= rank(d) :: Logical(z, t, rank, x) == Logical(z, s, rank, x))
            && (Link(s[d]).None? || FromParent(z, s, rank, d) == Logical(z, s, rank, d) ==> SameContents(z, s, t, rank))
  {
    var m := s[d].manifest.value;
    var img := s[d].(device := Logical(z, s, rank, d), manifest := Some(m.(flags := m.flags.(compressed := false))));
    TouchOne(z, s, rank, d, img);
    LogicalOfReplaced(z, s, rank, d, img);
    forall x | x != d && rank(x) <= rank(d) ensures Logical(z, s[d := img], rank, x) == Logical(z, s, rank, x) {
      LogicalBelow(z, s, rank, d, img, x);
    }
    if Link(s[d]).None? || FromParent(z, s, rank, d) == Logical(z, s, rank, d) {
      SameContentsByOne(z, s, rank, d, img);
    }
  }

  /** The state of a delta image after its parent was materialised and its own device.bin rebuilt. */
  ghost predicate Based(z: Zstd, s: Store, u: Store, rank: Path -> nat, d: Path)
    requires Ranked(s, rank) && d in s && Link(s[d]).Some?
  {
    var p := Link(s[d]).value;
    && Touches(z, s, u, rank, d)
    && u[d] == s[d].(device := FromParent(z, s, rank, d)) && FromParent(z, s, rank, d).Some?
    && (Harmonious(z, s, rank, p) ==> SameContents(z, s, u, rank) && Settled(z, u, rank, p))
    && (SameOnChain(z, s, u, rank, p) <==> Harmonious(z, s, rank, p))
  }

  /** Writing the rebuilt device.bin after the parent was materialised. */
  lemma {:induction false} BaseOnParent(z: Zstd, s: Store, t: Store, rank: Path -> nat, d: Path)
    requires Ranked(s, rank) && d in s && Link(s[d]).Some?
    requires var p := Link(s[d]).value;
             && Touches(z, s, t, rank, p)
             && (Harmonious(z, s, rank, p) ==> SameContents(z, s, t, rank) && Settled(z, t, rank, p))
             && (SameOnChain(z, s, t, rank, p) <==> Harmonious(z, s, rank, p))
    requires FromParent(z, s, rank, d).Some?
    ensures t[d] == s[d] && Based(z, s, t[d := s[d].(device := FromParent(z, s, rank, d))], rank, d)
  {
    var p, r := Link(s[d]).value, FromParent(z, s, rank, d);
    assert d !in Chain(s, rank, p) by {
      if d in Chain(s, rank, p) { ChainBelow(s, rank, p, d); }
    }
    var img := s[d].(device := r);
    var u := t[d := img];
    assert Refreshed(s[d], img) && Link(t[d]) == Link(s[d]);
    DeviceOfDeltaIsIdle(z, t, rank, d, r);
    assert StoreRefreshed(s, u) by { RefreshedTransitive(s, t, u); }
    if Settled(z, s, rank, d) {
      assert r == s[d].device;
    }
    assert Touches(z, s, u, rank, d);
    forall x | x in Chain(s, rank, p) ensures x != d && Logical(z, u, rank, x) == Logical(z, t, rank, x) {}
    if Harmonious(z, s, rank, p) {
      SettledBelow(z, t, rank, d, img, p);
    }
  }

  /** Whatever is written to device.bin of a delta image. */
  lemma {:induction false} DeviceOfDeltaIsIdle(z: Zstd, s: Store, rank: Path -> nat, d: Path, r: Option<Bytes>)
    requires d in s && Ranked(s, rank) && Link(s[d]).Some?
    ensures var t := s[d := s[d].(device := r)];
            StoreRefreshed(s, t) && Ranked(t, rank) && SameContents(z, s, t, rank)
  {
    var img := s[d].(device := r);
    assert StoreRefreshed(s, s[d := img]);
    LogicalOfReplaced(z, s, rank, d, img);
    SameContentsByOne(z, s, rank, d, img);
  }

  /** What a successful call of EnsureDeviceMaterialized has achieved. */
  ghost predicate Ready(z: Zstd, s: Store, t: Store, rank: Path -> nat, d: Path)
    requires Ranked(s, rank)
  {
    && Touches(z, s, t, rank, d) && d in s
    && t[d].manifest.Some? && !t[d].manifest.value.flags.compressed
    && t[d].device == Logical(z, s, rank, d) && t[d].device.Some?
    && (SameOnChain(z, s, t, rank, d) <==> Harmonious(z, s, rank, d))
    && (Harmonious(z, s, rank, d) ==> SameContents(z, s, t, rank) && Settled(z, t, rank, d))
    && (Link(s[d]).Some? && Harmonious(z, s, rank, Link(s[d]).value) ==>
          Logical(z, t, rank, d) == FromParent(z, s, rank, d))
  }

  lemma {:induction false} ReadyAsIs(z: Zstd, s: Store, rank: Path -> nat, d: Path)
    requires d in s && Ranked(s, rank) && s[d].manifest.Some? && !s[d].manifest.value.flags.compressed
    requires Link(s[d]).None? && s[d].device.Some?
    ensures Ready(z, s, s, rank, d)
  {
  }

  lemma {:induction false} ReadyUnpacked(z: Zstd, s: Store, rank: Path -> nat, d: Path)
    requires d in s && Ranked(s, rank) && s[d].manifest.Some? && s[d].manifest.value.flags.compressed
    requires Link(s[d]).None? && Logical(z, s, rank, d).Some?
    ensures Ready(z, s, s[d := Unpacked(s[d], Logical(z, s, rank, d).value)], rank, d)
  {
    Unpack(z, s, rank, d);
  }

  lemma {:induction false} ReadyRebuilt(z: Zstd, s: Store, u: Store, rank: Path -> nat, d: Path)
    requires Ranked(s, rank) && d in s && Link(s[d]).Some? && Based(z, s, u, rank, d)
    requires !s[d].manifest.value.flags.compressed
    ensures Ready(z, s, u, rank, d)
  {
    var p := Link(s[d]).value;
    assert Link(u[d]) == Link(s[d]);
    assert Logical(z, s, rank, d) == FromParent(z, s, rank, d);
    if SameOnChain(z, s, u, rank, d) {
      assert SameOnChain(z, s, u, rank, p);
    }
  }

  lemma {:induction false} ReadyRebuiltAndUnpacked(z: Zstd, s: Store, u: Store, rank: Path -> nat, d: Path)
    requires Ranked(s, rank) && d in s && Link(s[d]).Some? && Based(z, s, u, rank, d)
    requires s[d].manifest.value.flags.compressed && Logical(z, s, rank, d).Some?
    ensures Ready(z, s, u[d := Unpacked(u[d], Logical(z, s, rank, d).value)], rank, d)
  {
    var p, img := Link(s[d]).value, Unpacked(u[d], Logical(z, s, rank, d).value);
    var v := u[d := img];
    assert Link(u[d]) == Link(s[d]);
    TouchOne(z, u, rank, d, img);
    TouchesTransitive(z, s, u, v, rank, d, d);
    forall x | x in Chain(s, rank, p) ensures x != d && Logical(z, v, rank, x) == Logical(z, u, rank, x) {
      ChainBelow(s, rank, p, x);
      LogicalBelow(z, u, rank, d, img, x);
    }
    if SameOnChain(z, s, v, rank, d) {
      assert SameOnChain(z, s, u, rank, p) by {
        forall x | x in Chain(s, rank, p) ensures Logical(z, u, rank, x) == Logical(z, s, rank, x) {
          assert x in Chain(s, rank, d);
        }
      }
    }
    if Harmonious(z, s, rank, p) {
      assert FromParent(z, u, rank, d) == FromParent(z, s, rank, d);
      Unpack(z, u, rank, d);
      SettledBelow(z, u, rank, d, img, p);
      assert Logical(z, v, rank, d) == FromParent(z, s, rank, d);
      assert d in Chain(s, rank, d);
    }
  }

  class FileSystem {
    var dirs: Store
    const zstd: Zstd
    const sha: Bytes -> Bytes

    constructor (dirs: Store, zstd: Zstd, sha: Bytes -> Bytes)
      ensures this.dirs == dirs && this.zstd == zstd && this.sha == sha
    {
      this.dirs, this.zstd, this.sha := dirs, zstd, sha;
    }

    /** Succeeds exactly when the image's contents can be determined; device.bin then holds them.  It
        changes what no image stands for, and nothing at all the second time, if and only if the image and
        its ancestors are harmonious; an image that is not stands for its delta afterwards. */
    method EnsureDeviceMaterialized(d: Path, ghost rank: Path -> nat) returns (ok: bool)
      requires Ranked(dirs, rank)
      modifies this`dirs
      ensures Touches(zstd, old(dirs), dirs, rank, d)
      ensures ok <==> Logical(zstd, old(dirs), rank, d).Some?
      ensures ok ==> Ready(zstd, old(dirs), dirs, rank, d)
      ensures Harmonious(zstd, old(dirs), rank, d) ==> SameContents(zstd, old(dirs), dirs, rank)
      ensures Settled(zstd, old(dirs), rank, d) ==> dirs == old(dirs)
      decreases rank(d), 1
    {
      ghost var s := dirs;
      if d !in dirs || dirs[d].manifest.None? { return false; }
      var flags := dirs[d].manifest.value.flags;
      if flags.delta {
        ok := ApplyDelta(d, rank);
        if !ok { return; }
      }
      if flags.compressed {
        ghost var u := dirs;
        ok := DecompressDevice(d);
        if ok && Link(s[d]).None? { ReadyUnpacked(zstd, s, rank, d); }
        if ok && Link(s[d]).Some? { ReadyRebuiltAndUnpacked(zstd, s, u, rank, d); }
        return;
      }
      if dirs[d].device.None? { return false; }
      if Link(s[d]).None? { ReadyAsIs(zstd, s, rank, d); } else { ReadyRebuilt(zstd, s, dirs, rank, d); }
      ok := true;
    }

    method ApplyDelta(d: Path, ghost rank: Path -> nat) returns (ok: bool)
      requires Ranked(dirs, rank)
      requires d in dirs && dirs[d].manifest.Some? && dirs[d].manifest.value.flags.delta
      modifies this`dirs
      ensures Link(old(dirs)[d]).None? ==> ok && dirs == old(dirs)
      ensures Touches(zstd, old(dirs), dirs, rank, d)
      ensures Link(old(dirs)[d]).Some? ==>
        && (ok <==> FromParent(zstd, old(dirs), rank, d).Some?)
        && (ok ==> Based(zstd, old(dirs), dirs, rank, d))
        && (Harmonious(zstd, old(dirs), rank, Link(old(dirs)[d]).value) ==> SameContents(zstd, old(dirs), dirs, rank))
      ensures Settled(zstd, old(dirs), rank, d) ==> dirs == old(dirs)
      decreases rank(d), 0
    {
      if dirs[d].delta.None? { return true; }
      var file := dirs[d].delta.value;
      ghost var s := dirs;
      ok := EnsureDeviceMaterialized(file.parent, rank);
      ghost var t := dirs;
      UnchangedByParent(zstd, s, t, rank, d);
      if !ok { return; }
      var base := dirs[file.parent].device.value;
      if dirs[d].patch.None? { return false; }
      var r := Reconstruct(base, dirs[d].manifest.value.entries, file.recs, dirs[d].patch.value);
      if r.None? { return false; }
      BaseOnParent(zstd, s, t, rank, d);
      dirs := dirs[d := dirs[d].(device := r)];
    }

    method DecompressDevice(d: Path) returns (ok: bool)
      requires d in dirs && dirs[d].manifest.Some?
      modifies this`dirs
      ensures var img := old(dirs)[d];
              if !img.manifest.value.flags.compressed then ok && dirs == old(dirs)
              else
                && (ok <==> img.zst.Some? && zstd.dec(img.zst.value).Some?)
                && dirs == if ok then old(dirs)[d := Unpacked(img, zstd.dec(img.zst.value).value)] else old(dirs)
    {
      var m := dirs[d].manifest.value;
      if !m.flags.compressed { return true; }
      if dirs[d].zst.None? { return false; }
      var data := zstd.dec(dirs[d].zst.value);
      if data.None? { return false; }
      dirs := dirs[d := dirs[d].(device := data)];
      dirs := dirs[d := dirs[d].(manifest := Some(m.(flags := m.flags.(compressed := false))))];
      ok := true;
    }

    /** Materialising any images in any order: those that are harmonious get the contents they stood for at
        the beginning, or fail for exactly those that stand for nothing. */
    method MaterializeAll(ds: seq<Path>, ghost rank: Path -> nat) returns (oks: seq<bool>)
      requires Ranked(dirs, rank)
      modifies this`dirs
      ensures |oks| == |ds| && StoreRefreshed(old(dirs), dirs) && Ranked(dirs, rank)
      ensures AllHarmonious(zstd, old(dirs), rank, ds) ==> AllGood(zstd, old(dirs), dirs, rank, ds, oks)
    {
      oks := [];
      ghost var s := dirs;
      assert StoreRefreshed(s, s);
      for i := 0 to |ds|
        invariant |oks| == i && Ranked(dirs, rank) && StoreRefreshed(s, dirs)
        invariant AllHarmonious(zstd, s, rank, ds) ==> AllGood(zstd, s, dirs, rank, ds[..i], oks)
      {
        ghost var t := dirs;
        var ok := EnsureDeviceMaterialized(ds[i], rank);
        RefreshedTransitive(s, t, dirs);
        if AllHarmonious(zstd, s, rank, ds) {
          HarmonyStays(zstd, s, t, rank, ds[i]);
          OneMoreGood(zstd, s, t, dirs, rank, ds, i, oks, ok);
        }
        oks := oks + [ok];
      }
      assert ds[..|ds|] == ds;
    }
  }

  ghost predicate AllHarmonious(z: Zstd, s: Store, rank: Path -> nat, ds: seq<Path>)
    requires Ranked(s, rank)
  {
    forall i | 0 <= i < |ds| :: Harmonious(z, s, rank, ds[i])
  }

  /** Every image that stands for something is materialised with what it stood for in s. */
  ghost predicate AllGood(z: Zstd, s: Store, t: Store, rank: Path -> nat, ds: seq<Path>, oks: seq<bool>)
    requires Ranked(s, rank) && Ranked(t, rank)
  {
    && |oks| == |ds| && SameContents(z, s, t, rank)
    && (forall i | 0 <= i < |ds| :: oks[i] <==> Logical(z, s, rank, ds[i]).Some?)
    && (forall i | 0 <= i < |ds| && oks[i] :: Settled(z, t, rank, ds[i]))
  }

  lemma {:induction false} OneMoreGood(z: Zstd, s: Store, t: Store, u: Store, rank: Path -> nat, ds: seq<Path>, n: nat,
                                       oks: seq<bool>, ok: bool)
    requires n < |ds| && Ranked(s, rank) && Ranked(t, rank) && AllGood(z, s, t, rank, ds[..n], oks)
    requires Touches(z, t, u, rank, ds[n]) && SameContents(z, t, u, rank)
    requires (ok <==> Logical(z, t, rank, ds[n]).Some?) && (ok ==> Settled(z, u, rank, ds[n]))
    ensures AllGood(z, s, u, rank, ds[..n + 1], oks + [ok])
  {
    forall i | 0 <= i < n && oks[i] ensures Settled(z, u, rank, ds[i]) {
      assert ds[..n][i] == ds[i];
      SettledStays(z, t, u, rank, ds[n], ds[i]);
    }
  }

  lemma {:induction false} UnchangedByParent(z: Zstd, s: Store, t: Store, rank: Path -> nat, d: Path)
    requires Ranked(s, rank) && d in s && Link(s[d]).Some? && Touches(z, s, t, rank, Link(s[d]).value)
    ensures t[d] == s[d] && Touches(z, s, t, rank, d)
  {
    var p := Link(s[d]).value;
    if d in Chain(s, rank, p) { ChainBelow(s, rank, p, d); }
    assert Chain(s, rank, p) <= Chain(s, rank, d);
  }

  // ---------- an image that is both compressed and a delta ----------

  /** A parent with contents [1] and a child whose delta says [2] and whose device.zst says [3]. */
  function TwoFaced(z: Zstd): Store
  {
    var parent := Image(Some(Manifest(2, Flags(false, false, false, false, 0), [Entry(16, 1, 0, 6, 1, [])])), Some([1]),
                        None, None, None, None, None, map[], None, None, false, false);
    var child := Image(Some(Manifest(2, Flags(true, false, false, true, 0), [Entry(16, 1, 0, 7, 1, [])])), None,
                       Some(z.enc([3])), Some(DeltaFile("p", [Record(16, 1, 0, 0)])), Some([2]), None, None, map[],
                       None, None, false, false);
    map["p" := parent, "c" := child]
  }

  function TwoRanks(): Path -> nat
  {
    (d: Path) => if d == "c" then 1 else 0
  }

  lemma {:induction false} TwoFacedRebuilds()
    ensures Rebuild([1], [Entry(16, 1, 0, 7, 1, [])], [Record(16, 1, 0, 0)], [2]) == Some([2])
  {
    var entries, recs := [Entry(16, 1, 0, 7, 1, [])], [Record(16, 1, 0, 0)];
    assert entries[..0] == [] && MaxEnd([]) == 0;
    assert Resize([1], MaxEnd(entries)) == [1];
    assert recs[..0] == [] && Patched([1], [], [2]) == Some([1]);
    var base, patch: Bytes := [1], [2];
    assert base[..0] + patch[0..1] + base[1..] == patch;
    assert ApplyRecord(base, recs[0], patch) == Some(patch);
  }

  lemma {:induction false} TwoFacedContents(z: Zstd)
    requires Lossless(z)
    ensures var s, rank := TwoFaced(z), TwoRanks();
            && Ranked(s, rank) && Link(s["c"]) == Some("p") && Harmonious(z, s, rank, "p")
            && Logical(z, s, rank, "c") == Some([3]) && FromParent(z, s, rank, "c") == Some([2])
  {
    var s, rank := TwoFaced(z), TwoRanks();
    assert "p" != "c" by { assert |"p"| == 1 && "p"[0] != "c"[0]; }
    assert Link(s["p"]).None? && Link(s["c"]) == Some("p");
    assert Ranked(s, rank);
    assert Logical(z, s, rank, "p") == Some([1]);
    TwoFacedRebuilds();
  }

  /** Materialising the child of the example gives its compressed contents, and changes what it stands for
      to those of its delta. */
  method MaterializeTwoFaced(z: Zstd, sha: Bytes -> Bytes) returns (fs: FileSystem, ok: bool)
    requires Lossless(z)
    ensures ok && Ranked(TwoFaced(z), TwoRanks()) && Ranked(fs.dirs, TwoRanks())
    ensures Logical(z, TwoFaced(z), TwoRanks(), "c") == Some([3])
    ensures "c" in fs.dirs && fs.dirs["c"].device == Some([3])
    ensures Logical(z, fs.dirs, TwoRanks(), "c") == Some([2])
  {
    TwoFacedContents(z);
    fs := new FileSystem(TwoFaced(z), z, sha);
    ok := fs.EnsureDeviceMaterialized("c", TwoRanks());
  }
}
