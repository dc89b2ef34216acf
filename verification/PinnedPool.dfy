/** shim/pinned_pool.cpp: the first-fit pool of pinned host buffers.  The driver's answer to an
    allocation request is a parameter. */
module PinnedPool {
  import opened Bytes
  import opened Memory

  datatype Buf = Buf(ptr: nat, cap: nat, free: bool)

  predicate Fits(b: Buf, n: nat) { b.free && n <= b.cap }

  /** Index of the first free buffer that is large enough, or the length if there is none. */
  function FirstFit(bufs: seq<Buf>, n: nat): (r: nat)
    ensures r <= |bufs|
    ensures r < |bufs| ==> Fits(bufs[r], n)
    ensures forall j | 0 <= j < r :: !Fits(bufs[j], n)
  {
    if bufs == [] || Fits(bufs[0], n) then 0 else 1 + FirstFit(bufs[1..], n)
  }

  function Acquired(bufs: seq<Buf>, n: nat, grant: Option<nat>): (seq<Buf>, nat)
  {
    var i := FirstFit(bufs, n);
    if n == 0 then (bufs, 0)
    else if i < |bufs| then (bufs[i := bufs[i].(free := false)], bufs[i].ptr)
    else if grant.Some? then (bufs + [Buf(grant.value, n, false)], grant.value)
    else (bufs, 0)
  }

  /** Index of the buffer at this address, or the length. */
  function Find(bufs: seq<Buf>, ptr: nat): (r: nat)
    ensures r <= |bufs|
    ensures r < |bufs| ==> bufs[r].ptr == ptr
    ensures forall j | 0 <= j < r :: bufs[j].ptr != ptr
  {
    if bufs == [] || bufs[0].ptr == ptr then 0 else 1 + Find(bufs[1..], ptr)
  }

  function Released(bufs: seq<Buf>, ptr: nat): seq<Buf>
  {
    var i := Find(bufs, ptr);
    if ptr != 0 && i < |bufs| then bufs[i := bufs[i].(free := true)] else bufs
  }

  /** Buffers are nonempty, not at null, and do not overlap. */
  ghost predicate Valid(bufs: seq<Buf>)
  {
    && (forall i | 0 <= i < |bufs| :: bufs[i].ptr > 0 && bufs[i].cap > 0)
    && (forall i, j | 0 <= i < j < |bufs| :: Disjoint(bufs[i].ptr, bufs[i].cap, bufs[j].ptr, bufs[j].cap))
  }

  /** What the driver promises about a host allocation. */
  predicate LegalGrant(bufs: seq<Buf>, n: nat, grant: Option<nat>)
  {
    grant.Some? ==>
      grant.value > 0 && forall i | 0 <= i < |bufs| :: Disjoint(bufs[i].ptr, bufs[i].cap, grant.value, n)
  }

  /** An address above every buffer: what a willing driver can always hand out. */
  function FreshAddress(bufs: seq<Buf>): (r: nat)
    ensures r > 0
    ensures forall i | 0 <= i < |bufs| :: bufs[i].ptr + bufs[i].cap <= r
  {
    if bufs == [] then 1 else
    var front, last := FreshAddress(bufs[..|bufs| - 1]), bufs[|bufs| - 1];
    if last.ptr + last.cap > front then last.ptr + last.cap else front
  }

  lemma {:induction false} FreshAddressIsLegal(bufs: seq<Buf>, n: nat)
    ensures LegalGrant(bufs, n, Some(FreshAddress(bufs)))
  {
  }

  class Pool {
    var bufs: seq<Buf>

    constructor ()
      ensures bufs == []
    {
      bufs := [];
    }

    method Acquire(n: nat, grant: Option<nat>) returns (ptr: nat)
      modifies this
      ensures (bufs, ptr) == Acquired(old(bufs), n, grant)
    {
      if n == 0 { return 0; }
      for i := 0 to |bufs|
        invariant bufs == old(bufs)
        invariant forall j | 0 <= j < i :: !Fits(bufs[j], n)
      {
        if bufs[i].free && n <= bufs[i].cap {
          ptr := bufs[i].ptr;
          bufs := bufs[i := bufs[i].(free := false)];
          return;
        }
      }
      if grant.None? { return 0; }
      bufs := bufs + [Buf(grant.value, n, false)];
      return grant.value;
    }

    method Release(ptr: nat)
      modifies this
      ensures bufs == Released(old(bufs), ptr)
    {
      if ptr == 0 { return; }
      for i := 0 to |bufs|
        invariant bufs == old(bufs)
        invariant forall j | 0 <= j < i :: bufs[j].ptr != ptr
      {
        if bufs[i].ptr == ptr {
          bufs := bufs[i := bufs[i].(free := true)];
          return;
        }
      }
    }
  }

  // ---------- what one call does to a valid pool ----------

  /** Where an acquisition put its buffer. */
  function Slot(bufs: seq<Buf>, n: nat): nat { FirstFit(bufs, n) }

  lemma {:induction false} AcquireKeepsValid(bufs: seq<Buf>, n: nat, grant: Option<nat>)
    requires Valid(bufs) && LegalGrant(bufs, n, grant)
    ensures var (after, ptr) := Acquired(bufs, n, grant);
            && Valid(after) && |bufs| <= |after|
            && (ptr == 0 ==> after == bufs)
            && (ptr != 0 ==>
                  var k := Slot(bufs, n);
                  && k < |after| && after[k].ptr == ptr && !after[k].free && n <= after[k].cap && 0 < n
                  && (k < |bufs| ==> bufs[k].free)
                  && forall j | 0 <= j < |bufs| && j != k :: after[j] == bufs[j])
  {
  }

  lemma {:induction false} ReleaseFreesSlot(bufs: seq<Buf>, k: nat)
    requires Valid(bufs) && k < |bufs|
    ensures Released(bufs, bufs[k].ptr) == bufs[k := bufs[k].(free := true)]
    ensures Valid(Released(bufs, bufs[k].ptr))
  {
    forall i | 0 <= i < k ensures bufs[i].ptr != bufs[k].ptr {
      assert Disjoint(bufs[i].ptr, bufs[i].cap, bufs[k].ptr, bufs[k].cap);
    }
  }

  /** The pool differs from an earlier one only by what is held in the slots: those were free or did not
      exist, all others are as before, and new buffers that are not held are free. */
  ghost predicate Holding(before: seq<Buf>, bufs: seq<Buf>, slots: set<nat>)
  {
    && Valid(bufs) && |before| <= |bufs|
    && (forall k | k in slots :: k < |bufs|)
    && (forall k | 0 <= k < |bufs| ::
          if k in slots then !bufs[k].free && (k < |before| ==> before[k] == bufs[k].(free := true))
          else if k < |before| then bufs[k] == before[k] else bufs[k].free)
  }

  lemma {:induction false} AcquireHolds(before: seq<Buf>, bufs: seq<Buf>, slots: set<nat>, n: nat, grant: Option<nat>)
    requires Holding(before, bufs, slots) && LegalGrant(bufs, n, grant)
    ensures var (after, ptr) := Acquired(bufs, n, grant);
            && Holding(before, after, if ptr == 0 then slots else slots + {Slot(bufs, n)})
            && (ptr != 0 ==> Slot(bufs, n) !in slots)
  {
    AcquireKeepsValid(bufs, n, grant);
  }

  lemma {:induction false} ReleaseHolds(before: seq<Buf>, bufs: seq<Buf>, slots: set<nat>, k: nat)
    requires Holding(before, bufs, slots) && k in slots
    ensures Holding(before, Released(bufs, bufs[k].ptr), slots - {k})
  {
    ReleaseFreesSlot(bufs, k);
  }

  // ---------- runs ----------

  /** A holder knows which buffer it has and how much it asked for. */
  datatype Hold = Hold(slot: nat, size: nat)
  datatype State = State(bufs: seq<Buf>, held: seq<Hold>, peak: nat)
  datatype Op = Get(n: nat, grant: Option<nat>) | Put(holder: nat)

  ghost function Do(s: State, op: Op): State
  {
    match op
    case Get(n, answer) =>
      var grant := if LegalGrant(s.bufs, n, answer) then answer else None;
      var (after, ptr) := Acquired(s.bufs, n, grant);
      if ptr == 0 then s
      else State(after, s.held + [Hold(Slot(s.bufs, n), n)], if |s.held| + 1 > s.peak then |s.held| + 1 else s.peak)
    case Put(h) =>
      if h < |s.held| && s.held[h].slot < |s.bufs| then
        s.(bufs := Released(s.bufs, s.bufs[s.held[h].slot].ptr), held := s.held[..h] + s.held[h + 1..])
      else s
  }

  ghost function Run(s: State, ops: seq<Op>): State
  {
    if ops == [] then s else Do(Run(s, ops[..|ops| - 1]), ops[|ops| - 1])
  }

  const Empty := State([], [], 0)

  function InUse(bufs: seq<Buf>): nat
  {
    if bufs == [] then 0 else InUse(bufs[1..]) + if bufs[0].free then 0 else 1
  }

  lemma {:induction false} InUseUpdate(bufs: seq<Buf>, k: nat, b: Buf)
    requires k < |bufs|
    ensures InUse(bufs[k := b]) == InUse(bufs) - (if bufs[k].free then 0 else 1) + (if b.free then 0 else 1)
  {
    if k > 0 {
      InUseUpdate(bufs[1..], k - 1, b);
      assert bufs[k := b][1..] == bufs[1..][k - 1 := b];
    } else {
      assert bufs[0 := b][1..] == bufs[1..];
    }
  }

  lemma {:induction false} InUseSnoc(bufs: seq<Buf>, b: Buf)
    ensures InUse(bufs + [b]) == InUse(bufs) + if b.free then 0 else 1
  {
    if bufs == [] {
      assert [] + [b] == [b] && [b][1..] == [];
    } else {
      InUseSnoc(bufs[1..], b);
      assert (bufs + [b])[1..] == bufs[1..] + [b];
    }
  }

  /** What is held on top of an earlier pool stays in use until somebody releases it. */
  lemma {:induction false} HoldingCounts(before: seq<Buf>, bufs: seq<Buf>, slots: set<nat>)
    requires Holding(before, bufs, slots)
    ensures InUse(bufs) == InUse(before) + |slots|
    decreases |slots|
  {
    if slots == {} {
      InUseOfGrown(before, bufs);
    } else {
      var k :| k in slots;
      ReleaseHolds(before, bufs, slots, k);
      InUseOfReleased(bufs, k);
      HoldingCounts(before, Released(bufs, bufs[k].ptr), slots - {k});
    }
  }

  lemma {:induction false} InUseOfReleased(bufs: seq<Buf>, k: nat)
    requires Valid(bufs) && k < |bufs| && !bufs[k].free
    ensures InUse(Released(bufs, bufs[k].ptr)) == InUse(bufs) - 1
  {
    ReleaseFreesSlot(bufs, k);
    InUseUpdate(bufs, k, bufs[k].(free := true));
  }

  lemma {:induction false} InUseOfGrown(before: seq<Buf>, bufs: seq<Buf>)
    requires |before| <= |bufs| && bufs[..|before|] == before
    requires forall k | |before| <= k < |bufs| :: bufs[k].free
    ensures InUse(bufs) == InUse(before)
    decreases |bufs|
  {
    var n := |bufs| - 1;
    if |before| == |bufs| {
      assert bufs == before;
    } else {
      InUseOfGrown(before, bufs[..n]);
      InUseSnoc(bufs[..n], bufs[n]);
      assert bufs == bufs[..n] + [bufs[n]];
    }
  }

  lemma {:induction false} InUseBound(bufs: seq<Buf>)
    ensures InUse(bufs) <= |bufs|
    ensures (forall i | 0 <= i < |bufs| :: !bufs[i].free) ==> InUse(bufs) == |bufs|
    ensures (exists i | 0 <= i < |bufs| :: bufs[i].free) ==> InUse(bufs) < |bufs|
  {
    if bufs != [] {
      InUseBound(bufs[1..]);
      if i :| 0 < i < |bufs| && bufs[i].free {
        assert bufs[1..][i - 1].free;
      }
    }
  }

  ghost predicate Exclusive(s: State)
  {
    && Valid(s.bufs)
    && (forall h | 0 <= h < |s.held| ::
          && s.held[h].slot < |s.bufs| && 0 < s.held[h].size <= s.bufs[s.held[h].slot].cap
          && !s.bufs[s.held[h].slot].free)
    && (forall g, h | 0 <= g < h < |s.held| :: s.held[g].slot != s.held[h].slot)
    && InUse(s.bufs) == |s.held| <= s.peak
  }

  /** A buffer more in use. */
  lemma {:induction false} InUseOfAcquired(bufs: seq<Buf>, n: nat, grant: Option<nat>)
    ensures var (after, ptr) := Acquired(bufs, n, grant);
            InUse(after) == InUse(bufs) + (if after == bufs then 0 else 1)
  {
    var (after, ptr) := Acquired(bufs, n, grant);
    if after != bufs {
      var k := Slot(bufs, n);
      if k < |bufs| {
        InUseUpdate(bufs, k, bufs[k].(free := false));
      } else {
        InUseSnoc(bufs, Buf(grant.value, n, false));
      }
    }
  }

  lemma {:induction false} GetKeepsExclusive(s: State, n: nat, answer: Option<nat>)
    requires Exclusive(s)
    ensures Exclusive(Do(s, Get(n, answer)))
  {
    var grant := if LegalGrant(s.bufs, n, answer) then answer else None;
    var (after, ptr) := Acquired(s.bufs, n, grant);
    AcquireKeepsValid(s.bufs, n, grant);
    if ptr != 0 {
      var k, t := Slot(s.bufs, n), Do(s, Get(n, answer));
      assert k < |s.bufs| ==> after[k] != s.bufs[k];
      InUseOfAcquired(s.bufs, n, grant);
      forall h | 0 <= h < |t.held|
        ensures t.held[h].slot < |after| && 0 < t.held[h].size <= after[t.held[h].slot].cap
            && !after[t.held[h].slot].free
        ensures h < |s.held| ==> t.held[h] == s.held[h] && t.held[h].slot != k
      {
        if h < |s.held| { assert after[t.held[h].slot] == s.bufs[s.held[h].slot]; }
      }
    }
  }

  lemma {:induction false} PutKeepsExclusive(s: State, h: nat)
    requires Exclusive(s) && h < |s.held|
    ensures Exclusive(Do(s, Put(h)))
  {
    var k, t := s.held[h].slot, Do(s, Put(h));
    ReleaseFreesSlot(s.bufs, k);
    InUseUpdate(s.bufs, k, s.bufs[k].(free := true));
    forall g | 0 <= g < |t.held|
      ensures t.held[g] == s.held[if g < h then g else g + 1] && t.held[g].slot != k
    {
    }
  }

  lemma {:induction false} DoKeepsExclusive(s: State, op: Op)
    requires Exclusive(s)
    ensures Exclusive(Do(s, op))
  {
    match op
    case Get(n, answer) => GetKeepsExclusive(s, n, answer);
    case Put(h) => if h < |s.held| { PutKeepsExclusive(s, h); }
  }

  lemma {:induction false} RunIsExclusive(ops: seq<Op>)
    ensures Exclusive(Run(Empty, ops))
  {
    if ops != [] {
      RunIsExclusive(ops[..|ops| - 1]);
      DoKeepsExclusive(Run(Empty, ops[..|ops| - 1]), ops[|ops| - 1]);
    }
  }

  /** Over every run, no two holders share a buffer or any byte of one, and every held buffer is at
      least as large as the request. */
  lemma {:induction false} HoldersAreDisjoint(ops: seq<Op>, g: nat, h: nat)
    requires g < |Run(Empty, ops).held| && h < |Run(Empty, ops).held| && g != h
    ensures var s := Run(Empty, ops);
            && s.held[g].slot < |s.bufs| && s.held[g].size <= s.bufs[s.held[g].slot].cap
            && s.held[h].slot < |s.bufs|
            && Disjoint(s.bufs[s.held[g].slot].ptr, s.held[g].size, s.bufs[s.held[h].slot].ptr, s.held[h].size)
  {
    RunIsExclusive(ops);
    var s := Run(Empty, ops);
    var i, j := s.held[g].slot, s.held[h].slot;
    assert Disjoint(s.bufs[i].ptr, s.bufs[i].cap, s.bufs[j].ptr, s.bufs[j].cap) by {
      var lo, hi := if i < j then i else j, if i < j then j else i;
      assert Disjoint(s.bufs[lo].ptr, s.bufs[lo].cap, s.bufs[hi].ptr, s.bufs[hi].cap);
    }
  }

  /** When every request has the same nonzero size, the pool never allocates more buffers than were
      held at one time. */
  lemma {:induction false} UniformRequestsAllocatePeak(ops: seq<Op>, size: nat)
    requires 0 < size
    requires forall i | 0 <= i < |ops| && ops[i].Get? :: ops[i].n == size
    ensures var s := Run(Empty, ops);
            && |s.bufs| == s.peak
            && forall i | 0 <= i < |s.bufs| :: s.bufs[i].cap == size
  {
    if ops != [] {
      var s, op := Run(Empty, ops[..|ops| - 1]), ops[|ops| - 1];
      UniformRequestsAllocatePeak(ops[..|ops| - 1], size);
      RunIsExclusive(ops[..|ops| - 1]);
      UniformStep(s, op, size);
    }
  }

  ghost predicate AtPeak(s: State, size: nat)
  {
    |s.bufs| == s.peak && forall i | 0 <= i < |s.bufs| :: s.bufs[i].cap == size
  }

  lemma {:induction false} UniformStep(s: State, op: Op, size: nat)
    requires 0 < size && (op.Get? ==> op.n == size) && Exclusive(s) && AtPeak(s, size)
    ensures AtPeak(Do(s, op), size)
  {
    InUseBound(s.bufs);
    if op.Put? && op.holder < |s.held| {
      ReleaseFreesSlot(s.bufs, s.held[op.holder].slot);
    }
  }
}
