/** The sharded allocation index of shim/tracker.cpp: its methods, and all interleavings of threads that
    use it. */
module Tracker {
  import opened Bytes
  import opened Memory
  import opened Coalesce
  import opened Sorting

  type Shard = map<nat, AllocRec>

  const ShardCount: nat := 64

  function ShardOf(p: nat): (k: nat)
    ensures k < ShardCount
  {
    p / 64 % ShardCount
  }

  // ---------- the index as one map ----------

  /** A pointer lives only in its own shard, under a record that names it. */
  ghost predicate Homed(shards: seq<Shard>)
  {
    && (forall k, p | 0 <= k < |shards| && p in shards[k] :: k == ShardOf(p))
    && (forall k, p | 0 <= k < |shards| && p in shards[k] :: p != 0 && shards[k][p].base == p)
  }

  ghost predicate Placed(shards: seq<Shard>)
  {
    |shards| == ShardCount && Homed(shards)
  }

  /** The single map that the shards make up. */
  ghost function Merged(shards: seq<Shard>): Shard
  {
    if shards == [] then map[] else Merged(shards[..|shards| - 1]) + shards[|shards| - 1]
  }

  lemma {:induction false} MergedAt(shards: seq<Shard>, p: nat)
    requires Homed(shards)
    ensures var k := ShardOf(p);
            && (p in Merged(shards) <==> k < |shards| && p in shards[k])
            && (p in Merged(shards) ==> Merged(shards)[p] == shards[k][p])
  {
    if shards != [] {
      MergedAt(shards[..|shards| - 1], p);
    }
  }

  function Inserted(shards: seq<Shard>, rec: AllocRec): seq<Shard>
    requires |shards| == ShardCount
  {
    var k := ShardOf(rec.base);
    var shard: Shard := shards[k][rec.base := rec];
    shards[k := shard]
  }

  function Erased(shards: seq<Shard>, p: nat): seq<Shard>
    requires |shards| == ShardCount
  {
    if p == 0 then shards else
    var k := ShardOf(p);
    var rest: Shard := shards[k] - {p};
    shards[k := rest]
  }

  /** Inserting into a shard is inserting into the map. */
  lemma {:induction false} InsertMerged(shards: seq<Shard>, rec: AllocRec)
    requires Placed(shards) && rec.base != 0
    ensures Placed(Inserted(shards, rec)) && Merged(Inserted(shards, rec)) == Merged(shards)[rec.base := rec]
  {
    var after := Inserted(shards, rec);
    forall p ensures p in Merged(after) <==> p in Merged(shards) || p == rec.base {
      MergedAt(shards, p);
      MergedAt(after, p);
    }
    forall p | p in Merged(after) ensures Merged(after)[p] == Merged(shards)[rec.base := rec][p] {
      MergedAt(shards, p);
      MergedAt(after, p);
    }
  }

  lemma {:induction false} EraseMerged(shards: seq<Shard>, p: nat)
    requires Placed(shards)
    ensures Placed(Erased(shards, p)) && Merged(Erased(shards, p)) == Merged(shards) - {p}
  {
    var after := Erased(shards, p);
    MergedAt(shards, 0);
    forall q ensures q in Merged(after) <==> q in Merged(shards) && q != p {
      MergedAt(shards, q);
      MergedAt(after, q);
    }
    forall q | q in Merged(after) ensures Merged(after)[q] == Merged(shards)[q] {
      MergedAt(shards, q);
      MergedAt(after, q);
    }
  }

  // ---------- threads ----------

  /** Shards, the next number, and for each thread the record it has numbered but not inserted. */
  datatype State = State(shards: seq<Shard>, next: nat, pending: map<nat, AllocRec>)

  /** One critical section of one thread.  Modules draw their numbers from the same counter. */
  datatype Step =
    | TakeSeq(thread: nat, p: nat, size: nat, ctx: nat, flags: nat)
    | InsertRec(thread: nat)
    | Untrack(p: nat)
    | NumberModule

  function Next(s: State, c: Step): State
    requires |s.shards| == ShardCount
    ensures |Next(s, c).shards| == ShardCount
  {
    match c
    case TakeSeq(t, p, size, ctx, flags) =>
      if p == 0 || t in s.pending then s
      else s.(next := s.next + 1, pending := s.pending[t := AllocRec(p, size, ctx, flags, s.next)])
    case InsertRec(t) =>
      if t !in s.pending then s
      else s.(shards := Inserted(s.shards, s.pending[t]), pending := s.pending - {t})
    case Untrack(p) => s.(shards := Erased(s.shards, p))
    case NumberModule => s.(next := s.next + 1)
  }

  function Exec(s: State, steps: seq<Step>): (r: State)
    requires |s.shards| == ShardCount
    ensures |r.shards| == ShardCount
  {
    if steps == [] then s else Next(Exec(s, steps[..|steps| - 1]), steps[|steps| - 1])
  }

  function Initial(): State
  {
    State(seq(ShardCount, i => map[]), 1, map[])
  }

  /** Recorded and in-flight numbers are pairwise distinct, start at 1 and are below the next one. */
  ghost predicate Numbered(m: Shard, pending: map<nat, AllocRec>, next: nat)
  {
    && (forall p | p in m :: 0 < m[p].order < next)
    && (forall t | t in pending :: 0 < pending[t].order < next && pending[t].base != 0)
    && (forall p, q | p in m && q in m && p != q :: m[p].order != m[q].order)
    && (forall t, u | t in pending && u in pending && t != u :: pending[t].order != pending[u].order)
    && (forall p, t | p in m && t in pending :: m[p].order != pending[t].order)
  }

  ghost predicate Consistent(s: State)
  {
    s.next >= 1 && Placed(s.shards) && Numbered(Merged(s.shards), s.pending, s.next)
  }

  /** What a step does to the single map: the shards refine it. */
  ghost function NextMap(m: Shard, s: State, c: Step): Shard
  {
    match c
    case InsertRec(t) => if t in s.pending then m[s.pending[t].base := s.pending[t]] else m
    case Untrack(p) => m - {p}
    case _ => m
  }

  lemma {:induction false} InsertKeepsNumbers(m: Shard, pending: map<nat, AllocRec>, next: nat, t: nat)
    requires Numbered(m, pending, next) && t in pending
    ensures Numbered(m[pending[t].base := pending[t]], pending - {t}, next)
  {
  }

  lemma {:induction false} TakeKeepsNumbers(m: Shard, pending: map<nat, AllocRec>, next: nat, t: nat, rec: AllocRec)
    requires Numbered(m, pending, next) && t !in pending && next > 0 && rec.order == next && rec.base != 0
    ensures Numbered(m, pending[t := rec], next + 1)
  {
  }

  lemma {:induction false} InsertKeepsConsistent(s: State, t: nat)
    requires Consistent(s) && t in s.pending
    ensures Consistent(Next(s, InsertRec(t)))
    ensures Merged(Next(s, InsertRec(t)).shards) == NextMap(Merged(s.shards), s, InsertRec(t))
  {
    InsertMerged(s.shards, s.pending[t]);
    InsertKeepsNumbers(Merged(s.shards), s.pending, s.next, t);
  }

  lemma {:induction false} EraseKeepsConsistent(s: State, p: nat)
    requires Consistent(s)
    ensures Consistent(Next(s, Untrack(p)))
    ensures Merged(Next(s, Untrack(p)).shards) == NextMap(Merged(s.shards), s, Untrack(p))
  {
    EraseMerged(s.shards, p);
    assert Numbered(Merged(s.shards) - {p}, s.pending, s.next);
  }

  lemma {:induction false} TakeKeepsConsistent(s: State, t: nat, rec: AllocRec)
    requires Consistent(s) && t !in s.pending && rec.order == s.next && rec.base != 0
    ensures Consistent(s.(next := s.next + 1, pending := s.pending[t := rec]))
  {
    TakeKeepsNumbers(Merged(s.shards), s.pending, s.next, t, rec);
  }

  lemma {:induction false} CountKeepsConsistent(s: State)
    requires Consistent(s)
    ensures Consistent(s.(next := s.next + 1))
  {
  }

  lemma {:induction false} NextKeepsConsistent(s: State, c: Step)
    requires Consistent(s)
    ensures Consistent(Next(s, c))
    ensures Merged(Next(s, c).shards) == NextMap(Merged(s.shards), s, c)
  {
    match c
    case TakeSeq(t, p, size, ctx, flags) =>
      if p != 0 && t !in s.pending { TakeKeepsConsistent(s, t, AllocRec(p, size, ctx, flags, s.next)); }
    case InsertRec(t) =>
      if t in s.pending { InsertKeepsConsistent(s, t); }
    case Untrack(p) => EraseKeepsConsistent(s, p);
    case NumberModule => CountKeepsConsistent(s);
  }

  /** A call of TrackAlloc by one thread is its two critical sections, between which others may run. */
  lemma {:induction false} TrackIsTwoSections(s: State, t: nat, p: nat, size: nat, ctx: nat, flags: nat)
    requires |s.shards| == ShardCount && p != 0 && t !in s.pending
    ensures Exec(s, [TakeSeq(t, p, size, ctx, flags), InsertRec(t)]) ==
            State(Inserted(s.shards, AllocRec(p, size, ctx, flags, s.next)), s.next + 1, s.pending)
  {
    var steps := [TakeSeq(t, p, size, ctx, flags), InsertRec(t)];
    assert steps[..1][..0] == [] && steps[..1] == [steps[0]];
    assert Exec(s, steps[..1]) == Next(s, steps[0]);
    assert s.pending[t := AllocRec(p, size, ctx, flags, s.next)] - {t} == s.pending;
  }

  lemma {:induction false} InitialIsConsistent()
    ensures Consistent(Initial()) && Merged(Initial().shards) == map[]
  {
    forall p ensures p !in Merged(Initial().shards) {
      MergedAt(Initial().shards, p);
    }
  }

  /** Every reachable state, whatever the interleaving. */
  lemma {:induction false} ReachableIsConsistent(steps: seq<Step>)
    ensures Consistent(Exec(Initial(), steps))
  {
    if steps == [] {
      InitialIsConsistent();
    } else {
      ReachableIsConsistent(steps[..|steps| - 1]);
      NextKeepsConsistent(Exec(Initial(), steps[..|steps| - 1]), steps[|steps| - 1]);
    }
  }

  // ---------- sums over a map ----------

  ghost function SumSizes(m: Shard): nat
  {
    if m == map[] then 0 else
    var p :| p in m;
    m[p].size + SumSizes(m - {p})
  }

  lemma {:induction false} SumRemove(m: Shard, p: nat)
    requires p in m
    ensures SumSizes(m) == m[p].size + SumSizes(m - {p})
    decreases |m|
  {
    var q :| q in m && SumSizes(m) == m[q].size + SumSizes(m - {q});
    if q != p {
      SumRemove(m - {q}, p);
      SumRemove(m - {p}, q);
      assert m - {q} - {p} == m - {p} - {q};
    }
  }

  lemma {:induction false} SumUnion(a: Shard, b: Shard)
    requires a.Keys !! b.Keys
    ensures SumSizes(a + b) == SumSizes(a) + SumSizes(b)
    decreases a.Keys
  {
    if a == map[] {
      assert a + b == b;
    } else {
      var p :| p in a;
      var rest, u := a - {p}, a + b;
      SumRemove(a, p);
      SumRemove(u, p);
      assert u - {p} == rest + b && u[p] == a[p];
      assert rest.Keys < a.Keys;
      SumUnion(rest, b);
    }
  }

  /** One more shard adds its own pointers and no others. */
  lemma {:induction false} MergedNext(shards: seq<Shard>, n: nat)
    requires Homed(shards) && n < |shards|
    ensures Merged(shards[..n + 1]) == Merged(shards[..n]) + shards[n]
    ensures Merged(shards[..n]).Keys !! shards[n].Keys
  {
    assert shards[..n + 1][..n] == shards[..n];
    forall p | p in shards[n] ensures p !in Merged(shards[..n]) {
      MergedAt(shards[..n], p);
    }
  }

  lemma {:induction false} UnionSize(a: Shard, b: Shard)
    requires a.Keys !! b.Keys
    ensures |a + b| == |a| + |b|
  {
    assert (a + b).Keys == a.Keys + b.Keys;
    assert |(a + b).Keys| == |a.Keys| + |b.Keys|;
    assert |a + b| == |(a + b).Keys| && |a| == |a.Keys| && |b| == |b.Keys|;
  }

  // ---------- the class ----------

  class Tracker {
    var shards: seq<Shard>
    var nextSeq: nat

    constructor ()
      ensures shards == Initial().shards && nextSeq == Initial().next
    {
      shards := seq(ShardCount, i => map[]);
      nextSeq := 1;
    }

    /** The counter's critical section. */
    method TakeNumber() returns (n: nat)
      modifies this`nextSeq
      ensures n == old(nextSeq) && nextSeq == old(nextSeq) + 1
    {
      n := nextSeq;
      nextSeq := nextSeq + 1;
    }

    method TrackAlloc(p: nat, size: nat, ctx: nat, flags: nat)
      requires |shards| == ShardCount
      modifies this
      ensures p == 0 ==> shards == old(shards) && nextSeq == old(nextSeq)
      ensures p != 0 ==>
        && shards == Inserted(old(shards), AllocRec(p, size, ctx, flags, old(nextSeq)))
        && nextSeq == old(nextSeq) + 1
    {
      if p == 0 { return; }
      var n := TakeNumber();
      var k := ShardOf(p);
      var shard: Shard := shards[k][p := AllocRec(p, size, ctx, flags, n)];
      shards := shards[k := shard];
    }

    method UntrackAlloc(p: nat)
      requires |shards| == ShardCount
      modifies this`shards
      ensures shards == Erased(old(shards), p)
    {
      if p == 0 { return; }
      var k := ShardOf(p);
      var rest: Shard := shards[k] - {p};
      shards := shards[k := rest];
    }

    function LookupAlloc(p: nat): (r: Option<AllocRec>)
      reads this
      requires Placed(shards)
      ensures r == if p in Merged(shards) then Some(Merged(shards)[p]) else None
    {
      MergedAt(shards, p);
      var s := shards[ShardOf(p)];
      if p in s then Some(s[p]) else None
    }

    /** The records of one shard, in whatever order its map yields them. */
    method Collect(s: Shard, before: seq<AllocRec>) returns (v: seq<AllocRec>)
      requires forall p | p in s :: s[p].base == p
      ensures exists listed :: v == before + listed && Lists(listed, s)
    {
      var rest := s;
      ghost var listed: seq<AllocRec>, done: Shard := [], map[];
      v := before;
      while rest != map[]
        invariant forall p :: p in s <==> p in done || p in rest
        invariant forall p | p in rest :: p !in done && rest[p] == s[p]
        invariant forall p | p in done :: done[p] == s[p]
        invariant v == before + listed && Lists(listed, done)
        decreases |rest|
      {
        var p :| p in rest;
        ListsSnoc(listed, done, p, rest[p]);
        assert before + listed + [rest[p]] == before + (listed + [rest[p]]);
        v := v + [rest[p]];
        listed := listed + [rest[p]];
        done := done[p := rest[p]];
        rest := rest - {p};
      }
      assert done == s;
    }

    /** Shard after shard. */
    method CollectAll() returns (v: seq<AllocRec>)
      requires Placed(shards)
      ensures Lists(v, Merged(shards))
    {
      v := [];
      for i := 0 to ShardCount
        invariant Lists(v, Merged(shards[..i]))
      {
        var before := v;
        v := Collect(shards[i], before);
        ghost var listed :| v == before + listed && Lists(listed, shards[i]);
        MergedNext(shards, i);
        ListsUnion(before, Merged(shards[..i]), listed, shards[i]);
      }
      assert shards[..ShardCount] == shards;
    }

    /** With no concurrent caller: the records of the map, each once, strictly ordered by number. */
    method AllocsSnapshot() returns (v: seq<AllocRec>)
      requires Placed(shards) && Numbered(Merged(shards), map[], nextSeq)
      ensures Lists(v, Merged(shards))
      ensures forall i, j | 0 <= i < j < |v| :: v[i].order < v[j].order
    {
      var all := CollectAll();
      v := Sort(ByNumber(), all);
      SortSorts(ByNumber(), all);
      ListsPermuted(all, v, Merged(shards));
      DistinctNumbers(v, Merged(shards), nextSeq);
    }

    method AllocCount() returns (n: nat)
      requires Placed(shards)
      ensures n == |Merged(shards)|
    {
      n := 0;
      for i := 0 to ShardCount
        invariant n == |Merged(shards[..i])|
      {
        MergedNext(shards, i);
        UnionSize(Merged(shards[..i]), shards[i]);
        n := n + |shards[i]|;
      }
      assert shards[..ShardCount] == shards;
    }

    method TotalBytes() returns (t: nat)
      requires Placed(shards)
      ensures t == SumSizes(Merged(shards))
    {
      t := 0;
      for i := 0 to ShardCount
        invariant t == SumSizes(Merged(shards[..i]))
      {
        MergedNext(shards, i);
        SumUnion(Merged(shards[..i]), shards[i]);
        t := AddSizes(shards[i], t);
      }
      assert shards[..ShardCount] == shards;
    }

    method AddSizes(s: Shard, t0: nat) returns (t: nat)
      ensures t == t0 + SumSizes(s)
    {
      t := t0;
      var rest := s;
      while rest != map[]
        invariant t + SumSizes(rest) == t0 + SumSizes(s)
        decreases |rest|
      {
        var p :| p in rest;
        SumRemove(rest, p);
        t := t + rest[p].size;
        rest := rest - {p};
      }
    }
  }

  // ---------- lists of a map's records ----------

  function ByNumber(): AllocRec -> nat
  {
    (a: AllocRec) => a.order
  }

  /** v holds exactly the records of m, each once. */
  ghost predicate Lists(v: seq<AllocRec>, m: Shard)
  {
    && |v| == |m|
    && (forall i | 0 <= i < |v| :: v[i].base in m && m[v[i].base] == v[i])
    && (forall i, j | 0 <= i < j < |v| :: v[i].base != v[j].base)
  }

  lemma {:induction false} ListsSnoc(v: seq<AllocRec>, m: Shard, p: nat, rec: AllocRec)
    requires Lists(v, m) && p !in m && rec.base == p
    ensures Lists(v + [rec], m[p := rec])
  {
    assert m[p := rec].Keys == m.Keys + {p};
  }

  lemma {:induction false} ListsUnion(a: seq<AllocRec>, m: Shard, b: seq<AllocRec>, n: Shard)
    requires Lists(a, m) && Lists(b, n) && m.Keys !! n.Keys
    ensures Lists(a + b, m + n)
  {
    UnionSize(m, n);
  }

  lemma {:induction false} OnceEach(v: seq<AllocRec>, x: AllocRec)
    requires forall i, j | 0 <= i < j < |v| :: v[i].base != v[j].base
    ensures multiset(v)[x] <= 1
  {
    if v != [] {
      var front, last := v[..|v| - 1], v[|v| - 1];
      assert v == front + [last];
      OnceEach(front, x);
      assert last !in front;
    }
  }

  lemma {:induction false} TwiceThere(w: seq<AllocRec>, i: nat, j: nat)
    requires i < j < |w| && w[i] == w[j]
    ensures multiset(w)[w[i]] >= 2
  {
    assert w == w[..j] + [w[j]] + w[j + 1..];
    assert w[i] == w[..j][i] && w[i] in w[..j];
  }

  lemma {:induction false} ListsPermuted(v: seq<AllocRec>, w: seq<AllocRec>, m: Shard)
    requires Lists(v, m) && multiset(v) == multiset(w)
    ensures Lists(w, m)
  {
    assert |multiset(v)| == |v| && |multiset(w)| == |w|;
    forall i | 0 <= i < |w| ensures w[i].base in m && m[w[i].base] == w[i] {
      assert w[i] in multiset(w);
      assert w[i] in v;
    }
    forall i, j | 0 <= i < j < |w| ensures w[i].base != w[j].base {
      if w[i].base == w[j].base {
        TwiceThere(w, i, j);
        OnceEach(v, w[i]);
      }
    }
  }

  lemma {:induction false} DistinctNumbers(v: seq<AllocRec>, m: Shard, next: nat)
    requires Lists(v, m) && InOrder(ByNumber(), v) && Numbered(m, map[], next)
    ensures forall i, j | 0 <= i < j < |v| :: v[i].order < v[j].order
  {
    forall i, j | 0 <= i < j < |v| ensures v[i].order < v[j].order {
      assert ByNumber()(v[i]) <= ByNumber()(v[j]);
      assert m[v[i].base].order != m[v[j].base].order;
    }
  }

  /** The sum over any list of the records is the sum over the map. */
  lemma {:induction false} ListTotal(v: seq<AllocRec>, m: Shard)
    requires Lists(v, m)
    ensures TotalSize(v) == SumSizes(m)
  {
    if v != [] {
      var n := |v| - 1;
      var p := v[n].base;
      SumRemove(m, p);
      assert (m - {p}).Keys == m.Keys - {p};
      ListTotal(v[..n], m - {p});
    } else {
      assert m == map[];
    }
  }

  /** What a snapshot needs of its allocations holds of the snapshot of the index, as long as the driver
      hands out disjoint ranges and fewer than 2^32 numbers were drawn. */
  lemma {:induction false} SnapshotIsLive(v: seq<AllocRec>, m: Shard, next: nat)
    requires Lists(v, m) && Numbered(m, map[], next) && next <= U32
    requires forall i, j | 0 <= i < j < |v| :: v[i].order < v[j].order
    requires forall p | p in m :: m[p].base + m[p].size < U64
    requires forall p, q | p in m && q in m && p != q :: Disjoint(m[p].base, m[p].size, m[q].base, m[q].size)
    ensures LiveAllocs(v)
  {
    forall i | 0 <= i < |v| ensures v[i].base + v[i].size < U64 && 0 < v[i].order < U32 {
      assert m[v[i].base] == v[i];
    }
    forall i, j | 0 <= i < j < |v| ensures Disjoint(v[i].base, v[i].size, v[j].base, v[j].size) {
      assert m[v[i].base] == v[i] && m[v[j].base] == v[j];
    }
  }
}
