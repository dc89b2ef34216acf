/** Address spaces (device or host) as total byte maps, and the allocation records over them. */
module Memory {
  import opened Bytes

  type Mem = nat -> byte

  datatype AllocRec = AllocRec(base: nat, size: nat, ctx: nat, flags: nat, order: nat)

  function Read(mem: Mem, base: nat, size: nat): (r: Bytes)
    ensures |r| == size
  {
    seq(size, i requires 0 <= i < size => mem(base + i))
  }

  function WriteByte(mem: Mem, addr: nat, b: byte): Mem
  {
    (a: nat) => if a == addr then b else mem(a)
  }

  function Write(mem: Mem, base: nat, data: Bytes): Mem
  {
    (a: nat) => if base <= a < base + |data| then data[a - base] else mem(a)
  }

  predicate Disjoint(b1: nat, s1: nat, b2: nat, s2: nat)
  {
    b1 + s1 <= b2 || b2 + s2 <= b1
  }

  lemma {:induction false} ReadSplit(mem: Mem, base: nat, s1: nat, s2: nat)
    ensures Read(mem, base, s1 + s2) == Read(mem, base, s1) + Read(mem, base + s1, s2)
  {
  }

  lemma {:induction false} ReadSlice(mem: Mem, base: nat, size: nat, off: nat, n: nat)
    requires off + n <= size
    ensures Read(mem, base, size)[off..off + n] == Read(mem, base + off, n)
  {
  }

  /** What the tracker hands to a snapshot: live allocations in the order they were made, disjoint,
      inside the 64-bit address space, with orders that fit the manifest field. */
  ghost predicate LiveAllocs(allocs: seq<AllocRec>)
  {
    && (forall i | 0 <= i < |allocs| :: allocs[i].base + allocs[i].size < U64 && 0 < allocs[i].order < U32)
    && (forall i, j | 0 <= i < j < |allocs| :: allocs[i].order < allocs[j].order)
    && (forall i, j | 0 <= i < j < |allocs| :: Disjoint(allocs[i].base, allocs[i].size, allocs[j].base, allocs[j].size))
  }
}
