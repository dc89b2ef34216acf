/** The CRC32C of shim/snapshot.cu: the table-driven code, its agreement with polynomial division
    (section 12.1 of RFC 3720), and the corruptions it detects.  A uint32_t is the list of its 32
    bits, lowest first. */
module Crc32c {
  import opened Bytes
  import opened Polynomial

  // ---------- machine words ----------

  /** The k low bits of n, lowest first. */
  function BitsOf(n: nat, k: nat): (r: Bits)
    ensures |r| == k
    decreases k
  {
    if k == 0 then [] else [n % 2 == 1] + BitsOf(n / 2, k - 1)
  }

  function ValueOf(b: Bits): (r: nat)
    ensures r < Pow2(|b|)
  {
    if b == [] then 0 else (if b[0] then 1 else 0) + 2 * ValueOf(b[1..])
  }

  lemma {:induction false} BitsOfValue(b: Bits)
    ensures BitsOf(ValueOf(b), |b|) == b
  {
    if b != [] {
      BitsOfValue(b[1..]);
      var n, m := ValueOf(b), ValueOf(b[1..]);
      assert n / 2 == m && (n % 2 == 1) == b[0];
    }
  }

  lemma {:induction false} ValueOfBits(n: nat, k: nat)
    requires n < Pow2(k)
    ensures ValueOf(BitsOf(n, k)) == n
    decreases k
  {
    if k != 0 {
      ValueOfBits(n / 2, k - 1);
      assert BitsOf(n, k)[1..] == BitsOf(n / 2, k - 1);
    }
  }

  /** A smaller value leaves the upper bits clear. */
  lemma {:induction false} BitsWiden(n: nat, k: nat, w: nat)
    requires n < Pow2(k) && k <= w
    ensures BitsOf(n, w) == BitsOf(n, k) + Zeros(w - k)
    decreases w
  {
    if k == 0 < w {
      BitsWiden(0, 0, w - 1);
      assert Zeros(w) == [false] + Zeros(w - 1);
    } else if 0 < w {
      BitsWiden(n / 2, k - 1, w - 1);
    }
  }

  /** The widths of a word and of a byte, as functions: a literal here would make the solver unroll
      every recursion on it. */
  function WordWidth(): (w: nat)
    ensures w == 32
  {
    |Poly()|
  }

  function ByteWidth(): (w: nat)
    ensures w == 8
  {
    |Poly()| / 4
  }

  function WordOf(n: nat): Reg { BitsOf(n, WordWidth()) }

  function ByteBits(b: byte): (r: Bits)
    ensures |r| == 8
  {
    BitsOf(b, ByteWidth())
  }

  /** c >> 8 */
  function ShiftByte(c: Reg): Reg { c[8..] + Zeros(8) }

  function DataBits(data: Bytes): (r: Bits)
    ensures |r| == 8 * |data|
  {
    if data == [] then [] else Snoc(DataBits(data[..|data| - 1]), ByteBits(data[|data| - 1]))
  }

  function Snoc(front: Bits, last: Bits): (r: Bits)
    ensures |r| == |front| + |last| && r == front + last
  {
    front + last
  }

  // ---------- the checksum ----------

  function Update(c: Reg, data: Bytes): Reg { Feed(c, DataBits(data)) }

  function Checksum(data: Bytes): Reg { XorPrefix(Update(Ones(32), data), Ones(32)) }

  /** The stored uint32 value. */
  function Crc(data: Bytes): (r: nat)
    ensures r < U32
  {
    Pow2Of32();
    ValueOf(Checksum(data))
  }

  lemma {:induction false} Pow2Of32()
    ensures Pow2(8) == 256 && Pow2(32) == U32
  {
    assert Pow2(4) == 16;
    assert Pow2(8) == 256;
    assert Pow2(12) == 4096;
    assert Pow2(16) == 65536;
    assert Pow2(20) == 0x10_0000;
    assert Pow2(24) == 0x100_0000;
    assert Pow2(28) == 0x1000_0000;
  }

  /** What one turn of the loop of crc32c does to the register. */
  lemma {:induction false} CodeByte(c: Reg, b: byte)
    ensures var low := XorPrefix(c, ByteBits(b))[..8];
            ValueOf(low) < 256 && XorPrefix(TableEntry(ValueOf(low)), ShiftByte(c)) == Feed(c, ByteBits(b))
  {
    var low := XorPrefix(c, ByteBits(b))[..8];
    Pow2Of32();
    BitsOfValue(low);
    BitsWiden(ValueOf(low), 8, WordWidth());
    TableStep(c, b);
  }

  lemma {:induction false} UpdateSnoc(c: Reg, data: Bytes, i: nat)
    requires i < |data|
    ensures Update(c, data[..i + 1]) == Feed(Update(c, data[..i]), ByteBits(data[i]))
  {
    assert data[..i + 1][..i] == data[..i];
    FeedAppend(c, DataBits(data[..i]), ByteBits(data[i]));
  }

  /** One table lookup plus a shift does the work of feeding the eight bits of a byte. */
  lemma {:induction false} TableStep(c: Reg, b: byte)
    ensures XorPrefix(Steps(XorPrefix(c, ByteBits(b))[..8] + Zeros(24), ByteWidth()), ShiftByte(c)) ==
        Feed(c, ByteBits(b))
  {
    var x: Reg := XorPrefix(c, ByteBits(b));
    assert x[8..] == c[8..];
    StepsLowHigh(x);
    StepsFeed(c, ByteBits(b));
  }

  lemma {:induction false} StepsLowHigh(x: Reg)
    ensures XorPrefix(Steps(x[..8] + Zeros(24), ByteWidth()), x[8..] + Zeros(8)) == Steps(x, ByteWidth())
  {
    var low: Reg, high: Reg := x[..8] + Zeros(24), Zeros(8) + x[8..];
    assert x == XorPrefix(low, high);
    StepsLinear(low, high, ByteWidth());
    StepsShift(high, ByteWidth());
    assert high[8..] == x[8..];
  }

  function TableEntry(i: nat): Reg { Steps(WordOf(i), ByteWidth()) }

  ghost predicate Filled(table: seq<Reg>)
  {
    forall i | 0 <= i < |table| :: table[i] == TableEntry(i)
  }

  class Table {
    var entries: array<Reg>
    var ready: bool

    ghost predicate Valid()
      reads this, entries
    {
      && entries.Length == 256
      && (ready ==> Filled(entries[..]))
    }

    constructor ()
      ensures Valid() && !ready && fresh(entries)
    {
      entries := new Reg[256];
      ready := false;
    }

    /** init_crc */
    method Init()
      requires Valid()
      modifies this`ready, entries
      ensures Valid() && ready && entries == old(entries)
    {
      if ready { return; }
      for i := 0 to 256
        invariant entries == old(entries) && entries.Length == 256
        invariant Filled(entries[..i])
      {
        var c := Entry(i);
        ghost var done := entries[..i];
        entries[i] := c;
        assert entries[..i + 1] == done + [c];
      }
      ready := true;
      assert entries[..] == entries[..256];
    }

    /** The inner loop of init_crc. */
    static method Entry(i: nat) returns (c: Reg)
      ensures c == TableEntry(i)
    {
      c := WordOf(i);
      for k := 0 to 8
        invariant TableEntry(i) == Steps(c, ByteWidth() - k)
      {
        CodeStep(c);
        c := if c[0] then XorPrefix(Poly(), Shift(c)) else Shift(c);
      }
    }

    /** crc32c */
    method Compute(data: Bytes) returns (crc: Reg)
      requires Valid()
      modifies this`ready, entries
      ensures Valid() && entries == old(entries)
      ensures crc == Checksum(data)
    {
      Init();
      var c: Reg := Ones(32);
      assert DataBits(data[..0]) == [];
      for i := 0 to |data|
        invariant Valid() && ready && entries == old(entries)
        invariant c == Update(Ones(32), data[..i])
      {
        CodeByte(c, data[i]);
        UpdateSnoc(Ones(32), data, i);
        var low := XorPrefix(c, ByteBits(data[i]))[..8];
        c := XorPrefix(entries[ValueOf(low)], ShiftByte(c));
      }
      assert data[..|data|] == data;
      crc := XorPrefix(c, Ones(32));
    }
  }

  /** The step as the code writes it. */
  lemma {:induction false} CodeStep(c: Reg)
    ensures (if c[0] then XorPrefix(Poly(), Shift(c)) else Shift(c)) == Step(c)
  {
    assert XorPrefix(Poly(), Shift(c)) == XorPrefix(Shift(c), Poly());
  }

  /** The two constants of the code: the generator without its leading term, reflected, and all ones. */
  lemma {:induction false} Constants()
    ensures ValueOf(Poly()) == 0x82F6_3B78
    ensures ValueOf(Ones(32)) == 0xFFFF_FFFF
  {
    PolyValue();
    OnesValue(32);
    Pow2Of32();
  }

  lemma {:induction false} OnesValue(n: nat)
    ensures ValueOf(Ones(n)) == Pow2(n) - 1
  {
    if n > 0 {
      assert Ones(n)[1..] == Ones(n - 1);
      OnesValue(n - 1);
    }
  }

  lemma {:induction false} PolyValue()
    ensures ValueOf(Poly()) == 0x82F6_3B78
  {
    var p := Poly();
    Nibbles(p);
    PolyDigits();
  }

  lemma {:induction false} PolyDigits()
    ensures var p := Poly();
            && Digit(p) == 8 && Digit(p[4..]) == 7 && Digit(p[8..]) == 11 && Digit(p[12..]) == 3
            && Digit(p[16..]) == 6 && Digit(p[20..]) == 15 && Digit(p[24..]) == 2 && Digit(p[28..]) == 8
  {
    var p := Poly();
    assert Digit(p) == 8 && Digit(p[4..]) == 7 && Digit(p[8..]) == 11 && Digit(p[12..]) == 3;
    assert Digit(p[16..]) == 6 && Digit(p[20..]) == 15 && Digit(p[24..]) == 2 && Digit(p[28..]) == 8;
  }

  function Digit(b: Bits): nat
    requires |b| >= 4
  {
    (if b[0] then 1 else 0) + (if b[1] then 2 else 0) + (if b[2] then 4 else 0) + (if b[3] then 8 else 0)
  }

  lemma {:induction false} ValueDigit(b: Bits)
    requires |b| >= 4
    ensures ValueOf(b) == Digit(b) + 16 * ValueOf(b[4..])
  {
    assert b[1..][1..] == b[2..] && b[2..][1..] == b[3..] && b[3..][1..] == b[4..];
    assert ValueOf(b[2..]) == (if b[2] then 1 else 0) + 2 * ValueOf(b[3..]);
  }

  lemma {:induction false} Nibbles(r: Reg)
    ensures ValueOf(r) == Digit(r) + 0x10 * Digit(r[4..]) + 0x100 * Digit(r[8..]) + 0x1000 * Digit(r[12..])
                        + 0x1_0000 * Digit(r[16..]) + 0x10_0000 * Digit(r[20..]) + 0x100_0000 * Digit(r[24..])
                        + 0x1000_0000 * Digit(r[28..])
  {
    ValueDigit(r);
    ValueDigit(r[4..]);
    ValueDigit(r[8..]);
    ValueDigit(r[12..]);
    ValueDigit(r[16..]);
    ValueDigit(r[20..]);
    ValueDigit(r[24..]);
    ValueDigit(r[28..]);
    assert r[4..][4..] == r[8..] && r[8..][4..] == r[12..] && r[12..][4..] == r[16..] && r[16..][4..] == r[20..];
    assert r[20..][4..] == r[24..] && r[24..][4..] == r[28..] && r[28..][4..] == [];
  }

  // ---------- the same on machine words ----------

  lemma {:induction false} HalfOfPower(n: nat, j: nat)
    requires j < 7
    ensures n / 2 / Pow2(j) == n / Pow2(j + 1)
  {
    assert Pow2(1) == 2 && Pow2(2) == 4 && Pow2(3) == 8;
    assert Pow2(4) == 2 * Pow2(3) && Pow2(5) == 2 * Pow2(4) && Pow2(6) == 2 * Pow2(5) && Pow2(7) == 2 * Pow2(6);
    match j
    case 0 =>
    case 1 =>
    case 2 =>
    case 3 =>
    case 4 =>
    case 5 =>
    case 6 =>
  }

  /** Bit j of a number has the weight 2 to the j-th. */
  lemma {:induction false} BitAt(n: nat, k: nat, j: nat)
    requires j < k && j < 8
    ensures BitsOf(n, k)[j] <==> n / Pow2(j) % 2 == 1
    decreases k
  {
    if j > 0 {
      BitAt(n / 2, k - 1, j - 1);
      HalfOfPower(n, j - 1);
    }
  }

  /** Bytes are transmitted in order, each from its lowest bit. */
  lemma {:induction false} DataBitIs(data: Bytes, i: nat, j: nat)
    requires i < |data| && j < 8
    ensures DataBits(data)[8 * i + j] <==> data[i] / Pow2(j) % 2 == 1
  {
    DataBitAt(data, i, j);
    BitAt(data[i], ByteWidth(), j);
  }

  /** One bit step: c & 1 ? 0x82F63B78 ^ (c >> 1) : c >> 1. */
  function StepWord(c: nat): nat
  {
    if c % 2 == 1 then Xor(0x82F6_3B78, c / 2, WordWidth()) else c / 2
  }

  function StepsWord(c: nat, k: nat): nat
    decreases k
  {
    if k == 0 then c else StepsWord(StepWord(c), k - 1)
  }

  /** The bitwise CRC32C, byte after byte, before the final complement. */
  function BitwiseCrc(data: Bytes): nat
  {
    if data == [] then 0xFFFF_FFFF
    else StepsWord(Xor(BitwiseCrc(data[..|data| - 1]), data[|data| - 1], WordWidth()), ByteWidth())
  }

  lemma {:induction false} ValueOfXor(a: Bits, b: Bits)
    requires |a| == |b|
    ensures ValueOf(XorPrefix(a, b)) == Xor(ValueOf(a), ValueOf(b), |a|)
  {
    if a != [] {
      ValueOfXor(a[1..], b[1..]);
      assert XorPrefix(a, b)[1..] == XorPrefix(a[1..], b[1..]);
    }
  }

  lemma {:induction false} ValueOfZeros(b: Bits, n: nat)
    ensures ValueOf(b + Zeros(n)) == ValueOf(b)
  {
    if b != [] {
      ValueOfZeros(b[1..], n);
      assert (b + Zeros(n))[1..] == b[1..] + Zeros(n);
    } else if n > 0 {
      ValueOfZeros([], n - 1);
      assert [] + Zeros(n) == Zeros(n) && Zeros(n)[1..] == [] + Zeros(n - 1);
    }
  }

  lemma {:induction false} StepOnWord(c: Reg)
    ensures ValueOf(Step(c)) == StepWord(ValueOf(c))
  {
    assert Shift(c) == c[1..] + Zeros(1);
    ValueOfZeros(c[1..], 1);
    assert ValueOf(Shift(c)) == ValueOf(c) / 2;
    CodeStep(c);
    ValueOfXor(Poly(), Shift(c));
    Constants();
  }

  lemma {:induction false} StepsOnWord(c: Reg, k: nat)
    ensures ValueOf(Steps(c, k)) == StepsWord(ValueOf(c), k)
    decreases k
  {
    if k > 0 {
      StepOnWord(c);
      StepsOnWord(Step(c), k - 1);
    }
  }

  lemma {:induction false} ByteOnWord(c: Reg, b: byte)
    ensures ValueOf(XorPrefix(c, ByteBits(b))) == Xor(ValueOf(c), b, WordWidth())
  {
    var wide := ByteBits(b) + Zeros(24);
    assert XorPrefix(c, ByteBits(b)) == XorPrefix(c, wide);
    ValueOfZeros(ByteBits(b), 24);
    Pow2Of32();
    ValueOfBits(b, ByteWidth());
    ValueOfXor(c, wide);
  }

  lemma {:induction false} BitwiseRegister(data: Bytes)
    ensures ValueOf(Update(Ones(32), data)) == BitwiseCrc(data)
  {
    if data == [] {
      Constants();
      assert Update(Ones(32), []) == Ones(32);
    } else {
      var n := |data| - 1;
      BitwiseRegister(data[..n]);
      UpdateLast(data);
      FeedOnWord(Update(Ones(32), data[..n]), data[n]);
    }
  }

  lemma {:induction false} UpdateLast(data: Bytes)
    requires data != []
    ensures var n := |data| - 1;
            Update(Ones(32), data) == Feed(Update(Ones(32), data[..n]), ByteBits(data[n]))
  {
    UpdateSnoc(Ones(32), data, |data| - 1);
    assert data[..|data| - 1 + 1] == data;
  }

  lemma {:induction false} FeedOnWord(c: Reg, b: byte)
    ensures ValueOf(Feed(c, ByteBits(b))) == StepsWord(Xor(ValueOf(c), b, WordWidth()), ByteWidth())
  {
    StepsFeed(c, ByteBits(b));
    StepsOnWord(XorPrefix(c, ByteBits(b)), ByteWidth());
    ByteOnWord(c, b);
  }

  /** The checksum is the bitwise CRC32C of the bytes, as arithmetic on 32-bit numbers. */
  lemma {:induction false} CrcIsBitwise(data: Bytes)
    ensures Crc(data) == Xor(BitwiseCrc(data), 0xFFFF_FFFF, WordWidth())
  {
    BitwiseRegister(data);
    ValueOfXor(Update(Ones(32), data), Ones(32));
    Constants();
  }

  // ---------- what the checksum is, and what it detects ----------

  /** CRC32C by its definition: complement the first 32 bits of the message, append 32 zero bits,
      take the remainder by the generator, complement it. */
  lemma {:induction false} ChecksumIsRemainder(data: Bytes)
    ensures Checksum(data) == XorPrefix(Rem(XorPrefix(DataBits(data) + Zeros(32), Ones(32))), Ones(32))
  {
    FeedIsRemainder(Ones(32), DataBits(data));
  }

  lemma {:induction false} DataBitAt(data: Bytes, i: nat, j: nat)
    requires i < |data| && j < 8
    ensures DataBits(data)[8 * i + j] == ByteBits(data[i])[j]
    decreases |data|
  {
    if i < |data| - 1 {
      DataBitAt(data[..|data| - 1], i, j);
    }
  }

  lemma {:induction false} CrcFollowsChecksum(a: Bytes, b: Bytes)
    requires Checksum(a) != Checksum(b)
    ensures Crc(a) != Crc(b)
  {
    BitsOfValue(Checksum(a));
    BitsOfValue(Checksum(b));
  }

  /** The index of the first difference. */
  lemma {:induction false} FirstDifference<T>(a: seq<T>, b: seq<T>) returns (f: nat)
    requires |a| == |b| && a != b
    ensures f < |a| && a[..f] == b[..f] && a[f] != b[f]
  {
    f := 0;
    while f < |a| && a[f] == b[f]
      invariant f <= |a| && a[..f] == b[..f]
    {
      f := f + 1;
    }
  }

  /** Every corruption confined to 32 consecutive bits, in transmission order, changes the checksum. */
  lemma {:induction false} BurstChangesCrc(a: Bytes, b: Bytes, start: nat)
    requires |a| == |b| && a != b
    requires forall k | 0 <= k < 8 * |a| && !(start <= k < start + 32) :: DataBits(a)[k] == DataBits(b)[k]
    ensures Crc(a) != Crc(b)
  {
    DataBitsInjective(a, b);
    BurstChangesFeed(Ones(32), DataBits(a), DataBits(b), start);
    XorCancels(Update(Ones(32), a), Update(Ones(32), b), Ones(32));
    CrcFollowsChecksum(a, b);
  }

  lemma {:induction false} BurstChangesFeed(r: Reg, x: Bits, y: Bits, start: nat)
    requires |x| == |y| && x != y
    requires forall k | 0 <= k < |x| && !(start <= k < start + 32) :: x[k] == y[k]
    ensures Feed(r, x) != Feed(r, y)
  {
    var f := FirstDifference(x, y);
    BurstChangesRegister(r, x, y, f, |x|);
    assert x[..|x|] == x && y[..|y|] == y;
  }

  lemma {:induction false} XorCancels(x: Reg, y: Reg, m: Reg)
    requires x != y
    ensures XorPrefix(x, m) != XorPrefix(y, m)
  {
    var i :| 0 <= i < 32 && x[i] != y[i];
    assert XorPrefix(x, m)[i] != XorPrefix(y, m)[i];
  }

  lemma {:induction false} DataBitsInjective(a: Bytes, b: Bytes)
    requires |a| == |b| && a != b
    ensures DataBits(a) != DataBits(b)
  {
    var i := FirstDifference(a, b);
    Pow2Of32();
    ValueOfBits(a[i], 8);
    ValueOfBits(b[i], 8);
    var j := FirstDifference(ByteBits(a[i]), ByteBits(b[i]));
    DataBitAt(a, i, j);
    DataBitAt(b, i, j);
  }

  lemma {:induction false} SameByteSameBit(a: Bytes, b: Bytes, i: nat, j: nat)
    requires |a| == |b| && i < |a| && j < 8 && a[i] == b[i]
    ensures DataBits(a)[8 * i + j] == DataBits(b)[8 * i + j]
  {
    DataBitAt(a, i, j);
    DataBitAt(b, i, j);
  }

  /** The same for bytes: two strings that differ only inside four consecutive bytes. */
  lemma {:induction false} WindowChangesCrc(a: Bytes, b: Bytes, p: nat)
    requires |a| == |b| && a != b
    requires forall i | 0 <= i < |a| && !(p <= i < p + 4) :: a[i] == b[i]
    ensures Crc(a) != Crc(b)
  {
    forall k | 0 <= k < 8 * |a| && !(8 * p <= k < 8 * p + 32)
      ensures DataBits(a)[k] == DataBits(b)[k]
    {
      SameByteSameBit(a, b, k / 8, k % 8);
    }
    BurstChangesCrc(a, b, 8 * p);
  }
}
