/** Byte strings, and fixed-width unsigned integers in both byte orders. */
module Bytes {

  type byte = b: int | 0 <= b < 256
  type Bytes = seq<byte>

  datatype Option<+T> = None | Some(value: T)

  /** Concatenation of a list of byte strings. */
  function Concat(parts: seq<Bytes>): (r: Bytes)
  {
    if parts == [] then [] else parts[0] + Concat(parts[1..])
  }

  lemma {:induction false} ConcatAppend(a: seq<Bytes>, b: seq<Bytes>)
    ensures Concat(a + b) == Concat(a) + Concat(b)
  {
    if a == [] {
      assert a + b == b;
    } else {
      ConcatAppend(a[1..], b);
      ConcatUnfold(a, b);
      assert a[0] + (Concat(a[1..]) + Concat(b)) == (a[0] + Concat(a[1..])) + Concat(b);
    }
  }

  lemma {:induction false} ConcatUnfold(a: seq<Bytes>, b: seq<Bytes>)
    requires a != []
    ensures Concat(a + b) == a[0] + Concat(a[1..] + b)
  {
    assert (a + b)[0] == a[0] && (a + b)[1..] == a[1..] + b;
  }

  lemma {:induction false} ConcatSnoc(a: seq<Bytes>, x: Bytes)
    ensures Concat(a + [x]) == Concat(a) + x
  {
    ConcatAppend(a, [x]);
    assert Concat([x]) == x + Concat([]);
  }

  function ZeroBytes(n: nat): (r: Bytes)
    ensures |r| == n
    ensures forall i | 0 <= i < n :: r[i] == 0
  {
    seq(n, i => 0)
  }

  /** The text a C string function sees: everything before the first zero byte. */
  function CString(b: Bytes): (r: Bytes)
    ensures 0 !in b ==> r == b
    ensures 0 !in r && |r| <= |b|
  {
    if b == [] || b[0] == 0 then [] else [b[0]] + CString(b[1..])
  }

  lemma {:induction false} CStringEndsAtZero(b: Bytes)
    ensures var r := CString(b); r == b[..|r|] && (|r| < |b| ==> b[|r|] == 0)
  {
    if b != [] && b[0] != 0 {
      CStringEndsAtZero(b[1..]);
      assert b == [b[0]] + b[1..];
    }
  }

  function Pow2(k: nat): (r: nat)
    ensures r > 0
  {
    if k == 0 then 1 else 2 * Pow2(k - 1)
  }

  /** The exclusive or of the k low bits. */
  function Xor(a: nat, b: nat, k: nat): (r: nat)
    decreases k
  {
    if k == 0 then 0 else (if a % 2 == b % 2 then 0 else 1) + 2 * Xor(a / 2, b / 2, k - 1)
  }

  // ---------- unsigned integers of k bytes ----------

  function Pow256(k: nat): (r: nat)
    ensures r > 0
  {
    if k == 0 then 1 else 256 * Pow256(k - 1)
  }

  /** The k low bytes of n, least significant first; a larger n is truncated as the source's casts do. */
  function LE(n: nat, k: nat): (r: Bytes)
    ensures |r| == k
    decreases k
  {
    if k == 0 then [] else [n % 256] + LE(n / 256, k - 1)
  }

  function FromLE(b: Bytes): (r: nat)
    ensures r < Pow256(|b|)
  {
    if b == [] then 0 else b[0] + 256 * FromLE(b[1..])
  }

  lemma {:induction false} LERoundTrip(n: nat, k: nat)
    requires n < Pow256(k)
    ensures FromLE(LE(n, k)) == n
    decreases k
  {
    if k != 0 {
      LERoundTrip(n / 256, k - 1);
      assert LE(n, k)[1..] == LE(n / 256, k - 1);
    }
  }

  /** Most significant byte first. */
  function BE(n: nat, k: nat): (r: Bytes)
    ensures |r| == k
    decreases k
  {
    if k == 0 then [] else BE(n / 256, k - 1) + [n % 256]
  }

  function FromBE(b: Bytes): (r: nat)
    ensures r < Pow256(|b|)
  {
    if b == [] then 0 else 256 * FromBE(b[..|b| - 1]) + b[|b| - 1]
  }

  lemma {:induction false} BERoundTrip(n: nat, k: nat)
    requires n < Pow256(k)
    ensures FromBE(BE(n, k)) == n
    decreases k
  {
    if k != 0 {
      BERoundTrip(n / 256, k - 1);
      assert BE(n, k)[..k - 1] == BE(n / 256, k - 1);
    }
  }

  /** The weights of the bytes, lowest first. */
  lemma {:induction false} LittleEndian(b: Bytes)
    ensures |b| == 2 ==> FromLE(b) == b[0] as nat + 0x100 * b[1] as nat
    ensures |b| == 4 ==> FromLE(b) == b[0] as nat + 0x100 * b[1] as nat + 0x1_0000 * b[2] as nat
                                     + 0x100_0000 * b[3] as nat
    ensures |b| == 8 ==> FromLE(b) == FromLE(b[..4]) + 0x1_0000_0000 * FromLE(b[4..])
  {
    if 2 <= |b| {
      assert FromLE(b[1..]) == b[1] + 256 * FromLE(b[1..][1..]) && b[1..][1..] == b[2..];
    }
    if 4 <= |b| {
      assert FromLE(b[2..]) == b[2] + 256 * FromLE(b[2..][1..]) && b[2..][1..] == b[3..];
      assert FromLE(b[3..]) == b[3] + 256 * FromLE(b[3..][1..]) && b[3..][1..] == b[4..];
      assert FromLE(b) == b[0] as nat + 0x100 * b[1] as nat + 0x1_0000 * b[2] as nat + 0x100_0000 * b[3] as nat
                          + 0x1_0000_0000 * FromLE(b[4..]);
    }
    if |b| == 8 {
      var low := b[..4];
      LittleEndian(low);
    }
  }

  /** And highest first. */
  lemma {:induction false} BigEndian(b: Bytes)
    requires |b| == 4
    ensures FromBE(b) == 0x100_0000 * b[0] as nat + 0x1_0000 * b[1] as nat + 0x100 * b[2] as nat + b[3] as nat
  {
    assert FromBE(b[..3]) == 256 * FromBE(b[..3][..2]) + b[2] && b[..3][..2] == b[..2];
    assert FromBE(b[..2]) == 256 * FromBE(b[..2][..1]) + b[1] && b[..2][..1] == b[..1];
    assert FromBE(b[..1]) == 256 * FromBE(b[..1][..0]) + b[0];
  }

  const U16: nat := 0x1_0000
  const U32: nat := 0x1_0000_0000
  const U64: nat := 0x1_0000_0000_0000_0000

  lemma {:induction false} Widths()
    ensures Pow256(2) == U16 && Pow256(4) == U32 && Pow256(8) == U64
  {
    assert Pow256(1) == 256;
    assert Pow256(3) == 256 * Pow256(2);
    assert Pow256(5) == 256 * Pow256(4);
    assert Pow256(6) == 256 * Pow256(5);
    assert Pow256(7) == 256 * Pow256(6);
  }
}
