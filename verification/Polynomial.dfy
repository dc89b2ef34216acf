/** Polynomials over GF(2) as bit strings, and the 32-bit division register of CRC32C
    (generator and bit order of section 12.1 of RFC 3720).  Index 0 of a register is the coefficient
    of x^31, which the reflected code keeps in its lowest bit. */
module Polynomial {

  type Bits = seq<bool>
  type Reg = r: Bits | |r| == 32
    witness [false, false, false, false, false, false, false, false,
             false, false, false, false, false, false, false, false,
             false, false, false, false, false, false, false, false,
             false, false, false, false, false, false, false, false]

  /** Exponents of the generator 0x11EDC6F41. */
  predicate Term(e: int)
  {
    e in {32, 28, 27, 26, 25, 23, 22, 20, 19, 18, 14, 13, 11, 10, 9, 8, 6, 0}
  }

  function Generator(): (r: Bits)
    ensures |r| == 33 && forall i | 0 <= i < 33 :: r[i] == Term(32 - i)
  {
    seq(33, i => Term(32 - i))
  }

  function Poly(): (r: Reg)
    ensures forall i | 0 <= i < 32 :: r[i] == Term(31 - i)
  {
    seq(32, i => Term(31 - i))
  }

  function Zeros(n: nat): (r: Bits)
    ensures |r| == n
  {
    seq(n, i => false)
  }

  function Ones(n: nat): (r: Bits)
    ensures |r| == n
  {
    seq(n, i => true)
  }

  /** Adds p to the front of w. */
  function XorPrefix(w: Bits, p: Bits): (r: Bits)
    ensures |r| == |w|
  {
    seq(|w|, i requires 0 <= i < |w| => if i < |p| then w[i] != p[i] else w[i])
  }

  /** Schoolbook division: cancel the leading coefficient with the generator until 32 remain. */
  function Rem(w: Bits): (r: Reg)
    requires |w| >= 32
    decreases |w|
  {
    if |w| == 32 then w
    else if w[0] then Rem(XorPrefix(w, Generator())[1..])
    else Rem(w[1..])
  }

  // ---------- the register ----------

  function Shift(r: Reg): Reg { r[1..] + [false] }

  function Step(r: Reg): Reg
  {
    if r[0] then XorPrefix(Shift(r), Poly()) else Shift(r)
  }

  function Steps(r: Reg, k: nat): Reg
    decreases k
  {
    if k == 0 then r else Steps(Step(r), k - 1)
  }

  function Push(r: Reg, b: bool): Reg { Step(r[0 := r[0] != b]) }

  function Feed(r: Reg, bits: Bits): Reg
  {
    if bits == [] then r else Push(Feed(r, bits[..|bits| - 1]), bits[|bits| - 1])
  }

  lemma {:induction false} FeedAppend(r: Reg, a: Bits, b: Bits)
    ensures Feed(r, a + b) == Feed(Feed(r, a), b)
  {
    if b == [] {
      assert a + b == a;
    } else {
      var n := |b| - 1;
      FeedAppend(r, a, b[..n]);
      assert (a + b)[..|a + b| - 1] == a + b[..n];
    }
  }

  lemma {:induction false} FeedFirst(r: Reg, bits: Bits)
    requires bits != []
    ensures Feed(r, bits) == Feed(Push(r, bits[0]), bits[1..])
  {
    var b := bits[0];
    assert bits == [b] + bits[1..] && [b][..0] == [];
    FeedAppend(r, [b], bits[1..]);
    assert Feed(r, [b]) == Push(Feed(r, []), b);
  }

  /** A bit added before a step may be added along with the bits behind it. */
  lemma {:induction false} StepPrefix(r: Reg, b: bool, m: Bits)
    requires |m| < 32
    ensures Step(XorPrefix(r, [b] + m)) == XorPrefix(Push(r, b), m)
  {
    var x := XorPrefix(r, [b] + m);
    var y := r[0 := r[0] != b];
    assert x[0] == y[0];
    assert Shift(x) == XorPrefix(Shift(y), m);
  }

  /** Adding up to 32 bits at once and stepping is the same as feeding them one at a time. */
  lemma {:induction false} StepsFeed(r: Reg, bits: Bits)
    requires |bits| <= 32
    ensures Steps(XorPrefix(r, bits), |bits|) == Feed(r, bits)
    decreases |bits|
  {
    if bits == [] {
      assert XorPrefix(r, bits) == r;
    } else {
      var b, m := bits[0], bits[1..];
      assert bits == [b] + m;
      StepPrefix(r, b, m);
      StepsFeed(Push(r, b), m);
      FeedFirst(r, bits);
    }
  }

  /** The register always holds the remainder of everything fed so far, times x^32. */
  lemma {:induction false} FeedIsRemainder(r: Reg, bits: Bits)
    ensures Feed(r, bits) == Rem(XorPrefix(bits + Zeros(32), r))
    decreases |bits|
  {
    var w := XorPrefix(bits + Zeros(32), r);
    if bits == [] {
      assert w == r;
    } else {
      var b, m := bits[0], bits[1..];
      assert bits == [b] + m;
      FeedFirst(r, bits);
      FeedIsRemainder(Push(r, b), m);
      DivideOnce(r, b, m);
    }
  }

  lemma {:induction false} DivideOnce(r: Reg, b: bool, m: Bits)
    ensures var w := XorPrefix([b] + m + Zeros(32), r);
            (if w[0] then XorPrefix(w, Generator())[1..] else w[1..]) == XorPrefix(m + Zeros(32), Push(r, b))
  {
    var w := XorPrefix([b] + m + Zeros(32), r);
    var y := r[0 := r[0] != b];
    assert w[0] == y[0];
    var next := if w[0] then XorPrefix(w, Generator())[1..] else w[1..];
    var want := XorPrefix(m + Zeros(32), Push(r, b));
    assert |next| == |want|;
    forall i | 0 <= i < |next| ensures next[i] == want[i] {
      assert w[i + 1] == if i + 1 < 32 then (m + Zeros(32))[i] != r[i + 1] else (m + Zeros(32))[i];
      if i < 32 {
        assert Shift(y)[i] == (i < 31 && r[i + 1]);
        assert Generator()[i + 1] == Poly()[i];
      }
    }
  }

  // ---------- linearity ----------

  lemma {:induction false} StepLinear(u: Reg, v: Reg)
    ensures Step(XorPrefix(u, v)) == XorPrefix(Step(u), Step(v))
  {
    var x := XorPrefix(u, v);
    assert Shift(x) == XorPrefix(Shift(u), Shift(v));
    assert Step(x) == XorPrefix(Step(u), Step(v));
  }

  lemma {:induction false} StepsLinear(u: Reg, v: Reg, k: nat)
    ensures Steps(XorPrefix(u, v), k) == XorPrefix(Steps(u, k), Steps(v, k))
    decreases k
  {
    if k != 0 {
      StepLinear(u, v);
      StepsLinear(Step(u), Step(v), k - 1);
    }
  }

  /** A register whose first k bits are clear only shifts during k steps. */
  lemma {:induction false} StepsShift(r: Reg, k: nat)
    requires k <= 32 && forall i | 0 <= i < k :: !r[i]
    ensures Steps(r, k) == r[k..] + Zeros(k)
    decreases k
  {
    if k == 0 {
      assert r[0..] + Zeros(0) == r;
    } else {
      StepsShift(Step(r), k - 1);
      assert Step(r)[k - 1..] + Zeros(k - 1) == r[k..] + Zeros(k);
    }
  }

  // ---------- what a difference in the input does to the register ----------

  /** The registers differ at some index from j on. */
  ghost predicate DifferFrom(s: Reg, t: Reg, j: nat)
  {
    exists i | j <= i < 32 :: s[i] != t[i]
  }

  /** Different bits into equal registers, or equal bits into different ones, leave them different;
      and a difference moves down by at most one place per bit, whatever the bits are. */
  lemma {:induction false} PushDiff(s: Reg, a: bool, t: Reg, b: bool, j: nat)
    requires (s == t && a != b && j == 32) || (0 < j < 32 && DifferFrom(s, t, j)) || (j == 0 && a == b && s != t)
    ensures if j == 0 then DifferFrom(Push(s, a), Push(t, b), 0) else DifferFrom(Push(s, a), Push(t, b), j - 1)
  {
    var x, y := s[0 := s[0] != a], t[0 := t[0] != b];
    assert Shift(x)[31] == Shift(y)[31] == false;
    if x[0] != y[0] {
      assert Poly()[31];
      assert Step(x)[31] != Step(y)[31];
    } else if j < 32 {
      var i :| (if j == 0 then 1 else j) <= i < 32 && s[i] != t[i];
      assert Shift(x)[i - 1] != Shift(y)[i - 1];
      assert Step(x)[i - 1] != Step(y)[i - 1];
    }
  }

  /** Two equally long messages that agree except inside a window of 32 consecutive bits, where they
      do differ, leave different registers. */
  lemma {:induction false} BurstChangesRegister(r: Reg, a: Bits, b: Bits, f: nat, k: nat)
    requires |a| == |b| && f < k <= |a|
    requires a[..f] == b[..f] && a[f] != b[f]
    requires forall i | f + 32 <= i < |a| :: a[i] == b[i]
    ensures Feed(r, a[..k]) != Feed(r, b[..k])
    ensures k <= f + 32 ==> DifferFrom(Feed(r, a[..k]), Feed(r, b[..k]), 31 - (k - f - 1))
    decreases k
  {
    assert a[..k][..k - 1] == a[..k - 1] && b[..k][..k - 1] == b[..k - 1];
    var s, t := Feed(r, a[..k - 1]), Feed(r, b[..k - 1]);
    if k == f + 1 {
      PushDiff(s, a[k - 1], t, b[k - 1], 32);
    } else {
      BurstChangesRegister(r, a, b, f, k - 1);
      PushDiff(s, a[k - 1], t, b[k - 1], if k <= f + 32 then 32 - (k - f - 1) else 0);
    }
  }
}
