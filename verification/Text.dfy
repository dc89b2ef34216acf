/** The printers behind device.map: hexadecimal digests (pkg/storage/cas.go) and decimal numbers
    (pkg/image/dedup.go), with the parsers that undo them. */
module Text {
  import opened Bytes

  // ---------- hexadecimal ----------

  function HexDigit(n: nat): (c: char)
    requires n < 16
    ensures HexValue(c) == Some(n) && Lower(c) == c && c != ' ' && c != '\n'
  {
    if n < 10 then '0' + n as char else 'a' + (n - 10) as char
  }

  function HexValue(c: char): (r: Option<nat>)
    ensures r.Some? ==> r.value < 16
  {
    if '0' <= c <= '9' then Some((c - '0') as nat)
    else if 'a' <= c <= 'f' then Some(10 + (c - 'a') as nat)
    else if 'A' <= c <= 'F' then Some(10 + (c - 'A') as nat)
    else None
  }

  function Lower(c: char): char
  {
    if 'A' <= c <= 'F' then 'a' + (c - 'A') else c
  }

  function LowerAll(s: string): (r: string)
    ensures |r| == |s|
  {
    seq(|s|, i requires 0 <= i < |s| => Lower(s[i]))
  }

  function HashString(h: Bytes): (r: string)
    ensures |r| == 2 * |h|
  {
    if h == [] then "" else [HexDigit(h[0] / 16), HexDigit(h[0] % 16)] + HashString(h[1..])
  }

  function DecodeHex(s: string): (r: Option<Bytes>)
    ensures r.Some? ==> |s| == 2 * |r.value|
  {
    if s == "" then Some([])
    else if |s| == 1 || HexValue(s[0]).None? || HexValue(s[1]).None? then None
    else
      var rest := DecodeHex(s[2..]);
      if rest.None? then None else Some([16 * HexValue(s[0]).value + HexValue(s[1]).value] + rest.value)
  }

  function ParseHash(s: string): (r: Option<Bytes>)
  {
    var b := DecodeHex(s);
    if b.None? || |b.value| != 32 then None else b
  }

  lemma {:induction false} HexDigitUnique(c: char, n: nat)
    requires n < 16
    ensures HexValue(c) == Some(n) <==> Lower(c) == HexDigit(n)
  {
    assert 'A' <= c <= 'F' ==> (c - 'A') as nat < 6;
  }

  lemma {:induction false} DecodeHexCons(s: string, h: Bytes)
    requires |s| >= 2 && h != []
    ensures DecodeHex(s) == Some(h) <==>
            HexValue(s[0]) == Some(h[0] / 16) && HexValue(s[1]) == Some(h[0] % 16) && DecodeHex(s[2..]) == Some(h[1..])
  {
    if HexValue(s[0]).Some? && HexValue(s[1]).Some? && DecodeHex(s[2..]).Some? {
      var high, low, rest := HexValue(s[0]).value, HexValue(s[1]).value, DecodeHex(s[2..]).value;
      assert [16 * high + low] + rest == h <==> 16 * high + low == h[0] && rest == h[1..];
    }
  }

  lemma {:induction false} PrintedCons(s: string, h: Bytes)
    requires |s| >= 2 && h != []
    ensures LowerAll(s) == HashString(h) <==>
            Lower(s[0]) == HexDigit(h[0] / 16) && Lower(s[1]) == HexDigit(h[0] % 16)
            && LowerAll(s[2..]) == HashString(h[1..])
  {
    var printed := HashString(h);
    assert printed == [HexDigit(h[0] / 16), HexDigit(h[0] % 16)] + HashString(h[1..]);
    assert LowerAll(s) == [Lower(s[0]), Lower(s[1])] + LowerAll(s[2..]);
    assert printed[2..] == HashString(h[1..]) && LowerAll(s)[2..] == LowerAll(s[2..]);
  }

  lemma {:induction false} DecodeHexIff(s: string, h: Bytes)
    ensures DecodeHex(s) == Some(h) <==> LowerAll(s) == HashString(h)
    decreases |s|
  {
    if h == [] {
      assert |s| == 0 ==> LowerAll(s) == "";
    } else if |s| >= 2 {
      DecodeHexIff(s[2..], h[1..]);
      HexDigitUnique(s[0], h[0] / 16);
      HexDigitUnique(s[1], h[0] % 16);
      DecodeHexCons(s, h);
      PrintedCons(s, h);
    }
  }

  /** ParseHash accepts exactly the 64-digit printings, in either case. */
  lemma {:induction false} ParseHashIff(s: string, h: Bytes)
    ensures ParseHash(s) == Some(h) <==> |h| == 32 && LowerAll(s) == HashString(h)
  {
    DecodeHexIff(s, h);
  }

  lemma {:induction false} HashStringIsLower(h: Bytes)
    ensures LowerAll(HashString(h)) == HashString(h)
  {
    if h != [] {
      HashStringIsLower(h[1..]);
      var printed := HashString(h);
      assert LowerAll(printed) == [Lower(printed[0]), Lower(printed[1])] + LowerAll(printed[2..]);
    }
  }

  lemma {:induction false} HashRoundTrip(h: Bytes)
    requires |h| == 32
    ensures ParseHash(HashString(h)) == Some(h)
  {
    HashStringIsLower(h);
    ParseHashIff(HashString(h), h);
  }

  // ---------- decimal ----------

  function Digit(n: nat): (c: char)
    requires n < 10
    ensures '0' <= c <= '9' && (c - '0') as nat == n
  {
    '0' + n as char
  }

  function Decimal(v: nat): (r: string)
    ensures r != ""
  {
    if v < 10 then [Digit(v)] else Decimal(v / 10) + [Digit(v % 10)]
  }

  function ParseDecimal(s: string): (r: Option<nat>)
  {
    if s == "" || !('0' <= s[|s| - 1] <= '9') then None
    else
      var d := (s[|s| - 1] - '0') as nat;
      if |s| == 1 then Some(d)
      else
        var high := ParseDecimal(s[..|s| - 1]);
        if high.None? then None else Some(10 * high.value + d)
  }

  lemma {:induction false} DecimalRoundTrip(v: nat)
    ensures ParseDecimal(Decimal(v)) == Some(v)
  {
    if v >= 10 {
      DecimalRoundTrip(v / 10);
      var s := Decimal(v);
      assert s[..|s| - 1] == Decimal(v / 10) && s[|s| - 1] == Digit(v % 10);
    }
  }

  function Pow10(k: nat): nat
  {
    if k == 0 then 1 else 10 * Pow10(k - 1)
  }

  lemma {:induction false} DecimalLength(v: nat, k: nat)
    requires 0 < k && v < Pow10(k)
    ensures |Decimal(v)| <= k
  {
    if v >= 10 {
      assert Pow10(1) == 10 * Pow10(0);
      DecimalLength(v / 10, k - 1);
    }
  }

  lemma {:induction false} TwentyDigits()
    ensures U64 < Pow10(20)
  {
    assert Pow10(10) == 10000000000;
    assert Pow10(15) == 100000 * Pow10(10);
    assert Pow10(20) == 100000 * Pow10(15);
  }

  lemma {:induction false} DecimalIsPrintable(v: nat)
    ensures forall i | 0 <= i < |Decimal(v)| :: '0' <= Decimal(v)[i] <= '9'
  {
    if v >= 10 {
      DecimalIsPrintable(v / 10);
    }
  }

  /** Fills the buffer from the back; the 32 places are enough for every 64-bit number. */
  method Itoa64(v: nat) returns (r: string)
    requires v < U64
    ensures r == Decimal(v)
  {
    if v == 0 { return "0"; }
    var buf := new char[32];
    var i := buf.Length;
    var x: nat := v;
    TwentyDigits();
    DecimalLength(v, 20);
    while x > 0
      invariant 0 <= i <= 32 && x <= v
      invariant Decimal(v) == (if x == 0 then "" else Decimal(x)) + buf[i..]
    {
      ghost var before := buf[i..];
      i := i - 1;
      buf[i] := Digit(x % 10);
      assert buf[i..] == [Digit(x % 10)] + before;
      assert Decimal(x) == (if x / 10 == 0 then "" else Decimal(x / 10)) + [Digit(x % 10)];
      x := x / 10;
    }
    r := buf[i..];
  }
}
