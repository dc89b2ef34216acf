/** Little-endian fields read one after another: the decoders as functions that return what is left, and
    the streams that writers append to and readers advance along. */
module Codec {
  import opened Bytes

  datatype Width = Half | Word | Quad

  function Size(w: Width): (r: nat)
    ensures r > 0
  {
    match w case Half => 2 case Word => 4 case Quad => 8
  }

  function Limit(w: Width): nat
  {
    match w case Half => U16 case Word => U32 case Quad => U64
  }

  function Put(w: Width, n: nat): (r: Bytes)
    ensures |r| == Size(w)
  {
    LE(n, Size(w))
  }

  function Take(w: Width, b: Bytes): (r: Option<(nat, Bytes)>)
    ensures r.Some? ==> r.value.0 < Limit(w)
  {
    if |b| < Size(w) then None else
    WidthLimit(w);
    Some((FromLE(b[..Size(w)]), b[Size(w)..]))
  }

  function TakeBytes(n: nat, b: Bytes): (r: Option<(Bytes, Bytes)>)
    ensures r.Some? ==> |r.value.0| == n && b == r.value.0 + r.value.1
  {
    if |b| < n then None else Some((b[..n], b[n..]))
  }

  lemma {:induction false} WidthLimit(w: Width)
    ensures Pow256(Size(w)) == Limit(w)
  {
    Widths();
  }

  lemma {:induction false} TakePut(w: Width, n: nat, rest: Bytes)
    requires n < Limit(w)
    ensures Take(w, Put(w, n) + rest) == Some((n, rest))
  {
    WidthLimit(w);
    LERoundTrip(n, Size(w));
    var b := Put(w, n) + rest;
    assert b[..Size(w)] == Put(w, n) && b[Size(w)..] == rest;
  }

  lemma {:induction false} TakeBytesOf(x: Bytes, rest: Bytes)
    ensures TakeBytes(|x|, x + rest) == Some((x, rest))
  {
    assert (x + rest)[..|x|] == x && (x + rest)[|x|..] == rest;
  }

  // ---------- grouping of appended fields ----------

  lemma {:induction false} Assoc(a: Bytes, b: Bytes, c: Bytes)
    ensures (a + b) + c == a + (b + c)
  {
  }

  lemma {:induction false} Group3(o: Bytes, a: Bytes, b: Bytes, c: Bytes)
    ensures o + a + b + c == o + (a + (b + c))
  {
    Assoc(o + a, b, c);
    Assoc(o, a, b + c);
  }

  lemma {:induction false} Group4(o: Bytes, a: Bytes, b: Bytes, c: Bytes, d: Bytes)
    ensures o + a + b + c + d == o + (a + (b + (c + d)))
  {
    Assoc(o + a + b, c, d);
    Group3(o, a, b, c + d);
  }

  lemma {:induction false} Group5(o: Bytes, a: Bytes, b: Bytes, c: Bytes, d: Bytes, e: Bytes)
    ensures o + a + b + c + d + e == o + (a + (b + (c + (d + e))))
  {
    Assoc(o + a + b + c, d, e);
    Group4(o, a, b, c, d + e);
  }

  lemma {:induction false} Group6(o: Bytes, a: Bytes, b: Bytes, c: Bytes, d: Bytes, e: Bytes, f: Bytes)
    ensures o + a + b + c + d + e + f == o + (a + (b + (c + (d + (e + f)))))
  {
    Assoc(o + a + b + c + d, e, f);
    Group5(o, a, b, c, d, e + f);
  }

  // ---------- fields at fixed places ----------

  function Field(b: Bytes, o: nat, w: Width): (r: nat)
    requires o + Size(w) <= |b|
    ensures r < Limit(w)
  {
    WidthLimit(w);
    FromLE(b[o..o + Size(w)])
  }

  lemma {:induction false} FieldAt(front: Bytes, w: Width, n: nat, back: Bytes)
    requires n < Limit(w)
    ensures Field(front + (Put(w, n) + back), |front|, w) == n
  {
    WidthLimit(w);
    LERoundTrip(n, Size(w));
    assert (front + (Put(w, n) + back))[|front|..|front| + Size(w)] == Put(w, n);
  }

  /** Five numbers one after another are found at their places, whatever follows. */
  lemma {:induction false} FiveFields(w0: Width, n0: nat, w1: Width, n1: nat, w2: Width, n2: nat, w3: Width, n3: nat,
                                      w4: Width, n4: nat,
                   rest: Bytes)
    requires n0 < Limit(w0) && n1 < Limit(w1) && n2 < Limit(w2) && n3 < Limit(w3) && n4 < Limit(w4)
    ensures var b := Put(w0, n0) + (Put(w1, n1) + (Put(w2, n2) + (Put(w3, n3) + Put(w4, n4)))) + rest;
            && Field(b, 0, w0) == n0
            && Field(b, Size(w0), w1) == n1
            && Field(b, Size(w0) + Size(w1), w2) == n2
            && Field(b, Size(w0) + Size(w1) + Size(w2), w3) == n3
            && Field(b, Size(w0) + Size(w1) + Size(w2) + Size(w3), w4) == n4
  {
    var p0, p1, p2, p3, p4 := Put(w0, n0), Put(w1, n1), Put(w2, n2), Put(w3, n3), Put(w4, n4);
    FiveParts(p0, p1, p2, p3, p4, rest);
    FieldAt([], w0, n0, p1 + (p2 + (p3 + (p4 + rest))));
    FieldAt(p0, w1, n1, p2 + (p3 + (p4 + rest)));
    FieldAt(p0 + p1, w2, n2, p3 + (p4 + rest));
    FieldAt(p0 + p1 + p2, w3, n3, p4 + rest);
    FieldAt(p0 + p1 + p2 + p3, w4, n4, rest);
  }

  lemma {:induction false} FiveParts(p0: Bytes, p1: Bytes, p2: Bytes, p3: Bytes, p4: Bytes, rest: Bytes)
    ensures var b := p0 + (p1 + (p2 + (p3 + p4))) + rest;
            && b == [] + (p0 + (p1 + (p2 + (p3 + (p4 + rest)))))
            && b == p0 + (p1 + (p2 + (p3 + (p4 + rest))))
            && b == p0 + p1 + (p2 + (p3 + (p4 + rest)))
            && b == p0 + p1 + p2 + (p3 + (p4 + rest))
            && b == p0 + p1 + p2 + p3 + (p4 + rest)
  {
    var t4 := p4 + rest;
    var t3 := p3 + t4;
    var t2 := p2 + t3;
    Assoc(p0, p1 + (p2 + (p3 + p4)), rest);
    Assoc(p1, p2 + (p3 + p4), rest);
    Assoc(p2, p3 + p4, rest);
    Assoc(p3, p4, rest);
    Assoc(p0, p1, t2);
    Assoc(p0 + p1, p2, t3);
    Assoc(p0 + p1 + p2, p3, t4);
    assert [] + (p0 + (p1 + t2)) == p0 + (p1 + t2);
  }

  // ---------- lists ----------

  type Decoder<T> = Bytes -> Option<(T, Bytes)>

  function Many<T>(d: Decoder<T>, n: nat, b: Bytes): (r: Option<(seq<T>, Bytes)>)
    ensures r.Some? ==> |r.value.0| == n
  {
    if n == 0 then Some(([], b)) else
    var first := d(b);
    if first.None? then None else
    var rest := Many(d, n - 1, first.value.1);
    if rest.None? then None else Some(([first.value.0] + rest.value.0, rest.value.1))
  }

  function PutAll<T(!new)>(enc: T -> Bytes, xs: seq<T>): Bytes
  {
    if xs == [] then [] else enc(xs[0]) + PutAll(enc, xs[1..])
  }

  /** What d makes of an encoding, whatever follows it. */
  ghost predicate Decodes<T(!new)>(d: Decoder<T>, enc: Bytes, x: T)
  {
    forall rest :: d(enc + rest) == Some((x, rest))
  }

  lemma {:induction false} ManyOfAll<T(!new)>(d: Decoder<T>, enc: T -> Bytes, xs: seq<T>, ys: seq<T>, rest: Bytes)
    requires |xs| == |ys| && forall i | 0 <= i < |xs| :: Decodes(d, enc(xs[i]), ys[i])
    ensures Many(d, |xs|, PutAll(enc, xs) + rest) == Some((ys, rest))
  {
    if xs == [] {
      assert [] + rest == rest;
    } else {
      var tail := PutAll(enc, xs[1..]) + rest;
      ManyOfAll(d, enc, xs[1..], ys[1..], rest);
      assert PutAll(enc, xs) + rest == enc(xs[0]) + tail;
      assert Decodes(d, enc(xs[0]), ys[0]);
      assert d(enc(xs[0]) + tail) == Some((ys[0], tail));
      assert [ys[0]] + ys[1..] == ys;
    }
  }

  lemma {:induction false} PutAllSnoc<T(!new)>(enc: T -> Bytes, xs: seq<T>, x: T)
    ensures PutAll(enc, xs + [x]) == PutAll(enc, xs) + enc(x)
  {
    if xs == [] {
      assert PutAll(enc, [x]) == enc(x) + PutAll(enc, []);
    } else {
      PutAllSnoc(enc, xs[1..], x);
      assert (xs + [x])[1..] == xs[1..] + [x];
    }
  }

  /** One turn of a loop that appends encodings. */
  lemma {:induction false} PutAllStep<T(!new)>(o: Bytes, enc: T -> Bytes, xs: seq<T>, i: nat)
    requires i < |xs|
    ensures (o + PutAll(enc, xs[..i])) + enc(xs[i]) == o + PutAll(enc, xs[..i + 1])
  {
    assert xs[..i + 1] == xs[..i] + [xs[i]];
    PutAllSnoc(enc, xs[..i], xs[i]);
    Assoc(o, PutAll(enc, xs[..i]), enc(xs[i]));
  }

  /** An item lies behind the encodings of those before it. */
  lemma {:induction false} PutAllAt<T(!new)>(enc: T -> Bytes, xs: seq<T>, i: nat)
    requires i < |xs|
    ensures var b, o := PutAll(enc, xs), |PutAll(enc, xs[..i])|;
            o + |enc(xs[i])| <= |b| && b[o..o + |enc(xs[i])|] == enc(xs[i])
  {
    if i == 0 {
      assert xs[..0] == [];
    } else {
      PutAllAt(enc, xs[1..], i - 1);
      assert xs[..i][1..] == xs[1..][..i - 1];
      var head, tail, o := enc(xs[0]), PutAll(enc, xs[1..]), |PutAll(enc, xs[1..][..i - 1])|;
      assert (head + tail)[|head| + o..|head| + o + |enc(xs[i])|] == tail[o..o + |enc(xs[i])|];
    }
  }

  /** The same behind a header. */
  lemma {:induction false} PutAllBehind<T(!new)>(head: Bytes, enc: T -> Bytes, xs: seq<T>, i: nat, o: nat, x: Bytes)
    requires i < |xs| && o == |head| + |PutAll(enc, xs[..i])| && x == enc(xs[i])
    ensures var b := head + PutAll(enc, xs); o + |x| <= |b| && b[o..o + |x|] == x
  {
    PutAllAt(enc, xs, i);
    var body, p := PutAll(enc, xs), o - |head|;
    assert (head + body)[o..o + |x|] == body[p..p + |x|];
  }

  /** Decoding item by item, from the front. */
  lemma {:induction false} ManySnoc<T(!new)>(d: Decoder<T>, n: nat, b: Bytes)
    ensures Many(d, n + 1, b).Some? <==> Many(d, n, b).Some? && d(Many(d, n, b).value.1).Some?
    ensures Many(d, n + 1, b).Some? ==>
      var front := Many(d, n, b).value;
      Many(d, n + 1, b) == Some((front.0 + [d(front.1).value.0], d(front.1).value.1))
  {
    if n == 0 {
      assert d(b).Some? ==> Many(d, 0, d(b).value.1) == Some(([], d(b).value.1));
      assert d(b).Some? ==> [d(b).value.0] + [] == [] + [d(b).value.0];
    } else if d(b).Some? {
      var (x, b1) := d(b).value;
      ManySnoc(d, n - 1, b1);
      assert Many(d, n, b).Some? <==> Many(d, n - 1, b1).Some?;
      assert Many(d, n + 1, b).Some? <==> Many(d, n, b1).Some?;
      if Many(d, n, b1).Some? {
        var front := Many(d, n - 1, b1).value;
        assert [x] + (front.0 + [d(front.1).value.0]) == ([x] + front.0) + [d(front.1).value.0];
      }
    } else {
      assert Many(d, n + 1, b).None?;
    }
  }

  lemma {:induction false} ManyNeedsFront<T(!new)>(d: Decoder<T>, n: nat, m: nat, b: Bytes)
    requires n <= m && Many(d, n, b).None?
    ensures Many(d, m, b).None?
  {
    if n < m {
      ManySnoc(d, m - 1, b);
      ManyNeedsFront(d, n, m - 1, b);
    }
  }

  // ---------- what follows does not matter ----------

  /** Bytes after those a decoder used are handed back untouched. */
  ghost predicate Local<T(!new)>(d: Decoder<T>)
  {
    forall b, more | d(b).Some? :: d(b + more) == Some((d(b).value.0, d(b).value.1 + more))
  }

  lemma {:induction false} TakeIsLocal(w: Width, b: Bytes, more: Bytes)
    requires Take(w, b).Some?
    ensures Take(w, b + more) == Some((Take(w, b).value.0, Take(w, b).value.1 + more))
  {
    assert (b + more)[..Size(w)] == b[..Size(w)] && (b + more)[Size(w)..] == b[Size(w)..] + more;
  }

  lemma {:induction false} TakeBytesIsLocal(n: nat, b: Bytes, more: Bytes)
    requires TakeBytes(n, b).Some?
    ensures TakeBytes(n, b + more) == Some((TakeBytes(n, b).value.0, TakeBytes(n, b).value.1 + more))
  {
    assert (b + more)[..n] == b[..n] && (b + more)[n..] == b[n..] + more;
  }

  lemma {:induction false} ManyIsLocal<T(!new)>(d: Decoder<T>, n: nat, b: Bytes, more: Bytes)
    requires Local(d) && Many(d, n, b).Some?
    ensures Many(d, n, b + more) == Some((Many(d, n, b).value.0, Many(d, n, b).value.1 + more))
  {
    if n > 0 {
      ManyIsLocal(d, n - 1, d(b).value.1, more);
    }
  }

  // ---------- streams ----------

  class Writer {
    var out: Bytes

    constructor ()
      ensures out == []
    {
      out := [];
    }

    method Number(w: Width, n: nat)
      modifies this
      ensures out == old(out) + Put(w, n)
    {
      out := out + Put(w, n);
    }

    method Raw(b: Bytes)
      modifies this
      ensures out == old(out) + b
    {
      out := out + b;
    }
  }

  class Reader {
    const data: Bytes
    var pos: nat

    ghost predicate Valid()
      reads this
    {
      pos <= |data|
    }

    ghost function Rest(): Bytes
      reads this
      requires Valid()
    {
      data[pos..]
    }

    constructor (data: Bytes)
      ensures Valid() && Rest() == data && this.data == data
    {
      this.data, pos := data, 0;
    }

    /** Fails at the end of the stream, which it then has reached. */
    method Number(w: Width) returns (r: Option<nat>)
      requires Valid()
      modifies this`pos
      ensures Valid()
      ensures r.Some? <==> Take(w, old(Rest())).Some?
      ensures r.Some? ==> Take(w, old(Rest())) == Some((r.value, Rest()))
    {
      if pos + Size(w) > |data| { pos := |data|; return None; }
      var field := data[pos..pos + Size(w)];
      assert field == Rest()[..Size(w)];
      r := Some(FromLE(field));
      pos := pos + Size(w);
    }

    method Raw(n: nat) returns (r: Option<Bytes>)
      requires Valid()
      modifies this`pos
      ensures Valid()
      ensures r.Some? <==> TakeBytes(n, old(Rest())).Some?
      ensures r.Some? ==> TakeBytes(n, old(Rest())) == Some((r.value, Rest()))
    {
      if pos + n > |data| { pos := |data|; return None; }
      r := Some(data[pos..pos + n]);
      assert data[pos..pos + n] == Rest()[..n];
      pos := pos + n;
    }
  }
}
