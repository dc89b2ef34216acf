/** The bytes of meta.bin (pkg/image/meta.go). */
module MetaFile {
  import opened Bytes
  import opened Codec

  datatype Meta = Meta(version: nat, flags: nat, pid: nat, dev: nat, preload: Bytes, visible: Bytes)

  function Magic(): (r: nat)
    ensures r < U32
  {
    0x4d435054
  }

  function FixedPart(m: Meta): (r: Bytes)
    ensures |r| == 16
  {
    Put(Word, Magic()) + (Put(Half, 2) + (Put(Half, m.flags) + (Put(Word, m.pid) + Put(Word, m.dev))))
  }

  /** The file of a meta record: always version 2, both strings with their lengths. */
  function EncodeMeta(m: Meta): Bytes
  {
    FixedPart(m) + (Put(Word, |m.preload|) + (m.preload + (Put(Word, |m.visible|) + m.visible)))
  }

  // ---------- writing in place ----------

  /** What a has once x is put at position o. */
  ghost predicate Filled(before: Bytes, after: Bytes, o: nat, x: Bytes)
    requires o + |x| <= |before|
  {
    after == before[..o] + x + before[o + |x|..]
  }

  method CopyAt(a: array<byte>, o: nat, x: Bytes)
    requires o + |x| <= a.Length
    modifies a
    ensures Filled(old(a[..]), a[..], o, x)
  {
    for i := 0 to |x|
      invariant forall k | 0 <= k < a.Length :: a[k] == if o <= k < o + i then x[k - o] else old(a[k])
    {
      a[o + i] := x[i];
    }
    assert a[..] == old(a[..])[..o] + x + old(a[..])[o + |x|..];
  }

  /** Everything up to o has been written. */
  lemma {:induction false} FilledNext(before: Bytes, after: Bytes, o: nat, x: Bytes, done: Bytes)
    requires o + |x| <= |before| && Filled(before, after, o, x) && before[..o] == done
    ensures after[..o + |x|] == done + x
  {
  }

  method WriteMeta(m: Meta) returns (file: Bytes)
    ensures file == EncodeMeta(m)
  {
    var b := new byte[24 + |m.preload| + |m.visible|](_ => 0);
    PutFixed(b, m);
    PutStrings(b, m);
    assert b[..] == b[..b.Length];
    file := b[..];
  }

  method PutFixed(b: array<byte>, m: Meta)
    requires b.Length >= 16
    modifies b
    ensures b[..16] == FixedPart(m)
  {
    ghost var s := b[..];
    CopyAt(b, 0, Put(Word, Magic()));
    FilledNext(s, b[..], 0, Put(Word, Magic()), []);
    s := b[..];
    CopyAt(b, 4, Put(Half, 2));
    FilledNext(s, b[..], 4, Put(Half, 2), Put(Word, Magic()));
    s := b[..];
    CopyAt(b, 6, Put(Half, m.flags));
    FilledNext(s, b[..], 6, Put(Half, m.flags), Put(Word, Magic()) + Put(Half, 2));
    s := b[..];
    CopyAt(b, 8, Put(Word, m.pid));
    FilledNext(s, b[..], 8, Put(Word, m.pid), Put(Word, Magic()) + Put(Half, 2) + Put(Half, m.flags));
    s := b[..];
    CopyAt(b, 12, Put(Word, m.dev));
    FilledNext(s, b[..], 12, Put(Word, m.dev), Put(Word, Magic()) + Put(Half, 2) + Put(Half, m.flags)
        + Put(Word, m.pid));
    Group4(Put(Word, Magic()), Put(Half, 2), Put(Half, m.flags), Put(Word, m.pid), Put(Word, m.dev));
  }

  method PutStrings(b: array<byte>, m: Meta)
    requires b.Length == 24 + |m.preload| + |m.visible| && b[..16] == FixedPart(m)
    modifies b
    ensures b[..b.Length] == EncodeMeta(m)
  {
    ghost var s := b[..];
    ghost var done := FixedPart(m);
    CopyAt(b, 16, Put(Word, |m.preload|));
    FilledNext(s, b[..], 16, Put(Word, |m.preload|), done);
    done := done + Put(Word, |m.preload|);
    s := b[..];
    CopyAt(b, 20, m.preload);
    FilledNext(s, b[..], 20, m.preload, done);
    done := done + m.preload;
    s := b[..];
    var o := 20 + |m.preload|;
    CopyAt(b, o, Put(Word, |m.visible|));
    FilledNext(s, b[..], o, Put(Word, |m.visible|), done);
    done := done + Put(Word, |m.visible|);
    s := b[..];
    CopyAt(b, o + 4, m.visible);
    FilledNext(s, b[..], o + 4, m.visible, done);
    Group4(FixedPart(m), Put(Word, |m.preload|), m.preload, Put(Word, |m.visible|), m.visible);
  }

  // ---------- reading ----------

  /** What ReadMeta finds of the strings of a version 2 file: each only if its length and bytes are all
      there. */
  function Strings(b: Bytes): (r: (Bytes, Bytes))
    requires |b| >= 20
  {
    var pl := Field(b, 16, Word);
    if 20 + pl > |b| then ([], []) else
    var o := 20 + pl;
    if o + 4 > |b| then (b[20..o], []) else
    var vl := Field(b, o, Word);
    if o + 4 + vl > |b| then (b[20..o], []) else (b[20..o], b[o + 4..o + 4 + vl])
  }

  function DecodeMeta(b: Bytes): Option<Meta>
  {
    if |b| < 16 || Field(b, 0, Word) != Magic() then None else
    var version, flags, pid, dev := Field(b, 4, Half), Field(b, 6, Half), Field(b, 8, Word), Field(b, 12, Word);
    if version >= 2 && |b| >= 20 then Some(Meta(version, flags, pid, dev, Strings(b).0, Strings(b).1))
    else Some(Meta(version, flags, pid, dev, b[16..], []))
  }

  /** Never indexes outside the file, whatever its bytes. */
  method ReadMeta(b: Bytes) returns (r: Option<Meta>)
    ensures r == DecodeMeta(b)
    ensures r.None? <==> |b| < 16 || FromLE(b[..4]) != 0x4d43_5054
  {
    if |b| < 16 { return None; }
    var magic := FromLE(b[0..4]);
    var m := Meta(FromLE(b[4..6]), FromLE(b[6..8]), FromLE(b[8..12]), FromLE(b[12..16]), [], []);
    assert b[0..4] == b[..4];
    if magic != Magic() { return None; }
    if m.version >= 2 && |b| >= 20 {
      var pl := FromLE(b[16..20]);
      if 20 + pl <= |b| {
        m := m.(preload := b[20..20 + pl]);
        var o := 20 + pl;
        if o + 4 <= |b| {
          var vl := FromLE(b[o..o + 4]);
          if o + 4 + vl <= |b| {
            m := m.(visible := b[o + 4..o + 4 + vl]);
          }
        }
      }
      return Some(m);
    }
    assert |b| == 16 ==> b[16..] == [];
    if |b| > 16 {
      m := m.(preload := b[16..]);
    }
    r := Some(m);
  }

  lemma {:induction false} FixedFields(m: Meta, rest: Bytes)
    requires m.flags < U16 && m.pid < U32 && m.dev < U32
    ensures var b := FixedPart(m) + rest;
            && Field(b, 0, Word) == Magic() && Field(b, 4, Half) == 2 && Field(b, 6, Half) == m.flags
            && Field(b, 8, Word) == m.pid && Field(b, 12, Word) == m.dev
  {
    FiveFields(Word, Magic(), Half, 2, Half, m.flags, Word, m.pid, Word, m.dev, rest);
  }

  /** The two strings after the fixed part. */
  lemma {:induction false} StringsOf(fixed: Bytes, preload: Bytes, visible: Bytes)
    requires |fixed| == 16 && |preload| < U32 && |visible| < U32
    ensures var b := fixed + (Put(Word, |preload|) + (preload + (Put(Word, |visible|) + visible)));
            |b| >= 20 && Strings(b) == (preload, visible)
  {
    var back := Put(Word, |visible|) + visible;
    var middle := fixed + Put(Word, |preload|);
    var b := fixed + (Put(Word, |preload|) + (preload + back));
    FieldAt(fixed, Word, |preload|, preload + back);
    Assoc(fixed, Put(Word, |preload|), preload + back);
    Assoc(middle, preload, back);
    FieldAt(middle + preload, Word, |visible|, visible);
    assert b[20..20 + |preload|] == preload;
    var o := 20 + |preload|;
    assert b == (middle + preload) + back;
    assert Field(b, o, Word) == |visible|;
    assert b[o + 4..o + 4 + |visible|] == visible;
  }

  /** The file, byte range by byte range. */
  lemma {:induction false} MetaBytes(m: Meta)
    requires m.flags < U16 && m.pid < U32 && m.dev < U32 && |m.preload| < U32 && |m.visible| < U32
    ensures var b, o := EncodeMeta(m), 20 + |m.preload|;
            && |b| == 24 + |m.preload| + |m.visible|
            && FromLE(b[0..4]) == 0x4d43_5054 && FromLE(b[4..6]) == 2 && FromLE(b[6..8]) == m.flags
            && FromLE(b[8..12]) == m.pid && FromLE(b[12..16]) == m.dev
            && FromLE(b[16..20]) == |m.preload| && b[20..o] == m.preload
            && FromLE(b[o..o + 4]) == |m.visible| && b[o + 4..] == m.visible
  {
    FixedFields(m, Put(Word, |m.preload|) + (m.preload + (Put(Word, |m.visible|) + m.visible)));
    StringFields(FixedPart(m), m.preload, m.visible);
  }

  lemma {:induction false} StringFields(fixed: Bytes, preload: Bytes, visible: Bytes)
    requires |fixed| == 16 && |preload| < U32 && |visible| < U32
    ensures var b, o := fixed + (Put(Word, |preload|) + (preload + (Put(Word, |visible|) + visible))), 20 + |preload|;
            && Field(b, 16, Word) == |preload| && b[20..o] == preload
            && Field(b, o, Word) == |visible| && b[o + 4..] == visible
  {
    var back := Put(Word, |visible|) + visible;
    var middle := fixed + Put(Word, |preload|);
    FieldAt(fixed, Word, |preload|, preload + back);
    Assoc(fixed, Put(Word, |preload|), preload + back);
    Assoc(middle, preload, back);
    FieldAt(middle + preload, Word, |visible|, visible);
  }

  /** Whatever is written is read back, as version 2, for any two strings. */
  lemma {:induction false} MetaRoundTrip(m: Meta)
    requires m.flags < U16 && m.pid < U32 && m.dev < U32 && |m.preload| < U32 && |m.visible| < U32
    ensures DecodeMeta(EncodeMeta(m)) == Some(m.(version := 2))
  {
    FixedFields(m, Put(Word, |m.preload|) + (m.preload + (Put(Word, |m.visible|) + m.visible)));
    StringsOf(FixedPart(m), m.preload, m.visible);
  }
}
