/** The bytes of manifest.bin (pkg/image/format.go). */
module ManifestFile {
  import opened Bytes
  import opened Format
  import opened Codec

  function Magic(): (r: nat)
    ensures r < U32
  {
    0x434B5054
  }

  /** The header's fields after the magic number. */
  datatype Header = Header(version: nat, flags: nat, count: nat, total: nat)

  function Bit(b: bool): nat
  {
    if b then 1 else 0
  }

  function FlagBits(f: Flags): nat
  {
    Bit(f.compressed) + 2 * Bit(f.sparse) + 4 * Bit(f.dedup) + 8 * Bit(f.delta) + 16 * f.rest
  }

  function FlagsOf(v: nat): Flags
  {
    Flags(v % 2 == 1, v / 2 % 2 == 1, v / 2 / 2 % 2 == 1, v / 2 / 2 / 2 % 2 == 1, v / 2 / 2 / 2 / 2)
  }

  lemma {:induction false} Halve(b: bool, q: nat)
    ensures (Bit(b) + 2 * q) / 2 == q && ((Bit(b) + 2 * q) % 2 == 1 <==> b)
  {
  }

  lemma {:induction false} FlagsRoundTrip(f: Flags)
    ensures FlagsOf(FlagBits(f)) == f
    ensures FlagBits(f) < U16 <==> f.rest < 0x1000
  {
    var v3 := Bit(f.delta) + 2 * f.rest;
    var v2 := Bit(f.dedup) + 2 * v3;
    var v1 := Bit(f.sparse) + 2 * v2;
    assert FlagBits(f) == Bit(f.compressed) + 2 * v1;
    Halve(f.compressed, v1);
    Halve(f.sparse, v2);
    Halve(f.dedup, v3);
    Halve(f.delta, f.rest);
  }

  function TotalBytes(entries: seq<Entry>): nat
  {
    if entries == [] then 0 else TotalBytes(entries[..|entries| - 1]) + entries[|entries| - 1].size
  }

  // ---------- the format ----------

  function EncodeEntry(version: nat, e: Entry): Bytes
  {
    Put(Quad, e.ptr) + (Put(Quad, e.size) + (Put(Quad, e.offset) + (Put(Word, e.crc) + (Put(Word, e.order)
      + if version >= 2 then e.hash else []))))
  }

  /** The entries' encoder, as a value. */
  function EntryCoder(version: nat): Entry -> Bytes
  {
    (e: Entry) => EncodeEntry(version, e)
  }

  function EncodeHeader(h: Header): Bytes
  {
    Put(Word, Magic()) + (Put(Half, h.version) + (Put(Half, h.flags) + (Put(Word, h.count) + Put(Quad, h.total))))
  }

  function HeaderOf(m: Manifest): Header
  {
    Header(m.version, FlagBits(m.flags), |m.entries|, TotalBytes(m.entries))
  }

  function EncodeManifest(m: Manifest): Bytes
  {
    EncodeHeader(HeaderOf(m)) + PutAll(EntryCoder(m.version), m.entries)
  }

  function DecodeHash(version: nat, b: Bytes): Option<(Bytes, Bytes)>
  {
    if version >= 2 then TakeBytes(32, b) else Some((NoHash(), b))
  }

  function DecodeEntry(version: nat, b: Bytes): Option<(Entry, Bytes)>
  {
    var ptr := Take(Quad, b);
    if ptr.None? then None else
    var size := Take(Quad, ptr.value.1);
    if size.None? then None else
    var offset := Take(Quad, size.value.1);
    if offset.None? then None else
    var crc := Take(Word, offset.value.1);
    if crc.None? then None else
    var order := Take(Word, crc.value.1);
    if order.None? then None else
    var hash := DecodeHash(version, order.value.1);
    if hash.None? then None else
    Some((Entry(ptr.value.0, size.value.0, offset.value.0, crc.value.0, order.value.0, hash.value.0), hash.value.1))
  }

  function EntryDecoder(version: nat): Decoder<Entry>
  {
    (b: Bytes) => DecodeEntry(version, b)
  }

  function HeaderSize(): nat { 20 }

  /** The fields of the header's bytes. */
  function ParseHeader(x: Bytes): Option<Header>
    requires |x| == HeaderSize()
  {
    if Field(x, 0, Word) != Magic() then None
    else Some(Header(Field(x, 4, Half), Field(x, 6, Half), Field(x, 8, Word), Field(x, 12, Quad)))
  }

  function DecodeHeader(b: Bytes): Option<(Header, Bytes)>
  {
    var raw := TakeBytes(HeaderSize(), b);
    if raw.None? then None else
    var h := ParseHeader(raw.value.0);
    if h.None? then None else Some((h.value, raw.value.1))
  }

  /** The entries that a header announces. */
  function DecodeBody(h: Header, b: Bytes): Option<(Manifest, Bytes)>
  {
    var entries := Many(EntryDecoder(h.version), h.count, b);
    if entries.None? then None else
    Some((Manifest(h.version, FlagsOf(h.flags), entries.value.0), entries.value.1))
  }

  function DecodeManifest(b: Bytes): Option<(Manifest, Bytes)>
  {
    var head := DecodeHeader(b);
    if head.None? then None else DecodeBody(head.value.0, head.value.1)
  }

  // ---------- the writers and readers ----------

  method WriteEntry(w: Writer, e: Entry, version: nat)
    modifies w
    ensures w.out == old(w.out) + EncodeEntry(version, e)
  {
    w.Number(Quad, e.ptr);
    w.Number(Quad, e.size);
    w.Number(Quad, e.offset);
    w.Number(Word, e.crc);
    w.Number(Word, e.order);
    var hash := if version >= 2 then e.hash else [];
    w.Raw(hash);
    Group6(old(w.out), Put(Quad, e.ptr), Put(Quad, e.size), Put(Quad, e.offset), Put(Word, e.crc), Put(Word, e.order),
        hash);
  }

  method WriteHeader(w: Writer, h: Header)
    modifies w
    ensures w.out == old(w.out) + EncodeHeader(h)
  {
    w.Number(Word, Magic());
    w.Number(Half, h.version);
    w.Number(Half, h.flags);
    w.Number(Word, h.count);
    w.Number(Quad, h.total);
    Group5(old(w.out), Put(Word, Magic()), Put(Half, h.version), Put(Half, h.flags), Put(Word, h.count),
        Put(Quad, h.total));
  }

  method ComputeTotal(entries: seq<Entry>) returns (total: nat)
    ensures total == TotalBytes(entries)
  {
    total := 0;
    for i := 0 to |entries|
      invariant total == TotalBytes(entries[..i])
    {
      assert entries[..i + 1][..i] == entries[..i];
      total := total + entries[i].size;
    }
    assert entries[..|entries|] == entries;
  }

  method WriteManifestFlags(w: Writer, entries: seq<Entry>, flags: Flags, version: nat)
    modifies w
    ensures w.out == old(w.out) + EncodeManifest(Manifest(version, flags, entries))
  {
    var total := ComputeTotal(entries);
    WriteHeader(w, Header(version, FlagBits(flags), |entries|, total));
    WriteEntries(w, entries, version);
    Assoc(old(w.out), EncodeHeader(HeaderOf(Manifest(version, flags, entries))), PutAll(EntryCoder(version), entries));
  }

  method WriteEntries(w: Writer, entries: seq<Entry>, version: nat)
    modifies w
    ensures w.out == old(w.out) + PutAll(EntryCoder(version), entries)
  {
    for i := 0 to |entries|
      invariant w.out == old(w.out) + PutAll(EntryCoder(version), entries[..i])
    {
      WriteEntry(w, entries[i], version);
      PutAllStep(old(w.out), EntryCoder(version), entries, i);
    }
    assert entries[..|entries|] == entries;
  }

  method ReadEntry(r: Reader, version: nat) returns (e: Option<Entry>)
    requires r.Valid()
    modifies r`pos
    ensures r.Valid()
    ensures e.Some? <==> DecodeEntry(version, old(r.Rest())).Some?
    ensures e.Some? ==> DecodeEntry(version, old(r.Rest())) == Some((e.value, r.Rest()))
  {
    var ptr := r.Number(Quad);
    if ptr.None? { return None; }
    var size := r.Number(Quad);
    if size.None? { return None; }
    var offset := r.Number(Quad);
    if offset.None? { return None; }
    var crc := r.Number(Word);
    if crc.None? { return None; }
    var order := r.Number(Word);
    if order.None? { return None; }
    var hash := Some(NoHash());
    if version >= 2 { hash := r.Raw(32); }
    if hash.None? { return None; }
    e := Some(Entry(ptr.value, size.value, offset.value, crc.value, order.value, hash.value));
  }

  method ReadEntries(r: Reader, version: nat, count: nat) returns (entries: Option<seq<Entry>>)
    requires r.Valid()
    modifies r`pos
    ensures r.Valid()
    ensures entries.Some? <==> Many(EntryDecoder(version), count, old(r.Rest())).Some?
    ensures entries.Some? ==> Many(EntryDecoder(version), count, old(r.Rest())) == Some((entries.value, r.Rest()))
  {
    var out := [];
    ghost var start := r.Rest();
    for i := 0 to count
      invariant r.Valid()
      invariant Many(EntryDecoder(version), i, start) == Some((out, r.Rest()))
    {
      ManySnoc(EntryDecoder(version), i, start);
      assert EntryDecoder(version)(r.Rest()) == DecodeEntry(version, r.Rest());
      var e := ReadEntry(r, version);
      if e.None? {
        ManyNeedsFront(EntryDecoder(version), i + 1, count, start);
        return None;
      }
      out := out + [e.value];
    }
    entries := Some(out);
  }

  method ReadHeader(r: Reader) returns (h: Option<Header>)
    requires r.Valid()
    modifies r`pos
    ensures r.Valid()
    ensures h.Some? <==> DecodeHeader(old(r.Rest())).Some?
    ensures h.Some? ==> DecodeHeader(old(r.Rest())) == Some((h.value, r.Rest()))
  {
    var raw := r.Raw(HeaderSize());
    if raw.None? { return None; }
    h := ParseHeader(raw.value);
  }

  method ReadBody(r: Reader, h: Header) returns (m: Option<Manifest>)
    requires r.Valid()
    modifies r`pos
    ensures m.Some? <==> DecodeBody(h, old(r.Rest())).Some?
    ensures m.Some? ==> m.value == DecodeBody(h, old(r.Rest())).value.0
  {
    var entries := ReadEntries(r, h.version, h.count);
    if entries.None? { return None; }
    m := Some(Manifest(h.version, FlagsOf(h.flags), entries.value));
  }

  method ReadManifest(data: Bytes) returns (m: Option<Manifest>)
    ensures m.Some? <==> DecodeManifest(data).Some?
    ensures m.Some? ==> m.value == DecodeManifest(data).value.0
  {
    var r := new Reader(data);
    var h := ReadHeader(r);
    if h.None? { return None; }
    m := ReadBody(r, h.value);
  }

  // ---------- round trip ----------

  /** The fields of the entry fit their widths. */
  predicate EntryFits(e: Entry)
  {
    e.ptr < U64 && e.size < U64 && e.offset < U64 && e.crc < U32 && e.order < U32 && |e.hash| == 32
  }

  predicate ManifestFits(m: Manifest)
  {
    && m.version < U16 && m.flags.rest < 0x1000 && |m.entries| < U32 && TotalBytes(m.entries) < U64
    && forall i | 0 <= i < |m.entries| :: EntryFits(m.entries[i])
  }

  lemma {:induction false} EntryLayout(version: nat, e: Entry, rest: Bytes)
    ensures EncodeEntry(version, e) + rest ==
            Put(Quad, e.ptr) + (Put(Quad, e.size) + (Put(Quad, e.offset) + (Put(Word, e.crc) + (Put(Word, e.order)
              + ((if version >= 2 then e.hash else []) + rest)))))
  {
    var a, b, c, d, f := Put(Quad, e.ptr), Put(Quad, e.size), Put(Quad, e.offset), Put(Word, e.crc), Put(Word, e.order);
    var hash := if version >= 2 then e.hash else [];
    Assoc(a, b + (c + (d + (f + hash))), rest);
    Assoc(b, c + (d + (f + hash)), rest);
    Assoc(c, d + (f + hash), rest);
    Assoc(d, f + hash, rest);
    Assoc(f, hash, rest);
  }

  lemma {:induction false} EntryRoundTrip(version: nat, e: Entry)
    requires EntryFits(e)
    ensures Decodes(EntryDecoder(version), EncodeEntry(version, e), Recorded(version, e))
  {
    forall rest ensures DecodeEntry(version, EncodeEntry(version, e) + rest) == Some((Recorded(version, e), rest)) {
      var tail := (if version >= 2 then e.hash else []) + rest;
      var fromOrder := Put(Word, e.order) + tail;
      var fromCrc := Put(Word, e.crc) + fromOrder;
      var fromOffset := Put(Quad, e.offset) + fromCrc;
      var fromSize := Put(Quad, e.size) + fromOffset;
      EntryLayout(version, e, rest);
      TakePut(Quad, e.ptr, fromSize);
      TakePut(Quad, e.size, fromOffset);
      TakePut(Quad, e.offset, fromCrc);
      TakePut(Word, e.crc, fromOrder);
      TakePut(Word, e.order, tail);
      if version >= 2 { TakeBytesOf(e.hash, rest); } else { assert tail == rest; }
    }
  }

  predicate HeaderFits(h: Header)
  {
    h.version < U16 && h.flags < U16 && h.count < U32 && h.total < U64
  }

  lemma {:induction false} HeaderRoundTrip(h: Header, rest: Bytes)
    requires HeaderFits(h)
    ensures DecodeHeader(EncodeHeader(h) + rest) == Some((h, rest))
  {
    var x := EncodeHeader(h);
    TakeBytesOf(x, rest);
    FiveFields(Word, Magic(), Half, h.version, Half, h.flags, Word, h.count, Quad, h.total, []);
    assert x + [] == x;
  }

  /** What is written is what is read; version 1 drops the digests. */
  lemma {:induction false} ManifestRoundTrip(m: Manifest, rest: Bytes)
    requires ManifestFits(m)
    ensures DecodeManifest(EncodeManifest(m) + rest) == Some((m.(entries := RecordedAll(m.version, m.entries)), rest))
  {
    var body := PutAll(EntryCoder(m.version), m.entries) + rest;
    assert EncodeManifest(m) + rest == EncodeHeader(HeaderOf(m)) + body;
    FlagsRoundTrip(m.flags);
    HeaderRoundTrip(HeaderOf(m), body);
    forall i | 0 <= i < |m.entries|
        ensures Decodes(EntryDecoder(m.version), EntryCoder(m.version)(m.entries[i]),
            RecordedAll(m.version, m.entries)[i]) {
      EntryRoundTrip(m.version, m.entries[i]);
    }
    ManyOfAll(EntryDecoder(m.version), EntryCoder(m.version), m.entries, RecordedAll(m.version, m.entries), rest);
  }

  // ---------- the bytes by their positions ----------

  lemma {:induction false} HeaderBytes(h: Header, rest: Bytes)
    requires HeaderFits(h)
    ensures var b := EncodeHeader(h) + rest;
            && |b| == 20 + |rest| && b[20..] == rest
            && FromLE(b[0..4]) == 0x434B_5054 && FromLE(b[4..6]) == h.version && FromLE(b[6..8]) == h.flags
            && FromLE(b[8..12]) == h.count && FromLE(b[12..20]) == h.total
  {
    FiveFields(Word, Magic(), Half, h.version, Half, h.flags, Word, h.count, Quad, h.total, rest);
  }

  lemma {:induction false} EntryBytes(version: nat, e: Entry)
    requires EntryFits(e)
    ensures var b := EncodeEntry(version, e);
            && |b| == (if version >= 2 then 64 else 32)
            && FromLE(b[0..8]) == e.ptr && FromLE(b[8..16]) == e.size && FromLE(b[16..24]) == e.offset
            && FromLE(b[24..28]) == e.crc && FromLE(b[28..32]) == e.order
            && (version >= 2 ==> b[32..64] == e.hash)
  {
    var hash := if version >= 2 then e.hash else [];
    var fields := Put(Quad, e.ptr) + (Put(Quad, e.size) + (Put(Quad, e.offset) + (Put(Word, e.crc)
                    + Put(Word, e.order))));
    EntryLayout(version, e, []);
    FiveParts(Put(Quad, e.ptr), Put(Quad, e.size), Put(Quad, e.offset), Put(Word, e.crc), Put(Word, e.order), hash);
    assert hash + [] == hash && EncodeEntry(version, e) + [] == EncodeEntry(version, e);
    assert EncodeEntry(version, e) == fields + hash;
    FiveFields(Quad, e.ptr, Quad, e.size, Quad, e.offset, Word, e.crc, Word, e.order, hash);
  }

  lemma {:induction false} EntriesLength(version: nat, entries: seq<Entry>)
    requires forall i | 0 <= i < |entries| :: |entries[i].hash| == 32
    ensures |PutAll(EntryCoder(version), entries)| == if version >= 2 then 64 * |entries| else 32 * |entries|
  {
    if entries != [] {
      EntriesLength(version, entries[1..]);
      assert |EncodeEntry(version, entries[0])| == if version >= 2 then 64 else 32;
    }
  }

  /** The header of the file, byte range by byte range, with the flag bits 1, 2, 4 and 8. */
  lemma {:induction false} ManifestBytes(m: Manifest)
    requires ManifestFits(m)
    ensures var b, f := EncodeManifest(m), m.flags;
            && |b| >= 20 && b[20..] == PutAll(EntryCoder(m.version), m.entries)
            && FromLE(b[0..4]) == 0x434B_5054 && FromLE(b[4..6]) == m.version
            && FromLE(b[6..8]) == (if f.compressed then 1 else 0) + (if f.sparse then 2 else 0)
                                  + (if f.dedup then 4 else 0) + (if f.delta then 8 else 0) + 16 * f.rest
            && FromLE(b[8..12]) == |m.entries| && FromLE(b[12..20]) == TotalBytes(m.entries)
  {
    FlagsRoundTrip(m.flags);
    HeaderBytes(HeaderOf(m), PutAll(EntryCoder(m.version), m.entries));
  }

  /** Behind the header, 64 bytes for each entry, or 32 in version 1. */
  lemma {:induction false} EntryPosition(head: Bytes, version: nat, entries: seq<Entry>, i: nat)
    requires |head| == 20 && i < |entries| && forall h | 0 <= h < |entries| :: |entries[h].hash| == 32
    ensures var b, o := head + PutAll(EntryCoder(version), entries), 20 + if version >= 2 then 64 * i else 32 * i;
            var x := EntryCoder(version)(entries[i]);
            o + |x| <= |b| && b[o..o + |x|] == x
  {
    EntriesLength(version, entries[..i]);
    PutAllBehind(head, EntryCoder(version), entries, i, 20 + if version >= 2 then 64 * i else 32 * i,
                 EntryCoder(version)(entries[i]));
  }

  /** What can be read starts with the magic number. */
  lemma {:induction false} ForeignFileIsRejected(b: Bytes)
    ensures |b| < 20 || FromLE(b[0..4]) != 0x434B_5054 ==> DecodeManifest(b).None?
  {
    if |b| >= 20 {
      assert b[..20][0..4] == b[0..4];
    }
  }

  // ---------- truncation ----------

  lemma {:induction false} EntryIsLocal(version: nat)
    ensures Local(EntryDecoder(version))
  {
    forall b, more | DecodeEntry(version, b).Some?
      ensures DecodeEntry(version, b + more) == Some((DecodeEntry(version, b).value.0, DecodeEntry(version, b).value.1
          + more))
    {
      var b1 := Take(Quad, b).value.1;
      var b2 := Take(Quad, b1).value.1;
      var b3 := Take(Quad, b2).value.1;
      var b4 := Take(Word, b3).value.1;
      var b5 := Take(Word, b4).value.1;
      TakeIsLocal(Quad, b, more);
      TakeIsLocal(Quad, b1, more);
      TakeIsLocal(Quad, b2, more);
      TakeIsLocal(Word, b3, more);
      TakeIsLocal(Word, b4, more);
      if version >= 2 { TakeBytesIsLocal(32, b5, more); }
    }
  }

  lemma {:induction false} HeaderIsLocal(b: Bytes, more: Bytes)
    requires DecodeHeader(b).Some?
    ensures DecodeHeader(b + more) == Some((DecodeHeader(b).value.0, DecodeHeader(b).value.1 + more))
  {
    TakeBytesIsLocal(HeaderSize(), b, more);
  }

  lemma {:induction false} ManifestIsLocal(b: Bytes, more: Bytes)
    requires DecodeManifest(b).Some?
    ensures DecodeManifest(b + more) == Some((DecodeManifest(b).value.0, DecodeManifest(b).value.1 + more))
  {
    HeaderIsLocal(b, more);
    var (h, body) := DecodeHeader(b).value;
    EntryIsLocal(h.version);
    ManyIsLocal(EntryDecoder(h.version), h.count, body, more);
  }

  lemma {:induction false} PrefixIsRejected(whole: Bytes, k: nat)
    requires DecodeManifest(whole).Some? && DecodeManifest(whole).value.1 == [] && k < |whole|
    ensures DecodeManifest(whole[..k]).None?
  {
    assert whole[..k] + whole[k..] == whole;
    if DecodeManifest(whole[..k]).Some? {
      ManifestIsLocal(whole[..k], whole[k..]);
    }
  }

  /** A manifest that lost any bytes at its end is rejected, never read as a shorter one. */
  lemma {:induction false} TruncatedManifestIsRejected(m: Manifest)
    requires ManifestFits(m)
    ensures forall k | 0 <= k < |EncodeManifest(m)| :: DecodeManifest(EncodeManifest(m)[..k]).None?
  {
    var whole := EncodeManifest(m);
    ManifestRoundTrip(m, []);
    assert whole + [] == whole;
    forall k | 0 <= k < |whole| ensures DecodeManifest(whole[..k]).None? {
      PrefixIsRejected(whole, k);
    }
  }
}
