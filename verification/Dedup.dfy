/** pkg/storage/cas.go and pkg/image/dedup.go: the content-addressed store, the deduplicating loop and
    the printed listing device.map. */
module Dedup {
  import opened Bytes
  import opened Format
  import opened Text

  /** Blobs by digest. */
  type Blobs = map<Bytes, Bytes>
  type Hash = Bytes -> Bytes

  /** The digest tells these contents apart. */
  ghost predicate CollisionFree(sha: Hash, contents: set<Bytes>)
  {
    forall a, b | a in contents && b in contents && sha(a) == sha(b) :: a == b
  }

  /** Every blob is filed under its own digest. */
  ghost predicate Genuine(blobs: Blobs, sha: Hash)
  {
    forall h | h in blobs :: sha(blobs[h]) == h
  }

  function StoredOne(blobs: Blobs, sha: Hash, data: Bytes): Blobs
  {
    if sha(data) in blobs then blobs else blobs[sha(data) := data]
  }

  function StoredAll(blobs: Blobs, sha: Hash, chunks: seq<Bytes>): Blobs
  {
    if chunks == [] then blobs
    else StoredOne(StoredAll(blobs, sha, chunks[..|chunks| - 1]), sha, chunks[|chunks| - 1])
  }

  ghost predicate Extends(a: Blobs, b: Blobs)
  {
    forall h | h in a :: h in b && b[h] == a[h]
  }

  class ContentStore {
    var blobs: Blobs
    const sha: Hash

    constructor (blobs: Blobs, sha: Hash)
      ensures this.blobs == blobs && this.sha == sha
    {
      this.blobs, this.sha := blobs, sha;
    }

    method Put(data: Bytes) returns (sum: Bytes)
      modifies this`blobs
      ensures sum == sha(data) && sum in blobs
      ensures Extends(old(blobs), blobs) && blobs.Keys == old(blobs).Keys + {sum}
      ensures Genuine(old(blobs), sha) ==> Genuine(blobs, sha)
      ensures blobs == StoredOne(old(blobs), sha, data)
    {
      sum := sha(data);
      if sum in blobs { return; }
      blobs := blobs[sum := data];
    }

    function Get(hash: Bytes): (r: Option<Bytes>)
      reads this
      ensures Genuine(blobs, sha) && r.Some? ==> sha(r.value) == hash
      ensures r.Some? <==> Has(hash)
    {
      if hash in blobs then Some(blobs[hash]) else None
    }

    predicate Has(hash: Bytes)
      reads this
    {
      hash in blobs
    }

    /** The loop of DedupDevice: files every chunk and notes its digest in its entry. */
    method DedupChunks(entries: seq<Entry>, device: Bytes) returns (r: Option<seq<Entry>>)
      modifies this`blobs
      ensures Extends(old(blobs), blobs)
      ensures r.Some? <==> Readable(entries, device)
      ensures r.Some? ==> r.value == Hashed(entries, sha, device)
      ensures r.Some? ==> blobs == StoredAll(old(blobs), sha, Chunks(entries, device))
    {
      var out := entries;
      ghost var chunks: seq<Bytes> := [];
      for i := 0 to |entries|
        invariant |out| == |entries| && |chunks| == i && Extends(old(blobs), blobs)
        invariant forall h | i <= h < |entries| :: out[h] == entries[h]
        invariant forall h | 0 <= h < i :: ReadAt(device, entries[h].offset, entries[h].size) == Some(chunks[h])
        invariant forall h | 0 <= h < i :: out[h] == entries[h].(hash := sha(chunks[h]))
        invariant blobs == StoredAll(old(blobs), sha, chunks)
      {
        var buf := ReadAt(device, out[i].offset, out[i].size);
        if buf.None? { return None; }
        var hash := Put(buf.value);
        out := out[i := out[i].(hash := hash)];
        assert (chunks + [buf.value])[..i] == chunks;
        chunks := chunks + [buf.value];
      }
      assert Readable(entries, device);
      assert chunks == Chunks(entries, device);
      r := Some(out);
    }
  }

  /** The entries with the digests of their chunks. */
  function Hashed(entries: seq<Entry>, sha: Hash, device: Bytes): (r: seq<Entry>)
    requires Readable(entries, device)
    ensures |r| == |entries|
  {
    seq(|entries|, i requires 0 <= i < |entries| => entries[i].(hash := sha(Chunks(entries, device)[i])))
  }

  // ---------- what deduplication keeps ----------

  lemma {:induction false} StoredKeeps(blobs: Blobs, sha: Hash, chunks: seq<Bytes>)
    ensures Extends(blobs, StoredAll(blobs, sha, chunks))
    ensures Genuine(blobs, sha) ==> Genuine(StoredAll(blobs, sha, chunks), sha)
    ensures forall i | 0 <= i < |chunks| :: sha(chunks[i]) in StoredAll(blobs, sha, chunks)
    ensures forall h | h in StoredAll(blobs, sha, chunks) && h !in blobs :: StoredAll(blobs, sha, chunks)[h] in chunks
  {
    if chunks != [] {
      StoredKeeps(blobs, sha, chunks[..|chunks| - 1]);
    }
  }

  /** The blob filed under a chunk's digest is that chunk. */
  lemma {:induction false} StoredFinds(blobs: Blobs, sha: Hash, chunks: seq<Bytes>, i: nat)
    requires Genuine(blobs, sha) && i < |chunks|
    requires CollisionFree(sha, blobs.Values + Contents(chunks))
    ensures var after := StoredAll(blobs, sha, chunks); sha(chunks[i]) in after && after[sha(chunks[i])] == chunks[i]
  {
    StoredKeeps(blobs, sha, chunks);
    var after := StoredAll(blobs, sha, chunks);
    var h := sha(chunks[i]);
    if h in blobs {
      assert after[h] == blobs[h];
    } else {
      assert after[h] in chunks;
    }
  }

  /** The blobs the entries name, in order. */
  function Named(blobs: Blobs, entries: seq<Entry>): (r: seq<Bytes>)
    ensures |r| == |entries|
  {
    seq(|entries|, i requires 0 <= i < |entries| => if entries[i].hash in blobs then blobs[entries[i].hash] else [])
  }

  /** The blobs named by the entries of a tiled image, put together, are its device.bin. */
  lemma {:induction false} DedupIsLossless(blobs: Blobs, sha: Hash, entries: seq<Entry>, device: Bytes)
    requires Tiled(entries, |device|) && |device| < 0x8000_0000_0000_0000
    requires Readable(entries, device) && Genuine(blobs, sha)
    requires CollisionFree(sha, blobs.Values + Contents(Chunks(entries, device)))
    ensures Concat(Named(StoredAll(blobs, sha, Chunks(entries, device)), Hashed(entries, sha, device))) == device
  {
    var chunks, hashed := Chunks(entries, device), Hashed(entries, sha, device);
    var after := StoredAll(blobs, sha, chunks);
    forall i | 0 <= i < |entries| ensures Named(after, hashed)[i] == chunks[i] {
      StoredFinds(blobs, sha, chunks, i);
    }
    assert Named(after, hashed) == chunks;
    ChunksOfTiled(entries, device);
  }

  /** Two entries share a digest exactly when their contents are equal. */
  lemma {:induction false} SharedHashIffEqual(sha: Hash, entries: seq<Entry>, device: Bytes, i: nat, j: nat)
    requires Readable(entries, device) && i < |entries| && j < |entries|
    requires CollisionFree(sha, Contents(Chunks(entries, device)))
    ensures Hashed(entries, sha, device)[i].hash == Hashed(entries, sha, device)[j].hash
            <==> Chunks(entries, device)[i] == Chunks(entries, device)[j]
  {
    var chunks := Chunks(entries, device);
    assert chunks[i] in chunks && chunks[j] in chunks;
  }

  function Contents(chunks: seq<Bytes>): set<Bytes>
  {
    set c | c in chunks
  }

  lemma {:induction false} StoringValues(before: Blobs, sha: Hash, data: Bytes)
    requires sha(data) !in before
    ensures StoredOne(before, sha, data).Values == before.Values + {data}
  {
    var after := before[sha(data) := data];
    forall v | v in before.Values ensures v in after.Values {
      var h :| h in before && before[h] == v;
      assert after[h] == v;
    }
    assert after[sha(data)] == data;
  }

  lemma {:induction false} NewContents(before: Blobs, sha: Hash, data: Bytes)
    requires Genuine(before, sha)
    ensures sha(data) !in before ==> data !in before.Values
  {
    if data in before.Values {
      var h :| h in before && before[h] == data;
      assert sha(before[h]) == h;
    }
  }

  lemma {:induction false} StoringOne(before: Blobs, sha: Hash, data: Bytes)
    requires Genuine(before, sha) && CollisionFree(sha, before.Values + {data}) && |before| == |before.Values|
    ensures StoredOne(before, sha, data).Values == before.Values + {data}
    ensures |StoredOne(before, sha, data)| == |before.Values + {data}|
  {
    if sha(data) in before {
      var twin := before[sha(data)];
      assert twin in before.Values && sha(twin) == sha(data);
      assert twin == data;
      assert before.Values + {data} == before.Values;
    } else {
      NewContents(before, sha, data);
      StoringValues(before, sha, data);
    }
  }

  /** A store that was empty holds every content once. */
  lemma {:induction false} FreshStoreCount(sha: Hash, chunks: seq<Bytes>)
    requires CollisionFree(sha, Contents(chunks))
    ensures |StoredAll(map[], sha, chunks)| == |Contents(chunks)|
    ensures StoredAll(map[], sha, chunks).Values == Contents(chunks)
  {
    if chunks != [] {
      var front, last := chunks[..|chunks| - 1], chunks[|chunks| - 1];
      assert Contents(chunks) == Contents(front) + {last};
      FreshStoreCount(sha, front);
      StoredKeeps(map[], sha, front);
      StoringOne(StoredAll(map[], sha, front), sha, last);
    }
  }

  // ---------- device.map ----------

  datatype Line = Line(hash: Bytes, size: nat, ptr: nat)

  function Describe(e: Entry): Line
  {
    Line(e.hash, e.size, e.ptr)
  }

  function Lines(entries: seq<Entry>): (r: seq<Line>)
  {
    if entries == [] then [] else [Describe(entries[0])] + Lines(entries[1..])
  }

  function PrintLine(l: Line): string
  {
    HashString(l.hash) + " " + Decimal(l.size) + " " + Decimal(l.ptr) + "\n"
  }

  function PrintedLines(entries: seq<Entry>): (r: seq<string>)
    ensures |r| == |entries|
  {
    seq(|entries|, i requires 0 <= i < |entries| => PrintLine(Describe(entries[i])))
  }

  function ListLines(lines: seq<string>): string
  {
    if lines == [] then "" else lines[0] + ListLines(lines[1..])
  }

  lemma {:induction false} ListLinesSnoc(lines: seq<string>, last: string)
    ensures ListLines(lines + [last]) == ListLines(lines) + last
  {
    if lines == [] {
      assert ListLines([last]) == last + ListLines([]);
    } else {
      ListLinesSnoc(lines[1..], last);
      assert (lines + [last])[1..] == lines[1..] + [last];
    }
  }

  /** The text of device.map. */
  function Listing(entries: seq<Entry>): string
  {
    ListLines(PrintedLines(entries))
  }

  /** The text before the first mark, and the text after it. */
  function Cut(s: string, mark: char): (r: Option<(string, string)>)
    ensures r.Some? ==> s == r.value.0 + [mark] + r.value.1
  {
    if s == "" then None
    else if s[0] == mark then Some(("", s[1..]))
    else
      var rest := Cut(s[1..], mark);
      if rest.None? then None else Some(([s[0]] + rest.value.0, rest.value.1))
  }

  /** A line without its newline. */
  function ParseLine(s: string): Option<Line>
  {
    var first := Cut(s, ' ');
    if first.None? then None else
    var second := Cut(first.value.1, ' ');
    if second.None? then None else
    var (hash, size, ptr) := (ParseHash(first.value.0), ParseDecimal(second.value.0), ParseDecimal(second.value.1));
    if hash.Some? && size.Some? && ptr.Some? then Some(Line(hash.value, size.value, ptr.value)) else None
  }

  function ParseListing(s: string): Option<seq<Line>>
    decreases |s|
  {
    if s == "" then Some([]) else
    var cut := Cut(s, '\n');
    if cut.None? then None else
    var line, rest := ParseLine(cut.value.0), ParseListing(cut.value.1);
    if line.Some? && rest.Some? then Some([line.value] + rest.value) else None
  }

  lemma {:induction false} CutAt(a: string, mark: char, b: string)
    requires mark !in a
    ensures Cut(a + [mark] + b, mark) == Some((a, b))
  {
    var s := a + [mark] + b;
    if a == "" {
      assert s[0] == mark && s[1..] == b;
    } else {
      CutAt(a[1..], mark, b);
      assert s[0] == a[0] && s[1..] == a[1..] + [mark] + b;
      assert [a[0]] + a[1..] == a;
    }
  }

  lemma {:induction false} HashIsPrintable(h: Bytes)
    ensures ' ' !in HashString(h) && '\n' !in HashString(h)
  {
    if h != [] {
      HashIsPrintable(h[1..]);
    }
  }

  /** A line ends at its newline, whatever follows, and its fields parse back. */
  lemma {:induction false} LineRoundTrip(l: Line, rest: string)
    requires |l.hash| == 32
    ensures var cut := Cut(PrintLine(l) + rest, '\n');
            cut.Some? && cut.value.1 == rest && ParseLine(cut.value.0) == Some(l)
  {
    var h, size, ptr := HashString(l.hash), Decimal(l.size), Decimal(l.ptr);
    HashIsPrintable(l.hash);
    DecimalIsPrintable(l.size);
    DecimalIsPrintable(l.ptr);
    var text := h + " " + size + " " + ptr;
    assert '\n' !in text;
    CutAt(text, '\n', rest);
    assert PrintLine(l) + rest == text + "\n" + rest;
    assert text == h + " " + (size + " " + ptr);
    CutAt(h, ' ', size + " " + ptr);
    CutAt(size, ' ', ptr);
    HashRoundTrip(l.hash);
    DecimalRoundTrip(l.size);
    DecimalRoundTrip(l.ptr);
  }

  lemma {:induction false} LineFirst(l: Line, rest: string, tail: seq<Line>)
    requires |l.hash| == 32 && ParseListing(rest) == Some(tail)
    ensures ParseListing(PrintLine(l) + rest) == Some([l] + tail)
  {
    LineRoundTrip(l, rest);
  }

  /** Each line of device.map gives back the digest, size and pointer of its entry. */
  lemma {:induction false} ListingRoundTrip(entries: seq<Entry>)
    requires forall i | 0 <= i < |entries| :: |entries[i].hash| == 32
    ensures ParseListing(Listing(entries)) == Some(Lines(entries))
  {
    if entries != [] {
      ListingRoundTrip(entries[1..]);
      assert PrintedLines(entries)[1..] == PrintedLines(entries[1..]);
      LineFirst(Describe(entries[0]), Listing(entries[1..]), Lines(entries[1..]));
    }
  }

  /** The loop that writes device.map. */
  method WriteListing(entries: seq<Entry>) returns (text: string)
    requires forall i | 0 <= i < |entries| :: entries[i].size < U64 && entries[i].ptr < U64
    ensures text == Listing(entries)
  {
    text := "";
    for i := 0 to |entries|
      invariant text == Listing(entries[..i])
    {
      var e := entries[i];
      var size := Itoa64(e.size);
      var ptr := Itoa64(e.ptr);
      var line := HashString(e.hash) + " " + size + " " + ptr + "\n";
      assert PrintedLines(entries[..i + 1]) == PrintedLines(entries[..i]) + [line];
      ListLinesSnoc(PrintedLines(entries[..i]), line);
      text := text + line;
    }
    assert entries[..|entries|] == entries;
  }
}
