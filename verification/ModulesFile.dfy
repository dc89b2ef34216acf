/** The nested format of modules.bin and its replay (shim/module_io.cpp). */
module ModulesFile {
  import opened Bytes
  import opened Codec

  /** A loaded module: from a file path or, if it is not empty, from an image in memory. */
  datatype Module = Module(ctx: nat, path: Bytes, image: Bytes, symbols: seq<Bytes>)

  /** What the driver answers: whether it loads a path or an image, and which names it then finds. */
  datatype Driver = Driver(loadsPath: Bytes -> bool, loadsImage: Bytes -> bool, finds: (Bytes, Bytes) -> bool)

  function Magic(): (r: nat)
    ensures r < U32
  {
    0x4D4F4455
  }

  function Kind(m: Module): nat
  {
    if m.image == [] then 0 else 1
  }

  /** What the module was loaded from. */
  function Payload(m: Module): Bytes
  {
    if m.image == [] then m.path else m.image
  }

  // ---------- the format ----------

  function EncodeName(s: Bytes): Bytes
  {
    Put(Word, |s|) + s
  }

  function NameCoder(): Bytes -> Bytes
  {
    (s: Bytes) => EncodeName(s)
  }

  function EncodeModule(m: Module): Bytes
  {
    Put(Quad, m.ctx) + (Put(Word, Kind(m)) + (Put(Word, |Payload(m)|) + (Payload(m)
      + (Put(Word, |m.symbols|) + PutAll(NameCoder(), m.symbols)))))
  }

  function ModuleCoder(): Module -> Bytes
  {
    (m: Module) => EncodeModule(m)
  }

  function EncodeModules(mods: seq<Module>): Bytes
  {
    Put(Word, Magic()) + (Put(Half, 1) + (Put(Half, 0) + (Put(Word, |mods|) + PutAll(ModuleCoder(), mods))))
  }

  // ---------- writing ----------

  method WriteNames(w: Writer, names: seq<Bytes>)
    modifies w
    ensures w.out == old(w.out) + PutAll(NameCoder(), names)
  {
    ghost var head := w.out;
    for i := 0 to |names|
      invariant w.out == head + PutAll(NameCoder(), names[..i])
    {
      w.Number(Word, |names[i]|);
      if names[i] != [] { w.Raw(names[i]); }
      Assoc(head + PutAll(NameCoder(), names[..i]), Put(Word, |names[i]|), names[i]);
      PutAllStep(head, NameCoder(), names, i);
    }
    assert names[..|names|] == names;
  }

  method WriteModule(w: Writer, m: Module)
    modifies w
    ensures w.out == old(w.out) + EncodeModule(m)
  {
    var kind := if m.image == [] then 0 else 1;
    w.Number(Quad, m.ctx);
    w.Number(Word, kind);
    if kind == 0 {
      w.Number(Word, |m.path|);
      w.Raw(m.path);
    } else {
      w.Number(Word, |m.image|);
      w.Raw(m.image);
    }
    w.Number(Word, |m.symbols|);
    WriteNames(w, m.symbols);
    Group6(old(w.out), Put(Quad, m.ctx), Put(Word, Kind(m)), Put(Word, |Payload(m)|), Payload(m),
           Put(Word, |m.symbols|), PutAll(NameCoder(), m.symbols));
  }

  method WriteModules(w: Writer, mods: seq<Module>)
    modifies w
    ensures w.out == old(w.out) + EncodeModules(mods)
  {
    w.Number(Word, Magic());
    w.Number(Half, 1);
    w.Number(Half, 0);
    w.Number(Word, |mods|);
    WriteEach(w, mods);
    Group5(old(w.out), Put(Word, Magic()), Put(Half, 1), Put(Half, 0), Put(Word, |mods|), PutAll(ModuleCoder(), mods));
  }

  method WriteEach(w: Writer, mods: seq<Module>)
    modifies w
    ensures w.out == old(w.out) + PutAll(ModuleCoder(), mods)
  {
    ghost var head := w.out;
    for i := 0 to |mods|
      invariant w.out == head + PutAll(ModuleCoder(), mods[..i])
    {
      WriteModule(w, mods[i]);
      PutAllStep(head, ModuleCoder(), mods, i);
    }
    assert mods[..|mods|] == mods;
  }

  // ---------- reading ----------

  /** A read into zeroed memory: past the end of the stream it stays zero. */
  function Fill(n: nat, b: Bytes): (r: (Bytes, Bytes))
    ensures |r.0| == n
  {
    if n <= |b| then (b[..n], b[n..]) else (b + ZeroBytes(n - |b|), [])
  }

  function FillNumber(w: Width, b: Bytes): (nat, Bytes)
  {
    (FromLE(Fill(Size(w), b).0), Fill(Size(w), b).1)
  }

  /** The next name, if the driver finds it in the module. */
  function ReplayName(d: Driver, payload: Bytes, b: Bytes): (seq<Bytes>, Bytes)
  {
    var (len, b1) := FillNumber(Word, b);
    var (name, rest) := Fill(len, b1);
    (if d.finds(payload, CString(name)) then [CString(name)] else [], rest)
  }

  function ReplayNames(d: Driver, payload: Bytes, n: nat, b: Bytes): (seq<Bytes>, Bytes)
  {
    if n == 0 then ([], b) else
    var (names, b1) := ReplayNames(d, payload, n - 1, b);
    var (last, rest) := ReplayName(d, payload, b1);
    (names + last, rest)
  }

  /** The next module, or the error code of its loading, and the rest of the stream. */
  function ReplayModule(d: Driver, b: Bytes): (int, Module, Bytes)
  {
    var (ctx, b1) := FillNumber(Quad, b);
    var (kind, b2) := FillNumber(Word, b1);
    var (len, b3) := FillNumber(Word, b2);
    var (payload, b4) := Fill(len, b3);
    var loaded := if kind == 0 then CString(payload) else payload;
    if kind == 0 && !d.loadsPath(loaded) then (-32, Module(ctx, [], [], []), b4)
    else if kind != 0 && !d.loadsImage(loaded) then (-33, Module(ctx, [], [], []), b4)
    else
      var (count, b5) := FillNumber(Word, b4);
      var (names, rest) := ReplayNames(d, loaded, count, b5);
      (0, if kind == 0 then Module(ctx, loaded, [], names) else Module(ctx, [], loaded, names), rest)
  }

  /** The code returned and the modules tracked until the first failure. */
  function ReplayModules(d: Driver, n: nat, b: Bytes): (int, seq<Module>, Bytes)
  {
    if n == 0 then (0, [], b) else
    var (rc, mods, b1) := ReplayModules(d, n - 1, b);
    if rc != 0 then (rc, mods, b1) else
    var (rc', m, rest) := ReplayModule(d, b1);
    (rc', if rc' == 0 then mods + [m] else mods, rest)
  }

  /** Nothing is read after a failure. */
  lemma {:induction false} FailureStops(d: Driver, n: nat, m: nat, b: Bytes)
    requires n <= m && ReplayModules(d, n, b).0 != 0
    ensures ReplayModules(d, m, b) == ReplayModules(d, n, b)
  {
    if n < m {
      FailureStops(d, n, m - 1, b);
    }
  }

  function ReplayFile(d: Driver, file: Option<Bytes>): (int, seq<Module>)
  {
    if file.None? then (0, []) else
    var (magic, b1) := FillNumber(Word, file.value);
    if magic != Magic() then (-31, []) else
    var (version, b2) := FillNumber(Half, b1);
    var (pad, b3) := FillNumber(Half, b2);
    var (count, b4) := FillNumber(Word, b3);
    var (rc, mods, rest) := ReplayModules(d, count, b4);
    (rc, mods)
  }

  class Stream {
    const data: Bytes
    var pos: nat

    ghost predicate Valid()
      reads this
    {
      pos <= |data|
    }

    ghost function Rest(): Bytes
      reads this
      requires Valid()
    {
      data[pos..]
    }

    constructor (data: Bytes)
      ensures Valid() && Rest() == data
    {
      this.data, pos := data, 0;
    }

    method Read(n: nat) returns (r: Bytes)
      requires Valid()
      modifies this`pos
      ensures Valid() && Fill(n, old(Rest())) == (r, Rest())
    {
      if pos + n <= |data| {
        r := data[pos..pos + n];
        assert r == Rest()[..n];
        pos := pos + n;
      } else {
        r := data[pos..] + ZeroBytes(n - (|data| - pos));
        pos := |data|;
        assert Rest() == [];
      }
    }

    method Number(w: Width) returns (n: nat)
      requires Valid()
      modifies this`pos
      ensures Valid() && FillNumber(w, old(Rest())) == (n, Rest())
    {
      var field := Read(Size(w));
      n := FromLE(field);
    }
  }

  method ReadName(f: Stream, d: Driver, payload: Bytes) returns (found: seq<Bytes>)
    requires f.Valid()
    modifies f`pos
    ensures f.Valid() && ReplayName(d, payload, old(f.Rest())) == (found, f.Rest())
  {
    var len := f.Number(Word);
    var name := f.Read(len);
    found := if d.finds(payload, CString(name)) then [CString(name)] else [];
  }

  method ReadNames(f: Stream, d: Driver, payload: Bytes, count: nat) returns (names: seq<Bytes>)
    requires f.Valid()
    modifies f`pos
    ensures f.Valid() && ReplayNames(d, payload, count, old(f.Rest())) == (names, f.Rest())
  {
    names := [];
    ghost var start := f.Rest();
    for i := 0 to count
      invariant f.Valid() && ReplayNames(d, payload, i, start) == (names, f.Rest())
    {
      var found := ReadName(f, d, payload);
      names := names + found;
    }
  }

  method ReadModule(f: Stream, d: Driver) returns (rc: int, m: Module)
    requires f.Valid()
    modifies f`pos
    ensures f.Valid() && ReplayModule(d, old(f.Rest())) == (rc, m, f.Rest())
  {
    rc, m := 0, Module(0, [], [], []);
    var ctx := f.Number(Quad);
    var kind := f.Number(Word);
    m := m.(ctx := ctx);
    var len := f.Number(Word);
    var payload := f.Read(len);
    if kind == 0 {
      if !d.loadsPath(CString(payload)) { rc := -32; return; }
      m := m.(path := CString(payload));
    } else {
      if !d.loadsImage(payload) { rc := -33; return; }
      m := m.(image := payload);
    }
    var count := f.Number(Word);
    var names := ReadNames(f, d, if kind == 0 then CString(payload) else payload, count);
    m := m.(symbols := names);
  }

  method RestoreModules(file: Option<Bytes>, d: Driver) returns (rc: int, tracked: seq<Module>)
    ensures (rc, tracked) == ReplayFile(d, file)
    ensures file.Some? && |file.value| >= 4 && FromLE(file.value[..4]) != 0x4D4F_4455 ==> rc == -31 && tracked == []
  {
    rc, tracked := 0, [];
    if file.None? { return; }
    var f := new Stream(file.value);
    var magic := f.Number(Word);
    if magic != Magic() { rc := -31; return; }
    var version := f.Number(Half);
    var pad := f.Number(Half);
    var count := f.Number(Word);
    rc, tracked := ReadModules(f, d, count);
  }

  method ReadModules(f: Stream, d: Driver, count: nat) returns (rc: int, tracked: seq<Module>)
    requires f.Valid()
    modifies f`pos
    ensures f.Valid() && ReplayModules(d, count, old(f.Rest())) == (rc, tracked, f.Rest())
  {
    rc, tracked := 0, [];
    ghost var start := f.Rest();
    for i := 0 to count
      invariant f.Valid() && rc == 0 && ReplayModules(d, i, start) == (0, tracked, f.Rest())
    {
      var m;
      rc, m := ReadModule(f, d);
      if rc != 0 {
        FailureStops(d, i + 1, count, start);
        return;
      }
      tracked := tracked + [m];
    }
  }

  // ---------- round trip ----------

  predicate NameFits(s: Bytes)
  {
    |s| < U32 && 0 !in s
  }

  predicate ModuleFits(m: Module)
  {
    && m.ctx < U64 && |m.path| < U32 && |m.image| < U32 && |m.symbols| < U32 && 0 !in m.path
    && forall i | 0 <= i < |m.symbols| :: NameFits(m.symbols[i])
  }

  function Found(d: Driver, payload: Bytes, names: seq<Bytes>): seq<Bytes>
  {
    if names == [] then [] else
    var front, last := Found(d, payload, names[..|names| - 1]), names[|names| - 1];
    if d.finds(payload, last) then front + [last] else front
  }

  /** What a restart makes of a module: the path is dropped if there is an image, and names that the
      driver no longer finds are dropped. */
  function Reloaded(d: Driver, m: Module): Module
  {
    Module(m.ctx, if m.image == [] then m.path else [], m.image, Found(d, Payload(m), m.symbols))
  }

  function LoadError(d: Driver, m: Module): int
  {
    if m.image == [] then (if d.loadsPath(m.path) then 0 else -32)
    else (if d.loadsImage(m.image) then 0 else -33)
  }

  /** Module by module, up to the first one that does not load. */
  function Reloading(d: Driver, mods: seq<Module>): (int, seq<Module>)
  {
    if mods == [] then (0, []) else
    var (rc, front) := Reloading(d, mods[..|mods| - 1]);
    var last := mods[|mods| - 1];
    if rc != 0 then (rc, front)
    else if LoadError(d, last) != 0 then (LoadError(d, last), front)
    else (0, front + [Reloaded(d, last)])
  }

  lemma {:induction false} FillOf(x: Bytes, rest: Bytes)
    ensures Fill(|x|, x + rest) == (x, rest)
  {
    assert (x + rest)[..|x|] == x && (x + rest)[|x|..] == rest;
  }

  lemma {:induction false} FillPut(w: Width, n: nat, rest: Bytes)
    requires n < Limit(w)
    ensures FillNumber(w, Put(w, n) + rest) == (n, rest)
  {
    WidthLimit(w);
    LERoundTrip(n, Size(w));
    FillOf(Put(w, n), rest);
  }

  lemma {:induction false} NameRoundTrip(d: Driver, payload: Bytes, name: Bytes, rest: Bytes)
    requires NameFits(name)
    ensures ReplayName(d, payload, EncodeName(name) + rest) == (if d.finds(payload, name) then [name] else [], rest)
  {
    Assoc(Put(Word, |name|), name, rest);
    FillPut(Word, |name|, name + rest);
    FillOf(name, rest);
  }

  lemma {:induction false} NamesStep(d: Driver, payload: Bytes, n: nat, b: Bytes, tail: Bytes, rest: Bytes,
                                     names: seq<Bytes>, found: seq<Bytes>)
    requires ReplayNames(d, payload, n, b) == (names, tail) && ReplayName(d, payload, tail) == (found, rest)
    ensures ReplayNames(d, payload, n + 1, b) == (names + found, rest)
  {
  }

  lemma {:induction false} NamesSplit(front: seq<Bytes>, last: Bytes, rest: Bytes)
    ensures PutAll(NameCoder(), front + [last]) + rest == PutAll(NameCoder(), front) + (EncodeName(last) + rest)
  {
    PutAllSnoc(NameCoder(), front, last);
    Assoc(PutAll(NameCoder(), front), EncodeName(last), rest);
  }

  lemma {:induction false} ModulesSplit(front: seq<Module>, last: Module, rest: Bytes)
    ensures PutAll(ModuleCoder(), front + [last]) + rest == PutAll(ModuleCoder(), front) + (EncodeModule(last) + rest)
  {
    PutAllSnoc(ModuleCoder(), front, last);
    Assoc(PutAll(ModuleCoder(), front), EncodeModule(last), rest);
  }

  lemma {:induction false} NamesRoundTrip(d: Driver, payload: Bytes, names: seq<Bytes>, rest: Bytes)
    requires forall i | 0 <= i < |names| :: NameFits(names[i])
    ensures ReplayNames(d, payload, |names|, PutAll(NameCoder(), names) + rest) == (Found(d, payload, names), rest)
  {
    if names == [] {
      assert [] + rest == rest;
    } else {
      var front, last := names[..|names| - 1], names[|names| - 1];
      assert names == front + [last];
      NamesRoundTrip(d, payload, front, EncodeName(last) + rest);
      OneMoreName(d, payload, front, last, rest);
    }
  }

  lemma {:induction false} OneMoreName(d: Driver, payload: Bytes, front: seq<Bytes>, last: Bytes, rest: Bytes)
    requires NameFits(last)
    requires ReplayNames(d, payload, |front|, PutAll(NameCoder(), front) + (EncodeName(last) + rest))
             == (Found(d, payload, front), EncodeName(last) + rest)
    ensures ReplayNames(d, payload, |front| + 1, PutAll(NameCoder(), front + [last]) + rest)
            == (Found(d, payload, front + [last]), rest)
  {
    var found := if d.finds(payload, last) then [last] else [];
    NamesSplit(front, last, rest);
    NameRoundTrip(d, payload, last, rest);
    NamesStep(d, payload, |front|, PutAll(NameCoder(), front + [last]) + rest, EncodeName(last) + rest, rest,
              Found(d, payload, front), found);
    FoundSnoc(d, payload, front, last);
  }

  lemma {:induction false} FoundSnoc(d: Driver, payload: Bytes, front: seq<Bytes>, last: Bytes)
    ensures Found(d, payload, front + [last]) ==
            Found(d, payload, front) + if d.finds(payload, last) then [last] else []
  {
    assert (front + [last])[..|front|] == front;
  }

  lemma {:induction false} ModuleRoundTrip(d: Driver, m: Module, rest: Bytes)
    requires ModuleFits(m)
    ensures var (rc, got, left) := ReplayModule(d, EncodeModule(m) + rest);
            rc == LoadError(d, m) && (rc == 0 ==> got == Reloaded(d, m) && left == rest)
  {
    var names := PutAll(NameCoder(), m.symbols);
    var fromNames := names + rest;
    var fromCount := Put(Word, |m.symbols|) + fromNames;
    var fromPayload := Payload(m) + fromCount;
    var fromLen := Put(Word, |Payload(m)|) + fromPayload;
    var fromKind := Put(Word, Kind(m)) + fromLen;
    ModuleLayout(m, rest);
    FillPut(Quad, m.ctx, fromKind);
    FillPut(Word, Kind(m), fromLen);
    FillPut(Word, |Payload(m)|, fromPayload);
    FillOf(Payload(m), fromCount);
    FillPut(Word, |m.symbols|, fromNames);
    NamesRoundTrip(d, Payload(m), m.symbols, rest);
  }

  lemma {:induction false} ModuleLayout(m: Module, rest: Bytes)
    ensures EncodeModule(m) + rest ==
            Put(Quad, m.ctx) + (Put(Word, Kind(m)) + (Put(Word, |Payload(m)|) + (Payload(m)
              + (Put(Word, |m.symbols|) + (PutAll(NameCoder(), m.symbols) + rest)))))
  {
    var a, b, c, e, f, g := Put(Quad, m.ctx), Put(Word, Kind(m)), Put(Word, |Payload(m)|), Payload(m),
                            Put(Word, |m.symbols|), PutAll(NameCoder(), m.symbols);
    Assoc(a, b + (c + (e + (f + g))), rest);
    Assoc(b, c + (e + (f + g)), rest);
    Assoc(c, e + (f + g), rest);
    Assoc(e, f + g, rest);
    Assoc(f, g, rest);
  }

  lemma {:induction false} ModulesReplayed(d: Driver, mods: seq<Module>, rest: Bytes)
    requires forall i | 0 <= i < |mods| :: ModuleFits(mods[i])
    ensures var (rc, got, left) := ReplayModules(d, |mods|, PutAll(ModuleCoder(), mods) + rest);
            (rc, got) == Reloading(d, mods) && (rc == 0 ==> left == rest)
  {
    if mods == [] {
      assert [] + rest == rest;
    } else {
      var front, last := mods[..|mods| - 1], mods[|mods| - 1];
      assert mods == front + [last];
      ModulesSplit(front, last, rest);
      ModulesReplayed(d, front, EncodeModule(last) + rest);
      ModuleRoundTrip(d, last, rest);
    }
  }

  /** The file of any module list is replayed module by module, up to the first one that does not load. */
  lemma {:induction false} ModulesRoundTrip(d: Driver, mods: seq<Module>)
    requires |mods| < U32 && forall i | 0 <= i < |mods| :: ModuleFits(mods[i])
    ensures ReplayFile(d, Some(EncodeModules(mods))) == Reloading(d, mods)
  {
    var body := PutAll(ModuleCoder(), mods);
    HeaderReplayed(d, |mods|, body);
    assert body + [] == body;
    ModulesReplayed(d, mods, []);
  }

  lemma {:induction false} HeaderReplayed(d: Driver, n: nat, body: Bytes)
    requires n < U32
    ensures ReplayFile(d, Some(Put(Word, Magic()) + (Put(Half, 1) + (Put(Half, 0) + (Put(Word, n) + body))))) ==
            (ReplayModules(d, n, body).0, ReplayModules(d, n, body).1)
  {
    FillPut(Word, Magic(), Put(Half, 1) + (Put(Half, 0) + (Put(Word, n) + body)));
    FillPut(Half, 1, Put(Half, 0) + (Put(Word, n) + body));
    FillPut(Half, 0, Put(Word, n) + body);
    FillPut(Word, n, body);
  }

  /** The file, byte range by byte range, up to the first module. */
  lemma {:induction false} ModulesBytes(mods: seq<Module>)
    requires |mods| < U32
    ensures var b := EncodeModules(mods);
            && |b| >= 12 && FromLE(b[0..4]) == 0x4D4F_4455 && FromLE(b[4..6]) == 1 && FromLE(b[6..8]) == 0
            && FromLE(b[8..12]) == |mods| && b[12..] == PutAll(ModuleCoder(), mods)
  {
    var body := PutAll(ModuleCoder(), mods);
    FieldAt([], Word, Magic(), Put(Half, 1) + (Put(Half, 0) + (Put(Word, |mods|) + body)));
    FieldAt(Put(Word, Magic()), Half, 1, Put(Half, 0) + (Put(Word, |mods|) + body));
    FieldAt(Put(Word, Magic()) + Put(Half, 1), Half, 0, Put(Word, |mods|) + body);
    FieldAt(Put(Word, Magic()) + Put(Half, 1) + Put(Half, 0), Word, |mods|, body);
    Group3([], Put(Word, Magic()), Put(Half, 1), Put(Half, 0) + (Put(Word, |mods|) + body));
    ModulesParts(Put(Word, Magic()), Put(Half, 1), Put(Half, 0), Put(Word, |mods|), body);
  }

  lemma {:induction false} ModulesParts(a: Bytes, b: Bytes, c: Bytes, d: Bytes, e: Bytes)
    ensures var all := a + (b + (c + (d + e)));
            && all == [] + (a + (b + (c + (d + e)))) && all == (a + b) + (c + (d + e))
            && all == (a + b + c) + (d + e) && all == (a + b + c + d) + e
  {
    Assoc(a, b, c + (d + e));
    Assoc(a + b, c, d + e);
    Assoc(a + b + c, d, e);
  }

  /** One module: context, kind, length, contents, the number of names. */
  lemma {:induction false} ModuleBytes(m: Module)
    requires ModuleFits(m)
    ensures var b, contents := EncodeModule(m), if m.image == [] then m.path else m.image;
            var o := 16 + |contents|;
            && |b| >= o + 4
            && FromLE(b[0..8]) == m.ctx && FromLE(b[8..12]) == (if m.image == [] then 0 else 1)
            && FromLE(b[12..16]) == |contents| && b[16..o] == contents
            && FromLE(b[o..o + 4]) == |m.symbols| && b[o + 4..] == PutAll(NameCoder(), m.symbols)
  {
    var x, k, l, p, n, t := Put(Quad, m.ctx), Put(Word, Kind(m)), Put(Word, |Payload(m)|), Payload(m),
                            Put(Word, |m.symbols|), PutAll(NameCoder(), m.symbols);
    FieldAt([], Quad, m.ctx, k + (l + (p + (n + t))));
    FieldAt(x, Word, Kind(m), l + (p + (n + t)));
    FieldAt(x + k, Word, |p|, p + (n + t));
    FieldAt(x + k + l + p, Word, |m.symbols|, t);
    ModulesParts(x, k, l, p, n + t);
    Assoc(x + k + l + p, n, t);
    assert EncodeModule(m) == (x + k + l + p) + (n + t);
  }

  function PathsDropped(mods: seq<Module>): seq<Module>
  {
    if mods == [] then [] else
    var last := mods[|mods| - 1];
    PathsDropped(mods[..|mods| - 1]) + [if last.image == [] then last else last.(path := [])]
  }

  /** With a driver that loads and finds everything, only the paths of modules with an image are lost. */
  lemma {:induction false} WillingDriverReloadsAll(d: Driver, mods: seq<Module>)
    requires forall p :: d.loadsPath(p) && d.loadsImage(p)
    requires forall p, s :: d.finds(p, s)
    ensures Reloading(d, mods) == (0, PathsDropped(mods))
  {
    if mods != [] {
      var last := mods[|mods| - 1];
      AllFound(d, Payload(last), last.symbols);
      WillingDriverReloadsAll(d, mods[..|mods| - 1]);
    }
  }

  lemma {:induction false} AllFound(d: Driver, payload: Bytes, names: seq<Bytes>)
    requires forall p, s :: d.finds(p, s)
    ensures Found(d, payload, names) == names
  {
    if names != [] {
      AllFound(d, payload, names[..|names| - 1]);
    }
  }
}
