/** The control protocol: the shim's side (shim/ipc.c) and the client's (pkg/rpc/proto.go), and what the
    two do together. */
module Rpc {
  import opened Bytes
  import Codec

  function OpPing(): nat { 1 }
  function OpStatus(): nat { 2 }
  function OpFreeze(): nat { 3 }
  function OpSnapshot(): nat { 4 }
  function OpRestore(): nat { 5 }
  function OpResume(): nat { 6 }
  function OpQuit(): nat { 7 }
  function OpStats(): nat { 8 }
  function OpAuth(): nat { 9 }

  function WordSize(): nat { 4 }

  function U32BE(n: nat): (r: Bytes)
    ensures |r| == WordSize()
  {
    BE(n, WordSize())
  }

  lemma {:induction false} WordRoundTrip(n: nat)
    requires n < U32
    ensures FromBE(U32BE(n)) == n
  {
    Widths();
    BERoundTrip(n, WordSize());
  }

  /** Words one after another on the wire. */
  function PutWords(words: seq<nat>): Bytes
  {
    if words == [] then [] else U32BE(words[0]) + PutWords(words[1..])
  }

  lemma {:induction false} PutWordsAppend(a: seq<nat>, b: seq<nat>)
    ensures PutWords(a + b) == PutWords(a) + PutWords(b)
  {
    if a == [] {
      assert a + b == b;
    } else {
      PutWordsAppend(a[1..], b);
      assert (a + b)[1..] == a[1..] + b;
    }
  }

  // ---------- secrets ----------

  function Or(a: nat, b: nat, k: nat): (r: nat)
    decreases k
  {
    if k == 0 then 0 else (if a % 2 == 0 && b % 2 == 0 then 0 else 1) + 2 * Or(a / 2, b / 2, k - 1)
  }

  function CharBits(): nat { 8 }

  lemma {:induction false} XorZero(a: nat, b: nat, k: nat)
    ensures a == b ==> Xor(a, b, k) == 0
    ensures a < Pow2(k) && b < Pow2(k) ==> (Xor(a, b, k) == 0 <==> a == b)
    ensures Xor(a, b, k) < Pow2(k)
    decreases k
  {
    if k > 0 {
      XorZero(a / 2, b / 2, k - 1);
    }
  }

  lemma {:induction false} OrZero(a: nat, b: nat, k: nat)
    requires a < Pow2(k) && b < Pow2(k)
    ensures Or(a, b, k) == 0 <==> a == 0 && b == 0
    ensures Or(a, b, k) < Pow2(k)
    decreases k
  {
    if k > 0 {
      OrZero(a / 2, b / 2, k - 1);
    }
  }

  lemma {:induction false} ByteRange()
    ensures Pow2(CharBits()) == 256
  {
    assert Pow2(4) == 16;
    assert Pow2(8) == 16 * Pow2(4);
  }

  /** A C string continued with zeros. */
  function At(s: Bytes, i: nat): byte
  {
    if i < |s| then s[i] else 0
  }

  /** Compares in time that does not depend on the contents.  The length difference is truncated to one
      byte, but lengths that differ always show in the padded contents. */
  method SecretsMatch(secret: Bytes, token: Bytes) returns (same: bool)
    requires 0 !in secret
    ensures same <==> secret == [] || CString(token) == secret
  {
    if secret == [] { return true; }
    var got := CString(token);
    ByteRange();
    XorZero(|got|, |secret|, CharBits());
    var diff := Xor(|got|, |secret|, CharBits());
    var n := if |got| > |secret| then |got| else |secret|;
    for i := 0 to n
      invariant 0 <= diff < 256
      invariant diff == 0 <==>
        Xor(|got|, |secret|, CharBits()) == 0 && forall j | 0 <= j < i :: At(secret, j) == At(got, j)
    {
      var a, b := At(secret, i), At(got, i);
      XorZero(a, b, CharBits());
      OrZero(diff, Xor(a, b, CharBits()), CharBits());
      diff := Or(diff, Xor(a, b, CharBits()), CharBits());
    }
    PaddedEqual(secret, got, n);
    same := diff == 0;
  }

  lemma {:induction false} PaddedEqual(a: Bytes, b: Bytes, n: nat)
    requires 0 !in a && 0 !in b && n >= |a| && n >= |b|
    ensures (forall j | 0 <= j < n :: At(a, j) == At(b, j)) <==> a == b
  {
    assert |a| < |b| ==> At(a, |a|) == 0 && At(b, |a|) != 0;
    assert |b| < |a| ==> At(b, |b|) == 0 && At(a, |b|) != 0;
    if forall j | 0 <= j < n :: At(a, j) == At(b, j) {
      assert |a| == |b|;
      forall j | 0 <= j < |a| ensures a[j] == b[j] {
        assert At(a, j) == At(b, j);
      }
    }
  }

  /** What the shim keeps of the environment variable: its buffer has 256 places, the last for the zero. */
  function StoredSecret(env: Bytes): (r: Bytes)
    ensures 0 !in r && |r| <= 255
  {
    var s := CString(env);
    if |s| <= 255 then s else s[..255]
  }

  // ---------- requests and replies ----------

  datatype Request = Ping | Status | Freeze | Snapshot(path: Bytes) | Restore(path: Bytes) | Resume | Quit | GetStats

  datatype Stats = Stats(allocs: nat, totalBytes: nat, streams: nat, modules: nat, symbols: nat, events: nat,
                         ctxs: nat, unsupported: nat, state: nat)

  /** The outcomes of the operations that the server calls. */
  datatype Answers = Answers(quiesced: bool, snapshots: bool, restores: bool, state: nat, stats: Stats)

  function Rc(ok: bool): nat
  {
    if ok then 0 else 1
  }

  function StatsWords(s: Stats): seq<nat>
  {
    [0, s.allocs, s.totalBytes % U32, s.totalBytes / U32, s.streams, s.modules, s.symbols, s.events, s.ctxs,
     s.unsupported, s.state]
  }

  function Reply(r: Request, a: Answers): (words: seq<nat>)
    ensures words != []
  {
    match r
    case Status => [a.state]
    case Freeze => [Rc(a.quiesced)]
    case Snapshot(_) => [Rc(a.snapshots)]
    case Restore(_) => [Rc(a.restores)]
    case GetStats => StatsWords(a.stats)
    case _ => [0]
  }

  function TakesPath(op: nat): bool
  {
    op == OpSnapshot() || op == OpRestore()
  }

  /** The request an opcode stands for; None for an unknown one. */
  function RequestOf(op: nat, path: Bytes): Option<Request>
  {
    if op == OpPing() then Some(Ping)
    else if op == OpStatus() then Some(Status)
    else if op == OpStats() then Some(GetStats)
    else if op == OpFreeze() then Some(Freeze)
    else if op == OpSnapshot() then Some(Snapshot(path))
    else if op == OpRestore() then Some(Restore(path))
    else if op == OpResume() then Some(Resume)
    else if op == OpQuit() then Some(Quit)
    else None
  }

  // ---------- the server ----------

  /** Zero at the end of the stream. */
  function ReadU32(b: Bytes): (nat, Bytes)
  {
    if |b| < WordSize() then (0, []) else (FromBE(b[..WordSize()]), b[WordSize()..])
  }

  /** Fails if the text does not fit the buffer or is cut short. */
  function ReadStr(b: Bytes, cap: nat): (Option<Bytes>, Bytes)
  {
    var (n, rest) := ReadU32(b);
    if n >= cap then (None, rest)
    else if |rest| < n then (None, [])
    else (Some(rest[..n]), rest[n..])
  }

  function Capacity(): nat { 512 }

  /** The request executed after authentication, and the reply. */
  function ServeOp(a: Answers, b: Bytes): (Option<Request>, seq<nat>)
  {
    var (op, b1) := ReadU32(b);
    if TakesPath(op) then
      var (path, rest) := ReadStr(b1, Capacity());
      if path.None? then (None, [1]) else
      (RequestOf(op, CString(path.value)), Reply(RequestOf(op, CString(path.value)).value, a))
    else if RequestOf(op, []).None? then (None, [1])
    else (RequestOf(op, []), Reply(RequestOf(op, []).value, a))
  }

  /** The authentication: whether it let the client pass, its reply, and the rest of the stream. */
  function Admit(secret: Bytes, b: Bytes): (bool, seq<nat>, Bytes)
  {
    if secret == [] then (true, [], b) else
    var (op, b1) := ReadU32(b);
    if op != OpAuth() then (false, [2], b1) else
    var (token, rest) := ReadStr(b1, Capacity());
    if token.None? || CString(token.value) != secret then (false, [1], rest) else (true, [0], rest)
  }

  function Serve(secret: Bytes, a: Answers, b: Bytes): (Option<Request>, seq<nat>)
  {
    var (admitted, greeting, rest) := Admit(secret, b);
    if !admitted then (None, greeting) else
    var (request, reply) := ServeOp(a, rest);
    (request, greeting + reply)
  }

  /** One end of a connection: the bytes that arrive, and those sent so far. */
  class Conn {
    const input: Bytes
    var pos: nat
    var output: Bytes

    ghost predicate Valid()
      reads this
    {
      pos <= |input|
    }

    ghost function Rest(): Bytes
      reads this
      requires Valid()
    {
      input[pos..]
    }

    constructor (input: Bytes)
      ensures Valid() && Rest() == input && output == []
    {
      this.input, pos, output := input, 0, [];
    }

    method WriteU32(n: nat)
      modifies this`output
      ensures output == old(output) + U32BE(n)
    {
      output := output + U32BE(n);
    }

    method WriteStr(s: Bytes)
      modifies this`output
      ensures output == old(output) + (U32BE(|s|) + s)
    {
      WriteU32(|s|);
      if s != [] { output := output + s; }
    }

    /** The server's read. */
    method TakeU32() returns (n: nat)
      requires Valid()
      modifies this`pos
      ensures Valid() && ReadU32(old(Rest())) == (n, Rest())
    {
      if pos + WordSize() > |input| {
        pos := |input|;
        assert Rest() == [];
        return 0;
      }
      n := FromBE(input[pos..pos + WordSize()]);
      assert input[pos..pos + WordSize()] == Rest()[..WordSize()];
      pos := pos + WordSize();
    }

    method TakeStr(cap: nat) returns (s: Option<Bytes>)
      requires Valid()
      modifies this`pos
      ensures Valid() && ReadStr(old(Rest()), cap) == (s, Rest())
    {
      var n := TakeU32();
      if n >= cap { return None; }
      if pos + n > |input| {
        pos := |input|;
        assert Rest() == [];
        return None;
      }
      s := Some(input[pos..pos + n]);
      assert input[pos..pos + n] == Rest()[..n];
      pos := pos + n;
    }

    /** The client's read fails at the end of the stream. */
    method NextU32() returns (n: Option<nat>)
      requires Valid()
      modifies this`pos
      ensures Valid()
      ensures n.Some? <==> |old(Rest())| >= WordSize()
      ensures n.Some? ==> ReadU32(old(Rest())) == (n.value, Rest())
    {
      if pos + WordSize() > |input| { return None; }
      var k := TakeU32();
      n := Some(k);
    }
  }

  method RequireAuth(c: Conn, secret: Bytes) returns (admitted: bool)
    requires c.Valid() && 0 !in secret
    modifies c
    ensures c.Valid()
    ensures var (ok, greeting, rest) := Admit(secret, old(c.Rest()));
            admitted == ok && c.Rest() == rest && c.output == old(c.output) + PutWords(greeting)
  {
    if secret == [] { return true; }
    OneWord(0);
    OneWord(1);
    OneWord(2);
    var op := c.TakeU32();
    if op != OpAuth() {
      c.WriteU32(2);
      return false;
    }
    var token := c.TakeStr(Capacity());
    admitted := false;
    if token.Some? { admitted := SecretsMatch(secret, token.value); }
    c.WriteU32(if admitted then 0 else 1);
  }

  lemma {:induction false} OneWord(n: nat)
    ensures PutWords([n]) == U32BE(n)
  {
    assert PutWords([n]) == U32BE(n) + PutWords([]);
  }

  method WriteWords(c: Conn, words: seq<nat>)
    modifies c`output
    ensures c.output == old(c.output) + PutWords(words)
  {
    for i := 0 to |words|
      invariant c.output == old(c.output) + PutWords(words[..i])
    {
      c.WriteU32(words[i]);
      PutWordsAppend(words[..i], [words[i]]);
      OneWord(words[i]);
      assert words[..i + 1] == words[..i] + [words[i]];
    }
    assert words[..|words|] == words;
  }

  /** The switch over the opcode. */
  method HandleOp(c: Conn, a: Answers) returns (executed: Option<Request>)
    requires c.Valid()
    modifies c
    ensures executed == ServeOp(a, old(c.Rest())).0
    ensures c.output == old(c.output) + PutWords(ServeOp(a, old(c.Rest())).1)
  {
    OneWord(1);
    var op := c.TakeU32();
    var path := Some([]);
    if TakesPath(op) { path := c.TakeStr(Capacity()); }
    executed := if path.None? then None else RequestOf(op, CString(path.value));
    if executed.None? {
      c.WriteU32(1);
    } else {
      WriteWords(c, Reply(executed.value, a));
    }
  }

  /** One request for each connection, whatever else the client sends. */
  method HandleClient(c: Conn, secret: Bytes, a: Answers) returns (executed: Option<Request>)
    requires c.Valid() && 0 !in secret
    modifies c
    ensures executed == Serve(secret, a, old(c.Rest())).0
    ensures c.output == old(c.output) + PutWords(Serve(secret, a, old(c.Rest())).1)
  {
    ghost var before := c.output;
    ghost var (ok, greeting, rest) := Admit(secret, c.Rest());
    var admitted := RequireAuth(c, secret);
    if !admitted { return None; }
    ghost var reply := ServeOp(a, rest).1;
    PutWordsAppend(greeting, reply);
    Codec.Assoc(before, PutWords(greeting), PutWords(reply));
    executed := HandleOp(c, a);
  }

  // ---------- the client ----------

  function StrBytes(s: Bytes): Bytes
  {
    U32BE(|s|) + s
  }

  function AuthBytes(secret: Bytes): Bytes
  {
    if secret == [] then [] else U32BE(OpAuth()) + StrBytes(secret)
  }

  function CallBytes(op: nat, path: Bytes): Bytes
  {
    U32BE(op) + if TakesPath(op) then StrBytes(path) else []
  }

  method Authenticate(c: Conn, secret: Bytes) returns (ok: bool)
    requires c.Valid()
    modifies c
    ensures c.Valid() && c.output == old(c.output) + AuthBytes(secret)
    ensures secret == [] ==> ok && c.Rest() == old(c.Rest())
    ensures secret != [] ==> (ok <==> |old(c.Rest())| >= WordSize() && ReadU32(old(c.Rest())) == (0, c.Rest()))
  {
    if secret == [] { return true; }
    c.WriteU32(OpAuth());
    c.WriteStr(secret);
    Codec.Assoc(old(c.output), U32BE(OpAuth()), StrBytes(secret));
    var rc := c.NextU32();
    ok := rc == Some(0);
  }

  method Call(c: Conn, op: nat, path: Bytes) returns (rc: Option<nat>)
    requires c.Valid()
    modifies c
    ensures c.Valid() && c.output == old(c.output) + CallBytes(op, path)
    ensures rc.Some? <==> |old(c.Rest())| >= WordSize()
    ensures rc.Some? ==> ReadU32(old(c.Rest())) == (rc.value, c.Rest())
  {
    c.WriteU32(op);
    if TakesPath(op) { c.WriteStr(path); }
    Codec.Assoc(old(c.output), U32BE(op), if TakesPath(op) then StrBytes(path) else []);
    rc := c.NextU32();
  }

  /** The word at position i of a stream. */
  function WordAt(b: Bytes, i: nat): nat
    requires 4 * (i + 1) <= |b|
  {
    FromBE(b[4 * i..4 * (i + 1)])
  }

  function StatsAt(b: Bytes): Stats
    requires |b| >= 4 * 11
  {
    Stats(WordAt(b, 1), WordAt(b, 3) * U32 + WordAt(b, 2), WordAt(b, 4), WordAt(b, 5), WordAt(b, 6), WordAt(b, 7),
          WordAt(b, 8), WordAt(b, 9), WordAt(b, 10))
  }

  /** The next field of the reply; the stream before it is ghost. */
  method Field(c: Conn, ghost b: Bytes, ghost i: nat) returns (n: Option<nat>)
    requires c.Valid() && 4 * i <= |b| && c.Rest() == b[4 * i..]
    modifies c`pos
    ensures c.Valid()
    ensures n.Some? <==> 4 * (i + 1) <= |b|
    ensures n.Some? ==> n.value == WordAt(b, i) && c.Rest() == b[4 * (i + 1)..]
  {
    n := c.NextU32();
    if 4 * (i + 1) <= |b| {
      assert b[4 * i..][..WordSize()] == b[4 * i..4 * (i + 1)];
      assert b[4 * i..][WordSize()..] == b[4 * (i + 1)..];
    }
  }

  method GetStatsReply(c: Conn) returns (s: Option<Stats>)
    requires c.Valid()
    modifies c
    ensures c.output == old(c.output) + CallBytes(OpStats(), [])
    ensures s.Some? <==> |old(c.Rest())| >= 4 * 11 && WordAt(old(c.Rest()), 0) == 0
    ensures s.Some? ==> s.value == StatsAt(old(c.Rest()))
  {
    ghost var b := c.Rest();
    c.WriteU32(OpStats());
    assert b[4 * 0..] == b;
    var rc := Field(c, b, 0);
    if rc != Some(0) { return None; }
    var allocs := Field(c, b, 1);
    if allocs.None? { return None; }
    var lo := Field(c, b, 2);
    if lo.None? { return None; }
    var hi := Field(c, b, 3);
    if hi.None? { return None; }
    s := RestOfStats(c, b, Stats(allocs.value, hi.value * U32 + lo.value, 0, 0, 0, 0, 0, 0, 0));
  }

  method RestOfStats(c: Conn, ghost b: Bytes, first: Stats) returns (s: Option<Stats>)
    requires c.Valid() && 4 * 4 <= |b| && c.Rest() == b[4 * 4..]
    modifies c`pos
    ensures s.Some? <==> |b| >= 4 * 11
    ensures s.Some? ==> s.value == StatsAt(b).(allocs := first.allocs, totalBytes := first.totalBytes)
  {
    var streams := Field(c, b, 4);
    if streams.None? { return None; }
    var modules := Field(c, b, 5);
    if modules.None? { return None; }
    var symbols := Field(c, b, 6);
    if symbols.None? { return None; }
    var events := Field(c, b, 7);
    if events.None? { return None; }
    var ctxs := Field(c, b, 8);
    if ctxs.None? { return None; }
    var unsupported := Field(c, b, 9);
    if unsupported.None? { return None; }
    var state := Field(c, b, 10);
    if state.None? { return None; }
    s := Some(Stats(first.allocs, first.totalBytes, streams.value, modules.value, symbols.value, events.value,
                    ctxs.value, unsupported.value, state.value));
  }

  // ---------- the two together ----------

  predicate FitWords(words: seq<nat>)
  {
    forall i | 0 <= i < |words| :: words[i] < U32
  }

  lemma {:induction false} WordFirst(n: nat, tail: Bytes)
    requires n < U32
    ensures WordAt(U32BE(n) + tail, 0) == n
  {
    WordRoundTrip(n);
    assert (U32BE(n) + tail)[4 * 0..4 * 1] == U32BE(n);
  }

  lemma {:induction false} WordLater(front: Bytes, tail: Bytes, i: nat)
    requires |front| == WordSize() && 0 < i && 4 * i <= |tail|
    ensures WordAt(front + tail, i) == WordAt(tail, i - 1)
  {
    assert (front + tail)[4 * i..4 * (i + 1)] == tail[4 * (i - 1)..4 * i];
  }

  lemma {:induction false} WordAtPut(words: seq<nat>, rest: Bytes, i: nat)
    requires FitWords(words) && i < |words|
    ensures |PutWords(words)| == 4 * |words|
    ensures WordAt(PutWords(words) + rest, i) == words[i]
  {
    var tail := PutWords(words[1..]) + rest;
    PutWordsLength(words);
    PutWordsLength(words[1..]);
    Codec.Assoc(U32BE(words[0]), PutWords(words[1..]), rest);
    assert PutWords(words) + rest == U32BE(words[0]) + tail;
    if i == 0 {
      WordFirst(words[0], tail);
    } else {
      WordAtPut(words[1..], rest, i - 1);
      WordLater(U32BE(words[0]), tail, i);
    }
  }

  lemma {:induction false} PutWordsLength(words: seq<nat>)
    ensures |PutWords(words)| == 4 * |words|
  {
    if words != [] { PutWordsLength(words[1..]); }
  }

  predicate StatsFit(s: Stats)
  {
    && s.allocs < U32 && s.totalBytes < U64 && s.streams < U32 && s.modules < U32 && s.symbols < U32
    && s.events < U32 && s.ctxs < U32 && s.unsupported < U32 && s.state < U32
  }

  /** The client rebuilds the server's statistics, the 64-bit total included. */
  lemma {:induction false} StatsRoundTrip(s: Stats, rest: Bytes)
    requires StatsFit(s)
    ensures var b := PutWords(StatsWords(s)) + rest;
            |b| >= 4 * 11 && WordAt(b, 0) == 0 && StatsAt(b) == s
  {
    var words := StatsWords(s);
    assert s.totalBytes / U32 < U32;
    assert FitWords(words) && |words| == 11;
    PutWordsLength(words);
    forall i | 0 <= i < 11 ensures WordAt(PutWords(words) + rest, i) == words[i] {
      WordAtPut(words, rest, i);
    }
  }

  lemma {:induction false} ReadU32Of(n: nat, rest: Bytes)
    requires n < U32
    ensures ReadU32(U32BE(n) + rest) == (n, rest)
  {
    WordRoundTrip(n);
    var b := U32BE(n) + rest;
    assert b[..WordSize()] == U32BE(n) && b[WordSize()..] == rest;
  }

  lemma {:induction false} ReadStrOf(s: Bytes, rest: Bytes, cap: nat)
    requires |s| < U32
    ensures ReadStr(StrBytes(s) + rest, cap).0 == if |s| < cap then Some(s) else None
    ensures |s| < cap ==> ReadStr(StrBytes(s) + rest, cap).1 == rest
  {
    Codec.Assoc(U32BE(|s|), s, rest);
    ReadU32Of(|s|, s + rest);
    assert (s + rest)[..|s|] == s && (s + rest)[|s|..] == rest;
  }

  predicate KnownOp(op: nat)
  {
    OpPing() <= op <= OpStats()
  }

  lemma {:induction false} ServeOpOf(a: Answers, op: nat, path: Bytes, more: Bytes)
    requires KnownOp(op) && |path| < U32 && 0 !in path
    ensures var refused := TakesPath(op) && |path| >= Capacity();
            ServeOp(a, CallBytes(op, path) + more) ==
            if refused then (None, [1]) else (RequestOf(op, path), Reply(RequestOf(op, path).value, a))
  {
    var text := if TakesPath(op) then StrBytes(path) else [];
    Codec.Assoc(U32BE(op), text, more);
    ReadU32Of(op, text + more);
    if TakesPath(op) { ReadStrOf(path, more, Capacity()); } else { assert text + more == more; }
  }

  /** What becomes of the client's stream at the authentication: with equal secrets, both empty included, it
      passes; a client without a secret is told 2, one with the wrong secret 1; and a server without a
      secret passes on an unasked one, which the next lemma shows to fail as an opcode. */
  lemma {:induction false} AdmitCases(client: Bytes, server: Bytes, op: nat, path: Bytes, more: Bytes)
    requires KnownOp(op) && |client| < U32 && 0 !in client && 0 !in server && |server| <= 255
    ensures var call := CallBytes(op, path) + more;
            Admit(server, AuthBytes(client) + call) ==
              if server == [] then (true, [], AuthBytes(client) + call)
              else if client == server then (true, [0], call)
              else (false, if client == [] then [2] else [1], Admit(server, AuthBytes(client) + call).2)
    ensures var call := CallBytes(op, path) + more;
            server == [] && client == [] ==> AuthBytes(client) + call == call
  {
    var call := CallBytes(op, path) + more;
    if server != [] {
      if client == [] {
        var text := if TakesPath(op) then StrBytes(path) else [];
        assert [] + call == call;
        Codec.Assoc(U32BE(op), text, more);
        ReadU32Of(op, text + more);
      } else {
        Codec.Assoc(U32BE(OpAuth()), StrBytes(client), call);
        ReadU32Of(OpAuth(), StrBytes(client) + call);
        ReadStrOf(client, call, Capacity());
      }
    } else if client == [] {
      assert [] + call == call;
    }
  }

  /** The server executes exactly the client's operation and path if and only if the secrets are equal and
      the path, where there is one, fits its buffer; otherwise it executes nothing.  Whatever else the
      client sends on the same connection is ignored. */
  lemma {:induction false} SessionExecutes(client: Bytes, server: Bytes, op: nat, path: Bytes, a: Answers, more: Bytes)
    requires KnownOp(op) && |client| < U32 && 0 !in client && 0 !in server && |server| <= 255
    requires |path| < U32 && 0 !in path
    ensures var (executed, words) := Serve(server, a, AuthBytes(client) + (CallBytes(op, path) + more));
            var accepted := client == server && (TakesPath(op) ==> |path| < Capacity());
            && executed == (if accepted then RequestOf(op, path) else None)
            && (accepted ==> words == (if server == [] then [] else [0]) + Reply(RequestOf(op, path).value, a))
  {
    AdmitCases(client, server, op, path, more);
    ServeOpOf(a, op, path, more);
    if server == [] && client != [] {
      var call := CallBytes(op, path) + more;
      Codec.Assoc(U32BE(OpAuth()), StrBytes(client), call);
      ReadU32Of(OpAuth(), StrBytes(client) + call);
    }
  }

  /** The bytes of a call: the opcode as four bytes, highest first, and for a snapshot or a restore the length
      of the path in the same form and the path. */
  lemma {:induction false} CallOnWire(op: nat, path: Bytes)
    requires 1 <= op <= 8
    ensures CallBytes(op, path) == [0, 0, 0, op] + if op == 4 || op == 5 then U32BE(|path|) + path else []
  {
    OpcodeBytes(op);
  }

  /** The bytes of the authentication: opcode 9, the length of the secret and the secret. */
  lemma {:induction false} AuthOnWire(secret: Bytes)
    requires secret != []
    ensures AuthBytes(secret) == [0, 0, 0, 9] + (U32BE(|secret|) + secret)
  {
    OpcodeBytes(9);
  }

  lemma {:induction false} OpcodeBytes(op: nat)
    requires op < 256
    ensures U32BE(op) == [0, 0, 0, op]
  {
    var b := U32BE(op);
    Widths();
    WordRoundTrip(op);
    BigEndian(b);
    assert b[0] == 0;
    assert b[1] == 0;
    assert b[2] == 0;
  }

  /** The operation with this number. */
  ghost predicate Numbered(op: nat, path: Bytes, r: Request)
  {
    match op
    case 1 => r == Ping
    case 2 => r == Status
    case 3 => r == Freeze
    case 4 => r == Snapshot(path)
    case 5 => r == Restore(path)
    case 6 => r == Resume
    case 7 => r == Quit
    case 8 => r == GetStats
    case _ => false
  }

  /** Its reply: one word, 0 for success and 1 for failure, except for the state and the statistics. */
  ghost predicate NumberedReply(op: nat, a: Answers, words: seq<nat>)
  {
    match op
    case 2 => words == [a.state]
    case 3 => words == [if a.quiesced then 0 else 1]
    case 4 => words == [if a.snapshots then 0 else 1]
    case 5 => words == [if a.restores then 0 else 1]
    case 8 => words == [0, a.stats.allocs, a.stats.totalBytes % 0x1_0000_0000, a.stats.totalBytes / 0x1_0000_0000,
                        a.stats.streams, a.stats.modules, a.stats.symbols, a.stats.events, a.stats.ctxs,
                        a.stats.unsupported, a.stats.state]
    case _ => words == [0]
  }

  lemma {:induction false} RequestByNumber(op: nat, path: Bytes, a: Answers)
    requires 1 <= op <= 8
    ensures var r := RequestOf(op, path);
            r.Some? && Numbered(op, path, r.value) && NumberedReply(op, a, Reply(r.value, a))
  {
  }

  /** Which operation an accepted call executes, by the number of its opcode, and the words of the reply. */
  lemma {:induction false} ExecutedByNumber(secret: Bytes, op: nat, path: Bytes, a: Answers, more: Bytes)
    requires 1 <= op <= 8 && 0 !in secret && |secret| <= 255 && 0 !in path && |path| < U32
    requires op == 4 || op == 5 ==> |path| < 512
    ensures var (executed, words) := Serve(secret, a, AuthBytes(secret) + (CallBytes(op, path) + more));
            var greeting := if secret == [] then [] else [0];
            && executed.Some? && Numbered(op, path, executed.value)
            && exists reply :: words == greeting + reply && NumberedReply(op, a, reply)
  {
    SessionExecutes(secret, secret, op, path, a, more);
    RequestByNumber(op, path, a);
  }

  /** A path of 512 bytes or more is refused, and so is any other opcode. */
  lemma {:induction false} RefusedByNumber(a: Answers, op: nat, path: Bytes, more: Bytes)
    requires op < U32 && |path| < U32 && 0 !in path
    requires op < 1 || op > 8 || ((op == 4 || op == 5) && |path| >= 512)
    ensures ServeOp(a, CallBytes(op, path) + more) == (None, [1])
  {
    var text := if TakesPath(op) then StrBytes(path) else [];
    Codec.Assoc(U32BE(op), text, more);
    ReadU32Of(op, text + more);
    if TakesPath(op) { ReadStrOf(path, more, Capacity()); } else { assert text + more == more; }
  }

  /** The client that was let in reads the greeting as success and then the first word of the reply as the
      return code of its call; a statistics call goes on to the whole record. */
  lemma {:induction false} ReplyReaches(secret: Bytes, r: Request, a: Answers)
    requires FitWords(Reply(r, a))
    ensures var sent := PutWords((if secret == [] then [] else [0]) + Reply(r, a));
            var rest := if secret == [] then sent else ReadU32(sent).1;
            && (secret != [] ==> ReadU32(sent).0 == 0)
            && |rest| >= WordSize() && ReadU32(rest).0 == Reply(r, a)[0]
            && rest == PutWords(Reply(r, a))
  {
    var reply := Reply(r, a);
    PutWordsAppend([0], reply);
    OneWord(0);
    ReadU32Of(0, PutWords(reply));
    ReadU32Of(reply[0], PutWords(reply[1..]));
    assert [] + reply == reply;
  }

  /** A secret that both sides take from one environment variable works if and only if it has at most 255
      bytes: the server truncates a longer one, the client does not. */
  lemma {:induction false} SharedSecretWorksIffShort(env: Bytes, op: nat, path: Bytes, a: Answers, more: Bytes)
    requires 0 !in env && |env| < U32 && KnownOp(op) && |path| < Capacity() && 0 !in path
    ensures Serve(StoredSecret(env), a, AuthBytes(env) + (CallBytes(op, path) + more)).0 ==
            if |env| <= 255 then RequestOf(op, path) else None
  {
    SessionExecutes(env, StoredSecret(env), op, path, a, more);
  }

  /** A call as the client makes it: opcode and path. */
  datatype CallOf = CallOf(op: nat, path: Bytes)

  predicate CallFits(c: CallOf)
  {
    KnownOp(c.op) && 0 !in c.path && |c.path| < U32 && (TakesPath(c.op) ==> |c.path| < Capacity())
  }

  function CallsBytes(calls: seq<CallOf>): Bytes
  {
    if calls == [] then [] else CallBytes(calls[0].op, calls[0].path) + CallsBytes(calls[1..])
  }

  function RequestsOf(calls: seq<CallOf>): seq<Option<Request>>
  {
    seq(|calls|, i requires 0 <= i < |calls| => RequestOf(calls[i].op, calls[i].path))
  }

  /** What a connection executes, as a list. */
  function ExecutedOn(secret: Bytes, a: Answers, b: Bytes): seq<Option<Request>>
  {
    var r := Serve(secret, a, b).0;
    if r.None? then [] else [r]
  }

  /** One request for each connection: of the calls that a client sends over it, all are executed if and
      only if there is at most one; the first always is. */
  lemma {:induction false} OneRequestPerConnection(secret: Bytes, calls: seq<CallOf>, a: Answers)
    requires 0 !in secret && |secret| <= 255 && forall i | 0 <= i < |calls| :: CallFits(calls[i])
    ensures var executed := ExecutedOn(secret, a, AuthBytes(secret) + CallsBytes(calls));
            && executed == (if calls == [] then [] else RequestsOf(calls)[..1])
            && (executed == RequestsOf(calls) <==> |calls| <= 1)
  {
    var executed := ExecutedOn(secret, a, AuthBytes(secret) + CallsBytes(calls));
    if calls == [] {
      NoCalls(secret, a);
    } else {
      FirstCallIsExecuted(secret, calls[0], CallsBytes(calls[1..]), a);
    }
    OnlyTheFirst(calls, executed);
  }

  lemma {:induction false} OnlyTheFirst(calls: seq<CallOf>, executed: seq<Option<Request>>)
    requires executed == if calls == [] then [] else [RequestOf(calls[0].op, calls[0].path)]
    ensures executed == if calls == [] then [] else RequestsOf(calls)[..1]
    ensures executed == RequestsOf(calls) <==> |calls| <= 1
  {
    if |calls| <= 1 { assert executed == RequestsOf(calls); }
  }

  lemma {:induction false} FirstCallIsExecuted(secret: Bytes, c: CallOf, more: Bytes, a: Answers)
    requires 0 !in secret && |secret| <= 255 && CallFits(c)
    ensures ExecutedOn(secret, a, AuthBytes(secret) + (CallBytes(c.op, c.path) + more)) == [RequestOf(c.op, c.path)]
  {
    AdmitOwn(secret, CallBytes(c.op, c.path) + more);
    ServeOpOf(a, c.op, c.path, more);
    KnownOpIsRequest(c);
  }

  lemma {:induction false} KnownOpIsRequest(c: CallOf)
    requires KnownOp(c.op)
    ensures RequestOf(c.op, c.path).Some?
  {
  }

  lemma {:induction false} NoCalls(secret: Bytes, a: Answers)
    requires 0 !in secret && |secret| <= 255
    ensures ExecutedOn(secret, a, AuthBytes(secret) + []) == []
  {
    AdmitOwn(secret, []);
    ServeNothing(a);
  }

  /** A client with the server's own secret is let in, whatever it sends then. */
  lemma {:induction false} AdmitOwn(secret: Bytes, rest: Bytes)
    requires 0 !in secret && |secret| <= 255
    ensures Admit(secret, AuthBytes(secret) + rest) == (true, if secret == [] then [] else [0], rest)
  {
    if secret == [] {
      assert [] + rest == rest;
    } else {
      Codec.Assoc(U32BE(OpAuth()), StrBytes(secret), rest);
      ReadU32Of(OpAuth(), StrBytes(secret) + rest);
      ReadStrOf(secret, rest, Capacity());
    }
  }

  /** The end of the stream reads as opcode 0. */
  lemma {:induction false} ServeNothing(a: Answers)
    ensures ServeOp(a, []) == (None, [1])
  {
  }
}
