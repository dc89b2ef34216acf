/** ckpt_restore_load of shim/restore.cu: entries back in allocation order, addresses re-created one by
    one, bytes copied back in parallel. */
module Restore {
  import opened Bytes
  import opened Memory
  import opened Format
  import opened CopyOutcome
  import opened CopyWorkers
  import opened Sorting
  import opened Snapshot
  import PP = PinnedPool

  /** The driver's answers for one entry: where cuMemAlloc put it (None if it failed), the result of
      mapping at the wanted address, and the host memory it offers. */
  datatype Answer = Answer(alloc: Option<nat>, remap: int, host: Option<nat>)

  /** The first failing call before the loop, and the final synchronisation; a willing driver refuses no
      host memory and no copy. */
  datatype RestoreEnvironment = RestoreEnvironment(early: int, synced: bool, willing: bool)

  // ---------- order ----------

  function ByOrder(): Entry -> nat
  {
    (e: Entry) => e.order
  }

  /** The entries in the order of replay: sorted unless no order was recorded at all. */
  function Replayed(entries: seq<Entry>): seq<Entry>
  {
    if exists i | 0 <= i < |entries| :: entries[i].order != 0 then Sort(ByOrder(), entries) else entries
  }

  /** The entries are replayed in ascending order of their numbers, equal numbers in the order of the file; a
      file without any number is replayed as it stands. */
  lemma {:induction false} ReplayOrder(entries: seq<Entry>, n: nat)
    ensures var r := Replayed(entries);
            && multiset(r) == multiset(entries)
            && (forall i, j | 0 <= i < j < |r| :: r[i].order <= r[j].order)
            && WithKey(ByOrder(), n, r) == WithKey(ByOrder(), n, entries)
            && ((forall i | 0 <= i < |entries| :: entries[i].order == 0) ==> r == entries)
  {
    var r := Replayed(entries);
    SortSorts(ByOrder(), entries);
    SortIsStable(ByOrder(), n, entries);
    forall i | 0 <= i < |r| ensures ByOrder()(r[i]) == r[i].order {}
  }

  // ---------- loading ----------

  /** The bytes of an entry, if device.bin has them. */
  function Chunk(device: Bytes, e: Entry): (r: Bytes)
    ensures |r| == e.size
    ensures e.offset + e.size <= |device| ==> r == device[e.offset..e.offset + e.size]
  {
    seq(e.size, k requires 0 <= k < e.size => if e.offset + k < |device| then device[e.offset + k] else 0)
  }

  function LoadJob(crc: Checksum, device: Bytes, entries: seq<Entry>, pooled: bool): Job
  {
    Job(seq(|entries|, i requires 0 <= i < |entries| => Chunk(device, entries[i])), crc, pooled)
  }

  /** The entries before i sit in host buffers of their own, taken from the pool. */
  ghost predicate Loaded(j: Job, before: seq<PP.Buf>, bufs: seq<PP.Buf>, tasks: seq<Task>, host: Mem, i: nat)
    requires |tasks| == |j.data|
  {
    && Linked(j, tasks, bufs) && PP.Holding(before, bufs, Slots(tasks))
    && forall h | 0 <= h < |tasks| ::
         if h < i then tasks[h].dst.Some? && Read(host, tasks[h].dst.value, |j.data[h]|) == j.data[h]
         else tasks[h].dst.None?
  }

  /** One more buffer is held, if there was one. */
  lemma {:induction false} HoldNext(before: seq<PP.Buf>, tasks: seq<Task>, bufs: seq<PP.Buf>, i: nat, size: nat,
                                    grant: Option<nat>)
    requires PP.Holding(before, bufs, Slots(tasks)) && PP.LegalGrant(bufs, size, grant)
    requires i < |tasks| && tasks[i].dst.None?
    ensures var (after, ptr) := PP.Acquired(bufs, size, grant);
            if ptr == 0 then after == bufs else
            var next := tasks[i := tasks[i].(dst := Some(ptr), slot := PP.Slot(bufs, size))];
            Slots(next) == Slots(tasks) + {PP.Slot(bufs, size)} && PP.Holding(before, after, Slots(next))
  {
    var (after, ptr) := PP.Acquired(bufs, size, grant);
    PP.AcquireHolds(before, bufs, Slots(tasks), size, grant);
    if ptr != 0 { MoreSlots(tasks, i, tasks[i].(dst := Some(ptr), slot := PP.Slot(bufs, size))); }
  }

  /** Filling one more buffer leaves the others as they are, because no two buffers overlap. */
  lemma {:induction false} LoadNext(j: Job, before: seq<PP.Buf>, bufs: seq<PP.Buf>, tasks: seq<Task>, host: Mem,
                                    i: nat, grant: Option<nat>)
    requires |tasks| == |j.data| && i < |tasks| && Loaded(j, before, bufs, tasks, host, i)
    requires PP.LegalGrant(bufs, |j.data[i]|, grant)
    ensures var (after, ptr) := PP.Acquired(bufs, |j.data[i]|, grant);
            ptr != 0 ==>
              var t := tasks[i].(dst := Some(ptr), slot := PP.Slot(bufs, |j.data[i]|));
              Loaded(j, before, after, tasks[i := t], Write(host, ptr, j.data[i]), i + 1)
  {
    var (after, ptr) := PP.Acquired(bufs, |j.data[i]|, grant);
    if ptr != 0 {
      var t := tasks[i].(dst := Some(ptr), slot := PP.Slot(bufs, |j.data[i]|));
      var next, filled := tasks[i := t], Write(host, ptr, j.data[i]);
      AcquireKeepsLinked(j, tasks, bufs, i, grant);
      PP.AcquireHolds(before, bufs, Slots(tasks), |j.data[i]|, grant);
      MoreSlots(tasks, i, t);
      LinkedIsApart(j, next, after);
      forall h | 0 <= h <= i ensures Read(filled, next[h].dst.value, |j.data[h]|) == j.data[h] {
        if h < i {
          assert Disjoint(next[h].dst.value, |j.data[h]|, ptr, |j.data[i]|);
          assert Read(filled, next[h].dst.value, |j.data[h]|) == Read(host, next[h].dst.value, |j.data[h]|);
        }
      }
    }
  }

  method AcquireFrom(bufs: seq<PP.Buf>, n: nat, grant: Option<nat>) returns (after: seq<PP.Buf>, ptr: nat)
    ensures (after, ptr) == PP.Acquired(bufs, n, grant)
  {
    var pool := new PP.Pool();
    pool.bufs := bufs;
    ptr := pool.Acquire(n, grant);
    after := pool.bufs;
  }

  /** The host memory the driver hands out for one entry. */
  function HostFor(bufs: seq<PP.Buf>, n: nat, a: Answer, willing: bool): Option<nat>
  {
    if willing then Some(PP.FreshAddress(bufs)) else Granted(bufs, n, a.host)
  }

  /** The pool after the first entries got their buffers. */
  function PoolAfter(bufs: seq<PP.Buf>, entries: seq<Entry>, answers: seq<Answer>, willing: bool): seq<PP.Buf>
    requires |answers| >= |entries|
  {
    if entries == [] then bufs else
    var n := |entries| - 1;
    var before := PoolAfter(bufs, entries[..n], answers, willing);
    PP.Acquired(before, entries[n].size, HostFor(before, entries[n].size, answers[n], willing)).0
  }

  /** The entry gets its own address, from the allocator or by mapping. */
  predicate Addressed(e: Entry, a: Answer)
  {
    a.alloc == Some(e.ptr) || a.remap == 0
  }

  /** The entry gets its own address, and its chunk is in the file. */
  predicate Placeable(e: Entry, a: Answer, device: Bytes)
  {
    Addressed(e, a) && e.offset + e.size <= |device|
  }

  /** The pool has a buffer for the entry. */
  predicate Buffered(bufs: seq<PP.Buf>, e: Entry, a: Answer, willing: bool)
  {
    PP.Acquired(bufs, e.size, HostFor(bufs, e.size, a, willing)).1 != 0
  }

  /** The first entry gets as far as its host buffer. */
  predicate FirstBuffered(entries: seq<Entry>, answers: seq<Answer>, pool: seq<PP.Buf>, willing: bool)
    requires |answers| >= |entries|
  {
    entries != [] && Addressed(entries[0], answers[0]) && Buffered(pool, entries[0], answers[0], willing)
  }

  /** Entry i also gets a host buffer. */
  predicate Loads(entries: seq<Entry>, answers: seq<Answer>, device: Bytes, pool: seq<PP.Buf>, willing: bool, i: nat)
    requires |answers| >= |entries| && i < |entries|
  {
    && Placeable(entries[i], answers[i], device)
    && Buffered(PoolAfter(pool, entries[..i], answers, willing), entries[i], answers[i], willing)
  }

  /** The first n entries load. */
  ghost predicate AllLoad(entries: seq<Entry>, answers: seq<Answer>, device: Bytes, pool: seq<PP.Buf>, willing: bool,
      n: nat)
    requires |answers| >= |entries| && n <= |entries|
  {
    forall i | 0 <= i < n :: Loads(entries, answers, device, pool, willing, i)
  }

  /** One entry: its address, a host buffer, and its chunk read into the buffer.  The buffer is held even if
      the read fails. */
  method LoadEntry(ghost j: Job, ghost before: seq<PP.Buf>, e: Entry, a: Answer, device: Bytes, i: nat,
                   tasks: seq<Task>, bufs: seq<PP.Buf>, host: Mem, willing: bool)
    returns (rc: int, tasks': seq<Task>, bufs': seq<PP.Buf>, host': Mem)
    requires |tasks| == |j.data| && i < |tasks| && Loaded(j, before, bufs, tasks, host, i)
    requires j.data[i] == Chunk(device, e)
    ensures |tasks'| == |tasks|
    ensures rc == 0 <==> Placeable(e, a, device) && Buffered(bufs, e, a, willing)
    ensures rc == if !(a.alloc == Some(e.ptr) || a.remap == 0) then -5
                  else if !Buffered(bufs, e, a, willing) then -17
                  else if e.offset + e.size > |device| then -9 else 0
    ensures PP.Holding(before, bufs', Slots(tasks'))
    ensures Slots(tasks') ==
            Slots(tasks) + if Addressed(e, a) && Buffered(bufs, e, a, willing) then {PP.Slot(bufs, e.size)} else {}
    ensures rc == 0 ==> Loaded(j, before, bufs', tasks', host', i + 1)
    ensures rc == 0 ==> bufs' == PP.Acquired(bufs, e.size, HostFor(bufs, e.size, a, willing)).0
  {
    rc, tasks', bufs', host' := 0, tasks, bufs, host;
    if a.alloc != Some(e.ptr) && a.remap != 0 { rc := -5; return; }
    var grant := HostFor(bufs, e.size, a, willing);
    PP.FreshAddressIsLegal(bufs, e.size);
    LoadNext(j, before, bufs, tasks, host, i, grant);
    var ptr;
    bufs', ptr := AcquireFrom(bufs, e.size, grant);
    HoldNext(before, tasks, bufs, i, e.size, grant);
    if ptr == 0 { rc := -17; return; }
    tasks' := tasks[i := tasks[i].(dst := Some(ptr), slot := PP.Slot(bufs, e.size))];
    if e.offset + e.size > |device| { rc := -9; return; }
    assert j.data[i] == device[e.offset..e.offset + e.size];
    host' := Write(host, ptr, device[e.offset..e.offset + e.size]);
  }

  /** The loop of LoadEntries before entry i. */
  ghost predicate Partway(crc: Checksum, device: Bytes, pool: seq<PP.Buf>, entries: seq<Entry>, answers: seq<Answer>,
                          willing: bool, i: nat, tasks: seq<Task>, bufs: seq<PP.Buf>, host: Mem,
                          order: seq<(nat, nat)>)
    requires |answers| >= |entries| && i <= |entries|
  {
    && |tasks| == |entries| && Loaded(LoadJob(crc, device, entries, true), pool, bufs, tasks, host, i)
    && bufs == PoolAfter(pool, entries[..i], answers, willing) && order == Requests(entries[..i])
    && AllLoad(entries, answers, device, pool, willing, i)
    && (if i == 0 then Slots(tasks) == {} else Slots(tasks) != {} && FirstBuffered(entries, answers, pool, willing))
  }

  /** LoadEntry for entry i of a list, seen from the beginning of the list. */
  method LoadNth(ghost crc: Checksum, ghost pool: seq<PP.Buf>, entries: seq<Entry>, answers: seq<Answer>,
                 device: Bytes, i: nat, tasks: seq<Task>, bufs: seq<PP.Buf>, host: Mem, order: seq<(nat, nat)>,
                 willing: bool)
    returns (rc: int, tasks': seq<Task>, bufs': seq<PP.Buf>, host': Mem, order': seq<(nat, nat)>)
    requires |answers| >= |entries| && i < |entries|
    requires Partway(crc, device, pool, entries, answers, willing, i, tasks, bufs, host, order)
    ensures |tasks'| == |entries|
    ensures rc == 0 <==> Loads(entries, answers, device, pool, willing, i)
    ensures PP.Holding(pool, bufs', Slots(tasks'))
    ensures Slots(tasks') != {} <==> FirstBuffered(entries, answers, pool, willing)
    ensures rc == 0 ==> Partway(crc, device, pool, entries, answers, willing, i + 1, tasks', bufs', host', order')
  {
    ghost var job := LoadJob(crc, device, entries, true);
    order' := order;
    PoolNext(pool, entries, answers, willing, i);
    assert entries[..0] == [];
    rc, tasks', bufs', host' := LoadEntry(job, pool, entries[i], answers[i], device, i, tasks, bufs, host, willing);
    if rc == 0 {
      RequestsSnoc(entries, i);
      order' := order + [(entries[i].ptr, entries[i].size)];
    }
  }

  /** Re-creates the addresses and reads the chunks, in replay order.  Every buffer acquired is held, whether
      or not the loading fails. */
  method LoadEntries(crc: Checksum, entries: seq<Entry>, device: Bytes, pool: seq<PP.Buf>, host: Mem,
                     answers: seq<Answer>, willing: bool)
    returns (rc: int, order: seq<(nat, nat)>, tasks: seq<Task>, bufs: seq<PP.Buf>, filled: Mem)
    requires |answers| >= |entries| && PP.Valid(pool)
    ensures |tasks| == |entries|
    ensures rc == 0 <==> AllLoad(entries, answers, device, pool, willing, |entries|)
    ensures PP.Holding(pool, bufs, Slots(tasks))
    ensures Slots(tasks) != {} <==> FirstBuffered(entries, answers, pool, willing)
    ensures rc == 0 ==>
      && order == Requests(entries)
      && Loaded(LoadJob(crc, device, entries, true), pool, bufs, tasks, filled, |entries|)
  {
    rc, order, bufs, filled := 0, [], pool, host;
    tasks := seq(|entries|, i => NewTask(None));
    NothingLoaded(crc, device, pool, entries, answers, willing, tasks, host);
    for i := 0 to |entries|
      invariant Partway(crc, device, pool, entries, answers, willing, i, tasks, bufs, filled, order)
    {
      rc, tasks, bufs, filled, order :=
        LoadNth(crc, pool, entries, answers, device, i, tasks, bufs, filled, order, willing);
      if rc != 0 { return; }
    }
    rc := 0;
    assert entries[..|entries|] == entries;
  }

  /** The chunks of entries that load are in the file. */
  lemma {:induction false} LoadedFits(entries: seq<Entry>, answers: seq<Answer>, device: Bytes, pool: seq<PP.Buf>,
                                      willing: bool)
    requires |answers| >= |entries| && AllLoad(entries, answers, device, pool, willing, |entries|)
    ensures forall i | 0 <= i < |entries| ::
              && entries[i].offset + entries[i].size <= |device|
              && Chunk(device, entries[i]) == device[entries[i].offset..entries[i].offset + entries[i].size]
  {
    forall i | 0 <= i < |entries| ensures entries[i].offset + entries[i].size <= |device| {
      assert Loads(entries, answers, device, pool, willing, i);
    }
  }

  lemma {:induction false} PoolNext(pool: seq<PP.Buf>, entries: seq<Entry>, answers: seq<Answer>, willing: bool, i: nat)
    requires |answers| >= |entries| && i < |entries|
    ensures var before := PoolAfter(pool, entries[..i], answers, willing);
            PoolAfter(pool, entries[..i + 1], answers, willing) ==
            PP.Acquired(before, entries[i].size, HostFor(before, entries[i].size, answers[i], willing)).0
  {
    assert entries[..i + 1][..i] == entries[..i];
  }

  lemma {:induction false} PoolStaysValid(pool: seq<PP.Buf>, entries: seq<Entry>, answers: seq<Answer>, willing: bool)
    requires |answers| >= |entries| && PP.Valid(pool)
    ensures PP.Valid(PoolAfter(pool, entries, answers, willing))
  {
    if entries != [] {
      var n := |entries| - 1;
      PoolStaysValid(pool, entries[..n], answers, willing);
      var before := PoolAfter(pool, entries[..n], answers, willing);
      PP.FreshAddressIsLegal(before, entries[n].size);
      PP.AcquireKeepsValid(before, entries[n].size, HostFor(before, entries[n].size, answers[n], willing));
    }
  }

  /** With a willing driver an entry loads if and only if it is placeable and not empty. */
  lemma {:induction false} WillingLoads(entries: seq<Entry>, answers: seq<Answer>, device: Bytes, pool: seq<PP.Buf>,
                                        i: nat)
    requires |answers| >= |entries| && i < |entries| && PP.Valid(pool)
    ensures Loads(entries, answers, device, pool, true, i) <==>
            entries[i].size > 0 && Placeable(entries[i], answers[i], device)
  {
    PoolStaysValid(pool, entries[..i], answers, true);
  }

  /** An empty entry never loads, whatever the driver answers. */
  lemma {:induction false} EmptyEntryNeverLoads(entries: seq<Entry>, answers: seq<Answer>, device: Bytes,
                                                pool: seq<PP.Buf>, willing: bool, i: nat)
    requires |answers| >= |entries| && i < |entries| && entries[i].size == 0
    ensures !Loads(entries, answers, device, pool, willing, i)
  {
  }

  /** The addresses and sizes asked of the driver, in the order of asking. */
  function Requests(entries: seq<Entry>): seq<(nat, nat)>
  {
    seq(|entries|, i requires 0 <= i < |entries| => (entries[i].ptr, entries[i].size))
  }

  lemma {:induction false} RequestsSnoc(entries: seq<Entry>, i: nat)
    requires i < |entries|
    ensures Requests(entries[..i + 1]) == Requests(entries[..i]) + [(entries[i].ptr, entries[i].size)]
  {
  }

  lemma {:induction false} NothingLoaded(crc: Checksum, device: Bytes, pool: seq<PP.Buf>, entries: seq<Entry>,
                                         answers: seq<Answer>, willing: bool, tasks: seq<Task>, host: Mem)
    requires |answers| >= |entries| == |tasks| && PP.Valid(pool) && forall i | 0 <= i < |tasks| :: tasks[i].dst.None?
    ensures Partway(crc, device, pool, entries, answers, willing, 0, tasks, pool, host, [])
  {
    assert Slots(tasks) == {} && entries[..0] == [];
  }

  // ---------- copying back ----------

  ghost predicate EntriesApart(entries: seq<Entry>)
  {
    forall i, h | 0 <= i < |entries| && 0 <= h < |entries| && i != h ::
      Disjoint(entries[i].ptr, entries[i].size, entries[h].ptr, entries[h].size)
  }

  /** The shared state before the workers of the copy back are spawned. */
  function CopyStart(entries: seq<Entry>, gpu: Mem, hardware: nat): State
  {
    Start(WorkerCount(hardware, |entries|),
          seq(|entries|, i requires 0 <= i < |entries| => NewTask(Some(entries[i].ptr))), gpu, [])
  }

  /** What the workers copy: the bytes in the host buffers. */
  function CopyJob(crc: Checksum, entries: seq<Entry>, loaded: seq<Task>, host: Mem): Job
    requires |loaded| == |entries| && forall i | 0 <= i < |loaded| :: loaded[i].dst.Some?
  {
    Job(seq(|entries|, i requires 0 <= i < |entries| => Read(host, loaded[i].dst.value, entries[i].size)), crc, false)
  }

  lemma {:induction false} StartCopy(job: Job, entries: seq<Entry>, gpu: Mem, hardware: nat)
    requires EntriesApart(entries) && !job.pooled && |job.data| == |entries|
    requires forall i | 0 <= i < |entries| :: |job.data[i]| == entries[i].size
    ensures var start := CopyStart(entries, gpu, hardware);
            && Content(job, start) && Control(|job.data|, start) && !HasError(start) && 0 < |start.workers|
  {
    var start := CopyStart(entries, gpu, hardware);
    var dsts := seq(|entries|, i requires 0 <= i < |entries| => Some(entries[i].ptr));
    assert start.tasks == seq(|dsts|, i requires 0 <= i < |dsts| => NewTask(dsts[i]));
    forall i, h | 0 <= i < |start.tasks| && 0 <= h < |start.tasks| && i != h
      ensures Disjoint(start.tasks[i].dst.value, |job.data[i]|, start.tasks[h].dst.value, |job.data[h]|)
    {
      assert Disjoint(entries[i].ptr, entries[i].size, entries[h].ptr, entries[h].size);
    }
    StartInvariants(job, WorkerCount(hardware, |entries|), dsts, gpu, []);
  }

  /** Copies every host buffer to the address of its entry, under any interleaving of the workers: it succeeds
      exactly when the driver refuses no copy. */
  method CopyBack(crc: Checksum, entries: seq<Entry>, loaded: seq<Task>, host: Mem, gpu: Mem, hardware: nat,
                  willing: bool)
    returns (rc: int, mem: Mem, ghost run: seq<Choice>)
    requires EntriesApart(entries)
    requires |loaded| == |entries| && forall i | 0 <= i < |loaded| :: loaded[i].dst.Some?
    ensures Content(CopyJob(crc, entries, loaded, host), CopyStart(entries, gpu, hardware))
    ensures var job, start := CopyJob(crc, entries, loaded, host), CopyStart(entries, gpu, hardware);
            && Joined(Exec(job, start, run)) && mem == Exec(job, start, run).mem
            && (rc == 0 <==> !Refused(job, start, run))
            && (willing ==> !Refused(job, start, run))
    ensures rc == 0 ==> forall i | 0 <= i < |entries| ::
              Read(mem, entries[i].ptr, entries[i].size) == Read(host, loaded[i].dst.value, entries[i].size)
  {
    var job, start := CopyJob(crc, entries, loaded, host), CopyStart(entries, gpu, hardware);
    StartCopy(job, entries, gpu, hardware);
    var s;
    s, run := Join(job, start, willing);
    JoinOutcome(job, s);
    JoinVerdict(job, start, run);
    ExecKeepsTargets(job, start, run);
    mem := s.mem;
    rc := 0;
    if s.fail != 0 { rc := FirstError(s.tasks); }
    if s.fail == 0 {
      forall i | 0 <= i < |entries|
        ensures Read(mem, entries[i].ptr, entries[i].size) == Read(host, loaded[i].dst.value, entries[i].size)
      {
        assert s.tasks[i].dst == start.tasks[i].dst;
        assert job.data[i] == Read(host, loaded[i].dst.value, entries[i].size);
      }
    }
  }

  lemma {:induction false} StepKeepsTargets(j: Job, s: State, c: Choice)
    requires Content(j, s) && !j.pooled
    ensures forall i | 0 <= i < |s.tasks| :: Step(j, s, c).tasks[i].dst == s.tasks[i].dst
  {
    var w, r := c.worker, Step(j, s, c);
    if w < |s.workers| && !s.workers[w].Finished? && !s.workers[w].Acquire? {
      assert forall i | 0 <= i < |s.tasks| :: r.tasks[i].dst == s.tasks[i].dst;
    }
  }

  /** Destinations that were set beforehand stay as they are. */
  lemma {:induction false} ExecKeepsTargets(j: Job, s: State, schedule: seq<Choice>)
    requires Content(j, s) && Control(|j.data|, s) && !j.pooled
    ensures forall i | 0 <= i < |s.tasks| :: Exec(j, s, schedule).tasks[i].dst == s.tasks[i].dst
  {
    if schedule != [] {
      var front := schedule[..|schedule| - 1];
      ExecKeepsInvariants(j, s, front);
      ExecKeepsTargets(j, s, front);
      StepKeepsTargets(j, Exec(j, s, front), schedule[|schedule| - 1]);
    }
  }

  /** The buffers hold the chunks, so that is what the workers copy. */
  lemma {:induction false} LoadedIsCopied(crc: Checksum, entries: seq<Entry>, device: Bytes, before: seq<PP.Buf>,
                                          bufs: seq<PP.Buf>, tasks: seq<Task>, host: Mem)
    requires |tasks| == |entries|
    requires Loaded(LoadJob(crc, device, entries, true), before, bufs, tasks, host, |entries|)
    ensures forall i | 0 <= i < |tasks| :: tasks[i].dst.Some?
    ensures CopyJob(crc, entries, tasks, host) == LoadJob(crc, device, entries, false)
    ensures forall i | 0 <= i < |entries| ::
              Read(host, tasks[i].dst.value, entries[i].size) == Chunk(device, entries[i])
  {
    var job := LoadJob(crc, device, entries, true);
    forall i | 0 <= i < |entries| ensures Read(host, tasks[i].dst.value, entries[i].size) == job.data[i] {
      assert |job.data[i]| == entries[i].size;
    }
  }

  /** Reports success exactly when the calls around succeed, every entry loads and the driver refuses no
      copy.  Then it has re-created the allocations in replay order, left exactly the chunk of device.bin
      at every entry's address, whatever was there before, and given back every host buffer.  A call that
      fails in loading or copying keeps every buffer it has acquired. */
  method RestoreLoad(crc: Checksum, manifest: seq<Entry>, device: Bytes, pool: seq<PP.Buf>, host: Mem, gpu: Mem,
                     answers: seq<Answer>, hardware: nat, env: RestoreEnvironment)
    returns (rc: int, mem: Mem, order: seq<(nat, nat)>, after: seq<PP.Buf>, ghost run: seq<Choice>,
             ghost held: set<nat>)
    requires |answers| >= |manifest| && PP.Valid(pool) && EntriesApart(Replayed(manifest))
    ensures var entries := Replayed(manifest);
            var job, start := LoadJob(crc, device, entries, false), CopyStart(entries, gpu, hardware);
            && |answers| >= |entries| && Content(job, start)
            && (rc == 0 <==>
                  && env.early == 0 && env.synced
                  && AllLoad(entries, answers, device, pool, env.willing, |entries|)
                  && !Refused(job, start, run))
            && (env.willing ==> !Refused(job, start, run))
            && (env.early != 0 ==> rc == env.early)
            && (rc == -11 <== env.early == 0 && !env.synced
                  && AllLoad(entries, answers, device, pool, env.willing, |entries|) && !Refused(job, start, run))
            && (held != {} <==>
                  && env.early == 0 && FirstBuffered(entries, answers, pool, env.willing)
                  && !(AllLoad(entries, answers, device, pool, env.willing, |entries|) && !Refused(job, start, run)))
    ensures PP.Holding(pool, after, held)
    ensures rc == 0 ==>
      var entries := Replayed(manifest);
      && order == Requests(entries)
      && (forall i | 0 <= i < |entries| ::
            && entries[i].offset + entries[i].size <= |device|
            && Read(mem, entries[i].ptr, entries[i].size) ==
                device[entries[i].offset..entries[i].offset + entries[i].size])
  {
    mem, order, after, run, held := gpu, [], pool, [], {};
    var entries := Replayed(manifest);
    StartCopy(LoadJob(crc, device, entries, false), entries, gpu, hardware);
    if env.early != 0 { rc := env.early; return; }
    var tasks, filled;
    rc, order, tasks, after, filled := LoadEntries(crc, entries, device, pool, host, answers, env.willing);
    held := Slots(tasks);
    if rc != 0 { return; }
    LoadedFits(entries, answers, device, pool, env.willing);
    LoadedIsCopied(crc, entries, device, pool, after, tasks, filled);
    rc, mem, run := CopyBack(crc, entries, tasks, filled, gpu, hardware, env.willing);
    if rc != 0 { return; }
    after := ReleaseAll(tasks, pool, after);
    held := {};
    if !env.synced { rc := -11; }
  }

  method ReleaseAll(tasks: seq<Task>, ghost before: seq<PP.Buf>, bufs: seq<PP.Buf>) returns (after: seq<PP.Buf>)
    requires StillHeld(before, bufs, tasks, 0)
    ensures PP.Holding(before, after, {})
  {
    after := bufs;
    for i := 0 to |tasks|
      invariant StillHeld(before, after, tasks, i)
    {
      after := GiveBack(before, after, tasks, i);
    }
    assert tasks[|tasks|..] == [];
  }
}
