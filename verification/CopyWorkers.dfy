/** The work-claiming copy pool of shim/snapshot.cu and shim/restore.cu: workers share an atomic
    counter, a fail flag, the destination memory and the buffer pool.  A schedule says which worker
    moves next and what the driver answers; every schedule is one interleaving, down to single bytes. */
module CopyWorkers {
  import opened Bytes
  import opened Memory
  import opened Format
  import PP = PinnedPool

  /** owner, slot and done are bookkeeping: which worker claimed the task, which pool buffer it got,
      and whether its copy is complete. */
  datatype Task = Task(dst: Option<nat>, err: int, crc: nat, owner: Option<nat>, slot: nat, done: bool)

  datatype Phase =
    | Fetch
    | Check(i: nat)
    | Acquire(i: nat)
    | Copy(i: nat, k: nat)
    | Failing(i: nat)
    | Finished

  /** The bytes each task has to copy, and whether destinations come from the pool (snapshot) or were
      set beforehand (restore). */
  datatype Job = Job(data: seq<Bytes>, crc: Checksum, pooled: bool)

  datatype State = State(next: nat, fail: int, workers: seq<Phase>, tasks: seq<Task>, mem: Mem,
                         bufs: seq<PP.Buf>, claims: seq<nat>)

  /** fault is the error code of a failing driver call, 0 if it succeeds. */
  datatype Choice = Choice(worker: nat, fault: int, grant: Option<nat>)

  ghost predicate Shape(j: Job, s: State)
  {
    && |s.tasks| == |j.data|
    && forall w | 0 <= w < |s.workers| ::
         match s.workers[w]
         case Acquire(i) => i < |j.data|
         case Copy(i, k) => i < |j.data| && k <= |j.data[i]| && s.tasks[i].dst.Some?
         case Failing(i) => i < |j.data|
         case _ => true
  }

  /** The host memory that a driver which keeps its promise hands out, if any. */
  function Granted(bufs: seq<PP.Buf>, size: nat, offered: Option<nat>): Option<nat>
  {
    if PP.LegalGrant(bufs, size, offered) then offered else None
  }

  /** One atomic action of one worker. */
  function Step(j: Job, s: State, c: Choice): (r: State)
    requires Shape(j, s)
    ensures Shape(j, r) && |r.workers| == |s.workers|
  {
    var w, n := c.worker, |j.data|;
    if w >= |s.workers| then s else
    match s.workers[w]
    case Fetch =>
      var i := s.next;
      s.(next := i + 1, claims := s.claims + [i], workers := s.workers[w := Check(i)],
         tasks := if i < n then s.tasks[i := s.tasks[i].(owner := Some(w))] else s.tasks)
    case Check(i) =>
      if i >= n || s.fail != 0 then s.(workers := s.workers[w := Finished])
      else if s.tasks[i].dst.None? then s.(workers := s.workers[w := Acquire(i)])
      else s.(workers := s.workers[w := Copy(i, 0)])
    case Acquire(i) =>
      var size := |j.data[i]|;
      var (bufs, ptr) := PP.Acquired(s.bufs, size, Granted(s.bufs, size, c.grant));
      if ptr == 0 then Raise(s, w, i, -16)
      else s.(bufs := bufs, workers := s.workers[w := Copy(i, 0)],
              tasks := s.tasks[i := s.tasks[i].(dst := Some(ptr), slot := PP.Slot(s.bufs, size))])
    case Copy(i, k) =>
      if c.fault != 0 then Raise(s, w, i, c.fault)
      else if k < |j.data[i]| then
        s.(mem := WriteByte(s.mem, s.tasks[i].dst.value + k, j.data[i][k]), workers := s.workers[w := Copy(i, k + 1)])
      else
        s.(workers := s.workers[w := Fetch],
           tasks := s.tasks[i := s.tasks[i].(done := true, crc := j.crc(Read(s.mem, s.tasks[i].dst.value, k)))])
    case Failing(i) => s.(fail := s.tasks[i].err, workers := s.workers[w := Finished])
    case Finished => s
  }

  /** The task's error code is written before the shared flag. */
  function Raise(s: State, w: nat, i: nat, code: int): State
    requires w < |s.workers| && i < |s.tasks|
  {
    s.(workers := s.workers[w := Failing(i)], tasks := s.tasks[i := s.tasks[i].(err := code)])
  }

  function Exec(j: Job, s: State, schedule: seq<Choice>): (r: State)
    requires Shape(j, s)
    ensures Shape(j, r) && |r.workers| == |s.workers|
  {
    if schedule == [] then s else Step(j, Exec(j, s, schedule[..|schedule| - 1]), schedule[|schedule| - 1])
  }

  // ---------- control: claims, errors, completion ----------

  /** The task a worker has in hand. */
  function InHand(p: Phase): Option<nat>
  {
    match p
    case Check(i) => Some(i)
    case Acquire(i) => Some(i)
    case Copy(i, k) => Some(i)
    case Failing(i) => Some(i)
    case _ => None
  }

  ghost predicate Owned(s: State, i: nat)
    requires i < |s.tasks|
  {
    var o := s.tasks[i].owner;
    o.Some? && o.value < |s.workers| && InHand(s.workers[o.value]) == Some(i)
  }

  /** Indices are handed out once each, in order. */
  ghost predicate Claims(s: State)
  {
    s.claims == seq(s.next, i => i)
  }

  /** A worker in the middle of a task is the one that claimed it. */
  ghost predicate HandsOwn(n: nat, s: State)
    requires |s.tasks| == n
  {
    forall w | 0 <= w < |s.workers| && InHand(s.workers[w]).Some? ::
      var i := InHand(s.workers[w]).value;
      i < s.next && (i < n ==> s.tasks[i].owner == Some(w) && !s.tasks[i].done)
  }

  /** A claimed task is complete, in somebody's hand, or the run has failed. */
  ghost predicate Progress(n: nat, s: State)
    requires |s.tasks| == n
  {
    forall i | 0 <= i < n && i < s.next :: s.tasks[i].done || s.fail != 0 || Owned(s, i)
  }

  ghost predicate Untouched(n: nat, s: State)
    requires |s.tasks| == n
  {
    forall i | s.next <= i < n :: !s.tasks[i].done && s.tasks[i].err == 0
  }

  /** An error code is in the flag already or about to be put there. */
  ghost predicate ErrorsReported(n: nat, s: State)
    requires |s.tasks| == n
  {
    && (forall i | 0 <= i < n && s.tasks[i].err != 0 ::
          s.fail != 0 || (Owned(s, i) && s.workers[s.tasks[i].owner.value].Failing?))
    && (forall w | 0 <= w < |s.workers| && s.workers[w].Failing? ::
          s.workers[w].i < n && s.tasks[s.workers[w].i].err != 0)
    && (s.fail != 0 ==> exists i | 0 <= i < n :: s.tasks[i].err != 0)
  }

  /** Workers stop only when the indices are used up or the run has failed. */
  ghost predicate StopsLate(n: nat, s: State)
  {
    forall w | 0 <= w < |s.workers| && s.workers[w].Finished? :: s.fail != 0 || s.next > n
  }

  ghost predicate Control(n: nat, s: State)
  {
    && |s.tasks| == n
    && Claims(s) && HandsOwn(n, s) && Progress(n, s) && Untouched(n, s) && ErrorsReported(n, s) && StopsLate(n, s)
  }

  lemma {:induction false} FetchKeepsControl(n: nat, s: State, r: State, w: nat)
    requires Control(n, s) && w < |s.workers| && s.workers[w].Fetch?
    requires r.next == s.next + 1 && r.claims == s.claims + [s.next] && r.fail == s.fail
    requires r.workers == s.workers[w := Check(s.next)]
    requires r.tasks == if s.next < n then s.tasks[s.next := s.tasks[s.next].(owner := Some(w))] else s.tasks
    ensures Control(n, r)
  {
    forall i | 0 <= i < n && Owned(s, i) ensures Owned(r, i) {}
    if r.fail != 0 {
      var i :| 0 <= i < n && s.tasks[i].err != 0;
      assert r.tasks[i].err != 0;
    }
  }

  /** A worker goes on with the task in its hand, or completes it. */
  lemma {:induction false} WorkKeepsControl(n: nat, s: State, r: State, w: nat, i: nat, p: Phase, t: Task)
    requires Control(n, s) && w < |s.workers| && InHand(s.workers[w]) == Some(i) && i < n && !s.workers[w].Failing?
    requires r.next == s.next && r.claims == s.claims && r.fail == s.fail
    requires r.workers == s.workers[w := p] && r.tasks == s.tasks[i := t] && t.owner == s.tasks[i].owner
    requires if t.done then p == Fetch && t.err == s.tasks[i].err
             else InHand(p) == Some(i) && (if p.Failing? then t.err != 0 else t.err == s.tasks[i].err)
    ensures Control(n, r)
  {
    forall h | 0 <= h < n && h != i && Owned(s, h) ensures Owned(r, h) {}
    if r.fail != 0 {
      var h :| 0 <= h < n && s.tasks[h].err != 0;
      assert r.tasks[h].err != 0;
    }
  }

  lemma {:induction false} StopKeepsControl(n: nat, s: State, r: State, w: nat, i: nat)
    requires Control(n, s) && w < |s.workers|
    requires s.workers[w] == Check(i) && (i >= n || s.fail != 0)
    requires r.next == s.next && r.claims == s.claims && r.fail == s.fail && r.tasks == s.tasks
    requires r.workers == s.workers[w := Finished]
    ensures Control(n, r)
  {
    forall h | 0 <= h < n && h != i && Owned(s, h) ensures Owned(r, h) {}
  }

  lemma {:induction false} FailKeepsControl(n: nat, s: State, r: State, w: nat, i: nat)
    requires Control(n, s) && w < |s.workers| && s.workers[w] == Failing(i) && i < n
    requires r.next == s.next && r.claims == s.claims && r.fail == s.tasks[i].err && r.tasks == s.tasks
    requires r.workers == s.workers[w := Finished]
    ensures Control(n, r)
  {
  }

  lemma {:induction false} CheckKeepsControl(j: Job, s: State, c: Choice)
    requires Shape(j, s) && Control(|j.data|, s) && c.worker < |s.workers| && s.workers[c.worker].Check?
    ensures Control(|j.data|, Step(j, s, c))
  {
    var w, n, r := c.worker, |j.data|, Step(j, s, c);
    var i := s.workers[w].i;
    if i >= n || s.fail != 0 {
      StopKeepsControl(n, s, r, w, i);
    } else {
      assert r.tasks == s.tasks[i := s.tasks[i]];
      WorkKeepsControl(n, s, r, w, i, r.workers[w], s.tasks[i]);
    }
  }

  lemma {:induction false} AcquireKeepsControl(j: Job, s: State, c: Choice)
    requires Shape(j, s) && Control(|j.data|, s) && c.worker < |s.workers| && s.workers[c.worker].Acquire?
    ensures Control(|j.data|, Step(j, s, c))
  {
    var w, r := c.worker, Step(j, s, c);
    var i := s.workers[w].i;
    WorkKeepsControl(|j.data|, s, r, w, i, r.workers[w], r.tasks[i]);
  }

  lemma {:induction false} CopyKeepsControl(j: Job, s: State, c: Choice)
    requires Shape(j, s) && Control(|j.data|, s) && c.worker < |s.workers| && s.workers[c.worker].Copy?
    ensures Control(|j.data|, Step(j, s, c))
  {
    var w, r := c.worker, Step(j, s, c);
    var i := s.workers[w].i;
    assert r.tasks == s.tasks[i := r.tasks[i]];
    WorkKeepsControl(|j.data|, s, r, w, i, r.workers[w], r.tasks[i]);
  }

  lemma {:induction false} StepKeepsControl(j: Job, s: State, c: Choice)
    requires Shape(j, s) && Control(|j.data|, s)
    ensures Control(|j.data|, Step(j, s, c))
  {
    var w := c.worker;
    if w < |s.workers| {
      match s.workers[w]
      case Fetch => FetchKeepsControl(|j.data|, s, Step(j, s, c), w);
      case Check(i) => CheckKeepsControl(j, s, c);
      case Acquire(i) => AcquireKeepsControl(j, s, c);
      case Copy(i, k) => CopyKeepsControl(j, s, c);
      case Failing(i) => FailKeepsControl(|j.data|, s, Step(j, s, c), w, i);
      case Finished =>
    }
  }

  // ---------- contents: destinations and copied bytes ----------

  /** Every destination is a pool buffer of its own, in use and large enough. */
  ghost predicate Linked(j: Job, tasks: seq<Task>, bufs: seq<PP.Buf>)
    requires |tasks| == |j.data|
  {
    && PP.Valid(bufs)
    && (forall i | 0 <= i < |tasks| && tasks[i].dst.Some? ::
          var k := tasks[i].slot;
          k < |bufs| && bufs[k].ptr == tasks[i].dst.value && !bufs[k].free && |j.data[i]| <= bufs[k].cap)
    && (forall i, h | 0 <= i < h < |tasks| && tasks[i].dst.Some? && tasks[h].dst.Some? :: tasks[i].slot != tasks[h].slot)
  }

  /** No two destinations overlap. */
  ghost predicate Apart(j: Job, tasks: seq<Task>)
    requires |tasks| == |j.data|
  {
    forall i, h | 0 <= i < |tasks| && 0 <= h < |tasks| && i != h && tasks[i].dst.Some? && tasks[h].dst.Some? ::
      Disjoint(tasks[i].dst.value, |j.data[i]|, tasks[h].dst.value, |j.data[h]|)
  }

  lemma {:induction false} LinkedIsApart(j: Job, tasks: seq<Task>, bufs: seq<PP.Buf>)
    requires |tasks| == |j.data| && Linked(j, tasks, bufs)
    ensures Apart(j, tasks)
  {
    forall i, h | 0 <= i < |tasks| && 0 <= h < |tasks| && i != h && tasks[i].dst.Some? && tasks[h].dst.Some?
      ensures Disjoint(tasks[i].dst.value, |j.data[i]|, tasks[h].dst.value, |j.data[h]|)
    {
      var a, b := tasks[i].slot, tasks[h].slot;
      var lo, hi := if a < b then a else b, if a < b then b else a;
      assert a != b;
      assert Disjoint(bufs[lo].ptr, bufs[lo].cap, bufs[hi].ptr, bufs[hi].cap);
    }
  }

  ghost predicate HoldsFirst(mem: Mem, base: nat, data: Bytes, k: nat)
    requires k <= |data|
  {
    forall b | 0 <= b < k :: mem(base + b) == data[b]
  }

  ghost predicate Destinations(j: Job, s: State)
    requires |s.tasks| == |j.data|
  {
    if j.pooled then Linked(j, s.tasks, s.bufs)
    else (forall i | 0 <= i < |s.tasks| :: s.tasks[i].dst.Some?) && Apart(j, s.tasks)
  }

  ghost predicate Copied(j: Job, s: State)
    requires Shape(j, s)
  {
    && (forall i | 0 <= i < |s.tasks| && s.tasks[i].done ::
          s.tasks[i].dst.Some? && HoldsFirst(s.mem, s.tasks[i].dst.value, j.data[i], |j.data[i]|)
          && s.tasks[i].crc == j.crc(j.data[i]))
    && (forall w | 0 <= w < |s.workers| && s.workers[w].Copy? ::
          var p := s.workers[w];
          HoldsFirst(s.mem, s.tasks[p.i].dst.value, j.data[p.i], p.k))
    && (forall w | 0 <= w < |s.workers| && s.workers[w].Acquire? :: s.tasks[s.workers[w].i].dst.None?)
  }

  ghost predicate Content(j: Job, s: State)
  {
    Shape(j, s) && Destinations(j, s) && Copied(j, s)
  }

  lemma {:induction false} DestinationsApart(j: Job, s: State)
    requires Shape(j, s) && Destinations(j, s)
    ensures Apart(j, s.tasks)
  {
    if j.pooled { LinkedIsApart(j, s.tasks, s.bufs); }
  }

  /** A byte written into one destination leaves what was copied into the others. */
  lemma {:induction false} WriteKeepsOthers(mem: Mem, addr: nat, b: byte, base: nat, data: Bytes, k: nat)
    requires k <= |data| && HoldsFirst(mem, base, data, k)
    requires addr < base || base + |data| <= addr
    ensures HoldsFirst(WriteByte(mem, addr, b), base, data, k)
  {
  }

  /** No other worker is at the task that w has in hand. */
  ghost predicate SoleHolder(s: State, w: nat, i: nat)
  {
    && i < |s.tasks| && !s.tasks[i].done
    && forall v | 0 <= v < |s.workers| && v != w :: InHand(s.workers[v]) != Some(i)
  }

  lemma {:induction false} HolderIsSole(n: nat, s: State, w: nat, i: nat)
    requires Control(n, s) && w < |s.workers| && InHand(s.workers[w]) == Some(i) && i < n
    ensures SoleHolder(s, w, i)
  {
  }

  lemma {:induction false} AcquireKeepsLinked(j: Job, tasks: seq<Task>, bufs: seq<PP.Buf>, i: nat, grant: Option<nat>)
    requires |tasks| == |j.data| && i < |tasks| && tasks[i].dst.None? && Linked(j, tasks, bufs)
    requires PP.LegalGrant(bufs, |j.data[i]|, grant)
    ensures var (after, ptr) := PP.Acquired(bufs, |j.data[i]|, grant);
            ptr != 0 ==>
              Linked(j, tasks[i := tasks[i].(dst := Some(ptr), slot := PP.Slot(bufs, |j.data[i]|))], after)
  {
    PP.AcquireKeepsValid(bufs, |j.data[i]|, grant);
    var (after, ptr) := PP.Acquired(bufs, |j.data[i]|, grant);
    var k := PP.Slot(bufs, |j.data[i]|);
    forall h | 0 <= h < |tasks| && h != i && tasks[h].dst.Some?
      ensures tasks[h].slot < |bufs| && (ptr != 0 ==> tasks[h].slot != k)
    {
      assert !bufs[tasks[h].slot].free;
    }
  }

  lemma {:induction false} AcquireKeepsContent(j: Job, s: State, c: Choice)
    requires Content(j, s) && c.worker < |s.workers| && s.workers[c.worker].Acquire?
    requires SoleHolder(s, c.worker, s.workers[c.worker].i)
    ensures Content(j, Step(j, s, c))
  {
    var i := s.workers[c.worker].i;
    var size := |j.data[i]|;
    var grant := Granted(s.bufs, size, c.grant);
    if PP.Acquired(s.bufs, size, grant).1 == 0 {
      QuietKeepsContent(j, s, Step(j, s, c));
    } else if j.pooled {
      AcquireKeepsLinked(j, s.tasks, s.bufs, i, grant);
    }
  }

  lemma {:induction false} ByteKeepsContent(j: Job, s: State, c: Choice)
    requires Content(j, s) && c.worker < |s.workers| && s.workers[c.worker].Copy? && c.fault == 0
    requires SoleHolder(s, c.worker, s.workers[c.worker].i) && s.workers[c.worker].k < |j.data[s.workers[c.worker].i]|
    ensures Content(j, Step(j, s, c))
  {
    var w, p, r := c.worker, s.workers[c.worker], Step(j, s, c);
    DestinationsApart(j, s);
    var addr, b := s.tasks[p.i].dst.value + p.k, j.data[p.i][p.k];
    forall h | 0 <= h < |s.tasks| && s.tasks[h].done
      ensures HoldsFirst(r.mem, s.tasks[h].dst.value, j.data[h], |j.data[h]|)
    {
      WriteKeepsOthers(s.mem, addr, b, s.tasks[h].dst.value, j.data[h], |j.data[h]|);
    }
    forall v | 0 <= v < |s.workers| && v != w && s.workers[v].Copy?
      ensures HoldsFirst(r.mem, s.tasks[s.workers[v].i].dst.value, j.data[s.workers[v].i], s.workers[v].k)
    {
      var q := s.workers[v];
      WriteKeepsOthers(s.mem, addr, b, s.tasks[q.i].dst.value, j.data[q.i], q.k);
    }
  }

  lemma {:induction false} EndKeepsContent(j: Job, s: State, c: Choice)
    requires Content(j, s) && c.worker < |s.workers| && s.workers[c.worker].Copy? && c.fault == 0
    requires SoleHolder(s, c.worker, s.workers[c.worker].i) && s.workers[c.worker].k == |j.data[s.workers[c.worker].i]|
    ensures Content(j, Step(j, s, c))
  {
    var p := s.workers[c.worker];
    assert Read(s.mem, s.tasks[p.i].dst.value, p.k) == j.data[p.i];
  }

  /** Steps that touch neither memory nor pool. */
  lemma {:induction false} QuietKeepsContent(j: Job, s: State, r: State)
    requires Content(j, s) && Shape(j, r) && |r.workers| == |s.workers|
    requires r.mem == s.mem && r.bufs == s.bufs
    requires forall i | 0 <= i < |s.tasks| ::
      r.tasks[i].dst == s.tasks[i].dst && r.tasks[i].slot == s.tasks[i].slot
      && r.tasks[i].done == s.tasks[i].done && r.tasks[i].crc == s.tasks[i].crc
    requires forall v | 0 <= v < |r.workers| && (r.workers[v].Copy? || r.workers[v].Acquire?) ::
      r.workers[v] == s.workers[v] || (r.workers[v].Copy? && r.workers[v].k == 0)
      || (r.workers[v].Acquire? && s.tasks[r.workers[v].i].dst.None?)
    ensures Content(j, r)
  {
  }

  lemma {:induction false} CopyKeepsContent(j: Job, s: State, c: Choice)
    requires Content(j, s) && Control(|j.data|, s) && c.worker < |s.workers| && s.workers[c.worker].Copy? && c.fault == 0
    ensures Content(j, Step(j, s, c))
  {
    var p := s.workers[c.worker];
    HolderIsSole(|j.data|, s, c.worker, p.i);
    if p.k < |j.data[p.i]| { ByteKeepsContent(j, s, c); } else { EndKeepsContent(j, s, c); }
  }

  /** Steps that fetch, check, fail or stop. */
  lemma {:induction false} OtherKeepsContent(j: Job, s: State, c: Choice)
    requires Content(j, s) && (c.worker < |s.workers| ==>
               !s.workers[c.worker].Acquire? && (s.workers[c.worker].Copy? ==> c.fault != 0))
    ensures Content(j, Step(j, s, c))
  {
    QuietKeepsContent(j, s, Step(j, s, c));
  }

  lemma {:induction false} StepKeepsContent(j: Job, s: State, c: Choice)
    requires Content(j, s) && Control(|j.data|, s)
    ensures Content(j, Step(j, s, c))
  {
    var w := c.worker;
    if w < |s.workers| && s.workers[w].Acquire? {
      HolderIsSole(|j.data|, s, w, s.workers[w].i);
      AcquireKeepsContent(j, s, c);
    } else if w < |s.workers| && s.workers[w].Copy? && c.fault == 0 {
      CopyKeepsContent(j, s, c);
    } else {
      OtherKeepsContent(j, s, c);
    }
  }

  // ---------- whole runs ----------

  function Start(workers: nat, tasks: seq<Task>, mem: Mem, bufs: seq<PP.Buf>): State
  {
    State(0, 0, seq(workers, i => Fetch), tasks, mem, bufs, [])
  }

  /** A value-initialised task, with its destination if it is known beforehand. */
  function NewTask(dst: Option<nat>): Task { Task(dst, 0, 0, None, 0, false) }

  ghost predicate Joined(s: State)
  {
    forall w | 0 <= w < |s.workers| :: s.workers[w].Finished?
  }

  lemma {:induction false} ExecKeepsInvariants(j: Job, s: State, schedule: seq<Choice>)
    requires Content(j, s) && Control(|j.data|, s)
    ensures Content(j, Exec(j, s, schedule)) && Control(|j.data|, Exec(j, s, schedule))
  {
    if schedule != [] {
      var front, last := schedule[..|schedule| - 1], schedule[|schedule| - 1];
      ExecKeepsInvariants(j, s, front);
      StepKeepsControl(j, Exec(j, s, front), last);
      StepKeepsContent(j, Exec(j, s, front), last);
    }
  }

  lemma {:induction false} StartInvariants(j: Job, workers: nat, dsts: seq<Option<nat>>, mem: Mem, bufs: seq<PP.Buf>)
    requires |dsts| == |j.data|
    requires var tasks := seq(|dsts|, i requires 0 <= i < |dsts| => NewTask(dsts[i]));
             if j.pooled then PP.Valid(bufs) && forall i | 0 <= i < |dsts| :: dsts[i].None?
             else Apart(j, tasks) && forall i | 0 <= i < |dsts| :: dsts[i].Some?
    ensures var s := Start(workers, seq(|dsts|, i requires 0 <= i < |dsts| => NewTask(dsts[i])), mem, bufs);
            Content(j, s) && Control(|j.data|, s)
  {
    var s := Start(workers, seq(|dsts|, i requires 0 <= i < |dsts| => NewTask(dsts[i])), mem, bufs);
    assert Claims(s);
  }

  /** Each index is claimed at most once. */
  lemma {:induction false} ClaimedOnce(n: nat, s: State, a: nat, b: nat)
    requires Control(n, s) && a < b < |s.claims|
    ensures s.claims[a] != s.claims[b]
  {
  }

  /** What the join of at least one worker finds: without a failure every task is copied and
      checksummed, and after a failure some task carries a nonzero code. */
  lemma {:induction false} JoinOutcome(j: Job, s: State)
    requires Content(j, s) && Control(|j.data|, s) && Joined(s) && 0 < |s.workers|
    ensures s.fail == 0 ==> forall i | 0 <= i < |s.tasks| ::
              && s.tasks[i].done && s.tasks[i].err == 0 && s.tasks[i].dst.Some?
              && Read(s.mem, s.tasks[i].dst.value, |j.data[i]|) == j.data[i]
              && s.tasks[i].crc == j.crc(j.data[i])
    ensures s.fail != 0 ==> exists i | 0 <= i < |s.tasks| :: s.tasks[i].err != 0
  {
    if s.fail == 0 {
      assert s.workers[0].Finished?;
      forall i | 0 <= i < |s.tasks|
        ensures s.tasks[i].done && s.tasks[i].err == 0
        ensures s.tasks[i].dst.Some? && Read(s.mem, s.tasks[i].dst.value, |j.data[i]|) == j.data[i]
      {
        assert !Owned(s, i);
        assert s.tasks[i].done;
      }
    }
  }

  // ---------- what a run leaves in the pool ----------

  ghost function Slots(tasks: seq<Task>): set<nat>
  {
    set i | 0 <= i < |tasks| && tasks[i].dst.Some? :: tasks[i].slot
  }

  lemma {:induction false} StepKeepsHolding(j: Job, s: State, c: Choice, before: seq<PP.Buf>)
    requires Content(j, s) && PP.Holding(before, s.bufs, Slots(s.tasks))
    ensures PP.Holding(before, Step(j, s, c).bufs, Slots(Step(j, s, c).tasks))
  {
    var w, r := c.worker, Step(j, s, c);
    if w < |s.workers| && s.workers[w].Acquire? {
      var i := s.workers[w].i;
      var size := |j.data[i]|;
      var grant := Granted(s.bufs, size, c.grant);
      PP.AcquireHolds(before, s.bufs, Slots(s.tasks), size, grant);
      if PP.Acquired(s.bufs, size, grant).1 == 0 {
        SameSlots(s.tasks, r.tasks);
      } else {
        MoreSlots(s.tasks, i, r.tasks[i]);
      }
    } else {
      SameSlots(s.tasks, r.tasks);
    }
  }

  lemma {:induction false} SameSlots(a: seq<Task>, b: seq<Task>)
    requires |a| == |b| && forall i | 0 <= i < |a| :: a[i].dst == b[i].dst && a[i].slot == b[i].slot
    ensures Slots(a) == Slots(b)
  {
    assert forall i | 0 <= i < |a| && a[i].dst.Some? :: b[i].slot in Slots(b);
    assert forall i | 0 <= i < |b| && b[i].dst.Some? :: a[i].slot in Slots(a);
  }

  lemma {:induction false} MoreSlots(a: seq<Task>, i: nat, t: Task)
    requires i < |a| && a[i].dst.None? && t.dst.Some?
    ensures Slots(a[i := t]) == Slots(a) + {t.slot}
  {
    var b := a[i := t];
    assert b[i].slot in Slots(b);
    forall k | k in Slots(a) ensures k in Slots(b) {
      var h :| 0 <= h < |a| && a[h].dst.Some? && a[h].slot == k;
      assert b[h].slot == k;
    }
  }

  lemma {:induction false} ExecKeepsHolding(j: Job, s: State, schedule: seq<Choice>, before: seq<PP.Buf>)
    requires Content(j, s) && Control(|j.data|, s) && PP.Holding(before, s.bufs, Slots(s.tasks))
    ensures PP.Holding(before, Exec(j, s, schedule).bufs, Slots(Exec(j, s, schedule).tasks))
  {
    if schedule != [] {
      var front, last := schedule[..|schedule| - 1], schedule[|schedule| - 1];
      ExecKeepsInvariants(j, s, front);
      ExecKeepsHolding(j, s, front, before);
      StepKeepsHolding(j, Exec(j, s, front), last, before);
    }
  }
}
