/** When a run of the copy workers fails, why it always ends, and the join (shim/snapshot.cu,
    shim/restore.cu). */
module CopyOutcome {
  import opened Bytes
  import opened CopyWorkers
  import PP = PinnedPool

  // ---------- when a run fails ----------

  /** The driver refuses what this step asks for: host memory for a nonempty task, or the copy. */
  predicate Refuses(j: Job, s: State, c: Choice)
    requires Shape(j, s)
  {
    c.worker < |s.workers| &&
    match s.workers[c.worker]
    case Acquire(i) =>
      var size := |j.data[i]|;
      size > 0 && PP.Acquired(s.bufs, size, Granted(s.bufs, size, c.grant)).1 == 0
    case Copy(i, k) => c.fault != 0
    case _ => false
  }

  /** A buffer is asked for a task without bytes, which the pool always denies. */
  predicate AsksForNothing(j: Job, s: State, c: Choice)
    requires Shape(j, s)
  {
    c.worker < |s.workers| && s.workers[c.worker].Acquire? && |j.data[s.workers[c.worker].i]| == 0
  }

  /** Some step of the run was refused. */
  predicate Refused(j: Job, s: State, schedule: seq<Choice>)
    requires Shape(j, s)
  {
    schedule != [] &&
    var front := schedule[..|schedule| - 1];
    Refused(j, s, front) || Refuses(j, Exec(j, s, front), schedule[|schedule| - 1])
  }

  predicate AskedForNothing(j: Job, s: State, schedule: seq<Choice>)
    requires Shape(j, s)
  {
    schedule != [] &&
    var front := schedule[..|schedule| - 1];
    AskedForNothing(j, s, front) || AsksForNothing(j, Exec(j, s, front), schedule[|schedule| - 1])
  }

  ghost predicate HasError(s: State)
  {
    exists i :: 0 <= i < |s.tasks| && s.tasks[i].err != 0
  }

  /** Errors arise from refusals and from empty tasks only, and stay. */
  lemma {:induction false} ErrorStep(j: Job, s: State, c: Choice)
    requires Shape(j, s)
    ensures HasError(Step(j, s, c)) <==> HasError(s) || Refuses(j, s, c) || AsksForNothing(j, s, c)
  {
    var r := Step(j, s, c);
    if HasError(s) {
      var i :| 0 <= i < |s.tasks| && s.tasks[i].err != 0;
      assert r.tasks[i].err != 0;
    }
    if Refuses(j, s, c) || AsksForNothing(j, s, c) {
      assert r.tasks[s.workers[c.worker].i].err != 0;
    }
    if HasError(r) && !Refuses(j, s, c) && !AsksForNothing(j, s, c) {
      var i :| 0 <= i < |r.tasks| && r.tasks[i].err != 0;
      assert s.tasks[i].err != 0;
    }
  }

  /** A worker that gets no buffer leaves with code -16, one whose copy fails with the driver's code; the
      task has it first, the shared flag after it. */
  lemma {:induction false} CodeReachesFlag(j: Job, s: State, c: Choice, again: Choice)
    requires Shape(j, s) && c.worker < |s.workers| && again.worker == c.worker
    requires Refuses(j, s, c) || AsksForNothing(j, s, c)
    ensures var i := s.workers[c.worker].i;
            var code := if s.workers[c.worker].Acquire? then -16 else c.fault;
            var r := Step(j, s, c);
            && r.tasks[i].err == code && r.fail == s.fail
            && Step(j, r, again).fail == code && Step(j, r, again).workers[c.worker].Finished?
  {
    assert Step(j, s, c).workers[c.worker] == Failing(s.workers[c.worker].i);
  }

  lemma {:induction false} ErrorsHaveCauses(j: Job, s: State, schedule: seq<Choice>)
    requires Shape(j, s) && !HasError(s)
    ensures HasError(Exec(j, s, schedule)) <==> Refused(j, s, schedule) || AskedForNothing(j, s, schedule)
  {
    if schedule != [] {
      var front := schedule[..|schedule| - 1];
      ErrorsHaveCauses(j, s, front);
      ErrorStep(j, Exec(j, s, front), schedule[|schedule| - 1]);
    }
  }

  ghost predicate NoEmptyTask(j: Job)
  {
    forall i | 0 <= i < |j.data| :: |j.data[i]| > 0
  }

  /** An empty task never gets a buffer. */
  lemma {:induction false} EmptyStaysBare(j: Job, s: State, schedule: seq<Choice>)
    requires Shape(j, s) && forall i | 0 <= i < |s.tasks| :: s.tasks[i].dst.None?
    ensures forall i | 0 <= i < |j.data| && |j.data[i]| == 0 :: Exec(j, s, schedule).tasks[i].dst.None?
  {
    if schedule != [] {
      EmptyStaysBare(j, s, schedule[..|schedule| - 1]);
    }
  }

  lemma {:induction false} NothingAskedFor(j: Job, s: State, schedule: seq<Choice>)
    requires Content(j, s) && Control(|j.data|, s) && (j.pooled ==> NoEmptyTask(j))
    ensures !AskedForNothing(j, s, schedule)
  {
    if schedule != [] {
      var front := schedule[..|schedule| - 1];
      NothingAskedFor(j, s, front);
      ExecKeepsInvariants(j, s, front);
    }
  }

  /** After the join the flag and the tasks tell the same. */
  lemma {:induction false} FailIffError(j: Job, s: State)
    requires Content(j, s) && Control(|j.data|, s) && Joined(s) && 0 < |s.workers|
    ensures s.fail == 0 <==> !HasError(s)
  {
    if HasError(s) {
      var i :| 0 <= i < |s.tasks| && s.tasks[i].err != 0;
      assert !Owned(s, i);
    }
  }

  /** The outcome of a run, whatever the interleaving: it succeeds if and only if the driver refused
      nothing and, where buffers come from the pool, no task is empty. */
  lemma {:induction false} JoinVerdict(j: Job, start: State, schedule: seq<Choice>)
    requires Content(j, start) && Control(|j.data|, start) && !HasError(start) && 0 < |start.workers|
    requires j.pooled ==> forall i | 0 <= i < |start.tasks| :: start.tasks[i].dst.None?
    requires Joined(Exec(j, start, schedule))
    ensures Exec(j, start, schedule).fail == 0 <==>
            !Refused(j, start, schedule) && (j.pooled ==> NoEmptyTask(j))
  {
    var s := Exec(j, start, schedule);
    ExecKeepsInvariants(j, start, schedule);
    FailIffError(j, s);
    ErrorsHaveCauses(j, start, schedule);
    if j.pooled && s.fail == 0 {
      EmptyStaysBare(j, start, schedule);
      JoinOutcome(j, s);
    }
    if j.pooled ==> NoEmptyTask(j) {
      NothingAskedFor(j, start, schedule);
    }
  }

  // ---------- termination ----------

  /** An upper bound on what a worker still does with what it has in hand. */
  function Weight(j: Job, p: Phase): nat
  {
    match p
    case Fetch => 2
    case Check(i) => if i < |j.data| then |j.data[i]| + 5 else 1
    case Acquire(i) => if i < |j.data| then |j.data[i]| + 4 else 1
    case Copy(i, k) => if i < |j.data| && k <= |j.data[i]| then |j.data[i]| - k + 3 else 1
    case Failing(_) => 1
    case Finished => 0
  }

  function Weights(j: Job, workers: seq<Phase>): nat
  {
    if workers == [] then 0 else Weight(j, workers[0]) + Weights(j, workers[1..])
  }

  /** The tasks nobody has claimed yet. */
  function Unclaimed(j: Job, next: nat): nat
    decreases |j.data| - next
  {
    if next >= |j.data| then 0 else |j.data[next]| + 7 + Unclaimed(j, next + 1)
  }

  lemma {:induction false} WeightsUpdate(j: Job, workers: seq<Phase>, w: nat, p: Phase)
    requires w < |workers|
    ensures Weights(j, workers[w := p]) == Weights(j, workers) - Weight(j, workers[w]) + Weight(j, p)
  {
    if w > 0 {
      WeightsUpdate(j, workers[1..], w - 1, p);
      assert workers[w := p][1..] == workers[1..][w - 1 := p];
    } else {
      assert workers[0 := p][1..] == workers[1..];
    }
  }

  function Remaining(j: Job, s: State): nat { Unclaimed(j, s.next) + Weights(j, s.workers) }

  /** No worker can get stuck: whatever the driver answers, every step of an unfinished worker brings
      the join nearer. */
  lemma {:induction false} StepDecreases(j: Job, s: State, c: Choice)
    requires Shape(j, s) && c.worker < |s.workers| && !s.workers[c.worker].Finished?
    ensures Remaining(j, Step(j, s, c)) < Remaining(j, s)
  {
    var w, r := c.worker, Step(j, s, c);
    var p := r.workers[w];
    assert r.workers == s.workers[w := p];
    WeightsUpdate(j, s.workers, w, p);
    assert Unclaimed(j, r.next) + Weight(j, p) < Unclaimed(j, s.next) + Weight(j, s.workers[w]) by {
      if s.workers[w].Fetch? {
        assert r.next == s.next + 1 && p == Check(s.next);
      } else {
        assert r.next == s.next && Weight(j, p) < Weight(j, s.workers[w]);
      }
    }
  }

  /** What a willing driver answers is not a refusal. */
  lemma {:induction false} WillingIsNoRefusal(j: Job, s: State, c: Choice)
    requires Content(j, s) && c.fault == 0 && c.grant == Some(PP.FreshAddress(s.bufs))
    ensures !Refuses(j, s, c)
  {
    if c.worker < |s.workers| && s.workers[c.worker].Acquire? {
      var size := |j.data[s.workers[c.worker].i]|;
      PP.FreshAddressIsLegal(s.bufs, size);
      assert j.pooled;
    }
  }

  lemma {:induction false} OneMore(j: Job, start: State, schedule: seq<Choice>, c: Choice)
    requires Content(j, start) && Control(|j.data|, start)
    ensures var s := Exec(j, start, schedule);
            && Exec(j, start, schedule + [c]) == Step(j, s, c)
            && Content(j, Step(j, s, c)) && Control(|j.data|, Step(j, s, c))
            && (Refused(j, start, schedule + [c]) <==> Refused(j, start, schedule) || Refuses(j, s, c))
  {
    assert (schedule + [c])[..|schedule|] == schedule;
    ExecKeepsInvariants(j, start, schedule);
    StepKeepsControl(j, Exec(j, start, schedule), c);
    StepKeepsContent(j, Exec(j, start, schedule), c);
  }

  /** Spawning and joining the workers: at every turn any unfinished worker may move next and, unless it
      is willing, the driver may refuse any call. */
  method Join(j: Job, start: State, willing: bool) returns (s: State, ghost schedule: seq<Choice>)
    requires Content(j, start) && Control(|j.data|, start)
    ensures s == Exec(j, start, schedule) && Joined(s) && |s.workers| == |start.workers|
    ensures Content(j, s) && Control(|j.data|, s)
    ensures willing ==> !Refused(j, start, schedule)
  {
    s, schedule := start, [];
    while exists w | 0 <= w < |s.workers| :: !s.workers[w].Finished?
      invariant s == Exec(j, start, schedule) && |s.workers| == |start.workers|
      invariant Content(j, s) && Control(|j.data|, s)
      invariant willing ==> !Refused(j, start, schedule)
      decreases Remaining(j, s)
    {
      var w :| 0 <= w < |s.workers| && !s.workers[w].Finished?;
      var fault: int := *;
      var grant: Option<nat> := *;
      if willing { fault, grant := 0, Some(PP.FreshAddress(s.bufs)); }
      var c := Choice(w, fault, grant);
      OneMore(j, start, schedule, c);
      StepDecreases(j, s, c);
      if willing { WillingIsNoRefusal(j, s, c); }
      s, schedule := Step(j, s, c), schedule + [c];
    }
  }
}
