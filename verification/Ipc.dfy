/** The shim's two copies of its state and its waiters (shim/ipc.c), over every interleaving of client
    threads and of application threads that wait.  Each step is one access to shared memory, one mutex
    operation or one broadcast. */
module Ipc {
  import opened Bytes

  datatype ShimState = StIdle | StFrozen | StSnapped | StRestored | StRunning

  /** ckpt_wait_frozen and ckpt_app_resumed. */
  datatype Wait = UntilFrozen | UntilResumed

  predicate Awaited(k: Wait, s: ShimState)
  {
    match k
    case UntilFrozen => s == StFrozen || s == StSnapped
    case UntilResumed => s == StRunning || s == StRestored
  }

  /** Where a thread is.  Reported means that the operation wrote the tracker's state before it called
      set_state, as the end of a snapshot, a restore and a resume do, and a freeze does not. */
  datatype Phase =
    | Away
    | Pending(s: ShimState, reported: bool)
    | Locked(s: ShimState, reported: bool)
    | WroteIpc(s: ShimState)
    | WroteTracker(s: ShimState)
    | Signalled(s: ShimState)
    | Entering(k: Wait)
    | Checking(k: Wait)
    | Asleep(k: Wait)
    | Leaving(k: Wait, s: ShimState)
    | Returned(k: Wait, s: ShimState)

  /** The state of ipc.c, that of the tracker, the mutex and the threads. */
  datatype Shim = Shim(ipc: ShimState, tracker: ShimState, owner: Option<nat>, threads: seq<Phase>)

  /** What a thread does when it is not inside an operation; Go is its next step when it is. */
  datatype Action = Go | Freeze | Report(s: ShimState) | WaitFor(k: Wait) | Spurious

  datatype Choice = Choice(thread: nat, action: Action)

  function Move(s: Shim, w: nat, p: Phase): Shim
    requires w < |s.threads|
  {
    s.(threads := s.threads[w := p])
  }

  function Wake(p: Phase): Phase
  {
    if p.Asleep? then Entering(p.k) else p
  }

  /** pthread_cond_broadcast. */
  function WakeAll(threads: seq<Phase>): (r: seq<Phase>)
    ensures |r| == |threads|
    ensures forall i | 0 <= i < |r| :: r[i] == Wake(threads[i])
  {
    seq(|threads|, i requires 0 <= i < |threads| => Wake(threads[i]))
  }

  function Start(s: Shim, w: nat, a: Action): Shim
    requires w < |s.threads|
  {
    match a
    case Freeze => Move(s, w, Pending(StFrozen, false))
    case Report(x) => Move(s, w, Pending(x, true)).(tracker := x)
    case WaitFor(k) => Move(s, w, Entering(k))
    case _ => s
  }

  /** A step that needs the mutex and finds it taken leaves everything as it is. */
  function Step(s: Shim, c: Choice): (r: Shim)
    ensures |r.threads| == |s.threads|
  {
    var w := c.thread;
    if w >= |s.threads| then s else
    match s.threads[w]
    case Away => Start(s, w, c.action)
    case Returned(k, x) => Start(s, w, c.action)
    case Pending(x, reported) => if s.owner.Some? then s else Move(s, w, Locked(x, reported)).(owner := Some(w))
    case Locked(x, reported) => Move(s, w, WroteIpc(x)).(ipc := x)
    case WroteIpc(x) => Move(s, w, WroteTracker(x)).(tracker := x)
    case WroteTracker(x) => Move(s.(threads := WakeAll(s.threads)), w, Signalled(x))
    case Signalled(x) => Move(s, w, Away).(owner := None)
    case Entering(k) => if s.owner.Some? then s else Move(s, w, Checking(k)).(owner := Some(w))
    case Checking(k) =>
      if Awaited(k, s.ipc) then Move(s, w, Leaving(k, s.ipc)) else Move(s, w, Asleep(k)).(owner := None)
    case Asleep(k) => if c.action.Spurious? then Move(s, w, Entering(k)) else s
    case Leaving(k, x) => Move(s, w, Returned(k, x)).(owner := None)
  }

  function Exec(s: Shim, schedule: seq<Choice>): (r: Shim)
    ensures |r.threads| == |s.threads|
  {
    if schedule == [] then s else Step(Exec(s, schedule[..|schedule| - 1]), schedule[|schedule| - 1])
  }

  /** After the constructor: running, or frozen for a restore. */
  function Initial(threads: nat, s: ShimState): Shim
  {
    Shim(s, s, None, seq(threads, i => Away))
  }

  // ---------- what every interleaving keeps ----------

  /** Phases inside the critical section. */
  predicate Inside(p: Phase)
  {
    p.Locked? || p.WroteIpc? || p.WroteTracker? || p.Signalled? || p.Checking? || p.Leaving?
  }

  ghost predicate Exclusive(s: Shim)
  {
    && (forall w | 0 <= w < |s.threads| && Inside(s.threads[w]) :: s.owner == Some(w))
    && (s.owner.Some? ==> s.owner.value < |s.threads| && Inside(s.threads[s.owner.value]))
  }

  /** Between its own write of the tracker and the end of its set_state, or between the two writes of
      set_state. */
  predicate Unsettled(p: Phase)
  {
    (p.Pending? && p.reported) || (p.Locked? && p.reported) || p.WroteIpc?
  }

  /** The two copies differ only while some thread is unsettled. */
  ghost predicate Agreement(s: Shim)
  {
    s.ipc != s.tracker ==> exists w :: 0 <= w < |s.threads| && Unsettled(s.threads[w])
  }

  /** Once set_state has written the first copy, it keeps that value to the end. */
  ghost predicate WritersHold(s: Shim)
  {
    forall w | 0 <= w < |s.threads|
        && (s.threads[w].WroteIpc? || s.threads[w].WroteTracker? || s.threads[w].Signalled?) ::
      s.ipc == s.threads[w].s
  }

  predicate AboutToSignal(p: Phase)
  {
    p.WroteIpc? || p.WroteTracker?
  }

  /** A waiter sleeps while its awaited state holds only if a broadcast is about to come. */
  ghost predicate NoLostWakeup(s: Shim)
  {
    forall w | 0 <= w < |s.threads| && s.threads[w].Asleep? && Awaited(s.threads[w].k, s.ipc) ::
      exists v :: 0 <= v < |s.threads| && AboutToSignal(s.threads[v])
  }

  /** A wait ends only with a state it waited for. */
  ghost predicate RightReturns(s: Shim)
  {
    forall w | 0 <= w < |s.threads| && (s.threads[w].Leaving? || s.threads[w].Returned?) ::
      Awaited(s.threads[w].k, s.threads[w].s)
  }

  ghost predicate Invariant(s: Shim)
  {
    Exclusive(s) && WritersHold(s) && Agreement(s) && NoLostWakeup(s) && RightReturns(s)
  }

  lemma {:induction false} StepKeepsExclusive(s: Shim, c: Choice)
    requires Exclusive(s)
    ensures Exclusive(Step(s, c))
  {
  }

  lemma {:induction false} StepKeepsWriters(s: Shim, c: Choice)
    requires Exclusive(s) && WritersHold(s)
    ensures WritersHold(Step(s, c))
  {
  }

  /** A step that changes one of the copies, or that ends a thread's unsettled time. */
  lemma {:induction false} StepKeepsAgreement(s: Shim, c: Choice)
    requires WritersHold(s) && Agreement(s)
    ensures Agreement(Step(s, c))
  {
    var r, w := Step(s, c), c.thread;
    if w < |s.threads| && r.ipc != r.tracker {
      if Unsettled(r.threads[w]) {
      } else {
        assert r.ipc == s.ipc && r.tracker == s.tracker;
        assert !Unsettled(s.threads[w]);
        var v :| 0 <= v < |s.threads| && Unsettled(s.threads[v]);
        assert v != w;
        assert Unsettled(r.threads[v]);
      }
    }
  }

  lemma {:induction false} StepKeepsWakeups(s: Shim, c: Choice)
    requires Exclusive(s) && NoLostWakeup(s)
    ensures NoLostWakeup(Step(s, c))
  {
    var r := Step(s, c);
    forall w | 0 <= w < |r.threads| && r.threads[w].Asleep? && Awaited(r.threads[w].k, r.ipc)
      ensures exists v :: 0 <= v < |r.threads| && AboutToSignal(r.threads[v])
    {
      if r.ipc != s.ipc {
        assert AboutToSignal(r.threads[c.thread]);
      } else {
        assert s.threads[w].Asleep?;
        var v :| 0 <= v < |s.threads| && AboutToSignal(s.threads[v]);
        assert AboutToSignal(r.threads[v]);
      }
    }
  }

  lemma {:induction false} StepKeepsReturns(s: Shim, c: Choice)
    requires RightReturns(s)
    ensures RightReturns(Step(s, c))
  {
  }

  lemma {:induction false} ExecKeepsInvariant(s: Shim, schedule: seq<Choice>)
    requires Invariant(s)
    ensures Invariant(Exec(s, schedule))
  {
    if schedule != [] {
      var front, last := Exec(s, schedule[..|schedule| - 1]), schedule[|schedule| - 1];
      ExecKeepsInvariant(s, schedule[..|schedule| - 1]);
      StepKeepsExclusive(front, last);
      StepKeepsWriters(front, last);
      StepKeepsAgreement(front, last);
      StepKeepsWakeups(front, last);
      StepKeepsReturns(front, last);
    }
  }

  /** For any number of threads and any interleaving: if the states differ, some thread is between its
      own write of the tracker and the end of its set_state; who waits for a frozen process sleeps while
      it is frozen or snapped, and who waits for a running one while it runs or is restored, only as long as
      the mutex is held by a thread that is about to signal; and a wait returns only with one of its two
      states. */
  lemma {:induction false} EveryInterleaving(threads: nat, start: ShimState, schedule: seq<Choice>)
    ensures var s := Exec(Initial(threads, start), schedule);
            && (s.ipc != s.tracker ==> exists w :: 0 <= w < |s.threads| && Unsettled(s.threads[w]))
            && ((forall w | 0 <= w < |s.threads| :: !Unsettled(s.threads[w])) ==> s.ipc == s.tracker)
            && (forall w | 0 <= w < |s.threads| && s.threads[w] == Asleep(UntilFrozen) ::
                  s.ipc == StFrozen || s.ipc == StSnapped ==> SignalComing(s))
            && (forall w | 0 <= w < |s.threads| && s.threads[w] == Asleep(UntilResumed) ::
                  s.ipc == StRunning || s.ipc == StRestored ==> SignalComing(s))
            && (forall w | 0 <= w < |s.threads| && s.threads[w].Returned? ::
                  s.threads[w].s in match s.threads[w].k
                                    case UntilFrozen => {StFrozen, StSnapped}
                                    case UntilResumed => {StRunning, StRestored})
  {
    var s0 := Initial(threads, start);
    ExecKeepsInvariant(s0, schedule);
    var s := Exec(s0, schedule);
    forall w | 0 <= w < |s.threads| && s.threads[w].Asleep? && Awaited(s.threads[w].k, s.ipc)
      ensures SignalComing(s)
    {
      var v :| 0 <= v < |s.threads| && AboutToSignal(s.threads[v]);
      assert Inside(s.threads[v]);
    }
  }

  /** The holder of the mutex has written the state and not yet broadcast. */
  ghost predicate SignalComing(s: Shim)
  {
    s.owner.Some? && s.owner.value < |s.threads| && AboutToSignal(s.threads[s.owner.value])
  }

  /** The states really can differ with nobody inside set_state: a snapshot reports to the tracker before
      it takes the mutex. */
  lemma {:induction false} ReportPrecedesLock()
    ensures var s := Exec(Initial(1, StFrozen), [Choice(0, Report(StSnapped))]);
            s.ipc == StFrozen && s.tracker == StSnapped && s.owner == None
  {
    var schedule := [Choice(0, Report(StSnapped))];
    assert schedule[..0] == [];
    assert Exec(Initial(1, StFrozen), schedule[..0]) == Initial(1, StFrozen);
  }

  /** The operation of one thread that nobody interrupts: a freeze leaves both copies frozen, any other one
      the state it reported, the mutex free, and every sleeper asking for the mutex again. */
  lemma {:induction false} OperationTakesEffect(s: Shim, w: nat, a: Action)
    requires w < |s.threads| && s.threads[w].Away? && s.owner == None && (a.Freeze? || a.Report?)
    ensures var r := Exec(s, [Choice(w, a), Choice(w, Go), Choice(w, Go), Choice(w, Go), Choice(w, Go), Choice(w, Go)]);
            && r.ipc == r.tracker == (if a.Freeze? then StFrozen else a.s) && r.owner == None
            && forall v | 0 <= v < |s.threads| ::
                 r.threads[v] == if s.threads[v].Asleep? then Entering(s.threads[v].k) else s.threads[v]
  {
    var go := Choice(w, Go);
    ExecSix(s, [Choice(w, a), go, go, go, go, go]);
  }

  lemma {:induction false} ExecSix(s: Shim, t: seq<Choice>)
    requires |t| == 6
    ensures Exec(s, t) == Step(Step(Step(Step(Step(Step(s, t[0]), t[1]), t[2]), t[3]), t[4]), t[5])
  {
    assert t[..5][..4] == t[..4] && t[..4][..3] == t[..3] && t[..3][..2] == t[..2] && t[..2][..1] == t[..1];
    assert t[..1][..0] == [];
    assert Exec(s, t[..1]) == Step(s, t[0]);
    assert Exec(s, t[..2]) == Step(Exec(s, t[..1]), t[1]);
    assert Exec(s, t[..3]) == Step(Exec(s, t[..2]), t[2]);
    assert Exec(s, t[..4]) == Step(Exec(s, t[..3]), t[3]);
    assert Exec(s, t[..5]) == Step(Exec(s, t[..4]), t[4]);
  }

  /** A wait that nobody interrupts returns at once exactly if the state is one of its two, and sleeps
      otherwise. */
  lemma {:induction false} WaitReturnsOrSleeps(s: Shim, w: nat, k: Wait)
    requires w < |s.threads| && s.threads[w].Away? && s.owner == None
    ensures var go := Choice(w, Go);
            var r := Step(Step(Step(Step(s, Choice(w, WaitFor(k))), go), go), go);
            var fits := if k == UntilFrozen then s.ipc == StFrozen || s.ipc == StSnapped
                        else s.ipc == StRunning || s.ipc == StRestored;
            r.threads[w] == (if fits then Returned(k, s.ipc) else Asleep(k)) && r.owner == None && r.ipc == s.ipc
  {
    var go := Choice(w, Go);
    assert Step(Step(s, Choice(w, WaitFor(k))), go).threads[w] == Checking(k);
  }

  /** When no thread is inside an operation, the two copies agree, the mutex is free, and nobody sleeps
      through the state it waits for. */
  lemma {:induction false} SettledStatesAgree(threads: nat, start: ShimState, schedule: seq<Choice>)
    ensures var s := Exec(Initial(threads, start), schedule);
            (forall w | 0 <= w < |s.threads| :: s.threads[w].Away? || s.threads[w].Asleep? || s.threads[w].Returned?)
              ==> && s.ipc == s.tracker && s.owner == None
                  && (forall w | 0 <= w < |s.threads| && s.threads[w] == Asleep(UntilFrozen) ::
                        s.ipc != StFrozen && s.ipc != StSnapped)
                  && (forall w | 0 <= w < |s.threads| && s.threads[w] == Asleep(UntilResumed) ::
                        s.ipc != StRunning && s.ipc != StRestored)
  {
    EveryInterleaving(threads, start, schedule);
    ExecKeepsInvariant(Initial(threads, start), schedule);
  }
}
