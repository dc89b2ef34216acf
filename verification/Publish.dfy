/** Staged publication (pkg/image/finalize.go): the file system steps of WriteStaging and Finalize, with a
    stop possible before each of them, and any number of later runs for the same destination. */
module Publish {
  import opened Bytes
  import opened ImageStore

  function StageDir(dest: Path): (r: Path)
    ensures r != dest
  {
    var r := dest + ".staging";
    assert |r| == |dest| + 8;
    r
  }

  function EmptyImage(): Image
  {
    Image(None, None, None, None, None, None, None, map[], None, None, false, false)
  }

  // ---------- the steps ----------

  datatype Phase = Idle | Cleared | Building | Failed | Built | Marked | Dropped

  datatype Step = Begin | Make | Work(next: Store) | GiveUp | Clean | Finish | Mark | Drop | Move | Stop

  /** The directories, where the current run is, the images that builders have completed so far, whether a
      run was stopped between removing the destination and renaming, and whether a builder has changed the
      destination, with no rename since in either case. */
  datatype State = State(dirs: Store, phase: Phase, finished: set<Image>, torn: bool, mended: bool)

  function Start(dirs: Store): State
  {
    State(dirs, Idle, {}, false, false)
  }

  /** A builder works in the staging directory; other images it may materialise, the old destination among
      them if its parent descends from it. */
  ghost predicate BuilderMayDo(dest: Path, s: Store, t: Store)
  {
    var staging := StageDir(dest);
    && s.Keys == t.Keys && staging in t && !t[staging].complete
    && forall d | d in s && d != staging :: Refreshed(s[d], t[d])
  }

  ghost predicate Enabled(dest: Path, s: State, step: Step)
  {
    match step
    case Begin => s.phase == Idle
    case Make => s.phase == Cleared
    case Work(next) => s.phase == Building && BuilderMayDo(dest, s.dirs, next)
    case GiveUp => s.phase == Building
    case Clean => s.phase == Failed
    case Finish => s.phase == Building
    case Mark => s.phase == Built
    case Drop => s.phase == Marked
    case Move => s.phase == Dropped
    case Stop => true
  }

  ghost function Next(dest: Path, s: State, step: Step): State
  {
    var staging := StageDir(dest);
    if !Enabled(dest, s, step) then s else
    match step
    case Begin => s.(dirs := s.dirs - {staging}, phase := Cleared)
    case Make => s.(dirs := s.dirs[staging := EmptyImage()], phase := Building)
    case Work(next) => s.(dirs := next, mended := s.mended || Lookup(next, dest) != Lookup(s.dirs, dest))
    case GiveUp => s.(phase := Failed)
    case Clean => s.(dirs := s.dirs - {staging}, phase := Idle)
    case Finish => if staging in s.dirs
        then s.(phase := Built, finished := s.finished + {s.dirs[staging].(complete := true)}) else s
    case Mark => if staging in s.dirs
        then s.(phase := Marked, dirs := s.dirs[staging := s.dirs[staging].(complete := true)]) else s
    case Drop => s.(phase := Dropped, dirs := s.dirs - {dest})
    case Move =>
      if staging in s.dirs
      then s.(phase := Idle, dirs := (s.dirs - {staging})[dest := s.dirs[staging]], torn := false, mended := false)
      else s
    case Stop => s.(phase := Idle, torn := s.torn || s.phase == Dropped)
  }

  ghost function Exec(dest: Path, s: State, steps: seq<Step>): State
  {
    if steps == [] then s else Next(dest, Exec(dest, s, steps[..|steps| - 1]), steps[|steps| - 1])
  }

  // ---------- what every run keeps ----------

  /** The image is the old one or one that a builder completed, or what materialising has made of it. */
  ghost predicate OldOrNew(prior: Option<Image>, finished: set<Image>, img: Image)
  {
    (prior.Some? && Refreshed(prior.value, img)) || exists f | f in finished :: Refreshed(f, img)
  }

  /** The destination is the old image or one that a builder completed, materialised at most, and exactly
      so unless a builder has materialised it; while no builder has completed one, it is the old one; and,
      if there was an old one, it is missing exactly while it is being replaced and after a stop at that
      very point, until some later attempt succeeds. */
  ghost predicate Sound(dest: Path, prior: Option<Image>, s: State)
  {
    && (dest in s.dirs ==> OldOrNew(prior, s.finished, s.dirs[dest]))
    && (dest in s.dirs && !s.mended ==> Some(s.dirs[dest]) == prior || s.dirs[dest] in s.finished)
    && (s.finished == {} ==> (dest in s.dirs <==> prior.Some?) && (!s.mended ==> Lookup(s.dirs, dest) == prior))
    && (dest !in s.dirs ==> prior == None || s.phase == Dropped || s.torn)
    && (s.phase == Dropped || s.torn ==> dest !in s.dirs)
    && (forall img | img in s.finished :: img.complete)
  }

  /** What the staging directory holds while a run is under way. */
  ghost predicate StagingFits(dest: Path, s: State)
  {
    var staging := StageDir(dest);
    match s.phase
    case Idle => true
    case Cleared => staging !in s.dirs
    case Building => staging in s.dirs && !s.dirs[staging].complete
    case Failed => staging in s.dirs && !s.dirs[staging].complete
    case Built => staging in s.dirs && s.dirs[staging].(complete := true) in s.finished
    case Marked => staging in s.dirs && s.dirs[staging] in s.finished
    case Dropped => staging in s.dirs && s.dirs[staging] in s.finished && dest !in s.dirs
  }

  lemma {:induction false} NextKeepsSound(dest: Path, prior: Option<Image>, s: State, step: Step)
    requires Sound(dest, prior, s) && StagingFits(dest, s)
    ensures Sound(dest, prior, Next(dest, s, step)) && StagingFits(dest, Next(dest, s, step))
    ensures s.finished <= Next(dest, s, step).finished
  {
    if step.Work? && Enabled(dest, s, step) && dest in s.dirs {
      WorkKeepsOldOrNew(prior, s.finished, s.dirs[dest], step.next[dest]);
    }
  }

  lemma {:induction false} WorkKeepsOldOrNew(prior: Option<Image>, finished: set<Image>, a: Image, b: Image)
    requires OldOrNew(prior, finished, a) && Refreshed(a, b)
    ensures OldOrNew(prior, finished, b)
  {
    if !(prior.Some? && Refreshed(prior.value, a)) {
      var f :| f in finished && Refreshed(f, a);
      assert Refreshed(f, b);
    }
  }

  /** This holds over every run of any number of attempts, stopped anywhere. */
  lemma {:induction false} ExecKeepsSound(dest: Path, dirs: Store, steps: seq<Step>)
    ensures var s := Exec(dest, Start(dirs), steps);
            Sound(dest, Lookup(dirs, dest), s) && StagingFits(dest, s)
  {
    if steps != [] {
      ExecKeepsSound(dest, dirs, steps[..|steps| - 1]);
      NextKeepsSound(dest, Lookup(dirs, dest), Exec(dest, Start(dirs), steps[..|steps| - 1]),
          steps[|steps| - 1]);
    }
  }

  /** The same as a statement about the destination alone. */
  lemma {:induction false} CompleteIsOldOrNew(dest: Path, dirs: Store, steps: seq<Step>)
    ensures var s := Exec(dest, Start(dirs), steps);
            && (dest in s.dirs && s.dirs[dest].complete ==>
                  && OldOrNew(Lookup(dirs, dest), s.finished, s.dirs[dest])
                  && (!s.mended ==> Some(s.dirs[dest]) == Lookup(dirs, dest) || s.dirs[dest] in s.finished))
            && (dest in dirs ==> (dest !in s.dirs <==> s.phase == Dropped || s.torn))
  {
    ExecKeepsSound(dest, dirs, steps);
  }

  /** One failing attempt, from its beginning to its clean-up: the steps of the builder are arbitrary. */
  ghost predicate FailingAttempt(steps: seq<Step>)
  {
    && |steps| >= 4 && steps[0] == Begin && steps[1] == Make
    && steps[|steps| - 2] == GiveUp && steps[|steps| - 1] == Clean
    && forall i | 2 <= i < |steps| - 2 :: steps[i].Work?
  }

  /** A failed builder leaves no staging directory, and no image more than materialised, the destination
      included, which is as it was unless the builder changed it. */
  lemma {:induction false} FailedBuilderLeavesNothing(dest: Path, dirs: Store, steps: seq<Step>)
    requires FailingAttempt(steps)
    ensures var s := Exec(dest, Start(dirs), steps);
            && StageDir(dest) !in s.dirs && s.phase == Idle && s.dirs.Keys == dirs.Keys - {StageDir(dest)}
            && (!s.mended ==> Lookup(s.dirs, dest) == Lookup(dirs, dest))
            && forall d | d in dirs && d != StageDir(dest) :: d in s.dirs && Refreshed(dirs[d], s.dirs[d])
  {
    var n, s0 := |steps|, Start(dirs);
    BuildingAt(dest, dirs, steps, n - 2);
    var s1 := Exec(dest, s0, steps[..n - 2]);
    assert steps[..n - 1][..n - 2] == steps[..n - 2];
    assert Exec(dest, s0, steps[..n - 1]) == Next(dest, s1, GiveUp);
    assert Exec(dest, s0, steps) == Next(dest, Next(dest, s1, GiveUp), Clean);
  }

  lemma {:induction false} BuildingAt(dest: Path, dirs: Store, steps: seq<Step>, n: nat)
    requires FailingAttempt(steps) && 2 <= n <= |steps| - 2
    ensures var s := Exec(dest, Start(dirs), steps[..n]);
            && s.phase == Building && s.finished == {} && s.dirs.Keys == dirs.Keys + {StageDir(dest)}
            && (!s.mended ==> Lookup(s.dirs, dest) == Lookup(dirs, dest))
            && forall d | d in dirs && d != StageDir(dest) :: d in s.dirs && Refreshed(dirs[d], s.dirs[d])
  {
    var s0 := Start(dirs);
    if n == 2 {
      assert steps[..1][..0] == [] && steps[..2][..1] == steps[..1];
      assert Exec(dest, s0, steps[..1]) == Next(dest, s0, Begin);
      assert Exec(dest, s0, steps[..2]) == Next(dest, Next(dest, s0, Begin), Make);
    } else {
      BuildingAt(dest, dirs, steps, n - 1);
      var s := Exec(dest, s0, steps[..n - 1]);
      assert steps[..n][..n - 1] == steps[..n - 1];
      var t := Next(dest, s, steps[n - 1]);
      assert Exec(dest, s0, steps[..n]) == t;
      forall d | d in dirs && d != StageDir(dest) ensures d in t.dirs && Refreshed(dirs[d], t.dirs[d]) {
        assert Refreshed(dirs[d], s.dirs[d]);
      }
    }
  }

  /** The window: a run stopped after the destination is removed and before the rename, followed by
      another attempt that fails, leaves neither the old image nor the new one. */
  lemma {:induction false} TornReplacementLosesBoth(dest: Path, prior: Image)
    ensures var steps := [Begin, Make, Finish, Mark, Drop, Stop, Begin, Make, GiveUp, Clean];
            Exec(dest, Start(map[dest := prior]), steps).dirs == map[]
  {
    var s0 := Start(map[dest := prior]);
    var steps := [Begin, Make, Finish, Mark, Drop, Stop, Begin, Make, GiveUp, Clean];
    ExecTen(dest, s0, steps);
  }

  lemma {:induction false} ExecTen(dest: Path, s: State, t: seq<Step>)
    requires |t| == 10
    ensures var half := Next(dest, Next(dest, Next(dest, Next(dest, Next(dest, s, t[0]), t[1]), t[2]), t[3]), t[4]);
            Exec(dest, s, t) ==
            Next(dest, Next(dest, Next(dest, Next(dest, Next(dest, half, t[5]), t[6]), t[7]), t[8]), t[9])
  {
    ExecFive(dest, s, t, 0);
    ExecFive(dest, s, t, 5);
    assert t[..10] == t;
    assert t[..0] == [];
  }

  lemma {:induction false} ExecFive(dest: Path, s: State, t: seq<Step>, n: nat)
    requires n + 5 <= |t|
    ensures Exec(dest, s, t[..n + 5]) ==
            Next(dest, Next(dest, Next(dest, Next(dest, Next(dest, Exec(dest, s, t[..n]), t[n]), t[n + 1]), t[n + 2]),
                t[n + 3]), t[n + 4])
  {
    ExecSnoc(dest, s, t, n);
    ExecSnoc(dest, s, t, n + 1);
    ExecSnoc(dest, s, t, n + 2);
    ExecSnoc(dest, s, t, n + 3);
    ExecSnoc(dest, s, t, n + 4);
  }

  lemma {:induction false} ExecSnoc(dest: Path, s: State, steps: seq<Step>, n: nat)
    requires n < |steps|
    ensures Exec(dest, s, steps[..n + 1]) == Next(dest, Exec(dest, s, steps[..n]), steps[n])
    ensures Exec(dest, s, steps[..0]) == s
  {
    assert steps[..n + 1][..n] == steps[..n];
  }

  lemma {:induction false} FinishStates(dest: Path, built: Store, mended: bool)
    requires StageDir(dest) in built
    ensures var img := built[StageDir(dest)].(complete := true);
            var s := Next(dest, Next(dest, Next(dest, Next(dest, State(built, Building, {}, false, mended), Finish),
                Mark), Drop), Move);
            s == State((built - {StageDir(dest), dest})[dest := img], Idle, {img}, false, false)
  {
    var staging := StageDir(dest);
    var img := built[staging].(complete := true);
    var marked := Next(dest, Next(dest, State(built, Building, {}, false, mended), Finish), Mark);
    assert marked == State(built[staging := img], Marked, {img}, false, mended);
    var s := Next(dest, Next(dest, marked, Drop), Move);
    assert s.dirs == (built - {staging, dest})[dest := img];
  }

  /** An attempt that nothing interrupts puts exactly the built image, marked COMPLETE, in place of
      whatever was there. */
  lemma {:induction false} UninterruptedRun(dest: Path, dirs: Store, built: Store)
    requires BuilderMayDo(dest, (dirs - {StageDir(dest)})[StageDir(dest) := EmptyImage()], built)
    ensures var img := built[StageDir(dest)].(complete := true);
            Exec(dest, Start(dirs), [Begin, Make, Work(built), Finish, Mark, Drop, Move])
            == State((built - {StageDir(dest), dest})[dest := img], Idle, {img}, false, false)
  {
    var working := Next(dest, Next(dest, Next(dest, Start(dirs), Begin), Make), Work(built));
    FinishStates(dest, built, working.mended);
    ExecSeven(dest, Start(dirs), [Begin, Make, Work(built), Finish, Mark, Drop, Move]);
  }

  lemma {:induction false} ExecSeven(dest: Path, s: State, t: seq<Step>)
    requires |t| == 7
    ensures Exec(dest, s, t) ==
            Next(dest, Next(dest, Next(dest, Next(dest, Next(dest, Next(dest, Next(dest, s, t[0]), t[1]), t[2]), t[3]),
                t[4]), t[5]), t[6])
  {
    ExecSnoc(dest, s, t, 0);
    ExecSnoc(dest, s, t, 1);
    ExecSnoc(dest, s, t, 2);
    ExecSnoc(dest, s, t, 3);
    ExecSnoc(dest, s, t, 4);
    ExecSnoc(dest, s, t, 5);
    ExecSnoc(dest, s, t, 6);
    assert t[..7] == t;
  }
}
