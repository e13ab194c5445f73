/** Which waits of the restore stages go through a futex, and who is woken (criu/cr-restore.c,
    include/common/lock.h). */
module StageWords {
  import opened Options
  import opened StageBarrier
  import opened StageInvariant
  import opened StageFutex

  /** Whether actor x could go on if the stage were this one. */
  predicate GoesAt(c: Config, s: State, x: nat, stage: Stage)
    requires Sized(c, s) && x < Actors(c)
  {
    Enabled(c, s.(start := stage), Own(c, x))
  }

  /** Whether actor x could go on if the counter were this. */
  predicate GoesWith(c: Config, s: State, x: nat, n: int)
    requires Sized(c, s) && x < Actors(c)
  {
    Enabled(c, s.(nrInProgress := n), Own(c, x))
  }

  ghost predicate DependsOnStage(c: Config, s: State, x: nat)
    requires Sized(c, s) && x < Actors(c)
  {
    exists a, b :: GoesAt(c, s, x, a) && !GoesAt(c, s, x, b)
  }

  ghost predicate DependsOnCounter(c: Config, s: State, x: nat)
    requires Sized(c, s) && x < Actors(c)
  {
    exists m, n :: GoesWith(c, s, x, m) && !GoesWith(c, s, x, n)
  }

  /** The stage that keeps actor x where it waits for another. */
  function Held(r: nat): Stage {
    if r == WAIT_ROOT_TASK then RootTask
    else if r == WAIT_PREPARE_NS then PrepareNamespaces
    else if r == WAIT_FORKING then Forking
    else if r == WAIT_RESTORE then Restore
    else if r == WAIT_SIGCHLD then RestoreSigchld
    else RestoreCreds
  }

  /** Actors wait on the stage word exactly where it is the stage that decides whether they go on. */
  lemma WaitsOnStageIff(c: Config, s: State, x: nat)
    requires Sized(c, s) && x < Actors(c)
    ensures WaitsOn(c, s, x) == Some(StageWord) <==> DependsOnStage(c, s, x)
  {
    if WaitsOn(c, s, x) == Some(StageWord) {
      assert GoesAt(c, s, x, Complete) && !GoesAt(c, s, x, Held(s.at[x]));
    } else {
      forall a, b ensures GoesAt(c, s, x, a) == GoesAt(c, s, x, b) { StageIrrelevant(c, s, x, a, b); }
    }
  }

  lemma StageIrrelevant(c: Config, s: State, x: nat, a: Stage, b: Stage)
    requires Sized(c, s) && x < Actors(c) && WaitsOn(c, s, x) != Some(StageWord)
    ensures GoesAt(c, s, x, a) == GoesAt(c, s, x, b)
  {
  }

  /** And on the counter exactly where the counter does. */
  lemma WaitsOnCounterIff(c: Config, s: State, x: nat)
    requires Sized(c, s) && x < Actors(c)
    ensures WaitsOn(c, s, x) == Some(CounterWord) <==> DependsOnCounter(c, s, x)
  {
    if WaitsOn(c, s, x) == Some(CounterWord) {
      assert GoesWith(c, s, x, 0) && !GoesWith(c, s, x, Count(c.RootThreads()) + 2);
    } else {
      forall m, n ensures GoesWith(c, s, x, m) == GoesWith(c, s, x, n) { CounterIrrelevant(c, s, x, m, n); }
    }
  }

  lemma CounterIrrelevant(c: Config, s: State, x: nat, m: int, n: int)
    requires Sized(c, s) && x < Actors(c) && WaitsOn(c, s, x) != Some(CounterWord)
    ensures GoesWith(c, s, x, m) == GoesWith(c, s, x, n)
  {
  }

  /** Whoever cannot go on for the sake of a word reads it, and sleeps if it has not changed by then. */
  lemma WaitSleeps(c: Config, f: FState, x: nat, w: Word)
    requires FSized(c, f) && x < Actors(c) && f.modes[x] == Running
    requires WaitsOn(c, f.base, x) == Some(w) && !Enabled(c, f.base, Own(c, x))
    ensures FEnabled(c, f, Act(x)) && FDo(c, f, Act(x)) == f.(modes := f.modes[x := Seen(ValueOf(f.base, w))])
    ensures
      var seen := f.(modes := f.modes[x := Seen(ValueOf(f.base, w))]);
      FEnabled(c, seen, Act(x)) && FDo(c, seen, Act(x)) == f.(modes := f.modes[x := Asleep])
  {
    var seen := f.(modes := f.modes[x := Seen(ValueOf(f.base, w))]);
    assert seen.modes[x := Asleep] == f.modes[x := Asleep];
  }

  /** Nobody wakes a word it has not changed. */
  lemma WakesOnlyChanges(c: Config, s: State, x: nat, w: Word)
    requires Inv(c, s) && x < Actors(c) && Enabled(c, s, Own(c, x)) && Wakes(c, s, x) == Some(w)
    ensures ValueOf(Do(c, s, Own(c, x)), w) != ValueOf(s, w)
  {
    assert Know(c, 0, s.at[0], s.at[0], s.criu);
  }

  /** A sleeper is woken only by a call for the word it waits on. */
  lemma WokenByOwnWord(c: Config, f: FState, a: FAction, y: nat)
    requires FSized(c, f) && FEnabled(c, f, a) && y < Actors(c)
    requires f.modes[y] == Asleep && FDo(c, f, a).modes[y] != Asleep
    ensures a.Act? && f.modes[a.x].WakeDue? && WaitsOn(c, f.base, y) == Some(f.modes[a.x].word)
  {
  }

  /** Only living processes make further threads, never zombies, helpers or other threads. */
  lemma {:induction false} OnlyTasksSpawn(c: Config, run: seq<State>, k: nat, p: nat)
    requires Run(c, run) && k < |run| && p < |c.parts| && run[k].at[p] == SPAWNING
    ensures c.parts[p].main && c.parts[p].kind == Alive
  {
    if k > 0 {
      var s, s' := run[k - 1], run[k];
      if s.at[p] == SPAWNING {
        OnlyTasksSpawn(c, run, k - 1, p);
      } else {
        RunInv(c, run, k - 1);
        assert Stepped(c, run, k - 1);
        var a :| Enabled(c, s, a) && s' == Do(c, s, a);
        SpawnStep(c, s, a, p);
      }
    }
  }

  lemma SpawnStep(c: Config, s: State, a: Action, p: nat)
    requires Inv(c, s) && Enabled(c, s, a) && p < |s.at| && s.at[p] != SPAWNING && Do(c, s, a).at[p] == SPAWNING
    ensures c.parts[p].main && c.parts[p].kind == Alive
  {
  }

  /** Trees with threads, zombies and helpers at any place are among those the results are about. */
  lemma SomeTree(ns: bool)
    ensures
      var parts := [Part(true, Alive, 0), Part(false, Alive, 0), Part(true, Zombie, 0), Part(true, Helper, 0),
                    Part(true, Alive, 2), Part(false, Alive, 4)];
      Config(parts, ns).Valid()
  {
  }
}
