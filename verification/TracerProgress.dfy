/** How much a run of the tracer protocol can do, that it can always be brought to its end, and where it ends. */
module TracerProgress {
  import opened TracerText
  import opened Tracer
  import opened TracerInvariant
  import opened TracerTheorems

  /** Thread i is in a look at a variable that will make it look again. */
  predicate Futile(c: Config, s: State, i: nat)
    requires i < |s.threads|
  {
    var t := s.threads[i];
    || ((t.at == LOCK_SPIN || t.at == READ_FLAG) && s.flag == 0)
    || (t.at == UNLOCK_SPIN && t.flagLocal == 0)
    || ((t.at == LOCK_DONE || t.at == READ_DONE) && s.traceDone < c.Threads())
    || (t.at == UNLOCK_DONE && t.doneLocal < c.Threads())
    || ((t.at == LOCK_EXIT || t.at == READ_EXIT) && s.flag == 1)
    || (t.at == UNLOCK_EXIT && t.flagLocal == 1)
  }

  ghost predicate Useful(c: Config, s: State, a: Action)
    requires Sized(c, s) && Enabled(c, s, a)
  {
    a.Step? ==> !Futile(c, s, a.i)
  }

  // ----- a measure of what has been done

  const DONE := 3 * EXITED + 1

  function LookStart(p: nat): nat {
    if p <= UNLOCK_SPIN then LOCK_SPIN else if p <= UNLOCK_DONE then LOCK_DONE else LOCK_EXIT
  }

  /** How far a thread at p with tracee e has come; a futile look does not count. */
  function Weight(futile: bool, p: nat, e: Tracee): nat {
    3 * (if futile then LookStart(p) else p) + (if e.Stopped? then 1 else 0)
  }

  ghost function WeightOf(c: Config, s: State, i: nat): nat
    requires Sized(c, s) && i < c.Threads()
  {
    Weight(Futile(c, s, i), s.threads[i].at, s.tracees[i])
  }

  ghost function Weights(c: Config, s: State): (w: seq<nat>)
    requires Sized(c, s)
    ensures |w| == c.Threads() && forall i :: 0 <= i < |w| ==> w[i] == WeightOf(c, s, i)
  {
    seq(c.Threads(), i requires 0 <= i < c.Threads() => WeightOf(c, s, i))
  }

  function Sum(w: seq<nat>): nat {
    if w == [] then 0 else Sum(w[..|w| - 1]) + w[|w| - 1]
  }

  lemma {:induction false} SumGrows(v: seq<nat>, w: seq<nat>, i: nat)
    requires |v| == |w| && i < |v| && forall j :: 0 <= j < |v| ==> v[j] <= w[j]
    ensures Sum(w) >= Sum(v) + w[i] - v[i]
  {
    var n := |v| - 1;
    if i < n {
      SumGrows(v[..n], w[..n], i);
    } else if n > 0 {
      SumGrows(v[..n], w[..n], 0);
      assert v[..n][0] <= w[..n][0];
    }
  }

  lemma {:induction false} SumBound(w: seq<nat>, b: nat)
    requires forall j :: 0 <= j < |w| ==> w[j] <= b
    ensures Sum(w) <= b * |w|
  {
    if w != [] { SumBound(w[..|w| - 1], b); }
  }

  ghost function Measure(c: Config, s: State): nat
    requires Sized(c, s)
  {
    Sum(Weights(c, s))
  }

  lemma MeasureBound(c: Config, s: State)
    requires c.Valid() && Inv(c, s)
    ensures Measure(c, s) <= DONE * c.Threads()
  {
    forall i | 0 <= i < c.Threads() ensures WeightOf(c, s, i) <= DONE {
      assert ThreadOk(c, i, s.threads[i], Main(s), s.traceDone);
    }
    SumBound(Weights(c, s), DONE);
  }

  /** What a thread reads changes only under the lock, so no step of another one makes a look futile. */
  lemma OtherWeight(c: Config, s: State, i: nat, j: nat)
    requires c.Valid() && Inv(c, s) && i < c.Threads() && CanStep(c, s, i) && j < c.Threads() && j != i
    ensures WeightOf(c, ThreadStep(c, s, i), j) >= WeightOf(c, s, j)
  {
    var s' := ThreadStep(c, s, i);
    assert s'.threads[j] == s.threads[j] && s'.tracees[j] == s.tracees[j];
    assert Holds(s.threads[i].at) <==> s.lock == LockedBy(i);
    assert Holds(s.threads[j].at) <==> s.lock == LockedBy(j);
  }

  /** A futile look leads back to its start. */
  lemma FutileWeight(c: Config, s: State, i: nat)
    requires c.Valid() && Sized(c, s) && i < c.Threads() && CanStep(c, s, i) && Futile(c, s, i)
    ensures WeightOf(c, ThreadStep(c, s, i), i) == WeightOf(c, s, i)
  {
  }

  lemma UsefulWeight(c: Config, s: State, i: nat)
    requires c.Valid() && Sized(c, s) && i < c.Threads() && CanStep(c, s, i) && !Futile(c, s, i)
    requires TraceeOk(c, i, s.threads[i], s.tracees[i])
    ensures WeightOf(c, ThreadStep(c, s, i), i) > WeightOf(c, s, i)
  {
  }

  lemma StopWeight(c: Config, s: State, a: Action)
    requires c.Valid() && Sized(c, s) && Enabled(c, s, a) && !a.Step?
    ensures WeightOf(c, Do(c, s, a), a.i) == WeightOf(c, s, a.i) + 1
    ensures forall j :: 0 <= j < c.Threads() && j != a.i ==> WeightOf(c, Do(c, s, a), j) == WeightOf(c, s, j)
  {
  }

  /** A useful step raises the measure and no step lowers it. */
  lemma StepRaises(c: Config, s: State, a: Action)
    requires c.Valid() && Inv(c, s) && Enabled(c, s, a)
    ensures Measure(c, Do(c, s, a)) >= Measure(c, s) + (if Useful(c, s, a) then 1 else 0)
  {
    var s', i := Do(c, s, a), a.i;
    if a.Step? {
      assert TraceeOk(c, i, s.threads[i], s.tracees[i]);
      if Futile(c, s, i) { FutileWeight(c, s, i); } else { UsefulWeight(c, s, i); }
      forall j | 0 <= j < c.Threads() && j != i ensures WeightOf(c, s', j) >= WeightOf(c, s, j) {
        OtherWeight(c, s, i, j);
      }
    } else {
      StopWeight(c, s, a);
    }
    SumGrows(Weights(c, s), Weights(c, s'), i);
  }

  // ----- useful steps are bounded

  ghost predicate UsefulStepped(c: Config, run: seq<State>, k: nat)
    requires c.Valid() && k + 1 < |run| && Sized(c, run[k])
  {
    exists a :: Enabled(c, run[k], a) && Useful(c, run[k], a) && run[k + 1] == Do(c, run[k], a)
  }

  /** How many of the first k steps of a run are useful. */
  ghost function UsefulSteps(c: Config, run: seq<State>, k: nat): nat
    requires c.Valid() && Run(c, run) && k < |run|
  {
    if k == 0 then 0 else UsefulSteps(c, run, k - 1) + (if UsefulStepped(c, run, k - 1) then 1 else 0)
  }

  lemma SteppedRaises(c: Config, run: seq<State>, k: nat, s: State, s': State)
    requires c.Valid() && k + 1 < |run| && s == run[k] && s' == run[k + 1] && Inv(c, s) && Stepped(c, run, k)
    ensures Sized(c, s') && Measure(c, s') >= Measure(c, s) + (if UsefulStepped(c, run, k) then 1 else 0)
  {
    if UsefulStepped(c, run, k) {
      var a :| Enabled(c, s, a) && Useful(c, s, a) && s' == Do(c, s, a);
      StepRaises(c, s, a);
    } else {
      var a :| Enabled(c, s, a) && s' == Do(c, s, a);
      StepRaises(c, s, a);
    }
  }

  lemma {:induction false} UsefulStepsCount(c: Config, run: seq<State>, k: nat)
    requires c.Valid() && Run(c, run) && k < |run|
    ensures UsefulSteps(c, run, k) <= Measure(c, run[k])
  {
    if k > 0 {
      UsefulStepsCount(c, run, k - 1);
      RunInv(c, run, k - 1);
      SteppedRaises(c, run, k - 1, run[k - 1], run[k]);
    }
  }

  /** Every run, however long it spins, has a bounded number of useful steps. */
  lemma {:induction false} UsefulStepsBounded(c: Config, run: seq<State>)
    requires c.Valid() && Run(c, run)
    ensures UsefulSteps(c, run, |run| - 1) <= DONE * c.Threads()
  {
    UsefulStepsCount(c, run, |run| - 1);
    RunInv(c, run, |run| - 1);
    MeasureBound(c, run[|run| - 1]);
  }

  lemma {:induction false} UsefulStepsRise(c: Config, run: seq<State>, k: nat, l: nat, u: nat)
    requires c.Valid() && Run(c, run) && k <= u < l < |run| && UsefulStepped(c, run, u)
    ensures UsefulSteps(c, run, l) > UsefulSteps(c, run, k)
    decreases l - k
  {
    if u < l - 1 {
      UsefulStepsRise(c, run, k, l - 1, u);
    } else if k < u {
      UsefulStepsKeep(c, run, k, u);
    }
  }

  lemma {:induction false} UsefulStepsKeep(c: Config, run: seq<State>, k: nat, l: nat)
    requires c.Valid() && Run(c, run) && k <= l < |run|
    ensures UsefulSteps(c, run, l) >= UsefulSteps(c, run, k)
  {
    if k < l { UsefulStepsKeep(c, run, k, l - 1); }
  }

  ghost predicate UsefulWithin(c: Config, run: seq<State>, k: nat, b: nat)
    requires c.Valid() && Run(c, run) && k + b < |run|
  {
    exists u :: k <= u < k + b && UsefulStepped(c, run, u)
  }

  /** A scheduler that lets someone take a useful step at least once in b steps. */
  ghost predicate Fair(c: Config, run: seq<State>, b: nat)
    requires c.Valid() && Run(c, run)
  {
    forall k :: 0 <= k < |run| - b ==> UsefulWithin(c, run, k, b)
  }

  lemma {:induction false} Scaled(b: nat, x: nat, y: nat)
    requires x <= y
    ensures b * x <= b * y && b * (x + 1) == b * x + b
  {
    if x < y { Scaled(b, x, y - 1); }
  }

  lemma {:induction false} UsefulSomewhere(c: Config, run: seq<State>, b: nat, j: nat, k: nat)
    requires c.Valid() && Run(c, run) && Fair(c, run, b) && k == j + b && k < |run|
    ensures UsefulSteps(c, run, k) > UsefulSteps(c, run, j)
  {
    assert UsefulWithin(c, run, j, b);
    var u :| j <= u < j + b && UsefulStepped(c, run, u);
    UsefulStepsRise(c, run, j, k, u);
  }

  lemma {:induction false} FairCount(c: Config, run: seq<State>, b: nat, k: nat)
    requires c.Valid() && Run(c, run) && b > 0 && Fair(c, run, b) && k < |run|
    ensures k < b * (UsefulSteps(c, run, k) + 1)
  {
    if k < b {
      Scaled(b, 1, UsefulSteps(c, run, k) + 1);
    } else {
      var j := k - b;
      FairCount(c, run, b, j);
      UsefulSomewhere(c, run, b, j, k);
      Scaled(b, UsefulSteps(c, run, j) + 1, UsefulSteps(c, run, k));
      Scaled(b, UsefulSteps(c, run, k), UsefulSteps(c, run, k));
    }
  }

  /** Under a fair scheduler every run ends. */
  lemma FairRunsEnd(c: Config, run: seq<State>, b: nat)
    requires c.Valid() && Run(c, run) && b > 0 && Fair(c, run, b)
    ensures |run| <= b * (DONE * c.Threads() + 1)
  {
    var u, n := UsefulSteps(c, run, |run| - 1), DONE * c.Threads();
    FairCount(c, run, b, |run| - 1);
    UsefulStepsBounded(c, run);
    Scaled(b, u + 1, n + 1);
  }

  // ----- no deadlock

  /** How many steps the holder of the lock has left in a futile look. */
  ghost function LookLeft(c: Config, s: State): nat
    requires Sized(c, s)
  {
    if s.lock.LockedBy? && s.lock.i < c.Threads() && Futile(c, s, s.lock.i) then
      (if s.threads[s.lock.i].at in {READ_FLAG, READ_DONE, READ_EXIT} then 2 else 1)
    else 0
  }

  /** The most steps it takes to the end if a useful one is taken whenever there is one. */
  ghost function Left(c: Config, s: State): int
    requires Sized(c, s)
  {
    3 * (DONE * c.Threads() - Measure(c, s)) + LookLeft(c, s)
  }

  /** A useful step, or one that ends a futile look of the holder of the lock. */
  ghost predicate Moves(c: Config, s: State, a: Action)
    requires Sized(c, s)
  {
    Enabled(c, s, a) && (Useful(c, s, a) || s.lock == LockedBy(a.i))
  }

  lemma MoveLowers(c: Config, s: State, a: Action)
    requires c.Valid() && Inv(c, s) && Moves(c, s, a)
    ensures 0 <= Left(c, Do(c, s, a)) < Left(c, s)
  {
    StepRaises(c, s, a);
    DoInv(c, s, a);
    MeasureBound(c, Do(c, s, a));
    if !Useful(c, s, a) { LookEnds(c, s, a.i); }
  }

  lemma LookEnds(c: Config, s: State, i: nat)
    requires c.Valid() && Inv(c, s) && i < c.Threads() && CanStep(c, s, i) && Futile(c, s, i) && s.lock == LockedBy(i)
    ensures LookLeft(c, ThreadStep(c, s, i)) < LookLeft(c, s)
  {
    assert Holds(s.threads[i].at);
  }

  /** The holder of the lock, or its tracee, can move. */
  lemma HolderMoves(c: Config, s: State) returns (a: Action)
    requires c.Valid() && Inv(c, s) && s.lock.LockedBy?
    ensures Moves(c, s, a) && a.i == s.lock.i && (s.tracees[a.i] == Resumed || a.Step?)
  {
    var i := s.lock.i;
    assert Holds(s.threads[i].at) && TraceeOk(c, i, s.threads[i], s.tracees[i]);
    assert ThreadOk(c, i, s.threads[i], Main(s), s.traceDone);
    if s.threads[i].at == WAIT_BREAK && s.tracees[i] == Resumed {
      LiveArmed(c, s, i);
      a := HitBreak(i, i, c.retAddrs[i]);
    } else {
      a := Step(i);
    }
  }

  /** A thread that is not counted yet can move once the flag is up and the lock is free. */
  lemma UncountedMoves(c: Config, s: State, i: nat)
    requires c.Valid() && Inv(c, s) && i < c.Threads() && s.lock == Unlocked && s.tracees[i] != Free
    requires !Counted(s.threads[i]) && (i == 0 || s.flag == 1)
    ensures Moves(c, s, Step(i))
  {
    assert !Holds(s.threads[i].at) && TraceeOk(c, i, s.threads[i], s.tracees[i]);
    assert ThreadOk(c, i, s.threads[i], Main(s), s.traceDone);
  }

  lemma CountedMoves(c: Config, s: State, i: nat)
    requires c.Valid() && Inv(c, s) && i < c.Threads() && s.lock == Unlocked && s.traceDone == c.Threads()
    requires Counted(s.threads[i]) && s.threads[i].at != EXITED && (i == 0 || s.flag == 0)
    ensures Moves(c, s, Step(i))
  {
    assert !Holds(s.threads[i].at) && ThreadOk(c, i, s.threads[i], Main(s), s.traceDone);
  }

  lemma UncountedExists(threads: seq<Thread>) returns (j: nat)
    requires CountOf(threads) < |threads|
    ensures j < |threads| && !Counted(threads[j])
  {
    j := |threads| - 1;
    if Counted(threads[j]) {
      CountBound(threads[..j]);
      var l := UncountedExists(threads[..j]);
      j := l;
    }
  }

  predicate AllExited(s: State) { forall i :: 0 <= i < |s.threads| ==> s.threads[i].at == EXITED }

  predicate NoneFree(s: State) { Free !in s.tracees }

  /** As long as every tracee has been stopped once, someone can move until all threads have exited. */
  lemma SomeMove(c: Config, s: State) returns (a: Action)
    requires c.Valid() && Inv(c, s) && NoneFree(s) && !AllExited(s)
    ensures Moves(c, s, a)
  {
    assert ThreadOk(c, 0, s.threads[0], Main(s), s.traceDone);
    if s.lock.LockedBy? {
      a := HolderMoves(c, s);
    } else if !Counted(s.threads[0]) {
      UncountedMoves(c, s, 0);
      a := Step(0);
    } else if s.traceDone < c.Threads() {
      var j := UncountedExists(s.threads);
      UncountedMoves(c, s, j);
      a := Step(j);
    } else {
      CountBound(s.threads);
      var i: nat := 0;
      if s.threads[0].at == EXITED { i :| 0 <= i < c.Threads() && s.threads[i].at != EXITED; }
      CountedMoves(c, s, i);
      a := Step(i);
    }
  }

  lemma NoDeadlock(c: Config, run: seq<State>, k: nat)
    requires c.Valid() && Run(c, run) && k < |run| && NoneFree(run[k])
    ensures (exists a :: Moves(c, run[k], a)) || AllExited(run[k])
  {
    RunInv(c, run, k);
    if !AllExited(run[k]) { var a := SomeMove(c, run[k]); }
  }

  // ----- going on with a run

  function Last(run: seq<State>): State
    requires run != []
  {
    run[|run| - 1]
  }

  /** A run that goes on from another one. */
  ghost predicate GoesOn(c: Config, run: seq<State>, run': seq<State>)
    requires c.Valid()
  {
    Run(c, run) && Run(c, run') && run <= run'
  }

  lemma SteppedStill(c: Config, run: seq<State>, run': seq<State>, k: nat)
    requires c.Valid() && k + 1 < |run| && run <= run' && Stepped(c, run, k)
    ensures Stepped(c, run', k)
  {
    assert run'[k] == run[k] && run'[k + 1] == run[k + 1];
  }

  lemma RunOn(c: Config, run: seq<State>, s: State, s': State, run': seq<State>)
    requires c.Valid() && Run(c, run) && s == Last(run) && Next(c, s, s') && Sized(c, s') && run' == run + [s']
    ensures Run(c, run')
  {
    forall k | 0 <= k < |run'| - 1 ensures Stepped(c, run', k) {
      if k < |run| - 1 { SteppedStill(c, run, run', k); }
    }
  }

  lemma OneMore(c: Config, run: seq<State>, s: State, a: Action) returns (run': seq<State>)
    requires c.Valid() && Run(c, run) && s == Last(run) && Enabled(c, s, a)
    ensures GoesOn(c, run, run') && run' == run + [Do(c, s, a)]
  {
    var s' := Do(c, s, a);
    assert Next(c, s, s');
    run' := run + [s'];
    RunOn(c, run, s, s', run');
  }

  lemma StayStopped(c: Config, s: State, a: Action)
    requires c.Valid() && Sized(c, s) && Enabled(c, s, a) && NoneFree(s)
    ensures NoneFree(Do(c, s, a))
  {
  }

  /** A run with every tracee stopped once can be brought to its end, in a bounded number of steps. */
  lemma {:induction false} CanFinish(c: Config, run: seq<State>) returns (run': seq<State>)
    requires c.Valid() && Run(c, run) && NoneFree(Last(run))
    ensures GoesOn(c, run, run') && AllExited(Last(run')) && Last(run').suspended
    ensures |run'| <= |run| + Left(c, Last(run))
    decreases Left(c, Last(run))
  {
    var s := Last(run);
    RunInv(c, run, |run| - 1);
    if AllExited(s) {
      run' := run;
      MeasureBound(c, s);
    } else {
      var a := SomeMove(c, s);
      MoveLowers(c, s, a);
      StayStopped(c, s, a);
      var next := OneMore(c, run, s, a);
      run' := CanFinish(c, next);
    }
  }
}
