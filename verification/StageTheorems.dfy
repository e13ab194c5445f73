/** What holds in every run of the restore stages. */
module StageTheorems {
  import opened StageBarrier
  import opened StageInvariant

  // ----- safety

  /** No part begins to restore before every process has finished FORKING, the unborn included. */
  lemma RestoreAfterForking(c: Config, run: seq<State>, k: nat, p: nat, q: nat)
    requires Run(c, run) && k < |run| && p < |c.parts| && q < |c.parts| && c.parts[q].main
    requires run[k].at[p] >= RESTORING
    ensures run[k].at[q] >= WAIT_FORKING
  {
    RunInv(c, run, k);
    var s := run[k];
    assert Know(c, p, s.at[p], s.at[0], s.criu) && Passed(c, q, s.at[q], s.at[0], s.criu);
  }

  /** criu goes on from its long wait only after every thread, zombie and helper has finished RESTORE. */
  lemma CriuAfterRestore(c: Config, run: seq<State>, k: nat, q: nat)
    requires Run(c, run) && k < |run| && q < |c.parts| && run[k].criu > AWAIT_RESTORE
    ensures run[k].at[q] >= WAIT_RESTORE
  {
    RunInv(c, run, k);
    assert Passed(c, q, run[k].at[q], run[k].at[0], run[k].criu);
  }

  /** The root task goes on in RESTORE only after everyone but its own threads has finished the stage. */
  lemma RootAfterOthers(c: Config, run: seq<State>, k: nat, q: nat)
    requires Run(c, run) && k < |run| && q < |c.parts| && run[k].at[0] > WAIT_OTHERS && !c.OfRoot(q)
    ensures run[k].at[q] >= WAIT_RESTORE
  {
    RunInv(c, run, k);
    assert Passed(c, q, run[k].at[q], run[k].at[0], run[k].criu);
  }

  /** The later stages follow each other in the same way for all threads that stay alive. */
  lemma LaterStages(c: Config, run: seq<State>, k: nat, p: nat, q: nat)
    requires Run(c, run) && k < |run| && p < |c.parts| && q < |c.parts| && c.Living(p) && c.Living(q)
    ensures run[k].at[p] >= SIGCHLD ==> run[k].at[q] >= WAIT_RESTORE
    ensures run[k].at[p] >= CREDS ==> run[k].at[q] >= WAIT_SIGCHLD
    ensures run[k].at[p] >= OVER ==> run[k].at[q] >= WAIT_CREDS
  {
    RunInv(c, run, k);
    var s := run[k];
    assert Know(c, p, s.at[p], s.at[0], s.criu) && Passed(c, q, s.at[q], s.at[0], s.criu);
  }

  /** A parent that waits for a child to die never finds the stage still to be RESTORE. */
  lemma NoChildDiesEarly(c: Config, run: seq<State>, k: nat, q: nat)
    requires Run(c, run) && k < |run| && q < |c.parts| && run[k].at[q] == OVER
    ensures run[k].start != Restore
  {
    RunInv(c, run, k);
    OverIsLate(c, run[k]);
  }

  /** The counter is never negative, and it is the number of parts still to finish the stage it was set for. */
  lemma CounterIsExact(c: Config, run: seq<State>, k: nat)
    requires Run(c, run) && k < |run|
    ensures run[k].nrInProgress == Count(PendingBits(c, CountedStage(c.ns, run[k].criu, run[k].at[0]), run[k].at))
  {
    RunInv(c, run, k);
  }

  // ----- no deadlock

  /** A maker that has gone on has made everyone it is to make. */
  ghost predicate Made(c: Config, s: State)
    requires Sized(c, s)
  {
    forall q :: 0 < q < |s.at| ==> MadeOne(c, s, q)
  }

  predicate MadeOne(c: Config, s: State, q: nat)
    requires Sized(c, s) && 0 < q < |s.at|
  {
    c.ValidPart(q) && (s.at[c.parts[q].maker] > (if c.parts[q].main then FORKING else SPAWNING) ==> s.at[q] > UNBORN)
  }

  lemma MadeStep(c: Config, s: State, a: Action)
    requires Sized(c, s) && Made(c, s) && Enabled(c, s, a) && Leaders(c.ns, s.at[0], s.criu)
    requires a.Move? && a.p != 0 ==>
               !(ROOT_TASK <= s.at[a.p] <= WAIT_PREPARE_NS) && s.at[a.p] != SET_RESTORE && s.at[a.p] != WAIT_OTHERS
    ensures Made(c, Do(c, s, a))
  {
    var s' := Do(c, s, a);
    forall q | 0 < q < |s'.at| ensures MadeOne(c, s', q) {
      assert MadeOne(c, s, q) && c.ValidPart(q);
    }
  }

  ghost predicate Full(c: Config, s: State) { Inv(c, s) && Made(c, s) }

  lemma FullStep(c: Config, s: State, a: Action)
    requires Full(c, s) && Enabled(c, s, a)
    ensures Full(c, Do(c, s, a))
  {
    DoInv(c, s, a);
    if a.Move? { assert Know(c, a.p, s.at[a.p], s.at[0], s.criu); }
    MadeStep(c, s, a);
  }

  ghost predicate SomeEnabled(c: Config, s: State)
    requires Sized(c, s)
  {
    exists a :: Enabled(c, s, a)
  }

  /** A process in FORKING forks or goes on. */
  lemma ForkerMoves(c: Config, s: State, p: nat)
    requires Full(c, s) && p < |s.at| && s.at[p] == FORKING
    ensures SomeEnabled(c, s)
  {
    if CanStep(c, s, p) {
      assert Enabled(c, s, Move(p));
    } else {
      var q :| 0 < q < |s.at| && c.parts[q].main && c.parts[q].maker == p && s.at[q] == UNBORN;
      assert MadeOne(c, s, q);
      assert Enabled(c, s, Birth(q));
    }
  }

  lemma SpawnerMoves(c: Config, s: State, p: nat)
    requires Full(c, s) && p < |s.at| && s.at[p] == SPAWNING
    ensures SomeEnabled(c, s)
  {
    if CanStep(c, s, p) {
      assert Enabled(c, s, Move(p));
    } else {
      var q :| 0 < q < |s.at| && !c.parts[q].main && c.parts[q].maker == p && s.at[q] == UNBORN;
      assert MadeOne(c, s, q);
      assert Enabled(c, s, Birth(q));
    }
  }

  /** A process that has not finished FORKING, the first of them, can move or its maker can. */
  lemma {:induction false} ForkingMoves(c: Config, s: State, p: nat)
    requires Full(c, s) && 0 < p < |s.at| && c.parts[p].main && s.at[p] <= END_FORKING && FORKING <= s.at[0]
    ensures SomeEnabled(c, s)
    decreases p
  {
    assert Know(c, p, s.at[p], s.at[0], s.criu) && MadeOne(c, s, p);
    var m := c.parts[p].maker;
    if s.at[p] == FORKING {
      ForkerMoves(c, s, p);
    } else if s.at[p] == END_FORKING {
      assert Enabled(c, s, Move(p));
    } else if m == 0 {
      ForkerMoves(c, s, 0);
    } else {
      ForkingMoves(c, s, m);
    }
  }

  /** A part that has not finished RESTORE once the stage is on, the first of them, can move or its maker can. */
  lemma {:induction false} RestoringMoves(c: Config, s: State, p: nat)
    requires Full(c, s) && 0 < p < |s.at| && s.at[p] <= END_RESTORE && s.at[0] >= RESTORING && s.start == Restore
    requires c.OfRoot(p) ==> s.at[0] >= SPAWNING
    ensures SomeEnabled(c, s)
    decreases p
  {
    assert Know(c, p, s.at[p], s.at[0], s.criu) && Passed(c, p, s.at[p], s.at[0], s.criu) && MadeOne(c, s, p);
    var m := c.parts[p].maker;
    if s.at[p] == SPAWNING {
      SpawnerMoves(c, s, p);
    } else if s.at[p] > UNBORN {
      assert Enabled(c, s, Move(p));
    } else if m == 0 {
      SpawnerMoves(c, s, 0);
    } else {
      RestoringMoves(c, s, m);
    }
  }

  /** After RESTORE a zombie or helper that is not dead, the last of them, can move. */
  lemma {:induction false} DyingMoves(c: Config, s: State, p: nat)
    requires Full(c, s) && p < |s.at| && !c.Living(p) && s.at[p] < OVER && s.criu >= AWAIT_SIGCHLD
    ensures SomeEnabled(c, s)
    decreases |s.at| - p
  {
    assert Know(c, p, s.at[p], s.at[0], s.criu) && Passed(c, p, s.at[p], s.at[0], s.criu);
    if q :| 0 <= q < |s.at| && c.DyingChild(p, q) && s.at[q] < OVER {
      assert MadeOne(c, s, q);
      DyingMoves(c, s, q);
    } else {
      forall q | 0 <= q < |s.at| && c.DyingChild(p, q)
          ensures s.at[q] == OVER { assert Know(c, q, s.at[q], s.at[0], s.criu); }
      if c.ExpectsDeath(p) { var q :| 0 <= q < |c.parts| && c.DyingChild(p, q); assert s.at[q] == OVER; }
      assert Enabled(c, s, Move(p));
    }
  }

  /** After RESTORE a living part that the counter still waits for, or whose stage has changed, can move. */
  lemma LivingMoves(c: Config, s: State, p: nat)
    requires Full(c, s) && p < |s.at| && c.Living(p) && s.criu >= AWAIT_SIGCHLD && s.at[p] < OVER
    requires s.at[p] <= END_SIGCHLD || (s.at[p] <= END_CREDS && s.start == RestoreCreds) || s.start == Complete
    ensures SomeEnabled(c, s)
  {
    assert Know(c, p, s.at[p], s.at[0], s.criu) && Passed(c, p, s.at[p], s.at[0], s.criu);
    if q :| 0 <= q < |s.at| && c.DyingChild(p, q) && s.at[q] < OVER {
      DyingMoves(c, s, q);
    } else {
      forall q | 0 <= q < |s.at| && c.DyingChild(p, q)
          ensures s.at[q] == OVER { assert Know(c, q, s.at[q], s.at[0], s.criu); }
      assert Enabled(c, s, Move(p));
    }
  }

  lemma {:induction false} PendingExists(bits: seq<bool>) returns (p: nat)
    requires Count(bits) > 0
    ensures p < |bits| && bits[p]
  {
    p := |bits| - 1;
    if !bits[p] { p := PendingExists(bits[..p]); }
  }

  lemma {:induction false} ExtraExists(a: seq<bool>, b: seq<bool>) returns (p: nat)
    requires |a| == |b| && Count(b) > Count(a)
    ensures p < |a| && b[p] && !a[p]
  {
    p := |a| - 1;
    if !(b[p] && !a[p]) { p := ExtraExists(a[..p], b[..p]); }
  }

  /** criu waits for RESTORE to finish, and FORKING is still on. */
  lemma MovesInForking(c: Config, s: State)
    requires Full(c, s) && s.criu == AWAIT_RESTORE && s.at[0] < RESTORING
    ensures SomeEnabled(c, s)
  {
    if s.at[0] == FORKING {
      ForkerMoves(c, s, 0);
    } else if s.at[0] == END_FORKING && s.nrInProgress > 1 {
      CountOne(|s.at|);
      var p := ExtraExists(NoBits(|s.at|)[0 := true], PendingBits(c, Forking, s.at));
      ForkingMoves(c, s, p);
    } else {
      assert Enabled(c, s, Move(0));
    }
  }

  /** criu waits for RESTORE to finish, and RESTORE is on. */
  lemma MovesInRestore(c: Config, s: State)
    requires Full(c, s) && s.criu == AWAIT_RESTORE && s.at[0] >= RESTORING && s.nrInProgress > 0
    ensures SomeEnabled(c, s)
  {
    if s.at[0] == SPAWNING {
      SpawnerMoves(c, s, 0);
    } else if s.at[0] == WAIT_OTHERS && s.nrInProgress > Count(c.RootThreads()) {
      var p := ExtraExists(c.RootThreads(), PendingBits(c, Restore, s.at));
      RestoringMoves(c, s, p);
    } else if s.at[0] <= END_RESTORE {
      assert Enabled(c, s, Move(0));
    } else {
      var p := PendingExists(PendingBits(c, Restore, s.at));
      RestoringMoves(c, s, p);
    }
  }

  /** Until criu has finished and every part is over, something can happen. */
  lemma NeverStuck(c: Config, s: State)
    requires Full(c, s) && (s.criu < FINISHED || exists p :: 0 <= p < |s.at| && s.at[p] < OVER)
    ensures SomeEnabled(c, s)
  {
    var root, e := s.at[0], CountedStage(c.ns, s.criu, s.at[0]);
    if CanCriu(c, s) {
      assert Enabled(c, s, Criu);
    } else if s.criu == FINISHED {
      var p :| 0 <= p < |s.at| && s.at[p] < OVER;
      if c.Living(p) { LivingMoves(c, s, p); } else { DyingMoves(c, s, p); }
    } else if s.criu == AWAIT_RESTORE {
      if root < RESTORING { MovesInForking(c, s); } else { MovesInRestore(c, s); }
    } else {
      var p := PendingExists(PendingBits(c, e, s.at));
      assert Pending(c, e, p, s.at[p]);
      if s.criu <= AWAIT_NS { assert Enabled(c, s, Move(0)); } else { LivingMoves(c, s, p); }
    }
  }

  // ----- every run ends, and ends well

  function Left(at: seq<nat>): int {
    if at == [] then 0 else Left(at[..|at| - 1]) + OVER - at[|at| - 1]
  }

  lemma {:induction false} LeftUpdate(at: seq<nat>, p: nat, r: nat)
    requires p < |at|
    ensures Left(at[p := r]) == Left(at) + at[p] - r
  {
    var n := |at| - 1;
    if p == n {
      assert at[p := r][..n] == at[..n];
    } else {
      assert at[p := r][..n] == at[..n][p := r];
      LeftUpdate(at[..n], p, r);
    }
  }

  lemma {:induction false} LeftBounds(at: seq<nat>)
    requires forall p :: 0 <= p < |at| ==> at[p] <= OVER
    ensures 0 <= Left(at) <= OVER * |at|
  {
    if at != [] { LeftBounds(at[..|at| - 1]); }
  }

  /** How many steps are left at most. */
  function Measure(s: State): int { FINISHED - s.criu + Left(s.at) }

  lemma MeasureDrops(c: Config, s: State, a: Action)
    requires Inv(c, s) && Enabled(c, s, a)
    ensures Measure(Do(c, s, a)) < Measure(s)
  {
    var s' := Do(c, s, a);
    match a
    case Criu => if s.criu == FORK_ROOT { LeftUpdate(s.at, 0, ROOT_TASK); }
    case Move(p) => LeftUpdate(s.at, p, s'.at[p]);
    case Birth(q) => LeftUpdate(s.at, q, s'.at[q]);
  }

  lemma SteppedFull(c: Config, run: seq<State>, k: nat, s: State, s': State)
    requires k + 1 < |run| && s == run[k] && s' == run[k + 1] && Full(c, s) && Stepped(c, run, k)
    ensures Full(c, s') && Measure(s') < Measure(s)
  {
    var a :| Enabled(c, s, a) && s' == Do(c, s, a);
    FullStep(c, s, a);
    MeasureDrops(c, s, a);
  }

  lemma {:induction false} RunFull(c: Config, run: seq<State>, k: nat)
    requires Run(c, run) && k < |run|
    ensures Full(c, run[k]) && Measure(run[k]) <= Measure(Start(c)) - k
  {
    var s := run[k];
    if k == 0 {
      StartInv(c);
      forall q | 0 < q < |s.at| ensures MadeOne(c, s, q) { assert c.ValidPart(q); }
    } else {
      RunFull(c, run, k - 1);
      SteppedFull(c, run, k - 1, run[k - 1], s);
    }
  }

  /** Every run, however scheduled, is over after a bounded number of steps. */
  lemma RunsEnd(c: Config, run: seq<State>)
    requires Run(c, run)
    ensures |run| <= FINISHED + OVER * |c.parts| + 1
  {
    var k := |run| - 1;
    RunFull(c, run, k);
    forall p | 0 <= p < |run[k].at|
        ensures run[k].at[p] <= OVER { assert Know(c, p, run[k].at[p], run[k].at[0], run[k].criu); }
    LeftBounds(run[k].at);
    LeftBounds(Start(c).at);
  }

  /** A run that cannot go on has completed the restore: criu is done, all tasks run, zombies and helpers are dead. */
  lemma MaximalRunsComplete(c: Config, run: seq<State>)
    requires Run(c, run) && !SomeEnabled(c, run[|run| - 1])
    ensures var s := run[|run| - 1];
            s.criu == FINISHED && s.start == Complete && forall p :: 0 <= p < |s.at| ==> s.at[p] == OVER
  {
    var s := run[|run| - 1];
    RunFull(c, run, |run| - 1);
    if s.criu < FINISHED || exists p :: 0 <= p < |s.at| && s.at[p] < OVER { NeverStuck(c, s); }
    forall p | 0 <= p < |s.at| ensures s.at[p] == OVER { assert Know(c, p, s.at[p], s.at[0], s.criu); }
  }
}
