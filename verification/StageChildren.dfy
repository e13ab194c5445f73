/** Zombies and helpers are dead before their parents go on (criu/pie/restorer.c and criu/cr-restore.c). */
module StageChildren {
  import opened StageBarrier
  import opened StageInvariant

  /** Part q is a child of process p that is to die during the restore. */
  predicate DiesUnder(c: Config, p: nat, q: nat) {
    0 < q < |c.parts| && c.parts[q].main && c.parts[q].kind != Alive && c.parts[q].maker == p
  }

  /** A process that has gone on from RESTORE_SIGCHLD, or is over, has no dying child left. */
  ghost predicate ChildrenDead(c: Config, s: State, p: nat)
    requires Sized(c, s) && p < |s.at|
  {
    c.parts[p].main && s.at[p] > SIGCHLD ==> forall q :: 0 <= q < |c.parts| && DiesUnder(c, p, q) ==> s.at[q] == OVER
  }

  lemma OverStays(c: Config, s: State, a: Action, q: nat)
    requires Inv(c, s) && Enabled(c, s, a) && q < |s.at| && s.at[q] == OVER
    ensures Do(c, s, a).at[q] == OVER
  {
    assert Know(c, 0, s.at[0], s.at[0], s.criu);
  }

  /** Only its own step takes a process past the stage. */
  lemma PastByOwnStep(c: Config, s: State, a: Action, p: nat)
    requires Inv(c, s) && Enabled(c, s, a) && p < |s.at| && s.at[p] <= SIGCHLD && Do(c, s, a).at[p] > SIGCHLD
    ensures a == Move(p)
  {
  }

  lemma ChildrenStep(c: Config, s: State, a: Action, p: nat)
    requires Inv(c, s) && Enabled(c, s, a) && p < |s.at| && ChildrenDead(c, s, p)
    ensures ChildrenDead(c, Do(c, s, a), p)
  {
    var s' := Do(c, s, a);
    if c.parts[p].main && s'.at[p] > SIGCHLD {
      if s.at[p] <= SIGCHLD {
        PastByOwnStep(c, s, a, p);
        if s.at[p] == SIGCHLD { assert forall q :: 0 <= q < |s.at| && c.DyingChild(p, q) ==> s.at[q] == OVER; }
        else { assert !c.ExpectsDeath(p); }
      }
      forall q | 0 <= q < |c.parts| && DiesUnder(c, p, q) ensures s'.at[q] == OVER {
        assert c.DyingChild(p, q);
        OverStays(c, s, a, q);
      }
    }
  }

  lemma ChildrenStepped(c: Config, run: seq<State>, k: nat, s: State, s': State, p: nat)
    requires k + 1 < |run| && s == run[k] && s' == run[k + 1] && Inv(c, s) && Stepped(c, run, k)
    requires p < |s.at| && Sized(c, s') && ChildrenDead(c, s, p)
    ensures ChildrenDead(c, s', p)
  {
    var a :| Enabled(c, s, a) && s' == Do(c, s, a);
    ChildrenStep(c, s, a, p);
  }

  /** In every run: a process that reports RESTORE_SIGCHLD finished has seen every zombie and helper below it die. */
  lemma {:induction false} ChildrenDieFirst(c: Config, run: seq<State>, k: nat, p: nat)
    requires Run(c, run) && k < |run| && p < |c.parts|
    ensures ChildrenDead(c, run[k], p)
  {
    var s := run[k];
    if k > 0 {
      ChildrenDieFirst(c, run, k - 1, p);
      RunInv(c, run, k - 1);
      ChildrenStepped(c, run, k - 1, run[k - 1], s, p);
    }
  }

  /** When criu goes on from RESTORE_SIGCHLD every zombie and helper is dead, whoever its parent is. */
  lemma {:induction false} AllDeadBeforeCreds(c: Config, run: seq<State>, k: nat, q: nat)
    requires Run(c, run) && k < |run| && q < |c.parts| && c.parts[q].kind != Alive && run[k].criu > AWAIT_SIGCHLD
    ensures run[k].at[q] == OVER
    decreases q
  {
    var s := run[k];
    RunInv(c, run, k);
    assert q > 0 && c.ValidPart(q);
    var p := c.parts[q].maker;
    assert Passed(c, p, s.at[p], s.at[0], s.criu);
    if c.parts[p].kind != Alive { AllDeadBeforeCreds(c, run, k, p); }
    ChildrenDieFirst(c, run, k, p);
    assert DiesUnder(c, p, q);
  }
}
