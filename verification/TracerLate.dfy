/** What becomes of a tracee that has not run into the compiler's trap when the tracer removes it. */
module TracerLate {
  import opened TracerText
  import opened Tracer
  import opened TracerInvariant
  import opened TracerTheorems
  import opened TracerProgress

  /** A free tracee stays free unless it is the one that is stopped. */
  lemma StaysFree(c: Config, s: State, a: Action, i: nat)
    requires c.Valid() && Inv(c, s) && Enabled(c, s, a) && i < c.Threads() && s.tracees[i] == Free
    requires a.Step? || a.i != i
    ensures Do(c, s, a).tracees[i] == Free
  {
    assert TraceeOk(c, i, s.threads[i], s.tracees[i]);
  }

  /** The main thread, or whoever keeps it from the lock, can move until its breakpoint is in the text. */
  lemma TowardsBreakpoint(c: Config, s: State, i: nat) returns (a: Action)
    requires c.Valid() && Inv(c, s) && POKE_NOP <= Main(s) < CONTINUE && i < c.Threads() && s.tracees[i] == Free
    ensures Moves(c, s, a) && POKE_NOP <= Main(Do(c, s, a)) <= CONTINUE && Do(c, s, a).tracees[i] == Free
  {
    assert ThreadOk(c, 0, s.threads[0], Main(s), s.traceDone) && TraceeOk(c, 0, s.threads[0], s.tracees[0]);
    if s.lock.LockedBy? {
      a := HolderMoves(c, s);
    } else {
      UncountedMoves(c, s, 0);
      a := Step(0);
    }
    StaysFree(c, s, a, i);
  }

  lemma {:induction false} ArmMain(c: Config, run: seq<State>, i: nat) returns (run': seq<State>)
    requires c.Valid() && Run(c, run) && POKE_NOP <= Main(Last(run)) <= CONTINUE
    requires i < c.Threads() && Last(run).tracees[i] == Free
    ensures GoesOn(c, run, run') && Main(Last(run')) == CONTINUE && Last(run').tracees[i] == Free
    decreases Left(c, Last(run))
  {
    var s := Last(run);
    RunInv(c, run, |run| - 1);
    run' := run;
    if Main(s) < CONTINUE {
      var a := TowardsBreakpoint(c, s, i);
      MoveLowers(c, s, a);
      var next := OneMore(c, run, s, a);
      run' := ArmMain(c, next, i);
    }
  }

  /** A free tracee can be seized, or stopped by the main thread's breakpoint in any frame. */
  lemma StopOne(c: Config, s: State, j: nat, frame: nat) returns (a: Action)
    requires c.Valid() && Inv(c, s) && Main(s) == CONTINUE && j < c.Threads() && s.tracees[j] == Free
    requires InText(c.text, frame)
    ensures Moves(c, s, a) && a.i == j && Main(Do(c, s, a)) == CONTINUE
    ensures a.Step? || Framed(Do(c, s, a), j, frame)
  {
    assert TraceeOk(c, j, s.threads[j], s.tracees[j]);
    LiveArmed(c, s, 0);
    a := if s.threads[j].at == ATTACH then Step(j) else HitBreak(j, 0, frame);
  }

  lemma {:induction false} StopAll(c: Config, run: seq<State>, i: nat, f: nat) returns (run': seq<State>)
    requires c.Valid() && Run(c, run) && Main(Last(run)) == CONTINUE && InText(c.text, f)
    requires i < c.Threads() && (Last(run).tracees[i] == Free || Framed(Last(run), i, f))
    ensures GoesOn(c, run, run') && NoneFree(Last(run')) && Framed(Last(run'), i, f)
    decreases Left(c, Last(run))
  {
    var s := Last(run);
    RunInv(c, run, |run| - 1);
    run' := run;
    if j :| 0 <= j < c.Threads() && s.tracees[j] == Free {
      var a := StopOne(c, s, j, if j == i then f else c.retAddrs[j]);
      if s.tracees[i] != Free { FramedStep(c, s, a, i, f); }
      else if j != i || a.Step? { StaysFree(c, s, a, i); }
      MoveLowers(c, s, a);
      var next := OneMore(c, run, s, a);
      run' := StopAll(c, next, i, f);
    }
  }

  /** A tracee that is still free once the trap is about to go can be stopped by the main thread's breakpoint in
      any frame whatever, and then the process is suspended with it at the address that frame returns to. */
  lemma LateTraceeAnywhere(c: Config, run: seq<State>, i: nat, f: nat) returns (run': seq<State>)
    requires c.Valid() && Run(c, run) && POKE_NOP <= Main(Last(run)) <= CONTINUE
    requires i < c.Threads() && Last(run).tracees[i] == Free && InText(c.text, f)
    ensures GoesOn(c, run, run') && Last(run').suspended && StoppedAt(Last(run').tracees[i], f)
  {
    var armed := ArmMain(c, run, i);
    var stopped := StopAll(c, armed, i, f);
    run' := CanFinish(c, stopped);
    StaysFramed(c, run', |stopped| - 1, |run'| - 1, i, f);
    SuspendedAtReturnAddresses(c, run', |run'| - 1);
  }

  /** Every tracee of the suspended process stands at its own return address. */
  ghost predicate AtOwnReturns(c: Config, s: State) {
    |s.tracees| == c.Threads() && forall i :: 0 <= i < c.Threads() ==> StoppedAt(s.tracees[i], c.retAddrs[i])
  }

  /** However a run goes on, if it comes to suspend the process then with every tracee at its own return address. */
  ghost predicate EndsAtOwnReturns(c: Config, run: seq<State>)
    requires c.Valid()
  {
    forall run' :: GoesOn(c, run, run') && Last(run').suspended ==> AtOwnReturns(c, Last(run'))
  }

  lemma SomewhereElse(c: Config, a: nat) returns (f: nat)
    requires |c.text| > 8
    ensures InText(c.text, f) && f != a
  {
    f := if a == 0 then 1 else 0;
  }

  /** The process is sure to be suspended with all its threads at their own return addresses if and only if all of
      them have run into the trap when the main thread removes it. */
  lemma OwnReturnsIff(c: Config, run: seq<State>)
    requires c.Valid() && |c.text| > 8 && Run(c, run) && Main(Last(run)) == POKE_NOP
    ensures EndsAtOwnReturns(c, run) <==> NoneFree(Last(run))
  {
    var s, k := Last(run), |run| - 1;
    if NoneFree(s) {
      forall run' | GoesOn(c, run, run') && Last(run').suspended ensures AtOwnReturns(c, Last(run')) {
        assert run'[k] == s;
        forall i | 0 <= i < c.Threads() ensures StoppedAt(Last(run').tracees[i], c.retAddrs[i]) {
          TrappedAtOwnReturn(c, run', k, |run'| - 1, i);
        }
        assert Sized(c, Last(run'));
      }
    } else {
      var i :| 0 <= i < |s.tracees| && s.tracees[i] == Free;
      var f := SomewhereElse(c, c.retAddrs[i]);
      var run' := LateTraceeAnywhere(c, run, i, f);
    }
  }

  /** The main thread is at p, the text untouched, and all tracees but its own are free. */
  ghost predicate Ahead(c: Config, s: State, p: nat)
    requires c.Valid()
  {
    && Sized(c, s) && Main(s) == p && s.text == c.text
    && forall i :: 0 < i < c.Threads() ==> s.tracees[i] == Free
  }

  /** A step of the main thread, or its tracee running into the trap. */
  lemma AheadNext(c: Config, s: State, p: nat, a: Action)
    requires c.Valid() && Ahead(c, s, p) && p < POKE_NOP && Enabled(c, s, a) && (a == Step(0) || a == HitTrap(0))
    ensures Ahead(c, Do(c, s, a), if a.Step? then p + 1 else p)
  {
  }

  /** The main thread may come to remove the trap with every other tracee still free. */
  lemma MainAhead(c: Config) returns (run: seq<State>)
    requires c.Valid()
    ensures Run(c, run) && Ahead(c, Last(run), POKE_NOP)
  {
    var s0 := Start(c);
    AheadNext(c, s0, ATTACH, Step(0));
    var attached := OneMore(c, [s0], s0, Step(0));
    var s1 := Last(attached);
    AheadNext(c, s1, WAIT_TRAP, HitTrap(0));
    var trapped := OneMore(c, attached, s1, HitTrap(0));
    run := MainKnows(c, trapped, Last(trapped));
  }

  lemma MainKnows(c: Config, run: seq<State>, s: State) returns (run': seq<State>)
    requires c.Valid() && Run(c, run) && s == Last(run) && Ahead(c, s, WAIT_TRAP)
    requires StoppedAt(s.tracees[0], c.trap + c.Advance())
    ensures GoesOn(c, run, run') && Ahead(c, Last(run'), POKE_NOP)
  {
    AheadNext(c, s, WAIT_TRAP, Step(0));
    var known := OneMore(c, run, s, Step(0));
    var s' := Last(known);
    assert s'.threads[0].brk == c.trap;
    AheadNext(c, s', PEEK_TRAP, Step(0));
    run' := OneMore(c, known, s', Step(0));
  }

  /** A process of several threads can be suspended with the second one anywhere in the text. */
  lemma SecondThreadElsewhere(c: Config, f: nat) returns (run: seq<State>)
    requires c.Valid() && c.Threads() > 1 && InText(c.text, f)
    ensures Run(c, run) && Last(run).suspended && StoppedAt(Last(run).tracees[1], f)
  {
    var ahead := MainAhead(c);
    run := LateTraceeAnywhere(c, ahead, 1, f);
  }
}
