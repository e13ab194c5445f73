/** What every step of the tracer protocol keeps. */
module TracerInvariant {
  import opened TracerText
  import opened Tracer

  predicate Holds(p: nat) {
    || RAISE_FLAG <= p <= UNLOCK_FLAG || READ_FLAG <= p <= UNLOCK_SPIN || PEEK_RETURN <= p <= UNLOCK_TURN
    || READ_DONE <= p <= UNLOCK_DONE || READ_EXIT <= p <= UNLOCK_EXIT || CLEAR_FLAG <= p <= UNLOCK_CLEAR
  }

  predicate Counted(t: Thread) { t.at >= UNLOCK_TURN }

  function CountOf(threads: seq<Thread>): nat {
    if threads == [] then 0
    else CountOf(threads[..|threads| - 1]) + (if Counted(threads[|threads| - 1]) then 1 else 0)
  }

  lemma {:induction false} CountBound(threads: seq<Thread>)
    ensures CountOf(threads) <= |threads|
    ensures CountOf(threads) == |threads| ==> forall i :: 0 <= i < |threads| ==> Counted(threads[i])
  {
    if threads != [] {
      var n := |threads| - 1;
      CountBound(threads[..n]);
      assert forall i :: 0 <= i < n ==> threads[i] == threads[..n][i];
    }
  }

  lemma {:induction false} CountUpdate(threads: seq<Thread>, i: nat, t: Thread)
    requires i < |threads|
    ensures CountOf(threads[i := t])
         == CountOf(threads) + (if Counted(t) then 1 else 0) - (if Counted(threads[i]) then 1 else 0)
  {
    var n := |threads| - 1;
    if i == n {
      assert threads[i := t][..n] == threads[..n];
    } else {
      assert threads[i := t][..n] == threads[..n][i := t];
      CountUpdate(threads[..n], i, t);
    }
  }

  /** What thread i knows of the main thread's point m and of the counter. */
  predicate ThreadOk(c: Config, i: nat, t: Thread, m: nat, done: nat) {
    var r := t.at;
    && r <= EXITED
    && (i == 0 ==> r == m && !(LOCK_EXIT <= r <= UNLOCK_EXIT))
    && (i != 0 ==> !(PEEK_TRAP <= r <= UNLOCK_FLAG) && !(SUSPEND <= r <= UNLOCK_CLEAR))
    && ((r == UNLOCK_SPIN && t.flagLocal != 0) || r >= REWIND_REGS ==> m >= UNLOCK_FLAG)
    && (r == UNLOCK_DONE ==> t.doneLocal <= done)
    && (r >= LOCK_EXIT ==> done == c.Threads())
    && (i != 0 && ((r == UNLOCK_EXIT && t.flagLocal != 1) || r == EXITED) ==> m >= UNLOCK_CLEAR)
  }

  predicate StoppedAt(e: Tracee, pc: nat) { e.Stopped? && e.pc == pc }

  /** Where the tracee of thread i is. */
  predicate TraceeOk(c: Config, i: nat, t: Thread, e: Tracee) {
    var r, adv := t.at, c.Advance();
    && (r > WAIT_TRAP ==> InText(c.text, t.ret) && (i == 0 ==> t.brk == c.trap))
    && if r <= WAIT_TRAP then
         e == Free || (e.Stopped? && e.pc >= adv && InText(c.text, e.frame) && (i == 0 ==> e.pc == c.trap + adv))
       else if r <= REWIND_REGS then StoppedAt(e, t.regs + adv)
       else if r <= CONTINUE then StoppedAt(e, t.regs)
       else if r == WAIT_BREAK then e == Resumed || StoppedAt(e, t.ret + adv)
       else if r <= REWIND_BREAK then StoppedAt(e, t.ret + adv) && t.regs == t.ret
       else StoppedAt(e, t.ret)
  }

  /** The text but for a live breakpoint, when the main thread is at m. */
  function Base(c: Config, m: nat): Text
    requires c.Valid()
  {
    if m > POKE_NOP then Patched(c.text, c.trap, NopCode(c.arch)) else c.text
  }

  /** A text with a breakpoint at a. */
  function WithBreak(c: Config, base: Text, a: nat): Text
    requires InText(base, a)
  {
    Poke(base, a, BreakWord(c.arch, Peek(base, a)))
  }

  /** The text while the holder of the lock, at point r, remembers the word d and the return address a. */
  ghost predicate HolderText(c: Config, base: Text, a: nat, r: nat, d: bv64, text: Text) {
    if Live(r) then InText(base, a) && d == Peek(base, a) && text == WithBreak(c, base, a)
    else text == base && (r == POKE_BREAK ==> InText(base, a) && d == Peek(base, a))
  }

  /** The text as the holder of the lock, if any, has left it. */
  ghost predicate TextOk(c: Config, s: State, m: nat)
    requires c.Valid() && Sized(c, s)
  {
    if s.lock.LockedBy? && s.lock.i < c.Threads() then
      var t := s.threads[s.lock.i];
      HolderText(c, Base(c, m), t.ret, t.at, t.data, s.text)
    else s.text == Base(c, m)
  }

  ghost predicate Shared(c: Config, s: State, m: nat)
    requires c.Valid() && Sized(c, s)
  {
    && s.flag == (if UNLOCK_FLAG <= m < UNLOCK_CLEAR then 1 else 0)
    && (s.suspended <==> m > SUSPEND)
    && s.indicator == (if WAIT_TRAP <= m <= POKE_INDICATOR then 1 else -1)
    && s.traceDone == CountOf(s.threads)
    && (s.lock.LockedBy? ==> s.lock.i < c.Threads())
    && (m == POKE_NOP ==> s.threads[0].data == Peek(c.text, c.trap))
  }

  function Main(s: State): nat
    requires |s.threads| > 0
  {
    s.threads[0].at
  }

  ghost predicate Locals(c: Config, s: State, m: nat)
    requires Sized(c, s)
  {
    forall i :: 0 <= i < c.Threads() ==>
      ThreadOk(c, i, s.threads[i], m, s.traceDone) && TraceeOk(c, i, s.threads[i], s.tracees[i])
  }

  ghost predicate LockOk(c: Config, s: State)
    requires Sized(c, s)
  {
    forall i :: 0 <= i < c.Threads() ==> (Holds(s.threads[i].at) <==> s.lock == LockedBy(i))
  }

  ghost predicate Inv(c: Config, s: State)
    requires c.Valid()
  {
    && Sized(c, s)
    && Locals(c, s, Main(s)) && LockOk(c, s) && Shared(c, s, Main(s)) && TextOk(c, s, Main(s))
  }

  // ----- one step of a thread

  /** What a thread knows stays true while the main thread and the counter go on. */
  lemma KnowsStill(c: Config, i: nat, t: Thread, m: nat, m': nat, done: nat, done': nat)
    requires ThreadOk(c, i, t, m, done) && i != 0 && done <= done' <= c.Threads()
    requires (m >= UNLOCK_FLAG ==> m' >= UNLOCK_FLAG) && (m >= UNLOCK_CLEAR ==> m' >= UNLOCK_CLEAR)
    ensures ThreadOk(c, i, t, m', done')
  {
  }

  lemma OwnTracee(c: Config, s: State, i: nat)
    requires c.Valid() && Sized(c, s) && i < c.Threads() && CanStep(c, s, i)
    requires TraceeOk(c, i, s.threads[i], s.tracees[i]) && ThreadOk(c, i, s.threads[i], Main(s), s.traceDone)
    ensures TraceeOk(c, i, NextThread(c, s, i), NextTracee(c, s, i))
  {
  }

  /** A thread's own knowledge after its step; m' is the main thread's point then. */
  lemma OwnThread(c: Config, s: State, i: nat, m: nat, m': nat, done': nat)
    requires c.Valid() && Sized(c, s) && i < c.Threads() && CanStep(c, s, i)
    requires ThreadOk(c, i, s.threads[i], m, s.traceDone)
    requires m' == if i == 0 then NextThread(c, s, i).at else m
    requires s.flag == if UNLOCK_FLAG <= m < UNLOCK_CLEAR then 1 else 0
    requires done' == if s.threads[i].at == COUNT_UP then s.traceDone + 1 else s.traceDone
    requires s.traceDone <= done' <= c.Threads()
    ensures ThreadOk(c, i, NextThread(c, s, i), m', done')
    ensures (m >= UNLOCK_FLAG ==> m' >= UNLOCK_FLAG) && (m >= UNLOCK_CLEAR ==> m' >= UNLOCK_CLEAR)
  {
  }

  lemma BreakGone(c: Config, base: Text, a: nat)
    requires InText(base, a)
    ensures Poke(WithBreak(c, base, a), a, Peek(base, a)) == base
  {
    PokeBack(base, a, BreakWord(c.arch, Peek(base, a)));
  }

  lemma TextKept(c: Config, s: State, i: nat)
    requires c.Valid() && Sized(c, s) && i < c.Threads() && CanStep(c, s, i)
    requires s.threads[i].at !in {POKE_NOP, POKE_BREAK, POKE_DATA}
    ensures NextText(c, s, i) == s.text
  {
  }

  /** What a step from point r to r' does to the remembered word and to the text, for the return address a. */
  ghost predicate TurnEffect(c: Config, a: nat, r: nat, r': nat, d: bv64, d': bv64, text: Text, text': Text) {
    if PEEK_RETURN <= r <= POKE_DATA then
      && InText(text, a) && r' == r + 1
      && d' == (if r == PEEK_RETURN then Peek(text, a) else d)
      && text' == (if r == POKE_BREAK then Poke(text, a, BreakWord(c.arch, d))
          else if r == POKE_DATA then Poke(text, a, d) else text)
    else !(POKE_BREAK <= r' <= POKE_DATA) && text' == text
  }

  lemma EffectOfTurn(c: Config, s: State, i: nat, t: Thread, t': Thread)
    requires c.Valid() && Sized(c, s) && i < c.Threads() && CanStep(c, s, i) && s.threads[i].at != POKE_NOP
    requires t == s.threads[i] && t' == NextThread(c, s, i)
    ensures TurnEffect(c, t.ret, t.at, t'.at, t.data, t'.data, s.text, NextText(c, s, i))
    ensures PEEK_RETURN <= t.at <= POKE_DATA ==> t'.ret == t.ret
  {
    if t.at !in {POKE_NOP, POKE_BREAK, POKE_DATA} { TextKept(c, s, i); }
  }

  /** The holder of the lock puts its breakpoint in and takes it out again. */
  lemma HolderNext(c: Config, base: Text, a: nat, a': nat, r: nat, r': nat, d: bv64, d': bv64, text: Text, text': Text)
    requires |base| == |text| && HolderText(c, base, a, r, d, text) && TurnEffect(c, a, r, r', d, d', text, text')
    requires PEEK_RETURN <= r <= POKE_DATA ==> a' == a
    ensures HolderText(c, base, a', r', d', text')
  {
    if r == POKE_DATA { BreakGone(c, base, a); }
  }

  lemma LockOfHolder(c: Config, s: State, i: nat)
    requires i < |s.threads| && Holds(s.threads[i].at) && s.lock == LockedBy(i)
    ensures NextLock(s, i) == if GivesLock(s.threads[i].at) then Unlocked else LockedBy(i)
    ensures GivesLock(s.threads[i].at) ==> !(PEEK_RETURN <= s.threads[i].at <= POKE_DATA)
  {
  }

  lemma TextOfHolder(c: Config, s: State, i: nat, m: nat)
    requires c.Valid() && Sized(c, s) && i < c.Threads() && CanStep(c, s, i)
    requires s.lock == LockedBy(i) && TextOk(c, s, m) && Holds(s.threads[i].at)
    ensures TextOk(c, ThreadStep(c, s, i), m)
  {
    var t, t' := s.threads[i], NextThread(c, s, i);
    LockOfHolder(c, s, i);
    EffectOfTurn(c, s, i, t, t');
    HolderNext(c, Base(c, m), t.ret, t'.ret, t.at, t'.at, t.data, t'.data, s.text, NextText(c, s, i));
  }

  lemma LockOfOther(c: Config, s: State, i: nat)
    requires i < |s.threads| && !Holds(s.threads[i].at)
    ensures NextLock(s, i) == if TakesLock(s.threads[i].at) then LockedBy(i) else s.lock
    ensures !(POKE_BREAK <= NextPoint(c, i, s.threads[i]) <= POKE_DATA)
  {
  }

  lemma HoldsNext(c: Config, i: nat, t: Thread)
    requires t.at < EXITED
    ensures Holds(NextPoint(c, i, t)) <==> TakesLock(t.at) || (Holds(t.at) && !GivesLock(t.at))
    ensures TakesLock(t.at) ==> !Holds(t.at)
  {
  }

  lemma LockStep(c: Config, s: State, i: nat)
    requires c.Valid() && Sized(c, s) && i < c.Threads() && CanStep(c, s, i) && LockOk(c, s)
    ensures LockOk(c, ThreadStep(c, s, i))
  {
    var s' := ThreadStep(c, s, i);
    if Holds(s.threads[i].at) { LockOfHolder(c, s, i); } else { LockOfOther(c, s, i); }
    HoldsNext(c, i, s.threads[i]);
    forall j | 0 <= j < c.Threads() && j != i ensures Holds(s'.threads[j].at) <==> s'.lock == LockedBy(j) {
      assert s'.threads[j] == s.threads[j];
    }
  }

  lemma TextOfOther(c: Config, s: State, i: nat, m: nat)
    requires c.Valid() && Sized(c, s) && i < c.Threads() && CanStep(c, s, i)
    requires s.lock != LockedBy(i) && TextOk(c, s, m) && !Holds(s.threads[i].at) && s.threads[i].at != POKE_NOP
    ensures TextOk(c, ThreadStep(c, s, i), m)
  {
    LockOfOther(c, s, i);
    TextKept(c, s, i);
  }

  /** The trap is removed while no breakpoint is in the text. */
  lemma TextOfNop(c: Config, s: State)
    requires c.Valid() && Sized(c, s) && CanStep(c, s, 0) && s.threads[0].at == POKE_NOP && s.threads[0].brk == c.trap
    requires TextOk(c, s, POKE_NOP) && s.threads[0].data == Peek(c.text, c.trap) && s.lock != LockedBy(0)
    requires s.lock.LockedBy? ==>
               s.lock.i < c.Threads() && ThreadOk(c, s.lock.i, s.threads[s.lock.i], POKE_NOP, s.traceDone)
    ensures TextOk(c, ThreadStep(c, s, 0), POKE_INDICATOR)
  {
    NopOnly(c.arch, c.text, c.trap);
    assert NextText(c, s, 0) == Base(c, POKE_INDICATOR);
  }

  /** Only one step moves the main thread across the point that decides the text. */
  lemma BaseStays(c: Config, s: State, i: nat, m: nat, m': nat)
    requires c.Valid() && Sized(c, s) && i < c.Threads() && CanStep(c, s, i)
    requires ThreadOk(c, 0, s.threads[0], m, s.traceDone)
    requires m' == if i == 0 then NextThread(c, s, i).at else m
    requires !(i == 0 && s.threads[0].at == POKE_NOP)
    ensures Base(c, m') == Base(c, m) && (i == 0 ==> m != POKE_NOP)
  {
  }

  lemma TextStep(c: Config, s: State, i: nat, m: nat, m': nat)
    requires c.Valid() && Sized(c, s) && i < c.Threads() && CanStep(c, s, i)
    requires m == Main(s) && m' == Main(ThreadStep(c, s, i))
    requires Locals(c, s, m) && LockOk(c, s) && Shared(c, s, m) && TextOk(c, s, m)
    ensures TextOk(c, ThreadStep(c, s, i), m')
  {
    assert ThreadOk(c, i, s.threads[i], m, s.traceDone) && ThreadOk(c, 0, s.threads[0], m, s.traceDone);
    assert TraceeOk(c, i, s.threads[i], s.tracees[i]);
    assert Holds(s.threads[i].at) <==> s.lock == LockedBy(i);
    if s.threads[i].at == POKE_NOP {
      TextOfNop(c, s);
    } else {
      BaseStays(c, s, i, m, m');
      if s.lock == LockedBy(i) {
        TextOfHolder(c, s, i, m);
      } else {
        TextOfOther(c, s, i, m);
      }
    }
  }

  lemma SharedStep(c: Config, s: State, i: nat, m: nat, m': nat)
    requires c.Valid() && Sized(c, s) && i < c.Threads() && CanStep(c, s, i)
    requires m == Main(s) && m' == Main(ThreadStep(c, s, i))
    requires Shared(c, s, m) && (m <= POKE_NOP ==> s.text == c.text)
    requires ThreadOk(c, i, s.threads[i], m, s.traceDone) && TraceeOk(c, i, s.threads[i], s.tracees[i])
    ensures Shared(c, ThreadStep(c, s, i), m')
  {
    CountUpdate(s.threads, i, NextThread(c, s, i));
  }

  lemma LocalsStep(c: Config, s: State, i: nat, m: nat, m': nat, done': nat)
    requires c.Valid() && Sized(c, s) && i < c.Threads() && CanStep(c, s, i)
    requires m == Main(s) && m' == Main(ThreadStep(c, s, i)) && done' == ThreadStep(c, s, i).traceDone <= c.Threads()
    requires Locals(c, s, m) && s.flag == if UNLOCK_FLAG <= m < UNLOCK_CLEAR then 1 else 0
    ensures Locals(c, ThreadStep(c, s, i), m')
  {
    var s' := ThreadStep(c, s, i);
    OwnTracee(c, s, i);
    OwnThread(c, s, i, m, m', done');
    forall j | 0 <= j < c.Threads() && j != i
      ensures ThreadOk(c, j, s'.threads[j], m', done') && TraceeOk(c, j, s'.threads[j], s'.tracees[j])
    {
      assert s'.threads[j] == s.threads[j] && s'.tracees[j] == s.tracees[j];
      if j != 0 { KnowsStill(c, j, s.threads[j], m, m', s.traceDone, done'); }
    }
  }

  /** While the trap is in place the text is untouched. */
  lemma TextBeforeNop(c: Config, s: State)
    requires c.Valid() && Inv(c, s) && Main(s) <= POKE_NOP
    ensures s.text == c.text
  {
    if s.lock.LockedBy? {
      assert ThreadOk(c, s.lock.i, s.threads[s.lock.i], Main(s), s.traceDone);
    }
  }

  /** Every step of a tracer thread keeps the invariant. */
  lemma ThreadStepInv(c: Config, s: State, i: nat)
    requires c.Valid() && Inv(c, s) && i < c.Threads() && CanStep(c, s, i)
    ensures Inv(c, ThreadStep(c, s, i))
  {
    var s', m, m' := ThreadStep(c, s, i), Main(s), Main(ThreadStep(c, s, i));
    assert ThreadOk(c, i, s.threads[i], m, s.traceDone) && TraceeOk(c, i, s.threads[i], s.tracees[i]);
    if m <= POKE_NOP { TextBeforeNop(c, s); }
    SharedStep(c, s, i, m, m');
    CountBound(s'.threads);
    LocalsStep(c, s, i, m, m', s'.traceDone);
    LockStep(c, s, i);
    TextStep(c, s, i, m, m');
  }

  // ----- a tracee that stops

  /** No breakpoint is in the text before the flag is raised, and a live one is that of the holder of the lock. */
  lemma LiveHolds(c: Config, s: State, j: nat)
    requires c.Valid() && Inv(c, s) && j < c.Threads() && Live(s.threads[j].at)
    ensures Main(s) >= UNLOCK_FLAG && s.lock == LockedBy(j) && InText(c.text, s.threads[j].ret)
  {
    assert Holds(s.threads[j].at) && ThreadOk(c, j, s.threads[j], Main(s), s.traceDone);
    assert TraceeOk(c, j, s.threads[j], s.tracees[j]);
  }

  /** A tracee that was let go waits for its own thread's breakpoint. */
  lemma ResumedHolds(c: Config, s: State, i: nat)
    requires c.Valid() && Inv(c, s) && i < c.Threads() && s.tracees[i] == Resumed
    ensures s.threads[i].at == WAIT_BREAK && s.lock == LockedBy(i)
  {
    assert TraceeOk(c, i, s.threads[i], s.tracees[i]);
    assert Holds(s.threads[i].at);
  }

  /** Stopping tracee i where its thread expects it keeps the invariant. */
  lemma StopInv(c: Config, s: State, i: nat, a: nat, frame: nat)
    requires c.Valid() && Inv(c, s) && i < c.Threads()
    requires TraceeOk(c, i, s.threads[i], Stopped(a + c.Advance(), frame))
    ensures Inv(c, StopAt(c, s, i, a, frame))
  {
    var s' := StopAt(c, s, i, a, frame);
    forall j | 0 <= j < c.Threads()
      ensures ThreadOk(c, j, s'.threads[j], Main(s'), s'.traceDone) && TraceeOk(c, j, s'.threads[j], s'.tracees[j])
    {
      assert ThreadOk(c, j, s.threads[j], Main(s), s.traceDone) && TraceeOk(c, j, s.threads[j], s.tracees[j]);
    }
  }

  /** A tracee that runs into the trap, its own breakpoint or another thread's keeps the invariant. */
  lemma TraceeStepInv(c: Config, s: State, a: Action)
    requires c.Valid() && Inv(c, s) && Enabled(c, s, a) && !a.Step?
    ensures Inv(c, Do(c, s, a))
  {
    var i := a.i;
    assert TraceeOk(c, i, s.threads[i], s.tracees[i]) && ThreadOk(c, i, s.threads[i], Main(s), s.traceDone);
    match a
    case HitTrap(_) => StopInv(c, s, i, c.trap, c.retAddrs[i]);
    case HitBreak(_, j, frame) =>
      LiveHolds(c, s, j);
      if s.tracees[i] == Resumed { ResumedHolds(c, s, i); }
      StopInv(c, s, i, s.threads[j].ret, frame);
  }

  // ----- whole runs

  lemma {:induction false} StartCount(n: nat, threads: seq<Thread>)
    requires |threads| == n && forall i :: 0 <= i < n ==> threads[i].at == ATTACH
    ensures CountOf(threads) == 0
  {
    if n > 0 { StartCount(n - 1, threads[..n - 1]); }
  }

  lemma StartInv(c: Config)
    requires c.Valid()
    ensures Inv(c, Start(c))
  {
    StartCount(c.Threads(), Start(c).threads);
  }

  lemma DoInv(c: Config, s: State, a: Action)
    requires c.Valid() && Inv(c, s) && Enabled(c, s, a)
    ensures Inv(c, Do(c, s, a))
  {
    if a.Step? { ThreadStepInv(c, s, a.i); } else { TraceeStepInv(c, s, a); }
  }

  lemma SteppedInv(c: Config, run: seq<State>, k: nat, s: State, s': State)
    requires c.Valid() && k + 1 < |run| && s == run[k] && s' == run[k + 1] && Inv(c, s) && Stepped(c, run, k)
    ensures Inv(c, s')
  {
    var a :| Enabled(c, s, a) && s' == Do(c, s, a);
    DoInv(c, s, a);
  }

  /** Every state of every run satisfies the invariant. */
  lemma {:induction false} RunInv(c: Config, run: seq<State>, k: nat)
    requires c.Valid() && Run(c, run) && k < |run|
    ensures Inv(c, run[k])
  {
    var s := run[k];
    if k == 0 {
      StartInv(c);
    } else {
      RunInv(c, run, k - 1);
      SteppedInv(c, run, k - 1, run[k - 1], s);
    }
  }
}
