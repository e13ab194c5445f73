/** What holds in every run of the tracer protocol. */
module TracerTheorems {
  import opened TracerText
  import opened Tracer
  import opened TracerInvariant

  lemma AllCounted(c: Config, s: State)
    requires c.Valid() && Inv(c, s) && s.traceDone == c.Threads()
    ensures forall i :: 0 <= i < c.Threads() ==> Counted(s.threads[i])
  {
    CountBound(s.threads);
  }

  /** The process stands where it may be dumped: every tracee at the return address its thread found, the original
      text but for the NOP in place of the trap, the indicator as it was. */
  ghost predicate AtReturnAddresses(c: Config, s: State)
    requires c.Valid()
  {
    && Sized(c, s)
    && (forall i :: 0 <= i < c.Threads() ==> StoppedAt(s.tracees[i], s.threads[i].ret))
    && s.text == Patched(c.text, c.trap, NopCode(c.arch)) && s.indicator == -1
  }

  lemma AtReturnAddressesWhen(c: Config, s: State)
    requires c.Valid() && Inv(c, s) && (s.suspended || s.threads[0].at == SUSPEND)
    ensures AtReturnAddresses(c, s)
  {
    assert ThreadOk(c, 0, s.threads[0], Main(s), s.traceDone);
    AllCounted(c, s);
    forall i | 0 <= i < c.Threads() ensures StoppedAt(s.tracees[i], s.threads[i].ret) && !Live(s.threads[i].at) {
      assert Counted(s.threads[i]) && TraceeOk(c, i, s.threads[i], s.tracees[i]);
    }
  }

  /** When the main thread comes to suspend the process, and ever after, all tracees stand at the return addresses
      their threads found, however each of them was stopped first. */
  lemma SuspendedAtReturnAddresses(c: Config, run: seq<State>, k: nat)
    requires c.Valid() && Run(c, run) && k < |run|
    requires run[k].suspended || run[k].threads[0].at == SUSPEND
    ensures AtReturnAddresses(c, run[k])
  {
    RunInv(c, run, k);
    AtReturnAddressesWhen(c, run[k]);
  }

  /** At most one injected breakpoint is in the text, put there by the holder of the lock; the text is otherwise
      the original, with the trap or the NOP in its place. */
  lemma OneLiveBreakpoint(c: Config, run: seq<State>, k: nat)
    requires c.Valid() && Run(c, run) && k < |run|
    ensures forall i, j :: 0 <= i < j < c.Threads() ==> !(Live(run[k].threads[i].at) && Live(run[k].threads[j].at))
    ensures forall i :: 0 <= i < c.Threads() && Live(run[k].threads[i].at) ==>
              && run[k].lock == LockedBy(i) && InText(c.text, run[k].threads[i].ret)
              && run[k].text == WithBreak(c, Base(c, Main(run[k])), run[k].threads[i].ret)
    ensures (forall i :: 0 <= i < c.Threads() ==> !Live(run[k].threads[i].at)) ==> run[k].text == Base(c, Main(run[k]))
  {
    RunInv(c, run, k);
    var s := run[k];
    forall i | 0 <= i < c.Threads() && Live(s.threads[i].at)
      ensures s.lock == LockedBy(i) && InText(c.text, s.threads[i].ret)
    {
      LiveHolds(c, s, i);
    }
  }

  /** A live breakpoint shows the trap code. */
  lemma LiveArmed(c: Config, s: State, j: nat)
    requires c.Valid() && Inv(c, s) && j < c.Threads() && Live(s.threads[j].at)
    ensures CodeAt(s.text, s.threads[j].ret, TrapCode(c.arch)) && InText(c.text, s.threads[j].ret)
  {
    LiveHolds(c, s, j);
    BreakInPlace(c.arch, Base(c, Main(s)), s.threads[j].ret);
  }

  /** A resumed tracee meets its own breakpoint, and no other: the trap code is at its return address while it runs,
      and the only breakpoint in the text is that one. */
  lemma BreakpointArmed(c: Config, run: seq<State>, k: nat, i: nat)
    requires c.Valid() && Run(c, run) && k < |run| && i < c.Threads() && run[k].tracees[i] == Resumed
    ensures CodeAt(run[k].text, run[k].threads[i].ret, TrapCode(c.arch)) && run[k].threads[i].at == WAIT_BREAK
    ensures forall j :: 0 <= j < c.Threads() && Live(run[k].threads[j].at) ==> j == i
  {
    RunInv(c, run, k);
    var s := run[k];
    ResumedHolds(c, s, i);
    LiveArmed(c, s, i);
    forall j | 0 <= j < c.Threads() && Live(s.threads[j].at) ensures j == i { LiveHolds(c, s, j); }
  }

  /** No thread misses the raised flag: once it is up it stays up until every thread has passed its first loop. */
  lemma NobodyMissesTheFlag(c: Config, run: seq<State>, k: nat, i: nat)
    requires c.Valid() && Run(c, run) && k < |run| && i < c.Threads()
    requires Main(run[k]) >= UNLOCK_FLAG && run[k].threads[i].at <= UNLOCK_SPIN
    ensures run[k].flag == 1
  {
    RunInv(c, run, k);
    var s := run[k];
    assert ThreadOk(c, 0, s.threads[0], Main(s), s.traceDone);
    if Main(s) >= UNLOCK_CLEAR { AllCounted(c, s); }
  }

  /** No thread but the main one exits before the process is suspended. */
  lemma NoEarlyExit(c: Config, run: seq<State>, k: nat, i: nat)
    requires c.Valid() && Run(c, run) && k < |run| && 0 < i < c.Threads() && run[k].threads[i].at == EXITED
    ensures run[k].suspended && run[k].flag == 0
  {
    RunInv(c, run, k);
    assert ThreadOk(c, i, run[k].threads[i], Main(run[k]), run[k].traceDone);
  }

  // ----- which frame a tracee was stopped in

  /** Tracee i was stopped in a frame that returns to f, and its thread knows or will learn that address. */
  predicate Framed(s: State, i: nat, f: nat)
    requires i < |s.threads| == |s.tracees|
  {
    if s.threads[i].at <= WAIT_TRAP then s.tracees[i].Stopped? && s.tracees[i].frame == f else s.threads[i].ret == f
  }

  lemma FramedStep(c: Config, s: State, a: Action, i: nat, f: nat)
    requires c.Valid() && Inv(c, s) && Enabled(c, s, a) && i < c.Threads() && Framed(s, i, f)
    ensures Framed(Do(c, s, a), i, f)
  {
    if a.i == i { assert TraceeOk(c, i, s.threads[i], s.tracees[i]); }
  }

  lemma FramedStepped(c: Config, run: seq<State>, k: nat, s: State, s': State, i: nat, f: nat)
    requires c.Valid() && k + 1 < |run| && s == run[k] && s' == run[k + 1] && Inv(c, s) && Stepped(c, run, k)
    requires i < c.Threads() == |s'.threads| == |s'.tracees| && Framed(s, i, f)
    ensures Framed(s', i, f)
  {
    var a :| Enabled(c, s, a) && s' == Do(c, s, a);
    FramedStep(c, s, a, i, f);
  }

  lemma {:induction false} StaysFramed(c: Config, run: seq<State>, k: nat, l: nat, i: nat, f: nat)
    requires c.Valid() && Run(c, run) && k <= l < |run| && i < c.Threads() && Framed(run[k], i, f)
    ensures Framed(run[l], i, f)
  {
    var s' := run[l];
    if k < l {
      var s := run[l - 1];
      StaysFramed(c, run, k, l - 1, i, f);
      RunInv(c, run, l - 1);
      FramedStepped(c, run, l - 1, s, s', i, f);
    }
  }

  /** While the trap is in place, a tracee is free or was stopped by it. */
  ghost predicate FreeOrTrapped(c: Config, s: State, i: nat)
    requires Sized(c, s) && i < c.Threads()
  {
    Main(s) <= POKE_NOP ==> s.tracees[i] == Free || Framed(s, i, c.retAddrs[i])
  }

  lemma TrappedStep(c: Config, s: State, a: Action, i: nat)
    requires c.Valid() && Inv(c, s) && Enabled(c, s, a) && i < c.Threads() && FreeOrTrapped(c, s, i)
    ensures FreeOrTrapped(c, Do(c, s, a), i)
  {
    if Main(s) <= POKE_NOP {
      if s.tracees[i] != Free {
        FramedStep(c, s, a, i, c.retAddrs[i]);
      } else {
        assert TraceeOk(c, i, s.threads[i], s.tracees[i]);
        if a.HitBreak? { LiveHolds(c, s, a.j); }
      }
    }
  }

  lemma TrappedStepped(c: Config, run: seq<State>, k: nat, s: State, s': State, i: nat)
    requires c.Valid() && k + 1 < |run| && s == run[k] && s' == run[k + 1] && Inv(c, s) && Stepped(c, run, k)
    requires Sized(c, s') && i < c.Threads() && FreeOrTrapped(c, s, i)
    ensures FreeOrTrapped(c, s', i)
  {
    var a :| Enabled(c, s, a) && s' == Do(c, s, a);
    TrappedStep(c, s, a, i);
  }

  lemma {:induction false} StoppedByTrap(c: Config, run: seq<State>, k: nat, i: nat)
    requires c.Valid() && Run(c, run) && k < |run| && i < c.Threads()
    ensures FreeOrTrapped(c, run[k], i)
  {
    if k > 0 {
      StoppedByTrap(c, run, k - 1, i);
      RunInv(c, run, k - 1);
      TrappedStepped(c, run, k - 1, run[k - 1], run[k], i);
    }
  }

  /** A tracee that has run into the trap by the time the main thread removes it is suspended at its own return
      address, that of the call that ran into the trap. */
  lemma TrappedAtOwnReturn(c: Config, run: seq<State>, k: nat, l: nat, i: nat)
    requires c.Valid() && Run(c, run) && k <= l < |run| && i < c.Threads()
    requires Main(run[k]) <= POKE_NOP && run[k].tracees[i] != Free && run[l].suspended
    ensures StoppedAt(run[l].tracees[i], c.retAddrs[i])
  {
    StoppedByTrap(c, run, k, i);
    StaysFramed(c, run, k, l, i, c.retAddrs[i]);
    SuspendedAtReturnAddresses(c, run, l);
    RunInv(c, run, l);
    assert ThreadOk(c, 0, run[l].threads[0], Main(run[l]), run[l].traceDone);
    AllCounted(c, run[l]);
    assert Counted(run[l].threads[i]);
  }

  /** A tracee is stopped only by a trap instruction: on x86 behind its one byte, on ARM at it. */
  lemma StopsAtInstruction(c: Config, s: State, a: Action, i: nat) returns (at: nat)
    requires c.Valid() && Sized(c, s) && Enabled(c, s, a) && i < c.Threads()
    requires !s.tracees[i].Stopped? && Do(c, s, a).tracees[i].Stopped?
    ensures c.arch == X86 ==> at < |s.text| && s.text[at] == 0xCC && Do(c, s, a).tracees[i].pc == at + 1
    ensures c.arch == Arm ==> at + 4 <= |s.text| && s.text[at..at + 4] == [0x00, 0x00, 0x20, 0xd4]
                              && Do(c, s, a).tracees[i].pc == at
  {
    at := if a.HitBreak? then s.threads[a.j].ret else c.trap;
    assert c.arch == X86 ==> s.text[at..at + 1][0] == 0xCC;
  }

  /** The flag, the counter and a breakpoint's word are read and written only by the holder of the lock. */
  lemma NoRaces(c: Config, run: seq<State>, k: nat, s: State, i: nat)
    requires c.Valid() && Run(c, run) && k < |run| && s == run[k] && i < c.Threads() && CanStep(c, s, i)
    ensures s.lock != LockedBy(i) ==>
              var s', t, t' := ThreadStep(c, s, i), s.threads[i], ThreadStep(c, s, i).threads[i];
              && s'.flag == s.flag && s'.traceDone == s.traceDone && t'.flagLocal == t.flagLocal
              && t'.doneLocal == t.doneLocal && (t.at == POKE_NOP || s'.text == s.text)
  {
    RunInv(c, run, k);
    assert Holds(s.threads[i].at) <==> s.lock == LockedBy(i);
  }

  /** Processes with a trap in the text and any number of threads are what the results are about. */
  lemma SomeProcess(arch: Arch, rest: Text, n: nat)
    requires |rest| >= 16 && n > 0
    ensures Config(arch, TrapCode(arch) + rest, 0, seq(n, i => 8)).Valid()
  {
    var text := TrapCode(arch) + rest;
    assert text[0..|TrapCode(arch)|] == TrapCode(arch);
  }
}
