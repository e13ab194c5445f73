/** The tracer threads of tools/tracer.c as a state machine: one step per shared access or ptrace call. */
module Tracer {
  import opened TracerText

  // Where trace_thread stands; the name is the action the thread takes next.
  const ATTACH := 0
  const WAIT_TRAP := 1
  const PEEK_TRAP := 2           // up to UNLOCK_FLAG: the main thread only
  const POKE_NOP := 3
  const POKE_INDICATOR := 4
  const LOCK_FLAG := 5
  const RAISE_FLAG := 6
  const UNLOCK_FLAG := 7
  const LOCK_SPIN := 8           // wait for the flag
  const READ_FLAG := 9
  const UNLOCK_SPIN := 10
  const REWIND_REGS := 11
  const LOCK_TURN := 12
  const PEEK_RETURN := 13
  const POKE_BREAK := 14
  const CONTINUE := 15
  const WAIT_BREAK := 16
  const POKE_DATA := 17
  const REWIND_BREAK := 18
  const COUNT_UP := 19
  const UNLOCK_TURN := 20
  const LOCK_DONE := 21          // wait for all turns to be over
  const READ_DONE := 22
  const UNLOCK_DONE := 23
  const LOCK_EXIT := 24          // up to UNLOCK_EXIT: all but the main thread wait for it to clear the flag
  const READ_EXIT := 25
  const UNLOCK_EXIT := 26
  const SUSPEND := 27            // up to UNLOCK_CLEAR: the main thread only
  const LOCK_CLEAR := 28
  const CLEAR_FLAG := 29
  const UNLOCK_CLEAR := 30
  const EXITED := 31

  /** trace_thread's locals: regs is the program counter in its copy of the registers, brk the address its tracee
      was first stopped at, ret the return address found in the frame there. */
  datatype Thread = Thread(at: nat, regs: nat, brk: nat, ret: nat, data: bv64, flagLocal: int, doneLocal: nat)

  /** A traced thread: running freely, stopped at pc in a frame that returns to frame, or let go by its tracer. */
  datatype Tracee = Free | Stopped(pc: nat, frame: nat) | Resumed

  /** retAddrs[i] is where thread i of the process returns to from the call that runs into the compiler's trap. */
  datatype Config = Config(arch: Arch, text: Text, trap: nat, retAddrs: seq<nat>) {
    /** The program counter after a trap is this far beyond the trap instruction. */
    function Advance(): nat { if arch == X86 then 1 else 0 }

    function Threads(): nat { |retAddrs| }

    /** Thread 0 traces the process itself, and all tracees share one compiler-placed trap. */
    predicate Valid() {
      && |retAddrs| > 0 && InText(text, trap) && CodeAt(text, trap, TrapCode(arch))
      && forall i :: 0 <= i < |retAddrs| ==> InText(text, retAddrs[i])
    }
  }

  datatype Lock = Unlocked | LockedBy(i: nat)

  datatype State = State(text: Text, indicator: int, lock: Lock, flag: int, traceDone: nat, suspended: bool,
                         threads: seq<Thread>, tracees: seq<Tracee>)

  function Start(c: Config): State {
    State(c.text, -1, Unlocked, 0, 0, false,
          seq(c.Threads(), i => Thread(ATTACH, 0, 0, 0, 0, 0, 0)), seq(c.Threads(), i => Free))
  }

  ghost predicate Sized(c: Config, s: State) {
    |s.threads| == |s.tracees| == c.Threads() && |s.text| == |c.text|
  }

  predicate TakesLock(p: nat) {
    p == LOCK_FLAG || p == LOCK_SPIN || p == LOCK_TURN || p == LOCK_DONE || p == LOCK_EXIT || p == LOCK_CLEAR
  }

  predicate GivesLock(p: nat) {
    p == UNLOCK_FLAG || p == UNLOCK_SPIN || p == UNLOCK_TURN || p == UNLOCK_DONE || p == UNLOCK_EXIT
        || p == UNLOCK_CLEAR
  }

  /** The breakpoint of a thread at this point is in the text. */
  predicate Live(p: nat) { CONTINUE <= p <= POKE_DATA }

  /** Thread i may take its next step: it does not wait for the lock or for its tracee. */
  predicate CanStep(c: Config, s: State, i: nat)
    requires i < |s.threads| == |s.tracees|
  {
    var p := s.threads[i].at;
    && p < EXITED
    && (TakesLock(p) ==> s.lock == Unlocked)
    && (p == WAIT_TRAP || p == WAIT_BREAK ==> s.tracees[i].Stopped?)
    && (p == PEEK_TRAP || p == POKE_NOP ==> InText(s.text, s.threads[i].brk))
    && (PEEK_RETURN <= p <= POKE_DATA ==> InText(s.text, s.threads[i].ret))
  }

  /** Where thread i goes next. */
  function NextPoint(c: Config, i: nat, t: Thread): nat {
    if t.at == WAIT_TRAP then (if i == 0 then PEEK_TRAP else LOCK_SPIN)
    else if t.at == UNLOCK_SPIN then (if t.flagLocal == 0 then LOCK_SPIN else REWIND_REGS)
    else if t.at == UNLOCK_DONE then (if t.doneLocal < c.Threads() then LOCK_DONE else if i == 0 then SUSPEND
        else LOCK_EXIT)
    else if t.at == UNLOCK_EXIT then (if t.flagLocal == 1 then LOCK_EXIT else EXITED)
    else t.at + 1
  }

  /** The address of the instruction that stopped the tracee. */
  function Back(c: Config, pc: nat): nat { if pc < c.Advance() then 0 else pc - c.Advance() }

  /** The point and the locals of thread i after its step. */
  function NextThread(c: Config, s: State, i: nat): Thread
    requires c.Valid() && Sized(c, s) && i < c.Threads() && CanStep(c, s, i)
  {
    var t, p := s.threads[i], s.threads[i].at;
    Thread(NextPoint(c, i, t),
           if p == WAIT_TRAP || p == WAIT_BREAK then Back(c, s.tracees[i].pc) else t.regs,
           if p == WAIT_TRAP then Back(c, s.tracees[i].pc) else t.brk,
           if p == WAIT_TRAP then s.tracees[i].frame else t.ret,
           if p == PEEK_TRAP then Peek(s.text, t.brk) else if p == PEEK_RETURN then Peek(s.text, t.ret) else t.data,
           if p == READ_FLAG || p == READ_EXIT then s.flag else t.flagLocal,
           if p == READ_DONE then s.traceDone else t.doneLocal)
  }

  function NextText(c: Config, s: State, i: nat): Text
    requires c.Valid() && Sized(c, s) && i < c.Threads() && CanStep(c, s, i)
  {
    var t := s.threads[i];
    if t.at == POKE_NOP then Poke(s.text, t.brk, NopWord(c.arch, t.data))
    else if t.at == POKE_BREAK then Poke(s.text, t.ret, BreakWord(c.arch, t.data))
    else if t.at == POKE_DATA then Poke(s.text, t.ret, t.data)
    else s.text
  }

  function NextTracee(c: Config, s: State, i: nat): Tracee
    requires Sized(c, s) && i < c.Threads()
  {
    var t, e := s.threads[i], s.tracees[i];
    if (t.at == REWIND_REGS || t.at == REWIND_BREAK) && e.Stopped? then Stopped(t.regs, e.frame)
    else if t.at == CONTINUE then Resumed
    else e
  }

  function NextLock(s: State, i: nat): Lock
    requires i < |s.threads|
  {
    var p := s.threads[i].at;
    if TakesLock(p) then LockedBy(i)
    else if GivesLock(p) then Unlocked
    else s.lock
  }

  function ThreadStep(c: Config, s: State, i: nat): State
    requires c.Valid() && Sized(c, s) && i < c.Threads() && CanStep(c, s, i)
  {
    var p := s.threads[i].at;
    State(NextText(c, s, i),
          if p == ATTACH && i == 0 then 1 else if p == POKE_INDICATOR then -1 else s.indicator,
          NextLock(s, i),
          if p == RAISE_FLAG then 1 else if p == CLEAR_FLAG then 0 else s.flag,
          if p == COUNT_UP then s.traceDone + 1 else s.traceDone,
          s.suspended || p == SUSPEND,
          s.threads[i := NextThread(c, s, i)], s.tracees[i := NextTracee(c, s, i)])
  }

  /** A thread steps; a free tracee runs into the compiler's trap; or a running tracee i runs into the breakpoint
      that thread j has in the text, in a frame that returns to frame. */
  datatype Action = Step(i: nat) | HitTrap(i: nat) | HitBreak(i: nat, j: nat, frame: nat)

  /** Tracee i runs freely and is seized. */
  predicate Seized(s: State, i: nat)
    requires i < |s.threads| == |s.tracees|
  {
    s.tracees[i] == Free && s.threads[i].at > ATTACH
  }

  predicate Enabled(c: Config, s: State, a: Action)
    requires Sized(c, s)
  {
    && a.i < c.Threads()
    && match a
       case Step(i) => CanStep(c, s, i)
       case HitTrap(i) => Seized(s, i) && CodeAt(s.text, c.trap, TrapCode(c.arch))
       case HitBreak(i, j, frame) =>
         && j < c.Threads() && Live(s.threads[j].at) && CodeAt(s.text, s.threads[j].ret, TrapCode(c.arch))
         && (s.tracees[i] == Resumed || Seized(s, i)) && InText(c.text, frame)
  }

  /** Tracee i is stopped by a trap instruction at address a. */
  function StopAt(c: Config, s: State, i: nat, a: nat, frame: nat): State
    requires i < |s.tracees|
  {
    s.(tracees := s.tracees[i := Stopped(a + c.Advance(), frame)])
  }

  function Do(c: Config, s: State, a: Action): (s': State)
    requires c.Valid() && Sized(c, s) && Enabled(c, s, a)
    ensures Sized(c, s')
  {
    match a
    case Step(i) => ThreadStep(c, s, i)
    case HitTrap(i) => StopAt(c, s, i, c.trap, c.retAddrs[i])
    case HitBreak(i, j, frame) => StopAt(c, s, i, s.threads[j].ret, frame)
  }

  ghost predicate Next(c: Config, s: State, s': State)
    requires c.Valid()
  {
    Sized(c, s) && exists a :: Enabled(c, s, a) && s' == Do(c, s, a)
  }

  ghost predicate Run(c: Config, run: seq<State>)
    requires c.Valid()
  {
    && run != [] && run[0] == Start(c) && (forall k :: 0 <= k < |run| ==> Sized(c, run[k]))
    && forall k :: 0 <= k < |run| - 1 ==> Stepped(c, run, k)
  }

  ghost predicate Stepped(c: Config, run: seq<State>, k: nat)
    requires c.Valid() && k + 1 < |run|
  {
    Next(c, run[k], run[k + 1])
  }
}
