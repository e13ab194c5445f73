/** The waits of the restore stages as futex calls: reading a word, FUTEX_WAIT, and the FUTEX_WAKE after a change are
    separate steps (criu/cr-restore.c, include/common/lock.h), and some changes come without a wake. */
module StageFutex {
  import opened Options
  import opened StageBarrier

  /** nr_in_progress and start. */
  datatype Word = CounterWord | StageWord

  datatype Value = Number(n: int) | Name(stage: Stage)

  function ValueOf(s: State, w: Word): Value {
    match w case CounterWord => Number(s.nrInProgress) case StageWord => Name(s.start)
  }

  /** Running; about to call FUTEX_WAIT with the value seen; asleep in it; or about to call FUTEX_WAKE. */
  datatype Mode = Running | Seen(value: Value) | Asleep | WakeDue(word: Word)

  /** The parts, and criu behind them. */
  function Actors(c: Config): nat { |c.parts| + 1 }

  datatype FState = FState(base: State, modes: seq<Mode>)

  function FStart(c: Config): FState { FState(Start(c), seq(Actors(c), x => Running)) }

  ghost predicate FSized(c: Config, f: FState) { Sized(c, f.base) && |f.modes| == Actors(c) }

  /** What actor x does next in the stages. */
  function Own(c: Config, x: nat): Action { if x < |c.parts| then Move(x) else Criu }

  /** The word actor x waits on where it stands. */
  function WaitsOn(c: Config, s: State, x: nat): Option<Word>
    requires Sized(c, s) && x < Actors(c)
  {
    if x == |c.parts| then
      var k := s.criu;
      if k == AWAIT_ROOT || k == AWAIT_NS || k == AWAIT_RESTORE || k == AWAIT_SIGCHLD || k == AWAIT_CREDS
      then Some(CounterWord) else None
    else
      var r := s.at[x];
      if (x == 0 && r == END_FORKING) || r == WAIT_OTHERS then Some(CounterWord)
      else if x == 0 && c.ns && (r == WAIT_ROOT_TASK || r == WAIT_PREPARE_NS) then Some(StageWord)
      else if x != 0 && r == WAIT_FORKING then Some(StageWord)
      else if r == WAIT_RESTORE && (c.Living(x) || !c.ExpectsDeath(x)) then Some(StageWord)
      else if r == WAIT_SIGCHLD || r == WAIT_CREDS then Some(StageWord)
      else None
  }

  /** The value lets actor x pass the wait it stands at. */
  predicate Over(c: Config, s: State, x: nat, v: Value)
    requires Sized(c, s) && x < Actors(c)
  {
    match v
    case Number(n) =>
      n <= if x == |c.parts| then 0 else if s.at[x] == END_FORKING then 1 else Count(c.RootThreads())
    case Name(stage) =>
      x < |c.parts| &&
      var r := s.at[x];
      stage != if r == WAIT_ROOT_TASK then RootTask
               else if r == WAIT_PREPARE_NS then PrepareNamespaces
               else if r == WAIT_FORKING then Forking
               else if r == WAIT_RESTORE then Restore
               else if r == WAIT_SIGCHLD then RestoreSigchld
               else RestoreCreds
  }

  /** The word actor x is to wake after its next step: after a decrement and after a switch of the stage, but not after
      the switches of __restore_switch_stage_nw. */
  function Wakes(c: Config, s: State, x: nat): Option<Word>
    requires Sized(c, s) && x < Actors(c)
  {
    if x == |c.parts| then
      var k := s.criu;
      if k == SET_NS_STAGE || k == SET_FORK_STAGE || k == SET_SIGCHLD_STAGE || k == SET_CREDS_STAGE || k == SET_COMPLETE
      then Some(StageWord) else None
    else if Decrements(c, x, s.at[x]) then Some(CounterWord)
    else if x == 0 && s.at[x] == SET_RESTORE then Some(StageWord)
    else None
  }

  datatype FAction = Act(x: nat) | Fork(q: nat)

  predicate Reads(c: Config, s: State, x: nat)
    requires Sized(c, s) && x < Actors(c)
  {
    WaitsOn(c, s, x).Some? && !Enabled(c, s, Own(c, x))
  }

  predicate FEnabled(c: Config, f: FState, a: FAction)
    requires FSized(c, f)
  {
    match a
    case Act(x) =>
      x < Actors(c) && !f.modes[x].Asleep? &&
      (f.modes[x].Running? ==> Reads(c, f.base, x) || Enabled(c, f.base, Own(c, x)))
    case Fork(q) => CanMake(c, f.base, q) && f.modes[c.parts[q].maker].Running?
  }

  function Woken(c: Config, f: FState, w: Word): seq<Mode>
    requires FSized(c, f)
  {
    seq(Actors(c), x requires 0 <= x < Actors(c) =>
      if f.modes[x].Asleep? && WaitsOn(c, f.base, x) == Some(w) then Running else f.modes[x])
  }

  function FDo(c: Config, f: FState, a: FAction): (f': FState)
    requires FSized(c, f) && FEnabled(c, f, a)
    ensures FSized(c, f')
  {
    match a
    case Fork(q) => f.(base := Make(c, f.base, q))
    case Act(x) =>
      var w := WaitsOn(c, f.base, x);
      match f.modes[x]
      case Running =>
        if Reads(c, f.base, x) then f.(modes := f.modes[x := Seen(ValueOf(f.base, w.value))])
        else
          var due := Wakes(c, f.base, x);
          FState(Do(c, f.base, Own(c, x)), f.modes[x := if due.Some? then WakeDue(due.value) else Running])
      case Seen(v) =>
        f.(modes := f.modes[x := if w.Some? && ValueOf(f.base, w.value) == v then Asleep else Running])
      case WakeDue(word) => f.(modes := Woken(c, f, word)[x := Running])
  }

  ghost predicate FNext(c: Config, f: FState, f': FState) {
    FSized(c, f) && exists a :: FEnabled(c, f, a) && f' == FDo(c, f, a)
  }

  ghost predicate FRun(c: Config, run: seq<FState>) {
    && c.Valid() && run != [] && run[0] == FStart(c) && (forall k :: 0 <= k < |run| ==> FSized(c, run[k]))
    && forall k :: 0 <= k < |run| - 1 ==> FStepped(c, run, k)
  }

  ghost predicate FStepped(c: Config, run: seq<FState>, k: nat)
    requires k + 1 < |run|
  {
    FNext(c, run[k], run[k + 1])
  }
}
