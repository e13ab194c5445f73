/** The restore stages (criu/cr-restore.c): criu, the root task and all tasks, threads and helpers around one
    counter, nr_in_progress, and one stage word, start.  One step per shared access. */
module StageBarrier {

  datatype Stage = Fail | RootTask | PrepareNamespaces | Forking | Restore | RestoreSigchld | RestoreCreds | Complete

  datatype Kind = Alive | Zombie | Helper

  /** A process (main) or a further thread of one.  The maker of a process is its parent, that of a thread its
      process. */
  datatype Part = Part(main: bool, kind: Kind, maker: nat)

  // Where a part stands; the name is the action it takes next.
  const UNBORN := 0
  const ROOT_TASK := 1
  const END_ROOT_TASK := 2       // decrement, or set the next count if nobody waits
  const WAIT_ROOT_TASK := 3      // wait for the next stage, or set it
  const PREPARE_NS := 4
  const END_PREPARE_NS := 5
  const WAIT_PREPARE_NS := 6
  const FORKING := 7
  const END_FORKING := 8         // decrement; the root waits for the others instead
  const WAIT_FORKING := 9        // wait for the next stage; the root sets its count instead
  const SET_RESTORE := 10        // the root sets the stage
  const RESTORING := 11
  const WAIT_OTHERS := 12        // the root waits until only its own threads are left
  const SPAWNING := 13
  const END_RESTORE := 14
  const WAIT_RESTORE := 15
  const SIGCHLD := 16            // zombies and helpers: wait for the children that die
  const END_SIGCHLD := 17
  const WAIT_SIGCHLD := 18
  const CREDS := 19
  const END_CREDS := 20
  const WAIT_CREDS := 21
  const OVER := 22               // resumed, or dead

  // Where criu stands.
  const SET_ROOT_COUNT := 0
  const SET_ROOT_STAGE := 1
  const FORK_ROOT := 2
  const AWAIT_ROOT := 3
  const SET_NS_COUNT := 4
  const SET_NS_STAGE := 5
  const AWAIT_NS := 6
  const SET_FORK_COUNT := 7
  const SET_FORK_STAGE := 8
  const AWAIT_RESTORE := 9
  const DROP_ZOMBIES := 10
  const SET_SIGCHLD_COUNT := 11
  const SET_SIGCHLD_STAGE := 12
  const AWAIT_SIGCHLD := 13
  const SET_CREDS_COUNT := 14
  const SET_CREDS_STAGE := 15
  const AWAIT_CREDS := 16
  const SET_COMPLETE := 17
  const FINISHED := 18

  function Count(bits: seq<bool>): nat {
    if bits == [] then 0 else Count(bits[..|bits| - 1]) + (if bits[|bits| - 1] then 1 else 0)
  }

  /** ns: the root task gets namespaces of its own, so criu takes part in the first stages. */
  datatype Config = Config(parts: seq<Part>, ns: bool) {
    predicate Valid() {
      && parts != [] && parts[0].main && parts[0].kind == Alive
      && forall p :: 0 < p < |parts| ==> ValidPart(p)
    }

    /** Makers come first, and only a living process has more threads. */
    predicate ValidPart(p: nat)
      requires p < |parts|
    {
      && parts[p].maker < p && parts[parts[p].maker].main
      && (!parts[p].main ==> parts[p].kind == Alive && parts[parts[p].maker].kind == Alive)
    }

    predicate Living(p: nat) requires p < |parts| { parts[p].kind == Alive }

    /** p is a thread of the root task. */
    predicate OfRoot(p: nat) requires p < |parts| { p == 0 || (!parts[p].main && parts[p].maker == 0) }

    /** q is a child of p that dies during the restore. */
    predicate DyingChild(p: nat, q: nat) { q < |parts| && 0 < q && parts[q].main && parts[q].kind != Alive
                                          && parts[q].maker == p }

    predicate ExpectsDeath(p: nat) { exists q :: 0 <= q < |parts| && DyingChild(p, q) }

    // nr_tasks + nr_helpers, nr_threads, nr_helpers, and current->nr_threads of the root
    function Mains(): seq<bool> { seq(|parts|, p requires 0 <= p < |parts| => parts[p].main) }
    function Threads(): seq<bool> { seq(|parts|, p requires 0 <= p < |parts| => parts[p].kind != Helper) }
    function Helpers(): seq<bool> { seq(|parts|, p requires 0 <= p < |parts| => parts[p].kind == Helper) }
    function Zombies(): seq<bool> { seq(|parts|, p requires 0 <= p < |parts| => parts[p].kind == Zombie) }
    function RootThreads(): seq<bool> { seq(|parts|, p requires 0 <= p < |parts| => OfRoot(p)) }
  }

  datatype State = State(criu: nat, nrInProgress: int, start: Stage, nrThreads: int, at: seq<nat>)

  function Start(c: Config): State {
    State(SET_ROOT_COUNT, 0, Fail, Count(c.Threads()), seq(|c.parts|, p => UNBORN))
  }

  /** stage_participants. */
  function Participants(c: Config, s: State, next: Stage): int {
    match next
    case Fail => 0
    case RootTask => 1
    case PrepareNamespaces => 1
    case Forking => Count(c.Mains())
    case Restore => s.nrThreads + Count(c.Helpers())
    case RestoreSigchld => s.nrThreads
    case RestoreCreds => s.nrThreads
    case Complete => 0
  }

  ghost predicate Sized(c: Config, s: State) { c.Valid() && |s.at| == |c.parts| }

  /** Part p may take its next step. */
  predicate CanStep(c: Config, s: State, p: nat)
    requires Sized(c, s) && p < |s.at|
  {
    var r := s.at[p];
    if r == UNBORN || r >= OVER then false
    else if p == 0 && r == WAIT_ROOT_TASK then c.ns ==> s.start != RootTask
    else if p == 0 && r == WAIT_PREPARE_NS then c.ns ==> s.start != PrepareNamespaces
    else if r == FORKING then forall q :: 0 < q < |s.at| && c.parts[q].main && c.parts[q].maker == p ==>
        s.at[q] > UNBORN
    else if p == 0 && r == END_FORKING then s.nrInProgress <= 1
    else if p != 0 && r == WAIT_FORKING then s.start != Forking
    else if r == WAIT_OTHERS then s.nrInProgress <= Count(c.RootThreads())
    else if r == SPAWNING then forall q :: 0 < q < |s.at| && !c.parts[q].main && c.parts[q].maker == p ==>
        s.at[q] > UNBORN
    else if r == WAIT_RESTORE && !c.Living(p) && c.ExpectsDeath(p) then exists q ::
        0 <= q < |s.at| && c.DyingChild(p, q) && s.at[q] == OVER
    else if r == WAIT_RESTORE then s.start != Restore
    else if r == SIGCHLD && c.parts[p].main then forall q :: 0 <= q < |s.at| && c.DyingChild(p, q) ==> s.at[q] == OVER
    else if r == WAIT_SIGCHLD then s.start != RestoreSigchld
    else if r == WAIT_CREDS then s.start != RestoreCreds
    else true
  }

  function NextAt(c: Config, p: nat, r: nat): nat
    requires c.Valid() && p < |c.parts|
  {
    if r == WAIT_FORKING && p != 0 then RESTORING
    else if r == RESTORING && p != 0 then (if c.parts[p].main && c.Living(p) then SPAWNING else END_RESTORE)
    else if r == WAIT_RESTORE && !c.Living(p) && !c.ExpectsDeath(p) then OVER
    else if r == SIGCHLD && !c.Living(p) then OVER
    else r + 1
  }

  /** futex_dec_and_wake. */
  predicate Decrements(c: Config, p: nat, r: nat) {
    || (p == 0 && c.ns && (r == END_ROOT_TASK || r == END_PREPARE_NS))
    || (p != 0 && r == END_FORKING)
    || r == END_RESTORE || r == END_SIGCHLD || r == END_CREDS
  }

  function PartStep(c: Config, s: State, p: nat): State
    requires Sized(c, s) && p < |s.at|
  {
    var r := s.at[p];
    State(s.criu,
          if Decrements(c, p, r) then s.nrInProgress - 1
          else if p == 0 && !c.ns && r == END_ROOT_TASK then Participants(c, s, PrepareNamespaces)
          else if p == 0 && !c.ns && r == END_PREPARE_NS then Participants(c, s, Forking)
          else if p == 0 && r == WAIT_FORKING then Participants(c, s, Restore)
          else s.nrInProgress,
          if p == 0 && !c.ns && r == WAIT_ROOT_TASK then PrepareNamespaces
          else if p == 0 && !c.ns && r == WAIT_PREPARE_NS then Forking
          else if p == 0 && r == SET_RESTORE then Restore
          else s.start,
          s.nrThreads, s.at[p := NextAt(c, p, r)])
  }

  /** fork_with_pid of a child, or the creation of a thread in the restorer. */
  predicate CanMake(c: Config, s: State, q: nat)
    requires Sized(c, s)
  {
    && 0 < q < |s.at| && s.at[q] == UNBORN && c.ValidPart(q)
    && s.at[c.parts[q].maker] == if c.parts[q].main then FORKING else SPAWNING
  }

  function Make(c: Config, s: State, q: nat): State
    requires Sized(c, s) && CanMake(c, s, q)
  {
    s.(at := s.at[q := if c.parts[q].main then FORKING else RESTORING])
  }

  /** restore_root_task. */
  predicate CanCriu(c: Config, s: State) {
    && s.criu < FINISHED
    && (s.criu == AWAIT_ROOT || s.criu == AWAIT_NS || s.criu == AWAIT_RESTORE || s.criu == AWAIT_SIGCHLD
        || s.criu == AWAIT_CREDS
        ==> s.nrInProgress <= 0)
  }

  function CriuStep(c: Config, s: State): State
    requires Sized(c, s)
  {
    var k := s.criu;
    State(if k == FORK_ROOT && !c.ns then AWAIT_RESTORE else k + 1,
          if k == SET_ROOT_COUNT then Participants(c, s, RootTask)
          else if k == SET_NS_COUNT then Participants(c, s, PrepareNamespaces)
          else if k == SET_FORK_COUNT then Participants(c, s, Forking)
          else if k == SET_SIGCHLD_COUNT then Participants(c, s, RestoreSigchld)
          else if k == SET_CREDS_COUNT then Participants(c, s, RestoreCreds)
          else s.nrInProgress,
          if k == SET_ROOT_STAGE then RootTask
          else if k == SET_NS_STAGE then PrepareNamespaces
          else if k == SET_FORK_STAGE then Forking
          else if k == SET_SIGCHLD_STAGE then RestoreSigchld
          else if k == SET_CREDS_STAGE then RestoreCreds
          else if k == SET_COMPLETE then Complete
          else s.start,
          if k == DROP_ZOMBIES then s.nrThreads - Count(c.Zombies()) else s.nrThreads,
          if k == FORK_ROOT then s.at[0 := ROOT_TASK] else s.at)
  }

  datatype Action = Criu | Move(p: nat) | Birth(q: nat)

  predicate Enabled(c: Config, s: State, a: Action)
    requires Sized(c, s)
  {
    match a
    case Criu => CanCriu(c, s)
    case Move(p) => p < |s.at| && CanStep(c, s, p)
    case Birth(q) => CanMake(c, s, q)
  }

  function Do(c: Config, s: State, a: Action): (s': State)
    requires Sized(c, s) && Enabled(c, s, a)
    ensures Sized(c, s')
  {
    match a
    case Criu => CriuStep(c, s)
    case Move(p) => PartStep(c, s, p)
    case Birth(q) => Make(c, s, q)
  }

  ghost predicate Next(c: Config, s: State, s': State) {
    Sized(c, s) && exists a :: Enabled(c, s, a) && s' == Do(c, s, a)
  }

  ghost predicate Run(c: Config, run: seq<State>) {
    && c.Valid() && run != [] && run[0] == Start(c) && (forall k :: 0 <= k < |run| ==> Sized(c, run[k]))
    && forall k :: 0 <= k < |run| - 1 ==> Stepped(c, run, k)
  }

  ghost predicate Stepped(c: Config, run: seq<State>, k: nat)
    requires k + 1 < |run|
  {
    Next(c, run[k], run[k + 1])
  }
}
