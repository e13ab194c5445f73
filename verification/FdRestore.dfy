/** Distributed restore of file descriptors (criu/files.c, with epoll files from criu/eventpoll.c).

    Tasks restore their descriptors in parallel.  Every open file has one master entry; the task owning
    the master opens the file and serves it to the other entries: by dup2 inside its own table and by
    a datagram to the transport socket of every other task.  A task that cannot make progress sleeps on
    the event bit of its own futex word.

    The model gives every task a program counter and one deterministic `TaskStep`; only the choice of the
    task that moves is free, so a run is any interleaving.  Between two steps of one task any other task
    may move: sending a descriptor, setting the event bit and waking the sleeper are three separate
    steps, and so are reading the futex word, calling FUTEX_WAIT and clearing the bit.
 */
module FdRestore {

  type Task = nat
  type Fle = nat
  type Desc = nat

  /** What the `open` method of a file type needs: a plain file opens at once, an epoll first appears
      and is finished only when the descriptors it watches are ready. */
  datatype Kind = Plain | Epoll(tfds: seq<int>)

  /** struct file_desc: the type and the list of entries sharing the file; the first one is the master. */
  datatype FileDesc = FileDesc(kind: Kind, users: seq<Fle>)

  /** The fixed part of struct fdinfo_list_entry. */
  datatype FleInfo = FleInfo(task: Task, fd: int, desc: Desc, fake: bool)

  /** What the images describe: tasks, entries and files are numbered from zero; fds[t] is the list
      rsti(t)->fds as prepared before the restore. */
  datatype Config = Config(fles: seq<FleInfo>, descs: seq<FileDesc>, fds: seq<seq<Fle>>)

  datatype Stage = Initialized | Open | Restored {
    function Rank(): nat {
      match this case Initialized => 0 case Open => 1 case Restored => 2
    }
  }

  /** One open file: the description it restores, the entry whose task files it, and the number of the
      open call, so that two calls never yield the same file. */
  datatype OpenFile = OpenFile(desc: Desc, opener: Fle, serial: nat)

  datatype Msg = Msg(fle: Fle, file: OpenFile)

  /** Where serve_out_fd stands: before the next entry, after sending a descriptor to dst but before
      set_fds_event, or after setting the event bit of task who but before futex_wake. */
  datatype Phase = Next | Sent(dst: Fle) | Marked(who: Task)

  /** Program counter of open_fdinfos and of what it calls. */
  datatype PC =
    | Top                                                         // head of the do-while, before clear_fds_event
    | Scan(todo: seq<Fle>)                                        // list_for_each_entry_safe
    | Recv(cur: Fle, todo: seq<Fle>)                              // do-while of recv_fd_from_peer
    | Serve(cur: Fle, out: seq<Fle>, todo: seq<Fle>, phase: Phase)  // loop of serve_out_fd
    | WaitCheck                                                   // futex_wait_if_cond: about to read the word
    | FutexCall                                                   // read it without the bit: about to FUTEX_WAIT
    | Sleeping
    | WaitClear                                                   // woken: about to clear the bit
    | Done

  datatype Proc = Proc(pc: PC, progress: bool, again: bool, list: seq<Fle>)

  /** table[t] is the descriptor table of task t; bug records that a BUG_ON or an unexpected message
      was met. */
  datatype State = State(
    stage: seq<Stage>,
    received: seq<bool>,
    procs: seq<Proc>,
    queue: seq<seq<Msg>>,
    event: seq<bool>,
    table: seq<map<int, OpenFile>>,
    files: map<Desc, OpenFile>,
    serial: nat,
    plants: seq<nat>,
    bug: bool)

  ghost predicate Distinct<T>(s: seq<T>) {
    forall i, j :: 0 <= i < j < |s| ==> s[i] != s[j]
  }

  /** The numbers in the images point to tasks, entries and files that exist. */
  ghost predicate ValidConfig(c: Config) {
    && (forall f :: 0 <= f < |c.fles| ==> c.fles[f].desc < |c.descs| && c.fles[f].task < |c.fds|)
    && (forall d :: 0 <= d < |c.descs| ==> c.descs[d].users != [])
    && (forall d, i :: 0 <= d < |c.descs| && 0 <= i < |c.descs[d].users| ==>
          c.descs[d].users[i] < |c.fles| && c.fles[c.descs[d].users[i]].desc == d)
  }

  /** Every entry is once in the list of its file and once in the list of its task, and two entries
      of one task have different descriptor numbers. */
  ghost predicate Linked(c: Config)
    requires ValidConfig(c)
  {
    && (forall f :: 0 <= f < |c.fles| ==> f in c.descs[c.fles[f].desc].users)
    && (forall d :: 0 <= d < |c.descs| ==> Distinct(c.descs[d].users))
    && (forall t :: 0 <= t < |c.fds| ==> Distinct(c.fds[t]) && Fles(c, c.fds[t]))
    && (forall t, f :: 0 <= t < |c.fds| && 0 <= f < |c.fles| ==> (f in c.fds[t] <==> c.fles[f].task == t))
    && (forall f, g :: 0 <= f < |c.fles| && 0 <= g < |c.fles| && f != g && c.fles[f].task == c.fles[g].task
          ==> c.fles[f].fd != c.fles[g].fd)
  }

  ghost predicate Shape(c: Config, s: State) {
    && |s.stage| == |s.received| == |s.plants| == |c.fles|
    && |s.procs| == |s.queue| == |s.event| == |s.table| == |c.fds|
  }

  /** file_master: the first entry of the description of f. */
  function Master(c: Config, f: Fle): (m: Fle)
    requires ValidConfig(c) && f < |c.fles|
    ensures m < |c.fles| && c.fles[m].desc == c.fles[f].desc
  {
    c.descs[c.fles[f].desc].users[0]
  }

  function KindOf(c: Config, f: Fle): Kind
    requires ValidConfig(c) && f < |c.fles|
  {
    c.descs[c.fles[f].desc].kind
  }

  /** The state in which every task is about to enter open_fdinfos. */
  function Start(c: Config): (s: State) {
    State(
      seq(|c.fles|, f => Initialized),
      seq(|c.fles|, f => false),
      seq(|c.fds|, t requires 0 <= t < |c.fds| => Proc(Top, false, false, c.fds[t])),
      seq(|c.fds|, t => []),
      seq(|c.fds|, t => false),
      seq(|c.fds|, t => map[]),
      map[], 0,
      seq(|c.fles|, f => 0),
      false)
  }

  /** epoll_not_ready_tfd: looks the watched descriptor up in the list of unrestored entries. */
  predicate NotReady(c: Config, s: State, list: seq<Fle>, tfd: int)
    requires ValidConfig(c) && Shape(c, s)
    requires Fles(c, list)
  {
    if list == [] then false
    else if c.fles[list[0]].fd != tfd then NotReady(c, s, list[1..], tfd)
    else if KindOf(c, list[0]).Epoll? then s.stage[list[0]].Rank() < Open.Rank()
    else s.stage[list[0]] != Restored
  }

  /** eventpoll_post_open, first loop: some watched descriptor is not ready yet. */
  predicate EpollBlocked(c: Config, s: State, list: seq<Fle>, tfds: seq<int>)
    requires ValidConfig(c) && Shape(c, s)
    requires Fles(c, list)
  {
    exists i | 0 <= i < |tfds| :: NotReady(c, s, list, tfds[i])
  }

  function Remove(list: seq<Fle>, f: Fle): (r: seq<Fle>) {
    if list == [] then []
    else if list[0] == f then list[1..]
    else [list[0]] + Remove(list[1..], f)
  }

  function WithoutFakes(c: Config, t: Task, table: map<int, OpenFile>): map<int, OpenFile> {
    map fd | fd in table
        && !(exists f | 0 <= f < |c.fles| :: c.fles[f].task == t && c.fles[f].fd == fd && c.fles[f].fake)
      :: table[fd]
  }

  ghost predicate Enabled(s: State, t: Task) {
    t < |s.procs| && !s.procs[t].pc.Done? && !s.procs[t].pc.Sleeping?
  }

  /** The program counter only names entries and tasks that exist. */
  ghost predicate PcShape(c: Config, s: State, pc: PC)
    requires ValidConfig(c)
  {
    && (pc.Scan? ==> Fles(c, pc.todo))
    && (pc.Recv? ==> pc.cur < |c.fles| && Fles(c, pc.todo))
    && (pc.Serve? ==>
          && pc.cur < |c.fles| && Fles(c, pc.out) && Fles(c, pc.todo) && c.fles[pc.cur].desc in s.files
          && (pc.phase.Sent? ==> pc.phase.dst < |c.fles|)
          && (pc.phase.Marked? ==> pc.phase.who < |c.fds|))
  }

  ghost predicate Fles(c: Config, list: seq<Fle>) {
    forall i :: 0 <= i < |list| ==> list[i] < |c.fles|
  }

  ghost predicate Typed(c: Config, s: State)
    requires ValidConfig(c)
  {
    && Shape(c, s)
    && (forall t :: 0 <= t < |c.fds| ==> Fles(c, s.procs[t].list) && PcShape(c, s, s.procs[t].pc))
    && (forall t, i :: 0 <= t < |c.fds| && 0 <= i < |s.queue[t]| ==> s.queue[t][i].fle < |c.fles|)
  }

  function SetProc(s: State, t: Task, p: Proc): State
    requires t < |s.procs|
  {
    s.(procs := s.procs[t := p])
  }

  /** open_fd returned 0: the entry is restored and leaves the list; the pass made progress. */
  function Finish(s: State, t: Task, f: Fle, todo: seq<Fle>): State
    requires t < |s.procs| && f < |s.stage|
  {
    SetProc(s.(stage := s.stage[f := Restored]), t,
            s.procs[t].(pc := Scan(todo), progress := true, list := Remove(s.procs[t].list, f)))
  }

  /** open_fd returned 1 without changing the stage. */
  function Later(s: State, t: Task, todo: seq<Fle>): State
    requires t < |s.procs|
  {
    SetProc(s, t, s.procs[t].(pc := Scan(todo), again := true))
  }

  /** The open method yields a new file; setup_and_serve_out plants it and starts serving it. */
  function OpenMaster(c: Config, s: State, t: Task, f: Fle, todo: seq<Fle>): State
    requires ValidConfig(c) && Shape(c, s) && t < |c.fds| && f < |c.fles|
  {
    var d := c.fles[f].desc;
    var file := OpenFile(d, f, s.serial);
    SetProc(s.(stage := s.stage[f := Open],
               files := s.files[d := file],
               serial := s.serial + 1,
               table := s.table[t := s.table[t][c.fles[f].fd := file]],
               plants := s.plants[f := s.plants[f] + 1],
               bug := s.bug || s.stage[f] != Initialized),
            t, s.procs[t].(pc := Serve(f, c.descs[d].users, todo, Next)))
  }

  /** One descriptor arrives in the table of task t (plant_fd or send_fd_to_self). */
  function Plant(c: Config, s: State, t: Task, f: Fle, file: OpenFile): State
    requires Shape(c, s) && t < |c.fds| && f < |c.fles|
  {
    s.(received := s.received[f := true],
       table := s.table[t := s.table[t][c.fles[f].fd := file]],
       plants := s.plants[f := s.plants[f] + 1])
  }

  function StepTop(s: State, t: Task): State
    requires t < |s.procs| && t < |s.event|
  {
    SetProc(s.(event := s.event[t := false]), t,
            s.procs[t].(pc := Scan(s.procs[t].list), progress := false, again := false))
  }

  /** End of a pass over the list: `if (!progress && again) wait_fds_event(); while (again || progress)`. */
  function StepPassEnd(c: Config, s: State, t: Task): State
    requires Shape(c, s) && t < |c.fds|
  {
    var p := s.procs[t];
    if p.progress then SetProc(s, t, p.(pc := Top))
    else if p.again then SetProc(s, t, p.(pc := WaitCheck))
    else SetProc(s.(bug := s.bug || p.list != [], table := s.table[t := WithoutFakes(c, t, s.table[t])]), t,
                 p.(pc := Done))
  }

  /** One entry of the pass: the body of the loop of open_fdinfos, up to open_fd. */
  function StepScan(c: Config, s: State, t: Task): State
    requires ValidConfig(c) && Typed(c, s) && t < |c.fds|
    requires s.procs[t].pc.Scan? && s.procs[t].pc.todo != []
  {
    var p := s.procs[t];
    var f, todo := p.pc.todo[0], p.pc.todo[1..];
    var s0 := s.(bug := s.bug || s.stage[f] == Restored);
    if f != Master(c, f) then
      var s1 := s0.(bug := s0.bug || s.stage[f] != Initialized);
      if s.received[f] then Finish(s1, t, f, todo)
      else SetProc(s1, t, p.(pc := Recv(f, todo)))
    else if KindOf(c, f).Epoll? && s.stage[f].Rank() >= Open.Rank() then
      if EpollBlocked(c, s, p.list, KindOf(c, f).tfds) then Later(s0, t, todo) else Finish(s0, t, f, todo)
    else OpenMaster(c, s0, t, f, todo)
  }

  /** One MSG_DONTWAIT receive of recv_fd_from_peer. */
  function StepRecv(c: Config, s: State, t: Task): State
    requires ValidConfig(c) && Typed(c, s) && t < |c.fds| && s.procs[t].pc.Recv?
  {
    var p := s.procs[t];
    var f, todo := p.pc.cur, p.pc.todo;
    if s.queue[t] == [] then Later(s, t, todo)
    else
      var m := s.queue[t][0];
      var s0 := s.(queue := s.queue[t := s.queue[t][1..]],
                   bug := s.bug || m.fle !in p.list || s.received[m.fle]);
      var s1 := Plant(c, s0, t, m.fle, m.file);
      if m.fle == f then Finish(s1, t, f, todo) else s1
  }

  /** One entry of serve_out_fd, or the return to open_fdinfos when all are served. */
  function StepServe(c: Config, s: State, t: Task): State
    requires ValidConfig(c) && Typed(c, s) && t < |c.fds| && s.procs[t].pc.Serve? && s.procs[t].pc.phase.Next?
  {
    var p := s.procs[t];
    var f, out, todo := p.pc.cur, p.pc.out, p.pc.todo;
    if out == [] then
      if KindOf(c, f).Epoll? then SetProc(s, t, p.(pc := Scan(todo), progress := true, again := true))
      else Finish(s, t, f, todo)
    else
      var u := out[0];
      var file := s.files[c.fles[f].desc];
      if c.fles[u].task == t then
        var s0 := if c.fles[u].fd == c.fles[f].fd then s else Plant(c, s, t, u, file);
        SetProc(s0, t, p.(pc := Serve(f, out[1..], todo, Next)))
      else
        var w := c.fles[u].task;
        SetProc(s.(queue := s.queue[w := s.queue[w] + [Msg(u, file)]]), t, p.(pc := Serve(f, out[1..], todo, Sent(u))))
  }

  /** set_fds_event: test_and_set, then futex_wake only if the bit was clear. */
  function StepSignal(c: Config, s: State, t: Task): State
    requires ValidConfig(c) && Typed(c, s) && t < |c.fds| && s.procs[t].pc.Serve? && s.procs[t].pc.phase.Sent?
  {
    var p := s.procs[t];
    var w := c.fles[p.pc.phase.dst].task;
    if s.event[w] then SetProc(s, t, p.(pc := p.pc.(phase := Next)))
    else SetProc(s.(event := s.event[w := true]), t, p.(pc := p.pc.(phase := Marked(w))))
  }

  function StepWake(c: Config, s: State, t: Task): State
    requires ValidConfig(c) && Typed(c, s) && t < |c.fds| && s.procs[t].pc.Serve? && s.procs[t].pc.phase.Marked?
  {
    var p := s.procs[t];
    var w := p.pc.phase.who;
    var s0 := if s.procs[w].pc.Sleeping? then SetProc(s, w, s.procs[w].(pc := WaitCheck)) else s;
    SetProc(s0, t, p.(pc := p.pc.(phase := Next)))
  }

  /** wait_fds_event: re-read the word, FUTEX_WAIT (which re-checks the word in the kernel), clear. */
  function StepWait(s: State, t: Task): State
    requires t < |s.procs| && t < |s.event|
    requires s.procs[t].pc.WaitCheck? || s.procs[t].pc.FutexCall? || s.procs[t].pc.WaitClear?
  {
    var p := s.procs[t];
    match p.pc
    case WaitCheck => SetProc(s, t, p.(pc := if s.event[t] then WaitClear else FutexCall))
    case FutexCall => SetProc(s, t, p.(pc := if s.event[t] then WaitCheck else Sleeping))
    case WaitClear => SetProc(s.(event := s.event[t := false]), t, p.(pc := Top))
  }

  function TaskStep(c: Config, s: State, t: Task): State
    requires ValidConfig(c) && Typed(c, s) && Enabled(s, t)
  {
    match s.procs[t].pc
    case Top => StepTop(s, t)
    case Scan(todo) => if todo == [] then StepPassEnd(c, s, t) else StepScan(c, s, t)
    case Recv(_, _) => StepRecv(c, s, t)
    case Serve(_, _, _, phase) =>
      if phase.Next? then StepServe(c, s, t) else if phase.Sent? then StepSignal(c, s, t) else StepWake(c, s, t)
    case WaitCheck => StepWait(s, t)
    case FutexCall => StepWait(s, t)
    case WaitClear => StepWait(s, t)
  }
}
