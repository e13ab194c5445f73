/** What every step of the distributed descriptor restore keeps. */
module FdRestoreInvariant {
  import opened FdRestore

  /** Entries the task will still look at in the current pass. */
  function Pending(pc: PC): seq<Fle> {
    match pc
    case Scan(todo) => todo
    case Recv(cur, todo) => [cur] + todo
    case Serve(_, _, todo, _) => todo
    case _ => []
  }

  predicate Waiting(pc: PC) { pc.WaitCheck? || pc.FutexCall? || pc.Sleeping? }

  ghost predicate HasMsg(q: seq<Msg>, f: Fle) {
    exists i :: 0 <= i < |q| && q[i].fle == f
  }

  /** The task of the master has sent f but not set the event bit of the receiver yet. */
  predicate Signalling(pc: PC, f: Fle) { pc.Serve? && pc.phase == Sent(f) }

  predicate Waking(pc: PC, t: Task) { pc.Serve? && pc.phase == Marked(t) }

  /** serve_out_fd has not come to f yet. */
  predicate Unserved(c: Config, s: State, f: Fle)
    requires ValidConfig(c) && Shape(c, s) && f < |c.fles|
  {
    var m := Master(c, f);
    var pc := s.procs[c.fles[m].task].pc;
    s.stage[m] == Initialized || (pc.Serve? && pc.cur == m && f in pc.out)
  }

  // ----- the parts of the invariant

  ghost predicate ListOk(c: Config, s: State, t: Task)
    requires ValidConfig(c) && Shape(c, s) && t < |c.fds|
  {
    && Distinct(s.procs[t].list)
    && forall f :: 0 <= f < |c.fles| ==>
         (f in s.procs[t].list <==> c.fles[f].task == t && s.stage[f] != Restored)
  }

  ghost predicate PassOk(c: Config, s: State, t: Task)
    requires ValidConfig(c) && Typed(c, s) && t < |c.fds|
  {
    var p := s.procs[t];
    && Distinct(Pending(p.pc))
    && (forall f :: f in Pending(p.pc) ==> f in p.list)
    && (p.pc.Recv? ==> p.pc.cur != Master(c, p.pc.cur) && !s.received[p.pc.cur])
    && (p.pc.Serve? ==>
          && p.pc.cur in p.list && p.pc.cur !in p.pc.todo
          && p.pc.cur == Master(c, p.pc.cur) && s.stage[p.pc.cur] == Open
          && Distinct(p.pc.out)
          && (forall u :: u in p.pc.out ==> u in c.descs[c.fles[p.pc.cur].desc].users)
          && (p.pc.phase.Sent? ==> c.fles[p.pc.phase.dst].desc == c.fles[p.pc.cur].desc
                                   && c.fles[p.pc.phase.dst].task != t && p.pc.phase.dst !in p.pc.out)
          && (p.pc.phase.Marked? ==> p.pc.phase.who != t))
    && (Waiting(p.pc) || p.pc.WaitClear? ==> !p.progress && p.again)
    && (p.pc.Done? ==> p.list == [] && !p.progress)
  }

  ghost predicate StageOk(c: Config, s: State, f: Fle)
    requires ValidConfig(c) && Shape(c, s) && f < |c.fles|
  {
    var pc := s.procs[c.fles[f].task].pc;
    && (f != Master(c, f) ==> s.stage[f] != Open)
    && (f == Master(c, f) && KindOf(c, f).Plain? && s.stage[f] == Open ==> pc.Serve? && pc.cur == f)
  }

  /** Every entry but the master is exactly one of: not served yet, under way in the queue of its task,
      received. */
  ghost predicate DeliveryOk(c: Config, s: State, f: Fle)
    requires ValidConfig(c) && Shape(c, s) && f < |c.fles|
  {
    var inQueue := HasMsg(s.queue[c.fles[f].task], f);
    if f == Master(c, f) then !inQueue && !s.received[f]
    else
      && (Unserved(c, s, f) ==> !inQueue && !s.received[f])
      && (!Unserved(c, s, f) ==> inQueue || s.received[f])
      && (inQueue ==> !s.received[f])
      && (s.stage[f] == Restored ==> s.received[f])
  }

  ghost predicate QueueOk(c: Config, s: State, t: Task)
    requires ValidConfig(c) && Typed(c, s) && t < |c.fds|
  {
    var q := s.queue[t];
    && (forall i, j :: 0 <= i < j < |q| ==> q[i].fle != q[j].fle)
    && (forall i :: 0 <= i < |q| ==>
          && c.fles[q[i].fle].task == t
          && c.fles[q[i].fle].desc in s.files && q[i].file == s.files[c.fles[q[i].fle].desc])
  }

  predicate Planted(c: Config, s: State, f: Fle)
    requires ValidConfig(c) && Shape(c, s) && f < |c.fles|
  {
    if f == Master(c, f) then s.stage[f] != Initialized else s.received[f]
  }

  /** The descriptor table holds, for a planted entry, the file its own master opened. */
  ghost predicate TableOk(c: Config, s: State, f: Fle)
    requires ValidConfig(c) && Shape(c, s) && f < |c.fles|
  {
    var t := c.fles[f].task;
    && s.plants[f] == (if Planted(c, s, f) then 1 else 0)
    && (Planted(c, s, f) ==> c.fles[f].desc in s.files)
    && (Planted(c, s, f) && !(s.procs[t].pc.Done? && c.fles[f].fake) ==>
          c.fles[f].fd in s.table[t] && s.table[t][c.fles[f].fd] == s.files[c.fles[f].desc])
    && (s.procs[t].pc.Done? && c.fles[f].fake ==> c.fles[f].fd !in s.table[t])
  }

  ghost predicate FileOk(c: Config, s: State, d: Desc)
    requires ValidConfig(c) && Shape(c, s) && d < |c.descs|
  {
    var m := c.descs[d].users[0];
    && (d in s.files <==> s.stage[m] != Initialized)
    && (d in s.files ==> s.files[d].desc == d && s.files[d].opener == m && s.files[d].serial < s.serial)
  }

  /** The task is certain to look at f again. */
  predicate WillVisit(c: Config, s: State, f: Fle)
    requires ValidConfig(c) && Shape(c, s) && f < |c.fles|
  {
    var t := c.fles[f].task;
    var p := s.procs[t];
    || p.pc.Top? || p.pc.WaitClear? || p.pc.Serve? || p.progress
    || s.event[t]
    || f in Pending(p.pc)
    || Signalling(s.procs[c.fles[Master(c, f)].task].pc, f)
  }

  /** f can be restored as soon as its task looks at it. */
  ghost predicate Arrived(c: Config, s: State, f: Fle)
    requires ValidConfig(c) && Shape(c, s) && f < |c.fles|
  {
    HasMsg(s.queue[c.fles[f].task], f) || (s.received[f] && s.stage[f] != Restored)
  }

  ghost predicate NoLostWakeup(c: Config, s: State, f: Fle)
    requires ValidConfig(c) && Shape(c, s) && f < |c.fles|
  {
    Arrived(c, s, f) ==> WillVisit(c, s, f)
  }

  /** A sleeper whose bit is set is about to be woken. */
  ghost predicate FutexOk(c: Config, s: State, t: Task)
    requires Shape(c, s) && t < |c.fds|
  {
    && (s.procs[t].pc.Sleeping? && s.event[t] ==> exists u :: 0 <= u < |c.fds| && Waking(s.procs[u].pc, t))
    && (s.procs[t].pc.WaitClear? ==> s.event[t])
  }

  /** A pass found f and could not restore it. */
  predicate Blocked(c: Config, s: State, t: Task, f: Fle)
    requires ValidConfig(c) && Typed(c, s) && t < |c.fds| && f < |c.fles|
  {
    f != Master(c, f) ||
    (KindOf(c, f).Epoll? && s.stage[f] == Open && EpollBlocked(c, s, s.procs[t].list, KindOf(c, f).tfds))
  }

  /** While a pass makes no progress, every entry it has passed stays blocked. */
  ghost predicate ScannedOk(c: Config, s: State, t: Task)
    requires ValidConfig(c) && Typed(c, s) && t < |c.fds|
  {
    var p := s.procs[t];
    !p.progress && (p.pc.Scan? || p.pc.Recv? || Waiting(p.pc)) ==>
      && (p.again ==> p.list != [])
      && (!p.again ==> forall f :: f in p.list ==> f in Pending(p.pc))
      && (forall f :: 0 <= f < |c.fles| && f in p.list && f !in Pending(p.pc) ==> Blocked(c, s, t, f))
  }

  ghost predicate TaskInv(c: Config, s: State, t: Task)
    requires ValidConfig(c) && Typed(c, s) && t < |c.fds|
  {
    ListOk(c, s, t) && PassOk(c, s, t) && QueueOk(c, s, t) && FutexOk(c, s, t) && ScannedOk(c, s, t)
  }

  ghost predicate FleInv(c: Config, s: State, f: Fle)
    requires ValidConfig(c) && Shape(c, s) && f < |c.fles|
  {
    StageOk(c, s, f) && DeliveryOk(c, s, f) && TableOk(c, s, f) && NoLostWakeup(c, s, f)
  }

  ghost predicate Inv(c: Config, s: State) {
    && ValidConfig(c) && Linked(c)
    && Typed(c, s)
    && (forall t :: 0 <= t < |c.fds| ==> TaskInv(c, s, t))
    && (forall f :: 0 <= f < |c.fles| ==> FleInv(c, s, f))
    && (forall d :: 0 <= d < |c.descs| ==> FileOk(c, s, d))
    && !s.bug
  }


  // ----- frames: what a task does not touch keeps its part of the invariant

  lemma {:induction false} NotReadyFrame(c: Config, s: State, s': State, list: seq<Fle>, tfd: int)
    requires ValidConfig(c) && Shape(c, s) && Shape(c, s') && Fles(c, list)
    requires forall i :: 0 <= i < |list| ==> s'.stage[list[i]] == s.stage[list[i]]
    ensures NotReady(c, s', list, tfd) == NotReady(c, s, list, tfd)
  {
    if list != [] { NotReadyFrame(c, s, s', list[1..], tfd); }
  }

  lemma EpollFrame(c: Config, s: State, s': State, list: seq<Fle>, tfds: seq<int>)
    requires ValidConfig(c) && Shape(c, s) && Shape(c, s') && Fles(c, list)
    requires forall i :: 0 <= i < |list| ==> s'.stage[list[i]] == s.stage[list[i]]
    ensures EpollBlocked(c, s', list, tfds) == EpollBlocked(c, s, list, tfds)
  {
    forall i | 0 <= i < |tfds| ensures NotReady(c, s', list, tfds[i]) == NotReady(c, s, list, tfds[i]) {
      NotReadyFrame(c, s, s', list, tfds[i]);
    }
  }

  /** Entries that were blocked stay blocked while neither the list nor a stage of the task changes. */
  lemma BlockedFrame(c: Config, s: State, s': State, t: Task, f: Fle)
    requires ValidConfig(c) && Typed(c, s) && Typed(c, s') && t < |c.fds| && f < |c.fles|
    requires s'.procs[t].list == s.procs[t].list && c.fles[f].task == t
    requires forall g :: 0 <= g < |c.fles| && c.fles[g].task == t ==> s'.stage[g] == s.stage[g]
    requires ListOk(c, s, t)
    ensures Blocked(c, s', t, f) == Blocked(c, s, t, f)
  {
    if KindOf(c, f).Epoll? { EpollFrame(c, s, s', s.procs[t].list, KindOf(c, f).tfds); }
  }

  /** Another task's step: the process, the stages and the queue prefix of w are as before. */
  ghost predicate Untouched(c: Config, s: State, s': State, w: Task)
    requires Shape(c, s) && Shape(c, s') && w < |c.fds|
  {
    && s'.procs[w] == s.procs[w]
    && (forall g :: 0 <= g < |c.fles| && c.fles[g].task == w ==>
        s'.stage[g] == s.stage[g] && s'.received[g] == s.received[g])
  }

  lemma TaskFrame(c: Config, s: State, s': State, w: Task)
    requires ValidConfig(c) && Typed(c, s) && Typed(c, s') && w < |c.fds|
    requires TaskInv(c, s, w) && Untouched(c, s, s', w)
    requires QueueOk(c, s', w) && FutexOk(c, s', w)
    ensures TaskInv(c, s', w)
  {
    forall f | 0 <= f < |c.fles| && f in s.procs[w].list ensures Blocked(c, s', w, f) == Blocked(c, s, w, f) {
      BlockedFrame(c, s, s', w, f);
    }
  }

  lemma StartInv(c: Config)
    requires ValidConfig(c) && Linked(c)
    ensures Inv(c, Start(c))
  {
    var s := Start(c);
    forall t | 0 <= t < |c.fds| ensures TaskInv(c, s, t) {}
    forall f | 0 <= f < |c.fles| ensures FleInv(c, s, f) {}
    forall d | 0 <= d < |c.descs| ensures FileOk(c, s, d) {}
  }

  /** Everybody who was about to wake w still is. */
  lemma FutexFrame(c: Config, s: State, s': State, w: Task)
    requires Shape(c, s) && Shape(c, s') && w < |c.fds| && FutexOk(c, s, w)
    requires s'.procs[w].pc.Sleeping? && s'.event[w] ==> s.procs[w].pc.Sleeping? && s.event[w]
    requires s'.procs[w].pc.WaitClear? ==> s.procs[w].pc.WaitClear? && (s.event[w] ==> s'.event[w])
    requires forall u :: 0 <= u < |c.fds| && Waking(s.procs[u].pc, w) ==> Waking(s'.procs[u].pc, w)
    ensures FutexOk(c, s', w)
  {
    if s'.procs[w].pc.Sleeping? && s'.event[w] {
      var u :| 0 <= u < |c.fds| && Waking(s.procs[u].pc, w);
      assert Waking(s'.procs[u].pc, w);
    }
  }

  /** The step of task t leaves the process of every other task alone. */
  ghost predicate Only(c: Config, s: State, s': State, t: Task)
    requires Shape(c, s) && Shape(c, s') && t < |c.fds|
  {
    && (forall u :: 0 <= u < |c.fds| && u != t ==> s'.procs[u] == s.procs[u])
    && (forall g :: 0 <= g < |c.fles| && c.fles[g].task != t ==>
        s'.stage[g] == s.stage[g] && s'.received[g] == s.received[g])
  }

  lemma OtherTask(c: Config, s: State, s': State, t: Task, w: Task)
    requires ValidConfig(c) && Typed(c, s) && Typed(c, s') && t < |c.fds| && w < |c.fds| && w != t && Only(c, s, s', t)
    requires TaskInv(c, s, w)
    requires Waking(s'.procs[t].pc, w) || ((s'.event[w] ==> s.event[w]) && !Waking(s.procs[t].pc, w))
    requires s.event[w] ==> s'.event[w]
    requires QueueOk(c, s', w)
    ensures TaskInv(c, s', w)
  {
    if !Waking(s'.procs[t].pc, w) { FutexFrame(c, s, s', w); }
    TaskFrame(c, s, s', w);
  }

  lemma SameBlocked(c: Config, s: State, s': State, t: Task)
    requires ValidConfig(c) && Typed(c, s) && Typed(c, s') && t < |c.fds| && ListOk(c, s, t)
    requires s'.procs[t].list == s.procs[t].list && s'.stage == s.stage
    ensures forall f :: 0 <= f < |c.fles| && f in s.procs[t].list ==> Blocked(c, s', t, f) == Blocked(c, s, t, f)
  {
    forall f | 0 <= f < |c.fles| && f in s.procs[t].list ensures Blocked(c, s', t, f) == Blocked(c, s, t, f) {
      BlockedFrame(c, s, s', t, f);
    }
  }

  /** A step that delivers nothing keeps the part of f if f keeps its reasons to be visited. */
  lemma FleFrame(c: Config, s: State, s': State, f: Fle)
    requires ValidConfig(c) && Shape(c, s) && Shape(c, s') && f < |c.fles| && FleInv(c, s, f)
    requires s'.stage == s.stage && s'.received == s.received && s'.queue == s.queue
    requires s'.table == s.table && s'.files == s.files && s'.plants == s.plants
    requires Unserved(c, s', f) == Unserved(c, s, f)
    requires s'.procs[c.fles[f].task].pc.Done? == s.procs[c.fles[f].task].pc.Done?
    requires var pc := s.procs[c.fles[f].task].pc; var pc' := s'.procs[c.fles[f].task].pc;
             pc.Serve? && pc.cur == f ==> pc'.Serve? && pc'.cur == f
    requires WillVisit(c, s, f) && Arrived(c, s, f) ==> WillVisit(c, s', f)
    ensures FleInv(c, s', f)
  {
  }

  lemma TopFle(c: Config, s: State, t: Task, f: Fle)
    requires ValidConfig(c) && Shape(c, s) && t < |c.fds| && s.procs[t].pc.Top? && f < |c.fles|
    requires FleInv(c, s, f) && ListOk(c, s, t)
    ensures FleInv(c, StepTop(s, t), f)
  {
    FleFrame(c, s, StepTop(s, t), f);
  }

  lemma TopInv(c: Config, s: State, t: Task)
    requires Inv(c, s) && t < |c.fds| && s.procs[t].pc.Top?
    ensures Inv(c, StepTop(s, t))
  {
    var s' := StepTop(s, t);
    assert TaskInv(c, s, t);
    forall w | 0 <= w < |c.fds| ensures TaskInv(c, s', w) {
      assert TaskInv(c, s, w);
      if w != t { OtherTask(c, s, s', t, w); }
    }
    forall f | 0 <= f < |c.fles| ensures FleInv(c, s', f) { assert FleInv(c, s, f); TopFle(c, s, t, f); }
    forall d | 0 <= d < |c.descs| ensures FileOk(c, s', d) { assert FileOk(c, s, d); }
  }

  lemma WaitTask(c: Config, s: State, t: Task)
    requires ValidConfig(c) && Typed(c, s) && AtWait(s, t) && Typed(c, StepWait(s, t)) && TaskInv(c, s, t)
    ensures TaskInv(c, StepWait(s, t), t)
  {
    SameBlocked(c, s, StepWait(s, t), t);
  }

  ghost predicate AtWait(s: State, t: Task) {
    t < |s.procs| && t < |s.event| &&
    (s.procs[t].pc.WaitCheck? || s.procs[t].pc.FutexCall? || s.procs[t].pc.WaitClear?)
  }

  lemma WaitFle(c: Config, s: State, t: Task, f: Fle)
    requires ValidConfig(c) && Shape(c, s) && AtWait(s, t) && f < |c.fles|
    requires FleInv(c, s, f)
    ensures FleInv(c, StepWait(s, t), f)
  {
    FleFrame(c, s, StepWait(s, t), f);
  }

  lemma WaitInv(c: Config, s: State, t: Task)
    requires Inv(c, s) && AtWait(s, t)
    ensures Inv(c, StepWait(s, t))
  {
    var s' := StepWait(s, t);
    forall w | 0 <= w < |c.fds| ensures TaskInv(c, s', w) {
      assert TaskInv(c, s, w);
      if w != t { OtherTask(c, s, s', t, w); } else { WaitTask(c, s, t); }
    }
    forall f | 0 <= f < |c.fles| ensures FleInv(c, s', f) { assert FleInv(c, s, f); WaitFle(c, s, t, f); }
    forall d | 0 <= d < |c.descs| ensures FileOk(c, s', d) { assert FileOk(c, s, d); }
  }

  /** serve_out_fd moves from one phase to the next. */
  lemma PhaseTask(c: Config, s: State, s': State, t: Task, phase: Phase)
    requires ValidConfig(c) && Typed(c, s) && Typed(c, s') && t < |c.fds| && s.procs[t].pc.Serve? && TaskInv(c, s, t)
    requires s'.procs[t] == s.procs[t].(pc := s.procs[t].pc.(phase := phase))
    requires s'.stage == s.stage && s'.queue == s.queue && s'.files == s.files
    requires phase == Next || (phase.Marked? && phase.who != t)
    ensures TaskInv(c, s', t)
  {
  }

  lemma SignalOwn(c: Config, s: State, t: Task)
    requires ValidConfig(c) && Typed(c, s) && t < |c.fds| && s.procs[t].pc.Serve? && s.procs[t].pc.phase.Sent?
    requires TaskInv(c, s, t) && Typed(c, StepSignal(c, s, t))
    ensures TaskInv(c, StepSignal(c, s, t), t)
  {
    PhaseTask(c, s, StepSignal(c, s, t), t, StepSignal(c, s, t).procs[t].pc.phase);
  }

  lemma SignalOther(c: Config, s: State, t: Task, w: Task)
    requires ValidConfig(c) && Typed(c, s) && t < |c.fds| && w < |c.fds| && w != t && s.procs[t].pc.Serve?
    requires s.procs[t].pc.phase.Sent? && TaskInv(c, s, w) && Typed(c, StepSignal(c, s, t))
    ensures TaskInv(c, StepSignal(c, s, t), w)
  {
    OtherTask(c, s, StepSignal(c, s, t), t, w);
  }

  lemma SignalTask(c: Config, s: State, t: Task, w: Task)
    requires ValidConfig(c) && Typed(c, s) && t < |c.fds| && w < |c.fds| && s.procs[t].pc.Serve?
    requires s.procs[t].pc.phase.Sent?
    requires TaskInv(c, s, t) && TaskInv(c, s, w) && Typed(c, StepSignal(c, s, t))
    ensures TaskInv(c, StepSignal(c, s, t), w)
  {
    if w == t { SignalOwn(c, s, t); } else { SignalOther(c, s, t, w); }
  }

  /** The step of task t from one phase of serving f to the next. */
  lemma PhaseFle(c: Config, s: State, s': State, t: Task, f: Fle)
    requires ValidConfig(c) && Shape(c, s) && Shape(c, s') && t < |c.fds| && f < |c.fles| && FleInv(c, s, f)
    requires s'.stage == s.stage && s'.received == s.received && s'.queue == s.queue
    requires s'.table == s.table && s'.files == s.files && s'.plants == s.plants
    requires forall u :: 0 <= u < |c.fds| && u != t && s'.procs[u] != s.procs[u] ==>
               s.procs[u].pc.Sleeping? && s'.procs[u] == s.procs[u].(pc := WaitCheck)
    requires s.procs[t].pc.Serve? && s'.procs[t].pc.Serve?
    requires s'.procs[t].pc == s.procs[t].pc.(phase := s'.procs[t].pc.phase)
    requires forall u :: 0 <= u < |c.fds| && s.event[u] ==> s'.event[u]
    requires s.procs[t].pc.phase == Sent(f) ==> s'.event[c.fles[f].task]
    ensures FleInv(c, s', f)
  {
    assert Unserved(c, s', f) == Unserved(c, s, f);
    FleFrame(c, s, s', f);
  }

  /** A step that opens nothing keeps what is known of the files. */
  lemma FilesKept(c: Config, s: State, s': State)
    requires ValidConfig(c) && Shape(c, s) && Shape(c, s') && forall d :: 0 <= d < |c.descs| ==> FileOk(c, s, d)
    requires s'.stage == s.stage && s'.files == s.files && s'.serial == s.serial
    ensures forall d :: 0 <= d < |c.descs| ==> FileOk(c, s', d)
  {
    forall d | 0 <= d < |c.descs| ensures FileOk(c, s', d) { assert FileOk(c, s, d); }
  }

  lemma SignalFle(c: Config, s: State, t: Task, f: Fle)
    requires ValidConfig(c) && Typed(c, s) && t < |c.fds| && s.procs[t].pc.Serve? && s.procs[t].pc.phase.Sent?
    requires f < |c.fles| && FleInv(c, s, f)
    ensures FleInv(c, StepSignal(c, s, t), f)
  {
    PhaseFle(c, s, StepSignal(c, s, t), t, f);
  }

  lemma SignalTyped(c: Config, s: State, t: Task)
    requires ValidConfig(c) && Typed(c, s) && t < |c.fds| && s.procs[t].pc.Serve? && s.procs[t].pc.phase.Sent?
    ensures Typed(c, StepSignal(c, s, t))
  {
  }

  lemma SignalInv(c: Config, s: State, t: Task)
    requires Inv(c, s) && t < |c.fds| && s.procs[t].pc.Serve? && s.procs[t].pc.phase.Sent?
    ensures Inv(c, StepSignal(c, s, t))
  {
    var s' := StepSignal(c, s, t);
    SignalTyped(c, s, t);
    assert TaskInv(c, s, t);
    forall w | 0 <= w < |c.fds| ensures TaskInv(c, s', w) { assert TaskInv(c, s, w); SignalTask(c, s, t, w); }
    forall f | 0 <= f < |c.fles| ensures FleInv(c, s', f) { assert FleInv(c, s, f); SignalFle(c, s, t, f); }
    FilesKept(c, s, s');
  }

  lemma WokenTask(c: Config, s: State, s': State, w: Task)
    requires ValidConfig(c) && Typed(c, s) && Typed(c, s') && w < |c.fds| && TaskInv(c, s, w)
    requires s'.procs[w] == s.procs[w] || (s.procs[w].pc.Sleeping? && s'.procs[w] == s.procs[w].(pc := WaitCheck))
    requires !s'.procs[w].pc.Sleeping? && s'.event == s.event
    requires s'.stage == s.stage && s'.received == s.received && s'.queue == s.queue && s'.files == s.files
    ensures TaskInv(c, s', w)
  {
    SameBlocked(c, s, s', w);
  }

  lemma WakeTask(c: Config, s: State, t: Task, w: Task)
    requires ValidConfig(c) && Typed(c, s) && t < |c.fds| && w < |c.fds| && s.procs[t].pc.Serve?
    requires s.procs[t].pc.phase.Marked?
    requires TaskInv(c, s, t) && TaskInv(c, s, w) && Typed(c, StepWake(c, s, t))
    ensures TaskInv(c, StepWake(c, s, t), w)
  {
    var s' := StepWake(c, s, t);
    if w == t { PhaseTask(c, s, s', t, Next); }
    else if w == s.procs[t].pc.phase.who { WokenTask(c, s, s', w); }
    else { FutexFrame(c, s, s', w); TaskFrame(c, s, s', w); }
  }

  lemma WakeFle(c: Config, s: State, t: Task, f: Fle)
    requires ValidConfig(c) && Typed(c, s) && t < |c.fds| && s.procs[t].pc.Serve? && s.procs[t].pc.phase.Marked?
    requires f < |c.fles| && FleInv(c, s, f)
    ensures FleInv(c, StepWake(c, s, t), f)
  {
    PhaseFle(c, s, StepWake(c, s, t), t, f);
  }

  lemma WakeTyped(c: Config, s: State, t: Task)
    requires ValidConfig(c) && Typed(c, s) && t < |c.fds| && s.procs[t].pc.Serve? && s.procs[t].pc.phase.Marked?
    ensures Typed(c, StepWake(c, s, t))
  {
  }

  lemma WakeInv(c: Config, s: State, t: Task)
    requires Inv(c, s) && t < |c.fds| && s.procs[t].pc.Serve? && s.procs[t].pc.phase.Marked?
    ensures Inv(c, StepWake(c, s, t))
  {
    var s' := StepWake(c, s, t);
    assert TaskInv(c, s, t);
    WakeTyped(c, s, t);
    forall w | 0 <= w < |c.fds| ensures TaskInv(c, s', w) { assert TaskInv(c, s, w); WakeTask(c, s, t, w); }
    forall f | 0 <= f < |c.fles| ensures FleInv(c, s', f) { assert FleInv(c, s, f); WakeFle(c, s, t, f); }
    FilesKept(c, s, s');
  }

  // ----- end of a pass

  lemma NothingLeft(c: Config, s: State, t: Task)
    requires ValidConfig(c) && Typed(c, s) && t < |c.fds| && ScannedOk(c, s, t)
    requires s.procs[t].pc == Scan([]) && !s.procs[t].progress && !s.procs[t].again
    ensures s.procs[t].list == []
  {
    var list := s.procs[t].list;
    assert list == [] || list[0] in Pending(s.procs[t].pc);
  }

  lemma PassEndTask(c: Config, s: State, t: Task)
    requires ValidConfig(c) && Typed(c, s) && t < |c.fds| && s.procs[t].pc == Scan([]) && Typed(c, StepPassEnd(c, s, t))
    requires TaskInv(c, s, t)
    ensures TaskInv(c, StepPassEnd(c, s, t), t)
  {
    var p := s.procs[t];
    if !p.progress && !p.again { NothingLeft(c, s, t); }
    SameBlocked(c, s, StepPassEnd(c, s, t), t);
  }

  /** Closing the fake descriptors leaves the real ones. */
  lemma CloseFakes(c: Config, s: State, s': State, t: Task, f: Fle)
    requires ValidConfig(c) && Linked(c) && Shape(c, s) && Shape(c, s') && t < |c.fds| && f < |c.fles|
    requires FleInv(c, s, f) && ListOk(c, s, t) && s.procs[t].list == []
    requires s' == SetProc(s.(table := s.table[t := WithoutFakes(c, t, s.table[t])], bug := s'.bug), t,
                           s.procs[t].(pc := Done))
    requires s.procs[t].pc == Scan([])
    ensures FleInv(c, s', f)
  {
    assert DeliveryOk(c, s', f);
    assert StageOk(c, s', f);
    assert NoLostWakeup(c, s', f);
    if c.fles[f].task == t && !c.fles[f].fake {
      forall g | 0 <= g < |c.fles| && c.fles[g].task == t && c.fles[g].fd == c.fles[f].fd ensures !c.fles[g].fake {
        assert g == f;
      }
    }
  }

  lemma PassEndFle(c: Config, s: State, t: Task, f: Fle)
    requires ValidConfig(c) && Linked(c) && Typed(c, s) && t < |c.fds| && s.procs[t].pc == Scan([]) && f < |c.fles|
    requires FleInv(c, s, f) && TaskInv(c, s, t)
    ensures FleInv(c, StepPassEnd(c, s, t), f)
  {
    var p := s.procs[t];
    if p.progress || p.again { FleFrame(c, s, StepPassEnd(c, s, t), f); }
    else { NothingLeft(c, s, t); CloseFakes(c, s, StepPassEnd(c, s, t), t, f); }
  }

  lemma PassEndInv(c: Config, s: State, t: Task)
    requires Inv(c, s) && t < |c.fds| && s.procs[t].pc == Scan([])
    ensures Inv(c, StepPassEnd(c, s, t))
  {
    var s' := StepPassEnd(c, s, t);
    assert TaskInv(c, s, t);
    if !s.procs[t].progress && !s.procs[t].again { NothingLeft(c, s, t); }
    forall w | 0 <= w < |c.fds| ensures TaskInv(c, s', w) {
      assert TaskInv(c, s, w);
      if w != t { OtherTask(c, s, s', t, w); } else { PassEndTask(c, s, t); }
    }
    forall f | 0 <= f < |c.fles| ensures FleInv(c, s', f) { assert FleInv(c, s, f); PassEndFle(c, s, t, f); }
    FilesKept(c, s, s');
  }
}
