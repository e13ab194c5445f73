/** Properties of whole runs of the distributed descriptor restore. */
module FdRestoreTheorems {
  import opened FdRestore
  import opened FdRestoreInvariant
  import opened FdRestoreDelivery

  /** Some task moves from s to s'. */
  ghost predicate Stepped(c: Config, s: State, s': State)
    requires ValidConfig(c)
  {
    Typed(c, s) && exists t :: Enabled(s, t) && s' == TaskStep(c, s, t)
  }

  /** A run: any interleaving of the tasks, from the state before open_fdinfos. */
  ghost predicate Run(c: Config, tr: seq<State>) {
    && ValidConfig(c) && Linked(c)
    && tr != [] && tr[0] == Start(c)
    && forall i :: 0 <= i < |tr| - 1 ==> SteppedAt(c, tr, i)
  }

  ghost predicate SteppedAt(c: Config, tr: seq<State>, i: nat)
    requires ValidConfig(c) && i + 1 < |tr|
  {
    Stepped(c, tr[i], tr[i + 1])
  }

  lemma SteppedInv(c: Config, tr: seq<State>, i: nat, s: State, s': State)
    requires Inv(c, s) && i + 1 < |tr| && SteppedAt(c, tr, i) && s == tr[i] && s' == tr[i + 1]
    ensures Inv(c, s')
  {
    var t :| Enabled(s, t) && s' == TaskStep(c, s, t);
    StepInv(c, s, t);
  }

  lemma {:induction false} RunInv(c: Config, tr: seq<State>, i: nat)
    requires Run(c, tr) && i < |tr|
    ensures Inv(c, tr[i])
  {
    var s := tr[i];
    if i == 0 {
      StartInv(c);
    } else {
      RunInv(c, tr, i - 1);
      SteppedInv(c, tr, i - 1, tr[i - 1], s);
    }
  }

  /** No lost wakeup: when a task sleeps with its event bit clear, every descriptor that has come for it
      and is not restored yet is one whose sender is still between sending it and setting the bit. */
  lemma SleeperMissesNothing(c: Config, tr: seq<State>, i: nat, f: Fle)
    requires Run(c, tr) && i < |tr| && f < |c.fles|
    requires Shape(c, tr[i])
    requires tr[i].procs[c.fles[f].task].pc.Sleeping? && !tr[i].event[c.fles[f].task]
    requires HasMsg(tr[i].queue[c.fles[f].task], f) || (tr[i].received[f] && tr[i].stage[f] != Restored)
    ensures var pc := tr[i].procs[c.fles[Master(c, f)].task].pc; pc.Serve? && pc.phase == Sent(f)
  {
    RunInv(c, tr, i);
    assert FleInv(c, tr[i], f) && TaskInv(c, tr[i], c.fles[f].task);
  }

  /** A sleeper whose bit is set has not been forgotten: somebody is about to call futex_wake for it. */
  lemma SleeperIsWoken(c: Config, tr: seq<State>, i: nat, t: Task)
    requires Run(c, tr) && i < |tr| && t < |tr[i].procs| && t < |tr[i].event|
    requires tr[i].procs[t].pc.Sleeping? && tr[i].event[t]
    ensures exists u :: 0 <= u < |tr[i].procs| && tr[i].procs[u].pc.Serve? && tr[i].procs[u].pc.phase == Marked(t)
  {
    RunInv(c, tr, i);
    assert TaskInv(c, tr[i], t);
    var u :| 0 <= u < |c.fds| && Waking(tr[i].procs[u].pc, t);
    assert tr[i].procs[u].pc.Serve?;
  }

  // ----- no deadlock

  ghost predicate Quiet(s: State) {
    forall t :: 0 <= t < |s.procs| ==> s.procs[t].pc.Done? || s.procs[t].pc.Sleeping?
  }

  lemma QuietMasters(c: Config, s: State, m: Fle)
    requires Inv(c, s) && Quiet(s) && m < |c.fles| && m == Master(c, m)
    ensures s.stage[m] != Initialized
  {
    var t := c.fles[m].task;
    assert TaskInv(c, s, t);
    assert s.procs[t].pc.Done? || s.procs[t].pc.Sleeping?;
  }

  lemma QuietDelivered(c: Config, s: State, f: Fle)
    requires Inv(c, s) && Quiet(s) && f < |c.fles| && f != Master(c, f)
    ensures s.stage[f] == Restored
  {
    var m := Master(c, f);
    var t := c.fles[f].task;
    assert Master(c, m) == m;
    QuietMasters(c, s, m);
    assert FleInv(c, s, f) && TaskInv(c, s, t);
    assert s.procs[t].pc.Done? || s.procs[t].pc.Sleeping?;
    assert s.procs[c.fles[m].task].pc.Done? || s.procs[c.fles[m].task].pc.Sleeping?;
    assert !Unserved(c, s, f);
    assert forall u :: 0 <= u < |c.fds| ==> !Waking(s.procs[u].pc, t);
  }

  /** When only restored entries and opened masters are left, no epoll is blocked. */
  lemma {:induction false} AllReady(c: Config, s: State, list: seq<Fle>, tfd: int)
    requires ValidConfig(c) && Shape(c, s) && Fles(c, list)
    requires forall i :: 0 <= i < |list| ==> KindOf(c, list[i]).Epoll? && s.stage[list[i]] == Open
    ensures !NotReady(c, s, list, tfd)
  {
    if list != [] { AllReady(c, s, list[1..], tfd); }
  }

  lemma QuietIsDone(c: Config, s: State, t: Task)
    requires Inv(c, s) && Quiet(s) && t < |c.fds|
    ensures s.procs[t].pc.Done?
  {
    assert TaskInv(c, s, t);
    var list := s.procs[t].list;
    assert s.procs[t].pc.Done? || s.procs[t].pc.Sleeping?;
    if s.procs[t].pc.Sleeping? {
      forall i | 0 <= i < |list|
          ensures KindOf(c, list[i]).Epoll? && s.stage[list[i]] == Open && list[i] == Master(c, list[i]) {
        assert list[i] in list;
        if list[i] != Master(c, list[i]) { QuietDelivered(c, s, list[i]); }
        assert Blocked(c, s, t, list[i]);
      }
      var f := list[0];
      assert f in list && Blocked(c, s, t, f);
      forall k | 0 <= k < |KindOf(c, f).tfds| ensures !NotReady(c, s, list, KindOf(c, f).tfds[k]) {
        AllReady(c, s, list, KindOf(c, f).tfds[k]);
      }
    }
  }

  /** No deadlock: in every state of every run either all tasks are done or some task can move. */
  lemma NoDeadlock(c: Config, tr: seq<State>, i: nat)
    requires Run(c, tr) && i < |tr|
    ensures (forall t :: 0 <= t < |tr[i].procs| ==> tr[i].procs[t].pc.Done?) || (exists t :: Enabled(tr[i], t))
  {
    RunInv(c, tr, i);
    if !(exists t :: Enabled(tr[i], t)) {
      forall t | 0 <= t < |tr[i].procs| ensures tr[i].procs[t].pc.Done? || tr[i].procs[t].pc.Sleeping? {
        assert !Enabled(tr[i], t);
      }
      assert Quiet(tr[i]);
      forall t | 0 <= t < |tr[i].procs| ensures tr[i].procs[t].pc.Done? { QuietIsDone(c, tr[i], t); }
    }
  }

  // ----- what every state and every finished task promises

  /** None of the BUG_ONs fires and no unexpected descriptor is received. */
  lemma NoBug(c: Config, tr: seq<State>, i: nat)
    requires Run(c, tr) && i < |tr|
    ensures !tr[i].bug
  {
    RunInv(c, tr, i);
  }

  /** What the BUG_ONs test, where they are met: an entry still listed is not restored, one to be received or opened is
      untouched, what is received is listed and new, and a task that leaves has nothing listed. */
  lemma NothingUnexpected(c: Config, tr: seq<State>, i: nat, s: State, t: Task, p: Proc)
    requires Run(c, tr) && i < |tr| && s == tr[i] && Typed(c, s) && t < |c.fds| && p == s.procs[t]
    ensures p.pc.Scan? && p.pc.todo != [] ==> s.stage[p.pc.todo[0]] != Restored
    ensures p.pc.Scan? && p.pc.todo != [] && Master(c, p.pc.todo[0]) != p.pc.todo[0] ==>
              s.stage[p.pc.todo[0]] == Initialized
    ensures p.pc.Scan? && p.pc.todo != [] && KindOf(c, p.pc.todo[0]).Plain? ==> s.stage[p.pc.todo[0]] == Initialized
    ensures p.pc.Scan? && p.pc.todo == [] && !p.progress && !p.again ==> p.list == []
    ensures p.pc.Recv? && s.queue[t] != [] ==> s.queue[t][0].fle in p.list && !s.received[s.queue[t][0].fle]
  {
    RunInv(c, tr, i);
    if Enabled(s, t) { StepInv(c, s, t); }
  }

  /** The descriptor table of t is what the images ask for: every real entry holds the file which the
      master of its own description opened, and the helper entries are closed. */
  ghost predicate TableRestored(c: Config, s: State, t: Task)
    requires ValidConfig(c)
  {
    && Shape(c, s) && t < |c.fds|
    && forall f :: 0 <= f < |c.fles| && c.fles[f].task == t ==>
         && s.stage[f] == Restored && s.plants[f] == 1
         && c.fles[f].desc in s.files && s.files[c.fles[f].desc].opener == Master(c, f)
         && s.files[c.fles[f].desc].desc == c.fles[f].desc
         && (!c.fles[f].fake ==> c.fles[f].fd in s.table[t] && s.table[t][c.fles[f].fd] == s.files[c.fles[f].desc])
         && (c.fles[f].fake ==> c.fles[f].fd !in s.table[t])
  }

  lemma DoneIsRestored(c: Config, s: State, t: Task)
    requires Inv(c, s) && t < |c.fds| && s.procs[t].pc.Done?
    ensures TableRestored(c, s, t)
  {
    assert TaskInv(c, s, t);
    forall f | 0 <= f < |c.fles| && c.fles[f].task == t
      ensures s.stage[f] == Restored && Planted(c, s, f) && FleInv(c, s, f) && FileOk(c, s, c.fles[f].desc)
    {
      assert FleInv(c, s, f);
    }
  }

  /** A task that leaves the loop has all its entries restored, each planted exactly once and with the
      file opened by its own master; before that no entry is ever planted twice. */
  lemma PlantedOnce(c: Config, tr: seq<State>, i: nat)
    requires Run(c, tr) && i < |tr|
    ensures forall f :: 0 <= f < |tr[i].plants| ==> tr[i].plants[f] <= 1
    ensures forall t :: 0 <= t < |tr[i].procs| && tr[i].procs[t].pc.Done? ==> TableRestored(c, tr[i], t)
  {
    RunInv(c, tr, i);
    forall f | 0 <= f < |tr[i].plants| ensures tr[i].plants[f] <= 1 { assert FleInv(c, tr[i], f); }
    forall t | 0 <= t < |tr[i].procs| && tr[i].procs[t].pc.Done? ensures TableRestored(c, tr[i], t) {
      DoneIsRestored(c, tr[i], t);
    }
  }

  /** Stages only rise and a file, once opened, is never opened again. */
  ghost predicate Rises(s: State, s': State) {
    && |s'.stage| == |s.stage|
    && (forall f :: 0 <= f < |s.stage| ==> s.stage[f].Rank() <= s'.stage[f].Rank())
    && (forall d :: d in s.files ==> d in s'.files && s'.files[d] == s.files[d])
  }

  lemma ScanRises(c: Config, s: State, t: Task)
    requires Inv(c, s) && t < |c.fds| && s.procs[t].pc.Scan? && s.procs[t].pc.todo != []
    ensures Rises(s, StepScan(c, s, t))
  {
    var f := s.procs[t].pc.todo[0];
    assert TaskInv(c, s, t) && f in Pending(s.procs[t].pc);
    assert FleInv(c, s, f) && FileOk(c, s, c.fles[f].desc);
  }

  lemma RecvRises(c: Config, s: State, t: Task)
    requires ValidConfig(c) && Typed(c, s) && t < |c.fds| && s.procs[t].pc.Recv?
    ensures Rises(s, StepRecv(c, s, t))
  {
  }

  lemma ServeRises(c: Config, s: State, t: Task)
    requires ValidConfig(c) && Typed(c, s) && t < |c.fds| && s.procs[t].pc.Serve? && s.procs[t].pc.phase.Next?
    ensures Rises(s, StepServe(c, s, t))
  {
  }

  lemma StepRises(c: Config, s: State, t: Task)
    requires Inv(c, s) && Enabled(s, t)
    ensures Rises(s, TaskStep(c, s, t))
  {
    if s.procs[t].pc.Scan? && s.procs[t].pc.todo != [] { ScanRises(c, s, t); }
    else if s.procs[t].pc.Recv? { RecvRises(c, s, t); }
    else if s.procs[t].pc.Serve? && s.procs[t].pc.phase.Next? { ServeRises(c, s, t); }
  }

  lemma SteppedRises(c: Config, tr: seq<State>, i: nat, s: State, s': State)
    requires Inv(c, s) && i + 1 < |tr| && SteppedAt(c, tr, i) && s == tr[i] && s' == tr[i + 1]
    ensures Rises(s, s')
  {
    var t :| Enabled(s, t) && s' == TaskStep(c, s, t);
    StepRises(c, s, t);
  }

  lemma RisesTrans(a: State, b: State, d: State)
    requires Rises(a, b) && Rises(b, d)
    ensures Rises(a, d)
  {
  }

  lemma {:induction false} StagesOnlyRise(c: Config, tr: seq<State>, i: nat, j: nat)
    requires Run(c, tr) && i <= j < |tr|
    ensures Rises(tr[i], tr[j])
    decreases j
  {
    var s, s' := tr[i], tr[j];
    if i < j {
      var mid := tr[j - 1];
      StagesOnlyRise(c, tr, i, j - 1);
      RunInv(c, tr, j - 1);
      SteppedRises(c, tr, j - 1, mid, s');
      RisesTrans(s, mid, s');
    }
  }
}
