/** When the restore of descriptors finishes an epoll (criu/eventpoll.c, eventpoll_post_open): exactly when everything
    it
    watches is there. */
module FdRestoreEpoll {
  import opened FdRestore
  import opened FdRestoreInvariant
  import opened FdRestoreTheorems

  /** Entry g can be watched: it is restored, or an epoll that is opened. */
  ghost predicate Ready(c: Config, s: State, g: Fle)
    requires ValidConfig(c) && Shape(c, s) && g < |c.fles|
  {
    s.stage[g] == Restored || (c.descs[c.fles[g].desc].kind.Epoll? && s.stage[g] == Open)
  }

  /** Entry g is a descriptor of the task of f that the epoll f watches. */
  ghost predicate Watched(c: Config, f: Fle, g: Fle)
    requires ValidConfig(c) && f < |c.fles| && g < |c.fles|
  {
    var kind := c.descs[c.fles[f].desc].kind;
    kind.Epoll? && c.fles[g].task == c.fles[f].task && c.fles[g].fd in kind.tfds
  }

  ghost predicate AllWatchedReady(c: Config, s: State, f: Fle)
    requires ValidConfig(c) && Shape(c, s) && f < |c.fles|
  {
    forall g :: 0 <= g < |c.fles| && Watched(c, f, g) ==> Ready(c, s, g)
  }

  /** The master of an epoll. */
  ghost predicate IsEpoll(c: Config, f: Fle)
    requires ValidConfig(c)
  {
    f < |c.fles| && c.descs[c.fles[f].desc].kind.Epoll? && c.descs[c.fles[f].desc].users[0] == f
  }

  /** In a list of entries with different descriptor numbers, a watched one is found not ready if and only if it is
      there and is not. */
  lemma {:induction false} NotReadyIff(c: Config, s: State, list: seq<Fle>, tfd: int)
    requires ValidConfig(c) && Shape(c, s) && Fles(c, list)
    requires forall i, j :: 0 <= i < j < |list| ==> c.fles[list[i]].fd != c.fles[list[j]].fd
    ensures NotReady(c, s, list, tfd) <==>
              exists i :: 0 <= i < |list| && c.fles[list[i]].fd == tfd && !Ready(c, s, list[i])
  {
    if list != [] {
      var rest := list[1..];
      NotReadyIff(c, s, rest, tfd);
      if c.fles[list[0]].fd != tfd {
        if i :| 0 <= i < |list| && c.fles[list[i]].fd == tfd && !Ready(c, s, list[i]) { assert rest[i - 1] == list[i]; }
        if i :| 0 <= i < |rest| && c.fles[rest[i]].fd == tfd && !Ready(c, s, rest[i]) { assert list[i + 1] == rest[i]; }
      }
    }
  }

  lemma DifferentFds(c: Config, s: State, t: Task)
    requires Inv(c, s) && t < |c.fds|
    ensures forall i, j :: 0 <= i < j < |s.procs[t].list| ==>
              c.fles[s.procs[t].list[i]].fd != c.fles[s.procs[t].list[j]].fd
  {
    var list := s.procs[t].list;
    assert TaskInv(c, s, t);
    forall i, j | 0 <= i < j < |list| ensures c.fles[list[i]].fd != c.fles[list[j]].fd {
      assert list[i] in list && list[j] in list;
    }
  }

  /** The test of the code says what it means. */
  lemma BlockedIff(c: Config, s: State, t: Task, f: Fle)
    requires Inv(c, s) && IsEpoll(c, f) && t == c.fles[f].task
    ensures EpollBlocked(c, s, s.procs[t].list, KindOf(c, f).tfds) <==> !AllWatchedReady(c, s, f)
  {
    var list, tfds := s.procs[t].list, KindOf(c, f).tfds;
    assert TaskInv(c, s, t);
    DifferentFds(c, s, t);
    if EpollBlocked(c, s, list, tfds) {
      var k :| 0 <= k < |tfds| && NotReady(c, s, list, tfds[k]);
      NotReadyIff(c, s, list, tfds[k]);
      var i :| 0 <= i < |list| && c.fles[list[i]].fd == tfds[k] && !Ready(c, s, list[i]);
      assert list[i] in list && Watched(c, f, list[i]);
    }
    if g :| 0 <= g < |c.fles| && Watched(c, f, g) && !Ready(c, s, g) {
      var k :| 0 <= k < |tfds| && tfds[k] == c.fles[g].fd;
      var i :| 0 <= i < |list| && list[i] == g;
      NotReadyIff(c, s, list, tfds[k]);
      assert NotReady(c, s, list, tfds[k]);
    }
  }

  /** What is ready is in the table of its task, as the file its own master opened. */
  lemma ReadyIsPlanted(c: Config, s: State, g: Fle)
    requires Inv(c, s) && g < |c.fles| && Ready(c, s, g) && !s.procs[c.fles[g].task].pc.Done?
    ensures var t := c.fles[g].task;
            c.fles[g].desc in s.files && c.fles[g].fd in s.table[t]
                && s.table[t][c.fles[g].fd] == s.files[c.fles[g].desc]
  {
    assert FleInv(c, s, g);
  }

  /** An opened epoll that its task looks at is finished if and only if everything it watches is ready. */
  lemma FinishedIffReady(c: Config, tr: seq<State>, i: nat, f: Fle)
    requires Run(c, tr) && i < |tr| && IsEpoll(c, f) && Shape(c, tr[i]) && tr[i].stage[f] == Open
    requires var pc := tr[i].procs[c.fles[f].task].pc; pc.Scan? && pc.todo != [] && pc.todo[0] == f
    ensures Typed(c, tr[i])
    ensures TaskStep(c, tr[i], c.fles[f].task).stage[f] == Restored <==> AllWatchedReady(c, tr[i], f)
  {
    RunInv(c, tr, i);
    BlockedIff(c, tr[i], c.fles[f].task, f);
  }

  /** Receiving and serving finish no epoll. */
  lemma NotFinishedByPeers(c: Config, s: State, t: Task, f: Fle)
    requires Inv(c, s) && Enabled(s, t) && IsEpoll(c, f) && (s.procs[t].pc.Recv? || s.procs[t].pc.Serve?)
    ensures TaskStep(c, s, t).stage[f] == s.stage[f]
  {
    assert TaskInv(c, s, t);
  }

  lemma FinishedByLook(c: Config, s: State, t: Task, f: Fle)
    requires Inv(c, s) && t < |c.fds| && IsEpoll(c, f) && s.stage[f] != Restored
    requires s.procs[t].pc.Scan? && s.procs[t].pc.todo != [] && StepScan(c, s, t).stage[f] == Restored
    ensures t == c.fles[f].task && !EpollBlocked(c, s, s.procs[t].list, KindOf(c, f).tfds)
  {
    assert TaskInv(c, s, t);
    assert s.procs[t].pc.todo[0] in Pending(s.procs[t].pc);
  }

  /** Only a look of its own task finishes an epoll, and only if everything it watches is ready. */
  lemma FinishingStep(c: Config, s: State, t: Task, f: Fle)
    requires Inv(c, s) && Enabled(s, t) && IsEpoll(c, f) && s.stage[f] != Restored
    requires TaskStep(c, s, t).stage[f] == Restored
    ensures t == c.fles[f].task && AllWatchedReady(c, s, f)
  {
    var pc := s.procs[t].pc;
    if pc.Recv? || pc.Serve? { NotFinishedByPeers(c, s, t, f); }
    if pc.Scan? && pc.todo != [] {
      FinishedByLook(c, s, t, f);
      BlockedIff(c, s, t, f);
    }
  }

  /** In every run, an epoll is finished only when every descriptor it watches is restored, or an opened epoll, and
      stands in the table of the task. */
  lemma FinishedWhenReady(c: Config, tr: seq<State>, i: nat, s: State, s': State, f: Fle)
    requires Run(c, tr) && i + 1 < |tr| && s == tr[i] && s' == tr[i + 1] && IsEpoll(c, f) && Shape(c, s) && Shape(c, s')
    requires s.stage[f] != Restored && s'.stage[f] == Restored
    ensures AllWatchedReady(c, s, f)
    ensures forall g :: 0 <= g < |c.fles| && Watched(c, f, g) ==> c.fles[g].fd in s.table[c.fles[f].task]
  {
    RunInv(c, tr, i);
    assert SteppedAt(c, tr, i);
    var t: Task :| Enabled(s, t) && s' == TaskStep(c, s, t);
    FinishingStep(c, s, t, f);
    forall g | 0 <= g < |c.fles| && Watched(c, f, g) ensures c.fles[g].fd in s.table[t] { ReadyIsPlanted(c, s, g); }
  }
}
