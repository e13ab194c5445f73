/** The restore of descriptors when the receive queues of the transport sockets are bounded: a datagram to a full queue
    waits (criu/files.c, send_fd_to_peer).  What keeps tasks from waiting for each other is the order in which
    __collect_desc_fle lists the users of a file. */
module FdRestoreCapacity {
  import opened FdRestore
  import opened FdRestoreInvariant
  import opened FdRestoreDelivery
  import opened FdRestoreTheorems
  import opened FdRestoreTermination

  // ----- the order of users

  /** Tasks are numbered in the order of their pids. */
  predicate ByTask(fles: seq<FleInfo>, users: seq<Fle>) {
    && (forall i :: 0 <= i < |users| ==> users[i] < |fles|)
    && forall i, j :: 0 <= i < j < |users| ==> fles[users[i]].task <= fles[users[j]].task
  }

  lemma InsertedByTask(fles: seq<FleInfo>, users: seq<Fle>, f: Fle, at: nat)
    requires ByTask(fles, users) && f < |fles| && at <= |users|
    requires at > 0 ==> fles[users[at - 1]].task <= fles[f].task
    requires forall i :: at <= i < |users| ==> fles[users[i]].task > fles[f].task
    ensures ByTask(fles, users[..at] + [f] + users[at..])
  {
    var r := users[..at] + [f] + users[at..];
    forall i | 0 <= i < |r| ensures r[i] == if i < at then users[i] else if i == at then f else users[i - 1] { }
    forall i, j | 0 <= i < j < |r| ensures fles[r[i]].task <= fles[r[j]].task {
      assert i < at - 1 ==> fles[users[i]].task <= fles[users[at - 1]].task;
    }
  }

  /** __collect_desc_fle: the new entry goes behind the last one of the same or an earlier task. */
  method CollectDescFle(fles: seq<FleInfo>, users: seq<Fle>, f: Fle) returns (r: seq<Fle>, ghost at: nat)
    requires ByTask(fles, users) && f < |fles|
    ensures at <= |users| && r == users[..at] + [f] + users[at..] && ByTask(fles, r)
    ensures forall i :: at <= i < |users| ==> fles[users[i]].task > fles[f].task
  {
    var le := |users|;
    while le > 0 && fles[users[le - 1]].task > fles[f].task
      invariant 0 <= le <= |users| && forall i :: le <= i < |users| ==> fles[users[i]].task > fles[f].task
    {
      le := le - 1;
    }
    InsertedByTask(fles, users, f, le);
    r, at := users[..le] + [f] + users[le..], le;
  }

  ghost predicate Ordered(c: Config) {
    forall d :: 0 <= d < |c.descs| ==> ByTask(c.fles, c.descs[d].users)
  }

  // ----- bounded queues

  /** Task t is about to send to a task whose queue is full. */
  predicate Full(c: Config, s: State, t: Task, cap: nat)
    requires ValidConfig(c) && Typed(c, s) && t < |c.fds|
  {
    var pc := s.procs[t].pc;
    && pc.Serve? && pc.phase.Next? && pc.out != []
    && c.fles[pc.out[0]].task != t && |s.queue[c.fles[pc.out[0]].task]| >= cap
  }

  ghost predicate CanMove(c: Config, s: State, t: Task, cap: nat)
    requires ValidConfig(c) && Typed(c, s)
  {
    Enabled(s, t) && !Full(c, s, t, cap)
  }

  ghost predicate Moved(c: Config, s: State, s': State, cap: nat)
    requires ValidConfig(c)
  {
    Typed(c, s) && exists t :: CanMove(c, s, t, cap) && s' == TaskStep(c, s, t)
  }

  /** A run in which no task sends to a full queue. */
  ghost predicate BoundedRun(c: Config, tr: seq<State>, cap: nat) {
    && ValidConfig(c) && Linked(c)
    && tr != [] && tr[0] == Start(c)
    && forall i :: 0 <= i < |tr| - 1 ==> MovedAt(c, tr, i, cap)
  }

  ghost predicate MovedAt(c: Config, tr: seq<State>, i: nat, cap: nat)
    requires ValidConfig(c) && i + 1 < |tr|
  {
    Moved(c, tr[i], tr[i + 1], cap)
  }

  /** It is a run, so all that holds in every run holds in it. */
  lemma BoundedIsRun(c: Config, tr: seq<State>, cap: nat)
    requires BoundedRun(c, tr, cap)
    ensures Run(c, tr)
  {
    forall i | 0 <= i < |tr| - 1 ensures SteppedAt(c, tr, i) {
      assert MovedAt(c, tr, i, cap);
    }
  }

  /** A task served by a blocked one comes after it. */
  lemma ServesLater(c: Config, s: State, t: Task, cap: nat)
    requires Inv(c, s) && Ordered(c) && t < |c.fds| && Full(c, s, t, cap)
    ensures c.fles[s.procs[t].pc.out[0]].task > t
  {
    var pc := s.procs[t].pc;
    assert TaskInv(c, s, t);
    var users := c.descs[c.fles[pc.cur].desc].users;
    assert pc.out[0] in pc.out && pc.out[0] in users && ByTask(c.fles, users) && users[0] == pc.cur;
    var j :| 0 <= j < |users| && users[j] == pc.out[0];
    assert j > 0 ==> c.fles[users[0]].task <= c.fles[users[j]].task;
  }

  /** A message in the queue of a task that sleeps or is done has a sender that can move. */
  lemma SenderMoves(c: Config, s: State, w: Task, cap: nat) returns (t: Task)
    requires Inv(c, s) && w < |c.fds| && s.queue[w] != [] && (s.procs[w].pc.Sleeping? || s.procs[w].pc.Done?)
    ensures CanMove(c, s, t, cap)
  {
    var f := s.queue[w][0].fle;
    assert TaskInv(c, s, w) && FleInv(c, s, f) && HasMsg(s.queue[w], f);
    if s.event[w] && s.procs[w].pc.Sleeping? {
      var u :| 0 <= u < |c.fds| && Waking(s.procs[u].pc, w);
      t := u;
    } else {
      assert f in s.procs[w].list;
      t := c.fles[Master(c, f)].task;
      assert Signalling(s.procs[t].pc, f);
    }
  }

  /** The last of the blocked tasks. */
  lemma {:induction false} LastFull(c: Config, s: State, cap: nat, n: nat) returns (t: Task)
    requires ValidConfig(c) && Typed(c, s) && n <= |c.fds| && exists u :: 0 <= u < n && Full(c, s, u, cap)
    ensures t < n && Full(c, s, t, cap) && forall u :: t < u < n ==> !Full(c, s, u, cap)
  {
    if Full(c, s, n - 1, cap) {
      t := n - 1;
    } else {
      t := LastFull(c, s, cap, n - 1);
    }
  }

  /** No deadlock: whatever the queues can hold, all tasks are done or one can move, since the last of the blocked
      tasks waits for one that is not. */
  lemma NeverStuck(c: Config, tr: seq<State>, cap: nat, i: nat)
    requires BoundedRun(c, tr, cap) && Ordered(c) && cap > 0 && i < |tr|
    ensures Typed(c, tr[i])
    ensures (forall t :: 0 <= t < |tr[i].procs| ==> tr[i].procs[t].pc.Done?) || (exists t :: CanMove(c, tr[i], t, cap))
  {
    BoundedIsRun(c, tr, cap);
    RunInv(c, tr, i);
    NoDeadlock(c, tr, i);
    var s := tr[i];
    if t :| Enabled(s, t) {
      if Full(c, s, t, cap) {
        var last := LastFull(c, s, cap, |c.fds|);
        ServesLater(c, s, last, cap);
        var w := c.fles[s.procs[last].pc.out[0]].task;
        if Enabled(s, w) { assert CanMove(c, s, w, cap); } else { var u := SenderMoves(c, s, w, cap); }
      } else {
        assert CanMove(c, s, t, cap);
      }
    }
  }

  /** A bounded run that cannot go on has restored every descriptor table, for any capacity of at least one; and every
      bounded run ends. */
  lemma BoundedRunsRestoreEverything(c: Config, tr: seq<State>, cap: nat, last: State)
    requires BoundedRun(c, tr, cap) && Ordered(c) && cap > 0 && last == tr[|tr| - 1]
    ensures |tr| - 1 <= Measure(c, Start(c)) && Typed(c, last)
    ensures !(exists t :: CanMove(c, last, t, cap)) ==> forall t :: 0 <= t < |c.fds| ==> TableRestored(c, last, t)
  {
    BoundedIsRun(c, tr, cap);
    RunsEnd(c, tr, |tr| - 1);
    NeverStuck(c, tr, cap, |tr| - 1);
    PlantedOnce(c, tr, |tr| - 1);
  }

  // ----- without the order

  function Last(tr: seq<State>): State
    requires tr != []
  {
    tr[|tr| - 1]
  }

  lemma MovedStill(c: Config, tr: seq<State>, tr': seq<State>, i: nat, cap: nat)
    requires ValidConfig(c) && i + 1 < |tr| && tr <= tr' && MovedAt(c, tr, i, cap)
    ensures MovedAt(c, tr', i, cap)
  {
    assert tr'[i] == tr[i] && tr'[i + 1] == tr[i + 1];
  }

  lemma RunOn(c: Config, tr: seq<State>, s: State, s': State, cap: nat, tr': seq<State>)
    requires BoundedRun(c, tr, cap) && s == Last(tr) && Moved(c, s, s', cap) && tr' == tr + [s']
    ensures BoundedRun(c, tr', cap)
  {
    forall i | 0 <= i < |tr'| - 1 ensures MovedAt(c, tr', i, cap) {
      if i < |tr| - 1 { MovedStill(c, tr, tr', i, cap); }
    }
  }

  /** One more step of task t. */
  lemma OneMore(c: Config, tr: seq<State>, s: State, t: Task, cap: nat) returns (tr': seq<State>, s': State)
    requires BoundedRun(c, tr, cap) && Inv(c, s) && s == Last(tr) && CanMove(c, s, t, cap)
    ensures s' == TaskStep(c, s, t) && Inv(c, s') && BoundedRun(c, tr', cap) && s' == Last(tr')
  {
    s' := TaskStep(c, s, t);
    StepInv(c, s, t);
    assert Moved(c, s, s', cap);
    tr' := tr + [s'];
    RunOn(c, tr, s, s', cap, tr');
  }

  /** Two files, each with a user in the task of its master and two in the other task; the users of the second one are
      not in the order of tasks. */
  function Crossed(): Config {
    Config([FleInfo(0, 0, 0, false), FleInfo(1, 1, 0, false), FleInfo(1, 2, 0, false),
            FleInfo(1, 3, 1, false), FleInfo(0, 4, 1, false), FleInfo(0, 5, 1, false)],
           [FileDesc(Plain, [0, 1, 2]), FileDesc(Plain, [3, 4, 5])],
           [[0, 4, 5], [3, 1, 2]])
  }

  /** The lists of Crossed, entry by entry. */
  lemma CrossedLists(c: Config)
    requires c == Crossed()
    ensures |c.fles| == 6 && |c.descs| == |c.fds| == 2
    ensures c.descs[0].users == [0, 1, 2] && c.descs[1].users == [3, 4, 5]
    ensures c.fds[0] == [0, 4, 5] && c.fds[1] == [3, 1, 2]
    ensures forall f :: 0 <= f < 6 ==> c.fles[f].desc == (if f < 3 then 0 else 1)
    ensures forall f :: 0 <= f < 6 ==> c.fles[f].task == (if f == 0 || f > 3 then 0 else 1)
    ensures forall f :: 0 <= f < 6 ==> c.fles[f].fd == f
  {
  }

  lemma CrossedIsValid(c: Config)
    requires c == Crossed()
    ensures ValidConfig(c) && !Ordered(c)
  {
    CrossedLists(c);
    assert c.fles[c.descs[1].users[0]].task > c.fles[c.descs[1].users[1]].task;
  }

  lemma CrossedIsLinked(c: Config)
    requires c == Crossed() && ValidConfig(c)
    ensures Linked(c)
  {
    CrossedLists(c);
    forall f | 0 <= f < 6 ensures f in c.descs[c.fles[f].desc].users {
      assert c.descs[c.fles[f].desc].users[if f < 3 then f else f - 3] == f;
    }
    forall t, f | 0 <= t < 2 && 0 <= f < 6 ensures f in c.fds[t] <==> c.fles[f].task == t { CrossedFds(c, t, f); }
    forall k | 0 <= k < 2
        ensures Distinct(c.descs[k].users) && Distinct(c.fds[k]) && Fles(c, c.fds[k]) { CrossedDistinct(c, k); }
  }

  lemma CrossedDistinct(c: Config, k: nat)
    requires c == Crossed() && k < 2
    ensures Distinct(c.descs[k].users) && Distinct(c.fds[k]) && Fles(c, c.fds[k])
  {
    CrossedLists(c);
  }

  lemma CrossedFds(c: Config, t: Task, f: Fle)
    requires c == Crossed() && t < 2 && f < 6
    ensures f in c.fds[t] <==> c.fles[f].task == t
  {
    CrossedLists(c);
    assert f in [0, 4, 5] <==> f == 0 || f == 4 || f == 5;
    assert f in [3, 1, 2] <==> f == 3 || f == 1 || f == 2;
  }

  /** The task of a master, the entry and the other task it is to be sent to, and what the task looks at then. */
  datatype Side = Side(t: Task, w: Task, m: Fle, u: Fle, u': Fle, todo: seq<Fle>)

  const LEFT := Side(0, 1, 0, 1, 2, [4, 5])
  const RIGHT := Side(1, 0, 3, 4, 5, [1, 2])

  /** Task d.t is at pc; it has sent nothing to the other task, which does not sleep. */
  ghost predicate At(s: State, d: Side, pc: PC, sent: nat, event: bool) {
    && |s.procs| == |s.queue| == |s.event| == 2 && d.t < 2 && d.w < 2
    && s.procs[d.t].pc == pc && !s.procs[d.w].pc.Sleeping? && |s.queue[d.w]| == sent && s.event[d.w] == event
  }

  /** What one step of task t leaves alone. */
  ghost predicate Aside(s: State, s': State, d: Side) {
    && |s'.procs| == |s'.queue| == |s'.event| == |s.procs| == |s.queue| == |s.event| == 2 && d.t < 2 && d.w < 2
    && s'.procs[d.w] == s.procs[d.w] && s'.queue[d.t] == s.queue[d.t] && s'.event[d.t] == s.event[d.t]
  }

  lemma OpensFirst(s: State, d: Side)
    requires (d == LEFT || d == RIGHT) && Inv(Crossed(), s) && At(s, d, Scan([d.m] + d.todo), 0, false)
    ensures CanMove(Crossed(), s, d.t, 1)
    ensures var s' := TaskStep(Crossed(), s, d.t);
            At(s', d, Serve(d.m, [d.m, d.u, d.u'], d.todo, Next), 0, false) && Aside(s, s', d)
  {
    assert ([d.m] + d.todo)[0] == d.m && ([d.m] + d.todo)[1..] == d.todo;
  }

  lemma ServesItself(s: State, d: Side)
    requires (d == LEFT || d == RIGHT) && Inv(Crossed(), s)
    requires At(s, d, Serve(d.m, [d.m, d.u, d.u'], d.todo, Next), 0, false)
    ensures CanMove(Crossed(), s, d.t, 1)
    ensures var s' := TaskStep(Crossed(), s, d.t);
            At(s', d, Serve(d.m, [d.u, d.u'], d.todo, Next), 0, false) && Aside(s, s', d)
  {
    assert [d.m, d.u, d.u'][1..] == [d.u, d.u'];
  }

  lemma SendsOne(s: State, d: Side)
    requires (d == LEFT || d == RIGHT) && Inv(Crossed(), s) && At(s, d, Serve(d.m, [d.u, d.u'], d.todo, Next), 0, false)
    ensures CanMove(Crossed(), s, d.t, 1)
    ensures var s' := TaskStep(Crossed(), s, d.t);
            At(s', d, Serve(d.m, [d.u'], d.todo, Sent(d.u)), 1, false) && Aside(s, s', d)
  {
    assert [d.u, d.u'][1..] == [d.u'];
  }

  lemma Signals(s: State, d: Side)
    requires (d == LEFT || d == RIGHT) && Inv(Crossed(), s) && At(s, d, Serve(d.m, [d.u'], d.todo, Sent(d.u)), 1, false)
    ensures CanMove(Crossed(), s, d.t, 1)
    ensures var s' := TaskStep(Crossed(), s, d.t);
            At(s', d, Serve(d.m, [d.u'], d.todo, Marked(d.w)), 1, true) && Aside(s, s', d)
  {
    CrossedLists(Crossed());
  }

  lemma Wakes(s: State, d: Side)
    requires (d == LEFT || d == RIGHT) && Inv(Crossed(), s)
             && At(s, d, Serve(d.m, [d.u'], d.todo, Marked(d.w)), 1, true)
    ensures CanMove(Crossed(), s, d.t, 1)
    ensures var s' := TaskStep(Crossed(), s, d.t);
            At(s', d, Serve(d.m, [d.u'], d.todo, Next), 1, true) && Aside(s, s', d)
  {
    CrossedLists(Crossed());
  }

  /** One task opens its file, sends it once, and is then blocked. */
  lemma SideBlocks(tr: seq<State>, s: State, d: Side) returns (tr': seq<State>, s': State)
    requires (d == LEFT || d == RIGHT) && BoundedRun(Crossed(), tr, 1) && Inv(Crossed(), s) && s == Last(tr)
    requires At(s, d, Scan([d.m] + d.todo), 0, false)
    ensures BoundedRun(Crossed(), tr', 1) && Inv(Crossed(), s') && s' == Last(tr')
    ensures At(s', d, Serve(d.m, [d.u'], d.todo, Next), 1, true) && Aside(s, s', d)
  {
    var c := Crossed();
    OpensFirst(s, d);
    var tr1, s1 := OneMore(c, tr, s, d.t, 1);
    ServesItself(s1, d);
    var tr2, s2 := OneMore(c, tr1, s1, d.t, 1);
    SendsOne(s2, d);
    var tr3, s3 := OneMore(c, tr2, s2, d.t, 1);
    Signals(s3, d);
    var tr4, s4 := OneMore(c, tr3, s3, d.t, 1);
    Wakes(s4, d);
    tr', s' := OneMore(c, tr4, s4, d.t, 1);
  }

  /** Both tasks begin their first pass. */
  lemma BothBegin(c: Config) returns (tr: seq<State>, s: State)
    requires c == Crossed() && ValidConfig(c) && Linked(c)
    ensures BoundedRun(c, tr, 1) && Inv(c, s) && s == Last(tr)
    ensures At(s, LEFT, Scan([LEFT.m] + LEFT.todo), 0, false) && At(s, RIGHT, Scan([RIGHT.m] + RIGHT.todo), 0, false)
  {
    StartInv(c);
    var s0 := Start(c);
    var tr1, s1 := OneMore(c, [s0], s0, 0, 1);
    tr, s := OneMore(c, tr1, s1, 1, 1);
    CrossedLists(c);
    assert c.fds[0] == [LEFT.m] + LEFT.todo && c.fds[1] == [RIGHT.m] + RIGHT.todo;
  }

  lemma BothFull(c: Config, s: State)
    requires c == Crossed() && Inv(c, s)
    requires At(s, LEFT, Serve(LEFT.m, [LEFT.u'], LEFT.todo, Next), 1, true)
    requires At(s, RIGHT, Serve(RIGHT.m, [RIGHT.u'], RIGHT.todo, Next), 1, true)
    ensures !exists t :: CanMove(c, s, t, 1)
  {
    CrossedLists(c);
    forall t | Enabled(s, t) ensures Full(c, s, t, 1) { }
  }

  /** With room for one message, both tasks come to wait for the other one for ever. */
  lemma UnorderedUsersDeadlock() returns (c: Config, tr: seq<State>, s: State)
    ensures BoundedRun(c, tr, 1) && s == Last(tr) && !Ordered(c) && Typed(c, s)
    ensures !exists t :: CanMove(c, s, t, 1)
    ensures exists t :: 0 <= t < |s.procs| && !s.procs[t].pc.Done?
  {
    c := Crossed();
    CrossedIsValid(c);
    CrossedIsLinked(c);
    var tr2, s2 := BothBegin(c);
    var tr3, s3 := SideBlocks(tr2, s2, LEFT);
    tr, s := SideBlocks(tr3, s3, RIGHT);
    BothFull(c, s);
    assert !s.procs[0].pc.Done?;
  }
}
