/** The steps that open, send, receive and finish descriptors keep the invariant. */
module FdRestoreDelivery {
  import opened FdRestore
  import opened FdRestoreInvariant

  lemma DistinctCons(f: Fle, rest: seq<Fle>)
    ensures Distinct([f] + rest) <==> Distinct(rest) && f !in rest
    ensures forall g :: g in [f] + rest <==> g == f || g in rest
  {
    var s := [f] + rest;
    assert forall i :: 0 <= i < |rest| ==> rest[i] == s[i + 1];
    assert s[0] == f;
    assert forall i :: 1 <= i < |s| ==> s[i] == rest[i - 1];
  }

  lemma {:induction false} RemoveOk(list: seq<Fle>, f: Fle)
    requires Distinct(list)
    ensures Distinct(Remove(list, f))
    ensures forall g :: g in Remove(list, f) <==> g in list && g != f
  {
    if list != [] {
      assert list == [list[0]] + list[1..];
      DistinctCons(list[0], list[1..]);
      RemoveOk(list[1..], f);
      DistinctCons(list[0], Remove(list[1..], f));
    }
  }

  // ----- an entry is finished

  ghost predicate CanFinish(c: Config, s: State, t: Task, f: Fle, todo: seq<Fle>)
    requires ValidConfig(c) && Typed(c, s) && t < |c.fds|
  {
    var p := s.procs[t];
    && f < |c.fles| && f in p.list && f !in todo && Fles(c, todo) && Distinct(todo)
    && (forall g :: g in todo ==> g in p.list)
    && (p.pc == Scan([f] + todo) || p.pc == Serve(f, [], todo, Next))
    && (f == Master(c, f) ==> s.stage[f] == Open)
    && (f != Master(c, f) ==> s.received[f])
  }

  lemma FinishFle(c: Config, s: State, t: Task, f: Fle, todo: seq<Fle>, g: Fle)
    requires ValidConfig(c) && Typed(c, s) && t < |c.fds| && g < |c.fles| && FleInv(c, s, g)
    requires CanFinish(c, s, t, f, todo)
    ensures FleInv(c, Finish(s, t, f, todo), g)
  {
    var s' := Finish(s, t, f, todo);
    assert Unserved(c, s', g) == Unserved(c, s, g);
    assert Planted(c, s', g) == Planted(c, s, g);
  }

  lemma FinishTask(c: Config, s: State, t: Task, f: Fle, todo: seq<Fle>)
    requires ValidConfig(c) && Typed(c, s) && t < |c.fds| && TaskInv(c, s, t) && CanFinish(c, s, t, f, todo)
    requires c.fles[f].task == t
    requires Typed(c, Finish(s, t, f, todo))
    ensures TaskInv(c, Finish(s, t, f, todo), t)
  {
    RemoveOk(s.procs[t].list, f);
  }

  lemma FinishTyped(c: Config, s: State, t: Task, f: Fle, todo: seq<Fle>)
    requires ValidConfig(c) && Typed(c, s) && t < |c.fds| && CanFinish(c, s, t, f, todo) && Distinct(s.procs[t].list)
    ensures Typed(c, Finish(s, t, f, todo))
  {
    var s' := Finish(s, t, f, todo);
    RemoveOk(s.procs[t].list, f);
    forall i | 0 <= i < |s'.procs[t].list| ensures s'.procs[t].list[i] < |c.fles| {
      assert s'.procs[t].list[i] in s.procs[t].list;
    }
  }

  lemma FinishInv(c: Config, s: State, t: Task, f: Fle, todo: seq<Fle>)
    requires Inv(c, s) && t < |c.fds| && CanFinish(c, s, t, f, todo)
    ensures Inv(c, Finish(s, t, f, todo))
  {
    var s' := Finish(s, t, f, todo);
    assert TaskInv(c, s, t);
    FinishTyped(c, s, t, f, todo);
    forall w | 0 <= w < |c.fds| ensures TaskInv(c, s', w) {
      assert TaskInv(c, s, w);
      if w == t { FinishTask(c, s, t, f, todo); } else { OtherTask(c, s, s', t, w); }
    }
    forall g | 0 <= g < |c.fles| ensures FleInv(c, s', g) { assert FleInv(c, s, g); FinishFle(c, s, t, f, todo, g); }
    forall d | 0 <= d < |c.descs| ensures FileOk(c, s', d) { assert FileOk(c, s, d); }
  }

  // ----- an entry is put off

  ghost predicate CanPutOff(c: Config, s: State, t: Task, f: Fle, todo: seq<Fle>)
    requires ValidConfig(c) && Typed(c, s) && t < |c.fds|
  {
    && f < |c.fles| && Blocked(c, s, t, f)
    && Pending(s.procs[t].pc) == [f] + todo && !s.procs[t].pc.Serve?
    && !Arrived(c, s, f)
  }

  lemma LaterTask(c: Config, s: State, t: Task, f: Fle, todo: seq<Fle>)
    requires ValidConfig(c) && Typed(c, s) && t < |c.fds| && TaskInv(c, s, t) && CanPutOff(c, s, t, f, todo)
    requires Typed(c, Later(s, t, todo))
    ensures TaskInv(c, Later(s, t, todo), t)
  {
    var s' := Later(s, t, todo);
    DistinctCons(f, todo);
    assert f in Pending(s.procs[t].pc);
    SameBlocked(c, s, s', t);
  }

  lemma LaterFle(c: Config, s: State, t: Task, f: Fle, todo: seq<Fle>, g: Fle)
    requires ValidConfig(c) && Typed(c, s) && t < |c.fds| && g < |c.fles| && FleInv(c, s, g)
    requires CanPutOff(c, s, t, f, todo)
    ensures FleInv(c, Later(s, t, todo), g)
  {
    DistinctCons(f, todo);
    FleFrame(c, s, Later(s, t, todo), g);
  }

  lemma LaterInv(c: Config, s: State, t: Task, f: Fle, todo: seq<Fle>)
    requires Inv(c, s) && t < |c.fds| && CanPutOff(c, s, t, f, todo)
    ensures Inv(c, Later(s, t, todo))
  {
    var s' := Later(s, t, todo);
    assert TaskInv(c, s, t);
    assert Fles(c, [f] + todo);
    assert todo == ([f] + todo)[1..];
    forall w | 0 <= w < |c.fds| ensures TaskInv(c, s', w) {
      assert TaskInv(c, s, w);
      if w == t { LaterTask(c, s, t, f, todo); } else { OtherTask(c, s, s', t, w); }
    }
    forall g | 0 <= g < |c.fles| ensures FleInv(c, s', g) { assert FleInv(c, s, g); LaterFle(c, s, t, f, todo, g); }
    FilesKept(c, s, s');
  }

  // ----- one entry of a pass

  lemma BeginRecvFle(c: Config, s: State, t: Task, f: Fle, todo: seq<Fle>, g: Fle)
    requires ValidConfig(c) && Typed(c, s) && t < |c.fds| && g < |c.fles| && FleInv(c, s, g)
    requires s.procs[t].pc == Scan([f] + todo)
    ensures FleInv(c, SetProc(s, t, s.procs[t].(pc := Recv(f, todo))), g)
  {
    FleFrame(c, s, SetProc(s, t, s.procs[t].(pc := Recv(f, todo))), g);
  }

  lemma BeginRecvInv(c: Config, s: State, t: Task, f: Fle, todo: seq<Fle>)
    requires Inv(c, s) && t < |c.fds| && s.procs[t].pc == Scan([f] + todo)
    requires f < |c.fles| && Fles(c, todo) && f != Master(c, f) && !s.received[f]
    ensures Inv(c, SetProc(s, t, s.procs[t].(pc := Recv(f, todo))))
  {
    var s' := SetProc(s, t, s.procs[t].(pc := Recv(f, todo)));
    assert Pending(s'.procs[t].pc) == Pending(s.procs[t].pc);
    forall w | 0 <= w < |c.fds| ensures TaskInv(c, s', w) {
      assert TaskInv(c, s, w);
      if w == t { SameBlocked(c, s, s', t); } else { OtherTask(c, s, s', t, w); }
    }
    forall g | 0 <= g < |c.fles| ensures FleInv(c, s', g) { assert FleInv(c, s, g); BeginRecvFle(c, s, t, f, todo, g); }
    forall d | 0 <= d < |c.descs| ensures FileOk(c, s', d) { assert FileOk(c, s, d); }
  }

  /** A master that has not been opened yet is being scanned. */
  ghost predicate CanOpen(c: Config, s: State, t: Task, f: Fle, todo: seq<Fle>)
    requires ValidConfig(c) && Typed(c, s) && t < |c.fds|
  {
    && f < |c.fles| && c.fles[f].task == t && f == Master(c, f) && s.stage[f] == Initialized
    && s.procs[t].pc == Scan([f] + todo) && Fles(c, todo)
  }

  lemma OpenFle(c: Config, s: State, t: Task, f: Fle, todo: seq<Fle>, g: Fle)
    requires ValidConfig(c) && Linked(c) && Typed(c, s) && t < |c.fds| && g < |c.fles| && FleInv(c, s, g)
    requires CanOpen(c, s, t, f, todo)
    requires FileOk(c, s, c.fles[f].desc)
    ensures FleInv(c, OpenMaster(c, s, t, f, todo), g)
  {
    var s' := OpenMaster(c, s, t, f, todo);
    assert g in c.descs[c.fles[g].desc].users;
    assert StageOk(c, s', g);
    assert DeliveryOk(c, s', g);
    assert TableOk(c, s', g);
    assert NoLostWakeup(c, s', g);
  }

  lemma OpenTask(c: Config, s: State, t: Task, f: Fle, todo: seq<Fle>)
    requires ValidConfig(c) && Linked(c) && Typed(c, s) && t < |c.fds| && TaskInv(c, s, t) && CanOpen(c, s, t, f, todo)
    requires FileOk(c, s, c.fles[f].desc)
    requires Typed(c, OpenMaster(c, s, t, f, todo))
    ensures TaskInv(c, OpenMaster(c, s, t, f, todo), t)
  {
    DistinctCons(f, todo);
    assert f in Pending(s.procs[t].pc);
  }

  lemma OpenInv(c: Config, s: State, t: Task, f: Fle, todo: seq<Fle>)
    requires Inv(c, s) && t < |c.fds| && CanOpen(c, s, t, f, todo)
    ensures Inv(c, OpenMaster(c, s, t, f, todo))
  {
    var s' := OpenMaster(c, s, t, f, todo);
    assert TaskInv(c, s, t) && FileOk(c, s, c.fles[f].desc);
    forall w | 0 <= w < |c.fds| ensures TaskInv(c, s', w) {
      assert TaskInv(c, s, w);
      if w == t { OpenTask(c, s, t, f, todo); } else { OtherTask(c, s, s', t, w); }
    }
    forall g | 0 <= g < |c.fles| ensures FleInv(c, s', g) { assert FleInv(c, s, g); OpenFle(c, s, t, f, todo, g); }
    forall d | 0 <= d < |c.descs| ensures FileOk(c, s', d) { assert FileOk(c, s, d); }
  }

  lemma ScanInv(c: Config, s: State, t: Task)
    requires Inv(c, s) && t < |c.fds| && s.procs[t].pc.Scan? && s.procs[t].pc.todo != []
    ensures Inv(c, StepScan(c, s, t))
  {
    var p := s.procs[t];
    var f, todo := p.pc.todo[0], p.pc.todo[1..];
    assert p.pc.todo == [f] + todo;
    DistinctCons(f, todo);
    assert TaskInv(c, s, t) && FleInv(c, s, f) && f in Pending(p.pc);
    if f != Master(c, f) {
      if s.received[f] { FinishInv(c, s, t, f, todo); } else { BeginRecvInv(c, s, t, f, todo); }
    } else if KindOf(c, f).Epoll? && s.stage[f].Rank() >= Open.Rank() {
      if EpollBlocked(c, s, p.list, KindOf(c, f).tfds) { LaterInv(c, s, t, f, todo); }
      else { FinishInv(c, s, t, f, todo); }
    } else {
      OpenInv(c, s, t, f, todo);
    }
  }

  // ----- one receive

  /** The state after planting the first message; when it was the awaited one, shown just before
      the entry is finished. */
  ghost function Received(c: Config, s: State, t: Task): State
    requires ValidConfig(c) && Typed(c, s) && t < |c.fds| && s.procs[t].pc.Recv? && s.queue[t] != []
  {
    var p := s.procs[t];
    var m := s.queue[t][0];
    var s1 := Plant(c, s.(queue := s.queue[t := s.queue[t][1..]]), t, m.fle, m.file);
    if m.fle == p.pc.cur then SetProc(s1, t, p.(pc := Scan([p.pc.cur] + p.pc.todo))) else s1
  }

  lemma TailMsg(q: seq<Msg>, f: Fle)
    requires q != []
    requires forall i, j :: 0 <= i < j < |q| ==> q[i].fle != q[j].fle
    ensures HasMsg(q[1..], f) <==> HasMsg(q, f) && f != q[0].fle
  {
    if HasMsg(q, f) && f != q[0].fle {
      var i :| 0 <= i < |q| && q[i].fle == f;
      assert q[1..][i - 1].fle == f;
    }
  }

  ghost predicate AtMessage(c: Config, s: State, t: Task)
    requires ValidConfig(c)
  {
    Typed(c, s) && t < |c.fds| && s.procs[t].pc.Recv? && s.queue[t] != [] && QueueOk(c, s, t)
  }

  lemma ReceivedDelivery(c: Config, s: State, t: Task, g: Fle)
    requires ValidConfig(c) && AtMessage(c, s, t) && g < |c.fles| && FleInv(c, s, g)
    ensures StageOk(c, Received(c, s, t), g) && DeliveryOk(c, Received(c, s, t), g)
    ensures NoLostWakeup(c, Received(c, s, t), g)
  {
    var s' := Received(c, s, t);
    assert HasMsg(s.queue[t], s.queue[t][0].fle);
    TailMsg(s.queue[t], g);
    assert Unserved(c, s', g) == Unserved(c, s, g);
    assert Arrived(c, s', g) ==> Arrived(c, s, g);
  }

  lemma ReceivedTable(c: Config, s: State, t: Task, g: Fle)
    requires ValidConfig(c) && Linked(c) && AtMessage(c, s, t) && g < |c.fles| && FleInv(c, s, g)
    ensures TableOk(c, Received(c, s, t), g)
  {
    var f := s.queue[t][0].fle;
    assert HasMsg(s.queue[t], f);
    assert c.fles[f].task == t;
  }

  lemma ReceivedTyped(c: Config, s: State, t: Task)
    requires ValidConfig(c) && AtMessage(c, s, t)
    ensures Typed(c, Received(c, s, t))
  {
  }

  lemma ReceivedTask(c: Config, s: State, t: Task)
    requires ValidConfig(c) && Typed(c, s) && t < |c.fds| && s.procs[t].pc.Recv? && s.queue[t] != []
    requires TaskInv(c, s, t) && Typed(c, Received(c, s, t))
    ensures TaskInv(c, Received(c, s, t), t)
  {
    var s' := Received(c, s, t);
    assert Pending(s'.procs[t].pc) == Pending(s.procs[t].pc);
    SameBlocked(c, s, s', t);
  }

  lemma ReceivedInv(c: Config, s: State, t: Task)
    requires Inv(c, s) && t < |c.fds| && s.procs[t].pc.Recv? && s.queue[t] != []
    ensures Inv(c, Received(c, s, t))
  {
    var s' := Received(c, s, t);
    assert TaskInv(c, s, t);
    assert c.fles[s.queue[t][0].fle].task == t;
    ReceivedTyped(c, s, t);
    forall w | 0 <= w < |c.fds| ensures TaskInv(c, s', w) {
      assert TaskInv(c, s, w);
      if w == t { ReceivedTask(c, s, t); } else { OtherTask(c, s, s', t, w); }
    }
    forall g | 0 <= g < |c.fles| ensures FleInv(c, s', g) {
      assert FleInv(c, s, g);
      ReceivedDelivery(c, s, t, g);
      ReceivedTable(c, s, t, g);
    }
    forall d | 0 <= d < |c.descs| ensures FileOk(c, s', d) { assert FileOk(c, s, d); }
  }

  lemma FinishAnyPc(s: State, t: Task, p: Proc, f: Fle, todo: seq<Fle>)
    requires t < |s.procs| && f < |s.stage| && p == s.procs[t].(pc := p.pc)
    ensures Finish(SetProc(s, t, p), t, f, todo) == Finish(s, t, f, todo)
  {
    var q := s.procs[t].(pc := Scan(todo), progress := true, list := Remove(s.procs[t].list, f));
    assert s.procs[t := p][t := q] == s.procs[t := q];
  }

  /** Receiving the awaited descriptor plants it and finishes the entry. */
  lemma RecvAwaited(c: Config, s: State, t: Task)
    requires Inv(c, s) && t < |c.fds| && s.procs[t].pc.Recv? && s.queue[t] != []
    requires s.queue[t][0].fle == s.procs[t].pc.cur && s.queue[t][0].fle in s.procs[t].list
    requires !s.received[s.queue[t][0].fle] && Inv(c, Received(c, s, t))
    ensures Inv(c, StepRecv(c, s, t))
  {
    var p, m := s.procs[t], s.queue[t][0];
    var f, todo := p.pc.cur, p.pc.todo;
    DistinctCons(f, todo);
    assert TaskInv(c, s, t);
    var s1 := Plant(c, s.(queue := s.queue[t := s.queue[t][1..]]), t, m.fle, m.file);
    FinishAnyPc(s1, t, p.(pc := Scan([f] + todo)), f, todo);
    FinishInv(c, Received(c, s, t), t, f, todo);
  }

  lemma RecvInv(c: Config, s: State, t: Task)
    requires Inv(c, s) && t < |c.fds| && s.procs[t].pc.Recv?
    ensures Inv(c, StepRecv(c, s, t))
  {
    var f, todo := s.procs[t].pc.cur, s.procs[t].pc.todo;
    assert TaskInv(c, s, t) && FleInv(c, s, f);
    if s.queue[t] == [] {
      LaterInv(c, s, t, f, todo);
    } else {
      var m := s.queue[t][0];
      assert HasMsg(s.queue[t], m.fle);
      assert FleInv(c, s, m.fle);
      ReceivedInv(c, s, t);
      if m.fle == f { RecvAwaited(c, s, t); }
    }
  }

  // ----- serving

  lemma ServedInv(c: Config, s: State, t: Task)
    requires Inv(c, s) && t < |c.fds| && s.procs[t].pc.Serve? && s.procs[t].pc.phase.Next? && s.procs[t].pc.out == []
    ensures Inv(c, StepServe(c, s, t))
  {
    var p := s.procs[t];
    var s' := StepServe(c, s, t);
    assert TaskInv(c, s, t);
    if KindOf(c, p.pc.cur).Epoll? {
      forall w | 0 <= w < |c.fds| ensures TaskInv(c, s', w) {
        assert TaskInv(c, s, w);
        if w != t { OtherTask(c, s, s', t, w); }
      }
      forall g | 0 <= g < |c.fles| ensures FleInv(c, s', g) { assert FleInv(c, s, g); ServedEpollFle(c, s, t, g); }
      forall d | 0 <= d < |c.descs| ensures FileOk(c, s', d) { assert FileOk(c, s, d); }
    } else {
      FinishInv(c, s, t, p.pc.cur, p.pc.todo);
    }
  }

  lemma ServedEpollFle(c: Config, s: State, t: Task, g: Fle)
    requires ValidConfig(c) && Typed(c, s) && t < |c.fds| && g < |c.fles| && FleInv(c, s, g)
    requires s.procs[t].pc.Serve? && s.procs[t].pc.phase.Next? && s.procs[t].pc.out == []
    requires KindOf(c, s.procs[t].pc.cur).Epoll? && s.stage[s.procs[t].pc.cur] == Open
    ensures FleInv(c, StepServe(c, s, t), g)
  {
    var s' := StepServe(c, s, t);
    assert Unserved(c, s', g) == Unserved(c, s, g);
  }

  ghost predicate AtServe(c: Config, s: State, t: Task)
    requires ValidConfig(c)
  {
    && Typed(c, s) && t < |c.fds|
    && s.procs[t].pc.Serve? && s.procs[t].pc.phase.Next? && s.procs[t].pc.out != []
  }

  lemma ServeTask(c: Config, s: State, s': State, t: Task, phase: Phase)
    requires ValidConfig(c) && AtServe(c, s, t) && TaskInv(c, s, t) && Typed(c, s') && QueueOk(c, s', t)
    requires s'.procs[t] == s.procs[t].(pc := s.procs[t].pc.(out := s.procs[t].pc.out[1..], phase := phase))
    requires s'.stage == s.stage
    requires var u := s.procs[t].pc.out[0]; phase == Next || (phase == Sent(u) && c.fles[u].task != t)
    ensures TaskInv(c, s', t)
  {
    var out := s.procs[t].pc.out;
    assert out == [out[0]] + out[1..];
    DistinctCons(out[0], out[1..]);
  }

  /** serve_out_fd dups the file for another entry of the same task. */
  lemma ServeSelfFle(c: Config, s: State, t: Task, g: Fle)
    requires ValidConfig(c) && Linked(c) && AtServe(c, s, t) && PassOk(c, s, t)
    requires c.fles[s.procs[t].pc.cur].task == t
    requires c.fles[s.procs[t].pc.out[0]].task == t
    requires g < |c.fles| && FleInv(c, s, g)
    ensures FleInv(c, StepServe(c, s, t), g)
  {
    ServeSelfDelivery(c, s, t, g);
    ServeSelfTable(c, s, t, g);
  }

  lemma ServeSelfDelivery(c: Config, s: State, t: Task, g: Fle)
    requires ValidConfig(c) && Linked(c) && AtServe(c, s, t) && PassOk(c, s, t)
    requires c.fles[s.procs[t].pc.cur].task == t
    requires c.fles[s.procs[t].pc.out[0]].task == t
    requires g < |c.fles| && DeliveryOk(c, s, g)
    ensures DeliveryOk(c, StepServe(c, s, t), g)
  {
    var s' := StepServe(c, s, t);
    var out, f := s.procs[t].pc.out, s.procs[t].pc.cur;
    assert out == [out[0]] + out[1..];
    DistinctCons(out[0], out[1..]);
    assert out[0] in out;
    assert c.fles[out[0]].fd == c.fles[f].fd ==> out[0] == f;
    if g != out[0] { assert Unserved(c, s', g) == Unserved(c, s, g); }
  }

  lemma ServeSelfTable(c: Config, s: State, t: Task, g: Fle)
    requires ValidConfig(c) && Linked(c) && AtServe(c, s, t) && PassOk(c, s, t)
    requires c.fles[s.procs[t].pc.cur].task == t
    requires c.fles[s.procs[t].pc.out[0]].task == t
    requires g < |c.fles| && TableOk(c, s, g) && DeliveryOk(c, s, g)
    ensures TableOk(c, StepServe(c, s, t), g)
  {
    var u, f := s.procs[t].pc.out[0], s.procs[t].pc.cur;
    assert u in s.procs[t].pc.out;
    assert c.fles[u].fd == c.fles[f].fd ==> u == f;
  }

  lemma ServePeerFle(c: Config, s: State, t: Task, g: Fle)
    requires ValidConfig(c) && Linked(c) && AtServe(c, s, t) && TaskInv(c, s, t)
    requires c.fles[s.procs[t].pc.out[0]].task != t
    requires g < |c.fles| && FleInv(c, s, g)
    ensures FleInv(c, StepServe(c, s, t), g)
  {
    var s' := StepServe(c, s, t);
    var out, f := s.procs[t].pc.out, s.procs[t].pc.cur;
    assert out == [out[0]] + out[1..];
    DistinctCons(out[0], out[1..]);
    assert out[0] in out;
    var w := c.fles[out[0]].task;
    var msg := Msg(out[0], s.files[c.fles[f].desc]);
    AppendMsg(s.queue[w], msg, g);
    if g != out[0] { assert Unserved(c, s', g) == Unserved(c, s, g); }
    assert DeliveryOk(c, s', g);
    assert NoLostWakeup(c, s', g);
  }

  lemma AppendMsg(q: seq<Msg>, m: Msg, g: Fle)
    ensures HasMsg(q + [m], g) <==> HasMsg(q, g) || g == m.fle
  {
    var r := q + [m];
    assert r[|q|] == m;
    if HasMsg(q, g) {
      var i :| 0 <= i < |q| && q[i].fle == g;
      assert r[i].fle == g;
    }
  }

  lemma ServeQueue(c: Config, s: State, t: Task, w: Task)
    requires ValidConfig(c) && AtServe(c, s, t) && TaskInv(c, s, t) && w < |c.fds| && TaskInv(c, s, w)
    requires FleInv(c, s, s.procs[t].pc.out[0]) && Typed(c, StepServe(c, s, t))
    ensures QueueOk(c, StepServe(c, s, t), w)
  {
    var s' := StepServe(c, s, t);
    var u := s.procs[t].pc.out[0];
    assert u in s.procs[t].pc.out;
    if c.fles[u].task == w && w != t {
      assert Unserved(c, s, u);
      forall i | 0 <= i < |s.queue[w]| ensures s.queue[w][i].fle != u { }
    }
  }

  lemma ServeTyped(c: Config, s: State, t: Task)
    requires ValidConfig(c) && AtServe(c, s, t)
    ensures Typed(c, StepServe(c, s, t))
  {
  }

  lemma ServeOther(c: Config, s: State, t: Task, w: Task)
    requires ValidConfig(c) && AtServe(c, s, t) && Typed(c, StepServe(c, s, t)) && w < |c.fds| && w != t
    requires TaskInv(c, s, w)
    requires QueueOk(c, StepServe(c, s, t), w)
    ensures TaskInv(c, StepServe(c, s, t), w)
  {
    OtherTask(c, s, StepServe(c, s, t), t, w);
  }

  lemma ServeAnyTask(c: Config, s: State, t: Task, w: Task)
    requires ValidConfig(c) && AtServe(c, s, t) && TaskInv(c, s, t) && w < |c.fds| && TaskInv(c, s, w)
    requires FleInv(c, s, s.procs[t].pc.out[0]) && Typed(c, StepServe(c, s, t))
    ensures TaskInv(c, StepServe(c, s, t), w)
  {
    var s' := StepServe(c, s, t);
    ServeQueue(c, s, t, w);
    if w == t { ServeTask(c, s, s', t, s'.procs[t].pc.phase); } else { ServeOther(c, s, t, w); }
  }

  lemma ServeFle(c: Config, s: State, t: Task, g: Fle)
    requires ValidConfig(c) && Linked(c) && AtServe(c, s, t) && TaskInv(c, s, t)
    requires g < |c.fles| && FleInv(c, s, g)
    ensures FleInv(c, StepServe(c, s, t), g)
  {
    if c.fles[s.procs[t].pc.out[0]].task == t { ServeSelfFle(c, s, t, g); } else { ServePeerFle(c, s, t, g); }
  }

  lemma ServeInv(c: Config, s: State, t: Task)
    requires Inv(c, s) && AtServe(c, s, t)
    ensures Inv(c, StepServe(c, s, t))
  {
    var s' := StepServe(c, s, t);
    assert TaskInv(c, s, t) && FleInv(c, s, s.procs[t].pc.out[0]);
    ServeTyped(c, s, t);
    forall w | 0 <= w < |c.fds| ensures TaskInv(c, s', w) { assert TaskInv(c, s, w); ServeAnyTask(c, s, t, w); }
    forall g | 0 <= g < |c.fles| ensures FleInv(c, s', g) { assert FleInv(c, s, g); ServeFle(c, s, t, g); }
    forall d | 0 <= d < |c.descs| ensures FileOk(c, s', d) { assert FileOk(c, s, d); }
  }

  // ----- all steps

  lemma StepInv(c: Config, s: State, t: Task)
    requires Inv(c, s) && Enabled(s, t)
    ensures Inv(c, TaskStep(c, s, t))
  {
    match s.procs[t].pc
    case Top => TopInv(c, s, t);
    case Scan(todo) => if todo == [] { PassEndInv(c, s, t); } else { ScanInv(c, s, t); }
    case Recv(_, _) => RecvInv(c, s, t);
    case Serve(_, out, _, phase) =>
      if phase.Sent? { SignalInv(c, s, t); }
      else if phase.Marked? { WakeInv(c, s, t); }
      else if out == [] { ServedInv(c, s, t); }
      else { ServeInv(c, s, t); }
    case _ => WaitInv(c, s, t);
  }
}
