/** Every run of the distributed descriptor restore ends, and ends with everything restored.

    The measure charges each stage an entry still has to climb and each wakeup still to be sent with
    enough credit to pay for one more pass of a task over its list.
 */
module FdRestoreTermination {
  import opened FdRestore
  import opened FdRestoreInvariant
  import opened FdRestoreDelivery
  import opened FdRestoreTheorems

  function Sum(s: seq<int>): int {
    if s == [] then 0 else Sum(s[..|s| - 1]) + s[|s| - 1]
  }

  lemma {:induction false} SumLe(a: seq<int>, b: seq<int>)
    requires |a| == |b| && forall i :: 0 <= i < |a| ==> b[i] <= a[i]
    ensures Sum(b) <= Sum(a)
  {
    if a != [] { SumLe(a[..|a| - 1], b[..|b| - 1]); }
  }

  /** One term falls by k and none rises. */
  lemma {:induction false} SumDrop(a: seq<int>, b: seq<int>, i: nat, k: int)
    requires |a| == |b| && i < |a| && b[i] + k <= a[i]
    requires forall j :: 0 <= j < |a| && j != i ==> b[j] <= a[j]
    ensures Sum(b) + k <= Sum(a)
  {
    if i == |a| - 1 { SumLe(a[..|a| - 1], b[..|b| - 1]); }
    else { SumDrop(a[..|a| - 1], b[..|b| - 1], i, k); }
  }

  /** The terms i and j together fall by k and no other rises. */
  lemma {:induction false} SumDrop2(a: seq<int>, b: seq<int>, i: nat, j: nat, k: int)
    requires |a| == |b| && i < |a| && j < |a| && i != j && b[i] + b[j] + k <= a[i] + a[j]
    requires forall l :: 0 <= l < |a| && l != i && l != j ==> b[l] <= a[l]
    ensures Sum(b) + k <= Sum(a)
  {
    var n := |a| - 1;
    if i == n { SumDrop(a[..n], b[..n], j, k + b[i] - a[i]); }
    else if j == n { SumDrop(a[..n], b[..n], i, k + b[j] - a[j]); }
    else { SumDrop2(a[..n], b[..n], i, j, k); }
  }

  lemma {:induction false} SumNat(a: seq<int>)
    requires forall i :: 0 <= i < |a| ==> 0 <= a[i]
    ensures 0 <= Sum(a)
  {
    if a != [] { SumNat(a[..|a| - 1]); }
  }

  // ----- the measure

  /** Pays for one pass of any task. */
  function Pass(c: Config): nat { 14 * |c.fles| + 40 }

  /** The event bit of the receiver of f has not been set for f yet. */
  predicate Unsignalled(c: Config, s: State, f: Fle)
    requires ValidConfig(c) && Shape(c, s) && f < |c.fles|
  {
    Unserved(c, s, f) || Signalling(s.procs[c.fles[Master(c, f)].task].pc, f)
  }

  function FleCost(c: Config, s: State, f: Fle): int
    requires ValidConfig(c) && Shape(c, s) && f < |c.fles|
  {
    var a := Pass(c);
    (match s.stage[f] case Initialized => 4 * a case Open => 2 * a case Restored => 0)
    + (if Unsignalled(c, s, f) then 2 * a else 0)
  }

  function PcCost(p: Proc, event: bool): int {
    match p.pc
    case Top => 11 + 8 * |p.list|
    case Scan(todo) => 10 + 8 * |todo|
    case Recv(_, todo) => 14 + 8 * |todo|
    case Serve(_, out, todo, phase) =>
      10 + 8 * |todo| + 6 * |out| + (match phase case Next => 2 case Sent(_) => 4 case Marked(_) => 8)
    case WaitCheck => if event then 6 else 5
    case FutexCall => if event then 7 else 4
    case Sleeping => 3
    case WaitClear => 2
    case Done => 0
  }

  /** Another pass is certain and not paid for yet. */
  predicate Owed(p: Proc) { p.pc.Serve? || (p.progress && !p.pc.Top?) }

  function TaskCost(c: Config, s: State, t: Task): int
    requires Shape(c, s) && t < |c.fds|
  {
    PcCost(s.procs[t], s.event[t]) + |s.queue[t]|
    + (if s.event[t] then Pass(c) else 0) + (if Owed(s.procs[t]) then Pass(c) else 0)
  }

  function FleCosts(c: Config, s: State): seq<int>
    requires ValidConfig(c) && Shape(c, s)
  {
    seq(|c.fles|, f requires 0 <= f < |c.fles| => FleCost(c, s, f))
  }

  function TaskCosts(c: Config, s: State): seq<int>
    requires Shape(c, s)
  {
    seq(|c.fds|, t requires 0 <= t < |c.fds| => TaskCost(c, s, t))
  }

  function Measure(c: Config, s: State): int
    requires ValidConfig(c) && Shape(c, s)
  {
    Sum(FleCosts(c, s)) + Sum(TaskCosts(c, s))
  }

  lemma MeasureNat(c: Config, s: State)
    requires ValidConfig(c) && Shape(c, s)
    ensures 0 <= Measure(c, s)
  {
    SumNat(FleCosts(c, s));
    SumNat(TaskCosts(c, s));
  }

  lemma {:induction false} RemoveLength(list: seq<Fle>, f: Fle)
    ensures |Remove(list, f)| == if f in list then |list| - 1 else |list|
  {
    if list != [] { RemoveLength(list[1..], f); }
  }

  /** Distinct entries are no more than there are entries. */
  lemma {:induction false} DistinctBound(list: seq<Fle>, n: nat)
    requires Distinct(list) && forall i :: 0 <= i < |list| ==> list[i] < n
    ensures |list| <= n
    decreases n
  {
    if n > 0 {
      var rest := Remove(list, n - 1);
      RemoveOk(list, n - 1);
      RemoveLength(list, n - 1);
      forall i | 0 <= i < |rest| ensures rest[i] < n - 1 { assert rest[i] in list && rest[i] != n - 1; }
      DistinctBound(rest, n - 1);
    }
  }

  // ----- every step lowers it

  lemma OnlyTask(c: Config, s: State, s': State, t: Task)
    requires ValidConfig(c) && Shape(c, s) && Shape(c, s') && t < |c.fds|
    requires forall f :: 0 <= f < |c.fles| ==> FleCost(c, s', f) <= FleCost(c, s, f)
    requires forall u :: 0 <= u < |c.fds| && u != t ==> TaskCost(c, s', u) <= TaskCost(c, s, u)
    requires TaskCost(c, s', t) < TaskCost(c, s, t)
    ensures Measure(c, s') < Measure(c, s)
  {
    SumLe(FleCosts(c, s), FleCosts(c, s'));
    SumDrop(TaskCosts(c, s), TaskCosts(c, s'), t, 1);
  }

  /** The step pays with the stage or the wakeup of entry f. */
  lemma FlePays(c: Config, s: State, s': State, t: Task, f: Fle)
    requires ValidConfig(c) && Shape(c, s) && Shape(c, s') && t < |c.fds| && f < |c.fles|
    requires forall g :: 0 <= g < |c.fles| ==> FleCost(c, s', g) <= FleCost(c, s, g)
    requires FleCost(c, s', f) + 2 * Pass(c) <= FleCost(c, s, f)
    requires forall u :: 0 <= u < |c.fds| && u != t ==> TaskCost(c, s', u) <= TaskCost(c, s, u)
    requires TaskCost(c, s', t) < TaskCost(c, s, t) + 2 * Pass(c)
    ensures Measure(c, s') < Measure(c, s)
  {
    SumDrop(FleCosts(c, s), FleCosts(c, s'), f, 2 * Pass(c));
    SumDrop(TaskCosts(c, s), TaskCosts(c, s'), t, 1 - 2 * Pass(c));
  }

  /** The step of t also touches task w, and pays with the wakeup of entry f. */
  lemma TwoPay(c: Config, s: State, s': State, t: Task, w: Task, f: Fle)
    requires ValidConfig(c) && Shape(c, s) && Shape(c, s') && t < |c.fds| && w < |c.fds| && t != w && f < |c.fles|
    requires forall g :: 0 <= g < |c.fles| ==> FleCost(c, s', g) <= FleCost(c, s, g)
    requires FleCost(c, s', f) + 2 * Pass(c) <= FleCost(c, s, f)
    requires forall u :: 0 <= u < |c.fds| && u != t && u != w ==> TaskCost(c, s', u) == TaskCost(c, s, u)
    requires TaskCost(c, s', t) + TaskCost(c, s', w) < TaskCost(c, s, t) + TaskCost(c, s, w) + 2 * Pass(c)
    ensures Measure(c, s') < Measure(c, s)
  {
    SumDrop(FleCosts(c, s), FleCosts(c, s'), f, 2 * Pass(c));
    SumDrop2(TaskCosts(c, s), TaskCosts(c, s'), t, w, 1 - 2 * Pass(c));
  }

  lemma TopLowers(c: Config, s: State, t: Task)
    requires Inv(c, s) && t < |c.fds| && s.procs[t].pc.Top?
    ensures Measure(c, StepTop(s, t)) < Measure(c, s)
  {
    OnlyTask(c, s, StepTop(s, t), t);
  }

  lemma PassEndLowers(c: Config, s: State, t: Task)
    requires Inv(c, s) && t < |c.fds| && s.procs[t].pc == Scan([])
    ensures Measure(c, StepPassEnd(c, s, t)) < Measure(c, s)
  {
    assert TaskInv(c, s, t);
    DistinctBound(s.procs[t].list, |c.fles|);
    OnlyTask(c, s, StepPassEnd(c, s, t), t);
  }

  lemma WaitLowers(c: Config, s: State, t: Task)
    requires Inv(c, s) && AtWait(s, t)
    ensures Measure(c, StepWait(s, t)) < Measure(c, s)
  {
    assert TaskInv(c, s, t);
    DistinctBound(s.procs[t].list, |c.fles|);
    OnlyTask(c, s, StepWait(s, t), t);
  }

  lemma FinishWakeups(c: Config, s: State, t: Task, f: Fle, todo: seq<Fle>, g: Fle)
    requires ValidConfig(c) && Typed(c, s) && t < |c.fds| && g < |c.fles| && CanFinish(c, s, t, f, todo)
    ensures Unsignalled(c, Finish(s, t, f, todo), g) == Unsignalled(c, s, g)
  {
  }

  lemma FinishLowers(c: Config, s: State, t: Task, f: Fle, todo: seq<Fle>)
    requires ValidConfig(c) && Typed(c, s) && t < |c.fds| && CanFinish(c, s, t, f, todo) && s.stage[f] != Restored
    ensures Shape(c, Finish(s, t, f, todo)) && Measure(c, Finish(s, t, f, todo)) < Measure(c, s)
  {
    var s' := Finish(s, t, f, todo);
    forall g | 0 <= g < |c.fles| ensures FleCost(c, s', g) <= FleCost(c, s, g) { FinishWakeups(c, s, t, f, todo, g); }
    FinishWakeups(c, s, t, f, todo, f);
    FlePays(c, s, s', t, f);
  }

  lemma LaterLowers(c: Config, s: State, t: Task, todo: seq<Fle>)
    requires ValidConfig(c) && Typed(c, s) && t < |c.fds|
    requires !s.procs[t].pc.Serve? && !s.procs[t].pc.Top?
    requires PcCost(s.procs[t], s.event[t]) > 10 + 8 * |todo|
    ensures Measure(c, Later(s, t, todo)) < Measure(c, s)
  {
    var s' := Later(s, t, todo);
    OnlyTask(c, s, s', t);
  }

  lemma OpenLowers(c: Config, s: State, t: Task, f: Fle, todo: seq<Fle>)
    requires ValidConfig(c) && Linked(c) && Typed(c, s) && t < |c.fds| && CanOpen(c, s, t, f, todo)
    ensures Measure(c, OpenMaster(c, s, t, f, todo)) < Measure(c, s)
  {
    var s' := OpenMaster(c, s, t, f, todo);
    DistinctBound(c.descs[c.fles[f].desc].users, |c.fles|);
    forall g | 0 <= g < |c.fles| ensures FleCost(c, s', g) <= FleCost(c, s, g) { OpenWakeups(c, s, t, f, todo, g); }
    OpenWakeups(c, s, t, f, todo, f);
    FlePays(c, s, s', t, f);
  }

  lemma OpenWakeups(c: Config, s: State, t: Task, f: Fle, todo: seq<Fle>, g: Fle)
    requires ValidConfig(c) && Linked(c) && Typed(c, s) && t < |c.fds| && g < |c.fles| && CanOpen(c, s, t, f, todo)
    ensures Unsignalled(c, OpenMaster(c, s, t, f, todo), g) == Unsignalled(c, s, g)
  {
    assert g in c.descs[c.fles[g].desc].users;
  }

  lemma BeginRecvLowers(c: Config, s: State, t: Task, f: Fle, todo: seq<Fle>)
    requires ValidConfig(c) && Typed(c, s) && t < |c.fds| && s.procs[t].pc == Scan([f] + todo)
    ensures Measure(c, SetProc(s, t, s.procs[t].(pc := Recv(f, todo)))) < Measure(c, s)
  {
    OnlyTask(c, s, SetProc(s, t, s.procs[t].(pc := Recv(f, todo))), t);
  }

  lemma ScanLowers(c: Config, s: State, t: Task)
    requires Inv(c, s) && t < |c.fds| && s.procs[t].pc.Scan? && s.procs[t].pc.todo != []
    ensures Measure(c, StepScan(c, s, t)) < Measure(c, s)
  {
    var p := s.procs[t];
    var f, todo := p.pc.todo[0], p.pc.todo[1..];
    assert p.pc.todo == [f] + todo;
    DistinctCons(f, todo);
    assert TaskInv(c, s, t) && FleInv(c, s, f) && f in Pending(p.pc);
    if f != Master(c, f) {
      if s.received[f] { FinishLowers(c, s, t, f, todo); } else { BeginRecvLowers(c, s, t, f, todo); }
    } else if KindOf(c, f).Epoll? && s.stage[f].Rank() >= Open.Rank() {
      if EpollBlocked(c, s, p.list, KindOf(c, f).tfds) { LaterLowers(c, s, t, todo); }
      else { FinishLowers(c, s, t, f, todo); }
    } else {
      OpenLowers(c, s, t, f, todo);
    }
  }

  /** Planting a message shortens the queue. */
  lemma ReceivedLowers(c: Config, s: State, t: Task)
    requires ValidConfig(c) && Typed(c, s) && t < |c.fds| && s.procs[t].pc.Recv? && s.queue[t] != []
    requires s.queue[t][0].fle != s.procs[t].pc.cur
    ensures Measure(c, StepRecv(c, s, t)) < Measure(c, s)
  {
    OnlyTask(c, s, StepRecv(c, s, t), t);
  }

  lemma AwaitedLowers(c: Config, s: State, t: Task)
    requires ValidConfig(c) && Typed(c, s) && t < |c.fds| && s.procs[t].pc.Recv? && s.queue[t] != []
    requires s.queue[t][0].fle == s.procs[t].pc.cur && s.stage[s.procs[t].pc.cur] == Initialized
    ensures Measure(c, StepRecv(c, s, t)) < Measure(c, s)
  {
    var s' := StepRecv(c, s, t);
    var f := s.procs[t].pc.cur;
    forall g | 0 <= g < |c.fles| ensures Unsignalled(c, s', g) ==> Unsignalled(c, s, g) { }
    FlePays(c, s, s', t, f);
  }

  lemma RecvLowers(c: Config, s: State, t: Task)
    requires Inv(c, s) && t < |c.fds| && s.procs[t].pc.Recv?
    ensures Measure(c, StepRecv(c, s, t)) < Measure(c, s)
  {
    var f := s.procs[t].pc.cur;
    assert TaskInv(c, s, t) && FleInv(c, s, f);
    assert f in Pending(s.procs[t].pc);
    if s.queue[t] == [] { LaterLowers(c, s, t, s.procs[t].pc.todo); }
    else if s.queue[t][0].fle == f { AwaitedLowers(c, s, t); }
    else { ReceivedLowers(c, s, t); }
  }

  lemma ServeEndLowers(c: Config, s: State, t: Task)
    requires Inv(c, s) && t < |c.fds| && s.procs[t].pc.Serve? && s.procs[t].pc.phase.Next? && s.procs[t].pc.out == []
    ensures Measure(c, StepServe(c, s, t)) < Measure(c, s)
  {
    assert TaskInv(c, s, t);
    if KindOf(c, s.procs[t].pc.cur).Epoll? { OnlyTask(c, s, StepServe(c, s, t), t); }
    else { FinishLowers(c, s, t, s.procs[t].pc.cur, s.procs[t].pc.todo); }
  }

  lemma ServeWakeups(c: Config, s: State, t: Task, g: Fle)
    requires ValidConfig(c) && AtServe(c, s, t) && PassOk(c, s, t) && g < |c.fles|
    ensures Shape(c, StepServe(c, s, t)) && (Unsignalled(c, StepServe(c, s, t), g) ==> Unsignalled(c, s, g))
  {
    var out := s.procs[t].pc.out;
    assert out == [out[0]] + out[1..];
    assert out[0] in out;
  }

  lemma ServeFleCost(c: Config, s: State, t: Task, g: Fle)
    requires ValidConfig(c) && AtServe(c, s, t) && PassOk(c, s, t) && g < |c.fles|
    ensures Shape(c, StepServe(c, s, t)) && FleCost(c, StepServe(c, s, t), g) <= FleCost(c, s, g)
  {
    ServeWakeups(c, s, t, g);
  }

  lemma ServeSelfLowers(c: Config, s: State, t: Task)
    requires ValidConfig(c) && AtServe(c, s, t) && PassOk(c, s, t) && c.fles[s.procs[t].pc.out[0]].task == t
    ensures Measure(c, StepServe(c, s, t)) < Measure(c, s)
  {
    forall g | 0 <= g < |c.fles|
        ensures FleCost(c, StepServe(c, s, t), g) <= FleCost(c, s, g) { ServeFleCost(c, s, t, g); }
    OnlyTask(c, s, StepServe(c, s, t), t);
  }

  lemma ServePeerLowers(c: Config, s: State, t: Task)
    requires ValidConfig(c) && AtServe(c, s, t) && PassOk(c, s, t) && c.fles[s.procs[t].pc.out[0]].task != t
    ensures Measure(c, StepServe(c, s, t)) < Measure(c, s)
  {
    var s' := StepServe(c, s, t);
    forall g | 0 <= g < |c.fles| ensures FleCost(c, s', g) <= FleCost(c, s, g) { ServeFleCost(c, s, t, g); }
    SumLe(FleCosts(c, s), FleCosts(c, s'));
    SumDrop2(TaskCosts(c, s), TaskCosts(c, s'), t, c.fles[s.procs[t].pc.out[0]].task, 1);
  }

  ghost predicate AtSignal(c: Config, s: State, t: Task)
    requires ValidConfig(c)
  {
    && Typed(c, s) && t < |c.fds| && s.procs[t].pc.Serve? && s.procs[t].pc.phase.Sent?
    && PassOk(c, s, t) && c.fles[s.procs[t].pc.cur].task == t
  }

  lemma SignalWakeups(c: Config, s: State, t: Task, g: Fle)
    requires ValidConfig(c) && AtSignal(c, s, t) && g < |c.fles|
    ensures Unsignalled(c, StepSignal(c, s, t), g) ==> Unsignalled(c, s, g)
    ensures g == s.procs[t].pc.phase.dst ==> Unsignalled(c, s, g) && !Unsignalled(c, StepSignal(c, s, t), g)
  {
  }

  lemma SignalFleCost(c: Config, s: State, t: Task, g: Fle)
    requires ValidConfig(c) && AtSignal(c, s, t) && g < |c.fles|
    ensures FleCost(c, StepSignal(c, s, t), g) <= FleCost(c, s, g)
    ensures g == s.procs[t].pc.phase.dst ==> FleCost(c, StepSignal(c, s, t), g) + 2 * Pass(c) <= FleCost(c, s, g)
  {
    SignalWakeups(c, s, t, g);
  }

  lemma SignalTaskCost(c: Config, s: State, t: Task)
    requires ValidConfig(c) && AtSignal(c, s, t)
    ensures var w := c.fles[s.procs[t].pc.phase.dst].task; var s' := StepSignal(c, s, t);
            TaskCost(c, s', t) + TaskCost(c, s', w) < TaskCost(c, s, t) + TaskCost(c, s, w) + 2 * Pass(c)
    ensures forall u :: 0 <= u < |c.fds| && u != t && u != c.fles[s.procs[t].pc.phase.dst].task ==>
              TaskCost(c, StepSignal(c, s, t), u) == TaskCost(c, s, u)
  {
  }

  lemma SignalLowers(c: Config, s: State, t: Task)
    requires ValidConfig(c) && AtSignal(c, s, t)
    ensures Measure(c, StepSignal(c, s, t)) < Measure(c, s)
  {
    var s' := StepSignal(c, s, t);
    var f := s.procs[t].pc.phase.dst;
    forall g | 0 <= g < |c.fles| ensures FleCost(c, s', g) <= FleCost(c, s, g) { SignalFleCost(c, s, t, g); }
    SignalFleCost(c, s, t, f);
    SignalTaskCost(c, s, t);
    TwoPay(c, s, s', t, c.fles[f].task, f);
  }

  lemma WakeFleCost(c: Config, s: State, t: Task, g: Fle)
    requires ValidConfig(c) && Typed(c, s) && t < |c.fds| && s.procs[t].pc.Serve? && s.procs[t].pc.phase.Marked?
    requires PassOk(c, s, t) && g < |c.fles|
    ensures FleCost(c, StepWake(c, s, t), g) == FleCost(c, s, g)
  {
    assert Unsignalled(c, StepWake(c, s, t), g) == Unsignalled(c, s, g);
  }

  lemma WakeLowers(c: Config, s: State, t: Task)
    requires ValidConfig(c) && Typed(c, s) && t < |c.fds| && s.procs[t].pc.Serve? && s.procs[t].pc.phase.Marked?
    requires PassOk(c, s, t)
    ensures Measure(c, StepWake(c, s, t)) < Measure(c, s)
  {
    var s' := StepWake(c, s, t);
    forall g | 0 <= g < |c.fles| ensures FleCost(c, s', g) == FleCost(c, s, g) { WakeFleCost(c, s, t, g); }
    SumLe(FleCosts(c, s), FleCosts(c, s'));
    SumDrop2(TaskCosts(c, s), TaskCosts(c, s'), t, s.procs[t].pc.phase.who, 1);
  }

  lemma StepLowers(c: Config, s: State, t: Task)
    requires Inv(c, s) && Enabled(s, t)
    ensures Typed(c, TaskStep(c, s, t)) && Measure(c, TaskStep(c, s, t)) < Measure(c, s)
  {
    StepInv(c, s, t);
    assert TaskInv(c, s, t);
    match s.procs[t].pc
    case Top => TopLowers(c, s, t);
    case Scan(todo) => if todo == [] { PassEndLowers(c, s, t); } else { ScanLowers(c, s, t); }
    case Recv(_, _) => RecvLowers(c, s, t);
    case Serve(_, out, _, phase) =>
      if phase.Sent? { SignalLowers(c, s, t); }
      else if phase.Marked? { WakeLowers(c, s, t); }
      else if out == [] { ServeEndLowers(c, s, t); }
      else if c.fles[out[0]].task == t { ServeSelfLowers(c, s, t); }
      else { ServePeerLowers(c, s, t); }
    case _ => WaitLowers(c, s, t);
  }

  lemma SteppedLowers(c: Config, tr: seq<State>, i: nat, s: State, s': State)
    requires Inv(c, s) && i + 1 < |tr| && SteppedAt(c, tr, i) && s == tr[i] && s' == tr[i + 1]
    ensures Shape(c, s') && Measure(c, s') < Measure(c, s)
  {
    var t :| Enabled(s, t) && s' == TaskStep(c, s, t);
    StepLowers(c, s, t);
  }

  /** Termination: no interleaving is longer than the measure of the initial state. */
  lemma {:induction false} RunsEnd(c: Config, tr: seq<State>, i: nat)
    requires Run(c, tr) && i < |tr|
    ensures Shape(c, tr[i]) && i + Measure(c, tr[i]) <= Measure(c, Start(c))
    ensures i <= Measure(c, Start(c))
  {
    var s := tr[i];
    RunInv(c, tr, i);
    MeasureNat(c, s);
    if i > 0 {
      RunsEnd(c, tr, i - 1);
      RunInv(c, tr, i - 1);
      SteppedLowers(c, tr, i - 1, tr[i - 1], s);
    }
  }

  /** Total correctness: a run that cannot go on has every task done and every descriptor table as the
      images ask for. */
  lemma MaximalRunsRestoreEverything(c: Config, tr: seq<State>, last: State)
    requires Run(c, tr) && last == tr[|tr| - 1] && !(exists t :: Enabled(last, t))
    ensures forall t :: 0 <= t < |c.fds| ==> TableRestored(c, last, t)
  {
    NoDeadlock(c, tr, |tr| - 1);
    PlantedOnce(c, tr, |tr| - 1);
    RunInv(c, tr, |tr| - 1);
  }
}
