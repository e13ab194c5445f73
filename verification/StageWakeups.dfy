/** No wakeup is lost in the restore stages: every run of futex calls ends with the restore complete. */
module StageWakeups {
  import opened Options
  import opened StageBarrier
  import opened StageInvariant
  import opened StageTheorems
  import opened StageFutex

  // ----- what a wait means

  /** Where an actor waits on a word, the value decides whether it can go on. */
  lemma OverIff(c: Config, s: State, x: nat, w: Word)
    requires Inv(c, s) && x < Actors(c) && WaitsOn(c, s, x) == Some(w)
    ensures Enabled(c, s, Own(c, x)) <==> Over(c, s, x, ValueOf(s, w))
  {
    if x < |c.parts| { assert Know(c, x, s.at[x], s.at[0], s.criu); }
  }

  /** Positions of others do not change with a step. */
  lemma OthersStay(c: Config, s: State, y: nat, x: nat)
    requires Sized(c, s) && x < Actors(c) && y < Actors(c) && x != y && Enabled(c, s, Own(c, y))
    requires y == |c.parts| && s.criu == FORK_ROOT ==> x != 0
    ensures var s' := Do(c, s, Own(c, y)); Sized(c, s') && WaitsOn(c, s', x) == WaitsOn(c, s, x)
    ensures forall v :: Over(c, Do(c, s, Own(c, y)), x, v) == Over(c, s, x, v)
  {
  }

  // ----- who changes what

  lemma {:induction false} CountAbove(bits: seq<bool>, p: nat)
    requires p < |bits| && bits[p]
    ensures Count(bits) > 0
  {
    if Count(bits) == 0 { CountZero(bits); }
  }

  /** The root task sets the counter only to values that keep criu waiting. */
  lemma RootKeepsCriuWaiting(c: Config, s: State)
    requires Inv(c, s) && CanStep(c, s, 0) && !Decrements(c, 0, s.at[0]) && s.nrInProgress > 0
    ensures PartStep(c, s, 0).nrInProgress > 0
  {
    var s' := PartStep(c, s, 0);
    if s'.nrInProgress != s.nrInProgress {
      RootStepInv(c, s);
      assert Know(c, 0, s.at[0], s.at[0], s.criu) && Passed(c, 0, s.at[0], s.at[0], s.criu);
      assert Know(c, 0, s'.at[0], s'.at[0], s'.criu) && Passed(c, 0, s'.at[0], s'.at[0], s'.criu);
      CountAbove(PendingBits(c, CountedStage(c.ns, s'.criu, s'.at[0]), s'.at), 0);
    }
  }

  /** criu sets the counter only while the root task does not wait on it. */
  lemma CriuSetsAlone(c: Config, s: State)
    requires Inv(c, s) && CanCriu(c, s) && CriuStep(c, s).nrInProgress != s.nrInProgress
    ensures WaitsOn(c, s, 0) != Some(CounterWord)
  {
    assert Know(c, 0, s.at[0], s.at[0], s.criu) && Passed(c, 0, s.at[0], s.at[0], s.criu);
  }

  /** Only the root task and criu wait on the counter. */
  lemma CounterWaiters(c: Config, s: State, x: nat)
    requires Inv(c, s) && x < Actors(c) && WaitsOn(c, s, x) == Some(CounterWord)
    ensures x == 0 || x == |c.parts|
  {
    if x < |c.parts| { assert Know(c, x, s.at[x], s.at[0], s.criu); }
  }

  /** A step that ends a wait on the counter wakes those who wait on it. */
  lemma CounterWakes(c: Config, s: State, y: nat, x: nat)
    requires Inv(c, s) && x < Actors(c) && y < Actors(c) && x != y && Enabled(c, s, Own(c, y))
    requires WaitsOn(c, s, x) == Some(CounterWord) && !Over(c, s, x, Number(s.nrInProgress))
    requires Over(c, s, x, Number(Do(c, s, Own(c, y)).nrInProgress))
    ensures Wakes(c, s, y) == Some(CounterWord)
  {
    CounterWaiters(c, s, x);
    if y == |c.parts| {
      CriuSetsAlone(c, s);
    } else if y == 0 && !Decrements(c, 0, s.at[0]) {
      RootKeepsCriuWaiting(c, s);
    }
  }

  /** A step that changes the stage wakes those who wait on it; the changes without a wake are made while nobody
      does. */
  lemma StageWakes(c: Config, s: State, y: nat, x: nat)
    requires Inv(c, s) && x < Actors(c) && y < Actors(c) && x != y && Enabled(c, s, Own(c, y))
    requires WaitsOn(c, s, x) == Some(StageWord) && Do(c, s, Own(c, y)).start != s.start
    ensures Wakes(c, s, y) == Some(StageWord)
  {
    assert Know(c, x, s.at[x], s.at[0], s.criu) && Know(c, 0, s.at[0], s.at[0], s.criu);
  }

  lemma EndOfWaitWakes(c: Config, s: State, y: nat, x: nat, w: Word)
    requires Inv(c, s) && x < Actors(c) && y < Actors(c) && x != y && Enabled(c, s, Own(c, y))
    requires WaitsOn(c, s, x) == Some(w) && !Over(c, s, x, ValueOf(s, w))
    requires Over(c, s, x, ValueOf(Do(c, s, Own(c, y)), w))
    ensures Wakes(c, s, y) == Some(w)
  {
    if w == CounterWord { CounterWakes(c, s, y, x); } else { StageWakes(c, s, y, x); }
  }

  // ----- the invariant

  ghost predicate Due(f: FState, w: Word) {
    exists z :: 0 <= z < |f.modes| && f.modes[z] == WakeDue(w)
  }

  /** A sleeper whose wait is over is about to be woken; what a waiter has seen does not let it pass. */
  ghost predicate ModeOk(c: Config, f: FState, x: nat)
    requires FSized(c, f) && x < Actors(c)
  {
    var w := WaitsOn(c, f.base, x);
    match f.modes[x]
    case Asleep => w.Some? && (Over(c, f.base, x, ValueOf(f.base, w.value)) ==> Due(f, w.value))
    case Seen(v) => w.Some? && v.Number? == w.value.CounterWord? && !Over(c, f.base, x, v)
    case _ => true
  }

  ghost predicate FInv(c: Config, f: FState) {
    FSized(c, f) && Full(c, f.base) && forall x :: 0 <= x < Actors(c) ==> ModeOk(c, f, x)
  }

  lemma DueStays(f: FState, f': FState, y: nat, w: Word)
    requires |f'.modes| == |f.modes| && y < |f.modes| && !f.modes[y].WakeDue?
    requires forall z :: 0 <= z < |f.modes| && z != y ==> f'.modes[z] == f.modes[z]
    requires Due(f, w)
    ensures Due(f', w)
  {
    var z :| 0 <= z < |f.modes| && f.modes[z] == WakeDue(w);
    assert f'.modes[z] == WakeDue(w);
  }

  /** Actor y takes its step in the stages. */
  lemma StepMode(c: Config, f: FState, y: nat, x: nat)
    requires FInv(c, f) && x < Actors(c) && y < Actors(c) && f.modes[y].Running? && !Reads(c, f.base, y)
    requires Enabled(c, f.base, Own(c, y))
    ensures ModeOk(c, FDo(c, f, Act(y)), x)
  {
    var f', s := FDo(c, f, Act(y)), f.base;
    assert ModeOk(c, f, x);
    if x != y && (f.modes[x].Asleep? || f.modes[x].Seen?) {
      var w := WaitsOn(c, s, x).value;
      assert Know(c, 0, s.at[0], s.at[0], s.criu);
      OthersStay(c, s, y, x);
      if f.modes[x].Asleep? && Over(c, f'.base, x, ValueOf(f'.base, w)) {
        if Over(c, s, x, ValueOf(s, w)) {
          DueStays(f, f', y, w);
        } else {
          EndOfWaitWakes(c, s, y, x, w);
          assert f'.modes[y] == WakeDue(w);
        }
      }
    }
  }

  lemma StepInv(c: Config, f: FState, y: nat)
    requires FInv(c, f) && y < Actors(c) && f.modes[y].Running? && !Reads(c, f.base, y) && Enabled(c, f.base, Own(c, y))
    ensures FInv(c, FDo(c, f, Act(y)))
  {
    FullStep(c, f.base, Own(c, y));
    forall x | 0 <= x < Actors(c) ensures ModeOk(c, FDo(c, f, Act(y)), x) { StepMode(c, f, y, x); }
  }

  /** Actor y reads the word, or calls FUTEX_WAIT. */
  lemma WaitStepInv(c: Config, f: FState, y: nat)
    requires FInv(c, f) && y < Actors(c) && ((f.modes[y].Running? && Reads(c, f.base, y)) || f.modes[y].Seen?)
    ensures FInv(c, FDo(c, f, Act(y)))
  {
    var f' := FDo(c, f, Act(y));
    assert ModeOk(c, f, y);
    OverIff(c, f.base, y, WaitsOn(c, f.base, y).value);
    forall x | 0 <= x < Actors(c) && x != y ensures ModeOk(c, f', x) {
      assert ModeOk(c, f, x);
      if f.modes[x].Asleep? && Due(f, WaitsOn(c, f.base, x).value) { DueStays(f, f', y, WaitsOn(c, f.base, x).value); }
    }
  }

  /** Actor y wakes the sleepers of a word. */
  lemma WakeStepInv(c: Config, f: FState, y: nat)
    requires FInv(c, f) && y < Actors(c) && f.modes[y].WakeDue?
    ensures FInv(c, FDo(c, f, Act(y)))
  {
    var f', w := FDo(c, f, Act(y)), f.modes[y].word;
    forall x | 0 <= x < Actors(c) ensures ModeOk(c, f', x) {
      assert ModeOk(c, f, x);
      if f'.modes[x].Asleep? && Due(f, WaitsOn(c, f.base, x).value) {
        var z :| 0 <= z < |f.modes| && f.modes[z] == WakeDue(WaitsOn(c, f.base, x).value);
        assert f'.modes[z] == f.modes[z];
      }
    }
  }

  lemma ForkInv(c: Config, f: FState, q: nat)
    requires FInv(c, f) && FEnabled(c, f, Fork(q))
    ensures FInv(c, FDo(c, f, Fork(q)))
  {
    var f' := FDo(c, f, Fork(q));
    FullStep(c, f.base, Birth(q));
    forall x | 0 <= x < Actors(c) ensures ModeOk(c, f', x) {
      assert ModeOk(c, f, x);
      if f.modes[x].Asleep? && Due(f, WaitsOn(c, f.base, x).value) {
        var z :| 0 <= z < |f.modes| && f.modes[z] == WakeDue(WaitsOn(c, f.base, x).value);
        assert f'.modes[z] == f.modes[z];
      }
    }
  }

  lemma FDoInv(c: Config, f: FState, a: FAction)
    requires FInv(c, f) && FEnabled(c, f, a)
    ensures FInv(c, FDo(c, f, a))
  {
    if a.Fork? { ForkInv(c, f, a.q); }
    else if f.modes[a.x].WakeDue? { WakeStepInv(c, f, a.x); }
    else if f.modes[a.x].Seen? || Reads(c, f.base, a.x) { WaitStepInv(c, f, a.x); }
    else { StepInv(c, f, a.x); }
  }

  lemma StartFull(c: Config)
    requires c.Valid()
    ensures FInv(c, FStart(c))
  {
    StartInv(c);
    forall q | 0 < q < |Start(c).at| ensures MadeOne(c, Start(c), q) { assert c.ValidPart(q); }
  }

  lemma FSteppedInv(c: Config, run: seq<FState>, k: nat, f: FState, f': FState)
    requires k + 1 < |run| && f == run[k] && f' == run[k + 1] && FInv(c, f) && FStepped(c, run, k)
    ensures FInv(c, f')
  {
    var a :| FEnabled(c, f, a) && f' == FDo(c, f, a);
    FDoInv(c, f, a);
  }

  lemma {:induction false} FRunInv(c: Config, run: seq<FState>, k: nat)
    requires FRun(c, run) && k < |run|
    ensures FInv(c, run[k])
  {
    var f := run[k];
    if k == 0 {
      StartFull(c);
    } else {
      FRunInv(c, run, k - 1);
      FSteppedInv(c, run, k - 1, run[k - 1], f);
    }
  }

  // ----- what holds in every run

  /** No lost wakeup: an actor asleep on a word whose value lets it pass has someone about to wake that word. */
  lemma NoLostWakeup(c: Config, run: seq<FState>, k: nat, x: nat)
    requires FRun(c, run) && k < |run| && x < Actors(c) && run[k].modes[x] == Asleep
    ensures WaitsOn(c, run[k].base, x).Some?
    ensures var w := WaitsOn(c, run[k].base, x).value; Over(c, run[k].base, x, ValueOf(run[k].base, w)) ==>
              Due(run[k], w)
  {
    FRunInv(c, run, k);
    assert ModeOk(c, run[k], x);
  }

  /** The stages go through a run of their own, so whatever holds in every run of them holds here. */
  lemma {:induction false} StagesRun(c: Config, run: seq<FState>, k: nat) returns (stages: seq<State>)
    requires FRun(c, run) && k < |run|
    ensures Run(c, stages) && stages[|stages| - 1] == run[k].base
  {
    if k == 0 {
      stages := [Start(c)];
    } else {
      var before := StagesRun(c, run, k - 1);
      assert FStepped(c, run, k - 1);
      var f, f' := run[k - 1], run[k];
      var a :| FEnabled(c, f, a) && f' == FDo(c, f, a);
      if f'.base == f.base { stages := before; } else { stages := GoOn(c, before, f, a); }
    }
  }

  lemma GoOn(c: Config, before: seq<State>, f: FState, a: FAction) returns (stages: seq<State>)
    requires Run(c, before) && FSized(c, f) && before[|before| - 1] == f.base && FEnabled(c, f, a)
    requires FDo(c, f, a).base != f.base
    ensures Run(c, stages) && stages[|stages| - 1] == FDo(c, f, a).base
  {
    var b := if a.Fork? then Birth(a.q) else Own(c, a.x);
    assert Enabled(c, f.base, b) && FDo(c, f, a).base == Do(c, f.base, b);
    stages := before + [Do(c, f.base, b)];
    forall l | 0 <= l < |stages| - 1 ensures Stepped(c, stages, l) {
      if l < |before| - 1 { assert Stepped(c, before, l) && stages[l] == before[l] && stages[l + 1] == before[l + 1]; }
    }
  }

  ghost predicate SomeFEnabled(c: Config, f: FState)
    requires FSized(c, f)
  {
    exists a :: FEnabled(c, f, a)
  }

  lemma ActorMoves(c: Config, f: FState, x: nat)
    requires FInv(c, f) && x < Actors(c) && Enabled(c, f.base, Own(c, x))
    ensures SomeFEnabled(c, f)
  {
    assert ModeOk(c, f, x);
    if f.modes[x].Asleep? {
      var w := WaitsOn(c, f.base, x).value;
      OverIff(c, f.base, x, w);
      var z :| 0 <= z < |f.modes| && f.modes[z] == WakeDue(w);
      assert FEnabled(c, f, Act(z));
    } else {
      assert FEnabled(c, f, Act(x));
    }
  }

  lemma MakerMoves(c: Config, f: FState, q: nat)
    requires FInv(c, f) && CanMake(c, f.base, q)
    ensures SomeFEnabled(c, f)
  {
    var m := c.parts[q].maker;
    assert ModeOk(c, f, m);
    if f.modes[m].Running? { assert FEnabled(c, f, Fork(q)); } else { assert FEnabled(c, f, Act(m)); }
  }

  /** Until criu has finished and every part is over, some actor can take a step. */
  lemma NobodySleepsForEver(c: Config, f: FState)
    requires FInv(c, f) && (f.base.criu < FINISHED || exists p :: 0 <= p < |f.base.at| && f.base.at[p] < OVER)
    ensures SomeFEnabled(c, f)
  {
    NeverStuck(c, f.base);
    var a :| Enabled(c, f.base, a);
    match a
    case Criu => ActorMoves(c, f, |c.parts|);
    case Move(p) => ActorMoves(c, f, p);
    case Birth(q) => MakerMoves(c, f, q);
  }

  // ----- every run ends

  function ModeCost(n: nat, m: Mode, stale: bool): nat {
    match m
    case Running => 2
    case Seen(_) => if stale then 3 else 1
    case Asleep => 0
    case WakeDue(_) => 2 * n + 3
  }

  function CostOf(c: Config, f: FState, x: nat): nat
    requires FSized(c, f) && x < Actors(c)
  {
    var w := WaitsOn(c, f.base, x);
    ModeCost(Actors(c), f.modes[x], w.Some? && f.modes[x] != Seen(ValueOf(f.base, w.value)))
  }

  function Costs(c: Config, f: FState): (r: seq<nat>)
    requires FSized(c, f)
    ensures |r| == Actors(c) && forall x :: 0 <= x < Actors(c) ==> r[x] == CostOf(c, f, x)
  {
    seq(Actors(c), x requires 0 <= x < Actors(c) => CostOf(c, f, x))
  }

  function Sum(s: seq<nat>): nat {
    if s == [] then 0 else Sum(s[..|s| - 1]) + s[|s| - 1]
  }

  /** One term changes by d and the others rise by at most two each. */
  lemma {:induction false} SumChange(a: seq<nat>, b: seq<nat>, x: nat, d: int)
    requires |a| == |b| && x < |a| && b[x] <= a[x] + d && forall i :: 0 <= i < |a| && i != x ==> b[i] <= a[i] + 2
    ensures Sum(b) <= Sum(a) + d + 2 * |a|
  {
    var n := |a| - 1;
    if x == n { SumRise(a[..n], b[..n]); } else { SumChange(a[..n], b[..n], x, d); }
  }

  lemma {:induction false} SumRise(a: seq<nat>, b: seq<nat>)
    requires |a| == |b| && forall i :: 0 <= i < |a| ==> b[i] <= a[i] + 2
    ensures Sum(b) <= Sum(a) + 2 * |a|
  {
    if a != [] { SumRise(a[..|a| - 1], b[..|b| - 1]); }
  }

  /** One term falls and the others stay. */
  lemma {:induction false} SumFalls(a: seq<nat>, b: seq<nat>, x: nat)
    requires |a| == |b| && x < |a| && b[x] < a[x] && forall i :: 0 <= i < |a| && i != x ==> b[i] == a[i]
    ensures Sum(b) < Sum(a)
  {
    var n := |a| - 1;
    if x == n { assert a[..n] == b[..n]; } else { SumFalls(a[..n], b[..n], x); }
  }

  lemma {:induction false} SumSame(a: seq<nat>, n: nat)
    requires |a| == n && forall i :: 0 <= i < n ==> a[i] == 2
    ensures Sum(a) == 2 * n
  {
    if n > 0 { SumSame(a[..n - 1], n - 1); }
  }

  /** What one step in the stages pays for. */
  function Price(c: Config): nat { 4 * Actors(c) + 2 }

  ghost function FMeasure(c: Config, f: FState): int
    requires FSized(c, f)
  {
    Price(c) * Measure(f.base) + Sum(Costs(c, f))
  }

  lemma Pays(price: nat, m: int, m': int, a: nat, b: nat)
    requires m' < m && b < a + price
    ensures price * m' + b < price * m + a
  {
    var d := m - m';
    Scaled(price, 1, d);
    assert price * (m' + d) == price * m' + price * d;
  }

  lemma OtherCost(c: Config, f: FState, f': FState, x: nat)
    requires FInv(c, f) && FInv(c, f') && x < Actors(c) && f'.modes[x] == f.modes[x]
    ensures CostOf(c, f', x) <= CostOf(c, f, x) + 2
  {
    assert ModeOk(c, f, x) && ModeOk(c, f', x);
  }

  lemma StageStepPays(c: Config, f: FState, a: FAction, x: nat)
    requires FInv(c, f) && FEnabled(c, f, a) && (a == Act(x) || (a.Fork? && x == c.parts[a.q].maker))
    requires f.modes[x].Running? && (a.Act? ==> !Reads(c, f.base, x))
    ensures FInv(c, FDo(c, f, a)) && FMeasure(c, FDo(c, f, a)) < FMeasure(c, f)
  {
    var f' := FDo(c, f, a);
    FDoInv(c, f, a);
    MeasureDrops(c, f.base, if a.Fork? then Birth(a.q) else Own(c, a.x));
    forall y | 0 <= y < Actors(c) && y != x ensures CostOf(c, f', y) <= CostOf(c, f, y) + 2 { OtherCost(c, f, f', y); }
    SumChange(Costs(c, f), Costs(c, f'), x, 2 * Actors(c) + 1);
    Pays(Price(c), Measure(f.base), Measure(f'.base), Sum(Costs(c, f)), Sum(Costs(c, f')));
  }

  lemma WaitStepPays(c: Config, f: FState, x: nat)
    requires FInv(c, f) && x < Actors(c) && ((f.modes[x].Running? && Reads(c, f.base, x)) || f.modes[x].Seen?)
    ensures FMeasure(c, FDo(c, f, Act(x))) < FMeasure(c, f)
  {
    var f' := FDo(c, f, Act(x));
    assert ModeOk(c, f, x);
    assert forall y :: 0 <= y < Actors(c) && y != x ==> CostOf(c, f', y) == CostOf(c, f, y);
    SumFalls(Costs(c, f), Costs(c, f'), x);
  }

  lemma WakeStepPays(c: Config, f: FState, x: nat)
    requires FSized(c, f) && x < Actors(c) && f.modes[x].WakeDue?
    ensures FMeasure(c, FDo(c, f, Act(x))) < FMeasure(c, f)
  {
    var f' := FDo(c, f, Act(x));
    assert forall y :: 0 <= y < Actors(c) && y != x ==> CostOf(c, f', y) <= CostOf(c, f, y) + 2;
    SumChange(Costs(c, f), Costs(c, f'), x, -2 * Actors(c) - 1);
  }

  lemma FStepLowers(c: Config, f: FState, a: FAction)
    requires FInv(c, f) && FEnabled(c, f, a)
    ensures FMeasure(c, FDo(c, f, a)) < FMeasure(c, f)
  {
    if a.Fork? { StageStepPays(c, f, a, c.parts[a.q].maker); }
    else if f.modes[a.x].WakeDue? { WakeStepPays(c, f, a.x); }
    else if f.modes[a.x].Seen? || Reads(c, f.base, a.x) { WaitStepPays(c, f, a.x); }
    else { StageStepPays(c, f, a, a.x); }
  }

  lemma FSteppedLowers(c: Config, run: seq<FState>, k: nat, f: FState, f': FState)
    requires k + 1 < |run| && f == run[k] && f' == run[k + 1] && FInv(c, f) && FInv(c, f') && FStepped(c, run, k)
    ensures FMeasure(c, f') < FMeasure(c, f)
  {
    var a :| FEnabled(c, f, a) && f' == FDo(c, f, a);
    FStepLowers(c, f, a);
  }

  lemma {:induction false} FRunMeasure(c: Config, run: seq<FState>, k: nat)
    requires FRun(c, run) && k < |run|
    ensures FMeasure(c, run[k]) <= FMeasure(c, FStart(c)) - k
  {
    if k > 0 {
      FRunMeasure(c, run, k - 1);
      FRunInv(c, run, k - 1);
      FRunInv(c, run, k);
      FSteppedLowers(c, run, k - 1, run[k - 1], run[k]);
    }
  }

  lemma MeasureBounds(c: Config, s: State)
    requires Inv(c, s)
    ensures 0 <= Measure(s) <= FINISHED + OVER * |c.parts|
  {
    forall p | 0 <= p < |s.at| ensures s.at[p] <= OVER { assert Know(c, p, s.at[p], s.at[0], s.criu); }
    LeftBounds(s.at);
  }

  lemma Scaled(a: nat, b: int, d: int)
    requires 0 <= b <= d
    ensures 0 <= a * b <= a * d
  {
    assert a * d == a * b + a * (d - b);
  }

  /** Every run of futex calls, however scheduled, is over after a bounded number of steps. */
  lemma FRunsEnd(c: Config, run: seq<FState>)
    requires FRun(c, run)
    ensures |run| <= Price(c) * (FINISHED + OVER * |c.parts|) + 2 * Actors(c) + 1
  {
    var k, last := |run| - 1, run[|run| - 1];
    FRunMeasure(c, run, k);
    FRunInv(c, run, k);
    StartFull(c);
    MeasureBounds(c, last.base);
    MeasureBounds(c, Start(c));
    Scaled(Price(c), Measure(last.base), FINISHED + OVER * |c.parts|);
    Scaled(Price(c), Measure(Start(c)), FINISHED + OVER * |c.parts|);
    SumSame(Costs(c, FStart(c)), Actors(c));
  }

  /** A run of futex calls that cannot go on has completed the restore. */
  lemma FMaximalRunsComplete(c: Config, run: seq<FState>)
    requires FRun(c, run) && !SomeFEnabled(c, run[|run| - 1])
    ensures var s := run[|run| - 1].base;
            s.criu == FINISHED && s.start == Complete && forall p :: 0 <= p < |s.at| ==> s.at[p] == OVER
  {
    var f := run[|run| - 1];
    FRunInv(c, run, |run| - 1);
    if f.base.criu < FINISHED || exists p :: 0 <= p < |f.base.at| && f.base.at[p] < OVER { NobodySleepsForEver(c, f); }
    forall p | 0 <= p < |f.base.at|
        ensures f.base.at[p] == OVER { assert Know(c, p, f.base.at[p], f.base.at[0], f.base.criu); }
  }
}
