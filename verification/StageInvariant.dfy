/** What every step of the restore stages keeps: the counter always holds the parts still to be waited for. */
module StageInvariant {
  import opened StageBarrier

  // ----- counting

  lemma {:induction false} CountUpdate(bits: seq<bool>, i: nat, b: bool)
    requires i < |bits|
    ensures Count(bits[i := b]) == Count(bits) + (if b then 1 else 0) - (if bits[i] then 1 else 0)
  {
    var n := |bits| - 1;
    if i == n {
      assert bits[i := b][..n] == bits[..n];
    } else {
      assert bits[i := b][..n] == bits[..n][i := b];
      CountUpdate(bits[..n], i, b);
    }
  }

  /** If every bit of a is in b and b has no more of them, the two are the same. */
  lemma {:induction false} CountSub(a: seq<bool>, b: seq<bool>)
    requires |a| == |b| && forall i :: 0 <= i < |a| && a[i] ==> b[i]
    ensures Count(a) <= Count(b)
    ensures Count(b) <= Count(a) ==> a == b
  {
    if a != [] {
      var n := |a| - 1;
      CountSub(a[..n], b[..n]);
      if Count(b) <= Count(a) {
        assert a == a[..n] + [a[n]] && b == b[..n] + [b[n]];
      }
    }
  }

  lemma {:induction false} CountSum(a: seq<bool>, b: seq<bool>, sum: seq<bool>)
    requires |a| == |b| == |sum| && forall i :: 0 <= i < |a| ==> sum[i] == (a[i] || b[i]) && !(a[i] && b[i])
    ensures Count(a) + Count(b) == Count(sum)
  {
    if a != [] {
      var n := |a| - 1;
      CountSum(a[..n], b[..n], sum[..n]);
    }
  }

  function NoBits(n: nat): seq<bool> { seq(n, i => false) }

  lemma {:induction false} CountNone(n: nat)
    ensures Count(NoBits(n)) == 0
  {
    if n > 0 {
      assert NoBits(n)[..n - 1] == NoBits(n - 1);
      CountNone(n - 1);
    }
  }

  lemma {:induction false} CountZero(bits: seq<bool>)
    requires Count(bits) == 0
    ensures forall i :: 0 <= i < |bits| ==> !bits[i]
  {
    CountNone(|bits|);
    CountSub(NoBits(|bits|), bits);
  }

  lemma CountOne(n: nat)
    requires n > 0
    ensures Count(NoBits(n)[0 := true]) == 1
  {
    CountNone(n);
    CountUpdate(NoBits(n), 0, true);
  }

  // ----- the stage and what the counter counts

  /** The stage word, from where criu (k) and the root task (r) stand. */
  function StageOf(ns: bool, k: nat, r: nat): Stage {
    if k <= SET_ROOT_STAGE then Fail
    else if k >= FINISHED then Complete
    else if k >= AWAIT_CREDS then RestoreCreds
    else if k >= AWAIT_SIGCHLD then RestoreSigchld
    else if k >= DROP_ZOMBIES then Restore
    else if ns && k <= SET_NS_STAGE then RootTask
    else if ns && k <= SET_FORK_STAGE then PrepareNamespaces
    else if r >= RESTORING then Restore
    else if ns then Forking
    else if r <= WAIT_ROOT_TASK then RootTask
    else if r <= WAIT_PREPARE_NS then PrepareNamespaces
    else Forking
  }

  /** The stage the counter was last set for; it runs ahead of the stage word. */
  function CountedStage(ns: bool, k: nat, r: nat): Stage {
    if k == SET_ROOT_COUNT then Fail
    else if k >= SET_CREDS_STAGE then RestoreCreds
    else if k >= SET_SIGCHLD_STAGE then RestoreSigchld
    else if k >= DROP_ZOMBIES then Restore
    else if ns && k <= SET_NS_COUNT then RootTask
    else if ns && k <= SET_FORK_COUNT then PrepareNamespaces
    else if r >= SET_RESTORE then Restore
    else if ns then Forking
    else if k == SET_ROOT_STAGE || r <= END_ROOT_TASK then RootTask
    else if r <= END_PREPARE_NS then PrepareNamespaces
    else Forking
  }

  /** Part p, standing at r, is still counted for stage e. */
  predicate Pending(c: Config, e: Stage, p: nat, r: nat)
    requires p < |c.parts|
  {
    match e
    case Fail => false
    case RootTask => p == 0 && !(c.ns && r > END_ROOT_TASK)
    case PrepareNamespaces => p == 0 && !(c.ns && r > END_PREPARE_NS)
    case Forking => c.parts[p].main && (p == 0 || r <= END_FORKING)
    case Restore => r <= END_RESTORE
    case RestoreSigchld => c.Living(p) && r <= END_SIGCHLD
    case RestoreCreds => c.Living(p) && r <= END_CREDS
    case Complete => false
  }

  function PendingBits(c: Config, e: Stage, at: seq<nat>): (b: seq<bool>)
    requires |at| == |c.parts|
    ensures |b| == |at|
  {
    seq(|at|, p requires 0 <= p < |at| => Pending(c, e, p, at[p]))
  }

  // ----- what a part may know

  /** How far a part at r shows that the root task (root) and criu (k) have come. */
  predicate Know(c: Config, p: nat, r: nat, root: nat, k: nat)
    requires p < |c.parts|
  {
    && r <= OVER
    && (p != 0 ==> !(ROOT_TASK <= r <= WAIT_PREPARE_NS) && r != SET_RESTORE && r != WAIT_OTHERS)
    && (p != 0 && r > UNBORN ==> root >= FORKING)
    && (p != 0 && !c.parts[p].main && r > UNBORN ==> r >= RESTORING && (c.parts[p].maker == 0 ==> root >= SPAWNING))
    && (p != 0 && r >= RESTORING ==> root >= RESTORING)
    && (r >= SIGCHLD ==> k >= AWAIT_SIGCHLD)
    && (c.Living(p) && r >= CREDS ==> k >= AWAIT_CREDS)
    && (c.Living(p) && r >= OVER ==> k >= FINISHED)
    && (!c.Living(p) ==> r <= SIGCHLD || r == OVER)
  }

  /** How far the root task and criu show that a part at r has come. */
  predicate Passed(c: Config, p: nat, r: nat, root: nat, k: nat)
    requires p < |c.parts|
  {
    && (root >= WAIT_FORKING && c.parts[p].main ==> r >= WAIT_FORKING)
    && (root >= SPAWNING && !c.OfRoot(p) ==> r >= WAIT_RESTORE)
    && (k >= DROP_ZOMBIES ==> r >= WAIT_RESTORE)
    && (k >= SET_CREDS_COUNT && c.Living(p) ==> r >= WAIT_SIGCHLD)
    && (k >= SET_COMPLETE && c.Living(p) ==> r >= WAIT_CREDS)
  }

  /** How criu and the root task stand to each other. */
  predicate Leaders(ns: bool, root: nat, k: nat) {
    && k <= FINISHED && root <= OVER
    && (k <= FORK_ROOT <==> root == UNBORN)
    && (ns && root >= PREPARE_NS ==> k >= AWAIT_NS)
    && (ns && root >= FORKING ==> k >= AWAIT_RESTORE)
    && (!ns ==> k <= FORK_ROOT || k >= AWAIT_RESTORE)
    && (ns && k >= SET_NS_COUNT ==> root >= WAIT_ROOT_TASK)
    && (ns && k >= SET_FORK_COUNT ==> root >= WAIT_PREPARE_NS)
  }

  ghost predicate Locals(c: Config, s: State, root: nat, k: nat)
    requires |s.at| == |c.parts|
  {
    forall p :: 0 <= p < |s.at| ==> Know(c, p, s.at[p], root, k) && Passed(c, p, s.at[p], root, k)
  }

  ghost predicate Counter(c: Config, s: State, root: nat)
    requires |s.at| == |c.parts|
  {
    && s.start == StageOf(c.ns, s.criu, root)
    && s.nrInProgress == Count(PendingBits(c, CountedStage(c.ns, s.criu, root), s.at))
    && s.nrThreads == Count(c.Threads()) - (if s.criu > DROP_ZOMBIES then Count(c.Zombies()) else 0)
  }

  ghost predicate Inv(c: Config, s: State) {
    && Sized(c, s)
    && Leaders(c.ns, s.at[0], s.criu) && Locals(c, s, s.at[0], s.criu) && Counter(c, s, s.at[0])
  }

  // ----- how the counter changes

  /** One part moves and the counter is for the same stage as before. */
  lemma CountMoves(c: Config, e: Stage, at: seq<nat>, p: nat, r': nat)
    requires |at| == |c.parts| && p < |at|
    ensures Count(PendingBits(c, e, at[p := r'])) ==
              Count(PendingBits(c, e, at)) + (if Pending(c, e, p, r') then 1
                  else 0) - (if Pending(c, e, p, at[p]) then 1 else 0)
  {
    var bits := PendingBits(c, e, at);
    CountUpdate(bits, p, Pending(c, e, p, r'));
    assert PendingBits(c, e, at[p := r']) == bits[p := Pending(c, e, p, r')];
  }

  /** The counter as stage_participants sets it: for a stage nobody has finished. */
  lemma CountFresh(c: Config, s: State, e: Stage, at: seq<nat>)
    requires c.Valid() && |at| == |c.parts| && e != Fail && e != Complete
    requires forall p :: 0 <= p < |at| ==> Fresh(c, e, p, at[p])
    requires s.nrThreads == Count(c.Threads()) - (if e == RestoreSigchld
             || e == RestoreCreds then Count(c.Zombies()) else 0)
    ensures Participants(c, s, e) == Count(PendingBits(c, e, at))
  {
    var bits := PendingBits(c, e, at);
    match e {
      case RootTask => CountOne(|at|); assert bits == NoBits(|at|)[0 := true];
      case PrepareNamespaces => CountOne(|at|); assert bits == NoBits(|at|)[0 := true];
      case Forking => assert bits == c.Mains();
      case Restore => CountSum(c.Threads(), c.Helpers(), bits);
      case RestoreSigchld => CountSum(c.Zombies(), bits, c.Threads());
      case RestoreCreds => CountSum(c.Zombies(), bits, c.Threads());
    }
  }

  /** A part at r has not finished stage e. */
  predicate Fresh(c: Config, e: Stage, p: nat, r: nat)
    requires p < |c.parts|
  {
    match e
    case RootTask => r <= END_ROOT_TASK
    case PrepareNamespaces => r <= END_PREPARE_NS
    case Forking => p == 0 || r <= END_FORKING
    case Restore => r <= END_RESTORE
    case RestoreSigchld => c.Living(p) ==> r <= END_SIGCHLD
    case RestoreCreds => c.Living(p) ==> r <= END_CREDS
    case _ => true
  }

  // ----- a part other than the root task moves

  lemma PartLocal(c: Config, s: State, p: nat, root: nat, k: nat)
    requires Sized(c, s) && 0 < p < |s.at| && CanStep(c, s, p) && Leaders(c.ns, root, k)
    requires Know(c, p, s.at[p], root, k) && Passed(c, p, s.at[p], root, k) && s.start == StageOf(c.ns, k, root)
    requires DeadIsLate(c, s, k)
    ensures Know(c, p, NextAt(c, p, s.at[p]), root, k) && Passed(c, p, NextAt(c, p, s.at[p]), root, k)
  {
    if s.at[p] == WAIT_RESTORE && !c.Living(p) && c.ExpectsDeath(p) {
      var q :| 0 <= q < |s.at| && c.DyingChild(p, q) && s.at[q] == OVER;
    }
  }

  /** A part that is over shows that criu has come past RESTORE. */
  ghost predicate DeadIsLate(c: Config, s: State, k: nat) {
    forall q :: 0 <= q < |s.at| && s.at[q] == OVER ==> k >= AWAIT_SIGCHLD
  }

  lemma OverIsLate(c: Config, s: State)
    requires Inv(c, s)
    ensures DeadIsLate(c, s, s.criu)
  {
    forall q | 0 <= q < |s.at| && s.at[q] == OVER ensures s.criu >= AWAIT_SIGCHLD {
      assert Know(c, q, s.at[q], s.at[0], s.criu);
    }
  }

  /** A step takes a part off the counter exactly when it decrements it. */
  lemma PartPending(c: Config, s: State, p: nat, root: nat, k: nat)
    requires Sized(c, s) && p < |s.at| && CanStep(c, s, p) && Leaders(c.ns, root, k)
    requires Know(c, p, s.at[p], root, k) && Passed(c, p, s.at[p], root, k) && (p == 0 ==> s.at[0] == root)
    ensures var e := CountedStage(c.ns, k, root);
            Decrements(c, p, s.at[p]) <==> Pending(c, e, p, s.at[p]) && !Pending(c, e, p, NextAt(c, p, s.at[p]))
    ensures var e := CountedStage(c.ns, k, root);
            Pending(c, e, p, NextAt(c, p, s.at[p])) ==> Pending(c, e, p, s.at[p])
  {
  }

  lemma PartStepInv(c: Config, s: State, p: nat)
    requires Inv(c, s) && 0 < p < |s.at| && CanStep(c, s, p)
    ensures Inv(c, PartStep(c, s, p))
  {
    var s', root, k := PartStep(c, s, p), s.at[0], s.criu;
    assert Know(c, p, s.at[p], root, k) && Passed(c, p, s.at[p], root, k);
    OverIsLate(c, s);
    PartLocal(c, s, p, root, k);
    PartPending(c, s, p, root, k);
    CountMoves(c, CountedStage(c.ns, k, root), s.at, p, NextAt(c, p, s.at[p]));
    forall q | 0 <= q < |s'.at| ensures Know(c, q, s'.at[q], root, k) && Passed(c, q, s'.at[q], root, k) {
      assert Know(c, q, s.at[q], root, k) && Passed(c, q, s.at[q], root, k);
    }
  }

  // ----- a part is made

  lemma MakeInv(c: Config, s: State, q: nat)
    requires Inv(c, s) && CanMake(c, s, q)
    ensures Inv(c, Make(c, s, q))
  {
    var s', root, k := Make(c, s, q), s.at[0], s.criu;
    var m := c.parts[q].maker;
    assert Know(c, m, s.at[m], root, k) && Passed(c, m, s.at[m], root, k);
    assert Know(c, q, s.at[q], root, k) && Passed(c, q, s.at[q], root, k);
    CountMoves(c, CountedStage(c.ns, k, root), s.at, q, s'.at[q]);
    forall p | 0 <= p < |s'.at| ensures Know(c, p, s'.at[p], root, k) && Passed(c, p, s'.at[p], root, k) {
      if p != q { assert Know(c, p, s.at[p], root, k) && Passed(c, p, s.at[p], root, k); }
    }
  }

  // ----- the root task moves

  lemma RootLeads(c: Config, s: State, root: nat, root': nat, k: nat)
    requires Sized(c, s) && CanStep(c, s, 0) && root == s.at[0] && k == s.criu && root' == NextAt(c, 0, root)
    requires Leaders(c.ns, root, k) && s.start == StageOf(c.ns, k, root) && Know(c, 0, root, root, k)
    requires Passed(c, 0, root, root, k)
    ensures Leaders(c.ns, root', k) && Know(c, 0, root', root', k) && Passed(c, 0, root', root', k)
    ensures PartStep(c, s, 0).start == StageOf(c.ns, k, root')
  {
  }

  /** The root task passes its wait in FORKING: all other processes have finished the stage. */
  lemma ForkingOver(c: Config, at: seq<nat>, p: nat)
    requires c.Valid() && |at| == |c.parts| && Count(PendingBits(c, Forking, at)) <= 1 && p < |at| && c.parts[p].main
    requires p != 0
    ensures at[p] >= WAIT_FORKING
  {
    var bits, own := PendingBits(c, Forking, at), NoBits(|at|)[0 := true];
    CountOne(|at|);
    CountSub(own, bits);
    assert !own[p] && bits[p] == Pending(c, Forking, p, at[p]);
  }

  /** The root task passes its wait in RESTORE: everyone but its own threads has finished the stage. */
  lemma OthersRestored(c: Config, at: seq<nat>, p: nat)
    requires c.Valid() && |at| == |c.parts| && Count(PendingBits(c, Restore, at)) <= Count(c.RootThreads())
    requires p < |at| && !c.OfRoot(p)
    requires forall q :: 0 <= q < |at| && c.OfRoot(q) ==> at[q] <= END_RESTORE
    ensures at[p] >= WAIT_RESTORE
  {
    var bits := PendingBits(c, Restore, at);
    CountSub(c.RootThreads(), bits);
    assert !c.RootThreads()[p] && bits[p] == Pending(c, Restore, p, at[p]);
  }

  lemma RootThreadsPending(c: Config, s: State, root: nat, k: nat, q: nat)
    requires Sized(c, s) && Locals(c, s, root, k) && root == s.at[0] == WAIT_OTHERS && q < |s.at| && c.OfRoot(q)
    ensures s.at[q] <= END_RESTORE
  {
    assert Know(c, q, s.at[q], root, k);
  }

  lemma RootPasses(c: Config, s: State, root: nat, root': nat, k: nat, p: nat)
    requires Sized(c, s) && CanStep(c, s, 0) && root == s.at[0] && k == s.criu && root' == NextAt(c, 0, root)
    requires Leaders(c.ns, root, k) && Locals(c, s, root, k) && Counter(c, s, root) && 0 < p < |s.at|
    ensures Know(c, p, s.at[p], root', k) && Passed(c, p, s.at[p], root', k)
  {
    assert Know(c, p, s.at[p], root, k) && Passed(c, p, s.at[p], root, k) && Passed(c, 0, root, root, k);
    if root == END_FORKING && c.parts[p].main {
      ForkingOver(c, s.at, p);
    } else if root == WAIT_OTHERS && !c.OfRoot(p) {
      forall q | 0 <= q < |s.at| && c.OfRoot(q) ensures s.at[q] <= END_RESTORE { RootThreadsPending(c, s, root, k, q); }
      OthersRestored(c, s.at, p);
    }
  }

  /** The root task sets the counter for the stage it starts. */
  lemma RootSets(c: Config, s: State, root: nat, root': nat, k: nat, at': seq<nat>)
    requires Sized(c, s) && CanStep(c, s, 0) && root == s.at[0] && k == s.criu && root' == NextAt(c, 0, root)
    requires at' == s.at[0 := root']
    requires Leaders(c.ns, root, k) && Locals(c, s, root, k) && Counter(c, s, root)
    requires CountedStage(c.ns, k, root') != CountedStage(c.ns, k, root)
    ensures PartStep(c, s, 0).nrInProgress == Count(PendingBits(c, CountedStage(c.ns, k, root'), at'))
  {
    var e := CountedStage(c.ns, k, root');
    forall p | 0 <= p < |at'| ensures Fresh(c, e, p, at'[p]) {
      assert Know(c, p, s.at[p], root, k) && Passed(c, p, s.at[p], root, k);
    }
    assert Passed(c, 0, root, root, k);
    CountFresh(c, s, e, at');
  }

  lemma RootStepInv(c: Config, s: State)
    requires Inv(c, s) && CanStep(c, s, 0)
    ensures Inv(c, PartStep(c, s, 0))
  {
    var s', root, root', k := PartStep(c, s, 0), s.at[0], NextAt(c, 0, s.at[0]), s.criu;
    assert Know(c, 0, root, root, k) && Passed(c, 0, root, root, k);
    RootLeads(c, s, root, root', k);
    forall p | 0 <= p < |s'.at| ensures Know(c, p, s'.at[p], root', k) && Passed(c, p, s'.at[p], root', k) {
      if p > 0 { RootPasses(c, s, root, root', k, p); }
    }
    if CountedStage(c.ns, k, root') != CountedStage(c.ns, k, root) {
      RootSets(c, s, root, root', k, s'.at);
    } else {
      PartPending(c, s, 0, root, k);
      CountMoves(c, CountedStage(c.ns, k, root), s.at, 0, root');
    }
  }

  // ----- criu moves

  /** What criu's wait tells of a part. */
  lemma CriuPasses(c: Config, s: State, root: nat, k: nat, k': nat, p: nat)
    requires Sized(c, s) && CanCriu(c, s) && root == s.at[0] && k == s.criu && k' == CriuStep(c, s).criu
    requires k != FORK_ROOT
    requires Leaders(c.ns, root, k) && Locals(c, s, root, k) && Counter(c, s, root) && p < |s.at|
    ensures Know(c, p, s.at[p], root, k') && Passed(c, p, s.at[p], root, k')
  {
    assert Know(c, p, s.at[p], root, k) && Passed(c, p, s.at[p], root, k);
    var e := CountedStage(c.ns, k, root);
    if k == AWAIT_RESTORE || k == AWAIT_SIGCHLD || k == AWAIT_CREDS {
      CountZero(PendingBits(c, e, s.at));
      assert !PendingBits(c, e, s.at)[p] && !PendingBits(c, e, s.at)[0];
      assert !Pending(c, e, p, s.at[p]) && !Pending(c, e, 0, s.at[0]);
    }
  }

  lemma CriuLeads(c: Config, s: State, root: nat, root': nat, k: nat, k': nat)
    requires Sized(c, s) && CanCriu(c, s) && root == s.at[0] && k == s.criu && k' == CriuStep(c, s).criu
    requires root' == CriuStep(c, s).at[0]
    requires Leaders(c.ns, root, k) && Locals(c, s, root, k) && Counter(c, s, root)
    ensures Leaders(c.ns, root', k') && CriuStep(c, s).start == StageOf(c.ns, k', root')
  {
    assert Know(c, 0, root, root, k) && Passed(c, 0, root, root, k);
    var e := CountedStage(c.ns, k, root);
    if k == AWAIT_ROOT || k == AWAIT_NS || k == AWAIT_RESTORE {
      CountZero(PendingBits(c, e, s.at));
      assert !PendingBits(c, e, s.at)[0];
      assert !Pending(c, e, 0, s.at[0]);
    }
  }

  lemma CriuSets(c: Config, s: State, root: nat, k: nat, k': nat)
    requires Sized(c, s) && CanCriu(c, s) && root == s.at[0] && k == s.criu && k' == CriuStep(c, s).criu
    requires k != FORK_ROOT
    requires Leaders(c.ns, root, k) && Locals(c, s, root, k) && Counter(c, s, root)
    requires CountedStage(c.ns, k', root) != CountedStage(c.ns, k, root) && Passed(c, 0, root, root, k')
    ensures CriuStep(c, s).nrInProgress == Count(PendingBits(c, CountedStage(c.ns, k', root), s.at))
  {
    var e := CountedStage(c.ns, k', root);
    forall p | 0 <= p < |s.at| ensures Fresh(c, e, p, s.at[p]) {
      assert Know(c, p, s.at[p], root, k) && Passed(c, p, s.at[p], root, k);
    }
    CountFresh(c, s, e, s.at);
  }

  lemma CriuStepInv(c: Config, s: State)
    requires Inv(c, s) && CanCriu(c, s)
    ensures Inv(c, CriuStep(c, s))
  {
    var s', root, k := CriuStep(c, s), s.at[0], s.criu;
    var root', k' := s'.at[0], s'.criu;
    CriuLeads(c, s, root, root', k, k');
    if k == FORK_ROOT {
      forall p | 0 <= p < |s'.at| ensures Know(c, p, s'.at[p], root', k') && Passed(c, p, s'.at[p], root', k') {
        assert Know(c, p, s.at[p], root, k) && Passed(c, p, s.at[p], root, k);
      }
      CountMoves(c, RootTask, s.at, 0, root');
    } else {
      forall p | 0 <= p < |s'.at| ensures Know(c, p, s'.at[p], root', k') && Passed(c, p, s'.at[p], root', k') {
        CriuPasses(c, s, root, k, k', p);
      }
      assert Passed(c, 0, s'.at[0], root', k');
      if CountedStage(c.ns, k', root) != CountedStage(c.ns, k, root) { CriuSets(c, s, root, k, k'); }
    }
  }

  // ----- runs

  lemma StartInv(c: Config)
    requires c.Valid()
    ensures Inv(c, Start(c))
  {
    CountNone(|c.parts|);
    assert PendingBits(c, Fail, Start(c).at) == NoBits(|c.parts|);
  }

  lemma DoInv(c: Config, s: State, a: Action)
    requires Inv(c, s) && Enabled(c, s, a)
    ensures Inv(c, Do(c, s, a))
  {
    match a
    case Criu => CriuStepInv(c, s);
    case Move(p) => if p == 0 { RootStepInv(c, s); } else { PartStepInv(c, s, p); }
    case Birth(q) => MakeInv(c, s, q);
  }

  lemma SteppedInv(c: Config, run: seq<State>, k: nat, s: State, s': State)
    requires k + 1 < |run| && s == run[k] && s' == run[k + 1] && Inv(c, s) && Stepped(c, run, k)
    ensures Inv(c, s')
  {
    var a :| Enabled(c, s, a) && s' == Do(c, s, a);
    DoInv(c, s, a);
  }

  /** Every state of every run satisfies the invariant. */
  lemma {:induction false} RunInv(c: Config, run: seq<State>, k: nat)
    requires Run(c, run) && k < |run|
    ensures Inv(c, run[k])
  {
    var s := run[k];
    if k == 0 {
      StartInv(c);
    } else {
      RunInv(c, run, k - 1);
      SteppedInv(c, run, k - 1, run[k - 1], s);
    }
  }
}
