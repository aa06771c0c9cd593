/** Start-up migration: N replicas, one advisory lock, bounded retries, one transaction
    per upgrade. Steps of different replicas interleave freely; any step may fail, and a lock
    may be lost while the upgrade it guards goes on. */
module Migrate {
  import opened Wrappers

  /** Where a replica is in one attempt of migrate.run. The lock lives on one connection and the
      upgrade runs on another, so the lock can be lost while the upgrade goes on. */
  datatype Phase =
    | Connecting
    | Locking                                          // waiting for pg_advisory_lock
    | Upgrading(base: nat, txn: seq<nat>, locked: bool)  // from revision base; txn is run, not committed
    | Unlocking(ok: bool, locked: bool)                // upgrade returned (ok) or raised
    | Exited(code: int)
    | Killed

  datatype Replica = Replica(attempt: int, phase: Phase)

  /** Migrations are numbered 0 .. head-1; applied lists the committed ones, oldest first. */
  datatype System = System(applied: seq<nat>, holder: Option<nat>, replicas: seq<Replica>)

  /** lossy: whether the lock's connection can break under a running upgrade. */
  datatype Config = Config(enabled: bool, head: nat, attempts: int, lossy: bool)

  function FirstN(n: nat): (s: seq<nat>)
    ensures |s| == n
  {
    seq(n, i => i)
  }

  predicate Stopped(p: Phase) {
    p.Exited? || p.Killed?
  }

  /** Between lock and unlock. */
  predicate Working(p: Phase) {
    p.Upgrading? || p.Unlocking?
  }

  predicate HoldsLock(p: Phase) {
    Working(p) && p.locked
  }

  /** An exception: give up after the last attempt, else sleep and try again. */
  function AfterFailure(c: Config, r: Replica): Replica {
    if r.attempt == c.attempts then Replica(r.attempt, Exited(1)) else Replica(r.attempt + 1, Connecting)
  }

  function At(s: System, i: nat, r: Replica): System
    requires i < |s.replicas|
  {
    s.(replicas := s.replicas[i := r])
  }

  function Release(s: System): System {
    s.(holder := None)
  }

  function ReleaseIf(s: System, held: bool): System {
    if held then Release(s) else s
  }

  /** The upgrade has nothing left to run: it commits, unless the version row has moved on since it
      read it, and then it raises. */
  function Committed(s: System, i: nat): System
    requires i < |s.replicas| && s.replicas[i].phase.Upgrading?
  {
    var r := s.replicas[i];
    var p := r.phase;
    if p.base == |s.applied| then At(s.(applied := s.applied + p.txn), i, r.(phase := Unlocking(true, p.locked)))
    else At(s, i, r.(phase := Unlocking(false, p.locked)))
  }

  /** The unlock; on a broken connection it raises. */
  function Unlocked(c: Config, s: System, i: nat): System
    requires i < |s.replicas| && s.replicas[i].phase.Unlocking?
  {
    var r := s.replicas[i];
    At(ReleaseIf(s, r.phase.locked), i,
       if r.phase.ok && r.phase.locked then r.(phase := Exited(0)) else AfterFailure(c, r))
  }

  /** The next step of replica i when nothing goes wrong in it. */
  ghost predicate Advances(c: Config, s: System, t: System, i: nat)
    requires i < |s.replicas|
  {
    var r := s.replicas[i];
    match r.phase
    case Connecting =>
      if !c.enabled then t == At(s, i, r.(phase := Exited(0)))
      else if r.attempt > c.attempts then t == At(s, i, r.(phase := Exited(1)))
      else t == At(s, i, r.(phase := Locking))
    case Locking =>
      s.holder.None? && t == At(s.(holder := Some(i)), i, r.(phase := Upgrading(|s.applied|, [], true)))
    case Upgrading(base, txn, locked) =>
      if base + |txn| < c.head then t == At(s, i, r.(phase := Upgrading(base, txn + [base + |txn|], locked)))
      else t == Committed(s, i)
    case Unlocking(_, _) => t == Unlocked(c, s, i)
    case _ => false
  }

  /** A step of replica i that fails: no connection, no lock, a failing migration (rolled
      back), a commit whose answer is lost, an unlock on a broken connection, or a kill. */
  ghost predicate Fails(c: Config, s: System, t: System, i: nat)
    requires i < |s.replicas|
  {
    var r := s.replicas[i];
    || (!Stopped(r.phase) && t == At(ReleaseIf(s, HoldsLock(r.phase)), i, r.(phase := Killed)))
    || match r.phase
       case Connecting => c.enabled && r.attempt <= c.attempts && t == At(s, i, AfterFailure(c, r))
       case Locking => t == At(s, i, AfterFailure(c, r))
       case Upgrading(base, txn, locked) =>
         || t == At(s, i, r.(phase := Unlocking(false, locked)))
         || (base + |txn| == c.head && base == |s.applied|
             && t == At(s.(applied := s.applied + txn), i, r.(phase := Unlocking(false, locked))))
       case Unlocking(_, locked) => t == At(ReleaseIf(s, locked), i, AfterFailure(c, r))
       case _ => false
  }

  /** The server ends replica i's lock session; what runs on its other connection goes on. */
  ghost predicate LosesLock(c: Config, s: System, t: System, i: nat)
    requires i < |s.replicas|
  {
    var r := s.replicas[i];
    c.lossy && HoldsLock(r.phase) && t == At(Release(s), i, r.(phase := r.phase.(locked := false)))
  }

  ghost predicate Moves(c: Config, s: System, t: System, i: nat)
    requires i < |s.replicas|
  {
    Advances(c, s, t, i) || Fails(c, s, t, i) || LosesLock(c, s, t, i)
  }

  ghost predicate Step(c: Config, s: System, t: System) {
    exists i :: 0 <= i < |s.replicas| && Moves(c, s, t, i)
  }

  ghost predicate Init(c: Config, s: System) {
    && (exists r :: 0 <= r <= c.head && s.applied == FirstN(r))
    && s.holder.None?
    && forall i :: 0 <= i < |s.replicas| ==> s.replicas[i] == Replica(1, Connecting)
  }

  ghost predicate Run(c: Config, trace: seq<System>) {
    && trace != [] && Init(c, trace[0])
    && forall n :: 0 <= n < |trace| - 1 ==> Step(c, trace[n], trace[n + 1])
  }

  // ------------------------------------------------------------------ what every step keeps

  ghost predicate Ordered(c: Config, s: System) {
    |s.applied| <= c.head && s.applied == FirstN(|s.applied|)
  }

  /** txn holds the migrations after base, in order. */
  ghost predicate Pending(c: Config, base: nat, txn: seq<nat>) {
    && base + |txn| <= c.head
    && forall k :: 0 <= k < |txn| ==> txn[k] == base + k
  }

  /** What holds of a replica whatever the others do. */
  ghost predicate Sane(c: Config, r: Replica) {
    && 1 <= r.attempt && (r.attempt <= c.attempts || r.phase == Connecting || Stopped(r.phase))
    && (r.attempt > c.attempts ==> r.attempt == 1)
    && (r.phase.Locking? || Working(r.phase) ==> c.enabled)
    && (Working(r.phase) && !r.phase.locked ==> c.lossy)
    && (r.phase.Upgrading? ==> Pending(c, r.phase.base, r.phase.txn))
    && (r.phase.Exited? && c.enabled ==> r.phase.code == 0 || r.phase.code == 1)
    && (r.phase == Exited(1) && c.attempts >= 1 ==> r.attempt == c.attempts)
  }

  /** Whatever this replica has reported as done is done. */
  ghost predicate Honest(c: Config, s: System, p: Phase) {
    (p.Unlocking? && p.ok) || (p.Exited? && c.enabled && p.code == 0) ==> |s.applied| == c.head
  }

  ghost predicate ReplicaOk(c: Config, s: System, i: nat)
    requires i < |s.replicas|
  {
    var r := s.replicas[i];
    Sane(c, r) && Honest(c, s, r.phase) && (HoldsLock(r.phase) <==> s.holder == Some(i))
  }

  ghost predicate Inv(c: Config, s: System) {
    && Ordered(c, s)
    && (s.holder.Some? ==> s.holder.value < |s.replicas|)
    && forall i :: 0 <= i < |s.replicas| ==> ReplicaOk(c, s, i)
  }

  lemma CommitOrdered(c: Config, s: System, txn: seq<nat>)
    requires Ordered(c, s) && Pending(c, |s.applied|, txn)
    ensures s.applied + txn == FirstN(|s.applied| + |txn|)
  {
  }

  /** What one step of a replica does to the committed migrations. */
  lemma MoverCommits(c: Config, s: System, t: System, i: nat)
    requires Inv(c, s) && i < |s.replicas| && Moves(c, s, t, i)
    ensures t.applied == s.applied || t.applied == FirstN(c.head)
    ensures s.applied <= t.applied && Ordered(c, t)
  {
    assert ReplicaOk(c, s, i);
    var p := s.replicas[i].phase;
    if p.Upgrading? && p.base == |s.applied| {
      CommitOrdered(c, s, p.txn);
    }
  }

  /** A step changes the committed migrations at most once, from where they were to head. */
  lemma StepCommits(c: Config, s: System, t: System)
    requires Inv(c, s) && Step(c, s, t)
    ensures t.applied == s.applied || t.applied == FirstN(c.head)
    ensures s.applied <= t.applied
  {
    var i :| 0 <= i < |s.replicas| && Moves(c, s, t, i);
    MoverCommits(c, s, t, i);
  }

  lemma MoverSane(c: Config, s: System, t: System, i: nat)
    requires Inv(c, s) && i < |s.replicas| && Moves(c, s, t, i)
    ensures |t.replicas| == |s.replicas| && Sane(c, t.replicas[i])
  {
    assert ReplicaOk(c, s, i);
  }

  lemma MoverHonest(c: Config, s: System, t: System, i: nat)
    requires Inv(c, s) && i < |s.replicas| && Moves(c, s, t, i)
    ensures |t.replicas| == |s.replicas| && Honest(c, t, t.replicas[i].phase)
  {
    assert ReplicaOk(c, s, i);
  }

  lemma MoverLock(c: Config, s: System, t: System, i: nat, j: nat)
    requires Inv(c, s) && i < |s.replicas| && Moves(c, s, t, i) && j < |s.replicas|
    ensures |t.replicas| == |s.replicas|
    ensures HoldsLock(t.replicas[j].phase) <==> t.holder == Some(j)
    ensures t.holder.Some? ==> t.holder.value < |t.replicas|
  {
    assert ReplicaOk(c, s, i) && ReplicaOk(c, s, j);
  }

  lemma OthersOk(c: Config, s: System, t: System, i: nat, j: nat)
    requires Inv(c, s) && i < |s.replicas| && Moves(c, s, t, i) && j < |s.replicas| && j != i
    ensures |t.replicas| == |s.replicas| && t.replicas[j] == s.replicas[j]
    ensures Sane(c, t.replicas[j]) && Honest(c, t, t.replicas[j].phase)
  {
    assert ReplicaOk(c, s, j);
    MoverCommits(c, s, t, i);
  }

  lemma StepKeepsInv(c: Config, s: System, t: System)
    requires Inv(c, s) && Step(c, s, t)
    ensures Inv(c, t)
  {
    var i :| 0 <= i < |s.replicas| && Moves(c, s, t, i);
    MoverCommits(c, s, t, i);
    MoverLock(c, s, t, i, i);
    forall j | 0 <= j < |t.replicas| ensures ReplicaOk(c, t, j) {
      MoverLock(c, s, t, i, j);
      if j == i {
        MoverSane(c, s, t, i);
        MoverHonest(c, s, t, i);
      } else {
        OthersOk(c, s, t, i, j);
      }
    }
  }

  lemma {:induction false} RunKeepsInv(c: Config, trace: seq<System>, n: nat)
    requires Run(c, trace) && n < |trace|
    ensures Inv(c, trace[n])
  {
    if n > 0 {
      RunKeepsInv(c, trace, n - 1);
      StepKeepsInv(c, trace[n - 1], trace[n]);
    }
  }

  // ------------------------------------------------------------------ one upgrade at a time

  /** At any moment at most one replica between lock and unlock still holds the lock. */
  lemma OneHolderAtATime(c: Config, trace: seq<System>, n: nat, i: nat, j: nat)
    requires Run(c, trace) && n < |trace| && i < |trace[n].replicas| && j < |trace[n].replicas|
    requires HoldsLock(trace[n].replicas[i].phase) && HoldsLock(trace[n].replicas[j].phase)
    ensures i == j
  {
    RunKeepsInv(c, trace, n);
    assert ReplicaOk(c, trace[n], i) && ReplicaOk(c, trace[n], j);
  }

  predicate BothWork(s: System, i: nat, j: nat) {
    i < |s.replicas| && j < |s.replicas| && i != j && Working(s.replicas[i].phase) && Working(s.replicas[j].phase)
  }

  /** Two replicas upgrade at once only when one of them has lost its lock. */
  lemma OverlapMeansLoss(c: Config, trace: seq<System>, n: nat, i: nat, j: nat)
    requires Run(c, trace) && n < |trace| && BothWork(trace[n], i, j)
    ensures !HoldsLock(trace[n].replicas[i].phase) || !HoldsLock(trace[n].replicas[j].phase)
    ensures c.enabled && c.attempts >= 1 && c.lossy
  {
    RunKeepsInv(c, trace, n);
    assert ReplicaOk(c, trace[n], i) && ReplicaOk(c, trace[n], j);
  }

  /** In no run are two replicas ever between lock and unlock at once. */
  ghost predicate NeverTwo(c: Config) {
    forall trace: seq<System>, n: nat, i: nat, j: nat :: Run(c, trace) && n < |trace| ==> !BothWork(trace[n], i, j)
  }

  lemma {:induction false} RunOn(c: Config, trace: seq<System>, next: System) returns (longer: seq<System>)
    requires Run(c, trace) && Step(c, trace[|trace| - 1], next)
    ensures Run(c, longer) && longer == trace + [next]
  {
    longer := trace + [next];
    forall n | 0 <= n < |longer| - 1 ensures Step(c, longer[n], longer[n + 1]) {
      assert longer[n] == trace[n];
      assert longer[n + 1] == if n + 1 < |trace| then trace[n + 1] else next;
    }
  }

  /** A replica connects and takes the free lock. */
  lemma Locks(c: Config, trace: seq<System>, i: nat) returns (longer: seq<System>)
    requires Run(c, trace) && c.enabled && c.attempts >= 1
    requires var s := trace[|trace| - 1];
             i < |s.replicas| && s.replicas[i] == Replica(1, Connecting) && s.holder.None?
    ensures Run(c, longer)
    ensures var s, t := trace[|trace| - 1], longer[|longer| - 1];
            t == At(s.(holder := Some(i)), i, Replica(1, Upgrading(|s.applied|, [], true)))
  {
    var s := trace[|trace| - 1];
    var u := At(s, i, Replica(1, Locking));
    var t := At(u.(holder := Some(i)), i, Replica(1, Upgrading(|s.applied|, [], true)));
    assert Advances(c, s, u, i) && Advances(c, u, t, i);
    assert Moves(c, s, u, i) && Moves(c, u, t, i);
    longer := RunOn(c, trace, u);
    longer := RunOn(c, longer, t);
    assert t == At(s.(holder := Some(i)), i, Replica(1, Upgrading(|s.applied|, [], true)));
  }

  /** Once a lock session can end under an upgrade, a second replica gets in. */
  lemma SecondGetsIn(c: Config) returns (trace: seq<System>)
    requires c.enabled && c.attempts >= 1 && c.lossy
    ensures Run(c, trace) && BothWork(trace[|trace| - 1], 0, 1)
  {
    var s := System(FirstN(0), None, [Replica(1, Connecting), Replica(1, Connecting)]);
    trace := Locks(c, [s], 0);
    var t := trace[|trace| - 1];
    var u := At(Release(t), 0, Replica(1, Upgrading(0, [], false)));
    assert LosesLock(c, t, u, 0);
    assert Moves(c, t, u, 0);
    trace := RunOn(c, trace, u);
    trace := Locks(c, trace, 1);
  }

  /** Exactly when the lock keeps its promise: unless its session can end under a running upgrade. */
  lemma OneUpgraderExactly(c: Config)
    ensures NeverTwo(c) <==> !(c.enabled && c.attempts >= 1 && c.lossy)
  {
    if c.enabled && c.attempts >= 1 && c.lossy {
      var trace := SecondGetsIn(c);
      assert BothWork(trace[|trace| - 1], 0, 1);
    } else {
      forall trace: seq<System>, n: nat, i: nat, j: nat | Run(c, trace) && n < |trace|
        ensures !BothWork(trace[n], i, j)
      {
        if BothWork(trace[n], i, j) {
          OverlapMeansLoss(c, trace, n, i, j);
        }
      }
    }
  }

  // ------------------------------------------------------------------ safety over whole runs

  /** The committed migrations are always 0 .. k-1, each once and in order, and never shrink, even
      when locks are lost. */
  lemma {:induction false} AppliedOnceInOrder(c: Config, trace: seq<System>, m: nat, n: nat)
    requires Run(c, trace) && m <= n < |trace|
    ensures trace[n].applied == FirstN(|trace[n].applied|) && |trace[n].applied| <= c.head
    ensures trace[m].applied <= trace[n].applied
    ensures trace[n].applied == trace[m].applied || trace[n].applied == FirstN(c.head)
    decreases n - m
  {
    RunKeepsInv(c, trace, n);
    if m < n {
      AppliedOnceInOrder(c, trace, m, n - 1);
      RunKeepsInv(c, trace, n - 1);
      StepCommits(c, trace[n - 1], trace[n]);
    }
  }

  /** With AUTO_MIGRATE on, exit code 0 means the database is at head, then and later;
      the only other code is 1. */
  lemma ExitCodeTellsHead(c: Config, trace: seq<System>, m: nat, n: nat, i: nat)
    requires Run(c, trace) && m <= n < |trace| && i < |trace[m].replicas|
    requires c.enabled && trace[m].replicas[i].phase.Exited?
    ensures trace[m].replicas[i].phase.code == 0 || trace[m].replicas[i].phase.code == 1
    ensures trace[m].replicas[i].phase.code == 0 ==> |trace[n].applied| == c.head
  {
    RunKeepsInv(c, trace, m);
    assert ReplicaOk(c, trace[m], i);
    AppliedOnceInOrder(c, trace, m, n);
  }

  predicate ExitedZero(s: System, i: nat) {
    i < |s.replicas| && s.replicas[i].phase == Exited(0)
  }

  /** In every run, exit code 0 means head. */
  ghost predicate ZeroMeansHead(c: Config) {
    forall trace: seq<System>, n: nat, i: nat ::
      Run(c, trace) && n < |trace| && ExitedZero(trace[n], i) ==> |trace[n].applied| == c.head
  }

  /** Switched off, a replica exits with 0 wherever the database is. */
  lemma DisabledExitsZeroAnywhere(c: Config, at: nat) returns (trace: seq<System>)
    requires !c.enabled && at <= c.head
    ensures Run(c, trace) && |trace| == 2 && ExitedZero(trace[1], 0) && |trace[1].applied| == at
  {
    var s := System(FirstN(at), None, [Replica(1, Connecting)]);
    var t := At(s, 0, Replica(1, Exited(0)));
    assert Advances(c, s, t, 0);
    assert Moves(c, s, t, 0);
    trace := [s, t];
  }

  /** Exit code 0 can be relied on exactly when migration is switched on (or there is nothing to migrate). */
  lemma ZeroMeansHeadExactly(c: Config)
    ensures ZeroMeansHead(c) <==> c.enabled || c.head == 0
  {
    if c.enabled || c.head == 0 {
      forall trace: seq<System>, n: nat, i: nat | Run(c, trace) && n < |trace| && ExitedZero(trace[n], i)
        ensures |trace[n].applied| == c.head
      {
        RunKeepsInv(c, trace, n);
        assert ReplicaOk(c, trace[n], i);
      }
    } else {
      var trace := DisabledExitsZeroAnywhere(c, 0);
      assert ExitedZero(trace[1], 0);
    }
  }

  // ------------------------------------------------------------------ every run ends

  function Tries(c: Config): nat {
    if c.attempts < 1 then 1 else c.attempts
  }

  function Times(x: nat, k: nat): nat {
    x * k
  }

  function Rank(c: Config, p: Phase): int {
    match p
    case Connecting => c.head + 5
    case Locking => c.head + 4
    case Upgrading(base, txn, locked) => c.head - base - |txn| + if locked then 3 else 2
    case Unlocking(_, locked) => if locked then 2 else 1
    case _ => 0
  }

  /** How many steps a replica can still take. */
  function Left(c: Config, r: Replica): int {
    if Stopped(r.phase) || r.attempt > Tries(c) then 0
    else Times(Tries(c) - r.attempt, c.head + 6) + Rank(c, r.phase)
  }

  function TotalLeft(c: Config, replicas: seq<Replica>): int {
    if replicas == [] then 0 else Left(c, replicas[0]) + TotalLeft(c, replicas[1..])
  }

  lemma TimesPred(x: nat, k: nat)
    requires x > 0
    ensures Times(x - 1, k) == Times(x, k) - k
  {
  }

  lemma FailureLeavesLess(c: Config, r: Replica)
    requires 1 <= r.attempt <= c.attempts && Rank(c, r.phase) >= 1 && !Stopped(r.phase)
    ensures 0 <= Left(c, AfterFailure(c, r)) < Left(c, r)
  {
    if r.attempt < c.attempts {
      TimesPred(Tries(c) - r.attempt, c.head + 6);
    }
  }

  lemma LaterPhaseLeavesLess(c: Config, r: Replica, p: Phase)
    requires 1 <= r.attempt <= Tries(c) && !Stopped(r.phase) && 0 <= Rank(c, p) < Rank(c, r.phase)
    ensures 0 <= Left(c, r.(phase := p)) < Left(c, r)
  {
  }

  lemma LeftNonNegative(c: Config, r: Replica)
    requires Sane(c, r)
    ensures Left(c, r) >= 0
    ensures !Stopped(r.phase) ==> 1 <= r.attempt <= Tries(c) && Rank(c, r.phase) >= 1
  {
  }

  /** A step either fails the attempt or leads to a phase of lower rank. */
  lemma MoverDrops(c: Config, s: System, t: System, i: nat)
    requires Inv(c, s) && i < |s.replicas| && Moves(c, s, t, i)
    ensures |t.replicas| == |s.replicas| && !Stopped(s.replicas[i].phase)
    ensures var r, u := s.replicas[i], t.replicas[i];
            || (u == AfterFailure(c, r) && r.attempt <= c.attempts)
            || (u == r.(phase := u.phase) && 0 <= Rank(c, u.phase) < Rank(c, r.phase))
  {
    assert ReplicaOk(c, s, i);
  }

  lemma StepLeavesLess(c: Config, s: System, t: System, i: nat)
    requires Inv(c, s) && i < |s.replicas| && Moves(c, s, t, i)
    ensures |s.replicas| == |t.replicas| && Left(c, t.replicas[i]) < Left(c, s.replicas[i])
    ensures forall j :: 0 <= j < |s.replicas| && j != i ==> t.replicas[j] == s.replicas[j]
  {
    MoverDrops(c, s, t, i);
    assert ReplicaOk(c, s, i);
    var r, u := s.replicas[i], t.replicas[i];
    LeftNonNegative(c, r);
    if u == AfterFailure(c, r) && r.attempt <= c.attempts {
      FailureLeavesLess(c, r);
    } else {
      LaterPhaseLeavesLess(c, r, u.phase);
    }
    forall j | 0 <= j < |s.replicas| && j != i ensures t.replicas[j] == s.replicas[j] {
      OthersOk(c, s, t, i, j);
    }
  }

  lemma {:induction false} TotalDrops(c: Config, a: seq<Replica>, b: seq<Replica>, i: nat)
    requires i < |a| == |b| && Left(c, b[i]) < Left(c, a[i])
    requires forall j :: 0 <= j < |a| && j != i ==> b[j] == a[j]
    ensures TotalLeft(c, b) < TotalLeft(c, a)
  {
    if i > 0 {
      TotalDrops(c, a[1..], b[1..], i - 1);
    } else {
      assert a[1..] == b[1..];
    }
  }

  lemma {:induction false} TotalNonNegative(c: Config, replicas: seq<Replica>)
    requires forall i :: 0 <= i < |replicas| ==> Sane(c, replicas[i])
    ensures TotalLeft(c, replicas) >= 0
  {
    if replicas != [] {
      TotalNonNegative(c, replicas[1..]);
      LeftNonNegative(c, replicas[0]);
    }
  }

  lemma {:induction false} StepsUsed(c: Config, trace: seq<System>, n: nat)
    requires Run(c, trace) && n < |trace|
    ensures n + TotalLeft(c, trace[n].replicas) <= TotalLeft(c, trace[0].replicas)
  {
    if n > 0 {
      StepsUsed(c, trace, n - 1);
      RunKeepsInv(c, trace, n - 1);
      var s, t := trace[n - 1], trace[n];
      var i :| 0 <= i < |s.replicas| && Moves(c, s, t, i);
      StepLeavesLess(c, s, t, i);
      TotalDrops(c, s.replicas, t.replicas, i);
    }
  }

  lemma {:induction false} InitialTotal(c: Config, replicas: seq<Replica>)
    requires forall i :: 0 <= i < |replicas| ==> replicas[i] == Replica(1, Connecting)
    ensures TotalLeft(c, replicas) <= Times(|replicas|, Times(Tries(c), c.head + 6))
  {
    if replicas != [] {
      InitialTotal(c, replicas[1..]);
      TimesPred(|replicas|, Times(Tries(c), c.head + 6));
      TimesPred(Tries(c), c.head + 6);
    }
  }

  /** Whatever fails, a run of N replicas has at most N * attempts * (head + 6) steps. */
  lemma RunsEnd(c: Config, trace: seq<System>)
    requires Run(c, trace)
    ensures |trace| - 1 <= Times(|trace[0].replicas|, Times(Tries(c), c.head + 6))
  {
    var n := |trace| - 1;
    StepsUsed(c, trace, n);
    RunKeepsInv(c, trace, n);
    forall i | 0 <= i < |trace[n].replicas| ensures Sane(c, trace[n].replicas[i]) {
      assert ReplicaOk(c, trace[n], i);
    }
    TotalNonNegative(c, trace[n].replicas);
    InitialTotal(c, trace[0].replicas);
  }

  /** No replica ever starts more tries than it was given. */
  lemma TriesBounded(c: Config, trace: seq<System>, n: nat, i: nat)
    requires Run(c, trace) && n < |trace| && i < |trace[n].replicas|
    ensures 1 <= trace[n].replicas[i].attempt
    ensures trace[n].replicas[i].attempt == 1 || trace[n].replicas[i].attempt <= c.attempts
  {
    RunKeepsInv(c, trace, n);
    assert ReplicaOk(c, trace[n], i);
  }

  /** A replica gives up only after its last try. */
  lemma GivesUpOnlyAtLast(c: Config, trace: seq<System>, n: nat, i: nat)
    requires Run(c, trace) && n < |trace| && i < |trace[n].replicas| && c.attempts >= 1
    requires trace[n].replicas[i].phase == Exited(1)
    ensures trace[n].replicas[i].attempt == c.attempts
  {
    RunKeepsInv(c, trace, n);
    assert ReplicaOk(c, trace[n], i);
  }

  /** The lock cannot deadlock: while some replica has not stopped, a step without failure is possible. */
  lemma NeverStuck(c: Config, trace: seq<System>, n: nat, i: nat) returns (j: nat, t: System)
    requires Run(c, trace) && n < |trace| && i < |trace[n].replicas| && !Stopped(trace[n].replicas[i].phase)
    ensures j < |trace[n].replicas| && Advances(c, trace[n], t, j)
  {
    var s := trace[n];
    RunKeepsInv(c, trace, n);
    j := if s.replicas[i].phase.Locking? && s.holder.Some? then s.holder.value else i;
    assert ReplicaOk(c, s, j);
    var r := s.replicas[j];
    match r.phase
    case Connecting =>
      var next := if !c.enabled then Exited(0) else if r.attempt > c.attempts then Exited(1) else Locking;
      t := At(s, j, r.(phase := next));
    case Locking =>
      t := At(s.(holder := Some(j)), j, r.(phase := Upgrading(|s.applied|, [], true)));
    case Upgrading(base, txn, locked) =>
      t := if base + |txn| < c.head then At(s, j, r.(phase := Upgrading(base, txn + [base + |txn|], locked)))
           else Committed(s, j);
    case Unlocking(_, _) =>
      t := Unlocked(c, s, j);
    case _ => t := s;
  }

  // ------------------------------------------------------------------ starts without failure

  ghost predicate Smooth(s: System, i: nat)
    requires i < |s.replicas|
  {
    var r := s.replicas[i];
    && r.attempt == 1 && !r.phase.Killed?
    && (r.phase.Exited? ==> r.phase.code == 0)
    && (Working(r.phase) ==> r.phase.locked && s.holder == Some(i))
    && (r.phase.Upgrading? ==> r.phase.base == |s.applied|)
    && (r.phase.Unlocking? ==> r.phase.ok)
  }

  ghost predicate AllSmooth(s: System) {
    forall i :: 0 <= i < |s.replicas| ==> Smooth(s, i)
  }

  ghost predicate SmoothStep(c: Config, s: System, t: System) {
    exists i :: 0 <= i < |s.replicas| && Advances(c, s, t, i)
  }

  lemma SmoothStepKeeps(c: Config, s: System, t: System)
    requires c.enabled && c.attempts >= 1 && AllSmooth(s) && SmoothStep(c, s, t)
    ensures AllSmooth(t)
  {
    var i :| 0 <= i < |s.replicas| && Advances(c, s, t, i);
    assert Smooth(s, i);
    forall j | 0 <= j < |t.replicas| ensures Smooth(t, j) {
      assert Smooth(s, j);
    }
  }

  lemma {:induction false} NoFailureNoRetry(c: Config, trace: seq<System>, n: nat)
    requires Run(c, trace) && n < |trace| && c.enabled && c.attempts >= 1
    requires forall m :: 0 <= m < n ==> SmoothStep(c, trace[m], trace[m + 1])
    ensures AllSmooth(trace[n])
  {
    if n > 0 {
      NoFailureNoRetry(c, trace, n - 1);
      SmoothStepKeeps(c, trace[n - 1], trace[n]);
    }
  }

  /** If nothing fails and every replica has stopped, all of them exited with 0 and the
      database is at head. */
  lemma SmoothStartSucceeds(c: Config, trace: seq<System>)
    requires Run(c, trace) && c.enabled && c.attempts >= 1 && trace[0].replicas != []
    requires forall m :: 0 <= m < |trace| - 1 ==> SmoothStep(c, trace[m], trace[m + 1])
    requires var last := trace[|trace| - 1];
             forall i :: 0 <= i < |last.replicas| ==> Stopped(last.replicas[i].phase)
    ensures var last := trace[|trace| - 1];
            && |last.applied| == c.head
            && forall i :: 0 <= i < |last.replicas| ==> last.replicas[i].phase == Exited(0)
  {
    var n := |trace| - 1;
    NoFailureNoRetry(c, trace, n);
    SameReplicas(c, trace, n);
    forall i | 0 <= i < |trace[n].replicas| ensures trace[n].replicas[i].phase == Exited(0) {
      assert Smooth(trace[n], i);
    }
    ExitCodeTellsHead(c, trace, n, n, 0);
  }

  lemma {:induction false} SameReplicas(c: Config, trace: seq<System>, n: nat)
    requires Run(c, trace) && n < |trace|
    ensures |trace[n].replicas| == |trace[0].replicas|
  {
    if n > 0 {
      SameReplicas(c, trace, n - 1);
      assert Step(c, trace[n - 1], trace[n]);
    }
  }

  // ------------------------------------------------------------------ one replica

  /** How one try goes. */
  datatype Outcome = NoConnection | NoLock | MigrationFails | CommitAnswerLost | UnlockFails | Success

  predicate ReachesHead(o: Outcome) {
    o == CommitAnswerLost || o == UnlockFails || o == Success
  }

  // ------------------------------------------------------------------ one replica among the steps

  /** trace is a run that ends in s. */
  ghost predicate Ends(c: Config, trace: seq<System>, s: System) {
    Run(c, trace) && trace[|trace| - 1] == s
  }

  lemma Extend(c: Config, trace: seq<System>, s: System, t: System) returns (longer: seq<System>)
    requires Ends(c, trace, s) && |s.replicas| == 1 && Moves(c, s, t, 0)
    ensures Ends(c, longer, t)
  {
    longer := RunOn(c, trace, t);
  }

  /** A database with one replica. */
  function Single(applied: seq<nat>, held: bool, r: Replica): System {
    System(applied, if held then Some(0) else None, [r])
  }

  /** A try that gets the lock. */
  lemma TryLocks(c: Config, trace: seq<System>, applied: seq<nat>, k: int) returns (longer: seq<System>)
    requires Ends(c, trace, Single(applied, false, Replica(k, Connecting))) && c.enabled && k <= c.attempts
    ensures Ends(c, longer, Single(applied, true, Replica(k, Upgrading(|applied|, [], true))))
  {
    var s := Single(applied, false, Replica(k, Connecting));
    var u := Single(applied, false, Replica(k, Locking));
    var t := Single(applied, true, Replica(k, Upgrading(|applied|, [], true)));
    assert Advances(c, s, u, 0);
    longer := Extend(c, trace, s, u);
    assert Advances(c, u, t, 0);
    longer := Extend(c, longer, u, t);
  }

  /** The pending migrations run, one step each. */
  lemma {:induction false} TryMigrates(c: Config, trace: seq<System>, applied: seq<nat>, k: int, txn: seq<nat>)
    returns (longer: seq<System>, all: seq<nat>)
    requires Ends(c, trace, Single(applied, true, Replica(k, Upgrading(|applied|, txn, true))))
    requires |applied| + |txn| <= c.head
    ensures Ends(c, longer, Single(applied, true, Replica(k, Upgrading(|applied|, all, true))))
    ensures |applied| + |all| == c.head
    decreases c.head - |txn|
  {
    longer, all := trace, txn;
    if |applied| + |txn| < c.head {
      var s := Single(applied, true, Replica(k, Upgrading(|applied|, txn, true)));
      var next := txn + [|applied| + |txn|];
      var t := Single(applied, true, Replica(k, Upgrading(|applied|, next, true)));
      assert Advances(c, s, t, 0);
      longer := Extend(c, trace, s, t);
      longer, all := TryMigrates(c, longer, applied, k, next);
    }
  }

  /** Where a replica stands after try k ended so: out with 0, on to the next try, or out with 1. */
  function AfterTry(c: Config, k: int, o: Outcome): Replica {
    if o == Success then Replica(k, Exited(0))
    else if k < c.attempts then Replica(k + 1, Connecting)
    else Replica(k, Exited(1))
  }

  function AppliedAfter(c: Config, applied: seq<nat>, o: Outcome): seq<nat> {
    if ReachesHead(o) then FirstN(c.head) else applied
  }

  /** The end of a try that has run all migrations. */
  lemma TryEnds(c: Config, trace: seq<System>, applied: seq<nat>, k: int, all: seq<nat>, o: Outcome)
    returns (longer: seq<System>)
    requires Ends(c, trace, Single(applied, true, Replica(k, Upgrading(|applied|, all, true))))
    requires 1 <= k <= c.attempts && |applied| + |all| == c.head && applied + all == FirstN(c.head) && ReachesHead(o)
    ensures Ends(c, longer, Single(FirstN(c.head), false, AfterTry(c, k, o)))
  {
    var s := Single(applied, true, Replica(k, Upgrading(|applied|, all, true)));
    var ok := o != CommitAnswerLost;
    var u := Single(FirstN(c.head), true, Replica(k, Unlocking(ok, true)));
    assert ok ==> Advances(c, s, u, 0);
    assert !ok ==> Fails(c, s, u, 0);
    longer := Extend(c, trace, s, u);
    var t := Single(FirstN(c.head), false, AfterTry(c, k, o));
    assert o == Success ==> Advances(c, u, t, 0);
    assert o != Success ==> Fails(c, u, t, 0);
    longer := Extend(c, longer, u, t);
  }

  lemma TryFailsEarly(c: Config, trace: seq<System>, applied: seq<nat>, k: int, o: Outcome)
    returns (longer: seq<System>)
    requires Ends(c, trace, Single(applied, false, Replica(k, Connecting))) && c.enabled && 1 <= k <= c.attempts
    requires o == NoConnection || o == NoLock
    ensures Ends(c, longer, Single(applied, false, AfterTry(c, k, o)))
  {
    var s := Single(applied, false, Replica(k, Connecting));
    var t := Single(applied, false, AfterTry(c, k, o));
    longer := trace;
    if o == NoLock {
      var u := Single(applied, false, Replica(k, Locking));
      assert Advances(c, s, u, 0);
      longer := Extend(c, longer, s, u);
      s := u;
    }
    assert Fails(c, s, t, 0);
    longer := Extend(c, longer, s, t);
  }

  lemma TryFailsMigrating(c: Config, trace: seq<System>, applied: seq<nat>, k: int) returns (longer: seq<System>)
    requires Ends(c, trace, Single(applied, true, Replica(k, Upgrading(|applied|, [], true)))) && 1 <= k <= c.attempts
    ensures Ends(c, longer, Single(applied, false, AfterTry(c, k, MigrationFails)))
  {
    var s := Single(applied, true, Replica(k, Upgrading(|applied|, [], true)));
    var u := Single(applied, true, Replica(k, Unlocking(false, true)));
    assert Fails(c, s, u, 0);
    longer := Extend(c, trace, s, u);
    var t := Single(applied, false, AfterTry(c, k, MigrationFails));
    assert Advances(c, u, t, 0);
    longer := Extend(c, longer, u, t);
  }

  lemma {:induction false} MigratesInOrder(c: Config, trace: seq<System>, s: System)
    requires Ends(c, trace, s) && |s.replicas| == 1 && s.replicas[0].phase.Upgrading?
    requires s.replicas[0].phase.base == |s.applied| && |s.applied| + |s.replicas[0].phase.txn| == c.head
    ensures s.applied + s.replicas[0].phase.txn == FirstN(c.head)
  {
    RunKeepsInv(c, trace, |trace| - 1);
    assert ReplicaOk(c, s, 0);
    CommitOrdered(c, s, s.replicas[0].phase.txn);
  }

  /** One try, ending as given. */
  lemma OneTry(c: Config, trace: seq<System>, applied: seq<nat>, k: int, o: Outcome) returns (longer: seq<System>)
    requires Ends(c, trace, Single(applied, false, Replica(k, Connecting))) && c.enabled && 1 <= k <= c.attempts
    requires |applied| <= c.head
    ensures Ends(c, longer, Single(AppliedAfter(c, applied, o), false, AfterTry(c, k, o)))
  {
    if o == NoConnection || o == NoLock {
      longer := TryFailsEarly(c, trace, applied, k, o);
    } else {
      longer := TryLocks(c, trace, applied, k);
      if o == MigrationFails {
        longer := TryFailsMigrating(c, longer, applied, k);
      } else {
        var all;
        longer, all := TryMigrates(c, longer, applied, k, []);
        MigratesInOrder(c, longer, Single(applied, true, Replica(k, Upgrading(|applied|, all, true))));
        longer := TryEnds(c, longer, applied, k, all, o);
      }
    }
  }

  /** The code a replica exits with when its tries from k on end as given: 0 at the first success. */
  function CodeFrom(c: Config, outcomes: seq<Outcome>, k: int): int
    requires 1 <= k && c.attempts <= |outcomes|
    decreases c.attempts - k
  {
    if k > c.attempts then 1 else if outcomes[k - 1] == Success then 0 else CodeFrom(c, outcomes, k + 1)
  }

  lemma {:induction false} TriesFrom(c: Config, trace: seq<System>, applied: seq<nat>, k: int, outcomes: seq<Outcome>)
    returns (longer: seq<System>, s: System)
    requires Ends(c, trace, Single(applied, false, Replica(k, Connecting))) && c.enabled && 1 <= k <= c.attempts
    requires |applied| <= c.head && c.attempts <= |outcomes|
    ensures Ends(c, longer, s) && |s.replicas| == 1 && s.replicas[0].phase == Exited(CodeFrom(c, outcomes, k))
    ensures k <= s.replicas[0].attempt <= c.attempts
    ensures forall i :: k - 1 <= i < s.replicas[0].attempt - 1 ==> outcomes[i] != Success
    ensures outcomes[s.replicas[0].attempt - 1] == Success || s.replicas[0].attempt == c.attempts
    decreases c.attempts - k
  {
    var o := outcomes[k - 1];
    longer := OneTry(c, trace, applied, k, o);
    s := Single(AppliedAfter(c, applied, o), false, AfterTry(c, k, o));
    if o != Success && k < c.attempts {
      longer, s := TriesFrom(c, longer, AppliedAfter(c, applied, o), k + 1, outcomes);
    }
  }

  lemma {:induction false} CodeIs(c: Config, outcomes: seq<Outcome>, k: int)
    requires 1 <= k && c.attempts <= |outcomes|
    ensures CodeFrom(c, outcomes, k) == 0 <==> exists i :: k - 1 <= i < c.attempts && outcomes[i] == Success
    ensures CodeFrom(c, outcomes, k) == 0 || CodeFrom(c, outcomes, k) == 1
    decreases c.attempts - k
  {
    if k <= c.attempts && outcomes[k - 1] != Success {
      CodeIs(c, outcomes, k + 1);
    }
  }

  /** The steps of one replica do what its loop does: whatever the outcomes of its tries are, some run of the
      system goes through just these tries and ends with the code Database.Run returns for them. So every
      failed try but the last is followed by another one. */
  lemma OneReplicaRuns(c: Config, at: nat, outcomes: seq<Outcome>) returns (trace: seq<System>, s: System)
    requires c.enabled && 1 <= c.attempts <= |outcomes| && at <= c.head
    ensures Ends(c, trace, s) && |s.replicas| == 1 && s.replicas[0].phase.Exited?
    ensures s.replicas[0].phase.code == 0 <==> exists k :: 0 <= k < c.attempts && outcomes[k] == Success
    ensures s.replicas[0].phase.code == 0 || s.replicas[0].phase.code == 1
    ensures var last := s.replicas[0].attempt;
            && 1 <= last <= c.attempts && (outcomes[last - 1] == Success || last == c.attempts)
            && forall i :: 0 <= i < last - 1 ==> outcomes[i] != Success
  {
    var start := Single(FirstN(at), false, Replica(1, Connecting));
    trace := [start];
    assert Ends(c, trace, start);
    trace, s := TriesFrom(c, trace, FirstN(at), 1, outcomes);
    CodeIs(c, outcomes, 1);
  }

  lemma FirstNNext(a: seq<nat>, b: seq<nat>)
    requires a + b == FirstN(|a| + |b|)
    ensures a + (b + [|a| + |b|]) == FirstN(|a| + |b| + 1)
  {
    assert a + (b + [|a| + |b|]) == (a + b) + [|a| + |b|];
  }

  class Database {
    var applied: seq<nat>

    constructor (n: nat)
      ensures applied == FirstN(n)
    {
      applied := FirstN(n);
    }

    /** alembic upgrade head, in one transaction; false is an exception. */
    method Upgrade(head: nat, o: Outcome) returns (ok: bool)
      requires |applied| <= head && applied == FirstN(|applied|)
      modifies this
      ensures applied == if ReachesHead(o) then FirstN(head) else old(applied)
      ensures ok <==> o == UnlockFails || o == Success
    {
      var txn: seq<nat> := [];
      while |applied| + |txn| < head
        invariant |applied| + |txn| <= head
        invariant applied + txn == FirstN(|applied| + |txn|)
        invariant applied == old(applied)
      {
        FirstNNext(applied, txn);
        txn := txn + [|applied| + |txn|];
      }
      if ReachesHead(o) {
        applied := applied + txn;
      }
      ok := o == UnlockFails || o == Success;
    }

    /** migrate.run for one replica, with the given outcome of each try. */
    method Run(c: Config, outcomes: seq<Outcome>) returns (code: int)
      requires |applied| <= c.head && applied == FirstN(|applied|) && c.attempts <= |outcomes|
      modifies this
      ensures code == 0 <==> !c.enabled || exists k :: 0 <= k < c.attempts && outcomes[k] == Success
      ensures code != 0 ==> code == 1
      ensures code == 0 && c.enabled ==> applied == FirstN(c.head)
      ensures applied == old(applied) || applied == FirstN(c.head)
      ensures !c.enabled || (forall k :: 0 <= k < c.attempts ==> !ReachesHead(outcomes[k])) ==> applied == old(applied)
    {
      if !c.enabled {
        return 0;
      }
      var attempt := 1;
      while attempt <= c.attempts
        invariant 1 <= attempt
        invariant forall k :: 0 <= k < attempt - 1 && k < c.attempts ==> outcomes[k] != Success
        invariant |applied| <= c.head && applied == FirstN(|applied|)
        invariant applied == old(applied) || applied == FirstN(c.head)
        invariant (forall k :: 0 <= k < attempt - 1 && k < c.attempts ==> !ReachesHead(outcomes[k])) ==>
                    applied == old(applied)
      {
        var o := outcomes[attempt - 1];
        if o != NoConnection && o != NoLock {
          var ok := Upgrade(c.head, o);
          if ok && o != UnlockFails {
            return 0;
          }
        }
        if attempt == c.attempts {
          return 1;
        }
        attempt := attempt + 1;
      }
      return 1;
    }
  }
}
