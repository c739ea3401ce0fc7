/** Left alone, the supervisor brings every module to the state its switches ask
    for. Kernels here are calm: nothing refuses signals, forks succeed, and the
    processes of modules that should run stay up. */
module Convergence {
  import opened Model
  import opened Kernel
  import opened Service
  import opened Invariants
  import opened Removal
  import opened Tracking
  import opened Restart
  import opened Stopping

  predicate Up(m: Module, os: map<int, Proc>) {
    m.pid > 0 && m.pid in os && os[m.pid].phase.Alive?
  }

  predicate Dead(m: Module, os: map<int, Proc>) {
    m.pid <= 0 || m.pid !in os || os[m.pid].phase.Gone?
  }

  ghost predicate NoEperm(os: map<int, Proc>) {
    forall p :: p in os ==> !os[p].eperm
  }

  /** fork succeeds for every slot, with a new PID of its own. */
  ghost predicate GoodForks(os: map<int, Proc>, fork: nat -> ForkOutcome) {
    && (forall x: nat :: fork(x).Fork? && fork(x).pid > 0 && fork(x).pid !in os && !fork(x).eperm)
    && (forall x: nat, y: nat :: x != y ==> fork(x).pid != fork(y).pid)
  }

  /** The process p does not exit by itself during the period. */
  ghost predicate StaysUp(e: nat -> Env, p: int) {
    forall k: nat, x: nat :: p !in e(k).dying(x)
  }

  ghost predicate Calm(st: State, e: nat -> Env)
    requires Sized(st)
  {
    && NoEperm(st.os)
    && GoodForks(st.os, e(1).fork)
    && (forall i :: 0 <= i < st.loaded && Wanted(st.profiles, st.slots[i]) ==> StaysUp(e, st.slots[i].pid))
    && (forall x: nat :: StaysUp(e, e(1).fork(x).pid))
  }

  // ----- Processes that stay up -----

  lemma {:induction false} PassUp(op: Op, st: State, x: nat, e: Env, p: int)
    requires Sized(st) && p in st.os && st.os[p].phase.Alive? && (forall y: nat :: p !in e.dying(y))
    requires op == Kill ==> forall j :: x <= j < st.loaded && st.slots[j].pid == p ==> !Unwanted(st.profiles, st.slots[j])
    ensures p in Pass(op, st, x, e).os && Pass(op, st, x, e).os[p].phase.Alive?
    decreases st.loaded - x
  {
    if x < st.loaded {
      var r := Slot(op, st, x, e);
      SlotUp(op, st, x, e, p);
      if op == Kill {
        SlotOthers(op, st, x, e);
      }
      PassUp(op, r, x + 1, e, p);
    }
  }

  lemma SlotUp(op: Op, st: State, x: nat, e: Env, p: int)
    requires x < st.loaded <= |st.slots| && p in st.os && st.os[p].phase.Alive? && p !in e.dying(x)
    requires op == Kill && st.slots[x].pid == p ==> !Unwanted(st.profiles, st.slots[x])
    ensures var r := Slot(op, st, x, e);
            p in r.os && r.os[p].phase.Alive?
  {}

  /** No step makes a process refuse signals. */
  lemma {:induction false} PassNoEperm(op: Op, st: State, x: nat, e: Env)
    requires Sized(st) && NoEperm(st.os) && (op == Update ==> forall y: nat :: e.fork(y).Fork? ==> !e.fork(y).eperm)
    ensures NoEperm(Pass(op, st, x, e).os)
    decreases st.loaded - x
  {
    if x < st.loaded {
      SlotNoEperm(op, st, x, e);
      PassNoEperm(op, Slot(op, st, x, e), x + 1, e);
    }
  }

  lemma SlotNoEperm(op: Op, st: State, x: nat, e: Env)
    requires x < st.loaded <= |st.slots| && NoEperm(st.os)
    requires op == Update ==> e.fork(x).Fork? ==> !e.fork(x).eperm
    ensures NoEperm(Slot(op, st, x, e).os)
  {}

  // ----- One slot through one loop -----

  /** Outside check, update and removal a slot keeps its PID and status. */
  lemma PassPid(op: Op, st: State, e: Env, i: nat)
    requires Sized(st) && i < st.loaded && op != Check && op != Update && op != Serve
    ensures Pass(op, st, 0, e).slots[i].pid == st.slots[i].pid
    ensures Pass(op, st, 0, e).slots[i].status == st.slots[i].status
  {
    var mid := PassAt(op, st, e, i);
    SlotPid(op, mid, i, e);
  }

  lemma SlotPid(op: Op, st: State, x: nat, e: Env)
    requires x < st.loaded <= |st.slots| && op != Check && op != Update && op != Serve
    ensures Slot(op, st, x, e).slots[x].pid == st.slots[x].pid && Slot(op, st, x, e).slots[x].status == st.slots[x].status
  {
    match op
    case Sigint =>
    case Kill =>
    case Reap =>
    case Connect =>
    case Send =>
    case Recv =>
  }

  /** A module that should run and does. */
  predicate Serving(profiles: seq<Profile>, m: Module, os: map<int, Proc>) {
    Wanted(profiles, m) && Up(m, os)
  }

  lemma CheckUp(st: State, e: Env, i: nat)
    requires Sized(st) && i < st.loaded && NoEperm(st.os) && Up(st.slots[i], st.os)
    requires forall y: nat :: st.slots[i].pid !in e.dying(y)
    ensures var n := Pass(Check, st, 0, e).slots[i];
            n.pid == st.slots[i].pid && n.status && Up(n, Pass(Check, st, 0, e).os)
  {
    var p := st.slots[i].pid;
    var mid := PassAt(Check, st, e, i);
    ReachingUp(Check, st, 0, e, i, p);
    PassUp(Check, st, 0, e, p);
    assert mid.os[p].phase.Alive? && !mid.os[p].eperm;
  }

  lemma {:induction false} ReachingUp(op: Op, st: State, x: nat, e: Env, i: nat, p: int)
    requires Sized(st) && op != Serve && op != Kill && x <= i < st.loaded
    requires p in st.os && st.os[p].phase.Alive? && (forall y: nat :: p !in e.dying(y))
    ensures p in Reaching(op, st, x, e, i).os && Reaching(op, st, x, e, i).os[p].phase.Alive?
    decreases i - x
  {
    if x < i {
      SlotUp(op, st, x, e, p);
      ReachingUp(op, Slot(op, st, x, e), x + 1, e, i, p);
    }
  }

  /** Serving modules go on serving through every loop that does not remove. */
  lemma ServingPass(op: Op, st: State, e: Env, i: nat)
    requires Inv(st) && Settled(st) && i < st.loaded && op != Serve && NoEperm(st.os)
    requires Serving(st.profiles, st.slots[i], st.os) && forall y: nat :: st.slots[i].pid !in e.dying(y)
    ensures var r := Pass(op, st, 0, e);
            Serving(r.profiles, r.slots[i], r.os) && r.slots[i].pid == st.slots[i].pid
  {
    var p := st.slots[i].pid;
    assert SettledSlot(st.slots[i], st.os);
    assert op == Kill ==> forall j :: 0 <= j < st.loaded && st.slots[j].pid == p ==> !Unwanted(st.profiles, st.slots[j]);
    PassUp(op, st, 0, e, p);
    if op == Update {
      var mid := PassAt(op, st, e, i);
      assert Decide(mid.profiles, mid.defaultLimit, Tick(mid.slots[i])).Leave?;
    } else {
      PassSwitches(op, st, e, i);
      if op == Check {
        CheckUp(st, e, i);
      } else {
        PassPid(op, st, e, i);
      }
    }
  }

  lemma {:induction false} ServingChain(s: State, k: nat, n: nat, e: nat -> Env, i: nat)
    requires Between(k, s) && 1 <= k <= n <= LOOPS && (n <= 7 || k >= 8) && i < s.loaded
    requires NoEperm(s.os) && (forall y: nat :: e(1).fork(y).Fork? ==> !e(1).fork(y).eperm)
    requires Serving(s.profiles, s.slots[i], s.os) && StaysUp(e, s.slots[i].pid)
    ensures var r := Chain(s, k, n, e);
            Serving(r.profiles, r.slots[i], r.os) && r.slots[i].pid == s.slots[i].pid
    decreases n - k
  {
    if k < n {
      BetweenStep(k, s, e(k));
      PassNoEperm(Loop(k), s, 0, e(k));
      ServingPass(Loop(k), s, e(k), i);
      ServingChain(Pass(Loop(k), s, 0, e(k)), k + 1, n, e, i);
    }
  }

  // ----- Modules that are down -----

  /** Only the update loop creates processes. */
  lemma {:induction false} PassNoNew(op: Op, st: State, x: nat, e: Env, p: int)
    requires Sized(st) && op != Update && p !in st.os
    ensures p !in Pass(op, st, x, e).os
    decreases st.loaded - x
  {
    if x < st.loaded {
      SlotNoNew(op, st, x, e, p);
      PassNoNew(op, Slot(op, st, x, e), x + 1, e, p);
    }
  }

  lemma SlotNoNew(op: Op, st: State, x: nat, e: Env, p: int)
    requires x < st.loaded <= |st.slots| && p !in st.os && (op == Update ==> e.fork(x).Fork? ==> e.fork(x).pid != p)
    ensures p !in Slot(op, st, x, e).os
  {}

  lemma {:induction false} ReachingNoNew(op: Op, st: State, x: nat, e: Env, i: nat, p: int)
    requires Sized(st) && op != Serve && x <= i < st.loaded && p !in st.os
    requires op == Update ==> forall y: nat :: x <= y < i ==> e.fork(y).Fork? ==> e.fork(y).pid != p
    ensures p !in Reaching(op, st, x, e, i).os
    decreases i - x
  {
    if x < i {
      SlotNoNew(op, st, x, e, p);
      ReachingNoNew(op, Slot(op, st, x, e), x + 1, e, i, p);
    }
  }

  /** The status check on a module whose process is not alive. */
  lemma CheckDown(st: State, e: Env, i: nat)
    requires Inv(st) && i < st.loaded && !Up(st.slots[i], st.os)
    ensures var r := Pass(Check, st, 0, e);
            var n := r.slots[i];
            !Up(n, r.os) && (Dead(st.slots[i], st.os) ==> n.pid <= 0)
  {
    var m := st.slots[i];
    var mid := PassAt(Check, st, e, i);
    if m.pid > 0 && m.pid !in st.os {
      ReachingNoNew(Check, st, 0, e, i, m.pid);
    }
  }

  /** The update loop starts a module that is down and wanted, or disables it at its limit. */
  lemma UpdateDown(st: State, e: Env, i: nat)
    requires Inv(st) && Settled(st) && i < st.loaded && st.slots[i].pid <= 0 && GoodForks(st.os, e.fork)
    requires forall x: nat, y: nat :: e.fork(x).pid !in e.dying(y)
    ensures var r := Pass(Update, st, 0, e);
            var n := r.slots[i];
            if Decide(st.profiles, st.defaultLimit, Tick(st.slots[i])).Start?
            then Serving(r.profiles, n, r.os) && n.pid == e.fork(i).pid
            else n.pid <= 0 && !Wanted(r.profiles, n)
  {
    var mid := PassAt(Update, st, e, i);
    var p := e.fork(i).pid;
    var s := mid.(os := Exit(mid.os, e.dying(i)));
    assert SettledSlot(st.slots[i], st.os);
    if Decide(st.profiles, st.defaultLimit, Tick(st.slots[i])).Start? {
      assert Forks(s.os, e.fork(i)) by {
        ReachingNoNew(Update, st, 0, e, i, p);
      }
      StartedUp(s, i, e.fork(i));
      ReachingSame(Update, st, 0, e, i);
      PassUp(Update, Slot(Update, mid, i, e), i + 1, e, p);
    } else {
      NotStarted(s, i, e.fork(i));
    }
  }

  lemma StartedUp(s: State, x: nat, f: ForkOutcome)
    requires x < |s.slots| && Forks(s.os, f) && Decide(s.profiles, s.defaultLimit, Tick(s.slots[x])).Start?
    ensures var r := UpdateSlot(s, x, f);
            Serving(s.profiles, r.slots[x], r.os) && r.slots[x].pid == f.pid
  {}

  lemma NotStarted(s: State, x: nat, f: ForkOutcome)
    requires x < |s.slots| && !Decide(s.profiles, s.defaultLimit, Tick(s.slots[x])).Start? && !s.slots[x].status
    ensures var n := UpdateSlot(s, x, f).slots[x];
            n.pid == s.slots[x].pid && !Wanted(s.profiles, n)
  {}

  /** A reap takes away a process that is no longer alive. */
  lemma ReapDown(st: State, e: Env, i: nat)
    requires Inv(st) && Settled(st) && i < st.loaded && !Up(st.slots[i], st.os)
    ensures Dead(Pass(Reap, st, 0, e).slots[i], Pass(Reap, st, 0, e).os)
  {
    var m := st.slots[i];
    assert SettledSlot(m, st.os);
    var mid := PassAt(Reap, st, e, i);
    ReachingKeeps(Reap, st, 0, e, i);
    var s := ExitKeeps(mid, e.dying(i));
    assert OwnsPid(m, s.os);
  }

  lemma DeadPass(op: Op, st: State, e: Env, i: nat)
    requires Inv(st) && Settled(st) && i < st.loaded && op != Update && op != Serve && Dead(st.slots[i], st.os)
    ensures var r := Pass(op, st, 0, e);
            Dead(r.slots[i], r.os) && (op == Check || st.slots[i].pid <= 0 ==> r.slots[i].pid <= 0)
  {
    assert SettledSlot(st.slots[i], st.os);
    PassLater(op, st, 0, e);
    if op == Check {
      CheckDown(st, e, i);
    } else {
      PassPid(op, st, e, i);
    }
  }

  lemma {:induction false} DeadChain(s: State, k: nat, n: nat, e: nat -> Env, i: nat)
    requires Between(k, s) && 2 <= k <= n <= LOOPS && (n <= 7 || k >= 8) && i < s.loaded && Dead(s.slots[i], s.os)
    ensures var r := Chain(s, k, n, e);
            Dead(r.slots[i], r.os) && (s.slots[i].pid <= 0 || (k == 8 && n > 8) ==> r.slots[i].pid <= 0)
    decreases n - k
  {
    if k < n {
      BetweenStep(k, s, e(k));
      DeadPass(Loop(k), s, e(k), i);
      DeadChain(Pass(Loop(k), s, 0, e(k)), k + 1, n, e, i);
    }
  }

  // ----- One period -----

  /** The states after the first check, after the update, before and after the removal pass, and at the end. */
  ghost predicate Landmarks(st: State, e: nat -> Env, s1: State, s2: State, s7: State, s8: State, r: State) {
    && Sized(st) && s1 == Pass(Check, st, 0, e(0)) && s2 == Pass(Update, s1, 0, e(1)) && s7 == Chain(s2, 2, 7, e)
    && s8 == Pass(Serve, s7, 0, e(7)) && r == Chain(s8, 8, LOOPS, e)
    && Between(1, s1) && Between(2, s2) && Between(7, s7) && Between(8, s8)
  }

  lemma FindLandmarks(st: State, e: nat -> Env) returns (s1: State, s2: State, s7: State, s8: State, r: State)
    requires Inv(st) && Unreaped(st)
    ensures Landmarks(st, e, s1, s2, s7, s8, r) && r == Period(st, e)
    ensures s7 == Stage(st, 7, e) && s8 == Stage(st, 8, e) && s2 == Stage(st, 2, e) && s1 == Stage(st, 1, e)
  {
    s1, s2, s7, s8, r := Stage(st, 1, e), Stage(st, 2, e), Stage(st, 7, e), Stage(st, 8, e), Period(st, e);
    assert s1 == Pass(Check, st, 0, e(0)) && s2 == Pass(Update, s1, 0, e(1)) by { Unrolled(st, e); }
    assert s7 == Chain(s2, 2, 7, e) by { StageChain(st, 2, 7, e); }
    assert s8 == Pass(Serve, s7, 0, e(7)) by { StageStep(st, 7, e); }
    assert r == Chain(s8, 8, LOOPS, e) by { StageChain(st, 8, LOOPS, e); }
    StageBetween(st, 1, e);
    StageBetween(st, 2, e);
    StageBetween(st, 7, e);
    StageBetween(st, 8, e);
  }

  lemma StageBetween(st: State, k: nat, e: nat -> Env)
    requires Inv(st) && Unreaped(st) && k <= LOOPS
    ensures Between(k, Stage(st, k, e))
  {
    StageKeeps(st, k, e);
  }

  /** Before the removal pass a module serves, or its process is gone. */
  ghost predicate ServesOrDead(profiles: seq<Profile>, m: Module, os: map<int, Proc>, e: nat -> Env) {
    (Serving(profiles, m, os) && StaysUp(e, m.pid)) || Dead(m, os)
  }

  /** Modules that were down: served if wanted, else still down. */
  lemma DownBefore(st: State, e: nat -> Env, i: nat, s1: State, s2: State, s7: State, s8: State, r: State)
    requires Inv(st) && Calm(st, e) && Landmarks(st, e, s1, s2, s7, s8, r) && i < st.loaded
    requires Dead(st.slots[i], st.os)
    ensures (Serving(st.profiles, s7.slots[i], s7.os) && StaysUp(e, s7.slots[i].pid))
            || (s7.slots[i].pid <= 0 && !Wanted(st.profiles, s7.slots[i]))
  {
    CheckDown(st, e(0), i);
    NewPids(st, e);
    UpdateDown(s1, e(1), i);
    if Serving(st.profiles, s2.slots[i], s2.os) {
      UpdateNoEperm(st, e, s1, s2);
      assert StaysUp(e, s2.slots[i].pid);
      ServingChain(s2, 2, 7, e, i);
    } else {
      DeadChain(s2, 2, 7, e, i);
      ChainSwitches(s2, 2, 7, e, i);
    }
  }

  /** A wanted module with a fresh counter is started: the counter cannot be at the limit. */
  lemma StartBefore(st: State, e: nat -> Env, i: nat, s1: State, s2: State, s7: State, s8: State, r: State)
    requires Inv(st) && Calm(st, e) && Landmarks(st, e, s1, s2, s7, s8, r) && i < st.loaded
    requires Wanted(st.profiles, st.slots[i]) && st.slots[i].pid <= 0 && st.slots[i].restartCnt == -1
    ensures Serving(s7.profiles, s7.slots[i], s7.os)
  {
    assert s1.slots[i].pid <= 0 && Wanted(s1.profiles, s1.slots[i]) && s1.slots[i].restartCnt == -1 by {
      CheckDown(st, e(0), i);
      PassSwitches(Check, st, e(0), i);
    }
    assert Serving(s2.profiles, s2.slots[i], s2.os) && StaysUp(e, s2.slots[i].pid) by { StartNext(st, e, i, s1); }
    UpdateNoEperm(st, e, s1, s2);
    ServingChain(s2, 2, 7, e, i);
  }

  lemma StartNext(st: State, e: nat -> Env, i: nat, s1: State)
    requires Sized(st) && Calm(st, e) && s1 == Pass(Check, st, 0, e(0)) && Between(1, s1) && i < s1.loaded
    requires Wanted(s1.profiles, s1.slots[i]) && s1.slots[i].pid <= 0 && s1.slots[i].restartCnt == -1
    ensures var s2 := Pass(Update, s1, 0, e(1));
            Serving(s2.profiles, s2.slots[i], s2.os) && StaysUp(e, s2.slots[i].pid)
  {
    NewPids(st, e);
    assert SettledSlot(s1.slots[i], s1.os) && SlotOk(s1.slots[i], |s1.profiles|);
    UpdateDown(s1, e(1), i);
  }

  lemma NewPids(st: State, e: nat -> Env)
    requires Sized(st) && Calm(st, e)
    ensures GoodForks(Pass(Check, st, 0, e(0)).os, e(1).fork)
    ensures forall x: nat, y: nat :: e(1).fork(x).pid !in e(1).dying(y)
  {
    forall x: nat ensures e(1).fork(x).pid !in Pass(Check, st, 0, e(0)).os {
      PassNoNew(Check, st, 0, e(0), e(1).fork(x).pid);
    }
    forall x: nat, y: nat ensures e(1).fork(x).pid !in e(1).dying(y) {
      assert StaysUp(e, e(1).fork(x).pid);
    }
  }

  lemma UpdateNoEperm(st: State, e: nat -> Env, s1: State, s2: State)
    requires Sized(st) && Calm(st, e) && s1 == Pass(Check, st, 0, e(0)) && s2 == Pass(Update, s1, 0, e(1))
    ensures NoEperm(s1.os) && NoEperm(s2.os)
  {
    PassNoEperm(Check, st, 0, e(0));
    PassNoEperm(Update, s1, 0, e(1));
  }

  lemma {:induction false} ChainNoEperm(s: State, k: nat, n: nat, e: nat -> Env)
    requires Sized(s) && NoEperm(s.os) && 2 <= k <= n <= LOOPS
    ensures NoEperm(Chain(s, k, n, e).os)
    decreases n - k
  {
    if k < n {
      PassNoEperm(Loop(k), s, 0, e(k));
      ChainNoEperm(Pass(Loop(k), s, 0, e(k)), k + 1, n, e);
    }
  }

  lemma Before(st: State, e: nat -> Env, i: nat, s1: State, s2: State, s7: State, s8: State, r: State)
    requires Inv(st) && Unreaped(st) && Calm(st, e) && Landmarks(st, e, s1, s2, s7, s8, r) && s7 == Stage(st, 7, e)
    requires i < st.loaded && (st.slots[i].profile.None? ==> !st.slots[i].enabled)
    ensures ServesOrDead(st.profiles, s7.slots[i], s7.os, e)
  {
    var m := st.slots[i];
    assert SlotOk(m, |st.profiles|);
    UpdateNoEperm(st, e, s1, s2);
    if Dead(m, st.os) {
      DownBefore(st, e, i, s1, s2, s7, s8, r);
    } else if Unwanted(st.profiles, m) {
      EndingStage(st, 7, e, i);
      ChainNoEperm(s2, 2, 7, e);
    } else if Up(m, st.os) {
      assert StaysUp(e, m.pid);
      CheckUp(st, e(0), i);
      PassSwitches(Check, st, e(0), i);
      ServingPass(Update, s1, e(1), i);
      ServingChain(s2, 2, 7, e, i);
    } else {
      ZombieBefore(st, e, i, s1, s2, s7, s8, r);
    }
  }

  /** A wanted module found dead by the supervisor is reaped first and started in the next period. */
  lemma ZombieBefore(st: State, e: nat -> Env, i: nat, s1: State, s2: State, s7: State, s8: State, r: State)
    requires Inv(st) && Calm(st, e) && Landmarks(st, e, s1, s2, s7, s8, r) && i < st.loaded
    requires st.slots[i].pid > 0 && !Up(st.slots[i], st.os) && Wanted(st.profiles, st.slots[i])
    ensures ServesOrDead(st.profiles, s7.slots[i], s7.os, e)
  {
    CheckDown(st, e(0), i);
    NewPids(st, e);
    UpdateNoEperm(st, e, s1, s2);
    if s1.slots[i].pid <= 0 {
      UpdateDown(s1, e(1), i);
      if Serving(st.profiles, s2.slots[i], s2.os) {
        assert StaysUp(e, s2.slots[i].pid);
        ServingChain(s2, 2, 7, e, i);
      } else {
        DeadChain(s2, 2, 7, e, i);
      }
    } else {
      LeftDown(s1, e(1), i);
      ReapedBefore(s2, e, i);
    }
  }

  /** The first reap of the period takes the dead process away. */
  lemma ReapedBefore(s2: State, e: nat -> Env, i: nat)
    requires Between(2, s2) && i < s2.loaded && !Up(s2.slots[i], s2.os)
    ensures Dead(Chain(s2, 2, 7, e).slots[i], Chain(s2, 2, 7, e).os)
  {
    var s3 := Pass(Sigint, s2, 0, e(2));
    BetweenStep(2, s2, e(2));
    PassDown(Sigint, s2, e(2), i);
    ReapedNext(s3, e, i);
    ChainStep(s2, 2, 7, e);
  }

  lemma ReapedNext(s3: State, e: nat -> Env, i: nat)
    requires Between(3, s3) && i < s3.loaded && !Up(s3.slots[i], s3.os)
    ensures Dead(Chain(s3, 3, 7, e).slots[i], Chain(s3, 3, 7, e).os)
  {
    var s4 := Pass(Reap, s3, 0, e(3));
    BetweenStep(3, s3, e(3));
    ReapDown(s3, e(3), i);
    DeadChain(s4, 4, 7, e, i);
    ChainStep(s3, 3, 7, e);
  }

  /** The update loop leaves a module alone whose status still says it runs. */
  lemma LeftDown(st: State, e: Env, i: nat)
    requires Inv(st) && Settled(st) && i < st.loaded && st.slots[i].pid > 0 && !Up(st.slots[i], st.os)
    ensures !Up(Pass(Update, st, 0, e).slots[i], Pass(Update, st, 0, e).os)
  {
    assert SettledSlot(st.slots[i], st.os);
    var mid := PassAt(Update, st, e, i);
    assert Decide(mid.profiles, mid.defaultLimit, Tick(mid.slots[i])).Leave?;
  }

  lemma PassDown(op: Op, st: State, e: Env, i: nat)
    requires Inv(st) && Settled(st) && i < st.loaded && op == Sigint && !Up(st.slots[i], st.os)
    ensures !Up(Pass(op, st, 0, e).slots[i], Pass(op, st, 0, e).os)
  {
    assert SettledSlot(st.slots[i], st.os);
    var mid := PassAt(op, st, e, i);
  }

  /** What the removal pass and the rest of the period make of slot i of the result. */
  lemma After(st: State, e: nat -> Env, i: nat, s1: State, s2: State, s7: State, s8: State, r: State) returns (j: nat)
    requires Landmarks(st, e, s1, s2, s7, s8, r) && NoEperm(s7.os) && i < r.loaded
    requires forall j :: 0 <= j < s7.loaded ==> ServesOrDead(s7.profiles, s7.slots[j], s7.os, e)
    requires forall y: nat :: e(1).fork(y).Fork? ==> !e(1).fork(y).eperm
    ensures j < s7.loaded && r.loaded == s8.loaded
    ensures s8.slots[i] == s7.slots[j] || s8.slots[i] == Served(s7.slots[j])
    ensures SameSwitches(s8.profiles, s8.slots[i], r.slots[i])
    ensures if Serving(s7.profiles, s7.slots[j], s7.os) then Serving(r.profiles, r.slots[i], r.os) else r.slots[i].pid <= 0
    ensures Backlog(Loaded(s7)) == 0 ==> j == i && s8.slots[i] == Served(s7.slots[i])
  {
    j := FromServe(s7, e(7), i);
    AfterServe(s7, s8, e, i, j);
    ChainSwitches(s8, 8, LOOPS, e, i);
  }

  lemma FromServe(s7: State, e: Env, i: nat) returns (j: nat)
    requires Sized(s7) && i < Pass(Serve, s7, 0, e).loaded
    ensures var s8 := Pass(Serve, s7, 0, e);
            j < s7.loaded && (s8.slots[i] == s7.slots[j] || s8.slots[i] == Served(s7.slots[j]))
            && (Backlog(Loaded(s7)) == 0 ==> j == i && s8.slots[i] == Served(s7.slots[i]))
  {
    var s8 := Pass(Serve, s7, 0, e);
    ServePass(s7, 0, e);
    assert s7.slots[0..s7.loaded] == Loaded(s7) && Loaded(s8) == Swept(Loaded(s7));
    j := SweptFrom(Loaded(s7), i);
    assert Loaded(s8)[i] == s8.slots[i] && Loaded(s7)[j] == s7.slots[j];
  }

  lemma AfterServe(s7: State, s8: State, e: nat -> Env, i: nat, j: nat)
    requires Between(7, s7) && Between(8, s8) && s8 == Pass(Serve, s7, 0, e(7)) && NoEperm(s7.os)
    requires i < s8.loaded && j < s7.loaded && (s8.slots[i] == s7.slots[j] || s8.slots[i] == Served(s7.slots[j]))
    requires ServesOrDead(s7.profiles, s7.slots[j], s7.os, e)
    requires forall y: nat :: e(1).fork(y).Fork? ==> !e(1).fork(y).eperm
    ensures var r := Chain(s8, 8, LOOPS, e);
            if Serving(s7.profiles, s7.slots[j], s7.os) then Serving(r.profiles, r.slots[i], r.os) else r.slots[i].pid <= 0
  {
    PassNoEperm(Serve, s7, 0, e(7));
    var p := s7.slots[j].pid;
    if Serving(s7.profiles, s7.slots[j], s7.os) {
      PassUp(Serve, s7, 0, e(7), p);
      ServingChain(s8, 8, LOOPS, e, i);
    } else {
      PassLater(Serve, s7, 0, e(7));
      assert SettledSlot(s7.slots[j], s7.os);
      DeadChain(s8, 8, LOOPS, e, i);
    }
  }

  ghost predicate AutoDisabledSince(a: seq<Event>, b: seq<Event>, name: string) {
    exists j :: |a| <= j < |b| && b[j].AutoDisabled? && b[j].name == name
  }

  lemma SinceLater(a: seq<Event>, b: seq<Event>, c: seq<Event>, d: seq<Event>, name: string)
    requires a <= b <= c <= d && AutoDisabledSince(b, c, name)
    ensures AutoDisabledSince(a, d, name)
  {
    var j :| |b| <= j < |c| && c[j].AutoDisabled? && c[j].name == name;
    assert d[j] == c[j];
  }

  /** The update loop changes no switch except by disabling a module at its limit, which it logs. */
  lemma UpdateSwitches(st: State, e: Env, i: nat)
    requires Inv(st) && i < st.loaded
    ensures var r := Pass(Update, st, 0, e);
            var m := st.slots[i];
            var n := r.slots[i];
            n.name == m.name && n.profile == m.profile && n.remove == m.remove && n.init == m.init && n.served == m.served
            && (n.enabled ==> m.enabled) && (m.enabled && !n.enabled ==> AutoDisabledSince(st.trace, r.trace, m.name))
  {
    UpdateTracks(st, e, i);
    if Decide(st.profiles, st.defaultLimit, Tick(st.slots[i])).Disable? {
      var mid := PassAt(Update, st, e, i);
      var t := Slot(Update, mid, i, e).trace;
      assert t[|mid.trace|] == AutoDisabled(st.slots[i].name, Limit(st.defaultLimit, Tick(st.slots[i])));
      assert AutoDisabledSince(mid.trace, t, st.slots[i].name);
      SinceLater(st.trace, mid.trace, t, Pass(Update, st, 0, e).trace, st.slots[i].name);
    }
  }

  lemma TraceTail(s2: State, e: nat -> Env)
    requires Sized(s2)
    ensures s2.trace <= Chain(Pass(Serve, Chain(s2, 2, 7, e), 0, e(7)), 8, LOOPS, e).trace
  {
    var s7 := Chain(s2, 2, 7, e);
    var s8 := Pass(Serve, s7, 0, e(7));
    var r := Chain(s8, 8, LOOPS, e);
    ChainTrace(s2, 2, 7, e);
    PassLater(Serve, s7, 0, e(7));
    ChainTrace(s8, 8, LOOPS, e);
    PrefixTrans(s2.trace, s7.trace, s8.trace);
    PrefixTrans(s2.trace, s8.trace, r.trace);
  }

  lemma PrefixTrans(a: seq<Event>, b: seq<Event>, c: seq<Event>)
    requires a <= b <= c
    ensures a <= c
  {}

  predicate SwitchedFrom(m: Module, n: Module) {
    n.name == m.name && n.profile == m.profile && n.remove == m.remove && n.init == m.init && n.served == m.served
    && (n.enabled ==> m.enabled)
  }

  /** The switches before the removal pass. */
  lemma Switches7(st: State, e: nat -> Env, i: nat, s1: State, s2: State, s7: State, s8: State, r: State)
    requires Landmarks(st, e, s1, s2, s7, s8, r) && i < st.loaded
    ensures s7.loaded == st.loaded && SwitchedFrom(st.slots[i], s7.slots[i])
    ensures st.slots[i].enabled && !s7.slots[i].enabled ==> AutoDisabledSince(st.trace, r.trace, st.slots[i].name)
  {
    assert SwitchedFrom(st.slots[i], s7.slots[i]) && s1.slots[i].enabled == st.slots[i].enabled
           && s1.slots[i].name == st.slots[i].name && s7.slots[i].enabled == s2.slots[i].enabled by {
      PassSwitches(Check, st, e(0), i);
      UpdateSwitches(s1, e(1), i);
      ChainSwitches(s2, 2, 7, e, i);
    }
    if st.slots[i].enabled && !s7.slots[i].enabled {
      assert AutoDisabledSince(s1.trace, s2.trace, st.slots[i].name) by {
        UpdateSwitches(s1, e(1), i);
      }
      PassLater(Check, st, 0, e(0));
      TraceTail(s2, e);
      PassLater(Update, s1, 0, e(1));
      SinceLater(st.trace, s1.trace, s2.trace, r.trace, st.slots[i].name);
    }
  }

  // ----- Several periods -----

  /** A module without a profile (only a reload that drops it leaves one) is switched off. */
  ghost predicate ProfilelessOff(st: State)
    requires Sized(st)
  {
    forall i :: 0 <= i < st.loaded && st.slots[i].profile.None? ==> !st.slots[i].enabled
  }

  /** Every module serves or is down. */
  ghost predicate Steady(st: State)
    requires Sized(st)
  {
    forall i :: 0 <= i < st.loaded ==> Serving(st.profiles, st.slots[i], st.os) || st.slots[i].pid <= 0
  }

  /** No stopped module waits to be switched on again. */
  ghost predicate NoneWaiting(st: State)
    requires Sized(st)
  {
    forall i :: 0 <= i < st.loaded && Pending(st.slots[i]) ==> st.slots[i].pid > 0
  }

  /** What the switches ask for: enabled, or stopped only to be restarted. */
  predicate Intent(m: Module) {
    m.enabled || Pending(m)
  }

  /** What a period makes of slot i of its result, in terms of the slot j it started from. */
  ghost predicate Traced(st: State, r: State, j: nat, i: nat)
    requires Sized(st) && Sized(r)
  {
    && j < st.loaded && i < r.loaded
    && r.slots[i].name == st.slots[j].name && r.slots[i].profile == st.slots[j].profile
    && r.slots[i].remove == st.slots[j].remove
    && (Intent(r.slots[i]) ==> Intent(st.slots[j]))
    && (Intent(st.slots[j]) && !Intent(r.slots[i]) ==> AutoDisabledSince(st.trace, r.trace, st.slots[j].name))
  }

  lemma ServedIntent(m: Module, n: Module)
    requires n == m || n == Served(m)
    ensures Intent(n) == Intent(m) && n.profile == m.profile && n.remove == m.remove && n.name == m.name
    ensures m.profile.None? && m.remove ==> n.enabled == m.enabled
  {}

  lemma SameIntent(profiles: seq<Profile>, m: Module, n: Module)
    requires SameSwitches(profiles, m, n)
    ensures Intent(n) == Intent(m) && Pending(n) == Pending(m)
  {}

  lemma AllBefore(st: State, e: nat -> Env, s1: State, s2: State, s7: State, s8: State, r: State)
    requires Inv(st) && Unreaped(st) && Calm(st, e) && ProfilelessOff(st)
    requires Landmarks(st, e, s1, s2, s7, s8, r) && s7 == Stage(st, 7, e)
    ensures s7.loaded == st.loaded && NoEperm(s7.os)
    ensures forall j :: 0 <= j < s7.loaded ==> ServesOrDead(s7.profiles, s7.slots[j], s7.os, e)
  {
    UpdateNoEperm(st, e, s1, s2);
    ChainNoEperm(s2, 2, 7, e);
    forall j | 0 <= j < s7.loaded ensures ServesOrDead(s7.profiles, s7.slots[j], s7.os, e) {
      Before(st, e, j, s1, s2, s7, s8, r);
    }
  }

  lemma AnyPeriod(st: State, e: nat -> Env, i: nat) returns (j: nat)
    requires Inv(st) && Unreaped(st) && Calm(st, e) && ProfilelessOff(st) && i < Period(st, e).loaded
    ensures var r := Period(st, e);
            Traced(st, r, j, i) && (Serving(r.profiles, r.slots[i], r.os) || r.slots[i].pid <= 0)
            && (r.slots[i].profile.None? ==> !r.slots[i].enabled)
  {
    var s1, s2, s7, s8, r := FindLandmarks(st, e);
    AllBefore(st, e, s1, s2, s7, s8, r);
    j := After(st, e, i, s1, s2, s7, s8, r);
    Switches7(st, e, j, s1, s2, s7, s8, r);
    ServedIntent(s7.slots[j], s8.slots[i]);
    SameIntent(s8.profiles, s8.slots[i], r.slots[i]);
    assert SlotOk(s7.slots[j], |s7.profiles|);
  }

  lemma FlaggedBefore(st: State, e: nat -> Env, s1: State, s2: State, s7: State, s8: State, r: State)
    requires Landmarks(st, e, s1, s2, s7, s8, r)
    ensures Flagged(Loaded(s7)) == Flagged(Loaded(st)) && s7.loaded == st.loaded
  {
    forall i | 0 <= i < st.loaded ensures s7.slots[i].remove == st.slots[i].remove {
      Switches7(st, e, i, s1, s2, s7, s8, r);
    }
    FlaggedSame(Loaded(st), Loaded(s7));
  }

  lemma FlaggedAfter(s7: State, e: nat -> Env)
    requires Sized(s7)
    ensures Flagged(Loaded(Chain(Pass(Serve, s7, 0, e(7)), 8, LOOPS, e))) == Flagged(Swept(Loaded(s7)))
  {
    var s8 := Pass(Serve, s7, 0, e(7));
    var r := Chain(s8, 8, LOOPS, e);
    assert Loaded(s8) == Swept(Loaded(s7)) by {
      ServePass(s7, 0, e(7));
      assert s7.slots[0..s7.loaded] == Loaded(s7);
    }
    forall i | 0 <= i < s8.loaded ensures s8.slots[i].remove == r.slots[i].remove {
      ChainSwitches(s8, 8, LOOPS, e, i);
    }
    FlaggedSame(Loaded(s8), Loaded(r));
  }

  /** The number of flagged modules never grows, and once all are down each period halves it. */
  lemma FlaggedPeriod(st: State, e: nat -> Env)
    requires Inv(st) && Unreaped(st) && Calm(st, e)
    ensures Flagged(Loaded(Period(st, e))) <= Flagged(Loaded(st))
    ensures Steady(st) ==> Flagged(Loaded(Period(st, e))) <= Flagged(Loaded(st)) / 2
  {
    var s1, s2, s7, s8, r := FindLandmarks(st, e);
    FlaggedBefore(st, e, s1, s2, s7, s8, r);
    FlaggedAfter(s7, e);
    FlaggedSwept(Loaded(s7));
    if Steady(st) {
      AllRemovable(st, e, s1, s2, s7, s8, r);
      FlaggedHalves(Loaded(s7));
    }
  }

  lemma AllRemovable(st: State, e: nat -> Env, s1: State, s2: State, s7: State, s8: State, r: State)
    requires Inv(st) && Unreaped(st) && Calm(st, e) && Steady(st)
    requires Landmarks(st, e, s1, s2, s7, s8, r) && s7.loaded == st.loaded
    ensures forall i :: 0 <= i < |Loaded(s7)| && Loaded(s7)[i].remove ==> Removable(Loaded(s7)[i])
  {
    AllDown(st, e, s1, s2, s7, s8, r);
  }

  /** From a steady state, whatever is not wanted before the removal pass is down. */
  lemma AllDown(st: State, e: nat -> Env, s1: State, s2: State, s7: State, s8: State, r: State)
    requires Inv(st) && Unreaped(st) && Calm(st, e) && Steady(st)
    requires Landmarks(st, e, s1, s2, s7, s8, r) && s7.loaded == st.loaded
    ensures forall i :: 0 <= i < s7.loaded ==>
              if Wanted(s7.profiles, s7.slots[i]) then Serving(s7.profiles, s7.slots[i], s7.os)
              else s7.slots[i].pid <= 0 && !s7.slots[i].status
    ensures forall i :: 0 <= i < s7.loaded && s7.slots[i].remove ==> Removable(s7.slots[i])
    ensures forall i :: 0 <= i < s7.loaded && st.slots[i].pid > 0 ==> Serving(s7.profiles, s7.slots[i], s7.os)
  {
    forall i | 0 <= i < s7.loaded ensures
        && (if Wanted(s7.profiles, s7.slots[i]) then Serving(s7.profiles, s7.slots[i], s7.os)
            else s7.slots[i].pid <= 0 && !s7.slots[i].status)
        && (s7.slots[i].remove ==> Removable(s7.slots[i]))
        && (st.slots[i].pid > 0 ==> Serving(s7.profiles, s7.slots[i], s7.os)) {
      assert SlotOk(s7.slots[i], |s7.profiles|) && SettledSlot(s7.slots[i], s7.os);
      if st.slots[i].pid <= 0 {
        DownBefore(st, e, i, s1, s2, s7, s8, r);
      } else {
        UpBefore(st, e, i, s1, s2, s7, s8, r);
      }
    }
  }

  lemma UpBefore(st: State, e: nat -> Env, i: nat, s1: State, s2: State, s7: State, s8: State, r: State)
    requires Inv(st) && Calm(st, e) && Landmarks(st, e, s1, s2, s7, s8, r) && i < st.loaded
    requires Serving(st.profiles, st.slots[i], st.os)
    ensures Serving(st.profiles, s7.slots[i], s7.os) && s7.slots[i].pid == st.slots[i].pid
  {
    UpdateNoEperm(st, e, s1, s2);
    assert StaysUp(e, st.slots[i].pid);
    CheckUp(st, e(0), i);
    PassSwitches(Check, st, e(0), i);
    ServingPass(Update, s1, e(1), i);
    ServingChain(s2, 2, 7, e, i);
  }
}
