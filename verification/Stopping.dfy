/** Stopping modules: what one period does to a module that should not run, and
    how the service loop ends. */
module Stopping {
  import opened Model
  import opened Kernel
  import opened Service
  import opened Invariants
  import opened Tracking

  /** Nothing is left to stop: no process, a process that is gone, or one we may not signal. */
  predicate Halted(m: Module, os: map<int, Proc>) {
    m.pid <= 0 || m.pid !in os || os[m.pid].phase.Gone? || os[m.pid].eperm
  }

  /** How far the first k loops have got with an unwanted module. */
  predicate Ending(k: nat, profiles: seq<Profile>, m: Module, os: map<int, Proc>) {
    && Unwanted(profiles, m)
    && (k >= 1 ==> SettledSlot(m, os))
    && (k >= 1 && m.pid > 0 && !os[m.pid].eperm ==>
          && !m.rootPerm
          && (k >= 3 ==> m.sentSigint)
          && (k >= 6 ==> !os[m.pid].phase.Alive?)
          && (k >= 7 ==> os[m.pid].phase.Gone?))
  }

  lemma EndingLater(k: nat, profiles: seq<Profile>, m: Module, a: map<int, Proc>, b: map<int, Proc>)
    requires Ending(k, profiles, m, a) && Later(a, b)
    ensures Ending(k, profiles, m, b)
  {}

  /** Each loop brings the module one stage further. */
  lemma EndingStep(k: nat, st: State, x: nat, e: Env)
    requires k < 7 && Inv(st) && Ready(Loop(k), st) && x < st.loaded && Ending(k, st.profiles, st.slots[x], st.os)
    ensures var r := Slot(Loop(k), st, x, e);
            Ending(k + 1, st.profiles, r.slots[x], r.os)
  {
    var s := ExitKeeps(st, e.dying(x));
    EndingLater(k, st.profiles, st.slots[x], st.os, s.os);
    assert SlotOk(s.slots[x], |s.profiles|) && OwnsPid(s.slots[x], s.os);
    EndingAct(k, s, x, e);
  }

  lemma EndingAct(k: nat, s: State, x: nat, e: Env)
    requires k < 7 && x < s.loaded <= |s.slots| && OsOk(s.os) && Ending(k, s.profiles, s.slots[x], s.os)
    requires SlotOk(s.slots[x], |s.profiles|) && OwnsPid(s.slots[x], s.os)
    ensures var r := Act(Loop(k), s, x, e);
            Ending(k + 1, s.profiles, r.slots[x], r.os)
  {
    match Loop(k)
    case Check => EndingCheck(k, s, x);
    case Update => EndingUpdate(s, x, e.fork(x));
    case Sigint => EndingSigint(s, x);
    case Reap => EndingReap(k, s, x);
    case Kill => EndingKill(s, x);
  }

  lemma EndingCheck(k: nat, s: State, x: nat)
    requires (k == 0 || k == 4) && x < |s.slots| && SlotOk(s.slots[x], |s.profiles|)
    requires Ending(k, s.profiles, s.slots[x], s.os)
    ensures Ending(k + 1, s.profiles, CheckSlot(s, x).slots[x], s.os)
  {}

  lemma EndingUpdate(s: State, x: nat, f: ForkOutcome)
    requires x < |s.slots| && Ending(1, s.profiles, s.slots[x], s.os)
    ensures Ending(2, s.profiles, UpdateSlot(s, x, f).slots[x], UpdateSlot(s, x, f).os)
  {
    assert Decide(s.profiles, s.defaultLimit, Tick(s.slots[x])).Leave?;
  }

  lemma EndingSigint(s: State, x: nat)
    requires x < |s.slots| && Ending(2, s.profiles, s.slots[x], s.os)
    ensures Ending(3, s.profiles, SigintSlot(s, x).slots[x], s.os)
  {}

  lemma EndingReap(k: nat, s: State, x: nat)
    requires (k == 3 || k == 6) && x < |s.slots| && OwnsPid(s.slots[x], s.os) && OsOk(s.os)
    requires Ending(k, s.profiles, s.slots[x], s.os)
    ensures Ending(k + 1, s.profiles, ReapSlot(s, x).slots[x], ReapSlot(s, x).os)
  {}

  lemma EndingKill(s: State, x: nat)
    requires x < |s.slots| && Ending(5, s.profiles, s.slots[x], s.os)
    ensures Ending(6, s.profiles, KillSlot(s, x).slots[x], KillSlot(s, x).os)
  {}

  lemma {:induction false} EndingStage(st: State, k: nat, e: nat -> Env, i: nat)
    requires Inv(st) && Unreaped(st) && k <= 7 && i < st.loaded && Unwanted(st.profiles, st.slots[i])
    ensures Stage(st, k, e).loaded == st.loaded
    ensures Ending(k, st.profiles, Stage(st, k, e).slots[i], Stage(st, k, e).os)
  {
    if k > 0 {
      EndingStage(st, k - 1, e, i);
      StageKeeps(st, k - 1, e);
      var s := Stage(st, k - 1, e);
      var mid := PassAt(Loop(k - 1), s, e(k - 1), i);
      ReachingKeeps(Loop(k - 1), s, 0, e(k - 1), i);
      EndingLater(k - 1, st.profiles, s.slots[i], s.os, mid.os);
      EndingStep(k - 1, mid, i, e(k - 1));
      var t := Slot(Loop(k - 1), mid, i, e(k - 1));
      EndingLater(k, st.profiles, t.slots[i], t.os, Stage(st, k, e).os);
    }
  }

  /** After the update loop a halted slot stays halted. */
  lemma HaltedSlot(op: Op, st: State, x: nat, e: Env)
    requires x < st.loaded <= |st.slots| && op != Serve && op != Update && Halted(st.slots[x], st.os)
    requires st.slots[x].pid > 0 ==> st.slots[x].pid in st.os
    ensures var r := Slot(op, st, x, e);
            Halted(r.slots[x], r.os) && (r.slots[x].pid > 0 ==> r.slots[x].pid in r.os)
  {
    SlotLater(op, st, x, e);
  }

  /** What StageKeeps says of the state before loop k. */
  ghost predicate Between(k: nat, s: State) {
    Inv(s) && (k >= 1 ==> Settled(s)) && (k != 4 && k != 7 && k != 8 ==> Unreaped(s))
  }

  lemma BetweenStep(k: nat, s: State, e: Env)
    requires k < LOOPS && Between(k, s)
    ensures Between(k + 1, Pass(Loop(k), s, 0, e))
  {
    PassKeeps(Loop(k), s, 0, e);
    if Loop(k) == Check {
      CheckSettles(s, 0, e);
    }
  }

  lemma HaltedPass(op: Op, st: State, e: Env, i: nat)
    requires Settled(st) && i < st.loaded && op != Serve && op != Update && Halted(st.slots[i], st.os)
    ensures Halted(Pass(op, st, 0, e).slots[i], Pass(op, st, 0, e).os)
  {
    assert SettledSlot(st.slots[i], st.os);
    var mid := PassAt(op, st, e, i);
    HaltedSlot(op, mid, i, e);
  }

  lemma {:induction false} HaltedChain(s: State, k: nat, e: nat -> Env, i: nat)
    requires Between(k, s) && 8 <= k <= LOOPS && i < s.loaded && Halted(s.slots[i], s.os)
    ensures var r := Chain(s, k, LOOPS, e);
            Halted(r.slots[i], r.os)
    decreases LOOPS - k
  {
    if k < LOOPS {
      BetweenStep(k, s, e(k));
      HaltedPass(Loop(k), s, e(k), i);
      HaltedChain(Pass(Loop(k), s, 0, e(k)), k + 1, e, i);
    }
  }

  /** One period stops every unwanted module, whatever the kernel does. */
  lemma StopsUnwanted(st: State, e: nat -> Env, i: nat)
    requires Inv(st) && Unreaped(st) && i < Period(st, e).loaded
    requires forall i :: 0 <= i < st.loaded ==> Unwanted(st.profiles, st.slots[i])
    ensures Halted(Period(st, e).slots[i], Period(st, e).os)
  {
    var j := ServedFrom(st, e, i);
    var s8 := Stage(st, 8, e);
    assert Halted(s8.slots[i], s8.os) by {
      EndingStage(st, 7, e, j);
      PassLater(Serve, Stage(st, 7, e), 0, e(7));
      StageStep(st, 7, e);
    }
    assert Between(8, s8) by { StageKeeps(st, 8, e); }
    StageChain(st, 8, LOOPS, e);
    HaltedChain(s8, 8, e, i);
  }
}
