/** Terminating with "stop all modules": every module is disabled and the service
    loop ends at the first status check that counts no running module. */
module StopAll {
  import opened Model
  import opened Kernel
  import opened Service
  import opened Invariants
  import opened Commands
  import opened Removal
  import opened Tracking
  import opened Restart
  import opened Stopping
  import opened Convergence

  /** What service_check_modules_status returns, read off the records it leaves: a module that may not
      be signalled counts only while the service thread is to go on. */
  function Running(ms: seq<Module>, goOn: bool): nat {
    if ms == [] then 0
    else (if ms[0].pid > 0 && (goOn || !ms[0].rootPerm) then 1 else 0) + Running(ms[1..], goOn)
  }

  lemma {:induction false} RunningSnoc(ms: seq<Module>, m: Module, goOn: bool)
    ensures Running(ms + [m], goOn) == Running(ms, goOn) + if m.pid > 0 && (goOn || !m.rootPerm) then 1 else 0
  {
    if ms != [] {
      RunningSnoc(ms[1..], m, goOn);
      assert (ms + [m])[1..] == ms[1..] + [m];
    } else {
      assert (ms + [m])[1..] == [];
    }
  }

  lemma {:induction false} NoneRunning(ms: seq<Module>, goOn: bool)
    ensures Running(ms, goOn) == 0 <==> forall i :: 0 <= i < |ms| ==> ms[i].pid <= 0 || (!goOn && ms[i].rootPerm)
  {
    if ms != [] {
      NoneRunning(ms[1..], goOn);
      assert forall i :: 0 < i < |ms| ==> ms[i] == ms[1..][i - 1];
    }
  }

  /** A stopped module that the service thread will switch on and start by itself. */
  predicate Restartable(profiles: seq<Profile>, m: Module) {
    Pending(m) && ProfileEnabled(profiles, m)
  }

  ghost predicate NoneRestartable(st: State)
    requires Sized(st)
  {
    forall i :: 0 <= i < st.loaded ==> !Restartable(st.profiles, st.slots[i])
  }

  ghost predicate AllUnwanted(st: State)
    requires Sized(st)
  {
    forall i :: 0 <= i < st.loaded ==> Unwanted(st.profiles, st.slots[i])
  }

  lemma {:induction false} SwitchedOff(st: State, x: nat)
    requires Sized(st)
    ensures var r := SwitchAll(st, x, false);
            && r == st.(slots := r.slots) && |r.slots| == |st.slots|
            && forall i :: 0 <= i < |st.slots| ==>
                 r.slots[i] == if x <= i < st.loaded then st.slots[i].(enabled := false) else st.slots[i]
    decreases st.loaded - x
  {
    if x < st.loaded {
      SwitchedOff(Put(st, x, st.slots[x].(enabled := false)), x + 1);
    }
  }

  /** Nothing is wanted and nothing will be. */
  lemma UnwantedPeriod(st: State, e: nat -> Env)
    requires Inv(st) && Unreaped(st) && AllUnwanted(st) && NoneRestartable(st)
    ensures AllUnwanted(Period(st, e)) && NoneRestartable(Period(st, e))
  {
    var r := Period(st, e);
    forall i | 0 <= i < r.loaded
      ensures Unwanted(r.profiles, r.slots[i]) && !Restartable(r.profiles, r.slots[i]) {
      var j, u := PeriodTracks(st, e, i);
      assert SlotOk(st.slots[j], |st.profiles|);
    }
  }

  ghost predicate AllHalted(st: State)
    requires Sized(st)
  {
    forall i :: 0 <= i < st.loaded ==> Halted(st.slots[i], st.os)
  }

  lemma CountsNone(st: State, e: Env)
    requires Inv(st) && AllHalted(st)
    ensures Running(Loaded(Pass(Check, st, 0, e)), false) == 0
  {
    var r := Pass(Check, st, 0, e);
    forall i | 0 <= i < r.loaded ensures r.slots[i].pid <= 0 || r.slots[i].rootPerm {
      assert SlotOk(st.slots[i], |st.profiles|);
      var mid := PassAt(Check, st, e, i);
      if st.slots[i].pid > 0 && st.slots[i].pid !in st.os {
        ReachingNoNew(Check, st, 0, e, i, st.slots[i].pid);
      }
    }
    NoneRunning(Loaded(r), false);
  }

  lemma HaltedPeriod(st: State, e: nat -> Env)
    requires Inv(st) && Unreaped(st) && AllUnwanted(st)
    ensures AllHalted(Period(st, e))
  {
    forall i | 0 <= i < Period(st, e).loaded ensures Halted(Period(st, e).slots[i], Period(st, e).os) {
      StopsUnwanted(st, e, i);
    }
  }

  lemma {:induction false} UnwantedRun(st: State, n: nat, env: nat -> nat -> Env)
    requires Inv(st) && Unreaped(st) && AllUnwanted(st) && NoneRestartable(st) && (n == 0 ==> AllHalted(st))
    ensures Inv(Periods(st, n, env)) && AllHalted(Periods(st, n, env))
    decreases n
  {
    if n > 0 {
      PeriodKeeps(st, env(n));
      HaltedPeriod(st, env(n));
      UnwantedPeriod(st, env(n));
      UnwantedRun(Period(st, env(n)), n - 1, env);
    }
  }

  // ----- The loop after the flag is set -----

  /** The service loop, told to stop all modules and end, leaves at one of its next n status checks. */
  ghost predicate QuitsWithin(st: State, n: nat, env: nat -> nat -> Env)
    requires Sized(st)
    decreases n
  {
    n > 0 && (Running(Loaded(Pass(Check, st, 0, env(n)(0))), false) == 0 || QuitsWithin(Period(st, env(n)), n - 1, env))
  }

  /** One full period after everything was disabled, nothing is counted, whatever is pending. */
  lemma CountsNoneNext(st: State, e: nat -> Env, check: Env)
    requires Inv(st) && Unreaped(st) && AllUnwanted(st)
    ensures Running(Loaded(Pass(Check, Period(st, e), 0, check)), false) == 0
  {
    PeriodKeeps(st, e);
    HaltedPeriod(st, e);
    CountsNone(Period(st, e), check);
  }

  /** Stop-all ends on every kernel: with k periods between the disabling and the flag, the loop leaves at its second
      status check if k is 0, and at the first if k is 1. For larger k it does so if nothing was pending a restart. */
  lemma StopAllEnds(st: State, k: nat, env: nat -> nat -> Env, n: nat, env': nat -> nat -> Env)
    requires Inv(st) && Unreaped(st) && (k <= 1 || NoneRestartable(st)) && n >= (if k == 0 then 2 else 1)
    ensures QuitsWithin(Periods(Perform(StopAll, st), k, env), n, env')
  {
    var s := Perform(StopAll, st);
    Disabling(st);
    if k == 0 {
      CountsNoneNext(s, env'(n), env'(n - 1)(0));
    } else if k == 1 {
      OnePeriod(s, env);
      CountsNoneNext(s, env(1), env'(n)(0));
    } else {
      UnwantedRun(s, k, env);
      CountsNone(Periods(s, k, env), env'(n)(0));
    }
  }

  lemma OnePeriod(st: State, env: nat -> nat -> Env)
    requires Sized(st)
    ensures Periods(st, 1, env) == Period(st, env(1))
  {
    assert Periods(Period(st, env(1)), 0, env) == Period(st, env(1));
  }

  lemma CheckCounts(st: State, e: Env, i: nat)
    requires Sized(st) && NoEperm(st.os) && i < st.loaded && Up(st.slots[i], st.os)
    requires forall y: nat :: st.slots[i].pid !in e.dying(y)
    ensures Running(Loaded(Pass(Check, st, 0, e)), false) > 0
  {
    var r := Pass(Check, st, 0, e);
    var p := st.slots[i].pid;
    var mid := PassAt(Check, st, e, i);
    ReachingUp(Check, st, 0, e, i, p);
    assert !mid.os[p].eperm && mid.os[p].phase.Alive?;
    assert r.slots[i].pid > 0 && !r.slots[i].rootPerm;
    NoneRunning(Loaded(r), false);
    assert Loaded(r)[i] == r.slots[i];
  }

  /** What stop-all does to the table. */
  lemma Disabling(st: State)
    requires Inv(st) && Unreaped(st)
    ensures var s := Perform(StopAll, st);
            && Inv(s) && Unreaped(s) && ProfilelessOff(s) && AllUnwanted(s) && (NoneRestartable(st) ==> NoneRestartable(s))
            && s.loaded == st.loaded && s.profiles == st.profiles
            && forall j :: 0 <= j < st.loaded ==> s.slots[j] == st.slots[j].(enabled := false)
  {
    var s := Perform(StopAll, st);
    assert Inv(s) && Unreaped(s) by { PerformKeeps(StopAll, st); }
    SwitchedOff(st, 0);
    assert forall j :: 0 <= j < st.loaded ==> s.slots[j] == st.slots[j].(enabled := false);
  }
}
