/** How many undisturbed periods it takes until every module is as its switches
    ask: three, and one more for every halving of the modules flagged for removal,
    because the removal pass skips the neighbour of each module it removes. */
module Settling {
  import opened Model
  import opened Kernel
  import opened Service
  import opened Invariants
  import opened Removal
  import opened Tracking
  import opened Restart
  import opened Convergence

  /** Nothing is flagged, no stopped module waits, and a module runs exactly when it is wanted. */
  ghost predicate Converged(st: State)
    requires Sized(st)
  {
    && Flagged(Loaded(st)) == 0 && Steady(st) && NoneWaiting(st)
    && forall i :: 0 <= i < st.loaded && Wanted(st.profiles, st.slots[i]) ==> Up(st.slots[i], st.os)
  }

  lemma AllSteady(st: State, e: nat -> Env)
    requires Inv(st) && Unreaped(st) && Calm(st, e) && ProfilelessOff(st)
    ensures Steady(Period(st, e)) && ProfilelessOff(Period(st, e))
  {
    var r := Period(st, e);
    forall i | 0 <= i < r.loaded
      ensures (Serving(r.profiles, r.slots[i], r.os) || r.slots[i].pid <= 0)
              && (r.slots[i].profile.None? ==> !r.slots[i].enabled) {
      var j := AnyPeriod(st, e, i);
    }
  }

  lemma {:induction false} NoBacklog(ms: seq<Module>)
    requires Flagged(ms) == 0
    ensures Backlog(ms) == 0
  {
    if ms != [] {
      NoBacklog(ms[1..]);
    }
  }

  /** With nothing flagged the pass visits every slot. */
  lemma ClearPeriod(st: State, e: nat -> Env, i: nat, s1: State, s2: State, s7: State, s8: State, r: State)
    requires Inv(st) && Unreaped(st) && Calm(st, e) && ProfilelessOff(st) && Steady(st) && Flagged(Loaded(st)) == 0
    requires Landmarks(st, e, s1, s2, s7, s8, r) && s7 == Stage(st, 7, e) && i < r.loaded
    ensures i < s7.loaded == st.loaded && s8.loaded == r.loaded
    ensures s8.slots[i] == Served(s7.slots[i]) && SameSwitches(s8.profiles, s8.slots[i], r.slots[i])
    ensures SwitchedFrom(st.slots[i], s7.slots[i])
    ensures if Wanted(s7.profiles, s7.slots[i]) then s7.slots[i].status && Serving(r.profiles, r.slots[i], r.os)
            else !s7.slots[i].status && r.slots[i].pid <= 0
    ensures st.slots[i].pid > 0 ==> s7.slots[i].status
  {
    AllBefore(st, e, s1, s2, s7, s8, r);
    FlaggedBefore(st, e, s1, s2, s7, s8, r);
    NoBacklog(Loaded(s7));
    var j := After(st, e, i, s1, s2, s7, s8, r);
    Switches7(st, e, i, s1, s2, s7, s8, r);
    AllDown(st, e, s1, s2, s7, s8, r);
    assert SettledSlot(s7.slots[i], s7.os);
  }

  lemma ClearRecord(profiles: seq<Profile>, m: Module, m7: Module, m8: Module, n: Module)
    requires SwitchedFrom(m, m7) && m8 == Served(m7) && SameSwitches(profiles, m8, n)
    ensures Pending(n) ==> m7.status && Pending(m)
    ensures n.enabled && !m7.enabled ==> Pending(m) && !m7.status
    ensures n.profile == m7.profile
  {}

  /** A period with nothing flagged serves every stopped module that waits; the next one starts them. */
  lemma ClearStep(st: State, e: nat -> Env)
    requires Inv(st) && Unreaped(st) && Calm(st, e) && ProfilelessOff(st) && Steady(st) && Flagged(Loaded(st)) == 0
    ensures Flagged(Loaded(Period(st, e))) == 0 && Steady(Period(st, e)) && NoneWaiting(Period(st, e))
    ensures NoneWaiting(st) ==> Converged(Period(st, e))
  {
    var s1, s2, s7, s8, r := FindLandmarks(st, e);
    FlaggedPeriod(st, e);
    AllSteady(st, e);
    forall i | 0 <= i < r.loaded
      ensures Pending(r.slots[i]) ==> r.slots[i].pid > 0
      ensures NoneWaiting(st) && Wanted(r.profiles, r.slots[i]) ==> Up(r.slots[i], r.os) {
      ClearPeriod(st, e, i, s1, s2, s7, s8, r);
      ClearRecord(s8.profiles, st.slots[i], s7.slots[i], s8.slots[i], r.slots[i]);
    }
  }

  // ----- Whole runs -----

  ghost predicate CalmRun(st: State, n: nat, env: nat -> nat -> Env)
    requires Sized(st)
    decreases n
  {
    n == 0 || (Calm(st, env(n)) && CalmRun(Period(st, env(n)), n - 1, env))
  }

  /** What every state of an undisturbed run satisfies. */
  ghost predicate Fit(st: State) {
    Inv(st) && Unreaped(st) && ProfilelessOff(st)
  }

  /** The states of an undisturbed run, one by one. */
  ghost predicate Path(ss: seq<State>, env: nat -> nat -> Env) {
    |ss| > 0 && forall m {:trigger Visit(m)} :: Visit(m) && 0 <= m < |ss| ==> Stop(ss, env, m)
  }

  ghost predicate Stop(ss: seq<State>, env: nat -> nat -> Env, m: nat)
    requires m < |ss|
  {
    && Fit(ss[m]) && (m > 0 ==> Steady(ss[m]))
    && (m + 1 < |ss| ==> Calm(ss[m], env(|ss| - 1 - m)) && ss[m + 1] == Period(ss[m], env(|ss| - 1 - m)))
  }

  function End(ss: seq<State>): State
    requires |ss| > 0
  {
    ss[|ss| - 1]
  }

  lemma {:induction false} MakePath(st: State, n: nat, env: nat -> nat -> Env) returns (ss: seq<State>)
    requires Fit(st) && CalmRun(st, n, env)
    ensures Path(ss, env) && |ss| == n + 1 && ss[0] == st && End(ss) == Periods(st, n, env)
    decreases n
  {
    ss := [st];
    if n > 0 {
      var s := Period(st, env(n));
      assert Inv(s) && Unreaped(s) by { PeriodKeeps(st, env(n)); }
      assert Steady(s) && ProfilelessOff(s) by { AllSteady(st, env(n)); }
      var rest := MakePath(s, n - 1, env);
      ss := [st] + rest;
      PathCons(st, rest, env);
    }
  }

  lemma PathCons(st: State, rest: seq<State>, env: nat -> nat -> Env)
    requires Fit(st) && Path(rest, env) && Calm(st, env(|rest|)) && rest[0] == Period(st, env(|rest|)) && Steady(rest[0])
    ensures Path([st] + rest, env)
  {
    var ss := [st] + rest;
    forall m {:trigger Visit(m)} | Visit(m) && 0 <= m < |ss| ensures Stop(ss, env, m) {
      if m > 0 {
        assert Visit(m - 1);
        assert Stop(rest, env, m - 1);
      }
    }
  }

  /** The first period of a path, and the path that is left. */
  lemma PathStep(ss: seq<State>, env: nat -> nat -> Env)
    requires Path(ss, env)
    ensures Fit(ss[0])
    ensures |ss| > 1 ==>
              && Path(ss[1..], env) && Fit(ss[1]) && Steady(ss[1]) && End(ss[1..]) == End(ss)
              && ss[0].trace <= ss[1].trace && ss[1].profiles == ss[0].profiles
  {
    assert Visit(0);
    assert Fit(ss[0]);
    if |ss| > 1 {
      assert Visit(1);
      assert Fit(ss[1]) && Steady(ss[1]);
      PathTail(ss, env);
      PeriodTrace(ss[0], env(|ss| - 1));
    }
  }

  lemma PathTail(ss: seq<State>, env: nat -> nat -> Env)
    requires Path(ss, env) && |ss| > 1
    ensures Path(ss[1..], env)
  {
    forall m {:trigger Visit(m)} | Visit(m) && 0 <= m < |ss[1..]| ensures Stop(ss[1..], env, m) {
      assert Visit(m + 1);
      assert Stop(ss, env, m + 1);
    }
  }

  function Bits(r: nat): nat {
    if r == 0 then 0 else 1 + Bits(r / 2)
  }

  lemma {:induction false} BitsGrow(a: nat, b: nat)
    requires a <= b
    ensures Bits(a) <= Bits(b)
  {
    if a > 0 {
      BitsGrow(a / 2, b / 2);
    }
  }

  /** The periods a state still needs. */
  ghost function Need(st: State): nat
    requires Sized(st)
  {
    if !Steady(st) then 3 + Bits(Flagged(Loaded(st)))
    else if Flagged(Loaded(st)) > 0 then 2 + Bits(Flagged(Loaded(st)))
    else if !NoneWaiting(st) then 2
    else if !Converged(st) then 1
    else 0
  }

  lemma NeedStep(st: State, e: nat -> Env)
    requires Inv(st) && Unreaped(st) && Calm(st, e) && ProfilelessOff(st)
    ensures Need(Period(st, e)) == 0 || Need(Period(st, e)) < Need(st)
  {
    AllSteady(st, e);
    FlaggedPeriod(st, e);
    BitsGrow(Flagged(Loaded(Period(st, e))), Flagged(Loaded(st)));
    if Steady(st) {
      BitsGrow(Flagged(Loaded(Period(st, e))), Flagged(Loaded(st)) / 2);
      if Flagged(Loaded(st)) == 0 {
        ClearStep(st, e);
      }
    }
  }

  lemma NeedNext(ss: seq<State>, env: nat -> nat -> Env)
    requires Path(ss, env) && |ss| > 1
    ensures Sized(ss[0]) && Sized(ss[1]) && (Need(ss[1]) == 0 || Need(ss[1]) < Need(ss[0]))
  {
    assert Visit(0);
    NeedStep(ss[0], env(|ss| - 1));
  }

  lemma {:induction false} NeedPath(ss: seq<State>, env: nat -> nat -> Env)
    requires Path(ss, env) && Sized(ss[0]) && Need(ss[0]) < |ss|
    ensures Sized(End(ss)) && Converged(End(ss))
  {
    if |ss| > 1 {
      PathStep(ss, env);
      NeedNext(ss, env);
      NeedPath(ss[1..], env);
    }
  }

  // ----- What becomes of a module that is not flagged -----

  /** Slot i of r holds the module of slot j of st, with the same intent unless it was disabled at its limit. */
  ghost predicate Kin(st: State, r: State, j: nat, i: nat)
    requires Sized(st) && Sized(r)
  {
    && j < st.loaded && i < r.loaded
    && r.slots[i].name == st.slots[j].name && r.slots[i].profile == st.slots[j].profile
    && !r.slots[i].remove
    && ((Intent(r.slots[i]) <==> Intent(st.slots[j])) || AutoDisabledSince(st.trace, r.trace, st.slots[j].name))
  }

  lemma Survives(st: State, e: nat -> Env, j: nat) returns (i: nat)
    requires Inv(st) && Unreaped(st) && Calm(st, e) && ProfilelessOff(st) && j < st.loaded && !st.slots[j].remove
    ensures Kin(st, Period(st, e), j, i)
  {
    var s1, s2, s7, s8, r := FindLandmarks(st, e);
    Switches7(st, e, j, s1, s2, s7, s8, r);
    i := ThroughServe(s7, e, j);
    var j' := AnyPeriod(st, e, i);
    assert j' == j by {
      assert Table(st.slots, st.loaded) && st.slots[j'].name == st.slots[j].name;
    }
  }

  lemma ThroughServe(s7: State, e: nat -> Env, j: nat) returns (i: nat)
    requires Sized(s7) && j < s7.loaded && !s7.slots[j].remove
    ensures var r := Chain(Pass(Serve, s7, 0, e(7)), 8, LOOPS, e);
            i < r.loaded && r.slots[i].name == s7.slots[j].name
  {
    var s8 := Pass(Serve, s7, 0, e(7));
    assert Loaded(s8) == Swept(Loaded(s7)) by {
      ServePass(s7, 0, e(7));
      assert s7.slots[0..s7.loaded] == Loaded(s7);
    }
    i := SweptTo(Loaded(s7), j);
    assert Loaded(s8)[i] == s8.slots[i] && Loaded(s7)[j] == s7.slots[j];
    ChainSwitches(s8, 8, LOOPS, e, i);
  }

  lemma KinTrans(st: State, s: State, r: State, j: nat, k: nat, i: nat)
    requires Sized(st) && Sized(s) && Sized(r) && st.trace <= s.trace <= r.trace
    requires Kin(st, s, j, k) && Kin(s, r, k, i)
    ensures Kin(st, r, j, i)
  {
    var name := st.slots[j].name;
    if AutoDisabledSince(st.trace, s.trace, name) {
      SinceLater(st.trace, st.trace, s.trace, r.trace, name);
    }
    if AutoDisabledSince(s.trace, r.trace, name) {
      SinceLater(st.trace, s.trace, r.trace, r.trace, name);
    }
  }

  lemma PeriodTrace(st: State, e: nat -> Env)
    requires Sized(st)
    ensures st.trace <= Period(st, e).trace
  {
    StageChain(st, 0, LOOPS, e);
    assert Stage(st, 0, e) == st;
    ChainTrace(st, 0, LOOPS, e);
  }

  lemma {:induction false} PathTrace(ss: seq<State>, env: nat -> nat -> Env)
    requires Path(ss, env)
    ensures ss[0].trace <= End(ss).trace && End(ss).profiles == ss[0].profiles && Fit(End(ss))
    ensures |ss| > 1 ==> Steady(End(ss))
  {
    PathStep(ss, env);
    if |ss| > 1 {
      PathTrace(ss[1..], env);
      PrefixTrans(ss[0].trace, ss[1].trace, End(ss).trace);
    }
  }

  lemma SurvivesNext(ss: seq<State>, env: nat -> nat -> Env, j: nat) returns (k: nat)
    requires Path(ss, env) && |ss| > 1 && Sized(ss[0]) && j < ss[0].loaded && !ss[0].slots[j].remove
    ensures Sized(ss[1]) && Kin(ss[0], ss[1], j, k)
  {
    assert Visit(0);
    k := Survives(ss[0], env(|ss| - 1), j);
  }

  lemma {:induction false} SurvivesPath(ss: seq<State>, env: nat -> nat -> Env, j: nat) returns (i: nat)
    requires Path(ss, env) && Sized(ss[0]) && j < ss[0].loaded && !ss[0].slots[j].remove
    ensures Sized(End(ss)) && Kin(ss[0], End(ss), j, i)
  {
    i := j;
    if |ss| > 1 {
      PathStep(ss, env);
      var k := SurvivesNext(ss, env, j);
      i := SurvivesPath(ss[1..], env, k);
      assert ss[1].trace <= End(ss).trace by { PathTrace(ss[1..], env); }
      KinTrans(ss[0], ss[1], End(ss), j, k, i);
    }
  }

  /** Slot i of r holds the module of slot j of st, and it runs exactly when that module and its
      profile were switched on (or it was stopped to be restarted), unless its restarts ran out. */
  ghost predicate AsAsked(st: State, r: State, j: nat, i: nat)
    requires Sized(st) && Sized(r)
  {
    && j < st.loaded && i < r.loaded && r.slots[i].name == st.slots[j].name
    && (|| (Up(r.slots[i], r.os) <==> ProfileEnabled(st.profiles, st.slots[j]) && Intent(st.slots[j]))
        || AutoDisabledSince(st.trace, r.trace, st.slots[j].name))
  }

  /** Bounded convergence. Left alone for 3 + Bits(flagged) periods the supervisor has removed every
      flagged module, each module runs exactly when it and its profile are enabled, and every module
      that was not flagged is there and runs as it was asked to. */
  lemma Converges(st: State, n: nat, env: nat -> nat -> Env)
    requires Inv(st) && Unreaped(st) && ProfilelessOff(st) && CalmRun(st, n, env)
    requires n >= 3 + Bits(Flagged(Loaded(st)))
    ensures var r := Periods(st, n, env);
            && Flagged(Loaded(r)) == 0
            && (forall i :: 0 <= i < r.loaded ==> (Up(r.slots[i], r.os) <==> Wanted(r.profiles, r.slots[i])))
            && (forall i :: 0 <= i < r.loaded && !Wanted(r.profiles, r.slots[i]) ==> r.slots[i].pid <= 0)
            && (forall j: nat :: j < st.loaded && !st.slots[j].remove ==> exists i: nat :: AsAsked(st, r, j, i))
  {
    var ss := MakePath(st, n, env);
    NeedPath(ss, env);
    PathTrace(ss, env);
    var r := End(ss);
    forall j: nat | j < st.loaded && !st.slots[j].remove ensures exists i: nat :: AsAsked(st, r, j, i) {
      var i := SurvivesPath(ss, env, j);
      assert Pending(r.slots[i]) ==> r.slots[i].pid > 0;
      assert AsAsked(st, r, j, i);
    }
  }
}
