/** How long a module waits to be restarted. The removal pass passes over the
    neighbour of each module it removes, so the number of flagged modules directly
    before a waiting one decides in which period it is served. */
module Skipping {
  import opened Model
  import opened Kernel
  import opened Service
  import opened Invariants
  import opened Removal
  import opened Tracking
  import opened Restart
  import opened Stopping
  import opened Convergence
  import opened Settling

  // ----- One pass over a list -----

  /** The number of flagged modules directly before position j. */
  function Ahead(ms: seq<Module>, j: nat): (k: nat)
    requires j <= |ms|
    ensures k <= j
  {
    if j > 0 && ms[j - 1].remove then 1 + Ahead(ms, j - 1) else 0
  }

  /** How often a module with k flagged ones directly before it is passed over. */
  function Skips(k: nat): nat {
    if k % 2 == 0 then 0 else 1 + Skips(k / 2)
  }

  lemma {:induction false} AheadCons(x: Module, ms: seq<Module>, j: nat)
    requires j <= |ms|
    ensures Ahead([x] + ms, j + 1) == Ahead(ms, j) + if Ahead(ms, j) == j && x.remove then 1 else 0
  {
    if j > 0 {
      AheadCons(x, ms, j - 1);
    }
  }

  lemma {:induction false} AheadSame(a: seq<Module>, b: seq<Module>, j: nat)
    requires |a| == |b| && j <= |a| && forall i :: 0 <= i < |a| ==> a[i].remove == b[i].remove
    ensures Ahead(a, j) == Ahead(b, j)
  {
    if j > 0 {
      AheadSame(a, b, j - 1);
    }
  }

  /** Every flagged module is down, so the pass removes it unless it passes over it. */
  ghost predicate AllStopped(ms: seq<Module>) {
    forall i :: 0 <= i < |ms| && ms[i].remove ==> Removable(ms[i])
  }

  /** Position i after the pass holds the module of position j: served if an even number of flagged ones was directly
      before it. Half of them remain there. */
  predicate Lands(ms: seq<Module>, j: nat, ns: seq<Module>, i: nat) {
    && j < |ms| && i < |ns| && ns[i] == (if Ahead(ms, j) % 2 == 0 then Served(ms[j]) else ms[j])
    && Ahead(ns, i) == Ahead(ms, j) / 2 && (Ahead(ns, i) == i <==> Ahead(ms, j) == j)
  }

  /** Exactly who is served. */
  lemma {:induction false} SweptExactly(ms: seq<Module>, j: nat) returns (i: nat)
    requires j < |ms| && !ms[j].remove && AllStopped(ms)
    ensures Lands(ms, j, Swept(ms), i)
  {
    i := 0;
    if !Removable(ms[0]) {
      if j > 0 {
        var k := SweptExactly(ms[1..], j - 1);
        i := k + 1;
        LandsKept(ms, j, k);
      }
    } else if j > 1 {
      var k := SweptExactly(ms[2..], j - 2);
      i := k + 1;
      LandsSkipped(ms, j, k);
    }
  }

  lemma LandsKept(ms: seq<Module>, j: nat, k: nat)
    requires 0 < j < |ms| && !ms[0].remove && Lands(ms[1..], j - 1, Swept(ms[1..]), k)
    ensures Lands(ms, j, Swept(ms), k + 1)
  {
    assert ms == [ms[0]] + ms[1..] && Swept(ms) == [Served(ms[0])] + Swept(ms[1..]);
    AheadCons(ms[0], ms[1..], j - 1);
    AheadCons(Served(ms[0]), Swept(ms[1..]), k);
  }

  lemma LandsSkipped(ms: seq<Module>, j: nat, k: nat)
    requires 1 < j < |ms| && Removable(ms[0]) && Lands(ms[2..], j - 2, Swept(ms[2..]), k)
    ensures Lands(ms, j, Swept(ms), k + 1)
  {
    assert ms == [ms[0], ms[1]] + ms[2..] && Swept(ms) == [ms[1]] + Swept(ms[2..]);
    LandsBehind(ms[0], ms[1], ms[2..], j - 2, Swept(ms[2..]), k);
  }

  /** The flagged x in front is removed, and y behind it passed over. */
  lemma LandsBehind(x: Module, y: Module, ms: seq<Module>, j: nat, ns: seq<Module>, k: nat)
    requires x.remove && Lands(ms, j, ns, k)
    ensures Lands([x, y] + ms, j + 2, [y] + ns, k + 1)
  {
    var a, b := Ahead(ms, j), Ahead(ns, k);
    assert Ahead([x, y] + ms, j + 2) == if a == j && y.remove then a + 2 else a by {
      assert [x, y] + ms == [x] + ([y] + ms);
      AheadCons(y, ms, j);
      AheadCons(x, [y] + ms, j + 1);
    }
    assert Ahead([y] + ns, k + 1) == if b == k && y.remove then b + 1 else b by { AheadCons(y, ns, k); }
    assert (a + 2) / 2 == a / 2 + 1 && (a + 2) % 2 == a % 2;
  }

  // ----- One period -----

  /** A module that was stopped, or is being stopped, to be restarted. */
  predicate Waits(m: Module) {
    Pending(m) && !m.enabled
  }

  /** Before the removal pass the flagged modules and the module in slot j are down. */
  ghost predicate Cleared(s7: State, j: nat)
    requires Sized(s7)
  {
    forall i :: 0 <= i < s7.loaded && (s7.slots[i].remove || i == j) ==> !s7.slots[i].status
  }

  lemma ServedList(s7: State, e: Env)
    requires Sized(s7)
    ensures Loaded(Pass(Serve, s7, 0, e)) == Swept(Loaded(s7))
  {
    ServePass(s7, 0, e);
    assert s7.slots[0..s7.loaded] == Loaded(s7);
  }

  /** The slot a module that is not flagged has after the period, and what it holds there. */
  ghost predicate Follows7(s7: State, s8: State, r: State, j: nat, i: nat)
    requires Sized(s7)
  {
    && j < s7.loaded && i < r.loaded == s8.loaded && s8.loaded <= |s8.slots| && s8.loaded <= |r.slots|
    && (s8.slots[i] == s7.slots[j] || s8.slots[i] == Served(s7.slots[j]))
    && SameSwitches(s8.profiles, s8.slots[i], r.slots[i])
    && (if Serving(s7.profiles, s7.slots[j], s7.os) then Serving(r.profiles, r.slots[i], r.os) else r.slots[i].pid <= 0)
  }

  /** The removal pass and the rest of a calm period, for a module that serves or is dead. */
  ghost predicate Tail(s7: State, s8: State, r: State, e: nat -> Env, j: nat) {
    && Between(7, s7) && Between(8, s8) && s8 == Pass(Serve, s7, 0, e(7)) && r == Chain(s8, 8, LOOPS, e)
    && NoEperm(s7.os) && j < s7.loaded && ServesOrDead(s7.profiles, s7.slots[j], s7.os, e)
    && forall y: nat :: e(1).fork(y).Fork? ==> !e(1).fork(y).eperm
  }

  lemma TailOf(st: State, e: nat -> Env, j: nat, s1: State, s2: State, s7: State, s8: State, r: State)
    requires Inv(st) && Unreaped(st) && Calm(st, e) && ProfilelessOff(st)
    requires Landmarks(st, e, s1, s2, s7, s8, r) && s7 == Stage(st, 7, e) && j < st.loaded
    ensures Tail(s7, s8, r, e, j)
  {
    AllBefore(st, e, s1, s2, s7, s8, r);
  }

  lemma Follow(s7: State, s8: State, r: State, e: nat -> Env, j: nat, i: nat)
    requires Tail(s7, s8, r, e, j) && i < |Swept(Loaded(s7))|
    requires Swept(Loaded(s7))[i] == s7.slots[j] || Swept(Loaded(s7))[i] == Served(s7.slots[j])
    ensures s8.loaded == |Swept(Loaded(s7))| && s8.slots[i] == Swept(Loaded(s7))[i] && Follows7(s7, s8, r, j, i)
  {
    ServedList(s7, e(7));
    assert Loaded(s8)[i] == s8.slots[i];
    AfterServe(s7, s8, e, i, j);
    ChainSwitches(s8, 8, LOOPS, e, i);
  }

  lemma AheadAfter(s8: State, e: nat -> Env, i: nat)
    requires Sized(s8) && i <= s8.loaded
    ensures Ahead(Loaded(Chain(s8, 8, LOOPS, e)), i) == Ahead(Loaded(s8), i)
  {
    var r := Chain(s8, 8, LOOPS, e);
    forall x | 0 <= x < s8.loaded ensures s8.slots[x].remove == r.slots[x].remove {
      ChainSwitches(s8, 8, LOOPS, e, x);
    }
    AheadSame(Loaded(s8), Loaded(r), i);
  }

  lemma AheadBefore(st: State, e: nat -> Env, j: nat, s1: State, s2: State, s7: State, s8: State, r: State)
    requires Landmarks(st, e, s1, s2, s7, s8, r) && j <= st.loaded
    ensures s7.loaded == st.loaded && Ahead(Loaded(s7), j) == Ahead(Loaded(st), j)
  {
    FlaggedBefore(st, e, s1, s2, s7, s8, r);
    forall x | 0 <= x < st.loaded ensures s7.slots[x].remove == st.slots[x].remove {
      Switches7(st, e, x, s1, s2, s7, s8, r);
    }
    AheadSame(Loaded(st), Loaded(s7), j);
  }

  /** What a period whose removal pass finds everything stopped makes of a waiting module. */
  ghost predicate Round(st: State, r: State, j: nat, i: nat)
    requires Sized(st) && Sized(r) && j < st.loaded
  {
    && i < r.loaded && r.slots[i].name == st.slots[j].name && r.slots[i].profile == st.slots[j].profile && r.slots[i].pid <= 0
    && Ahead(Loaded(r), i) == Ahead(Loaded(st), j) / 2
    && (if Ahead(Loaded(st), j) % 2 == 0
        then r.slots[i].enabled && (ProfileEnabled(st.profiles, st.slots[j]) ==> r.slots[i].restartCnt == -1)
        else Waits(r.slots[i]))
  }

  lemma RoundRecord(profiles: seq<Profile>, m: Module, m7: Module, m8: Module, n: Module, even: bool)
    requires Waits(m) && SwitchedFrom(m, m7) && !m7.status && m8 == (if even then Served(m7) else m7)
    requires SameSwitches(profiles, m8, n)
    ensures n.name == m.name && n.profile == m.profile
    ensures if even then n.enabled && (ProfileEnabled(profiles, m) ==> n.restartCnt == -1) else Waits(n)
  {}

  lemma RoundPeriod(st: State, e: nat -> Env, j: nat) returns (i: nat)
    requires Inv(st) && Unreaped(st) && Calm(st, e) && ProfilelessOff(st) && j < st.loaded && Waits(st.slots[j])
    requires Cleared(Stage(st, 7, e), j)
    ensures Round(st, Period(st, e), j, i)
  {
    var s1, s2, s7, s8, r := FindLandmarks(st, e);
    assert s7.loaded == st.loaded && Ahead(Loaded(s7), j) == Ahead(Loaded(st), j) by { AheadBefore(st, e, j, s1, s2, s7, s8, r); }
    assert SwitchedFrom(st.slots[j], s7.slots[j]) by { Switches7(st, e, j, s1, s2, s7, s8, r); }
    TailOf(st, e, j, s1, s2, s7, s8, r);
    i := RoundTail(st, s7, s8, r, e, j);
  }

  lemma RoundTail(st: State, s7: State, s8: State, r: State, e: nat -> Env, j: nat) returns (i: nat)
    requires Sized(st) && Tail(s7, s8, r, e, j) && Cleared(s7, j) && j < st.loaded && Waits(st.slots[j])
    requires SwitchedFrom(st.slots[j], s7.slots[j]) && Ahead(Loaded(s7), j) == Ahead(Loaded(st), j)
    requires st.profiles == s8.profiles
    ensures Round(st, r, j, i)
  {
    i := RoundPass(s7, j);
    assert Follows7(s7, s8, r, j, i) && s8.slots[i] == Swept(Loaded(s7))[i] by { Follow(s7, s8, r, e, j, i); }
    assert Ahead(Loaded(r), i) == Ahead(Loaded(st), j) / 2 by {
      ServedList(s7, e(7));
      AheadAfter(s8, e, i);
    }
    RoundRecord(s8.profiles, st.slots[j], s7.slots[j], s8.slots[i], r.slots[i], Ahead(Loaded(st), j) % 2 == 0);
  }

  lemma RoundPass(s7: State, j: nat) returns (i: nat)
    requires SlotsOk(s7.slots, s7.loaded, |s7.profiles|) && j < s7.loaded && !s7.slots[j].remove && Cleared(s7, j)
    ensures Lands(Loaded(s7), j, Swept(Loaded(s7)), i)
  {
    assert forall x :: 0 <= x < s7.loaded ==> SlotOk(s7.slots[x], |s7.profiles|);
    i := SweptExactly(Loaded(s7), j);
  }

  /** Where a module that is not flagged is after the period. */
  lemma Followed(st: State, e: nat -> Env, j: nat, s1: State, s2: State, s7: State, s8: State, r: State) returns (i: nat)
    requires Inv(st) && Unreaped(st) && Calm(st, e) && ProfilelessOff(st)
    requires Landmarks(st, e, s1, s2, s7, s8, r) && s7 == Stage(st, 7, e) && j < st.loaded && !st.slots[j].remove
    ensures s7.loaded == st.loaded && SwitchedFrom(st.slots[j], s7.slots[j]) && Follows7(s7, s8, r, j, i)
  {
    Switches7(st, e, j, s1, s2, s7, s8, r);
    assert Loaded(s7)[j] == s7.slots[j];
    i := SweptTo(Loaded(s7), j);
    TailOf(st, e, j, s1, s2, s7, s8, r);
    Follow(s7, s8, r, e, j, i);
  }

  /** A wanted module that is up stays up. */
  lemma UpPeriod(st: State, e: nat -> Env, j: nat) returns (i: nat)
    requires Inv(st) && Unreaped(st) && Calm(st, e) && ProfilelessOff(st) && j < st.loaded
    requires Serving(st.profiles, st.slots[j], st.os)
    ensures var r := Period(st, e);
            i < r.loaded && r.slots[i].name == st.slots[j].name && Serving(r.profiles, r.slots[i], r.os)
  {
    var s1, s2, s7, s8, r := FindLandmarks(st, e);
    assert SlotOk(st.slots[j], |st.profiles|);
    i := Followed(st, e, j, s1, s2, s7, s8, r);
    UpBefore(st, e, j, s1, s2, s7, s8, r);
  }

  lemma UpNext(ss: seq<State>, env: nat -> nat -> Env, j: nat) returns (k: nat)
    requires Path(ss, env) && |ss| > 1 && Sized(ss[0]) && j < ss[0].loaded && Serving(ss[0].profiles, ss[0].slots[j], ss[0].os)
    ensures Sized(ss[1]) && k < ss[1].loaded && ss[1].slots[k].name == ss[0].slots[j].name
    ensures Serving(ss[1].profiles, ss[1].slots[k], ss[1].os)
  {
    assert Visit(0);
    k := UpPeriod(ss[0], env(|ss| - 1), j);
  }

  lemma {:induction false} UpPath(ss: seq<State>, env: nat -> nat -> Env, j: nat) returns (i: nat)
    requires Path(ss, env) && Sized(ss[0]) && j < ss[0].loaded && Serving(ss[0].profiles, ss[0].slots[j], ss[0].os)
    ensures Sized(End(ss)) && i < End(ss).loaded && End(ss).slots[i].name == ss[0].slots[j].name
    ensures Serving(End(ss).profiles, End(ss).slots[i], End(ss).os)
  {
    i := j;
    if |ss| > 1 {
      PathStep(ss, env);
      var k := UpNext(ss, env, j);
      i := UpPath(ss[1..], env, k);
    }
  }

  /** A module that was switched on again is started by the next period: its counter cannot be at the limit. */
  lemma StartPeriod(st: State, e: nat -> Env, j: nat) returns (i: nat)
    requires Inv(st) && Unreaped(st) && Calm(st, e) && ProfilelessOff(st) && j < st.loaded
    requires Wanted(st.profiles, st.slots[j]) && st.slots[j].pid <= 0 && st.slots[j].restartCnt == -1
    ensures var r := Period(st, e);
            i < r.loaded && r.slots[i].name == st.slots[j].name && Serving(r.profiles, r.slots[i], r.os)
  {
    var s1, s2, s7, s8, r := FindLandmarks(st, e);
    assert SlotOk(st.slots[j], |st.profiles|);
    i := Followed(st, e, j, s1, s2, s7, s8, r);
    assert Serving(s7.profiles, s7.slots[j], s7.os) by {
      StartBefore(st, e, j, s1, s2, s7, s8, r);
    }
  }

  // ----- Who is down in time for the removal pass -----

  lemma SteadyCleared(st: State, e: nat -> Env, j: nat)
    requires Inv(st) && Unreaped(st) && Calm(st, e) && Steady(st) && j < st.loaded && Waits(st.slots[j])
    ensures Cleared(Stage(st, 7, e), j)
  {
    var s1, s2, s7, s8, r := FindLandmarks(st, e);
    FlaggedBefore(st, e, s1, s2, s7, s8, r);
    AllDown(st, e, s1, s2, s7, s8, r);
    Switches7(st, e, j, s1, s2, s7, s8, r);
  }

  /** The process of slot i is gone, or ends when it receives SIGINT, before it is waited for. */
  ghost predicate Heeds(st: State, e: nat -> Env, i: nat)
    requires i < |st.slots|
  {
    Dead(st.slots[i], st.os) || st.slots[i].pid in e(3).dying(i)
  }

  lemma ReapDying(st: State, e: Env, i: nat)
    requires Inv(st) && Settled(st) && i < st.loaded && (st.slots[i].pid <= 0 || st.slots[i].pid in e.dying(i))
    ensures Dead(Pass(Reap, st, 0, e).slots[i], Pass(Reap, st, 0, e).os)
  {
    var m := st.slots[i];
    assert SettledSlot(m, st.os);
    var mid := PassAt(Reap, st, e, i);
    ReachingKeeps(Reap, st, 0, e, i);
    var s := ExitKeeps(mid, e.dying(i));
    assert OwnsPid(m, s.os);
  }

  /** Before SIGINT takes effect a module that should not run keeps its PID, unless it is found dead. */
  lemma PidBefore(st: State, e: nat -> Env, i: nat, s1: State, s2: State)
    requires Inv(st) && Between(1, s1) && s1 == Pass(Check, st, 0, e(0)) && s2 == Pass(Update, s1, 0, e(1))
    requires i < st.loaded && !Wanted(st.profiles, st.slots[i])
    ensures s2.slots[i].pid <= 0 || s2.slots[i].pid == st.slots[i].pid
  {
    var mid0 := PassAt(Check, st, e(0), i);
    PassSwitches(Check, st, e(0), i);
    var mid := PassAt(Update, s1, e(1), i);
    assert Decide(mid.profiles, mid.defaultLimit, Tick(mid.slots[i])).Leave?;
  }

  lemma HeedsNext(s3: State, e: nat -> Env, i: nat)
    requires Between(3, s3) && i < s3.loaded && (s3.slots[i].pid <= 0 || s3.slots[i].pid in e(3).dying(i))
    ensures Chain(s3, 3, 7, e).slots[i].pid <= 0
  {
    var s4 := Pass(Reap, s3, 0, e(3));
    assert Between(4, s4) by { BetweenStep(3, s3, e(3)); }
    assert Dead(s4.slots[i], s4.os) by { ReapDying(s3, e(3), i); }
    HeedsLast(s4, e, i);
    ChainStep(s3, 3, 7, e);
  }

  lemma HeedsLast(s4: State, e: nat -> Env, i: nat)
    requires Between(4, s4) && i < s4.loaded && Dead(s4.slots[i], s4.os)
    ensures Chain(s4, 4, 7, e).slots[i].pid <= 0
  {
    var s5 := Pass(Check, s4, 0, e(4));
    assert Between(5, s5) by { BetweenStep(4, s4, e(4)); }
    assert Dead(s5.slots[i], s5.os) && s5.slots[i].pid <= 0 by { DeadPass(Check, s4, e(4), i); }
    DeadChain(s5, 5, 7, e, i);
    ChainStep(s4, 4, 7, e);
  }

  lemma HeedsDown(st: State, e: nat -> Env, i: nat, s1: State, s2: State, s7: State, s8: State, r: State)
    requires Inv(st) && Calm(st, e) && Landmarks(st, e, s1, s2, s7, s8, r)
    requires i < st.loaded && !st.slots[i].enabled && Heeds(st, e, i)
    ensures s7.slots[i].pid <= 0
  {
    if Dead(st.slots[i], st.os) {
      DownBefore(st, e, i, s1, s2, s7, s8, r);
      Switches7(st, e, i, s1, s2, s7, s8, r);
    } else {
      PidBefore(st, e, i, s1, s2);
      var s3 := Pass(Sigint, s2, 0, e(2));
      assert Between(3, s3) by { BetweenStep(2, s2, e(2)); }
      PassPid(Sigint, s2, e(2), i);
      HeedsNext(s3, e, i);
      ChainStep(s2, 2, 7, e);
    }
  }

  /** Flagged modules, and modules that wait, end at SIGINT. */
  ghost predicate Prompt(st: State, e: nat -> Env)
    requires Sized(st)
  {
    forall i :: 0 <= i < st.loaded && (st.slots[i].remove || Waits(st.slots[i])) ==> Heeds(st, e, i)
  }

  lemma PromptCleared(st: State, e: nat -> Env, j: nat)
    requires Inv(st) && Unreaped(st) && Calm(st, e) && ProfilelessOff(st) && Prompt(st, e) && j < st.loaded && Waits(st.slots[j])
    ensures Cleared(Stage(st, 7, e), j)
  {
    var s1, s2, s7, s8, r := FindLandmarks(st, e);
    FlaggedBefore(st, e, s1, s2, s7, s8, r);
    forall i | 0 <= i < s7.loaded && (s7.slots[i].remove || i == j) ensures !s7.slots[i].status {
      Switches7(st, e, i, s1, s2, s7, s8, r);
      assert SlotOk(st.slots[i], |st.profiles|) && SettledSlot(s7.slots[i], s7.os);
      HeedsDown(st, e, i, s1, s2, s7, s8, r);
    }
  }

  // ----- Processes that only SIGKILL ends -----

  /** Between two status checks a slot keeps its status. */
  lemma {:induction false} StatusChain(s: State, k: nat, n: nat, e: nat -> Env, i: nat)
    requires Sized(s) && 5 <= k <= n <= 7 && i < s.loaded
    ensures Chain(s, k, n, e).slots[i].status == s.slots[i].status
    decreases n - k
  {
    if k < n {
      PassPid(Loop(k), s, e(k), i);
      StatusChain(Pass(Loop(k), s, 0, e(k)), k + 1, n, e, i);
    }
  }

  lemma UpPass(op: Op, st: State, e: Env, i: nat)
    requires Inv(st) && Settled(st) && i < st.loaded && (op == Update || op == Sigint || op == Reap)
    requires Up(st.slots[i], st.os) && forall y: nat :: st.slots[i].pid !in e.dying(y)
    ensures var r := Pass(op, st, 0, e);
            Up(r.slots[i], r.os) && r.slots[i].pid == st.slots[i].pid
  {
    assert SettledSlot(st.slots[i], st.os);
    PassUp(op, st, 0, e, st.slots[i].pid);
    if op == Update {
      var mid := PassAt(op, st, e, i);
      assert Decide(mid.profiles, mid.defaultLimit, Tick(mid.slots[i])).Leave?;
    } else {
      PassPid(op, st, e, i);
    }
  }

  /** Such a process still counts as running in the removal pass of the period that kills it. */
  lemma KilledLate(st: State, e: nat -> Env, i: nat, s1: State, s2: State, s7: State, s8: State, r: State)
    requires Inv(st) && Calm(st, e) && Landmarks(st, e, s1, s2, s7, s8, r) && i < st.loaded
    requires Up(st.slots[i], st.os) && StaysUp(e, st.slots[i].pid)
    ensures s7.slots[i].status
  {
    UpdateNoEperm(st, e, s1, s2);
    CheckUp(st, e(0), i);
    UpPass(Update, s1, e(1), i);
    KilledNext(s2, e, i);
  }

  lemma KilledNext(s2: State, e: nat -> Env, i: nat)
    requires Between(2, s2) && i < s2.loaded && NoEperm(s2.os)
    requires Up(s2.slots[i], s2.os) && StaysUp(e, s2.slots[i].pid)
    ensures Chain(s2, 2, 7, e).slots[i].status
  {
    var s3 := Pass(Sigint, s2, 0, e(2));
    assert Between(3, s3) by { BetweenStep(2, s2, e(2)); }
    UpPass(Sigint, s2, e(2), i);
    PassNoEperm(Sigint, s2, 0, e(2));
    KilledLast(s3, e, i);
    ChainStep(s2, 2, 7, e);
  }

  lemma KilledLast(s3: State, e: nat -> Env, i: nat)
    requires Between(3, s3) && i < s3.loaded && NoEperm(s3.os)
    requires Up(s3.slots[i], s3.os) && StaysUp(e, s3.slots[i].pid)
    ensures Chain(s3, 3, 7, e).slots[i].status
  {
    var s4 := Pass(Reap, s3, 0, e(3));
    UpPass(Reap, s3, e(3), i);
    PassNoEperm(Reap, s3, 0, e(3));
    CheckedLast(s4, e, i);
    ChainStep(s3, 3, 7, e);
  }

  lemma CheckedLast(s4: State, e: nat -> Env, i: nat)
    requires Sized(s4) && i < s4.loaded && NoEperm(s4.os) && Up(s4.slots[i], s4.os) && StaysUp(e, s4.slots[i].pid)
    ensures Chain(s4, 4, 7, e).slots[i].status
  {
    var s5 := Pass(Check, s4, 0, e(4));
    assert s5.slots[i].status by { CheckUp(s4, e(4), i); }
    StatusChain(s5, 5, 7, e, i);
    ChainStep(s4, 4, 7, e);
  }

  /** Flagged modules, and modules that wait, run until SIGKILL. */
  ghost predicate Stubborn(st: State, e: nat -> Env)
    requires Sized(st)
  {
    forall i :: 0 <= i < st.loaded && (st.slots[i].remove || Waits(st.slots[i]))
      ==> Up(st.slots[i], st.os) && StaysUp(e, st.slots[i].pid)
  }

  lemma {:induction false} AllRunning(ms: seq<Module>)
    requires forall i :: 0 <= i < |ms| && ms[i].remove ==> ms[i].status
    ensures Backlog(ms) == 0
  {
    if ms != [] {
      AllRunning(ms[1..]);
    }
  }

  /** The first period kills them, too late for its removal pass, which leaves every slot in place. */
  lemma StubbornPeriod(st: State, e: nat -> Env, j: nat)
    requires Inv(st) && Unreaped(st) && Calm(st, e) && ProfilelessOff(st) && Stubborn(st, e)
    requires j < st.loaded && Waits(st.slots[j])
    ensures var r := Period(st, e);
            && j < r.loaded && r.slots[j].name == st.slots[j].name && r.slots[j].profile == st.slots[j].profile
            && Waits(r.slots[j]) && r.slots[j].pid <= 0 && Ahead(Loaded(r), j) == Ahead(Loaded(st), j)
  {
    var s1, s2, s7, s8, r := FindLandmarks(st, e);
    AheadBefore(st, e, j, s1, s2, s7, s8, r);
    assert Backlog(Loaded(s7)) == 0 && s7.slots[j].status by { StubbornBefore(st, e, j, s1, s2, s7, s8, r); }
    assert SwitchedFrom(st.slots[j], s7.slots[j]) by { Switches7(st, e, j, s1, s2, s7, s8, r); }
    SweptStill(Loaded(s7));
    TailOf(st, e, j, s1, s2, s7, s8, r);
    Follow(s7, s8, r, e, j, j);
    assert Ahead(Loaded(r), j) == Ahead(Loaded(s7), j) by { AheadStill(s7, s8, e, j); }
    StillWaits(s8.profiles, st.slots[j], s7.slots[j], s8.slots[j], r.slots[j]);
  }

  lemma StubbornBefore(st: State, e: nat -> Env, j: nat, s1: State, s2: State, s7: State, s8: State, r: State)
    requires Inv(st) && Calm(st, e) && Stubborn(st, e) && Landmarks(st, e, s1, s2, s7, s8, r)
    requires j < st.loaded == s7.loaded && Waits(st.slots[j])
    ensures Backlog(Loaded(s7)) == 0 && s7.slots[j].status
  {
    forall i | 0 <= i < s7.loaded && (s7.slots[i].remove || i == j) ensures s7.slots[i].status {
      Switches7(st, e, i, s1, s2, s7, s8, r);
      KilledLate(st, e, i, s1, s2, s7, s8, r);
    }
    AllRunning(Loaded(s7));
  }

  lemma {:induction false} SweptStill(ms: seq<Module>)
    requires Backlog(ms) == 0
    ensures |Swept(ms)| == |ms| && forall i :: 0 <= i < |ms| ==> Swept(ms)[i] == Served(ms[i])
  {
    if ms != [] {
      SweptStill(ms[1..]);
    }
  }

  lemma AheadStill(s7: State, s8: State, e: nat -> Env, j: nat)
    requires Sized(s7) && s8 == Pass(Serve, s7, 0, e(7)) && j < s7.loaded && Backlog(Loaded(s7)) == 0
    ensures s8.loaded == s7.loaded && Ahead(Loaded(Chain(s8, 8, LOOPS, e)), j) == Ahead(Loaded(s7), j)
  {
    ServedList(s7, e(7));
    SweptStill(Loaded(s7));
    AheadSame(Loaded(s7), Loaded(s8), j);
    AheadAfter(s8, e, j);
  }

  lemma StillWaits(profiles: seq<Profile>, m: Module, m7: Module, m8: Module, n: Module)
    requires Waits(m) && SwitchedFrom(m, m7) && m7.status && m8 == Served(m7) && SameSwitches(profiles, m8, n)
    ensures Waits(n) && n.name == m.name && n.profile == m.profile
  {}

  // ----- Exactly when a waiting module is up again -----

  /** Slot i of r holds the module of slot j of st, and it is up exactly if `up`. */
  ghost predicate UpIff(st: State, r: State, j: nat, i: nat, up: bool)
    requires Sized(st) && Sized(r)
  {
    j < st.loaded && i < r.loaded && r.slots[i].name == st.slots[j].name && (Up(r.slots[i], r.os) <==> up)
  }

  /** What is left of the way of a module that a period has served or passed over: it is passed over Skips(k) times
      in all, served, and started in the period after that. */
  lemma {:induction false} RoundsExactly(st: State, ss: seq<State>, env: nat -> nat -> Env, j: nat, k: nat) returns (i: nat)
    requires Sized(st) && Path(ss, env) && Sized(ss[0]) && Steady(ss[0]) && ss[0].profiles == st.profiles
    requires j < st.loaded && ProfileEnabled(st.profiles, st.slots[j]) && Round(st, ss[0], j, k)
    ensures Sized(End(ss)) && UpIff(st, End(ss), j, i, |ss| >= 2 + Skips(Ahead(Loaded(st), j)))
    decreases |ss|, 2
  {
    var a := Ahead(Loaded(st), j);
    if a % 2 == 1 {
      i := SteadyPath(ss, env, k);
      UpVia(st, ss[0], End(ss), j, k, i, |ss| > 2 + Skips(a / 2));
    } else {
      i := StartedPath(ss, env, k);
      UpVia(st, ss[0], End(ss), j, k, i, |ss| > 1);
    }
  }

  lemma UpVia(st: State, s: State, r: State, j: nat, k: nat, i: nat, up: bool)
    requires Sized(st) && Sized(s) && Sized(r) && j < st.loaded && UpIff(s, r, k, i, up) && s.slots[k].name == st.slots[j].name
    ensures UpIff(st, r, j, i, up)
  {}

  lemma StartNext(ss: seq<State>, env: nat -> nat -> Env, j: nat) returns (k: nat)
    requires Path(ss, env) && |ss| > 1 && Sized(ss[0]) && j < ss[0].loaded
    requires Wanted(ss[0].profiles, ss[0].slots[j]) && ss[0].slots[j].pid <= 0 && ss[0].slots[j].restartCnt == -1
    ensures Sized(ss[1]) && k < ss[1].loaded && ss[1].slots[k].name == ss[0].slots[j].name
    ensures Serving(ss[1].profiles, ss[1].slots[k], ss[1].os)
  {
    assert Visit(0);
    k := StartPeriod(ss[0], env(|ss| - 1), j);
  }

  lemma StartedPath(ss: seq<State>, env: nat -> nat -> Env, j: nat) returns (i: nat)
    requires Path(ss, env) && Sized(ss[0]) && j < ss[0].loaded
    requires Wanted(ss[0].profiles, ss[0].slots[j]) && ss[0].slots[j].pid <= 0 && ss[0].slots[j].restartCnt == -1
    ensures Sized(End(ss)) && UpIff(ss[0], End(ss), j, i, |ss| > 1)
  {
    i := j;
    if |ss| > 1 {
      PathStep(ss, env);
      var k := StartNext(ss, env, j);
      i := UpPath(ss[1..], env, k);
    }
  }

  /** The first period finds everything stopped before its removal pass. */
  ghost predicate FirstClears(ss: seq<State>, env: nat -> nat -> Env, j: nat)
    requires |ss| > 1 && Sized(ss[0])
  {
    Cleared(Stage(ss[0], 7, env(|ss| - 1)), j)
  }

  lemma RoundNext(ss: seq<State>, env: nat -> nat -> Env, j: nat) returns (k: nat)
    requires Path(ss, env) && |ss| > 1 && Sized(ss[0]) && j < ss[0].loaded && Waits(ss[0].slots[j]) && FirstClears(ss, env, j)
    ensures Sized(ss[1]) && Round(ss[0], ss[1], j, k)
  {
    assert Visit(0);
    k := RoundPeriod(ss[0], env(|ss| - 1), j);
  }

  lemma SteadyClears(ss: seq<State>, env: nat -> nat -> Env, j: nat)
    requires Path(ss, env) && |ss| > 1 && Sized(ss[0]) && Steady(ss[0]) && j < ss[0].loaded && Waits(ss[0].slots[j])
    ensures FirstClears(ss, env, j)
  {
    assert Visit(0);
    SteadyCleared(ss[0], env(|ss| - 1), j);
  }

  lemma {:induction false} SteadyPath(ss: seq<State>, env: nat -> nat -> Env, j: nat) returns (i: nat)
    requires Path(ss, env) && Sized(ss[0]) && Steady(ss[0])
    requires j < ss[0].loaded && Waits(ss[0].slots[j]) && ProfileEnabled(ss[0].profiles, ss[0].slots[j])
    ensures Sized(End(ss)) && UpIff(ss[0], End(ss), j, i, |ss| > 2 + Skips(Ahead(Loaded(ss[0]), j)))
    decreases |ss|, 1
  {
    i := j;
    if |ss| > 1 {
      SteadyClears(ss, env, j);
      i := ClearedPath(ss, env, j);
    }
  }

  lemma ClearedPath(ss: seq<State>, env: nat -> nat -> Env, j: nat) returns (i: nat)
    requires Path(ss, env) && |ss| > 1 && Sized(ss[0]) && FirstClears(ss, env, j)
    requires j < ss[0].loaded && Waits(ss[0].slots[j]) && ProfileEnabled(ss[0].profiles, ss[0].slots[j])
    ensures Sized(End(ss)) && UpIff(ss[0], End(ss), j, i, |ss| > 2 + Skips(Ahead(Loaded(ss[0]), j)))
    decreases |ss|, 0
  {
    PathStep(ss, env);
    var k := RoundNext(ss, env, j);
    i := RoundsExactly(ss[0], ss[1..], env, j, k);
  }

  /** From a steady state, with k flagged modules directly before it: in period 2 + Skips(k). */
  lemma SteadyExactly(st: State, n: nat, env: nat -> nat -> Env, j: nat) returns (i: nat)
    requires Inv(st) && Unreaped(st) && ProfilelessOff(st) && CalmRun(st, n, env) && Steady(st)
    requires j < st.loaded && Waits(st.slots[j]) && ProfileEnabled(st.profiles, st.slots[j])
    ensures UpIff(st, Periods(st, n, env), j, i, n >= 2 + Skips(Ahead(Loaded(st), j)))
  {
    var ss := MakePath(st, n, env);
    i := SteadyPath(ss, env, j);
  }

  /** If flagged and waiting modules end at SIGINT: in period 2 + Skips(k). */
  lemma PromptExactly(st: State, n: nat, env: nat -> nat -> Env, j: nat) returns (i: nat)
    requires Inv(st) && Unreaped(st) && ProfilelessOff(st) && n > 0 && CalmRun(st, n, env) && Prompt(st, env(n))
    requires j < st.loaded && Waits(st.slots[j]) && ProfileEnabled(st.profiles, st.slots[j])
    ensures UpIff(st, Periods(st, n, env), j, i, n >= 2 + Skips(Ahead(Loaded(st), j)))
  {
    var ss := MakePath(st, n, env);
    assert FirstClears(ss, env, j) by { PromptCleared(st, env(n), j); }
    i := ClearedPath(ss, env, j);
  }

  lemma StubbornNext(ss: seq<State>, env: nat -> nat -> Env, j: nat)
    requires Path(ss, env) && |ss| > 1 && Sized(ss[0]) && Stubborn(ss[0], env(|ss| - 1))
    requires j < ss[0].loaded && Waits(ss[0].slots[j])
    ensures var s, r := ss[0], ss[1];
            && Sized(r) && j < r.loaded && r.slots[j].name == s.slots[j].name && r.slots[j].profile == s.slots[j].profile
            && Waits(r.slots[j]) && Ahead(Loaded(r), j) == Ahead(Loaded(s), j)
  {
    assert Visit(0);
    StubbornPeriod(ss[0], env(|ss| - 1), j);
  }

  /** If they end only by SIGKILL: in period 3 + Skips(k). */
  lemma StubbornExactly(st: State, n: nat, env: nat -> nat -> Env, j: nat) returns (i: nat)
    requires Inv(st) && Unreaped(st) && ProfilelessOff(st) && n > 0 && CalmRun(st, n, env) && Stubborn(st, env(n))
    requires j < st.loaded && Waits(st.slots[j]) && ProfileEnabled(st.profiles, st.slots[j])
    ensures UpIff(st, Periods(st, n, env), j, i, n >= 3 + Skips(Ahead(Loaded(st), j)))
  {
    var ss := MakePath(st, n, env);
    i := StubbornPath(ss, env, j);
  }

  lemma StubbornPath(ss: seq<State>, env: nat -> nat -> Env, j: nat) returns (i: nat)
    requires Path(ss, env) && |ss| > 1 && Sized(ss[0]) && Stubborn(ss[0], env(|ss| - 1))
    requires j < ss[0].loaded && Waits(ss[0].slots[j]) && ProfileEnabled(ss[0].profiles, ss[0].slots[j])
    ensures Sized(End(ss)) && UpIff(ss[0], End(ss), j, i, |ss| > 3 + Skips(Ahead(Loaded(ss[0]), j)))
  {
    PathStep(ss, env);
    StubbornNext(ss, env, j);
    i := SteadyPath(ss[1..], env, j);
  }

  // ----- Any calm kernel -----

  lemma WaitsRecord(profiles: seq<Profile>, m: Module, m7: Module, m8: Module, n: Module)
    requires Waits(m) && SwitchedFrom(m, m7) && (m8 == m7 || m8 == Served(m7)) && SameSwitches(profiles, m8, n)
    ensures n.name == m.name && n.profile == m.profile
    ensures Waits(n) || (n.enabled && (ProfileEnabled(profiles, m) ==> n.restartCnt == -1))
  {}

  /** Whatever its process does, one period leaves a waiting module down: waiting, or switched on again. */
  lemma WaitsPeriod(st: State, e: nat -> Env, j: nat) returns (k: nat)
    requires Inv(st) && Unreaped(st) && Calm(st, e) && ProfilelessOff(st) && j < st.loaded && Waits(st.slots[j])
    ensures var r := Period(st, e);
            && k < r.loaded && r.slots[k].name == st.slots[j].name && r.slots[k].profile == st.slots[j].profile
            && r.slots[k].pid <= 0
            && (Waits(r.slots[k]) || (r.slots[k].enabled && (ProfileEnabled(st.profiles, st.slots[j]) ==> r.slots[k].restartCnt == -1)))
  {
    var s1, s2, s7, s8, r := FindLandmarks(st, e);
    k := Followed(st, e, j, s1, s2, s7, s8, r);
    WaitsRecord(s8.profiles, st.slots[j], s7.slots[j], s8.slots[k], r.slots[k]);
  }

  lemma WaitsNext(ss: seq<State>, env: nat -> nat -> Env, j: nat) returns (k: nat)
    requires Path(ss, env) && |ss| > 1 && Sized(ss[0]) && j < ss[0].loaded && Waits(ss[0].slots[j])
    ensures var s, r := ss[0], ss[1];
            && Sized(r) && k < r.loaded && r.slots[k].name == s.slots[j].name && r.slots[k].profile == s.slots[j].profile
            && r.slots[k].pid <= 0
            && (Waits(r.slots[k]) || (r.slots[k].enabled && (ProfileEnabled(s.profiles, s.slots[j]) ==> r.slots[k].restartCnt == -1)))
  {
    assert Visit(0);
    k := WaitsPeriod(ss[0], env(|ss| - 1), j);
  }

  /** The first period decides: a module it has not served waits 2 + Skips(k) periods more, k flagged ones directly
      before it; one it has served is started by the next. */
  lemma AnyPath(ss: seq<State>, env: nat -> nat -> Env, j: nat) returns (k: nat, i: nat)
    requires Path(ss, env) && |ss| > 1 && Sized(ss[0])
    requires j < ss[0].loaded && Waits(ss[0].slots[j]) && ProfileEnabled(ss[0].profiles, ss[0].slots[j])
    ensures Sized(ss[1]) && Sized(End(ss)) && k < ss[1].loaded && ss[1].slots[k].name == ss[0].slots[j].name
    ensures UpIff(ss[0], End(ss), j, i, if Waits(ss[1].slots[k]) then |ss| > 3 + Skips(Ahead(Loaded(ss[1]), k)) else |ss| > 2)
  {
    PathStep(ss, env);
    k := WaitsNext(ss, env, j);
    if Waits(ss[1].slots[k]) {
      i := SteadyPath(ss[1..], env, k);
    } else {
      i := StartedPath(ss[1..], env, k);
    }
  }
}
