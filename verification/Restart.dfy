/** How often a module may be restarted. */
module Restart {
  import opened Model
  import opened Kernel
  import opened Service
  import opened Invariants
  import opened Tracking

  predicate IsStart(e: Event, name: string) {
    (e.Forked? || e.ForkFailed?) && e.name == name
  }

  /** The number of times a module was started (whether or not fork succeeded). */
  function Starts(trace: seq<Event>, name: string): nat {
    if trace == [] then 0
    else Starts(trace[..|trace| - 1], name) + if IsStart(trace[|trace| - 1], name) then 1 else 0
  }

  lemma StartsAppend(t: seq<Event>, e: Event, name: string)
    ensures Starts(t + [e], name) == Starts(t, name) + if IsStart(e, name) then 1 else 0
  {
    assert (t + [e])[..|t|] == t;
  }

  predicate Due(st: State, m: Module, name: string) {
    m.name == name && Decide(st.profiles, st.defaultLimit, Tick(m)).Start?
  }

  lemma UpdateTrace(st: State, x: nat, f: ForkOutcome, name: string)
    requires x < |st.slots|
    ensures var t := UpdateSlot(st, x, f).trace;
            t == st.trace
            || exists ev :: t == st.trace + [ev] && (IsStart(ev, name) <==> Due(st, st.slots[x], name))
    ensures UpdateSlot(st, x, f).trace == st.trace ==> !Due(st, st.slots[x], name)
  {
    var t := UpdateSlot(st, x, f).trace;
    match Decide(st.profiles, st.defaultLimit, Tick(st.slots[x]))
    case Leave =>
    case Disable =>
      assert t == st.trace + [t[|st.trace|]];
    case Start =>
      assert t == st.trace + [t[|st.trace|]];
  }

  lemma OtherTrace(op: Op, st: State, x: nat, e: Env, name: string)
    requires x < st.loaded <= |st.slots| && op != Update
    ensures var t := Slot(op, st, x, e).trace;
            t == st.trace || exists ev :: t == st.trace + [ev] && !IsStart(ev, name)
  {
    var t := Slot(op, st, x, e).trace;
    if t != st.trace {
      assert t == st.trace + [t[|st.trace|]];
    }
  }

  lemma SlotStarts(op: Op, st: State, x: nat, e: Env, name: string)
    requires x < st.loaded <= |st.slots|
    ensures Starts(Slot(op, st, x, e).trace, name)
         == Starts(st.trace, name) + if op == Update && Due(st, st.slots[x], name) then 1 else 0
  {
    var t := Slot(op, st, x, e).trace;
    if op == Update {
      UpdateTrace(st.(os := Exit(st.os, e.dying(x))), x, e.fork(x), name);
    } else {
      OtherTrace(op, st, x, e, name);
    }
    if t != st.trace {
      StartsAppend(st.trace, t[|st.trace|], name);
    }
  }

  lemma {:induction false} PassNoStarts(op: Op, st: State, x: nat, e: Env, name: string)
    requires Sized(st)
    requires op == Update ==> forall j :: x <= j < st.loaded ==> !Due(st, st.slots[j], name)
    ensures Starts(Pass(op, st, x, e).trace, name) == Starts(st.trace, name)
    decreases st.loaded - x
  {
    if x < st.loaded {
      SlotStarts(op, st, x, e, name);
      if op == Update {
        SlotOthers(op, st, x, e);
      }
      PassNoStarts(op, Slot(op, st, x, e), x + 1, e, name);
    }
  }

  lemma {:induction false} PassOneStart(st: State, x: nat, e: Env, i: nat, name: string)
    requires Sized(st) && x <= i < st.loaded && st.slots[i].name == name
    requires forall j :: x <= j < st.loaded && j != i ==> st.slots[j].name != name
    ensures Starts(Pass(Update, st, x, e).trace, name)
         == Starts(st.trace, name) + if Due(st, st.slots[i], name) then 1 else 0
    decreases st.loaded - x
  {
    var s := Slot(Update, st, x, e);
    SlotStarts(Update, st, x, e, name);
    SlotOthers(Update, st, x, e);
    if x == i {
      PassNoStarts(Update, s, x + 1, e, name);
    } else {
      PassOneStart(s, x + 1, e, i, name);
    }
  }

  lemma {:induction false} StageStarts(st: State, k: nat, e: nat -> Env, name: string)
    requires Sized(st) && k <= LOOPS
    ensures k <= 1 ==> Starts(Stage(st, k, e).trace, name) == Starts(st.trace, name)
    ensures k >= 2 ==> Starts(Stage(st, k, e).trace, name) == Starts(Stage(st, 2, e).trace, name)
  {
    if k > 0 {
      StageStarts(st, k - 1, e, name);
      if k != 2 {
        PassNoStarts(Loop(k - 1), Stage(st, k - 1, e), 0, e(k - 1), name);
      }
    }
  }

  lemma Unrolled(st: State, e: nat -> Env)
    requires Sized(st)
    ensures Stage(st, 1, e) == Pass(Check, st, 0, e(0))
    ensures Stage(st, 2, e) == Pass(Update, Stage(st, 1, e), 0, e(1))
  {
    assert Stage(st, 0, e) == st;
  }

  predicate Pending(m: Module) {
    m.init && !m.served && !m.remove
  }

  /** A module that nothing but a user or a reload can bring back. */
  ghost predicate Dormant(st: State, name: string)
    requires Sized(st)
  {
    forall i :: 0 <= i < st.loaded && st.slots[i].name == name
      ==> !Wanted(st.profiles, st.slots[i]) && !Pending(st.slots[i])
  }

  /** The update loop on a module that is not pending a restart. */
  predicate Updated(st: State, m: Module, n: Module) {
    && n.name == m.name && n.profile == m.profile && n.init == m.init && n.served == m.served
    && n.remove == m.remove && n.maxRestarts == m.maxRestarts
    && n.enabled == (m.enabled && !Decide(st.profiles, st.defaultLimit, Tick(m)).Disable?)
    && n.restartCnt == Tick(m).restartCnt + (if Decide(st.profiles, st.defaultLimit, Tick(m)).Start? then 1 else 0)
    && 0 <= n.restartTimer <= Tick(m).restartTimer
  }

  lemma UpdateTracks(st: State, e: Env, i: nat)
    requires Inv(st) && i < st.loaded
    ensures Updated(st, st.slots[i], Pass(Update, st, 0, e).slots[i])
  {
    var mid := PassAt(Update, st, e, i);
    assert SlotOk(st.slots[i], |st.profiles|);
    UpdateSlotTracks(mid.(os := Exit(mid.os, e.dying(i))), i, e.fork(i));
  }

  lemma UpdateSlotTracks(st: State, x: nat, f: ForkOutcome)
    requires x < |st.slots| && SlotOk(st.slots[x], |st.profiles|)
    ensures Updated(st, st.slots[x], UpdateSlot(st, x, f).slots[x])
  {
    match Decide(st.profiles, st.defaultLimit, Tick(st.slots[x]))
    case Leave =>
    case Disable =>
    case Start =>
  }

  /** The module of slot i of the result, followed from before the update loop to the end of the period. */
  lemma PeriodTracks(st: State, e: nat -> Env, i: nat) returns (j: nat, u: Module)
    requires Inv(st) && Unreaped(st) && i < Period(st, e).loaded
    ensures j < st.loaded
    ensures SameSwitches(st.profiles, st.slots[j], Stage(st, 1, e).slots[j])
    ensures Updated(Stage(st, 1, e), Stage(st, 1, e).slots[j], u)
    ensures var n := Period(st, e).slots[i];
            n.name == st.slots[j].name && n.profile == u.profile && n.maxRestarts == u.maxRestarts
            && n.restartTimer == u.restartTimer
            && (!Pending(u) ==> !Pending(n) && n.enabled == u.enabled && (n.restartCnt == u.restartCnt || Unwanted(st.profiles, u)))
  {
    Unrolled(st, e);
    StageKeeps(st, 1, e);
    j := ServedFrom(st, e, i);
    PassSwitches(Check, st, e(0), j);
    u := Stage(st, 2, e).slots[j];
    UpdateTracks(Stage(st, 1, e), e(1), j);
    StageSwitches(st, 7, e, 2, j);
    StageSwitches(st, LOOPS, e, 8, i);
  }

  lemma DormantPeriod(st: State, e: nat -> Env, name: string)
    requires Inv(st) && Unreaped(st) && Dormant(st, name)
    ensures Starts(Period(st, e).trace, name) == Starts(st.trace, name)
    ensures Dormant(Period(st, e), name)
  {
    var s := Stage(st, 1, e);
    Unrolled(st, e);
    forall j | 0 <= j < s.loaded ensures !Due(s, s.slots[j], name) {
      PassSwitches(Check, st, e(0), j);
    }
    PassNoStarts(Update, s, 0, e(1), name);
    StageStarts(st, 1, e, name);
    StageStarts(st, LOOPS, e, name);
    var r := Period(st, e);
    forall i | 0 <= i < r.loaded && r.slots[i].name == name
      ensures !Wanted(r.profiles, r.slots[i]) && !Pending(r.slots[i]) {
      var j, u := PeriodTracks(st, e, i);
    }
  }

  function Times(limit: nat, k: nat): nat {
    if k == 0 then 0 else limit + Times(limit, k - 1)
  }

  /** The restarts a module has left in n periods: what its counter allows, and one full
      allowance for every time the window can start again. */
  function Allowance(limit: nat, cnt: int, timer: int, n: nat): int {
    limit - cnt + Times(limit, if timer < 0 then 0 else (n + timer) / PERIODS)
  }

  lemma {:induction false} TimesGrows(limit: nat, j: nat, k: nat)
    requires j <= k
    ensures Times(limit, j) <= Times(limit, k)
    decreases k
  {
    if j < k {
      TimesGrows(limit, j, k - 1);
    }
  }

  /** One period spends what it uses. */
  lemma AllowanceStep(limit: nat, m: Module, u: Module, start: bool, n: nat)
    requires n > 0 && -1 <= m.restartCnt <= limit && 0 <= m.restartTimer < PERIODS
    requires u.restartCnt == Tick(m).restartCnt + (if start then 1 else 0)
    requires 0 <= u.restartTimer <= Tick(m).restartTimer
    ensures Allowance(limit, u.restartCnt, u.restartTimer, n - 1) + (if start then 1 else 0)
         <= Allowance(limit, m.restartCnt, m.restartTimer, n)
  {
    var q := (n + m.restartTimer) / PERIODS;
    var q' := (n - 1 + u.restartTimer) / PERIODS;
    if m.restartTimer + 1 >= PERIODS {
      assert q' == q - 1;
    } else {
      TimesGrows(limit, q', q);
    }
  }

  /** A module that may run: index, limit and window. */
  predicate Active(st: State, i: nat, name: string, limit: nat)
    requires Sized(st)
  {
    i < st.loaded && st.slots[i].name == name && Wanted(st.profiles, st.slots[i]) && !Pending(st.slots[i])
    && Limit(st.defaultLimit, st.slots[i]) == limit && -1 <= st.slots[i].restartCnt <= limit
  }

  lemma ActivePeriod(st: State, e: nat -> Env, i: nat, name: string, limit: nat, n: nat) returns (i': nat)
    requires Inv(st) && Unreaped(st) && Active(st, i, name, limit) && n > 0
    ensures var r := Period(st, e);
            var m := st.slots[i];
            var d := Starts(r.trace, name) - Starts(st.trace, name);
            if Dormant(r, name) then d <= Allowance(limit, m.restartCnt, m.restartTimer, n)
            else (&& Active(r, i', name, limit)
                  && Allowance(limit, r.slots[i'].restartCnt, r.slots[i'].restartTimer, n - 1) + d
                     <= Allowance(limit, m.restartCnt, m.restartTimer, n))
  {
    var m := st.slots[i];
    var r := Period(st, e);
    var start, u0 := ActiveStarts(st, e, i, name, limit);
    if Dormant(r, name) {
      i' := 0;
      AllowanceStep(limit, m, u0, start, n);
    } else {
      i' :| 0 <= i' < r.loaded && r.slots[i'].name == name
            && (Wanted(r.profiles, r.slots[i']) || Pending(r.slots[i']));
      var j, u := PeriodTracks(st, e, i');
      ActiveSame(st, e, i, j, name, limit);
      AllowanceStep(limit, m, u, start, n);
    }
  }

  /** What the update loop makes of an active module: one start at most, counted. */
  lemma ActiveStarts(st: State, e: nat -> Env, i: nat, name: string, limit: nat) returns (start: bool, u: Module)
    requires Inv(st) && Unreaped(st) && Active(st, i, name, limit)
    ensures Starts(Period(st, e).trace, name) == Starts(st.trace, name) + if start then 1 else 0
    ensures 0 <= st.slots[i].restartTimer < PERIODS
    ensures start <==> Decide(st.profiles, st.defaultLimit, Tick(Stage(st, 1, e).slots[i])).Start?
    ensures u.restartCnt == Tick(st.slots[i]).restartCnt + (if start then 1 else 0) <= limit
    ensures 0 <= u.restartTimer <= Tick(st.slots[i]).restartTimer
  {
    var s := Stage(st, 1, e);
    start := Decide(s.profiles, s.defaultLimit, Tick(s.slots[i])).Start?;
    u := Stage(st, 2, e).slots[i];
    PeriodStarts(st, e, i);
    assert SlotOk(st.slots[i], |st.profiles|);
    assert SameSwitches(st.profiles, st.slots[i], s.slots[i]) by {
      Unrolled(st, e);
      PassSwitches(Check, st, e(0), i);
    }
    assert Updated(s, s.slots[i], u) by {
      Unrolled(st, e);
      StageKeeps(st, 1, e);
      UpdateTracks(s, e(1), i);
    }
    WithinLimit(s.profiles, s.defaultLimit, st.slots[i], s.slots[i], limit);
  }

  /** The limit is tested for equality before each start, so the counter never passes it. */
  lemma WithinLimit(profiles: seq<Profile>, defaultLimit: int, m: Module, n: Module, limit: nat)
    requires SameSwitches(profiles, m, n) && Wanted(profiles, m)
    requires Limit(defaultLimit, m) == limit && -1 <= m.restartCnt <= limit
    ensures Tick(n).restartCnt == Tick(m).restartCnt && Tick(n).restartTimer == Tick(m).restartTimer
    ensures Tick(m).restartCnt + (if Decide(profiles, defaultLimit, Tick(n)).Start? then 1 else 0) <= limit
  {}

  /** A period starts the module of slot i once if it is due after the first status check, else never. */
  lemma PeriodStarts(st: State, e: nat -> Env, i: nat)
    requires Inv(st) && Unreaped(st) && i < st.loaded
    ensures var s := Stage(st, 1, e);
            var name := st.slots[i].name;
            Starts(Period(st, e).trace, name) == Starts(st.trace, name) + if Due(s, s.slots[i], name) then 1 else 0
  {
    var s := Stage(st, 1, e);
    var name := st.slots[i].name;
    Unrolled(st, e);
    PassSwitches(Check, st, e(0), i);
    assert forall j :: 0 <= j < s.loaded && j != i ==> s.slots[j].name != name by {
      StageKeeps(st, 1, e);
    }
    PassOneStart(s, 0, e(1), i, name);
    StageStarts(st, 1, e, name);
    StageStarts(st, LOOPS, e, name);
  }

  lemma ActiveSame(st: State, e: nat -> Env, i: nat, j: nat, name: string, limit: nat)
    requires Inv(st) && Active(st, i, name, limit) && j < st.loaded && st.slots[j].name == name
    ensures j == i && Tick(Stage(st, 1, e).slots[i]).restartCnt == Tick(st.slots[i]).restartCnt
    ensures Tick(Stage(st, 1, e).slots[i]).restartTimer == Tick(st.slots[i]).restartTimer
  {
    Unrolled(st, e);
    PassSwitches(Check, st, e(0), i);
  }

  /** n consecutive periods, each with its own kernel. */
  function Periods(st: State, n: nat, env: nat -> nat -> Env): (r: State)
    requires Sized(st)
    ensures Sized(r)
    decreases n
  {
    if n == 0 then st else Periods(Period(st, env(n)), n - 1, env)
  }

  /** A budget that covers n periods of a module that may run, or any number of a dormant one. */
  ghost predicate Covers(st: State, name: string, limit: nat, n: nat, budget: int)
    requires Sized(st)
  {
    budget >= 0
    && (Dormant(st, name)
        || exists i: nat :: Active(st, i, name, limit) && Allowance(limit, st.slots[i].restartCnt, st.slots[i].restartTimer, n) <= budget)
  }

  lemma CoversStep(st: State, e: nat -> Env, name: string, limit: nat, n: nat, budget: int) returns (rest: int)
    requires Inv(st) && Unreaped(st) && n > 0 && Covers(st, name, limit, n, budget)
    ensures Covers(Period(st, e), name, limit, n - 1, rest)
    ensures Starts(Period(st, e).trace, name) + rest <= Starts(st.trace, name) + budget
  {
    if Dormant(st, name) {
      DormantPeriod(st, e, name);
      rest := budget;
    } else {
      var i: nat :| Active(st, i, name, limit) && Allowance(limit, st.slots[i].restartCnt, st.slots[i].restartTimer, n) <= budget;
      var i' := ActivePeriod(st, e, i, name, limit, n);
      rest := budget - (Starts(Period(st, e).trace, name) - Starts(st.trace, name));
      var r := Period(st, e);
      if !Dormant(r, name) {
        assert Active(r, i', name, limit)
          && 0 <= Allowance(limit, r.slots[i'].restartCnt, r.slots[i'].restartTimer, n - 1) <= rest;
      }
    }
  }

  lemma {:induction false} Budget(st: State, n: nat, env: nat -> nat -> Env, name: string, limit: nat, budget: int)
    requires Inv(st) && Unreaped(st) && Covers(st, name, limit, n, budget)
    ensures Starts(Periods(st, n, env).trace, name) <= Starts(st.trace, name) + budget
    decreases n
  {
    if n > 0 {
      PeriodKeeps(st, env(n));
      var rest := CoversStep(st, env(n), name, limit, n, budget);
      Budget(Period(st, env(n)), n - 1, env, name, limit, rest);
    }
  }

  /** The restart budget: with no user, reload or pending restart in between, any n periods
      start a module at most (L + 1) + L * ((n + 29) / 30) times, for every kernel. */
  lemma RestartBudget(st: State, n: nat, env: nat -> nat -> Env, i: nat)
    requires Inv(st) && Unreaped(st) && i < st.loaded && !Pending(st.slots[i])
    requires st.slots[i].restartCnt <= Limit(st.defaultLimit, st.slots[i])
    ensures var L := Limit(st.defaultLimit, st.slots[i]);
            Starts(Periods(st, n, env).trace, st.slots[i].name) - Starts(st.trace, st.slots[i].name)
              <= (L + 1) + L * ((n + PERIODS - 1) / PERIODS)
  {
    var m := st.slots[i];
    var L := Limit(st.defaultLimit, m);
    var k := (n + PERIODS - 1) / PERIODS;
    assert SlotOk(m, |st.profiles|);
    TimesIsProduct(L, k);
    TimesGrows(L, (n + m.restartTimer) / PERIODS, k);
    assert Wanted(st.profiles, m) ==> Active(st, i, m.name, L);
    Budget(st, n, env, m.name, L, L + 1 + L * k);
  }

  lemma {:induction false} TimesIsProduct(limit: nat, k: nat)
    ensures Times(limit, k) == limit * k
  {
    if k > 0 {
      TimesIsProduct(limit, k - 1);
    }
  }
}
