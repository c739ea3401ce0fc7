/** When a module is started, when it is given up, and that nobody else is signalled:
    what the update loop decides, period by period and over whole runs. */
module Limits {
  import opened Model
  import opened Kernel
  import opened Service
  import opened Invariants
  import opened Commands
  import opened Removal
  import opened Tracking
  import opened Restart
  import opened Convergence
  import opened Document
  import opened Reload
  import opened ReloadTheorem
  import opened Runs
  import CommandEffects

  // ----- One period -----

  /** The restart counter after the window has moved on by one period. */
  function Counter(m: Module): int {
    if m.restartTimer + 1 >= PERIODS && m.restartCnt > 0 then 0 else m.restartCnt
  }

  function OwnLimit(st: State, m: Module): int {
    if m.maxRestarts > -1 then m.maxRestarts else st.defaultLimit
  }

  /** Enabled, in an enabled profile, and found without a process. */
  predicate Down(st: State, m: Module) {
    m.enabled && ProfileEnabled(st.profiles, m) && m.pid <= 0
  }

  predicate Concerns(e: Event, name: string) {
    (e.Forked? || e.ForkFailed? || e.AutoDisabled?) && e.name == name
  }

  /** The part of the log that tells of the starts of a module and of the end of its attempts. */
  function Story(trace: seq<Event>, name: string): seq<Event> {
    if trace == [] then []
    else Story(trace[..|trace| - 1], name) + if Concerns(trace[|trace| - 1], name) then [trace[|trace| - 1]] else []
  }

  lemma StoryAppend(t: seq<Event>, e: Event, name: string)
    ensures Story(t + [e], name) == Story(t, name) + if Concerns(e, name) then [e] else []
  {
    assert (t + [e])[..|t|] == t;
  }

  /** What one period adds to the story of a module that the update loop finds as m: a start if it is down and its
      counter is not its limit, the end of its attempts if it is, and nothing otherwise. */
  predicate Told(st: State, m: Module, added: seq<Event>) {
    if !Down(st, m) then added == []
    else if Counter(m) != OwnLimit(st, m) then |added| == 1 && IsStart(added[0], m.name)
    else added == [AutoDisabled(m.name, OwnLimit(st, m))]
  }

  function Window(m: Module): int {
    if m.restartTimer + 1 >= PERIODS then 0 else m.restartTimer + 1
  }

  /** What becomes of its record. The first start of a window begins it anew, if it succeeds. */
  predicate Left(st: State, m: Module, u: Module) {
    && u.name == m.name && u.profile == m.profile && u.init == m.init && u.served == m.served && u.remove == m.remove
    && (if Down(st, m) && Counter(m) != OwnLimit(st, m)
        then u.enabled && u.running && u.restartCnt == Counter(m) + 1
             && u.restartTimer == (if u.status && u.restartCnt == 1 then 0 else Window(m))
        else u.restartCnt == Counter(m) && u.restartTimer == Window(m) && u.running == m.running && u.pid == m.pid
             && u.enabled == (m.enabled && !Down(st, m)))
  }

  lemma UpdateTells(st: State, x: nat, f: ForkOutcome) returns (added: seq<Event>)
    requires x < |st.slots| && (st.slots[x].status <==> st.slots[x].pid > 0)
    ensures Told(st, st.slots[x], added) && UpdateSlot(st, x, f).trace == st.trace + added
    ensures Left(st, st.slots[x], UpdateSlot(st, x, f).slots[x])
  {
    var m := st.slots[x];
    if !Down(st, m) {
      added := [];
      LeavesIt(st, x, f);
    } else if Counter(m) == OwnLimit(st, m) {
      added := [AutoDisabled(m.name, OwnLimit(st, m))];
      GivesUp(st, x, f);
    } else {
      added := StartsIt(st, x, f);
    }
  }

  lemma LeavesIt(st: State, x: nat, f: ForkOutcome)
    requires x < |st.slots| && (st.slots[x].status <==> st.slots[x].pid > 0) && !Down(st, st.slots[x])
    ensures UpdateSlot(st, x, f).trace == st.trace + [] && Left(st, st.slots[x], UpdateSlot(st, x, f).slots[x])
  {
    assert Decide(st.profiles, st.defaultLimit, Tick(st.slots[x])).Leave?;
  }

  lemma GivesUp(st: State, x: nat, f: ForkOutcome)
    requires x < |st.slots| && (st.slots[x].status <==> st.slots[x].pid > 0)
    requires Down(st, st.slots[x]) && Counter(st.slots[x]) == OwnLimit(st, st.slots[x])
    ensures UpdateSlot(st, x, f).trace == st.trace + [AutoDisabled(st.slots[x].name, OwnLimit(st, st.slots[x]))]
    ensures Left(st, st.slots[x], UpdateSlot(st, x, f).slots[x])
  {
    assert Decide(st.profiles, st.defaultLimit, Tick(st.slots[x])).Disable?;
  }

  lemma StartsIt(st: State, x: nat, f: ForkOutcome) returns (added: seq<Event>)
    requires x < |st.slots| && (st.slots[x].status <==> st.slots[x].pid > 0)
    requires Down(st, st.slots[x]) && Counter(st.slots[x]) != OwnLimit(st, st.slots[x])
    ensures |added| == 1 && IsStart(added[0], st.slots[x].name) && UpdateSlot(st, x, f).trace == st.trace + added
    ensures Left(st, st.slots[x], UpdateSlot(st, x, f).slots[x])
  {
    var m := Tick(st.slots[x]);
    assert UpdateSlot(st, x, f) == StartSlot(Put(st, x, m), x, f) by {
      assert Decide(st.profiles, st.defaultLimit, m).Start?;
    }
    added := [if Forks(st.os, f) then Forked(m.name, f.pid) else ForkFailed(m.name)];
    StartRecord(Put(st, x, m), x, f);
  }

  lemma StartRecord(st: State, x: nat, f: ForkOutcome)
    requires x < |st.slots|
    ensures var m, r := st.slots[x], StartSlot(st, x, f);
            var u := r.slots[x];
            && r.trace == st.trace + [if Forks(st.os, f) then Forked(m.name, f.pid) else ForkFailed(m.name)]
            && u.name == m.name && u.profile == m.profile && u.init == m.init && u.served == m.served && u.remove == m.remove
            && u.enabled == m.enabled && u.running && u.restartCnt == m.restartCnt + 1
            && u.restartTimer == (if u.status && u.restartCnt == 1 then 0 else m.restartTimer)
  {}

  lemma OtherTells(op: Op, st: State, x: nat, e: Env, name: string)
    requires x < st.loaded <= |st.slots| && (op != Update || st.slots[x].name != name)
    ensures Story(Slot(op, st, x, e).trace, name) == Story(st.trace, name)
  {
    var t := Slot(op, st, x, e).trace;
    if t != st.trace {
      OneMore(op, st, x, e);
      StoryAppend(st.trace, t[|st.trace|], name);
    }
  }

  lemma OneMore(op: Op, st: State, x: nat, e: Env)
    requires x < st.loaded <= |st.slots|
    ensures var t := Slot(op, st, x, e).trace;
            t == st.trace || (&& |t| == |st.trace| + 1 && t == st.trace + [t[|st.trace|]]
                              && (op != Update ==> forall name :: !Concerns(t[|st.trace|], name))
                              && (forall name :: Concerns(t[|st.trace|], name) ==> name == st.slots[x].name))
  {
    match op
    case Check =>
    case Update => UpdateAdds(st.(os := Exit(st.os, e.dying(x))), x, e.fork(x));
    case Sigint =>
    case Reap =>
    case Kill =>
    case Serve =>
    case Connect =>
    case Send =>
    case Recv =>
  }

  lemma UpdateAdds(st: State, x: nat, f: ForkOutcome)
    requires x < |st.slots|
    ensures var t := UpdateSlot(st, x, f).trace;
            t == st.trace || (&& |t| == |st.trace| + 1 && t == st.trace + [t[|st.trace|]]
                              && (forall name :: Concerns(t[|st.trace|], name) ==> name == st.slots[x].name))
  {}

  lemma {:induction false} PassTells(op: Op, st: State, x: nat, e: Env, name: string)
    requires Sized(st) && (op == Update ==> forall j :: x <= j < st.loaded ==> st.slots[j].name != name)
    ensures Story(Pass(op, st, x, e).trace, name) == Story(st.trace, name)
    decreases st.loaded - x
  {
    if x < st.loaded {
      OtherTells(op, st, x, e, name);
      if op == Update {
        SlotOthers(op, st, x, e);
      }
      PassTells(op, Slot(op, st, x, e), x + 1, e, name);
    }
  }

  lemma {:induction false} ReachingTells(st: State, x: nat, e: Env, i: nat, name: string)
    requires Sized(st) && x <= i < st.loaded && forall j :: x <= j < i ==> st.slots[j].name != name
    ensures Story(Reaching(Update, st, x, e, i).trace, name) == Story(st.trace, name)
    ensures forall j :: i <= j < st.loaded ==> Reaching(Update, st, x, e, i).slots[j] == st.slots[j]
    decreases i - x
  {
    if x < i {
      OtherTells(Update, st, x, e, name);
      SlotOthers(Update, st, x, e);
      ReachingTells(Slot(Update, st, x, e), x + 1, e, i, name);
    }
  }

  /** The update loop on the one slot of a name. */
  lemma UpdatePass(st: State, e: Env, i: nat) returns (added: seq<Event>)
    requires Inv(st) && Settled(st) && i < st.loaded
    ensures var r := Pass(Update, st, 0, e);
            && Told(st, st.slots[i], added) && Story(r.trace, st.slots[i].name) == Story(st.trace, st.slots[i].name) + added
            && Left(st, st.slots[i], r.slots[i])
  {
    var name := st.slots[i].name;
    assert SettledSlot(st.slots[i], st.os);
    assert forall j :: 0 <= j < st.loaded && j != i ==> st.slots[j].name != name;
    var mid := ReachTelling(st, e, i, name);
    added := SlotTells(mid, i, e);
    RestTells(mid, i, e, name);
  }

  lemma ReachTelling(st: State, e: Env, i: nat, name: string) returns (mid: State)
    requires Sized(st) && i < st.loaded && forall j :: 0 <= j < st.loaded && j != i ==> st.slots[j].name != name
    ensures mid.loaded == st.loaded <= |mid.slots| && mid.profiles == st.profiles && mid.defaultLimit == st.defaultLimit
    ensures Story(mid.trace, name) == Story(st.trace, name) && mid.slots[i] == st.slots[i]
    ensures forall j :: i < j < st.loaded ==> mid.slots[j].name != name
    ensures Pass(Update, st, 0, e) == Pass(Update, mid, i, e)
  {
    mid := Reaching(Update, st, 0, e, i);
    ReachingTells(st, 0, e, i, name);
    ReachingSame(Update, st, 0, e, i);
  }

  lemma SlotTells(st: State, i: nat, e: Env) returns (added: seq<Event>)
    requires i < st.loaded <= |st.slots| && (st.slots[i].status <==> st.slots[i].pid > 0)
    ensures var r := Slot(Update, st, i, e);
            && Told(st, st.slots[i], added) && Story(r.trace, st.slots[i].name) == Story(st.trace, st.slots[i].name) + added
            && Left(st, st.slots[i], r.slots[i])
  {
    var s := st.(os := Exit(st.os, e.dying(i)));
    added := UpdateTells(s, i, e.fork(i));
    StoryAdded(st.trace, added, st.slots[i].name);
  }

  lemma RestTells(st: State, i: nat, e: Env, name: string)
    requires i < st.loaded <= |st.slots| && forall j :: i < j < st.loaded ==> st.slots[j].name != name
    ensures Story(Pass(Update, st, i, e).trace, name) == Story(Slot(Update, st, i, e).trace, name)
    ensures Pass(Update, st, i, e).slots[i] == Slot(Update, st, i, e).slots[i]
  {
    SlotOthers(Update, st, i, e);
    PassTells(Update, Slot(Update, st, i, e), i + 1, e, name);
    PassLeaves(Update, Slot(Update, st, i, e), i + 1, e, i);
  }

  lemma StoryAdded(t: seq<Event>, added: seq<Event>, name: string)
    requires |added| <= 1 && forall e :: e in added ==> Concerns(e, name)
    ensures Story(t + added, name) == Story(t, name) + added
  {
    if added == [] {
      assert t + added == t;
    } else {
      assert added == [added[0]];
      StoryAppend(t, added[0], name);
    }
  }

  lemma {:induction false} ChainTells(s: State, k: nat, n: nat, e: nat -> Env, name: string)
    requires Sized(s) && 2 <= k <= n <= LOOPS
    ensures Story(Chain(s, k, n, e).trace, name) == Story(s.trace, name)
    decreases n - k
  {
    if k < n {
      PassTells(Loop(k), s, 0, e(k), name);
      ChainTells(Pass(Loop(k), s, 0, e(k)), k + 1, n, e, name);
    }
  }

  /** m is the record of slot i after the first status check, u after the update loop, and `added` what the log of r gains. */
  ghost predicate Decides(st: State, s1: State, s2: State, r: State, i: nat, added: seq<Event>) {
    && i < |st.slots| && i < |s1.slots| && i < |s2.slots|
    && var m, u := s1.slots[i], s2.slots[i];
       && m.name == st.slots[i].name && m.enabled == st.slots[i].enabled && m.profile == st.slots[i].profile
       && Told(st, m, added) && Story(r.trace, m.name) == Story(st.trace, m.name) + added && Left(st, m, u)
  }

  /** What a period does about starting the module of slot i, on every kernel. */
  lemma PeriodDecides(st: State, e: nat -> Env, i: nat) returns (added: seq<Event>)
    requires Inv(st) && Unreaped(st) && i < st.loaded
    ensures Decides(st, Stage(st, 1, e), Stage(st, 2, e), Period(st, e), i, added)
  {
    var s1, s2, s7, s8, r := FindLandmarks(st, e);
    added := LandmarksDecide(st, e, i, s1, s2, s7, s8, r);
  }

  lemma LandmarksDecide(st: State, e: nat -> Env, i: nat, s1: State, s2: State, s7: State, s8: State, r: State) returns (added: seq<Event>)
    requires i < st.loaded && Landmarks(st, e, s1, s2, s7, s8, r)
    ensures Decides(st, s1, s2, r, i, added)
  {
    assert s1.slots[i].name == st.slots[i].name && s1.slots[i].enabled == st.slots[i].enabled
           && s1.slots[i].profile == st.slots[i].profile by { PassSwitches(Check, st, e(0), i); }
    added := UpdatePass(s1, e(1), i);
    assert Story(s1.trace, st.slots[i].name) == Story(st.trace, st.slots[i].name) by {
      PassTells(Check, st, 0, e(0), st.slots[i].name);
    }
    RestOfPeriod(s2, s7, s8, r, e, st.slots[i].name);
  }

  lemma RestOfPeriod(s2: State, s7: State, s8: State, r: State, e: nat -> Env, name: string)
    requires Sized(s2) && s7 == Chain(s2, 2, 7, e) && s8 == Pass(Serve, s7, 0, e(7)) && r == Chain(s8, 8, LOOPS, e)
    ensures Story(r.trace, name) == Story(s2.trace, name)
  {
    ChainTells(s2, 2, 7, e, name);
    PassTells(Serve, s7, 0, e(7), name);
    ChainTells(s8, 8, LOOPS, e, name);
  }

  /** The switch the update loop leaves is the one at the end of the period, unless a pending restart is served. */
  lemma SwitchStays(st: State, e: nat -> Env, i: nat) returns (k: nat)
    requires Inv(st) && Unreaped(st) && i < st.loaded && !st.slots[i].remove
    ensures var u, r := Stage(st, 2, e).slots[i], Period(st, e);
            && k < r.loaded && r.slots[k].name == st.slots[i].name
            && (u.enabled ==> r.slots[k].enabled) && (!u.enabled && !Pending(u) ==> !r.slots[k].enabled)
  {
    var s1, s2, s7, s8, r := FindLandmarks(st, e);
    Switches7(st, e, i, s1, s2, s7, s8, r);
    ChainSwitches(s2, 2, 7, e, i);
    k := SwitchServed(s7, e, i);
  }

  lemma SwitchServed(s7: State, e: nat -> Env, i: nat) returns (k: nat)
    requires Sized(s7) && i < s7.loaded && !s7.slots[i].remove
    ensures var m, r := s7.slots[i], Chain(Pass(Serve, s7, 0, e(7)), 8, LOOPS, e);
            && k < r.loaded && r.slots[k].name == m.name
            && (m.enabled ==> r.slots[k].enabled) && (!m.enabled && !Pending(m) ==> !r.slots[k].enabled)
  {
    var s8 := Pass(Serve, s7, 0, e(7));
    assert Loaded(s8) == Swept(Loaded(s7)) by {
      ServePass(s7, 0, e(7));
      assert s7.slots[0..s7.loaded] == Loaded(s7);
    }
    assert Loaded(s7)[i] == s7.slots[i];
    k := SweptTo(Loaded(s7), i);
    assert s8.slots[k] == Loaded(s8)[k];
    ChainSwitches(s8, 8, LOOPS, e, k);
  }

  // ----- Whole runs -----

  /** A module was given up only after as many starts as its limit says. */
  ghost predicate Paid(trace: seq<Event>) {
    forall j :: 0 <= j < |trace| && trace[j].AutoDisabled? ==> PaidAt(trace, j)
  }

  ghost predicate PaidAt(trace: seq<Event>, j: nat)
    requires j < |trace| && trace[j].AutoDisabled?
  {
    Starts(trace[..j], trace[j].name) >= trace[j].limit
  }

  /** No counter is above the number of starts. */
  ghost predicate Counted(st: State) {
    Sized(st) && Paid(st.trace) && forall i :: 0 <= i < st.loaded ==> CountOk(st.slots[i], st.trace)
  }

  predicate CountOk(m: Module, trace: seq<Event>) {
    m.restartCnt <= Starts(trace, m.name)
  }

  lemma PaidAppend(t: seq<Event>, e: Event)
    requires Paid(t) && (e.AutoDisabled? ==> Starts(t, e.name) >= e.limit)
    ensures Paid(t + [e])
  {
    forall j | 0 <= j < |t + [e]| && (t + [e])[j].AutoDisabled? ensures PaidAt(t + [e], j) {
      assert (t + [e])[..j] == t[..j];
      if j < |t| {
        assert PaidAt(t, j);
      } else {
        assert t[..j] == t;
      }
    }
  }

  lemma CountLater(m: Module, t: seq<Event>, e: Event)
    requires CountOk(m, t)
    ensures CountOk(m, t + [e])
  {
    StartsAppend(t, e, m.name);
  }

  /** Except for the update loop a step leaves counters alone or sets them to -1, and gives nobody up. */
  lemma SlotCounts(op: Op, st: State, x: nat, e: Env, i: nat) returns (j: nat)
    requires x < st.loaded <= |st.slots| && op != Update && i < Slot(op, st, x, e).loaded
    ensures var n := Slot(op, st, x, e).slots[i];
            && j < st.loaded && n.name == st.slots[j].name && (n.restartCnt == st.slots[j].restartCnt || n.restartCnt == -1)
  {
    if op == Serve && Removable(st.slots[x]) && i >= x {
      j := i + 1;
    } else {
      j := i;
      OtherCounts(op, st, x, e, i);
    }
  }

  lemma OtherCounts(op: Op, st: State, x: nat, e: Env, i: nat)
    requires x < st.loaded <= |st.slots| && op != Update && i < Slot(op, st, x, e).loaded
    requires !(op == Serve && Removable(st.slots[x]) && i >= x)
    ensures var n := Slot(op, st, x, e).slots[i];
            && n.name == st.slots[i].name && (n.restartCnt == st.slots[i].restartCnt || n.restartCnt == -1)
  {
    match op
    case Check =>
    case Sigint =>
    case Reap =>
    case Kill =>
    case Serve =>
    case Connect =>
    case Send =>
    case Recv =>
  }

  lemma GivesUpNobody(op: Op, st: State, x: nat, e: Env)
    requires x < st.loaded <= |st.slots| && op != Update
    ensures var t := Slot(op, st, x, e).trace;
            t == st.trace || (|t| == |st.trace| + 1 && t == st.trace + [t[|st.trace|]] && !t[|st.trace|].AutoDisabled?)
  {
    match op
    case Check =>
    case Sigint =>
    case Reap =>
    case Kill =>
    case Serve =>
    case Connect =>
    case Send =>
    case Recv =>
  }

  lemma OtherKeepsCount(op: Op, st: State, x: nat, e: Env)
    requires x < st.loaded <= |st.slots| && op != Update && Counted(st)
    ensures Counted(Slot(op, st, x, e))
  {
    var r := Slot(op, st, x, e);
    GivesUpNobody(op, st, x, e);
    if r.trace != st.trace {
      PaidAppend(st.trace, r.trace[|st.trace|]);
    }
    forall i | 0 <= i < r.loaded ensures CountOk(r.slots[i], r.trace) {
      var j := SlotCounts(op, st, x, e, i);
      assert CountOk(st.slots[j], st.trace);
      if r.trace != st.trace {
        CountLater(st.slots[j], st.trace, r.trace[|st.trace|]);
      }
    }
  }

  lemma UpdateKeepsCount(st: State, x: nat, e: Env)
    requires x < st.loaded <= |st.slots| && Counted(st) && (st.slots[x].status <==> st.slots[x].pid > 0)
    ensures Counted(Slot(Update, st, x, e))
  {
    var s := st.(os := Exit(st.os, e.dying(x)));
    var r := Slot(Update, st, x, e);
    var added := UpdateTells(s, x, e.fork(x));
    assert CountOk(st.slots[x], st.trace);
    SlotOthers(Update, st, x, e);
    if added == [] {
      assert r.trace == st.trace;
    } else {
      assert r.trace == st.trace + [added[0]];
      PaidAppend(st.trace, added[0]);
      StartsAppend(st.trace, added[0], st.slots[x].name);
      forall i | 0 <= i < r.loaded && i != x ensures CountOk(r.slots[i], r.trace) {
        assert CountOk(st.slots[i], st.trace);
        CountLater(st.slots[i], st.trace, added[0]);
      }
    }
  }

  lemma {:induction false} PassCounts(op: Op, st: State, x: nat, e: Env)
    requires Sized(st) && Counted(st) && (op == Update ==> Inv(st) && Settled(st))
    ensures Counted(Pass(op, st, x, e))
    decreases st.loaded - x
  {
    if x < st.loaded {
      if op == Update {
        assert SettledSlot(st.slots[x], st.os);
        UpdateKeepsCount(st, x, e);
        SlotKeeps(op, st, x, e);
      } else {
        OtherKeepsCount(op, st, x, e);
      }
      PassCounts(op, Slot(op, st, x, e), x + 1, e);
    }
  }

  lemma {:induction false} StageCounts(st: State, k: nat, e: nat -> Env)
    requires Inv(st) && Unreaped(st) && Counted(st) && k <= LOOPS
    ensures Counted(Stage(st, k, e))
  {
    if k > 0 {
      StageCounts(st, k - 1, e);
      StageKeeps(st, k - 1, e);
      PassCounts(Loop(k - 1), Stage(st, k - 1, e), 0, e(k - 1));
    }
  }

  /** Commands keep the log and every counter, or set it to -1. */
  ghost predicate CountsKept(st: State, r: State) {
    && st.loaded == r.loaded <= |st.slots| && r.loaded <= |r.slots| && r.trace == st.trace
    && forall i :: 0 <= i < r.loaded ==>
         r.slots[i].name == st.slots[i].name && (r.slots[i].restartCnt == st.slots[i].restartCnt || r.slots[i].restartCnt == -1)
  }

  lemma CommandCounts(c: Command, st: State)
    requires Sized(st)
    ensures CountsKept(st, Perform(c, st))
  {
    match c
    case EnableSel(sel) => CommandEffects.EnableEffect(st, sel);
    case DisableSel(sel) => CommandEffects.DisableEffect(st, sel);
    case RestartSel(sel) => CommandEffects.RestartEffect(st, sel);
    case StartAll => CommandEffects.StartAllEffect(st);
    case StopAll => CommandEffects.StopAllEffect(st);
  }

  lemma KeptCounted(st: State, r: State)
    requires Counted(st) && CountsKept(st, r)
    ensures Counted(r)
  {
    forall i | 0 <= i < r.loaded ensures CountOk(r.slots[i], r.trace) {
      assert CountOk(st.slots[i], st.trace);
    }
  }

  lemma ReloadCounted(st: State, ds: seq<Entry>, r: State)
    requires Counted(st) && Refines(st, ds, r) && r.trace == st.trace
    ensures Counted(r)
  {
    forall i | 0 <= i < r.loaded ensures CountOk(r.slots[i], r.trace) {
      if i >= st.loaded {
        var d := NewOf(st, ds, r, i);
      } else {
        assert CountOk(st.slots[i], st.trace);
        if Mentions(ds, st.slots[i].name) {
          var k :| 0 <= k < |ds| && NameOf(ds[k].node) == st.slots[i].name;
          KnownOf(st, ds, r, i, k);
        } else {
          MissingOf(st, ds, r, i);
        }
      }
    }
  }

  lemma BootCounted(st: State, ds: seq<Entry>, r: State)
    requires st.loaded == 0 && st.trace == [] && r.trace == st.trace && Boot(st, ds, r)
    ensures Counted(r)
  {
    forall i | 0 <= i < r.loaded ensures CountOk(r.slots[i], r.trace) {
      var d := AddedAt(st, ds, true, r, i);
    }
  }

  lemma NextCounts(st: State, step: Step)
    requires Good(st) && Counted(st)
    ensures Counted(Next(st, step))
  {
    match step
    case Service(e) => StageCounts(st, LOOPS, e);
    case User(c) =>
      CommandCounts(c, st);
      KeptCounted(st, Perform(c, st));
    case Reloading(doc) =>
      if ValidDoc(doc) {
        ReloadRefines(st, doc);
        ReloadCounted(st, Entries(doc.value.kids), Reloaded(st, doc, false));
      }
  }

  lemma {:induction false} RunCounts(st: State, steps: seq<Step>)
    requires Good(st) && Counted(st)
    ensures Counted(Run(st, steps))
    decreases |steps|
  {
    if steps != [] {
      NextKeeps(st, steps[0]);
      NextCounts(st, steps[0]);
      RunCounts(Next(st, steps[0]), steps[1..]);
    }
  }

  /** In no run is a module given up before it was started as often as its limit says. */
  lemma GivenUpAfterStarts(st: State, doc: Option<Node>, steps: seq<Step>, j: nat)
    requires Boots(st, doc)
    requires var t := Run(Reloaded(st, doc, true), steps).trace;
             j < |t| && t[j].AutoDisabled?
    ensures var t := Run(Reloaded(st, doc, true), steps).trace;
            Starts(t[..j], t[j].name) >= t[j].limit
  {
    var s := Reloaded(st, doc, true);
    assert Good(s) by { var r := Reachable(st, doc, []); }
    if ValidDoc(doc) {
      ReloadStarts(st, doc);
      BootCounted(st, Entries(doc.value.kids), s);
    }
    RunCounts(s, steps);
    assert PaidAt(Run(s, steps).trace, j);
  }
}
