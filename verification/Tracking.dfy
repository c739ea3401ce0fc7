/** Following one module through the loops of a period. */
module Tracking {
  import opened Model
  import opened Kernel
  import opened Service
  import opened Invariants
  import opened Removal

  /** A step outside the removal pass touches its own slot only. */
  lemma SlotOthers(op: Op, st: State, x: nat, e: Env)
    requires x < st.loaded <= |st.slots| && op != Serve
    ensures forall i :: 0 <= i < |st.slots| && i != x ==> Slot(op, st, x, e).slots[i] == st.slots[i]
  {}

  lemma ExitLater(os: map<int, Proc>, dying: set<int>)
    ensures Later(os, Exit(os, dying))
  {}

  lemma LaterTrans(a: map<int, Proc>, b: map<int, Proc>, c: map<int, Proc>)
    requires Later(a, b) && Later(b, c)
    ensures Later(a, c)
  {}

  /** Processes are never forgotten and only advance; the log only grows. */
  lemma SlotLater(op: Op, st: State, x: nat, e: Env)
    requires x < st.loaded <= |st.slots|
    ensures Later(st.os, Slot(op, st, x, e).os) && st.trace <= Slot(op, st, x, e).trace
  {
    ExitLater(st.os, e.dying(x));
    var s := st.(os := Exit(st.os, e.dying(x)));
    LaterTrans(st.os, s.os, Slot(op, st, x, e).os);
  }

  lemma {:induction false} PassLater(op: Op, st: State, x: nat, e: Env)
    requires Sized(st)
    ensures Later(st.os, Pass(op, st, x, e).os) && st.trace <= Pass(op, st, x, e).trace
    decreases st.loaded - x
  {
    if x < st.loaded {
      var r := Slot(op, st, x, e);
      SlotLater(op, st, x, e);
      PassLater(op, r, x + 1, e);
      LaterTrans(st.os, r.os, Pass(op, r, x + 1, e).os);
    }
  }

  /** The state in which a pass that starts at slot x reaches slot i. */
  function Reaching(op: Op, st: State, x: nat, e: Env, i: nat): (r: State)
    requires Sized(st) && op != Serve && x <= i <= st.loaded
    ensures Sized(r) && r.loaded == st.loaded && |r.slots| == |st.slots|
    ensures r.profiles == st.profiles && r.defaultLimit == st.defaultLimit
    decreases i - x
  {
    if x == i then st else Reaching(op, Slot(op, st, x, e), x + 1, e, i)
  }

  lemma {:induction false} ReachingKeeps(op: Op, st: State, x: nat, e: Env, i: nat)
    requires Inv(st) && Ready(op, st) && op != Serve && x <= i <= st.loaded
    ensures var mid := Reaching(op, st, x, e, i);
            Inv(mid) && Ready(op, mid) && (Settled(st) ==> Settled(mid))
            && (Unreaped(st) && op != Reap ==> Unreaped(mid))
    decreases i - x
  {
    if x < i {
      var s := Slot(op, st, x, e);
      assert Inv(s) && Ready(op, s) && (Settled(st) ==> Settled(s)) && (Unreaped(st) && op != Reap ==> Unreaped(s)) by {
        SlotKeeps(op, st, x, e);
      }
      ReachingKeeps(op, s, x + 1, e, i);
    }
  }

  lemma {:induction false} ReachingSame(op: Op, st: State, x: nat, e: Env, i: nat)
    requires Sized(st) && op != Serve && x <= i < st.loaded
    ensures var mid := Reaching(op, st, x, e, i);
            mid.slots[i] == st.slots[i] && Later(st.os, mid.os) && st.trace <= mid.trace
            && Pass(op, st, x, e) == Pass(op, mid, i, e)
    decreases i - x
  {
    if x < i {
      var s := Slot(op, st, x, e);
      assert s.slots[i] == st.slots[i] by { SlotOthers(op, st, x, e); }
      assert Later(st.os, s.os) && st.trace <= s.trace by { SlotLater(op, st, x, e); }
      ReachingSame(op, s, x + 1, e, i);
      LaterTrans(st.os, s.os, Reaching(op, s, x + 1, e, i).os);
    }
  }

  /** The pass reaches slot i in some state `mid` in which the slot is as it was before the pass. */
  lemma PassAt(op: Op, st: State, e: Env, i: nat) returns (mid: State)
    requires Sized(st) && op != Serve && i < st.loaded
    ensures mid == Reaching(op, st, 0, e, i)
    ensures mid.slots[i] == st.slots[i] && Later(st.os, mid.os) && st.trace <= mid.trace
    ensures var s := Slot(op, mid, i, e);
            var r := Pass(op, st, 0, e);
            r.slots[i] == s.slots[i] && Later(s.os, r.os) && s.trace <= r.trace
  {
    mid := Reaching(op, st, 0, e, i);
    ReachingSame(op, st, 0, e, i);
    PassLater(op, Slot(op, mid, i, e), i + 1, e);
    PassLeaves(op, Slot(op, mid, i, e), i + 1, e, i);
  }

  lemma {:induction false} PassLeaves(op: Op, st: State, x: nat, e: Env, i: nat)
    requires Sized(st) && op != Serve && i < x && i < |st.slots|
    ensures Pass(op, st, x, e).slots[i] == st.slots[i]
    decreases st.loaded - x
  {
    if x < st.loaded {
      SlotOthers(op, st, x, e);
      PassLeaves(op, Slot(op, st, x, e), x + 1, e, i);
    }
  }

  /** n is m as far as the switches and the restart window go; only an unwanted
      module may have had its counter reset (by a signal). */
  predicate SameSwitches(profiles: seq<Profile>, m: Module, n: Module) {
    && n.name == m.name && n.enabled == m.enabled && n.profile == m.profile && n.remove == m.remove
    && n.init == m.init && n.served == m.served && n.maxRestarts == m.maxRestarts
    && n.restartTimer == m.restartTimer && (n.restartCnt == m.restartCnt || Unwanted(profiles, m))
  }

  lemma SlotSwitches(op: Op, st: State, x: nat, e: Env)
    requires x < st.loaded <= |st.slots| && op != Serve && op != Update
    ensures SameSwitches(st.profiles, st.slots[x], Slot(op, st, x, e).slots[x])
  {
    match op
    case Check =>
    case Sigint =>
    case Kill =>
    case Reap =>
    case Connect =>
    case Send =>
    case Recv =>
  }

  lemma PassSwitches(op: Op, st: State, e: Env, i: nat)
    requires Sized(st) && i < st.loaded && op != Serve && op != Update
    ensures SameSwitches(st.profiles, st.slots[i], Pass(op, st, 0, e).slots[i])
  {
    var mid := PassAt(op, st, e, i);
    SlotSwitches(op, mid, i, e);
  }

  /** The loops k .. n - 1 of a period, from any state. */
  function Chain(s: State, k: nat, n: nat, e: nat -> Env): (r: State)
    requires Sized(s)
    ensures Sized(r) && r.profiles == s.profiles && r.defaultLimit == s.defaultLimit
    ensures n <= 7 || k >= 8 ==> r.loaded == s.loaded
    decreases n - k, s.loaded
  {
    if k >= n then s else Chain(Pass(Loop(k), s, 0, e(k)), k + 1, n, e)
  }

  lemma StageStep(st: State, k: nat, e: nat -> Env)
    requires Sized(st) && k < LOOPS
    ensures Stage(st, k + 1, e) == Pass(Loop(k), Stage(st, k, e), 0, e(k))
  {}

  lemma ChainStep(s: State, k: nat, n: nat, e: nat -> Env)
    requires Sized(s) && k < n
    ensures Chain(s, k, n, e) == Chain(Pass(Loop(k), s, 0, e(k)), k + 1, n, e)
  {}

  lemma ChainDone(s: State, k: nat, e: nat -> Env)
    requires Sized(s)
    ensures Chain(s, k, k, e) == s
  {}

  lemma {:induction false} StageChain(st: State, k: nat, n: nat, e: nat -> Env)
    requires Sized(st) && k <= n <= LOOPS
    ensures Stage(st, n, e) == Chain(Stage(st, k, e), k, n, e)
    decreases n - k
  {
    if k < n {
      StageStep(st, k, e);
      StageChain(st, k + 1, n, e);
      ChainStep(Stage(st, k, e), k, n, e);
    } else {
      ChainDone(Stage(st, k, e), k, e);
    }
  }

  lemma {:induction false} ChainSwitches(s: State, k: nat, n: nat, e: nat -> Env, i: nat)
    requires Sized(s) && 2 <= k <= n <= LOOPS && (n <= 7 || k >= 8) && i < s.loaded
    ensures SameSwitches(s.profiles, s.slots[i], Chain(s, k, n, e).slots[i])
    decreases n - k
  {
    if k < n {
      var t := Pass(Loop(k), s, 0, e(k));
      PassSwitches(Loop(k), s, e(k), i);
      ChainSwitches(t, k + 1, n, e, i);
      SwitchesTrans(s.profiles, s.slots[i], t.slots[i], Chain(s, k, n, e).slots[i]);
    }
  }

  lemma {:induction false} ChainTrace(s: State, k: nat, n: nat, e: nat -> Env)
    requires Sized(s) && k <= n
    ensures s.trace <= Chain(s, k, n, e).trace
    decreases n - k
  {
    if k < n {
      PassLater(Loop(k), s, 0, e(k));
      ChainTrace(Pass(Loop(k), s, 0, e(k)), k + 1, n, e);
    }
  }

  /** From the end of the update loop to the removal pass, and from there to the end. */
  lemma StageSwitches(st: State, k: nat, e: nat -> Env, from: nat, i: nat)
    requires Sized(st) && (from == 2 <= k <= 7 || from == 8 <= k <= LOOPS)
    requires i < Stage(st, from, e).loaded
    ensures Stage(st, k, e).loaded == Stage(st, from, e).loaded
    ensures SameSwitches(st.profiles, Stage(st, from, e).slots[i], Stage(st, k, e).slots[i])
  {
    StageChain(st, from, k, e);
    ChainSwitches(Stage(st, from, e), from, k, e, i);
  }

  lemma SwitchesTrans(profiles: seq<Profile>, a: Module, b: Module, c: Module)
    requires SameSwitches(profiles, a, b) && SameSwitches(profiles, b, c)
    ensures SameSwitches(profiles, a, c)
  {}

  /** Every module after a period was there before the removal pass: served by it or skipped. */
  lemma ServedFrom(st: State, e: nat -> Env, i: nat) returns (j: nat)
    requires Sized(st) && i < Period(st, e).loaded
    ensures j < st.loaded == Stage(st, 7, e).loaded
    ensures Stage(st, 8, e).loaded == Period(st, e).loaded
    ensures var n := Stage(st, 8, e).slots[i];
            var m := Stage(st, 7, e).slots[j];
            n == m || n == Served(m)
    ensures Stage(st, 7, e).slots[j].name == Period(st, e).slots[i].name
    ensures Backlog(Loaded(Stage(st, 7, e))) == 0 ==>
              j == i && Stage(st, 8, e).slots[i] == Served(Stage(st, 7, e).slots[i])
  {
    StageLoaded(st, 7, e);
    StageLoaded8(st, LOOPS, e);
    StageSwitches(st, LOOPS, e, 8, i);
    var s := Stage(st, 7, e);
    ServePass(s, 0, e(7));
    assert s.slots[0..s.loaded] == Loaded(s);
    assert Loaded(Stage(st, 8, e)) == Swept(Loaded(s));
    j := SweptFrom(Loaded(s), i);
  }

  lemma {:induction false} StageLoaded(st: State, k: nat, e: nat -> Env)
    requires Sized(st) && k <= 7
    ensures Stage(st, k, e).loaded == st.loaded
  {
    if k > 0 {
      StageLoaded(st, k - 1, e);
    }
  }

  lemma {:induction false} StageLoaded8(st: State, k: nat, e: nat -> Env)
    requires Sized(st) && 8 <= k <= LOOPS
    ensures Stage(st, k, e).loaded == Stage(st, 8, e).loaded
  {
    if k > 8 {
      StageLoaded8(st, k - 1, e);
    }
  }
}
