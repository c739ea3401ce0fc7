/** Whom the service thread signals: only processes of modules that are disabled or
    whose profile is. */
module Signals {
  import opened Model
  import opened Kernel
  import opened Service
  import opened Invariants
  import opened Tracking
  import opened Convergence

  predicate IsSignal(e: Event, p: int) {
    e == SentSigint(p) || e == SentSigkill(p)
  }

  /** The signals to process p. */
  function Sent(trace: seq<Event>, p: int): seq<Event> {
    if trace == [] then []
    else Sent(trace[..|trace| - 1], p) + if IsSignal(trace[|trace| - 1], p) then [trace[|trace| - 1]] else []
  }

  lemma SentAppend(t: seq<Event>, e: Event, p: int)
    ensures Sent(t + [e], p) == Sent(t, p) + if IsSignal(e, p) then [e] else []
  {
    assert (t + [e])[..|t|] == t;
  }

  /** Every slot that records p belongs to a module that is to run. */
  ghost predicate Spared(st: State, p: int)
    requires Sized(st)
  {
    forall i :: 0 <= i < st.loaded && st.slots[i].pid == p ==> !Unwanted(st.profiles, st.slots[i])
  }

  lemma SlotSends(op: Op, st: State, x: nat, e: Env, p: int)
    requires x < st.loaded <= |st.slots|
    requires (op == Sigint || op == Kill) && st.slots[x].pid == p ==> !Unwanted(st.profiles, st.slots[x])
    ensures var t := Slot(op, st, x, e).trace;
            t == st.trace || (|t| == |st.trace| + 1 && t == st.trace + [t[|st.trace|]] && !IsSignal(t[|st.trace|], p))
  {
    match op
    case Check =>
    case Update =>
    case Sigint =>
    case Reap =>
    case Kill =>
    case Serve =>
    case Connect =>
    case Send =>
    case Recv =>
  }

  /** Before the removal pass a slot keeps its switches, and its PID unless that is cleared. */
  lemma SlotSpares(op: Op, st: State, x: nat, e: Env, p: int)
    requires x < st.loaded <= |st.slots| && p > 0 && Spared(st, p)
    requires op == Check || op == Sigint || op == Reap || op == Kill
    ensures Spared(Slot(op, st, x, e), p)
  {
    SlotOthers(op, st, x, e);
    SlotSwitches(op, st, x, e);
    assert Slot(op, st, x, e).slots[x].pid in {st.slots[x].pid, 0};
  }

  lemma {:induction false} PassSends(op: Op, st: State, x: nat, e: Env, p: int)
    requires Sized(st) && p > 0 && (op == Sigint || op == Kill ==> Spared(st, p))
    ensures Sent(Pass(op, st, x, e).trace, p) == Sent(st.trace, p)
    ensures Spared(st, p) && op != Update && op != Serve && op != Connect && op != Send && op != Recv
            ==> Spared(Pass(op, st, x, e), p)
    decreases st.loaded - x
  {
    if x < st.loaded {
      var s := Slot(op, st, x, e);
      SlotSends(op, st, x, e, p);
      if s.trace != st.trace {
        SentAppend(st.trace, s.trace[|st.trace|], p);
      }
      if Spared(st, p) && op != Update && op != Serve && op != Connect && op != Send && op != Recv {
        SlotSpares(op, st, x, e, p);
      }
      PassSends(op, s, x + 1, e, p);
    }
  }

  lemma {:induction false} ChainSends(s: State, k: nat, n: nat, e: nat -> Env, p: int)
    requires Sized(s) && p > 0 && 2 <= k <= n <= LOOPS && (n <= 7 || k >= 7) && (k < 7 ==> Spared(s, p))
    ensures Sent(Chain(s, k, n, e).trace, p) == Sent(s.trace, p)
    decreases n - k
  {
    if k < n {
      PassSends(Loop(k), s, 0, e(k), p);
      ChainSends(Pass(Loop(k), s, 0, e(k)), k + 1, n, e, p);
    }
  }

  lemma SparedSilent(st: State, e: nat -> Env, p: int, s1: State, s2: State, s7: State, s8: State, r: State)
    requires Landmarks(st, e, s1, s2, s7, s8, r) && p > 0 && Spared(s2, p)
    ensures Sent(r.trace, p) == Sent(st.trace, p)
  {
    assert Sent(s1.trace, p) == Sent(st.trace, p) by { PassSends(Check, st, 0, e(0), p); }
    assert Sent(s2.trace, p) == Sent(s1.trace, p) by { PassSends(Update, s1, 0, e(1), p); }
    assert Sent(s7.trace, p) == Sent(s2.trace, p) by { ChainSends(s2, 2, 7, e, p); }
    assert Sent(s8.trace, p) == Sent(s7.trace, p) by { PassSends(Serve, s7, 0, e(7), p); }
    ChainSends(s8, 8, LOOPS, e, p);
  }

  /** A period signals a process only if, after the update loop, some slot records it for a module that is disabled or
      whose profile is. */
  lemma OnlyUnwantedSignalled(st: State, e: nat -> Env, p: int)
    requires Inv(st) && Unreaped(st) && p > 0 && Sent(Period(st, e).trace, p) != Sent(st.trace, p)
    ensures var s := Stage(st, 2, e);
            exists i :: 0 <= i < s.loaded <= |s.slots| && s.slots[i].pid == p
                        && (!s.slots[i].enabled || (s.slots[i].profile.Some? && !ProfileEnabled(st.profiles, s.slots[i])))
  {
    var s1, s2, s7, s8, r := FindLandmarks(st, e);
    if Spared(s2, p) {
      SparedSilent(st, e, p, s1, s2, s7, s8, r);
    }
  }
}
