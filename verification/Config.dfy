/** Only a reload changes what is configured: periods and user commands move and
    remove slots, but never alter a name, path, parameter or interface. */
module Config {
  import opened Model
  import opened Kernel
  import opened Service
  import opened Commands
  import opened Tracking
  import opened ReloadEffect
  import opened ReloadTheorem

  predicate SameConfig(m: Module, n: Module) {
    n.name == m.name && n.path == m.path && n.params == m.params && n.ifces == m.ifces && n.ifcCap == m.ifcCap
    && n.remove == m.remove
  }

  /** Some loaded slot is configured like m. */
  ghost predicate Contains(st: State, m: Module)
    requires Sized(st)
  {
    exists j :: 0 <= j < st.loaded && SameConfig(st.slots[j], m)
  }

  /** Every slot of r comes from one of st, and every slot of st that is not flagged goes to one of r. */
  ghost predicate SameModules(st: State, r: State) {
    && Sized(st) && Sized(r)
    && (forall i {:trigger Visit(i)} :: Visit(i) && 0 <= i < r.loaded ==> Contains(st, r.slots[i]))
    && (forall j {:trigger Visit(j)} :: Visit(j) && 0 <= j < st.loaded && !st.slots[j].remove ==> Contains(r, st.slots[j]))
    && (Roomy(st.slots) ==> Roomy(r.slots))
  }

  lemma ContainsTrans(a: State, b: State, m: Module)
    requires Sized(a) && Sized(b) && Contains(b, m)
    requires forall i {:trigger Visit(i)} :: Visit(i) && 0 <= i < b.loaded && b.slots[i].remove == m.remove ==> Contains(a, b.slots[i])
    ensures Contains(a, m)
  {
    var k :| 0 <= k < b.loaded && SameConfig(b.slots[k], m);
    assert Visit(k);
    var j :| 0 <= j < a.loaded && SameConfig(a.slots[j], b.slots[k]);
    assert SameConfig(a.slots[j], m);
  }

  lemma SameModulesTrans(a: State, b: State, c: State)
    requires SameModules(a, b) && SameModules(b, c)
    ensures SameModules(a, c)
  {
    forall i {:trigger Visit(i)} | Visit(i) && 0 <= i < c.loaded ensures Contains(a, c.slots[i]) {
      ContainsTrans(a, b, c.slots[i]);
    }
    forall j {:trigger Visit(j)} | Visit(j) && 0 <= j < a.loaded && !a.slots[j].remove ensures Contains(c, a.slots[j]) {
      ContainsTrans(c, b, a.slots[j]);
    }
  }

  /** Every slot in its place. */
  lemma InPlace(st: State, r: State)
    requires Sized(st) && r.loaded == st.loaded && |r.slots| == |st.slots|
    requires forall i :: 0 <= i < |st.slots| ==> SameConfig(st.slots[i], r.slots[i])
    ensures SameModules(st, r)
  {
    forall i | 0 <= i < r.loaded ensures Contains(st, r.slots[i]) && Contains(r, st.slots[i]) {
      assert SameConfig(st.slots[i], r.slots[i]) && SameConfig(r.slots[i], st.slots[i]);
    }
    if Roomy(st.slots) {
      forall i | 0 <= i < |r.slots| ensures RoomyModule(r.slots[i]) {
        assert RoomyModule(st.slots[i]) && SameConfig(st.slots[i], r.slots[i]);
      }
    }
  }

  lemma SlotConfig(op: Op, st: State, x: nat, e: Env)
    requires x < st.loaded <= |st.slots| && op != Serve
    ensures forall i :: 0 <= i < |st.slots| ==> SameConfig(st.slots[i], Slot(op, st, x, e).slots[i])
  {
    SlotOthers(op, st, x, e);
    var s := st.(os := Exit(st.os, e.dying(x)));
    match op
    case Update => UpdateConfig(s, x, e.fork(x));
    case Connect =>
    case _ => QuietConfig(op, st, x, e);
  }

  lemma UpdateConfig(s: State, x: nat, f: ForkOutcome)
    requires x < |s.slots|
    ensures SameConfig(s.slots[x], UpdateSlot(s, x, f).slots[x])
  {
    match Decide(s.profiles, s.defaultLimit, Tick(s.slots[x]))
    case Leave =>
    case Disable =>
    case Start =>
  }

  lemma QuietConfig(op: Op, st: State, x: nat, e: Env)
    requires x < st.loaded <= |st.slots| && op != Serve && op != Update && op != Connect
    ensures SameConfig(st.slots[x], Slot(op, st, x, e).slots[x])
  {}

  lemma RemovedRoomy(slots: seq<Module>, loaded: nat, x: nat)
    requires x < loaded <= |slots| && Roomy(slots)
    ensures Roomy(Removed(slots, loaded, x))
  {
    var r := Removed(slots, loaded, x);
    forall i | 0 <= i < |r| ensures RoomyModule(r[i]) {
      assert r[i] == BlankModule || r[i] in slots;
    }
  }

  lemma ServeConfig(st: State, x: nat, e: Env)
    requires x < st.loaded <= |st.slots|
    ensures SameModules(st, Slot(Serve, st, x, e))
  {
    var r := Slot(Serve, st, x, e);
    var m := st.slots[x];
    if Removable(m) {
      forall i | 0 <= i < r.loaded ensures Contains(st, r.slots[i]) {
        assert SameConfig(st.slots[if i < x then i else i + 1], r.slots[i]);
      }
      forall j | 0 <= j < st.loaded && !st.slots[j].remove ensures Contains(r, st.slots[j]) {
        assert SameConfig(r.slots[if j < x then j else j - 1], st.slots[j]);
      }
      if Roomy(st.slots) {
        RemovedRoomy(st.slots, st.loaded, x);
      }
    } else {
      InPlace(st, r);
    }
  }

  lemma SlotSame(op: Op, st: State, x: nat, e: Env)
    requires x < st.loaded <= |st.slots|
    ensures SameModules(st, Slot(op, st, x, e))
  {
    if op == Serve {
      ServeConfig(st, x, e);
    } else {
      SlotConfig(op, st, x, e);
      InPlace(st, Slot(op, st, x, e));
    }
  }

  lemma {:induction false} PassConfig(st: State, op: Op, s: State, x: nat, e: Env) returns (r: State)
    requires SameModules(st, s)
    ensures r == Pass(op, s, x, e)
    ensures SameModules(st, r)
    decreases s.loaded - x
  {
    if x < s.loaded {
      var t := Slot(op, s, x, e);
      SlotSame(op, s, x, e);
      SameModulesTrans(st, s, t);
      r := PassConfig(st, op, t, x + 1, e);
    } else {
      r := s;
    }
  }

  /** A whole period, loop by loop. */
  lemma {:induction false} ChainConfig(st: State, s: State, k: nat, n: nat, e: nat -> Env)
    requires SameModules(st, s) && k <= n
    ensures SameModules(st, Chain(s, k, n, e))
    decreases n - k
  {
    if k < n {
      var t := PassConfig(st, Loop(k), s, 0, e(k));
      ChainConfig(st, t, k + 1, n, e);
    }
  }

  lemma PeriodConfig(st: State, e: nat -> Env)
    requires Sized(st)
    ensures SameModules(st, Period(st, e))
  {
    InPlace(st, st);
    ChainConfig(st, st, 0, LOOPS, e);
    StageChain(st, 0, LOOPS, e);
    assert Stage(st, 0, e) == st;
  }

  lemma {:induction false} SelectAllConfig(st: State, c: Command, s: State, sel: seq<int>) returns (r: State)
    requires SameModules(st, s)
    ensures r == SelectAll(c, s, sel)
    ensures SameModules(st, r)
    decreases |sel|
  {
    r := s;
    if sel != [] {
      var t := Select(c, s, sel[0]);
      InPlace(s, t);
      SameModulesTrans(st, s, t);
      r := SelectAllConfig(st, c, t, sel[1..]);
    }
  }

  lemma {:induction false} SwitchAllConfig(st: State, s: State, x: nat, on: bool) returns (r: State)
    requires SameModules(st, s)
    ensures r == SwitchAll(s, x, on)
    ensures SameModules(st, r)
    decreases s.loaded - x
  {
    r := s;
    if x < s.loaded {
      var t := Put(s, x, if on then EnabledBy(s.slots[x]) else s.slots[x].(enabled := false));
      InPlace(s, t);
      SameModulesTrans(st, s, t);
      r := SwitchAllConfig(st, t, x + 1, on);
    }
  }

  lemma PerformConfig(c: Command, st: State)
    requires Sized(st)
    ensures SameModules(st, Perform(c, st))
  {
    InPlace(st, st);
    match c
    case EnableSel(sel) => var r := SelectAllConfig(st, c, st, sel);
    case DisableSel(sel) => var r := SelectAllConfig(st, c, st, sel);
    case RestartSel(sel) => var r := SelectAllConfig(st, c, st, sel);
    case StartAll => var r := SwitchAllConfig(st, st, 0, true);
    case StopAll => var r := SwitchAllConfig(st, st, 0, false);
  }
}
