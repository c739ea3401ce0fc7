/** What the user's commands achieve, slot by slot and profile by profile, for every
    selection. */
module CommandEffects {
  import opened Model
  import opened Kernel
  import opened Service
  import opened Invariants
  import opened Commands
  import opened Convergence
  import opened Skipping
  import opened StopAll
  import Stopping

  /** Only switches, counters and pending restarts of modules, and switches of profiles, have changed. */
  ghost predicate Switched(st: State, r: State) {
    && st.loaded <= |st.slots| == |r.slots| && |r.profiles| == |st.profiles|
    && r == st.(slots := r.slots, profiles := r.profiles)
    && (forall i :: st.loaded <= i < |st.slots| ==> r.slots[i] == st.slots[i])
    && (forall k :: 0 <= k < |st.profiles| ==> r.profiles[k].name == st.profiles[k].name)
  }

  // ----- Enabling -----

  /** A selected module is on, with a fresh counter if it was off; any other is unchanged. */
  predicate EnabledIf(m: Module, n: Module, selected: bool) {
    if !selected || m.enabled then n == m
    else n.enabled && n.restartCnt == -1 && n == m.(enabled := n.enabled, restartCnt := n.restartCnt)
  }

  ghost predicate Enables(st: State, r: State, sel: seq<int>) {
    && Switched(st, r)
    && (forall i :: 0 <= i < st.loaded ==> EnabledIf(st.slots[i], r.slots[i], i in sel))
    && (forall k :: 0 <= k < |st.profiles| ==>
          (r.profiles[k].enabled <==> st.profiles[k].enabled || st.loaded + k in sel))
  }

  lemma EnableOne(st: State, n: int, c: Command)
    requires Sized(st) && c.EnableSel?
    ensures Enables(st, Select(c, st, n), [n])
  {}

  lemma EnablesThen(st: State, s: State, r: State, n: int, rest: seq<int>)
    requires Enables(st, s, [n]) && Enables(s, r, rest)
    ensures Enables(st, r, [n] + rest)
  {
    forall i | 0 <= i < st.loaded ensures EnabledIf(st.slots[i], r.slots[i], i in [n] + rest) {
      assert EnabledIf(st.slots[i], s.slots[i], i in [n]) && EnabledIf(s.slots[i], r.slots[i], i in rest);
    }
  }

  lemma {:induction false} EnableAll(st: State, c: Command, sel: seq<int>)
    requires Sized(st) && c.EnableSel?
    ensures Enables(st, SelectAll(c, st, sel), sel)
    decreases |sel|
  {
    if sel != [] {
      var s := Select(c, st, sel[0]);
      EnableOne(st, sel[0], c);
      EnableAll(s, c, sel[1..]);
      EnablesThen(st, s, SelectAll(c, st, sel), sel[0], sel[1..]);
      assert [sel[0]] + sel[1..] == sel;
    }
  }

  /** Enabling a selection switches on exactly the selected modules and profiles. */
  lemma EnableEffect(st: State, sel: seq<int>)
    requires Sized(st)
    ensures Enables(st, Perform(EnableSel(sel), st), sel)
  {
    EnableAll(st, EnableSel(sel), sel);
  }

  // ----- Disabling -----

  /** A selected module is off, unless it may not be signalled; any other is unchanged. */
  predicate DisabledIf(m: Module, n: Module, selected: bool) {
    if !selected || m.rootPerm then n == m
    else !n.enabled && n == m.(enabled := n.enabled)
  }

  ghost predicate Disables(st: State, r: State, sel: seq<int>) {
    && Switched(st, r)
    && (forall i :: 0 <= i < st.loaded ==> DisabledIf(st.slots[i], r.slots[i], i in sel))
    && (forall k :: 0 <= k < |st.profiles| ==>
          (r.profiles[k].enabled <==> st.profiles[k].enabled && st.loaded + k !in sel))
  }

  lemma DisableOne(st: State, n: int, c: Command)
    requires Sized(st) && c.DisableSel?
    ensures Disables(st, Select(c, st, n), [n])
  {}

  lemma DisablesThen(st: State, s: State, r: State, n: int, rest: seq<int>)
    requires Disables(st, s, [n]) && Disables(s, r, rest)
    ensures Disables(st, r, [n] + rest)
  {
    forall i | 0 <= i < st.loaded ensures DisabledIf(st.slots[i], r.slots[i], i in [n] + rest) {
      assert DisabledIf(st.slots[i], s.slots[i], i in [n]) && DisabledIf(s.slots[i], r.slots[i], i in rest);
    }
  }

  lemma {:induction false} DisableAll(st: State, c: Command, sel: seq<int>)
    requires Sized(st) && c.DisableSel?
    ensures Disables(st, SelectAll(c, st, sel), sel)
    decreases |sel|
  {
    if sel != [] {
      var s := Select(c, st, sel[0]);
      DisableOne(st, sel[0], c);
      DisableAll(s, c, sel[1..]);
      DisablesThen(st, s, SelectAll(c, st, sel), sel[0], sel[1..]);
      assert [sel[0]] + sel[1..] == sel;
    }
  }

  /** Disabling a selection switches off exactly the selected profiles and those selected modules that may be signalled. */
  lemma DisableEffect(st: State, sel: seq<int>)
    requires Sized(st)
    ensures Disables(st, Perform(DisableSel(sel), st), sel)
  {
    DisableAll(st, DisableSel(sel), sel);
  }

  // ----- Restarting -----

  /** A selected module that is enabled, runs and may be signalled is stopped and marked to be started again. */
  predicate RestartedIf(m: Module, n: Module, selected: bool) {
    if selected && m.enabled && m.status && !m.rootPerm
    then !n.enabled && n.init && !n.served && n == m.(enabled := n.enabled, init := n.init, served := n.served)
    else n == m
  }

  ghost predicate Restarts(st: State, r: State, sel: seq<int>) {
    && Switched(st, r) && r.profiles == st.profiles
    && (forall i :: 0 <= i < st.loaded ==> RestartedIf(st.slots[i], r.slots[i], i in sel))
  }

  lemma RestartOne(st: State, n: int, c: Command)
    requires Sized(st) && c.RestartSel?
    ensures Restarts(st, Select(c, st, n), [n])
  {}

  lemma RestartsThen(st: State, s: State, r: State, n: int, rest: seq<int>)
    requires Restarts(st, s, [n]) && Restarts(s, r, rest)
    ensures Restarts(st, r, [n] + rest)
  {
    forall i | 0 <= i < st.loaded ensures RestartedIf(st.slots[i], r.slots[i], i in [n] + rest) {
      assert RestartedIf(st.slots[i], s.slots[i], i in [n]) && RestartedIf(s.slots[i], r.slots[i], i in rest);
    }
  }

  lemma {:induction false} RestartAll(st: State, c: Command, sel: seq<int>)
    requires Sized(st) && c.RestartSel?
    ensures Restarts(st, SelectAll(c, st, sel), sel)
    decreases |sel|
  {
    if sel != [] {
      var s := Select(c, st, sel[0]);
      RestartOne(st, sel[0], c);
      RestartAll(s, c, sel[1..]);
      RestartsThen(st, s, SelectAll(c, st, sel), sel[0], sel[1..]);
      assert [sel[0]] + sel[1..] == sel;
    }
  }

  /** Restarting a selection leaves exactly the selected modules that are enabled, run and may be signalled waiting. */
  lemma RestartEffect(st: State, sel: seq<int>)
    requires Sized(st)
    ensures Restarts(st, Perform(RestartSel(sel), st), sel)
    ensures var r := Perform(RestartSel(sel), st);
            forall i :: 0 <= i < st.loaded && !st.slots[i].remove && !Waits(st.slots[i]) ==>
              (Waits(r.slots[i]) <==> i in sel && st.slots[i].enabled && st.slots[i].status && !st.slots[i].rootPerm)
  {
    RestartAll(st, RestartSel(sel), sel);
    var r := Perform(RestartSel(sel), st);
    forall i | 0 <= i < st.loaded && !st.slots[i].remove && !Waits(st.slots[i])
      ensures Waits(r.slots[i]) <==> i in sel && st.slots[i].enabled && st.slots[i].status && !st.slots[i].rootPerm {
      assert RestartedIf(st.slots[i], r.slots[i], i in sel);
    }
  }

  // ----- All modules -----

  lemma {:induction false} SwitchedOn(st: State, x: nat)
    requires Sized(st)
    ensures var r := SwitchAll(st, x, true);
            && r == st.(slots := r.slots) && |r.slots| == |st.slots|
            && forall i :: 0 <= i < |st.slots| ==> EnabledIf(st.slots[i], r.slots[i], x <= i < st.loaded)
    decreases st.loaded - x
  {
    if x < st.loaded {
      SwitchedOn(Put(st, x, EnabledBy(st.slots[x])), x + 1);
    }
  }

  /** Starting the configuration enables every module and changes nothing else. */
  lemma StartAllEffect(st: State)
    requires Sized(st)
    ensures var r := Perform(StartAll, st);
            && r == st.(slots := r.slots) && |r.slots| == |st.slots|
            && (forall i :: 0 <= i < st.loaded ==> r.slots[i].enabled && EnabledIf(st.slots[i], r.slots[i], true))
            && (forall i :: st.loaded <= i < |st.slots| ==> r.slots[i] == st.slots[i])
  {
    SwitchedOn(st, 0);
  }

  /** Stopping it disables every module and changes nothing else. */
  lemma StopAllEffect(st: State)
    requires Sized(st)
    ensures var r := Perform(StopAll, st);
            && r == st.(slots := r.slots) && |r.slots| == |st.slots|
            && forall i :: 0 <= i < |st.slots| ==>
                 r.slots[i] == if i < st.loaded then st.slots[i].(enabled := false) else st.slots[i]
  {
    SwitchedOff(st, 0);
  }

  // ----- What follows -----

  /** A module that is down and that the user enables is up after one calm period, if its profile is enabled by then. */
  lemma EnabledComesUp(st: State, sel: seq<int>, e: nat -> Env, i: nat) returns (k: nat)
    requires Inv(st) && Unreaped(st) && i < st.loaded && i in sel && !st.slots[i].enabled && st.slots[i].pid <= 0
    requires var s := Perform(EnableSel(sel), st);
             Calm(s, e) && ProfilelessOff(s) && ProfileEnabled(s.profiles, st.slots[i])
    ensures var r := Period(Perform(EnableSel(sel), st), e);
            k < r.loaded && r.slots[k].name == st.slots[i].name && Serving(r.profiles, r.slots[k], r.os)
  {
    var s := Perform(EnableSel(sel), st);
    EnableEffect(st, sel);
    PerformKeeps(EnableSel(sel), st);
    assert EnabledIf(st.slots[i], s.slots[i], i in sel);
    k := StartPeriod(s, e, i);
  }

  /** A module that the user disables is down after one period, whatever the kernel does, unless it may not be signalled. */
  lemma DisabledGoesDown(st: State, sel: seq<int>, e: nat -> Env, i: nat)
    requires Inv(st) && Unreaped(st) && i < st.loaded && i in sel && !st.slots[i].rootPerm
    ensures var q := Stage(Perform(DisableSel(sel), st), 7, e);
            i < q.loaded && q.slots[i].name == st.slots[i].name && Stopping.Halted(q.slots[i], q.os)
  {
    var s := Perform(DisableSel(sel), st);
    DisableEffect(st, sel);
    PerformKeeps(DisableSel(sel), st);
    assert DisabledIf(st.slots[i], s.slots[i], i in sel);
    Stopping.EndingStage(s, 7, e, i);
    var s1, s2, s7, s8, r := FindLandmarks(s, e);
    Switches7(s, e, i, s1, s2, s7, s8, r);
  }
}
