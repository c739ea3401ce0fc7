/** What a user may do between two periods, under the same lock
    (interactive_set_enabled, interactive_set_disabled, interactive_restart_module,
    interactive_start_configuration, interactive_stop_configuration). A selection
    numbers the loaded modules first and the profiles after them. */
module Commands {
  import opened Model
  import opened Service
  import opened Invariants

  datatype Command = EnableSel(sel: seq<int>) | DisableSel(sel: seq<int>) | RestartSel(sel: seq<int>) | StartAll | StopAll

  function SetProfile(st: State, n: int, on: bool): State
    requires 0 <= n < |st.profiles|
  {
    st.(profiles := st.profiles[n := st.profiles[n].(enabled := on)])
  }

  function EnabledBy(m: Module): Module {
    m.(enabled := true, restartCnt := if m.enabled then m.restartCnt else -1)
  }

  function DisabledBy(m: Module): Module {
    m.(enabled := m.enabled && m.rootPerm)
  }

  function RestartedBy(m: Module): Module {
    var hit := m.enabled && m.status && !m.rootPerm;
    m.(served := m.served && !hit, enabled := m.enabled && !hit, init := m.init || hit)
  }

  /** One selected number. */
  function Select(c: Command, st: State, n: int): (r: State)
    requires Sized(st)
    ensures Sized(r) && |r.slots| == |st.slots| && |r.profiles| == |st.profiles| && r.loaded == st.loaded
  {
    if n < 0 || n >= st.loaded + |st.profiles| then st
    else if n < st.loaded then
      var m := st.slots[n];
      match c
      case EnableSel(_) => Put(st, n, EnabledBy(m))
      case DisableSel(_) => Put(st, n, DisabledBy(m))
      case RestartSel(_) => Put(st, n, RestartedBy(m))
      case _ => st
    else match c
      case EnableSel(_) => SetProfile(st, n - st.loaded, true)
      case DisableSel(_) => SetProfile(st, n - st.loaded, false)
      case _ => st
  }

  function SelectAll(c: Command, st: State, sel: seq<int>): (r: State)
    requires Sized(st)
    ensures Sized(r) && |r.slots| == |st.slots| && |r.profiles| == |st.profiles| && r.loaded == st.loaded
    decreases |sel|
  {
    if sel == [] then st else SelectAll(c, Select(c, st, sel[0]), sel[1..])
  }

  /** interactive_start_configuration and interactive_stop_configuration from slot x on. */
  function SwitchAll(st: State, x: nat, on: bool): (r: State)
    requires Sized(st)
    ensures Sized(r) && |r.slots| == |st.slots| && r.loaded == st.loaded && r.profiles == st.profiles && r.os == st.os
    decreases st.loaded - x
  {
    if x >= st.loaded then st
    else SwitchAll(Put(st, x, if on then EnabledBy(st.slots[x]) else st.slots[x].(enabled := false)), x + 1, on)
  }

  function Perform(c: Command, st: State): (r: State)
    requires Sized(st)
    ensures Sized(r) && |r.slots| == |st.slots|
  {
    match c
    case EnableSel(sel) => SelectAll(c, st, sel)
    case DisableSel(sel) => SelectAll(c, st, sel)
    case RestartSel(sel) => SelectAll(c, st, sel)
    case StartAll => SwitchAll(st, 0, true)
    case StopAll => SwitchAll(st, 0, false)
  }

  /** Commands change only switches, so they keep the invariant. */
  ghost predicate SwitchesOnly(m: Module, n: Module) {
    n == m.(enabled := n.enabled, restartCnt := n.restartCnt, served := n.served, init := n.init)
    && (n.restartCnt == m.restartCnt || n.restartCnt == -1) && (n.served ==> m.served)
  }

  lemma SwitchKeeps(st: State, x: nat, n: Module)
    requires Inv(st) && Unreaped(st) && x < st.loaded && SwitchesOnly(st.slots[x], n)
    ensures Inv(Put(st, x, n)) && Unreaped(Put(st, x, n))
    ensures Settled(st) ==> Settled(Put(st, x, n))
  {
    assert SlotOk(st.slots[x], |st.profiles|);
    assert SlotOk(n, |st.profiles|) && Follows(st.slots[x], n, st.os);
    PutKeeps(st, x, n);
    assert SettledSlot(st.slots[x], st.os) ==> SettledSlot(n, st.os);
  }

  lemma SelectKeeps(c: Command, st: State, n: int)
    requires Inv(st) && Unreaped(st)
    ensures Inv(Select(c, st, n)) && Unreaped(Select(c, st, n))
    ensures Settled(st) ==> Settled(Select(c, st, n))
  {
    if 0 <= n < st.loaded {
      match c
      case EnableSel(_) => SwitchKeeps(st, n, EnabledBy(st.slots[n]));
      case DisableSel(_) => SwitchKeeps(st, n, DisabledBy(st.slots[n]));
      case RestartSel(_) => SwitchKeeps(st, n, RestartedBy(st.slots[n]));
      case _ =>
    }
  }

  lemma {:induction false} SelectAllKeeps(c: Command, st: State, sel: seq<int>)
    requires Inv(st) && Unreaped(st)
    ensures Inv(SelectAll(c, st, sel)) && Unreaped(SelectAll(c, st, sel))
    ensures Settled(st) ==> Settled(SelectAll(c, st, sel))
    decreases |sel|
  {
    if sel != [] {
      SelectKeeps(c, st, sel[0]);
      SelectAllKeeps(c, Select(c, st, sel[0]), sel[1..]);
    }
  }

  lemma {:induction false} SwitchAllKeeps(st: State, x: nat, on: bool)
    requires Inv(st) && Unreaped(st)
    ensures Inv(SwitchAll(st, x, on)) && Unreaped(SwitchAll(st, x, on))
    ensures Settled(st) ==> Settled(SwitchAll(st, x, on))
    decreases st.loaded - x
  {
    if x < st.loaded {
      var n := if on then EnabledBy(st.slots[x]) else st.slots[x].(enabled := false);
      SwitchKeeps(st, x, n);
      SwitchAllKeeps(Put(st, x, n), x + 1, on);
    }
  }

  lemma PerformKeeps(c: Command, st: State)
    requires Inv(st) && Unreaped(st)
    ensures Inv(Perform(c, st)) && Unreaped(Perform(c, st))
    ensures Settled(st) ==> Settled(Perform(c, st))
  {
    match c
    case EnableSel(sel) => SelectAllKeeps(c, st, sel);
    case DisableSel(sel) => SelectAllKeeps(c, st, sel);
    case RestartSel(sel) => SelectAllKeeps(c, st, sel);
    case StartAll => SwitchAllKeeps(st, 0, true);
    case StopAll => SwitchAllKeeps(st, 0, false);
  }
}
