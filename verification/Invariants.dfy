/** What every loop of a period keeps: the table, the record of processes, the
    service sockets and the discipline of the event log. */
module Invariants {
  import opened Model
  import opened Kernel
  import opened Service

  // ----- The log -----

  /** What must have happened before an event.
      - A module is forked only after every earlier process of that name was reaped.
      - Signals go to positive PIDs that were not reaped, SIGKILL only after SIGINT to the same PID.
      - A module whose limit is MAX_RESTARTS is never disabled. */
  ghost predicate EventOk(before: seq<Event>, e: Event) {
    match e
    case Forked(n, p) =>
      && p > 0
      && (forall m :: Forked(m, p) !in before)
      && (forall q :: Forked(n, q) in before ==> Reaped(q) in before)
    case ForkFailed(n) => forall q :: Forked(n, q) in before ==> Reaped(q) in before
    case AutoDisabled(_, limit) => limit != MAX_RESTARTS
    case SentSigint(p) => p > 0 && Reaped(p) !in before
    case SentSigkill(p) => p > 0 && Reaped(p) !in before && SentSigint(p) in before
    case Reaped(p) => p > 0 && Reaped(p) !in before && exists n :: Forked(n, p) in before
  }

  ghost predicate OkAt(trace: seq<Event>, j: nat)
    requires j < |trace|
  {
    EventOk(trace[..j], trace[j])
  }

  ghost predicate Disciplined(trace: seq<Event>) {
    forall j :: 0 <= j < |trace| ==> OkAt(trace, j)
  }

  lemma DisciplinedAppend(trace: seq<Event>, e: Event)
    requires Disciplined(trace) && EventOk(trace, e)
    ensures Disciplined(trace + [e])
  {
    var t := trace + [e];
    forall j | 0 <= j < |t| ensures OkAt(t, j) {
      assert t[..j] == trace[..j];
      if j < |trace| {
        assert OkAt(trace, j);
      } else {
        assert trace[..j] == trace;
      }
    }
  }

  // ----- The table -----

  predicate Blank(m: Module) {
    m.name == "" && m.path == None && m.params == None && m.ifces == [] && !m.enabled && m.profile == None
    && !m.remove && !m.init && !m.status && !m.running && m.restartCnt == 0 && m.restartTimer == 0
    && m.pid == 0 && !m.sentSigint && m.sd == 0 && !m.connected && m.connTimer == 0
  }

  /** Names identify loaded modules; the slots past the last loaded one are blank. */
  ghost predicate Table(slots: seq<Module>, loaded: nat) {
    && loaded <= |slots|
    && (forall i, j :: 0 <= i < j < loaded ==> slots[i].name != slots[j].name)
    && (forall i :: loaded <= i < |slots| ==> Blank(slots[i]))
  }

  /** What every loaded module satisfies on its own. */
  predicate SlotOk(m: Module, profiles: nat) {
    && m.name != "" && m.path.Some? && (m.status ==> m.pid > 0)
    && (m.connected ==> m.status && m.sd >= 0)
    && (!m.connected ==> m.sd == -1 || (m.sd == 0 && m.pid <= 0))
    && 0 <= m.restartTimer < PERIODS && -1 <= m.restartCnt <= m.restartTimer + 1
    && -1 <= m.maxRestarts <= MAX_RESTARTS
    && (m.remove <==> m.profile.None?) && (m.remove ==> !m.served)
    && (m.profile.Some? ==> m.profile.value < profiles)
  }

  ghost predicate SlotsOk(slots: seq<Module>, loaded: nat, profiles: nat) {
    loaded <= |slots| && forall i :: 0 <= i < loaded ==> SlotOk(slots[i], profiles)
  }

  // ----- Service sockets -----

  /** The open service sockets are exactly those of the connected modules, one each. */
  ghost predicate Sockets(slots: seq<Module>, loaded: nat, open: set<int>) {
    && loaded <= |slots|
    && (forall i :: 0 <= i < loaded && slots[i].connected ==> slots[i].sd in open)
    && (forall i, j :: 0 <= i < j < loaded && slots[i].connected && slots[j].connected ==> slots[i].sd != slots[j].sd)
    && (forall f :: f in open ==> Held(slots, loaded, f))
  }

  ghost predicate Held(slots: seq<Module>, loaded: nat, f: int) {
    exists i :: 0 <= i < loaded <= |slots| && slots[i].connected && slots[i].sd == f
  }

  // ----- Processes -----

  ghost predicate OsOk(os: map<int, Proc>) {
    forall p :: p in os ==> p > 0 && (os[p].phase.Zombie? ==> os[p].child)
  }

  /** A slot that holds the PID of a child holds that child's own module. */
  predicate OwnsPid(m: Module, os: map<int, Proc>) {
    m.pid > 0 && m.pid in os && os[m.pid].child ==>
      os[m.pid].owner == m.name && (!os[m.pid].phase.Gone? ==> m.myChild)
  }

  ghost predicate Owned(slots: seq<Module>, loaded: nat, os: map<int, Proc>) {
    loaded <= |slots| && forall i :: 0 <= i < loaded ==> OwnsPid(slots[i], os)
  }

  ghost predicate HasPid(slots: seq<Module>, loaded: nat, p: int) {
    exists i :: 0 <= i < loaded <= |slots| && slots[i].pid == p
  }

  /** No two slots record the same PID. */
  ghost predicate Distinct(slots: seq<Module>, loaded: nat) {
    loaded <= |slots| && forall i, j :: 0 <= i < j < loaded && slots[i].pid > 0 ==> slots[i].pid != slots[j].pid
  }

  /** Every child that is not gone is recorded in some slot. */
  ghost predicate Recorded(slots: seq<Module>, loaded: nat, os: map<int, Proc>) {
    forall p :: p in os && os[p].child && !os[p].phase.Gone? ==> HasPid(slots, loaded, p)
  }

  // ----- The log and the rest -----

  ghost predicate TraceOs(trace: seq<Event>, os: map<int, Proc>) {
    && (forall n, p :: Forked(n, p) in trace <==> p in os && os[p].child && os[p].owner == n)
    && (forall p :: Reaped(p) in trace <==> p in os && os[p].child && os[p].phase.Gone?)
  }

  ghost predicate SigintLogged(slots: seq<Module>, loaded: nat, trace: seq<Event>) {
    loaded <= |slots|
    && forall i :: 0 <= i < loaded && slots[i].pid > 0 && slots[i].sentSigint ==> SentSigint(slots[i].pid) in trace
  }

  ghost predicate Inv(st: State) {
    && Table(st.slots, st.loaded)
    && SlotsOk(st.slots, st.loaded, |st.profiles|)
    && 0 <= st.defaultLimit <= MAX_RESTARTS
    && Sockets(st.slots, st.loaded, st.open)
    && OsOk(st.os)
    && Owned(st.slots, st.loaded, st.os)
    && Recorded(st.slots, st.loaded, st.os)
    && Distinct(st.slots, st.loaded)
    && Disciplined(st.trace)
    && TraceOs(st.trace, st.os)
    && SigintLogged(st.slots, st.loaded, st.trace)
  }

  /** After a status check: a slot records a PID exactly when its status says so. */
  predicate SettledSlot(m: Module, os: map<int, Proc>) {
    (m.pid > 0 <==> m.status) && (m.pid > 0 ==> m.pid in os)
  }

  ghost predicate Settled(st: State) {
    Sized(st) && forall i :: 0 <= i < st.loaded ==> SettledSlot(st.slots[i], st.os)
  }

  /** No slot records a child that was reaped: true except between a reap and the next check. */
  predicate UnreapedSlot(m: Module, os: map<int, Proc>) {
    m.pid > 0 && m.pid in os && os[m.pid].child ==> !os[m.pid].phase.Gone?
  }

  ghost predicate Unreaped(st: State) {
    Sized(st) && forall i :: 0 <= i < st.loaded ==> UnreapedSlot(st.slots[i], st.os)
  }

  /** What a step may rely on. */
  ghost predicate Ready(op: Op, st: State) {
    && (op == Update || op == Serve ==> Settled(st))
    && (op == Sigint || op == Kill ==> Unreaped(st))
  }

  // ----- Replacing one record -----

  lemma TablePut(slots: seq<Module>, loaded: nat, x: nat, n: Module)
    requires Table(slots, loaded) && x < loaded && n.name == slots[x].name
    ensures Table(slots[x := n], loaded)
  {}

  lemma DistinctPut(slots: seq<Module>, loaded: nat, x: nat, n: Module)
    requires Distinct(slots, loaded) && x < loaded
    requires n.pid <= 0 || forall i :: 0 <= i < loaded && i != x ==> slots[i].pid != n.pid
    ensures Distinct(slots[x := n], loaded)
  {}

  lemma RecordedPut(slots: seq<Module>, loaded: nat, os: map<int, Proc>, x: nat, n: Module)
    requires Recorded(slots, loaded, os) && x < loaded <= |slots|
    requires n.pid == slots[x].pid || !CanWait(os, slots[x].pid)
    ensures Recorded(slots[x := n], loaded, os)
  {
    forall p | p in os && os[p].child && !os[p].phase.Gone? ensures HasPid(slots[x := n], loaded, p) {
      assert HasPid(slots, loaded, p);
      var i :| 0 <= i < loaded && slots[i].pid == p;
      assert slots[x := n][i].pid == p;
    }
  }

  lemma SocketsPut(slots: seq<Module>, loaded: nat, open: set<int>, x: nat, n: Module)
    requires Sockets(slots, loaded, open) && x < loaded
    requires !n.connected || (slots[x].connected && n.sd == slots[x].sd)
    ensures Sockets(slots[x := n], loaded, if slots[x].connected && !n.connected then open - {slots[x].sd} else open)
  {
    var open' := if slots[x].connected && !n.connected then open - {slots[x].sd} else open;
    forall f | f in open' ensures Held(slots[x := n], loaded, f) {
      assert Held(slots, loaded, f);
      var i :| 0 <= i < loaded && slots[i].connected && slots[i].sd == f;
      assert slots[x := n][i].sd == f;
    }
  }

  lemma SocketsOpen(slots: seq<Module>, loaded: nat, open: set<int>, x: nat, n: Module)
    requires Sockets(slots, loaded, open) && x < loaded && !slots[x].connected && n.connected && n.sd !in open
    ensures Sockets(slots[x := n], loaded, open + {n.sd})
  {
    forall f | f in open + {n.sd} ensures Held(slots[x := n], loaded, f) {
      if f == n.sd {
        assert slots[x := n][x].sd == f;
      } else {
        assert Held(slots, loaded, f);
        var i :| 0 <= i < loaded && slots[i].connected && slots[i].sd == f;
        assert slots[x := n][i].sd == f;
      }
    }
  }

  /** What a record may become without disturbing the other slots. */
  predicate Follows(m: Module, n: Module, os: map<int, Proc>) {
    && n.name == m.name && n.sentSigint == m.sentSigint
    && (n.pid == m.pid || (n.pid <= 0 && !CanWait(os, m.pid)))
    && (n.myChild == m.myChild || !CanWait(os, m.pid))
    && (if m.connected && !n.connected then n.sd == -1 else n.sd == m.sd && n.connected == m.connected)
  }

  lemma ReplaceKeeps(st: State, x: nat, n: Module)
    requires Inv(st) && x < st.loaded && SlotOk(n, |st.profiles|) && Follows(st.slots[x], n, st.os)
    ensures Inv(Replace(st, x, n))
    ensures Settled(st) && SettledSlot(n, st.os) ==> Settled(Replace(st, x, n))
    ensures Unreaped(st) ==> Unreaped(Replace(st, x, n))
  {
    var m := st.slots[x];
    assert SlotOk(m, |st.profiles|);
    TablePut(st.slots, st.loaded, x, n);
    RecordedPut(st.slots, st.loaded, st.os, x, n);
    DistinctPut(st.slots, st.loaded, x, n);
    SocketsPut(st.slots, st.loaded, st.open, x, n);
    assert OwnsPid(n, st.os) by {
      assert OwnsPid(m, st.os);
    }
  }

  /** A slot that is not connected holds no open socket. */
  lemma SocketsAt(slots: seq<Module>, loaded: nat, open: set<int>, profiles: nat, x: nat)
    requires Sockets(slots, loaded, open) && SlotsOk(slots, loaded, profiles) && x < loaded && slots[x].sd == -1
    ensures -1 !in open
  {
    assert -1 in open ==> Held(slots, loaded, -1);
  }

  lemma PutKeeps(st: State, x: nat, n: Module)
    requires Inv(st) && x < st.loaded && SlotOk(n, |st.profiles|) && Follows(st.slots[x], n, st.os)
    requires n.sd == st.slots[x].sd
    ensures Inv(Put(st, x, n))
    ensures Settled(st) && SettledSlot(n, st.os) ==> Settled(Put(st, x, n))
    ensures Unreaped(st) ==> Unreaped(Put(st, x, n))
  {
    ReplaceKeeps(st, x, n);
    assert Replace(st, x, n) == Put(st, x, n);
  }

  // ----- Each step keeps the invariant -----

  lemma ExitKeeps(st: State, dying: set<int>) returns (r: State)
    requires Inv(st)
    ensures r == st.(os := Exit(st.os, dying)) && Inv(r) && Later(st.os, r.os) && Untouched(st.os, r.os)
    ensures Settled(st) ==> Settled(r)
    ensures Unreaped(st) ==> Unreaped(r)
  {
    r := st.(os := Exit(st.os, dying));
    forall i | 0 <= i < st.loaded ensures OwnsPid(r.slots[i], r.os) {
      assert OwnsPid(st.slots[i], st.os);
    }
  }

  lemma CheckedFollows(m: Module, os: map<int, Proc>, profiles: nat)
    requires SlotOk(m, profiles)
    ensures var n := Checked(m, os);
            SlotOk(n, profiles) && Follows(m, n, os) && SettledSlot(n, os) && UnreapedSlot(n, os)
  {}

  lemma CheckKeeps(st: State, x: nat)
    requires Inv(st) && x < st.loaded
    ensures Inv(CheckSlot(st, x))
    ensures CheckSlot(st, x).os == st.os
    ensures SettledSlot(CheckSlot(st, x).slots[x], st.os) && UnreapedSlot(CheckSlot(st, x).slots[x], st.os)
    ensures forall i :: 0 <= i < st.loaded && i != x ==> CheckSlot(st, x).slots[i] == st.slots[i]
  {
    CheckedFollows(st.slots[x], st.os, |st.profiles|);
    ReplaceKeeps(st, x, Checked(st.slots[x], st.os));
  }

  lemma DisconnectKeeps(st: State, x: nat)
    requires Inv(st) && x < st.loaded
    ensures Inv(Disconnect(st, x))
    ensures Settled(st) ==> Settled(Disconnect(st, x))
    ensures Unreaped(st) ==> Unreaped(Disconnect(st, x))
  {
    assert SlotOk(st.slots[x], |st.profiles|);
    ReplaceKeeps(st, x, Disconnected(st.slots[x]));
  }

  /** A module gets a socket of its own. */
  lemma OpenKeeps(st: State, x: nat, n: Module)
    requires Inv(st) && x < st.loaded && st.slots[x].status && !st.slots[x].connected && n.connected
    requires n == st.slots[x].(sd := n.sd, connected := true, connTimer := 0) && n.sd >= 0 && n.sd !in st.open
    ensures var r := Put(st, x, n).(open := st.open + {n.sd});
            Inv(r) && (Settled(st) ==> Settled(r)) && (Unreaped(st) ==> Unreaped(r))
  {
    assert SlotOk(st.slots[x], |st.profiles|);
    TablePut(st.slots, st.loaded, x, n);
    RecordedPut(st.slots, st.loaded, st.os, x, n);
    DistinctPut(st.slots, st.loaded, x, n);
    SocketsOpen(st.slots, st.loaded, st.open, x, n);
    assert OwnsPid(n, st.os) by { assert OwnsPid(st.slots[x], st.os); }
  }

  lemma ConnectKeeps(st: State, x: nat, c: Option<int>) returns (r: State)
    requires Inv(st) && x < st.loaded
    ensures r == ConnectSlot(st, x, c) && Inv(r)
    ensures (Settled(st) ==> Settled(r)) && (Unreaped(st) ==> Unreaped(r))
  {
    var m := st.slots[x];
    assert SlotOk(m, |st.profiles|);
    r := ConnectSlot(st, x, c);
    if m.status && !m.connected {
      var n := r.slots[x];
      if (m.connTimer + 1) % PERIODS == 1 && Connects(st.open, c) {
        OpenKeeps(st, x, n);
      } else {
        TimerKeeps(st, x, n);
      }
    }
  }

  lemma TimerKeeps(st: State, x: nat, n: Module)
    requires Inv(st) && x < st.loaded && n == st.slots[x].(connTimer := n.connTimer)
    ensures var r := Put(st, x, n);
            Inv(r) && (Settled(st) ==> Settled(r)) && (Unreaped(st) ==> Unreaped(r))
  {
    assert SlotOk(st.slots[x], |st.profiles|);
    PutKeeps(st, x, n);
  }

  /** Appending to the log an event that is neither a fork nor a reaped child. */
  lemma LogKeeps(st: State, e: Event)
    requires Inv(st) && EventOk(st.trace, e) && !e.Forked? && !e.Reaped?
    ensures Inv(Log(st, e)) && (Settled(st) ==> Settled(Log(st, e))) && (Unreaped(st) ==> Unreaped(Log(st, e)))
  {
    DisciplinedAppend(st.trace, e);
  }

  /** Marking slot x as having been sent SIGINT, once the log says so. */
  lemma MarkKeeps(st: State, x: nat)
    requires Inv(st) && x < st.loaded && SentSigint(st.slots[x].pid) in st.trace
    ensures var r := Put(st, x, Signalled(st.slots[x], true));
            Inv(r) && (Settled(st) ==> Settled(r)) && (Unreaped(st) ==> Unreaped(r))
  {
    var n := Signalled(st.slots[x], true);
    assert SlotOk(st.slots[x], |st.profiles|);
    TablePut(st.slots, st.loaded, x, n);
    RecordedPut(st.slots, st.loaded, st.os, x, n);
    DistinctPut(st.slots, st.loaded, x, n);
    SocketsPut(st.slots, st.loaded, st.open, x, n);
    assert OwnsPid(n, st.os) by { assert OwnsPid(st.slots[x], st.os); }
  }

  lemma SigintKeeps(st: State, x: nat)
    requires Inv(st) && Unreaped(st) && x < st.loaded
    ensures Inv(SigintSlot(st, x)) && Unreaped(SigintSlot(st, x))
    ensures Settled(st) ==> Settled(SigintSlot(st, x))
  {
    var m := st.slots[x];
    var r := SigintSlot(st, x);
    if |r.trace| > |st.trace| {
      assert SlotOk(m, |st.profiles|) && UnreapedSlot(m, st.os);
      LogKeeps(st, SentSigint(m.pid));
      MarkKeeps(Log(st, SentSigint(m.pid)), x);
    } else {
      assert st.trace + [] == st.trace && st.slots[x := m] == st.slots;
    }
  }

  lemma KillHit(st: State, x: nat)
    requires Inv(st) && Unreaped(st) && x < st.loaded && st.slots[x].status && st.slots[x].sentSigint
    ensures var s := Put(Log(st, SentSigkill(st.slots[x].pid)), x, Signalled(st.slots[x], true));
            Inv(s) && Unreaped(s) && (Settled(st) ==> Settled(s))
  {
    var m := st.slots[x];
    assert SlotOk(m, |st.profiles|) && UnreapedSlot(m, st.os);
    LogKeeps(st, SentSigkill(m.pid));
    MarkKeeps(Log(st, SentSigkill(m.pid)), x);
  }

  lemma KillKeeps(st: State, x: nat)
    requires Inv(st) && Unreaped(st) && x < st.loaded
    ensures Inv(KillSlot(st, x)) && Unreaped(KillSlot(st, x))
    ensures Settled(st) ==> Settled(KillSlot(st, x))
  {
    var m := st.slots[x];
    if m.status && Unwanted(st.profiles, m) && m.sentSigint {
      var s := Put(Log(st, SentSigkill(m.pid)), x, Signalled(m, true));
      KillHit(st, x);
      var dying := if m.pid in st.os && !st.os[m.pid].eperm then {m.pid} else {};
      var r := ExitKeeps(s, dying);
      assert KillSlot(st, x) == r by {
        assert Kernel.Sigkill(st.os, m.pid) == r.os;
      }
    } else {
      assert KillSlot(st, x) == st by {
        assert st.trace + [] == st.trace && st.slots[x := m] == st.slots;
      }
    }
  }

  /** Waiting for a zombie that some slot records. */
  lemma WaitKeeps(st: State, p: int)
    requires Inv(st) && p in st.os && st.os[p].phase.Zombie?
    ensures var r := st.(os := st.os[p := st.os[p].(phase := Gone)], trace := st.trace + [Reaped(p)]);
            Inv(r) && (Settled(st) ==> Settled(r))
  {
    var r := st.(os := st.os[p := st.os[p].(phase := Gone)], trace := st.trace + [Reaped(p)]);
    assert Forked(st.os[p].owner, p) in st.trace;
    DisciplinedAppend(st.trace, Reaped(p));
    forall i | 0 <= i < st.loaded ensures OwnsPid(r.slots[i], r.os) {
      assert OwnsPid(st.slots[i], st.os);
    }
    assert TraceOs(r.trace, r.os);
  }

  lemma ReapKeeps(st: State, x: nat)
    requires Inv(st) && x < st.loaded
    ensures Inv(ReapSlot(st, x))
    ensures Settled(st) ==> Settled(ReapSlot(st, x))
  {
    var m := st.slots[x];
    var r := ReapSlot(st, x);
    assert SlotOk(m, |st.profiles|);
    if |r.trace| > |st.trace| {
      WaitKeeps(st, m.pid);
      assert r.slots == st.slots;
    } else {
      PutKeeps(st, x, r.slots[x]);
      assert r == Put(st, x, r.slots[x]);
    }
  }

  /** When a module is down, no earlier process of that name is left. */
  lemma AllReaped(st: State, x: nat)
    requires Inv(st) && Settled(st) && x < st.loaded && !st.slots[x].status
    ensures forall q :: Forked(st.slots[x].name, q) in st.trace ==> Reaped(q) in st.trace
  {
    forall q | Forked(st.slots[x].name, q) in st.trace ensures Reaped(q) in st.trace {
      assert SettledSlot(st.slots[x], st.os);
    }
  }

  lemma TickFollows(m: Module, os: map<int, Proc>, profiles: nat)
    requires SlotOk(m, profiles) && SettledSlot(m, os)
    ensures var n := Tick(m);
            SlotOk(n, profiles) && Follows(m, n, os) && SettledSlot(n, os) && n.restartCnt <= n.restartTimer
  {}

  lemma StartKeeps(st: State, x: nat, f: ForkOutcome)
    requires Inv(st) && Settled(st) && x < st.loaded && !st.slots[x].status
    requires st.slots[x].restartCnt <= st.slots[x].restartTimer
    ensures Inv(StartSlot(st, x, f)) && Settled(StartSlot(st, x, f))
    ensures Unreaped(st) ==> Unreaped(StartSlot(st, x, f))
  {
    var m := st.slots[x];
    var r := StartSlot(st, x, f);
    var n := r.slots[x];
    assert SlotOk(m, |st.profiles|) && SettledSlot(m, st.os);
    assert Disciplined(r.trace) by {
      AllReaped(st, x);
      DisciplinedAppend(st.trace, r.trace[|st.trace|]);
    }
    TablePut(st.slots, st.loaded, x, n);
    SocketsPut(st.slots, st.loaded, st.open, x, n);
    StartDistinct(st, x, f);
    StartOwned(st, x, f);
  }

  lemma StartDistinct(st: State, x: nat, f: ForkOutcome)
    requires Inv(st) && Settled(st) && x < st.loaded && !st.slots[x].status
    ensures var r := StartSlot(st, x, f);
            Distinct(r.slots, r.loaded) && Recorded(r.slots, r.loaded, r.os)
  {
    var n := StartSlot(st, x, f).slots[x];
    assert SettledSlot(st.slots[x], st.os);
    RecordedPut(st.slots, st.loaded, st.os, x, n);
    assert forall i :: 0 <= i < st.loaded ==> SettledSlot(st.slots[i], st.os);
    DistinctPut(st.slots, st.loaded, x, n);
    assert StartSlot(st, x, f).slots[x].pid == n.pid;
  }

  lemma StartOwned(st: State, x: nat, f: ForkOutcome)
    requires Inv(st) && Settled(st) && x < st.loaded && !st.slots[x].status
    ensures var r := StartSlot(st, x, f);
            && Owned(r.slots, r.loaded, r.os) && Settled(r) && TraceOs(r.trace, r.os) && (Unreaped(st) ==> Unreaped(r))
  {
    var r := StartSlot(st, x, f);
    forall i | 0 <= i < r.loaded ensures OwnsPid(r.slots[i], r.os) && SettledSlot(r.slots[i], r.os) {
      assert OwnsPid(st.slots[i], st.os) && SettledSlot(st.slots[i], st.os);
    }
  }

  lemma DisableKeeps(st: State, x: nat, limit: int)
    requires Inv(st) && Settled(st) && x < st.loaded && limit != MAX_RESTARTS
    ensures var r := Log(Put(st, x, st.slots[x].(enabled := false)), AutoDisabled(st.slots[x].name, limit));
            Inv(r) && Settled(r) && (Unreaped(st) ==> Unreaped(r))
  {
    var n := st.slots[x].(enabled := false);
    assert SlotOk(st.slots[x], |st.profiles|) && SettledSlot(st.slots[x], st.os);
    PutKeeps(st, x, n);
    LogKeeps(Put(st, x, n), AutoDisabled(n.name, limit));
  }

  lemma TickKeeps(st: State, x: nat)
    requires Inv(st) && Settled(st) && x < st.loaded
    ensures var r := Put(st, x, Tick(st.slots[x]));
            Inv(r) && Settled(r) && (Unreaped(st) ==> Unreaped(r)) && SlotOk(r.slots[x], |r.profiles|)
            && r.slots[x].restartCnt <= r.slots[x].restartTimer
  {
    TickFollows(st.slots[x], st.os, |st.profiles|);
    PutKeeps(st, x, Tick(st.slots[x]));
  }

  lemma UpdateKeeps(st: State, x: nat, f: ForkOutcome)
    requires Inv(st) && Settled(st) && x < st.loaded
    ensures Inv(UpdateSlot(st, x, f)) && Settled(UpdateSlot(st, x, f))
    ensures Unreaped(st) ==> Unreaped(UpdateSlot(st, x, f))
  {
    TickKeeps(st, x);
    var st1 := Put(st, x, Tick(st.slots[x]));
    match Decide(st.profiles, st.defaultLimit, Tick(st.slots[x]))
    case Leave =>
    case Disable => DisableKeeps(st1, x, Limit(st.defaultLimit, Tick(st.slots[x])));
    case Start => StartKeeps(st1, x, f);
  }

  /** Slot k of the shifted array is slot `From(k, x)` of the original. */
  function From(k: nat, x: nat): nat {
    if k < x then k else k + 1
  }

  lemma RemovedAt(slots: seq<Module>, loaded: nat, x: nat)
    requires x < loaded <= |slots|
    ensures var r := Removed(slots, loaded, x);
            |r| == |slots|
            && (forall k :: 0 <= k < loaded - 1 ==> r[k] == slots[From(k, x)])
            && r[loaded - 1] == BlankModule
            && (forall k :: loaded <= k < |slots| ==> r[k] == slots[k])
  {}

  lemma RemoveKeepsTable(slots: seq<Module>, loaded: nat, x: nat)
    requires Table(slots, loaded) && x < loaded
    ensures Table(Removed(slots, loaded, x), loaded - 1)
  {
    RemovedAt(slots, loaded, x);
    var r := Removed(slots, loaded, x);
    forall i, j | 0 <= i < j < loaded - 1 ensures r[i].name != r[j].name {
      assert slots[From(i, x)].name != slots[From(j, x)].name;
    }
  }

  lemma RemoveKeepsSockets(slots: seq<Module>, loaded: nat, open: set<int>, x: nat)
    requires Sockets(slots, loaded, open) && x < loaded && !slots[x].connected
    ensures Sockets(Removed(slots, loaded, x), loaded - 1, open)
  {
    RemovedAt(slots, loaded, x);
    var r := Removed(slots, loaded, x);
    forall i, j | 0 <= i < j < loaded - 1 && r[i].connected && r[j].connected ensures r[i].sd != r[j].sd {
      assert slots[From(i, x)].sd != slots[From(j, x)].sd;
    }
    forall f | f in open ensures Held(r, loaded - 1, f) {
      assert Held(slots, loaded, f);
      var i :| 0 <= i < loaded && slots[i].connected && slots[i].sd == f;
      var k := if i < x then i else i - 1;
      assert From(k, x) == i && r[k].sd == f;
    }
  }

  lemma RemoveKeepsRecorded(slots: seq<Module>, loaded: nat, os: map<int, Proc>, x: nat)
    requires Recorded(slots, loaded, os) && x < loaded <= |slots| && !CanWait(os, slots[x].pid)
    ensures Recorded(Removed(slots, loaded, x), loaded - 1, os)
  {
    RemovedAt(slots, loaded, x);
    var r := Removed(slots, loaded, x);
    forall p | p in os && os[p].child && !os[p].phase.Gone? ensures HasPid(r, loaded - 1, p) {
      assert HasPid(slots, loaded, p);
      var i :| 0 <= i < loaded && slots[i].pid == p;
      var k := if i < x then i else i - 1;
      assert From(k, x) == i && r[k].pid == p;
    }
  }

  /** The parts of the invariant that speak of each slot on its own. */
  lemma RemoveKeepsSlots(st: State, x: nat)
    requires Inv(st) && Settled(st) && x < st.loaded
    ensures var r := st.(slots := Removed(st.slots, st.loaded, x), loaded := st.loaded - 1);
            SlotsOk(r.slots, r.loaded, |st.profiles|) && Owned(r.slots, r.loaded, st.os)
            && SigintLogged(r.slots, r.loaded, st.trace) && Settled(r) && (Unreaped(st) ==> Unreaped(r))
  {
    RemovedAt(st.slots, st.loaded, x);
    var r := Removed(st.slots, st.loaded, x);
    forall i | 0 <= i < st.loaded - 1
      ensures SlotOk(r[i], |st.profiles|) && OwnsPid(r[i], st.os) && SettledSlot(r[i], st.os)
              && (r[i].pid > 0 && r[i].sentSigint ==> SentSigint(r[i].pid) in st.trace)
              && (Unreaped(st) ==> UnreapedSlot(r[i], st.os)) {
      var j := From(i, x);
      assert r[i] == st.slots[j] && SlotOk(st.slots[j], |st.profiles|) && OwnsPid(st.slots[j], st.os) && SettledSlot(st.slots[j], st.os);
    }
  }

  lemma RemoveKeepsDistinct(slots: seq<Module>, loaded: nat, x: nat)
    requires Distinct(slots, loaded) && x < loaded
    ensures Distinct(Removed(slots, loaded, x), loaded - 1)
  {
    RemovedAt(slots, loaded, x);
    var r := Removed(slots, loaded, x);
    forall i, j | 0 <= i < j < loaded - 1 && r[i].pid > 0 ensures r[i].pid != r[j].pid {
      assert slots[From(i, x)].pid != slots[From(j, x)].pid;
    }
  }

  lemma RemoveKeeps(st: State, x: nat)
    requires Inv(st) && Settled(st) && x < st.loaded && !st.slots[x].status
    ensures var r := st.(slots := Removed(st.slots, st.loaded, x), loaded := st.loaded - 1);
            Inv(r) && Settled(r) && (Unreaped(st) ==> Unreaped(r))
  {
    assert SlotOk(st.slots[x], |st.profiles|) && SettledSlot(st.slots[x], st.os);
    RemoveKeepsSlots(st, x);
    RemoveKeepsDistinct(st.slots, st.loaded, x);
    RemoveKeepsTable(st.slots, st.loaded, x);
    RemoveKeepsSockets(st.slots, st.loaded, st.open, x);
    RemoveKeepsRecorded(st.slots, st.loaded, st.os, x);
  }

  lemma ServeKeeps(st: State, x: nat)
    requires Inv(st) && Settled(st) && x < st.loaded
    ensures Inv(ServeSlot(st, x)) && Settled(ServeSlot(st, x))
    ensures Unreaped(st) ==> Unreaped(ServeSlot(st, x))
  {
    var m := st.slots[x];
    assert SlotOk(m, |st.profiles|) && SettledSlot(m, st.os);
    if Removable(m) {
      RemoveKeeps(st, x);
    } else {
      ReplaceKeeps(st, x, Served(m));
    }
  }

  /** Every step of every loop keeps the invariant. */
  lemma SlotKeeps(op: Op, st0: State, x: nat, e: Env)
    requires Inv(st0) && x < st0.loaded && Ready(op, st0)
    ensures Inv(Slot(op, st0, x, e))
    ensures Settled(st0) ==> Settled(Slot(op, st0, x, e))
    ensures Unreaped(st0) && op != Reap ==> Unreaped(Slot(op, st0, x, e))
  {
    var st := ExitKeeps(st0, e.dying(x));
    if op == Check {
      CheckKeepsAll(st, x, e);
    } else if op == Connect || op == Send || op == Recv {
      TalkKeeps(op, st, x, e);
    } else {
      ActKeeps(op, st, x, e);
    }
  }

  lemma CheckKeepsAll(st: State, x: nat, e: Env)
    requires Inv(st) && x < st.loaded
    ensures var r := Act(Check, st, x, e);
            Inv(r) && (Settled(st) ==> Settled(r)) && (Unreaped(st) ==> Unreaped(r))
  {
    CheckKeeps(st, x);
  }

  lemma TalkKeeps(op: Op, st: State, x: nat, e: Env)
    requires Inv(st) && x < st.loaded && (op == Connect || op == Send || op == Recv)
    ensures var r := Act(op, st, x, e);
            Inv(r) && (Settled(st) ==> Settled(r)) && (Unreaped(st) ==> Unreaped(r))
  {
    if op == Connect {
      var r := ConnectKeeps(st, x, e.connect(x));
    } else {
      DisconnectKeeps(st, x);
    }
  }

  lemma ActKeeps(op: Op, st: State, x: nat, e: Env)
    requires Inv(st) && x < st.loaded && Ready(op, st)
    requires op == Update || op == Sigint || op == Reap || op == Kill || op == Serve
    ensures Inv(Act(op, st, x, e)) && (Settled(st) ==> Settled(Act(op, st, x, e)))
    ensures Unreaped(st) && op != Reap ==> Unreaped(Act(op, st, x, e))
  {
    match op
    case Update => UpdateKeeps(st, x, e.fork(x));
    case Sigint => SigintKeeps(st, x);
    case Reap => ReapKeeps(st, x);
    case Kill => KillKeeps(st, x);
    case Serve => ServeKeeps(st, x);
  }

  lemma {:induction false} PassKeeps(op: Op, st: State, x: nat, e: Env)
    requires Inv(st) && Ready(op, st)
    ensures Inv(Pass(op, st, x, e))
    ensures Settled(st) ==> Settled(Pass(op, st, x, e))
    ensures Unreaped(st) && op != Reap ==> Unreaped(Pass(op, st, x, e))
    decreases st.loaded - x
  {
    if x < st.loaded {
      var s := Slot(op, st, x, e);
      assert Inv(s) && Ready(op, s) && (Settled(st) ==> Settled(s)) && (Unreaped(st) && op != Reap ==> Unreaped(s)) by {
        SlotKeeps(op, st, x, e);
      }
      PassKeeps(op, s, x + 1, e);
    }
  }

  lemma PrefixSettles(st: State, s: State, r: State, x: nat)
    requires x < st.loaded == r.loaded <= |st.slots| == |r.slots| && Later(st.os, s.os) && r.os == s.os
    requires forall i :: 0 <= i < x ==> SettledSlot(st.slots[i], st.os) && UnreapedSlot(st.slots[i], st.os) && r.slots[i] == st.slots[i]
    requires SettledSlot(r.slots[x], s.os) && UnreapedSlot(r.slots[x], s.os) && Untouched(st.os, s.os)
    ensures forall i :: 0 <= i < x + 1 ==> SettledSlot(r.slots[i], r.os) && UnreapedSlot(r.slots[i], r.os)
  {}

  /** No child is waited for by the way. */
  ghost predicate Untouched(a: map<int, Proc>, b: map<int, Proc>) {
    forall p :: p in a && p in b && a[p].child && b[p].phase.Gone? ==> a[p].phase.Gone?
  }

  /** A status check settles every slot it has visited, whatever exits meanwhile. */
  lemma {:induction false} CheckSettles(st: State, x: nat, e: Env)
    requires Inv(st) && x <= st.loaded
    requires forall i :: 0 <= i < x ==> SettledSlot(st.slots[i], st.os) && UnreapedSlot(st.slots[i], st.os)
    ensures Settled(Pass(Check, st, x, e)) && Unreaped(Pass(Check, st, x, e))
    decreases st.loaded - x
  {
    if x < st.loaded {
      CheckSettlesSlot(st, x, e);
      CheckSettles(Slot(Check, st, x, e), x + 1, e);
    }
  }

  lemma CheckSettlesSlot(st: State, x: nat, e: Env)
    requires Inv(st) && x < st.loaded
    requires forall i :: 0 <= i < x ==> SettledSlot(st.slots[i], st.os) && UnreapedSlot(st.slots[i], st.os)
    ensures var r := Slot(Check, st, x, e);
            Inv(r) && forall i :: 0 <= i < x + 1 ==> SettledSlot(r.slots[i], r.os) && UnreapedSlot(r.slots[i], r.os)
  {
    var s := ExitKeeps(st, e.dying(x));
    CheckKeeps(s, x);
    PrefixSettles(st, s, CheckSlot(s, x), x);
  }

  /** All loops of a period keep the invariant; where it matters, statuses are exact. */
  lemma {:induction false} StageKeeps(st: State, k: nat, e: nat -> Env)
    requires Inv(st) && Unreaped(st) && k <= LOOPS
    ensures Inv(Stage(st, k, e))
    ensures k >= 1 ==> Settled(Stage(st, k, e))
    ensures k != 4 && k != 7 && k != 8 ==> Unreaped(Stage(st, k, e))
  {
    if k > 0 {
      StageKeeps(st, k - 1, e);
      var s := Stage(st, k - 1, e);
      PassKeeps(Loop(k - 1), s, 0, e(k - 1));
      if Loop(k - 1) == Check {
        CheckSettles(s, 0, e(k - 1));
      }
    }
  }

  lemma PeriodKeeps(st: State, e: nat -> Env)
    requires Inv(st) && Unreaped(st)
    ensures Inv(Period(st, e)) && Settled(Period(st, e)) && Unreaped(Period(st, e))
  {
    StageKeeps(st, LOOPS, e);
  }
}
