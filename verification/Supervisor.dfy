/** The supervisor as it runs: one object whose methods update the table of
    modules in place, loop by loop. Every method is proved against the functions that
    the other modules reason about. */
module Supervisor {
  import opened Model
  import opened Kernel
  import opened Service
  import opened Invariants
  import opened Commands
  import opened Removal
  import StopAll
  import opened Tracking
  import opened Document
  import opened Interfaces
  import opened Reload
  import opened Loading
  import opened ReloadKeeps
  import opened ReloadEffect
  import opened ReloadTheorem
  import Validation
  import Backup
  import Numbers
  import Restart

  class Supervisor {
    var slots: seq<Module>        // running_modules
    var loaded: nat               // loaded_modules_cnt
    var profiles: seq<Profile>    // first_profile_ptr
    var defaultLimit: int         // module_restarts_num_config
    var os: map<int, Proc>        // the kernel's processes
    var open: set<int>            // and its open service sockets
    ghost var trace: seq<Event>

    ghost function Abs(): State
      reads this
    {
      State(slots, loaded, profiles, defaultLimit, os, open, trace)
    }

    /** A supervisor that has allocated its table and loaded nothing. */
    constructor (kernel: map<int, Proc>)
      ensures Abs() == FirstState(kernel)
    {
      slots := seq(MODULES_START_SIZE, i => BlankModule.(ifcCap := IFCES_START_SIZE));
      loaded := 0;
      profiles := [];
      defaultLimit := DEFAULT_RESTARTS;
      os := kernel;
      open := {};
      trace := [];
    }

    // ----- Service thread -----

    // service_check_modules_status, body of the loop
    method CheckModule(x: nat, e: Env, goOn: bool) returns (counts: bool)
      requires x < loaded <= |slots|
      modifies this
      ensures Abs() == Slot(Check, old(Abs()), x, e)
      ensures |slots| == |old(slots)| && loaded == old(loaded) && slots[..x] == old(slots)[..x]
      ensures counts == (slots[x].pid > 0 && (goOn || !slots[x].rootPerm))
    {
      os := Exit(os, e.dying(x));
      var m := slots[x];
      var n;
      n, counts := LookAt(m, goOn);
      if n.sd != m.sd {
        open := open - {m.sd};
      }
      slots := slots[x := n];
    }

    /** What kill(pid, 0) says about a module. */
    method LookAt(m: Module, goOn: bool) returns (n: Module, counts: bool)
      ensures n == Checked(m, os)
      ensures counts == (n.pid > 0 && (goOn || !n.rootPerm))
    {
      var rootPerm, status, sd, connected, pid := m.rootPerm, m.status, m.sd, m.connected, m.pid;
      counts := false;
      if m.pid > 0 {
        var outcome := Probe(os, m.pid);
        if outcome.Eperm? {
          rootPerm, status, counts := true, true, goOn;
        } else if outcome.Esrch? {
          sd, status, connected, pid := -1, false, false, 0;
        } else {
          status, rootPerm, counts := true, false, true;
        }
      }
      n := m.(rootPerm := rootPerm, status := status, sd := sd, connected := connected, pid := pid);
    }

    // service_check_modules_status
    method CheckModulesStatus(e: Env, goOn: bool) returns (running: nat)
      requires Sized(Abs())
      modifies this
      ensures Abs() == Pass(Check, old(Abs()), 0, e)
      ensures running == StopAll.Running(slots[..loaded], goOn)
    {
      ghost var goal := Pass(Check, Abs(), 0, e);
      running := 0;
      var x := 0;
      while x < loaded
        invariant 0 <= x <= loaded <= |slots| && Pass(Check, Abs(), x, e) == goal
        invariant running == StopAll.Running(slots[..x], goOn)
      {
        var counts := CheckModule(x, e, goOn);
        if counts {
          running := running + 1;
        }
        RunningNext(slots, x, goOn);
        x := x + 1;
      }
    }

    /** A status check whose count is not used. */
    method CheckAgain(e: Env, goOn: bool)
      requires Sized(Abs())
      modifies this
      ensures Abs() == Pass(Check, old(Abs()), 0, e)
    {
      var running := CheckModulesStatus(e, goOn);
    }

    // service_start_module
    method StartModule(x: nat, f: ForkOutcome)
      requires x < |slots|
      modifies this
      ensures Abs() == StartSlot(old(Abs()), x, f)
    {
      var m := slots[x].(running := true, sentSigint := false, sd := -1, connected := false, connTimer := 0);
      var pid, mine, timer := -1, m.myChild, m.restartTimer;
      var forked := Forks(os, f);
      if forked {
        pid, mine := f.pid, true;
        os := os[pid := Proc(Alive, f.eperm, true, m.name)];
        if m.restartCnt + 1 == 1 {
          timer := 0;
        }
      }
      trace := trace + [if forked then Forked(m.name, pid) else ForkFailed(m.name)];
      slots := slots[x := m.(pid := pid, myChild := mine, status := forked, restartCnt := m.restartCnt + 1, restartTimer := timer)];
    }

    // service_update_modules_status, body of the loop
    method UpdateModule(x: nat, e: Env)
      requires x < loaded <= |slots|
      modifies this
      ensures Abs() == Slot(Update, old(Abs()), x, e)
    {
      os := Exit(os, e.dying(x));
      var timer, cnt := slots[x].restartTimer + 1, slots[x].restartCnt;
      if timer >= PERIODS {
        timer := 0;
        if cnt > 0 {
          cnt := 0;
        }
      }
      var m := slots[x].(restartTimer := timer, restartCnt := cnt);
      assert m == Tick(slots[x]);
      slots := slots[x := m];
      var limit := if m.maxRestarts > -1 then m.maxRestarts else defaultLimit;
      var on := m.profile.Some? && m.profile.value < |profiles| && profiles[m.profile.value].enabled;
      if on && m.enabled && !m.status && m.restartCnt == limit {
        slots := slots[x := m.(enabled := false)];
        trace := trace + [AutoDisabled(m.name, limit)];
      } else if on && !m.status && m.enabled {
        StartModule(x, e.fork(x));
      }
    }

    method UpdateModulesStatus(e: Env)
      requires Sized(Abs())
      modifies this
      ensures Abs() == Pass(Update, old(Abs()), 0, e)
    {
      ghost var goal := Pass(Update, Abs(), 0, e);
      var x := 0;
      while x < loaded
        invariant 0 <= x <= loaded <= |slots| && Pass(Update, Abs(), x, e) == goal
      {
        UpdateModule(x, e);
        x := x + 1;
      }
    }

    // service_stop_modules_sigint
    method StopModulesSigint(e: Env)
      requires Sized(Abs())
      modifies this
      ensures Abs() == Pass(Sigint, old(Abs()), 0, e)
    {
      ghost var goal := Pass(Sigint, Abs(), 0, e);
      var x := 0;
      while x < loaded
        invariant 0 <= x <= loaded <= |slots| && Pass(Sigint, Abs(), x, e) == goal
      {
        InterruptModule(x, e);
        x := x + 1;
      }
    }

    method InterruptModule(x: nat, e: Env)
      requires x < loaded <= |slots|
      modifies this
      ensures Abs() == Slot(Sigint, old(Abs()), x, e)
    {
      os := Exit(os, e.dying(x));
      ghost var s := Abs();
      var m := slots[x];
      if m.status && !m.rootPerm && Unwanted(profiles, m) && !m.sentSigint {
        trace := trace + [SentSigint(m.pid)];
        slots := slots[x := m.(sentSigint := true, restartCnt := -1)];
        SigintIs(s, x);
      } else {
        SigintSkips(s, x);
      }
    }

    // service_stop_modules_sigkill
    method StopModulesSigkill(e: Env)
      requires Sized(Abs())
      modifies this
      ensures Abs() == Pass(Kill, old(Abs()), 0, e)
    {
      ghost var goal := Pass(Kill, Abs(), 0, e);
      var x := 0;
      while x < loaded
        invariant 0 <= x <= loaded <= |slots| && Pass(Kill, Abs(), x, e) == goal
      {
        KillModule(x, e);
        x := x + 1;
      }
    }

    method KillModule(x: nat, e: Env)
      requires x < loaded <= |slots|
      modifies this
      ensures Abs() == Slot(Kill, old(Abs()), x, e)
    {
      os := Exit(os, e.dying(x));
      ghost var s := Abs();
      var m := slots[x];
      if m.status && Unwanted(profiles, m) && m.sentSigint {
        os := Kernel.Sigkill(os, m.pid);
        trace := trace + [SentSigkill(m.pid)];
        slots := slots[x := m.(restartCnt := -1)];
        KillIs(s, x);
      } else {
        KillSkips(s, x);
      }
    }

    // service_clean_after_children
    method CleanAfterChildren(e: Env)
      requires Sized(Abs())
      modifies this
      ensures Abs() == Pass(Reap, old(Abs()), 0, e)
    {
      ghost var goal := Pass(Reap, Abs(), 0, e);
      var x := 0;
      while x < loaded
        invariant 0 <= x <= loaded <= |slots| && Pass(Reap, Abs(), x, e) == goal
      {
        WaitForModule(x, e);
        x := x + 1;
      }
    }

    method WaitForModule(x: nat, e: Env)
      requires x < loaded <= |slots|
      modifies this
      ensures Abs() == Slot(Reap, old(Abs()), x, e)
    {
      os := Exit(os, e.dying(x));
      ghost var s := Abs();
      var m := slots[x];
      if Lost(m, os) {
        slots := slots[x := m.(myChild := false)];
        assert Abs() == ReapSlot(s, x) by { assert trace + [] == trace; }
      } else if Exited(m, os) {
        os := os[m.pid := os[m.pid].(phase := Gone)];
        trace := trace + [Reaped(m.pid)];
        assert Abs() == ReapSlot(s, x) by { assert slots[x := m] == slots; }
      } else {
        assert Abs() == ReapSlot(s, x) by { assert trace + [] == trace && slots[x := m] == slots; }
      }
    }

    // service_disconnect_from_module
    method DisconnectFromModule(x: nat)
      requires x < |slots|
      modifies this
      ensures Abs() == Disconnect(old(Abs()), x)
    {
      var m := slots[x];
      if m.connected && m.sd != -1 {
        open := open - {m.sd};
      }
      var n := m.(sd := if m.connected then -1 else m.sd, connected := false, connTimer := 0);
      slots := slots[x := n];
      assert Abs() == Replace(old(Abs()), x, n);
    }

    // free_module_and_shift_array
    method RemoveModule(x: nat)
      requires x < loaded <= |slots|
      modifies this
      ensures Abs() == old(Abs()).(slots := Removed(old(slots), old(loaded), x), loaded := old(loaded) - 1)
    {
      var y := x;
      while y < loaded - 1
        invariant x <= y < loaded == old(loaded) && |slots| == |old(slots)|
        invariant slots == old(slots)[..x] + old(slots)[x + 1..y + 1] + old(slots)[y..]
        invariant Abs() == old(Abs()).(slots := slots)
      {
        slots := slots[y := slots[y + 1]];
        y := y + 1;
      }
      loaded := loaded - 1;
      slots := slots[loaded := BlankModule];
    }

    // The loop over unserved modules.
    method ServeModules(e: Env)
      requires Sized(Abs())
      modifies this
      ensures Abs() == Pass(Serve, old(Abs()), 0, e)
    {
      ghost var goal := Pass(Serve, Abs(), 0, e);
      var y := 0;
      while y < loaded
        invariant 0 <= y && loaded <= |slots| && Pass(Serve, Abs(), y, e) == goal
        decreases loaded - y
      {
        ServeModule(y, e);
        y := y + 1;
      }
    }

    method ServeModule(y: nat, e: Env)
      requires y < loaded <= |slots|
      modifies this
      ensures Abs() == Slot(Serve, old(Abs()), y, e)
      ensures loaded <= old(loaded)
    {
      os := Exit(os, e.dying(y));
      ghost var s := Abs();
      var m := slots[y];
      if !m.served && m.remove && !m.status {
        RemoveModule(y);
      } else if !m.served && !m.remove {
        ServeKept(y);
      } else {
        ServeSkips(s, y);
      }
    }

    /** A module that is not flagged and was not served. */
    method ServeKept(y: nat)
      requires y < loaded <= |slots| && !slots[y].served && !slots[y].remove
      modifies this
      ensures Abs() == ServeSlot(old(Abs()), y)
    {
      ghost var s := Abs();
      var m := slots[y];
      if m.init {
        if !m.status {
          slots := slots[y := m.(enabled := true, restartCnt := -1, init := false, served := true)];
          ServeAgain(s, y);
        } else {
          DisconnectFromModule(y);
          ServeDrops(s, y);
        }
      } else {
        slots := slots[y := m.(served := true)];
        ServePlain(s, y);
      }
    }

    // service_check_connections
    method CheckConnections(e: Env)
      requires Sized(Abs())
      modifies this
      ensures Abs() == Pass(Connect, old(Abs()), 0, e)
    {
      ghost var goal := Pass(Connect, Abs(), 0, e);
      var x := 0;
      while x < loaded
        invariant 0 <= x <= loaded <= |slots| && Pass(Connect, Abs(), x, e) == goal
      {
        os := Exit(os, e.dying(x));
        ConnectToModule(x, e.connect(x));
        x := x + 1;
      }
    }

    method ConnectToModule(x: nat, c: Option<int>)
      requires x < |slots|
      modifies this
      ensures Abs() == ConnectSlot(old(Abs()), x, c)
    {
      var m := slots[x];
      if m.status && !m.connected {
        var timer, sd, connected := m.connTimer + 1, m.sd, false;
        if timer % PERIODS == 1 {
          if sd != -1 {
            open := open - {sd};
            sd := -1;
          }
          if Connects(open, c) {
            open := open + {c.value};
            sd, connected, timer := c.value, true, 0;
          }
        }
        slots := slots[x := m.(sd := sd, connected := connected, connTimer := timer)];
      }
    }

    // The loops that send the requests and receive the statistics.
    method SendRequests(e: Env)
      requires Sized(Abs())
      modifies this
      ensures Abs() == Pass(Send, old(Abs()), 0, e)
    {
      ghost var goal := Pass(Send, Abs(), 0, e);
      var x := 0;
      while x < loaded
        invariant 0 <= x <= loaded <= |slots| && Pass(Send, Abs(), x, e) == goal
      {
        os := Exit(os, e.dying(x));
        if slots[x].connected && !e.transfer(x) {
          DisconnectFromModule(x);
        }
        x := x + 1;
      }
    }

    method ReceiveStats(e: Env)
      requires Sized(Abs())
      modifies this
      ensures Abs() == Pass(Recv, old(Abs()), 0, e)
    {
      ghost var goal := Pass(Recv, Abs(), 0, e);
      var x := 0;
      while x < loaded
        invariant 0 <= x <= loaded <= |slots| && Pass(Recv, Abs(), x, e) == goal
      {
        os := Exit(os, e.dying(x));
        if slots[x].status && slots[x].connected && !e.transfer(x) {
          DisconnectFromModule(x);
        }
        x := x + 1;
      }
    }

    /** The loops that start modules and ask others to stop. */
    method StartAndAsk(e: nat -> Env, goOn: bool)
      requires Sized(Abs())
      modifies this
      ensures Abs() == Chain(old(Abs()), 1, 4, e)
    {
      ghost var goal := Chain(Abs(), 1, 4, e);
      ghost var st := Abs();
      UpdateModulesStatus(e(1));
      st := LoopDone(st, Abs(), 1, 4, e, goal);
      StopModulesSigint(e(2));
      st := LoopDone(st, Abs(), 2, 4, e, goal);
      CleanAfterChildren(e(3));
      st := LoopDone(st, Abs(), 3, 4, e, goal);
      ChainDone(Abs(), 4, e);
    }

    /** The loops that kill those that did not. */
    method CheckAndKill(e: nat -> Env, goOn: bool)
      requires Sized(Abs())
      modifies this
      ensures Abs() == Chain(old(Abs()), 4, 7, e)
    {
      ghost var goal := Chain(Abs(), 4, 7, e);
      ghost var st := Abs();
      CheckAgain(e(4), goOn);
      st := LoopDone(st, Abs(), 4, 7, e, goal);
      StopModulesSigkill(e(5));
      st := LoopDone(st, Abs(), 5, 7, e, goal);
      CleanAfterChildren(e(6));
      st := LoopDone(st, Abs(), 6, 7, e, goal);
      ChainDone(Abs(), 7, e);
    }

    /** The loops that remove and serve modules and connect to them. */
    method ServeAndConnect(e: nat -> Env, goOn: bool)
      requires Sized(Abs())
      modifies this
      ensures Abs() == Chain(old(Abs()), 7, 10, e)
    {
      ghost var goal := Chain(Abs(), 7, 10, e);
      ghost var st := Abs();
      ServeModules(e(7));
      st := LoopDone(st, Abs(), 7, 10, e, goal);
      CheckAgain(e(8), goOn);
      st := LoopDone(st, Abs(), 8, 10, e, goal);
      CheckConnections(e(9));
      st := LoopDone(st, Abs(), 9, 10, e, goal);
      ChainDone(Abs(), 10, e);
    }

    /** The loops that exchange statistics. */
    method Exchange(e: nat -> Env, goOn: bool)
      requires Sized(Abs())
      modifies this
      ensures Abs() == Chain(old(Abs()), 10, LOOPS, e)
    {
      ghost var goal := Chain(Abs(), 10, LOOPS, e);
      ghost var st := Abs();
      SendRequests(e(10));
      st := LoopDone(st, Abs(), 10, LOOPS, e, goal);
      CheckAgain(e(11), goOn);
      st := LoopDone(st, Abs(), 11, LOOPS, e, goal);
      ReceiveStats(e(12));
      st := LoopDone(st, Abs(), 12, LOOPS, e, goal);
      ChainDone(Abs(), LOOPS, e);
    }

    /** One turn of service_thread_routine; it ends after the first check if the thread is to stop. */
    method ServicePeriod(e: nat -> Env, goOn: bool, stopAll: bool) returns (ended: bool)
      requires Sized(Abs())
      modifies this
      ensures ended <==> !goOn && (!stopAll || StopAll.Running(Loaded(Pass(Check, old(Abs()), 0, e(0))), false) == 0)
      ensures Abs() == if ended then Pass(Check, old(Abs()), 0, e(0)) else Period(old(Abs()), e)
    {
      ghost var st := Abs();
      var running := CheckModulesStatus(e(0), goOn);
      if !goOn && (!stopAll || running == 0) {
        return true;
      }
      StartAndAsk(e, goOn);
      CheckAndKill(e, goOn);
      ServeAndConnect(e, goOn);
      Exchange(e, goOn);
      PeriodChain(st, e);
      return false;
    }

    /** Termination with "stop all modules" on any kernel and whatever is pending: the thread leaves its loop at the
        second status check at the latest. */
    method StopEverything(e: nat -> Env, e': nat -> Env) returns (turns: nat)
      requires Inv(Abs()) && Unreaped(Abs())
      modifies this
      ensures turns <= 2 && loaded <= |slots| && StopAll.Running(slots[..loaded], false) == 0
    {
      ghost var st := Abs();
      SwitchConfiguration(false);
      ghost var s := Abs();
      StopAll.Disabling(st);
      var ended := ServicePeriod(e, false, true);
      if ended {
        return 1;
      }
      StopAll.CountsNoneNext(s, e, e'(0));
      ended := ServicePeriod(e', false, true);
      return 2;
    }

    /** The same when the thread makes k more turns before the flag is set: whether it leaves within n checks. */
    method StopLater(k: nat, env: nat -> nat -> Env, n: nat, env': nat -> nat -> Env) returns (ended: bool)
      requires Sized(Abs())
      modifies this
      ensures ended <==> StopAll.QuitsWithin(Restart.Periods(Perform(StopAll, old(Abs())), k, env), n, env')
    {
      SwitchConfiguration(false);
      ghost var ss := CourseOf(Abs(), k, env);
      WorkOn(k, env, ss);
      ended := WaitForEnd(n, env');
    }

    method WorkOn(k: nat, env: nat -> nat -> Env, ghost ss: seq<State>)
      requires Course(ss, k, env) && Abs() == ss[0]
      modifies this
      ensures Abs() == ss[k]
    {
      var i: nat := k;
      while i > 0
        invariant i <= k && Abs() == ss[k - i]
      {
        WorkOnce(k, i, env, ss);
        i := i - 1;
      }
    }

    method WorkOnce(k: nat, i: nat, env: nat -> nat -> Env, ghost ss: seq<State>)
      requires Course(ss, k, env) && 0 < i <= k && Abs() == ss[k - i]
      modifies this
      ensures Abs() == ss[k - i + 1]
    {
      assert Visit(k - i);
      Turn(env(i));
    }

    /** A turn that does not end the loop. */
    method Turn(e: nat -> Env)
      requires Sized(Abs())
      modifies this
      ensures Sized(Abs()) && Abs() == Period(old(Abs()), e)
    {
      var ended := ServicePeriod(e, true, true);
    }

    method WaitForEnd(n: nat, env: nat -> nat -> Env) returns (ended: bool)
      requires Sized(Abs())
      modifies this
      ensures ended <==> StopAll.QuitsWithin(old(Abs()), n, env)
    {
      ghost var goal := StopAll.QuitsWithin(Abs(), n, env);
      ended := false;
      var i := n;
      while i > 0 && !ended
        invariant 0 <= i <= n && Sized(Abs()) && goal == (ended || StopAll.QuitsWithin(Abs(), i, env))
      {
        ended := ServicePeriod(env(i), false, true);
        i := i - 1;
      }
    }

    // ----- User commands -----

    // interactive_set_enabled, for the numbers the user selected
    method SetEnabled(sel: seq<int>)
      requires Sized(Abs())
      modifies this
      ensures Abs() == Perform(EnableSel(sel), old(Abs()))
    {
      ghost var c := EnableSel(sel);
      ghost var goal := SelectAll(c, Abs(), sel);
      var i := 0;
      assert sel[0..] == sel;
      while i < |sel|
        invariant 0 <= i <= |sel| && Sized(Abs()) && SelectAll(c, Abs(), sel[i..]) == goal
      {
        assert sel[i..][1..] == sel[i + 1..];
        var n := sel[i];
        if 0 <= n < loaded {
          slots := slots[n := slots[n].(enabled := true, restartCnt := if slots[n].enabled then slots[n].restartCnt else -1)];
        } else if loaded <= n < loaded + |profiles| {
          profiles := profiles[n - loaded := profiles[n - loaded].(enabled := true)];
        }
        i := i + 1;
      }
    }

    // interactive_set_disabled
    method SetDisabled(sel: seq<int>)
      requires Sized(Abs())
      modifies this
      ensures Abs() == Perform(DisableSel(sel), old(Abs()))
    {
      ghost var c := DisableSel(sel);
      ghost var goal := SelectAll(c, Abs(), sel);
      var i := 0;
      assert sel[0..] == sel;
      while i < |sel|
        invariant 0 <= i <= |sel| && Sized(Abs()) && SelectAll(c, Abs(), sel[i..]) == goal
      {
        assert sel[i..][1..] == sel[i + 1..];
        var n := sel[i];
        if 0 <= n < loaded {
          slots := slots[n := slots[n].(enabled := slots[n].enabled && slots[n].rootPerm)];
        } else if loaded <= n < loaded + |profiles| {
          profiles := profiles[n - loaded := profiles[n - loaded].(enabled := false)];
        }
        i := i + 1;
      }
    }

    // interactive_restart_module
    method RestartModules(sel: seq<int>)
      requires Sized(Abs())
      modifies this
      ensures Abs() == Perform(RestartSel(sel), old(Abs()))
    {
      ghost var c := RestartSel(sel);
      ghost var goal := SelectAll(c, Abs(), sel);
      var i := 0;
      assert sel[0..] == sel;
      while i < |sel|
        invariant 0 <= i <= |sel| && Sized(Abs()) && SelectAll(c, Abs(), sel[i..]) == goal
      {
        assert sel[i..][1..] == sel[i + 1..];
        RestartModule(sel[i], sel);
        i := i + 1;
      }
    }

    method RestartModule(n: int, ghost sel: seq<int>)
      requires Sized(Abs())
      modifies this
      ensures Abs() == Select(RestartSel(sel), old(Abs()), n)
    {
      if 0 <= n < loaded {
        var m := slots[n];
        if m.enabled && m.status && !m.rootPerm {
          slots := slots[n := m.(served := false, enabled := false, init := true)];
        } else {
          assert RestartedBy(m) == m && slots[n := m] == slots;
        }
      }
    }

    // interactive_start_configuration and interactive_stop_configuration
    method SwitchConfiguration(on: bool)
      requires Sized(Abs())
      modifies this
      ensures Abs() == Perform(if on then StartAll else StopAll, old(Abs()))
    {
      ghost var goal := SwitchAll(Abs(), 0, on);
      var x := 0;
      while x < loaded
        invariant 0 <= x <= loaded <= |slots| && SwitchAll(Abs(), x, on) == goal
      {
        if on {
          slots := slots[x := slots[x].(enabled := true, restartCnt := if slots[x].enabled then slots[x].restartCnt else -1)];
        } else {
          slots := slots[x := slots[x].(enabled := false)];
        }
        x := x + 1;
      }
    }

    // ----- Reload -----

    ghost function Table(): Rows
      reads this
    {
      Rows(slots, loaded)
    }

    // find_loaded_module; `loaded` when there is none
    method FindLoadedModule(name: string) returns (x: nat)
      requires loaded <= |slots|
      ensures x == FindFrom(slots, loaded, name, 0)
    {
      x := 0;
      while x < loaded && slots[x].name != name
        invariant 0 <= x <= loaded && FindFrom(slots, loaded, name, x) == FindFrom(slots, loaded, name, 0)
      {
        x := x + 1;
      }
    }

    /** One attribute of a "module" element. */
    method ProcessAttribute(m: Module, n: Node, isNew: bool) returns (r: Module)
      requires |m.ifces| <= m.ifcCap && Sane(m.ifcCap) && (isNew && Is(n, TrapTag) ==> m.ifces == [])
      ensures r == Process(m, n, isNew)
    {
      if Is(n, TrapTag) {
        var scan := ScanInterfaces(m.ifces, m.ifcCap, isNew, n.kids);
        r := m.(ifces := scan.ifces, ifcCap := scan.cap, modified := m.modified || scan.modified);
      } else {
        r := ProcessText(m, n, isNew);
      }
    }

    method ProcessText(m: Module, n: Node, isNew: bool) returns (r: Module)
      requires !Is(n, TrapTag)
      ensures r == Process(m, n, isNew)
    {
      if Is(n, EnabledTag) {
        r := ResolveEnabled(m, n, isNew);
      } else if Is(n, ParamsTag) || Is(n, PathTag) {
        r := ProcessString(m, n, isNew);
      } else if Is(n, NameTag) {
        r := ProcessName(m, n, isNew);
      } else if Is(n, RestartsTag) {
        r := ProcessRestarts(m, n, isNew);
      } else {
        r := m;
        ProcessNothing(m, n, isNew);
      }
    }

    method ProcessName(m: Module, n: Node, isNew: bool) returns (r: Module)
      requires Is(n, NameTag)
      ensures r == Process(m, n, isNew)
    {
      if isNew && n.text.Some? {
        r := m.(name := n.text.value);
        NameRead(m, n);
      } else {
        r := m;
        NameKept(m, n, isNew);
      }
    }

    method ProcessRestarts(m: Module, n: Node, isNew: bool) returns (r: Module)
      requires Is(n, RestartsTag)
      ensures r == Process(m, n, isNew)
    {
      r := m.(maxRestarts := LimitIn(n.text, m.maxRestarts));
    }

    // reload_resolve_module_enabled
    method ResolveEnabled(m: Module, n: Node, isNew: bool) returns (r: Module)
      requires Is(n, EnabledTag)
      ensures r == Process(m, n, isNew)
    {
      var on := SwitchedOn(n.text);
      var cnt := m.restartCnt;
      if on && (isNew || !m.enabled) {
        cnt := -1;
      }
      r := m.(enabled := on, restartCnt := cnt);
      EnabledRead(m, n, isNew);
    }

    // reload_process_module_atribute
    method ProcessString(m: Module, n: Node, isNew: bool) returns (r: Module)
      requires Is(n, ParamsTag) || Is(n, PathTag)
      ensures r == Process(m, n, isNew)
    {
      var stored := if Is(n, PathTag) then m.path else m.params;
      var modified := m.modified;
      if !isNew && n.text != stored {
        modified := true;
      }
      if Is(n, PathTag) {
        r := m.(path := n.text, modified := modified);
        PathRead(m, n, isNew);
      } else {
        r := m.(params := n.text, modified := modified);
        ParamsRead(m, n, isNew);
      }
    }

    /** The loop over the attributes of a "module" element. */
    method ReadModule(m: Module, d: Entry, isNew: bool, initial: bool) returns (r: Module)
      requires d.node.Element? && ValidModule(d.node.kids) && |m.ifces| <= m.ifcCap && Sane(m.ifcCap) && (isNew ==> m.ifces == [])
      ensures r == Reconciled(m, d, isNew, initial)
    {
      var kids := d.node.kids;
      var start := Prepared(m, d, isNew, initial);
      r := start;
      var i := 0;
      assert kids[..0] == [];
      PartialNone(start, isNew);
      while i < |kids|
        invariant 0 <= i <= |kids| && r == Partial(start, SeenIn(kids[..i]), isNew)
      {
        AttributeNext(start, kids, i, isNew);
        r := ProcessAttribute(r, kids[i], isNew);
        i := i + 1;
      }
      assert kids[..i] == kids;
      r := r.(profile := Some(d.profile));
      PartialAll(m, d, isNew, initial);
    }

    /** One "module" element: the slot of its name, or the next blank one, for which the table may have to grow. */
    method LoadModule(d: Entry, initial: bool)
      requires RowsFine(Table()) && d.node.Element? && ValidModule(d.node.kids)
      modifies this
      ensures Table() == Enter(old(Table()), d, initial)
      ensures Abs() == old(Abs()).(slots := slots, loaded := loaded)
    {
      slots := MakeRoom(slots, loaded);
      var x := FindLoadedModule(NameOf(d.node));
      var isNew := x == loaded;
      assert Visit(x) && (x < |old(slots)| ==> RowFits(old(Table()), x));
      var m := ReadModule(slots[x], d, isNew, initial);
      slots := slots[x := m];
      if isNew {
        loaded := loaded + 1;
      }
    }

    /** The "module" elements of one profile. */
    method LoadProfile(kids: seq<Node>, p: nat, initial: bool, ghost start: Rows, ghost ds: seq<Entry>)
      requires RowsFine(start) && Table() == EnterAll(start, ds, initial)
      requires ValidModules(kids)
      modifies this
      ensures Table() == EnterAll(start, Upto(ds, kids, |kids|, p), initial)
      ensures Abs() == old(Abs()).(slots := slots, loaded := loaded)
    {
      var j := 0;
      while j < |kids|
        invariant 0 <= j <= |kids| && Table() == EnterAll(start, Upto(ds, kids, j, p), initial)
        invariant Abs() == old(Abs()).(slots := slots, loaded := loaded)
      {
        LoadKid(kids, j, p, initial, start, ds);
        j := j + 1;
      }
    }

    method LoadKid(kids: seq<Node>, j: nat, p: nat, initial: bool, ghost start: Rows, ghost ds: seq<Entry>)
      requires j < |kids| && ValidModules(kids)
      requires RowsFine(start) && Table() == EnterAll(start, Upto(ds, kids, j, p), initial)
      modifies this
      ensures Table() == EnterAll(start, Upto(ds, kids, j + 1, p), initial)
      ensures Abs() == old(Abs()).(slots := slots, loaded := loaded)
    {
      if Is(kids[j], ModuleTag) {
        assert kids[j] in kids;
        LoadNext(Entry(kids[j], p), initial, start, Upto(ds, kids, j, p));
      }
    }

    method LoadNext(d: Entry, initial: bool, ghost start: Rows, ghost ds: seq<Entry>)
      requires RowsFine(start) && Table() == EnterAll(start, ds, initial) && d.node.Element? && ValidModule(d.node.kids)
      modifies this
      ensures Table() == EnterAll(start, ds + [d], initial)
      ensures Abs() == old(Abs()).(slots := slots, loaded := loaded)
    {
      EnterSnoc(start, ds, d, initial);
      EnterAllFine(start, ds, initial);
      LoadModule(d, initial);
    }

    // reload_find_and_check_modules_profile_basic_elements, on a valid element
    method ReadProfile(n: Node) returns (p: Profile)
      requires n.Element?
      ensures p == ProfileOf(n)
    {
      var name: Option<Content>, enabled: Option<Content> := None, None;
      var i := 0;
      while i < |n.kids|
        invariant 0 <= i <= |n.kids|
        invariant name == Text(n.kids[..i], NameTag) && enabled == Text(n.kids[..i], EnabledTag)
      {
        TextNext(n.kids, i, NameTag);
        TextNext(n.kids, i, EnabledTag);
        if Is(n.kids[i], NameTag) {
          name := n.kids[i].text;
        } else if Is(n.kids[i], EnabledTag) {
          enabled := n.kids[i].text;
        }
        i := i + 1;
      }
      assert n.kids[..i] == n.kids;
      p := Profile(if name.Some? then name.value else "", enabled == Some("true"));
    }

    /** The loops over all slots before the document is read. */
    method ResetModules()
      modifies this
      ensures Abs() == old(Abs()).(slots := ResetAll(old(slots)))
    {
      var x := 0;
      while x < |slots|
        invariant 0 <= x <= |slots| == |old(slots)|
        invariant forall i :: 0 <= i < |slots| ==> slots[i] == if i < x then ResetSlot(old(slots)[i]) else old(slots)[i]
        invariant Abs() == old(Abs()).(slots := slots)
      {
        slots := slots[x := slots[x].(checked := false, modified := false, profile := None, maxRestarts := -1,
                                      myChild := true, rootPerm := false, init := false, remove := false)];
        x := x + 1;
      }
    }

    /** The loops over the table after the document was read. */
    method SettleModules(known: nat, initial: bool)
      requires known <= loaded <= |slots|
      modifies this
      ensures Abs() == old(Abs()).(slots := SettleAll(old(slots), old(loaded), known, initial))
    {
      FlagModules(known);
      ghost var flagged := slots;
      RestartAllModified();
      ghost var ready := slots;
      if initial {
        InitAllVars();
      }
      SettledAre(old(slots), loaded, known, initial, flagged, ready, slots);
    }

    method FlagModules(known: nat)
      requires known <= |slots|
      modifies this
      ensures |slots| == |old(slots)| && Abs() == old(Abs()).(slots := slots)
      ensures forall i :: 0 <= i < |slots| ==> slots[i] == if i < known then FlagMissing(old(slots)[i], true) else old(slots)[i]
    {
      var x := 0;
      while x < known
        invariant 0 <= x <= known <= |slots| == |old(slots)|
        invariant forall i :: 0 <= i < |slots| ==> slots[i] == if i < x then FlagMissing(old(slots)[i], true) else old(slots)[i]
        invariant Abs() == old(Abs()).(slots := slots)
      {
        FlagModule(x);
        x := x + 1;
      }
    }

    method RestartAllModified()
      requires loaded <= |slots|
      modifies this
      ensures |slots| == |old(slots)| && Abs() == old(Abs()).(slots := slots)
      ensures forall i :: 0 <= i < |slots| ==> slots[i] == if i < loaded then RestartModified(old(slots)[i]) else old(slots)[i]
    {
      var x := 0;
      while x < loaded
        invariant 0 <= x <= loaded == old(loaded) <= |slots| == |old(slots)|
        invariant forall i :: 0 <= i < |slots| ==> slots[i] == if i < x then RestartModified(old(slots)[i]) else old(slots)[i]
        invariant Abs() == old(Abs()).(slots := slots)
      {
        RestartIfModified(x);
        x := x + 1;
      }
    }

    method InitAllVars()
      requires loaded <= |slots|
      modifies this
      ensures |slots| == |old(slots)| && Abs() == old(Abs()).(slots := slots)
      ensures forall i :: 0 <= i < |slots| ==> slots[i] == if i < loaded then InitVars(old(slots)[i], old(slots)[i].pid > 0) else old(slots)[i]
    {
      var x := 0;
      while x < loaded
        invariant 0 <= x <= loaded == old(loaded) <= |slots| == |old(slots)|
        invariant forall i :: 0 <= i < |slots| ==>
                    slots[i] == if i < x then InitVars(old(slots)[i], old(slots)[i].pid > 0) else old(slots)[i]
        invariant Abs() == old(Abs()).(slots := slots)
      {
        slots := slots[x := InitVars(slots[x], slots[x].pid > 0)];
        x := x + 1;
      }
    }

    method FlagModule(x: nat)
      requires x < |slots|
      modifies this
      ensures Abs() == old(Abs()).(slots := old(slots)[x := FlagMissing(old(slots)[x], true)])
    {
      var m := slots[x];
      if !m.checked {
        slots := slots[x := m.(enabled := false, remove := true)];
      } else {
        assert FlagMissing(m, true) == m && slots[x := m] == slots;
      }
    }

    method RestartIfModified(x: nat)
      requires x < |slots|
      modifies this
      ensures Abs() == old(Abs()).(slots := old(slots)[x := RestartModified(old(slots)[x])])
    {
      var m := slots[x];
      var running, enabled, again := m.running, m.enabled, m.init;
      if m.modified && m.running {
        running := false;
        if m.enabled {
          enabled, again := false, true;
        }
      }
      slots := slots[x := m.(served := false, running := running, enabled := enabled, init := again)];
    }

    // reload_configuration
    method ReloadConfiguration(doc: Option<Node>, initial: bool) returns (ok: bool)
      requires RowsFine(Table())
      modifies this
      ensures ok <==> ValidDoc(doc)
      ensures Abs() == Reloaded(old(Abs()), doc, initial)
    {
      ok := Validation.Validate(doc);
      if ok {
        LoadDocument(doc.value.kids, initial);
      }
    }

    method LoadDocument(kids: seq<Node>, initial: bool)
      requires RowsFine(Table()) && RootKids(kids) && |Elements(kids, SupervisorTag)| <= 1
      modifies this
      ensures Abs() == Apply(old(Abs()), kids, initial)
    {
      var known := loaded;
      ResetModules();
      ResetFine(old(Table()));
      profiles := [];
      ghost var first := Abs();
      ReadDocument(kids, initial);
      DocAll(kids, initial, first, Abs());
      SettleModules(known, initial);
    }

    /** The loop over the children of the root element. */
    method ReadDocument(kids: seq<Node>, initial: bool)
      requires RowsFine(Table()) && profiles == [] && RootKids(kids)
      modifies this
      ensures DocAt(kids, |kids|, initial, old(Abs()), Abs())
    {
      ghost var first := Abs();
      var i: nat := 0;
      DocNone(kids, i, initial, first);
      while i < |kids|
        invariant i <= |kids| && DocAt(kids, i, initial, first, Abs())
      {
        LoadChild(kids, i, initial, first);
        i := i + 1;
      }
    }

    method LoadChild(kids: seq<Node>, i: nat, initial: bool, ghost first: State)
      requires i < |kids| && RootKids(kids) && RowsFine(RowsIn(first)) && DocAt(kids, i, initial, first, Abs())
      modifies this
      ensures DocAt(kids, i + 1, initial, first, Abs())
    {
      assert kids[i] in kids;
      LoadElement(kids[i], initial, RowsIn(first), EntriesTo(kids, i));
      DocNext(kids, i, initial, first, old(Abs()), Abs());
    }

    /** One child of the root element. */
    method LoadElement(n: Node, initial: bool, ghost start: Rows, ghost ds: seq<Entry>)
      requires RootKid(n) && RowsFine(start) && Table() == EnterAll(start, ds, initial)
      modifies this
      ensures Loads(n, initial, start, ds, old(Abs()), Abs())
    {
      if Is(n, ModulesTag) {
        LoadModules(n, initial, start, ds);
      } else {
        if Is(n, SupervisorTag) {
          defaultLimit := ReadLimit(n.kids, defaultLimit);
        }
        assert old(profiles) + [] == profiles;
      }
    }

    method LoadModules(n: Node, initial: bool, ghost start: Rows, ghost ds: seq<Entry>)
      requires Is(n, ModulesTag) && RootKid(n) && RowsFine(start) && Table() == EnterAll(start, ds, initial)
      modifies this
      ensures Loads(n, initial, start, ds, old(Abs()), Abs())
    {
      var k := |profiles|;
      var p := ReadProfile(n);
      profiles := profiles + [p];
      LoadProfile(n.kids, k, initial, start, ds);
    }

    // ----- Backup -----

    method WriteModule(m: Module) returns (n: Node)
      ensures n == Backup.ModuleNode(m)
    {
      var nodes: seq<Node> := [];
      var y := 0;
      while y < |m.ifces|
        invariant 0 <= y <= |m.ifces| && nodes == Backup.IfcList(m.ifces[..y])
      {
        nodes := nodes + [Backup.IfcNode(m.ifces[y])];
        y := y + 1;
      }
      assert m.ifces[..y] == m.ifces;
      var kids := [Backup.Leaf(NameTag, m.name)] + Backup.Opt(PathTag, m.path) + Backup.Opt(ParamsTag, m.params)
                  + [Backup.Leaf(EnabledTag, if m.enabled then "true" else "false")];
      if m.ifces != [] {
        kids := kids + [Element(TrapTag, None, None, nodes)];
      }
      n := Element(ModuleTag, None, Some(Numbers.PrintInt(m.pid)), kids);
    }

    method WriteProfile(p: Profile) returns (n: Node)
      requires Sized(Abs())
      ensures n == Backup.ProfileNode(p, Backup.Members(slots[..loaded], profiles, p.name))
    {
      var kids := [Backup.Leaf(NameTag, p.name), Backup.Leaf(EnabledTag, if p.enabled then "true" else "false")];
      ghost var head := kids;
      ghost var ms: seq<Module> := [];
      var x: nat := 0;
      assert slots[..x] == [] && head + Backup.ModuleList(ms) == head;
      while x < loaded
        invariant x <= loaded && ms == Backup.Members(slots[..x], profiles, p.name) && kids == head + Backup.ModuleList(ms)
      {
        var m := slots[x];
        MembersNext(slots, x, profiles, p.name);
        if m.profile.Some? && m.profile.value < |profiles| && profiles[m.profile.value].name == p.name {
          var node := WriteModule(m);
          kids := kids + [node];
          ListNext(ms, m);
          ms := ms + [m];
        }
        x := x + 1;
      }
      n := Element(ModulesTag, None, None, kids);
    }

    // generate_backup_config_file
    method GenerateBackup() returns (root: Node)
      requires Sized(Abs())
      ensures root == Backup.Written(Abs())
    {
      var nodes: seq<Node> := [];
      var k := 0;
      while k < |profiles|
        invariant 0 <= k <= |profiles| && nodes == Backup.NodesUpto(Abs(), k)
      {
        var n := WriteProfile(profiles[k]);
        nodes := nodes + [n];
        k := k + 1;
      }
      root := Element(RootTag, None, None, nodes);
    }

    // reload_process_supervisor_element
    method ReadLimit(kids: seq<Node>, current: int) returns (limit: int)
      requires ValidSupervisor(kids)
      ensures limit == LimitOf(kids, current)
    {
      limit := current;
      var i := 0;
      assert kids[..0] == [];
      while i < |kids|
        invariant 0 <= i <= |kids| && limit == LimitOf(kids[..i], current)
      {
        TextNext(kids, i, RestartsTag);
        TagNext(kids, i, RestartsTag);
        if Is(kids[i], RestartsTag) {
          assert kids[i] in kids && SupervisorKid(kids[i]);
          limit := ScanInt(kids[i].text.value).value;
        }
        i := i + 1;
      }
      assert kids[..i] == kids;
    }
  }

  /** Every table a run can reach may be reloaded. */
  lemma ReadyToReload(slots: seq<Module>, loaded: nat)
    requires Invariants.Table(slots, loaded) && Roomy(slots)
    ensures RowsFine(Rows(slots, loaded))
  {
    var t := Rows(slots, loaded);
    forall i {:trigger Visit(i)} | Visit(i) && 0 <= i < |slots| ensures RowFits(t, i) {
      assert RoomyModule(slots[i]) && (i >= loaded ==> Blank(slots[i]));
    }
  }

  /** The object begins where runs begin. */
  lemma StartsFresh(kernel: map<int, Proc>)
    requires OsOk(kernel) && forall p :: p in kernel ==> !kernel[p].child
    ensures var st := FirstState(kernel);
            Fresh(st) && RowsFine(Rows(st.slots, st.loaded))
  {
    FirstFresh(kernel);
    ReadyToReload(FirstState(kernel).slots, 0);
  }

  lemma MembersNext(ms: seq<Module>, x: nat, profiles: seq<Profile>, name: string)
    requires x < |ms|
    ensures Backup.Members(ms[..x + 1], profiles, name) == Backup.Members(ms[..x], profiles, name)
         + if ms[x].profile.Some? && ms[x].profile.value < |profiles| && profiles[ms[x].profile.value].name == name then [ms[x]] else []
  {
    assert ms[..x + 1][..x] == ms[..x];
  }

  lemma ListNext(ms: seq<Module>, m: Module)
    ensures Backup.ModuleList(ms + [m]) == Backup.ModuleList(ms) + [Backup.ModuleNode(m)]
  {}

  /** What the next attribute finds and leaves. */
  lemma AttributeNext(start: Module, kids: seq<Node>, i: nat, isNew: bool)
    requires i < |kids| && Validation.PlainModule(kids) && |start.ifces| <= start.ifcCap && Sane(start.ifcCap)
    requires isNew ==> start.ifces == []
    ensures var r := Partial(start, SeenIn(kids[..i]), isNew);
            && |r.ifces| <= r.ifcCap && Sane(r.ifcCap) && (isNew && Is(kids[i], TrapTag) ==> r.ifces == [])
            && Partial(start, SeenIn(kids[..i + 1]), isNew) == Process(r, kids[i], isNew)
  {
    SeenNext(kids, i);
    PartialNext(start, SeenIn(kids[..i]), kids[i], SeenIn(kids[..i + 1]), isNew);
    PartialFits(start, SeenIn(kids[..i]), isNew);
  }

  /** The interfaces before the "trapinterfaces" element is met are those of the start. */
  lemma PartialFits(m: Module, s: Seen, isNew: bool)
    requires |m.ifces| <= m.ifcCap && Sane(m.ifcCap)
    ensures var r := Partial(m, s, isNew);
            && |r.ifces| <= r.ifcCap && Sane(r.ifcCap) && (s.trap == [] ==> r.ifces == m.ifces)
  {
    var r := Partial(m, s, isNew);
    var scan := ScanIn(m, s.trap, isNew);
    assert r.ifces == scan.ifces && r.ifcCap == scan.cap;
    ScanInFits(m, s.trap, isNew);
  }

  lemma ScanInFits(m: Module, traps: seq<Node>, isNew: bool)
    requires |m.ifces| <= m.ifcCap && Sane(m.ifcCap)
    ensures var scan := ScanIn(m, traps, isNew);
            && |scan.ifces| <= scan.cap && Sane(scan.cap) && (traps == [] ==> scan.ifces == m.ifces)
  {
    if traps != [] && traps[|traps| - 1].Element? {
      ScannedFits(m.ifces, m.ifcCap, isNew, traps[|traps| - 1].kids);
    }
  }

  ghost predicate RootKids(kids: seq<Node>) {
    forall n :: n in kids ==> RootKid(n)
  }

  function RowsIn(st: State): Rows {
    Rows(st.slots, st.loaded)
  }

  /** What one child of the root makes of the state, when the entries ds have been loaded. */
  ghost predicate Loads(n: Node, initial: bool, start: Rows, ds: seq<Entry>, st: State, r: State)
    requires Tidy(start)
  {
    && RowsIn(r)
       == (if Is(n, ModulesTag) then EnterAll(start, Upto(ds, n.kids, |n.kids|, |st.profiles|), initial) else RowsIn(st))
    && r.profiles == st.profiles + (if Is(n, ModulesTag) then [ProfileOf(n)] else [])
    && r.defaultLimit == (if Is(n, SupervisorTag) then LimitOf(n.kids, st.defaultLimit) else st.defaultLimit)
    && r == st.(slots := r.slots, loaded := r.loaded, profiles := r.profiles, defaultLimit := r.defaultLimit)
  }

  /** The state when the first i children of the root have been loaded, starting from `first`. */
  ghost predicate DocAt(kids: seq<Node>, i: nat, initial: bool, first: State, st: State)
    requires i <= |kids| && Tidy(RowsIn(first))
  {
    && RowsIn(st) == EnterAll(RowsIn(first), EntriesTo(kids, i), initial)
    && st.profiles == ProfilesTo(kids, i) && st.defaultLimit == LimitTo(kids, i, first.defaultLimit)
    && st == first.(slots := st.slots, loaded := st.loaded, profiles := st.profiles, defaultLimit := st.defaultLimit)
  }

  lemma DocNone(kids: seq<Node>, i: nat, initial: bool, first: State)
    requires i == 0 && first.profiles == [] && Tidy(RowsIn(first))
    ensures DocAt(kids, i, initial, first, first)
  {}

  lemma DocNext(kids: seq<Node>, i: nat, initial: bool, first: State, st: State, r: State)
    requires i < |kids| && Tidy(RowsIn(first)) && DocAt(kids, i, initial, first, st)
    requires Loads(kids[i], initial, RowsIn(first), EntriesTo(kids, i), st, r)
    ensures DocAt(kids, i + 1, initial, first, r)
  {}

  lemma DocAll(kids: seq<Node>, initial: bool, first: State, st: State)
    requires |Elements(kids, SupervisorTag)| <= 1 && Tidy(RowsIn(first)) && DocAt(kids, |kids|, initial, first, st)
    ensures RowsIn(st) == EnterAll(RowsIn(first), Entries(kids), initial)
    ensures st.profiles == ProfilesIn(kids) && st.defaultLimit == SupervisorLimit(kids, first.defaultLimit)
  {
    EntriesToIs(kids, |kids|);
    ProfilesToIs(kids, |kids|);
    LimitToIs(kids, |kids|, first.defaultLimit);
    assert kids[..|kids|] == kids;
  }

  lemma ResetFine(t: Rows)
    requires RowsFine(t)
    ensures RowsFine(Rows(ResetAll(t.slots), t.loaded))
  {
    var r := Rows(ResetAll(t.slots), t.loaded);
    forall i {:trigger Visit(i)} | Visit(i) && 0 <= i < |r.slots| ensures RowFits(r, i) {
      assert RowFits(t, i);
    }
  }

  /** The three loops after the document together. */
  lemma SettledAre(a: seq<Module>, loaded: nat, known: nat, initial: bool, b: seq<Module>, c: seq<Module>, d: seq<Module>)
    requires known <= loaded <= |a| == |b| == |c| == |d|
    requires forall i :: 0 <= i < |b| ==> b[i] == if i < known then FlagMissing(a[i], true) else a[i]
    requires forall i :: 0 <= i < |c| ==> c[i] == if i < loaded then RestartModified(b[i]) else b[i]
    requires forall i :: 0 <= i < |d| ==> d[i] == if initial && i < loaded then InitVars(c[i], c[i].pid > 0) else c[i]
    ensures d == SettleAll(a, loaded, known, initial)
  {
    forall i | 0 <= i < loaded ensures d[i] == Settle(a[i], i < known, initial) {
      SettleIs(a[i], i < known, initial);
      FlagKnown(a[i]);
      InitNothing(c[i]);
    }
  }

  lemma FlagKnown(m: Module)
    ensures FlagMissing(m, false) == m
  {}

  lemma InitNothing(m: Module)
    ensures InitVars(m, false) == m
  {}

  lemma NameRead(m: Module, n: Node)
    requires Is(n, NameTag) && n.text.Some?
    ensures Process(m, n, true) == m.(name := n.text.value)
  {}

  lemma PathRead(m: Module, n: Node, isNew: bool)
    requires Is(n, PathTag)
    ensures Process(m, n, isNew) == m.(path := n.text, modified := m.modified || (!isNew && n.text != m.path))
  {}

  lemma ParamsRead(m: Module, n: Node, isNew: bool)
    requires Is(n, ParamsTag)
    ensures Process(m, n, isNew) == m.(params := n.text, modified := m.modified || (!isNew && n.text != m.params))
  {}

  lemma EnabledRead(m: Module, n: Node, isNew: bool)
    requires Is(n, EnabledTag)
    ensures var on := SwitchedOn(n.text);
            Process(m, n, isNew) == m.(enabled := on, restartCnt := if on && (isNew || !m.enabled) then -1 else m.restartCnt)
  {}

  lemma NameKept(m: Module, n: Node, isNew: bool)
    requires Is(n, NameTag) && !(isNew && n.text.Some?)
    ensures Process(m, n, isNew) == m
  {}

  lemma ProcessNothing(m: Module, n: Node, isNew: bool)
    requires !Is(n, TrapTag) && !Is(n, EnabledTag) && !Is(n, ParamsTag) && !Is(n, PathTag) && !Is(n, NameTag) && !Is(n, RestartsTag)
    ensures Process(m, n, isNew) == m
  {}

  lemma ServeSkips(s: State, y: nat)
    requires y < s.loaded <= |s.slots| && (s.slots[y].served || s.slots[y].remove) && !Removable(s.slots[y])
    ensures ServeSlot(s, y) == s
  {
    ServedSame(s.slots[y]);
    assert s.slots[y := s.slots[y]] == s.slots;
  }

  lemma ServedSame(m: Module)
    requires m.served || m.remove
    ensures Served(m) == m
  {}

  lemma ServeAgain(s: State, y: nat)
    requires y < s.loaded <= |s.slots| && !s.slots[y].served && !s.slots[y].remove && s.slots[y].init && !s.slots[y].status
    ensures ServeSlot(s, y) == Put(s, y, s.slots[y].(enabled := true, restartCnt := -1, init := false, served := true))
  {}

  lemma ServeDrops(s: State, y: nat)
    requires y < s.loaded <= |s.slots| && !s.slots[y].served && !s.slots[y].remove && s.slots[y].init && s.slots[y].status
    ensures ServeSlot(s, y) == Disconnect(s, y)
  {
    ServedDrops(s.slots[y]);
  }

  lemma ServedDrops(m: Module)
    requires !m.served && !m.remove && m.init && m.status
    ensures Served(m) == Disconnected(m)
  {}

  lemma ServePlain(s: State, y: nat)
    requires y < s.loaded <= |s.slots| && !s.slots[y].served && !s.slots[y].remove && !s.slots[y].init
    ensures ServeSlot(s, y) == Put(s, y, s.slots[y].(served := true))
  {}

  lemma SigintIs(s: State, x: nat)
    requires x < |s.slots| && s.slots[x].status && !s.slots[x].rootPerm && Unwanted(s.profiles, s.slots[x]) && !s.slots[x].sentSigint
    ensures SigintSlot(s, x)
         == s.(slots := s.slots[x := s.slots[x].(sentSigint := true, restartCnt := -1)], trace := s.trace + [SentSigint(s.slots[x].pid)])
  {}

  lemma SigintSkips(s: State, x: nat)
    requires x < |s.slots|
    requires !(s.slots[x].status && !s.slots[x].rootPerm && Unwanted(s.profiles, s.slots[x]) && !s.slots[x].sentSigint)
    ensures SigintSlot(s, x) == s
  {
    assert s.trace + [] == s.trace && s.slots[x := s.slots[x]] == s.slots;
  }

  lemma KillIs(s: State, x: nat)
    requires x < |s.slots| && s.slots[x].status && Unwanted(s.profiles, s.slots[x]) && s.slots[x].sentSigint
    ensures KillSlot(s, x)
         == s.(slots := s.slots[x := s.slots[x].(restartCnt := -1)], os := Kernel.Sigkill(s.os, s.slots[x].pid),
               trace := s.trace + [SentSigkill(s.slots[x].pid)])
  {}

  lemma KillSkips(s: State, x: nat)
    requires x < |s.slots| && !(s.slots[x].status && Unwanted(s.profiles, s.slots[x]) && s.slots[x].sentSigint)
    ensures KillSlot(s, x) == s
  {
    assert s.trace + [] == s.trace && s.slots[x := s.slots[x]] == s.slots;
  }

  lemma RunningNext(ms: seq<Module>, x: nat, goOn: bool)
    requires x < |ms|
    ensures StopAll.Running(ms[..x + 1], goOn)
         == StopAll.Running(ms[..x], goOn) + if ms[x].pid > 0 && (goOn || !ms[x].rootPerm) then 1 else 0
  {
    assert ms[..x + 1] == ms[..x] + [ms[x]];
    StopAll.RunningSnoc(ms[..x], ms[x], goOn);
  }

  /** The states of k periods, one by one. */
  ghost predicate Course(ss: seq<State>, k: nat, env: nat -> nat -> Env) {
    |ss| == k + 1 && forall m {:trigger Visit(m)} :: Visit(m) && 0 <= m < k ==> Sized(ss[m]) && ss[m + 1] == Period(ss[m], env(k - m))
  }

  lemma {:induction false} CourseOf(st: State, k: nat, env: nat -> nat -> Env) returns (ss: seq<State>)
    requires Sized(st)
    ensures Course(ss, k, env) && ss[0] == st && ss[k] == Restart.Periods(st, k, env)
    decreases k
  {
    ss := [st];
    if k > 0 {
      var rest := CourseOf(Period(st, env(k)), k - 1, env);
      ss := [st] + rest;
      CourseCons(st, rest, k, env);
    }
  }

  lemma CourseCons(st: State, rest: seq<State>, k: nat, env: nat -> nat -> Env)
    requires Sized(st) && k > 0 && Course(rest, k - 1, env) && rest[0] == Period(st, env(k))
    ensures Course([st] + rest, k, env)
  {
    var ss := [st] + rest;
    forall m {:trigger Visit(m)} | Visit(m) && 0 <= m < k ensures Sized(ss[m]) && ss[m + 1] == Period(ss[m], env(k - m)) {
      if m > 0 {
        assert Visit(m - 1);
      }
    }
  }

  /** Loop k has been run, from a to b. */
  lemma LoopDone(a: State, b: State, k: nat, n: nat, e: nat -> Env, goal: State) returns (r: State)
    requires Sized(a) && k < n && Chain(a, k, n, e) == goal && b == Pass(Loop(k), a, 0, e(k))
    ensures r == b && Sized(r) && Chain(r, k + 1, n, e) == goal
  {
    r := b;
    ChainStep(a, k, n, e);
  }

  lemma PeriodChain(st: State, e: nat -> Env)
    requires Sized(st)
    ensures Period(st, e) == Chain(Chain(Chain(Chain(Pass(Check, st, 0, e(0)), 1, 4, e), 4, 7, e), 7, 10, e), 10, LOOPS, e)
  {
    assert Stage(st, 0, e) == st;
    StageStep(st, 0, e);
    StageChain(st, 1, 4, e);
    StageChain(st, 4, 7, e);
    StageChain(st, 7, 10, e);
    StageChain(st, 10, LOOPS, e);
  }
}
