/** One period of service_thread_routine, as a function of the state and of what
    the kernel does. Each of the thirteen loops over the modules is a `Pass` of a
    per-slot step; processes may exit before any visit of any slot. */
module Service {
  import opened Model
  import opened Kernel

  datatype Op = Check | Update | Sigint | Reap | Kill | Serve | Connect | Send | Recv

  function Put(st: State, x: nat, m: Module): State
    requires x < |st.slots|
  {
    st.(slots := st.slots[x := m])
  }

  function Log(st: State, e: Event): State {
    st.(trace := st.trace + [e])
  }

  /** Storing a record that gives up its descriptor closes the socket. */
  function Replace(st: State, x: nat, n: Module): State
    requires x < |st.slots|
  {
    Put(st, x, n).(open := if n.sd != st.slots[x].sd then st.open - {st.slots[x].sd} else st.open)
  }

  function Checked(m: Module, os: map<int, Proc>): Module {
    var dead := m.pid > 0 && Probe(os, m.pid).Esrch?;
    var live := m.pid > 0 && !dead;
    m.(rootPerm := if live then Probe(os, m.pid).Eperm? else m.rootPerm,
       status := live || (m.status && !dead),
       sd := if dead then -1 else m.sd,
       connected := m.connected && !dead,
       pid := if dead then 0 else m.pid)
  }

  // service_check_modules_status, body of the loop
  function CheckSlot(st: State, x: nat): State
    requires x < |st.slots|
  {
    Replace(st, x, Checked(st.slots[x], st.os))
  }

  // init_module_variables
  function InitVars(m: Module, b: bool): Module {
    m.(running := m.running || b, sentSigint := m.sentSigint && !b, sd := if b then -1 else m.sd,
       connected := m.connected && !b, connTimer := if b then 0 else m.connTimer)
  }

  /** The restart window: every PERIODS periods the counter starts again from 0. */
  function Tick(m: Module): Module {
    var wrap := m.restartTimer + 1 >= PERIODS;
    m.(restartTimer := if wrap then 0 else m.restartTimer + 1,
       restartCnt := if wrap && m.restartCnt > 0 then 0 else m.restartCnt)
  }

  datatype Decision = Leave | Disable | Start

  /** What service_update_modules_status decides about a module whose window has ticked. */
  function Decide(profiles: seq<Profile>, defaultLimit: int, m: Module): Decision {
    if !Wanted(profiles, m) || m.status then Leave
    else if m.restartCnt == Limit(defaultLimit, m) then Disable
    else Start
  }

  function Started(m0: Module, forked: bool, pid: int): Module {
    var m := InitVars(m0, true);
    m.(pid := if forked then pid else -1,
       myChild := m.myChild || forked,
       status := forked,
       restartCnt := m.restartCnt + 1,
       restartTimer := if forked && m.restartCnt + 1 == 1 then 0 else m.restartTimer)
  }

  // service_start_module
  function StartSlot(st: State, x: nat, f: ForkOutcome): State
    requires x < |st.slots|
  {
    var m := st.slots[x];
    var forked := Forks(st.os, f);
    var pid := if forked then f.pid else 0;
    st.(slots := st.slots[x := Started(m, forked, pid)],
        os := if forked then st.os[pid := Proc(Alive, f.eperm, true, m.name)] else st.os,
        trace := st.trace + [if forked then Forked(m.name, pid) else ForkFailed(m.name)])
  }

  // service_update_modules_status, body of the loop
  function UpdateSlot(st: State, x: nat, f: ForkOutcome): State
    requires x < |st.slots|
  {
    var m := Tick(st.slots[x]);
    var st1 := Put(st, x, m);
    match Decide(st.profiles, st.defaultLimit, m)
    case Leave => st1
    case Disable => Log(Put(st1, x, m.(enabled := false)), AutoDisabled(m.name, Limit(st.defaultLimit, m)))
    case Start => StartSlot(st1, x, f)
  }

  // service_stop_modules_sigint, body of the loop
  function SigintSlot(st: State, x: nat): State
    requires x < |st.slots|
  {
    var m := st.slots[x];
    var hit := m.status && !m.rootPerm && Unwanted(st.profiles, m) && !m.sentSigint;
    st.(slots := st.slots[x := Signalled(m, hit)],
        trace := st.trace + if hit then [SentSigint(m.pid)] else [])
  }

  function Signalled(m: Module, hit: bool): Module {
    m.(sentSigint := m.sentSigint || hit, restartCnt := if hit then -1 else m.restartCnt)
  }

  // service_stop_modules_sigkill, body of the loop
  function KillSlot(st: State, x: nat): State
    requires x < |st.slots|
  {
    var m := st.slots[x];
    var hit := m.status && Unwanted(st.profiles, m) && m.sentSigint;
    st.(slots := st.slots[x := Signalled(m, hit)],
        os := if hit then Kernel.Sigkill(st.os, m.pid) else st.os,
        trace := st.trace + if hit then [SentSigkill(m.pid)] else [])
  }

  /** waitpid would fail with ECHILD. */
  predicate Lost(m: Module, os: map<int, Proc>) {
    m.pid > 0 && m.myChild && !CanWait(os, m.pid)
  }

  /** waitpid would return the child. */
  predicate Exited(m: Module, os: map<int, Proc>) {
    m.pid > 0 && m.myChild && CanWait(os, m.pid) && os[m.pid].phase.Zombie?
  }

  // service_clean_after_children, body of the loop
  function ReapSlot(st: State, x: nat): State
    requires x < |st.slots|
  {
    var m := st.slots[x];
    var reaps := Exited(m, st.os);
    st.(slots := st.slots[x := m.(myChild := m.myChild && !Lost(m, st.os))],
        os := if reaps then st.os[m.pid := st.os[m.pid].(phase := Gone)] else st.os,
        trace := st.trace + if reaps then [Reaped(m.pid)] else [])
  }

  function Disconnected(m: Module): Module {
    m.(sd := if m.connected then -1 else m.sd, connected := false, connTimer := 0)
  }

  // service_disconnect_from_module
  function Disconnect(st: State, x: nat): State
    requires x < |st.slots|
  {
    Replace(st, x, Disconnected(st.slots[x]))
  }

  // free_module_and_shift_array
  function Removed(slots: seq<Module>, loaded: nat, x: nat): (r: seq<Module>)
    requires x < loaded <= |slots|
  {
    slots[..x] + slots[x + 1..loaded] + [BlankModule] + slots[loaded..]
  }

  predicate Removable(m: Module) {
    !m.served && m.remove && !m.status
  }

  /** What the pass over unserved modules leaves of a module it does not remove. */
  function Served(m: Module): Module {
    var mine := !m.served && !m.remove;
    var again := mine && m.init && !m.status;
    var drop := mine && m.init && m.status;
    m.(enabled := m.enabled || again,
       restartCnt := if again then -1 else m.restartCnt,
       init := m.init && !again,
       served := m.served || (mine && !drop),
       sd := if drop && m.connected then -1 else m.sd,
       connected := m.connected && !drop,
       connTimer := if drop then 0 else m.connTimer)
  }

  // The loop that removes stopped modules and serves pending restarts.
  function ServeSlot(st: State, x: nat): State
    requires x < st.loaded <= |st.slots|
  {
    var m := st.slots[x];
    if Removable(m) then st.(slots := Removed(st.slots, st.loaded, x), loaded := st.loaded - 1)
    else Replace(st, x, Served(m))
  }

  /** A module after a connection attempt that gave descriptor fd, or -1; without an attempt only the timer moves. */
  function Connecting(m: Module, due: bool, fd: int): Module {
    var ok := due && fd >= 0;
    m.(sd := if due then fd else m.sd, connected := m.connected || ok, connTimer := if ok then 0 else m.connTimer + 1)
  }

  // service_check_connections and service_connect_to_module
  function ConnectSlot(st: State, x: nat, c: Option<int>): State
    requires x < |st.slots|
  {
    var m := st.slots[x];
    if !m.status || m.connected then st
    else
      var due := (m.connTimer + 1) % PERIODS == 1;
      var open1 := if due && m.sd != -1 then st.open - {m.sd} else st.open;
      var ok := due && Connects(open1, c);
      var fd := if ok then c.value else -1;
      Put(st, x, Connecting(m, due, fd)).(open := if ok then open1 + {fd} else open1)
  }

  function SendSlot(st: State, x: nat, ok: bool): State
    requires x < |st.slots|
  {
    if st.slots[x].connected && !ok then Disconnect(st, x) else st
  }

  function RecvSlot(st: State, x: nat, ok: bool): State
    requires x < |st.slots|
  {
    if st.slots[x].status && st.slots[x].connected && !ok then Disconnect(st, x) else st
  }

  /** The step of a loop once the processes that exit before it have done so. */
  function Act(op: Op, st: State, x: nat, e: Env): (r: State)
    requires x < st.loaded <= |st.slots|
    ensures |r.slots| == |st.slots| && r.loaded <= st.loaded && (op != Serve ==> r.loaded == st.loaded)
    ensures r.profiles == st.profiles && r.defaultLimit == st.defaultLimit
  {
    match op
    case Check => CheckSlot(st, x)
    case Update => UpdateSlot(st, x, e.fork(x))
    case Sigint => SigintSlot(st, x)
    case Reap => ReapSlot(st, x)
    case Kill => KillSlot(st, x)
    case Serve => ServeSlot(st, x)
    case Connect => ConnectSlot(st, x, e.connect(x))
    case Send => SendSlot(st, x, e.transfer(x))
    case Recv => RecvSlot(st, x, e.transfer(x))
  }

  /** Some processes exit, then the step looks at slot x. */
  function Slot(op: Op, st: State, x: nat, e: Env): (r: State)
    requires x < st.loaded <= |st.slots|
    ensures |r.slots| == |st.slots| && r.loaded <= st.loaded && (op != Serve ==> r.loaded == st.loaded)
    ensures r.profiles == st.profiles && r.defaultLimit == st.defaultLimit
  {
    Act(op, st.(os := Exit(st.os, e.dying(x))), x, e)
  }

  function Pass(op: Op, st: State, x: nat, e: Env): (r: State)
    requires Sized(st)
    ensures |r.slots| == |st.slots| && Sized(r) && r.loaded <= st.loaded && (op != Serve ==> r.loaded == st.loaded)
    ensures r.profiles == st.profiles && r.defaultLimit == st.defaultLimit
    decreases st.loaded - x
  {
    if x >= st.loaded then st else Pass(op, Slot(op, st, x, e), x + 1, e)
  }

  /** The loops of service_thread_routine in their order. */
  const LOOPS: nat := 13

  function Loop(k: nat): Op {
    if k == 0 || k == 4 || k == 8 || k == 11 then Check
    else if k == 1 then Update
    else if k == 2 then Sigint
    else if k == 3 || k == 6 then Reap
    else if k == 5 then Kill
    else if k == 7 then Serve
    else if k == 9 then Connect
    else if k == 10 then Send
    else Recv
  }

  /** The state after the first k loops of a period. */
  function Stage(st: State, k: nat, e: nat -> Env): (r: State)
    requires Sized(st) && k <= LOOPS
    ensures |r.slots| == |st.slots| && Sized(r) && r.loaded <= st.loaded
    ensures r.profiles == st.profiles && r.defaultLimit == st.defaultLimit
  {
    if k == 0 then st else Pass(Loop(k - 1), Stage(st, k - 1, e), 0, e(k - 1))
  }

  function Period(st: State, e: nat -> Env): State
    requires Sized(st)
  {
    Stage(st, LOOPS, e)
  }
}
