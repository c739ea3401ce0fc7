/** The operating system the supervisor runs on. Every outcome the kernel may
    choose is an input; an outcome no kernel can produce (a fork returning a PID
    that already exists, a socket call returning a descriptor that is open) is
    read as the failure of that call, so quantifying over the inputs is
    quantifying over every kernel. */
module Kernel {
  import opened Model

  datatype ForkOutcome = NoFork | Fork(pid: int, eperm: bool)
  datatype KillOutcome = Delivered | Esrch | Eperm

  /** What happens around one visit of a slot: the processes that exit just before
      it, what fork returns, the descriptor of a successful connect, and whether a
      send or receive works. */
  datatype Env = Env(dying: nat -> set<int>, fork: nat -> ForkOutcome, connect: nat -> Option<int>, transfer: nat -> bool)

  /** A child that exits stays a zombie until it is waited for; init reaps the others. */
  function Ended(p: Proc): Proc {
    if p.phase.Alive? then p.(phase := if p.child then Zombie else Gone) else p
  }

  function Exit(os: map<int, Proc>, dying: set<int>): map<int, Proc> {
    map p | p in os :: if p in dying then Ended(os[p]) else os[p]
  }

  /** kill(pid, 0) */
  function Probe(os: map<int, Proc>, pid: int): KillOutcome {
    if pid !in os || os[pid].phase.Gone? then Esrch
    else if os[pid].eperm then Eperm
    else Delivered
  }

  /** kill(-pid, SIGKILL) */
  function Sigkill(os: map<int, Proc>, pid: int): map<int, Proc> {
    if pid in os && !os[pid].eperm then os[pid := Ended(os[pid])] else os
  }

  predicate Forks(os: map<int, Proc>, f: ForkOutcome) {
    f.Fork? && f.pid > 0 && f.pid !in os
  }

  predicate Connects(open: set<int>, c: Option<int>) {
    c.Some? && c.value >= 0 && c.value !in open
  }

  predicate CanWait(os: map<int, Proc>, pid: int) {
    pid in os && os[pid].child && !os[pid].phase.Gone?
  }

  /** Time passes in the kernel: processes appear, none is forgotten, phases only advance. */
  ghost predicate Later(a: map<int, Proc>, b: map<int, Proc>) {
    forall p :: p in a ==> p in b && Advances(a[p], b[p])
  }

  predicate Advances(p: Proc, q: Proc) {
    && q.eperm == p.eperm && q.child == p.child && q.owner == p.owner
    && (p.phase.Gone? ==> q.phase.Gone?)
    && (p.phase.Zombie? ==> !q.phase.Alive?)
  }
}
