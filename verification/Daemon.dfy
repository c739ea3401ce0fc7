/** The daemon: an acceptor and its client threads as small steps. Only some of
    the accesses are made under the lock of server_internals_t; a counter update is a
    read and a write. A step that finds the lock taken does nothing. */
module Daemon {
  import opened Model

  const MAX_CLIENTS := 5   // MAX_NUMBER_SUP_CLIENTS

  datatype Who = Acceptor | Client(t: nat)

  /** sup_client_t; the two streams are open or not. */
  datatype Slot = Slot(sd: int, connected: bool, id: nat, streamFd: int, input: bool, output: bool)

  /** Where daemon_mode_server_routine stands; x is the slot it works on. */
  datatype AcceptorPc =
    | Waiting | Testing(sd: nat) | Scanning(sd: nat, x: nat)
    | SettingId(x: nat) | SettingConnected(x: nat) | CountingId(x: nat)
    | Locking(x: nat) | Reading(x: nat) | Writing(x: nat, tmp: int) | Unlocking(x: nat) | Creating(x: nat)
    | Freeing(x: nat) | Clearing(x: nat) | LockingBack | ReadingBack | WritingBack(tmp: int) | UnlockingBack
    | Stopped

  /** Where daemon_serve_client_routine and daemon_disconnect_client stand. */
  datatype ClientPc =
    | Opening | Asking
    | LockingMode | TestingMode | SettingMode | UnlockingBusy | UnlockingMode | SettingOutput | SettingInput
    | Serving | LockingStop | SettingStop | UnlockingStop
    | ResettingInput | ResettingOutput | LockingRelease | Releasing | UnlockingRelease
    | Leaving | ClosingFd | ClosingInput | ClosingOutput | ClosingSd
    | LockingCount | ReadingCount | WritingCount(tmp: int) | UnlockingCount | Done

  datatype Thread = Thread(slot: nat, pc: ClientPc)

  /** inputOf and outputOf: whose streams input_fd and output_fd are, None for the defaults. */
  datatype Server = Server(
    slots: seq<Slot>, cnt: int, terminated: bool, nextId: nat, active: bool, lock: Option<Who>,
    inputOf: Option<nat>, outputOf: Option<nat>, acceptor: AcceptorPc, threads: seq<Thread>)

  /** What the environment decides: whether a call succeeds, which way a client goes, the descriptor accept returns. */
  datatype Choice = Choice(go: bool, other: bool, sd: nat)

  const FreeSlot := Slot(-1, false, 0, -1, false, false)

  const Initial := Server(seq(MAX_CLIENTS, i => FreeSlot), 0, false, 0, false, None, None, None, Waiting, [])

  function AtAcceptor(s: Server, pc: AcceptorPc): Server {
    s.(acceptor := pc)
  }

  function AtClient(s: Server, t: nat, pc: ClientPc): Server
    requires t < |s.threads|
  {
    s.(threads := s.threads[t := s.threads[t].(pc := pc)])
  }

  function PutSlot(s: Server, x: nat, v: Slot): Server
    requires x < |s.slots|
  {
    s.(slots := s.slots[x := v])
  }

  // daemon_mode_server_routine
  function AcceptorStep(s: Server, c: Choice): Server {
    match s.acceptor
    case Waiting => if s.terminated then AtAcceptor(s, Stopped) else if c.go then AtAcceptor(s, Testing(c.sd)) else s
    case Testing(sd) => AtAcceptor(s, if s.cnt < MAX_CLIENTS then Scanning(sd, 0) else Waiting)
    case Scanning(sd, x) =>
      if x >= |s.slots| then AtAcceptor(s, Waiting)
      else if s.slots[x].sd == -1 then AtAcceptor(PutSlot(s, x, s.slots[x].(sd := sd)), SettingId(x))
      else AtAcceptor(s, Scanning(sd, x + 1))
    case SettingId(x) => AtAcceptor(if x < |s.slots| then PutSlot(s, x, s.slots[x].(id := s.nextId)) else s, SettingConnected(x))
    case SettingConnected(x) => AtAcceptor(if x < |s.slots| then PutSlot(s, x, s.slots[x].(connected := true)) else s, CountingId(x))
    case CountingId(x) => AtAcceptor(s.(nextId := (s.nextId + 1) % 0x1_0000), Locking(x))
    case Locking(x) => if s.lock.None? then AtAcceptor(s.(lock := Some(Acceptor)), Reading(x)) else s
    case Reading(x) => AtAcceptor(s, Writing(x, s.cnt))
    case Writing(x, tmp) => AtAcceptor(s.(cnt := tmp + 1), Unlocking(x))
    case Unlocking(x) => AtAcceptor(s.(lock := None), Creating(x))
    case Creating(x) =>
      if c.go then AtAcceptor(s.(threads := s.threads + [Thread(x, Opening)]), Waiting) else AtAcceptor(s, Freeing(x))
    case Freeing(x) => AtAcceptor(if x < |s.slots| then PutSlot(s, x, s.slots[x].(sd := -1)) else s, Clearing(x))
    case Clearing(x) => AtAcceptor(if x < |s.slots| then PutSlot(s, x, s.slots[x].(connected := false)) else s, LockingBack)
    case LockingBack => if s.lock.None? then AtAcceptor(s.(lock := Some(Acceptor)), ReadingBack) else s
    case ReadingBack => AtAcceptor(s, WritingBack(s.cnt))
    case WritingBack(tmp) => AtAcceptor(s.(cnt := tmp - 1), UnlockingBack)
    case UnlockingBack => AtAcceptor(s.(lock := None), Waiting)
    case Stopped => s
  }

  /** In daemon_disconnect_client, or done. */
  predicate Leaves(pc: ClientPc) {
    pc.Leaving? || pc.ClosingFd? || pc.ClosingInput? || pc.ClosingOutput? || pc.ClosingSd? || pc.LockingCount?
    || pc.ReadingCount? || pc.WritingCount? || pc.UnlockingCount? || pc.Done?
  }

  // daemon_serve_client_routine for thread t
  function ServeStep(s: Server, t: nat, c: Choice): Server
    requires t < |s.threads| && s.threads[t].slot < |s.slots| && !Leaves(s.threads[t].pc)
  {
    var x := s.threads[t].slot;
    var v := s.slots[x];
    match s.threads[t].pc
    case Opening =>
      if c.go then AtClient(PutSlot(s, x, v.(input := true, output := true, streamFd := v.sd)), t, Asking)
      else AtClient(PutSlot(s, x, v.(input := v.input || c.other)), t, Leaving)
    case Asking => AtClient(s, t, if c.go then LockingMode else Leaving)
    case LockingMode => if s.lock.None? then AtClient(s.(lock := Some(Client(t))), t, TestingMode) else s
    case TestingMode => AtClient(s, t, if s.active then UnlockingBusy else SettingMode)
    case SettingMode => AtClient(s.(active := true), t, UnlockingMode)
    case UnlockingBusy => AtClient(s.(lock := None), t, Leaving)
    case UnlockingMode => AtClient(s.(lock := None), t, SettingOutput)
    case SettingOutput => AtClient(s.(outputOf := Some(t)), t, SettingInput)
    case SettingInput => AtClient(s.(inputOf := Some(t)), t, Serving)
    case Serving =>
      if !v.connected || s.terminated || c.go then AtClient(s, t, ResettingInput)
      else AtClient(s, t, if c.other then LockingStop else Serving)
    case LockingStop => if s.lock.None? then AtClient(s.(lock := Some(Client(t))), t, SettingStop) else s
    case SettingStop => AtClient(s.(terminated := true), t, UnlockingStop)
    case UnlockingStop => AtClient(s.(lock := None), t, Serving)
    case ResettingInput => AtClient(s.(inputOf := None), t, ResettingOutput)
    case ResettingOutput => AtClient(s.(outputOf := None), t, LockingRelease)
    case LockingRelease => if s.lock.None? then AtClient(s.(lock := Some(Client(t))), t, Releasing) else s
    case Releasing => AtClient(s.(active := false), t, UnlockingRelease)
    case UnlockingRelease => AtClient(s.(lock := None), t, Leaving)
  }

  // daemon_disconnect_client for thread t
  function LeaveStep(s: Server, t: nat): Server
    requires t < |s.threads| && s.threads[t].slot < |s.slots| && Leaves(s.threads[t].pc)
  {
    var x := s.threads[t].slot;
    var v := s.slots[x];
    match s.threads[t].pc
    case Leaving => AtClient(PutSlot(s, x, v.(connected := false)), t, ClosingFd)
    case ClosingFd => AtClient(PutSlot(s, x, v.(streamFd := -1)), t, ClosingInput)
    case ClosingInput => AtClient(PutSlot(s, x, v.(input := false)), t, ClosingOutput)
    case ClosingOutput => AtClient(PutSlot(s, x, v.(output := false)), t, ClosingSd)
    case ClosingSd => AtClient(PutSlot(s, x, v.(sd := -1)), t, LockingCount)
    case LockingCount => if s.lock.None? then AtClient(s.(lock := Some(Client(t))), t, ReadingCount) else s
    case ReadingCount => AtClient(s, t, WritingCount(s.cnt))
    case WritingCount(tmp) => AtClient(s.(cnt := tmp - 1), t, UnlockingCount)
    case UnlockingCount => AtClient(s.(lock := None), t, Done)
    case Done => s
  }

  function ClientStep(s: Server, t: nat, c: Choice): Server
    requires t < |s.threads|
  {
    if s.threads[t].slot >= |s.slots| then s
    else if Leaves(s.threads[t].pc) then LeaveStep(s, t)
    else ServeStep(s, t, c)
  }

  /** A schedule chooses who moves; a move of a thread that does not exist is supervisor_termination
      setting the flag, for which it needs the lock. */
  datatype Move = Move(who: Who, choice: Choice)

  function Step(s: Server, m: Move): Server {
    match m.who
    case Acceptor => AcceptorStep(s, m.choice)
    case Client(t) =>
      if t < |s.threads| then ClientStep(s, t, m.choice)
      else if s.lock.None? then s.(terminated := true)
      else s
  }

  function RunOf(s: Server, moves: seq<Move>): Server
    decreases |moves|
  {
    if moves == [] then s else RunOf(Step(s, moves[0]), moves[1..])
  }
}
