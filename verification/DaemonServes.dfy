/** What the daemon does for its clients: an accepted client gets a slot and a thread,
    a client that finds configuration mode free gets it, and one is turned away only
    while another holds it. */
module DaemonServes {
  import opened Model
  import opened Daemon
  import opened DaemonProofs

  // ----- One move -----

  /** What a client thread leaves of the rest. */
  lemma ClientTouches(s: Server, t: nat, c: Choice)
    requires Fine(s) && t < |s.threads|
    ensures var r := ClientStep(s, t, c);
            && ClientMoves(s, t, r)
            && ClientFrees(s.slots[s.threads[t].slot], r.slots[s.threads[t].slot], s.threads[t].pc, r.threads[t].pc)
  {
    if Leaves(s.threads[t].pc) {
      LeaveFrees(s, t);
    } else {
      ServeFrees(s, t, c);
    }
  }

  /** Nobody else moves a thread. */
  lemma ThreadStays(s: Server, m: Move, t: nat)
    requires Fine(s) && t < |s.threads| && m.who != Client(t)
    ensures t < |Step(s, m).threads| && Step(s, m).threads[t] == s.threads[t]
  {
    match m.who
    case Acceptor => AcceptorSpawns(s, m.choice);
    case Client(u) =>
      if u < |s.threads| {
        ClientTouches(s, u, m.choice);
      }
  }

  // ----- Configuration mode -----

  /** A client is turned away only while another one is in the mode. */
  lemma TurnedAway(moves: seq<Move>, m: Move, t: nat)
    requires var r := RunOf(Initial, moves);
             && t < |r.threads| && t < |Step(r, m).threads|
             && Step(r, m).threads[t].pc.UnlockingBusy? && !r.threads[t].pc.UnlockingBusy?
    ensures var r := RunOf(Initial, moves);
            exists u :: 0 <= u < |r.threads| && u != t && InMode(r.threads[u].pc)
  {
    var r := Interleaved(moves);
    if m.who != Client(t) {
      ThreadStays(r, m, t);
    }
    BusyWasActive(r, t, m.choice);
    assert ModeOk(r.active, r.threads);
  }

  lemma BusyWasActive(s: Server, t: nat, c: Choice)
    requires t < |s.threads|
    ensures ClientStep(s, t, c).threads[t].pc.UnlockingBusy? && !s.threads[t].pc.UnlockingBusy? ==>
              s.active && s.threads[t].pc.TestingMode?
  {
    if s.threads[t].slot < |s.slots| {
      if Leaves(s.threads[t].pc) {
        LeaveNotBusy(s, t);
      } else {
        ServeBusy(s, t, c);
      }
    }
  }

  lemma LeaveNotBusy(s: Server, t: nat)
    requires t < |s.threads| && s.threads[t].slot < |s.slots| && Leaves(s.threads[t].pc)
    ensures t < |LeaveStep(s, t).threads| && !LeaveStep(s, t).threads[t].pc.UnlockingBusy?
  {}

  lemma ServeBusy(s: Server, t: nat, c: Choice)
    requires t < |s.threads| && s.threads[t].slot < |s.slots| && !Leaves(s.threads[t].pc)
    ensures var r := ServeStep(s, t, c);
            t < |r.threads| && (r.threads[t].pc.UnlockingBusy? ==> s.active && s.threads[t].pc.TestingMode?)
  {}

  /** The moves a client needs from the test of the flag until it is served; 9 if it is elsewhere. */
  function ToServing(pc: ClientPc): nat {
    match pc
    case TestingMode => 5
    case SettingMode => 4
    case UnlockingMode => 3
    case SettingOutput => 2
    case SettingInput => 1
    case Serving => 0
    case _ => 9
  }

  /** On its way: before the test the flag must be clear. */
  predicate OnTheWay(s: Server, t: nat) {
    t < |s.threads| && ToServing(s.threads[t].pc) < 9 && (s.threads[t].pc.TestingMode? ==> !s.active)
  }

  lemma OwnMove(s: Server, t: nat, c: Choice)
    requires Fine(s) && OnTheWay(s, t) && ToServing(s.threads[t].pc) > 0
    ensures var r := ClientStep(s, t, c);
            OnTheWay(r, t) && ToServing(r.threads[t].pc) == ToServing(s.threads[t].pc) - 1
  {}

  /** While a client holds the lock for the test nobody else changes the flag. */
  lemma FlagStays(s: Server, m: Move, t: nat)
    requires Fine(s) && t < |s.threads| && s.threads[t].pc.TestingMode? && m.who != Client(t)
    ensures Step(s, m).active == s.active
  {
    assert s.lock == Some(Client(t));
    match m.who
    case Acceptor => AcceptorFlag(s, m.choice);
    case Client(u) =>
      if u < |s.threads| {
        assert s.lock != Some(Client(u));
        ClientFlag(s, u, m.choice);
      }
  }

  lemma AcceptorFlag(s: Server, c: Choice)
    ensures AcceptorStep(s, c).active == s.active
  {}

  lemma ClientFlag(s: Server, u: nat, c: Choice)
    requires u < |s.threads| && !Critical(s.threads[u].pc)
    ensures ClientStep(s, u, c).active == s.active
  {}

  function MovesOf(moves: seq<Move>, t: nat): nat
    decreases |moves|
  {
    if moves == [] then 0 else (if moves[0].who == Client(t) then 1 else 0) + MovesOf(moves[1..], t)
  }

  lemma {:induction false} WayRun(s: Server, moves: seq<Move>, t: nat)
    requires Fine(s) && OnTheWay(s, t) && MovesOf(moves, t) == ToServing(s.threads[t].pc)
    ensures Fine(RunOf(s, moves)) && OnTheWay(RunOf(s, moves), t) && RunOf(s, moves).threads[t].pc.Serving?
    decreases |moves|
  {
    if moves != [] {
      var n := Step(s, moves[0]);
      StepKeeps(s, moves[0]);
      if moves[0].who == Client(t) {
        OwnMove(s, t, moves[0].choice);
      } else {
        ThreadStays(s, moves[0], t);
        if s.threads[t].pc.TestingMode? {
          FlagStays(s, moves[0], t);
        }
      }
      WayRun(n, moves[1..], t);
    }
  }

  /** A client that tests the flag when it is clear is served: whatever the others do in between, after its next five
      moves it is in the mode, the flag is set and both streams are its own. */
  lemma ModeGranted(moves: seq<Move>, more: seq<Move>, t: nat)
    requires var r := RunOf(Initial, moves);
             t < |r.threads| && r.threads[t].pc.TestingMode? && !r.active
    requires MovesOf(more, t) == 5
    ensures var r := RunOf(RunOf(Initial, moves), more);
            && t < |r.threads| && r.threads[t].pc.Serving? && r.active
            && r.inputOf == Some(t) && r.outputOf == Some(t)
  {
    var r := Interleaved(moves);
    WayRun(r, more, t);
  }

  /** A client whose streams open and that sends the code of the mode gets as far as the test, once it has the lock. */
  lemma ReachesTest(moves: seq<Move>, t: nat, c: Choice)
    requires t < |RunOf(Initial, moves).threads| && c.go
    ensures var r := RunOf(Initial, moves);
            var pc, next := r.threads[t].pc, ClientStep(r, t, c).threads[t].pc;
            && (pc.Opening? ==> next.Asking?) && (pc.Asking? ==> next.LockingMode?)
            && (pc.LockingMode? ==> if r.lock.None? then next.TestingMode? else next.LockingMode?)
            && (pc.LockingMode? || pc.Asking? ==> ClientStep(r, t, c).active == r.active)
  {
    var r := Interleaved(moves);
  }

  // ----- Accepting a client -----

  /** The acceptor has taken the connection sd and has not given it to a thread yet. */
  predicate Carrying(s: Server, sd: nat) {
    var a := s.acceptor;
    if a.Scanning? then a.sd == sd
    else (a.SettingId? || a.SettingConnected? || a.CountingId? || a.Locking? || a.Reading? || a.Writing? || a.Unlocking? || a.Creating?)
         && a.x < |s.slots| && s.slots[a.x].sd == sd
  }

  /** How many moves of its own the acceptor is away from creating the thread, not counting those that find the lock taken. */
  function ToThread(a: AcceptorPc): nat {
    match a
    case Scanning(_, x) => if x < MAX_CLIENTS then 9 + MAX_CLIENTS - x else 9
    case SettingId(_) => 8
    case SettingConnected(_) => 7
    case CountingId(_) => 6
    case Locking(_) => 5
    case Reading(_) => 4
    case Writing(_, _) => 3
    case Unlocking(_) => 2
    case _ => 1
  }

  /** A connection is taken exactly if the counter is below the maximum; otherwise nothing changes. */
  lemma TakenBelowMaximum(s: Server, c: Choice)
    requires s.acceptor.Testing?
    ensures var r := AcceptorStep(s, c);
            if s.cnt < MAX_CLIENTS then Carrying(r, s.acceptor.sd) && r == s.(acceptor := r.acceptor)
            else r == s.(acceptor := Waiting)
  {}

  lemma AcceptorCarries(s: Server, c: Choice, sd: nat)
    requires Fine(s) && Carrying(s, sd)
    ensures var r := AcceptorStep(s, c);
            if !s.acceptor.Creating? then
              && Carrying(r, sd) && (ToThread(r.acceptor) < ToThread(s.acceptor) || (s.acceptor.Locking? && s.lock.Some? && r == s))
            else r.slots == s.slots && (c.go ==> r.threads == s.threads + [Thread(s.acceptor.x, Opening)] && r.acceptor.Waiting?)
  {
    assert ScanOk(s.slots, s.acceptor);
  }

  /** The moves of clients leave the taken slot alone. */
  lemma ClientsLetCarry(s: Server, m: Move, sd: nat)
    requires Fine(s) && Carrying(s, sd) && m.who != Acceptor
    ensures Carrying(Step(s, m), sd) && Step(s, m).acceptor == s.acceptor
  {
    if m.who.Client? && m.who.t < |s.threads| {
      ClientTouches(s, m.who.t, m.choice);
    }
  }

  /** The thread for connection sd is created by move k. */
  ghost predicate ThreadAt(s: Server, moves: seq<Move>, k: nat, sd: nat) {
    && k < |moves|
    && var q, r := RunOf(s, moves[..k]), RunOf(s, moves[..k + 1]);
       && q.acceptor.Creating? && q.acceptor.x < |r.slots| && r.slots[q.acceptor.x].sd == sd
       && r.threads == q.threads + [Thread(q.acceptor.x, Opening)]
  }

  lemma LaterThread(s: Server, moves: seq<Move>, k: nat, sd: nat)
    requires moves != [] && ThreadAt(Step(s, moves[0]), moves[1..], k, sd)
    ensures ThreadAt(s, moves, k + 1, sd)
  {
    assert moves[..k + 1][1..] == moves[1..][..k] && moves[..k + 2][1..] == moves[1..][..k + 1];
  }

  lemma ThreadNow(s: Server, moves: seq<Move>, sd: nat)
    requires Fine(s) && Carrying(s, sd) && moves != [] && moves[0].who == Acceptor && moves[0].choice.go && s.acceptor.Creating?
    ensures ThreadAt(s, moves, 0, sd)
  {
    AcceptorCarries(s, moves[0].choice, sd);
    assert moves[..0] == [] && moves[..1] == [moves[0]] && moves[..1][1..] == [];
    assert RunOf(s, moves[..1]) == RunOf(Step(s, moves[0]), []) == Step(s, moves[0]);
  }

  /** If threads can be created, the acceptor does not drop a connection it has taken: it still holds it, or has
      created a thread that serves it. */
  lemma {:induction false} NotDropped(s: Server, moves: seq<Move>, sd: nat) returns (k: nat)
    requires Fine(s) && Carrying(s, sd) && forall i :: 0 <= i < |moves| ==> moves[i].choice.go
    ensures Carrying(RunOf(s, moves), sd) || ThreadAt(s, moves, k, sd)
    decreases |moves|
  {
    k := 0;
    if moves != [] {
      var m := moves[0];
      StepKeeps(s, m);
      if m.who == Acceptor {
        AcceptorCarries(s, m.choice, sd);
      } else {
        ClientsLetCarry(s, m, sd);
      }
      if m.who == Acceptor && s.acceptor.Creating? {
        ThreadNow(s, moves, sd);
      } else {
        var j := NotDropped(Step(s, m), moves[1..], sd);
        if ThreadAt(Step(s, m), moves[1..], j, sd) {
          LaterThread(s, moves, j, sd);
          k := j + 1;
        }
      }
    }
  }

  /** In every interleaving a client accepted below the maximum gets a slot and, if threads can be created, a thread. */
  lemma AcceptedIsServed(moves: seq<Move>, c: Choice, more: seq<Move>) returns (k: nat)
    requires var r := RunOf(Initial, moves);
             r.acceptor.Testing? && r.cnt < MAX_CLIENTS && forall i :: 0 <= i < |more| ==> more[i].choice.go
    ensures var r := RunOf(Initial, moves);
            var s := AcceptorStep(r, c);
            Carrying(RunOf(s, more), r.acceptor.sd) || ThreadAt(s, more, k, r.acceptor.sd)
  {
    var r := Interleaved(moves);
    StepKeeps(r, Move(Acceptor, c));
    TakenBelowMaximum(r, c);
    k := NotDropped(AcceptorStep(r, c), more, r.acceptor.sd);
  }

  /** Each move of the acceptor brings it nearer to creating the thread, unless it waits for the lock. */
  lemma AcceptorAdvances(moves: seq<Move>, c: Choice, sd: nat)
    requires Carrying(RunOf(Initial, moves), sd) && !RunOf(Initial, moves).acceptor.Creating?
    ensures var r := RunOf(Initial, moves);
            var n := AcceptorStep(r, c);
            Carrying(n, sd) && (ToThread(n.acceptor) < ToThread(r.acceptor) || (r.acceptor.Locking? && r.lock.Some? && n == r))
  {
    var r := Interleaved(moves);
    AcceptorCarries(r, c, sd);
  }

  // ----- What a slot holds -----

  predicate NoStreams(v: Slot) {
    !v.input && !v.output && v.streamFd == -1
  }

  /** The slot of a client thread: connected until it leaves, its streams open once they were opened, and closed one by
      one when it leaves. */
  predicate ThreadShape(v: Slot, pc: ClientPc) {
    && (pc.Opening? ==> v.connected && NoStreams(v))
    && (!pc.Opening? && !Leaves(pc) ==> v.connected && v.input && v.output && v.streamFd == v.sd)
    && (pc.ClosingFd? || pc.ClosingInput? || pc.ClosingOutput? || pc.ClosingSd? ==> !v.connected)
    && (pc.ClosingInput? || pc.ClosingOutput? || pc.ClosingSd? ==> v.streamFd == -1)
    && (pc.ClosingOutput? || pc.ClosingSd? ==> !v.input)
    && (pc.ClosingSd? ==> !v.output)
  }

  predicate AtSlot(a: AcceptorPc) {
    Taking(a) || a.Clearing?
  }

  /** The slot the acceptor works on. */
  predicate AcceptorShape(v: Slot, a: AcceptorPc) {
    && NoStreams(v) && (a.Clearing? ==> v.sd == -1)
    && (v.connected <==> !a.SettingId? && !a.SettingConnected?)
  }

  /** A slot that is free holds nothing. */
  predicate FreeShape(v: Slot, busy: bool) {
    v.sd == -1 && !busy ==> !v.connected && NoStreams(v)
  }

  predicate Busy(a: AcceptorPc, y: nat) {
    a.Clearing? && a.x == y
  }

  ghost predicate Shaped(s: Server) {
    && (forall t :: 0 <= t < |s.threads| && s.threads[t].slot < |s.slots| && Owns(s.threads[t].pc)
          ==> ThreadShape(s.slots[s.threads[t].slot], s.threads[t].pc))
    && (AtSlot(s.acceptor) && s.acceptor.x < |s.slots| ==> AcceptorShape(s.slots[s.acceptor.x], s.acceptor))
    && (forall y :: 0 <= y < |s.slots| ==> FreeShape(s.slots[y], Busy(s.acceptor, y)))
  }

  lemma AcceptorSlots(s: Server, c: Choice)
    ensures |AcceptorStep(s, c).slots| == |s.slots|
  {}

  /** The acceptor does not touch the slot a client owns. */
  lemma SlotKept(s: Server, c: Choice, t: nat)
    requires Fine(s) && Shaped(s) && t < |s.threads| && s.threads[t].slot < |s.slots| && Owns(s.threads[t].pc)
    ensures var r := AcceptorStep(s, c);
            |r.slots| == |s.slots| && r.slots[s.threads[t].slot] == s.slots[s.threads[t].slot]
  {
    assert s.slots[s.threads[t].slot].sd != -1;
    if Quiet(s.acceptor) {
      AcceptorQuiet(s, c);
    } else {
      AcceptorElsewhere(s, c, s.threads[t].slot);
    }
  }

  lemma AcceptorElsewhere(s: Server, c: Choice, y: nat)
    requires !Quiet(s.acceptor) && y < |s.slots|
    requires s.acceptor.x != y || (s.acceptor.Scanning? && s.slots[y].sd != -1)
    ensures |AcceptorStep(s, c).slots| == |s.slots| && AcceptorStep(s, c).slots[y] == s.slots[y]
  {}

  /** What the acceptor's step makes of the slot it works on, and of a free slot it finds. */
  lemma AcceptorShapes(s: Server, c: Choice)
    requires AtSlot(s.acceptor) && s.acceptor.x < |s.slots| ==> AcceptorShape(s.slots[s.acceptor.x], s.acceptor)
    requires forall y :: 0 <= y < |s.slots| ==> FreeShape(s.slots[y], Busy(s.acceptor, y))
    ensures var r := AcceptorStep(s, c);
            AtSlot(r.acceptor) && r.acceptor.x < |r.slots| ==> AcceptorShape(r.slots[r.acceptor.x], r.acceptor)
  {
    if AtSlot(s.acceptor) {
      SlotShapes(s, c);
    } else if s.acceptor.Scanning? && s.acceptor.x < |s.slots| {
      assert FreeShape(s.slots[s.acceptor.x], false);
    }
  }

  lemma SlotShapes(s: Server, c: Choice)
    requires AtSlot(s.acceptor) && (s.acceptor.x < |s.slots| ==> AcceptorShape(s.slots[s.acceptor.x], s.acceptor))
    ensures var r := AcceptorStep(s, c);
            AtSlot(r.acceptor) && r.acceptor.x < |r.slots| ==> AcceptorShape(r.slots[r.acceptor.x], r.acceptor)
  {
    match s.acceptor
    case SettingId(_) =>
    case SettingConnected(_) =>
    case CountingId(_) =>
    case Locking(_) =>
    case Reading(_) =>
    case Writing(_, _) =>
    case Unlocking(_) =>
    case Creating(_) =>
    case Freeing(_) =>
    case Clearing(_) =>
  }

  lemma AcceptorFrees(s: Server, c: Choice, y: nat)
    requires y < |s.slots| && FreeShape(s.slots[y], Busy(s.acceptor, y))
    requires AtSlot(s.acceptor) && s.acceptor.x == y ==> AcceptorShape(s.slots[y], s.acceptor)
    requires Taking(s.acceptor) && s.acceptor.x == y ==> s.slots[y].sd != -1
    ensures var r := AcceptorStep(s, c);
            |r.slots| == |s.slots| && FreeShape(r.slots[y], Busy(r.acceptor, y))
  {
    match s.acceptor
    case Waiting =>
    case Testing(_) =>
    case Scanning(_, _) =>
    case SettingId(_) =>
    case SettingConnected(_) =>
    case CountingId(_) =>
    case Locking(_) =>
    case Reading(_) =>
    case Writing(_, _) =>
    case Unlocking(_) =>
    case Creating(_) =>
    case Freeing(_) =>
    case Clearing(_) =>
    case LockingBack =>
    case ReadingBack =>
    case WritingBack(_) =>
    case UnlockingBack =>
    case Stopped =>
  }

  lemma ShapedByAcceptor(s: Server, c: Choice)
    requires Fine(s) && Shaped(s)
    ensures Shaped(AcceptorStep(s, c))
  {
    var r := AcceptorStep(s, c);
    AcceptorSpawns(s, c);
    AcceptorSlots(s, c);
    AcceptorShapes(s, c);
    forall t | 0 <= t < |r.threads| && r.threads[t].slot < |r.slots| && Owns(r.threads[t].pc)
      ensures ThreadShape(r.slots[r.threads[t].slot], r.threads[t].pc) {
      if t < |s.threads| {
        assert r.threads[t] == s.threads[t];
        SlotKept(s, c, t);
      } else {
        NewShape(s, c);
      }
    }
    forall y | 0 <= y < |r.slots| ensures FreeShape(r.slots[y], Busy(r.acceptor, y)) {
      AcceptorFrees(s, c, y);
    }
  }

  lemma NewShape(s: Server, c: Choice)
    requires s.acceptor.Creating? && s.acceptor.x < |s.slots| && AcceptorShape(s.slots[s.acceptor.x], s.acceptor)
    ensures AcceptorStep(s, c).slots == s.slots && ThreadShape(s.slots[s.acceptor.x], Opening)
  {}

  /** What a client's step makes of its own slot. */
  lemma ClientShapes(s: Server, t: nat, c: Choice)
    requires t < |s.threads| && s.threads[t].slot < |s.slots| && Owns(s.threads[t].pc)
    requires ThreadShape(s.slots[s.threads[t].slot], s.threads[t].pc) && s.slots[s.threads[t].slot].sd != -1
    ensures var r := ClientStep(s, t, c);
            && t < |r.threads| && |r.slots| == |s.slots|
            && (Owns(r.threads[t].pc) ==> ThreadShape(r.slots[s.threads[t].slot], r.threads[t].pc))
            && FreeShape(r.slots[s.threads[t].slot], false)
  {
    if Leaves(s.threads[t].pc) {
      LeaveShapes(s, t);
    } else {
      ServeShapes(s, t, c);
    }
  }

  lemma LeaveShapes(s: Server, t: nat)
    requires t < |s.threads| && s.threads[t].slot < |s.slots| && Leaves(s.threads[t].pc) && Owns(s.threads[t].pc)
    requires ThreadShape(s.slots[s.threads[t].slot], s.threads[t].pc) && s.slots[s.threads[t].slot].sd != -1
    ensures var r := LeaveStep(s, t);
            && t < |r.threads| && |r.slots| == |s.slots|
            && (Owns(r.threads[t].pc) ==> ThreadShape(r.slots[s.threads[t].slot], r.threads[t].pc))
            && FreeShape(r.slots[s.threads[t].slot], false)
  {}

  lemma ServeShapes(s: Server, t: nat, c: Choice)
    requires t < |s.threads| && s.threads[t].slot < |s.slots| && !Leaves(s.threads[t].pc)
    requires ThreadShape(s.slots[s.threads[t].slot], s.threads[t].pc) && s.slots[s.threads[t].slot].sd != -1
    ensures var r := ServeStep(s, t, c);
            && t < |r.threads| && |r.slots| == |s.slots|
            && ThreadShape(r.slots[s.threads[t].slot], r.threads[t].pc) && FreeShape(r.slots[s.threads[t].slot], false)
  {
    ServeMoves(s, t, c);
  }

  lemma ShapedByClient(s: Server, t: nat, c: Choice)
    requires Fine(s) && Shaped(s) && t < |s.threads|
    ensures Shaped(ClientStep(s, t, c))
  {
    var r := ClientStep(s, t, c);
    ClientTouches(s, t, c);
    if Owns(s.threads[t].pc) {
      ClientShapes(s, t, c);
    }
    forall u | 0 <= u < |r.threads| && r.threads[u].slot < |r.slots| && Owns(r.threads[u].pc)
      ensures ThreadShape(r.slots[r.threads[u].slot], r.threads[u].pc) {
      if u != t {
        assert r.threads[u] == s.threads[u];
        OtherSlot(s, t, u, c);
      }
    }
    AcceptorsSlot(s, t, c);
    forall y | 0 <= y < |r.slots| ensures FreeShape(r.slots[y], Busy(r.acceptor, y)) {
      assert FreeShape(s.slots[y], Busy(s.acceptor, y));
    }
  }

  /** Two clients that own slots own different ones; a client that has given its slot back writes to none. */
  lemma OtherSlot(s: Server, t: nat, u: nat, c: Choice)
    requires Fine(s) && t < |s.threads| && u < |s.threads| && u != t && Owns(s.threads[u].pc)
    ensures var r := ClientStep(s, t, c);
            |r.slots| == |s.slots| && r.slots[s.threads[u].slot] == s.slots[s.threads[u].slot]
  {
    ClientTouches(s, t, c);
    assert ThreadsOwn(s.slots, s.threads);
  }

  lemma AcceptorsSlot(s: Server, t: nat, c: Choice)
    requires Fine(s) && Shaped(s) && t < |s.threads|
    ensures var r := ClientStep(s, t, c);
            AtSlot(r.acceptor) && r.acceptor.x < |r.slots| ==> AcceptorShape(r.slots[r.acceptor.x], r.acceptor)
  {
    ClientTouches(s, t, c);
    assert ThreadsOwn(s.slots, s.threads);
  }

  lemma {:induction false} RunShaped(s: Server, moves: seq<Move>)
    requires Fine(s) && Shaped(s)
    ensures Shaped(RunOf(s, moves))
    decreases |moves|
  {
    if moves != [] {
      var m := moves[0];
      StepKeeps(s, m);
      match m.who {
        case Acceptor => ShapedByAcceptor(s, m.choice);
        case Client(t) =>
          if t < |s.threads| {
            ShapedByClient(s, t, m.choice);
          }
      }
      RunShaped(Step(s, m), moves[1..]);
    }
  }

  lemma AlwaysShaped(moves: seq<Move>) returns (r: Server)
    ensures r == RunOf(Initial, moves) && Fine(r) && Shaped(r)
  {
    InitialFine();
    RunShaped(Initial, moves);
    r := Interleaved(moves);
  }

  /** In every interleaving a client that is served is connected, with both streams open on its own socket. */
  lemma ServedEquipped(moves: seq<Move>, t: nat)
    requires t < |RunOf(Initial, moves).threads| && RunOf(Initial, moves).threads[t].pc.Serving?
    ensures var r := RunOf(Initial, moves);
            var x := r.threads[t].slot;
            && x < |r.slots| && r.slots[x].connected && r.slots[x].input && r.slots[x].output
            && r.slots[x].streamFd == r.slots[x].sd && r.inputOf == Some(t) && r.outputOf == Some(t)
  {
    var r := AlwaysShaped(moves);
    assert ThreadShape(r.slots[r.threads[t].slot], r.threads[t].pc);
  }

  /** No client leaves anything behind: in every interleaving a slot without a socket, unless the acceptor is just giving
      it back, is marked unconnected and has no open stream. */
  lemma FreeSlotsEmpty(moves: seq<Move>, y: nat)
    requires var r := RunOf(Initial, moves);
             y < |r.slots| && r.slots[y].sd == -1 && !(r.acceptor.Clearing? && r.acceptor.x == y)
    ensures var v := RunOf(Initial, moves).slots[y];
            !v.connected && !v.input && !v.output && v.streamFd == -1
  {
    var r := AlwaysShaped(moves);
    assert FreeShape(r.slots[y], Busy(r.acceptor, y));
  }

  /** A served client whose input works is not sent away unless the daemon is to end. */
  lemma ServedStays(moves: seq<Move>, t: nat, c: Choice)
    requires t < |RunOf(Initial, moves).threads| && RunOf(Initial, moves).threads[t].pc.Serving?
    requires !RunOf(Initial, moves).terminated && !c.go
    ensures ClientStep(RunOf(Initial, moves), t, c).threads[t].pc == if c.other then LockingStop else Serving
  {
    ServedEquipped(moves, t);
  }
}
