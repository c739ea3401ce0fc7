/** What holds of the daemon in every interleaving. */
module DaemonProofs {
  import opened Model
  import opened Daemon

  // ----- Regions of the code -----

  /** The client has not yet given its slot back. */
  predicate Owns(pc: ClientPc) {
    !pc.LockingCount? && !pc.ReadingCount? && !pc.WritingCount? && !pc.UnlockingCount? && !pc.Done?
  }

  /** The slot is given back, the counter not yet decremented. */
  predicate Owes(pc: ClientPc) {
    pc.LockingCount? || pc.ReadingCount? || pc.WritingCount?
  }

  /** Between acquiring and releasing configuration mode. */
  predicate InMode(pc: ClientPc) {
    || pc.UnlockingMode? || pc.SettingOutput? || pc.SettingInput? || pc.Serving? || pc.LockingStop? || pc.SettingStop?
    || pc.UnlockingStop? || pc.ResettingInput? || pc.ResettingOutput? || pc.LockingRelease? || pc.Releasing?
  }

  predicate HasInput(pc: ClientPc) {
    pc.Serving? || pc.LockingStop? || pc.SettingStop? || pc.UnlockingStop? || pc.ResettingInput?
  }

  predicate HasOutput(pc: ClientPc) {
    HasInput(pc) || pc.SettingInput? || pc.ResettingOutput?
  }

  predicate Critical(pc: ClientPc) {
    || pc.TestingMode? || pc.SettingMode? || pc.UnlockingBusy? || pc.UnlockingMode? || pc.SettingStop? || pc.UnlockingStop?
    || pc.Releasing? || pc.UnlockingRelease? || pc.ReadingCount? || pc.WritingCount? || pc.UnlockingCount?
  }

  predicate AcceptorCritical(pc: AcceptorPc) {
    pc.Reading? || pc.Writing? || pc.Unlocking? || pc.ReadingBack? || pc.WritingBack? || pc.UnlockingBack?
  }

  /** The acceptor has taken its slot and not given it to a thread or back. */
  predicate Taking(pc: AcceptorPc) {
    pc.SettingId? || pc.SettingConnected? || pc.CountingId? || pc.Locking? || pc.Reading? || pc.Writing? || pc.Unlocking?
    || pc.Creating? || pc.Freeing?
  }

  /** How far the counter is off on the acceptor's account. */
  function Correction(pc: AcceptorPc): int {
    if pc.SettingId? || pc.SettingConnected? || pc.CountingId? || pc.Locking? || pc.Reading? || pc.Writing? then -1
    else if pc.Clearing? || pc.LockingBack? || pc.ReadingBack? || pc.WritingBack? then 1
    else 0
  }

  // ----- Counting -----

  function Occupied(slots: seq<Slot>): nat {
    if slots == [] then 0 else Occupied(slots[..|slots| - 1]) + if slots[|slots| - 1].sd != -1 then 1 else 0
  }

  function Owing(threads: seq<Thread>): nat {
    if threads == [] then 0 else Owing(threads[..|threads| - 1]) + if Owes(threads[|threads| - 1].pc) then 1 else 0
  }

  function One(b: bool): int {
    if b then 1 else 0
  }

  lemma {:induction false} OccupiedPut(slots: seq<Slot>, x: nat, v: Slot)
    requires x < |slots|
    ensures Occupied(slots[x := v]) == Occupied(slots) - One(slots[x].sd != -1) + One(v.sd != -1)
  {
    var n := |slots| - 1;
    if x < n {
      OccupiedPut(slots[..n], x, v);
      assert slots[x := v][..n] == slots[..n][x := v];
    } else {
      assert slots[x := v][..n] == slots[..n];
    }
  }

  lemma {:induction false} OwingPut(threads: seq<Thread>, t: nat, v: Thread)
    requires t < |threads|
    ensures Owing(threads[t := v]) == Owing(threads) - One(Owes(threads[t].pc)) + One(Owes(v.pc))
  {
    var n := |threads| - 1;
    if t < n {
      OwingPut(threads[..n], t, v);
      assert threads[t := v][..n] == threads[..n][t := v];
    } else {
      assert threads[t := v][..n] == threads[..n];
    }
  }

  lemma OwingAppend(threads: seq<Thread>, v: Thread)
    ensures Owing(threads + [v]) == Owing(threads) + One(Owes(v.pc))
  {
    assert (threads + [v])[..|threads|] == threads;
  }

  lemma {:induction false} SomeFree(slots: seq<Slot>) returns (y: nat)
    requires Occupied(slots) < |slots|
    ensures y < |slots| && slots[y].sd == -1
  {
    var n := |slots| - 1;
    if slots[n].sd == -1 {
      y := n;
    } else {
      y := SomeFree(slots[..n]);
    }
  }

  // ----- Invariants -----

  ghost predicate LockOk(lock: Option<Who>, acceptor: AcceptorPc, threads: seq<Thread>) {
    && (lock == Some(Acceptor) <==> AcceptorCritical(acceptor))
    && (forall t :: 0 <= t < |threads| ==> (lock == Some(Client(t)) <==> Critical(threads[t].pc)))
    && (lock.Some? && lock.value.Client? ==> lock.value.t < |threads|)
  }

  ghost predicate ThreadsOwn(slots: seq<Slot>, threads: seq<Thread>) {
    && |slots| == MAX_CLIENTS
    && (forall t :: 0 <= t < |threads| ==> threads[t].slot < MAX_CLIENTS)
    && (forall t :: 0 <= t < |threads| && Owns(threads[t].pc) ==> slots[threads[t].slot].sd != -1)
    && (forall t, u :: 0 <= t < u < |threads| && Owns(threads[t].pc) && Owns(threads[u].pc) ==> threads[t].slot != threads[u].slot)
  }

  ghost predicate AcceptorOwns(slots: seq<Slot>, threads: seq<Thread>, x: nat) {
    && x < |slots| && slots[x].sd != -1
    && forall t :: 0 <= t < |threads| && Owns(threads[t].pc) ==> threads[t].slot != x
  }

  /** Each taken slot has one owner at most, and owned slots are occupied. */
  ghost predicate OwnerOk(slots: seq<Slot>, threads: seq<Thread>, acceptor: AcceptorPc) {
    ThreadsOwn(slots, threads) && (Taking(acceptor) ==> AcceptorOwns(slots, threads, acceptor.x))
  }

  predicate SumOk(s: Server) {
    s.cnt == Occupied(s.slots) + Owing(s.threads) + Correction(s.acceptor)
  }

  predicate AcceptorRead(s: Server) {
    s.acceptor.Writing? || s.acceptor.WritingBack? ==> s.acceptor.tmp == s.cnt
  }

  ghost predicate ClientsRead(cnt: int, threads: seq<Thread>) {
    forall t :: 0 <= t < |threads| && threads[t].pc.WritingCount? ==> threads[t].pc.tmp == cnt
  }

  /** The counter is right up to the steps under way, and what was read under the lock is still true. */
  ghost predicate CountOk(s: Server) {
    SumOk(s) && AcceptorRead(s) && ClientsRead(s.cnt, s.threads)
  }

  /** A scan always has a free slot ahead of it. */
  ghost predicate ScanOk(slots: seq<Slot>, acceptor: AcceptorPc) {
    acceptor.Scanning? ==> exists y :: acceptor.x <= y < |slots| && slots[y].sd == -1
  }

  ghost predicate ModeOk(active: bool, threads: seq<Thread>) {
    && (active ==> exists t :: 0 <= t < |threads| && InMode(threads[t].pc))
    && (forall t :: 0 <= t < |threads| && InMode(threads[t].pc) ==> active)
    && (forall t, u :: 0 <= t < u < |threads| && InMode(threads[t].pc) ==> !InMode(threads[u].pc))
  }

  ghost predicate StreamsOk(inputOf: Option<nat>, outputOf: Option<nat>, threads: seq<Thread>) {
    && (forall t :: 0 <= t < |threads| ==> (inputOf == Some(t) <==> HasInput(threads[t].pc)))
    && (forall t :: 0 <= t < |threads| ==> (outputOf == Some(t) <==> HasOutput(threads[t].pc)))
    && (inputOf.Some? ==> inputOf.value < |threads|) && (outputOf.Some? ==> outputOf.value < |threads|)
  }

  /** A thread about to set the flag has found it clear, and still holds the lock. */
  ghost predicate TestOk(active: bool, threads: seq<Thread>) {
    forall t :: 0 <= t < |threads| && threads[t].pc.SettingMode? ==> !active
  }

  ghost predicate Fine(s: Server) {
    && LockOk(s.lock, s.acceptor, s.threads) && OwnerOk(s.slots, s.threads, s.acceptor) && CountOk(s)
    && ScanOk(s.slots, s.acceptor) && ModeOk(s.active, s.threads) && TestOk(s.active, s.threads)
    && StreamsOk(s.inputOf, s.outputOf, s.threads)
  }

  // ----- What a step of the acceptor does -----

  /** How the acceptor's step moves the lock. */
  predicate AcceptorLocks(s: Server, r: Server) {
    && r.lock == (if AcceptorCritical(r.acceptor) then Some(Acceptor) else if AcceptorCritical(s.acceptor) then None else s.lock)
    && (AcceptorCritical(r.acceptor) && !AcceptorCritical(s.acceptor) ==> s.lock.None?)
  }

  lemma AcceptorFlags(s: Server, c: Choice)
    ensures var r := AcceptorStep(s, c);
            r.active == s.active && r.inputOf == s.inputOf && r.outputOf == s.outputOf
  {}

  lemma AcceptorLocking(s: Server, c: Choice)
    requires AcceptorCritical(s.acceptor) ==> s.lock == Some(Acceptor)
    ensures AcceptorLocks(s, AcceptorStep(s, c))
  {
    if Touching(s.acceptor) {
      match s.acceptor
      case Locking(_) =>
      case LockingBack =>
      case Unlocking(_) =>
      case UnlockingBack =>
    } else {
      AcceptorLeavesLock(s, c);
    }
  }

  predicate Touching(a: AcceptorPc) {
    a.Locking? || a.LockingBack? || a.Unlocking? || a.UnlockingBack?
  }

  lemma AcceptorLeavesLock(s: Server, c: Choice)
    requires !Touching(s.acceptor)
    ensures var r := AcceptorStep(s, c);
            r.lock == s.lock && AcceptorCritical(r.acceptor) == AcceptorCritical(s.acceptor)
  {
    if Quiet(s.acceptor) {
      LeavesLockQuiet(s, c);
    } else {
      LeavesLockWriting(s, c);
    }
  }

  lemma LeavesLockQuiet(s: Server, c: Choice)
    requires !Touching(s.acceptor) && Quiet(s.acceptor)
    ensures var r := AcceptorStep(s, c);
            r.lock == s.lock && AcceptorCritical(r.acceptor) == AcceptorCritical(s.acceptor)
  {}

  lemma LeavesLockWriting(s: Server, c: Choice)
    requires !Quiet(s.acceptor)
    ensures var r := AcceptorStep(s, c);
            r.lock == s.lock && AcceptorCritical(r.acceptor) == AcceptorCritical(s.acceptor)
  {}

  lemma AcceptorSpawns(s: Server, c: Choice)
    ensures var r := AcceptorStep(s, c);
            r.threads == if s.acceptor.Creating? && c.go then s.threads + [Thread(s.acceptor.x, Opening)] else s.threads
  {}

  /** Steps that touch no slot. */
  predicate Quiet(a: AcceptorPc) {
    !a.Scanning? && !a.SettingId? && !a.SettingConnected? && !a.Creating? && !a.Freeing? && !a.Clearing?
  }

  lemma AcceptorQuiet(s: Server, c: Choice)
    requires Quiet(s.acceptor)
    ensures var r := AcceptorStep(s, c);
            r.slots == s.slots && (Taking(r.acceptor) ==> Taking(s.acceptor) && r.acceptor.x == s.acceptor.x)
  {}

  lemma LockByAcceptor(s: Server, r: Server)
    requires LockOk(s.lock, s.acceptor, s.threads) && AcceptorLocks(s, r)
    requires r.threads == s.threads || exists x :: r.threads == s.threads + [Thread(x, Opening)]
    ensures LockOk(r.lock, r.acceptor, r.threads)
  {
    assert forall t :: 0 <= t < |s.threads| ==> r.threads[t] == s.threads[t];
  }

  lemma ModeByAcceptor(s: Server, r: Server)
    requires ModeOk(s.active, s.threads) && TestOk(s.active, s.threads) && StreamsOk(s.inputOf, s.outputOf, s.threads)
    requires r.active == s.active && r.inputOf == s.inputOf && r.outputOf == s.outputOf
    requires r.threads == s.threads || exists x :: r.threads == s.threads + [Thread(x, Opening)]
    ensures ModeOk(r.active, r.threads) && TestOk(r.active, r.threads) && StreamsOk(r.inputOf, r.outputOf, r.threads)
  {
    assert forall t :: 0 <= t < |s.threads| ==> r.threads[t] == s.threads[t];
    if s.active {
      var t :| 0 <= t < |s.threads| && InMode(s.threads[t].pc);
      assert InMode(r.threads[t].pc);
    }
  }

  // ----- Owners -----

  lemma OwnSamePlace(slots: seq<Slot>, threads: seq<Thread>, a: AcceptorPc, b: AcceptorPc)
    requires OwnerOk(slots, threads, a) && (Taking(b) ==> Taking(a) && b.x == a.x)
    ensures OwnerOk(slots, threads, b)
  {}

  lemma OwnSameSd(slots: seq<Slot>, threads: seq<Thread>, a: AcceptorPc, x: nat, v: Slot)
    requires OwnerOk(slots, threads, a) && x < |slots| && v.sd == slots[x].sd
    ensures OwnerOk(slots[x := v], threads, a)
  {}

  /** The acceptor takes a free slot. */
  lemma OwnTaken(slots: seq<Slot>, threads: seq<Thread>, a: AcceptorPc, x: nat, v: Slot)
    requires OwnerOk(slots, threads, a) && x < |slots| && slots[x].sd == -1 && v.sd != -1
    ensures OwnerOk(slots[x := v], threads, SettingId(x))
  {}

  /** The acceptor frees the slot it owns. */
  lemma OwnFreed(slots: seq<Slot>, threads: seq<Thread>, a: AcceptorPc, v: Slot, b: AcceptorPc)
    requires OwnerOk(slots, threads, a) && Taking(a) && !Taking(b)
    ensures OwnerOk(slots[a.x := v], threads, b)
  {}

  /** The acceptor hands its slot to a new thread. */
  lemma OwnGiven(slots: seq<Slot>, threads: seq<Thread>, a: AcceptorPc)
    requires OwnerOk(slots, threads, a) && Taking(a)
    ensures OwnerOk(slots, threads + [Thread(a.x, Opening)], Waiting)
  {}

  lemma OwnByAcceptor(s: Server, c: Choice)
    requires OwnerOk(s.slots, s.threads, s.acceptor)
    ensures var r := AcceptorStep(s, c);
            OwnerOk(r.slots, r.threads, r.acceptor)
  {
    if Quiet(s.acceptor) {
      AcceptorQuiet(s, c);
      AcceptorSpawns(s, c);
      OwnSamePlace(s.slots, s.threads, s.acceptor, AcceptorStep(s, c).acceptor);
    } else {
      OwnByWrite(s, c);
    }
  }

  lemma OwnByWrite(s: Server, c: Choice)
    requires OwnerOk(s.slots, s.threads, s.acceptor) && !Quiet(s.acceptor)
    ensures var r := AcceptorStep(s, c);
            OwnerOk(r.slots, r.threads, r.acceptor)
  {
    var a := s.acceptor;
    match a
    case Scanning(sd, x) =>
      if x < |s.slots| && s.slots[x].sd == -1 {
        OwnTaken(s.slots, s.threads, a, x, s.slots[x].(sd := sd));
      }
    case SettingId(x) => OwnSameSd(s.slots, s.threads, a, x, s.slots[x].(id := s.nextId));
    case SettingConnected(x) => OwnSameSd(s.slots, s.threads, a, x, s.slots[x].(connected := true));
    case Creating(x) =>
      if c.go {
        OwnGiven(s.slots, s.threads, a);
      }
    case Freeing(x) => OwnFreed(s.slots, s.threads, a, s.slots[x].(sd := -1), Clearing(x));
    case Clearing(x) =>
      if x < |s.slots| {
        OwnSameSd(s.slots, s.threads, a, x, s.slots[x].(connected := false));
      }
  }

  // ----- Counting -----

  lemma QuietCount(s: Server, c: Choice)
    requires Quiet(s.acceptor) && AcceptorRead(s)
    ensures var r := AcceptorStep(s, c);
            && r.cnt - Correction(r.acceptor) == s.cnt - Correction(s.acceptor) && AcceptorRead(r)
            && (r.cnt != s.cnt ==> AcceptorCritical(s.acceptor))
  {}

  /** What a writing step does to the slot and to the correction. */
  lemma WriteEffect(s: Server, c: Choice)
    requires !Quiet(s.acceptor) && OwnerOk(s.slots, s.threads, s.acceptor)
    ensures var r := AcceptorStep(s, c);
            && r.cnt == s.cnt && AcceptorRead(r) && |r.slots| == |s.slots|
            && (s.acceptor.x >= |s.slots| ==> r.slots == s.slots && Correction(r.acceptor) == Correction(s.acceptor))
            && (s.acceptor.x < |s.slots| ==>
                  && r.slots == s.slots[s.acceptor.x := r.slots[s.acceptor.x]]
                  && One(r.slots[s.acceptor.x].sd != -1) + Correction(r.acceptor)
                  == One(s.slots[s.acceptor.x].sd != -1) + Correction(s.acceptor))
  {}

  lemma WriteCount(s: Server, c: Choice)
    requires !Quiet(s.acceptor) && OwnerOk(s.slots, s.threads, s.acceptor)
    ensures var r := AcceptorStep(s, c);
            && r.cnt == s.cnt && AcceptorRead(r)
            && Occupied(r.slots) + Correction(r.acceptor) == Occupied(s.slots) + Correction(s.acceptor)
  {
    WriteEffect(s, c);
    if s.acceptor.x < |s.slots| {
      OccupiedPut(s.slots, s.acceptor.x, AcceptorStep(s, c).slots[s.acceptor.x]);
    }
  }

  lemma CountByAcceptor(s: Server, c: Choice)
    requires LockOk(s.lock, s.acceptor, s.threads) && OwnerOk(s.slots, s.threads, s.acceptor) && CountOk(s)
    ensures CountOk(AcceptorStep(s, c))
  {
    if Quiet(s.acceptor) {
      CountQuiet(s, c);
    } else {
      CountWrite(s, c);
    }
  }

  lemma CountQuiet(s: Server, c: Choice)
    requires LockOk(s.lock, s.acceptor, s.threads) && CountOk(s) && Quiet(s.acceptor)
    ensures CountOk(AcceptorStep(s, c))
  {
    AcceptorSpawns(s, c);
    AcceptorQuiet(s, c);
    QuietCount(s, c);
  }

  lemma CountWrite(s: Server, c: Choice)
    requires OwnerOk(s.slots, s.threads, s.acceptor) && CountOk(s) && !Quiet(s.acceptor)
    ensures CountOk(AcceptorStep(s, c))
  {
    var r := AcceptorStep(s, c);
    WriteCount(s, c);
    AcceptorSpawns(s, c);
    CountSpawn(s, r);
  }

  /** A new thread owes nothing. */
  lemma CountSpawn(s: Server, r: Server)
    requires CountOk(s) && r.cnt == s.cnt && AcceptorRead(r)
    requires Occupied(r.slots) + Correction(r.acceptor) == Occupied(s.slots) + Correction(s.acceptor)
    requires r.threads == s.threads || exists x :: r.threads == s.threads + [Thread(x, Opening)]
    ensures CountOk(r)
  {
    if r.threads != s.threads {
      var x :| r.threads == s.threads + [Thread(x, Opening)];
      OwingAppend(s.threads, Thread(x, Opening));
    }
  }

  lemma ScanByAcceptor(s: Server, c: Choice)
    requires OwnerOk(s.slots, s.threads, s.acceptor) && CountOk(s) && ScanOk(s.slots, s.acceptor)
    ensures var r := AcceptorStep(s, c);
            ScanOk(r.slots, r.acceptor)
  {
    if s.acceptor.Testing? && s.cnt < MAX_CLIENTS {
      var y := SomeFree(s.slots);
    }
  }

  // ----- What a step of a client does -----

  /** The step of thread t changes its own program counter and slot, and uses the lock as it should. */
  ghost predicate ClientMoves(s: Server, t: nat, r: Server)
    requires t < |s.threads| && s.threads[t].slot < |s.slots|
  {
    var x := s.threads[t].slot;
    && |r.threads| == |s.threads| && r.threads == s.threads[t := Thread(x, r.threads[t].pc)]
    && |r.slots| == |s.slots| && r.slots == s.slots[x := r.slots[x]]
    && r.acceptor == s.acceptor
  }

  lemma ServeMovesOutside(s: Server, t: nat, c: Choice)
    requires t < |s.threads| && s.threads[t].slot < |s.slots| && !Leaves(s.threads[t].pc) && !InMode(s.threads[t].pc)
    ensures ClientMoves(s, t, ServeStep(s, t, c))
    ensures ServeStep(s, t, c).slots[s.threads[t].slot].sd == s.slots[s.threads[t].slot].sd
    ensures ServeStep(s, t, c).cnt == s.cnt && Owns(ServeStep(s, t, c).threads[t].pc)
  {}

  lemma ServeMovesInside(s: Server, t: nat, c: Choice)
    requires t < |s.threads| && s.threads[t].slot < |s.slots| && !Leaves(s.threads[t].pc) && InMode(s.threads[t].pc)
    ensures ClientMoves(s, t, ServeStep(s, t, c))
    ensures ServeStep(s, t, c).slots[s.threads[t].slot].sd == s.slots[s.threads[t].slot].sd
    ensures ServeStep(s, t, c).cnt == s.cnt && Owns(ServeStep(s, t, c).threads[t].pc)
  {}

  lemma ServeMoves(s: Server, t: nat, c: Choice)
    requires t < |s.threads| && s.threads[t].slot < |s.slots| && !Leaves(s.threads[t].pc)
    ensures ClientMoves(s, t, ServeStep(s, t, c))
    ensures ServeStep(s, t, c).slots[s.threads[t].slot].sd == s.slots[s.threads[t].slot].sd
    ensures ServeStep(s, t, c).cnt == s.cnt && Owns(ServeStep(s, t, c).threads[t].pc)
  {
    if InMode(s.threads[t].pc) {
      ServeMovesInside(s, t, c);
    } else {
      ServeMovesOutside(s, t, c);
    }
  }

  lemma LeaveMoves(s: Server, t: nat)
    requires t < |s.threads| && s.threads[t].slot < |s.slots| && Leaves(s.threads[t].pc)
    ensures ClientMoves(s, t, LeaveStep(s, t))
    ensures LeaveStep(s, t).active == s.active && LeaveStep(s, t).inputOf == s.inputOf && LeaveStep(s, t).outputOf == s.outputOf
    ensures Leaves(LeaveStep(s, t).threads[t].pc)
    ensures !Owns(s.threads[t].pc) ==> LeaveStep(s, t).slots == s.slots && !Owns(LeaveStep(s, t).threads[t].pc)
  {}

  // ----- Clients: lock -----

  /** How the step of thread t, from pc p to pc q, moves the lock. */
  predicate ClientLocks(lock: Option<Who>, t: nat, p: ClientPc, q: ClientPc, lock': Option<Who>) {
    && lock' == (if Critical(q) then Some(Client(t)) else if Critical(p) then None else lock)
    && (Critical(q) && !Critical(p) ==> lock.None?)
  }

  lemma ServeLockingOutside(s: Server, t: nat, c: Choice)
    requires t < |s.threads| && s.threads[t].slot < |s.slots| && !Leaves(s.threads[t].pc) && !InMode(s.threads[t].pc)
    requires Critical(s.threads[t].pc) ==> s.lock == Some(Client(t))
    ensures var r := ServeStep(s, t, c);
            |r.threads| == |s.threads| && ClientLocks(s.lock, t, s.threads[t].pc, r.threads[t].pc, r.lock)
  {}

  lemma ServeLockingInside(s: Server, t: nat, c: Choice)
    requires t < |s.threads| && s.threads[t].slot < |s.slots| && !Leaves(s.threads[t].pc) && InMode(s.threads[t].pc)
    requires Critical(s.threads[t].pc) ==> s.lock == Some(Client(t))
    ensures var r := ServeStep(s, t, c);
            |r.threads| == |s.threads| && ClientLocks(s.lock, t, s.threads[t].pc, r.threads[t].pc, r.lock)
  {}

  lemma ServeLocking(s: Server, t: nat, c: Choice)
    requires t < |s.threads| && s.threads[t].slot < |s.slots| && !Leaves(s.threads[t].pc)
    requires Critical(s.threads[t].pc) ==> s.lock == Some(Client(t))
    ensures var r := ServeStep(s, t, c);
            |r.threads| == |s.threads| && ClientLocks(s.lock, t, s.threads[t].pc, r.threads[t].pc, r.lock)
  {
    if InMode(s.threads[t].pc) {
      ServeLockingInside(s, t, c);
    } else {
      ServeLockingOutside(s, t, c);
    }
  }

  lemma LeaveLocking(s: Server, t: nat)
    requires t < |s.threads| && s.threads[t].slot < |s.slots| && Leaves(s.threads[t].pc)
    requires Critical(s.threads[t].pc) ==> s.lock == Some(Client(t))
    ensures var r := LeaveStep(s, t);
            |r.threads| == |s.threads| && ClientLocks(s.lock, t, s.threads[t].pc, r.threads[t].pc, r.lock)
  {}

  lemma LockByClient(s: Server, t: nat, r: Server)
    requires LockOk(s.lock, s.acceptor, s.threads) && t < |s.threads| && s.threads[t].slot < |s.slots|
    requires ClientMoves(s, t, r) && ClientLocks(s.lock, t, s.threads[t].pc, r.threads[t].pc, r.lock)
    ensures LockOk(r.lock, r.acceptor, r.threads)
  {}

  // ----- Clients: owners and counting -----

  /** The slot keeps its descriptor, or it is given back for good. */
  predicate ClientFrees(v: Slot, v': Slot, p: ClientPc, q: ClientPc) {
    && (Owns(q) ==> Owns(p) && v'.sd == v.sd)
    && (!Owns(p) ==> v' == v)
    && (Owns(p) && !Owns(q) ==> v'.sd == -1 && Owes(q) && !Owes(p))
  }

  lemma OwnByClient(s: Server, t: nat, r: Server)
    requires OwnerOk(s.slots, s.threads, s.acceptor) && t < |s.threads| && ClientMoves(s, t, r)
    requires ClientFrees(s.slots[s.threads[t].slot], r.slots[s.threads[t].slot], s.threads[t].pc, r.threads[t].pc)
    ensures OwnerOk(r.slots, r.threads, r.acceptor)
  {}

  lemma ServeFrees(s: Server, t: nat, c: Choice)
    requires t < |s.threads| && s.threads[t].slot < |s.slots| && !Leaves(s.threads[t].pc)
    ensures var r := ServeStep(s, t, c);
            && ClientMoves(s, t, r)
            && ClientFrees(s.slots[s.threads[t].slot], r.slots[s.threads[t].slot], s.threads[t].pc, r.threads[t].pc)
  {
    ServeMoves(s, t, c);
  }

  lemma LeaveFrees(s: Server, t: nat)
    requires t < |s.threads| && s.threads[t].slot < |s.slots| && Leaves(s.threads[t].pc)
    ensures var r := LeaveStep(s, t);
            && ClientMoves(s, t, r)
            && ClientFrees(s.slots[s.threads[t].slot], r.slots[s.threads[t].slot], s.threads[t].pc, r.threads[t].pc)
  {
    LeaveMoves(s, t);
  }

  /** The counter without the part of thread t. */
  function Share(s: Server, t: nat): int
    requires t < |s.threads| && s.threads[t].slot < |s.slots|
  {
    s.cnt - One(s.slots[s.threads[t].slot].sd != -1) - One(Owes(s.threads[t].pc))
  }

  /** Freeing a slot and owing for it, or paying, leaves the sum right. */
  lemma SumByClient(s: Server, t: nat, r: Server)
    requires SumOk(s) && t < |s.threads| && s.threads[t].slot < |s.slots| && ClientMoves(s, t, r)
    requires Share(r, t) == Share(s, t)
    ensures SumOk(r)
  {
    OccupiedPut(s.slots, s.threads[t].slot, r.slots[s.threads[t].slot]);
    OwingPut(s.threads, t, r.threads[t]);
  }

  lemma LeavePays(s: Server, t: nat)
    requires t < |s.threads| && s.threads[t].slot < |s.slots| && Leaves(s.threads[t].pc)
    requires s.threads[t].pc.WritingCount? ==> s.threads[t].pc.tmp == s.cnt
    requires Owns(s.threads[t].pc) ==> s.slots[s.threads[t].slot].sd != -1
    ensures var r := LeaveStep(s, t);
            var x := s.threads[t].slot;
            && |r.threads| == |s.threads| && |r.slots| == |s.slots|
            && r.threads[t].slot == x && Share(r, t) == Share(s, t)
            && (r.threads[t].pc.WritingCount? ==> r.threads[t].pc.tmp == r.cnt)
            && (r.cnt != s.cnt ==> Critical(s.threads[t].pc))
  {}

  lemma CountByLeaving(s: Server, t: nat)
    requires LockOk(s.lock, s.acceptor, s.threads) && OwnerOk(s.slots, s.threads, s.acceptor) && CountOk(s)
    requires t < |s.threads| && s.threads[t].slot < |s.slots| && Leaves(s.threads[t].pc)
    ensures CountOk(LeaveStep(s, t))
  {
    var r := LeaveStep(s, t);
    LeaveMoves(s, t);
    LeavePays(s, t);
    SumByClient(s, t, r);
  }

  lemma CountByServing(s: Server, t: nat, c: Choice)
    requires OwnerOk(s.slots, s.threads, s.acceptor) && CountOk(s)
    requires t < |s.threads| && s.threads[t].slot < |s.slots| && !Leaves(s.threads[t].pc)
    ensures CountOk(ServeStep(s, t, c))
  {
    var r := ServeStep(s, t, c);
    ServeMoves(s, t, c);
    SumByClient(s, t, r);
  }

  // ----- Clients: configuration mode and streams -----

  /** How a step from pc p to pc q changes the flag. */
  predicate ModeChanges(active: bool, p: ClientPc, q: ClientPc, active': bool) {
    || (InMode(q) == InMode(p) && active' == active && (q.SettingMode? ==> !active))
    || (p.SettingMode? && InMode(q) && active')
    || (InMode(p) && !InMode(q) && !q.SettingMode? && !active')
  }

  predicate StreamChanges(of: Option<nat>, t: nat, had: bool, has: bool, of': Option<nat>) {
    of' == if has then Some(t) else if had then None else of
  }

  lemma ServeModeOutside(s: Server, t: nat, c: Choice)
    requires t < |s.threads| && s.threads[t].slot < |s.slots| && !Leaves(s.threads[t].pc) && !InMode(s.threads[t].pc)
    requires s.threads[t].pc.SettingMode? ==> !s.active
    ensures var r := ServeStep(s, t, c);
            |r.threads| == |s.threads| && ModeChanges(s.active, s.threads[t].pc, r.threads[t].pc, r.active)
  {}

  lemma ServeModeInside(s: Server, t: nat, c: Choice)
    requires t < |s.threads| && s.threads[t].slot < |s.slots| && !Leaves(s.threads[t].pc) && InMode(s.threads[t].pc)
    requires s.threads[t].pc.SettingMode? ==> !s.active
    ensures var r := ServeStep(s, t, c);
            |r.threads| == |s.threads| && ModeChanges(s.active, s.threads[t].pc, r.threads[t].pc, r.active)
  {}

  lemma ServeMode(s: Server, t: nat, c: Choice)
    requires t < |s.threads| && s.threads[t].slot < |s.slots| && !Leaves(s.threads[t].pc)
    requires s.threads[t].pc.SettingMode? ==> !s.active
    ensures var r := ServeStep(s, t, c);
            |r.threads| == |s.threads| && ModeChanges(s.active, s.threads[t].pc, r.threads[t].pc, r.active)
  {
    if InMode(s.threads[t].pc) {
      ServeModeInside(s, t, c);
    } else {
      ServeModeOutside(s, t, c);
    }
  }

  lemma ServeStreamsOutside(s: Server, t: nat, c: Choice)
    requires t < |s.threads| && s.threads[t].slot < |s.slots| && !Leaves(s.threads[t].pc) && !InMode(s.threads[t].pc)
    requires (HasInput(s.threads[t].pc) ==> s.inputOf == Some(t)) && (HasOutput(s.threads[t].pc) ==> s.outputOf == Some(t))
    ensures var r := ServeStep(s, t, c);
            var p, q := s.threads[t].pc, r.threads[t].pc;
            && |r.threads| == |s.threads|
            && StreamChanges(s.inputOf, t, HasInput(p), HasInput(q), r.inputOf)
            && StreamChanges(s.outputOf, t, HasOutput(p), HasOutput(q), r.outputOf)
            && (HasOutput(q) && !HasOutput(p) ==> InMode(p))
  {}

  lemma ServeStreamsInside(s: Server, t: nat, c: Choice)
    requires t < |s.threads| && s.threads[t].slot < |s.slots| && !Leaves(s.threads[t].pc) && InMode(s.threads[t].pc)
    requires (HasInput(s.threads[t].pc) ==> s.inputOf == Some(t)) && (HasOutput(s.threads[t].pc) ==> s.outputOf == Some(t))
    ensures var r := ServeStep(s, t, c);
            var p, q := s.threads[t].pc, r.threads[t].pc;
            && |r.threads| == |s.threads|
            && StreamChanges(s.inputOf, t, HasInput(p), HasInput(q), r.inputOf)
            && StreamChanges(s.outputOf, t, HasOutput(p), HasOutput(q), r.outputOf)
            && (HasOutput(q) && !HasOutput(p) ==> InMode(p))
  {}

  lemma ServeStreams(s: Server, t: nat, c: Choice)
    requires t < |s.threads| && s.threads[t].slot < |s.slots| && !Leaves(s.threads[t].pc)
    requires (HasInput(s.threads[t].pc) ==> s.inputOf == Some(t)) && (HasOutput(s.threads[t].pc) ==> s.outputOf == Some(t))
    ensures var r := ServeStep(s, t, c);
            var p, q := s.threads[t].pc, r.threads[t].pc;
            && |r.threads| == |s.threads|
            && StreamChanges(s.inputOf, t, HasInput(p), HasInput(q), r.inputOf)
            && StreamChanges(s.outputOf, t, HasOutput(p), HasOutput(q), r.outputOf)
            && (HasOutput(q) && !HasOutput(p) ==> InMode(p))
  {
    if InMode(s.threads[t].pc) {
      ServeStreamsInside(s, t, c);
    } else {
      ServeStreamsOutside(s, t, c);
    }
  }

  lemma ModeByClient(s: Server, t: nat, r: Server)
    requires LockOk(s.lock, s.acceptor, s.threads) && ModeOk(s.active, s.threads) && TestOk(s.active, s.threads)
    requires t < |s.threads| && s.threads[t].slot < |s.slots| && ClientMoves(s, t, r)
    requires ModeChanges(s.active, s.threads[t].pc, r.threads[t].pc, r.active)
    ensures ModeOk(r.active, r.threads) && TestOk(r.active, r.threads)
  {
    if r.active {
      if InMode(r.threads[t].pc) {
        assert InMode(r.threads[t].pc);
      } else {
        var u :| 0 <= u < |s.threads| && InMode(s.threads[u].pc);
        assert InMode(r.threads[u].pc);
      }
    }
  }

  lemma StreamsByClient(s: Server, t: nat, r: Server)
    requires ModeOk(s.active, s.threads) && StreamsOk(s.inputOf, s.outputOf, s.threads)
    requires t < |s.threads| && s.threads[t].slot < |s.slots| && ClientMoves(s, t, r)
    requires StreamChanges(s.inputOf, t, HasInput(s.threads[t].pc), HasInput(r.threads[t].pc), r.inputOf)
    requires StreamChanges(s.outputOf, t, HasOutput(s.threads[t].pc), HasOutput(r.threads[t].pc), r.outputOf)
    requires HasOutput(r.threads[t].pc) && !HasOutput(s.threads[t].pc) ==> InMode(s.threads[t].pc)
    requires InMode(s.threads[t].pc) || HasInput(r.threads[t].pc) == HasInput(s.threads[t].pc)
    ensures StreamsOk(r.inputOf, r.outputOf, r.threads)
  {}

  // ----- Every step, every run -----

  lemma ClientKeeps(s: Server, t: nat, c: Choice)
    requires Fine(s) && t < |s.threads|
    ensures Fine(ClientStep(s, t, c))
  {
    var r := ClientStep(s, t, c);
    if Leaves(s.threads[t].pc) {
      LeaveKeeps(s, t);
    } else {
      ServeKeeps(s, t, c);
    }
  }

  lemma LeaveKeeps(s: Server, t: nat)
    requires Fine(s) && t < |s.threads| && s.threads[t].slot < |s.slots| && Leaves(s.threads[t].pc)
    ensures Fine(LeaveStep(s, t))
  {
    var r := LeaveStep(s, t);
    LeaveFrees(s, t);
    LeaveMoves(s, t);
    LeaveLocking(s, t);
    LockByClient(s, t, r);
    OwnByClient(s, t, r);
    CountByLeaving(s, t);
    LeaveModeless(s, s.threads[t].pc, r.threads[t].pc, t);
    ModeByClient(s, t, r);
    StreamsByClient(s, t, r);
    ScanByClient(s, t, r);
  }

  lemma LeaveModeless(s: Server, p: ClientPc, q: ClientPc, t: nat)
    requires Leaves(p) && Leaves(q)
    ensures ModeChanges(s.active, p, q, s.active) && !HasOutput(p) && !HasOutput(q)
    ensures StreamChanges(s.inputOf, t, HasInput(p), HasInput(q), s.inputOf)
    ensures StreamChanges(s.outputOf, t, HasOutput(p), HasOutput(q), s.outputOf)
  {}

  lemma ServeKeeps(s: Server, t: nat, c: Choice)
    requires Fine(s) && t < |s.threads| && s.threads[t].slot < |s.slots| && !Leaves(s.threads[t].pc)
    ensures Fine(ServeStep(s, t, c))
  {
    var r := ServeStep(s, t, c);
    ServeFrees(s, t, c);
    ServeLocking(s, t, c);
    LockByClient(s, t, r);
    OwnByClient(s, t, r);
    CountByServing(s, t, c);
    ServeMode(s, t, c);
    ModeByClient(s, t, r);
    ServeStreams(s, t, c);
    StreamsByClient(s, t, r);
    ScanByClient(s, t, r);
  }

  /** Clients free slots but never take one. */
  lemma ScanByClient(s: Server, t: nat, r: Server)
    requires ScanOk(s.slots, s.acceptor) && t < |s.threads| && s.threads[t].slot < |s.slots| && ClientMoves(s, t, r)
    requires ClientFrees(s.slots[s.threads[t].slot], r.slots[s.threads[t].slot], s.threads[t].pc, r.threads[t].pc)
    ensures ScanOk(r.slots, r.acceptor)
  {
    if s.acceptor.Scanning? {
      var y :| s.acceptor.x <= y < |s.slots| && s.slots[y].sd == -1;
      assert r.slots[y].sd == -1;
    }
  }

  lemma AcceptorKeeps(s: Server, c: Choice)
    requires Fine(s)
    ensures Fine(AcceptorStep(s, c))
  {
    var r := AcceptorStep(s, c);
    AcceptorFlags(s, c);
    AcceptorLocking(s, c);
    AcceptorSpawns(s, c);
    LockByAcceptor(s, r);
    ModeByAcceptor(s, r);
    OwnByAcceptor(s, c);
    CountByAcceptor(s, c);
    ScanByAcceptor(s, c);
  }

  lemma StepKeeps(s: Server, m: Move)
    requires Fine(s)
    ensures Fine(Step(s, m))
  {
    match m.who
    case Acceptor => AcceptorKeeps(s, m.choice);
    case Client(t) =>
      if t < |s.threads| {
        ClientKeeps(s, t, m.choice);
      }
  }

  lemma {:induction false} RunFine(s: Server, moves: seq<Move>)
    requires Fine(s)
    ensures Fine(RunOf(s, moves))
    decreases |moves|
  {
    if moves != [] {
      StepKeeps(s, moves[0]);
      RunFine(Step(s, moves[0]), moves[1..]);
    }
  }

  lemma {:induction false} NoneOccupied(slots: seq<Slot>)
    requires forall i :: 0 <= i < |slots| ==> slots[i].sd == -1
    ensures Occupied(slots) == 0
  {
    if slots != [] {
      NoneOccupied(slots[..|slots| - 1]);
    }
  }

  lemma InitialFine()
    ensures Fine(Initial)
  {
    NoneOccupied(Initial.slots);
  }

  // ----- Every occupied slot has an owner -----

  function Owners(threads: seq<Thread>): nat {
    if threads == [] then 0 else Owners(threads[..|threads| - 1]) + if Owns(threads[|threads| - 1].pc) then 1 else 0
  }

  predicate HeldOk(s: Server) {
    Occupied(s.slots) == Owners(s.threads) + One(Taking(s.acceptor))
  }

  lemma {:induction false} OwnersPut(threads: seq<Thread>, t: nat, v: Thread)
    requires t < |threads|
    ensures Owners(threads[t := v]) == Owners(threads) - One(Owns(threads[t].pc)) + One(Owns(v.pc))
  {
    var n := |threads| - 1;
    if t < n {
      OwnersPut(threads[..n], t, v);
      assert threads[t := v][..n] == threads[..n][t := v];
    } else {
      assert threads[t := v][..n] == threads[..n];
    }
  }

  lemma OwnersAppend(threads: seq<Thread>, v: Thread)
    ensures Owners(threads + [v]) == Owners(threads) + One(Owns(v.pc))
  {
    assert (threads + [v])[..|threads|] == threads;
  }

  lemma HeldQuiet(s: Server, c: Choice)
    requires Quiet(s.acceptor)
    ensures Taking(AcceptorStep(s, c).acceptor) == Taking(s.acceptor)
  {}

  lemma HeldWrites(s: Server, c: Choice)
    requires !Quiet(s.acceptor) && OwnerOk(s.slots, s.threads, s.acceptor) && s.acceptor.x < |s.slots|
    ensures var r := AcceptorStep(s, c);
            var x := s.acceptor.x;
            && |r.slots| == |s.slots| && r.slots == s.slots[x := r.slots[x]]
            && One(r.slots[x].sd != -1) - One(Taking(r.acceptor)) - One(s.acceptor.Creating? && c.go)
            == One(s.slots[x].sd != -1) - One(Taking(s.acceptor))
  {}

  lemma HeldByAcceptor(s: Server, c: Choice)
    requires OwnerOk(s.slots, s.threads, s.acceptor) && HeldOk(s)
    ensures HeldOk(AcceptorStep(s, c))
  {
    AcceptorSpawns(s, c);
    if s.acceptor.Creating? {
      OwnersAppend(s.threads, Thread(s.acceptor.x, Opening));
    }
    if Quiet(s.acceptor) {
      AcceptorQuiet(s, c);
      HeldQuiet(s, c);
    } else if s.acceptor.x < |s.slots| {
      HeldWrites(s, c);
      OccupiedPut(s.slots, s.acceptor.x, AcceptorStep(s, c).slots[s.acceptor.x]);
    }
  }

  lemma HeldByClient(s: Server, t: nat, r: Server)
    requires OwnerOk(s.slots, s.threads, s.acceptor) && HeldOk(s) && t < |s.threads| && ClientMoves(s, t, r)
    requires ClientFrees(s.slots[s.threads[t].slot], r.slots[s.threads[t].slot], s.threads[t].pc, r.threads[t].pc)
    ensures HeldOk(r)
  {
    OccupiedPut(s.slots, s.threads[t].slot, r.slots[s.threads[t].slot]);
    OwnersPut(s.threads, t, r.threads[t]);
  }

  lemma HeldStep(s: Server, m: Move)
    requires Fine(s) && HeldOk(s)
    ensures HeldOk(Step(s, m))
  {
    match m.who
    case Acceptor => HeldByAcceptor(s, m.choice);
    case Client(t) =>
      if t < |s.threads| {
        if Leaves(s.threads[t].pc) {
          LeaveFrees(s, t);
          HeldByClient(s, t, LeaveStep(s, t));
        } else {
          ServeFrees(s, t, m.choice);
          HeldByClient(s, t, ServeStep(s, t, m.choice));
        }
      }
  }

  lemma {:induction false} RunHeld(s: Server, moves: seq<Move>)
    requires Fine(s) && HeldOk(s)
    ensures HeldOk(RunOf(s, moves))
    decreases |moves|
  {
    if moves != [] {
      StepKeeps(s, moves[0]);
      HeldStep(s, moves[0]);
      RunHeld(Step(s, moves[0]), moves[1..]);
    }
  }

  // ----- What every interleaving guarantees -----

  lemma Interleaved(moves: seq<Move>) returns (r: Server)
    ensures r == RunOf(Initial, moves) && Fine(r) && HeldOk(r)
  {
    InitialFine();
    NoneOccupied(Initial.slots);
    RunFine(Initial, moves);
    RunHeld(Initial, moves);
    r := RunOf(Initial, moves);
  }

  /** Whenever the acceptor tests the counter, it equals the occupied slots and the clients that have freed
      theirs but not decremented yet; below the maximum there is a free slot. */
  lemma CounterExact(moves: seq<Move>)
    requires RunOf(Initial, moves).acceptor.Testing?
    ensures var r := RunOf(Initial, moves);
            && r.cnt == Occupied(r.slots) + Owing(r.threads)
            && (r.cnt < MAX_CLIENTS ==> exists y :: 0 <= y < |r.slots| && r.slots[y].sd == -1)
  {
    var r := Interleaved(moves);
    if r.cnt < MAX_CLIENTS {
      var y := SomeFree(r.slots);
    }
  }

  /** A scan never runs past the slots, so no accepted client is left without one. */
  lemma ScanFinds(moves: seq<Move>)
    requires RunOf(Initial, moves).acceptor.Scanning?
    ensures RunOf(Initial, moves).acceptor.x < MAX_CLIENTS
  {
    var r := Interleaved(moves);
  }

  /** A client thread writes to its own slot only, and only while nobody else owns it: once it has given the
      slot back it never touches it again, even if the slot is taken by another client meanwhile. */
  lemma WritesOwnSlot(moves: seq<Move>, t: nat, c: Choice)
    requires t < |RunOf(Initial, moves).threads|
    ensures var r := RunOf(Initial, moves);
            var x := r.threads[t].slot;
            var n := ClientStep(r, t, c);
            && x < |r.slots| == |n.slots| && (forall y :: 0 <= y < |r.slots| && y != x ==> n.slots[y] == r.slots[y])
            && (n.slots[x] != r.slots[x] ==>
                  && Owns(r.threads[t].pc)
                  && (forall u :: 0 <= u < |r.threads| && u != t && Owns(r.threads[u].pc) ==> r.threads[u].slot != x)
                  && (Taking(r.acceptor) ==> r.acceptor.x != x))
  {
    var r := Interleaved(moves);
    if Leaves(r.threads[t].pc) {
      LeaveFrees(r, t);
    } else {
      ServeFrees(r, t, c);
    }
  }

  /** Configuration mode: the flag is set exactly while some client is between acquiring and releasing it,
      at most one client is, and input_fd and output_fd are the defaults or that client's streams. */
  lemma ModeExclusive(moves: seq<Move>, t: nat, u: nat)
    requires t < |RunOf(Initial, moves).threads| && u < |RunOf(Initial, moves).threads|
    ensures var r := RunOf(Initial, moves);
            && (InMode(r.threads[t].pc) && InMode(r.threads[u].pc) ==> t == u)
            && (InMode(r.threads[t].pc) ==> r.active)
            && (r.active ==> exists v :: 0 <= v < |r.threads| && InMode(r.threads[v].pc))
            && (InMode(r.threads[t].pc) ==> r.inputOf in {None, Some(t)} && r.outputOf in {None, Some(t)})
            && (r.inputOf == Some(t) || r.outputOf == Some(t) ==> InMode(r.threads[t].pc))
  {
    var r := Interleaved(moves);
    if t < u || u < t {
      assert !(InMode(r.threads[t].pc) && InMode(r.threads[u].pc));
    }
    if InMode(r.threads[t].pc) {
      assert forall v :: 0 <= v < |r.threads| && v != t ==> !InMode(r.threads[v].pc) && !HasInput(r.threads[v].pc) && !HasOutput(r.threads[v].pc);
    }
  }

  /** Every way out releases what was acquired: when all clients are gone and the acceptor is idle, the mode
      is free, the streams are the defaults, no slot is occupied and the counter is zero. */
  lemma AllReleased(moves: seq<Move>)
    requires var r := RunOf(Initial, moves);
             (r.acceptor.Waiting? || r.acceptor.Stopped?) && forall t :: 0 <= t < |r.threads| ==> r.threads[t].pc.Done?
    ensures var r := RunOf(Initial, moves);
            !r.active && r.inputOf.None? && r.outputOf.None? && r.lock.None? && Occupied(r.slots) == 0 && r.cnt == 0
  {
    var r := Interleaved(moves);
    AllDone(r.threads);
    LockFree(r.lock, r.acceptor, r.threads);
  }

  lemma LockFree(lock: Option<Who>, acceptor: AcceptorPc, threads: seq<Thread>)
    requires LockOk(lock, acceptor, threads) && !AcceptorCritical(acceptor)
    requires forall t :: 0 <= t < |threads| ==> !Critical(threads[t].pc)
    ensures lock.None?
  {
    match lock
    case None =>
    case Some(Acceptor) => assert false;
    case Some(Client(t)) => assert false;
  }

  lemma {:induction false} AllDone(threads: seq<Thread>)
    requires forall t :: 0 <= t < |threads| ==> threads[t].pc.Done?
    ensures Owners(threads) == 0 && Owing(threads) == 0
  {
    if threads != [] {
      AllDone(threads[..|threads| - 1]);
    }
  }
}
