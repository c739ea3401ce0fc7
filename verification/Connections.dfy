/** When the supervisor connects to a module's service interface, how long it waits
    to try again, and what a failed transfer does. */
module Connections {
  import opened Model
  import opened Kernel
  import opened Service
  import opened Invariants
  import opened Removal
  import opened Tracking
  import opened Restart
  import opened Stopping
  import opened Convergence
  import opened Settling
  import opened Skipping

  // ----- The loop that connects -----

  /** The descriptors connect returns are new. */
  ghost predicate NewFds(open: set<int>, connect: nat -> Option<int>) {
    && (forall x: nat :: connect(x).Some? ==> connect(x).value >= 0 && connect(x).value !in open)
    && (forall x: nat, y: nat :: x != y && connect(x).Some? && connect(y).Some? ==> connect(x).value != connect(y).value)
  }

  /** What an attempt makes of a record. Every PERIODS-th period there is one, and it may succeed. */
  predicate Tried(m: Module, n: Module, outcome: Option<int>) {
    if m.connTimer % PERIODS != 0 then !n.connected && n.sd == m.sd && n.connTimer == m.connTimer + 1
    else if outcome.Some? then n.connected && n.sd == outcome.value && n.connTimer == 0
    else !n.connected && n.sd == -1 && n.connTimer == m.connTimer + 1
  }

  lemma TriesOne(st: State, x: nat, c: Option<int>)
    requires x < |st.slots| && st.slots[x].status && !st.slots[x].connected && st.slots[x].sd == -1
    requires c.Some? ==> c.value >= 0 && c.value !in st.open
    ensures Tried(st.slots[x], ConnectSlot(st, x, c).slots[x], c)
  {}

  lemma {:induction false} ReachingShut(st: State, x: nat, e: Env, i: nat, fd: int)
    requires Sized(st) && x <= i < st.loaded && fd !in st.open
    requires forall y: nat :: x <= y < i && e.connect(y).Some? ==> e.connect(y).value != fd
    ensures fd !in Reaching(Connect, st, x, e, i).open
    decreases i - x
  {
    if x < i {
      assert fd !in Slot(Connect, st, x, e).open;
      ReachingShut(Slot(Connect, st, x, e), x + 1, e, i, fd);
    }
  }

  /** The connect loop on a running module that is not connected: an attempt exactly if its timer is a multiple of
      PERIODS; if that succeeds it is connected to the descriptor the kernel returned, which is open. */
  lemma ConnectExactly(st: State, e: Env, i: nat)
    requires Inv(st) && i < st.loaded && st.slots[i].status && !st.slots[i].connected
    requires st.slots[i].connTimer % PERIODS == 0 ==> NewFds(st.open, e.connect)
    ensures var n, r := Pass(Connect, st, 0, e).slots[i], Pass(Connect, st, 0, e);
            Tried(st.slots[i], n, e.connect(i)) && (n.connected ==> n.sd in r.open)
  {
    assert SlotOk(st.slots[i], |st.profiles|);
    var mid := PassAt(Connect, st, e, i);
    var c := e.connect(i);
    if st.slots[i].connTimer % PERIODS == 0 && c.Some? {
      ReachingShut(st, 0, e, i, c.value);
    }
    TriesAt(mid, i, e);
    PassKeeps(Connect, st, 0, e);
  }

  lemma TriesAt(mid: State, i: nat, e: Env)
    requires i < mid.loaded <= |mid.slots| && mid.slots[i].status && !mid.slots[i].connected && mid.slots[i].sd == -1
    requires mid.slots[i].connTimer % PERIODS == 0 && e.connect(i).Some? ==> e.connect(i).value >= 0 && e.connect(i).value !in mid.open
    ensures Tried(mid.slots[i], Slot(Connect, mid, i, e).slots[i], e.connect(i))
  {
    var s := mid.(os := Exit(mid.os, e.dying(i)));
    if mid.slots[i].connTimer % PERIODS == 0 {
      TriesOne(s, i, e.connect(i));
    }
  }

  // ----- The part of a record that tells of the connection -----

  predicate SameLink(m: Module, n: Module) {
    n.connected == m.connected && n.sd == m.sd && n.connTimer == m.connTimer
  }

  lemma PassLink(op: Op, st: State, e: Env, i: nat)
    requires Inv(st) && (op == Check || Settled(st)) && i < st.loaded && NoEperm(st.os) && Up(st.slots[i], st.os)
    requires forall y: nat :: st.slots[i].pid !in e.dying(y)
    requires op == Check || op == Update || op == Sigint || op == Reap || op == Kill || (op == Connect && st.slots[i].connected)
    ensures SameLink(st.slots[i], Pass(op, st, 0, e).slots[i])
  {
    assert op != Check ==> SettledSlot(st.slots[i], st.os);
    var mid := PassAt(op, st, e, i);
    match op
    case Check =>
      ReachingUp(Check, st, 0, e, i, st.slots[i].pid);
    case Update =>
      assert Decide(mid.profiles, mid.defaultLimit, Tick(mid.slots[i])).Leave?;
    case Sigint =>
    case Reap =>
    case Kill =>
    case Connect =>
  }

  /** The loops before the removal pass leave the connection of a serving module alone. */
  lemma {:induction false} LinkChain(s: State, k: nat, n: nat, e: nat -> Env, i: nat)
    requires Between(k, s) && 1 <= k <= n <= 7 && i < s.loaded
    requires NoEperm(s.os) && (forall y: nat :: e(1).fork(y).Fork? ==> !e(1).fork(y).eperm)
    requires Serving(s.profiles, s.slots[i], s.os) && StaysUp(e, s.slots[i].pid)
    ensures SameLink(s.slots[i], Chain(s, k, n, e).slots[i])
    decreases n - k
  {
    if k < n {
      var t := LinkStep(s, k, e, i);
      LinkChain(t, k + 1, n, e, i);
      ChainStep(s, k, n, e);
    }
  }

  lemma LinkStep(s: State, k: nat, e: nat -> Env, i: nat) returns (t: State)
    requires Between(k, s) && 1 <= k < 7 && i < s.loaded
    requires NoEperm(s.os) && (forall y: nat :: e(1).fork(y).Fork? ==> !e(1).fork(y).eperm)
    requires Serving(s.profiles, s.slots[i], s.os) && StaysUp(e, s.slots[i].pid)
    ensures t == Pass(Loop(k), s, 0, e(k)) && Between(k + 1, t) && NoEperm(t.os) && i < t.loaded
    ensures Serving(t.profiles, t.slots[i], t.os) && t.slots[i].pid == s.slots[i].pid && SameLink(s.slots[i], t.slots[i])
  {
    t := Pass(Loop(k), s, 0, e(k));
    assert Between(k + 1, t) by { BetweenStep(k, s, e(k)); }
    PassNoEperm(Loop(k), s, 0, e(k));
    PassLink(Loop(k), s, e(k), i);
    ServingPass(Loop(k), s, e(k), i);
  }

  // ----- Transfers -----

  /** A connected module after a transfer: still connected if it worked, otherwise disconnected and its timer at 0. */
  predicate Transferred(m: Module, n: Module, ok: bool) {
    if ok then SameLink(m, n) else !n.connected && n.sd == -1 && n.connTimer == 0
  }

  lemma TransferExactly(op: Op, st: State, e: Env, i: nat)
    requires Inv(st) && Settled(st) && i < st.loaded && (op == Send || op == Recv) && st.slots[i].pid > 0
    ensures var n := Pass(op, st, 0, e).slots[i];
            if st.slots[i].connected then Transferred(st.slots[i], n, e.transfer(i)) else SameLink(st.slots[i], n)
  {
    assert SettledSlot(st.slots[i], st.os) && SlotOk(st.slots[i], |st.profiles|);
    var mid := PassAt(op, st, e, i);
  }

  /** After the connect loop no socket is opened. */
  lemma {:induction false} PassShuts(op: Op, st: State, x: nat, e: Env)
    requires Sized(st) && op != Connect
    ensures Pass(op, st, x, e).open <= st.open
    decreases st.loaded - x
  {
    if x < st.loaded {
      assert Slot(op, st, x, e).open <= st.open;
      PassShuts(op, Slot(op, st, x, e), x + 1, e);
    }
  }

  /** Check and the transfers only end connections. */
  lemma OnlyDrops(op: Op, st: State, e: Env, k: nat)
    requires Sized(st) && k < st.loaded && (op == Check || op == Send || op == Recv)
    ensures var n := Pass(op, st, 0, e).slots[k];
            n.connected ==> st.slots[k].connected && n.sd == st.slots[k].sd
  {
    var mid := PassAt(op, st, e, k);
  }

  /** A connection that ends is closed. */
  lemma Closes(op: Op, st: State, e: Env, i: nat)
    requires Inv(st) && Ready(op, st) && i < st.loaded && (op == Check || op == Send || op == Recv) && st.slots[i].connected
    requires !Pass(op, st, 0, e).slots[i].connected
    ensures st.slots[i].sd !in Pass(op, st, 0, e).open
  {
    var r := Pass(op, st, 0, e);
    PassKeeps(op, st, 0, e);
    forall k | 0 <= k < r.loaded && r.slots[k].connected ensures r.slots[k].sd != st.slots[i].sd {
      OnlyDrops(op, st, e, k);
    }
    assert st.slots[i].sd in r.open ==> Held(r.slots, r.loaded, st.slots[i].sd);
  }

  // ----- From the removal pass to the end of the period -----

  ghost predicate Talk(s8: State, e: nat -> Env, s9: State, s10: State, s11: State, s12: State, r: State) {
    && Between(8, s8) && Between(9, s9) && Between(10, s10) && Between(11, s11) && Between(12, s12) && Between(13, r)
    && s9 == Pass(Check, s8, 0, e(8)) && s10 == Pass(Connect, s9, 0, e(9)) && s11 == Pass(Send, s10, 0, e(10))
    && s12 == Pass(Check, s11, 0, e(11)) && r == Pass(Recv, s12, 0, e(12))
  }

  lemma FindTalk(s8: State, e: nat -> Env) returns (s9: State, s10: State, s11: State, s12: State, r: State)
    requires Between(8, s8)
    ensures Talk(s8, e, s9, s10, s11, s12, r) && r == Chain(s8, 8, LOOPS, e)
  {
    s9, s10 := FirstTwo(s8, e);
    s11, s12, r := LastThree(s10, e);
  }

  lemma FirstTwo(s8: State, e: nat -> Env) returns (s9: State, s10: State)
    requires Between(8, s8)
    ensures s9 == Pass(Check, s8, 0, e(8)) && s10 == Pass(Connect, s9, 0, e(9)) && Between(9, s9) && Between(10, s10)
    ensures Chain(s8, 8, LOOPS, e) == Chain(s10, 10, LOOPS, e)
  {
    s9 := NextLoop(s8, 8, Check, e);
    s10 := NextLoop(s9, 9, Connect, e);
  }

  lemma LastThree(s10: State, e: nat -> Env) returns (s11: State, s12: State, r: State)
    requires Between(10, s10)
    ensures s11 == Pass(Send, s10, 0, e(10)) && s12 == Pass(Check, s11, 0, e(11)) && r == Pass(Recv, s12, 0, e(12))
    ensures Between(11, s11) && Between(12, s12) && Between(13, r) && Chain(s10, 10, LOOPS, e) == r
  {
    s11 := NextLoop(s10, 10, Send, e);
    s12 := NextLoop(s11, 11, Check, e);
    r := NextLoop(s12, 12, Recv, e);
    ChainDone(r, LOOPS, e);
  }

  lemma NextLoop(s: State, k: nat, op: Op, e: nat -> Env) returns (t: State)
    requires Between(k, s) && k < LOOPS && op == Loop(k)
    ensures t == Pass(op, s, 0, e(k)) && Between(k + 1, t) && Chain(s, k, LOOPS, e) == Chain(t, k + 1, LOOPS, e)
  {
    t := Pass(op, s, 0, e(k));
    assert Between(k + 1, t) by { BetweenStep(k, s, e(k)); }
    ChainStep(s, k, LOOPS, e);
  }

  /** A module that is up, and its process, through these loops. */
  ghost predicate UpAll(i: nat, p: int, s8: State, s9: State, s10: State, s11: State, s12: State) {
    && UpIn(s8, i, p) && UpIn(s9, i, p) && UpIn(s10, i, p) && UpIn(s11, i, p) && UpIn(s12, i, p)
  }

  ghost predicate UpIn(s: State, i: nat, p: int) {
    i < s.loaded <= |s.slots| && s.slots[i].pid == p && Serving(s.profiles, s.slots[i], s.os) && NoEperm(s.os)
  }

  lemma UpNextLoop(k: nat, op: Op, s: State, t: State, e: nat -> Env, i: nat, p: int)
    requires Between(k, s) && k >= 8 && op != Serve && op != Update && t == Pass(op, s, 0, e(k)) && UpIn(s, i, p) && StaysUp(e, p)
    ensures UpIn(t, i, p)
  {
    ServingPass(op, s, e(k), i);
    PassNoEperm(op, s, 0, e(k));
  }

  lemma StaysUpAll(s8: State, e: nat -> Env, s9: State, s10: State, s11: State, s12: State, r: State, i: nat, p: int)
    requires Talk(s8, e, s9, s10, s11, s12, r) && UpIn(s8, i, p) && StaysUp(e, p)
    ensures UpAll(i, p, s8, s9, s10, s11, s12)
  {
    UpNextLoop(8, Check, s8, s9, e, i, p);
    UpNextLoop(9, Connect, s9, s10, e, i, p);
    UpNextLoop(10, Send, s10, s11, e, i, p);
    UpNextLoop(11, Check, s11, s12, e, i, p);
  }

  /** What becomes of the connection of a running module in a period, `outcome` being that of an attempt to connect and
      `ok` whether the transfers work. */
  predicate Linked(m: Module, n: Module, outcome: Option<int>, ok: bool) {
    if m.connected then Transferred(m, n, ok)
    else if m.connTimer % PERIODS == 0 && outcome.Some? then
      if ok then n.connected && n.sd == outcome.value && n.connTimer == 0 else !n.connected && n.sd == -1 && n.connTimer == 0
    else !n.connected && n.sd == -1 && n.connTimer == m.connTimer + 1
  }

  lemma LinkedBy(m8: Module, m9: Module, m10: Module, m11: Module, m12: Module, n: Module, outcome: Option<int>, a: bool, b: bool)
    requires SameLink(m8, m9) && (if m9.connected then SameLink(m9, m10) else m9.sd == -1 && Tried(m9, m10, outcome))
    requires (if m10.connected then Transferred(m10, m11, a) else SameLink(m10, m11)) && SameLink(m11, m12)
    requires if m12.connected then Transferred(m12, n, b) else SameLink(m12, n)
    ensures Linked(m8, n, outcome, a && b)
  {}

  lemma TalkLinks(s8: State, e: nat -> Env, s9: State, s10: State, s11: State, s12: State, r: State, i: nat, p: int)
    requires Talk(s8, e, s9, s10, s11, s12, r) && UpAll(i, p, s8, s9, s10, s11, s12) && StaysUp(e, p)
    requires !s8.slots[i].connected && s8.slots[i].connTimer % PERIODS == 0 ==> NewFds(s8.open, e(9).connect)
    ensures i < r.loaded && Linked(s8.slots[i], r.slots[i], e(9).connect(i), e(10).transfer(i) && e(12).transfer(i))
  {
    PassLink(Check, s8, e(8), i);
    PassShuts(Check, s8, 0, e(8));
    ConnectLinks(s9, e(9), i, s8);
    TransferExactly(Send, s10, e(10), i);
    PassLink(Check, s11, e(11), i);
    TransferExactly(Recv, s12, e(12), i);
    LinkedBy(s8.slots[i], s9.slots[i], s10.slots[i], s11.slots[i], s12.slots[i], r.slots[i],
             e(9).connect(i), e(10).transfer(i), e(12).transfer(i));
  }

  lemma ConnectLinks(s9: State, e: Env, i: nat, s8: State)
    requires Between(9, s9) && i < s9.loaded && Up(s9.slots[i], s9.os) && NoEperm(s9.os)
    requires forall y: nat :: s9.slots[i].pid !in e.dying(y)
    requires Sized(s8) && i < s8.loaded && SameLink(s8.slots[i], s9.slots[i]) && s9.open <= s8.open
    requires !s8.slots[i].connected && s8.slots[i].connTimer % PERIODS == 0 ==> NewFds(s8.open, e.connect)
    ensures var n := Pass(Connect, s9, 0, e).slots[i];
            if s9.slots[i].connected then SameLink(s9.slots[i], n) else s9.slots[i].sd == -1 && Tried(s9.slots[i], n, e.connect(i))
  {
    assert SettledSlot(s9.slots[i], s9.os) && SlotOk(s9.slots[i], |s9.profiles|);
    if s9.slots[i].connected {
      PassLink(Connect, s9, e, i);
    } else {
      ConnectExactly(s9, e, i);
    }
  }

  lemma ClosedAtEnd(s8: State, e: nat -> Env, s9: State, s10: State, s11: State, s12: State, r: State, i: nat)
    requires Talk(s8, e, s9, s10, s11, s12, r) && i < s10.loaded && s10.slots[i].connected && i < r.loaded && !r.slots[i].connected
    ensures s10.slots[i].sd !in r.open
  {
    PassShuts(Check, s11, 0, e(11));
    PassShuts(Recv, s12, 0, e(12));
    if !s11.slots[i].connected {
      Closes(Send, s10, e(10), i);
    } else {
      OnlyDrops(Send, s10, e(10), i);
      LastClosed(s10.slots[i].sd, s11, e, s12, r, i);
    }
  }

  lemma LastClosed(fd: int, s11: State, e: nat -> Env, s12: State, r: State, i: nat)
    requires Between(11, s11) && Between(12, s12) && s12 == Pass(Check, s11, 0, e(11)) && r == Pass(Recv, s12, 0, e(12))
    requires i < s11.loaded && s11.slots[i].connected && s11.slots[i].sd == fd && !r.slots[i].connected
    ensures fd !in r.open
  {
    PassShuts(Recv, s12, 0, e(12));
    if !s12.slots[i].connected {
      Closes(Check, s11, e(11), i);
    } else {
      OnlyDrops(Check, s11, e(11), i);
      Closes(Recv, s12, e(12), i);
    }
  }

  // ----- A whole period -----

  lemma FewerOpen(a: set<int>, b: set<int>, connect: nat -> Option<int>)
    requires b <= a && NewFds(a, connect)
    ensures NewFds(b, connect)
  {}

  lemma {:induction false} ChainShuts(s: State, k: nat, n: nat, e: nat -> Env)
    requires Sized(s) && k <= n <= 8
    ensures Chain(s, k, n, e).open <= s.open
    decreases n - k
  {
    if k < n {
      PassShuts(Loop(k), s, 0, e(k));
      ChainShuts(Pass(Loop(k), s, 0, e(k)), k + 1, n, e);
    }
  }

  /** Up to the removal pass the connection of a serving module is left alone, and no socket is opened. */
  lemma LinkBefore(st: State, e: nat -> Env, j: nat, s1: State, s2: State, s7: State, s8: State, r: State)
    requires Inv(st) && Calm(st, e) && Landmarks(st, e, s1, s2, s7, s8, r) && j < st.loaded
    requires Serving(st.profiles, st.slots[j], st.os)
    ensures j < s7.loaded && SameLink(st.slots[j], s7.slots[j]) && s8.open <= st.open
  {
    assert StaysUp(e, st.slots[j].pid);
    PassLink(Check, st, e(0), j);
    CheckUp(st, e(0), j);
    PassSwitches(Check, st, e(0), j);
    UpdateNoEperm(st, e, s1, s2);
    LinkChain(s1, 1, 7, e, j);
    ChainStep(s1, 1, 7, e);
    OpenBefore(st, e, s1, s2, s7, s8);
  }

  lemma OpenBefore(st: State, e: nat -> Env, s1: State, s2: State, s7: State, s8: State)
    requires Sized(st) && s1 == Pass(Check, st, 0, e(0)) && s2 == Pass(Update, s1, 0, e(1)) && s7 == Chain(s2, 2, 7, e)
    requires s8 == Pass(Serve, s7, 0, e(7))
    ensures s8.open <= st.open
  {
    StartShuts(st, e, s1, s2);
    SweepShuts(s2, 2, 7, e, s7, s8, st.open);
  }

  lemma StartShuts(st: State, e: nat -> Env, s1: State, s2: State)
    requires Sized(st) && s1 == Pass(Check, st, 0, e(0)) && s2 == Pass(Update, s1, 0, e(1))
    ensures s2.open <= st.open
  {
    ShutThen(Check, st, s1, e(0), st.open);
    ShutThen(Update, s1, s2, e(1), st.open);
  }

  lemma SweepShuts(s2: State, k: nat, n: nat, e: nat -> Env, s7: State, s8: State, open: set<int>)
    requires Sized(s2) && k <= n <= 8 && s7 == Chain(s2, k, n, e) && s8 == Pass(Serve, s7, 0, e(n)) && s2.open <= open
    ensures s8.open <= open
  {
    LoopsShut(s2, k, n, e, s7, open);
    ShutThen(Serve, s7, s8, e(n), open);
  }

  lemma LoopsShut(s: State, k: nat, n: nat, e: nat -> Env, t: State, open: set<int>)
    requires Sized(s) && k <= n <= 8 && t == Chain(s, k, n, e) && s.open <= open
    ensures t.open <= open
  {
    ChainShuts(s, k, n, e);
    SubsetTrans(t.open, s.open, open);
  }

  lemma ShutThen(op: Op, s: State, t: State, e: Env, open: set<int>)
    requires Sized(s) && op != Connect && t == Pass(op, s, 0, e) && s.open <= open
    ensures t.open <= open
  {
    PassShuts(op, s, 0, e);
    SubsetTrans(t.open, s.open, open);
  }

  lemma SubsetTrans(a: set<int>, b: set<int>, c: set<int>)
    requires a <= b <= c
    ensures a <= c
  {}

  lemma ServedLink(m: Module, m7: Module, m8: Module)
    requires SwitchedFrom(m, m7) && !Pending(m) && (m8 == m7 || m8 == Served(m7))
    ensures SameLink(m7, m8) && !Pending(m8)
  {}

  /** What a period makes of the module of slot j. */
  ghost predicate Connects(st: State, e: nat -> Env, r: State, j: nat, i: nat) {
    && j < |st.slots| && i < r.loaded <= |r.slots|
    && var m, n := st.slots[j], r.slots[i];
       && n.name == m.name && Serving(r.profiles, n, r.os) && !Pending(n)
       && Linked(m, n, e(9).connect(i), e(10).transfer(i) && e(12).transfer(i))
       && (n.connected ==> n.sd in r.open) && (m.connected && !n.connected ==> m.sd !in r.open)
  }

  /** A calm period on a module that runs and is not waiting for a restart: connected, it stays so exactly if its
      transfers work, and its socket is closed if not; unconnected, there is an attempt exactly if its timer is a
      multiple of PERIODS. */
  lemma LinkPeriod(st: State, e: nat -> Env, j: nat) returns (i: nat)
    requires Fit(st) && Calm(st, e) && j < st.loaded && Serving(st.profiles, st.slots[j], st.os) && !Pending(st.slots[j])
    requires !st.slots[j].connected && st.slots[j].connTimer % PERIODS == 0 ==> NewFds(st.open, e(9).connect)
    ensures Connects(st, e, Period(st, e), j, i)
  {
    var s1, s2, s7, s8, r := FindLandmarks(st, e);
    assert SlotOk(st.slots[j], |st.profiles|);
    i := Followed(st, e, j, s1, s2, s7, s8, r);
    LinkBefore(st, e, j, s1, s2, s7, s8, r);
    ServedLink(st.slots[j], s7.slots[j], s8.slots[i]);
    if !st.slots[j].connected && st.slots[j].connTimer % PERIODS == 0 {
      FewerOpen(st.open, s8.open, e(9).connect);
    }
    UpAfterServe(st, e, j, i, s1, s2, s7, s8, r);
    LinkAfter(st, e, s8, r, j, i);
  }

  lemma UpAfterServe(st: State, e: nat -> Env, j: nat, i: nat, s1: State, s2: State, s7: State, s8: State, r: State)
    requires Fit(st) && Calm(st, e) && Landmarks(st, e, s1, s2, s7, s8, r) && s7 == Stage(st, 7, e) && j < st.loaded
    requires Serving(st.profiles, st.slots[j], st.os) && Follows7(s7, s8, r, j, i)
    ensures UpIn(s8, i, st.slots[j].pid) && StaysUp(e, st.slots[j].pid)
  {
    var p := st.slots[j].pid;
    assert StaysUp(e, p);
    UpBefore(st, e, j, s1, s2, s7, s8, r);
    assert NoEperm(s7.os) by { AllBefore(st, e, s1, s2, s7, s8, r); }
    ServeUp(s7, s8, e(7), j, i, p);
  }

  lemma ServeUp(s7: State, s8: State, e: Env, j: nat, i: nat, p: int)
    requires Sized(s7) && s8 == Pass(Serve, s7, 0, e) && NoEperm(s7.os) && j < s7.loaded && i < s8.loaded
    requires Serving(s7.profiles, s7.slots[j], s7.os) && s7.slots[j].pid == p && forall y: nat :: p !in e.dying(y)
    requires s8.slots[i] == s7.slots[j] || s8.slots[i] == Served(s7.slots[j])
    ensures UpIn(s8, i, p)
  {
    PassUp(Serve, s7, 0, e, p);
    PassNoEperm(Serve, s7, 0, e);
  }

  lemma LinkAfter(st: State, e: nat -> Env, s8: State, r: State, j: nat, i: nat)
    requires Between(8, s8) && r == Chain(s8, 8, LOOPS, e) && j < |st.slots| && i < s8.loaded
    requires UpIn(s8, i, st.slots[j].pid) && StaysUp(e, st.slots[j].pid)
    requires SameLink(st.slots[j], s8.slots[i]) && !Pending(s8.slots[i]) && s8.slots[i].name == st.slots[j].name
    requires !s8.slots[i].connected && s8.slots[i].connTimer % PERIODS == 0 ==> NewFds(s8.open, e(9).connect)
    ensures Connects(st, e, r, j, i)
  {
    var s9, s10, s11, s12, t := FindTalk(s8, e);
    StaysUpAll(s8, e, s9, s10, s11, s12, t, i, st.slots[j].pid);
    TalkLinks(s8, e, s9, s10, s11, s12, t, i, st.slots[j].pid);
    ChainSwitches(s8, 8, LOOPS, e, i);
    LastUp(s12, e(12), i, t);
    if s8.slots[i].connected && !t.slots[i].connected {
      PassLink(Check, s8, e(8), i);
      PassLink(Connect, s9, e(9), i);
      ClosedAtEnd(s8, e, s9, s10, s11, s12, t, i);
    }
  }

  lemma LastUp(s12: State, e: Env, i: nat, r: State)
    requires Between(12, s12) && r == Pass(Recv, s12, 0, e) && i < s12.loaded && NoEperm(s12.os)
    requires Serving(s12.profiles, s12.slots[i], s12.os) && forall y: nat :: s12.slots[i].pid !in e.dying(y)
    ensures Serving(r.profiles, r.slots[i], r.os) && (r.slots[i].connected ==> r.slots[i].sd in r.open)
  {
    ServingPass(Recv, s12, e, i);
    PassKeeps(Recv, s12, 0, e);
  }

  // ----- Several periods -----

  lemma LinkNext(ss: seq<State>, env: nat -> nat -> Env, j: nat) returns (i: nat)
    requires Path(ss, env) && |ss| > 1 && Sized(ss[0]) && j < ss[0].loaded
    requires Serving(ss[0].profiles, ss[0].slots[j], ss[0].os) && !Pending(ss[0].slots[j])
    requires !ss[0].slots[j].connected ==> ss[0].slots[j].connTimer % PERIODS != 0
    ensures Sized(ss[1]) && Connects(ss[0], env(|ss| - 1), ss[1], j, i)
  {
    assert Visit(0);
    i := LinkPeriod(ss[0], env(|ss| - 1), j);
  }

  /** Slot i of r holds the module of slot j of st, which still runs. */
  ghost predicate StillRuns(st: State, r: State, j: nat, i: nat)
    requires Sized(st) && Sized(r)
  {
    && j < st.loaded && i < r.loaded && r.slots[i].name == st.slots[j].name
    && Serving(r.profiles, r.slots[i], r.os) && !Pending(r.slots[i])
  }

  /** After a failed attempt the timer only counts until it is a multiple of PERIODS again: the next attempt comes
      PERIODS periods after the last. */
  lemma {:induction false} RetriesLater(ss: seq<State>, env: nat -> nat -> Env, j: nat) returns (i: nat)
    requires Path(ss, env) && Sized(ss[0]) && StillRuns(ss[0], ss[0], j, j) && !ss[0].slots[j].connected
    requires ss[0].slots[j].connTimer % PERIODS != 0 && ss[0].slots[j].connTimer % PERIODS + |ss| - 1 <= PERIODS
    ensures Sized(End(ss)) && StillRuns(ss[0], End(ss), j, i) && !End(ss).slots[i].connected
    ensures End(ss).slots[i].connTimer == ss[0].slots[j].connTimer + |ss| - 1
  {
    i := j;
    if |ss| > 1 {
      PathStep(ss, env);
      var k := LinkNext(ss, env, j);
      if |ss| > 2 {
        i := RetriesLater(ss[1..], env, k);
      } else {
        i := k;
      }
    }
  }

  /** While all transfers work a connection lasts. */
  lemma {:induction false} StaysLinked(ss: seq<State>, env: nat -> nat -> Env, j: nat) returns (i: nat)
    requires Path(ss, env) && Sized(ss[0]) && StillRuns(ss[0], ss[0], j, j) && ss[0].slots[j].connected
    requires forall n: nat, k: nat, x: nat :: env(n)(k).transfer(x)
    ensures Sized(End(ss)) && StillRuns(ss[0], End(ss), j, i) && End(ss).slots[i].connected
    ensures End(ss).slots[i].sd == ss[0].slots[j].sd
  {
    i := j;
    if |ss| > 1 {
      PathStep(ss, env);
      var k := LinkNext(ss, env, j);
      i := StaysLinked(ss[1..], env, k);
    }
  }

  // ----- A module that waits for its restart -----

  /** The removal pass disconnects a running module that is to be restarted. */
  lemma WaitingDisconnected(s7: State, e: Env, j: nat)
    requires Inv(s7) && Settled(s7) && Backlog(Loaded(s7)) == 0 && j < s7.loaded
    requires Pending(s7.slots[j]) && s7.slots[j].status && s7.slots[j].connected
    ensures var r := Pass(Serve, s7, 0, e);
            && j < r.loaded && r.slots[j].name == s7.slots[j].name && !r.slots[j].connected && r.slots[j].sd == -1
            && s7.slots[j].sd !in r.open
  {
    var r := Pass(Serve, s7, 0, e);
    ServedList(s7, e);
    SweptStill(Loaded(s7));
    PassKeeps(Serve, s7, 0, e);
    forall k | 0 <= k < r.loaded ensures r.slots[k] == Served(s7.slots[k]) {
      assert Loaded(r)[k] == Served(Loaded(s7)[k]);
    }
    assert s7.slots[j].sd in r.open ==> Held(r.slots, r.loaded, s7.slots[j].sd);
  }
}
