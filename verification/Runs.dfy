/** Whole runs of the supervisor: an initial load, then any sequence of service
    periods, user commands and reloads, on any kernel. */
module Runs {
  import opened Model
  import opened Kernel
  import opened Service
  import opened Invariants
  import opened Commands
  import opened Document
  import opened Interfaces
  import opened Reload
  import opened ReloadEffect
  import opened ReloadTheorem
  import opened ReloadKeeps
  import opened Config

  datatype Step = Service(e: nat -> Env) | User(c: Command) | Reloading(doc: Option<Node>)

  predicate Shaped(st: State) {
    st.loaded <= |st.slots| != 1
  }

  ghost function Next(st: State, step: Step): (r: State)
    requires Shaped(st)
    ensures Shaped(r)
  {
    match step
    case Service(e) => Period(st, e)
    case User(c) => Perform(c, st)
    case Reloading(doc) => Reloaded(st, doc, false)
  }

  ghost function Run(st: State, steps: seq<Step>): (r: State)
    requires Shaped(st)
    ensures Shaped(r)
    decreases |steps|
  {
    if steps == [] then st else Run(Next(st, steps[0]), steps[1..])
  }

  /** Where runs begin: an empty table with room, and the first document with distinct PIDs. */
  ghost predicate Boots(st: State, doc: Option<Node>) {
    Fresh(st) && (ValidDoc(doc) ==> DistinctPids(Entries(doc.value.kids)))
  }

  ghost predicate Good(st: State) {
    Inv(st) && Unreaped(st) && Roomy(st.slots) && ProfilesFine(st.profiles)
  }

  lemma {:induction false} SelectAllProfiles(c: Command, st: State, sel: seq<int>)
    requires Sized(st) && ProfilesFine(st.profiles)
    ensures ProfilesFine(SelectAll(c, st, sel).profiles)
    decreases |sel|
  {
    if sel != [] {
      SelectAllProfiles(c, Select(c, st, sel[0]), sel[1..]);
    }
  }

  lemma PerformProfiles(c: Command, st: State)
    requires Sized(st) && ProfilesFine(st.profiles)
    ensures ProfilesFine(Perform(c, st).profiles)
  {
    match c
    case EnableSel(sel) => SelectAllProfiles(c, st, sel);
    case DisableSel(sel) => SelectAllProfiles(c, st, sel);
    case RestartSel(sel) => SelectAllProfiles(c, st, sel);
    case _ =>
  }

  lemma NextKeeps(st: State, step: Step)
    requires Good(st)
    ensures Good(Next(st, step))
  {
    match step
    case Service(e) =>
      PeriodKeeps(st, e);
      PeriodConfig(st, e);
    case User(c) =>
      PerformKeeps(c, st);
      PerformConfig(c, st);
      PerformProfiles(c, st);
    case Reloading(doc) =>
      ReloadKeepsInv(st, doc);
      if ValidDoc(doc) {
        DocProfiles(doc);
      }
  }

  lemma {:induction false} RunKeeps(st: State, steps: seq<Step>)
    requires Good(st)
    ensures Good(Run(st, steps))
    decreases |steps|
  {
    if steps != [] {
      NextKeeps(st, steps[0]);
      RunKeeps(Next(st, steps[0]), steps[1..]);
    }
  }

  /** Every state of every run. */
  lemma Reachable(st: State, doc: Option<Node>, steps: seq<Step>) returns (r: State)
    requires Boots(st, doc)
    ensures r == Run(Reloaded(st, doc, true), steps) && Good(r)
  {
    InitialKeepsInv(st, doc);
    if ValidDoc(doc) {
      DocProfiles(doc);
    }
    r := Run(Reloaded(st, doc, true), steps);
    RunKeeps(Reloaded(st, doc, true), steps);
  }

  /** Process conservation: each process the supervisor started and has not reaped is recorded
      in exactly one slot, that of the module it was started for. */
  lemma EveryChildRecorded(st: State, doc: Option<Node>, steps: seq<Step>, p: int) returns (i: nat)
    requires Boots(st, doc)
    requires var r := Run(Reloaded(st, doc, true), steps);
             p in r.os && r.os[p].child && !r.os[p].phase.Gone?
    ensures var r := Run(Reloaded(st, doc, true), steps);
            && i < r.loaded && r.slots[i].pid == p && r.slots[i].name == r.os[p].owner && r.slots[i].myChild
            && forall j :: 0 <= j < r.loaded && j != i ==> r.slots[j].pid != p
  {
    var r := Reachable(st, doc, steps);
    assert HasPid(r.slots, r.loaded, p);
    i :| 0 <= i < r.loaded && r.slots[i].pid == p;
    assert OwnsPid(r.slots[i], r.os) && p > 0;
  }

  /** No module is forked while an earlier process of its name lives: whenever the log shows a fork
      of n, every process forked for n before was reaped before. */
  lemma ForksAlone(st: State, doc: Option<Node>, steps: seq<Step>, i: nat, j: nat, n: string, p: int, q: int)
    requires Boots(st, doc)
    requires var t := Run(Reloaded(st, doc, true), steps).trace;
             i < j < |t| && t[i] == Forked(n, p) && t[j] == Forked(n, q)
    ensures var t := Run(Reloaded(st, doc, true), steps).trace;
            p != q && exists k :: i < k < j && t[k] == Reaped(p)
  {
    var r := Reachable(st, doc, steps);
    var t := r.trace;
    assert OkAt(t, j) && t[..j][i] == Forked(n, p);
    var k :| 0 <= k < j && t[..j][k] == Reaped(p);
    assert t[k] == Reaped(p);
    ReapedLater(t, i, k, n, p);
  }

  lemma ReapedLater(t: seq<Event>, i: nat, k: nat, n: string, p: int)
    requires Disciplined(t) && i < |t| && k < |t| && t[i] == Forked(n, p) && t[k] == Reaped(p)
    ensures i < k
  {
    assert OkAt(t, k) && OkAt(t, i);
    var m :| Forked(m, p) in t[..k];
    var l :| 0 <= l < k && t[..k][l] == Forked(m, p);
    assert t[l] == Forked(m, p);
    assert forall h :: 0 <= h < i ==> t[..i][h] == t[h];
  }

  /** Signal discipline over the whole log: signals go to positive PIDs that were not reaped before,
      and SIGKILL only to a process that was sent SIGINT before. */
  lemma SignalsOrdered(st: State, doc: Option<Node>, steps: seq<Step>, j: nat, p: int)
    requires Boots(st, doc)
    requires var t := Run(Reloaded(st, doc, true), steps).trace;
             j < |t| && (t[j] == SentSigint(p) || t[j] == SentSigkill(p))
    ensures var t := Run(Reloaded(st, doc, true), steps).trace;
            && p > 0 && (forall i :: 0 <= i < j ==> t[i] != Reaped(p))
            && (t[j] == SentSigkill(p) ==> exists i :: 0 <= i < j && t[i] == SentSigint(p))
  {
    var r := Reachable(st, doc, steps);
    var t := r.trace;
    assert OkAt(t, j);
    assert forall i :: 0 <= i < j ==> t[..j][i] == t[i];
  }

  /** A limit of 30 is no limit: in no run is a module disabled for having reached it. */
  lemma ThirtyIsUnlimited(st: State, doc: Option<Node>, steps: seq<Step>, j: nat)
    requires Boots(st, doc)
    requires var t := Run(Reloaded(st, doc, true), steps).trace;
             j < |t| && t[j].AutoDisabled?
    ensures Run(Reloaded(st, doc, true), steps).trace[j].limit != MAX_RESTARTS
  {
    var r := Reachable(st, doc, steps);
    assert OkAt(r.trace, j);
  }

  /** The table in every reachable state: distinct names, blank slots behind the loaded ones, room in every
      array, codes that agree with their strings, counters within the window, and a module, once started, connected
      exactly when the socket it stores is open. */
  lemma TableSound(st: State, doc: Option<Node>, steps: seq<Step>)
    requires Boots(st, doc)
    ensures var r := Run(Reloaded(st, doc, true), steps);
            && r.loaded <= |r.slots|
            && (forall i, j :: 0 <= i < j < r.loaded ==> r.slots[i].name != r.slots[j].name)
            && (forall i :: r.loaded <= i < |r.slots| ==> Blank(r.slots[i]))
            && (forall i :: 0 <= i < |r.slots| ==> |r.slots[i].ifces| <= r.slots[i].ifcCap)
            && (forall i, j :: 0 <= i < |r.slots| && 0 <= j < |r.slots[i].ifces| ==> CodesAgree(r.slots[i].ifces[j]))
            && (forall i :: 0 <= i < r.loaded ==> -1 <= r.slots[i].restartCnt <= r.slots[i].restartTimer + 1 <= PERIODS)
            && (forall i :: 0 <= i < r.loaded && (r.slots[i].pid > 0 || r.slots[i].sd != 0) ==>
                  (r.slots[i].connected <==> r.slots[i].sd in r.open))
            && |r.open| == Connected(r.slots[..r.loaded])
  {
    var r := Reachable(st, doc, steps);
    forall i | 0 <= i < |r.slots|
      ensures |r.slots[i].ifces| <= r.slots[i].ifcCap && forall j :: 0 <= j < |r.slots[i].ifces| ==> CodesAgree(r.slots[i].ifces[j]) {
      assert RoomyModule(r.slots[i]);
      AllAgree(r.slots[i].ifces);
    }
    forall i | 0 <= i < r.loaded
      ensures -1 <= r.slots[i].restartCnt <= r.slots[i].restartTimer + 1 <= PERIODS
              && (r.slots[i].pid > 0 || r.slots[i].sd != 0 ==> (r.slots[i].connected <==> r.slots[i].sd in r.open)) {
      assert SlotOk(r.slots[i], |r.profiles|);
      if !r.slots[i].connected && r.slots[i].sd == -1 {
        SocketsAt(r.slots, r.loaded, r.open, |r.profiles|, i);
      }
    }
    SocketCount(r.slots, r.loaded, r.open);
  }

  function Connected(ms: seq<Module>): nat {
    if ms == [] then 0 else Connected(ms[..|ms| - 1]) + if ms[|ms| - 1].connected then 1 else 0
  }

  /** No open socket is lost: there are as many as connected modules. */
  lemma {:induction false} SocketCount(slots: seq<Module>, loaded: nat, open: set<int>)
    requires Sockets(slots, loaded, open)
    ensures |open| == Connected(slots[..loaded])
    decreases loaded
  {
    if loaded == 0 {
      assert forall f :: f in open ==> Held(slots, loaded, f);
      assert forall f :: f !in open;
    } else {
      var m := slots[loaded - 1];
      var rest := if m.connected then open - {m.sd} else open;
      assert slots[..loaded][..loaded - 1] == slots[..loaded - 1];
      forall f | f in rest ensures Held(slots, loaded - 1, f) {
        assert Held(slots, loaded, f);
        var i :| 0 <= i < loaded && slots[i].connected && slots[i].sd == f;
      }
      SocketCount(slots, loaded - 1, rest);
    }
  }
}
