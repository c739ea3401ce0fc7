/** A run after which three periods are not enough. A supervisor is started again
    from its backup while modules "a" and "b" still run; a reload drops "a" and changes
    the path of "b"; both ignore SIGINT. If all modules are then to be stopped, but the
    flag is set only four periods later, the service thread never ends. */
module Witness {
  import opened Model
  import opened Kernel
  import opened Service
  import opened Invariants
  import opened Document
  import opened Reload
  import opened ReloadEffect
  import opened ReloadTheorem
  import opened ReloadKeeps
  import opened Restart
  import opened Convergence
  import opened Settling
  import opened Skipping
  import opened Deadline
  import opened Removal
  import opened Backup
  import opened RoundTrip
  import opened Numbers
  import opened Runs
  import opened Samples
  import opened Termination
  import opened StopAll
  import Commands

  // ----- The run -----

  const Busy := Proc(Alive, false, false, "")

  /** At start-up both processes are there. */
  const BothBusy: map<int, Proc> := map[4 := Busy, 9 := Busy]

  /** The modules at start-up. */
  function Both(a: Content, b: Content, path: Content): seq<Module> {
    [Sample(a, path, 4), Sample(b, path, 9)]
  }

  lemma FirstDoc(a: Content, b: Content, path: Content) returns (doc: Option<Node>)
    requires a != b
    ensures ValidDoc(doc) && ProfilesIn(doc.value.kids) == [Everything] && DistinctPids(Entries(doc.value.kids))
    ensures Matching(Entries(doc.value.kids), Both(a, b, path))
  {
    var ms := Both(a, b, path);
    doc := SampleDoc(ms);
    SamplePids(Entries(doc.value.kids), ms);
  }

  lemma SamplePids(ds: seq<Entry>, ms: seq<Module>)
    requires Matching(ds, ms) && |ms| == 2 && ms[0].pid != ms[1].pid
    ensures DistinctPids(ds)
  {
    assert Match(ds[0], ms[0]) && Match(ds[1], ms[1]);
    PrintedInt(ms[0].pid);
    PrintedInt(ms[1].pid);
  }

  /** The slots hold modules a and b with these PIDs, as the first load leaves them. */
  predicate HoldsBoth(st: State, a: Content, b: Content, path: Content) {
    && st.loaded == 2 <= |st.slots|
    && st.slots[0].name == a && st.slots[0].pid == 4
    && st.slots[1].name == b && st.slots[1].pid == 9 && st.slots[1].path == Some(path) && st.slots[1].running
  }

  lemma FirstLoad(boot: State, a: Content, b: Content, path: Content) returns (doc: Option<Node>, s: State)
    requires boot == FirstState(BothBusy) && a != b
    ensures Boots(boot, doc) && s == Reloaded(boot, doc, true) && Good(s) && HoldsBoth(s, a, b, path) && s.os == BothBusy
  {
    doc := FirstDoc(a, b, path);
    assert Fresh(boot) by { FirstFresh(BothBusy); }
    s := Reloaded(boot, doc, true);
    assert Good(s) by { var r := Reachable(boot, doc, []); }
    BothLoaded(boot, doc, a, b, path);
  }

  lemma BothLoaded(boot: State, doc: Option<Node>, a: Content, b: Content, path: Content)
    requires Fresh(boot) && ValidDoc(doc) && Matching(Entries(doc.value.kids), Both(a, b, path))
    ensures HoldsBoth(Reloaded(boot, doc, true), a, b, path)
  {
    var ds, s := LoadedSamples(boot, doc, Both(a, b, path));
    SavedBoth(boot, ds, s, a, b, path);
  }

  lemma LoadedSamples(boot: State, doc: Option<Node>, ms: seq<Module>) returns (ds: seq<Entry>, s: State)
    requires Fresh(boot) && ValidDoc(doc) && Matching(Entries(doc.value.kids), ms)
    requires forall i :: 0 <= i < |ms| ==> StoredModule(ms[i])
    ensures s == Reloaded(boot, doc, true) && Boot(boot, ds, s)
    ensures s.loaded == |ms| <= |s.slots| && forall i :: 0 <= i < |ms| ==> SameSaved(ms[i], s.slots[i])
  {
    ds, s := Entries(doc.value.kids), Reloaded(boot, doc, true);
    LoadedBack(boot, doc, ms);
    ReloadStarts(boot, doc);
  }

  lemma SavedBoth(boot: State, ds: seq<Entry>, s: State, a: Content, b: Content, path: Content)
    requires Boot(boot, ds, s) && boot.loaded == 0 && s.loaded == 2
    requires forall i :: 0 <= i < 2 ==> SameSaved(Both(a, b, path)[i], s.slots[i])
    ensures HoldsBoth(s, a, b, path)
  {
    var ms := Both(a, b, path);
    assert SameSaved(ms[0], s.slots[0]) && SameSaved(ms[1], s.slots[1]);
    RunningLoaded(boot, ds, s, 1);
  }

  lemma RunningLoaded(boot: State, ds: seq<Entry>, s: State, i: nat)
    requires AddedRows(boot, ds, true, s) && boot.loaded <= i < s.loaded
    ensures s.slots[i].running == (s.slots[i].pid > 0)
  {
    var d := NewEntries(boot, ds)[i - boot.loaded];
    assert NewAt(boot, d, ds, true, i, s.slots[i]);
  }

  /** Module a is flagged, b behind it waits, and nothing else does either. */
  predicate FlaggedBoth(st: State) {
    && 2 <= st.loaded <= |st.slots|
    && st.slots[0].remove && !st.slots[0].enabled && st.slots[0].pid == 4
    && Waits(st.slots[1]) && st.slots[1].profile == Some(0) && st.slots[1].pid == 9
    && forall i :: 2 <= i < st.loaded ==> !st.slots[i].remove && !st.slots[i].init
  }

  lemma SecondLoad(st: State, a: Content, b: Content, path: Content, path': Content) returns (doc: Option<Node>, r: State)
    requires Good(st) && HoldsBoth(st, a, b, path) && a != b && path != path'
    ensures r == Reloaded(st, doc, false) && Good(r) && FlaggedBoth(r) && r.os == st.os && r.profiles == [Everything]
  {
    var m := Sample(b, path', 0);
    doc := SecondDoc(m);
    var ds;
    ds, r := RefinedLoad(st, doc);
    BothReloaded(st, ds, m, r, a, b, path, path');
  }

  lemma RefinedLoad(st: State, doc: Option<Node>) returns (ds: seq<Entry>, r: State)
    requires Good(st) && ValidDoc(doc)
    ensures ds == Entries(doc.value.kids) && r == Reloaded(st, doc, false) && Good(r) && Refines(st, ds, r)
    ensures r.os == st.os && r.profiles == ProfilesIn(doc.value.kids)
  {
    ds, r := Entries(doc.value.kids), Reloaded(st, doc, false);
    assert Good(r) by { NextKeeps(st, Reloading(doc)); }
    assert Refines(st, ds, r) by { ReloadRefines(st, doc); }
  }

  lemma SecondDoc(m: Module) returns (doc: Option<Node>)
    requires m.profile == Some(0) && m.name != "" && m.path.Some? && m.ifces == []
    ensures ValidDoc(doc) && Matching(Entries(doc.value.kids), [m]) && ProfilesIn(doc.value.kids) == [Everything]
  {
    doc := SampleDoc([m]);
  }

  lemma BothReloaded(st: State, ds: seq<Entry>, m: Module, r: State, a: Content, b: Content, path: Content, path': Content)
    requires HoldsBoth(st, a, b, path) && a != b && path != path'
    requires Refines(st, ds, r) && m == Sample(b, path', 0) && Matching(ds, [m])
    ensures FlaggedBoth(r)
  {
    assert ds[0].node == ModuleNode(m) && ds[0].profile == 0 by { assert Match(ds[0], [m][0]); }
    assert Says(m, ModuleKids(m)) by { ReadModule(m); }
    OnlyMentions(ds, a, b);
    FirstFlagged(st, ds, r);
    SecondWaits(st, ds, m, r, path, path');
    forall i | 2 <= i < r.loaded ensures !r.slots[i].remove && !r.slots[i].init {
      var d := NewOf(st, ds, r, i);
    }
  }

  lemma OnlyMentions(ds: seq<Entry>, a: Content, b: Content)
    requires a != b && |ds| == 1 && NameOf(ds[0].node) == b
    ensures !Mentions(ds, a)
  {}

  lemma FirstFlagged(st: State, ds: seq<Entry>, r: State)
    requires Refines(st, ds, r) && st.loaded == 2 && !Mentions(ds, st.slots[0].name)
    ensures r.slots[0].remove && !r.slots[0].enabled && r.slots[0].pid == st.slots[0].pid
  {
    MissingOf(st, ds, r, 0);
  }

  lemma SecondWaits(st: State, ds: seq<Entry>, m: Module, r: State, path: Content, path': Content)
    requires Refines(st, ds, r) && st.loaded == 2 && st.slots[1].path == Some(path) && st.slots[1].pid == 9 && st.slots[1].running
    requires |ds| == 1 && ds[0].node == ModuleNode(m) && ds[0].profile == 0 && NameOf(ds[0].node) == st.slots[1].name
    requires Says(m, ModuleKids(m)) && m.path == Some(path') && m.enabled && path != path'
    ensures Waits(r.slots[1]) && r.slots[1].profile == Some(0) && r.slots[1].pid == 9
  {
    KnownOf(st, ds, r, 1, 0);
    assert Changed(ds[0].node.kids, st.slots[1]);
  }

  /** The run up to the reload. */
  lemma Beginning(a: Content, b: Content, path: Content, path': Content)
      returns (boot: State, doc: Option<Node>, steps: seq<Step>, st: State)
    requires a != b && path != path'
    ensures Boots(boot, doc) && st == Run(Reloaded(boot, doc, true), steps)
    ensures Good(st) && FlaggedBoth(st) && st.os == BothBusy && st.profiles == [Everything]
  {
    boot := FirstState(BothBusy);
    var s, change;
    doc, s := FirstLoad(boot, a, b, path);
    change, st := SecondLoad(s, a, b, path, path');
    steps := [Reloading(change)];
    OneStep(s, change);
  }

  /** The whole run from the start of the supervisor, for any two names and paths: after the reload, three periods in
      which nothing else happens leave b down. */
  lemma ThreeTooFew(a: Content, b: Content, path: Content, path': Content)
      returns (boot: State, doc: Option<Node>, steps: seq<Step>, env: nat -> nat -> Env)
    requires a != b && path != path'
    ensures Boots(boot, doc)
    ensures var st := Run(Reloaded(boot, doc, true), steps);
            Good(st) && ProfilelessOff(st) && CalmRun(st, 3, env) && Stubborn(st, env(3)) && !AllAsked(st, Periods(st, 3, env))
  {
    var st;
    boot, doc, steps, st := Beginning(a, b, path, path');
    env := CalmRunExists(st, 3);
    BetaStays(st, env);
  }

  lemma OneStep(s: State, doc: Option<Node>)
    requires Shaped(s)
    ensures Run(s, [Reloading(doc)]) == Reloaded(s, doc, false)
  {
    var r := Reloaded(s, doc, false);
    assert Run(r, [Reloading(doc)][1..]) == r;
  }

  lemma BetaStays(st: State, env: nat -> nat -> Env)
    requires Good(st) && FlaggedBoth(st) && st.os == BothBusy && st.profiles == [Everything] && CalmRun(st, 3, env) && Quiet(env)
    ensures ProfilelessOff(st) && Stubborn(st, env(3)) && !AllAsked(st, Periods(st, 3, env))
  {
    BothStubborn(st, env(3));
    ThreeExactly(st, env);
    assert Waits(st.slots[1]) && ProfileEnabled(st.profiles, st.slots[1]) && Ahead(Loaded(st), 1) % 2 == 1;
  }

  lemma BothStubborn(st: State, e: nat -> Env)
    requires Inv(st) && FlaggedBoth(st) && st.os == BothBusy && forall k: nat, x: nat :: e(k).dying(x) == {}
    ensures ProfilelessOff(st) && Stubborn(st, e) && Ahead(Loaded(st), 1) == 1
  {
    assert forall i :: 0 <= i < st.loaded ==> SlotOk(st.slots[i], |st.profiles|);
    assert Ahead(Loaded(st), 0) == 0;
  }

  // ----- Stopping everything too slowly -----

  /** From the same state: everything is disabled, four periods pass, the flag is set. However many status checks
      follow, the loop does not end. */
  lemma StopAllHangs(a: Content, b: Content, path: Content, path': Content)
      returns (boot: State, doc: Option<Node>, steps: seq<Step>, env: nat -> nat -> Env)
    requires a != b && path != path'
    ensures Boots(boot, doc)
    ensures var st := Run(Reloaded(boot, doc, true), steps);
            var s := Commands.Perform(Commands.StopAll, st);
            && Good(st) && CalmRun(s, 4, env)
            && Hangs(Periods(s, 4, env))
  {
    var st;
    boot, doc, steps, st := Beginning(a, b, path, path');
    env := BetaHangs(st);
  }

  lemma BetaHangs(st: State) returns (env: nat -> nat -> Env)
    requires Good(st) && FlaggedBoth(st) && st.os == BothBusy && st.profiles == [Everything]
    ensures var s := Commands.Perform(Commands.StopAll, st);
            CalmRun(s, 4, env) && Hangs(Periods(s, 4, env))
  {
    var s := Commands.Perform(Commands.StopAll, st);
    StoppedBoth(st, s);
    env := CalmRunExists(s, 4);
    BothStubborn(s, env(4));
    assert Ahead(Loaded(st), 1) == 1 by { assert Ahead(Loaded(st), 0) == 0; }
    EndNoEperm(s, 4, env);
    HangsAfter(st, s, env, Periods(s, 4, env));
  }

  lemma HangsAfter(st: State, s: State, env: nat -> nat -> Env, q: State)
    requires Good(st) && FlaggedBoth(st) && st.profiles == [Everything] && Ahead(Loaded(st), 1) == 1
    requires s == Commands.Perform(Commands.StopAll, st) && CalmRun(s, 4, env) && Stubborn(s, env(4))
    requires q == Periods(s, 4, env) && NoEperm(q.os)
    ensures Hangs(q)
  {
    forall n: nat ensures HangsFor(q, n) {
      var some := CalmRunExists(q, n);
      forall env' | n > 0 && CalmRun(q, n, env') ensures !QuitsWithin(q, n, env') {
        BetaBack(st, n, env, env');
      }
    }
  }

  /** Disabling everything leaves the two modules as they are. */
  lemma StoppedBoth(st: State, s: State)
    requires Good(st) && FlaggedBoth(st) && s == Commands.Perform(Commands.StopAll, st)
    ensures Inv(s) && FlaggedBoth(s) && s.os == st.os && s.profiles == st.profiles
  {
    Disabling(st);
  }

  lemma BetaBack(st: State, n: nat, env: nat -> nat -> Env, env': nat -> nat -> Env)
    requires Good(st) && FlaggedBoth(st) && st.profiles == [Everything] && Ahead(Loaded(st), 1) == 1
    requires CalmStop(st, 4, env, n, env') && Stubborn(Commands.Perform(Commands.StopAll, st), env(4))
    ensures !QuitsWithin(Periods(Commands.Perform(Commands.StopAll, st), 4, env), n, env')
  {
    StubbornStops(st, 4, env, n, env');
    assert Restartable(st.profiles, st.slots[1]) && Skips(1) == 1 by { assert Skips(0) == 0; }
  }

  lemma {:induction false} EndNoEperm(st: State, n: nat, env: nat -> nat -> Env)
    requires Sized(st) && CalmRun(st, n, env) && NoEperm(st.os)
    ensures NoEperm(Periods(st, n, env).os)
    decreases n
  {
    if n > 0 {
      StageNoEperm(st, LOOPS, env(n));
      EndNoEperm(Period(st, env(n)), n - 1, env);
    }
  }
}
