/** The next start of the supervisor, from the backup the last run left behind. */
module NextStart {
  import opened Model
  import opened Kernel
  import opened Service
  import opened Invariants
  import opened Document
  import opened Numbers
  import opened Reload
  import opened ReloadEffect
  import opened ReloadKeeps
  import opened Tracking
  import opened Restart
  import opened Backup
  import opened RoundTrip
  import opened Runs
  import Convergence

  /** Every state a run can reach can be written. */
  lemma GoodStorable(st: State)
    requires Good(st)
    ensures Storable(st)
  {
    forall i | 0 <= i < st.loaded ensures StoredModule(st.slots[i]) {
      assert SlotOk(st.slots[i], |st.profiles|) && RoomyModule(st.slots[i]);
    }
  }

  lemma MatchPids(ds: seq<Entry>, ms: seq<Module>)
    requires Matching(ds, ms) && forall i, j :: 0 <= i < j < |ms| && ms[i].pid > 0 ==> ms[i].pid != ms[j].pid
    ensures DistinctPids(ds)
  {
    forall i | 0 <= i < |ds| ensures PidOf(ds[i]) == ms[i].pid {
      assert Match(ds[i], ms[i]);
      PrintedInt(ms[i].pid);
    }
  }

  lemma SavedPids(st: State)
    requires Good(st) && Storable(st)
    ensures forall i, j :: 0 <= i < j < |Saved(st, |st.profiles|)| && Saved(st, |st.profiles|)[i].pid > 0 ==>
              Saved(st, |st.profiles|)[i].pid != Saved(st, |st.profiles|)[j].pid
  {
    var ms := Saved(st, |st.profiles|);
    SavedAre(st, |st.profiles|);
    SavedUnique(st, |st.profiles|);
    forall i, j | 0 <= i < j < |ms| && ms[i].pid > 0 ensures ms[i].pid != ms[j].pid {
      var x, y := ms[i], ms[j];
      assert x in ms && y in ms && x.name != y.name;
      var a :| 0 <= a < st.loaded && st.slots[..st.loaded][a] == x;
      var b :| 0 <= b < st.loaded && st.slots[..st.loaded][b] == y;
      assert st.slots[a] == x && st.slots[b] == y && a != b;
      assert Distinct(st.slots, st.loaded);
    }
  }

  /** A supervisor that loads the backup of any run starts a run of its own: all that is proved of runs
      holds again, with the processes that are still alive. */
  lemma BackupBoots(st: State, boot: State)
    requires Good(st) && Fresh(boot)
    ensures Boots(boot, Some(Written(st)))
  {
    GoodStorable(st);
    EntriesBack(st);
    SavedPids(st);
    MatchPids(Entries(ProfileNodes(st)), Saved(st, |st.profiles|));
  }

  /** A module whose process lives when the first status check of a period looks at it is not started in that period. */
  lemma AliveNotStarted(st: State, e: nat -> Env, i: nat)
    requires Good(st) && i < st.loaded && st.slots[i].pid > 0
    requires st.slots[i].pid in st.os && st.os[st.slots[i].pid].phase.Alive?
    requires forall y: nat :: y <= i ==> st.slots[i].pid !in e(0).dying(y)
    ensures Starts(Period(st, e).trace, st.slots[i].name) == Starts(st.trace, st.slots[i].name)
  {
    PeriodStarts(st, e, i);
    Unrolled(st, e);
    CheckSeesLife(st, e(0), i);
  }

  lemma CheckSeesLife(st: State, e: Env, i: nat)
    requires Sized(st) && i < st.loaded && st.slots[i].pid > 0
    requires st.slots[i].pid in st.os && st.os[st.slots[i].pid].phase.Alive?
    requires forall y: nat :: y <= i ==> st.slots[i].pid !in e.dying(y)
    ensures Pass(Check, st, 0, e).slots[i].status
  {
    var mid := PassAt(Check, st, e, i);
    ReachingAlive(st, 0, e, i, st.slots[i].pid);
  }

  lemma {:induction false} ReachingAlive(st: State, x: nat, e: Env, i: nat, p: int)
    requires Sized(st) && x <= i < st.loaded && p in st.os && st.os[p].phase.Alive?
    requires forall y: nat :: y <= i ==> p !in e.dying(y)
    ensures p in Reaching(Check, st, x, e, i).os && Reaching(Check, st, x, e, i).os[p].phase.Alive?
    decreases i - x
  {
    if x < i {
      Convergence.SlotUp(Check, st, x, e, p);
      ReachingAlive(Slot(Check, st, x, e), x + 1, e, i, p);
    }
  }

  /** The next start: the supervisor loads the backup of any run, and its first period starts no module whose process
      is still alive when the first status check looks at it. */
  lemma NextStartKeeps(st: State, boot: State, e: nat -> Env, i: nat)
    requires Good(st) && Fresh(boot) && st.profiles != [] && AllAttributed(Saved(st, |st.profiles|))
    requires i < |Saved(st, |st.profiles|)| && Saved(st, |st.profiles|)[i].pid > 0
    requires var p := Saved(st, |st.profiles|)[i].pid;
             p in boot.os && boot.os[p].phase.Alive? && forall y: nat :: y <= i ==> p !in e(0).dying(y)
    ensures var r := Reloaded(boot, Some(Written(st)), true);
            Sized(r) && Starts(Period(r, e).trace, Saved(st, |st.profiles|)[i].name) == 0
  {
    GoodStorable(st);
    BackupBoots(st, boot);
    BackupRoundTrip(st, boot);
    var r := Reloaded(boot, Some(Written(st)), true);
    assert Good(r) by { var s := Reachable(boot, Some(Written(st)), []); }
    assert SameSaved(Saved(st, |st.profiles|)[i], r.slots[i]);
    AliveNotStarted(r, e, i);
  }
}
