/** The pass that removes flagged modules while it scans the table. Removing a
    slot shifts its neighbour into the place just visited, so the neighbour is
    skipped until the next period. */
module Removal {
  import opened Model
  import opened Kernel
  import opened Service

  /** The pass on a list: a removed module takes its successor's visit with it. */
  function Swept(ms: seq<Module>): seq<Module> {
    if ms == [] then []
    else if !Removable(ms[0]) then [Served(ms[0])] + Swept(ms[1..])
    else if |ms| == 1 then []
    else [ms[1]] + Swept(ms[2..])
  }

  function Loaded(st: State): seq<Module>
    requires Sized(st)
  {
    st.slots[..st.loaded]
  }

  lemma ServeStep(st: State, x: nat, e: Env)
    requires x < st.loaded <= |st.slots|
    ensures var r := Slot(Serve, st, x, e);
            if Removable(st.slots[x]) then r.loaded == st.loaded - 1 && r.slots == Removed(st.slots, st.loaded, x)
            else r.loaded == st.loaded && r.slots == st.slots[x := Served(st.slots[x])]
  {}

  /** What is in place after one visit, and what is still ahead. */
  lemma VisitSplits(slots: seq<Module>, loaded: nat, x: nat)
    requires x < loaded <= |slots|
    ensures var r := slots[x := Served(slots[x])];
            r[..x + 1] == slots[..x] + [Served(slots[x])] && r[x + 1..loaded] == slots[x..loaded][1..]
    ensures x + 1 < loaded ==>
              var r := Removed(slots, loaded, x);
              r[..x + 1] == slots[..x] + [slots[x + 1]] && r[x + 1..loaded - 1] == slots[x..loaded][2..]
    ensures Removed(slots, loaded, x)[..x] == slots[..x]
  {}

  /** One visit of the list function. */
  lemma SweptStep(done: seq<Module>, todo: seq<Module>, done': seq<Module>, todo': seq<Module>)
    requires todo != []
    requires if Removable(todo[0]) then |todo| > 1 && done' == done + [todo[1]] && todo' == todo[2..]
             else done' == done + [Served(todo[0])] && todo' == todo[1..]
    ensures done' + Swept(todo') == done + Swept(todo)
  {}

  /** The in-place pass with its shifting array is the list function. */
  lemma {:induction false} ServePass(st: State, x: nat, e: Env)
    requires Sized(st) && x <= st.loaded
    ensures Loaded(Pass(Serve, st, x, e)) == st.slots[..x] + Swept(st.slots[x..st.loaded])
    decreases st.loaded - x
  {
    if x < st.loaded {
      var r := Slot(Serve, st, x, e);
      var todo := st.slots[x..st.loaded];
      ServeStep(st, x, e);
      VisitSplits(st.slots, st.loaded, x);
      if x + 1 <= r.loaded {
        ServePass(r, x + 1, e);
        SweptStep(st.slots[..x], todo, r.slots[..x + 1], r.slots[x + 1..r.loaded]);
      }
    }
  }

  function Backlog(ms: seq<Module>): nat {
    if ms == [] then 0 else (if Removable(ms[0]) then 1 else 0) + Backlog(ms[1..])
  }

  /** What is left after a pass of the modules that were waiting to be removed: at most half. */
  lemma {:induction false} BacklogHalves(ms: seq<Module>)
    ensures Backlog(Swept(ms)) <= Backlog(ms) / 2
  {
    if ms != [] {
      var s := Swept(ms);
      if !Removable(ms[0]) {
        BacklogHalves(ms[1..]);
        assert s[1..] == Swept(ms[1..]);
      } else if |ms| > 1 {
        BacklogHalves(ms[2..]);
        assert s[1..] == Swept(ms[2..]);
        assert ms[1..][1..] == ms[2..];
      }
    }
  }

  /** The modules that are not removed. */
  function Kept(ms: seq<Module>): seq<Module> {
    if ms == [] then [] else (if Removable(ms[0]) then [] else [ms[0]]) + Kept(ms[1..])
  }

  /** a and b list the same modules in the same order, each left alone or served once. */
  ghost predicate ServedInOrder(a: seq<Module>, b: seq<Module>) {
    |a| == |b| && forall i :: 0 <= i < |a| ==> b[i] == a[i] || b[i] == Served(a[i])
  }

  /** Everything else survives, in order. */
  lemma {:induction false} SurvivorsKept(ms: seq<Module>)
    ensures ServedInOrder(Kept(ms), Kept(Swept(ms)))
  {
    if ms != [] {
      var s := Swept(ms);
      if !Removable(ms[0]) {
        SurvivorsKept(ms[1..]);
        assert s[1..] == Swept(ms[1..]) && Kept(s) == [Served(ms[0])] + Kept(s[1..]);
      } else if |ms| > 1 {
        SurvivorsKept(ms[2..]);
        assert s[1..] == Swept(ms[2..]) && ms[1..][1..] == ms[2..];
        assert Kept(ms) == (if Removable(ms[1]) then [] else [ms[1]]) + Kept(ms[2..]);
      }
    }
  }

  /** The removal pass on the table: at most half of the backlog is left, and the other modules are there in their order. */
  lemma RemovalPass(st: State, e: Env)
    requires Sized(st)
    ensures var r := Pass(Serve, st, 0, e);
            Backlog(Loaded(r)) <= Backlog(Loaded(st)) / 2 && ServedInOrder(Kept(Loaded(st)), Kept(Loaded(r)))
  {
    ServePass(st, 0, e);
    assert st.slots[0..st.loaded] == Loaded(st) && st.slots[..0] + Swept(Loaded(st)) == Swept(Loaded(st));
    BacklogHalves(Loaded(st));
    SurvivorsKept(Loaded(st));
  }

  /** Where a slot of the result comes from. */
  lemma {:induction false} SweptFrom(ms: seq<Module>, i: nat) returns (j: nat)
    requires i < |Swept(ms)|
    ensures j < |ms| && (Swept(ms)[i] == ms[j] || Swept(ms)[i] == Served(ms[j]))
    ensures Backlog(ms) == 0 ==> j == i && Swept(ms)[i] == Served(ms[i])
  {
    if !Removable(ms[0]) {
      if i == 0 {
        j := 0;
      } else {
        var k := SweptFrom(ms[1..], i - 1);
        j := k + 1;
      }
    } else if i == 0 {
      j := 1;
    } else {
      var k := SweptFrom(ms[2..], i - 1);
      j := k + 2;
    }
  }

  /** Where a module that is not removed ends up. */
  lemma {:induction false} SweptTo(ms: seq<Module>, j: nat) returns (i: nat)
    requires j < |ms| && !Removable(ms[j])
    ensures i < |Swept(ms)| && (Swept(ms)[i] == ms[j] || Swept(ms)[i] == Served(ms[j]))
  {
    if !Removable(ms[0]) {
      if j == 0 {
        i := 0;
      } else {
        var k := SweptTo(ms[1..], j - 1);
        i := k + 1;
      }
    } else if j == 1 {
      i := 0;
    } else {
      var k := SweptTo(ms[2..], j - 2);
      i := k + 1;
    }
  }

  /** How many modules a reload has flagged for removal. */
  function Flagged(ms: seq<Module>): nat {
    if ms == [] then 0 else (if ms[0].remove then 1 else 0) + Flagged(ms[1..])
  }

  lemma {:induction false} FlaggedSame(a: seq<Module>, b: seq<Module>)
    requires |a| == |b| && forall i :: 0 <= i < |a| ==> a[i].remove == b[i].remove
    ensures Flagged(a) == Flagged(b)
  {
    if a != [] {
      FlaggedSame(a[1..], b[1..]);
    }
  }

  lemma {:induction false} FlaggedSwept(ms: seq<Module>)
    ensures Flagged(Swept(ms)) <= Flagged(ms)
  {
    if ms != [] {
      var s := Swept(ms);
      if !Removable(ms[0]) {
        FlaggedSwept(ms[1..]);
        assert s[1..] == Swept(ms[1..]);
      } else if |ms| > 1 {
        FlaggedSwept(ms[2..]);
        assert s[1..] == Swept(ms[2..]) && ms[1..][1..] == ms[2..];
      }
    }
  }

  lemma {:induction false} FlaggedBacklog(ms: seq<Module>)
    requires forall i :: 0 <= i < |ms| && ms[i].remove ==> Removable(ms[i])
    ensures Flagged(ms) == Backlog(ms)
  {
    if ms != [] {
      FlaggedBacklog(ms[1..]);
    }
  }

  /** Once every flagged module is down, a pass halves their number. */
  lemma FlaggedHalves(ms: seq<Module>)
    requires forall i :: 0 <= i < |ms| && ms[i].remove ==> Removable(ms[i])
    ensures Flagged(Swept(ms)) <= Flagged(ms) / 2
  {
    FlaggedBacklog(ms);
    BacklogHalves(ms);
    forall i | 0 <= i < |Swept(ms)| && Swept(ms)[i].remove ensures Removable(Swept(ms)[i]) {
      var j := SweptFrom(ms, i);
    }
    FlaggedBacklog(Swept(ms));
  }

  lemma {:induction false} NoneFlagged(ms: seq<Module>, i: nat)
    requires Flagged(ms) == 0 && i < |ms|
    ensures !ms[i].remove
  {
    if i > 0 {
      NoneFlagged(ms[1..], i - 1);
    }
  }
}
