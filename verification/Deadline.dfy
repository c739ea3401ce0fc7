/** Exactly when n undisturbed periods are enough: what is left to wait for is
    only a module that the removal pass passes over. */
module Deadline {
  import opened Model
  import opened Kernel
  import opened Service
  import opened Invariants
  import opened Removal
  import opened Restart
  import opened Convergence
  import opened Settling
  import opened Skipping

  /** Slot i of r holds the module of slot j of st and runs as asked. A module that waits to be restarted runs if
      its profile is enabled; any other as AsAsked says. */
  ghost predicate Asked(st: State, r: State, j: nat, i: nat)
    requires Sized(st) && Sized(r)
  {
    if j < st.loaded && Waits(st.slots[j]) then UpIff(st, r, j, i, ProfileEnabled(st.profiles, st.slots[j]))
    else AsAsked(st, r, j, i)
  }

  ghost predicate AllAsked(st: State, r: State)
    requires Sized(st) && Sized(r)
  {
    forall j: nat :: j < st.loaded && !st.slots[j].remove ==> exists i: nat :: Asked(st, r, j, i)
  }

  /** Every module that waits and should come back is up after n periods, if `lag` periods go by without a skip. */
  ghost predicate InTime(st: State, n: nat, lag: nat)
    requires Sized(st)
  {
    forall j :: 0 <= j < st.loaded && Waits(st.slots[j]) && ProfileEnabled(st.profiles, st.slots[j])
      ==> n >= lag + Skips(Ahead(Loaded(st), j))
  }

  // ----- Modules that are wanted -----

  /** A wanted module after a period: up, or disabled at its limit, or (if it was found dead) down and wanted. */
  lemma WantedStep(st: State, e: nat -> Env, j: nat) returns (i: nat)
    requires Inv(st) && Unreaped(st) && Calm(st, e) && ProfilelessOff(st) && j < st.loaded && Wanted(st.profiles, st.slots[j])
    ensures var r := Period(st, e);
            && i < r.loaded && r.slots[i].name == st.slots[j].name
            && (|| Serving(r.profiles, r.slots[i], r.os) || AutoDisabledSince(st.trace, r.trace, st.slots[j].name)
                || (!Dead(st.slots[j], st.os) && Wanted(r.profiles, r.slots[i]) && r.slots[i].pid <= 0))
  {
    var s1, s2, s7, s8, r := FindLandmarks(st, e);
    assert SlotOk(st.slots[j], |st.profiles|);
    i := Followed(st, e, j, s1, s2, s7, s8, r);
    if !s7.slots[j].enabled {
      Switches7(st, e, j, s1, s2, s7, s8, r);
    } else if Dead(st.slots[j], st.os) {
      DownBefore(st, e, j, s1, s2, s7, s8, r);
    }
  }

  lemma WantedNext(ss: seq<State>, env: nat -> nat -> Env, j: nat) returns (k: nat)
    requires Path(ss, env) && |ss| > 1 && Sized(ss[0]) && j < ss[0].loaded && Wanted(ss[0].profiles, ss[0].slots[j])
    ensures var s, r := ss[0], ss[1];
            && Sized(r) && k < r.loaded && r.slots[k].name == s.slots[j].name
            && (|| Serving(r.profiles, r.slots[k], r.os) || AutoDisabledSince(s.trace, r.trace, s.slots[j].name)
                || (!Dead(s.slots[j], s.os) && Wanted(r.profiles, r.slots[k]) && r.slots[k].pid <= 0))
  {
    assert Visit(0);
    k := WantedStep(ss[0], env(|ss| - 1), j);
  }

  /** A wanted module is up after two periods, or one if it was down, unless it was disabled at its limit. */
  lemma {:induction false} WantedPath(ss: seq<State>, env: nat -> nat -> Env, j: nat) returns (i: nat)
    requires Path(ss, env) && Sized(ss[0]) && j < ss[0].loaded && Wanted(ss[0].profiles, ss[0].slots[j])
    requires |ss| > (if Dead(ss[0].slots[j], ss[0].os) then 1 else 2)
    ensures Sized(End(ss)) && AsAsked(ss[0], End(ss), j, i)
  {
    PathStep(ss, env);
    assert ss[1].trace <= End(ss).trace by { PathTrace(ss[1..], env); }
    var k := WantedNext(ss, env, j);
    if AutoDisabledSince(ss[0].trace, ss[1].trace, ss[0].slots[j].name) {
      SinceLater(ss[0].trace, ss[0].trace, ss[1].trace, End(ss).trace, ss[0].slots[j].name);
      assert SlotOk(ss[0].slots[j], |ss[0].profiles|);
      i := SurvivesPath(ss, env, j);
    } else if Serving(ss[1].profiles, ss[1].slots[k], ss[1].os) {
      i := UpPath(ss[1..], env, k);
    } else {
      i := WantedPath(ss[1..], env, k);
      LaterAsked(ss[0], ss[1], End(ss), j, k, i);
    }
  }

  lemma LaterAsked(st: State, s: State, r: State, j: nat, k: nat, i: nat)
    requires Sized(st) && Sized(s) && Sized(r) && st.trace <= s.trace <= r.trace && j < st.loaded && k < s.loaded
    requires Wanted(st.profiles, st.slots[j]) && Wanted(s.profiles, s.slots[k]) && s.slots[k].name == st.slots[j].name
    requires AsAsked(s, r, k, i)
    ensures AsAsked(st, r, j, i)
  {
    if AutoDisabledSince(s.trace, r.trace, st.slots[j].name) {
      SinceLater(st.trace, s.trace, r.trace, r.trace, st.slots[j].name);
    }
  }

  // ----- Modules that should be down -----

  /** A module that is not asked for, or whose profile is off, is down. */
  lemma OffPath(ss: seq<State>, env: nat -> nat -> Env, j: nat) returns (i: nat)
    requires Path(ss, env) && |ss| > 1 && Sized(ss[0]) && j < ss[0].loaded && !ss[0].slots[j].remove
    requires !(ProfileEnabled(ss[0].profiles, ss[0].slots[j]) && Intent(ss[0].slots[j]))
    ensures Sized(End(ss)) && Asked(ss[0], End(ss), j, i)
  {
    i := SurvivesPath(ss, env, j);
    PathTrace(ss, env);
  }

  // ----- All modules -----

  /** All modules but those that wait for a restart run as asked after two periods. */
  lemma OthersAsked(ss: seq<State>, env: nat -> nat -> Env, j: nat) returns (i: nat)
    requires Path(ss, env) && |ss| > 2 && Sized(ss[0]) && j < ss[0].loaded && !ss[0].slots[j].remove
    requires !(Waits(ss[0].slots[j]) && ProfileEnabled(ss[0].profiles, ss[0].slots[j]))
    ensures Sized(End(ss)) && Asked(ss[0], End(ss), j, i)
  {
    if Wanted(ss[0].profiles, ss[0].slots[j]) {
      i := WantedPath(ss, env, j);
    } else {
      i := OffPath(ss, env, j);
    }
  }

  /** Each waiting module is up in r exactly if it is due. */
  ghost predicate Decided(st: State, r: State, due: nat -> bool)
    requires Sized(st) && Sized(r)
  {
    forall j: nat :: j < st.loaded && Returns(st, j) ==> exists i: nat :: UpIff(st, r, j, i, due(j))
  }

  /** Slot j waits for its restart, and its profile is enabled. */
  predicate Returns(st: State, j: nat)
    requires j < |st.slots|
  {
    Waits(st.slots[j]) && ProfileEnabled(st.profiles, st.slots[j])
  }

  ghost predicate AllDue(st: State, due: nat -> bool)
    requires Sized(st)
  {
    forall j: nat :: j < st.loaded && Returns(st, j) ==> due(j)
  }

  /** What is known of each waiting module decides about all. */
  lemma AllFrom(ss: seq<State>, env: nat -> nat -> Env, due: nat -> bool)
    requires Path(ss, env) && |ss| > 2 && Sized(ss[0]) && Sized(End(ss)) && Decided(ss[0], End(ss), due)
    ensures AllAsked(ss[0], End(ss)) <==> AllDue(ss[0], due)
  {
    var st, r := ss[0], End(ss);
    if AllDue(st, due) {
      forall j: nat | j < st.loaded && !st.slots[j].remove ensures exists i: nat :: Asked(st, r, j, i) {
        if Returns(st, j) {
          var i: nat :| UpIff(st, r, j, i, due(j));
          assert Asked(st, r, j, i);
        } else {
          var i := OthersAsked(ss, env, j);
        }
      }
    }
    if AllAsked(st, r) {
      PathStep(ss, env);
      PathTrace(ss, env);
      AskedDue(st, r, due);
    }
  }

  lemma AskedDue(st: State, r: State, due: nat -> bool)
    requires Inv(st) && Table(r.slots, r.loaded) && Decided(st, r, due) && AllAsked(st, r)
    ensures AllDue(st, due)
  {
    forall j: nat | j < st.loaded && Returns(st, j) ensures due(j) {
      assert SlotOk(st.slots[j], |st.profiles|);
      var i: nat :| UpIff(st, r, j, i, due(j));
      var i': nat :| Asked(st, r, j, i');
      assert i == i';
    }
  }

  /** The periods a waiting module needs, if `lag` go by without a skip. */
  ghost function DueAfter(st: State, n: nat, lag: nat): nat -> bool
    requires Sized(st)
  {
    (j: nat) => j < st.loaded ==> n >= lag + Skips(Ahead(Loaded(st), j))
  }

  lemma DueIsInTime(st: State, n: nat, lag: nat)
    requires Sized(st)
    ensures AllDue(st, DueAfter(st, n, lag)) <==> InTime(st, n, lag)
  {
    var due := DueAfter(st, n, lag);
    assert forall j: nat :: j < st.loaded ==> (due(j) <==> n >= lag + Skips(Ahead(Loaded(st), j)));
  }

  /** Processes that end only by SIGKILL: n >= 2 periods are enough for every unflagged module exactly if each module
      that waits for its restart has few enough flagged ones directly before it. */
  lemma StubbornSettles(st: State, n: nat, env: nat -> nat -> Env)
    requires Inv(st) && Unreaped(st) && ProfilelessOff(st) && CalmRun(st, n, env) && n >= 2 && Stubborn(st, env(n))
    ensures AllAsked(st, Periods(st, n, env)) <==> InTime(st, n, 3)
  {
    var ss := MakePath(st, n, env);
    StubbornDecided(ss, env);
    AllFrom(ss, env, DueAfter(st, n, 3));
    DueIsInTime(st, n, 3);
  }

  lemma StubbornDecided(ss: seq<State>, env: nat -> nat -> Env)
    requires Path(ss, env) && |ss| > 1 && Sized(ss[0]) && Sized(End(ss)) && Stubborn(ss[0], env(|ss| - 1))
    ensures Decided(ss[0], End(ss), DueAfter(ss[0], |ss| - 1, 3))
  {
    var st, due := ss[0], DueAfter(ss[0], |ss| - 1, 3);
    forall j: nat | j < st.loaded && Returns(st, j) ensures exists i: nat :: UpIff(st, End(ss), j, i, due(j)) {
      var i := StubbornPath(ss, env, j);
      assert UpIff(st, End(ss), j, i, due(j));
    }
  }

  /** Processes that end at SIGINT: the same, one period earlier. */
  lemma PromptSettles(st: State, n: nat, env: nat -> nat -> Env)
    requires Inv(st) && Unreaped(st) && ProfilelessOff(st) && CalmRun(st, n, env) && n >= 2 && Prompt(st, env(n))
    ensures AllAsked(st, Periods(st, n, env)) <==> InTime(st, n, 2)
  {
    var ss := MakePath(st, n, env);
    PromptDecided(ss, env);
    AllFrom(ss, env, DueAfter(st, n, 2));
    DueIsInTime(st, n, 2);
  }

  lemma PromptDecided(ss: seq<State>, env: nat -> nat -> Env)
    requires Path(ss, env) && |ss| > 1 && Sized(ss[0]) && Sized(End(ss)) && Prompt(ss[0], env(|ss| - 1))
    ensures Decided(ss[0], End(ss), DueAfter(ss[0], |ss| - 1, 2))
  {
    var st, due := ss[0], DueAfter(ss[0], |ss| - 1, 2);
    forall j: nat | j < st.loaded && Returns(st, j) ensures exists i: nat :: UpIff(st, End(ss), j, i, due(j)) {
      var i := PromptPath(ss, env, j);
      assert UpIff(st, End(ss), j, i, due(j));
    }
  }

  lemma PromptPath(ss: seq<State>, env: nat -> nat -> Env, j: nat) returns (i: nat)
    requires Path(ss, env) && |ss| > 1 && Sized(ss[0]) && Prompt(ss[0], env(|ss| - 1)) && j < ss[0].loaded && Returns(ss[0], j)
    ensures Sized(End(ss)) && UpIff(ss[0], End(ss), j, i, |ss| > 2 + Skips(Ahead(Loaded(ss[0]), j)))
  {
    assert FirstClears(ss, env, j) by {
      assert Visit(0);
      PromptCleared(ss[0], env(|ss| - 1), j);
    }
    i := ClearedPath(ss, env, j);
  }

  /** The module of slot j of st, unless the period that ended in s has served it, has few enough flagged modules
      directly before it in s. */
  ghost predicate DueIn(st: State, s: State, n: nat, j: nat)
    requires Sized(st) && Sized(s)
  {
    j < st.loaded ==>
      forall k: nat :: k < s.loaded && s.slots[k].name == st.slots[j].name && Waits(s.slots[k]) ==>
        n >= 3 + Skips(Ahead(Loaded(s), k))
  }

  /** Every calm kernel, whatever ends the processes: the table after the first period tells whether n periods are enough. */
  lemma SettlesExactly(st: State, n: nat, env: nat -> nat -> Env)
    requires Inv(st) && Unreaped(st) && ProfilelessOff(st) && CalmRun(st, n, env) && n >= 2
    ensures AllAsked(st, Periods(st, n, env))
            <==> forall j: nat :: j < st.loaded && Returns(st, j) ==> DueIn(st, Period(st, env(n)), n, j)
  {
    var ss := MakePath(st, n, env);
    var s := Period(st, env(n));
    assert ss[1] == s by { assert Visit(0); }
    PathSettles(ss, env);
  }

  lemma PathSettles(ss: seq<State>, env: nat -> nat -> Env)
    requires Path(ss, env) && |ss| > 2 && Sized(ss[0]) && Sized(ss[1]) && Sized(End(ss))
    ensures AllAsked(ss[0], End(ss))
            <==> forall j: nat :: j < ss[0].loaded && Returns(ss[0], j) ==> DueIn(ss[0], ss[1], |ss| - 1, j)
  {
    var due := AnyDue(ss[0], ss[1], |ss| - 1);
    AnyDecided(ss, env);
    AllFrom(ss, env, due);
    assert forall j: nat :: due(j) <==> DueIn(ss[0], ss[1], |ss| - 1, j);
  }

  /** The periods a waiting module needs on any calm kernel, s being the state after the first. */
  ghost function AnyDue(st: State, s: State, n: nat): nat -> bool
    requires Sized(st) && Sized(s)
  {
    (j: nat) => n >= 2 && DueIn(st, s, n, j)
  }

  lemma AnyDecided(ss: seq<State>, env: nat -> nat -> Env)
    requires Path(ss, env) && |ss| > 1 && Sized(ss[0]) && Sized(ss[1]) && Sized(End(ss))
    ensures Decided(ss[0], End(ss), AnyDue(ss[0], ss[1], |ss| - 1))
  {
    var st, s, r, due := ss[0], ss[1], End(ss), AnyDue(ss[0], ss[1], |ss| - 1);
    assert Table(s.slots, s.loaded) by { PathStep(ss, env); }
    forall j: nat | j < st.loaded && Returns(st, j) ensures exists i: nat :: UpIff(st, r, j, i, due(j)) {
      var k, i := AnyPath(ss, env, j);
      DueAt(st, s, |ss| - 1, j, k);
      assert UpIff(st, r, j, i, due(j));
    }
  }

  lemma DueAt(st: State, s: State, n: nat, j: nat, k: nat)
    requires Sized(st) && Table(s.slots, s.loaded) && j < st.loaded && k < s.loaded && s.slots[k].name == st.slots[j].name
    ensures DueIn(st, s, n, j) <==> (Waits(s.slots[k]) ==> n >= 3 + Skips(Ahead(Loaded(s), k)))
  {}

  /** Three periods, the promise of the design: with SIGKILL an even number of flagged modules directly before each
      waiting one, with SIGINT any number but those that leave the remainder 3 when divided by 4. */
  lemma ThreeExactly(st: State, env: nat -> nat -> Env)
    requires Inv(st) && Unreaped(st) && ProfilelessOff(st) && CalmRun(st, 3, env)
    ensures Stubborn(st, env(3)) ==>
              (AllAsked(st, Periods(st, 3, env)) <==>
               forall j :: 0 <= j < st.loaded && Waits(st.slots[j]) && ProfileEnabled(st.profiles, st.slots[j])
                 ==> Ahead(Loaded(st), j) % 2 == 0)
    ensures Prompt(st, env(3)) ==>
              (AllAsked(st, Periods(st, 3, env)) <==>
               forall j :: 0 <= j < st.loaded && Waits(st.slots[j]) && ProfileEnabled(st.profiles, st.slots[j])
                 ==> Ahead(Loaded(st), j) % 4 != 3)
  {
    forall j | 0 <= j < st.loaded
      ensures 3 >= 3 + Skips(Ahead(Loaded(st), j)) <==> Ahead(Loaded(st), j) % 2 == 0
      ensures 3 >= 2 + Skips(Ahead(Loaded(st), j)) <==> Ahead(Loaded(st), j) % 4 != 3 {
      FewSkips(Ahead(Loaded(st), j));
    }
    if Stubborn(st, env(3)) {
      StubbornSettles(st, 3, env);
    }
    if Prompt(st, env(3)) {
      PromptSettles(st, 3, env);
    }
  }

  lemma FewSkips(k: nat)
    ensures Skips(k) == 0 <==> k % 2 == 0
    ensures Skips(k) <= 1 <==> k % 4 != 3
  {
    assert k % 2 == 1 ==> Skips(k) == 1 + Skips(k / 2);
  }
}
