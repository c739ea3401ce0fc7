/** Terminating with "stop all modules" when the service thread works on between the
    disabling and the flag that ends it (supervisor_termination writes the flag after it
    has released the lock): a module that was pending a restart may be back by then. */
module Termination {
  import opened Model
  import opened Kernel
  import opened Service
  import opened Invariants
  import Commands
  import opened Removal
  import opened Restart
  import opened Convergence
  import opened Settling
  import opened Skipping
  import opened Deadline
  import opened StopAll

  // ----- Whether anything is up -----

  ghost predicate NoneServing(st: State)
    requires Sized(st)
  {
    forall i :: 0 <= i < st.loaded ==> !Serving(st.profiles, st.slots[i], st.os)
  }

  /** A module that is up is counted at every check, so the loop goes on. */
  lemma {:induction false} StaysCounted(ss: seq<State>, env: nat -> nat -> Env, i: nat)
    requires Path(ss, env) && Sized(ss[0]) && i < ss[0].loaded && Serving(ss[0].profiles, ss[0].slots[i], ss[0].os)
    ensures !QuitsWithin(ss[0], |ss| - 1, env)
  {
    if |ss| > 1 {
      PathStep(ss, env);
      var k := UpNext(ss, env, i);
      StaysCounted(ss[1..], env, k);
      NotNow(ss, env, i);
    }
  }

  lemma NotNow(ss: seq<State>, env: nat -> nat -> Env, i: nat)
    requires Path(ss, env) && |ss| > 1 && Sized(ss[0]) && i < ss[0].loaded && Serving(ss[0].profiles, ss[0].slots[i], ss[0].os)
    requires Sized(ss[1]) && !QuitsWithin(ss[1], |ss| - 2, env)
    ensures !QuitsWithin(ss[0], |ss| - 1, env)
  {
    assert Visit(0);
    CountedNow(ss[0], env(|ss| - 1), i);
  }

  lemma CountedNow(st: State, e: nat -> Env, i: nat)
    requires Inv(st) && Calm(st, e) && i < st.loaded && Serving(st.profiles, st.slots[i], st.os)
    ensures Running(Loaded(Pass(Check, st, 0, e(0))), false) > 0
  {
    assert StaysUp(e, st.slots[i].pid);
    CheckCounts(st, e(0), i);
  }

  /** With the flag set, a calm loop leaves at once or never. */
  lemma QuitsExactly(st: State, n: nat, env: nat -> nat -> Env)
    requires Fit(st) && Steady(st) && n > 0 && CalmRun(st, n, env)
    ensures QuitsWithin(st, n, env) <==> NoneServing(st)
  {
    if NoneServing(st) {
      CountsNone(st, env(n)(0));
    } else {
      var i :| 0 <= i < st.loaded && Serving(st.profiles, st.slots[i], st.os);
      var ss := MakePath(st, n, env);
      StaysCounted(ss, env, i);
    }
  }

  // ----- Who can be up -----

  /** Slot i of r holds the module of slot j of st, and was asked for only if that was. */
  ghost predicate From(st: State, r: State, j: nat, i: nat)
    requires Sized(st) && Sized(r)
  {
    && j < st.loaded && i < r.loaded && r.slots[i].name == st.slots[j].name && r.slots[i].profile == st.slots[j].profile
    && (Intent(r.slots[i]) ==> Intent(st.slots[j]))
  }

  lemma FromNext(ss: seq<State>, env: nat -> nat -> Env, i: nat) returns (j: nat)
    requires Path(ss, env) && |ss| > 1 && Sized(ss[0]) && Sized(ss[1]) && i < ss[1].loaded
    ensures From(ss[0], ss[1], j, i)
  {
    assert Visit(0);
    j := AnyPeriod(ss[0], env(|ss| - 1), i);
  }

  lemma {:induction false} FromPath(ss: seq<State>, env: nat -> nat -> Env, i: nat) returns (j: nat)
    requires Path(ss, env) && Sized(ss[0]) && Sized(End(ss)) && i < End(ss).loaded
    ensures From(ss[0], End(ss), j, i)
  {
    j := i;
    if |ss| > 1 {
      PathStep(ss, env);
      var k := FromPath(ss[1..], env, i);
      j := FromNext(ss, env, k);
    }
  }

  ghost predicate NoneDue(st: State, due: nat -> bool)
    requires Sized(st)
  {
    forall j: nat :: j < st.loaded && Returns(st, j) ==> !due(j)
  }

  /** After everything was disabled, what is up is what was waiting and is due. */
  lemma BackExactly(ss: seq<State>, env: nat -> nat -> Env, due: nat -> bool)
    requires Path(ss, env) && |ss| > 1 && Sized(ss[0]) && Sized(End(ss)) && Decided(ss[0], End(ss), due)
    requires forall j :: 0 <= j < ss[0].loaded ==> !ss[0].slots[j].enabled
    ensures NoneServing(End(ss)) <==> NoneDue(ss[0], due)
  {
    var st, r := ss[0], End(ss);
    PathTrace(ss, env);
    if NoneServing(r) {
      BackIsServing(st, r, due);
    } else {
      var i :| 0 <= i < r.loaded && Serving(r.profiles, r.slots[i], r.os);
      var j := FromPath(ss, env, i);
      ServingIsDue(st, r, due, j, i);
    }
  }

  lemma BackIsServing(st: State, r: State, due: nat -> bool)
    requires Sized(st) && Sized(r) && Steady(r) && Decided(st, r, due) && NoneServing(r)
    ensures NoneDue(st, due)
  {
    forall j: nat | j < st.loaded && Returns(st, j) ensures !due(j) {
      var i: nat :| UpIff(st, r, j, i, due(j));
    }
  }

  lemma ServingIsDue(st: State, r: State, due: nat -> bool, j: nat, i: nat)
    requires Sized(st) && Table(r.slots, r.loaded) && Decided(st, r, due) && r.profiles == st.profiles
    requires From(st, r, j, i) && Serving(r.profiles, r.slots[i], r.os) && !st.slots[j].enabled
    ensures Returns(st, j) && due(j)
  {
    var k: nat :| UpIff(st, r, j, k, due(j));
    assert k == i;
  }

  // ----- When stop-all ends -----

  /** k periods pass after the disabling, then the flag is set and the loop may make n more checks. */
  ghost predicate CalmStop(st: State, k: nat, env: nat -> nat -> Env, n: nat, env': nat -> nat -> Env)
    requires Sized(st)
  {
    var s := Commands.Perform(Commands.StopAll, st);
    k > 0 && n > 0 && CalmRun(s, k, env) && CalmRun(Periods(s, k, env), n, env')
  }

  /** With the flag set in st the loop never ends, whatever a calm kernel does; and calm kernels there are. */
  ghost predicate Hangs(st: State) {
    Sized(st) && forall n: nat :: HangsFor(st, n)
  }

  ghost predicate HangsFor(st: State, n: nat)
    requires Sized(st)
  {
    && (exists env :: CalmRun(st, n, env))
    && (forall env :: n > 0 && CalmRun(st, n, env) ==> !QuitsWithin(st, n, env))
  }

  /** The state in which the flag is set, and the way to it. */
  lemma FlagSet(st: State, k: nat, env: nat -> nat -> Env, n: nat, env': nat -> nat -> Env) returns (ss: seq<State>)
    requires Inv(st) && Unreaped(st) && CalmStop(st, k, env, n, env')
    ensures Path(ss, env) && |ss| == k + 1 && ss[0] == Commands.Perform(Commands.StopAll, st)
    ensures ss[1] == Period(ss[0], env(k)) && End(ss) == Periods(ss[0], k, env)
    ensures Sized(End(ss)) && (QuitsWithin(End(ss), n, env') <==> NoneServing(End(ss)))
    ensures forall j :: 0 <= j < ss[0].loaded ==> !ss[0].slots[j].enabled
  {
    Disabling(st);
    ss := MakePath(Commands.Perform(Commands.StopAll, st), k, env);
    assert ss[1] == Period(ss[0], env(k)) by { assert Visit(0); }
    PathTrace(ss, env);
    QuitsExactly(End(ss), n, env');
  }

  lemma FlagDecided(st: State, ss: seq<State>, env: nat -> nat -> Env, due: nat -> bool)
    requires Inv(st) && Unreaped(st) && Path(ss, env) && |ss| > 1 && ss[0] == Commands.Perform(Commands.StopAll, st)
    requires Sized(End(ss)) && Decided(ss[0], End(ss), due)
    ensures NoneServing(End(ss)) <==> forall j: nat :: j < st.loaded && Restartable(st.profiles, st.slots[j]) ==> !due(j)
  {
    Disabling(st);
    BackExactly(ss, env, due);
    assert forall j: nat :: j < st.loaded ==> (Returns(ss[0], j) <==> Restartable(st.profiles, st.slots[j]));
  }

  /** Any calm kernel: the loop leaves exactly if each module that was pending a restart, and whose profile is
      enabled, is not back yet, which the table after the first period tells; and then it leaves at once. */
  lemma StopAllExactly(st: State, k: nat, env: nat -> nat -> Env, n: nat, env': nat -> nat -> Env)
    requires Inv(st) && Unreaped(st) && CalmStop(st, k, env, n, env')
    ensures var s := Commands.Perform(Commands.StopAll, st);
            QuitsWithin(Periods(s, k, env), n, env')
            <==> forall j: nat :: j < st.loaded && Restartable(st.profiles, st.slots[j])
                   ==> !(k >= 2 && DueIn(s, Period(s, env(k)), k, j))
  {
    var ss := FlagSet(st, k, env, n, env');
    var due := AnyDue(ss[0], ss[1], k);
    AnyDecided(ss, env);
    FlagDecided(st, ss, env, due);
    assert forall j: nat :: due(j) <==> k >= 2 && DueIn(ss[0], ss[1], k, j);
  }

  /** If flagged and waiting modules end only by SIGKILL: exactly if fewer than 3 + Skips(a) periods went by for each,
      a flagged ones directly before it. */
  lemma StubbornStops(st: State, k: nat, env: nat -> nat -> Env, n: nat, env': nat -> nat -> Env)
    requires Inv(st) && Unreaped(st) && CalmStop(st, k, env, n, env') && Stubborn(Commands.Perform(Commands.StopAll, st), env(k))
    ensures QuitsWithin(Periods(Commands.Perform(Commands.StopAll, st), k, env), n, env')
            <==> forall j: nat :: j < st.loaded && Restartable(st.profiles, st.slots[j]) ==> k < 3 + Skips(Ahead(Loaded(st), j))
  {
    var ss := FlagSet(st, k, env, n, env');
    StubbornDecided(ss, env);
    FlagDecided(st, ss, env, DueAfter(ss[0], k, 3));
    DueFromStart(st, ss[0], k, 3);
  }

  /** If they end at SIGINT: fewer than 2 + Skips(a). */
  lemma PromptStops(st: State, k: nat, env: nat -> nat -> Env, n: nat, env': nat -> nat -> Env)
    requires Inv(st) && Unreaped(st) && CalmStop(st, k, env, n, env') && Prompt(Commands.Perform(Commands.StopAll, st), env(k))
    ensures QuitsWithin(Periods(Commands.Perform(Commands.StopAll, st), k, env), n, env')
            <==> forall j: nat :: j < st.loaded && Restartable(st.profiles, st.slots[j]) ==> k < 2 + Skips(Ahead(Loaded(st), j))
  {
    var ss := FlagSet(st, k, env, n, env');
    PromptDecided(ss, env);
    FlagDecided(st, ss, env, DueAfter(ss[0], k, 2));
    DueFromStart(st, ss[0], k, 2);
  }

  lemma DueFromStart(st: State, s: State, k: nat, lag: nat)
    requires Inv(st) && Unreaped(st) && s == Commands.Perform(Commands.StopAll, st)
    ensures forall j: nat :: j < st.loaded ==> (DueAfter(s, k, lag)(j) <==> k >= lag + Skips(Ahead(Loaded(st), j)))
  {
    Disabling(st);
    forall j: nat | j < st.loaded ensures DueAfter(s, k, lag)(j) <==> k >= lag + Skips(Ahead(Loaded(st), j)) {
      AheadSame(Loaded(st), Loaded(s), j);
    }
  }
}
