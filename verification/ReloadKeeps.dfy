/** A reload keeps the invariant of the table, the processes and the sockets. */
module ReloadKeeps {
  import opened Model
  import opened Invariants
  import opened Document
  import opened Reload
  import opened Reconcile
  import opened ReloadEffect
  import opened ReloadTheorem

  /** Old slots go on as they were; new ones hold no process and no socket. */
  ghost predicate Carries(st: State, r: State) {
    && st.loaded <= |st.slots| && st.loaded <= r.loaded <= |r.slots|
    && r.os == st.os && r.open == st.open && r.trace == st.trace
    && (forall i :: 0 <= i < st.loaded ==> SameRun(st.slots[i], r.slots[i]) && r.slots[i].myChild)
    && (forall i :: st.loaded <= i < r.loaded ==> r.slots[i].pid == 0 && !r.slots[i].connected && !r.slots[i].status)
  }

  lemma CarriesSockets(st: State, r: State)
    requires Carries(st, r) && Sockets(st.slots, st.loaded, st.open)
    ensures Sockets(r.slots, r.loaded, r.open)
  {
    forall f | f in r.open ensures Held(r.slots, r.loaded, f) {
      assert Held(st.slots, st.loaded, f);
      var i :| 0 <= i < st.loaded && st.slots[i].connected && st.slots[i].sd == f;
      assert r.slots[i].connected && r.slots[i].sd == f;
    }
  }

  lemma CarriesRecorded(st: State, r: State)
    requires Carries(st, r) && Recorded(st.slots, st.loaded, st.os)
    ensures Recorded(r.slots, r.loaded, r.os)
  {
    forall p | p in r.os && r.os[p].child && !r.os[p].phase.Gone? ensures HasPid(r.slots, r.loaded, p) {
      assert HasPid(st.slots, st.loaded, p);
      var i :| 0 <= i < st.loaded && st.slots[i].pid == p;
      assert r.slots[i].pid == p;
    }
  }

  lemma CarriesProcs(st: State, r: State)
    requires Carries(st, r) && Distinct(st.slots, st.loaded) && Owned(st.slots, st.loaded, st.os)
    requires SigintLogged(st.slots, st.loaded, st.trace)
    ensures Distinct(r.slots, r.loaded) && Owned(r.slots, r.loaded, r.os) && SigintLogged(r.slots, r.loaded, r.trace)
    ensures Unreaped(st) ==> Unreaped(r)
    ensures Settled(st) ==> Settled(r)
  {
    forall i | 0 <= i < r.loaded ensures OwnsPid(r.slots[i], r.os) {
      if i < st.loaded {
        assert OwnsPid(st.slots[i], st.os);
      }
    }
    if Unreaped(st) {
      forall i | 0 <= i < r.loaded ensures UnreapedSlot(r.slots[i], r.os) {
        if i < st.loaded {
          assert UnreapedSlot(st.slots[i], st.os);
        }
      }
    }
    if Settled(st) {
      forall i | 0 <= i < r.loaded ensures SettledSlot(r.slots[i], r.os) {
        if i < st.loaded {
          assert SettledSlot(st.slots[i], st.os);
        }
      }
    }
  }

  lemma LimitOk(kids: seq<Node>)
    requires ValidModule(kids) && Given(kids, RestartsTag)
    ensures Text(kids, RestartsTag).Some? && 0 <= Atoi(Text(kids, RestartsTag).value) <= MAX_RESTARTS
  {
    ValidTexts(kids);
  }

  lemma KnownOk(m: Module, d: Entry, n: Module, p: nat, p': nat)
    requires SlotOk(m, p) && d.node.Element? && ValidModule(d.node.kids) && d.profile < p' && KnownEffect(m, d, n)
    ensures SlotOk(n, p')
  {
    ValidTexts(d.node.kids);
    if Given(d.node.kids, RestartsTag) {
      LimitOk(d.node.kids);
    }
  }

  lemma MissingOk(m: Module, n: Module, p: nat, p': nat)
    requires SlotOk(m, p) && MissingEffect(m, n)
    ensures SlotOk(n, p')
  {}

  lemma NewOk(base: Module, d: Entry, initial: bool, n: Module, p: nat)
    requires d.node.Element? && ValidModule(d.node.kids) && d.profile < p && NewEffect(base, d, initial, n)
    requires -1 <= base.maxRestarts <= 0
    ensures SlotOk(n, p)
  {
    ValidTexts(d.node.kids);
    if Given(d.node.kids, RestartsTag) {
      LimitOk(d.node.kids);
    }
  }

  function PidOf(d: Entry): int {
    if d.node.Element? && d.node.pid.Some? then Atoi(d.node.pid.value) else 0
  }

  /** One slot of the result. */
  lemma SlotKept(st: State, ds: seq<Entry>, r: State, i: nat, p: nat)
    requires SlotsOk(st.slots, st.loaded, |st.profiles|) && Roomy(st.slots) && Refines(st, ds, r) && ValidEntries(ds, p) && i < st.loaded
    ensures SlotOk(r.slots[i], p) && SameRun(st.slots[i], r.slots[i]) && r.slots[i].myChild && RoomyModule(r.slots[i])
  {
    assert SlotOk(st.slots[i], |st.profiles|) && RoomyModule(st.slots[i]);
    if Mentions(ds, st.slots[i].name) {
      var k :| 0 <= k < |ds| && NameOf(ds[k].node) == st.slots[i].name;
      KnownOf(st, ds, r, i, k);
      KnownOk(st.slots[i], ds[k], r.slots[i], |st.profiles|, p);
    } else {
      MissingOf(st, ds, r, i);
      MissingOk(st.slots[i], r.slots[i], |st.profiles|, p);
    }
  }

  lemma SlotNew(st: State, ds: seq<Entry>, initial: bool, r: State, i: nat, p: nat)
    requires Table(st.slots, st.loaded) && Roomy(st.slots) && AddedRows(st, ds, initial, r) && ValidEntries(ds, p)
    requires st.loaded <= i < r.loaded
    ensures var n := r.slots[i];
            && SlotOk(n, p) && RoomyModule(n) && !n.connected && !n.status && !n.sentSigint && (!initial ==> n.pid == 0)
            && n.name == NameOf(NewEntries(st, ds)[i - st.loaded].node)
            && (initial ==> n.pid == PidOf(NewEntries(st, ds)[i - st.loaded]))
  {
    var d := NewEntries(st, ds)[i - st.loaded];
    assert NewAt(st, d, ds, initial, i, r.slots[i]);
    EmptyBase(st, i);
    NewOk(Base(RowsOf(st).slots, i), d, initial, r.slots[i], p);
  }

  lemma {:induction false} NewsDistinct(t: Rows, ds: seq<Entry>)
    requires DistinctNames(ds)
    ensures DistinctNames(News(t, ds))
  {
    if ds != [] {
      var es := ds[..|ds| - 1];
      NewsDistinct(t, es);
      NewsAre(t, es);
      assert forall j :: 0 <= j < |News(t, es)| ==> NameOf(News(t, es)[j].node) != NameOf(ds[|ds| - 1].node) by {
        forall j | 0 <= j < |News(t, es)| ensures NameOf(News(t, es)[j].node) != NameOf(ds[|ds| - 1].node) {
          var k :| 0 <= k < |es| && es[k] == News(t, es)[j];
          assert es[k] == ds[k];
        }
      }
    }
  }

  /** Profiles have distinct names, none of them empty. */
  ghost predicate ProfilesFine(ps: seq<Profile>) {
    DistinctProfiles(ps) && forall i :: 0 <= i < |ps| ==> ps[i].name != ""
  }

  lemma DocProfiles(doc: Option<Node>)
    requires ValidDoc(doc)
    ensures ProfilesFine(ProfilesIn(doc.value.kids))
  {
    var kids := doc.value.kids;
    var ms := Elements(kids, ModulesTag);
    ElementsAre(kids, ModulesTag);
    forall i | 0 <= i < |ms| ensures ProfilesIn(kids)[i].name != "" {
      assert ms[i] in ms && RootKid(ms[i]);
      var n := ValidText(ms[i].kids, NameTag);
      assert ModulesKid(n);
    }
  }

  /** The slots behind the last loaded module stay blank. */
  lemma RestBlank(st: State, r: State)
    requires Table(st.slots, st.loaded) && Roomy(st.slots) && st.loaded <= r.loaded && SpareRows(st, r)
    ensures forall i :: r.loaded <= i < |r.slots| ==> Blank(r.slots[i]) && RoomyModule(r.slots[i])
  {
    forall i | r.loaded <= i < |r.slots| ensures Blank(r.slots[i]) && RoomyModule(r.slots[i]) {
      assert i < |st.slots| ==> Blank(st.slots[i]) && RoomyModule(st.slots[i]);
    }
  }

  /** Names stay distinct: old ones are kept, new ones are distinct and unknown. */
  lemma NamesDistinct(st: State, r: State, news: seq<Entry>)
    requires Table(st.slots, st.loaded) && r.loaded == st.loaded + |news| <= |r.slots| && DistinctNames(news)
    requires forall i :: 0 <= i < st.loaded ==> r.slots[i].name == st.slots[i].name
    requires forall i :: st.loaded <= i < r.loaded ==> r.slots[i].name == NameOf(news[i - st.loaded].node)
    requires forall j :: 0 <= j < |news| ==> !Known(RowsOf(st), NameOf(news[j].node))
    requires forall i :: r.loaded <= i < |r.slots| ==> Blank(r.slots[i])
    ensures Table(r.slots, r.loaded)
  {
    forall i, j | 0 <= i < j < r.loaded ensures r.slots[i].name != r.slots[j].name {
      if i < st.loaded <= j {
        assert RowsOf(st).slots[i].name == r.slots[i].name;
      }
    }
  }

  lemma LimitKept(st: State, doc: Option<Node>)
    requires ValidDoc(doc) && 0 <= st.defaultLimit <= MAX_RESTARTS
    ensures 0 <= SupervisorLimit(doc.value.kids, st.defaultLimit) <= MAX_RESTARTS
  {}

  lemma ReloadSlots(st: State, ds: seq<Entry>, r: State)
    requires Inv(st) && Roomy(st.slots) && Refines(st, ds, r) && ValidEntries(ds, |r.profiles|) && DistinctNames(ds)
    requires r.os == st.os && r.open == st.open && r.trace == st.trace
    ensures Table(r.slots, r.loaded) && SlotsOk(r.slots, r.loaded, |r.profiles|) && Carries(st, r) && Roomy(r.slots)
  {
    RestBlank(st, r);
    forall i | 0 <= i < st.loaded
      ensures SlotOk(r.slots[i], |r.profiles|) && SameRun(st.slots[i], r.slots[i]) && r.slots[i].myChild && RoomyModule(r.slots[i]) {
      SlotKept(st, ds, r, i, |r.profiles|);
    }
    forall i | st.loaded <= i < r.loaded
      ensures SlotOk(r.slots[i], |r.profiles|) && RoomyModule(r.slots[i]) && r.slots[i].pid == 0 && !r.slots[i].connected
              && !r.slots[i].status && r.slots[i].name == NameOf(NewEntries(st, ds)[i - st.loaded].node) {
      SlotNew(st, ds, false, r, i, |r.profiles|);
    }
    NewsAre(RowsOf(st), ds);
    NewsDistinct(RowsOf(st), ds);
    NamesDistinct(st, r, NewEntries(st, ds));
  }

  /** Any document, valid or not, keeps the invariant. */
  lemma ReloadKeepsInv(st: State, doc: Option<Node>)
    requires Inv(st) && Unreaped(st) && Roomy(st.slots)
    ensures var r := Reloaded(st, doc, false);
            Inv(r) && Unreaped(r) && Roomy(r.slots) && (Settled(st) ==> Settled(r))
  {
    if ValidDoc(doc) {
      var r := Reloaded(st, doc, false);
      ReloadRefines(st, doc);
      DocEntries(doc);
      ReloadSlots(st, Entries(doc.value.kids), r);
      LimitKept(st, doc);
      CarriesSockets(st, r);
      CarriesRecorded(st, r);
      CarriesProcs(st, r);
    }
  }

  // ----- The load at start-up -----

  ghost predicate DistinctPids(ds: seq<Entry>) {
    forall j, k :: 0 <= j < k < |ds| && PidOf(ds[j]) > 0 ==> PidOf(ds[j]) != PidOf(ds[k])
  }

  /** Before the first load: an empty table, and no process of ours. */
  ghost predicate Fresh(st: State) {
    Inv(st) && st.loaded == 0 && st.trace == [] && Roomy(st.slots) && st.profiles == []
  }

  /** A supervisor that has allocated its table and loaded nothing, on a kernel with the processes os. */
  function FirstState(os: map<int, Proc>): State {
    State(seq(MODULES_START_SIZE, i => FreshSlot), 0, [], DEFAULT_RESTARTS, os, {}, [])
  }

  lemma FirstFresh(os: map<int, Proc>)
    requires OsOk(os) && forall p :: p in os ==> !os[p].child
    ensures Fresh(FirstState(os))
  {
    var st := FirstState(os);
    assert forall i :: 0 <= i < |st.slots| ==> st.slots[i] == FreshSlot;
  }

  lemma {:induction false} AllNew(t: Rows, ds: seq<Entry>)
    requires t.loaded == 0
    ensures News(t, ds) == ds
  {
    if ds != [] {
      AllNew(t, ds[..|ds| - 1]);
    }
  }

  lemma InitialSlots(st: State, ds: seq<Entry>, r: State)
    requires Fresh(st) && Boot(st, ds, r) && ValidEntries(ds, |r.profiles|) && DistinctNames(ds)
    ensures Table(r.slots, r.loaded) && SlotsOk(r.slots, r.loaded, |r.profiles|) && Roomy(r.slots) && r.loaded == |ds|
    ensures forall i :: 0 <= i < r.loaded ==>
              !r.slots[i].connected && !r.slots[i].sentSigint && r.slots[i].pid == PidOf(ds[i])
  {
    AllNew(RowsOf(st), ds);
    RestBlank(st, r);
    forall i | 0 <= i < r.loaded
      ensures SlotOk(r.slots[i], |r.profiles|) && RoomyModule(r.slots[i]) && !r.slots[i].connected && !r.slots[i].sentSigint
              && r.slots[i].name == NameOf(ds[i].node) && r.slots[i].pid == PidOf(ds[i]) {
      FirstSlot(st, ds, r, i);
    }
    NamesDistinct(st, r, ds);
  }

  lemma FirstSlot(st: State, ds: seq<Entry>, r: State, i: nat)
    requires Table(st.slots, st.loaded) && Roomy(st.slots) && st.loaded == 0 && AddedRows(st, ds, true, r)
    requires ValidEntries(ds, |r.profiles|) && NewEntries(st, ds) == ds && i < r.loaded
    ensures SlotOk(r.slots[i], |r.profiles|) && RoomyModule(r.slots[i]) && !r.slots[i].connected && !r.slots[i].sentSigint
    ensures r.slots[i].name == NameOf(ds[i].node) && r.slots[i].pid == PidOf(ds[i])
  {
    var news := NewEntries(st, ds);
    assert st.loaded <= i < r.loaded && news[i - st.loaded] == ds[i];
    SlotNew(st, ds, true, r, i, |r.profiles|);
  }

  lemma FreshFacts(st: State)
    requires Fresh(st)
    ensures st.open == {} && forall p :: p in st.os ==> !st.os[p].child
  {
    assert forall f :: f in st.open ==> Held(st.slots, st.loaded, f);
    assert forall f :: f !in st.open;
    forall p | p in st.os ensures !st.os[p].child {
      var n := st.os[p].owner;
      assert Forked(n, p) !in st.trace;
    }
  }

  lemma InitialInv(st: State, r: State, ds: seq<Entry>)
    requires Fresh(st) && r.os == st.os && r.open == st.open && r.trace == st.trace
    requires Table(r.slots, r.loaded) && SlotsOk(r.slots, r.loaded, |r.profiles|) && r.loaded == |ds|
    requires 0 <= r.defaultLimit <= MAX_RESTARTS
    requires forall i :: 0 <= i < r.loaded ==> !r.slots[i].connected && !r.slots[i].sentSigint && r.slots[i].pid == PidOf(ds[i])
    ensures Unreaped(r) && (Inv(r) <==> DistinctPids(ds))
  {
    FreshFacts(st);
    assert DistinctPids(ds) <==> Distinct(r.slots, r.loaded) by { PidsDistinct(r, ds); }
  }

  lemma PidsDistinct(r: State, ds: seq<Entry>)
    requires Sized(r) && r.loaded == |ds| && forall i :: 0 <= i < r.loaded ==> r.slots[i].pid == PidOf(ds[i])
    ensures DistinctPids(ds) <==> Distinct(r.slots, r.loaded)
  {
    if Distinct(r.slots, r.loaded) {
      forall j, k | 0 <= j < k < |ds| && PidOf(ds[j]) > 0 ensures PidOf(ds[j]) != PidOf(ds[k]) {
        assert r.slots[j].pid == PidOf(ds[j]) && r.slots[k].pid == PidOf(ds[k]);
      }
    }
  }

  /** The load at start-up establishes the invariant exactly if the PIDs in the document are distinct; the code trusts them. */
  lemma InitialKeepsInv(st: State, doc: Option<Node>)
    requires Fresh(st)
    ensures var r := Reloaded(st, doc, true);
            && Unreaped(r) && Roomy(r.slots)
            && (Inv(r) <==> (ValidDoc(doc) ==> DistinctPids(Entries(doc.value.kids))))
  {
    if ValidDoc(doc) {
      var r := Reloaded(st, doc, true);
      assert ValidEntries(Entries(doc.value.kids), |r.profiles|) by { DocEntries(doc); }
      assert Boot(st, Entries(doc.value.kids), r) by { ReloadStarts(st, doc); }
      InitialSlots(st, Entries(doc.value.kids), r);
      LimitKept(st, doc);
      InitialInv(st, Reloaded(st, doc, true), Entries(doc.value.kids));
    }
  }
}
