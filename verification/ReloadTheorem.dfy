/** Reload refines a pure reconciliation of the old table with the document. */
module ReloadTheorem {
  import opened Model
  import opened Invariants
  import opened Document
  import opened Reload
  import opened Reconcile
  import opened ReloadEffect

  /** What reloads keep about the sizes of the arrays and about the interface codes. */
  ghost predicate Roomy(slots: seq<Module>) {
    |slots| >= MODULES_START_SIZE && forall i :: 0 <= i < |slots| ==> RoomyModule(slots[i])
  }

  function RowsOf(st: State): Rows {
    Rows(ResetAll(st.slots), st.loaded)
  }

  /** The document mentions a name. */
  ghost predicate Mentions(ds: seq<Entry>, name: string) {
    exists k :: 0 <= k < |ds| && NameOf(ds[k].node) == name
  }

  ghost predicate ValidEntries(ds: seq<Entry>, profiles: nat) {
    forall k :: 0 <= k < |ds| ==> ds[k].node.Element? && ValidModule(ds[k].node.kids) && ds[k].profile < profiles
  }

  lemma DocEntries(doc: Option<Node>)
    requires ValidDoc(doc)
    ensures ValidEntries(Entries(doc.value.kids), |ProfilesIn(doc.value.kids)|)
  {
    var ps := Elements(doc.value.kids, ModulesTag);
    ElementsAre(doc.value.kids, ModulesTag);
    forall n | n in ps ensures Is(n, ModulesTag) && ValidModules(n.kids) {
      assert RootKid(n);
    }
    EntriesValid(ps);
  }

  /** The entries that are new, in document order. */
  ghost function NewEntries(st: State, ds: seq<Entry>): seq<Entry> {
    News(RowsOf(st), ds)
  }

  /** r is what the loops after the document make of the table t, in which the entries ds were entered. */
  ghost predicate Applied(st: State, ds: seq<Entry>, initial: bool, t: Rows, r: State) {
    && Entered(RowsOf(st), ds, initial, t)
    && r.loaded == t.loaded == st.loaded + |NewEntries(st, ds)| <= |t.slots| == |r.slots|
    && forall i :: 0 <= i < |r.slots| ==>
         r.slots[i] == if i < t.loaded then Settle(t.slots[i], i < st.loaded, initial) else t.slots[i]
  }

  lemma ApplyDoes(st: State, kids: seq<Node>, initial: bool) returns (t: Rows)
    requires Table(st.slots, st.loaded) && |st.slots| != 1 && DistinctNames(Entries(kids))
    ensures Applied(st, Entries(kids), initial, t, Apply(st, kids, initial))
  {
    t := EnterAllEffect(RowsOf(st), Entries(kids), initial);
  }

  lemma KnownSlot(st: State, ds: seq<Entry>, t: Rows, r: State, i: nat, k: nat)
    requires Table(st.slots, st.loaded) && Roomy(st.slots) && Applied(st, ds, false, t, r)
    requires i < st.loaded && k < |ds| && NameOf(ds[k].node) == st.slots[i].name
    requires ds[k].node.Element? && ValidModule(ds[k].node.kids)
    ensures KnownEffect(st.slots[i], ds[k], r.slots[i])
  {
    assert Updated(ds, false, RowsOf(st).slots[i], t.slots[i]);
    KnownRecord(st.slots[i], ds[k]);
  }

  lemma MissingSlot(st: State, ds: seq<Entry>, t: Rows, r: State, i: nat)
    requires Table(st.slots, st.loaded) && Applied(st, ds, false, t, r)
    requires i < st.loaded && !Mentions(ds, st.slots[i].name)
    ensures MissingEffect(st.slots[i], r.slots[i])
  {
    assert Updated(ds, false, RowsOf(st).slots[i], t.slots[i]);
    MissingRecord(st.slots[i]);
  }

  lemma EmptyBase(st: State, i: nat)
    requires Table(st.slots, st.loaded) && Roomy(st.slots) && st.loaded <= i
    ensures Empty(Base(RowsOf(st).slots, i))
    ensures Base(RowsOf(st).slots, i).maxRestarts == if i < |st.slots| then -1 else 0
  {
    assert i < |st.slots| ==> Blank(st.slots[i]) && RoomyModule(st.slots[i]);
  }

  /** Slot i holds the new entry d. It gets the default restart limit only if it existed before the reload. */
  ghost predicate NewAt(st: State, d: Entry, ds: seq<Entry>, initial: bool, i: nat, n: Module) {
    && d in ds && !Known(RowsOf(st), NameOf(d.node)) && d.node.Element?
    && NewEffect(Base(RowsOf(st).slots, i), d, initial, n)
    && (Given(d.node.kids, RestartsTag) || n.maxRestarts == if i < |st.slots| then -1 else 0)
  }

  lemma NewSlot(st: State, ds: seq<Entry>, initial: bool, t: Rows, r: State, i: nat)
    requires Table(st.slots, st.loaded) && Roomy(st.slots) && Applied(st, ds, initial, t, r)
    requires forall k :: 0 <= k < |ds| ==> ds[k].node.Element? && ValidModule(ds[k].node.kids)
    requires st.loaded <= i < r.loaded
    ensures NewAt(st, NewEntries(st, ds)[i - st.loaded], ds, initial, i, r.slots[i])
  {
    var d := NewRow(st, ds, initial, t, i);
    assert r.slots[i] == Settle(t.slots[i], false, initial);
    NewFrom(st, d, ds, initial, i, t.slots[i], r.slots[i]);
  }

  /** What the loop over the document wrote to slot i. */
  lemma NewRow(st: State, ds: seq<Entry>, initial: bool, t: Rows, i: nat) returns (d: Entry)
    requires NewRows(st.loaded, NewEntries(st, ds), Filling(RowsOf(st), initial), t.slots)
    requires forall k :: 0 <= k < |ds| ==> ds[k].node.Element? && ValidModule(ds[k].node.kids)
    requires st.loaded <= i < st.loaded + |NewEntries(st, ds)| && i < |t.slots|
    ensures d == NewEntries(st, ds)[i - st.loaded] && t.slots[i] == Filling(RowsOf(st), initial)(i, d)
    ensures d in ds && !Known(RowsOf(st), NameOf(d.node)) && d.node.Element? && ValidModule(d.node.kids)
  {
    var news := NewEntries(st, ds);
    d := news[i - st.loaded];
    assert d in ds && !Known(RowsOf(st), NameOf(d.node)) by { NewsAre(RowsOf(st), ds); }
    NewRowIs(st.loaded, news, Filling(RowsOf(st), initial), t.slots, i);
  }

  lemma NewFrom(st: State, d: Entry, ds: seq<Entry>, initial: bool, i: nat, u: Module, n: Module)
    requires Table(st.slots, st.loaded) && Roomy(st.slots) && st.loaded <= i
    requires d in ds && !Known(RowsOf(st), NameOf(d.node)) && d.node.Element? && ValidModule(d.node.kids)
    requires u == Filling(RowsOf(st), initial)(i, d) && n == Settle(u, false, initial)
    ensures NewAt(st, d, ds, initial, i, n)
  {
    var base := Base(RowsOf(st).slots, i);
    EmptyBase(st, i);
    FillingIs(RowsOf(st), initial, i, d);
    NewRecord(base, d, initial);
  }

  lemma NewRowIs(from: nat, news: seq<Entry>, fill: (nat, Entry) -> Module, slots: seq<Module>, i: nat)
    requires NewRows(from, news, fill, slots) && from <= i < from + |news|
    ensures slots[i] == fill(i, news[i - from])
  {}

  lemma FillingIs(t: Rows, initial: bool, i: nat, d: Entry)
    ensures Filling(t, initial)(i, d) == Reconciled(Base(t.slots, i), d, true, initial)
  {}

  // ----- All slots together -----

  ghost predicate KnownRows(st: State, ds: seq<Entry>, r: State)
    requires st.loaded <= |st.slots| && st.loaded <= |r.slots|
  {
    forall i, k :: 0 <= i < st.loaded && 0 <= k < |ds| && NameOf(ds[k].node) == st.slots[i].name ==>
      ds[k].node.Element? && KnownEffect(st.slots[i], ds[k], r.slots[i])
  }

  ghost predicate MissingRows(st: State, ds: seq<Entry>, r: State)
    requires st.loaded <= |st.slots| && st.loaded <= |r.slots|
  {
    forall i :: 0 <= i < st.loaded && !Mentions(ds, st.slots[i].name) ==> MissingEffect(st.slots[i], r.slots[i])
  }

  ghost predicate AddedRows(st: State, ds: seq<Entry>, initial: bool, r: State) {
    && r.loaded == st.loaded + |NewEntries(st, ds)| <= |r.slots|
    && forall i :: st.loaded <= i < r.loaded ==> NewAt(st, NewEntries(st, ds)[i - st.loaded], ds, initial, i, r.slots[i])
  }

  ghost predicate SpareRows(st: State, r: State) {
    |st.slots| <= |r.slots| && forall i :: r.loaded <= i < |r.slots| ==> r.slots[i] == Base(RowsOf(st).slots, i)
  }

  /** r is the reconciliation of the table of st with the entries ds: known names keep their slot and their run, and
      store what is given; new ones follow in document order; missing ones are disabled and flagged. */
  ghost predicate Refines(st: State, ds: seq<Entry>, r: State) {
    && st.loaded <= |st.slots| && st.loaded <= r.loaded <= |r.slots|
    && KnownRows(st, ds, r) && MissingRows(st, ds, r) && AddedRows(st, ds, false, r) && SpareRows(st, r)
  }

  /** What became of one slot, taken out of the quantifiers. */
  lemma KnownOf(st: State, ds: seq<Entry>, r: State, i: nat, k: nat)
    requires Refines(st, ds, r) && i < st.loaded && k < |ds| && NameOf(ds[k].node) == st.slots[i].name
    ensures ds[k].node.Element? && KnownEffect(st.slots[i], ds[k], r.slots[i])
  {}

  lemma MissingOf(st: State, ds: seq<Entry>, r: State, i: nat)
    requires Refines(st, ds, r) && i < st.loaded && !Mentions(ds, st.slots[i].name)
    ensures MissingEffect(st.slots[i], r.slots[i])
  {}

  lemma NewOf(st: State, ds: seq<Entry>, r: State, i: nat) returns (d: Entry)
    requires Refines(st, ds, r) && st.loaded <= i < r.loaded
    ensures i - st.loaded < |NewEntries(st, ds)| && d == NewEntries(st, ds)[i - st.loaded]
    ensures d in ds && d.node.Element? && NewEffect(Base(RowsOf(st).slots, i), d, false, r.slots[i])
  {
    d := AddedAt(st, ds, false, r, i);
  }

  lemma AddedAt(st: State, ds: seq<Entry>, initial: bool, r: State, i: nat) returns (d: Entry)
    requires AddedRows(st, ds, initial, r) && st.loaded <= i < r.loaded
    ensures i - st.loaded < |NewEntries(st, ds)| && d == NewEntries(st, ds)[i - st.loaded]
    ensures NewAt(st, d, ds, initial, i, r.slots[i])
  {
    var news := NewEntries(st, ds);
    d := news[i - st.loaded];
  }

  lemma AppliedRefines(st: State, ds: seq<Entry>, t: Rows, r: State)
    requires Table(st.slots, st.loaded) && Roomy(st.slots) && Applied(st, ds, false, t, r)
    requires forall k :: 0 <= k < |ds| ==> ds[k].node.Element? && ValidModule(ds[k].node.kids)
    ensures Refines(st, ds, r)
  {
    forall i, k | 0 <= i < st.loaded && 0 <= k < |ds| && NameOf(ds[k].node) == st.slots[i].name
      ensures ds[k].node.Element? && KnownEffect(st.slots[i], ds[k], r.slots[i]) {
      KnownSlot(st, ds, t, r, i, k);
    }
    forall i | 0 <= i < st.loaded && !Mentions(ds, st.slots[i].name) ensures MissingEffect(st.slots[i], r.slots[i]) {
      MissingSlot(st, ds, t, r, i);
    }
    forall i | st.loaded <= i < r.loaded ensures NewAt(st, NewEntries(st, ds)[i - st.loaded], ds, false, i, r.slots[i]) {
      NewSlot(st, ds, false, t, r, i);
    }
  }

  /** Every valid document is reconciled with every table. */
  lemma ReloadRefines(st: State, doc: Option<Node>)
    requires Table(st.slots, st.loaded) && Roomy(st.slots) && ValidDoc(doc)
    ensures Refines(st, Entries(doc.value.kids), Reloaded(st, doc, false))
  {
    DocEntries(doc);
    var t := ApplyDoes(st, doc.value.kids, false);
    AppliedRefines(st, Entries(doc.value.kids), t, Reloaded(st, doc, false));
  }

  /** The load at start-up: everything is new. */
  ghost predicate Boot(st: State, ds: seq<Entry>, r: State) {
    st.loaded <= r.loaded <= |r.slots| && AddedRows(st, ds, true, r) && SpareRows(st, r)
  }

  lemma ReloadStarts(st: State, doc: Option<Node>)
    requires Table(st.slots, st.loaded) && Roomy(st.slots) && ValidDoc(doc)
    ensures Boot(st, Entries(doc.value.kids), Reloaded(st, doc, true))
  {
    DocEntries(doc);
    var ds := Entries(doc.value.kids);
    var t := ApplyDoes(st, doc.value.kids, true);
    AppliedStarts(st, ds, t, Reloaded(st, doc, true));
  }

  lemma AppliedStarts(st: State, ds: seq<Entry>, t: Rows, r: State)
    requires Table(st.slots, st.loaded) && Roomy(st.slots) && Applied(st, ds, true, t, r)
    requires forall k :: 0 <= k < |ds| ==> ds[k].node.Element? && ValidModule(ds[k].node.kids)
    ensures Boot(st, ds, r)
  {
    forall i | st.loaded <= i < r.loaded ensures NewAt(st, NewEntries(st, ds)[i - st.loaded], ds, true, i, r.slots[i]) {
      NewSlot(st, ds, true, t, r, i);
    }
  }

  /** A new module without a limit of its own gets the default exactly if its slot was there before; in a slot
      that the load added it gets the limit 0. */
  lemma LimitOfNew(st: State, doc: Option<Node>, initial: bool, i: nat)
    requires Table(st.slots, st.loaded) && Roomy(st.slots) && ValidDoc(doc) && st.loaded <= i < Reloaded(st, doc, initial).loaded
    ensures var r := Reloaded(st, doc, initial);
            var news := NewEntries(st, Entries(doc.value.kids));
            && i - st.loaded < |news| && i < |r.slots| && news[i - st.loaded].node.Element?
            && (!Given(news[i - st.loaded].node.kids, RestartsTag) ==>
                  r.slots[i].maxRestarts == if i < |st.slots| then -1 else 0)
  {
    var ds, r := Entries(doc.value.kids), Reloaded(st, doc, initial);
    assert AddedRows(st, ds, initial, r) by {
      if initial {
        ReloadStarts(st, doc);
      } else {
        ReloadRefines(st, doc);
      }
    }
    var d := AddedAt(st, ds, initial, r, i);
  }
}
