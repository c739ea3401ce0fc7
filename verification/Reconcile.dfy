/** What a reload does, module by module: known names keep their slot, new ones
    are appended in document order, missing ones are flagged. */
module Reconcile {
  import opened Model
  import opened Document
  import opened Reload

  ghost predicate Known(t: Rows, name: string) {
    exists i :: 0 <= i < t.loaded <= |t.slots| && t.slots[i].name == name
  }

  ghost predicate DistinctRows(t: Rows) {
    t.loaded <= |t.slots| && forall i, j :: 0 <= i < j < t.loaded ==> t.slots[i].name != t.slots[j].name
  }

  /** The entries the table does not have yet, in document order. */
  ghost function News(t: Rows, ds: seq<Entry>): seq<Entry> {
    if ds == [] then []
    else News(t, ds[..|ds| - 1]) + if Known(t, NameOf(ds[|ds| - 1].node)) then [] else [ds[|ds| - 1]]
  }

  /** What stands in slot i before the document fills it. */
  function Base(slots: seq<Module>, i: nat): Module {
    if i < |slots| then slots[i] else FreshSlot
  }

  /** m became n: updated by the entry of its name, or left alone if there is none. */
  ghost predicate Updated(ds: seq<Entry>, initial: bool, m: Module, n: Module) {
    && (forall k :: 0 <= k < |ds| && NameOf(ds[k].node) == m.name ==> n == Reconciled(m, ds[k], false, initial))
    && ((forall k :: 0 <= k < |ds| ==> NameOf(ds[k].node) != m.name) ==> n == m)
  }

  ghost predicate OldRows(t: Rows, ds: seq<Entry>, initial: bool, slots: seq<Module>) {
    t.loaded <= |t.slots| <= |slots| && forall i :: 0 <= i < t.loaded ==> Updated(ds, initial, t.slots[i], slots[i])
  }

  /** What a new entry makes of slot i. */
  function Filling(t: Rows, initial: bool): (nat, Entry) -> Module {
    (i: nat, d: Entry) => Reconciled(Base(t.slots, i), d, true, initial)
  }

  /** The slots from `from` on hold the new entries in order. */
  ghost predicate NewRows(from: nat, news: seq<Entry>, fill: (nat, Entry) -> Module, slots: seq<Module>) {
    && from + |news| <= |slots|
    && forall i :: from <= i < from + |news| ==> slots[i] == fill(i, news[i - from])
  }

  ghost predicate RestRows(t: Rows, loaded: nat, slots: seq<Module>) {
    forall i :: loaded <= i < |slots| ==> slots[i] == Base(t.slots, i)
  }

  /** The table after the entries ds. */
  ghost predicate Entered(t: Rows, ds: seq<Entry>, initial: bool, r: Rows) {
    && r.loaded == t.loaded + |News(t, ds)|
    && OldRows(t, ds, initial, r.slots) && NewRows(t.loaded, News(t, ds), Filling(t, initial), r.slots) && RestRows(t, r.loaded, r.slots)
  }

  lemma ReconciledName(m: Module, d: Entry, isNew: bool, initial: bool)
    ensures Reconciled(m, d, isNew, initial).name == if isNew then NameOf(d.node) else m.name
  {}

  lemma {:induction false} NewsAre(t: Rows, ds: seq<Entry>)
    ensures forall j :: 0 <= j < |News(t, ds)| ==> News(t, ds)[j] in ds && !Known(t, NameOf(News(t, ds)[j].node))
  {
    if ds != [] {
      NewsAre(t, ds[..|ds| - 1]);
    }
  }

  /** The names in the table after the entries ds. */
  lemma OldNames(t: Rows, ds: seq<Entry>, initial: bool, slots: seq<Module>)
    requires OldRows(t, ds, initial, slots)
    ensures forall i :: 0 <= i < t.loaded ==> slots[i].name == t.slots[i].name
  {
    forall i | 0 <= i < t.loaded ensures slots[i].name == t.slots[i].name {
      assert Updated(ds, initial, t.slots[i], slots[i]);
      if k :| 0 <= k < |ds| && NameOf(ds[k].node) == t.slots[i].name {
        ReconciledName(t.slots[i], ds[k], false, initial);
      }
    }
  }

  lemma NewNames(t: Rows, news: seq<Entry>, initial: bool, slots: seq<Module>)
    requires NewRows(t.loaded, news, Filling(t, initial), slots)
    ensures forall i :: t.loaded <= i < t.loaded + |news| ==> slots[i].name == NameOf(news[i - t.loaded].node)
  {
    forall i | t.loaded <= i < t.loaded + |news| ensures slots[i].name == NameOf(news[i - t.loaded].node) {
      ReconciledName(Base(t.slots, i), news[i - t.loaded], true, initial);
    }
  }

  /** Where the next entry goes. */
  lemma FindsSlot(t: Rows, ds: seq<Entry>, d: Entry, initial: bool, r: Rows) returns (x: nat)
    requires Entered(t, ds, initial, r) && DistinctRows(t)
    requires forall k :: 0 <= k < |ds| ==> NameOf(ds[k].node) != NameOf(d.node)
    ensures x == FindFrom(r.slots, r.loaded, NameOf(d.node), 0)
    ensures if Known(t, NameOf(d.node)) then x < t.loaded && t.slots[x].name == NameOf(d.node) else x == r.loaded
  {
    x := FindFrom(r.slots, r.loaded, NameOf(d.node), 0);
    OldNames(t, ds, initial, r.slots);
    assert forall i :: t.loaded <= i < r.loaded ==> r.slots[i].name != NameOf(d.node) by {
      NewNames(t, News(t, ds), initial, r.slots);
      NewsAre(t, ds);
    }
    if Known(t, NameOf(d.node)) {
      var i :| 0 <= i < t.loaded && t.slots[i].name == NameOf(d.node);
      assert r.slots[i].name == NameOf(d.node);
    }
  }

  lemma UpdatedSame(ds: seq<Entry>, d: Entry, initial: bool, m: Module, n: Module)
    requires Updated(ds, initial, m, n) && m.name != NameOf(d.node)
    ensures Updated(ds + [d], initial, m, n)
  {
    var es := ds + [d];
    forall k | 0 <= k < |es| && NameOf(es[k].node) == m.name ensures n == Reconciled(m, es[k], false, initial) {
      assert es[k] == ds[k];
    }
    if forall k :: 0 <= k < |es| ==> NameOf(es[k].node) != m.name {
      assert forall k :: 0 <= k < |ds| ==> NameOf(ds[k].node) == NameOf(es[k].node);
    }
  }

  lemma UpdatedNow(ds: seq<Entry>, d: Entry, initial: bool, m: Module, n: Module)
    requires Updated(ds, initial, m, n) && m.name == NameOf(d.node)
    requires forall k :: 0 <= k < |ds| ==> NameOf(ds[k].node) != NameOf(d.node)
    ensures Updated(ds + [d], initial, m, Reconciled(n, d, false, initial))
  {
    assert n == m;
    var es := ds + [d];
    assert es[|ds|] == d;
  }

  lemma OldStep(t: Rows, ds: seq<Entry>, d: Entry, initial: bool, slots: seq<Module>, x: nat, n: Module)
    requires OldRows(t, ds, initial, slots) && x < |slots| && DistinctRows(t)
    requires forall k :: 0 <= k < |ds| ==> NameOf(ds[k].node) != NameOf(d.node)
    requires if x < t.loaded then t.slots[x].name == NameOf(d.node) && n == Reconciled(slots[x], d, false, initial)
             else !Known(t, NameOf(d.node))
    ensures OldRows(t, ds + [d], initial, slots[x := n])
  {
    forall i | 0 <= i < t.loaded ensures Updated(ds + [d], initial, t.slots[i], slots[x := n][i]) {
      if i == x {
        UpdatedNow(ds, d, initial, t.slots[i], slots[i]);
      } else {
        UpdatedSame(ds, d, initial, t.slots[i], slots[i]);
      }
    }
  }

  lemma NewStep(from: nat, news: seq<Entry>, d: Entry, fill: (nat, Entry) -> Module, slots: seq<Module>, x: nat, n: Module)
    requires NewRows(from, news, fill, slots) && x < |slots|
    ensures x < from ==> NewRows(from, news, fill, slots[x := n])
    ensures x == from + |news| && n == fill(x, d) ==> NewRows(from, news + [d], fill, slots[x := n])
  {}

  lemma RestStep(t: Rows, loaded: nat, slots: seq<Module>, x: nat, n: Module)
    requires RestRows(t, loaded, slots) && x < |slots|
    ensures x < loaded ==> RestRows(t, loaded, slots[x := n])
    ensures x == loaded ==> RestRows(t, loaded + 1, slots[x := n])
  {}

  /** Making room changes nothing that was said about the table. */
  lemma RoomStep(t: Rows, ds: seq<Entry>, initial: bool, r: Rows)
    requires Entered(t, ds, initial, r) && Tidy(r)
    ensures var slots := MakeRoom(r.slots, r.loaded);
            Entered(t, ds, initial, Rows(slots, r.loaded)) && r.loaded < |slots| && slots[r.loaded] == Base(t.slots, r.loaded)
  {
    var slots := MakeRoom(r.slots, r.loaded);
    assert forall i :: 0 <= i < |r.slots| ==> slots[i] == r.slots[i];
  }

  lemma EnterStep(t: Rows, ds: seq<Entry>, d: Entry, initial: bool, r: Rows)
    requires Entered(t, ds, initial, r) && DistinctRows(t) && Tidy(r)
    requires forall k :: 0 <= k < |ds| ==> NameOf(ds[k].node) != NameOf(d.node)
    ensures Entered(t, ds + [d], initial, Enter(r, d, initial))
  {
    var slots := MakeRoom(r.slots, r.loaded);
    RoomStep(t, ds, initial, r);
    var x := FindsSlot(t, ds, d, initial, Rows(slots, r.loaded));
    var n := Reconciled(slots[x], d, x == r.loaded, initial);
    OldStep(t, ds, d, initial, slots, x, n);
    NewStep(t.loaded, News(t, ds), d, Filling(t, initial), slots, x, n);
    RestStep(t, r.loaded, slots, x, n);
    assert (ds + [d])[..|ds|] == ds;
  }

  lemma EntersNothing(t: Rows, initial: bool)
    requires Tidy(t)
    ensures Entered(t, [], initial, t)
  {}

  /** Every entry updates the slot of its name or is appended; nothing else changes. */
  lemma {:induction false} EnterAllEffect(t: Rows, ds: seq<Entry>, initial: bool) returns (r: Rows)
    requires Tidy(t) && DistinctRows(t) && DistinctNames(ds)
    ensures r == EnterAll(t, ds, initial) && Tidy(r)
    ensures Entered(t, ds, initial, r)
  {
    if ds == [] {
      r := t;
      EntersNothing(t, initial);
    } else {
      var es, d := ds[..|ds| - 1], ds[|ds| - 1];
      assert ds == es + [d];
      var s := EnterAllEffect(t, es, initial);
      r := Enter(s, d, initial);
      assert Entered(t, es + [d], initial, r) by { EnterStep(t, es, d, initial, s); }
    }
  }
}
