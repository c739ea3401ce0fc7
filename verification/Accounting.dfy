/** The numbers a reload reports, and when it reports that nothing changed. */
module Accounting {
  import opened Model
  import opened Invariants
  import opened Removal
  import opened Document
  import opened Reload
  import opened Reconcile
  import opened ReloadEffect
  import opened ReloadTheorem

  /** Modules the document does not mention. */
  ghost function Absent(ms: seq<Module>, ds: seq<Entry>): nat {
    if ms == [] then 0 else (if Mentions(ds, ms[0].name) then 0 else 1) + Absent(ms[1..], ds)
  }

  ghost predicate DistinctModules(ms: seq<Module>) {
    forall i, j :: 0 <= i < j < |ms| ==> ms[i].name != ms[j].name
  }

  ghost predicate Has(ms: seq<Module>, name: string) {
    exists i :: 0 <= i < |ms| && ms[i].name == name
  }

  lemma MentionsStep(ds: seq<Entry>, d: Entry, name: string)
    ensures Mentions(ds + [d], name) <==> Mentions(ds, name) || NameOf(d.node) == name
  {
    var es := ds + [d];
    if Mentions(ds, name) {
      var k :| 0 <= k < |ds| && NameOf(ds[k].node) == name;
      assert es[k] == ds[k];
    }
    assert es[|ds|] == d;
  }

  /** Another entry takes exactly one module of the table, if it names one. */
  lemma {:induction false} AbsentStep(ms: seq<Module>, ds: seq<Entry>, d: Entry)
    requires DistinctModules(ms) && !Mentions(ds, NameOf(d.node))
    ensures Absent(ms, ds) == Absent(ms, ds + [d]) + if Has(ms, NameOf(d.node)) then 1 else 0
  {
    if ms != [] {
      AbsentStep(ms[1..], ds, d);
      MentionsStep(ds, d, ms[0].name);
      assert ms[0].name == NameOf(d.node) ==> !Has(ms[1..], NameOf(d.node));
      assert Has(ms[1..], NameOf(d.node)) ==> Has(ms, NameOf(d.node)) by {
        if i :| 0 <= i < |ms[1..]| && ms[1..][i].name == NameOf(d.node) {
          assert ms[i + 1].name == NameOf(d.node);
        }
      }
    }
  }

  lemma {:induction false} AbsentAll(ms: seq<Module>)
    ensures Absent(ms, []) == |ms|
  {
    if ms != [] {
      AbsentAll(ms[1..]);
    }
  }

  lemma {:induction false} Balance(t: Rows, ds: seq<Entry>)
    requires DistinctRows(t) && DistinctNames(ds)
    ensures t.loaded - Absent(t.slots[..t.loaded], ds) + |News(t, ds)| == |ds|
  {
    var ms := t.slots[..t.loaded];
    if ds == [] {
      AbsentAll(ms);
    } else {
      var es, d := ds[..|ds| - 1], ds[|ds| - 1];
      assert ds == es + [d];
      Balance(t, es);
      AbsentStep(ms, es, d);
      assert Has(ms, NameOf(d.node)) <==> Known(t, NameOf(d.node)) by {
        if Known(t, NameOf(d.node)) {
          var i :| 0 <= i < t.loaded && t.slots[i].name == NameOf(d.node);
          assert ms[i].name == NameOf(d.node);
        }
      }
    }
  }

  /** The flags a reload sets are the modules it did not find. */
  lemma {:induction false} FlagsAbsent(a: seq<Module>, ms: seq<Module>, ds: seq<Entry>)
    requires |ms| <= |a| && forall i :: 0 <= i < |ms| ==> (a[i].remove <==> !Mentions(ds, ms[i].name))
    requires forall i :: |ms| <= i < |a| ==> !a[i].remove
    ensures Flagged(a) == Absent(ms, ds)
    decreases |a|
  {
    if ms != [] {
      FlagsAbsent(a[1..], ms[1..], ds);
    } else if a != [] {
      FlagsAbsent(a[1..], ms, ds);
    }
  }

  function Modified(ms: seq<Module>): nat {
    if ms == [] then 0 else (if ms[0].modified then 1 else 0) + Modified(ms[1..])
  }

  /** Modules that were found as they were. */
  function Untouched(ms: seq<Module>): nat {
    if ms == [] then 0 else (if ms[0].modified || ms[0].remove then 0 else 1) + Untouched(ms[1..])
  }

  lemma {:induction false} Partition(a: seq<Module>, known: nat)
    requires known <= |a| && forall i :: 0 <= i < |a| ==> !(a[i].modified && a[i].remove)
    requires forall i :: known <= i < |a| ==> !a[i].modified && !a[i].remove
    ensures Modified(a) + Flagged(a) + Untouched(a[..known]) == known
    decreases |a|
  {
    if a != [] {
      if known == 0 {
        Partition(a[1..], 0);
        assert a[..0] == [] && a[1..][..0] == [];
      } else {
        Partition(a[1..], known - 1);
        assert a[..known][1..] == a[1..][..known - 1];
      }
    }
  }

  /** What each slot of the result is flagged as. */
  ghost predicate Marks(st: State, ds: seq<Entry>, r: State) {
    && st.loaded <= |st.slots| && st.loaded <= r.loaded <= |r.slots|
    && (forall i :: 0 <= i < st.loaded ==> (r.slots[i].remove <==> !Mentions(ds, st.slots[i].name)))
    && (forall i :: 0 <= i < st.loaded ==> !(r.slots[i].modified && r.slots[i].remove))
    && (forall i :: st.loaded <= i < r.loaded ==> !r.slots[i].modified && !r.slots[i].remove)
    && r.loaded == st.loaded + |NewEntries(st, ds)|
  }

  lemma RefinesMarks(st: State, ds: seq<Entry>, r: State)
    requires Refines(st, ds, r)
    ensures Marks(st, ds, r)
  {
    forall i | 0 <= i < st.loaded
      ensures (r.slots[i].remove <==> !Mentions(ds, st.slots[i].name)) && !(r.slots[i].modified && r.slots[i].remove) {
      MarkKnown(st, ds, r, i);
    }
    forall i | st.loaded <= i < r.loaded ensures !r.slots[i].modified && !r.slots[i].remove {
      var d := NewOf(st, ds, r, i);
    }
  }

  lemma MarkKnown(st: State, ds: seq<Entry>, r: State, i: nat)
    requires Refines(st, ds, r) && i < st.loaded
    ensures (r.slots[i].remove <==> !Mentions(ds, st.slots[i].name)) && !(r.slots[i].modified && r.slots[i].remove)
  {
    if Mentions(ds, st.slots[i].name) {
      var k :| 0 <= k < |ds| && NameOf(ds[k].node) == st.slots[i].name;
      KnownOf(st, ds, r, i, k);
    } else {
      MissingOf(st, ds, r, i);
    }
  }

  /** The report adds up: original - removed + inserted is the number of module elements, no module is both
      modified and removed, and what is left over is exactly the modules found unchanged. */
  lemma ReloadBalance(st: State, doc: Option<Node>)
    requires Table(st.slots, st.loaded) && Roomy(st.slots) && ValidDoc(doc)
    ensures var r := Reloaded(st, doc, false);
            var removed := Flagged(Loaded(r));
            var inserted := r.loaded - st.loaded;
            && st.loaded <= r.loaded <= |r.slots|
            && st.loaded - removed + inserted == |Entries(doc.value.kids)|
            && st.loaded - Modified(Loaded(r)) - removed == Untouched(r.slots[..st.loaded])
  {
    ReloadRefines(st, doc);
    BalanceOf(st, Entries(doc.value.kids), Reloaded(st, doc, false));
  }

  lemma BalanceOf(st: State, ds: seq<Entry>, r: State)
    requires Table(st.slots, st.loaded) && DistinctNames(ds) && Refines(st, ds, r)
    ensures st.loaded - Flagged(Loaded(r)) + (r.loaded - st.loaded) == |ds|
    ensures st.loaded - Modified(Loaded(r)) - Flagged(Loaded(r)) == Untouched(r.slots[..st.loaded])
  {
    RefinesMarks(st, ds, r);
    FlagsAbsent(Loaded(r), Loaded(st), ds);
    Partition(Loaded(r), st.loaded);
    assert Loaded(r)[..st.loaded] == r.slots[..st.loaded];
    SameAbsent(Loaded(st), RowsOf(st).slots[..st.loaded], ds);
    Balance(RowsOf(st), ds);
  }

  lemma {:induction false} SameAbsent(a: seq<Module>, b: seq<Module>, ds: seq<Entry>)
    requires |a| == |b| && forall i :: 0 <= i < |a| ==> a[i].name == b[i].name
    ensures Absent(a, ds) == Absent(b, ds)
  {
    if a != [] {
      SameAbsent(a[1..], b[1..], ds);
    }
  }

  // ----- Nothing changed -----

  ghost predicate Unchanged(ds: seq<Entry>, m: Module) {
    forall k :: 0 <= k < |ds| && NameOf(ds[k].node) == m.name ==> ds[k].node.Element? && !Changed(ds[k].node.kids, m)
  }

  ghost predicate AllMentioned(st: State, ds: seq<Entry>)
    requires Sized(st)
  {
    forall i :: 0 <= i < st.loaded ==> Mentions(ds, st.slots[i].name)
  }

  ghost predicate AllUnchanged(st: State, ds: seq<Entry>)
    requires Sized(st)
  {
    forall i :: 0 <= i < st.loaded ==> Unchanged(ds, st.slots[i])
  }

  /** The table is what the document describes. */
  ghost predicate Mirrors(st: State, ds: seq<Entry>)
    requires Sized(st)
  {
    AllKnown(RowsOf(st), ds) && AllMentioned(st, ds) && AllUnchanged(st, ds)
  }

  ghost predicate AllKnown(t: Rows, ds: seq<Entry>) {
    forall k :: 0 <= k < |ds| ==> Known(t, NameOf(ds[k].node))
  }

  lemma {:induction false} NoNews(t: Rows, ds: seq<Entry>)
    ensures News(t, ds) == [] <==> AllKnown(t, ds)
  {
    if ds != [] {
      var es, d := ds[..|ds| - 1], ds[|ds| - 1];
      NoNews(t, es);
      assert ds == es + [d];
      assert AllKnown(t, ds) <==> AllKnown(t, es) && Known(t, NameOf(d.node)) by {
        assert forall k :: 0 <= k < |es| ==> ds[k] == es[k];
        assert ds[|es|] == d;
      }
    }
  }

  lemma {:induction false} NoModified(ms: seq<Module>)
    ensures Modified(ms) == 0 <==> forall i :: 0 <= i < |ms| ==> !ms[i].modified
  {
    if ms != [] {
      NoModified(ms[1..]);
      assert forall i :: 0 < i < |ms| ==> ms[i] == ms[1..][i - 1];
    }
  }

  lemma {:induction false} NoFlagged(ms: seq<Module>)
    ensures Flagged(ms) == 0 <==> forall i :: 0 <= i < |ms| ==> !ms[i].remove
  {
    if ms != [] {
      NoFlagged(ms[1..]);
      assert forall i :: 0 < i < |ms| ==> ms[i] == ms[1..][i - 1];
    }
  }

  lemma UnchangedIs(ds: seq<Entry>, m: Module, k: nat)
    requires DistinctNames(ds) && k < |ds| && NameOf(ds[k].node) == m.name && ds[k].node.Element?
    ensures Unchanged(ds, m) <==> !Changed(ds[k].node.kids, m)
  {}

  lemma ModifiedAt(st: State, ds: seq<Entry>, r: State, i: nat)
    requires Refines(st, ds, r) && DistinctNames(ds) && i < st.loaded
    ensures !r.slots[i].modified <==> Unchanged(ds, st.slots[i])
  {
    if Mentions(ds, st.slots[i].name) {
      var k :| 0 <= k < |ds| && NameOf(ds[k].node) == st.slots[i].name;
      KnownOf(st, ds, r, i, k);
      UnchangedIs(ds, st.slots[i], k);
    } else {
      MissingOf(st, ds, r, i);
    }
  }

  lemma ModifiesNothing(st: State, ds: seq<Entry>, r: State)
    requires Refines(st, ds, r) && DistinctNames(ds)
    ensures Modified(Loaded(r)) == 0 <==> AllUnchanged(st, ds)
  {
    RefinesMarks(st, ds, r);
    forall i | 0 <= i < st.loaded ensures !r.slots[i].modified <==> Unchanged(ds, st.slots[i]) {
      ModifiedAt(st, ds, r, i);
    }
    ZeroModified(st, r, ds);
  }

  lemma ZeroModified(st: State, r: State, ds: seq<Entry>)
    requires st.loaded <= |st.slots| && st.loaded <= r.loaded <= |r.slots|
    requires forall i :: 0 <= i < st.loaded ==> (!r.slots[i].modified <==> Unchanged(ds, st.slots[i]))
    requires forall i :: st.loaded <= i < r.loaded ==> !r.slots[i].modified
    ensures Modified(Loaded(r)) == 0 <==> AllUnchanged(st, ds)
  {
    NoModified(Loaded(r));
    if Modified(Loaded(r)) == 0 {
      assert forall i :: 0 <= i < st.loaded ==> Loaded(r)[i] == r.slots[i];
    }
  }

  lemma RemovesNothing(st: State, ds: seq<Entry>, r: State)
    requires Marks(st, ds, r)
    ensures Flagged(Loaded(r)) == 0 <==> AllMentioned(st, ds)
  {
    NoFlagged(Loaded(r));
    if Flagged(Loaded(r)) == 0 {
      assert forall i :: 0 <= i < st.loaded ==> Loaded(r)[i] == r.slots[i];
    }
  }

  lemma ReportsOf(st: State, ds: seq<Entry>, r: State)
    requires Refines(st, ds, r) && DistinctNames(ds)
    ensures r.loaded == st.loaded <==> AllKnown(RowsOf(st), ds)
    ensures Flagged(Loaded(r)) == 0 <==> AllMentioned(st, ds)
    ensures Modified(Loaded(r)) == 0 <==> AllUnchanged(st, ds)
  {
    RefinesMarks(st, ds, r);
    NoNews(RowsOf(st), ds);
    RemovesNothing(st, ds, r);
    ModifiesNothing(st, ds, r);
  }

  /** A reload reports 0 inserted, 0 removed and 0 modified exactly when the table mirrors the document. */
  lemma ReportsNothing(st: State, doc: Option<Node>)
    requires Table(st.slots, st.loaded) && Roomy(st.slots) && ValidDoc(doc)
    ensures var r := Reloaded(st, doc, false);
            Sized(r) && (r.loaded == st.loaded && Flagged(Loaded(r)) == 0 && Modified(Loaded(r)) == 0
                         <==> Mirrors(st, Entries(doc.value.kids)))
  {
    ReloadRefines(st, doc);
    ReportsOf(st, Entries(doc.value.kids), Reloaded(st, doc, false));
  }
}
