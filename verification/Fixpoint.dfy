/** Reloading the same document again. */
module Fixpoint {
  import opened Model
  import opened Removal
  import opened Document
  import opened Reload
  import opened Reconcile
  import opened ReloadEffect
  import opened ReloadTheorem
  import opened Accounting
  import opened Config
  import opened Runs

  lemma {:induction false} RunConfig(st: State, steps: seq<Step>)
    requires Shaped(st) && forall k :: 0 <= k < |steps| ==> !steps[k].Reloading?
    ensures SameModules(st, Run(st, steps))
    decreases |steps|
  {
    if steps == [] {
      InPlace(st, st);
    } else {
      var s := Next(st, steps[0]);
      match steps[0] {
        case Service(e) => PeriodConfig(st, e);
        case User(c) => PerformConfig(c, st);
      }
      RunConfig(s, steps[1..]);
      SameModulesTrans(st, s, Run(s, steps[1..]));
    }
  }

  lemma SameUnchanged(ds: seq<Entry>, m: Module, n: Module)
    requires SameConfig(m, n)
    ensures Unchanged(ds, m) <==> Unchanged(ds, n)
  {
    assert forall kids :: Changed(kids, m) <==> Changed(kids, n);
  }

  /** Every module that is not flagged stores what the document gives. */
  ghost predicate Faithful(st: State, ds: seq<Entry>)
    requires Sized(st)
  {
    forall i :: 0 <= i < st.loaded && !st.slots[i].remove ==> Unchanged(ds, st.slots[i])
  }

  /** The modules that are not flagged are those of the document. */
  ghost predicate Covered(st: State, ds: seq<Entry>)
    requires Sized(st)
  {
    && (forall i :: 0 <= i < st.loaded && !st.slots[i].remove ==> Mentions(ds, st.slots[i].name))
    && (forall k :: 0 <= k < |ds| ==> Carried(st, NameOf(ds[k].node)))
  }

  ghost predicate Carried(st: State, name: string)
    requires Sized(st)
  {
    exists i :: 0 <= i < st.loaded && !st.slots[i].remove && st.slots[i].name == name
  }

  lemma CoveredLater(st: State, r: State, ds: seq<Entry>)
    requires SameModules(st, r) && Covered(st, ds)
    ensures Covered(r, ds)
  {
    forall i | 0 <= i < r.loaded && !r.slots[i].remove ensures Mentions(ds, r.slots[i].name) {
      assert Visit(i) && Contains(st, r.slots[i]);
      var j :| 0 <= j < st.loaded && SameConfig(st.slots[j], r.slots[i]);
      assert Mentions(ds, st.slots[j].name);
    }
    forall k | 0 <= k < |ds| ensures Carried(r, NameOf(ds[k].node)) {
      CarriedLater(st, r, NameOf(ds[k].node));
    }
  }

  lemma CarriedLater(st: State, r: State, name: string)
    requires SameModules(st, r) && Carried(st, name)
    ensures Carried(r, name)
  {
    var j :| 0 <= j < st.loaded && !st.slots[j].remove && st.slots[j].name == name;
    assert Visit(j) && Contains(r, st.slots[j]);
    var i :| 0 <= i < r.loaded && SameConfig(r.slots[i], st.slots[j]);
  }

  lemma FaithfulLater(st: State, r: State, ds: seq<Entry>)
    requires SameModules(st, r)
    ensures Faithful(st, ds) <==> Faithful(r, ds)
  {
    if Faithful(st, ds) {
      forall i | 0 <= i < r.loaded && !r.slots[i].remove ensures Unchanged(ds, r.slots[i]) {
        assert Visit(i) && Contains(st, r.slots[i]);
        var j :| 0 <= j < st.loaded && SameConfig(st.slots[j], r.slots[i]);
        SameUnchanged(ds, st.slots[j], r.slots[i]);
      }
    }
    if Faithful(r, ds) {
      forall j | 0 <= j < st.loaded && !st.slots[j].remove ensures Unchanged(ds, st.slots[j]) {
        assert Visit(j) && Contains(r, st.slots[j]);
        var i :| 0 <= i < r.loaded && SameConfig(r.slots[i], st.slots[j]);
        SameUnchanged(ds, r.slots[i], st.slots[j]);
      }
    }
  }

  // ----- What a reload establishes -----

  /** No known module loses an interface to the restarted scan. */
  ghost predicate NoDrops(st: State, ds: seq<Entry>)
    requires Sized(st)
  {
    forall i, k :: 0 <= i < st.loaded && 0 <= k < |ds| && NameOf(ds[k].node) == st.slots[i].name && ds[k].node.Element?
      ==> !Drops(ds[k].node.kids, st.slots[i])
  }

  lemma KnownChanged(m: Module, d: Entry, n: Module)
    requires d.node.Element? && KnownEffect(m, d, n)
    ensures Changed(d.node.kids, n) <==> Drops(d.node.kids, m)
    ensures n.name == m.name
  {}

  lemma NewChanged(base: Module, d: Entry, n: Module)
    requires d.node.Element? && NewEffect(base, d, false, n)
    ensures !Changed(d.node.kids, n) && n.name == NameOf(d.node)
  {}

  lemma KnownFaithful(st: State, ds: seq<Entry>, r: State, i: nat, k: nat)
    requires Refines(st, ds, r) && DistinctNames(ds) && i < st.loaded && k < |ds| && NameOf(ds[k].node) == st.slots[i].name
    ensures ds[k].node.Element? && r.slots[i].name == st.slots[i].name
    ensures Unchanged(ds, r.slots[i]) <==> !Drops(ds[k].node.kids, st.slots[i])
  {
    KnownOf(st, ds, r, i, k);
    KnownChanged(st.slots[i], ds[k], r.slots[i]);
    UnchangedIs(ds, r.slots[i], k);
  }

  lemma NewFaithful(st: State, ds: seq<Entry>, r: State, i: nat)
    requires Refines(st, ds, r) && DistinctNames(ds) && st.loaded <= i < r.loaded
    ensures Unchanged(ds, r.slots[i]) && Mentions(ds, r.slots[i].name)
  {
    var d := NewOf(st, ds, r, i);
    NewEntryFaithful(ds, Base(RowsOf(st).slots, i), d, r.slots[i]);
  }

  lemma NewEntryFaithful(ds: seq<Entry>, base: Module, d: Entry, n: Module)
    requires DistinctNames(ds) && d in ds && d.node.Element? && NewEffect(base, d, false, n)
    ensures Unchanged(ds, n) && Mentions(ds, n.name) && n.name == NameOf(d.node)
  {
    NewChanged(base, d, n);
    var k :| 0 <= k < |ds| && ds[k] == d;
    UnchangedIs(ds, n, k);
  }

  lemma {:induction false} NewsHave(t: Rows, ds: seq<Entry>, k: nat) returns (j: nat)
    requires k < |ds| && !Known(t, NameOf(ds[k].node))
    ensures j < |News(t, ds)| && News(t, ds)[j] == ds[k]
  {
    if k == |ds| - 1 {
      j := |News(t, ds)| - 1;
    } else {
      j := NewsHave(t, ds[..|ds| - 1], k);
    }
  }

  lemma RefinesCovers(st: State, ds: seq<Entry>, r: State)
    requires Refines(st, ds, r) && DistinctNames(ds)
    ensures Covered(r, ds)
  {
    RefinesMarks(st, ds, r);
    forall i | 0 <= i < r.loaded && !r.slots[i].remove ensures Mentions(ds, r.slots[i].name) {
      if i < st.loaded {
        var k :| 0 <= k < |ds| && NameOf(ds[k].node) == st.slots[i].name;
        KnownFaithful(st, ds, r, i, k);
      } else {
        NewFaithful(st, ds, r, i);
      }
    }
    forall k | 0 <= k < |ds| ensures Carried(r, NameOf(ds[k].node)) {
      EntryCarried(st, ds, r, k);
    }
  }

  lemma EntryCarried(st: State, ds: seq<Entry>, r: State, k: nat)
    requires Refines(st, ds, r) && DistinctNames(ds) && Marks(st, ds, r) && k < |ds|
    ensures Carried(r, NameOf(ds[k].node))
  {
    if Known(RowsOf(st), NameOf(ds[k].node)) {
      var i :| 0 <= i < st.loaded && RowsOf(st).slots[i].name == NameOf(ds[k].node);
      assert Mentions(ds, st.slots[i].name);
      KnownFaithful(st, ds, r, i, k);
      assert r.slots[i].name == NameOf(ds[k].node);
    } else {
      NewCarried(st, ds, r, k);
    }
  }

  lemma NewCarried(st: State, ds: seq<Entry>, r: State, k: nat)
    requires Refines(st, ds, r) && DistinctNames(ds) && Marks(st, ds, r) && k < |ds| && !Known(RowsOf(st), NameOf(ds[k].node))
    ensures Carried(r, NameOf(ds[k].node))
  {
    var j := NewsHave(RowsOf(st), ds, k);
    var i := st.loaded + j;
    assert NewEntries(st, ds)[i - st.loaded] == ds[k];
    var d := NewOf(st, ds, r, i);
    NewEntryFaithful(ds, Base(RowsOf(st).slots, i), d, r.slots[i]);
    assert !r.slots[i].remove && r.slots[i].name == NameOf(ds[k].node);
  }

  lemma RefinesFaithful(st: State, ds: seq<Entry>, r: State)
    requires Refines(st, ds, r) && DistinctNames(ds)
    ensures Faithful(r, ds) <==> NoDrops(st, ds)
  {
    RefinesMarks(st, ds, r);
    forall i | st.loaded <= i < r.loaded ensures Unchanged(ds, r.slots[i]) {
      NewFaithful(st, ds, r, i);
    }
    forall i, k | 0 <= i < st.loaded && 0 <= k < |ds| && NameOf(ds[k].node) == st.slots[i].name
      ensures ds[k].node.Element? && (Unchanged(ds, r.slots[i]) <==> !Drops(ds[k].node.kids, st.slots[i])) {
      KnownFaithful(st, ds, r, i, k);
    }
    FaithfulFrom(st, r, ds);
  }

  lemma FaithfulFrom(st: State, r: State, ds: seq<Entry>)
    requires Marks(st, ds, r)
    requires forall i :: st.loaded <= i < r.loaded ==> Unchanged(ds, r.slots[i])
    requires forall i, k :: 0 <= i < st.loaded && 0 <= k < |ds| && NameOf(ds[k].node) == st.slots[i].name
               ==> ds[k].node.Element? && (Unchanged(ds, r.slots[i]) <==> !Drops(ds[k].node.kids, st.slots[i]))
    ensures Faithful(r, ds) <==> NoDrops(st, ds)
  {
    if NoDrops(st, ds) {
      forall i | 0 <= i < r.loaded && !r.slots[i].remove ensures Unchanged(ds, r.slots[i]) {
        if i < st.loaded {
          var k :| 0 <= k < |ds| && NameOf(ds[k].node) == st.slots[i].name;
        }
      }
    }
  }

  // ----- The second reload -----

  lemma CoveredKnown(st: State, ds: seq<Entry>)
    requires Sized(st) && Covered(st, ds)
    ensures AllKnown(RowsOf(st), ds)
  {
    forall k | 0 <= k < |ds| ensures Known(RowsOf(st), NameOf(ds[k].node)) {
      assert Carried(st, NameOf(ds[k].node));
      var i :| 0 <= i < st.loaded && st.slots[i].name == NameOf(ds[k].node);
      assert RowsOf(st).slots[i].name == NameOf(ds[k].node);
    }
  }

  /** From s, which covers the entries, to r, and then the same entries again. */
  lemma AgainReport(s: State, r: State, ds: seq<Entry>, again: State)
    requires SameModules(s, r) && Covered(s, ds) && DistinctNames(ds) && Refines(r, ds, again)
    requires Flagged(Loaded(r)) == 0
    ensures again.loaded == r.loaded && Flagged(Loaded(again)) == 0
    ensures Modified(Loaded(again)) == 0 <==> Faithful(s, ds)
  {
    assert Covered(r, ds) by { CoveredLater(s, r, ds); }
    FaithfulLater(s, r, ds);
    CoveredKnown(r, ds);
    Unflagged(r, ds);
    ReportsOf(r, ds, again);
  }

  lemma Unflagged(r: State, ds: seq<Entry>)
    requires Sized(r) && Covered(r, ds) && Flagged(Loaded(r)) == 0
    ensures AllMentioned(r, ds) && (AllUnchanged(r, ds) <==> Faithful(r, ds))
  {
    forall i | 0 <= i < r.loaded ensures !r.slots[i].remove {
      NoneFlagged(Loaded(r), i);
    }
  }

  lemma RunSame(s: State, steps: seq<Step>)
    requires Good(s) && forall k :: 0 <= k < |steps| ==> !steps[k].Reloading?
    ensures Good(Run(s, steps)) && SameModules(s, Run(s, steps))
  {
    RunKeeps(s, steps);
    RunConfig(s, steps);
  }

  /** Reload, any periods and user commands, and the same document again: as soon as no flagged module
      is left, the second reload reports nothing inserted and nothing removed, and it reports nothing
      modified exactly if the first one lost no interface. */
  lemma ReloadAgain(st: State, doc: Option<Node>, steps: seq<Step>)
    requires Good(st) && ValidDoc(doc) && forall k :: 0 <= k < |steps| ==> !steps[k].Reloading?
    requires Flagged(Loaded(Run(Reloaded(st, doc, false), steps))) == 0
    ensures var r := Run(Reloaded(st, doc, false), steps);
            var again := Reloaded(r, doc, false);
            && Sized(again) && again.loaded == r.loaded && Flagged(Loaded(again)) == 0
            && (Modified(Loaded(again)) == 0 <==> NoDrops(st, Entries(doc.value.kids)))
  {
    var s := Reloaded(st, doc, false);
    assert Good(s) by { ReloadGood(st, doc); }
    assert Refines(st, Entries(doc.value.kids), s) by { ReloadRefines(st, doc); }
    AgainOf(st, doc, steps, s);
  }

  lemma ReloadGood(st: State, doc: Option<Node>)
    requires Good(st)
    ensures Good(Reloaded(st, doc, false))
  {
    NextKeeps(st, Reloading(doc));
  }

  lemma AgainOf(st: State, doc: Option<Node>, steps: seq<Step>, s: State)
    requires Sized(st) && Good(s) && ValidDoc(doc) && Refines(st, Entries(doc.value.kids), s)
    requires forall k :: 0 <= k < |steps| ==> !steps[k].Reloading?
    requires Flagged(Loaded(Run(s, steps))) == 0
    ensures var r := Run(s, steps);
            var again := Reloaded(r, doc, false);
            && Sized(again) && again.loaded == r.loaded && Flagged(Loaded(again)) == 0
            && (Modified(Loaded(again)) == 0 <==> NoDrops(st, Entries(doc.value.kids)))
  {
    var ds := Entries(doc.value.kids);
    var r := Run(s, steps);
    RefinesCovers(st, ds, s);
    RefinesFaithful(st, ds, s);
    RunSame(s, steps);
    ReloadRefines(r, doc);
    AgainReport(s, r, ds, Reloaded(r, doc, false));
  }
}
