/** What a valid document gives, read off its elements one by one: the default limit,
    the profiles, the attributes of every module, and which modules count as modified. */
module ReloadGives {
  import opened Model
  import opened Invariants
  import opened Document
  import opened Interfaces
  import opened Reload
  import opened ReloadEffect
  import opened ReloadTheorem

  lemma OnlyKid(kids: seq<Node>, a: Node)
    requires a in kids && a.Element? && |Elements(kids, a.tag)| <= 1
    ensures Given(kids, a.tag) && Text(kids, a.tag) == a.text && Elements(kids, a.tag) == [a]
  {
    ElementsAre(kids, a.tag);
    assert a in Elements(kids, a.tag);
  }

  // ----- The default limit -----

  ghost predicate GivesLimit(kids: seq<Node>, s: Node, n: Node) {
    s in kids && Is(s, SupervisorTag) && n in s.kids && Is(n, RestartsTag)
  }

  /** The default limit becomes the one the document gives; without one it stays. */
  lemma DefaultLimitGiven(st: State, doc: Option<Node>, initial: bool)
    requires st.loaded <= |st.slots| != 1 && ValidDoc(doc)
    ensures var r := Reloaded(st, doc, initial);
            && (forall s, n :: GivesLimit(doc.value.kids, s, n) ==> n.text.Some? && ScanInt(n.text.value) == Some(r.defaultLimit))
            && ((forall s, n :: !GivesLimit(doc.value.kids, s, n)) ==> r.defaultLimit == st.defaultLimit)
  {
    var kids := doc.value.kids;
    forall s, n | GivesLimit(kids, s, n)
      ensures n.text.Some? && ScanInt(n.text.value) == Some(SupervisorLimit(kids, st.defaultLimit)) {
      LimitFrom(kids, s, n, st.defaultLimit);
    }
    if forall s, n :: !GivesLimit(kids, s, n) {
      NoLimit(kids, st.defaultLimit);
    }
  }

  lemma LimitFrom(kids: seq<Node>, s: Node, n: Node, current: int)
    requires GivesLimit(kids, s, n) && RootKid(s) && |Elements(kids, SupervisorTag)| <= 1
    ensures n.text.Some? && ScanInt(n.text.value) == Some(SupervisorLimit(kids, current))
  {
    OnlyKid(kids, s);
    OnlyKid(s.kids, n);
    assert SupervisorKid(n);
  }

  lemma NoLimit(kids: seq<Node>, current: int)
    requires forall s, n :: !GivesLimit(kids, s, n)
    ensures SupervisorLimit(kids, current) == current
  {
    var sups := Elements(kids, SupervisorTag);
    ElementsAre(kids, SupervisorTag);
    if sups != [] {
      var s := sups[|sups| - 1];
      assert s in sups;
      ElementsAre(s.kids, RestartsTag);
      var es := Elements(s.kids, RestartsTag);
      assert es != [] ==> GivesLimit(kids, s, es[0]);
    }
  }

  // ----- The profiles -----

  /** Profile p has the name and the switch that the children of element m give. */
  ghost predicate ProfileFrom(m: Node, p: Profile) {
    m.Element? && forall a :: a in m.kids ==>
      (Is(a, NameTag) ==> a.text == Some(p.name)) && (Is(a, EnabledTag) ==> (p.enabled <==> a.text == Some("true")))
  }

  /** There is one profile for each "modules" element, in order, with its name and its switch. */
  lemma ProfilesGiven(st: State, doc: Option<Node>, initial: bool)
    requires st.loaded <= |st.slots| != 1 && ValidDoc(doc)
    ensures var ps, ms := Reloaded(st, doc, initial).profiles, Elements(doc.value.kids, ModulesTag);
            |ps| == |ms| && forall k :: 0 <= k < |ms| ==> ProfileFrom(ms[k], ps[k])
  {
    ProfilesFrom(doc.value.kids, Elements(doc.value.kids, ModulesTag), ProfilesIn(doc.value.kids));
  }

  lemma ProfilesFrom(kids: seq<Node>, ms: seq<Node>, ps: seq<Profile>)
    requires (forall n :: n in kids ==> RootKid(n)) && ms == Elements(kids, ModulesTag) && ps == ProfilesIn(kids)
    ensures |ps| == |ms| && forall k :: 0 <= k < |ms| ==> ProfileFrom(ms[k], ps[k])
  {
    ElementsAre(kids, ModulesTag);
    forall k | 0 <= k < |ms| ensures ProfileFrom(ms[k], ps[k]) {
      assert ms[k] in ms && RootKid(ms[k]);
      ProfileAt(ms[k], ps[k]);
    }
  }

  lemma ProfileAt(m: Node, p: Profile)
    requires Is(m, ModulesTag) && ValidModules(m.kids) && p == ProfileOf(m)
    ensures ProfileFrom(m, p)
  {
    forall a | a in m.kids
      ensures (Is(a, NameTag) ==> a.text == Some(p.name)) && (Is(a, EnabledTag) ==> (p.enabled <==> a.text == Some("true"))) {
      ProfileGiven(m, a);
    }
  }

  lemma ProfileGiven(n: Node, a: Node)
    requires Is(n, ModulesTag) && ValidModules(n.kids) && a in n.kids
    ensures Is(a, NameTag) ==> a.text == Some(ProfileOf(n).name)
    ensures Is(a, EnabledTag) ==> (ProfileOf(n).enabled <==> a.text == Some("true"))
  {
    assert ModulesKid(a);
    if Is(a, NameTag) || Is(a, EnabledTag) {
      OnlyKid(n.kids, a);
    }
  }

  // ----- The attributes of a module -----

  /** The record holds what the child a of its element gives. */
  predicate Holds(n: Module, a: Node) {
    && (Is(a, NameTag) ==> a.text == Some(n.name))
    && (Is(a, PathTag) ==> n.path == a.text)
    && (Is(a, ParamsTag) ==> n.params == a.text)
    && (Is(a, EnabledTag) ==> (n.enabled || n.init <==> a.text == Some("true")))
    && (Is(a, RestartsTag) ==> a.text.Some? && ScanInt(a.text.value) == Some(n.maxRestarts))
  }

  lemma StoresHolds(d: Entry, n: Module, a: Node)
    requires d.node.Element? && ValidModule(d.node.kids) && Stores(d, n) && a in d.node.kids
    ensures Holds(n, a)
  {
    assert ModuleKid(a);
    if Is(a, NameTag) || Is(a, PathTag) || Is(a, ParamsTag) || Is(a, EnabledTag) || Is(a, RestartsTag) {
      OnlyKid(d.node.kids, a);
    }
  }

  /** After a reload the slot of every module the document mentions holds everything given there but the interfaces. */
  lemma AttributesGiven(st: State, doc: Option<Node>, i: nat, k: nat, a: Node)
    requires Table(st.slots, st.loaded) && Roomy(st.slots) && ValidDoc(doc) && i < st.loaded
    requires var ds := Entries(doc.value.kids);
             k < |ds| && NameOf(ds[k].node) == st.slots[i].name && ds[k].node.Element? && a in ds[k].node.kids
    ensures i < |Reloaded(st, doc, false).slots| && Holds(Reloaded(st, doc, false).slots[i], a)
  {
    var ds, r := Entries(doc.value.kids), Reloaded(st, doc, false);
    ReloadRefines(st, doc);
    DocEntries(doc);
    KnownOf(st, ds, r, i, k);
    StoresHolds(ds[k], r.slots[i], a);
  }

  /** So does the slot of every new module, after a reload or the load at start-up. */
  lemma NewGiven(st: State, doc: Option<Node>, initial: bool, i: nat, a: Node)
    requires Table(st.slots, st.loaded) && Roomy(st.slots) && ValidDoc(doc) && st.loaded <= i < Reloaded(st, doc, initial).loaded
    requires var news := NewEntries(st, Entries(doc.value.kids));
             i - st.loaded < |news| && news[i - st.loaded].node.Element? && a in news[i - st.loaded].node.kids
    ensures i < |Reloaded(st, doc, initial).slots| && Holds(Reloaded(st, doc, initial).slots[i], a)
  {
    var ds, r := Entries(doc.value.kids), Reloaded(st, doc, initial);
    assert AddedRows(st, ds, initial, r) by {
      if initial {
        ReloadStarts(st, doc);
      } else {
        ReloadRefines(st, doc);
      }
    }
    var d := AddedAt(st, ds, initial, r, i);
    DocEntries(doc);
    StoresHolds(d, r.slots[i], a);
  }

  // ----- Which modules are modified -----

  /** The path or the parameters given by child a differ. */
  predicate AttributeDiffers(m: Module, a: Node) {
    (Is(a, PathTag) && a.text != m.path) || (Is(a, ParamsTag) && a.text != m.params)
  }

  /** The attribute of an interface that child a gives differs. */
  predicate IfcDiffers(f: Interface, a: Node) {
    || (Is(a, NoteTag) && f.note != a.text) || (Is(a, TypeTag) && f.kind != a.text)
    || (Is(a, ParamsTag) && f.params != a.text) || (Is(a, DirectionTag) && f.direction != a.text)
  }

  ghost predicate SomeIfcDiffers(m: Module, ns: seq<Node>)
    requires |m.ifces| == |ns|
  {
    exists j, a :: 0 <= j < |ns| && ns[j].Element? && a in ns[j].kids && IfcDiffers(m.ifces[j], a)
  }

  ghost predicate Departs(m: Module, kids: seq<Node>) {
    || (exists a :: a in kids && AttributeDiffers(m, a))
    || |m.ifces| != |IfcNodes(kids)| || SomeIfcDiffers(m, IfcNodes(kids))
  }

  lemma DiffersExactly(kids: seq<Node>, tag: Tag, stored: Option<Content>)
    requires |Elements(kids, tag)| <= 1
    ensures Differs(kids, tag, stored) <==> exists a :: a in kids && Is(a, tag) && a.text != stored
  {
    ElementsAre(kids, tag);
    if Given(kids, tag) {
      var a := Elements(kids, tag)[0];
      assert a in Elements(kids, tag);
      OnlyKid(kids, a);
    }
    forall a | a in kids && Is(a, tag) ensures Given(kids, tag) && Text(kids, tag) == a.text {
      OnlyKid(kids, a);
    }
  }

  lemma IfcsExactly(m: Module, ns: seq<Node>)
    requires |m.ifces| == |ns|
    ensures AllMatch(m.ifces, ns) <==> !SomeIfcDiffers(m, ns)
  {
    forall j | 0 <= j < |ns| && ns[j].Element?
      ensures Matches(m.ifces[j], ns[j].kids) <==> forall a :: a in ns[j].kids ==> !IfcDiffers(m.ifces[j], a) {
      MatchesExactly(m.ifces[j], ns[j].kids);
      assert forall a :: a in ns[j].kids && a.Element? ==>
        (!IfcDiffers(m.ifces[j], a) <==>
           && (a.tag == NoteTag ==> m.ifces[j].note == a.text) && (a.tag == TypeTag ==> m.ifces[j].kind == a.text)
           && (a.tag == ParamsTag ==> m.ifces[j].params == a.text) && (a.tag == DirectionTag ==> m.ifces[j].direction == a.text));
    }
  }

  lemma ChangedExactly(m: Module, kids: seq<Node>)
    requires ValidModule(kids)
    ensures Changed(kids, m) <==> Departs(m, kids)
  {
    DiffersExactly(kids, PathTag, m.path);
    DiffersExactly(kids, ParamsTag, m.params);
    if |m.ifces| == |IfcNodes(kids)| {
      IfcsExactly(m, IfcNodes(kids));
    }
    AttributesDiffer(m, kids);
  }

  lemma AttributesDiffer(m: Module, kids: seq<Node>)
    ensures (exists a :: a in kids && AttributeDiffers(m, a)) <==>
              (exists a :: a in kids && Is(a, PathTag) && a.text != m.path) || (exists a :: a in kids && Is(a, ParamsTag) && a.text != m.params)
  {
    if a :| a in kids && Is(a, PathTag) && a.text != m.path {
      assert AttributeDiffers(m, a);
    }
    if a :| a in kids && Is(a, ParamsTag) && a.text != m.params {
      assert AttributeDiffers(m, a);
    }
  }

  /** A known module counts as modified exactly if a path or parameters given, the number of interfaces, or an attribute
      given for an interface differs from what is stored. */
  lemma ModifiedExactly(st: State, doc: Option<Node>, i: nat, k: nat)
    requires Table(st.slots, st.loaded) && Roomy(st.slots) && ValidDoc(doc) && i < st.loaded
    requires var ds := Entries(doc.value.kids);
             k < |ds| && NameOf(ds[k].node) == st.slots[i].name && ds[k].node.Element?
    ensures i < |Reloaded(st, doc, false).slots|
    ensures Reloaded(st, doc, false).slots[i].modified <==> Departs(st.slots[i], Entries(doc.value.kids)[k].node.kids)
  {
    var ds, r := Entries(doc.value.kids), Reloaded(st, doc, false);
    ReloadRefines(st, doc);
    DocEntries(doc);
    KnownOf(st, ds, r, i, k);
    ChangedExactly(st.slots[i], ds[k].node.kids);
  }
}
