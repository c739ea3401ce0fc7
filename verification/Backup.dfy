/** generate_backup_config_file as a printer of document trees, and what loading
    such a tree at the next start gives back. */
module Backup {
  import opened Model
  import opened Document
  import opened Interfaces
  import opened Numbers
  import opened ReloadEffect

  // ----- The printer -----

  /** An element with a text; writing "" gives an empty element. */
  function Leaf(tag: Tag, s: string): Node {
    Element(tag, if s == "" then None else Some(s), None, [])
  }

  function Opt(tag: Tag, v: Option<Content>): seq<Node> {
    if v.None? then [] else [Leaf(tag, v.value)]
  }

  function Attrs(f: Interface): seq<Node> {
    Opt(NoteTag, f.note) + Opt(ParamsTag, f.params) + Opt(DirectionTag, f.direction) + Opt(TypeTag, f.kind)
  }

  function IfcNode(f: Interface): Node {
    Element(InterfaceTag, None, None, Attrs(f))
  }

  function IfcList(fs: seq<Interface>): (r: seq<Node>)
    ensures |r| == |fs| && forall i :: 0 <= i < |r| ==> r[i] == IfcNode(fs[i])
  {
    seq(|fs|, i requires 0 <= i < |fs| => IfcNode(fs[i]))
  }

  function Traps(fs: seq<Interface>): seq<Node> {
    if fs == [] then [] else [Element(TrapTag, None, None, IfcList(fs))]
  }

  function ModuleKids(m: Module): seq<Node> {
    [Leaf(NameTag, m.name)] + Opt(PathTag, m.path) + Opt(ParamsTag, m.params)
    + [Leaf(EnabledTag, if m.enabled then "true" else "false")] + Traps(m.ifces)
  }

  function ModuleNode(m: Module): Node {
    Element(ModuleTag, None, Some(PrintInt(m.pid)), ModuleKids(m))
  }

  function ModuleList(ms: seq<Module>): (r: seq<Node>)
    ensures |r| == |ms| && forall i :: 0 <= i < |r| ==> r[i] == ModuleNode(ms[i])
  {
    seq(|ms|, i requires 0 <= i < |ms| => ModuleNode(ms[i]))
  }

  /** The modules of a profile, in the order of the table. */
  function Members(ms: seq<Module>, profiles: seq<Profile>, name: string): seq<Module> {
    if ms == [] then []
    else
      var m := ms[|ms| - 1];
      Members(ms[..|ms| - 1], profiles, name)
      + if m.profile.Some? && m.profile.value < |profiles| && profiles[m.profile.value].name == name then [m] else []
  }

  function ProfileNode(p: Profile, ms: seq<Module>): Node {
    Element(ModulesTag, None, None,
      [Leaf(NameTag, p.name), Leaf(EnabledTag, if p.enabled then "true" else "false")] + ModuleList(ms))
  }

  /** The first k profiles. */
  function NodesUpto(st: State, k: nat): (r: seq<Node>)
    requires Sized(st) && k <= |st.profiles|
    ensures |r| == k
    ensures forall i :: 0 <= i < k ==>
      r[i] == ProfileNode(st.profiles[i], Members(st.slots[..st.loaded], st.profiles, st.profiles[i].name))
  {
    if k == 0 then []
    else NodesUpto(st, k - 1) + [ProfileNode(st.profiles[k - 1], Members(st.slots[..st.loaded], st.profiles, st.profiles[k - 1].name))]
  }

  function ProfileNodes(st: State): seq<Node>
    requires Sized(st)
  {
    NodesUpto(st, |st.profiles|)
  }

  function Written(st: State): Node
    requires Sized(st)
  {
    Element(RootTag, None, None, ProfileNodes(st))
  }

  // ----- What is stored -----

  /** What every module read from a valid document satisfies. */
  predicate StoredModule(m: Module) {
    m.name != "" && m.path.Some? && Coded(m.ifces) && AllSound(m.ifces)
  }

  predicate HasAttribute(f: Interface) {
    f.note.Some? || f.kind.Some? || f.params.Some? || f.direction.Some?
  }

  // ----- Reading one interface back -----

  lemma OptElements(tag: Tag, v: Option<Content>, t: Tag)
    ensures Elements(Opt(tag, v), t) == if t == tag then Opt(tag, v) else []
  {
    if v.Some? {
      SingleElements(Leaf(tag, v.value), t);
    }
  }

  lemma AttrElements(f: Interface, t: Tag)
    ensures Elements(Attrs(f), t)
         == (if t == NoteTag then Opt(NoteTag, f.note) else []) + (if t == ParamsTag then Opt(ParamsTag, f.params) else [])
            + (if t == DirectionTag then Opt(DirectionTag, f.direction) else []) + (if t == TypeTag then Opt(TypeTag, f.kind) else [])
  {
    var a, b, c, d := Opt(NoteTag, f.note), Opt(ParamsTag, f.params), Opt(DirectionTag, f.direction), Opt(TypeTag, f.kind);
    ElementsAppend(a + b + c, d, t);
    ElementsAppend(a + b, c, t);
    ElementsAppend(a, b, t);
    OptElements(NoteTag, f.note, t);
    OptElements(ParamsTag, f.params, t);
    OptElements(DirectionTag, f.direction, t);
    OptElements(TypeTag, f.kind, t);
  }

  lemma OptText(tag: Tag, v: Option<Content>, kids: seq<Node>)
    requires Elements(kids, tag) == Opt(tag, v)
    ensures Text(kids, tag) == v
  {}

  lemma AttrTexts(f: Interface)
    ensures Text(Attrs(f), NoteTag) == f.note && Text(Attrs(f), ParamsTag) == f.params
    ensures Text(Attrs(f), DirectionTag) == f.direction && Text(Attrs(f), TypeTag) == f.kind
  {
    assert Elements(Attrs(f), NoteTag) == Opt(NoteTag, f.note) by { AttrElements(f, NoteTag); }
    assert Elements(Attrs(f), ParamsTag) == Opt(ParamsTag, f.params) by { AttrElements(f, ParamsTag); }
    assert Elements(Attrs(f), DirectionTag) == Opt(DirectionTag, f.direction) by { AttrElements(f, DirectionTag); }
    assert Elements(Attrs(f), TypeTag) == Opt(TypeTag, f.kind) by { AttrElements(f, TypeTag); }
    OptText(NoteTag, f.note, Attrs(f));
    OptText(ParamsTag, f.params, Attrs(f));
    OptText(DirectionTag, f.direction, Attrs(f));
    OptText(TypeTag, f.kind, Attrs(f));
  }

  lemma RecodeStrings(f: Interface, g: Interface)
    requires f.note == g.note && f.kind == g.kind && f.params == g.params && f.direction == g.direction
    ensures Recode(f) == Recode(g)
  {}

  lemma ReadIfc(f: Interface)
    ensures Build(IfcNode(f)) == Recode(f)
  {
    AttrTexts(f);
    RecodeStrings(Interface(f.note, f.kind, f.params, f.direction, 0, 0), f);
  }

  lemma OptKid(tag: Tag, v: Option<Content>, n: Node)
    requires n in Opt(tag, v)
    ensures v.Some? && Is(n, tag) && n.text == v
  {}

  lemma AttrFine(f: Interface, n: Node)
    requires Sound(f) && n in Attrs(f)
    ensures InterfaceKid(n)
  {
    if n in Opt(NoteTag, f.note) {
      OptKid(NoteTag, f.note, n);
    } else if n in Opt(ParamsTag, f.params) {
      OptKid(ParamsTag, f.params, n);
    } else if n in Opt(DirectionTag, f.direction) {
      OptKid(DirectionTag, f.direction, n);
    } else {
      OptKid(TypeTag, f.kind, n);
    }
  }

  lemma AttrCounts(f: Interface)
    ensures |Elements(Attrs(f), NoteTag)| <= 1 && |Elements(Attrs(f), TypeTag)| <= 1
    ensures |Elements(Attrs(f), DirectionTag)| <= 1 && |Elements(Attrs(f), ParamsTag)| <= 1
  {
    AttrElements(f, NoteTag);
    AttrElements(f, ParamsTag);
    AttrElements(f, DirectionTag);
    AttrElements(f, TypeTag);
  }

  lemma ValidIfc(f: Interface)
    requires Sound(f)
    ensures ValidInterface(Attrs(f)) <==> HasAttribute(f)
  {
    AttrCounts(f);
    forall n | n in Attrs(f) ensures InterfaceKid(n) {
      AttrFine(f, n);
    }
  }

  // ----- Reading one module back -----

  lemma {:induction false} AllElements(ns: seq<Node>, tag: Tag)
    requires forall i :: 0 <= i < |ns| ==> Is(ns[i], tag)
    ensures Elements(ns, tag) == ns
  {
    if ns != [] {
      AllElements(ns[..|ns| - 1], tag);
    }
  }

  /** The part of a list that has tag t, when all of it has tag `tag`. */
  function Only(tag: Tag, ns: seq<Node>, t: Tag): seq<Node> {
    if t == tag then ns else []
  }

  /** The children of a written module with tag t. */
  function Part(m: Module, t: Tag): seq<Node> {
    if t == NameTag then [Leaf(NameTag, m.name)]
    else if t == PathTag then Opt(PathTag, m.path)
    else if t == ParamsTag then Opt(ParamsTag, m.params)
    else if t == EnabledTag then [Leaf(EnabledTag, if m.enabled then "true" else "false")]
    else if t == TrapTag then Traps(m.ifces)
    else []
  }

  lemma KidElements(m: Module, t: Tag)
    ensures Elements(ModuleKids(m), t) == Part(m, t)
  {
    KidParts(m, t);
    var a, b, c := Only(NameTag, [Leaf(NameTag, m.name)], t), Only(PathTag, Opt(PathTag, m.path), t), Only(ParamsTag, Opt(ParamsTag, m.params), t);
    var d, e := Only(EnabledTag, [Leaf(EnabledTag, if m.enabled then "true" else "false")], t), Only(TrapTag, Traps(m.ifces), t);
    if t == NameTag {
      assert a + b + c + d + e == a;
    } else if t == PathTag {
      assert a + b + c + d + e == b;
    } else if t == ParamsTag {
      assert a + b + c + d + e == c;
    } else if t == EnabledTag {
      assert a + b + c + d + e == d;
    } else {
      assert a + b + c + d + e == e;
    }
  }

  lemma KidParts(m: Module, t: Tag)
    ensures Elements(ModuleKids(m), t)
         == Only(NameTag, [Leaf(NameTag, m.name)], t) + Only(PathTag, Opt(PathTag, m.path), t)
            + Only(ParamsTag, Opt(ParamsTag, m.params), t)
            + Only(EnabledTag, [Leaf(EnabledTag, if m.enabled then "true" else "false")], t)
            + Only(TrapTag, Traps(m.ifces), t)
  {
    var a, d := Leaf(NameTag, m.name), Leaf(EnabledTag, if m.enabled then "true" else "false");
    FiveElements([a], Opt(PathTag, m.path), Opt(ParamsTag, m.params), [d], Traps(m.ifces), t);
    assert Elements([a], t) == Only(NameTag, [a], t) by { SingleElements(a, t); }
    assert Elements(Opt(PathTag, m.path), t) == Only(PathTag, Opt(PathTag, m.path), t) by { OptElements(PathTag, m.path, t); }
    assert Elements(Opt(ParamsTag, m.params), t) == Only(ParamsTag, Opt(ParamsTag, m.params), t) by {
      OptElements(ParamsTag, m.params, t);
    }
    assert Elements([d], t) == Only(EnabledTag, [d], t) by { SingleElements(d, t); }
    assert Elements(Traps(m.ifces), t) == Only(TrapTag, Traps(m.ifces), t) by {
      if m.ifces != [] {
        SingleElements(Traps(m.ifces)[0], t);
      }
    }
  }

  lemma FiveElements(a: seq<Node>, b: seq<Node>, c: seq<Node>, d: seq<Node>, e: seq<Node>, t: Tag)
    ensures Elements(a + b + c + d + e, t) == Elements(a, t) + Elements(b, t) + Elements(c, t) + Elements(d, t) + Elements(e, t)
  {
    ElementsAppend(a + b + c + d, e, t);
    ElementsAppend(a + b + c, d, t);
    ElementsAppend(a + b, c, t);
    ElementsAppend(a, b, t);
  }

  /** The children are those of the written module m, as far as their tags go. */
  ghost predicate Reads(m: Module, kids: seq<Node>) {
    forall t: Tag :: Elements(kids, t) == Part(m, t)
  }

  lemma KidsRead(m: Module)
    ensures Reads(m, ModuleKids(m))
  {
    forall t: Tag ensures Elements(ModuleKids(m), t) == Part(m, t) {
      KidElements(m, t);
    }
  }

  /** What a written module says. */
  ghost predicate Says(m: Module, kids: seq<Node>) {
    && Text(kids, NameTag) == Some(m.name) && Text(kids, PathTag) == m.path && Given(kids, PathTag)
    && Text(kids, ParamsTag) == m.params
    && Text(kids, EnabledTag) == Some(if m.enabled then "true" else "false")
    && !Given(kids, RestartsTag)
    && IfcNodes(kids) == IfcList(m.ifces)
  }

  lemma ReadKids(m: Module, kids: seq<Node>)
    requires m.name != "" && m.path.Some? && Reads(m, kids)
    ensures Says(m, kids)
  {
    LeafText(kids, NameTag, m.name, Part(m, NameTag));
    LeafText(kids, EnabledTag, if m.enabled then "true" else "false", Part(m, EnabledTag));
    assert Text(kids, PathTag) == m.path by { PartText(kids, PathTag, m.path, Part(m, PathTag)); }
    assert Text(kids, ParamsTag) == m.params by { PartText(kids, ParamsTag, m.params, Part(m, ParamsTag)); }
    assert Given(kids, PathTag) && !Given(kids, RestartsTag) by { GivenParts(m, kids); }
    assert IfcNodes(kids) == IfcList(m.ifces) by {
      assert Elements(kids, TrapTag) == Part(m, TrapTag);
      LastTrap(kids, m.ifces);
    }
  }

  lemma LeafText(kids: seq<Node>, tag: Tag, text: Content, part: seq<Node>)
    requires Elements(kids, tag) == part == [Leaf(tag, text)]
    ensures Text(kids, tag) == Some(text)
  {}

  lemma PartText(kids: seq<Node>, tag: Tag, text: Option<Content>, part: seq<Node>)
    requires Elements(kids, tag) == part == Opt(tag, text)
    ensures Text(kids, tag) == text
  {}

  lemma GivenParts(m: Module, kids: seq<Node>)
    requires m.path.Some? && Reads(m, kids)
    ensures Given(kids, PathTag) && !Given(kids, RestartsTag)
  {
    assert Elements(kids, PathTag) == Part(m, PathTag) && Elements(kids, RestartsTag) == Part(m, RestartsTag);
  }

  lemma ReadModule(m: Module)
    requires m.name != "" && m.path.Some?
    ensures Says(m, ModuleKids(m))
  {
    KidsRead(m);
    ReadKids(m, ModuleKids(m));
  }

  lemma LastTrap(kids: seq<Node>, fs: seq<Interface>)
    requires Elements(kids, TrapTag) == Traps(fs)
    ensures IfcNodes(kids) == IfcList(fs)
  {
    if fs != [] {
      AllElements(IfcList(fs), InterfaceTag);
    }
  }

  lemma ReadIfces(m: Module)
    requires StoredModule(m)
    ensures BuildAll(IfcList(m.ifces)) == m.ifces
  {
    forall i | 0 <= i < |m.ifces| ensures Build(IfcList(m.ifces)[i]) == m.ifces[i] {
      ReadIfc(m.ifces[i]);
    }
  }

  predicate Attributed(m: Module) {
    forall i :: 0 <= i < |m.ifces| ==> HasAttribute(m.ifces[i])
  }

  lemma ValidTraps(m: Module)
    requires StoredModule(m)
    ensures (forall n :: n in ModuleKids(m) && Is(n, TrapTag) ==> ValidTrap(n.kids)) <==> Attributed(m)
  {
    assert forall n :: n in ModuleKids(m) && Is(n, TrapTag) <==> n in Traps(m.ifces) by {
      KidElements(m, TrapTag);
      ElementsAre(ModuleKids(m), TrapTag);
    }
    ValidIfcList(m.ifces);
    if m.ifces != [] {
      assert Traps(m.ifces)[0] in Traps(m.ifces);
    }
  }

  lemma ValidIfcList(fs: seq<Interface>)
    requires AllSound(fs)
    ensures ValidTrap(IfcList(fs)) <==> forall i :: 0 <= i < |fs| ==> HasAttribute(fs[i])
  {
    forall i | 0 <= i < |fs| ensures TrapKid(IfcList(fs)[i]) <==> HasAttribute(fs[i]) {
      ValidIfc(fs[i]);
    }
    if ValidTrap(IfcList(fs)) {
      assert forall i :: 0 <= i < |fs| ==> IfcList(fs)[i] in IfcList(fs);
    }
  }

  lemma ValidModuleNode(m: Module)
    requires StoredModule(m)
    ensures ValidModule(ModuleKids(m)) <==> Attributed(m)
  {
    var kids := ModuleKids(m);
    assert |Elements(kids, NameTag)| == 1 && |Elements(kids, PathTag)| == 1 && |Elements(kids, EnabledTag)| == 1
        && |Elements(kids, TrapTag)| <= 1 && |Elements(kids, RestartsTag)| <= 1 && |Elements(kids, ParamsTag)| <= 1 by {
      KidsRead(m);
      KidCounts(m, kids);
    }
    forall n | n in kids ensures ModuleKid(n) {
      KidFine(m, n);
    }
    ValidTraps(m);
  }

  lemma KidFine(m: Module, n: Node)
    requires m.name != "" && m.path.Some? && n in ModuleKids(m)
    ensures ModuleKid(n)
  {
    KidKinds(m, n);
    if n in Opt(PathTag, m.path) {
      OptKid(PathTag, m.path, n);
    } else if n in Opt(ParamsTag, m.params) {
      OptKid(ParamsTag, m.params, n);
    }
  }

  lemma KidCounts(m: Module, kids: seq<Node>)
    requires m.path.Some? && Reads(m, kids)
    ensures |Elements(kids, NameTag)| == 1 && |Elements(kids, PathTag)| == 1 && |Elements(kids, EnabledTag)| == 1
    ensures |Elements(kids, TrapTag)| <= 1 && |Elements(kids, RestartsTag)| <= 1 && |Elements(kids, ParamsTag)| <= 1
  {
    PartCounts(m);
    assert Elements(kids, NameTag) == Part(m, NameTag) && Elements(kids, EnabledTag) == Part(m, EnabledTag);
    assert Elements(kids, PathTag) == Part(m, PathTag) && Elements(kids, ParamsTag) == Part(m, ParamsTag);
    assert Elements(kids, RestartsTag) == Part(m, RestartsTag) && Elements(kids, TrapTag) == Part(m, TrapTag);
  }

  lemma PartCounts(m: Module)
    requires m.path.Some?
    ensures |Part(m, NameTag)| == 1 && |Part(m, PathTag)| == 1 && |Part(m, EnabledTag)| == 1
    ensures |Part(m, TrapTag)| <= 1 && |Part(m, RestartsTag)| <= 1 && |Part(m, ParamsTag)| <= 1
  {}

  lemma KidKinds(m: Module, n: Node)
    requires n in ModuleKids(m)
    ensures n == Leaf(NameTag, m.name) || n in Opt(PathTag, m.path) || n in Opt(ParamsTag, m.params)
         || n == Leaf(EnabledTag, if m.enabled then "true" else "false") || n in Traps(m.ifces)
  {}
}
