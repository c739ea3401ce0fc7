/** validate_configuration: the loops that decide whether a document is valid. */
module Validation {
  import opened Model
  import opened Document

  function Count(kids: seq<Node>, tag: Tag): nat {
    |Elements(kids, tag)|
  }

  /** How often a tag occurs among the first i children. */
  function Tally(kids: seq<Node>, i: nat, tag: Tag): nat
    requires i <= |kids|
  {
    if i == 0 then 0 else Tally(kids, i - 1, tag) + if Is(kids[i - 1], tag) then 1 else 0
  }

  lemma {:induction false} TallyIs(kids: seq<Node>, i: nat, tag: Tag)
    requires i <= |kids|
    ensures Tally(kids, i, tag) == Count(kids[..i], tag)
  {
    if i > 0 {
      TallyIs(kids, i - 1, tag);
      assert kids[..i][..i - 1] == kids[..i - 1];
    }
  }

  lemma TallyAll(kids: seq<Node>, tag: Tag)
    ensures Tally(kids, |kids|, tag) == Count(kids, tag)
  {
    var n := |kids|;
    TallyIs(kids, n, tag);
    assert kids[..n] == kids;
  }

  lemma {:induction false} TallyGrows(kids: seq<Node>, i: nat, j: nat, tag: Tag)
    requires i <= j <= |kids|
    ensures Tally(kids, i, tag) <= Tally(kids, j, tag)
    decreases j
  {
    if i < j {
      TallyGrows(kids, i, j - 1, tag);
    }
  }

  /** Too many among the first i are too many in all. */
  lemma TallyBelow(kids: seq<Node>, i: nat, tag: Tag)
    requires i <= |kids|
    ensures Tally(kids, i, tag) <= Count(kids, tag)
  {
    TallyGrows(kids, i, |kids|, tag);
    TallyAll(kids, tag);
  }

  /** The text of the last child with a tag among the first i. */
  function TextUpto(kids: seq<Node>, i: nat, tag: Tag): Option<Content>
    requires i <= |kids|
  {
    if i == 0 then None else if Is(kids[i - 1], tag) then kids[i - 1].text else TextUpto(kids, i - 1, tag)
  }

  lemma {:induction false} TextUptoIs(kids: seq<Node>, i: nat, tag: Tag)
    requires i <= |kids|
    ensures TextUpto(kids, i, tag) == Text(kids[..i], tag)
  {
    if i > 0 {
      TextUptoIs(kids, i - 1, tag);
      TextNext(kids, i - 1, tag);
    }
  }

  lemma TextAll(kids: seq<Node>, tag: Tag)
    ensures TextUpto(kids, |kids|, tag) == Text(kids, tag)
  {
    TextUptoIs(kids, |kids|, tag);
    assert kids[..|kids|] == kids;
  }

  // reload_check_interface_element
  method CheckInterface(kids: seq<Node>) returns (ok: bool)
    ensures ok <==> ValidInterface(kids)
  {
    if kids == [] {
      return false;
    }
    var note, kind, direction, params := 0, 0, 0, 0;
    var i := 0;
    while i < |kids|
      invariant 0 <= i <= |kids|
      invariant forall j :: 0 <= j < i ==> InterfaceKid(kids[j])
      invariant note == Tally(kids, i, NoteTag) <= 1 && kind == Tally(kids, i, TypeTag) <= 1
      invariant direction == Tally(kids, i, DirectionTag) <= 1 && params == Tally(kids, i, ParamsTag) <= 1
    {
      var n := kids[i];
      assert n in kids;
      if !InterfaceKid(n) {
        return false;
      }
      TallyBelow(kids, i + 1, NoteTag);
      TallyBelow(kids, i + 1, TypeTag);
      TallyBelow(kids, i + 1, DirectionTag);
      TallyBelow(kids, i + 1, ParamsTag);
      if Is(n, NoteTag) {
        note := note + 1;
      } else if Is(n, TypeTag) {
        kind := kind + 1;
      } else if Is(n, DirectionTag) {
        direction := direction + 1;
      } else if Is(n, ParamsTag) {
        params := params + 1;
      }
      if note > 1 || kind > 1 || direction > 1 || params > 1 {
        return false;
      }
      i := i + 1;
    }
    TallyAll(kids, NoteTag);
    TallyAll(kids, TypeTag);
    TallyAll(kids, DirectionTag);
    TallyAll(kids, ParamsTag);
    return true;
  }

  /** The names seen so far are distinct. */
  ghost predicate NoDup(ss: seq<string>) {
    forall i, j :: 0 <= i < j < |ss| ==> ss[i] != ss[j]
  }

  /** Adding a name to the list, unless it is there. */
  method AddName(names: seq<string>, name: string) returns (ok: bool, r: seq<string>)
    requires NoDup(names)
    ensures ok <==> NoDup(names + [name])
    ensures r == if ok then names + [name] else names
  {
    var i := 0;
    while i < |names|
      invariant 0 <= i <= |names| && forall j :: 0 <= j < i ==> names[j] != name
    {
      if names[i] == name {
        assert (names + [name])[i] == (names + [name])[|names|];
        return false, names;
      }
      i := i + 1;
    }
    return true, names + [name];
  }

  /** What reload_check_module_element looks at: everything but the interfaces. */
  ghost predicate PlainModule(kids: seq<Node>) {
    && (forall n :: n in kids ==> ModuleKid(n))
    && Count(kids, NameTag) == 1 && Count(kids, PathTag) == 1 && Count(kids, EnabledTag) == 1
    && Count(kids, TrapTag) <= 1 && Count(kids, RestartsTag) <= 1 && Count(kids, ParamsTag) <= 1
  }

  /** The tallies of the attributes so far, against those of the whole element. */
  lemma ModuleTallies(kids: seq<Node>, i: nat)
    requires i <= |kids|
    ensures Tally(kids, i, NameTag) <= Count(kids, NameTag) && Tally(kids, i, PathTag) <= Count(kids, PathTag)
    ensures Tally(kids, i, EnabledTag) <= Count(kids, EnabledTag) && Tally(kids, i, TrapTag) <= Count(kids, TrapTag)
    ensures Tally(kids, i, RestartsTag) <= Count(kids, RestartsTag) && Tally(kids, i, ParamsTag) <= Count(kids, ParamsTag)
    ensures i == |kids| ==>
              && Tally(kids, i, NameTag) == Count(kids, NameTag) && Tally(kids, i, PathTag) == Count(kids, PathTag)
              && Tally(kids, i, EnabledTag) == Count(kids, EnabledTag) && Tally(kids, i, TrapTag) == Count(kids, TrapTag)
              && Tally(kids, i, RestartsTag) == Count(kids, RestartsTag) && Tally(kids, i, ParamsTag) == Count(kids, ParamsTag)
  {
    TallyBelow(kids, i, NameTag);
    TallyBelow(kids, i, PathTag);
    TallyBelow(kids, i, EnabledTag);
    TallyBelow(kids, i, TrapTag);
    TallyBelow(kids, i, RestartsTag);
    TallyBelow(kids, i, ParamsTag);
    TallyAll(kids, NameTag);
    TallyAll(kids, PathTag);
    TallyAll(kids, EnabledTag);
    TallyAll(kids, TrapTag);
    TallyAll(kids, RestartsTag);
    TallyAll(kids, ParamsTag);
  }

  // reload_check_module_element, without the list of names
  method CheckModule(kids: seq<Node>) returns (ok: bool, name: Option<Content>)
    ensures ok <==> PlainModule(kids)
    ensures ok ==> name.Some? && name == Text(kids, NameTag)
  {
    var names, path, enabled, trap, restarts, params := 0, 0, 0, 0, 0, 0;
    name := None;
    var i := 0;
    while i < |kids|
      invariant 0 <= i <= |kids|
      invariant forall j :: 0 <= j < i ==> ModuleKid(kids[j])
      invariant names == Tally(kids, i, NameTag) <= 1 && path == Tally(kids, i, PathTag) <= 1
      invariant enabled == Tally(kids, i, EnabledTag) <= 1 && trap == Tally(kids, i, TrapTag) <= 1
      invariant restarts == Tally(kids, i, RestartsTag) <= 1 && params == Tally(kids, i, ParamsTag) <= 1
      invariant name == TextUpto(kids, i, NameTag) && (names == 1 ==> name.Some?)
    {
      var n := kids[i];
      assert n in kids;
      if !ModuleKid(n) {
        return false, None;
      }
      ModuleTallies(kids, i + 1);
      if Is(n, NameTag) {
        names, name := names + 1, n.text;
      } else if Is(n, EnabledTag) {
        enabled := enabled + 1;
      } else if Is(n, PathTag) {
        path := path + 1;
      } else if Is(n, TrapTag) {
        trap := trap + 1;
      } else if Is(n, RestartsTag) {
        restarts := restarts + 1;
      } else if Is(n, ParamsTag) {
        params := params + 1;
      }
      if names > 1 || enabled > 1 || path > 1 || trap > 1 || restarts > 1 || params > 1 {
        return false, None;
      }
      i := i + 1;
    }
    ModuleTallies(kids, i);
    TextAll(kids, NameTag);
    ok := names == 1 && path == 1 && enabled == 1;
  }

  // The loop over the children of one "trapinterfaces" element.
  method CheckTrap(kids: seq<Node>) returns (ok: bool)
    ensures ok <==> ValidTrap(kids)
  {
    var i := 0;
    while i < |kids|
      invariant 0 <= i <= |kids| && forall j :: 0 <= j < i ==> TrapKid(kids[j])
    {
      assert kids[i] in kids;
      if Is(kids[i], InterfaceTag) {
        var valid := CheckInterface(kids[i].kids);
        if !valid {
          assert !TrapKid(kids[i]);
          return false;
        }
      } else if !kids[i].Filler? {
        assert !TrapKid(kids[i]);
        return false;
      }
      i := i + 1;
    }
    return true;
  }

  method CheckTraps(kids: seq<Node>) returns (ok: bool)
    ensures ok <==> forall n :: n in kids && Is(n, TrapTag) ==> ValidTrap(n.kids)
  {
    var i := 0;
    while i < |kids|
      invariant 0 <= i <= |kids| && forall j :: 0 <= j < i && Is(kids[j], TrapTag) ==> ValidTrap(kids[j].kids)
    {
      if Is(kids[i], TrapTag) {
        var valid := CheckTrap(kids[i].kids);
        if !valid {
          assert kids[i] in kids;
          return false;
        }
      }
      i := i + 1;
    }
    return true;
  }

  // ----- Profiles -----

  /** What reload_check_modules_element looks at. */
  ghost predicate PlainModules(kids: seq<Node>) {
    (forall n :: n in kids ==> ModulesKid(n)) && Count(kids, NameTag) == 1 && Count(kids, EnabledTag) == 1
  }

  // reload_check_modules_element, without the list of names
  method CheckModules(kids: seq<Node>) returns (ok: bool, name: Option<Content>)
    ensures ok <==> PlainModules(kids)
    ensures ok ==> name.Some? && name == Text(kids, NameTag)
  {
    var names, enabled := 0, 0;
    name := None;
    var i := 0;
    while i < |kids|
      invariant 0 <= i <= |kids|
      invariant forall j :: 0 <= j < i ==> ModulesKid(kids[j])
      invariant names == Tally(kids, i, NameTag) <= 1 && enabled == Tally(kids, i, EnabledTag) <= 1
      invariant name == TextUpto(kids, i, NameTag) && (names == 1 ==> name.Some?)
    {
      var n := kids[i];
      assert n in kids;
      if !ModulesKid(n) {
        return false, None;
      }
      TallyBelow(kids, i + 1, NameTag);
      TallyBelow(kids, i + 1, EnabledTag);
      if Is(n, NameTag) {
        names, name := names + 1, n.text;
      } else if Is(n, EnabledTag) {
        enabled := enabled + 1;
      }
      if names > 1 || enabled > 1 {
        return false, None;
      }
      i := i + 1;
    }
    TallyAll(kids, NameTag);
    TallyAll(kids, EnabledTag);
    TextAll(kids, NameTag);
    ok := names == 1 && enabled == 1;
  }

  // reload_check_supervisor_element
  method CheckSupervisor(kids: seq<Node>) returns (ok: bool)
    ensures ok <==> ValidSupervisor(kids)
  {
    if kids == [] {
      return false;
    }
    var restarts, i := 0, 0;
    while i < |kids|
      invariant 0 <= i <= |kids|
      invariant forall j :: 0 <= j < i ==> SupervisorKid(kids[j])
      invariant restarts == Tally(kids, i, RestartsTag) <= 1
    {
      assert kids[i] in kids;
      if !SupervisorKid(kids[i]) {
        return false;
      }
      TallyBelow(kids, i + 1, RestartsTag);
      if Is(kids[i], RestartsTag) {
        restarts := restarts + 1;
        if restarts > 1 {
          return false;
        }
      }
      i := i + 1;
    }
    TallyAll(kids, RestartsTag);
    return true;
  }

  // ----- Names -----

  function NamesOf(ns: seq<Node>): (r: seq<string>)
    ensures |r| == |ns| && forall i :: 0 <= i < |r| ==> r[i] == NameOf(ns[i])
  {
    seq(|ns|, i requires 0 <= i < |ns| => NameOf(ns[i]))
  }

  lemma NoDupPrefix(a: seq<string>, b: seq<string>)
    requires a <= b && NoDup(b)
    ensures NoDup(a)
  {}

  /** The names of the elements with a tag among the first i children. */
  function NamesUpto(kids: seq<Node>, i: nat, tag: Tag): seq<string>
    requires i <= |kids|
  {
    if i == 0 then [] else NamesUpto(kids, i - 1, tag) + if Is(kids[i - 1], tag) then [NameOf(kids[i - 1])] else []
  }

  lemma {:induction false} NamesUptoIs(kids: seq<Node>, i: nat, tag: Tag)
    requires i <= |kids|
    ensures NamesUpto(kids, i, tag) == NamesOf(Elements(kids[..i], tag))
  {
    if i > 0 {
      NamesUptoIs(kids, i - 1, tag);
      assert kids[..i][..i - 1] == kids[..i - 1];
    }
  }

  lemma NamesAll(kids: seq<Node>, tag: Tag)
    ensures NamesUpto(kids, |kids|, tag) == NamesOf(Elements(kids, tag))
  {
    NamesUptoIs(kids, |kids|, tag);
    assert kids[..|kids|] == kids;
  }

  lemma {:induction false} NamesGrow(kids: seq<Node>, i: nat, j: nat, tag: Tag)
    requires i <= j <= |kids|
    ensures NamesUpto(kids, i, tag) <= NamesUpto(kids, j, tag)
    decreases j
  {
    if i < j {
      NamesGrow(kids, i, j - 1, tag);
    }
  }

  /** Every module of a profile is valid and no name was seen before. */
  ghost predicate ModulesFine(kids: seq<Node>, names: seq<string>) {
    && (forall n :: n in kids && Is(n, ModuleTag) ==> ValidModule(n.kids))
    && NoDup(names + NamesOf(Elements(kids, ModuleTag)))
  }

  // The loop over the "module" elements of one profile.
  method CheckModuleList(kids: seq<Node>, names0: seq<string>) returns (ok: bool, names: seq<string>)
    requires NoDup(names0)
    ensures ok <==> ModulesFine(kids, names0)
    ensures ok ==> names == names0 + NamesOf(Elements(kids, ModuleTag))
  {
    names := names0;
    var i := 0;
    NamesAll(kids, ModuleTag);
    while i < |kids|
      invariant 0 <= i <= |kids|
      invariant forall j :: 0 <= j < i && Is(kids[j], ModuleTag) ==> ValidModule(kids[j].kids)
      invariant names == names0 + NamesUpto(kids, i, ModuleTag) && NoDup(names)
    {
      var n := kids[i];
      assert n in kids;
      if Is(n, ModuleTag) {
        var valid, added;
        assert names + [NameOf(n)] == names0 + NamesUpto(kids, i + 1, ModuleTag);
        valid, added, names := CheckOne(n, names);
        if !valid {
          return false, names;
        }
        if !added {
          TooMany(kids, names0, i + 1);
          return false, names;
        }
      }
      i := i + 1;
    }
    return true, names;
  }

  lemma TooMany(kids: seq<Node>, names: seq<string>, i: nat)
    requires i <= |kids| && !NoDup(names + NamesUpto(kids, i, ModuleTag))
    ensures !NoDup(names + NamesOf(Elements(kids, ModuleTag)))
  {
    NamesAll(kids, ModuleTag);
    NamesGrow(kids, i, |kids|, ModuleTag);
    if NoDup(names + NamesOf(Elements(kids, ModuleTag))) {
      NoDupPrefix(names + NamesUpto(kids, i, ModuleTag), names + NamesOf(Elements(kids, ModuleTag)));
    }
  }

  method CheckOne(n: Node, names0: seq<string>) returns (valid: bool, added: bool, names: seq<string>)
    requires Is(n, ModuleTag) && NoDup(names0)
    ensures valid <==> ValidModule(n.kids)
    ensures valid ==> (added <==> NoDup(names0 + [NameOf(n)]))
    ensures valid && added ==> names == names0 + [NameOf(n)]
  {
    names, added := names0, false;
    if n.kids == [] {
      return false, added, names;
    }
    var name;
    valid, name := CheckModule(n.kids);
    if valid {
      valid := CheckTraps(n.kids);
      added, names := AddName(names0, name.value);
    }
  }

  // ----- The document -----

  function EntryNames(ds: seq<Entry>): (r: seq<string>)
    ensures |r| == |ds| && forall i :: 0 <= i < |r| ==> r[i] == NameOf(ds[i].node)
  {
    seq(|ds|, i requires 0 <= i < |ds| => NameOf(ds[i].node))
  }

  lemma NamesDistinct(kids: seq<Node>)
    ensures DistinctNames(Entries(kids)) <==> NoDup(EntryNames(Entries(kids)))
    ensures DistinctProfiles(ProfilesIn(kids)) <==> NoDup(NamesOf(Elements(kids, ModulesTag)))
  {
    assert forall i :: 0 <= i < |ProfilesIn(kids)| ==> ProfilesIn(kids)[i].name == NamesOf(Elements(kids, ModulesTag))[i];
    if NoDup(NamesOf(Elements(kids, ModulesTag))) {
      assert DistinctProfiles(ProfilesIn(kids));
    }
    if DistinctNames(Entries(kids)) {
      assert NoDup(EntryNames(Entries(kids)));
    }
  }

  lemma EntriesSnoc(qs: seq<Node>, n: Node)
    requires n.Element?
    ensures EntryNames(EntriesOf(qs + [n])) == EntryNames(EntriesOf(qs)) + NamesOf(Elements(n.kids, ModuleTag))
  {
    assert (qs + [n])[..|qs|] == qs;
    assert EntriesOf(qs + [n]) == EntriesOf(qs) + TagWith(Elements(n.kids, ModuleTag), |qs|);
  }

  /** The module names in the profiles among the first i children. */
  function EntriesUpto(kids: seq<Node>, i: nat): seq<string>
    requires i <= |kids|
  {
    if i == 0 then []
    else EntriesUpto(kids, i - 1) + if Is(kids[i - 1], ModulesTag) then NamesOf(Elements(kids[i - 1].kids, ModuleTag)) else []
  }

  lemma {:induction false} EntriesUptoIs(kids: seq<Node>, i: nat)
    requires i <= |kids|
    ensures EntriesUpto(kids, i) == EntryNames(Entries(kids[..i]))
  {
    if i > 0 {
      EntriesUptoIs(kids, i - 1);
      assert kids[..i][..i - 1] == kids[..i - 1];
      var qs := Elements(kids[..i - 1], ModulesTag);
      if Is(kids[i - 1], ModulesTag) {
        EntriesSnoc(qs, kids[i - 1]);
      } else {
        assert Elements(kids[..i], ModulesTag) == qs;
      }
    }
  }

  lemma EntriesAll(kids: seq<Node>)
    ensures EntriesUpto(kids, |kids|) == EntryNames(Entries(kids))
  {
    EntriesUptoIs(kids, |kids|);
    assert kids[..|kids|] == kids;
  }

  lemma {:induction false} EntriesGrow(kids: seq<Node>, i: nat, j: nat)
    requires i <= j <= |kids|
    ensures EntriesUpto(kids, i) <= EntriesUpto(kids, j)
    decreases j
  {
    if i < j {
      EntriesGrow(kids, i, j - 1);
    }
  }

  /** What the loop over the children of the root keeps: the number of "supervisor" elements and the names seen. */
  datatype Progress = Progress(sups: nat, profiles: seq<string>, names: seq<string>)

  function After(p: Progress, n: Node): Progress {
    Progress(p.sups + (if Is(n, SupervisorTag) then 1 else 0),
             if Is(n, ModulesTag) then p.profiles + [NameOf(n)] else p.profiles,
             if Is(n, ModulesTag) then p.names + NamesOf(Elements(n.kids, ModuleTag)) else p.names)
  }

  /** What holds of the children 0 .. i - 1 while the document may still be valid. */
  ghost predicate FineSoFar(kids: seq<Node>, i: nat, p: Progress) {
    && i <= |kids| && (forall j :: 0 <= j < i ==> RootKid(kids[j]))
    && p.sups == Tally(kids, i, SupervisorTag) <= 1
    && p.profiles == NamesUpto(kids, i, ModulesTag) && NoDup(p.profiles)
    && p.names == EntriesUpto(kids, i) && NoDup(p.names)
  }

  /** Child n may follow. */
  ghost predicate ChildFine(n: Node, p: Progress) {
    || n.Filler?
    || (Is(n, SupervisorTag) && p.sups == 0 && ValidSupervisor(n.kids))
    || (Is(n, ModulesTag) && ProfileFine(n, p.profiles, p.names))
  }

  // The body of the loop over the children of the root.
  method CheckChild(n: Node, p: Progress) returns (ok: bool, q: Progress)
    requires NoDup(p.profiles) && NoDup(p.names)
    ensures ok <==> ChildFine(n, p)
    ensures ok ==> q == After(p, n)
  {
    q := p;
    if Is(n, SupervisorTag) {
      q := p.(sups := p.sups + 1);
      if q.sups > 1 {
        ok := false;
      } else {
        ok := CheckSupervisor(n.kids);
      }
    } else if Is(n, ModulesTag) {
      var profiles, names;
      ok, profiles, names := CheckProfile(n, p.profiles, p.names);
      q := p.(profiles := profiles, names := names);
    } else {
      ok := n.Filler?;
    }
  }

  /** One more child that is fine. */
  lemma Advance(kids: seq<Node>, i: nat, p: Progress)
    requires i < |kids| && FineSoFar(kids, i, p) && ChildFine(kids[i], p)
    ensures FineSoFar(kids, i + 1, After(p, kids[i]))
  {
    if Is(kids[i], ModulesTag) {
      AdvanceModules(kids, i, p);
    } else {
      AdvanceOther(kids, i, p);
    }
  }

  lemma AdvanceOther(kids: seq<Node>, i: nat, p: Progress)
    requires i < |kids| && FineSoFar(kids, i, p) && ChildFine(kids[i], p) && !Is(kids[i], ModulesTag)
    ensures FineSoFar(kids, i + 1, After(p, kids[i]))
  {
    assert NamesUpto(kids, i + 1, ModulesTag) == p.profiles + [] == p.profiles;
    assert EntriesUpto(kids, i + 1) == p.names + [] == p.names;
  }

  lemma AdvanceModules(kids: seq<Node>, i: nat, p: Progress)
    requires i < |kids| && FineSoFar(kids, i, p) && ChildFine(kids[i], p) && Is(kids[i], ModulesTag)
    ensures FineSoFar(kids, i + 1, After(p, kids[i]))
  {
    assert NamesUpto(kids, i + 1, ModulesTag) == p.profiles + [NameOf(kids[i])];
    assert EntriesUpto(kids, i + 1) == p.names + NamesOf(Elements(kids[i].kids, ModuleTag));
  }

  /** One that is not spoils the document. */
  lemma Spoils(doc: Option<Node>, i: nat, p: Progress)
    requires doc.Some? && doc.value.Element? && i < |doc.value.kids|
    requires FineSoFar(doc.value.kids, i, p) && !ChildFine(doc.value.kids[i], p)
    ensures !ValidDoc(doc)
  {
    var kids := doc.value.kids;
    assert kids[i] in kids;
    if Is(kids[i], SupervisorTag) {
      TallyBelow(kids, i + 1, SupervisorTag);
    } else if Is(kids[i], ModulesTag) {
      Broken(kids, i);
    }
  }

  // validate_configuration
  method Validate(doc: Option<Node>) returns (ok: bool)
    ensures ok <==> ValidDoc(doc)
  {
    if doc.None? || !Is(doc.value, RootTag) || doc.value.kids == [] {
      return false;
    }
    ok := CheckChildren(doc);
  }

  method CheckChildren(doc: Option<Node>) returns (ok: bool)
    requires doc.Some? && Is(doc.value, RootTag) && doc.value.kids != []
    ensures ok <==> ValidDoc(doc)
  {
    var kids := doc.value.kids;
    var i := 0;
    var p := Progress(0, [], []);
    while i < |kids|
      invariant 0 <= i <= |kids| && FineSoFar(kids, i, p)
    {
      var q;
      ok, q := CheckChild(kids[i], p);
      if !ok {
        Spoils(doc, i, p);
        return false;
      }
      Advance(kids, i, p);
      p, i := q, i + 1;
    }
    AllFine(doc, p);
    return true;
  }

  lemma AllFine(doc: Option<Node>, p: Progress)
    requires doc.Some? && Is(doc.value, RootTag) && doc.value.kids != []
    requires FineSoFar(doc.value.kids, |doc.value.kids|, p)
    ensures ValidDoc(doc)
  {
    var kids := doc.value.kids;
    TallyAll(kids, SupervisorTag);
    NamesAll(kids, ModulesTag);
    EntriesAll(kids);
    NamesDistinct(kids);
    forall n | n in kids ensures RootKid(n) {
      var j :| 0 <= j < |kids| && kids[j] == n;
    }
  }

  /** One profile with its modules. */
  method CheckProfile(n: Node, profiles0: seq<string>, names0: seq<string>)
    returns (ok: bool, profiles: seq<string>, names: seq<string>)
    requires Is(n, ModulesTag) && NoDup(profiles0) && NoDup(names0)
    ensures ok <==> ProfileFine(n, profiles0, names0)
    ensures ok ==> profiles == profiles0 + [NameOf(n)] && names == names0 + NamesOf(Elements(n.kids, ModuleTag))
  {
    profiles, names := profiles0, names0;
    if n.kids == [] {
      return false, profiles, names;
    }
    var name;
    ok, name := CheckModules(n.kids);
    if ok {
      ok, profiles := AddName(profiles0, name.value);
    }
    if ok {
      ok, names := CheckModuleList(n.kids, names0);
    }
  }

  ghost predicate ProfileFine(n: Node, profiles: seq<string>, names: seq<string>)
    requires n.Element?
  {
    ValidModules(n.kids) && NoDup(profiles + [NameOf(n)]) && NoDup(names + NamesOf(Elements(n.kids, ModuleTag)))
  }

  /** A profile that is not fine spoils the document. */
  lemma Broken(kids: seq<Node>, i: nat)
    requires i < |kids| && Is(kids[i], ModulesTag) && !ProfileFine(kids[i], NamesUpto(kids, i, ModulesTag), EntriesUpto(kids, i))
    ensures RootKid(kids[i]) && DistinctProfiles(ProfilesIn(kids)) ==> !DistinctNames(Entries(kids))
  {
    NamesDistinct(kids);
    NamesAll(kids, ModulesTag);
    EntriesAll(kids);
    BrokenNames(kids, i);
  }

  lemma BrokenNames(kids: seq<Node>, i: nat)
    requires i < |kids| && Is(kids[i], ModulesTag) && !ProfileFine(kids[i], NamesUpto(kids, i, ModulesTag), EntriesUpto(kids, i))
    ensures RootKid(kids[i]) ==> !NoDup(NamesUpto(kids, |kids|, ModulesTag)) || !NoDup(EntriesUpto(kids, |kids|))
  {
    var p, q := NamesUpto(kids, i + 1, ModulesTag), EntriesUpto(kids, i + 1);
    assert p == NamesUpto(kids, i, ModulesTag) + [NameOf(kids[i])];
    assert q == EntriesUpto(kids, i) + NamesOf(Elements(kids[i].kids, ModuleTag));
    NamesGrow(kids, i + 1, |kids|, ModulesTag);
    EntriesGrow(kids, i + 1, |kids|);
    Repeats(p, NamesUpto(kids, |kids|, ModulesTag));
    Repeats(q, EntriesUpto(kids, |kids|));
  }

  lemma Repeats(a: seq<string>, b: seq<string>)
    requires a <= b
    ensures !NoDup(a) ==> !NoDup(b)
  {
    if NoDup(b) {
      NoDupPrefix(a, b);
    }
  }
}
