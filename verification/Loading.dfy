/** The attributes of one "module" element, read one by one: what a slot holds
    when only some children of the element have been processed. */
module Loading {
  import opened Model
  import opened Document
  import opened Interfaces
  import opened Reload
  import opened ReloadEffect
  import opened Validation
  import Service

  function SwitchedOn(text: Option<Content>): bool {
    text.Some? && text.value <= "true"
  }

  function LimitIn(text: Option<Content>, current: int): int {
    var limit := if text.Some? then ScanInt(text.value) else None;
    if limit.Some? && limit.value >= 0 then limit.value else current
  }

  /** One attribute applied to slot m, as the branches of the loop do it. */
  function Process(m: Module, n: Node, isNew: bool): Module {
    var text := if n.Element? then n.text else None;
    var on := SwitchedOn(text);
    var scan := if Is(n, TrapTag) then Scanned(m.ifces, m.ifcCap, isNew, n.kids) else Scan(m.ifces, m.ifcCap, false, false);
    m.(enabled := if Is(n, EnabledTag) then on else m.enabled,
       restartCnt := if Is(n, EnabledTag) && on && (isNew || !m.enabled) then -1 else m.restartCnt,
       maxRestarts := if Is(n, RestartsTag) then LimitIn(text, m.maxRestarts) else m.maxRestarts,
       name := if Is(n, NameTag) && isNew && text.Some? then text.value else m.name,
       path := if Is(n, PathTag) then text else m.path,
       params := if Is(n, ParamsTag) then text else m.params,
       ifces := scan.ifces, ifcCap := scan.cap,
       modified := m.modified || scan.modified
         || (!isNew && ((Is(n, PathTag) && text != m.path) || (Is(n, ParamsTag) && text != m.params))))
  }

  /** The attributes seen so far. */
  datatype Seen = Seen(enabled: seq<Node>, restarts: seq<Node>, params: seq<Node>, name: seq<Node>, path: seq<Node>, trap: seq<Node>)

  function SeenIn(kids: seq<Node>): Seen {
    Seen(Elements(kids, EnabledTag), Elements(kids, RestartsTag), Elements(kids, ParamsTag), Elements(kids, NameTag),
         Elements(kids, PathTag), Elements(kids, TrapTag))
  }

  function LastText(es: seq<Node>): Option<Content> {
    if es == [] || !es[|es| - 1].Element? then None else es[|es| - 1].text
  }

  function ScanIn(m: Module, traps: seq<Node>, isNew: bool): Scan {
    if traps == [] || !traps[|traps| - 1].Element? then Scan(m.ifces, m.ifcCap, false, false)
    else Scanned(m.ifces, m.ifcCap, isNew, traps[|traps| - 1].kids)
  }

  /** Slot m after attributes of which each occurred at most once. */
  function Partial(m: Module, s: Seen, isNew: bool): Module {
    var on := SwitchedOn(LastText(s.enabled));
    var scan := ScanIn(m, s.trap, isNew);
    m.(enabled := if s.enabled != [] then on else m.enabled,
       restartCnt := if s.enabled != [] && on && (isNew || !m.enabled) then -1 else m.restartCnt,
       maxRestarts := LimitIn(LastText(s.restarts), m.maxRestarts),
       name := if isNew && LastText(s.name).Some? then LastText(s.name).value else m.name,
       path := if s.path != [] then LastText(s.path) else m.path,
       params := if s.params != [] then LastText(s.params) else m.params,
       ifces := scan.ifces, ifcCap := scan.cap,
       modified := m.modified || scan.modified
         || (!isNew && ((s.path != [] && LastText(s.path) != m.path) || (s.params != [] && LastText(s.params) != m.params))))
  }

  lemma PartialNone(m: Module, isNew: bool)
    ensures Partial(m, SeenIn([]), isNew) == m
  {}

  /** One more attribute. */
  predicate Adds(s: Seen, n: Node, t: Seen) {
    t == s.(enabled := if Is(n, EnabledTag) then [n] else s.enabled,
            restarts := if Is(n, RestartsTag) then [n] else s.restarts,
            params := if Is(n, ParamsTag) then [n] else s.params,
            name := if Is(n, NameTag) then [n] else s.name,
            path := if Is(n, PathTag) then [n] else s.path,
            trap := if Is(n, TrapTag) then [n] else s.trap)
    && (Is(n, EnabledTag) ==> s.enabled == []) && (Is(n, RestartsTag) ==> s.restarts == [])
    && (Is(n, ParamsTag) ==> s.params == []) && (Is(n, NameTag) ==> s.name == [])
    && (Is(n, PathTag) ==> s.path == []) && (Is(n, TrapTag) ==> s.trap == [])
  }

  lemma NextEnabled(m: Module, s: Seen, n: Node, isNew: bool)
    requires Is(n, EnabledTag) && s.enabled == []
    ensures Partial(m, s.(enabled := [n]), isNew) == Process(Partial(m, s, isNew), n, isNew)
  {}

  lemma NextRestarts(m: Module, s: Seen, n: Node, isNew: bool)
    requires Is(n, RestartsTag) && s.restarts == []
    ensures Partial(m, s.(restarts := [n]), isNew) == Process(Partial(m, s, isNew), n, isNew)
  {}

  lemma NextParams(m: Module, s: Seen, n: Node, isNew: bool)
    requires Is(n, ParamsTag) && s.params == []
    ensures Partial(m, s.(params := [n]), isNew) == Process(Partial(m, s, isNew), n, isNew)
  {}

  lemma NextName(m: Module, s: Seen, n: Node, isNew: bool)
    requires Is(n, NameTag) && s.name == []
    ensures Partial(m, s.(name := [n]), isNew) == Process(Partial(m, s, isNew), n, isNew)
  {}

  lemma NextPath(m: Module, s: Seen, n: Node, isNew: bool)
    requires Is(n, PathTag) && s.path == []
    ensures Partial(m, s.(path := [n]), isNew) == Process(Partial(m, s, isNew), n, isNew)
  {}

  lemma NextTrap(m: Module, s: Seen, n: Node, isNew: bool)
    requires Is(n, TrapTag) && s.trap == []
    ensures Partial(m, s.(trap := [n]), isNew) == Process(Partial(m, s, isNew), n, isNew)
  {}

  lemma PartialNext(m: Module, s: Seen, n: Node, t: Seen, isNew: bool)
    requires Adds(s, n, t)
    ensures Partial(m, t, isNew) == Process(Partial(m, s, isNew), n, isNew)
  {
    if Is(n, EnabledTag) {
      NextEnabled(m, s, n, isNew);
    } else if Is(n, RestartsTag) {
      NextRestarts(m, s, n, isNew);
    } else if Is(n, ParamsTag) {
      NextParams(m, s, n, isNew);
    } else if Is(n, NameTag) {
      NextName(m, s, n, isNew);
    } else if Is(n, PathTag) {
      NextPath(m, s, n, isNew);
    } else if Is(n, TrapTag) {
      NextTrap(m, s, n, isNew);
    }
  }

  lemma TagNext(kids: seq<Node>, i: nat, tag: Tag)
    requires i < |kids| && Count(kids, tag) <= 1
    ensures Elements(kids[..i + 1], tag) == if Is(kids[i], tag) then [kids[i]] else Elements(kids[..i], tag)
    ensures Is(kids[i], tag) ==> Elements(kids[..i], tag) == []
  {
    assert kids[..i + 1][..i] == kids[..i];
    assert kids[..i + 1] + kids[i + 1..] == kids;
    ElementsAppend(kids[..i + 1], kids[i + 1..], tag);
  }

  lemma SeenNext(kids: seq<Node>, i: nat)
    requires i < |kids| && PlainModule(kids)
    ensures Adds(SeenIn(kids[..i]), kids[i], SeenIn(kids[..i + 1]))
  {
    TagNext(kids, i, EnabledTag);
    TagNext(kids, i, RestartsTag);
    TagNext(kids, i, ParamsTag);
    TagNext(kids, i, NameTag);
    TagNext(kids, i, PathTag);
    TagNext(kids, i, TrapTag);
  }

  /** The slot before its attributes are read: checked, with the PID of the element, and without interfaces if the
      element has none. */
  function Prepared(m: Module, d: Entry, isNew: bool, initial: bool): Module
    requires d.node.Element?
  {
    var pid := if initial then d.node.pid else None;
    var clear := !isNew && !Given(d.node.kids, TrapTag) && m.ifces != [];
    m.(checked := true, pid := if pid.Some? then Atoi(pid.value) else m.pid,
       ifces := if clear then [] else m.ifces, modified := m.modified || clear)
  }

  /** All attributes together make the record the specification asks for. */
  lemma PartialAll(m: Module, d: Entry, isNew: bool, initial: bool)
    requires d.node.Element? && ValidModule(d.node.kids) && (isNew ==> m.ifces == [])
    ensures Partial(Prepared(m, d, isNew, initial), SeenIn(d.node.kids), isNew).(profile := Some(d.profile))
         == Reconciled(m, d, isNew, initial)
  {
    ValidTexts(d.node.kids);
  }

  // ----- Room in the arrays while the document is read -----

  /** Every interface list fits its array, and blank slots have none. */
  ghost predicate RowsFine(t: Rows) {
    && Tidy(t)
    && (forall i {:trigger Visit(i)} :: Visit(i) && 0 <= i < |t.slots| ==> RowFits(t, i))
  }

  predicate RowFits(t: Rows, i: nat)
    requires i < |t.slots|
  {
    && |t.slots[i].ifces| <= t.slots[i].ifcCap && Sane(t.slots[i].ifcCap)
    && (i >= t.loaded ==> t.slots[i].ifces == [])
  }

  lemma ScanOfFits(m: Module, kids: seq<Node>, isNew: bool)
    requires |m.ifces| <= m.ifcCap && Sane(m.ifcCap)
    ensures |ScanOf(m, kids, isNew).ifces| <= ScanOf(m, kids, isNew).cap && Sane(ScanOf(m, kids, isNew).cap)
  {
    var traps := Elements(kids, TrapTag);
    if traps != [] {
      ScannedFits(m.ifces, m.ifcCap, isNew, traps[|traps| - 1].kids);
    }
  }

  lemma ScannedFits(fs: seq<Interface>, cap: nat, isNew: bool, kids: seq<Node>)
    requires |fs| <= cap && Sane(cap)
    ensures var r := Scanned(fs, cap, isNew, kids);
            |r.ifces| <= r.cap && Sane(r.cap)
  {
    GrownFits(cap, |Elements(kids, InterfaceTag)|);
    if kids != [] {
      GrownFits(cap, |Elements(kids[1..], InterfaceTag)|);
    }
  }

  lemma EnterFine(t: Rows, d: Entry, initial: bool)
    requires RowsFine(t)
    ensures RowsFine(Enter(t, d, initial))
  {
    var slots := MakeRoom(t.slots, t.loaded);
    var x := FindFrom(slots, t.loaded, NameOf(d.node), 0);
    var r := Enter(t, d, initial);
    assert Visit(x);
    ScanOfFits(slots[x], if d.node.Element? then d.node.kids else [], x == t.loaded);
    forall i {:trigger Visit(i)} | Visit(i) && 0 <= i < |r.slots| ensures RowFits(r, i) {
      if i != x && i < |t.slots| {
        assert RowFits(t, i) && r.slots[i] == t.slots[i];
      }
    }
  }

  lemma {:induction false} EnterAllFine(t: Rows, ds: seq<Entry>, initial: bool)
    requires RowsFine(t)
    ensures RowsFine(EnterAll(t, ds, initial))
  {
    if ds != [] {
      EnterAllFine(t, ds[..|ds| - 1], initial);
      EnterFine(EnterAll(t, ds[..|ds| - 1], initial), ds[|ds| - 1], initial);
    }
  }

  // ----- The entries of a document, element by element -----

  lemma ElementsSnoc(kids: seq<Node>, i: nat, tag: Tag)
    requires i < |kids|
    ensures Elements(kids[..i + 1], tag) == Elements(kids[..i], tag) + if Is(kids[i], tag) then [kids[i]] else []
  {
    assert kids[..i + 1][..i] == kids[..i];
  }

  /** The entries ds and those among the first j children of profile p. */
  ghost function Upto(ds: seq<Entry>, kids: seq<Node>, j: nat, p: nat): seq<Entry>
    requires j <= |kids|
  {
    if j == 0 then ds
    else if Is(kids[j - 1], ModuleTag) then Upto(ds, kids, j - 1, p) + [Entry(kids[j - 1], p)]
    else Upto(ds, kids, j - 1, p)
  }

  lemma {:induction false} UptoIs(ds: seq<Entry>, kids: seq<Node>, j: nat, p: nat)
    requires j <= |kids|
    ensures Upto(ds, kids, j, p) == ds + TagWith(Elements(kids[..j], ModuleTag), p)
  {
    if j > 0 {
      UptoIs(ds, kids, j - 1, p);
      ElementsSnoc(kids, j - 1, ModuleTag);
    }
  }

  /** What the first i children of the root give: entries, profiles, and the default limit. */
  ghost function EntriesTo(kids: seq<Node>, i: nat): seq<Entry>
    requires i <= |kids|
  {
    if i == 0 then []
    else if Is(kids[i - 1], ModulesTag) then Upto(EntriesTo(kids, i - 1), kids[i - 1].kids, |kids[i - 1].kids|, |ProfilesTo(kids, i - 1)|)
    else EntriesTo(kids, i - 1)
  }

  ghost function ProfilesTo(kids: seq<Node>, i: nat): seq<Profile>
    requires i <= |kids|
  {
    if i == 0 then [] else ProfilesTo(kids, i - 1) + if Is(kids[i - 1], ModulesTag) then [ProfileOf(kids[i - 1])] else []
  }

  ghost function LimitTo(kids: seq<Node>, i: nat, current: int): int
    requires i <= |kids|
  {
    if i == 0 then current
    else if Is(kids[i - 1], SupervisorTag) then LimitOf(kids[i - 1].kids, LimitTo(kids, i - 1, current))
    else LimitTo(kids, i - 1, current)
  }

  /** The limit a "supervisor" element gives. */
  function LimitOf(kids: seq<Node>, current: int): int {
    var text := Text(kids, RestartsTag);
    if text.Some? && ScanInt(text.value).Some? && 0 <= ScanInt(text.value).value <= MAX_RESTARTS
    then ScanInt(text.value).value else current
  }

  lemma {:induction false} ProfilesToIs(kids: seq<Node>, i: nat)
    requires i <= |kids|
    ensures ProfilesTo(kids, i) == ProfilesIn(kids[..i])
  {
    if i == 0 {
      assert kids[..i] == [];
    } else {
      var k := i - 1;
      assert ProfilesTo(kids, k) == ProfilesIn(kids[..k]) by { ProfilesToIs(kids, k); }
      ProfilesSnoc(kids, k);
    }
  }

  lemma ProfilesSnoc(kids: seq<Node>, i: nat)
    requires i < |kids|
    ensures ProfilesIn(kids[..i + 1]) == ProfilesIn(kids[..i]) + if Is(kids[i], ModulesTag) then [ProfileOf(kids[i])] else []
  {
    ElementsSnoc(kids, i, ModulesTag);
  }

  lemma {:induction false} EntriesToIs(kids: seq<Node>, i: nat)
    requires i <= |kids|
    ensures EntriesTo(kids, i) == Entries(kids[..i])
  {
    if i > 0 {
      EntriesToIs(kids, i - 1);
      ProfilesToIs(kids, i - 1);
      EntriesSnoc(kids, i - 1);
      if Is(kids[i - 1], ModulesTag) {
        var ks := kids[i - 1].kids;
        UptoIs(EntriesTo(kids, i - 1), ks, |ks|, |ProfilesTo(kids, i - 1)|);
        assert ks[..|ks|] == ks;
      }
    }
  }

  /** The entries after one more child of the root. */
  lemma EntriesSnoc(kids: seq<Node>, i: nat)
    requires i < |kids|
    ensures Entries(kids[..i + 1]) == Entries(kids[..i])
         + if Is(kids[i], ModulesTag) then TagWith(Elements(kids[i].kids, ModuleTag), |Elements(kids[..i], ModulesTag)|) else []
  {
    ElementsSnoc(kids, i, ModulesTag);
    var qs := Elements(kids[..i], ModulesTag);
    if Is(kids[i], ModulesTag) {
      assert (qs + [kids[i]])[..|qs|] == qs;
    } else {
      assert qs + [] == qs;
    }
  }

  lemma {:induction false} LimitToIs(kids: seq<Node>, i: nat, current: int)
    requires i <= |kids| && Count(kids, SupervisorTag) <= 1
    ensures LimitTo(kids, i, current) == SupervisorLimit(kids[..i], current)
  {
    if i > 0 {
      LimitToIs(kids, i - 1, current);
      TagNext(kids, i - 1, SupervisorTag);
    }
  }

  lemma EnterSnoc(t: Rows, ds: seq<Entry>, d: Entry, initial: bool)
    requires Tidy(t)
    ensures EnterAll(t, ds + [d], initial) == Enter(EnterAll(t, ds, initial), d, initial)
  {
    assert (ds + [d])[..|ds|] == ds;
  }

  // ----- The loops after the document -----

  /** A module that was not found is disabled and flagged. */
  function FlagMissing(m: Module, known: bool): Module {
    var missing := known && !m.checked;
    m.(enabled := m.enabled && !missing, remove := m.remove || missing)
  }

  /** A modified module that was running is to be restarted. */
  function RestartModified(m: Module): Module {
    var restart := m.modified && m.running;
    m.(served := false, running := m.running && !m.modified, enabled := m.enabled && !restart, init := m.init || (restart && m.enabled))
  }

  lemma SettleIs(m: Module, known: bool, initial: bool)
    ensures Settle(m, known, initial)
         == Service.InitVars(RestartModified(FlagMissing(m, known)), initial && RestartModified(FlagMissing(m, known)).pid > 0)
  {}
}
