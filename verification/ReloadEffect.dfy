/** The meaning of a reload for every module of the table and of the document. */
module ReloadEffect {
  import opened Model
  import opened Document
  import opened Interfaces
  import opened Reload

  // ----- What a document asks of a module -----

  /** The "interface" elements of a module element. */
  function IfcNodes(kids: seq<Node>): seq<Node> {
    var traps := Elements(kids, TrapTag);
    if traps == [] then [] else Elements(traps[|traps| - 1].kids, InterfaceTag)
  }

  predicate SameIfces(kids: seq<Node>, m: Module) {
    |m.ifces| == |IfcNodes(kids)| && AllMatch(m.ifces, IfcNodes(kids))
  }

  /** The stored path, a given params, the number of interfaces or a given interface attribute differs. */
  predicate Changed(kids: seq<Node>, m: Module) {
    Differs(kids, PathTag, m.path) || Differs(kids, ParamsTag, m.params) || !SameIfces(kids, m)
  }

  /** The restarted scan loses the first interface. */
  predicate Drops(kids: seq<Node>, m: Module) {
    var traps := Elements(kids, TrapTag);
    traps != [] && Loses(m.ifces, traps[|traps| - 1].kids)
  }

  /** Everything an entry says, but for the interfaces, is stored in n. */
  predicate Stores(d: Entry, n: Module)
    requires d.node.Element?
  {
    var kids := d.node.kids;
    && n.name == NameOf(d.node) && n.path == Text(kids, PathTag) && (Given(kids, ParamsTag) ==> n.params == Text(kids, ParamsTag))
    && n.profile == Some(d.profile) && !n.remove
    && (n.enabled || n.init <==> Text(kids, EnabledTag) == Some("true"))
    && (Given(kids, RestartsTag) ==> Text(kids, RestartsTag).Some? && ScanInt(Text(kids, RestartsTag).value) == Some(n.maxRestarts))
  }

  /** The part of a record that only the service thread and the kernel change. */
  predicate SameRun(m: Module, n: Module) {
    && n.name == m.name && n.pid == m.pid && n.status == m.status && n.restartTimer == m.restartTimer
    && n.sentSigint == m.sentSigint && n.sd == m.sd && n.connected == m.connected && n.connTimer == m.connTimer
  }

  // ----- Records -----

  lemma ValidText(kids: seq<Node>, tag: Tag) returns (n: Node)
    requires |Elements(kids, tag)| == 1
    ensures n in kids && Is(n, tag) && Text(kids, tag) == n.text
  {
    ElementsAre(kids, tag);
    n := Elements(kids, tag)[0];
  }

  /** What a valid module element gives. */
  lemma ValidTexts(kids: seq<Node>)
    requires ValidModule(kids)
    ensures Text(kids, NameTag).Some? && Text(kids, PathTag).Some? && ValidSwitch(Text(kids, EnabledTag))
    ensures Given(kids, RestartsTag) ==> ValidRestarts(Text(kids, RestartsTag))
    ensures Text(kids, EnabledTag).value <= "true" <==> Text(kids, EnabledTag) == Some("true")
  {
    var a := ValidText(kids, NameTag);
    var b := ValidText(kids, PathTag);
    var c := ValidText(kids, EnabledTag);
    assert ModuleKid(a) && ModuleKid(b) && ModuleKid(c);
    if Given(kids, RestartsTag) {
      var d := ValidText(kids, RestartsTag);
      assert ModuleKid(d);
    }
    assert !("false" <= "true") by { assert "false"[0] != "true"[0]; }
  }

  lemma ValidTraps(kids: seq<Node>)
    requires ValidModule(kids)
    ensures forall n :: n in Elements(kids, TrapTag) ==> n.Element? && ValidTrap(n.kids)
  {
    ElementsAre(kids, TrapTag);
  }

  lemma ScanOfFaithful(m: Module, kids: seq<Node>, isNew: bool)
    requires ValidModule(kids) && |m.ifces| <= m.ifcCap && Sane(m.ifcCap) && (isNew ==> m.ifces == [])
    ensures var r := ScanOf(m, kids, isNew);
            && (r.modified <==> !isNew && !SameIfces(kids, m))
            && (isNew ==> r.ifces == BuildAll(IfcNodes(kids)))
            && (|r.ifces| == |IfcNodes(kids)| && AllMatch(r.ifces, IfcNodes(kids)) <==> isNew || !Drops(kids, m))
            && |r.ifces| <= r.cap && Sane(r.cap) && (Coded(m.ifces) ==> Coded(r.ifces))
  {
    var traps := Elements(kids, TrapTag);
    if traps != [] {
      var ks := traps[|traps| - 1].kids;
      assert ValidTrap(ks) by {
        ValidTraps(kids);
        assert traps[|traps| - 1] in traps;
      }
      assert IfcNodes(kids) == Elements(ks, InterfaceTag) && Drops(kids, m) == Loses(m.ifces, ks);
      assert ScanOf(m, kids, isNew) == Scanned(m.ifces, m.ifcCap, isNew, ks);
      ScanFaithful(m.ifces, m.ifcCap, isNew, ks);
    } else {
      assert IfcNodes(kids) == [] && BuildAll([]) == [];
    }
  }

  lemma ScanOfSound(m: Module, kids: seq<Node>, isNew: bool)
    requires ValidModule(kids) && AllSound(m.ifces)
    ensures AllSound(ScanOf(m, kids, isNew).ifces)
  {
    ValidTraps(kids);
    var traps := Elements(kids, TrapTag);
    if traps != [] {
      var trap := traps[|traps| - 1];
      assert trap in traps;
      ScanSound(m.ifces, m.ifcCap, isNew, trap.kids);
      assert ScanOf(m, kids, isNew).ifces == Scanned(m.ifces, m.ifcCap, isNew, trap.kids).ifces;
    }
  }

  predicate RoomyModule(m: Module) {
    |m.ifces| <= m.ifcCap && Sane(m.ifcCap) && Coded(m.ifces) && AllSound(m.ifces)
  }

  /** A module the document mentions: where it runs and what it is called stay, what the document
      gives is stored, and it counts as modified exactly when something given differs. */
  ghost predicate KnownEffect(m: Module, d: Entry, n: Module)
    requires d.node.Element?
  {
    var kids := d.node.kids;
    && SameRun(m, n) && Stores(d, n) && RoomyModule(n) && n.myChild && !n.served
    && (n.modified <==> Changed(kids, m))
    && (SameIfces(kids, n) <==> !Drops(kids, m))
    && (n.init <==> n.modified && m.running && Text(kids, EnabledTag) == Some("true")) && (n.init ==> !n.enabled)
    && (n.running <==> m.running && !n.modified)
    && n.maxRestarts == (if Given(kids, RestartsTag) then Atoi(Text(kids, RestartsTag).value) else -1)
    && (Given(kids, ParamsTag) || n.params == m.params)
    && !n.rootPerm && n.restartCnt == (if Text(kids, EnabledTag) == Some("true") && !m.enabled then -1 else m.restartCnt)
  }

  /** The same before the modified modules are sent to be restarted. */
  ghost predicate KnownUpdate(m: Module, d: Entry, u: Module)
    requires d.node.Element?
  {
    var kids := d.node.kids;
    && SameRun(m, u) && Stores(d, u) && RoomyModule(u) && u.myChild && u.checked && !u.init && u.running == m.running
    && (u.modified <==> Changed(kids, m))
    && (SameIfces(kids, u) <==> !Drops(kids, m))
    && u.maxRestarts == (if Given(kids, RestartsTag) then Atoi(Text(kids, RestartsTag).value) else -1)
    && (Given(kids, ParamsTag) || u.params == m.params)
    && !u.rootPerm && u.restartCnt == (if Text(kids, EnabledTag) == Some("true") && !m.enabled then -1 else m.restartCnt)
  }

  lemma UpdateRecord(m: Module, d: Entry)
    requires d.node.Element? && ValidModule(d.node.kids) && m.name == NameOf(d.node) && RoomyModule(m)
    ensures KnownUpdate(m, d, Reconciled(ResetSlot(m), d, false, false))
  {
    var kids := d.node.kids;
    ValidTexts(kids);
    ScanOfFaithful(ResetSlot(m), kids, false);
    ScanOfSound(ResetSlot(m), kids, false);
    ScanOfReset(m, kids);
  }

  lemma SettleRecord(m: Module, d: Entry, u: Module)
    requires d.node.Element? && KnownUpdate(m, d, u)
    ensures KnownEffect(m, d, Settle(u, true, false))
  {
    var n := Settle(u, true, false);
    SettleKnown(u);
    assert SameRun(m, n) && RoomyModule(n) && SameIfces(d.node.kids, n) == SameIfces(d.node.kids, u);
  }

  /** What the loops after the document change in the record of a module that was found. */
  lemma SettleKnown(u: Module)
    requires u.checked && !u.init
    ensures var restart := u.modified && u.running;
            Settle(u, true, false) == u.(enabled := u.enabled && !restart, served := false, running := u.running && !u.modified,
                                         init := restart && u.enabled)
  {}

  lemma KnownRecord(m: Module, d: Entry)
    requires d.node.Element? && ValidModule(d.node.kids) && m.name == NameOf(d.node) && RoomyModule(m)
    ensures KnownEffect(m, d, Settle(Reconciled(ResetSlot(m), d, false, false), true, false))
  {
    UpdateRecord(m, d);
    SettleRecord(m, d, Reconciled(ResetSlot(m), d, false, false));
  }

  /** The scan looks at nothing the reset changes. */
  lemma ScanOfReset(m: Module, kids: seq<Node>)
    ensures ScanOf(ResetSlot(m), kids, false) == ScanOf(m, kids, false)
    ensures SameIfces(kids, ResetSlot(m)) == SameIfces(kids, m) && Drops(kids, ResetSlot(m)) == Drops(kids, m)
  {}

  /** A module the document does not mention. */
  predicate MissingEffect(m: Module, n: Module) {
    && SameRun(m, n) && !n.enabled && n.remove && n.profile.None? && !n.init && !n.modified && !n.served && n.myChild
    && n.path == m.path && n.params == m.params && n.ifces == m.ifces && n.ifcCap == m.ifcCap
    && n.running == m.running && n.maxRestarts == -1 && n.restartCnt == m.restartCnt
  }

  lemma MissingRecord(m: Module)
    ensures MissingEffect(m, Settle(ResetSlot(m), true, false))
  {}

  /** A new module in slot `base`. At start-up (`initial`) it may bring the PID of a process that runs already. */
  ghost predicate NewEffect(base: Module, d: Entry, initial: bool, n: Module)
    requires d.node.Element?
  {
    var kids := d.node.kids;
    && Stores(d, n) && RoomyModule(n) && n.ifces == BuildAll(IfcNodes(kids)) && SameIfces(kids, n)
    && n.params == Text(kids, ParamsTag)
    && !n.modified && !n.init && !n.served && !n.status && !n.connected && n.connTimer == 0 && !n.sentSigint && n.restartTimer == 0
    && n.maxRestarts == (if Given(kids, RestartsTag) then Atoi(Text(kids, RestartsTag).value) else base.maxRestarts)
    && n.restartCnt == (if n.enabled then -1 else 0)
    && n.pid == (if initial && d.node.pid.Some? then Atoi(d.node.pid.value) else 0)
    && n.running == (initial && n.pid > 0) && n.sd == (if initial && n.pid > 0 then -1 else 0)
  }

  /** What a blank slot holds when an entry is written to it. */
  predicate Empty(m: Module) {
    && m.path == None && m.params == None && m.ifces == [] && Sane(m.ifcCap) && !m.modified && !m.init && !m.status && !m.remove
    && !m.running && m.restartCnt == 0 && m.restartTimer == 0 && m.pid == 0 && !m.sentSigint && m.sd == 0
    && !m.connected && m.connTimer == 0
  }

  lemma NewRecord(base: Module, d: Entry, initial: bool)
    requires d.node.Element? && ValidModule(d.node.kids) && Empty(base)
    ensures NewEffect(base, d, initial, Settle(Reconciled(base, d, true, initial), false, initial))
  {
    ValidTexts(d.node.kids);
    ScanOfFaithful(base, d.node.kids, true);
    ScanOfSound(base, d.node.kids, true);
  }
}
