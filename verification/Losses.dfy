/** Runs that lose something: a restart limit that the backup does not keep, a backup
    that cannot be loaded, and a table that grows past the slots with the default limit. */
module Losses {
  import opened Model
  import opened Invariants
  import opened Document
  import opened Interfaces
  import opened Reload
  import opened Reconcile
  import opened ReloadEffect
  import opened ReloadTheorem
  import opened ReloadKeeps
  import opened Backup
  import opened RoundTrip
  import opened Runs
  import opened Samples
  import opened NextStart
  import Numbers

  // ----- One module -----

  lemma OneDoc(node: Node) returns (doc: Option<Node>)
    requires Is(node, ModuleTag) && ValidModule(node.kids)
    ensures ValidDoc(doc) && Entries(doc.value.kids) == [Entry(node, 0)] && ProfilesIn(doc.value.kids) == [Everything]
  {
    doc := DocOf([node]);
  }

  /** The only module of a document, on a kernel without processes. */
  lemma LoadOne(node: Node) returns (boot: State, doc: Option<Node>, st: State, base: Module)
    requires Is(node, ModuleTag) && ValidModule(node.kids)
    ensures Fresh(boot) && |boot.slots| > 0 && Boots(boot, doc) && st == Reloaded(boot, doc, true) && Good(st)
    ensures st.loaded == 1 && st.profiles == [Everything] && NewEffect(base, Entry(node, 0), true, st.slots[0])
  {
    boot := FirstState(map[]);
    FirstFresh(map[]);
    doc := OneDoc(node);
    st, base := LoadEntry(boot, doc, Entry(node, 0));
  }

  lemma LoadEntry(boot: State, doc: Option<Node>, d: Entry) returns (st: State, base: Module)
    requires Fresh(boot) && ValidDoc(doc) && Entries(doc.value.kids) == [d] && d.node.Element?
    ensures Boots(boot, doc) && st == Reloaded(boot, doc, true) && Good(st) && st.profiles == ProfilesIn(doc.value.kids)
    ensures st.loaded == 1 && NewEffect(base, d, true, st.slots[0])
  {
    st := Reloaded(boot, doc, true);
    assert Good(st) by { var r := Reachable(boot, doc, []); }
    assert Boot(boot, [d], st) by { ReloadStarts(boot, doc); }
    base := FirstEntry(boot, [d], st, d);
  }

  lemma FirstEntry(boot: State, ds: seq<Entry>, r: State, d: Entry) returns (base: Module)
    requires boot.loaded == 0 && ds == [d] && Boot(boot, ds, r)
    ensures r.loaded == 1 && d.node.Element? && NewEffect(base, d, true, r.slots[0])
  {
    AllNew(RowsOf(boot), ds);
    var e := AddedAt(boot, ds, true, r, 0);
    base := Base(RowsOf(boot).slots, 0);
  }

  /** A table that holds one module of the only profile saves just that. */
  lemma SavesOne(st: State)
    requires Good(st) && st.loaded == 1 && st.profiles == [Everything] && st.slots[0].profile == Some(0)
    ensures Storable(st) && Saved(st, 1) == [st.slots[0]]
  {
    GoodStorable(st);
    var m := st.slots[0];
    assert st.slots[..st.loaded] == [m] && [m][..0] == [];
    assert Members([m], [Everything], Everything.name) == Members([m][..0], [Everything], Everything.name) + [m];
    assert Saved(st, 1) == Saved(st, 0) + MembersAt(st, 0);
  }

  // ----- The limit is not saved -----

  function LimitLeaf(limit: nat): Node {
    Leaf(RestartsTag, Numbers.PrintInt(limit))
  }

  function Limited(name: string, path: Content, limit: nat): Node {
    Extended(Sample(name, path, 0), LimitLeaf(limit))
  }

  lemma LimitLeafFine(limit: nat)
    requires limit <= MAX_RESTARTS
    ensures LimitLeaf(limit).text == Some(Numbers.PrintInt(limit)) && ModuleKid(LimitLeaf(limit))
    ensures ScanInt(Numbers.PrintInt(limit)) == Some(limit)
  {
    Numbers.PrintedInt(limit);
  }

  lemma LimitedValid(name: string, path: Content, limit: nat)
    requires name != "" && limit <= MAX_RESTARTS
    ensures Is(Limited(name, path, limit), ModuleTag) && ValidModule(Limited(name, path, limit).kids)
  {
    LimitLeafFine(limit);
    ExtendedValid(Sample(name, path, 0), LimitLeaf(limit));
  }

  /** What an extended element says. */
  lemma ExtendedSays(m: Module, extra: Node)
    requires m.name != "" && m.ifces == [] && extra.Element? && (extra.tag == RestartsTag || extra.tag == TrapTag)
    ensures var kids := Extended(m, extra).kids;
            && Text(kids, NameTag) == Some(m.name)
            && (extra.tag == RestartsTag ==> Given(kids, RestartsTag) && Text(kids, RestartsTag) == extra.text && IfcNodes(kids) == [])
            && (extra.tag == TrapTag ==> IfcNodes(kids) == Elements(extra.kids, InterfaceTag))
  {
    var kids := Extended(m, extra).kids;
    ExtendedElements(m, extra, NameTag);
    ExtendedElements(m, extra, RestartsTag);
    ExtendedElements(m, extra, TrapTag);
    LeafText(kids, NameTag, m.name, Part(m, NameTag));
    if extra.tag == RestartsTag {
      NoTrapPart(m);
      OnlyExtra(kids, extra);
    } else {
      OnlyTrap(kids, extra);
    }
  }

  lemma NoTrapPart(m: Module)
    requires m.ifces == []
    ensures Part(m, TrapTag) == []
  {}

  lemma OnlyExtra(kids: seq<Node>, extra: Node)
    requires extra.Element? && Elements(kids, RestartsTag) == [extra] && Elements(kids, TrapTag) == []
    ensures Given(kids, RestartsTag) && Text(kids, RestartsTag) == extra.text && IfcNodes(kids) == []
  {}

  lemma OnlyTrap(kids: seq<Node>, extra: Node)
    requires extra.Element? && Elements(kids, TrapTag) == [extra]
    ensures IfcNodes(kids) == Elements(extra.kids, InterfaceTag)
  {}

  /** The next start from the backup of a table that holds one module. */
  lemma SecondStart(st: State, boot: State) returns (r: State)
    requires Good(st) && st.loaded == 1 && st.profiles == [Everything] && st.slots[0].profile == Some(0)
    requires Fresh(boot) && Attributed(st.slots[0])
    ensures r == Reloaded(boot, Some(Written(st)), true) && r.loaded == 1 <= |r.slots|
    ensures SameSaved(st.slots[0], r.slots[0]) && LimitBack(boot, 0, r.slots[0])
  {
    r := Reloaded(boot, Some(Written(st)), true);
    SavesOne(st);
    BackupRoundTrip(st, boot);
    assert SameSaved(Saved(st, 1)[0], r.slots[0]);
  }

  /** Any limit a document gives: the module has it, and after a backup and the next start it has the default. */
  lemma LimitLost(name: string, path: Content, limit: nat) returns (boot: State, doc: Option<Node>)
    requires name != "" && limit <= MAX_RESTARTS
    ensures Boots(boot, doc)
    ensures var st := Reloaded(boot, doc, true);
            && Good(st) && st.loaded == 1 && st.slots[0].name == name && st.slots[0].maxRestarts == limit
            && var r := Reloaded(boot, Some(Written(st)), true);
               r.loaded == 1 <= |r.slots| && r.slots[0].name == name && r.slots[0].maxRestarts == -1
  {
    LimitedValid(name, path, limit);
    var st, base, r;
    boot, doc, st, base := LoadOne(Limited(name, path, limit));
    LimitRead(name, path, limit, base, st.slots[0]);
    r := SecondStart(st, boot);
  }

  lemma LimitRead(name: string, path: Content, limit: nat, base: Module, n: Module)
    requires name != "" && limit <= MAX_RESTARTS && NewEffect(base, Entry(Limited(name, path, limit), 0), true, n)
    ensures n.name == name && n.maxRestarts == limit && n.profile == Some(0) && n.ifces == []
  {
    LimitLeafFine(limit);
    ExtendedSays(Sample(name, path, 0), LimitLeaf(limit));
  }

  // ----- A backup that is refused -----

  const BareIfc := Element(InterfaceTag, None, None, [Filler])
  const BareTrap := Element(TrapTag, None, None, [BareIfc])

  function Bare(name: string, path: Content): Node {
    Extended(Sample(name, path, 0), BareTrap)
  }

  lemma BareAttributes()
    ensures ValidTrap(BareTrap.kids) && !HasAttribute(Build(BareIfc)) && Elements(BareTrap.kids, InterfaceTag) == [BareIfc]
  {
    SingleElements(Filler, NoteTag);
    SingleElements(Filler, TypeTag);
    SingleElements(Filler, ParamsTag);
    SingleElements(Filler, DirectionTag);
    assert TrapKid(BareIfc);
    SingleElements(BareIfc, InterfaceTag);
  }

  lemma BareValid(name: string, path: Content)
    requires name != ""
    ensures Is(Bare(name, path), ModuleTag) && ValidModule(Bare(name, path).kids)
  {
    BareAttributes();
    ExtendedValid(Sample(name, path, 0), BareTrap);
  }

  /** A document whose only interface element holds nothing but white space is loaded, and the backup of the table
      that results is refused: the next start is left with an empty table. */
  lemma BackupRefused(name: string, path: Content) returns (boot: State, doc: Option<Node>)
    requires name != ""
    ensures Boots(boot, doc)
    ensures var st := Reloaded(boot, doc, true);
            && Good(st) && st.loaded == 1 && !ValidDoc(Some(Written(st)))
            && Reloaded(boot, Some(Written(st)), true) == boot && boot.loaded == 0
  {
    BareValid(name, path);
    var st, base;
    boot, doc, st, base := LoadOne(Bare(name, path));
    BareRead(name, path, base, st.slots[0]);
    SavesOne(st);
    assert !Attributed(Saved(st, 1)[0]);
    WrittenValid(st);
  }

  lemma BareRead(name: string, path: Content, base: Module, n: Module)
    requires name != "" && NewEffect(base, Entry(Bare(name, path), 0), true, n)
    ensures n.profile == Some(0) && !Attributed(n)
  {
    BareAttributes();
    ExtendedSays(Sample(name, path, 0), BareTrap);
    assert n.ifces == BuildAll([BareIfc]) && n.ifces[0] == Build(BareIfc);
  }

  // ----- A table that grows -----

  /** As many modules as there are letters in the longest name. */
  function Crowd(n: nat, path: Content): (ms: seq<Module>)
    ensures |ms| == n && forall i :: 0 <= i < n ==> ms[i] == Sample(seq(i + 1, j => 'a'), path, 0)
  {
    seq(n, i requires 0 <= i < n => Sample(seq(i + 1, j => 'a'), path, 0))
  }

  lemma CrowdSamples(n: nat, path: Content)
    ensures Together(Crowd(n, path))
  {
    var ms := Crowd(n, path);
    forall i, j | 0 <= i < j < n ensures ms[i].name != ms[j].name {
      assert |ms[i].name| == i + 1 && |ms[j].name| == j + 1;
    }
    forall i | 0 <= i < n ensures ms[i].name != "" {
      assert |ms[i].name| == i + 1;
    }
  }

  /** Any document with more than MODULES_START_SIZE modules that give no limit: those in the first slots have the
      default limit, the others 0. */
  lemma GrownLimits(n: nat, path: Content) returns (boot: State, doc: Option<Node>)
    requires n > MODULES_START_SIZE
    ensures Boots(boot, doc)
    ensures var st := Reloaded(boot, doc, true);
            && Good(st) && st.loaded == n
            && forall i :: 0 <= i < n ==> st.slots[i].maxRestarts == if i < MODULES_START_SIZE then -1 else 0
  {
    boot := FirstState(map[]);
    FirstFresh(map[]);
    doc := CrowdDoc(n, path);
    var st := LoadCrowd(boot, doc, Crowd(n, path));
  }

  lemma CrowdDoc(n: nat, path: Content) returns (doc: Option<Node>)
    ensures ValidDoc(doc) && Matching(Entries(doc.value.kids), Crowd(n, path)) && DistinctPids(Entries(doc.value.kids))
  {
    CrowdSamples(n, path);
    doc := SampleDoc(Crowd(n, path));
    CrowdPids(Entries(doc.value.kids), Crowd(n, path));
  }

  lemma LoadCrowd(boot: State, doc: Option<Node>, ms: seq<Module>) returns (st: State)
    requires Fresh(boot) && ValidDoc(doc) && Matching(Entries(doc.value.kids), ms) && DistinctPids(Entries(doc.value.kids))
    requires forall i :: 0 <= i < |ms| ==> StoredModule(ms[i])
    ensures st == Reloaded(boot, doc, true) && Good(st) && st.loaded == |ms|
    ensures forall i :: 0 <= i < |ms| ==> st.slots[i].maxRestarts == if i < |boot.slots| then -1 else 0
  {
    st := Reloaded(boot, doc, true);
    assert Good(st) by { var r := Reachable(boot, doc, []); }
    LoadedBack(boot, doc, ms);
    assert forall i :: 0 <= i < |ms| ==> LimitBack(boot, i, st.slots[i]);
  }

  lemma CrowdPids(ds: seq<Entry>, ms: seq<Module>)
    requires Matching(ds, ms) && forall i :: 0 <= i < |ms| ==> ms[i].pid == 0
    ensures DistinctPids(ds)
  {
    forall i | 0 <= i < |ds| ensures PidOf(ds[i]) == 0 {
      assert Match(ds[i], ms[i]);
      Numbers.PrintedInt(0);
    }
  }

  // ----- A process recorded twice -----

  /** A first document that gives two modules the same PID: both slots record it, which breaks the invariant. */
  lemma SamePidTwice(a: Content, b: Content, path: Content, pid: int) returns (boot: State, doc: Option<Node>)
    requires a != b && pid > 0
    ensures Fresh(boot) && ValidDoc(doc) && Reloaded(boot, doc, true).loaded == 2 && !Inv(Reloaded(boot, doc, true))
  {
    boot := FirstState(map[]);
    FirstFresh(map[]);
    var ms := [Sample(a, path, pid), Sample(b, path, pid)];
    doc := SampleDoc(ms);
    LoadedBack(boot, doc, ms);
    SamePids(Entries(doc.value.kids), ms);
    InitialKeepsInv(boot, doc);
  }

  lemma SamePids(ds: seq<Entry>, ms: seq<Module>)
    requires Matching(ds, ms) && |ms| == 2 && ms[0].pid == ms[1].pid > 0
    ensures !DistinctPids(ds)
  {
    assert Match(ds[0], ms[0]) && Match(ds[1], ms[1]);
    Numbers.PrintedInt(ms[0].pid);
    assert PidOf(ds[0]) == PidOf(ds[1]) > 0;
  }
}
