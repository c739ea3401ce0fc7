/** Writing the backup and loading it again. */
module RoundTrip {
  import opened Model
  import opened Document
  import opened Numbers
  import opened Reload
  import opened Reconcile
  import opened ReloadEffect
  import opened ReloadTheorem
  import opened ReloadKeeps
  import opened Backup

  // ----- Which modules are written, and where -----

  predicate InProfile(m: Module, profiles: seq<Profile>, name: string) {
    m.profile.Some? && m.profile.value < |profiles| && profiles[m.profile.value].name == name
  }

  lemma {:induction false} MembersAre(ms: seq<Module>, profiles: seq<Profile>, name: string)
    ensures forall m :: m in Members(ms, profiles, name) <==> m in ms && InProfile(m, profiles, name)
  {
    if ms != [] {
      MembersAre(ms[..|ms| - 1], profiles, name);
      assert ms == ms[..|ms| - 1] + [ms[|ms| - 1]];
    }
  }

  ghost predicate Unique(ms: seq<Module>) {
    forall i, j :: 0 <= i < j < |ms| ==> ms[i].name != ms[j].name
  }

  lemma {:induction false} MembersUnique(ms: seq<Module>, profiles: seq<Profile>, name: string)
    requires Unique(ms)
    ensures Unique(Members(ms, profiles, name))
  {
    if ms != [] {
      var ns := ms[..|ms| - 1];
      MembersUnique(ns, profiles, name);
      MembersAre(ns, profiles, name);
      forall i | 0 <= i < |Members(ns, profiles, name)| ensures Members(ns, profiles, name)[i].name != ms[|ms| - 1].name {
        var m := Members(ns, profiles, name)[i];
        assert m in Members(ns, profiles, name) && m in ns;
        var j :| 0 <= j < |ns| && ns[j] == m;
        assert ms[j] == m;
      }
    }
  }

  function MembersAt(st: State, k: nat): seq<Module>
    requires Sized(st) && k < |st.profiles|
  {
    Members(st.slots[..st.loaded], st.profiles, st.profiles[k].name)
  }

  /** The modules in the order of the backup: profile by profile, in the order of the table. */
  function Saved(st: State, k: nat): seq<Module>
    requires Sized(st) && k <= |st.profiles|
  {
    if k == 0 then [] else Saved(st, k - 1) + MembersAt(st, k - 1)
  }

  /** Names identify profiles and loaded modules. */
  ghost predicate Named(st: State) {
    Sized(st) && Unique(st.slots[..st.loaded]) && DistinctProfiles(st.profiles)
  }

  /** A module is written exactly if it has a profile among the first k. */
  lemma {:induction false} SavedAre(st: State, k: nat)
    requires Named(st) && k <= |st.profiles|
    ensures forall m :: m in Saved(st, k) <==> m in st.slots[..st.loaded] && m.profile.Some? && m.profile.value < k
  {
    if k > 0 {
      SavedAre(st, k - 1);
      MembersAre(st.slots[..st.loaded], st.profiles, st.profiles[k - 1].name);
    }
  }

  lemma {:induction false} SavedUnique(st: State, k: nat)
    requires Named(st) && k <= |st.profiles|
    ensures Unique(Saved(st, k))
  {
    if k > 0 {
      SavedUnique(st, k - 1);
      SavedAre(st, k - 1);
      var a, b := Saved(st, k - 1), MembersAt(st, k - 1);
      MembersUnique(st.slots[..st.loaded], st.profiles, st.profiles[k - 1].name);
      MembersAre(st.slots[..st.loaded], st.profiles, st.profiles[k - 1].name);
      forall i, j | 0 <= i < |a| && 0 <= j < |b| ensures a[i].name != b[j].name {
        var x, y := a[i], b[j];
        assert x in a && y in b;
        SameName(st.slots[..st.loaded], x, y);
      }
    }
  }

  lemma SameName(ms: seq<Module>, x: Module, y: Module)
    requires Unique(ms) && x in ms && y in ms
    ensures x.name == y.name ==> x == y
  {}

  // ----- The document that is written -----

  function Switch(on: bool): string {
    if on then "true" else "false"
  }

  lemma ThreeElements(a: Node, b: Node, ns: seq<Node>, t: Tag)
    ensures Elements([a, b] + ns, t) == (if Is(a, t) then [a] else []) + (if Is(b, t) then [b] else []) + Elements(ns, t)
  {
    ElementsAppend([a, b], ns, t);
    ElementsAppend([a], [b], t);
    assert [a] + [b] == [a, b];
    SingleElements(a, t);
    SingleElements(b, t);
  }

  lemma ReadProfile(p: Profile, ms: seq<Module>)
    ensures var kids := ProfileNode(p, ms).kids;
            && Elements(kids, ModuleTag) == ModuleList(ms)
            && Elements(kids, NameTag) == [Leaf(NameTag, p.name)]
            && Elements(kids, EnabledTag) == [Leaf(EnabledTag, Switch(p.enabled))]
  {
    var kids := ProfileNode(p, ms).kids;
    var a, b := Leaf(NameTag, p.name), Leaf(EnabledTag, Switch(p.enabled));
    ProfileElements(kids, a, b, ModuleList(ms), NameTag);
    ProfileElements(kids, a, b, ModuleList(ms), EnabledTag);
    ProfileElements(kids, a, b, ModuleList(ms), ModuleTag);
  }

  lemma ProfileElements(kids: seq<Node>, a: Node, b: Node, ns: seq<Node>, t: Tag)
    requires kids == [a, b] + ns && Is(a, NameTag) && Is(b, EnabledTag) && forall i :: 0 <= i < |ns| ==> Is(ns[i], ModuleTag)
    requires t == NameTag || t == EnabledTag || t == ModuleTag
    ensures Elements(kids, t) == if t == NameTag then [a] else if t == EnabledTag then [b] else ns
  {
    ThreeElements(a, b, ns, t);
    if t == ModuleTag {
      AllElements(ns, t);
    } else {
      NoElements(ns, t);
    }
  }

  lemma {:induction false} NoElements(ns: seq<Node>, t: Tag)
    requires forall i :: 0 <= i < |ns| ==> !Is(ns[i], t)
    ensures Elements(ns, t) == []
  {
    if ns != [] {
      NoElements(ns[..|ns| - 1], t);
    }
  }

  /** What loading needs of the table; every table filled from valid documents has it. */
  ghost predicate Storable(st: State) {
    && Named(st)
    && (forall i :: 0 <= i < st.loaded ==> StoredModule(st.slots[i]))
    && (forall k :: 0 <= k < |st.profiles| ==> st.profiles[k].name != "")
  }

  ghost predicate AllAttributed(ms: seq<Module>) {
    forall i :: 0 <= i < |ms| ==> Attributed(ms[i])
  }

  lemma ProfileKidsFine(p: Profile, ms: seq<Module>)
    requires p.name != ""
    ensures forall n :: n in ProfileNode(p, ms).kids ==> ModulesKid(n)
  {
    var kids := ProfileNode(p, ms).kids;
    forall n | n in kids ensures ModulesKid(n) {
      var i :| 0 <= i < |kids| && kids[i] == n;
      assert i >= 2 ==> n == ModuleList(ms)[i - 2];
    }
  }

  lemma ModulesValid(p: Profile, ms: seq<Module>)
    requires forall i :: 0 <= i < |ms| ==> StoredModule(ms[i])
    ensures (forall n :: n in ProfileNode(p, ms).kids && Is(n, ModuleTag) ==> ValidModule(n.kids)) <==> AllAttributed(ms)
  {
    var kids := ProfileNode(p, ms).kids;
    assert forall n :: n in kids && Is(n, ModuleTag) <==> n in ModuleList(ms) by {
      ReadProfile(p, ms);
      ElementsAre(kids, ModuleTag);
    }
    forall i | 0 <= i < |ms| ensures ModuleList(ms)[i].Element? && (ValidModule(ModuleList(ms)[i].kids) <==> Attributed(ms[i])) {
      ValidModuleNode(ms[i]);
    }
    if forall n :: n in kids && Is(n, ModuleTag) ==> ValidModule(n.kids) {
      forall i | 0 <= i < |ms| ensures Attributed(ms[i]) {
        assert ModuleList(ms)[i] in ModuleList(ms);
      }
    }
  }

  lemma ValidProfileNode(p: Profile, ms: seq<Module>)
    requires p.name != "" && forall i :: 0 <= i < |ms| ==> StoredModule(ms[i])
    ensures RootKid(ProfileNode(p, ms)) <==> AllAttributed(ms)
  {
    var kids := ProfileNode(p, ms).kids;
    assert |Elements(kids, NameTag)| == 1 && |Elements(kids, EnabledTag)| == 1 by { ReadProfile(p, ms); }
    assert forall n :: n in kids ==> ModulesKid(n) by { ProfileKidsFine(p, ms); }
    ModulesValid(p, ms);
    ModulesIff(kids);
  }

  lemma ModulesIff(kids: seq<Node>)
    requires kids != [] && (forall n :: n in kids ==> ModulesKid(n))
    requires |Elements(kids, NameTag)| == 1 && |Elements(kids, EnabledTag)| == 1
    ensures RootKid(Element(ModulesTag, None, None, kids)) <==> forall n :: n in kids && Is(n, ModuleTag) ==> ValidModule(n.kids)
  {}

  /** The entries of the document are the saved modules, each with the index of its profile. */
  ghost predicate Matching(ds: seq<Entry>, ms: seq<Module>) {
    && |ds| == |ms|
    && forall i :: 0 <= i < |ds| ==> Match(ds[i], ms[i])
  }

  predicate Match(d: Entry, m: Module) {
    d.node == ModuleNode(m) && m.profile == Some(d.profile)
  }

  lemma MembersMatch(st: State, k: nat)
    requires Storable(st) && k < |st.profiles|
    ensures Matching(TagWith(ModuleList(MembersAt(st, k)), k), MembersAt(st, k))
  {
    var ms := MembersAt(st, k);
    MembersAre(st.slots[..st.loaded], st.profiles, st.profiles[k].name);
    var ds := TagWith(ModuleList(ms), k);
    forall i | 0 <= i < |ms| ensures Match(ds[i], ms[i]) {
      assert ms[i] in ms && InProfile(ms[i], st.profiles, st.profiles[k].name);
    }
  }

  lemma EntriesSnoc(ps: seq<Node>, p: Profile, ms: seq<Module>)
    ensures EntriesOf(ps + [ProfileNode(p, ms)]) == EntriesOf(ps) + TagWith(ModuleList(ms), |ps|)
  {
    var n := ProfileNode(p, ms);
    assert (ps + [n])[..|ps|] == ps;
    ReadProfile(p, ms);
  }

  lemma MatchingAppend(a: seq<Entry>, b: seq<Entry>, x: seq<Module>, y: seq<Module>)
    requires Matching(a, x) && Matching(b, y)
    ensures Matching(a + b, x + y)
  {
    forall i | 0 <= i < |a + b| ensures Match((a + b)[i], (x + y)[i]) {
      if i < |a| {
        assert Match(a[i], x[i]);
      } else {
        assert Match(b[i - |a|], y[i - |a|]);
      }
    }
  }

  lemma SavedStep(st: State, k: nat, ps: seq<Node>)
    requires Storable(st) && k < |st.profiles| && |ps| == k && Matching(EntriesOf(ps), Saved(st, k))
    ensures Matching(EntriesOf(ps + [ProfileNode(st.profiles[k], MembersAt(st, k))]), Saved(st, k + 1))
  {
    EntriesSnoc(ps, st.profiles[k], MembersAt(st, k));
    MembersMatch(st, k);
    MatchingAppend(EntriesOf(ps), TagWith(ModuleList(MembersAt(st, k)), k), Saved(st, k), MembersAt(st, k));
  }

  lemma NodesStep(st: State, k: nat)
    requires Sized(st) && k < |st.profiles|
    ensures NodesUpto(st, k + 1) == NodesUpto(st, k) + [ProfileNode(st.profiles[k], MembersAt(st, k))]
  {}

  lemma {:induction false} EntriesSaved(st: State, k: nat) returns (ps: seq<Node>)
    requires Storable(st) && k <= |st.profiles|
    ensures ps == NodesUpto(st, k)
    ensures Matching(EntriesOf(ps), Saved(st, k))
  {
    ps := [];
    if k > 0 {
      var qs := EntriesSaved(st, k - 1);
      SavedStep(st, k - 1, qs);
      NodesStep(st, k - 1);
      ps := qs + [ProfileNode(st.profiles[k - 1], MembersAt(st, k - 1))];
    }
  }

  lemma ProfileBack(p: Profile, ms: seq<Module>)
    requires p.name != ""
    ensures ProfileOf(ProfileNode(p, ms)) == p
  {
    ReadProfile(p, ms);
  }

  lemma EntriesBack(st: State)
    requires Storable(st)
    ensures Matching(Entries(ProfileNodes(st)), Saved(st, |st.profiles|))
  {
    var ps := EntriesSaved(st, |st.profiles|);
    assert Entries(ps) == EntriesOf(ps) by {
      assert forall i :: 0 <= i < |ps| ==> Is(ps[i], ModulesTag);
      AllElements(ps, ModulesTag);
    }
  }

  lemma ProfilesBack(st: State)
    requires Storable(st)
    ensures Elements(ProfileNodes(st), ModulesTag) == ProfileNodes(st) && ProfilesIn(ProfileNodes(st)) == st.profiles
  {
    var kids := ProfileNodes(st);
    AllElements(kids, ModulesTag);
    forall i | 0 <= i < |kids| ensures ProfilesIn(kids)[i] == st.profiles[i] {
      assert kids[i] == ProfileNode(st.profiles[i], MembersAt(st, i));
      ProfileBack(st.profiles[i], MembersAt(st, i));
    }
  }

  lemma {:induction false} SavedAttributed(st: State, k: nat)
    requires Storable(st) && k <= |st.profiles|
    ensures AllAttributed(Saved(st, k)) <==> forall i :: 0 <= i < k ==> AllAttributed(MembersAt(st, i))
  {
    if k > 0 {
      SavedAttributed(st, k - 1);
      AttributedAppend(Saved(st, k - 1), MembersAt(st, k - 1));
    }
  }

  lemma AttributedAppend(a: seq<Module>, b: seq<Module>)
    ensures AllAttributed(a + b) <==> AllAttributed(a) && AllAttributed(b)
  {
    if AllAttributed(a + b) {
      assert forall i :: 0 <= i < |a| ==> a[i] == (a + b)[i];
      assert forall i :: 0 <= i < |b| ==> b[i] == (a + b)[|a| + i];
    }
  }

  lemma NodesValid(st: State)
    requires Storable(st)
    ensures (forall n :: n in ProfileNodes(st) ==> RootKid(n)) <==> AllAttributed(Saved(st, |st.profiles|))
  {
    var ps := ProfileNodes(st);
    SavedAttributed(st, |st.profiles|);
    forall k | 0 <= k < |ps| ensures RootKid(ps[k]) <==> AllAttributed(MembersAt(st, k)) {
      MembersAre(st.slots[..st.loaded], st.profiles, st.profiles[k].name);
      assert forall i :: 0 <= i < |MembersAt(st, k)| ==> MembersAt(st, k)[i] in st.slots[..st.loaded];
      ValidProfileNode(st.profiles[k], MembersAt(st, k));
    }
    assert forall k :: 0 <= k < |ps| ==> ps[k] in ps;
  }

  // ----- The round trip -----

  lemma MatchNames(ds: seq<Entry>, ms: seq<Module>)
    requires Matching(ds, ms) && Unique(ms) && forall i :: 0 <= i < |ms| ==> StoredModule(ms[i])
    ensures DistinctNames(ds)
  {
    forall i | 0 <= i < |ds| ensures NameOf(ds[i].node) == ms[i].name {
      assert Match(ds[i], ms[i]);
      ReadModule(ms[i]);
    }
  }

  lemma SavedStored(st: State)
    requires Storable(st)
    ensures forall i :: 0 <= i < |Saved(st, |st.profiles|)| ==> StoredModule(Saved(st, |st.profiles|)[i])
  {
    var ms := Saved(st, |st.profiles|);
    SavedAre(st, |st.profiles|);
    forall i | 0 <= i < |ms| ensures StoredModule(ms[i]) {
      assert ms[i] in ms && ms[i] in st.slots[..st.loaded];
    }
  }

  /** The backup can be loaded exactly if there is a profile and every interface of a module that is
      written has some attribute. */
  lemma WrittenValid(st: State)
    requires Storable(st)
    ensures ValidDoc(Some(Written(st))) <==> st.profiles != [] && AllAttributed(Saved(st, |st.profiles|))
  {
    var kids := ProfileNodes(st);
    assert DistinctNames(Entries(kids)) by {
      EntriesBack(st);
      SavedUnique(st, |st.profiles|);
      SavedStored(st);
      MatchNames(Entries(kids), Saved(st, |st.profiles|));
    }
    assert DistinctProfiles(ProfilesIn(kids)) by { ProfilesBack(st); }
    NodesValid(st);
    ValidFrom(kids);
  }

  lemma ValidFrom(kids: seq<Node>)
    requires DistinctNames(Entries(kids)) && DistinctProfiles(ProfilesIn(kids))
    requires forall i :: 0 <= i < |kids| ==> Is(kids[i], ModulesTag)
    ensures ValidDoc(Some(Element(RootTag, None, None, kids))) <==> kids != [] && forall n :: n in kids ==> RootKid(n)
  {
    NoElements(kids, SupervisorTag);
  }

  /** What is saved of a module. */
  predicate SameSaved(m: Module, n: Module) {
    && n.name == m.name && n.path == m.path && n.params == m.params && n.enabled == m.enabled
    && n.ifces == m.ifces && n.pid == m.pid && n.profile == m.profile
  }

  /** The limit that comes back: the default, or 0 in a slot that the load adds to the table. */
  predicate LimitBack(boot: State, i: nat, n: Module) {
    n.maxRestarts == if i < |boot.slots| then -1 else 0
  }

  lemma ModuleBack(m: Module, d: Entry, base: Module, n: Module)
    requires StoredModule(m) && Match(d, m) && NewEffect(base, d, true, n)
    ensures SameSaved(m, n) && !Given(ModuleKids(m), RestartsTag)
  {
    ReadModule(m);
    ReadIfces(m);
    PrintedInt(m.pid);
    assert "true" != "false";
  }

  /** Writing the table, validating the document and loading it at the next start gives the same profiles
      and, profile by profile in the order of the table, the same modules with their PIDs, but the default
      limit; a document that is not valid leaves the new table empty. */
  lemma BackupRoundTrip(st: State, boot: State)
    requires Storable(st) && Fresh(boot)
    ensures var r := Reloaded(boot, Some(Written(st)), true);
            var ms := Saved(st, |st.profiles|);
            if st.profiles != [] && AllAttributed(ms)
            then (&& r.profiles == st.profiles && r.loaded == |ms| <= |r.slots|
                  && forall i :: 0 <= i < |ms| ==> SameSaved(ms[i], r.slots[i]) && LimitBack(boot, i, r.slots[i]))
            else r == boot
  {
    WrittenValid(st);
    if ValidDoc(Some(Written(st))) {
      var doc := Some(Written(st));
      var ds := Entries(doc.value.kids);
      ProfilesBack(st);
      EntriesBack(st);
      SavedStored(st);
      LoadedBack(boot, doc, Saved(st, |st.profiles|));
    }
  }

  /** The limit of a module survives exactly if it is the one every module gets. */
  lemma LimitKept(st: State, boot: State, i: nat)
    requires Storable(st) && Fresh(boot) && st.profiles != [] && AllAttributed(Saved(st, |st.profiles|))
    requires i < |Saved(st, |st.profiles|)|
    ensures var r := Reloaded(boot, Some(Written(st)), true);
            && i < r.loaded <= |r.slots|
            && (r.slots[i].maxRestarts == Saved(st, |st.profiles|)[i].maxRestarts
                <==> Saved(st, |st.profiles|)[i].maxRestarts == if i < |boot.slots| then -1 else 0)
  {
    BackupRoundTrip(st, boot);
  }

  lemma LoadedBack(boot: State, doc: Option<Node>, ms: seq<Module>)
    requires Fresh(boot) && ValidDoc(doc) && Matching(Entries(doc.value.kids), ms)
    requires forall i :: 0 <= i < |ms| ==> StoredModule(ms[i])
    ensures var r := Reloaded(boot, doc, true);
            r.loaded == |ms| <= |r.slots| && forall i :: 0 <= i < |ms| ==> SameSaved(ms[i], r.slots[i]) && LimitBack(boot, i, r.slots[i])
  {
    var ds := Entries(doc.value.kids);
    AllNew(RowsOf(boot), ds);
    ReloadStarts(boot, doc);
    EntriesLoaded(boot, ds, ms, Reloaded(boot, doc, true));
  }

  lemma EntriesLoaded(boot: State, ds: seq<Entry>, ms: seq<Module>, r: State)
    requires boot.loaded == 0 && Boot(boot, ds, r) && NewEntries(boot, ds) == ds && Matching(ds, ms)
    requires forall i :: 0 <= i < |ms| ==> StoredModule(ms[i])
    ensures r.loaded == |ms| <= |r.slots| && forall i :: 0 <= i < |ms| ==> SameSaved(ms[i], r.slots[i]) && LimitBack(boot, i, r.slots[i])
  {
    forall i | 0 <= i < |ms| ensures SameSaved(ms[i], r.slots[i]) && LimitBack(boot, i, r.slots[i]) {
      assert Match(ds[i], ms[i]);
      EntryLoaded(boot, ds, r, i, ms[i]);
    }
  }

  lemma EntryLoaded(boot: State, ds: seq<Entry>, r: State, i: nat, m: Module)
    requires boot.loaded == 0 && AddedRows(boot, ds, true, r) && NewEntries(boot, ds) == ds && i < |ds|
    requires Match(ds[i], m) && StoredModule(m)
    ensures SameSaved(m, r.slots[i]) && LimitBack(boot, i, r.slots[i])
  {
    assert NewEntries(boot, ds)[i - boot.loaded] == ds[i];
    assert NewAt(boot, ds[i], ds, true, i, r.slots[i]);
    ModuleBack(m, ds[i], Base(RowsOf(boot).slots, i), r.slots[i]);
  }

  /** Every module with a profile is saved exactly once. */
  lemma SavedOnce(st: State, m: Module)
    requires Storable(st) && m in st.slots[..st.loaded] && m.profile.Some? && m.profile.value < |st.profiles|
    ensures multiset(Saved(st, |st.profiles|))[m] == 1
  {
    var ms := Saved(st, |st.profiles|);
    SavedAre(st, |st.profiles|);
    SavedUnique(st, |st.profiles|);
    UniqueOnce(ms, m);
  }

  lemma {:induction false} UniqueOnce(ms: seq<Module>, m: Module)
    requires Unique(ms)
    ensures multiset(ms)[m] == if m in ms then 1 else 0
  {
    if ms != [] {
      var ns := ms[..|ms| - 1];
      assert ms == ns + [ms[|ms| - 1]];
      UniqueOnce(ns, m);
      assert forall j :: 0 <= j < |ns| ==> ns[j] == ms[j];
    }
  }
}
