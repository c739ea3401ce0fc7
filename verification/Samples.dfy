/** Inputs for the runs that show what the program does not do: documents with one
    profile, and kernels on which nothing happens. */
module Samples {
  import opened Model
  import opened Kernel
  import opened Service
  import opened Document
  import opened Convergence
  import opened Settling
  import opened Backup
  import opened RoundTrip
  import Numbers

  // ----- A kernel on which nothing happens -----

  /** Nothing exits by itself, and every fork succeeds with a PID from `base` on. */
  function Still(base: int): nat -> Env {
    (k: nat) => Env((x: nat) => {}, (x: nat) => Fork(base + x, false), (x: nat) => None, (x: nat) => true)
  }

  lemma {:induction false} Bound(ps: set<int>) returns (b: int)
    ensures b > 0 && forall p :: p in ps ==> p < b
  {
    b := 1;
    if p :| p in ps {
      var c := Bound(ps - {p});
      b := if c <= p then p + 1 else c;
      assert forall q :: q in ps ==> q == p || q in ps - {p};
    }
  }

  lemma StillCalm(st: State) returns (e: nat -> Env)
    requires Sized(st) && NoEperm(st.os)
    ensures Calm(st, e) && forall k: nat, x: nat :: e(k).dying(x) == {}
  {
    var b := Bound(st.os.Keys);
    e := Still(b);
  }

  lemma {:induction false} StageNoEperm(st: State, k: nat, e: nat -> Env)
    requires Sized(st) && Calm(st, e) && k <= LOOPS
    ensures NoEperm(Stage(st, k, e).os)
  {
    if k > 0 {
      StageNoEperm(st, k - 1, e);
      PassNoEperm(Loop(k - 1), Stage(st, k - 1, e), 0, e(k - 1));
    }
  }

  /** No process ends by itself in any of the periods. */
  ghost predicate Quiet(env: nat -> nat -> Env) {
    forall m: nat, k: nat, x: nat :: env(m)(k).dying(x) == {}
  }

  /** From every state without processes that refuse signals there are calm runs of any length. */
  lemma {:induction false} CalmRunExists(st: State, n: nat) returns (env: nat -> nat -> Env)
    requires Sized(st) && NoEperm(st.os)
    ensures CalmRun(st, n, env) && Quiet(env)
    decreases n
  {
    var e := StillCalm(st);
    env := (m: nat) => e;
    if n > 0 {
      var s := Period(st, e);
      assert NoEperm(s.os) by { StageNoEperm(st, LOOPS, e); }
      var rest := CalmRunExists(s, n - 1);
      env := (m: nat) => if m == n then e else rest(m);
      assert CalmRun(s, n - 1, env) by { SameRun(s, n - 1, rest, env); }
    }
  }

  lemma {:induction false} SameRun(st: State, n: nat, a: nat -> nat -> Env, b: nat -> nat -> Env)
    requires Sized(st) && CalmRun(st, n, a) && forall m: nat :: m <= n ==> a(m) == b(m)
    ensures CalmRun(st, n, b)
    decreases n
  {
    if n > 0 {
      SameRun(Period(st, a(n)), n - 1, a, b);
    }
  }

  // ----- Documents with one profile -----

  const Everything := Profile("all", true)

  function Group(ns: seq<Node>): Node {
    Element(ModulesTag, None, None, [Leaf(NameTag, Everything.name), Leaf(EnabledTag, Switch(Everything.enabled))] + ns)
  }

  /** "module" elements that may stand together. */
  ghost predicate Listed(ns: seq<Node>) {
    && (forall i :: 0 <= i < |ns| ==> Is(ns[i], ModuleTag) && ValidModule(ns[i].kids))
    && forall i, j :: 0 <= i < j < |ns| ==> NameOf(ns[i]) != NameOf(ns[j])
  }

  lemma GroupElements(ns: seq<Node>)
    requires forall i :: 0 <= i < |ns| ==> Is(ns[i], ModuleTag)
    ensures Elements(Group(ns).kids, ModuleTag) == ns && ProfileOf(Group(ns)) == Everything
    ensures |Elements(Group(ns).kids, NameTag)| == 1 && |Elements(Group(ns).kids, EnabledTag)| == 1
  {
    var kids := Group(ns).kids;
    ProfileElements(kids, kids[0], kids[1], ns, NameTag);
    ProfileElements(kids, kids[0], kids[1], ns, EnabledTag);
    ProfileElements(kids, kids[0], kids[1], ns, ModuleTag);
  }

  lemma GroupValid(ns: seq<Node>)
    requires Listed(ns)
    ensures RootKid(Group(ns))
  {
    var kids := Group(ns).kids;
    GroupElements(ns);
    forall n | n in kids ensures ModulesKid(n) && (Is(n, ModuleTag) ==> ValidModule(n.kids)) {
      GroupKid(kids[0], kids[1], ns, n);
    }
    ModulesIff(kids);
  }

  lemma GroupKid(a: Node, b: Node, ns: seq<Node>, n: Node)
    requires n in [a, b] + ns && ModulesKid(a) && ModulesKid(b) && !Is(a, ModuleTag) && !Is(b, ModuleTag) && Listed(ns)
    ensures ModulesKid(n) && (Is(n, ModuleTag) ==> ValidModule(n.kids))
  {
    if n != a && n != b {
      assert n in ns;
    }
  }

  lemma GroupEntries(ns: seq<Node>)
    requires forall i :: 0 <= i < |ns| ==> Is(ns[i], ModuleTag)
    ensures Entries([Group(ns)]) == TagWith(ns, 0) && ProfilesIn([Group(ns)]) == [Everything]
  {
    GroupElements(ns);
    EntriesOne(Group(ns), ns, Everything);
  }

  lemma EntriesOne(g: Node, ns: seq<Node>, p: Profile)
    requires Is(g, ModulesTag) && Elements(g.kids, ModuleTag) == ns && ProfileOf(g) == p
    ensures Entries([g]) == TagWith(ns, 0) && ProfilesIn([g]) == [p]
  {
    assert Elements([g], ModulesTag) == [g] by { SingleElements(g, ModulesTag); }
    OneProfile(g, ns);
  }

  lemma OneProfile(g: Node, ns: seq<Node>)
    requires g.Element? && Elements(g.kids, ModuleTag) == ns
    ensures EntriesOf([g]) == TagWith(ns, 0)
  {
    assert [g][..0] == [];
    assert EntriesOf([g]) == EntriesOf([g][..0]) + TagWith(ns, 0);
  }

  lemma OneValid(kids: seq<Node>, ns: seq<Node>)
    requires |kids| == 1 && RootKid(kids[0]) && Is(kids[0], ModulesTag) && Listed(ns)
    requires Entries(kids) == TagWith(ns, 0) && ProfilesIn(kids) == [Everything]
    ensures ValidDoc(Some(Element(RootTag, None, None, kids)))
  {
    ValidFrom(kids);
  }

  /** The document that lists these elements in one profile. */
  lemma DocOf(ns: seq<Node>) returns (doc: Option<Node>)
    requires Listed(ns)
    ensures ValidDoc(doc) && Entries(doc.value.kids) == TagWith(ns, 0) && ProfilesIn(doc.value.kids) == [Everything]
  {
    var kids := [Group(ns)];
    doc := Some(Element(RootTag, None, None, kids));
    assert RootKid(kids[0]) by { GroupValid(ns); }
    GroupEntries(ns);
    OneValid(kids, ns);
  }

  function Sample(name: string, path: Content, pid: int): Module {
    BlankModule.(name := name, path := Some(path), enabled := true, profile := Some(0), pid := pid)
  }

  /** Modules without interfaces, all in the one profile. */
  ghost predicate Together(ms: seq<Module>) {
    && Unique(ms)
    && forall i :: 0 <= i < |ms| ==> ms[i].profile == Some(0) && ms[i].name != "" && ms[i].path.Some? && ms[i].ifces == []
  }

  lemma SampleNodes(ms: seq<Module>)
    requires Together(ms)
    ensures Listed(ModuleList(ms))
  {
    forall i | 0 <= i < |ms| ensures ValidModule(ModuleKids(ms[i])) && NameOf(ModuleNode(ms[i])) == ms[i].name {
      ValidModuleNode(ms[i]);
      ReadModule(ms[i]);
    }
  }

  /** The document that lists them. */
  lemma SampleDoc(ms: seq<Module>) returns (doc: Option<Node>)
    requires Together(ms)
    ensures ValidDoc(doc) && Matching(Entries(doc.value.kids), ms) && ProfilesIn(doc.value.kids) == [Everything]
  {
    SampleNodes(ms);
    doc := DocOf(ModuleList(ms));
    forall i | 0 <= i < |ms| ensures Match(TagWith(ModuleList(ms), 0)[i], ms[i]) {}
  }

  /** A module element with one more child. */
  function Extended(m: Module, extra: Node): Node {
    Element(ModuleTag, None, Some(Numbers.PrintInt(m.pid)), ModuleKids(m) + [extra])
  }

  lemma ExtendedElements(m: Module, extra: Node, t: Tag)
    requires m.ifces == [] && extra.Element? && (extra.tag == RestartsTag || extra.tag == TrapTag)
    ensures Elements(Extended(m, extra).kids, t) == if t == extra.tag then [extra] else Part(m, t)
  {
    ElementsAppend(ModuleKids(m), [extra], t);
    SingleElements(extra, t);
    KidsRead(m);
    assert Elements(ModuleKids(m), t) == Part(m, t);
  }

  lemma ExtendedCounts(m: Module, extra: Node)
    requires m.path.Some? && m.ifces == [] && extra.Element? && (extra.tag == RestartsTag || extra.tag == TrapTag)
    ensures var kids := Extended(m, extra).kids;
            && |Elements(kids, NameTag)| == 1 && |Elements(kids, PathTag)| == 1 && |Elements(kids, EnabledTag)| == 1
            && |Elements(kids, TrapTag)| <= 1 && |Elements(kids, RestartsTag)| <= 1 && |Elements(kids, ParamsTag)| <= 1
  {
    ExtendedElements(m, extra, NameTag);
    ExtendedElements(m, extra, PathTag);
    ExtendedElements(m, extra, EnabledTag);
    ExtendedElements(m, extra, TrapTag);
    ExtendedElements(m, extra, RestartsTag);
    ExtendedElements(m, extra, ParamsTag);
    PartCounts(m);
  }

  lemma ExtendedValid(m: Module, extra: Node)
    requires m.name != "" && m.path.Some? && m.ifces == [] && extra.Element? && ModuleKid(extra)
    requires extra.tag == RestartsTag || (extra.tag == TrapTag && ValidTrap(extra.kids))
    ensures ValidModule(Extended(m, extra).kids)
  {
    var kids := Extended(m, extra).kids;
    ExtendedCounts(m, extra);
    forall n | n in kids ensures ModuleKid(n) && (Is(n, TrapTag) ==> ValidTrap(n.kids)) {
      if n in ModuleKids(m) {
        KidFine(m, n);
        NoTraps(m, n);
      }
    }
  }

  lemma NoTraps(m: Module, n: Node)
    requires m.ifces == [] && n in ModuleKids(m)
    ensures !Is(n, TrapTag)
  {
    KidsRead(m);
    assert Elements(ModuleKids(m), TrapTag) == Part(m, TrapTag);
    ElementsAre(ModuleKids(m), TrapTag);
  }
}
