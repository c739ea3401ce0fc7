/** A configuration as the tree libxml2 hands over, and what
    validate_configuration accepts. */
module Document {
  import opened Model

  datatype Tag =
    | RootTag | SupervisorTag | ModulesTag | ModuleTag | NameTag | EnabledTag | PathTag | ParamsTag | RestartsTag
    | TrapTag | InterfaceTag | NoteTag | TypeTag | DirectionTag | OtherTag(name: string)

  /** `Filler` is a text or comment node, `Foreign` any other node that is no element. `text` is
      what xmlNodeListGetString gives for the children (None for NULL), `pid` the property module_pid. */
  datatype Node =
    | Filler
    | Foreign
    | Element(tag: Tag, text: Option<Content>, pid: Option<string>, kids: seq<Node>)

  predicate Is(n: Node, tag: Tag) {
    n.Element? && n.tag == tag
  }

  /** The children with a given tag, in order. */
  function Elements(kids: seq<Node>, tag: Tag): (r: seq<Node>)
    ensures |r| <= |kids|
    ensures forall i :: 0 <= i < |r| ==> Is(r[i], tag)
  {
    if kids == [] then []
    else Elements(kids[..|kids| - 1], tag) + if Is(kids[|kids| - 1], tag) then [kids[|kids| - 1]] else []
  }

  lemma {:induction false} ElementsAppend(a: seq<Node>, b: seq<Node>, tag: Tag)
    ensures Elements(a + b, tag) == Elements(a, tag) + Elements(b, tag)
  {
    if b == [] {
      assert a + b == a;
    } else {
      var c := b[..|b| - 1];
      ElementsAppend(a, c, tag);
      assert (a + b)[..|a + b| - 1] == a + c;
    }
  }

  lemma {:induction false} ElementsAre(kids: seq<Node>, tag: Tag)
    ensures forall n :: n in Elements(kids, tag) <==> n in kids && Is(n, tag)
  {
    if kids != [] {
      ElementsAre(kids[..|kids| - 1], tag);
      assert kids == kids[..|kids| - 1] + [kids[|kids| - 1]];
    }
  }

  lemma SingleElements(n: Node, tag: Tag)
    ensures Elements([n], tag) == if Is(n, tag) then [n] else []
  {
    assert [n][..0] == [];
  }

  predicate Given(kids: seq<Node>, tag: Tag) {
    Elements(kids, tag) != []
  }

  /** The text of the last child with a given tag; None also for an empty element. */
  function Text(kids: seq<Node>, tag: Tag): Option<Content> {
    var es := Elements(kids, tag);
    if es == [] then None else es[|es| - 1].text
  }

  lemma OnlyText(kids: seq<Node>, n: Node)
    requires n in kids && n.Element? && |Elements(kids, n.tag)| <= 1
    ensures Text(kids, n.tag) == n.text
  {
    ElementsAre(kids, n.tag);
    assert n in Elements(kids, n.tag);
  }

  lemma TextNext(attrs: seq<Node>, a: nat, tag: Tag)
    requires a < |attrs|
    ensures Text(attrs[..a + 1], tag) == if Is(attrs[a], tag) then attrs[a].text else Text(attrs[..a], tag)
  {
    assert attrs[..a + 1][..a] == attrs[..a];
  }

  // ----- Numbers, as scanf("%d") and atoi read them -----

  predicate IsSpace(c: char) {
    c == ' ' || '\t' <= c <= '\r'
  }

  predicate IsDigit(c: char) {
    '0' <= c <= '9'
  }

  function SkipSpaces(s: string): string {
    if s != [] && IsSpace(s[0]) then SkipSpaces(s[1..]) else s
  }

  function DigitsFrom(s: string, acc: int): int {
    if s != [] && IsDigit(s[0]) then DigitsFrom(s[1..], 10 * acc + (s[0] - '0') as int) else acc
  }

  function ScanInt(s: string): Option<int> {
    var t := SkipSpaces(s);
    var signed := t != [] && (t[0] == '-' || t[0] == '+');
    var d := if signed then t[1..] else t;
    if d == [] || !IsDigit(d[0]) then None
    else if signed && t[0] == '-' then Some(-DigitsFrom(d, 0))
    else Some(DigitsFrom(d, 0))
  }

  function Atoi(s: string): int {
    match ScanInt(s)
    case Some(n) => n
    case None => 0
  }

  // ----- What is valid -----

  predicate ValidRestarts(text: Option<Content>) {
    text.Some? && match ScanInt(text.value)
                  case Some(n) => 0 <= n <= MAX_RESTARTS
                  case None => false
  }

  predicate ValidSwitch(text: Option<Content>) {
    text == Some("true") || text == Some("false")
  }

  predicate ValidType(text: Option<Content>) {
    text == Some("TCP") || text == Some("UNIXSOCKET") || text == Some("FILE") || text == Some("BLACKHOLE") || text == Some("TLS")
  }

  predicate ValidDirection(text: Option<Content>) {
    text == Some("IN") || text == Some("OUT")
  }

  /** A child that may stand in an "interface" element. */
  predicate InterfaceKid(n: Node) {
    match n
    case Filler => true
    case Foreign => false
    case Element(tag, text, _, _) =>
      match tag
      case NoteTag => text.Some?
      case TypeTag => ValidType(text)
      case DirectionTag => ValidDirection(text)
      case ParamsTag => true
      case _ => false
  }

  ghost predicate ValidInterface(kids: seq<Node>) {
    && kids != []
    && (forall n :: n in kids ==> InterfaceKid(n))
    && |Elements(kids, NoteTag)| <= 1 && |Elements(kids, TypeTag)| <= 1
    && |Elements(kids, DirectionTag)| <= 1 && |Elements(kids, ParamsTag)| <= 1
  }

  /** A child that may stand in a "trapinterfaces" element. */
  ghost predicate TrapKid(n: Node) {
    n.Filler? || (Is(n, InterfaceTag) && ValidInterface(n.kids))
  }

  ghost predicate ValidTrap(kids: seq<Node>) {
    forall n :: n in kids ==> TrapKid(n)
  }

  /** A child that may stand in a "module" element. */
  predicate ModuleKid(n: Node) {
    match n
    case Filler => true
    case Foreign => false
    case Element(tag, text, _, _) =>
      match tag
      case NameTag => text.Some?
      case EnabledTag => ValidSwitch(text)
      case PathTag => text.Some?
      case TrapTag => true
      case RestartsTag => ValidRestarts(text)
      case ParamsTag => true
      case _ => false
  }

  ghost predicate ValidModule(kids: seq<Node>) {
    && kids != []
    && (forall n :: n in kids ==> ModuleKid(n))
    && |Elements(kids, NameTag)| == 1 && |Elements(kids, PathTag)| == 1 && |Elements(kids, EnabledTag)| == 1
    && |Elements(kids, TrapTag)| <= 1 && |Elements(kids, RestartsTag)| <= 1 && |Elements(kids, ParamsTag)| <= 1
    && (forall n :: n in kids && Is(n, TrapTag) ==> ValidTrap(n.kids))
  }

  /** A child that may stand in a "modules" element, which describes a profile. */
  predicate ModulesKid(n: Node) {
    match n
    case Filler => true
    case Foreign => false
    case Element(tag, text, _, _) =>
      match tag
      case NameTag => text.Some?
      case EnabledTag => ValidSwitch(text)
      case ModuleTag => true
      case _ => false
  }

  ghost predicate ValidModules(kids: seq<Node>) {
    && kids != []
    && (forall n :: n in kids ==> ModulesKid(n))
    && |Elements(kids, NameTag)| == 1 && |Elements(kids, EnabledTag)| == 1
    && (forall n :: n in kids && Is(n, ModuleTag) ==> ValidModule(n.kids))
  }

  /** A child that may stand in the "supervisor" element. */
  predicate SupervisorKid(n: Node) {
    match n
    case Filler => true
    case Foreign => false
    case Element(tag, text, _, _) => tag == RestartsTag && ValidRestarts(text)
  }

  ghost predicate ValidSupervisor(kids: seq<Node>) {
    && kids != []
    && (forall n :: n in kids ==> SupervisorKid(n))
    && |Elements(kids, RestartsTag)| <= 1
  }

  ghost predicate RootKid(n: Node) {
    || n.Filler?
    || (Is(n, SupervisorTag) && ValidSupervisor(n.kids))
    || (Is(n, ModulesTag) && ValidModules(n.kids))
  }

  // ----- The modules and profiles of a document -----

  /** A "module" element and the index of the profile it stands in. */
  datatype Entry = Entry(node: Node, profile: nat)

  function NameOf(n: Node): string {
    if n.Element? && Text(n.kids, NameTag).Some? then Text(n.kids, NameTag).value else ""
  }

  function TagWith(ns: seq<Node>, p: nat): (r: seq<Entry>)
    ensures |r| == |ns| && forall i :: 0 <= i < |r| ==> r[i] == Entry(ns[i], p)
  {
    seq(|ns|, i requires 0 <= i < |ns| => Entry(ns[i], p))
  }

  /** The modules of the profiles in order; p profiles went before. */
  function EntriesOf(profiles: seq<Node>): seq<Entry> {
    if profiles == [] then []
    else
      var n := |profiles| - 1;
      EntriesOf(profiles[..n])
      + if profiles[n].Element? then TagWith(Elements(profiles[n].kids, ModuleTag), n) else []
  }

  function Entries(kids: seq<Node>): seq<Entry> {
    EntriesOf(Elements(kids, ModulesTag))
  }

  function ProfileOf(n: Node): Profile {
    if n.Element? then Profile(NameOf(n), Text(n.kids, EnabledTag) == Some("true")) else Profile("", false)
  }

  function ProfilesIn(kids: seq<Node>): (r: seq<Profile>)
    ensures |r| == |Elements(kids, ModulesTag)|
  {
    var ms := Elements(kids, ModulesTag);
    seq(|ms|, i requires 0 <= i < |ms| => ProfileOf(ms[i]))
  }

  ghost predicate DistinctNames(ds: seq<Entry>) {
    forall i, j :: 0 <= i < j < |ds| ==> NameOf(ds[i].node) != NameOf(ds[j].node)
  }

  ghost predicate DistinctProfiles(ps: seq<Profile>) {
    forall i, j :: 0 <= i < j < |ps| ==> ps[i].name != ps[j].name
  }

  /** What validate_configuration accepts; the root may be missing. */
  ghost predicate ValidDoc(doc: Option<Node>) {
    && doc.Some? && Is(doc.value, RootTag) && doc.value.kids != []
    && (forall n :: n in doc.value.kids ==> RootKid(n))
    && |Elements(doc.value.kids, SupervisorTag)| <= 1
    && DistinctProfiles(ProfilesIn(doc.value.kids))
    && DistinctNames(Entries(doc.value.kids))
  }

  lemma {:induction false} EntriesValid(profiles: seq<Node>)
    requires forall n :: n in profiles ==> Is(n, ModulesTag) && ValidModules(n.kids)
    ensures forall i :: 0 <= i < |EntriesOf(profiles)| ==>
              && Is(EntriesOf(profiles)[i].node, ModuleTag) && ValidModule(EntriesOf(profiles)[i].node.kids)
              && EntriesOf(profiles)[i].profile < |profiles|
  {
    if profiles != [] {
      var n := |profiles| - 1;
      EntriesValid(profiles[..n]);
      assert profiles[n] in profiles;
      ElementsAre(profiles[n].kids, ModuleTag);
    }
  }
}
