/** The interfaces of one module: what a reload makes of a "trapinterfaces"
    element, as a specification and as the loop that jumps back to the first child
    when it meets a difference. */
module Interfaces {
  import opened Model
  import opened Document

  // ----- Codes -----

  function DirectionCode(d: Option<Content>): int {
    match d
    case None => -1
    case Some(s) => if "IN" <= s then 1 else if "OUT" <= s then 2 else if "SERVICE" <= s then 3 else -1
  }

  function KindCode(k: Option<Content>): int {
    match k
    case None => -1
    case Some(s) =>
      if "TCP" <= s then 1 else if "UNIXSOCKET" <= s then 2 else if "FILE" <= s then 4
      else if "SERVICE" <= s then 3 else if "BLACKHOLE" <= s then 5 else if "TLS" <= s then 6 else -1
  }

  function Recode(f: Interface): Interface {
    f.(directionCode := DirectionCode(f.direction), kindCode := KindCode(f.kind))
  }

  predicate Coded(fs: seq<Interface>) {
    forall i :: 0 <= i < |fs| ==> fs[i] == Recode(fs[i])
  }

  /** What every interface read from a valid document satisfies. */
  predicate Sound(f: Interface) {
    (f.kind.None? || ValidType(f.kind)) && (f.direction.None? || ValidDirection(f.direction))
  }

  predicate AllSound(fs: seq<Interface>) {
    forall i :: 0 <= i < |fs| ==> Sound(fs[i])
  }

  /** The codes of an interface and its strings agree, as supervisor.h numbers them. */
  predicate CodesAgree(f: Interface) {
    && (f.directionCode == 1 <==> f.direction == Some("IN"))
    && (f.directionCode == 2 <==> f.direction == Some("OUT"))
    && (f.directionCode == -1 <==> f.direction == None)
    && (f.kindCode == 1 <==> f.kind == Some("TCP"))
    && (f.kindCode == 2 <==> f.kind == Some("UNIXSOCKET"))
    && (f.kindCode == 4 <==> f.kind == Some("FILE"))
    && (f.kindCode == 5 <==> f.kind == Some("BLACKHOLE"))
    && (f.kindCode == 6 <==> f.kind == Some("TLS"))
    && (f.kindCode == -1 <==> f.kind == None)
    && f.directionCode in {1, 2, -1} && f.kindCode in {1, 2, 4, 5, 6, -1}
  }

  lemma DirectionAgrees(f: Interface)
    requires f.direction.None? || ValidDirection(f.direction)
    ensures var c := DirectionCode(f.direction);
            && (c == 1 <==> f.direction == Some("IN")) && (c == 2 <==> f.direction == Some("OUT"))
            && (c == -1 <==> f.direction == None) && c in {1, 2, -1}
  {
    assert !("IN" <= "OUT") by { assert "IN"[0] != "OUT"[0]; }
  }

  lemma NotPrefix(a: string, b: string)
    requires a != "" && b != "" && a[0] != b[0]
    ensures !(a <= b) && a != b
  {}

  lemma KindAgrees(f: Interface)
    requires f.kind.None? || ValidType(f.kind)
    ensures var c := KindCode(f.kind);
            && (c == 1 <==> f.kind == Some("TCP")) && (c == 2 <==> f.kind == Some("UNIXSOCKET"))
            && (c == 4 <==> f.kind == Some("FILE")) && (c == 5 <==> f.kind == Some("BLACKHOLE"))
            && (c == 6 <==> f.kind == Some("TLS")) && (c == -1 <==> f.kind == None) && c in {1, 2, 4, 5, 6, -1}
  {
    if f.kind.Some? {
      var k := f.kind.value;
      if k[0] != 'T' {
        NotPrefix("TCP", k);
        NotPrefix("TLS", k);
      } else {
        assert "TCP"[1] != "TLS"[1];
      }
      if k[0] != 'U' {
        NotPrefix("UNIXSOCKET", k);
      }
      if k[0] != 'F' {
        NotPrefix("FILE", k);
      }
      if k[0] != 'B' {
        NotPrefix("BLACKHOLE", k);
      }
      NotPrefix("SERVICE", k);
    }
  }

  /** On what a valid document can hold, the coding gives those numbers. */
  lemma CodedAgree(f: Interface)
    requires Sound(f) && f == Recode(f)
    ensures CodesAgree(f)
  {
    DirectionAgrees(f);
    KindAgrees(f);
  }

  lemma AllAgree(fs: seq<Interface>)
    requires AllSound(fs) && Coded(fs)
    ensures forall i :: 0 <= i < |fs| ==> CodesAgree(fs[i])
  {
    forall i | 0 <= i < |fs| ensures CodesAgree(fs[i]) {
      CodedAgree(fs[i]);
    }
  }

  // ----- Attributes -----

  predicate Attribute(tag: Tag) {
    tag == NoteTag || tag == TypeTag || tag == DirectionTag || tag == ParamsTag
  }

  function Field(f: Interface, tag: Tag): Option<Content> {
    if tag == NoteTag then f.note else if tag == TypeTag then f.kind
    else if tag == DirectionTag then f.direction else f.params
  }

  function WithField(f: Interface, tag: Tag, v: Option<Content>): Interface {
    f.(note := if tag == NoteTag then v else f.note, kind := if tag == TypeTag then v else f.kind,
       direction := if tag == DirectionTag then v else f.direction, params := if tag == ParamsTag then v else f.params)
  }

  const BlankInterface := Interface(None, None, None, None, 0, 0)

  /** free_module_interfaces_on_index clears the strings and leaves the codes. */
  function Cleared(f: Interface): Interface {
    f.(note := None, kind := None, direction := None, params := None)
  }

  /** Every attribute given in the document has the stored value. */
  predicate Matches(f: Interface, attrs: seq<Node>) {
    forall i :: 0 <= i < |attrs| && attrs[i].Element? && Attribute(attrs[i].tag) ==> Field(f, attrs[i].tag) == attrs[i].text
  }

  /** The interface an element describes. */
  function Build(n: Node): Interface {
    var attrs := if n.Element? then n.kids else [];
    Recode(Interface(Text(attrs, NoteTag), Text(attrs, TypeTag), Text(attrs, ParamsTag), Text(attrs, DirectionTag), 0, 0))
  }

  function BuildAll(ns: seq<Node>): (r: seq<Interface>)
    ensures |r| == |ns| && Coded(r)
  {
    seq(|ns|, i requires 0 <= i < |ns| => Build(ns[i]))
  }

  // ----- Specification -----

  /** reload_check_module_allocated_interfaces: the array's size when entry c is about to be written. */
  function GrowFor(cap: nat, c: nat): nat {
    if cap == 0 then IFCES_START_SIZE else if c == cap then cap + cap / 2 else cap
  }

  /** ... and after entries 0 .. n - 1 were written in order. */
  function Grown(cap: nat, n: nat): nat {
    if n == 0 then cap else GrowFor(Grown(cap, n - 1), n - 1)
  }

  predicate Sane(cap: nat) {
    cap == 0 || cap >= IFCES_START_SIZE
  }

  datatype Scan = Scan(ifces: seq<Interface>, cap: nat, modified: bool, insert: bool)

  function Inserted(cap: nat, ns: seq<Node>, modified: bool): Scan {
    Scan(BuildAll(ns), Grown(cap, |ns|), modified, true)
  }

  predicate AllMatch(fs: seq<Interface>, ns: seq<Node>)
    requires |fs| == |ns|
  {
    forall i :: 0 <= i < |ns| && ns[i].Element? ==> Matches(fs[i], ns[i].kids)
  }

  /** A known module keeps its interfaces when their number and every given attribute agree. A
      different number rebuilds the list; a different attribute rebuilds it from the second child on. */
  function Scanned(fs: seq<Interface>, cap: nat, isNew: bool, kids: seq<Node>): Scan {
    var ns := Elements(kids, InterfaceTag);
    if isNew then Inserted(cap, ns, false)
    else if |fs| != |ns| then Inserted(cap, ns, true)
    else if AllMatch(fs, ns) then Scan(fs, cap, false, false)
    else Inserted(cap, Elements(if kids == [] then [] else kids[1..], InterfaceTag), true)
  }

  // ----- The loop -----

  function Blanks(n: nat): (r: seq<Interface>)
    ensures |r| == n && forall i :: 0 <= i < n ==> r[i] == BlankInterface
  {
    seq(n, i => BlankInterface)
  }

  /** The module's array: its interfaces and blank entries behind them. */
  function Padded(fs: seq<Interface>, cap: nat): (r: seq<Interface>)
    requires |fs| <= cap
    ensures |r| == cap && fs <= r && AllClear(r, |fs|)
  {
    fs + Blanks(cap - |fs|)
  }

  predicate AllClear(arr: seq<Interface>, c: nat) {
    forall i :: c <= i < |arr| ==> arr[i] == Cleared(arr[i])
  }

  /** The entry's strings are those of an element with these children. */
  predicate Describes(attrs: seq<Node>, f: Interface) {
    && f.note == Text(attrs, NoteTag) && f.kind == Text(attrs, TypeTag)
    && f.direction == Text(attrs, DirectionTag) && f.params == Text(attrs, ParamsTag)
  }

  function Room(arr: seq<Interface>, c: nat): (r: seq<Interface>)
    ensures |r| == GrowFor(|arr|, c) && arr <= r
    ensures AllClear(arr, c) && c <= |arr| ==> AllClear(r, c)
  {
    arr + Blanks(GrowFor(|arr|, c) - |arr|)
  }

  function ClearFirst(arr: seq<Interface>, c: nat): (r: seq<Interface>)
    requires c <= |arr|
    ensures |r| == |arr|
    ensures AllClear(arr, c) ==> AllClear(r, 0)
  {
    seq(c, i requires 0 <= i < c => Cleared(arr[i])) + arr[c..]
  }

  lemma {:induction false} GrownFits(cap: nat, n: nat)
    requires Sane(cap)
    ensures Sane(Grown(cap, n)) && n <= Grown(cap, n) && cap <= Grown(cap, n)
    ensures n < GrowFor(Grown(cap, n), n)
  {
    if n > 0 {
      GrownFits(cap, n - 1);
    }
  }

  /** Writing the attributes of one element into a blank entry. */
  method FillEntry(f0: Interface, attrs: seq<Node>) returns (f: Interface)
    requires f0 == Cleared(f0)
    ensures Describes(attrs, f)
  {
    f := f0;
    var a := 0;
    while a < |attrs|
      invariant a <= |attrs|
      invariant Describes(attrs[..a], f)
    {
      TextNext(attrs, a, NoteTag);
      TextNext(attrs, a, TypeTag);
      TextNext(attrs, a, DirectionTag);
      TextNext(attrs, a, ParamsTag);
      if attrs[a].Element? && Attribute(attrs[a].tag) {
        f := WithField(f, attrs[a].tag, attrs[a].text);
      }
      a := a + 1;
    }
    assert attrs[..a] == attrs;
  }

  /** Comparing the attributes of one element with a stored entry. */
  method CompareEntry(f: Interface, attrs: seq<Node>) returns (same: bool)
    ensures same == Matches(f, attrs)
  {
    var a := 0;
    while a < |attrs|
      invariant a <= |attrs|
      invariant Matches(f, attrs[..a])
    {
      if attrs[a].Element? && Attribute(attrs[a].tag) && Field(f, attrs[a].tag) != attrs[a].text {
        assert !Matches(f, attrs);
        return false;
      }
      a := a + 1;
    }
    assert attrs[..a] == attrs;
    return true;
  }

  /** The array holds the interfaces that the elements describe, and is clear behind them. */
  ghost predicate Stored(arr: seq<Interface>, els: seq<Node>) {
    && |els| <= |arr| && AllClear(arr, |els|)
    && forall k :: 0 <= k < |els| && els[k].Element? ==> Describes(els[k].kids, arr[k])
  }

  lemma ElementsNext(kids: seq<Node>, from: nat, i: nat)
    requires from <= i < |kids|
    ensures Elements(kids[from..i + 1], InterfaceTag)
         == Elements(kids[from..i], InterfaceTag) + if Is(kids[i], InterfaceTag) then [kids[i]] else []
  {
    assert kids[from..i + 1][..i - from] == kids[from..i];
  }

  /** The interfaces among the children from .. i - 1. */
  ghost function Among(kids: seq<Node>, from: nat, i: nat): seq<Node>
    requires from <= i <= |kids|
  {
    Elements(kids[from..i], InterfaceTag)
  }

  /** Child i in insert mode: an interface goes to entry c, for which the array grows if it is full. */
  method InsertChild(arr0: seq<Interface>, c0: nat, ghost cap: nat, kids: seq<Node>, ghost from: nat, i: nat)
    returns (arr: seq<Interface>, c: nat)
    requires from <= i < |kids| && Sane(cap) && |arr0| == Grown(cap, c0)
    requires Stored(arr0, Among(kids, from, i)) && c0 == |Among(kids, from, i)|
    ensures Stored(arr, Among(kids, from, i + 1)) && c == |Among(kids, from, i + 1)| && |arr| == Grown(cap, c)
  {
    arr, c := arr0, c0;
    ElementsNext(kids, from, i);
    if Is(kids[i], InterfaceTag) {
      GrownFits(cap, c);
      StoredRoom(arr, Among(kids, from, i));
      arr := Room(arr, c);
      var f := FillEntry(arr[c], kids[i].kids);
      StoredNext(arr, Among(kids, from, i), kids[i], f);
      arr := arr[c := f];
      c := c + 1;
    }
  }

  lemma StoredRoom(arr: seq<Interface>, els: seq<Node>)
    requires Stored(arr, els)
    ensures Stored(Room(arr, |els|), els)
  {}

  lemma StoredNext(arr: seq<Interface>, els: seq<Node>, n: Node, f: Interface)
    requires Stored(arr, els) && |els| < |arr| && n.Element? && Describes(n.kids, f)
    ensures Stored(arr[|els| := f], els + [n])
  {}

  ghost predicate Agree(fs: seq<Interface>, ns: seq<Node>, c: nat) {
    c <= |fs| == |ns| && forall k :: 0 <= k < c && ns[k].Element? ==> Matches(fs[k], ns[k].kids)
  }

  /** Child i while nothing differed: an interface is compared with entry c. */
  method CompareChild(arr: seq<Interface>, ghost fs: seq<Interface>, c0: nat, kids: seq<Node>, i: nat)
    returns (same: bool, c: nat)
    requires fs <= arr && Agree(fs, Elements(kids, InterfaceTag), c0)
    requires i < |kids| && c0 == |Among(kids, 0, i)|
    ensures same ==> Agree(fs, Elements(kids, InterfaceTag), c) && c == |Among(kids, 0, i + 1)|
    ensures !same ==> |fs| == |Elements(kids, InterfaceTag)| && !AllMatch(fs, Elements(kids, InterfaceTag))
  {
    same, c := true, c0;
    ElementsNext(kids, 0, i);
    if Is(kids[i], InterfaceTag) {
      ElementsPrefix(kids, i);
      same := CompareEntry(arr[c], kids[i].kids);
      c := c + 1;
    }
  }

  /** reload_check_modules_interfaces_count: a different number of interfaces clears the array. */
  method CheckCount(fs: seq<Interface>, cap: nat, isNew: bool, kids: seq<Node>)
    returns (arr: seq<Interface>, modified: bool, insert: bool)
    requires |fs| <= cap && (isNew ==> fs == [])
    ensures modified == (!isNew && |fs| != |Elements(kids, InterfaceTag)|) && insert == (isNew || modified)
    ensures |arr| == cap && if insert then AllClear(arr, 0) else arr == Padded(fs, cap)
  {
    arr, modified, insert := Padded(fs, cap), false, isNew;
    if !isNew {
      var n := CountInterfaces(kids);
      if n != |fs| {
        arr := ClearFirst(arr, |fs|);
        modified, insert := true, true;
      }
    }
  }

  /** The loop over the children of "trapinterfaces" for one module, whose array holds `fs` in its first
      entries. On a difference the entries are cleared and the cursor goes back to the first child,
      which the step to the next sibling then leaves behind. */
  method ScanInterfaces(fs: seq<Interface>, cap: nat, isNew: bool, kids: seq<Node>) returns (r: Scan)
    requires |fs| <= cap && Sane(cap) && (isNew ==> fs == [])
    ensures r == Scanned(fs, cap, isNew, kids)
    ensures |r.ifces| <= r.cap && Sane(r.cap)
  {
    var arr, modified, insert := CheckCount(fs, cap, isNew, kids);
    ghost var from: nat := 0;
    var c := 0;
    var i := 0;
    while i < |kids|
      invariant 0 <= from <= i <= |kids| && c == |Among(kids, from, i)|
      invariant insert ==> Stored(arr, Among(kids, from, i)) && |arr| == Grown(cap, c)
      invariant insert ==> Rebuilding(fs, isNew, Elements(kids, InterfaceTag), modified, from)
      invariant !insert ==> !isNew && !modified && from == 0 && arr == Padded(fs, cap)
      invariant !insert ==> Agree(fs, Elements(kids, InterfaceTag), c)
      decreases !insert, |kids| - i
    {
      if insert {
        arr, c := InsertChild(arr, c, cap, kids, from, i);
      } else {
        var same;
        same, c := CompareChild(arr, fs, c, kids, i);
        if !same {
          modified, insert := true, true;
          arr := ClearFirst(arr, |fs|);
          i, c, from := 0, 0, 1;
          assert Among(kids, 1, 1) == [];
        }
      }
      i := i + 1;
    }
    assert kids[from..i] == kids[from..];
    r := Scan(if insert then RecodeAll(arr[..c]) else fs, |arr|, modified, insert);
    if insert {
      RebuiltScan(fs, cap, isNew, kids, modified, from, arr);
    } else {
      assert kids[0..] == kids;
    }
  }

  /** reload_count_module_interfaces */
  function RecodeAll(fs: seq<Interface>): (r: seq<Interface>)
    ensures |r| == |fs| && Coded(r)
  {
    seq(|fs|, k requires 0 <= k < |fs| => Recode(fs[k]))
  }

  lemma RebuiltScan(fs: seq<Interface>, cap: nat, isNew: bool, kids: seq<Node>, modified: bool, from: nat, arr: seq<Interface>)
    requires from <= |kids| && Sane(cap) && Rebuilding(fs, isNew, Elements(kids, InterfaceTag), modified, from)
    requires Stored(arr, Elements(kids[from..], InterfaceTag)) && |arr| == Grown(cap, |Elements(kids[from..], InterfaceTag)|)
    ensures Scan(RecodeAll(arr[..|Elements(kids[from..], InterfaceTag)|]), |arr|, modified, true) == Scanned(fs, cap, isNew, kids)
    ensures Sane(|arr|)
  {
    var els := Elements(kids[from..], InterfaceTag);
    assert RecodeAll(arr[..|els|]) == BuildAll(els);
    assert kids[0..] == kids;
    GrownFits(cap, |els|);
  }

  ghost predicate Rebuilding(fs: seq<Interface>, isNew: bool, ns: seq<Node>, modified: bool, from: nat) {
    if from == 0 then modified == !isNew && (isNew || |fs| != |ns|)
    else from == 1 && modified && !isNew && |fs| == |ns| && !AllMatch(fs, ns)
  }

  lemma ElementsPrefix(kids: seq<Node>, i: nat)
    requires i < |kids| && Is(kids[i], InterfaceTag)
    ensures var c := |Elements(kids[0..i], InterfaceTag)|;
            c < |Elements(kids, InterfaceTag)| && Elements(kids, InterfaceTag)[c] == kids[i]
  {
    ElementsNext(kids, 0, i);
    ElementsAppend(kids[0..i + 1], kids[i + 1..], InterfaceTag);
    assert kids[0..i + 1] + kids[i + 1..] == kids;
  }

  method CountInterfaces(kids: seq<Node>) returns (n: nat)
    ensures n == |Elements(kids, InterfaceTag)|
  {
    n := 0;
    var j := 0;
    while j < |kids|
      invariant 0 <= j <= |kids| && n == |Elements(kids[..j], InterfaceTag)|
    {
      assert kids[..j + 1][..j] == kids[..j];
      if Is(kids[j], InterfaceTag) {
        n := n + 1;
      }
      j := j + 1;
    }
    assert kids[..j] == kids;
  }

  // ----- What the scan achieves -----

  lemma BuildMatches(n: Node)
    requires n.Element? && ValidInterface(n.kids)
    ensures Matches(Build(n), n.kids)
  {
    forall i | 0 <= i < |n.kids| && n.kids[i].Element? && Attribute(n.kids[i].tag)
      ensures Text(n.kids, n.kids[i].tag) == n.kids[i].text {
      OnlyText(n.kids, n.kids[i]);
    }
  }

  lemma BuildAllMatch(kids: seq<Node>)
    requires ValidTrap(kids)
    ensures AllMatch(BuildAll(Elements(kids, InterfaceTag)), Elements(kids, InterfaceTag))
  {
    var ns := Elements(kids, InterfaceTag);
    ElementsAre(kids, InterfaceTag);
    forall i | 0 <= i < |ns| ensures Matches(BuildAll(ns)[i], ns[i].kids) {
      assert ns[i] in kids && TrapKid(ns[i]);
      BuildMatches(ns[i]);
    }
  }

  lemma BuildSound(n: Node)
    requires n.Element? && ValidInterface(n.kids)
    ensures Sound(Build(n))
  {
    ElementsAre(n.kids, TypeTag);
    ElementsAre(n.kids, DirectionTag);
    var ts, ds := Elements(n.kids, TypeTag), Elements(n.kids, DirectionTag);
    assert ts != [] ==> ts[|ts| - 1] in ts && InterfaceKid(ts[|ts| - 1]);
    assert ds != [] ==> ds[|ds| - 1] in ds && InterfaceKid(ds[|ds| - 1]);
  }

  lemma BuildAllSound(kids: seq<Node>)
    requires ValidTrap(kids)
    ensures AllSound(BuildAll(Elements(kids, InterfaceTag)))
  {
    var ns := Elements(kids, InterfaceTag);
    ElementsAre(kids, InterfaceTag);
    forall i | 0 <= i < |ns| ensures Sound(BuildAll(ns)[i]) {
      assert ns[i] in kids && TrapKid(ns[i]);
      BuildSound(ns[i]);
    }
  }

  /** An interface agrees with an element exactly if each attribute given there has the stored value. */
  lemma MatchesExactly(f: Interface, attrs: seq<Node>)
    ensures Matches(f, attrs) <==>
              forall a :: a in attrs && a.Element? ==>
                && (a.tag == NoteTag ==> f.note == a.text) && (a.tag == TypeTag ==> f.kind == a.text)
                && (a.tag == ParamsTag ==> f.params == a.text) && (a.tag == DirectionTag ==> f.direction == a.text)
  {
    if Matches(f, attrs) {
      forall a | a in attrs && a.Element?
        ensures (a.tag == NoteTag ==> f.note == a.text) && (a.tag == TypeTag ==> f.kind == a.text)
                && (a.tag == ParamsTag ==> f.params == a.text) && (a.tag == DirectionTag ==> f.direction == a.text) {
        var i :| 0 <= i < |attrs| && attrs[i] == a;
        assert Attribute(a.tag) ==> Field(f, attrs[i].tag) == attrs[i].text;
      }
    }
  }

  /** The interface read from a valid element has exactly the attributes given there. */
  lemma BuildExactly(n: Node)
    requires n.Element? && ValidInterface(n.kids)
    ensures var f := Build(n);
            && (forall a :: a in n.kids && a.Element? ==>
                  && (a.tag == NoteTag ==> f.note == a.text) && (a.tag == TypeTag ==> f.kind == a.text)
                  && (a.tag == ParamsTag ==> f.params == a.text) && (a.tag == DirectionTag ==> f.direction == a.text))
            && (f.note.Some? ==> exists a :: a in n.kids && Is(a, NoteTag))
            && (f.kind.Some? ==> exists a :: a in n.kids && Is(a, TypeTag))
            && (f.params.Some? ==> exists a :: a in n.kids && Is(a, ParamsTag))
            && (f.direction.Some? ==> exists a :: a in n.kids && Is(a, DirectionTag))
            && CodesAgree(f)
  {
    BuildMatches(n);
    MatchesExactly(Build(n), n.kids);
    GivenKid(n.kids, NoteTag);
    GivenKid(n.kids, TypeTag);
    GivenKid(n.kids, ParamsTag);
    GivenKid(n.kids, DirectionTag);
    BuildSound(n);
    CodedAgree(Build(n));
  }

  lemma GivenKid(kids: seq<Node>, tag: Tag)
    ensures Text(kids, tag).Some? ==> exists a :: a in kids && Is(a, tag)
  {
    ElementsAre(kids, tag);
    var es := Elements(kids, tag);
    assert es != [] ==> es[|es| - 1] in es;
  }

  /** A difference was found and the first child, which the restarted scan leaves out, is an interface. */
  predicate Loses(fs: seq<Interface>, kids: seq<Node>) {
    var ns := Elements(kids, InterfaceTag);
    |fs| == |ns| && !AllMatch(fs, ns) && kids != [] && Is(kids[0], InterfaceTag)
  }

  lemma ElementsTail(kids: seq<Node>)
    requires kids != []
    ensures Elements(kids, InterfaceTag)
         == (if Is(kids[0], InterfaceTag) then [kids[0]] else []) + Elements(kids[1..], InterfaceTag)
  {
    assert kids == [kids[0]] + kids[1..] && [kids[0]][..0] == [];
    ElementsAppend([kids[0]], kids[1..], InterfaceTag);
  }

  lemma ScanAgrees(fs: seq<Interface>, cap: nat, isNew: bool, kids: seq<Node>)
    requires ValidTrap(kids) && Coded(fs) && AllSound(fs)
    ensures forall i :: 0 <= i < |Scanned(fs, cap, isNew, kids).ifces| ==> CodesAgree(Scanned(fs, cap, isNew, kids).ifces[i])
  {
    ScanSound(fs, cap, isNew, kids);
    AllAgree(Scanned(fs, cap, isNew, kids).ifces);
  }

  /** For every stored list and every valid element: the module counts as modified exactly when the number of
      interfaces or a given attribute differs; a rebuilt list is the document's list; and afterwards the
      list agrees with the document except when the restarted scan loses the first interface. */
  lemma ScanFaithful(fs: seq<Interface>, cap: nat, isNew: bool, kids: seq<Node>)
    requires ValidTrap(kids) && |fs| <= cap && Sane(cap)
    ensures var r := Scanned(fs, cap, isNew, kids);
            var ns := Elements(kids, InterfaceTag);
            var lost := !isNew && Loses(fs, kids);
            && (r.modified <==> !isNew && !(|fs| == |ns| && AllMatch(fs, ns)))
            && (!r.insert ==> r.ifces == fs)
            && (r.insert && !lost ==> r.ifces == BuildAll(ns))
            && (lost ==> r.ifces == BuildAll(ns[1..]))
            && (|r.ifces| == |ns| && AllMatch(r.ifces, ns) <==> !lost)
            && |r.ifces| <= r.cap && Sane(r.cap) && (Coded(fs) ==> Coded(r.ifces))
            && (Coded(fs) && AllSound(fs) ==> forall i :: 0 <= i < |r.ifces| ==> CodesAgree(r.ifces[i]))
  {
    var ns := Elements(kids, InterfaceTag);
    if Coded(fs) && AllSound(fs) {
      ScanAgrees(fs, cap, isNew, kids);
    }
    BuildAllMatch(kids);
    GrownFits(cap, |ns|);
    if kids != [] {
      ElementsTail(kids);
      GrownFits(cap, |Elements(kids[1..], InterfaceTag)|);
    }
  }

  lemma ScanSound(fs: seq<Interface>, cap: nat, isNew: bool, kids: seq<Node>)
    requires ValidTrap(kids) && AllSound(fs)
    ensures AllSound(Scanned(fs, cap, isNew, kids).ifces)
  {
    BuildAllSound(kids);
    if kids != [] {
      BuildAllSound(kids[1..]);
    }
  }

  function NoteOnly(note: Content): seq<Node> {
    [Element(InterfaceTag, None, None, [Element(NoteTag, Some(note), None, [])])]
  }

  lemma OneNote(n: Node)
    requires Is(n, NoteTag) && n.text.Some?
    ensures ValidInterface([n])
  {
    SingleElements(n, NoteTag);
    SingleElements(n, TypeTag);
    SingleElements(n, DirectionTag);
    SingleElements(n, ParamsTag);
  }

  lemma OneInterface(n: Node)
    requires Is(n, InterfaceTag) && ValidInterface(n.kids)
    ensures ValidTrap([n]) && Elements([n], InterfaceTag) == [n]
  {
    SingleElements(n, InterfaceTag);
  }

  lemma NoteOnlyValid(note: Content)
    ensures ValidTrap(NoteOnly(note)) && Elements(NoteOnly(note), InterfaceTag) == NoteOnly(note)
  {
    OneNote(Element(NoteTag, Some(note), None, []));
    OneInterface(NoteOnly(note)[0]);
  }

  lemma NoteOnlyDiffers(f: Interface, note: Content)
    requires f.note != Some(note)
    ensures !Matches(f, NoteOnly(note)[0].kids)
  {
    var n := NoteOnly(note)[0].kids[0];
    assert n.Element? && Field(f, n.tag) != n.text;
  }

  /** An input on which an interface is lost: one stored interface whose note differs, and a document
      without white space before its only "interface" element. */
  lemma ScanLoses(f: Interface, note: Content)
    requires f.note != Some(note)
    ensures ValidTrap(NoteOnly(note)) && Loses([f], NoteOnly(note))
    ensures Scanned([f], IFCES_START_SIZE, false, NoteOnly(note)).ifces == []
  {
    NoteOnlyValid(note);
    NoteOnlyDiffers(f, note);
    assert !AllMatch([f], NoteOnly(note));
    ScanFaithful([f], IFCES_START_SIZE, false, NoteOnly(note));
  }
}
