/** parse_numbers_user_selection: what a user types to select modules, such as
    "2,4-6,13". First the meaning over unbounded numbers, then what is left of it
    in the 32-bit ints of the program. */
module Selection {
  import opened Model
  import opened Document

  // ----- Meaning -----

  /** lo, lo + 1, .. hi */
  function Upto(lo: int, hi: int): (r: seq<int>)
    ensures forall x :: x in r <==> lo <= x <= hi
    decreases hi - lo
  {
    if lo > hi then [] else [lo] + Upto(lo + 1, hi)
  }

  /** Appends the numbers that are not there yet. */
  function AddNew(acc: seq<int>, xs: seq<int>): seq<int>
    decreases |xs|
  {
    if xs == [] then acc else AddNew(if xs[0] in acc then acc else acc + [xs[0]], xs[1..])
  }

  function Ordered(a: int, b: int): seq<int> {
    if a > b then Upto(b, a) else Upto(a, b)
  }

  /** What the current number, or interval, contributes. */
  function Range(beg: Option<int>, cur: int): seq<int> {
    if beg.Some? then Ordered(beg.value, cur) else Upto(cur, cur)
  }

  /** The parser as a function of what is left: the number read so far, the start of an interval and the
      numbers selected; None is the error return. */
  function Scan(s: string, num: Option<int>, beg: Option<int>, acc: seq<int>): Option<seq<int>>
    decreases |s|
  {
    if s == [] then Some(acc)
    else if IsDigit(s[0]) then
      var cur := 10 * (if num.Some? then num.value else 0) + (s[0] - '0') as int;
      if |s| > 1 then Scan(s[1..], Some(cur), beg, acc) else Some(AddNew(acc, Range(beg, cur)))
    else if s[0] == ',' then
      if |s| == 1 || num.None? then None else Scan(s[1..], None, None, AddNew(acc, Range(beg, num.value)))
    else if s[0] == '-' then
      if num.Some? && beg.None? then Scan(s[1..], None, num, acc) else None
    else None
  }

  function Select(s: string): Option<seq<int>> {
    if s == [] then None else Scan(s, None, None, [])
  }

  // ----- The grammar -----

  /** "7", "4-6" and, at the very end, "4-", which selects nothing. */
  datatype Item = Single(a: string) | Interval(a: string, b: string) | Dangling(a: string)

  predicate Digits(s: string) {
    s != [] && forall i :: 0 <= i < |s| ==> IsDigit(s[i])
  }

  predicate Formed(p: Item) {
    Digits(p.a) && (p.Interval? ==> Digits(p.b))
  }

  predicate Legal(ps: seq<Item>) {
    && ps != [] && (forall i :: 0 <= i < |ps| ==> Formed(ps[i]))
    && (forall i :: 0 <= i < |ps| - 1 ==> !ps[i].Dangling?)
  }

  function Written(p: Item): string {
    match p
    case Single(a) => a
    case Interval(a, b) => a + "-" + b
    case Dangling(a) => a + "-"
  }

  function Join(ps: seq<Item>): string {
    if ps == [] then [] else if |ps| == 1 then Written(ps[0]) else Written(ps[0]) + "," + Join(ps[1..])
  }

  function Numbers(p: Item): seq<int> {
    match p
    case Single(a) => Upto(DigitsFrom(a, 0), DigitsFrom(a, 0))
    case Interval(a, b) => Ordered(DigitsFrom(a, 0), DigitsFrom(b, 0))
    case Dangling(_) => []
  }

  /** Every number in the order it is mentioned, repetitions included. */
  function Mentioned(ps: seq<Item>): seq<int> {
    if ps == [] then [] else Numbers(ps[0]) + Mentioned(ps[1..])
  }

  // ----- Scanning what was written -----

  /** A run of digits in front of something else. */
  lemma {:induction false} ScanDigits(a: string, rest: string, num: Option<int>, beg: Option<int>, acc: seq<int>)
    requires Digits(a) && rest != [] && !IsDigit(rest[0])
    ensures Scan(a + rest, num, beg, acc) == Scan(rest, Some(DigitsFrom(a, if num.Some? then num.value else 0)), beg, acc)
    decreases |a|
  {
    var s := a + rest;
    var cur := 10 * (if num.Some? then num.value else 0) + (a[0] - '0') as int;
    assert s[0] == a[0] && s[1..] == a[1..] + rest;
    if |a| > 1 {
      ScanDigits(a[1..], rest, Some(cur), beg, acc);
    } else {
      assert a[1..] == [] && s[1..] == rest;
    }
  }

  /** A run of digits at the end. */
  lemma {:induction false} ScanLast(a: string, num: Option<int>, beg: Option<int>, acc: seq<int>)
    requires Digits(a)
    ensures Scan(a, num, beg, acc) == Some(AddNew(acc, Range(beg, DigitsFrom(a, if num.Some? then num.value else 0))))
    decreases |a|
  {
    var cur := 10 * (if num.Some? then num.value else 0) + (a[0] - '0') as int;
    if |a| > 1 {
      ScanLast(a[1..], Some(cur), beg, acc);
    } else {
      assert a[1..] == [];
    }
  }

  /** The first item, when others follow. */
  lemma ScanItem(p: Item, rest: string, acc: seq<int>)
    requires Formed(p) && !p.Dangling? && rest != []
    ensures Scan(Written(p) + "," + rest, None, None, acc) == Scan(rest, None, None, AddNew(acc, Numbers(p)))
  {
    var tail := "," + rest;
    assert tail[1..] == rest;
    match p
    case Single(a) =>
      assert a + "," + rest == a + tail;
      ScanDigits(a, tail, None, None, acc);
    case Interval(a, b) =>
      assert a + "-" + b + "," + rest == a + ("-" + (b + tail));
      ScanDigits(a, "-" + (b + tail), None, None, acc);
      assert ("-" + (b + tail))[1..] == b + tail;
      ScanDigits(b, tail, None, Some(DigitsFrom(a, 0)), acc);
  }

  /** The last item. */
  lemma ScanEnd(p: Item, acc: seq<int>)
    requires Formed(p)
    ensures Scan(Written(p), None, None, acc) == Some(AddNew(acc, Numbers(p)))
  {
    match p
    case Single(a) => ScanLast(a, None, None, acc);
    case Interval(a, b) =>
      assert a + "-" + b == a + ("-" + b);
      ScanDigits(a, "-" + b, None, None, acc);
      assert ("-" + b)[1..] == b;
      ScanLast(b, None, Some(DigitsFrom(a, 0)), acc);
    case Dangling(a) =>
      ScanDigits(a, "-", None, None, acc);
      assert "-"[1..] == [];
  }

  lemma {:induction false} AddNewAppend(acc: seq<int>, xs: seq<int>, ys: seq<int>)
    ensures AddNew(acc, xs + ys) == AddNew(AddNew(acc, xs), ys)
    decreases |xs|
  {
    if xs == [] {
      assert xs + ys == ys;
    } else {
      assert (xs + ys)[0] == xs[0] && (xs + ys)[1..] == xs[1..] + ys;
      AddNewAppend(if xs[0] in acc then acc else acc + [xs[0]], xs[1..], ys);
    }
  }

  lemma JoinNonEmpty(ps: seq<Item>)
    requires Legal(ps)
    ensures Join(ps) != []
  {
    assert Formed(ps[0]);
  }

  lemma {:induction false} ScanJoined(ps: seq<Item>, acc: seq<int>)
    requires Legal(ps)
    ensures Scan(Join(ps), None, None, acc) == Some(AddNew(acc, Mentioned(ps)))
    decreases |ps|
  {
    assert Formed(ps[0]);
    if |ps| == 1 {
      ScanEnd(ps[0], acc);
      assert Mentioned(ps[1..]) == [] && Numbers(ps[0]) + [] == Numbers(ps[0]);
    } else {
      assert Legal(ps[1..]);
      JoinNonEmpty(ps[1..]);
      ScanItem(ps[0], Join(ps[1..]), acc);
      ScanJoined(ps[1..], AddNew(acc, Numbers(ps[0])));
      AddNewAppend(acc, Numbers(ps[0]), Mentioned(ps[1..]));
    }
  }

  /** Every legal selection is accepted, and selects each mentioned number once, in the order of first mention. */
  lemma SelectsMentioned(ps: seq<Item>)
    requires Legal(ps)
    ensures Select(Join(ps)) == Some(AddNew([], Mentioned(ps)))
  {
    JoinNonEmpty(ps);
    ScanJoined(ps, []);
  }

  /** A dash at the end is accepted, and the number before it is not selected. */
  lemma DanglingAccepted(a: string)
    requires Digits(a)
    ensures Select(a + "-") == Some([])
  {
    SelectsMentioned([Dangling(a)]);
  }

  // ----- Only legal selections are accepted -----

  function DigitLen(s: string): (k: nat)
    ensures k <= |s| && (forall i :: 0 <= i < k ==> IsDigit(s[i])) && (k < |s| ==> !IsDigit(s[k]))
  {
    if s == [] || !IsDigit(s[0]) then 0 else 1 + DigitLen(s[1..])
  }

  lemma LegalCons(p: Item, qs: seq<Item>)
    requires Formed(p) && !p.Dangling? && Legal(qs)
    ensures Legal([p] + qs) && Join([p] + qs) == Written(p) + "," + Join(qs)
  {
    assert ([p] + qs)[1..] == qs;
  }

  /** Whatever is accepted is a legal selection. */
  lemma {:induction false} AcceptedIsLegal(s: string, acc: seq<int>) returns (ps: seq<Item>)
    requires s != [] && Scan(s, None, None, acc).Some?
    ensures Legal(ps) && Join(ps) == s
    decreases |s|
  {
    var k := DigitLen(s);
    assert k > 0;
    var a := s[..k];
    assert Digits(a);
    if k == |s| {
      ps := [Single(a)];
    } else {
      var rest := s[k + 1..];
      DigitsThen(s, k, None, acc);
      if s[k] == ',' {
        assert s == a + "," + rest;
        var qs := AcceptedIsLegal(rest, AddNew(acc, Range(None, DigitsFrom(a, 0))));
        LegalCons(Single(a), qs);
        ps := [Single(a)] + qs;
      } else {
        assert s == a + "-" + rest;
        ps := IntervalIsLegal(a, rest, acc);
      }
    }
  }

  /** What must follow a run of digits that is not the end. */
  lemma DigitsThen(s: string, k: nat, beg: Option<int>, acc: seq<int>)
    requires k == DigitLen(s) && 0 < k < |s| && Scan(s, None, beg, acc).Some?
    ensures var v, rest := DigitsFrom(s[..k], 0), s[k + 1..];
            && (s[k] == ',' || (s[k] == '-' && beg.None?))
            && (s[k] == ',' ==> rest != [] && Scan(rest, None, None, AddNew(acc, Range(beg, v))).Some?)
            && (s[k] == '-' ==> Scan(rest, None, Some(v), acc).Some?)
  {
    var a := s[..k];
    assert Digits(a) && s == a + s[k..];
    ScanDigits(a, s[k..], None, beg, acc);
    assert s[k..][1..] == s[k + 1..];
  }

  lemma CommaAt(s: string, k: nat)
    requires k < |s| && s[k] == ','
    ensures s == s[..k] + "," + s[k + 1..]
  {}

  lemma LastItem(p: Item)
    requires Formed(p)
    ensures Legal([p]) && Join([p]) == Written(p)
  {}

  lemma IntervalThen(a: string, b: string, rest: string, qs: seq<Item>)
    requires Digits(a) && Digits(b) && Legal(qs) && Join(qs) == rest
    ensures Legal([Interval(a, b)] + qs) && Join([Interval(a, b)] + qs) == a + "-" + (b + "," + rest)
  {
    LegalCons(Interval(a, b), qs);
    assert a + "-" + (b + "," + rest) == a + "-" + b + "," + rest;
  }

  /** What may follow "a-". */
  lemma IntervalIsLegal(a: string, s: string, acc: seq<int>) returns (ps: seq<Item>)
    requires Digits(a) && Scan(s, None, Some(DigitsFrom(a, 0)), acc).Some?
    ensures Legal(ps) && Join(ps) == a + "-" + s
    decreases |s|
  {
    if s == [] {
      ps := [Dangling(a)];
      LastItem(Dangling(a));
      assert a + "-" + [] == a + "-";
    } else {
      var k := DigitLen(s);
      assert k > 0;
      var b := s[..k];
      if k == |s| {
        ps := [Interval(a, b)];
        LastItem(Interval(a, b));
        assert b == s;
      } else {
        DigitsThen(s, k, Some(DigitsFrom(a, 0)), acc);
        var rest := s[k + 1..];
        var qs := AcceptedIsLegal(rest, AddNew(acc, Range(Some(DigitsFrom(a, 0)), DigitsFrom(b, 0))));
        ps := [Interval(a, b)] + qs;
        IntervalThen(a, b, rest, qs);
        CommaAt(s, k);
      }
    }
  }

  /** The parser accepts exactly the legal selections. */
  lemma ExactGrammar(s: string)
    ensures Select(s).Some? <==> exists ps :: Legal(ps) && Join(ps) == s
  {
    if Select(s).Some? {
      var ps := AcceptedIsLegal(s, []);
    }
    if ps :| Legal(ps) && Join(ps) == s {
      SelectsMentioned(ps);
    }
  }

  // ----- No repetitions, the union, the order of first mention -----

  function First(xs: seq<int>, x: int): (k: nat)
    ensures k <= |xs| && (k < |xs| ==> xs[k] == x) && forall i :: 0 <= i < k ==> xs[i] != x
  {
    if xs == [] || xs[0] == x then 0 else 1 + First(xs[1..], x)
  }

  lemma FirstAppend(xs: seq<int>, y: int, x: int)
    ensures First(xs + [y], x) == if x in xs then First(xs, x) else if x == y then |xs| else |xs| + 1
  {
    var k := First(xs + [y], x);
    assert forall i :: 0 <= i < |xs| ==> (xs + [y])[i] == xs[i];
    assert (xs + [y])[|xs|] == y;
    if x in xs {
      var j :| 0 <= j < |xs| && xs[j] == x;
      assert (xs + [y])[First(xs, x)] == x;
    }
  }

  /** r lists the elements of xs once each, in the order of their first occurrence. */
  ghost predicate FirstMentions(xs: seq<int>, r: seq<int>) {
    && (forall x :: x in r <==> x in xs)
    && (forall i, j :: 0 <= i < j < |r| ==> First(xs, r[i]) < First(xs, r[j]))
  }

  lemma {:induction false} AddNewFirsts(xs: seq<int>)
    ensures FirstMentions(xs, AddNew([], xs))
  {
    if xs != [] {
      var ys, y := xs[..|xs| - 1], xs[|xs| - 1];
      assert xs == ys + [y];
      AddNewFirsts(ys);
      AddNewAppend([], ys, [y]);
      var r := AddNew([], ys);
      assert [y][1..] == [];
      assert AddNew(r, [y]) == if y in r then r else r + [y];
      FirstsStep(ys, y, r);
    }
  }

  lemma FirstsStep(ys: seq<int>, y: int, r: seq<int>)
    requires FirstMentions(ys, r)
    ensures FirstMentions(ys + [y], if y in r then r else r + [y])
  {
    var n := if y in r then r else r + [y];
    forall i, j | 0 <= i < j < |n| ensures First(ys + [y], n[i]) < First(ys + [y], n[j]) {
      FirstAppend(ys, y, n[i]);
      FirstAppend(ys, y, n[j]);
      assert n[i] == r[i] && r[i] in ys;
      if j < |r| {
        assert n[j] == r[j] && r[j] in ys;
      }
    }
    forall x ensures x in n <==> x in ys + [y] {}
  }

  /** A number lies in the interval of an item, whichever bound comes first. */
  predicate Covers(p: Item, x: int) {
    match p
    case Single(a) => x == DigitsFrom(a, 0)
    case Interval(a, b) => DigitsFrom(a, 0) <= x <= DigitsFrom(b, 0) || DigitsFrom(b, 0) <= x <= DigitsFrom(a, 0)
    case Dangling(_) => false
  }

  lemma {:induction false} MentionedAre(ps: seq<Item>, x: int)
    ensures x in Mentioned(ps) <==> exists i :: 0 <= i < |ps| && Covers(ps[i], x)
  {
    if ps != [] {
      MentionedAre(ps[1..], x);
      assert x in Numbers(ps[0]) <==> Covers(ps[0], x);
      if i :| 0 <= i < |ps| && Covers(ps[i], x) {
        assert i > 0 ==> ps[1..][i - 1] == ps[i];
      }
      if i :| 0 <= i < |ps[1..]| && Covers(ps[1..][i], x) {
        assert ps[i + 1] == ps[1..][i];
      }
    }
  }

  /** On every legal selection the result has no repetition, is the union of the intervals and keeps the
      order of first mention. */
  lemma SelectionMeaning(ps: seq<Item>)
    requires Legal(ps)
    ensures Select(Join(ps)).Some?
    ensures var r := Select(Join(ps)).value;
            && (forall i, j :: 0 <= i < j < |r| ==> r[i] != r[j])
            && (forall x :: x in r <==> exists i :: 0 <= i < |ps| && Covers(ps[i], x))
            && (forall i, j :: 0 <= i < j < |r| ==> First(Mentioned(ps), r[i]) < First(Mentioned(ps), r[j]))
  {
    SelectsMentioned(ps);
    AddNewFirsts(Mentioned(ps));
    forall x ensures x in Mentioned(ps) <==> exists i :: 0 <= i < |ps| && Covers(ps[i], x) {
      MentionedAre(ps, x);
    }
  }

  // ----- 32-bit numbers -----

  newtype Int32 = x: int | -0x8000_0000 <= x < 0x8000_0000

  const INT_MAX: int := 0x7fff_ffff

  /** The larger bound of the current number or interval. */
  function High(beg: Option<int>, cur: int): int {
    if beg.Some? && beg.value > cur then beg.value else cur
  }

  /** Whether the parser, run as in Scan, keeps every number in range. The loop over an interval counts one past
      its larger bound. */
  predicate Fits(s: string, num: Option<int>, beg: Option<int>)
    decreases |s|
  {
    if s == [] then true
    else if IsDigit(s[0]) then
      var cur := 10 * (if num.Some? then num.value else 0) + (s[0] - '0') as int;
      cur <= INT_MAX && if |s| > 1 then Fits(s[1..], Some(cur), beg) else High(beg, cur) < INT_MAX
    else if s[0] == ',' then |s| == 1 || num.None? || (High(beg, num.value) < INT_MAX && Fits(s[1..], None, None))
    else if s[0] == '-' then num.None? || beg.Some? || Fits(s[1..], None, num)
    else true
  }

  /** `Overflows`: a number leaves the range, after which C promises nothing. */
  datatype Outcome = Rejected | Overflows | Selected(nums: seq<int>)

  function Parse(s: string): Outcome {
    if !Fits(s, None, None) then Overflows else if Select(s).None? then Rejected else Selected(Select(s).value)
  }

  /** What an item may hold. The bound of a dangling interval is read but not counted to. */
  predicate Within(p: Item) {
    match p
    case Single(a) => DigitsFrom(a, 0) < INT_MAX
    case Interval(a, b) => DigitsFrom(a, 0) < INT_MAX && DigitsFrom(b, 0) < INT_MAX
    case Dangling(a) => DigitsFrom(a, 0) <= INT_MAX
  }

  lemma {:induction false} DigitsGrow(a: string, acc: int)
    requires acc >= 0
    ensures DigitsFrom(a, acc) >= acc
    decreases |a|
  {
    if a != [] && IsDigit(a[0]) {
      DigitsGrow(a[1..], 10 * acc + (a[0] - '0') as int);
    }
  }

  function Value(num: Option<int>): int {
    if num.Some? then num.value else 0
  }

  lemma {:induction false} FitsDigits(a: string, rest: string, num: Option<int>, beg: Option<int>)
    requires Digits(a) && rest != [] && !IsDigit(rest[0]) && Value(num) >= 0
    ensures Fits(a + rest, num, beg) <==> DigitsFrom(a, Value(num)) <= INT_MAX && Fits(rest, Some(DigitsFrom(a, Value(num))), beg)
    decreases |a|
  {
    var s := a + rest;
    var cur := 10 * Value(num) + (a[0] - '0') as int;
    assert s[0] == a[0] && s[1..] == a[1..] + rest;
    if |a| > 1 {
      DigitsGrow(a[1..], cur);
      FitsDigits(a[1..], rest, Some(cur), beg);
    } else {
      assert a[1..] == [] && s[1..] == rest;
    }
  }

  lemma {:induction false} FitsLast(a: string, num: Option<int>, beg: Option<int>)
    requires Digits(a) && Value(num) >= 0
    ensures Fits(a, num, beg) <==> High(beg, DigitsFrom(a, Value(num))) < INT_MAX
    decreases |a|
  {
    var cur := 10 * Value(num) + (a[0] - '0') as int;
    DigitsGrow(a[1..], cur);
    if |a| > 1 {
      FitsLast(a[1..], Some(cur), beg);
    } else {
      assert a[1..] == [];
    }
  }

  lemma FitsItem(p: Item, rest: string)
    requires Formed(p) && !p.Dangling? && rest != []
    ensures Fits(Written(p) + "," + rest, None, None) <==> Within(p) && Fits(rest, None, None)
  {
    var tail := "," + rest;
    assert tail[1..] == rest;
    match p
    case Single(a) =>
      assert a + "," + rest == a + tail;
      FitsDigits(a, tail, None, None);
    case Interval(a, b) =>
      assert a + "-" + b + "," + rest == a + ("-" + (b + tail));
      FitsDigits(a, "-" + (b + tail), None, None);
      assert ("-" + (b + tail))[1..] == b + tail;
      FitsDigits(b, tail, None, Some(DigitsFrom(a, 0)));
  }

  lemma FitsEnd(p: Item)
    requires Formed(p)
    ensures Fits(Written(p), None, None) <==> Within(p)
  {
    match p
    case Single(a) => FitsLast(a, None, None);
    case Interval(a, b) =>
      assert a + "-" + b == a + ("-" + b);
      FitsDigits(a, "-" + b, None, None);
      assert ("-" + b)[1..] == b;
      FitsLast(b, None, Some(DigitsFrom(a, 0)));
    case Dangling(a) =>
      FitsDigits(a, "-", None, None);
      assert "-"[1..] == [];
  }

  lemma {:induction false} FitsJoined(ps: seq<Item>)
    requires Legal(ps)
    ensures Fits(Join(ps), None, None) <==> forall i :: 0 <= i < |ps| ==> Within(ps[i])
    decreases |ps|
  {
    assert Formed(ps[0]);
    if |ps| == 1 {
      FitsEnd(ps[0]);
    } else {
      var qs := ps[1..];
      assert Legal(qs);
      JoinNonEmpty(qs);
      FitsItem(ps[0], Join(qs));
      FitsJoined(qs);
      assert forall i :: 1 <= i < |ps| ==> ps[i] == qs[i - 1];
      assert forall i :: 0 <= i < |qs| ==> qs[i] == ps[i + 1];
    }
  }

  /** A legal selection is parsed in 32 bits, with the meaning of SelectionMeaning, exactly if every bound is below
      INT_MAX; otherwise a number overflows. */
  lemma ParseExactly(ps: seq<Item>)
    requires Legal(ps)
    ensures if forall i :: 0 <= i < |ps| ==> Within(ps[i])
            then Parse(Join(ps)) == Selected(AddNew([], Mentioned(ps))) else Parse(Join(ps)).Overflows?
  {
    SelectsMentioned(ps);
    FitsJoined(ps);
  }

  /** Every text: selected are exactly the legal selections within bounds, and any other text is rejected unless a
      number overflows before its fault is met. */
  lemma ParseGrammar(s: string)
    ensures Parse(s).Selected? <==> exists ps :: Legal(ps) && Join(ps) == s && forall i :: 0 <= i < |ps| ==> Within(ps[i])
    ensures Parse(s).Rejected? ==> !exists ps :: Legal(ps) && Join(ps) == s
    ensures (!exists ps :: Legal(ps) && Join(ps) == s) ==> Parse(s).Rejected? || Parse(s).Overflows?
  {
    ExactGrammar(s);
    if ps :| Legal(ps) && Join(ps) == s && forall i :: 0 <= i < |ps| ==> Within(ps[i]) {
      ParseExactly(ps);
    }
    if Parse(s).Selected? {
      var ps :| Legal(ps) && Join(ps) == s;
      ParseExactly(ps);
    }
  }

  /** No run of digits in a text reaches INT_MAX. */
  ghost predicate SmallRuns(s: string) {
    forall i, j :: 0 <= i < j <= |s| && Digits(s[i..j]) ==> DigitsFrom(s[i..j], 0) < INT_MAX
  }

  /** Such a text does not overflow, legal or not. */
  lemma {:induction false} SmallFits(s: string, x: nat, a: nat, beg: Option<int>)
    requires SmallRuns(s) && a <= x <= |s| && (a < x ==> Digits(s[a..x])) && (beg.Some? ==> 0 <= beg.value < INT_MAX)
    ensures Fits(s[x..], if a < x then Some(DigitsFrom(s[a..x], 0)) else None, beg)
    decreases |s| - x
  {
    if x < |s| {
      var t := s[x..];
      assert t[1..] == s[x + 1..] && t[0] == s[x] && |t| == |s| - x;
      if IsDigit(s[x]) {
        SmallDigit(s, a, x);
        SmallFits(s, x + 1, a, beg);
      } else if s[x] == ',' && a < x {
        SmallRun(s, a, x);
        SmallFits(s, x + 1, x + 1, None);
      } else if s[x] == '-' && a < x && beg.None? {
        SmallRun(s, a, x);
        NonNegative(s[a..x], 0);
        SmallFits(s, x + 1, x + 1, Some(DigitsFrom(s[a..x], 0)));
      }
    }
  }

  lemma SmallRun(s: string, a: nat, x: nat)
    requires SmallRuns(s) && a < x <= |s| && Digits(s[a..x])
    ensures DigitsFrom(s[a..x], 0) < INT_MAX
  {}

  lemma NonNegative(s: string, acc: int)
    requires acc >= 0
    ensures DigitsFrom(s, acc) >= 0
  {
    DigitsGrow(s, acc);
  }

  lemma SmallDigit(s: string, a: nat, x: nat)
    requires SmallRuns(s) && a <= x < |s| && (a < x ==> Digits(s[a..x])) && IsDigit(s[x])
    ensures Digits(s[a..x + 1]) && DigitsFrom(s[a..x + 1], 0) < INT_MAX
    ensures DigitsFrom(s[a..x + 1], 0) == 10 * (if a < x then DigitsFrom(s[a..x], 0) else 0) + (s[x] - '0') as int
  {
    var t := s[a..x + 1];
    assert forall i :: 0 <= i < |t| ==> IsDigit(t[i]) by {
      forall i | 0 <= i < |t| ensures IsDigit(t[i]) {
        if i < x - a {
          assert t[i] == s[a..x][i];
        }
      }
    }
    assert t == s[a..x] + [s[x]];
    if a < x {
      DigitsAppend(s[a..x], [s[x]], 0);
    }
    OneDigit(s[x], if a < x then DigitsFrom(s[a..x], 0) else 0);
  }

  lemma OneDigit(c: char, acc: int)
    requires IsDigit(c)
    ensures DigitsFrom([c], acc) == 10 * acc + (c - '0') as int
  {
    assert [c][1..] == [];
  }

  /** Text that is no selection is rejected if its numbers are small enough. */
  lemma IllegalRejected(s: string)
    requires SmallRuns(s) && !exists ps :: Legal(ps) && Join(ps) == s
    ensures Parse(s).Rejected?
  {
    SmallFits(s, 0, 0, None);
    assert s[0..] == s;
    ExactGrammar(s);
  }

  /** The largest int cannot be selected, although it fits. */
  lemma LargestOverflows(s: string)
    requires s == "2147483647"
    ensures DigitsFrom(s, 0) == INT_MAX && Parse(s).Overflows?
  {
    var a, b := s[..5], s[5..];
    assert s == a + b && a == "21474" && b == "83647";
    FiveDigits(a, 0);
    FiveDigits(b, 21474);
    DigitsAppend(a, b, 0);
    FitsLast(s, None, None);
  }

  lemma {:induction false} DigitsAppend(a: string, b: string, acc: int)
    requires Digits(a)
    ensures DigitsFrom(a + b, acc) == DigitsFrom(b, DigitsFrom(a, acc))
    decreases |a|
  {
    var s := a + b;
    assert s[0] == a[0] && s[1..] == a[1..] + b;
    if |a| > 1 {
      DigitsAppend(a[1..], b, 10 * acc + (a[0] - '0') as int);
    } else {
      assert a[1..] == [] && s[1..] == b;
    }
  }

  lemma FiveDigits(s: string, acc: int)
    requires Digits(s) && |s| == 5
    ensures DigitsFrom(s, acc) == 100000 * acc + 10000 * (s[0] - '0') as int + 1000 * (s[1] - '0') as int
                                  + 100 * (s[2] - '0') as int + 10 * (s[3] - '0') as int + (s[4] - '0') as int
  {
    var t, u, v, w := s[1..], s[2..], s[3..], s[4..];
    var a := 10 * acc + (s[0] - '0') as int;
    var b := 10 * a + (s[1] - '0') as int;
    var c := 10 * b + (s[2] - '0') as int;
    var d := 10 * c + (s[3] - '0') as int;
    assert t[1..] == u && u[1..] == v && v[1..] == w && w[1..] == [];
    assert DigitsFrom(s, acc) == DigitsFrom(t, a) == DigitsFrom(u, b);
    assert DigitsFrom(u, b) == DigitsFrom(v, c) == DigitsFrom(w, d) == 10 * d + (s[4] - '0') as int;
  }

  // ----- The loops -----

  /** Whether y is among the first cnt numbers. */
  method Duplicated(nums: array<int>, cnt: nat, y: int) returns (found: bool)
    requires cnt <= nums.Length
    ensures found == (y in nums[..cnt])
  {
    var z := 0;
    while z < cnt
      invariant 0 <= z <= cnt && y !in nums[..z]
    {
      if nums[z] == y {
        assert nums[..cnt][z] == y;
        return true;
      }
      z := z + 1;
    }
    return false;
  }

  /** The array grows by 20 when it is full. */
  method Grow(nums0: array<int>, cnt: nat) returns (nums: array<int>)
    requires cnt <= nums0.Length
    ensures cnt < nums.Length && nums[..cnt] == nums0[..cnt]
    ensures nums == nums0 || fresh(nums)
  {
    nums := nums0;
    if cnt == nums0.Length {
      nums := new int[cnt + 20];
      var i := 0;
      while i < cnt
        invariant 0 <= i <= cnt && nums.Length == cnt + 20 && nums[..i] == nums0[..i]
      {
        nums[i] := nums0[i];
        i := i + 1;
      }
    }
  }

  lemma {:induction false} UptoSnoc(lo: int, hi: int)
    requires lo <= hi + 1
    ensures Upto(lo, hi + 1) == Upto(lo, hi) + [hi + 1]
    decreases hi - lo
  {
    if lo <= hi {
      UptoSnoc(lo + 1, hi);
    }
  }

  /** Adding lo .. hi, one by one. */
  method AddInterval(nums0: array<int>, cnt0: nat, lo: Int32, hi: Int32) returns (nums: array<int>, cnt: nat)
    requires cnt0 <= nums0.Length && lo <= hi && (hi as int) < INT_MAX
    modifies nums0
    ensures cnt <= nums.Length && (nums == nums0 || fresh(nums))
    ensures nums[..cnt] == AddNew(old(nums0[..cnt0]), Upto(lo as int, hi as int))
  {
    nums, cnt := nums0, cnt0;
    var y := lo;
    while y <= hi
      invariant lo <= y <= hi + 1 && cnt <= nums.Length && (nums == nums0 || fresh(nums))
      invariant nums[..cnt] == AddNew(old(nums0[..cnt0]), Upto(lo as int, y as int - 1))
    {
      ghost var acc := nums[..cnt];
      UptoSnoc(lo as int, y as int - 1);
      AddNewAppend(old(nums0[..cnt0]), Upto(lo as int, y as int - 1), [y as int]);
      assert [y as int][1..] == [] && AddNew(acc, [y as int]) == if y as int in acc then acc else acc + [y as int];
      var found := Duplicated(nums, cnt, y as int);
      if !found {
        nums := Grow(nums, cnt);
        nums[cnt] := y as int;
        cnt := cnt + 1;
      }
      y := y + 1;
    }
  }

  /** One more digit; false if the number leaves the range. */
  method ReadDigit(cur: Int32, c: char) returns (ok: bool, r: Int32)
    requires IsDigit(c) && cur >= 0
    ensures ok <==> 10 * cur as int + (c - '0') as int <= INT_MAX
    ensures r >= 0 && (ok ==> r as int == 10 * cur as int + (c - '0') as int)
  {
    var d := (c - '0') as Int32;
    ok := cur <= (0x7fff_ffff - d) / 10;
    r := if ok then 10 * cur + d else 0;
  }

  method ParseSelection(s: string) returns (r: Outcome)
    ensures r == Parse(s)
  {
    if s == [] {
      return Rejected;
    }
    var nums := new int[10];
    var cnt: nat := 0;
    var isNum, isInterval := false, false;
    var cur: Int32, beg: Int32 := 0, 0;
    var x := 0;
    assert s[0..] == s && nums[..0] == [];
    while x < |s|
      invariant 0 <= x <= |s| && cnt <= nums.Length && fresh(nums) && cur >= 0 && (!isNum ==> cur == 0)
      invariant Select(s) == Scan(s[x..], Present(isNum, cur), Present(isInterval, beg), nums[..cnt])
      invariant Fits(s, None, None) == Fits(s[x..], Present(isNum, cur), Present(isInterval, beg))
    {
      ghost var rest := s[x..];
      assert rest[1..] == s[x + 1..] && (x == |s| - 1 ==> s[x + 1..] == []);
      var add := false;
      if IsDigit(s[x]) {
        var ok, n := ReadDigit(cur, s[x]);
        if !ok {
          return Overflows;
        }
        isNum, cur := true, n;
        add := x == |s| - 1;
      } else if s[x] == ',' {
        if x == |s| - 1 || !isNum {
          return Rejected;
        }
        add := true;
      } else if s[x] == '-' {
        if !isNum || isInterval {
          return Rejected;
        }
        isNum, isInterval, beg, cur := false, true, cur, 0;
      } else {
        return Rejected;
      }
      if add {
        var lo := if isInterval && beg <= cur then beg else cur;
        var hi := if isInterval && beg > cur then beg else cur;
        if hi == 0x7fff_ffff {
          return Overflows;
        }
        nums, cnt := AddInterval(nums, cnt, lo, hi);
        isNum, isInterval, cur := false, false, 0;
      }
      x := x + 1;
    }
    r := Selected(nums[..cnt]);
  }

  function Present(some: bool, n: Int32): Option<int> {
    if some then Some(n as int) else None
  }
}
