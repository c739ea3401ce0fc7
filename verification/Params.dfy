/** parse_module_params: splitting the "params" of a module into arguments. */
module Params {
  import opened Model

  predicate Plain(c: char) {
    c != ' ' && c != '\'' && c != '\"'
  }

  /** The position of the first c, or the length. */
  function Find(s: string, c: char): (k: nat)
    ensures k <= |s| && (forall i :: 0 <= i < k ==> s[i] != c) && (k < |s| ==> s[k] == c)
  {
    if s == [] || s[0] == c then 0 else 1 + Find(s[1..], c)
  }

  /** The number of plain characters in front. */
  function WordLen(s: string): (k: nat)
    ensures k <= |s| && (forall i :: 0 <= i < k ==> Plain(s[i])) && (k < |s| ==> !Plain(s[k]))
  {
    if s == [] || !Plain(s[0]) then 0 else 1 + WordLen(s[1..])
  }

  function Prepend(args: seq<string>, rest: Option<seq<string>>): Option<seq<string>> {
    match rest
    case None => None
    case Some(more) => Some(args + more)
  }

  /** The parser as a function of what is left; None is its error return. */
  function Split(s: string): Option<seq<string>>
    decreases |s|, 0
  {
    if s == [] then Some([])
    else if s[0] == ' ' then Split(s[1..])
    else if s[0] == '\'' then
      var k := Find(s[1..], '\'');
      if k == 0 || k == |s| - 1 then None else Prepend([s[1..k + 1]], Split(s[k + 2..]))
    else if s[0] == '\"' then
      var k := Find(s[1..], '\"');
      if k == 0 || k == |s| - 1 || Find(s[1..], '\'') < k then None else Prepend([s[1..k + 1]], Split(s[k + 2..]))
    else Resume([s[0]], s[1..])
  }

  /** The same in the middle of a word that began with w. */
  function Resume(w: string, s: string): Option<seq<string>>
    decreases |s|, 1
  {
    var k := WordLen(s);
    if k < |s| && s[k] != ' ' then None else Prepend([w + s[..k]], Split(s[k..]))
  }

  // ----- The grammar -----

  datatype Piece = Space | Apostrophes(text: string) | Quotes(text: string) | Word(text: string)

  predicate Formed(p: Piece) {
    match p
    case Space => true
    case Apostrophes(t) => t != [] && '\'' !in t
    case Quotes(t) => t != [] && '\'' !in t && '\"' !in t
    case Word(t) => t != [] && forall i :: 0 <= i < |t| ==> Plain(t[i])
  }

  /** A word ends at a space or at the end; quoted arguments may touch. */
  predicate Legal(ps: seq<Piece>) {
    && (forall i :: 0 <= i < |ps| ==> Formed(ps[i]))
    && (forall i :: 0 <= i < |ps| - 1 && ps[i].Word? ==> ps[i + 1].Space?)
  }

  function Written(p: Piece): (s: string)
    ensures s != [] || (p.Word? && p.text == [])
  {
    match p
    case Space => " "
    case Apostrophes(t) => "'" + t + "'"
    case Quotes(t) => "\"" + t + "\""
    case Word(t) => t
  }

  function Render(ps: seq<Piece>): string {
    if ps == [] then [] else Written(ps[0]) + Render(ps[1..])
  }

  function Arguments(ps: seq<Piece>): seq<string> {
    if ps == [] then [] else (if ps[0].Space? then [] else [ps[0].text]) + Arguments(ps[1..])
  }

  lemma FindIs(s: string, c: char, k: nat)
    requires k < |s| && s[k] == c && forall i :: 0 <= i < k ==> s[i] != c
    ensures Find(s, c) == k
  {}

  lemma WordLenIs(s: string, k: nat)
    requires k <= |s| && (forall i :: 0 <= i < k ==> Plain(s[i])) && (k < |s| ==> !Plain(s[k]))
    ensures WordLen(s) == k
  {}

  /** What follows a piece starts with a space unless the piece is quoted. */
  lemma AfterWord(ps: seq<Piece>)
    requires Legal(ps) && ps != [] && ps[0].Word?
    ensures Legal(ps[1..]) && (Render(ps[1..]) == [] || Render(ps[1..])[0] == ' ')
  {
    if |ps| > 1 {
      assert ps[1].Space? && ps[1..][0] == ps[1];
    }
  }

  lemma LegalTail(ps: seq<Piece>)
    requires Legal(ps) && ps != []
    ensures Legal(ps[1..]) && Formed(ps[0])
  {}

  lemma SplitApostrophes(t: string, rest: string)
    requires t != [] && '\'' !in t
    ensures Split("'" + t + "'" + rest) == Prepend([t], Split(rest))
  {
    var s := "'" + t + "'" + rest;
    assert s[1..][|t|] == '\'' && forall i :: 0 <= i < |t| ==> s[1..][i] == t[i];
    FindIs(s[1..], '\'', |t|);
    assert s[1..|t| + 1] == t && s[|t| + 2..] == rest;
  }

  lemma SplitQuotes(t: string, rest: string)
    requires t != [] && '\'' !in t && '\"' !in t
    ensures Split("\"" + t + "\"" + rest) == Prepend([t], Split(rest))
  {
    var q := "\"" + t + "\"" + rest;
    assert q[1..][|t|] == '\"' && forall i :: 0 <= i < |t| ==> q[1..][i] == t[i];
    FindIs(q[1..], '\"', |t|);
    assert q[1..|t| + 1] == t && q[|t| + 2..] == rest;
    assert Find(q[1..], '\'') >= |t|;
  }

  lemma SplitWord(t: string, rest: string)
    requires t != [] && (forall i :: 0 <= i < |t| ==> Plain(t[i])) && (rest == [] || rest[0] == ' ')
    ensures Split(t + rest) == Prepend([t], Split(rest))
  {
    var s := t + rest;
    assert s[0] == t[0] && s[1..] == t[1..] + rest;
    var w := t[1..] + rest;
    assert forall i :: 0 <= i < |t| - 1 ==> w[i] == t[i + 1];
    WordLenIs(w, |t| - 1);
    assert [s[0]] + w[..|t| - 1] == t && w[|t| - 1..] == rest;
  }

  /** Every legal list of pieces is parsed to its arguments. */
  lemma {:induction false} ParsesLegal(ps: seq<Piece>)
    requires Legal(ps)
    ensures Split(Render(ps)) == Some(Arguments(ps))
  {
    if ps != [] {
      LegalTail(ps);
      ParsesLegal(ps[1..]);
      var rest := Render(ps[1..]);
      match ps[0]
      case Space =>
        assert Render(ps)[1..] == rest && [] + Arguments(ps[1..]) == Arguments(ps[1..]);
      case Apostrophes(t) =>
        SplitApostrophes(t, rest);
      case Quotes(t) =>
        SplitQuotes(t, rest);
      case Word(t) =>
        AfterWord(ps);
        SplitWord(t, rest);
    }
  }

  lemma LegalCons(p: Piece, qs: seq<Piece>)
    requires Formed(p) && Legal(qs) && (p.Word? && qs != [] ==> qs[0].Space?)
    ensures var ps := [p] + qs;
            && Legal(ps) && Render(ps) == Written(p) + Render(qs)
            && Arguments(ps) == (if p.Space? then [] else [p.text]) + Arguments(qs)
  {
    assert ([p] + qs)[1..] == qs;
  }

  lemma FirstSpace(qs: seq<Piece>)
    requires Legal(qs) && qs != []
    ensures Render(qs) != [] && (Render(qs)[0] == ' ' <==> qs[0].Space?)
  {
    assert Formed(qs[0]);
  }

  /** Whatever is parsed is the text of a legal list of pieces. */
  lemma {:induction false} ParsedIsLegal(s: string) returns (ps: seq<Piece>)
    requires Split(s).Some?
    ensures Legal(ps) && Render(ps) == s && Arguments(ps) == Split(s).value
    decreases |s|
  {
    if s == [] {
      ps := [];
    } else if s[0] == ' ' {
      var qs := ParsedIsLegal(s[1..]);
      LegalCons(Space, qs);
      ps := [Space] + qs;
      assert s == " " + s[1..];
    } else if s[0] == '\'' {
      ps := ApostrophesLegal(s);
    } else if s[0] == '\"' {
      ps := QuotesLegal(s);
    } else {
      ps := WordIsLegal(s);
    }
  }

  /** A string that opens with a quote whose partner stands at k + 1. */
  lemma QuotedParts(s: string, k: nat)
    requires s != [] && k == Find(s[1..], s[0]) && 0 < k < |s| - 1
    ensures var t := s[1..k + 1];
            && t != [] && s[0] !in t && s == [s[0]] + t + [s[0]] + s[k + 2..]
            && (forall c: char :: Find(s[1..], c) >= k ==> c !in t)
  {
    var t := s[1..k + 1];
    assert forall i :: 0 <= i < k ==> t[i] == s[1..][i];
  }

  lemma ApostrophesLegal(s: string) returns (ps: seq<Piece>)
    requires s != [] && s[0] == '\'' && Split(s).Some?
    ensures Legal(ps) && Render(ps) == s && Arguments(ps) == Split(s).value
    decreases |s|, 0
  {
    var k := Find(s[1..], '\'');
    var t, rest := s[1..k + 1], s[k + 2..];
    assert Split(rest).Some? && Split(s).value == [t] + Split(rest).value;
    QuotedParts(s, k);
    var qs := ParsedIsLegal(rest);
    LegalCons(Apostrophes(t), qs);
    ps := [Apostrophes(t)] + qs;
    assert "'" + t + "'" + rest == s;
  }

  lemma QuotesLegal(s: string) returns (ps: seq<Piece>)
    requires s != [] && s[0] == '\"' && Split(s).Some?
    ensures Legal(ps) && Render(ps) == s && Arguments(ps) == Split(s).value
    decreases |s|, 0
  {
    var k := Find(s[1..], '\"');
    var t, rest := s[1..k + 1], s[k + 2..];
    assert Split(rest).Some? && Split(s).value == [t] + Split(rest).value;
    QuotedParts(s, k);
    var qs := ParsedIsLegal(rest);
    LegalCons(Quotes(t), qs);
    ps := [Quotes(t)] + qs;
    assert "\"" + t + "\"" + rest == s;
  }

  lemma WordIsLegal(s: string) returns (ps: seq<Piece>)
    requires s != [] && Plain(s[0]) && Split(s).Some?
    ensures Legal(ps) && Render(ps) == s && Arguments(ps) == Split(s).value
    decreases |s|, 0
  {
    var k := WordLen(s[1..]);
    var t, rest := s[..k + 1], s[k + 1..];
    WordParts(s, k);
    assert Split(s) == Prepend([t], Split(rest));
    var qs := ParsedIsLegal(rest);
    if qs != [] {
      FirstSpace(qs);
    }
    LegalCons(Word(t), qs);
    ps := [Word(t)] + qs;
  }

  lemma WordParts(s: string, k: nat)
    requires s != [] && Plain(s[0]) && k == WordLen(s[1..])
    ensures var t, rest := s[..k + 1], s[k + 1..];
            && Formed(Word(t)) && s == t + rest && [s[0]] + s[1..][..k] == t && s[1..][k..] == rest
            && (rest != [] ==> rest[0] == s[1..][k])
  {
    var t := s[..k + 1];
    assert forall i :: 1 <= i < |t| ==> t[i] == s[1..][i - 1];
  }

  /** The parser accepts exactly the legal texts, and gives their arguments. */
  lemma ExactGrammar(s: string, args: seq<string>)
    ensures Split(s) == Some(args) <==> exists ps :: Legal(ps) && Render(ps) == s && Arguments(ps) == args
  {
    if Split(s) == Some(args) {
      var ps := ParsedIsLegal(s);
    }
    if ps :| Legal(ps) && Render(ps) == s && Arguments(ps) == args {
      ParsesLegal(ps);
    }
  }

  lemma {:induction false} CleanPieces(ps: seq<Piece>)
    requires Legal(ps)
    ensures forall i :: 0 <= i < |Arguments(ps)| ==> Arguments(ps)[i] != [] && '\'' !in Arguments(ps)[i]
  {
    if ps != [] {
      LegalTail(ps);
      CleanPieces(ps[1..]);
    }
  }

  /** Arguments are never empty and never contain an apostrophe. */
  lemma CleanArguments(s: string)
    requires Split(s).Some?
    ensures forall i :: 0 <= i < |Split(s).value| ==> Split(s).value[i] != [] && '\'' !in Split(s).value[i]
  {
    var ps := ParsedIsLegal(s);
    CleanPieces(ps);
  }

  /** Arguments in apostrophes, separated by spaces. */
  function Quoted(args: seq<string>): string {
    if args == [] then []
    else if |args| == 1 then "'" + args[0] + "'"
    else "'" + args[0] + "'" + " " + Quoted(args[1..])
  }

  lemma {:induction false} QuotedRoundTrip(args: seq<string>)
    requires forall i :: 0 <= i < |args| ==> args[i] != [] && '\'' !in args[i]
    ensures Split(Quoted(args)) == Some(args)
  {
    if |args| == 1 {
      SplitApostrophes(args[0], []);
      assert "'" + args[0] + "'" + [] == "'" + args[0] + "'";
      assert [args[0]] + [] == args;
    } else if |args| > 1 {
      var rest := " " + Quoted(args[1..]);
      QuotedRoundTrip(args[1..]);
      SplitApostrophes(args[0], rest);
      assert rest[1..] == Quoted(args[1..]);
      assert "'" + args[0] + "'" + " " + Quoted(args[1..]) == "'" + args[0] + "'" + rest;
      assert Split(rest) == Split(rest[1..]);
      assert [args[0]] + args[1..] == args;
    }
  }

  // ----- The loops -----

  lemma PrependTwice(a: seq<string>, b: seq<string>, r: Option<seq<string>>)
    ensures Prepend(a, Prepend(b, r)) == Prepend(a + b, r)
  {
    if r.Some? {
      assert a + (b + r.value) == a + b + r.value;
    }
  }

  lemma PrependNothing(r: Option<seq<string>>)
    ensures Prepend([], r) == r
  {
    if r.Some? {
      assert [] + r.value == r.value;
    }
  }

  /** The inner loop: copies the characters behind position x up to the closing q. */
  method CopyQuoted(s: string, x: nat, q: char, buffer: array<char>) returns (ok: bool, y: nat, len: nat)
    requires x < |s| && (q == '\'' || q == '\"') && buffer.Length == |s| + 1
    modifies buffer
    ensures ok <==> 0 < Find(s[x + 1..], q) < |s| - x - 1 && !(q == '\"' && Find(s[x + 1..], '\'') < Find(s[x + 1..], q))
    ensures ok ==> len == Find(s[x + 1..], q) && y == x + 1 + len && y < |s| && buffer[..len] == s[x + 1..y]
  {
    ghost var rest := s[x + 1..];
    len, y := 0, x + 1;
    while y < |s|
      invariant x < y <= |s| && len == y - x - 1 < buffer.Length
      invariant forall i :: 0 <= i < len ==> rest[i] != q && (q == '\"' ==> rest[i] != '\'')
      invariant forall i :: 0 <= i < len ==> buffer[i] == s[x + 1 + i]
    {
      assert rest[len] == s[y];
      if s[y] == q {
        FindIs(rest, q, len);
        ok := len > 0;
        assert buffer[..len] == s[x + 1..y];
        return;
      } else if q == '\"' && s[y] == '\'' {
        FindIs(rest, '\'', len);
        ok := false;
        return;
      }
      buffer[len] := s[y];
      len, y := len + 1, y + 1;
    }
    ok := false;
  }

  /** Storing an argument; the array doubles when it is full. */
  method Store(params0: array<string>, cnt: nat, arg: string) returns (params: array<string>)
    requires cnt <= params0.Length && params0.Length > 0
    modifies params0
    ensures cnt < params.Length && params[..cnt + 1] == old(params0[..cnt]) + [arg]
    ensures params == params0 || fresh(params)
  {
    params := params0;
    if cnt == params0.Length {
      params := new string[2 * cnt];
      var i := 0;
      while i < cnt
        invariant 0 <= i <= cnt && params.Length == 2 * cnt && fresh(params)
        invariant params[..i] == old(params0[..i])
        invariant params0[..] == old(params0[..])
      {
        params[i] := params0[i];
        i := i + 1;
      }
    }
    params[cnt] := arg;
  }

  /** What is left to parse when the buffer holds w. */
  function Left(w: string, s: string): Option<seq<string>> {
    if w == [] then Split(s) else Resume(w, s)
  }

  lemma SliceParts(s: string, x: nat, k: nat)
    requires x < |s|
    ensures s[x..][1..] == s[x + 1..]
    ensures k < |s| - x - 1 ==> s[x..][1..k + 1] == s[x + 1..x + 1 + k] && s[x..][k + 2..] == s[x + k + 2..]
  {}

  lemma SplitOpens(r: string, k: nat)
    requires r != [] && (r[0] == '\'' || r[0] == '\"') && k == Find(r[1..], r[0])
    ensures 0 < k < |r| - 1 && !(r[0] == '\"' && Find(r[1..], '\'') < k) ==> Split(r) == Prepend([r[1..k + 1]], Split(r[k + 2..]))
    ensures !(0 < k < |r| - 1 && !(r[0] == '\"' && Find(r[1..], '\'') < k)) ==> Split(r).None?
  {}

  lemma LeftPlain(w: string, s: string, x: nat)
    requires x < |s| && Plain(s[x])
    ensures Left(w, s[x..]) == Resume(w + [s[x]], s[x + 1..])
  {
    var r := s[x..];
    assert r[1..] == s[x + 1..];
    if w == [] {
      assert w + [s[x]] == [s[x]];
    } else {
      var k := WordLen(r[1..]);
      assert WordLen(r) == k + 1;
      assert w + r[..k + 1] == w + [s[x]] + r[1..][..k] && r[k + 1..] == r[1..][k..];
    }
  }

  lemma LeftSpace(w: string, s: string, x: nat)
    requires x < |s| && s[x] == ' '
    ensures Left(w, s[x..]) == if w == [] then Split(s[x + 1..]) else Prepend([w], Split(s[x + 1..]))
  {
    var r := s[x..];
    assert r[1..] == s[x + 1..];
    if w != [] {
      assert WordLen(r) == 0 && w + r[..0] == w && r[0..] == r;
      assert Split(r) == Split(r[1..]);
    }
  }

  /** What is left after a turn that ended at x with w in the buffer, to be added or not. */
  function Onward(w: string, s: string, x: nat, add: bool): Option<seq<string>>
    requires x < |s|
  {
    if add then Prepend([w], Split(s[x + 1..])) else Left(w, s[x + 1..])
  }

  /** An opening apostrophe or quote at x0, with nothing in the buffer. */
  method TurnQuoted(s: string, x0: nat, buffer: array<char>) returns (ok: bool, x: nat, len: nat)
    requires x0 < |s| && (s[x0] == '\'' || s[x0] == '\"') && buffer.Length == |s| + 1
    modifies buffer
    ensures !ok ==> Split(s[x0..]).None?
    ensures ok ==> x0 < x < |s| && len <= x && Split(s[x0..]) == Onward(buffer[..len], s, x, true)
  {
    ghost var k := Find(s[x0 + 1..], s[x0]);
    SliceParts(s, x0, k);
    SplitOpens(s[x0..], k);
    ok, x, len := CopyQuoted(s, x0, s[x0], buffer);
  }

  /** One turn of the outer loop at character x0, with len0 characters in the buffer: it fails, or goes on to x
      with or without an argument to add. */
  method Turn(s: string, x0: nat, len0: nat, buffer: array<char>) returns (ok: bool, x: nat, len: nat, add: bool)
    requires len0 <= x0 < |s| && buffer.Length == |s| + 1
    modifies buffer
    ensures !ok ==> Left(old(buffer[..len0]), s[x0..]).None?
    ensures ok ==> x0 <= x < |s| && len <= x + 1 && (x == |s| - 1 && !add ==> len == 0)
    ensures ok ==> Left(old(buffer[..len0]), s[x0..]) == Onward(buffer[..len], s, x, add)
  {
    ok, x, len, add := true, x0, len0, false;
    ghost var w := buffer[..len0];
    if s[x] == '\'' || s[x] == '\"' {
      if len > 0 {
        assert WordLen(s[x..]) == 0;
        ok := false;
      } else {
        add := true;
        ok, x, len := TurnQuoted(s, x, buffer);
      }
    } else if s[x] == ' ' {
      LeftSpace(w, s, x);
      add := len > 0;
    } else {
      LeftPlain(w, s, x);
      buffer[len] := s[x];
      len := len + 1;
      assert buffer[..len] == w + [s[x]];
      if x == |s| - 1 {
        add := true;
        LeftEnd(buffer[..len], s);
      }
    }
  }

  lemma LeftEnd(w: string, s: string)
    requires s != [] && w != []
    ensures Resume(w, s[|s|..]) == Onward(w, s, |s| - 1, true)
  {
    assert s[|s|..] == [] && w + [] == w;
  }

  method ParseParams(s: string) returns (r: Option<seq<string>>)
    ensures r == Split(s)
  {
    var params := new string[5];
    var buffer := new char[|s| + 1];
    var cnt, len, x: nat := 0, 0, 0;
    assert s[0..] == s && params[..0] == [] && buffer[..0] == [];
    PrependNothing(Split(s));
    while x < |s|
      invariant 0 <= len <= x <= |s| && cnt <= params.Length && params.Length > 0 && buffer.Length == |s| + 1
      invariant fresh(params) && fresh(buffer)
      invariant Split(s) == Prepend(params[..cnt], Left(buffer[..len], s[x..]))
      invariant x == |s| ==> len == 0
    {
      var ok, add;
      ok, x, len, add := Turn(s, x, len, buffer);
      if !ok {
        return None;
      }
      if add {
        PrependTwice(params[..cnt], [buffer[..len]], Split(s[x + 1..]));
        params := Store(params, cnt, buffer[..len]);
        cnt, len := cnt + 1, 0;
        assert buffer[..0] == [];
      }
      x := x + 1;
    }
    assert s[x..] == [] && params[..cnt] + [] == params[..cnt];
    r := Some(params[..cnt]);
  }
}
