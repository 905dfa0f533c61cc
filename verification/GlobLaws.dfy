/** What a pattern denotes, read off its text: a law for every piece of syntax, and one for putting pieces together. */
module GlobLaws {
  import opened Prelude
  import opened Regexp
  import opened GlobPattern
  import opened GlobCompiler
  import opened GlobLexing
  import opened GlobMeaning

  // ---- the scanner on a concatenation --------------------------------------------------------

  lemma {:induction false} FindShift(a: string, b: string, j: nat)
    requires j <= |b|
    ensures FindBracket(a + b, |a| + j) == |a| + FindBracket(b, j)
    decreases |b| - j
  {
    if j < |b| && b[j] != ']' { FindShift(a, b, j + 1); }
  }

  lemma {:induction false} StarsShift(a: string, b: string, j: nat)
    requires j <= |b|
    ensures StarsEnd(a + b, |a| + j) == |a| + StarsEnd(b, j)
    decreases |b| - j
  {
    if j < |b| && b[j] == '*' { StarsShift(a, b, j + 1); }
  }

  function Later(n: nat, r: Option<(Token, nat)>): Option<(Token, nat)> {
    match r case None => None case Some((t, k)) => Some((t, n + k))
  }

  lemma {:induction false} TokenShift(a: string, b: string, i: nat)
    requires i < |b|
    ensures NextToken(a + b, |a| + i) == Later(|a|, NextToken(b, i))
  {
    var p := a + b;
    assert forall m :: 0 <= m < |b| ==> p[|a| + m] == b[m];
    match b[i]
    case '*' => if i + 1 < |b| { StarsShift(a, b, i + 1); }
    case '[' => BracketShift(a, b, i);
    case _ =>
  }

  lemma {:induction false} BracketShift(a: string, b: string, i: nat)
    requires i < |b| && b[i] == '['
    ensures NextToken(a + b, |a| + i) == Later(|a|, NextToken(b, i))
  {
    var p, j := a + b, BodyScanStart(b, i);
    StartShift(a, b, i);
    FindShift(a, b, j);
    var k := FindBracket(b, j);
    ClassToken(b, i);
    ClassToken(p, |a| + i);
    hide NextToken, FindBracket, BodyScanStart;
    assert p[|a| + i] == b[i];
    if k < |b| { SliceShift(a, b, i + 1, k); }
  }

  lemma {:induction false} SliceShift(a: string, b: string, i: nat, k: nat)
    requires i <= k <= |b|
    ensures (a + b)[|a| + i..|a| + k] == b[i..k]
  {}

  lemma {:induction false} StartShift(a: string, b: string, i: nat)
    requires i < |b|
    ensures BodyScanStart(a + b, |a| + i) == |a| + BodyScanStart(b, i)
  {
    assert forall m :: 0 <= m < |b| ==> (a + b)[|a| + m] == b[m];
  }

  /** The tokens of a text do not depend on what stands before it. */
  lemma {:induction false} ScanShift(a: string, b: string, i: nat)
    requires i <= |b|
    ensures ScanFrom(a + b, |a| + i) == ScanFrom(b, i)
    decreases |b| - i
  {
    if i < |b| {
      TokenShift(a, b, i);
      hide NextToken;
      if NextToken(b, i).Some? { ScanShift(a, b, NextToken(b, i).value.1); }
    }
  }

  // ---- the first token of a text --------------------------------------------------------------

  lemma {:induction false} AfterFirst(a: string, p: string, t: Token)
    requires a != "" && NextToken(a + p, 0) == Some((t, |a|))
    ensures ScanFrom(a + p, 0) == Scan(Cons(t, ScanFrom(p, 0).tokens), ScanFrom(p, 0).closed)
  {
    hide NextToken;
    ScanShift(a, p, 0);
  }

  /** A text that starts with a token that is no brace denotes what the token's item does before the rest. */
  lemma {:induction false} FirstToken(a: string, p: string, t: Token, s: string)
    requires a != "" && NextToken(a + p, 0) == Some((t, |a|)) && t != Open && t != Close
    ensures PatternDenotes(a + p, s) <==>
            !Descends(t) && exists k: nat :: k <= |s| && ItemDenotes(ItemOf(t), s[..k]) && PatternDenotes(p, s[k..])
  {
    AfterFirst(a, p, t);
    ItemTree(t, ScanFrom(p, 0).tokens, false);
    hide NextToken, ScanFrom, ItemDenotes, ParseGlob;
    if !Descends(t) { ItemBefore(a + p, p, ItemOf(t), s); }
  }

  /** A text whose tree is an item before the tree of `p`. */
  lemma {:induction false} ItemBefore(q: string, p: string, h: Item, s: string)
    requires ScanFrom(q, 0).closed == ScanFrom(p, 0).closed
    requires ParseGlob(ScanFrom(q, 0).tokens, false) == Prepend(h, ParseGlob(ScanFrom(p, 0).tokens, false))
    ensures PatternDenotes(q, s) <==>
            exists k: nat :: k <= |s| && ItemDenotes(h, s[..k]) && PatternDenotes(p, s[k..])
  {
    hide ScanFrom, ParseGlob, ItemDenotes;
    if PatternDenotes(q, s) {
      var k := SplitThen(h, ParseGlob(ScanFrom(p, 0).tokens, false).value.0, s);
      assert PatternDenotes(p, s[k..]);
    }
    if k: nat :| k <= |s| && ItemDenotes(h, s[..k]) && PatternDenotes(p, s[k..]) {
      assert Denotes(Then(h, ParseGlob(ScanFrom(p, 0).tokens, false).value.0), s);
    }
  }

  /** A token that stands for exactly one character. */
  lemma {:induction false} FirstCharacter(a: string, p: string, t: Token, s: string, ok: char -> bool)
    requires a != "" && NextToken(a + p, 0) == Some((t, |a|)) && t != Open && t != Close && !Descends(t)
    requires forall u: string :: ItemDenotes(ItemOf(t), u) <==> |u| == 1 && ok(u[0])
    ensures PatternDenotes(a + p, s) <==> s != "" && ok(s[0]) && PatternDenotes(p, s[1..])
  {
    FirstToken(a, p, t, s);
    hide NextToken, ItemDenotes, PatternDenotes, ItemOf, Descends;
    if s != "" && ok(s[0]) && PatternDenotes(p, s[1..]) {
      assert |s[..1]| == 1 && s[..1][0] == s[0];
      assert ItemDenotes(ItemOf(t), s[..1]);
    }
  }

  // ---- the laws -------------------------------------------------------------------------------

  lemma {:induction false} EmptyMeans(s: string)
    ensures PatternDenotes("", s) <==> s == ""
  {
    assert ScanFrom("", 0) == Scan(Nil, true);
  }

  /** `?` is one character that is no separator. */
  lemma {:induction false} QuestionMeans(p: string, s: string)
    ensures PatternDenotes("?" + p, s) <==> s != "" && s[0] != '.' && s[0] != '/' && PatternDenotes(p, s[1..])
  {
    FirstCharacter("?", p, One, s, c => c != '.' && c != '/');
  }

  /** A character without a meaning of its own is itself. */
  lemma {:induction false} CharacterMeans(c: char, p: string, s: string)
    requires c !in "*?[{},\\"
    ensures PatternDenotes([c] + p, s) <==> s != "" && s[0] == c && PatternDenotes(p, s[1..])
  {
    assert ([c] + p)[0] == c;
    FirstCharacter([c], p, Lit(c), s, d => d == c);
  }

  /** So is a comma outside braces. */
  lemma {:induction false} CommaMeans(p: string, s: string)
    ensures PatternDenotes("," + p, s) <==> s != "" && s[0] == ',' && PatternDenotes(p, s[1..])
  {
    FirstCharacter(",", p, Comma, s, d => d == ',');
  }

  /** And any character after a backslash. */
  lemma {:induction false} QuotedMeans(c: char, p: string, s: string)
    ensures PatternDenotes(['\\', c] + p, s) <==> s != "" && s[0] == c && PatternDenotes(p, s[1..])
  {
    var q := ['\\', c] + p;
    assert q[0] == '\\' && q[1] == c;
    FirstCharacter(['\\', c], p, Lit(c), s, d => d == c);
  }

  /** A backslash that quotes nothing is itself. */
  lemma {:induction false} LoneBackslashMeans(s: string)
    ensures PatternDenotes("\\", s) <==> s == "\\"
  {
    assert "\\" + "" == "\\";
    FirstCharacter("\\", "", Lit('\\'), s, d => d == '\\');
    if s != "" { EmptyMeans(s[1..]); }
  }

  predicate StartsWithStar(p: string) {
    p != "" && p[0] == '*'
  }

  /** `*` is any run of characters that are no separators. */
  lemma {:induction false} StarMeans(p: string, s: string)
    requires !StartsWithStar(p)
    ensures PatternDenotes("*" + p, s) <==>
            exists k: nat :: k <= |s| && '.' !in s[..k] && '/' !in s[..k] && PatternDenotes(p, s[k..])
  {
    var q := "*" + p;
    assert p != "" ==> q[1] == p[0];
    FirstToken("*", p, Star, s);
    hide NextToken, PatternDenotes;
    forall k: nat | k <= |s|
      ensures ItemDenotes(Run, s[..k]) <==> '.' !in s[..k] && '/' !in s[..k]
    {
      RunMeans(s[..k]);
    }
  }

  lemma {:induction false} RunMeans(u: string)
    ensures ItemDenotes(Run, u) <==> '.' !in u && '/' !in u
  {}

  /** Two stars or more are any run of characters but line feeds. */
  lemma {:induction false} StarsMean(stars: string, p: string, s: string)
    requires |stars| >= 2 && (forall i :: 0 <= i < |stars| ==> stars[i] == '*') && !StartsWithStar(p)
    ensures PatternDenotes(stars + p, s) <==>
            exists k: nat :: k <= |s| && '\n' !in s[..k] && PatternDenotes(p, s[k..])
  {
    var q := stars + p;
    assert forall i :: 0 <= i < |stars| ==> q[i] == '*';
    assert p != "" ==> q[|stars|] == p[0];
    var e := StarsEnd(q, 1);
    assert e == |stars|;
    FirstToken(stars, p, DoubleStar, s);
    hide NextToken, PatternDenotes;
    forall k: nat | k <= |s|
      ensures ItemDenotes(AnyRun, s[..k]) <==> '\n' !in s[..k]
    {
      AnyRunMeans(s[..k]);
    }
  }

  lemma {:induction false} AnyRunMeans(u: string)
    ensures ItemDenotes(AnyRun, u) <==> '\n' !in u
  {}

  // ---- classes --------------------------------------------------------------------------------

  /** `c` is a character of the class body or lies in one of its ranges. */
  predicate Member(body: string, c: char) {
    if |body| >= 3 && body[1] == '-' then body[0] <= c <= body[2] || Member(body[3..], c)
    else body != "" && (c == body[0] || Member(body[1..], c))
  }

  /** No range of the class body runs backwards. */
  predicate Forwards(body: string) {
    if |body| >= 3 && body[1] == '-' then body[0] <= body[2] && Forwards(body[3..])
    else body != "" ==> Forwards(body[1..])
  }

  lemma {:induction false} InFirst(r: Range, rs: seq<Range>, c: char)
    ensures InRanges([r] + rs, c) <==> r.lo <= c <= r.hi || InRanges(rs, c)
  {
    var all := [r] + rs;
    assert all[0] == r && forall i :: 0 <= i < |rs| ==> all[i + 1] == rs[i];
    if InRanges(all, c) && !(r.lo <= c <= r.hi) {
      var i :| 0 <= i < |all| && all[i].lo <= c <= all[i].hi;
      assert all[i] == rs[i - 1];
    }
  }

  lemma {:induction false} BodyMeans(body: string, c: char)
    ensures BodyRanges(body).Some? <==> Forwards(body)
    ensures Forwards(body) ==> (InRanges(BodyRanges(body).value, c) <==> Member(body, c))
  {
    hide InRanges;
    if body == "" {
      NothingIn(c);
    } else if |body| >= 3 && body[1] == '-' {
      BodyMeans(body[3..], c);
      if Forwards(body) { InFirst(Range(body[0], body[2]), BodyRanges(body[3..]).value, c); }
    } else {
      BodyMeans(body[1..], c);
      if Forwards(body) { InFirst(Range(body[0], body[0]), BodyRanges(body[1..]).value, c); }
    }
  }

  lemma {:induction false} NothingIn(c: char)
    ensures !InRanges([], c)
  {}

  /** A class, negated by `!` or `^`, is one character: `]` may be its first member. */
  lemma {:induction false} ClassMeans(mark: string, body: string, p: string, s: string)
    requires mark == "" || mark == "!" || mark == "^"
    requires body != "" && ']' !in body[1..] && (mark == "" ==> body[0] != '!' && body[0] != '^')
    ensures PatternDenotes("[" + mark + body + "]" + p, s) <==>
            && Forwards(body)
            && s != "" && (mark == "" <==> Member(body, s[0])) && PatternDenotes(p, s[1..])
  {
    ClassFirst(mark, body, p);
    TokenClass("[" + mark + body + "]", mark + body, p, s);
  }

  lemma {:induction false} TokenClass(a: string, text: string, p: string, s: string)
    requires a != "" && NextToken(a + p, 0) == Some((Bracket(text), |a|))
    ensures PatternDenotes(a + p, s) <==>
            && Forwards(Body(text))
            && s != "" && (!IsNegated(text) <==> Member(Body(text), s[0])) && PatternDenotes(p, s[1..])
  {
    hide NextToken, PatternDenotes, Body, IsNegated, InRanges, BodyRanges, Forwards, Member;
    var body := Body(text);
    BodyMeans(body, 'a');
    FirstToken(a, p, Bracket(text), s);
    if Forwards(body) {
      forall c: char ensures InRanges(BodyRanges(body).value, c) <==> Member(body, c) { BodyMeans(body, c); }
      FirstCharacter(a, p, Bracket(text), s, c => !IsNegated(text) <==> Member(body, c));
    }
  }

  lemma {:induction false} ClassFirst(mark: string, body: string, p: string)
    requires mark == "" || mark == "!" || mark == "^"
    requires body != "" && ']' !in body[1..] && (mark == "" ==> body[0] != '!' && body[0] != '^')
    ensures var text, a := mark + body, "[" + mark + body + "]";
            && IsNegated(text) == (mark != "") && Body(text) == body
            && NextToken(a + p, 0) == Some((Bracket(text), |a|))
  {
    ClassParts(mark, body);
    ClassScanned(mark, body, p);
    ClassPieces(mark, body, p);
    hide IsNegated, Body;
    BracketToken("[" + mark + body + "]" + p, mark + body);
  }

  lemma {:induction false} ClassPieces(mark: string, body: string, p: string)
    ensures var text, a := mark + body, "[" + mark + body + "]";
            |a| == |text| + 2 && (a + p)[1..1 + |text|] == text
  {
    assert "[" + mark + body + "]" + p == "[" + (mark + body) + ("]" + p);
    Middle("[", mark + body, "]" + p);
  }

  lemma {:induction false} BracketToken(q: string, text: string)
    requires |q| >= |text| + 2 && q[0] == '[' && q[1..1 + |text|] == text
    requires FindBracket(q, BodyScanStart(q, 0)) == 1 + |text|
    ensures NextToken(q, 0) == Some((Bracket(text), |text| + 2))
  {
    ClassToken(q, 0);
  }

  lemma {:induction false} ClassParts(mark: string, body: string)
    requires mark == "" || mark == "!" || mark == "^"
    requires body != "" && (mark == "" ==> body[0] != '!' && body[0] != '^')
    ensures IsNegated(mark + body) == (mark != "") && Body(mark + body) == body
  {
    if mark == "" {
      assert mark + body == body;
    } else {
      assert (mark + body)[0] == mark[0] && (mark + body)[1..] == body;
    }
  }

  lemma {:induction false} Middle(a: string, b: string, c: string)
    ensures (a + b + c)[|a|..|a| + |b|] == b
  {}

  lemma {:induction false} ClassScanned(mark: string, body: string, p: string)
    requires mark == "" || mark == "!" || mark == "^"
    requires body != "" && ']' !in body[1..] && (mark == "" ==> body[0] != '!' && body[0] != '^')
    ensures var q := "[" + mark + body + "]" + p;
            q[0] == '[' && FindBracket(q, BodyScanStart(q, 0)) == 1 + |mark + body|
  {
    var q, n := "[" + mark + body + "]" + p, |mark|;
    assert forall i :: 0 <= i < |body| ==> q[1 + n + i] == body[i];
    assert forall i :: 1 <= i < |body| ==> body[i] == body[1..][i - 1];
    if n == 1 { assert q[1] == mark[0]; }
    assert q[1 + n + |body|] == ']';
    assert BodyScanStart(q, 0) == if body[0] == ']' then 2 + n else 1 + n;
  }

  // ---- braces -----------------------------------------------------------------------------------

  function Append<T>(xs: List<T>, ys: List<T>): List<T> {
    match xs case Nil => ys case Cons(x, rest) => Cons(x, Append(rest, ys))
  }

  /** From `i` on every class is closed and every backslash quotes something, so that what follows the text does not
      change how it is read. */
  predicate Whole(p: string, i: nat)
    requires i <= |p|
    decreases |p| - i
  {
    i < |p| ==>
      NextToken(p, i).Some? && !(p[i] == '\\' && i + 1 == |p|) && Whole(p, NextToken(p, i).value.1)
  }

  lemma {:induction false} StarsStay(a: string, b: string, j: nat)
    requires j <= |a| && !StartsWithStar(b)
    ensures StarsEnd(a + b, j) == StarsEnd(a, j)
    decreases |a| - j
  {
    if j < |a| && a[j] == '*' { StarsStay(a, b, j + 1); }
  }

  lemma {:induction false} FindStays(a: string, b: string, j: nat)
    requires j <= |a| && FindBracket(a, j) < |a|
    ensures FindBracket(a + b, j) == FindBracket(a, j)
    decreases |a| - j
  {
    if a[j] != ']' { FindStays(a, b, j + 1); }
  }

  lemma {:induction false} BracketStays(a: string, b: string, i: nat)
    requires i < |a| && a[i] == '[' && NextToken(a, i).Some?
    ensures NextToken(a + b, i) == NextToken(a, i)
  {
    var p, j := a + b, BodyScanStart(a, i);
    ClassToken(a, i);
    ClassToken(p, i);
    var k := FindBracket(a, j);
    assert forall m :: 0 <= m < |a| ==> p[m] == a[m];
    assert BodyScanStart(p, i) == j;
    FindStays(a, b, j);
    assert p[i + 1..k] == a[i + 1..k];
  }

  lemma {:induction false} TokenStays(a: string, b: string, i: nat)
    requires i < |a| && NextToken(a, i).Some? && !(a[i] == '\\' && i + 1 == |a|) && !StartsWithStar(b)
    ensures NextToken(a + b, i) == NextToken(a, i)
  {
    var p := a + b;
    assert forall m :: 0 <= m < |a| ==> p[m] == a[m];
    assert i + 1 == |a| && b != "" ==> p[i + 1] == b[0];
    match a[i]
    case '*' => StarsStay(a, b, i + 1);
    case '[' => BracketStays(a, b, i);
    case _ =>
  }

  /** The tokens of two texts, one after the other. */
  lemma {:induction false} ScanBoth(a: string, b: string, i: nat)
    requires i <= |a| && Whole(a, i) && !StartsWithStar(b)
    ensures ScanFrom(a, i).closed
    ensures ScanFrom(a + b, i)
         == Scan(Append(ScanFrom(a, i).tokens, ScanFrom(b, 0).tokens), ScanFrom(b, 0).closed)
    decreases |a| - i
  {
    if i == |a| {
      ScanShift(a, b, 0);
    } else {
      TokenStays(a, b, i);
      hide NextToken;
      ScanBoth(a, b, NextToken(a, i).value.1);
    }
  }

  /** No comma outside the braces of the text itself, at depth `d`. */
  predicate NoComma(ts: List<Token>, d: int) {
    ts.Cons? ==> (ts.head == Comma ==> d > 0) && NoComma(ts.tail, d + Delta(ts.head))
  }

  /** A well-formed pattern that can stand between commas inside braces. */
  predicate Alternative(a: string) {
    Whole(a, 0) && WellFormed(a) && NoComma(ScanFrom(a, 0).tokens, 0)
  }

  /** Text after an alternative or a group does not change how it is parsed. */
  lemma {:induction false} GlobStays(ts: List<Token>, x: List<Token>)
    requires x.Cons? && (x.head == Close || x.head == Comma)
    requires ParseGlob(ts, true).Some?
    ensures var (g, rest) := ParseGlob(ts, true).value;
            ParseGlob(Append(ts, x), true) == Some((g, Append(rest, x)))
    decreases Length(ts), 0
  {
    match ts
    case Nil =>
    case Cons(Close, _) =>
    case Cons(Comma, _) =>
    case Cons(Open, us) => ChoicesStay(us, x); GlobStays(ParseChoices(us).value.1, x);
    case Cons(_, us) => GlobStays(us, x);
  }

  lemma {:induction false} ChoicesStay(ts: List<Token>, x: List<Token>)
    requires ParseChoices(ts).Some?
    requires x.Cons? && (x.head == Close || x.head == Comma)
    ensures var (alts, rest) := ParseChoices(ts).value;
            ParseChoices(Append(ts, x)) == Some((alts, Append(rest, x)))
    decreases Length(ts), 1
  {
    GlobStays(ts, x);
    match ParseGlob(ts, true)
    case Some((g, Cons(Comma, rest))) => ChoicesStay(rest, x);
    case _ =>
  }

  /** Without a comma of its own a well-formed pattern reads the same inside braces. */
  lemma {:induction false} SameInside(ts: List<Token>)
    requires NoComma(ts, 0) && ParseGlob(ts, false).Some?
    ensures ParseGlob(ts, true) == ParseGlob(ts, false) && ParseGlob(ts, false).value.1 == Nil
    decreases Length(ts)
  {
    match ts
    case Nil =>
    case Cons(Close, _) =>
    case Cons(Comma, _) =>
    case Cons(Open, us) =>
      ChoicesNoComma(us, 1);
      SameInside(ParseChoices(us).value.1);
    case Cons(_, us) => SameInside(us);
  }

  lemma {:induction false} NestedNoComma(ts: List<Token>, d: int)
    requires d > 0 && NoComma(ts, d) && ParseGlob(ts, true).Some?
    ensures NoComma(ParseGlob(ts, true).value.1, d)
    decreases Length(ts), 0
  {
    match ts
    case Nil =>
    case Cons(Close, _) =>
    case Cons(Comma, _) =>
    case Cons(Open, us) => ChoicesNoComma(us, d + 1); NestedNoComma(ParseChoices(us).value.1, d);
    case Cons(_, us) => NestedNoComma(us, d);
  }

  lemma {:induction false} ChoicesNoComma(ts: List<Token>, d: int)
    requires d > 0 && NoComma(ts, d) && ParseChoices(ts).Some?
    ensures NoComma(ParseChoices(ts).value.1, d - 1)
    decreases Length(ts), 1
  {
    NestedNoComma(ts, d);
    match ParseGlob(ts, true)
    case Some((g, Cons(Comma, rest))) => ChoicesNoComma(rest, d);
    case _ =>
  }

  /** The tree of an alternative. */
  ghost function Tree(a: string): Glob
    requires Alternative(a)
  {
    ParseTopIff(ScanFrom(a, 0).tokens);
    ParseGlob(ScanFrom(a, 0).tokens, false).value.0
  }

  lemma {:induction false} TreeMeans(a: string, s: string)
    requires Alternative(a)
    ensures PatternDenotes(a, s) <==> Denotes(Tree(a), s)
    ensures ParseGlob(ScanFrom(a, 0).tokens, true) == Some((Tree(a), Nil))
  {
    ParseTopIff(ScanFrom(a, 0).tokens);
    SameInside(ScanFrom(a, 0).tokens);
  }

  /** The alternatives with commas between them. */
  function Join(alts: seq<string>): string
    requires alts != []
  {
    if |alts| == 1 then alts[0] else alts[0] + ("," + Join(alts[1..]))
  }

  predicate Alternatives(alts: seq<string>) {
    alts != [] && forall a :: a in alts ==> Alternative(a)
  }

  lemma {:induction false} RestAlternatives(alts: seq<string>)
    requires Alternatives(alts)
    ensures Alternative(alts[0]) && (|alts| > 1 ==> Alternatives(alts[1..]))
  {
    hide Alternative;
    assert alts[0] in alts;
  }

  lemma {:induction false} JoinThen(alts: seq<string>, p: string)
    requires |alts| > 1
    ensures Join(alts) + p == alts[0] + ("," + (Join(alts[1..]) + p))
  {
    var rest := Join(alts[1..]);
    assert Join(alts) == alts[0] + ("," + rest);
  }

  ghost function Trees(alts: seq<string>): Alts
    requires Alternatives(alts)
  {
    RestAlternatives(alts);
    if |alts| == 1 then Last(Tree(alts[0])) else Or(Tree(alts[0]), Trees(alts[1..]))
  }

  lemma {:induction false} TreesMean(alts: seq<string>, s: string)
    requires Alternatives(alts)
    ensures AltsDenote(Trees(alts), s) <==> exists a :: a in alts && PatternDenotes(a, s)
    decreases |alts|
  {
    RestAlternatives(alts);
    hide PatternDenotes, Alternative, Alternatives, Tree, Denotes;
    TreeMeans(alts[0], s);
    if |alts| > 1 {
      TreesMean(alts[1..], s);
      if a :| a in alts && PatternDenotes(a, s) { assert a == alts[0] || a in alts[1..]; }
    }
  }

  lemma {:induction false} TokenAlone(c: char, t: Token, p: string)
    requires (c == ',' && t == Comma) || (c == '{' && t == Open) || (c == '}' && t == Close)
    ensures ScanFrom([c] + p, 0) == Scan(Cons(t, ScanFrom(p, 0).tokens), ScanFrom(p, 0).closed)
  {
    assert ([c] + p)[0] == c;
    AfterFirst([c], p, t);
  }

  /** What follows `{`, up to the matching `}`, is parsed into the trees of the alternatives. */
  lemma {:induction false} JoinParses(alts: seq<string>, p: string)
    requires Alternatives(alts)
    ensures var sc := ScanFrom(Join(alts) + ("}" + p), 0);
            && sc.closed == ScanFrom(p, 0).closed
            && ParseChoices(sc.tokens) == Some((Trees(alts), ScanFrom(p, 0).tokens))
    decreases |alts|
  {
    RestAlternatives(alts);
    hide ScanFrom, ParseChoices, Alternative, Alternatives, Tree;
    if |alts| == 1 {
      LastThen(alts[0], p);
    } else {
      JoinParses(alts[1..], p);
      JoinThen(alts, "}" + p);
      NextThen(alts[0], Join(alts[1..]) + ("}" + p));
    }
  }

  lemma {:induction false} LastThen(a: string, p: string)
    requires Alternative(a)
    ensures var sc := ScanFrom(a + ("}" + p), 0);
            && sc.closed == ScanFrom(p, 0).closed
            && ParseChoices(sc.tokens) == Some((Last(Tree(a)), ScanFrom(p, 0).tokens))
  {
    TokenAlone('}', Close, p);
    hide ScanFrom, Alternative, ParseGlob, Tree;
    AlternativeThen(a, "}" + p);
  }

  lemma {:induction false} NextThen(a: string, more: string)
    requires Alternative(a) && ParseChoices(ScanFrom(more, 0).tokens).Some?
    ensures var sc := ScanFrom(a + ("," + more), 0);
            var (alts, rest) := ParseChoices(ScanFrom(more, 0).tokens).value;
            && sc.closed == ScanFrom(more, 0).closed
            && ParseChoices(sc.tokens) == Some((Or(Tree(a), alts), rest))
  {
    TokenAlone(',', Comma, more);
    hide ScanFrom, Alternative, ParseGlob, Tree;
    AlternativeThen(a, "," + more);
  }

  lemma {:induction false} AlternativeThen(a: string, b: string)
    requires Alternative(a) && b != "" && (b[0] == ',' || b[0] == '}')
    requires ScanFrom(b, 0).tokens.Cons?
    requires ScanFrom(b, 0).tokens.head == if b[0] == ',' then Comma else Close
    ensures ScanFrom(a + b, 0).closed == ScanFrom(b, 0).closed
    ensures ParseGlob(ScanFrom(a + b, 0).tokens, true) == Some((Tree(a), ScanFrom(b, 0).tokens))
  {
    TreeMeans(a, "");
    ScanBoth(a, b, 0);
    hide ScanFrom, ParseGlob, WellFormed, Whole;
    GlobStays(ScanFrom(a, 0).tokens, ScanFrom(b, 0).tokens);
  }

  /** Braces are one of their alternatives. */
  lemma {:induction false} BracesMean(alts: seq<string>, p: string, s: string)
    requires Alternatives(alts)
    ensures PatternDenotes("{" + Join(alts) + "}" + p, s) <==>
            exists k: nat, a :: k <= |s| && a in alts && PatternDenotes(a, s[..k]) && PatternDenotes(p, s[k..])
  {
    var inner := Join(alts) + ("}" + p);
    assert "{" + Join(alts) + "}" + p == "{" + inner;
    JoinParses(alts, p);
    TokenAlone('{', Open, inner);
    GroupTree(ScanFrom(inner, 0).tokens, false);
    forall k: nat | k <= |s|
      ensures ItemDenotes(Choice(Trees(alts)), s[..k]) <==> exists a :: a in alts && PatternDenotes(a, s[..k])
    {
      TreesMean(alts, s[..k]);
    }
    hide ScanFrom, ParseGlob, ParseChoices, Alternatives, Trees, Join;
    ItemBefore("{" + inner, p, Choice(Trees(alts)), s);
  }

  // ---- what is refused -------------------------------------------------------------------------

  /** A class that no `]` closes, other than one as its first member. */
  lemma {:induction false} UnclosedClass(mark: string, body: string)
    requires mark == "" || mark == "!" || mark == "^"
    requires body != "" ==> ']' !in body[1..] && (mark == "" ==> body[0] != '!' && body[0] != '^')
    ensures CompileSpec("[" + mark + body) == Err(UnterminatedClass)
  {
    var q, n := "[" + mark + body, |mark|;
    assert forall i :: 0 <= i < |body| ==> q[1 + n + i] == body[i];
    assert forall i :: 1 <= i < |body| ==> body[i] == body[1..][i - 1];
    if n == 1 { assert q[1] == mark[0]; }
    assert body != "" ==> BodyScanStart(q, 0) == if body[0] == ']' then 2 + n else 1 + n;
    assert FindBracket(q, BodyScanStart(q, 0)) == |q|;
    ClassToken(q, 0);
    assert ScanFrom(q, 0) == Scan(Nil, false);
  }

  /** A `}` that nothing opened. */
  lemma {:induction false} UnopenedBrace(p: string)
    ensures CompileSpec("}" + p) == Err(UnmatchedClose)
  {
    TokenAlone('}', Close, p);
  }

  /** A `{` that nothing closes. */
  lemma {:induction false} UnclosedBrace(alts: seq<string>)
    requires Alternatives(alts)
    ensures CompileSpec("{" + Join(alts)) == Err(UnmatchedOpen)
  {
    TokenAlone('{', Open, Join(alts));
    JoinCloses(alts, 1);
    hide ScanFrom, Alternatives;
  }

  lemma {:induction false} JoinCloses(alts: seq<string>, d: int)
    requires Alternatives(alts) && d > 0
    ensures var sc := ScanFrom(Join(alts), 0);
            sc.closed && !Closes(sc.tokens, d) && !Underflows(sc.tokens, d)
    decreases |alts|
  {
    RestAlternatives(alts);
    hide Alternatives, Alternative;
    if |alts| == 1 {
      assert alts[0] + "" == alts[0];
      assert ScanFrom("", 0) == Scan(Nil, true);
      OneCloses(alts[0], "", d);
    } else {
      JoinCloses(alts[1..], d);
      TokenAlone(',', Comma, Join(alts[1..]));
      OneCloses(alts[0], "," + Join(alts[1..]), d);
    }
  }

  lemma {:induction false} OneCloses(a: string, b: string, d: int)
    requires Alternative(a) && !StartsWithStar(b) && d > 0
    requires var sc := ScanFrom(b, 0); sc.closed && !Closes(sc.tokens, d) && !Underflows(sc.tokens, d)
    ensures var sc := ScanFrom(a + b, 0); sc.closed && !Closes(sc.tokens, d) && !Underflows(sc.tokens, d)
  {
    ScanBoth(a, b, 0);
    hide ScanFrom, Whole;
    ClosesThen(ScanFrom(a, 0).tokens, 0, ScanFrom(b, 0).tokens, d);
  }

  lemma {:induction false} ClosesThen(ts: List<Token>, d: int, us: List<Token>, e: int)
    requires Closes(ts, d) && d >= 0 && e >= 0
    ensures Closes(Append(ts, us), d + e) <==> Closes(us, e)
    ensures Underflows(Append(ts, us), d + e) <==> Underflows(us, e)
  {
    if ts.Cons? { ClosesThen(ts.tail, d + Delta(ts.head), us, e); }
  }

  // ---- the compiler ------------------------------------------------------------------------------

  /** The compiler accepts the pattern and its expression matches the string. */
  ghost predicate Accepts(p: string, s: string) {
    CompileSpec(p).Ok? && MatchString(CompileSpec(p).value, s)
  }

  /** So every law above is one about what the compiled expression matches. */
  lemma {:induction false} AcceptsWhatItDenotes(p: string, s: string)
    requires PlainClasses(ScanFrom(p, 0).tokens)
    ensures Accepts(p, s) <==> PatternDenotes(p, s)
  {
    AcceptsExactlyWellFormed(p);
    ParseTopIff(ScanFrom(p, 0).tokens);
    if ScanFrom(p, 0).closed && CompileSpec(p).Ok? {
      CompiledMatchesWhatItDenotes(p, s);
    }
  }
}
