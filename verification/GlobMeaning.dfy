/** compileGlob preserves meaning: what the compiled expression matches is what the pattern denotes. */
module GlobMeaning {
  import opened Prelude
  import opened Regexp
  import opened GlobPattern
  import opened GlobCompiler
  import opened GlobLexing

  // ---- the tree a pattern compiles to ---------------------------------------------------

  function NotSepClass(): Regex {
    Class(true, SEP_RANGES)
  }

  /** The expression of `g` followed by `k`. */
  function Translate(g: Glob, k: Regex): Regex {
    match g
    case Empty => k
    case Then(h, t) => Cat(TranslateItem(h), Translate(t, k))
  }

  function TranslateItem(h: Item): Regex {
    match h
    case Character(c) => Chr(c)
    case Run => Rep(NotSepClass())
    case AnyRun => Rep(Dot)
    case Single => NotSepClass()
    case OneOf(negated, ranges) => Class(negated, ranges)
    case Choice(alts) => TranslateAlts(alts)
  }

  function TranslateAlts(alts: Alts): Regex {
    match alts
    case Last(g) => Translate(g, Eps)
    case Or(g, rest) => Alt(Translate(g, Eps), TranslateAlts(rest))
  }

  // ---- parsing the emitted tokens ---------------------------------------------------------

  predicate NoLeadingStar(ts: List<RTok>) {
    ts.Cons? ==> ts.head != RStar
  }

  lemma {:induction false} EmitNoStar(ts: List<Token>, d: int, k: List<RTok>)
    requires NoLeadingStar(k)
    ensures NoLeadingStar(Emit(ts, d, k))
  {}

  /** The item of a token that is neither a brace nor a separating comma. */
  function ItemOf(t: Token): Item
    requires t != Open && t != Close
  {
    match t
    case Lit(c) => Character(c)
    case Star => Run
    case DoubleStar => AnyRun
    case One => Single
    case Bracket(text) => OneOf(IsNegated(text), Ranges(text))
    case Comma => Character(',')
  }

  predicate StandsAlone(t: Token, d: int) {
    t != Open && t != Close && (t == Comma ==> d <= 0)
  }

  lemma {:induction false} ParseItem(t: Token, d: int, x: List<RTok>)
    requires NoLeadingStar(x) && StandsAlone(t, d)
    ensures ParseConcat(EmitToken(t, d, x)) == AddFirst(TranslateItem(ItemOf(t)), ParseConcat(x))
  {}

  lemma {:induction false} ParseGroup(inner: List<RTok>, re: Regex, x: List<RTok>)
    requires NoLeadingStar(x)
    requires ParseAlternation(inner) == Some((re, Cons(RClose, x)))
    ensures ParseConcat(Cons(ROpen, inner)) == AddFirst(re, ParseConcat(x))
  {
    assert ParseAtom(Cons(ROpen, inner)) == Some((re, x));
  }

  lemma {:induction false} ItemTree(t: Token, us: List<Token>, nested: bool)
    requires StandsAlone(t, if nested then 1 else 0)
    ensures ParseGlob(Cons(t, us), nested) == if Descends(t) then None else Prepend(ItemOf(t), ParseGlob(us, nested))
  {}

  lemma {:induction false} GroupTree(us: List<Token>, nested: bool)
    ensures ParseGlob(Cons(Open, us), nested)
         == if ParseChoices(us).None? then None
            else Prepend(Choice(ParseChoices(us).value.0), ParseGlob(ParseChoices(us).value.1, nested))
  {}

  lemma {:induction false} ParseEnds()
    ensures ParseConcat(Cons(REnd, Nil)) == Some((Cat(End, Eps), Nil))
    ensures forall k :: ParseConcat(Cons(RClose, k)) == Some((Eps, Cons(RClose, k)))
    ensures forall k :: ParseConcat(Cons(RBar, k)) == Some((Eps, Cons(RBar, k)))
  {}

  /** Outside braces the emitted tokens parse to the translated pattern, up to `\z`. */
  lemma {:induction false} ParseTop(ts: List<Token>)
    requires ParseGlob(ts, false).Some?
    ensures ParseGlob(ts, false).value.1 == Nil
    ensures ParseConcat(Emit(ts, 0, Cons(REnd, Nil)))
         == Some((Translate(ParseGlob(ts, false).value.0, Cat(End, Eps)), Nil))
    decreases Length(ts), 2
  {
    hide ParseConcat, ParseAlternation;
    var k := Cons(REnd, Nil);
    if ts == Nil {
      ParseEnds();
    } else if ts.head == Open {
      GroupTree(ts.tail, false);
      hide ParseGlob, ParseChoices;
      var (alts, rest) := ParseChoices(ts.tail).value;
      ParseAlts(ts.tail, 0, k);
      ParseTop(rest);
      EmitNoStar(rest, 0, k);
      ParseGroup(Emit(ts.tail, 1, k), TranslateAlts(alts), Emit(rest, 0, k));
    } else if ts.head != Close {
      ItemTree(ts.head, ts.tail, false);
      hide ParseGlob, ParseChoices;
      ParseTop(ts.tail);
      EmitNoStar(ts.tail, 0, k);
      ParseItem(ts.head, 0, Emit(ts.tail, 0, k));
    }
  }

  /** Inside braces the emitted tokens parse up to the `,` or `}` that ends the alternative. */
  lemma {:induction false} ParseNested(ts: List<Token>, d: int, k: List<RTok>)
    requires d > 0 && NoLeadingStar(k)
    requires ParseGlob(ts, true).Some? && ParseGlob(ts, true).value.1.Cons?
    ensures var (g, rest) := ParseGlob(ts, true).value;
            && (rest.head == Close || rest.head == Comma)
            && ParseConcat(Emit(ts, d, k)) == Some((Translate(g, Eps), Emit(rest, d, k)))
    decreases Length(ts), 0
  {
    hide ParseConcat, ParseAlternation, NoLeadingStar;
    if ts.head == Close || ts.head == Comma {
      ParseEnds();
    } else if ts.head == Open {
      GroupTree(ts.tail, true);
      hide ParseGlob, ParseChoices;
      var (alts, rest) := ParseChoices(ts.tail).value;
      ParseAlts(ts.tail, d, k);
      ParseNested(rest, d, k);
      EmitNoStar(rest, d, k);
      ParseGroup(Emit(ts.tail, d + 1, k), TranslateAlts(alts), Emit(rest, d, k));
    } else {
      ItemTree(ts.head, ts.tail, true);
      hide ParseGlob, ParseChoices, EmitToken, TranslateItem, Descends;
      ParseNested(ts.tail, d, k);
      EmitNoStar(ts.tail, d, k);
      ParseItem(ts.head, d, Emit(ts.tail, d, k));
    }
  }

  lemma {:induction false} ParseAlts(ts: List<Token>, d: int, k: List<RTok>)
    requires d >= 0 && NoLeadingStar(k)
    requires ParseChoices(ts).Some?
    ensures var (alts, rest) := ParseChoices(ts).value;
            ParseAlternation(Emit(ts, d + 1, k)) == Some((TranslateAlts(alts), Cons(RClose, Emit(rest, d, k))))
    decreases Length(ts), 1
  {
    var (g, rest) := ParseGlob(ts, true).value;
    ParseNested(ts, d + 1, k);
    if rest.head == Comma {
      ParseAlts(rest.tail, d, k);
    }
  }

  // ---- the grammar accepts what is well formed ------------------------------------------------

  /** The grammar accepts exactly the balanced token lists whose classes ascend. */
  lemma {:induction false} ParseTopIff(ts: List<Token>)
    ensures ParseGlob(ts, false).Some? <==> Closes(ts, 0) && Ascending(ts)
    decreases Length(ts), 2
  {
    match ts
    case Nil =>
    case Cons(Close, _) =>
    case Cons(Open, us) =>
      ParseChoicesIff(us, 1);
      if ParseChoices(us).Some? { ParseTopIff(ParseChoices(us).value.1); }
    case Cons(_, us) => ParseTopIff(us);
  }

  lemma {:induction false} ParseNestedIff(ts: List<Token>, d: int)
    requires d > 0
    ensures Closes(ts, d) && Ascending(ts) <==>
            && ParseGlob(ts, true).Some?
            && Closes(ParseGlob(ts, true).value.1, d) && Ascending(ParseGlob(ts, true).value.1)
    ensures ParseGlob(ts, true).Some? ==>
            var rest := ParseGlob(ts, true).value.1; rest == Nil || rest.head == Close || rest.head == Comma
    decreases Length(ts), 0
  {
    match ts
    case Nil =>
    case Cons(Close, _) =>
    case Cons(Comma, _) =>
    case Cons(Open, us) =>
      ParseChoicesIff(us, d + 1);
      if ParseChoices(us).Some? { ParseNestedIff(ParseChoices(us).value.1, d); }
    case Cons(_, us) => ParseNestedIff(us, d);
  }

  lemma {:induction false} ParseChoicesIff(ts: List<Token>, d: int)
    requires d > 0
    ensures Closes(ts, d) && Ascending(ts) <==>
            && ParseChoices(ts).Some?
            && Closes(ParseChoices(ts).value.1, d - 1) && Ascending(ParseChoices(ts).value.1)
    decreases Length(ts), 1
  {
    ParseNestedIff(ts, d);
    match ParseGlob(ts, true)
    case Some((g, Cons(Comma, rest))) => ParseChoicesIff(rest, d);
    case _ =>
  }

  // ---- meaning -----------------------------------------------------------------------------------

  lemma {:induction false} NotSepMeans(c: char)
    ensures InClass(true, SEP_RANGES, c) <==> !IsSeparator(c)
  {
    assert SEP_RANGES[0] == Range('.', '.') && SEP_RANGES[1] == Range('/', '/');
  }

  lemma {:induction false} SplitRep(body: Regex, s: string, i: nat, j: nat) returns (k: nat)
    requires i < j <= |s| && MatchesAt(Rep(body), s, i, j)
    ensures i < k <= j && MatchesAt(body, s, i, k) && MatchesAt(Rep(body), s, k, j)
  {
    var re := Rep(body);
    assert exists k :: i < k <= j && MatchesAt(re.body, s, i, k) && MatchesAt(re, s, k, j);
    k :| i < k <= j && MatchesAt(body, s, i, k) && MatchesAt(Rep(body), s, k, j);
  }

  lemma {:induction false} SplitCat(a: Regex, b: Regex, s: string, i: nat, j: nat) returns (k: nat)
    requires i <= j <= |s| && MatchesAt(Cat(a, b), s, i, j)
    ensures i <= k <= j && MatchesAt(a, s, i, k) && MatchesAt(b, s, k, j)
  {
    k :| i <= k <= j && MatchesAt(a, s, i, k) && MatchesAt(b, s, k, j);
  }

  /** A repeated one-character expression matches a run of such characters. */
  lemma {:induction false} RepeatMeans(body: Regex, ok: char -> bool, s: string, i: nat, j: nat)
    requires i <= j <= |s|
    requires forall a: nat, b: nat :: a <= b <= |s| ==> (MatchesAt(body, s, a, b) <==> b == a + 1 && ok(s[a]))
    ensures MatchesAt(Rep(body), s, i, j) <==> forall m :: i <= m < j ==> ok(s[m])
    decreases j - i
  {
    if i < j {
      RepeatMeans(body, ok, s, i + 1, j);
      if MatchesAt(Rep(body), s, i, j) {
        var k := SplitRep(body, s, i, j);
      }
      if forall m :: i <= m < j ==> ok(s[m]) {
        assert MatchesAt(body, s, i, i + 1);
      }
    }
  }

  /** Some prefix of `s[i..j]` is denoted by `g` and `k` matches the rest. */
  ghost predicate PrefixMeans(g: Glob, k: Regex, s: string, i: nat, j: nat)
    requires i <= j <= |s|
  {
    exists m: nat :: i <= m <= j && Denotes(g, s[i..m]) && MatchesAt(k, s, m, j)
  }

  lemma {:induction false} TranslateMeans(g: Glob, k: Regex, s: string, i: nat, j: nat)
    requires i <= j <= |s|
    ensures MatchesAt(Translate(g, k), s, i, j) <==> PrefixMeans(g, k, s, i, j)
    decreases g, 1
  {
    match g
    case Empty =>
      assert s[i..i] == "";
      assert PrefixMeans(g, k, s, i, j) <==> MatchesAt(k, s, i, j) by {
        if MatchesAt(k, s, i, j) { assert Denotes(g, s[i..i]); }
      }
    case Then(h, t) =>
      var first, second := TranslateItem(h), Translate(t, k);
      if MatchesAt(Cat(first, second), s, i, j) {
        var a := SplitCat(first, second, s, i, j);
        ItemMeans(h, s, i, a);
        TranslateMeans(t, k, s, a, j);
        ThenForward(h, t, k, s, i, a, j);
      }
      if PrefixMeans(g, k, s, i, j) {
        var a := ThenBackward(h, t, k, s, i, j);
        ItemMeans(h, s, i, a);
        TranslateMeans(t, k, s, a, j);
        JoinCat(first, second, s, i, a, j);
      }
  }

  lemma {:induction false} ThenForward(h: Item, t: Glob, k: Regex, s: string, i: nat, a: nat, j: nat)
    requires i <= a <= j <= |s| && ItemDenotes(h, s[i..a]) && PrefixMeans(t, k, s, a, j)
    ensures PrefixMeans(Then(h, t), k, s, i, j)
  {
    hide MatchesAt, Denotes, ItemDenotes;
    var m: nat :| a <= m <= j && Denotes(t, s[a..m]) && MatchesAt(k, s, m, j);
    ThenDenotes(h, t, s, i, a, m);
  }

  lemma {:induction false} ThenBackward(h: Item, t: Glob, k: Regex, s: string, i: nat, j: nat) returns (a: nat)
    requires i <= j <= |s| && PrefixMeans(Then(h, t), k, s, i, j)
    ensures i <= a <= j && ItemDenotes(h, s[i..a]) && PrefixMeans(t, k, s, a, j)
  {
    hide MatchesAt, Denotes, ItemDenotes;
    var m: nat :| i <= m <= j && Denotes(Then(h, t), s[i..m]) && MatchesAt(k, s, m, j);
    a := SplitDenotes(h, t, s, i, m);
  }

  lemma {:induction false} JoinCat(a: Regex, b: Regex, s: string, i: nat, k: nat, j: nat)
    requires i <= k <= j <= |s| && MatchesAt(a, s, i, k) && MatchesAt(b, s, k, j)
    ensures MatchesAt(Cat(a, b), s, i, j)
  {}

  lemma {:induction false} ThenDenotes(h: Item, t: Glob, s: string, i: nat, a: nat, m: nat)
    requires i <= a <= m <= |s| && ItemDenotes(h, s[i..a]) && Denotes(t, s[a..m])
    ensures Denotes(Then(h, t), s[i..m])
  {
    Slices(s, i, a, m);
  }

  lemma {:induction false} SplitDenotes(h: Item, t: Glob, s: string, i: nat, m: nat) returns (a: nat)
    requires i <= m <= |s| && Denotes(Then(h, t), s[i..m])
    ensures i <= a <= m && ItemDenotes(h, s[i..a]) && Denotes(t, s[a..m])
  {
    hide ItemDenotes;
    var u := s[i..m];
    var k :| 0 <= k <= |u| && ItemDenotes(h, u[..k]) && Denotes(t, u[k..]);
    a := i + k;
    Slices(s, i, a, m);
  }

  lemma {:induction false} Slices(s: string, i: nat, a: nat, m: nat)
    requires i <= a <= m <= |s|
    ensures s[i..m][..a - i] == s[i..a] && s[i..m][a - i..] == s[a..m]
  {}

  lemma {:induction false} ItemMeans(h: Item, s: string, i: nat, j: nat)
    requires i <= j <= |s|
    ensures MatchesAt(TranslateItem(h), s, i, j) <==> ItemDenotes(h, s[i..j])
    decreases h, 0
  {
    match h
    case Character(c) =>
    case Run =>
      forall c ensures InClass(true, SEP_RANGES, c) <==> !IsSeparator(c) { NotSepMeans(c); }
      RepeatMeans(NotSepClass(), c => !IsSeparator(c), s, i, j);
      RunSlice(s, i, j, c => !IsSeparator(c));
    case AnyRun =>
      RepeatMeans(Dot, c => c != '\n', s, i, j);
      RunSlice(s, i, j, c => c != '\n');
    case Single =>
      if j == i + 1 { NotSepMeans(s[i]); }
    case OneOf(negated, ranges) =>
    case Choice(alts) => AltsMean(alts, s, i, j);
  }

  lemma {:induction false} RunSlice(s: string, i: nat, j: nat, ok: char -> bool)
    requires i <= j <= |s|
    ensures (forall m :: i <= m < j ==> ok(s[m])) <==> (forall m :: 0 <= m < |s[i..j]| ==> ok(s[i..j][m]))
  {
    if forall m :: 0 <= m < |s[i..j]| ==> ok(s[i..j][m]) {
      forall m | i <= m < j ensures ok(s[m]) { assert s[i..j][m - i] == s[m]; }
    }
  }

  lemma {:induction false} AltsMean(alts: Alts, s: string, i: nat, j: nat)
    requires i <= j <= |s|
    ensures MatchesAt(TranslateAlts(alts), s, i, j) <==> AltsDenote(alts, s[i..j])
    decreases alts, 0
  {
    TranslateMeans(alts.g, Eps, s, i, j);
    assert PrefixMeans(alts.g, Eps, s, i, j) <==> Denotes(alts.g, s[i..j]) by {
      if Denotes(alts.g, s[i..j]) { assert MatchesAt(Eps, s, j, j); }
    }
    if alts.Or? { AltsMean(alts.rest, s, i, j); }
  }

  // ---- the compiler ----------------------------------------------------------------------------

  /** The expression a well-formed pattern compiles to. */
  function Compiled(g: Glob): Regex {
    Cat(Begin, Translate(g, Cat(End, Eps)))
  }

  lemma {:induction false} CompileTree(ts: List<Token>)
    requires Shaped(ts) && PlainClasses(ts) && Closes(ts, 0)
    ensures Ascending(ts) ==> ParseGlob(ts, false).Some?
    ensures CompileText("\\A" + Text(ts, 0) + "\\z")
         == if Ascending(ts) then Ok(Compiled(ParseGlob(ts, false).value.0)) else Err(BadRegexp)
  {
    LexCompiled(ts);
    ParseTopIff(ts);
    if Ascending(ts) {
      ParseTop(ts);
      ParseWhole(Emit(ts, 0, Cons(REnd, Nil)));
      EmitNoStar(ts, 0, Cons(REnd, Nil));
    }
  }

  lemma {:induction false} ParseWhole(x: List<RTok>)
    ensures NoLeadingStar(x) && ParseConcat(x).Some? && ParseConcat(x).value.1 == Nil
        ==> ParseAlternation(Cons(RBegin, x)) == Some((Cat(Begin, ParseConcat(x).value.0), Nil))
  {
    assert ParseAtom(Cons(RBegin, x)) == Some((Begin, x));
  }

  lemma {:induction false} ClosesNotUnder(ts: List<Token>, d: int)
    ensures Closes(ts, d) ==> !Underflows(ts, d)
  {
    if ts.Cons? { ClosesNotUnder(ts.tail, d + Delta(ts.head)); }
  }

  /** Compilation is accepted exactly when braces balance, classes close and ranges ascend;
      a descending range is the only reason the regexp compiler refuses the text. */
  lemma {:induction false} AcceptsExactlyWellFormed(p: string)
    requires PlainClasses(ScanFrom(p, 0).tokens)
    ensures CompileSpec(p).Ok? <==> WellFormed(p)
    ensures CompileSpec(p) == Err(BadRegexp) <==>
            var sc := ScanFrom(p, 0); sc.closed && Closes(sc.tokens, 0) && !Ascending(sc.tokens)
  {
    var ts := ScanFrom(p, 0).tokens;
    ClosesNotUnder(ts, 0);
    ScanShaped(p, 0);
    if Closes(ts, 0) { CompileTree(ts); }
  }

  /** The compiled expression matches a string exactly when the pattern denotes it. */
  lemma {:induction false} CompiledMatchesWhatItDenotes(p: string, s: string)
    requires PlainClasses(ScanFrom(p, 0).tokens)
    requires CompileSpec(p).Ok?
    ensures MatchString(CompileSpec(p).value, s) <==> PatternDenotes(p, s)
  {
    AcceptsExactlyWellFormed(p);
    var ts := ScanFrom(p, 0).tokens;
    ScanShaped(p, 0);
    CompileTree(ts);
    ParseTopIff(ts);
    ParseTop(ts);
    AnchoredMeans(ParseGlob(ts, false).value.0, s);
  }

  /** Both anchors hold for every alternative: a match covers the whole string. */
  lemma {:induction false} AnchoredMeans(g: Glob, s: string)
    ensures MatchString(Compiled(g), s) <==> Denotes(g, s)
  {
    var k := Cat(End, Eps);
    if MatchString(Compiled(g), s) {
      var i, j :| 0 <= i <= j <= |s| && MatchesAt(Compiled(g), s, i, j);
      var a := SplitCat(Begin, Translate(g, k), s, i, j);
      TranslateMeans(g, k, s, a, j);
      var m: nat :| a <= m <= j && Denotes(g, s[a..m]) && MatchesAt(k, s, m, j);
      var e := SplitCat(End, Eps, s, m, j);
      assert s[0..|s|] == s;
    }
    if Denotes(g, s) {
      assert s[0..|s|] == s;
      JoinCat(End, Eps, s, |s|, |s|, |s|);
      assert PrefixMeans(g, k, s, 0, |s|);
      TranslateMeans(g, k, s, 0, |s|);
      JoinCat(Begin, Translate(g, k), s, 0, 0, |s|);
    }
  }

  // ---- separators -------------------------------------------------------------------------------

  function Separators(s: string): nat {
    if s == "" then 0 else (if IsSeparator(s[0]) then 1 else 0) + Separators(s[1..])
  }

  predicate PlainTokens(ts: List<Token>) {
    ts.Cons? ==> (ts.head.Lit? || ts.head.Star? || ts.head.One? || ts.head.Comma?) && PlainTokens(ts.tail)
  }

  /** Only characters, quoted or not, `*` and `?`: nothing that could cross a separator. */
  predicate WithinSegments(p: string) {
    ScanFrom(p, 0).closed && PlainTokens(ScanFrom(p, 0).tokens)
  }

  lemma {:induction false} SeparatorsSplit(s: string, k: nat)
    requires k <= |s|
    ensures Separators(s) == Separators(s[..k]) + Separators(s[k..])
  {
    if k == 0 {
      assert s[0..] == s;
    } else {
      SeparatorsSplit(s[1..], k - 1);
      assert s[..k][1..] == s[1..][..k - 1];
      assert s[1..][k - 1..] == s[k..];
    }
  }

  lemma {:induction false} NoSeparators(s: string)
    requires forall i :: 0 <= i < |s| ==> !IsSeparator(s[i])
    ensures Separators(s) == 0
  {
    if s != "" { NoSeparators(s[1..]); }
  }

  /** A plain token stands for one character of the pattern, or for the one a backslash quotes. */
  lemma {:induction false} PlainToken(p: string, i: nat)
    requires i < |p| && NextToken(p, i).Some?
    requires var t := NextToken(p, i).value.0; t.Lit? || t.Star? || t.One? || t.Comma?
    ensures var (t, k) := NextToken(p, i).value;
            i < k <= |p| && Separators(p[i..]) == (if t.Lit? && IsSeparator(t.c) then 1 else 0) + Separators(p[k..])
  {
    assert p[i..][1..] == p[i + 1..];
    if p[i] == '\\' && i + 1 < |p| {
      assert p[i + 1..][1..] == p[i + 2..];
    }
  }

  /** Such a pattern only denotes strings with as many separators as it has itself. */
  lemma {:induction false} SeparatorsFrom(p: string, i: nat, s: string)
    requires i <= |p| && ScanFrom(p, i).closed && PlainTokens(ScanFrom(p, i).tokens)
    ensures ParseGlob(ScanFrom(p, i).tokens, false).Some?
    ensures Denotes(ParseGlob(ScanFrom(p, i).tokens, false).value.0, s) ==> Separators(s) == Separators(p[i..])
    decreases |p| - i
  {
    if i == |p| {
      assert p[i..] == "";
    } else {
      PlainToken(p, i);
      var (t, k) := NextToken(p, i).value;
      hide NextToken;
      var us := ScanFrom(p, k).tokens;
      SeparatorsFrom(p, k, "");
      ItemTree(t, us, false);
      hide ParseGlob;
      var rest := ParseGlob(us, false).value.0;
      if Denotes(Then(ItemOf(t), rest), s) {
        var n := SplitThen(ItemOf(t), rest, s);
        SeparatorsFrom(p, k, s[n..]);
        SeparatorsSplit(s, n);
        ItemSeparators(t, s[..n]);
      }
    }
  }

  lemma {:induction false} SplitThen(h: Item, t: Glob, s: string) returns (k: nat)
    requires Denotes(Then(h, t), s)
    ensures k <= |s| && ItemDenotes(h, s[..k]) && Denotes(t, s[k..])
  {
    k :| 0 <= k <= |s| && ItemDenotes(h, s[..k]) && Denotes(t, s[k..]);
  }

  lemma {:induction false} ItemSeparators(t: Token, s: string)
    requires t.Lit? || t.Star? || t.One? || t.Comma?
    requires ItemDenotes(ItemOf(t), s)
    ensures Separators(s) == if t.Lit? && IsSeparator(t.c) then 1 else 0
  {
    if t.Lit? || t.Comma? {
      assert s[1..] == "";
    } else {
      NoSeparators(s);
    }
  }

  /** `*` and `?` never cross `.` or `/`. */
  lemma {:induction false} SeparatorsPreserved(p: string, s: string)
    requires WithinSegments(p)
    ensures PatternDenotes(p, s) ==> Separators(s) == Separators(p)
  {
    SeparatorsFrom(p, 0, s);
    assert p[0..] == p;
  }

  // ---- outside the documented syntax -------------------------------------------------------------

  const DIVERGING := "[\\]x[y]"
  const DIVERGING_RANGES: seq<Range> := [Range(']', ']'), Range('x', 'x'), Range('[', '['), Range('y', 'y')]

  /** A class holding a backslash is copied raw, so the regexp parser reads it as an escape and finds
      another closing bracket: the compiled expression matches a string the pattern does not denote. */
  lemma {:induction false} BackslashInClassDiverges()
    ensures !PlainClasses(ScanFrom(DIVERGING, 0).tokens) && CompileSpec(DIVERGING).Ok?
    ensures MatchString(CompileSpec(DIVERGING).value, "]") && !PatternDenotes(DIVERGING, "]")
  {
    ScanDiverging();
    CompileDiverging();
    MatchDiverging();
    if PatternDenotes(DIVERGING, "]") {
      var ts := ScanFrom(DIVERGING, 0).tokens;
      var k := SplitThen(OneOf(false, Ranges("\\")), ParseGlob(ts.tail, false).value.0, "]");
    }
  }

  lemma {:induction false} ScanDiverging()
    ensures ScanFrom(DIVERGING, 0) == Scan(Cons(Bracket("\\"), Cons(Lit('x'), Cons(Bracket("y"), Nil))), true)
  {
    var p := DIVERGING;
    assert FindBracket(p, 1) == 2 && FindBracket(p, 5) == 6;
    assert p[1..2] == "\\" && p[5..6] == "y";
    assert NextToken(p, 0) == Some((Bracket("\\"), 3));
    assert NextToken(p, 3) == Some((Lit('x'), 4));
    assert NextToken(p, 4) == Some((Bracket("y"), 7));
    assert ScanFrom(p, 7) == Scan(Nil, true);
    assert ScanFrom(p, 4) == Scan(Cons(Bracket("y"), Nil), true);
  }

  lemma {:induction false} CompileDiverging()
    ensures CompileSpec(DIVERGING) == Ok(Cat(Begin, Cat(Class(false, DIVERGING_RANGES), Cat(End, Eps))))
  {
    ScanDiverging();
    TextDiverging();
    LexDiverging();
    hide Lex, Text, ScanFrom;
    ParseWhole(Cons(RClass(false, DIVERGING_RANGES), Cons(REnd, Nil)));
    assert ParseConcat(Cons(REnd, Nil)) == Some((Cat(End, Eps), Nil));
  }

  lemma {:induction false} TextDiverging()
    ensures Text(Cons(Bracket("\\"), Cons(Lit('x'), Cons(Bracket("y"), Nil))), 0) == DIVERGING
  {
    assert TokenText(Bracket("\\"), 0) == "[\\]";
    assert TokenText(Lit('x'), 0) == "x";
    assert TokenText(Bracket("y"), 0) == "[y]";
    hide TokenText;
    assert Text(Cons(Bracket("y"), Nil), 0) == "[y]";
    assert Text(Cons(Lit('x'), Cons(Bracket("y"), Nil)), 0) == "x[y]";
  }

  lemma {:induction false} MatchDiverging()
    ensures MatchString(Cat(Begin, Cat(Class(false, DIVERGING_RANGES), Cat(End, Eps))), "]")
  {
    JoinCat(End, Eps, "]", 1, 1, 1);
    assert DIVERGING_RANGES[0] == Range(']', ']');
    assert InRanges(DIVERGING_RANGES, ']');
    JoinCat(Class(false, DIVERGING_RANGES), Cat(End, Eps), "]", 0, 1, 1);
    JoinCat(Begin, Cat(Class(false, DIVERGING_RANGES), Cat(End, Eps)), "]", 0, 0, 1);
  }

  lemma {:induction false} LexDiverging()
    ensures Lex("\\A" + DIVERGING + "\\z")
         == Some(Cons(RBegin, Cons(RClass(false, DIVERGING_RANGES), Cons(REnd, Nil))))
  {
    var z := "\\z";
    AssociativeText("\\A", DIVERGING, z);
    LexAnchors(DIVERGING + z);
    var t := DIVERGING + z;
    assert t[1..] == "\\]x[y]" + z;
    ItemsDiverging(z);
    assert LexOne(t) == Some((RClass(false, DIVERGING_RANGES), z));
    assert Lex(z) == Some(Cons(REnd, Nil));
  }

  lemma {:induction false} ItemsDiverging(z: string)
    ensures ClassItems("\\]x[y]" + z, true) == Some((DIVERGING_RANGES, z))
  {
    assert ("\\]x[y]" + z)[2..] == "x[y]" + z;
    assert ("x[y]" + z)[1..] == "[y]" + z;
    assert ("[y]" + z)[1..] == "y]" + z;
    assert ("y]" + z)[1..] == "]" + z;
    assert ("]" + z)[1..] == z;
    assert ClassItems("]" + z, false) == Some(([], z));
    assert [Range('y', 'y')] + [] == [Range('y', 'y')];
    assert [Range('[', '[')] + [Range('y', 'y')] == [Range('[', '['), Range('y', 'y')];
    assert [Range('x', 'x')] + [Range('[', '['), Range('y', 'y')] ==
        [Range('x', 'x'), Range('[', '['), Range('y', 'y')];
    assert ClassItems("y]" + z, false) == Some(([Range('y', 'y')], z));
    assert ClassItems("[y]" + z, false) == Some(([Range('[', '['), Range('y', 'y')], z));
    assert ClassItems("x[y]" + z, false) == Some(([Range('x', 'x'), Range('[', '['), Range('y', 'y')], z));
    assert [Range(']', ']')] + [Range('x', 'x'), Range('[', '['), Range('y', 'y')] == DIVERGING_RANGES;
  }
}
