/** The text a compiled glob consists of lexes back to the regular-expression tokens meant. */
module GlobLexing {
  import opened Prelude
  import opened Regexp
  import opened GlobPattern
  import opened GlobCompiler

  const SEP_RANGES: seq<Range> := [Range('.', '.'), Range('/', '/')]

  /** The regular-expression tokens of one pattern token at brace depth `depth`, before `k`. */
  function EmitToken(t: Token, depth: int, k: List<RTok>): List<RTok> {
    match t
    case Lit(c) => Cons(RLit(c), k)
    case Star => Cons(RClass(true, SEP_RANGES), Cons(RStar, k))
    case DoubleStar => Cons(RDot, Cons(RStar, k))
    case One => Cons(RClass(true, SEP_RANGES), k)
    case Bracket(text) => Cons(RClass(IsNegated(text), Ranges(text)), k)
    case Open => Cons(ROpen, k)
    case Close => Cons(RClose, k)
    case Comma => Cons(if depth > 0 then RBar else RLit(','), k)
  }

  function Ranges(text: string): seq<Range> {
    match BodyRanges(Body(text)) case None => [] case Some(rs) => rs
  }

  function Emit(ts: List<Token>, depth: int, k: List<RTok>): List<RTok> {
    match ts
    case Nil => k
    case Cons(t, us) => EmitToken(t, depth, Emit(us, depth + Delta(t), k))
  }

  // ---- what the scanner knows about a class -------------------------------------------

  /** A scanned class body is not empty and holds no `]` after its first character. */
  predicate BodyShape(body: string) {
    body != "" && forall i :: 1 <= i < |body| ==> body[i] != ']'
  }

  predicate Shaped(ts: List<Token>) {
    ts.Cons? ==> (ts.head.Bracket? ==> BodyShape(Body(ts.head.text))) && Shaped(ts.tail)
  }

  lemma {:induction false} ScanShaped(p: string, i: nat)
    requires i <= |p|
    ensures Shaped(ScanFrom(p, i).tokens)
    decreases |p| - i
  {
    if i < |p| && NextToken(p, i).Some? {
      var (t, k) := NextToken(p, i).value;
      ScanShaped(p, k);
      if t.Bracket? {
        var j := BodyScanStart(p, i);
        assert t.text == p[i + 1..k - 1];
        assert Body(t.text) == if IsNegated(t.text) then p[i + 2..k - 1] else p[i + 1..k - 1];
      }
    }
  }

  // ---- lexing classes ---------------------------------------------------------------------

  lemma {:induction false} LexBody(body: string, rest: string, first: bool)
    requires PlainBody(body)
    requires first ==> body != ""
    requires forall i :: (if first then 1 else 0) <= i < |body| ==> body[i] != ']'
    ensures ClassItems(body + "]" + rest, first)
         == match BodyRanges(body) case None => None case Some(rs) => Some((rs, rest))
    decreases |body|
  {
    var t := body + "]" + rest;
    if body == "" {
      assert t == "]" + rest;
      assert t[1..] == rest;
    } else {
      assert t[0] == body[0];
      assert |body| > 1 ==> t[1] == body[1];
      assert |body| == 1 ==> t[1] == ']';
      assert t[1..] == body[1..] + "]" + rest;
      assert ClassChar(t) == Some((body[0], t[1..]));
      var t1 := t[1..];
      if |body| >= 3 && body[1] == '-' {
        assert t1[0] == '-' && t1[1] == body[2];
        assert t1[1..] == body[2..] + "]" + rest;
        assert t1[1..][1..] == body[3..] + "]" + rest;
        assert body[2] != '\\';
        assert ClassChar(t1[1..]) == Some((body[2], body[3..] + "]" + rest));
        LexBody(body[3..], rest, false);
      } else {
        assert !(|t1| >= 2 && t1[0] == '-' && t1[1] != ']');
        LexBody(body[1..], rest, false);
      }
    }
  }

  lemma {:induction false} Regroup(a: string, b: string, c: string, rest: string)
    ensures a + (b + c) + "]" + rest == (a + b) + (c + "]" + rest)
  {}

  lemma {:induction false} Drop(a: string, b: string)
    ensures (a + b)[|a|..] == b
    ensures forall i :: 0 <= i < |a| ==> (a + b)[i] == a[i]
  {}

  lemma {:induction false} SplitClass(text: string, rest: string)
    requires BodyShape(Body(text))
    ensures var t := "[" + ClassText(text) + "]" + rest;
            && |t| >= 2 && t[0] == '[' && (t[1] == '^' <==> IsNegated(text))
            && t[if IsNegated(text) then 2 else 1..] == Body(text) + "]" + rest
  {
    var mark := if IsNegated(text) then "^" else "";
    var body := Body(text);
    assert ClassText(text) == mark + body;
    Regroup("[", mark, body, rest);
    Drop("[" + mark, body + "]" + rest);
    if !IsNegated(text) {
      assert "[" + mark == "[";
      assert ("[" + (body + "]" + rest))[1] == text[0];
    }
  }

  lemma {:induction false} LexClass(text: string, rest: string)
    requires BodyShape(Body(text)) && PlainBody(Body(text))
    ensures LexOne("[" + ClassText(text) + "]" + rest)
         == match BodyRanges(Body(text))
            case None => None
            case Some(rs) => Some((RClass(IsNegated(text), rs), rest))
  {
    hide ClassItems, BodyRanges, ClassText, PlainBody;
    SplitClass(text, rest);
    LexBody(Body(text), rest, true);
  }

  lemma {:induction false} LexNotSep(rest: string)
    ensures LexOne(NOT_SEP + rest) == Some((RClass(true, SEP_RANGES), rest))
  {
    var t := NOT_SEP + rest;
    var u := "\\./]" + rest;
    assert t[2..] == u;
    assert ClassChar(u) == Some(('.', u[2..]));
    assert u[2..] == "/]" + rest;
    var v := "/]" + rest;
    assert ClassChar(v) == Some(('/', v[1..]));
    assert v[1..] == "]" + rest;
    var w := "]" + rest;
    assert w[1..] == rest;
    assert ClassItems(w, false) == Some(([], rest));
    assert ClassItems(v, false) == Some(([Range('/', '/')], rest)) by {
      assert [Range('/', '/')] + [] == [Range('/', '/')];
    }
    assert ClassItems(u, true) == Some(([Range('.', '.'), Range('/', '/')], rest)) by {
      assert [Range('.', '.')] + [Range('/', '/')] == SEP_RANGES;
    }
  }

  // ---- lexing the tokens -------------------------------------------------------------------

  predicate Plain(t: Token) {
    t.Bracket? ==> BodyShape(Body(t.text)) && PlainBody(Body(t.text))
  }

  lemma {:induction false} LexLiteral(c: char, rest: string)
    ensures LexOne(QuoteMeta(c) + rest) == Some((RLit(c), rest))
  {
    var t := QuoteMeta(c) + rest;
    assert if IsMeta(c) then t[2..] == rest else t[1..] == rest;
  }

  /** The tokens of `t` before whatever the rest of the text lexes to. */
  function EmitOn(t: Token, depth: int, r: Option<List<RTok>>): Option<List<RTok>> {
    match r case None => None case Some(k) => Some(EmitToken(t, depth, k))
  }

  lemma {:induction false} LexToken(t: Token, depth: int, rest: string)
    requires Plain(t)
    ensures Lex(TokenText(t, depth) + rest) == if Descends(t) then None else EmitOn(t, depth, Lex(rest))
  {
    var text := TokenText(t, depth) + rest;
    match t {
      case Lit(c) => LexLiteral(c, rest);
      case Star =>
        assert text == NOT_SEP + ("*" + rest);
        LexNotSep("*" + rest);
        LexStar(rest);
      case DoubleStar =>
        assert text[1..] == "*" + rest;
        assert LexOne(text) == Some((RDot, "*" + rest));
        LexStar(rest);
      case One => LexNotSep(rest);
      case Bracket(class_) =>
        assert text == "[" + ClassText(class_) + "]" + rest;
        LexClass(class_, rest);
      case Open => assert text[3..] == rest;
      case Close => assert text[1..] == rest;
      case Comma =>
        if depth > 0 { assert text[1..] == rest; } else { LexLiteral(',', rest); }
    }
  }

  lemma {:induction false} LexStar(rest: string)
    ensures LexOne("*" + rest) == Some((RStar, rest))
  {
    assert ("*" + rest)[1..] == rest;
  }

  /** The text of a token list lexes to its tokens, unless a class range descends. */
  lemma {:induction false} LexText(ts: List<Token>, depth: int, rest: string)
    requires Shaped(ts) && PlainClasses(ts)
    ensures Lex(Text(ts, depth) + rest)
         == if !Ascending(ts) || Lex(rest).None? then None else Some(Emit(ts, depth, Lex(rest).value))
    decreases ts
  {
    hide Lex, TokenText;
    match ts
    case Nil =>
      assert Text(ts, depth) + rest == rest;
    case Cons(t, us) =>
      LexText(us, depth + Delta(t), rest);
      AssociativeText(TokenText(t, depth), Text(us, depth + Delta(t)), rest);
      LexToken(t, depth, Text(us, depth + Delta(t)) + rest);
  }

  lemma {:induction false} LexAnchors(tail: string)
    ensures LexOne("\\A" + tail) == Some((RBegin, tail))
    ensures LexOne("\\z") == Some((REnd, ""))
  {
    assert ("\\A" + tail)[2..] == tail;
    assert "\\z"[2..] == "";
  }

  lemma {:induction false} LexCompiled(ts: List<Token>)
    requires Shaped(ts) && PlainClasses(ts)
    ensures Lex("\\A" + Text(ts, 0) + "\\z")
         == if Ascending(ts) then Some(Cons(RBegin, Emit(ts, 0, Cons(REnd, Nil)))) else None
  {
    AssociativeText("\\A", Text(ts, 0), "\\z");
    LexAnchors(Text(ts, 0) + "\\z");
    assert Lex("\\z") == Some(Cons(REnd, Nil));
    LexText(ts, 0, "\\z");
  }
}
