/** compileGlob: one pass over a pattern that writes an anchored regular expression. */
module GlobCompiler {
  import opened Prelude
  import opened Regexp
  import opened GlobPattern

  datatype GlobError = UnterminatedClass | UnmatchedClose | UnmatchedOpen | BadRegexp

  const NOT_SEP := "[^\\./]"

  // ---- the compiler --------------------------------------------------------------

  function ClassText(text: string): string {
    if text != "" && text[0] == '!' then "^" + text[1..] else text
  }

  /** The text written for one token at brace depth `depth`. */
  function TokenText(t: Token, depth: int): string {
    match t
    case Lit(c) => QuoteMeta(c)
    case Star => NOT_SEP + "*"
    case DoubleStar => ".*"
    case One => NOT_SEP
    case Bracket(text) => "[" + ClassText(text) + "]"
    case Open => "(?:"
    case Close => ")"
    case Comma => if depth > 0 then "|" else QuoteMeta(',')
  }

  function Text(ts: List<Token>, depth: int): string {
    match ts
    case Nil => ""
    case Cons(t, us) => TokenText(t, depth) + Text(us, depth + Delta(t))
  }

  /** regexp.Compile, its failure being this compiler's last error. */
  function CompileText(text: string): Result<Regex, GlobError> {
    match Regexp.Compile(text)
    case None => Err(BadRegexp)
    case Some(re) => Ok(re)
  }

  function CompileSpec(p: string): Result<Regex, GlobError> {
    var sc := ScanFrom(p, 0);
    if Underflows(sc.tokens, 0) then Err(UnmatchedClose)
    else if !sc.closed then Err(UnterminatedClass)
    else if !Closes(sc.tokens, 0) then Err(UnmatchedOpen)
    else CompileText("\\A" + Text(sc.tokens, 0) + "\\z")
  }

  /** The answer of a compiler that has written `b`, is at depth `depth` and has `sc` left to read. */
  function Answer(sc: Scan, depth: int, b: string): Result<Regex, GlobError>
    decreases sc.tokens
  {
    match sc.tokens
    case Nil =>
      if !sc.closed then Err(UnterminatedClass)
      else if depth != 0 then Err(UnmatchedOpen)
      else CompileText(b + "\\z")
    case Cons(t, us) =>
      if depth + Delta(t) < 0 then Err(UnmatchedClose)
      else Answer(Scan(us, sc.closed), depth + Delta(t), b + TokenText(t, depth))
  }

  lemma {:induction false} AnswerMeans(sc: Scan, depth: int, b: string)
    requires depth >= 0
    ensures Answer(sc, depth, b)
         == if Underflows(sc.tokens, depth) then Err(UnmatchedClose)
            else if !sc.closed then Err(UnterminatedClass)
            else if !Closes(sc.tokens, depth) then Err(UnmatchedOpen)
            else CompileText(b + Text(sc.tokens, depth) + "\\z")
    decreases sc.tokens
  {
    hide CompileText;
    if sc.tokens.Cons? {
      var t, us := sc.tokens.head, sc.tokens.tail;
      if depth + Delta(t) >= 0 {
        AnswerMeans(Scan(us, sc.closed), depth + Delta(t), b + TokenText(t, depth));
        AssociativeText(b, TokenText(t, depth), Text(us, depth + Delta(t)));
      }
    } else {
      assert b + "" == b;
    }
  }

  lemma {:induction false} AssociativeText(a: string, b: string, c: string)
    ensures (a + b) + c == a + (b + c)
  {}

  /** One turn of the loop: the token at `i`, the text written for it and where it ends. */
  method WriteToken(p: string, i: nat, depth: int)
    returns (text: string, token: Token, k: nat, error: Option<GlobError>)
    requires i < |p| && depth >= 0
    ensures error == Some(UnterminatedClass) <==> NextToken(p, i).None?
    ensures error == Some(UnmatchedClose) <==> p[i] == '}' && depth == 0
    ensures error.Some? ==> error.value.UnterminatedClass? || error.value.UnmatchedClose?
    ensures error.None? ==> NextToken(p, i) == Some((token, k)) && text == TokenText(token, depth)
  {
    var ch := p[i];
    token, k, error := Lit(ch), i, None;
    text := "";
    if ch == '*' {
      if i + 1 < |p| && p[i + 1] == '*' {
        while k + 1 < |p| && p[k + 1] == '*'
          invariant i <= k < |p|
          invariant StarsEnd(p, k + 1) == StarsEnd(p, i + 1)
        {
          k := k + 1;
        }
        text, token := ".*", DoubleStar;
      } else {
        text, token := NOT_SEP + "*", Star;
      }
    } else if ch == '?' {
      text, token := NOT_SEP, One;
    } else if ch == '[' {
      var ok;
      ok, text, token, k := WriteClass(p, i);
      if !ok {
        return text, token, k, Some(UnterminatedClass);
      }
    } else if ch == '{' {
      text, token := "(?:", Open;
    } else if ch == '}' {
      if depth == 0 {
        return text, token, k, Some(UnmatchedClose);
      }
      text, token := ")", Close;
    } else if ch == ',' {
      token := Comma;
      if depth > 0 { text := "|"; } else { text := QuoteMeta(ch); }
    } else if ch == '\\' {
      if i + 1 < |p| {
        k := k + 1;
        text, token := QuoteMeta(p[k]), Lit(p[k]);
      } else {
        text, token := QuoteMeta('\\'), Lit('\\');
      }
    } else {
      text := QuoteMeta(ch);
    }
    k := k + 1;
  }

  /** The class opened at `i`; `k` is its closing bracket. */
  method WriteClass(p: string, i: nat) returns (ok: bool, text: string, token: Token, k: nat)
    requires i < |p| && p[i] == '['
    ensures ok <==> NextToken(p, i).Some?
    ensures ok ==> k < |p| && NextToken(p, i) == Some((token, k + 1))
    ensures ok ==> token.Bracket? && text == "[" + ClassText(token.text) + "]"
  {
    hide NextToken, ClassText;
    ClassToken(p, i);
    var j := i + 1;
    if j < |p| && (p[j] == '!' || p[j] == '^') { j := j + 1; }
    if j < |p| && p[j] == ']' { j := j + 1; }
    while j < |p| && p[j] != ']'
      invariant i < j <= |p|
      invariant FindBracket(p, j) == FindBracket(p, BodyScanStart(p, i))
    {
      j := j + 1;
    }
    ok, text, token, k := j < |p|, "", Bracket(""), j;
    if ok {
      token := Bracket(p[i + 1..j]);
      text := RewriteClass(p[i + 1..j]);
    }
  }

  lemma {:induction false} ClassToken(p: string, i: nat)
    requires i < |p| && p[i] == '['
    ensures var k := FindBracket(p, BodyScanStart(p, i));
            NextToken(p, i) == if k == |p| then None else Some((Bracket(p[i + 1..k]), k + 1))
  {}

  method RewriteClass(scanned: string) returns (text: string)
    ensures text == "[" + ClassText(scanned) + "]"
  {
    var class_ := scanned;
    if class_ != "" && class_[0] == '!' { class_ := "^" + class_[1..]; }
    text := "[" + class_ + "]";
  }

  /** What one turn of the loop leaves to be answered. */
  lemma {:induction false} AnswerStep(p: string, i: nat, depth: int, b: string)
    requires i < |p| && depth >= 0
    ensures var next := NextToken(p, i);
            Answer(ScanFrom(p, i), depth, b) ==
              if next.None? then Err(UnterminatedClass)
              else if next.value.0 == Close && depth == 0 then Err(UnmatchedClose)
              else Answer(ScanFrom(p, next.value.1), depth + Delta(next.value.0), b + TokenText(next.value.0, depth))
  {
    hide NextToken, TokenText;
  }

  lemma {:induction false} AnswerEnd(p: string, depth: int, b: string)
    ensures Answer(ScanFrom(p, |p|), depth, b) == if depth != 0 then Err(UnmatchedOpen) else CompileText(b + "\\z")
  {}

  lemma {:induction false} OnlyBraceCloses(p: string, i: nat)
    requires i < |p|
    ensures NextToken(p, i).Some? ==> (NextToken(p, i).value.0 == Close <==> p[i] == '}')
  {}

  method CompileGlob(p: string) returns (r: Result<Regex, GlobError>)
    ensures r == CompileSpec(p)
  {
    var b := "\\A";
    var depth := 0;
    var i := 0;
    AnswerMeans(ScanFrom(p, 0), 0, b);
    assert Answer(ScanFrom(p, 0), 0, b) == CompileSpec(p);
    hide CompileSpec, CompileText, TokenText, NextToken, Answer, ScanFrom;
    while i < |p|
      invariant i <= |p| && depth >= 0
      invariant Answer(ScanFrom(p, i), depth, b) == CompileSpec(p)
    {
      AnswerStep(p, i, depth, b);
      OnlyBraceCloses(p, i);
      var text, token, k, error := WriteToken(p, i, depth);
      if error.Some? {
        return Err(error.value);
      }
      b := b + text;
      depth := depth + Delta(token);
      i := k;
    }
    AnswerEnd(p, depth, b);
    if depth != 0 {
      return Err(UnmatchedOpen);
    }
    b := b + "\\z";
    return CompileText(b);
  }
}
