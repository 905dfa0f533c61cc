/** Outside the documented class syntax: exactly which backslashes in a class keep its meaning. */
module GlobEscapes {
  import opened Prelude
  import opened Regexp
  import opened GlobPattern
  import opened GlobCompiler
  import opened GlobLexing
  import opened GlobMeaning
  import GlobLaws

  /** A scanned class body without ranges, named classes and escapes of letters and digits, which the regexp parser has
      rules of its own for. */
  predicate FlatBody(body: string) {
    && BodyShape(body)
    && '-' !in body
    && !EscapesWord(body)
    && forall i :: 0 <= i < |body| - 1 ==> !(body[i] == '[' && body[i + 1] == ':')
  }

  /** Some backslash that starts an escape stands before a letter or a digit. */
  predicate EscapesWord(body: string) {
    if body == "" then false
    else if body[0] != '\\' then EscapesWord(body[1..])
    else |body| >= 2 && ((body[1] as int < 128 && !IsAsciiPunct(body[1])) || EscapesWord(body[2..]))
  }

  /** What the regexp parser reads in a flat class body: a backslash stands for the mark after it.
      None when a backslash is last or stands before a character that is not ASCII. */
  function Unescape(body: string): Option<string> {
    if body == "" then Some("")
    else if body[0] != '\\' then Before(body[0], Unescape(body[1..]))
    else if |body| >= 2 && IsAsciiPunct(body[1]) then Before(body[1], Unescape(body[2..]))
    else None
  }

  function Before(c: char, r: Option<string>): Option<string> {
    match r case None => None case Some(cs) => Some([c] + cs)
  }

  /** Every backslash starts an escape and, if there is one, some escape is of a backslash. */
  predicate KeepsItsCharacters(body: string) {
    Unescape(body).Some? && ('\\' in body ==> '\\' in Unescape(body).value)
  }

  function Singles(cs: string): seq<Range> {
    if cs == "" then [] else [Range(cs[0], cs[0])] + Singles(cs[1..])
  }

  lemma {:induction false} SinglesHold(cs: string, c: char)
    ensures InRanges(Singles(cs), c) <==> c in cs
  {
    hide InRanges;
    if cs == "" {
      GlobLaws.NothingIn(c);
    } else {
      SinglesHold(cs[1..], c);
      GlobLaws.InFirst(Range(cs[0], cs[0]), Singles(cs[1..]), c);
      assert cs == [cs[0]] + cs[1..];
    }
  }

  lemma {:induction false} FlatRanges(body: string)
    requires '-' !in body
    ensures BodyRanges(body) == Some(Singles(body))
  {
    if body != "" { FlatRanges(body[1..]); }
  }

  /** The parser reads every character but the backslashes, and backslashes only from escapes. */
  lemma {:induction false} UnescapeKeeps(body: string, c: char)
    requires Unescape(body).Some?
    ensures c in Unescape(body).value ==> c in body
    ensures c in body && c != '\\' ==> c in Unescape(body).value
  {
    if body != "" {
      var k := if body[0] == '\\' then 2 else 1;
      UnescapeKeeps(body[k..], c);
      assert body == body[..k] + body[k..];
    }
  }

  // ---- lexing --------------------------------------------------------------------------------

  const END := "\\z"

  lemma {:induction false} LexFlat(body: string, first: bool)
    requires first ==> body != ""
    requires '-' !in body
    requires forall i :: (if first then 1 else 0) <= i < |body| ==> body[i] != ']'
    requires forall i :: 0 <= i < |body| - 1 ==> !(body[i] == '[' && body[i + 1] == ':')
    ensures ClassItems(body + "]" + END, first)
         == match Unescape(body) case None => None case Some(cs) => Some((Singles(cs), END))
    decreases |body|
  {
    var t := body + "]" + END;
    if body == "" {
      assert t == "]" + END;
      assert t[1..] == END;
    } else if body == "\\" {
      assert t[2..] == END;
      assert ClassChar(t) == Some((']', END));
      assert ClassItems(END, false) == None;
    } else {
      assert t[0] == body[0];
      assert |body| > 1 ==> t[1] == body[1];
      assert |body| == 1 ==> t[1] == ']';
      var k := if body[0] == '\\' then 2 else 1;
      var t1 := body[k..] + "]" + END;
      assert t[k..] == t1;
      assert t1[0] != '-';
      if body[0] != '\\' || IsAsciiPunct(body[1]) {
        LexFlat(body[k..], false);
        var c := body[k - 1];
        assert ClassChar(t) == Some((c, t1));
        SinglesCons(c, body[k..]);
      }
    }
  }

  lemma {:induction false} SinglesCons(c: char, body: string)
    ensures Unescape(body).Some? ==>
              Singles([c] + Unescape(body).value) == [Range(c, c)] + Singles(Unescape(body).value)
  {
    if Unescape(body).Some? {
      assert ([c] + Unescape(body).value)[1..] == Unescape(body).value;
    }
  }

  lemma {:induction false} LexFlatClass(text: string)
    requires FlatBody(Body(text))
    ensures LexOne("[" + ClassText(text) + "]" + END)
         == match Unescape(Body(text))
            case None => None
            case Some(cs) => Some((RClass(IsNegated(text), Singles(cs)), END))
  {
    hide ClassItems, ClassText, Unescape;
    SplitClass(text, END);
    LexFlat(Body(text), true);
  }

  // ---- one class as a pattern ------------------------------------------------------------------

  function ClassOf(text: string): string {
    "[" + text + "]"
  }

  lemma {:induction false} ScanClass(text: string)
    requires BodyShape(Body(text))
    ensures ScanFrom(ClassOf(text), 0) == Scan(Cons(Bracket(text), Nil), true)
  {
    var p := ClassOf(text);
    var j := BodyScanStart(p, 0);
    var k := FindBracket(p, j);
    var n := if IsNegated(text) then 1 else 0;
    assert forall i :: 0 <= i < |text| ==> p[i + 1] == text[i];
    assert forall i :: 0 <= i < |Body(text)| ==> p[i + 1 + n] == Body(text)[i];
    assert j == if Body(text)[0] == ']' then 2 + n else 1 + n;
    assert p[|text| + 1] == ']';
    assert k == |text| + 1;
    assert p[1..k] == text;
    assert NextToken(p, 0) == Some((Bracket(text), k + 1));
    assert ScanFrom(p, k + 1) == Scan(Nil, true);
  }

  /** The class with the given characters, as a glob. */
  function Among(negated: bool, cs: string): Glob {
    Then(OneOf(negated, Singles(cs)), Empty)
  }

  lemma {:induction false} AmongMeans(negated: bool, cs: string, s: string)
    ensures Denotes(Among(negated, cs), s) <==> |s| == 1 && (negated <==> s[0] !in cs)
  {
    hide Singles;
    var item := OneOf(negated, Singles(cs));
    if |s| == 1 {
      SinglesHold(cs, s[0]);
      assert s[..1] == s && s[1..] == "";
    }
    if Denotes(Among(negated, cs), s) {
      var k := SplitThen(item, Empty, s);
      assert s[..k] == s;
    }
    if |s| == 1 && (negated <==> s[0] !in cs) {
      assert ItemDenotes(item, s[..1]) && Denotes(Empty, s[1..]);
    }
  }

  lemma {:induction false} FlatDenotes(text: string, s: string)
    requires FlatBody(Body(text))
    ensures PatternDenotes(ClassOf(text), s) <==> Denotes(Among(IsNegated(text), Body(text)), s)
  {
    ScanClass(text);
    FlatRanges(Body(text));
    var us: List<Token> := Nil;
    assert ParseGlob(us, false) == Some((Empty, Nil));
  }

  lemma {:induction false} FlatCompiles(text: string)
    requires FlatBody(Body(text))
    ensures CompileSpec(ClassOf(text))
         == match Unescape(Body(text))
            case None => Err(BadRegexp)
            case Some(cs) => Ok(Compiled(Among(IsNegated(text), cs)))
  {
    hide Unescape, Singles, Lex, ParseAlternation, Translate;
    ScanClass(text);
    hide ScanFrom, ClassOf;
    var ts: List<Token> := Cons(Bracket(text), Nil);
    var out := "[" + ClassText(text) + "]";
    assert Text(Nil, 0) == "";
    assert Text(ts, 0) == out;
    assert Closes(ts, 0) && !Underflows(ts, 0);
    FlatText(out, text);
    if Unescape(Body(text)).Some? { FlatParses(IsNegated(text), Unescape(Body(text)).value); }
  }

  lemma {:induction false} FlatParses(negated: bool, cs: string)
    ensures ParseAlternation(Cons(RBegin, Cons(RClass(negated, Singles(cs)), Cons(REnd, Nil))))
         == Some((Compiled(Among(negated, cs)), Nil))
  {
    hide Singles;
    var x := Cons(RClass(negated, Singles(cs)), Cons(REnd, Nil));
    var re := Class(negated, Singles(cs));
    ParseEnds();
    assert ParseAtom(x) == Some((re, Cons(REnd, Nil)));
    assert ParseConcat(x) == AddFirst(re, ParseConcat(Cons(REnd, Nil)));
    ParseWhole(x);
    assert ParseConcat(x) == Some((Cat(re, Cat(End, Eps)), Nil));
    assert TranslateItem(OneOf(negated, Singles(cs))) == re;
    assert Translate(Among(negated, cs), Cat(End, Eps)) == Cat(re, Cat(End, Eps));
  }

  lemma {:induction false} FlatText(out: string, text: string)
    requires FlatBody(Body(text)) && out == "[" + ClassText(text) + "]"
    ensures Lex("\\A" + out + END)
         == match Unescape(Body(text))
            case None => None
            case Some(cs) => Some(Cons(RBegin, Cons(RClass(IsNegated(text), Singles(cs)), Cons(REnd, Nil))))
  {
    AssociativeText("\\A", out, END);
    LexAnchors(out + END);
    LexFlatClass(text);
    hide LexOne, Unescape, Singles, ClassText;
    assert Lex(END) == Some(Cons(REnd, Nil));
  }

  /** One class without ranges compiles to an expression of its own meaning exactly if every backslash
      in it starts an escape and, where there is one, some escape is of a backslash. */
  lemma {:induction false} BackslashesKeepMeaningIff(text: string)
    requires FlatBody(Body(text))
    ensures var p := ClassOf(text);
            && CompileSpec(p).Ok?
            && (forall s :: MatchString(CompileSpec(p).value, s) <==> PatternDenotes(p, s))
            <==> KeepsItsCharacters(Body(text))
  {
    hide ClassOf, Unescape, CompileSpec, PatternDenotes, MatchString, Denotes, Compiled, Among;
    var p, body, negated := ClassOf(text), Body(text), IsNegated(text);
    FlatCompiles(text);
    if Unescape(body).Some? {
      var cs := Unescape(body).value;
      UnescapeKeeps(body, '\\');
      forall s
        ensures MatchString(CompileSpec(p).value, s) <==> |s| == 1 && (negated <==> s[0] !in cs)
        ensures PatternDenotes(p, s) <==> |s| == 1 && (negated <==> s[0] !in body)
      {
        AnchoredMeans(Among(negated, cs), s);
        AmongMeans(negated, cs, s);
        AmongMeans(negated, body, s);
        FlatDenotes(text, s);
      }
      if KeepsItsCharacters(body) {
        forall s: string ensures |s| == 1 ==> (s[0] in cs <==> s[0] in body) {
          if |s| == 1 { UnescapeKeeps(body, s[0]); }
        }
      } else {
        var s := "\\";
        assert MatchString(CompileSpec(p).value, s) <==> (negated <==> s[0] !in cs);
        assert PatternDenotes(p, s) <==> (negated <==> s[0] !in body);
      }
    }
  }
}
