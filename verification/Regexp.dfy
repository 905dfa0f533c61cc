/** The part of Go's `regexp/syntax` (Perl flags) that a compiled allow-list glob uses:
    a lexer over the expression text, a parser to a syntax tree and its matching relation. */
module Regexp {
  import opened Prelude

  // An inclusive range of a character class.
  datatype Range = Range(lo: char, hi: char)

  datatype RTok =
    | RLit(c: char)
    | RDot
    | RClass(negated: bool, ranges: seq<Range>)
    | RStar
    | ROpen
    | RClose
    | RBar
    | RBegin
    | REnd

  datatype Regex =
    | Eps
    | Chr(c: char)
    | Dot
    | Class(negated: bool, ranges: seq<Range>)
    | Rep(body: Regex)
    | Cat(first: Regex, second: Regex)
    | Alt(left: Regex, right: Regex)
    | Begin
    | End

  predicate InRanges(ranges: seq<Range>, c: char) {
    exists i :: 0 <= i < |ranges| && ranges[i].lo <= c <= ranges[i].hi
  }

  predicate InClass(negated: bool, ranges: seq<Range>, c: char) {
    negated != InRanges(ranges, c)
  }

  /** `re` matches `s[i..j]` inside the text `s`; the anchors look at the position in `s`. */
  ghost predicate MatchesAt(re: Regex, s: string, i: nat, j: nat)
    requires i <= j <= |s|
    decreases re, j - i
  {
    match re
    case Eps => i == j
    case Chr(c) => j == i + 1 && s[i] == c
    case Dot => j == i + 1 && s[i] != '\n'
    case Class(negated, ranges) => j == i + 1 && InClass(negated, ranges, s[i])
    case Rep(body) =>
      i == j || exists k :: i < k <= j && MatchesAt(body, s, i, k) && MatchesAt(re, s, k, j)
    case Cat(a, b) => exists k :: i <= k <= j && MatchesAt(a, s, i, k) && MatchesAt(b, s, k, j)
    case Alt(a, b) => MatchesAt(a, s, i, j) || MatchesAt(b, s, i, j)
    case Begin => i == j == 0
    case End => i == j == |s|
  }

  /** Regexp.MatchString: the expression matches somewhere in `s`. */
  ghost predicate MatchString(re: Regex, s: string) {
    exists i, j :: 0 <= i <= j <= |s| && MatchesAt(re, s, i, j)
  }

  // ---- lexing -----------------------------------------------------------------

  // regexp.QuoteMeta escapes exactly these.
  predicate IsMeta(c: char) {
    c in "\\.+*?()|[]{}^$"
  }

  predicate IsAsciiPunct(c: char) {
    && c as int < 128
    && !('0' <= c <= '9') && !('a' <= c <= 'z') && !('A' <= c <= 'Z')
  }

  function QuoteMeta(c: char): string {
    if IsMeta(c) then ['\\', c] else [c]
  }

  /** One, possibly escaped, character of a class. Named classes and escapes of letters and digits, such as `\d` and
      `\x2e`, are outside this fragment. */
  function ClassChar(t: string): (r: Option<(char, string)>)
    ensures r.Some? ==> |r.value.1| < |t|
  {
    if t == "" then None
    else if t[0] != '\\' then Some((t[0], t[1..]))
    else if |t| >= 2 && IsAsciiPunct(t[1]) then Some((t[1], t[2..]))
    else None
  }

  /** The ranges up to the closing bracket, and the text after it. */
  function ClassItems(t: string, first: bool): (r: Option<(seq<Range>, string)>)
    ensures r.Some? ==> |r.value.1| < |t|
    decreases |t|
  {
    if t == "" then None
    else if t[0] == ']' && !first then Some(([], t[1..]))
    else if |t| > 2 && t[0] == '[' && t[1] == ':' then None
    else
      match ClassChar(t)
      case None => None
      case Some((lo, t1)) =>
        if |t1| >= 2 && t1[0] == '-' && t1[1] != ']' then
          match ClassChar(t1[1..])
          case None => None
          case Some((hi, t2)) =>
            if hi < lo then None
            else
              match ClassItems(t2, false)
              case None => None
              case Some((rs, rest)) => Some(([Range(lo, hi)] + rs, rest))
        else
          match ClassItems(t1, false)
          case None => None
          case Some((rs, rest)) => Some(([Range(lo, lo)] + rs, rest))
  }

  function LexOne(t: string): (r: Option<(RTok, string)>)
    requires t != ""
    ensures r.Some? ==> |r.value.1| < |t|
  {
    var c := t[0];
    if c == '\\' then
      if |t| < 2 then None
      else if t[1] == 'A' then Some((RBegin, t[2..]))
      else if t[1] == 'z' then Some((REnd, t[2..]))
      else if IsAsciiPunct(t[1]) then Some((RLit(t[1]), t[2..]))
      else None
    else if c == '.' then Some((RDot, t[1..]))
    else if c == '*' then Some((RStar, t[1..]))
    else if c == ')' then Some((RClose, t[1..]))
    else if c == '|' then Some((RBar, t[1..]))
    else if c == '(' then
      if |t| >= 3 && t[1] == '?' && t[2] == ':' then Some((ROpen, t[3..])) else None
    else if c == '[' then
      var negated := |t| >= 2 && t[1] == '^';
      (match ClassItems(if negated then t[2..] else t[1..], true)
       case None => None
       case Some((rs, rest)) => Some((RClass(negated, rs), rest)))
    else if c in "+?{^$" then None
    else Some((RLit(c), t[1..]))
  }

  function Lex(t: string): Option<List<RTok>>
    decreases |t|
  {
    if t == "" then Some(Nil)
    else
      match LexOne(t)
      case None => None
      case Some((tok, rest)) =>
        match Lex(rest)
        case None => None
        case Some(toks) => Some(Cons(tok, toks))
  }

  // ---- parsing ----------------------------------------------------------------

  // A parsed expression and the tokens after it.
  type Parsed = Option<(Regex, List<RTok>)>

  /** alternation := concat ('|' concat)* */
  function ParseAlternation(ts: List<RTok>): (r: Parsed)
    ensures r.Some? ==> Length(r.value.1) <= Length(ts)
    decreases Length(ts), 1
  {
    match ParseConcat(ts)
    case None => None
    case Some((a, Cons(RBar, rest))) =>
      (match ParseAlternation(rest)
       case None => None
       case Some((b, rest')) => Some((Alt(a, b), rest')))
    case Some((a, rest)) => Some((a, rest))
  }

  /** concat := (atom '*'?)*, ending at the end, at '|' or at ')'. */
  function ParseConcat(ts: List<RTok>): (r: Parsed)
    ensures r.Some? ==> Length(r.value.1) <= Length(ts)
    decreases Length(ts), 0
  {
    match ts
    case Nil => Some((Eps, ts))
    case Cons(RBar, _) => Some((Eps, ts))
    case Cons(RClose, _) => Some((Eps, ts))
    case Cons(_, _) =>
      match ParseAtom(ts)
      case None => None
      case Some((a, Cons(RStar, rest))) => AddFirst(Rep(a), ParseConcat(rest))
      case Some((a, rest)) => AddFirst(a, ParseConcat(rest))
  }

  function AddFirst(a: Regex, r: Parsed): Parsed {
    match r case None => None case Some((b, rest)) => Some((Cat(a, b), rest))
  }

  function ParseAtom(ts: List<RTok>): (r: Parsed)
    requires ts.Cons?
    ensures r.Some? ==> Length(r.value.1) < Length(ts)
    decreases Length(ts) - 1, 2
  {
    match ts.head
    case RLit(c) => Some((Chr(c), ts.tail))
    case RDot => Some((Dot, ts.tail))
    case RClass(negated, ranges) => Some((Class(negated, ranges), ts.tail))
    case RBegin => Some((Begin, ts.tail))
    case REnd => Some((End, ts.tail))
    case ROpen =>
      (match ParseAlternation(ts.tail)
       case Some((a, Cons(RClose, rest))) => Some((a, rest))
       case _ => None)
    case _ => None
  }

  /** regexp.Compile on this fragment; None is a compile error. */
  function Compile(text: string): Option<Regex> {
    match Lex(text)
    case None => None
    case Some(toks) =>
      match ParseAlternation(toks)
      case Some((re, Nil)) => Some(re)
      case _ => None
  }
}
