/** What an allow-list pattern means: its tokens, its grammar and the strings it denotes. */
module GlobPattern {
  import opened Prelude
  import opened Regexp

  // ---- scanning the pattern ------------------------------------------------------

  datatype Token =
    | Lit(c: char)
    | Star
    | DoubleStar
    | One
    | Bracket(text: string)  // the text between the brackets
    | Open
    | Close
    | Comma

  /** The tokens of a pattern; `closed` is false when a class is not terminated. */
  datatype Scan = Scan(tokens: List<Token>, closed: bool)

  function StarsEnd(p: string, i: nat): (k: nat)
    requires i <= |p|
    ensures i <= k <= |p|
    ensures forall m :: i <= m < k ==> p[m] == '*'
    ensures k < |p| ==> p[k] != '*'
    decreases |p| - i
  {
    if i < |p| && p[i] == '*' then StarsEnd(p, i + 1) else i
  }

  /** Where the search for the closing bracket of the class opened at `i` starts:
      a leading `!` or `^` and a first `]` belong to the class. */
  function BodyScanStart(p: string, i: nat): (j: nat)
    requires i < |p|
    ensures i < j <= |p|
  {
    var j := i + 1;
    var j := if j < |p| && (p[j] == '!' || p[j] == '^') then j + 1 else j;
    if j < |p| && p[j] == ']' then j + 1 else j
  }

  function FindBracket(p: string, j: nat): (k: nat)
    requires j <= |p|
    ensures j <= k <= |p|
    ensures forall m :: j <= m < k ==> p[m] != ']'
    ensures k < |p| ==> p[k] == ']'
    decreases |p| - j
  {
    if j < |p| && p[j] != ']' then FindBracket(p, j + 1) else j
  }

  /** The next token and where it ends; None when it is an unterminated class. */
  function NextToken(p: string, i: nat): (r: Option<(Token, nat)>)
    requires i < |p|
    ensures r.Some? ==> i < r.value.1 <= |p|
  {
    match p[i]
    case '*' => if i + 1 < |p| && p[i + 1] == '*' then Some((DoubleStar, StarsEnd(p, i + 1))) else Some((Star, i + 1))
    case '?' => Some((One, i + 1))
    case '[' =>
      var k := FindBracket(p, BodyScanStart(p, i));
      if k == |p| then None else Some((Bracket(p[i + 1..k]), k + 1))
    case '{' => Some((Open, i + 1))
    case '}' => Some((Close, i + 1))
    case ',' => Some((Comma, i + 1))
    case '\\' => if i + 1 < |p| then Some((Lit(p[i + 1]), i + 2)) else Some((Lit('\\'), i + 1))
    case c => Some((Lit(c), i + 1))
  }

  function ScanFrom(p: string, i: nat): Scan
    requires i <= |p|
    decreases |p| - i
  {
    if i == |p| then Scan(Nil, true)
    else
      match NextToken(p, i)
      case None => Scan(Nil, false)
      case Some((t, k)) =>
        var rest := ScanFrom(p, k);
        Scan(Cons(t, rest.tokens), rest.closed)
  }

  // ---- braces ----------------------------------------------------------------------

  function Delta(t: Token): int {
    match t
    case Open => 1
    case Close => -1
    case _ => 0
  }

  /** The braces close from depth `d`, never closing more than were opened. */
  predicate Closes(ts: List<Token>, d: int) {
    match ts
    case Nil => d == 0
    case Cons(t, us) => d + Delta(t) >= 0 && Closes(us, d + Delta(t))
  }

  /** Some brace closes that was not opened. */
  predicate Underflows(ts: List<Token>, d: int) {
    ts.Cons? && (d + Delta(ts.head) < 0 || Underflows(ts.tail, d + Delta(ts.head)))
  }

  // ---- classes -----------------------------------------------------------------------

  predicate IsNegated(text: string) {
    text != "" && (text[0] == '!' || text[0] == '^')
  }

  function Body(text: string): string {
    if IsNegated(text) then text[1..] else text
  }

  /** Characters and ascending ranges; None when a range descends. A `-` at either end is itself. */
  function BodyRanges(body: string): Option<seq<Range>> {
    if body == "" then Some([])
    else if |body| >= 3 && body[1] == '-' then
      if body[2] < body[0] then None
      else
        match BodyRanges(body[3..])
        case None => None
        case Some(rs) => Some([Range(body[0], body[2])] + rs)
    else
      match BodyRanges(body[1..])
      case None => None
      case Some(rs) => Some([Range(body[0], body[0])] + rs)
  }

  predicate Descends(t: Token) {
    t.Bracket? && BodyRanges(Body(t.text)).None?
  }

  predicate Ascending(ts: List<Token>) {
    ts.Cons? ==> !Descends(ts.head) && Ascending(ts.tail)
  }

  /** The class syntax the patterns document: no escapes and no named class inside brackets. */
  predicate PlainBody(body: string) {
    && '\\' !in body
    && forall i :: 0 <= i < |body| - 1 ==> !(body[i] == '[' && body[i + 1] == ':')
  }

  predicate PlainClasses(ts: List<Token>) {
    ts.Cons? ==> (ts.head.Bracket? ==> PlainBody(Body(ts.head.text))) && PlainClasses(ts.tail)
  }

  // ---- the grammar --------------------------------------------------------------------

  datatype Glob = Empty | Then(head: Item, tail: Glob)

  datatype Item =
    | Character(c: char)
    | Run
    | AnyRun
    | Single
    | OneOf(negated: bool, ranges: seq<Range>)
    | Choice(alts: Alts)

  datatype Alts = Last(g: Glob) | Or(g: Glob, rest: Alts)

  // A parsed pattern and the tokens after it.
  type ParsedGlob = Option<(Glob, List<Token>)>

  /** A sequence of items. Inside braces it ends before `,` or `}`; outside, `,` is a character. */
  function ParseGlob(ts: List<Token>, nested: bool): (r: ParsedGlob)
    ensures r.Some? ==> Length(r.value.1) <= Length(ts)
    decreases Length(ts), 0
  {
    match ts
    case Nil => Some((Empty, Nil))
    case Cons(Close, _) => if nested then Some((Empty, ts)) else None
    case Cons(Comma, us) => if nested then Some((Empty, ts)) else Prepend(Character(','), ParseGlob(us, nested))
    case Cons(Lit(c), us) => Prepend(Character(c), ParseGlob(us, nested))
    case Cons(Star, us) => Prepend(Run, ParseGlob(us, nested))
    case Cons(DoubleStar, us) => Prepend(AnyRun, ParseGlob(us, nested))
    case Cons(One, us) => Prepend(Single, ParseGlob(us, nested))
    case Cons(Bracket(text), us) =>
      (match BodyRanges(Body(text))
       case None => None
       case Some(rs) => Prepend(OneOf(IsNegated(text), rs), ParseGlob(us, nested)))
    case Cons(Open, us) =>
      (match ParseChoices(us)
       case None => None
       case Some((alts, rest)) => Prepend(Choice(alts), ParseGlob(rest, nested)))
  }

  function Prepend(h: Item, r: ParsedGlob): ParsedGlob {
    match r case None => None case Some((g, rest)) => Some((Then(h, g), rest))
  }

  /** The alternatives after `{` up to and including the matching `}`. */
  function ParseChoices(ts: List<Token>): (r: Option<(Alts, List<Token>)>)
    ensures r.Some? ==> Length(r.value.1) <= Length(ts)
    decreases Length(ts), 1
  {
    match ParseGlob(ts, true)
    case Some((g, Cons(Close, rest))) => Some((Last(g), rest))
    case Some((g, Cons(Comma, rest))) =>
      (match ParseChoices(rest)
       case None => None
       case Some((alts, rest')) => Some((Or(g, alts), rest')))
    case _ => None
  }

  // ---- the strings a pattern denotes ------------------------------------------------------

  predicate IsSeparator(c: char) {
    c == '.' || c == '/'
  }

  ghost predicate Denotes(g: Glob, s: string)
    decreases g
  {
    match g
    case Empty => s == ""
    case Then(h, t) => exists k :: 0 <= k <= |s| && ItemDenotes(h, s[..k]) && Denotes(t, s[k..])
  }

  ghost predicate ItemDenotes(h: Item, s: string)
    decreases h
  {
    match h
    case Character(c) => s == [c]
    case Run => forall i :: 0 <= i < |s| ==> !IsSeparator(s[i])
    case AnyRun => forall i :: 0 <= i < |s| ==> s[i] != '\n'
    case Single => |s| == 1 && !IsSeparator(s[0])
    case OneOf(negated, ranges) => |s| == 1 && InClass(negated, ranges, s[0])
    case Choice(alts) => AltsDenote(alts, s)
  }

  ghost predicate AltsDenote(alts: Alts, s: string)
    decreases alts
  {
    match alts
    case Last(g) => Denotes(g, s)
    case Or(g, rest) => Denotes(g, s) || AltsDenote(rest, s)
  }

  /** The pattern is well formed: every class closes and ascends, and the braces balance. */
  predicate WellFormed(p: string) {
    var sc := ScanFrom(p, 0);
    sc.closed && Closes(sc.tokens, 0) && Ascending(sc.tokens)
  }

  ghost predicate PatternDenotes(p: string, s: string) {
    var r := ParseGlob(ScanFrom(p, 0).tokens, false);
    ScanFrom(p, 0).closed && r.Some? && r.value.1 == Nil && Denotes(r.value.0, s)
  }
}
