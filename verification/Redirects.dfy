/** The redirect allow-list: compiled once from the configuration, then asked about every target. */
module Redirects {
  import opened Prelude
  import opened Regexp
  import opened GlobPattern
  import opened GlobCompiler
  import opened GlobMeaning

  // What a host name is, as far as the rules ask.
  datatype Host = Decimal | Ip(loopback: bool) | Regular | Irregular

  // A parsed URL: its scheme (lower case), host name and port, and what kind of host the name is.
  datatype Url = Url(scheme: string, hostname: string, port: string, host: Host)

  // Parsing is a function of the text; None is a text that does not parse.
  type Parser = string -> Option<Url>

  // ---- the configuration ------------------------------------------------------------------

  /** The entries that count: stripped of blanks, empty ones skipped. */
  function Entries(list: seq<string>): seq<string> {
    if list == [] then []
    else Entries(list[..|list| - 1]) + (var p := Trim(list[|list| - 1]); if p == "" then [] else [p])
  }

  predicate CompiledFrom(globs: seq<Regex>, entries: seq<string>) {
    |globs| == |entries| && forall i :: 0 <= i < |entries| ==> CompileSpec(entries[i]) == Ok(globs[i])
  }

  /** The first entry that does not compile is the answer; else every entry's expression, in order. */
  function CompileList(entries: seq<string>): Result<seq<Regex>, string> {
    if entries == [] then Ok([])
    else
      var last := entries[|entries| - 1];
      match CompileList(entries[..|entries| - 1])
      case Err(e) => Err(e)
      case Ok(globs) =>
        match CompileSpec(last)
        case Err(_) => Err(last)
        case Ok(g) => Ok(globs + [g])
  }

  method CompileAll(list: seq<string>) returns (r: Result<seq<Regex>, string>)
    ensures r == CompileList(Entries(list))
  {
    hide CompileList, Entries, CompileSpec;
    var globs := [];
    NothingListed();
    for n := 0 to |list|
      invariant CompileList(Entries(list[..n])) == Ok(globs)
    {
      var p := Trim(list[n]);
      OneMoreEntry(list, n);
      if p == "" {
        continue;
      }
      OneMoreCompiled(Entries(list[..n]), p);
      var g := CompileGlob(p);
      if g.Err? {
        FailureStays(list, n + 1);
        return Err(p);
      }
      globs := globs + [g.value];
    }
    assert list[..|list|] == list;
    return Ok(globs);
  }

  lemma {:induction false} NothingListed()
    ensures Entries([]) == [] && CompileList([]) == Ok([])
  {}

  lemma {:induction false} OneMoreEntry(list: seq<string>, n: nat)
    requires n < |list|
    ensures var p := Trim(list[n]); Entries(list[..n + 1]) == Entries(list[..n]) + (if p == "" then [] else [p])
    ensures Trim(list[n]) == "" ==> Entries(list[..n + 1]) == Entries(list[..n])
  {
    assert list[..n + 1][..n] == list[..n];
  }

  lemma {:induction false} OneMoreCompiled(entries: seq<string>, p: string)
    ensures CompileList(entries + [p]) ==
            if CompileList(entries).Err? then CompileList(entries)
            else if CompileSpec(p).Err? then Err(p) else Ok(CompileList(entries).value + [CompileSpec(p).value])
  {
    assert (entries + [p])[..|entries|] == entries;
  }

  lemma {:induction false} FailureStays(list: seq<string>, n: nat)
    requires n <= |list| && CompileList(Entries(list[..n])).Err?
    ensures CompileList(Entries(list)) == CompileList(Entries(list[..n]))
    decreases |list| - n
  {
    hide CompileList, Entries, CompileSpec;
    if n < |list| {
      OneMoreEntry(list, n);
      OneMoreCompiled(Entries(list[..n]), Trim(list[n]));
      FailureStays(list, n + 1);
    } else {
      assert list[..n] == list;
    }
  }

  /** Success has every entry's expression, in order; the entry named by a failure is the first that fails. */
  lemma {:induction false} FirstFailure(entries: seq<string>)
    ensures match CompileList(entries)
            case Ok(globs) => CompiledFrom(globs, entries)
            case Err(e) => exists n :: 0 <= n < |entries| && entries[n] == e && CompileSpec(entries[n]).Err?
                                       && forall m :: 0 <= m < n ==> CompileSpec(entries[m]).Ok?
  {
    if entries != [] {
      var front, last := entries[..|entries| - 1], |entries| - 1;
      FirstFailure(front);
      match CompileList(front)
      case Err(e) =>
        var n :| 0 <= n < |front| && front[n] == e && CompileSpec(front[n]).Err?
                 && forall m :: 0 <= m < n ==> CompileSpec(front[m]).Ok?;
        assert entries[n] == e && forall m :: 0 <= m < n ==> entries[m] == front[m];
      case Ok(globs) =>
        assert forall m :: 0 <= m < last ==> CompileSpec(front[m]).Ok? && entries[m] == front[m];
        if CompileSpec(entries[last]).Err? { assert entries[last] == CompileList(entries).error; }
    }
  }

  /** A configuration of the documented class syntax is accepted exactly when every entry is a well-formed glob. */
  lemma {:induction false} ConfigurationAccepted(list: seq<string>)
    requires forall e :: e in Entries(list) ==> PlainClasses(ScanFrom(e, 0).tokens)
    ensures CompileList(Entries(list)).Ok? <==> forall e :: e in Entries(list) ==> WellFormed(e)
  {
    var entries := Entries(list);
    hide WellFormed, CompileSpec;
    FirstFailure(entries);
    forall e | e in entries ensures CompileSpec(e).Ok? <==> WellFormed(e) { AcceptsExactlyWellFormed(e); }
    if CompileList(entries).Ok? {
      forall e | e in entries ensures WellFormed(e) {
        var i :| 0 <= i < |entries| && entries[i] == e;
        assert CompileSpec(entries[i]).Ok?;
      }
    } else {
      var n :| 0 <= n < |entries| && CompileSpec(entries[n]).Err?;
      assert entries[n] in entries;
    }
  }

  // ---- the decision ---------------------------------------------------------------------------

  function BeforeHash(text: string): string {
    if text == "" || text[0] == '#' then "" else [text[0]] + BeforeHash(text[1..])
  }

  predicate LoopbackName(u: Url) {
    u.hostname == "localhost" || u.host == Ip(true)
  }

  predicate SameSite(site: Url, u: Url) {
    site.hostname == u.hostname && site.scheme == u.scheme && (site.port == u.port || LoopbackName(u))
  }

  ghost predicate AnyMatches(globs: seq<Regex>, s: string) {
    exists i :: 0 <= i < |globs| && MatchString(globs[i], s)
  }

  /** The rules in their order. */
  ghost predicate IsRedirectAllowed(parse: Parser, siteUrl: string, globs: seq<Regex>, text: string) {
    var base, ref := parse(siteUrl), parse(text);
    if text == "" || base.None? || ref.None? then false
    else if SameSite(base.value, ref.value) then true
    else
      match ref.value.host
      case Decimal => false
      case Ip(loopback) => loopback
      case Irregular => ref.value.scheme != "http" && ref.value.scheme != "https" && AnyMatches(globs, BeforeHash(text))
      case Regular => AnyMatches(globs, BeforeHash(text))
  }

  /** The first allowed candidate, or the site. */
  ghost function RedirectOrSite(parse: Parser, siteUrl: string, globs: seq<Regex>, candidates: seq<string>): string {
    if candidates == [] then siteUrl
    else if IsRedirectAllowed(parse, siteUrl, globs, candidates[0]) then candidates[0]
    else RedirectOrSite(parse, siteUrl, globs, candidates[1..])
  }

  // ---- properties --------------------------------------------------------------------------------

  /** The text that is matched is the one before its first `#`. */
  lemma {:induction false} BeforeHashMeans(text: string)
    ensures '#' !in BeforeHash(text)
    ensures text == BeforeHash(text) || BeforeHash(text) + "#" <= text
  {
    if text != "" && text[0] != '#' {
      BeforeHashMeans(text[1..]);
      assert text == [text[0]] + text[1..];
      assert [text[0]] + (BeforeHash(text[1..]) + "#") == BeforeHash(text) + "#";
    }
  }

  /** The entries that count are the listed ones without blanks around them, except those that are nothing else. */
  lemma {:induction false} EntriesMean(list: seq<string>, e: string)
    ensures e in Entries(list) <==> e != "" && exists n :: 0 <= n < |list| && Trim(list[n]) == e
  {
    hide Trim;
    if list != [] {
      var front, last := list[..|list| - 1], |list| - 1;
      EntriesMean(front, e);
      assert forall n :: 0 <= n < last ==> front[n] == list[n];
    }
  }

  /** The target has the site's host and scheme and, but on a loopback host, its port. */
  predicate OnSite(site: Url, u: Url) {
    && u.hostname == site.hostname && u.scheme == site.scheme
    && (u.port != site.port ==> u.hostname == "localhost" || (u.host.Ip? && u.host.loopback))
  }

  /** What the configured entries say of a text, its fragment aside. */
  ghost predicate Listed(entries: seq<string>, text: string) {
    exists i :: 0 <= i < |entries| && PatternDenotes(entries[i], BeforeHash(text))
  }

  /** How a target that is not the site's own is judged: addresses by themselves, names by the entries. */
  ghost predicate Judged(u: Url, entries: seq<string>, text: string) {
    match u.host
    case Decimal => false
    case Ip(loopback) => loopback
    case Irregular => u.scheme != "http" && u.scheme != "https" && Listed(entries, text)
    case Regular => Listed(entries, text)
  }

  lemma {:induction false} MatchesWhatIsListed(globs: seq<Regex>, entries: seq<string>, text: string)
    requires CompiledFrom(globs, entries) && forall p :: p in entries ==> PlainClasses(ScanFrom(p, 0).tokens)
    ensures AnyMatches(globs, BeforeHash(text)) <==> Listed(entries, text)
  {
    hide PatternDenotes, CompileSpec, MatchString;
    forall i | 0 <= i < |entries|
      ensures MatchString(globs[i], BeforeHash(text)) <==> PatternDenotes(entries[i], BeforeHash(text))
    {
      assert entries[i] in entries;
      CompiledMatchesWhatItDenotes(entries[i], BeforeHash(text));
    }
  }

  /** For every target: allowed exactly when it is not empty, both URLs parse, and it is on the site, or a loopback
      address, or a name that some entry of the configuration denotes, its fragment aside. */
  lemma {:induction false} ForeignTargetsNeedAnEntry(
      parse: Parser, siteUrl: string, globs: seq<Regex>, entries: seq<string>, text: string)
    requires CompiledFrom(globs, entries) && forall p :: p in entries ==> PlainClasses(ScanFrom(p, 0).tokens)
    ensures IsRedirectAllowed(parse, siteUrl, globs, text) <==>
            && text != "" && parse(siteUrl).Some? && parse(text).Some?
            && (OnSite(parse(siteUrl).value, parse(text).value) || Judged(parse(text).value, entries, text))
  {
    hide AnyMatches, Listed, CompiledFrom, PlainClasses;
    MatchesWhatIsListed(globs, entries, text);
  }

  /** With entries of characters, `*` and `?` only, an allowed target is on the site, a loopback address, or has as
      many dots and slashes as some entry: no deeper path and no further subdomain slips through. */
  lemma {:induction false} NothingDeeperSlipsThrough(
      parse: Parser, siteUrl: string, globs: seq<Regex>, entries: seq<string>, text: string)
    requires CompiledFrom(globs, entries) && forall p :: p in entries ==> WithinSegments(p)
    requires IsRedirectAllowed(parse, siteUrl, globs, text)
    ensures || OnSite(parse(siteUrl).value, parse(text).value)
            || parse(text).value.host == Ip(true)
            || exists i :: 0 <= i < |entries| && Separators(BeforeHash(text)) == Separators(entries[i])
  {
    forall p | p in entries ensures PlainClasses(ScanFrom(p, 0).tokens) { NoClasses(ScanFrom(p, 0).tokens); }
    ForeignTargetsNeedAnEntry(parse, siteUrl, globs, entries, text);
    if Listed(entries, text) {
      var i :| 0 <= i < |entries| && PatternDenotes(entries[i], BeforeHash(text));
      assert entries[i] in entries;
      SeparatorsPreserved(entries[i], BeforeHash(text));
    }
  }

  lemma {:induction false} NoClasses(ts: List<Token>)
    requires PlainTokens(ts)
    ensures PlainClasses(ts)
  {
    if ts.Cons? { NoClasses(ts.tail); }
  }

  /** The first allowed candidate is answered, and the site only if there is none. */
  lemma {:induction false} AnswersTheFirst(parse: Parser, siteUrl: string, globs: seq<Regex>, candidates: seq<string>,
      n: nat)
    requires n <= |candidates| && forall m :: 0 <= m < n ==> !IsRedirectAllowed(parse, siteUrl, globs, candidates[m])
    requires n < |candidates| ==> IsRedirectAllowed(parse, siteUrl, globs, candidates[n])
    ensures RedirectOrSite(parse, siteUrl, globs, candidates) == if n < |candidates| then candidates[n] else siteUrl
    decreases |candidates|
  {
    hide IsRedirectAllowed;
    if n > 0 { AnswersTheFirst(parse, siteUrl, globs, candidates[1..], n - 1); }
  }

  /** What is answered is always allowed itself, as long as the site's own URL is one. */
  lemma {:induction false} AnswerIsAllowed(parse: Parser, siteUrl: string, globs: seq<Regex>, candidates: seq<string>)
    requires siteUrl != "" && parse(siteUrl).Some?
    ensures IsRedirectAllowed(parse, siteUrl, globs, RedirectOrSite(parse, siteUrl, globs, candidates))
    decreases |candidates|
  {
    if candidates != [] && !IsRedirectAllowed(parse, siteUrl, globs, candidates[0]) {
      AnswerIsAllowed(parse, siteUrl, globs, candidates[1..]);
    }
  }

  /** Corollary: a target that differs from the site in its port only is on the site exactly on a loopback host, by name
      or by address (section 7.3 of RFC 8252); on any other it is judged like a foreign one. */
  lemma {:induction false} PortsMatter(parse: Parser, siteUrl: string, globs: seq<Regex>, entries: seq<string>,
      text: string)
    requires CompiledFrom(globs, entries) && forall p :: p in entries ==> PlainClasses(ScanFrom(p, 0).tokens)
    requires text != "" && parse(siteUrl).Some? && parse(text).Some?
    requires var a, b := parse(siteUrl).value, parse(text).value;
             a.hostname == b.hostname && a.scheme == b.scheme && a.port != b.port
    ensures var u := parse(text).value;
            var loopback := u.hostname == "localhost" || u.host == Ip(true);
            && (IsRedirectAllowed(parse, siteUrl, globs, text) <==> loopback || Judged(u, entries, text))
            && (entries == [] ==> (IsRedirectAllowed(parse, siteUrl, globs, text) <==> loopback))
  {
    ForeignTargetsNeedAnEntry(parse, siteUrl, globs, entries, text);
  }
}
