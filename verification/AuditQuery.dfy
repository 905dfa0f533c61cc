/** The compatibility view over the audit log: `?query=` filters stored, untranslated events so that
    the answer is the one a substring search over the translated events would give. */
module AuditQuery {
  import opened Prelude

  // The upstream name and log type an action is presented under.
  datatype Upstream = Upstream(action: string, logType: string)

  type Translations = map<string, Upstream>

  datatype Row = Row(actorId: Option<string>, action: string)

  // What the translated payload shows of a row.
  datatype Entry = Entry(actorId: string, action: string, logType: string, dilionAction: string)

  function MapAction(t: Translations, a: string): Upstream {
    if a in t then t[a] else Upstream(a, "")
  }

  function ToEntry(t: Translations, r: Row): Entry {
    var up := MapAction(t, r.action);
    Entry(if r.actorId.Some? then r.actorId.value else "", up.action, up.logType, r.action)
  }

  // ---- substrings and LIKE ------------------------------------------

  predicate HasAt(s: string, v: string, i: nat) {
    i + |v| <= |s| && s[i..i + |v|] == v
  }

  predicate Contains(s: string, v: string) {
    exists i: nat :: i <= |s| && HasAt(s, v, i)
  }

  predicate ContainsFold(s: string, v: string) {
    Contains(Lower(s), Lower(v))
  }

  /** LIKE with backslash as its escape; a pattern ending in a lone backslash matches nothing. */
  predicate Like(s: string, p: string)
    decreases |p| + |s|
  {
    if p == "" then s == ""
    else if p[0] == '%' then Like(s, p[1..]) || (s != "" && Like(s[1..], p))
    else if p[0] == '_' then s != "" && Like(s[1..], p[1..])
    else if p[0] == '\\' then |p| >= 2 && s != "" && s[0] == p[1] && Like(s[1..], p[2..])
    else s != "" && s[0] == p[0] && Like(s[1..], p[1..])
  }

  predicate ILike(s: string, p: string) {
    Like(Lower(s), Lower(p))
  }

  function EscapeChar(c: char): string {
    if c == '\\' || c == '%' || c == '_' then ['\\', c] else [c]
  }

  function EscapeLike(s: string): string {
    if s == "" then "" else EscapeChar(s[0]) + EscapeLike(s[1..])
  }

  function Pattern(v: string): string {
    "%" + EscapeLike(v) + "%"
  }

  lemma {:induction false} LikePrefix(s: string, v: string)
    ensures Like(s, EscapeLike(v) + "%") <==> HasAt(s, v, 0)
    decreases |v|
  {
    var p := EscapeLike(v) + "%";
    if v == "" {
      assert p == "%";
      PercentMatchesAll(s);
    } else {
      var q := EscapeLike(v[1..]) + "%";
      assert p == EscapeChar(v[0]) + q;
      assert if |EscapeChar(v[0])| == 2 then p[2..] == q else p[1..] == q;
      if s != "" {
        LikePrefix(s[1..], v[1..]);
        if HasAt(s[1..], v[1..], 0) && s[0] == v[0] { assert s[0..|v|] == [s[0]] + s[1..][0..|v| - 1]; }
        if HasAt(s, v, 0) { assert s[1..][0..|v| - 1] == s[0..|v|][1..]; }
      }
    }
  }

  lemma {:induction false} PercentMatchesAll(s: string)
    ensures Like(s, "%")
  {
    if s != "" { PercentMatchesAll(s[1..]); }
  }

  /** `%` + escaped value + `%` under LIKE means "contains the value". */
  lemma {:induction false} LikeMeansContains(s: string, v: string)
    ensures Like(s, Pattern(v)) <==> Contains(s, v)
    decreases |s|
  {
    var p := Pattern(v);
    assert p[1..] == EscapeLike(v) + "%";
    LikePrefix(s, v);
    if s != "" {
      LikeMeansContains(s[1..], v);
      ContainsLater(s, v);
    }
  }

  lemma {:induction false} ContainsLater(s: string, v: string)
    requires s != ""
    ensures Contains(s, v) <==> HasAt(s, v, 0) || Contains(s[1..], v)
  {
    if Contains(s[1..], v) {
      var i: nat :| i <= |s[1..]| && HasAt(s[1..], v, i);
      HasAtLater(s, v, i);
      assert HasAt(s, v, i + 1);
    }
    if Contains(s, v) {
      var i: nat :| i <= |s| && HasAt(s, v, i);
      if i > 0 { HasAtLater(s, v, i - 1); }
    }
  }

  lemma {:induction false} HasAtLater(s: string, v: string, i: nat)
    requires s != ""
    ensures HasAt(s[1..], v, i) <==> HasAt(s, v, i + 1)
  {
    if i + 1 + |v| <= |s| {
      assert s[1..][i..i + |v|] == s[i + 1..i + 1 + |v|];
    }
  }

  lemma {:induction false} LowerEscape(v: string)
    ensures Lower(EscapeLike(v)) == EscapeLike(Lower(v))
  {
    if v != "" {
      LowerEscape(v[1..]);
      assert Lower(v)[1..] == Lower(v[1..]);
      assert EscapeLike(v) == EscapeChar(v[0]) + EscapeLike(v[1..]);
      assert Lower(EscapeChar(v[0])) == EscapeChar(LowerChar(v[0]));
      LowerConcat(EscapeChar(v[0]), EscapeLike(v[1..]));
    }
  }

  lemma {:induction false} LowerConcat(a: string, b: string)
    ensures Lower(a + b) == Lower(a) + Lower(b)
  {}

  /** The same case-insensitively. */
  lemma {:induction false} ILikeMeansContains(s: string, v: string)
    ensures ILike(s, Pattern(v)) <==> ContainsFold(s, v)
  {
    LowerConcat("%" + EscapeLike(v), "%");
    LowerConcat("%", EscapeLike(v));
    assert Lower("%") == "%";
    LowerEscape(v);
    LikeMeansContains(Lower(s), Lower(v));
  }

  // ---- parsing the query -------------------------------------------------------------------

  datatype Filter = Filter(
    authorLike: string, actionLike: string, actionIn: seq<string>, actionSet: bool, excludeMapped: bool)

  const NO_FILTER := Filter("", "", [], false, false)

  datatype Scope = Author | Action | LogType

  function FirstColon(q: string, i: nat): (k: nat)
    requires i <= |q|
    ensures i <= k <= |q|
    ensures forall m :: i <= m < k ==> q[m] != ':'
    ensures k < |q| ==> q[k] == ':'
    decreases |q| - i
  {
    if i < |q| && q[i] != ':' then FirstColon(q, i + 1) else i
  }

  function ScopeNamed(s: string): Option<Scope> {
    if s == "author" then Some(Author)
    else if s == "action" then Some(Action)
    else if s == "type" then Some(LogType)
    else None
  }

  /** The scope and value of a query; None when it has no colon or an unknown scope. */
  function Query(q: string): Option<(Scope, string)> {
    var k := FirstColon(q, 0);
    if k == |q| then None
    else
      match ScopeNamed(q[..k])
      case None => None
      case Some(scope) => Some((scope, q[k + 1..]))
  }

  function Field(e: Entry, scope: Scope): string {
    match scope
    case Author => e.actorId
    case Action => e.action
    case LogType => e.logType
  }

  /** The documented meaning: the value is a substring of the translated field, whatever its case. */
  predicate Wanted(t: Translations, q: string, r: Row) {
    q == "" || (Query(q).Some? && ContainsFold(Field(ToEntry(t, r), Query(q).value.0), Query(q).value.1))
  }

  function Projected(up: Upstream, scope: Scope): string {
    if scope == LogType then up.logType else up.action
  }

  method DilionActionsMatching(t: Translations, value: string, scope: Scope) returns (out: seq<string>)
    ensures forall a :: a in out <==>
            a in t && Projected(t[a], scope) != "" && ContainsFold(Projected(t[a], scope), value)
  {
    out := [];
    var todo := t.Keys;
    while todo != {}
      invariant todo <= t.Keys
      invariant forall a :: a in out <==>
                a in t && a !in todo && Projected(t[a], scope) != "" && ContainsFold(Projected(t[a], scope), value)
      decreases todo
    {
      var a :| a in todo;
      todo := todo - {a};
      var p := Projected(t[a], scope);
      if p != "" && ContainsFold(p, value) {
        out := out + [a];
      }
    }
  }

  method ParseAuditQuery(t: Translations, q: string) returns (r: Result<Filter, ()>)
    ensures r.Ok? <==> q == "" || Query(q).Some?
    ensures r.Ok? ==> forall row :: FilterAccepts(t, r.value, row) <==> Wanted(t, q, row)
  {
    if q == "" {
      return Ok(NO_FILTER);
    }
    var k := FirstColon(q, 0);
    if k == |q| {
      return Err(());
    }
    var scope, value := q[..k], q[k + 1..];
    var f := NO_FILTER;
    if scope == "author" {
      if value != "" {
        f := f.(authorLike := Pattern(value));
      }
    } else if scope == "action" {
      if value != "" {
        f := f.(actionLike := Pattern(value), excludeMapped := true);
        var matching := DilionActionsMatching(t, value, Action);
        f := f.(actionIn := matching, actionSet := true);
      }
    } else if scope == "type" {
      if value != "" {
        var matching := DilionActionsMatching(t, value, LogType);
        f := f.(actionIn := matching, actionSet := true, excludeMapped := true, actionLike := "");
      }
    } else {
      return Err(());
    }
    var s := ScopeNamed(scope).value;
    forall row ensures FilterAccepts(t, f, row) <==> Wanted(t, q, row) {
      FilterMeansScope(t, f, s, value, row);
    }
    return Ok(f);
  }

  /** What a parsed filter selects, before it becomes SQL. */
  predicate FilterAccepts(t: Translations, f: Filter, r: Row) {
    && AuthorAccepts(f, r)
    && (f.actionSet ==> ActionAccepts(t, f, r))
  }

  /** `f` is what the parser builds for this scope and value. */
  predicate Built(t: Translations, f: Filter, scope: Scope, value: string) {
    if value == "" then f == NO_FILTER
    else
      match scope
      case Author => f == NO_FILTER.(authorLike := Pattern(value))
      case Action => f.authorLike == "" && f.actionLike == Pattern(value) && f.actionSet && f.excludeMapped
      case LogType => f.authorLike == "" && f.actionLike == "" && f.actionSet && f.excludeMapped
  }

  lemma {:induction false} FilterMeansScope(t: Translations, f: Filter, scope: Scope, value: string, r: Row)
    requires Built(t, f, scope, value)
    requires f.actionSet ==> forall a :: a in f.actionIn <==>
             a in t && Projected(t[a], scope) != "" && ContainsFold(Projected(t[a], scope), value)
    ensures FilterAccepts(t, f, r) <==> ContainsFold(Field(ToEntry(t, r), scope), value)
  {
    if value == "" {
      assert HasAt(Lower(Field(ToEntry(t, r), scope)), Lower(value), 0);
    } else {
      NothingInEmpty(value);
      if r.actorId.Some? { ILikeMeansContains(r.actorId.value, value); }
      ILikeMeansContains(r.action, value);
    }
  }

  lemma {:induction false} NothingInEmpty(value: string)
    requires value != ""
    ensures !ContainsFold("", value)
  {}

  // ---- the SQL condition ---------------------------------------------------------------------

  datatype Arg = Text(s: string) | Texts(all: seq<string>)

  // Positions name bound arguments, from 1 as in `$1`.
  datatype Cond =
    | True
    | False
    | ActorILike(arg: nat)
    | ActionILike(arg: nat)
    | ActionAny(arg: nat)
    | Not(c: Cond)
    | And(a: Cond, b: Cond)
    | Or(a: Cond, b: Cond)

  /** SQL's three-valued evaluation; None is NULL. */
  function Eval(c: Cond, args: seq<Arg>, r: Row): Option<bool> {
    match c
    case True => Some(true)
    case False => Some(false)
    case ActorILike(n) =>
      if 1 <= n <= |args| && args[n - 1].Text? && r.actorId.Some?
          then Some(ILike(r.actorId.value, args[n - 1].s)) else None
    case ActionILike(n) =>
      if 1 <= n <= |args| && args[n - 1].Text? then Some(ILike(r.action, args[n - 1].s)) else None
    case ActionAny(n) =>
      if 1 <= n <= |args| && args[n - 1].Texts? then Some(r.action in args[n - 1].all) else None
    case Not(d) =>
      (match Eval(d, args, r) case None => None case Some(b) => Some(!b))
    case And(a, b) =>
      var x, y := Eval(a, args, r), Eval(b, args, r);
      if x == Some(false) || y == Some(false) then Some(false)
      else if x == Some(true) && y == Some(true) then Some(true) else None
    case Or(a, b) =>
      var x, y := Eval(a, args, r), Eval(b, args, r);
      if x == Some(true) || y == Some(true) then Some(true)
      else if x == Some(false) && y == Some(false) then Some(false) else None
  }

  predicate Selects(c: Cond, args: seq<Arg>, r: Row) {
    Eval(c, args, r) == Some(true)
  }

  method MappedDilionActions(t: Translations) returns (out: seq<string>)
    ensures forall a :: a in out <==> a in t
  {
    out := [];
    var todo := t.Keys;
    while todo != {}
      invariant todo <= t.Keys
      invariant forall a :: a in out <==> a in t && a !in todo
      decreases todo
    {
      var a :| a in todo;
      todo := todo - {a};
      out := out + [a];
    }
  }

  method Sql(t: Translations, f: Filter) returns (cond: Cond, args: seq<Arg>)
    ensures forall r :: Selects(cond, args, r) <==> FilterAccepts(t, f, r)
  {
    cond, args := True, [];
    if f.authorLike != "" {
      args := args + [Text(f.authorLike)];
      cond := And(cond, ActorILike(|args|));
    }
    ghost var author := cond;
    forall r, more | args <= more
      ensures Selects(author, more, r) <==> AuthorAccepts(f, r)
    {
      assert Eval(True, more, r) == Some(true);
      if f.authorLike != "" {
        assert Eval(ActorILike(1), more, r) ==
               if r.actorId.Some? then Some(ILike(r.actorId.value, f.authorLike)) else None;
      }
    }
    if f.actionSet {
      var pattern := None;
      if f.actionLike != "" {
        var c;
        c, args := PatternCond(t, f, args);
        pattern := Some(c);
      }
      ghost var some := args;
      var either := pattern;
      if |f.actionIn| > 0 {
        args := args + [Texts(f.actionIn)];
        var c := ActionAny(|args|);
        either := Some(match pattern case None => c case Some(p) => Or(p, c));
      }
      var actions := match either case None => False case Some(c) => c;
      cond := And(cond, actions);
      forall r ensures Selects(cond, args, r) <==> FilterAccepts(t, f, r) {
        if pattern.Some? { MoreArgs(pattern.value, some, args, r); }
        assert Eval(actions, args, r) == Some(ActionAccepts(t, f, r));
        assert Selects(author, args, r) <==> AuthorAccepts(f, r);
      }
    }
  }

  /** The alternative for untranslated actions: like the pattern, and not one the payload renames. */
  method PatternCond(t: Translations, f: Filter, bound: seq<Arg>) returns (c: Cond, args: seq<Arg>)
    ensures bound <= args
    ensures forall r :: Eval(c, args, r) == Some(PatternAccepts(t, f, r))
  {
    args := bound + [Text(f.actionLike)];
    ghost var n := |args|;
    c := ActionILike(|args|);
    if f.excludeMapped {
      var mapped := MappedDilionActions(t);
      args := args + [Texts(mapped)];
      c := And(c, Not(ActionAny(|args|)));
    }
    forall r ensures Eval(c, args, r) == Some(PatternAccepts(t, f, r)) {
      assert Eval(ActionILike(n), args, r) == Some(ILike(r.action, f.actionLike));
      if f.excludeMapped {
        assert Eval(ActionAny(n + 1), args, r) == Some(r.action in t);
        assert Eval(Not(ActionAny(n + 1)), args, r) == Some(r.action !in t);
      }
    }
  }

  predicate AuthorAccepts(f: Filter, r: Row) {
    f.authorLike != "" ==> r.actorId.Some? && ILike(r.actorId.value, f.authorLike)
  }

  predicate PatternAccepts(t: Translations, f: Filter, r: Row) {
    ILike(r.action, f.actionLike) && (f.excludeMapped ==> r.action !in t)
  }

  predicate ActionAccepts(t: Translations, f: Filter, r: Row) {
    (f.actionLike != "" && PatternAccepts(t, f, r)) || r.action in f.actionIn
  }

  /** Binding further arguments does not change what a condition says. */
  lemma {:induction false} MoreArgs(c: Cond, args: seq<Arg>, more: seq<Arg>, r: Row)
    requires args <= more
    ensures Eval(c, args, r).Some? ==> Eval(c, more, r) == Eval(c, args, r)
  {
    match c
    case Not(d) => MoreArgs(d, args, more, r);
    case And(a, b) => MoreArgs(a, args, more, r); MoreArgs(b, args, more, r);
    case Or(a, b) => MoreArgs(a, args, more, r); MoreArgs(b, args, more, r);
    case _ =>
  }

  /** For every stored event and every valid query, the condition selects the row exactly when the value is
      a case-insensitive substring of the translated field; a query is refused exactly when it has no known scope. */
  method AuditWhere(t: Translations, q: string) returns (r: Result<(Cond, seq<Arg>), ()>)
    ensures r.Ok? <==> q == "" || Query(q).Some?
    ensures r.Ok? ==> forall row :: Selects(r.value.0, r.value.1, row) <==> Wanted(t, q, row)
  {
    var f := ParseAuditQuery(t, q);
    if f.Err? {
      return Err(());
    }
    var cond, args := Sql(t, f.value);
    return Ok((cond, args));
  }
}
