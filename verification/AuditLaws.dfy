/** What an audit query asks for, read off its text and the stored row. */
module AuditLaws {
  import opened Prelude
  import opened AuditQuery

  /** One letter, whatever its case. */
  predicate SameLetter(c: char, d: char) {
    c == d || ('a' <= c <= 'z' && d as int == c as int - 32) || ('a' <= d <= 'z' && c as int == d as int - 32)
  }

  lemma {:induction false} FoldIsSame(c: char, d: char)
    ensures LowerChar(c) == LowerChar(d) <==> SameLetter(c, d)
  {}

  /** The value stands somewhere in the text, letter by letter. */
  predicate StandsAt(s: string, v: string, i: nat) {
    i + |v| <= |s| && forall k :: 0 <= k < |v| ==> SameLetter(s[i + k], v[k])
  }

  ghost predicate StandsIn(s: string, v: string) {
    exists i :: StandsAt(s, v, i)
  }

  lemma {:induction false} FoldAt(s: string, v: string, i: nat)
    ensures HasAt(Lower(s), Lower(v), i) <==> StandsAt(s, v, i)
  {
    if i + |v| <= |s| {
      forall k | 0 <= k < |v|
        ensures Lower(s)[i..i + |v|][k] == Lower(v)[k] <==> SameLetter(s[i + k], v[k])
      {
        FoldIsSame(s[i + k], v[k]);
      }
      hide SameLetter, Lower;
      if StandsAt(s, v, i) { assert Lower(s)[i..i + |v|] == Lower(v); }
    }
  }

  lemma {:induction false} ContainsIsStands(s: string, v: string)
    ensures ContainsFold(s, v) <==> StandsIn(s, v)
  {
    forall i: nat ensures HasAt(Lower(s), Lower(v), i) <==> StandsAt(s, v, i) { FoldAt(s, v, i); }
    hide HasAt, StandsAt, Lower;
    if i: nat :| StandsAt(s, v, i) {
      InText(s, v, i);
    }
  }

  lemma {:induction false} InText(s: string, v: string, i: nat)
    requires StandsAt(s, v, i)
    ensures i <= |Lower(s)|
  {}

  lemma {:induction false} ColonFound(scope: string, value: string, i: nat)
    requires ':' !in scope && i <= |scope|
    ensures FirstColon(scope + ":" + value, i) == |scope|
    decreases |scope| - i
  {
    var q := scope + ":" + value;
    assert q[|scope|] == ':';
    if i < |scope| {
      assert q[i] == scope[i];
      ColonFound(scope, value, i + 1);
    }
  }

  /** A query is a scope, the first colon and a value; three scopes are known, and no other query is understood. */
  lemma {:induction false} QuerySplits(scope: string, value: string)
    requires ':' !in scope
    ensures var r := Query(scope + ":" + value);
            && (scope == "author" ==> r == Some((Author, value)))
            && (scope == "action" ==> r == Some((Action, value)))
            && (scope == "type" ==> r == Some((LogType, value)))
            && (scope != "author" && scope != "action" && scope != "type" ==> r == None)
  {
    ColonFound(scope, value, 0);
    var q := scope + ":" + value;
    assert q[..|scope|] == scope && q[|scope| + 1..] == value;
  }

  lemma {:induction false} NoColonNoQuery(q: string)
    requires ':' !in q
    ensures Query(q) == None
  {
    var k := FirstColon(q, 0);
    assert k == |q|;
  }

  /** Which rows are wanted: by their actor; by the action they are shown under, which is the upstream name if there is
      one; or by the type of log they are shown in, which an action without one does not have. */
  lemma {:induction false} WantsExactly(t: Translations, scope: string, value: string, r: Row)
    requires ':' !in scope
    ensures Wanted(t, scope + ":" + value, r) <==>
              || (scope == "author" && StandsIn(if r.actorId.Some? then r.actorId.value else "", value))
              || (scope == "action" && StandsIn(if r.action in t then t[r.action].action else r.action, value))
              || (scope == "type" && StandsIn(if r.action in t then t[r.action].logType else "", value))
    ensures Wanted(t, "", r)
  {
    QuerySplits(scope, value);
    assert (scope + ":" + value) != "";
    forall s ensures ContainsFold(s, value) <==> StandsIn(s, value) { ContainsIsStands(s, value); }
    hide Query, ContainsFold, StandsIn;
  }
}
