/** An export page larger than the engine's own: keyset pages of a segment are accumulated until it is full. */
module AudienceExport {
  import opened Prelude
  import opened EventCursor
  import EventPaging

  // A member of the segment, found by its user id.
  datatype Member = Member(userId: Bytes, email: string, phone: string)

  // The segment while one export runs: user ids are unique and not empty.
  ghost predicate Segment(all: set<Member>) {
    && (forall m, n :: m in all && n in all && m.userId == n.userId ==> m == n)
    && (forall m :: m in all ==> m.userId != "")
  }

  const DEFAULT_LIMIT: nat := 20
  const MAX_LIMIT: nat := 100

  function Norm(limit: int): (n: nat)
    ensures 1 <= n <= MAX_LIMIT
  {
    if limit <= 0 then DEFAULT_LIMIT else if limit > MAX_LIMIT then MAX_LIMIT else limit
  }

  // ---- the cursor ----------------------------------------------------------------------------

  function EncodeId(id: Bytes): string {
    Encode64(id)
  }

  function DecodeId(c: string): Option<string> {
    if c == "" then Some("")
    else
      match Decode64(c)
      case None => None
      case Some(raw) => Some(raw)
  }

  lemma {:induction false} DecodeUndoesEncodeId(id: Bytes)
    ensures DecodeId(EncodeId(id)) == Some(id)
  {
    Decode64Undoes(id);
    UnbrokenSame(Encode64(id));
    EncodeEmpty();
  }

  // ---- one page -------------------------------------------------------------------------------

  predicate Less(a: string, b: string) {
    EventPaging.Less(a, b)
  }

  function Rest(all: set<Member>, after: string): set<Member> {
    set m | m in all && (after == "" || Less(after, m.userId))
  }

  ghost predicate Ascending(s: seq<Member>) {
    forall i, j :: 0 <= i < j < |s| ==> Less(s[i].userId, s[j].userId)
  }

  ghost predicate IsListing(s: seq<Member>, all: set<Member>) {
    Ascending(s) && forall m :: m in s <==> m in all
  }

  datatype Page = Page(items: seq<Member>, next: Option<string>)

  /** The first `size` rows, and the cursor of the last of them if there are more. */
  function Cut(rows: seq<Member>, size: nat): Page {
    if |rows| <= size || size == 0 then Page(rows, None) else Page(rows[..size], Some(EncodeId(rows[size - 1].userId)))
  }

  /** The page of a given size past a cursor. */
  ghost predicate IsPage(p: Page, all: set<Member>, after: string, size: nat) {
    exists rows :: IsListing(rows, Rest(all, after)) && p == Cut(rows, size)
  }

  lemma {:induction false} InsertAscends(s: seq<Member>, m: Member, k: nat)
    requires Ascending(s) && k <= |s| && (forall i :: 0 <= i < |s| ==> s[i].userId != m.userId)
    requires (forall i :: 0 <= i < k ==> Less(s[i].userId, m.userId)) && (k < |s| ==> !Less(s[k].userId, m.userId))
    ensures Ascending(s[..k] + [m] + s[k..])
  {
    hide Less;
    var r := s[..k] + [m] + s[k..];
    forall i | k <= i < |s| ensures Less(m.userId, s[i].userId) {
      LessIsOrder(s[k].userId, m.userId, "");
      LessIsOrder(m.userId, s[k].userId, s[i].userId);
    }
    forall i, j | 0 <= i < j < |r| ensures Less(r[i].userId, r[j].userId) {
      assert r[i] == if i < k then s[i] else if i == k then m else s[i - 1];
      assert r[j] == if j < k then s[j] else if j == k then m else s[j - 1];
    }
  }

  lemma {:induction false} LessIsOrder(a: string, b: string, c: string)
    ensures !Less(a, a)
    ensures Less(a, b) && Less(b, c) ==> Less(a, c)
    ensures a == b || Less(a, b) || Less(b, a)
  {
    EventPaging.LessIsOrder(a, b, c);
  }

  /** The engine: it caps what it is asked for, and reads one row more to know whether a page follows. */
  method Engine(all: set<Member>, limit: int, cursor: string) returns (r: Result<Page, ()>)
    requires Segment(all)
    ensures r.Err? <==> DecodeId(cursor).None?
    ensures r.Ok? ==> IsPage(r.value, all, DecodeId(cursor).value, Norm(limit))
  {
    var after := DecodeId(cursor);
    if after.None? {
      return Err(());
    }
    var rows := [];
    var todo := Rest(all, after.value);
    while todo != {}
      invariant todo <= Rest(all, after.value)
      invariant IsListing(rows, Rest(all, after.value) - todo)
      decreases todo
    {
      var m :| m in todo;
      rows := Insert(rows, m, Rest(all, after.value) - todo);
      assert Rest(all, after.value) - (todo - {m}) == (Rest(all, after.value) - todo) + {m};
      todo := todo - {m};
    }
    assert Rest(all, after.value) - todo == Rest(all, after.value);
    return Ok(Cut(rows, Norm(limit)));
  }

  method Insert(s: seq<Member>, m: Member, ghost all: set<Member>) returns (r: seq<Member>)
    requires IsListing(s, all) && forall n :: n in all ==> n.userId != m.userId
    ensures IsListing(r, all + {m})
  {
    var k := 0;
    while k < |s| && Less(s[k].userId, m.userId)
      invariant 0 <= k <= |s|
      invariant forall i :: 0 <= i < k ==> Less(s[i].userId, m.userId)
    {
      k := k + 1;
    }
    InsertAscends(s, m, k);
    r := s[..k] + [m] + s[k..];
    assert s == s[..k] + s[k..];
  }

  // ---- pages of pages -------------------------------------------------------------------------

  lemma {:induction false} OneListing(s: seq<Member>, t: seq<Member>, all: set<Member>)
    requires IsListing(s, all) && IsListing(t, all)
    ensures s == t
    decreases |s|
  {
    hide Less;
    EmptyListing(s, all);
    EmptyListing(t, all);
    if s != [] {
      SameFirst(s, t, all);
      TailListing(s, all);
      TailListing(t, all);
      OneListing(s[1..], t[1..], all - {s[0]});
      assert s == [s[0]] + s[1..] && t == [t[0]] + t[1..];
    }
  }

  lemma {:induction false} EmptyListing(s: seq<Member>, all: set<Member>)
    requires IsListing(s, all)
    ensures s == [] <==> all == {}
  {
    if s != [] { assert s[0] in s; }
  }

  lemma {:induction false} SameFirst(s: seq<Member>, t: seq<Member>, all: set<Member>)
    requires IsListing(s, all) && IsListing(t, all) && s != [] && t != []
    ensures s[0] == t[0]
  {
    hide Less;
    assert s[0] in s && t[0] in t;
    var i :| 0 <= i < |t| && t[i] == s[0];
    var j :| 0 <= j < |s| && s[j] == t[0];
    LessIsOrder(t[0].userId, s[0].userId, t[0].userId);
  }

  lemma {:induction false} TailListing(s: seq<Member>, all: set<Member>)
    requires IsListing(s, all) && s != []
    ensures IsListing(s[1..], all - {s[0]})
  {
    hide Less;
    forall m ensures m in s[1..] <==> m in all - {s[0]} {
      if m in s[1..] {
        var i :| 0 <= i < |s[1..]| && s[1..][i] == m;
        assert s[i + 1] == m && Less(s[0].userId, m.userId);
        LessIsOrder(m.userId, m.userId, m.userId);
      }
      if m in all && m != s[0] {
        var i :| 0 <= i < |s| && s[i] == m;
        assert s[1..][i - 1] == m;
      }
    }
  }

  lemma {:induction false} NotPast(rows: seq<Member>, i: nat, k: nat)
    requires Ascending(rows) && i < k <= |rows|
    ensures !Less(rows[k - 1].userId, rows[i].userId)
  {
    hide Less;
    LessIsOrder(rows[i].userId, rows[k - 1].userId, rows[i].userId);
    LessIsOrder(rows[i].userId, rows[i].userId, "");
  }

  /** What is past the k-th row's cursor is what the listing has left. */
  lemma {:induction false} RestOfListing(rows: seq<Member>, all: set<Member>, after: string, k: nat)
    requires Segment(all) && IsListing(rows, Rest(all, after)) && 0 < k <= |rows|
    ensures IsListing(rows[k..], Rest(all, rows[k - 1].userId))
  {
    hide Less;
    var last := rows[k - 1].userId;
    assert rows[k - 1] in rows;
    forall i: nat | i < k ensures !Less(last, rows[i].userId) { NotPast(rows, i, k); }
    forall m ensures m in rows[k..] <==> m in Rest(all, last) {
      if m in rows[k..] {
        var i :| 0 <= i < |rows[k..]| && rows[k..][i] == m;
        assert rows[k + i] == m && m in rows;
      }
      if m in Rest(all, last) {
        LessIsOrder(after, last, m.userId);
        assert m in rows;
        var i :| 0 <= i < |rows| && rows[i] == m;
        assert rows[k..][i - k] == m;
      }
    }
  }

  lemma {:induction false} CutShape(rows: seq<Member>, n: nat)
    requires n >= 1
    ensures var p := Cut(rows, n);
            match p.next
            case Some(c) => |p.items| == n < |rows| && p.items == rows[..n] && c == EncodeId(rows[n - 1].userId)
            case None => |p.items| <= n && forall m :: m >= n ==> Cut(rows, m) == p
  {}

  /** What has been read so far: the first rows, with the cursor of the last of them, and more to come. */
  ghost predicate Partial(out: Page, all: set<Member>, after: string, rows: seq<Member>) {
    && IsListing(rows, Rest(all, after)) && 0 < |out.items| < |rows|
    && out == Cut(rows, |out.items|) && out.items == rows[..|out.items|]
      && out.next == Some(EncodeId(rows[|out.items| - 1].userId))
  }

  lemma {:induction false} PartialResumes(out: Page, all: set<Member>, after: string, rows: seq<Member>)
    requires Partial(out, all, after, rows)
    ensures DecodeId(out.next.value) == Some(rows[|out.items| - 1].userId)
  {
    DecodeUndoesEncodeId(rows[|out.items| - 1].userId);
  }

  /** One more engine page. */
  lemma {:induction false} Continue(
      rows: seq<Member>, all: set<Member>, after: string, k: nat, more: seq<Member>, cap: nat)
    requires Segment(all) && IsListing(rows, Rest(all, after)) && 0 < k < |rows| && cap >= 1
    requires IsListing(more, Rest(all, rows[k - 1].userId))
    ensures Page(rows[..k] + Cut(more, cap).items, Cut(more, cap).next) == Cut(rows, k + cap)
  {
    hide IsListing, EncodeId;
    RestOfListing(rows, all, after, k);
    OneListing(more, rows[k..], Rest(all, rows[k - 1].userId));
    if |rows| > k + cap { assert rows[..k] + rows[k..][..cap] == rows[..k + cap]; }
    assert rows[..k] + rows[k..] == rows;
  }

  lemma {:induction false} RowsOf(p: Page, all: set<Member>, after: string, size: nat) returns (rows: seq<Member>)
    requires IsPage(p, all, after, size)
    ensures IsListing(rows, Rest(all, after)) && p == Cut(rows, size)
  {
    hide IsListing, Rest, Cut;
    rows :| IsListing(rows, Rest(all, after)) && p == Cut(rows, size);
  }

  lemma {:induction false} ContinuePage(
      out: Page, all: set<Member>, after: string, rows: seq<Member>, page: Page, cap: nat)
    requires Segment(all) && Partial(out, all, after, rows) && cap >= 1
    requires DecodeId(out.next.value).Some? ==> IsPage(page, all, DecodeId(out.next.value).value, cap)
    ensures Page(out.items + page.items, page.next) == Cut(rows, |out.items| + cap)
  {
    hide EncodeId, DecodeId, Cut, IsListing, IsPage, Rest, Segment;
    PartialResumes(out, all, after, rows);
    var more := RowsOf(page, all, rows[|out.items| - 1].userId, cap);
    Continue(rows, all, after, |out.items|, more, cap);
  }

  /** Accumulating capped pages gives the one page of the requested size, with a cursor that resumes exactly; a cursor
      that does not decode is refused. */
  method ExportPages(all: set<Member>, limit: int, start: string) returns (r: Result<Page, ()>)
    requires Segment(all)
    ensures limit <= 0 ==> r == Ok(Page([], None))
    ensures limit > 0 ==> (r.Err? <==> DecodeId(start).None?)
    ensures limit > 0 && r.Ok? ==> IsPage(r.value, all, DecodeId(start).value, limit)
  {
    hide Cut, IsListing, DecodeId, EncodeId, Segment, Rest;
    if limit <= 0 {
      return Ok(Page([], None));
    }
    var out := Page([], None);
    var cursor := start;
    ghost var rows: seq<Member>, read: nat := [], 0;
    while |out.items| < limit
      invariant |out.items| == read <= limit
      invariant read == 0 ==> cursor == start
      invariant read > 0 ==> DecodeId(start).Some? && Partial(out, all, DecodeId(start).value, rows)
      invariant read > 0 ==> out.next == Some(cursor)
      decreases limit - |out.items|
    {
      var page := Engine(all, limit - |out.items|, cursor);
      if read > 0 { PartialResumes(out, all, DecodeId(start).value, rows); }
      if page.Err? {
        return Err(());
      }
      ghost var cap := Norm(limit - |out.items|);
      if read == 0 {
        rows :| IsListing(rows, Rest(all, DecodeId(start).value)) && page.value == Cut(rows, cap);
        assert out.items == [] && out.items + page.value.items == page.value.items;
      } else {
        ContinuePage(out, all, DecodeId(start).value, rows, page.value, cap);
      }
      read := read + cap;
      CutShape(rows, read);
      out := Page(out.items + page.value.items, page.value.next);
      if page.value.next.None? {
        return Ok(out);
      }
      cursor := page.value.next.value;
    }
    return Ok(out);
  }

  // ---- following the cursor -------------------------------------------------------------------

  /** Where the page after the first `n` starts; None if none follows. */
  function StartOf(pages: seq<Page>, n: nat): Option<string>
    requires n <= |pages|
  {
    if n == 0 then Some("")
    else if pages[n - 1].next.None? then None else DecodeId(pages[n - 1].next.value)
  }

  ghost predicate PageFollows(all: set<Member>, sizes: seq<nat>, pages: seq<Page>, n: nat)
    requires n < |pages| <= |sizes|
  {
    sizes[n] >= 1 && StartOf(pages, n).Some? && IsPage(pages[n], all, StartOf(pages, n).value, sizes[n])
  }

  /** Pages of any sizes, each from the cursor of the one before it. */
  ghost predicate Follows(all: set<Member>, sizes: seq<nat>, pages: seq<Page>) {
    |pages| <= |sizes| && forall n :: 0 <= n < |pages| ==> PageFollows(all, sizes, pages, n)
  }

  function ItemsOf(pages: seq<Page>): seq<Member> {
    if pages == [] then [] else ItemsOf(pages[..|pages| - 1]) + pages[|pages| - 1].items
  }

  /** What has been read is a front part of the listing, and the cursor is that of its last row. */
  predicate Upto(read: seq<Member>, next: Option<string>, rows: seq<Member>) {
    match next
    case None => read == rows
    case Some(c) => 0 < |read| < |rows| && read == rows[..|read|] && c == EncodeId(rows[|read| - 1].userId)
  }

  /** So reading an unchanged segment through its pages returns every member once, in order. */
  lemma {:induction false} FollowingReadsOnce(all: set<Member>, sizes: seq<nat>, pages: seq<Page>, rows: seq<Member>)
    requires Segment(all) && Follows(all, sizes, pages) && pages != [] && IsListing(rows, all)
    ensures Upto(ItemsOf(pages), pages[|pages| - 1].next, rows)
    decreases |pages|
  {
    var n := |pages| - 1;
    var front, last := pages[..n], pages[n];
    assert PageFollows(all, sizes, pages, n);
    AllRest(all);
    hide IsListing, Segment, EncodeId, DecodeId, Follows, Upto;
    if n == 0 {
      var more: seq<Member> :| IsListing(more, Rest(all, "")) && last == Cut(more, sizes[0]);
      OneListing(more, rows, all);
      FirstUpto(rows, last, sizes[0]);
      assert front == [] && ItemsOf(pages) == last.items;
    } else {
      FrontFollows(all, sizes, pages);
      FollowingReadsOnce(all, sizes, front, rows);
      NextUpto(all, rows, ItemsOf(front), front[n - 1].next, last, sizes[n]);
    }
  }

  lemma {:induction false} FrontFollows(all: set<Member>, sizes: seq<nat>, pages: seq<Page>)
    requires Follows(all, sizes, pages) && pages != []
    ensures Follows(all, sizes, pages[..|pages| - 1])
  {
    var front := pages[..|pages| - 1];
    forall i | 0 <= i < |front| ensures PageFollows(all, sizes, front, i) {
      assert PageFollows(all, sizes, pages, i);
    }
  }

  lemma {:induction false} FirstUpto(rows: seq<Member>, p: Page, size: nat)
    requires p == Cut(rows, size) && size >= 1
    ensures Upto(p.items, p.next, rows)
  {
    hide EncodeId;
  }

  lemma {:induction false} NextUpto(
      all: set<Member>, rows: seq<Member>, read: seq<Member>, next: Option<string>, p: Page, size: nat)
    requires Segment(all) && IsListing(rows, all) && Upto(read, next, rows) && next.Some? && size >= 1
    requires DecodeId(next.value).Some? && IsPage(p, all, DecodeId(next.value).value, size)
    ensures Upto(read + p.items, p.next, rows)
  {
    hide EncodeId, DecodeId, Cut, IsListing, IsPage, Rest, Segment;
    AllRest(all);
    DecodeUndoesEncodeId(rows[|read| - 1].userId);
    var more := RowsOf(p, all, rows[|read| - 1].userId, size);
    Continue(rows, all, "", |read|, more, size);
    FirstUpto(rows, Cut(rows, |read| + size), |read| + size);
  }

  lemma {:induction false} AllRest(all: set<Member>)
    ensures Rest(all, "") == all
  {}
}
