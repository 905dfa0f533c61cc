/** Keyset paging over the audit log, while events keep being appended. */
module EventPaging {
  import opened Prelude
  import opened EventCursor

  datatype Event = Event(key: Key, actor: Option<string>, action: string, subjects: set<string>)

  datatype Filter = Filter(actor: Option<string>, action: Option<string>, subject: Option<string>,
      from: Option<Stamp>, to: Option<Stamp>)

  // ---- the order of the list ---------------------------------------------------------------

  predicate Earlier(a: Stamp, b: Stamp) {
    if a.year != b.year then a.year < b.year
    else if a.month != b.month then a.month < b.month
    else if a.day != b.day then a.day < b.day
    else if a.hour != b.hour then a.hour < b.hour
    else if a.minute != b.minute then a.minute < b.minute
    else if a.second != b.second then a.second < b.second
    else a.nano < b.nano
  }

  predicate Less(a: string, b: string) {
    if b == "" then false
    else if a == "" then true
    else if a[0] != b[0] then a[0] < b[0]
    else Less(a[1..], b[1..])
  }

  /** (created_at, event_id) of `a` is below `b`'s: `a` comes later in the list. */
  predicate Below(a: Key, b: Key) {
    Earlier(a.at, b.at) || (a.at == b.at && Less(a.id, b.id))
  }

  lemma {:induction false} LessIsOrder(a: string, b: string, c: string)
    ensures !Less(a, a)
    ensures Less(a, b) && Less(b, c) ==> Less(a, c)
    ensures a == b || Less(a, b) || Less(b, a)
  {
    if a != "" && b != "" {
      if a[0] == b[0] { assert a[1..] == b[1..] ==> a == b; }
      LessIsOrder(a[1..], b[1..], if c == "" then "" else c[1..]);
    } else if a != "" {
      LessIsOrder(a[1..], "", "");
    }
  }

  lemma {:induction false} BelowIsOrder(a: Key, b: Key, c: Key)
    ensures !Below(a, a)
    ensures Below(a, b) && Below(b, c) ==> Below(a, c)
    ensures a == b || Below(a, b) || Below(b, a)
  {
    hide Less;
    LessIsOrder(a.id, b.id, c.id);
  }

  // ---- one page -------------------------------------------------------------------------------

  predicate Matches(f: Filter, e: Event) {
    && (f.actor.Some? ==> e.actor == f.actor)
    && (f.action.Some? ==> e.action == f.action.value)
    && (f.subject.Some? ==> f.subject.value in e.subjects)
    && (f.from.Some? ==> !Earlier(e.key.at, f.from.value))
    && (f.to.Some? ==> Earlier(e.key.at, f.to.value))
  }

  predicate Past(e: Event, c: Cursor) {
    c.Start? || (c.After? && Below(e.key, c.key))
  }

  function Selected(events: set<Event>, f: Filter, c: Cursor): set<Event> {
    set e | e in events && Matches(f, e) && Past(e, c)
  }

  /** `s` is the set `all`, newest first. */
  ghost predicate IsListing(s: seq<Event>, all: set<Event>) {
    Descending(s) && forall e :: e in s <==> e in all
  }

  ghost predicate Descending(s: seq<Event>) {
    forall i, j :: 0 <= i < j < |s| ==> Below(s[j].key, s[i].key)
  }

  // Event ids are unique, and every stored event can be a cursor.
  ghost predicate Log(events: set<Event>) {
    && (forall e, d :: e in events && d in events && e.key == d.key ==> e == d)
    && (forall e :: e in events ==> ValidKey(e.key))
  }

  function Limit(requested: int): (n: nat)
    ensures 1 <= n <= 100
  {
    if requested <= 0 then 20 else if requested > 100 then 100 else requested
  }

  datatype Page = Page(items: seq<Event>, next: Option<string>)

  /** The first `limit` rows past the cursor, and the cursor of the last one if there are more. */
  ghost predicate IsPage(p: Page, events: set<Event>, f: Filter, c: Cursor, limit: nat) {
    exists rows :: IsListing(rows, Selected(events, f, c)) && p == Cut(rows, limit)
  }

  function Cut(rows: seq<Event>, limit: nat): Page {
    if |rows| <= limit || limit == 0 then Page(rows, None)
    else Page(rows[..limit], Some(EncodeCursor(rows[limit - 1].key)))
  }

  /** The first rows of the listing, at most `most` of them. */
  ghost predicate AreFirst(rows: seq<Event>, all: set<Event>, most: nat) {
    exists listing :: IsListing(listing, all) && rows == if |listing| <= most then listing else listing[..most]
  }

  lemma {:induction false} OneRowMoreTells(rows: seq<Event>, events: set<Event>, f: Filter, c: Cursor, limit: nat)
    requires limit >= 1 && AreFirst(rows, Selected(events, f, c), limit + 1)
    ensures IsPage(Cut(rows, limit), events, f, c, limit)
  {
    hide EncodeCursor, Selected, IsListing;
    var all: seq<Event> :| IsListing(all, Selected(events, f, c))
      && rows == if |all| <= limit + 1 then all else all[..limit + 1];
    assert Cut(all, limit) == Cut(rows, limit);
  }

  /** What the query returns: the selection in order, cut off after `most` rows. */
  method Query(events: set<Event>, f: Filter, c: Cursor, most: nat) returns (rows: seq<Event>)
    requires Log(events)
    ensures AreFirst(rows, Selected(events, f, c), most)
  {
    var sorted := [];
    var todo := Selected(events, f, c);
    while todo != {}
      invariant todo <= Selected(events, f, c)
      invariant IsListing(sorted, Selected(events, f, c) - todo)
      decreases todo
    {
      var e :| e in todo;
      sorted := Insert(sorted, e, Selected(events, f, c) - todo);
      todo := todo - {e};
      assert Selected(events, f, c) - todo == Selected(events, f, c) - (todo + {e}) + {e};
    }
    assert Selected(events, f, c) - todo == Selected(events, f, c);
    rows := if |sorted| <= most then sorted else sorted[..most];
  }

  method Insert(s: seq<Event>, e: Event, ghost all: set<Event>) returns (r: seq<Event>)
    requires IsListing(s, all) && forall d :: d in all ==> d.key != e.key
    ensures IsListing(r, all + {e})
  {
    hide Below;
    var k := 0;
    while k < |s| && Below(e.key, s[k].key)
      invariant 0 <= k <= |s|
      invariant forall i :: 0 <= i < k ==> Below(e.key, s[i].key)
    {
      k := k + 1;
    }
    r := s[..k] + [e] + s[k..];
    InsertDescends(s, e, k);
    assert s == s[..k] + s[k..];
  }

  lemma {:induction false} InsertDescends(s: seq<Event>, e: Event, k: nat)
    requires Descending(s) && k <= |s| && (forall i :: 0 <= i < |s| ==> s[i].key != e.key)
    requires (forall i :: 0 <= i < k ==> Below(e.key, s[i].key)) && (k < |s| ==> !Below(e.key, s[k].key))
    ensures Descending(s[..k] + [e] + s[k..])
  {
    hide Below;
    var r := s[..k] + [e] + s[k..];
    forall i | k <= i < |s| ensures Below(s[i].key, e.key) {
      BelowIsOrder(s[i].key, s[k].key, e.key);
      BelowIsOrder(s[k].key, e.key, e.key);
    }
    forall i, j | 0 <= i < j < |r| ensures Below(r[j].key, r[i].key) {
      assert r[i] == if i < k then s[i] else if i == k then e else s[i - 1];
      assert r[j] == if j < k then s[j] else if j == k then e else s[j - 1];
    }
  }

  /** One request: one row more than asked for tells whether there is a next page. */
  method ListEvents(events: set<Event>, f: Filter, cursor: string, requested: int) returns (p: Result<Page, ()>)
    requires Log(events)
    ensures p.Err? <==> DecodeCursor(cursor).Malformed?
    ensures p.Ok? ==> IsPage(p.value, events, f, DecodeCursor(cursor), Limit(requested))
  {
    hide Selected, AreFirst, IsPage, DecodeCursor, EncodeCursor;
    var limit := Limit(requested);
    var c := DecodeCursor(cursor);
    if c.Malformed? {
      return Err(());
    }
    var rows := Query(events, f, c, limit + 1);
    OneRowMoreTells(rows, events, f, c, limit);
    var page := Page(rows, None);
    if |rows| > limit {
      page := Page(rows[..limit], Some(EncodeCursor(rows[limit - 1].key)));
    }
    return Ok(page);
  }

  // ---- following the cursor -----------------------------------------------------------------

  // The log as each request finds it.
  type Growing = nat -> set<Event>

  ghost predicate AppendOnly(logs: Growing) {
    forall n: nat :: Log(logs(n)) && logs(n) <= logs(n + 1)
  }

  // How many events each request asks for; a client may change it as it goes.
  type Requests = nat -> int

  /** What has been read after following the cursor over the given pages, one per request. */
  datatype Reading = Reading(items: seq<Event>, next: Option<string>)

  ghost predicate Follows(logs: Growing, f: Filter, asked: Requests, pages: seq<Page>) {
    forall n: nat :: n < |pages| ==>
      && ReadBy(pages[..n]).next.Some?
      && IsPage(pages[n], logs(n), f, DecodeCursor(ReadBy(pages[..n]).next.value), Limit(asked(n)))
  }

  function ReadBy(pages: seq<Page>): Reading {
    if pages == [] then Reading([], Some(""))
    else
      var p := pages[|pages| - 1];
      Reading(ReadBy(pages[..|pages| - 1]).items + p.items, p.next)
  }

  /** The next cursor stands right after the last event read. */
  ghost predicate AtCursor(r: Reading) {
    && Descending(r.items)
    && (r.next == Some("") ==> r.items == [])
    && (r.next.Some? && r.next != Some("") ==>
          r.items != [] && DecodeCursor(r.next.value) == After(r.items[|r.items| - 1].key))
  }

  ghost predicate AllFrom(r: Reading, events: set<Event>, f: Filter) {
    forall e :: e in r.items ==> e in events && Matches(f, e)
  }

  /** Nothing matching in `events` that lies before the cursor is missing. */
  ghost predicate NothingSkipped(r: Reading, events: set<Event>, f: Filter) {
    forall e :: e in events && Matches(f, e) && (r.next.None? || !Past(e, DecodeCursor(r.next.value))) ==> e in r.items
  }

  /** Read so far: in strictly descending order, each from the log, and nothing matching at the start was skipped. */
  ghost predicate Sofar(logs: Growing, f: Filter, pages: seq<Page>) {
    AtCursor(ReadBy(pages)) && AllFrom(ReadBy(pages), logs(|pages|), f) && NothingSkipped(ReadBy(pages), logs(0), f)
  }

  lemma {:induction false} GrownBy(logs: Growing, n: nat)
    requires AppendOnly(logs)
    ensures logs(0) <= logs(n)
  {
    if n > 0 { GrownBy(logs, n - 1); }
  }

  lemma {:induction false} PageContinues(logs: Growing, f: Filter, limit: nat, pages: seq<Page>, p: Page)
    requires AppendOnly(logs) && limit >= 1 && Sofar(logs, f, pages) && ReadBy(pages).next.Some?
    requires IsPage(p, logs(|pages|), f, DecodeCursor(ReadBy(pages).next.value), limit)
    ensures Sofar(logs, f, pages + [p])
  {
    hide AtCursor, AllFrom, NothingSkipped, IsListing, Cut, Selected, Log, DecodeCursor;
    var r := ReadBy(pages);
    var n := |pages|;
    var rows :| IsListing(rows, Selected(logs(n), f, DecodeCursor(r.next.value))) && p == Cut(rows, limit);
    assert (pages + [p])[..n] == pages;
    assert |pages + [p]| == n + 1 && logs(n) <= logs(n + 1);
    GrownBy(logs, n);
    CursorMoves(r, logs(n), f, limit, rows);
    PageIsFromLog(r, logs(n), logs(n + 1), f, limit, rows);
    PageSkipsNothing(r, logs(0), logs(n), f, limit, rows);
  }

  function Then(r: Reading, p: Page): Reading {
    Reading(r.items + p.items, p.next)
  }

  lemma {:induction false} CursorMoves(r: Reading, events: set<Event>, f: Filter, limit: nat, rows: seq<Event>)
    requires AtCursor(r) && r.next.Some? && limit >= 1 && Log(events)
    requires IsListing(rows, Selected(events, f, DecodeCursor(r.next.value)))
    ensures AtCursor(Then(r, Cut(rows, limit)))
  {
    hide Below, DecodeCursor, EncodeCursor, Matches;
    StartCursor();
    JoinDescends(r.items, Cut(rows, limit).items, rows, DecodeCursor(r.next.value));
    if |rows| > limit {
      assert rows[limit - 1] in rows;
      DecodeUndoesEncode(rows[limit - 1].key);
    }
  }

  lemma {:induction false} PageIsFromLog(r: Reading, events: set<Event>, more: set<Event>, f: Filter, limit: nat,
      rows: seq<Event>)
    requires AllFrom(r, events, f) && r.next.Some? && events <= more
    requires IsListing(rows, Selected(events, f, DecodeCursor(r.next.value)))
    ensures AllFrom(Then(r, Cut(rows, limit)), more, f)
  {
    hide Below, DecodeCursor, EncodeCursor, Matches, Descending, Past;
    var items := Cut(rows, limit).items;
    assert forall e :: e in items ==> e in rows;
  }

  lemma {:induction false} PageSkipsNothing(r: Reading, start: set<Event>, events: set<Event>, f: Filter, limit: nat,
      rows: seq<Event>)
    requires NothingSkipped(r, start, f) && r.next.Some? && start <= events && Log(events) && limit >= 1
    requires IsListing(rows, Selected(events, f, DecodeCursor(r.next.value)))
    ensures NothingSkipped(Then(r, Cut(rows, limit)), start, f)
  {
    hide Below, DecodeCursor, EncodeCursor, Matches, Past, Cut;
    var p := Cut(rows, limit);
    forall e | e in start && Matches(f, e) && (p.next.None? || !Past(e, DecodeCursor(p.next.value)))
      ensures e in r.items + p.items
    {
      if Past(e, DecodeCursor(r.next.value)) {
        assert e in rows;
        NotPastIsRead(rows, limit, e);
      }
    }
  }

  lemma {:induction false} StartCursor()
    ensures DecodeCursor("") == Start
  {}

  lemma {:induction false} JoinDescends(read: seq<Event>, items: seq<Event>, rows: seq<Event>, c: Cursor)
    requires Descending(read) && Descending(rows) && items <= rows
    requires forall e :: e in rows ==> Past(e, c)
    requires c.Start? ==> read == []
    requires c.After? ==> read != [] && c.key == read[|read| - 1].key
    ensures Descending(read + items)
  {
    hide Below;
    var all := read + items;
    forall i, j | 0 <= i < j < |all| ensures Below(all[j].key, all[i].key) {
      if i < |read| <= j {
        assert all[j] == rows[j - |read|] && all[j] in rows;
        BelowIsOrder(all[j].key, read[|read| - 1].key, all[i].key);
      }
    }
  }

  lemma {:induction false} NotPastIsRead(rows: seq<Event>, limit: nat, e: Event)
    requires Descending(rows) && limit >= 1 && e in rows && (forall d :: d in rows ==> ValidKey(d.key))
    requires var p := Cut(rows, limit); p.next.None? || !Past(e, DecodeCursor(p.next.value))
    ensures e in Cut(rows, limit).items
  {
    hide Below, DecodeCursor, EncodeCursor;
    if |rows| > limit {
      var last := rows[limit - 1];
      assert last in rows;
      DecodeUndoesEncode(last.key);
      var i :| 0 <= i < |rows| && rows[i] == e;
      if i < limit { assert rows[..limit][i] == e; }
    }
  }

  lemma {:induction false} PagesContinue(logs: Growing, f: Filter, asked: Requests, pages: seq<Page>)
    requires AppendOnly(logs) && Follows(logs, f, asked, pages)
    ensures Sofar(logs, f, pages)
  {
    hide Sofar, IsPage, AppendOnly, Follows;
    if pages == [] {
      SofarAtStart(logs, f);
    } else {
      var before, p := pages[..|pages| - 1], pages[|pages| - 1];
      FollowsPrefix(logs, f, asked, pages);
      PagesContinue(logs, f, asked, before);
      PageContinues(logs, f, Limit(asked(|before|)), before, p);
      assert before + [p] == pages;
    }
  }

  lemma {:induction false} FollowsPrefix(logs: Growing, f: Filter, asked: Requests, pages: seq<Page>)
    requires Follows(logs, f, asked, pages) && pages != []
    ensures var before := pages[..|pages| - 1];
            && Follows(logs, f, asked, before) && ReadBy(before).next.Some?
            && IsPage(pages[|pages| - 1], logs(|before|), f, DecodeCursor(ReadBy(before).next.value),
              Limit(asked(|before|)))
  {
    hide IsPage, ReadBy;
    var before := pages[..|pages| - 1];
    forall n: nat | n < |before|
      ensures ReadBy(before[..n]).next.Some?
          && IsPage(before[n], logs(n), f, DecodeCursor(ReadBy(before[..n]).next.value),
                Limit(asked(n)))
    {
      assert before[..n] == pages[..n] && before[n] == pages[n];
    }
  }

  lemma {:induction false} SofarAtStart(logs: Growing, f: Filter)
    ensures Sofar(logs, f, [])
  {
    StartCursor();
    NothingSkippedAtStart(logs, f);
  }

  lemma {:induction false} NothingSkippedAtStart(logs: Growing, f: Filter)
    ensures forall e :: e in logs(0) ==> Past(e, Start)
  {}

  /** Whatever is appended while reading: once there is no next cursor, every event that matched when the reading
      began was returned, the list is strictly descending, so none was returned twice, and nothing else than
      matching events of the log was. */
  lemma {:induction false} EveryEventOnce(logs: Growing, f: Filter, asked: Requests, pages: seq<Page>)
    requires AppendOnly(logs) && Follows(logs, f, asked, pages) && ReadBy(pages).next.None?
    ensures var items := ReadBy(pages).items;
            && Descending(items) && (forall i, j :: 0 <= i < j < |items| ==> items[i] != items[j])
            && (forall e :: e in logs(0) && Matches(f, e) ==> e in items)
            && (forall e :: e in items ==> e in logs(|pages|) && Matches(f, e))
  {
    PagesContinue(logs, f, asked, pages);
    hide Below, Matches;
    var items := ReadBy(pages).items;
    forall i, j | 0 <= i < j < |items| ensures items[i] != items[j] {
      BelowIsOrder(items[i].key, items[i].key, items[i].key);
    }
  }

  // ---- ending -----------------------------------------------------------------------------------

  /** Events appended later are newer than everything there at the start, as their creation times are. */
  ghost predicate Newer(logs: Growing) {
    forall n: nat, e, d :: e in logs(n) && e !in logs(0) && d in logs(0) ==> Below(d.key, e.key)
  }

  lemma {:induction false} StrictlyFewer(s: seq<Event>, all: set<Event>)
    requires Descending(s) && forall e :: e in s ==> e in all
    ensures |s| <= |all|
  {
    if s != [] {
      var rest, last := s[..|s| - 1], s[|s| - 1];
      forall e | e in rest ensures e in all - {last} {
        var i :| 0 <= i < |rest| && rest[i] == e;
        BelowIsOrder(last.key, e.key, last.key);
      }
      hide Below;
      assert last in s;
      StrictlyFewer(rest, all - {last});
    }
  }

  /** Only events of the start are read, and every page but the last is full. */
  lemma {:induction false} FullPages(logs: Growing, f: Filter, asked: Requests, pages: seq<Page>)
    requires AppendOnly(logs) && Newer(logs) && Follows(logs, f, asked, pages)
    ensures Sofar(logs, f, pages) && OldAndFull(logs, asked, pages)
  {
    PagesContinue(logs, f, asked, pages);
    hide Sofar, IsPage, AppendOnly, OldAndFull, Follows, ReadBy, Newer;
    if pages == [] {
      OldAndFullAtFirst(logs, asked);
    } else {
      FollowsPrefix(logs, f, asked, pages);
      FullPages(logs, f, asked, pages[..|pages| - 1]);
      LastFullPage(logs, f, asked, pages);
    }
  }

  lemma {:induction false} LastFullPage(logs: Growing, f: Filter, asked: Requests, pages: seq<Page>)
    requires Newer(logs) && Follows(logs, f, asked, pages) && pages != []
    requires Sofar(logs, f, pages[..|pages| - 1]) && OldAndFull(logs, asked, pages[..|pages| - 1])
    ensures OldAndFull(logs, asked, pages)
  {
    hide Sofar, IsPage, OldAndFull, Follows, ReadBy, Newer;
    FollowsPrefix(logs, f, asked, pages);
    NextFullPage(logs, f, asked, pages[..|pages| - 1], pages[|pages| - 1]);
    assert pages[..|pages| - 1] + [pages[|pages| - 1]] == pages;
  }

  function Total(asked: Requests, n: nat): nat {
    if n == 0 then 0 else Total(asked, n - 1) + Limit(asked(n - 1))
  }

  lemma {:induction false} TotalGrows(asked: Requests, n: nat)
    ensures n <= Total(asked, n)
  {
    if n > 0 { TotalGrows(asked, n - 1); }
  }

  ghost predicate OldAndFull(logs: Growing, asked: Requests, pages: seq<Page>) {
    && (forall e :: e in ReadBy(pages).items ==> e in logs(0))
    && (ReadBy(pages).next.Some? ==> |ReadBy(pages).items| == Total(asked, |pages|))
  }

  lemma {:induction false} OldAndFullAtFirst(logs: Growing, asked: Requests)
    ensures OldAndFull(logs, asked, [])
  {}

  lemma {:induction false} NextFullPage(logs: Growing, f: Filter, asked: Requests, before: seq<Page>, p: Page)
    requires Newer(logs) && Sofar(logs, f, before) && ReadBy(before).next.Some? && OldAndFull(logs, asked, before)
    requires IsPage(p, logs(|before|), f, DecodeCursor(ReadBy(before).next.value), Limit(asked(|before|)))
    ensures OldAndFull(logs, asked, before + [p])
  {
    hide Cut, Selected, IsListing, DecodeCursor, Newer;
    var limit := Limit(asked(|before|));
    var rows: seq<Event> :| IsListing(rows, Selected(logs(|before|), f, DecodeCursor(ReadBy(before).next.value)))
        && p == Cut(rows, limit);
    assert (before + [p])[..|before|] == before;
    if before != [] { assert Total(asked, |before|) >= 1; }
    OldEventsOnly(logs, f, before, limit, rows);
    FullPage(rows, limit);
    assert Total(asked, |before| + 1) == Total(asked, |before|) + limit;
  }

  lemma {:induction false} FullPage(rows: seq<Event>, limit: nat)
    ensures Cut(rows, limit).next.Some? ==> |Cut(rows, limit).items| == limit
  {}

  lemma {:induction false} OldEventsOnly(logs: Growing, f: Filter, before: seq<Page>, limit: nat, rows: seq<Event>)
    requires Newer(logs) && Sofar(logs, f, before) && ReadBy(before).next.Some?
    requires before != [] ==> ReadBy(before).next != Some("")
    requires forall d :: d in ReadBy(before).items ==> d in logs(0)
    requires IsListing(rows, Selected(logs(|before|), f, DecodeCursor(ReadBy(before).next.value)))
    ensures forall e :: e in Cut(rows, limit).items ==> e in logs(0)
  {
    hide Below, DecodeCursor, EncodeCursor, Matches;
    var items := ReadBy(before).items;
    forall e | e in Cut(rows, limit).items ensures e in logs(0) {
      assert e in rows;
      if before != [] {
        var last := items[|items| - 1];
        assert last in items;
        BelowIsOrder(e.key, last.key, e.key);
      }
    }
  }

  /** Then the reading ends, after at most one page more than the start's events fill, and has returned exactly the
      events that matched at the start, in order. */
  lemma {:induction false} ReadingEnds(logs: Growing, f: Filter, asked: Requests, pages: seq<Page>)
    requires AppendOnly(logs) && Newer(logs) && Follows(logs, f, asked, pages)
    ensures ReadBy(pages).next.Some? ==> |pages| <= Total(asked, |pages|) <= |logs(0)|
    ensures ReadBy(pages).next.None? ==> IsListing(ReadBy(pages).items, Selected(logs(0), f, Start))
  {
    FullPages(logs, f, asked, pages);
    hide Below, Matches, DecodeCursor;
    StrictlyFewer(ReadBy(pages).items, logs(0));
    TotalGrows(asked, |pages|);
    NothingSkippedAtStart(logs, f);
  }
}
