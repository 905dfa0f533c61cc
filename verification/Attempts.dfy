/** Failure counting per account: a check is let through, runs, and only then records how it went. */
module Attempts {
  import opened Prelude

  type Time = int

  const WINDOW: nat := 900

  datatype Row = Row(failures: nat, start: Time)

  datatype Verdict = Correct | Wrong | OtherError

  /** The gate in front of a check. */
  predicate Open(row: Option<Row>, limit: nat, now: Time) {
    row.None? || !(now < row.value.start + WINDOW && row.value.failures >= limit)
  }

  /** The upsert of a failed check; `now` is when the check began. */
  function Upsert(row: Option<Row>, now: Time): Row {
    match row
    case None => Row(1, now)
    case Some(r) => if r.start <= now - WINDOW then Row(1, now) else Row(r.failures + 1, r.start)
  }

  /** What a finished check leaves; a success clears the row only if one was there when it began. */
  function Record(row: Option<Row>, recorded: bool, now: Time, verdict: Verdict): Option<Row> {
    match verdict
    case Correct => if recorded then None else row
    case Wrong => Some(Upsert(row, now))
    case OtherError => row
  }

  // ---- concurrent checks of one account ----------------------------------------------------

  datatype Check = Check(began: Time, recorded: bool)

  datatype State = State(row: Option<Row>, running: map<nat, Check>)

  // `Forget` is the cleanup removing the row, at whatever time.
  datatype Event = Begin(id: nat, now: Time) | Finish(id: nat, verdict: Verdict) | Forget

  // At most `k` checks run at once. The clocks of the callers need not agree.
  predicate Enabled(s: State, k: nat, e: Event) {
    match e
    case Begin(id, _) => id !in s.running && |s.running| < k
    case Finish(id, _) => id in s.running
    case Forget => true
  }

  function Next(s: State, limit: nat, e: Event): State {
    match e
    case Begin(id, now) =>
      if Open(s.row, limit, now) then s.(running := s.running[id := Check(now, s.row.Some?)]) else s
    case Finish(id, verdict) =>
      if id !in s.running then s
      else State(Record(s.row, s.running[id].recorded, s.running[id].began, verdict), s.running - {id})
    case Forget => s.(row := None)
  }

  function Run(limit: nat, es: seq<Event>): State {
    if es == [] then State(None, map[]) else Next(Run(limit, es[..|es| - 1]), limit, es[|es| - 1])
  }

  ghost predicate AllEnabled(limit: nat, k: nat, es: seq<Event>) {
    forall i :: 0 <= i < |es| ==> Enabled(Run(limit, es[..i]), k, es[i])
  }

  function Failures(row: Option<Row>): nat {
    if row.Some? then row.value.failures else 0
  }

  /** The running checks whose failure would add to the count rather than start a new window. */
  function Adding(s: State): set<nat> {
    set i | i in s.running && (s.row.Some? ==> s.row.value.start > s.running[i].began - WINDOW)
  }

  /** Failures counted and failures still to come never exceed the limit by more than the other checks. */
  predicate Bounded(s: State, limit: nat, k: nat) {
    |s.running| <= k && Failures(s.row) + |Adding(s)| <= limit + k - 1
  }

  lemma {:induction false} FewerAtMost(a: set<nat>, b: set<nat>)
    requires a <= b
    ensures |a| <= |b|
  {
    assert b == a + (b - a);
  }

  lemma {:induction false} RunningAtMost(s: State, ids: set<nat>)
    requires ids <= s.running.Keys
    ensures |ids| <= |s.running|
  {
    FewerAtMost(ids, s.running.Keys);
    assert |s.running.Keys| == |s.running|;
  }

  lemma {:induction false} BeginKeeps(s: State, limit: nat, k: nat, id: nat, now: Time)
    requires limit >= 1 && Bounded(s, limit, k) && Enabled(s, k, Begin(id, now))
    ensures Bounded(Next(s, limit, Begin(id, now)), limit, k)
  {
    var s' := Next(s, limit, Begin(id, now));
    if Open(s.row, limit, now) {
      assert s'.running.Keys == s.running.Keys + {id};
      RunningAtMost(s', Adding(s'));
      if s.row.Some? && now >= s.row.value.start + WINDOW {
        assert Adding(s') == Adding(s);
      }
    }
  }

  lemma {:induction false} FinishKeeps(s: State, limit: nat, k: nat, id: nat, verdict: Verdict)
    requires limit >= 1 && Bounded(s, limit, k) && Enabled(s, k, Finish(id, verdict))
    ensures Bounded(Next(s, limit, Finish(id, verdict)), limit, k)
  {
    var s' := Next(s, limit, Finish(id, verdict));
    assert s'.running.Keys == s.running.Keys - {id};
    RunningAtMost(s', Adding(s'));
    if s'.row == s.row {
      FewerAtMost(Adding(s'), Adding(s));
    } else if verdict == Wrong && s.row.Some? && id in Adding(s) {
      assert Adding(s') == Adding(s) - {id};
    }
  }

  lemma {:induction false} RunKeepsBounded(limit: nat, k: nat, es: seq<Event>)
    requires limit >= 1 && k >= 1 && AllEnabled(limit, k, es)
    ensures Bounded(Run(limit, es), limit, k)
  {
    if es != [] {
      var before, e := es[..|es| - 1], es[|es| - 1];
      assert forall i :: 0 <= i < |before| ==> before[..i] == es[..i];
      RunKeepsBounded(limit, k, before);
      match e
      case Begin(id, now) => BeginKeeps(Run(limit, before), limit, k, id, now);
      case Finish(id, verdict) => FinishKeeps(Run(limit, before), limit, k, id, verdict);
      case Forget => RunningAtMost(Next(Run(limit, before), limit, e), Adding(Next(Run(limit, before), limit, e)));
    } else {
      assert Adding(Run(limit, es)) == {};
    }
  }

  /** With at most k checks running at once, in any interleaving, the count never passes limit + k - 1. */
  lemma {:induction false} CountNeverPasses(limit: nat, k: nat, es: seq<Event>)
    requires limit >= 1 && k >= 1 && AllEnabled(limit, k, es)
    ensures Failures(Run(limit, es).row) <= limit + k - 1
  {
    RunKeepsBounded(limit, k, es);
  }

  lemma {:induction false} Extend(limit: nat, k: nat, es: seq<Event>, e: Event)
    requires AllEnabled(limit, k, es) && Enabled(Run(limit, es), k, e)
    ensures AllEnabled(limit, k, es + [e]) && Run(limit, es + [e]) == Next(Run(limit, es), limit, e)
  {
    var all := es + [e];
    assert all[..|es|] == es;
    forall i | 0 <= i < |all| ensures Enabled(Run(limit, all[..i]), k, all[i]) {
      if i < |es| { assert all[..i] == es[..i]; }
    }
  }

  function RowAfter(failures: nat): Option<Row> {
    if failures == 0 then None else Some(Row(failures, 0))
  }

  /** Failures one after the other, up to the limit. */
  lemma {:induction false} Alone(limit: nat, k: nat, n: nat) returns (es: seq<Event>)
    requires k >= 1 && n < limit
    ensures AllEnabled(limit, k, es) && Run(limit, es) == State(RowAfter(n), map[])
  {
    hide AllEnabled, Next, Enabled;
    es := [];
    if n == 0 {
      NothingYet(limit, k);
    } else {
      es := Alone(limit, k, n - 1);
      OneAlone(limit, k, n);
      Extend(limit, k, es, Begin(0, 0));
      es := es + [Begin(0, 0)];
      Extend(limit, k, es, Finish(0, Wrong));
      es := es + [Finish(0, Wrong)];
    }
  }

  lemma {:induction false} NothingYet(limit: nat, k: nat)
    ensures AllEnabled(limit, k, []) && Run(limit, []) == State(None, map[])
  {}

  lemma {:induction false} OneAlone(limit: nat, k: nat, n: nat)
    requires k >= 1 && 1 <= n < limit
    ensures var s := State(RowAfter(n - 1), map[]);
            && Enabled(s, k, Begin(0, 0)) && Enabled(Next(s, limit, Begin(0, 0)), k, Finish(0, Wrong))
            && Next(Next(s, limit, Begin(0, 0)), limit, Finish(0, Wrong)) == State(RowAfter(n), map[])
  {
    var s := State(RowAfter(n - 1), map[]);
    assert Next(s, limit, Begin(0, 0)).running == map[0 := Check(0, n > 1)];
  }

  function Ids(from: nat, to: nat): (ids: set<nat>)
    ensures from <= to ==> |ids| == to - from
    ensures forall i :: i in ids <==> from <= i < to
  {
    if to <= from then {} else Ids(from, to - 1) + {to - 1}
  }

  function Waiting(limit: nat, from: nat, to: nat): map<nat, Check> {
    map i | i in Ids(from, to) :: Check(0, limit > 1)
  }

  /** One failure short of the limit, `n` checks are let through together. */
  lemma {:induction false} Together(limit: nat, k: nat, n: nat) returns (es: seq<Event>)
    requires limit >= 1 && k >= 1 && n <= k
    ensures AllEnabled(limit, k, es) && Run(limit, es) == State(RowAfter(limit - 1), Waiting(limit, 0, n))
  {
    hide AllEnabled, Run, Next, Enabled;
    if n == 0 {
      es := Alone(limit, k, limit - 1);
      assert Waiting(limit, 0, 0) == map[];
    } else {
      hide Waiting;
      es := Together(limit, k, n - 1);
      OneBegins(limit, k, n);
      Extend(limit, k, es, Begin(n - 1, 0));
      es := es + [Begin(n - 1, 0)];
    }
  }

  lemma {:induction false} OneBegins(limit: nat, k: nat, n: nat)
    requires limit >= 1 && 1 <= n <= k
    ensures var s := State(RowAfter(limit - 1), Waiting(limit, 0, n - 1));
            && Enabled(s, k, Begin(n - 1, 0))
            && Next(s, limit, Begin(n - 1, 0)) == State(RowAfter(limit - 1), Waiting(limit, 0, n))
  {
    HowManyWait(limit, n - 1);
    OneMoreWaits(limit, n);
    hide Waiting;
  }

  lemma {:induction false} HowManyWait(limit: nat, n: nat)
    ensures Waiting(limit, 0, n).Keys == Ids(0, n) && |Waiting(limit, 0, n)| == n
  {
    assert |Waiting(limit, 0, n)| == |Waiting(limit, 0, n).Keys|;
  }

  lemma {:induction false} OneMoreWaits(limit: nat, n: nat)
    requires n >= 1
    ensures Waiting(limit, 0, n) == Waiting(limit, 0, n - 1)[n - 1 := Check(0, limit > 1)]
    ensures n - 1 !in Waiting(limit, 0, n - 1)
  {}

  lemma {:induction false} AllWrong(limit: nat, k: nat, n: nat) returns (es: seq<Event>)
    requires limit >= 1 && k >= 1 && n <= k
    ensures AllEnabled(limit, k, es) && Run(limit, es) == State(RowAfter(limit - 1 + n), Waiting(limit, n, k))
  {
    hide AllEnabled, Run, Waiting, Next, Enabled;
    if n == 0 {
      es := Together(limit, k, k);
    } else {
      es := AllWrong(limit, k, n - 1);
      OneFinishes(limit, k, n);
      Extend(limit, k, es, Finish(n - 1, Wrong));
      es := es + [Finish(n - 1, Wrong)];
    }
  }

  lemma {:induction false} OneFinishes(limit: nat, k: nat, n: nat)
    requires limit >= 1 && 1 <= n <= k
    ensures var s := State(RowAfter(limit - 1 + n - 1), Waiting(limit, n - 1, k));
            && Enabled(s, k, Finish(n - 1, Wrong))
            && Next(s, limit, Finish(n - 1, Wrong)) == State(RowAfter(limit - 1 + n), Waiting(limit, n, k))
  {
    OneFewerWaits(limit, k, n);
    hide Waiting;
  }

  lemma {:induction false} OneFewerWaits(limit: nat, k: nat, n: nat)
    requires 1 <= n <= k
    ensures n - 1 in Waiting(limit, n - 1, k) && Waiting(limit, n - 1, k)[n - 1] == Check(0, limit > 1)
    ensures Waiting(limit, n, k) == Waiting(limit, n - 1, k) - {n - 1}
  {}

  /** The bound is the exact one: some interleaving of at most k checks reaches it. */
  lemma {:induction false} CountCanReachTheBound(limit: nat, k: nat)
    requires limit >= 1 && k >= 1
    ensures exists es :: AllEnabled(limit, k, es) && Failures(Run(limit, es).row) == limit + k - 1
  {
    var es := AllWrong(limit, k, k);
    assert Failures(Run(limit, es).row) == limit + k - 1;
  }

  // ---- one check at a time -----------------------------------------------------------------------

  // Failed checks in order; a check that is not let through is not counted.
  datatype Log = Log(row: Option<Row>, counted: seq<Time>)

  function Fail(l: Log, limit: nat, now: Time): Log {
    if Open(l.row, limit, now) then Log(Some(Upsert(l.row, now)), l.counted + [now]) else l
  }

  function Fails(limit: nat, at: seq<Time>): Log {
    if at == [] then Log(None, []) else Fail(Fails(limit, at[..|at| - 1]), limit, at[|at| - 1])
  }

  predicate InOrder(at: seq<Time>) {
    forall i, j :: 0 <= i <= j < |at| ==> at[i] <= at[j]
  }

  /** How many of the times fall in [from, from + WINDOW). */
  function CountIn(at: seq<Time>, from: Time): nat {
    if at == [] then 0
    else CountIn(at[..|at| - 1], from) + if from <= at[|at| - 1] < from + WINDOW then 1 else 0
  }

  lemma {:induction false} CountAfter(at: seq<Time>, from: Time, m: nat)
    requires m <= |at| && forall i :: 0 <= i < m ==> at[i] < from
    ensures CountIn(at, from) <= |at| - m
  {
    if |at| > m {
      CountAfter(at[..|at| - 1], from, m);
    } else if at != [] {
      CountAfter(at[..|at| - 1], from, m - 1);
    }
  }

  /** The counted failures split into older ones, the last window's and the current window's; `prev` and `cur`
      are where the last two windows start. */
  predicate Windows(l: Log, limit: nat, prev: nat, cur: nat) {
    && InOrder(l.counted)
    && (if l.row.None? then l.counted == [] && prev == cur == 0
        else
          && prev <= cur < |l.counted|
          && |l.counted| - cur == l.row.value.failures <= limit
          && l.counted[cur] == l.row.value.start
          && l.counted[|l.counted| - 1] < l.row.value.start + WINDOW
          && cur - prev <= limit
          && (cur > 0 ==> prev < cur && l.counted[prev] <= l.row.value.start - WINDOW))
  }

  lemma {:induction false} FailKeepsWindows(l: Log, limit: nat, prev: nat, cur: nat, now: Time)
      returns (prev': nat, cur': nat)
    requires limit >= 1 && Windows(l, limit, prev, cur) && (l.counted != [] ==> l.counted[|l.counted| - 1] <= now)
    ensures Windows(Fail(l, limit, now), limit, prev', cur')
  {
    prev', cur' := prev, cur;
    if l.row.Some? && l.row.value.start <= now - WINDOW {
      prev', cur' := cur, |l.counted|;
    }
  }

  /** Every failure counted so far is at or before `last`. */
  predicate Until(l: Log, last: Time) {
    forall i :: 0 <= i < |l.counted| ==> l.counted[i] <= last
  }

  lemma {:induction false} SequentialInvariant(limit: nat, at: seq<Time>, last: Time) returns (prev: nat, cur: nat)
    requires limit >= 1 && InOrder(at) && (at != [] ==> at[|at| - 1] <= last)
    ensures Windows(Fails(limit, at), limit, prev, cur) && Until(Fails(limit, at), last)
    ensures forall from :: CountIn(Fails(limit, at).counted, from) <= 2 * limit - 1
  {
    prev, cur := 0, 0;
    if at != [] {
      var now := at[|at| - 1];
      var before := Fails(limit, at[..|at| - 1]);
      prev, cur := SequentialInvariant(limit, at[..|at| - 1], now);
      prev, cur := FailKeepsWindows(before, limit, prev, cur, now);
      var after := Fail(before, limit, now);
      if after != before {
        forall from ensures CountIn(after.counted, from) <= 2 * limit - 1 {
          OneMore(before, after, limit, prev, cur, now, from);
        }
      }
    }
  }

  lemma {:induction false} OneMore(before: Log, after: Log, limit: nat, prev: nat, cur: nat, now: Time, from: Time)
    requires limit >= 1 && Windows(after, limit, prev, cur) && after.row.Some?
    requires after.counted == before.counted + [now] && CountIn(before.counted, from) <= 2 * limit - 1
    ensures CountIn(after.counted, from) <= 2 * limit - 1
  {
    assert after.counted[..|after.counted| - 1] == before.counted;
    if from <= now < from + WINDOW {
      CountAfter(after.counted, from, if cur > 0 then prev + 1 else 0);
    }
  }

  lemma {:induction false} FailuresAtMostTwice(limit: nat, at: seq<Time>, from: Time)
    requires limit >= 1 && InOrder(at)
    ensures CountIn(Fails(limit, at).counted, from) <= 2 * limit - 1
  {
    var prev, cur := SequentialInvariant(limit, at, if at == [] then 0 else at[|at| - 1]);
  }

  // A failed check, or a cleanup round, which drops the row if its window is over.
  datatype Happening = Missed(at: Time) | Cleaned(at: Time)

  function Happen(l: Log, limit: nat, h: Happening): Log {
    match h
    case Missed(at) => Fail(l, limit, at)
    case Cleaned(at) => if l.row.Some? && l.row.value.start < at - WINDOW then l.(row := None) else l
  }

  function Happened(limit: nat, hs: seq<Happening>): Log {
    if hs == [] then Log(None, []) else Happen(Happened(limit, hs[..|hs| - 1]), limit, hs[|hs| - 1])
  }

  function MissedAt(hs: seq<Happening>): seq<Time> {
    if hs == [] then []
    else MissedAt(hs[..|hs| - 1]) + (if hs[|hs| - 1].Missed? then [hs[|hs| - 1].at] else [])
  }

  predicate HappenInOrder(hs: seq<Happening>) {
    forall i, j :: 0 <= i <= j < |hs| ==> hs[i].at <= hs[j].at
  }

  /** A dropped row would have started a new window anyway. */
  predicate AsIfKept(l: Log, kept: Log, last: Time) {
    l.counted == kept.counted
    && (l.row == kept.row || (l.row.None? && kept.row.Some? && kept.row.value.start < last - WINDOW))
  }

  lemma {:induction false} MissesInOrder(hs: seq<Happening>, last: Time)
    requires HappenInOrder(hs) && (hs != [] ==> hs[|hs| - 1].at <= last)
    ensures InOrder(MissedAt(hs)) && forall i :: 0 <= i < |MissedAt(hs)| ==> MissedAt(hs)[i] <= last
  {
    if hs != [] { MissesInOrder(hs[..|hs| - 1], hs[|hs| - 1].at); }
  }

  lemma {:induction false} HappenAsIfKept(limit: nat, l: Log, kept: Log, last: Time, h: Happening)
    requires AsIfKept(l, kept, last) && last <= h.at
    ensures AsIfKept(Happen(l, limit, h), if h.Missed? then Fail(kept, limit, h.at) else kept, h.at)
  {}

  lemma {:induction false} OneMoreFails(limit: nat, at: seq<Time>, now: Time)
    ensures Fails(limit, at + [now]) == Fail(Fails(limit, at), limit, now)
  {
    assert (at + [now])[..|at|] == at;
  }

  lemma {:induction false} CleaningChangesNothing(limit: nat, hs: seq<Happening>, last: Time)
    requires HappenInOrder(hs) && (hs != [] ==> hs[|hs| - 1].at <= last)
    ensures AsIfKept(Happened(limit, hs), Fails(limit, MissedAt(hs)), last)
  {
    hide Happen, Fails, Fail;
    if hs != [] {
      var before, h := hs[..|hs| - 1], hs[|hs| - 1];
      CleaningChangesNothing(limit, before, h.at);
      HappenAsIfKept(limit, Happened(limit, before), Fails(limit, MissedAt(before)), h.at, h);
      if h.Missed? {
        OneMoreFails(limit, MissedAt(before), h.at);
      } else {
        assert MissedAt(hs) == MissedAt(before);
      }
    } else {
      NoneYet(limit);
    }
  }

  lemma {:induction false} NoneYet(limit: nat)
    ensures Fails(limit, []) == Log(None, [])
  {}

  /** With checks one at a time and no success between them, and the cleanup at any times, any half-open interval of
      one window length holds at most 2 * limit - 1 counted failures. */
  lemma {:induction false} AtMostTwiceTheLimit(limit: nat, hs: seq<Happening>, from: Time)
    requires limit >= 1 && HappenInOrder(hs)
    ensures CountIn(Happened(limit, hs).counted, from) <= 2 * limit - 1
  {
    var last := if hs == [] then 0 else hs[|hs| - 1].at;
    MissesInOrder(hs, last);
    CleaningChangesNothing(limit, hs, last);
    FailuresAtMostTwice(limit, MissedAt(hs), from);
  }

  function Repeat(n: nat, at: Time): seq<Happening> {
    if n == 0 then [] else Repeat(n - 1, at) + [Missed(at)]
  }

  /** The row after these failures, and how many of them fall in the window from `from`. */
  predicate Stands(limit: nat, hs: seq<Happening>, row: Row, from: Time, count: nat) {
    Happened(limit, hs).row == Some(row) && CountIn(Happened(limit, hs).counted, from) == count
  }

  /** One more failure that is let through. */
  lemma {:induction false} OneMoreMiss(limit: nat, hs: seq<Happening>, row: Row, from: Time, count: nat, at: Time)
    requires Stands(limit, hs, row, from, count) && Open(Some(row), limit, at)
    ensures Stands(limit, hs + [Missed(at)], Upsert(Some(row), at), from,
                   count + if from <= at < from + WINDOW then 1 else 0)
  {
    assert (hs + [Missed(at)])[..|hs|] == hs;
    var counted := Happened(limit, hs).counted;
    assert (counted + [at])[..|counted|] == counted;
  }

  /** `n` failures at one time within the current window and the limit: each is counted. */
  lemma {:induction false} Repeated(
      limit: nat, hs: seq<Happening>, row: Row, from: Time, count: nat, at: Time, n: nat)
    requires Stands(limit, hs, row, from, count) && from <= at < from + WINDOW
    requires row.start > at - WINDOW && row.failures + n <= limit
    ensures Stands(limit, hs + Repeat(n, at), Row(row.failures + n, row.start), from, count + n)
  {
    hide Stands;
    if n == 0 {
      assert hs + Repeat(0, at) == hs;
    } else {
      Repeated(limit, hs, row, from, count, at, n - 1);
      OneMoreMiss(limit, hs + Repeat(n - 1, at), Row(row.failures + n - 1, row.start), from, count + n - 1, at);
      assert hs + Repeat(n, at) == (hs + Repeat(n - 1, at)) + [Missed(at)];
    }
  }

  lemma {:induction false} RepeatAt(n: nat, at: Time)
    ensures |Repeat(n, at)| == n && forall i :: 0 <= i < n ==> Repeat(n, at)[i] == Missed(at)
  {
    if n > 0 { RepeatAt(n - 1, at); }
  }

  lemma {:induction false} FirstMiss(limit: nat)
    requires limit >= 1
    ensures Stands(limit, [Missed(0)], Row(1, 0), 1, 0)
  {
    var hs := [Missed(0)];
    assert hs[..|hs| - 1] == [];
    assert Happened(limit, hs) == Log(Some(Row(1, 0)), [0]);
  }

  /** The bound is the exact one: a failure at 0, the rest of the limit just before its window ends, and the limit again
      as soon as it has. */
  lemma {:induction false} TwiceTheLimitIsReached(limit: nat)
    requires limit >= 1
    ensures exists hs, from ::
              HappenInOrder(hs) && CountIn(Happened(limit, hs).counted, from) == 2 * limit - 1
  {
    hide Happened, CountIn, HappenInOrder, Repeat;
    var hs := WorstOfTwo(limit);
    assert HappenInOrder(hs) && CountIn(Happened(limit, hs).counted, 1) == 2 * limit - 1;
  }

  lemma {:induction false} WorstOfTwo(limit: nat) returns (hs: seq<Happening>)
    requires limit >= 1
    ensures HappenInOrder(hs) && CountIn(Happened(limit, hs).counted, 1) == 2 * limit - 1
  {
    hide Happened, CountIn, HappenInOrder, Repeat;
    var a := [Missed(0)];
    var b := a + Repeat(limit - 1, WINDOW - 1);
    var c := b + [Missed(WINDOW)];
    hs := c + Repeat(limit - 1, WINDOW);
    InThatOrder(limit);
    FirstMiss(limit);
    Repeated(limit, a, Row(1, 0), 1, 0, WINDOW - 1, limit - 1);
    OneMoreMiss(limit, b, Row(limit, 0), 1, limit - 1, WINDOW);
    Repeated(limit, c, Row(1, WINDOW), 1, limit, WINDOW, limit - 1);
  }

  lemma {:induction false} InThatOrder(limit: nat)
    requires limit >= 1
    ensures HappenInOrder([Missed(0)] + Repeat(limit - 1, WINDOW - 1) + [Missed(WINDOW)] + Repeat(limit - 1, WINDOW))
  {
    RepeatAt(limit - 1, WINDOW - 1);
    RepeatAt(limit - 1, WINDOW);
    hide Repeat;
  }

  // ---- the counter as it runs ----------------------------------------------------------------------

  datatype Answer = Passed | Failed | TooMany

  class Counter {
    var rows: map<string, Row>

    function RowOf(key: string): Option<Row>
      reads this
    {
      if key in rows then Some(rows[key]) else None
    }

    constructor ()
      ensures rows == map[]
    {
      rows := map[];
    }

    /** The cleanup pass over this table; a batch may be cut off anywhere. */
    method Clean(now: Time, batch: set<string>)
      modifies this
      ensures forall key :: RowOf(key) ==
                if key in batch && key in old(rows) && old(rows)[key].start < now - WINDOW then None
                    else old(RowOf(key))
    {
      rows := map key | key in rows && !(key in batch && rows[key].start < now - WINDOW) :: rows[key];
    }

    /** One whole check of an account; `verdict` is what comparing the secret would say. */
    method Throttled(account: string, limit: nat, now: Time, verdict: Verdict) returns (answer: Answer)
      modifies this
      ensures account == "" ==> rows == old(rows) && answer == (if verdict == Correct then Passed else Failed)
      ensures account != "" ==>
                if Open(old(RowOf(account)), limit, now) then
                  && RowOf(account) == Record(old(RowOf(account)), account in old(rows), now, verdict)
                  && answer == (if verdict == Correct then Passed else Failed)
                else rows == old(rows) && answer == TooMany
      ensures forall other :: other != account ==> RowOf(other) == old(RowOf(other))
    {
      answer := if verdict == Correct then Passed else Failed;
      if account == "" {
        return;
      }
      var recorded := account in rows;
      if recorded && now < rows[account].start + WINDOW && rows[account].failures >= limit {
        return TooMany;
      }
      if verdict == Correct {
        if recorded {
          rows := rows - {account};
        }
      } else if verdict == Wrong {
        if account !in rows {
          rows := rows[account := Row(1, now)];
        } else if rows[account].start <= now - WINDOW {
          rows := rows[account := Row(1, now)];
        } else {
          rows := rows[account := rows[account].(failures := rows[account].failures + 1)];
        }
      }
    }
  }
}
