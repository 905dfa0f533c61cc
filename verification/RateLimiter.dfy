/** The per-key token bucket of the request middleware and the janitor that forgets idle buckets. */
module RateLimiter {
  import opened Prelude

  type Key = string

  // Time is in seconds. `last` is the time of the latest call.
  datatype Bucket = Bucket(tokens: real, last: real)

  type Buckets = map<Key, Bucket>

  /** Tokens per second, bucket size and how long an idle bucket is kept. */
  datatype Params = Params(refill: real, burst: real, ttl: real) {
    predicate Valid() { refill >= 0.0 && burst >= 1.0 && ttl >= 0.0 }
  }

  /** What `d` seconds add. */
  function Gain(p: Params, d: real): real { d * p.refill }

  lemma {:induction false} GainAdds(p: Params, a: real, b: real)
    ensures Gain(p, a + b) == Gain(p, a) + Gain(p, b)
  {}

  lemma {:induction false} GainMonotone(p: Params, a: real, b: real)
    requires p.Valid() && a <= b
    ensures Gain(p, a) <= Gain(p, b)
  {}

  lemma {:induction false} GainIsRate(p: Params, d: real)
    ensures Gain(p, d) == p.refill * d && Gain(p, 0.0) == 0.0
  {}

  function Min(a: real, b: real): real { if a <= b then a else b }

  const RATE_WINDOW := 300.0
  const TTL := 3600.0

  /** newRateLimiter: a burst below one and a window that is not positive are corrected. */
  function NewParams(perWindow: real, window: real, burst: int): (p: Params)
    ensures perWindow >= 0.0 ==> p.Valid()
    ensures p.refill * (if window > 0.0 then window else RATE_WINDOW) == perWindow
    ensures p.burst == (if burst >= 1 then burst else 1) as real && p.ttl == TTL
  {
    var size := if burst < 1 then 1 else burst;
    var w := if window <= 0.0 then RATE_WINDOW else window;
    Params(perWindow / w, size as real, TTL)
  }

  // ---- one call ---------------------------------------------------------------------

  /** The tokens a call at `now` finds: a missing bucket is full, and time that did not advance adds nothing. */
  function Available(p: Params, m: Buckets, key: Key, now: real): real {
    if key !in m then p.burst
    else if now > m[key].last then Min(p.burst, m[key].tokens + Gain(p, now - m[key].last))
    else m[key].tokens
  }

  function Answer(p: Params, m: Buckets, key: Key, now: real): bool {
    Available(p, m, key, now) >= 1.0
  }

  function AfterAllow(p: Params, m: Buckets, key: Key, now: real): Buckets {
    var left := Available(p, m, key, now);
    m[key := Bucket(if left >= 1.0 then left - 1.0 else left, now)]
  }

  /** Whether the janitor drops the bucket: idle for `ttl` and full again. */
  predicate Swept(p: Params, b: Bucket, now: real) {
    now - b.last >= p.ttl && b.tokens + Gain(p, now - b.last) >= p.burst
  }

  function AfterSweep(p: Params, m: Buckets, now: real): Buckets {
    map key | key in m && !Swept(p, m[key], now) :: m[key]
  }

  class Limiter {
    const params: Params
    var buckets: Buckets

    constructor (perWindow: real, window: real, burst: int)
      requires perWindow >= 0.0
      ensures params == NewParams(perWindow, window, burst) && params.Valid()
      ensures buckets == map[]
    {
      params := NewParams(perWindow, window, burst);
      buckets := map[];
    }

    method Allow(key: Key, now: real) returns (ok: bool)
      modifies this
      ensures ok == Answer(params, old(buckets), key, now)
      ensures buckets == AfterAllow(params, old(buckets), key, now)
    {
      var b;
      if key !in buckets {
        b := Bucket(params.burst, now);
      } else {
        b := buckets[key];
        var elapsed := now - b.last;
        if elapsed > 0.0 {
          b := b.(tokens := Min(params.burst, b.tokens + elapsed * params.refill));
        }
      }
      b := b.(last := now);
      assert b == Bucket(Available(params, buckets, key, now), now);
      ok := b.tokens >= 1.0;
      if ok {
        b := b.(tokens := b.tokens - 1.0);
      }
      buckets := buckets[key := b];
    }

    method Sweep(now: real)
      modifies this
      ensures buckets == AfterSweep(params, old(buckets), now)
    {
      var todo := buckets.Keys;
      while todo != {}
        invariant todo <= buckets.Keys <= old(buckets).Keys
        invariant forall key :: key in buckets ==> buckets[key] == old(buckets)[key]
        invariant forall key :: key in old(buckets) && key !in todo ==>
            (key in buckets <==> !Swept(params, old(buckets)[key], now))
        decreases todo
      {
        var key :| key in todo;
        todo := todo - {key};
        var b := buckets[key];
        if now - b.last >= params.ttl {
          if b.tokens + (now - b.last) * params.refill >= params.burst {
            buckets := buckets - {key};
          }
        }
      }
    }
  }

  // ---- runs -------------------------------------------------------------------------

  datatype Event = Call(key: Key, at: real) | Janitor(at: real)

  function Time(e: Event): real { e.at }

  function Step(p: Params, m: Buckets, e: Event): Buckets {
    match e
    case Call(key, at) => AfterAllow(p, m, key, at)
    case Janitor(at) => AfterSweep(p, m, at)
  }

  function Run(p: Params, m: Buckets, es: seq<Event>): Buckets
    decreases |es|
  {
    if es == [] then m else Run(p, Step(p, m, es[0]), es[1..])
  }

  /** What each call of `key` in the run was answered. */
  function Answers(p: Params, m: Buckets, es: seq<Event>, key: Key): seq<bool>
    decreases |es|
  {
    if es == [] then []
    else
      (if es[0].Call? && es[0].key == key then [Answer(p, m, key, es[0].at)] else [])
      + Answers(p, Step(p, m, es[0]), es[1..], key)
  }

  /** How many calls of `key` at times between `s` and `t` were allowed. */
  function Allowed(p: Params, m: Buckets, es: seq<Event>, key: Key, s: real, t: real): nat
    decreases |es|
  {
    if es == [] then 0
    else
      (if es[0].Call? && es[0].key == key && s <= es[0].at <= t && Answer(p, m, key, es[0].at) then 1 else 0)
      + Allowed(p, Step(p, m, es[0]), es[1..], key, s, t)
  }

  /** Every bucket holds between nothing and the burst. */
  predicate InRange(p: Params, m: Buckets) {
    forall key :: key in m ==> 0.0 <= m[key].tokens <= p.burst
  }

  lemma {:induction false} AvailableBounds(p: Params, m: Buckets, key: Key, now: real)
    requires p.Valid() && InRange(p, m)
    ensures 0.0 <= Available(p, m, key, now) <= p.burst
  {
    if key in m && now > m[key].last { GainMonotone(p, 0.0, now - m[key].last); }
  }

  lemma {:induction false} StepInRange(p: Params, m: Buckets, e: Event)
    requires p.Valid() && InRange(p, m)
    ensures InRange(p, Step(p, m, e))
  {
    if e.Call? { AvailableBounds(p, m, e.key, e.at); }
  }

  /** In every state of every run, whatever the times, the tokens stay within [0, burst]. */
  lemma {:induction false} TokensStayInRange(p: Params, m: Buckets, es: seq<Event>)
    requires p.Valid() && InRange(p, m)
    ensures InRange(p, Run(p, m, es))
    decreases |es|
  {
    if es != [] {
      StepInRange(p, m, es[0]);
      TokensStayInRange(p, Step(p, m, es[0]), es[1..]);
    }
  }

  // ---- isolation and the invisible janitor ---------------------------------------------

  /** Whether `at` is not before the sweeps so far, the latest of which was at `swept`. */
  predicate Reached(swept: Option<real>, at: real) {
    swept.Some? ==> swept.value <= at
  }

  function Later(swept: Option<real>, at: real): Option<real> {
    if Reached(swept, at) then Some(at) else swept
  }

  /** No call of `key` carries a time before that of a sweep ahead of it. Other than that, times are free. */
  predicate NotBeforeSweeps(es: seq<Event>, key: Key, swept: Option<real>) {
    es == [] ||
    match es[0]
    case Call(k, at) => (k == key ==> Reached(swept, at)) && NotBeforeSweeps(es[1..], key, swept)
    case Janitor(at) => NotBeforeSweeps(es[1..], key, Later(swept, at))
  }

  /** Two states nobody can tell apart through `key` at any time the sweeps have reached. */
  ghost predicate SameFor(p: Params, m: Buckets, m': Buckets, key: Key, swept: Option<real>) {
    forall later: real :: Reached(swept, later) ==> Available(p, m, key, later) == Available(p, m', key, later)
  }

  /** A sweep changes nothing anyone can see from its time on. */
  lemma {:induction false} SweepInvisible(p: Params, m: Buckets, now: real, key: Key, later: real)
    requires p.Valid() && InRange(p, m) && now <= later
    ensures Available(p, AfterSweep(p, m, now), key, later) == Available(p, m, key, later)
  {
    hide Gain;
    if key in m && Swept(p, m[key], now) {
      GainMonotone(p, now - m[key].last, later - m[key].last);
      GainIsRate(p, 0.0);
    }
  }

  function OnlyKey(es: seq<Event>, key: Key): seq<Event> {
    if es == [] then []
    else (if es[0].Call? && es[0].key == key then [es[0]] else []) + OnlyKey(es[1..], key)
  }

  lemma {:induction false} StepSame(p: Params, m: Buckets, m': Buckets, e: Event, key: Key, swept: Option<real>)
    requires p.Valid() && InRange(p, m) && SameFor(p, m, m', key, swept)
    requires e.Call? && e.key == key ==> Reached(swept, e.at)
    ensures var m1 := if e.Call? && e.key == key then Step(p, m', e) else m';
            SameFor(p, Step(p, m, e), m1, key, if e.Janitor? then Later(swept, e.at) else swept)
  {
    hide Gain;
    if e.Janitor? {
      forall later: real | Reached(Later(swept, e.at), later)
        ensures Available(p, Step(p, m, e), key, later) == Available(p, m', key, later)
      {
        SweepInvisible(p, m, e.at, key, later);
      }
    }
  }

  /** Dropping every sweep and every call of another key from a run leaves a key's answers as they were:
      the janitor is invisible and no key is affected by the others. */
  lemma {:induction false} OnlyOwnCallsMatterFrom(
      p: Params, m: Buckets, m': Buckets, es: seq<Event>, key: Key, swept: Option<real>)
    requires p.Valid() && InRange(p, m) && NotBeforeSweeps(es, key, swept) && SameFor(p, m, m', key, swept)
    ensures Answers(p, m, es, key) == Answers(p, m', OnlyKey(es, key), key)
    decreases |es|
  {
    hide Available, AfterAllow, AfterSweep, SameFor;
    if es != [] {
      var e := es[0];
      var own := e.Call? && e.key == key;
      StepInRange(p, m, e);
      StepSame(p, m, m', e, key, swept);
      if own { SameAnswer(p, m, m', key, swept, e.at); }
      OnlyOwnCallsMatterFrom(p, Step(p, m, e), if own then Step(p, m', e) else m', es[1..], key,
        if e.Janitor? then Later(swept, e.at) else swept);
      if own {
        assert OnlyKey(es, key) == [e] + OnlyKey(es[1..], key);
        assert OnlyKey(es, key)[1..] == OnlyKey(es[1..], key);
      } else {
        assert OnlyKey(es, key) == OnlyKey(es[1..], key);
      }
    }
  }

  lemma {:induction false} SameAnswer(p: Params, m: Buckets, m': Buckets, key: Key, swept: Option<real>, at: real)
    requires SameFor(p, m, m', key, swept) && Reached(swept, at)
    ensures Answer(p, m, key, at) == Answer(p, m', key, at)
  {}

  lemma {:induction false} OnlyOwnCallsMatter(p: Params, m: Buckets, es: seq<Event>, key: Key)
    requires p.Valid() && InRange(p, m) && NotBeforeSweeps(es, key, None)
    ensures Answers(p, m, es, key) == Answers(p, m, OnlyKey(es, key), key)
  {
    OnlyOwnCallsMatterFrom(p, m, m, es, key, None);
  }

  function WithoutSweeps(es: seq<Event>): seq<Event> {
    if es == [] then [] else (if es[0].Janitor? then [] else [es[0]]) + WithoutSweeps(es[1..])
  }

  lemma {:induction false} OnlyKeyWithoutSweeps(es: seq<Event>, key: Key)
    ensures OnlyKey(WithoutSweeps(es), key) == OnlyKey(es, key)
    ensures NotBeforeSweeps(WithoutSweeps(es), key, None)
  {
    if es != [] {
      OnlyKeyWithoutSweeps(es[1..], key);
      if es[0].Call? {
        assert WithoutSweeps(es)[1..] == WithoutSweeps(es[1..]);
      } else {
        assert WithoutSweeps(es) == WithoutSweeps(es[1..]);
      }
    }
  }

  /** Interleaving any sweeps gives every key the same answers as never sweeping, as long as no call of the key
      carries a time before a sweep ahead of it; the calls themselves may come in any order. */
  lemma {:induction false} JanitorInvisible(p: Params, m: Buckets, es: seq<Event>, key: Key)
    requires p.Valid() && InRange(p, m) && NotBeforeSweeps(es, key, None)
    ensures Answers(p, m, es, key) == Answers(p, m, WithoutSweeps(es), key)
  {
    OnlyOwnCallsMatter(p, m, es, key);
    OnlyKeyWithoutSweeps(es, key);
    OnlyOwnCallsMatter(p, m, WithoutSweeps(es), key);
  }

  // ---- a zero rate ----------------------------------------------------------------------

  /** With a zero rate a key gets at most `burst` requests ever, sweeps or not, in whatever order. */
  lemma {:induction false} ZeroRateMeansBurstOnly(p: Params, m: Buckets, es: seq<Event>, key: Key, s: real, t: real)
    requires p.Valid() && p.refill == 0.0 && InRange(p, m)
    ensures Allowed(p, m, es, key, s, t) as real <= if key in m then m[key].tokens else p.burst
    ensures Allowed(p, m, es, key, s, t) as real <= p.burst
    decreases |es|
  {
    if es != [] {
      var e := es[0];
      StepInRange(p, m, e);
      if e.Call? { GainIsRate(p, e.at - (if e.key in m then m[e.key].last else e.at)); }
      ZeroRateMeansBurstOnly(p, Step(p, m, e), es[1..], key, s, t);
    }
  }

  // ---- the limit --------------------------------------------------------------------------

  function Ahead(a: real, b: real): real { if b > a then b - a else 0.0 }

  /** The later of the key's last call and the sweeps after it, once there was a call. */
  function Behind(e: Event, key: Key, from: Option<real>): Option<real> {
    match e
    case Call(k, at) => if k == key then Some(at) else from
    case Janitor(at) => if from.Some? && from.value < at then Some(at) else from
  }

  /** How far the times of the key's calls go back in all, behind its last call or a sweep since. */
  function Backward(es: seq<Event>, key: Key, from: Option<real>): real
    decreases |es|
  {
    if es == [] then 0.0
    else
      (if es[0].Call? && es[0].key == key && from.Some? then Ahead(es[0].at, from.value) else 0.0)
      + Backward(es[1..], key, Behind(es[0], key, from))
  }

  lemma {:induction false} BackwardNotNegative(es: seq<Event>, key: Key, from: Option<real>)
    ensures Backward(es, key, from) >= 0.0
    decreases |es|
  {
    if es != [] { BackwardNotNegative(es[1..], key, Behind(es[0], key, from)); }
  }

  /** What the key would find at `f` without a limit on the bucket; a dropped bucket counts as full then. */
  function Holding(p: Params, m: Buckets, key: Key, f: real): real {
    if key in m then m[key].tokens + Gain(p, f - m[key].last) else p.burst
  }

  predicate NotAfter(m: Buckets, key: Key, f: real) {
    key in m ==> m[key].last <= f
  }

  /** One event: what the key holds for the time to `t` never grows, but for the way a call of it goes back. */
  lemma {:induction false} StepHolds(p: Params, m: Buckets, e: Event, key: Key, f: real, t: real)
    requires p.Valid() && InRange(p, m) && NotAfter(m, key, f)
    ensures var f' := Behind(e, key, Some(f)).value;
            var m' := Step(p, m, e);
            var own := e.Call? && e.key == key;
            && NotAfter(m', key, f')
            && Holding(p, m', key, f') + Gain(p, t - f') + (if own && Answer(p, m, key, e.at) then 1.0 else 0.0)
               <= Holding(p, m, key, f) + Gain(p, (t - f) + (if own then Ahead(e.at, f) else 0.0))
  {
    hide Gain;
    GainIsRate(p, 0.0);
    match e
    case Call(k, at) =>
      if k == key { CallHolds(p, m, key, at, f, t); }
    case Janitor(at) =>
      if at > f { GainAdds(p, at - f, t - at); }
      if key in m {
        var last := m[key].last;
        GainAdds(p, f - last, t - f);
        if at > f { GainAdds(p, at - last, t - at); }
        if Swept(p, m[key], at) && at <= f { GainMonotone(p, at - last, f - last); }
      } else if at > f {
        GainMonotone(p, 0.0, at - f);
      }
  }

  lemma {:induction false} CallHolds(p: Params, m: Buckets, key: Key, at: real, f: real, t: real)
    requires p.Valid() && InRange(p, m) && NotAfter(m, key, f)
    ensures Available(p, m, key, at) + Gain(p, t - at) <= Holding(p, m, key, f) + Gain(p, (t - f) + Ahead(at, f))
  {
    hide Gain;
    GainIsRate(p, 0.0);
    if key in m {
      var last := m[key].last;
      Found(p, m, key, at);
      GainAdds(p, Ahead(last, at), t - at);
      GainAdds(p, f - last, (t - f) + Ahead(at, f));
      GainMonotone(p, Ahead(last, at) + (t - at), (f - last) + ((t - f) + Ahead(at, f)));
    } else {
      GainMonotone(p, t - at, (t - f) + Ahead(at, f));
    }
  }

  /** A call finds at most what was left and what the time since has added. */
  lemma {:induction false} Found(p: Params, m: Buckets, key: Key, now: real)
    requires p.Valid() && InRange(p, m) && key in m
    ensures Available(p, m, key, now) <= m[key].tokens + Gain(p, Ahead(m[key].last, now))
  {
    GainIsRate(p, 0.0);
  }

  /** From `f` on: what the key holds, and the refill of the time to `t` and of every way back. */
  lemma {:induction false} Spend(p: Params, m: Buckets, es: seq<Event>, key: Key, s: real, t: real, f: real)
    requires p.Valid() && InRange(p, m) && NotAfter(m, key, f)
    ensures Allowed(p, m, es, key, s, t) == 0 ||
            Allowed(p, m, es, key, s, t) as real
            <= Holding(p, m, key, f) + Gain(p, (t - f) + Backward(es, key, Some(f)))
    decreases |es|
  {
    hide Gain, Holding, Answer;
    if es != [] {
      var e := es[0];
      var m', f' := Step(p, m, e), Behind(e, key, Some(f)).value;
      StepInRange(p, m, e);
      StepHolds(p, m, e, key, f, t);
      Spend(p, m', es[1..], key, s, t, f');
      var rest := Backward(es[1..], key, Some(f'));
      var back := if e.Call? && e.key == key then Ahead(e.at, f) else 0.0;
      BackwardNotNegative(es[1..], key, Some(f'));
      assert (t - f) + Backward(es, key, Some(f)) == ((t - f) + back) + rest;
      GainAdds(p, (t - f) + back, rest);
      GainAdds(p, t - f', rest);
      GainMonotone(p, 0.0, rest);
      GainIsRate(p, 0.0);
      if e.Call? && e.key == key && e.at <= t { LeftOver(p, m, key, e.at, t); }
    }
  }

  /** What a call leaves, and the time after it adds, is not negative. */
  lemma {:induction false} LeftOver(p: Params, m: Buckets, key: Key, at: real, t: real)
    requires p.Valid() && InRange(p, m) && at <= t
    ensures Holding(p, AfterAllow(p, m, key, at), key, at) + Gain(p, t - at) >= 0.0
  {
    hide Gain;
    StepInRange(p, m, Call(key, at));
    GainIsRate(p, 0.0);
    GainMonotone(p, 0.0, t - at);
  }

  lemma {:induction false} SpendFromFirst(
      p: Params, m: Buckets, es: seq<Event>, key: Key, s: real, t: real, from: Option<real>)
    requires p.Valid() && InRange(p, m) && s <= t
    ensures Allowed(p, m, es, key, s, t) as real <= p.burst + Gain(p, (t - s) + Backward(es, key, from))
    decreases |es|
  {
    hide Gain;
    BackwardNotNegative(es, key, from);
    GainMonotone(p, 0.0, (t - s) + Backward(es, key, from));
    GainIsRate(p, 0.0);
    if es != [] {
      var e := es[0];
      var m', from' := Step(p, m, e), Behind(e, key, from);
      StepInRange(p, m, e);
      if e.Call? && e.key == key && s <= e.at <= t && Answer(p, m, key, e.at) {
        AvailableBounds(p, m, key, e.at);
        Spend(p, m', es[1..], key, s, t, e.at);
        GainMonotone(p, (t - e.at) + Backward(es[1..], key, from'), (t - s) + Backward(es, key, from));
      } else {
        SpendFromFirst(p, m', es[1..], key, s, t, from');
        GainMonotone(p, (t - s) + Backward(es[1..], key, from'), (t - s) + Backward(es, key, from));
      }
    }
  }

  /** For any key, any times s <= t and events in whatever order, at most burst + refill * (t - s) calls between them
      are allowed, and the refill of the time by which the key's calls went back behind an earlier call or a sweep. */
  lemma {:induction false} RateAndWaysBack(p: Params, m: Buckets, es: seq<Event>, key: Key, s: real, t: real)
    requires p.Valid() && InRange(p, m) && s <= t
    ensures Allowed(p, m, es, key, s, t) as real <= p.burst + p.refill * ((t - s) + Backward(es, key, None))
  {
    hide Allowed, Gain;
    SpendFromFirst(p, m, es, key, s, t, None);
    GainIsRate(p, (t - s) + Backward(es, key, None));
  }

  /** Timestamps do not decrease in the order the lock was taken, from `since` on. */
  predicate Ordered(es: seq<Event>, since: real) {
    es == [] || (since <= es[0].at && Ordered(es[1..], es[0].at))
  }

  lemma {:induction false} OrderedNeverGoesBack(es: seq<Event>, key: Key, since: real, from: Option<real>)
    requires Ordered(es, since) && Reached(from, since)
    ensures Backward(es, key, from) == 0.0
    decreases |es|
  {
    if es != [] { OrderedNeverGoesBack(es[1..], key, es[0].at, Behind(es[0], key, from)); }
  }

  /** With times in lock order that is burst + refill * (t - s). */
  lemma {:induction false} NeverMoreThanTheRate(
      p: Params, m: Buckets, es: seq<Event>, key: Key, since: real, s: real, t: real)
    requires p.Valid() && InRange(p, m) && Ordered(es, since) && s <= t
    ensures Allowed(p, m, es, key, s, t) as real <= p.burst + p.refill * (t - s)
  {
    hide Allowed;
    OrderedNeverGoesBack(es, key, since, None);
    RateAndWaysBack(p, m, es, key, s, t);
  }

  // ---- why the order matters -----------------------------------------------------------

  /** The clock is read before the lock is taken, so a call may carry an earlier time than the one before.
      Then `last` moves back and the same stretch of time refills twice: with one token a second and a
      burst of one, three calls at times 10, 0 and 10 allow two at the same instant. */
  lemma {:induction false} UnorderedCallsOverspend()
    ensures var p := Params(1.0, 1.0, TTL);
            var es := [Call("k", 10.0), Call("k", 0.0), Call("k", 10.0)];
            && p.Valid() && !Ordered(es, 0.0)
            && Allowed(p, map[], es, "k", 10.0, 10.0) == 2
            && p.burst + p.refill * (10.0 - 10.0) == 1.0
  {
    var p := Params(1.0, 1.0, TTL);
    var es := [Call("k", 10.0), Call("k", 0.0), Call("k", 10.0)];
    var m1 := Step(p, map[], es[0]);
    assert m1["k"] == Bucket(0.0, 10.0);
    var m2 := Step(p, m1, es[1]);
    assert m2["k"] == Bucket(0.0, 0.0);
    assert Available(p, m2, "k", 10.0) == 1.0;
    assert es[1..] == [es[1], es[2]] && es[1..][1..] == [es[2]] && es[1..][1..][1..] == [];
    assert Allowed(p, m2, [es[2]], "k", 10.0, 10.0) == 1;
    assert Allowed(p, m1, es[1..], "k", 10.0, 10.0) == 1;
    assert !Ordered(es[1..], 10.0);
  }
}
