/** The other half of the limiter: it refuses nothing it could allow, and its table empties. */
module RateLaws {
  import opened Prelude
  import opened RateLimiter

  /** The calls of a run happen in order, and none after `now`. */
  predicate InOrderUntil(es: seq<Event>, now: real) {
    && (forall i, j :: 0 <= i <= j < |es| ==> es[i].at <= es[j].at)
    && (forall i :: 0 <= i < |es| ==> es[i].at <= now)
  }

  lemma {:induction false} RunSnoc(p: Params, m: Buckets, es: seq<Event>, e: Event)
    ensures Run(p, m, es + [e]) == Step(p, Run(p, m, es), e)
    decreases |es|
  {
    if es == [] {
      assert [e][1..] == [] && [] + [e] == [e];
      assert Run(p, Step(p, m, e), []) == Step(p, m, e);
    } else {
      assert (es + [e])[1..] == es[1..] + [e];
      RunSnoc(p, Step(p, m, es[0]), es[1..], e);
    }
  }

  /** Whether the last event of the run is a call of the key that was allowed. */
  predicate LastAllowed(p: Params, es: seq<Event>, key: Key)
    requires es != []
  {
    var e := es[|es| - 1];
    e.Call? && e.key == key && Answer(p, Run(p, map[], es[..|es| - 1]), key, e.at)
  }

  /** How many calls of the key were allowed from the `k`-th event on. */
  function AllowedSince(p: Params, es: seq<Event>, key: Key, k: nat): nat {
    if |es| <= k then 0 else AllowedSince(p, es[..|es| - 1], key, k) + if LastAllowed(p, es, key) then 1 else 0
  }

  /** What a window that starts at the `k`-th event leaves for now: the burst and the refill since, less what was
      allowed. */
  function LeftOf(p: Params, es: seq<Event>, key: Key, k: nat, now: real): real
    requires k < |es|
  {
    p.burst + Gain(p, now - es[k].at) - AllowedSince(p, es, key, k) as real
  }

  predicate CallAt(es: seq<Event>, key: Key, k: nat) {
    k < |es| && es[k].Call? && es[k].key == key
  }

  /** The tokens found are what the tightest window leaves, and never more than the burst. */
  ghost predicate Tightest(p: Params, es: seq<Event>, key: Key, now: real) {
    var found := Available(p, Run(p, map[], es), key, now);
    && found <= p.burst
    && (forall k: nat :: CallAt(es, key, k) ==> found <= LeftOf(p, es, key, k, now))
    && (found == p.burst || exists k: nat :: CallAt(es, key, k) && found == LeftOf(p, es, key, k, now))
  }

  lemma {:induction false} EmptyInRange(p: Params)
    ensures InRange(p, map[])
  {}

  lemma {:induction false} TightestStart(p: Params, key: Key, now: real)
    ensures Tightest(p, [], key, now)
  {}

  /** A window gains the refill of the time that passes. */
  lemma {:induction false} LeftLater(p: Params, es: seq<Event>, key: Key, k: nat, at: real, now: real)
    requires k < |es|
    ensures LeftOf(p, es, key, k, now) == LeftOf(p, es, key, k, at) + Gain(p, now - at)
  {
    assert now - es[k].at == (at - es[k].at) + (now - at);
    GainAdds(p, at - es[k].at, now - at);
  }

  /** One more event takes one from every window if it is an allowed call. */
  lemma {:induction false} LeftOneMore(p: Params, es: seq<Event>, e: Event, key: Key, k: nat, now: real)
    requires k < |es|
    ensures LeftOf(p, es + [e], key, k, now)
         == LeftOf(p, es, key, k, now)
            - (if e.Call? && e.key == key && Answer(p, Run(p, map[], es), key, e.at) then 1.0 else 0.0)
  {
    var all := es + [e];
    assert all[..|all| - 1] == es && all[k] == es[k];
  }

  /** The tokens after a call, as a later one finds them. */
  lemma {:induction false} FoundAfterCall(p: Params, m: Buckets, key: Key, at: real, now: real)
    requires p.Valid() && InRange(p, m) && at <= now
    ensures var had := Available(p, m, key, at);
            var left := if had >= 1.0 then had - 1.0 else had;
            Available(p, AfterAllow(p, m, key, at), key, now) == Min(p.burst, left + Gain(p, now - at))
  {
    AvailableBounds(p, m, key, at);
    GainIsRate(p, 0.0);
    hide Gain;
  }

  lemma {:induction false} OtherCallSame(p: Params, m: Buckets, e: Event, key: Key, now: real)
    requires p.Valid() && InRange(p, m) && e.at <= now && !(e.Call? && e.key == key)
    ensures Available(p, Step(p, m, e), key, now) == Available(p, m, key, now)
  {
    if e.Janitor? { SweepInvisible(p, m, e.at, key, now); }
  }

  lemma {:induction false} TightestCall(p: Params, es: seq<Event>, e: Event, key: Key, now: real)
    requires p.Valid() && InRange(p, Run(p, map[], es)) && e.Call? && e.key == key && e.at <= now
    requires Tightest(p, es, key, e.at)
    ensures Tightest(p, es + [e], key, now)
  {
    var m, n, all := Run(p, map[], es), |es|, es + [e];
    var had := Available(p, m, key, e.at);
    var left := if had >= 1.0 then had - 1.0 else had;
    var one := if had >= 1.0 then 1.0 else 0.0;
    RunSnoc(p, map[], es, e);
    FoundAfterCall(p, m, key, e.at, now);
    var found := Available(p, Run(p, map[], all), key, now);
    assert found == Min(p.burst, left + Gain(p, now - e.at));
    assert all[..n] == es;
    assert AllowedSince(p, es, key, n) == 0;
    assert LeftOf(p, all, key, n, now) == p.burst + Gain(p, now - e.at) - one;
    forall k: nat | CallAt(es, key, k)
      ensures all[k] == es[k]
      ensures LeftOf(p, all, key, k, now) == LeftOf(p, es, key, k, e.at) + Gain(p, now - e.at) - one
    {
      LeftOneMore(p, es, e, key, k, now);
      LeftLater(p, es, key, k, e.at, now);
    }
    assert forall k: nat :: CallAt(all, key, k) ==> k == n || CallAt(es, key, k);
    assert CallAt(all, key, n);
    hide LeftOf, Available, Gain, Run;
    if had != p.burst {
      var k: nat :| CallAt(es, key, k) && had == LeftOf(p, es, key, k, e.at);
      assert CallAt(all, key, k);
    }
  }

  lemma {:induction false} TightestOther(p: Params, es: seq<Event>, e: Event, key: Key, now: real)
    requires p.Valid() && InRange(p, Run(p, map[], es)) && !(e.Call? && e.key == key) && e.at <= now
    requires Tightest(p, es, key, now)
    ensures Tightest(p, es + [e], key, now)
  {
    var m, all := Run(p, map[], es), es + [e];
    RunSnoc(p, map[], es, e);
    OtherCallSame(p, m, e, key, now);
    forall k: nat | CallAt(es, key, k)
      ensures LeftOf(p, all, key, k, now) == LeftOf(p, es, key, k, now)
    {
      LeftOneMore(p, es, e, key, k, now);
    }
    assert forall k: nat :: CallAt(all, key, k) <==> CallAt(es, key, k);
    hide LeftOf, Available, Gain, Run;
    if k: nat :| CallAt(es, key, k) && Available(p, m, key, now) == LeftOf(p, es, key, k, now) {
      assert CallAt(all, key, k);
    }
  }

  lemma {:induction false} AlwaysTightest(p: Params, es: seq<Event>, key: Key, now: real)
    requires p.Valid() && InOrderUntil(es, now)
    ensures Tightest(p, es, key, now)
    decreases |es|
  {
    if es == [] {
      TightestStart(p, key, now);
    } else {
      var before, e := es[..|es| - 1], es[|es| - 1];
      assert es == before + [e];
      EmptyInRange(p);
      TokensStayInRange(p, map[], before);
      hide Tightest, Run;
      if e.Call? && e.key == key {
        AlwaysTightest(p, before, key, e.at);
        TightestCall(p, before, e, key, now);
      } else {
        AlwaysTightest(p, before, key, now);
        TightestOther(p, before, e, key, now);
      }
    }
  }

  /** One more call fits into the window from the `k`-th event to now: into the burst and the refill of that time. */
  predicate Fits(p: Params, es: seq<Event>, key: Key, k: nat, now: real)
    requires k < |es|
  {
    AllowedSince(p, es, key, k) as real + 1.0 <= p.burst + p.refill * (now - es[k].at)
  }

  lemma {:induction false} FitsIfLeft(p: Params, es: seq<Event>, key: Key, k: nat, now: real)
    requires k < |es|
    ensures Fits(p, es, key, k, now) <==> LeftOf(p, es, key, k, now) >= 1.0
  {
    GainIsRate(p, now - es[k].at);
    hide Gain;
  }

  /** With times in order, a call is allowed exactly if it fits into every window that starts at an earlier call of its
      key and ends with it. So nothing is refused that the rate allows. */
  lemma {:induction false} AllowedExactlyIf(p: Params, es: seq<Event>, key: Key, now: real)
    requires p.Valid() && InOrderUntil(es, now)
    ensures Answer(p, Run(p, map[], es), key, now) <==> forall k: nat :: CallAt(es, key, k) ==> Fits(p, es, key, k, now)
  {
    AlwaysTightest(p, es, key, now);
    forall k: nat | CallAt(es, key, k) ensures Fits(p, es, key, k, now) <==> LeftOf(p, es, key, k, now) >= 1.0 {
      FitsIfLeft(p, es, key, k, now);
    }
    hide LeftOf, Available, Run, Gain, Fits;
  }

  // ---- the janitor -------------------------------------------------------------------------------

  /** A sweep forgets exactly the buckets idle for the whole hour that would be full by now. */
  lemma {:induction false} SweepForgets(p: Params, m: Buckets, now: real, key: Key)
    requires key in m
    ensures key in AfterSweep(p, m, now) <==>
              now - m[key].last < p.ttl || m[key].tokens + p.refill * (now - m[key].last) < p.burst
    ensures key in AfterSweep(p, m, now) ==> AfterSweep(p, m, now)[key] == m[key]
  {
    GainIsRate(p, now - m[key].last);
    hide Gain;
  }

  /** So with a rate the table empties: a sweep after an hour of rest that refills a whole bucket leaves nothing. */
  lemma {:induction false} TableEmpties(p: Params, es: seq<Event>, last: real, now: real)
    requires p.Valid() && InOrderUntil(es, last) && now - last >= p.ttl && p.refill * (now - last) >= p.burst
    ensures Run(p, map[], es + [Janitor(now)]) == map[]
  {
    RunSnoc(p, map[], es, Janitor(now));
    EmptyInRange(p);
    TokensStayInRange(p, map[], es);
    LastBounded(p, es, last);
    var m := Run(p, map[], es);
    forall key | key in m ensures key !in AfterSweep(p, m, now) { RestedIsSwept(p, m, key, last, now); }
    hide Run, Gain, Swept;
  }

  lemma {:induction false} RestedIsSwept(p: Params, m: Buckets, key: Key, last: real, now: real)
    requires p.Valid() && key in m && m[key].last <= last && m[key].tokens >= 0.0
    requires now - last >= p.ttl && p.refill * (now - last) >= p.burst
    ensures key !in AfterSweep(p, m, now)
  {
    SweepForgets(p, m, now, key);
    GainMonotone(p, now - last, now - m[key].last);
    GainIsRate(p, now - last);
    GainIsRate(p, now - m[key].last);
    hide Gain, AfterSweep;
  }

  lemma {:induction false} LastBounded(p: Params, es: seq<Event>, last: real)
    requires InOrderUntil(es, last)
    ensures forall key :: key in Run(p, map[], es) ==> Run(p, map[], es)[key].last <= last
    decreases |es|
  {
    if es != [] {
      var before, e := es[..|es| - 1], es[|es| - 1];
      assert es == before + [e];
      RunSnoc(p, map[], before, e);
      LastBounded(p, before, last);
      hide Run, Available;
    }
  }
}
