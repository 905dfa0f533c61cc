/** When removing old rows can and cannot be noticed by the next refresh. */
module SessionCleanup {
  import opened Prelude
  import opened SessionModel
  import opened SessionSafety
  import opened SessionProperties

  /** Every session was refreshed no earlier than created, and none after `clock`. */
  ghost predicate Dated(s: State, clock: Time) {
    forall x :: x in s.sessions ==>
      (s.sessions[x].refreshedAt.Some? && s.sessions[x].createdAt <= s.sessions[x].refreshedAt.value <= clock)
  }

  /** And no token was used later than its session says. */
  ghost predicate Touched(s: State, clock: Time) {
    && Dated(s, clock)
    && (forall t :: t in s.tokens && s.tokens[t].session in s.sessions ==>
          s.tokens[t].updatedAt <= s.sessions[s.tokens[t].session].refreshedAt.value)
  }

  predicate WithoutVerification(es: seq<Event>) {
    forall i :: 0 <= i < |es| ==> !es[i].step.DoVerify?
  }

  /** Every session and token of `s'` is one of `s`, last used at the same time. */
  ghost predicate NoNewUse(s: State, s': State) {
    && (forall x :: x in s'.sessions ==>
          (x in s.sessions && s'.sessions[x].createdAt == s.sessions[x].createdAt
              && s'.sessions[x].refreshedAt == s.sessions[x].refreshedAt))
    && (forall t :: t in s'.tokens ==> t in s.tokens && s'.tokens[t] == s.tokens[t])
  }

  lemma {:induction false} NoNewUseTouches(s: State, s': State, clock: Time, now: Time)
    requires Touched(s, clock) && clock <= now && NoNewUse(s, s')
    ensures Touched(s', now)
  {}

  lemma {:induction false} RotateTouches(s: State, t: nat, clock: Time, now: Time)
    requires Touched(s, clock) && clock <= now && t in s.tokens && s.tokens[t].session in s.sessions
    ensures Touched(Rotate(s, t, now), now)
  {}

  lemma {:induction false} SignInTouches(s: State, user: int, how: string, oauth: bool, notAfter: Option<Time>,
      clock: Time, now: Time)
    requires Touched(s, clock) && clock <= now && (forall t :: t in s.tokens ==> s.tokens[t].session in s.sessions)
        && s.nextSession !in s.sessions
    ensures Touched(SignIn(s, user, how, oauth, notAfter, now).0, now)
  {}

  lemma {:induction false} RefreshTouches(cfg: Config, s: State, t: nat, clock: Time, now: Time)
    requires Safe(s) && Touched(s, clock) && clock <= now
    ensures Touched(Refresh(cfg, s, t, now).0, now)
  {
    hide Expired, RevokedByNewerLogin, Active, UserError, Rotate, RevokeFamily, Touched;
    NoNewUseTouches(s, s, clock, now);
    if t in s.tokens {
      LiveSessions(s);
      var x := s.tokens[t].session;
      RevokeFamilyThenDelete(s, x, now);
      NoNewUseTouches(s, DeleteSessions(s, {x}), clock, now);
      RotateTouches(s, t, clock, now);
    }
  }

  lemma {:induction false} StepTouches(cfg: Config, s: State, e: Event, clock: Time)
    requires Safe(s) && Touched(s, clock) && clock <= e.at && !e.step.DoVerify?
    ensures Touched(Apply(cfg, s, e).0, e.at)
  {
    hide Refresh, SignIn, UserError, Safe, Enroll, Touched, DowngradeAndDelete, DeleteSessions, Cleanup, RemoveUser,
        DropUnverified;
    match e.step
    case DoSignIn(user, how, oauth, notAfter) =>
        LiveSessions(s); SignInTouches(s, user, how, oauth, notAfter, clock, e.at);
    case DoRefresh(t) => RefreshTouches(cfg, s, t, clock, e.at);
    case DoEnroll(user, x, name, kind) =>
      EnrollKeepsRows(cfg, s, e);
      NoNewUseTouches(s, Apply(cfg, s, e).0, clock, e.at);
    case _ =>
      OtherStepsUseNothing(cfg, s, e);
      NoNewUseTouches(s, Apply(cfg, s, e).0, clock, e.at);
  }

  lemma {:induction false} OtherStepsUseNothing(cfg: Config, s: State, e: Event)
    requires !e.step.DoSignIn? && !e.step.DoRefresh? && !e.step.DoVerify? && !e.step.DoEnroll?
    ensures NoNewUse(s, Apply(cfg, s, e).0)
  {
    hide ComputesAAL2, DowngradeAndDelete, RemoveUser;
    match e.step
    case DoUnenroll(user, x, f) => if f in s.factors { DowngradeUsesNothing(s, f); }
    case DoAdminDelete(f) => if f in s.factors { DowngradeUsesNothing(s, f); }
    case DoRemoveUser(user, soft) => RemovalUsesNothing(s, user, soft);
    case _ =>
  }

  lemma {:induction false} DowngradeUsesNothing(s: State, f: nat)
    requires f in s.factors
    ensures NoNewUse(s, DowngradeAndDelete(s, f))
  {}

  lemma {:induction false} RemovalUsesNothing(s: State, user: int, soft: bool)
    ensures NoNewUse(s, RemoveUser(s, user, soft))
  {}

  lemma {:induction false} EnrollKeepsRows(cfg: Config, s: State, e: Event)
    requires e.step.DoEnroll?
    ensures Apply(cfg, s, e).0.sessions == s.sessions && Apply(cfg, s, e).0.tokens == s.tokens
  {}

  lemma {:induction false} RunTouches(cfg: Config, es: seq<Event>, clock: Time)
    requires Ordered(es) && WithoutVerification(es) && (es != [] ==> es[|es| - 1].at <= clock)
    ensures Touched(Run(cfg, EMPTY, es), clock)
  {
    hide Apply;
    if es != [] {
      var before, e := es[..|es| - 1], es[|es| - 1];
      RunTouches(cfg, before, e.at);
      RunKeeps(cfg, EMPTY, before);
      StepTouches(cfg, Run(cfg, EMPTY, before), e, e.at);
    }
  }

  lemma {:induction false} VerifyDates(s: State, x: nat, f: nat, valid: bool, clock: Time, now: Time)
    requires Dated(s, clock) && clock <= now
    ensures Dated(Verify(s, x, f, valid, now).0, now)
  {
    hide Active;
  }

  lemma {:induction false} RefreshDates(cfg: Config, s: State, t: nat, clock: Time, now: Time)
    requires Dated(s, clock) && clock <= now
    ensures Dated(Refresh(cfg, s, t, now).0, now)
  {
    hide Expired, RevokedByNewerLogin, Active, UserError;
  }

  lemma {:induction false} StepDates(cfg: Config, s: State, e: Event, clock: Time)
    requires Dated(s, clock) && clock <= e.at
    ensures Dated(Apply(cfg, s, e).0, e.at)
  {
    hide Refresh, Verify, UserError, Enroll, DowngradeAndDelete, DeleteSessions, Cleanup, RemoveUser, DropUnverified;
    match e.step
    case DoSignIn(_, _, _, _) =>
    case DoRefresh(t) => RefreshDates(cfg, s, t, clock, e.at);
    case DoVerify(x, f, valid) => VerifyDates(s, x, f, valid, clock, e.at);
    case DoEnroll(_, _, _, _) => EnrollKeepsRows(cfg, s, e);
    case _ => OtherStepsUseNothing(cfg, s, e);
  }

  /** In every ordered run, verifications included. */
  lemma {:induction false} RunDates(cfg: Config, es: seq<Event>, clock: Time)
    requires Ordered(es) && (es != [] ==> es[|es| - 1].at <= clock)
    ensures Dated(Run(cfg, EMPTY, es), clock)
  {
    hide Apply;
    if es != [] {
      var before, e := es[..|es| - 1], es[|es| - 1];
      RunDates(cfg, before, e.at);
      StepDates(cfg, Run(cfg, EMPTY, before), e, e.at);
    }
  }

  /** An overdue session is past its limits, but for the last use its token alone remembers. */
  lemma {:induction false} OverdueIsExpired(cfg: Config, s: State, x: nat, t: nat, clock: Time, now: Time)
    requires Dated(s, clock) && x in s.sessions && t in s.tokens && s.tokens[t].session == x
    requires SessionOverdue(cfg, s.sessions[x], clock) && clock <= now
    ensures Expired(cfg, s.sessions[x], s.tokens[t], now) <==> !OnlyTokenFresh(cfg, s, t, now)
    ensures !StillValid(cfg, s.sessions[x], now)
  {}

  /** The session is within its absolute limits, and within the inactivity limit as counted from the token's last
      use. */
  predicate OnlyTokenFresh(cfg: Config, s: State, t: nat, now: Time)
    requires t in s.tokens && s.tokens[t].session in s.sessions
  {
    var x := s.sessions[s.tokens[t].session];
    && !(x.notAfter.Some? && now >= x.notAfter.value)
    && !(cfg.timebox > 0 && now > x.createdAt + cfg.timebox)
    && now <= s.tokens[t].updatedAt + cfg.inactivity
  }

  /** The refresh a removed session still owed: its own checks would have let it through. */
  ghost predicate StillOwed(cfg: Config, s: State, t: nat, now: Time)
    requires t in s.tokens && s.tokens[t].session in s.sessions
  {
    var rt := s.tokens[t];
    var x := s.sessions[rt.session];
    && !x.oauth && !RevokedByNewerLogin(cfg, s, rt.session, rt, now)
    && OnlyTokenFresh(cfg, s, t, now) && UserError(s, x.user, now).None?
    && (rt.revoked ==> InsideWindow(cfg, rt, now))
  }

  lemma {:induction false} SameRivals(cfg: Config, s: State, tokens: set<nat>, sessions: set<nat>, x: nat, rt: Token,
      clock: Time,
      now: Time)
    requires Dated(s, clock) && CleanupMay(cfg, s, tokens, sessions, clock) && clock <= now
    requires x in s.sessions && x !in sessions
    ensures RevokedByNewerLogin(cfg, Cleanup(s, tokens, sessions), x, rt, now) <==>
        RevokedByNewerLogin(cfg, s, x, rt, now)
  {
    var s' := Cleanup(s, tokens, sessions);
    forall o | o in sessions ensures !StillValid(cfg, s.sessions[o], now) {}
    assert forall o :: o in s'.sessions ==> o in s.sessions && s'.sessions[o] == s.sessions[o];
    assert forall o :: o in s.sessions && o !in sessions ==> o in s'.sessions;
  }

  lemma {:induction false} SameActive(cfg: Config, s: State, tokens: set<nat>, sessions: set<nat>, x: nat, clock: Time)
    requires Safe(s) && CleanupMay(cfg, s, tokens, sessions, clock) && x in s.sessions && x !in sessions
    ensures Active(s.tokens, x).Some? && Active(Cleanup(s, tokens, sessions).tokens, x) == Active(s.tokens, x)
  {
    assert HasOnly(s.tokens, x);
    var u :| OnlyToken(s.tokens, x, u);
    ActiveIsOnly(s.tokens, x, u);
    ActiveIsOnly(Cleanup(s, tokens, sessions).tokens, x, u);
  }

  /** The next refresh of `t` succeeds or fails as it would have, with the same token. */
  ghost predicate Unnoticed(cfg: Config, s: State, tokens: set<nat>, sessions: set<nat>, t: nat, now: Time) {
    var before, after := Refresh(cfg, s, t, now).1, Refresh(cfg, Cleanup(s, tokens, sessions), t, now).1;
    before.Granted? || after.Granted? ==> before == after
  }

  /** Exactly when removing rows that passes 1 to 3 select is noticed by the next refresh of a token: its session was
      among them for its inactivity, while the token's own last use still kept it, and nothing else stood in the
      way of the refresh. */
  lemma {:induction false} NoticedExactlyIf(
      cfg: Config, s: State, tokens: set<nat>, sessions: set<nat>, clock: Time, t: nat, now: Time)
    requires Safe(s) && Dated(s, clock) && clock <= now && cfg.reuseInterval <= RETENTION
    requires CleanupMay(cfg, s, tokens, sessions, clock)
    ensures Unnoticed(cfg, s, tokens, sessions, t, now) <==>
            !(t in s.tokens && s.tokens[t].session in sessions && StillOwed(cfg, s, t, now))
  {
    if t in s.tokens {
      LiveSessions(s);
      var sid := s.tokens[t].session;
      if sid in sessions {
        OverdueIsExpired(cfg, s, sid, t, clock, now);
        WhenGranted(cfg, s, t, now);
        hide Refresh, StillOwed, OnlyTokenFresh, Expired, RevokedByNewerLogin;
        assert t !in Cleanup(s, tokens, sessions).tokens;
        UnknownToken(cfg, Cleanup(s, tokens, sessions), t, now);
      } else if t in tokens {
        ReplayInsideWindow(cfg, s, t, now);
      } else {
        SameRivals(cfg, s, tokens, sessions, sid, s.tokens[t], clock, now);
        SameActive(cfg, s, tokens, sessions, sid, clock);
        SameDecision(cfg, s, Cleanup(s, tokens, sessions), t, now);
      }
    }
  }

  /** When a refresh of a known token succeeds. */
  lemma {:induction false} WhenGranted(cfg: Config, s: State, t: nat, now: Time)
    requires Safe(s) && t in s.tokens
    ensures var rt := s.tokens[t];
            && rt.session in s.sessions
            && (Refresh(cfg, s, t, now).1.Granted? <==>
                  && !s.sessions[rt.session].oauth && !RevokedByNewerLogin(cfg, s, rt.session, rt, now)
                  && !Expired(cfg, s.sessions[rt.session], rt, now)
                  && UserError(s, s.sessions[rt.session].user, now).None?
                  && (rt.revoked ==> InsideWindow(cfg, rt, now)))
  {
    LiveSessions(s);
    if s.tokens[t].revoked { ReplayInsideWindow(cfg, s, t, now); }
    hide Expired, RevokedByNewerLogin, Rotate, DeleteSessions, Safe;
  }

  /** The same over every ordered run, verifications included. */
  lemma {:induction false} RunNoticedExactlyIf(
      cfg: Config, es: seq<Event>, tokens: set<nat>, sessions: set<nat>, clock: Time, t: nat, now: Time)
    requires Ordered(es) && (es != [] ==> es[|es| - 1].at <= clock) && clock <= now
    requires cfg.reuseInterval <= RETENTION
    requires CleanupMay(cfg, Run(cfg, EMPTY, es), tokens, sessions, clock)
    ensures var s := Run(cfg, EMPTY, es);
            Unnoticed(cfg, s, tokens, sessions, t, now) <==>
            !(t in s.tokens && s.tokens[t].session in sessions && s.tokens[t].session in s.sessions
              && StillOwed(cfg, s, t, now))
  {
    RunDates(cfg, es, clock);
    RunKeeps(cfg, EMPTY, es);
    hide Run, Unnoticed, StillOwed;
    NoticedExactlyIf(cfg, Run(cfg, EMPTY, es), tokens, sessions, clock, t, now);
  }

  /** So without a verification it never is: the session's own last use is then the token's too. */
  lemma {:induction false} CleanupInvisible(
      cfg: Config, es: seq<Event>, tokens: set<nat>, sessions: set<nat>, clock: Time, t: nat, now: Time)
    requires Ordered(es) && WithoutVerification(es) && (es != [] ==> es[|es| - 1].at <= clock) && clock <= now
    requires cfg.reuseInterval <= RETENTION
    requires CleanupMay(cfg, Run(cfg, EMPTY, es), tokens, sessions, clock)
    ensures Unnoticed(cfg, Run(cfg, EMPTY, es), tokens, sessions, t, now)
  {
    var s := Run(cfg, EMPTY, es);
    RunTouches(cfg, es, clock);
    RunNoticedExactlyIf(cfg, es, tokens, sessions, clock, t, now);
    hide Run, Unnoticed;
  }

  /** A refresh reads no more of the tables than this. */
  lemma {:induction false} SameDecision(cfg: Config, s: State, s': State, t: nat, now: Time)
    requires t in s.tokens && t in s'.tokens && s'.tokens[t] == s.tokens[t]
    requires var x := s.tokens[t].session;
             && x in s.sessions && x in s'.sessions && s'.sessions[x] == s.sessions[x]
             && (RevokedByNewerLogin(cfg, s', x, s.tokens[t], now) <==>
               RevokedByNewerLogin(cfg, s, x, s.tokens[t], now))
             && Active(s'.tokens, x) == Active(s.tokens, x)
    requires s'.users == s.users && s'.nextToken == s.nextToken
    ensures Refresh(cfg, s', t, now).1 == Refresh(cfg, s, t, now).1
  {
    hide Expired, RevokedByNewerLogin, Active, DeleteSessions, RevokeFamily, Rotate;
  }

  /** The limit of the claim above: a verification renews the token without touching the session, so a session
      that verified at 100 after an inactive stretch is removed at 100, under an inactivity limit of 60, though
      its token could have been refreshed. */
  lemma {:induction false} CleanupVisibleAfterVerification()
    ensures exists cfg: Config, es, x, t ::
              && Ordered(es) && cfg.reuseInterval <= RETENTION
              && CleanupMay(cfg, Run(cfg, EMPTY, es), {}, {x}, 100)
              && Refresh(cfg, Run(cfg, EMPTY, es), t, 100).1.Granted?
              && Refresh(cfg, Cleanup(Run(cfg, EMPTY, es), {}, {x}), t, 100).1 == Refused(TokenNotFound)
  {
    hide Apply, Verify, Refresh, CleanupMay, Cleanup;
    var cfg := Config(0, true, false, 0, 60, 300, 0, 10);
    var es := Enrolled();
    RunKeeps(cfg, EMPTY, es);
    EnrolledState(cfg);
    var s := Run(cfg, EMPTY, es);
    var verify := Event(100, DoVerify(0, 0, true));
    RunSnoc(cfg, es, verify);
    VerifiedThenIdle(cfg, s, Verify(s, 0, 0, true, 100).0);
    ApplyVerify(cfg, s);
    var all := es + [verify];
    assert Ordered(all);
    assert CleanupMay(cfg, Run(cfg, EMPTY, all), {}, {0}, 100);
  }

  function Enrolled(): seq<Event> {
    [Event(0, DoCreateUser(7)), Event(0, DoSignIn(7, "password", false, None)), Event(0, DoEnroll(7, 0, "app", Totp))]
  }

  lemma {:induction false} RunSnoc(cfg: Config, es: seq<Event>, e: Event)
    ensures Run(cfg, EMPTY, es + [e]) == Apply(cfg, Run(cfg, EMPTY, es), e).0
  {
    assert (es + [e])[..|es|] == es;
  }

  lemma {:induction false} ApplyVerify(cfg: Config, s: State)
    ensures Apply(cfg, s, Event(100, DoVerify(0, 0, true))).0 == Verify(s, 0, 0, true, 100).0
  {}

  lemma {:induction false} EnrolledState(cfg: Config)
    requires cfg == Config(0, true, false, 0, 60, 300, 0, 10)
    ensures var s := Run(cfg, EMPTY, Enrolled());
            && 0 in s.sessions && s.sessions[0] == Session(7, 0, Some(0), None, false, false, None) && s.nextToken == 1
            && 0 in s.factors && s.factors[0].user == 7 && 7 in s.users && s.users[7] == User(false, None)
  {
    var es := Enrolled();
    RunSnoc(cfg, [], es[0]);
    RunSnoc(cfg, [es[0]], es[1]);
    assert [es[0]] + [es[1]] == [es[0], es[1]] && [] + [es[0]] == [es[0]];
    RunSnoc(cfg, [es[0], es[1]], es[2]);
    assert [es[0], es[1]] + [es[2]] == es;
    var s2 := Run(cfg, EMPTY, [es[0], es[1]]);
    assert s2.factors == map[] && s2.nextFactor == 0;
    assert FactorsOf(CollectFactors(cfg, s2, 0).factors, 7) == {}
        && VerifiedOf(CollectFactors(cfg, s2, 0).factors, 7) == {};
  }

  lemma {:induction false} VerifiedThenIdle(cfg: Config, s: State, s': State)
    requires cfg == Config(0, true, false, 0, 60, 300, 0, 10)
    requires Safe(s) && 0 in s.sessions && s.sessions[0] == Session(7, 0, Some(0), None, false, false, None)
        && s.nextToken == 1
    requires 0 in s.factors && s.factors[0].user == 7 && 7 in s.users && s.users[7] == User(false, None)
    requires s' == Verify(s, 0, 0, true, 100).0
    ensures CleanupMay(cfg, s', {}, {0}, 100)
    ensures Refresh(cfg, s', 1, 100).1.Granted?
    ensures Refresh(cfg, Cleanup(s', {}, {0}), 1, 100).1 == Refused(TokenNotFound)
  {
    hide Active, Verify;
    VerifyGranted(s);
    VerificationLeavesOnlyAAL2(s, 0, 0, 100);
    VerifiedRow(s, 0, 0, 100);
  }

  lemma {:induction false} VerifyGranted(s: State)
    requires 0 in s.sessions && 0 in s.factors && s.factors[0].user == s.sessions[0].user
    ensures Verify(s, 0, 0, true, 100).1.Granted?
  {}

  lemma {:induction false} VerifiedRow(s: State, x: nat, f: nat, now: Time)
    requires Safe(s) && Verify(s, x, f, true, now).1.Granted?
    ensures var s' := Verify(s, x, f, true, now).0;
            x in s'.sessions && s'.sessions[x] == s.sessions[x].(aal2 := true, factor := Some(f)) && s'.users == s.users
            && (s.nextToken in s'.tokens ==> s'.tokens[s.nextToken].updatedAt == now)
  {
    var s1 := Upgrade(s, x, f);
    SwapTouchesTokens(s1, x, s.sessions[x].user, now);
    assert SwapToken(s1, x, s.sessions[x].user, now).tokens[s.nextToken].updatedAt == now;
    assert forall t :: t in Verify(s, x, f, true, now).0.tokens ==>
      Verify(s, x, f, true, now).0.tokens[t] == SwapToken(s1, x, s.sessions[x].user, now).tokens[t];
  }

  /** The other limit: over longer runs a removed token matters too. With its row a replay ends the session, unless
      that is an OAuth application's or outranked by a newer login; without it the replay is merely unknown. So the
      replay leaves the session as it would have exactly in those two cases. */
  lemma {:induction false} CleanupForgetsReuse(cfg: Config, s: State, t: nat, clock: Time, now: Time)
    requires Safe(s) && t in s.tokens && TokenOverdue(s, t, clock) && clock <= now && cfg.reuseInterval <= RETENTION
    ensures CleanupMay(cfg, s, {t}, {}, clock)
    ensures var s' := Cleanup(s, {t}, {});
            Refresh(cfg, s', t, now) == (s', Refused(TokenNotFound)) && s.tokens[t].session in s'.sessions
    ensures var x := s.tokens[t].session;
            (x in Refresh(cfg, s, t, now).0.sessions <==> x in Refresh(cfg, Cleanup(s, {t}, {}), t, now).0.sessions)
            <==> (s.sessions[x].oauth || RevokedByNewerLogin(cfg, s, x, s.tokens[t], now))
  {
    LiveSessions(s);
    ReplayInsideWindow(cfg, s, t, now);
    var x := s.tokens[t].session;
    if !s.sessions[x].oauth && !RevokedByNewerLogin(cfg, s, x, s.tokens[t], now) {
      ReuseDeletes(cfg, s, t, now);
    }
  }
}
