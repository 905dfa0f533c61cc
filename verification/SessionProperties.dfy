/** What a caller may rely on over any run of sign-ins, refreshes, factor changes and cleanups. */
module SessionProperties {
  import opened Prelude
  import opened SessionModel
  import opened SessionSafety

  // ---- ids are never issued twice --------------------------------------------------------

  ghost predicate Follows(s: State, s': State) {
    && s.nextSession <= s'.nextSession && s.nextToken <= s'.nextToken
    && (forall x :: x in s'.sessions ==> x in s.sessions || x >= s.nextSession)
    && (forall t :: t in s'.tokens ==> t in s.tokens || t >= s.nextToken)
  }

  lemma {:induction false} StepFollows(cfg: Config, s: State, e: Event)
    ensures Follows(s, Apply(cfg, s, e).0)
  {
    hide UserError, DowngradeAndDelete, Refresh, Verify, Enroll, RemoveUser;
    match e.step
    case DoRefresh(t) => RefreshFollows(cfg, s, t, e.at);
    case DoVerify(x, f, valid) => VerifyFollows(s, x, f, valid, e.at);
    case DoUnenroll(user, x, f) => if f in s.factors { DowngradeFollows(s, f); }
    case DoAdminDelete(f) => if f in s.factors { DowngradeFollows(s, f); }
    case DoEnroll(user, x, name, kind) => EnrollFollows(cfg, s, e);
    case DoRemoveUser(user, soft) => RemoveUserFollows(s, user, soft);
    case _ =>
  }

  lemma {:induction false} RefreshFollows(cfg: Config, s: State, t: nat, now: Time)
    ensures Follows(s, Refresh(cfg, s, t, now).0)
  {
    hide Expired, RevokedByNewerLogin, Active, UserError;
  }

  lemma {:induction false} VerifyFollows(s: State, x: nat, f: nat, valid: bool, now: Time)
    ensures Follows(s, Verify(s, x, f, valid, now).0)
  {
    hide Active;
  }

  lemma {:induction false} DowngradeFollows(s: State, f: nat)
    requires f in s.factors
    ensures Follows(s, DowngradeAndDelete(s, f)) && DowngradeAndDelete(s, f).tokens == s.tokens
  {}

  lemma {:induction false} EnrollFollows(cfg: Config, s: State, e: Event)
    requires e.step.DoEnroll?
    ensures Follows(s, Apply(cfg, s, e).0)
  {}

  lemma {:induction false} RemoveUserFollows(s: State, user: int, soft: bool)
    ensures Follows(s, RemoveUser(s, user, soft))
  {}

  lemma {:induction false} RunFollows(cfg: Config, s: State, es: seq<Event>)
    ensures Follows(s, Run(cfg, s, es))
  {
    hide Apply;
    if es != [] {
      RunFollows(cfg, s, es[..|es| - 1]);
      StepFollows(cfg, Run(cfg, s, es[..|es| - 1]), es[|es| - 1]);
    }
  }

  // ---- refresh tokens ------------------------------------------------------------------------

  /** A replay succeeds exactly inside the interval, for a session and a user still in good standing; it then
      answers the session's one live token and changes nothing. */
  lemma {:induction false} ReplayInsideWindow(cfg: Config, s: State, t: nat, now: Time)
    requires Safe(s) && t in s.tokens && s.tokens[t].revoked
    ensures var rt := s.tokens[t];
            var x := s.sessions[rt.session];
            var (s', answer) := Refresh(cfg, s, t, now);
            && (answer.Granted? <==>
                  && InsideWindow(cfg, rt, now) && !x.oauth && !RevokedByNewerLogin(cfg, s, rt.session, rt, now)
                  && !Expired(cfg, x, rt, now) && UserError(s, x.user, now).None?)
            && (answer.Granted? ==> s' == s && OnlyToken(s.tokens, rt.session, answer.token))
            && (answer == Refused(AlreadyUsed) <==>
                  !InsideWindow(cfg, rt, now) && !x.oauth && !RevokedByNewerLogin(cfg, s, rt.session, rt, now))
  {
    hide Expired, RevokedByNewerLogin, DeleteSessions, RevokeFamily, OnlyToken;
    var sid := s.tokens[t].session;
    assert HasOnly(s.tokens, sid);
    var u :| OnlyToken(s.tokens, sid, u);
    ActiveIsOnly(s.tokens, sid, u);
  }

  /** Once reuse is detected the session is gone for good: in no later state does it or any token of it exist,
      and every token it ever had is refused. */
  lemma {:induction false} ReuseIsFinal(cfg: Config, s: State, t: nat, now: Time, es: seq<Event>, u: nat, later: Time)
    requires Safe(s) && t in s.tokens && Refresh(cfg, s, t, now).1 == Refused(AlreadyUsed)
    requires u in s.tokens && s.tokens[u].session == s.tokens[t].session
    ensures var s' := Run(cfg, Refresh(cfg, s, t, now).0, es);
            && s.tokens[t].session !in s'.sessions
            && (forall v :: v in s'.tokens ==> s'.tokens[v].session != s.tokens[t].session)
            && Refresh(cfg, s', u, later) == (s', Refused(TokenNotFound))
  {
    hide Refresh, Run, TokensSound, LevelsSound;
    var s1 := Refresh(cfg, s, t, now).0;
    LiveSessions(s);
    ReuseDeletes(cfg, s, t, now);
    RefreshKeeps(cfg, s, t, now);
    RunFollows(cfg, s1, es);
    RunKeeps(cfg, s1, es);
    var s2 := Run(cfg, s1, es);
    assert forall v :: v in s2.tokens ==> s2.tokens[v].session in s2.sessions by { LiveSessions(s2); }
    UnknownToken(cfg, s2, u, later);
  }

  lemma {:induction false} LiveSessions(s: State)
    requires Safe(s)
    ensures s.nextSession !in s.sessions
    ensures forall v :: v in s.tokens ==> v < s.nextToken && s.tokens[v].session in s.sessions
  {}

  lemma {:induction false} ReuseDeletes(cfg: Config, s: State, t: nat, now: Time)
    requires t in s.tokens && Refresh(cfg, s, t, now).1 == Refused(AlreadyUsed)
    ensures var s' := Refresh(cfg, s, t, now).0;
            && s.tokens[t].session !in s'.sessions && s'.nextSession == s.nextSession && s'.nextToken == s.nextToken
            && forall u :: u in s'.tokens ==> u in s.tokens && s.tokens[u].session != s.tokens[t].session
  {
    hide Expired, RevokedByNewerLogin, Active, Rotate;
    RevokeFamilyThenDelete(s, s.tokens[t].session, now);
  }

  lemma {:induction false} UnknownToken(cfg: Config, s: State, u: nat, now: Time)
    requires u !in s.tokens
    ensures Refresh(cfg, s, u, now) == (s, Refused(TokenNotFound))
  {}

  /** A successful refresh of a live token spends it and leaves its child as the session's one live token. */
  lemma {:induction false} RotationHandsOver(cfg: Config, s: State, t: nat, now: Time)
    requires Safe(s) && t in s.tokens && !s.tokens[t].revoked && Refresh(cfg, s, t, now).1.Granted?
    ensures var (s', answer) := Refresh(cfg, s, t, now);
            && answer == Granted(s.nextToken)
            && OnlyToken(s'.tokens, s.tokens[t].session, answer.token)
            && s'.tokens[answer.token].parent == Some(t)
            && s'.tokens[t] == s.tokens[t].(revoked := true, updatedAt := now)
            && (forall v :: v in s.tokens && v != t ==> v in s'.tokens && s'.tokens[v] == s.tokens[v])
  {
    hide Expired, RevokedByNewerLogin, DeleteSessions, OnlyToken;
    RotateKeeps(s, t, now);
  }

  predicate Ordered(es: seq<Event>) {
    forall i, j :: 0 <= i <= j < |es| ==> es[i].at <= es[j].at
  }

  /** Tokens were created in the order of their ids, and none after `clock`. */
  ghost predicate IssuedInOrder(tokens: Tokens, clock: Time) {
    && (forall t :: t in tokens ==> tokens[t].createdAt <= clock)
    && (forall t, u :: t in tokens && u in tokens && t <= u ==> tokens[t].createdAt <= tokens[u].createdAt)
  }

  ghost predicate OldOrFresh(s: State, s': State, now: Time) {
    forall t :: t in s'.tokens ==>
      if t in s.tokens then s'.tokens[t].createdAt == s.tokens[t].createdAt
      else t >= s.nextToken && s'.tokens[t].createdAt == now
  }

  lemma {:induction false} StepStamps(cfg: Config, s: State, e: Event)
    requires forall t :: t in s.tokens ==> t < s.nextToken
    ensures OldOrFresh(s, Apply(cfg, s, e).0, e.at)
  {
    hide UserError, DowngradeAndDelete, Refresh, Verify, Enroll;
    match e.step
    case DoRefresh(t) => RefreshStamps(cfg, s, t, e.at);
    case DoVerify(x, f, valid) => VerifyStamps(s, x, f, valid, e.at);
    case DoUnenroll(user, x, f) => if f in s.factors { DowngradeFollows(s, f); }
    case DoAdminDelete(f) => if f in s.factors { DowngradeFollows(s, f); }
    case DoEnroll(user, x, name, kind) => EnrollKeepsClaims(cfg, s, e);
    case _ =>
  }

  lemma {:induction false} RefreshStamps(cfg: Config, s: State, t: nat, now: Time)
    requires forall u :: u in s.tokens ==> u < s.nextToken
    ensures OldOrFresh(s, Refresh(cfg, s, t, now).0, now)
  {
    hide Expired, RevokedByNewerLogin, Active, UserError;
  }

  lemma {:induction false} VerifyStamps(s: State, x: nat, f: nat, valid: bool, now: Time)
    requires forall u :: u in s.tokens ==> u < s.nextToken
    ensures OldOrFresh(s, Verify(s, x, f, valid, now).0, now)
  {
    hide Active;
  }

  /** Under a clock that never goes back, the newest id is also the newest by creation time. */
  lemma {:induction false} TokensIssuedInOrder(cfg: Config, es: seq<Event>, clock: Time)
    requires Ordered(es) && (es != [] ==> es[|es| - 1].at <= clock)
    ensures IssuedInOrder(Run(cfg, EMPTY, es).tokens, clock)
  {
    hide Apply;
    if es != [] {
      var before, e := es[..|es| - 1], es[|es| - 1];
      var s := Run(cfg, EMPTY, before);
      TokensIssuedInOrder(cfg, before, e.at);
      RunKeeps(cfg, EMPTY, before);
      StepStamps(cfg, s, e);
    }
  }

  // ---- assurance levels --------------------------------------------------------------------------

  ghost predicate Raises(cfg: Config, s: State, e: Event, x: nat) {
    e.step.DoVerify? && e.step.session == x && Apply(cfg, s, e).1.Granted?
  }

  ghost predicate Lowers(s: State, e: Event, x: nat) {
    (e.step.DoUnenroll? || e.step.DoAdminDelete?) && x in s.sessions && s.sessions[x].factor == Some(e.step.factor)
  }

  ghost predicate SameClaims(s: State, s': State, x: nat) {
    forall m :: (x, m) in s.claims <==> (x, m) in s'.claims
  }

  /** A session that lives through a step keeps all its claims, unless it is the session of a successful
      verification or had been raised by the factor that is being removed. */
  lemma {:induction false} ClaimsChangeOnlyWithFactors(cfg: Config, s: State, e: Event, x: nat)
    requires Safe(s) && x in s.sessions && x in Apply(cfg, s, e).0.sessions
    requires !Raises(cfg, s, e, x) && !Lowers(s, e, x)
    ensures SameClaims(s, Apply(cfg, s, e).0, x)
  {
    hide Expired, RevokedByNewerLogin, Active, ComputesAAL2, UserError, DowngradeAndDelete, Verify, Enroll, Refresh,
        OnlyToken;
    match e.step
    case DoRefresh(t) => RefreshKeepsClaims(cfg, s, t, e.at, x);
    case DoVerify(y, f, valid) => VerifyKeepsClaims(s, y, f, valid, e.at, x);
    case DoUnenroll(user, y, f) => if f in s.factors { DowngradeKeepsClaims(s, f, x); }
    case DoAdminDelete(f) => if f in s.factors { DowngradeKeepsClaims(s, f, x); }
    case DoEnroll(user, y, name, kind) => EnrollKeepsClaims(cfg, s, e);
    case _ =>
  }

  lemma {:induction false} RefreshKeepsClaims(cfg: Config, s: State, t: nat, now: Time, x: nat)
    requires x in Refresh(cfg, s, t, now).0.sessions
    ensures SameClaims(s, Refresh(cfg, s, t, now).0, x)
  {
    hide Expired, RevokedByNewerLogin, Active, UserError;
  }

  lemma {:induction false} VerifyKeepsClaims(s: State, y: nat, f: nat, valid: bool, now: Time, x: nat)
    requires x in Verify(s, y, f, valid, now).0.sessions && (Verify(s, y, f, valid, now).1.Granted? ==> x != y)
    ensures SameClaims(s, Verify(s, y, f, valid, now).0, x)
  {
    hide Active;
  }

  lemma {:induction false} DowngradeKeepsClaims(s: State, f: nat, x: nat)
    requires f in s.factors && x in s.sessions && s.sessions[x].factor != Some(f)
    ensures SameClaims(s, DowngradeAndDelete(s, f), x)
  {}

  lemma {:induction false} EnrollKeepsClaims(cfg: Config, s: State, e: Event)
    requires e.step.DoEnroll?
    ensures Apply(cfg, s, e).0.claims == s.claims && Apply(cfg, s, e).0.tokens == s.tokens
  {}

  /** The computed level rises only at the session's own successful verification. */
  lemma {:induction false} StepRaises(cfg: Config, s: State, e: Event, x: nat)
    requires Safe(s) && !ComputesAAL2(s, x) && ComputesAAL2(Apply(cfg, s, e).0, x)
    ensures Raises(cfg, s, e, x)
  {
    hide Verify, Refresh;
    match e.step
    case DoRefresh(t) => RefreshRaisesNothing(cfg, s, t, e.at, x);
    case DoVerify(y, f, valid) => VerifyRaisesItsOwn(s, y, f, valid, e.at, x);
    case _ =>
  }

  lemma {:induction false} RefreshRaisesNothing(cfg: Config, s: State, t: nat, now: Time, x: nat)
    requires ComputesAAL2(Refresh(cfg, s, t, now).0, x)
    ensures ComputesAAL2(s, x)
  {
    hide Expired, RevokedByNewerLogin, Active, UserError;
  }

  lemma {:induction false} VerifyRaisesItsOwn(s: State, y: nat, f: nat, valid: bool, now: Time, x: nat)
    requires !ComputesAAL2(s, x) && ComputesAAL2(Verify(s, y, f, valid, now).0, x)
    ensures x == y && Verify(s, y, f, valid, now).1.Granted?
  {
    hide Active;
  }

  lemma {:induction false} AALRisesOnlyAtVerification(cfg: Config, s: State, es: seq<Event>, x: nat)
    requires Safe(s) && !ComputesAAL2(s, x) && ComputesAAL2(Run(cfg, s, es), x)
    ensures exists i :: 0 <= i < |es| && Raises(cfg, Run(cfg, s, es[..i]), es[i], x)
  {
    hide Apply, Raises;
    if es != [] {
      var before, e := es[..|es| - 1], es[|es| - 1];
      var s1 := Run(cfg, s, before);
      RunKeeps(cfg, s, before);
      if ComputesAAL2(s1, x) {
        AALRisesOnlyAtVerification(cfg, s, before, x);
        var i :| 0 <= i < |before| && Raises(cfg, Run(cfg, s, before[..i]), before[i], x);
        assert before[..i] == es[..i];
      } else {
        StepRaises(cfg, s1, e, x);
        assert es[..|es| - 1] == before;
      }
    }
  }

  /** No number of refreshes changes the claims, so the level, of a session that is still there. */
  lemma {:induction false} RefreshesKeepTheLevel(cfg: Config, s: State, es: seq<Event>, x: nat)
    requires Safe(s) && forall i :: 0 <= i < |es| ==> es[i].step.DoRefresh?
    requires x in Run(cfg, s, es).sessions
    ensures x in s.sessions && SameClaims(s, Run(cfg, s, es), x)
    ensures ComputesAAL2(s, x) <==> ComputesAAL2(Run(cfg, s, es), x)
  {
    if es != [] {
      var before, e := es[..|es| - 1], es[|es| - 1];
      var s1 := Run(cfg, s, before);
      RunKeeps(cfg, s, before);
      RefreshDropsOrKeeps(cfg, s1, e.step.token, e.at);
      RefreshesKeepTheLevel(cfg, s, before, x);
      ClaimsChangeOnlyWithFactors(cfg, s1, e, x);
    }
  }

  lemma {:induction false} RefreshDropsOrKeeps(cfg: Config, s: State, t: nat, now: Time)
    ensures Refresh(cfg, s, t, now).0.sessions.Keys <= s.sessions.Keys
  {
    hide Expired, RevokedByNewerLogin, Active;
  }

  /** What is left when a factor goes: the column says aal1, but a session that had also verified a factor of
      another type still computes aal2. */
  lemma {:induction false} DowngradeLeavesOtherMethods(s: State, f: nat, x: nat)
    requires Safe(s) && f in s.factors && x in s.sessions && s.sessions[x].factor == Some(f)
    ensures var s' := DowngradeAndDelete(s, f);
            && x in s'.sessions && !s'.sessions[x].aal2
            && (ComputesAAL2(s', x) <==> exists k :: k != s.factors[f].kind && (x, SecondFactor(k)) in s.claims)
  {
    assert Honest(s.sessions, s.claims, s.factors, x);
  }

  /** Right after a verification the session computes aal2, as does every session its user still has, and
      exactly the user's sessions below aal2 are gone. */
  lemma {:induction false} VerificationLeavesOnlyAAL2(s: State, x: nat, f: nat, now: Time)
    requires Safe(s) && Verify(s, x, f, true, now).1.Granted?
    ensures var s' := Verify(s, x, f, true, now).0;
            && (forall y :: y in s'.sessions <==>
                  y in s.sessions && (s.sessions[y].user == s.sessions[x].user ==> y == x || s.sessions[y].aal2))
            && (forall y :: y in s'.sessions && s'.sessions[y].user == s.sessions[x].user ==> ComputesAAL2(s', y))
            && x in s'.sessions && s'.sessions[x].factor == Some(f) && OnlyToken(s'.tokens, x, s.nextToken)
  {
    hide SwapToken, OnlyToken;
    var user := s.sessions[x].user;
    var s1 := Upgrade(s, x, f);
    UpgradeKeeps(s, x, f);
    SwapKeeps(s1, x, user, now);
    SwapTouchesTokens(s1, x, user, now);
    VerifyKeeps(s, x, f, true, now);
    StillOnlyToken(SwapToken(s1, x, user, now), user, x, s.nextToken);
    assert LevelsSound(Verify(s, x, f, true, now).0.sessions, Verify(s, x, f, true, now).0.claims,
        Verify(s, x, f, true, now).0.factors);
  }

  lemma {:induction false} SwapTouchesTokens(s: State, x: nat, user: int, now: Time)
    ensures SwapToken(s, x, user, now) == s.(tokens := SwapToken(s, x, user, now).tokens, nextToken := s.nextToken + 1)
  {}

  lemma {:induction false} StillOnlyToken(s: State, user: int, x: nat, t: nat)
    requires OnlyToken(s.tokens, x, t) && x in s.sessions && s.sessions[x].aal2
    ensures OnlyToken(DeleteBelowAAL2(s, user).tokens, x, t)
  {}
}
