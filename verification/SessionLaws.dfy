/** What the session requests answer and leave behind, in terms of the rows' own fields and moments of use. */
module SessionLaws {
  import opened Prelude
  import opened SessionModel
  import opened SessionSafety
  import opened SessionProperties

  // ---- moments of use ------------------------------------------------------------------------

  /** When a session was used: at its sign-in and at its last refresh. */
  function Uses(x: Session): set<Time> {
    {x.createdAt} + if x.refreshedAt.Some? then {x.refreshedAt.value} else {}
  }

  /** The presented token's last change is a use of its session as well. */
  function UsesWith(x: Session, rt: Token): set<Time> {
    Uses(x) + {rt.updatedAt}
  }

  ghost predicate UsedWithin(uses: set<Time>, span: nat, now: Time) {
    span == 0 || exists u :: u in uses && now - u <= span
  }

  /** Another session counts as long as none of its limits has passed. */
  ghost predicate Alive(cfg: Config, x: Session, now: Time) {
    && (x.notAfter.Some? ==> now <= x.notAfter.value)
    && (cfg.timebox == 0 || now - x.createdAt <= cfg.timebox)
    && UsedWithin(Uses(x), cfg.inactivity, now)
  }

  /** The session itself must be before the end it was given. */
  ghost predicate InForce(cfg: Config, x: Session, rt: Token, now: Time) {
    && (x.notAfter.Some? ==> now < x.notAfter.value)
    && (cfg.timebox == 0 || now - x.createdAt <= cfg.timebox)
    && UsedWithin(UsesWith(x, rt), cfg.inactivity, now)
  }

  /** Some other session of the user, alive, was used after every use of this one. */
  ghost predicate Outdone(cfg: Config, s: State, sid: nat, rt: Token, now: Time)
    requires sid in s.sessions
  {
    && cfg.singlePerUser
    && exists o, u :: o in s.sessions && o != sid && s.sessions[o].user == s.sessions[sid].user
         && Alive(cfg, s.sessions[o], now)
         && u in Uses(s.sessions[o]) && forall v :: v in UsesWith(s.sessions[sid], rt) ==> v < u
  }

  predicate Welcome(s: State, user: int, now: Time) {
    user in s.users && !s.users[user].deleted
    && (s.users[user].bannedUntil.Some? ==> s.users[user].bannedUntil.value <= now)
  }

  /** A revoked token came back too late for its answer to have been lost. */
  predicate Reused(cfg: Config, rt: Token, now: Time) {
    rt.revoked && (cfg.reuseInterval == 0 || now - rt.updatedAt >= cfg.reuseInterval)
  }

  lemma {:induction false} LastUse(x: Session)
    ensures LastRefreshedAt(x, None) in Uses(x)
    ensures forall u :: u in Uses(x) ==> u <= LastRefreshedAt(x, None)
  {}

  lemma {:induction false} LastUseWith(x: Session, rt: Token)
    ensures LastRefreshedAt(x, Some(rt)) in UsesWith(x, rt)
    ensures forall u :: u in UsesWith(x, rt) ==> u <= LastRefreshedAt(x, Some(rt))
  {}

  lemma {:induction false} AliveIsValid(cfg: Config, x: Session, now: Time)
    ensures StillValid(cfg, x, now) <==> Alive(cfg, x, now)
  {
    LastUse(x);
    hide LastRefreshedAt, Uses;
  }

  lemma {:induction false} InForceIsUnexpired(cfg: Config, x: Session, rt: Token, now: Time)
    ensures Expired(cfg, x, rt, now) <==> !InForce(cfg, x, rt, now)
  {
    LastUseWith(x, rt);
    hide LastRefreshedAt, UsesWith;
  }

  lemma {:induction false} OutdoneIsOutranked(cfg: Config, s: State, sid: nat, rt: Token, now: Time)
    requires sid in s.sessions
    ensures RevokedByNewerLogin(cfg, s, sid, rt, now) <==> Outdone(cfg, s, sid, rt, now)
  {
    LastUseWith(s.sessions[sid], rt);
    forall o | o in s.sessions
      ensures StillValid(cfg, s.sessions[o], now) <==> Alive(cfg, s.sessions[o], now)
      ensures LastRefreshedAt(s.sessions[o], None) in Uses(s.sessions[o])
      ensures forall u :: u in Uses(s.sessions[o]) ==> u <= LastRefreshedAt(s.sessions[o], None)
    {
      AliveIsValid(cfg, s.sessions[o], now);
      LastUse(s.sessions[o]);
    }
    hide LastRefreshedAt, Uses, UsesWith, StillValid, Alive;
  }

  // ---- refresh -----------------------------------------------------------------------------

  /** Exactly which session and user a refresh is granted for, and exactly why each other one is refused. */
  lemma {:induction false} RefreshAnswers(cfg: Config, s: State, t: nat, now: Time)
    requires Safe(s) && t in s.tokens
    ensures var rt := s.tokens[t];
            var x := s.sessions[rt.session];
            var answer := Refresh(cfg, s, t, now).1;
            var outdone := Outdone(cfg, s, rt.session, rt, now);
            && (answer == Refused(OAuthSession) <==> x.oauth)
            && (answer == Refused(NewerLogin) <==> !x.oauth && outdone)
            && (answer == Refused(AlreadyUsed) <==> !x.oauth && !outdone && Reused(cfg, rt, now))
            && (answer == Refused(SessionExpired) <==>
                  !x.oauth && !outdone && !Reused(cfg, rt, now) && !InForce(cfg, x, rt, now))
            && (answer.Granted? <==>
                  && !x.oauth && !outdone && !Reused(cfg, rt, now) && InForce(cfg, x, rt, now)
                  && Welcome(s, x.user, now))
            && (answer == Refused(UserNotFound) <==>
                  && !x.oauth && !outdone && !Reused(cfg, rt, now) && InForce(cfg, x, rt, now)
                  && (x.user !in s.users || s.users[x.user].deleted))
            && (answer == Refused(UserBanned) <==>
                  && !x.oauth && !outdone && !Reused(cfg, rt, now) && InForce(cfg, x, rt, now)
                  && x.user in s.users && !s.users[x.user].deleted && !Welcome(s, x.user, now))
  {
    var rt := s.tokens[t];
    var sid := rt.session;
    OutdoneIsOutranked(cfg, s, sid, rt, now);
    InForceIsUnexpired(cfg, s.sessions[sid], rt, now);
    assert HasOnly(s.tokens, sid);
    var u :| OnlyToken(s.tokens, sid, u);
    ActiveIsOnly(s.tokens, sid, u);
    hide Expired, RevokedByNewerLogin, DeleteSessions, RevokeFamily, OnlyToken, Safe, Rotate, Active, Outdone, InForce;
  }

  /** A session, its tokens and its claims are gone, and nothing else has changed. */
  ghost predicate OnlyGone(s: State, s': State, sid: nat) {
    && (forall x :: x in s'.sessions <==> x in s.sessions && x != sid)
    && (forall x :: x in s'.sessions ==> s'.sessions[x] == s.sessions[x])
    && (forall t :: t in s'.tokens <==> t in s.tokens && s.tokens[t].session != sid)
    && (forall t :: t in s'.tokens ==> s'.tokens[t] == s.tokens[t])
    && (forall c :: c in s'.claims <==> c in s.claims && c.0 != sid)
    && s'.users == s.users && s'.factors == s.factors
  }

  /** What a refresh that is refused, or answers a replay, leaves behind. */
  lemma {:induction false} RefusalsLeave(cfg: Config, s: State, t: nat, now: Time)
    requires t in s.tokens
    ensures var (s', answer) := Refresh(cfg, s, t, now);
            && (answer == Refused(SessionExpired) || answer == Refused(AlreadyUsed) ==>
                  OnlyGone(s, s', s.tokens[t].session))
            && ((answer.Granted? ==> s.tokens[t].revoked)
                && answer != Refused(SessionExpired) && answer != Refused(AlreadyUsed) ==>
                  s' == s)
  {
    RevokeFamilyThenDelete(s, s.tokens[t].session, now);
    hide Expired, RevokedByNewerLogin, RevokeFamily, Rotate, Active, UserError;
  }

  /** What a granted refresh of a live token leaves behind. */
  lemma {:induction false} RotationLeaves(cfg: Config, s: State, t: nat, now: Time)
    requires Safe(s) && t in s.tokens && !s.tokens[t].revoked && Refresh(cfg, s, t, now).1.Granted?
    ensures var (s', answer) := Refresh(cfg, s, t, now);
            var rt, sid := s.tokens[t], s.tokens[t].session;
            && s' == s.(tokens := s'.tokens, sessions := s'.sessions, nextToken := s'.nextToken)
            && s'.sessions == s.sessions[sid := s.sessions[sid].(refreshedAt := Some(now))]
            && s'.tokens.Keys == s.tokens.Keys + {answer.token}
            && s'.tokens[answer.token] == Token(rt.user, Some(t), sid, false, now, now)
  {
    hide Expired, RevokedByNewerLogin, OnlyToken, UserError;
  }

  /** The token of a fresh sign-in can be refreshed as long as the session's own limits, counted from the sign-in,
      allow it, the user is welcome and no other session outdid it. */
  lemma {:induction false} SignInCanRefresh(
      cfg: Config, s: State, user: int, how: string, oauth: bool, notAfter: Option<Time>, now: Time, later: Time)
    requires Safe(s)
    ensures SignIn(s, user, how, oauth, notAfter, now).1.Granted? <==> Welcome(s, user, now)
    ensures Welcome(s, user, now) ==>
            var (s', answer) := SignIn(s, user, how, oauth, notAfter, now);
            && answer.token in s'.tokens
            && (Refresh(cfg, s', answer.token, later).1.Granted? <==>
                  && !oauth && !Outdone(cfg, s', s'.tokens[answer.token].session, s'.tokens[answer.token], later)
                  && (notAfter.Some? ==> later < notAfter.value)
                  && (cfg.timebox == 0 || later - now <= cfg.timebox)
                  && (cfg.inactivity == 0 || later - now <= cfg.inactivity)
                  && Welcome(s, user, later))
  {
    if Welcome(s, user, now) {
      var (s', answer) := SignIn(s, user, how, oauth, notAfter, now);
      SignInKeeps(s, user, how, oauth, notAfter, now);
      RefreshAnswers(cfg, s', answer.token, later);
      hide Safe, Outdone, Refresh;
    }
  }

  /** What a sign-in adds: one session, one token and, if a method is given, one claim of it. */
  lemma {:induction false} SignInLeaves(
      s: State, user: int, how: string, oauth: bool, notAfter: Option<Time>, now: Time)
    requires Safe(s)
    ensures var (s', answer) := SignIn(s, user, how, oauth, notAfter, now);
            && (!answer.Granted? ==> s' == s)
            && (answer.Granted? ==>
                  var t := answer.token;
                  && t in s'.tokens && t !in s.tokens && s'.tokens[t].session !in s.sessions
                  && var sid := s'.tokens[t].session;
                     && s'.tokens == s.tokens[t := Token(user, None, sid, false, now, now)]
                     && s'.sessions == s.sessions[sid := Session(user, now, Some(now), notAfter, oauth, false, None)]
                     && (forall x, m :: (x, m) in s'.claims <==>
                           (x, m) in s.claims || (x == sid && how != "" && m == FirstFactor(how)))
                     && s'.users == s.users && s'.factors == s.factors)
  {
    hide OnlyToken, HasOnly, LevelsSound;
  }

  /** And so can the child of every rotation, idle time being counted from the rotation. */
  lemma {:induction false} ChildCanRefresh(cfg: Config, s: State, t: nat, now: Time, later: Time)
    requires Safe(s) && t in s.tokens && !s.tokens[t].revoked && Refresh(cfg, s, t, now).1.Granted?
    ensures var (s', answer) := Refresh(cfg, s, t, now);
            var sid, x := s.tokens[t].session, s.sessions[s.tokens[t].session];
            && sid in s'.sessions && answer.token in s'.tokens
            && (Refresh(cfg, s', answer.token, later).1.Granted? <==>
                  && !Outdone(cfg, s', sid, s'.tokens[answer.token], later)
                  && (x.notAfter.Some? ==> later < x.notAfter.value)
                  && (cfg.timebox == 0 || later - x.createdAt <= cfg.timebox)
                  && UsedWithin({x.createdAt, now}, cfg.inactivity, later)
                  && Welcome(s, x.user, later))
  {
    var (s', answer) := Refresh(cfg, s, t, now);
    var sid := s.tokens[t].session;
    RotationLeaves(cfg, s, t, now);
    RefreshKeeps(cfg, s, t, now);
    RefreshAnswers(cfg, s, t, now);
    RefreshAnswers(cfg, s', answer.token, later);
    ChildInForce(cfg, s.sessions[sid], s'.tokens[answer.token], now, later);
    hide Safe, Refresh, Outdone, InForce;
  }

  lemma {:induction false} ChildInForce(cfg: Config, x: Session, child: Token, now: Time, later: Time)
    requires child.updatedAt == now
    ensures InForce(cfg, x.(refreshedAt := Some(now)), child, later) <==>
              && (x.notAfter.Some? ==> later < x.notAfter.value)
              && (cfg.timebox == 0 || later - x.createdAt <= cfg.timebox)
              && UsedWithin({x.createdAt, now}, cfg.inactivity, later)
  {
    assert UsesWith(x.(refreshedAt := Some(now)), child) == {x.createdAt, now};
  }

  // ---- factors -------------------------------------------------------------------------------

  /** Exactly when a verification is granted, and what it leaves of tokens, factors and claims. */
  lemma {:induction false} VerificationLeaves(s: State, sid: nat, f: nat, valid: bool, now: Time)
    requires Safe(s)
    ensures var (s', answer) := Verify(s, sid, f, valid, now);
            && (answer.Granted? <==>
                  valid && sid in s.sessions && f in s.factors && s.factors[f].user == s.sessions[sid].user)
            && (answer == Refused(FactorNotFound) <==>
                  sid in s.sessions && !(f in s.factors && s.factors[f].user == s.sessions[sid].user))
            && (answer.Granted? || answer == Refused(FactorNotFound) || answer == Refused(VerificationFailed))
            && (!answer.Granted? ==> s' == s)
  {
    hide DeleteBelowAAL2, SwapToken, DeleteUnverified, Upgrade;
  }

  /** What a granted one leaves of factors and claims: its factor is verified, the user's unverified ones of that type
      are gone, and of the claims only the session's new one is added and those of deleted sessions are gone. */
  lemma {:induction false} VerificationRows(s: State, sid: nat, f: nat, now: Time)
    requires Safe(s) && Verify(s, sid, f, true, now).1.Granted?
    ensures var s' := Verify(s, sid, f, true, now).0;
            var user, kind := s.sessions[sid].user, s.factors[f].kind;
            && (forall g :: g in s'.factors <==>
                  g in s.factors && (g == f || !(s.factors[g].user == user && s.factors[g].kind == kind
                      && !s.factors[g].verified)))
            && (forall g :: g in s'.factors ==>
                  s'.factors[g] == if g == f then s.factors[g].(verified := true) else s.factors[g])
            && (forall y, m :: (y, m) in s'.claims <==>
                  y in s'.sessions && ((y, m) in s.claims || (y == sid && m == SecondFactor(kind))))
            && s'.users == s.users
  {
    var s1 := Upgrade(s, sid, f);
    SwapTouchesTokens(s1, sid, s.sessions[sid].user, now);
    hide SwapToken, OnlyToken;
  }

  /** Of sessions: the session names the factor, and the others that stay are as they were. */
  lemma {:induction false} VerificationRaises(s: State, sid: nat, f: nat, now: Time)
    requires Safe(s) && Verify(s, sid, f, true, now).1.Granted?
    ensures var s' := Verify(s, sid, f, true, now).0;
            forall y :: y in s'.sessions ==>
              && y in s.sessions
              && s'.sessions[y] == if y == sid then s.sessions[y].(aal2 := true, factor := Some(f)) else s.sessions[y]
  {
    var s1 := Upgrade(s, sid, f);
    SwapTouchesTokens(s1, sid, s.sessions[sid].user, now);
    hide SwapToken, OnlyToken, HasOnly;
  }

  /** And of tokens: the session's live one is spent and a child takes its place; the others that stay are as they
      were. */
  lemma {:induction false} VerificationSwaps(s: State, sid: nat, f: nat, now: Time) returns (t: nat)
    requires Safe(s) && Verify(s, sid, f, true, now).1.Granted?
    ensures OnlyToken(s.tokens, sid, t)
    ensures var (s', answer) := Verify(s, sid, f, true, now);
            && answer.token in s'.tokens && answer.token !in s.tokens
            && s'.tokens[answer.token] == Token(s.sessions[sid].user, Some(t), sid, false, now, now)
            && forall u :: u in s'.tokens && u != answer.token ==>
                 && u in s.tokens
                 && s'.tokens[u] == if u == t then s.tokens[u].(revoked := true, updatedAt := now) else s.tokens[u]
  {
    assert HasOnly(s.tokens, sid);
    t :| OnlyToken(s.tokens, sid, t);
    ActiveIsOnly(s.tokens, sid, t);
    assert t in s.tokens && t != s.nextToken && s.nextToken !in s.tokens;
    var s1 := Upgrade(s, sid, f);
    SwapLeaves(s1, sid, s.sessions[sid].user, t, now);
    hide OnlyToken, SwapToken, Safe, Active;
    TokensLeft(SwapToken(s1, sid, s.sessions[sid].user, now), s.sessions[sid].user, s.factors[f].kind, s.nextToken);
  }

  /** The two deletions take tokens away and change none; one of a session at aal2 stays. */
  lemma {:induction false} TokensLeft(s: State, user: int, kind: Kind, t: nat)
    ensures var s' := DeleteUnverified(DeleteBelowAAL2(s, user), user, kind);
            && (forall u :: u in s'.tokens ==> u in s.tokens && s'.tokens[u] == s.tokens[u])
            && (t in s.tokens && s.tokens[t].session in s.sessions && s.sessions[s.tokens[t].session].aal2 ==>
                  t in s'.tokens)
  {}

  lemma {:induction false} SwapLeaves(s: State, sid: nat, user: int, t: nat, now: Time)
    requires t in s.tokens && t != s.nextToken && Active(s.tokens, sid) == Some(t)
    ensures SwapToken(s, sid, user, now) ==
              s.(tokens := s.tokens[t := s.tokens[t].(revoked := true, updatedAt := now)]
                             [s.nextToken := Token(user, Some(t), sid, false, now, now)],
                 nextToken := s.nextToken + 1)
  {
    hide Active;
  }

  /** A verified factor goes only at the word of a session that claims a second factor; an unverified one at any. */
  lemma {:induction false} UnenrollAnswers(s: State, user: int, sid: nat, f: nat)
    ensures var (s', answer) := Unenroll(s, user, sid, f);
            && (answer == Done <==>
                  && f in s.factors && s.factors[f].user == user
                  && (s.factors[f].verified ==> exists k :: (sid, SecondFactor(k)) in s.claims))
            && (answer == Refused(InsufficientAAL) <==>
                  && f in s.factors && s.factors[f].user == user && s.factors[f].verified
                  && forall k :: (sid, SecondFactor(k)) !in s.claims)
            && (answer == Refused(FactorNotFound) <==> !(f in s.factors && s.factors[f].user == user))
            && (answer != Done ==> s' == s)
  {
    hide DowngradeAndDelete;
  }

  /** What goes with a factor: nothing but the claims and the level of the sessions it had raised. */
  lemma {:induction false} DowngradeLeaves(s: State, f: nat)
    requires Safe(s) && f in s.factors
    ensures var s' := DowngradeAndDelete(s, f);
            && (forall g :: g in s'.factors <==> g in s.factors && g != f)
            && (forall g :: g in s'.factors ==> s'.factors[g] == s.factors[g])
            && s'.tokens == s.tokens && s'.users == s.users && s'.sessions.Keys == s.sessions.Keys
            && (forall x :: x in s.sessions ==>
                  s'.sessions[x] == if s.sessions[x].factor == Some(f)
                    then s.sessions[x].(aal2 := false, factor := None) else s.sessions[x])
            && (forall x, m :: (x, m) in s'.claims <==>
                  (x, m) in s.claims && !(s.sessions[x].factor == Some(f) && m == SecondFactor(s.factors[f].kind)))
  {
    assert forall x :: x in s.sessions ==> Honest(s.sessions, s.claims, s.factors, x);
    assert DowngradeAndDelete(s, f).sessions.Keys == s.sessions.Keys;
  }

  // ---- enrolment, account deletion and cleanup ---------------------------------------------------

  /** An unverified, unchallenged factor older than its expiry. */
  predicate Stale(cfg: Config, f: Factor, now: Time) {
    !f.verified && !f.challenged && now - f.createdAt > cfg.factorExpiry
  }

  /** Exactly when a factor is enrolled: a name of its own among the user's factors that are not stale, room for one
      more and, if one is verified, a session that claims a second factor; and what is said when one of these fails. */
  lemma {:induction false} EnrollAnswers(
      cfg: Config, s: State, user: int, sid: nat, name: string, kind: Kind, now: Time, mine: set<nat>, good: set<nat>)
    requires forall f :: f in mine <==> f in s.factors && s.factors[f].user == user && !Stale(cfg, s.factors[f], now)
    requires forall f :: f in good <==> f in s.factors && s.factors[f].user == user && s.factors[f].verified
    ensures var answer := Enroll(cfg, s, user, sid, name, kind, now).1;
            if user !in s.users then answer == Refused(UserNotFound)
            else if exists f :: f in mine && s.factors[f].name == name then answer == Refused(FactorNameConflict)
            else if (cfg.maxFactors != 0 && |mine| >= cfg.maxFactors) || |good| >= cfg.maxVerified
            then answer == Refused(TooManyFactors)
            else if good != {} && forall k :: (sid, SecondFactor(k)) !in s.claims
            then answer == Refused(InsufficientAAL)
            else answer == Done
  {
    var c := CollectFactors(cfg, s, now);
    assert FactorsOf(c.factors, user) == mine && VerifiedOf(c.factors, user) == good;
    hide FactorsOf, VerifiedOf;
    assert c.claims == s.claims;
    assert |good| > 0 <==> good != {};
  }

  /** And what it leaves: stale factors of everyone are gone, unless there is no such user. */
  lemma {:induction false} EnrollLeaves(
      cfg: Config, s: State, user: int, sid: nat, name: string, kind: Kind, now: Time)
    requires Safe(s)
    ensures var (s', answer) := Enroll(cfg, s, user, sid, name, kind, now);
            && s' == s.(factors := s'.factors, nextFactor := s'.nextFactor)
            && (user in s.users ==>
                  (forall f :: f in s.factors ==> (f in s'.factors <==> !Stale(cfg, s.factors[f], now))))
            && (user !in s.users ==> s' == s)
            && (forall f :: f in s.factors && f in s'.factors ==> s'.factors[f] == s.factors[f])
            && (forall f :: f in s'.factors && f !in s.factors ==>
                  answer == Done && s'.factors[f] == Factor(user, name, kind, false, false, now))
            && (answer == Done ==> s.nextFactor in s'.factors)
  {
    hide FactorsOf, VerifiedOf, TokensSound, LevelsSound;
  }

  /** A removed account has no session, no token and no factor left and is welcome nowhere; others keep all theirs. */
  lemma {:induction false} RemovalLeaves(s: State, user: int, soft: bool, other: int, now: Time)
    requires Safe(s) && user in s.users && !s.users[user].deleted && other != user
    ensures var s' := RemoveUser(s, user, soft);
            && (forall x :: x in s'.sessions <==> x in s.sessions && s.sessions[x].user != user)
            && (forall x :: x in s'.sessions ==> s'.sessions[x] == s.sessions[x])
            && (forall t :: t in s'.tokens <==> t in s.tokens && s.sessions[s.tokens[t].session].user != user)
            && (forall t :: t in s'.tokens ==> s'.tokens[t] == s.tokens[t])
            && (forall f :: f in s'.factors <==> f in s.factors && s.factors[f].user != user)
            && (forall f :: f in s'.factors ==> s'.factors[f] == s.factors[f])
            && !Welcome(s', user, now) && (user in s'.users <==> soft)
            && (Welcome(s', other, now) <==> Welcome(s, other, now))
  {
    hide OnlyToken, HasOnly, LevelsSound;
    assert s.sessions.Keys == s.sessions.Keys;
    assert forall t :: t in s.tokens ==> s.tokens[t].session in s.sessions;
  }

  /** A session that was ended is gone for good, and so is every token it had; all others stay as they are. */
  lemma {:induction false} EndedIsFinal(
      cfg: Config, s: State, dead: set<nat>, now: Time, es: seq<Event>, t: nat, later: Time)
    requires Safe(s) && t in s.tokens && s.tokens[t].session in dead
    ensures var s1 := Apply(cfg, s, Event(now, DoEndSessions(dead))).0;
            var s' := Run(cfg, s1, es);
            && (forall x :: x in s1.sessions <==> x in s.sessions && x !in dead)
            && (forall x :: x in s1.sessions ==> s1.sessions[x] == s.sessions[x])
            && (forall u :: u in s1.tokens <==> u in s.tokens && s.tokens[u].session !in dead)
            && (forall u :: u in s1.tokens ==> s1.tokens[u] == s.tokens[u])
            && s.tokens[t].session !in s'.sessions && Refresh(cfg, s', t, later) == (s', Refused(TokenNotFound))
  {
    var s1 := Apply(cfg, s, Event(now, DoEndSessions(dead))).0;
    LiveSessions(s);
    RunFollows(cfg, s1, es);
    UnknownToken(cfg, Run(cfg, s1, es), t, later);
    hide Run, Refresh, Safe;
  }

  /** A user who was soft-deleted or is banned gets no session; one whose ban is over does. */
  lemma {:induction false} BanLasts(cfg: Config, s: State, user: int, until: Option<Time>, now: Time, later: Time)
    requires user in s.users && !s.users[user].deleted
    ensures var s' := Apply(cfg, s, Event(now, DoBan(user, until))).0;
            Welcome(s', user, later) <==> until.None? || until.value <= later
  {}

  /** An unverified factor can be dropped, a verified one cannot. */
  lemma {:induction false} DropLeaves(cfg: Config, s: State, f: nat, now: Time)
    ensures var s' := Apply(cfg, s, Event(now, DoDropUnverified(f))).0;
            && s' == s.(factors := s'.factors)
            && (forall g :: g in s'.factors <==> g in s.factors && (g == f ==> s.factors[g].verified))
            && (forall g :: g in s'.factors ==> s'.factors[g] == s.factors[g])
  {}

  /** What a cleanup round may remove: tokens revoked more than 30 days ago and sessions past a limit, the last use
      being the last refresh or, without one, the sign-in. */
  lemma {:induction false} CleanupSelects(cfg: Config, s: State, tokens: set<nat>, sessions: set<nat>, now: Time)
    ensures CleanupMay(cfg, s, tokens, sessions, now) <==>
              && (forall t :: t in tokens ==>
                    && t in s.tokens && s.tokens[t].revoked && now - s.tokens[t].updatedAt > 2592000)
              && (forall x :: x in sessions ==> x in s.sessions && PastALimit(cfg, s.sessions[x], now))
  {
    hide SessionOverdue, PastALimit;
    forall x | x in s.sessions ensures SessionOverdue(cfg, s.sessions[x], now) <==>
        PastALimit(cfg, s.sessions[x], now) {
      OverdueIsPast(cfg, s.sessions[x], now);
    }
  }

  ghost predicate PastALimit(cfg: Config, x: Session, now: Time) {
    || (exists end :: x.notAfter == Some(end) && end < now)
    || (cfg.timebox != 0 && now - x.createdAt > cfg.timebox)
    || (cfg.inactivity != 0 && exists u :: LastRow(x, u) && now - u > cfg.inactivity)
  }

  predicate LastRow(x: Session, u: Time) {
    x.refreshedAt == Some(u) || (x.refreshedAt.None? && x.createdAt == u)
  }

  lemma {:induction false} OverdueIsPast(cfg: Config, x: Session, now: Time)
    ensures SessionOverdue(cfg, x, now) <==> PastALimit(cfg, x, now)
  {
    var u := if x.refreshedAt.Some? then x.refreshedAt.value else x.createdAt;
    assert LastRow(x, u);
  }

  /** The active token of a session: it has one exactly if an unrevoked one, and that is the latest created and, of
      those, the one with the highest id. */
  lemma {:induction false} ActiveIsLatest(tokens: Tokens, sid: nat)
    ensures Active(tokens, sid).Some? <==> exists t :: Unrevoked(tokens, sid, t)
    ensures Active(tokens, sid).Some? ==>
              var t := Active(tokens, sid).value;
              && t in tokens && tokens[t].session == sid && !tokens[t].revoked
              && forall u :: u in tokens && u != t && tokens[u].session == sid && !tokens[u].revoked ==>
                   tokens[u].createdAt < tokens[t].createdAt || (tokens[u].createdAt == tokens[t].createdAt && u < t)
  {
    if t :| Unrevoked(tokens, sid, t) {
      var some := set u | u in tokens && Unrevoked(tokens, sid, u);
      assert t in some;
      var best := Latest(tokens, some);
      assert IsActive(tokens, sid, best);
    }
  }

  lemma {:induction false} Latest(tokens: Tokens, some: set<nat>) returns (best: nat)
    requires some != {} && some <= tokens.Keys
    ensures best in some && forall u :: u in some ==> !NewerToken(tokens, best, u)
    decreases some
  {
    best :| best in some;
    var rest := some - {best};
    assert some == rest + {best};
    if rest != {} {
      var other := Latest(tokens, rest);
      if NewerToken(tokens, best, other) { best := other; }
    }
  }
}
