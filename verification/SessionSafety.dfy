/** What every run of the session tables keeps: one live token per session, and an assurance level
    that always has a verified factor behind it. */
module SessionSafety {
  import opened Prelude
  import opened SessionModel

  // ---- the invariant ---------------------------------------------------------------------

  /** `t` is the session's only unrevoked token and the newest it was ever issued. */
  ghost predicate OnlyToken(tokens: Tokens, x: nat, t: nat) {
    && Unrevoked(tokens, x, t)
    && (forall u :: u in tokens && tokens[u].session == x && u != t ==> u < t && tokens[u].revoked)
  }

  ghost predicate HasOnly(tokens: Tokens, x: nat) {
    exists t :: OnlyToken(tokens, x, t)
  }

  /** The parent was issued earlier, in the same session, and is spent; its row may be gone. */
  ghost predicate ParentOf(tokens: Tokens, p: nat, t: nat)
    requires t in tokens
  {
    p < t && (p in tokens ==> tokens[p].revoked && tokens[p].session == tokens[t].session)
  }

  ghost predicate TokensSound(tokens: Tokens, live: set<nat>, next: nat) {
    && (forall t :: t in tokens ==> t < next && tokens[t].session in live)
    && (forall x :: x in live ==> HasOnly(tokens, x))
    && (forall t :: t in tokens && tokens[t].parent.Some? ==> ParentOf(tokens, tokens[t].parent.value, t))
  }

  type Sessions = map<nat, Session>
  type Claims = set<(nat, Method)>

  /** The `aal` column is aal2 exactly when a factor is set, and that is a verified factor of the session's own
      user whose method is among the session's claims. */
  ghost predicate Honest(sessions: Sessions, claims: Claims, factors: Factors, x: nat)
    requires x in sessions
  {
    && (sessions[x].aal2 <==> sessions[x].factor.Some?)
    && (sessions[x].factor.Some? ==>
          var f := sessions[x].factor.value;
          f in factors && factors[f].verified && factors[f].user == sessions[x].user
              && (x, SecondFactor(factors[f].kind)) in claims)
  }

  ghost predicate LevelsSound(sessions: Sessions, claims: Claims, factors: Factors) {
    && (forall x :: x in sessions ==> Honest(sessions, claims, factors, x))
    && (forall c :: c in claims ==> c.0 in sessions)
  }

  ghost predicate IdsFresh(s: State) {
    (forall x :: x in s.sessions ==> x < s.nextSession) && (forall f :: f in s.factors ==> f < s.nextFactor)
  }

  ghost predicate Safe(s: State) {
    TokensSound(s.tokens, s.sessions.Keys, s.nextToken) && LevelsSound(s.sessions, s.claims, s.factors) && IdsFresh(s)
  }

  // ---- tokens --------------------------------------------------------------------------------

  function TokensOf(tokens: Tokens, live: set<nat>): Tokens {
    map t | t in tokens && tokens[t].session in live :: tokens[t]
  }

  lemma {:induction false} FewerSessionsTokens(tokens: Tokens, live: set<nat>, next: nat, live': set<nat>)
    requires TokensSound(tokens, live, next) && live' <= live
    ensures TokensSound(TokensOf(tokens, live'), live', next)
  {
    var tokens' := TokensOf(tokens, live');
    forall x | x in live' ensures HasOnly(tokens', x) {
      var t :| OnlyToken(tokens, x, t);
      assert OnlyToken(tokens', x, t);
    }
  }

  /** The unrevoked token of a session is revoked and a fresh child takes its place. */
  lemma {:induction false} ReplaceKeepsTokens(tokens: Tokens, live: set<nat>, next: nat, x: nat, t: nat, spent: Token,
      child: Token)
    requires TokensSound(tokens, live, next) && Unrevoked(tokens, x, t)
    requires spent.session == x && spent.revoked && spent.parent == tokens[t].parent
    requires child.session == x && !child.revoked && child.parent == Some(t)
    ensures TokensSound(tokens[t := spent][next := child], live, next + 1)
    ensures OnlyToken(tokens[t := spent][next := child], x, next)
  {
    var tokens' := tokens[t := spent][next := child];
    OthersKeepTheirs(tokens, live, x, t, spent, next, child);
    var only :| OnlyToken(tokens, x, only);
    assert only == t;
    forall y | y in live ensures HasOnly(tokens', y) {
      if y == x { assert OnlyToken(tokens', x, next); }
    }
  }

  lemma {:induction false} OthersKeepTheirs(tokens: Tokens, live: set<nat>, x: nat, t: nat, spent: Token, next: nat,
      child: Token)
    requires forall y :: y in live ==> HasOnly(tokens, y)
    requires t in tokens && next !in tokens && tokens[t].session == x && spent.session == x && child.session == x
    ensures forall y :: y in live && y != x ==> HasOnly(tokens[t := spent][next := child], y)
  {
    forall y | y in live && y != x ensures HasOnly(tokens[t := spent][next := child], y) {
      var u :| OnlyToken(tokens, y, u);
      assert OnlyToken(tokens[t := spent][next := child], y, u);
    }
  }

  lemma {:induction false} FirstTokenKeeps(tokens: Tokens, live: set<nat>, next: nat, x: nat, first: Token)
    requires TokensSound(tokens, live, next) && x !in live
    requires first.session == x && !first.revoked && first.parent == None
    ensures TokensSound(tokens[next := first], live + {x}, next + 1)
  {
    var tokens' := tokens[next := first];
    forall y | y in live + {x} ensures HasOnly(tokens', y) {
      if y == x {
        assert OnlyToken(tokens', x, next);
      } else {
        var u :| OnlyToken(tokens, y, u);
        assert OnlyToken(tokens', y, u);
      }
    }
  }

  lemma {:induction false} SpentTokensMayGo(tokens: Tokens, live: set<nat>, next: nat, gone: set<nat>)
    requires TokensSound(tokens, live, next)
    requires forall t :: t in gone ==> t in tokens && tokens[t].revoked
    ensures TokensSound(tokens - gone, live, next)
  {
    forall y | y in live ensures HasOnly(tokens - gone, y) {
      var u :| OnlyToken(tokens, y, u);
      assert OnlyToken(tokens - gone, y, u);
    }
  }

  lemma {:induction false} ActiveIsOnly(tokens: Tokens, x: nat, t: nat)
    requires OnlyToken(tokens, x, t)
    ensures Active(tokens, x) == Some(t)
  {
    assert IsActive(tokens, x, t);
  }

  // ---- what the statements keep --------------------------------------------------------------

  lemma {:induction false} DeleteSessionsKeeps(s: State, dead: set<nat>)
    requires Safe(s)
    ensures Safe(DeleteSessions(s, dead))
  {
    hide OnlyToken, HasOnly, TokensSound, LevelsSound, Honest;
    var s' := DeleteSessions(s, dead);
    FewerSessionsTokens(s.tokens, s.sessions.Keys, s.nextToken, s'.sessions.Keys);
    SameTokensLeft(s, dead);
    FewerSessionsLevels(s, s', dead);
    assert IdsFresh(s');
  }

  lemma {:induction false} SameTokensLeft(s: State, dead: set<nat>)
    requires TokensSound(s.tokens, s.sessions.Keys, s.nextToken)
    ensures DeleteSessions(s, dead).tokens == TokensOf(s.tokens, DeleteSessions(s, dead).sessions.Keys)
  {}

  lemma {:induction false} FewerSessionsLevels(s: State, s': State, dead: set<nat>)
    requires LevelsSound(s.sessions, s.claims, s.factors) && s' == DeleteSessions(s, dead)
    ensures LevelsSound(s'.sessions, s'.claims, s'.factors)
  {
    forall x | x in s'.sessions ensures Honest(s'.sessions, s'.claims, s'.factors, x) {
      assert Honest(s.sessions, s.claims, s.factors, x);
    }
  }

  lemma {:induction false} RevokeFamilyThenDelete(s: State, x: nat, now: Time)
    ensures DeleteSessions(RevokeFamily(s, x, now), {x}) == DeleteSessions(s, {x})
  {
    assert DeleteSessions(RevokeFamily(s, x, now), {x}).tokens == DeleteSessions(s, {x}).tokens;
  }

  lemma {:induction false} SignInKeeps(s: State, user: int, how: string, oauth: bool, notAfter: Option<Time>, now: Time)
    requires Safe(s)
    ensures Safe(SignIn(s, user, how, oauth, notAfter, now).0)
  {
    hide OnlyToken, HasOnly, Honest, UserError;
    if UserError(s, user, now).None? {
      var s' := SignIn(s, user, how, oauth, notAfter, now).0;
      FirstTokenKeeps(s.tokens, s.sessions.Keys, s.nextToken, s.nextSession,
          Token(user, None, s.nextSession, false, now, now));
      assert s'.sessions.Keys == s.sessions.Keys + {s.nextSession};
      NewSessionLevels(s, s'.sessions[s.nextSession], s'.claims);
    }
  }

  lemma {:induction false} NewSessionLevels(s: State, x: Session, claims: Claims)
    requires LevelsSound(s.sessions, s.claims, s.factors) && s.nextSession !in s.sessions
    requires !x.aal2 && x.factor.None?
    requires s.claims <= claims && forall c :: c in claims ==> c in s.claims || c.0 == s.nextSession
    ensures LevelsSound(s.sessions[s.nextSession := x], claims, s.factors)
  {
    assert forall y :: y in s.sessions ==> Honest(s.sessions, s.claims, s.factors, y);
  }

  lemma {:induction false} RotateKeeps(s: State, t: nat, now: Time)
    requires Safe(s) && t in s.tokens && !s.tokens[t].revoked
    ensures Safe(Rotate(s, t, now))
    ensures OnlyToken(Rotate(s, t, now).tokens, s.tokens[t].session, s.nextToken)
  {
    var rt := s.tokens[t];
    var s' := Rotate(s, t, now);
    ReplaceKeepsTokens(s.tokens, s.sessions.Keys, s.nextToken, rt.session, t,
      rt.(revoked := true, updatedAt := now), Token(rt.user, Some(t), rt.session, false, now, now));
    assert s'.sessions.Keys == s.sessions.Keys;
    assert forall y :: y in s.sessions ==> Honest(s.sessions, s.claims, s.factors, y);
  }

  lemma {:induction false} RefreshKeeps(cfg: Config, s: State, t: nat, now: Time)
    requires Safe(s)
    ensures Safe(Refresh(cfg, s, t, now).0)
  {
    hide Safe, OnlyToken, Expired, RevokedByNewerLogin, Active, Rotate, DeleteSessions, RevokeFamily;
    if t in s.tokens {
      var rt := s.tokens[t];
      DeleteSessionsKeeps(s, {rt.session});
      RevokeFamilyThenDelete(s, rt.session, now);
      if !rt.revoked { RotateKeeps(s, t, now); }
    }
  }

  lemma {:induction false} UpgradeKeeps(s: State, x: nat, f: nat)
    requires Safe(s) && x in s.sessions && f in s.factors && s.factors[f].user == s.sessions[x].user
    ensures Safe(Upgrade(s, x, f))
  {
    var s' := Upgrade(s, x, f);
    assert s'.sessions.Keys == s.sessions.Keys;
    forall y | y in s'.sessions ensures Honest(s'.sessions, s'.claims, s'.factors, y) {
      assert Honest(s.sessions, s.claims, s.factors, y);
    }
  }

  lemma {:induction false} SwapKeeps(s: State, x: nat, user: int, now: Time)
    requires Safe(s) && x in s.sessions
    ensures Safe(SwapToken(s, x, user, now)) && OnlyToken(SwapToken(s, x, user, now).tokens, x, s.nextToken)
  {
    var t :| OnlyToken(s.tokens, x, t);
    ActiveIsOnly(s.tokens, x, t);
    ReplaceKeepsTokens(s.tokens, s.sessions.Keys, s.nextToken, x, t,
      s.tokens[t].(revoked := true, updatedAt := now), Token(user, Some(t), x, false, now, now));
  }

  /** Factors may change around the sessions, except a verified factor of a user who has one. */
  lemma {:induction false} FactorsMayChange(s: State, s': State)
    requires Safe(s)
    requires s' == s.(users := s'.users, factors := s'.factors, nextFactor := s'.nextFactor)
    requires s.nextFactor <= s'.nextFactor && forall f :: f in s'.factors ==> f in s.factors || f < s'.nextFactor
    requires forall f, x :: f in s.factors && s.factors[f].verified && x in s.sessions ==>
               s.sessions[x].user == s.factors[f].user ==>
                 f in s'.factors && s'.factors[f].(challenged := s.factors[f].challenged) == s.factors[f]
    ensures Safe(s')
  {
    forall x | x in s'.sessions ensures Honest(s'.sessions, s'.claims, s'.factors, x) {
      assert Honest(s.sessions, s.claims, s.factors, x);
    }
  }

  lemma {:induction false} VerifyKeeps(s: State, x: nat, f: nat, valid: bool, now: Time)
    requires Safe(s)
    ensures Safe(Verify(s, x, f, valid, now).0)
  {
    if Verify(s, x, f, valid, now).1.Granted? {
      var user := s.sessions[x].user;
      var s1 := Upgrade(s, x, f);
      UpgradeKeeps(s, x, f);
      SwapKeeps(s1, x, user, now);
      var s2 := SwapToken(s1, x, user, now);
      DeleteSessionsKeeps(s2, set y | y in s2.sessions && s2.sessions[y].user == user && !s2.sessions[y].aal2);
      var s3 := DeleteBelowAAL2(s2, user);
      FactorsMayChange(s3, DeleteUnverified(s3, user, s.factors[f].kind));
    }
  }

  lemma {:induction false} DowngradeKeeps(s: State, f: nat)
    requires Safe(s) && f in s.factors
    ensures Safe(DowngradeAndDelete(s, f))
  {
    var s' := DowngradeAndDelete(s, f);
    assert s'.sessions.Keys == s.sessions.Keys;
    forall x | x in s'.sessions ensures Honest(s'.sessions, s'.claims, s'.factors, x) {
      assert Honest(s.sessions, s.claims, s.factors, x);
    }
  }

  lemma {:induction false} EnrollKeeps(cfg: Config, s: State, user: int, x: nat, name: string, kind: Kind, now: Time)
    requires Safe(s)
    ensures Safe(Enroll(cfg, s, user, x, name, kind, now).0)
  {
    FactorsMayChange(s, Enroll(cfg, s, user, x, name, kind, now).0);
  }

  lemma {:induction false} RemoveUserKeeps(s: State, user: int, soft: bool)
    requires Safe(s)
    ensures Safe(RemoveUser(s, user, soft))
  {
    DeleteSessionsKeeps(s, SessionsOf(s, user));
    if user in s.users { FactorsMayChange(DeleteSessions(s, SessionsOf(s, user)), RemoveUser(s, user, soft)); }
  }

  lemma {:induction false} CleanupKeeps(cfg: Config, s: State, tokens: set<nat>, sessions: set<nat>, now: Time)
    requires Safe(s) && CleanupMay(cfg, s, tokens, sessions, now)
    ensures Safe(Cleanup(s, tokens, sessions))
  {
    SpentTokensMayGo(s.tokens, s.sessions.Keys, s.nextToken, tokens);
    DeleteSessionsKeeps(s.(tokens := s.tokens - tokens), sessions);
  }

  lemma {:induction false} StepKeeps(cfg: Config, s: State, e: Event)
    requires Safe(s)
    ensures Safe(Apply(cfg, s, e).0)
  {
    hide Safe, DowngradeAndDelete, DeleteSessions, SignIn, Refresh, Verify, Enroll, RemoveUser, Cleanup;
    match e.step
    case DoSignIn(user, how, oauth, notAfter) => SignInKeeps(s, user, how, oauth, notAfter, e.at);
    case DoRefresh(token) => RefreshKeeps(cfg, s, token, e.at);
    case DoVerify(x, f, valid) => VerifyKeeps(s, x, f, valid, e.at);
    case DoUnenroll(user, x, f) => if f in s.factors { DowngradeKeeps(s, f); }
    case DoAdminDelete(f) => if f in s.factors { DowngradeKeeps(s, f); }
    case DoEnroll(user, x, name, kind) => EnrollKeeps(cfg, s, user, x, name, kind, e.at);
    case DoChallenge(f, outstanding) => FactorsMayChange(s, Apply(cfg, s, e).0);
    case DoDropUnverified(f) => FactorsMayChange(s, DropUnverified(s, f));
    case DoEndSessions(dead) => DeleteSessionsKeeps(s, dead);
    case DoCreateUser(user) => FactorsMayChange(s, Apply(cfg, s, e).0);
    case DoBan(user, until) => FactorsMayChange(s, Apply(cfg, s, e).0);
    case DoRemoveUser(user, soft) => RemoveUserKeeps(s, user, soft);
    case DoCleanup(tokens, sessions) =>
      if CleanupMay(cfg, s, tokens, sessions, e.at) { CleanupKeeps(cfg, s, tokens, sessions, e.at); }
  }

  lemma {:induction false} RunKeeps(cfg: Config, s: State, es: seq<Event>)
    requires Safe(s)
    ensures Safe(Run(cfg, s, es))
  {
    if es != [] {
      RunKeeps(cfg, s, es[..|es| - 1]);
      StepKeeps(cfg, Run(cfg, s, es[..|es| - 1]), es[|es| - 1]);
    }
  }

  /** In every reachable state: each session has exactly one unrevoked token, its newest; every parent was
      issued earlier in the same session and is revoked; the `aal` column is aal2 exactly when a factor is set,
      which is a verified factor of the session's own user with its method claimed. */
  lemma {:induction false} ReachableIsSafe(cfg: Config, s: State)
    requires Reachable(cfg, s)
    ensures Safe(s)
  {
    var es :| s == Run(cfg, EMPTY, es);
    RunKeeps(cfg, EMPTY, es);
  }
}
