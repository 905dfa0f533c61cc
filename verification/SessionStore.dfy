/** The handlers as they run: statement by statement over the tables, each one transaction. */
module SessionStore {
  import opened Prelude
  import opened SessionModel

  class Store {
    const cfg: Config
    var users: map<int, User>
    var sessions: map<nat, Session>
    var tokens: map<nat, Token>
    var claims: set<(nat, Method)>
    var factors: map<nat, Factor>
    var nextSession: nat
    var nextToken: nat
    var nextFactor: nat

    function View(): State
      reads this
    {
      State(users, sessions, tokens, claims, factors, nextSession, nextToken, nextFactor)
    }

    constructor (c: Config)
      ensures cfg == c && View() == EMPTY
    {
      cfg := c;
      users, sessions, tokens, claims, factors := map[], map[], map[], {}, map[];
      nextSession, nextToken, nextFactor := 0, 0, 0;
    }

    // ---- statements ----------------------------------------------------------------------

    method Insert(user: int, parent: Option<nat>, sid: nat, now: Time) returns (id: nat)
      modifies this
      ensures View() == InsertToken(old(View()), user, parent, sid, now) && id == old(nextToken)
    {
      id := nextToken;
      tokens := tokens[id := Token(user, parent, sid, false, now, now)];
      nextToken := id + 1;
    }

    method Revoke(t: nat, now: Time)
      modifies this
      ensures View() == RevokeToken(old(View()), t, now)
    {
      if t in tokens {
        tokens := tokens[t := tokens[t].(revoked := true, updatedAt := now)];
      }
    }

    method Delete(dead: set<nat>)
      modifies this
      ensures View() == DeleteSessions(old(View()), dead)
    {
      sessions := map x | x in sessions && x !in dead :: sessions[x];
      tokens := map t | t in tokens && tokens[t].session !in dead :: tokens[t];
      claims := set c | c in claims && c.0 !in dead;
    }

    /** The newest unrevoked token of a session. */
    method FindActive(sid: nat) returns (best: Option<nat>)
      ensures best == Active(tokens, sid)
    {
      best := None;
      var todo := tokens.Keys;
      while todo != {}
        invariant todo <= tokens.Keys
        invariant best.Some? ==> Unrevoked(tokens, sid, best.value)
        invariant forall u :: u in tokens && u !in todo && Unrevoked(tokens, sid, u) ==>
                    best.Some? && !NewerToken(tokens, best.value, u)
        decreases todo
      {
        var t :| t in todo;
        todo := todo - {t};
        if !tokens[t].revoked && tokens[t].session == sid && (best.None? || NewerToken(tokens, best.value, t)) {
          best := Some(t);
        }
      }
      if best.Some? {
        assert IsActive(tokens, sid, best.value);
      }
    }

    /** Whether another session of the user, still valid, was refreshed more recently. */
    method OutrankedByNewer(sid: nat, rt: Token, now: Time) returns (yes: bool)
      requires sid in sessions
      ensures yes <==> RevokedByNewerLogin(cfg, View(), sid, rt, now)
    {
      if !cfg.singlePerUser {
        return false;
      }
      var mine := LastRefreshedAt(sessions[sid], Some(rt));
      var todo := sessions.Keys;
      while todo != {}
        invariant todo <= sessions.Keys
        invariant forall o :: o in sessions && o !in todo && o != sid ==>
            !Outranks(cfg, sessions[o], sessions[sid], rt, now)
        decreases todo
      {
        var o :| o in todo;
        todo := todo - {o};
        if o == sid || sessions[o].user != sessions[sid].user {
          continue;
        }
        if !StillValid(cfg, sessions[o], now) {
          continue;
        }
        if LastRefreshedAt(sessions[o], None) > mine {
          return true;
        }
      }
      return false;
    }

    // ---- handlers --------------------------------------------------------------------------

    method GrantSession(user: int, how: string, oauth: bool, notAfter: Option<Time>, now: Time)
        returns (answer: Outcome)
      modifies this
      ensures (View(), answer) == SignIn(old(View()), user, how, oauth, notAfter, now)
    {
      var bad := UserError(View(), user, now);
      if bad.Some? {
        return Refused(bad.value);
      }
      var sid := nextSession;
      sessions := sessions[sid := Session(user, now, Some(now), notAfter, oauth, false, None)];
      nextSession := sid + 1;
      if how != "" {
        claims := claims + {(sid, FirstFactor(how))};
      }
      var t := Insert(user, None, sid, now);
      return Granted(t);
    }

    /** Ends a session that is past one of its limits; the deletion survives the refusal. */
    method CheckValidity(sid: nat, rt: Token, now: Time) returns (ok: bool)
      requires sid in sessions
      modifies this
      ensures ok <==> !Expired(cfg, old(sessions[sid]), rt, now)
      ensures View() == if ok then old(View()) else DeleteSessions(old(View()), {sid})
    {
      var x := sessions[sid];
      if x.notAfter.Some? && !(now < x.notAfter.value) {
        Delete({sid});
        return false;
      }
      if cfg.timebox > 0 && now > x.createdAt + cfg.timebox {
        Delete({sid});
        return false;
      }
      if cfg.inactivity > 0 && now > LastRefreshedAt(x, Some(rt)) + cfg.inactivity {
        Delete({sid});
        return false;
      }
      return true;
    }

    method HandleReuse(t: nat, now: Time) returns (answer: Outcome)
      requires t in tokens
      modifies this
      ensures (View(), answer) == Reuse(cfg, old(View()), t, now)
    {
      var rt := tokens[t];
      var sid := rt.session;
      if sid in sessions && cfg.reuseInterval > 0 && now < rt.updatedAt + cfg.reuseInterval {
        var active := FindActive(sid);
        if active.Some? {
          var user := sessions[sid].user;
          var ok := CheckValidity(sid, rt, now);
          if !ok {
            return Refused(SessionExpired);
          }
          var bad := UserError(View(), user, now);
          return if bad.Some? then Refused(bad.value) else Granted(active.value);
        }
      }
      if cfg.rotation {
        tokens := map u | u in tokens ::
          if tokens[u].session == sid && !tokens[u].revoked then tokens[u].(revoked := true, updatedAt := now)
              else tokens[u];
        assert View() == RevokeFamily(old(View()), sid, now);
      }
      Delete({sid});
      return Refused(AlreadyUsed);
    }

    method RefreshTokenGrant(t: nat, now: Time) returns (answer: Outcome)
      modifies this
      ensures (View(), answer) == Refresh(cfg, old(View()), t, now)
    {
      if t !in tokens {
        return Refused(TokenNotFound);
      }
      var rt := tokens[t];
      var sid := rt.session;
      if sid in sessions && sessions[sid].oauth {
        return Refused(OAuthSession);
      }
      if sid in sessions {
        var outranked := OutrankedByNewer(sid, rt, now);
        if outranked {
          return Refused(NewerLogin);
        }
      }
      if rt.revoked {
        answer := HandleReuse(t, now);
        return;
      }
      if sid !in sessions {
        return Refused(SessionNotFound);
      }
      var user := sessions[sid].user;
      var ok := CheckValidity(sid, rt, now);
      if !ok {
        return Refused(SessionExpired);
      }
      var bad := UserError(View(), user, now);
      if bad.Some? {
        return Refused(bad.value);
      }
      Revoke(t, now);
      var next := Insert(rt.user, Some(t), sid, now);
      sessions := sessions[sid := sessions[sid].(refreshedAt := Some(now))];
      return Granted(next);
    }

    method FinalizeVerification(sid: nat, f: nat, valid: bool, now: Time) returns (answer: Outcome)
      modifies this
      ensures (View(), answer) == Verify(old(View()), sid, f, valid, now)
    {
      if sid !in sessions {
        // The claim's foreign key fails and everything is rolled back.
        return Refused(VerificationFailed);
      }
      var user := sessions[sid].user;
      if f !in factors || factors[f].user != user {
        return Refused(FactorNotFound);
      }
      if !valid {
        return Refused(VerificationFailed);
      }
      var kind := factors[f].kind;
      if !factors[f].verified {
        factors := factors[f := factors[f].(verified := true)];
      }
      claims := claims + {(sid, SecondFactor(kind))};
      sessions := sessions[sid := sessions[sid].(aal2 := true, factor := Some(f))];
      assert View() == Upgrade(old(View()), sid, f);
      var current := FindActive(sid);
      if current.Some? {
        Revoke(current.value, now);
      }
      var next := Insert(user, current, sid, now);
      Delete(set x | x in sessions && sessions[x].user == user && !sessions[x].aal2);
      factors := map g | g in factors
          && !(factors[g].user == user && !factors[g].verified && factors[g].kind == kind) :: factors[g];
      return Granted(next);
    }

    method Downgrade(f: nat)
      requires f in factors
      modifies this
      ensures View() == DowngradeAndDelete(old(View()), f)
    {
      var user, kind := factors[f].user, factors[f].kind;
      claims := set c | c in claims &&
        !(c.0 in sessions && sessions[c.0].user == user && sessions[c.0].factor == Some(f)
            && c.1 == SecondFactor(kind));
      sessions := map x | x in sessions ::
        if sessions[x].user == user && sessions[x].factor == Some(f) then sessions[x].(aal2 := false, factor := None)
        else sessions[x];
      factors := factors - {f};
    }

    method UnenrollFactor(user: int, sid: nat, f: nat) returns (answer: Outcome)
      modifies this
      ensures (View(), answer) == Unenroll(old(View()), user, sid, f)
    {
      if f !in factors || factors[f].user != user {
        return Refused(FactorNotFound);
      }
      if factors[f].verified && !ComputesAAL2(View(), sid) {
        return Refused(InsufficientAAL);
      }
      Downgrade(f);
      return Done;
    }

    method EnrollFactor(user: int, sid: nat, name: string, kind: Kind, now: Time) returns (answer: Outcome)
      modifies this
      ensures (View(), answer) == Enroll(cfg, old(View()), user, sid, name, kind, now)
    {
      if user !in users {
        return Refused(UserNotFound);
      }
      factors := map f | f in factors &&
        !(!factors[f].verified && !factors[f].challenged && factors[f].createdAt + cfg.factorExpiry < now) ::
            factors[f];
      assert View() == CollectFactors(cfg, old(View()), now);
      var conflict, mine, verified := CountFactors(factors, user, name);
      if conflict {
        return Refused(FactorNameConflict);
      }
      if cfg.maxFactors > 0 && mine >= cfg.maxFactors {
        return Refused(TooManyFactors);
      }
      if verified >= cfg.maxVerified {
        return Refused(TooManyFactors);
      }
      if verified > 0 && !ComputesAAL2(View(), sid) {
        return Refused(InsufficientAAL);
      }
      factors := factors[nextFactor := Factor(user, name, kind, false, false, now)];
      nextFactor := nextFactor + 1;
      return Done;
    }

    /** At most `batch` rows of those a pass selects; which ones is not determined. */
    method Batch(selected: set<nat>, batch: nat) returns (some: set<nat>)
      ensures some <= selected && |some| == if |selected| <= batch then |selected| else batch
      ensures |selected| <= batch ==> some == selected
    {
      some := {};
      var todo := selected;
      while todo != {} && |some| < batch
        invariant some + todo == selected && some !! todo && |some| <= batch
        decreases todo
      {
        var x :| x in todo;
        todo, some := todo - {x}, some + {x};
      }
      assert |selected| == |some| + |todo|;
    }

    /** Passes 1 to 3; `total` counts the rows they removed themselves. Tokens go in whole batches; sessions all, if a
        batch holds them; and a round that finds nothing to remove leaves nothing overdue. */
    method CleanupOnce(batch: nat, now: Time) returns (total: nat, spent: set<nat>, dead: set<nat>)
      modifies this
      ensures CleanupMay(cfg, old(View()), spent, dead, now)
      ensures View() == Cleanup(old(View()), spent, dead)
      ensures total == |spent| + |dead|
      ensures var all := OverdueTokens(old(View()), now); |spent| == if |all| <= batch then |all| else batch
      ensures |OverdueSessions(cfg, old(sessions), now)| <= batch ==> dead == OverdueSessions(cfg, old(sessions), now)
      ensures batch > 0 && dead == {} ==> OverdueSessions(cfg, old(sessions), now) == {}
    {
      hide DeleteSessions, CleanupMay, Cleanup, SessionOverdue, OverdueTokens, OverdueSessions;
      hide PastNotAfter, PastTimebox, PastIdle;
      ghost var s := View();
      PastAreOverdue(cfg, s.sessions, now);
      spent := SpentTokens(batch, now);
      dead := {};
      NothingMore(cfg, s, spent, now);
      StillPast(cfg, s, spent, dead, now);
      var n;
      dead, n := RemovePast(PastNotAfter(sessions, now), s, spent, dead, PastNotAfter(s.sessions, now), batch, now);
      total := |spent| + n;
      if cfg.timebox > 0 {
        StillPast(cfg, s, spent, dead, now);
        dead, n := RemovePast(PastTimebox(cfg, sessions, now), s, spent, dead, PastTimebox(cfg, s.sessions, now),
          batch, now);
        total := total + n;
      }
      if cfg.inactivity > 0 {
        StillPast(cfg, s, spent, dead, now);
        dead, n := RemovePast(PastIdle(cfg, sessions, now), s, spent, dead, PastIdle(cfg, s.sessions, now), batch, now);
        total := total + n;
      }
      DeadAreOverdue(cfg, s, spent, dead, now);
    }

    /** One pass over the sessions the earlier ones left; `past` are those it looks for among all of `s`. */
    method RemovePast(
        selected: set<nat>, ghost s: State, ghost spent: set<nat>, dead: set<nat>, ghost past: set<nat>, batch: nat,
        now: Time)
        returns (gone: set<nat>, n: nat)
      requires View() == Cleanup(s, spent, dead) && CleanupMay(cfg, s, spent, dead, now)
      requires selected == past - dead && past <= OverdueSessions(cfg, s.sessions, now)
      modifies this
      ensures View() == Cleanup(s, spent, gone) && CleanupMay(cfg, s, spent, gone, now)
      ensures dead <= gone && |gone| == |dead| + n
      ensures |OverdueSessions(cfg, s.sessions, now)| <= batch || (batch > 0 && gone == {}) ==> past <= gone
    {
      hide DeleteSessions, CleanupMay, Cleanup, SessionOverdue;
      LeftOverdue(cfg, s, spent, dead, past, now);
      var late := Pass(selected, batch, now);
      hide OverdueSessions;
      MayAlso(cfg, s, spent, dead, late, now);
      PassReaches(past, dead, late, OverdueSessions(cfg, s.sessions, now), batch);
      gone, n := dead + late, |late|;
    }

    method SpentTokens(batch: nat, now: Time) returns (spent: set<nat>)
      modifies this`tokens
      ensures forall t :: t in spent ==> t in old(tokens) && TokenOverdue(old(View()), t, now)
      ensures var all := OverdueTokens(old(View()), now); |spent| == if |all| <= batch then |all| else batch
      ensures View() == old(View()).(tokens := old(tokens) - spent)
    {
      var selected := set t | t in tokens && tokens[t].revoked && tokens[t].updatedAt < now - RETENTION;
      assert selected == OverdueTokens(View(), now);
      spent := Batch(selected, batch);
      tokens := tokens - spent;
    }

    method Pass(selected: set<nat>, batch: nat, now: Time) returns (late: set<nat>)
      requires forall x :: x in selected ==> x in sessions && SessionOverdue(cfg, sessions[x], now)
      modifies this
      ensures late <= selected && |late| <= batch
      ensures |selected| <= batch ==> late == selected
      ensures late == {} && batch > 0 ==> selected == {}
      ensures forall x :: x in late ==> x in old(sessions) && SessionOverdue(cfg, old(sessions)[x], now)
      ensures View() == DeleteSessions(old(View()), late)
    {
      late := Batch(selected, batch);
      Delete(late);
    }
  }

  method CountFactors(factors: Factors, user: int, name: string) returns (conflict: bool, total: nat, verified: nat)
    ensures conflict <==> exists f :: f in FactorsOf(factors, user) && factors[f].name == name
    ensures !conflict ==> total == |FactorsOf(factors, user)| && verified == |VerifiedOf(factors, user)|
  {
    var mine := FactorsOf(factors, user);
    total := |mine|;
    var good, todo := {}, mine;
    while todo != {}
      invariant todo <= mine
      invariant forall f :: f in good <==> f in mine && f !in todo && factors[f].verified
      invariant forall f :: f in mine && f !in todo ==> factors[f].name != name
      decreases todo
    {
      var f :| f in todo;
      todo := todo - {f};
      if factors[f].name == name {
        return true, total, |good|;
      }
      if factors[f].verified {
        good := good + {f};
      }
    }
    assert good == VerifiedOf(factors, user);
    return false, total, |good|;
  }

  function OverdueTokens(s: State, now: Time): set<nat> {
    set t | t in s.tokens && TokenOverdue(s, t, now)
  }

  function OverdueSessions(cfg: Config, sessions: map<nat, Session>, now: Time): set<nat> {
    set x | x in sessions && SessionOverdue(cfg, sessions[x], now)
  }

  function PastNotAfter(sessions: map<nat, Session>, now: Time): set<nat> {
    set x | x in sessions && sessions[x].notAfter.Some? && sessions[x].notAfter.value < now
  }

  function PastTimebox(cfg: Config, sessions: map<nat, Session>, now: Time): set<nat> {
    set x | x in sessions && sessions[x].createdAt < now - cfg.timebox
  }

  function PastIdle(cfg: Config, sessions: map<nat, Session>, now: Time): set<nat> {
    set x | x in sessions && LastUse(sessions[x]) < now - cfg.inactivity
  }

  /** A pass over what the earlier ones left removes all it looks for, if a batch holds everything overdue or there was
      nothing to remove. */
  lemma {:induction false} PassReaches(
      past: set<nat>, dead: set<nat>, late: set<nat>, all: set<nat>, batch: nat)
    requires past <= all
    requires |past - dead| <= batch ==> late == past - dead
    requires late == {} && batch > 0 ==> past - dead == {}
    ensures |all| <= batch || (batch > 0 && dead + late == {}) ==> past <= dead + late
  {
    var todo := past - dead;
    if |all| <= batch {
      assert all == todo + (all - todo);
    }
    assert past <= dead + todo;
    if late == todo { assert past <= dead + late; }
    if dead + late == {} { assert late == {} && (batch > 0 ==> todo == {}); }
  }

  lemma {:induction false} LeftOverdue(
      cfg: Config, s: State, spent: set<nat>, dead: set<nat>, past: set<nat>, now: Time)
    requires past <= OverdueSessions(cfg, s.sessions, now)
    ensures var sessions := Cleanup(s, spent, dead).sessions;
            forall x :: x in past - dead ==> x in sessions && SessionOverdue(cfg, sessions[x], now)
  {
    hide SessionOverdue;
  }

  /** The three passes together look for exactly what is overdue. */
  lemma {:induction false} PastAreOverdue(cfg: Config, sessions: map<nat, Session>, now: Time)
    ensures OverdueSessions(cfg, sessions, now)
         == PastNotAfter(sessions, now) + (if cfg.timebox > 0 then PastTimebox(cfg, sessions, now) else {})
            + (if cfg.inactivity > 0 then PastIdle(cfg, sessions, now) else {})
  {}

  /** What a pass looks for is what it would have looked for at first, less what is gone. */
  lemma {:induction false} StillPast(cfg: Config, s: State, spent: set<nat>, dead: set<nat>, now: Time)
    ensures var sessions := Cleanup(s, spent, dead).sessions;
            && PastNotAfter(sessions, now) == PastNotAfter(s.sessions, now) - dead
            && PastTimebox(cfg, sessions, now) == PastTimebox(cfg, s.sessions, now) - dead
            && PastIdle(cfg, sessions, now) == PastIdle(cfg, s.sessions, now) - dead
  {}

  lemma {:induction false} DeadAreOverdue(cfg: Config, s: State, spent: set<nat>, dead: set<nat>, now: Time)
    requires CleanupMay(cfg, s, spent, dead, now)
    ensures dead <= OverdueSessions(cfg, s.sessions, now)
  {}

  lemma {:induction false} NothingMore(cfg: Config, s: State, spent: set<nat>, now: Time)
    requires forall t :: t in spent ==> t in s.tokens && TokenOverdue(s, t, now)
    ensures CleanupMay(cfg, s, spent, {}, now) && Cleanup(s, spent, {}) == s.(tokens := s.tokens - spent)
  {
    assert Cleanup(s, spent, {}).tokens == s.tokens - spent && Cleanup(s, spent, {}).sessions == s.sessions
      && Cleanup(s, spent, {}).claims == s.claims;
  }

  /** A further pass over what the earlier ones left is part of one round. */
  lemma {:induction false} MayAlso(cfg: Config, s: State, spent: set<nat>, dead: set<nat>, late: set<nat>, now: Time)
    requires CleanupMay(cfg, s, spent, dead, now)
    requires forall x :: x in late ==>
               x in Cleanup(s, spent, dead).sessions && SessionOverdue(cfg, Cleanup(s, spent, dead).sessions[x], now)
    ensures CleanupMay(cfg, s, spent, dead + late, now)
    ensures DeleteSessions(Cleanup(s, spent, dead), late) == Cleanup(s, spent, dead + late)
    ensures |dead + late| == |dead| + |late|
  {
    hide SessionOverdue;
    DeleteTwice(s.(tokens := s.tokens - spent), dead, late);
    assert dead !! late;
  }

  lemma {:induction false} DeleteTwice(s: State, a: set<nat>, b: set<nat>)
    ensures DeleteSessions(DeleteSessions(s, a), b) == DeleteSessions(s, a + b)
  {
    var one, two := DeleteSessions(s, a + b), DeleteSessions(DeleteSessions(s, a), b);
    assert one.sessions == two.sessions && one.tokens == two.tokens && one.claims == two.claims;
  }

  function LastUse(x: Session): Time {
    if x.refreshedAt.Some? then x.refreshedAt.value else x.createdAt
  }
}
