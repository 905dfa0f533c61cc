/** The session, refresh-token and factor tables, and what every request that touches them does to
    them. One request is one transaction, so one atomic step. */
module SessionModel {
  import opened Prelude

  type Time = int

  datatype Kind = Totp | Phone | WebAuthn

  // An AMR method: how a session was signed in, or the factor type that raised it.
  datatype Method = FirstFactor(name: string) | SecondFactor(kind: Kind)

  datatype User = User(deleted: bool, bannedUntil: Option<Time>)

  datatype Session = Session(
    user: int, createdAt: Time, refreshedAt: Option<Time>, notAfter: Option<Time>,
    oauth: bool, aal2: bool, factor: Option<nat>)

  // A token's secret stands for its row id: both are unique and never issued twice.
  datatype Token = Token(
    user: int, parent: Option<nat>, session: nat, revoked: bool, createdAt: Time, updatedAt: Time)

  datatype Factor = Factor(user: int, name: string, kind: Kind, verified: bool, challenged: bool, createdAt: Time)

  datatype State = State(
    users: map<int, User>,
    sessions: map<nat, Session>,
    tokens: map<nat, Token>,
    claims: set<(nat, Method)>,
    factors: map<nat, Factor>,
    nextSession: nat,
    nextToken: nat,
    nextFactor: nat)

  const EMPTY := State(map[], map[], map[], {}, map[], 0, 0, 0)

  // A duration of 0 switches the corresponding rule off.
  datatype Config = Config(
    reuseInterval: nat, rotation: bool, singlePerUser: bool, timebox: nat, inactivity: nat,
    factorExpiry: nat, maxFactors: nat, maxVerified: nat)

  datatype Error =
    | TokenNotFound | OAuthSession | NewerLogin | SessionNotFound | SessionExpired | AlreadyUsed
    | UserNotFound | UserBanned | FactorNotFound | FactorNameConflict | TooManyFactors
    | InsufficientAAL | VerificationFailed

  datatype Outcome = Granted(token: nat) | Done | Refused(error: Error)

  // ---- rows ------------------------------------------------------------------------------

  function Max(a: Time, b: Time): Time { if a < b then b else a }

  function LastRefreshedAt(x: Session, presented: Option<Token>): Time {
    var last := if x.refreshedAt.Some? then Max(x.createdAt, x.refreshedAt.value) else x.createdAt;
    if presented.Some? then Max(last, presented.value.updatedAt) else last
  }

  /** Another session's validity: the instant of `notAfter` still counts as valid. */
  predicate StillValid(cfg: Config, x: Session, now: Time) {
    && !(x.notAfter.Some? && now > x.notAfter.value)
    && !(cfg.timebox > 0 && now > x.createdAt + cfg.timebox)
    && !(cfg.inactivity > 0 && now > LastRefreshedAt(x, None) + cfg.inactivity)
  }

  /** The presented session's own validity: at the instant of `notAfter` it has expired. */
  predicate Expired(cfg: Config, x: Session, rt: Token, now: Time) {
    || (x.notAfter.Some? && now >= x.notAfter.value)
    || (cfg.timebox > 0 && now > x.createdAt + cfg.timebox)
    || (cfg.inactivity > 0 && now > LastRefreshedAt(x, Some(rt)) + cfg.inactivity)
  }

  predicate Outranks(cfg: Config, other: Session, x: Session, rt: Token, now: Time) {
    other.user == x.user && StillValid(cfg, other, now) && LastRefreshedAt(other, None) > LastRefreshedAt(x, Some(rt))
  }

  predicate RevokedByNewerLogin(cfg: Config, s: State, sid: nat, rt: Token, now: Time)
    requires sid in s.sessions
  {
    && cfg.singlePerUser
    && exists o :: o in s.sessions && o != sid && Outranks(cfg, s.sessions[o], s.sessions[sid], rt, now)
  }

  function UserError(s: State, user: int, now: Time): Option<Error> {
    if user !in s.users || s.users[user].deleted then Some(UserNotFound)
    else if s.users[user].bannedUntil.Some? && s.users[user].bannedUntil.value > now then Some(UserBanned)
    else None
  }

  /** What a token signed for this session would carry as its assurance level. */
  predicate ComputesAAL2(s: State, sid: nat) {
    exists k :: (sid, SecondFactor(k)) in s.claims
  }

  // ---- the statements the requests are made of ---------------------------------------------

  function DeleteSessions(s: State, dead: set<nat>): State {
    s.(sessions := map x | x in s.sessions && x !in dead :: s.sessions[x],
       tokens := map t | t in s.tokens && s.tokens[t].session !in dead :: s.tokens[t],
       claims := set c | c in s.claims && c.0 !in dead)
  }

  function RevokeToken(s: State, t: nat, now: Time): State {
    if t in s.tokens then s.(tokens := s.tokens[t := s.tokens[t].(revoked := true, updatedAt := now)]) else s
  }

  function RevokeFamily(s: State, sid: nat, now: Time): State {
    s.(tokens := map t | t in s.tokens ::
      if s.tokens[t].session == sid && !s.tokens[t].revoked then s.tokens[t].(revoked := true, updatedAt := now)
      else s.tokens[t])
  }

  function InsertToken(s: State, user: int, parent: Option<nat>, sid: nat, now: Time): State {
    s.(tokens := s.tokens[s.nextToken := Token(user, parent, sid, false, now, now)], nextToken := s.nextToken + 1)
  }

  function TouchSession(s: State, sid: nat, now: Time): State {
    if sid in s.sessions then s.(sessions := s.sessions[sid := s.sessions[sid].(refreshedAt := Some(now))]) else s
  }

  type Tokens = map<nat, Token>

  predicate Unrevoked(tokens: Tokens, sid: nat, t: nat) {
    t in tokens && tokens[t].session == sid && !tokens[t].revoked
  }

  predicate NewerToken(tokens: Tokens, t: nat, u: nat)
    requires t in tokens && u in tokens
  {
    tokens[u].createdAt > tokens[t].createdAt || (tokens[u].createdAt == tokens[t].createdAt && u > t)
  }

  /** `t` is the first row of the session's unrevoked tokens ordered by creation, then id, newest first. */
  predicate IsActive(tokens: Tokens, sid: nat, t: nat) {
    Unrevoked(tokens, sid, t) && forall u :: u in tokens && Unrevoked(tokens, sid, u) ==> !NewerToken(tokens, t, u)
  }

  ghost function Active(tokens: Tokens, sid: nat): Option<nat> {
    if t: nat :| IsActive(tokens, sid, t) then Some(t) else None
  }

  // ---- requests ------------------------------------------------------------------------------

  function SignIn(s: State, user: int, how: string, oauth: bool, notAfter: Option<Time>, now: Time): (State, Outcome) {
    var bad := UserError(s, user, now);
    if bad.Some? then (s, Refused(bad.value))
    else
      var sid := s.nextSession;
      var s1 := s.(sessions := s.sessions[sid := Session(user, now, Some(now), notAfter, oauth, false, None)],
                   nextSession := sid + 1,
                   claims := if how == "" then s.claims else s.claims + {(sid, FirstFactor(how))});
      (InsertToken(s1, user, None, sid, now), Granted(s.nextToken))
  }

  function Rotate(s: State, t: nat, now: Time): State
    requires t in s.tokens
  {
    var rt := s.tokens[t];
    TouchSession(InsertToken(RevokeToken(s, t, now), rt.user, Some(t), rt.session, now), rt.session, now)
  }

  ghost function Refresh(cfg: Config, s: State, t: nat, now: Time): (State, Outcome) {
    if t !in s.tokens then (s, Refused(TokenNotFound))
    else
      var rt := s.tokens[t];
      var sid := rt.session;
      if sid in s.sessions && s.sessions[sid].oauth then (s, Refused(OAuthSession))
      else if sid in s.sessions && RevokedByNewerLogin(cfg, s, sid, rt, now) then (s, Refused(NewerLogin))
      else if rt.revoked then Reuse(cfg, s, t, now)
      else if sid !in s.sessions then (s, Refused(SessionNotFound))
      else if Expired(cfg, s.sessions[sid], rt, now) then (DeleteSessions(s, {sid}), Refused(SessionExpired))
      else
        var bad := UserError(s, s.sessions[sid].user, now);
        if bad.Some? then (s, Refused(bad.value)) else (Rotate(s, t, now), Granted(s.nextToken))
  }

  predicate InsideWindow(cfg: Config, rt: Token, now: Time) {
    cfg.reuseInterval > 0 && now < rt.updatedAt + cfg.reuseInterval
  }

  /** A revoked token came back. */
  ghost function Reuse(cfg: Config, s: State, t: nat, now: Time): (State, Outcome)
    requires t in s.tokens
  {
    var rt := s.tokens[t];
    var sid := rt.session;
    if sid in s.sessions && InsideWindow(cfg, rt, now) && Active(s.tokens, sid).Some? then
      if Expired(cfg, s.sessions[sid], rt, now) then (DeleteSessions(s, {sid}), Refused(SessionExpired))
      else
        var bad := UserError(s, s.sessions[sid].user, now);
        (s, if bad.Some? then Refused(bad.value) else Granted(Active(s.tokens, sid).value))
    else
      (DeleteSessions(if cfg.rotation then RevokeFamily(s, sid, now) else s, {sid}), Refused(AlreadyUsed))
  }

  /** Factor verification; `valid` says whether the challenge, the code and the hook allow it. */
  ghost function Verify(s: State, sid: nat, f: nat, valid: bool, now: Time): (State, Outcome) {
    if sid !in s.sessions then (s, Refused(VerificationFailed))
    else if f !in s.factors || s.factors[f].user != s.sessions[sid].user then (s, Refused(FactorNotFound))
    else if !valid then (s, Refused(VerificationFailed))
    else
      var user, kind := s.sessions[sid].user, s.factors[f].kind;
      (DeleteUnverified(DeleteBelowAAL2(SwapToken(Upgrade(s, sid, f), sid, user, now), user), user, kind),
          Granted(s.nextToken))
  }

  function Upgrade(s: State, sid: nat, f: nat): State
    requires sid in s.sessions && f in s.factors
  {
    s.(factors := s.factors[f := s.factors[f].(verified := true)],
       claims := s.claims + {(sid, SecondFactor(s.factors[f].kind))},
       sessions := s.sessions[sid := s.sessions[sid].(aal2 := true, factor := Some(f))])
  }

  ghost function SwapToken(s: State, sid: nat, user: int, now: Time): State {
    var current := Active(s.tokens, sid);
    InsertToken(if current.Some? then RevokeToken(s, current.value, now) else s, user, current, sid, now)
  }

  function DeleteBelowAAL2(s: State, user: int): State {
    DeleteSessions(s, set x | x in s.sessions && s.sessions[x].user == user && !s.sessions[x].aal2)
  }

  function DeleteUnverified(s: State, user: int, kind: Kind): State {
    s.(factors := map f | f in s.factors
        && !(s.factors[f].user == user && !s.factors[f].verified && s.factors[f].kind == kind)
       :: s.factors[f])
  }

  function RaisedBy(s: State, f: nat): set<nat>
    requires f in s.factors
  {
    set x | x in s.sessions && s.sessions[x].user == s.factors[f].user && s.sessions[x].factor == Some(f)
  }

  function DowngradeAndDelete(s: State, f: nat): State
    requires f in s.factors
  {
    var raised := RaisedBy(s, f);
    s.(claims := (set c | c in s.claims && !(c.0 in raised && c.1 == SecondFactor(s.factors[f].kind))),
       sessions := map x | x in s.sessions ::
         if x in raised then s.sessions[x].(aal2 := false, factor := None) else s.sessions[x],
       factors := s.factors - {f})
  }

  /** The session is the caller's token's: it may be gone, and then computes aal1. */
  function Unenroll(s: State, user: int, sid: nat, f: nat): (State, Outcome) {
    if f !in s.factors || s.factors[f].user != user then (s, Refused(FactorNotFound))
    else if s.factors[f].verified && !ComputesAAL2(s, sid) then (s, Refused(InsufficientAAL))
    else (DowngradeAndDelete(s, f), Done)
  }

  function AdminDelete(s: State, f: nat): (State, Outcome) {
    if f in s.factors then (DowngradeAndDelete(s, f), Done) else (s, Refused(FactorNotFound))
  }

  function CollectFactors(cfg: Config, s: State, now: Time): State {
    s.(factors := map f | f in s.factors &&
         !(!s.factors[f].verified && !s.factors[f].challenged && s.factors[f].createdAt + cfg.factorExpiry < now)
       :: s.factors[f])
  }

  type Factors = map<nat, Factor>

  function FactorsOf(factors: Factors, user: int): set<nat> {
    set f | f in factors && factors[f].user == user
  }

  function VerifiedOf(factors: Factors, user: int): set<nat> {
    set f | f in factors && factors[f].user == user && factors[f].verified
  }

  /** Enrolment; the expired factors go even when it is refused. */
  function Enroll(cfg: Config, s0: State, user: int, sid: nat, name: string, kind: Kind, now: Time): (State, Outcome) {
    var s := CollectFactors(cfg, s0, now);
    if user !in s.users then (s0, Refused(UserNotFound))
    else if exists f :: f in FactorsOf(s.factors, user) && s.factors[f].name == name
        then (s, Refused(FactorNameConflict))
    else if cfg.maxFactors > 0 && |FactorsOf(s.factors, user)| >= cfg.maxFactors then (s, Refused(TooManyFactors))
    else if |VerifiedOf(s.factors, user)| >= cfg.maxVerified then (s, Refused(TooManyFactors))
    else if |VerifiedOf(s.factors, user)| > 0 && !ComputesAAL2(s, sid) then (s, Refused(InsufficientAAL))
    else (s.(factors := s.factors[s.nextFactor := Factor(user, name, kind, false, false, now)], nextFactor :=
        s.nextFactor + 1), Done)
  }

  function DropUnverified(s: State, f: nat): State {
    if f in s.factors && !s.factors[f].verified then s.(factors := s.factors - {f}) else s
  }

  function SessionsOf(s: State, user: int): set<nat> {
    set x | x in s.sessions && s.sessions[x].user == user
  }

  /** Deleting an account ends its sessions first, then its factors; a soft deletion keeps the row,
      and repeated it only ends sessions. */
  function RemoveUser(s: State, user: int, soft: bool): State {
    var s1 := DeleteSessions(s, SessionsOf(s, user));
    var s2 := s1.(factors := map f | f in s1.factors && s1.factors[f].user != user :: s1.factors[f]);
    if user !in s.users then s
    else if soft && s.users[user].deleted then s1
    else s2.(users := if soft then s2.users[user := s2.users[user].(deleted := true)] else s2.users - {user})
  }

  const RETENTION: Time := 30 * 24 * 3600

  predicate TokenOverdue(s: State, t: nat, now: Time)
    requires t in s.tokens
  {
    s.tokens[t].revoked && s.tokens[t].updatedAt < now - RETENTION
  }

  predicate SessionOverdue(cfg: Config, x: Session, now: Time) {
    || (x.notAfter.Some? && x.notAfter.value < now)
    || (cfg.timebox > 0 && x.createdAt < now - cfg.timebox)
    || (cfg.inactivity > 0 && (if x.refreshedAt.Some? then x.refreshedAt.value else x.createdAt) < now - cfg.inactivity)
  }

  /** A cleanup round removes any rows passes 1 to 3 select: batches are cut off at an arbitrary row. */
  predicate CleanupMay(cfg: Config, s: State, tokens: set<nat>, sessions: set<nat>, now: Time) {
    && (forall t :: t in tokens ==> t in s.tokens && TokenOverdue(s, t, now))
    && (forall x :: x in sessions ==> x in s.sessions && SessionOverdue(cfg, s.sessions[x], now))
  }

  function Cleanup(s: State, tokens: set<nat>, sessions: set<nat>): State {
    DeleteSessions(s.(tokens := s.tokens - tokens), sessions)
  }

  // ---- runs ------------------------------------------------------------------------------------

  datatype Step =
    | DoSignIn(user: int, how: string, oauth: bool, notAfter: Option<Time>)
    | DoRefresh(token: nat)
    | DoVerify(session: nat, factor: nat, valid: bool)
    | DoUnenroll(user: int, session: nat, factor: nat)
    | DoAdminDelete(factor: nat)
    | DoEnroll(user: int, session: nat, name: string, kind: Kind)
    | DoChallenge(factor: nat, outstanding: bool)
    | DoDropUnverified(factor: nat)
    | DoEndSessions(sessions: set<nat>)
    | DoCreateUser(user: int)
    | DoBan(user: int, until: Option<Time>)
    | DoRemoveUser(user: int, soft: bool)
    | DoCleanup(tokens: set<nat>, sessions: set<nat>)

  datatype Event = Event(at: Time, step: Step)

  ghost function Apply(cfg: Config, s: State, e: Event): (State, Outcome) {
    match e.step
    case DoSignIn(user, how, oauth, notAfter) => SignIn(s, user, how, oauth, notAfter, e.at)
    case DoRefresh(token) => Refresh(cfg, s, token, e.at)
    case DoVerify(sid, f, valid) => Verify(s, sid, f, valid, e.at)
    case DoUnenroll(user, sid, f) => Unenroll(s, user, sid, f)
    case DoAdminDelete(f) => AdminDelete(s, f)
    case DoEnroll(user, sid, name, kind) => Enroll(cfg, s, user, sid, name, kind, e.at)
    case DoChallenge(f, outstanding) =>
      (if f in s.factors then s.(factors := s.factors[f := s.factors[f].(challenged := outstanding)]) else s, Done)
    case DoDropUnverified(f) => (DropUnverified(s, f), Done)
    case DoEndSessions(dead) => (DeleteSessions(s, dead), Done)
    case DoCreateUser(user) => (if user in s.users then s else s.(users := s.users[user := User(false, None)]), Done)
    case DoBan(user, until) =>
      (if user in s.users then s.(users := s.users[user := s.users[user].(bannedUntil := until)]) else s, Done)
    case DoRemoveUser(user, soft) => (RemoveUser(s, user, soft), Done)
    case DoCleanup(tokens, sessions) =>
      (if CleanupMay(cfg, s, tokens, sessions, e.at) then Cleanup(s, tokens, sessions) else s, Done)
  }

  ghost function Run(cfg: Config, s: State, es: seq<Event>): State {
    if es == [] then s else Apply(cfg, Run(cfg, s, es[..|es| - 1]), es[|es| - 1]).0
  }

  ghost predicate Reachable(cfg: Config, s: State) {
    exists es :: s == Run(cfg, EMPTY, es)
  }
}
