/** Which account an external sign-in resolves to, and what it writes on the way. */
module ExternalSignIn {
  import opened Prelude

  type Time = int
  type Id = string

  // "" is an absent address.
  datatype User = User(
    email: string, aud: string, sso: bool, deleted: bool, bannedUntil: Option<Time>,
    emailConfirmed: bool, phoneConfirmed: bool, password: bool)

  // The provider's id of the account; a released one names nothing at the provider any more.
  datatype ProviderId = Subject(sub: string) | Released(user: Id, provider: string, was: ProviderId)

  datatype Identity = Identity(user: Id, provider: string, pid: ProviderId, email: string)

  datatype State = State(users: map<Id, User>, identities: map<nat, Identity>)

  datatype ProviderEmail = ProviderEmail(email: string, verified: bool, primary: bool)

  datatype Config = Config(autoconfirm: bool, disableSignup: bool)

  /** One callback: what the provider said, and what the environment answers along the way. */
  datatype Request = Request(
    provider: string, sub: string, emails: seq<ProviderEmail>, aud: string, now: Time,
    bySubject: bool, subIsUserId: bool,
    freshUser: Id, freshIdentity: nat,
    hookRejects: bool, hookEmail: string, hookProfileEmail: Option<string>,
    mailRefused: bool)

  datatype Error =
    | Internal | Deleted | SignupDisabled | EmailExists | MultipleAccounts | Banned | MailRefused | NeedsVerification

  datatype Decision =
    | AccountExists(user: Id, identity: nat)
    | CreateAccount(id: Id)
    | LinkAccount(user: Id)
    | Ambiguous
    | Fails(error: Error)

  // A failure that commits keeps what was written before it.
  datatype Outcome = Resolved(user: Id, created: bool) | Failed(error: Error)

  predicate Confirmed(u: User) {
    u.emailConfirmed || u.phoneConfirmed
  }

  predicate IsBanned(u: User, now: Time) {
    u.bannedUntil.Some? && u.bannedUntil.value > now
  }

  // ---- what the provider's addresses say -------------------------------------------------

  function VerifiedEmails(emails: seq<ProviderEmail>, autoconfirm: bool): set<string> {
    set e | e in emails && (e.verified || autoconfirm) :: Lower(e.email)
  }

  /** The last primary address, lower-cased. */
  function Candidate(emails: seq<ProviderEmail>): ProviderEmail {
    if emails == [] then ProviderEmail("", false, false)
    else
      var e := emails[|emails| - 1];
      if e.primary then e.(email := Lower(e.email)) else Candidate(emails[..|emails| - 1])
  }

  /** The address kept in the identity: the first primary one, or else the last. */
  function ProfileEmail(emails: seq<ProviderEmail>): string {
    if emails == [] then ""
    else if emails[0].primary || |emails| == 1 then emails[0].email
    else ProfileEmail(emails[1..])
  }

  // ---- lookups -----------------------------------------------------------------------------

  predicate IsIdentity(s: State, i: nat, provider: string, pid: ProviderId) {
    i in s.identities && s.identities[i].provider == provider && s.identities[i].pid == pid
  }

  ghost function FindIdentity(s: State, provider: string, pid: ProviderId): Option<nat> {
    if i :| IsIdentity(s, i, provider, pid) then Some(i) else None
  }

  predicate OwnsEmail(s: State, u: Id, email: string, aud: string) {
    u in s.users && email != "" && Lower(s.users[u].email) == email && s.users[u].aud == aud && !s.users[u].sso
  }

  predicate SimilarUser(s: State, u: Id, emails: set<string>, aud: string) {
    u in s.users && s.users[u].email != "" && Lower(s.users[u].email) in emails
    && s.users[u].aud == aud && !s.users[u].sso && !s.users[u].deleted
  }

  predicate SsoProvider(p: string) {
    "sso:" <= p
  }

  predicate SimilarIdentity(s: State, i: nat, emails: set<string>) {
    i in s.identities && s.identities[i].email != "" && s.identities[i].email in emails
        && !SsoProvider(s.identities[i].provider)
  }

  function ReleasedId(s: State, i: nat): ProviderId
    requires i in s.identities
  {
    Released(s.identities[i].user, s.identities[i].provider, s.identities[i].pid)
  }

  /** Detaches the identity of a deleted user from the provider account it names. */
  function Release(s: State, i: nat): State
    requires i in s.identities
  {
    s.(identities := s.identities[i := s.identities[i].(pid := ReleasedId(s, i), email := "")])
  }

  // ---- deciding ------------------------------------------------------------------------------

  /** Everything after "no live identity yet", for providers that link by address. */
  ghost function ByEmail(cfg: Config, s: State, r: Request): (Decision, ProviderEmail) {
    var candidate := Candidate(r.emails);
    var verified := VerifiedEmails(r.emails, cfg.autoconfirm);
    if verified == {} then
      (CreateAccount(r.freshUser),
       if exists u :: OwnsEmail(s, u, candidate.email, r.aud) then candidate.(email := "") else candidate)
    else if i :| SimilarIdentity(s, i, verified) then
      if exists j :: SimilarIdentity(s, j, verified) && s.identities[j].user != s.identities[i].user
          then (Ambiguous, candidate)
      else (LinkAccount(s.identities[i].user), candidate)
    else if u :| SimilarUser(s, u, verified, r.aud) then
      if exists w :: SimilarUser(s, w, verified, r.aud) && w != u then (Ambiguous, candidate)
          else (LinkAccount(u), candidate)
    else (CreateAccount(r.freshUser), candidate)
  }

  /** The same for providers whose subject is the local user id. */
  function BySubject(s: State, r: Request): (Decision, ProviderEmail) {
    var candidate := Candidate(r.emails);
    if !r.subIsUserId then (Fails(Internal), candidate)
    else if r.sub in s.users then
      (if s.users[r.sub].deleted then Fails(Deleted) else LinkAccount(r.sub), candidate)
    else
      (CreateAccount(r.sub),
       if exists u :: u in s.users && OwnsEmail(s, u, candidate.email, r.aud) then candidate.(email := "")
           else candidate)
  }

  /** The decision, the candidate address, and the tables: a deleted user's identity is released on the way. */
  ghost function Decide(cfg: Config, s: State, r: Request): (State, Decision, ProviderEmail) {
    var found := FindIdentity(s, r.provider, Subject(r.sub));
    if found.Some? && s.identities[found.value].user !in s.users then (s, Fails(Internal), Candidate(r.emails))
    else if found.Some? && !s.users[s.identities[found.value].user].deleted then
      var u := s.identities[found.value].user;
      (s, AccountExists(u, found.value), Candidate(r.emails).(email := s.users[u].email))
    else if found.Some? && FindIdentity(s, r.provider, ReleasedId(s, found.value)).Some?
        then (s, Fails(Internal), Candidate(r.emails))
    else
      var s1 := if found.Some? then Release(s, found.value) else s;
      var (d, candidate) := if r.bySubject then BySubject(s1, r) else ByEmail(cfg, s1, r);
      (s1, d, candidate)
  }

  // ---- writing ---------------------------------------------------------------------------------

  function InsertIdentity(s: State, r: Request, user: Id, email: string): State {
    s.(identities := s.identities[r.freshIdentity := Identity(user, r.provider, Subject(r.sub), Lower(email))])
  }

  predicate EmailTaken(s: State, email: string) {
    exists u :: u in s.users && s.users[u].email == email && !s.users[u].sso
  }

  /** The rows of the resolved account, before the checks on it: (tables, user, identity, created). */
  function Write(cfg: Config, s: State, r: Request, d: Decision, candidate: ProviderEmail)
    : Result<(State, Id, nat, bool), Error>
  {
    match d
    case LinkAccount(u) => Ok((InsertIdentity(s, r, u, ProfileEmail(r.emails)), u, r.freshIdentity, false))
    case AccountExists(u, i) =>
      if i in s.identities
      then Ok((s.(identities := s.identities[i := s.identities[i].(email := Lower(ProfileEmail(r.emails)))]), u, i,
          false))
      else Err(Internal)
    case CreateAccount(u) =>
      if cfg.disableSignup || r.hookRejects then Err(SignupDisabled)
      else
        var email := if r.hookEmail != "" then r.hookEmail else candidate.email;
        if u in s.users || (email != "" && EmailTaken(s, email)) then Err(EmailExists)
        else
          var profile := if r.hookProfileEmail.Some? then r.hookProfileEmail.value else ProfileEmail(r.emails);
          var s1 := s.(users := s.users[u := User(email, r.aud, false, false, None, false, false, false)]);
          Ok((InsertIdentity(s1, r, u, profile), u, r.freshIdentity, true))
    case Ambiguous => Err(MultipleAccounts)
    case Fails(error) => Err(error)
  }

  /** Only the authenticating identity stays; a password set before the address was proven goes. */
  function RemoveUnconfirmed(s: State, u: Id, i: nat): State
    requires u in s.users && i in s.identities
  {
    var keepsPassword := s.identities[i].provider == "email" || s.identities[i].provider == "phone";
    s.(users := if keepsPassword then s.users else s.users[u := s.users[u].(password := false)],
       identities := map j | j in s.identities && (s.identities[j].user == u ==> j == i) :: s.identities[j])
  }

  function Finish(cfg: Config, s: State, r: Request, u: Id, i: nat, created: bool, candidate: ProviderEmail,
      before: State): (State, Outcome)
    requires u in s.users && i in s.identities
  {
    if IsBanned(s.users[u], r.now) then (before, Failed(Banned))
    else if Confirmed(s.users[u]) then (s, Resolved(u, created))
    else
      var s1 := RemoveUnconfirmed(s, u, i);
      if candidate.verified || cfg.autoconfirm then
        (s1.(users := s1.users[u := s1.users[u].(emailConfirmed := true)]), Resolved(u, created))
      else if candidate.email != "" && r.mailRefused then (before, Failed(MailRefused))
      else (s1, Failed(NeedsVerification))
  }

  /** The whole account resolution, as one transaction. */
  ghost function Resolve(cfg: Config, s: State, r: Request): (State, Outcome) {
    if r.sub == "" then (s, Failed(Internal))
    else
      var (s1, d, candidate) := Decide(cfg, s, r);
      match Write(cfg, s1, r, d, candidate)
      case Err(error) => (s, Failed(error))
      case Ok(w) => if w.1 in w.0.users && w.2 in w.0.identities
          then Finish(cfg, w.0, r, w.1, w.2, w.3, candidate, s) else (s, Failed(Internal))
  }

  // ---- what the tables keep -----------------------------------------------------------------

  predicate Unique(s: State) {
    forall i, j :: i in s.identities && j in s.identities && i != j ==>
      (s.identities[i].provider, s.identities[i].pid) != (s.identities[j].provider, s.identities[j].pid)
  }

  predicate Linked(s: State) {
    forall i :: i in s.identities ==> s.identities[i].user in s.users
  }

  predicate OneOwner(s: State) {
    forall u, w :: u in s.users && w in s.users && u != w && !s.users[u].sso && !s.users[w].sso ==>
      (s.users[u].email != "" ==> s.users[u].email != s.users[w].email)
  }

  predicate Sound(s: State) {
    Unique(s) && Linked(s) && OneOwner(s)
  }

  predicate Fresh(s: State, r: Request) {
    r.freshIdentity !in s.identities && r.freshUser !in s.users
  }

  /** Nobody has this provider account on a live user yet. */
  ghost predicate NoLiveIdentity(s: State, r: Request) {
    forall i :: IsIdentity(s, i, r.provider, Subject(r.sub)) ==>
        s.identities[i].user in s.users && s.users[s.identities[i].user].deleted
  }

  // ---- steps ------------------------------------------------------------------------------------

  lemma {:induction false} FoundOnlyOne(s: State, provider: string, pid: ProviderId, i: nat)
    requires Unique(s) && IsIdentity(s, i, provider, pid)
    ensures FindIdentity(s, provider, pid) == Some(i)
  {}

  /** A user's row and its identities are as they were. */
  ghost predicate SameAccount(s: State, s': State, u: Id)
    requires u in s.users
  {
    && u in s'.users && s'.users[u] == s.users[u]
    && (forall i :: i in s.identities && s.identities[i].user == u ==>
      i in s'.identities && s'.identities[i] == s.identities[i])
    && (forall i :: i in s'.identities && s'.identities[i].user == u ==>
      i in s.identities && s'.identities[i] == s.identities[i])
  }

  /** Deciding releases at most one identity, of a deleted user, and afterwards nobody has the provider account
      unless the decision says who. */
  ghost predicate Prepared(s: State, s1: State, r: Request, d: Decision) {
    && Sound(s1) && s1.users == s.users && s1.identities.Keys == s.identities.Keys
    && (forall u :: u in s.users && !s.users[u].deleted ==> SameAccount(s, s1, u))
    && (d.AccountExists? ==> s1 == s && d.user in s.users && !s.users[d.user].deleted)
    && (d.AccountExists? ==>
          IsIdentity(s, d.identity, r.provider, Subject(r.sub)) && s.identities[d.identity].user == d.user)
    && (d.LinkAccount? || d.CreateAccount? ==> forall i :: !IsIdentity(s1, i, r.provider, Subject(r.sub)))
    && (d.LinkAccount? ==> d.user in s.users)
  }

  lemma {:induction false} ReleaseKeeps(s: State, provider: string, i: nat)
    requires Sound(s) && i in s.identities && s.identities[i].provider == provider
    requires FindIdentity(s, provider, ReleasedId(s, i)).None?
    ensures Sound(Release(s, i))
  {
    hide FindIdentity, OneOwner;
    forall j ensures !IsIdentity(s, j, provider, ReleasedId(s, i)) { NoneFound(s, provider, ReleasedId(s, i), j); }
    var s' := Release(s, i);
    forall j | j in s.identities && j != i
      ensures (s.identities[j].provider, s.identities[j].pid) != (s'.identities[i].provider, s'.identities[i].pid)
    {
      assert !IsIdentity(s, j, provider, ReleasedId(s, i));
    }
    assert Unique(s');
    SameUsersOneOwner(s, s');
  }

  lemma {:induction false} SameUsersOneOwner(s: State, s': State)
    requires OneOwner(s) && s'.users == s.users
    ensures OneOwner(s')
  {}

  lemma {:induction false} NoneFound(s: State, provider: string, pid: ProviderId, j: nat)
    requires FindIdentity(s, provider, pid).None?
    ensures !IsIdentity(s, j, provider, pid)
  {}

  lemma {:induction false} ReleasedIsGone(s: State, r: Request, i: nat)
    requires Sound(s) && IsIdentity(s, i, r.provider, Subject(r.sub))
    ensures forall j :: !IsIdentity(Release(s, i), j, r.provider, Subject(r.sub))
  {}

  lemma {:induction false} DecidePrepares(cfg: Config, s: State, r: Request)
    requires Sound(s)
    ensures Prepared(s, Decide(cfg, s, r).0, r, Decide(cfg, s, r).1)
  {
    hide OneOwner, VerifiedEmails, Candidate;
    var found := FindIdentity(s, r.provider, Subject(r.sub));
    if found.Some? && FindIdentity(s, r.provider, ReleasedId(s, found.value)).None? {
      ReleaseKeeps(s, r.provider, found.value);
      ReleasedIsGone(s, r, found.value);
    }
  }

  /** The written rows: the account and its authenticating identity are there, and nobody else's changed. */
  ghost predicate Written(s1: State, s2: State, r: Request, u: Id, i: nat, created: bool) {
    && Sound(s2) && u in s2.users && i in s2.identities
    && s2.identities[i].user == u && s2.identities[i].provider == r.provider && s2.identities[i].pid == Subject(r.sub)
    && (created <==> u !in s1.users) && (u in s1.users ==> s2.users == s1.users)
    && (created ==> s2.users - {u} == s1.users && !Confirmed(s2.users[u]) && !s2.users[u].password)
    && (forall w :: w in s1.users && w != u ==> SameAccount(s1, s2, w))
  }

  lemma {:induction false} LinkWrites(s: State, r: Request, u: Id, email: string)
    requires Sound(s) && u in s.users && r.freshIdentity !in s.identities
    requires forall i :: !IsIdentity(s, i, r.provider, Subject(r.sub))
    ensures Written(s, InsertIdentity(s, r, u, email), r, u, r.freshIdentity, false)
  {
    hide Lower, Unique;
    InsertKeeps(s, r, u, email);
  }

  lemma {:induction false} CreateWrites(s: State, r: Request, u: Id, email: string, profile: string)
    requires Sound(s) && u !in s.users && r.freshIdentity !in s.identities
    requires forall i :: !IsIdentity(s, i, r.provider, Subject(r.sub))
    requires email != "" ==> !EmailTaken(s, email)
    ensures var s1 := s.(users := s.users[u := User(email, r.aud, false, false, None, false, false, false)]);
            Written(s, InsertIdentity(s1, r, u, profile), r, u, r.freshIdentity, true)
  {
    hide Lower, Unique;
    var s1 := s.(users := s.users[u := User(email, r.aud, false, false, None, false, false, false)]);
    assert s1.users - {u} == s.users;
    assert forall i :: IsIdentity(s1, i, r.provider, Subject(r.sub)) ==> IsIdentity(s, i, r.provider, Subject(r.sub));
    SameIdentitiesUnique(s, s1);
    InsertKeeps(s1, r, u, profile);
  }

  lemma {:induction false} SameIdentitiesUnique(s: State, s1: State)
    requires Unique(s) && s1.identities == s.identities
    ensures Unique(s1)
  {}

  lemma {:induction false} ReturnWrites(s: State, r: Request, u: Id, i: nat, email: string)
    requires Sound(s) && u in s.users && IsIdentity(s, i, r.provider, Subject(r.sub)) && s.identities[i].user == u
    ensures Written(s, s.(identities := s.identities[i := s.identities[i].(email := email)]), r, u, i, false)
  {}

  lemma {:induction false} WriteWrites(cfg: Config, s: State, s1: State, r: Request, d: Decision,
      candidate: ProviderEmail)
    requires Prepared(s, s1, r, d) && Fresh(s, r)
    requires Write(cfg, s1, r, d, candidate).Ok?
    ensures var w := Write(cfg, s1, r, d, candidate).value; Written(s1, w.0, r, w.1, w.2, w.3)
  {
    hide ProfileEmail, Lower, Sound, Written, InsertIdentity, SameAccount;
    match d
    case LinkAccount(u) => LinkWrites(s1, r, u, ProfileEmail(r.emails));
    case CreateAccount(u) =>
      CreateWrites(s1, r, u, if r.hookEmail != "" then r.hookEmail else candidate.email,
        if r.hookProfileEmail.Some? then r.hookProfileEmail.value else ProfileEmail(r.emails));
    case AccountExists(u, i) => ReturnWrites(s1, r, u, i, Lower(ProfileEmail(r.emails)));
    case _ =>
  }

  lemma {:induction false} InsertKeeps(s: State, r: Request, u: Id, email: string)
    requires Unique(s) && Linked(s) && u in s.users && r.freshIdentity !in s.identities
    requires forall i :: !IsIdentity(s, i, r.provider, Subject(r.sub))
    ensures Unique(InsertIdentity(s, r, u, email)) && Linked(InsertIdentity(s, r, u, email))
  {
    hide Lower;
    assert forall i :: i in s.identities ==> !IsIdentity(s, i, r.provider, Subject(r.sub));
  }

  /** The account's only identity is the one that just authenticated. */
  ghost predicate OnlyIdentity(s: State, r: Request, u: Id) {
    exists i :: IsIdentity(s, i, r.provider, Subject(r.sub)) && s.identities[i].user == u
      && forall j :: j in s.identities && s.identities[j].user == u ==> j == i
  }

  lemma {:induction false} RemoveSound(s: State, u: Id, i: nat)
    requires Sound(s) && u in s.users && i in s.identities
    ensures Sound(RemoveUnconfirmed(s, u, i))
  {}

  lemma {:induction false} RemoveKeeps(s1: State, s2: State, r: Request, u: Id, i: nat, created: bool)
    requires Written(s1, s2, r, u, i, created) && r.provider != "email" && r.provider != "phone"
    ensures var s3 := RemoveUnconfirmed(s2, u, i);
            && Sound(s3) && OnlyIdentity(s3, r, u) && !s3.users[u].password && s3.users == s2.users[u := s3.users[u]]
            && s3.users[u] == s2.users[u].(password := false)
            && (forall w :: w in s1.users && w != u ==> SameAccount(s1, s3, w))
  {
    RemoveSound(s2, u, i);
    hide Sound;
    var s3 := RemoveUnconfirmed(s2, u, i);
    assert IsIdentity(s3, i, r.provider, Subject(r.sub)) && s3.identities[i].user == u;
  }

  lemma {:induction false} ConfirmKeeps(s1: State, s3: State, r: Request, u: Id)
    requires Sound(s3) && OnlyIdentity(s3, r, u) && u in s3.users && !s3.users[u].password
    requires forall w :: w in s1.users && w != u ==> SameAccount(s1, s3, w)
    ensures var s' := s3.(users := s3.users[u := s3.users[u].(emailConfirmed := true)]);
            && Sound(s') && OnlyIdentity(s', r, u) && !s'.users[u].password && Confirmed(s'.users[u])
            && (forall w :: w in s1.users && w != u ==> SameAccount(s1, s', w))
  {
    var s' := s3.(users := s3.users[u := s3.users[u].(emailConfirmed := true)]);
    var i :| IsIdentity(s3, i, r.provider, Subject(r.sub)) && s3.identities[i].user == u
      && forall j :: j in s3.identities && s3.identities[j].user == u ==> j == i;
    assert IsIdentity(s', i, r.provider, Subject(r.sub));
    SameIdentitiesUnique(s3, s');
  }

  /** The authenticating identity is on file for this user. */
  ghost predicate HasIdentity(s: State, r: Request, u: Id) {
    exists i :: IsIdentity(s, i, r.provider, Subject(r.sub)) && s.identities[i].user == u
  }

  /** How a resolution ends. */
  ghost predicate Ended(s: State, s1: State, s2: State, r: Request, u: Id, created: bool, s': State, outcome: Outcome,
      proven: bool) {
    && Sound(s')
    && (outcome.Resolved? ==> outcome == Resolved(u, created) && u in s'.users && Confirmed(s'.users[u]))
    && (outcome.Resolved? ==> HasIdentity(s', r, u))
    && (outcome.Resolved? && u in s2.users && !Confirmed(s2.users[u]) ==>
      OnlyIdentity(s', r, u) && !s'.users[u].password && proven)
    && (s' != s ==> s'.users.Keys == s2.users.Keys && forall w :: w in s1.users && w != u ==> SameAccount(s1, s', w))
  }

  lemma {:induction false} FinishFinishes(cfg: Config, s: State, s2: State, r: Request, u: Id, i: nat, created: bool,
      candidate: ProviderEmail, s1: State)
    requires Written(s1, s2, r, u, i, created) && r.provider != "email" && r.provider != "phone" && Sound(s)
    ensures var (s', outcome) := Finish(cfg, s2, r, u, i, created, candidate, s);
            Ended(s, s1, s2, r, u, created, s', outcome, candidate.verified || cfg.autoconfirm)
  {
    hide Sound, SameAccount, RemoveUnconfirmed;
    assert IsIdentity(s2, i, r.provider, Subject(r.sub)) && HasIdentity(s2, r, u);
    if !IsBanned(s2.users[u], r.now) && !Confirmed(s2.users[u]) {
      RemoveKeeps(s1, s2, r, u, i, created);
      var s3 := RemoveUnconfirmed(s2, u, i);
      ConfirmKeeps(s1, s3, r, u);
      assert s3.users.Keys == s2.users.Keys;
    }
  }

  // ---- properties ------------------------------------------------------------------------------

  /** A resolved user is confirmed, and if it was not before, only the authenticating identity is left and its
      password is gone; the tables stay sound whatever the outcome. */
  lemma {:induction false} ResolvedIsConfirmed(cfg: Config, s: State, r: Request)
    requires Sound(s) && Fresh(s, r) && r.provider != "email" && r.provider != "phone"
    ensures var (s', outcome) := Resolve(cfg, s, r);
            && Sound(s')
            && (outcome.Resolved? ==>
                  var u := outcome.user;
                  && u in s'.users && Confirmed(s'.users[u]) && (outcome.created <==> u !in s.users)
                  && HasIdentity(s', r, u)
                  && ((u in s.users && Confirmed(s.users[u])) || (OnlyIdentity(s', r, u) && !s'.users[u].password)))
  {
    hide Decide, Write, Finish, Sound, OnlyIdentity;
    if r.sub != "" {
      var (s1, d, candidate) := Decide(cfg, s, r);
      DecidePrepares(cfg, s, r);
      if Write(cfg, s1, r, d, candidate).Ok? {
        WriteWrites(cfg, s, s1, r, d, candidate);
        var w := Write(cfg, s1, r, d, candidate).value;
        FinishFinishes(cfg, s, w.0, r, w.1, w.2, w.3, candidate, s1);
      }
    }
  }

  /** Who the decision is about; nobody else's account is touched, live accounts that is. */
  ghost function Target(cfg: Config, s: State, r: Request): Option<Id> {
    var d := Decide(cfg, s, r).1;
    match d
    case AccountExists(u, _) => Some(u)
    case LinkAccount(u) => Some(u)
    case CreateAccount(u) => Some(u)
    case _ => None
  }

  lemma {:induction false} SameThrough(s: State, s1: State, s2: State, u: Id)
    requires u in s.users && SameAccount(s, s1, u) && SameAccount(s1, s2, u)
    ensures SameAccount(s, s2, u)
  {}

  lemma {:induction false} WriteTargets(cfg: Config, s: State, s1: State, r: Request, d: Decision,
      candidate: ProviderEmail)
    requires Write(cfg, s1, r, d, candidate).Ok?
    ensures d.AccountExists? || d.LinkAccount? || d.CreateAccount?
    ensures Write(cfg, s1, r, d, candidate).value.1 ==
            (match d case AccountExists(u, _) => u case LinkAccount(u) => u case CreateAccount(u) => u case _ => "")
  {
    hide ProfileEmail, Lower;
  }

  /** Whatever the outcome, no live account other than the decision's own changes. */
  lemma {:induction false} OthersUntouched(cfg: Config, s: State, r: Request, u: Id)
    requires Sound(s) && Fresh(s, r) && r.provider != "email" && r.provider != "phone"
    requires u in s.users && !s.users[u].deleted && Target(cfg, s, r) != Some(u)
    ensures SameAccount(s, Resolve(cfg, s, r).0, u)
  {
    hide Decide, Write, Finish, Sound, SameAccount;
    Unchanged(s, u);
    if r.sub != "" {
      var (s1, d, candidate) := Decide(cfg, s, r);
      DecidePrepares(cfg, s, r);
      if Write(cfg, s1, r, d, candidate).Ok? {
        WriteWrites(cfg, s, s1, r, d, candidate);
        WriteTargets(cfg, s, s1, r, d, candidate);
        var w := Write(cfg, s1, r, d, candidate).value;
        FinishFinishes(cfg, s, w.0, r, w.1, w.2, w.3, candidate, s1);
        var s' := Resolve(cfg, s, r).0;
        if s' != s { SameThrough(s, s1, s', u); }
      }
    }
  }

  lemma {:induction false} Unchanged(s: State, u: Id)
    requires u in s.users
    ensures SameAccount(s, s, u)
  {}

  /** With autoconfirm off, a provider that proves no address and has no live account here cannot sign anyone in,
      and leaves every live account as it was; a new account it may leave behind is unconfirmed. */
  lemma {:induction false} NothingProvenNothingGiven(cfg: Config, s: State, r: Request)
    requires Sound(s) && Fresh(s, r) && r.provider != "email" && r.provider != "phone"
    requires !cfg.autoconfirm && !r.bySubject && NoLiveIdentity(s, r)
    requires forall i :: 0 <= i < |r.emails| ==> !r.emails[i].verified
    ensures Resolve(cfg, s, r).1.Failed?
    ensures forall u :: u in s.users && !s.users[u].deleted ==> SameAccount(s, Resolve(cfg, s, r).0, u)
    ensures forall u :: u in Resolve(cfg, s, r).0.users && u !in s.users ==> !Confirmed(Resolve(cfg, s, r).0.users[u])
  {
    NothingProvenCreates(cfg, s, r);
    forall u | u in s.users && !s.users[u].deleted ensures SameAccount(s, Resolve(cfg, s, r).0, u) {
      OthersUntouched(cfg, s, r, u);
    }
    hide Decide, Write, Finish, Sound, SameAccount;
    if r.sub != "" {
      var (s1, d, candidate) := Decide(cfg, s, r);
      DecidePrepares(cfg, s, r);
      if Write(cfg, s1, r, d, candidate).Ok? {
        WriteWrites(cfg, s, s1, r, d, candidate);
        WriteTargets(cfg, s, s1, r, d, candidate);
        var w := Write(cfg, s1, r, d, candidate).value;
        FinishFinishes(cfg, s, w.0, r, w.1, w.2, w.3, candidate, s1);
        UnprovenStaysOut(cfg, w.0, r, w.1, w.2, w.3, candidate, s);
      }
    }
  }

  lemma {:induction false} UnprovenStaysOut(cfg: Config, s2: State, r: Request, u: Id, i: nat, created: bool,
      candidate: ProviderEmail,
      s: State)
    requires u in s2.users && i in s2.identities && !Confirmed(s2.users[u]) && !candidate.verified && !cfg.autoconfirm
    ensures var (s', outcome) := Finish(cfg, s2, r, u, i, created, candidate, s);
            outcome.Failed? && (s' == s || (u in s'.users && !Confirmed(s'.users[u]) && s'.users.Keys == s2.users.Keys))
  {}

  lemma {:induction false} CandidateListed(emails: seq<ProviderEmail>)
    ensures Candidate(emails).verified ==>
        exists i :: 0 <= i < |emails| && emails[i].verified && emails[i].primary
            && Candidate(emails).email == Lower(emails[i].email)
  {
    if emails != [] && !emails[|emails| - 1].primary {
      CandidateListed(emails[..|emails| - 1]);
    }
  }

  lemma {:induction false} NothingProvenCreates(cfg: Config, s: State, r: Request)
    requires Sound(s) && !cfg.autoconfirm && !r.bySubject && NoLiveIdentity(s, r)
    requires forall i :: 0 <= i < |r.emails| ==> !r.emails[i].verified
    ensures var (_, d, candidate) := Decide(cfg, s, r);
            !candidate.verified && (d == CreateAccount(r.freshUser) || d.Fails?)
  {
    CandidateListed(r.emails);
    assert forall e :: e in r.emails ==> !e.verified;
    assert VerifiedEmails(r.emails, false) == {};
    hide Lower, Candidate, VerifiedEmails;
    var found := FindIdentity(s, r.provider, Subject(r.sub));
    if found.Some? { assert IsIdentity(s, found.value, r.provider, Subject(r.sub)); }
  }

  /** An address the provider vouches for that leads to this account. */
  ghost predicate Proof(s: State, r: Request, u: Id, email: string) {
    || (SimilarUser(s, u, {email}, r.aud))
    || (exists i :: SimilarIdentity(s, i, {email}) && s.identities[i].user == u)
  }

  /** An existing account is joined through an address only if a verified one leads to it, and no verified address
      leads to anyone else's identity. */
  lemma {:induction false} JoinsOnlyThroughProof(cfg: Config, s: State, r: Request)
    requires Sound(s) && !r.bySubject && NoLiveIdentity(s, r) && Decide(cfg, s, r).1.LinkAccount?
    ensures var (s1, d, _) := Decide(cfg, s, r);
            var verified := VerifiedEmails(r.emails, cfg.autoconfirm);
            && (exists e :: e in verified && Proof(s1, r, d.user, e))
            && (forall i :: SimilarIdentity(s1, i, verified) ==> s1.identities[i].user == d.user)
  {
    hide Candidate, VerifiedEmails, Lower, Sound;
    var (s1, d, _) := Decide(cfg, s, r);
    var found := FindIdentity(s, r.provider, Subject(r.sub));
    if found.Some? { assert IsIdentity(s, found.value, r.provider, Subject(r.sub)); }
    LinkProof(cfg, s1, r);
  }

  lemma {:induction false} LinkProof(cfg: Config, s: State, r: Request)
    requires ByEmail(cfg, s, r).0.LinkAccount?
    ensures var d := ByEmail(cfg, s, r).0;
            var verified := VerifiedEmails(r.emails, cfg.autoconfirm);
            && (exists e :: e in verified && Proof(s, r, d.user, e))
            && (forall i :: SimilarIdentity(s, i, verified) ==> s.identities[i].user == d.user)
  {
    hide Candidate, VerifiedEmails, Lower;
    var verified := VerifiedEmails(r.emails, cfg.autoconfirm);
    var u := ByEmail(cfg, s, r).0.user;
    if i :| SimilarIdentity(s, i, verified) && s.identities[i].user == u {
      assert SimilarIdentity(s, i, {s.identities[i].email});
      assert Proof(s, r, u, s.identities[i].email);
    } else {
      assert SimilarUser(s, u, verified, r.aud);
      assert SimilarUser(s, u, {Lower(s.users[u].email)}, r.aud);
      assert Proof(s, r, u, Lower(s.users[u].email));
    }
  }

  // ---- which address is confirmed ----------------------------------------------------------------

  /** The provider vouches for the address, or the instance takes its word. */
  predicate Proven(cfg: Config, r: Request, email: string) {
    email != "" && Lower(email) in VerifiedEmails(r.emails, cfg.autoconfirm)
  }

  /** The sign-in confirms an account with an address nobody vouched for. */
  ghost predicate ConfirmsUnproven(cfg: Config, s: State, r: Request) {
    var (s', outcome) := Resolve(cfg, s, r);
    && outcome.Resolved? && outcome.user in s'.users && !Proven(cfg, r, s'.users[outcome.user].email)
    && (outcome.user in s.users ==> !Confirmed(s.users[outcome.user]))
  }

  /** The decision is for an account there already, one the rest of the sign-in will confirm: it is unconfirmed, not
      banned, and the provider calls its primary address verified, whichever that is, or autoconfirm is on. */
  predicate ConfirmsExisting(cfg: Config, s: State, r: Request, d: Decision, candidate: ProviderEmail) {
    && (d.AccountExists? || d.LinkAccount?)
    && d.user in s.users && !Confirmed(s.users[d.user]) && !IsBanned(s.users[d.user], r.now)
    && (candidate.verified || cfg.autoconfirm)
  }

  /** The decision is for a new account that can be created and will be confirmed. */
  predicate ConfirmsNew(cfg: Config, s: State, r: Request, d: Decision, candidate: ProviderEmail) {
    && d.CreateAccount? && !cfg.disableSignup && !r.hookRejects && d.id !in s.users
    && !(NewAddress(r, candidate) != "" && EmailTaken(s, NewAddress(r, candidate)))
    && (candidate.verified || cfg.autoconfirm)
  }

  function NewAddress(r: Request, candidate: ProviderEmail): string {
    if r.hookEmail != "" then r.hookEmail else candidate.email
  }

  lemma {:induction false} FinishAddress(
      cfg: Config, s2: State, r: Request, u: Id, i: nat, created: bool, candidate: ProviderEmail, s: State)
    requires u in s2.users && i in s2.identities && Finish(cfg, s2, r, u, i, created, candidate, s).1.Resolved?
    ensures var s' := Finish(cfg, s2, r, u, i, created, candidate, s).0;
            && u in s'.users && s'.users[u].email == s2.users[u].email
            && (!Confirmed(s2.users[u]) ==> candidate.verified || cfg.autoconfirm)
  {}

  lemma {:induction false} WriteAddress(cfg: Config, s: State, s1: State, r: Request, d: Decision,
      candidate: ProviderEmail)
    requires Prepared(s, s1, r, d) && Write(cfg, s1, r, d, candidate).Ok?
    ensures var (s2, u, _, created) := Write(cfg, s1, r, d, candidate).value;
            && (created <==> d.CreateAccount?) && (created <==> u !in s.users) && u in s2.users
            && (created ==> s2.users[u].email == if r.hookEmail != "" then r.hookEmail else candidate.email)
            && (!created ==> s2.users[u].email == s.users[u].email)
  {
    hide Lower, ProfileEmail, SameAccount, Sound;
  }

  lemma {:induction false} NewCandidate(cfg: Config, s: State, r: Request)
    requires Decide(cfg, s, r).1.CreateAccount?
    ensures var e := Decide(cfg, s, r).2;
            e.email == "" || e == Candidate(r.emails)
    ensures Decide(cfg, s, r).2.verified == Candidate(r.emails).verified
  {
    hide Candidate, VerifiedEmails, Lower;
  }

  lemma {:induction false} LowerTwice(v: string)
    ensures Lower(Lower(v)) == Lower(v)
  {}

  lemma {:induction false} CandidateProven(cfg: Config, r: Request)
    requires Candidate(r.emails).email != "" && (Candidate(r.emails).verified || cfg.autoconfirm)
    ensures Proven(cfg, r, Candidate(r.emails).email)
  {
    CandidateFrom(r.emails);
    var i :| 0 <= i < |r.emails| && Candidate(r.emails).verified == r.emails[i].verified
             && Candidate(r.emails).email == Lower(r.emails[i].email);
    LowerTwice(r.emails[i].email);
    assert r.emails[i] in r.emails;
  }

  lemma {:induction false} CandidateFrom(emails: seq<ProviderEmail>)
    ensures Candidate(emails).email == "" ||
            (exists i :: 0 <= i < |emails| && Candidate(emails).verified == emails[i].verified
               && Candidate(emails).email == Lower(emails[i].email))
  {
    if emails != [] && !emails[|emails| - 1].primary {
      CandidateFrom(emails[..|emails| - 1]);
    }
  }

  lemma {:induction false} FinishResolves(
      cfg: Config, s2: State, r: Request, u: Id, i: nat, created: bool, candidate: ProviderEmail, s: State)
    requires u in s2.users && i in s2.identities && !Confirmed(s2.users[u])
    ensures Finish(cfg, s2, r, u, i, created, candidate, s).1.Resolved? <==>
            !IsBanned(s2.users[u], r.now) && (candidate.verified || cfg.autoconfirm)
    ensures Finish(cfg, s2, r, u, i, created, candidate, s).1.Resolved? ==>
            Finish(cfg, s2, r, u, i, created, candidate, s).1 == Resolved(u, created)
  {}

  /** Which decisions can be written, for which user, and what that user looks like. */
  lemma {:induction false} WriteSucceeds(
      cfg: Config, s: State, s1: State, r: Request, d: Decision, candidate: ProviderEmail)
    requires Prepared(s, s1, r, d)
    ensures Write(cfg, s1, r, d, candidate).Ok? <==>
            || d.AccountExists? || d.LinkAccount?
            || (d.CreateAccount? && !cfg.disableSignup && !r.hookRejects && d.id !in s.users
                && !(NewAddress(r, candidate) != "" && EmailTaken(s, NewAddress(r, candidate))))
    ensures Write(cfg, s1, r, d, candidate).Ok? ==>
              var (s2, u, _, _) := Write(cfg, s1, r, d, candidate).value;
              && (d.AccountExists? || d.LinkAccount? ==> u == d.user && s2.users == s.users)
              && (d.CreateAccount? ==> u == d.id && u in s2.users)
              && (d.CreateAccount? ==>
                    s2.users[u] == User(NewAddress(r, candidate), r.aud, false, false, None, false, false, false))
  {
    hide Lower, ProfileEmail, SameAccount, Sound;
    assert forall e :: EmailTaken(s1, e) <==> EmailTaken(s, e);
  }

  /** Exactly when a sign-in confirms an address that was not proven. Either the account was there, and its stored
      address, which nothing compares with the one the provider verified, is not proven; or it is new, and its address
      is a hook's that is not proven, or it has none. */
  lemma {:induction false} ConfirmsUnprovenExactlyIf(cfg: Config, s: State, r: Request)
    requires Sound(s) && Fresh(s, r)
    ensures var (_, d, candidate) := Decide(cfg, s, r);
            ConfirmsUnproven(cfg, s, r) <==>
              && r.sub != ""
              && (|| (ConfirmsExisting(cfg, s, r, d, candidate) && !Proven(cfg, r, s.users[d.user].email))
                  || (ConfirmsNew(cfg, s, r, d, candidate)
                      && if r.hookEmail != "" then !Proven(cfg, r, r.hookEmail) else candidate.email == ""))
  {
    hide Decide, Write, Finish, Sound, Proven, Candidate, EmailTaken;
    var (s1, d, candidate) := Decide(cfg, s, r);
    DecidePrepares(cfg, s, r);
    WriteSucceeds(cfg, s, s1, r, d, candidate);
    if r.sub != "" && Write(cfg, s1, r, d, candidate).Ok? {
      var w := Write(cfg, s1, r, d, candidate).value;
      WriteAddress(cfg, s, s1, r, d, candidate);
      WriteWrites(cfg, s, s1, r, d, candidate);
      if !Confirmed(w.0.users[w.1]) {
        FinishResolves(cfg, w.0, r, w.1, w.2, w.3, candidate, s);
        if Finish(cfg, w.0, r, w.1, w.2, w.3, candidate, s).1.Resolved? {
          FinishAddress(cfg, w.0, r, w.1, w.2, w.3, candidate, s);
          if d.CreateAccount? { NewAddressProven(cfg, s, r); }
        }
      } else if Finish(cfg, w.0, r, w.1, w.2, w.3, candidate, s).1.Resolved? {
        ResolvedIsWritten(cfg, w.0, r, w.1, w.2, w.3, candidate, s);
      }
    }
  }

  lemma {:induction false} NewAddressProven(cfg: Config, s: State, r: Request)
    requires Decide(cfg, s, r).1.CreateAccount? && (Decide(cfg, s, r).2.verified || cfg.autoconfirm)
    ensures var candidate := Decide(cfg, s, r).2;
            Proven(cfg, r, NewAddress(r, candidate)) <==>
            if r.hookEmail != "" then Proven(cfg, r, r.hookEmail) else candidate.email != ""
  {
    hide Decide, Proven, Candidate;
    NewCandidate(cfg, s, r);
    NoAddressProven(cfg, r);
    if Decide(cfg, s, r).2.email != "" { CandidateProven(cfg, r); }
  }

  /** A link through the account's own address always proves it: so an existing account is confirmed unproven only when
      it returns, is linked by subject, or is joined through the address of another of its identities. */
  lemma {:induction false} OwnAddressIsProven(cfg: Config, s: State, r: Request)
    requires Sound(s) && !r.bySubject && NoLiveIdentity(s, r) && Decide(cfg, s, r).1.LinkAccount?
    ensures var (s1, d, _) := Decide(cfg, s, r);
            && d.user in s.users
            && (Proven(cfg, r, s.users[d.user].email)
                || exists i :: SimilarIdentity(s1, i, VerifiedEmails(r.emails, cfg.autoconfirm))
                     && s1.identities[i].user == d.user)
  {
    hide Candidate, VerifiedEmails, Lower, Sound;
    DecidePrepares(cfg, s, r);
    var (s1, d, _) := Decide(cfg, s, r);
    var found := FindIdentity(s, r.provider, Subject(r.sub));
    if found.Some? { assert IsIdentity(s, found.value, r.provider, Subject(r.sub)); }
    OwnAddressLink(cfg, s1, r);
  }

  lemma {:induction false} OwnAddressLink(cfg: Config, s: State, r: Request)
    requires ByEmail(cfg, s, r).0.LinkAccount?
    ensures var u := ByEmail(cfg, s, r).0.user;
            var verified := VerifiedEmails(r.emails, cfg.autoconfirm);
            || (u in s.users && Proven(cfg, r, s.users[u].email))
            || exists i :: SimilarIdentity(s, i, verified) && s.identities[i].user == u
  {
    hide Candidate, VerifiedEmails, Lower;
  }

  lemma {:induction false} NoAddressProven(cfg: Config, r: Request)
    ensures !Proven(cfg, r, "")
  {}

  lemma {:induction false} ResolvedIsWritten(
      cfg: Config, s2: State, r: Request, u: Id, i: nat, created: bool, candidate: ProviderEmail, s: State)
    requires u in s2.users && i in s2.identities && Finish(cfg, s2, r, u, i, created, candidate, s).1.Resolved?
    ensures Finish(cfg, s2, r, u, i, created, candidate, s).1 == Resolved(u, created)
  {}

  const RETURNING := State(
    map["u" := User("x", "web", false, false, None, false, false, false)],
    map[0 := Identity("u", "google", Subject("1"), "x")])

  const OTHER_ADDRESS := Request("google", "1", [ProviderEmail("y", true, true)], "web", 0, false, true, "v", 1,
                                 false, "", None, false)

  /** It need not have been: an unconfirmed user that comes back keeps its own address, and the provider's word for
      another one confirms it. */
  lemma {:induction false} ConfirmsAnUnprovenAddress()
    ensures var cfg := Config(false, false);
            && Sound(RETURNING) && Fresh(RETURNING, OTHER_ADDRESS)
            && Resolve(cfg, RETURNING, OTHER_ADDRESS).1 == Resolved("u", false)
            && Resolve(cfg, RETURNING, OTHER_ADDRESS).0.users["u"].emailConfirmed
            && Resolve(cfg, RETURNING, OTHER_ADDRESS).0.users["u"].email == "x"
            && !Proven(cfg, OTHER_ADDRESS, "x")
  {
    var cfg := Config(false, false);
    var s, r := RETURNING, OTHER_ADDRESS;
    assert IsIdentity(s, 0, "google", Subject("1"));
    FoundOnlyOne(s, "google", Subject("1"), 0);
    OtherCandidate();
    hide Lower, Candidate, VerifiedEmails, ProfileEmail;
    assert Decide(cfg, s, r) == (s, AccountExists("u", 0), ProviderEmail("x", true, true));
    hide Decide, FindIdentity;
    var s2 := s.(identities := s.identities[0 := s.identities[0].(email := Lower(ProfileEmail(r.emails)))]);
    assert Write(cfg, s, r, AccountExists("u", 0), ProviderEmail("x", true, true)) == Ok((s2, "u", 0, false));
  }

  lemma {:induction false} OtherCandidate()
    ensures Candidate(OTHER_ADDRESS.emails) == ProviderEmail("y", true, true)
    ensures !Proven(Config(false, false), OTHER_ADDRESS, "x")
  {
    assert Lower("y") == "y" && Lower("x") == "x";
  }

  // ---- the handlers as they run --------------------------------------------------------------

  /** One pass over the provider's addresses. */
  method ReadEmails(emails: seq<ProviderEmail>, autoconfirm: bool)
      returns (verified: set<string>, candidate: ProviderEmail)
    ensures verified == VerifiedEmails(emails, autoconfirm) && candidate == Candidate(emails)
  {
    verified, candidate := {}, ProviderEmail("", false, false);
    for n := 0 to |emails|
      invariant verified == VerifiedEmails(emails[..n], autoconfirm) && candidate == Candidate(emails[..n])
    {
      var e := emails[n];
      assert emails[..n + 1] == emails[..n] + [e];
      assert (emails[..n] + [e])[..n] == emails[..n];
      if e.verified || autoconfirm {
        verified := verified + {Lower(e.email)};
      }
      if e.primary {
        candidate := e.(email := Lower(e.email));
      }
    }
    assert emails[..|emails|] == emails;
  }

  class Directory {
    var users: map<Id, User>
    var identities: map<nat, Identity>

    function View(): State
      reads this
    {
      State(users, identities)
    }

    constructor (s: State)
      ensures View() == s
    {
      users, identities := s.users, s.identities;
    }

    method FindByProvider(provider: string, pid: ProviderId) returns (found: Option<nat>)
      requires Unique(View())
      ensures found == FindIdentity(View(), provider, pid)
    {
      if i :| i in identities && identities[i].provider == provider && identities[i].pid == pid {
        FoundOnlyOne(View(), provider, pid, i);
        return Some(i);
      }
      assert forall i :: !IsIdentity(View(), i, provider, pid);
      return None;
    }

    method LinkByEmail(cfg: Config, r: Request, verified: set<string>, read: ProviderEmail)
        returns (d: Decision, candidate: ProviderEmail)
      requires verified == VerifiedEmails(r.emails, cfg.autoconfirm) && read == Candidate(r.emails)
      ensures (d, candidate) == ByEmail(cfg, View(), r)
    {
      candidate := read;
      if verified == {} {
        if exists u :: u in users && OwnsEmail(View(), u, candidate.email, r.aud) {
          candidate := candidate.(email := "");
        }
        return CreateAccount(r.freshUser), candidate;
      }
      if i :| i in identities && SimilarIdentity(View(), i, verified) {
        if exists j :: j in identities && SimilarIdentity(View(), j, verified)
            && identities[j].user != identities[i].user {
          return Ambiguous, candidate;
        }
        return LinkAccount(identities[i].user), candidate;
      }
      if u :| u in users && SimilarUser(View(), u, verified, r.aud) {
        if exists w :: w in users && SimilarUser(View(), w, verified, r.aud) && w != u {
          return Ambiguous, candidate;
        }
        return LinkAccount(u), candidate;
      }
      return CreateAccount(r.freshUser), candidate;
    }

    method DetermineAccountLinking(cfg: Config, r: Request) returns (d: Decision, candidate: ProviderEmail)
      requires Sound(View())
      modifies this
      ensures (View(), d, candidate) == Decide(cfg, old(View()), r)
    {
      hide Candidate, VerifiedEmails, FindIdentity, ByEmail, BySubject;
      var verified;
      verified, candidate := ReadEmails(r.emails, cfg.autoconfirm);
      var found := FindByProvider(r.provider, Subject(r.sub));
      InDomain(View(), r.provider, Subject(r.sub));
      if found.Some? {
        var i := found.value;
        var u := identities[i].user;
        if u !in users {
          return Fails(Internal), candidate;
        }
        if !users[u].deleted {
          return AccountExists(u, i), candidate.(email := users[u].email);
        }
        var clash := FindByProvider(r.provider, ReleasedId(View(), i));
        if clash.Some? {
          return Fails(Internal), candidate;
        }
        identities := identities[i := identities[i].(pid := ReleasedId(View(), i), email := "")];
      }
      if r.bySubject {
        var chosen := BySubject(View(), r);
        d, candidate := chosen.0, chosen.1;
      } else {
        d, candidate := LinkByEmail(cfg, r, verified, candidate);
      }
    }

    /** The rows of the decided account. */
    method Apply(cfg: Config, r: Request, d: Decision, candidate: ProviderEmail)
        returns (written: Result<(Id, nat, bool), Error>)
      modifies this
      ensures match Write(cfg, old(View()), r, d, candidate)
              case Err(e) => written == Err(e)
              case Ok(w) => written == Ok((w.1, w.2, w.3)) && View() == w.0
    {
      match d
      case LinkAccount(u) =>
        identities := identities[r.freshIdentity :=
            Identity(u, r.provider, Subject(r.sub), Lower(ProfileEmail(r.emails)))];
        return Ok((u, r.freshIdentity, false));
      case CreateAccount(u) =>
        if cfg.disableSignup || r.hookRejects {
          return Err(SignupDisabled);
        }
        var email := if r.hookEmail != "" then r.hookEmail else candidate.email;
        if u in users || (email != "" && EmailTaken(View(), email)) {
          return Err(EmailExists);
        }
        var profile := if r.hookProfileEmail.Some? then r.hookProfileEmail.value else ProfileEmail(r.emails);
        users := users[u := User(email, r.aud, false, false, None, false, false, false)];
        identities := identities[r.freshIdentity := Identity(u, r.provider, Subject(r.sub), Lower(profile))];
        return Ok((u, r.freshIdentity, true));
      case AccountExists(u, i) =>
        if i !in identities {
          return Err(Internal);
        }
        identities := identities[i := identities[i].(email := Lower(ProfileEmail(r.emails)))];
        return Ok((u, i, false));
      case Ambiguous => return Err(MultipleAccounts);
      case Fails(error) => return Err(error);
    }

    /** One callback's transaction: on a plain failure every write is taken back. */
    method CreateAccountFromExternalIdentity(cfg: Config, r: Request) returns (outcome: Outcome)
      requires Sound(View())
      modifies this
      ensures (View(), outcome) == Resolve(cfg, old(View()), r)
    {
      hide Decide, Write, Sound;
      if r.sub == "" {
        return Failed(Internal);
      }
      ghost var before := View();
      var wasUsers, wasIdentities := users, identities;
      var d, candidate := DetermineAccountLinking(cfg, r);
      var written := Apply(cfg, r, d, candidate);
      if written.Err? {
        users, identities := wasUsers, wasIdentities;
        return Failed(written.error);
      }
      var (u, i, created) := written.value;
      if u !in users || i !in identities {
        users, identities := wasUsers, wasIdentities;
        return Failed(Internal);
      }
      if IsBanned(users[u], r.now) {
        users, identities := wasUsers, wasIdentities;
        return Failed(Banned);
      }
      if !Confirmed(users[u]) {
        ghost var s2 := View();
        if identities[i].provider != "email" && identities[i].provider != "phone" {
          users := users[u := users[u].(password := false)];
        }
        identities := map j | j in identities && (identities[j].user == u ==> j == i) :: identities[j];
        assert View() == RemoveUnconfirmed(s2, u, i);
        if candidate.verified || cfg.autoconfirm {
          users := users[u := users[u].(emailConfirmed := true)];
        } else {
          if candidate.email != "" && r.mailRefused {
            users, identities := wasUsers, wasIdentities;
            return Failed(MailRefused);
          }
          return Failed(NeedsVerification);
        }
      }
      return Resolved(u, created);
    }
  }

  lemma {:induction false} InDomain(s: State, provider: string, pid: ProviderId)
    ensures FindIdentity(s, provider, pid).Some? ==> FindIdentity(s, provider, pid).value in s.identities
  {}
}
