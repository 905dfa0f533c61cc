/** Whom an external sign-in joins and how it ends, in terms of the rows and of what the provider said. */
module SignInLaws {
  import opened Prelude
  import opened ExternalSignIn

  // ---- what the provider said ----------------------------------------------------------------

  /** The provider, or the instance for it, vouches for this lower-cased address. */
  ghost predicate Vouched(cfg: Config, r: Request, address: string) {
    exists n :: 0 <= n < |r.emails| && Lower(r.emails[n].email) == address && (r.emails[n].verified || cfg.autoconfirm)
  }

  lemma {:induction false} VouchedIsVerified(cfg: Config, r: Request, address: string)
    ensures address in VerifiedEmails(r.emails, cfg.autoconfirm) <==> Vouched(cfg, r, address)
  {
    if n :| 0 <= n < |r.emails| && Lower(r.emails[n].email) == address && (r.emails[n].verified || cfg.autoconfirm) {
      assert r.emails[n] in r.emails;
    }
  }

  /** The primary address is the last one the provider calls so. */
  lemma {:induction false} CandidateIsLastPrimary(emails: seq<ProviderEmail>, n: nat)
    requires n < |emails| && emails[n].primary && forall m :: n < m < |emails| ==> !emails[m].primary
    ensures Candidate(emails) == emails[n].(email := Lower(emails[n].email))
    decreases |emails|
  {
    if n < |emails| - 1 { CandidateIsLastPrimary(emails[..|emails| - 1], n); }
  }

  lemma {:induction false} NoCandidate(emails: seq<ProviderEmail>)
    requires forall m :: 0 <= m < |emails| ==> !emails[m].primary
    ensures Candidate(emails) == ProviderEmail("", false, false)
  {
    if emails != [] { NoCandidate(emails[..|emails| - 1]); }
  }

  /** An identity keeps the first primary address, or else the last one. */
  lemma {:induction false} ProfileIsFirstPrimary(emails: seq<ProviderEmail>, n: nat)
    requires n < |emails| && forall m :: 0 <= m < n ==> !emails[m].primary
    requires emails[n].primary || n == |emails| - 1
    ensures ProfileEmail(emails) == emails[n].email
    decreases |emails|
  {
    if n > 0 { ProfileIsFirstPrimary(emails[1..], n - 1); }
  }

  // ---- who is joined -------------------------------------------------------------------------

  /** The account's own address is vouched for, and it may be joined through it. */
  ghost predicate OwnAddressLeads(cfg: Config, s: State, r: Request, u: Id) {
    && u in s.users && !s.users[u].sso && !s.users[u].deleted && s.users[u].aud == r.aud
    && s.users[u].email != "" && Vouched(cfg, r, Lower(s.users[u].email))
  }

  /** One of the account's other identities, and no SSO one, has an address that is vouched for. */
  ghost predicate IdentityLeads(cfg: Config, s: State, r: Request, u: Id) {
    exists i :: i in s.identities && s.identities[i].user == u
      && !(|s.identities[i].provider| >= 4 && s.identities[i].provider[..4] == "sso:")
      && (s.identities[i].provider, s.identities[i].pid) != (r.provider, Subject(r.sub))
      && s.identities[i].email != "" && Vouched(cfg, r, s.identities[i].email)
  }

  /** Nobody alive is known by this provider account, and releasing a dead one's would not clash. */
  ghost predicate NewHere(s: State, r: Request) {
    forall i :: i in s.identities && s.identities[i].provider == r.provider && s.identities[i].pid == Subject(r.sub) ==>
      && s.identities[i].user in s.users && s.users[s.identities[i].user].deleted
      && forall j :: j in s.identities && s.identities[j].provider == r.provider ==>
           s.identities[j].pid != Released(s.identities[i].user, s.identities[i].provider, s.identities[i].pid)
  }

  ghost predicate LedByIdentity(s: State, verified: set<string>, u: Id) {
    exists i :: SimilarIdentity(s, i, verified) && s.identities[i].user == u
  }

  lemma {:induction false} Prefix(p: string)
    ensures SsoProvider(p) <==> |p| >= 4 && p[..4] == "sso:"
  {}

  /** The tables the decision by address looks at: a dead identity of this provider account is renamed, so that it
      stands for nobody at the provider any more, and loses its address. */
  lemma {:induction false} LooksAt(cfg: Config, s: State, r: Request) returns (s1: State)
    requires Sound(s) && !r.bySubject && NewHere(s, r)
    ensures s1 == Decide(cfg, s, r).0 && s1.users == s.users && s1.identities.Keys == s.identities.Keys
    ensures (Decide(cfg, s, r).1, Decide(cfg, s, r).2) == ByEmail(cfg, s1, r)
    ensures forall j :: j in s.identities ==>
              s1.identities[j] ==
                if (s.identities[j].provider, s.identities[j].pid) == (r.provider, Subject(r.sub))
                then Identity(s.identities[j].user, r.provider,
                       Released(s.identities[j].user, r.provider, Subject(r.sub)), "")
                else s.identities[j]
  {
    hide ByEmail, OneOwner;
    s1 := Decide(cfg, s, r).0;
    var found := FindIdentity(s, r.provider, Subject(r.sub));
    if found.Some? {
      var i := found.value;
      assert IsIdentity(s, i, r.provider, Subject(r.sub));
      var clash := FindIdentity(s, r.provider, ReleasedId(s, i));
      assert s1 == Release(s, i);
    } else {
      forall j | j in s.identities
        ensures (s.identities[j].provider, s.identities[j].pid) != (r.provider, Subject(r.sub))
      {
        NoneFound(s, r.provider, Subject(r.sub), j);
      }
    }
  }

  /** If that name is taken already, the sign-in fails. */
  lemma {:induction false} ClashFails(cfg: Config, s: State, r: Request, i: nat, j: nat)
    requires Sound(s) && i in s.identities && j in s.identities
    requires s.identities[i].provider == s.identities[j].provider == r.provider
    requires s.identities[i].pid == Subject(r.sub) && s.users[s.identities[i].user].deleted
    requires s.identities[j].pid == Released(s.identities[i].user, r.provider, Subject(r.sub))
    ensures Decide(cfg, s, r).0 == s && Decide(cfg, s, r).1 == Fails(Internal)
  {
    assert IsIdentity(s, i, r.provider, Subject(r.sub));
    FoundOnlyOne(s, r.provider, Subject(r.sub), i);
    assert IsIdentity(s, j, r.provider, ReleasedId(s, i));
    hide ByEmail, Candidate, OneOwner;
  }

  lemma {:induction false} Leads(cfg: Config, s: State, s1: State, r: Request, u: Id)
    requires s1.users == s.users && s1.identities.Keys == s.identities.Keys
    requires forall j :: j in s.identities ==>
              if (s.identities[j].provider, s.identities[j].pid) == (r.provider, Subject(r.sub))
              then s1.identities[j].user == s.identities[j].user && s1.identities[j].email == ""
              else s1.identities[j] == s.identities[j]
    ensures var verified := VerifiedEmails(r.emails, cfg.autoconfirm);
            && (LedByIdentity(s1, verified, u) <==> IdentityLeads(cfg, s, r, u))
            && (SimilarUser(s1, u, verified, r.aud) <==> OwnAddressLeads(cfg, s, r, u))
  {
    forall e ensures e in VerifiedEmails(r.emails, cfg.autoconfirm) <==> Vouched(cfg, r, e) {
      VouchedIsVerified(cfg, r, e);
    }
    forall p: string ensures SsoProvider(p) <==> |p| >= 4 && p[..4] == "sso:" { Prefix(p); }
    hide Vouched, VerifiedEmails, SsoProvider;
  }

  /** The decision by address, in terms of who is led to. */
  lemma {:induction false} ByEmailDecides(cfg: Config, s: State, r: Request, u: Id)
    ensures var verified := VerifiedEmails(r.emails, cfg.autoconfirm);
            var d := ByEmail(cfg, s, r).0;
            && (d == LinkAccount(u) <==>
                  || (LedByIdentity(s, verified, u) && forall w :: LedByIdentity(s, verified, w) ==> w == u)
                  || ((forall w :: !LedByIdentity(s, verified, w))
                      && SimilarUser(s, u, verified, r.aud) && forall w :: SimilarUser(s, w, verified, r.aud) ==>
                        w == u))
            && (d == CreateAccount(r.freshUser) <==>
                  forall w :: !LedByIdentity(s, verified, w) && !SimilarUser(s, w, verified, r.aud))
            && (d.LinkAccount? || d.CreateAccount? || d.Ambiguous?)
  {
    hide Candidate, VerifiedEmails, Lower, OwnsEmail;
    var verified := VerifiedEmails(r.emails, cfg.autoconfirm);
    assert forall i :: SimilarIdentity(s, i, verified) ==> LedByIdentity(s, verified, s.identities[i].user);
  }

  /** Exactly who is joined: the one account an identity leads to, or, if none does, the one its address leads to. */
  lemma {:induction false} JoinsExactly(cfg: Config, s: State, r: Request, u: Id)
    requires Sound(s) && Fresh(s, r) && !r.bySubject && NewHere(s, r)
    ensures Decide(cfg, s, r).1 == LinkAccount(u) <==>
              || (IdentityLeads(cfg, s, r, u) && forall w :: IdentityLeads(cfg, s, r, w) ==> w == u)
              || ((forall w :: !IdentityLeads(cfg, s, r, w))
                  && OwnAddressLeads(cfg, s, r, u) && forall w :: OwnAddressLeads(cfg, s, r, w) ==> w == u)
  {
    var s1 := LooksAt(cfg, s, r);
    forall w
      ensures LedByIdentity(s1, VerifiedEmails(r.emails, cfg.autoconfirm), w) <==> IdentityLeads(cfg, s, r, w)
      ensures SimilarUser(s1, w, VerifiedEmails(r.emails, cfg.autoconfirm), r.aud) <==> OwnAddressLeads(cfg, s, r, w)
    {
      Leads(cfg, s, s1, r, w);
    }
    ByEmailDecides(cfg, s1, r, u);
    hide Decide, ByEmail, LedByIdentity, SimilarUser, IdentityLeads, OwnAddressLeads, Sound, NewHere;
  }

  /** And when none is: several accounts are led to, or nobody is and an account is created. */
  lemma {:induction false} JoinsNobody(cfg: Config, s: State, r: Request)
    requires Sound(s) && Fresh(s, r) && !r.bySubject && NewHere(s, r)
    ensures var d := Decide(cfg, s, r).1;
            && (d == CreateAccount(r.freshUser) <==>
                  forall w :: !IdentityLeads(cfg, s, r, w) && !OwnAddressLeads(cfg, s, r, w))
            && (d.LinkAccount? || d.CreateAccount? || d.Ambiguous?)
  {
    var s1 := LooksAt(cfg, s, r);
    forall w
      ensures LedByIdentity(s1, VerifiedEmails(r.emails, cfg.autoconfirm), w) <==> IdentityLeads(cfg, s, r, w)
      ensures SimilarUser(s1, w, VerifiedEmails(r.emails, cfg.autoconfirm), r.aud) <==> OwnAddressLeads(cfg, s, r, w)
    {
      Leads(cfg, s, s1, r, w);
    }
    ByEmailDecides(cfg, s1, r, r.freshUser);
    hide Decide, ByEmail, LedByIdentity, SimilarUser, IdentityLeads, OwnAddressLeads, Sound, NewHere;
  }

  /** Someone already known by the provider account comes back to the same user, whose address then counts. */
  lemma {:induction false} ReturnsToItsUser(cfg: Config, s: State, r: Request, i: nat)
    requires Sound(s) && i in s.identities
    requires s.identities[i].provider == r.provider && s.identities[i].pid == Subject(r.sub)
    requires !s.users[s.identities[i].user].deleted
    ensures var u := s.identities[i].user;
            Decide(cfg, s, r) == (s, AccountExists(u, i), Candidate(r.emails).(email := s.users[u].email))
  {
    assert IsIdentity(s, i, r.provider, Subject(r.sub));
    FoundOnlyOne(s, r.provider, Subject(r.sub), i);
    hide FindIdentity, ByEmail, Candidate, Sound;
  }

  /** Where the subject is the user id, no address is looked at: a live user of that id is joined. */
  lemma {:induction false} SubjectDecides(cfg: Config, s: State, r: Request)
    requires Sound(s) && r.bySubject && NewHere(s, r)
    ensures Decide(cfg, s, r).1 ==
              if !r.subIsUserId then Fails(Internal)
              else if r.sub !in s.users then CreateAccount(r.sub)
              else if s.users[r.sub].deleted then Fails(Deleted)
              else LinkAccount(r.sub)
  {
    hide ByEmail, Candidate, OwnsEmail, OneOwner;
    var found := FindIdentity(s, r.provider, Subject(r.sub));
    if found.Some? { assert IsIdentity(s, found.value, r.provider, Subject(r.sub)); }
  }

  /** A user of the audience, no SSO one, has the address. */
  ghost predicate Claimed(s: State, r: Request, address: string) {
    exists u :: u in s.users && address != "" && Lower(s.users[u].email) == address && s.users[u].aud == r.aud
      && !s.users[u].sso
  }

  /** A new account gets the primary address, unless nobody vouched for any and someone has it. */
  lemma {:induction false} NewAccountAddress(cfg: Config, s: State, r: Request)
    requires Sound(s) && Fresh(s, r) && NewHere(s, r) && Decide(cfg, s, r).1.CreateAccount?
    ensures var primary := Candidate(r.emails);
            Decide(cfg, s, r).2 ==
              if (r.bySubject || (forall e :: !Vouched(cfg, r, e))) && Claimed(s, r, primary.email)
              then primary.(email := "") else primary
  {
    hide Candidate, OneOwner, Lower, Vouched;
    forall e ensures e in VerifiedEmails(r.emails, cfg.autoconfirm) <==> Vouched(cfg, r, e) {
      VouchedIsVerified(cfg, r, e);
    }
    hide VerifiedEmails;
    var verified := VerifiedEmails(r.emails, cfg.autoconfirm);
    assert verified == {} <==> forall e :: !Vouched(cfg, r, e);
    var found := FindIdentity(s, r.provider, Subject(r.sub));
    if found.Some? { assert IsIdentity(s, found.value, r.provider, Subject(r.sub)); }
    var s1 := Decide(cfg, s, r).0;
    assert s1.users == s.users;
    OwnedIsClaimed(s, s1, r, Candidate(r.emails).email);
    hide OwnsEmail, Claimed;
  }

  lemma {:induction false} OwnedIsClaimed(s: State, s1: State, r: Request, address: string)
    requires s1.users == s.users
    ensures (exists u :: OwnsEmail(s1, u, address, r.aud)) <==> Claimed(s, r, address)
  {
    hide Lower;
    if Claimed(s, r, address) {
      var u :| u in s.users && address != "" && Lower(s.users[u].email) == address && s.users[u].aud == r.aud
        && !s.users[u].sso;
      assert OwnsEmail(s1, u, address, r.aud);
    }
  }

  // ---- how it ends -----------------------------------------------------------------------------

  predicate Barred(s: State, u: Id, now: Time) {
    u in s.users && s.users[u].bannedUntil.Some? && now < s.users[u].bannedUntil.value
  }

  predicate AnyConfirmed(s: State, u: Id) {
    u in s.users && (s.users[u].emailConfirmed || s.users[u].phoneConfirmed)
  }

  /** Exactly how a sign-in to an account that was there ends. */
  lemma {:induction false} ExistingEnds(cfg: Config, s: State, r: Request)
    requires Sound(s) && Fresh(s, r) && r.sub != ""
    requires Decide(cfg, s, r).1.LinkAccount? || Decide(cfg, s, r).1.AccountExists?
    ensures var (_, d, candidate) := Decide(cfg, s, r);
            var (s', outcome) := Resolve(cfg, s, r);
            var vouched := candidate.verified || cfg.autoconfirm;
            && outcome == (if Barred(s, d.user, r.now) then Failed(Banned)
                           else if AnyConfirmed(s, d.user) || vouched then Resolved(d.user, false)
                           else if candidate.email != "" && r.mailRefused then Failed(MailRefused)
                           else Failed(NeedsVerification))
            && (outcome == Failed(Banned) || outcome == Failed(MailRefused) ==> s' == s)
            && (outcome == Resolved(d.user, false) && AnyConfirmed(s, d.user) ==> s'.users == s.users)
            && (outcome == Resolved(d.user, false) && !AnyConfirmed(s, d.user) ==>
                  s'.users[d.user := s.users[d.user]] == s.users && d.user in s'.users
                  && s'.users[d.user].emailConfirmed && !s'.users[d.user].phoneConfirmed
                  && (s'.users[d.user].password <==>
                        s.users[d.user].password && (r.provider == "email" || r.provider == "phone")))
  {
    DecidePrepares(cfg, s, r);
    var (s1, d, candidate) := Decide(cfg, s, r);
    ExistingRows(cfg, s1, r, d, candidate);
    hide Decide, Sound, Write, Finish, SameAccount;
    var w := Write(cfg, s1, r, d, candidate).value;
    AccountEnds(cfg, w.0, r, w.1, w.2, candidate, s);
  }

  lemma {:induction false} ExistingRows(cfg: Config, s: State, r: Request, d: Decision, candidate: ProviderEmail)
    requires d.LinkAccount? || (d.AccountExists? && IsIdentity(s, d.identity, r.provider, Subject(r.sub)))
    ensures var w := Write(cfg, s, r, d, candidate);
            && w.Ok? && w.value.1 == d.user && !w.value.3 && w.value.0.users == s.users
            && w.value.2 in w.value.0.identities && w.value.0.identities[w.value.2].provider == r.provider
  {
    hide ProfileEmail, Lower;
  }

  lemma {:induction false} AccountEnds(
      cfg: Config, s2: State, r: Request, u: Id, i: nat, candidate: ProviderEmail, s: State)
    requires u in s2.users && i in s2.identities && s2.identities[i].provider == r.provider
    ensures var (s', outcome) := Finish(cfg, s2, r, u, i, false, candidate, s);
            var vouched := candidate.verified || cfg.autoconfirm;
            && outcome == (if Barred(s2, u, r.now) then Failed(Banned)
                           else if AnyConfirmed(s2, u) || vouched then Resolved(u, false)
                           else if candidate.email != "" && r.mailRefused then Failed(MailRefused)
                           else Failed(NeedsVerification))
            && (outcome == Failed(Banned) || outcome == Failed(MailRefused) ==> s' == s)
            && (outcome == Resolved(u, false) && AnyConfirmed(s2, u) ==> s'.users == s2.users)
            && (outcome == Resolved(u, false) && !AnyConfirmed(s2, u) ==>
                  s'.users[u := s2.users[u]] == s2.users && u in s'.users
                  && s'.users[u].emailConfirmed && !s'.users[u].phoneConfirmed
                  && (s'.users[u].password <==>
                        s2.users[u].password && (r.provider == "email" || r.provider == "phone")))
  {}

  /** And to one that has to be created. */
  lemma {:induction false} NewEnds(cfg: Config, s: State, r: Request)
    requires Sound(s) && Fresh(s, r) && r.sub != "" && Decide(cfg, s, r).1.CreateAccount?
    ensures var (_, d, candidate) := Decide(cfg, s, r);
            var (s', outcome) := Resolve(cfg, s, r);
            var address := if r.hookEmail != "" then r.hookEmail else candidate.email;
            var taken := exists u :: u in s.users && s.users[u].email == address && !s.users[u].sso;
            && outcome == (if cfg.disableSignup || r.hookRejects then Failed(SignupDisabled)
                           else if d.id in s.users || (address != "" && taken) then Failed(EmailExists)
                           else if candidate.verified || cfg.autoconfirm then Resolved(d.id, true)
                           else if candidate.email != "" && r.mailRefused then Failed(MailRefused)
                           else Failed(NeedsVerification))
            && (outcome.Failed? && outcome != Failed(NeedsVerification) ==> s' == s)
            && (outcome.Resolved? || outcome == Failed(NeedsVerification) ==>
                  s'.users == s.users[d.id := User(address, r.aud, false, false, None, outcome.Resolved?, false,
                      false)])
  {
    DecidePrepares(cfg, s, r);
    var (s1, d, candidate) := Decide(cfg, s, r);
    CreateRows(cfg, s1, r, d.id, candidate);
    assert forall e :: EmailTaken(s1, e) <==> EmailTaken(s, e);
    hide Decide, Sound, Write, Finish, EmailTaken;
    if Write(cfg, s1, r, d, candidate).Ok? {
      var w := Write(cfg, s1, r, d, candidate).value;
      UnconfirmedEnds(cfg, w.0, r, w.1, w.2, w.3, candidate, s);
    }
  }

  lemma {:induction false} CreateRows(cfg: Config, s: State, r: Request, id: Id, candidate: ProviderEmail)
    ensures var address := if r.hookEmail != "" then r.hookEmail else candidate.email;
            var w := Write(cfg, s, r, CreateAccount(id), candidate);
            if cfg.disableSignup || r.hookRejects then w == Err(SignupDisabled)
            else if id in s.users || (address != "" && EmailTaken(s, address)) then w == Err(EmailExists)
            else
              && w.Ok? && w.value.1 == id && w.value.2 == r.freshIdentity && w.value.3
              && w.value.0.users == s.users[id := User(address, r.aud, false, false, None, false, false, false)]
              && r.freshIdentity in w.value.0.identities
  {
    hide ProfileEmail, Lower, EmailTaken;
  }

  lemma {:induction false} UnconfirmedEnds(
      cfg: Config, s2: State, r: Request, u: Id, i: nat, created: bool, candidate: ProviderEmail, s: State)
    requires u in s2.users && i in s2.identities && !Confirmed(s2.users[u]) && !IsBanned(s2.users[u], r.now)
    ensures var (s', outcome) := Finish(cfg, s2, r, u, i, created, candidate, s);
            && outcome == (if candidate.verified || cfg.autoconfirm then Resolved(u, created)
                           else if candidate.email != "" && r.mailRefused then Failed(MailRefused)
                           else Failed(NeedsVerification))
            && (outcome == Failed(MailRefused) ==> s' == s)
            && (outcome != Failed(MailRefused) ==>
                  && u in s'.users && s'.users[u := s2.users[u]] == s2.users
                  && s'.users[u].(password := s2.users[u].password, emailConfirmed := false)
                       == s2.users[u].(emailConfirmed := false)
                  && (s'.users[u].password ==> s2.users[u].password)
                  && s'.users[u].emailConfirmed == (outcome.Resolved? || s2.users[u].emailConfirmed))
  {}

  /** No account was led to, or several were, or the deleted user's: nothing is written. */
  lemma {:induction false} RefusedEnds(cfg: Config, s: State, r: Request)
    ensures r.sub == "" ==> Resolve(cfg, s, r) == (s, Failed(Internal))
    ensures r.sub != "" && Decide(cfg, s, r).1.Ambiguous? ==> Resolve(cfg, s, r) == (s, Failed(MultipleAccounts))
    ensures r.sub != "" && Decide(cfg, s, r).1.Fails? ==>
              Resolve(cfg, s, r) == (s, Failed(Decide(cfg, s, r).1.error))
  {
    hide Decide;
  }

  /** Nobody takes over an account through an address: where no subject stands for the user, an existing user that was
      not known by the provider account is signed in only if a non-SSO identity's address, or its own as a live non-SSO
      user of the audience, is vouched for. */
  lemma {:induction false} ResolvedIsLedTo(cfg: Config, s: State, r: Request)
    requires Sound(s) && Fresh(s, r) && !r.bySubject && NewHere(s, r)
    ensures var outcome := Resolve(cfg, s, r).1;
            outcome.Resolved? && outcome.user in s.users ==>
              IdentityLeads(cfg, s, r, outcome.user) || OwnAddressLeads(cfg, s, r, outcome.user)
  {
    JoinsNobody(cfg, s, r);
    var d := Decide(cfg, s, r).1;
    RefusedEnds(cfg, s, r);
    if d.LinkAccount? { JoinsExactly(cfg, s, r, d.user); }
    if r.sub != "" && d.LinkAccount? { ExistingEnds(cfg, s, r); }
    if r.sub != "" && d.CreateAccount? { NewEnds(cfg, s, r); }
    hide Decide, Resolve, Sound, NewHere, IdentityLeads, OwnAddressLeads;
  }

  /** The identity a sign-in leaves: it is the provider account's, with the address the provider gave or a hook chose,
      and a confirmed user keeps all its others. */
  lemma {:induction false} IdentityLeft(cfg: Config, s: State, r: Request)
    requires Sound(s) && Fresh(s, r) && Resolve(cfg, s, r).1.Resolved?
    ensures var d := Decide(cfg, s, r).1;
            var s', u := Resolve(cfg, s, r).0, Resolve(cfg, s, r).1.user;
            var address := if d.CreateAccount? && r.hookProfileEmail.Some? then r.hookProfileEmail.value
                           else ProfileEmail(r.emails);
            var i := if d.AccountExists? then d.identity else r.freshIdentity;
            && i in s'.identities && s'.identities[i] == Identity(u, r.provider, Subject(r.sub), Lower(address))
            && (AnyConfirmed(s, u) && !s.users[u].deleted ==>
                  forall j :: j in s.identities && j != i && s.identities[j].user == u ==>
                    j in s'.identities && s'.identities[j] == s.identities[j])
  {
    DecidePrepares(cfg, s, r);
    var (s1, d, candidate) := Decide(cfg, s, r);
    RowLeft(cfg, s1, r, d, candidate, s);
    hide Decide, Sound, ProfileEmail, Lower, Write, Finish;
  }

  lemma {:induction false} RowLeft(cfg: Config, s1: State, r: Request, d: Decision, candidate: ProviderEmail, s: State)
    requires Write(cfg, s1, r, d, candidate).Ok?
    requires d.AccountExists? ==> IsIdentity(s1, d.identity, r.provider, Subject(r.sub))
                                  && s1.identities[d.identity].user == d.user
    ensures var w := Write(cfg, s1, r, d, candidate).value;
            var address := if d.CreateAccount? && r.hookProfileEmail.Some? then r.hookProfileEmail.value
                           else ProfileEmail(r.emails);
            var i := if d.AccountExists? then d.identity else r.freshIdentity;
            && w.2 == i && i in w.0.identities
            && w.0.identities == s1.identities[i := Identity(w.1, r.provider, Subject(r.sub), Lower(address))]
            && (!d.CreateAccount? ==> w.0.users == s1.users)
            && (w.1 in w.0.users ==>
                  var (s', outcome) := Finish(cfg, w.0, r, w.1, w.2, w.3, candidate, s);
                  outcome.Resolved? ==>
                    && outcome.user == w.1 && i in s'.identities && s'.identities[i] == w.0.identities[i]
                    && (Confirmed(w.0.users[w.1]) ==> s'.identities == w.0.identities))
  {
    hide ProfileEmail, Lower;
  }
}
