/** Concurrent callbacks on one PKCE flow state: an unlocked read, the exchange with the provider, then a
    transaction that reads the row again under its lock and claims it. */
module FlowClaim {
  import opened Prelude
  import Accounts = ExternalSignIn

  type Time = int

  // `user` is set by the callback that claims the flow.
  datatype Flow = Flow(user: Option<Accounts.Id>, oauth: bool, createdAt: Time)

  datatype Refusal = NotFound | Expired | AlreadyUsed | ExchangeFailed | NotResolved(error: Accounts.Error)

  datatype Callback = Loaded | Exchanged | Claimed(user: Accounts.Id) | Refused(why: Refusal)

  datatype State = State(flow: Option<Flow>, accounts: Accounts.State, callbacks: map<nat, Callback>)

  datatype Event =
    | Load(c: nat, now: Time)
    | Exchange(c: nat, ok: bool)
    | Transact(c: nat, request: Accounts.Request)
    | Vanish                          // the row is cleaned up
    | Elsewhere(accounts: Accounts.State)  // other requests change accounts between the steps

  datatype Config = Config(accounts: Accounts.Config, expiry: nat)

  predicate Enabled(s: State, e: Event) {
    match e
    case Load(c, _) => c !in s.callbacks
    case Exchange(c, _) => c in s.callbacks && s.callbacks[c].Loaded?
    case Transact(c, r) =>
      c in s.callbacks && s.callbacks[c].Exchanged? && Accounts.Sound(s.accounts) && Accounts.Fresh(s.accounts, r)
      && r.provider != "email" && r.provider != "phone"
    case Vanish => true
    case Elsewhere(accounts) => Accounts.Sound(accounts)
  }

  /** The unlocked read. */
  function Loading(cfg: Config, s: State, now: Time): Callback {
    if s.flow.None? || !s.flow.value.oauth then Refused(NotFound)
    else if now > s.flow.value.createdAt + cfg.expiry then Refused(Expired)
    else if s.flow.value.user.Some? then Refused(AlreadyUsed)
    else Loaded
  }

  // How the body of a transaction ends.
  datatype Ending = Commit | CommitAndFail | RollBack

  /** The body of the transaction: the account's rows are written first, then the row is read again under its lock,
      and claimed if it still can be. */
  ghost function Body(cfg: Config, s: State, r: Accounts.Request): (State, Ending, Callback) {
    var (accounts, outcome) := Accounts.Resolve(cfg.accounts, s.accounts, r);
    var written := s.(accounts := accounts);
    if outcome.Failed? then (written, CommitAndFail, Refused(NotResolved(outcome.error)))
    else if written.flow.None? then (written, RollBack, Refused(NotFound))
    else if written.flow.value.user.Some? then (written, RollBack, Refused(AlreadyUsed))
    else (written.(flow := Some(written.flow.value.(user := Some(outcome.user)))), Commit, Claimed(outcome.user))
  }

  /** A body that ends in a rollback leaves the tables as it found them. */
  ghost function Transaction(cfg: Config, s: State, c: nat, r: Accounts.Request): State {
    var (written, ending, answer) := Body(cfg, s, r);
    var kept := if ending.RollBack? then s else written;
    kept.(callbacks := kept.callbacks[c := answer])
  }

  ghost function Next(cfg: Config, s: State, e: Event): State {
    match e
    case Load(c, now) => s.(callbacks := s.callbacks[c := Loading(cfg, s, now)])
    case Exchange(c, ok) => s.(callbacks := s.callbacks[c := if ok then Exchanged else Refused(ExchangeFailed)])
    case Transact(c, r) => Transaction(cfg, s, c, r)
    case Vanish => s.(flow := None)
    case Elsewhere(accounts) => s.(accounts := accounts)
  }

  ghost function Run(cfg: Config, s: State, es: seq<Event>): State {
    if es == [] then s else Next(cfg, Run(cfg, s, es[..|es| - 1]), es[|es| - 1])
  }

  ghost predicate AllEnabled(cfg: Config, s: State, es: seq<Event>) {
    forall i :: 0 <= i < |es| ==> Enabled(Run(cfg, s, es[..i]), es[i])
  }

  // A flow state just created, before any callback.
  predicate Init(s: State) {
    s.flow.Some? && s.flow.value.user.None? && s.callbacks == map[] && Accounts.Sound(s.accounts)
  }

  predicate Won(callbacks: map<nat, Callback>, c: nat) {
    c in callbacks && callbacks[c].Claimed?
  }

  predicate Winner(s: State, c: nat) {
    Won(s.callbacks, c)
  }

  ghost predicate NamesWinner(callbacks: map<nat, Callback>, u: Accounts.Id) {
    exists c :: Won(callbacks, c) && callbacks[c].user == u
  }

  /** At most one callback has claimed, and the row, while it exists, names exactly the user it claimed for. */
  ghost predicate Claims(flow: Option<Flow>, callbacks: map<nat, Callback>) {
    && (forall c, d :: Won(callbacks, c) && Won(callbacks, d) ==> c == d)
    && (flow.Some? && flow.value.user.None? ==> forall c :: !Won(callbacks, c))
    && (flow.Some? && flow.value.user.Some? ==> NamesWinner(callbacks, flow.value.user.value))
  }

  ghost predicate Inv(s: State) {
    Accounts.Sound(s.accounts) && Claims(s.flow, s.callbacks)
  }

  /** A callback that has not claimed moves on without claiming. */
  lemma {:induction false} MoveKeeps(flow: Option<Flow>, callbacks: map<nat, Callback>, c: nat, x: Callback)
    requires Claims(flow, callbacks) && !Won(callbacks, c) && !x.Claimed?
    ensures Claims(flow, callbacks[c := x])
  {
    var after := callbacks[c := x];
    forall d: nat ensures Won(after, d) <==> Won(callbacks, d) {}
    if flow.Some? && flow.value.user.Some? {
      var d :| Won(callbacks, d) && callbacks[d].user == flow.value.user.value;
      assert Won(after, d) && after[d].user == flow.value.user.value;
    }
  }

  lemma {:induction false} ClaimKeeps(flow: Flow, callbacks: map<nat, Callback>, c: nat, u: Accounts.Id)
    requires Claims(Some(flow), callbacks) && flow.user.None?
    ensures Claims(Some(flow.(user := Some(u))), callbacks[c := Claimed(u)])
  {
    var after := callbacks[c := Claimed(u)];
    forall d: nat ensures Won(after, d) <==> d == c {
      if d != c { assert !Won(callbacks, d); }
    }
    assert Won(after, c) && after[c].user == u;
  }

  lemma {:induction false} TransactKeeps(cfg: Config, s: State, c: nat, r: Accounts.Request)
    requires Inv(s) && Enabled(s, Transact(c, r))
    ensures Inv(Transaction(cfg, s, c, r))
  {
    Accounts.ResolvedIsConfirmed(cfg.accounts, s.accounts, r);
    hide Accounts.Resolve, Accounts.Sound, Accounts.Fresh, Claims;
    var outcome := Accounts.Resolve(cfg.accounts, s.accounts, r).1;
    if outcome.Failed? {
      MoveKeeps(s.flow, s.callbacks, c, Refused(NotResolved(outcome.error)));
    } else if s.flow.None? {
      MoveKeeps(s.flow, s.callbacks, c, Refused(NotFound));
    } else if s.flow.value.user.Some? {
      MoveKeeps(s.flow, s.callbacks, c, Refused(AlreadyUsed));
    } else {
      ClaimKeeps(s.flow.value, s.callbacks, c, outcome.user);
    }
  }

  lemma {:induction false} NextKeeps(cfg: Config, s: State, e: Event)
    requires Inv(s) && Enabled(s, e)
    ensures Inv(Next(cfg, s, e))
  {
    match e
    case Load(c, now) => MoveKeeps(s.flow, s.callbacks, c, Loading(cfg, s, now));
    case Exchange(c, ok) => MoveKeeps(s.flow, s.callbacks, c, if ok then Exchanged else Refused(ExchangeFailed));
    case Transact(c, r) => TransactKeeps(cfg, s, c, r);
    case Vanish =>
    case Elsewhere(_) =>
  }

  lemma {:induction false} AllButLast(cfg: Config, s: State, es: seq<Event>)
    requires AllEnabled(cfg, s, es) && es != []
    ensures AllEnabled(cfg, s, es[..|es| - 1]) && Enabled(Run(cfg, s, es[..|es| - 1]), es[|es| - 1])
  {
    var before := es[..|es| - 1];
    hide Enabled, Run;
    forall i | 0 <= i < |before| ensures Enabled(Run(cfg, s, before[..i]), before[i]) {
      assert before[..i] == es[..i];
    }
  }

  lemma {:induction false} RunKeeps(cfg: Config, s: State, es: seq<Event>)
    requires Inv(s) && AllEnabled(cfg, s, es)
    ensures Inv(Run(cfg, s, es))
  {
    if es != [] {
      var before, e := es[..|es| - 1], es[|es| - 1];
      AllButLast(cfg, s, es);
      RunKeeps(cfg, s, before);
      NextKeeps(cfg, Run(cfg, s, before), e);
    }
  }

  /** However many callbacks race on the state, at most one claims it. */
  lemma {:induction false} AtMostOneClaim(cfg: Config, s: State, es: seq<Event>, c: nat, d: nat)
    requires Init(s) && AllEnabled(cfg, s, es)
    requires Winner(Run(cfg, s, es), c) && Winner(Run(cfg, s, es), d)
    ensures c == d
  {
    RunKeeps(cfg, s, es);
  }

  /** Once claimed, the row keeps its user for as long as it exists, and so does the callback that won. */
  lemma {:induction false} ClaimIsFinal(cfg: Config, s: State, es: seq<Event>, u: Accounts.Id)
    requires Inv(s) && AllEnabled(cfg, s, es) && s.flow.Some? && s.flow.value.user == Some(u)
    ensures var s' := Run(cfg, s, es);
            && (s'.flow.Some? ==> s'.flow.value.user == Some(u))
            && (forall c :: Winner(s', c) <==> Winner(s, c))
            && (forall c :: Winner(s, c) ==> s'.callbacks[c] == s.callbacks[c])
  {
    if es != [] {
      var before, e := es[..|es| - 1], es[|es| - 1];
      AllButLast(cfg, s, es);
      ClaimIsFinal(cfg, s, before, u);
      RunKeeps(cfg, s, before);
      hide Accounts.Resolve, Accounts.Sound, Accounts.Fresh;
      assert Enabled(Run(cfg, s, before), e);
      NoNewWinner(cfg, Run(cfg, s, before), e);
    }
  }

  lemma {:induction false} NoNewWinner(cfg: Config, s: State, e: Event)
    requires Enabled(s, e) && (s.flow.Some? ==> s.flow.value.user.Some?)
    ensures var s' := Next(cfg, s, e);
            && (s'.flow.Some? ==> s.flow.Some? && s'.flow.value.user == s.flow.value.user)
            && (forall c :: Winner(s', c) <==> Winner(s, c))
            && (forall c :: Winner(s, c) ==> c in s'.callbacks && s'.callbacks[c] == s.callbacks[c])
  {
    hide Accounts.Resolve, Accounts.Sound, Accounts.Fresh;
  }

  predicate Done(x: Callback) {
    x.Claimed? || x.Refused?
  }

  predicate IsOf(e: Event, c: nat) {
    (e.Load? || e.Exchange? || e.Transact?) && e.c == c
  }

  /** A callback acts once: what it ended in stays. */
  lemma {:induction false} DoneStays(cfg: Config, s: State, es: seq<Event>, k: nat, c: nat)
    requires AllEnabled(cfg, s, es) && k <= |es|
    requires c in Run(cfg, s, es[..k]).callbacks && Done(Run(cfg, s, es[..k]).callbacks[c])
    ensures c in Run(cfg, s, es).callbacks && Run(cfg, s, es).callbacks[c] == Run(cfg, s, es[..k]).callbacks[c]
    decreases |es|
  {
    hide Enabled, Next, AllEnabled;
    if k < |es| {
      var before := es[..|es| - 1];
      AllButLast(cfg, s, es);
      assert before[..k] == es[..k];
      DoneStays(cfg, s, before, k, c);
      DoneStep(cfg, Run(cfg, s, before), es[|es| - 1], c);
    } else {
      assert es[..k] == es;
    }
  }

  lemma {:induction false} DoneStep(cfg: Config, s: State, e: Event, c: nat)
    requires Enabled(s, e) && c in s.callbacks && Done(s.callbacks[c])
    ensures c in Next(cfg, s, e).callbacks && Next(cfg, s, e).callbacks[c] == s.callbacks[c]
  {
    hide Accounts.Resolve, Accounts.Sound, Accounts.Fresh;
  }

  lemma {:induction false} StepOfRefused(cfg: Config, s: State, e: Event, c: nat)
    requires Enabled(s, e) && IsOf(e, c)
    requires var x := Next(cfg, s, e).callbacks[c]; Done(x) ==> x == Refused(AlreadyUsed)
    ensures Next(cfg, s, e).accounts == s.accounts && Next(cfg, s, e).flow == s.flow
  {
    hide Accounts.Resolve, Accounts.Sound, Accounts.Fresh;
  }

  lemma {:induction false} TransactIsDone(cfg: Config, s: State, c: nat, r: Accounts.Request)
    ensures c in Transaction(cfg, s, c, r).callbacks && Done(Transaction(cfg, s, c, r).callbacks[c])
  {
    hide Accounts.Resolve;
  }

  /** Over any run: a callback that ended refused as already used never changed a user, an identity or the flow, at
      any of its own steps. */
  lemma {:induction false} RefusedNeverWrote(cfg: Config, s: State, es: seq<Event>, c: nat, i: nat)
    requires AllEnabled(cfg, s, es) && i < |es| && IsOf(es[i], c)
    requires c in Run(cfg, s, es).callbacks && Run(cfg, s, es).callbacks[c] == Refused(AlreadyUsed)
    ensures var before, after := Run(cfg, s, es[..i]), Run(cfg, s, es[..i + 1]);
            after.accounts == before.accounts && after.flow == before.flow
  {
    var before := Run(cfg, s, es[..i]);
    assert es[..i + 1][..i] == es[..i];
    hide Accounts.Resolve, Accounts.Sound, Accounts.Fresh, Transaction;
    assert Run(cfg, s, es[..i + 1]) == Next(cfg, before, es[i]);
    assert Enabled(before, es[i]);
    if es[i].Transact? { TransactIsDone(cfg, before, c, es[i].request); }
    if Done(Next(cfg, before, es[i]).callbacks[c]) { DoneStays(cfg, s, es, i + 1, c); }
    StepOfRefused(cfg, before, es[i], c);
  }

  /** The claim is for a confirmed user, whose authenticating identity is on file. */
  lemma {:induction false} ClaimedUserIsConfirmed(cfg: Config, s: State, c: nat, r: Accounts.Request)
    requires Inv(s) && Enabled(s, Transact(c, r)) && Winner(Next(cfg, s, Transact(c, r)), c)
    ensures var s' := Next(cfg, s, Transact(c, r));
            var u := s'.callbacks[c].user;
            && s'.flow == Some(s.flow.value.(user := Some(u))) && s.flow.value.user.None?
            && u in s'.accounts.users && Accounts.Confirmed(s'.accounts.users[u])
            && Accounts.HasIdentity(s'.accounts, r, u)
  {
    Accounts.ResolvedIsConfirmed(cfg.accounts, s.accounts, r);
    hide Accounts.Resolve, Accounts.Sound, Accounts.Fresh;
  }

  /** Exactly what the unlocked read answers: the flow must be there and one of a provider, not older than it may get
      and not claimed yet. */
  lemma {:induction false} LoadsExactlyIf(cfg: Config, s: State, c: nat, now: Time)
    ensures var s' := Next(cfg, s, Load(c, now));
            var usable := s.flow.Some? && s.flow.value.oauth;
            && s' == s.(callbacks := s'.callbacks) && c in s'.callbacks
            && (forall d :: d in s.callbacks && d != c ==> d in s'.callbacks && s'.callbacks[d] == s.callbacks[d])
            && (s'.callbacks[c] == Refused(NotFound) <==> !usable)
            && (s'.callbacks[c] == Refused(Expired) <==> usable && now - s.flow.value.createdAt > cfg.expiry)
            && (s'.callbacks[c] == Refused(AlreadyUsed) <==>
                  usable && now - s.flow.value.createdAt <= cfg.expiry && s.flow.value.user.Some?)
            && (s'.callbacks[c] == Loaded <==>
                  usable && now - s.flow.value.createdAt <= cfg.expiry && s.flow.value.user.None?)
  {}

  /** And exactly how the transaction ends: the account that was resolved claims a flow that is there and still free,
      and everything written stays; a flow that is gone or taken takes it back, and a sign-in that failed keeps what
      that failure keeps. */
  lemma {:induction false} ClaimsExactlyIf(cfg: Config, s: State, c: nat, r: Accounts.Request)
    ensures var (accounts, outcome) := Accounts.Resolve(cfg.accounts, s.accounts, r);
            var s' := Next(cfg, s, Transact(c, r));
            && c in s'.callbacks
            && (s'.callbacks[c].Claimed? <==> outcome.Resolved? && s.flow.Some? && s.flow.value.user.None?)
            && (s'.callbacks[c].Claimed? ==>
                  && s'.callbacks[c] == Claimed(outcome.user) && s'.accounts == accounts
                  && s'.flow == Some(s.flow.value.(user := Some(outcome.user))))
            && (outcome.Failed? ==>
                  s'.callbacks[c] == Refused(NotResolved(outcome.error)) && s'.accounts == accounts
                      && s'.flow == s.flow)
            && (outcome.Resolved? && s.flow.None? ==>
                  s'.callbacks[c] == Refused(NotFound) && s'.accounts == s.accounts && s'.flow == s.flow)
            && (outcome.Resolved? && s.flow.Some? && s.flow.value.user.Some? ==>
                  s'.callbacks[c] == Refused(AlreadyUsed) && s'.accounts == s.accounts && s'.flow == s.flow)
  {
    hide Accounts.Resolve;
    var (accounts, outcome) := Accounts.Resolve(cfg.accounts, s.accounts, r);
    var s' := Next(cfg, s, Transact(c, r));
    assert s'.callbacks[c].Claimed? ==> s'.callbacks[c] == Claimed(outcome.user) && s'.accounts == accounts;
  }

  /** The second read is what decides: two callbacks can both have passed the first one. */
  lemma {:induction false} BothPassTheFirstRead(cfg: Config, s: State, now: Time)
    requires Init(s) && s.flow.value.oauth && now <= s.flow.value.createdAt + cfg.expiry
    ensures var es := [Load(0, now), Exchange(0, true), Load(1, now), Exchange(1, true)];
            AllEnabled(cfg, s, es) && Run(cfg, s, es).callbacks == map[0 := Exchanged, 1 := Exchanged]
  {
    hide Accounts.Sound;
    var es := [Load(0, now), Exchange(0, true), Load(1, now), Exchange(1, true)];
    var s1 := Next(cfg, s, es[0]);
    var s2 := Next(cfg, s1, es[1]);
    var s3 := Next(cfg, s2, es[2]);
    assert es[..0] == [] && es[..1][..0] == [] && es[..2][..1] == es[..1] && es[..3][..2] == es[..2] && es[..4] == es;
    assert Run(cfg, s, es[..0]) == s;
    assert Run(cfg, s, es[..1]) == s1;
    assert Run(cfg, s, es[..2]) == s2;
    assert Run(cfg, s, es[..3]) == s3;
    assert Run(cfg, s, es) == Next(cfg, s3, es[3]);
    assert Enabled(s, es[0]) && Enabled(s1, es[1]) && Enabled(s2, es[2]) && Enabled(s3, es[3]);
  }

  // ---- the handler as it runs --------------------------------------------------------------

  /** One flow state, and the users and identities its callbacks write to. */
  class Handler {
    const directory: Accounts.Directory
    var flow: Option<Flow>
    var callbacks: map<nat, Callback>

    function View(): State
      reads this, directory
    {
      State(flow, directory.View(), callbacks)
    }

    constructor (d: Accounts.Directory, now: Time)
      ensures directory == d && flow == Some(Flow(None, true, now)) && callbacks == map[]
    {
      directory, flow, callbacks := d, Some(Flow(None, true, now)), map[];
    }

    /** The unlocked read of a callback's state. */
    method LoadExternalState(cfg: Config, c: nat, now: Time)
      modifies this
      ensures View() == Next(cfg, old(View()), Load(c, now))
    {
      if flow.None? || !flow.value.oauth {
        callbacks := callbacks[c := Refused(NotFound)];
        return;
      }
      if now > flow.value.createdAt + cfg.expiry {
        callbacks := callbacks[c := Refused(Expired)];
        return;
      }
      if flow.value.user.Some? {
        callbacks := callbacks[c := Refused(AlreadyUsed)];
        return;
      }
      callbacks := callbacks[c := Loaded];
    }

    /** The transaction of a callback that has its answer from the provider. What it wrote to the accounts before the
        second read is taken back when that read refuses it. */
    method FinishExternalCallback(cfg: Config, c: nat, r: Accounts.Request)
      requires Accounts.Sound(directory.View())
      modifies this, directory
      ensures View() == Transaction(cfg, old(View()), c, r)
      ensures callbacks[c] == Refused(AlreadyUsed) || callbacks[c] == Refused(NotFound) ==>
                directory.View() == old(directory.View()) && flow == old(flow)
      ensures callbacks[c].Claimed? ==> old(flow).Some? && old(flow).value.user.None?
      ensures callbacks[c].Claimed? ==> flow == Some(old(flow).value.(user := Some(callbacks[c].user)))
    {
      hide Accounts.Resolve, Accounts.Sound;
      var users, identities := directory.users, directory.identities;
      var outcome := directory.CreateAccountFromExternalIdentity(cfg.accounts, r);
      if outcome.Failed? {
        callbacks := callbacks[c := Refused(NotResolved(outcome.error))];
        return;
      }
      if flow.None? {
        directory.users, directory.identities := users, identities;
        callbacks := callbacks[c := Refused(NotFound)];
        return;
      }
      if flow.value.user.Some? {
        directory.users, directory.identities := users, identities;
        callbacks := callbacks[c := Refused(AlreadyUsed)];
        return;
      }
      flow := Some(flow.value.(user := Some(outcome.user)));
      callbacks := callbacks[c := Claimed(outcome.user)];
    }
  }
}
