/** Administration of roles, assignments and API keys: who can come to hold what. */
module Rbac {
  import opened Prelude

  type Time = int

  datatype Actor = ServiceRole | User(id: nat) | Key(id: nat)

  datatype Role = Role(name: string, permissions: set<string>, builtin: bool)

  datatype Assignment = Assignment(actor: Actor, role: nat, revoked: bool)

  // `creator` is None for a key whose creator is not recorded.
  datatype ApiKey = ApiKey(scopes: set<string>, creator: Option<Actor>, expires: Option<Time>, revoked: bool)

  datatype State = State(
    registered: set<string>,
    roles: map<nat, Role>,
    assignments: map<nat, Assignment>,
    keys: map<nat, ApiKey>)

  const ROLES_MANAGE := "roles.manage"
  const KEYS_MANAGE := "keys.manage"
  const OWNER_ONLY := {"auth.settings.manage"}

  datatype Error = Unauthenticated | Denied | NotFound | Conflict | Invalid | Immutable

  // ---- who holds what --------------------------------------------------------------------

  predicate Assigned(s: State, a: Actor, p: string) {
    exists i :: i in s.assignments && s.assignments[i].actor == a && !s.assignments[i].revoked
      && s.assignments[i].role in s.roles && p in s.roles[s.assignments[i].role].permissions
  }

  predicate Live(k: ApiKey, now: Time) {
    !k.revoked && (k.expires.None? || k.expires.value > now)
  }

  predicate CreatorStillHolds(s: State, k: ApiKey, p: string) {
    (k.creator.Some? && k.creator.value.User?) ==> Assigned(s, k.creator.value, p)
  }

  /** The authorizer's answer. */
  predicate Can(s: State, a: Actor, p: string, now: Time) {
    || a.ServiceRole?
    || (p != "" && Assigned(s, a, p))
    || (p != "" && a.Key? && a.id in s.keys && Live(s.keys[a.id], now) && p in s.keys[a.id].scopes
        && CreatorStillHolds(s, s.keys[a.id], p))
  }

  predicate Authenticates(s: State, a: Actor, now: Time) {
    a.Key? ==> a.id in s.keys && Live(s.keys[a.id], now)
  }

  predicate ScopesAllow(s: State, a: Actor, p: string) {
    a.Key? ==> a.id in s.keys && p in s.keys[a.id].scopes
  }

  /** What an actor can really use: a key must still be accepted, and stays within its scopes. */
  predicate Holds(s: State, a: Actor, p: string, now: Time) {
    Authenticates(s, a, now) && ScopesAllow(s, a, p) && Can(s, a, p, now)
  }

  // ---- permission lists ------------------------------------------------------------------------

  lemma {:induction false} TrimRightKeepsFront(v: string)
    ensures var r := TrimRight(v); r <= v && (r != "" ==> !Space(r[|r| - 1]))
  {
    if v != "" { TrimRightKeepsFront(v[..|v| - 1]); }
  }

  lemma {:induction false} TrimLeftDone(v: string)
    ensures var r := TrimLeft(v); r != "" ==> !Space(r[0])
  {
    if v != "" { TrimLeftDone(v[1..]); }
  }

  lemma {:induction false} TrimTwice(v: string)
    ensures Trim(Trim(v)) == Trim(v)
  {
    TrimLeftDone(v);
    TrimRightKeepsFront(TrimLeft(v));
  }

  /** The permissions a list names once blanks are stripped. */
  function Tidied(listed: seq<string>): set<string> {
    set v | v in listed && Trim(v) != "" :: Trim(v)
  }

  predicate Grantable(s: State, perms: set<string>) {
    perms != {} && perms <= s.registered && perms !! OWNER_ONLY
  }

  // ---- requests -----------------------------------------------------------------------------------

  /** The ceiling: the caller holds every listed permission itself. */
  predicate WithinCeiling(s: State, who: Actor, listed: seq<string>, now: Time) {
    who.ServiceRole? || forall p :: p in listed ==> Holds(s, who, p, now)
  }

  predicate HoldsAll(s: State, who: Actor, perms: set<string>, now: Time) {
    who.ServiceRole? || forall p :: p in perms ==> Holds(s, who, p, now)
  }

  // Ids of new rows are fresh random values.
  datatype Op =
    | CreateRole(id: nat, name: string, permissions: seq<string>)
    | UpdateRole(role: nat, permissions: seq<string>)
    | Grant(assignment: nat, role: nat, to: Actor)
    | Revoke(assignment: nat)
    | CreateKey(id: nat, scopes: seq<string>, expires: Option<Time>)
    | RevokeKey(key: nat)

  function Needs(op: Op): string {
    if op.CreateKey? || op.RevokeKey? then KEYS_MANAGE else ROLES_MANAGE
  }

  function Fresh(s: State, op: Op): bool {
    match op
    case CreateRole(id, _, _) => id !in s.roles
    case Grant(id, _, _) => id !in s.assignments
    case CreateKey(id, _, _) => id !in s.keys
    case _ => true
  }

  function Handle(s: State, who: Actor, now: Time, op: Op): (State, Option<Error>) {
    if !Authenticates(s, who, now) then (s, Some(Unauthenticated))
    else if !Holds(s, who, Needs(op), now) then (s, Some(Denied))
    else
      match op
      case CreateRole(id, name, listed) =>
        if !WithinCeiling(s, who, listed, now) then (s, Some(Denied))
        else if Trim(name) == "" || !Grantable(s, Tidied(listed)) then (s, Some(Invalid))
        else if exists r :: r in s.roles && s.roles[r].name == Trim(name) then (s, Some(Conflict))
        else (s.(roles := s.roles[id := Role(Trim(name), Tidied(listed), false)]), None)
      case UpdateRole(r, listed) =>
        if r !in s.roles then (s, Some(NotFound))
        else if !HoldsAll(s, who, s.roles[r].permissions, now) || !WithinCeiling(s, who, listed, now)
            then (s, Some(Denied))
        else if s.roles[r].builtin then (s, Some(Immutable))
        else if !Grantable(s, Tidied(listed)) then (s, Some(Invalid))
        else (s.(roles := s.roles[r := s.roles[r].(permissions := Tidied(listed))]), None)
      case Grant(id, r, to) =>
        if r !in s.roles then (s, Some(NotFound))
        else if !HoldsAll(s, who, s.roles[r].permissions, now) then (s, Some(Denied))
        else if exists i :: i in s.assignments && s.assignments[i] == Assignment(to, r, false) then (s, Some(Conflict))
        else (s.(assignments := s.assignments[id := Assignment(to, r, false)]), None)
      case Revoke(i) =>
        if i !in s.assignments || s.assignments[i].role !in s.roles then (s, Some(NotFound))
        else if !HoldsAll(s, who, s.roles[s.assignments[i].role].permissions, now) then (s, Some(Denied))
        else if s.assignments[i].revoked then (s, Some(Conflict))
        else (s.(assignments := s.assignments[i := s.assignments[i].(revoked := true)]), None)
      case CreateKey(id, listed, expires) =>
        if who.Key? then (s, Some(Denied))
        else if !WithinCeiling(s, who, listed, now) then (s, Some(Denied))
        else if !Grantable(s, Tidied(listed)) || (expires.Some? && expires.value <= now) then (s, Some(Invalid))
        else (s.(keys := s.keys[id := ApiKey(Tidied(listed), Some(who), expires, false)]), None)
      case RevokeKey(k) =>
        if k !in s.keys then (s, Some(NotFound))
        else if !HoldsAll(s, who, s.keys[k].scopes, now) then (s, Some(Denied))
        else if s.keys[k].revoked then (s, Some(Conflict))
        else (s.(keys := s.keys[k := s.keys[k].(revoked := true)]), None)
  }

  // ---- what is kept in every state -------------------------------------------------------------------

  /** Permission names are stored without blanks around them, and the owner's own only in builtin roles. */
  predicate WellKept(s: State) {
    && (forall r, p :: r in s.roles && p in s.roles[r].permissions ==> Trim(p) == p)
    && (forall k, p :: k in s.keys && p in s.keys[k].scopes ==> Trim(p) == p)
    && (forall r :: r in s.roles && !s.roles[r].builtin ==> s.roles[r].permissions !! OWNER_ONLY)
    && (forall k :: k in s.keys ==> s.keys[k].scopes !! OWNER_ONLY)
  }

  lemma {:induction false} TidiedIsTrimmed(listed: seq<string>)
    ensures forall p :: p in Tidied(listed) ==> Trim(p) == p
  {
    forall v | v in listed ensures Trim(Trim(v)) == Trim(v) { TrimTwice(v); }
  }

  lemma {:induction false} HandleKeepsWell(s: State, who: Actor, now: Time, op: Op)
    requires WellKept(s)
    ensures WellKept(Handle(s, who, now, op).0)
  {
    hide Trim, Tidied, Can;
    match op
    case CreateRole(_, _, listed) => TidiedIsTrimmed(listed);
    case UpdateRole(_, listed) => TidiedIsTrimmed(listed);
    case CreateKey(_, listed, _) => TidiedIsTrimmed(listed);
    case _ =>
  }

  // ---- no escalation -------------------------------------------------------------------------------

  lemma {:induction false} HeldIsTrimmed(s: State, a: Actor, p: string, now: Time)
    requires WellKept(s) && !a.ServiceRole? && Holds(s, a, p, now)
    ensures Trim(p) == p
  {
    hide Trim;
  }

  /** Nothing outside what the caller holds gets through the ceiling, blanks around a name included. */
  lemma {:induction false} CeilingCoversTidied(s: State, who: Actor, listed: seq<string>, now: Time, p: string)
    requires WellKept(s) && !who.ServiceRole? && WithinCeiling(s, who, listed, now) && p in Tidied(listed)
    ensures Holds(s, who, p, now)
  {
    hide Trim, Holds;
    var v :| v in listed && Trim(v) == p;
    HeldIsTrimmed(s, who, v, now);
  }

  ghost predicate SameHoldings(s: State, s': State, p: string) {
    forall a, t :: Holds(s', a, p, t) <==> Holds(s, a, p, t)
  }

  ghost predicate SameGrants(s: State, s': State, p: string) {
    && (forall a :: Assigned(s', a, p) <==> Assigned(s, a, p))
    && (forall k :: k in s.keys && p in s.keys[k].scopes ==> k in s'.keys && s'.keys[k] == s.keys[k])
    && (forall k :: k in s'.keys && p in s'.keys[k].scopes ==> k in s.keys && s'.keys[k] == s.keys[k])
  }

  lemma {:induction false} SameGrantsSameHoldings(s: State, s': State, p: string)
    requires SameGrants(s, s', p)
    ensures SameHoldings(s, s', p)
  {
    hide Assigned;
    forall a, t ensures Holds(s', a, p, t) <==> Holds(s, a, p, t) {
      if a.Key? { assert ScopesAllow(s', a, p) <==> ScopesAllow(s, a, p); }
    }
  }

  lemma {:induction false} RoleChangeSameAssigned(s: State, s': State, r: nat, p: string)
    requires s' == s.(roles := s'.roles)
    requires forall q :: q != r ==> (q in s'.roles <==> q in s.roles) && (q in s.roles ==> s'.roles[q] == s.roles[q])
    requires r in s.roles ==> p !in s.roles[r].permissions
    requires r in s'.roles ==> p !in s'.roles[r].permissions
    ensures forall a :: Assigned(s', a, p) <==> Assigned(s, a, p)
  {
    forall a ensures Assigned(s', a, p) <==> Assigned(s, a, p) {
      if Assigned(s, a, p) {
        var i :| i in s.assignments && s.assignments[i].actor == a && !s.assignments[i].revoked
          && s.assignments[i].role in s.roles && p in s.roles[s.assignments[i].role].permissions;
        assert s.assignments[i].role != r;
        assert s'.assignments[i].role in s'.roles && p in s'.roles[s'.assignments[i].role].permissions;
      }
      if Assigned(s', a, p) {
        var i :| i in s'.assignments && s'.assignments[i].actor == a && !s'.assignments[i].revoked
          && s'.assignments[i].role in s'.roles && p in s'.roles[s'.assignments[i].role].permissions;
        assert s'.assignments[i].role != r;
        assert s.assignments[i].role in s.roles && p in s.roles[s.assignments[i].role].permissions;
      }
    }
  }

  lemma {:induction false} AssignmentChangeSameAssigned(s: State, s': State, i: nat, p: string)
    requires i in s'.assignments && s' == s.(assignments := s.assignments[i := s'.assignments[i]])
    requires i in s.assignments ==> s.assignments[i].role == s'.assignments[i].role
    requires s'.assignments[i].role in s.roles ==> p !in s.roles[s'.assignments[i].role].permissions
    ensures forall a :: Assigned(s', a, p) <==> Assigned(s, a, p)
  {
    forall a ensures Assigned(s', a, p) <==> Assigned(s, a, p) {
      if Assigned(s, a, p) {
        var j :| j in s.assignments && s.assignments[j].actor == a && !s.assignments[j].revoked
          && s.assignments[j].role in s.roles && p in s.roles[s.assignments[j].role].permissions;
        assert j != i;
        assert s'.assignments[j] == s.assignments[j];
      }
      if Assigned(s', a, p) {
        var j :| j in s'.assignments && s'.assignments[j].actor == a && !s'.assignments[j].revoked
          && s'.assignments[j].role in s'.roles && p in s'.roles[s'.assignments[j].role].permissions;
        assert j != i;
        assert s'.assignments[j] == s.assignments[j];
      }
    }
  }

  lemma {:induction false} SameAssignmentsSameAssigned(s: State, s': State, p: string)
    requires s'.assignments == s.assignments && s'.roles == s.roles
    ensures forall a :: Assigned(s', a, p) <==> Assigned(s, a, p)
  {}

  /** One request cannot change who holds a permission its caller does not hold. */
  lemma {:induction false} StepCannotTouch(s: State, who: Actor, now: Time, op: Op, p: string)
    requires WellKept(s) && !who.ServiceRole? && Fresh(s, op) && !Holds(s, who, p, now)
    ensures SameHoldings(s, Handle(s, who, now, op).0, p)
  {
    hide Assigned, Holds, Tidied, Trim, WellKept, SameHoldings;
    var (s', error) := Handle(s, who, now, op);
    if error.None? {
      if op.CreateRole? || op.UpdateRole? || op.CreateKey? {
        var listed := if op.CreateKey? then op.scopes else op.permissions;
        if p in Tidied(listed) { CeilingCoversTidied(s, who, listed, now, p); }
      }
      match op {
        case CreateRole(id, _, _) => RoleChangeSameAssigned(s, s', id, p);
        case UpdateRole(r, _) => RoleChangeSameAssigned(s, s', r, p);
        case Grant(i, _, _) => AssignmentChangeSameAssigned(s, s', i, p);
        case Revoke(i) => AssignmentChangeSameAssigned(s, s', i, p);
        case CreateKey(_, _, _) => SameAssignmentsSameAssigned(s, s', p);
        case RevokeKey(_) => SameAssignmentsSameAssigned(s, s', p);
      }
      SameGrantsSameHoldings(s, s', p);
    } else {
      SameGrantsSameHoldings(s, s', p);
    }
  }

  datatype Event = Event(who: Actor, at: Time, op: Op)

  function Run(s: State, es: seq<Event>): State {
    if es == [] then s
    else var s1 := Run(s, es[..|es| - 1]); var e := es[|es| - 1];
      if Fresh(s1, e.op) then Handle(s1, e.who, e.at, e.op).0 else s1
  }

  lemma {:induction false} RunKeepsWell(s: State, es: seq<Event>)
    requires WellKept(s)
    ensures WellKept(Run(s, es))
  {
    if es != [] {
      var before, e := es[..|es| - 1], es[|es| - 1];
      RunKeepsWell(s, before);
      HandleKeepsWell(Run(s, before), e.who, e.at, e.op);
    }
  }

  /** Keys only ever expire: what is held later was held before. */
  lemma {:induction false} HoldsEarlier(s: State, a: Actor, p: string, now: Time, later: Time)
    requires now <= later && Holds(s, a, p, later)
    ensures Holds(s, a, p, now)
  {}

  /** The callers of the run: `team` and keys that do not exist yet. */
  predicate RunBy(s: State, team: set<Actor>, es: seq<Event>, start: Time) {
    && ServiceRole !in team
    && forall i :: 0 <= i < |es| ==>
         start <= es[i].at && (es[i].who in team || (es[i].who.Key? && es[i].who.id !in s.keys))
  }

  /** Whatever a coalition and the keys it issues do, in any order, no actor gains or loses a permission that
      none of the coalition held at the start. */
  lemma {:induction false} CoalitionCannotTouch(s: State, team: set<Actor>, es: seq<Event>, start: Time, p: string)
    requires WellKept(s) && RunBy(s, team, es, start)
    requires forall a :: a in team ==> !Holds(s, a, p, start)
    ensures SameHoldings(s, Run(s, es), p)
  {
    hide Holds, WellKept, Handle, Fresh;
    if es != [] {
      var before, e := es[..|es| - 1], es[|es| - 1];
      CoalitionCannotTouch(s, team, before, start, p);
      var s1 := Run(s, before);
      RunKeepsWell(s, before);
      if Holds(s1, e.who, p, e.at) {
        assert Holds(s, e.who, p, e.at);
        HoldsEarlier(s, e.who, p, start, e.at);
        UnknownKeyHoldsNothing(s, e.who, p, start);
        assert false;
      }
      if Fresh(s1, e.op) { StepCannotTouch(s1, e.who, e.at, e.op, p); }
    }
  }

  lemma {:induction false} UnknownKeyHoldsNothing(s: State, a: Actor, p: string, now: Time)
    requires Holds(s, a, p, now)
    ensures a.Key? ==> a.id in s.keys
  {}

  /** Read the other way: any change in who holds `p` needs a coalition member who held it from the start. */
  lemma {:induction false} ChangeNeedsAHolder(s: State, team: set<Actor>, es: seq<Event>, start: Time, p: string,
      a: Actor, t: Time)
    requires WellKept(s) && RunBy(s, team, es, start)
    requires Holds(Run(s, es), a, p, t) != Holds(s, a, p, t)
    ensures exists m :: m in team && Holds(s, m, p, start)
  {
    hide Holds;
    if forall m :: m in team ==> !Holds(s, m, p, start) {
      CoalitionCannotTouch(s, team, es, start, p);
      assert false;
    }
  }

  /** No run, the service role's requests included, puts an owner's permission into a key or a custom role, and
      no key ever holds one. */
  lemma {:induction false} OwnerPermissionsStayWithOwners(s: State, es: seq<Event>, p: string, k: nat, t: Time)
    requires WellKept(s) && p in OWNER_ONLY
    ensures !Holds(Run(s, es), Key(k), p, t)
    ensures forall r :: r in Run(s, es).roles && p in Run(s, es).roles[r].permissions ==> Run(s, es).roles[r].builtin
  {
    RunKeepsWell(s, es);
  }

  // ---- keys and their creators ------------------------------------------------------------------

  predicate Succeeds(s: State, e: Event) {
    Fresh(s, e.op) && Handle(s, e.who, e.at, e.op).1.None?
  }

  /** The `i`-th request of the run made the assignment `a`. */
  predicate MadeBy(s: State, es: seq<Event>, i: nat, a: nat)
    requires i < |es|
  {
    es[i].op.Grant? && es[i].op.assignment == a && Succeeds(Run(s, es[..i]), es[i])
  }

  /** No role is assigned to a key. */
  predicate NoKeyAssigned(s: State) {
    forall a :: a in s.assignments && s.assignments[a].actor.Key? ==> s.assignments[a].revoked
  }

  /** Assignments keep their actor and role, and revoked ones stay revoked. */
  predicate Older(s: State, s': State, a: nat) {
    && a in s.assignments && a in s'.assignments
    && s'.assignments[a].actor == s.assignments[a].actor && s'.assignments[a].role == s.assignments[a].role
    && (s.assignments[a].revoked ==> s'.assignments[a].revoked)
  }

  lemma {:induction false} StepAssignments(s: State, e: Event)
    ensures var s' := if Fresh(s, e.op) then Handle(s, e.who, e.at, e.op).0 else s;
            && (forall a :: a in s.assignments ==> Older(s, s', a))
            && (forall a :: a in s'.assignments && a !in s.assignments ==>
                  e.op.Grant? && e.op.assignment == a && Succeeds(s, e)
                  && s'.assignments[a] == Assignment(e.op.to, e.op.role, false))
            && (e.op.Grant? && Succeeds(s, e) ==>
                  e.op.assignment in s'.assignments
                  && s'.assignments[e.op.assignment] == Assignment(e.op.to, e.op.role, false))
  {
    hide Holds, HoldsAll, WithinCeiling, Tidied, Trim;
  }

  /** Every assignment of a run's end is from its start or was made by one of its requests, and those made last. */
  lemma {:induction false} WhereFrom(s: State, es: seq<Event>)
    ensures forall a :: a in s.assignments ==> Older(s, Run(s, es), a)
    ensures forall i, a :: 0 <= i < |es| && MadeBy(s, es, i, a) ==>
              a in Run(s, es).assignments
              && Run(s, es).assignments[a].actor == es[i].op.to && Run(s, es).assignments[a].role == es[i].op.role
    ensures forall a :: a in Run(s, es).assignments && a !in s.assignments ==>
              exists i :: 0 <= i < |es| && MadeBy(s, es, i, a)
  {
    hide Handle, Fresh, Succeeds;
    if es != [] {
      var before, e := es[..|es| - 1], es[|es| - 1];
      var s1, s2 := Run(s, before), Run(s, es);
      WhereFrom(s, before);
      StepAssignments(s1, e);
      forall i, a | 0 <= i < |before| ensures MadeBy(s, before, i, a) <==> MadeBy(s, es, i, a) {
        assert before[..i] == es[..i];
      }
      forall a | a in s2.assignments && a !in s.assignments ensures exists i :: 0 <= i < |es| && MadeBy(s, es, i, a) {
        if a in s1.assignments {
          var i :| 0 <= i < |before| && MadeBy(s, before, i, a);
          assert MadeBy(s, es, i, a);
        } else {
          assert MadeBy(s, es, |before|, a);
        }
      }
      forall i, a | 0 <= i < |es| && MadeBy(s, es, i, a)
        ensures a in s2.assignments && s2.assignments[a].actor == es[i].op.to && s2.assignments[a].role == es[i].op.role
      {
        if i < |before| {
          assert MadeBy(s, before, i, a);
          assert Older(s1, s2, a);
        }
      }
    }
  }

  /** Some request of the run assigned the key a role that still has the permission and was not taken back. */
  ghost predicate GrantedToKey(s: State, es: seq<Event>, k: nat, p: string) {
    var end := Run(s, es);
    exists i :: 0 <= i < |es| && MadeBy(s, es, i, if es[i].op.Grant? then es[i].op.assignment else 0)
      && es[i].op.to == Key(k) && StillGives(end, es[i].op.assignment, p)
  }

  predicate StillGives(s: State, a: nat, p: string) {
    a in s.assignments && !s.assignments[a].revoked && s.assignments[a].role in s.roles
    && p in s.roles[s.assignments[a].role].permissions
  }

  lemma {:induction false} KeyAssignedByGrant(s: State, es: seq<Event>, k: nat, p: string)
    requires NoKeyAssigned(s)
    ensures Assigned(Run(s, es), Key(k), p) <==> GrantedToKey(s, es, k, p)
  {
    var end := Run(s, es);
    WhereFrom(s, es);
    hide Run, Succeeds;
    if Assigned(end, Key(k), p) {
      var a :| a in end.assignments && end.assignments[a].actor == Key(k) && StillGives(end, a, p);
      assert StillGives(end, a, p) && !end.assignments[a].revoked;
      assert a in s.assignments ==> Older(s, end, a);
      assert a !in s.assignments;
      assert exists i :: 0 <= i < |es| && MadeBy(s, es, i, a);
      var i :| 0 <= i < |es| && MadeBy(s, es, i, a);
      assert es[i].op.assignment == a;
    }
    if GrantedToKey(s, es, k, p) {
      var i :| 0 <= i < |es| && MadeBy(s, es, i, if es[i].op.Grant? then es[i].op.assignment else 0)
        && es[i].op.to == Key(k) && StillGives(end, es[i].op.assignment, p);
      var a := es[i].op.assignment;
      assert MadeBy(s, es, i, a);
      assert end.assignments[a].actor == Key(k);
    }
  }

  /** A user's key is meant to hold nothing its creator does not. From a state with no role assigned to a key, and
      over every run, what a live key holds beyond its creator is exactly what requests of that run granted to the
      key itself, within its scopes. */
  lemma {:induction false} KeyBoundedByCreator(s: State, es: seq<Event>, k: nat, u: nat, p: string, now: Time)
    requires NoKeyAssigned(s) && p != ""
    requires k in Run(s, es).keys && Run(s, es).keys[k].creator == Some(User(u))
    requires !Holds(Run(s, es), User(u), p, now)
    ensures Holds(Run(s, es), Key(k), p, now) <==>
            Live(Run(s, es).keys[k], now) && p in Run(s, es).keys[k].scopes && GrantedToKey(s, es, k, p)
  {
    KeyAssignedByGrant(s, es, k, p);
    hide Run, GrantedToKey, Assigned;
  }

  /** So as long as no grant names a key, every key a user issued stays within what that user holds. */
  lemma {:induction false} KeysStayWithinCreators(s: State, es: seq<Event>, k: nat, u: nat, p: string, now: Time)
    requires NoKeyAssigned(s) && forall i :: 0 <= i < |es| && es[i].op.Grant? ==> !es[i].op.to.Key?
    requires k in Run(s, es).keys && Run(s, es).keys[k].creator == Some(User(u))
    ensures Holds(Run(s, es), Key(k), p, now) ==> Holds(Run(s, es), User(u), p, now)
  {
    if !Holds(Run(s, es), User(u), p, now) && p != "" {
      KeyBoundedByCreator(s, es, k, u, p, now);
      hide Holds, Run;
      assert !GrantedToKey(s, es, k, p);
    }
  }

  // ---- builtin roles ---------------------------------------------------------------------------------

  lemma {:induction false} BuiltinsStayOnce(s: State, who: Actor, now: Time, op: Op, r: nat)
    requires r in s.roles && s.roles[r].builtin && Fresh(s, op)
    ensures r in Handle(s, who, now, op).0.roles && Handle(s, who, now, op).0.roles[r] == s.roles[r]
  {}

  /** Builtin roles never change, whoever asks for whatever, however often. */
  lemma {:induction false} BuiltinsStay(s: State, es: seq<Event>, r: nat)
    requires r in s.roles && s.roles[r].builtin
    ensures r in Run(s, es).roles && Run(s, es).roles[r] == s.roles[r]
  {
    hide Handle, Fresh;
    if es != [] {
      var before, e := es[..|es| - 1], es[|es| - 1];
      BuiltinsStay(s, before, r);
      if Fresh(Run(s, before), e.op) { BuiltinsStayOnce(Run(s, before), e.who, e.at, e.op, r); }
    }
  }

  const ADMIN := Role("admin", {ROLES_MANAGE, KEYS_MANAGE}, false)

  const TWO_ADMINS := State({ROLES_MANAGE, KEYS_MANAGE}, map[0 := ADMIN],
    map[0 := Assignment(User(1), 0, false), 1 := Assignment(User(9), 0, false)], map[])

  /** Such a key can come about: user 1 issues a key and has the role assigned to the key as well; user 9 takes
      the role away from user 1, and the key keeps what its creator lost. */
  lemma {:induction false} KeyCanOutliveItsCreator()
    ensures var s := Run(TWO_ADMINS, [
              Event(User(1), 0, CreateKey(2, [KEYS_MANAGE], None)),
              Event(User(1), 1, Grant(5, 0, Key(2))),
              Event(User(9), 2, Revoke(0))]);
            && 2 in s.keys && s.keys[2].creator == Some(User(1))
            && Holds(s, Key(2), KEYS_MANAGE, 3) && !Holds(s, User(1), KEYS_MANAGE, 3)
  {
    hide Run, Handle, TrimLeft, TrimRight;
    var e0, e1, e2 := Event(User(1), 0, CreateKey(2, [KEYS_MANAGE], None)), Event(User(1), 1, Grant(5, 0, Key(2))),
        Event(User(9), 2, Revoke(0));
    TidiedOne(KEYS_MANAGE);
    AdminHolds(TWO_ADMINS, 0, User(1), 0);
    CreateKeyStep(TWO_ADMINS, 2, [KEYS_MANAGE], 0);
    var s1 := TWO_ADMINS.(keys := map[2 := ApiKey({KEYS_MANAGE}, Some(User(1)), None, false)]);
    RunOne(TWO_ADMINS, [], e0);
    AdminHolds(s1, 0, User(1), 1);
    GrantStep(s1, 5, Key(2), 1);
    var s2 := s1.(assignments := s1.assignments[5 := Assignment(Key(2), 0, false)]);
    RunOne(TWO_ADMINS, [e0], e1);
    AdminHolds(s2, 1, User(9), 2);
    RevokeStep(s2, 0, 2);
    var s3 := s2.(assignments := s2.assignments[0 := Assignment(User(1), 0, true)]);
    RunOne(TWO_ADMINS, [e0, e1], e2);
    assert [] + [e0] == [e0] && [e0] + [e1] == [e0, e1] && [e0, e1] + [e2] == [e0, e1, e2];
    assert s3.assignments[5].actor == Key(2);
  }

  lemma {:induction false} RunOne(s: State, es: seq<Event>, e: Event)
    ensures Run(s, []) == s
    ensures Run(s, es + [e]) == if Fresh(Run(s, es), e.op) then Handle(Run(s, es), e.who, e.at, e.op).0 else Run(s, es)
  {
    assert (es + [e])[..|es|] == es;
  }

  lemma {:induction false} TidiedOne(p: string)
    requires p == KEYS_MANAGE
    ensures Tidied([p]) == {p}
  {
    assert TrimLeft(p) == p && TrimRight(p) == p;
    assert forall v :: v in [p] ==> v == p;
    assert p in [p];
  }

  lemma {:induction false} AdminHolds(s: State, i: nat, u: Actor, now: Time)
    requires u.User? && i in s.assignments && s.assignments[i] == Assignment(u, 0, false) && 0 in s.roles
        && s.roles[0] == ADMIN
    ensures Holds(s, u, ROLES_MANAGE, now) && Holds(s, u, KEYS_MANAGE, now)
  {}

  lemma {:induction false} CreateKeyStep(s: State, k: nat, listed: seq<string>, now: Time)
    requires Holds(s, User(1), KEYS_MANAGE, now) && listed == [KEYS_MANAGE] && Tidied(listed) == {KEYS_MANAGE}
        && KEYS_MANAGE in s.registered
    ensures Handle(s, User(1), now, CreateKey(k, listed, None)).0 ==
            s.(keys := s.keys[k := ApiKey({KEYS_MANAGE}, Some(User(1)), None, false)])
  {
    hide Trim, Tidied, Can;
  }

  lemma {:induction false} GrantStep(s: State, i: nat, to: Actor, now: Time)
    requires Holds(s, User(1), KEYS_MANAGE, now) && Holds(s, User(1), ROLES_MANAGE, now) && 0 in s.roles
        && s.roles[0] == ADMIN
    requires forall j :: j in s.assignments ==> s.assignments[j].actor != to
    ensures Handle(s, User(1), now, Grant(i, 0, to)).0 ==
        s.(assignments := s.assignments[i := Assignment(to, 0, false)])
  {
    hide Can;
  }

  lemma {:induction false} RevokeStep(s: State, i: nat, now: Time)
    requires Holds(s, User(9), KEYS_MANAGE, now) && Holds(s, User(9), ROLES_MANAGE, now) && 0 in s.roles
        && s.roles[0] == ADMIN
    requires i in s.assignments && s.assignments[i] == Assignment(User(1), 0, false)
    ensures Handle(s, User(9), now, Revoke(i)).0 == s.(assignments := s.assignments[i := Assignment(User(1), 0, true)])
  {
    hide Can;
  }

  // ---- the handlers as they run --------------------------------------------------------------------

  /** The ceiling, permission by permission: the names that are missing, each once. */
  method GrantCeiling(s: State, who: Actor, listed: seq<string>, now: Time) returns (missing: seq<string>)
    ensures forall p :: p in missing <==> !who.ServiceRole? && p in listed && !Holds(s, who, p, now)
    ensures forall i, j :: 0 <= i < j < |missing| ==> missing[i] != missing[j]
    ensures Authenticates(s, who, now) ==> (missing == [] <==> WithinCeiling(s, who, listed, now))
  {
    missing := [];
    if who.ServiceRole? {
      return;
    }
    for n := 0 to |listed|
      invariant forall p :: p in missing <==> p in listed[..n] && !Holds(s, who, p, now)
      invariant forall i, j :: 0 <= i < j < |missing| ==> missing[i] != missing[j]
    {
      var p := listed[n];
      if p in missing {
        continue;
      }
      var held := Authenticates(s, who, now) && ScopesAllow(s, who, p) && Can(s, who, p, now);
      if !held {
        missing := missing + [p];
      }
    }
    if missing != [] {
      assert missing[0] in missing;
    }
  }

  method Dedupe(listed: seq<string>) returns (out: seq<string>)
    ensures forall p :: p in out <==> p in Tidied(listed)
    ensures forall i, j :: 0 <= i < j < |out| ==> out[i] != out[j]
  {
    out := [];
    for n := 0 to |listed|
      invariant forall p :: p in out <==> p in Tidied(listed[..n])
      invariant forall i, j :: 0 <= i < j < |out| ==> out[i] != out[j]
    {
      var v := Trim(listed[n]);
      assert listed[..n + 1] == listed[..n] + [listed[n]];
      if v == "" || v in out {
        continue;
      }
      out := out + [v];
    }
    assert listed[..|listed|] == listed;
  }

  function AsSet(listed: seq<string>): set<string> {
    set p | p in listed
  }

  /** The role, assignment and key tables behind the management plane, changed one request at a time. */
  class Plane {
    var registered: set<string>
    var roles: map<nat, Role>
    var assignments: map<nat, Assignment>
    var keys: map<nat, ApiKey>

    function View(): State
      reads this
    {
      State(registered, roles, assignments, keys)
    }

    constructor (seeded: State)
      ensures View() == seeded
    {
      registered, roles, assignments, keys := seeded.registered, seeded.roles, seeded.assignments, seeded.keys;
    }

    /** The guard in front of every handler. */
    method Guard(who: Actor, now: Time, permission: string) returns (refusal: Option<Error>)
      ensures refusal == if !Authenticates(View(), who, now) then Some(Unauthenticated)
                         else if !Holds(View(), who, permission, now) then Some(Denied) else None
    {
      if who.Key? && (who.id !in keys || !Live(keys[who.id], now)) {
        return Some(Unauthenticated);
      }
      if who.ServiceRole? {
        return None;
      }
      if !ScopesAllow(View(), who, permission) {
        return Some(Denied);
      }
      return if Can(View(), who, permission, now) then None else Some(Denied);
    }

    /** The refusal of a permission list: empty, the owner's, or not registered. */
    method CheckGrantable(perms: seq<string>) returns (ok: bool)
      ensures ok <==> Grantable(View(), AsSet(perms))
    {
      if perms == [] {
        return false;
      }
      assert perms[0] in AsSet(perms);
      for n := 0 to |perms|
        invariant forall i :: 0 <= i < n ==> perms[i] in registered && perms[i] !in OWNER_ONLY
      {
        if perms[n] in OWNER_ONLY || perms[n] !in registered {
          assert perms[n] in AsSet(perms);
          return false;
        }
      }
      return true;
    }

    method CreateRole(who: Actor, now: Time, id: nat, name: string, listed: seq<string>) returns (error: Option<Error>)
      modifies this
      ensures (View(), error) == Handle(old(View()), who, now, Op.CreateRole(id, name, listed))
    {
      error := Guard(who, now, ROLES_MANAGE);
      if error.Some? {
        return;
      }
      var missing := GrantCeiling(View(), who, listed, now);
      if missing != [] {
        return Some(Denied);
      }
      var perms := Dedupe(listed);
      assert AsSet(perms) == Tidied(listed);
      var ok := CheckGrantable(perms);
      if Trim(name) == "" || !ok {
        return Some(Invalid);
      }
      if exists r :: r in roles && roles[r].name == Trim(name) {
        return Some(Conflict);
      }
      roles := roles[id := Role(Trim(name), AsSet(perms), false)];
      return None;
    }

    method UpdateRole(who: Actor, now: Time, r: nat, listed: seq<string>) returns (error: Option<Error>)
      modifies this
      ensures (View(), error) == Handle(old(View()), who, now, Op.UpdateRole(r, listed))
    {
      error := Guard(who, now, ROLES_MANAGE);
      if error.Some? {
        return;
      }
      if r !in roles {
        return Some(NotFound);
      }
      var current := Listed(roles[r].permissions);
      var missing := GrantCeiling(View(), who, current + listed, now);
      assert WithinCeiling(View(), who, current + listed, now) <==>
        HoldsAll(View(), who, roles[r].permissions, now) && WithinCeiling(View(), who, listed, now);
      if missing != [] {
        return Some(Denied);
      }
      if roles[r].builtin {
        return Some(Immutable);
      }
      var perms := Dedupe(listed);
      assert AsSet(perms) == Tidied(listed);
      var ok := CheckGrantable(perms);
      if !ok {
        return Some(Invalid);
      }
      roles := roles[r := roles[r].(permissions := AsSet(perms))];
      return None;
    }

    method Grant(who: Actor, now: Time, id: nat, r: nat, to: Actor) returns (error: Option<Error>)
      modifies this
      ensures (View(), error) == Handle(old(View()), who, now, Op.Grant(id, r, to))
    {
      error := Guard(who, now, ROLES_MANAGE);
      if error.Some? {
        return;
      }
      if r !in roles {
        return Some(NotFound);
      }
      var current := Listed(roles[r].permissions);
      var missing := GrantCeiling(View(), who, current, now);
      if missing != [] {
        return Some(Denied);
      }
      if exists i :: i in assignments && assignments[i] == Assignment(to, r, false) {
        return Some(Conflict);
      }
      assignments := assignments[id := Assignment(to, r, false)];
      return None;
    }

    method Revoke(who: Actor, now: Time, i: nat) returns (error: Option<Error>)
      modifies this
      ensures (View(), error) == Handle(old(View()), who, now, Op.Revoke(i))
    {
      error := Guard(who, now, ROLES_MANAGE);
      if error.Some? {
        return;
      }
      if i !in assignments || assignments[i].role !in roles {
        return Some(NotFound);
      }
      var current := Listed(roles[assignments[i].role].permissions);
      var missing := GrantCeiling(View(), who, current, now);
      if missing != [] {
        return Some(Denied);
      }
      if assignments[i].revoked {
        return Some(Conflict);
      }
      assignments := assignments[i := assignments[i].(revoked := true)];
      return None;
    }

    method CreateKey(who: Actor, now: Time, id: nat, listed: seq<string>, expires: Option<Time>)
        returns (error: Option<Error>)
      modifies this
      ensures (View(), error) == Handle(old(View()), who, now, Op.CreateKey(id, listed, expires))
    {
      error := Guard(who, now, KEYS_MANAGE);
      if error.Some? {
        return;
      }
      if who.Key? {
        return Some(Denied);
      }
      var missing := GrantCeiling(View(), who, listed, now);
      if missing != [] {
        return Some(Denied);
      }
      var scopes := Dedupe(listed);
      assert AsSet(scopes) == Tidied(listed);
      var ok := CheckGrantable(scopes);
      if !ok || (expires.Some? && expires.value <= now) {
        return Some(Invalid);
      }
      keys := keys[id := ApiKey(AsSet(scopes), Some(who), expires, false)];
      return None;
    }

    method RevokeKey(who: Actor, now: Time, k: nat) returns (error: Option<Error>)
      modifies this
      ensures (View(), error) == Handle(old(View()), who, now, Op.RevokeKey(k))
    {
      error := Guard(who, now, KEYS_MANAGE);
      if error.Some? {
        return;
      }
      if k !in keys {
        return Some(NotFound);
      }
      var current := Listed(keys[k].scopes);
      var missing := GrantCeiling(View(), who, current, now);
      if missing != [] {
        return Some(Denied);
      }
      if keys[k].revoked {
        return Some(Conflict);
      }
      keys := keys[k := keys[k].(revoked := true)];
      return None;
    }

    /** A stored permission set, in some order. */
    method Listed(perms: set<string>) returns (out: seq<string>)
      ensures forall p :: p in out <==> p in perms
    {
      out := [];
      var todo := perms;
      while todo != {}
        invariant todo <= perms
        invariant forall p :: p in out <==> p in perms && p !in todo
        decreases todo
      {
        var p :| p in todo;
        todo, out := todo - {p}, out + [p];
      }
    }
  }
}
