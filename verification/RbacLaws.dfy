/** That administration takes effect: what a request stores, what a revocation ends for ever, and who may ask. */
module RbacLaws {
  import opened Prelude
  import opened Rbac

  // ---- who may use a permission --------------------------------------------------------------

  /** Some assignment that was not revoked, of a role that is there and lists the permission. */
  predicate Given(s: State, a: Actor, p: string) {
    exists i :: i in s.assignments && s.assignments[i].actor == a && !s.assignments[i].revoked
      && s.assignments[i].role in s.roles && p in s.roles[s.assignments[i].role].permissions
  }

  /** A key of this id would be let in. */
  predicate LetIn(s: State, k: nat, now: Time) {
    k in s.keys && !s.keys[k].revoked && (s.keys[k].expires.Some? ==> now < s.keys[k].expires.value)
  }

  /** Users use what they are given; a key what is in its scopes, while it is let in, if that was given to the key
      itself or still is to the user who made it, or no user did. */
  predicate MayUse(s: State, a: Actor, p: string, now: Time) {
    match a
    case ServiceRole => true
    case User(_) => p != "" && Given(s, a, p)
    case Key(k) =>
      && p != "" && LetIn(s, k, now) && p in s.keys[k].scopes
      && (|| Given(s, a, p)
          || match s.keys[k].creator
             case Some(User(u)) => Given(s, User(u), p)
             case _ => true)
  }

  lemma {:induction false} HoldsIsMayUse(s: State, a: Actor, p: string, now: Time)
    ensures Holds(s, a, p, now) <==> MayUse(s, a, p, now)
  {
    assert forall b :: Assigned(s, b, p) <==> Given(s, b, p);
    hide Assigned, Given;
  }

  // ---- names -----------------------------------------------------------------------------------

  predicate AllBlank(v: string) {
    forall i :: 0 <= i < |v| ==> v[i] in " \t\n\r" || v[i] == 11 as char || v[i] == 12 as char
  }

  /** What is kept of a name: everything but the blanks around it. */
  lemma {:induction false} TrimMeans(v: string) returns (before: string, after: string)
    ensures v == before + Trim(v) + after && AllBlank(before) && AllBlank(after)
    ensures Trim(v) != "" ==> !AllBlank(Trim(v)[..1]) && !AllBlank(Trim(v)[|Trim(v)| - 1..])
  {
    before := LeftBlanks(v);
    after := RightBlanks(TrimLeft(v));
    TrimLeftDone(v);
    TrimRightKeepsFront(TrimLeft(v));
    assert v == before + (Trim(v) + after);
  }

  lemma {:induction false} LeftBlanks(v: string) returns (before: string)
    ensures v == before + TrimLeft(v) && AllBlank(before)
  {
    before := "";
    if v != "" && Space(v[0]) {
      var more := LeftBlanks(v[1..]);
      before := [v[0]] + more;
      assert v == [v[0]] + v[1..];
    }
  }

  lemma {:induction false} RightBlanks(v: string) returns (after: string)
    ensures v == TrimRight(v) + after && AllBlank(after)
  {
    after := "";
    if v != "" && Space(v[|v| - 1]) {
      var more := RightBlanks(v[..|v| - 1]);
      after := more + [v[|v| - 1]];
      assert v == v[..|v| - 1] + [v[|v| - 1]];
    }
  }

  /** A stored list is exactly the given names without their blanks. */
  predicate Stores(stored: set<string>, listed: seq<string>) {
    && (forall n :: 0 <= n < |listed| && Trim(listed[n]) != "" ==> Trim(listed[n]) in stored)
    && (forall p :: p in stored ==> p != "" && exists n :: 0 <= n < |listed| && Trim(listed[n]) == p)
  }

  lemma {:induction false} TidiedStores(listed: seq<string>)
    ensures Stores(Tidied(listed), listed)
  {
    hide Trim;
    forall p | p in Tidied(listed) ensures exists n :: 0 <= n < |listed| && Trim(listed[n]) == p {
      var v :| v in listed && Trim(v) == p;
      var n :| 0 <= n < |listed| && listed[n] == v;
    }
  }

  // ---- requests --------------------------------------------------------------------------------

  /** The caller may use every one of these. */
  predicate MayUseAll(s: State, who: Actor, perms: set<string>, now: Time) {
    who == ServiceRole || forall p :: p in perms ==> MayUse(s, who, p, now)
  }

  predicate MayUseListed(s: State, who: Actor, listed: seq<string>, now: Time) {
    who == ServiceRole || forall n :: 0 <= n < |listed| ==> MayUse(s, who, listed[n], now)
  }

  /** Names a role or key may be given: some, all registered and none the owner's. */
  predicate Allotted(s: State, listed: seq<string>) {
    && (exists n :: 0 <= n < |listed| && Trim(listed[n]) != "")
    && (forall n :: 0 <= n < |listed| && Trim(listed[n]) != "" ==>
          Trim(listed[n]) in s.registered && Trim(listed[n]) != "auth.settings.manage")
  }

  lemma {:induction false} GrantableIsAllotted(s: State, listed: seq<string>)
    ensures Grantable(s, Tidied(listed)) <==> Allotted(s, listed)
  {
    TidiedStores(listed);
    hide Trim, Tidied;
    if Grantable(s, Tidied(listed)) {
      var p :| p in Tidied(listed);
      forall n | 0 <= n < |listed| && Trim(listed[n]) != "" ensures Trim(listed[n]) != "auth.settings.manage" {
        assert "auth.settings.manage" in OWNER_ONLY;
      }
    }
    if Allotted(s, listed) {
      forall p | p in Tidied(listed) ensures p in s.registered && p !in OWNER_ONLY {
        var n :| 0 <= n < |listed| && Trim(listed[n]) == p;
      }
    }
  }

  lemma {:induction false} CeilingIsMayUse(s: State, who: Actor, listed: seq<string>, perms: set<string>, now: Time)
    ensures WithinCeiling(s, who, listed, now) <==> MayUseListed(s, who, listed, now)
    ensures HoldsAll(s, who, perms, now) <==> MayUseAll(s, who, perms, now)
  {
    forall p ensures Holds(s, who, p, now) <==> MayUse(s, who, p, now) { HoldsIsMayUse(s, who, p, now); }
    hide Holds, MayUse;
  }

  /** Exactly when each request is accepted. */
  predicate Entitled(s: State, who: Actor, now: Time, op: Op) {
    && (who.Key? ==> LetIn(s, who.id, now))
    && MayUse(s, who, if op.CreateKey? || op.RevokeKey? then "keys.manage" else "roles.manage", now)
    && match op
       case CreateRole(_, name, listed) =>
         && MayUseListed(s, who, listed, now) && Allotted(s, listed) && Trim(name) != ""
         && forall r :: r in s.roles ==> s.roles[r].name != Trim(name)
       case UpdateRole(r, listed) =>
         && r in s.roles && !s.roles[r].builtin && MayUseAll(s, who, s.roles[r].permissions, now)
         && MayUseListed(s, who, listed, now) && Allotted(s, listed)
       case Grant(_, r, to) =>
         && r in s.roles && MayUseAll(s, who, s.roles[r].permissions, now)
         && forall i :: i in s.assignments && s.assignments[i].actor == to && s.assignments[i].role == r ==>
              s.assignments[i].revoked
       case Revoke(i) =>
         && i in s.assignments && !s.assignments[i].revoked && s.assignments[i].role in s.roles
         && MayUseAll(s, who, s.roles[s.assignments[i].role].permissions, now)
       case CreateKey(_, listed, expires) =>
         && !who.Key? && MayUseListed(s, who, listed, now) && Allotted(s, listed)
         && (expires.Some? ==> now < expires.value)
       case RevokeKey(k) =>
         && k in s.keys && !s.keys[k].revoked && MayUseAll(s, who, s.keys[k].scopes, now)
  }

  lemma {:induction false} AcceptedExactlyIf(s: State, who: Actor, now: Time, op: Op)
    ensures Handle(s, who, now, op).1.None? <==> Entitled(s, who, now, op)
    ensures Handle(s, who, now, op).1.Some? ==> Handle(s, who, now, op).0 == s
  {
    HoldsIsMayUse(s, who, Needs(op), now);
    match op {
      case CreateRole(_, _, listed) =>
        CeilingIsMayUse(s, who, listed, {}, now);
        GrantableIsAllotted(s, listed);
      case UpdateRole(r, listed) =>
        CeilingIsMayUse(s, who, listed, if r in s.roles then s.roles[r].permissions else {}, now);
        GrantableIsAllotted(s, listed);
      case Grant(_, r, _) => CeilingIsMayUse(s, who, [], if r in s.roles then s.roles[r].permissions else {}, now);
      case Revoke(i) =>
        if i in s.assignments && s.assignments[i].role in s.roles {
          CeilingIsMayUse(s, who, [], s.roles[s.assignments[i].role].permissions, now);
        }
      case CreateKey(_, listed, _) =>
        CeilingIsMayUse(s, who, listed, {}, now);
        GrantableIsAllotted(s, listed);
      case RevokeKey(k) => CeilingIsMayUse(s, who, [], if k in s.keys then s.keys[k].scopes else {}, now);
    }
    hide Holds, MayUse, WithinCeiling, HoldsAll, MayUseListed, MayUseAll, Grantable, Allotted, Trim, Tidied;
  }

  /** The row the request is about is there. */
  predicate Present(s: State, op: Op) {
    match op
    case UpdateRole(r, _) => r in s.roles
    case Grant(_, r, _) => r in s.roles
    case Revoke(i) => i in s.assignments && s.assignments[i].role in s.roles
    case RevokeKey(k) => k in s.keys
    case _ => true
  }

  /** The caller may use all that the request would give, change or take away. */
  predicate Covers(s: State, who: Actor, now: Time, op: Op)
    requires Present(s, op)
  {
    match op
    case CreateRole(_, _, listed) => MayUseListed(s, who, listed, now)
    case UpdateRole(r, listed) => MayUseAll(s, who, s.roles[r].permissions, now) && MayUseListed(s, who, listed, now)
    case Grant(_, r, _) => MayUseAll(s, who, s.roles[r].permissions, now)
    case Revoke(i) => MayUseAll(s, who, s.roles[s.assignments[i].role].permissions, now)
    case CreateKey(_, listed, _) => !who.Key? && MayUseListed(s, who, listed, now)
    case RevokeKey(k) => MayUseAll(s, who, s.keys[k].scopes, now)
  }

  /** And exactly why each other one is refused, the first reason counting: the caller's key, its permission, a
      missing row, the ceiling, a builtin role, what was asked for, and what is there already. */
  lemma {:induction false} RefusedBecause(s: State, who: Actor, now: Time, op: Op)
    ensures var error := Handle(s, who, now, op).1;
            var need := if op.CreateKey? || op.RevokeKey? then "keys.manage" else "roles.manage";
            var listed := match op case CreateRole(_, _, l) => l case UpdateRole(_, l) => l
                                   case CreateKey(_, l, _) => l case _ => [];
            if who.Key? && !LetIn(s, who.id, now) then error == Some(Unauthenticated)
            else if !MayUse(s, who, need, now) then error == Some(Denied)
            else if !Present(s, op) then error == Some(NotFound)
            else if !Covers(s, who, now, op) then error == Some(Denied)
            else if op.UpdateRole? && s.roles[op.role].builtin then error == Some(Immutable)
            else if (op.CreateRole? || op.UpdateRole? || op.CreateKey?) && !Allotted(s, listed)
            then error == Some(Invalid)
            else if op.CreateRole? && Trim(op.name) == "" then error == Some(Invalid)
            else if op.CreateKey? && op.expires.Some? && op.expires.value <= now then error == Some(Invalid)
            else error == None || (error == Some(Conflict) && !op.CreateKey? && !op.UpdateRole?)
  {
    HoldsIsMayUse(s, who, Needs(op), now);
    match op {
      case CreateRole(_, _, listed) =>
        CeilingIsMayUse(s, who, listed, {}, now);
        GrantableIsAllotted(s, listed);
      case UpdateRole(r, listed) =>
        CeilingIsMayUse(s, who, listed, if r in s.roles then s.roles[r].permissions else {}, now);
        GrantableIsAllotted(s, listed);
      case Grant(_, r, _) => CeilingIsMayUse(s, who, [], if r in s.roles then s.roles[r].permissions else {}, now);
      case Revoke(i) =>
        if i in s.assignments && s.assignments[i].role in s.roles {
          CeilingIsMayUse(s, who, [], s.roles[s.assignments[i].role].permissions, now);
        }
      case CreateKey(_, listed, _) =>
        CeilingIsMayUse(s, who, listed, {}, now);
        GrantableIsAllotted(s, listed);
      case RevokeKey(k) => CeilingIsMayUse(s, who, [], if k in s.keys then s.keys[k].scopes else {}, now);
    }
    hide Holds, MayUse, WithinCeiling, HoldsAll, MayUseListed, MayUseAll, Grantable, Allotted, Trim, Tidied;
  }

  /** And exactly what it then stores; everything else stays as it is. */
  lemma {:induction false} AcceptedStores(s: State, who: Actor, now: Time, op: Op)
    requires Handle(s, who, now, op).1.None?
    ensures var s' := Handle(s, who, now, op).0;
            s'.registered == s.registered &&
            match op
            case CreateRole(id, name, listed) =>
              && id in s'.roles && s' == s.(roles := s.roles[id := s'.roles[id]])
              && s'.roles[id].name == Trim(name) && !s'.roles[id].builtin && Stores(s'.roles[id].permissions, listed)
            case UpdateRole(r, listed) =>
              && r in s.roles && r in s'.roles && s' == s.(roles := s.roles[r := s'.roles[r]])
              && s'.roles[r] == s.roles[r].(permissions := s'.roles[r].permissions)
              && Stores(s'.roles[r].permissions, listed)
            case Grant(id, r, to) => s' == s.(assignments := s.assignments[id := Assignment(to, r, false)])
            case Revoke(i) =>
              && i in s.assignments && i in s'.assignments
              && s' == s.(assignments := s.assignments[i := s.assignments[i].(revoked := true)])
            case CreateKey(id, listed, expires) =>
              && id in s'.keys && s' == s.(keys := s.keys[id := s'.keys[id]])
              && s'.keys[id] == ApiKey(s'.keys[id].scopes, Some(who), expires, false)
              && Stores(s'.keys[id].scopes, listed)
            case RevokeKey(k) => k in s.keys && s' == s.(keys := s.keys[k := s.keys[k].(revoked := true)])
  {
    match op {
      case CreateRole(_, _, listed) => TidiedStores(listed);
      case UpdateRole(_, listed) => TidiedStores(listed);
      case CreateKey(_, listed, _) => TidiedStores(listed);
      case _ =>
    }
    hide Holds, WithinCeiling, HoldsAll, Grantable, Trim, Tidied, Stores;
  }

  // ---- revocations -------------------------------------------------------------------------------

  lemma {:induction false} SpentStaysOnce(s: State, who: Actor, now: Time, op: Op)
    requires Fresh(s, op)
    ensures var s' := Handle(s, who, now, op).0;
            && (forall k :: k in s.keys && s.keys[k].revoked ==> k in s'.keys && s'.keys[k].revoked)
            && (forall i :: i in s.assignments ==>
              i in s'.assignments && s'.assignments[i].actor == s.assignments[i].actor)
            && (forall i :: i in s.assignments && s.assignments[i].revoked ==> s'.assignments[i].revoked)
            && (forall i :: i in s'.assignments && i !in s.assignments ==>
              op.Grant? && s'.assignments[i].actor == op.to)
  {
    hide Holds, WithinCeiling, HoldsAll, Grantable, Trim, Tidied;
  }

  /** What was revoked stays so, and assignments only come from grants. */
  lemma {:induction false} SpentStays(s: State, es: seq<Event>)
    ensures var s' := Run(s, es);
            && (forall k :: k in s.keys && s.keys[k].revoked ==> k in s'.keys && s'.keys[k].revoked)
            && (forall i :: i in s.assignments ==>
              i in s'.assignments && s'.assignments[i].actor == s.assignments[i].actor)
            && (forall i :: i in s.assignments && s.assignments[i].revoked ==> s'.assignments[i].revoked)
            && (forall i :: i in s'.assignments && i !in s.assignments ==>
                  exists n :: 0 <= n < |es| && es[n].op.Grant? && es[n].op.to == s'.assignments[i].actor)
  {
    hide Handle, Fresh;
    if es != [] {
      var before, e := es[..|es| - 1], es[|es| - 1];
      SpentStays(s, before);
      var s1 := Run(s, before);
      if Fresh(s1, e.op) { SpentStaysOnce(s1, e.who, e.at, e.op); }
      forall n | 0 <= n < |before| ensures es[n] == before[n] {}
    }
  }

  /** Once a key is revoked it is never let in again, and may use nothing, whatever happens later and at any time. */
  lemma {:induction false} RevokedKeyIsDead(
      s: State, who: Actor, now: Time, k: nat, es: seq<Event>, p: string, later: Time)
    requires Handle(s, who, now, RevokeKey(k)).1.None?
    ensures var s' := Run(Handle(s, who, now, RevokeKey(k)).0, es);
            k in s'.keys && !Authenticates(s', Key(k), later) && !Holds(s', Key(k), p, later)
  {
    AcceptedStores(s, who, now, RevokeKey(k));
    SpentStays(Handle(s, who, now, RevokeKey(k)).0, es);
    hide Run, Handle;
  }

  /** Once a user's last assignment is revoked, it may use nothing, until a request grants it something. */
  lemma {:induction false} RevokedAssignmentGivesNothing(
      s: State, who: Actor, now: Time, i: nat, es: seq<Event>, p: string, later: Time)
    requires Handle(s, who, now, Revoke(i)).1.None? && i in s.assignments && s.assignments[i].actor.User?
    requires forall j :: j in s.assignments && j != i && s.assignments[j].actor == s.assignments[i].actor ==>
               s.assignments[j].revoked
    requires forall n :: 0 <= n < |es| && es[n].op.Grant? ==> es[n].op.to != s.assignments[i].actor
    ensures !Holds(Run(Handle(s, who, now, Revoke(i)).0, es), s.assignments[i].actor, p, later)
  {
    AcceptedStores(s, who, now, Revoke(i));
    SpentStays(Handle(s, who, now, Revoke(i)).0, es);
    HoldsIsMayUse(Run(Handle(s, who, now, Revoke(i)).0, es), s.assignments[i].actor, p, later);
    hide Run, Handle, Holds;
  }

  /** And a grant gives, at once, all the role lists. */
  lemma {:induction false} GrantGives(s: State, who: Actor, now: Time, id: nat, r: nat, u: nat, p: string)
    requires Handle(s, who, now, Grant(id, r, User(u))).1.None? && r in s.roles && p in s.roles[r].permissions
        && p != ""
    ensures Holds(Handle(s, who, now, Grant(id, r, User(u))).0, User(u), p, now)
  {
    var s' := Handle(s, who, now, Grant(id, r, User(u))).0;
    AcceptedStores(s, who, now, Grant(id, r, User(u)));
    HoldsIsMayUse(s', User(u), p, now);
    hide Handle, Holds;
    assert s'.assignments[id] == Assignment(User(u), r, false);
  }
}
