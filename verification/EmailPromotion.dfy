/** After an identity goes, the user's address must again be one of its identities': which one is
    promoted, and when none can be. */
module EmailPromotion {
  import opened Prelude

  type Time = int
  type Id = int

  // Addresses are stored in lower case; "" is an absent one. `pending` are the outstanding tokens and changes.
  datatype User = User(email: string, aud: string, sso: bool, emailConfirmed: bool, phone: string,
      phoneConfirmed: bool, pending: set<string>)

  datatype Identity = Identity(user: Id, provider: string, email: string, verified: bool, createdAt: Time)

  datatype State = State(users: map<Id, User>, identities: map<nat, Identity>)

  datatype Error = Conflict | SingleIdentity | IdentityNotFound

  predicate Of(s: State, u: Id, i: nat) {
    i in s.identities && s.identities[i].user == u
  }

  function IdentitiesOf(s: State, u: Id): set<nat> {
    set i | i in s.identities && s.identities[i].user == u
  }

  predicate Backed(s: State, u: Id)
    requires u in s.users
  {
    s.users[u].email != "" && exists i :: i in s.identities && Of(s, u, i) && s.identities[i].email == s.users[u].email
  }

  /** Somebody else, in the user's audience, signs in with this address. */
  predicate TakenHere(s: State, u: Id, email: string)
    requires u in s.users
  {
    exists w :: w in s.users && w != u && !s.users[w].sso && s.users[w].email == email
        && s.users[w].aud == s.users[u].aud
  }

  /** The unique index knows no audience, and no SSO users. */
  predicate TakenAnywhere(s: State, u: Id, email: string) {
    exists w :: w in s.users && w != u && !s.users[w].sso && s.users[w].email == email
  }

  predicate OneOwner(s: State) {
    forall u, w :: u in s.users && w in s.users && u != w && !s.users[u].sso && !s.users[w].sso ==>
      (s.users[u].email != "" ==> s.users[u].email != s.users[w].email)
  }

  // ---- the order ------------------------------------------------------------------------------

  function Rank(x: Identity): nat {
    if x.email == "" then 2 else if !x.verified then 1 else 0
  }

  /** Verified addresses first, then unverified ones, then none; older before newer, then by id. */
  predicate Before(s: State, i: nat, j: nat)
    requires i in s.identities && j in s.identities
  {
    var x, y := s.identities[i], s.identities[j];
    if Rank(x) != Rank(y) then Rank(x) < Rank(y)
    else if x.createdAt != y.createdAt then x.createdAt < y.createdAt
    else i < j
  }

  predicate Eligible(s: State, u: Id, i: nat)
    requires u in s.users
  {
    Of(s, u, i) && (s.identities[i].email == "" || !TakenHere(s, u, s.identities[i].email))
  }

  /** The least eligible identity. */
  predicate Chosen(s: State, u: Id, i: nat)
    requires u in s.users
  {
    Eligible(s, u, i) && forall j :: j in s.identities && Eligible(s, u, j) && j != i ==> Before(s, i, j)
  }

  // ---- promoting ------------------------------------------------------------------------------

  function Promoted(x: User, i: Identity, autoconfirm: bool): User {
    var confirmed := x.emailConfirmed && i.email != "" && (i.verified || autoconfirm);
    x.(email := i.email, emailConfirmed := confirmed, pending := {})
  }

  ghost function Choice(s: State, u: Id): Option<nat>
    requires u in s.users
  {
    if i: nat :| Chosen(s, u, i) then Some(i) else None
  }

  ghost function Promote(s: State, u: Id, autoconfirm: bool): Result<State, Error>
    requires u in s.users
  {
    if Backed(s, u) then Ok(s)
    else
      match Choice(s, u)
      case None => Err(Conflict)
      case Some(i) =>
        var x := s.identities[i];
        if x.email != "" && !s.users[u].sso && TakenAnywhere(s, u, x.email) then Err(Conflict)
        else Ok(s.(users := s.users[u := Promoted(s.users[u], x, autoconfirm)]))
  }

  // ---- properties -----------------------------------------------------------------------------

  lemma {:induction false} ChosenUnique(s: State, u: Id, i: nat)
    requires u in s.users && Chosen(s, u, i)
    ensures Choice(s, u) == Some(i)
  {}

  /** The least of a non-empty set of identities. */
  lemma {:induction false} LeastExists(s: State, ids: set<nat>) returns (i: nat)
    requires ids != {} && forall j :: j in ids ==> j in s.identities
    ensures i in ids && forall j :: j in ids && j != i ==> Before(s, i, j)
    decreases ids
  {
    var x :| x in ids;
    var rest := ids - {x};
    if rest == {} {
      i := x;
      assert ids == {x};
    } else {
      var least := LeastExists(s, rest);
      i := if Before(s, least, x) then least else x;
      forall j | j in ids && j != i ensures Before(s, i, j) {
        if i == x && j != least { assert j in rest && Before(s, least, j); }
        if i == least { assert j == x || j in rest; }
      }
    }
  }

  lemma {:induction false} ChoiceExists(s: State, u: Id)
    requires u in s.users
    ensures Choice(s, u).Some? <==> exists i :: i in s.identities && Eligible(s, u, i)
    ensures Choice(s, u).Some? ==> Chosen(s, u, Choice(s, u).value)
  {
    if exists i :: i in s.identities && Eligible(s, u, i) {
      var ids := set i | i in s.identities && Eligible(s, u, i);
      assert ids != {} by { var i :| i in s.identities && Eligible(s, u, i); assert i in ids; }
      var i := LeastExists(s, ids);
      assert Chosen(s, u, i);
      ChosenUnique(s, u, i);
    }
  }

  /** The whole of a success: either the address was still backed and nothing changed, or it is now the least
      eligible identity's, confirmed only if it was and the new address counts as verified, with everything
      issued for the old address gone; either way nobody shares an address. */
  lemma {:induction false} PromotionSucceeds(s: State, u: Id, autoconfirm: bool)
    requires u in s.users && OneOwner(s) && Promote(s, u, autoconfirm).Ok?
    ensures var s' := Promote(s, u, autoconfirm).value;
            && OneOwner(s') && s'.identities == s.identities && s'.users.Keys == s.users.Keys
            && (forall w :: w in s.users && w != u ==> s'.users[w] == s.users[w])
            && (s'.users[u].email == "" || Backed(s', u))
            && (Backed(s, u) ==> s' == s)
            && (!Backed(s, u) ==> exists i ::
                  && Chosen(s, u, i) && s'.users[u].email == s.identities[i].email && s'.users[u].pending == {}
                  && (s'.users[u].emailConfirmed <==>
                        s.users[u].emailConfirmed && s.identities[i].email != ""
                            && (s.identities[i].verified || autoconfirm)))
  {
    ChoiceExists(s, u);
    if !Backed(s, u) {
      var i := Choice(s, u).value;
      var s' := Promote(s, u, autoconfirm).value;
      if s.identities[i].email != "" {
        assert Of(s', u, i) && s'.identities[i].email == s'.users[u].email;
      }
    }
  }

  /** When it fails: nothing backs the address, and either every identity has an address of somebody else in the
      audience, or the least other one is somebody's in another audience. */
  lemma {:induction false} ConflictExactly(s: State, u: Id, autoconfirm: bool)
    requires u in s.users
    ensures Promote(s, u, autoconfirm) == Err(Conflict) <==>
            && !Backed(s, u)
            && (|| (forall i :: i in s.identities && Of(s, u, i) ==>
                      s.identities[i].email != "" && TakenHere(s, u, s.identities[i].email))
                || (!s.users[u].sso
                    && exists i :: Chosen(s, u, i)
                         && s.identities[i].email != "" && TakenAnywhere(s, u, s.identities[i].email)))
  {
    ChoiceExists(s, u);
    if i :| Chosen(s, u, i) { ChosenUnique(s, u, i); }
  }

  predicate AllOwnedByOthers(s: State, u: Id)
    requires u in s.users
  {
    forall i :: i in s.identities && Of(s, u, i) ==>
        s.identities[i].email != "" && TakenAnywhere(s, u, s.identities[i].email)
  }

  /** The documented rule: a conflict exactly when every identity's address is owned by someone else. */
  ghost predicate RuleHolds(s: State, u: Id, autoconfirm: bool)
    requires u in s.users
  {
    Promote(s, u, autoconfirm) == Err(Conflict) <==> AllOwnedByOthers(s, u)
  }

  /** The address picked is owned in another audience while some identity has a free one, or none. */
  predicate PickedElsewhere(s: State, u: Id)
    requires u in s.users
  {
    && (exists i :: i in s.identities && Chosen(s, u, i) && s.identities[i].email != ""
          && TakenAnywhere(s, u, s.identities[i].email))
    && (exists j :: j in s.identities && Of(s, u, j)
          && (s.identities[j].email == "" || !TakenAnywhere(s, u, s.identities[j].email)))
  }

  /** An SSO user, whom the unique index lets share an address: all its addresses are owned, but it has one of them
      already, or one is owned in another audience only. */
  predicate SharedBySso(s: State, u: Id)
    requires u in s.users
  {
    AllOwnedByOthers(s, u) && (Backed(s, u) || exists i :: i in s.identities && Eligible(s, u, i))
  }

  /** When the rule holds, for every user: an SSO user must not share its addresses like that; for any other the
      address is still backed, or the picked one is not owned elsewhere while some identity has a free one. */
  lemma {:induction false} DocumentedRuleHoldsIff(s: State, u: Id, autoconfirm: bool)
    requires u in s.users && OneOwner(s)
    ensures RuleHolds(s, u, autoconfirm) <==>
            if s.users[u].sso then !SharedBySso(s, u) else Backed(s, u) || !PickedElsewhere(s, u)
  {
    ChoiceExists(s, u);
    if Backed(s, u) {
      if !s.users[u].sso { BackedIsOwn(s, u); }
    } else if Choice(s, u).Some? {
      OnlyOneChosen(s, u, Choice(s, u).value);
      hide Before, Chosen;
    } else {
      NoneEligible(s, u);
      hide Chosen;
    }
  }

  lemma {:induction false} BackedIsOwn(s: State, u: Id)
    requires u in s.users && OneOwner(s) && Backed(s, u) && !s.users[u].sso
    ensures !AllOwnedByOthers(s, u)
  {
    var i :| i in s.identities && Of(s, u, i) && s.identities[i].email == s.users[u].email;
    assert !TakenAnywhere(s, u, s.identities[i].email);
  }

  lemma {:induction false} OnlyOneChosen(s: State, u: Id, i: nat)
    requires u in s.users && Chosen(s, u, i)
    ensures forall j :: j in s.identities && Chosen(s, u, j) ==> j == i
  {}

  lemma {:induction false} NoneEligible(s: State, u: Id)
    requires u in s.users && !exists i :: i in s.identities && Eligible(s, u, i)
    ensures AllOwnedByOthers(s, u)
  {
    forall i | i in s.identities && Of(s, u, i)
      ensures s.identities[i].email != "" && TakenAnywhere(s, u, s.identities[i].email)
    {
      assert !Eligible(s, u, i);
    }
  }

  predicate OneAudience(s: State) {
    forall u, w :: u in s.users && w in s.users ==> s.users[u].aud == s.users[w].aud
  }

  /** With a single audience only an SSO user that still has a shared address escapes it. */
  lemma {:induction false} DocumentedRuleWithOneAudience(s: State, u: Id, autoconfirm: bool)
    requires u in s.users && OneAudience(s) && OneOwner(s)
    ensures RuleHolds(s, u, autoconfirm) <==> !(s.users[u].sso && Backed(s, u) && AllOwnedByOthers(s, u))
  {
    DocumentedRuleHoldsIff(s, u, autoconfirm);
    assert forall e :: TakenHere(s, u, e) <==> TakenAnywhere(s, u, e);
    if AllOwnedByOthers(s, u) {
      forall i | i in s.identities ensures !Eligible(s, u, i) {}
    }
    hide RuleHolds, Before;
  }

  const TWO_AUDIENCES := State(
    map[1 := User("old", "web", false, true, "", false, {}), 2 := User("a", "app", false, true, "", false, {})],
    map[0 := Identity(1, "google", "a", true, 0), 1 := Identity(1, "github", "b", true, 5)])

  /** With two it fails: the older verified address belongs to a user of the other audience, so the free one that
      comes next is never tried. */
  lemma {:induction false} DocumentedRuleFailsWithTwoAudiences()
    ensures OneOwner(TWO_AUDIENCES) && !Backed(TWO_AUDIENCES, 1)
    ensures Promote(TWO_AUDIENCES, 1, false) == Err(Conflict) && !AllOwnedByOthers(TWO_AUDIENCES, 1)
  {
    var s := TWO_AUDIENCES;
    GoogleIsChosen();
    ChosenUnique(s, 1, 0);
    hide Chosen, Eligible, TakenHere;
    assert s.users[2].email == "a" && TakenAnywhere(s, 1, "a");
    assert Of(s, 1, 1) && !TakenAnywhere(s, 1, "b");
  }

  const SSO_ELSEWHERE := State(
    map[1 := User("old", "web", true, true, "", false, {}), 2 := User("a", "app", false, true, "", false, {})],
    map[0 := Identity(1, "google", "a", true, 0)])

  /** And for an SSO user: its one address is somebody's in the other audience, and it is promoted all the same. */
  lemma {:induction false} DocumentedRuleFailsForSso()
    ensures OneOwner(SSO_ELSEWHERE) && Promote(SSO_ELSEWHERE, 1, false).Ok? && AllOwnedByOthers(SSO_ELSEWHERE, 1)
  {
    var s := SSO_ELSEWHERE;
    assert Chosen(s, 1, 0);
    ChosenUnique(s, 1, 0);
    assert s.users[2].email == "a" && TakenAnywhere(s, 1, "a");
  }

  lemma {:induction false} GoogleIsChosen()
    ensures Chosen(TWO_AUDIENCES, 1, 0)
  {}

  // ---- removing an identity -----------------------------------------------------------------------

  ghost function DeleteIdentity(s: State, u: Id, i: nat, autoconfirm: bool): Result<State, Error>
    requires u in s.users
  {
    if |IdentitiesOf(s, u)| <= 1 then Err(SingleIdentity)
    else if !Of(s, u, i) then Err(IdentityNotFound)
    else
      var s1 := s.(identities := s.identities - {i});
      if s.identities[i].provider == "phone"
      then Ok(s1.(users := s1.users[u := s1.users[u].(phone := "", phoneConfirmed := false)]))
      else Promote(s1, u, autoconfirm)
  }

  /** Removing an identity takes exactly that one, never the last, and afterwards the address, if any, is backed
      again, unless it was the phone identity, which leaves the address alone. */
  lemma {:induction false} DeletionKeepsAddressBacked(s: State, u: Id, i: nat, autoconfirm: bool)
    requires u in s.users && OneOwner(s) && DeleteIdentity(s, u, i, autoconfirm).Ok?
    ensures var s' := DeleteIdentity(s, u, i, autoconfirm).value;
            && OneOwner(s') && IdentitiesOf(s', u) == IdentitiesOf(s, u) - {i} && IdentitiesOf(s', u) != {}
            && u in s'.users
            && (if s.identities[i].provider == "phone" then s'.users[u].email == s.users[u].email
                else s'.users[u].email == "" || Backed(s', u))
  {
    var s1 := s.(identities := s.identities - {i});
    if s.identities[i].provider != "phone" { PromotionSucceeds(s1, u, autoconfirm); }
    var s' := DeleteIdentity(s, u, i, autoconfirm).value;
    assert s'.identities == s1.identities;
    assert IdentitiesOf(s', u) == IdentitiesOf(s, u) - {i};
    assert |IdentitiesOf(s, u) - {i}| == |IdentitiesOf(s, u)| - 1;
  }

  // ---- the handlers as they run --------------------------------------------------------------------

  predicate Sorted(s: State, order: seq<nat>) {
    && (forall k :: 0 <= k < |order| ==> order[k] in s.identities)
    && (forall k, l :: 0 <= k < l < |order| ==> Before(s, order[k], order[l]))
  }

  class Accounts {
    var users: map<Id, User>
    var identities: map<nat, Identity>

    function View(): State
      reads this
    {
      State(users, identities)
    }

    constructor (s: State)
      ensures View() == s
    {
      users, identities := s.users, s.identities;
    }

    /** The user's identities, in the order of preference. */
    method InOrder(u: Id) returns (order: seq<nat>)
      ensures Sorted(View(), order)
      ensures forall i :: i in order <==> Of(View(), u, i)
    {
      order := [];
      var todo := IdentitiesOf(View(), u);
      while todo != {}
        invariant todo <= IdentitiesOf(View(), u)
        invariant Sorted(View(), order)
        invariant forall i :: i in order <==> Of(View(), u, i) && i !in todo
        decreases todo
      {
        var i :| i in todo;
        todo := todo - {i};
        order := Insert(order, i);
      }
    }

    method Insert(order: seq<nat>, i: nat) returns (r: seq<nat>)
      requires Sorted(View(), order) && i in identities && i !in order
      ensures Sorted(View(), r)
      ensures forall j :: j in r <==> j in order || j == i
    {
      var k := 0;
      while k < |order| && Before(View(), order[k], i)
        invariant 0 <= k <= |order|
        invariant forall l :: 0 <= l < k ==> Before(View(), order[l], i)
      {
        k := k + 1;
      }
      r := order[..k] + [i] + order[k..];
      assert order == order[..k] + order[k..];
      forall a, b | 0 <= a < b < |r| ensures r[a] in identities && r[b] in identities && Before(View(), r[a], r[b]) {
        Placed(View(), order, i, k, a, b);
      }
      if |r| == 1 { assert r[0] == i; }
    }

    method UpdateUserEmailFromIdentities(u: Id, autoconfirm: bool) returns (error: Option<Error>)
      requires u in users
      modifies this
      ensures match Promote(old(View()), u, autoconfirm)
              case Ok(s) => error == None && View() == s
              case Err(e) => error == Some(e) && View() == old(View())
    {
      if Backed(View(), u) {
        return None;
      }
      var order := InOrder(u);
      var primary := None;
      for k := 0 to |order|
        invariant primary == None
        invariant forall l :: 0 <= l < k ==> !Eligible(View(), u, order[l])
      {
        assert order[k] in order;
        var candidate := identities[order[k]];
        if candidate.email == "" || !TakenHere(View(), u, candidate.email) {
          primary := Some(order[k]);
          FirstEligibleIsChosen(View(), u, order, k);
          break;
        }
      }
      ChoiceExists(View(), u);
      if primary == None {
        return Some(Conflict);
      }
      var x := identities[primary.value];
      ChosenUnique(View(), u, primary.value);
      if x.email != "" && !users[u].sso && TakenAnywhere(View(), u, x.email) {
        return Some(Conflict);
      }
      var confirmed := users[u].emailConfirmed;
      if x.email == "" || (!x.verified && !autoconfirm) {
        confirmed := false;
      }
      users := users[u := users[u].(email := x.email, emailConfirmed := confirmed, pending := {})];
      return None;
    }

    /** A conflict takes the deletion back. */
    method RemoveIdentity(u: Id, i: nat, autoconfirm: bool) returns (error: Option<Error>)
      requires u in users
      modifies this
      ensures match DeleteIdentity(old(View()), u, i, autoconfirm)
              case Ok(s) => error == None && View() == s
              case Err(e) => error == Some(e) && View() == old(View())
    {
      if |IdentitiesOf(View(), u)| <= 1 {
        return Some(SingleIdentity);
      }
      if i !in identities || identities[i].user != u {
        return Some(IdentityNotFound);
      }
      var was := identities;
      identities := identities - {i};
      if was[i].provider == "phone" {
        users := users[u := users[u].(phone := "", phoneConfirmed := false)];
        return None;
      }
      error := UpdateUserEmailFromIdentities(u, autoconfirm);
      if error.Some? {
        identities := was;
      }
    }
  }

  lemma {:induction false} Placed(s: State, order: seq<nat>, i: nat, k: nat, a: nat, b: nat)
    requires Sorted(s, order) && i in s.identities && i !in order && k <= |order|
    requires forall l :: 0 <= l < k ==> Before(s, order[l], i)
    requires k < |order| ==> !Before(s, order[k], i)
    requires a < b < |order| + 1
    ensures var r := order[..k] + [i] + order[k..];
            r[a] in s.identities && r[b] in s.identities && Before(s, r[a], r[b])
  {
    var r := order[..k] + [i] + order[k..];
    assert r[a] == if a < k then order[a] else if a == k then i else order[a - 1];
    assert r[b] == if b < k then order[b] else if b == k then i else order[b - 1];
    if a == k { assert order[k] in order; }
  }

  lemma {:induction false} FirstEligibleIsChosen(s: State, u: Id, order: seq<nat>, k: nat)
    requires u in s.users && Sorted(s, order) && (forall i :: i in order <==> Of(s, u, i))
    requires k < |order| && Eligible(s, u, order[k]) && forall l :: 0 <= l < k ==> !Eligible(s, u, order[l])
    ensures Chosen(s, u, order[k])
  {
    forall j | j in s.identities && Eligible(s, u, j) && j != order[k] ensures Before(s, order[k], j) {
      var l :| 0 <= l < |order| && order[l] == j;
      assert l > k;
    }
  }
}
