/** Which address a user is left with, in terms of the rows. */
module PromotionLaws {
  import opened Prelude
  import opened EmailPromotion

  /** Another user, no SSO one, of the same audience has the address. */
  predicate OwnedHere(s: State, u: Id, email: string)
    requires u in s.users
  {
    exists w :: w in s.users && w != u && s.users[w].email == email && s.users[w].aud == s.users[u].aud
      && !s.users[w].sso
  }

  predicate OwnedSomewhere(s: State, u: Id, email: string) {
    exists w :: w in s.users && w != u && s.users[w].email == email && !s.users[w].sso
  }

  /** The identity is the user's, and nobody here has its address, if it has one. */
  predicate Free(s: State, u: Id, i: nat)
    requires u in s.users
  {
    i in s.identities && s.identities[i].user == u
    && (s.identities[i].email != "" ==> !OwnedHere(s, u, s.identities[i].email))
  }

  predicate Older(s: State, i: nat, j: nat)
    requires i in s.identities && j in s.identities
  {
    s.identities[i].createdAt < s.identities[j].createdAt
    || (s.identities[i].createdAt == s.identities[j].createdAt && i <= j)
  }

  /** A free identity such that no free one is preferred to it: an address to none, a verified one to an unverified one
      and, among equals, the oldest. */
  predicate Preferred(s: State, u: Id, i: nat)
    requires u in s.users
  {
    && Free(s, u, i)
    && (s.identities[i].email == "" ==>
          forall j :: j in s.identities && Free(s, u, j) ==> s.identities[j].email == "" && Older(s, i, j))
    && (s.identities[i].email != "" && s.identities[i].verified ==>
          forall j :: j in s.identities && Free(s, u, j) && s.identities[j].email != "" && s.identities[j].verified ==>
            Older(s, i, j))
    && (s.identities[i].email != "" && !s.identities[i].verified ==>
          && (forall j :: j in s.identities && Free(s, u, j) && s.identities[j].email != "" ==>
            !s.identities[j].verified)
          && (forall j :: j in s.identities && Free(s, u, j) && s.identities[j].email != "" ==> Older(s, i, j)))
  }

  lemma {:induction false} ChosenIsPreferred(s: State, u: Id, i: nat)
    requires u in s.users
    ensures Chosen(s, u, i) <==> Preferred(s, u, i)
  {
    forall e ensures TakenHere(s, u, e) <==> OwnedHere(s, u, e) {}
    hide TakenHere, OwnedHere;
    assert forall j :: Eligible(s, u, j) <==> Free(s, u, j);
    hide Eligible, Free;
    if i in s.identities && Free(s, u, i) {
      forall j | j in s.identities && Free(s, u, j) && j != i
        ensures Before(s, i, j) <==>
                var x, y := s.identities[i], s.identities[j];
                || (x.email != "" && y.email == "")
                || (x.email != "" && y.email != "" && x.verified && !y.verified)
                || ((x.email == "" <==> y.email == "") && (x.email != "" ==> x.verified == y.verified)
                  && Older(s, i, j))
      {}
    }
    hide Before, Rank, Older;
  }

  /** The address is one of the user's identities' already. */
  predicate StillBacked(s: State, u: Id)
    requires u in s.users
  {
    s.users[u].email != "" &&
    exists i :: i in s.identities && s.identities[i].user == u && s.identities[i].email == s.users[u].email
  }

  /** Nothing happens while the address is backed. Otherwise the preferred identity's becomes the user's, unless there
      is none, or someone elsewhere has it and the user is no SSO one; confirmed stays what was confirmed, if the
      address is verified or the instance takes it as such, and all outstanding tokens and changes are void. */
  lemma {:induction false} PromotesThePreferred(s: State, u: Id, autoconfirm: bool)
    requires u in s.users
    ensures var r := Promote(s, u, autoconfirm);
            && (StillBacked(s, u) ==> r == Ok(s))
            && (!StillBacked(s, u) && (forall i :: !Preferred(s, u, i)) ==> r == Err(Conflict))
            && forall i :: !StillBacked(s, u) && Preferred(s, u, i) ==>
                 var x := s.identities[i];
                 if x.email != "" && !s.users[u].sso && OwnedSomewhere(s, u, x.email) then r == Err(Conflict)
                 else r == Ok(s.(users := s.users[u := s.users[u].(
                    email := x.email,
                    emailConfirmed := s.users[u].emailConfirmed && x.email != "" && (x.verified || autoconfirm),
                    pending := {})]))
  {
    forall i ensures Chosen(s, u, i) <==> Preferred(s, u, i) { ChosenIsPreferred(s, u, i); }
    assert Backed(s, u) <==> StillBacked(s, u) by {
      if i :| i in s.identities && s.identities[i].user == u && s.identities[i].email == s.users[u].email {
        assert Of(s, u, i);
      }
    }
    forall e ensures TakenAnywhere(s, u, e) <==> OwnedSomewhere(s, u, e) {}
    forall i: nat | Chosen(s, u, i) ensures Choice(s, u) == Some(i) { ChosenUnique(s, u, i); }
    ChoiceExists(s, u);
    hide Chosen, Preferred, Backed, StillBacked, TakenAnywhere, OwnedSomewhere;
  }

  /** There is a preferred one exactly if there is a free one. */
  lemma {:induction false} SomePreferred(s: State, u: Id)
    requires u in s.users
    ensures (exists i :: Preferred(s, u, i)) <==> exists i :: Free(s, u, i)
  {
    forall i ensures Chosen(s, u, i) <==> Preferred(s, u, i) { ChosenIsPreferred(s, u, i); }
    ChoiceExists(s, u);
    forall e ensures TakenHere(s, u, e) <==> OwnedHere(s, u, e) {}
    hide TakenHere, OwnedHere;
    assert forall j :: Eligible(s, u, j) <==> Free(s, u, j);
    hide Eligible, Free;
    if i :| Preferred(s, u, i) { assert Chosen(s, u, i) && Eligible(s, u, i); }
    hide Preferred;
  }

  predicate AtMostOne(s: State, u: Id) {
    forall j, k :: j in s.identities && k in s.identities ==>
      (s.identities[j].user == u && s.identities[k].user == u ==> j == k)
  }

  /** Exactly when an identity may be deleted, and that a phone's goes with the number and nothing else. */
  lemma {:induction false} DeletesExactly(s: State, u: Id, i: nat, autoconfirm: bool)
    requires u in s.users
    ensures var r := DeleteIdentity(s, u, i, autoconfirm);
            if AtMostOne(s, u) then r == Err(SingleIdentity)
            else if !(i in s.identities && s.identities[i].user == u) then r == Err(IdentityNotFound)
            else if s.identities[i].provider != "phone"
            then r == Promote(State(s.users, s.identities - {i}), u, autoconfirm)
            else r == Ok(State(s.users[u := s.users[u].(phone := "", phoneConfirmed := false)], s.identities - {i}))
  {
    var ids := IdentitiesOf(s, u);
    SmallSet(ids);
    assert AtMostOne(s, u) <==> |ids| <= 1 by {
      assert forall j :: j in ids <==> j in s.identities && s.identities[j].user == u;
    }
    hide Promote, AtMostOne, IdentitiesOf;
  }

  lemma {:induction false} SmallSet(ids: set<nat>)
    ensures |ids| <= 1 <==> forall j, k :: j in ids && k in ids ==> j == k
  {
    if forall j, k :: j in ids && k in ids ==> j == k {
      if j :| j in ids { assert ids == {j}; }
    } else {
      var j, k :| j in ids && k in ids && j != k;
      assert {j, k} <= ids;
      assert |ids - {j, k}| == |ids| - 2;
    }
  }
}
