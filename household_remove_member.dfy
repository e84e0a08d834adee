/** Removing another member: owners only, never the caller (leaving has
    its own route). */
module HouseholdRemoveMember {
  import opened Seqs
  import opened HouseholdStore

  /** The caller's row survives removing someone else, so the household
      keeps an owner. */
  lemma RemovalKeepsCaller(rows: seq<Member>, h: Id, me: Id, u: Id)
    requires Member(h, me, Owner) in rows && u != me
    ensures Member(h, me, Owner) in Without(rows, h, u)
    ensures OwnerCount(Without(rows, h, u), h) >= 1
  {
    OwnerRowCounts(Without(rows, h, u), Member(h, me, Owner));
  }

  /** `POST /api/household/remove-member` with body `{ userId }`. */
  method RemoveMember(store: Store, isPost: bool, me: Option<Id>, userId: Option<Id>) returns (status: int)
    requires store.Valid()
    modifies store
    ensures store.Valid()
    ensures !isPost ==> status == 405
    ensures isPost && me.None? ==> status == 401
    ensures isPost && me.Some? && userId.None? ==> status == 400
    ensures status != 200 ==> unchanged(store)
    ensures isPost && me.Some? && userId.Some? ==>
      match FirstMembership(old(store.members), me.value)
      case None => status == 400
      case Some(myM) =>
        if myM.role != Owner then status == 403
        else if userId.value == me.value then status == 400
        else if !HasRow(old(store.members), myM.householdId, userId.value) then status == 500
        else (status == 200
          && store.members == Without(old(store.members), myM.householdId, userId.value)
          && !HasRow(store.members, myM.householdId, userId.value)
          && OwnerCount(store.members, myM.householdId) >= 1
          && store.households == old(store.households) && store.accounts == old(store.accounts)
          && store.users == old(store.users) && store.invites == old(store.invites)
          && store.lists == old(store.lists) && store.items == old(store.items)
          && store.financeSettings == old(store.financeSettings))
  {
    if !isPost {
      return 405;
    }
    if me.None? {
      return 401;
    }
    if userId.None? {
      return 400;
    }
    var myM := FirstMembership(store.members, me.value);
    if myM.None? {
      return 400;
    }
    if myM.value.role != Owner {
      return 403;
    }
    if userId.value == me.value {
      return 400;
    }
    var h := myM.value.householdId;
    assert Member(h, me.value, Owner) == myM.value;
    RemovalKeepsCaller(store.members, h, me.value, userId.value);
    var found := store.DeleteMember(h, userId.value);
    status := if found then 200 else 500;
  }
}
