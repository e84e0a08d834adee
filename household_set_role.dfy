/** Changing another member's role: owners only, never the caller's own row. */
module HouseholdSetRole {
  import opened Seqs
  import opened HouseholdStore

  /** The roles the route accepts. */
  predicate ValidRole(role: Option<string>)
  {
    role == Some(Owner) || role == Some(MemberRole)
  }

  /** The caller's row survives a role change aimed at someone else, so an
      owner who changes a role leaves the household with an owner. */
  lemma RoleChangeKeepsCaller(rows: seq<Member>, h: Id, me: Id, u: Id, role: string)
    requires Member(h, me, Owner) in rows && u != me
    ensures Member(h, me, Owner) in WithRole(rows, h, u, role)
    ensures OwnerCount(WithRole(rows, h, u, role), h) >= 1
  {
    var k :| 0 <= k < |rows| && rows[k] == Member(h, me, Owner);
    assert WithRole(rows, h, u, role)[k] == Member(h, me, Owner);
    OwnerRowCounts(WithRole(rows, h, u, role), Member(h, me, Owner));
  }

  /** `POST /api/household/set-role` with body `{ userId, role }`. */
  method SetRole(store: Store, isPost: bool, me: Option<Id>, userId: Option<Id>, role: Option<string>)
    returns (status: int)
    requires store.Valid()
    modifies store
    ensures store.Valid()
    ensures !isPost ==> status == 405
    ensures isPost && me.None? ==> status == 401
    ensures isPost && me.Some? && (userId.None? || !ValidRole(role)) ==> status == 400
    ensures status != 200 ==> unchanged(store)
    ensures isPost && me.Some? && userId.Some? && ValidRole(role) ==>
      match FirstMembership(old(store.members), me.value)
      case None => status == 400
      case Some(myM) =>
        if myM.role != Owner then status == 403
        else if userId.value == me.value then status == 400
        else if !HasRow(old(store.members), myM.householdId, userId.value) then status == 500
        else (status == 200
          && store.members == WithRole(old(store.members), myM.householdId, userId.value, role.value)
          && store.households == old(store.households) && store.users == old(store.users)
          && store.accounts == old(store.accounts) && store.invites == old(store.invites)
          && store.lists == old(store.lists) && store.items == old(store.items)
          && store.financeSettings == old(store.financeSettings)
          && OwnerCount(store.members, myM.householdId) >= 1)
  {
    if !isPost {
      return 405;
    }
    if me.None? {
      return 401;
    }
    if userId.None? || !ValidRole(role) {
      return 400;
    }
    var myM := FirstMembership(store.members, me.value);
    if myM.None? {
      return 400;
    }
    if myM.value.role != Owner {
      return 403;
    }
    if userId.value == me.value {
      return 400;
    }
    var h := myM.value.householdId;
    assert Member(h, me.value, Owner) == myM.value;
    RoleChangeKeepsCaller(store.members, h, me.value, userId.value, role.value);
    var found := store.UpdateRole(h, userId.value, role.value);
    status := if found then 200 else 500;
  }
}
