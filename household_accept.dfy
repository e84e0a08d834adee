/** Accepting an invite: a valid, unexpired token makes the caller a member
    of the invite's household, keeping any membership they already have. */
module HouseholdAccept {
  import opened Seqs
  import opened HouseholdStore

  /** A token the route accepts: present and not empty. */
  predicate GivenToken(token: Option<string>)
  {
    token.Some? && token.value != ""
  }

  /** Accepting keeps an existing member's role (an owner stays an owner),
      and a second accept changes nothing. */
  lemma AcceptKeepsMembership(rows: seq<Member>, h: Id, me: Id, role: string)
    requires Member(h, me, role) in rows
    ensures Upsert(rows, h, me, MemberRole) == rows
    ensures Upsert(Upsert(rows, h, me, MemberRole), h, me, MemberRole) == rows
  {
    var k :| 0 <= k < |rows| && rows[k] == Member(h, me, role);
    assert rows[k].householdId == h && rows[k].userId == me;
  }

  /** `POST /api/household/accept` with body `{ token }`; `now` is the
      current time in the same unit as the invite's expiry. Answers the
      status code and, on success, the household joined. */
  method Accept(store: Store, isPost: bool, me: Option<Id>, token: Option<string>, now: int)
    returns (status: int, householdId: Option<Id>)
    requires store.Valid()
    requires me.Some? ==> me.value in store.users
    modifies store
    ensures store.Valid()
    ensures !isPost ==> status == 405
    ensures isPost && me.None? ==> status == 401
    ensures isPost && me.Some? && !GivenToken(token) ==> status == 400
    ensures status != 200 ==> unchanged(store) && householdId.None?
    ensures isPost && me.Some? && GivenToken(token) ==>
      match FindInvite(old(store.invites), token.value)
      case None => status == 404
      case Some(inv) =>
        if inv.expiresAt < now then status == 410
        else (status == 200 && householdId == Some(inv.householdId)
          && store.members == Upsert(old(store.members), inv.householdId, me.value, MemberRole)
          && HasRow(store.members, inv.householdId, me.value)
          && store.invites == old(store.invites) && store.households == old(store.households)
          && store.users == old(store.users) && store.accounts == old(store.accounts)
          && store.lists == old(store.lists) && store.items == old(store.items)
          && store.financeSettings == old(store.financeSettings))
  {
    householdId := None;
    if !isPost {
      return 405, householdId;
    }
    if me.None? {
      return 401, householdId;
    }
    if !GivenToken(token) {
      return 400, householdId;
    }
    var inv := FindInvite(store.invites, token.value);
    if inv.None? {
      return 404, householdId;
    }
    if inv.value.expiresAt < now {
      return 410, householdId;
    }
    var k :| 0 <= k < |store.invites| && store.invites[k] == inv.value;
    store.UpsertMember(inv.value.householdId, me.value, MemberRole);
    return 200, Some(inv.value.householdId);
  }
}
