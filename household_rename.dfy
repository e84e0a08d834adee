/** Renaming a household: owners only, to a non-blank name stored trimmed. */
module HouseholdRename {
  import opened Seqs
  import opened Text
  import opened HouseholdStore

  /** A name the route accepts: present and not blank once trimmed. */
  predicate GivenName(name: Option<string>)
  {
    name.Some? && Trim(name.value) != ""
  }

  /** `POST /api/household/rename` with body `{ name }`. */
  method Rename(store: Store, isPost: bool, me: Option<Id>, name: Option<string>) returns (status: int)
    requires store.Valid()
    modifies store
    ensures store.Valid()
    ensures !isPost ==> status == 405
    ensures isPost && me.None? ==> status == 401
    ensures isPost && me.Some? && !GivenName(name) ==> status == 400
    ensures status != 200 ==> unchanged(store)
    ensures isPost && me.Some? && GivenName(name) ==>
      match FirstMembership(old(store.members), me.value)
      case None => status == 400
      case Some(m) =>
        if m.role != Owner then status == 403
        else (status == 200
          && store.households == old(store.households)[m.householdId := Trim(name.value)]
          && store.households[m.householdId] != ""
          && Trim(store.households[m.householdId]) == store.households[m.householdId]
          && store.members == old(store.members)
          && store.users == old(store.users) && store.accounts == old(store.accounts)
          && store.invites == old(store.invites) && store.lists == old(store.lists)
          && store.items == old(store.items) && store.financeSettings == old(store.financeSettings))
  {
    if !isPost {
      return 405;
    }
    if me.None? {
      return 401;
    }
    if !GivenName(name) {
      return 400;
    }
    var m := FirstMembership(store.members, me.value);
    if m.None? {
      return 400;
    }
    if m.value.role != Owner {
      return 403;
    }
    var k :| 0 <= k < |store.members| && store.members[k] == m.value;
    TrimIdempotent(name.value);
    store.SetName(m.value.householdId, Trim(name.value));
    return 200;
  }
}
