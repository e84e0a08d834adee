/** Deleting a household outright: owners only, after typing DELETE. */
module HouseholdDelete {
  import opened Seqs
  import opened HouseholdStore

  /** The confirmation the route demands. */
  const Confirmation: string := "DELETE"

  /** `POST /api/household/delete` with body `{ confirm }`. */
  method DeleteHousehold(store: Store, isPost: bool, me: Option<Id>, confirm: Option<string>) returns (status: int)
    requires store.Valid()
    modifies store
    ensures store.Valid()
    ensures !isPost ==> status == 405
    ensures isPost && me.None? ==> status == 401
    ensures isPost && me.Some? && confirm != Some(Confirmation) ==> status == 400
    ensures status != 200 ==> unchanged(store)
    ensures isPost && me.Some? && confirm == Some(Confirmation) ==>
      match FirstMembership(old(store.members), me.value)
      case None => status == 400
      case Some(m) =>
        if m.role != Owner then status == 403
        else (status == 200
          && store.households == old(store.households) - {m.householdId}
          && (forall i :: 0 <= i < |store.members| ==> store.members[i].householdId != m.householdId)
          && (forall i :: 0 <= i < |store.accounts| ==> store.accounts[i].householdId != m.householdId)
          && (forall i :: 0 <= i < |store.invites| ==> store.invites[i].householdId != m.householdId)
          && (forall i :: 0 <= i < |store.lists| ==> store.lists[i].householdId != m.householdId)
          && (forall i :: 0 <= i < |store.items| ==> store.items[i].listId !in ListIdsOf(old(store.lists), m.householdId))
          && (forall i :: 0 <= i < |old(store.members)| && old(store.members)[i].householdId != m.householdId
                ==> old(store.members)[i] in store.members)
          && store.members == MembersOutside(old(store.members), m.householdId)
          && store.accounts == AccountsOutside(old(store.accounts), m.householdId)
          && store.invites == InvitesOutside(old(store.invites), m.householdId)
          && store.lists == ListsOutside(old(store.lists), m.householdId)
          && store.items == ItemsOutside(old(store.items), ListIdsOf(old(store.lists), m.householdId))
          && store.financeSettings == SettingsOutside(old(store.financeSettings), m.householdId)
          && (forall i :: 0 <= i < |store.financeSettings| ==> store.financeSettings[i] != m.householdId)
          && store.users == old(store.users))
  {
    if !isPost {
      return 405;
    }
    if me.None? {
      return 401;
    }
    if confirm != Some(Confirmation) {
      return 400;
    }
    var m := FirstMembership(store.members, me.value);
    if m.None? {
      return 400;
    }
    if m.value.role != Owner {
      return 403;
    }
    var k :| 0 <= k < |store.members| && store.members[k] == m.value;
    store.WipeHousehold(m.value.householdId);
    return 200;
  }
}
