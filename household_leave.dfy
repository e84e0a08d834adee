/** Leaving a household: the last owner must hand over ownership first, the
    last member takes the whole household with them, anyone else just drops
    their own membership row. */
module HouseholdLeave {
  import opened Seqs
  import opened HouseholdStore

  /** What the route decides once the caller is known. */
  datatype Decision =
    | NoHousehold                   // the caller has no membership row
    | MustTransfer                  // the only owner, with other members left
    | DeleteHousehold(h: Id)        // the last member: the household goes
    | LeaveOnly(h: Id)              // the caller's own row goes

  /** The decision over the membership rows, for the caller's first row. */
  function Decide(rows: seq<Member>, me: Id): (d: Decision)
    ensures d.NoHousehold? <==> FirstMembership(rows, me).None?
    ensures d.MustTransfer? <==> (FirstMembership(rows, me).Some? &&
      var m := FirstMembership(rows, me).value;
      m.role == Owner && OwnerCount(rows, m.householdId) == 1 && OthersCount(rows, m.householdId, me) > 0)
    ensures d.DeleteHousehold? ==> (FirstMembership(rows, me) == Some(Member(d.h, me, FirstMembership(rows, me).value.role))
      && OthersCount(rows, d.h, me) == 0)
    ensures d.LeaveOnly? ==> (FirstMembership(rows, me) == Some(Member(d.h, me, FirstMembership(rows, me).value.role))
      && OthersCount(rows, d.h, me) > 0)
  {
    match FirstMembership(rows, me)
    case None => NoHousehold
    case Some(m) =>
      var others := OthersCount(rows, m.householdId, me);
      if m.role == Owner && OwnerCount(rows, m.householdId) == 1 && others > 0 then MustTransfer
      else if others == 0 then DeleteHousehold(m.householdId)
      else LeaveOnly(m.householdId)
  }

  /** Leaving without deleting never takes away a household's last owner:
      if the household had an owner, it still has one afterwards. */
  lemma LeaveKeepsAnOwner(rows: seq<Member>, me: Id)
    requires UniqueKeys(rows)
    requires Decide(rows, me).LeaveOnly?
    ensures var h := Decide(rows, me).h;
      OwnerCount(rows, h) >= 1 ==> OwnerCount(Without(rows, h, me), h) >= 1
  {
    var m := FirstMembership(rows, me).value;
    WithoutOwnerCount(rows, m.householdId, me, m.role);
    if m.role == Owner {
      OwnerRowCounts(rows, m);
    }
  }

  /** `POST /api/household/leave`. Answers the status code and whether the
      household was deleted. */
  method Leave(store: Store, isPost: bool, me: Option<Id>) returns (status: int, deletedHousehold: bool)
    requires store.Valid()
    modifies store
    ensures store.Valid()
    ensures !isPost ==> status == 405
    ensures isPost && me.None? ==> status == 401
    ensures deletedHousehold ==> status == 200
    ensures status != 200 ==> unchanged(store)
    ensures isPost && me.Some? ==> match Decide(old(store.members), me.value)
      case NoHousehold => status == 400
      case MustTransfer => status == 400
      case DeleteHousehold(h) => (status == 200 && deletedHousehold
        && h !in store.households && store.households == old(store.households) - {h}
        && store.members == MembersOutside(old(store.members), h)
        && store.accounts == AccountsOutside(old(store.accounts), h)
        && store.invites == InvitesOutside(old(store.invites), h)
        && store.lists == ListsOutside(old(store.lists), h)
        && store.items == ItemsOutside(old(store.items), ListIdsOf(old(store.lists), h))
        && store.financeSettings == SettingsOutside(old(store.financeSettings), h)
        && store.users == old(store.users))
      case LeaveOnly(h) => (status == 200 && !deletedHousehold
        && store.members == Without(old(store.members), h, me.value)
        && store.households == old(store.households) && store.accounts == old(store.accounts)
        && store.invites == old(store.invites) && store.lists == old(store.lists)
        && store.items == old(store.items) && store.financeSettings == old(store.financeSettings)
        && store.users == old(store.users)
        && (OwnerCount(old(store.members), h) >= 1 ==> OwnerCount(store.members, h) >= 1))
  {
    if !isPost {
      return 405, false;
    }
    if me.None? {
      return 401, false;
    }
    var d := Decide(store.members, me.value);
    match d
    case NoHousehold =>
      return 400, false;
    case MustTransfer =>
      return 400, false;
    case DeleteHousehold(h) =>
      var m := FirstMembership(store.members, me.value).value;
      assert m in store.members;
      store.WipeHousehold(h);
      return 200, true;
    case LeaveOnly(h) =>
      LeaveKeepsAnOwner(store.members, me.value);
      var m := FirstMembership(store.members, me.value).value;
      assert m in store.members;
      var found := store.DeleteMember(h, me.value);
      return 200, false;
  }
}
