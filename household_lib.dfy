/** The household helpers shared by the routes: get-or-create the caller's
    household, list a user's households, and membership tests. */
module HouseholdLib {
  import opened Seqs
  import opened HouseholdStore

  /** The name a household gets when none is given. */
  const DefaultName: string := "Family"

  /** A user's first row is the new one after appending it to rows that had none. */
  lemma {:induction false} FirstMembershipAppend(rows: seq<Member>, m: Member)
    requires FirstMembership(rows, m.userId).None?
    ensures FirstMembership(rows + [m], m.userId) == Some(m)
  {
    if rows != [] {
      assert (rows + [m])[1..] == rows[1..] + [m];
      FirstMembershipAppend(rows[1..], m);
    }
  }

  /** Get (or create) the first household of `userId`: an existing
      membership's household is returned untouched; otherwise a household
      named `name` (default "Family") is created with the user as owner.
      Either way the user's first household is the one returned, so a second
      call returns the same household and changes nothing. */
  method EnsureUserHousehold(store: Store, userId: Id, name: Option<string>) returns (household: Household)
    requires store.Valid() && userId in store.users
    modifies store
    ensures store.Valid()
    ensures FirstMembership(store.members, userId).Some?
    ensures FirstMembership(store.members, userId).value.householdId == household.id
    ensures household.id in store.households && store.households[household.id] == household.name
    ensures FirstMembership(old(store.members), userId).Some? ==> unchanged(store)
    ensures FirstMembership(old(store.members), userId).None? ==>
      && household.id !in old(store.households)
      && household.name == (if name.Some? then name.value else DefaultName)
      && store.members == old(store.members) + [Member(household.id, userId, Owner)]
      && store.households == old(store.households)[household.id := household.name]
      && store.users == old(store.users) && store.accounts == old(store.accounts)
      && store.invites == old(store.invites) && store.lists == old(store.lists)
      && store.items == old(store.items) && store.financeSettings == old(store.financeSettings)
  {
    var existing := FirstMembership(store.members, userId);
    if existing.Some? {
      var k :| 0 <= k < |store.members| && store.members[k] == existing.value;
      var h := existing.value.householdId;
      return Household(h, store.households[h]);
    }
    var n := if name.Some? then name.value else DefaultName;
    FirstMembershipAppend(store.members, Member(store.nextHouseholdId, userId, Owner));
    var id := store.CreateHousehold(n, userId);
    FirstMembershipAppend(old(store.members), Member(id, userId, Owner));
    household := Household(id, n);
  }

  /** The rows of `userId`, in row order. */
  function UserRows(members: seq<Member>, userId: Id): (r: seq<Member>)
    ensures forall i :: 0 <= i < |r| ==> r[i] in members && r[i].userId == userId
  {
    Filter(members, (m: Member) => m.userId == userId)
  }

  /** The households of every row of `userId`, in row order. */
  function GetUserHouseholds(members: seq<Member>, households: map<Id, string>, userId: Id): (r: seq<Household>)
    requires forall i :: 0 <= i < |members| ==> members[i].householdId in households
    ensures |r| <= |members|
    ensures |r| == |UserRows(members, userId)|
    ensures forall i :: 0 <= i < |r| ==>
      r[i].id == UserRows(members, userId)[i].householdId && r[i].name == households[r[i].id]
    ensures forall x :: x in r ==> exists i :: (0 <= i < |members| && members[i].userId == userId
      && x == Household(members[i].householdId, households[members[i].householdId]))
  {
    if members == [] then []
    else
      var rest := GetUserHouseholds(members[1..], households, userId);
      var here: seq<Household> :=
        if members[0].userId == userId then [Household(members[0].householdId, households[members[0].householdId])] else [];
      var r := here + rest;
      assert UserRows(members, userId) == (if members[0].userId == userId then [members[0]] else []) + UserRows(members[1..], userId);
      HouseholdsFromRows(members, households, userId, r);
      r
  }

  /** A sequence matching the user's rows one for one lists only households
      of rows of that user. */
  lemma HouseholdsFromRows(members: seq<Member>, households: map<Id, string>, userId: Id, r: seq<Household>)
    requires forall i :: 0 <= i < |members| ==> members[i].householdId in households
    requires |r| == |UserRows(members, userId)|
    requires forall i :: 0 <= i < |r| ==>
      r[i].id == UserRows(members, userId)[i].householdId && r[i].name == households[r[i].id]
    ensures forall x :: x in r ==> exists i :: (0 <= i < |members| && members[i].userId == userId
      && x == Household(members[i].householdId, households[members[i].householdId]))
  {
    var rows := UserRows(members, userId);
    forall x | x in r
      ensures exists i :: (0 <= i < |members| && members[i].userId == userId
        && x == Household(members[i].householdId, households[members[i].householdId]))
    {
      var k :| 0 <= k < |r| && r[k] == x;
      assert rows[k] in members;
      var i :| 0 <= i < |members| && members[i] == rows[k];
    }
  }

  /** `userIsInHousehold`: a row exists for the pair. */
  function UserIsInHousehold(members: seq<Member>, userId: Id, householdId: Id): (r: bool)
    ensures r <==> HasRow(members, householdId, userId)
  {
    if members == [] then false
    else if members[0].userId == userId && members[0].householdId == householdId then true
    else
      var r := UserIsInHousehold(members[1..], userId, householdId);
      assert HasRow(members[1..], householdId, userId) ==> HasRow(members, householdId, userId) by {
        if HasRow(members[1..], householdId, userId) {
          var i :| 0 <= i < |members[1..]| && members[1..][i].householdId == householdId && members[1..][i].userId == userId;
          assert members[i + 1] == members[1..][i];
        }
      }
      r
  }

  /** A user is in a household exactly when that household is among the
      user's households. */
  lemma {:induction false} InHouseholdIffListed(members: seq<Member>, households: map<Id, string>, userId: Id, h: Id)
    requires forall i :: 0 <= i < |members| ==> members[i].householdId in households
    requires h in households
    ensures UserIsInHousehold(members, userId, h) <==> Household(h, households[h]) in GetUserHouseholds(members, households, userId)
  {
    if members != [] {
      InHouseholdIffListed(members[1..], households, userId, h);
    }
  }
}
