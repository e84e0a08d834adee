/** The household database, as the household routes see it: households,
    membership rows keyed by (household, user) with a role, users, accounts,
    invites, shopping lists and items, and finance settings. Rows keep their
    creation order; a lookup of "the first row" takes the earliest one. */
module HouseholdStore {
  import opened Seqs

  type Id = nat

  const Owner: string := "owner"
  const MemberRole: string := "member"

  datatype Member = Member(householdId: Id, userId: Id, role: string)
  datatype User = User(name: string, email: string)
  datatype Household = Household(id: Id, name: string)
  datatype Account = Account(householdId: Id, name: string, kind: string)
  datatype Invite = Invite(token: string, householdId: Id, expiresAt: int)
  datatype ListRow = ListRow(id: Id, householdId: Id)
  datatype ItemRow = ItemRow(id: Id, listId: Id)

  // ---- Membership rows --------------------------------------------------------

  /** `householdMember.findFirst({ where: { userId } })`. */
  function FirstMembership(rows: seq<Member>, user: Id): (r: Option<Member>)
    ensures r.Some? ==> r.value in rows && r.value.userId == user
    ensures r.Some? ==> exists i :: (0 <= i < |rows| && rows[i] == r.value
      && forall j :: 0 <= j < i ==> rows[j].userId != user)
    ensures r.None? <==> forall i :: 0 <= i < |rows| ==> rows[i].userId != user
  {
    if rows == [] then None
    else if rows[0].userId == user then Some(rows[0])
    else FirstMembership(rows[1..], user)
  }

  /** A row for (household, user) exists. */
  predicate HasRow(rows: seq<Member>, h: Id, u: Id)
  {
    exists i :: 0 <= i < |rows| && rows[i].householdId == h && rows[i].userId == u
  }

  /** No two rows share a (household, user) key. */
  ghost predicate UniqueKeys(rows: seq<Member>)
  {
    forall i, j :: 0 <= i < j < |rows| ==> !(rows[i].householdId == rows[j].householdId && rows[i].userId == rows[j].userId)
  }

  /** The owners of household `h`. */
  function OwnerCount(rows: seq<Member>, h: Id): nat
  {
    if rows == [] then 0
    else (if rows[0].householdId == h && rows[0].role == Owner then 1 else 0) + OwnerCount(rows[1..], h)
  }

  /** The members of household `h` other than user `me`. */
  function OthersCount(rows: seq<Member>, h: Id, me: Id): nat
  {
    if rows == [] then 0
    else (if rows[0].householdId == h && rows[0].userId != me then 1 else 0) + OthersCount(rows[1..], h, me)
  }

  /** The rows with the (h, u) row deleted. */
  function Without(rows: seq<Member>, h: Id, u: Id): (r: seq<Member>)
    ensures forall x :: x in r <==> x in rows && !(x.householdId == h && x.userId == u)
    ensures |r| <= |rows|
  {
    if rows == [] then []
    else if rows[0].householdId == h && rows[0].userId == u then Without(rows[1..], h, u)
    else [rows[0]] + Without(rows[1..], h, u)
  }

  /** The counts, the deletion and the lookup above are JavaScript's `filter`,
      `findIndex` and `find` over the rows: they are written with their own
      recursion so that the route proofs unfold one row at a time, and these
      lemmas tie each to the shared Seqs definitions. */
  lemma {:induction false} OwnerCountIsFilter(rows: seq<Member>, h: Id)
    ensures OwnerCount(rows, h) == |Filter(rows, (m: Member) => m.householdId == h && m.role == Owner)|
  {
    if rows != [] {
      OwnerCountIsFilter(rows[1..], h);
    }
  }

  lemma {:induction false} OthersCountIsFilter(rows: seq<Member>, h: Id, me: Id)
    ensures OthersCount(rows, h, me) == |Filter(rows, (m: Member) => m.householdId == h && m.userId != me)|
  {
    if rows != [] {
      OthersCountIsFilter(rows[1..], h, me);
    }
  }

  lemma {:induction false} WithoutIsFilter(rows: seq<Member>, h: Id, u: Id)
    ensures Without(rows, h, u) == Filter(rows, (m: Member) => !(m.householdId == h && m.userId == u))
  {
    if rows != [] {
      WithoutIsFilter(rows[1..], h, u);
    }
  }

  lemma {:induction false} FirstMembershipIsFirstIndex(rows: seq<Member>, user: Id)
    ensures FirstMembership(rows, user) ==
      match FirstIndex(rows, (m: Member) => m.userId == user)
      case None => None
      case Some(i) => Some(rows[i])
  {
    if rows != [] && rows[0].userId != user {
      FirstMembershipIsFirstIndex(rows[1..], user);
    }
  }

  /** The rows with the role of the (h, u) row replaced. */
  function WithRole(rows: seq<Member>, h: Id, u: Id, role: string): (r: seq<Member>)
    ensures |r| == |rows|
    ensures forall i :: 0 <= i < |rows| ==>
      r[i] == if rows[i].householdId == h && rows[i].userId == u then rows[i].(role := role) else rows[i]
  {
    seq(|rows|, i requires 0 <= i < |rows| =>
      if rows[i].householdId == h && rows[i].userId == u then rows[i].(role := role) else rows[i])
  }

  /** The rows with an (h, u) row added with `role` unless one exists
      (`upsert` with an empty update). */
  function Upsert(rows: seq<Member>, h: Id, u: Id, role: string): (r: seq<Member>)
    ensures HasRow(r, h, u)
    ensures HasRow(rows, h, u) ==> r == rows
    ensures !HasRow(rows, h, u) ==> r == rows + [Member(h, u, role)]
  {
    if HasRow(rows, h, u) then rows
    else
      assert (rows + [Member(h, u, role)])[|rows|] == Member(h, u, role);
      rows + [Member(h, u, role)]
  }

  /** Upserting the same key twice is the same as once. */
  lemma UpsertIdempotent(rows: seq<Member>, h: Id, u: Id, role: string, role2: string)
    ensures Upsert(Upsert(rows, h, u, role), h, u, role2) == Upsert(rows, h, u, role)
  {
  }

  /** Deleting a row that is not an owner keeps the owner count; deleting
      an owner's row, the only one with its key, lowers it by one. */
  lemma {:induction false} WithoutOwnerCount(rows: seq<Member>, h: Id, u: Id, role: string)
    requires UniqueKeys(rows)
    requires Member(h, u, role) in rows
    ensures OwnerCount(Without(rows, h, u), h) == OwnerCount(rows, h) - (if role == Owner then 1 else 0)
  {
    var tail := rows[1..];
    UniqueTail(rows);
    if rows[0] == Member(h, u, role) {
      assert forall k :: 0 <= k < |tail| ==> !(tail[k].householdId == h && tail[k].userId == u) by {
        forall k | 0 <= k < |tail| ensures !(tail[k].householdId == h && tail[k].userId == u) {
          assert tail[k] in tail;
        }
      }
      WithoutAbsent(tail, h, u);
    } else {
      assert Member(h, u, role) in tail;
      WithoutOwnerCount(tail, h, u, role);
    }
  }

  /** An owner's own row counts among the household's owners. */
  lemma {:induction false} OwnerRowCounts(rows: seq<Member>, m: Member)
    requires m in rows && m.role == Owner
    ensures OwnerCount(rows, m.householdId) >= 1
  {
    if rows[0] != m {
      OwnerRowCounts(rows[1..], m);
    }
  }

  /** Deleting works row by row: on joined rows it is the join of the two
      deletions, so the other rows keep their order and multiplicity. */
  lemma {:induction false} WithoutAppend(a: seq<Member>, b: seq<Member>, h: Id, u: Id)
    ensures Without(a + b, h, u) == Without(a, h, u) + Without(b, h, u)
  {
    if a == [] {
      assert a + b == b;
    } else {
      assert (a + b)[0] == a[0];
      assert (a + b)[1..] == a[1..] + b;
      WithoutAppend(a[1..], b, h, u);
    }
  }

  /** Deleting a key no row has changes nothing. */
  lemma {:induction false} WithoutAbsent(rows: seq<Member>, h: Id, u: Id)
    requires forall k :: 0 <= k < |rows| ==> !(rows[k].householdId == h && rows[k].userId == u)
    ensures Without(rows, h, u) == rows
  {
    if rows != [] {
      WithoutAbsent(rows[1..], h, u);
    }
  }

  /** The rows after the first have distinct keys, none of them the first's. */
  lemma UniqueTail(rows: seq<Member>)
    requires UniqueKeys(rows) && rows != []
    ensures UniqueKeys(rows[1..])
    ensures forall x :: x in rows[1..] ==> !(x.householdId == rows[0].householdId && x.userId == rows[0].userId)
  {
    var tail := rows[1..];
    forall i, j | 0 <= i < j < |tail|
      ensures !(tail[i].householdId == tail[j].householdId && tail[i].userId == tail[j].userId)
    {
      assert tail[i] == rows[i + 1] && tail[j] == rows[j + 1];
    }
    forall x | x in tail
      ensures !(x.householdId == rows[0].householdId && x.userId == rows[0].userId)
    {
      var k :| 0 <= k < |tail| && tail[k] == x;
      assert rows[k + 1] == x;
    }
  }

  /** A row whose key no other row has can go in front of distinct rows. */
  lemma UniqueCons(x: Member, rest: seq<Member>)
    requires UniqueKeys(rest)
    requires forall y :: y in rest ==> !(y.householdId == x.householdId && y.userId == x.userId)
    ensures UniqueKeys([x] + rest)
  {
    var r := [x] + rest;
    forall i, j | 0 <= i < j < |r|
      ensures !(r[i].householdId == r[j].householdId && r[i].userId == r[j].userId)
    {
      assert r[j] == rest[j - 1];
      if i > 0 {
        assert r[i] == rest[i - 1];
      }
    }
  }

  /** Deleting a row keeps the keys distinct. */
  lemma {:induction false} WithoutUnique(rows: seq<Member>, h: Id, u: Id)
    requires UniqueKeys(rows)
    ensures UniqueKeys(Without(rows, h, u))
  {
    if rows != [] {
      UniqueTail(rows);
      WithoutUnique(rows[1..], h, u);
      if !(rows[0].householdId == h && rows[0].userId == u) {
        UniqueCons(rows[0], Without(rows[1..], h, u));
      }
    }
  }

  // ---- Other tables -----------------------------------------------------------

  /** The ids of the shopping lists of household `h`. */
  function ListIdsOf(lists: seq<ListRow>, h: Id): set<Id>
  {
    set l | l in lists && l.householdId == h :: l.id
  }

  /** The membership rows of households other than `h`, in order. */
  function MembersOutside(rows: seq<Member>, h: Id): (r: seq<Member>)
    ensures forall x :: x in r <==> x in rows && x.householdId != h
  {
    Filter(rows, (m: Member) => m.householdId != h)
  }

  /** The accounts of households other than `h`, in order. */
  function AccountsOutside(rows: seq<Account>, h: Id): (r: seq<Account>)
    ensures forall x :: x in r <==> x in rows && x.householdId != h
  {
    Filter(rows, (a: Account) => a.householdId != h)
  }

  /** The invites to households other than `h`, in order. */
  function InvitesOutside(rows: seq<Invite>, h: Id): (r: seq<Invite>)
    ensures forall x :: x in r <==> x in rows && x.householdId != h
  {
    Filter(rows, (v: Invite) => v.householdId != h)
  }

  /** The shopping lists of households other than `h`, in order. */
  function ListsOutside(rows: seq<ListRow>, h: Id): (r: seq<ListRow>)
    ensures forall x :: x in r <==> x in rows && x.householdId != h
  {
    Filter(rows, (l: ListRow) => l.householdId != h)
  }

  /** The finance settings of households other than `h`, in order. */
  function SettingsOutside(rows: seq<Id>, h: Id): (r: seq<Id>)
    ensures forall x :: x in r <==> x in rows && x != h
  {
    Filter(rows, (x: Id) => x != h)
  }

  /** The shopping items on lists outside `ids`, in order. */
  function ItemsOutside(rows: seq<ItemRow>, ids: set<Id>): (r: seq<ItemRow>)
    ensures forall x :: x in r <==> x in rows && x.listId !in ids
  {
    Filter(rows, (it: ItemRow) => it.listId !in ids)
  }

  /** `invite.findUnique({ where: { token } })`. */
  function FindInvite(invites: seq<Invite>, token: string): (r: Option<Invite>)
    ensures r.Some? ==> r.value in invites && r.value.token == token
    ensures r.None? ==> forall i :: 0 <= i < |invites| ==> invites[i].token != token
  {
    if invites == [] then None
    else if invites[0].token == token then Some(invites[0])
    else FindInvite(invites[1..], token)
  }

  // ---- The store ------------------------------------------------------------------

  class Store {
    var households: map<Id, string>
    var members: seq<Member>
    var users: map<Id, User>
    var accounts: seq<Account>
    var invites: seq<Invite>
    var lists: seq<ListRow>
    var items: seq<ItemRow>
    var financeSettings: seq<Id>
    var nextHouseholdId: Id

    /** The database's own constraints: unique membership keys, and every
        membership and invite pointing at a household (and a user) that exists. */
    ghost predicate Valid()
      reads this
    {
      && UniqueKeys(members)
      && (forall i :: 0 <= i < |members| ==> members[i].householdId in households && members[i].userId in users)
      && (forall i :: 0 <= i < |invites| ==> invites[i].householdId in households)
      && (forall h :: h in households ==> h < nextHouseholdId)
    }

    /** An empty database over a set of registered users. */
    constructor(registered: map<Id, User>)
      ensures Valid()
      ensures households == map[] && members == [] && users == registered
      ensures accounts == [] && invites == [] && lists == [] && items == [] && financeSettings == []
    {
      households := map[];
      members := [];
      users := registered;
      accounts := [];
      invites := [];
      lists := [];
      items := [];
      financeSettings := [];
      nextHouseholdId := 0;
    }

    /** The four deletes of what hangs off household `h` without a
        constraint of its own: items of its lists, its lists, accounts and
        finance settings. */
    method DropContents(h: Id)
      requires Valid()
      modifies this
      ensures Valid()
      ensures items == ItemsOutside(old(items), ListIdsOf(old(lists), h))
      ensures lists == ListsOutside(old(lists), h)
      ensures accounts == AccountsOutside(old(accounts), h)
      ensures financeSettings == SettingsOutside(old(financeSettings), h)
      ensures households == old(households) && members == old(members) && invites == old(invites)
      ensures users == old(users) && nextHouseholdId == old(nextHouseholdId)
    {
      items := ItemsOutside(items, ListIdsOf(lists, h));
      lists := ListsOutside(lists, h);
      accounts := AccountsOutside(accounts, h);
      financeSettings := SettingsOutside(financeSettings, h);
    }

    /** The seven deletes that remove household `h` with everything that
        belongs to it: items of its lists, its lists, accounts, finance
        settings, invites, memberships, and the household row. */
    method WipeHousehold(h: Id)
      requires Valid() && h in households
      modifies this
      ensures Valid()
      ensures items == ItemsOutside(old(items), ListIdsOf(old(lists), h))
      ensures lists == ListsOutside(old(lists), h)
      ensures accounts == AccountsOutside(old(accounts), h)
      ensures financeSettings == SettingsOutside(old(financeSettings), h)
      ensures invites == InvitesOutside(old(invites), h)
      ensures members == MembersOutside(old(members), h)
      ensures households == old(households) - {h}
      ensures users == old(users) && nextHouseholdId == old(nextHouseholdId)
    {
      DropContents(h);
      MembersAfterWipe(members, households, users, h);
      InvitesAfterWipe(invites, households, h);
      invites := InvitesOutside(invites, h);
      members := MembersOutside(members, h);
      households := households - {h};
    }

    /** `householdMember.delete` on the (h, u) key; false when no such row
        exists (the call throws and the route answers 500). */
    method DeleteMember(h: Id, u: Id) returns (found: bool)
      requires Valid()
      modifies this
      ensures Valid()
      ensures found == HasRow(old(members), h, u)
      ensures members == if found then Without(old(members), h, u) else old(members)
      ensures !found ==> unchanged(this)
      ensures households == old(households) && users == old(users) && accounts == old(accounts)
      ensures invites == old(invites) && lists == old(lists) && items == old(items)
      ensures financeSettings == old(financeSettings) && nextHouseholdId == old(nextHouseholdId)
    {
      found := HasRow(members, h, u);
      if found {
        WithoutUnique(members, h, u);
        members := Without(members, h, u);
      }
    }

    /** `householdMember.update` of the (h, u) row's role; false when no
        such row exists (the call throws and the route answers 500). */
    method UpdateRole(h: Id, u: Id, role: string) returns (found: bool)
      requires Valid()
      modifies this
      ensures Valid()
      ensures found == HasRow(old(members), h, u)
      ensures members == if found then WithRole(old(members), h, u, role) else old(members)
      ensures !found ==> unchanged(this)
      ensures households == old(households) && users == old(users) && accounts == old(accounts)
      ensures invites == old(invites) && lists == old(lists) && items == old(items)
      ensures financeSettings == old(financeSettings) && nextHouseholdId == old(nextHouseholdId)
    {
      found := HasRow(members, h, u);
      if found {
        members := WithRole(members, h, u, role);
      }
    }

    /** `householdMember.upsert` with an empty update: a new (h, u) row with
        `role` unless one exists. */
    method UpsertMember(h: Id, u: Id, role: string)
      requires Valid() && h in households && u in users
      modifies this
      ensures Valid()
      ensures members == Upsert(old(members), h, u, role)
      ensures households == old(households) && users == old(users) && accounts == old(accounts)
      ensures invites == old(invites) && lists == old(lists) && items == old(items)
      ensures financeSettings == old(financeSettings) && nextHouseholdId == old(nextHouseholdId)
    {
      if !HasRow(members, h, u) {
        members := members + [Member(h, u, role)];
      }
    }

    /** `account.createMany`: the new rows appended. */
    method CreateAccounts(rows: seq<Account>)
      requires Valid()
      modifies this
      ensures Valid()
      ensures accounts == old(accounts) + rows
      ensures households == old(households) && users == old(users) && members == old(members)
      ensures invites == old(invites) && lists == old(lists) && items == old(items)
      ensures financeSettings == old(financeSettings) && nextHouseholdId == old(nextHouseholdId)
    {
      accounts := accounts + rows;
    }

    /** `household.update` of the name. */
    method SetName(h: Id, name: string)
      requires Valid() && h in households
      modifies this
      ensures Valid()
      ensures households == old(households)[h := name]
      ensures users == old(users) && members == old(members) && accounts == old(accounts)
      ensures invites == old(invites) && lists == old(lists) && items == old(items)
      ensures financeSettings == old(financeSettings) && nextHouseholdId == old(nextHouseholdId)
    {
      households := households[h := name];
    }

    /** `household.create` with a nested owner membership: a fresh id. */
    method CreateHousehold(name: string, owner: Id) returns (id: Id)
      requires Valid() && owner in users
      modifies this
      ensures Valid()
      ensures id !in old(households)
      ensures households == old(households)[id := name]
      ensures members == old(members) + [Member(id, owner, Owner)]
      ensures users == old(users) && accounts == old(accounts)
      ensures invites == old(invites) && lists == old(lists) && items == old(items)
      ensures financeSettings == old(financeSettings)
    {
      id := nextHouseholdId;
      assert forall i :: 0 <= i < |members| ==> members[i].householdId != id;
      households := households[id := name];
      members := members + [Member(id, owner, Owner)];
      nextHouseholdId := nextHouseholdId + 1;
    }
  }

  /** Dropping every row of a household keeps the keys distinct and leaves
      only rows pointing at the remaining households. */
  lemma MembersAfterWipe(rows: seq<Member>, hs: map<Id, string>, us: map<Id, User>, h: Id)
    requires UniqueKeys(rows)
    requires forall i :: 0 <= i < |rows| ==> rows[i].householdId in hs && rows[i].userId in us
    ensures UniqueKeys(MembersOutside(rows, h))
    ensures forall i :: 0 <= i < |MembersOutside(rows, h)| ==>
      MembersOutside(rows, h)[i].householdId in hs - {h} && MembersOutside(rows, h)[i].userId in us
  {
    var r := MembersOutside(rows, h);
    FilterDistinct(rows, (m: Member) => m.householdId != h, (m: Member) => (m.householdId, m.userId));
    forall i | 0 <= i < |r|
      ensures r[i].householdId in hs - {h} && r[i].userId in us
    {
      assert r[i] in rows;
    }
  }

  /** Dropping a household's invites leaves only invites to the remaining
      households. */
  lemma InvitesAfterWipe(invites: seq<Invite>, hs: map<Id, string>, h: Id)
    requires forall i :: 0 <= i < |invites| ==> invites[i].householdId in hs
    ensures forall i :: 0 <= i < |InvitesOutside(invites, h)| ==> InvitesOutside(invites, h)[i].householdId in hs - {h}
  {
    var r := InvitesOutside(invites, h);
    forall i | 0 <= i < |r|
      ensures r[i].householdId in hs - {h}
    {
      assert r[i] in invites;
    }
  }
}
