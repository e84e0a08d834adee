/** The household page's summary: the caller's first household, its members
    in joining order, the caller's role and which standard accounts exist. */
module HouseholdSummary {
  import opened Seqs
  import opened HouseholdStore
  import opened HouseholdDefaultAccounts

  datatype MemberView = MemberView(id: Id, name: string, email: string, role: string, isMe: bool)
  datatype Defaults = Defaults(hasMonthly: bool, hasExpenses: bool, hasSavings: bool)
  datatype SummaryData =
    | NoHouseholdYet
    | Data(household: Household, members: seq<MemberView>, role: string, defaults: Defaults)
  datatype SummaryReply = Unauthorized | Ok(data: SummaryData)

  /** Every membership row points at a household and a user that exist. */
  ghost predicate RowsResolve(households: map<Id, string>, members: seq<Member>, users: map<Id, User>)
  {
    forall i :: 0 <= i < |members| ==> members[i].householdId in households && members[i].userId in users
  }

  /** The rows of household `h`, in joining order. */
  function RowsOf(members: seq<Member>, h: Id): (r: seq<Member>)
    ensures forall i :: 0 <= i < |r| ==> r[i] in members && r[i].householdId == h
    ensures forall i :: 0 <= i < |members| && members[i].householdId == h ==> members[i] in r
  {
    Filter(members, (m: Member) => m.householdId == h)
  }

  /** How one member is shown: the name falls back to the email when empty. */
  function View(m: Member, users: map<Id, User>, me: Id): (v: MemberView)
    requires m.userId in users
    ensures v.id == m.userId && v.email == users[m.userId].email && v.role == m.role
    ensures v.isMe <==> m.userId == me
    ensures v.name == (if users[m.userId].name == "" then users[m.userId].email else users[m.userId].name)
  {
    var u := users[m.userId];
    MemberView(m.userId, if u.name == "" then u.email else u.name, u.email, m.role, m.userId == me)
  }

  function Views(rows: seq<Member>, users: map<Id, User>, me: Id): (r: seq<MemberView>)
    requires forall i :: 0 <= i < |rows| ==> rows[i].userId in users
    ensures |r| == |rows|
    ensures forall i :: 0 <= i < |rows| ==> r[i] == View(rows[i], users, me)
  {
    seq(|rows|, i requires 0 <= i < |rows| => View(rows[i], users, me))
  }

  /** The role of the first row of `me`, "member" when there is none or it is empty. */
  function RoleOf(rows: seq<Member>, me: Id): (r: string)
    ensures r != ""
  {
    match FirstMembership(rows, me)
    case None => MemberRole
    case Some(m) => if m.role == "" then MemberRole else m.role
  }

  /** `GET /api/household/summary` over the tables it reads. */
  function Summary(households: map<Id, string>, members: seq<Member>, users: map<Id, User>,
                   accounts: seq<Account>, me: Option<Id>): (r: SummaryReply)
    requires RowsResolve(households, members, users)
    ensures r.Unauthorized? <==> me.None?
    ensures me.Some? ==> (r.data.NoHouseholdYet? <==> FirstMembership(members, me.value).None?)
    ensures r.Ok? && r.data.Data? ==>
      var h := FirstMembership(members, me.value).value.householdId;
      && r.data.household == Household(h, households[h]) && |r.data.members| == |RowsOf(members, h)|
      && r.data.members == Views(RowsOf(members, h), users, me.value)
      && r.data.role == RoleOf(RowsOf(members, h), me.value)
      && (r.data.defaults.hasMonthly <==> HasKind(accounts, h, "monthly"))
      && (r.data.defaults.hasExpenses <==> HasKind(accounts, h, "expenses"))
      && (r.data.defaults.hasSavings <==> HasKind(accounts, h, "savings"))
  {
    match me
    case None => Unauthorized
    case Some(u) =>
      match FirstMembership(members, u)
      case None => Ok(NoHouseholdYet)
      case Some(m) =>
        var h := m.householdId;
        var rows := RowsOf(members, h);
        Ok(Data(Household(h, households[h]), Views(rows, users, u), RoleOf(rows, u),
                Defaults(HasKind(accounts, h, "monthly"), HasKind(accounts, h, "expenses"), HasKind(accounts, h, "savings"))))
  }

  /** The rows of one household keep distinct users when keys are distinct. */
  lemma {:induction false} RowsOfDistinctUsers(members: seq<Member>, h: Id)
    requires UniqueKeys(members)
    ensures forall i, j :: 0 <= i < j < |RowsOf(members, h)| ==> RowsOf(members, h)[i].userId != RowsOf(members, h)[j].userId
  {
    var key := (m: Member) => (m.householdId, m.userId);
    assert DistinctKeys(members, key) by {
      forall i, j | 0 <= i < j < |members| ensures key(members[i]) != key(members[j]) {
      }
    }
    FilterDistinct(members, (m: Member) => m.householdId == h, key);
    var rows := RowsOf(members, h);
    forall i, j | 0 <= i < j < |rows| ensures rows[i].userId != rows[j].userId {
      assert key(rows[i]) != key(rows[j]);
    }
  }

  /** Exactly one listed member is the caller, and the role shown is the
      caller's own role in that household ("member" when empty). */
  lemma CallerListedOnce(households: map<Id, string>, members: seq<Member>, users: map<Id, User>,
                         accounts: seq<Account>, me: Id)
    requires RowsResolve(households, members, users) && UniqueKeys(members)
    requires FirstMembership(members, me).Some?
    ensures var d := Summary(households, members, users, accounts, Some(me)).data;
      var m := FirstMembership(members, me).value;
      && (exists i :: 0 <= i < |d.members| && d.members[i].isMe)
      && (forall i, j :: 0 <= i < j < |d.members| ==> !(d.members[i].isMe && d.members[j].isMe))
      && d.role == (if m.role == "" then MemberRole else m.role)
  {
    var m := FirstMembership(members, me).value;
    var rows := RowsOf(members, m.householdId);
    RowsOfDistinctUsers(members, m.householdId);
    var k :| 0 <= k < |members| && members[k] == m;
    assert m in rows;
    var i :| 0 <= i < |rows| && rows[i] == m;
    ViewsMarkOnce(rows, users, me, i);
    FirstInRows(rows, me, i);
    var d := Summary(households, members, users, accounts, Some(me)).data;
    assert d.members == Views(rows, users, me) && d.role == RoleOf(rows, me);
  }

  /** Over rows with distinct users, one of them the caller's, exactly one
      view is marked as the caller. */
  lemma ViewsMarkOnce(rows: seq<Member>, users: map<Id, User>, me: Id, i: nat)
    requires forall a :: 0 <= a < |rows| ==> rows[a].userId in users
    requires forall a, b :: 0 <= a < b < |rows| ==> rows[a].userId != rows[b].userId
    requires i < |rows| && rows[i].userId == me
    ensures var vs := Views(rows, users, me);
      && (exists a :: 0 <= a < |vs| && vs[a].isMe)
      && (forall a, b :: 0 <= a < b < |vs| ==> !(vs[a].isMe && vs[b].isMe))
  {
    var vs := Views(rows, users, me);
    assert vs[i].isMe;
  }

  /** In rows with distinct users, the first row of a user is its only one. */
  lemma {:induction false} FirstInRows(rows: seq<Member>, me: Id, i: nat)
    requires i < |rows| && rows[i].userId == me
    requires forall a, b :: 0 <= a < b < |rows| ==> rows[a].userId != rows[b].userId
    ensures FirstMembership(rows, me) == Some(rows[i])
  {
    if i > 0 {
      assert rows[0].userId != me;
      FirstInRows(rows[1..], me, i - 1);
    }
  }

  /** Once the standard accounts are created, the summary reports all three. */
  lemma DefaultsAfterCreation(households: map<Id, string>, members: seq<Member>, users: map<Id, User>,
                              accounts: seq<Account>, me: Id)
    requires RowsResolve(households, members, users)
    requires FirstMembership(members, me).Some?
    ensures var h := FirstMembership(members, me).value.householdId;
      var after := accounts + NewRows(h, ToCreate(accounts, h));
      Summary(households, members, users, after, Some(me)).data.defaults == Defaults(true, true, true)
  {
    var h := FirstMembership(members, me).value.householdId;
    DefaultsComplete(accounts, h);
    assert Want[0] in Want && Want[1] in Want && Want[2] in Want;
  }
}
