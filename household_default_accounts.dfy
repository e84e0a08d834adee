/** Creating the household's three standard accounts, each only when no
    account of its kind exists yet. */
module HouseholdDefaultAccounts {
  import opened Seqs
  import opened HouseholdStore

  datatype Wanted = Wanted(name: string, kind: string)

  /** The standard accounts, in the order they are created. */
  const Want: seq<Wanted> := [
    Wanted("Monthly Expense account", "monthly"),
    Wanted("Expenses account", "expenses"),
    Wanted("Savings", "savings")
  ]

  /** Household `h` has an account of `kind`. */
  predicate HasKind(accounts: seq<Account>, h: Id, kind: string)
  {
    exists i :: 0 <= i < |accounts| && accounts[i].householdId == h && accounts[i].kind == kind
  }

  /** The standard accounts whose kind household `h` lacks, in standard order. */
  function ToCreate(accounts: seq<Account>, h: Id): (r: seq<Wanted>)
    ensures forall w :: w in r <==> w in Want && !HasKind(accounts, h, w.kind)
  {
    Filter(Want, (w: Wanted) => !HasKind(accounts, h, w.kind))
  }

  /** The rows `createMany` inserts for household `h`. */
  function NewRows(h: Id, ws: seq<Wanted>): (r: seq<Account>)
    ensures |r| == |ws|
    ensures forall i :: 0 <= i < |ws| ==> r[i] == Account(h, ws[i].name, ws[i].kind)
  {
    seq(|ws|, i requires 0 <= i < |ws| => Account(h, ws[i].name, ws[i].kind))
  }

  /** The account kinds of a sequence of wanted accounts. */
  function Kinds(ws: seq<Wanted>): (r: seq<string>)
    ensures |r| == |ws|
    ensures forall i :: 0 <= i < |ws| ==> r[i] == ws[i].kind
  {
    seq(|ws|, i requires 0 <= i < |ws| => ws[i].kind)
  }

  /** After the creation every standard kind is present, so a second call
      creates nothing. */
  lemma DefaultsComplete(accounts: seq<Account>, h: Id)
    ensures var after := accounts + NewRows(h, ToCreate(accounts, h));
      (forall w :: w in Want ==> HasKind(after, h, w.kind)) && ToCreate(after, h) == []
  {
    var made := ToCreate(accounts, h);
    var after := accounts + NewRows(h, made);
    forall w | w in Want
      ensures HasKind(after, h, w.kind)
    {
      if !HasKind(accounts, h, w.kind) {
        var k :| 0 <= k < |made| && made[k] == w;
        assert after[|accounts| + k] == Account(h, w.name, w.kind);
      } else {
        var i :| 0 <= i < |accounts| && accounts[i].householdId == h && accounts[i].kind == w.kind;
        assert after[i] == accounts[i];
      }
    }
  }

  /** Accounts of other households never count: the result depends only on
      household `h`'s own accounts. */
  lemma OtherHouseholdsIgnored(accounts: seq<Account>, h: Id, other: Account)
    requires other.householdId != h
    ensures ToCreate(accounts + [other], h) == ToCreate(accounts, h)
  {
    forall w: Wanted ensures HasKind(accounts + [other], h, w.kind) == HasKind(accounts, h, w.kind) {
      if HasKind(accounts + [other], h, w.kind) {
        var i :| 0 <= i < |accounts + [other]| && (accounts + [other])[i].householdId == h && (accounts + [other])[i].kind == w.kind;
        assert i < |accounts|;
        assert accounts[i] == (accounts + [other])[i];
      }
      if HasKind(accounts, h, w.kind) {
        var i :| 0 <= i < |accounts| && accounts[i].householdId == h && accounts[i].kind == w.kind;
        assert (accounts + [other])[i] == accounts[i];
      }
    }
    FilterExt(Want, (w: Wanted) => !HasKind(accounts + [other], h, w.kind), (w: Wanted) => !HasKind(accounts, h, w.kind));
  }

  /** `POST /api/household/default-accounts`. Answers the status code and
      the kinds created. */
  method DefaultAccounts(store: Store, isPost: bool, me: Option<Id>) returns (status: int, created: seq<string>)
    requires store.Valid()
    modifies store
    ensures store.Valid()
    ensures !isPost ==> status == 405
    ensures isPost && me.None? ==> status == 401
    ensures status != 200 ==> unchanged(store) && created == []
    ensures isPost && me.Some? ==>
      match FirstMembership(old(store.members), me.value)
      case None => status == 400
      case Some(m) =>
        var made := ToCreate(old(store.accounts), m.householdId);
        (status == 200 && created == Kinds(made)
          && store.accounts == old(store.accounts) + NewRows(m.householdId, made)
          && (forall w :: w in Want ==> HasKind(store.accounts, m.householdId, w.kind))
          && store.members == old(store.members) && store.households == old(store.households)
          && store.users == old(store.users) && store.invites == old(store.invites)
          && store.lists == old(store.lists) && store.items == old(store.items)
          && store.financeSettings == old(store.financeSettings))
  {
    if !isPost {
      return 405, [];
    }
    if me.None? {
      return 401, [];
    }
    var m := FirstMembership(store.members, me.value);
    if m.None? {
      return 400, [];
    }
    var h := m.value.householdId;
    var made := ToCreate(store.accounts, h);
    DefaultsComplete(store.accounts, h);
    if |made| > 0 {
      store.CreateAccounts(NewRows(h, made));
    } else {
      assert store.accounts + NewRows(h, made) == store.accounts;
    }
    return 200, Kinds(made);
  }
}
