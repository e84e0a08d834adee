/** The shopping page: several named lists of items, the current list's
    item operations (add with merge, toggle, pin, remove, set a field, clear
    the bought ones, bulk add), the filtered view, the category groups and the
    counts. Item ids come from a counter that stands for `crypto.randomUUID`. */
module Shopping {
  import opened Seqs
  import opened Text

  /** The fixed category order of the grouped view. */
  const CatOrder: seq<string> :=
    ["Produce", "Dairy", "Bakery", "Pantry", "Frozen", "Baby", "Household", "Pharmacy", "Other"]

  /** One item. `qty` 0 stands for an unset quantity and `price` is the
      price already read as a number (`Number(price) || 0`). */
  datatype Item = Item(id: nat, text: string, qty: real, unit: string, category: string,
                       bought: bool, pinned: bool, price: real)

  /** One list, stored under its own id. */
  datatype ShoppingList = ShoppingList(id: string, name: string, items: seq<Item>)

  /** The quantity, quantity unit and category an add request carries; empty
      strings and a zero quantity stand for the falsy values the page
      replaces by defaults. */
  datatype AddOptions = AddOptions(qty: real, unit: string, cat: string)

  /** A quantity, with an unset (zero) one read as 1. */
  function QtyOr1(q: real): (r: real)
    ensures r != 0.0
    ensures q != 0.0 ==> r == q
  {
    if q == 0.0 then 1.0 else q
  }

  /** The comparison form of a text: trimmed and lower-cased. */
  function Normalize(s: string): string
  {
    ToLower(Trim(s))
  }

  /** Normalizing a trimmed text gives the same as normalizing the raw text. */
  lemma NormalizeTrim(s: string)
    ensures Normalize(Trim(s)) == Normalize(s)
  {
    TrimIdempotent(s);
  }

  /** Same normalized text, unit and category: the item an add request merges into. */
  predicate Matches(i: Item, nText: string, unit: string, cat: string)
  {
    Normalize(i.text) == nText && i.unit == unit && i.category == cat
  }

  /** `findIndex`: the first matching position, if any. */
  function FindMatch(items: seq<Item>, nText: string, unit: string, cat: string): (r: Option<nat>)
    ensures r.Some? ==> r.value < |items| && Matches(items[r.value], nText, unit, cat)
    ensures r.Some? ==> forall j :: 0 <= j < r.value ==> !Matches(items[j], nText, unit, cat)
    ensures r.None? ==> forall j :: 0 <= j < |items| ==> !Matches(items[j], nText, unit, cat)
  {
    FirstIndex(items, (i: Item) => Matches(i, nText, unit, cat))
  }

  /** The item an unmatched add request appends. */
  function NewItem(id: nat, t: string, opt: AddOptions): Item
  {
    Item(id, t, QtyOr1(opt.qty), if opt.unit == "" then "x" else opt.unit,
         if opt.cat == "" then "Other" else opt.cat, false, false, 0.0)
  }

  /** The add updater: blank text changes nothing; a matching item has the
      new quantity added to its own; otherwise one new item goes at the end. */
  function AddToItems(items: seq<Item>, rawText: string, opt: AddOptions, newId: nat): (r: seq<Item>)
    ensures Trim(rawText) == [] ==> r == items
    ensures Trim(rawText) != [] ==> |items| <= |r| <= |items| + 1
    ensures forall k :: 0 <= k < |items| && items[k] != r[k] ==>
      r[k] == items[k].(qty := QtyOr1(items[k].qty) + QtyOr1(opt.qty))
    ensures |r| == |items| + 1 ==>
      && r[|items|].text == Trim(rawText) && !r[|items|].bought && !r[|items|].pinned
      && r[|items|].id == newId && r[|items|].qty == QtyOr1(opt.qty)
    ensures Trim(rawText) != [] ==>
      match FindMatch(items, Normalize(Trim(rawText)), opt.unit, opt.cat)
      case Some(j) =>
        && |r| == |items|
        && r[j] == items[j].(qty := QtyOr1(items[j].qty) + QtyOr1(opt.qty))
        && forall k :: 0 <= k < |items| && k != j ==> r[k] == items[k]
      case None =>
        && r == items + [NewItem(newId, Trim(rawText), opt)]
        && r[|items|].unit == (if opt.unit == "" then "x" else opt.unit)
        && r[|items|].category == (if opt.cat == "" then "Other" else opt.cat)
  {
    var t := Trim(rawText);
    if t == [] then items
    else match FindMatch(items, Normalize(t), opt.unit, opt.cat)
      case Some(idx) => items[idx := items[idx].(qty := QtyOr1(items[idx].qty) + QtyOr1(opt.qty))]
      case None => items + [NewItem(newId, t, opt)]
  }

  /** A request whose text matches an item (same normalized text, unit and
      category) adds to that item's quantity and leaves the length alone;
      without a match it appends. */
  lemma AddMergesIffMatch(items: seq<Item>, rawText: string, opt: AddOptions, newId: nat)
    requires Trim(rawText) != []
    ensures var found := exists j :: 0 <= j < |items| && Matches(items[j], Normalize(rawText), opt.unit, opt.cat);
      |AddToItems(items, rawText, opt, newId)| == (if found then |items| else |items| + 1)
  {
    NormalizeTrim(rawText);
    var t := Trim(rawText);
    match FindMatch(items, Normalize(t), opt.unit, opt.cat)
    case Some(idx) =>
      assert Matches(items[idx], Normalize(rawText), opt.unit, opt.cat);
    case None =>
  }

  /** After a non-blank add with a unit and a category, the list holds an
      item the same request would merge into. */
  lemma AddedIsFound(items: seq<Item>, rawText: string, opt: AddOptions, newId: nat)
    requires Trim(rawText) != [] && opt.unit != "" && opt.cat != ""
    ensures FindMatch(AddToItems(items, rawText, opt, newId), Normalize(Trim(rawText)), opt.unit, opt.cat).Some?
  {
    var t := Trim(rawText);
    var r := AddToItems(items, rawText, opt, newId);
    match FindMatch(items, Normalize(t), opt.unit, opt.cat)
    case Some(idx) =>
      assert Matches(r[idx], Normalize(t), opt.unit, opt.cat);
    case None =>
      TrimIdempotent(rawText);
      assert Matches(r[|items|], Normalize(t), opt.unit, opt.cat);
  }

  /** Adding the same line twice grows the list by at most one item. */
  lemma AddTwiceAddsOnce(items: seq<Item>, rawText: string, opt: AddOptions, id1: nat, id2: nat)
    requires opt.unit != "" && opt.cat != ""
    ensures var once := AddToItems(items, rawText, opt, id1);
      |AddToItems(once, rawText, opt, id2)| == |once| <= |items| + 1
  {
    if Trim(rawText) != [] {
      AddedIsFound(items, rawText, opt, id1);
    }
  }

  /** The toggle updater: flips `bought` of the items with that id. */
  function ToggleItems(items: seq<Item>, id: nat): (r: seq<Item>)
    ensures |r| == |items|
    ensures forall k :: 0 <= k < |items| ==>
      r[k] == (if items[k].id == id then items[k].(bought := !items[k].bought) else items[k])
  {
    seq(|items|, k requires 0 <= k < |items| =>
      if items[k].id == id then items[k].(bought := !items[k].bought) else items[k])
  }

  /** The pin updater: flips `pinned` of the items with that id. */
  function PinItems(items: seq<Item>, id: nat): (r: seq<Item>)
    ensures |r| == |items|
    ensures forall k :: 0 <= k < |items| ==>
      r[k] == (if items[k].id == id then items[k].(pinned := !items[k].pinned) else items[k])
  {
    seq(|items|, k requires 0 <= k < |items| =>
      if items[k].id == id then items[k].(pinned := !items[k].pinned) else items[k])
  }

  /** Toggling the same item twice restores the list. */
  lemma ToggleTwice(items: seq<Item>, id: nat)
    ensures ToggleItems(ToggleItems(items, id), id) == items
  {
  }

  /** Pinning the same item twice restores the list. */
  lemma PinTwice(items: seq<Item>, id: nat)
    ensures PinItems(PinItems(items, id), id) == items
  {
  }

  /** The fields `setField` writes. */
  datatype FieldValue = Qty(qty: real) | Price(price: real) | Text(text: string)
                      | Unit(unit: string) | Category(category: string)

  function SetOne(i: Item, f: FieldValue): Item
  {
    match f
    case Qty(q) => i.(qty := q)
    case Price(p) => i.(price := p)
    case Text(t) => i.(text := t)
    case Unit(u) => i.(unit := u)
    case Category(c) => i.(category := c)
  }

  /** The set-field updater: writes one field of the items with that id. */
  function SetFieldItems(items: seq<Item>, id: nat, f: FieldValue): (r: seq<Item>)
    ensures |r| == |items|
    ensures forall k :: 0 <= k < |items| ==> r[k] == (if items[k].id == id then SetOne(items[k], f) else items[k])
  {
    seq(|items|, k requires 0 <= k < |items| => if items[k].id == id then SetOne(items[k], f) else items[k])
  }

  /** Setting a quantity changes nothing but that quantity: the item keeps
      its id, text, unit, category, flags and price. */
  lemma SetQtyOnlyQty(items: seq<Item>, id: nat, q: real, k: nat)
    requires k < |items|
    ensures var r := SetFieldItems(items, id, Qty(q));
      && r[k].id == items[k].id && r[k].text == items[k].text && r[k].unit == items[k].unit
      && r[k].category == items[k].category && r[k].bought == items[k].bought
      && r[k].pinned == items[k].pinned && r[k].price == items[k].price
      && r[k].qty == (if items[k].id == id then q else items[k].qty)
  {
  }

  /** The remove updater: the items with another id, in order. */
  function RemoveItems(items: seq<Item>, id: nat): (r: seq<Item>)
    ensures |r| <= |items|
    ensures forall k :: 0 <= k < |r| ==> r[k].id != id && r[k] in items
    ensures forall k :: 0 <= k < |items| && items[k].id != id ==> items[k] in r
  {
    if items == [] then []
    else if items[0].id == id then RemoveItems(items[1..], id)
    else [items[0]] + RemoveItems(items[1..], id)
  }

  /** Removing works element by element: on a joined list it is the join of
      the two removals, so the kept items keep their order and their
      multiplicity. */
  lemma {:induction false} RemoveAppend(a: seq<Item>, b: seq<Item>, id: nat)
    ensures RemoveItems(a + b, id) == RemoveItems(a, id) + RemoveItems(b, id)
  {
    if a == [] {
      assert a + b == b;
    } else {
      assert (a + b)[0] == a[0];
      assert (a + b)[1..] == a[1..] + b;
      RemoveAppend(a[1..], b, id);
    }
  }

  /** The remove updater is `filter` with the id test. */
  lemma {:induction false} RemoveIsFilter(items: seq<Item>, id: nat)
    ensures RemoveItems(items, id) == Filter(items, (i: Item) => i.id != id)
  {
    if items != [] {
      RemoveIsFilter(items[1..], id);
    }
  }

  /** Removing an id that is not in the list changes nothing. */
  lemma {:induction false} RemoveAbsent(items: seq<Item>, id: nat)
    requires forall k :: 0 <= k < |items| ==> items[k].id != id
    ensures RemoveItems(items, id) == items
  {
    if items != [] {
      RemoveAbsent(items[1..], id);
    }
  }

  /** The clear-done updater: the unbought items, in order. */
  function ClearCheckedItems(items: seq<Item>): (r: seq<Item>)
    ensures |r| <= |items|
    ensures forall k :: 0 <= k < |r| ==> !r[k].bought && r[k] in items
    ensures forall k :: 0 <= k < |items| && !items[k].bought ==> items[k] in r
  {
    if items == [] then []
    else if items[0].bought then ClearCheckedItems(items[1..])
    else [items[0]] + ClearCheckedItems(items[1..])
  }

  /** The clear-done updater is `filter` with `!bought`. */
  lemma {:induction false} ClearCheckedIsFilter(items: seq<Item>)
    ensures ClearCheckedItems(items) == Filter(items, (i: Item) => !i.bought)
  {
    if items != [] {
      ClearCheckedIsFilter(items[1..]);
    }
  }

  /** Clearing works element by element: on a joined list it is the join of
      the two clearings, so the kept items keep their order and their
      multiplicity. */
  lemma {:induction false} ClearCheckedAppend(a: seq<Item>, b: seq<Item>)
    ensures ClearCheckedItems(a + b) == ClearCheckedItems(a) + ClearCheckedItems(b)
  {
    if a == [] {
      assert a + b == b;
    } else {
      assert (a + b)[0] == a[0];
      assert (a + b)[1..] == a[1..] + b;
      ClearCheckedAppend(a[1..], b);
    }
  }

  // ---- Filtered view ----------------------------------------------------

  /** The three filters of the view: hide bought items, one category
      ("All" for every category), and a text the normalized item text must
      contain (the empty text for none). */
  predicate Passes(i: Item, hideChecked: bool, filterCat: string, filterText: string)
  {
    && !(hideChecked && i.bought)
    && (filterCat == "All" || i.category == filterCat)
    && (filterText == "" || Contains(Normalize(i.text), Normalize(filterText)))
  }

  /** The filtered view: the items that pass every filter, in list order. */
  function Filtered(items: seq<Item>, hideChecked: bool, filterCat: string, filterText: string): (r: seq<Item>)
    ensures forall k :: 0 <= k < |r| ==> r[k] in items && Passes(r[k], hideChecked, filterCat, filterText)
    ensures forall k :: 0 <= k < |items| && Passes(items[k], hideChecked, filterCat, filterText) ==> items[k] in r
  {
    Filter(items, i => Passes(i, hideChecked, filterCat, filterText))
  }

  /** With every filter off the view is the whole list. */
  lemma {:induction false} FilteredAllOff(items: seq<Item>)
    ensures Filtered(items, false, "All", "") == items
  {
    if items != [] {
      FilteredAllOff(items[1..]);
    }
  }

  // ---- Counts and total -------------------------------------------------

  /** A bought item. */
  predicate IsBought(i: Item)
  {
    i.bought
  }

  /** How many items are bought: the length of the bought items filtered out. */
  function DoneCount(items: seq<Item>): (n: nat)
    ensures n <= |items|
    ensures n == |Filter(items, IsBought)|
  {
    if items == [] then 0 else (if items[0].bought then 1 else 0) + DoneCount(items[1..])
  }

  /** The counter line: all items, bought ones and the rest. */
  datatype Count = Count(totalItems: nat, done: nat, left: nat)

  function CountOf(items: seq<Item>): (c: Count)
    ensures c.totalItems == |items| && c.done <= c.totalItems
    ensures c.left == c.totalItems - c.done
    ensures c.done == |Filter(items, IsBought)|
  {
    Count(|items|, DoneCount(items), |items| - DoneCount(items))
  }

  /** Clearing the bought items keeps exactly the items the counter calls left. */
  lemma {:induction false} ClearCheckedKeepsLeft(items: seq<Item>)
    ensures |ClearCheckedItems(items)| == CountOf(items).left
    ensures CountOf(ClearCheckedItems(items)).done == 0
  {
    if items != [] {
      ClearCheckedKeepsLeft(items[1..]);
    }
  }

  /** Toggling an item's `bought` keeps the number of items and the price
      total. */
  lemma ToggleKeepsTotal(items: seq<Item>, id: nat)
    ensures CountOf(ToggleItems(items, id)).totalItems == CountOf(items).totalItems
    ensures Total(ToggleItems(items, id)) == Total(items)
  {
    ToggleKeepsPriceTotal(items, id);
  }

  lemma {:induction false} ToggleKeepsPriceTotal(items: seq<Item>, id: nat)
    ensures Total(ToggleItems(items, id)) == Total(items)
  {
    if items != [] {
      ToggleKeepsPriceTotal(items[1..], id);
      assert ToggleItems(items, id)[1..] == ToggleItems(items[1..], id);
    }
  }

  /** The price total: each price times its quantity, an unset quantity as 1. */
  function Total(items: seq<Item>): real
  {
    if items == [] then 0.0 else items[0].price * QtyOr1(items[0].qty) + Total(items[1..])
  }

  /** The total of two lists joined is the sum of their totals. */
  lemma {:induction false} TotalAppend(a: seq<Item>, b: seq<Item>)
    ensures Total(a + b) == Total(a) + Total(b)
  {
    if a == [] {
      assert a + b == b;
    } else {
      assert (a + b)[0] == a[0];
      assert (a + b)[1..] == a[1..] + b;
      TotalAppend(a[1..], b);
    }
  }

  // ---- Groups -----------------------------------------------------------

  /** An item's group: its category, "Other" when it has none. */
  function GroupKey(i: Item): string
  {
    if i.category == "" then "Other" else i.category
  }

  /** The items of one group, in list order. */
  function InCategory(s: seq<Item>, k: string): (r: seq<Item>)
    ensures |r| <= |s|
  {
    if s == [] then []
    else InCategory(s[..|s| - 1], k) + (if GroupKey(s[|s| - 1]) == k then [s[|s| - 1]] else [])
  }

  lemma InCategorySnoc(s: seq<Item>, x: Item)
    ensures forall k :: InCategory(s + [x], k) == InCategory(s, k) + (if GroupKey(x) == k then [x] else [])
  {
    assert (s + [x])[..|s|] == s;
  }

  /** A group holds exactly the items of the sequence with that key. */
  lemma {:induction false} InCategoryMembers(s: seq<Item>, k: string, x: Item)
    ensures x in InCategory(s, k) <==> x in s && GroupKey(x) == k
  {
    if s != [] {
      var p := s[..|s| - 1];
      InCategoryMembers(p, k, x);
      assert s == p + [s[|s| - 1]];
    }
  }

  /** The group keys in order of first appearance (a `Map`'s key order). */
  function FirstKeys(s: seq<Item>): (keys: seq<string>)
    ensures |keys| <= |s|
  {
    if s == [] then []
    else
      var p := FirstKeys(s[..|s| - 1]);
      var k := GroupKey(s[|s| - 1]);
      if k in p then p else p + [k]
  }

  lemma FirstKeysSnoc(s: seq<Item>, x: Item)
    ensures FirstKeys(s + [x]) == if GroupKey(x) in FirstKeys(s) then FirstKeys(s) else FirstKeys(s) + [GroupKey(x)]
  {
    assert (s + [x])[..|s|] == s;
  }

  /** A key is listed exactly when its group is non-empty, and no key is
      listed twice. */
  lemma {:induction false} FirstKeysMembers(s: seq<Item>, k: string)
    ensures k in FirstKeys(s) <==> InCategory(s, k) != []
    ensures forall i, j :: 0 <= i < j < |FirstKeys(s)| ==> FirstKeys(s)[i] != FirstKeys(s)[j]
  {
    FirstKeysHas(s, k);
    FirstKeysDistinct(s);
  }

  lemma {:induction false} FirstKeysHas(s: seq<Item>, k: string)
    ensures k in FirstKeys(s) <==> InCategory(s, k) != []
  {
    if s != [] {
      var p := s[..|s| - 1];
      var x := s[|s| - 1];
      FirstKeysHas(p, k);
      assert InCategory(s, k) == InCategory(p, k) + (if GroupKey(x) == k then [x] else []);
      if GroupKey(x) == k {
        FirstKeysHas(p, GroupKey(x));
      }
    }
  }

  lemma {:induction false} FirstKeysDistinct(s: seq<Item>)
    ensures forall i, j :: 0 <= i < j < |FirstKeys(s)| ==> FirstKeys(s)[i] != FirstKeys(s)[j]
  {
    if s != [] {
      FirstKeysDistinct(s[..|s| - 1]);
    }
  }

  /** The categories of `cats` that are among `keys`, in the order of `cats`. */
  function Present(cats: seq<string>, keys: seq<string>): (r: seq<string>)
    ensures |r| <= |cats|
  {
    if cats == [] then []
    else Present(cats[..|cats| - 1], keys) + (if cats[|cats| - 1] in keys then [cats[|cats| - 1]] else [])
  }

  /** The keys outside the fixed category order, in their own order. */
  function Unknown(keys: seq<string>): (r: seq<string>)
    ensures |r| <= |keys|
  {
    if keys == [] then []
    else Unknown(keys[..|keys| - 1]) + (if keys[|keys| - 1] !in CatOrder then [keys[|keys| - 1]] else [])
  }

  lemma {:induction false} PresentMembers(cats: seq<string>, keys: seq<string>, k: string)
    ensures k in Present(cats, keys) <==> k in cats && k in keys
  {
    if cats != [] {
      var p := cats[..|cats| - 1];
      PresentMembers(p, keys, k);
      assert cats == p + [cats[|cats| - 1]];
    }
  }

  lemma {:induction false} UnknownMembers(keys: seq<string>, k: string)
    ensures k in Unknown(keys) <==> k in keys && k !in CatOrder
  {
    if keys != [] {
      var p := keys[..|keys| - 1];
      UnknownMembers(p, k);
      assert keys == p + [keys[|keys| - 1]];
    }
  }

  /** The order of the groups: known categories first, in the fixed order,
      then the others in order of first appearance. */
  function GroupOrder(keys: seq<string>): seq<string>
  {
    Present(CatOrder, keys) + Unknown(keys)
  }

  /** Every key gets a group and no other group is made. */
  lemma GroupOrderMembers(keys: seq<string>, k: string)
    ensures k in GroupOrder(keys) <==> k in keys
  {
    PresentMembers(CatOrder, keys, k);
    UnknownMembers(keys, k);
  }

  /** The in-group ordering: pinned first, then not yet bought, then by
      text under `textCmp` (`localeCompare`). */
  function Compare(a: Item, b: Item, textCmp: (string, string) -> int): int
  {
    if a.pinned != b.pinned then (if a.pinned then -1 else 1)
    else if a.bought != b.bought then (if a.bought then 1 else -1)
    else textCmp(a.text, b.text)
  }

  function Before(textCmp: (string, string) -> int): (Item, Item) -> bool
  {
    (a: Item, b: Item) => Compare(a, b, textCmp) < 0
  }

  /** A text comparison never puts each of two texts before the other. */
  ghost predicate TextOrder(textCmp: (string, string) -> int)
  {
    forall x, y :: textCmp(x, y) < 0 ==> textCmp(y, x) >= 0
  }

  lemma BeforeAsymmetric(textCmp: (string, string) -> int)
    requires TextOrder(textCmp)
    ensures Asymmetric(Before(textCmp))
  {
    forall a: Item, b: Item | Before(textCmp)(a, b) ensures !Before(textCmp)(b, a) {
      assert Compare(a, b, textCmp) < 0;
    }
  }

  /** Position of an item under the first two sort keys. */
  function Rank(i: Item): nat
  {
    (if i.pinned then 0 else 2) + (if i.bought then 1 else 0)
  }

  /** In a group sorted by `Before`, ranks never decrease: pinned items come
      before unpinned ones, and among equally pinned items the unbought come
      before the bought. */
  lemma {:induction false} SortedByRank(s: seq<Item>, textCmp: (string, string) -> int, i: nat, j: nat)
    requires AdjacentSorted(s, Before(textCmp))
    requires i <= j < |s|
    ensures Rank(s[i]) <= Rank(s[j])
    ensures s[j].pinned ==> s[i].pinned
    ensures s[i].pinned == s[j].pinned && s[i].bought ==> s[j].bought
    decreases j - i
  {
    if i < j {
      SortedByRank(s, textCmp, i, j - 1);
      assert !Before(textCmp)(s[j], s[j - 1]);
    }
  }

  /** `byCat` holds the groups of `p` under the keys `keys`, which are the
      group keys of `p` in order of first appearance. */
  ghost predicate Collected(p: seq<Item>, keys: seq<string>, byCat: map<string, seq<Item>>)
  {
    && keys == FirstKeys(p)
    && (forall k :: k in byCat <==> k in keys)
    && (forall k :: k in byCat ==> byCat[k] == InCategory(p, k))
    && (forall k :: k !in byCat ==> InCategory(p, k) == [])
  }

  /** Appending an item to its existing group keeps the collection in step
      with the items seen. */
  lemma CollectIntoGroup(p: seq<Item>, x: Item, keys: seq<string>, byCat: map<string, seq<Item>>)
    requires Collected(p, keys, byCat) && GroupKey(x) in byCat
    ensures Collected(p + [x], keys, byCat[GroupKey(x) := byCat[GroupKey(x)] + [x]])
  {
    InCategorySnoc(p, x);
    FirstKeysSnoc(p, x);
  }

  /** Opening a group for an item with a new key keeps the collection in
      step with the items seen. */
  lemma CollectNewGroup(p: seq<Item>, x: Item, keys: seq<string>, byCat: map<string, seq<Item>>)
    requires Collected(p, keys, byCat) && GroupKey(x) !in byCat
    ensures Collected(p + [x], keys + [GroupKey(x)], byCat[GroupKey(x) := [x]])
  {
    InCategorySnoc(p, x);
    FirstKeysSnoc(p, x);
  }

  /** The first pass of `groups`: the items of each group, keyed by group,
      and the keys in order of first appearance. */
  method CollectByCategory(filtered: seq<Item>) returns (keys: seq<string>, byCat: map<string, seq<Item>>)
    ensures keys == FirstKeys(filtered)
    ensures forall k :: k in byCat <==> k in keys
    ensures forall k :: k in byCat ==> byCat[k] == InCategory(filtered, k)
  {
    keys := [];
    byCat := map[];
    for idx := 0 to |filtered|
      invariant Collected(filtered[..idx], keys, byCat)
    {
      var i := filtered[idx];
      var k := GroupKey(i);
      assert filtered[..idx + 1] == filtered[..idx] + [i];
      if k in byCat {
        CollectIntoGroup(filtered[..idx], i, keys, byCat);
        byCat := byCat[k := byCat[k] + [i]];
      } else {
        CollectNewGroup(filtered[..idx], i, keys, byCat);
        keys := keys + [k];
        byCat := byCat[k := [i]];
      }
    }
    assert filtered[..|filtered|] == filtered;
  }

  /** One group sorted in place: a permutation ordered by `Before`. */
  method SortGroup(s: seq<Item>, textCmp: (string, string) -> int) returns (r: seq<Item>)
    requires TextOrder(textCmp)
    ensures multiset(r) == multiset(s)
    ensures AdjacentSorted(r, Before(textCmp))
  {
    var a := new Item[|s|](k requires 0 <= k < |s| => s[k]);
    assert a[..] == s;
    BeforeAsymmetric(textCmp);
    InsertionSort(a, Before(textCmp));
    r := a[..];
  }

  /** The second pass of `groups`: every group sorted. */
  method SortGroups(keys: seq<string>, byCat: map<string, seq<Item>>, textCmp: (string, string) -> int)
    returns (sorted: map<string, seq<Item>>)
    requires TextOrder(textCmp)
    requires forall k :: k in byCat <==> k in keys
    ensures forall k :: k in sorted <==> k in keys
    ensures forall k :: k in sorted ==>
      multiset(sorted[k]) == multiset(byCat[k]) && AdjacentSorted(sorted[k], Before(textCmp))
  {
    sorted := map[];
    for idx := 0 to |keys|
      invariant forall k :: k in sorted <==> k in keys[..idx]
      invariant forall k :: k in sorted ==>
        multiset(sorted[k]) == multiset(byCat[k]) && AdjacentSorted(sorted[k], Before(textCmp))
    {
      var k := keys[idx];
      assert keys[..idx + 1] == keys[..idx] + [k];
      var g := SortGroup(byCat[k], textCmp);
      sorted := sorted[k := g];
    }
    assert keys[..|keys|] == keys;
  }

  /** The groups in the given key order, each with its items. */
  function Pairs(order: seq<string>, sorted: map<string, seq<Item>>): (r: seq<(string, seq<Item>)>)
    requires forall k :: k in order ==> k in sorted
    ensures |r| == |order|
    ensures forall g :: 0 <= g < |r| ==> r[g] == (order[g], sorted[order[g]])
  {
    if order == [] then []
    else Pairs(order[..|order| - 1], sorted) + [(order[|order| - 1], sorted[order[|order| - 1]])]
  }

  lemma PairsSnoc(order: seq<string>, k: string, sorted: map<string, seq<Item>>)
    requires forall k' :: k' in order ==> k' in sorted
    requires k in sorted
    ensures Pairs(order + [k], sorted) == Pairs(order, sorted) + [(k, sorted[k])]
  {
    assert (order + [k])[..|order|] == order;
  }

  lemma PairsAppend(a: seq<string>, b: seq<string>, sorted: map<string, seq<Item>>)
    requires forall k :: k in a ==> k in sorted
    requires forall k :: k in b ==> k in sorted
    ensures Pairs(a + b, sorted) == Pairs(a, sorted) + Pairs(b, sorted)
  {
  }

  /** The categories of `cats` that have a group, in the order of `cats`. */
  method ArrangeKnown(cats: seq<string>, keys: seq<string>, sorted: map<string, seq<Item>>)
    returns (out: seq<(string, seq<Item>)>)
    requires forall k :: k in sorted <==> k in keys
    ensures forall k :: k in Present(cats, keys) ==> k in sorted
    ensures out == Pairs(Present(cats, keys), sorted)
  {
    out := [];
    for c := 0 to |cats|
      invariant forall k :: k in Present(cats[..c], keys) ==> k in sorted
      invariant out == Pairs(Present(cats[..c], keys), sorted)
    {
      var prefix := cats[..c + 1];
      assert prefix[..c] == cats[..c] && prefix[c] == cats[c];
      assert Present(prefix, keys) == Present(cats[..c], keys) + (if cats[c] in keys then [cats[c]] else []);
      if cats[c] in sorted {
        PairsSnoc(Present(cats[..c], keys), cats[c], sorted);
        out := out + [(cats[c], sorted[cats[c]])];
      }
    }
    assert cats[..|cats|] == cats;
  }

  /** One more key of `keys` extends the unknown keys of the prefix by that
      key when it is outside the fixed order. */
  lemma UnknownPrefix(keys: seq<string>, idx: nat)
    requires idx < |keys|
    ensures Unknown(keys[..idx + 1]) ==
      Unknown(keys[..idx]) + (if keys[idx] !in CatOrder then [keys[idx]] else [])
  {
    var ks := keys[..idx + 1];
    assert ks[..idx] == keys[..idx] && ks[idx] == keys[idx];
  }

  /** The other groups, in order of first appearance. */
  method ArrangeUnknown(keys: seq<string>, sorted: map<string, seq<Item>>) returns (out: seq<(string, seq<Item>)>)
    requires forall k :: k in sorted <==> k in keys
    ensures forall k :: k in Unknown(keys) ==> k in sorted
    ensures out == Pairs(Unknown(keys), sorted)
  {
    out := [];
    for idx := 0 to |keys|
      invariant forall k :: k in Unknown(keys[..idx]) ==> k in sorted
      invariant out == Pairs(Unknown(keys[..idx]), sorted)
    {
      UnknownPrefix(keys, idx);
      if keys[idx] !in CatOrder {
        PairsSnoc(Unknown(keys[..idx]), keys[idx], sorted);
        out := out + [(keys[idx], sorted[keys[idx]])];
      }
    }
    assert keys[..|keys|] == keys;
  }

  /** The last pass of `groups`: the fixed categories present, then the rest. */
  method Arrange(keys: seq<string>, sorted: map<string, seq<Item>>) returns (out: seq<(string, seq<Item>)>)
    requires forall k :: k in sorted <==> k in keys
    ensures forall k :: k in GroupOrder(keys) ==> k in sorted
    ensures out == Pairs(GroupOrder(keys), sorted)
  {
    var known := ArrangeKnown(CatOrder, keys, sorted);
    var unknown := ArrangeUnknown(keys, sorted);
    PairsAppend(Present(CatOrder, keys), Unknown(keys), sorted);
    out := known + unknown;
  }

  /** `groups`: the filtered items gathered by category, each group a
      permutation of that category's items sorted by `Before`, the groups in
      `GroupOrder`. */
  method Groups(filtered: seq<Item>, textCmp: (string, string) -> int) returns (out: seq<(string, seq<Item>)>)
    requires TextOrder(textCmp)
    ensures |out| == |GroupOrder(FirstKeys(filtered))|
    ensures forall g :: 0 <= g < |out| ==>
      && out[g].0 == GroupOrder(FirstKeys(filtered))[g]
      && multiset(out[g].1) == multiset(InCategory(filtered, out[g].0))
      && AdjacentSorted(out[g].1, Before(textCmp))
  {
    var keys, byCat := CollectByCategory(filtered);
    var sorted := SortGroups(keys, byCat, textCmp);
    out := Arrange(keys, sorted);
  }

  /** Every filtered item lies in the group of its key, that key has a
      group, and every group's key has items. */
  lemma GroupsCoverFiltered(filtered: seq<Item>, x: Item, k: string)
    ensures x in filtered ==>
      GroupKey(x) in GroupOrder(FirstKeys(filtered)) && x in InCategory(filtered, GroupKey(x))
    ensures k in GroupOrder(FirstKeys(filtered)) ==> InCategory(filtered, k) != []
  {
    InCategoryMembers(filtered, GroupKey(x), x);
    FirstKeysMembers(filtered, GroupKey(x));
    GroupOrderMembers(FirstKeys(filtered), GroupKey(x));
    FirstKeysMembers(filtered, k);
    GroupOrderMembers(FirstKeys(filtered), k);
  }

  // ---- Bulk add ---------------------------------------------------------

  /** The non-empty trimmed lines of a pasted text. Splitting on "\n" and
      trimming gives the same lines as splitting on /\r?\n/ and trimming,
      because trimming removes a trailing "\r". */
  function BulkLines(bulkText: string): (lines: seq<string>)
    ensures forall j :: 0 <= j < |lines| ==> Trim(lines[j]) != [] && Trim(lines[j]) == lines[j]
    ensures forall j :: 0 <= j < |lines| ==> '\n' !in lines[j]
  {
    NonEmptyTrimmed(Split(bulkText, '\n'))
  }

  /** The pieces, trimmed, without the empty ones. */
  function NonEmptyTrimmed(parts: seq<string>): (r: seq<string>)
    requires forall w :: w in parts ==> '\n' !in w
    ensures forall j :: 0 <= j < |r| ==> Trim(r[j]) != [] && Trim(r[j]) == r[j]
    ensures forall j :: 0 <= j < |r| ==> '\n' !in r[j]
  {
    if parts == [] then []
    else
      var t := Trim(parts[0]);
      TrimIdempotent(parts[0]);
      assert forall c :: c in t ==> c in parts[0];
      (if t == [] then [] else [t]) + NonEmptyTrimmed(parts[1..])
  }

  /** The options every bulk-added line uses. */
  const BulkOptions := AddOptions(1.0, "x", "Other")

  /** Bulk add as the page runs it: every line's updater reads the list as it
      was before the paste, so each replaces the previous one's result and
      only the last line is added. */
  function BulkAddAsWritten(items: seq<Item>, lines: seq<string>, firstId: nat): (r: seq<Item>)
    ensures lines == [] ==> r == items
  {
    if lines == [] then items
    else AddToItems(items, lines[|lines| - 1], BulkOptions, firstId + |lines| - 1)
  }

  /** Bulk add as intended: the lines added one after another. */
  function BulkAddItems(items: seq<Item>, lines: seq<string>, firstId: nat): (r: seq<Item>)
    ensures |items| <= |r| <= |items| + |lines|
    decreases |lines|
  {
    if lines == [] then items
    else BulkAddItems(AddToItems(items, lines[0], BulkOptions, firstId), lines[1..], firstId + 1)
  }

  /** Every non-blank pasted line is on the list after the intended bulk add. */
  lemma {:induction false} BulkAddFindsEveryLine(items: seq<Item>, lines: seq<string>, firstId: nat, j: nat)
    requires j < |lines| && Trim(lines[j]) != []
    ensures FindMatch(BulkAddItems(items, lines, firstId), Normalize(Trim(lines[j])), "x", "Other").Some?
    decreases j
  {
    if j == 0 {
      AddedIsFound(items, lines[0], BulkOptions, firstId);
      StaysFound(AddToItems(items, lines[0], BulkOptions, firstId), lines[1..], firstId + 1,
                 Normalize(Trim(lines[0])));
    } else {
      assert lines[1..][j - 1] == lines[j];
      BulkAddFindsEveryLine(AddToItems(items, lines[0], BulkOptions, firstId), lines[1..], firstId + 1, j - 1);
    }
  }

  /** Later adds never remove a match: adding only merges into items or
      appends. */
  lemma {:induction false} StaysFound(items: seq<Item>, lines: seq<string>, firstId: nat, nText: string)
    requires FindMatch(items, nText, "x", "Other").Some?
    ensures FindMatch(BulkAddItems(items, lines, firstId), nText, "x", "Other").Some?
    decreases |lines|
  {
    if lines != [] {
      var next := AddToItems(items, lines[0], BulkOptions, firstId);
      var k := FindMatch(items, nText, "x", "Other").value;
      assert next[k].text == items[k].text && next[k].unit == items[k].unit && next[k].category == items[k].category;
      assert Matches(next[k], nText, "x", "Other");
      StaysFound(next, lines[1..], firstId + 1, nText);
    }
  }

  /** A word with no white space at either end is its own trim. */
  lemma TrimWord(s: string)
    requires s != [] && !IsSpace(s[0]) && !IsSpace(s[|s| - 1])
    ensures Trim(s) == s
  {
  }

  /** As written, a paste onto an empty list leaves one item whenever its
      last line is not blank, however many lines it had. */
  lemma BulkAddAsWrittenKeepsOne(lines: seq<string>, firstId: nat)
    requires lines != [] && Trim(lines[|lines| - 1]) != []
    ensures |BulkAddAsWritten([], lines, firstId)| == 1
  {
  }

  /** As intended, two non-blank lines that normalize differently give two
      items on an empty list. */
  lemma BulkAddTwoLines(a: string, b: string, firstId: nat)
    requires Trim(a) != [] && Trim(b) != [] && Normalize(Trim(a)) != Normalize(Trim(b))
    ensures |BulkAddItems([], [a, b], firstId)| == 2
  {
    var once := AddToItems([], a, BulkOptions, firstId);
    assert |once| == 1;
    assert !Matches(once[0], Normalize(Trim(b)), "x", "Other");
    assert [a, b][1..] == [b] && [b][1..] == [];
  }

  /** Pasting "milk" and "eggs" onto an empty list keeps only "eggs" as
      written, and both as intended. */
  lemma BulkAddLosesLines()
    ensures |BulkAddAsWritten([], ["milk", "eggs"], 0)| == 1
    ensures |BulkAddItems([], ["milk", "eggs"], 0)| == 2
  {
    TrimWord("milk");
    TrimWord("eggs");
    assert Normalize("milk")[0] == 'm' && Normalize("eggs")[0] == 'e';
    BulkAddAsWrittenKeepsOne(["milk", "eggs"], 0);
    BulkAddTwoLines("milk", "eggs", 0);
  }

  // ---- The lists ----------------------------------------------------------

  /** The page's list state: lists by id, their key order, the selected id,
      and the counter standing for fresh item ids. */
  class ShoppingLists {
    var lists: map<string, ShoppingList>
    var order: seq<string>
    var currentId: string
    var nextItemId: nat

    /** The key order lists exactly the stored ids, each once, and every list
        is stored under its own id. */
    ghost predicate Valid()
      reads this
    {
      && |order| >= 1
      && (forall k :: k in lists <==> k in order)
      && (forall i, j :: 0 <= i < j < |order| ==> order[i] != order[j])
      && (forall k :: k in lists ==> lists[k].id == k)
    }

    /** The selected list, or the first one when the selected id is gone. */
    function Current(): ShoppingList
      reads this
      requires Valid()
    {
      if currentId in lists then lists[currentId] else lists[order[0]]
    }

    /** The three default lists, "weekly" selected. */
    constructor ()
      ensures Valid()
      ensures order == ["weekly", "pharmacy", "house"] && currentId == "weekly"
      ensures lists == map["weekly" := ShoppingList("weekly", "Weekly Shop", []),
                           "pharmacy" := ShoppingList("pharmacy", "Pharmacy", []),
                           "house" := ShoppingList("house", "Household", [])]
      ensures Current().items == []
    {
      lists := map["weekly" := ShoppingList("weekly", "Weekly Shop", []),
                   "pharmacy" := ShoppingList("pharmacy", "Pharmacy", []),
                   "house" := ShoppingList("house", "Household", [])];
      order := ["weekly", "pharmacy", "house"];
      currentId := "weekly";
      nextItemId := 0;
    }

    /** `updateCurrent`: the current list, stored again under its id with
        new items; every other list and the selection are untouched. */
    method UpdateCurrent(newItems: seq<Item>)
      requires Valid()
      modifies this
      ensures Valid()
      ensures lists == old(lists)[old(Current()).id := old(Current()).(items := newItems)]
      ensures order == old(order) && currentId == old(currentId) && nextItemId == old(nextItemId)
      ensures Current().items == newItems
    {
      var c := Current();
      lists := lists[c.id := c.(items := newItems)];
    }

    /** `addItem`: blank text leaves every list unchanged. */
    method AddItem(rawText: string, opt: AddOptions)
      requires Valid()
      modifies this
      ensures Valid()
      ensures Trim(rawText) == [] ==> lists == old(lists)
      ensures lists == old(lists)[old(Current()).id :=
        old(Current()).(items := AddToItems(old(Current()).items, rawText, opt, old(nextItemId)))]
      ensures order == old(order) && currentId == old(currentId)
    {
      if Trim(rawText) == [] {
        assert lists == lists[Current().id := Current()];
        return;
      }
      var id := nextItemId;
      nextItemId := nextItemId + 1;
      UpdateCurrent(AddToItems(Current().items, rawText, opt, id));
    }

    method Toggle(id: nat)
      requires Valid()
      modifies this
      ensures Valid()
      ensures lists == old(lists)[old(Current()).id := old(Current()).(items := ToggleItems(old(Current()).items, id))]
      ensures order == old(order) && currentId == old(currentId)
    {
      UpdateCurrent(ToggleItems(Current().items, id));
    }

    method Pin(id: nat)
      requires Valid()
      modifies this
      ensures Valid()
      ensures lists == old(lists)[old(Current()).id := old(Current()).(items := PinItems(old(Current()).items, id))]
      ensures order == old(order) && currentId == old(currentId)
    {
      UpdateCurrent(PinItems(Current().items, id));
    }

    method Remove(id: nat)
      requires Valid()
      modifies this
      ensures Valid()
      ensures lists == old(lists)[old(Current()).id := old(Current()).(items := RemoveItems(old(Current()).items, id))]
      ensures order == old(order) && currentId == old(currentId)
    {
      UpdateCurrent(RemoveItems(Current().items, id));
    }

    method SetField(id: nat, f: FieldValue)
      requires Valid()
      modifies this
      ensures Valid()
      ensures lists == old(lists)[old(Current()).id := old(Current()).(items := SetFieldItems(old(Current()).items, id, f))]
      ensures order == old(order) && currentId == old(currentId)
    {
      UpdateCurrent(SetFieldItems(Current().items, id, f));
    }

    method ClearChecked()
      requires Valid()
      modifies this
      ensures Valid()
      ensures lists == old(lists)[old(Current()).id := old(Current()).(items := ClearCheckedItems(old(Current()).items))]
      ensures order == old(order) && currentId == old(currentId)
      ensures CountOf(Current().items).done == 0
    {
      ClearCheckedKeepsLeft(Current().items);
      UpdateCurrent(ClearCheckedItems(Current().items));
    }

    /** `bulkAdd` as intended, with the lines added one after another; the
        page as written keeps only the last line (`BulkAddAsWritten`). */
    method BulkAdd(bulkText: string)
      requires Valid()
      modifies this
      ensures Valid()
      ensures var lines := BulkLines(bulkText);
        lists == old(lists)[old(Current()).id :=
          old(Current()).(items := BulkAddItems(old(Current()).items, lines, old(nextItemId)))]
      ensures order == old(order) && currentId == old(currentId)
    {
      var lines := BulkLines(bulkText);
      var items := BulkAddItems(Current().items, lines, nextItemId);
      nextItemId := nextItemId + |lines|;
      UpdateCurrent(items);
    }
  }
}
