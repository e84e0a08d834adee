# couplemanager household budget — a verified Dafny model

couplemanager is a small web app for a couple sharing a household budget. This project models and proves the parts of it that carry rules:

- **Budget allocator** (`Finance`). Two incomes, a monthly pool, an expenses pool and a savings rate are turned into three pool targets. Each pool is split between the two partners by one of three policies: equal halves, proportional to income, or equal leftovers. The allocator also reports what each partner keeps.
- **Savings projections**:
  - `SavingsProjection`: the widget's month-by-month loop, with a target month.
  - `Savings`: the savings page's loop, its contribution derived from the budget form, the contributed and interest totals, and the parsing of its start month.
- **Shopping lists** (`Shopping`):
  - the item operations: add with merge-on-duplicate, toggle, pin, remove, set one field, clear the bought items, bulk add;
  - the filtered view, the category groups and their sort, the counts and the total;
  - a class holding the lists by id.
- **Price finder** (`SmartFind`): token normalisation, the token-overlap score, de-duplication by name and price, ranking with a top five, and the request handler.
- **Avatar initials** (`Avatar`) and the chart colour decoder `#rrggbb` → `rgba(r,g,b,a)` (`Charts`).
- **Household membership routes**:
  - The database is a class `HouseholdStore.Store`. It holds households, membership rows keyed by (household, user) with a role, users, accounts, invites, shopping lists and items, and finance settings.
  - Each route is a method that answers a status code and whose postconditions describe the store afterwards: leave, set-role, remove-member, accept, default-accounts, delete, rename and summary.
  - The get-or-create helpers of `lib/household.js` are modelled too.

Shared helpers:
- `Seqs` holds Option, the order-preserving filter, `findIndex`, key-distinctness and an in-place insertion sort standing for `Array.prototype.sort`.
- `Text` holds JavaScript's `trim` (with its full white-space set), `toLowerCase` of ASCII letters, `split`/`join` and decimal printing.

Money, rates and balances are `real`, and inputs are taken as already coerced (`Number(x) || 0`). Ids are natural numbers. Database ids, item ids and invite tokens come from counters or parameters.

## Model

| member | source | states |
|---|---|---|
| Finance.Halves | pages/finance.jsx:70-72 | both halves are equal and add up to the pool |
| Finance.ByFractions | pages/finance.jsx:63-68 | the two shares add up to the pool; with a fraction in [0,1] each lies between 0 and the pool |
| Finance.LeftoverFraction | pages/finance.jsx:53-63 | Ryan's equal-leftover fraction lies in [0,1] when T > 0 and is 0 otherwise |
| Finance.ProportionalPools | pages/finance.jsx:44-48 | each pool's two shares add up to the pool, with no warning |
| Finance.LeftoverPools | pages/finance.jsx:49-68 | each pool's shares add up to the pool; the warning is set exactly when r + s < T, and it carries the page's text |
| Finance.HalfPools | pages/finance.jsx:69-73 | each pool's halves add up to the pool, with no warning |
| Finance.Calc | pages/finance.jsx:32-85 | TM and TE ≥ 0; TS ≥ 0 for non-negative incomes; T = TM + TE + TS; under every method the two contributions to each pool add up to its target; remR + remS = totalIncome − T; the warning is set exactly under equal-leftover with r + s < T |
| Finance.EqualHalvesApply | pages/finance.jsx:44-76 | under "equal", any unknown method, or "proportional" with total income ≤ 0, each partner pays half of every pool, so remR − remS = r − s |
| Finance.ProportionalShares | pages/finance.jsx:44-48 | under "proportional" with positive total income, Ryan pays pool × r/(r+s) and Steff pool × s/(r+s) of every pool |
| Finance.EqualLeftoverBounds | pages/finance.jsx:56-68 | under equal-leftover with T > 0 every contribution lies between 0 and its pool; with T ≤ 0 Ryan pays nothing |
| Finance.LeftoverPoolsBalanced | pages/finance.jsx:50-76 | when the clamp is inactive, both partners keep L = (r + s − T)/2 |
| Finance.EqualLeftoverBalanced | pages/finance.jsx:50-76 | under equal-leftover with the clamp inactive, remR = remS = (r + s − T)/2 |
| SavingsProjection.MonthlyRate | components/SavingsProjection.jsx:39 | the monthly rate times 1200 is the annual percentage, and it is non-negative for a non-negative percentage |
| SavingsProjection.FirstHitNext | components/SavingsProjection.jsx:52 | one more month keeps an earlier first hit, or records this month when the balance first reaches the target |
| SavingsProjection.Project | components/SavingsProjection.jsx:41-57 | one point per month (none for months ≤ 0), labelled "M1".."Mn" with month i's balance; the end balance is the n-month recurrence; the target month is the least month reaching the target, or none |
| SavingsProjection.SimpleGrowth | components/SavingsProjection.jsx:47-51 | with compounding off or a rate ≤ 0, the balance after n months is start + n × contribution |
| SavingsProjection.CompoundingStep | components/SavingsProjection.jsx:39-48 | with compounding on and a positive rate, each month is bal × (1 + pct/1200) + contribution |
| SavingsProjection.NonDecreasing | components/SavingsProjection.jsx:47-51 | with non-negative start, contribution and rate, the balance is non-negative and never decreases month to month |
| SavingsProjection.MonthsInput | components/SavingsProjection.jsx:93 | the months input is at least 1, and keeps any value ≥ 1 |
| SavingsProjection.InterestInput | components/SavingsProjection.jsx:103 | the interest input is never negative, and keeps non-negative values |
| SavingsProjection.TargetInput | components/SavingsProjection.jsx:113 | the target input is never negative, and keeps non-negative values |
| Savings.DerivedMonthlySavings | pages/savings.jsx:31-37 | never negative; 0 when combined income ≤ 0 |
| Savings.DerivedMatchesBudget | pages/savings.jsx:31-37 | the derived contribution equals the allocator's savings target TS floored at 0, for any split method |
| Savings.SyncMonthlySavings | pages/savings.jsx:40-43 | a set, non-zero contribution is kept; an unset or zero one takes the derived value |
| Savings.SyncIdempotent | pages/savings.jsx:40-43 | synchronising twice with the same derived value is the same as once |
| Savings.Projection | pages/savings.jsx:46-56 | one entry per month 1..months, entry i carrying month index i |
| Savings.Project | pages/savings.jsx:46-56 | the loop's array is exactly the projection, whose entry i holds the balance after i+1 months of bal × (1 + rate/1200) + contribution |
| Savings.ZeroRateGrowth | pages/savings.jsx:48-53 | at rate 0 the balance after n months is start + n × contribution |
| Savings.AgreesWithWidget | pages/savings.jsx:48-52 | for a non-negative rate the page's balance equals the widget's compounding balance |
| Savings.LastBalance | pages/savings.jsx:77 | the last entry's balance, or 0 for an empty projection |
| Savings.InterestEarned | pages/savings.jsx:79 | never negative; it is either 0 or last − start − contributed, and at least the latter |
| Savings.ContributedPerEntry | pages/savings.jsx:78 | contributed = (monthly + extra) × the number of projection entries |
| Savings.ZeroRateNoInterest | pages/savings.jsx:48-53 | at rate 0 the last balance is start + months × (monthly + extra) and no interest is reported |
| Savings.Slice | pages/savings.jsx:61-62 | `slice` gives the characters in range and never more than the text |
| Savings.NumberOf | pages/savings.jsx:61-62 | blank text reads as 0; a non-blank result is the value of its trimmed digits |
| Savings.StartYearMonthAsWritten | pages/savings.jsx:61-63 | the year is characters 0-3, or the current year when they read as 0 or not a number |
| Savings.ClearedPickerStartsBeforeJanuary | pages/savings.jsx:61-63 | an empty start month gives (current year, −1) as written |
| Savings.NoMonthDigits | pages/savings.jsx:62 | a start month too short to hold month digits gives month index −1 as written |
| Savings.StartYearMonth | pages/savings.jsx:61-63 | the month index is always in 0..11, it agrees with the page whenever the page's index is in range, and the year is the page's |
| Savings.YearPart | pages/savings.jsx:22-27 | characters 0-3 of the default "YYYY-MM" read back as the year |
| Savings.MonthPart | pages/savings.jsx:22-27 | characters 5-6 of the default "YYYY-MM" read back as the month number |
| Savings.FormatParseRoundTrip | pages/savings.jsx:22-27 | the default "YYYY-MM" for a four-digit year parses back to (year, month index), both as written and corrected |
| Shopping.QtyOr1 | pages/shopping.jsx:59 | an unset quantity reads as 1: never 0, and any non-zero quantity is kept |
| Shopping.NormalizeTrim | pages/shopping.jsx:46 | normalising a trimmed text is the same as normalising the raw text |
| Shopping.FindMatch | pages/shopping.jsx:56 | the first index whose item has the same normalised text, unit and category; none when no item matches |
| Shopping.AddToItems | pages/shopping.jsx:51-67 | blank text changes nothing; when FindMatch finds a first item j with the same normalised text, unit and category, the length stays, item j alone changes, its qty becoming (qty or 1) + (opt qty or 1); with no match the list gains exactly one item at the end: the trimmed text, the new id, qty (opt qty or 1), unit opt unit or "x", category opt cat or "Other", neither bought nor pinned |
| Shopping.AddMergesIffMatch | pages/shopping.jsx:56-66 | a non-blank add keeps the length exactly when some item matches, and appends exactly when none does |
| Shopping.AddedIsFound | pages/shopping.jsx:56-66 | after a non-blank add with a unit and category given, the list holds an item that the same request would merge into |
| Shopping.AddTwiceAddsOnce | pages/shopping.jsx:51-67 | adding the same line twice grows the list by at most one item |
| Shopping.ToggleItems | pages/shopping.jsx:71 | same length; exactly the items with that id have `bought` flipped, and every other item is unchanged |
| Shopping.PinItems | pages/shopping.jsx:72 | same length; exactly the items with that id have `pinned` flipped, and every other item is unchanged |
| Shopping.ToggleTwice | pages/shopping.jsx:71 | toggling twice restores the list |
| Shopping.PinTwice | pages/shopping.jsx:72 | pinning twice restores the list |
| Shopping.SetFieldItems | pages/shopping.jsx:74 | same length; exactly the items with that id get the field written |
| Shopping.SetQtyOnlyQty | pages/shopping.jsx:74 | writing qty changes only the qty of the items with that id |
| Shopping.RemoveItems | pages/shopping.jsx:73 | keeps exactly the items with another id |
| Shopping.RemoveIsFilter | pages/shopping.jsx:73 | the remove updater equals `filter` of the items whose id differs |
| Shopping.RemoveAppend | pages/shopping.jsx:73 | removal works item by item over joined lists, so the kept items keep their order and multiplicity |
| Shopping.RemoveAbsent | pages/shopping.jsx:73 | removing an absent id changes nothing |
| Shopping.ClearCheckedItems | pages/shopping.jsx:75 | keeps exactly the unbought items |
| Shopping.ClearCheckedIsFilter | pages/shopping.jsx:75 | the clear-done updater equals `filter` of the unbought items |
| Shopping.ClearCheckedAppend | pages/shopping.jsx:75 | clearing works item by item over joined lists, so the kept items keep their order and multiplicity |
| Shopping.Filtered | pages/shopping.jsx:108-113 | the result holds exactly the list items that pass the hide-done, category and contains filters |
| Shopping.FilteredAllOff | pages/shopping.jsx:108-113 | with every filter off the view is the whole list, in order |
| Shopping.CountOf | pages/shopping.jsx:135-139 | totalItems is the list length, done is the number of bought items (the length of the bought items filtered out), and left = totalItems − done |
| Shopping.DoneCount | pages/shopping.jsx:137 | the count equals the length of the filtered bought items, so never more than the list |
| Shopping.ClearCheckedKeepsLeft | pages/shopping.jsx:75 | clearing keeps exactly `left` items, none of them bought |
| Shopping.ToggleKeepsTotal | pages/shopping.jsx:71 | toggling keeps the item count and the price total |
| Shopping.TotalAppend | pages/shopping.jsx:141-142 | the total of two joined lists is the sum of their totals |
| Shopping.InCategoryMembers | pages/shopping.jsx:117-121 | a group holds exactly the items whose category, or "Other", is its key |
| Shopping.FirstKeysMembers | pages/shopping.jsx:116-121 | a key is listed exactly when its group is non-empty, and no key is listed twice |
| Shopping.PresentMembers | pages/shopping.jsx:130 | the fixed categories emitted are exactly those that have a group |
| Shopping.UnknownMembers | pages/shopping.jsx:131 | the other groups emitted are exactly the keys outside the fixed order |
| Shopping.GroupOrderMembers | pages/shopping.jsx:129-131 | every key gets exactly one group position, and no other group is made |
| Shopping.BeforeAsymmetric | pages/shopping.jsx:123-127 | the in-group comparator never orders two items both ways |
| Shopping.SortedByRank | pages/shopping.jsx:123-127 | in a sorted group pinned items come first, then among equal pins unbought before bought |
| Shopping.CollectByCategory | pages/shopping.jsx:116-121 | the keys come in first-appearance order, and each key's group is exactly its items in list order |
| Shopping.SortGroup | pages/shopping.jsx:123-127 | a sorted group is a permutation of the group, ordered by the comparator |
| Shopping.SortGroups | pages/shopping.jsx:122-128 | every group is replaced by a sorted permutation of itself |
| Shopping.ArrangeKnown | pages/shopping.jsx:130 | emits the fixed categories that have a group, in the fixed order, with their groups |
| Shopping.ArrangeUnknown | pages/shopping.jsx:131 | emits the other groups in first-appearance order |
| Shopping.Arrange | pages/shopping.jsx:129-132 | emits the fixed categories first, then the rest |
| Shopping.Groups | pages/shopping.jsx:115-133 | groups in the fixed-then-first-appearance order; each group is a sorted permutation of exactly the filtered items of its key |
| Shopping.GroupsCoverFiltered | pages/shopping.jsx:115-133 | every filtered item is in its key's group, and every group is non-empty |
| Shopping.BulkLines | pages/shopping.jsx:79 | every line is non-blank, already trimmed, and free of line breaks |
| Shopping.BulkAddAsWritten | pages/shopping.jsx:78-82 | a paste with no lines leaves the list unchanged (as written, only the last line's update survives) |
| Shopping.BulkAddAsWrittenKeepsOne | pages/shopping.jsx:78-82 | as written, a paste onto an empty list leaves one item whenever its last line is non-blank |
| Shopping.BulkAddLosesLines | pages/shopping.jsx:78-82 | pasting "milk" and "eggs" onto an empty list leaves 1 item as written and 2 as intended |
| Shopping.BulkAddItems | pages/shopping.jsx:78-82 | adding the lines one after another grows the list by at most one item per line |
| Shopping.BulkAddTwoLines | pages/shopping.jsx:78-82 | two non-blank lines that normalise differently give two items |
| Shopping.BulkAddFindsEveryLine | pages/shopping.jsx:78-82 | after the intended bulk add every non-blank line has a matching item (unit "x", category "Other") |
| Shopping.StaysFound | pages/shopping.jsx:55-66 | a later add never removes a match: adding only merges or appends |
| Shopping.ShoppingLists.constructor | pages/shopping.jsx:19-24 | the three default lists, "weekly" selected and empty |
| Shopping.ShoppingLists.UpdateCurrent | pages/shopping.jsx:47-48 | only the current list (or the first list when the selected id is gone) gets the new items; the ids, the order and the selection are unchanged |
| Shopping.ShoppingLists.AddItem | pages/shopping.jsx:51-67 | blank text leaves every list unchanged; otherwise the current list's items become AddToItems of them |
| Shopping.ShoppingLists.Toggle | pages/shopping.jsx:71 | the current list's items become ToggleItems of them, and nothing else changes |
| Shopping.ShoppingLists.Pin | pages/shopping.jsx:72 | the current list's items become PinItems of them, and nothing else changes |
| Shopping.ShoppingLists.Remove | pages/shopping.jsx:73 | the current list keeps the items with another id, in order (RemoveItems, RemoveAppend), and nothing else changes |
| Shopping.ShoppingLists.SetField | pages/shopping.jsx:74 | the current list's items become SetFieldItems of them, and nothing else changes |
| Shopping.ShoppingLists.ClearChecked | pages/shopping.jsx:75 | the current list keeps its unbought items, in order (ClearCheckedItems, ClearCheckedAppend), has no bought ones, and nothing else changes |
| Shopping.ShoppingLists.BulkAdd | pages/shopping.jsx:78-82 | corrected behaviour (see Findings): the current list's items become the lines added one after another; as written only the last line survives (BulkAddAsWritten) |
| SmartFind.CollapseSpaces | pages/api/smart-find.js:28 | the non-white-space characters stay, in order; the spaces left number exactly the white-space runs of the input; no other white space and no two adjacent spaces remain |
| SmartFind.Norm | pages/api/smart-find.js:28 | the normalised text neither starts nor ends with white space |
| SmartFind.TokensAreTokens | pages/api/smart-find.js:29 | every token is non-empty and made only of a-z, 0-9 and '%' |
| SmartFind.OverlapBounds | pages/api/smart-find.js:32-39 | the overlap ratio lies in [0,1] |
| SmartFind.OverlapSymmetric | pages/api/smart-find.js:32-39 | the overlap does not depend on the argument order |
| SmartFind.OverlapSelf | pages/api/smart-find.js:36-38 | a non-empty token set overlaps itself with ratio 1 |
| SmartFind.ScoreProperties | pages/api/smart-find.js:32-39 | the score lies in [0,1], is symmetric, is 0 when either side has no tokens, and is 1 for a text with tokens against itself |
| SmartFind.CountShared | pages/api/smart-find.js:36-37 | the loop counts exactly the shared distinct tokens |
| SmartFind.Score | pages/api/smart-find.js:32-39 | the method computes the specified score |
| SmartFind.DedupProperties | pages/api/smart-find.js:67-72 | de-dup keeps a subsequence of the input in input order, no two with the same key, and every input key |
| SmartFind.DedupSubseq | pages/api/smart-find.js:68-72 | the kept candidates appear in the input at increasing positions |
| SmartFind.DedupKeepsFirst | pages/api/smart-find.js:70 | the first candidate of each key is kept |
| SmartFind.DedupLoop | pages/api/smart-find.js:67-72 | the map-filling loop yields exactly Dedup of its input |
| SmartFind.HitBeforeAsymmetric | pages/api/smart-find.js:107 | the result order never ranks two hits both ways |
| SmartFind.RankedOrder | pages/api/smart-find.js:107 | in sorted results the score never increases, and equal scores have non-decreasing prices |
| SmartFind.SortHits | pages/api/smart-find.js:107 | the sorted results are a permutation of the results, in result order |
| SmartFind.TopFive | pages/api/smart-find.js:107-109 | min(5, n) results, a sub-multiset of the input in result order, none of the dropped ones ranking ahead of a kept one |
| SmartFind.PoolsFor | pages/api/smart-find.js:81 | a known category's pages from the URL table, or the "Other" page for a category not in the table (inherited member names are answered by Handler before the lookup) |
| SmartFind.QueryCategory | pages/api/smart-find.js:78 | a missing or empty category reads as "Other"; any other is trimmed |
| SmartFind.PageHits | pages/api/smart-find.js:93-96 | the hits are exactly HitsOf the de-duplicated candidates: each candidate with a positive score, in candidate order, tagged with the URL and its ScoreOf |
| SmartFind.HitsOfExact | pages/api/smart-find.js:93-95 | every hit of a page is a page hit, and every candidate with a positive score yields a hit |
| SmartFind.SearchPools | pages/api/smart-find.js:84-100 | the walk over the pages yields AllHits: the hits of each fetched page, appended in page order |
| SmartFind.AllHitsScored | pages/api/smart-find.js:93-96 | every hit of the walk scores positively against the name and comes from a searched page |
| SmartFind.SearchCategory | pages/api/smart-find.js:102-109 | the answer is the ranked top five of all hits (none when there is no hit) |
| SmartFind.Handler | pages/api/smart-find.js:75-115 | a blank name is answered MissingName and nothing else is; a category naming an inherited object member (constructor, toString, __proto__, …) is answered SearchFailed, the 500 of the outer catch; otherwise the results are the ranked top five of AllHits: at most five, drawn from the hits, sorted, and no omitted hit ranks ahead of a returned one |
| Avatar.InitialOf | components/Avatar.jsx:4 | an empty word gives nothing, any other its upper-cased first character |
| Avatar.JoinInitials | components/Avatar.jsx:4-6 | at most one character per word, none of them a lower-case ASCII letter |
| Avatar.Initials | components/Avatar.jsx:2-6 | at most 2 characters, none of them a lower-case ASCII letter |
| Avatar.MissingName | components/Avatar.jsx:2 | a missing or empty name shows "?" |
| Avatar.FirstTwoWords | components/Avatar.jsx:3-5 | the initials are the first two space-separated words' initials exactly (counted in Unicode characters, see Left out); later words never contribute |
| Avatar.LeadingSpaceUsesASlot | components/Avatar.jsx:3-6 | a leading space makes an empty first word that takes a slot, so only the first real word contributes |
| Charts.RemoveFirstHash | components/Charts.jsx:32 | `replace("#","")` removes the first '#' only, and no '#' comes before it |
| Charts.Substring | components/Charts.jsx:32-33 | `substring` gives the characters from..to when they lie within the text, and nothing when it starts past the end; positions count Unicode characters, not UTF-16 code units (see Left out) |
| Charts.HexPair | components/Charts.jsx:32-33 | two hex digits parse in base 16 to 16·d0 + d1, which lies in 0..255 |
| Charts.HexRunDigits | components/Charts.jsx:32-33 | the digits `parseInt` reads are the maximal leading run of hex digits |
| Charts.RedChannel | components/Charts.jsx:32 | red is read from characters 0-1 after the '#' |
| Charts.GreenChannel | components/Charts.jsx:33 | green is read from characters 2-3 after the '#' |
| Charts.BlueChannel | components/Charts.jsx:33 | blue is read from characters 4-5 after the '#' |
| Charts.SixDigitsInRange | components/Charts.jsx:32-33 | six hex digits after the '#' decode to three channels in 0..255 |
| Charts.RGBAShape | components/Charts.jsx:34 | the text opens with "rgba(" and ends with the alpha, unchanged, then ")" |
| Charts.AreaGradient | components/Charts.jsx:28-38 | two stops, at offsets 0 and 1 |
| Charts.StopsShareColour | components/Charts.jsx:36-37 | the top stop is the colour part followed by alphaTop and ")", the bottom one the colour part followed by alphaBottom and ")" |
| Charts.ColourOfBytes | components/Charts.jsx:34 | channels that parse to numbers print in decimal as those numbers |
| Charts.DigitsToRGBA | components/Charts.jsx:31-35 | "#" plus six hex digits of r, g, b gives "rgba(r,g,b,alpha)" |
| Charts.RoundTrip | components/Charts.jsx:31-35 | a colour written as "#" and three two-digit channels comes back as exactly those channels in decimal |
| HouseholdStore.FirstMembership | pages/api/household/leave.js:9-12 | the user's row at the least index holding that user (no earlier row has the user), or none exactly when no row has that user |
| HouseholdStore.FirstMembershipIsFirstIndex | pages/api/household/leave.js:9-12 | the first membership is the row at `findIndex` of the user's rows, and none when there is no such index |
| HouseholdStore.Without | pages/api/household/leave.js:34-36 | the rows are exactly those of the input other than the (h, u) row |
| HouseholdStore.WithoutIsFilter | pages/api/household/leave.js:34-36 | deleting the (h, u) row equals `filter` of every other row |
| HouseholdStore.WithoutAppend | pages/api/household/leave.js:34-36 | deletion works row by row over joined rows, so the other rows keep their order and multiplicity |
| HouseholdStore.WithRole | pages/api/household/set-role.js:18-21 | same rows; only the (h, u) row gets the new role |
| HouseholdStore.Upsert | pages/api/household/accept.js:20-24 | afterwards the (h, u) row exists; an existing row is left untouched, otherwise one new row is appended |
| HouseholdStore.UpsertIdempotent | pages/api/household/accept.js:20-24 | upserting the same key twice equals once |
| HouseholdStore.WithoutOwnerCount | pages/api/household/leave.js:34-36 | deleting a unique row lowers the owner count by one exactly when that row is an owner's |
| HouseholdStore.OwnerCountIsFilter | pages/api/household/leave.js:15 | the owner count is the length of `filter` of the household's owner rows |
| HouseholdStore.OthersCountIsFilter | pages/api/household/leave.js:16 | the others count is the length of `filter` of the household's rows of other users |
| HouseholdStore.OwnerRowCounts | pages/api/household/leave.js:15 | an owner's row counts among the household's owners |
| HouseholdStore.WithoutUnique | pages/api/household/leave.js:34-36 | deleting a row keeps the (household, user) keys unique |
| HouseholdStore.MembersOutside | pages/api/household/leave.js:29 | exactly the membership rows of other households |
| HouseholdStore.AccountsOutside | pages/api/household/leave.js:26 | exactly the accounts of other households |
| HouseholdStore.InvitesOutside | pages/api/household/leave.js:28 | exactly the invites to other households |
| HouseholdStore.ListsOutside | pages/api/household/leave.js:25 | exactly the shopping lists of other households |
| HouseholdStore.SettingsOutside | pages/api/household/leave.js:27 | exactly the finance settings of other households |
| HouseholdStore.ItemsOutside | pages/api/household/leave.js:24 | exactly the items on lists of other households |
| HouseholdStore.FindInvite | pages/api/household/accept.js:13 | an invite with that token, or none when no invite has it |
| HouseholdStore.Store.DropContents | pages/api/household/leave.js:24-27 | items of h's lists, h's lists, accounts and finance settings are deleted, and nothing else changes |
| HouseholdStore.Store.WipeHousehold | pages/api/household/delete.js:19-25 | the seven deletes (the same as in leave.js): every table loses exactly the rows of h, the household goes, and the constraints still hold |
| HouseholdStore.Store.DeleteMember | pages/api/household/remove-member.js:18-20 | when the row exists it alone is deleted; otherwise the call fails and nothing changes |
| HouseholdStore.Store.UpdateRole | pages/api/household/set-role.js:18-21 | when the row exists its role is replaced; otherwise the call fails and nothing changes |
| HouseholdStore.Store.UpsertMember | pages/api/household/accept.js:20-24 | the membership rows become Upsert of them, and nothing else changes |
| HouseholdStore.Store.CreateAccounts | pages/api/household/default-accounts.js:19-23 | the new accounts are appended, and nothing else changes |
| HouseholdStore.Store.SetName | pages/api/household/rename.js:15 | only that household's name changes |
| HouseholdStore.Store.CreateHousehold | lib/household.js:11-18 | a fresh household id with the name and one owner row for the user |
| HouseholdLeave.Decide | pages/api/household/leave.js:13-23 | no household iff no row; must transfer iff the caller is the sole owner with others present; otherwise delete when no others remain, else leave only |
| HouseholdLeave.LeaveKeepsAnOwner | pages/api/household/leave.js:15-20 | a leave that keeps the household never removes its last owner |
| HouseholdLeave.Leave | pages/api/household/leave.js:5-39 | 405, 401, 400 (no household), 400 (transfer first) with the store unchanged; the last member wipes the household (its row, memberships, accounts, invites, lists, the items of its lists and finance settings, other households' rows staying in order, users kept) and reports it deleted; anyone else loses only their own row, every other table unchanged, with an owner kept |
| HouseholdSetRole.RoleChangeKeepsCaller | pages/api/household/set-role.js:13-21 | the calling owner's row survives a role change aimed at someone else, so an owner remains |
| HouseholdSetRole.SetRole | pages/api/household/set-role.js:5-23 | 405, 401, 400 (bad input), 400 (no household), 403 (not owner), 400 (self), 500 (no such row) with the store unchanged; on 200 only the target's role changes, every other table unchanged, and the household still has an owner |
| HouseholdRemoveMember.RemovalKeepsCaller | pages/api/household/remove-member.js:13-20 | the calling owner's row survives removing someone else, so an owner remains |
| HouseholdRemoveMember.RemoveMember | pages/api/household/remove-member.js:5-22 | 405, 401, 400, 400, 403, 400 (self), 500 (no such row) with the store unchanged; on 200 exactly the target's row goes, every other table unchanged, and an owner remains |
| HouseholdAccept.AcceptKeepsMembership | pages/api/household/accept.js:20-24 | an existing member, an owner included, keeps their row, and accepting twice changes nothing |
| HouseholdAccept.Accept | pages/api/household/accept.js:5-28 | 405, 401, 400 (no token), 404 (unknown token), 410 (expiry strictly before now) with the store unchanged; otherwise 200 with a "member" row upserted, every other table unchanged |
| HouseholdDefaultAccounts.ToCreate | pages/api/household/default-accounts.js:13-18 | exactly the standard accounts whose kind the household lacks, in the standard order |
| HouseholdDefaultAccounts.NewRows | pages/api/household/default-accounts.js:21 | one account row of the household per wanted account |
| HouseholdDefaultAccounts.Kinds | pages/api/household/default-accounts.js:24 | the kinds, in order |
| HouseholdDefaultAccounts.DefaultsComplete | pages/api/household/default-accounts.js:18-24 | after the creation every standard kind exists, so a second call creates nothing |
| HouseholdDefaultAccounts.OtherHouseholdsIgnored | pages/api/household/default-accounts.js:12 | accounts of other households do not affect what is created |
| HouseholdDefaultAccounts.DefaultAccounts | pages/api/household/default-accounts.js:5-25 | 405, 401, 400 with the store unchanged; on 200 exactly the missing kinds are appended and reported, existing accounts stay, every other table unchanged |
| HouseholdDelete.DeleteHousehold | pages/api/household/delete.js:5-28 | 405, 401, 400 (confirm not exactly "DELETE", checked before the membership lookup), 400 (no household), 403 (not owner) with the store unchanged; on 200 the household's row, memberships, accounts, invites, lists, the items of its lists and its finance settings are gone, other households' rows stay in order, users kept |
| HouseholdRename.Rename | pages/api/household/rename.js:5-17 | 405, 401, 400 (blank name), 400, 403 with the store unchanged; on 200 only the caller's household is renamed, to the non-empty trimmed name, every other table unchanged |
| HouseholdSummary.RowsOf | pages/api/household/summary.js:18-22 | exactly the rows of the household, in row order |
| HouseholdSummary.View | pages/api/household/summary.js:36-42 | the name falls back to the email when empty; isMe holds exactly for the caller's row |
| HouseholdSummary.Views | pages/api/household/summary.js:36-42 | one view per row, in order |
| HouseholdSummary.RoleOf | pages/api/household/summary.js:43 | the caller's role in the rows, "member" when absent or empty; never empty |
| HouseholdSummary.Summary | pages/api/household/summary.js:5-47 | 401 exactly without a session user; no household exactly without a membership; otherwise the first membership's household, the views of its member rows in joining order, the caller's role there, and each default flag set exactly when the household has an account of that kind |
| HouseholdSummary.RowsOfDistinctUsers | pages/api/household/summary.js:18-22 | with unique keys, a household's rows have distinct users |
| HouseholdSummary.CallerListedOnce | pages/api/household/summary.js:41-43 | exactly one listed member is the caller, and the role shown is the caller's own ("member" when empty) |
| HouseholdSummary.ViewsMarkOnce | pages/api/household/summary.js:41 | over rows with distinct users, one of them the caller's, exactly one view is marked as the caller |
| HouseholdSummary.DefaultsAfterCreation | pages/api/household/summary.js:28-30 | once the standard accounts are created the summary reports all three |
| HouseholdLib.FirstMembershipAppend | lib/household.js:11-18 | a user's first row is the newly appended one when they had none |
| HouseholdLib.EnsureUserHousehold | lib/household.js:4-20 | an existing first membership's household is returned with nothing changed; otherwise a fresh household named `name` ("Family" by default) with the user as its only owner row, every other table unchanged; either way the user's first household is the one returned |
| HouseholdLib.GetUserHouseholds | lib/household.js:22-28 | one entry per row of the user, in row order, each that row's household with its stored name |
| HouseholdLib.UserIsInHousehold | lib/household.js:30-33 | true exactly when a row for (household, user) exists |
| HouseholdLib.InHouseholdIffListed | lib/household.js:22-33 | a user is in a household exactly when it is among their households |
| Seqs.Filter | pages/shopping.jsx:73-75 | order-preserving filter: at most the input, only elements satisfying the predicate, and every such element |
| Seqs.FirstIndex | pages/shopping.jsx:56 | `findIndex`: the first position satisfying the predicate, or none when no position does |
| Seqs.FilterDistinct | pages/api/household/leave.js:29 | filtering keeps keys distinct |
| Seqs.InsertionSort | pages/shopping.jsx:122-128 | the array ends as a permutation of its old contents, adjacent elements in order |
| Text.TrimIdempotent | pages/shopping.jsx:46 | trimming twice is trimming once |
| Text.SplitJoin | components/Avatar.jsx:3 | joining the pieces of a split with the separator gives the text back |
| Text.NatToStringRoundTrip | components/Charts.jsx:34 | the decimal text of a number reads back as the number |

## Left out

- Network and HTML: the page fetches and the HTML scraping of `extractCandidates` in pages/api/smart-find.js (lines 41-65). The handler takes the candidates found on each page as a parameter map from URL to candidates. A page that fails to load stands for a page with no candidates.
- Number rendering: prices in the de-dup key, the alpha in `toRGBA` and `toFixed`/`Math.round`/`toLocaleString` display rounding are not modelled. The alpha is taken as the text it renders to.
- Floating point: every amount is an exact `real`. NaN coercion (`Number(x) || 0`) is assumed done before the model.
- Case mapping: only ASCII letters change case; `toLowerCase` and `toUpperCase` of other letters are not modelled. White space is the set that `trim` and `\s` share: the ASCII white space, no-break space, the Unicode space separators, the line and paragraph separators and the byte-order mark.
- Savings.NumberOf: reads only optionally trimmed decimal digits. Other texts `Number` accepts (signs, fractions, exponents, hex) read as not-a-number, which the month picker never produces.
- Avatar.InitialOf: a string is a sequence of Unicode characters, while JavaScript indexes strings by UTF-16 code units. For a word starting with a character outside the Basic Multilingual Plane (an emoji such as U+1F600), `s[0]` in components/Avatar.jsx:4 takes only its first code unit, half of a surrogate pair; the model takes the whole character.
- Avatar.FirstTwoWords: the "exactly" is in Unicode characters, so it matches the page only for names whose words start with characters of the Basic Multilingual Plane (see Avatar.InitialOf).
- Charts.Substring: positions count Unicode characters, while `substring` in components/Charts.jsx:32-33 counts UTF-16 code units. For a colour text holding a character outside the Basic Multilingual Plane, such as "#\u{1F600}abcd", the page reads the channels from other positions than the model; for colours written in ASCII, as every "#rrggbb" is, the two agree.
- Avatar.Initials: the at-most-two bound counts UTF-16 units of ASCII initials; `toUpperCase` of non-ASCII characters (which can lengthen a string) is not modelled.
- Shopping list management: `createList`, `renameList` and `deleteList` (pages/shopping.jsx:85-104) use `prompt`, `confirm`, `alert` and `Date.now()`. They are not modelled, so the list map only ever holds the three default lists with their items.
- Shopping item ids: `crypto.randomUUID` is a counter in the list state. Item prices are numbers already read with `Number(price) || 0`. `productUrl`, `lastChecked` and `priceStatus` are not modelled. The form-reset side effect of `addItem` without text (line 68) is UI state and is left out.
- Shopping.ShoppingLists.AddItem: the "Add Item" button (pages/shopping.jsx:230) passes its click event as `rawText`, and calling `trim` on it throws, so a click adds nothing. The model takes the text as the Enter key (line 204) and the quick-add buttons (line 244) do.
- Charts.AreaGradient: the alphas are text parameters; the defaults 0.28 and 0 used when a caller omits them (components/Charts.jsx:28) are left to the caller. The gradient's geometry, a vertical line from y = 0 to the canvas height or 300 when that is 0 (`createLinearGradient(0,0,0, ctx.canvas.clientHeight || 300)`, components/Charts.jsx:29), is not modelled: a gradient is only its list of stops.
- SmartFind.Handler: the answered hits keep their `score`; pages/api/smart-find.js:109 projects each to `{name, price, source}` before answering. The projection drops a field and changes nothing else, so the model answers with the ranked hits themselves.
- SmartFind.TopFive: `Array.prototype.sort` is stable, so hits tied on score and price keep their walk order. The model's sort promises only result order and a permutation, so among such ties the order, and which of them the cut at five keeps, is not pinned.
- Shopping.SortGroup: likewise, items the comparator ties keep their list order in the page; the model does not promise that order.
- Shopping.Before: `localeCompare` is a parameter `textCmp`. The only thing required of it is that it never orders two texts both ways.
- Savings.ContributedPerEntry: `months` is a whole number in the model. The page reads it as a number, so a fractional value runs ⌊months⌋ loop steps while pages/savings.jsx:78 multiplies the contribution by the fraction itself; that difference is not modelled.
- Savings: the `Date`-based month labels (pages/savings.jsx:66-75) and the current year are parameters or left out. Only the year and month index they start from are modelled.
- Storage: `localStorage` persistence of every page's state is not modelled.
- Authentication and sessions: the session user is a parameter `me: Option<Id>`. The accept route (HouseholdAccept.Accept) and HouseholdLib.EnsureUserHousehold assume that the user they act for is a registered user (Accept requires `me.value in store.users` for a present session user, EnsureUserHousehold requires `userId in store.users`).
- Database: Prisma calls become operations on `HouseholdStore.Store`.
  - `findFirst` returns the earliest row in creation order.
  - A `delete` or `update` of a missing row, which throws and makes the route answer 500, is modelled as status 500 with the store unchanged.
  - Ids are natural numbers from a counter, and a falsy `userId` in a request body is modelled as a missing one.
- pages/api/household/create.js and pages/api/household/invite.js are not part of this model. They depend on token generation, e-mail sending and environment variables.
- The invite's expiry is compared with `now`, a parameter in the same unit.

## Findings

| source | as written | input that shows it | evidently intended | confidence | as-written member | corrected member |
|---|---|---|---|---|---|---|
| pages/shopping.jsx:78-82 | each pasted line runs `addItem`, whose updater reads the list from the last render, so every line's update replaces the previous one and only the last line is added | pasting "milk\neggs" onto an empty list leaves only "eggs" | every non-blank line is added (merged or appended) one after another | not executed | Shopping.BulkAddLosesLines | Shopping.BulkAddFindsEveryLine |
| pages/savings.jsx:61-63 | `Number("") - 1` is −1, which is not NaN, so a cleared start month passes month index −1 to `new Date`, i.e. December of the previous year | startMonth = "" | a missing or unreadable month falls back to January (index 0) | not executed | Savings.ClearedPickerStartsBeforeJanuary | Savings.StartYearMonth |
