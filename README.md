# Medical stock expiry index — a Dafny model

This project models the in-memory core of a small medicine stock tracker.
The core has three parts:

- The `medicines` store maps a medicine name to its list of batches. Each batch has a batch id, an expiry string and a quantity.
- Two derived indexes hold one `(date, medicine, batch id)` key per batch whose expiry parses. One is a min-heap and the other is a list sorted by date.
- The operations that keep them consistent are `rebuild_indexes`, `add_or_update_batch` and `delete_batch`. Beside them sit the range query `get_expiring_within`, the fail-soft `days_until`, and the danger/warning/ok level that the views give to the days left.

Modelling choices:

- Dates are day ordinals, numbered as Python's `date.toordinal()` numbers them, so `date + timedelta(days=n)` is `d + n`.
- `parse_date` is a parameter `parse: string -> Option<int>`. `Dates.ParsesCalendarDates` requires that every date it returns lies between 0001-01-01 and 9999-12-31.
- "Today" is a parameter of each query.
- A Python dict keeps its keys in insertion order, and `rebuild_indexes` iterates in that order. So the store (`BatchStore.Store`) holds the key order together with the map.
- The module-level globals are one object, `StockApp.Inventory`. Its `Valid()` predicate says that both indexes equal the rebuild of the current store.
- Each method of `Inventory` is tied to a pure function on the store: `BatchStore.AddOrUpdate`, `BatchStore.Remove` or `RangeQuery.ExpiringWithin`. The properties are proved about those functions.
- `str.strip()` is modelled in `Text`, with the exact set of characters for which Python's `str.isspace()` holds.

Three behaviours of the code that the model keeps:

- The sorted index is sorted by date only, with a stable sort. Keys with equal dates keep store order; they are not ordered by medicine and batch id. `Scenarios.EqualDatesKeepStoreOrder` exhibits this.
- `add_or_update_batch` tests for the empty string before it strips. A name made only of whitespace is therefore stored under the key `""` (`BatchStore.BlankNameStoredUnderEmptyKey`).
- `delete_batch` does not strip its arguments (`Scenarios.DeleteDoesNotStrip`). It removes every batch with the given id, not just the first.

## Model

| member | source | states |
|---|---|---|
| `Dates.DaysUntil` | medical_stock_app/app.py:109-114 | if the expiry parses, today plus the result is the expiry date; if not, the result is 0 |
| `Dates.DaysUntilNegativeIffExpired` | medical_stock_app/app.py:109-114 | the result is negative exactly when the expiry parses to a date before today; an unparsable date never reads as expired |
| `Dates.LevelOf` | medical_stock_app/app.py:177-181 | "danger" iff days left <= 7, "warning" iff 7 < days left <= 30, "ok" iff days left > 30 |
| `Dates.LevelMonotone` | medical_stock_app/app.py:212-216 | fewer days left never gives a less urgent level |
| `Text.Strip` | medical_stock_app/app.py:58-59 | the result is the slice of the input left once the whitespace at both ends is removed, and it neither starts nor ends with whitespace |
| `Text.StripIdempotent` | medical_stock_app/app.py:58-59 | stripping twice equals stripping once |
| `Text.StripEmptyIffBlank` | medical_stock_app/app.py:56-59 | a string strips to "" exactly when all its characters are whitespace |
| `BatchStore.FindBatch` | medical_stock_app/app.py:63-67 | the scan finds the first batch with the id, and finds nothing exactly when no batch has it |
| `BatchStore.Upsert` | medical_stock_app/app.py:60-76 | an existing batch id is overwritten in place at its first position and the count is unchanged; otherwise one batch is appended and the medicine is created if needed; every other medicine, every other batch and the key order are unchanged, except that a new medicine goes at the end |
| `BatchStore.AddOrUpdate` | medical_stock_app/app.py:54-76 | an empty medicine name or batch id leaves the store unchanged; otherwise the stripped name and id are upserted |
| `BatchStore.UpsertWellFormed` | medical_stock_app/app.py:60-76 | upsert keeps ids unique within a medicine, keeps no medicine empty, and lists each key once in the key order |
| `BatchStore.AddOrUpdateWellFormed` | medical_stock_app/app.py:54-77 | add_or_update_batch keeps the store well formed |
| `BatchStore.UpsertIdempotent` | medical_stock_app/app.py:60-76 | upserting the same batch twice equals upserting it once |
| `BatchStore.AddOrUpdateIdempotent` | medical_stock_app/app.py:54-77 | add_or_update_batch twice with the same arguments equals once; the indexes are a function of the store, so they agree too |
| `BatchStore.BlankNameStoredUnderEmptyKey` | medical_stock_app/app.py:56-61 | a non-empty name made only of whitespace passes the check and is stored under "" |
| `BatchStore.WithoutBatch` | medical_stock_app/app.py:84 | the filtered list is no longer than the original, holds no batch with the id, and is the original when nothing was dropped |
| `BatchStore.WithoutBatchMembers` | medical_stock_app/app.py:84 | a batch is kept exactly when it was in the list and its id differs |
| `BatchStore.WithoutBatchAppend` | medical_stock_app/app.py:84 | the filter works piecewise, so the kept batches stay in their original order |
| `BatchStore.WithoutBatchShorterIffMatch` | medical_stock_app/app.py:84-85 | the list gets shorter exactly when some batch carries the id |
| `BatchStore.WithoutName` | medical_stock_app/app.py:88-89 | deleting a key leaves exactly the other keys, and nothing changes when the key is absent |
| `BatchStore.WithoutNameKeepsOrder` | medical_stock_app/app.py:88-89 | deleting a key keeps the other keys in insertion order |
| `BatchStore.Remove` | medical_stock_app/app.py:80-92 | an unknown medicine gives false and an unchanged store; the result is true exactly when the medicine has a batch with the id; the medicine keeps exactly its other batches and is removed when none remain |
| `BatchStore.RemoveOthersUnchanged` | medical_stock_app/app.py:80-89 | delete_batch leaves every other medicine, and the order of the remaining keys, as they were |
| `BatchStore.RemoveWellFormed` | medical_stock_app/app.py:80-89 | delete_batch keeps the store well formed; in particular, no medicine is left with an empty list |
| `BatchStore.RemoveNothingChangesNothing` | medical_stock_app/app.py:82-92 | when nothing was deleted, the store is exactly as it was |
| `ExpiryIndex.KeyOf` | medical_stock_app/app.py:42-47 | a batch contributes one key when its expiry parses and none when parsing fails |
| `ExpiryIndex.BatchKeys` | medical_stock_app/app.py:41-49 | the inner loop yields at most one key per batch; its exact contents are stated by `ExpiryIndex.BatchKeysCount` |
| `ExpiryIndex.BatchKeysNamed` | medical_stock_app/app.py:47 | every key the inner loop yields carries the name of the medicine being scanned |
| `ExpiryIndex.NamesKeys` | medical_stock_app/app.py:40-49 | every key of the nested loop names a listed medicine that is in the store; its exact contents are stated by `ExpiryIndex.NamesKeysCount` |
| `ExpiryIndex.Collect` | medical_stock_app/app.py:35-49 | every collected key names a medicine of the store; `ExpiryIndex.CollectCounts` states that it holds exactly one key per batch whose expiry parses |
| `ExpiryIndex.BatchKeysCount` | medical_stock_app/app.py:41-49 | the inner loop yields exactly one key per batch of the medicine whose expiry parses, and no other key |
| `ExpiryIndex.NamesKeysCount` | medical_stock_app/app.py:40-49 | the nested loop yields exactly one key per batch of the listed medicines whose expiry parses |
| `ExpiryIndex.CollectCounts` | medical_stock_app/app.py:35-49 | the collected list holds one key per batch of the store whose expiry parses; unparsable batches are absent |
| `ExpiryIndex.Insert` | medical_stock_app/app.py:51 | inserting a key adds exactly that key to the multiset |
| `ExpiryIndex.InsertSorted` | medical_stock_app/app.py:51 | inserting into a date-sorted list keeps it sorted |
| `ExpiryIndex.SortByDate` | medical_stock_app/app.py:51 | the sorted list is non-decreasing by date and is a permutation of its input |
| `ExpiryIndex.SortByDateStable` | medical_stock_app/app.py:51 | the sort is stable: the keys of any one date keep their input order |
| `ExpiryIndex.SortSortedUnchanged` | medical_stock_app/app.py:51 | a list already sorted by date comes out of the sort unchanged, keys of equal date included |
| `ExpiryIndex.SortFalling` | medical_stock_app/app.py:51 | a list in strictly falling date order comes out of the sort reversed |
| `ExpiryIndex.SortFallingThree` | medical_stock_app/app.py:51 | three keys in strictly falling date order come out as the reverse list |
| `ExpiryIndex.Heapify` | medical_stock_app/app.py:50 | the heap holds the same multiset of keys, no child is dated before its parent, and the first key has the earliest date; the order is on dates only, not on heapq's whole tuples |
| `RangeQuery.DatesOf` | medical_stock_app/app.py:103 | the date projection has the same length and, at each position, the date of the key there |
| `RangeQuery.BisectLeft` | medical_stock_app/app.py:104 | the insertion point lies within the searched range [lo, hi] |
| `RangeQuery.BisectLeftSplits` | medical_stock_app/app.py:104 | on an ascending list, the values before the insertion point are below x and those from it on are at least x |
| `RangeQuery.BisectRight` | medical_stock_app/app.py:105 | the insertion point lies within the searched range [lo, hi] |
| `RangeQuery.BisectRightSplits` | medical_stock_app/app.py:105 | on an ascending list, the values before the insertion point are at most x and those from it on are above x |
| `RangeQuery.BisectBoundsOrdered` | medical_stock_app/app.py:104-105 | the left bound does not exceed the right bound when today <= cutoff, and is not below it when cutoff < today; this holds on any list, sorted or not |
| `RangeQuery.ExpiringWithinAsWritten` | medical_stock_app/app.py:95-106 | days < 0 gives []; the call fails exactly when days >= 0 and the cutoff is past 9999-12-31 |
| `RangeQuery.AsWrittenIsWindow` | medical_stock_app/app.py:95-106 | where the code as written succeeds on a sorted index, it returns exactly the keys dated in [today, today + days], in index order |
| `RangeQuery.Slice` | medical_stock_app/app.py:106 | Python's a[left:right]: right - left keys copied from position left on, and none when left > right |
| `RangeQuery.Located` | medical_stock_app/app.py:103-106 | the bisect slice takes at most every key, and only keys of the list; `RangeQuery.LocatedIsWindow` states that it is exactly the keys dated in [today, cutoff] |
| `RangeQuery.LocatedIsWindow` | medical_stock_app/app.py:103-106 | on ascending dates, the slice between the bisect bounds equals a linear scan for dates in [today, cutoff] |
| `RangeQuery.Capped` | medical_stock_app/app.py:100 | the capped cutoff is the cutoff or the last representable date, and never exceeds either |
| `RangeQuery.ExpiringWithin` | medical_stock_app/app.py:95-106 | [] when days < 0, and otherwise only keys of the index; `RangeQuery.ExpiringWithinIsWindow` states that it is exactly the window |
| `RangeQuery.InWindowSlice` | medical_stock_app/app.py:103-106 | bounds that split a list into the keys before, inside and after [first, last] cut out exactly the scan for that range |
| `RangeQuery.WindowCount` | medical_stock_app/app.py:95-106 | a key occurs in the window [today, today + days] as often as in the list when its date is in range, and otherwise never |
| `RangeQuery.WindowSorted` | medical_stock_app/app.py:95-106 | the window of a date-sorted list is sorted by date |
| `RangeQuery.ExpiringWithinIsWindow` | medical_stock_app/app.py:95-106 | the corrected query returns [] when days < 0, and otherwise the linear scan for [today, today + days] |
| `RangeQuery.AsWrittenAgrees` | medical_stock_app/app.py:95-106 | wherever the code as written succeeds, the corrected query gives the same answer |
| `RangeQuery.OverflowOnFarCutoff` | medical_stock_app/app.py:99-100 | with days = 3652059 the code as written fails while the corrected query still answers the scan |
| `RangeQuery.InWindowCount` | medical_stock_app/app.py:101-106 | a key occurs in the window as often as in the list if its date is in range, and otherwise never |
| `RangeQuery.InWindowSorted` | medical_stock_app/app.py:101-106 | the window of a date-sorted list is sorted by date |
| `RangeQuery.WeekAheadIsDanger` | medical_stock_app/app.py:236-241 | every key returned for days <= 7 has 0 to 7 days left and so is shown as "danger" |
| `StockApp.InitialStore` | medical_stock_app/app.py:14-22 | the seeded store is well formed, with Paracetamol before Amoxicillin |
| `StockApp.ScanForBatch` | medical_stock_app/app.py:62-67 | the for/break scan finds the first batch with the id, and finds nothing when none matches |
| `StockApp.Inventory.constructor` | medical_stock_app/app.py:117-118 | after the seeded store and the startup rebuild, the object invariant holds |
| `StockApp.Inventory.RebuildIndexes` | medical_stock_app/app.py:35-51 | the store is unchanged and both indexes are recomputed from it |
| `StockApp.Inventory.AppendBatchKeys` | medical_stock_app/app.py:41-49 | the inner loop appends to both lists the keys of the batches whose expiry parses, in order |
| `StockApp.Inventory.AddOrUpdateBatch` | medical_stock_app/app.py:54-77 | the new store is AddOrUpdate of the old one, and both indexes are again the rebuild of the store |
| `StockApp.Inventory.DeleteBatch` | medical_stock_app/app.py:80-92 | the result and new store are Remove of the old store; the indexes match the store afterwards; without a deletion, nothing changes and nothing is rebuilt |
| `StockApp.Inventory.GetExpiringWithin` | medical_stock_app/app.py:95-106 | [] when days < 0; otherwise exactly the keys of the sorted index dated in [today, today + days], in index order, so keys of one date keep store order; that is each batch of the store whose parsed expiry is in the range, exactly once, and nothing else |
| `StockApp.RebuiltIndexesExact` | medical_stock_app/app.py:35-51 | after a rebuild, the sorted list ascends by date; it and the heap each hold exactly the keys of the batches whose expiry parses |
| `StockApp.IndexedDatesInCalendar` | medical_stock_app/app.py:31-32 | every indexed date is a date Python's date type can hold |
| `StockApp.ExpiringWithinCounts` | medical_stock_app/app.py:95-106 | the query on the rebuilt index is the window of that index in index order, is sorted by date, and holds each matching batch of the store exactly once |
| `StockApp.QueryCount` | medical_stock_app/app.py:95-106 | on a date-sorted index of calendar dates, a key occurs in the query result as often as in the index when its date is in [today, today + days], and otherwise never |
| `StockApp.AddedBatchIndexed` | medical_stock_app/app.py:54-77 | after add_or_update_batch with a parsable expiry, the stripped key with that date is indexed |
| `StockApp.UnparsableNotIndexed` | medical_stock_app/app.py:42-46 | a batch whose expiry does not parse has no key in the index |
| `StockApp.DeletedMedicineLeavesIndex` | medical_stock_app/app.py:88-91 | once the last batch of a medicine is deleted, no key names that medicine |
| `Scenarios.StartupKeys` | medical_stock_app/app.py:14-22 | the seeded store yields B001, B002 and B010 in store order |
| `Scenarios.StartupIndex` | medical_stock_app/app.py:118 | the startup sorted index is B010, B002, B001 |
| `Scenarios.TwentyDaysAfterStartup` | medical_stock_app/app.py:95-106 | at startup, with today 2025-10-01, the 20-day query returns only Amoxicillin B010 |
| `Scenarios.TwentyDaysWindow` | medical_stock_app/app.py:95-106 | on the startup index, the corrected 20-day query from 2025-10-01 returns Amoxicillin B010 alone |
| `Scenarios.IbuprofenIndexed` | medical_stock_app/app.py:54-77 | after adding Ibuprofen B020 with expiry 2025-10-05 to the seeded store, its key is indexed |
| `Scenarios.IbuprofenDueInTenDays` | medical_stock_app/app.py:54-77 | after adding Ibuprofen B020 (2025-10-05), the 10-day query from 2025-10-01 includes it |
| `Scenarios.DeleteAmoxicillinTwice` | medical_stock_app/app.py:80-92 | the first delete returns true and removes the medicine; a second delete returns false and changes nothing |
| `Scenarios.AmoxicillinLeavesIndex` | medical_stock_app/app.py:88-91 | after that delete, no key of the rebuilt index names Amoxicillin |
| `Scenarios.UpdateParacetamol` | medical_stock_app/app.py:68-70 | updating B001 rewrites its expiry and quantity in place; Paracetamol still has two batches |
| `Scenarios.ZincThenAspirinKeys` | medical_stock_app/app.py:40-49 | a store listing Zinc before Aspirin, both expiring 2025-12-01, yields Zinc's key first |
| `Scenarios.EqualDatesKeepStoreOrder` | medical_stock_app/app.py:51 | keys with equal dates keep store order (Zinc before Aspirin); they are not ordered by medicine name |
| `Scenarios.DeleteDoesNotStrip` | medical_stock_app/app.py:80-84 | a padded medicine name or batch id matches nothing, so nothing is deleted |

## Findings

| source | as written | input that shows it | evidently intended | confidence | as-written member | corrected member |
|---|---|---|---|---|---|---|
| medical_stock_app/app.py:100 | `today + timedelta(days=days)` raises OverflowError when the cutoff is past 9999-12-31. The `/viewer` route passes any non-negative `days` from the query string, so the request fails | `days = 3652059` with any today | return every batch expiring from today on; no date lies past 9999-12-31 | not executed | `RangeQuery.ExpiringWithinAsWritten`, `RangeQuery.OverflowOnFarCutoff` | `RangeQuery.ExpiringWithin`, `RangeQuery.ExpiringWithinIsWindow` |

`StockApp.Inventory.GetExpiringWithin` uses the corrected query, which caps the cutoff at the last representable date.

## Left out

- Flask routing, templates, flash messages, redirects, form and query-string handling, and the secret key: web I/O and presentation.
- The row building and display sorting of the `uploader` and `viewer` routes: presentation code. Those rows call `parse_date` without a guard. Only the days-left level rule is modelled (`Dates.LevelOf`).
- `strptime` parsing and its format leniency. `parse_date` is an abstract partial function onto day ordinals.
- `datetime.today()`: "today" is a parameter.
- `StockApp.Inventory.GetExpiringWithin`: returns the window with the cutoff capped at 9999-12-31, where app.py:100 raises OverflowError instead. `RangeQuery.AsWrittenAgrees` shows the two give the same answer on every input where the code as written does not fail.
- `ExpiryIndex.Heapify`: the heap is stated up to its multiset of keys and a min-heap order on dates only. The model uses the date-sorted arrangement, which keeps keys of one date in store order. `heapq.heapify` orders whole (date, medicine, batch id) tuples, so among keys of one date the model's arrangement, first key included, can differ from heapq's and need not satisfy heapq's tuple order. No query reads the heap.
- `StockApp.Inventory.RebuildIndexes`: the in-place `list.sort` and `heapq.heapify` are modelled as functions on values (`ExpiryIndex.SortByDate`, a stable insertion sort, and `ExpiryIndex.Heapify`). They are not loops over a mutable array.
- Aliasing of batch dicts: batches are values, so an in-place field update is a new batch at the same position.
- Concurrency and thread safety of the module globals. The code has no locking.
- Python's integer `qty` is an unbounded `int`, as in Python. The source does not check the quantity's sign in the core.
