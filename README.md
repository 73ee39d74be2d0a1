# Scrap business ledger: the running-balance engine in Dafny

This project models the core of a Django application that keeps the books of
scrap-metal stores. Each store buys scrap in batches called stocks. A stock
holds at most one entry per date. Each entry records the weight of each scrap
category, the cash handed over (the entered amount given), and the cash left
at the end of the day (the balance). The application derives two amounts when
it saves an entry:

- the amount given: the entered amount plus the balance of the latest entry
  before it in the same stock;
- the amount used: the amount given less the balance, never below zero. When
  it would go below zero, the balance is lowered to the amount given.

Deleting or editing an entry walks the later entries in date order and
recomputes them from a running balance. The model also covers:

- how a stock gets its number (`STK-<store id>-<nnnn>`);
- how stocks are cleared and created;
- the revenue, expense and profit totals;
- the conditions for the two alerts the dashboard raises.

Modules, one per file:

- `Results` (results.dfy): `Option` and `Result`.
- `DateOrder` (date_order.dfy): the two date queries the ledger runs.
  - `Predecessor` is the latest date before a given date.
  - `DatesAfter` is the later dates in ascending order.
- `Sums` (sums.dfy): the sum of a dictionary's values. `TotalRemove` proves
  that the order in which the sum is taken does not matter.
- `StockNumbers` (stock_numbers.dfy): `Stock.save`'s numbering, together with
  the Python behaviour it relies on: `str.split('-')[-1]`, `int()` on a string
  and the `04d` format.
- `Models` (models.dfy):
  - the `StockEntry` save hook, as the class `StockLedger`. It holds one
    stock's entries as a map from date to entry. `Save` and `Delete` update it
    in place.
  - revenue.
  - a store's stocks, as the class `StoreStocks`.
- `Views` (views.dfy): the logic inside the request handlers.
  - `add_entry`'s guards.
  - the two cascades of `edit_entry`, as imperative methods over a
    `StockLedger`. Each is proved equal to a specification function.
  - `clear_stock`, and the active-stock lookup of `dashboard` and
    `store_detail`.
  - the totals and the alert conditions.
- `Reconciliation` (reconciliation.dfy): the chain invariant.
  - `Linked`: an entry's amounts are what the save hook derives from the entry
    before it.
  - `Chained`: every entry is linked.
  - Lemmas on which operations keep the chain, and what happens to the
    balances users asked for.
- `Reporting` (reporting.dfy): properties of the stock lifecycle and of the
  totals.

Amounts, weights and prices are exact `real`s. Dates are whole days (`int`).
The edit branch is modelled as the code behaves. The edited entry is never
stored, because the edit form's `save` does not write it
(scrap_business/core/forms.py:42-47). The cascade then pivots on the
submitted date and starts from the submitted balance as it was typed, before
any clamp. The corrected edit is a separate member (see Findings).

## Model

| member | source | states |
|---|---|---|
| DateOrder.Predecessor | scrap_business/core/models.py:101-104 | the previous entry of a date is the greatest stored date strictly before it; there is none exactly when no stored date is earlier |
| DateOrder.DatesAfter | scrap_business/core/views.py:318 | the later entries are walked in strictly ascending date order, and are exactly the stored dates after the pivot |
| DateOrder.DatesAfterUnfold | scrap_business/core/views.py:321-329 | walking the later dates one by one: the first is the earliest later date, nothing lies between it and the pivot, and the rest are the dates after it |
| Sums.TotalRemove | scrap_business/core/models.py:88-90 | the summing loops over a dict give the same total whatever key is taken first |
| Sums.TotalSubtract | scrap_business/core/views.py:49-50 | a sum of differences is the difference of the sums |
| StockNumbers.LastSegment | scrap_business/core/models.py:60-61 | `split('-')[-1]` contains no hyphen |
| StockNumbers.LastSegmentFollowsHyphen | scrap_business/core/models.py:60-61 | `split('-')[-1]` is a suffix of the string and, unless it is the whole string, comes right after a hyphen |
| StockNumbers.Padded4 | scrap_business/core/models.py:62 | the `04d` format writes at least four characters: only digits for a count of zero or more, a minus sign then digits for a negative one |
| StockNumbers.ParseInt | scrap_business/core/models.py:61 | `int()` fails (the `ValueError` branch) on an empty or all-whitespace string, and on one that starts with anything other than whitespace, a sign or a digit |
| StockNumbers.StockNumber | scrap_business/core/models.py:62 | the part of `STK-<store>-<count:04d>` after the last hyphen is the padded count, for a count of zero or more |
| StockNumbers.NextStockNumber | scrap_business/core/models.py:55-68 | no previous stock, or an unparseable last segment, gives number 0001; otherwise the parsed number plus one |
| StockNumbers.NumberOnSave | scrap_business/core/models.py:54-55 | a stock number already set is kept; an empty one is generated |
| StockNumbers.PaddedRoundTrip | scrap_business/core/models.py:61-62 | `int()` reads back exactly the count that the `04d` format wrote |
| StockNumbers.NextAfter | scrap_business/core/models.py:56-62 | after stock n of a store, the next stock created is stock n + 1 |
| StockNumbers.IssuedAt | scrap_business/core/models.py:54-69 | the i-th stock (counting from 0) that a new store creates is numbered i + 1 |
| StockNumbers.IssuedInOrder | scrap_business/core/models.py:54-69 | a new store's stocks are numbered 0001, 0002, ... in creation order |
| StockNumbers.StockNumberInjective | scrap_business/core/models.py:62 | different counts give different stock numbers |
| StockNumbers.StockNumbersDiffer | scrap_business/core/models.py:62 | two different counts never give the same stock number |
| StockNumbers.IssuedPairDiffers | scrap_business/core/models.py:54-69 | any two stocks a new store creates get different numbers |
| StockNumbers.IssuedDistinct | scrap_business/core/models.py:50 | the numbers a new store is issued never collide, as the unique constraint needs |
| Models.Amount | scrap_business/core/models.py:95-98 | a missing entered amount or balance counts as zero |
| Models.Derive | scrap_business/core/models.py:106-119 | amount given = entered + carried balance; amount used = given − balance and never negative; a balance above the amount given is lowered to it and then nothing is used |
| Models.PredBalance | scrap_business/core/models.py:107-111 | the carried balance is the previous entry's balance, or 0 when there is no previous entry |
| Models.Saved | scrap_business/core/models.py:93-121 | the saved entry keeps the submitted weights and entered amount; with no previous entry the amount given is the entered amount, otherwise the entered amount plus the previous balance; the amount used is never negative; the clamp fires exactly when the balance exceeds the amount given |
| Models.StockLedger.constructor | scrap_business/core/models.py:74-84 | a new stock has no entries |
| Models.StockLedger.Save | scrap_business/core/models.py:93-121 | the stored entry is the one `Saved` derives from the entries stored before the call; no other date changes |
| Models.StockLedger.Delete | scrap_business/core/views.py:317 | the entry for that date is removed and nothing else changes |
| Models.Revenue | scrap_business/core/models.py:86-91 | an entry with no weights earns nothing; with non-negative weights and prices the revenue is non-negative |
| Models.PricedNonNegative | scrap_business/core/models.py:88-90 | with non-negative weights and prices, the sum of weight × price is non-negative |
| Models.CalculateRevenue | scrap_business/core/models.py:86-91 | the accumulating loop returns the sum of weight × price over the categories weighed |
| Models.RevenueInsert | scrap_business/core/models.py:88-90 | weighing one more category adds exactly its weight × price |
| Models.LastNumber | scrap_business/core/models.py:56 | the number of the store's most recent stock by id, or none for a store without stocks |
| Models.StoreStocks.constructor | scrap_business/core/models.py:48-52 | a new store has no stocks |
| Models.StoreStocks.Create | scrap_business/core/views.py:40 | the new stock is active, dated now, numbered by `Stock.save` after the store's latest stock, and appended |
| Models.StoreStocks.Resave | scrap_business/core/views.py:260-261 | the stock is stored with its updated fields, keeping its number when it has one |
| Views.Truthy | scrap_business/core/views.py:290 | an amount passes the `all([...])` check exactly when it is present and non-zero |
| Views.SubmittedWeights | scrap_business/core/views.py:296 | the stored weights have exactly the fourteen scrap categories as keys, each holding the submitted weight or 0 |
| Views.AddEntry | scrap_business/core/views.py:287-300 | a date already used is refused first and nothing changes; then a missing or zero amount given or balance is refused and nothing changes; otherwise the entry the save hook derives is stored and no other entry changes |
| Views.CascadeStep | scrap_business/core/views.py:322-328 | one cascade step keeps the entry's entered amount and weights; the amount given is the entered amount plus the stored predecessor's balance; the balance is the least of the stored balance, entered + running balance, and the new amount given; the amount used is the amount given less that balance and never negative |
| Views.CascadeOver | scrap_business/core/views.py:321-329 | the cascade changes only the entries it walks, and of those only the derived amounts and the balance, which never rises |
| Views.Cascade | scrap_business/core/views.py:321-329 | the loop leaves the store exactly as the cascade specification over the same dates and starting balance |
| Views.Deleted | scrap_business/core/views.py:313-329 | after a delete, the stock holds every date except the deleted one |
| Views.DeleteEntry | scrap_business/core/views.py:313-329 | the delete branch removes the entry, then cascades over the later dates from the previous entry's balance (0 if none) |
| Views.EditedAsWritten | scrap_business/core/views.py:330-345 | as written, the edit changes no entry dated on or before the submitted date, and keeps the set of dates |
| Views.EditEntry | scrap_business/core/views.py:330-345 | the edit branch cascades over the stored entries after the submitted date, starting from the submitted balance, and does not store the edited entry |
| Views.Reconciled | scrap_business/core/views.py:318-329 | recomputing after a pivot keeps the dates and every entry up to the pivot |
| Views.Moved | scrap_business/core/views.py:330-334 | the edited entry leaves its old date and takes the submitted date |
| Views.Relocated | scrap_business/core/views.py:330-345 | after the intended edit, the store holds the old dates without the edited one, plus the submitted date |
| Views.EditedPersisted | scrap_business/core/views.py:330-345 | the intended edit fails exactly when the new date belongs to another entry; otherwise the old date is replaced by the new one |
| Views.FirstActive | scrap_business/core/views.py:37 | the active stock found is the active stock with the lowest id; none exactly when no stock is active |
| Views.CurrentStock | scrap_business/core/views.py:37-40 | returns an active stock: the first active one when there is one, with nothing changed; otherwise a newly created stock appended to the store |
| Views.Cleared | scrap_business/core/views.py:257-263 | clearing marks the cleared stock inactive and changes nothing else about it: it keeps its creation day, and its number unless the number was empty, in which case `Stock.save` numbers it; every other stock is kept; one active stock created now is appended |
| Views.ClearStock | scrap_business/core/views.py:257-263 | the method leaves the store's stocks exactly as `Cleared` describes |
| Views.ActiveCount | scrap_business/core/views.py:37 | the number of active stocks never exceeds the number of stocks |
| Views.PreviousStock | scrap_business/core/views.py:60 | the previous stock is an inactive stock created no earlier than any other inactive stock, and every later-created inactive stock was created on an earlier day, so a same-day tie goes to the last created; none exactly when every stock is active |
| Views.ExpensesUpTo | scrap_business/core/views.py:46 | with non-negative amounts the expenses counted are non-negative; when every expense is dated after the day, nothing is counted |
| Views.StockSummary | scrap_business/core/views.py:45-50 | the stock's profit is its revenue less its expenses; a stock without entries has no weight and no revenue, and its profit is minus the store's expenses to date |
| Views.ProfitsAdd | scrap_business/core/views.py:85-87 | when each store's profit is its revenue less its expenses, total revenue less total expenses is the sum of the profits |
| Views.NetProfitAll | scrap_business/core/views.py:85-87 | the dashboard's net profit equals the sum of the stores' profits whenever each store's profit is its revenue less its expenses |
| Views.ProfitSwingIff | scrap_business/core/views.py:67 | the relative-change test is equivalent to: the previous profit is non-zero and ten times the change exceeds its magnitude |
| Views.AlertsFor | scrap_business/core/views.py:52-73 | the overdue alert fires exactly when the stock is more than 30 days old; the profit alert fires exactly when a previous stock exists and the profit changed by more than a tenth of a non-zero previous profit |
| Reconciliation.PredBalanceAgree | scrap_business/core/models.py:101-111 | the carried balance depends only on the entries before the date |
| Reconciliation.SavedLinks | scrap_business/core/models.py:93-121 | the entry the save hook stores is linked to its predecessor |
| Reconciliation.StoreKeepsEarlier | scrap_business/core/models.py:101-104 | storing an entry leaves every earlier entry linked |
| Reconciliation.CascadeKeepsUpTo | scrap_business/core/views.py:321-329 | a cascade over later dates leaves every entry up to a date unchanged |
| Reconciliation.HeadLinked | scrap_business/core/views.py:321-329 | the first entry the cascade walks ends up linked to the entry before it |
| Reconciliation.CascadeLinks | scrap_business/core/views.py:321-329 | whatever balance it starts from, the cascade leaves every entry it walks linked to the entry before it |
| Reconciliation.ReconciledBalances | scrap_business/core/views.py:321-329 | when started from the true previous balance, the cascade keeps each later entry's balance, lowering it only to its new amount given |
| Reconciliation.ReconciledChained | scrap_business/core/views.py:318-329 | recomputing after a pivot chains the whole stock when the entries up to the pivot are linked |
| Reconciliation.DeletedIsReconciled | scrap_business/core/views.py:317-320 | the delete cascade is the recomputation after the deleted date |
| Reconciliation.RestLinkedBefore | scrap_business/core/views.py:317 | deleting an entry leaves every earlier entry of a chained stock linked to its predecessor |
| Reconciliation.ReconciledKeeps | scrap_business/core/views.py:318-329 | recomputing after a pivot whose earlier entries are linked both chains the stock and keeps each later entry's requested balance where it fits |
| Reconciliation.DeleteKeepsChain | scrap_business/core/views.py:313-329 | deleting from a chained stock leaves it chained; entries before the deleted date are untouched; later balances are kept unless above the new amount given |
| Reconciliation.EditAsWrittenKeepsChain | scrap_business/core/views.py:330-345 | even as written, the edit leaves a chained stock chained |
| Reconciliation.EditIsLost | scrap_business/core/views.py:330-345 | on a two-entry stock, editing the first entry leaves it unchanged but lowers the second entry's balance from 100 to 60 |
| Reconciliation.MovedKeepsOthers | scrap_business/core/views.py:330-334 | moving the edited entry leaves every other entry as it was |
| Reconciliation.EditedPersistedIs | scrap_business/core/views.py:330-345 | a successful intended edit produces the relocated store |
| Reconciliation.RelocatedKeeps | scrap_business/core/views.py:330-345 | the relocated store is chained, and each entry from the earlier of the old and new dates on keeps its requested balance where it fits, when the entries before are linked |
| Reconciliation.EditPersistedKeepsChain | scrap_business/core/views.py:330-345 | the intended edit leaves the stock chained; it stores the submitted amount, weights and balance (clamped to the amount given) under the submitted date; entries before both dates are untouched |
| Reconciliation.AddLatestKeepsChain | scrap_business/core/views.py:294-300 | adding an entry after all existing ones keeps a chained stock chained |
| Reconciliation.AddBeforeLeavesStale | scrap_business/core/views.py:294-300 | on a stock whose only entry is on day 5, adding a day-1 entry that closes at 80 leaves the day-5 entry unchanged and no longer linked |
| Reconciliation.AddBeforeNext | scrap_business/core/views.py:294-300 | on a chained stock, adding an entry before existing ones leaves the first later entry unchanged; that entry stays linked exactly when the new entry closes at the balance it was carried from; every other entry stays linked |
| Reconciliation.AddedReconciled | scrap_business/core/views.py:294-300 | adding with recomputation stores the new date alongside all existing dates |
| Reconciliation.AddReconciledKeepsChain | scrap_business/core/views.py:294-300 | adding with recomputation keeps the stock chained at any date, stores the new entry as the hook derives it, and keeps later balances unless above their amount given |
| Reconciliation.FirstEntry | scrap_business/core/models.py:110-111 | the first entry of a stock, given 100 with 80 left, uses 20 |
| Reconciliation.CarriedBalance | scrap_business/core/models.py:107-119 | the next entry carries the 80 over: 50 given makes 130, and a balance of 200 is lowered to 130 with nothing used |
| Reporting.ActiveCountUpdate | scrap_business/core/views.py:260-261 | re-saving one stock changes the active count only by the change in that stock's flag |
| Reporting.CreatedIsOnlyActive | scrap_business/core/views.py:37-40 | a store without an active stock ends with exactly one after the lookup creates one |
| Reporting.ClearedCount | scrap_business/core/views.py:257-263 | clearing removes the cleared stock from the active count (if it was in it) and adds the new stock |
| Reporting.ClearInactiveAddsActive | scrap_business/core/views.py:257-263 | clearing an already inactive stock adds one active stock and retires none |
| Reporting.ClearOldStockTwice | scrap_business/core/views.py:257-263 | a store with one active stock ends with two after its old, inactive stock is cleared again |
| Reporting.ClearedCheckedKeepsOneActive | scrap_business/core/views.py:257-263 | the guarded clear keeps a store at one active stock at most; clearing the active stock leaves the new one the only active stock |
| Reporting.ClearedNext | scrap_business/core/views.py:260-262 | clearing a numbered stock keeps its number, so the new stock is numbered from the store's most recent number |
| Reporting.ClearedNumbering | scrap_business/core/views.py:260-262 | the stock that clearing creates is numbered one after the store's most recent stock |
| Reporting.ProfitIsMargins | scrap_business/core/views.py:47-50 | the stock's profit equals the sum over entries of revenue less amount used, minus the store's expenses |
| Reporting.ExpensesUpToSingleton | scrap_business/core/views.py:46 | a single expense is counted exactly when it is dated on or before the day (`date__lte`) |
| Reporting.ExpensesUpToConcat | scrap_business/core/views.py:46 | the expenses counted over two runs of expenses are the sum of the two counts, so the total is the sum of the expenses on or before the day |
| Reporting.ExpensesCoverRecorded | scrap_business/core/views.py:46-49 | the expenses shown are the recorded expenses to date plus the amounts used by the stock's entries; on a chained stock they are at least the recorded expenses |
| Reporting.ExpensesUpToMonotone | scrap_business/core/views.py:46 | with non-negative amounts, counting expenses up to a later day never counts less |

## Left out

- HTTP handling, authentication, ownership checks (`get_object_or_404`), templates, redirects, logging, PDF export, `financial_report`, `mark_alert_read`, `update_selling_price` with its price-change log, `initialize_scrap_types`, URL routing and the JavaScript: these are glue around the engine.
- Creating alerts with `get_or_create`, and its idempotence: database behaviour. `AlertsFor` states when each alert is raised.
- `timezone.now()` and dates: the current day is a parameter, and dates are whole days. The datetime-to-date comparison against a stock's creation time is not modelled.
- Decimal columns with two decimal places and float conversions: amounts are exact reals. `Models.StockLedger.Save` does not model rounding to cents on store.
- Models.CalculateRevenue: requires a price for every weighed category. The source raises `DoesNotExist` (or `MultipleObjectsReturned` for duplicate names) instead; neither is modelled.
- Views.SubmittedWeights: a submitted weight that is not a number makes `float()` raise, and the edit form raises on a blank weight (`float(None)`). Neither error path is modelled; weights are taken as numbers.
- Form validation (`is_valid`, required fields, date parsing) is not modelled: the operations receive validated values. The falsy check of `add_entry` is modelled.
- StockNumbers.ParseInt: only ASCII whitespace (space, tab, line feed, vertical tab, form feed, carriage return) and ASCII digits are modelled. Python's `int()` also accepts non-ASCII Unicode whitespace and decimal digits.
- The 20-character limit on stock numbers and the database's unique constraint are not enforced. `IssuedDistinct` shows that fresh numbering never collides.
- Views.PreviousStock: creation times are whole days. The source orders by the full `created_date` timestamp, so two stocks created on the same day are ordered by the time of day; the model gives the tie to the later-created stock.
- Views.StockSummary and the dashboard totals are ghost functions over sums of maps; the summing loops themselves are not modelled as methods except `calculate_revenue`.
- Concurrent requests and transactions: each operation runs alone, to completion.

## Findings

| source | as written | input that shows it | evidently intended | confidence | as-written member | corrected member |
|---|---|---|---|---|---|---|
| scrap_business/core/views.py:330-345 | The edit branch never stores the edited entry, because the form's `save` does not write it (forms.py:42-47). It then cascades from the submitted, unclamped balance, while the cascade's hook still reads the old stored balance. | Entries on day 1 (100 given, 80 left) and day 5 (50 given, 100 left). Edit day 1 to 120 given and 10 left. Day 1 is unchanged, and day 5's balance drops from 100 to 60 while its amount given stays 130. | Store the edited entry under its new date, then recompute every entry from the earlier of its old and new dates; a new date already used by another entry is refused. | high, not executed | Reconciliation.EditIsLost | Reconciliation.EditPersistedKeepsChain |
| scrap_business/core/views.py:257-263 | `clear_stock` accepts a stock that is already inactive. It creates a new active stock without retiring the active one. | A store with stock 0001 inactive and stock 0002 active. Clearing stock 0001 leaves 0002 and the new 0003 both active. | Clear only the active stock, so that a store never has more than one active stock. | medium, not executed | Reporting.ClearOldStockTwice | Reporting.ClearedCheckedKeepsOneActive |

Adding an entry dated before existing entries does not recompute them
(`AddBeforeLeavesStale`). The first later entry becomes unlinked unless the new
entry happens to close at the balance it was carried from (`AddBeforeNext`).
It is unclear whether this is intentional, so it
is not listed as a finding. `AddedReconciled` is the alternative that
recomputes, and `AddReconciledKeepsChain` proves that it keeps the chain.
