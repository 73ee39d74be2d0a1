// The logic embedded in the request handlers of
// scrap_business/core/views.py: add_entry's guards, the delete and edit
// cascades of edit_entry, clear_stock, the active-stock lookup of dashboard
// and store_detail, and the totals and alert conditions they display.
module Views {
  import opened Results
  import opened DateOrder
  import opened Models
  import Sums
  import StockNumbers

  // ---------------------------------------------------------------------
  // add_entry

  datatype AddError = DuplicateDate | MissingRequiredField

  /** Python truthiness of a submitted amount: absent and zero are false. */
  predicate Truthy(x: Option<real>)
    ensures Truthy(x) <==> Amount(x) != 0.0
  {
    x.Some? && x.value != 0.0
  }

  /** The weights add_entry stores: every scrap category and no other, with
      the submitted weight or 0 when none was submitted. */
  function SubmittedWeights(submitted: map<string, real>): (w: map<string, real>)
    ensures forall t :: t in w <==> t in ScrapTypes
    ensures forall t :: t in w && t in submitted ==> w[t] == submitted[t]
    ensures forall t :: t in w && t !in submitted ==> w[t] == 0.0
  {
    map t | t in ScrapTypes :: if t in submitted then submitted[t] else 0.0
  }

  /** add_entry on a valid form: refuse a second entry for the same date,
      refuse a missing or zero amount given or balance, otherwise store
      the entry through the save hook. Later entries are not recomputed. */
  method AddEntry(ledger: StockLedger, date: int, entered: Option<real>, balance: Option<real>,
                  submitted: map<string, real>)
    returns (r: Result<Entry, AddError>)
    modifies ledger
    ensures date in old(ledger.entries) ==>
      r == Failure(DuplicateDate) && ledger.entries == old(ledger.entries)
    ensures date !in old(ledger.entries) && !(Truthy(entered) && Truthy(balance)) ==>
      r == Failure(MissingRequiredField) && ledger.entries == old(ledger.entries)
    ensures date !in old(ledger.entries) && Truthy(entered) && Truthy(balance) ==>
      && r == Success(Saved(old(ledger.entries), date, SubmittedWeights(submitted), entered, balance))
      && ledger.entries == old(ledger.entries)[date := r.value]
  {
    if date in ledger.entries {
      return Failure(DuplicateDate);
    }
    if !(Truthy(entered) && Truthy(balance)) {
      return Failure(MissingRequiredField);
    }
    var weights := SubmittedWeights(submitted);
    var saved := ledger.Save(date, weights, entered, balance);
    return Success(saved);
  }

  // ---------------------------------------------------------------------
  // edit_entry: the forward cascade shared by its delete and edit branches

  function Min(a: real, b: real): (m: real)
    ensures m <= a && m <= b && (m == a || m == b)
  {
    if a <= b then a else b
  }

  /** What one pass of the cascade loop stores for the entry dated d:
      the loop recomputes the amount given from the running balance and
      lowers the balance to it if needed, then sub_entry.save() runs the
      save hook on that balance against the stored predecessor. */
  function CascadeStep(entries: map<int, Entry>, d: int, running: real): (e: Entry)
    requires d in entries
    ensures e.enteredAmountGiven == entries[d].enteredAmountGiven
    ensures e.weights == entries[d].weights
    ensures e.amountGiven == entries[d].enteredAmountGiven + PredBalance(entries, d)
    ensures e.balance == Min(Min(entries[d].balance, entries[d].enteredAmountGiven + running), e.amountGiven)
    ensures e.balance <= entries[d].balance
    ensures e.balance <= entries[d].enteredAmountGiven + running
    ensures e.amountUsed >= 0.0 && e.amountUsed == e.amountGiven - e.balance
  {
    var sub := entries[d];
    var given := sub.enteredAmountGiven + running;
    var balance := if given - sub.balance < 0.0 then given else sub.balance;
    Saved(entries, d, sub.weights, Some(sub.enteredAmountGiven), Some(balance))
  }

  /** The store after the cascade walks `dates` in order, starting from
      the running balance `running` and passing on each entry's stored
      balance. Only the entries walked change, and of those only the
      derived amounts and the balance, which never goes up. */
  function CascadeOver(entries: map<int, Entry>, dates: seq<int>, running: real): (r: map<int, Entry>)
    requires forall d :: d in dates ==> d in entries
    ensures r.Keys == entries.Keys
    ensures forall k :: k in entries && k !in dates ==> r[k] == entries[k]
    ensures forall k :: k in entries ==>
      && r[k].enteredAmountGiven == entries[k].enteredAmountGiven
      && r[k].weights == entries[k].weights
      && r[k].balance <= entries[k].balance
    decreases |dates|
  {
    if dates == [] then entries
    else
      var saved := CascadeStep(entries, dates[0], running);
      CascadeOver(entries[dates[0] := saved], dates[1..], saved.balance)
  }

  lemma CascadeOverUnfold(entries: map<int, Entry>, dates: seq<int>, running: real)
    requires dates != [] && forall d :: d in dates ==> d in entries
    ensures var saved := CascadeStep(entries, dates[0], running);
      CascadeOver(entries, dates, running) == CascadeOver(entries[dates[0] := saved], dates[1..], saved.balance)
  {
  }

  /** The cascade loop of edit_entry. */
  method Cascade(ledger: StockLedger, subsequent: seq<int>, previousBalance: real)
    requires forall d :: d in subsequent ==> d in ledger.entries
    modifies ledger
    ensures ledger.entries == CascadeOver(old(ledger.entries), subsequent, previousBalance)
  {
    var running := previousBalance;
    for i := 0 to |subsequent|
      invariant ledger.entries.Keys == old(ledger.entries).Keys
      invariant CascadeOver(ledger.entries, subsequent[i..], running)
             == CascadeOver(old(ledger.entries), subsequent, previousBalance)
    {
      var d := subsequent[i];
      var sub := ledger.entries[d];
      var given := sub.enteredAmountGiven + running;
      var balance := sub.balance;
      if given - sub.balance < 0.0 {
        balance := given;
      }
      ghost var before := ledger.entries;
      var saved := ledger.Save(d, sub.weights, Some(sub.enteredAmountGiven), Some(balance));
      assert saved == CascadeStep(before, d, running);
      CascadeOverUnfold(before, subsequent[i..], running);
      assert subsequent[i..][1..] == subsequent[i + 1..];
      running := saved.balance;
    }
  }

  /** The store after deleting the entry dated `date`: the entries after it
      are walked from the balance of the entry before it (0 if none). */
  function Deleted(entries: map<int, Entry>, date: int): (r: map<int, Entry>)
    ensures r.Keys == entries.Keys - {date}
  {
    var rest := entries - {date};
    CascadeOver(rest, DatesAfter(rest.Keys, date), PredBalance(rest, date))
  }

  /** edit_entry, delete branch. */
  method DeleteEntry(ledger: StockLedger, date: int)
    requires date in ledger.entries
    modifies ledger
    ensures ledger.entries == Deleted(old(ledger.entries), date)
  {
    ledger.Delete(date);
    var subsequent := DatesAfter(ledger.entries.Keys, date);
    var previous := Predecessor(ledger.entries.Keys, date);
    var previousBalance := if previous.Some? then ledger.entries[previous.value].balance else 0.0;
    Cascade(ledger, subsequent, previousBalance);
  }

  /** The fields of the edit form, already validated. */
  datatype EditForm = EditForm(date: int, enteredAmountGiven: real, balance: real, weights: map<string, real>)

  /** The store after edit_entry's edit branch as the code stands: the form
      changes the entry in memory only and it is never saved, so the stored
      entries are walked from the form's date, starting from the form's
      balance as submitted. */
  function EditedAsWritten(entries: map<int, Entry>, form: EditForm): (r: map<int, Entry>)
    ensures r.Keys == entries.Keys
    ensures forall k :: k in entries && k <= form.date ==> r[k] == entries[k]
  {
    CascadeOver(entries, DatesAfter(entries.Keys, form.date), form.balance)
  }

  /** edit_entry, edit branch, on the stored entry dated `date`. */
  method EditEntry(ledger: StockLedger, date: int, form: EditForm)
    requires date in ledger.entries
    modifies ledger
    ensures ledger.entries == EditedAsWritten(old(ledger.entries), form)
  {
    // form.save() builds the edited entry without storing it
    var subsequent := DatesAfter(ledger.entries.Keys, form.date);
    var previousBalance := form.balance;
    Cascade(ledger, subsequent, previousBalance);
  }

  /** Walk every entry after `pivot`, starting from the balance of the
      latest entry on or before `pivot`. */
  function Reconciled(entries: map<int, Entry>, pivot: int): (r: map<int, Entry>)
    ensures r.Keys == entries.Keys
    ensures forall k :: k in entries && k <= pivot ==> r[k] == entries[k]
  {
    CascadeOver(entries, DatesAfter(entries.Keys, pivot), PredBalance(entries, pivot + 1))
  }

  datatype EditError = DateTaken

  /** The earlier of two days: `Min` on the integer dates rather than on
      amounts. */
  function Earlier(a: int, b: int): (d: int)
    ensures d <= a && d <= b && (d == a || d == b)
  {
    if a <= b then a else b
  }

  /** The store with the entry dated `date` taken out and the submitted
      entry stored under the submitted date. Its derived amounts are
      placeholders: the cascade that follows recomputes them. */
  function Moved(entries: map<int, Entry>, date: int, form: EditForm): (m: map<int, Entry>)
    ensures m.Keys == entries.Keys - {date} + {form.date}
  {
    (entries - {date})[form.date := Entry(form.weights, form.enteredAmountGiven, 0.0, form.balance, 0.0)]
  }

  /** The store once the edited entry is stored under its (possibly new)
      date and every entry from the earlier of its old and new dates on is
      recomputed. */
  function Relocated(entries: map<int, Entry>, date: int, form: EditForm): (r: map<int, Entry>)
    ensures r.Keys == entries.Keys - {date} + {form.date}
  {
    Reconciled(Moved(entries, date, form), Earlier(form.date, date) - 1)
  }

  /** The edit as evidently intended: the store is relocated as above, and a
      new date already used by another entry is refused. */
  function EditedPersisted(entries: map<int, Entry>, date: int, form: EditForm)
    : (r: Result<map<int, Entry>, EditError>)
    requires date in entries
    ensures r.Failure? <==> form.date != date && form.date in entries
    ensures r.Success? ==> r.value.Keys == entries.Keys - {date} + {form.date}
  {
    if form.date != date && form.date in entries then Failure(DateTaken)
    else Success(Relocated(entries, date, form))
  }

  // ---------------------------------------------------------------------
  // Stocks: clear_stock, and the active stock of dashboard / store_detail

  /** filter(store=..., is_active=True).first(): the active stock with the
      lowest id. */
  function FirstActive(stocks: seq<Stock>): (i: Option<nat>)
    ensures i.None? <==> forall j :: 0 <= j < |stocks| ==> !stocks[j].isActive
    ensures i.Some? ==> i.value < |stocks| && stocks[i.value].isActive
    ensures i.Some? ==> forall j :: 0 <= j < i.value ==> !stocks[j].isActive
  {
    if stocks == [] then None
    else if stocks[0].isActive then Some(0)
    else
      match FirstActive(stocks[1..])
      case None => None
      case Some(j) => Some(j + 1)
  }

  /** dashboard and store_detail: the store's active stock, created when
      the store has none. */
  method CurrentStock(store: StoreStocks, now: int) returns (i: nat)
    modifies store
    ensures i < |store.stocks| && store.stocks[i].isActive
    ensures FirstActive(old(store.stocks)).Some? ==>
      i == FirstActive(old(store.stocks)).value && store.stocks == old(store.stocks)
    ensures FirstActive(old(store.stocks)).None? ==>
      && i == |old(store.stocks)|
      && store.stocks == old(store.stocks)
         + [Stock(StockNumbers.NextStockNumber(store.storeId, LastNumber(old(store.stocks))), now, true)]
  {
    var current := FirstActive(store.stocks);
    if current.Some? {
      return current.value;
    }
    var created := store.Create(now);
    i := |store.stocks| - 1;
  }

  /** The store's stocks after clear_stock on the stock at index i: that
      stock is saved inactive (keeping its number) and one new active stock
      is created after it. */
  function Cleared(stocks: seq<Stock>, storeId: nat, i: nat, now: int): (r: seq<Stock>)
    requires i < |stocks|
    ensures |r| == |stocks| + 1
    ensures r[i] == stocks[i].(isActive := false,
      stockNumber := StockNumbers.NumberOnSave(stocks[i].stockNumber, storeId, LastNumber(stocks)))
    ensures !r[i].isActive && r[|stocks|].isActive && r[|stocks|].createdDay == now
    ensures forall j :: 0 <= j < |stocks| && j != i ==> r[j] == stocks[j]
  {
    var number := StockNumbers.NumberOnSave(stocks[i].stockNumber, storeId, LastNumber(stocks));
    var off := stocks[i := stocks[i].(isActive := false, stockNumber := number)];
    var created := Stock(StockNumbers.NumberOnSave("", storeId, LastNumber(off)), now, true);
    assert (off + [created])[|stocks|] == created;
    off + [created]
  }

  /** clear_stock (POST) on the stock at index i. */
  method ClearStock(store: StoreStocks, i: nat, now: int)
    requires i < |store.stocks|
    modifies store
    ensures store.stocks == Cleared(old(store.stocks), store.storeId, i, now)
  {
    var stock := store.stocks[i];
    store.Resave(i, stock.(isActive := false));
    var created := store.Create(now);
  }

  /** The number of active stocks. */
  function ActiveCount(stocks: seq<Stock>): (n: nat)
    ensures n <= |stocks|
  {
    if stocks == [] then 0
    else ActiveCount(stocks[..|stocks| - 1]) + (if stocks[|stocks| - 1].isActive then 1 else 0)
  }

  /** clear_stock as evidently intended: only the active stock is cleared. */
  function ClearedChecked(stocks: seq<Stock>, storeId: nat, i: nat, now: int): (r: seq<Stock>)
    requires i < |stocks|
  {
    if stocks[i].isActive then Cleared(stocks, storeId, i, now) else stocks
  }

  // ---------------------------------------------------------------------
  // Totals and alerts of dashboard and store_detail

  datatype Expense = Expense(amount: real, day: int)

  /** The sum of the expenses dated on or before `day`. */
  function ExpensesUpTo(expenses: seq<Expense>, day: int): (total: real)
    ensures (forall i :: 0 <= i < |expenses| ==> expenses[i].amount >= 0.0) ==> total >= 0.0
    ensures (forall i :: 0 <= i < |expenses| ==> expenses[i].day > day) ==> total == 0.0
  {
    if expenses == [] then 0.0
    else
      var last := expenses[|expenses| - 1];
      ExpensesUpTo(expenses[..|expenses| - 1], day) + (if last.day <= day then last.amount else 0.0)
  }

  predicate PricedEntries(entries: map<int, Entry>, prices: map<string, real>)
  {
    forall d :: d in entries ==> entries[d].weights.Keys <= prices.Keys
  }

  ghost function WeightTotal(entries: map<int, Entry>): real
  {
    Sums.Total(map d | d in entries :: Sums.Total(entries[d].weights))
  }

  /** Each entry's revenue, by date. */
  ghost function RevenueByDate(entries: map<int, Entry>, prices: map<string, real>): map<int, real>
    requires PricedEntries(entries, prices)
  {
    map d | d in entries :: Revenue(entries[d].weights, prices)
  }

  /** Each entry's amount used, by date. */
  function UsedByDate(entries: map<int, Entry>): map<int, real>
  {
    map d | d in entries :: entries[d].amountUsed
  }

  ghost function RevenueTotal(entries: map<int, Entry>, prices: map<string, real>): real
    requires PricedEntries(entries, prices)
  {
    Sums.Total(RevenueByDate(entries, prices))
  }

  ghost function UsedTotal(entries: map<int, Entry>): real
  {
    Sums.Total(UsedByDate(entries))
  }

  datatype Summary = Summary(totalWeight: real, totalRevenue: real, totalExpenses: real, totalProfit: real)

  /** The figures shown for a stock: expenses are the store's expenses up to
      `day` plus the amounts used by the stock's entries. */
  ghost function StockSummary(entries: map<int, Entry>, prices: map<string, real>,
                              expenses: seq<Expense>, day: int): (s: Summary)
    requires PricedEntries(entries, prices)
    ensures s.totalProfit == s.totalRevenue - s.totalExpenses
    ensures entries == map[] ==>
      s.totalWeight == 0.0 && s.totalRevenue == 0.0 && s.totalProfit == -ExpensesUpTo(expenses, day)
  {
    var revenue := RevenueTotal(entries, prices);
    var spent := ExpensesUpTo(expenses, day) + UsedTotal(entries);
    Summary(WeightTotal(entries), revenue, spent, revenue - spent)
  }

  /** A stock open for more than 30 days is overdue. */
  predicate Overdue(today: int, createdDay: int)
  {
    today - createdDay > 30
  }

  function Abs(x: real): real
  {
    if x < 0.0 then -x else x
  }

  /** The profit moved by more than 10% of the previous stock's profit. */
  predicate ProfitSwing(current: real, previous: real)
  {
    previous != 0.0 && Abs((current - previous) / previous) > 0.1
  }

  /** filter(store=..., is_active=False).order_by('-created_date').first():
      the inactive stock created last. Creation times are whole days here;
      of the stocks created on one day the later-created has the later
      timestamp and the higher id, so ties go to the highest index. */
  function PreviousStock(stocks: seq<Stock>): (i: Option<nat>)
    ensures i.None? <==> forall j :: 0 <= j < |stocks| ==> stocks[j].isActive
    ensures i.Some? ==> i.value < |stocks| && !stocks[i.value].isActive
    ensures i.Some? ==> forall j :: 0 <= j < |stocks| && !stocks[j].isActive ==>
      stocks[j].createdDay <= stocks[i.value].createdDay
    ensures i.Some? ==> forall j :: i.value < j < |stocks| && !stocks[j].isActive ==>
      stocks[j].createdDay < stocks[i.value].createdDay
  {
    if stocks == [] then None
    else
      var prior := stocks[..|stocks| - 1];
      var last := stocks[|stocks| - 1];
      var best := PreviousStock(prior);
      if last.isActive then best
      else if best.Some? && last.createdDay < prior[best.value].createdDay then best
      else Some(|stocks| - 1)
  }

  datatype AlertKind = OverdueStock | ProfitLoss

  /** The relative-change test without the division: a change of more than
      a tenth of a non-zero previous profit. */
  lemma ProfitSwingIff(current: real, previous: real)
    ensures ProfitSwing(current, previous) <==>
      previous != 0.0 && Abs(current - previous) * 10.0 > Abs(previous)
  {
    if previous != 0.0 {
      var q := (current - previous) / previous;
      assert current - previous == q * previous;
      AbsProduct(q, previous);
      TenthComparison(Abs(q), Abs(previous), Abs(current - previous));
    }
  }

  lemma AbsProduct(x: real, y: real)
    ensures Abs(x * y) == Abs(x) * Abs(y)
  {
    if x < 0.0 {
      if y < 0.0 { assert x * y > 0.0; } else { assert x * y <= 0.0; }
    } else {
      if y < 0.0 { assert x * y <= 0.0; } else { assert x * y >= 0.0; }
    }
  }

  /** For a positive a: x exceeds a tenth exactly when x * a, times ten,
      exceeds a. */
  lemma TenthComparison(x: real, a: real, d: real)
    requires a > 0.0 && d == x * a
    ensures x > 0.1 <==> d * 10.0 > a
  {
    assert x > 0.1 <==> x * a > 0.1 * a;
  }

  /** The alerts dashboard raises for a store, from its active stock, that
      stock's profit and the profit of its previous stock, if any. */
  function AlertsFor(today: int, current: Stock, profit: real, previousProfit: Option<real>): (a: set<AlertKind>)
    ensures OverdueStock in a <==> today - current.createdDay > 30
    ensures ProfitLoss in a <==>
      previousProfit.Some? && previousProfit.value != 0.0
      && Abs(profit - previousProfit.value) * 10.0 > Abs(previousProfit.value)
  {
    ProfitSwingIff(profit, previousProfit.GetOr(0.0));
    (if Overdue(today, current.createdDay) then {OverdueStock} else {})
    + (if previousProfit.Some? && ProfitSwing(profit, previousProfit.value) then {ProfitLoss} else {})
  }

  /** The dashboard's grand totals over the per-store summaries. */
  function RevenueAll(summaries: seq<Summary>): real
  {
    if summaries == [] then 0.0
    else RevenueAll(summaries[..|summaries| - 1]) + summaries[|summaries| - 1].totalRevenue
  }

  function ExpensesAll(summaries: seq<Summary>): real
  {
    if summaries == [] then 0.0
    else ExpensesAll(summaries[..|summaries| - 1]) + summaries[|summaries| - 1].totalExpenses
  }

  /** The dashboard's net profit: all revenue less all expenses. When each
      summary's profit is its revenue less its expenses, as StockSummary
      makes it, this is the sum of the stores' profits. */
  function NetProfitAll(summaries: seq<Summary>): (r: real)
    ensures (forall i :: 0 <= i < |summaries| ==>
      summaries[i].totalProfit == summaries[i].totalRevenue - summaries[i].totalExpenses)
      ==> r == ProfitAll(summaries)
  {
    ProfitsAdd(summaries);
    RevenueAll(summaries) - ExpensesAll(summaries)
  }

  lemma {:induction false} ProfitsAdd(summaries: seq<Summary>)
    ensures (forall i :: 0 <= i < |summaries| ==>
      summaries[i].totalProfit == summaries[i].totalRevenue - summaries[i].totalExpenses)
      ==> RevenueAll(summaries) - ExpensesAll(summaries) == ProfitAll(summaries)
    decreases |summaries|
  {
    if summaries != [] {
      var prior := summaries[..|summaries| - 1];
      assert forall i :: 0 <= i < |prior| ==> prior[i] == summaries[i];
      ProfitsAdd(prior);
    }
  }

  function ProfitAll(summaries: seq<Summary>): real
  {
    if summaries == [] then 0.0
    else ProfitAll(summaries[..|summaries| - 1]) + summaries[|summaries| - 1].totalProfit
  }
}
