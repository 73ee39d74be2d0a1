// Properties of the stock lifecycle (how many stocks of a store are active,
// how clear_stock numbers the new one) and of the totals shown on the
// dashboard and the store page.
module Reporting {
  import opened Results
  import opened Models
  import opened Views
  import opened Reconciliation
  import Sums
  import StockNumbers

  function ActiveBit(s: Stock): nat
  {
    if s.isActive then 1 else 0
  }

  /** Replacing one stock changes the count by the difference in activity. */
  lemma {:induction false} ActiveCountUpdate(stocks: seq<Stock>, i: nat, s: Stock)
    requires i < |stocks|
    ensures ActiveCount(stocks[i := s]) + ActiveBit(stocks[i]) == ActiveCount(stocks) + ActiveBit(s)
    decreases |stocks|
  {
    var n := |stocks| - 1;
    var updated := stocks[i := s];
    if i < n {
      assert updated[..n] == stocks[..n][i := s];
      ActiveCountUpdate(stocks[..n], i, s);
    } else {
      assert updated[..n] == stocks[..n];
    }
  }

  /** Appending a stock adds one to the count when it is active. */
  lemma ActiveCountAppend(stocks: seq<Stock>, s: Stock)
    ensures ActiveCount(stocks + [s]) == ActiveCount(stocks) + ActiveBit(s)
  {
    assert (stocks + [s])[..|stocks|] == stocks;
  }

  /** A store without an active stock has an active count of zero. */
  lemma {:induction false} NoneActive(stocks: seq<Stock>)
    requires FirstActive(stocks).None?
    ensures ActiveCount(stocks) == 0
    decreases |stocks|
  {
    if stocks != [] {
      var prior := stocks[..|stocks| - 1];
      assert FirstActive(prior).None? by {
        forall j | 0 <= j < |prior| ensures !prior[j].isActive {
          assert prior[j] == stocks[j];
        }
      }
      NoneActive(prior);
    }
  }

  /** So after dashboard or store_detail the store has exactly one active
      stock when it had none. */
  lemma CreatedIsOnlyActive(stocks: seq<Stock>, created: Stock)
    requires FirstActive(stocks).None? && created.isActive
    ensures ActiveCount(stocks + [created]) == 1
  {
    NoneActive(stocks);
    ActiveCountAppend(stocks, created);
  }

  /** The count after clear_stock: the cleared stock stops counting and the
      new one counts. */
  lemma ClearedCount(stocks: seq<Stock>, storeId: nat, i: nat, now: int)
    requires i < |stocks|
    ensures ActiveCount(Cleared(stocks, storeId, i, now)) == ActiveCount(stocks) - ActiveBit(stocks[i]) + 1
  {
    var r := Cleared(stocks, storeId, i, now);
    var prior := r[..|stocks|];
    assert prior == stocks[i := r[i]];
    ActiveCountUpdate(stocks, i, r[i]);
  }

  /** clear_stock as written, on a stock that is already inactive, adds an
      active stock without retiring one: a store whose one active stock is
      kept ends with two. */
  lemma ClearInactiveAddsActive(stocks: seq<Stock>, storeId: nat, i: nat, now: int)
    requires i < |stocks| && !stocks[i].isActive
    ensures ActiveCount(Cleared(stocks, storeId, i, now)) == ActiveCount(stocks) + 1
  {
    ClearedCount(stocks, storeId, i, now);
  }

  /** Two stocks: an old cleared one and the active one. */
  function TwoStocks(): seq<Stock>
  {
    [Stock("STK-1-0001", 0, false), Stock("STK-1-0002", 40, true)]
  }

  /** Clearing the old, already inactive stock again leaves two active. */
  lemma ClearOldStockTwice()
    ensures ActiveCount(TwoStocks()) == 1
    ensures ActiveCount(Cleared(TwoStocks(), 1, 0, 50)) == 2
  {
    var ss := TwoStocks();
    assert ss[..1] == [ss[0]] && [ss[0]][..0] == [];
    ClearInactiveAddsActive(ss, 1, 0, 50);
  }

  /** clear_stock as intended keeps a store at no more than one active
      stock, and clearing the active stock leaves the new one the only
      active stock. */
  lemma ClearedCheckedKeepsOneActive(stocks: seq<Stock>, storeId: nat, i: nat, now: int)
    requires i < |stocks| && ActiveCount(stocks) <= 1
    ensures ActiveCount(ClearedChecked(stocks, storeId, i, now)) <= 1
    ensures stocks[i].isActive ==>
      var r := ClearedChecked(stocks, storeId, i, now);
      ActiveCount(r) == 1 && r[|stocks|].isActive
  {
    if stocks[i].isActive {
      ClearedCount(stocks, storeId, i, now);
    }
  }

  /** Clearing a numbered stock leaves the store's most recent number as it
      was, so the new stock is numbered from it. */
  lemma ClearedNext(stocks: seq<Stock>, storeId: nat, i: nat, now: int)
    requires i < |stocks| && stocks[i].stockNumber != ""
    ensures Cleared(stocks, storeId, i, now)[|stocks|].stockNumber
         == StockNumbers.NextStockNumber(storeId, LastNumber(stocks))
  {
    var number := StockNumbers.NumberOnSave(stocks[i].stockNumber, storeId, LastNumber(stocks));
    var off := stocks[i := stocks[i].(isActive := false, stockNumber := number)];
    assert LastNumber(off) == LastNumber(stocks);
  }

  /** The stock clear_stock creates is numbered after the store's most
      recent stock. */
  lemma ClearedNumbering(stocks: seq<Stock>, storeId: nat, i: nat, now: int, n: nat)
    requires i < |stocks| && stocks[i].stockNumber != ""
    requires stocks[|stocks| - 1].stockNumber == StockNumbers.StockNumber(storeId, n)
    ensures Cleared(stocks, storeId, i, now)[|stocks|].stockNumber == StockNumbers.StockNumber(storeId, n + 1)
  {
    ClearedNext(stocks, storeId, i, now);
    StockNumbers.NextAfter(storeId, n);
  }

  // ---------------------------------------------------------------------
  // Totals

  /** Each entry's margin, revenue less amount used, by date. */
  ghost function MarginByDate(entries: map<int, Entry>, prices: map<string, real>): map<int, real>
    requires PricedEntries(entries, prices)
  {
    map d | d in entries :: Revenue(entries[d].weights, prices) - entries[d].amountUsed
  }

  /** The profit is the sum over the entries of revenue less amount used,
      less the store's expenses. */
  lemma ProfitIsMargins(entries: map<int, Entry>, prices: map<string, real>,
                        expenses: seq<Expense>, day: int)
    requires PricedEntries(entries, prices)
    ensures StockSummary(entries, prices, expenses, day).totalProfit
         == Sums.Total(MarginByDate(entries, prices)) - ExpensesUpTo(expenses, day)
  {
    var rev := RevenueByDate(entries, prices);
    var used := UsedByDate(entries);
    var margins := MarginByDate(entries, prices);
    assert Sums.Total(margins) == Sums.Total(rev) - Sums.Total(used) by {
      Sums.TotalSubtract(rev, used);
      var diff := map d | d in rev :: rev[d] - used[d];
      assert diff == margins by {
        assert diff.Keys == margins.Keys;
        forall d | d in diff ensures diff[d] == margins[d] {
        }
      }
    }
  }

  /** The expenses shown are the store's recorded expenses to date plus
      the amounts the stock's entries used; on a chained stock those amounts
      are never negative, so the expenses shown are at least the recorded
      ones. */
  lemma ExpensesCoverRecorded(entries: map<int, Entry>, prices: map<string, real>,
                              expenses: seq<Expense>, day: int)
    requires PricedEntries(entries, prices) && Chained(entries)
    ensures StockSummary(entries, prices, expenses, day).totalExpenses
      == ExpensesUpTo(expenses, day) + Sums.Total(UsedByDate(entries))
    ensures StockSummary(entries, prices, expenses, day).totalExpenses >= ExpensesUpTo(expenses, day)
  {
    var used := UsedByDate(entries);
    forall d | d in used ensures used[d] >= 0.0 {
      assert Linked(entries, d);
    }
    Sums.TotalNonNegative(used);
  }

  /** One expense counts exactly when it is dated on or before the day. */
  lemma ExpensesUpToSingleton(e: Expense, day: int)
    ensures ExpensesUpTo([e], day) == if e.day <= day then e.amount else 0.0
  {
    assert [e][..0] == [];
  }

  /** The expenses counted in two runs of expenses add up. */
  lemma {:induction false} ExpensesUpToConcat(a: seq<Expense>, b: seq<Expense>, day: int)
    ensures ExpensesUpTo(a + b, day) == ExpensesUpTo(a, day) + ExpensesUpTo(b, day)
    decreases |b|
  {
    if b == [] {
      assert a + b == a;
    } else {
      assert (a + b)[..|a + b| - 1] == a + b[..|b| - 1];
      ExpensesUpToConcat(a, b[..|b| - 1], day);
    }
  }

  /** With non-negative amounts, counting expenses up to a later day never
      counts less: the previous stock's expenses are a part of the current
      ones. */
  lemma {:induction false} ExpensesUpToMonotone(expenses: seq<Expense>, day1: int, day2: int)
    requires day1 <= day2
    requires forall i :: 0 <= i < |expenses| ==> expenses[i].amount >= 0.0
    ensures ExpensesUpTo(expenses, day1) <= ExpensesUpTo(expenses, day2)
    decreases |expenses|
  {
    if expenses != [] {
      var prior := expenses[..|expenses| - 1];
      assert forall i :: 0 <= i < |prior| ==> prior[i] == expenses[i];
      ExpensesUpToMonotone(prior, day1, day2);
    }
  }
}
