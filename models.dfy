// The data model of scrap_business/core/models.py: stock entries with their
// save hook, the per-stock store of entries, revenue, and stocks with the
// numbering done by Stock.save.
module Models {
  import opened Results
  import opened DateOrder
  import Sums
  import StockNumbers

  /** The fourteen scrap categories, in the order the source lists them. */
  const ScrapTypes: seq<string> := [
    "Heavy", "Light", "Cast", "Soft", "Hard", "Brass", "Copper",
    "Battery", "Radiator", "Boots", "Yellow", "Black", "Sandals", "Basins"
  ]

  /** One stored StockEntry row. Its date is the key under which the ledger
      stores it; at most one entry per date and stock. */
  datatype Entry = Entry(
    weights: map<string, real>,
    enteredAmountGiven: real,
    amountGiven: real,
    balance: real,
    amountUsed: real)

  /** A missing amount counts as zero. */
  function Amount(x: Option<real>): (a: real)
    ensures x.None? ==> a == 0.0
    ensures x.Some? ==> a == x.value
  {
    x.GetOr(0.0)
  }

  /** The record the save hook derives from what was entered, the balance
      asked for and the balance carried from the previous entry: the amount
      given is the entered amount plus the carried balance, and the amount
      used is what was given minus the balance, never below zero; when it
      would be, the balance is lowered to the amount given. */
  function Derive(weights: map<string, real>, entered: real, requested: real, carried: real): (e: Entry)
    ensures e.weights == weights && e.enteredAmountGiven == entered
    ensures e.amountGiven == entered + carried
    ensures e.amountUsed >= 0.0 && e.amountUsed == e.amountGiven - e.balance
    ensures e.balance <= e.amountGiven
    ensures requested <= e.amountGiven ==> e.balance == requested
    ensures requested > e.amountGiven ==> e.balance == e.amountGiven && e.amountUsed == 0.0
  {
    var given := entered + carried;
    if given - requested < 0.0 then Entry(weights, entered, given, given, 0.0)
    else Entry(weights, entered, given, requested, given - requested)
  }

  /** The balance of the latest entry strictly before `date`, 0 if none. */
  function PredBalance(entries: map<int, Entry>, date: int): (b: real)
    ensures Predecessor(entries.Keys, date).None? ==> b == 0.0
    ensures Predecessor(entries.Keys, date).Some? ==> b == entries[Predecessor(entries.Keys, date).value].balance
  {
    match Predecessor(entries.Keys, date)
    case None => 0.0
    case Some(p) => entries[p].balance
  }

  /** What StockEntry.save stores for an entry dated `date`, given the
      entries already stored for the same stock. */
  function Saved(entries: map<int, Entry>, date: int, weights: map<string, real>,
                 entered: Option<real>, balance: Option<real>): (e: Entry)
    ensures e.weights == weights && e.enteredAmountGiven == Amount(entered)
    ensures Predecessor(entries.Keys, date).None? ==> e.amountGiven == Amount(entered)
    ensures Predecessor(entries.Keys, date).Some? ==>
      e.amountGiven == Amount(entered) + entries[Predecessor(entries.Keys, date).value].balance
    ensures e.amountUsed >= 0.0 && e.amountUsed == e.amountGiven - e.balance
    ensures Amount(balance) <= e.amountGiven ==> e.balance == Amount(balance)
    ensures Amount(balance) > e.amountGiven ==> e.balance == e.amountGiven && e.amountUsed == 0.0
  {
    Derive(weights, Amount(entered), Amount(balance), PredBalance(entries, date))
  }

  /** The StockEntry rows of one stock, keyed by date. */
  class StockLedger {
    var entries: map<int, Entry>

    constructor ()
      ensures entries == map[]
    {
      entries := map[];
    }

    /** StockEntry.save: derive the amounts from the stored predecessor
        and store the row under its date. No other row changes. */
    method Save(date: int, weights: map<string, real>, entered: Option<real>, balance: Option<real>)
      returns (saved: Entry)
      modifies this
      ensures saved == Saved(old(entries), date, weights, entered, balance)
      ensures entries == old(entries)[date := saved]
    {
      var enteredAmount := if entered.None? then 0.0 else entered.value;
      var requested := if balance.None? then 0.0 else balance.value;
      var previous := Predecessor(entries.Keys, date);
      var given := enteredAmount;
      if previous.Some? {
        given := enteredAmount + entries[previous.value].balance;
      }
      var used := given - requested;
      if used < 0.0 {
        used := 0.0;
        requested := given;
      }
      saved := Entry(weights, enteredAmount, given, requested, used);
      entries := entries[date := saved];
    }

    /** Model.delete on the row dated `date`. */
    method Delete(date: int)
      modifies this
      ensures entries == old(entries) - {date}
    {
      entries := entries - {date};
    }
  }

  /** weight * price for each category weighed. */
  function Priced(weights: map<string, real>, prices: map<string, real>): (p: map<string, real>)
    requires weights.Keys <= prices.Keys
    ensures p.Keys == weights.Keys
    ensures forall t :: t in p ==> p[t] == weights[t] * prices[t]
  {
    map t | t in weights :: weights[t] * prices[t]
  }

  /** StockEntry.calculate_revenue, as a value: the sum of weight times the
      current selling price over the categories weighed. */
  ghost function Revenue(weights: map<string, real>, prices: map<string, real>): (r: real)
    requires weights.Keys <= prices.Keys
    ensures weights == map[] ==> r == 0.0
    ensures NonNegativeWeighing(weights, prices) ==> r >= 0.0
  {
    PricedNonNegative(weights, prices);
    Sums.Total(Priced(weights, prices))
  }

  /** Every weight and every price of a weighed category is non-negative. */
  predicate NonNegativeWeighing(weights: map<string, real>, prices: map<string, real>)
    requires weights.Keys <= prices.Keys
  {
    forall t :: t in weights ==> weights[t] >= 0.0 && prices[t] >= 0.0
  }

  /** With non-negative weights and prices the priced weights sum to a
      non-negative amount. */
  lemma PricedNonNegative(weights: map<string, real>, prices: map<string, real>)
    requires weights.Keys <= prices.Keys
    ensures NonNegativeWeighing(weights, prices) ==> Sums.Total(Priced(weights, prices)) >= 0.0
  {
    if NonNegativeWeighing(weights, prices) {
      var p := Priced(weights, prices);
      forall t | t in p ensures p[t] >= 0.0 {
        assert p[t] == weights[t] * prices[t];
      }
      Sums.TotalNonNegative(p);
    }
  }

  /** Taking one weighed category out of the revenue. */
  lemma RevenueRemove(weights: map<string, real>, prices: map<string, real>, t: string)
    requires weights.Keys <= prices.Keys && t in weights
    ensures Revenue(weights, prices) == weights[t] * prices[t] + Revenue(weights - {t}, prices)
  {
    var p := Priced(weights, prices);
    Sums.TotalRemove(p, t);
    var q := Priced(weights - {t}, prices);
    assert q.Keys == (p - {t}).Keys;
    forall k | k in q ensures q[k] == (p - {t})[k] {
      assert (weights - {t})[k] == weights[k];
    }
    assert q == p - {t};
  }

  /** StockEntry.calculate_revenue: the accumulating loop. */
  method CalculateRevenue(weights: map<string, real>, prices: map<string, real>) returns (total: real)
    requires weights.Keys <= prices.Keys
    ensures total == Revenue(weights, prices)
  {
    total := 0.0;
    var rest := weights;
    while exists t :: t in rest
      invariant rest.Keys <= prices.Keys
      invariant total + Revenue(rest, prices) == Revenue(weights, prices)
      decreases |rest|
    {
      var t :| t in rest;
      RevenueRemove(rest, prices, t);
      total := total + rest[t] * prices[t];
      assert |rest - {t}| < |rest| by { assert (rest - {t}).Keys == rest.Keys - {t}; }
      rest := rest - {t};
    }
    assert rest == map[];
  }

  /** Adding a category weight adds that weight times its price. */
  lemma RevenueInsert(weights: map<string, real>, prices: map<string, real>, t: string, w: real)
    requires weights.Keys <= prices.Keys && t in prices && t !in weights
    ensures Revenue(weights[t := w], prices) == w * prices[t] + Revenue(weights, prices)
  {
    var v := weights[t := w];
    calc {
      Revenue(v, prices);
      == { RevenueRemove(v, prices, t); }
      v[t] * prices[t] + Revenue(v - {t}, prices);
      == { Sums.UpdateThenRemove(weights, t, w); }
      w * prices[t] + Revenue(weights, prices);
    }
  }

  /** One Stock row of a store. */
  datatype Stock = Stock(stockNumber: string, createdDay: int, isActive: bool)

  /** The number of the store's most recent stock, by id. */
  function LastNumber(stocks: seq<Stock>): (n: Option<string>)
    ensures n.None? <==> stocks == []
    ensures n.Some? ==> n.value == stocks[|stocks| - 1].stockNumber
  {
    if stocks == [] then None else Some(stocks[|stocks| - 1].stockNumber)
  }

  /** The Stock rows of one store, in id order. */
  class StoreStocks {
    const storeId: nat
    var stocks: seq<Stock>

    constructor (storeId: nat)
      ensures this.storeId == storeId && stocks == []
    {
      this.storeId := storeId;
      stocks := [];
    }

    /** Stock.objects.create(store=...): Stock.save numbers the new stock
        after the store's most recent one; it starts active. */
    method Create(now: int) returns (created: Stock)
      modifies this
      ensures created == Stock(StockNumbers.NumberOnSave("", storeId, LastNumber(old(stocks))), now, true)
      ensures stocks == old(stocks) + [created]
    {
      var number := StockNumbers.NumberOnSave("", storeId, LastNumber(stocks));
      created := Stock(number, now, true);
      stocks := stocks + [created];
    }

    /** stock.save() on the stored stock at index i after its fields were
        changed to `updated`; Stock.save keeps a number that is already set. */
    method Resave(i: nat, updated: Stock)
      requires i < |stocks|
      modifies this
      ensures stocks == old(stocks)[i := updated.(stockNumber :=
        StockNumbers.NumberOnSave(updated.stockNumber, storeId, LastNumber(old(stocks))))]
    {
      var number := StockNumbers.NumberOnSave(updated.stockNumber, storeId, LastNumber(stocks));
      stocks := stocks[i := updated.(stockNumber := number)];
    }
  }
}
