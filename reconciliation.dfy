// The running-balance chain of one stock's entries: every entry's amount
// given is its entered amount plus the balance of the entry before it, and
// its amount used is what was given minus its balance, never negative. The
// lemmas here show which of the ledger operations of Views keep that chain
// and what they do to the balances the user asked for.
module Reconciliation {
  import opened Results
  import opened DateOrder
  import opened Models
  import opened Views

  /** The entry dated d is what the save hook derives against the entries
      stored before it. */
  predicate Linked(entries: map<int, Entry>, d: int)
    requires d in entries
  {
    var e := entries[d];
    && e.amountGiven == e.enteredAmountGiven + PredBalance(entries, d)
    && e.amountUsed >= 0.0
    && e.amountUsed == e.amountGiven - e.balance
  }

  /** Every entry of the stock is linked to its predecessor. */
  predicate Chained(entries: map<int, Entry>)
  {
    forall d :: d in entries ==> Linked(entries, d)
  }

  /** Two stores hold the same entries before `date`. */
  predicate AgreeBefore(m1: map<int, Entry>, m2: map<int, Entry>, date: int)
  {
    && (forall k :: k in m1 && k < date ==> k in m2 && m1[k] == m2[k])
    && (forall k :: k in m2 && k < date ==> k in m1)
  }

  /** The predecessor's balance depends only on the entries before. */
  lemma PredBalanceAgree(m1: map<int, Entry>, m2: map<int, Entry>, date: int)
    requires AgreeBefore(m1, m2, date)
    ensures PredBalance(m1, date) == PredBalance(m2, date)
  {
    assert Below(m1.Keys, date) == Below(m2.Keys, date);
    PredecessorOfSameBelow(m1.Keys, m2.Keys, date);
  }

  /** So whether an entry is linked depends only on it and the entries
      before it. */
  lemma LinkedAgree(m1: map<int, Entry>, m2: map<int, Entry>, d: int)
    requires d in m1 && d in m2 && m1[d] == m2[d]
    requires AgreeBefore(m1, m2, d)
    ensures Linked(m1, d) <==> Linked(m2, d)
  {
    PredBalanceAgree(m1, m2, d);
  }

  /** The save hook links the entry it stores. */
  lemma SavedLinks(entries: map<int, Entry>, date: int, weights: map<string, real>,
                   entered: Option<real>, balance: Option<real>)
    ensures var m := entries[date := Saved(entries, date, weights, entered, balance)];
      date in m && Linked(m, date)
  {
    var m := entries[date := Saved(entries, date, weights, entered, balance)];
    assert AgreeBefore(m, entries, date);
    PredBalanceAgree(m, entries, date);
  }

  /** Storing an entry dated `date` keeps linked every entry before it. */
  lemma StoreKeepsEarlier(entries: map<int, Entry>, date: int, e: Entry, k: int)
    requires k in entries && k < date && Linked(entries, k)
    ensures Linked(entries[date := e], k)
  {
    LinkedAgree(entries[date := e], entries, k);
  }

  /** A cascade over later dates leaves the entries up to `date` as they
      were. */
  lemma CascadeKeepsUpTo(entries: map<int, Entry>, dates: seq<int>, running: real, date: int)
    requires forall d :: d in dates ==> d in entries && date < d
    ensures var r := CascadeOver(entries, dates, running);
      && AgreeBefore(r, entries, date)
      && (date in entries ==> date in r && r[date] == entries[date])
  {
  }

  /** The first entry the cascade walks ends up linked. */
  lemma HeadLinked(entries: map<int, Entry>, dates: seq<int>, running: real)
    requires dates != [] && Ascending(dates)
    requires forall d :: d in dates ==> d in entries
    ensures Linked(CascadeOver(entries, dates, running), dates[0])
  {
    var d0 := dates[0];
    var saved := CascadeStep(entries, d0, running);
    var m1 := entries[d0 := saved];
    var tail := dates[1..];
    assert forall d :: d in tail ==> d in m1 && d0 < d by {
      forall d | d in tail ensures d0 < d {
        var j :| 0 <= j < |tail| && tail[j] == d;
        assert dates[j + 1] == d;
      }
    }
    assert Linked(m1, d0) by {
      assert AgreeBefore(m1, entries, d0);
      PredBalanceAgree(m1, entries, d0);
    }
    var r := CascadeOver(m1, tail, saved.balance);
    assert r == CascadeOver(entries, dates, running) by {
      CascadeOverUnfold(entries, dates, running);
    }
    CascadeKeepsUpTo(m1, tail, saved.balance, d0);
    LinkedAgree(r, m1, d0);
  }

  /** The cascade links every entry it walks, whatever balance it starts from. */
  lemma {:induction false} CascadeLinks(entries: map<int, Entry>, dates: seq<int>, running: real)
    requires Ascending(dates)
    requires forall d :: d in dates ==> d in entries
    ensures forall d :: d in dates ==> Linked(CascadeOver(entries, dates, running), d)
    decreases |dates|
  {
    if dates != [] {
      var r := CascadeOver(entries, dates, running);
      assert Linked(r, dates[0]) by {
        HeadLinked(entries, dates, running);
      }
      assert forall d :: d in dates[1..] ==> Linked(r, d) by {
        var saved := CascadeStep(entries, dates[0], running);
        var m1 := entries[dates[0] := saved];
        var tail := dates[1..];
        assert Ascending(tail) && forall d :: d in tail ==> d in m1 by {
          forall d | d in tail ensures d in m1 {
            var j :| 0 <= j < |tail| && tail[j] == d;
            assert dates[j + 1] == d;
          }
        }
        assert r == CascadeOver(m1, tail, saved.balance) by {
          CascadeOverUnfold(entries, dates, running);
        }
        CascadeLinks(m1, tail, saved.balance);
      }
      forall d | d in dates ensures Linked(r, d) {
        if d != dates[0] {
          var j :| 0 <= j < |dates| && dates[j] == d;
          assert dates[1..][j - 1] == d;
        }
      }
    }
  }

  /** The latest date before `date` is p when nothing lies between them. */
  lemma PredecessorIs(dates: set<int>, date: int, p: int)
    requires p in dates && p < date
    requires forall k :: k in dates && p < k < date ==> false
    ensures Predecessor(dates, date) == Some(p)
  {
    var q := Predecessor(dates, date);
    assert q.Some?;
    assert q.value <= p;
  }

  /** With no entry strictly between pivot and `first`, the entry before
      `first` is the latest one up to the pivot. */
  lemma PredBalanceAcrossGap(entries: map<int, Entry>, pivot: int, first: int)
    requires first > pivot
    requires forall k :: k in entries && pivot < k < first ==> false
    ensures PredBalance(entries, first) == PredBalance(entries, pivot + 1)
  {
    assert Below(entries.Keys, first) == Below(entries.Keys, pivot + 1);
    PredecessorOfSameBelow(entries.Keys, entries.Keys, first);
  }

  /** One cascade step on `first`, the earliest entry after the pivot. */
  lemma ReconciledStep(entries: map<int, Entry>, pivot: int, first: int)
    requires first in entries && first > pivot
    requires DatesAfter(entries.Keys, pivot) == [first] + DatesAfter(entries.Keys, first)
    ensures var saved := CascadeStep(entries, first, PredBalance(entries, pivot + 1));
      Reconciled(entries, pivot) == Reconciled(entries[first := saved], first)
  {
    var seed := PredBalance(entries, pivot + 1);
    var saved := CascadeStep(entries, first, seed);
    var m1 := entries[first := saved];
    var dates := DatesAfter(entries.Keys, pivot);
    assert PredBalance(m1, first + 1) == saved.balance by {
      PredecessorIs(m1.Keys, first + 1, first);
    }
    assert dates[0] == first && dates[1..] == DatesAfter(m1.Keys, first) by {
      assert m1.Keys == entries.Keys;
    }
    CascadeOverUnfold(entries, dates, seed);
  }

  /** Reconciling after `pivot` is one cascade step on the first later entry
      followed by reconciling after that entry. */
  lemma ReconciledUnfold(entries: map<int, Entry>, pivot: int)
    requires exists k :: k in entries && k > pivot
    ensures exists k :: k in Above(entries.Keys, pivot)
    ensures var first := Least(Above(entries.Keys, pivot));
      && first in entries && first > pivot
      && PredBalance(entries, first) == PredBalance(entries, pivot + 1)
      && var saved := CascadeStep(entries, first, PredBalance(entries, pivot + 1));
         Reconciled(entries, pivot) == Reconciled(entries[first := saved], first)
  {
    DatesAfterUnfold(entries.Keys, pivot);
    var first := Least(Above(entries.Keys, pivot));
    PredBalanceAcrossGap(entries, pivot, first);
    ReconciledStep(entries, pivot, first);
  }

  /** The entry keeps the balance asked for, lowered to its amount given
      when it exceeds it. */
  predicate KeptRequest(before: Entry, after: Entry)
  {
    after.balance == (if before.balance <= after.amountGiven then before.balance else after.amountGiven)
  }

  /** A cascade step started from the true predecessor balance keeps the
      entry's balance unless it exceeds the amount given. */
  lemma StepKeepsRequest(entries: map<int, Entry>, d: int, running: real)
    requires d in entries && running == PredBalance(entries, d)
    ensures KeptRequest(entries[d], CascadeStep(entries, d, running))
  {
  }

  /** After reconciling, every entry past the pivot keeps the balance it
      held, except that a balance above the entry's amount given is lowered
      to it. */
  lemma {:induction false} ReconciledBalances(entries: map<int, Entry>, pivot: int)
    ensures forall k :: k in entries && k > pivot ==> KeptRequest(entries[k], Reconciled(entries, pivot)[k])
    decreases |Above(entries.Keys, pivot)|
  {
    if exists k :: k in entries && k > pivot {
      assert exists k :: k in Above(entries.Keys, pivot) by {
        var w :| w in entries && w > pivot;
        assert w in Above(entries.Keys, pivot);
      }
      var first := Least(Above(entries.Keys, pivot));
      var saved := CascadeStep(entries, first, PredBalance(entries, pivot + 1));
      var m1 := entries[first := saved];
      var r := Reconciled(m1, first);
      assert first in entries && first > pivot && KeptRequest(entries[first], saved)
        && Reconciled(entries, pivot) == r by {
        ReconciledUnfold(entries, pivot);
        StepKeepsRequest(entries, first, PredBalance(entries, pivot + 1));
      }
      assert |Above(m1.Keys, first)| < |Above(entries.Keys, pivot)| by {
        assert m1.Keys == entries.Keys;
        AboveShrinks(entries.Keys, pivot, first);
      }
      ReconciledBalances(m1, first);
      forall k | k in entries && k > pivot
        ensures KeptRequest(entries[k], r[k])
      {
        if k == first {
          assert r[k] == saved;
        } else {
          assert k in Above(entries.Keys, pivot);
          assert m1[k] == entries[k];
        }
      }
    }
  }

  /** Reconciling after `pivot` chains the whole stock when the entries up
      to the pivot are already linked; the entries up to the pivot are left
      as they were. */
  lemma ReconciledChained(entries: map<int, Entry>, pivot: int)
    requires forall k :: k in entries && k <= pivot ==> Linked(entries, k)
    ensures Chained(Reconciled(entries, pivot))
  {
    var r := Reconciled(entries, pivot);
    var dates := DatesAfter(entries.Keys, pivot);
    CascadeLinks(entries, dates, PredBalance(entries, pivot + 1));
    forall k | k in r ensures Linked(r, k) {
      if k <= pivot {
        assert AgreeBefore(r, entries, k);
        LinkedAgree(r, entries, k);
      } else {
        assert k in dates;
      }
    }
  }

  /** The delete branch of edit_entry reconciles after the deleted date. */
  lemma DeletedIsReconciled(entries: map<int, Entry>, date: int)
    ensures Deleted(entries, date) == Reconciled(entries - {date}, date)
  {
    var rest := entries - {date};
    assert Below(rest.Keys, date) == Below(rest.Keys, date + 1);
    PredecessorOfSameBelow(rest.Keys, rest.Keys, date);
    PredecessorOfSameBelow(rest.Keys, rest.Keys, date + 1);
  }

  /** Removing an entry leaves the earlier entries of a chained stock
      linked. */
  lemma RestLinkedBefore(entries: map<int, Entry>, date: int)
    requires Chained(entries)
    ensures forall k :: k in entries - {date} && k <= date ==> Linked(entries - {date}, k)
  {
    var rest := entries - {date};
    forall k | k in rest && k <= date ensures Linked(rest, k) {
      assert AgreeBefore(rest, entries, k);
      LinkedAgree(rest, entries, k);
    }
  }

  /** Reconciling after `pivot` a store whose entries up to `pivot` are
      linked chains it and keeps what each later entry asked for. */
  lemma ReconciledKeeps(entries: map<int, Entry>, pivot: int)
    requires forall k :: k in entries && k <= pivot ==> Linked(entries, k)
    ensures Chained(Reconciled(entries, pivot))
    ensures forall k :: k in entries && k > pivot ==> KeptRequest(entries[k], Reconciled(entries, pivot)[k])
  {
    ReconciledChained(entries, pivot);
    ReconciledBalances(entries, pivot);
  }

  /** Deleting an entry keeps the stock chained: the entries before it are
      untouched, the later ones are relinked to the entry before the deleted
      one and keep their balances unless a balance exceeds the new amount
      given. */
  lemma DeleteKeepsChain(entries: map<int, Entry>, date: int)
    requires Chained(entries)
    ensures var r := Deleted(entries, date);
      && Chained(r)
      && (forall k :: k in entries && k < date ==> r[k] == entries[k])
      && (forall k :: k in entries && k > date ==> KeptRequest(entries[k], r[k]))
  {
    var rest := entries - {date};
    var r := Deleted(entries, date);
    DeletedIsReconciled(entries, date);
    RestLinkedBefore(entries, date);
    ReconciledKeeps(rest, date);
    assert forall k :: k in entries && k != date ==> k in rest && rest[k] == entries[k];
  }

  /** Even as written, the edit branch keeps every entry linked: the entries
      up to the submitted date are untouched, and the cascade relinks the
      later ones (against the stored predecessors, not the submitted
      balance). */
  lemma EditAsWrittenKeepsChain(entries: map<int, Entry>, form: EditForm)
    requires Chained(entries)
    ensures Chained(EditedAsWritten(entries, form))
  {
    var r := EditedAsWritten(entries, form);
    var dates := DatesAfter(entries.Keys, form.date);
    CascadeLinks(entries, dates, form.balance);
    forall k | k in r ensures Linked(r, k) {
      if k <= form.date {
        assert AgreeBefore(r, entries, k);
        LinkedAgree(r, entries, k);
      } else {
        assert k in dates;
      }
    }
  }

  /** A chained stock: entry 1 took 100 and closed at 80, entry 5 took 50
      more on top of those 80 and closed at 100. */
  function TwoEntries(): map<int, Entry>
  {
    map[1 := Entry(map[], 100.0, 100.0, 80.0, 20.0), 5 := Entry(map[], 50.0, 130.0, 100.0, 30.0)]
  }

  /** Editing entry 1 to 120 given and 10 left, as written: entry 1 is not
      changed at all, yet entry 5's balance drops from 100 to 60, a value
      computed from the unsaved balance of 10 while its amount given is
      still computed from the stored 80. */
  lemma EditIsLost()
    ensures var m := TwoEntries();
      var r := EditedAsWritten(m, EditForm(1, 120.0, 10.0, map[]));
      && r[1] == m[1]
      && r[5].amountGiven == 130.0 && r[5].balance == 60.0 && m[5].balance == 100.0
  {
    var m := TwoEntries();
    assert m.Keys == {1, 5};
    assert DatesAfter(m.Keys, 1) == [5] by {
      DatesAfterUnfold(m.Keys, 1);
      assert Above(m.Keys, 1) == {5};
      assert Above(m.Keys, 5) == {};
    }
    assert PredBalance(m, 5) == 80.0 by {
      PredecessorIs(m.Keys, 5, 1);
    }
    var saved := CascadeStep(m, 5, 10.0);
    assert saved.amountGiven == 130.0 && saved.balance == 60.0;
    var r := EditedAsWritten(m, EditForm(1, 120.0, 10.0, map[]));
    assert r == m[5 := saved] by {
      CascadeOverUnfold(m, [5], 10.0);
    }
  }

  /** The edit as intended keeps the stock chained and stores what was
      submitted: the edited entry has the submitted amount and weights under
      the submitted date, and its balance is the submitted one unless that
      exceeds its amount given; entries before both dates are untouched. */
  lemma EditPersistedKeepsChain(entries: map<int, Entry>, date: int, form: EditForm, r: map<int, Entry>)
    requires date in entries && Chained(entries)
    requires EditedPersisted(entries, date, form) == Success(r)
    ensures && Chained(r)
      && form.date in r
      && r[form.date].enteredAmountGiven == form.enteredAmountGiven
      && r[form.date].weights == form.weights
      && r[form.date].balance == (if form.balance <= r[form.date].amountGiven then form.balance else r[form.date].amountGiven)
      && (forall k :: k in entries && k < date && k < form.date ==> r[k] == entries[k])
  {
    var raw := Entry(form.weights, form.enteredAmountGiven, 0.0, form.balance, 0.0);
    var stored := Moved(entries, date, form);
    var from := Earlier(form.date, date);
    assert forall k :: k in stored && k < from ==> Linked(stored, k) by {
      forall k | k in stored && k < from ensures Linked(stored, k) {
        MovedKeepsEarlier(entries, date, form.date, raw, k);
      }
    }
    EditedPersistedIs(entries, date, form, r);
    RelocatedKeeps(entries, date, form);
    assert form.date in stored && stored[form.date] == raw;
    forall k | k in entries && k < date && k < form.date ensures r[k] == entries[k] {
      MovedKeepsOthers(entries, date, form, k);
    }
  }

  /** Moving an entry leaves every other entry as it was. */
  lemma MovedKeepsOthers(entries: map<int, Entry>, date: int, form: EditForm, k: int)
    requires k in entries && k != date && k != form.date
    ensures k in Moved(entries, date, form) && Moved(entries, date, form)[k] == entries[k]
  {
    assert (entries - {date})[k] == entries[k];
  }

  /** The intended edit reconciles after the day before the earlier of the
      old and new dates, so it chains the store and keeps what each later
      entry asked for. */
  lemma RelocatedKeeps(entries: map<int, Entry>, date: int, form: EditForm)
    requires forall k :: k in Moved(entries, date, form) && k < Earlier(form.date, date) ==> Linked(Moved(entries, date, form), k)
    ensures Chained(Relocated(entries, date, form))
    ensures forall k :: k in Moved(entries, date, form) && k >= Earlier(form.date, date) ==>
      KeptRequest(Moved(entries, date, form)[k], Relocated(entries, date, form)[k])
  {
    var m := Moved(entries, date, form);
    var pivot := Earlier(form.date, date) - 1;
    var r := Relocated(entries, date, form);
    ReconciledKeeps(m, pivot);
    assert r == Reconciled(m, pivot);
    forall k | k in m && k >= pivot + 1 ensures KeptRequest(m[k], r[k]) {
      assert k > pivot;
    }
  }

  lemma EditedPersistedIs(entries: map<int, Entry>, date: int, form: EditForm, r: map<int, Entry>)
    requires date in entries && EditedPersisted(entries, date, form) == Success(r)
    ensures r == Relocated(entries, date, form)
  {
    assert EditedPersisted(entries, date, form) == Success(Relocated(entries, date, form));
  }

  /** Taking out the entry dated `date` and storing one dated `newDate`
      keeps linked every entry before both. */
  lemma MovedKeepsEarlier(entries: map<int, Entry>, date: int, newDate: int, e: Entry, k: int)
    requires Chained(entries)
    requires k in entries && k < date && k < newDate
    ensures var m := (entries - {date})[newDate := e]; k in m && Linked(m, k)
  {
    var m := (entries - {date})[newDate := e];
    assert AgreeBefore(m, entries, k);
    LinkedAgree(m, entries, k);
  }

  /** add_entry keeps the stock chained when the new entry is the latest. */
  lemma AddLatestKeepsChain(entries: map<int, Entry>, date: int, weights: map<string, real>,
                            entered: Option<real>, balance: Option<real>)
    requires Chained(entries)
    requires forall k :: k in entries ==> k < date
    ensures Chained(entries[date := Saved(entries, date, weights, entered, balance)])
  {
    var e := Saved(entries, date, weights, entered, balance);
    SavedLinks(entries, date, weights, entered, balance);
    forall k | k in entries ensures Linked(entries[date := e], k) {
      StoreKeepsEarlier(entries, date, e, k);
    }
  }

  /** A stock whose only entry, on day 5, took 50 and closed at 40. */
  function LaterEntryOnly(): map<int, Entry>
  {
    map[5 := Entry(map[], 50.0, 50.0, 40.0, 10.0)]
  }

  /** add_entry as written does not relink later entries: adding an entry
      on day 1 that closes at 80 leaves the day-5 entry's amount given at 50
      instead of 50 + 80. */
  lemma AddBeforeLeavesStale()
    ensures Chained(LaterEntryOnly())
    ensures var m := LaterEntryOnly();
      var r := m[1 := Saved(m, 1, map[], Some(100.0), Some(80.0))];
      5 in r && !Linked(r, 5) && r[5] == m[5]
  {
    var m := LaterEntryOnly();
    assert Predecessor(m.Keys, 5).None?;
    var r := m[1 := Saved(m, 1, map[], Some(100.0), Some(80.0))];
    assert Predecessor(m.Keys, 1).None?;
    assert r[1].balance == 80.0;
    assert r.Keys == {1, 5};
    PredecessorIs(r.Keys, 5, 1);
  }

  /** Storing an entry at `date` makes it the one the first later entry
      is carried from. */
  lemma CarriedFromStored(entries: map<int, Entry>, date: int, e: Entry, next: int)
    requires date !in entries && next in entries && date < next
    requires forall k :: k in entries && date < k ==> next <= k
    ensures PredBalance(entries[date := e], next) == e.balance
  {
    var r := entries[date := e];
    assert r.Keys == entries.Keys + {date};
    PredecessorIs(r.Keys, next, date);
    assert r[date] == e;
  }

  /** Storing an entry before `next` leaves linked every entry after it. */
  lemma StoreKeepsBeyond(entries: map<int, Entry>, date: int, e: Entry, next: int, k: int)
    requires date !in entries && next in entries && date < next < k
    requires k in entries && Linked(entries, k)
    ensures Linked(entries[date := e], k)
  {
    var r := entries[date := e];
    var p := Predecessor(entries.Keys, k).value;
    PredecessorIs(r.Keys, k, p);
    assert PredBalance(r, k) == PredBalance(entries, k);
  }

  /** An entry stored before `next`, the first later entry, decides
      whether `next` stays linked: exactly when it closes at the balance
      `next` was carried from. */
  lemma StoreBeforeNext(entries: map<int, Entry>, date: int, e: Entry, next: int)
    requires date !in entries && next in entries && date < next
    requires forall k :: k in entries && date < k ==> next <= k
    requires Linked(entries, next)
    ensures entries[date := e][next] == entries[next]
    ensures Linked(entries[date := e], next) <==> e.balance == PredBalance(entries, next)
  {
    CarriedFromStored(entries, date, e, next);
  }

  /** Storing a linked entry before `next` leaves every entry other than
      `next` linked. */
  lemma StoreBeforeKeepsOthers(entries: map<int, Entry>, date: int, e: Entry, next: int)
    requires Chained(entries) && date !in entries && next in entries && date < next
    requires forall k :: k in entries && date < k ==> next <= k
    requires Linked(entries[date := e], date)
    ensures var r := entries[date := e];
      forall k :: k in r && k != next ==> Linked(r, k)
  {
    var r := entries[date := e];
    forall k | k in r && k != next ensures Linked(r, k) {
      if k < date {
        StoreKeepsEarlier(entries, date, e, k);
      } else if k > date {
        StoreKeepsBeyond(entries, date, e, next, k);
      }
    }
  }

  /** add_entry as written, with the new date before an existing entry:
      the first later entry keeps what it stored, and stays linked exactly
      when the new entry closes at the balance that entry was carried from;
      every other entry stays linked. */
  lemma AddBeforeNext(entries: map<int, Entry>, date: int, weights: map<string, real>,
                      entered: Option<real>, balance: Option<real>, next: int)
    requires Chained(entries) && date !in entries
    requires next in entries && date < next
    requires forall k :: k in entries && date < k ==> next <= k
    ensures var e := Saved(entries, date, weights, entered, balance);
      var r := entries[date := e];
      && r[next] == entries[next]
      && (Linked(r, next) <==> e.balance == PredBalance(entries, next))
      && (forall k :: k in r && k != next ==> Linked(r, k))
  {
    var e := Saved(entries, date, weights, entered, balance);
    StoreBeforeNext(entries, date, e, next);
    SavedLinks(entries, date, weights, entered, balance);
    StoreBeforeKeepsOthers(entries, date, e, next);
  }

  /** add_entry as evidently intended: store the new entry, then relink the
      later entries as the edit branch does. */
  function AddedReconciled(entries: map<int, Entry>, date: int, weights: map<string, real>,
                           entered: Option<real>, balance: Option<real>): (r: map<int, Entry>)
    ensures r.Keys == entries.Keys + {date}
  {
    Reconciled(entries[date := Saved(entries, date, weights, entered, balance)], date)
  }

  /** The intended add keeps the stock chained wherever the new date falls,
      stores the new entry as the save hook derives it, and leaves earlier
      entries untouched. */
  lemma AddReconciledKeepsChain(entries: map<int, Entry>, date: int, weights: map<string, real>,
                                entered: Option<real>, balance: Option<real>)
    requires Chained(entries) && date !in entries
    ensures var r := AddedReconciled(entries, date, weights, entered, balance);
      && Chained(r)
      && r[date] == Saved(entries, date, weights, entered, balance)
      && (forall k :: k in entries && k < date ==> r[k] == entries[k])
      && (forall k :: k in entries && k > date ==> KeptRequest(entries[k], r[k]))
  {
    var e := Saved(entries, date, weights, entered, balance);
    var m := entries[date := e];
    SavedLinks(entries, date, weights, entered, balance);
    forall k | k in m && k <= date ensures Linked(m, k) {
      if k < date {
        StoreKeepsEarlier(entries, date, e, k);
      }
    }
    ReconciledChained(m, date);
    ReconciledBalances(m, date);
  }

  /** The first entry of an empty stock: 100 given and 80 left. */
  lemma FirstEntry()
    ensures var e := Saved(map[], 1, map[], Some(100.0), Some(80.0));
      e.amountGiven == 100.0 && e.balance == 80.0 && e.amountUsed == 20.0
  {
    assert Predecessor({}, 1).None?;
  }

  /** The next entry carries the 80 left over: 50 more given makes 130; a
      balance of 200 asked for is lowered to those 130, nothing used. */
  lemma CarriedBalance()
    ensures var m := map[1 := Entry(map[], 100.0, 100.0, 80.0, 20.0)];
      var e := Saved(m, 5, map[], Some(50.0), Some(200.0));
      e.amountGiven == 130.0 && e.balance == 130.0 && e.amountUsed == 0.0
  {
    var m := map[1 := Entry(map[], 100.0, 100.0, 80.0, 20.0)];
    assert m.Keys == {1};
    PredecessorIs(m.Keys, 5, 1);
  }
}
