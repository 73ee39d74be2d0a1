// Ordering of the entry dates of one stock. The two queries the ledger code
// runs against the database are modelled here as functions over the set of
// dates in use:
//   filter(date__lt=d).order_by('-date').first()  ->  Predecessor(dates, d)
//   filter(date__gt=d).order_by('date')           ->  DatesAfter(dates, d)
// Dates are whole days, so they are plain integers.
module DateOrder {
  import opened Results

  /** Every finite non-empty set of dates has a greatest element. */
  lemma {:induction false} GreatestExists(s: set<int>)
    requires exists w :: w in s
    ensures exists g :: g in s && IsGreatest(s, g)
  {
    var x :| x in s;
    if y :| y in s && y != x {
      var rest := s - {x};
      assert y in rest;
      GreatestExists(rest);
      var g :| g in rest && IsGreatest(rest, g);
      var m := if g < x then x else g;
      forall k | k in s
        ensures k <= m
      {
        if k != x { assert k in rest; }
      }
      assert m in s && IsGreatest(s, m);
    } else {
      assert IsGreatest(s, x);
    }
  }

  /** Every finite non-empty set of dates has a least element. */
  lemma {:induction false} LeastExists(s: set<int>)
    requires exists w :: w in s
    ensures exists l :: l in s && IsLeast(s, l)
  {
    var x :| x in s;
    if y :| y in s && y != x {
      var rest := s - {x};
      assert y in rest;
      LeastExists(rest);
      var l :| l in rest && IsLeast(rest, l);
      var m := if x < l then x else l;
      forall k | k in s
        ensures m <= k
      {
        if k != x { assert k in rest; }
      }
      assert m in s && IsLeast(s, m);
    } else {
      assert IsLeast(s, x);
    }
  }

  predicate IsGreatest(s: set<int>, g: int)
  {
    forall k :: k in s ==> k <= g
  }

  predicate IsLeast(s: set<int>, l: int)
  {
    forall k :: k in s ==> l <= k
  }

  function Greatest(s: set<int>): (g: int)
    requires exists w :: w in s
    ensures g in s && forall k :: k in s ==> k <= g
  {
    GreatestExists(s);
    var g :| g in s && IsGreatest(s, g); g
  }

  function Least(s: set<int>): (l: int)
    requires exists w :: w in s
    ensures l in s && forall k :: k in s ==> l <= k
  {
    LeastExists(s);
    var l :| l in s && IsLeast(s, l); l
  }

  /** The dates strictly before `date`. */
  function Below(dates: set<int>, date: int): set<int>
  {
    set k | k in dates && k < date
  }

  /** The dates strictly after `date`. */
  function Above(dates: set<int>, date: int): set<int>
  {
    set k | k in dates && k > date
  }

  /** The latest date strictly before `date`, if there is one. */
  function Predecessor(dates: set<int>, date: int): (p: Option<int>)
    ensures p.None? <==> forall k :: k in dates ==> date <= k
    ensures p.Some? ==> p.value in dates && p.value < date
    ensures p.Some? ==> forall k :: k in dates && k < date ==> k <= p.value
  {
    var before := Below(dates, date);
    assert forall k :: k in dates && k < date ==> k in before;
    if exists k :: k in before then Some(Greatest(before)) else None
  }

  /** Strictly increasing. */
  predicate Ascending(ds: seq<int>)
  {
    forall i, j :: 0 <= i < j < |ds| ==> ds[i] < ds[j]
  }

  /** The dates of `s` in ascending order. */
  function Sorted(s: set<int>): (ds: seq<int>)
    ensures Ascending(ds)
    ensures forall k :: k in ds <==> k in s
    decreases s
  {
    if exists k :: k in s then
      var first := Least(s);
      assert forall k :: k in s - {first} ==> first < k;
      [first] + Sorted(s - {first})
    else []
  }

  /** The dates strictly after `date`, in ascending order. */
  function DatesAfter(dates: set<int>, date: int): (ds: seq<int>)
    ensures Ascending(ds)
    ensures forall k :: k in ds <==> k in dates && k > date
  {
    Sorted(Above(dates, date))
  }

  /** Walking the later dates one by one: the first is the earliest date
      after `date`, and the rest are the dates after that one. */
  lemma DatesAfterUnfold(dates: set<int>, date: int)
    requires exists k :: k in dates && k > date
    ensures exists k :: k in Above(dates, date)
    ensures var first := Least(Above(dates, date));
      && DatesAfter(dates, date) == [first] + DatesAfter(dates, first)
      && (forall k :: k in dates && date < k < first ==> false)
  {
    var s := Above(dates, date);
    var w :| w in dates && w > date;
    assert w in s;
    var first := Least(s);
    assert s - {first} == Above(dates, first);
  }

  /** Moving the pivot to the earliest later date leaves fewer dates after it. */
  lemma AboveShrinks(dates: set<int>, pivot: int, first: int)
    requires first in Above(dates, pivot) && IsLeast(Above(dates, pivot), first)
    ensures |Above(dates, first)| < |Above(dates, pivot)|
  {
    assert Above(dates, first) == Above(dates, pivot) - {first};
  }

  /** Predecessor looks only at the dates before `date`. */
  lemma PredecessorOfSameBelow(d1: set<int>, d2: set<int>, date: int)
    requires Below(d1, date) == Below(d2, date)
    ensures Predecessor(d1, date) == Predecessor(d2, date)
  {
  }
}
