// Sums over dictionaries. Python's sum() and the accumulating loops of the
// source add up the values of a dict in its iteration order; a Dafny map has
// no order, so the sum is defined by removing an arbitrary key, and
// TotalRemove shows that the key removed does not matter.
module Sums {

  ghost function Total<K>(m: map<K, real>): real
  {
    if exists k :: k in m then
      var k :| k in m;
      m[k] + Total(m - {k})
    else 0.0
  }

  /** Any key can be taken out first: the sum does not depend on the order
      in which the dictionary is walked. */
  lemma {:induction false} TotalRemove<K>(m: map<K, real>, x: K)
    requires x in m
    ensures Total(m) == m[x] + Total(m - {x})
    decreases |m|
  {
    // the key Total itself takes out first
    var k :| k in m && Total(m) == m[k] + Total(m - {k});
    if k != x {
      var mx := m - {x};
      var mk := m - {k};
      assert |mk| < |m| by { assert mk.Keys == m.Keys - {k}; }
      assert x in mk;
      TotalRemove(mk, x);
      assert k in mx;
      assert |mx| < |m| by { assert mx.Keys == m.Keys - {x}; }
      TotalRemove(mx, k);
      assert mk - {x} == mx - {k};
    }
  }

  /** Storing a new key and taking it out again gives back the map. */
  lemma UpdateThenRemove<K, V>(m: map<K, V>, x: K, v: V)
    requires x !in m
    ensures m[x := v] - {x} == m
  {
  }

  /** A sum of non-negative values is non-negative. */
  lemma {:induction false} TotalNonNegative<K>(m: map<K, real>)
    requires forall k :: k in m ==> m[k] >= 0.0
    ensures Total(m) >= 0.0
    decreases |m|
  {
    if exists k :: k in m {
      var k :| k in m;
      TotalRemove(m, k);
      assert |m - {k}| < |m| by { assert (m - {k}).Keys == m.Keys - {k}; }
      TotalNonNegative(m - {k});
    }
  }

  /** The sum of differences is the difference of the sums. */
  lemma {:induction false} TotalSubtract<K>(a: map<K, real>, b: map<K, real>)
    requires a.Keys == b.Keys
    ensures Total(map k | k in a :: a[k] - b[k]) == Total(a) - Total(b)
    decreases |a|
  {
    var d := map k | k in a :: a[k] - b[k];
    if exists k :: k in a {
      var k :| k in a;
      TotalRemove(a, k);
      TotalRemove(b, k);
      TotalRemove(d, k);
      assert |a - {k}| < |a| by { assert (a - {k}).Keys == a.Keys - {k}; }
      assert (a - {k}).Keys == (b - {k}).Keys;
      TotalSubtract(a - {k}, b - {k});
      assert d - {k} == map j | j in a - {k} :: (a - {k})[j] - (b - {k})[j];
    } else {
      assert forall j :: j !in d;
      assert forall j :: j !in b;
    }
  }
}
