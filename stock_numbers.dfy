// Stock numbers "STK-<store id>-<nnnn>" as Stock.save builds them
// (scrap_business/core/models.py:54-69), with the pieces of Python it relies
// on: str.split('-')[-1], int() on a string, and the format spec '04d'.
module StockNumbers {
  import opened Results

  predicate IsDigit(c: char)
  {
    '0' <= c <= '9'
  }

  predicate AllDigits(s: string)
  {
    forall i :: 0 <= i < |s| ==> IsDigit(s[i])
  }

  function DigitValue(c: char): (d: nat)
    requires IsDigit(c)
    ensures d < 10
  {
    (c as int) - ('0' as int)
  }

  function DigitChar(d: nat): (c: char)
    requires d < 10
    ensures IsDigit(c) && DigitValue(c) == d
  {
    (('0' as int) + d) as char
  }

  /** str(n) for n >= 0: decimal digits, no leading zeros. */
  function Decimal(n: nat): (s: string)
    ensures |s| >= 1 && AllDigits(s)
    ensures n >= 10 ==> |s| >= 2
  {
    if n < 10 then [DigitChar(n)] else Decimal(n / 10) + [DigitChar(n % 10)]
  }

  /** The value of a string of decimal digits, most significant first. */
  function DigitsValue(s: string): nat
    requires AllDigits(s)
  {
    if s == [] then 0 else DigitsValue(s[..|s| - 1]) * 10 + DigitValue(s[|s| - 1])
  }

  function Zeros(k: nat): (s: string)
    ensures |s| == k && AllDigits(s)
  {
    seq(k, _ => '0')
  }

  /** Prefix zeros until the string is `width` characters long. */
  function ZeroFill(s: string, width: nat): (r: string)
    ensures |r| >= width && |r| >= |s|
    ensures AllDigits(s) ==> AllDigits(r)
  {
    if |s| < width then
      var z := Zeros(width - |s|) + s;
      assert AllDigits(s) ==> AllDigits(z) by {
        if AllDigits(s) {
          forall i | 0 <= i < |z| ensures IsDigit(z[i]) {
            if i >= width - |s| { assert z[i] == s[i - (width - |s|)]; }
          }
        }
      }
      z
    else s
  }

  /** format(n, '04d'): at least four characters, zero-filled after any sign. */
  function Padded4(n: int): (r: string)
    ensures n >= 0 ==> |r| >= 4 && AllDigits(r)
    ensures n < 0 ==> |r| >= 4 && r[0] == '-' && AllDigits(r[1..])
  {
    if n >= 0 then ZeroFill(Decimal(n), 4) else "-" + ZeroFill(Decimal(-n), 3)
  }

  /** s.split('-')[-1]: the text after the last hyphen, or all of s. */
  function LastSegment(s: string): (r: string)
    ensures '-' !in r
  {
    if s == [] || s[|s| - 1] == '-' then [] else LastSegment(s[..|s| - 1]) + [s[|s| - 1]]
  }

  /** The last segment is a suffix of s and, unless it is all of s, comes
      right after a hyphen. */
  lemma {:induction false} LastSegmentFollowsHyphen(s: string)
    ensures var r := LastSegment(s);
      && |r| <= |s| && r == s[|s| - |r|..]
      && (|r| < |s| ==> s[|s| - |r| - 1] == '-')
  {
    if s != [] && s[|s| - 1] != '-' {
      var prior := s[..|s| - 1];
      LastSegmentFollowsHyphen(prior);
      var q := LastSegment(prior);
      var r := LastSegment(s);
      assert r == q + [s[|s| - 1]];
      assert r == s[|s| - |r|..] by {
        assert prior[|prior| - |q|..] + [s[|s| - 1]] == s[|s| - |r|..];
      }
      if |r| < |s| { assert s[|s| - |r| - 1] == prior[|prior| - |q| - 1]; }
    }
  }

  /** The ASCII characters Python's int() strips around a number: space,
      tab, line feed, vertical tab, form feed and carriage return. */
  predicate IsSpace(c: char)
  {
    c == ' ' || 9 <= c as int <= 13
  }

  function StripLeft(s: string): (r: string)
    ensures (forall i :: 0 <= i < |s| ==> IsSpace(s[i])) ==> r == []
  {
    if s != [] && IsSpace(s[0]) then StripLeft(s[1..]) else s
  }

  function StripRight(s: string): (r: string)
    ensures |r| <= |s| && r == s[..|r|]
    ensures s != [] && !IsSpace(s[0]) ==> r != []
  {
    if s != [] && IsSpace(s[|s| - 1]) then StripRight(s[..|s| - 1]) else s
  }

  /** Digits, with single underscores allowed between two digits. */
  predicate WellGrouped(s: string)
  {
    && |s| >= 1
    && IsDigit(s[0]) && IsDigit(s[|s| - 1])
    && (forall i :: 0 <= i < |s| ==> IsDigit(s[i]) || s[i] == '_')
    && (forall i :: 0 <= i < |s| - 1 && s[i] == '_' ==> s[i + 1] != '_')
  }

  function DropUnderscores(s: string): (r: string)
    requires forall i :: 0 <= i < |s| ==> IsDigit(s[i]) || s[i] == '_'
    ensures AllDigits(r)
  {
    if s == [] then []
    else (if s[0] == '_' then [] else [s[0]]) + DropUnderscores(s[1..])
  }

  /** int(s) for a str s: None where Python raises ValueError. */
  function ParseInt(s: string): (r: Option<int>)
    ensures (forall i :: 0 <= i < |s| ==> IsSpace(s[i])) ==> r.None?
    ensures s != [] && !IsSpace(s[0]) && !IsDigit(s[0]) && s[0] != '+' && s[0] != '-' ==> r.None?
  {
    var t := StripRight(StripLeft(s));
    var signed := t != [] && (t[0] == '+' || t[0] == '-');
    var body := if signed then t[1..] else t;
    if WellGrouped(body) then
      var v: int := DigitsValue(DropUnderscores(body));
      Some(if signed && t[0] == '-' then -v else v)
    else None
  }

  /** The number a store's n-th stock gets. */
  function StockNumber(storeId: nat, n: int): (r: string)
    ensures n >= 0 ==> LastSegment(r) == Padded4(n)
  {
    var p := Padded4(n);
    var r := "STK-" + Decimal(storeId) + "-" + p;
    if n >= 0 then
      assert '-' !in p by {
        forall i | 0 <= i < |p| ensures p[i] != '-' {
          assert IsDigit(p[i]);
        }
      }
      LastSegmentAfterHyphen("STK-" + Decimal(storeId), p);
      r
    else
      r
  }

  /** The number Stock.save gives a new stock of the store, given the number
      of the store's most recent stock, if any. */
  function NextStockNumber(storeId: nat, last: Option<string>): (r: string)
    ensures last.None? ==> r == StockNumber(storeId, 1)
    ensures last.Some? && ParseInt(LastSegment(last.value)).None? ==> r == StockNumber(storeId, 1)
    ensures last.Some? && ParseInt(LastSegment(last.value)).Some? ==>
      r == StockNumber(storeId, ParseInt(LastSegment(last.value)).value + 1)
  {
    if last.Some? && ParseInt(LastSegment(last.value)).Some? then
      StockNumber(storeId, ParseInt(LastSegment(last.value)).value + 1)
    else
      StockNumber(storeId, 1)
  }

  /** Stock.save: a number already set is kept, an empty one is generated. */
  function NumberOnSave(current: string, storeId: nat, last: Option<string>): (r: string)
    ensures current != "" ==> r == current
    ensures current == "" ==> r == NextStockNumber(storeId, last)
  {
    if current != "" then current else NextStockNumber(storeId, last)
  }


  lemma {:induction false} DecimalValue(n: nat)
    ensures DigitsValue(Decimal(n)) == n
  {
    if n >= 10 {
      DecimalValue(n / 10);
      var s := Decimal(n / 10) + [DigitChar(n % 10)];
      assert s[..|s| - 1] == Decimal(n / 10);
    }
  }

  lemma {:induction false} ZerosValue(k: nat)
    ensures DigitsValue(Zeros(k)) == 0
  {
    if k > 0 {
      assert Zeros(k)[..k - 1] == Zeros(k - 1);
      ZerosValue(k - 1);
    }
  }

  /** Leading zeros do not change the value. */
  lemma {:induction false} LeadingZerosValue(k: nat, s: string)
    requires AllDigits(s)
    ensures DigitsValue(Zeros(k) + s) == DigitsValue(s)
  {
    if s == [] {
      assert Zeros(k) + s == Zeros(k);
      ZerosValue(k);
    } else {
      var z := Zeros(k) + s;
      assert z[..|z| - 1] == Zeros(k) + s[..|s| - 1];
      LeadingZerosValue(k, s[..|s| - 1]);
    }
  }

  lemma {:induction false} DropUnderscoresOfDigits(s: string)
    requires AllDigits(s)
    ensures DropUnderscores(s) == s
  {
    if s != [] {
      DropUnderscoresOfDigits(s[1..]);
    }
  }

  /** int() on plain digits is their value. */
  lemma ParseDigitsOnly(s: string)
    requires |s| >= 1 && AllDigits(s)
    ensures ParseInt(s) == Some(DigitsValue(s) as int)
  {
    assert IsDigit(s[0]) && IsDigit(s[|s| - 1]);
    assert StripLeft(s) == s;
    assert StripRight(s) == s;
    assert WellGrouped(s);
    DropUnderscoresOfDigits(s);
  }

  /** int() reads back what '04d' wrote. */
  lemma PaddedRoundTrip(n: nat)
    ensures ParseInt(Padded4(n)) == Some(n)
  {
    var d := Decimal(n);
    ParseDigitsOnly(Padded4(n));
    DecimalValue(n);
    if |d| < 4 {
      LeadingZerosValue(4 - |d|, d);
    }
  }

  /** Splitting on '-' gives back whatever followed the last hyphen. */
  lemma {:induction false} LastSegmentAfterHyphen(a: string, b: string)
    requires '-' !in b
    ensures LastSegment(a + "-" + b) == b
  {
    if b != [] {
      var s := a + "-" + b;
      assert s[..|s| - 1] == a + "-" + b[..|b| - 1];
      LastSegmentAfterHyphen(a, b[..|b| - 1]);
    } else {
      assert a + "-" + b == a + "-";
    }
  }

  /** After stock n the store's next stock is stock n + 1. */
  lemma NextAfter(storeId: nat, n: nat)
    ensures NextStockNumber(storeId, Some(StockNumber(storeId, n))) == StockNumber(storeId, n + 1)
  {
    var number := StockNumber(storeId, n);
    assert ParseInt(LastSegment(number)) == Some(n) by {
      PaddedRoundTrip(n);
    }
  }

  /** The most recent of the numbers issued so far, if any: what
      `Models.LastNumber` reads off the stock rows, here on the bare numbers
      a fresh store is issued. */
  function Latest(ns: seq<string>): (n: Option<string>)
    ensures n.None? <==> ns == []
    ensures n.Some? ==> n.value == ns[|ns| - 1]
  {
    if ns == [] then None else Some(ns[|ns| - 1])
  }

  /** The numbers of k stocks created one after another for a store that
      had none. */
  function Issued(storeId: nat, k: nat): (ns: seq<string>)
    ensures |ns| == k
  {
    if k == 0 then []
    else
      var prior := Issued(storeId, k - 1);
      prior + [NextStockNumber(storeId, Latest(prior))]
  }

  /** A fresh store's stocks are numbered 0001, 0002, ... in order. */
  lemma IssuedInOrder(storeId: nat, k: nat)
    ensures forall i :: 0 <= i < k ==> Issued(storeId, k)[i] == StockNumber(storeId, i + 1)
  {
    forall i | 0 <= i < k ensures Issued(storeId, k)[i] == StockNumber(storeId, i + 1) {
      IssuedAt(storeId, k, i);
    }
  }

  /** The i-th stock (from 0) of a fresh store gets number i + 1. */
  lemma {:induction false} IssuedAt(storeId: nat, k: nat, i: nat)
    requires i < k
    ensures Issued(storeId, k)[i] == StockNumber(storeId, i + 1)
  {
    var prior := Issued(storeId, k - 1);
    if i < k - 1 {
      IssuedAt(storeId, k - 1, i);
      assert Issued(storeId, k)[i] == prior[i];
    } else if k > 1 {
      var last := StockNumber(storeId, k - 1);
      assert Latest(prior) == Some(last) by { IssuedAt(storeId, k - 1, k - 2); }
      NextAfter(storeId, k - 1);
    }
  }

  /** Different stock positions get different numbers. */
  lemma StockNumberInjective(storeId: nat, i: nat, j: nat)
    requires StockNumber(storeId, i) == StockNumber(storeId, j)
    ensures i == j
  {
    PaddedRoundTrip(i);
    PaddedRoundTrip(j);
  }

  /** So the numbers a fresh store is issued are pairwise distinct, as the
      unique constraint on stock_number needs. */
  lemma IssuedDistinct(storeId: nat, k: nat)
    ensures forall i, j :: 0 <= i < j < k ==> Issued(storeId, k)[i] != Issued(storeId, k)[j]
  {
    forall i, j | 0 <= i < j < k
      ensures Issued(storeId, k)[i] != Issued(storeId, k)[j]
    {
      IssuedPairDiffers(storeId, k, i, j);
    }
  }

  lemma IssuedPairDiffers(storeId: nat, k: nat, i: nat, j: nat)
    requires i < j < k
    ensures Issued(storeId, k)[i] != Issued(storeId, k)[j]
  {
    IssuedInOrder(storeId, k);
    StockNumbersDiffer(storeId, i + 1, j + 1);
  }

  lemma StockNumbersDiffer(storeId: nat, a: nat, b: nat)
    requires a != b
    ensures StockNumber(storeId, a) != StockNumber(storeId, b)
  {
    if StockNumber(storeId, a) == StockNumber(storeId, b) {
      StockNumberInjective(storeId, a, b);
    }
  }
}
