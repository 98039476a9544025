/** Calendar dates as Python's `datetime.date` checks them, and their ISO 8601
    calendar form in extended format ("YYYY-MM-DD", `date.isoformat()`). */
module Calendar {
  import opened Base
  import opened Chars
  import opened PyStr

  datatype Date = Date(year: int, month: int, day: int)

  /** Gregorian leap years. */
  predicate IsLeap(y: int)
  {
    y % 4 == 0 && (y % 100 != 0 || y % 400 == 0)
  }

  function DaysInMonth(y: int, m: int): (n: int)
    requires 1 <= m <= 12
    ensures 28 <= n <= 31
  {
    if m == 2 then (if IsLeap(y) then 29 else 28)
    else if m == 4 || m == 6 || m == 9 || m == 11 then 30
    else 31
  }

  /** What `date(y, m, d)` accepts without raising `ValueError`. */
  predicate IsValid(d: Date)
  {
    1 <= d.year <= 9999 && 1 <= d.month <= 12 && 1 <= d.day <= DaysInMonth(d.year, d.month)
  }

  /** `normalize._safe_date`: the date, or None where `date()` raises. */
  function SafeDate(y: int, m: int, d: int): (r: Option<Date>)
    ensures r.Some? <==> IsValid(Date(y, m, d))
    ensures r.Some? ==> r.value == Date(y, m, d)
  {
    if IsValid(Date(y, m, d)) then Some(Date(y, m, d)) else None
  }

  /** Chronological order. */
  predicate Before(a: Date, b: Date)
  {
    a.year < b.year || (a.year == b.year && (a.month < b.month || (a.month == b.month && a.day < b.day)))
  }

  function DigitChar(k: nat): (c: char)
    requires k < 10
    ensures IsDigit(c) && c as int - '0' as int == k
  {
    ('0' as int + k) as char
  }

  /** `n` in decimal, zero-padded (or cut) to `w` digits. */
  function Digits(n: nat, w: nat): (r: string)
    ensures |r| == w
    ensures forall i | 0 <= i < w :: IsDigit(r[i])
  {
    if w == 0 then "" else Digits(n / 10, w - 1) + [DigitChar(n % 10)]
  }

  lemma {:induction false} DigitsValueOf(n: nat, w: nat)
    requires n < Pow10(w)
    ensures DigitsValue(Digits(n, w)) == n
  {
    if w > 0 {
      var r := Digits(n, w);
      assert r[..w - 1] == Digits(n / 10, w - 1);
      DigitsValueOf(n / 10, w - 1);
    }
  }

  /** Writing out the value of a digit string at its own width gives the
      string back: the other half of the round trip. */
  lemma {:induction false} DigitsOfValue(t: string)
    requires forall i | 0 <= i < |t| :: IsDigit(t[i])
    ensures Digits(DigitsValue(t), |t|) == t
    decreases |t|
  {
    if |t| > 0 {
      var u := t[..|t| - 1];
      var n := DigitsValue(t);
      assert n / 10 == DigitsValue(u) && n % 10 == t[|t| - 1] as int - '0' as int;
      DigitsOfValue(u);
      assert t == u + [t[|t| - 1]];
    }
  }

  /** The last two of four digits are the two digits of the value mod 100. */
  lemma DigitsLastTwo(n: nat)
    ensures Digits(n, 4)[2..] == Digits(n % 100, 2)
  {
    var q, t := n / 100, n % 100;
    assert n == 100 * q + t;
    assert n / 10 == 10 * q + t / 10;
    assert (n / 10) % 10 == t / 10;
    assert n % 10 == t % 10;
    assert Digits(n, 4)[2..] == [DigitChar((n / 10) % 10), DigitChar(n % 10)];
    assert Digits(t, 2) == [DigitChar((t / 10) % 10), DigitChar(t % 10)];
  }

  /** Padded decimals of the same width compare as strings the way their
      values compare. */
  lemma {:induction false} DigitsOrder(n: nat, m: nat, w: nat)
    requires n < m < Pow10(w)
    ensures StrLess(Digits(n, w), Digits(m, w))
  {
    assert w > 0;
    var a, b := Digits(n / 10, w - 1), Digits(m / 10, w - 1);
    StrLessConcat(a, b, [DigitChar(n % 10)], [DigitChar(m % 10)]);
    if n / 10 < m / 10 {
      DigitsOrder(n / 10, m / 10, w - 1);
    } else {
      assert n / 10 == m / 10 && n % 10 < m % 10;
    }
  }

  /** The "-MM-DD" part of an ISO date. */
  function MonthDay(m: nat, d: nat): (r: string)
    ensures |r| == 6
  {
    "-" + (Digits(m, 2) + ("-" + Digits(d, 2)))
  }

  /** `date.isoformat()`. */
  function IsoOf(d: Date): (r: string)
    requires IsValid(d)
    ensures |r| == 10 && r[4] == '-' && r[7] == '-'
    ensures forall i | 0 <= i < 10 && i != 4 && i != 7 :: IsDigit(r[i])
  {
    var r := Digits(d.year, 4) + MonthDay(d.month, d.day);
    assert forall i | 0 <= i < 4 :: r[i] == Digits(d.year, 4)[i];
    assert forall i | 5 <= i < 7 :: r[i] == Digits(d.month, 2)[i - 5];
    assert forall i | 8 <= i < 10 :: r[i] == Digits(d.day, 2)[i - 8];
    r
  }

  /** Reads the fields back out of an ISO string: the partner of `IsoOf`. */
  function IsoFields(s: string): (r: Date)
    requires |s| == 10 && forall i | 0 <= i < 10 && i != 4 && i != 7 :: IsDigit(s[i])
  {
    Date(DigitsValue(s[..4]), DigitsValue(s[5..7]), DigitsValue(s[8..]))
  }

  lemma IsoRoundTrip(d: Date)
    requires IsValid(d)
    ensures IsoFields(IsoOf(d)) == d
  {
    var r := IsoOf(d);
    assert r[..4] == Digits(d.year, 4);
    assert r[5..7] == Digits(d.month, 2);
    assert r[8..] == Digits(d.day, 2);
    DigitsValueOf(d.year, 4);
    DigitsValueOf(d.month, 2);
    DigitsValueOf(d.day, 2);
  }

  /** The two-digit fields of an ISO date: the year's last two digits, the
      month and the day. */
  lemma IsoSlices(d: Date)
    requires IsValid(d)
    ensures IsoOf(d)[2..4] == Digits(d.year % 100, 2)
    ensures IsoOf(d)[5..7] == Digits(d.month, 2) && IsoOf(d)[8..10] == Digits(d.day, 2)
  {
    var r := IsoOf(d);
    assert r == Digits(d.year, 4) + MonthDay(d.month, d.day);
    assert r[2..4] == Digits(d.year, 4)[2..];
    DigitsLastTwo(d.year);
    assert r[5..7] == Digits(d.month, 2);
    assert r[8..10] == Digits(d.day, 2);
  }

  lemma IsoInjective(a: Date, b: Date)
    requires IsValid(a) && IsValid(b) && IsoOf(a) == IsoOf(b)
    ensures a == b
  {
    IsoRoundTrip(a);
    IsoRoundTrip(b);
  }

  lemma MonthDayOrder(m1: nat, d1: nat, m2: nat, d2: nat)
    requires m1 < 100 && m2 < 100 && d1 < 100 && d2 < 100
    requires m1 < m2 || (m1 == m2 && d1 < d2)
    ensures StrLess(MonthDay(m1, d1), MonthDay(m2, d2))
  {
    var x1, x2 := Digits(m1, 2) + ("-" + Digits(d1, 2)), Digits(m2, 2) + ("-" + Digits(d2, 2));
    StrLessConcat("-", "-", x1, x2);
    StrLessConcat(Digits(m1, 2), Digits(m2, 2), "-" + Digits(d1, 2), "-" + Digits(d2, 2));
    if m1 < m2 {
      DigitsOrder(m1, m2, 2);
    } else {
      StrLessConcat("-", "-", Digits(d1, 2), Digits(d2, 2));
      DigitsOrder(d1, d2, 2);
    }
  }

  /** ISO strings of valid dates compare as strings the way the dates compare
      in time, which is why sorting them as strings, and comparing them with
      `<`, is chronological. */
  lemma IsoOrder(a: Date, b: Date)
    requires IsValid(a) && IsValid(b) && Before(a, b)
    ensures StrLess(IsoOf(a), IsoOf(b))
  {
    StrLessConcat(Digits(a.year, 4), Digits(b.year, 4), MonthDay(a.month, a.day), MonthDay(b.month, b.day));
    if a.year < b.year {
      DigitsOrder(a.year, b.year, 4);
    } else {
      MonthDayOrder(a.month, a.day, b.month, b.day);
    }
  }

  // ---------------------------------------------------------------------
  // Sorting a set of dates: `sorted(found)`.
  // ---------------------------------------------------------------------

  predicate Ascending(ds: seq<Date>)
  {
    forall i, j | 0 <= i < j < |ds| :: Before(ds[i], ds[j])
  }

  /** Inserts `d` into an ascending sequence, leaving it unchanged when `d`
      is already there. */
  function Insert(ds: seq<Date>, d: Date): (r: seq<Date>)
    requires Ascending(ds)
    ensures Ascending(r)
    ensures forall x :: x in r <==> x in ds || x == d
  {
    if |ds| == 0 then [d]
    else if ds[0] == d then ds
    else if Before(d, ds[0]) then [d] + ds
    else
      var rest := Insert(ds[1..], d);
      assert forall x | x in rest :: Before(ds[0], x) by {
        forall x | x in rest ensures Before(ds[0], x) {
          if x != d { var i :| 0 <= i < |ds[1..]| && ds[1..][i] == x; assert ds[i + 1] == x; }
        }
      }
      [ds[0]] + rest
  }

  /** The distinct dates of `ds` in ascending order. */
  function SortDates(ds: seq<Date>): (r: seq<Date>)
    ensures Ascending(r)
    ensures forall x :: x in r <==> x in ds
  {
    if |ds| == 0 then []
    else
      var r := Insert(SortDates(ds[..|ds| - 1]), ds[|ds| - 1]);
      assert forall x :: x in ds <==> x in ds[..|ds| - 1] || x == ds[|ds| - 1] by {
        assert ds == ds[..|ds| - 1] + [ds[|ds| - 1]];
      }
      r
  }

  /** The head of an ascending sequence comes before every other member. */
  lemma HeadIsLeast(a: seq<Date>, x: Date)
    requires Ascending(a) && x in a
    ensures a[0] == x || Before(a[0], x)
  {
    var i :| 0 <= i < |a| && a[i] == x;
  }

  /** The tail of an ascending sequence holds every member but the head. */
  lemma AscendingTail(a: seq<Date>, x: Date)
    requires Ascending(a) && |a| > 0
    ensures x in a[1..] <==> x in a && x != a[0]
  {
    if x in a[1..] {
      var i :| 0 <= i < |a[1..]| && a[1..][i] == x;
      assert Before(a[0], a[i + 1]);
    }
    if x in a && x != a[0] {
      var j :| 0 <= j < |a| && a[j] == x;
      assert a[1..][j - 1] == x;
    }
  }

  /** An ascending sequence is determined by its elements. */
  lemma {:induction false} AscendingUnique(a: seq<Date>, b: seq<Date>)
    requires Ascending(a) && Ascending(b)
    requires forall x :: x in a <==> x in b
    ensures a == b
    decreases |a|
  {
    SameMembersEmpty(a, b);
    if |a| > 0 {
      HeadIsLeast(a, b[0]);
      HeadIsLeast(b, a[0]);
      assert a[0] == b[0];
      forall x ensures x in a[1..] <==> x in b[1..] {
        AscendingTail(a, x);
        AscendingTail(b, x);
      }
      AscendingUnique(a[1..], b[1..]);
      assert a == [a[0]] + a[1..] && b == [b[0]] + b[1..];
    }
  }

  lemma SameMembersEmpty<T>(a: seq<T>, b: seq<T>)
    requires forall x :: x in a <==> x in b
    ensures |a| == 0 <==> |b| == 0
  {
    if |a| > 0 { assert a[0] in b; }
    if |b| > 0 { assert b[0] in a; }
  }

  /** `[d.isoformat() for d in ds]`. */
  function Isos(ds: seq<Date>): (r: seq<string>)
    requires forall i | 0 <= i < |ds| :: IsValid(ds[i])
    ensures |r| == |ds|
    ensures forall i | 0 <= i < |ds| :: r[i] == IsoOf(ds[i])
  {
    if |ds| == 0 then [] else [IsoOf(ds[0])] + Isos(ds[1..])
  }

  /** A sequence of ISO dates in strictly ascending string order. */
  predicate StrictlyAscending(xs: seq<string>)
  {
    forall i, j | 0 <= i < j < |xs| :: StrLess(xs[i], xs[j])
  }

  lemma IsosAscending(ds: seq<Date>)
    requires forall i | 0 <= i < |ds| :: IsValid(ds[i])
    requires Ascending(ds)
    ensures StrictlyAscending(Isos(ds))
  {
    forall i, j | 0 <= i < j < |ds| ensures StrLess(Isos(ds)[i], Isos(ds)[j]) {
      IsoOrder(ds[i], ds[j]);
    }
  }

  /** Every entry is an ISO string of a valid date. */
  ghost predicate IsIsoDate(s: string)
  {
    exists d: Date :: IsValid(d) && IsoOf(d) == s
  }

  /** `[d.isoformat() for d in sorted(set(ds))]`: the distinct dates of `ds`
      as ISO strings in ascending order. */
  function SortedIsos(ds: seq<Date>): (r: seq<string>)
    requires forall i | 0 <= i < |ds| :: IsValid(ds[i])
    ensures StrictlyAscending(r)
    ensures forall i | 0 <= i < |r| :: IsIsoDate(r[i])
    ensures forall d :: d in ds <==> IsValid(d) && IsoOf(d) in r
  {
    var sorted := SortDates(ds);
    assert forall i | 0 <= i < |sorted| :: IsValid(sorted[i]) by {
      forall i | 0 <= i < |sorted| ensures IsValid(sorted[i]) {
        assert sorted[i] in ds;
      }
    }
    IsosAscending(sorted);
    var r := Isos(sorted);
    forall d ensures d in ds <==> IsValid(d) && IsoOf(d) in r {
      if IsValid(d) && IsoOf(d) in r {
        var i :| 0 <= i < |r| && r[i] == IsoOf(d);
        IsoInjective(sorted[i], d);
      }
      if d in ds {
        var i :| 0 <= i < |sorted| && sorted[i] == d;
        assert r[i] == IsoOf(d);
      }
    }
    r
  }

  /** Any ascending arrangement of the same dates gives `SortedIsos`. */
  lemma SortedIsosOf(ds: seq<Date>, sorted: seq<Date>)
    requires forall i | 0 <= i < |ds| :: IsValid(ds[i])
    requires Ascending(sorted) && forall d :: d in sorted <==> d in ds
    ensures forall i | 0 <= i < |sorted| :: IsValid(sorted[i])
    ensures SortedIsos(ds) == Isos(sorted)
  {
    AscendingUnique(sorted, SortDates(ds));
    forall i | 0 <= i < |sorted| ensures IsValid(sorted[i]) {
      assert sorted[i] in ds;
    }
  }

  lemma BeforeTransitive(a: Date, b: Date, c: Date)
    requires Before(a, b) && Before(b, c)
    ensures Before(a, c)
  {
  }

  /** Every non-empty finite set of dates has a least element. */
  lemma {:induction false} HasEarliest(s: set<Date>)
    requires s != {}
    ensures exists m | m in s :: forall y | y in s :: !Before(y, m)
    decreases |s|
  {
    var x :| x in s;
    var rest := s - {x};
    if rest == {} {
      assert s == {x};
    } else {
      HasEarliest(rest);
      var m :| m in rest && forall y | y in rest :: !Before(y, m);
      if Before(x, m) {
        forall y | y in s ensures !Before(y, x) {
          if y != x {
            assert !Before(y, m);
            if Before(y, x) { BeforeTransitive(y, x, m); }
          }
        }
      } else {
        forall y | y in s ensures !Before(y, m) {
          if y == x { } else { assert y in rest; }
        }
      }
    }
  }

  /** `sorted(found)` on a set: takes the earliest remaining date until none
      is left. */
  method SortSet(found: set<Date>) returns (sorted: seq<Date>)
    ensures Ascending(sorted)
    ensures forall d :: d in sorted <==> d in found
  {
    var rest := found;
    sorted := [];
    while rest != {}
      invariant Ascending(sorted)
      invariant forall d :: d in found <==> d in sorted || d in rest
      invariant forall x, y | x in sorted && y in rest :: Before(x, y)
      decreases |rest|
    {
      HasEarliest(rest);
      var m :| m in rest && forall y | y in rest :: !Before(y, m);
      sorted := sorted + [m];
      rest := rest - {m};
    }
  }
}
