/** Calendar dates as the ledger stores them: ISO `YYYY-MM-DD` text. The order the
    sorts use (`new Date(a.date) - new Date(b.date)`) is modelled as the
    lexicographic order of the text, which on ISO dates is the order of year, then
    written month, then written day (lemma IsoOrderIsChronological). */
module Dates {
  import opened Numbers
  import opened Sorting

  /** Lexicographic order on character strings, by code point. */
  predicate DateLe(a: string, b: string)
    decreases |a|
  {
    a == [] || (b != [] && (a[0] < b[0] || (a[0] == b[0] && DateLe(a[1..], b[1..]))))
  }

  lemma {:induction false} DateLeReflexive(a: string)
    ensures DateLe(a, a)
  {
    if a != [] {
      DateLeReflexive(a[1..]);
    }
  }

  lemma {:induction false} DateLeTotal(a: string, b: string)
    ensures DateLe(a, b) || DateLe(b, a)
    decreases |a|
  {
    if a != [] && b != [] && a[0] == b[0] {
      DateLeTotal(a[1..], b[1..]);
    }
  }

  lemma {:induction false} DateLeTransitive(a: string, b: string, c: string)
    requires DateLe(a, b) && DateLe(b, c)
    ensures DateLe(a, c)
    decreases |a|
  {
    if a != [] && a[0] == b[0] && b[0] == c[0] {
      DateLeTransitive(a[1..], b[1..], c[1..]);
    }
  }

  lemma {:induction false} DateLeAntisymmetric(a: string, b: string)
    requires DateLe(a, b) && DateLe(b, a)
    ensures a == b
    decreases |a|
  {
    if a != [] {
      DateLeAntisymmetric(a[1..], b[1..]);
      assert a == [a[0]] + a[1..] && b == [b[0]] + b[1..];
    }
  }

  /** A prefix of a string is no later than the string. */
  lemma {:induction false} DateLePrefix(a: string, n: nat)
    requires n <= |a|
    ensures DateLe(a[..n], a)
    decreases n
  {
    if n > 0 {
      assert a[..n][1..] == a[1..][..n - 1];
      DateLePrefix(a[1..], n - 1);
    }
  }

  /** Cutting two ordered strings at the same length keeps them ordered. */
  lemma {:induction false} DateLeTruncate(a: string, b: string, n: nat)
    requires DateLe(a, b) && n <= |a| && n <= |b|
    ensures DateLe(a[..n], b[..n])
    decreases n
  {
    if n > 0 && a[0] == b[0] {
      assert a[..n][1..] == a[1..][..n - 1];
      assert b[..n][1..] == b[1..][..n - 1];
      DateLeTruncate(a[1..], b[1..], n - 1);
    }
  }

  /** The value of two decimal digits at positions i and i + 1 of s. */
  function TwoDigits(s: string, i: nat): nat
    requires i + 1 < |s| && IsDigit(s[i]) && IsDigit(s[i + 1])
  {
    DigitValue(s[i]) * 10 + DigitValue(s[i + 1])
  }

  /** The text has the shape `YYYY-MM-DD`. */
  predicate IsoShape(s: string) {
    && |s| == 10
    && s[4] == '-' && s[7] == '-'
    && forall i :: 0 <= i < 10 && i != 4 && i != 7 ==> IsDigit(s[i])
  }

  function Year(s: string): nat
    requires IsoShape(s)
  {
    DigitsValue(s[..4])
  }

  function Month(s: string): nat
    requires IsoShape(s)
  {
    TwoDigits(s, 5)
  }

  function Day(s: string): nat
    requires IsoShape(s)
  {
    TwoDigits(s, 8)
  }

  /** The dates the model reads as ISO: month 01..12, day 01..31 in every month. A day
      past the end of its month (`2024-02-30`) is read as a day of its written
      month; the model does not carry it over into the next month. */
  predicate IsIsoDate(s: string) {
    IsoShape(s) && 1 <= Month(s) <= 12 && 1 <= Day(s) <= 31
  }

  /** The text `new Date(d).toLocaleDateString(.., { month, year })` and
      `toLocaleString(.., { month, year })` depend on: one label per calendar month
      (modelled by the `YYYY-MM` prefix) and the single label "Invalid Date" for a
      date `new Date` cannot read. */
  function MonthLabel(date: string): string {
    if IsIsoDate(date) then date[..7] else "Invalid Date"
  }

  /** `new Date(d).getMonth()`: 0 for January up to 11 for December, and -1 standing
      for the NaN an unreadable date gives. */
  function MonthIndex(date: string): (m: int)
    ensures -1 <= m < 12
    ensures m == -1 <==> !IsIsoDate(date)
  {
    if IsIsoDate(date) then Month(date) - 1 else -1
  }

  /** `date.slice(0, 7)`: the first seven characters, or the whole text when it is shorter. */
  function Slice7(date: string): string {
    if |date| >= 7 then date[..7] else date
  }

  /** A number written as tens and a last digit determines both. */
  lemma TenfoldUnique(p: int, x: int, q: int, y: int)
    requires 0 <= x < 10 && 0 <= y < 10 && p * 10 + x == q * 10 + y
    ensures p == q && x == y
  {
  }

  /** Equal-length digit strings with the same value are the same string. */
  lemma {:induction false} DigitsValueInjective(a: string, b: string)
    requires AllDigits(a) && AllDigits(b) && |a| == |b|
    requires DigitsValue(a) == DigitsValue(b)
    ensures a == b
  {
    if a != [] {
      var a', b' := a[..|a| - 1], b[..|b| - 1];
      DigitsValueLast(a);
      DigitsValueLast(b);
      TenfoldUnique(DigitsValue(a'), DigitValue(a[|a| - 1]), DigitsValue(b'), DigitValue(b[|b| - 1]));
      DigitsValueInjective(a', b');
      DigitValueInjective(a[|a| - 1], b[|b| - 1]);
    }
  }

  /** A digit string is its prefix and its last digit, and its value is the
      prefix's value shifted by one place plus the last digit. */
  lemma {:induction false} DigitsValueLast(s: string)
    requires AllDigits(s) && s != []
    ensures AllDigits(s[..|s| - 1]) && IsDigit(s[|s| - 1])
    ensures DigitsValue(s) == DigitsValue(s[..|s| - 1]) * 10 + DigitValue(s[|s| - 1])
    ensures s == s[..|s| - 1] + [s[|s| - 1]]
  {
  }

  lemma DigitValueInjective(c: char, d: char)
    requires IsDigit(c) && IsDigit(d) && DigitValue(c) == DigitValue(d)
    ensures c == d
  {
  }

  /** Two readable dates get the same month label exactly when they fall in the same
      month of the same year: the chart groups are calendar months. */
  lemma MonthLabelSame(a: string, b: string)
    requires IsIsoDate(a) && IsIsoDate(b)
    ensures MonthLabel(a) == MonthLabel(b) <==> Year(a) == Year(b) && Month(a) == Month(b)
  {
    if MonthLabel(a) == MonthLabel(b) {
      assert a[..4] == a[..7][..4] && b[..4] == b[..7][..4];
      assert a[5] == a[..7][5] && b[5] == b[..7][5];
      assert a[6] == a[..7][6] && b[6] == b[..7][6];
    }
    if Year(a) == Year(b) && Month(a) == Month(b) {
      DigitsValueInjective(a[..4], b[..4]);
      assert DigitValue(a[5]) == DigitValue(b[5]) && DigitValue(a[6]) == DigitValue(b[6]);
      DigitValueInjective(a[5], b[5]);
      DigitValueInjective(a[6], b[6]);
      assert forall i :: 0 <= i < 4 ==> a[i] == a[..4][i] && b[i] == b[..4][i];
      assert a[..7] == b[..7];
    }
  }

  /** Every unreadable date falls in one group, apart from every readable month. */
  lemma MonthLabelInvalid(a: string, b: string)
    requires IsIsoDate(a) && !IsIsoDate(b)
    ensures MonthLabel(a) != MonthLabel(b)
  {
    assert |MonthLabel(a)| == 7 && |MonthLabel(b)| == 12;
  }

  /** On readable dates `date.slice(0, 7)` is the month label: the two ways the
      pages group entries by month agree there. */
  lemma Slice7IsMonthLabel(date: string)
    requires IsIsoDate(date)
    ensures Slice7(date) == MonthLabel(date)
  {
  }

  /** `getMonth()` of a readable date is its month less one. */
  lemma MonthIndexOfIso(date: string)
    requires IsIsoDate(date)
    ensures MonthIndex(date) + 1 == Month(date)
  {
  }

  /** Comparing two texts whose first parts have the same length: the first parts
      decide unless they are equal, and then the rest decides. */
  lemma {:induction false} DateLeAppend(p: string, q: string, r: string, t: string)
    requires |p| == |q|
    ensures DateLe(p + r, q + t) <==> (p != q && DateLe(p, q)) || (p == q && DateLe(r, t))
    decreases |p|
  {
    if p == [] {
      assert p + r == r && q + t == t;
    } else {
      assert (p + r)[0] == p[0] && (q + t)[0] == q[0];
      assert (p + r)[1..] == p[1..] + r && (q + t)[1..] == q[1..] + t;
      DateLeAppend(p[1..], q[1..], r, t);
      assert p == [p[0]] + p[1..] && q == [q[0]] + q[1..];
    }
  }

  /** On digit strings of one length the text order is the order of their values. */
  lemma {:induction false} DigitsLe(a: string, b: string)
    requires AllDigits(a) && AllDigits(b) && |a| == |b|
    ensures DateLe(a, b) <==> DigitsValue(a) <= DigitsValue(b)
  {
    if a != [] {
      var a', b' := a[..|a| - 1], b[..|b| - 1];
      var x, y := a[|a| - 1], b[|b| - 1];
      assert a == a' + [x] && b == b' + [y];
      DateLeAppend(a', b', [x], [y]);
      assert DateLe([x], [y]) <==> x <= y;
      DigitsLe(a', b');
      if DigitsValue(a') == DigitsValue(b') {
        DigitsValueInjective(a', b');
      }
    }
  }

  /** Year, then month, then day: the calendar order of two ISO-shaped dates. */
  predicate ChronoLe(a: string, b: string)
    requires IsoShape(a) && IsoShape(b)
  {
    || Year(a) < Year(b)
    || (Year(a) == Year(b) && Month(a) < Month(b))
    || (Year(a) == Year(b) && Month(a) == Month(b) && Day(a) <= Day(b))
  }

  lemma TwoDigitsValue(s: string, i: nat)
    requires i + 1 < |s| && IsDigit(s[i]) && IsDigit(s[i + 1])
    ensures AllDigits(s[i..i + 2]) && DigitsValue(s[i..i + 2]) == TwoDigits(s, i)
  {
    var m := s[i..i + 2];
    assert m[..1] == [s[i]] && m[..1][..0] == [];
    assert DigitsValue(m[..1]) == DigitValue(s[i]);
  }

  /** An ISO-shaped date is its year, month and day digits with dashes between. */
  lemma IsoParts(s: string)
    requires IsoShape(s)
    ensures s == s[..4] + ("-" + (s[5..7] + ("-" + s[8..])))
    ensures AllDigits(s[..4]) && AllDigits(s[5..7]) && AllDigits(s[8..])
    ensures Year(s) == DigitsValue(s[..4])
    ensures Month(s) == DigitsValue(s[5..7]) && Day(s) == DigitsValue(s[8..])
  {
    TwoDigitsValue(s, 5);
    TwoDigitsValue(s, 8);
    assert s[8..] == s[8..10];
  }

  /** On ISO dates the text order used for sorting is the calendar order. */
  lemma IsoOrderIsChronological(a: string, b: string)
    requires IsoShape(a) && IsoShape(b)
    ensures DateLe(a, b) <==> ChronoLe(a, b)
  {
    IsoParts(a);
    IsoParts(b);
    var ya, ma, da := a[..4], a[5..7], a[8..];
    var yb, mb, db := b[..4], b[5..7], b[8..];
    DateLeAppend(ya, yb, "-" + (ma + ("-" + da)), "-" + (mb + ("-" + db)));
    DateLeAppend("-", "-", ma + ("-" + da), mb + ("-" + db));
    DateLeAppend(ma, mb, "-" + da, "-" + db);
    DateLeAppend("-", "-", da, db);
    DigitsLe(ya, yb);
    DigitsLe(ma, mb);
    DigitsLe(da, db);
    if Year(a) == Year(b) {
      DigitsValueInjective(ya, yb);
    }
    if Month(a) == Month(b) {
      DigitsValueInjective(ma, mb);
    }
  }

  /** Two ISO labels of ordered dates are ordered: the month labels of a sorted
      ledger appear in chronological order. */
  lemma MonthLabelMonotone(a: string, b: string)
    requires IsIsoDate(a) && IsIsoDate(b) && DateLe(a, b)
    ensures DateLe(MonthLabel(a), MonthLabel(b))
  {
    DateLeTruncate(a, b, 7);
  }

  /** The comparator `(a, b) => new Date(a.date) - new Date(b.date)` as an order:
      `a` may come no later than `b`. */
  function ByDate<T>(date: T -> string): (T, T) -> bool {
    (a: T, b: T) => DateLe(date(a), date(b))
  }

  /** Sorting by date sorts by a total preorder. */
  lemma ByDateTotalPreorder<T(!new)>(date: T -> string)
    ensures TotalPreorder(ByDate(date))
  {
    var le := ByDate(date);
    forall a: T, b: T ensures TotalAt(le, a, b) {
      DateLeTotal(date(a), date(b));
    }
    forall a: T, b: T, c: T ensures TransitiveAt(le, a, b, c) {
      if le(a, b) && le(b, c) {
        DateLeTransitive(date(a), date(b), date(c));
      }
    }
  }
}
