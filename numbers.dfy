/** JavaScript numbers as the ledger uses them: money amounts are whole paise
    (hundredths of a rupee), `parseFloat` reads a decimal prefix of a string, and
    template-literal printing writes an amount in its shortest decimal form. */
module Numbers {
  import opened Text

  /** A JavaScript number as far as the ledger sees one: a finite amount in paise, or NaN. */
  datatype Num = Finite(value: int) | NaN

  /** `x || 0` on a number: NaN (and zero) become 0. */
  function OrZero(x: Num): (r: int)
    ensures x.Finite? ==> r == x.value
    ensures x.NaN? ==> r == 0
  {
    match x
    case Finite(v) => v
    case NaN => 0
  }

  predicate IsDigit(c: char) { '0' <= c <= '9' }

  predicate AllDigits(s: string) { forall i :: 0 <= i < |s| ==> IsDigit(s[i]) }

  function DigitValue(c: char): (d: nat)
    requires IsDigit(c)
    ensures d < 10
  {
    c as int - '0' as int
  }

  function DigitChar(d: nat): (c: char)
    requires d < 10
    ensures IsDigit(c) && DigitValue(c) == d
  {
    ('0' as int + d) as char
  }

  /** The length of the longest prefix of `s` made of decimal digits. */
  function DigitRun(s: string): (n: nat)
    ensures n <= |s| && AllDigits(s[..n])
    ensures n < |s| ==> !IsDigit(s[n])
  {
    if s == [] || !IsDigit(s[0]) then 0
    else
      var n := 1 + DigitRun(s[1..]);
      assert forall i :: 1 <= i < n ==> s[..n][i] == s[1..][..n - 1][i - 1];
      n
  }

  /** The natural number a string of decimal digits denotes. */
  function DigitsValue(s: string): nat
    requires AllDigits(s)
  {
    if s == [] then 0 else DigitsValue(s[..|s| - 1]) * 10 + DigitValue(s[|s| - 1])
  }

  /** The decimal text of a natural number, without leading zeros. */
  function NatText(n: nat): (r: string)
    ensures |r| >= 1 && AllDigits(r)
    ensures DigitsValue(r) == n
    ensures r[0] != '0' || n == 0
  {
    if n < 10 then [DigitChar(n)]
    else
      var r := NatText(n / 10) + [DigitChar(n % 10)];
      assert r[..|r| - 1] == NatText(n / 10);
      r
  }

  /** The fractional part of an amount as JavaScript prints it: nothing for whole
      rupees, otherwise a point and one or two digits without a trailing zero. */
  function FractionText(f: nat): (r: string)
    requires f < 100
    ensures r == [] <==> f == 0
    ensures r != [] ==> |r| >= 2 && r[0] == '.' && AllDigits(r[1..]) && r[|r| - 1] != '0'
  {
    if f == 0 then ""
    else if f % 10 == 0 then ['.', DigitChar(f / 10)]
    else ['.', DigitChar(f / 10), DigitChar(f % 10)]
  }

  /** The paise denoted by the digits after the decimal point: the first two count,
      later ones are dropped. */
  function Paise(frac: string): (p: nat)
    requires AllDigits(frac)
    ensures p < 100
  {
    if frac == [] then 0
    else if |frac| == 1 then DigitValue(frac[0]) * 10
    else DigitValue(frac[0]) * 10 + DigitValue(frac[1])
  }

  /** The printed form of a non-negative amount of `a` paise: it starts and ends
      with a digit. */
  function UnsignedText(a: nat): (r: string)
    ensures |r| >= 1 && IsDigit(r[0]) && IsDigit(r[|r| - 1])
  {
    NatText(a / 100) + FractionText(a % 100)
  }

  /** `${amount}` for an amount of `n` paise: a digit at the end, and a minus sign
      or a digit at the front. */
  function FormatAmount(n: int): (r: string)
    ensures |r| >= 1
    ensures IsDigit(r[|r| - 1])
    ensures r[0] == '-' || IsDigit(r[0])
  {
    if n < 0 then "-" + UnsignedText(-n) else UnsignedText(n)
  }

  /** A printed non-negative amount holds only digits and at most a point. */
  lemma UnsignedTextAvoids(a: nat, c: char)
    requires !IsDigit(c) && c != '.'
    ensures c !in UnsignedText(a)
  {
    var d, f := NatText(a / 100), FractionText(a % 100);
    assert c !in d;
    assert f != [] ==> f == [f[0]] + f[1..];
    assert c !in f;
  }

  /** A printed amount holds no character other than digits, `-` and `.`. */
  lemma FormatAmountAvoids(n: int, c: char)
    requires !IsDigit(c) && c != '-' && c != '.'
    ensures c !in FormatAmount(n)
  {
    UnsignedTextAvoids(if n < 0 then -n else n, c);
  }

  /** `${x}` for a number: NaN prints as the word NaN. */
  function FormatNum(x: Num): string {
    match x
    case Finite(v) => FormatAmount(v)
    case NaN => "NaN"
  }

  /** A printed number holds no character other than digits, `-`, `.` and the
      letters of NaN. */
  lemma FormatNumAvoids(x: Num, c: char)
    requires !IsDigit(c) && c != '-' && c != '.' && c != 'N' && c != 'a'
    ensures c !in FormatNum(x)
  {
    if x.Finite? {
      FormatAmountAvoids(x.value, c);
    }
  }

  /** A printed number is not empty and ends with a digit or the N of NaN. */
  lemma FormatNumEnds(x: Num)
    ensures FormatNum(x) != []
    ensures var t := FormatNum(x); IsDigit(t[|t| - 1]) || t[|t| - 1] == 'N'
  {
  }

  /** `a + b` on numbers: NaN absorbs. */
  function NumAdd(a: Num, b: Num): (r: Num)
    ensures r.Finite? <==> a.Finite? && b.Finite?
    ensures r.Finite? ==> r.value == a.value + b.value
  {
    if a.Finite? && b.Finite? then Finite(a.value + b.value) else NaN
  }

  /** `a - b` on numbers: NaN absorbs. */
  function NumSub(a: Num, b: Num): (r: Num)
    ensures r.Finite? <==> a.Finite? && b.Finite?
    ensures r.Finite? ==> r.value == a.value - b.value
  {
    if a.Finite? && b.Finite? then Finite(a.value - b.value) else NaN
  }

  /** The digits-and-point part of `parseFloat`, after white space and sign:
      NaN when there is neither an integer digit nor a fraction digit. */
  function ParseUnsigned(u: string): (x: Num)
    ensures x.Finite? ==> x.value >= 0
  {
    var n := DigitRun(u);
    var rest := u[n..];
    var frac := if rest != [] && rest[0] == '.' then rest[1..][..DigitRun(rest[1..])] else "";
    if n == 0 && frac == [] then NaN
    else Finite(DigitsValue(u[..n]) * 100 + Paise(frac))
  }

  /** `parseFloat(s)`: skip leading white space, read an optional sign, then digits
      and an optional point followed by digits. */
  function ParseFloat(s: string): Num {
    var t := TrimStart(s);
    if t != [] && t[0] == '-' then
      match ParseUnsigned(t[1..])
      case Finite(v) => Finite(-v)
      case NaN => NaN
    else if t != [] && t[0] == '+' then ParseUnsigned(t[1..])
    else ParseUnsigned(t)
  }

  lemma {:induction false} DigitRunOfDigits(d: string, tail: string)
    requires AllDigits(d)
    requires tail == [] || !IsDigit(tail[0])
    ensures DigitRun(d + tail) == |d|
  {
    if d != [] {
      assert (d + tail)[1..] == d[1..] + tail;
      DigitRunOfDigits(d[1..], tail);
    }
  }

  /** Reading back the unsigned part of a printed amount. */
  lemma ParseUnsignedText(a: nat)
    ensures ParseUnsigned(UnsignedText(a)) == Finite(a)
  {
    var digits, frac := NatText(a / 100), FractionText(a % 100);
    var u := digits + frac;
    DigitRunOfDigits(digits, frac);
    assert u[..|digits|] == digits;
    assert u[|digits|..] == frac;
    if frac != [] {
      var f := frac[1..];
      DigitRunOfDigits(f, "");
      assert f[..DigitRun(f)] == f;
    }
  }

  lemma TrimStartKeeps(s: string)
    requires s != [] && (s[0] == '-' || IsDigit(s[0]))
    ensures TrimStart(s) == s
  {
  }

  /** Reading back a printed amount gives the amount. */
  lemma ParseFormatAmount(n: int)
    ensures ParseFloat(FormatAmount(n)) == Finite(n)
  {
    var a: nat := if n < 0 then -n else n;
    var u := UnsignedText(a);
    ParseUnsignedText(a);
    TrimStartKeeps(u);
    if n < 0 {
      var v := "-" + u;
      TrimStartKeeps(v);
      assert v[1..] == u;
    }
  }

  /** The word NaN reads back as NaN: it starts with neither a sign, a digit nor a point. */
  lemma ParseNaN()
    ensures ParseFloat("NaN") == NaN
  {
    var t := "NaN";
    assert !IsSpace(t[0]) && !IsDigit(t[0]);
    assert TrimStart(t) == t;
    assert DigitRun(t) == 0;
  }

  /** `s ? parseFloat(s) : 0` on an input's text: an empty input counts as 0. */
  function InputAmount(s: string): (x: Num)
    ensures s == "" ==> x == Finite(0)
    ensures s != "" ==> x == ParseFloat(s)
  {
    if s == "" then Finite(0) else ParseFloat(s)
  }

  /** An input holding a printed amount gives that amount. */
  lemma InputAmountOfAmount(v: int)
    ensures InputAmount(FormatAmount(v)) == Finite(v)
  {
    ParseFormatAmount(v);
  }

  /** Reading back any printed number, NaN included, gives the number. */
  lemma ParseFormat(x: Num)
    ensures ParseFloat(FormatNum(x)) == x
  {
    match x
    case Finite(v) => ParseFormatAmount(v);
    case NaN => ParseNaN();
  }
}
