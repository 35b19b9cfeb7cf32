/** String helpers with the semantics of the JavaScript built-ins the ledger code uses:
    `String.prototype.trim`, `String.prototype.split` with a one-character separator,
    and `Array.prototype.join`. */
module Text {

  /** The characters JavaScript's `trim` and `parseFloat` treat as white space:
      the WhiteSpace and LineTerminator productions of ECMAScript. */
  predicate IsSpace(c: char) {
    || c == ' ' || c == '\t' || c == '\n' || c == '\r'
    || c == '\U{B}' || c == '\U{C}' || c == '\U{A0}' || c == '\U{FEFF}'
    || c == '\U{1680}' || ('\U{2000}' <= c <= '\U{200A}')
    || c == '\U{2028}' || c == '\U{2029}' || c == '\U{202F}' || c == '\U{205F}' || c == '\U{3000}'
  }

  /** Drops the leading white space: what is left is a suffix of `s` that does not
      start with white space. */
  function TrimStart(s: string): (r: string)
    ensures |r| <= |s| && r == s[|s| - |r|..]
    ensures r == [] || !IsSpace(r[0])
  {
    if s == [] || !IsSpace(s[0]) then s else TrimStart(s[1..])
  }

  /** What TrimStart drops is white space. */
  lemma {:induction false} TrimStartDropsSpace(s: string, i: nat)
    requires i < |s| - |TrimStart(s)|
    ensures IsSpace(s[i])
  {
    if i > 0 {
      TrimStartDropsSpace(s[1..], i - 1);
    }
  }

  /** Drops the trailing white space: what is left is a prefix of `s` that does not
      end with white space. */
  function TrimEnd(s: string): (r: string)
    ensures |r| <= |s| && r == s[..|r|]
    ensures r == [] || !IsSpace(r[|r| - 1])
  {
    if s == [] || !IsSpace(s[|s| - 1]) then s else TrimEnd(s[..|s| - 1])
  }

  /** What TrimEnd drops is white space. */
  lemma {:induction false} TrimEndDropsSpace(s: string, i: nat)
    requires |TrimEnd(s)| <= i < |s|
    ensures IsSpace(s[i])
  {
    if i < |s| - 1 {
      TrimEndDropsSpace(s[..|s| - 1], i);
    }
  }

  /** No white space at either end. */
  predicate Trimmed(s: string) {
    s == [] || (!IsSpace(s[0]) && !IsSpace(s[|s| - 1]))
  }

  /** Everything before the part TrimStart keeps is white space. */
  lemma {:induction false} TrimStartSpaces(s: string, k: nat)
    requires k == |s| - |TrimStart(s)|
    ensures forall i :: 0 <= i < k ==> IsSpace(s[i])
  {
    forall i | 0 <= i < k ensures IsSpace(s[i]) {
      TrimStartDropsSpace(s, i);
    }
  }

  /** Everything after the part TrimEnd keeps is white space. */
  lemma {:induction false} TrimEndSpaces(u: string)
    ensures forall i :: |TrimEnd(u)| <= i < |u| ==> IsSpace(u[i])
  {
    forall i | |TrimEnd(u)| <= i < |u| ensures IsSpace(u[i]) {
      TrimEndDropsSpace(u, i);
    }
  }

  /** Space after an infix of a suffix is space of the whole string. */
  lemma {:induction false} SuffixSpaces(s: string, u: string, n: nat, k: nat)
    requires k <= |s| && u == s[k..] && n <= |u|
    requires forall i :: n <= i < |u| ==> IsSpace(u[i])
    ensures forall i :: k + n <= i < |s| ==> IsSpace(s[i])
  {
    forall i | k + n <= i < |s| ensures IsSpace(s[i]) {
      assert s[i] == u[i - k];
    }
  }

  lemma {:induction false} InfixOfSuffix(s: string, u: string, r: string, k: nat)
    requires k <= |s| && u == s[k..] && |r| <= |u| && r == u[..|r|]
    ensures k + |r| <= |s| && r == s[k..k + |r|]
  {
  }

  /** `r` is the part of `s` from position `k` on, with only white space before and
      after it. */
  predicate SpaceAround(s: string, r: string, k: nat) {
    && k + |r| <= |s| && r == s[k..k + |r|]
    && (forall i :: 0 <= i < k ==> IsSpace(s[i]))
    && (forall i :: k + |r| <= i < |s| ==> IsSpace(s[i]))
  }

  /** `s.trim()`: what is left of `s` once the white space at both ends is dropped. */
  function Trim(s: string): (r: string)
    ensures Trimmed(r)
    ensures exists k :: SpaceAround(s, r, k)
  {
    TrimmedBothEnds(s);
    SpaceAroundBothEnds(s);
    TrimEnd(TrimStart(s))
  }

  /** Dropping white space at the start and then at the end leaves none at either end. */
  lemma TrimmedBothEnds(s: string)
    ensures Trimmed(TrimEnd(TrimStart(s)))
  {
    var u := TrimStart(s);
    var r := TrimEnd(u);
    assert r != [] ==> r[0] == u[0];
  }

  /** What is dropped at either end is white space. */
  lemma SpaceAroundBothEnds(s: string)
    ensures SpaceAround(s, TrimEnd(TrimStart(s)), |s| - |TrimStart(s)|)
  {
    var u := TrimStart(s);
    var r := TrimEnd(u);
    var k := |s| - |u|;
    TrimStartSpaces(s, k);
    TrimEndSpaces(u);
    SuffixSpaces(s, u, |r|, k);
    InfixOfSuffix(s, u, r, k);
  }

  /** A string with no white space at either end is its own trim. */
  lemma TrimOfTrimmed(s: string)
    requires Trimmed(s)
    ensures Trim(s) == s
  {
  }

  /** The position of the first `c` in `s`, or `|s|` when there is none. */
  function IndexOf(s: string, c: char): (i: nat)
    ensures i <= |s|
    ensures i < |s| ==> s[i] == c
    ensures forall j :: 0 <= j < i ==> s[j] != c
  {
    if s == [] then 0 else if s[0] == c then 0 else 1 + IndexOf(s[1..], c)
  }

  /** `parts.join(sep)` with a one-character separator. */
  function Join(parts: seq<string>, sep: char): string {
    if parts == [] then ""
    else if |parts| == 1 then parts[0]
    else parts[0] + [sep] + Join(parts[1..], sep)
  }

  /** `s.split(sep)` with a one-character separator: the pieces between the
      separators, at least one, and joining them back gives `s`. */
  function Split(s: string, sep: char): (parts: seq<string>)
    ensures |parts| >= 1
    ensures Join(parts, sep) == s
    decreases |s|
  {
    var i := IndexOf(s, sep);
    if i == |s| then [s]
    else
      var rest := Split(s[i + 1..], sep);
      assert s == s[..i] + [sep] + s[i + 1..];
      [s[..i]] + rest
  }

  /** No piece of a split holds the separator. */
  lemma {:induction false} SplitPieces(s: string, sep: char, k: nat)
    requires k < |Split(s, sep)|
    ensures sep !in Split(s, sep)[k]
    decreases |s|
  {
    var i := IndexOf(s, sep);
    if i < |s| && k > 0 {
      SplitPieces(s[i + 1..], sep, k - 1);
    }
  }

  /** A string without the separator splits into itself alone. */
  lemma SplitAbsent(s: string, sep: char)
    requires sep !in s
    ensures Split(s, sep) == [s]
  {
    assert IndexOf(s, sep) == |s|;
  }

  lemma {:induction false} IndexOfAfter(p: string, sep: char, tail: string)
    requires sep !in p
    ensures IndexOf(p + [sep] + tail, sep) == |p|
  {
    if p != [] {
      assert (p + [sep] + tail)[1..] == p[1..] + [sep] + tail;
      IndexOfAfter(p[1..], sep, tail);
    }
  }

  /** A piece without the separator, then the separator, splits off as the first piece. */
  lemma SplitCons(p: string, sep: char, tail: string)
    requires sep !in p
    ensures Split(p + [sep] + tail, sep) == [p] + Split(tail, sep)
  {
    var s := p + [sep] + tail;
    IndexOfAfter(p, sep, tail);
    assert s[..|p|] == p;
    assert s[|p| + 1..] == tail;
  }

  /** Splitting a join gives the parts back when no part holds the separator. */
  lemma {:induction false} SplitJoin(parts: seq<string>, sep: char)
    requires |parts| >= 1
    requires forall k :: 0 <= k < |parts| ==> sep !in parts[k]
    ensures Split(Join(parts, sep), sep) == parts
  {
    if |parts| == 1 {
      SplitAbsent(parts[0], sep);
    } else {
      var rest := parts[1..];
      assert forall k :: 0 <= k < |rest| ==> rest[k] == parts[k + 1];
      SplitJoin(rest, sep);
      SplitCons(parts[0], sep, Join(rest, sep));
      assert parts == [parts[0]] + rest;
    }
  }

  lemma LastOfAppend(a: string, b: string)
    requires b != []
    ensures (a + b)[|a + b| - 1] == b[|b| - 1]
  {
  }

  /** A join of non-empty parts ends with the last part's last character. */
  lemma {:induction false} JoinLast(parts: seq<string>, sep: char)
    requires |parts| >= 1 && parts[|parts| - 1] != []
    ensures var j := Join(parts, sep); j != [] && j[|j| - 1] == parts[|parts| - 1][|parts[|parts| - 1]| - 1]
  {
    if |parts| > 1 {
      JoinLast(parts[1..], sep);
    }
  }

  /** A join whose first part is non-empty starts with that part's first character. */
  lemma JoinFirst(parts: seq<string>, sep: char)
    requires |parts| >= 1 && parts[0] != []
    ensures var j := Join(parts, sep); j != [] && j[0] == parts[0][0]
  {
  }

  /** The number of times `c` occurs in `s`. */
  function Count(s: string, c: char): nat {
    if s == [] then 0 else (if s[0] == c then 1 else 0) + Count(s[1..], c)
  }

  lemma {:induction false} CountAppend(a: string, b: string, c: char)
    ensures Count(a + b, c) == Count(a, c) + Count(b, c)
  {
    if a == [] {
      assert a + b == b;
    } else {
      assert (a + b)[0] == a[0] && (a + b)[1..] == a[1..] + b;
      CountAppend(a[1..], b, c);
    }
  }

  lemma {:induction false} CountAbsent(s: string, c: char)
    requires c !in s
    ensures Count(s, c) == 0
  {
    if s != [] {
      CountAbsent(s[1..], c);
    }
  }

  /** `s.split(sep)` has one piece more than `s` has separators. */
  lemma {:induction false} SplitCount(s: string, sep: char)
    ensures |Split(s, sep)| == Count(s, sep) + 1
    decreases |s|
  {
    var i := IndexOf(s, sep);
    if i == |s| {
      CountAbsent(s, sep);
    } else {
      assert s == s[..i] + ([sep] + s[i + 1..]);
      CountAppend(s[..i], [sep] + s[i + 1..], sep);
      CountAbsent(s[..i], sep);
      assert ([sep] + s[i + 1..])[1..] == s[i + 1..];
      SplitCount(s[i + 1..], sep);
    }
  }
}
