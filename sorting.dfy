/** The stable sort JavaScript's `Array.prototype.sort` performs with a comparator:
    an insertion sort on a total preorder `le` ("may come no later than"). */
module Sorting {

  /** `le` relates `a` and `b` one way or the other. */
  predicate TotalAt<T>(le: (T, T) -> bool, a: T, b: T) {
    le(a, b) || le(b, a)
  }

  /** `le` is transitive on `a`, `b`, `c`. */
  predicate TransitiveAt<T>(le: (T, T) -> bool, a: T, b: T, c: T) {
    le(a, b) && le(b, c) ==> le(a, c)
  }

  /** `le` is total and transitive, as every comparator the ledger passes to `sort` is.
      (The two facts are stated through TotalAt and TransitiveAt so that a proof
      uses them only where it names them.) */
  ghost predicate TotalPreorder<T(!new)>(le: (T, T) -> bool) {
    && (forall a, b :: TotalAt(le, a, b))
    && (forall a, b, c :: TransitiveAt(le, a, b, c))
  }

  predicate Sorted<T>(s: seq<T>, le: (T, T) -> bool) {
    forall i, j :: 0 <= i < j < |s| ==> le(s[i], s[j])
  }

  /** Neither of the two has to come before the other. */
  predicate Tied<T>(le: (T, T) -> bool, x: T, y: T) {
    le(x, y) && le(y, x)
  }

  /** The elements of `s` tied with `x`, in their order in `s`. */
  function TiedWith<T>(s: seq<T>, le: (T, T) -> bool, x: T): seq<T> {
    if s == [] then []
    else (if Tied(le, x, s[0]) then [s[0]] else []) + TiedWith(s[1..], le, x)
  }

  /** Puts `x` in front of the first element it may come before. */
  function InsertBy<T>(x: T, s: seq<T>, le: (T, T) -> bool): (r: seq<T>)
    ensures multiset(r) == multiset(s) + multiset{x}
  {
    if s == [] then [x]
    else if le(x, s[0]) then [x] + s
    else
      assert s == [s[0]] + s[1..];
      [s[0]] + InsertBy(x, s[1..], le)
  }

  /** The result of `sort(le)` on a copy of `s`. */
  function SortBy<T>(s: seq<T>, le: (T, T) -> bool): (r: seq<T>)
    ensures multiset(r) == multiset(s)
    ensures |r| == |s|
  {
    if s == [] then []
    else
      assert s == [s[0]] + s[1..];
      InsertBy(s[0], SortBy(s[1..], le), le)
  }

  lemma {:induction false} InsertSorted<T(!new)>(x: T, s: seq<T>, le: (T, T) -> bool)
    requires TotalPreorder(le) && Sorted(s, le)
    ensures Sorted(InsertBy(x, s, le), le)
  {
    if s == [] {
    } else if le(x, s[0]) {
      forall j | 0 <= j < |s| ensures le(x, s[j]) {
        assert TransitiveAt(le, x, s[0], s[j]);
      }
    } else {
      InsertSorted(x, s[1..], le);
      var r := InsertBy(x, s[1..], le);
      forall j | 0 <= j < |r| ensures le(s[0], r[j]) {
        assert r[j] in multiset(r);
        if r[j] == x {
          assert TotalAt(le, x, s[0]);
        } else {
          assert r[j] in multiset(s[1..]);
          var k :| 1 <= k < |s| && s[k] == r[j];
        }
      }
    }
  }

  /** The sort orders its result. */
  lemma {:induction false} SortBySorted<T(!new)>(s: seq<T>, le: (T, T) -> bool)
    requires TotalPreorder(le)
    ensures Sorted(SortBy(s, le), le)
  {
    if s != [] {
      SortBySorted(s[1..], le);
      InsertSorted(s[0], SortBy(s[1..], le), le);
    }
  }

  lemma {:induction false} TiedWithCons<T>(x: T, s: seq<T>, le: (T, T) -> bool, y: T)
    ensures TiedWith([x] + s, le, y) == (if Tied(le, y, x) then [x] else []) + TiedWith(s, le, y)
  {
    assert ([x] + s)[1..] == s;
  }

  lemma SwapEmpty<T>(a: seq<T>, b: seq<T>, t: seq<T>)
    requires a == [] || b == []
    ensures a + (b + t) == b + (a + t)
  {
    if a == [] {
      assert a + (b + t) == b + t && a + t == t;
    } else {
      assert b + (a + t) == a + t && b + t == t;
    }
  }

  /** The inductive step of InsertTied, when `x` goes after `s[0]`. */
  lemma InsertTiedStep<T(!new)>(x: T, s: seq<T>, le: (T, T) -> bool, y: T)
    requires TotalPreorder(le)
    requires s != [] && !le(x, s[0])
    requires TiedWith(InsertBy(x, s[1..], le), le, y)
          == (if Tied(le, y, x) then [x] else []) + TiedWith(s[1..], le, y)
    ensures TiedWith(InsertBy(x, s, le), le, y)
         == (if Tied(le, y, x) then [x] else []) + TiedWith(s, le, y)
  {
    var head := if Tied(le, y, s[0]) then [s[0]] else [];
    var mid := if Tied(le, y, x) then [x] else [];
    var t := TiedWith(s[1..], le, y);
    assert TiedWith(InsertBy(x, s, le), le, y) == head + (mid + t) by {
      var r := InsertBy(x, s[1..], le);
      assert InsertBy(x, s, le) == [s[0]] + r;
      TiedWithCons(s[0], r, le, y);
    }
    assert TiedWith(s, le, y) == head + t;
    // s[0] comes strictly before x, so nothing tied with x is tied with s[0]
    assert head == [] || mid == [] by {
      assert TransitiveAt(le, x, y, s[0]);
    }
    SwapEmpty(head, mid, t);
  }

  lemma {:induction false} InsertTied<T(!new)>(x: T, s: seq<T>, le: (T, T) -> bool, y: T)
    requires TotalPreorder(le)
    ensures TiedWith(InsertBy(x, s, le), le, y)
         == (if Tied(le, y, x) then [x] else []) + TiedWith(s, le, y)
  {
    if s == [] {
    } else if le(x, s[0]) {
      TiedWithCons(x, s, le, y);
    } else {
      InsertTied(x, s[1..], le, y);
      InsertTiedStep(x, s, le, y);
    }
  }

  /** The sort is stable: the elements tied with any `x` keep their relative order. */
  lemma {:induction false} SortByStable<T(!new)>(s: seq<T>, le: (T, T) -> bool, x: T)
    requires TotalPreorder(le)
    ensures TiedWith(SortBy(s, le), le, x) == TiedWith(s, le, x)
  {
    if s != [] {
      SortByStable(s[1..], le, x);
      InsertTied(s[0], SortBy(s[1..], le), le, x);
    }
  }

  /** Appending `y` appends it to the elements tied with `x` when it is tied with `x`. */
  lemma {:induction false} TiedWithSnoc<T>(s: seq<T>, le: (T, T) -> bool, x: T, y: T)
    ensures TiedWith(s + [y], le, x) == TiedWith(s, le, x) + (if Tied(le, x, y) then [y] else [])
  {
    if s == [] {
      assert [] + [y] == [y];
      assert TiedWith([y], le, x) == (if Tied(le, x, y) then [y] else []) + TiedWith([], le, x);
    } else {
      var t := s + [y];
      assert t[0] == s[0] && t[1..] == s[1..] + [y];
      TiedWithSnoc(s[1..], le, x, y);
      var head := if Tied(le, x, s[0]) then [s[0]] else [];
      assert TiedWith(t, le, x) == head + TiedWith(s[1..] + [y], le, x);
    }
  }


  /** A sorted input comes back unchanged. */
  lemma {:induction false} SortBySortedInput<T(!new)>(s: seq<T>, le: (T, T) -> bool)
    requires Sorted(s, le)
    ensures SortBy(s, le) == s
  {
    if s != [] {
      assert Sorted(s[1..], le);
      SortBySortedInput(s[1..], le);
      if |s| > 1 {
        assert le(s[0], s[1]);
        assert s == [s[0]] + s[1..];
      }
    }
  }
}
