/** Grouping a sequence by a key, the way the ledger code fills a JavaScript object
    in a `forEach` loop: keys in first-seen order (the insertion order `Object.keys`
    and `Object.entries` report for non-numeric keys), the members of each group in
    their original order, and per-group sums. */
module Grouping {

  /** The sum of `val` over `s`, added up from the front like `reduce`. */
  function SumOf<T>(s: seq<T>, val: T -> int): int {
    if s == [] then 0 else SumOf(s[..|s| - 1], val) + val(s[|s| - 1])
  }

  lemma SumOfSnoc<T>(s: seq<T>, x: T, val: T -> int)
    ensures SumOf(s + [x], val) == SumOf(s, val) + val(x)
  {
    assert (s + [x])[..|s|] == s;
  }

  lemma {:induction false} SumOfAppend<T>(a: seq<T>, b: seq<T>, val: T -> int)
    ensures SumOf(a + b, val) == SumOf(a, val) + SumOf(b, val)
    decreases |b|
  {
    if b == [] {
      assert a + b == a;
    } else {
      var init, last := b[..|b| - 1], b[|b| - 1];
      assert b == init + [last];
      assert a + b == (a + init) + [last];
      SumOfAppend(a, init, val);
      SumOfSnoc(a + init, last, val);
      SumOfSnoc(init, last, val);
    }
  }

  /** The sum of the first `k + 1` values grows by the value at `k`. */
  lemma SumOfPrefixStep<T>(s: seq<T>, val: T -> int, k: nat)
    requires k < |s|
    ensures SumOf(s[..k + 1], val) == SumOf(s[..k], val) + val(s[k])
  {
    assert s[..k + 1][..k] == s[..k];
  }

  /** 1 for everything: summing it counts. */
  function One<T>(x: T): int { 1 }

  lemma {:induction false} SumOfOne<T>(s: seq<T>)
    ensures SumOf(s, One) == |s|
  {
    if s != [] {
      SumOfOne(s[..|s| - 1]);
    }
  }

  /** The members of `s` whose key is `k`, in their order in `s` (what
      `groups[k].push(e)` collects). */
  function Select<T, K(==)>(s: seq<T>, key: T -> K, k: K): (r: seq<T>)
    ensures |r| <= |s|
    ensures forall i :: 0 <= i < |r| ==> key(r[i]) == k
  {
    if s == [] then []
    else Select(s[..|s| - 1], key, k) + (if key(s[|s| - 1]) == k then [s[|s| - 1]] else [])
  }

  lemma SelectSnoc<T, K>(s: seq<T>, x: T, key: T -> K, k: K)
    ensures Select(s + [x], key, k) == Select(s, key, k) + (if key(x) == k then [x] else [])
  {
    assert (s + [x])[..|s|] == s;
  }

  /** Adding `x` to `s` adds `val(x)` to the sum of `x`'s group and leaves the others. */
  lemma SumSelectSnoc<T, K>(s: seq<T>, x: T, key: T -> K, val: T -> int, k: K)
    ensures SumOf(Select(s + [x], key, k), val)
         == SumOf(Select(s, key, k), val) + (if key(x) == k then val(x) else 0)
  {
    SelectSnoc(s, x, key, k);
    if key(x) == k {
      SumOfSnoc(Select(s, key, k), x, val);
    } else {
      assert Select(s + [x], key, k) == Select(s, key, k);
    }
  }

  /** A key no member of `s` has selects nothing. */
  lemma {:induction false} SelectAbsent<T, K>(s: seq<T>, key: T -> K, k: K)
    requires forall i :: 0 <= i < |s| ==> key(s[i]) != k
    ensures Select(s, key, k) == []
  {
    if s != [] {
      SelectAbsent(s[..|s| - 1], key, k);
    }
  }

  /** Grouping keeps order: the group of a concatenation is the group of the front
      followed by the group of the back. */
  lemma {:induction false} SelectAppend<T, K>(a: seq<T>, b: seq<T>, key: T -> K, k: K)
    ensures Select(a + b, key, k) == Select(a, key, k) + Select(b, key, k)
    decreases |b|
  {
    if b == [] {
      assert a + b == a;
    } else {
      var init, last := b[..|b| - 1], b[|b| - 1];
      assert b == init + [last];
      assert a + b == (a + init) + [last];
      SelectAppend(a, init, key, k);
      SelectSnoc(a + init, last, key, k);
      SelectSnoc(init, last, key, k);
    }
  }

  /** An element is in the group of `k` exactly when it is in `s` with key `k`. */
  lemma {:induction false} SelectMembership<T, K>(s: seq<T>, key: T -> K, k: K, x: T)
    ensures x in Select(s, key, k) <==> x in s && key(x) == k
  {
    if s != [] {
      var init := s[..|s| - 1];
      SelectMembership(init, key, k, x);
      assert s == init + [s[|s| - 1]];
    }
  }

  /** Grouping keeps each element's multiplicity within its own group. */
  lemma {:induction false} SelectMultiset<T, K>(s: seq<T>, key: T -> K, k: K, x: T)
    ensures multiset(Select(s, key, k))[x] == if key(x) == k then multiset(s)[x] else 0
  {
    if s != [] {
      var init := s[..|s| - 1];
      SelectMultiset(init, key, k, x);
      assert s == init + [s[|s| - 1]];
    }
  }

  /** The group of every element of `s` is all of `s`. */
  lemma {:induction false} SelectAll<T, K>(s: seq<T>, key: T -> K, k: K)
    requires forall i :: 0 <= i < |s| ==> key(s[i]) == k
    ensures Select(s, key, k) == s
  {
    if s != [] {
      SelectAll(s[..|s| - 1], key, k);
    }
  }

  predicate Distinct<K(==)>(s: seq<K>) {
    forall i, j :: 0 <= i < j < |s| ==> s[i] != s[j]
  }

  /** A sequence without repeats holds each value at most once. */
  lemma {:induction false} DistinctCounts<K>(s: seq<K>, x: K)
    requires Distinct(s)
    ensures multiset(s)[x] <= 1
  {
    if s != [] {
      var init := s[..|s| - 1];
      assert s == init + [s[|s| - 1]];
      DistinctCounts(init, x);
      if x == s[|s| - 1] {
        assert x !in init;
      }
    }
  }

  /** The tail of a sequence without repeats has none, and lacks the head. */
  lemma DistinctTail<K>(s: seq<K>, k: K)
    requires Distinct(s) && s != []
    ensures Distinct(s[1..])
    ensures k in s <==> k == s[0] || k in s[1..]
    ensures k == s[0] ==> k !in s[1..]
  {
    assert s == [s[0]] + s[1..];
  }

  /** A permutation of a sequence without repeats has none either. */
  lemma DistinctPermutation<K>(a: seq<K>, b: seq<K>)
    requires Distinct(a) && multiset(a) == multiset(b)
    ensures Distinct(b)
  {
    forall i, j | 0 <= i < j < |b| ensures b[i] != b[j] {
      if b[i] == b[j] {
        assert b == b[..j] + [b[j]] + b[j + 1..];
        assert b[i] in b[..j];
        assert multiset(b) == multiset(b[..j]) + multiset{b[j]} + multiset(b[j + 1..]);
        DistinctCounts(a, b[i]);
      }
    }
  }

  /** The distinct keys of `s` in the order they first occur: the order in which
      the loop creates the object's keys. */
  function FirstKeys<T, K(==)>(s: seq<T>, key: T -> K): seq<K> {
    if s == [] then []
    else
      var init, k := FirstKeys(s[..|s| - 1], key), key(s[|s| - 1]);
      if k in init then init else init + [k]
  }

  lemma FirstKeysSnoc<T, K>(p: seq<T>, x: T, key: T -> K)
    ensures FirstKeys(p + [x], key)
         == if key(x) in FirstKeys(p, key) then FirstKeys(p, key) else FirstKeys(p, key) + [key(x)]
  {
    assert (p + [x])[..|p|] == p;
  }

  /** The key of every member is among the first-seen keys. */
  lemma {:induction false} FirstKeysHas<T, K>(s: seq<T>, key: T -> K, i: nat)
    requires i < |s|
    ensures key(s[i]) in FirstKeys(s, key)
  {
    if i < |s| - 1 {
      FirstKeysHas(s[..|s| - 1], key, i);
    }
  }

  /** A key is among the first-seen keys exactly when its group is not empty. */
  lemma {:induction false} FirstKeysSelect<T, K>(s: seq<T>, key: T -> K, k: K)
    ensures k in FirstKeys(s, key) <==> Select(s, key, k) != []
  {
    if s != [] {
      FirstKeysSelect(s[..|s| - 1], key, k);
    }
  }

  /** Each key is listed once. */
  lemma {:induction false} FirstKeysDistinct<T, K>(s: seq<T>, key: T -> K)
    ensures Distinct(FirstKeys(s, key))
  {
    if s != [] {
      FirstKeysDistinct(s[..|s| - 1], key);
    }
  }

  /** The sum of the group sums, over the keys in `order`. */
  function SumOver<T, K(==)>(order: seq<K>, s: seq<T>, key: T -> K, val: T -> int): int {
    if order == [] then 0 else SumOf(Select(s, key, order[0]), val) + SumOver(order[1..], s, key, val)
  }

  /** The sum of a sequence of numbers. */
  function Total(xs: seq<int>): int {
    if xs == [] then 0 else xs[0] + Total(xs[1..])
  }

  lemma {:induction false} TotalSnoc(xs: seq<int>, x: int)
    ensures Total(xs + [x]) == Total(xs) + x
  {
    if xs != [] {
      assert (xs + [x])[1..] == xs[1..] + [x];
      TotalSnoc(xs[1..], x);
    }
  }

  /** The group sums over the keys in `order`, one per key (what
      `keys.map(k => totals[k])` reads out of the totals object). */
  function GroupSums<T, K(==)>(order: seq<K>, s: seq<T>, key: T -> K, val: T -> int): (r: seq<int>)
    ensures |r| == |order|
    ensures forall i :: 0 <= i < |order| ==> r[i] == SumOf(Select(s, key, order[i]), val)
  {
    if order == [] then [] else [SumOf(Select(s, key, order[0]), val)] + GroupSums(order[1..], s, key, val)
  }

  lemma {:induction false} TotalGroupSums<T, K>(order: seq<K>, s: seq<T>, key: T -> K, val: T -> int)
    ensures Total(GroupSums(order, s, key, val)) == SumOver(order, s, key, val)
  {
    if order != [] {
      TotalGroupSums(order[1..], s, key, val);
      assert GroupSums(order, s, key, val)[1..] == GroupSums(order[1..], s, key, val);
    }
  }

  /** The members of `s` whose key occurs in `order`. */
  function Within<T, K(==)>(s: seq<T>, key: T -> K, order: seq<K>): seq<T> {
    if s == [] then []
    else Within(s[..|s| - 1], key, order) + (if key(s[|s| - 1]) in order then [s[|s| - 1]] else [])
  }

  lemma {:induction false} SumOverSnoc<T, K>(order: seq<K>, s: seq<T>, x: T, key: T -> K, val: T -> int)
    requires Distinct(order)
    ensures SumOver(order, s + [x], key, val)
         == SumOver(order, s, key, val) + (if key(x) in order then val(x) else 0)
  {
    if order != [] {
      SumSelectSnoc(s, x, key, val, order[0]);
      DistinctTail(order, key(x));
      SumOverSnoc(order[1..], s, x, key, val);
    }
  }

  /** Over distinct keys, the group sums add up to the sum over the members whose
      key is among them. */
  lemma {:induction false} SumOverWithin<T, K>(order: seq<K>, s: seq<T>, key: T -> K, val: T -> int)
    requires Distinct(order)
    ensures SumOver(order, s, key, val) == SumOf(Within(s, key, order), val)
  {
    if s == [] {
      SumOverEmpty(order, s, key, val);
    } else {
      var init := s[..|s| - 1];
      var last := s[|s| - 1];
      SumOverWithin(order, init, key, val);
      SumOverSnoc(order, init, last, key, val);
      assert s == init + [last];
      var w := Within(init, key, order);
      if key(last) in order {
        SumOfSnoc(w, last, val);
      } else {
        assert Within(s, key, order) == w;
      }
    }
  }

  lemma {:induction false} SumOverEmpty<T, K>(order: seq<K>, s: seq<T>, key: T -> K, val: T -> int)
    requires s == []
    ensures SumOver(order, s, key, val) == 0
  {
    if order != [] {
      SumOverEmpty(order[1..], s, key, val);
    }
  }

  /** When every key of `s` occurs in `order`, Within keeps all of `s`. */
  lemma {:induction false} WithinAll<T, K>(s: seq<T>, key: T -> K, order: seq<K>)
    requires forall i :: 0 <= i < |s| ==> key(s[i]) in order
    ensures Within(s, key, order) == s
  {
    if s != [] {
      var init := s[..|s| - 1];
      assert forall i :: 0 <= i < |init| ==> init[i] == s[i];
      WithinAll(init, key, order);
    }
  }

  /** The groups partition the sum: adding up the group sums over the keys in
      first-seen order gives the sum over the whole sequence. */
  lemma PartitionSum<T, K>(s: seq<T>, key: T -> K, val: T -> int)
    ensures Total(GroupSums(FirstKeys(s, key), s, key, val)) == SumOf(s, val)
  {
    var order := FirstKeys(s, key);
    TotalGroupSums(order, s, key, val);
    FirstKeysDistinct(s, key);
    forall i | 0 <= i < |s| ensures key(s[i]) in order {
      FirstKeysHas(s, key, i);
    }
    SumOverWithin(order, s, key, val);
    WithinAll(s, key, order);
  }

  /** The groups partition the sequence: their sizes add up to its length. */
  lemma PartitionCount<T, K>(s: seq<T>, key: T -> K)
    ensures Total(GroupSums(FirstKeys(s, key), s, key, One)) == |s|
  {
    PartitionSum(s, key, One);
    SumOfOne(s);
  }

  /** The totals object after visiting `s` from the front: each key mapped to the
      running sum of its members' values. */
  function Totals<T, K>(s: seq<T>, key: T -> K, val: T -> int): map<K, int> {
    if s == [] then map[]
    else
      var m, k := Totals(s[..|s| - 1], key, val), key(s[|s| - 1]);
      m[k := (if k in m then m[k] else 0) + val(s[|s| - 1])]
  }

  /** Visiting one more member adds its value to its key's running sum. */
  lemma TotalsSnoc<T, K>(p: seq<T>, x: T, key: T -> K, val: T -> int, totals: map<K, int>, totals': map<K, int>)
    requires totals == Totals(p, key, val)
    requires totals' == totals[key(x) := (if key(x) in totals then totals[key(x)] else 0) + val(x)]
    ensures totals' == Totals(p + [x], key, val)
  {
    assert (p + [x])[..|p|] == p;
  }

  /** `if (!totals[k]) totals[k] = 0; totals[k] += v` is one update of `totals`:
      resetting a key that holds 0 (falsy in JavaScript) changes nothing. */
  lemma DefaultThenAdd<K>(totals: map<K, int>, k: K, v: int, base: map<K, int>, totals': map<K, int>)
    requires base == if k in totals && totals[k] != 0 then totals else totals[k := 0]
    requires totals' == base[k := base[k] + v]
    ensures totals' == totals[k := (if k in totals then totals[k] else 0) + v]
  {
    if k in totals && totals[k] == 0 {
      assert totals[k := 0] == totals;
    }
  }

  /** The totals object holds exactly the first-seen keys. */
  lemma {:induction false} TotalsKeys<T, K>(s: seq<T>, key: T -> K, val: T -> int, k: K)
    ensures k in Totals(s, key, val) <==> k in FirstKeys(s, key)
  {
    if s != [] {
      TotalsKeys(s[..|s| - 1], key, val, k);
    }
  }

  /** Each key of the totals object holds the sum over its group. */
  lemma {:induction false} TotalsValues<T, K>(s: seq<T>, key: T -> K, val: T -> int, k: K)
    requires k in Totals(s, key, val)
    ensures Totals(s, key, val)[k] == SumOf(Select(s, key, k), val)
  {
    var init, x := s[..|s| - 1], s[|s| - 1];
    assert s == init + [x];
    SumSelectSnoc(init, x, key, val, k);
    if k in Totals(init, key, val) {
      TotalsValues(init, key, val, k);
    } else {
      TotalsKeys(init, key, val, k);
      FirstKeysSelect(init, key, k);
    }
  }

  /** One iteration of Tally's loop: the keys and totals after `p` become those
      after `p + [x]`. */
  lemma TallyStep<T, K>(p: seq<T>, x: T, key: T -> K, val: T -> int,
                        order: seq<K>, totals: map<K, int>,
                        order': seq<K>, base: map<K, int>, totals': map<K, int>)
    requires order == FirstKeys(p, key) && totals == Totals(p, key, val)
    requires order' == if key(x) in totals then order else order + [key(x)]
    requires base == if key(x) in totals && totals[key(x)] != 0 then totals else totals[key(x) := 0]
    requires totals' == base[key(x) := base[key(x)] + val(x)]
    ensures order' == FirstKeys(p + [x], key)
    ensures totals' == Totals(p + [x], key, val)
  {
    assert order' == FirstKeys(p + [x], key) by {
      TotalsKeys(p, key, val, key(x));
      FirstKeysSnoc(p, x, key);
    }
    DefaultThenAdd(totals, key(x), val(x), base, totals');
    TotalsSnoc(p, x, key, val, totals, totals');
  }

  /** The loop `if (!totals[k]) totals[k] = 0; totals[k] += val(x)` over `s`, with
      `order` standing for `Object.keys(totals)`: the keys in first-seen order, and
      for each the sum over its group. */
  method Tally<T, K(==,!new)>(s: seq<T>, key: T -> K, val: T -> int) returns (order: seq<K>, totals: map<K, int>)
    ensures order == FirstKeys(s, key)
    ensures totals == Totals(s, key, val)
    ensures forall k :: k in totals <==> k in order
    ensures forall k :: k in totals ==> totals[k] == SumOf(Select(s, key, k), val)
  {
    order, totals := [], map[];
    var i := 0;
    while i < |s|
      invariant 0 <= i <= |s|
      invariant order == FirstKeys(s[..i], key)
      invariant totals == Totals(s[..i], key, val)
    {
      var x, k := s[i], key(s[i]);
      ghost var order0, totals0 := order, totals;
      if k !in totals || totals[k] == 0 {
        if k !in totals {
          order := order + [k];
        }
        totals := totals[k := 0];
      }
      ghost var base := totals;
      totals := totals[k := totals[k] + val(x)];
      TallyStep(s[..i], x, key, val, order0, totals0, order, base, totals);
      assert s[..i] + [x] == s[..i + 1];
      i := i + 1;
    }
    assert s[..i] == s;
    forall k ensures (k in totals <==> k in order) && (k in totals ==> totals[k] == SumOf(Select(s, key, k), val)) {
      TotalsKeys(s, key, val, k);
      if k in totals {
        TotalsValues(s, key, val, k);
      }
    }
  }

  /** The groups object after visiting `s` from the front: each key mapped to its
      members so far. */
  function Groups<T, K>(s: seq<T>, key: T -> K): map<K, seq<T>> {
    if s == [] then map[]
    else
      var m, k := Groups(s[..|s| - 1], key), key(s[|s| - 1]);
      m[k := (if k in m then m[k] else []) + [s[|s| - 1]]]
  }

  /** Visiting one more member appends it to its key's group. */
  lemma GroupsSnoc<T, K>(p: seq<T>, x: T, key: T -> K, groups: map<K, seq<T>>, groups': map<K, seq<T>>)
    requires groups == Groups(p, key)
    requires groups' == groups[key(x) := (if key(x) in groups then groups[key(x)] else []) + [x]]
    ensures groups' == Groups(p + [x], key)
  {
    assert (p + [x])[..|p|] == p;
  }

  /** `if (!groups[k]) groups[k] = []; groups[k].push(x)` is one update of `groups`. */
  lemma DefaultThenPush<T, K>(groups: map<K, seq<T>>, k: K, x: T, base: map<K, seq<T>>, groups': map<K, seq<T>>)
    requires base == if k in groups then groups else groups[k := []]
    requires groups' == base[k := base[k] + [x]]
    ensures groups' == groups[k := (if k in groups then groups[k] else []) + [x]]
  {
  }

  /** The groups object holds exactly the first-seen keys. */
  lemma {:induction false} GroupsKeys<T, K>(s: seq<T>, key: T -> K, k: K)
    ensures k in Groups(s, key) <==> k in FirstKeys(s, key)
  {
    if s != [] {
      GroupsKeys(s[..|s| - 1], key, k);
    }
  }

  /** Each key of the groups object holds its members in their order. */
  lemma {:induction false} GroupsValues<T, K>(s: seq<T>, key: T -> K, k: K)
    requires k in Groups(s, key)
    ensures Groups(s, key)[k] == Select(s, key, k)
  {
    var init, x := s[..|s| - 1], s[|s| - 1];
    assert s == init + [x];
    SelectSnoc(init, x, key, k);
    if k in Groups(init, key) {
      GroupsValues(init, key, k);
    } else {
      GroupsKeys(init, key, k);
      FirstKeysSelect(init, key, k);
    }
  }

  /** One iteration of Group's loop. */
  lemma GroupStep<T, K>(p: seq<T>, x: T, key: T -> K,
                        order: seq<K>, groups: map<K, seq<T>>,
                        order': seq<K>, base: map<K, seq<T>>, groups': map<K, seq<T>>)
    requires order == FirstKeys(p, key) && groups == Groups(p, key)
    requires order' == if key(x) in groups then order else order + [key(x)]
    requires base == if key(x) in groups then groups else groups[key(x) := []]
    requires groups' == base[key(x) := base[key(x)] + [x]]
    ensures order' == FirstKeys(p + [x], key)
    ensures groups' == Groups(p + [x], key)
  {
    assert order' == FirstKeys(p + [x], key) by {
      GroupsKeys(p, key, key(x));
      FirstKeysSnoc(p, x, key);
    }
    DefaultThenPush(groups, key(x), x, base, groups');
    GroupsSnoc(p, x, key, groups, groups');
  }

  /** The loop `if (!groups[k]) groups[k] = []; groups[k].push(x)` over `s`: the keys
      in first-seen order, and for each the members with that key in their order. */
  method Group<T, K(==,!new)>(s: seq<T>, key: T -> K) returns (order: seq<K>, groups: map<K, seq<T>>)
    ensures order == FirstKeys(s, key)
    ensures groups == Groups(s, key)
    ensures forall k :: k in groups <==> k in order
    ensures forall k :: k in groups ==> groups[k] == Select(s, key, k)
  {
    order, groups := [], map[];
    var i := 0;
    while i < |s|
      invariant 0 <= i <= |s|
      invariant order == FirstKeys(s[..i], key)
      invariant groups == Groups(s[..i], key)
    {
      var x, k := s[i], key(s[i]);
      ghost var order0, groups0 := order, groups;
      if k !in groups {
        groups := groups[k := []];
        order := order + [k];
      }
      ghost var base := groups;
      groups := groups[k := groups[k] + [x]];
      GroupStep(s[..i], x, key, order0, groups0, order, base, groups);
      assert s[..i] + [x] == s[..i + 1];
      i := i + 1;
    }
    assert s[..i] == s;
    forall k ensures (k in groups <==> k in order) && (k in groups ==> groups[k] == Select(s, key, k)) {
      GroupsKeys(s, key, k);
      if k in groups {
        GroupsValues(s, key, k);
      }
    }
  }

  /** `0, 1, ..., n - 1`. */
  function Upto(n: nat): (r: seq<int>)
    ensures |r| == n
    ensures forall i :: 0 <= i < n ==> r[i] == i
  {
    if n == 0 then [] else Upto(n - 1) + [n - 1]
  }

  lemma {:induction false} UptoDistinct(n: nat)
    ensures Distinct(Upto(n))
  {
  }

  /** The slots of `Array(n).fill(0)` after `slots[key(x)] += val(x)` for each `x` of `s`
      in turn; a member whose key is not a slot index touches no slot. */
  function Buckets<T>(s: seq<T>, n: nat, key: T -> int, val: T -> int): (r: seq<int>)
    ensures |r| == n
  {
    if s == [] then seq(n, i => 0)
    else AddToSlot(Buckets(s[..|s| - 1], n, key, val), key(s[|s| - 1]), val(s[|s| - 1]))
  }

  /** `b[j] += v` on an array: slot `j` grows by `v`, and an index that is not a slot
      changes no slot. */
  function AddToSlot(b: seq<int>, j: int, v: int): (r: seq<int>)
    ensures |r| == |b|
    ensures forall i :: 0 <= i < |b| ==> r[i] == b[i] + (if i == j then v else 0)
  {
    if 0 <= j < |b| then b[j := b[j] + v] else b
  }

  /** One more member adds its value to its slot, or to none when its key is not a
      slot index. */
  lemma BucketsSnoc<T>(s: seq<T>, n: nat, key: T -> int, val: T -> int, x: T)
    ensures Buckets(s + [x], n, key, val) == AddToSlot(Buckets(s, n, key, val), key(x), val(x))
  {
    assert (s + [x])[..|s|] == s;
  }

  /** `a[j] += v`, where an index that is not a slot adds a property and leaves the
      slots alone. */
  method AddAt(a: array<int>, j: int, v: int)
    modifies a
    ensures a[..] == AddToSlot(old(a[..]), j, v)
  {
    if 0 <= j < a.Length {
      a[j] := a[j] + v;
    }
  }

  /** Two `Array(n).fill(0)` arrays and the loop that adds `f(x)` and `g(x)` to slot
      `key(x)` of each for every member `x`; a key outside `0 .. n - 1` names no slot. */
  method FillBuckets<T>(s: seq<T>, n: nat, key: T -> int, f: T -> int, g: T -> int)
    returns (a: array<int>, b: array<int>)
    ensures fresh(a) && fresh(b)
    ensures a[..] == Buckets(s, n, key, f)
    ensures b[..] == Buckets(s, n, key, g)
  {
    a := new int[n](_ => 0);
    b := new int[n](_ => 0);
    var i := 0;
    while i < |s|
      invariant 0 <= i <= |s|
      invariant a != b && a.Length == n && b.Length == n
      invariant a[..] == Buckets(s[..i], n, key, f)
      invariant b[..] == Buckets(s[..i], n, key, g)
    {
      var x := s[i];
      var j := key(x);
      BucketsSnoc(s[..i], n, key, f, x);
      BucketsSnoc(s[..i], n, key, g, x);
      assert s[..i + 1] == s[..i] + [x];
      AddAt(a, j, f(x));
      AddAt(b, j, g(x));
      i := i + 1;
    }
    assert s[..i] == s;
  }

  /** Slot `j` holds the sum over the members whose key is `j`. */
  lemma {:induction false} BucketsAt<T>(s: seq<T>, n: nat, key: T -> int, val: T -> int, j: nat)
    requires j < n
    ensures Buckets(s, n, key, val)[j] == SumOf(Select(s, key, j), val)
  {
    if s != [] {
      var init, x := s[..|s| - 1], s[|s| - 1];
      assert s == init + [x];
      BucketsAt(init, n, key, val, j);
      SumSelectSnoc(init, x, key, val, j);
    }
  }

  /** The slots are the group sums over the keys 0 .. n - 1. */
  lemma BucketsAreGroupSums<T>(s: seq<T>, n: nat, key: T -> int, val: T -> int)
    ensures Buckets(s, n, key, val) == GroupSums(Upto(n), s, key, val)
  {
    var b, g := Buckets(s, n, key, val), GroupSums(Upto(n), s, key, val);
    forall j | 0 <= j < n ensures b[j] == g[j] {
      BucketsAt(s, n, key, val, j);
    }
  }

  /** The slots add up to the sum over the members whose key is a slot index. */
  lemma BucketsTotal<T>(s: seq<T>, n: nat, key: T -> int, val: T -> int)
    ensures Total(Buckets(s, n, key, val)) == SumOf(Within(s, key, Upto(n)), val)
  {
    BucketsAreGroupSums(s, n, key, val);
    TotalGroupSums(Upto(n), s, key, val);
    UptoDistinct(n);
    SumOverWithin(Upto(n), s, key, val);
  }
}
