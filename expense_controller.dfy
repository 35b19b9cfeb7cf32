/** The expense handlers of the server (`server/controllers/expenseController.js`)
    over an abstract `expenses` table: rows carry an id and the id of the user who
    owns them, and every handler acts on the caller's rows only. The SQL statements
    are modelled by what they select, insert, update and delete. */
module ExpenseController {
  import opened Wrappers
  import opened Sorting
  import opened Dates
  import opened Grouping

  /** A row of the `expenses` table; a NULL description is None. */
  datatype ExpenseRow = ExpenseRow(id: nat, userId: int, date: string, income: int, expense: int,
                                   description: Option<string>, category: string)

  /** The request body; a missing or empty text field is "", a missing amount None. */
  datatype Body = Body(date: string, income: Option<int>, expense: Option<int>, description: string, category: string)

  /** The HTTP status a handler answers with. */
  datatype Status = Ok | Created | BadRequest | NotFound

  function Code(s: Status): (c: int)
    ensures c in {200, 201, 400, 404}
  {
    match s
    case Ok => 200
    case Created => 201
    case BadRequest => 400
    case NotFound => 404
  }

  /** `x || 0` on a body amount: a missing amount (or 0) stores 0. */
  function Amount(x: Option<int>): (v: int)
    ensures x.None? ==> v == 0
    ensures x.Some? ==> v == x.value
  {
    if x.Some? then x.value else 0
  }

  /** `category || 'Other'`. */
  function CategoryOr(c: string): (r: string)
    ensures c == "" ==> r == "Other"
    ensures c != "" ==> r == c
  {
    if c == "" then "Other" else c
  }

  function RowUser(r: ExpenseRow): int { r.userId }

  /** `WHERE user_id = $1`: the caller's rows, in table order. */
  function Owned(rows: seq<ExpenseRow>, user: int): seq<ExpenseRow> {
    Select(rows, RowUser, user)
  }

  /** Every id occurs once and lies below the next id the table hands out. */
  predicate IdsFresh(rows: seq<ExpenseRow>, nextId: nat) {
    && (forall i :: 0 <= i < |rows| ==> rows[i].id < nextId)
    && (forall i, j :: 0 <= i < j < |rows| ==> rows[i].id != rows[j].id)
  }

  // ---------------------------------------------------------------------------
  // Listing

  /** `ORDER BY date DESC, id DESC`: `a` may come before `b`. */
  predicate NewestFirst(a: ExpenseRow, b: ExpenseRow) {
    (a.date != b.date && DateLe(b.date, a.date)) || (a.date == b.date && a.id >= b.id)
  }

  lemma NewestFirstTotalPreorder()
    ensures TotalPreorder(NewestFirst)
  {
    forall a: ExpenseRow, b: ExpenseRow ensures TotalAt(NewestFirst, a, b) {
      DateLeTotal(a.date, b.date);
    }
    forall a: ExpenseRow, b: ExpenseRow, c: ExpenseRow ensures TransitiveAt(NewestFirst, a, b, c) {
      if NewestFirst(a, b) && NewestFirst(b, c) {
        if a.date != b.date && b.date != c.date {
          DateLeTransitive(c.date, b.date, a.date);
          if a.date == c.date {
            DateLeAntisymmetric(a.date, b.date);
          }
        }
      }
    }
  }

  /** What `getExpenses` answers with. */
  function Listing(rows: seq<ExpenseRow>, user: int): seq<ExpenseRow> {
    SortBy(Owned(rows, user), NewestFirst)
  }

  /** The listing holds exactly the caller's rows, each once, newest date first and,
      on the same date, highest id first. */
  lemma ListingProperties(rows: seq<ExpenseRow>, user: int, x: ExpenseRow)
    ensures x in Listing(rows, user) <==> x in rows && x.userId == user
    ensures multiset(Listing(rows, user)) == multiset(Owned(rows, user))
    ensures Sorted(Listing(rows, user), NewestFirst)
  {
    NewestFirstTotalPreorder();
    SortBySorted(Owned(rows, user), NewestFirst);
    SelectMembership(rows, RowUser, user, x);
    assert x in Listing(rows, user) <==> x in multiset(Owned(rows, user));
  }

  /** With distinct ids the listing order is strict: a later row has an earlier
      date, or the same date and a lower id. */
  lemma ListingStrict(rows: seq<ExpenseRow>, nextId: nat, user: int, i: nat, j: nat)
    requires IdsFresh(rows, nextId)
    requires i < j < |Listing(rows, user)|
    ensures var l := Listing(rows, user);
      (l[i].date != l[j].date && DateLe(l[j].date, l[i].date)) || (l[i].date == l[j].date && l[i].id > l[j].id)
  {
    var l := Listing(rows, user);
    ListingProperties(rows, user, l[i]);
    ListingProperties(rows, user, l[j]);
    assert l[i] in l && l[j] in l;
    if l[i].id == l[j].id {
      var p :| 0 <= p < |rows| && rows[p] == l[i];
      var q :| 0 <= q < |rows| && rows[q] == l[j];
      assert p == q;
      DistinctSortedTwice(l, i, j);
      RowsDistinct(rows, nextId);
      DistinctCounts(rows, l[i]);
      SelectMultiset(rows, RowUser, user, l[i]);
    }
  }

  /** Rows with distinct ids are distinct. */
  lemma RowsDistinct(rows: seq<ExpenseRow>, nextId: nat)
    requires IdsFresh(rows, nextId)
    ensures Distinct(rows)
  {
  }

  /** A sorted listing of distinct rows holds no row twice. */
  lemma DistinctSortedTwice(l: seq<ExpenseRow>, i: nat, j: nat)
    requires i < j < |l| && l[i] == l[j]
    ensures multiset(l)[l[i]] >= 2
  {
    assert l == l[..j] + [l[j]] + l[j + 1..];
    assert l[i] in l[..j];
    assert multiset(l) == multiset(l[..j]) + multiset{l[j]} + multiset(l[j + 1..]);
  }

  // ---------------------------------------------------------------------------
  // Insert, update, delete

  /** The row `addExpense` inserts: the description is not stored. */
  function NewRow(id: nat, user: int, body: Body): (r: ExpenseRow)
    ensures r.id == id && r.userId == user && r.date == body.date
    ensures r.income == Amount(body.income) && r.expense == Amount(body.expense)
    ensures r.description.None? && r.category == CategoryOr(body.category)
  {
    ExpenseRow(id, user, body.date, Amount(body.income), Amount(body.expense), None, CategoryOr(body.category))
  }

  /** `WHERE id = $1 AND user_id = $2`. */
  predicate Matches(r: ExpenseRow, id: int, user: int) {
    r.id == id && r.userId == user
  }

  /** The first row with this id owned by the caller, if any. */
  function Locate(rows: seq<ExpenseRow>, id: int, user: int): (k: Option<nat>)
    ensures k.Some? ==> k.value < |rows| && Matches(rows[k.value], id, user)
    ensures k.None? ==> forall i :: 0 <= i < |rows| ==> !Matches(rows[i], id, user)
  {
    if rows == [] then None
    else if Matches(rows[0], id, user) then Some(0)
    else match Locate(rows[1..], id, user)
      case Some(k) => Some(k + 1)
      case None => None
  }

  /** The row as `updateExpense` writes it: every field from the body with the same
      defaults as an insert, and a description that is NULL when empty. */
  function Revised(r: ExpenseRow, body: Body): (r': ExpenseRow)
    ensures r'.id == r.id && r'.userId == r.userId && r'.date == body.date
    ensures r'.income == Amount(body.income) && r'.expense == Amount(body.expense)
    ensures r'.category == CategoryOr(body.category)
    ensures body.description == "" ==> r'.description.None?
    ensures body.description != "" ==> r'.description == Some(body.description)
  {
    r.(date := body.date, income := Amount(body.income), expense := Amount(body.expense),
       description := if body.description == "" then None else Some(body.description),
       category := CategoryOr(body.category))
  }

  /** `UPDATE expenses SET ... WHERE id = $6 AND user_id = $7`. */
  function UpdateWhere(rows: seq<ExpenseRow>, id: int, user: int, body: Body): (r: seq<ExpenseRow>)
    ensures |r| == |rows|
  {
    seq(|rows|, i requires 0 <= i < |rows| => if Matches(rows[i], id, user) then Revised(rows[i], body) else rows[i])
  }

  /** With distinct ids the update rewrites the one row located and nothing else. */
  lemma UpdateOneRow(rows: seq<ExpenseRow>, nextId: nat, id: int, user: int, body: Body)
    requires IdsFresh(rows, nextId)
    requires Locate(rows, id, user).Some?
    ensures var k := Locate(rows, id, user).value;
      UpdateWhere(rows, id, user, body) == rows[k := Revised(rows[k], body)]
  {
  }

  /** `DELETE FROM expenses WHERE id = $1 AND user_id = $2`: the rows that do not
      match, in their order. */
  function DeleteWhere(rows: seq<ExpenseRow>, id: int, user: int): (r: seq<ExpenseRow>)
    ensures |r| <= |rows|
  {
    if rows == [] then []
    else
      var last := rows[|rows| - 1];
      DeleteWhere(rows[..|rows| - 1], id, user) + (if Matches(last, id, user) then [] else [last])
  }

  /** The delete keeps exactly the rows that do not match. */
  lemma {:induction false} DeleteWhereMembers(rows: seq<ExpenseRow>, id: int, user: int, x: ExpenseRow)
    ensures x in DeleteWhere(rows, id, user) <==> x in rows && !Matches(x, id, user)
  {
    if rows != [] {
      var init := rows[..|rows| - 1];
      DeleteWhereMembers(init, id, user, x);
      assert rows == init + [rows[|rows| - 1]];
    }
  }

  /** A delete keeps the ids distinct and below the next id. */
  lemma {:induction false} DeleteWhereFresh(rows: seq<ExpenseRow>, nextId: nat, id: int, user: int)
    requires IdsFresh(rows, nextId)
    ensures IdsFresh(DeleteWhere(rows, id, user), nextId)
  {
    if rows != [] {
      var init, last := rows[..|rows| - 1], rows[|rows| - 1];
      assert IdsFresh(init, nextId);
      DeleteWhereFresh(init, nextId, id, user);
      var d := DeleteWhere(init, id, user);
      forall i | 0 <= i < |d| ensures d[i].id != last.id {
        DeleteWhereMembers(init, id, user, d[i]);
        assert d[i] in d;
      }
    }
  }

  /** Nothing matches, nothing is deleted. */
  lemma {:induction false} DeleteWhereNone(rows: seq<ExpenseRow>, id: int, user: int)
    requires forall i :: 0 <= i < |rows| ==> !Matches(rows[i], id, user)
    ensures DeleteWhere(rows, id, user) == rows
  {
    if rows != [] {
      DeleteWhereNone(rows[..|rows| - 1], id, user);
      assert rows == rows[..|rows| - 1] + [rows[|rows| - 1]];
    }
  }

  /** With distinct ids exactly one row goes when one matches. */
  lemma {:induction false} DeleteWhereOne(rows: seq<ExpenseRow>, nextId: nat, id: int, user: int)
    requires IdsFresh(rows, nextId)
    requires Locate(rows, id, user).Some?
    ensures |DeleteWhere(rows, id, user)| == |rows| - 1
  {
    var n := |rows|;
    var init, last := rows[..n - 1], rows[n - 1];
    assert IdsFresh(init, nextId);
    if Matches(last, id, user) {
      forall i | 0 <= i < |init| ensures !Matches(init[i], id, user) {
        assert init[i] == rows[i];
      }
      DeleteWhereNone(init, id, user);
    } else {
      var k := Locate(rows, id, user).value;
      assert k < n - 1 && init[k] == rows[k];
      assert Matches(init[k], id, user);
      DeleteWhereOne(init, nextId, id, user);
    }
  }

  /** A delete leaves every other user's rows as they were. */
  lemma {:induction false} DeleteLeavesOthers(rows: seq<ExpenseRow>, id: int, user: int, other: int)
    requires other != user
    ensures Owned(DeleteWhere(rows, id, user), other) == Owned(rows, other)
  {
    if rows != [] {
      var init, last := rows[..|rows| - 1], rows[|rows| - 1];
      DeleteLeavesOthers(init, id, user, other);
      assert rows == init + [last];
      var kept := if Matches(last, id, user) then [] else [last];
      SelectAppend(DeleteWhere(init, id, user), kept, RowUser, other);
      if kept == [] {
        assert DeleteWhere(rows, id, user) == DeleteWhere(init, id, user);
        SelectSnoc(init, last, RowUser, other);
      } else {
        SelectSnoc(DeleteWhere(init, id, user), last, RowUser, other);
        SelectSnoc(init, last, RowUser, other);
      }
    }
  }

  /** An update leaves every other user's rows as they were. */
  lemma {:induction false} UpdateLeavesOthers(rows: seq<ExpenseRow>, id: int, user: int, body: Body, other: int)
    requires other != user
    ensures Owned(UpdateWhere(rows, id, user, body), other) == Owned(rows, other)
  {
    if rows != [] {
      var n := |rows|;
      var init, last := rows[..n - 1], rows[n - 1];
      var u := UpdateWhere(rows, id, user, body);
      assert u[..n - 1] == UpdateWhere(init, id, user, body);
      UpdateLeavesOthers(init, id, user, body, other);
      assert u == u[..n - 1] + [u[n - 1]];
      assert rows == init + [last];
      SelectSnoc(u[..n - 1], u[n - 1], RowUser, other);
      SelectSnoc(init, last, RowUser, other);
    }
  }

  /** An insert for the caller leaves every other user's rows as they were. */
  lemma AddLeavesOthers(rows: seq<ExpenseRow>, r: ExpenseRow, other: int)
    requires r.userId != other
    ensures Owned(rows + [r], other) == Owned(rows, other)
  {
    SelectSnoc(rows, r, RowUser, other);
  }

  // ---------------------------------------------------------------------------
  // Monthly summary

  /** `TO_CHAR(date, 'YYYY-MM')`. */
  function RowMonth(r: ExpenseRow): string { Slice7(r.date) }

  function RowIncome(r: ExpenseRow): int { r.income }
  function RowExpense(r: ExpenseRow): int { r.expense }
  function RowNet(r: ExpenseRow): int { r.income - r.expense }

  /** `ORDER BY month DESC`: `a` may come before `b`. */
  predicate LaterMonth(a: string, b: string) { DateLe(b, a) }

  lemma LaterMonthTotalPreorder()
    ensures TotalPreorder(LaterMonth)
  {
    forall a: string, b: string ensures TotalAt(LaterMonth, a, b) {
      DateLeTotal(a, b);
    }
    forall a: string, b: string, c: string ensures TransitiveAt(LaterMonth, a, b, c) {
      if LaterMonth(a, b) && LaterMonth(b, c) {
        DateLeTransitive(c, b, a);
      }
    }
  }

  /** One row of the summary. */
  datatype MonthSummary = MonthSummary(month: string, totalIncome: int, totalExpense: int, netBalance: int)

  /** The distinct months of the caller's rows, latest first. */
  function SummaryMonths(rows: seq<ExpenseRow>, user: int): seq<string> {
    SortBy(FirstKeys(Owned(rows, user), RowMonth), LaterMonth)
  }

  /** The `SUM`s over the caller's rows of month `m`. */
  function MonthTotals(owned: seq<ExpenseRow>, m: string): MonthSummary {
    var g := Select(owned, RowMonth, m);
    MonthSummary(m, SumOf(g, RowIncome), SumOf(g, RowExpense), SumOf(g, RowNet))
  }

  /** What `getExpensesSummary` answers with. */
  function Summary(rows: seq<ExpenseRow>, user: int): (s: seq<MonthSummary>)
    ensures |s| == |SummaryMonths(rows, user)|
  {
    var owned, months := Owned(rows, user), SummaryMonths(rows, user);
    seq(|months|, j requires 0 <= j < |months| => MonthTotals(owned, months[j]))
  }

  lemma {:induction false} SumOfNet(s: seq<ExpenseRow>)
    ensures SumOf(s, RowNet) == SumOf(s, RowIncome) - SumOf(s, RowExpense)
  {
    if s != [] {
      SumOfNet(s[..|s| - 1]);
    }
  }

  /** Each summary row's net balance is its income less its expense. */
  lemma SummaryNet(rows: seq<ExpenseRow>, user: int, j: nat)
    requires j < |Summary(rows, user)|
    ensures var s := Summary(rows, user)[j]; s.netBalance == s.totalIncome - s.totalExpense
  {
    SumOfNet(Select(Owned(rows, user), RowMonth, SummaryMonths(rows, user)[j]));
  }

  /** The summary has one row per month in which the caller has a row, each month
      once, latest month first. */
  lemma SummaryMonthsProperties(rows: seq<ExpenseRow>, user: int, m: string)
    ensures m in SummaryMonths(rows, user) <==> Select(Owned(rows, user), RowMonth, m) != []
    ensures Distinct(SummaryMonths(rows, user))
    ensures Sorted(SummaryMonths(rows, user), LaterMonth)
  {
    var keys := FirstKeys(Owned(rows, user), RowMonth);
    FirstKeysSelect(Owned(rows, user), RowMonth, m);
    assert m in SummaryMonths(rows, user) <==> m in multiset(keys);
    FirstKeysDistinct(Owned(rows, user), RowMonth);
    DistinctPermutation(keys, SummaryMonths(rows, user));
    LaterMonthTotalPreorder();
    SortBySorted(keys, LaterMonth);
  }

  /** The summary's incomes add up to the caller's total income, and its expenses
      to the caller's total expense. */
  lemma SummaryTotals(rows: seq<ExpenseRow>, user: int)
    ensures Total(GroupSums(SummaryMonths(rows, user), Owned(rows, user), RowMonth, RowIncome)) == SumOf(Owned(rows, user), RowIncome)
    ensures Total(GroupSums(SummaryMonths(rows, user), Owned(rows, user), RowMonth, RowExpense)) == SumOf(Owned(rows, user), RowExpense)
  {
    var owned, months := Owned(rows, user), SummaryMonths(rows, user);
    var keys := FirstKeys(owned, RowMonth);
    FirstKeysDistinct(owned, RowMonth);
    DistinctPermutation(keys, months);
    forall i | 0 <= i < |owned| ensures RowMonth(owned[i]) in months {
      FirstKeysHas(owned, RowMonth, i);
      assert RowMonth(owned[i]) in multiset(keys);
    }
    WithinAll(owned, RowMonth, months);
    TotalGroupSums(months, owned, RowMonth, RowIncome);
    SumOverWithin(months, owned, RowMonth, RowIncome);
    TotalGroupSums(months, owned, RowMonth, RowExpense);
    SumOverWithin(months, owned, RowMonth, RowExpense);
  }

  /** The summary's income column is the per-month income sums. */
  lemma SummaryIncomeColumn(rows: seq<ExpenseRow>, user: int, j: nat)
    requires j < |Summary(rows, user)|
    ensures Summary(rows, user)[j].month == SummaryMonths(rows, user)[j]
    ensures Summary(rows, user)[j].totalIncome == GroupSums(SummaryMonths(rows, user), Owned(rows, user), RowMonth, RowIncome)[j]
    ensures Summary(rows, user)[j].totalExpense == GroupSums(SummaryMonths(rows, user), Owned(rows, user), RowMonth, RowExpense)[j]
  {
  }

  // ---------------------------------------------------------------------------
  // The handlers

  class ExpensesTable {
    var rows: seq<ExpenseRow>
    var nextId: nat

    predicate Valid()
      reads this
    {
      IdsFresh(rows, nextId)
    }

    /** An empty table whose ids start at 1. */
    constructor ()
      ensures rows == [] && nextId == 1 && Valid()
    {
      rows, nextId := [], 1;
    }

    /** `getExpenses`: exactly the caller's rows, newest first. */
    method GetExpenses(user: int) returns (status: Status, list: seq<ExpenseRow>)
      ensures status == Ok && list == Listing(rows, user)
      ensures forall x :: x in list <==> x in rows && x.userId == user
      ensures Sorted(list, NewestFirst)
    {
      status := Ok;
      list := SortBy(Owned(rows, user), NewestFirst);
      forall x ensures x in list <==> x in rows && x.userId == user {
        ListingProperties(rows, user, x);
      }
      ListingProperties(rows, user, ExpenseRow(0, 0, "", 0, 0, None, ""));
    }

    /** `addExpense`: 400 without a date; otherwise one new row for the caller. */
    method AddExpense(user: int, body: Body) returns (status: Status, created: Option<ExpenseRow>)
      requires Valid()
      modifies this
      ensures Valid()
      ensures body.date == "" ==> status == BadRequest && created.None? && rows == old(rows) && nextId == old(nextId)
      ensures body.date != "" ==>
                && status == Created && created == Some(NewRow(old(nextId), user, body))
                && rows == old(rows) + [created.value] && nextId == old(nextId) + 1
    {
      if body.date == "" {
        return BadRequest, None;
      }
      var row := NewRow(nextId, user, body);
      rows := rows + [row];
      nextId := nextId + 1;
      status, created := Created, Some(row);
    }

    /** `updateExpense`: 404 unless the id is one of the caller's rows; otherwise
        that row is rewritten from the body. */
    method UpdateExpense(user: int, id: int, body: Body) returns (status: Status, updated: Option<ExpenseRow>)
      requires Valid()
      modifies this
      ensures Valid() && nextId == old(nextId)
      ensures Locate(old(rows), id, user).None? ==> status == NotFound && updated.None? && rows == old(rows)
      ensures Locate(old(rows), id, user).Some? ==>
                var k := Locate(old(rows), id, user).value;
                && status == Ok && updated == Some(Revised(old(rows)[k], body))
                && rows == old(rows)[k := Revised(old(rows)[k], body)]
    {
      var found := Locate(rows, id, user);
      if found.None? {
        return NotFound, None;
      }
      UpdateOneRow(rows, nextId, id, user, body);
      var k := found.value;
      var row := Revised(rows[k], body);
      rows := UpdateWhere(rows, id, user, body);
      status, updated := Ok, Some(row);
    }

    /** `deleteExpense`: the matching row goes, and the answer is 404 when there was
        none. */
    method DeleteExpense(user: int, id: int) returns (status: Status)
      requires Valid()
      modifies this
      ensures Valid() && nextId == old(nextId)
      ensures rows == DeleteWhere(old(rows), id, user)
      ensures Locate(old(rows), id, user).None? ==> status == NotFound && rows == old(rows)
      ensures Locate(old(rows), id, user).Some? ==> status == Ok && |rows| == |old(rows)| - 1
    {
      var before := rows;
      rows := DeleteWhere(rows, id, user);
      DeleteWhereFresh(before, nextId, id, user);
      if Locate(before, id, user).None? {
        DeleteWhereNone(before, id, user);
        return NotFound;
      }
      DeleteWhereOne(before, nextId, id, user);
      status := Ok;
    }

    /** `getExpensesSummary`: one row per month of the caller's rows, latest first. */
    method GetExpensesSummary(user: int) returns (status: Status, summary: seq<MonthSummary>)
      ensures status == Ok && summary == Summary(rows, user)
      ensures forall j :: 0 <= j < |summary| ==> summary[j].netBalance == summary[j].totalIncome - summary[j].totalExpense
    {
      status, summary := Ok, Summary(rows, user);
      forall j | 0 <= j < |summary| ensures summary[j].netBalance == summary[j].totalIncome - summary[j].totalExpense {
        SummaryNet(rows, user, j);
      }
    }
  }
}
