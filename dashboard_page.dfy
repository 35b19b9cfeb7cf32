/** The ledger logic of the `Dashboard` page component (`src/pages/Dashboard.jsx`):
    the entries are kept sorted by date, an added entry is inserted and the list
    re-sorted, the entries are grouped by month with a balance that runs across all
    months, and the chart data sums the entries into twelve month-of-year slots. */
module DashboardPage {
  import opened Wrappers
  import opened Numbers
  import opened Sorting
  import opened Dates
  import opened Grouping

  /** An expense row as the server returns it, with the fields the page reads. */
  datatype Row = Row(id: int, date: string, income: int, expense: int)

  function RowDate(r: Row): string { r.date }
  function Income(r: Row): int { r.income }
  function Expense(r: Row): int { r.expense }

  /** `rows.sort((a, b) => new Date(a.date) - new Date(b.date))`. */
  function SortedByDate(rows: seq<Row>): seq<Row> {
    SortBy(rows, ByDate(RowDate))
  }

  /** Sorting by date keeps every row, orders the rows by date and keeps rows with
      the same date in their order. */
  lemma SortedByDateProperties(rows: seq<Row>, x: Row)
    ensures multiset(SortedByDate(rows)) == multiset(rows)
    ensures Sorted(SortedByDate(rows), ByDate(RowDate))
    ensures TiedWith(SortedByDate(rows), ByDate(RowDate), x) == TiedWith(rows, ByDate(RowDate), x)
  {
    ByDateTotalPreorder(RowDate);
    SortBySorted(rows, ByDate(RowDate));
    SortByStable(rows, ByDate(RowDate), x);
  }

  /** After an add the list holds the old rows and the new one, sorted by date, and
      the new row comes after every old row with the same date. */
  lemma AddedRowComesLast(entries: seq<Row>, row: Row)
    ensures multiset(SortedByDate(entries + [row])) == multiset(entries) + multiset{row}
    ensures Sorted(SortedByDate(entries + [row]), ByDate(RowDate))
    ensures TiedWith(SortedByDate(entries + [row]), ByDate(RowDate), row)
         == TiedWith(entries, ByDate(RowDate), row) + [row]
  {
    SortedByDateProperties(entries + [row], row);
    TiedWithSnoc(entries, ByDate(RowDate), row, row);
    DateLeReflexive(row.date);
  }

  /** The body of the add request. */
  datatype AddRequest = AddRequest(date: string, income: Num, expense: Num)

  /** A grouped record: `{ ...e, balance }`. */
  datatype Balanced = Balanced(row: Row, balance: int)

  /** Cumulative income minus cumulative expense. */
  function Cumulative(rows: seq<Row>): int {
    SumOf(rows, Income) - SumOf(rows, Expense)
  }

  /** The records `groupByMonth` pushes, in visiting order: the last one carries the
      cumulative balance over all rows. */
  function WithBalances(rows: seq<Row>): (r: seq<Balanced>)
    ensures |r| == |rows|
  {
    if rows == [] then []
    else WithBalances(rows[..|rows| - 1]) + [Balanced(rows[|rows| - 1], Cumulative(rows))]
  }

  /** Record `k` carries row `k` and the balance over rows `0..k` of every month: the
      balance is not reset at a month boundary. */
  lemma {:induction false} WithBalancesAt(rows: seq<Row>, k: nat)
    requires k < |rows|
    ensures WithBalances(rows)[k] == Balanced(rows[k], Cumulative(rows[..k + 1]))
  {
    if k < |rows| - 1 {
      var init := rows[..|rows| - 1];
      WithBalancesAt(init, k);
      assert init[k] == rows[k] && init[..k + 1] == rows[..k + 1];
    } else {
      assert rows[..k + 1] == rows;
    }
  }

  /** The group key: one label per calendar month. */
  function RowMonth(r: Row): string { MonthLabel(r.date) }
  function RecordMonth(b: Balanced): string { RowMonth(b.row) }

  /** A row field read on a record. */
  function OfRow(val: Row -> int): Balanced -> int {
    (b: Balanced) => val(b.row)
  }

  /** The months of the groups are the months of the rows in first-seen order. */
  lemma {:induction false} RecordMonths(rows: seq<Row>)
    ensures FirstKeys(WithBalances(rows), RecordMonth) == FirstKeys(rows, RowMonth)
  {
    if rows != [] {
      var init, x := rows[..|rows| - 1], rows[|rows| - 1];
      assert rows == init + [x];
      RecordMonths(init);
      FirstKeysSnoc(init, x, RowMonth);
      FirstKeysSnoc(WithBalances(init), Balanced(x, Cumulative(rows)), RecordMonth);
    }
  }

  /** Visiting one more row appends its record. */
  lemma WithBalancesSnoc(rows: seq<Row>)
    requires rows != []
    ensures WithBalances(rows)
         == WithBalances(rows[..|rows| - 1]) + [Balanced(rows[|rows| - 1], Cumulative(rows))]
  {
  }

  /** One iteration of `groupByMonth`: the running sums grow by the row's
      amounts and one record is appended. */
  lemma RecordStep(rows: seq<Row>, i: nat)
    requires i < |rows|
    ensures SumOf(rows[..i + 1], Income) == SumOf(rows[..i], Income) + rows[i].income
    ensures SumOf(rows[..i + 1], Expense) == SumOf(rows[..i], Expense) + rows[i].expense
    ensures WithBalances(rows[..i + 1])
         == WithBalances(rows[..i]) + [Balanced(rows[i], Cumulative(rows[..i + 1]))]
  {
    SumOfPrefixStep(rows, Income, i);
    SumOfPrefixStep(rows, Expense, i);
    assert rows[..i + 1][..i] == rows[..i];
    WithBalancesSnoc(rows[..i + 1]);
  }

  /** One iteration of `groupByMonth` on the months and groups objects. */
  lemma GroupByMonthStep(rows: seq<Row>, i: nat, record: Balanced,
                         months: seq<string>, groups: map<string, seq<Balanced>>,
                         months': seq<string>, base: map<string, seq<Balanced>>,
                         groups': map<string, seq<Balanced>>)
    requires i < |rows|
    requires months == FirstKeys(WithBalances(rows[..i]), RecordMonth)
    requires groups == Groups(WithBalances(rows[..i]), RecordMonth)
    requires record == Balanced(rows[i], (SumOf(rows[..i], Income) + rows[i].income)
                                         - (SumOf(rows[..i], Expense) + rows[i].expense))
    requires months' == if RecordMonth(record) in groups then months else months + [RecordMonth(record)]
    requires base == if RecordMonth(record) in groups then groups else groups[RecordMonth(record) := []]
    requires groups' == base[RecordMonth(record) := base[RecordMonth(record)] + [record]]
    ensures SumOf(rows[..i + 1], Income) == SumOf(rows[..i], Income) + rows[i].income
    ensures SumOf(rows[..i + 1], Expense) == SumOf(rows[..i], Expense) + rows[i].expense
    ensures months' == FirstKeys(WithBalances(rows[..i + 1]), RecordMonth)
    ensures groups' == Groups(WithBalances(rows[..i + 1]), RecordMonth)
  {
    var p := WithBalances(rows[..i]);
    RecordStep(rows, i);
    assert record == Balanced(rows[i], Cumulative(rows[..i + 1]));
    assert WithBalances(rows[..i + 1]) == p + [record];
    GroupStep(p, record, RecordMonth, months, groups, months', base, groups');
  }

  /** A month's records add up to the month's rows. */
  lemma {:induction false} RecordSums(rows: seq<Row>, m: string, val: Row -> int)
    ensures SumOf(Select(WithBalances(rows), RecordMonth, m), OfRow(val))
         == SumOf(Select(rows, RowMonth, m), val)
  {
    if rows != [] {
      var init, x := rows[..|rows| - 1], rows[|rows| - 1];
      var b := Balanced(x, Cumulative(rows));
      assert rows == init + [x];
      WithBalancesSnoc(rows);
      RecordSums(init, m, val);
      SumSelectSnoc(init, x, RowMonth, val, m);
      SumSelectSnoc(WithBalances(init), b, RecordMonth, OfRow(val), m);
    }
  }

  /** Every record is the record of some row, with the balance over all rows up to
      and including it. */
  lemma RecordOfRow(rows: seq<Row>, x: Balanced)
    requires x in WithBalances(rows)
    ensures exists k :: 0 <= k < |rows| && x == Balanced(rows[k], Cumulative(rows[..k + 1]))
  {
    var records := WithBalances(rows);
    var k :| 0 <= k < |records| && records[k] == x;
    WithBalancesAt(rows, k);
  }

  /** A grouped record is one of the records (so RecordOfRow gives its balance) and
      sits in the group of its own month. */
  lemma GroupedRecord(rows: seq<Row>, m: string, x: Balanced)
    requires m in Groups(WithBalances(rows), RecordMonth)
    requires x in Groups(WithBalances(rows), RecordMonth)[m]
    ensures RowMonth(x.row) == m
    ensures x in WithBalances(rows)
  {
    GroupsValues(WithBalances(rows), RecordMonth, m);
    SelectMembership(WithBalances(rows), RecordMonth, m, x);
  }

  /** Every row lands in exactly one group: the group sizes add up to the number of
      rows. */
  lemma EveryRowGroupedOnce(rows: seq<Row>)
    ensures Total(GroupSums(FirstKeys(WithBalances(rows), RecordMonth), WithBalances(rows), RecordMonth, One)) == |rows|
  {
    PartitionCount(WithBalances(rows), RecordMonth);
  }

  /** The totals shown under a month heading. */
  datatype GroupTotals = GroupTotals(totalIncome: int, totalExpense: int)

  /** `records.reduce((sum, r) => sum + r.income, 0)` and the same for expense. */
  function GroupTotalsOf(records: seq<Balanced>): GroupTotals {
    GroupTotals(SumOf(records, OfRow(Income)), SumOf(records, OfRow(Expense)))
  }

  /** A month's totals are the income and expense sums of that month's rows. */
  lemma GroupTotalsOfMonth(rows: seq<Row>, m: string)
    requires m in Groups(WithBalances(rows), RecordMonth)
    ensures GroupTotalsOf(Groups(WithBalances(rows), RecordMonth)[m])
         == GroupTotals(SumOf(Select(rows, RowMonth, m), Income), SumOf(Select(rows, RowMonth, m), Expense))
  {
    GroupsValues(WithBalances(rows), RecordMonth, m);
    RecordSums(rows, m, Income);
    RecordSums(rows, m, Expense);
  }

  /** The chart slot of a row: `new Date(date).getMonth()`, -1 for an unreadable date. */
  function MonthIndexOf(r: Row): int { MonthIndex(r.date) }

  /** Slot `j` collects the rows of month `j + 1` of every year. */
  lemma SlotOfRow(r: Row, j: nat)
    requires IsIsoDate(r.date) && j < 12
    ensures MonthIndexOf(r) == j <==> Month(r.date) == j + 1
  {
    MonthIndexOfIso(r.date);
  }

  /** Slot `j` of the chart data holds the sums over the rows whose month of year is
      `j + 1`. */
  lemma ChartSlot(rows: seq<Row>, j: nat)
    requires j < 12
    ensures Buckets(rows, 12, MonthIndexOf, Income)[j] == SumOf(Select(rows, MonthIndexOf, j), Income)
    ensures Buckets(rows, 12, MonthIndexOf, Expense)[j] == SumOf(Select(rows, MonthIndexOf, j), Expense)
  {
    BucketsAt(rows, 12, MonthIndexOf, Income, j);
    BucketsAt(rows, 12, MonthIndexOf, Expense, j);
  }

  /** When every date is readable the twelve slots add up to the total income and
      the total expense. */
  lemma ChartTotals(rows: seq<Row>)
    requires forall i :: 0 <= i < |rows| ==> IsIsoDate(rows[i].date)
    ensures Total(Buckets(rows, 12, MonthIndexOf, Income)) == SumOf(rows, Income)
    ensures Total(Buckets(rows, 12, MonthIndexOf, Expense)) == SumOf(rows, Expense)
  {
    BucketsTotal(rows, 12, MonthIndexOf, Income);
    BucketsTotal(rows, 12, MonthIndexOf, Expense);
    var slots := Upto(12);
    forall i | 0 <= i < |rows| ensures MonthIndexOf(rows[i]) in slots {
      var m := MonthIndexOf(rows[i]);
      assert slots[m] == m;
    }
    WithinAll(rows, MonthIndexOf, slots);
  }

  /** The state of the page component. */
  class Page {
    var entries: seq<Row>
    var date: string
    var income: string
    var expense: string
    var loading: bool

    constructor ()
      ensures entries == [] && date == "" && income == "" && expense == "" && loading
    {
      entries, date, income, expense, loading := [], "", "", "", true;
    }

    /** `loadExpenses` with the rows the server answered, or None when the request
        failed: the rows are sorted by date; loading ends either way. */
    method LoadExpenses(reply: Option<seq<Row>>)
      modifies this
      ensures reply.Some? ==> entries == SortedByDate(reply.value)
      ensures reply.None? ==> entries == old(entries)
      ensures !loading
      ensures date == old(date) && income == old(income) && expense == old(expense)
    {
      if reply.Some? {
        entries := SortBy(reply.value, ByDate(RowDate));
      }
      loading := false;
    }

    /** `handleAddEntry`, given the row the server answers the add request with, or
        None when the request fails. With an empty date nothing is sent and nothing
        changes; on success the row is inserted, the list re-sorted and the inputs
        cleared; on failure the list and inputs stay as they were. */
    method HandleAddEntry(reply: Option<Row>) returns (request: Option<AddRequest>)
      modifies this
      ensures old(date) == "" ==> request.None?
      ensures old(date) != "" ==> request == Some(AddRequest(old(date), InputAmount(old(income)), InputAmount(old(expense))))
      ensures old(date) != "" && reply.Some? ==>
                entries == SortedByDate(old(entries) + [reply.value]) && date == "" && income == "" && expense == ""
      ensures old(date) == "" || reply.None? ==>
                entries == old(entries) && date == old(date) && income == old(income) && expense == old(expense)
      ensures loading == old(loading)
    {
      if date == "" {
        return None;
      }
      request := Some(AddRequest(date, InputAmount(income), InputAmount(expense)));
      if reply.Some? {
        var updatedEntries := entries + [reply.value];
        entries := SortBy(updatedEntries, ByDate(RowDate));
        income, expense, date := "", "", "";
      }
    }

    /** `groupByMonth`: the months in first-seen order, and for each the records of
        its rows with the balance accumulated over all rows so far. */
    method GroupByMonth() returns (months: seq<string>, groups: map<string, seq<Balanced>>)
      ensures months == FirstKeys(WithBalances(entries), RecordMonth)
      ensures groups == Groups(WithBalances(entries), RecordMonth)
    {
      months, groups := [], map[];
      var cumulativeIncome, cumulativeExpense := 0, 0;
      var i := 0;
      while i < |entries|
        invariant 0 <= i <= |entries|
        invariant cumulativeIncome == SumOf(entries[..i], Income)
        invariant cumulativeExpense == SumOf(entries[..i], Expense)
        invariant months == FirstKeys(WithBalances(entries[..i]), RecordMonth)
        invariant groups == Groups(WithBalances(entries[..i]), RecordMonth)
      {
        var e := entries[i];
        var month := MonthLabel(e.date);
        ghost var months0, groups0 := months, groups;
        if month !in groups {
          groups := groups[month := []];
          months := months + [month];
        }
        cumulativeIncome := cumulativeIncome + e.income;
        cumulativeExpense := cumulativeExpense + e.expense;
        var record := Balanced(e, cumulativeIncome - cumulativeExpense);
        ghost var base := groups;
        groups := groups[month := groups[month] + [record]];
        GroupByMonthStep(entries, i, record, months0, groups0, months, base, groups);
        i := i + 1;
      }
      assert entries[..i] == entries;
    }

    /** `chartData`: `Array(12).fill(0)` for income and for expense, each row added to
        the slot of its month of year; a row with an unreadable date adds to no slot. */
    method ChartData() returns (incomeData: array<int>, expenseData: array<int>)
      ensures fresh(incomeData) && fresh(expenseData)
      ensures incomeData[..] == Buckets(entries, 12, MonthIndexOf, Income)
      ensures expenseData[..] == Buckets(entries, 12, MonthIndexOf, Expense)
    {
      incomeData, expenseData := FillBuckets(entries, 12, MonthIndexOf, Income, Expense);
    }
  }
}
