/** The `ExpenseTable` component (`src/ExpenseTable.jsx`): entries carry a type and
    one amount; a sorted copy of them is shown with a running balance to which an
    `Income` entry adds its amount and every other entry subtracts it. */
module ExpenseTable {
  import opened Wrappers
  import opened Sorting
  import opened Dates
  import opened Grouping

  /** An entry as the component receives it; a missing description is "". */
  datatype Entry = Entry(date: string, kind: string, amount: int, description: string)

  function EntryDate(e: Entry): string { e.date }

  /** `[...entries].sort((a, b) => new Date(a.date) - new Date(b.date))`. */
  function SortedCopy(entries: seq<Entry>): seq<Entry> {
    SortBy(entries, ByDate(EntryDate))
  }

  /** The sorted copy holds the same entries, ordered by date, with entries of the
      same date in their original order. */
  lemma SortedCopyProperties(entries: seq<Entry>, x: Entry)
    ensures multiset(SortedCopy(entries)) == multiset(entries)
    ensures Sorted(SortedCopy(entries), ByDate(EntryDate))
    ensures TiedWith(SortedCopy(entries), ByDate(EntryDate), x) == TiedWith(entries, ByDate(EntryDate), x)
  {
    ByDateTotalPreorder(EntryDate);
    SortBySorted(entries, ByDate(EntryDate));
    SortByStable(entries, ByDate(EntryDate), x);
  }

  /** What an entry does to the balance: `Income` adds the amount, any other type,
      `Expense` or not, subtracts it. */
  function Signed(e: Entry): (v: int)
    ensures e.kind == "Income" ==> v == e.amount
    ensures e.kind != "Income" ==> v == -e.amount
  {
    if e.kind == "Income" then e.amount else -e.amount
  }

  /** One table row: date, Expense cell, Income cell, description, balance; a None
      cell shows '-'. */
  datatype Row = Row(date: string, expense: Option<int>, income: Option<int>, description: string, balance: int)

  /** The cells of a row. The amount shows in the Expense column exactly for type
      `Expense` and in the Income column exactly for type `Income`; a missing
      description shows as '-'. */
  function RowFor(e: Entry, balance: int): (r: Row)
    ensures r.expense.Some? <==> e.kind == "Expense"
    ensures r.income.Some? <==> e.kind == "Income"
    ensures r.expense.Some? ==> r.expense.value == e.amount
    ensures r.income.Some? ==> r.income.value == e.amount
    ensures e.description == "" ==> r.description == "-"
    ensures e.description != "" ==> r.description == e.description
    ensures r.date == e.date && r.balance == balance
  {
    Row(e.date,
        if e.kind == "Expense" then Some(e.amount) else None,
        if e.kind == "Income" then Some(e.amount) else None,
        if e.description == "" then "-" else e.description,
        balance)
  }

  /** The rows for the (sorted) entries, built one at a time: the last row shows the
      signed sum over all of them. */
  function Rows(sorted: seq<Entry>): (rows: seq<Row>)
    ensures |rows| == |sorted|
  {
    if sorted == [] then []
    else Rows(sorted[..|sorted| - 1]) + [RowFor(sorted[|sorted| - 1], SumOf(sorted, Signed))]
  }

  /** Row `i` shows entry `i` and the signed sum over entries `0..i`. */
  lemma {:induction false} RowsAt(sorted: seq<Entry>, i: nat)
    requires i < |sorted|
    ensures Rows(sorted)[i] == RowFor(sorted[i], SumOf(sorted[..i + 1], Signed))
  {
    if i < |sorted| - 1 {
      var init := sorted[..|sorted| - 1];
      RowsAt(init, i);
      assert init[i] == sorted[i] && init[..i + 1] == sorted[..i + 1];
    } else {
      assert sorted[..i + 1] == sorted;
    }
  }

  /** An entry of a type other than `Income` and `Expense` shows '-' in both amount
      columns and still lowers the balance by its amount. */
  lemma {:induction false} OtherTypeLowersBalance(sorted: seq<Entry>, i: nat)
    requires i < |sorted|
    requires sorted[i].kind != "Income" && sorted[i].kind != "Expense"
    ensures Rows(sorted)[i].income.None? && Rows(sorted)[i].expense.None?
    ensures Rows(sorted)[i].balance == (if i == 0 then 0 else Rows(sorted)[i - 1].balance) - sorted[i].amount
  {
    RowsAt(sorted, i);
    SumOfPrefixStep(sorted, Signed, i);
    if i > 0 {
      RowsAt(sorted, i - 1);
      assert sorted[..i - 1 + 1] == sorted[..i];
    } else {
      assert sorted[..0] == [];
    }
  }

  /** The render: `let balance = 0`, then the sorted copy mapped to rows while the
      balance is updated. The caller's array is only read, never reordered. */
  method Render(entries: array<Entry>) returns (rows: seq<Row>)
    ensures rows == Rows(SortedCopy(entries[..]))
  {
    var sorted := SortBy(entries[..], ByDate(EntryDate));
    var balance := 0;
    rows := [];
    var i := 0;
    while i < |sorted|
      invariant 0 <= i <= |sorted|
      invariant balance == SumOf(sorted[..i], Signed)
      invariant rows == Rows(sorted[..i])
    {
      var entry := sorted[i];
      if entry.kind == "Income" {
        balance := balance + entry.amount;
      } else {
        balance := balance - entry.amount;
      }
      SumOfPrefixStep(sorted, Signed, i);
      assert sorted[..i + 1][..i] == sorted[..i];
      rows := rows + [RowFor(entry, balance)];
      i := i + 1;
    }
    assert sorted[..i] == sorted;
  }
}
