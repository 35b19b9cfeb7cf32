/** The ledger logic of the `ExpenseTracker` component
    (`src/components/ExpenseTracker.jsx`): entries are appended unsorted, grouped by
    the first seven characters of their date, shown with a balance that restarts
    for every month, and written to and read from CSV text. An amount is whatever
    `parseFloat` made of an input, so it may be NaN. */
module ExpenseTracker {
  import opened Wrappers
  import opened Text
  import opened Numbers
  import opened Dates
  import opened Grouping
  import opened CsvUtils

  datatype Item = Item(date: string, income: Num, expense: Num)

  /** `entry.date.slice(0, 7)`: the `YYYY-MM` prefix of an ISO date. */
  function ItemMonth(it: Item): string { Slice7(it.date) }

  /** Grouping keeps every entry exactly once: the group sizes add up to the number
      of entries (each group holds its entries in order, GroupsValues). */
  lemma GroupsKeepEveryEntry(entries: seq<Item>)
    ensures Total(GroupSums(FirstKeys(entries, ItemMonth), entries, ItemMonth, One)) == |entries|
  {
    PartitionCount(entries, ItemMonth);
  }

  // ---------------------------------------------------------------------------
  // The per-month tables

  /** `item.income - item.expense`. */
  function Net(it: Item): Num { NumSub(it.income, it.expense) }

  /** The balance after the items of one month, starting from 0. */
  function Balance(items: seq<Item>): Num {
    if items == [] then Finite(0) else NumAdd(Balance(items[..|items| - 1]), Net(items[|items| - 1]))
  }

  /** The net of an item whose amounts are both numbers. */
  function NetValue(it: Item): int { OrZero(it.income) - OrZero(it.expense) }

  predicate AllFinite(items: seq<Item>) {
    forall i :: 0 <= i < |items| ==> items[i].income.Finite? && items[i].expense.Finite?
  }

  /** The balance is a number exactly when every amount is, and is then the sum of
      the nets; a single NaN amount makes it NaN from there on. */
  lemma {:induction false} BalanceValue(items: seq<Item>)
    ensures Balance(items).Finite? <==> AllFinite(items)
    ensures Balance(items).Finite? ==> Balance(items).value == SumOf(items, NetValue)
  {
    if items != [] {
      var init := items[..|items| - 1];
      BalanceValue(init);
      assert forall i :: 0 <= i < |init| ==> init[i] == items[i];
    }
  }

  /** `x || "-"`: 0 and NaN show as '-' (None). */
  function Cell(x: Num): (c: Option<int>)
    ensures c.Some? <==> x.Finite? && x.value != 0
    ensures c.Some? ==> c.value == x.value
  {
    if x.Finite? && x.value != 0 then Some(x.value) else None
  }

  /** One table row: date, income and expense cells, balance. */
  datatype TrackerRow = TrackerRow(date: string, income: Option<int>, expense: Option<int>, balance: Num)

  function RowOf(it: Item, balance: Num): TrackerRow {
    TrackerRow(it.date, Cell(it.income), Cell(it.expense), balance)
  }

  /** A month's table, built row by row: the last row shows the balance over all of
      the month's items. */
  function MonthRows(items: seq<Item>): (rows: seq<TrackerRow>)
    ensures |rows| == |items|
  {
    if items == [] then []
    else MonthRows(items[..|items| - 1]) + [RowOf(items[|items| - 1], Balance(items))]
  }

  /** Row `k` of a month's table shows item `k` and the balance over the month's
      items `0..k`. */
  lemma {:induction false} MonthRowsAt(items: seq<Item>, k: nat)
    requires k < |items|
    ensures MonthRows(items)[k] == RowOf(items[k], Balance(items[..k + 1]))
  {
    if k < |items| - 1 {
      var init := items[..|items| - 1];
      MonthRowsAt(init, k);
      assert init[k] == items[k] && init[..k + 1] == items[..k + 1];
    } else {
      assert items[..k + 1] == items;
    }
  }

  /** The balance restarts at 0 for each month: the first row of a month shows the
      net of that row alone. */
  lemma FirstRowOfMonth(items: seq<Item>)
    requires items != []
    ensures MonthRows(items)[0].balance == Net(items[0])
  {
    MonthRowsAt(items, 0);
    assert items[..1][..0] == [];
  }

  /** The tables rendered for the entries: one per month in first-seen order, each
      over that month's entries in their order. */
  function Tables(entries: seq<Item>): (tables: seq<seq<TrackerRow>>)
    ensures |tables| == |FirstKeys(entries, ItemMonth)|
  {
    var months := FirstKeys(entries, ItemMonth);
    seq(|months|, j requires 0 <= j < |months| => MonthRows(Select(entries, ItemMonth, months[j])))
  }

  /** One month's table: `let balance = 0`, then each item's net added in turn. */
  method MonthTable(items: seq<Item>) returns (rows: seq<TrackerRow>)
    ensures rows == MonthRows(items)
  {
    var balance := Finite(0);
    rows := [];
    var k := 0;
    while k < |items|
      invariant 0 <= k <= |items|
      invariant balance == Balance(items[..k])
      invariant rows == MonthRows(items[..k])
    {
      var item := items[k];
      balance := NumAdd(balance, NumSub(item.income, item.expense));
      assert items[..k + 1][..k] == items[..k];
      rows := rows + [RowOf(item, balance)];
      k := k + 1;
    }
    assert items[..k] == items;
  }

  // ---------------------------------------------------------------------------
  // CSV

  /** `${e.date},${e.income},${e.expense}`. */
  function ItemText(it: Item): string {
    it.date + "," + FormatNum(it.income) + "," + FormatNum(it.expense)
  }

  function ItemTexts(items: seq<Item>): seq<string> {
    seq(|items|, i requires 0 <= i < |items| => ItemText(items[i]))
  }

  /** The lines of a built text: the header, then one line per entry. */
  function TrackerLines(items: seq<Item>): seq<string> {
    [Header] + ItemTexts(items)
  }

  /** `[headers, ...rows].join("\n")`: the header line and one line per entry joined
      by newlines; with no entries, the header alone. */
  function BuildCsv(items: seq<Item>): string {
    Join(TrackerLines(items), '\n')
  }

  /** No entries give the header without a newline, unlike the file `createCSVFile`
      writes. */
  lemma BuildCsvEmpty()
    ensures BuildCsv([]) == Header
    ensures BuildCsv([]) != EmptyFile()
  {
    assert ItemTexts([]) == [];
    assert [Header] + [] == [Header];
  }

  function ToRecord(it: Item): Record {
    Record(it.date, OrZero(it.income), OrZero(it.expense))
  }

  function ToRecords(items: seq<Item>): seq<Record> {
    seq(|items|, i requires 0 <= i < |items| => ToRecord(items[i]))
  }

  /** With at least one entry and no NaN amount the text is the one `writeCSVFile`
      writes for the same rows. */
  lemma BuildCsvIsSerialize(items: seq<Item>)
    requires items != [] && AllFinite(items)
    ensures BuildCsv(items) == Serialize(ToRecords(items))
  {
    var records := ToRecords(items);
    forall i | 0 <= i < |items| ensures ItemTexts(items)[i] == RowTexts(records)[i] {
      assert records[i] == ToRecord(items[i]);
    }
    assert ItemTexts(items) == RowTexts(records);
    SerializeAsJoin(records);
  }

  /** `parseFloat(f || 0)` on a destructured field: a missing or empty field reads
      as 0, any other field as `parseFloat` reads it, NaN included. */
  function CsvAmount(fields: seq<string>, i: nat): (x: Num)
    ensures i < |fields| && fields[i] != "" ==> x == ParseFloat(fields[i])
    ensures i >= |fields| || fields[i] == "" ==> x == Finite(0)
  {
    if i < |fields| && fields[i] != "" then ParseFloat(fields[i]) else Finite(0)
  }

  /** `const [date, income, expense] = line.split(",")`: the date is not trimmed. */
  function ParseItem(line: string): Item {
    var fields := Split(line, ',');
    Item(fields[0], CsvAmount(fields, 1), CsvAmount(fields, 2))
  }

  /** `lines.map(..)` over the lines after the header. */
  function ParseItems(lines: seq<string>): seq<Item> {
    seq(|lines|, i requires 0 <= i < |lines| => ParseItem(lines[i]))
  }

  /** `text.trim().split("\n").slice(1).map(..)`. */
  function ParseCsv(text: string): seq<Item> {
    ParseItems(Split(Trim(text), '\n')[1..])
  }

  /** The first line is dropped: one entry per newline of the trimmed text. */
  lemma ParseCsvCount(text: string)
    ensures |ParseCsv(text)| == Count(Trim(text), '\n')
  {
    SplitCount(Trim(text), '\n');
  }

  /** A line without commas is a date alone, with both amounts 0. */
  lemma ParseItemMissingAmounts(line: string)
    requires ',' !in line
    ensures ParseItem(line) == Item(line, Finite(0), Finite(0))
  {
    SplitAbsent(line, ',');
  }

  /** A date the round trip keeps: no comma and no newline. */
  predicate CsvSafe(d: string) {
    ',' !in d && '\n' !in d
  }

  lemma ItemTextFields(it: Item)
    requires ',' !in it.date
    ensures Split(ItemText(it), ',') == [it.date, FormatNum(it.income), FormatNum(it.expense)]
  {
    FormatNumAvoids(it.income, ',');
    FormatNumAvoids(it.expense, ',');
    JoinThree(it.date, FormatNum(it.income), FormatNum(it.expense), ',');
    SplitJoin([it.date, FormatNum(it.income), FormatNum(it.expense)], ',');
  }

  /** A line written for an entry reads back as the entry. */
  lemma ParseItemText(it: Item)
    requires CsvSafe(it.date)
    ensures ParseItem(ItemText(it)) == it
  {
    ItemTextFields(it);
    FormatNumEnds(it.income);
    FormatNumEnds(it.expense);
    ParseFormat(it.income);
    ParseFormat(it.expense);
  }

  /** A line written for an entry whose date has no newline is one line. */
  lemma ItemTextOneLine(it: Item)
    requires '\n' !in it.date
    ensures '\n' !in ItemText(it)
  {
    FormatNumAvoids(it.income, '\n');
    FormatNumAvoids(it.expense, '\n');
  }

  /** The text is not empty and its last character is not white space. */
  predicate EndsSolid(t: string) {
    t != [] && !IsSpace(t[|t| - 1])
  }

  /** A line written for an entry ends with a digit or the N of NaN. */
  lemma ItemTextEnd(it: Item)
    ensures EndsSolid(ItemText(it))
  {
    FormatNumEnds(it.expense);
    LastOfAppend(it.date + "," + FormatNum(it.income) + ",", FormatNum(it.expense));
  }

  /** No line of a built text holds a newline when no date does. */
  lemma TrackerLinesAreOneLine(items: seq<Item>)
    requires forall i :: 0 <= i < |items| ==> CsvSafe(items[i].date)
    ensures forall k :: 0 <= k < |TrackerLines(items)| ==> '\n' !in TrackerLines(items)[k]
  {
    var texts, lines := ItemTexts(items), TrackerLines(items);
    forall k | 0 <= k < |texts| ensures '\n' !in texts[k] {
      ItemTextOneLine(items[k]);
    }
    HeaderIsOneLine();
    forall k | 0 <= k < |lines| ensures '\n' !in lines[k] {
      if k > 0 {
        assert lines[k] == texts[k - 1];
      }
    }
  }

  /** The last line of a built text ends with something other than white space. */
  lemma TrackerLinesLast(items: seq<Item>)
    ensures EndsSolid(TrackerLines(items)[|TrackerLines(items)| - 1])
  {
    if items == [] {
      HeaderLast();
    } else {
      TrackerLinesLastEntry(items);
      ItemTextEnd(items[|items| - 1]);
    }
  }

  lemma HeaderLast()
    ensures TrackerLines([]) == [Header] && EndsSolid(Header)
  {
    assert ItemTexts([]) == [];
    assert Header[|Header| - 1] == 'e';
  }

  /** With entries, the last line is the last entry's. */
  lemma TrackerLinesLastEntry(items: seq<Item>)
    requires items != []
    ensures TrackerLines(items)[|TrackerLines(items)| - 1] == ItemText(items[|items| - 1])
  {
    var lines, texts, n := TrackerLines(items), ItemTexts(items), |items| - 1;
    assert |lines| == n + 2;
    assert lines[n + 1] == texts[n];
  }

  /** A built text has no white space at either end. */
  lemma BuildCsvTrimmed(items: seq<Item>)
    requires forall i :: 0 <= i < |items| ==> CsvSafe(items[i].date)
    ensures Trimmed(BuildCsv(items))
  {
    var lines := TrackerLines(items);
    assert lines[0] == Header && Header[0] == 'd';
    JoinFirst(lines, '\n');
    TrackerLinesLast(items);
    JoinLast(lines, '\n');
  }

  /** Reading a text with no white space at either end whose lines are the header
      and `texts`. */
  lemma ParseCsvOfLines(csv: string, texts: seq<string>)
    requires Trimmed(csv)
    requires Split(csv, '\n') == [Header] + texts
    ensures ParseCsv(csv) == ParseItems(texts)
  {
    TrimOfTrimmed(csv);
    assert Split(csv, '\n')[1..] == texts;
  }

  /** The entry lines of safe entries read back as the entries. */
  lemma ParseItemTexts(items: seq<Item>)
    requires forall i :: 0 <= i < |items| ==> CsvSafe(items[i].date)
    ensures ParseItems(ItemTexts(items)) == items
  {
    forall i | 0 <= i < |items| ensures ParseItems(ItemTexts(items))[i] == items[i] {
      ParseItemText(items[i]);
    }
  }

  /** A built text of safe entries splits into the header and one line per entry. */
  lemma SplitBuildCsv(items: seq<Item>)
    requires forall i :: 0 <= i < |items| ==> CsvSafe(items[i].date)
    ensures Trimmed(BuildCsv(items))
    ensures Split(BuildCsv(items), '\n') == [Header] + ItemTexts(items)
  {
    BuildCsvTrimmed(items);
    TrackerLinesAreOneLine(items);
    SplitJoin(TrackerLines(items), '\n');
  }

  /** Reading back a built text gives the entries, NaN amounts included, when no date
      holds a comma or a newline. */
  lemma ParseCsvBuildCsv(items: seq<Item>)
    requires forall i :: 0 <= i < |items| ==> CsvSafe(items[i].date)
    ensures ParseCsv(BuildCsv(items)) == items
  {
    SplitBuildCsv(items);
    ParseItemTexts(items);
    ParseCsvOfLines(BuildCsv(items), ItemTexts(items));
  }

  // ---------------------------------------------------------------------------
  // The component state

  class Tracker {
    var entries: seq<Item>
    var date: string
    var income: string
    var expense: string

    /** The initial state, with the date input set to `today`. */
    constructor (today: string)
      ensures entries == [] && date == today && income == "" && expense == ""
    {
      entries, date, income, expense := [], today, "", "";
    }

    /** `handleAddEntry`: refused when the date is empty or both amounts are;
        otherwise the entry is appended, not re-sorted, and the amount inputs (not
        the date) are cleared. */
    method HandleAddEntry()
      modifies this
      ensures old(date) == "" || (old(income) == "" && old(expense) == "") ==>
                entries == old(entries) && date == old(date) && income == old(income) && expense == old(expense)
      ensures old(date) != "" && (old(income) != "" || old(expense) != "") ==>
                && entries == old(entries) + [Item(old(date), InputAmount(old(income)), InputAmount(old(expense)))]
                && date == old(date) && income == "" && expense == ""
    {
      if date == "" || (income == "" && expense == "") {
        return;
      }
      var newEntry := Item(date, InputAmount(income), InputAmount(expense));
      entries := entries + [newEntry];
      income := "";
      expense := "";
    }

    /** The file reader's `onload`: the entries become what the text reads as; with
        no file chosen nothing changes. */
    method OpenCsv(text: Option<string>)
      modifies this
      ensures text.Some? ==> entries == ParseCsv(text.value)
      ensures text.None? ==> entries == old(entries)
      ensures date == old(date) && income == old(income) && expense == old(expense)
    {
      if text.Some? {
        entries := ParseCsv(text.value);
      }
    }

    /** The render: the entries grouped by month, and for each month its rows with
        a balance that starts again from 0. */
    method Render() returns (tables: seq<seq<TrackerRow>>)
      ensures tables == Tables(entries)
    {
      var es := entries;
      var months, grouped := Group(es, ItemMonth);
      ghost var all := Tables(es);
      tables := [];
      var j := 0;
      while j < |months|
        invariant 0 <= j <= |months|
        invariant tables == all[..j]
      {
        var m := months[j];
        assert m in grouped && grouped[m] == Select(es, ItemMonth, m);
        var rows := MonthTable(grouped[m]);
        assert all[..j + 1] == all[..j] + [rows];
        tables := tables + [rows];
        j := j + 1;
      }
      assert all[..j] == all;
    }
  }
}
