/** The ledger logic of `dashboard.js`: the payload the expenses request answers
    with is normalised and sorted by date, filtered by category, rendered with a
    running balance, summed up for the summary cards and aggregated per month and
    per category for the charts; the page state (`expenses`, `selectedCategory`,
    `currentEditingId` and the two forms) is the class Dashboard. */
module DashboardScript {
  import opened Wrappers
  import opened Numbers
  import opened Sorting
  import opened Dates
  import opened Grouping

  // ---------------------------------------------------------------------------
  // Categories

  /** A category: its key, the text shown for it (`label` in the source) and its icon. */
  datatype Category = Category(value: string, name: string, icon: string)

  /** `CATEGORIES`, in their order. */
  const Categories: seq<Category> := [
    Category("Food", "Food & Dining", "\U{1F355}"),
    Category("Transportation", "Transportation", "\U{1F697}"),
    Category("Entertainment", "Entertainment", "\U{1F3AC}"),
    Category("Bills", "Bills & Utilities", "\U{1F4A1}"),
    Category("Healthcare", "Healthcare", "\U{1F3E5}"),
    Category("Shopping", "Shopping", "\U{1F6CD}\U{FE0F}"),
    Category("Education", "Education", "\U{1F4DA}"),
    Category("Salary", "Salary", "\U{1F4BC}"),
    Category("Investment", "Investment", "\U{1F4C8}"),
    Category("Other", "Other", "\U{1F4E6}")
  ]

  /** The position `Array.prototype.find` stops at: the first member satisfying
      `p`, or `|s|` when there is none. */
  function FirstWhere<T>(s: seq<T>, p: T -> bool): (i: nat)
    ensures i <= |s|
    ensures i < |s| ==> p(s[i])
    ensures forall j :: 0 <= j < i ==> !p(s[j])
  {
    if s == [] then 0 else if p(s[0]) then 0 else 1 + FirstWhere(s[1..], p)
  }

  /** `s.find(p)`. */
  function Find<T>(s: seq<T>, p: T -> bool): Option<T> {
    var i := FirstWhere(s, p);
    if i < |s| then Some(s[i]) else None
  }

  /** `find` comes back empty when no member satisfies `p`. */
  lemma FindNone<T>(s: seq<T>, p: T -> bool)
    requires forall i :: 0 <= i < |s| ==> !p(s[i])
    ensures Find(s, p) == None
  {
  }

  /** `find` finds something satisfying `p` when some member does. */
  lemma FindSome<T>(s: seq<T>, p: T -> bool, i: nat)
    requires i < |s| && p(s[i])
    ensures Find(s, p).Some? && p(Find(s, p).value)
  {
  }

  function HasValue(v: string): Category -> bool {
    (c: Category) => c.value == v
  }

  /** `CATEGORIES.find(c => c.value === cat) || CATEGORIES.find(c => c.value === 'Other')`:
      the category with that value, and the 'Other' category for a value outside
      the list. */
  function CategoryInfo(cat: string): (c: Category)
    ensures c.value == cat || c.value == "Other"
  {
    match Find(Categories, HasValue(cat))
    case Some(c) => c
    case None =>
      assert HasValue("Other")(Categories[9]);
      Find(Categories, HasValue("Other")).value
  }

  /** The category shown is one of the list. */
  lemma CategoryInfoListed(cat: string)
    ensures CategoryInfo(cat) in Categories
  {
    assert HasValue("Other")(Categories[9]);
  }

  /** A listed category is shown as itself. */
  lemma CategoryInfoKnown(cat: string, i: nat)
    requires i < |Categories| && Categories[i].value == cat
    ensures CategoryInfo(cat) == Categories[FirstWhere(Categories, HasValue(cat))]
    ensures CategoryInfo(cat).value == cat
  {
    assert HasValue(cat)(Categories[i]);
  }

  /** A category outside the list is shown as 'Other'. */
  lemma CategoryInfoUnknown(cat: string)
    requires forall i :: 0 <= i < |Categories| ==> Categories[i].value != cat
    ensures CategoryInfo(cat).value == "Other"
  {
    forall i | 0 <= i < |Categories| ensures !HasValue(cat)(Categories[i]) {
    }
    FindNone(Categories, HasValue(cat));
    FindSome(Categories, HasValue("Other"), 9);
  }

  /** The chart label of a category key: icon and label when the key is listed,
      the key itself otherwise. */
  function ChartLabel(cat: string): string {
    match Find(Categories, HasValue(cat))
    case Some(c) => c.icon + " " + c.name
    case None => cat
  }

  lemma ChartLabelUnknown(cat: string)
    requires forall i :: 0 <= i < |Categories| ==> Categories[i].value != cat
    ensures ChartLabel(cat) == cat
  {
    forall i | 0 <= i < |Categories| ensures !HasValue(cat)(Categories[i]) {
    }
    FindNone(Categories, HasValue(cat));
  }

  function ChartLabels(keys: seq<string>): seq<string> {
    seq(|keys|, i requires 0 <= i < |keys| => ChartLabel(keys[i]))
  }

  // ---------------------------------------------------------------------------
  // Loading

  /** A row of the response as the script reads it. `income` and `expense` are what
      `Number(..)` makes of the fields; a missing, null or empty text field is None
      or Some(""). */
  datatype RawRow = RawRow(id: int, date: string, income: Num, expense: Num,
                           category: Option<string>, description: Option<string>)

  /** A field of the response body: falsy, an array of rows, or a truthy value that
      is not an array. */
  datatype Field = Falsy | Rows(rows: seq<RawRow>) | NotArray

  /** The fields of the response body the script looks at. */
  datatype Payload = Payload(expenses: Field, data: Field, items: Field)

  /** `Array.isArray(data.expenses) ? data.expenses : (data.data || data.items || [])`,
      then `.map`: None when the chosen value is not an array, so that `.map` throws. */
  function RawRows(p: Payload): Option<seq<RawRow>> {
    if p.expenses.Rows? then Some(p.expenses.rows)
    else
      var v := if p.data != Falsy then p.data else if p.items != Falsy then p.items else Rows([]);
      if v.Rows? then Some(v.rows) else None
  }

  /** The rows come from `expenses` when it is an array, otherwise from the first
      truthy of `data` and `items`, otherwise there are none; loading fails exactly
      when that first truthy value is not an array. */
  lemma RawRowsCases(p: Payload)
    ensures p.expenses.Rows? ==> RawRows(p) == Some(p.expenses.rows)
    ensures !p.expenses.Rows? && p.data.Rows? ==> RawRows(p) == Some(p.data.rows)
    ensures !p.expenses.Rows? && p.data == Falsy && p.items.Rows? ==> RawRows(p) == Some(p.items.rows)
    ensures !p.expenses.Rows? && p.data == Falsy && p.items == Falsy ==> RawRows(p) == Some([])
    ensures RawRows(p) == None <==>
              !p.expenses.Rows? && (p.data == NotArray || (p.data == Falsy && p.items == NotArray))
  {
  }

  /** An entry after normalisation. */
  datatype Entry = Entry(id: int, date: string, income: int, expense: int,
                         category: string, description: string)

  /** `s || d` on a text field. */
  function OrText(s: Option<string>, d: string): (r: string)
    ensures s.Some? && s.value != "" ==> r == s.value
    ensures s.None? || s.value == "" ==> r == d
  {
    if s.Some? && s.value != "" then s.value else d
  }

  /** One row of `raw.map(e => ({ .. }))`: numbers default to 0, a missing or empty
      category to 'Other' and a missing or empty description to ''. */
  function NormalizeRow(r: RawRow): (e: Entry)
    ensures e.id == r.id && e.date == r.date
    ensures e.income == (if r.income.Finite? then r.income.value else 0)
    ensures e.expense == (if r.expense.Finite? then r.expense.value else 0)
    ensures e.category == OrText(r.category, "Other") && e.category != ""
    ensures r.category.None? ==> e.category == "Other"
    ensures e.description == OrText(r.description, "")
  {
    Entry(r.id, r.date, OrZero(r.income), OrZero(r.expense),
          OrText(r.category, "Other"), OrText(r.description, ""))
  }

  function Normalize(raws: seq<RawRow>): seq<Entry> {
    seq(|raws|, i requires 0 <= i < |raws| => NormalizeRow(raws[i]))
  }

  function DateOf(e: Entry): string { e.date }

  /** `raw.map(..).sort((a, b) => new Date(a.date) - new Date(b.date))`. */
  function Load(raws: seq<RawRow>): seq<Entry> {
    SortBy(Normalize(raws), ByDate(DateOf))
  }

  /** Loading keeps one entry per raw row, normalised, and orders them by date. */
  lemma LoadIsSortedPermutation(raws: seq<RawRow>)
    ensures |Load(raws)| == |raws|
    ensures multiset(Load(raws)) == multiset(Normalize(raws))
    ensures Sorted(Load(raws), ByDate(DateOf))
  {
    ByDateTotalPreorder(DateOf);
    SortBySorted(Normalize(raws), ByDate(DateOf));
  }

  /** Entries with the same date keep the order the response gave them. */
  lemma LoadIsStable(raws: seq<RawRow>, e: Entry)
    ensures TiedWith(Load(raws), ByDate(DateOf), e) == TiedWith(Normalize(raws), ByDate(DateOf), e)
  {
    ByDateTotalPreorder(DateOf);
    SortByStable(Normalize(raws), ByDate(DateOf), e);
  }

  // ---------------------------------------------------------------------------
  // Filtering and the table

  const All: string := "All"

  function CategoryOf(e: Entry): string { e.category }

  /** The entries the table shows for the selected category. */
  function Filtered(es: seq<Entry>, selected: string): seq<Entry> {
    if selected == All then es else Select(es, CategoryOf, selected)
  }

  /** With a category selected the table holds exactly the entries of that category,
      each as often as in the ledger. */
  lemma FilteredIsCategory(es: seq<Entry>, selected: string, e: Entry)
    requires selected != All
    ensures e in Filtered(es, selected) <==> e in es && e.category == selected
    ensures multiset(Filtered(es, selected))[e] == if e.category == selected then multiset(es)[e] else 0
  {
    SelectMembership(es, CategoryOf, selected, e);
    SelectMultiset(es, CategoryOf, selected, e);
  }

  /** Filtering keeps the entries in their order: appending an entry to the ledger
      appends it to the table exactly when it passes the filter. */
  lemma FilteredSnoc(es: seq<Entry>, e: Entry, selected: string)
    ensures Filtered(es + [e], selected)
         == Filtered(es, selected) + (if selected == All || e.category == selected then [e] else [])
  {
    if selected != All {
      SelectSnoc(es, e, CategoryOf, selected);
    }
  }

  function Income(e: Entry): int { e.income }
  function Expense(e: Entry): int { e.expense }

  /** `(entry.income || 0) - (entry.expense || 0)`. */
  function Net(e: Entry): int { e.income - e.expense }

  /** One table row: the income and expense cells show '-' (None) for 0, the
      description cell shows '-' for an empty description. The category badge is
      a function of the entry, `Badge`. */
  datatype TableRow = TableRow(entry: Entry, income: Option<int>, expense: Option<int>,
                               balance: int, description: string)

  /** The category badge of a row: the entry's category, or 'Other' when the
      category is not listed. */
  function Badge(row: TableRow): Category {
    CategoryInfo(row.entry.category)
  }

  function AmountCell(v: int): (c: Option<int>)
    ensures c.None? <==> v == 0
    ensures c.Some? ==> c.value == v
  {
    if v != 0 then Some(v) else None
  }

  function RowFor(e: Entry, balance: int): TableRow {
    TableRow(e, AmountCell(e.income), AmountCell(e.expense), balance,
             if e.description != "" then e.description else "-")
  }

  /** The table for `es`, built row by row: the last row shows the last entry and
      the net of all entries. */
  function TableRows(es: seq<Entry>): (rows: seq<TableRow>)
    ensures |rows| == |es|
  {
    if es == [] then []
    else TableRows(es[..|es| - 1]) + [RowFor(es[|es| - 1], SumOf(es, Net))]
  }

  /** Row `k` of the table shows entry `k` and the net of entries `0..k`. */
  lemma {:induction false} TableRowsAt(es: seq<Entry>, k: nat)
    requires k < |es|
    ensures TableRows(es)[k] == RowFor(es[k], SumOf(es[..k + 1], Net))
  {
    if k < |es| - 1 {
      var init := es[..|es| - 1];
      TableRowsAt(init, k);
      assert init[k] == es[k] && init[..k + 1] == es[..k + 1];
    } else {
      assert es[..k + 1] == es;
    }
  }

  lemma {:induction false} SumNet(es: seq<Entry>)
    ensures SumOf(es, Net) == SumOf(es, Income) - SumOf(es, Expense)
  {
    if es != [] {
      SumNet(es[..|es| - 1]);
    }
  }

  lemma {:induction false} SumGross(es: seq<Entry>)
    ensures SumOf(es, Gross) == SumOf(es, Income) + SumOf(es, Expense)
  {
    if es != [] {
      SumGross(es[..|es| - 1]);
    }
  }

  // ---------------------------------------------------------------------------
  // Summary

  datatype Summary = Summary(totalIncome: int, totalExpense: int, balance: int, count: nat)

  /** `updateSummary` over the entries it is given. */
  function SummaryOf(es: seq<Entry>): Summary {
    var income, expense := SumOf(es, Income), SumOf(es, Expense);
    Summary(income, expense, income - expense, |es|)
  }

  /** The summary balance is the net of all entries. */
  lemma SummaryBalanceIsNet(es: seq<Entry>)
    ensures SummaryOf(es).balance == SumOf(es, Net)
    ensures SummaryOf(es).count == |es|
  {
    SumNet(es);
  }

  /** With every category shown, the balance on the last row is the summary balance. */
  lemma LastRowIsSummary(es: seq<Entry>)
    requires es != []
    ensures TableRows(Filtered(es, All))[|es| - 1].balance == SummaryOf(es).balance
  {
    SumNet(es);
  }

  // ---------------------------------------------------------------------------
  // Charts

  /** The month key of the bar chart. */
  function MonthOf(e: Entry): string { MonthLabel(e.date) }

  datatype MonthTotals = MonthTotals(income: int, expense: int)

  /** `monthlyData` after visiting `s` from the front, each entry filed under
      `month(e)` (the bar chart uses `MonthOf`; the lemmas below hold for any key). */
  function MonthlyData(s: seq<Entry>, month: Entry -> string): map<string, MonthTotals> {
    if s == [] then map[] else AddToMonth(MonthlyData(s[..|s| - 1], month), s[|s| - 1], month)
  }

  /** `monthlyData[month].income += ..; monthlyData[month].expense += ..`, the month
      starting at zero when it is new. */
  function AddToMonth(m: map<string, MonthTotals>, e: Entry, month: Entry -> string): map<string, MonthTotals> {
    var t := if month(e) in m then m[month(e)] else MonthTotals(0, 0);
    m[month(e) := MonthTotals(t.income + e.income, t.expense + e.expense)]
  }

  lemma {:induction false} MonthlyDataKeys(s: seq<Entry>, month: Entry -> string, k: string)
    ensures k in MonthlyData(s, month) <==> k in FirstKeys(s, month)
  {
    if s != [] {
      MonthlyDataKeys(s[..|s| - 1], month, k);
    }
  }

  /** Each month holds the income and expense sums of its entries. */
  lemma {:induction false} MonthlyDataValues(s: seq<Entry>, month: Entry -> string, k: string)
    requires k in MonthlyData(s, month)
    ensures MonthlyData(s, month)[k] == MonthTotals(SumOf(Select(s, month, k), Income),
                                                    SumOf(Select(s, month, k), Expense))
  {
    var init, e := s[..|s| - 1], s[|s| - 1];
    assert s == init + [e];
    assert MonthlyData(s, month) == AddToMonth(MonthlyData(init, month), e, month);
    if k in MonthlyData(init, month) {
      MonthlyDataValues(init, month, k);
    }
    MonthlyDataValuesStep(init, e, month, k);
  }

  /** The step of `MonthlyDataValues`: adding one entry keeps every month at the
      sums of its entries. */
  lemma MonthlyDataValuesStep(init: seq<Entry>, e: Entry, month: Entry -> string, k: string)
    requires k in AddToMonth(MonthlyData(init, month), e, month)
    requires k in MonthlyData(init, month) ==>
      MonthlyData(init, month)[k] == MonthTotals(SumOf(Select(init, month, k), Income),
                                                 SumOf(Select(init, month, k), Expense))
    ensures AddToMonth(MonthlyData(init, month), e, month)[k]
         == MonthTotals(SumOf(Select(init + [e], month, k), Income),
                        SumOf(Select(init + [e], month, k), Expense))
  {
    SumSelectSnoc(init, e, month, Income, k);
    SumSelectSnoc(init, e, month, Expense, k);
    if k !in MonthlyData(init, month) {
      MonthlyDataKeys(init, month, k);
      FirstKeysSelect(init, month, k);
    }
  }

  /** One iteration of the bar chart loop. */
  lemma MonthlyStep(p: seq<Entry>, e: Entry, month: Entry -> string,
                    keys: seq<string>, data: map<string, MonthTotals>,
                    keys': seq<string>, t: MonthTotals, data': map<string, MonthTotals>)
    requires keys == FirstKeys(p, month) && data == MonthlyData(p, month)
    requires keys' == if month(e) in data then keys else keys + [month(e)]
    requires t == if month(e) in data then data[month(e)] else MonthTotals(0, 0)
    requires data' == data[month(e) := MonthTotals(t.income + e.income, t.expense + e.expense)]
    ensures keys' == FirstKeys(p + [e], month)
    ensures data' == MonthlyData(p + [e], month)
  {
    MonthlyDataKeys(p, month, month(e));
    FirstKeysSnoc(p, e, month);
    assert (p + [e])[..|p|] == p;
  }

  /** The loop of `renderBarChart` over `s`: a month seen for the first time is added
      to `months` and starts at zero, and every entry adds its amounts to its month. */
  method CollectMonthly(s: seq<Entry>, month: Entry -> string)
    returns (months: seq<string>, monthlyData: map<string, MonthTotals>)
    ensures months == FirstKeys(s, month)
    ensures monthlyData == MonthlyData(s, month)
  {
    monthlyData := map[];
    months := [];
    var i := 0;
    while i < |s|
      invariant 0 <= i <= |s|
      invariant months == FirstKeys(s[..i], month)
      invariant monthlyData == MonthlyData(s[..i], month)
    {
      var e := s[i];
      var m := month(e);
      ghost var months0 := months;
      if m !in monthlyData {
        months := months + [m];
      }
      var t := if m in monthlyData then monthlyData[m] else MonthTotals(0, 0);
      ghost var data0 := monthlyData;
      monthlyData := monthlyData[m := MonthTotals(t.income + e.income, t.expense + e.expense)];
      MonthlyStep(s[..i], e, month, months0, data0, months, t, monthlyData);
      assert s[..i] + [e] == s[..i + 1];
      i := i + 1;
    }
    assert s[..i] == s;
  }

  /** Month `j` of the bar chart holds the income and expense sums of that month. */
  lemma MonthlyDataAt(es: seq<Entry>, month: Entry -> string, j: nat)
    requires j < |FirstKeys(es, month)|
    ensures FirstKeys(es, month)[j] in MonthlyData(es, month)
    ensures MonthlyData(es, month)[FirstKeys(es, month)[j]]
         == MonthTotals(GroupSums(FirstKeys(es, month), es, month, Income)[j],
                        GroupSums(FirstKeys(es, month), es, month, Expense)[j])
  {
    var k := FirstKeys(es, month)[j];
    MonthlyDataKeys(es, month, k);
    MonthlyDataValues(es, month, k);
  }

  /** Every month of the bar chart is in `monthlyData` with the sums of that month. */
  lemma MonthlyDataAll(es: seq<Entry>, month: Entry -> string)
    ensures forall j :: 0 <= j < |FirstKeys(es, month)| ==>
      && FirstKeys(es, month)[j] in MonthlyData(es, month)
      && MonthlyData(es, month)[FirstKeys(es, month)[j]]
         == MonthTotals(GroupSums(FirstKeys(es, month), es, month, Income)[j],
                        GroupSums(FirstKeys(es, month), es, month, Expense)[j])
  {
    forall j | 0 <= j < |FirstKeys(es, month)|
      ensures FirstKeys(es, month)[j] in MonthlyData(es, month)
      ensures MonthlyData(es, month)[FirstKeys(es, month)[j]]
         == MonthTotals(GroupSums(FirstKeys(es, month), es, month, Income)[j],
                        GroupSums(FirstKeys(es, month), es, month, Expense)[j])
    {
      MonthlyDataAt(es, month, j);
    }
  }

  /** The month bars partition the ledger: the income bars add up to the total
      income and the expense bars to the total expense. */
  lemma MonthlyBarsPartition(es: seq<Entry>)
    ensures Total(GroupSums(FirstKeys(es, MonthOf), es, MonthOf, Income)) == SummaryOf(es).totalIncome
    ensures Total(GroupSums(FirstKeys(es, MonthOf), es, MonthOf, Expense)) == SummaryOf(es).totalExpense
  {
    PartitionSum(es, MonthOf, Income);
    PartitionSum(es, MonthOf, Expense);
  }

  function HasExpense(e: Entry): bool { e.expense > 0 }

  /** `expenses.filter(e => e.expense > 0)`. */
  function Spending(es: seq<Entry>): seq<Entry> {
    Select(es, HasExpense, true)
  }

  /** The positive part of an entry's expense. */
  function Spent(e: Entry): int { if e.expense > 0 then e.expense else 0 }

  /** The doughnut slices add up to the sum of the positive expenses. */
  lemma {:induction false} SpendingSum(es: seq<Entry>)
    ensures SumOf(Spending(es), Expense) == SumOf(es, Spent)
  {
    if es != [] {
      var init, e := es[..|es| - 1], es[|es| - 1];
      assert es == init + [e];
      SpendingSum(init);
      SumSelectSnoc(init, e, HasExpense, Expense, true);
    }
  }

  lemma DoughnutPartition(es: seq<Entry>)
    ensures Total(GroupSums(FirstKeys(Spending(es), CategoryOf), Spending(es), CategoryOf, Expense))
         == SumOf(es, Spent)
  {
    PartitionSum(Spending(es), CategoryOf, Expense);
    SpendingSum(es);
  }

  /** `(e.income || 0) + (e.expense || 0)`. */
  function Gross(e: Entry): int { e.income + e.expense }

  /** The pie slices add up to the total income plus the total expense. */
  lemma PiePartition(es: seq<Entry>)
    ensures Total(GroupSums(FirstKeys(es, CategoryOf), es, CategoryOf, Gross))
         == SummaryOf(es).totalIncome + SummaryOf(es).totalExpense
  {
    PartitionSum(es, CategoryOf, Gross);
    SumGross(es);
  }

  // ---------------------------------------------------------------------------
  // Validation

  datatype PasswordVerdict = FillAllFields | TooShort | Mismatch | Proceed

  /** The checks of `savePassword`, in their order. */
  function PasswordCheck(oldPassword: string, newPassword: string, confirmPassword: string): PasswordVerdict {
    if oldPassword == "" || newPassword == "" || confirmPassword == "" then FillAllFields
    else if |newPassword| < 6 then TooShort
    else if newPassword != confirmPassword then Mismatch
    else Proceed
  }

  /** The password is changed exactly when all three fields are filled in, the new
      password has at least 6 characters and the confirmation repeats it. */
  lemma PasswordCheckProceeds(oldPassword: string, newPassword: string, confirmPassword: string)
    ensures PasswordCheck(oldPassword, newPassword, confirmPassword) == Proceed
        <==> oldPassword != "" && newPassword != "" && confirmPassword != ""
             && |newPassword| >= 6 && newPassword == confirmPassword
  {
  }

  /** An empty field is reported before a short password, and a short password
      before a mismatch. */
  lemma PasswordCheckOrder(oldPassword: string, newPassword: string, confirmPassword: string)
    ensures PasswordCheck(oldPassword, newPassword, confirmPassword) == FillAllFields
        <==> oldPassword == "" || newPassword == "" || confirmPassword == ""
    ensures PasswordCheck(oldPassword, newPassword, confirmPassword) == TooShort
        <==> oldPassword != "" && newPassword != "" && confirmPassword != ""
             && |newPassword| < 6
    ensures PasswordCheck(oldPassword, newPassword, confirmPassword) == Mismatch
        <==> oldPassword != "" && newPassword != "" && confirmPassword != ""
             && |newPassword| >= 6 && newPassword != confirmPassword
  {
  }

  /** The body of an add or update request. */
  datatype EntryData = EntryData(date: string, income: int, expense: int,
                                 category: string, description: string)

  datatype UpdateRequest = UpdateRequest(id: Option<int>, data: EntryData)

  /** `parseFloat(field) || 0`. */
  function AmountInput(text: string): int {
    OrZero(ParseFloat(text))
  }

  lemma ParseEmptyIsNaN()
    ensures ParseFloat("") == NaN
  {
  }

  /** The text an amount input shows for `entry.income || ''`: empty for 0. */
  function AmountText(v: int): (t: string)
    ensures t == "" <==> v == 0
  {
    if v == 0 then "" else FormatAmount(v)
  }

  /** Reading the shown text back with `parseFloat(..) || 0` gives the amount, 0 included. */
  lemma AmountTextRoundTrip(v: int)
    ensures AmountInput(AmountText(v)) == v
  {
    if v == 0 {
      ParseEmptyIsNaN();
    } else {
      ParseFormatAmount(v);
    }
  }

  /** The five inputs of the add form or of the edit modal. */
  datatype Form = Form(date: string, income: string, expense: string,
                       category: string, description: string)

  /** What a form sends: the amounts read with `parseFloat(..) || 0`. */
  function FormData(f: Form): EntryData {
    EntryData(f.date, AmountInput(f.income), AmountInput(f.expense), f.category, f.description)
  }

  /** The edit modal as `openEditModal` fills it for an entry. */
  function EditFormFor(e: Entry): Form {
    Form(e.date, AmountText(e.income), AmountText(e.expense), e.category, e.description)
  }

  /** Saving the edit modal unchanged sends the entry's own data back. */
  lemma EditFormRoundTrip(e: Entry)
    ensures FormData(EditFormFor(e)) == EntryData(e.date, e.income, e.expense, e.category, e.description)
  {
    AmountTextRoundTrip(e.income);
    AmountTextRoundTrip(e.expense);
  }

  /** The add form after a reset: the date set to `today`, the category to 'Other'. */
  function FreshForm(today: string): Form {
    Form(today, "", "", "Other", "")
  }

  /** A reset form sends today's date, no amounts, category 'Other' and no description. */
  lemma FreshFormData(today: string)
    ensures FormData(FreshForm(today)) == EntryData(today, 0, 0, "Other", "")
  {
    ParseEmptyIsNaN();
  }

  function HasId(id: int): Entry -> bool {
    (e: Entry) => e.id == id
  }

  /** The page state `dashboard.js` keeps in module globals and in the inputs of
      the add form and of the edit modal. */
  class Dashboard {
    var expenses: seq<Entry>
    var selectedCategory: string
    var currentEditingId: Option<int>
    var editForm: Form
    var form: Form

    constructor (today: string)
      ensures expenses == [] && selectedCategory == All && currentEditingId == None
      ensures form == FreshForm(today)
    {
      expenses, selectedCategory, currentEditingId := [], All, None;
      editForm := Form("", "", "", "", "");
      form := FreshForm(today);
    }

    /** `loadExpenses` for a response body, or None for a failed request: the
        entries are replaced only when the rows can be read. */
    method LoadExpenses(response: Option<Payload>)
      modifies this
      ensures response.Some? && RawRows(response.value).Some? ==> expenses == Load(RawRows(response.value).value)
      ensures response.None? || RawRows(response.value).None? ==> expenses == old(expenses)
      ensures selectedCategory == old(selectedCategory) && currentEditingId == old(currentEditingId)
      ensures editForm == old(editForm) && form == old(form)
    {
      if response.Some? {
        match RawRows(response.value)
        case Some(raws) =>
          expenses := SortBy(Normalize(raws), ByDate(DateOf));
        case None =>
      }
    }

    /** `filterByCategory`. */
    method FilterByCategory(c: string)
      modifies this
      ensures selectedCategory == c
      ensures expenses == old(expenses) && currentEditingId == old(currentEditingId)
      ensures editForm == old(editForm) && form == old(form)
    {
      selectedCategory := c;
    }

    /** `renderExpenses`: the rows of the filtered table, each with the net of the
        filtered entries up to and including it. */
    method RenderExpenses() returns (rows: seq<TableRow>)
      ensures rows == TableRows(Filtered(expenses, selectedCategory))
    {
      var filtered := if selectedCategory == All then expenses else Select(expenses, CategoryOf, selectedCategory);
      var runningBalance := 0;
      rows := [];
      var k := 0;
      while k < |filtered|
        invariant 0 <= k <= |filtered|
        invariant runningBalance == SumOf(filtered[..k], Net)
        invariant rows == TableRows(filtered[..k])
      {
        var entry := filtered[k];
        runningBalance := runningBalance + (entry.income - entry.expense);
        SumOfPrefixStep(filtered, Net, k);
        assert filtered[..k + 1][..k] == filtered[..k];
        rows := rows + [RowFor(entry, runningBalance)];
        k := k + 1;
      }
      assert filtered[..k] == filtered;
    }

    /** `updateSummary`: over every entry, whatever category is selected. */
    method UpdateSummary() returns (s: Summary)
      ensures s == SummaryOf(expenses)
      ensures s.balance == SumOf(expenses, Net)
    {
      var totalIncome := SumOf(expenses, Income);
      var totalExpense := SumOf(expenses, Expense);
      s := Summary(totalIncome, totalExpense, totalIncome - totalExpense, |expenses|);
      SumNet(expenses);
    }

    /** `renderBarChart`: the months in first-seen order with their income and
        expense sums. */
    method BarChart() returns (months: seq<string>, incomes: seq<int>, expensesList: seq<int>)
      ensures months == FirstKeys(expenses, MonthOf)
      ensures incomes == GroupSums(months, expenses, MonthOf, Income)
      ensures expensesList == GroupSums(months, expenses, MonthOf, Expense)
    {
      var es := expenses;
      var monthlyData;
      months, monthlyData := CollectMonthly(es, MonthOf);
      MonthlyDataAll(es, MonthOf);
      incomes := seq(|months|, j requires 0 <= j < |months| => monthlyData[months[j]].income);
      expensesList := seq(|months|, j requires 0 <= j < |months| => monthlyData[months[j]].expense);
    }

    /** `renderDoughnutChart`: the categories of the entries with a positive expense,
        in first-seen order, with their expense sums. */
    method DoughnutChart() returns (labels: seq<string>, data: seq<int>)
      ensures labels == ChartLabels(FirstKeys(Spending(expenses), CategoryOf))
      ensures data == GroupSums(FirstKeys(Spending(expenses), CategoryOf), Spending(expenses), CategoryOf, Expense)
    {
      var spending := Select(expenses, HasExpense, true);
      assert spending == Spending(expenses);
      var order, categoryTotals := Tally(spending, CategoryOf, Expense);
      labels := seq(|order|, j requires 0 <= j < |order| => ChartLabel(order[j]));
      data := seq(|order|, j requires 0 <= j < |order| => categoryTotals[order[j]]);
    }

    /** `renderPieChart`: every category in first-seen order with its income plus
        expense. */
    method PieChart() returns (labels: seq<string>, data: seq<int>)
      ensures labels == ChartLabels(FirstKeys(expenses, CategoryOf))
      ensures data == GroupSums(FirstKeys(expenses, CategoryOf), expenses, CategoryOf, Gross)
    {
      var order, categoryTotals := Tally(expenses, CategoryOf, Gross);
      labels := seq(|order|, j requires 0 <= j < |order| => ChartLabel(order[j]));
      data := seq(|order|, j requires 0 <= j < |order| => categoryTotals[order[j]]);
    }

    /** `openEditModal(id)`: for an id no entry has, nothing changes; otherwise the
        first entry with that id fills the edit modal. */
    method OpenEditModal(id: int)
      modifies this
      ensures Find(expenses, HasId(id)).None? ==>
                currentEditingId == old(currentEditingId) && editForm == old(editForm)
      ensures Find(expenses, HasId(id)).Some? ==>
                currentEditingId == Some(id) && editForm == EditFormFor(Find(expenses, HasId(id)).value)
      ensures expenses == old(expenses) && selectedCategory == old(selectedCategory) && form == old(form)
    {
      var found := Find(expenses, HasId(id));
      if found.None? {
        return;
      }
      var entry := found.value;
      currentEditingId := Some(id);
      editForm := Form(entry.date, AmountText(entry.income), AmountText(entry.expense),
                       entry.category, entry.description);
    }

    /** `closeEditModal`. */
    method CloseEditModal()
      modifies this
      ensures currentEditingId == None
      ensures expenses == old(expenses) && selectedCategory == old(selectedCategory)
      ensures editForm == old(editForm) && form == old(form)
    {
      currentEditingId := None;
    }

    /** `saveEdit`: with an empty date nothing is sent and nothing changes; otherwise
        the update request for the entry being edited is sent and the modal closes. */
    method SaveEdit() returns (request: Option<UpdateRequest>)
      modifies this
      ensures editForm.date == "" ==> request.None? && currentEditingId == old(currentEditingId)
      ensures editForm.date != "" ==>
                request == Some(UpdateRequest(old(currentEditingId), FormData(editForm))) && currentEditingId == None
      ensures expenses == old(expenses) && selectedCategory == old(selectedCategory)
      ensures editForm == old(editForm) && form == old(form)
    {
      var f := editForm;
      var income := AmountInput(f.income);
      var expense := AmountInput(f.expense);
      if f.date == "" {
        return None;
      }
      request := Some(UpdateRequest(currentEditingId, EntryData(f.date, income, expense, f.category, f.description)));
      CloseEditModal();
    }

    /** The add form's submit handler: with an empty date nothing is sent and nothing
        changes; otherwise the add request is sent and the form is reset, its date
        to `today`. */
    method Submit(today: string) returns (request: Option<EntryData>)
      modifies this
      ensures old(form).date == "" ==> request.None? && form == old(form)
      ensures old(form).date != "" ==> request == Some(FormData(old(form))) && form == FreshForm(today)
      ensures expenses == old(expenses) && selectedCategory == old(selectedCategory)
      ensures currentEditingId == old(currentEditingId) && editForm == old(editForm)
    {
      var f := form;
      var income := AmountInput(f.income);
      var expense := AmountInput(f.expense);
      if f.date == "" {
        return None;
      }
      request := Some(EntryData(f.date, income, expense, f.category, f.description));
      form := form.(income := "", expense := "", category := "Other", description := "");
      form := form.(date := today);
    }
  }
}
