/** The string logic of `src/csvUtils.js`: the text `writeCSVFile` and
    `createCSVFile` write, and the records `readCSVFile` reads back. */
module CsvUtils {
  import opened Text
  import opened Numbers

  /** A record as `readCSVFile` produces and `writeCSVFile` consumes it. */
  datatype Record = Record(date: string, income: int, expense: int)

  /** The header line, without its newline. */
  const Header: string := "date,income,expense"

  lemma HeaderIsOneLine()
    ensures '\n' !in Header
  {
  }

  /** The text ends with a decimal digit. */
  predicate EndsWithDigit(t: string) {
    t != [] && IsDigit(t[|t| - 1])
  }

  /** `${row.date},${row.income},${row.expense}`: it ends with the last digit of the
      expense, and holds a newline only when the date does. */
  function RowText(r: Record): (t: string)
    ensures '\n' !in r.date ==> '\n' !in t
    ensures EndsWithDigit(t)
  {
    var a, b := FormatAmount(r.income), FormatAmount(r.expense);
    FormatAmountAvoids(r.income, '\n');
    FormatAmountAvoids(r.expense, '\n');
    LastOfAppend(r.date + "," + a + ",", b);
    r.date + "," + a + "," + b
  }

  /** `data.map(row => ...)` on the rows. */
  function RowTexts(rows: seq<Record>): seq<string> {
    seq(|rows|, i requires 0 <= i < |rows| => RowText(rows[i]))
  }

  /** The file `writeCSVFile(data)` writes: the header line, then the rows joined by
      newlines, with no newline after the last row. */
  function Serialize(rows: seq<Record>): string {
    Header + "\n" + Join(RowTexts(rows), '\n')
  }

  /** The file `createCSVFile` writes: the header line and its newline. */
  function EmptyFile(): string {
    Header + "\n"
  }

  /** Every save starts with the header line and its newline. */
  lemma SerializeStartsWithHeader(rows: seq<Record>)
    ensures |Serialize(rows)| > |Header|
    ensures Serialize(rows)[..|Header| + 1] == Header + "\n"
  {
    var body := Join(RowTexts(rows), '\n');
    assert (Header + "\n" + body)[..|Header| + 1] == Header + "\n";
  }

  /** Saving no rows writes exactly what `createCSVFile` writes. */
  lemma SerializeEmpty()
    ensures Serialize([]) == EmptyFile()
  {
    assert RowTexts([]) == [];
  }

  /** The lines of a save: the header, then one line per row. */
  function Lines(rows: seq<Record>): seq<string> {
    [Header] + RowTexts(rows)
  }

  /** A non-empty save is its lines joined by newlines: the last row is not followed
      by a newline. */
  lemma SerializeAsJoin(rows: seq<Record>)
    requires rows != []
    ensures Serialize(rows) == Join(Lines(rows), '\n')
  {
    assert Lines(rows)[1..] == RowTexts(rows);
  }

  /** A non-empty save ends with the last row, hence with a digit and not a newline. */
  lemma SerializeEnd(rows: seq<Record>)
    requires rows != []
    ensures EndsWithDigit(Serialize(rows))
  {
    var texts := RowTexts(rows);
    assert EndsWithDigit(texts[|texts| - 1]);
    JoinLast(texts, '\n');
    LastOfAppend(Header + "\n", Join(texts, '\n'));
  }

  /** A non-empty save starts with the header and ends with a digit: no white space
      at either end. */
  lemma SerializeTrimmed(rows: seq<Record>)
    requires rows != []
    ensures Trimmed(Serialize(rows))
  {
    SerializeStartsWithHeader(rows);
    assert Serialize(rows)[0] == (Header + "\n")[0] == 'd';
    SerializeEnd(rows);
  }

  /** No line of a save holds a newline when no date does. */
  lemma LinesAreOneLine(rows: seq<Record>)
    requires forall i :: 0 <= i < |rows| ==> '\n' !in rows[i].date
    ensures forall k :: 0 <= k < |Lines(rows)| ==> '\n' !in Lines(rows)[k]
  {
    var texts, lines := RowTexts(rows), Lines(rows);
    forall k | 0 <= k < |texts| ensures '\n' !in texts[k] {
      assert texts[k] == RowText(rows[k]);
    }
    HeaderIsOneLine();
    forall k | 0 <= k < |lines| ensures '\n' !in lines[k] {
      if k > 0 {
        assert lines[k] == texts[k - 1];
      }
    }
  }

  /** Splitting a non-empty save at its newlines gives back its lines. */
  lemma SplitSerialize(rows: seq<Record>)
    requires rows != []
    requires forall i :: 0 <= i < |rows| ==> '\n' !in rows[i].date
    ensures Split(Serialize(rows), '\n') == Lines(rows)
  {
    LinesAreOneLine(rows);
    SerializeAsJoin(rows);
    SplitJoin(Lines(rows), '\n');
  }

  /** `parseFloat(field) || 0` where the field may be missing after destructuring:
      a missing field, or one `parseFloat` cannot read, counts as 0. */
  function AmountField(fields: seq<string>, i: nat): (v: int)
    ensures i < |fields| && ParseFloat(fields[i]).Finite? ==> v == ParseFloat(fields[i]).value
    ensures i >= |fields| || ParseFloat(fields[i]).NaN? ==> v == 0
  {
    if i < |fields| then OrZero(ParseFloat(fields[i])) else 0
  }

  /** One line: `const [date, income, expense] = line.split(',')`, the date trimmed
      and the amounts read with `parseFloat(..) || 0`. */
  function ParseLine(line: string): (r: Record)
    ensures Trimmed(r.date)
  {
    var fields := Split(line, ',');
    Record(Trim(fields[0]), AmountField(fields, 1), AmountField(fields, 2))
  }

  /** `lines.map(line => ...)`. */
  function ParseLines(lines: seq<string>): seq<Record> {
    seq(|lines|, i requires 0 <= i < |lines| => ParseLine(lines[i]))
  }

  /** What `readCSVFile` resolves with for the file text: the text is trimmed, split
      into lines, the header line dropped, and each remaining line read as a record. */
  function Parse(text: string): seq<Record> {
    ParseLines(Split(Trim(text), '\n')[1..])
  }

  /** There is one record per newline of the trimmed text: one per line after the
      header. */
  lemma ParseCount(text: string)
    ensures |Parse(text)| == Count(Trim(text), '\n')
  {
    SplitCount(Trim(text), '\n');
  }

  /** A line without commas is a date alone: both amounts read as 0. */
  lemma ParseLineMissingAmounts(line: string)
    requires ',' !in line
    ensures ParseLine(line) == Record(Trim(line), 0, 0)
  {
    SplitAbsent(line, ',');
  }

  /** The text `createCSVFile` writes reads as no records. */
  lemma ParseEmptyFile()
    ensures Parse(EmptyFile()) == []
  {
    var t := EmptyFile();
    assert t[0] == 'd' && t[|t| - 1] == '\n';
    assert TrimStart(t) == t;
    assert t[..|t| - 1] == Header;
    assert Header[|Header| - 1] == 'e';
    assert TrimEnd(Header) == Header;
    assert Trim(t) == Header;
    HeaderIsOneLine();
    SplitAbsent(Header, '\n');
  }

  /** Saving an empty list writes the header line and its newline, which reads back
      as no records. */
  lemma ParseSerializeEmpty()
    ensures Parse(Serialize([])) == []
  {
    SerializeEmpty();
    ParseEmptyFile();
  }

  /** A date the round trip keeps: no comma, no newline, no white space at either end. */
  predicate CleanDate(d: string) {
    ',' !in d && '\n' !in d && Trimmed(d)
  }

  lemma JoinThree(a: string, b: string, c: string, sep: char)
    ensures Join([a, b, c], sep) == a + [sep] + b + [sep] + c
  {
    assert [b, c][1..] == [c];
    assert Join([b, c], sep) == b + [sep] + c;
    assert [a, b, c][1..] == [b, c];
    assert Join([a, b, c], sep) == a + [sep] + (b + [sep] + c);
  }

  /** A line's fields are its date and the two printed amounts. */
  lemma SplitRowText(r: Record)
    requires ',' !in r.date
    ensures Split(RowText(r), ',') == [r.date, FormatAmount(r.income), FormatAmount(r.expense)]
  {
    var a, b := FormatAmount(r.income), FormatAmount(r.expense);
    FormatAmountAvoids(r.income, ',');
    FormatAmountAvoids(r.expense, ',');
    JoinThree(r.date, a, b, ',');
    SplitJoin([r.date, a, b], ',');
  }

  /** A line with three fields reads as its trimmed first field and the two amounts. */
  lemma ParseLineOfFields(line: string, d: string, a: string, b: string)
    requires Split(line, ',') == [d, a, b]
    ensures ParseLine(line) == Record(Trim(d), OrZero(ParseFloat(a)), OrZero(ParseFloat(b)))
  {
  }

  /** A line written for a record reads back as that record. */
  lemma ParseRowText(r: Record)
    requires CleanDate(r.date)
    ensures ParseLine(RowText(r)) == r
  {
    var a, b := FormatAmount(r.income), FormatAmount(r.expense);
    SplitRowText(r);
    ParseLineOfFields(RowText(r), r.date, a, b);
    ParseFormatAmount(r.income);
    ParseFormatAmount(r.expense);
    TrimOfTrimmed(r.date);
  }

  /** The row lines of clean records read back as the records. */
  lemma ParseRowTexts(rows: seq<Record>)
    requires forall i :: 0 <= i < |rows| ==> CleanDate(rows[i].date)
    ensures ParseLines(RowTexts(rows)) == rows
  {
    forall i | 0 <= i < |rows| ensures ParseLines(RowTexts(rows))[i] == rows[i] {
      ParseRowText(rows[i]);
    }
  }

  /** Reading a text with no white space at either end whose lines are the header
      and `texts`. */
  lemma ParseOfLines(csv: string, texts: seq<string>)
    requires Trimmed(csv)
    requires Split(csv, '\n') == [Header] + texts
    ensures Parse(csv) == ParseLines(texts)
  {
    TrimOfTrimmed(csv);
    assert Split(csv, '\n')[1..] == texts;
  }

  /** A non-empty save of clean records has no outer white space, and its lines are
      the header and the row lines. */
  lemma SerializeLines(rows: seq<Record>)
    requires rows != []
    requires forall i :: 0 <= i < |rows| ==> CleanDate(rows[i].date)
    ensures Trimmed(Serialize(rows))
    ensures Split(Serialize(rows), '\n') == [Header] + RowTexts(rows)
  {
    SerializeTrimmed(rows);
    SplitSerialize(rows);
  }

  lemma ParseSerializeNonEmpty(rows: seq<Record>)
    requires rows != []
    requires forall i :: 0 <= i < |rows| ==> CleanDate(rows[i].date)
    ensures Parse(Serialize(rows)) == rows
  {
    SerializeLines(rows);
    ParseRowTexts(rows);
    ParseOfLines(Serialize(rows), RowTexts(rows));
  }

  /** Reading back a saved file gives the saved records, when every date is clean. */
  lemma ParseSerialize(rows: seq<Record>)
    requires forall i :: 0 <= i < |rows| ==> CleanDate(rows[i].date)
    ensures Parse(Serialize(rows)) == rows
  {
    if rows == [] {
      ParseSerializeEmpty();
    } else {
      ParseSerializeNonEmpty(rows);
    }
  }
}
