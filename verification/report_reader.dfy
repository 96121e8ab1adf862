/**
 Readers for the two report formats: each takes a rendered report apart into its user, its rows
 and its total. Reading a generated report gives back exactly the visible items, in order, and a
 total equal to the sum of their values, as long as the interpolated names do not contain the
 characters the format uses as separators (the generator does not escape them).
 */
module ReportReader {
  import opened Maybe
  import opened Decimal
  import opened Text
  import opened Report
  import opened ReportProperties

  datatype CsvRecord = CsvRecord(id: int, name: string, value: int, userName: string)
  datatype CsvReport = CsvReport(records: seq<CsvRecord>, total: int)

  datatype HtmlRecord = HtmlRecord(bold: bool, id: int, name: string, value: int)
  datatype HtmlReport = HtmlReport(userName: string, records: seq<HtmlRecord>, total: int)

  /** Reads every line with `read`; fails if any line fails. */
  function ReadEach<T>(lines: seq<string>, read: string -> Option<T>): (r: Option<seq<T>>)
    ensures r.Some? ==> |r.value| == |lines|
  {
    if |lines| == 0 then Some([])
    else match (read(lines[0]), ReadEach(lines[1..], read))
      case (Some(x), Some(xs)) => Some([x] + xs)
      case _ => None
  }

  // ---------------------------------------------------------------------------------------------
  // CSV

  function ReadCsvRecord(line: string): Option<CsvRecord> {
    var fields := Split(line, ',');
    if |fields| != 4 then None
    else match (ParseInt(fields[0]), ParseInt(fields[2]))
      case (Some(id), Some(value)) => Some(CsvRecord(id, fields[1], value, fields[3]))
      case _ => None
  }

  function ReadCsvTotal(line: string): Option<int> {
    var fields := Split(line, ',');
    if |fields| == 3 && fields[1] == "" && fields[2] == "" then ParseInt(fields[0]) else None
  }

  /** The column line, one record per line, a blank line, the total label and the total line. */
  function ReadCsv(report: string): Option<CsvReport> {
    var lines := Split(report, '\n');
    var n := |lines|;
    if n < 4 || lines[0] != CsvHeaderLine || lines[n - 3] != "" || lines[n - 2] != CsvTotalLabel then None
    else match (ReadEach(lines[1..n - 3], ReadCsvRecord), ReadCsvTotal(lines[n - 1]))
      case (Some(records), Some(total)) => Some(CsvReport(records, total))
      case _ => None
  }

  // ---------------------------------------------------------------------------------------------
  // HTML

  /** Reads `<tr>` or a bold `<tr ...>`, then three cells, then `</tr>`. */
  function ReadHtmlRecord(line: string): Option<HtmlRecord> {
    ReadHtmlRowParts(Split(line, '<'))
  }

  /** Reads the pieces of a row between its `<` characters. */
  function ReadHtmlRowParts(parts: seq<string>): Option<HtmlRecord> {
    if || |parts| != 9 || parts[0] != ""
       || (parts[1] != "tr>" && parts[1] != "tr" + BoldStyle + ">")
       || parts[3] != "/td>" || parts[5] != "/td>" || parts[7] != "/td>" || parts[8] != "/tr>"
    then None
    else match (Between(parts[2], "td>", ""), Between(parts[4], "td>", ""), Between(parts[6], "td>", ""))
      case (Some(id), Some(name), Some(value)) =>
        (match (ParseInt(id), ParseInt(value))
         case (Some(i), Some(v)) => Some(HtmlRecord(parts[1] != "tr>", i, name, v))
         case _ => None)
      case _ => None
  }

  function ReadHtmlTotal(line: string): Option<int> {
    match Between(line, HtmlTotalPrefix, HtmlTotalSuffix)
    case Some(t) => ParseInt(t)
    case None => None
  }

  /** The document head, the user line, the table head, one row per line, the total and the close. */
  function ReadHtml(report: string): Option<HtmlReport> {
    var lines := Split(report, '\n');
    var n := |lines|;
    if || n < 8 || lines[0] != HtmlOpen || lines[1] != HtmlTitle || lines[3] != HtmlTableOpen
       || lines[4] != HtmlColumns || lines[n - 3] != HtmlTableClose || lines[n - 1] != HtmlClose
    then None
    else
      match (Between(lines[2], HtmlUserPrefix, HtmlUserSuffix), ReadEach(lines[5..n - 3], ReadHtmlRecord),
             ReadHtmlTotal(lines[n - 2]))
      case (Some(userName), Some(records), Some(total)) => Some(HtmlReport(userName, records, total))
      case _ => None
  }

  // ---------------------------------------------------------------------------------------------
  // Round trips

  lemma {:induction false} ReadEachReadsAll<T>(lines: seq<string>, read: string -> Option<T>, expected: seq<T>)
    requires |lines| == |expected|
    requires forall i :: 0 <= i < |lines| ==> read(lines[i]) == Some(expected[i])
    ensures ReadEach(lines, read) == Some(expected)
    decreases |lines|
  {
    if |lines| > 0 {
      ReadEachReadsAll(lines[1..], read, expected[1..]);
      assert [expected[0]] + expected[1..] == expected;
    }
  }

  /** Every item name satisfies `ok`. */
  predicate ItemNamesSatisfy(items: seq<Item>, ok: string -> bool) {
    forall i :: 0 <= i < |items| ==> ok(items[i].name)
  }

  /** The visible items carry only names taken from the input. */
  lemma VisibleKeepsNames(user: User, items: seq<Item>, ok: string -> bool)
    requires ItemNamesSatisfy(items, ok)
    ensures ItemNamesSatisfy(VisibleItems(user, items), ok)
  {
    var visible := VisibleItems(user, items);
    forall k | 0 <= k < |visible|
      ensures ok(visible[k].name)
    {
      if RoleOf(user.role) == Standard {
        assert visible[k] in items;
      }
    }
  }

  lemma TerminatedCons(line: string, rest: seq<string>)
    ensures Terminated([line] + rest) == line + "\n" + Terminated(rest)
  {
    assert ([line] + rest)[1..] == rest;
  }

  lemma JoinCons(part: string, rest: seq<string>, sep: char)
    requires |rest| > 0
    ensures Join([part] + rest, sep) == part + [sep] + Join(rest, sep)
  {
    assert ([part] + rest)[1..] == rest;
  }

  /** Joining with one more piece at the end writes the separator and that piece. */
  lemma {:induction false} JoinSnoc(parts: seq<string>, last: string, sep: char)
    requires |parts| > 0
    ensures Join(parts + [last], sep) == Join(parts, sep) + [sep] + last
    decreases |parts|
  {
    if |parts| > 1 {
      assert (parts + [last])[1..] == parts[1..] + [last];
      JoinSnoc(parts[1..], last, sep);
    } else {
      assert parts + [last] == [parts[0], last];
      JoinCons(parts[0], [last], sep);
    }
  }

  // CSV

  predicate CsvSafe(s: string) {
    ',' !in s && '\n' !in s
  }

  function CsvRecordOf(user: User, item: Item): CsvRecord {
    CsvRecord(item.id, item.name, item.value, user.name)
  }

  function CsvRecordsOf(user: User, visible: seq<Item>): (r: seq<CsvRecord>)
    ensures |r| == |visible|
  {
    seq(|visible|, i requires 0 <= i < |visible| => CsvRecordOf(user, visible[i]))
  }

  /** A CSV body line reads back as its item and user, when the names hold no comma. */
  lemma ReadCsvRecordOfRow(user: User, item: Item)
    requires ',' !in user.name && ',' !in item.name
    ensures ReadCsvRecord(CsvRow(user, item)) == Some(CsvRecordOf(user, item))
  {
    var id := IntToString(item.id);
    var value := IntToString(item.value);
    var fields := [id, item.name, value, user.name];
    JoinCons(value, [user.name], ',');
    JoinCons(item.name, [value, user.name], ',');
    JoinCons(id, [item.name, value, user.name], ',');
    assert Join(fields, ',') == CsvRow(user, item);
    NumeralHasNo(',', id);
    NumeralHasNo(',', value);
    SplitJoin(fields, ',');
    ParseIntRoundTrip(item.id);
    ParseIntRoundTrip(item.value);
  }

  /** The lines of a CSV report: the column line, the rows, a blank line, the label and the total. */
  function CsvLines(user: User, visible: seq<Item>): seq<string> {
    [CsvHeaderLine] + RowTexts(Csv, user, visible) + ["", CsvTotalLabel] + [IntToString(SumOfValues(visible)) + ",,"]
  }

  lemma DropFinalLineFeed(a: string, b: string)
    requires a + "\n" == b + "\n"
    ensures a == b
  {
    assert a == (a + "\n")[..|a|];
    assert b == (b + "\n")[..|b|];
  }

  /** The CSV sections, as text, are the report's lines each followed by a line feed. */
  lemma CsvSectionsAreLines(rows: seq<string>, body: string, last: string)
    requires body == Terminated(rows)
    ensures CsvHeaderLine + "\n" + body + ("\n" + CsvTotalLabel + "\n" + last + "\n")
      == Terminated([CsvHeaderLine] + rows + ["", CsvTotalLabel]) + last + "\n"
  {
    TerminatedCons(CsvHeaderLine, []);
    TerminatedCons(CsvTotalLabel, []);
    TerminatedCons("", [CsvTotalLabel]);
    TerminatedAppend([CsvHeaderLine], rows);
    TerminatedAppend([CsvHeaderLine] + rows, ["", CsvTotalLabel]);
  }

  lemma CsvReportIsJoinedLines(user: User, items: seq<Item>)
    ensures GenerateReport(ReportTypeCsv, user, items) == Join(CsvLines(user, VisibleItems(user, items)), '\n')
  {
    var visible := VisibleItems(user, items);
    var r := GenerateReport(ReportTypeCsv, user, items);
    var rows := RowTexts(Csv, user, visible);
    var last := IntToString(SumOfValues(visible)) + ",,";
    var head := [CsvHeaderLine] + rows + ["", CsvTotalLabel];
    CsvSections(user, items);
    BodyIsTerminatedRows(Csv, user, visible);
    CsvSectionsAreLines(rows, Body(Csv, user, visible), last);
    DropFinalLineFeed(r, Terminated(head) + last);
    TerminatedThenLast(head, last);
  }

  lemma CsvLinesHaveNoLineFeed(user: User, items: seq<Item>)
    requires NoLineFeed(user.name) && ItemNamesSatisfy(items, NoLineFeed)
    ensures var lines := CsvLines(user, VisibleItems(user, items));
      forall i :: 0 <= i < |lines| ==> '\n' !in lines[i]
  {
    var visible := VisibleItems(user, items);
    var lines := CsvLines(user, visible);
    var rows := RowTexts(Csv, user, visible);
    VisibleKeepsNames(user, items, NoLineFeed);
    forall i | 0 <= i < |lines|
      ensures '\n' !in lines[i]
    {
      if 1 <= i <= |rows| {
        assert lines[i] == rows[i - 1];
        RowTextHasNoLineFeed(Csv, user, visible[i - 1]);
      } else if i == |lines| - 1 {
        NumeralHasNo('\n', IntToString(SumOfValues(visible)));
      }
    }
  }

  /** A generated CSV report splits into its lines, when no name holds a line feed. */
  lemma CsvReportLines(user: User, items: seq<Item>)
    requires NoLineFeed(user.name) && ItemNamesSatisfy(items, NoLineFeed)
    ensures Split(GenerateReport(ReportTypeCsv, user, items), '\n') == CsvLines(user, VisibleItems(user, items))
  {
    CsvReportIsJoinedLines(user, items);
    CsvLinesHaveNoLineFeed(user, items);
    SplitJoin(CsvLines(user, VisibleItems(user, items)), '\n');
  }

  lemma ReadCsvTotalOfLine(total: int)
    ensures ReadCsvTotal(IntToString(total) + ",,") == Some(total)
  {
    var t := IntToString(total);
    JoinCons(t, ["", ""], ',');
    JoinCons("", [""], ',');
    assert Join([t, "", ""], ',') == t + ",,";
    NumeralHasNo(',', t);
    SplitJoin([t, "", ""], ',');
    ParseIntRoundTrip(total);
  }

  lemma ReadCsvRecordsOfRows(user: User, visible: seq<Item>)
    requires CsvSafe(user.name) && ItemNamesSatisfy(visible, CsvSafe)
    ensures ReadEach(RowTexts(Csv, user, visible), ReadCsvRecord) == Some(CsvRecordsOf(user, visible))
  {
    var rows := RowTexts(Csv, user, visible);
    forall i | 0 <= i < |rows|
      ensures ReadCsvRecord(rows[i]) == Some(CsvRecordsOf(user, visible)[i])
    {
      ReadCsvRecordOfRow(user, visible[i]);
    }
    ReadEachReadsAll(rows, ReadCsvRecord, CsvRecordsOf(user, visible));
  }

  /** Reading text whose lines are those of a CSV report gives back its records and total. */
  lemma ReadCsvOfLines(report: string, user: User, visible: seq<Item>)
    requires Split(report, '\n') == CsvLines(user, visible)
    requires CsvSafe(user.name) && ItemNamesSatisfy(visible, CsvSafe)
    ensures ReadCsv(report) == Some(CsvReport(CsvRecordsOf(user, visible), SumOfValues(visible)))
  {
    var lines := CsvLines(user, visible);
    var n := |lines|;
    var rows := RowTexts(Csv, user, visible);
    var last := IntToString(SumOfValues(visible)) + ",,";
    assert lines == [CsvHeaderLine] + rows + ["", CsvTotalLabel, last];
    assert n == |rows| + 4;
    assert lines[0] == CsvHeaderLine;
    assert lines[n - 3] == "" && lines[n - 2] == CsvTotalLabel && lines[n - 1] == last;
    assert lines[1..n - 3] == rows;
    ReadCsvRecordsOfRows(user, visible);
    ReadCsvTotalOfLine(SumOfValues(visible));
  }

  /**
   Reading a generated CSV report gives one record per visible item, in order, each with the
   item's id, name and value and the user's name, and a total equal to the sum of exactly those
   items' values.
   */
  lemma CsvRoundTrip(user: User, items: seq<Item>)
    requires CsvSafe(user.name) && ItemNamesSatisfy(items, CsvSafe)
    ensures var visible := VisibleItems(user, items);
      ReadCsv(GenerateReport(ReportTypeCsv, user, items))
      == Some(CsvReport(CsvRecordsOf(user, visible), SumOfValues(visible)))
  {
    var report := GenerateReport(ReportTypeCsv, user, items);
    assert ItemNamesSatisfy(items, NoLineFeed);
    CsvReportLines(user, items);
    VisibleKeepsNames(user, items, CsvSafe);
    ReadCsvOfLines(report, user, VisibleItems(user, items));
  }

  // HTML

  /** A name that can sit in a table cell and still be read back: no tag opening, no line feed. */
  predicate HtmlCellSafe(s: string) {
    '<' !in s && '\n' !in s
  }

  function HtmlRecordOf(item: Item): HtmlRecord {
    HtmlRecord(item.priority, item.id, item.name, item.value)
  }

  function HtmlRecordsOf(visible: seq<Item>): (r: seq<HtmlRecord>)
    ensures |r| == |visible|
  {
    seq(|visible|, i requires 0 <= i < |visible| => HtmlRecordOf(visible[i]))
  }

  /** The pieces of an HTML row between its `<` characters. */
  function HtmlRowParts(item: Item): seq<string> {
    [ "", "tr" + (if item.priority then BoldStyle else "") + ">",
      "td>" + IntToString(item.id), "/td>", "td>" + item.name, "/td>",
      "td>" + IntToString(item.value), "/td>", "/tr>" ]
  }

  lemma CellBoundary(before: string, cell: string)
    ensures before + "<" + "/td>" + "<" + ("td>" + cell) == before + "</td><td>" + cell
  {
  }

  /** The row template, written out, is its pieces joined by `<`. */
  lemma RowTemplateIsJoinedParts(style: string, id: string, name: string, value: string)
    ensures "<tr" + style + "><td>" + id + "</td><td>" + name + "</td><td>" + value + "</td></tr>"
      == Join(["", "tr" + style + ">", "td>" + id, "/td>", "td>" + name, "/td>", "td>" + value, "/td>", "/tr>"], '<')
  {
    var p1 := ["", "tr" + style + ">"];
    JoinCons("", ["tr" + style + ">"], '<');
    var p2 := p1 + ["td>" + id];
    JoinSnoc(p1, "td>" + id, '<');
    var t2 := "<tr" + style + "><td>" + id;
    assert Join(p2, '<') == t2;
    var p4 := p2 + ["/td>"] + ["td>" + name];
    JoinSnoc(p2, "/td>", '<');
    JoinSnoc(p2 + ["/td>"], "td>" + name, '<');
    CellBoundary(t2, name);
    var t4 := t2 + "</td><td>" + name;
    assert Join(p4, '<') == t4;
    var p6 := p4 + ["/td>"] + ["td>" + value];
    JoinSnoc(p4, "/td>", '<');
    JoinSnoc(p4 + ["/td>"], "td>" + value, '<');
    CellBoundary(t4, value);
    var t6 := t4 + "</td><td>" + value;
    assert Join(p6, '<') == t6;
    var p8 := p6 + ["/td>"] + ["/tr>"];
    JoinSnoc(p6, "/td>", '<');
    JoinSnoc(p6 + ["/td>"], "/tr>", '<');
    assert Join(p8, '<') == t6 + "</td></tr>";
    assert p8 == ["", "tr" + style + ">", "td>" + id, "/td>", "td>" + name, "/td>", "td>" + value, "/td>", "/tr>"];
  }

  lemma HtmlRowIsJoinedParts(item: Item)
    ensures HtmlRow(item) == Join(HtmlRowParts(item), '<')
  {
    RowTemplateIsJoinedParts(if item.priority then BoldStyle else "", IntToString(item.id), item.name,
      IntToString(item.value));
  }

  lemma BetweenCellOpen(x: string)
    ensures Between("td>" + x, "td>", "") == Some(x)
  {
    BetweenOfConcat("td>", x, "");
    assert "td>" + x + "" == "td>" + x;
  }

  /** The opening tag tells a bold row from a plain one. */
  lemma RowTagShowsPriority(item: Item)
    ensures var tag := HtmlRowParts(item)[1];
      && (tag == "tr>" || tag == "tr" + BoldStyle + ">")
      && (tag != "tr>" <==> item.priority)
  {
    if item.priority {
      assert |HtmlRowParts(item)[1]| > |"tr>"|;
    }
  }

  /** No piece of a row holds a `<`, as long as the item's name holds none. */
  lemma RowPartsHaveNoTagOpen(item: Item)
    requires '<' !in item.name
    ensures var p := HtmlRowParts(item); forall i :: 0 <= i < |p| ==> '<' !in p[i]
  {
    var p := HtmlRowParts(item);
    NumeralHasNo('<', IntToString(item.id));
    NumeralHasNo('<', IntToString(item.value));
    assert '<' !in BoldStyle;
    assert '<' !in p[1];
    assert '<' !in p[2] && '<' !in p[4] && '<' !in p[6];
  }

  lemma ReadHtmlRowPartsOfItem(item: Item)
    ensures ReadHtmlRowParts(HtmlRowParts(item)) == Some(HtmlRecordOf(item))
  {
    var p := HtmlRowParts(item);
    RowTagShowsPriority(item);
    BetweenCellOpen(IntToString(item.id));
    BetweenCellOpen(item.name);
    BetweenCellOpen(IntToString(item.value));
    ParseIntRoundTrip(item.id);
    ParseIntRoundTrip(item.value);
  }

  /** An HTML row reads back as its item, bold exactly when the item is a priority item. */
  lemma ReadHtmlRecordOfRow(item: Item)
    requires '<' !in item.name
    ensures ReadHtmlRecord(HtmlRow(item)) == Some(HtmlRecordOf(item))
  {
    HtmlRowIsJoinedParts(item);
    RowPartsHaveNoTagOpen(item);
    SplitJoin(HtmlRowParts(item), '<');
    ReadHtmlRowPartsOfItem(item);
  }

  /** The lines of an HTML report before its rows. */
  function HtmlHeadLines(user: User): seq<string> {
    [HtmlOpen, HtmlTitle, HtmlUserPrefix + user.name + HtmlUserSuffix, HtmlTableOpen, HtmlColumns]
  }

  /** The lines of an HTML report: the head, one row per visible item, the table close, the total and the close. */
  function HtmlLines(user: User, visible: seq<Item>): seq<string> {
    HtmlHeadLines(user) + RowTexts(Html, user, visible) + HtmlFootLines(SumOfValues(visible)) + [HtmlClose]
  }

  /** The terminated lines of an HTML report after its rows. */
  function HtmlFootLines(total: int): seq<string> {
    [HtmlTableClose, HtmlTotalPrefix + IntToString(total) + HtmlTotalSuffix]
  }

  lemma TerminatedOne(line: string)
    ensures Terminated([line]) == line + "\n"
  {
  }

  lemma TerminatedFive(a: string, b: string, c: string, d: string, e: string)
    ensures Terminated([a, b, c, d, e]) == a + "\n" + b + "\n" + c + "\n" + d + "\n" + e + "\n"
  {
    var l1 := [a];
    var l2 := l1 + [b];
    var l3 := l2 + [c];
    var l4 := l3 + [d];
    var l5 := l4 + [e];
    TerminatedOne(a);
    TerminatedOne(b);
    TerminatedOne(c);
    TerminatedOne(d);
    TerminatedOne(e);
    TerminatedAppend(l1, [b]);
    TerminatedAppend(l2, [c]);
    TerminatedAppend(l3, [d]);
    TerminatedAppend(l4, [e]);
    assert l5 == [a, b, c, d, e];
  }

  lemma HtmlHeaderIsTerminatedLines(user: User)
    ensures Header(Html, user) == Terminated(HtmlHeadLines(user))
  {
    var userLine := HtmlUserPrefix + user.name + HtmlUserSuffix;
    TerminatedFive(HtmlOpen, HtmlTitle, userLine, HtmlTableOpen, HtmlColumns);
  }

  lemma HtmlFooterIsLines(total: int)
    ensures Footer(Html, total) == Terminated(HtmlFootLines(total)) + HtmlClose + "\n"
  {
    var totalLine := HtmlTotalPrefix + IntToString(total) + HtmlTotalSuffix;
    TerminatedCons(totalLine, []);
    TerminatedCons(HtmlTableClose, [totalLine]);
    assert Terminated([HtmlTableClose, totalLine]) == HtmlTableClose + "\n" + (totalLine + "\n");
  }

  /** Three runs of terminated lines, then a last line and its line feed. */
  lemma SectionsAreLines(head: seq<string>, rows: seq<string>, foot: seq<string>, last: string,
                         h: string, b: string, f: string)
    requires h == Terminated(head) && b == Terminated(rows) && f == Terminated(foot) + last + "\n"
    ensures h + b + f == Terminated(head + rows + foot) + last + "\n"
  {
    TerminatedAppend(head, rows);
    TerminatedAppend(head + rows, foot);
  }

  lemma HtmlReportIsJoinedLines(user: User, items: seq<Item>)
    ensures GenerateReport(ReportTypeHtml, user, items) == Join(HtmlLines(user, VisibleItems(user, items)), '\n')
  {
    var visible := VisibleItems(user, items);
    var r := GenerateReport(ReportTypeHtml, user, items);
    var head := HtmlHeadLines(user);
    var rows := RowTexts(Html, user, visible);
    var foot := HtmlFootLines(SumOfValues(visible));
    assert FormatOf(ReportTypeHtml) == Html;
    HtmlFooterIsLines(SumOfValues(visible));
    HtmlHeaderIsTerminatedLines(user);
    BodyIsTerminatedRows(Html, user, visible);
    SectionsAreLines(head, rows, foot, HtmlClose,
      Header(Html, user), Body(Html, user, visible), Footer(Html, SumOfValues(visible)));
    DropFinalLineFeed(r, Terminated(head + rows + foot) + HtmlClose);
    TerminatedThenLast(head + rows + foot, HtmlClose);
  }

  lemma HtmlHeadHasNoLineFeed()
    ensures '\n' !in HtmlOpen && '\n' !in HtmlTitle && '\n' !in HtmlTableOpen
    ensures '\n' !in HtmlUserPrefix && '\n' !in HtmlUserSuffix
  {
  }

  lemma HtmlColumnsHaveNoLineFeed()
    ensures '\n' !in HtmlColumns
  {
  }

  lemma HtmlFootHasNoLineFeed()
    ensures '\n' !in HtmlTableClose && '\n' !in HtmlTotalPrefix && '\n' !in HtmlTotalSuffix && '\n' !in HtmlClose
  {
  }

  lemma HtmlLinesHaveNoLineFeed(user: User, items: seq<Item>)
    requires NoLineFeed(user.name) && ItemNamesSatisfy(items, NoLineFeed)
    ensures var lines := HtmlLines(user, VisibleItems(user, items));
      forall i :: 0 <= i < |lines| ==> '\n' !in lines[i]
  {
    var visible := VisibleItems(user, items);
    var lines := HtmlLines(user, visible);
    var rows := RowTexts(Html, user, visible);
    VisibleKeepsNames(user, items, NoLineFeed);
    NumeralHasNo('\n', IntToString(SumOfValues(visible)));
    HtmlHeadHasNoLineFeed();
    HtmlColumnsHaveNoLineFeed();
    HtmlFootHasNoLineFeed();
    forall i | 0 <= i < |lines|
      ensures '\n' !in lines[i]
    {
      if 5 <= i < 5 + |rows| {
        assert lines[i] == rows[i - 5];
        RowTextHasNoLineFeed(Html, user, visible[i - 5]);
      }
    }
  }

  lemma ReadHtmlRecordsOfRows(user: User, visible: seq<Item>)
    requires ItemNamesSatisfy(visible, HtmlCellSafe)
    ensures ReadEach(RowTexts(Html, user, visible), ReadHtmlRecord) == Some(HtmlRecordsOf(visible))
  {
    var rows := RowTexts(Html, user, visible);
    forall i | 0 <= i < |rows|
      ensures ReadHtmlRecord(rows[i]) == Some(HtmlRecordsOf(visible)[i])
    {
      ReadHtmlRecordOfRow(visible[i]);
    }
    ReadEachReadsAll(rows, ReadHtmlRecord, HtmlRecordsOf(visible));
  }

  /** Reading text whose lines are those of an HTML report gives back its user, records and total. */
  lemma ReadHtmlOfLines(report: string, user: User, visible: seq<Item>)
    requires Split(report, '\n') == HtmlLines(user, visible)
    requires ItemNamesSatisfy(visible, HtmlCellSafe)
    ensures ReadHtml(report) == Some(HtmlReport(user.name, HtmlRecordsOf(visible), SumOfValues(visible)))
  {
    var lines := HtmlLines(user, visible);
    var n := |lines|;
    var total := SumOfValues(visible);
    var head := HtmlHeadLines(user);
    var rows := RowTexts(Html, user, visible);
    var totalLine := HtmlTotalPrefix + IntToString(total) + HtmlTotalSuffix;
    assert lines == head + rows + [HtmlTableClose, totalLine, HtmlClose];
    assert n == |rows| + 8;
    assert lines[0] == HtmlOpen && lines[1] == HtmlTitle && lines[3] == HtmlTableOpen && lines[4] == HtmlColumns;
    assert lines[2] == HtmlUserPrefix + user.name + HtmlUserSuffix;
    assert lines[n - 3] == HtmlTableClose && lines[n - 2] == totalLine && lines[n - 1] == HtmlClose;
    assert lines[5..n - 3] == rows;
    ReadHtmlRecordsOfRows(user, visible);
    BetweenOfConcat(HtmlUserPrefix, user.name, HtmlUserSuffix);
    BetweenOfConcat(HtmlTotalPrefix, IntToString(total), HtmlTotalSuffix);
    ParseIntRoundTrip(total);
    assert ReadHtmlTotal(lines[n - 2]) == Some(total);
  }

  /**
   Reading a generated HTML report gives the user's name, one record per visible item, in order,
   each with the item's id, name and value and bold exactly when the item is a priority item, and
   a total equal to the sum of exactly those items' values.
   */
  lemma HtmlRoundTrip(user: User, items: seq<Item>)
    requires NoLineFeed(user.name) && ItemNamesSatisfy(items, HtmlCellSafe)
    ensures var visible := VisibleItems(user, items);
      ReadHtml(GenerateReport(ReportTypeHtml, user, items))
      == Some(HtmlReport(user.name, HtmlRecordsOf(visible), SumOfValues(visible)))
  {
    var report := GenerateReport(ReportTypeHtml, user, items);
    var visible := VisibleItems(user, items);
    assert ItemNamesSatisfy(items, NoLineFeed);
    HtmlReportIsJoinedLines(user, items);
    HtmlLinesHaveNoLineFeed(user, items);
    SplitJoin(HtmlLines(user, visible), '\n');
    VisibleKeepsNames(user, items, HtmlCellSafe);
    ReadHtmlOfLines(report, user, visible);
  }
}
