/**
 The report generator: a user and a list of items become a CSV or HTML report.
 `GenerateReport` filters the items the user may see, sums their values once, renders a
 header, one body line per visible item and a footer carrying the total, and trims the result.
 */
module Report {
  import opened Decimal
  import opened Text

  const ReportTypeCsv: string := "CSV"
  const ReportTypeHtml: string := "HTML"
  const UserRoleAdmin: string := "ADMIN"
  const UserRoleUser: string := "USER"

  /** Administrators see items worth more than this in bold. */
  const PriorityThreshold: int := 1000
  /** Standard users see only items worth at most this. */
  const StandardUserValueLimit: int := 500

  /** The report kinds the generator renders; any other report type renders nothing. */
  datatype Format = Csv | Html | Unrecognised

  /** The roles the visibility rule distinguishes; any other role sees nothing. */
  datatype Role = Admin | Standard | Unknown

  datatype User = User(name: string, role: string)

  /** An item of the report; `priority` is false when the field is absent. */
  datatype Item = Item(id: int, name: string, value: int, priority: bool)

  function FormatOf(reportType: string): Format {
    if reportType == ReportTypeCsv then Csv
    else if reportType == ReportTypeHtml then Html
    else Unrecognised
  }

  function RoleOf(role: string): Role {
    if role == UserRoleAdmin then Admin
    else if role == UserRoleUser then Standard
    else Unknown
  }

  // ---------------------------------------------------------------------------------------------
  // Visibility

  /** The administrator's view: a copy of every item, flagged as priority when its value is high. */
  function WithPriority(items: seq<Item>): (r: seq<Item>)
    ensures |r| == |items|
    ensures forall i :: 0 <= i < |r| ==>
      && r[i].id == items[i].id
      && r[i].name == items[i].name
      && r[i].value == items[i].value
      && (r[i].priority <==> items[i].value > PriorityThreshold)
  {
    if |items| == 0 then []
    else [items[0].(priority := items[0].value > PriorityThreshold)] + WithPriority(items[1..])
  }

  /** The standard user's view: the low-value items, in input order, unchanged. */
  function LowValueItems(items: seq<Item>): (r: seq<Item>)
    ensures |r| <= |items|
    ensures forall x :: x in r <==> x in items && x.value <= StandardUserValueLimit
  {
    if |items| == 0 then []
    else if items[0].value <= StandardUserValueLimit then [items[0]] + LowValueItems(items[1..])
    else LowValueItems(items[1..])
  }

  /** The items `user` is allowed to see, as the rest of the report renders them. */
  function VisibleItems(user: User, items: seq<Item>): (r: seq<Item>)
    ensures RoleOf(user.role) == Admin ==>
      && |r| == |items|
      && forall i :: 0 <= i < |r| ==>
        && r[i].id == items[i].id && r[i].name == items[i].name && r[i].value == items[i].value
        && (r[i].priority <==> items[i].value > PriorityThreshold)
    ensures RoleOf(user.role) == Standard ==>
      forall x :: x in r <==> x in items && x.value <= StandardUserValueLimit
    ensures RoleOf(user.role) == Unknown ==> r == []
  {
    match RoleOf(user.role)
    case Admin => WithPriority(items)
    case Standard => LowValueItems(items)
    case Unknown => []
  }

  // ---------------------------------------------------------------------------------------------
  // Total

  /** The sum of the values of `items`, the reference the total is checked against. */
  function SumOfValues(items: seq<Item>): int {
    if |items| == 0 then 0 else items[0].value + SumOfValues(items[1..])
  }

  /** The running reduction `sum + item.value` over `items`, started at `acc`. */
  function Reduce(acc: int, items: seq<Item>): (r: int)
    ensures r == acc + SumOfValues(items)
    decreases |items|
  {
    if |items| == 0 then acc else Reduce(acc + items[0].value, items[1..])
  }

  /** The report total: the values of `items` reduced from 0. */
  function Total(items: seq<Item>): (r: int)
    ensures r == SumOfValues(items)
  {
    Reduce(0, items)
  }

  // ---------------------------------------------------------------------------------------------
  // Rendering

  const CsvHeaderLine: string := "ID,NOME,VALOR,USUARIO"
  const CsvTotalLabel: string := "Total,,"

  const HtmlOpen: string := "<html><body>"
  const HtmlTitle: string := "<h1>Relat\U{F3}rio</h1>"
  const HtmlUserPrefix: string := "<h2>Usu\U{E1}rio: "
  const HtmlUserSuffix: string := "</h2>"
  const HtmlTableOpen: string := "<table>"
  const HtmlColumns: string := "<tr>" + "<th>ID</th>" + "<th>Nome</th>" + "<th>Valor</th>" + "</tr>"
  const HtmlTableClose: string := "</table>"
  const HtmlTotalPrefix: string := "<h3>Total: "
  const HtmlTotalSuffix: string := "</h3>"
  const HtmlClose: string := "</body></html>"

  /** The attribute a priority row carries in its opening tag. */
  const BoldStyle: string := " style=\"font-weight:bold;\""

  function Header(format: Format, user: User): (r: string)
    ensures format == Unrecognised <==> r == ""
    ensures format != Unrecognised ==> !IsTrimmable(r[0]) && r[|r| - 1] == '\n'
  {
    match format
    case Csv => CsvHeaderLine + "\n"
    case Html =>
      HtmlOpen + "\n"
      + HtmlTitle + "\n"
      + HtmlUserPrefix + user.name + HtmlUserSuffix + "\n"
      + HtmlTableOpen + "\n"
      + HtmlColumns + "\n"
    case Unrecognised => ""
  }

  /** A CSV body line without its line feed: the fields joined by commas, with no quoting. */
  function CsvRow(user: User, item: Item): string {
    IntToString(item.id) + "," + item.name + "," + IntToString(item.value) + "," + user.name
  }

  /** An HTML body row without its line feed; a priority item's row is styled bold. */
  function HtmlRow(item: Item): string {
    "<tr" + (if item.priority then BoldStyle else "") + "><td>" + IntToString(item.id)
    + "</td><td>" + item.name + "</td><td>" + IntToString(item.value) + "</td></tr>"
  }

  /** What one pass of the body loop appends for `item`. */
  function BodyLine(format: Format, user: User, item: Item): string {
    match format
    case Csv => CsvRow(user, item) + "\n"
    case Html => HtmlRow(item) + "\n"
    case Unrecognised => ""
  }

  function Body(format: Format, user: User, visible: seq<Item>): (r: string)
    ensures format == Unrecognised ==> r == ""
    ensures format != Unrecognised ==> (r == "" <==> visible == [])
  {
    if |visible| == 0 then "" else BodyLine(format, user, visible[0]) + Body(format, user, visible[1..])
  }

  function Footer(format: Format, total: int): (r: string)
    ensures format == Unrecognised <==> r == ""
    ensures format != Unrecognised ==> |r| > 1 && r[|r| - 1] == '\n' && !IsTrimmable(r[|r| - 2])
  {
    match format
    case Csv => "\n" + CsvTotalLabel + "\n" + IntToString(total) + ",,\n"
    case Html =>
      HtmlTableClose + "\n"
      + HtmlTotalPrefix + IntToString(total) + HtmlTotalSuffix + "\n"
      + HtmlClose + "\n"
    case Unrecognised => ""
  }

  /**
   The report: header, body and footer, trimmed. An unrecognised report type yields the empty
   string; for CSV and HTML the trim removes exactly the footer's final line feed.
   */
  function GenerateReport(reportType: string, user: User, items: seq<Item>): (r: string)
    ensures FormatOf(reportType) == Unrecognised ==> r == ""
    ensures FormatOf(reportType) != Unrecognised ==>
      var format := FormatOf(reportType);
      var visible := VisibleItems(user, items);
      r + "\n" == Header(format, user) + Body(format, user, visible) + Footer(format, SumOfValues(visible))
  {
    var format := FormatOf(reportType);
    var visible := VisibleItems(user, items);
    var total := Total(visible);
    var report := Header(format, user) + Body(format, user, visible) + Footer(format, total);
    assert format != Unrecognised ==> Trim(report) + "\n" == report by {
      if format != Unrecognised {
        TrimSections(Header(format, user), Body(format, user, visible), Footer(format, total));
      }
    }
    Trim(report)
  }
}
