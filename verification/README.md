# ReportGenerator in Dafny

A model of `ReportGenerator.generateReport`, which turns a list of items into a CSV or HTML text
report for a user. The role of the user (`ADMIN`, `USER` or anything else) decides which items are
visible. An administrator sees every item, and each one is flagged as priority when its value
exceeds 1000. A standard user sees, in input order, only the items worth at most 500. Any other
role sees nothing. The report has three parts:

- a header that depends on the format;
- one body line per visible item, where HTML rows of priority items are styled bold;
- a footer with the total of the visible values.

The whole text is passed through JavaScript's `trim`. A report type other than `CSV` or `HTML`
produces the empty string.

Files:

- `maybe.dfy`: the `Option` type.
- `decimal.dfy`: how the generator writes an integer into a template literal (`IntToString`),
  together with a parser that is its inverse.
- `text.dfy`: ECMAScript `trim` with its exact whitespace and line-terminator set. It also holds the
  split and join of lines and fields, with their round trip, and prefix/suffix stripping.
- `report.dfy`: the generator itself. This covers the constants, the visible-item selection, the
  total, and the header, body and footer renderers of the two formats.
- `report_properties.dfy`: properties of the selection, the total, the bold rows and the
  line structure of the body and of the CSV report.
- `report_reader.dfy`: readers for both formats and the round-trip theorems. Reading a generated
  report gives back the visible items in order (with the bold flag for HTML), the user and the
  total.
- `report_examples.dfy`: two worked reports over the items `(1, A, 600)` and `(2, B, 1200)`.

The report type and the role stay strings at the interface, as in the source. Each is classified
once, by exact comparison, into `Format` and `Role`. The source compares the same strings with
`===` in every method, so the behaviour is the same.

## Model

| member | source | states |
|---|---|---|
| Report.WithPriority | src/ReportGenerator.refactored.js:41-47 | The administrator's view keeps every item in order. Each copy has the same id, name and value, and its priority flag is true exactly when the value exceeds 1000. |
| Report.LowValueItems | src/ReportGenerator.refactored.js:50-52 | An item is in the standard user's view if and only if it is in the input and its value is at most 500. |
| Report.VisibleItems | src/ReportGenerator.refactored.js:40-56 | ADMIN sees all items with priority set by the 1000 threshold. USER sees exactly the input items worth at most 500. Any other role sees the empty list. |
| ReportProperties.LowValueSelection | src/ReportGenerator.refactored.js:52 | The standard view is drawn from the input at strictly increasing positions. Those positions are exactly the ones whose value is at most 500, so the filter is stable and drops nothing else. |
| ReportProperties.StandardSeesLowValueItemsInOrder | src/ReportGenerator.refactored.js:50-53 | For a USER, the visible items are the input items worth at most 500, unchanged and in input order. |
| ReportProperties.UnknownRoleSeesNothing | src/ReportGenerator.refactored.js:55 | An unknown role yields no visible items, an empty body and a total of 0. |
| Report.Reduce | src/ReportGenerator.refactored.js:25 | The left-to-right reduction `sum + item.value`, started at `acc`, equals `acc` plus the sum of the values. |
| Report.Total | src/ReportGenerator.refactored.js:25 | The reduction started at 0 equals the sum of the visible values. |
| ReportProperties.WithPriorityKeepsSum | src/ReportGenerator.refactored.js:43-47 | Setting the priority flags does not change the sum of the values. |
| ReportProperties.AdminTotalIsSumOfAllItems | src/ReportGenerator.refactored.js:22-25 | An administrator's total is the sum of the values of all input items. |
| ReportProperties.StandardTotalSplitsInput | src/ReportGenerator.refactored.js:52 | The input's sum is the standard user's total plus the sum of the items above 500. |
| Report.Header | src/ReportGenerator.refactored.js:61-75 | The header is empty exactly for an unrecognised report type. Otherwise it starts with a character trim keeps and ends with a line feed. |
| Report.Body | src/ReportGenerator.refactored.js:81-92 | The body is empty for an unrecognised type. For CSV and HTML it is empty exactly when no item is visible. |
| Report.Footer | src/ReportGenerator.refactored.js:97-109 | The footer is empty exactly for an unrecognised type. Otherwise it ends with a line feed preceded by a character trim keeps. |
| Report.GenerateReport | src/ReportGenerator.refactored.js:20-34 | An unrecognised report type yields "". For CSV and HTML, the report followed by one line feed is exactly header, body and footer, where the footer carries the sum of the visible values. The trim therefore removes only the final line feed. |
| Text.Trim | src/ReportGenerator.refactored.js:33 | The result is a slice of the input. Only ECMAScript whitespace and line terminators are dropped before and after it. It is empty exactly when every character is such a character, and otherwise it neither starts nor ends with one. |
| Text.TrimSections | src/ReportGenerator.refactored.js:28-33 | Trimming header + body + footer drops only the footer's final line feed, when the header starts and the footer ends (before the line feed) with kept characters. |
| Decimal.IntToString | src/ReportGenerator.refactored.js:85 | An interpolated integer is '-' exactly when it is negative, followed by a non-empty run of digits with no leading zero, so 0 is the only numeral starting with '0'. |
| Decimal.ParseIntRoundTrip | src/ReportGenerator.refactored.js:85 | Parsing the numeral written for any integer gives back that integer. |
| ReportProperties.BodyLinesAreRows | src/ReportGenerator.refactored.js:83-91 | Split at line feeds, the body is one row per visible item, in order, followed by an empty last part. This holds when the names contain no line feed. |
| ReportProperties.HtmlRowBoldIffPriority | src/ReportGenerator.refactored.js:87-88 | An HTML row opens with the bold-styled `<tr>` tag if and only if its item is flagged priority. |
| ReportProperties.AdminBoldRowsAreHighValue | src/ReportGenerator.refactored.js:44 | In an administrator's HTML report, the row of input item i is bold if and only if that item's value exceeds 1000. |
| ReportProperties.CsvReportShape | src/ReportGenerator.refactored.js:28-33 | A CSV report starts with the header line and a line feed, and ends with the total followed by ",,". |
| ReportReader.ReadCsvRecordOfRow | src/ReportGenerator.refactored.js:85 | Reading back a CSV row gives the item's id, name and value and the user's name, when neither name contains a comma. |
| ReportReader.ReadHtmlRecordOfRow | src/ReportGenerator.refactored.js:87-88 | Reading back an HTML row gives its bold flag, id, name and value, when the name contains no '<'. |
| ReportReader.CsvReportLines | src/ReportGenerator.refactored.js:61-64 | When no name contains a line feed, the CSV report's lines are the header line, one row per visible item, an empty line, the "Total,," label and the total line. |
| ReportReader.HtmlReportIsJoinedLines | src/ReportGenerator.refactored.js:66-72 | The HTML report is its five header lines, one row per visible item, the table close, the total line and the closing tags, joined by line feeds. |
| ReportReader.CsvRoundTrip | src/ReportGenerator.refactored.js:20-34 | Reading a CSV report gives back exactly the visible items, in order, each with the user's name, and the sum of their values as the total. |
| ReportReader.HtmlRoundTrip | src/ReportGenerator.refactored.js:20-34 | Reading an HTML report gives back the user's name, exactly the visible items in order with bold set as their priority, and the sum of their values. |
| ReportExamples.AdminCsvExample | src/ReportGenerator.refactored.js:41-47 | For ADMIN over items worth 600 and 1200, both items are visible, only the second is flagged, and the CSV report reads back as both rows with a total of 1800. |
| ReportExamples.StandardHtmlExample | src/ReportGenerator.refactored.js:50-52 | For USER over the same items, nothing is visible, and the HTML report reads back as the user's name, no rows and a total of 0. |

## Left out

- The constructor and its `db` field are not modelled. The field is stored but never read by the
  report code.
- JavaScript numbers are modelled as unbounded integers. Left out are fractional values, NaN,
  infinities, `-0`, the exponent notation JavaScript prints for magnitudes of 1e21 and above, and
  rounding in the floating-point sum.
- Item fields that are not numbers are left out. Examples are a string `value`, which would make
  the total a string concatenation, and a missing `id` or `name`, which prints as "undefined".
  Item ids and values are integers and names are strings.
- `priority` is a boolean. A missing flag is `false`. The source treats any truthy value as
  priority.
- Strings are sequences of Unicode scalar values, while JavaScript strings are UTF-16 code units.
  This makes no difference to trimming, because every character trim removes lies in the Basic
  Multilingual Plane.
- The source does not escape anything, and neither does the model. The readers exist only to state
  the round trips.
- ReportReader.CsvRoundTrip: stated only for a user name and item names without commas or line
  feeds, because the generator writes such names unquoted and the report is then ambiguous.
- ReportReader.HtmlRoundTrip: stated only for a user name without line feeds and item names
  without '<' or line feeds, for the same reason.
- ReportProperties.BodyLinesAreRows: stated only for names without line feeds, for the same reason.
- Determinism and not mutating the input list need no lemma. The model is a pure function, and the
  administrator's view is built as new item values.
