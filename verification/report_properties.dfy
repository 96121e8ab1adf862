/**
 Properties of the report generator that relate several of its functions: what each role sees,
 what the total adds up, which HTML rows are bold, how the body splits into lines, and how a
 CSV report begins and ends.
 */
module ReportProperties {
  import opened Decimal
  import opened Text
  import opened Report

  // ---------------------------------------------------------------------------------------------
  // Visibility

  /** `idx` lists positions in strictly increasing order. */
  predicate Increasing(idx: seq<nat>) {
    forall k, l :: 0 <= k < l < |idx| ==> idx[k] < idx[l]
  }

  /** `r` is the sequence of the items of `items` at the positions `idx`. */
  predicate DrawnFrom(r: seq<Item>, items: seq<Item>, idx: seq<nat>) {
    && |idx| == |r|
    && forall k :: 0 <= k < |idx| ==> idx[k] < |items| && r[k] == items[idx[k]]
  }

  /** `idx` holds exactly the positions of the items a standard user may see. */
  predicate ListsLowValuePositions(items: seq<Item>, idx: seq<nat>) {
    forall i :: 0 <= i < |items| ==> (i in idx <==> items[i].value <= StandardUserValueLimit)
  }

  function Shift(idx: seq<nat>): (r: seq<nat>)
    ensures |r| == |idx|
    ensures forall k :: 0 <= k < |r| ==> r[k] == idx[k] + 1
  {
    seq(|idx|, k requires 0 <= k < |idx| => idx[k] + 1)
  }

  lemma InShift(tail: seq<nat>, i: int)
    ensures i in Shift(tail) <==> 1 <= i && i - 1 in tail
  {
    var shifted := Shift(tail);
    if i in shifted {
      var k :| 0 <= k < |shifted| && shifted[k] == i;
      assert tail[k] == i - 1;
    }
    if 1 <= i && i - 1 in tail {
      var k :| 0 <= k < |tail| && tail[k] == i - 1;
      assert shifted[k] == i;
    }
  }

  /** Positions drawn from a list move up by one when an item is put in front of it. */
  lemma DrawnFromCons(x: Item, rest: seq<Item>, r: seq<Item>, tail: seq<nat>)
    requires DrawnFrom(r, rest, tail)
    ensures DrawnFrom(r, [x] + rest, Shift(tail))
    ensures DrawnFrom([x] + r, [x] + rest, [0] + Shift(tail))
  {
    var items := [x] + rest;
    var shifted := Shift(tail);
    forall k | 0 <= k < |shifted|
      ensures shifted[k] < |items| && r[k] == items[shifted[k]]
    {
      assert items[tail[k] + 1] == rest[tail[k]];
    }
    var idx := [0] + shifted;
    var xr := [x] + r;
    forall k | 1 <= k < |idx|
      ensures idx[k] < |items| && xr[k] == items[idx[k]]
    {
      assert idx[k] == shifted[k - 1] && xr[k] == r[k - 1];
    }
  }

  lemma IncreasingCons(tail: seq<nat>)
    requires Increasing(tail)
    ensures Increasing(Shift(tail))
    ensures Increasing([0] + Shift(tail))
  {
    var shifted := Shift(tail);
    var idx := [0] + shifted;
    forall k, l | 0 <= k < l < |idx|
      ensures idx[k] < idx[l]
    {
      assert idx[l] == shifted[l - 1];
      if k > 0 {
        assert idx[k] == shifted[k - 1];
      }
    }
  }

  lemma ListsLowValuePositionsCons(x: Item, rest: seq<Item>, tail: seq<nat>)
    requires ListsLowValuePositions(rest, tail)
    ensures x.value <= StandardUserValueLimit ==> ListsLowValuePositions([x] + rest, [0] + Shift(tail))
    ensures x.value > StandardUserValueLimit ==> ListsLowValuePositions([x] + rest, Shift(tail))
  {
    var items := [x] + rest;
    var idx := if x.value <= StandardUserValueLimit then [0] + Shift(tail) else Shift(tail);
    forall i | 0 <= i < |items|
      ensures i in idx <==> items[i].value <= StandardUserValueLimit
    {
      InShift(tail, i);
      if i > 0 {
        assert items[i] == rest[i - 1];
      }
    }
  }

  /**
   A standard user's view selects exactly the low-value items, in increasing input position:
   `idx` lists, in order, the input positions the view is drawn from.
   */
  lemma {:induction false} LowValueSelection(items: seq<Item>) returns (idx: seq<nat>)
    ensures DrawnFrom(LowValueItems(items), items, idx)
    ensures Increasing(idx)
    ensures ListsLowValuePositions(items, idx)
    decreases |items|
  {
    if |items| == 0 {
      idx := [];
    } else {
      var rest := items[1..];
      assert items == [items[0]] + rest;
      var tail := LowValueSelection(rest);
      DrawnFromCons(items[0], rest, LowValueItems(rest), tail);
      IncreasingCons(tail);
      ListsLowValuePositionsCons(items[0], rest, tail);
      if items[0].value <= StandardUserValueLimit {
        idx := [0] + Shift(tail);
      } else {
        idx := Shift(tail);
      }
    }
  }

  /** A standard user sees the input items worth at most the limit, unchanged and in input order. */
  lemma StandardSeesLowValueItemsInOrder(user: User, items: seq<Item>) returns (idx: seq<nat>)
    requires RoleOf(user.role) == Standard
    ensures |idx| == |VisibleItems(user, items)|
    ensures forall k :: 0 <= k < |idx| ==> idx[k] < |items| && VisibleItems(user, items)[k] == items[idx[k]]
    ensures forall k, l :: 0 <= k < l < |idx| ==> idx[k] < idx[l]
    ensures forall i :: 0 <= i < |items| ==> (i in idx <==> items[i].value <= StandardUserValueLimit)
  {
    idx := LowValueSelection(items);
  }

  /** A user with any other role sees nothing: the body is empty and the total is zero. */
  lemma UnknownRoleSeesNothing(format: Format, user: User, items: seq<Item>)
    requires RoleOf(user.role) == Unknown
    ensures VisibleItems(user, items) == []
    ensures Body(format, user, VisibleItems(user, items)) == ""
    ensures Total(VisibleItems(user, items)) == 0
  {
  }

  // ---------------------------------------------------------------------------------------------
  // Total

  /** Flagging priority changes no value, so an administrator's total is the sum over the whole input. */
  lemma {:induction false} WithPriorityKeepsSum(items: seq<Item>)
    ensures SumOfValues(WithPriority(items)) == SumOfValues(items)
    decreases |items|
  {
    if |items| > 0 {
      var r := WithPriority(items);
      assert r[1..] == WithPriority(items[1..]);
      WithPriorityKeepsSum(items[1..]);
    }
  }

  lemma AdminTotalIsSumOfAllItems(user: User, items: seq<Item>)
    requires RoleOf(user.role) == Admin
    ensures Total(VisibleItems(user, items)) == SumOfValues(items)
  {
    WithPriorityKeepsSum(items);
  }

  /** A standard user's total leaves out exactly the values of the items above the limit. */
  lemma {:induction false} StandardTotalSplitsInput(items: seq<Item>)
    ensures SumOfValues(items) == SumOfValues(LowValueItems(items)) + SumOfValues(HighValueItems(items))
    decreases |items|
  {
    if |items| > 0 {
      StandardTotalSplitsInput(items[1..]);
      if items[0].value <= StandardUserValueLimit {
        assert ([items[0]] + LowValueItems(items[1..]))[1..] == LowValueItems(items[1..]);
      } else {
        assert ([items[0]] + HighValueItems(items[1..]))[1..] == HighValueItems(items[1..]);
      }
    }
  }

  /** The items a standard user does not see. */
  function HighValueItems(items: seq<Item>): (r: seq<Item>)
    ensures forall x :: x in r <==> x in items && x.value > StandardUserValueLimit
  {
    if |items| == 0 then []
    else if items[0].value > StandardUserValueLimit then [items[0]] + HighValueItems(items[1..])
    else HighValueItems(items[1..])
  }

  // ---------------------------------------------------------------------------------------------
  // Body lines

  /** The opening of a bold row. */
  const BoldRowOpen: string := "<tr" + BoldStyle + ">"

  /** An HTML row opens bold exactly when its item is flagged as priority. */
  lemma HtmlRowBoldIffPriority(item: Item)
    ensures BoldRowOpen <= HtmlRow(item) <==> item.priority
  {
    var row := HtmlRow(item);
    if !item.priority {
      assert row[3] == '>';
      assert BoldRowOpen[3] == ' ';
    }
  }

  /** For an administrator, the rows that open bold are exactly those of the items above the threshold. */
  lemma AdminBoldRowsAreHighValue(user: User, items: seq<Item>)
    requires RoleOf(user.role) == Admin
    ensures forall i :: 0 <= i < |items| ==>
      (BoldRowOpen <= HtmlRow(VisibleItems(user, items)[i]) <==> items[i].value > PriorityThreshold)
  {
    var visible := VisibleItems(user, items);
    forall i | 0 <= i < |items|
      ensures BoldRowOpen <= HtmlRow(visible[i]) <==> items[i].value > PriorityThreshold
    {
      HtmlRowBoldIffPriority(visible[i]);
    }
  }

  /** A rendered integer contains no separator the reports use. */
  lemma NumeralHasNo(c: char, s: string)
    requires !IsDigit(c) && c != '-'
    requires IsNumeral(s)
    ensures c !in s
  {
  }

  /** The text of a body line without its line feed. */
  function RowText(format: Format, user: User, item: Item): string {
    if format == Csv then CsvRow(user, item) else HtmlRow(item)
  }

  function RowTexts(format: Format, user: User, visible: seq<Item>): (rows: seq<string>)
    ensures |rows| == |visible|
  {
    seq(|visible|, i requires 0 <= i < |visible| => RowText(format, user, visible[i]))
  }

  predicate NoLineFeed(s: string) {
    '\n' !in s
  }

  predicate NamesHaveNoLineFeed(items: seq<Item>) {
    forall i :: 0 <= i < |items| ==> NoLineFeed(items[i].name)
  }

  lemma RowTextHasNoLineFeed(format: Format, user: User, item: Item)
    requires NoLineFeed(user.name) && NoLineFeed(item.name)
    ensures NoLineFeed(RowText(format, user, item))
  {
    NumeralHasNo('\n', IntToString(item.id));
    NumeralHasNo('\n', IntToString(item.value));
  }

  lemma BodyLineIsRowText(format: Format, user: User, item: Item)
    requires format != Unrecognised
    ensures BodyLine(format, user, item) == RowText(format, user, item) + "\n"
  {
  }

  lemma RowTextsTail(format: Format, user: User, visible: seq<Item>)
    requires |visible| > 0
    ensures RowTexts(format, user, visible)[0] == RowText(format, user, visible[0])
    ensures RowTexts(format, user, visible)[1..] == RowTexts(format, user, visible[1..])
  {
    var rows := RowTexts(format, user, visible);
    var tail := RowTexts(format, user, visible[1..]);
    forall k | 0 <= k < |tail|
      ensures rows[1..][k] == tail[k]
    {
      assert visible[1..][k] == visible[k + 1];
    }
  }

  /** For CSV and HTML the body is the visible items' rows, each on a line of its own, in order. */
  lemma {:induction false} BodyIsTerminatedRows(format: Format, user: User, visible: seq<Item>)
    requires format != Unrecognised
    ensures Body(format, user, visible) == Terminated(RowTexts(format, user, visible))
    decreases |visible|
  {
    if |visible| > 0 {
      BodyIsTerminatedRows(format, user, visible[1..]);
      RowTextsTail(format, user, visible);
      BodyLineIsRowText(format, user, visible[0]);
    }
  }

  /**
   With no line feed inside the names, the body splits into one line per visible item, in order,
   followed by the empty text after the last line feed.
   */
  lemma BodyLinesAreRows(format: Format, user: User, visible: seq<Item>)
    requires format != Unrecognised
    requires NoLineFeed(user.name) && NamesHaveNoLineFeed(visible)
    ensures Split(Body(format, user, visible), '\n') == RowTexts(format, user, visible) + [""]
    ensures |Split(Body(format, user, visible), '\n')| == |visible| + 1
  {
    var rows := RowTexts(format, user, visible);
    BodyIsTerminatedRows(format, user, visible);
    TerminatedThenLast(rows, "");
    assert Terminated(rows) + "" == Terminated(rows);
    forall i | 0 <= i < |rows + [""]|
      ensures '\n' !in (rows + [""])[i]
    {
      if i < |rows| {
        RowTextHasNoLineFeed(format, user, visible[i]);
      }
    }
    SplitJoin(rows + [""], '\n');
  }

  // ---------------------------------------------------------------------------------------------
  // Report shape

  /** What the CSV sections add up to before the trim. */
  lemma CsvSections(user: User, items: seq<Item>)
    ensures var visible := VisibleItems(user, items);
      GenerateReport(ReportTypeCsv, user, items) + "\n"
      == CsvHeaderLine + "\n" + Body(Csv, user, visible)
         + ("\n" + CsvTotalLabel + "\n" + (IntToString(SumOfValues(visible)) + ",,") + "\n")
  {
    var total := SumOfValues(VisibleItems(user, items));
    assert FormatOf(ReportTypeCsv) == Csv;
    assert Footer(Csv, total) == "\n" + CsvTotalLabel + "\n" + (IntToString(total) + ",,") + "\n";
  }

  /** A text with the line feed written after it: it starts with `h` and ends with `last`. */
  lemma ConcatEnds(r: string, h: string, b: string, p: string, last: string)
    requires r + "\n" == h + b + (p + last + "\n")
    ensures h <= r && |last| <= |r| && r[|r| - |last|..] == last
  {
    assert r == (r + "\n")[..|r|];
    assert r == h + b + (p + last);
  }

  /** A CSV report starts with the column line and ends with the total followed by two empty fields. */
  lemma CsvReportShape(user: User, items: seq<Item>)
    ensures var r := GenerateReport(ReportTypeCsv, user, items);
      var last := IntToString(SumOfValues(VisibleItems(user, items))) + ",,";
      && CsvHeaderLine + "\n" <= r
      && |last| <= |r| && r[|r| - |last|..] == last
  {
    var visible := VisibleItems(user, items);
    CsvSections(user, items);
    ConcatEnds(GenerateReport(ReportTypeCsv, user, items), CsvHeaderLine + "\n", Body(Csv, user, visible),
      "\n" + CsvTotalLabel + "\n", IntToString(SumOfValues(visible)) + ",,");
  }
}
