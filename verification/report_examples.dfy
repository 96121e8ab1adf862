/**
 Two worked examples: an administrator's CSV report and a standard user's HTML report over the
 same two items, read back through the report readers.
 */
module ReportExamples {
  import opened Maybe
  import opened Report
  import opened ReportReader

  function SampleItems(): seq<Item> {
    [Item(1, "A", 600, false), Item(2, "B", 1200, false)]
  }

  /** The administrator's view of the sample items: both kept, the second flagged, worth 1800 in total. */
  lemma AdminView(alice: User)
    requires alice.role == UserRoleAdmin
    ensures var visible := VisibleItems(alice, SampleItems());
      && visible == [Item(1, "A", 600, false), Item(2, "B", 1200, true)]
      && SumOfValues(visible) == 1800
  {
    assert RoleOf(alice.role) == Admin;
    var items := SampleItems();
    var visible := VisibleItems(alice, items);
    assert visible[0] == Item(1, "A", 600, false);
    assert visible[1] == Item(2, "B", 1200, true);
    assert visible == [visible[0], visible[1]];
    assert SumOfValues(visible[1..]) == 1200 by {
      assert visible[1..][1..] == [];
    }
  }

  /**
   An administrator sees both items, only the second flagged as priority, and the CSV report
   lists both rows and a total of 1800.
   */
  lemma AdminCsvExample(alice: User, items: seq<Item>)
    requires alice == User("Alice", UserRoleAdmin) && items == SampleItems()
    ensures var visible := VisibleItems(alice, items);
      && |visible| == 2 && !visible[0].priority && visible[1].priority
      && ReadCsv(GenerateReport(ReportTypeCsv, alice, items))
         == Some(CsvReport([CsvRecord(1, "A", 600, "Alice"), CsvRecord(2, "B", 1200, "Alice")], 1800))
  {
    SampleNamesAreSafe(items);
    AdminView(alice);
    AdminRecords(alice, VisibleItems(alice, items));
    CsvRoundTrip(alice, items);
  }

  /** The sample names contain no separator of either format. */
  lemma SampleNamesAreSafe(items: seq<Item>)
    requires items == SampleItems()
    ensures ItemNamesSatisfy(items, CsvSafe) && ItemNamesSatisfy(items, HtmlCellSafe)
  {
    assert ',' !in "A" && ',' !in "B" && '<' !in "A" && '<' !in "B";
  }

  /** The CSV records of the administrator's view. */
  lemma AdminRecords(alice: User, visible: seq<Item>)
    requires alice.name == "Alice"
    requires visible == [Item(1, "A", 600, false), Item(2, "B", 1200, true)]
    ensures CsvRecordsOf(alice, visible) == [CsvRecord(1, "A", 600, "Alice"), CsvRecord(2, "B", 1200, "Alice")]
  {
    var records := CsvRecordsOf(alice, visible);
    assert records[0] == CsvRecord(1, "A", 600, "Alice");
    assert records[1] == CsvRecord(2, "B", 1200, "Alice");
  }

  /** Both items are worth more than 500, so a standard user's HTML report has no rows and a total of 0. */
  lemma StandardHtmlExample(bob: User, items: seq<Item>)
    requires bob == User("Bob", UserRoleUser) && items == SampleItems()
    ensures VisibleItems(bob, items) == []
    ensures ReadHtml(GenerateReport(ReportTypeHtml, bob, items)) == Some(HtmlReport("Bob", [], 0))
  {
    SampleNamesAreSafe(items);
    HtmlRoundTrip(bob, items);
    assert VisibleItems(bob, items) == LowValueItems(items);
    assert LowValueItems(items[1..]) == [];
  }
}
