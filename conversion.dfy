/** The whole conversion, lines 26-135 of the script: the name of the output
    file, the row loop over the sheet, and the XML text of the collected
    records. Reading the workbook, writing the file and the final message are
    not part of this model; the sheet arrives as its data rows, in order. */
module Conversion {
  import opened Strings
  import opened Cells
  import opened TestCases
  import opened OutputName
  import opened Rendering
  import opened Collecting

  /** Lines 27-135: `i2` is cell I2 of the sheet, `rows` the rows from row 2
      down, and `transliterate` stands for `unidecode`. */
  method Convert(i2: Option<string>, rows: seq<Row>, transliterate: string -> string)
    returns (filename: string, xml: string)
    ensures filename == OutputFilename(i2, transliterate)
    ensures xml == Document(Items(Accumulate(Initial, rows)))
  {
    filename := ReplaceChar(transliterate(OrElse(i2, DefaultName)), ' ', '_');
    if !EndsWith(filename, ".xml") {
      filename := filename + ".xml";
    }
    var collector := new Collector();
    for i := 0 to |rows|
      invariant collector.Valid() && collector.Model() == Accumulate(Initial, rows[..i])
    {
      collector.ProcessRow(rows[i]);
      assert rows[..i + 1][..i] == rows[..i];
    }
    assert rows[..|rows|] == rows;
    var records := collector.Records();
    xml := Render(records);
  }

  /** The names of the rows that are not skipped. */
  function RowNames(rows: seq<Row>): set<string>
    decreases |rows|
  {
    if rows == [] then {}
    else
      var last := rows[|rows| - 1];
      RowNames(rows[..|rows| - 1]) + (if BlankName(last.name) then {} else {last.name.value})
  }

  /** The dictionary holds one record per name that some non-skipped row gives. */
  lemma {:induction false} AccumulateKeys(rows: seq<Row>)
    ensures Accumulate(Initial, rows).cases.Keys == RowNames(rows)
    decreases |rows|
  {
    if rows != [] {
      AccumulateKeys(rows[..|rows| - 1]);
    }
  }

  /** The non-blank row names, each listed when it first appears. */
  function FirstNames(rows: seq<Row>): seq<string>
    decreases |rows|
  {
    if rows == [] then []
    else
      var earlier, last := FirstNames(rows[..|rows| - 1]), rows[|rows| - 1];
      if BlankName(last.name) || last.name.value in earlier then earlier
      else earlier + [last.name.value]
  }

  /** The dictionary's key order is the order in which the names first appear
      in the rows: re-creating a record never moves its key. */
  lemma {:induction false} AccumulateOrder(rows: seq<Row>)
    ensures Accumulate(Initial, rows).order == FirstNames(rows)
    decreases |rows|
  {
    if rows != [] {
      AccumulateOrder(rows[..|rows| - 1]);
    }
  }

  /** The document has one `<testcase>` element per distinct non-blank name in
      the sheet, each once, in the order in which the names first appear. */
  lemma DocumentRecords(rows: seq<Row>)
    ensures var st := Accumulate(Initial, rows);
            var names := CaseNames(DocumentLines(Items(st)));
            && names == st.order
            && names == FirstNames(rows)
            && (forall i, j :: 0 <= i < j < |names| ==> names[i] != names[j])
            && (forall k :: k in names <==> k in RowNames(rows))
  {
    var st := Accumulate(Initial, rows);
    DocumentNames(Items(st));
    NamesIndex(Items(st));
    assert Names(Items(st)) == st.order;
    AccumulateKeys(rows);
    AccumulateOrder(rows);
  }
}
