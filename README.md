# Spreadsheet to test-case XML converter, modelled in Dafny

The converter reads a spreadsheet of test cases, one row per step, and writes
an XML import file with one `<testcase>` element per test-case name. Rows are
read from row 2 down, in columns A to H: name, importance, summary,
preconditions, actions, expected results, custom-field names and custom-field
values. A row with a blank name is skipped. A row whose name differs from the
current one opens a fresh record, which takes its importance, summary and
preconditions from that row. Every non-skipped row then extends the current
record:

- the actions cell, split on `-`, appends one step per piece;
- the expected-results cell, split on `-`, writes piece `i` into step `i` of the record;
- the two custom-field cells, split on `-`, append pairs up to the shorter list.

The output file is named after cell I2, or `converted_testcases.xml` when I2
is empty. The name is transliterated to ASCII, its spaces become underscores,
and `.xml` is added when missing.

The model has these modules:

- `Strings` (strings.dfy): `strip`, `lower`, `in`, `split` and `replace` on
  text, plus the decimal rendering of step numbers.
- `Escaping` (escaping.dfy): `escape` with its decoding partner, and the CDATA
  element builder.
- `Importance` (importance.dfy): `map_importance`.
- `OutputName` (filename.dfy): the output file name.
- `Cells` (cells.dfy): a row as eight optional cells, and Python truthiness.
- `TestCases` (testcases.dfy): the row loop as a pure specification.
  - `State` holds the current name, the dictionary's key order and its records.
  - `ApplyRow` is one iteration and `Accumulate` the whole loop.
  - Lemmas say what each cell does to a record.
- `Collecting` (collector.dfy): class `Collector`, the row loop as the script
  runs it. `current_name` and the dictionary are fields, updated in place by
  methods with loops. Each method is proved to leave the state that
  `ApplyRow` and its parts describe.
- `Rendering` (render.dfy): the XML document.
  - `Line` names each line the script writes and `Text` gives its exact characters.
  - `Document` is the specification of the whole text.
  - `Render` builds the text by appending, with nested loops over records,
    steps and custom fields, and is proved equal to `Document`.
- `Conversion` (conversion.dfy): `Convert` runs the whole pipeline on the
  sheet's rows. Lemmas relate the document to the rows.

The XML lines of the script (lines 103-130) are written as literal f-strings
rather than calls to `create_cdata_element`. They produce the same characters,
so `Text` builds them with `CdataElement`.

## Model

| member | source | states |
|---|---|---|
| Escaping.CdataElement | generate_xml_from_excel8.py:6-8 | the element is `<tag><![CDATA[`, then the content unchanged, then `]]></tag>`, with the length that implies |
| Escaping.Escape | generate_xml_from_excel8.py:106-107 | escaped text contains no `<` and no `>`; text without `&`, `<` or `>` is unchanged; escaping never shortens text |
| Escaping.UnescapeEscape | generate_xml_from_excel8.py:102 | decoding `&amp;`, `&lt;` and `&gt;` undoes `escape`, for every text: escaping loses no character and confuses none with another |
| Escaping.CdataClosesAfterEscapedText | generate_xml_from_excel8.py:106 | in a CDATA element with escaped content, the first `]]>` after the opening marker is the one right after the content |
| Importance.MapImportance | generate_xml_from_excel8.py:11-20 | the result is "3", "2", "1" or ""; "3" iff the lower-cased text contains "high"; "2" iff it contains "medium" but not "high"; "1" iff it contains "low" and neither of the others; "" iff it contains none |
| Importance.MapImportanceIgnoresCase | generate_xml_from_excel8.py:12 | lower-casing the input first does not change the code |
| Strings.TrimSpec | generate_xml_from_excel8.py:50 | a stripped text begins and ends with no whitespace; it is empty iff the text is all whitespace |
| Strings.TrimInfix | generate_xml_from_excel8.py:71 | the stripped text is a contiguous part of the original, and only whitespace is removed on either side |
| Strings.TrimIdempotent | generate_xml_from_excel8.py:71 | stripping twice is stripping once |
| Strings.Lower | generate_xml_from_excel8.py:12 | lower-casing keeps the length and maps each character on its own |
| Strings.LowerIdempotent | generate_xml_from_excel8.py:12 | lower-casing twice is lower-casing once |
| Strings.Contains | generate_xml_from_excel8.py:13 | `sub in s` holds iff `sub` occurs at some position of `s` |
| Strings.Split | generate_xml_from_excel8.py:68 | splitting on `-` gives one more piece than there are `-`, and no piece contains `-` |
| Strings.JoinSplit | generate_xml_from_excel8.py:68 | joining the pieces with `-` gives back the cell text, so no character is lost |
| Strings.ReplaceChar | generate_xml_from_excel8.py:28 | `replace(' ', '_')` keeps the length and swaps exactly the spaces |
| Strings.Decimal | generate_xml_from_excel8.py:116 | a step number is written as a non-empty run of digits without a leading zero |
| Strings.DecimalRoundTrip | generate_xml_from_excel8.py:116 | reading the written step number back gives the number |
| Cells.OrElse | generate_xml_from_excel8.py:58-60 | `cell if cell else default` is the cell value when it is present and non-empty, and the default otherwise |
| OutputName.Stem | generate_xml_from_excel8.py:27-28 | the stem has no space, and it is the transliterated I2 value (or the default name) with each space turned into `_` |
| OutputName.OutputFilename | generate_xml_from_excel8.py:27-32 | the file name ends with `.xml` and has no space; it is the stem itself when the stem already ends with `.xml`, and otherwise exactly the stem followed by `.xml`, so the suffix is never doubled |
| OutputName.DefaultFilename | generate_xml_from_excel8.py:27 | an empty I2 gives `converted_testcases.xml` |
| TestCases.NewCase | generate_xml_from_excel8.py:56-63 | a new record carries the row's name, has importance, summary and preconditions from the row (or "" when empty), and has no steps and no custom fields |
| TestCases.OpenCase | generate_xml_from_excel8.py:54-63 | opening makes the name current and files a new record under it; a new key goes to the end of the order, and a key already present keeps its place |
| TestCases.ActionSteps | generate_xml_from_excel8.py:69-73 | one step per piece, in order, each with the stripped piece as action and an empty expected result |
| TestCases.ResultsWritten | generate_xml_from_excel8.py:79-81 | step `i` takes stripped piece `i` when that piece exists; the step count and the actions do not change |
| TestCases.Zipped | generate_xml_from_excel8.py:91-96 | min(#names, #values) fields, pairing the `i`-th stripped name with the `i`-th stripped value |
| TestCases.Extend | generate_xml_from_excel8.py:65-96 | extending a record never changes its name, importance, summary or preconditions |
| TestCases.ApplyRow | generate_xml_from_excel8.py:49-96 | the dictionary invariant is kept; a blank name changes nothing; otherwise the name becomes current, a new name is appended to the order and an old one keeps its place, the keys gain exactly that name, and every other record is unchanged |
| TestCases.Accumulate | generate_xml_from_excel8.py:39-96 | the dictionary invariant holds after any sequence of rows: keys listed once each, every record filed under its own non-blank name |
| TestCases.Items | generate_xml_from_excel8.py:101 | the records come in key-insertion order, record `i` being the one filed under key `i` and named after it |
| TestCases.ActionsAppendSteps | generate_xml_from_excel8.py:66-73 | an actions cell with `k` dashes appends exactly `k+1` steps after the existing ones, which stay |
| TestCases.ResultsKeepActions | generate_xml_from_excel8.py:76-81 | expected results index the whole step list: piece `i` lands in step `i`, surplus pieces are dropped, later steps keep their value, and no action changes |
| TestCases.CustomFieldsZip | generate_xml_from_excel8.py:84-96 | the custom-field cells append min(#dashes)+1 pairs after the existing fields, which stay, and leave the steps unchanged |
| TestCases.ZippedShortest | generate_xml_from_excel8.py:91 | only the first min(#names, #values) pieces of each cell take part |
| TestCases.NewNameOpensRecord | generate_xml_from_excel8.py:54-63 | a name other than the current one re-creates its record from that row alone, and the existing order is untouched |
| TestCases.SameNameExtendsRecord | generate_xml_from_excel8.py:54 | a row with the current name keeps the order and extends the current record without changing its header fields |
| TestCases.RowActions | generate_xml_from_excel8.py:66-71 | a non-skipped row with an actions cell of `k` dashes contributes `k+1` actions |
| TestCases.ExtendAppends | generate_xml_from_excel8.py:65-96 | a row appends its own actions to the record's actions and its own pairs to the record's custom fields |
| TestCases.GroupRecord | generate_xml_from_excel8.py:39-96 | over rows that share one name, the record's header fields are those of the first row, its actions are every action of the group in row order, and its custom fields are every pair of the group in row order |
| Collecting.Collector.constructor | generate_xml_from_excel8.py:35-38 | the dictionary starts empty with no current name |
| Collecting.Collector.OpenCase | generate_xml_from_excel8.py:54-63 | the fields change exactly as `TestCases.OpenCase` says |
| Collecting.Collector.AddActions | generate_xml_from_excel8.py:66-73 | the append loop leaves the current record as `WithActions`, and nothing else changes |
| Collecting.Collector.WriteExpectedResults | generate_xml_from_excel8.py:76-81 | the in-place write loop leaves the current record as `WithResults`, and nothing else changes |
| Collecting.Collector.AddCustomFields | generate_xml_from_excel8.py:84-96 | the append loop leaves the current record as `WithCustomFields`, and nothing else changes |
| Collecting.Collector.ExtendCurrent | generate_xml_from_excel8.py:65-96 | the three cell handlers together leave the current record as `Extend` |
| Collecting.Collector.ProcessRow | generate_xml_from_excel8.py:49-96 | one loop iteration keeps the invariant and takes the state exactly to `ApplyRow` of the old state |
| Collecting.Collector.Records | generate_xml_from_excel8.py:101 | the loop collects the records in key-insertion order, as `Items` |
| Rendering.AppendSteps | generate_xml_from_excel8.py:112-121 | the steps loop appends exactly the text of the `<steps>` block |
| Rendering.AppendFields | generate_xml_from_excel8.py:124-131 | the custom-fields loop appends exactly the text of the `<custom_fields>` block |
| Rendering.AppendCase | generate_xml_from_excel8.py:102-133 | one record appends exactly the text of its `<testcase>` element |
| Rendering.AppendCases | generate_xml_from_excel8.py:101-133 | the record loop appends the elements of all records, in order |
| Rendering.Render | generate_xml_from_excel8.py:99-135 | the text built by `+=` is the document `Document` |
| Rendering.StepsBodyShape | generate_xml_from_excel8.py:114-120 | each step contributes six lines, all of them lines of a `<step>` |
| Rendering.FieldsBodyShape | generate_xml_from_excel8.py:126-130 | each custom field contributes four lines, all of them lines of a `<custom_field>` |
| Rendering.StepLayout | generate_xml_from_excel8.py:114-120 | step `i` (from 0) occupies lines `6i` to `6i+5` and carries step number `i+1`, so the steps are numbered 1 to n in order |
| Rendering.FieldLayout | generate_xml_from_excel8.py:126-130 | custom field `i` occupies lines `4i` to `4i+3`, in order |
| Rendering.StepsPresent | generate_xml_from_excel8.py:112 | a `<testcase>` has `<steps>` and `</steps>` iff its record has steps |
| Rendering.FieldsPresent | generate_xml_from_excel8.py:124 | a `<testcase>` has `<custom_fields>` and `</custom_fields>` iff its record has custom fields |
| Rendering.CaseLinesName | generate_xml_from_excel8.py:102 | a `<testcase>` element opens exactly one test case, named after its record |
| Rendering.DocumentNames | generate_xml_from_excel8.py:101-102 | the document opens one `<testcase>` per record, in record order, each named after its record |
| Rendering.DocumentStart | generate_xml_from_excel8.py:99-100 | the document begins with the XML declaration and `<testcases>` |
| Rendering.DocumentEnd | generate_xml_from_excel8.py:135 | the document ends with `</testcases>`, with no newline after it |
| Conversion.Convert | generate_xml_from_excel8.py:27-135 | the file name is `OutputFilename` of I2, and the text is `Document` of the records that `Accumulate` collects from the rows |
| Conversion.AccumulateKeys | generate_xml_from_excel8.py:49-63 | the dictionary's keys are exactly the names of the rows that are not skipped |
| Conversion.AccumulateOrder | generate_xml_from_excel8.py:54-63 | the dictionary's key order is the order in which the non-blank names first appear in the rows, defined on its own as `FirstNames` |
| Conversion.DocumentRecords | generate_xml_from_excel8.py:101-102 | the document names each distinct non-blank row name exactly once, and no other name, in the order of first appearance in the rows |

## Left out

- Reading the workbook (lines 22-24 and 40-47) is left out. The model takes cell I2 and the rows from row 2 on, already read.
- `unidecode` (line 28) is a foreign library. It is a parameter `transliterate` of the file-name functions.
- Writing the file and printing the message (lines 137-141) are I/O and are left out.
- Cells that hold numbers or dates are left out. Every cell is absent or a string, so the `isinstance(..., str)` checks (lines 67, 77, 85, 87) always take the string branch.
- Strings.Trim: `strip` is modelled for ASCII whitespace only (space, tab, line breaks, form feed and `\x1c`-`\x1f`), not the other Unicode spaces Python also strips.
- Strings.Lower: `lower` is modelled for ASCII letters only, not the rest of Unicode case mapping.
- CDATA sections are not decoded. The model proves where each section closes, but not that a reader recovers the content. A content of `]]>` is escaped to `]]&gt;`, so it cannot close a section early.
- A real XML reader normalises attribute values: it turns a literal tab, line feed or carriage return in the `name` attribute into a space, and it rejects most other control characters. The model does not capture this. `Escaping.UnescapeEscape` only proves that the three entities decode back, so a name cell holding a tab or a line break does not read back as written.
- The `name` attribute is escaped with `escape`, which leaves `"` alone. A name containing `"` gives an attribute that is not well-formed, and the model makes no well-formedness claim about it.
- Rendering.AppendCase: the eight header lines and each step's or field's lines are appended as one block (the text of those lines joined), not one `+=` per line. The text produced is the same.
- Expected results are written by position into the whole step list of the record, not only into the steps added by the same row (lines 79-81). This is modelled as written.
- A name that comes back after a different name re-creates its record from scratch. The record keeps its old position in the order and loses its earlier steps and fields (lines 54-63). This is modelled as written.
