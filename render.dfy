/** The XML text the converter writes: lines 99-135 of the script. The document
    is a sequence of lines, each an element of the import format; `Text` gives
    the exact characters of each, and `Render` builds the string by appending,
    record by record and step by step, as the script does. */
module Rendering {
  import opened Strings
  import opened Escaping
  import opened Importance
  import opened TestCases

  datatype Line =
    | Declaration | RootOpen | RootClose
    | CaseOpen(name: string) | CaseClose
    | NodeOrder | ExternalId | Version
    | Summary(text: string) | Preconditions(text: string)
    | CaseExecutionType | ImportanceOf(text: string)
    | StepsOpen | StepsClose | StepOpen | StepClose
    | StepNumber(number: nat) | Actions(text: string) | ExpectedResults(text: string) | StepExecutionType
    | FieldsOpen | FieldsClose | FieldOpen | FieldClose
    | FieldName(text: string) | FieldValue(text: string)

  const Indent4: string := "    "
  const Indent8: string := "        "
  const Indent12: string := "            "
  const Indent16: string := "                "

  /** The characters of one line. Free text is escaped; element content is
      wrapped in CDATA, the `name` attribute is not. */
  function Text(line: Line): string {
    match line
    case Declaration => "<?xml version=\"1.0\" encoding=\"UTF-8\"?>\n"
    case RootOpen => "<testcases>\n"
    case RootClose => "</testcases>"
    case CaseOpen(name) => Indent4 + "<testcase internalid=\"\" name=\"" + Escape(name) + "\">\n"
    case CaseClose => Indent4 + "</testcase>\n"
    case NodeOrder => Indent8 + CdataElement("node_order", "") + "\n"
    case ExternalId => Indent8 + CdataElement("externalid", "") + "\n"
    case Version => Indent8 + CdataElement("version", "") + "\n"
    case Summary(t) => Indent8 + CdataElement("summary", Escape(t)) + "\n"
    case Preconditions(t) => Indent8 + CdataElement("preconditions", Escape(t)) + "\n"
    case CaseExecutionType => Indent8 + CdataElement("execution_type", "1") + "\n"
    case ImportanceOf(t) => Indent8 + CdataElement("importance", MapImportance(t)) + "\n"
    case StepsOpen => Indent8 + "<steps>\n"
    case StepsClose => Indent8 + "</steps>\n"
    case StepOpen => Indent12 + "<step>\n"
    case StepClose => Indent12 + "</step>\n"
    case StepNumber(n) => Indent16 + CdataElement("step_number", Decimal(n)) + "\n"
    case Actions(t) => Indent16 + CdataElement("actions", Escape(t)) + "\n"
    case ExpectedResults(t) => Indent16 + CdataElement("expectedresults", Escape(t)) + "\n"
    case StepExecutionType => Indent16 + CdataElement("execution_type", "1") + "\n"
    case FieldsOpen => Indent8 + "<custom_fields>\n"
    case FieldsClose => Indent8 + "</custom_fields>\n"
    case FieldOpen => Indent12 + "<custom_field>\n"
    case FieldClose => Indent12 + "</custom_field>\n"
    case FieldName(t) => Indent16 + CdataElement("name", Escape(t)) + "\n"
    case FieldValue(t) => Indent16 + CdataElement("value", Escape(t)) + "\n"
  }

  /** The text of a sequence of lines, one after the other. */
  function Join(lines: seq<Line>): string
    decreases |lines|
  {
    if lines == [] then "" else Join(lines[..|lines| - 1]) + Text(lines[|lines| - 1])
  }

  /** Lines 102-109: the opening tag and the fixed and header elements. */
  function CaseHead(tc: TestCase): seq<Line> {
    [CaseOpen(tc.name), NodeOrder, ExternalId, Version, Summary(tc.summary),
     Preconditions(tc.preconditions), CaseExecutionType, ImportanceOf(tc.importance)]
  }

  /** Lines 115-120: step number `k`. */
  function StepLines(k: nat, step: Step): seq<Line> {
    [StepOpen, StepNumber(k), Actions(step.action), ExpectedResults(step.expectedResult),
     StepExecutionType, StepClose]
  }

  /** The steps, numbered from 1. */
  function StepsBody(steps: seq<Step>): seq<Line>
    decreases |steps|
  {
    if steps == [] then []
    else StepsBody(steps[..|steps| - 1]) + StepLines(|steps|, steps[|steps| - 1])
  }

  /** Lines 112-121: the `<steps>` block, present only when there are steps. */
  function StepsBlock(steps: seq<Step>): seq<Line> {
    if steps == [] then [] else [StepsOpen] + StepsBody(steps) + [StepsClose]
  }

  /** Lines 127-130: one custom field. */
  function FieldLines(field: CustomField): seq<Line> {
    [FieldOpen, FieldName(field.name), FieldValue(field.value), FieldClose]
  }

  function FieldsBody(fields: seq<CustomField>): seq<Line>
    decreases |fields|
  {
    if fields == [] then []
    else FieldsBody(fields[..|fields| - 1]) + FieldLines(fields[|fields| - 1])
  }

  /** Lines 124-131: the `<custom_fields>` block, present only when there are
      custom fields. */
  function FieldsBlock(fields: seq<CustomField>): seq<Line> {
    if fields == [] then [] else [FieldsOpen] + FieldsBody(fields) + [FieldsClose]
  }

  /** Lines 102-133: one `<testcase>` element. */
  function CaseLines(tc: TestCase): seq<Line> {
    CaseHead(tc) + StepsBlock(tc.steps) + FieldsBlock(tc.customFields) + [CaseClose]
  }

  function CasesLines(records: seq<TestCase>): seq<Line>
    decreases |records|
  {
    if records == [] then []
    else CasesLines(records[..|records| - 1]) + CaseLines(records[|records| - 1])
  }

  /** Lines 99-135: the whole document. */
  function DocumentLines(records: seq<TestCase>): seq<Line> {
    [Declaration, RootOpen] + CasesLines(records) + [RootClose]
  }

  function Document(records: seq<TestCase>): string {
    Join(DocumentLines(records))
  }

  /** The text of two runs of lines is the text of the first then the second. */
  lemma {:induction false} JoinAppend(a: seq<Line>, b: seq<Line>)
    ensures Join(a + b) == Join(a) + Join(b)
    decreases |b|
  {
    if b != [] {
      var b' := b[..|b| - 1];
      assert (a + b)[..|a + b| - 1] == a + b';
      assert (a + b)[|a + b| - 1] == b[|b| - 1];
      JoinAppend(a, b');
    } else {
      assert a + b == a;
    }
  }

  /** Appending one line appends its text. */
  lemma JoinSnoc(lines: seq<Line>, line: Line)
    ensures Join(lines + [line]) == Join(lines) + Text(line)
  {
    assert (lines + [line])[..|lines|] == lines;
  }

  lemma AppendAssoc<T>(a: seq<T>, b: seq<T>, c: seq<T>)
    ensures a + (b + c) == a + b + c
  {
  }

  /** Text after a prefix grows by the text of what is appended. */
  lemma JoinAfter(prefix: seq<Line>, a: seq<Line>, b: seq<Line>)
    ensures Join(prefix + (a + b)) == Join(prefix + a) + Join(b)
  {
    AppendAssoc(prefix, a, b);
    JoinAppend(prefix + a, b);
  }

  lemma StepsGrow(prefix: seq<Line>, steps: seq<Step>, j: nat)
    requires j < |steps|
    ensures Join(prefix + StepsBody(steps[..j + 1]))
         == Join(prefix + StepsBody(steps[..j])) + Join(StepLines(j + 1, steps[j]))
  {
    assert steps[..j + 1][..j] == steps[..j];
    JoinAfter(prefix, StepsBody(steps[..j]), StepLines(j + 1, steps[j]));
  }

  lemma FieldsGrow(prefix: seq<Line>, fields: seq<CustomField>, j: nat)
    requires j < |fields|
    ensures Join(prefix + FieldsBody(fields[..j + 1]))
         == Join(prefix + FieldsBody(fields[..j])) + Join(FieldLines(fields[j]))
  {
    assert fields[..j + 1][..j] == fields[..j];
    JoinAfter(prefix, FieldsBody(fields[..j]), FieldLines(fields[j]));
  }

  lemma BlockClose(prefix: seq<Line>, open: Line, body: seq<Line>, close: Line)
    ensures Join(prefix + ([open] + body + [close])) == Join(prefix + [open] + body) + Text(close)
  {
    AppendAssoc(prefix, [open] + body, [close]);
    AppendAssoc(prefix, [open], body);
    JoinSnoc(prefix + [open] + body, close);
  }

  lemma CaseGrow(prefix: seq<Line>, tc: TestCase)
    ensures prefix + CaseLines(tc)
         == prefix + CaseHead(tc) + StepsBlock(tc.steps) + FieldsBlock(tc.customFields) + [CaseClose]
  {
    var h, s, f := CaseHead(tc), StepsBlock(tc.steps), FieldsBlock(tc.customFields);
    AppendAssoc(prefix, h + s + f, [CaseClose]);
    AppendAssoc(prefix, h + s, f);
    AppendAssoc(prefix, h, s);
  }

  lemma CasesGrow(prefix: seq<Line>, records: seq<TestCase>, i: nat)
    requires i < |records|
    ensures prefix + CasesLines(records[..i + 1]) == prefix + CasesLines(records[..i]) + CaseLines(records[i])
  {
    assert records[..i + 1][..i] == records[..i];
    AppendAssoc(prefix, CasesLines(records[..i]), CaseLines(records[i]));
  }

  /** The lines a step or a custom field is made of. */
  predicate StepLine(line: Line) {
    line.StepOpen? || line.StepNumber? || line.Actions? || line.ExpectedResults?
    || line.StepExecutionType? || line.StepClose?
  }

  predicate FieldLine(line: Line) {
    line.FieldOpen? || line.FieldName? || line.FieldValue? || line.FieldClose?
  }

  /** Six lines per step, and nothing but step lines. */
  lemma {:induction false} StepsBodyShape(steps: seq<Step>)
    ensures |StepsBody(steps)| == 6 * |steps|
    ensures forall line :: line in StepsBody(steps) ==> StepLine(line)
    decreases |steps|
  {
    if steps != [] {
      StepsBodyShape(steps[..|steps| - 1]);
    }
  }

  /** Four lines per custom field, and nothing but field lines. */
  lemma {:induction false} FieldsBodyShape(fields: seq<CustomField>)
    ensures |FieldsBody(fields)| == 4 * |fields|
    ensures forall line :: line in FieldsBody(fields) ==> FieldLine(line)
    decreases |fields|
  {
    if fields != [] {
      FieldsBodyShape(fields[..|fields| - 1]);
    }
  }

  /** Step `i` (from 0) occupies lines `6i` to `6i + 5` of the block body and
      carries the number `i + 1`: the steps are numbered 1 to n in order. */
  lemma {:induction false} StepLayout(steps: seq<Step>, i: nat)
    requires i < |steps|
    ensures |StepsBody(steps)| == 6 * |steps|
    ensures StepsBody(steps)[6 * i..6 * i + 6] == StepLines(i + 1, steps[i])
    decreases |steps|
  {
    var init := steps[..|steps| - 1];
    StepsBodyShape(steps);
    StepsBodyShape(init);
    var body, last := StepsBody(init), StepLines(|steps|, steps[|steps| - 1]);
    assert StepsBody(steps) == body + last;
    if i < |init| {
      StepLayout(init, i);
      assert (body + last)[6 * i..6 * i + 6] == body[6 * i..6 * i + 6];
    } else {
      assert (body + last)[6 * i..6 * i + 6] == last;
    }
  }

  /** Custom field `i` occupies lines `4i` to `4i + 3` of the block body. */
  lemma {:induction false} FieldLayout(fields: seq<CustomField>, i: nat)
    requires i < |fields|
    ensures |FieldsBody(fields)| == 4 * |fields|
    ensures FieldsBody(fields)[4 * i..4 * i + 4] == FieldLines(fields[i])
    decreases |fields|
  {
    var init := fields[..|fields| - 1];
    FieldsBodyShape(fields);
    FieldsBodyShape(init);
    var body, last := FieldsBody(init), FieldLines(fields[|fields| - 1]);
    assert FieldsBody(fields) == body + last;
    if i < |init| {
      FieldLayout(init, i);
      assert (body + last)[4 * i..4 * i + 4] == body[4 * i..4 * i + 4];
    } else {
      assert (body + last)[4 * i..4 * i + 4] == last;
    }
  }

  /** A `<testcase>` element has a `<steps>` block exactly when the record has
      steps. */
  lemma StepsPresent(tc: TestCase)
    ensures StepsOpen in CaseLines(tc) <==> tc.steps != []
    ensures StepsClose in CaseLines(tc) <==> tc.steps != []
  {
    StepsBodyShape(tc.steps);
    FieldsBodyShape(tc.customFields);
    var s, f := StepsBlock(tc.steps), FieldsBlock(tc.customFields);
    assert CaseLines(tc) == CaseHead(tc) + s + f + [CaseClose];
    assert StepsOpen !in f && StepsClose !in f;
  }

  /** A `<testcase>` element has a `<custom_fields>` block exactly when the
      record has custom fields. */
  lemma FieldsPresent(tc: TestCase)
    ensures FieldsOpen in CaseLines(tc) <==> tc.customFields != []
    ensures FieldsClose in CaseLines(tc) <==> tc.customFields != []
  {
    StepsBodyShape(tc.steps);
    FieldsBodyShape(tc.customFields);
    var s, f := StepsBlock(tc.steps), FieldsBlock(tc.customFields);
    assert CaseLines(tc) == CaseHead(tc) + s + f + [CaseClose];
    assert FieldsOpen !in s && FieldsClose !in s;
  }

  /** The names of the `<testcase>` elements, in document order. */
  function CaseNames(lines: seq<Line>): seq<string>
    decreases |lines|
  {
    if lines == [] then []
    else
      var last := lines[|lines| - 1];
      CaseNames(lines[..|lines| - 1]) + (if last.CaseOpen? then [last.name] else [])
  }

  lemma {:induction false} CaseNamesAppend(a: seq<Line>, b: seq<Line>)
    ensures CaseNames(a + b) == CaseNames(a) + CaseNames(b)
    decreases |b|
  {
    if b != [] {
      var b' := b[..|b| - 1];
      assert (a + b)[..|a + b| - 1] == a + b';
      assert (a + b)[|a + b| - 1] == b[|b| - 1];
      CaseNamesAppend(a, b');
    } else {
      assert a + b == a;
    }
  }

  lemma {:induction false} CaseNamesNone(lines: seq<Line>)
    requires forall line :: line in lines ==> !line.CaseOpen?
    ensures CaseNames(lines) == []
    decreases |lines|
  {
    if lines != [] {
      assert forall line :: line in lines[..|lines| - 1] ==> line in lines;
      CaseNamesNone(lines[..|lines| - 1]);
    }
  }

  lemma CaseHeadName(tc: TestCase)
    ensures CaseNames(CaseHead(tc)) == [tc.name]
  {
    var h := CaseHead(tc);
    CaseNamesNone(h[1..]);
    assert h == [h[0]] + h[1..];
    assert CaseNames([h[0]]) == [tc.name];
    CaseNamesAppend([h[0]], h[1..]);
  }

  /** One `<testcase>` element opens exactly one record, under its name. */
  lemma CaseLinesName(tc: TestCase)
    ensures CaseNames(CaseLines(tc)) == [tc.name]
  {
    var h, s, f := CaseHead(tc), StepsBlock(tc.steps), FieldsBlock(tc.customFields);
    StepsBodyShape(tc.steps);
    FieldsBodyShape(tc.customFields);
    CaseNamesNone(s);
    CaseNamesNone(f);
    CaseNamesNone([CaseClose]);
    CaseHeadName(tc);
    CaseNamesAppend(h, s);
    CaseNamesAppend(h + s, f);
    CaseNamesAppend(h + s + f, [CaseClose]);
  }

  /** The record names in order. */
  function Names(records: seq<TestCase>): seq<string>
    decreases |records|
  {
    if records == [] then [] else Names(records[..|records| - 1]) + [records[|records| - 1].name]
  }

  lemma {:induction false} NamesIndex(records: seq<TestCase>)
    ensures |Names(records)| == |records|
    ensures forall i :: 0 <= i < |records| ==> Names(records)[i] == records[i].name
    decreases |records|
  {
    if records != [] {
      NamesIndex(records[..|records| - 1]);
    }
  }

  lemma {:induction false} CasesLinesNames(records: seq<TestCase>)
    ensures CaseNames(CasesLines(records)) == Names(records)
    decreases |records|
  {
    if records != [] {
      var init, last := records[..|records| - 1], records[|records| - 1];
      CasesLinesNames(init);
      CaseLinesName(last);
      CaseNamesAppend(CasesLines(init), CaseLines(last));
    }
  }

  /** The document holds one `<testcase>` element per record, in the order of
      the records, each named after its record. */
  lemma DocumentNames(records: seq<TestCase>)
    ensures CaseNames(DocumentLines(records)) == Names(records)
  {
    var c := CasesLines(records);
    CasesLinesNames(records);
    CaseNamesNone([Declaration, RootOpen]);
    CaseNamesNone([RootClose]);
    CaseNamesAppend([Declaration, RootOpen], c);
    CaseNamesAppend([Declaration, RootOpen] + c, [RootClose]);
  }

  lemma ConcatEnds(p: string, m: string, c: string)
    ensures (p + m + c)[..|p|] == p && (p + m + c)[|p + m + c| - |c|..] == c
  {
  }

  lemma PrologueText()
    ensures Join([Declaration, RootOpen]) == Text(Declaration) + Text(RootOpen)
  {
    JoinSnoc([], Declaration);
    JoinSnoc([Declaration], RootOpen);
  }

  /** The text of the document: the XML declaration and `<testcases>`, the
      records, then `</testcases>`. */
  lemma DocumentParts(records: seq<TestCase>)
    ensures Document(records) == Text(Declaration) + Text(RootOpen) + Join(CasesLines(records)) + Text(RootClose)
  {
    var c := CasesLines(records);
    PrologueText();
    JoinAppend([Declaration, RootOpen], c);
    JoinSnoc([Declaration, RootOpen] + c, RootClose);
  }

  /** The document starts with the XML declaration and `<testcases>`. */
  lemma DocumentStart(records: seq<TestCase>)
    ensures var prologue := Text(Declaration) + Text(RootOpen);
            |Document(records)| >= |prologue| && Document(records)[..|prologue|] == prologue
  {
    DocumentParts(records);
    ConcatEnds(Text(Declaration) + Text(RootOpen), Join(CasesLines(records)), Text(RootClose));
  }

  /** The document ends with `</testcases>`, with no newline after it. */
  lemma DocumentEnd(records: seq<TestCase>)
    ensures |Document(records)| >= 12 && Document(records)[|Document(records)| - 12..] == "</testcases>"
  {
    DocumentParts(records);
    ConcatEnds(Text(Declaration) + Text(RootOpen), Join(CasesLines(records)), Text(RootClose));
  }

  /** Lines 112-121: `xml_string += ...` for the `<steps>` block, onto a text
      that holds `lines`. */
  method AppendSteps(xml: string, ghost lines: seq<Line>, steps: seq<Step>) returns (r: string)
    requires xml == Join(lines)
    ensures r == Join(lines + StepsBlock(steps))
  {
    if steps == [] {
      assert lines + StepsBlock(steps) == lines;
      return xml;
    }
    JoinSnoc(lines, StepsOpen);
    r := xml + Text(StepsOpen);
    assert lines + [StepsOpen] + StepsBody(steps[..0]) == lines + [StepsOpen];
    for j := 0 to |steps|
      invariant r == Join(lines + [StepsOpen] + StepsBody(steps[..j]))
    {
      StepsGrow(lines + [StepsOpen], steps, j);
      r := r + Join(StepLines(j + 1, steps[j]));
    }
    assert steps[..|steps|] == steps;
    BlockClose(lines, StepsOpen, StepsBody(steps), StepsClose);
    r := r + Text(StepsClose);
  }

  /** Lines 124-131: `xml_string += ...` for the `<custom_fields>` block. */
  method AppendFields(xml: string, ghost lines: seq<Line>, fields: seq<CustomField>) returns (r: string)
    requires xml == Join(lines)
    ensures r == Join(lines + FieldsBlock(fields))
  {
    if fields == [] {
      assert lines + FieldsBlock(fields) == lines;
      return xml;
    }
    JoinSnoc(lines, FieldsOpen);
    r := xml + Text(FieldsOpen);
    assert lines + [FieldsOpen] + FieldsBody(fields[..0]) == lines + [FieldsOpen];
    for j := 0 to |fields|
      invariant r == Join(lines + [FieldsOpen] + FieldsBody(fields[..j]))
    {
      FieldsGrow(lines + [FieldsOpen], fields, j);
      r := r + Join(FieldLines(fields[j]));
    }
    assert fields[..|fields|] == fields;
    BlockClose(lines, FieldsOpen, FieldsBody(fields), FieldsClose);
    r := r + Text(FieldsClose);
  }

  /** Lines 102-133: `xml_string += ...` for one `<testcase>` element. */
  method AppendCase(xml: string, ghost lines: seq<Line>, tc: TestCase) returns (r: string)
    requires xml == Join(lines)
    ensures r == Join(lines + CaseLines(tc))
  {
    JoinAppend(lines, CaseHead(tc));
    r := xml + Join(CaseHead(tc));
    r := AppendSteps(r, lines + CaseHead(tc), tc.steps);
    r := AppendFields(r, lines + CaseHead(tc) + StepsBlock(tc.steps), tc.customFields);
    JoinSnoc(lines + CaseHead(tc) + StepsBlock(tc.steps) + FieldsBlock(tc.customFields), CaseClose);
    r := r + Text(CaseClose);
    CaseGrow(lines, tc);
  }

  /** Lines 101-133: the loop over the records. */
  method AppendCases(xml: string, ghost lines: seq<Line>, records: seq<TestCase>) returns (r: string)
    requires xml == Join(lines)
    ensures r == Join(lines + CasesLines(records))
  {
    r := xml;
    assert lines + CasesLines(records[..0]) == lines;
    for i := 0 to |records|
      invariant r == Join(lines + CasesLines(records[..i]))
    {
      CasesGrow(lines, records, i);
      r := AppendCase(r, lines + CasesLines(records[..i]), records[i]);
    }
    assert records[..|records|] == records;
  }

  /** Lines 99-135 as the script runs them: the string grows by `+=`, record by
      record, with inner loops over the steps and the custom fields. */
  method Render(records: seq<TestCase>) returns (xml: string)
    ensures xml == Document(records)
  {
    JoinSnoc([], Declaration);
    JoinSnoc([Declaration], RootOpen);
    xml := Text(Declaration) + Text(RootOpen);
    xml := AppendCases(xml, [Declaration, RootOpen], records);
    JoinSnoc([Declaration, RootOpen] + CasesLines(records), RootClose);
    xml := xml + Text(RootClose);
  }
}
