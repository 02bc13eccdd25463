/** The records the converter builds from the rows, and what one row does to
    them: the specification that the imperative row loop is proved against. */
module TestCases {
  import opened Strings
  import opened Cells

  datatype Step = Step(action: string, expectedResult: string)

  datatype CustomField = CustomField(name: string, value: string)

  datatype TestCase = TestCase(
    name: string,
    importance: string,
    summary: string,
    preconditions: string,
    steps: seq<Step>,
    customFields: seq<CustomField>)

  /** The loop's state: `current_name` and the insertion-ordered `testcases`
      dictionary, kept as its key order plus the key-to-record map. */
  datatype State = State(current: Option<string>, order: seq<string>, cases: map<string, TestCase>)

  const Initial: State := State(None, [], map[])

  /** `name is None or name.strip() == ""`. */
  predicate BlankName(name: Option<string>) {
    name.None? || Trim(name.value) == ""
  }

  /** The dictionary is consistent: keys listed once each in insertion order,
      the current name is a key, and every record is filed under its own,
      non-blank, name. */
  ghost predicate Inv(st: State) {
    && (forall i, j :: 0 <= i < j < |st.order| ==> st.order[i] != st.order[j])
    && (forall k :: k in st.cases <==> k in st.order)
    && (st.current.Some? ==> st.current.value in st.cases)
    && (forall k :: k in st.cases ==> !AllSpace(k) && st.cases[k].name == k)
  }

  /** The record a row opens: header fields from that row, no steps, no fields. */
  function NewCase(name: string, row: Row): (tc: TestCase)
    ensures tc.name == name && tc.steps == [] && tc.customFields == []
    ensures tc.importance == OrElse(row.importance, "")
    ensures tc.summary == OrElse(row.summary, "")
    ensures tc.preconditions == OrElse(row.preconditions, "")
  {
    TestCase(name, OrElse(row.importance, ""), OrElse(row.summary, ""), OrElse(row.preconditions, ""), [], [])
  }

  /** `testcases[name] = {...}` with `current_name = name`: the record is
      replaced, and a new key goes to the end of the order while an existing
      key keeps its place. */
  function OpenCase(st: State, name: string, row: Row): (r: State)
    requires Inv(st) && !AllSpace(name)
    ensures Inv(r)
    ensures r.current == Some(name) && r.cases == st.cases[name := NewCase(name, row)]
    ensures r.order == if name in st.cases then st.order else st.order + [name]
  {
    State(Some(name), if name in st.cases then st.order else st.order + [name],
          st.cases[name := NewCase(name, row)])
  }

  /** `testcases[name]` replaced in place by a record of the same name. */
  function Replace(st: State, name: string, tc: TestCase): (r: State)
    requires Inv(st) && name in st.cases && tc.name == name
    ensures Inv(r)
    ensures r.current == st.current && r.order == st.order && r.cases == st.cases[name := tc]
  {
    var r := st.(cases := st.cases[name := tc]);
    assert r.cases.Keys == st.cases.Keys;
    r
  }

  /** One step per piece of the split actions, each action stripped and with
      an empty expected result. */
  function ActionSteps(pieces: seq<string>): (r: seq<Step>)
    ensures |r| == |pieces|
    ensures forall i :: 0 <= i < |r| ==> r[i] == Step(Trim(pieces[i]), "")
  {
    seq(|pieces|, i requires 0 <= i < |pieces| => Step(Trim(pieces[i]), ""))
  }

  /** Steps after writing the pieces of the expected results by position,
      counting from the first step of the record; pieces past the last step are
      dropped. */
  function ResultsWritten(steps: seq<Step>, pieces: seq<string>): (r: seq<Step>)
    ensures |r| == |steps|
    ensures forall i :: 0 <= i < |r| ==>
              r[i] == if i < |pieces| then steps[i].(expectedResult := Trim(pieces[i])) else steps[i]
  {
    seq(|steps|, i requires 0 <= i < |steps| =>
      if i < |pieces| then steps[i].(expectedResult := Trim(pieces[i])) else steps[i])
  }

  function Min(a: nat, b: nat): nat {
    if a < b then a else b
  }

  /** The custom fields formed from the two split cells, paired by position up to
      the shorter list, both sides stripped. */
  function Zipped(names: seq<string>, values: seq<string>): (r: seq<CustomField>)
    ensures |r| == Min(|names|, |values|)
    ensures forall i :: 0 <= i < |r| ==> r[i] == CustomField(Trim(names[i]), Trim(values[i]))
  {
    seq(Min(|names|, |values|), i requires 0 <= i < Min(|names|, |values|) =>
      CustomField(Trim(names[i]), Trim(values[i])))
  }

  /** Pairing one more name with one more value appends one field. */
  lemma ZippedGrow(names: seq<string>, values: seq<string>, i: nat)
    requires i < |names| && i < |values|
    ensures Zipped(names[..i + 1], values[..i + 1])
         == Zipped(names[..i], values[..i]) + [CustomField(Trim(names[i]), Trim(values[i]))]
  {
  }

  /** Only the first min(#names, #values) pieces take part in the pairing. */
  lemma ZippedShortest(names: seq<string>, values: seq<string>)
    ensures var n := Min(|names|, |values|);
            Zipped(names[..n], values[..n]) == Zipped(names, values)
  {
  }

  /** A record after the actions cell of a row. */
  function WithActions(tc: TestCase, actions: string): TestCase {
    tc.(steps := tc.steps + ActionSteps(Split(actions, '-')))
  }

  /** A record after the expected-results cell of a row. */
  function WithResults(tc: TestCase, results: string): TestCase {
    tc.(steps := ResultsWritten(tc.steps, Split(results, '-')))
  }

  /** A record after the custom-field cells of a row. */
  function WithCustomFields(tc: TestCase, names: string, values: string): TestCase {
    tc.(customFields := tc.customFields + Zipped(Split(names, '-'), Split(values, '-')))
  }

  /** What a row does to the record it lands in, once that record is chosen. */
  function Extend(tc: TestCase, row: Row): (r: TestCase)
    ensures r.name == tc.name && r.importance == tc.importance
    ensures r.summary == tc.summary && r.preconditions == tc.preconditions
  {
    var a := if Truthy(row.actions) then WithActions(tc, row.actions.value) else tc;
    var b := if Truthy(row.expectedResults) then WithResults(a, row.expectedResults.value) else a;
    if Truthy(row.customName) && Truthy(row.customValue)
    then WithCustomFields(b, row.customName.value, row.customValue.value)
    else b
  }

  /** One iteration of the row loop. A blank name skips the row; a name other
      than the current one opens a record; then the row extends the current
      record. No other record changes. */
  function ApplyRow(st: State, row: Row): (r: State)
    requires Inv(st)
    ensures Inv(r)
    ensures BlankName(row.name) ==> r == st
    ensures !BlankName(row.name) ==>
              && r.current == row.name
              && r.order == (if row.name.value in st.cases then st.order else st.order + [row.name.value])
              && r.cases.Keys == st.cases.Keys + {row.name.value}
              && forall k :: k in st.cases && k != row.name.value ==> r.cases[k] == st.cases[k]
  {
    if BlankName(row.name) then st
    else
      var name := row.name.value;
      TrimSpec(name);
      var st1 := if Some(name) != st.current then OpenCase(st, name, row) else st;
      Replace(st1, name, Extend(st1.cases[name], row))
  }

  /** The state after the loop has run over `rows`, in order. */
  function Accumulate(st: State, rows: seq<Row>): (r: State)
    requires Inv(st)
    ensures Inv(r)
    decreases |rows|
  {
    if rows == [] then st
    else ApplyRow(Accumulate(st, rows[..|rows| - 1]), rows[|rows| - 1])
  }

  /** `testcases.values()` in insertion order. */
  function Items(st: State): (r: seq<TestCase>)
    requires Inv(st)
    ensures |r| == |st.order|
    ensures forall i :: 0 <= i < |r| ==> r[i] == st.cases[st.order[i]] && r[i].name == st.order[i]
  {
    seq(|st.order|, i requires 0 <= i < |st.order| => st.cases[st.order[i]])
  }

  /** The actions cell appends one step per `-`-separated piece, one more than
      the number of `-`, in split order; the steps already there stay. */
  lemma ActionsAppendSteps(tc: TestCase, actions: string)
    ensures var r := WithActions(tc, actions);
            var pieces := Split(actions, '-');
            && |r.steps| == |tc.steps| + Occurrences(actions, '-') + 1
            && r.steps[..|tc.steps|] == tc.steps
            && (forall i :: 0 <= i < |pieces| ==> r.steps[|tc.steps| + i] == Step(Trim(pieces[i]), ""))
            && r.customFields == tc.customFields
  {
    var r := WithActions(tc, actions);
    assert r.steps[..|tc.steps|] == tc.steps;
  }

  /** The expected-results cell never adds a step or changes an action: piece `i`
      goes to step `i` of the whole record, pieces past the last step are dropped,
      and steps past the last piece keep their expected result. */
  lemma ResultsKeepActions(tc: TestCase, results: string)
    ensures var r := WithResults(tc, results);
            var pieces := Split(results, '-');
            && |r.steps| == |tc.steps|
            && (forall i :: 0 <= i < |tc.steps| ==> r.steps[i].action == tc.steps[i].action)
            && (forall i :: 0 <= i < |tc.steps| && i < |pieces| ==> r.steps[i].expectedResult == Trim(pieces[i]))
            && (forall i :: |pieces| <= i < |tc.steps| ==> r.steps[i] == tc.steps[i])
            && r.customFields == tc.customFields
  {
  }

  /** The custom-field cells append min(#names, #values) pairs, pairing the
      `i`-th stripped name with the `i`-th stripped value; existing fields stay. */
  lemma CustomFieldsZip(tc: TestCase, names: string, values: string)
    ensures var r := WithCustomFields(tc, names, values);
            var ns := Split(names, '-');
            var vs := Split(values, '-');
            && |r.customFields| == |tc.customFields| + Min(Occurrences(names, '-'), Occurrences(values, '-')) + 1
            && r.customFields[..|tc.customFields|] == tc.customFields
            && (forall i :: 0 <= i < Min(|ns|, |vs|) ==>
                  r.customFields[|tc.customFields| + i] == CustomField(Trim(ns[i]), Trim(vs[i])))
            && r.steps == tc.steps
  {
    var r := WithCustomFields(tc, names, values);
    assert r.customFields[..|tc.customFields|] == tc.customFields;
  }

  /** A row whose name differs from the current one (re)creates that record from
      this row alone, dropping the steps and fields of an earlier record of the
      same name; a key already present keeps its place in the order. */
  lemma NewNameOpensRecord(st: State, row: Row)
    requires Inv(st) && !BlankName(row.name) && row.name != st.current
    ensures var r := ApplyRow(st, row);
            var name := row.name.value;
            && r.cases[name] == Extend(NewCase(name, row), row)
            && (forall i :: 0 <= i < |st.order| ==> r.order[i] == st.order[i])
  {
  }

  /** A row with the current name extends the current record and never changes
      its importance, summary or preconditions. */
  lemma SameNameExtendsRecord(st: State, row: Row)
    requires Inv(st) && !BlankName(row.name) && row.name == st.current
    ensures var r := ApplyRow(st, row);
            var name := row.name.value;
            && r.order == st.order
            && r.cases[name] == Extend(st.cases[name], row)
            && r.cases[name].importance == st.cases[name].importance
            && r.cases[name].summary == st.cases[name].summary
            && r.cases[name].preconditions == st.cases[name].preconditions
  {
  }

  /** Rows grouped under name `n`: the first row names `n`, which is not the
      current name, and each later row is blank or names `n` again. */
  predicate Group(st: State, rows: seq<Row>, n: string) {
    && |rows| > 0
    && rows[0].name == Some(n) && !BlankName(Some(n)) && st.current != Some(n)
    && forall j :: 0 < j < |rows| ==> BlankName(rows[j].name) || rows[j].name == Some(n)
  }

  /** The stripped actions a row contributes, in split order. */
  function RowActions(row: Row): (r: seq<string>)
    ensures !BlankName(row.name) && Truthy(row.actions) ==> |r| == Occurrences(row.actions.value, '-') + 1
  {
    if BlankName(row.name) || !Truthy(row.actions) then []
    else
      var pieces := Split(row.actions.value, '-');
      seq(|pieces|, i requires 0 <= i < |pieces| => Trim(pieces[i]))
  }

  /** The custom fields a row contributes, in order. */
  function RowFields(row: Row): seq<CustomField> {
    if BlankName(row.name) || !(Truthy(row.customName) && Truthy(row.customValue)) then []
    else Zipped(Split(row.customName.value, '-'), Split(row.customValue.value, '-'))
  }

  function GroupActions(rows: seq<Row>): seq<string>
    decreases |rows|
  {
    if rows == [] then [] else GroupActions(rows[..|rows| - 1]) + RowActions(rows[|rows| - 1])
  }

  function GroupFields(rows: seq<Row>): seq<CustomField>
    decreases |rows|
  {
    if rows == [] then [] else GroupFields(rows[..|rows| - 1]) + RowFields(rows[|rows| - 1])
  }

  function ActionsOf(steps: seq<Step>): (r: seq<string>)
    ensures |r| == |steps| && forall i :: 0 <= i < |steps| ==> r[i] == steps[i].action
  {
    seq(|steps|, i requires 0 <= i < |steps| => steps[i].action)
  }

  /** What a row does to the actions and custom fields of its record. */
  lemma ExtendAppends(tc: TestCase, row: Row)
    requires !BlankName(row.name)
    ensures ActionsOf(Extend(tc, row).steps) == ActionsOf(tc.steps) + RowActions(row)
    ensures Extend(tc, row).customFields == tc.customFields + RowFields(row)
  {
    var a := if Truthy(row.actions) then WithActions(tc, row.actions.value) else tc;
    assert ActionsOf(a.steps) == ActionsOf(tc.steps) + RowActions(row);
  }

  /** Over a group of rows sharing a name, the record's importance, summary and
      preconditions are those of the group's first row, its actions are every
      action of the group in row order, and its custom fields are every pair of
      the group in row order. */
  lemma {:induction false} GroupRecord(st: State, rows: seq<Row>, n: string)
    requires Inv(st) && Group(st, rows, n)
    ensures var r := Accumulate(st, rows);
            && r.current == Some(n) && n in r.cases
            && r.cases[n].importance == OrElse(rows[0].importance, "")
            && r.cases[n].summary == OrElse(rows[0].summary, "")
            && r.cases[n].preconditions == OrElse(rows[0].preconditions, "")
            && ActionsOf(r.cases[n].steps) == GroupActions(rows)
            && r.cases[n].customFields == GroupFields(rows)
  {
    var last := rows[|rows| - 1];
    var init := rows[..|rows| - 1];
    if |rows| == 1 {
      assert init == [];
      ExtendAppends(NewCase(n, last), last);
    } else {
      assert Group(st, init, n);
      GroupRecord(st, init, n);
      var prev := Accumulate(st, init);
      if !BlankName(last.name) {
        ExtendAppends(prev.cases[n], last);
      }
    }
  }
}
