/** The row loop of the converter: `current_name` and the `testcases`
    dictionary, updated in place row by row. Each method is proved to change
    the state exactly as `ApplyRow` and its parts say. */
module Collecting {
  import opened Strings
  import opened Cells
  import opened TestCases

  lemma UpdateSame<K, V>(m: map<K, V>, k: K)
    requires k in m
    ensures m[k := m[k]] == m
  {
  }

  lemma UpdateTwice<K, V>(m: map<K, V>, k: K, v: V, w: V)
    ensures m[k := v][k := w] == m[k := w]
  {
  }

  class Collector {
    var currentName: Option<string>
    var order: seq<string>
    var cases: map<string, TestCase>

    function Model(): State
      reads this
    {
      State(currentName, order, cases)
    }

    ghost predicate Valid()
      reads this
    {
      Inv(Model())
    }

    /** `testcases = {}` and `current_name = None`. */
    constructor ()
      ensures Valid() && Model() == Initial
    {
      currentName := None;
      order := [];
      cases := map[];
    }

    /** Lines 54-63: open (or re-create) the record of `name`. */
    method OpenCase(name: string, row: Row)
      requires Valid() && !AllSpace(name)
      modifies this
      ensures Valid()
      ensures Model() == TestCases.OpenCase(old(Model()), name, row)
    {
      currentName := Some(name);
      if name !in cases {
        order := order + [name];
      }
      cases := cases[name := NewCase(name, row)];
    }

    /** Lines 66-73: append one step per piece of the actions cell. */
    method AddActions(actions: string)
      requires Valid() && currentName.Some?
      modifies this
      ensures Valid()
      ensures currentName == old(currentName) && order == old(order)
      ensures cases == old(cases)[currentName.value := WithActions(old(cases)[currentName.value], actions)]
    {
      var name := currentName.value;
      var pieces := Split(actions, '-');
      ghost var tc := cases[name];
      assert tc.(steps := tc.steps + ActionSteps(pieces[..0])) == tc;
      for i := 0 to |pieces|
        invariant currentName == old(currentName) && order == old(order)
        invariant cases == old(cases)[name := tc.(steps := tc.steps + ActionSteps(pieces[..i]))]
      {
        var record := cases[name];
        var next := record.(steps := record.steps + [Step(Trim(pieces[i]), "")]);
        assert ActionSteps(pieces[..i + 1]) == ActionSteps(pieces[..i]) + [Step(Trim(pieces[i]), "")];
        assert next == tc.(steps := tc.steps + ActionSteps(pieces[..i + 1]));
        UpdateTwice(old(cases), name, record, next);
        cases := cases[name := next];
      }
      assert pieces[..|pieces|] == pieces;
    }

    /** Lines 76-81: write each piece of the expected-results cell into the step
        of the same position, when that step exists. */
    method WriteExpectedResults(results: string)
      requires Valid() && currentName.Some?
      modifies this
      ensures Valid()
      ensures currentName == old(currentName) && order == old(order)
      ensures cases == old(cases)[currentName.value := WithResults(old(cases)[currentName.value], results)]
    {
      var name := currentName.value;
      var pieces := Split(results, '-');
      ghost var tc := cases[name];
      assert tc.(steps := ResultsWritten(tc.steps, pieces[..0])) == tc;
      for idx := 1 to |pieces| + 1
        invariant currentName == old(currentName) && order == old(order)
        invariant cases == old(cases)[name := tc.(steps := ResultsWritten(tc.steps, pieces[..idx - 1]))]
      {
        var record := cases[name];
        ghost var after := ResultsWritten(tc.steps, pieces[..idx]);
        if |record.steps| >= idx {
          var step := record.steps[idx - 1];
          cases := cases[name := record.(steps := record.steps[idx - 1 := step.(expectedResult := Trim(pieces[idx - 1]))])];
          assert after == record.steps[idx - 1 := step.(expectedResult := Trim(pieces[idx - 1]))];
        } else {
          assert after == record.steps;
        }
      }
      assert pieces[..|pieces|] == pieces;
    }

    /** Lines 84-96: append the pairs of the split custom-field name and value
        cells, up to the shorter of the two. */
    method AddCustomFields(names: string, values: string)
      requires Valid() && currentName.Some?
      modifies this
      ensures Valid()
      ensures currentName == old(currentName) && order == old(order)
      ensures cases == old(cases)[currentName.value :=
                WithCustomFields(old(cases)[currentName.value], names, values)]
    {
      var name := currentName.value;
      var ns := Split(names, '-');
      var vs := Split(values, '-');
      var count := if |ns| < |vs| then |ns| else |vs|;
      ghost var tc := cases[name];
      assert tc.(customFields := tc.customFields + Zipped(ns[..0], vs[..0])) == tc;
      for i := 0 to count
        invariant currentName == old(currentName) && order == old(order)
        invariant cases == old(cases)[name := tc.(customFields := tc.customFields + Zipped(ns[..i], vs[..i]))]
      {
        var record := cases[name];
        var field := CustomField(Trim(ns[i]), Trim(vs[i]));
        var next := record.(customFields := record.customFields + [field]);
        ZippedGrow(ns, vs, i);
        assert next == tc.(customFields := tc.customFields + Zipped(ns[..i + 1], vs[..i + 1]));
        UpdateTwice(old(cases), name, record, next);
        cases := cases[name := next];
      }
      ZippedShortest(ns, vs);
    }

    /** Lines 65-96: the cells of a row that extend the current record. */
    method ExtendCurrent(row: Row)
      requires Valid() && currentName.Some?
      modifies this
      ensures Valid()
      ensures currentName == old(currentName) && order == old(order)
      ensures cases == old(cases)[currentName.value := Extend(old(cases)[currentName.value], row)]
    {
      var name := currentName.value;
      ghost var m := cases;
      ghost var a := if Truthy(row.actions) then WithActions(m[name], row.actions.value) else m[name];
      ghost var b := if Truthy(row.expectedResults) then WithResults(a, row.expectedResults.value) else a;
      if Truthy(row.actions) {
        AddActions(row.actions.value);
      } else {
        UpdateSame(m, name);
      }
      assert cases == m[name := a];
      if Truthy(row.expectedResults) {
        WriteExpectedResults(row.expectedResults.value);
        UpdateTwice(m, name, a, b);
      }
      assert cases == m[name := b];
      if Truthy(row.customName) && Truthy(row.customValue) {
        AddCustomFields(row.customName.value, row.customValue.value);
        UpdateTwice(m, name, b, Extend(m[name], row));
      }
    }

    /** Lines 40-96: one iteration of the row loop. */
    method ProcessRow(row: Row)
      requires Valid()
      modifies this
      ensures Valid()
      ensures Model() == ApplyRow(old(Model()), row)
    {
      if row.name.None? || Trim(row.name.value) == "" {
        return;
      }
      var name := row.name.value;
      if Some(name) != currentName {
        TrimSpec(name);
        OpenCase(name, row);
      }
      ghost var current := Model();
      ExtendCurrent(row);
      assert Model() == Replace(current, name, Extend(current.cases[name], row));
    }

    /** `testcases.items()`: the records in insertion order. */
    method Records() returns (records: seq<TestCase>)
      requires Valid()
      ensures records == Items(Model())
    {
      records := [];
      for i := 0 to |order|
        invariant records == Items(Model())[..i]
      {
        records := records + [cases[order[i]]];
      }
    }
  }
}
