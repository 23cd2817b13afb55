/**
 * Checking a record's values against the regular expressions of its kind's
 * columns. Whole-string regular-expression matching (`Pattern.matcher(s)
 * .matches()`) is a parameter `fullMatch(regex, s)`: the model states what
 * the validator does with its answers, not how a pattern is matched.
 */
module Validation {
  import opened Wrappers
  import opened Columns
  import opened Records

  /** `value + ""`: a `null` value becomes the four-character text "null". */
  function Stringify(v: Value): (s: string)
    ensures v.Some? ==> s == v.value
    ensures v.None? ==> s == "null"
  {
    match v
    case None => "null"
    case Some(text) => text
  }

  /** True when column `c` rejects the value the map holds for it. */
  predicate Fails(c: Column, values: map<string, Value>, fullMatch: (string, string) -> bool) {
    c.Shown() && !fullMatch(c.regex, Stringify(Lookup(values, c.name)))
  }

  /** The error tips of the failing columns among `cols`, in column order. */
  function Errors(cols: seq<Column>, values: map<string, Value>, fullMatch: (string, string) -> bool): seq<string> {
    if cols == [] then []
    else
      var c := cols[|cols| - 1];
      Errors(cols[..|cols| - 1], values, fullMatch) + (if Fails(c, values, fullMatch) then [c.errorTip] else [])
  }

  /** The number of columns that are not hidden. */
  function ShownCount(cols: seq<Column>): nat {
    if cols == [] then 0
    else ShownCount(cols[..|cols| - 1]) + (if cols[|cols| - 1].Shown() then 1 else 0)
  }

  /**
   * `validateRecord`: walks the columns of the record's kind in order and
   * collects the error tip of every shown column whose stringified value does
   * not match its pattern as a whole. Only reads the record; its map is
   * dereferenced unchecked, so it must not be `null`.
   */
  method ValidateRecord(record: Record, fullMatch: (string, string) -> bool) returns (errors: seq<string>)
    requires record.recordValues.Some?
    ensures errors == Errors(record.recordType.Columns(), record.recordValues.value, fullMatch)
    ensures |errors| <= ShownCount(record.recordType.Columns())
  {
    errors := [];
    var cols := record.recordType.Columns();
    var values := record.recordValues.value;
    for i := 0 to |cols|
      invariant errors == Errors(cols[..i], values, fullMatch)
    {
      var currCol := cols[i];
      if !currCol.hidden {
        var currValue := Lookup(values, currCol.name);
        if !fullMatch(currCol.regex, Stringify(currValue)) {
          errors := errors + [currCol.errorTip];
        }
      }
      assert cols[..i + 1][..i] == cols[..i];
    }
    assert cols[..|cols|] == cols;
    ErrorsBound(cols, values, fullMatch);
  }

  /** No error without a failing column: the result is empty iff every shown column matches. */
  lemma {:induction false} ErrorsEmptyIff(cols: seq<Column>, values: map<string, Value>, fullMatch: (string, string) -> bool)
    ensures Errors(cols, values, fullMatch) == [] <==>
            forall i :: 0 <= i < |cols| && cols[i].Shown() ==> fullMatch(cols[i].regex, Stringify(Lookup(values, cols[i].name)))
  {
    if cols != [] {
      var init := cols[..|cols| - 1];
      ErrorsEmptyIff(init, values, fullMatch);
      assert forall i :: 0 <= i < |init| ==> init[i] == cols[i];
    }
  }

  /** At most one error per shown column. */
  lemma {:induction false} ErrorsBound(cols: seq<Column>, values: map<string, Value>, fullMatch: (string, string) -> bool)
    ensures |Errors(cols, values, fullMatch)| <= ShownCount(cols)
  {
    if cols != [] {
      ErrorsBound(cols[..|cols| - 1], values, fullMatch);
    }
  }

  /** Checking a list of columns in two parts gives the errors of the first part first. */
  lemma {:induction false} ErrorsAppend(c1: seq<Column>, c2: seq<Column>, values: map<string, Value>, fullMatch: (string, string) -> bool)
    ensures Errors(c1 + c2, values, fullMatch) == Errors(c1, values, fullMatch) + Errors(c2, values, fullMatch)
  {
    if c2 == [] {
      assert c1 + c2 == c1;
    } else {
      assert (c1 + c2)[..|c1 + c2| - 1] == c1 + c2[..|c2| - 1];
      ErrorsAppend(c1, c2[..|c2| - 1], values, fullMatch);
    }
  }

  /** One column alone: its error tip exactly when it is shown and its stringified value does not match. */
  lemma SingleColumn(c: Column, values: map<string, Value>, fullMatch: (string, string) -> bool)
    ensures Errors([c], values, fullMatch) ==
            if !c.hidden && !fullMatch(c.regex, if c.name in values && values[c.name].Some? then values[c.name].value else "null")
            then [c.errorTip] else []
  {
    assert [c][..0] == [];
  }

  /** Hidden columns are never checked: whatever they hold, the errors are the same. */
  lemma {:induction false} HiddenValuesIgnored(cols: seq<Column>, v1: map<string, Value>, v2: map<string, Value>, fullMatch: (string, string) -> bool)
    requires forall i :: 0 <= i < |cols| && cols[i].Shown() ==> Lookup(v1, cols[i].name) == Lookup(v2, cols[i].name)
    ensures Errors(cols, v1, fullMatch) == Errors(cols, v2, fullMatch)
  {
    if cols != [] {
      var init := cols[..|cols| - 1];
      assert forall i :: 0 <= i < |init| ==> init[i] == cols[i];
      HiddenValuesIgnored(init, v1, v2, fullMatch);
    }
  }
}
