/**
 * The record-related part of the database handler: the SQL text it builds
 * for retrieving, creating and updating a record, the values it binds to the
 * statement's `?` placeholders, and how it classifies the rows a query
 * returns. Executing a statement is outside the model: the rows a query
 * returns are a parameter, and a built statement is returned instead of run.
 */
module Database {
  import opened Wrappers
  import opened Text
  import opened Columns
  import opened RecordTypes
  import opened Records
  import opened SqlText
  import opened Validation

  /** A prepared statement: its SQL text and the value bound to each placeholder position. */
  datatype Statement = Statement(sql: string, bindings: map<int, Value>)

  // ---------------------------------------------------------------- tables

  /** The table `retrieveRecord` and `updateRecord` address: the kind's constant name without spaces. */
  function TableByName(k: RecordType): string {
    RemoveSpaces(k.Name())
  }

  /** The table `createRecord` addresses: the kind's display name without spaces. */
  function TableByDisplayName(k: RecordType): string {
    RemoveSpaces(k.ToString())
  }

  /** Both ways of naming the table give the kind's constant name. */
  lemma TableNames(k: RecordType)
    ensures TableByName(k) == k.Name()
    ensures TableByDisplayName(k) == k.Name()
  {
    DisplayNameWithoutSpaces(k);
    RemoveSpacesIdempotent(k.ToString());
  }

  /** No table name holds a `?`, so placeholders are only where the statement puts them. */
  lemma TableNamePlain(k: RecordType)
    ensures Lacks('?', k.Name())
  {
    if k.PersonalDetails? || k.InitialEmploymentDetails? || k.AnnualReview? || k.SalaryIncrease? {
      LongTableNamesPlain(k);
    } else {
      ShortTableNamesPlain(k);
    }
  }

  lemma LongTableNamesPlain(k: RecordType)
    requires k.PersonalDetails? || k.InitialEmploymentDetails? || k.AnnualReview? || k.SalaryIncrease?
    ensures Lacks('?', k.Name())
  {
  }

  lemma ShortTableNamesPlain(k: RecordType)
    requires k.Promotion? || k.Probation? || k.Termination? || k.Employee?
    ensures Lacks('?', k.Name())
  {
  }

  // -------------------------------------------------------------- retrieve

  /** The query `retrieveRecord` prepares; its one placeholder takes the employee id. */
  function RetrieveQuery(k: RecordType): string {
    "SELECT * FROM " + TableByName(k) + " WHERE employeeId=?"
  }

  /** The retrieve query names the kind's table and has exactly one placeholder, at its end. */
  lemma RetrieveQueryShape(k: RecordType)
    ensures RetrieveQuery(k) == "SELECT * FROM " + k.Name() + " WHERE employeeId=?"
    ensures Count('?', RetrieveQuery(k)) == 1
  {
    TableNames(k);
    TableNamePlain(k);
    SelectCount(k.Name());
  }

  lemma SelectCount(table: string)
    requires Lacks('?', table)
    ensures Count('?', "SELECT * FROM " + table + " WHERE employeeId=?") == 1
  {
    var head := "SELECT * FROM " + table;
    LacksAppend('?', "SELECT * FROM ", table);
    LacksAppend('?', head, " WHERE employeeId=");
    CountBetween('?', head + " WHERE employeeId=?", head + " WHERE employeeId=", "?", "");
  }

  /** What `retrieveRecord` returns: `null`, a single record, or a list of two or more. */
  datatype Retrieved = NoRecord | OneRecord(record: Record) | RecordList(records: seq<Record>)

  /**
   * `retrieveRecord`, given the rows the query returned: one new record of
   * the requested kind per row, in row order; a single row is returned on its
   * own and no row at all as `null`.
   */
  method RetrieveRecord(recordType: RecordType, rows: seq<map<string, Value>>) returns (result: Retrieved)
    ensures result.NoRecord? <==> |rows| == 0
    ensures result.OneRecord? <==> |rows| == 1
    ensures result.OneRecord? ==>
              && fresh(result.record)
              && result.record.recordType == recordType
              && result.record.recordValues == Some(rows[0])
    ensures result.RecordList? ==>
              && |result.records| == |rows|
              && forall i :: 0 <= i < |rows| ==>
                   && fresh(result.records[i])
                   && result.records[i].recordType == recordType
                   && result.records[i].recordValues == Some(rows[i])
  {
    var records: seq<Record> := [];
    for i := 0 to |rows|
      invariant |records| == i
      invariant forall j :: 0 <= j < i ==>
                  && fresh(records[j])
                  && records[j].recordType == recordType
                  && records[j].recordValues == Some(rows[j])
    {
      var current := new Record(recordType, Some(rows[i]));
      records := records + [current];
    }
    if |records| == 1 {
      result := OneRecord(records[0]);
    } else if |records| > 1 {
      result := RecordList(records);
    } else {
      result := NoRecord;
    }
  }

  /** The INSERT statement `createRecord` prepares for a kind and a map of `n` values. */
  function InsertQuery(k: RecordType, n: nat): string {
    "INSERT INTO " + TableByDisplayName(k) + " " + InsertColumnText(k.Columns()) + " " + PlaceholderText(n)
  }

  /** The value bound at position `p` when the values are bound in the order `order`. */
  function ValueInOrder(values: map<string, Value>, order: seq<string>, p: int): Value
    requires 1 <= p <= |order|
  {
    Lookup(values, order[p - 1])
  }

  /** Positions 1, 2, ... bound to the values in the order `order`. */
  function OrderedBindings(values: map<string, Value>, order: seq<string>): map<int, Value> {
    map p | 1 <= p <= |order| :: ValueInOrder(values, order, p)
  }

  /** True when `replaceFirst` accepts the text of every value, in the order they are visited. */
  predicate ValuesReplaceable(values: map<string, Value>, order: seq<string>) {
    forall i :: 0 <= i < |order| ==> ReplacementParses(Stringify(Lookup(values, order[i])))
  }

  /**
   * The binding loop of `createRecord`: the `i`-th value visited goes to
   * position `i`, and its text then replaces the first `?` of the statement
   * text kept for debugging. That `replaceFirst` reads the value's text as a
   * replacement, so the first value it refuses makes the loop throw. (The
   * debugging text starts with one `?` per value and each step consumes one,
   * so there is always a `?` to replace.)
   */
  method BindInOrder(values: map<string, Value>, order: seq<string>) returns (bindings: map<int, Value>, thrown: bool)
    ensures thrown <==> !ValuesReplaceable(values, order)
    ensures !thrown ==> bindings == OrderedBindings(values, order)
  {
    bindings := map[];
    var objIndex := 1;
    for i := 0 to |order|
      invariant objIndex == i + 1
      invariant bindings == OrderedBindings(values, order[..i])
      invariant ValuesReplaceable(values, order[..i])
    {
      assert order[..i + 1][..i] == order[..i];
      var currentValue := Lookup(values, order[i]);
      bindings := bindings[objIndex := currentValue];
      if !ReplacementParses(Stringify(currentValue)) {
        assert order[i] == order[..i + 1][i];
        return bindings, true;
      }
      objIndex := objIndex + 1;
    }
    assert order[..|order|] == order;
    thrown := false;
  }

  /**
   * What `createRecord` does before executing anything: returns `false` for
   * a `null` map, throws while binding, or has prepared its statement.
   */
  datatype Created = NoMap | Thrown | Prepared(stmt: Statement)

  /**
   * `createRecord`: nothing is prepared for a `null` map. Otherwise the
   * statement lists the kind's shown columns and one placeholder per stored
   * value, and binds the values to positions 1, 2, ... in the map's iteration
   * order, which `order` gives; it throws instead when `replaceFirst`
   * refuses the text of one of the values.
   */
  method CreateRecord(newRecord: Record, order: seq<string>) returns (result: Created)
    requires newRecord.recordValues.Some? ==> Enumerates(order, newRecord.recordValues.value.Keys)
    ensures result.NoMap? <==> newRecord.recordValues.None?
    ensures result.Thrown? <==> newRecord.recordValues.Some? && !ValuesReplaceable(newRecord.recordValues.value, order)
    ensures result.Prepared? ==>
              var values := newRecord.recordValues.value;
              && |order| == |values|
              && result.stmt.sql == InsertQuery(newRecord.recordType, |values|)
              && result.stmt.bindings == OrderedBindings(values, order)
  {
    var recordValues := newRecord.GetRecordAsMap();
    if recordValues == None {
      return NoMap;
    }
    var values := recordValues.value;
    EnumerationSize(order, values.Keys);
    var tableName := RemoveSpaces(newRecord.recordType.ToString());
    var columnNames := InsertColumnList(newRecord.recordType.Columns());
    var valuePlaceholders := ValuePlaceholders(|values|);
    var createQry := "INSERT INTO " + tableName + " " + columnNames + " " + valuePlaceholders;
    var bindings, thrown := BindInOrder(values, order);
    if thrown {
      return Thrown;
    }
    result := Prepared(Statement(createQry, bindings));
  }

  /**
   * A value whose text holds a dollar sign followed by a digit other than 0,
   * such as interview notes reading "Paid $5", makes `createRecord` throw
   * even though every value is a plain string.
   */
  lemma DollarValueThrows(values: map<string, Value>, order: seq<string>, key: string)
    requires key in order && Lookup(values, key) == Some("Paid $5")
    ensures !ValuesReplaceable(values, order)
  {
    DollarRefused("Paid ", '5', "");
    assert "Paid $5" == "Paid " + "$" + ['5'] + "";
    var i :| 0 <= i < |order| && order[i] == key;
  }

  /** Values whose texts hold neither a dollar sign nor a backslash never make `createRecord` throw. */
  lemma PlainValuesReplaceable(values: map<string, Value>, order: seq<string>)
    requires forall key :: key in values && values[key].Some? ==>
               Lacks('$', values[key].value) && Lacks('\\', values[key].value)
    ensures ValuesReplaceable(values, order)
  {
    forall i | 0 <= i < |order|
      ensures ReplacementParses(Stringify(Lookup(values, order[i])))
    {
      var text := Stringify(Lookup(values, order[i]));
      PlainReplacementParses(text);
    }
  }

  /** An enumeration of the keys has one entry per key. */
  lemma EnumerationSize(order: seq<string>, keys: set<string>)
    requires Enumerates(order, keys)
    ensures |order| == |keys|
  {
    DistinctCardinality(order);
    assert (set x | x in order) == keys;
  }

  /**
   * For a map built from a form (one entry per shown column of the kind),
   * the INSERT statement has as many placeholders as it lists columns.
   */
  lemma InsertArityOfKind(k: RecordType, values: map<string, Value>)
    requires values.Keys == set name | name in Items(InsertColumns, k.Columns())
    ensures Count('?', PlaceholderText(|values|)) == |Items(InsertColumns, k.Columns())|
  {
    ColumnNamesUnique(k);
    InsertArity(k.Columns(), values);
  }

  // ---------------------------------------------------------------- update

  /** The WHERE clause `updateRecord` appends for each kind. */
  function WhereClause(k: RecordType): string {
    match k
    case Employee | PersonalDetails | InitialEmploymentDetails | Termination => "WHERE employeeId=?"
    case Probation => "WHERE employeeId=? AND startDate=?"
    case Promotion => "WHERE promotionId=?"
    case SalaryIncrease => "WHERE employeeId=? AND startDate=?"
    case AnnualReview => "WHERE employeeId=? and reviewDate=?"
  }

  /**
   * The keys whose values `updateRecord` binds to the WHERE clause's
   * placeholders, in order, as written: Annual Review looks up
   * "employeeID", a name no column has.
   */
  function KeyNamesAsWritten(k: RecordType): (keys: seq<string>)
    ensures 1 <= |keys| <= 2
    ensures |keys| == |KeyNames(k)|
  {
    match k
    case Employee | PersonalDetails | InitialEmploymentDetails | Termination => ["employeeId"]
    case Probation | SalaryIncrease => ["employeeId", "startDate"]
    case Promotion => ["promotionId"]
    case AnnualReview => ["employeeID", "reviewDate"]
  }

  /** The keys bound to the WHERE clause's placeholders, with Annual Review's employee id corrected. */
  function KeyNames(k: RecordType): (keys: seq<string>)
    ensures 1 <= |keys| <= 2
  {
    match k
    case Employee | PersonalDetails | InitialEmploymentDetails | Termination => ["employeeId"]
    case Probation | SalaryIncrease => ["employeeId", "startDate"]
    case Promotion => ["promotionId"]
    case AnnualReview => ["employeeId", "reviewDate"]
  }

  /** The word joining two conditions of a kind's WHERE clause. */
  function Conjunction(k: RecordType): string {
    if k == AnnualReview then " and " else " AND "
  }

  /** One equality test `key=?` per key. */
  function Conditions(keys: seq<string>): seq<string> {
    seq(|keys|, i requires 0 <= i < |keys| => keys[i] + "=?")
  }

  /** The UPDATE statement `updateRecord` prepares for a kind. */
  function UpdateQuery(k: RecordType): string {
    "UPDATE " + TableByName(k) + " " + SetClauseText(k.Columns()) + " " + WhereClause(k)
  }

  /** The value bound to the `p`-th placeholder of the SET clause. */
  function ColumnValue(sel: seq<Column>, values: map<string, Value>, p: int): Value
    requires 1 <= p <= |sel|
  {
    Lookup(values, sel[p - 1].name)
  }

  /** The SET clause's bindings: position `p` takes the value of the `p`-th updated column. */
  function SetBindings(sel: seq<Column>, values: map<string, Value>): map<int, Value> {
    map p | 1 <= p <= |sel| :: ColumnValue(sel, values, p)
  }

  /** The value of the key bound at position `p`, the keys filling the positions up to `last`. */
  function KeyValue(keys: seq<string>, last: int, values: map<string, Value>, p: int): Value
    requires last - |keys| < p <= last
  {
    Lookup(values, keys[p - (last - |keys|) - 1])
  }

  /** The WHERE clause's bindings: the keys, in order, at the positions ending at `last`. */
  function KeyBindings(keys: seq<string>, last: int, values: map<string, Value>): map<int, Value> {
    map p | last - |keys| < p <= last :: KeyValue(keys, last, values, p)
  }

  /** The key bindings of one or two keys, written out. */
  lemma KeyBindingsListed(keys: seq<string>, last: int, values: map<string, Value>)
    requires 1 <= |keys| <= 2
    ensures |keys| == 1 ==> KeyBindings(keys, last, values) == map[last := Lookup(values, keys[0])]
    ensures |keys| == 2 ==>
              KeyBindings(keys, last, values) == map[last - 1 := Lookup(values, keys[0]), last := Lookup(values, keys[1])]
  {
    if |keys| == 1 {
      assert KeyValue(keys, last, values, last) == Lookup(values, keys[0]);
    } else {
      assert KeyValue(keys, last, values, last - 1) == Lookup(values, keys[0]);
      assert KeyValue(keys, last, values, last) == Lookup(values, keys[1]);
    }
  }

  /**
   * All bindings of an update with statement text `sql`: the SET clause's
   * first, then the keys at the positions ending at the number of `?` in
   * `sql`, each later binding replacing an earlier one at the same position.
   */
  function UpdateBindings(sql: string, cols: seq<Column>, keys: seq<string>, values: map<string, Value>): map<int, Value> {
    SetBindings(Selected(SetAssignments, cols), values) + KeyBindings(keys, Count('?', sql), values)
  }

  /** Updating one more column binds its value at the next position. */
  lemma SetBindingsSnoc(sel: seq<Column>, c: Column, values: map<string, Value>)
    ensures SetBindings(sel + [c], values) == SetBindings(sel, values)[|sel| + 1 := Lookup(values, c.name)]
  {
    var longer := sel + [c];
    forall p | 1 <= p <= |sel|
      ensures ColumnValue(longer, values, p) == ColumnValue(sel, values, p)
    {
      assert longer[p - 1] == sel[p - 1];
    }
  }

  /** The SET binding loop of `updateRecord`: the `p`-th shown and editable column's value goes to position `p`. */
  method BindColumns(recordColumns: seq<Column>, values: map<string, Value>) returns (bindings: map<int, Value>)
    ensures bindings == SetBindings(Selected(SetAssignments, recordColumns), values)
  {
    bindings := map[];
    var objIndex := 1;
    ghost var updated: seq<Column> := [];
    for i := 0 to |recordColumns|
      invariant updated == Selected(SetAssignments, recordColumns[..i])
      invariant objIndex == |updated| + 1
      invariant bindings == SetBindings(updated, values)
    {
      SelectedSnoc(SetAssignments, recordColumns, i);
      var currCol := recordColumns[i];
      if !currCol.hidden && currCol.editable {
        SetBindingsSnoc(updated, currCol, values);
        var currValue := Lookup(values, currCol.name);
        bindings := bindings[objIndex := currValue];
        objIndex := objIndex + 1;
        updated := updated + [currCol];
      }
    }
    assert recordColumns[..|recordColumns|] == recordColumns;
  }

  /** The index of the last placeholder: the length the text loses when every `?` is removed. */
  method LastPlaceholder(updateQry: string) returns (lastPlaceHolderIndex: int)
    ensures lastPlaceHolderIndex == Count('?', updateQry)
  {
    lastPlaceHolderIndex := |updateQry| - |ReplaceAll(updateQry, "?", "")|;
    RemovalCount('?', updateQry);
  }

  /**
   * The key binding step of `updateRecord`: with two keys the first goes
   * just before the last placeholder, the last key always at it.
   */
  method BindKeys(bindings: map<int, Value>, keys: seq<string>, lastPlaceHolderIndex: int, values: map<string, Value>)
    returns (bound: map<int, Value>)
    requires 1 <= |keys| <= 2
    ensures bound == bindings + KeyBindings(keys, lastPlaceHolderIndex, values)
  {
    KeyBindingsListed(keys, lastPlaceHolderIndex, values);
    if |keys| == 1 {
      bound := bindings[lastPlaceHolderIndex := Lookup(values, keys[0])];
    } else {
      bound := bindings[lastPlaceHolderIndex - 1 := Lookup(values, keys[0])];
      bound := bound[lastPlaceHolderIndex := Lookup(values, keys[1])];
    }
  }

  /**
   * The statement `updateRecord` prepares for a table, its columns, the
   * WHERE clause and the keys it tests: the SET clause's values are bound
   * first, then the keys at the last positions, the last one at the number
   * of `?` in the statement text.
   */
  method PrepareUpdate(targetTable: string, recordColumns: seq<Column>, whereClause: string,
                       keys: seq<string>, values: map<string, Value>) returns (stmt: Statement)
    requires 1 <= |keys| <= 2
    ensures stmt.sql == "UPDATE " + targetTable + " " + SetClauseText(recordColumns) + " " + whereClause
    ensures stmt.bindings == UpdateBindings(stmt.sql, recordColumns, keys, values)
  {
    var setValues := SetClause(recordColumns);
    var updateQry := "UPDATE " + targetTable + " " + setValues + " " + whereClause;
    var bindings := BindColumns(recordColumns, values);
    var lastPlaceHolderIndex := LastPlaceholder(updateQry);
    bindings := BindKeys(bindings, keys, lastPlaceHolderIndex, values);
    stmt := Statement(updateQry, bindings);
  }

  /**
   * `updateRecord`, as written: nothing is prepared for a `null` map.
   * Otherwise the statement sets every shown and editable column and selects
   * the row by the kind's keys as the source reads them (Annual Review's
   * employee id under "employeeID"); the position of the last key is the
   * number of `?` in the statement text.
   */
  method UpdateRecord(newRecord: Record) returns (stmt: Option<Statement>)
    ensures stmt.None? <==> newRecord.recordValues.None?
    ensures stmt.Some? ==>
              && stmt.value.sql == UpdateQuery(newRecord.recordType)
              && stmt.value.bindings == UpdateBindings(stmt.value.sql, newRecord.recordType.Columns(),
                                                       KeyNamesAsWritten(newRecord.recordType), newRecord.recordValues.value)
  {
    var recordValues := newRecord.GetRecordAsMap();
    if recordValues == None {
      return None;
    }
    var k := newRecord.recordType;
    var targetTable := RemoveSpaces(k.Name());
    var prepared := PrepareUpdate(targetTable, k.Columns(), WhereClause(k), KeyNamesAsWritten(k), recordValues.value);
    stmt := Some(prepared);
  }

  /**
   * `updateRecord` with Annual Review's employee id read under the column
   * name "employeeId" that its WHERE clause tests; otherwise the same.
   */
  method UpdateRecordCorrected(newRecord: Record) returns (stmt: Option<Statement>)
    ensures stmt.None? <==> newRecord.recordValues.None?
    ensures stmt.Some? ==>
              && stmt.value.sql == UpdateQuery(newRecord.recordType)
              && stmt.value.bindings == UpdateBindings(stmt.value.sql, newRecord.recordType.Columns(),
                                                       KeyNames(newRecord.recordType), newRecord.recordValues.value)
  {
    var recordValues := newRecord.GetRecordAsMap();
    if recordValues == None {
      return None;
    }
    var k := newRecord.recordType;
    var targetTable := RemoveSpaces(k.Name());
    var prepared := PrepareUpdate(targetTable, k.Columns(), WhereClause(k), KeyNames(k), recordValues.value);
    stmt := Some(prepared);
  }

  // ------------------------------------------------------ statement shapes

  /** Each kind's WHERE clause tests its keys, in order, one `key=?` each. */
  lemma WhereClauseTestsKeys(k: RecordType)
    ensures WhereClause(k) == "WHERE " + Join(Conditions(KeyNames(k)), Conjunction(k))
  {
    match k
    case Employee | PersonalDetails | InitialEmploymentDetails | Termination =>
      WhereByEmployeeId(k);
    case Probation =>
      WhereByStartDate(k);
    case SalaryIncrease =>
      WhereByStartDate(k);
    case Promotion =>
      WhereByPromotionId(k);
    case AnnualReview =>
      WhereByReviewDate(k);
  }

  lemma WhereByEmployeeId(k: RecordType)
    requires k.Employee? || k.PersonalDetails? || k.InitialEmploymentDetails? || k.Termination?
    ensures WhereClause(k) == "WHERE " + Join(Conditions(KeyNames(k)), Conjunction(k))
  {
    OneCondition(WhereClause(k), "employeeId", Conjunction(k));
  }

  lemma WhereByStartDate(k: RecordType)
    requires k.Probation? || k.SalaryIncrease?
    ensures WhereClause(k) == "WHERE employeeId=? AND startDate=?"
    ensures WhereClause(k) == "WHERE " + Join(Conditions(KeyNames(k)), Conjunction(k))
  {
    StartDateConditions(WhereClause(k));
  }

  lemma StartDateConditions(clause: string)
    requires clause == "WHERE employeeId=? AND startDate=?"
    ensures clause == "WHERE " + Join(Conditions(["employeeId", "startDate"]), " AND ")
  {
    TwoConditions(clause, "employeeId", "startDate", " AND ");
  }

  lemma ReviewDateConditions(clause: string)
    requires clause == "WHERE employeeId=? and reviewDate=?"
    ensures clause == "WHERE " + Join(Conditions(["employeeId", "reviewDate"]), " and ")
  {
    TwoConditions(clause, "employeeId", "reviewDate", " and ");
  }

  lemma WhereByPromotionId(k: RecordType)
    requires k.Promotion?
    ensures WhereClause(k) == "WHERE " + Join(Conditions(KeyNames(k)), Conjunction(k))
  {
    OneCondition(WhereClause(k), "promotionId", Conjunction(k));
  }

  lemma WhereByReviewDate(k: RecordType)
    requires k.AnnualReview?
    ensures WhereClause(k) == "WHERE employeeId=? and reviewDate=?"
    ensures WhereClause(k) == "WHERE " + Join(Conditions(KeyNames(k)), Conjunction(k))
  {
    ReviewDateConditions(WhereClause(k));
  }

  lemma OneCondition(clause: string, key: string, conjunction: string)
    requires clause == "WHERE " + key + "=?"
    ensures clause == "WHERE " + Join(Conditions([key]), conjunction)
  {
  }

  lemma TwoConditions(clause: string, first: string, second: string, conjunction: string)
    requires clause == "WHERE " + first + "=?" + conjunction + second + "=?"
    ensures clause == "WHERE " + Join(Conditions([first, second]), conjunction)
  {
    var conditions := Conditions([first, second]);
    assert conditions[..1] == [first + "=?"];
  }

  /** The equality tests of keys without `?` hold one placeholder each. */
  lemma {:induction false} ConditionsCount(keys: seq<string>, conjunction: string)
    requires forall i :: 0 <= i < |keys| ==> Lacks('?', keys[i])
    requires Lacks('?', conjunction)
    ensures Count('?', Join(Conditions(keys), conjunction)) == |keys|
  {
    if keys != [] {
      var n := |keys| - 1;
      AssignmentCount(keys[n], "");
      assert keys[n] + "=?" + "" == keys[n] + "=?";
      if n > 0 {
        ConditionsCount(keys[..n], conjunction);
        var shorter := Join(Conditions(keys[..n]), conjunction);
        assert Conditions(keys)[..n] == Conditions(keys[..n]);
        CountAppend('?', shorter, conjunction);
        CountAppend('?', shorter + conjunction, keys[n] + "=?");
        CountLacking('?', conjunction);
      }
    }
  }

  /** Each kind's WHERE clause holds one placeholder per key. */
  lemma WhereClauseCount(k: RecordType)
    ensures Count('?', WhereClause(k)) == |KeyNames(k)|
  {
    var keys := KeyNames(k);
    WhereClauseTestsKeys(k);
    assert forall i :: 0 <= i < |keys| ==> Lacks('?', keys[i]);
    ConditionsCount(keys, Conjunction(k));
    CountBetween('?', WhereClause(k), "WHERE ", Join(Conditions(keys), Conjunction(k)), "");
  }

  /**
   * Binding the values of the updated columns `sel` at 1..n and then the
   * keys at the positions ending at n plus the number of keys (the number of
   * `?` in an update, as `UpdateQueryCount` shows) binds every position from
   * 1 to that number exactly once: the columns' values in column order, the
   * keys, in order, right after them, and no key overwrites a column value.
   */
  lemma PlaceholdersBoundOnce(sel: seq<Column>, keys: seq<string>, last: int, values: map<string, Value>)
    requires last == |sel| + |keys|
    ensures BoundInLayout(SetBindings(sel, values) + KeyBindings(keys, last, values), sel, keys, values)
  {
    LayoutDomain(sel, keys, last, values);
    LayoutColumns(sel, keys, last, values);
    LayoutKeys(sel, keys, last, values);
  }

  /** The SET values and the keys together bind exactly the positions 1 to `last`. */
  lemma LayoutDomain(sel: seq<Column>, keys: seq<string>, last: int, values: map<string, Value>)
    requires last == |sel| + |keys|
    ensures forall p :: p in SetBindings(sel, values) + KeyBindings(keys, last, values) <==> 1 <= p <= last
  {
    var columns := SetBindings(sel, values);
    var keyed := KeyBindings(keys, last, values);
    forall p
      ensures p in columns + keyed <==> 1 <= p <= last
    {
      assert p in columns <==> 1 <= p <= |sel|;
      assert p in keyed <==> |sel| < p <= last;
    }
  }

  /** No key overwrites a column value: position `p` up to the number of columns keeps the `p`-th column's value. */
  lemma LayoutColumns(sel: seq<Column>, keys: seq<string>, last: int, values: map<string, Value>)
    requires last == |sel| + |keys|
    ensures var bindings := SetBindings(sel, values) + KeyBindings(keys, last, values);
            forall p :: 1 <= p <= |sel| ==> p in bindings && bindings[p] == Lookup(values, sel[p - 1].name)
  {
    var columns := SetBindings(sel, values);
    var keyed := KeyBindings(keys, last, values);
    forall p | 1 <= p <= |sel|
      ensures p in columns + keyed && (columns + keyed)[p] == Lookup(values, sel[p - 1].name)
    {
      assert p !in keyed;
      assert columns[p] == ColumnValue(sel, values, p);
    }
  }

  /** The `j`-th key is bound right after the columns, at position number of columns + 1 + `j`. */
  lemma LayoutKeys(sel: seq<Column>, keys: seq<string>, last: int, values: map<string, Value>)
    requires last == |sel| + |keys|
    ensures var bindings := SetBindings(sel, values) + KeyBindings(keys, last, values);
            forall j :: 0 <= j < |keys| ==> |sel| + 1 + j in bindings && bindings[|sel| + 1 + j] == Lookup(values, keys[j])
  {
    forall j | 0 <= j < |keys|
      ensures |sel| + 1 + j in SetBindings(sel, values) + KeyBindings(keys, last, values)
      ensures (SetBindings(sel, values) + KeyBindings(keys, last, values))[|sel| + 1 + j] == Lookup(values, keys[j])
    {
      KeyBound(keys, last, values, j);
    }
  }

  lemma KeyBound(keys: seq<string>, last: int, values: map<string, Value>, j: int)
    requires 0 <= j < |keys|
    ensures var p := last - |keys| + 1 + j;
            p in KeyBindings(keys, last, values) && KeyBindings(keys, last, values)[p] == Lookup(values, keys[j])
  {
    var p := last - |keys| + 1 + j;
    assert KeyValue(keys, last, values, p) == Lookup(values, keys[j]);
  }

  /** With identifier column names, an update holds one placeholder per updated column and per key. */
  lemma UpdateQueryCount(k: RecordType)
    ensures Count('?', UpdateQuery(k)) == |Selected(SetAssignments, k.Columns())| + |KeyNames(k)|
  {
    RegistryIdentifierNames(k);
    TableNames(k);
    TableNamePlain(k);
    SetClauseCount(k.Columns());
    WhereClauseCount(k);
    UpdateCount(k.Name(), SetClauseText(k.Columns()), WhereClause(k));
  }

  lemma UpdateCount(table: string, setClause: string, whereClause: string)
    requires Lacks('?', table)
    ensures Count('?', "UPDATE " + table + " " + setClause + " " + whereClause) ==
              Count('?', setClause) + Count('?', whereClause)
  {
    LacksAppend('?', "UPDATE ", table);
    LacksAppend('?', "UPDATE " + table, " ");
    var head := "UPDATE " + table + " ";
    CountBetween('?', head + setClause, head, setClause, "");
    CountAppend('?', head + setClause, " ");
    CountLacking('?', " ");
    CountAppend('?', head + setClause + " ", whereClause);
  }

  // ------------------------------------------------------------- key names

  /**
   * As written, Annual Review looks up its employee id under "employeeID",
   * which names no Annual Review column, while every other kind binds the
   * same keys as the corrected `KeyNames`.
   */
  lemma KeyNamesAsWrittenMissColumn(k: RecordType)
    ensures k != AnnualReview ==> KeyNamesAsWritten(k) == KeyNames(k)
    ensures KeyNamesAsWritten(AnnualReview)[0] !in Names(AnnualReview.Columns())
  {
    var names := Names(AnnualReviewColumns);
    forall i | 0 <= i < |names|
      ensures names[i] != "employeeID"
    {
      assert names[i] == AnnualReviewColumns[i].name;
    }
  }

  /**
   * The consequence for a record whose map holds only Annual Review column
   * names, as one built from the form does: the update binds `null` to the
   * employee id placeholder, so the WHERE clause matches no row.
   */
  lemma AnnualReviewKeyAsWritten(sel: seq<Column>, values: map<string, Value>)
    requires forall key :: key in values ==> key in Names(AnnualReview.Columns())
    ensures var keys := KeyNamesAsWritten(AnnualReview);
            (SetBindings(sel, values) + KeyBindings(keys, |sel| + |keys|, values))[|sel| + 1] == None
  {
    KeyNamesAsWrittenMissColumn(AnnualReview);
    LayoutKeys(sel, KeyNamesAsWritten(AnnualReview), |sel| + |KeyNamesAsWritten(AnnualReview)|, values);
  }

  /**
   * With the corrected keys, the first key of every kind, and the second of
   * Probation and Salary Increase, names a column of that kind, so the
   * employee (or promotion) id placeholder receives the record's own id.
   */
  lemma KeyNamesNameColumns(k: RecordType)
    ensures KeyNames(k)[0] in Names(k.Columns())
    ensures k == Probation || k == SalaryIncrease ==> KeyNames(k)[1] in Names(k.Columns())
  {
    EmployeeIdColumn(k);
    var i :| 0 <= i < |k.Columns()| && k.Columns()[i].name == "employeeId";
    assert Names(k.Columns())[i] == "employeeId";
    if k == Promotion {
      assert Names(k.Columns())[0] == "promotionId";
    }
    if k == Probation || k == SalaryIncrease {
      assert Names(k.Columns())[1] == "startDate";
    }
  }

  /** The corrected Annual Review update binds the record's employee id right after the columns. */
  lemma AnnualReviewKeyCorrected(sel: seq<Column>, values: map<string, Value>)
    ensures var keys := KeyNames(AnnualReview);
            (SetBindings(sel, values) + KeyBindings(keys, |sel| + |keys|, values))[|sel| + 1] == Lookup(values, "employeeId")
  {
    LayoutKeys(sel, KeyNames(AnnualReview), |sel| + |KeyNames(AnnualReview)|, values);
  }

  // ------------------------------------------------------------ per kind

  /** For every kind the INSERT column list is its shown column names, in order, between parentheses. */
  lemma InsertColumnsOfKind(k: RecordType)
    ensures InsertColumnText(k.Columns()) == "(" + Join(Items(InsertColumns, k.Columns()), ", ") + ")"
  {
    RegistryIdentifierNames(k);
    InsertColumnTextClean(k.Columns());
  }

  /**
   * The placeholder layout of an update: positions 1 up to the number of
   * updated columns and keys are bound exactly once, the updated columns'
   * values first in column order, then the keys in order.
   */
  ghost predicate BoundInLayout(bindings: map<int, Value>, sel: seq<Column>, keys: seq<string>, values: map<string, Value>) {
    && (forall p :: p in bindings <==> 1 <= p <= |sel| + |keys|)
    && (forall p :: 1 <= p <= |sel| ==> p in bindings && bindings[p] == Lookup(values, sel[p - 1].name))
    && (forall j :: 0 <= j < |keys| ==> |sel| + 1 + j in bindings && bindings[|sel| + 1 + j] == Lookup(values, keys[j]))
  }

  /**
   * Every kind's UPDATE, with the keys as written or corrected, has one `?`
   * per updated column and key, and its bindings follow the layout: the last
   * key is bound at the last placeholder.
   */
  lemma UpdateLayoutOfKind(k: RecordType, keys: seq<string>, values: map<string, Value>)
    requires keys == KeyNamesAsWritten(k) || keys == KeyNames(k)
    ensures Count('?', UpdateQuery(k)) == |Selected(SetAssignments, k.Columns())| + |keys|
    ensures BoundInLayout(UpdateBindings(UpdateQuery(k), k.Columns(), keys, values),
                          Selected(SetAssignments, k.Columns()), keys, values)
  {
    UpdateQueryCount(k);
    UpdateBindingsLayout(UpdateQuery(k), k.Columns(), Selected(SetAssignments, k.Columns()), keys, values);
  }

  /** `PlaceholdersBoundOnce` for a statement whose `?` count is the number of updated columns and keys. */
  lemma UpdateBindingsLayout(sql: string, cols: seq<Column>, sel: seq<Column>, keys: seq<string>, values: map<string, Value>)
    requires sel == Selected(SetAssignments, cols)
    requires Count('?', sql) == |sel| + |keys|
    ensures BoundInLayout(UpdateBindings(sql, cols, keys, values), sel, keys, values)
  {
    PlaceholdersBoundOnce(sel, keys, Count('?', sql), values);
  }
}
