/**
 * The comma-separated SQL fragments the database handler builds by walking
 * a kind's columns (an INSERT's column list, an UPDATE's SET clause) or by
 * counting values (an INSERT's VALUES part), and what those fragments hold.
 */
module SqlText {
  import opened Text
  import opened Columns

  /**
   * The two comma-separated listings built by walking a kind's columns: the
   * column list of an INSERT (shown columns, by name) and the assignments of
   * an UPDATE's SET clause (shown and editable columns, as `name=?`).
   */
  datatype Listing = InsertColumns | SetAssignments

  /** Whether the listing includes column `c`. */
  predicate Selects(listing: Listing, c: Column) {
    match listing
    case InsertColumns => c.Shown()
    case SetAssignments => c.Updatable()
  }

  /** The text the listing writes for a column it includes. */
  function Item(listing: Listing, c: Column): string {
    match listing
    case InsertColumns => c.name
    case SetAssignments => c.name + "=?"
  }

  /** The columns the listing includes, in order. */
  function Selected(listing: Listing, cols: seq<Column>): seq<Column> {
    if cols == [] then []
    else
      var init := cols[..|cols| - 1];
      var last := cols[|cols| - 1];
      Selected(listing, init) + (if Selects(listing, last) then [last] else [])
  }

  /** The listing's text for each column it includes, in order. */
  function Items(listing: Listing, cols: seq<Column>): seq<string> {
    if cols == [] then []
    else
      var init := cols[..|cols| - 1];
      var last := cols[|cols| - 1];
      Items(listing, init) + (if Selects(listing, last) then [Item(listing, last)] else [])
  }

  /**
   * The text the loop has built after visiting `cols[..i]`: each included
   * column's item, followed by ", " whenever the iterator still has a next
   * column, whether or not that column is included.
   */
  function Written(listing: Listing, cols: seq<Column>, i: nat): string
    requires i <= |cols|
  {
    if i == 0 then ""
    else
      var c := cols[i - 1];
      Written(listing, cols, i - 1) + (if Selects(listing, c) then Item(listing, c) + (if i < |cols| then ", " else "") else "")
  }

  /** Each part followed by ", ". */
  function Terminated(parts: seq<string>): string {
    if parts == [] then ""
    else Terminated(parts[..|parts| - 1]) + parts[|parts| - 1] + ", "
  }

  /** True when the walk ends on excluded columns after writing some item, leaving a dangling ", ". */
  predicate Dangling(listing: Listing, cols: seq<Column>) {
    cols != [] && !Selects(listing, cols[|cols| - 1]) && Items(listing, cols) != []
  }

  /** The items are the texts of the included columns, one per included column. */
  lemma {:induction false} ItemsOfSelected(listing: Listing, cols: seq<Column>)
    ensures |Items(listing, cols)| == |Selected(listing, cols)|
    ensures forall i :: 0 <= i < |Items(listing, cols)| ==> Items(listing, cols)[i] == Item(listing, Selected(listing, cols)[i])
  {
    if cols != [] {
      ItemsOfSelected(listing, cols[..|cols| - 1]);
    }
  }

  /** Every included column is one of the columns, and one the listing includes. */
  lemma {:induction false} SelectedFrom(listing: Listing, cols: seq<Column>)
    ensures forall c :: c in Selected(listing, cols) ==> c in cols && Selects(listing, c)
  {
    if cols != [] {
      var init := cols[..|cols| - 1];
      SelectedFrom(listing, init);
      assert cols == init + [cols[|cols| - 1]];
    }
  }

  /** Visiting one more column extends the items by that column's item, if it is included. */
  lemma ItemsSnoc(listing: Listing, cols: seq<Column>, n: nat)
    requires n < |cols|
    ensures Items(listing, cols[..n + 1]) ==
              Items(listing, cols[..n]) + (if Selects(listing, cols[n]) then [Item(listing, cols[n])] else [])
  {
    assert cols[..n + 1][..n] == cols[..n];
  }

  lemma TerminatedJoin(parts: seq<string>)
    requires parts != []
    ensures Terminated(parts) == Join(parts, ", ") + ", "
  {
    if |parts| > 1 {
      var init := parts[..|parts| - 1];
      TerminatedJoin(init);
    }
  }

  /** Before the last column, every included item has been followed by ", ". */
  lemma {:induction false} WrittenBeforeEnd(listing: Listing, cols: seq<Column>, n: nat)
    requires n < |cols|
    ensures Written(listing, cols, n) == Terminated(Items(listing, cols[..n]))
  {
    if n > 0 {
      WrittenBeforeEnd(listing, cols, n - 1);
      ItemsSnoc(listing, cols, n - 1);
      var items := Items(listing, cols[..n - 1]);
      if Selects(listing, cols[n - 1]) {
        var item := Item(listing, cols[n - 1]);
        var longer := items + [item];
        assert longer[..|longer| - 1] == items;
        assert Terminated(items) + (item + ", ") == Terminated(items) + item + ", ";
      } else {
        assert Written(listing, cols, n - 1) + "" == Written(listing, cols, n - 1);
        assert items + [] == items;
      }
    }
  }

  /**
   * The whole walk writes the included items joined by ", ", plus a dangling
   * ", " exactly when the last columns are excluded.
   */
  lemma WrittenShape(listing: Listing, cols: seq<Column>)
    ensures Written(listing, cols, |cols|) ==
              Join(Items(listing, cols), ", ") + (if Dangling(listing, cols) then ", " else "")
  {
    if cols != [] {
      var n := |cols| - 1;
      var init := cols[..n];
      var last := cols[n];
      WrittenBeforeEnd(listing, cols, n);
      var items := Items(listing, init);
      if Selects(listing, last) {
        var item := Item(listing, last);
        var longer := items + [item];
        assert longer[..|longer| - 1] == items;
        if items != [] {
          TerminatedJoin(items);
          assert Join(items, ", ") + ", " + item == Join(longer, ", ");
        }
        assert Written(listing, cols, |cols|) == Terminated(items) + item;
      } else {
        assert Written(listing, cols, |cols|) == Terminated(items) + "" == Terminated(items);
        assert Items(listing, cols) == items + [] == items;
        if items != [] {
          TerminatedJoin(items);
        }
      }
    }
  }

  // ----------------------------------------------------------- column list

  /** The column list of an INSERT as `createRecord` builds it: the walk, a ")" and the dangling ", " removed. */
  function InsertColumnText(cols: seq<Column>): string {
    ReplaceAll("(" + Written(InsertColumns, cols, |cols|) + ")", ", )", ")")
  }

  /**
   * Builds the INSERT column list of `createRecord`. Whenever the column
   * names are identifiers, the result is the shown names, in column order,
   * joined by ", " inside parentheses: the clean-up step removes the dangling
   * separator the walk leaves and nothing else.
   */
  method InsertColumnList(recordColumns: seq<Column>) returns (columnNames: string)
    ensures columnNames == InsertColumnText(recordColumns)
    ensures IdentifierNames(recordColumns) ==>
              columnNames == "(" + Join(Items(InsertColumns, recordColumns), ", ") + ")"
  {
    columnNames := "(";
    var i := 0;
    while i < |recordColumns|
      invariant 0 <= i <= |recordColumns|
      invariant columnNames == "(" + Written(InsertColumns, recordColumns, i)
    {
      var currentColumn := recordColumns[i];
      i := i + 1;
      if !currentColumn.hidden {
        columnNames := columnNames + currentColumn.name;
        if i < |recordColumns| {
          columnNames := columnNames + ", ";
        }
      }
    }
    columnNames := columnNames + ")";
    columnNames := ReplaceAll(columnNames, ", )", ")");
    if IdentifierNames(recordColumns) {
      InsertColumnTextClean(recordColumns);
    }
  }

  /** The names of included columns of identifier-named columns are identifiers. */
  lemma SelectedIdentifiers(cols: seq<Column>)
    requires IdentifierNames(cols)
    ensures forall i :: 0 <= i < |Items(InsertColumns, cols)| ==> Identifier(Items(InsertColumns, cols)[i])
  {
    var sel := Selected(InsertColumns, cols);
    ItemsOfSelected(InsertColumns, cols);
    SelectedFrom(InsertColumns, cols);
    forall i | 0 <= i < |sel|
      ensures Identifier(sel[i].name)
    {
      assert sel[i] in sel;
    }
  }

  /** Joining identifiers with ", " writes no ")" and, when anything is written, ends on an identifier character. */
  lemma {:induction false} JoinIdentifiers(names: seq<string>)
    requires forall i :: 0 <= i < |names| ==> Identifier(names[i])
    ensures Lacks(')', Join(names, ", "))
    ensures names != [] ==> Join(names, ", ") != [] && IdentifierChar(Join(names, ", ")[|Join(names, ", ")| - 1])
  {
    if |names| > 1 {
      var init := names[..|names| - 1];
      var last := names[|names| - 1];
      JoinIdentifiers(init);
      var j := Join(init, ", ") + ", " + last;
      assert Join(names, ", ") == j;
      forall i | 0 <= i < |j|
        ensures j[i] != ')'
      {
        if i >= |Join(init, ", ") + ", "| {
          assert j[i] == last[i - |Join(init, ", ") + ", "|];
        }
      }
    }
  }

  lemma InsertColumnTextClean(cols: seq<Column>)
    requires IdentifierNames(cols)
    ensures InsertColumnText(cols) == "(" + Join(Items(InsertColumns, cols), ", ") + ")"
  {
    var names := Items(InsertColumns, cols);
    SelectedIdentifiers(cols);
    JoinIdentifiers(names);
    WrittenShape(InsertColumns, cols);
    var a := "(" + Join(names, ", ");
    assert Lacks(')', a) by {
      forall i | 0 <= i < |a|
        ensures a[i] != ')'
      {
        if i > 0 {
          assert a[i] == Join(names, ", ")[i - 1];
        }
      }
    }
    assert names != [] ==> a[|a| - 1] != ' ';
    if Dangling(InsertColumns, cols) {
      var b := ", )";
      assert "(" + Written(InsertColumns, cols, |cols|) + ")" == a + b;
      forall i | 0 <= i < |a|
        ensures !OccursAt(a + b, ", )", i)
      {
        if i + 3 <= |a + b| {
          assert (a + b)[i..i + 3][2] == (a + b)[i + 2];
        }
      }
      ReplaceAllSkips(a, b, ", )", ")");
    } else {
      var b := ")";
      assert "(" + Written(InsertColumns, cols, |cols|) + ")" == a + b;
      forall i | 0 <= i < |a|
        ensures !OccursAt(a + b, ", )", i)
      {
        if i + 3 <= |a + b| {
          assert (a + b)[i..i + 3][2] == (a + b)[i + 2];
          assert (a + b)[i..i + 3][1] == (a + b)[i + 1];
        }
      }
      ReplaceAllSkips(a, b, ", )", ")");
    }
  }

  // ------------------------------------------------------------ SET clause

  /** The SET clause of an UPDATE as `updateRecord` builds it. */
  function SetClauseText(cols: seq<Column>): string {
    "SET " + Written(SetAssignments, cols, |cols|)
  }

  /**
   * Builds the SET clause of `updateRecord`: one `name=?` per shown and
   * editable column, joined by ", ", with a dangling ", " left in place when
   * the last columns are not editable (nothing removes it).
   */
  method SetClause(recordColumns: seq<Column>) returns (setValues: string)
    ensures setValues == SetClauseText(recordColumns)
    ensures setValues == "SET " + Join(Items(SetAssignments, recordColumns), ", ") +
                         (if Dangling(SetAssignments, recordColumns) then ", " else "")
  {
    setValues := "SET ";
    var i := 0;
    while i < |recordColumns|
      invariant 0 <= i <= |recordColumns|
      invariant setValues == "SET " + Written(SetAssignments, recordColumns, i)
    {
      var currCol := recordColumns[i];
      i := i + 1;
      if !currCol.hidden && currCol.editable {
        var columnName := currCol.name;
        setValues := setValues + (columnName + "=?");
        if i < |recordColumns| {
          setValues := setValues + ", ";
        }
      }
    }
    WrittenShape(SetAssignments, recordColumns);
  }

  /** Visiting one more column extends the included columns by that column, if it is included. */
  lemma SelectedSnoc(listing: Listing, cols: seq<Column>, n: nat)
    requires n < |cols|
    ensures Selected(listing, cols[..n + 1]) ==
              Selected(listing, cols[..n]) + (if Selects(listing, cols[n]) then [cols[n]] else [])
  {
    assert cols[..n + 1][..n] == cols[..n];
  }

  /** One assignment `name=?`, with or without its separator, holds one placeholder. */
  lemma AssignmentCount(name: string, sep: string)
    requires Lacks('?', name) && Lacks('?', sep)
    ensures Count('?', name + "=?" + sep) == 1
  {
    LacksAppend('?', name, "=");
    CountBetween('?', name + "=?" + sep, name + "=", "?", sep);
  }

  /** The SET clause walk holds one placeholder per included column. */
  lemma {:induction false} WrittenSetCount(cols: seq<Column>, n: nat)
    requires IdentifierNames(cols)
    requires n <= |cols|
    ensures Count('?', Written(SetAssignments, cols, n)) == |Selected(SetAssignments, cols[..n])|
  {
    if n == 0 {
      assert cols[..0] == [];
    } else {
      WrittenSetCount(cols, n - 1);
      SelectedSnoc(SetAssignments, cols, n - 1);
      var c := cols[n - 1];
      var piece := if Selects(SetAssignments, c) then Item(SetAssignments, c) + (if n < |cols| then ", " else "") else "";
      CountAppend('?', Written(SetAssignments, cols, n - 1), piece);
      if Selects(SetAssignments, c) {
        assert Identifier(c.name);
        var sep := if n < |cols| then ", " else "";
        AssignmentCount(c.name, sep);
        assert piece == c.name + "=?" + sep;
      }
    }
  }

  /** The SET clause holds exactly one placeholder per shown and editable column. */
  lemma SetClauseCount(cols: seq<Column>)
    requires IdentifierNames(cols)
    ensures Count('?', SetClauseText(cols)) == |Selected(SetAssignments, cols)|
  {
    WrittenSetCount(cols, |cols|);
    assert cols[..|cols|] == cols;
    CountBetween('?', SetClauseText(cols), "SET ", Written(SetAssignments, cols, |cols|), "");
  }

  // ---------------------------------------------------------------- VALUES

  /** `n` placeholders. */
  function Marks(n: nat): seq<string> {
    seq(n, _ => "?")
  }

  /** The VALUES part of an INSERT with `n` placeholders. */
  function PlaceholderText(n: nat): string {
    "VALUES (" + Join(Marks(n), ", ") + ");"
  }

  /** Builds the VALUES part of `createRecord`: one `?` per value, separated by ", ". */
  method ValuePlaceholders(n: nat) returns (valuePlaceholders: string)
    ensures valuePlaceholders == PlaceholderText(n)
  {
    valuePlaceholders := "VALUES (";
    for i := 0 to n
      invariant valuePlaceholders == "VALUES (" + Join(Marks(i), ", ")
    {
      assert Marks(i + 1)[..i] == Marks(i);
      if i == 0 {
        valuePlaceholders := valuePlaceholders + "?";
      } else {
        valuePlaceholders := valuePlaceholders + ", ?";
      }
    }
    valuePlaceholders := valuePlaceholders + ");";
  }

  /** The placeholders joined by ", " hold exactly `n` question marks. */
  lemma {:induction false} MarksCount(n: nat)
    ensures Count('?', Join(Marks(n), ", ")) == n
  {
    if n > 1 {
      MarksCount(n - 1);
      var shorter := Join(Marks(n - 1), ", ");
      assert Marks(n)[..n - 1] == Marks(n - 1);
      assert Join(Marks(n), ", ") == shorter + ", " + "?";
      CountAppend('?', shorter, ", ");
      CountAppend('?', shorter + ", ", "?");
    }
  }

  /** The VALUES part holds exactly `n` placeholders. */
  lemma PlaceholderCount(n: nat)
    ensures Count('?', PlaceholderText(n)) == n
  {
    MarksCount(n);
    CountBetween('?', PlaceholderText(n), "VALUES (", Join(Marks(n), ", "), ");");
  }

  /** The values of a map in iteration order: each key exactly once. */
  predicate Enumerates(order: seq<string>, keys: set<string>) {
    && (forall i, j :: 0 <= i < j < |order| ==> order[i] != order[j])
    && (forall i :: 0 <= i < |order| ==> order[i] in keys)
    && (forall key :: key in keys ==> key in order)
  }

  /** A sequence without repetitions has as many distinct elements as positions. */
  lemma {:induction false} DistinctCardinality(xs: seq<string>)
    requires forall i, j :: 0 <= i < j < |xs| ==> xs[i] != xs[j]
    ensures |set x | x in xs| == |xs|
  {
    if xs != [] {
      var init := xs[..|xs| - 1];
      var last := xs[|xs| - 1];
      DistinctCardinality(init);
      assert (set x | x in xs) == (set x | x in init) + {last};
      assert last !in (set x | x in init);
    }
  }

  /**
   * A map built from a form has one entry per shown column; when no two
   * columns share a name, the statement then has as many placeholders as it
   * lists columns.
   */
  lemma InsertArity<V>(cols: seq<Column>, values: map<string, V>)
    requires UniqueNames(cols)
    requires values.Keys == set name | name in Items(InsertColumns, cols)
    ensures |values| == |Items(InsertColumns, cols)|
    ensures Count('?', PlaceholderText(|values|)) == |Items(InsertColumns, cols)|
  {
    var names := Items(InsertColumns, cols);
    SelectedUnique(InsertColumns, cols);
    ItemsOfSelected(InsertColumns, cols);
    DistinctCardinality(names);
    PlaceholderCount(|values|);
  }

  /** A listing of columns with distinct names includes columns with distinct names. */
  lemma {:induction false} SelectedUnique(listing: Listing, cols: seq<Column>)
    requires UniqueNames(cols)
    ensures UniqueNames(Selected(listing, cols))
  {
    if cols != [] {
      var n := |cols| - 1;
      var init := cols[..n];
      SelectedUnique(listing, init);
      SelectedFrom(listing, init);
      var before := Selected(listing, init);
      forall i | 0 <= i < |before|
        ensures before[i].name != cols[n].name
      {
        assert before[i] in before;
        var m :| 0 <= m < n && init[m] == before[i];
      }
    }
  }
}
