/** The immutable descriptor of one column of a record kind. */
module Columns {

  /**
   * A column: its database name, the label shown in forms, the regular
   * expression its value must match as a whole, the message shown when it
   * does not, whether it is hidden from entry, and whether it may be edited
   * after creation. The constructor takes its arguments in this order and the
   * getters `getName`, `getDisplayText`, `getRegexString`, `getErrorTip`,
   * `isHidden` and `isEditable` are the field selectors; there are no setters.
   */
  datatype Column = Column(
    name: string,
    displayText: string,
    regex: string,
    errorTip: string,
    hidden: bool,
    editable: bool)
  {
    /** Shown for entry: validated, and listed in an INSERT statement. */
    predicate Shown() {
      !hidden
    }

    /** Shown and editable: listed in the SET clause of an UPDATE statement. */
    predicate Updatable() {
      !hidden && editable
    }
  }

  /** No two columns share a name. */
  predicate UniqueNames(cols: seq<Column>) {
    forall i, j :: 0 <= i < j < |cols| ==> cols[i].name != cols[j].name
  }

  /** An ASCII letter or digit. */
  predicate IdentifierChar(c: char) {
    'a' <= c <= 'z' || 'A' <= c <= 'Z' || '0' <= c <= '9'
  }

  /** A non-empty name made of ASCII letters and digits only. */
  predicate Identifier(name: string) {
    name != [] && forall i :: 0 <= i < |name| ==> IdentifierChar(name[i])
  }

  /** Every column name is an identifier. */
  predicate IdentifierNames(cols: seq<Column>) {
    forall i :: 0 <= i < |cols| ==> Identifier(cols[i].name)
  }

  /** The names of the columns, in order. */
  function Names(cols: seq<Column>): seq<string> {
    seq(|cols|, i requires 0 <= i < |cols| => cols[i].name)
  }
}
