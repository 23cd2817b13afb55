/** A record: its kind and the mutable map from column names to values. */
module Records {
  import opened Wrappers
  import opened RecordTypes

  /**
   * A value stored under a column name. `None` is a Java `null`, which the
   * map may hold under a present key; a missing key also reads as `null`.
   */
  type Value = Option<string>

  /** `map.get(key)`: the stored value, or `null` when the key is absent. */
  function Lookup(values: map<string, Value>, key: string): Value {
    if key in values then values[key] else None
  }

  class Record {
    /** The kind of record; no method assigns it after construction. */
    const recordType: RecordType
    /** The record's values; `None` is a `null` map reference. */
    var recordValues: Option<map<string, Value>>

    /** Stores the kind and the map as given. */
    constructor (recordType: RecordType, recordValues: Option<map<string, Value>>)
      ensures this.recordType == recordType
      ensures this.recordValues == recordValues
    {
      this.recordType := recordType;
      this.recordValues := recordValues;
    }

    /** `getRecordAsMap`: the map exactly as stored. */
    function GetRecordAsMap(): (m: Option<map<string, Value>>)
      reads this
      ensures m == recordValues
    {
      recordValues
    }

    /**
     * `updateValue`: overwrites the value of a column that is already in the
     * map and reports whether it did; an unknown column leaves the record as
     * it was. The map is dereferenced unchecked, so it must not be `null`.
     */
    method UpdateValue(columnName: string, newValue: Value) returns (updated: bool)
      requires recordValues.Some?
      modifies this
      ensures updated <==> columnName in old(recordValues.value)
      ensures updated ==> recordValues == Some(old(recordValues.value)[columnName := newValue])
      ensures !updated ==> recordValues == old(recordValues)
      ensures recordValues.Some? && recordValues.value.Keys == old(recordValues.value.Keys)
    {
      if columnName in recordValues.value {
        recordValues := Some(recordValues.value[columnName := newValue]);
        return true;
      }
      return false;
    }

    /**
     * `updateValues`: replaces the whole map, but only by one with exactly
     * the same set of column names; otherwise nothing changes. Both maps are
     * dereferenced unchecked.
     */
    method UpdateValues(newValues: Option<map<string, Value>>) returns (updated: bool)
      requires recordValues.Some? && newValues.Some?
      modifies this
      ensures updated <==> newValues.value.Keys == old(recordValues.value.Keys)
      ensures updated ==> recordValues == newValues
      ensures !updated ==> recordValues == old(recordValues)
    {
      if newValues.value.Keys == recordValues.value.Keys {
        recordValues := newValues;
        return true;
      }
      return false;
    }
  }
}
