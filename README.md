# Small firm data repository: a Dafny model of its core

The system is a desktop application in which the staff of a small firm keep
human-resources records. There are eight record kinds: personal details,
initial employment details, annual review, salary increase, promotion,
probation, termination and employee. The model covers the logic that sits
between the forms and the database:

- **The schema registry** (`RecordTypes`, `Columns`). The eight kinds are a
  closed table. Each kind has a display name and an ordered list of immutable
  column descriptors: name, label, regular expression, error tip, hidden flag
  and editable flag.
- **Records and validation** (`Records`, `Validation`). A record is a mutable
  map from column names to values. It may be updated one key at a time, or
  replaced as a whole by a map with the same keys. The validator collects the
  error tip of every shown column whose value does not match its pattern.
- **Roles, actions and the login session** (`Roles`, `ActionTypes`, `Auth`).
  These cover the role id/name table, the action names, and the session state
  that `checkLogin` and `logout` update. They also cover the mapping from a
  login's highest role to the roles offered at login.
- **Permissions** (`Permissions`). The capability strings that would allow an
  action on a record, such as `records.personaldetails.view.self`. Also the
  tiered check that looks them up: grants to the role, then to the
  department, then to the user.
- **SQL text and bindings** (`SqlText`, `Database`). The text of the SELECT,
  INSERT and UPDATE statements the database handler prepares for a record.
  Also the value bound to each `?` placeholder, and how the rows of a query
  become `null`, one record or a list of records.

Java `null` is `None` throughout. A record value is an `Option<string>`.
Every database call is replaced by its outcome, which the caller passes in:
- for logins, a `DbResult`;
- for permissions, a `Directory` of grants, failing lookups and departments;
- for retrieval, the rows a query returned.

Statements are returned, not executed.

## Model

| member | source | states |
|---|---|---|
| RecordTypes.RecordType.ToString | RecordType.java:117-119 | the kind's display name, spaces included (see `RecordTypes.DisplayNameWithoutSpaces`) |
| RecordTypes.RecordType.Name | RecordType.java:18-98 | the constant's own name, `name()` of the enumeration |
| RecordTypes.RecordType.Columns | RecordType.java:126-128 | the kind's column descriptors in declaration order (counts, uniqueness and flags in the lemmas below) |
| RecordTypes.RegistryIdentifierNames | RecordType.java:18-98 | every column name of every kind is a plain identifier (letters, digits and `_`), so it holds no `,`, `)`, `=` or `?` |
| RecordTypes.AllRecordTypesComplete | RecordType.java:17-98 | every kind is one of the eight constants of the enumeration |
| RecordTypes.DisplayNameWithoutSpaces | RecordType.java:18-119 | removing the spaces from a kind's display name (`toString`) gives the constant's own name |
| RecordTypes.ColumnCounts | RecordType.java:18-98 | the number of columns of each kind: 12, 7, 16, 4, 5, 6, 4 and 3 |
| RecordTypes.ColumnNamesUnique | RecordType.java:18-98 | no two columns of a kind share a name |
| RecordTypes.OnlyHiddenColumn | RecordType.java:71 | a column is hidden exactly when it is the first column of Promotion, which is `promotionId` |
| RecordTypes.EmployeeIdColumn | RecordType.java:18-98 | every kind has a shown `employeeId` column; it is editable exactly for Termination and Employee |
| RecordTypes.LastColumnUpdatable | RecordType.java:18-98 | the last column of every kind is shown and editable |
| ActionTypes.ActionType.Name | ActionType.java:8-29 | each action's name is a non-empty string fixed by its constant |
| ActionTypes.NamesDistinct | ActionType.java:8-11 | two actions have the same name exactly when they are the same action |
| ActionTypes.LowerCaseNames | ActionType.java:9-10 | View and Modify lower-case to the capability segments "view" and "modify" |
| Roles.Role.Id | Role.java:74-76 | a role's id is between 1 and 3 |
| Roles.BuildRoleMap | Role.java:30-34 | the static initialiser's loop yields the table 1 to Employee, 2 to Manager, 3 to Director, each role under its own id |
| Roles.ValueOf | Role.java:41-43 | a role is found exactly for ids 1 to 3, and it is the role with that id; any other id gives `null` |
| Roles.NameOf | Role.java:50-52 | for ids 1 to 3, the name of the role with that id; other ids are excluded because the lookup is dereferenced unchecked |
| Roles.IdOf | Role.java:59-68 | the id of the role with the given name, and 0 exactly when no role has that name |
| Roles.ValueOfId | Role.java:41-43 | `valueOf(r.id())` is `r` for every role |
| Roles.NamesDistinct | Role.java:11-13 | no two roles share a name |
| Roles.NameOfRoundTrip | Role.java:50-68 | for ids 1 to 3, looking up the id of `nameOf(i)` gives back `i` |
| Records.Record.constructor | Record.java:21-24 | the record keeps the kind and the map (possibly `null`) exactly as given |
| Records.Record.GetRecordAsMap | Record.java:40-42 | the map is returned as stored |
| Records.Record.UpdateValue | Record.java:50-56 | succeeds exactly when the column is already a key, then maps it to the new value; otherwise nothing changes; the key set never changes |
| Records.Record.UpdateValues | Record.java:66-74 | replaces the map exactly when the new key set equals the old one; otherwise nothing changes |
| Validation.Stringify | Validation.java:30 | a present value is tested as itself; a `null` value (`None`) becomes exactly the text "null" |
| Validation.ValidateRecord | Validation.java:19-38 | the result is the error tips of the failing shown columns in column order, at most one per shown column; the record is only read |
| Validation.ErrorsEmptyIff | Validation.java:26-36 | no errors exactly when every shown column's stringified value fully matches its pattern |
| Validation.ErrorsBound | Validation.java:20-37 | there are never more errors than shown columns |
| Validation.ErrorsAppend | Validation.java:26-36 | the errors of a column list split in two are the first part's errors followed by the second part's |
| Validation.SingleColumn | Validation.java:27-33 | a single column yields its error tip exactly when it is shown and its value, or "null" when there is none, does not match |
| Validation.HiddenValuesIgnored | Validation.java:27 | two maps that agree on the shown columns give the same errors, whatever the hidden columns hold |
| Permissions.GeneratePermissionStrings | PermissionHandler.java:94-141 | Create gives the single string `records.<lower-case table name>.create` and never reads the map; Approve gives none; View and Modify give the scoped strings of the record's employee id |
| Permissions.ScopedStrings | PermissionHandler.java:115-134 | one to three strings, always including `<base>*`; `<base><id>` exactly when the record has an employee id; `<base>self` first exactly when that id is the actor's staff number; the exact order is `self` (when present), then `*`, then the id |
| Permissions.KindSegmentIsLowerName | PermissionHandler.java:99-102 | the kind segment (display name lower-cased, spaces removed) is the lower-cased constant name |
| Permissions.GenerationInputs | PermissionHandler.java:94-141 | the strings depend only on the staff number, the action, the kind and the record's employee id, not on the login or the role |
| Permissions.StopAt | PermissionHandler.java:38-42 | a tier stops at the first string whose lookup is not "no row" |
| Permissions.CheckTier | PermissionHandler.java:37-46 | one tier's loop returns a hit, a miss or a database error as the lookups decide, and makes exactly the lookups up to where it stops |
| Permissions.CheckTiers | PermissionHandler.java:36-77 | the three tiers in order give the verdict `Decision`, and their calls are the trace `DecisionTrace` |
| Permissions.HasPermission | PermissionHandler.java:33-78 | the verdict and the call trace of the tiered check over the generated strings |
| Permissions.ScanWithoutFailures | PermissionHandler.java:38-42 | without database errors, a tier hits exactly when one of the strings is granted in it |
| Permissions.AllowedIffGranted | PermissionHandler.java:33-78 | without database errors, the attempt is allowed exactly when some string is granted to the role, the department or the user |
| Permissions.AllowedOnlyByGrant | PermissionHandler.java:33-78 | an allowed attempt always rests on a grant of one of its strings in one of the tiers |
| Permissions.ScanMonotone | PermissionHandler.java:38-42 | more grants never turn a tier's hit into anything else, nor a miss into an error |
| Permissions.DecisionMonotone | PermissionHandler.java:33-78 | adding grants can only turn a denial into an allowance |
| Permissions.FailureEndsCheck | PermissionHandler.java:43-73 | a database error or a failed department lookup denies, and is the last call made |
| Permissions.ConsultedShape | PermissionHandler.java:37-46 | a tier's calls are lookups in that tier; only the last can fail, and it fails exactly when the tier's outcome is an error |
| Permissions.TierOrder | PermissionHandler.java:36-77 | tiers are consulted in the order role, department lookup, department, user; a hit in a tier ends the check there |
| Permissions.ApproveNeverAllowed | PermissionHandler.java:136-137 | approving is never allowed, whatever is granted |
| Auth.AvailableRoles | Authentication.java:67-94 | `null` for an empty login, a database error or a `null` level; ["Suspended"] for level 0; the role's name then "Employee" for higher levels; a null dereference for levels beyond 3; level 1 offers exactly ["Employee"] and levels 2 and 3 exactly two roles |
| Auth.AvailableRolesAreRoles | Authentication.java:81-93 | every role offered for levels 1 to 3 is a role whose id is at most the level |
| Auth.Authentication.constructor | Authentication.java:23-28 | nobody is logged in at first: login, staff number and role are all `null` |
| Auth.Authentication.CheckLogin | Authentication.java:105-129 | succeeds exactly on a matching non-empty password with the session added and the staff-number lookup raising no error; a match sets the login and role even if the staff lookup then fails; a mismatch changes nothing |
| Auth.Authentication.IsAuthenticated | Authentication.java:58-60 | someone is logged in exactly when the login is not `null`; the constructor and `Logout` leave it false, a successful `CheckLogin` leaves it true |
| Auth.Authentication.Logout | Authentication.java:135-142 | the login is forgotten even when the session cannot be deleted; staff number and role are kept |
| SqlText.ItemsOfSelected | DatabaseHandler.java:389-397 | the items the loop writes are one per selected column, in column order |
| SqlText.WrittenShape | DatabaseHandler.java:389-397 | the loop's text is the items joined by ", ", with one dangling ", " exactly when the last column is not selected |
| SqlText.InsertColumnList | DatabaseHandler.java:386-400 | the INSERT column list the loop and the ", )" clean-up build; for identifier names it is "(" + the shown names joined by ", " + ")" (every kind's names are identifiers, see `Database.InsertColumnsOfKind`) |
| SqlText.InsertColumnTextClean | DatabaseHandler.java:398-400 | after the clean-up the column list is exactly the shown names, in order, between parentheses |
| SqlText.ValuePlaceholders | DatabaseHandler.java:402-410 | the VALUES part is "VALUES (" + n question marks joined by ", " + ");" |
| SqlText.PlaceholderCount | DatabaseHandler.java:402-410 | the VALUES part has exactly n placeholders |
| SqlText.InsertArity | DatabaseHandler.java:386-410 | when the map's keys are exactly the listed column names, the number of placeholders equals the number of listed columns |
| SqlText.SetClause | DatabaseHandler.java:453-464 | the SET clause is "SET " + `name=?` for each shown editable column in order, joined by ", ", with a dangling ", " when the last column is not updated |
| SqlText.SetClauseCount | DatabaseHandler.java:453-464 | the SET clause has one placeholder per updated column |
| Database.TableNames | DatabaseHandler.java:335-336 | the table named from the constant and the one named from the display name are both the constant's name |
| Database.RetrieveQueryShape | DatabaseHandler.java:335-341 | the SELECT names the kind's table and has exactly one placeholder, for the employee id |
| Database.RetrieveRecord | DatabaseHandler.java:345-359 | no row gives `null`, one row a single new record, more rows a list of new records, one per row in row order, each of the requested kind |
| Database.BindInOrder | DatabaseHandler.java:420-425 | throws exactly when `replaceFirst` refuses one of the visited values as a replacement; otherwise the i-th value visited is bound at position i |
| Database.DollarValueThrows | DatabaseHandler.java:423 | a value such as "Paid $5" (a `$` not followed by a group number) makes the binding loop throw |
| Database.PlainValuesReplaceable | DatabaseHandler.java:423 | values without `$` or `\` never make the binding loop throw |
| Text.ReplaceAll | DatabaseHandler.java:400 | `String.replace` of every non-overlapping occurrence, left to right; a replacement no longer than the target never lengthens the text |
| Text.PlainReplacementParses | DatabaseHandler.java:423 | a replacement text without `$` or `\` is accepted by `replaceFirst` |
| Text.DollarRefused | DatabaseHandler.java:423 | a `$` followed by anything but `0`, after an escape-free prefix, is refused by `replaceFirst` |
| Database.CreateRecord | DatabaseHandler.java:374-432 | nothing is prepared for a `null` map; it throws exactly when some value is refused by the debug `replaceFirst`; otherwise the INSERT text for the kind with one placeholder per stored value, and the values bound in iteration order |
| Database.InsertColumnsOfKind | DatabaseHandler.java:386-400 | for every kind, the INSERT column list is exactly "(" + its shown names joined by ", " + ")" |
| Database.InsertArityOfKind | DatabaseHandler.java:386-410 | for a map holding exactly the kind's shown columns, the INSERT has as many placeholders as listed columns |
| Database.KeyNames | DatabaseHandler.java:512-537 | each kind's WHERE clause is bound one or two keys, with Annual Review's employee id key corrected |
| Database.BindColumns | DatabaseHandler.java:497-506 | the p-th shown editable column's value is bound at position p |
| Database.LastPlaceholder | DatabaseHandler.java:509-510 | the length lost by removing every `?` is the number of placeholders |
| Database.BindKeys | DatabaseHandler.java:512-537 | the last key goes to the last placeholder, a first of two keys just before it |
| Database.PrepareUpdate | DatabaseHandler.java:446-537 | the UPDATE text for a table, and the SET values then the keys bound at the positions ending at the number of `?` in it |
| Database.KeyNamesAsWritten | DatabaseHandler.java:512-537 | the keys as the source reads them, Annual Review's employee id under "employeeID": one or two per kind, as many as the corrected keys |
| Database.UpdateRecord | DatabaseHandler.java:443-545 | as written: nothing is prepared for a `null` map; otherwise the kind's UPDATE text, its SET values and the keys read under the names the source uses |
| Database.UpdateRecordCorrected | DatabaseHandler.java:443-545 | the same statement with Annual Review's employee id read under "employeeId" |
| Database.WhereClauseTestsKeys | DatabaseHandler.java:467-487 | each kind's WHERE clause tests exactly its keys, in order, as `key=?` |
| Database.WhereClauseCount | DatabaseHandler.java:467-487 | the WHERE clause has one placeholder per key |
| Database.UpdateQueryCount | DatabaseHandler.java:489-494 | for every kind, the UPDATE has one placeholder per updated column plus one per key |
| Database.PlaceholdersBoundOnce | DatabaseHandler.java:497-537 | the SET values and the keys together bind positions 1 to their number exactly once: columns in order, then the keys, none overwritten |
| Database.LayoutDomain | DatabaseHandler.java:497-537 | the SET values and the keys, the last key at their number, bind exactly the positions 1 to that number |
| Database.LayoutColumns | DatabaseHandler.java:497-506 | no key overwrites a SET value: position p up to the number of updated columns keeps the p-th column's value |
| Database.LayoutKeys | DatabaseHandler.java:509-537 | the j-th key is bound right after the SET values, at position number of updated columns + 1 + j |
| Database.UpdateBindingsLayout | DatabaseHandler.java:497-537 | when the statement has one `?` per updated column and key, positions 1 to that count are each bound once: columns in order, then the keys |
| Database.UpdateLayoutOfKind | DatabaseHandler.java:489-537 | for every kind, with the keys as written or corrected, the last placeholder index is the number of updated columns plus keys, and the bindings fill exactly positions 1 to it, columns then keys |
| Database.KeyNamesAsWrittenMissColumn | DatabaseHandler.java:531-533 | as written, Annual Review reads its employee id under "employeeID", which names no Annual Review column; every other kind uses the corrected keys |
| Database.AnnualReviewKeyAsWritten | DatabaseHandler.java:531-535 | as written, an Annual Review update over a map of its own columns binds `null` to the employee id placeholder |
| Database.KeyNamesNameColumns | DatabaseHandler.java:512-537 | with the corrected keys, every kind's first key and the second key of Probation and Salary Increase name columns of the kind |
| Database.AnnualReviewKeyCorrected | DatabaseHandler.java:531-535 | the corrected Annual Review update binds the record's `employeeId` right after the SET values |

## Left out

- Connections, statement execution and result-set reading are not modelled. This covers `queryToHashMap`, `queryToList`, the session table, `getHighestRole*`, `getDepartment*`, `getEmployeeIdByLogin` and `checkPermissionBy*`. Their outcomes are parameters, so the boolean `execute` returns is not modelled either.
- Database.CreateRecord: the order in which a `LinkedHashMap` is iterated is the parameter `order`. The model does not tie it to insertion order.
- Database.CreateRecord: the debug copy of the INSERT text that `replaceFirst` builds is not kept, because nothing reads it. Only whether `replaceFirst` throws on a value is modelled. The copy always has a `?` left to replace, since it starts with one per value and each step consumes one.
- Regular expressions are a parameter `fullMatch(regex, s)`. Pattern syntax, compilation and its errors are not modelled. Several schema patterns lack a closing parenthesis.
- Database.KeyNames: Annual Review's second key, "reviewDate", is kept as written. No Annual Review column has that name, and the schema gives no evidently intended replacement.
- Roles.NameOf: an id outside 1 to 3 makes the source dereference `null`. The model excludes such ids by a precondition. `Auth.AvailableRoles` models that failure as `NullDereference`.
- getAvailableRoles: a database error is caught and printed, leaving the level `null`, so the model returns `null`. An unknown login also returns `null`. Both are one `SqlError` outcome.
- Viewing or modifying with a `null` map dereferences it. `Permissions.GeneratePermissionStrings` requires a map for those actions instead.
- Records.Record.UpdateValue: a `null` map in the record throws a `NullPointerException` in the source. The model requires a map to be present.
- Records.Record.UpdateValues: a `null` current or new map throws a `NullPointerException` in the source. The model requires both maps to be present.
- The `(String)` cast of the employee id is not modelled, because values are strings in the model.
- `Authentication.getUser`, `getStaffNo` and `getAccessRole` are the fields themselves.
- The `Column` getters are the datatype's field selectors.
- `Column.getRegexPattern` compiles a pattern, and is covered by the regular-expression parameter.
- Console messages and stack traces printed on errors are not modelled.
- The Swing forms, the encryption wrapper and the application's pass-through methods are not part of this model.

## Findings

| source | as written | input that shows it | evidently intended | confidence | as-written member | corrected member |
|---|---|---|---|---|---|---|
| DatabaseHandler.java:532 | the Annual Review update reads the employee id to bind under the key "employeeID" | an Annual Review record whose map holds `employeeId` = "123456" (as a form built from the columns does): the first WHERE placeholder is bound `null`, so the update matches no row | read it under "employeeId", the column name the WHERE clause tests | not executed | Database.AnnualReviewKeyAsWritten | Database.AnnualReviewKeyCorrected |
