# PostgreSQL source adapter of the Spanner migration tool, in Dafny

This project models the deterministic core of the PostgreSQL adapter of
spanner-migration-tool (`sources/postgres/infoschema.go`). It covers the
rules that turn information-schema rows and table data rows into the tool's
schema model and into target rows. The model has three parts.

- **Row conversion.** `convertSQLRow` converts one scanned row (`RowConversion`). It:
  - skips NULL slots;
  - fails on a column id that is missing from either schema;
  - converts every other slot through `cvtSQLScalar` / `cvtSQLArray` (`ScalarConversion`);
  - appends the synthetic key of key-less tables (`SyntheticKeys`, `Bits64`).

  The `ProcessData` loop drives it over a table's rows, counting, sampling
  and skipping bad rows. The per-table synthetic-key counter lives in the
  `Conv` class, which the methods update in place.
- **Schema building.** The module `Catalog` covers `toType`, `GetConstraints`
  and `GetColumns`. The modules `ForeignKeys` and `Indexes` hold the
  group-by-name folds of `GetForeignKeys` (emitted sorted by name, through
  `Grouping.SortStrings`) and `GetIndexes` (first-seen order, through
  `Grouping.DistinctInOrder`).
- **Name qualification** (`Naming`):
  - the `IsSchemaUnique` flag of the `InfoSchema` class and `populateSchemaIsUnique`;
  - `GetTableName`;
  - the system-schema filter of `GetTables`;
  - the schema-prefix stripping of `GetRowsFromTable`.

How the outside world is represented:

- **Query results.** Every catalog query is an input value: the query's
  error, or the rows in arrival order, each a failed scan or the scanned
  fields (`Catalog.Query`). The data query of `ProcessData` is a
  `RowConversion.Cursor` of `ScanError` / `Scanned(values)` steps.
- **Driver values.** The untyped driver slots are the tagged union
  `Values.SqlValue`. The Go values handed to the data sink are
  `Values.SpValue`.
- **Helpers in other files.** The parsers `convBool`, `convInt64`,
  `convFloat32`/`convFloat64`, `convDate`, `convNumeric`, `convTimestamp` and
  `convArray`, plus float narrowing/widening/truncation and formatting,
  `civil.DateOf`, `time.Time.String`, `common.PrepareValues` and
  `common.ToNotNull`, are not part of this model. They appear as total
  functions in the parameter `Values.Helpers`.
- **Id generators.** The `internal.Generate*Id` generators are a counter
  threaded through the methods (`nextId` in, `nextId'` out). Ids are a kind
  prefix followed by the counter's decimal value.
- **Diagnostics.** `conv.Unexpected` calls in the catalog readers are
  returned as an `anomalies` count. In `ProcessData` they are counted in
  `Conv.unexpecteds`.

## Model

| member | source | states |
|---|---|---|
| Naming.SchemaSet | sources/postgres/infoschema.go:50-54 | every table's schema is in the set and every member of the set is some table's schema |
| Naming.SchemaSetSingletonIff | sources/postgres/infoschema.go:55-59 | exactly one distinct schema iff the list is non-empty and every table shares the first one's schema (so an empty list gives false) |
| Naming.InfoSchema.PopulateSchemaIsUnique | sources/postgres/infoschema.go:50-60 | the flag becomes true exactly when the list holds one distinct schema |
| Naming.InfoSchema.GetTableName | sources/postgres/infoschema.go:117-124 | the bare name exactly when the schema is unique or is "public", otherwise "schema.table" |
| Naming.KeptTables | sources/postgres/infoschema.go:263-281 | the filter never returns more tables than were listed |
| Naming.KeptTablesMembers | sources/postgres/infoschema.go:276-281 | a table is kept iff it was listed and its schema is not one of the six system schemas |
| Naming.KeptTablesAppend | sources/postgres/infoschema.go:276-281 | the filter preserves arrival order: filtering a concatenation concatenates the filtered parts |
| Naming.KeptTablesNoSystem | sources/postgres/infoschema.go:276-281 | a listing without system schemas passes unchanged and in order |
| Naming.InfoSchema.GetTables | sources/postgres/infoschema.go:262-284 | a failed listing query is an error and leaves the flag alone; otherwise the kept tables are returned and the flag is set from them |
| Naming.StripSchemaPrefix | sources/postgres/infoschema.go:131-137 | with a leading "schema." the result is the rest of the name, otherwise the name itself |
| Naming.DataQueryTarget | sources/postgres/infoschema.go:131-138 | the data query reads the table's own schema, under its stored name less a leading "schema." when there is one and the stored name itself otherwise; a missing table id reads as the empty schema and name |
| Naming.StripGetTableName | sources/postgres/infoschema.go:117-137 | stripping the stored name gives back the bare table name whenever it was qualified, or the bare name does not itself begin with "schema." |
| Naming.DataQueryTargetRoundTrip | sources/postgres/infoschema.go:117-138 | a table stored under the name `GetTableName` gave it is queried as its own schema and bare name, unless the schema is unique or "public" and the bare name itself begins with "schema." |
| Naming.StripDottedBareName | sources/postgres/infoschema.go:118-137 | with a unique schema "s", a table named "s.x" is stored bare and then read back as table "x" |
| Catalog.ScanFailures | sources/postgres/infoschema.go:303-307 | every row either fails to scan (and is reported) or is scanned |
| Catalog.GeneratedIdInjective | sources/postgres/infoschema.go:322-331 | ids drawn from different counter values differ |
| Catalog.ToType | sources/postgres/infoschema.go:511-526 | first match wins: an array with a known element type gives that type with bounds [-1]; else a char length gives [len]; else precision with non-zero scale gives [p, s]; else precision gives [p]; else no modifiers. Each case is stated in both directions |
| Catalog.ToTypeExamples | sources/postgres/infoschema_test.go:178-198 | the types of column rows of the adapter's tests: arrays of integer and of text take the element type with bounds [-1]; character varying has [6] with a length and no modifiers without one; bigint and integer with scale 0 keep only their precision; double precision keeps 53; numeric without precision has no modifiers |
| Catalog.ColumnIgnored | sources/postgres/infoschema.go:309-321 | `Check` iff one of the column's constraints is "CHECK"; `Default` iff a default is present |
| Catalog.PrimaryKeyCols | sources/postgres/infoschema.go:360-366 | a column is a primary-key column iff a usable row gives it "PRIMARY KEY" |
| Catalog.OtherConstraints | sources/postgres/infoschema.go:360-368 | a constraint is listed for a column iff a usable non-primary-key row gives it that constraint |
| Catalog.PrimaryKeyColsAppend | sources/postgres/infoschema.go:355-366 | the primary-key columns keep catalog order: the columns of a concatenation are those of the first part followed by those of the second |
| Catalog.PrimaryKeyColsOne | sources/postgres/infoschema.go:359-366 | one row contributes its column exactly when it is usable and its constraint is "PRIMARY KEY" |
| Catalog.OtherConstraintsAppend | sources/postgres/infoschema.go:355-368 | a column's other constraints keep catalog order across a concatenation of rows |
| Catalog.OtherConstraintsOne | sources/postgres/infoschema.go:359-368 | one row contributes its constraint to its own column exactly when it is usable and not "PRIMARY KEY" |
| Catalog.GetConstraints | sources/postgres/infoschema.go:340-372 | a query error is returned as is; otherwise the primary keys in catalog order, a map holding exactly the columns with other constraints, and one anomaly per failed scan or empty field |
| Catalog.FoldConstraintRow | sources/postgres/infoschema.go:359-369 | one scanned row keeps the fold equal to the catalog functions; the row is skipped, and counted as empty, iff its column or its constraint is empty |
| Catalog.CheckFlagFromCatalog | sources/postgres/infoschema.go:310-368 | a column gets the ignored-check flag iff it is non-empty and a catalog row puts "CHECK" on it |
| Catalog.BuildColumn | sources/postgres/infoschema.go:309-329 | the built column has the fresh id, the catalog name and the two ignored flags as the catalog says |
| Catalog.ColumnIdsDistinct | sources/postgres/infoschema.go:322-331 | ids drawn from consecutive counter values never repeat |
| Catalog.ColumnsBuiltStep | sources/postgres/infoschema.go:322-331 | adding a column under the next id keeps ids, keys and definitions in step |
| Catalog.GetColumns | sources/postgres/infoschema.go:287-334 | one column per scanned row in ordinal order, under consecutive distinct ids; the map's keys are exactly the ids; the counter moves by the number of columns; one anomaly per failed scan |
| Catalog.AddColumn | sources/postgres/infoschema.go:309-331 | one scanned row adds its built column under the id of the next counter value, keeping ids, keys and definitions in step |
| Grouping.DistinctInOrder | sources/postgres/infoschema.go:492-493 | the distinct names, without repeats, each present iff it occurs |
| Grouping.DistinctInOrderFirstSeen | sources/postgres/infoschema.go:492-493 | the names come in the order of their first occurrence |
| Grouping.DistinctInOrderSnoc | sources/postgres/infoschema.go:492-493 | a new name is appended at the end, and a name already seen changes nothing |
| Grouping.LessEqTotal | sources/postgres/infoschema.go:428 | the byte-wise order compares any two names |
| Grouping.LessEqAntisymmetric | sources/postgres/infoschema.go:428 | two names ordered both ways are equal |
| Grouping.LessEqTransitive | sources/postgres/infoschema.go:428 | the byte-wise order is transitive |
| Grouping.Insert | sources/postgres/infoschema.go:428 | inserting into a sorted list gives a sorted list with one more copy of the element |
| Grouping.SortStrings | sources/postgres/infoschema.go:428 | the result is sorted and a permutation of the input |
| Grouping.SortDistinct | sources/postgres/infoschema.go:428 | sorting distinct names gives the same names, strictly increasing |
| ForeignKeys.RowsNamed | sources/postgres/infoschema.go:415-419 | the rows of one constraint, all from the input and of that name, at least one when the name occurs |
| ForeignKeys.Merged | sources/postgres/infoschema.go:414-425 | the merged constraint has its name, and column lists of equal, non-zero length |
| ForeignKeys.MergedTakesFirstRow | sources/postgres/infoschema.go:415-424 | the referenced table and the delete/update rules come from the row where the name first appears; the later assignments are dead |
| ForeignKeys.MergedSnoc | sources/postgres/infoschema.go:414-425 | one more row appends its column pair to its own constraint, opens a new one if its name is new, and leaves every other constraint unchanged |
| ForeignKeys.MergedStep | sources/postgres/infoschema.go:408-426 | one loop iteration keeps the map equal to the merged constraints and the name list in first-seen order |
| ForeignKeys.MergedStepFor | sources/postgres/infoschema.go:414-425 | after one row, each constraint in the map is the merge of the rows with its name |
| ForeignKeys.FoldRow | sources/postgres/infoschema.go:414-425 | one scanned row keeps the map equal to the merged constraints and the name list in first-seen order |
| ForeignKeys.MergeRows | sources/postgres/infoschema.go:408-426 | after the scan loop, the map and the name list are the merge of the scanned rows; one anomaly per failed scan |
| ForeignKeys.ToForeignKey | sources/postgres/infoschema.go:430-439 | the emitted key carries the merged constraint's name, table, columns and rules under its id |
| ForeignKeys.SortedNames | sources/postgres/infoschema.go:428 | the emitted names are exactly the constraint names, strictly increasing byte-wise |
| ForeignKeys.GetForeignKeys | sources/postgres/infoschema.go:375-442 | a query error is returned as is; otherwise one key per constraint name in sorted order, each the merge of that name's rows, with consecutive ids |
| ForeignKeys.EmitForeignKeys | sources/postgres/infoschema.go:428-440 | the k-th key is the k-th sorted name's constraint under the k-th id |
| Indexes.RowsOfIndex | sources/postgres/infoschema.go:499-503 | the rows of one index, all from the input and of that name, at least one when the name occurs |
| Indexes.KeyOf | sources/postgres/infoschema.go:500-502 | descending iff the order is "DESC"; the column's id, or the empty id for an unknown column |
| Indexes.KeysOf | sources/postgres/infoschema.go:499-503 | one key per row of the index, in row order (the position column plays no part) |
| Indexes.Merged | sources/postgres/infoschema.go:492-503 | the merged index has its id and name and at least one key, and is unique iff its first row says "true" |
| Indexes.MergedTakesFirstRow | sources/postgres/infoschema.go:492-498 | uniqueness is decided by the row where the index name first appears |
| Indexes.MergedOther | sources/postgres/infoschema.go:499-503 | a row of another index leaves an index unchanged |
| Indexes.MergedSame | sources/postgres/infoschema.go:499-503 | a further row of an index appends its key |
| Indexes.MergedNew | sources/postgres/infoschema.go:492-503 | the first row of a name opens an index with that row's uniqueness and key |
| Indexes.MergedStepAt | sources/postgres/infoschema.go:492-503 | after one row, the k-th name's entry is the merge of its rows under the k-th id |
| Indexes.MergedStep | sources/postgres/infoschema.go:487-504 | one loop iteration keeps the map equal to the merged indexes and the name list in first-seen order |
| Indexes.FoldRow | sources/postgres/infoschema.go:492-503 | a new name opens an empty index under the next id, then the row's key is appended; the counter moves only for a new name |
| Indexes.MergeRow | sources/postgres/infoschema.go:492-503 | one scanned row keeps the map equal to the merged indexes; the counter stays the first id plus the number of names |
| Indexes.MergeRows | sources/postgres/infoschema.go:487-504 | after the scan loop, the map and the name list are the merge of the scanned rows; one anomaly per failed scan |
| Indexes.EmitIndexes | sources/postgres/infoschema.go:505-507 | the k-th index is the map's entry for the k-th name |
| Indexes.GetIndexes | sources/postgres/infoschema.go:448-509 | a query error is returned as is; otherwise one index per name in first-seen order, each the merge of its rows under consecutive ids |
| Indexes.IndexesFirstSeenOrder | sources/postgres/infoschema.go:487-507 | the emitted names are exactly the index names, without repeats, in order of first appearance |
| ScalarConversion.CvtSqlScalar | sources/postgres/infoschema.go:552-656 | a value converts only if its (target, kind) pair is in the acceptance matrix, and any other pair is a type mismatch; int64 to INT64, bytes to BYTES and string to STRING pass unchanged; STRING renders an int64 as text that parses back to it, and a bool as "true" exactly when true; STRING and JSON keep a byte slice's bytes |
| ScalarConversion.CvtSqlScalarOkIff | sources/postgres/infoschema.go:552-656 | a value converts iff its (target, kind) pair is in the acceptance matrix and the parser that pair calls, if any, accepts the value |
| ScalarConversion.CvtSqlScalarPassThrough | sources/postgres/infoschema.go:552-656 | bool to BOOL, bytes to BYTES, int64 to INT64, float32 to FLOAT32, float64 to FLOAT64, string to STRING and JSON, and time to TIMESTAMP are returned unchanged |
| ScalarConversion.CvtSqlArray | sources/postgres/infoschema.go:528-534 | an array value that is not a byte slice is an error |
| ScalarConversion.ValsToStrings | sources/postgres/infoschema.go:670-686 | one text per slot; NULL renders as "NULL", a string as itself and a bool as "true" / "false" |
| ScalarConversion.ValsToStringsBytes | sources/postgres/infoschema.go:679 | a byte slice renders as Go's `%v` list of its byte values: [1, 2, 3] gives "[1 2 3]" and an empty slice "[]" |
| ScalarConversion.ValsToStringsIntegers | sources/postgres/infoschema.go:670-686 | an int64 slot renders as text that parses back to the same integer |
| SyntheticKeys.SyntheticKeyValue | sources/postgres/infoschema.go:231 | the key text of a counter value is never empty |
| SyntheticKeys.SyntheticKeyParses | sources/postgres/infoschema.go:231 | the key text is the decimal text of the counter's 64 bits, reversed and read as an int64: it parses back to exactly that integer |
| SyntheticKeys.SyntheticKeySign | sources/postgres/infoschema.go:231 | the counter's lowest bit becomes the key's sign: the key of an odd counter value starts with '-', that of an even one does not |
| SyntheticKeys.NextSequence | sources/postgres/infoschema.go:232 | the counter's increment wraps around modulo 2^64 |
| SyntheticKeys.SequenceAfterStep | sources/postgres/infoschema.go:232 | the counter after k+1 increments is one increment after k |
| SyntheticKeys.SequenceAfterInjective | sources/postgres/infoschema.go:232 | fewer than 2^64 increments from one start never reach the same counter value twice |
| SyntheticKeys.SyntheticKeyInjective | sources/postgres/infoschema.go:231 | different counter values never give the same key text |
| SyntheticKeys.SyntheticKeyExamples | sources/postgres/infoschema.go:231 | counter 0 gives "0"; counter 1 gives the decimal text of the minimum int64 |
| Bits64.Reverse64 | sources/postgres/infoschema.go:231 | bit i of the result is bit 63-i of the input |
| Bits64.Reverse64Involution | sources/postgres/infoschema.go:231 | reversing twice gives the input back |
| Bits64.Reverse64Injective | sources/postgres/infoschema.go:231 | different inputs reverse to different outputs |
| Bits64.AsSigned | sources/postgres/infoschema.go:231 | the int64 with the same 64 bits, negative iff the top bit is set |
| Bits64.AsUnsigned | sources/postgres/infoschema.go:231 | the uint64 with the same 64 bits, undone by the signed reading |
| Bits64.Reverse64Zero | sources/postgres/infoschema.go:231 | reversing 0 gives 0 |
| Bits64.Reverse64One | sources/postgres/infoschema.go:231 | reversing 1 gives 2^63, the top bit |
| Bits64.TopBit | sources/postgres/infoschema.go:231 | the top one of k bits is set exactly when the number is at least 2^(k-1), which is what makes a uint64 read as a negative int64 |
| Decimal.FormatInt | sources/postgres/infoschema.go:231 | the decimal text is never empty and starts with '-' exactly when the integer is negative |
| Decimal.ParseFormatInt | sources/postgres/infoschema.go:630 | base-10 text of an integer parses back to it |
| Decimal.FormatIntInjective | sources/postgres/infoschema.go:231 | different integers have different decimal texts |
| RowConversion.NonNullPositions | sources/postgres/infoschema.go:213-214 | the positions of the non-NULL slots, increasing, and every one of them |
| RowConversion.ConvertCols | sources/postgres/infoschema.go:207-228 | on success, names and values of equal length, at most one per slot |
| RowConversion.ConvertColsLength | sources/postgres/infoschema.go:213-227 | on success, exactly one name and one value per non-NULL slot |
| RowConversion.ConvertColsStepOk | sources/postgres/infoschema.go:207-228 | a row converts iff its earlier columns convert and its last column does |
| RowConversion.ConvertColsStep | sources/postgres/infoschema.go:207-228 | when the earlier columns convert, the last column either is NULL and adds nothing, or appends its target name and converted value |
| RowConversion.ConvertColsOkIff | sources/postgres/infoschema.go:207-228 | a row converts iff every column has both definitions and each non-NULL value converts |
| RowConversion.ConvertColsFirstError | sources/postgres/infoschema.go:207-224 | the first failing column decides the error; a missing definition is reported even for a NULL slot |
| RowConversion.ConvertColsContent | sources/postgres/infoschema.go:213-227 | the k-th output is the target name and converted value of the k-th non-NULL slot, in column order |
| RowConversion.ConvertColsPrefixError | sources/postgres/infoschema.go:210-224 | an error on the first columns is the error of the whole row |
| RowConversion.ConvertColumns | sources/postgres/infoschema.go:207-228 | the column loop returns exactly the row conversion function's result |
| RowConversion.ConvertColumn | sources/postgres/infoschema.go:208-227 | one column step extends the converted prefix by one column |
| RowConversion.ConvertSqlRowShape | sources/postgres/infoschema.go:204-236 | the row converts iff its columns convert; on success the columns' converted names and values come first, the key name and key text come last, and the table's counter moves by exactly one; a table with its own primary key gets exactly the columns' output; on error, or for a table with its own primary key, the counters stay; other tables' counters never change |
| RowConversion.ConvertSqlRow | sources/postgres/infoschema.go:204-236 | the result and the new counters are those of the row conversion function |
| RowConversion.AddBadRow | sources/postgres/infoschema.go:182 | one more bad row for this table and none for any other |
| RowConversion.RowStepAccounting | sources/postgres/infoschema.go:177-193 | each row is written once, or counted once as bad and unexpected with a sample unless the scan failed |
| RowConversion.AccountedStep | sources/postgres/infoschema.go:177-194 | the accounting of one row followed by that of the rest is the accounting of all of them |
| RowConversion.ProcessRowsAccounting | sources/postgres/infoschema.go:177-194 | the loop never stops early: written plus bad equals the rows; samples equal bad rows less scan errors; unexpecteds equal bad rows; earlier output stays |
| RowConversion.ProcessRowsFrame | sources/postgres/infoschema.go:177-194 | other tables' bad-row counts and synthetic keys are untouched |
| RowConversion.RowStepKeys | sources/postgres/infoschema.go:185-193 | for a key-less table a row uses up a key exactly when it scans and converts, and is written, carrying the current key last, exactly when its preparation also succeeded |
| RowConversion.KeyedAtStep | sources/postgres/infoschema.go:185-193 | one row followed by the rest of the pass: the keys used add up, and the row's offset 0 comes before the rest's offsets shifted by the keys the row used |
| RowConversion.KeyedAtStepAt | sources/postgres/infoschema.go:229-233 | the k-th row of that combined pass carries the key its offset names, counted from the counter before the row |
| RowConversion.KeyedAtShifted | sources/postgres/infoschema.go:232 | a row keyed from the counter after one increment is keyed one offset further from the counter before it |
| RowConversion.KeyedAtFirst | sources/postgres/infoschema.go:229-231 | the row just written keeps its key, at offset 0, once later rows are appended |
| RowConversion.ShiftedElement | sources/postgres/infoschema.go:185-193 | the k-th offset of a row followed by the rest of the pass, by position |
| RowConversion.KeyedAtEmpty | sources/postgres/infoschema.go:177-194 | no rows use up no keys and write nothing |
| RowConversion.ProcessRowsKeys | sources/postgres/infoschema.go:177-194 | for a key-less table, the counter ends advanced by the number of rows that converted, and the k-th row written carries, last, the key of the counter's value its k-th offset after the start |
| RowConversion.KeyOffsetsIncreasing | sources/postgres/infoschema.go:185-193 | the offsets of the written rows are strictly increasing and below the number of keys used |
| RowConversion.KeyOffsetsNoPrepareFailure | sources/postgres/infoschema.go:185-193 | when value preparation never fails, every row that uses up a key is written and the k-th one has offset k |
| RowConversion.ProcessRowsDistinctKeys | sources/postgres/infoschema.go:177-233 | the rows a pass writes for a key-less table end in pairwise distinct keys, as long as the pass uses up no more than 2^64 keys |
| RowConversion.KeyedAtDistinct | sources/postgres/infoschema.go:229-232 | rows keyed at strictly increasing offsets below 2^64 end in pairwise distinct keys |
| RowConversion.KeyedAtConsecutive | sources/postgres/infoschema.go:229-232 | rows keyed at offsets 0, 1, 2, ... carry the keys of consecutive counter values, and the counter ends advanced by the number of rows |
| RowConversion.ProcessRowsSyntheticKeys | sources/postgres/infoschema.go:177-194 | when `common.PrepareValues` never reports an error (`PrepareNeverFails`), the k-th row written carries the key of the counter's k-th value, and the counter ends advanced by the number of rows written |
| RowConversion.SequenceAfterShift | sources/postgres/infoschema.go:232 | counting from the next value is counting one further from this one |
| RowConversion.PrepareFailureConsumesKey | sources/postgres/infoschema.go:185-191 | a row whose value preparation fails after a successful conversion is not written, leaves a sample, and still uses up a key |
| RowConversion.ProcessData | sources/postgres/infoschema.go:165-196 | a failed data query is one unexpected condition and the error; otherwise the new state is the row loop's fold over the cursor |
| RowConversion.ProcessRow | sources/postgres/infoschema.go:177-193 | one loop iteration leaves the schemas alone and moves the state by the row step function |

## Left out

- `StartChangeDataCapture` and `StartStreamingMigration` (sources/postgres/infoschema.go:64-109) are left out. They provision cloud streaming resources.
- `GetRowCount`, `GetToDdl`, the SQL texts, `Db.Query`, `rows.Next`, `rows.Close` and `rows.Columns` are driver I/O and are left out. Result sets are inputs.
- `buildVals` is left out. It allocates the scan slots, which are the scanned values here.
- A failed `rows.Scan` is modelled as a row that fills no fields. A partial fill of the scan variables is not modelled.
- `Naming.InfoSchema.GetTables`: `GetTables` ignores scan errors, so its input is the contents of the scan variables after each scan.
- The parsers `convBool`, `convInt64`, `convFloat32`, `convFloat64`, `convDate`, `convNumeric`, `convTimestamp` and `convArray` are parameters (`Values.Helpers`), together with the float conversions, `civil.DateOf` and `time.Time.String`. They live in files that are not part of this model, or are floating-point and time-zone semantics.
- `common.PrepareValues` and `common.ToNotNull` are parameters too. `ProcessData` relies on the prepared row holding one value per column id, which is stated as `PreparesEveryColumn`. `PrepareValues` takes the table id, the column ids, the source column names and the scanned values. Its `conv` and `colNameIdMap` arguments are not passed separately, because both are fixed by the table id within one `ProcessData` call.
- `RowConversion.ProcessRowsSyntheticKeys` (consecutive keys, one per written row) holds only when `PrepareValues` never reports an error. A row whose preparation fails after its conversion succeeded uses up a key without being written (`PrepareFailureConsumesKey`). For that case, `ProcessRowsKeys`, `KeyOffsetsIncreasing` and `ProcessRowsDistinctKeys` state what holds in general: the written rows' keys come at strictly increasing counter offsets and are pairwise distinct.
- The bodies of `conv.WriteRow`, `conv.StatsAddBadRow`, `conv.CollectBadRow` and `conv.Unexpected` are not part of this model. Written rows and samples are appended to sequences, bad rows are counted per table, and unexpected conditions are counted. The `conv.DataMode()` flag that `ProcessData` passes to `StatsAddBadRow` (sources/postgres/infoschema.go:182, 189) is dropped: every bad row is counted, as during the data pass. Any cap on the number of samples kept is not modelled.
- The text of error and diagnostic messages is not modelled. Errors are `Values.Error` constructors.
- The `ToDdl` type mapping and the Widened / DefaultValue issues it raises are not part of this model.
- `internal.GenerateColumnId`, `GenerateForeignkeyId` and `GenerateIndexesId` are not part of this model. The ids are a prefix ("c", "f", "i") and a threaded decimal counter, so only their freshness and order are meaningful.
- `Catalog.GetConstraints` leaves out the check-constraint list, which is always nil in this adapter.
- `Catalog.GetColumns` leaves out the `primaryKeys` parameter, which it never reads.
- `SyntheticKeys.SyntheticKeyExamples` gives counter 1's key as `FormatInt(-9223372036854775808)`, and proves that this text parses back to that integer, rather than spelling out the digits.
