/**
 * Reading the information schema of one table into the source schema:
 * column types (`toType`), constraints (`GetConstraints`) and columns
 * (`GetColumns`). Every catalog query is given as its outcome: the query
 * error, or the rows in arrival order, each either a failed scan or the
 * scanned values.
 */
module Catalog {
  import opened Wrappers
  import opened Decimal
  import opened Schema
  import opened Values

  /** One `rows.Scan` of a catalog row. */
  datatype Scan<T> = ScanFailed | Row(value: T)

  /** The result of `Db.Query`: the driver's error text, or the rows in arrival order. */
  type Query<T> = Result<seq<Scan<T>>, string>

  /** The rows that scanned, in arrival order. */
  function Scanned<T>(scans: seq<Scan<T>>): (r: seq<T>)
    ensures |r| <= |scans|
  {
    if scans == [] then [] else
      var last := scans[|scans| - 1];
      Scanned(scans[..|scans| - 1]) + (if last.Row? then [last.value] else [])
  }

  /** The rows whose scan failed; each is reported as unexpected. */
  function ScanFailures<T>(scans: seq<Scan<T>>): (n: nat)
    ensures n + |Scanned(scans)| == |scans|
  {
    if scans == [] then 0 else
      ScanFailures(scans[..|scans| - 1]) + (if scans[|scans| - 1].Row? then 0 else 1)
  }

  /** One more row at the end of the result set. */
  lemma ScannedSnoc<T>(scans: seq<Scan<T>>, s: Scan<T>)
    ensures Scanned(scans + [s]) == Scanned(scans) + (if s.Row? then [s.value] else [])
    ensures ScanFailures(scans + [s]) == ScanFailures(scans) + (if s.Row? then 0 else 1)
  {
    assert (scans + [s])[..|scans|] == scans;
  }

  /**
   * The ids the `internal.Generate*Id` functions hand out: a kind prefix
   * followed by the decimal value of a counter that moves on by one per id.
   */
  function GeneratedId(prefix: string, n: nat): (id: string)
    ensures |id| > |prefix| && id[..|prefix|] == prefix
  {
    prefix + NatToDecimal(n)
  }

  /** Different counter values give different ids. */
  lemma GeneratedIdInjective(prefix: string, m: nat, n: nat)
    requires GeneratedId(prefix, m) == GeneratedId(prefix, n)
    ensures m == n
  {
    assert NatToDecimal(m) == GeneratedId(prefix, m)[|prefix|..];
    assert NatToDecimal(n) == GeneratedId(prefix, n)[|prefix|..];
    NatToDecimalInjective(m, n);
  }

  function ColumnId(n: nat): string { GeneratedId("c", n) }

  /**
   * `toType`: an array with a known element type becomes that element type
   * with bounds [-1]; otherwise the first of character length, precision
   * with a non-zero scale, and precision alone that is present gives the
   * modifiers, and a type with none of them has no modifiers.
   */
  function ToType(dataType: string, elementDataType: Option<string>, charLen: Option<int>,
                  numericPrecision: Option<int>, numericScale: Option<int>): (t: SrcType)
    ensures var isArray := dataType == "ARRAY" && elementDataType.Some?;
            var scaled := numericPrecision.Some? && numericScale.Some? && numericScale.value != 0;
            && (|t.arrayBounds| > 0 <==> isArray)
            && (isArray ==> t == SrcType(elementDataType.value, [], [-1]))
            && (!isArray ==> t.name == dataType && t.arrayBounds == [])
            && (|t.mods| == 2 <==> !isArray && charLen.None? && scaled)
            && (|t.mods| == 1 <==> !isArray && (charLen.Some? || (numericPrecision.Some? && !scaled)))
            && (|t.mods| == 0 <==> isArray || (charLen.None? && numericPrecision.None?))
            && (|t.mods| == 2 ==> t.mods == [numericPrecision.value, numericScale.value])
            && (|t.mods| == 1 ==> t.mods == [if charLen.Some? then charLen.value else numericPrecision.value])
  {
    if dataType == "ARRAY" && elementDataType.Some? then SrcType(elementDataType.value, [], [-1])
    else if charLen.Some? then SrcType(dataType, [charLen.value], [])
    else if numericPrecision.Some? && numericScale.Some? && numericScale.value != 0 then
      SrcType(dataType, [numericPrecision.value, numericScale.value], [])
    else if numericPrecision.Some? then SrcType(dataType, [numericPrecision.value], [])
    else SrcType(dataType, [], [])
  }

  /** The column types of the catalog rows of the adapter's own tests. */
  lemma ToTypeExamples()
    ensures ToType("ARRAY", Some("integer"), None, None, None) == SrcType("integer", [], [-1])
    ensures ToType("ARRAY", Some("text"), None, None, None) == SrcType("text", [], [-1])
    ensures ToType("character varying", None, Some(6), None, None) == SrcType("character varying", [6], [])
    ensures ToType("character varying", None, None, None, None) == SrcType("character varying", [], [])
    ensures ToType("bigint", None, None, Some(64), Some(0)) == SrcType("bigint", [64], [])
    ensures ToType("integer", None, None, Some(32), Some(0)) == SrcType("integer", [32], [])
    ensures ToType("double precision", None, None, Some(53), None) == SrcType("double precision", [53], [])
    ensures ToType("numeric", None, None, None, None) == SrcType("numeric", [], [])
  {
  }

  /** Go's read of a missing key of a map of lists: the empty list. */
  function ConstraintsOf(constraints: map<string, seq<string>>, col: string): seq<string> {
    if col in constraints then constraints[col] else []
  }

  /**
   * The `Ignored` flags of a column: `Check` when one of its constraints is
   * "CHECK", `Default` when the catalog gives it a default.
   */
  method ColumnIgnored(constraints: map<string, seq<string>>, colName: string, hasDefault: bool)
    returns (ignored: Ignored)
    ensures ignored.check <==> "CHECK" in ConstraintsOf(constraints, colName)
    ensures ignored.default == hasDefault
  {
    var cs := ConstraintsOf(constraints, colName);
    ignored := Ignored(false, false);
    var i := 0;
    while i < |cs|
      invariant 0 <= i <= |cs|
      invariant ignored.check <==> "CHECK" in cs[..i]
      invariant !ignored.default
    {
      assert cs[..i + 1] == cs[..i] + [cs[i]];
      if cs[i] == "CHECK" {
        ignored := ignored.(check := true);
      }
      i := i + 1;
    }
    assert cs[..i] == cs;
    ignored := ignored.(default := hasDefault);
  }

  // ---------------------------------------------------------------- constraints

  /** A row of the key-column-usage query: a column and the type of a constraint on it. */
  datatype ConstraintRow = ConstraintRow(col: string, constraint: string)

  /** Rows with an empty column or constraint are reported and skipped. */
  predicate UsableConstraint(r: ConstraintRow) {
    r.col != "" && r.constraint != ""
  }

  /** The primary-key columns, in catalog (ordinal) order. */
  function PrimaryKeyCols(rows: seq<ConstraintRow>): (pks: seq<string>)
    ensures forall c :: c in pks <==> exists r :: r in rows && UsableConstraint(r) && r.constraint == "PRIMARY KEY" && r.col == c
  {
    if rows == [] then [] else
      var prefix, last := rows[..|rows| - 1], rows[|rows| - 1];
      assert rows == prefix + [last];
      PrimaryKeyCols(prefix) + (if UsableConstraint(last) && last.constraint == "PRIMARY KEY" then [last.col] else [])
  }

  /** The constraints other than the primary key on column `col`, in catalog order. */
  function OtherConstraints(rows: seq<ConstraintRow>, col: string): (cs: seq<string>)
    ensures forall c :: c in cs <==> exists r :: r in rows && UsableConstraint(r) && r.constraint != "PRIMARY KEY" && r.col == col && r.constraint == c
  {
    if rows == [] then [] else
      var prefix, last := rows[..|rows| - 1], rows[|rows| - 1];
      assert rows == prefix + [last];
      OtherConstraints(prefix, col) +
        (if UsableConstraint(last) && last.constraint != "PRIMARY KEY" && last.col == col then [last.constraint] else [])
  }

  /**
   * The primary-key columns keep catalog order and multiplicity: the rows
   * of a concatenation give the columns of the first part, then those of
   * the second.
   */
  lemma {:induction false} PrimaryKeyColsAppend(a: seq<ConstraintRow>, b: seq<ConstraintRow>)
    ensures PrimaryKeyCols(a + b) == PrimaryKeyCols(a) + PrimaryKeyCols(b)
    decreases |b|
  {
    if b == [] {
      assert a + b == a;
    } else {
      var b' := b[..|b| - 1];
      assert (a + b)[..|a + b| - 1] == a + b';
      PrimaryKeyColsAppend(a, b');
    }
  }

  /** A single row gives its column exactly when it is a usable primary-key row. */
  lemma PrimaryKeyColsOne(r: ConstraintRow)
    ensures PrimaryKeyCols([r]) == if UsableConstraint(r) && r.constraint == "PRIMARY KEY" then [r.col] else []
  {
    assert [r][..0] == [];
  }

  /** Each column's other constraints keep catalog order and multiplicity, as for the primary keys. */
  lemma {:induction false} OtherConstraintsAppend(a: seq<ConstraintRow>, b: seq<ConstraintRow>, col: string)
    ensures OtherConstraints(a + b, col) == OtherConstraints(a, col) + OtherConstraints(b, col)
    decreases |b|
  {
    if b == [] {
      assert a + b == a;
    } else {
      var b' := b[..|b| - 1];
      assert (a + b)[..|a + b| - 1] == a + b';
      OtherConstraintsAppend(a, b', col);
    }
  }

  /** A single row gives its constraint to its own column exactly when it is usable and not a primary key. */
  lemma OtherConstraintsOne(r: ConstraintRow, col: string)
    ensures OtherConstraints([r], col) ==
            if UsableConstraint(r) && r.constraint != "PRIMARY KEY" && r.col == col then [r.constraint] else []
  {
    assert [r][..0] == [];
  }

  /** Rows skipped for an empty column or constraint. */
  function EmptyConstraintRows(rows: seq<ConstraintRow>): (n: nat)
    ensures n <= |rows|
  {
    if rows == [] then 0 else
      EmptyConstraintRows(rows[..|rows| - 1]) + (if UsableConstraint(rows[|rows| - 1]) then 0 else 1)
  }

  /** What `GetConstraints` returns when its query succeeds (the check-constraint list is always nil). */
  datatype Constraints = Constraints(primaryKeys: seq<string>, others: map<string, seq<string>>)

  /** `primaryKeys` and `others` hold what `rows` say. */
  ghost predicate ConstraintsFolded(rows: seq<ConstraintRow>, primaryKeys: seq<string>, others: map<string, seq<string>>) {
    && primaryKeys == PrimaryKeyCols(rows)
    && (forall c :: c in others <==> OtherConstraints(rows, c) != [])
    && (forall c :: c in others ==> others[c] == OtherConstraints(rows, c))
  }

  /**
   * `GetConstraints`: the primary-key columns in order, and for every other
   * column the list of its other constraint types; `anomalies` counts the
   * rows reported as unexpected (failed scans and empty fields).
   */
  method GetConstraints(query: Query<ConstraintRow>) returns (r: Result<Constraints, string>, anomalies: nat)
    ensures query.Err? ==> r == Err(query.error) && anomalies == 0
    ensures query.Ok? ==>
              var rows := Scanned(query.value);
              && r.Ok?
              && r.value.primaryKeys == PrimaryKeyCols(rows)
              && (forall c :: c in r.value.others <==> OtherConstraints(rows, c) != [])
              && (forall c :: c in r.value.others ==> r.value.others[c] == OtherConstraints(rows, c))
              && anomalies == ScanFailures(query.value) + EmptyConstraintRows(rows)
  {
    if query.Err? {
      return Err(query.error), 0;
    }
    var scans := query.value;
    var primaryKeys: seq<string> := [];
    var m: map<string, seq<string>> := map[];
    ghost var rows: seq<ConstraintRow> := [];
    anomalies := 0;
    var i := 0;
    while i < |scans|
      invariant 0 <= i <= |scans|
      invariant rows == Scanned(scans[..i])
      invariant ConstraintsFolded(rows, primaryKeys, m)
      invariant anomalies == ScanFailures(scans[..i]) + EmptyConstraintRows(rows)
    {
      assert scans[..i + 1] == scans[..i] + [scans[i]];
      ScannedSnoc(scans[..i], scans[i]);
      if scans[i].ScanFailed? {
        anomalies := anomalies + 1;
      } else {
        var row := scans[i].value;
        var skipped;
        primaryKeys, m, skipped := FoldConstraintRow(rows, primaryKeys, m, row);
        if skipped {
          anomalies := anomalies + 1;
        }
        rows := rows + [row];
      }
      i := i + 1;
    }
    assert scans[..i] == scans;
    return Ok(Constraints(primaryKeys, m)), anomalies;
  }

  /**
   * One scanned row of `GetConstraints`: an empty field skips it, a primary
   * key appends its column, any other constraint is appended to its
   * column's list.
   */
  method FoldConstraintRow(ghost rows: seq<ConstraintRow>, primaryKeys: seq<string>, m: map<string, seq<string>>, row: ConstraintRow)
    returns (primaryKeys': seq<string>, m': map<string, seq<string>>, skipped: bool)
    requires ConstraintsFolded(rows, primaryKeys, m)
    ensures ConstraintsFolded(rows + [row], primaryKeys', m')
    ensures skipped <==> !UsableConstraint(row)
    ensures EmptyConstraintRows(rows + [row]) == EmptyConstraintRows(rows) + (if skipped then 1 else 0)
  {
    ghost var after := rows + [row];
    assert after[..|after| - 1] == rows && after[|after| - 1] == row;
    primaryKeys', m', skipped := primaryKeys, m, false;
    if row.col == "" || row.constraint == "" {
      skipped := true;
    } else if row.constraint == "PRIMARY KEY" {
      primaryKeys' := primaryKeys + [row.col];
    } else {
      m' := m[row.col := ConstraintsOf(m, row.col) + [row.constraint]];
    }
  }

  /**
   * Together with `GetColumns`: a column is marked as having an ignored
   * check constraint exactly when a usable catalog row puts a "CHECK" on it.
   */
  lemma CheckFlagFromCatalog(rows: seq<ConstraintRow>, others: map<string, seq<string>>, col: string)
    requires forall c :: c in others <==> OtherConstraints(rows, c) != []
    requires forall c :: c in others ==> others[c] == OtherConstraints(rows, c)
    ensures "CHECK" in ConstraintsOf(others, col) <==> col != "" && ConstraintRow(col, "CHECK") in rows
  {
    if col != "" && ConstraintRow(col, "CHECK") in rows {
      assert UsableConstraint(ConstraintRow(col, "CHECK"));
      assert "CHECK" in OtherConstraints(rows, col);
    }
  }

  // ---------------------------------------------------------------- columns

  /** A row of the columns query, in ordinal order; SQL NULLs are `None`. */
  datatype ColumnRow = ColumnRow(
    colName: string, dataType: string, elementDataType: Option<string>, isNullable: string,
    colDefault: Option<string>, charMaxLen: Option<int>, numericPrecision: Option<int>, numericScale: Option<int>)

  /** The source column `GetColumns` builds from one catalog row under the id `id`. */
  function BuildColumn(h: Helpers, constraints: map<string, seq<string>>, row: ColumnRow, id: string): (c: SrcColumn)
    ensures c.id == id && c.name == row.colName
    ensures c.ignored.check <==> "CHECK" in ConstraintsOf(constraints, row.colName)
    ensures c.ignored.default <==> row.colDefault.Some?
  {
    SrcColumn(id, row.colName,
              ToType(row.dataType, row.elementDataType, row.charMaxLen, row.numericPrecision, row.numericScale),
              h.toNotNull(row.isNullable),
              Ignored("CHECK" in ConstraintsOf(constraints, row.colName), row.colDefault.Some?))
  }

  /** What `GetColumns` returns when its query succeeds. */
  datatype Columns = Columns(colDefs: map<string, SrcColumn>, colIds: seq<string>)

  /** The columns built from `rows`: consecutive ids from `nextId`, each keyed to its column. */
  ghost predicate ColumnsBuilt(h: Helpers, constraints: map<string, seq<string>>, rows: seq<ColumnRow>, nextId: nat, c: Columns) {
    && |c.colIds| == |rows|
    && (forall k :: 0 <= k < |rows| ==> c.colIds[k] == ColumnId(nextId + k))
    && (forall id :: id in c.colDefs <==> id in c.colIds)
    && (forall k :: 0 <= k < |rows| ==> c.colDefs[c.colIds[k]] == BuildColumn(h, constraints, rows[k], c.colIds[k]))
  }

  /** Ids drawn from consecutive counter values never repeat. */
  lemma ColumnIdsDistinct(ids: seq<string>, nextId: nat)
    requires forall k :: 0 <= k < |ids| ==> ids[k] == ColumnId(nextId + k)
    ensures forall i, j :: 0 <= i < j < |ids| ==> ids[i] != ids[j]
  {
    forall i, j | 0 <= i < j < |ids| ensures ids[i] != ids[j] {
      if ids[i] == ids[j] {
        GeneratedIdInjective("c", nextId + i, nextId + j);
      }
    }
  }

  lemma ColumnsBuiltStep(h: Helpers, constraints: map<string, seq<string>>, rows: seq<ColumnRow>, nextId: nat, c: Columns, row: ColumnRow)
    requires ColumnsBuilt(h, constraints, rows, nextId, c)
    ensures var id := ColumnId(nextId + |rows|);
            ColumnsBuilt(h, constraints, rows + [row], nextId,
                         Columns(c.colDefs[id := BuildColumn(h, constraints, row, id)], c.colIds + [id]))
  {
    var id := ColumnId(nextId + |rows|);
    var ids, rows' := c.colIds + [id], rows + [row];
    var defs := c.colDefs[id := BuildColumn(h, constraints, row, id)];
    ColumnIdsDistinct(ids, nextId);
    forall k | 0 <= k < |rows'| ensures defs[ids[k]] == BuildColumn(h, constraints, rows'[k], ids[k]) {
      if k < |rows| {
        assert ids[k] != ids[|rows|];
        assert rows'[k] == rows[k];
      }
    }
  }

  /**
   * `GetColumns`: one column per scanned row, in ordinal order, each under
   * a fresh id from the counter (`nextId` in, `nextId'` out); the ids are
   * distinct and are exactly the keys of the definitions map.
   */
  method GetColumns(h: Helpers, constraints: map<string, seq<string>>, query: Query<ColumnRow>, nextId: nat)
    returns (r: Result<Columns, string>, nextId': nat, anomalies: nat)
    ensures query.Err? ==> r == Err(query.error) && nextId' == nextId && anomalies == 0
    ensures query.Ok? ==>
              var rows := Scanned(query.value);
              && r.Ok?
              && |r.value.colIds| == |rows|
              && nextId' == nextId + |rows|
              && anomalies == ScanFailures(query.value)
              && (forall k :: 0 <= k < |rows| ==> r.value.colIds[k] == ColumnId(nextId + k))
              && (forall i, j :: 0 <= i < j < |rows| ==> r.value.colIds[i] != r.value.colIds[j])
              && (forall id :: id in r.value.colDefs <==> id in r.value.colIds)
              && (forall k :: 0 <= k < |rows| ==>
                    r.value.colDefs[r.value.colIds[k]] == BuildColumn(h, constraints, rows[k], r.value.colIds[k]))
  {
    if query.Err? {
      return Err(query.error), nextId, 0;
    }
    var scans := query.value;
    var colDefs: map<string, SrcColumn> := map[];
    var colIds: seq<string> := [];
    ghost var rows: seq<ColumnRow> := [];
    nextId' := nextId;
    anomalies := 0;
    var i := 0;
    while i < |scans|
      invariant 0 <= i <= |scans|
      invariant rows == Scanned(scans[..i])
      invariant nextId' == nextId + |rows|
      invariant anomalies == ScanFailures(scans[..i])
      invariant ColumnsBuilt(h, constraints, rows, nextId, Columns(colDefs, colIds))
    {
      assert scans[..i + 1] == scans[..i] + [scans[i]];
      ScannedSnoc(scans[..i], scans[i]);
      if scans[i].ScanFailed? {
        anomalies := anomalies + 1;
      } else {
        var row := scans[i].value;
        colDefs, colIds := AddColumn(h, constraints, rows, nextId, colDefs, colIds, nextId', row);
        nextId' := nextId' + 1;
        rows := rows + [row];
      }
      i := i + 1;
    }
    assert scans[..i] == scans;
    ColumnIdsDistinct(colIds, nextId);
    return Ok(Columns(colDefs, colIds)), nextId', anomalies;
  }

  /** One scanned row of `GetColumns`: its column, built under the id of counter value `counter`. */
  method AddColumn(
    h: Helpers, constraints: map<string, seq<string>>, ghost rows: seq<ColumnRow>, ghost nextId: nat,
    colDefs: map<string, SrcColumn>, colIds: seq<string>, counter: nat, row: ColumnRow)
    returns (colDefs': map<string, SrcColumn>, colIds': seq<string>)
    requires counter == nextId + |rows|
    requires ColumnsBuilt(h, constraints, rows, nextId, Columns(colDefs, colIds))
    ensures ColumnsBuilt(h, constraints, rows + [row], nextId, Columns(colDefs', colIds'))
  {
    var ignored := ColumnIgnored(constraints, row.colName, row.colDefault.Some?);
    var colId := ColumnId(counter);
    var c := SrcColumn(colId, row.colName,
                       ToType(row.dataType, row.elementDataType, row.charMaxLen, row.numericPrecision, row.numericScale),
                       h.toNotNull(row.isNullable), ignored);
    assert c == BuildColumn(h, constraints, row, colId);
    ColumnsBuiltStep(h, constraints, rows, nextId, Columns(colDefs, colIds), row);
    colDefs' := colDefs[colId := c];
    colIds' := colIds + [colId];
  }
}
