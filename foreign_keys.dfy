/**
 * `GetForeignKeys`: the referential-constraint rows of one table are merged
 * per constraint name, and the merged constraints are emitted sorted by
 * name.
 */
module ForeignKeys {
  import opened Wrappers
  import opened Schema
  import opened Catalog
  import opened Grouping
  import opened Naming

  /** A row of the foreign-key query: the referenced table, one column pair, the constraint name and its rules. */
  datatype FkRow = FkRow(
    refSchema: string, refTable: string, col: string, refCol: string,
    name: string, onDelete: string, onUpdate: string)

  /** `common.FkConstraint`: one constraint as it is being merged. */
  datatype FkConstraint = FkConstraint(
    name: string, table: string, cols: seq<string>, refcols: seq<string>, onDelete: string, onUpdate: string)

  /** The constraint names of the rows, row by row. */
  function FkNames(rows: seq<FkRow>): (ns: seq<string>)
    ensures |ns| == |rows| && forall k :: 0 <= k < |rows| ==> ns[k] == rows[k].name
  {
    if rows == [] then [] else FkNames(rows[..|rows| - 1]) + [rows[|rows| - 1].name]
  }

  /** The rows of constraint `name`, in arrival order. */
  function RowsNamed(rows: seq<FkRow>, name: string): (rs: seq<FkRow>)
    ensures forall r :: r in rs ==> r in rows && r.name == name
    ensures name in FkNames(rows) ==> |rs| > 0
  {
    if rows == [] then [] else
      var prefix, last := rows[..|rows| - 1], rows[|rows| - 1];
      assert FkNames(rows) == FkNames(prefix) + [last.name];
      RowsNamed(prefix, name) + (if last.name == name then [last] else [])
  }

  function ColsOf(rs: seq<FkRow>): (cs: seq<string>)
    ensures |cs| == |rs| && forall k :: 0 <= k < |rs| ==> cs[k] == rs[k].col
  {
    if rs == [] then [] else ColsOf(rs[..|rs| - 1]) + [rs[|rs| - 1].col]
  }

  function RefColsOf(rs: seq<FkRow>): (cs: seq<string>)
    ensures |cs| == |rs| && forall k :: 0 <= k < |rs| ==> cs[k] == rs[k].refCol
  {
    if rs == [] then [] else RefColsOf(rs[..|rs| - 1]) + [rs[|rs| - 1].refCol]
  }

  /** The first row of constraint `name`. */
  function FirstRow(rows: seq<FkRow>, name: string): (r: FkRow)
    requires name in FkNames(rows)
    ensures r in rows && r.name == name
  {
    rows[FirstIndex(FkNames(rows), name)]
  }

  /**
   * The merged constraint `name`: its column pairs in row order, and the
   * referenced table and rules of its first row (later rows' rules are
   * assigned to a copy after the map write and are lost).
   */
  function Merged(isi: InfoSchema, rows: seq<FkRow>, name: string): (fk: FkConstraint)
    requires name in FkNames(rows)
    reads isi
    ensures fk.name == name
    ensures |fk.cols| == |fk.refcols| > 0
  {
    var first := FirstRow(rows, name);
    var named := RowsNamed(rows, name);
    FkConstraint(name, isi.GetTableName(first.refSchema, first.refTable), ColsOf(named), RefColsOf(named),
                 first.onDelete, first.onUpdate)
  }

  /**
   * The table and rules of a merged constraint are those of the row where
   * its name first appears, whatever later rows say.
   */
  lemma MergedTakesFirstRow(isi: InfoSchema, rows: seq<FkRow>, i: nat)
    requires i < |rows| && forall j :: 0 <= j < i ==> rows[j].name != rows[i].name
    ensures var fk := Merged(isi, rows, rows[i].name);
            && fk.table == isi.GetTableName(rows[i].refSchema, rows[i].refTable)
            && fk.onDelete == rows[i].onDelete && fk.onUpdate == rows[i].onUpdate
  {
    var ns := FkNames(rows);
    assert ns[i] == rows[i].name;
  }

  /** The merge state after some rows: the names in first-seen order, and each name's merged constraint. */
  ghost predicate MergedSoFar(isi: InfoSchema, rows: seq<FkRow>, fKeys: map<string, FkConstraint>, keyNames: seq<string>)
    reads isi
  {
    && keyNames == DistinctInOrder(FkNames(rows))
    && (forall n :: n in fKeys <==> n in FkNames(rows))
    && (forall n :: n in fKeys ==> fKeys[n] == Merged(isi, rows, n))
  }

  lemma RowsNamedSnoc(rows: seq<FkRow>, row: FkRow, name: string)
    ensures RowsNamed(rows + [row], name) == RowsNamed(rows, name) + (if row.name == name then [row] else [])
  {
    assert (rows + [row])[..|rows|] == rows;
  }

  lemma FkNamesSnoc(rows: seq<FkRow>, row: FkRow)
    ensures FkNames(rows + [row]) == FkNames(rows) + [row.name]
  {
    assert (rows + [row])[..|rows|] == rows;
  }

  lemma FirstRowSnoc(rows: seq<FkRow>, row: FkRow, n: string)
    requires n in FkNames(rows + [row])
    ensures n in FkNames(rows) ==> FirstRow(rows + [row], n) == FirstRow(rows, n)
    ensures n !in FkNames(rows) ==> FirstRow(rows + [row], n) == row
  {
    FkNamesSnoc(rows, row);
    if n in FkNames(rows) {
      FirstIndexPrefix(FkNames(rows), row.name, n);
    } else {
      assert FirstIndex(FkNames(rows + [row]), n) == |rows| by {
        assert FkNames(rows + [row])[..|rows|] == FkNames(rows);
      }
    }
  }

  lemma PairsSnoc(rows: seq<FkRow>, row: FkRow, n: string)
    ensures var named, named' := RowsNamed(rows, n), RowsNamed(rows + [row], n);
            && ColsOf(named') == ColsOf(named) + (if row.name == n then [row.col] else [])
            && RefColsOf(named') == RefColsOf(named) + (if row.name == n then [row.refCol] else [])
  {
    RowsNamedSnoc(rows, row, n);
    var named := RowsNamed(rows, n);
    assert (named + [row])[..|named|] == named;
  }

  lemma RowsNamedAbsent(rows: seq<FkRow>, n: string)
    requires n !in FkNames(rows)
    ensures RowsNamed(rows, n) == []
  {
  }

  /** What one more row does to the merged constraint of each name. */
  lemma MergedSnoc(isi: InfoSchema, rows: seq<FkRow>, row: FkRow, n: string)
    requires n in FkNames(rows + [row])
    ensures n != row.name ==> n in FkNames(rows) && Merged(isi, rows + [row], n) == Merged(isi, rows, n)
    ensures n == row.name && n in FkNames(rows) ==>
              var fk := Merged(isi, rows, n);
              Merged(isi, rows + [row], n) == fk.(cols := fk.cols + [row.col], refcols := fk.refcols + [row.refCol])
    ensures n == row.name && n !in FkNames(rows) ==>
              Merged(isi, rows + [row], n) ==
              FkConstraint(n, isi.GetTableName(row.refSchema, row.refTable), [row.col], [row.refCol], row.onDelete, row.onUpdate)
  {
    FkNamesSnoc(rows, row);
    FirstRowSnoc(rows, row, n);
    PairsSnoc(rows, row, n);
    if n !in FkNames(rows) {
      RowsNamedAbsent(rows, n);
    }
  }

  /**
   * The loop body of `GetForeignKeys` on one row: a known name gets the
   * row's column pair appended, a new name opens a constraint from the row.
   */
  ghost predicate FoldsRow(isi: InfoSchema, fKeys: map<string, FkConstraint>, keyNames: seq<string>,
                           row: FkRow, fKeys': map<string, FkConstraint>, keyNames': seq<string>)
    reads isi
  {
    && (row.name in fKeys ==>
          && keyNames' == keyNames
          && fKeys' == fKeys[row.name := fKeys[row.name].(cols := fKeys[row.name].cols + [row.col],
                                                             refcols := fKeys[row.name].refcols + [row.refCol])])
    && (row.name !in fKeys ==>
          && keyNames' == keyNames + [row.name]
          && fKeys' == fKeys[row.name := FkConstraint(row.name, isi.GetTableName(row.refSchema, row.refTable),
                                                      [row.col], [row.refCol], row.onDelete, row.onUpdate)])
  }

  /** One more row folded into the merge state, as the loop body of `GetForeignKeys` does it. */
  lemma MergedStep(isi: InfoSchema, rows: seq<FkRow>, fKeys: map<string, FkConstraint>, keyNames: seq<string>,
                   row: FkRow, fKeys': map<string, FkConstraint>, keyNames': seq<string>)
    requires MergedSoFar(isi, rows, fKeys, keyNames)
    requires FoldsRow(isi, fKeys, keyNames, row, fKeys', keyNames')
    ensures MergedSoFar(isi, rows + [row], fKeys', keyNames')
  {
    FkNamesSnoc(rows, row);
    assert row.name in fKeys <==> row.name in FkNames(rows);
    assert keyNames' == DistinctInOrder(FkNames(rows + [row])) by {
      DistinctInOrderSnoc(FkNames(rows), row.name);
    }
    assert forall n :: n in fKeys' <==> n in FkNames(rows + [row]) by {
      assert forall n :: n in fKeys' <==> n in fKeys || n == row.name;
    }
    forall n | n in fKeys' ensures fKeys'[n] == Merged(isi, rows + [row], n) {
      if n in fKeys {
        assert n in FkNames(rows);
      }
      MergedStepFor(isi, rows, fKeys, keyNames, row, fKeys', keyNames', n);
    }
  }

  /** The step for the constraint named `n`. */
  lemma MergedStepFor(isi: InfoSchema, rows: seq<FkRow>, fKeys: map<string, FkConstraint>, keyNames: seq<string>,
                      row: FkRow, fKeys': map<string, FkConstraint>, keyNames': seq<string>, n: string)
    requires FoldsRow(isi, fKeys, keyNames, row, fKeys', keyNames')
    requires row.name in fKeys <==> row.name in FkNames(rows)
    requires n in fKeys'
    requires n in fKeys ==> n in FkNames(rows) && fKeys[n] == Merged(isi, rows, n)
    ensures n in FkNames(rows + [row]) && fKeys'[n] == Merged(isi, rows + [row], n)
  {
    FkNamesSnoc(rows, row);
    if n != row.name {
      assert fKeys'[n] == fKeys[n];
    } else if n in fKeys {
      assert fKeys'[n] == fKeys[n].(cols := fKeys[n].cols + [row.col], refcols := fKeys[n].refcols + [row.refCol]);
    } else {
      assert fKeys'[n] == FkConstraint(n, isi.GetTableName(row.refSchema, row.refTable), [row.col], [row.refCol],
                                       row.onDelete, row.onUpdate);
    }
    MergedSnoc(isi, rows, row, n);
  }

  function ForeignKeyId(n: nat): string { GeneratedId("f", n) }

  /** The `schema.ForeignKey` emitted for a merged constraint under id `id`. */
  function ToForeignKey(fk: FkConstraint, id: string): (r: ForeignKey)
    ensures r.id == id && r.name == fk.name && r.referTableName == fk.table
    ensures r.columnNames == fk.cols && r.referColumnNames == fk.refcols
    ensures r.onDelete == fk.onDelete && r.onUpdate == fk.onUpdate
  {
    ForeignKey(id, fk.name, fk.cols, fk.table, fk.refcols, fk.onDelete, fk.onUpdate)
  }

  /** The constraint names in the order `GetForeignKeys` emits them. */
  function SortedNames(rows: seq<FkRow>): (names: seq<string>)
    ensures forall n :: n in names <==> n in FkNames(rows)
    ensures forall i, j :: 0 <= i < j < |names| ==> LessEq(names[i], names[j]) && names[i] != names[j]
  {
    SortDistinct(DistinctInOrder(FkNames(rows)));
    SortStrings(DistinctInOrder(FkNames(rows)))
  }

  /**
   * `GetForeignKeys`: one foreign key per constraint name, strictly sorted
   * by name, each holding its merged column pairs; the counter hands out
   * one id per key in emitted order.
   */
  method GetForeignKeys(isi: InfoSchema, query: Query<FkRow>, nextId: nat)
    returns (r: Result<seq<ForeignKey>, string>, nextId': nat, anomalies: nat)
    ensures query.Err? ==> r == Err(query.error) && nextId' == nextId && anomalies == 0
    ensures query.Ok? ==>
              var rows := Scanned(query.value);
              var names := SortedNames(rows);
              && r.Ok?
              && |r.value| == |names|
              && nextId' == nextId + |names|
              && anomalies == ScanFailures(query.value)
              && (forall k :: 0 <= k < |names| ==>
                    r.value[k] == ToForeignKey(Merged(isi, rows, names[k]), ForeignKeyId(nextId + k)))
  {
    if query.Err? {
      return Err(query.error), nextId, 0;
    }
    var fKeys, keyNames, anomalies' := MergeRows(isi, query.value);
    ghost var rows := Scanned(query.value);
    var sorted := SortStrings(keyNames);
    assert sorted == SortedNames(rows);
    assert forall n :: n in sorted ==> n in fKeys;
    var foreignKeys := EmitForeignKeys(fKeys, sorted, nextId);
    forall k | 0 <= k < |sorted|
      ensures foreignKeys[k] == ToForeignKey(Merged(isi, rows, sorted[k]), ForeignKeyId(nextId + k))
    {
      assert fKeys[sorted[k]] == Merged(isi, rows, sorted[k]);
    }
    return Ok(foreignKeys), nextId + |sorted|, anomalies';
  }

  /**
   * The scan loop of `GetForeignKeys`: every scanned row folded into the
   * map of constraints by name and the list of names in first-seen order;
   * rows that fail to scan are counted and skipped.
   */
  method MergeRows(isi: InfoSchema, scans: seq<Scan<FkRow>>)
    returns (fKeys: map<string, FkConstraint>, keyNames: seq<string>, anomalies: nat)
    ensures anomalies == ScanFailures(scans)
    ensures MergedSoFar(isi, Scanned(scans), fKeys, keyNames)
  {
    fKeys, keyNames := map[], [];
    anomalies := 0;
    ghost var rows: seq<FkRow> := [];
    var i := 0;
    while i < |scans|
      invariant 0 <= i <= |scans|
      invariant anomalies == ScanFailures(scans[..i])
      invariant rows == Scanned(scans[..i])
      invariant MergedSoFar(isi, rows, fKeys, keyNames)
    {
      assert scans[..i + 1] == scans[..i] + [scans[i]];
      ScannedSnoc(scans[..i], scans[i]);
      if scans[i].ScanFailed? {
        anomalies := anomalies + 1;
      } else {
        var row := scans[i].value;
        fKeys, keyNames := FoldRow(isi, rows, fKeys, keyNames, row);
        rows := rows + [row];
      }
      i := i + 1;
    }
    assert scans[..i] == scans;
  }

  /**
   * The loop body of `GetForeignKeys` for one scanned row: the column pair
   * is appended to the constraint of that name, or a new constraint is
   * opened with the row's referenced table and rules.
   */
  method FoldRow(isi: InfoSchema, ghost rows: seq<FkRow>, fKeys: map<string, FkConstraint>, keyNames: seq<string>, row: FkRow)
    returns (fKeys': map<string, FkConstraint>, keyNames': seq<string>)
    requires MergedSoFar(isi, rows, fKeys, keyNames)
    ensures MergedSoFar(isi, rows + [row], fKeys', keyNames')
  {
    var tableName := isi.GetTableName(row.refSchema, row.refTable);
    fKeys', keyNames' := fKeys, keyNames;
    if row.name in fKeys {
      var fk := fKeys[row.name];
      fk := fk.(cols := fk.cols + [row.col], refcols := fk.refcols + [row.refCol]);
      fKeys' := fKeys[row.name := fk];
    } else {
      fKeys' := fKeys[row.name := FkConstraint(row.name, tableName, [row.col], [row.refCol], row.onDelete, row.onUpdate)];
      keyNames' := keyNames + [row.name];
    }
    MergedStep(isi, rows, fKeys, keyNames, row, fKeys', keyNames');
  }

  /** The second half of `GetForeignKeys`: one foreign key per sorted name, with consecutive ids. */
  method EmitForeignKeys(fKeys: map<string, FkConstraint>, sorted: seq<string>, nextId: nat)
    returns (foreignKeys: seq<ForeignKey>)
    requires forall n :: n in sorted ==> n in fKeys
    ensures |foreignKeys| == |sorted|
    ensures forall k :: 0 <= k < |sorted| ==> foreignKeys[k] == ToForeignKey(fKeys[sorted[k]], ForeignKeyId(nextId + k))
  {
    foreignKeys := [];
    var k := 0;
    while k < |sorted|
      invariant 0 <= k <= |sorted|
      invariant |foreignKeys| == k
      invariant forall j :: 0 <= j < k ==> foreignKeys[j] == ToForeignKey(fKeys[sorted[j]], ForeignKeyId(nextId + j))
    {
      var fk := fKeys[sorted[k]];
      foreignKeys := foreignKeys + [ForeignKey(ForeignKeyId(nextId + k), fk.name, fk.cols, fk.table, fk.refcols, fk.onDelete, fk.onUpdate)];
      k := k + 1;
    }
  }
}
