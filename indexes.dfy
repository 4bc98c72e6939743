/**
 * `GetIndexes`: the index rows of one table are merged per index name;
 * indexes come out in the order their names first appear, each with its
 * key columns in row order.
 */
module Indexes {
  import opened Wrappers
  import opened Schema
  import opened Catalog
  import opened Grouping

  /**
   * A row of the index query: index name, column name, position of the
   * column in the index (scanned but never used), "true"/"false"
   * uniqueness, and "ASC"/"DESC".
   */
  datatype IndexRow = IndexRow(name: string, column: string, sequence: string, isUnique: string, collation: string)

  /** The index names of the rows, row by row. */
  function IndexNames(rows: seq<IndexRow>): (ns: seq<string>)
    ensures |ns| == |rows| && forall k :: 0 <= k < |rows| ==> ns[k] == rows[k].name
  {
    if rows == [] then [] else IndexNames(rows[..|rows| - 1]) + [rows[|rows| - 1].name]
  }

  lemma IndexNamesSnoc(rows: seq<IndexRow>, row: IndexRow)
    ensures IndexNames(rows + [row]) == IndexNames(rows) + [row.name]
  {
    assert (rows + [row])[..|rows|] == rows;
  }

  /** The rows of index `name`, in arrival order. */
  function RowsOfIndex(rows: seq<IndexRow>, name: string): (rs: seq<IndexRow>)
    ensures forall r :: r in rs ==> r in rows && r.name == name
    ensures name in IndexNames(rows) ==> |rs| > 0
  {
    if rows == [] then [] else
      var prefix, last := rows[..|rows| - 1], rows[|rows| - 1];
      assert IndexNames(rows) == IndexNames(prefix) + [last.name];
      RowsOfIndex(prefix, name) + (if last.name == name then [last] else [])
  }

  /** Go's read of a missing key of the column-name map: the empty id. */
  function ColIdOf(colNameIdMap: map<string, string>, column: string): string {
    if column in colNameIdMap then colNameIdMap[column] else ""
  }

  /** The key a row contributes: its column's id, descending exactly when the order is "DESC". */
  function KeyOf(colNameIdMap: map<string, string>, r: IndexRow): (k: IndexKey)
    ensures k.desc <==> r.collation == "DESC"
    ensures r.column in colNameIdMap ==> k.colId == colNameIdMap[r.column]
    ensures r.column !in colNameIdMap ==> k.colId == ""
  {
    IndexKey(ColIdOf(colNameIdMap, r.column), r.collation == "DESC")
  }

  function KeysOf(colNameIdMap: map<string, string>, rs: seq<IndexRow>): (ks: seq<IndexKey>)
    ensures |ks| == |rs| && forall k :: 0 <= k < |rs| ==> ks[k] == KeyOf(colNameIdMap, rs[k])
  {
    if rs == [] then [] else KeysOf(colNameIdMap, rs[..|rs| - 1]) + [KeyOf(colNameIdMap, rs[|rs| - 1])]
  }

  /** The first row of index `name`. */
  function FirstRow(rows: seq<IndexRow>, name: string): (r: IndexRow)
    requires name in IndexNames(rows)
    ensures r in rows && r.name == name
  {
    rows[FirstIndex(IndexNames(rows), name)]
  }

  function IndexId(n: nat): string { GeneratedId("i", n) }

  /**
   * The merged index `name` under id `id`: unique as its first row says,
   * with one key per row of the index, in row order.
   */
  function Merged(colNameIdMap: map<string, string>, rows: seq<IndexRow>, name: string, id: string): (ix: Index)
    requires name in IndexNames(rows)
    ensures ix.id == id && ix.name == name && |ix.keys| > 0
    ensures ix.unique <==> FirstRow(rows, name).isUnique == "true"
  {
    Index(id, name, FirstRow(rows, name).isUnique == "true", KeysOf(colNameIdMap, RowsOfIndex(rows, name)))
  }

  /** Uniqueness is decided by the row where the index name first appears, whatever later rows say. */
  lemma MergedTakesFirstRow(colNameIdMap: map<string, string>, rows: seq<IndexRow>, i: nat, id: string)
    requires i < |rows| && forall j :: 0 <= j < i ==> rows[j].name != rows[i].name
    ensures Merged(colNameIdMap, rows, rows[i].name, id).unique <==> rows[i].isUnique == "true"
  {
    assert IndexNames(rows)[i] == rows[i].name;
  }

  lemma FirstRowSnoc(rows: seq<IndexRow>, row: IndexRow, n: string)
    requires n in IndexNames(rows + [row])
    ensures n in IndexNames(rows) ==> FirstRow(rows + [row], n) == FirstRow(rows, n)
    ensures n !in IndexNames(rows) ==> FirstRow(rows + [row], n) == row
  {
    IndexNamesSnoc(rows, row);
    if n in IndexNames(rows) {
      FirstIndexPrefix(IndexNames(rows), row.name, n);
    } else {
      assert FirstIndex(IndexNames(rows + [row]), n) == |rows| by {
        assert IndexNames(rows + [row])[..|rows|] == IndexNames(rows);
      }
    }
  }

  lemma KeysSnoc(colNameIdMap: map<string, string>, rows: seq<IndexRow>, row: IndexRow, n: string)
    ensures KeysOf(colNameIdMap, RowsOfIndex(rows + [row], n)) ==
            KeysOf(colNameIdMap, RowsOfIndex(rows, n)) + (if row.name == n then [KeyOf(colNameIdMap, row)] else [])
  {
    assert (rows + [row])[..|rows|] == rows;
    var named := RowsOfIndex(rows, n);
    assert (named + [row])[..|named|] == named;
  }

  lemma RowsOfIndexAbsent(rows: seq<IndexRow>, n: string)
    requires n !in IndexNames(rows)
    ensures RowsOfIndex(rows, n) == []
  {
  }

  /** One more row leaves the merged index of every other name as it was. */
  lemma MergedOther(colNameIdMap: map<string, string>, rows: seq<IndexRow>, row: IndexRow, n: string, id: string)
    requires n in IndexNames(rows) && n != row.name
    ensures n in IndexNames(rows + [row])
    ensures Merged(colNameIdMap, rows + [row], n, id) == Merged(colNameIdMap, rows, n, id)
  {
    IndexNamesSnoc(rows, row);
    FirstRowSnoc(rows, row, n);
    KeysSnoc(colNameIdMap, rows, row, n);
  }

  /** One more row of a name already seen appends its key to that index. */
  lemma MergedSame(colNameIdMap: map<string, string>, rows: seq<IndexRow>, row: IndexRow, n: string, id: string)
    requires n in IndexNames(rows) && n == row.name
    ensures n in IndexNames(rows + [row])
    ensures Merged(colNameIdMap, rows + [row], n, id) ==
            Merged(colNameIdMap, rows, n, id).(keys := Merged(colNameIdMap, rows, n, id).keys + [KeyOf(colNameIdMap, row)])
  {
    IndexNamesSnoc(rows, row);
    FirstRowSnoc(rows, row, n);
    KeysSnoc(colNameIdMap, rows, row, n);
  }

  /** The first row of a name opens an index with that row's uniqueness and key. */
  lemma MergedNew(colNameIdMap: map<string, string>, rows: seq<IndexRow>, row: IndexRow, n: string, id: string)
    requires n !in IndexNames(rows) && n == row.name
    ensures n in IndexNames(rows + [row])
    ensures Merged(colNameIdMap, rows + [row], n, id) == Index(id, n, row.isUnique == "true", [KeyOf(colNameIdMap, row)])
  {
    IndexNamesSnoc(rows, row);
    FirstRowSnoc(rows, row, n);
    KeysSnoc(colNameIdMap, rows, row, n);
    RowsOfIndexAbsent(rows, n);
  }

  /**
   * The merge state after some rows: the names in first-seen order, and
   * the k-th name's merged index under the k-th id handed out.
   */
  ghost predicate MergedSoFar(colNameIdMap: map<string, string>, rows: seq<IndexRow>, nextId: nat,
                              indexMap: map<string, Index>, indexNames: seq<string>)
  {
    && indexNames == DistinctInOrder(IndexNames(rows))
    && (forall n :: n in indexMap <==> n in IndexNames(rows))
    && (forall k :: 0 <= k < |indexNames| ==>
          indexMap[indexNames[k]] == Merged(colNameIdMap, rows, indexNames[k], IndexId(nextId + k)))
  }

  /** How the loop body of `GetIndexes` updates the merge state for one row. */
  ghost predicate FoldsRow(colNameIdMap: map<string, string>, counter: nat,
                           indexMap: map<string, Index>, indexNames: seq<string>,
                           row: IndexRow, indexMap': map<string, Index>, indexNames': seq<string>)
  {
    && (row.name in indexMap ==>
          && indexNames' == indexNames
          && indexMap' == indexMap[row.name := indexMap[row.name].(keys := indexMap[row.name].keys + [KeyOf(colNameIdMap, row)])])
    && (row.name !in indexMap ==>
          && indexNames' == indexNames + [row.name]
          && indexMap' == indexMap[row.name := Index(IndexId(counter), row.name, row.isUnique == "true",
                                                     [KeyOf(colNameIdMap, row)])])
  }

  /** The step for the index at position `k` of the name list. */
  lemma MergedStepAt(colNameIdMap: map<string, string>, rows: seq<IndexRow>, nextId: nat,
                     indexMap: map<string, Index>, indexNames: seq<string>,
                     counter: nat, row: IndexRow, indexMap': map<string, Index>, indexNames': seq<string>, k: nat)
    requires counter == nextId + |indexNames|
    requires FoldsRow(colNameIdMap, counter, indexMap, indexNames, row, indexMap', indexNames')
    requires k < |indexNames'|
    requires row.name in indexMap <==> row.name in IndexNames(rows)
    requires k < |indexNames| ==>
               && indexNames[k] in IndexNames(rows) && indexNames[k] in indexMap
               && indexMap[indexNames[k]] == Merged(colNameIdMap, rows, indexNames[k], IndexId(nextId + k))
    ensures indexNames'[k] in IndexNames(rows + [row])
    ensures indexMap'[indexNames'[k]] == Merged(colNameIdMap, rows + [row], indexNames'[k], IndexId(nextId + k))
  {
    var n, id := indexNames'[k], IndexId(nextId + k);
    if k < |indexNames| {
      assert n == indexNames[k];
      if n != row.name {
        assert indexMap'[n] == indexMap[n];
        MergedOther(colNameIdMap, rows, row, n, id);
      } else {
        assert indexMap'[n] == indexMap[n].(keys := indexMap[n].keys + [KeyOf(colNameIdMap, row)]);
        MergedSame(colNameIdMap, rows, row, n, id);
      }
    } else {
      assert n == row.name && row.name !in indexMap && id == IndexId(counter);
      assert indexMap'[n] == Index(id, n, row.isUnique == "true", [KeyOf(colNameIdMap, row)]);
      MergedNew(colNameIdMap, rows, row, n, id);
    }
  }

  /** One more row folded into the merge state, as the loop body of `GetIndexes` does it. */
  lemma MergedStep(colNameIdMap: map<string, string>, rows: seq<IndexRow>, nextId: nat,
                   indexMap: map<string, Index>, indexNames: seq<string>,
                   counter: nat, row: IndexRow, indexMap': map<string, Index>, indexNames': seq<string>)
    requires MergedSoFar(colNameIdMap, rows, nextId, indexMap, indexNames)
    requires counter == nextId + |indexNames|
    requires FoldsRow(colNameIdMap, counter, indexMap, indexNames, row, indexMap', indexNames')
    ensures MergedSoFar(colNameIdMap, rows + [row], nextId, indexMap', indexNames')
  {
    IndexNamesSnoc(rows, row);
    assert row.name in indexMap <==> row.name in IndexNames(rows);
    assert indexNames' == DistinctInOrder(IndexNames(rows + [row])) by {
      DistinctInOrderSnoc(IndexNames(rows), row.name);
    }
    assert forall n :: n in indexMap' <==> n in IndexNames(rows + [row]) by {
      assert forall n :: n in indexMap' <==> n in indexMap || n == row.name;
    }
    forall k | 0 <= k < |indexNames'|
      ensures indexMap'[indexNames'[k]] == Merged(colNameIdMap, rows + [row], indexNames'[k], IndexId(nextId + k))
    {
      if k < |indexNames| {
        assert indexNames[k] in IndexNames(rows);
      }
      MergedStepAt(colNameIdMap, rows, nextId, indexMap, indexNames, counter, row, indexMap', indexNames', k);
    }
  }

  /**
   * `GetIndexes`: one index per name, in first-seen order, each under the
   * id drawn when its name was first seen; the keys are the index's rows in
   * arrival order.
   */
  method GetIndexes(query: Query<IndexRow>, colNameIdMap: map<string, string>, nextId: nat)
    returns (r: Result<seq<Index>, string>, nextId': nat, anomalies: nat)
    ensures query.Err? ==> r == Err(query.error) && nextId' == nextId && anomalies == 0
    ensures query.Ok? ==>
              var rows := Scanned(query.value);
              var names := DistinctInOrder(IndexNames(rows));
              && r.Ok?
              && |r.value| == |names|
              && nextId' == nextId + |names|
              && anomalies == ScanFailures(query.value)
              && (forall k :: 0 <= k < |names| ==> r.value[k] == Merged(colNameIdMap, rows, names[k], IndexId(nextId + k)))
  {
    if query.Err? {
      return Err(query.error), nextId, 0;
    }
    var indexMap, indexNames, anomalies' := MergeRows(query.value, colNameIdMap, nextId);
    ghost var rows := Scanned(query.value);
    assert forall n :: n in indexNames ==> n in indexMap;
    var indexes := EmitIndexes(indexMap, indexNames);
    assert forall k :: 0 <= k < |indexNames| ==> indexes[k] == Merged(colNameIdMap, rows, indexNames[k], IndexId(nextId + k));
    return Ok(indexes), nextId + |indexNames|, anomalies';
  }

  /**
   * The scan loop of `GetIndexes`: every scanned row folded into the map
   * of indexes by name and the list of names in first-seen order; rows that
   * fail to scan are counted and skipped.
   */
  method MergeRows(scans: seq<Scan<IndexRow>>, colNameIdMap: map<string, string>, nextId: nat)
    returns (indexMap: map<string, Index>, indexNames: seq<string>, anomalies: nat)
    ensures anomalies == ScanFailures(scans)
    ensures MergedSoFar(colNameIdMap, Scanned(scans), nextId, indexMap, indexNames)
  {
    indexMap, indexNames := map[], [];
    var counter := nextId;
    anomalies := 0;
    ghost var rows: seq<IndexRow> := [];
    var i := 0;
    while i < |scans|
      invariant 0 <= i <= |scans|
      invariant anomalies == ScanFailures(scans[..i])
      invariant rows == Scanned(scans[..i])
      invariant counter == nextId + |indexNames|
      invariant MergedSoFar(colNameIdMap, rows, nextId, indexMap, indexNames)
    {
      assert scans[..i + 1] == scans[..i] + [scans[i]];
      ScannedSnoc(scans[..i], scans[i]);
      if scans[i].ScanFailed? {
        anomalies := anomalies + 1;
      } else {
        var row := scans[i].value;
        indexMap, indexNames, counter := MergeRow(colNameIdMap, rows, nextId, indexMap, indexNames, counter, row);
        rows := rows + [row];
      }
      i := i + 1;
    }
    assert scans[..i] == scans;
  }

  /** One scanned row folded into a merge state that holds what the earlier rows say. */
  method MergeRow(colNameIdMap: map<string, string>, ghost rows: seq<IndexRow>, ghost nextId: nat,
                  indexMap: map<string, Index>, indexNames: seq<string>, counter: nat, row: IndexRow)
    returns (indexMap': map<string, Index>, indexNames': seq<string>, counter': nat)
    requires MergedSoFar(colNameIdMap, rows, nextId, indexMap, indexNames)
    requires counter == nextId + |indexNames|
    ensures MergedSoFar(colNameIdMap, rows + [row], nextId, indexMap', indexNames')
    ensures counter' == nextId + |indexNames'|
  {
    indexMap', indexNames', counter' := FoldRow(colNameIdMap, indexMap, indexNames, counter, row);
    MergedStep(colNameIdMap, rows, nextId, indexMap, indexNames, counter, row, indexMap', indexNames');
  }

  /**
   * The loop body of `GetIndexes` for one scanned row: a new name opens an
   * empty index under the next id, then the row's key is appended.
   */
  method FoldRow(colNameIdMap: map<string, string>, indexMap: map<string, Index>, indexNames: seq<string>,
                 counter: nat, row: IndexRow)
    returns (indexMap': map<string, Index>, indexNames': seq<string>, counter': nat)
    ensures FoldsRow(colNameIdMap, counter, indexMap, indexNames, row, indexMap', indexNames')
    ensures counter' == counter + (|indexNames'| - |indexNames|)
  {
    indexMap', indexNames', counter' := indexMap, indexNames, counter;
    if row.name !in indexMap' {
      indexNames' := indexNames' + [row.name];
      indexMap' := indexMap'[row.name := Index(IndexId(counter'), row.name, row.isUnique == "true", [])];
      counter' := counter' + 1;
    }
    var index := indexMap'[row.name];
    index := index.(keys := index.keys + [IndexKey(ColIdOf(colNameIdMap, row.column), row.collation == "DESC")]);
    indexMap' := indexMap'[row.name := index];
    assert row.name !in indexMap ==> index.keys == [KeyOf(colNameIdMap, row)];
  }

  /** The indexes of `indexMap`, in the order of `indexNames`. */
  method EmitIndexes(indexMap: map<string, Index>, indexNames: seq<string>) returns (indexes: seq<Index>)
    requires forall n :: n in indexNames ==> n in indexMap
    ensures |indexes| == |indexNames|
    ensures forall k :: 0 <= k < |indexNames| ==> indexes[k] == indexMap[indexNames[k]]
  {
    indexes := [];
    var k := 0;
    while k < |indexNames|
      invariant 0 <= k <= |indexNames|
      invariant |indexes| == k
      invariant forall j :: 0 <= j < k ==> indexes[j] == indexMap[indexNames[j]]
    {
      indexes := indexes + [indexMap[indexNames[k]]];
      k := k + 1;
    }
  }

  /**
   * The indexes come out in the order their names first appear among the
   * scanned rows, and no name twice.
   */
  lemma IndexesFirstSeenOrder(rows: seq<IndexRow>)
    ensures var names := DistinctInOrder(IndexNames(rows));
            && (forall n :: n in names <==> n in IndexNames(rows))
            && (forall i, j :: 0 <= i < j < |names| ==> names[i] != names[j])
            && (forall i, j :: 0 <= i < j < |names| ==>
                  FirstIndex(IndexNames(rows), names[i]) < FirstIndex(IndexNames(rows), names[j]))
  {
    DistinctInOrderFirstSeen(IndexNames(rows));
  }
}
