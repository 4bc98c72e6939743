/**
 * The row conversion engine: `convertSQLRow` turns one scanned row into the
 * target's column names and values, appending the synthetic key for
 * key-less tables, and `ProcessData` drives it over a table's rows,
 * counting and sampling bad rows instead of stopping at them.
 */
module RowConversion {
  import opened Wrappers
  import opened Bits64
  import opened Schema
  import opened Values
  import opened ScalarConversion
  import opened SyntheticKeys

  /** The column names and values of one converted row, position by position. */
  datatype Converted = Converted(cols: seq<string>, vals: seq<SpValue>)

  /** The positions of the non-NULL slots of a row, in increasing order. */
  function NonNullPositions(vals: seq<SqlValue>): (ps: seq<nat>)
    ensures forall k :: 0 <= k < |ps| ==> ps[k] < |vals| && vals[ps[k]] != VNull
    ensures forall k, l :: 0 <= k < l < |ps| ==> ps[k] < ps[l]
    ensures forall p :: 0 <= p < |vals| && vals[p] != VNull ==> p in ps
  {
    if vals == [] then []
    else
      var n := |vals| - 1;
      NonNullPositions(vals[..n]) + (if vals[n] != VNull then [n] else [])
  }

  /** Column `id` has a definition on both sides, and its value, when not NULL, converts. */
  predicate ColumnConverts(h: Helpers, id: string, src: SrcTable, sp: SpTable, v: SqlValue) {
    id in src.colDefs && id in sp.colDefs &&
    (v != VNull ==> ConvertValue(h, src.colDefs[id], sp.colDefs[id], v).Ok?)
  }

  /**
   * The column loop of `convertSQLRow`, columns taken in `colIds` order: a
   * column id missing from either schema stops the row, a NULL slot is
   * skipped, any other slot is converted or stops the row.
   */
  function ConvertCols(h: Helpers, tableName: string, colIds: seq<string>, src: SrcTable, sp: SpTable, srcVals: seq<SqlValue>)
    : (r: Outcome<Converted>)
    requires |srcVals| == |colIds|
    ensures r.Ok? ==> |r.value.cols| == |r.value.vals| <= |srcVals|
    decreases |colIds|
  {
    if colIds == [] then Ok(Converted([], []))
    else
      var n := |colIds| - 1;
      match ConvertCols(h, tableName, colIds[..n], src, sp, srcVals[..n])
      case Err(e) => Err(e)
      case Ok(acc) =>
        var id := colIds[n];
        if id !in src.colDefs || id !in sp.colDefs then Err(MissingSchema(id, tableName))
        else if srcVals[n] == VNull then Ok(acc)
        else
          match ConvertValue(h, src.colDefs[id], sp.colDefs[id], srcVals[n])
          case Err(e) => Err(CannotConvert(tableName, e))
          case Ok(v) => Ok(Converted(acc.cols + [sp.colDefs[id].name], acc.vals + [v]))
  }

  /** A converted row has one name and one value per non-NULL slot. */
  lemma {:induction false} ConvertColsLength(h: Helpers, tableName: string, colIds: seq<string>, src: SrcTable, sp: SpTable, srcVals: seq<SqlValue>)
    requires |srcVals| == |colIds|
    ensures var r := ConvertCols(h, tableName, colIds, src, sp, srcVals);
            r.Ok? ==> |r.value.cols| == |r.value.vals| == |NonNullPositions(srcVals)|
  {
    if colIds != [] {
      var n := |colIds| - 1;
      ConvertColsLength(h, tableName, colIds[..n], src, sp, srcVals[..n]);
      ConvertColsStep(h, tableName, colIds, src, sp, srcVals);
    }
  }

  /** A row converts exactly when every one of its columns does. */
  lemma {:induction false} ConvertColsOkIff(h: Helpers, tableName: string, colIds: seq<string>, src: SrcTable, sp: SpTable, srcVals: seq<SqlValue>)
    requires |srcVals| == |colIds|
    ensures ConvertCols(h, tableName, colIds, src, sp, srcVals).Ok? <==>
            forall i :: 0 <= i < |colIds| ==> ColumnConverts(h, colIds[i], src, sp, srcVals[i])
  {
    if colIds != [] {
      var n := |colIds| - 1;
      var ids, vs := colIds[..n], srcVals[..n];
      ConvertColsOkIff(h, tableName, ids, src, sp, vs);
      ConvertColsStepOk(h, tableName, colIds, src, sp, srcVals);
      if ConvertCols(h, tableName, colIds, src, sp, srcVals).Ok? {
        assert ColumnConverts(h, colIds[n], src, sp, srcVals[n]);
        forall i | 0 <= i < |colIds| ensures ColumnConverts(h, colIds[i], src, sp, srcVals[i]) {
          if i < n {
            assert ids[i] == colIds[i] && vs[i] == srcVals[i];
          }
        }
      } else if ConvertCols(h, tableName, ids, src, sp, vs).Err? {
        var i :| 0 <= i < n && !ColumnConverts(h, ids[i], src, sp, vs[i]);
        assert ids[i] == colIds[i] && vs[i] == srcVals[i];
      }
    }
  }

  /** A row converts exactly when its other columns and its last column do. */
  lemma ConvertColsStepOk(h: Helpers, tableName: string, colIds: seq<string>, src: SrcTable, sp: SpTable, srcVals: seq<SqlValue>)
    requires |srcVals| == |colIds| > 0
    ensures var n := |colIds| - 1;
            ConvertCols(h, tableName, colIds, src, sp, srcVals).Ok? <==>
            ConvertCols(h, tableName, colIds[..n], src, sp, srcVals[..n]).Ok? && ColumnConverts(h, colIds[n], src, sp, srcVals[n])
  {
  }

  /** The last column decides a row whose other columns convert. */
  lemma ConvertColsStep(h: Helpers, tableName: string, colIds: seq<string>, src: SrcTable, sp: SpTable, srcVals: seq<SqlValue>)
    requires |srcVals| == |colIds| > 0
    ensures var n := |colIds| - 1;
            var pre := ConvertCols(h, tableName, colIds[..n], src, sp, srcVals[..n]);
            var r := ConvertCols(h, tableName, colIds, src, sp, srcVals);
            var id := colIds[n];
            && (r.Ok? <==> pre.Ok? && ColumnConverts(h, id, src, sp, srcVals[n]))
            && (r.Ok? ==>
                  r.value == if srcVals[n] == VNull then pre.value
                             else Converted(pre.value.cols + [sp.colDefs[id].name],
                                            pre.value.vals + [ConvertValue(h, src.colDefs[id], sp.colDefs[id], srcVals[n]).value]))
  {
  }

  /**
   * The first column that does not convert decides the error: a missing
   * definition is reported even when the slot is NULL.
   */
  lemma {:induction false} ConvertColsFirstError(
    h: Helpers, tableName: string, colIds: seq<string>, src: SrcTable, sp: SpTable, srcVals: seq<SqlValue>, i: nat)
    requires |srcVals| == |colIds| && i < |colIds|
    requires forall j :: 0 <= j < i ==> ColumnConverts(h, colIds[j], src, sp, srcVals[j])
    requires !ColumnConverts(h, colIds[i], src, sp, srcVals[i])
    ensures var id := colIds[i];
            ConvertCols(h, tableName, colIds, src, sp, srcVals) ==
              if id !in src.colDefs || id !in sp.colDefs then Err(MissingSchema(id, tableName))
              else Err(CannotConvert(tableName, ConvertValue(h, src.colDefs[id], sp.colDefs[id], srcVals[i]).error))
  {
    var n := |colIds| - 1;
    if i == n {
      ConvertColsOkIff(h, tableName, colIds[..n], src, sp, srcVals[..n]);
    } else {
      ConvertColsFirstError(h, tableName, colIds[..n], src, sp, srcVals[..n], i);
    }
  }

  /**
   * A converted row lists, for each non-NULL slot in order, the target name
   * of its column and its converted value.
   */
  lemma {:induction false} ConvertColsContent(h: Helpers, tableName: string, colIds: seq<string>, src: SrcTable, sp: SpTable, srcVals: seq<SqlValue>)
    requires |srcVals| == |colIds|
    requires ConvertCols(h, tableName, colIds, src, sp, srcVals).Ok?
    ensures var c := ConvertCols(h, tableName, colIds, src, sp, srcVals).value;
            var ps := NonNullPositions(srcVals);
            && |c.cols| == |c.vals| == |ps|
            && forall k :: 0 <= k < |ps| ==>
              var id := colIds[ps[k]];
              id in src.colDefs && id in sp.colDefs &&
              c.cols[k] == sp.colDefs[id].name &&
              ConvertValue(h, src.colDefs[id], sp.colDefs[id], srcVals[ps[k]]) == Ok(c.vals[k])
  {
    if colIds != [] {
      var n := |colIds| - 1;
      var ids, vs := colIds[..n], srcVals[..n];
      ConvertColsStep(h, tableName, colIds, src, sp, srcVals);
      ConvertColsLength(h, tableName, colIds, src, sp, srcVals);
      ConvertColsContent(h, tableName, ids, src, sp, vs);
      var c := ConvertCols(h, tableName, colIds, src, sp, srcVals).value;
      var c' := ConvertCols(h, tableName, ids, src, sp, vs).value;
      var ps, ps' := NonNullPositions(srcVals), NonNullPositions(vs);
      assert ps == ps' + (if srcVals[n] != VNull then [n] else []);
      forall k | 0 <= k < |ps|
        ensures var id := colIds[ps[k]];
                id in src.colDefs && id in sp.colDefs &&
                c.cols[k] == sp.colDefs[id].name &&
                ConvertValue(h, src.colDefs[id], sp.colDefs[id], srcVals[ps[k]]) == Ok(c.vals[k])
      {
        if k < |ps'| {
          assert ps[k] == ps'[k] && ids[ps[k]] == colIds[ps[k]] && vs[ps[k]] == srcVals[ps[k]];
          assert c.cols[k] == c'.cols[k] && c.vals[k] == c'.vals[k];
        }
      }
    }
  }

  /** An error on a prefix of the columns is the error of the whole row. */
  lemma {:induction false} ConvertColsPrefixError(
    h: Helpers, tableName: string, colIds: seq<string>, src: SrcTable, sp: SpTable, srcVals: seq<SqlValue>, i: nat)
    requires |srcVals| == |colIds| && i <= |colIds|
    requires ConvertCols(h, tableName, colIds[..i], src, sp, srcVals[..i]).Err?
    ensures ConvertCols(h, tableName, colIds, src, sp, srcVals) == ConvertCols(h, tableName, colIds[..i], src, sp, srcVals[..i])
    decreases |colIds| - i
  {
    if i < |colIds| {
      assert colIds[..i + 1][..i] == colIds[..i] && srcVals[..i + 1][..i] == srcVals[..i];
      ConvertColsPrefixError(h, tableName, colIds, src, sp, srcVals, i + 1);
    } else {
      assert colIds[..i] == colIds && srcVals[..i] == srcVals;
    }
  }

  /**
   * All of `convertSQLRow` as a function of the synthetic-key map it reads
   * and writes: on success a key-less table gets its key name and value
   * appended last and its counter advanced; on error nothing changes.
   */
  function ConvertSqlRowSpec(
    h: Helpers, synth: map<string, SyntheticPKey>, spSchemas: map<string, SpTable>, tableId: string, tableName: string,
    colIds: seq<string>, src: SrcTable, sp: SpTable, srcVals: seq<SqlValue>)
    : (Outcome<Converted>, map<string, SyntheticPKey>)
    requires |srcVals| == |colIds|
  {
    match ConvertCols(h, tableName, colIds, src, sp, srcVals)
    case Err(e) => (Err(e), synth)
    case Ok(c) =>
      if tableId in synth then
        var aux := synth[tableId];
        (Ok(Converted(c.cols + [SpColumnName(spSchemas, tableId, aux.colId)], c.vals + [SString(SyntheticKeyValue(aux.sequence))])),
         synth[tableId := aux.(sequence := NextSequence(aux.sequence))])
      else (Ok(c), synth)
  }

  /**
   * The shape of a converted row: the row converts exactly when its columns
   * do; the converted columns come first, in column order, then the
   * synthetic key of a key-less table; the counter moves by one exactly
   * when a key-less table's row converts.
   */
  lemma ConvertSqlRowShape(
    h: Helpers, synth: map<string, SyntheticPKey>, spSchemas: map<string, SpTable>, tableId: string, tableName: string,
    colIds: seq<string>, src: SrcTable, sp: SpTable, srcVals: seq<SqlValue>)
    requires |srcVals| == |colIds|
    ensures var (r, synth') := ConvertSqlRowSpec(h, synth, spSchemas, tableId, tableName, colIds, src, sp, srcVals);
            var keyed := tableId in synth;
            var c := ConvertCols(h, tableName, colIds, src, sp, srcVals);
            && (r.Ok? <==> c.Ok?)
            && (r.Ok? ==> Extends(r.value.cols, c.value.cols) && Extends(r.value.vals, c.value.vals))
            && (r.Ok? && !keyed ==> r.value == c.value)
            && synth'.Keys == synth.Keys
            && (forall t :: t in synth && t != tableId ==> synth'[t] == synth[t])
            && (r.Err? || !keyed ==> synth' == synth)
            && (r.Ok? ==> |r.value.cols| == |r.value.vals| == |NonNullPositions(srcVals)| + (if keyed then 1 else 0))
            && (r.Ok? && keyed ==>
                  var aux := synth[tableId];
                  && r.value.vals[|r.value.vals| - 1] == SString(SyntheticKeyValue(aux.sequence))
                  && r.value.cols[|r.value.cols| - 1] == SpColumnName(spSchemas, tableId, aux.colId)
                  && synth'[tableId] == aux.(sequence := NextSequence(aux.sequence)))
  {
    ConvertColsLength(h, tableName, colIds, src, sp, srcVals);
  }

  datatype BadRow = BadRow(table: string, cols: seq<string>, data: seq<string>)
  datatype WrittenRow = WrittenRow(srcTable: string, spTable: string, cols: seq<string>, vals: seq<SpValue>)

  /** The part of `internal.Conv` that the data pass reads and writes. */
  datatype DataState = DataState(
    synth: map<string, SyntheticPKey>,
    badRows: map<string, nat>,
    samples: seq<BadRow>,
    unexpecteds: nat,
    written: seq<WrittenRow>)

  function BadCount(m: map<string, nat>, table: string): nat {
    if table in m then m[table] else 0
  }

  /** `conv.StatsAddBadRow`: one more bad row for the table. */
  function AddBadRow(m: map<string, nat>, table: string): (m': map<string, nat>)
    ensures BadCount(m', table) == BadCount(m, table) + 1
    ensures forall t :: t != table ==> BadCount(m', t) == BadCount(m, t)
  {
    m[table := BadCount(m, table) + 1]
  }

  /**
   * `internal.Conv`: the source and target schemas, the synthetic keys, the
   * bad-row statistics and samples, the count of unexpected conditions, and
   * the rows handed to the data sink by `WriteRow`.
   */
  class Conv {
    var srcSchema: map<string, SrcTable>
    var spSchema: map<string, SpTable>
    var syntheticPKeys: map<string, SyntheticPKey>
    var badRows: map<string, nat>
    var sampleBadRows: seq<BadRow>
    var unexpecteds: nat
    var written: seq<WrittenRow>

    constructor(srcSchema: map<string, SrcTable>, spSchema: map<string, SpTable>, syntheticPKeys: map<string, SyntheticPKey>)
      ensures this.srcSchema == srcSchema && this.spSchema == spSchema
      ensures State() == DataState(syntheticPKeys, map[], [], 0, [])
    {
      this.srcSchema := srcSchema;
      this.spSchema := spSchema;
      this.syntheticPKeys := syntheticPKeys;
      badRows := map[];
      sampleBadRows := [];
      unexpecteds := 0;
      written := [];
    }

    function State(): DataState
      reads this
    {
      DataState(syntheticPKeys, badRows, sampleBadRows, unexpecteds, written)
    }
  }

  /** `convertSQLRow`: the column loop, then the synthetic key of a key-less table. */
  method ConvertSqlRow(
    h: Helpers, conv: Conv, tableId: string, colIds: seq<string>, srcSchema: SrcTable, spSchema: SpTable, srcVals: seq<SqlValue>)
    returns (r: Outcome<Converted>)
    requires |srcVals| == |colIds|
    modifies conv`syntheticPKeys
    ensures (r, conv.syntheticPKeys) ==
            ConvertSqlRowSpec(h, old(conv.syntheticPKeys), conv.spSchema, tableId, SrcTableName(conv.srcSchema, tableId),
                              colIds, srcSchema, spSchema, srcVals)
  {
    var tableName := SrcTableName(conv.srcSchema, tableId);
    r := ConvertColumns(h, tableName, colIds, srcSchema, spSchema, srcVals);
    if r.Err? {
      return;
    }
    var cs, vs := r.value.cols, r.value.vals;
    if tableId in conv.syntheticPKeys {
      var aux := conv.syntheticPKeys[tableId];
      cs := cs + [SpColumnName(conv.spSchema, tableId, aux.colId)];
      vs := vs + [SString(SyntheticKeyValue(aux.sequence))];
      conv.syntheticPKeys := conv.syntheticPKeys[tableId := aux.(sequence := NextSequence(aux.sequence))];
    }
    return Ok(Converted(cs, vs));
  }

  /**
   * The column loop of `convertSQLRow`: it stops at the first column whose
   * definition is missing or whose value does not convert, and skips NULL
   * slots.
   */
  method ConvertColumns(
    h: Helpers, tableName: string, colIds: seq<string>, srcSchema: SrcTable, spSchema: SpTable, srcVals: seq<SqlValue>)
    returns (r: Outcome<Converted>)
    requires |srcVals| == |colIds|
    ensures r == ConvertCols(h, tableName, colIds, srcSchema, spSchema, srcVals)
  {
    var acc := Converted([], []);
    var i := 0;
    while i < |colIds|
      invariant 0 <= i <= |colIds|
      invariant ConvertCols(h, tableName, colIds[..i], srcSchema, spSchema, srcVals[..i]) == Ok(acc)
    {
      var next := ConvertColumn(h, tableName, colIds, srcSchema, spSchema, srcVals, i, acc);
      if next.Err? {
        ConvertColsPrefixError(h, tableName, colIds, srcSchema, spSchema, srcVals, i + 1);
        return next;
      }
      acc := next.value;
      i := i + 1;
    }
    assert colIds[..i] == colIds && srcVals[..i] == srcVals;
    return Ok(acc);
  }

  /**
   * One iteration of the column loop of `convertSQLRow`: column `i` is
   * looked up in both schemas, skipped when NULL, else converted and
   * appended.
   */
  method ConvertColumn(
    h: Helpers, tableName: string, colIds: seq<string>, srcSchema: SrcTable, spSchema: SpTable, srcVals: seq<SqlValue>,
    i: nat, acc: Converted)
    returns (r: Outcome<Converted>)
    requires |srcVals| == |colIds| && i < |colIds|
    requires ConvertCols(h, tableName, colIds[..i], srcSchema, spSchema, srcVals[..i]) == Ok(acc)
    ensures r == ConvertCols(h, tableName, colIds[..i + 1], srcSchema, spSchema, srcVals[..i + 1])
  {
    assert colIds[..i + 1][..i] == colIds[..i] && srcVals[..i + 1][..i] == srcVals[..i];
    assert colIds[..i + 1][i] == colIds[i] && srcVals[..i + 1][i] == srcVals[i];
    var colId := colIds[i];
    if colId !in srcSchema.colDefs || colId !in spSchema.colDefs {
      return Err(MissingSchema(colId, tableName));
    }
    if srcVals[i] == VNull {
      return Ok(acc);
    }
    var spCd := spSchema.colDefs[colId];
    var spVal := ConvertValue(h, srcSchema.colDefs[colId], spCd, srcVals[i]);
    if spVal.Err? {
      return Err(CannotConvert(tableName, spVal.error));
    }
    return Ok(Converted(acc.cols + [spCd.name], acc.vals + [spVal.value]));
  }

  /** One `rows.Next()` step: the scan failed, or it filled the slots with these values. */
  datatype ScanResult = ScanError | Scanned(vals: seq<SqlValue>)

  /** The result set of the table's `SELECT *`: its column names and its rows in cursor order. */
  datatype Cursor = Cursor(srcCols: seq<string>, rows: seq<ScanResult>)

  /** What the data pass of one table fixes before its loop starts. */
  datatype TableContext = TableContext(
    tableId: string, srcTableName: string, spTableName: string, colIds: seq<string>, srcCols: seq<string>,
    src: SrcTable, sp: SpTable, spSchemas: map<string, SpTable>)

  /**
   * `common.PrepareValues` puts the scanned row in `colIds` order, one value
   * per column id, which is what `convertSQLRow` indexes by.
   */
  ghost predicate PreparesEveryColumn(h: Helpers) {
    forall tableId, colIds, srcCols, vals :: |h.prepareValues(tableId, colIds, srcCols, vals).vals| == |colIds|
  }

  /** One iteration of the `ProcessData` loop. */
  function RowStep(h: Helpers, ctx: TableContext, st: DataState, row: ScanResult): DataState
    requires PreparesEveryColumn(h)
  {
    match row
    case ScanError =>
      st.(unexpecteds := st.unexpecteds + 1, badRows := AddBadRow(st.badRows, ctx.srcTableName))
    case Scanned(v) =>
      var prepared := h.prepareValues(ctx.tableId, ctx.colIds, ctx.srcCols, v);
      var (r, synth') := ConvertSqlRowSpec(h, st.synth, ctx.spSchemas, ctx.tableId, ctx.srcTableName,
                                           ctx.colIds, ctx.src, ctx.sp, prepared.vals);
      if prepared.failed || r.Err? then
        st.(synth := synth', unexpecteds := st.unexpecteds + 1, badRows := AddBadRow(st.badRows, ctx.srcTableName),
            samples := st.samples + [BadRow(ctx.srcTableName, ctx.srcCols, ValsToStrings(h, v))])
      else
        st.(synth := synth', written := st.written + [WrittenRow(ctx.srcTableName, ctx.spTableName, r.value.cols, r.value.vals)])
  }

  /** The `ProcessData` loop over the rows still to come, from state `st`. */
  function ProcessRows(h: Helpers, ctx: TableContext, st: DataState, rows: seq<ScanResult>): DataState
    requires PreparesEveryColumn(h)
    decreases |rows|
  {
    if rows == [] then st else ProcessRows(h, ctx, RowStep(h, ctx, st, rows[0]), rows[1..])
  }

  function ScanErrors(rows: seq<ScanResult>): nat {
    if rows == [] then 0 else (if rows[0].ScanError? then 1 else 0) + ScanErrors(rows[1..])
  }

  /** Rows appended, never removed or changed. */
  predicate Extends<T(==)>(longer: seq<T>, shorter: seq<T>) {
    |longer| >= |shorter| && longer[..|shorter|] == shorter
  }

  /**
   * From `st` to `st'`, `count` rows of which `scanErrors` failed to scan
   * were each written or counted bad (and unexpected) for table `tn`; every
   * bad row that was scanned left a sample; rows written went to table
   * `spTable`; earlier output stays.
   */
  ghost predicate Accounted(st: DataState, st': DataState, tn: string, spTable: string, count: nat, scanErrors: nat) {
    var bad := BadCount(st'.badRows, tn) - BadCount(st.badRows, tn);
    && Extends(st'.written, st.written) && Extends(st'.samples, st.samples)
    && scanErrors <= bad
    && bad + (|st'.written| - |st.written|) == count
    && |st'.samples| - |st.samples| == bad - scanErrors
    && st'.unexpecteds - st.unexpecteds == bad
    && (forall k :: |st.written| <= k < |st'.written| ==> st'.written[k].spTable == spTable)
  }

  /**
   * One row is either written or counted bad (and unexpected) for this
   * table; a bad row that was scanned leaves a sample; other tables'
   * statistics and synthetic keys are untouched.
   */
  lemma RowStepAccounting(h: Helpers, ctx: TableContext, st: DataState, row: ScanResult)
    requires PreparesEveryColumn(h)
    ensures var st1 := RowStep(h, ctx, st, row);
            var tn := ctx.srcTableName;
            && Accounted(st, st1, tn, ctx.spTableName, 1, if row.ScanError? then 1 else 0)
            && (forall t :: t != tn ==> BadCount(st1.badRows, t) == BadCount(st.badRows, t))
            && st1.synth.Keys == st.synth.Keys
            && (forall t :: t in st.synth && t != ctx.tableId ==> st1.synth[t] == st.synth[t])
            && (ctx.tableId !in st.synth ==> st1.synth == st.synth)
  {
    var st1 := RowStep(h, ctx, st, row);
    if row.Scanned? {
      var prepared := h.prepareValues(ctx.tableId, ctx.colIds, ctx.srcCols, row.vals);
      ConvertSqlRowShape(h, st.synth, ctx.spSchemas, ctx.tableId, ctx.srcTableName, ctx.colIds, ctx.src, ctx.sp, prepared.vals);
      if |st1.written| == |st.written| {
        assert st1.written == st.written && st1.samples[..|st.samples|] == st.samples;
      } else {
        assert st1.written[..|st.written|] == st.written && st1.samples == st.samples;
      }
    } else {
      assert st1.written == st.written && st1.samples == st.samples;
    }
  }

  /** Accounting for one row, then for the rest, is accounting for all of them. */
  lemma AccountedStep(
    st: DataState, st1: DataState, st': DataState, tn: string, spTable: string, count: nat, scanErrors: nat, firstFailed: nat)
    requires firstFailed <= 1 && count > 0 && firstFailed <= scanErrors
    requires Accounted(st, st1, tn, spTable, 1, firstFailed)
    requires Accounted(st1, st', tn, spTable, count - 1, scanErrors - firstFailed)
    ensures Accounted(st, st', tn, spTable, count, scanErrors)
  {
    assert st'.written[..|st.written|] == st'.written[..|st1.written|][..|st.written|];
    assert st'.samples[..|st.samples|] == st'.samples[..|st1.samples|][..|st.samples|];
  }

  /**
   * The loop never stops early: every row is either written once or counted
   * once as bad; every bad row but a failed scan leaves a sample; every bad
   * row is reported as unexpected; rows already written or sampled stay.
   */
  lemma {:induction false} ProcessRowsAccounting(h: Helpers, ctx: TableContext, st: DataState, rows: seq<ScanResult>)
    requires PreparesEveryColumn(h)
    ensures Accounted(st, ProcessRows(h, ctx, st, rows), ctx.srcTableName, ctx.spTableName, |rows|, ScanErrors(rows))
    decreases |rows|
  {
    if rows == [] {
      assert st.written[..|st.written|] == st.written && st.samples[..|st.samples|] == st.samples;
    } else {
      var st1 := RowStep(h, ctx, st, rows[0]);
      RowStepAccounting(h, ctx, st, rows[0]);
      ProcessRowsAccounting(h, ctx, st1, rows[1..]);
      AccountedStep(st, st1, ProcessRows(h, ctx, st1, rows[1..]), ctx.srcTableName, ctx.spTableName,
                    |rows|, ScanErrors(rows), if rows[0].ScanError? then 1 else 0);
    }
  }

  /** Other tables' bad-row statistics and synthetic keys are left as they were. */
  lemma {:induction false} ProcessRowsFrame(h: Helpers, ctx: TableContext, st: DataState, rows: seq<ScanResult>)
    requires PreparesEveryColumn(h)
    ensures var st' := ProcessRows(h, ctx, st, rows);
            && (forall t :: t != ctx.srcTableName ==> BadCount(st'.badRows, t) == BadCount(st.badRows, t))
            && st'.synth.Keys == st.synth.Keys
            && (forall t :: t in st.synth && t != ctx.tableId ==> st'.synth[t] == st.synth[t])
            && (ctx.tableId !in st.synth ==> st'.synth == st.synth)
    decreases |rows|
  {
    if rows != [] {
      RowStepAccounting(h, ctx, st, rows[0]);
      ProcessRowsFrame(h, ctx, RowStep(h, ctx, st, rows[0]), rows[1..]);
    }
  }

  /** `common.PrepareValues` never reports an error. */
  ghost predicate PrepareNeverFails(h: Helpers) {
    forall tableId, colIds, srcCols, vals :: !h.prepareValues(tableId, colIds, srcCols, vals).failed
  }

  /** A written row whose last column is `keyCol`, holding the text `key`. */
  predicate EndsWithKey(w: WrittenRow, keyCol: string, key: string) {
    && |w.vals| > 0 && |w.cols| == |w.vals|
    && w.vals[|w.vals| - 1] == SString(key)
    && w.cols[|w.cols| - 1] == keyCol
  }

  /** A written row whose last column is the synthetic key `keyCol` holding the key of counter value `sequence`. */
  predicate CarriesKey(w: WrittenRow, keyCol: string, sequence: Int64) {
    EndsWithKey(w, keyCol, SyntheticKeyValue(sequence))
  }

  /** From position `start` on, the written rows carry the texts `key` gives consecutive counter values from `s0`. */
  predicate KeysFrom(ws: seq<WrittenRow>, start: nat, keyCol: string, key: Int64 -> string, s0: Int64)
    requires start <= |ws|
  {
    forall k :: start <= k < |ws| ==> EndsWithKey(ws[k], keyCol, key(SequenceAfter(s0, k - start)))
  }

  /**
   * Whether a row uses up a key of a key-less table: it scanned and its
   * prepared values convert, whether or not `PrepareValues` failed.
   */
  predicate ConsumesKey(h: Helpers, ctx: TableContext, row: ScanResult)
    requires PreparesEveryColumn(h)
  {
    && row.Scanned?
    && ConvertCols(h, ctx.srcTableName, ctx.colIds, ctx.src, ctx.sp,
                   h.prepareValues(ctx.tableId, ctx.colIds, ctx.srcCols, row.vals).vals).Ok?
  }

  /** Whether a row is written: it uses up a key and `PrepareValues` did not fail. */
  predicate WritesRow(h: Helpers, ctx: TableContext, row: ScanResult)
    requires PreparesEveryColumn(h)
  {
    ConsumesKey(h, ctx, row) && !h.prepareValues(ctx.tableId, ctx.colIds, ctx.srcCols, row.vals).failed
  }

  /** The number of keys the rows use up. */
  function KeysUsed(h: Helpers, ctx: TableContext, rows: seq<ScanResult>): nat
    requires PreparesEveryColumn(h)
  {
    if rows == [] then 0 else (if ConsumesKey(h, ctx, rows[0]) then 1 else 0) + KeysUsed(h, ctx, rows[1..])
  }

  function Shift(xs: seq<nat>, d: nat): (r: seq<nat>)
    ensures |r| == |xs| && forall k :: 0 <= k < |xs| ==> r[k] == xs[k] + d
  {
    seq(|xs|, k requires 0 <= k < |xs| => xs[k] + d)
  }

  /** For each row written, in order, the number of keys the rows before it used up. */
  function KeyOffsets(h: Helpers, ctx: TableContext, rows: seq<ScanResult>): seq<nat>
    requires PreparesEveryColumn(h)
  {
    if rows == [] then [] else
      (if WritesRow(h, ctx, rows[0]) then [0] else []) +
      Shift(KeyOffsets(h, ctx, rows[1..]), if ConsumesKey(h, ctx, rows[0]) then 1 else 0)
  }

  predicate Increasing(xs: seq<nat>) {
    forall i, j :: 0 <= i < j < |xs| ==> xs[i] < xs[j]
  }

  /** Putting a 0 in front of offsets shifted by one, or shifting them alone, keeps them increasing and bounded. */
  lemma ShiftedIncreasing(rest: seq<nat>, c: nat, w: bool, bound: nat)
    requires w ==> c == 1
    requires Increasing(rest) && forall k :: 0 <= k < |rest| ==> rest[k] < bound
    ensures var offs := (if w then [0] else []) + Shift(rest, c);
            Increasing(offs) && forall k :: 0 <= k < |offs| ==> offs[k] < bound + c
  {
    var head: seq<nat> := if w then [0] else [];
    var offs := head + Shift(rest, c);
    forall k | 0 <= k < |offs| ensures offs[k] == if k < |head| then 0 else rest[k - |head|] + c {
    }
  }

  /** The offsets are strictly increasing and below the number of keys used. */
  lemma {:induction false} KeyOffsetsIncreasing(h: Helpers, ctx: TableContext, rows: seq<ScanResult>)
    requires PreparesEveryColumn(h)
    ensures var offs := KeyOffsets(h, ctx, rows);
            && (forall k :: 0 <= k < |offs| ==> offs[k] < KeysUsed(h, ctx, rows))
            && Increasing(offs)
  {
    if rows != [] {
      KeyOffsetsIncreasing(h, ctx, rows[1..]);
      var c := if ConsumesKey(h, ctx, rows[0]) then 1 else 0;
      ShiftedIncreasing(KeyOffsets(h, ctx, rows[1..]), c, WritesRow(h, ctx, rows[0]), KeysUsed(h, ctx, rows[1..]));
    }
  }

  /** Putting a 0 in front of the offsets 0, 1, ... shifted by one gives the offsets 0, 1, ... again. */
  lemma ShiftedConsecutive(rest: seq<nat>)
    requires forall k :: 0 <= k < |rest| ==> rest[k] == k
    ensures var offs := [0] + Shift(rest, 1);
            forall k :: 0 <= k < |offs| ==> offs[k] == k
  {
  }

  /** When `PrepareValues` never fails, every row that uses up a key is written, and the k-th one has offset k. */
  lemma {:induction false} KeyOffsetsNoPrepareFailure(h: Helpers, ctx: TableContext, rows: seq<ScanResult>)
    requires PreparesEveryColumn(h) && PrepareNeverFails(h)
    ensures var offs := KeyOffsets(h, ctx, rows);
            |offs| == KeysUsed(h, ctx, rows) && forall k :: 0 <= k < |offs| ==> offs[k] == k
  {
    if rows != [] {
      KeyOffsetsNoPrepareFailure(h, ctx, rows[1..]);
      var rest := KeyOffsets(h, ctx, rows[1..]);
      assert WritesRow(h, ctx, rows[0]) == ConsumesKey(h, ctx, rows[0]);
      if ConsumesKey(h, ctx, rows[0]) {
        ShiftedConsecutive(rest);
      } else {
        assert KeyOffsets(h, ctx, rows) == Shift(rest, 0);
      }
    }
  }

  /**
   * From `st` to `st'` the counter has moved on by `used` and the rows
   * written are extended by one row per offset, the k-th new one carrying
   * the text `key` gives the counter's value `offs[k]` steps after its
   * value in `st`.
   */
  ghost predicate KeyedAt(st: DataState, st': DataState, tableId: string, keyCol: string, key: Int64 -> string,
                          used: nat, offs: seq<nat>)
    requires tableId in st.synth
  {
    var aux := st.synth[tableId];
    && tableId in st'.synth
    && Extends(st'.written, st.written)
    && |st'.written| == |st.written| + |offs|
    && st'.synth[tableId] == aux.(sequence := SequenceAfter(aux.sequence, used))
    && KeysAt(st'.written, |st.written|, keyCol, key, aux.sequence, offs)
  }

  /** The row at `start + k` carries the text `key` gives the counter's value `offs[k]` steps after `s0`. */
  predicate KeysAt(ws: seq<WrittenRow>, start: nat, keyCol: string, key: Int64 -> string, s0: Int64, offs: seq<nat>)
    requires start + |offs| <= |ws|
  {
    forall k :: 0 <= k < |offs| ==> EndsWithKey(ws[start + k], keyCol, key(SequenceAfter(s0, offs[k])))
  }

  /**
   * One row of a key-less table: it uses up a key exactly when it converts,
   * and it is written, carrying that key last, exactly when it also
   * prepared cleanly.
   */
  lemma RowStepKeys(h: Helpers, ctx: TableContext, st: DataState, row: ScanResult)
    requires PreparesEveryColumn(h)
    requires ctx.tableId in st.synth
    ensures var st1 := RowStep(h, ctx, st, row);
            var aux := st.synth[ctx.tableId];
            var keyCol := SpColumnName(ctx.spSchemas, ctx.tableId, aux.colId);
            && ctx.tableId in st1.synth
            && st1.synth[ctx.tableId] == (if ConsumesKey(h, ctx, row) then aux.(sequence := NextSequence(aux.sequence)) else aux)
            && Extends(st1.written, st.written)
            && |st1.written| == |st.written| + (if WritesRow(h, ctx, row) then 1 else 0)
            && (WritesRow(h, ctx, row) ==> CarriesKey(st1.written[|st.written|], keyCol, aux.sequence))
  {
    if row.Scanned? {
      var prepared := h.prepareValues(ctx.tableId, ctx.colIds, ctx.srcCols, row.vals);
      ConvertSqlRowShape(h, st.synth, ctx.spSchemas, ctx.tableId, ctx.srcTableName, ctx.colIds, ctx.src, ctx.sp, prepared.vals);
    }
  }

  /** A row that uses up `c` keys and writes a row if `w`, followed by a keyed pass, is a keyed pass. */
  lemma KeyedAtStep(
    st: DataState, st1: DataState, st': DataState, tableId: string, keyCol: string, key: Int64 -> string, c: nat, w: bool, used: nat, offs: seq<nat>)
    requires tableId in st.synth && tableId in st1.synth
    requires c <= 1 && (w ==> c == 1)
    requires var aux := st.synth[tableId];
             && st1.synth[tableId] == (if c == 1 then aux.(sequence := NextSequence(aux.sequence)) else aux)
             && Extends(st1.written, st.written)
             && |st1.written| == |st.written| + (if w then 1 else 0)
             && (w ==> EndsWithKey(st1.written[|st.written|], keyCol, key(aux.sequence)))
    requires KeyedAt(st1, st', tableId, keyCol, key, used, offs)
    ensures KeyedAt(st, st', tableId, keyCol, key, used + c, (if w then [0] else []) + Shift(offs, c))
  {
    var aux := st.synth[tableId];
    var s0, s1 := aux.sequence, st1.synth[tableId].sequence;
    var n, n1 := |st.written|, |st1.written|;
    var offs' := (if w then [0] else []) + Shift(offs, c);
    assert Extends(st'.written, st.written) by {
      assert st'.written[..n1][..n] == st'.written[..n];
    }
    assert SequenceAfter(s1, used) == SequenceAfter(s0, used + c) by {
      if c == 1 {
        SequenceAfterShift(s0, used);
      }
    }
    assert st'.synth[tableId] == aux.(sequence := SequenceAfter(s0, used + c));
    forall k | 0 <= k < |offs'|
      ensures EndsWithKey(st'.written[n + k], keyCol, key(SequenceAfter(s0, offs'[k])))
    {
      ShiftedElement(offs, c, w, k);
      KeyedAtStepAt(st'.written, st1.written, n, keyCol, key, s0, s1, c, w, offs, k, offs'[k]);
    }
  }

  /**
   * The k-th new row of `KeyedAtStep`, whose offset is `o`: `ws1` is the
   * rows after the step, `ws'` after the later pass.
   */
  lemma KeyedAtStepAt(
    ws': seq<WrittenRow>, ws1: seq<WrittenRow>, n: nat, keyCol: string, key: Int64 -> string, s0: Int64, s1: Int64,
    c: nat, w: bool, offs: seq<nat>, k: nat, o: nat)
    requires c <= 1 && (w ==> c == 1) && s1 == (if c == 1 then NextSequence(s0) else s0)
    requires |ws1| == n + (if w then 1 else 0) && Extends(ws', ws1) && |ws'| == |ws1| + |offs|
    requires w ==> EndsWithKey(ws1[n], keyCol, key(s0))
    requires KeysAt(ws', |ws1|, keyCol, key, s1, offs)
    requires k < |offs| + (if w then 1 else 0)
    requires o == if w && k == 0 then 0 else offs[k - (if w then 1 else 0)] + c
    ensures n + k < |ws'|
    ensures EndsWithKey(ws'[n + k], keyCol, key(SequenceAfter(s0, o)))
  {
    if w && k == 0 {
      KeyedAtFirst(ws', ws1, n, keyCol, key, s0);
    } else {
      var k' := k - (if w then 1 else 0);
      assert n + k == |ws1| + k';
      KeyedAtShifted(ws', |ws1|, keyCol, key, s0, s1, c, offs, k');
    }
  }

  /** The offsets of one step followed by a pass, by position. */
  lemma ShiftedElement(offs: seq<nat>, c: nat, w: bool, k: nat)
    requires k < |offs| + (if w then 1 else 0)
    ensures ((if w then [0] else []) + Shift(offs, c))[k] ==
            if w && k == 0 then 0 else offs[k - (if w then 1 else 0)] + c
  {
  }

  /** The row the step wrote survives the later pass and carries the counter's value before the step. */
  lemma KeyedAtFirst(ws': seq<WrittenRow>, ws1: seq<WrittenRow>, n: nat, keyCol: string, key: Int64 -> string, s0: Int64)
    requires Extends(ws', ws1) && n < |ws1|
    requires EndsWithKey(ws1[n], keyCol, key(s0))
    ensures n < |ws'| && EndsWithKey(ws'[n], keyCol, key(SequenceAfter(s0, 0)))
  {
    SequenceAfterStep(s0, 0);
    assert ws'[n] == ws'[..|ws1|][n];
  }

  /** The key of a row of the later pass, counted from the counter before the earlier row. */
  lemma KeyedAtShifted(ws': seq<WrittenRow>, start: nat, keyCol: string, key: Int64 -> string, s0: Int64, s1: Int64,
                       c: nat, offs: seq<nat>, k: nat)
    requires c <= 1 && s1 == (if c == 1 then NextSequence(s0) else s0)
    requires start + |offs| <= |ws'| && KeysAt(ws', start, keyCol, key, s1, offs)
    requires k < |offs|
    ensures EndsWithKey(ws'[start + k], keyCol, key(SequenceAfter(s0, offs[k] + c)))
  {
    if c == 1 {
      SequenceAfterShift(s0, offs[k]);
    }
  }

  /**
   * For a key-less table: the counter ends advanced by the number of rows
   * that converted, and the k-th row written in this pass carries, last,
   * the key of the counter's value `KeyOffsets(rows)[k]` steps after its
   * value when the pass started.
   */
  lemma {:induction false} ProcessRowsKeys(h: Helpers, ctx: TableContext, st: DataState, rows: seq<ScanResult>)
    requires PreparesEveryColumn(h)
    requires ctx.tableId in st.synth
    ensures KeyedAt(st, ProcessRows(h, ctx, st, rows), ctx.tableId,
                    SpColumnName(ctx.spSchemas, ctx.tableId, st.synth[ctx.tableId].colId), SyntheticKeyValue,
                    KeysUsed(h, ctx, rows), KeyOffsets(h, ctx, rows))
    decreases |rows|
  {
    if rows == [] {
      KeyedAtEmpty(st, ctx.tableId, SpColumnName(ctx.spSchemas, ctx.tableId, st.synth[ctx.tableId].colId), SyntheticKeyValue);
    } else {
      RowStepKeys(h, ctx, st, rows[0]);
      ProcessRowsKeys(h, ctx, RowStep(h, ctx, st, rows[0]), rows[1..]);
      ProcessRowsKeysStep(h, ctx, st, rows);
    }
  }

  /** The inductive step of `ProcessRowsKeys`: the first row, then the keyed pass over the rest. */
  lemma ProcessRowsKeysStep(h: Helpers, ctx: TableContext, st: DataState, rows: seq<ScanResult>)
    requires PreparesEveryColumn(h)
    requires ctx.tableId in st.synth && rows != []
    requires var st1 := RowStep(h, ctx, st, rows[0]);
             && ctx.tableId in st1.synth
             && st1.synth[ctx.tableId].colId == st.synth[ctx.tableId].colId
             && KeyedAt(st1, ProcessRows(h, ctx, st1, rows[1..]), ctx.tableId,
                        SpColumnName(ctx.spSchemas, ctx.tableId, st1.synth[ctx.tableId].colId), SyntheticKeyValue,
                        KeysUsed(h, ctx, rows[1..]), KeyOffsets(h, ctx, rows[1..]))
    ensures KeyedAt(st, ProcessRows(h, ctx, st, rows), ctx.tableId,
                    SpColumnName(ctx.spSchemas, ctx.tableId, st.synth[ctx.tableId].colId), SyntheticKeyValue,
                    KeysUsed(h, ctx, rows), KeyOffsets(h, ctx, rows))
  {
    var keyCol := SpColumnName(ctx.spSchemas, ctx.tableId, st.synth[ctx.tableId].colId);
    var st1 := RowStep(h, ctx, st, rows[0]);
    var c := if ConsumesKey(h, ctx, rows[0]) then 1 else 0;
    var w := WritesRow(h, ctx, rows[0]);
    RowStepKeys(h, ctx, st, rows[0]);
    var used, offs := KeysUsed(h, ctx, rows[1..]), KeyOffsets(h, ctx, rows[1..]);
    var fin := ProcessRows(h, ctx, st1, rows[1..]);
    assert ProcessRows(h, ctx, st, rows) == fin;
    KeysUsedUnfold(h, ctx, rows);
    assert KeysUsed(h, ctx, rows) == used + c;
    assert KeyOffsets(h, ctx, rows) == (if w then [0] else []) + Shift(offs, c);
    KeyedAtStep(st, st1, fin, ctx.tableId, keyCol, SyntheticKeyValue, c, w, used, offs);
  }

  /** `KeysUsed` and `KeyOffsets` of a non-empty list, by its first row. */
  lemma KeysUsedUnfold(h: Helpers, ctx: TableContext, rows: seq<ScanResult>)
    requires PreparesEveryColumn(h) && rows != []
    ensures KeysUsed(h, ctx, rows) == (if ConsumesKey(h, ctx, rows[0]) then 1 else 0) + KeysUsed(h, ctx, rows[1..])
    ensures KeyOffsets(h, ctx, rows) ==
            (if WritesRow(h, ctx, rows[0]) then [0] else []) +
            Shift(KeyOffsets(h, ctx, rows[1..]), if ConsumesKey(h, ctx, rows[0]) then 1 else 0)
  {
  }

  /** No rows and no keys used. */
  lemma KeyedAtEmpty(st: DataState, tableId: string, keyCol: string, key: Int64 -> string)
    requires tableId in st.synth
    ensures KeyedAt(st, st, tableId, keyCol, key, 0, [])
  {
    SequenceAfterStep(st.synth[tableId].sequence, 0);
    assert st.written[..|st.written|] == st.written;
  }

  /** The value in the last column of a written row, where its synthetic key goes. */
  function LastValue(w: WrittenRow): Option<SpValue> {
    if w.vals == [] then None else Some(w.vals[|w.vals| - 1])
  }

  /** From position `start` on, no two written rows end in the same value. */
  predicate DistinctKeysFrom(ws: seq<WrittenRow>, start: nat) {
    forall i, j :: start <= i < j < |ws| ==> LastValue(ws[i]) != LastValue(ws[j])
  }

  /**
   * The rows of a key-less table written in one pass carry pairwise
   * distinct keys, as long as the pass uses up no more than 2^64 keys.
   */
  lemma ProcessRowsDistinctKeys(h: Helpers, ctx: TableContext, st: DataState, rows: seq<ScanResult>)
    requires PreparesEveryColumn(h)
    requires ctx.tableId in st.synth
    requires KeysUsed(h, ctx, rows) <= TWO_64
    ensures DistinctKeysFrom(ProcessRows(h, ctx, st, rows).written, |st.written|)
  {
    var keyCol := SpColumnName(ctx.spSchemas, ctx.tableId, st.synth[ctx.tableId].colId);
    ProcessRowsKeys(h, ctx, st, rows);
    KeyOffsetsIncreasing(h, ctx, rows);
    KeyedAtDistinct(st, ProcessRows(h, ctx, st, rows), ctx.tableId, keyCol, KeysUsed(h, ctx, rows), KeyOffsets(h, ctx, rows));
  }

  /** Rows keyed at increasing offsets below 2^64 carry pairwise distinct keys. */
  lemma KeyedAtDistinct(st: DataState, st': DataState, tableId: string, keyCol: string, used: nat, offs: seq<nat>)
    requires tableId in st.synth
    requires KeyedAt(st, st', tableId, keyCol, SyntheticKeyValue, used, offs)
    requires forall k :: 0 <= k < |offs| ==> offs[k] < TWO_64
    requires Increasing(offs)
    ensures DistinctKeysFrom(st'.written, |st.written|)
  {
    var s0 := st.synth[tableId].sequence;
    var n := |st.written|;
    forall i, j | n <= i < j < |st'.written| ensures LastValue(st'.written[i]) != LastValue(st'.written[j]) {
      var a, b := offs[i - n], offs[j - n];
      assert CarriesKey(st'.written[n + (i - n)], keyCol, SequenceAfter(s0, a));
      assert CarriesKey(st'.written[n + (j - n)], keyCol, SequenceAfter(s0, b));
      assert a < b;
      if SyntheticKeyValue(SequenceAfter(s0, a)) == SyntheticKeyValue(SequenceAfter(s0, b)) {
        SyntheticKeyInjective(SequenceAfter(s0, a), SequenceAfter(s0, b));
        SequenceAfterInjective(s0, a, b);
      }
    }
  }

  /**
   * From `st` to `st'` the rows written are extended, the k-th new one
   * carrying the key of the counter's k-th value from its value in `st`,
   * and the counter has moved once per new row.
   */
  ghost predicate KeyedPass(st: DataState, st': DataState, tableId: string, keyCol: string)
    requires tableId in st.synth
  {
    var aux := st.synth[tableId];
    && tableId in st'.synth
    && Extends(st'.written, st.written)
    && st'.synth[tableId] == aux.(sequence := SequenceAfter(aux.sequence, |st'.written| - |st.written|))
    && KeysFrom(st'.written, |st.written|, keyCol, SyntheticKeyValue, aux.sequence)
  }

  /**
   * For a key-less table whose rows all prepare cleanly, the k-th row
   * written in this pass carries, last, the key of the counter's k-th value
   * after the pass started, and the counter ends advanced by exactly the
   * number of rows written.
   */
  lemma ProcessRowsSyntheticKeys(h: Helpers, ctx: TableContext, st: DataState, rows: seq<ScanResult>)
    requires PreparesEveryColumn(h) && PrepareNeverFails(h)
    requires ctx.tableId in st.synth
    ensures KeyedPass(st, ProcessRows(h, ctx, st, rows), ctx.tableId,
                      SpColumnName(ctx.spSchemas, ctx.tableId, st.synth[ctx.tableId].colId))
  {
    var keyCol := SpColumnName(ctx.spSchemas, ctx.tableId, st.synth[ctx.tableId].colId);
    ProcessRowsKeys(h, ctx, st, rows);
    KeyOffsetsNoPrepareFailure(h, ctx, rows);
    KeyedAtConsecutive(st, ProcessRows(h, ctx, st, rows), ctx.tableId, keyCol, SyntheticKeyValue,
                       KeysUsed(h, ctx, rows), KeyOffsets(h, ctx, rows));
  }

  /**
   * Rows keyed at the offsets 0, 1, 2, ..., with one key used per row, carry
   * the keys of consecutive counter values and leave the counter advanced
   * by the number of rows.
   */
  lemma KeyedAtConsecutive(st: DataState, st': DataState, tableId: string, keyCol: string, key: Int64 -> string,
                           used: nat, offs: seq<nat>)
    requires tableId in st.synth
    requires KeyedAt(st, st', tableId, keyCol, key, used, offs)
    requires |offs| == used && forall k :: 0 <= k < |offs| ==> offs[k] == k
    ensures tableId in st'.synth && Extends(st'.written, st.written)
    ensures st'.synth[tableId] == st.synth[tableId].(sequence := SequenceAfter(st.synth[tableId].sequence, |st'.written| - |st.written|))
    ensures KeysFrom(st'.written, |st.written|, keyCol, key, st.synth[tableId].sequence)
  {
    var s0, n := st.synth[tableId].sequence, |st.written|;
    forall k | n <= k < |st'.written| ensures EndsWithKey(st'.written[k], keyCol, key(SequenceAfter(s0, k - n))) {
      assert offs[k - n] == k - n && st'.written[k] == st'.written[n + (k - n)];
    }
  }

  lemma SequenceAfterShift(s: Int64, j: nat)
    ensures SequenceAfter(NextSequence(s), j) == SequenceAfter(s, j + 1)
  {
    assert AsUnsigned(NextSequence(s)) == (AsUnsigned(s) + 1) % TWO_64;
  }

  /**
   * The one way a row can use up a key without being written: its
   * conversion succeeds but `PrepareValues` has reported an error.
   */
  lemma PrepareFailureConsumesKey(h: Helpers, ctx: TableContext, st: DataState, v: seq<SqlValue>)
    requires PreparesEveryColumn(h)
    requires ctx.tableId in st.synth
    requires h.prepareValues(ctx.tableId, ctx.colIds, ctx.srcCols, v).failed
    requires ConvertCols(h, ctx.srcTableName, ctx.colIds, ctx.src, ctx.sp, h.prepareValues(ctx.tableId, ctx.colIds, ctx.srcCols, v).vals).Ok?
    ensures var st' := RowStep(h, ctx, st, Scanned(v));
            && st'.written == st.written
            && |st'.samples| == |st.samples| + 1
            && st'.synth[ctx.tableId].sequence == NextSequence(st.synth[ctx.tableId].sequence)
  {
  }

  /** `ProcessData`: converts and writes every row of one table, skipping bad rows. */
  method ProcessData(
    h: Helpers, conv: Conv, tableId: string, srcSchema: SrcTable, colIds: seq<string>, spSchema: SpTable,
    cursor: Outcome<Cursor>)
    returns (err: Option<Error>)
    requires PreparesEveryColumn(h)
    modifies conv
    ensures conv.srcSchema == old(conv.srcSchema) && conv.spSchema == old(conv.spSchema)
    ensures cursor.Err? ==>
              err == Some(cursor.error) && conv.State() == old(conv.State()).(unexpecteds := old(conv.unexpecteds) + 1)
    ensures cursor.Ok? ==>
              err == None &&
              conv.State() == ProcessRows(h, TableContext(tableId, SrcTableName(conv.srcSchema, tableId), SpTableName(conv.spSchema, tableId),
                                                          colIds, cursor.value.srcCols, srcSchema, spSchema, conv.spSchema),
                                          old(conv.State()), cursor.value.rows)
  {
    var srcTableName := SrcTableName(conv.srcSchema, tableId);
    if cursor.Err? {
      conv.unexpecteds := conv.unexpecteds + 1;
      return Some(cursor.error);
    }
    var srcCols, rows := cursor.value.srcCols, cursor.value.rows;
    var spTableName := SpTableName(conv.spSchema, tableId);
    var ctx := TableContext(tableId, srcTableName, spTableName, colIds, srcCols, srcSchema, spSchema, conv.spSchema);
    var i := 0;
    while i < |rows|
      invariant 0 <= i <= |rows|
      invariant conv.srcSchema == old(conv.srcSchema) && conv.spSchema == old(conv.spSchema)
      invariant ProcessRows(h, ctx, conv.State(), rows[i..]) == ProcessRows(h, ctx, old(conv.State()), rows)
    {
      ProcessRow(h, conv, ctx, rows[i]);
      assert rows[i..][1..] == rows[i + 1..];
      i := i + 1;
    }
    return None;
  }

  /** One iteration of the `ProcessData` loop: the row is converted and written, or counted and sampled as bad. */
  method ProcessRow(h: Helpers, conv: Conv, ctx: TableContext, row: ScanResult)
    requires PreparesEveryColumn(h)
    requires ctx.srcTableName == SrcTableName(conv.srcSchema, ctx.tableId)
    requires ctx.spTableName == SpTableName(conv.spSchema, ctx.tableId)
    requires ctx.spSchemas == conv.spSchema
    modifies conv
    ensures conv.srcSchema == old(conv.srcSchema) && conv.spSchema == old(conv.spSchema)
    ensures conv.State() == RowStep(h, ctx, old(conv.State()), row)
  {
    var srcTableName := ctx.srcTableName;
    if row.ScanError? {
      conv.unexpecteds := conv.unexpecteds + 1;
      conv.badRows := AddBadRow(conv.badRows, srcTableName);
      return;
    }
    var prepared := h.prepareValues(ctx.tableId, ctx.colIds, ctx.srcCols, row.vals);
    var r := ConvertSqlRow(h, conv, ctx.tableId, ctx.colIds, ctx.src, ctx.sp, prepared.vals);
    if prepared.failed || r.Err? {
      conv.unexpecteds := conv.unexpecteds + 1;
      conv.badRows := AddBadRow(conv.badRows, srcTableName);
      conv.sampleBadRows := conv.sampleBadRows + [BadRow(srcTableName, ctx.srcCols, ValsToStrings(h, row.vals))];
    } else {
      conv.written := conv.written + [WrittenRow(srcTableName, ctx.spTableName, r.value.cols, r.value.vals)];
    }
  }
}
