/**
 * The two schema representations the adapter reads and writes: the
 * engine-independent source schema (`schema.Table`, `schema.Column`, ...)
 * and the target table definitions (`ddl.CreateTable`, `ddl.ColumnDef`).
 * Source and target columns are joined by their shared column id.
 */
module Schema {
  import opened Bits64

  /** `schema.Type`: a base name, length/precision/scale modifiers and array bounds. */
  datatype SrcType = SrcType(name: string, mods: seq<int>, arrayBounds: seq<int>)

  /** `schema.Ignored`: constraints that are dropped rather than translated. */
  datatype Ignored = Ignored(check: bool, default: bool)

  /** `schema.Column`. */
  datatype SrcColumn = SrcColumn(id: string, name: string, typ: SrcType, notNull: bool, ignored: Ignored)

  /** `schema.Table`, reduced to what the adapter reads. */
  datatype SrcTable = SrcTable(id: string, name: string, schema: string, colIds: seq<string>, colDefs: map<string, SrcColumn>)

  /** `common.SchemaAndName`. */
  datatype SchemaAndName = SchemaAndName(schema: string, name: string)

  /** `schema.ForeignKey`. */
  datatype ForeignKey = ForeignKey(
    id: string,
    name: string,
    columnNames: seq<string>,
    referTableName: string,
    referColumnNames: seq<string>,
    onDelete: string,
    onUpdate: string)

  /** `schema.Key`: one column of an index and its sort direction. */
  datatype IndexKey = IndexKey(colId: string, desc: bool)

  /** `schema.Index`. */
  datatype Index = Index(id: string, name: string, unique: bool, keys: seq<IndexKey>)

  /**
   * The target type names of package `ddl`. `OtherType` stands for any
   * name outside the ten the value conversion knows.
   */
  datatype SpTypeName =
    | TBool | TBytes | TDate | TInt64 | TFloat32 | TFloat64
    | TNumeric | TString | TTimestamp | TJson
    | OtherType(name: string)

  /** `ddl.Type`. */
  datatype SpType = SpType(name: SpTypeName, len: int, isArray: bool)

  /** `ddl.ColumnDef`. */
  datatype SpColumnDef = SpColumnDef(id: string, name: string, t: SpType, notNull: bool)

  /** `ddl.CreateTable`, reduced to what the adapter reads. */
  datatype SpTable = SpTable(id: string, name: string, colIds: seq<string>, colDefs: map<string, SpColumnDef>)

  /** `internal.SyntheticPKey`: the injected key column and its row counter. */
  datatype SyntheticPKey = SyntheticPKey(colId: string, sequence: Int64)

  /** Go's read of a missing map key yields the zero value; these lookups do the same. */
  function SrcTableName(tables: map<string, SrcTable>, tableId: string): string {
    if tableId in tables then tables[tableId].name else ""
  }

  function SpTableName(tables: map<string, SpTable>, tableId: string): string {
    if tableId in tables then tables[tableId].name else ""
  }

  function SpColumnName(tables: map<string, SpTable>, tableId: string, colId: string): string {
    if tableId in tables && colId in tables[tableId].colDefs then tables[tableId].colDefs[colId].name else ""
  }
}
