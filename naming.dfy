/**
 * Name qualification for PostgreSQL tables: which schemas are system
 * schemas, when a table keeps its bare name, and how the stored name is
 * turned back into the schema-relative name of the data query.
 */
module Naming {
  import opened Wrappers
  import opened Schema

  /** The schemas whose tables are never migrated. */
  const SYSTEM_SCHEMAS: set<string> :=
    {"information_schema", "postgres", "pg_catalog", "pg_temp_1", "pg_toast", "pg_toast_temp_1"}

  predicate HasPrefix(s: string, prefix: string) {
    |prefix| <= |s| && s[..|prefix|] == prefix
  }

  /** The schemas of a table list. */
  function SchemaSet(tables: seq<SchemaAndName>): (r: set<string>)
    ensures forall i :: 0 <= i < |tables| ==> tables[i].schema in r
    ensures forall s :: s in r ==> exists i :: 0 <= i < |tables| && tables[i].schema == s
  {
    if tables == [] then {} else
      var r := SchemaSet(tables[..|tables| - 1]) + {tables[|tables| - 1].schema};
      assert forall s :: s in r ==> s == tables[|tables| - 1].schema || s in SchemaSet(tables[..|tables| - 1]);
      r
  }

  /** Exactly one distinct schema: the list is not empty and every table shares the first one's schema. */
  lemma SchemaSetSingletonIff(tables: seq<SchemaAndName>)
    ensures |SchemaSet(tables)| == 1 <==>
            |tables| > 0 && forall i :: 0 <= i < |tables| ==> tables[i].schema == tables[0].schema
  {
    if |tables| > 0 && forall i :: 0 <= i < |tables| ==> tables[i].schema == tables[0].schema {
      SharedSchemaSet(tables);
    }
    if |SchemaSet(tables)| == 1 {
      SingletonSchemaSet(tables);
    }
  }

  lemma SharedSchemaSet(tables: seq<SchemaAndName>)
    requires |tables| > 0 && forall i :: 0 <= i < |tables| ==> tables[i].schema == tables[0].schema
    ensures SchemaSet(tables) == {tables[0].schema}
  {
  }

  lemma SingletonSchemaSet(tables: seq<SchemaAndName>)
    requires |SchemaSet(tables)| == 1
    ensures |tables| > 0 && forall i :: 0 <= i < |tables| ==> tables[i].schema == tables[0].schema
  {
    var r := SchemaSet(tables);
    assert tables != [];
    var first := tables[0].schema;
    var rest := r - {first};
    assert r == rest + {first};
    assert |rest| == 0;
    forall i | 0 <= i < |tables| ensures tables[i].schema == first {
      assert tables[i].schema !in rest;
    }
  }

  /** The rows of the catalog's table list that are not in a system schema, in arrival order. */
  function KeptTables(rows: seq<SchemaAndName>): (r: seq<SchemaAndName>)
    ensures |r| <= |rows|
  {
    if rows == [] then [] else
      var last := rows[|rows| - 1];
      KeptTables(rows[..|rows| - 1]) + (if last.schema in SYSTEM_SCHEMAS then [] else [last])
  }

  /** A table is kept exactly when it was listed and its schema is not a system schema. */
  lemma {:induction false} KeptTablesMembers(rows: seq<SchemaAndName>)
    ensures forall t :: t in KeptTables(rows) <==> t in rows && t.schema !in SYSTEM_SCHEMAS
  {
    if rows != [] {
      var prefix, last := rows[..|rows| - 1], rows[|rows| - 1];
      KeptTablesMembers(prefix);
      assert rows == prefix + [last];
    }
  }

  /** The filter keeps arrival order: filtering a concatenation concatenates the filtered parts. */
  lemma {:induction false} KeptTablesAppend(xs: seq<SchemaAndName>, ys: seq<SchemaAndName>)
    ensures KeptTables(xs + ys) == KeptTables(xs) + KeptTables(ys)
    decreases |ys|
  {
    if ys == [] {
      assert xs + ys == xs;
    } else {
      var ys' := ys[..|ys| - 1];
      assert (xs + ys)[..|xs + ys| - 1] == xs + ys';
      KeptTablesAppend(xs, ys');
    }
  }

  /** Tables of a user schema pass the filter unchanged and in order. */
  lemma {:induction false} KeptTablesNoSystem(rows: seq<SchemaAndName>)
    requires forall i :: 0 <= i < |rows| ==> rows[i].schema !in SYSTEM_SCHEMAS
    ensures KeptTables(rows) == rows
  {
    if rows != [] {
      var prefix, last := rows[..|rows| - 1], rows[|rows| - 1];
      assert forall i :: 0 <= i < |prefix| ==> prefix[i] == rows[i];
      KeptTablesNoSystem(prefix);
      assert last.schema !in SYSTEM_SCHEMAS;
      assert KeptTables(rows) == KeptTables(prefix) + [last];
      assert prefix + [last] == rows;
    }
  }

  /**
   * `GetRowsFromTable`: the table name used in the data query, after
   * removing a leading "schema." from the stored name.
   */
  function StripSchemaPrefix(schema: string, name: string): (r: string)
    ensures HasPrefix(name, schema + ".") ==> schema + "." + r == name
    ensures !HasPrefix(name, schema + ".") ==> r == name
  {
    if HasPrefix(name, schema + ".") then name[|schema| + 1..] else name
  }

  /**
   * The schema and table name that `GetRowsFromTable` quotes into its query:
   * the table's own schema, and its stored name without a leading
   * "schema."; a missing table id reads as the zero table.
   */
  function DataQueryTarget(srcSchema: map<string, SrcTable>, tableId: string): (r: SchemaAndName)
    ensures tableId !in srcSchema ==> r == SchemaAndName("", "")
    ensures tableId in srcSchema ==>
              var t := srcSchema[tableId];
              && r.schema == t.schema
              && (HasPrefix(t.name, t.schema + ".") ==> t.schema + "." + r.name == t.name)
              && (!HasPrefix(t.name, t.schema + ".") ==> r.name == t.name)
  {
    if tableId in srcSchema then
      var t := srcSchema[tableId];
      SchemaAndName(t.schema, StripSchemaPrefix(t.schema, t.name))
    else SchemaAndName("", "")
  }

  /** `InfoSchemaImpl`: the part of its state this model needs, the shared `IsSchemaUnique` flag. */
  class InfoSchema {
    var isSchemaUnique: bool

    constructor ()
      ensures !isSchemaUnique
    {
      isSchemaUnique := false;
    }

    /** `GetTableName`: the bare name when one schema was found or the schema is "public", else "schema.table". */
    function GetTableName(schema: string, tableName: string): (r: string)
      reads this
      ensures r == tableName <==> isSchemaUnique || schema == "public"
      ensures r != tableName ==> r == schema + "." + tableName
    {
      if isSchemaUnique then tableName
      else if schema == "public" then tableName
      else schema + "." + tableName
    }

    /** `populateSchemaIsUnique`: the flag says whether the list holds exactly one distinct schema. */
    method PopulateSchemaIsUnique(tables: seq<SchemaAndName>)
      modifies this
      ensures isSchemaUnique == (|SchemaSet(tables)| == 1)
    {
      var schemaSet: set<string> := {};
      var i := 0;
      while i < |tables|
        invariant 0 <= i <= |tables|
        invariant schemaSet == SchemaSet(tables[..i])
      {
        assert tables[..i + 1][..i] == tables[..i];
        schemaSet := schemaSet + {tables[i].schema};
        i := i + 1;
      }
      assert tables[..i] == tables;
      isSchemaUnique := |schemaSet| == 1;
    }

    /**
     * `GetTables`: `listing` is the catalog's base-table listing (`None`
     * when the query fails), one entry per row as left in the scan
     * variables. The kept tables are returned and decide the flag.
     */
    method GetTables(listing: Option<seq<SchemaAndName>>) returns (tables: Option<seq<SchemaAndName>>)
      modifies this
      ensures listing.None? ==> tables.None? && isSchemaUnique == old(isSchemaUnique)
      ensures listing.Some? ==> tables == Some(KeptTables(listing.value))
                                && isSchemaUnique == (|SchemaSet(KeptTables(listing.value))| == 1)
    {
      if listing.None? {
        return None;
      }
      var rows := listing.value;
      var kept: seq<SchemaAndName> := [];
      var i := 0;
      while i < |rows|
        invariant 0 <= i <= |rows|
        invariant kept == KeptTables(rows[..i])
      {
        assert rows[..i + 1][..i] == rows[..i];
        if rows[i].schema !in SYSTEM_SCHEMAS {
          kept := kept + [rows[i]];
        }
        i := i + 1;
      }
      assert rows[..i] == rows;
      PopulateSchemaIsUnique(kept);
      return Some(kept);
    }
  }

  /**
   * The stored name of a table round-trips through `GetRowsFromTable`
   * whenever it was qualified, or its bare name does not itself begin with
   * "schema.".
   */
  lemma StripGetTableName(isi: InfoSchema, schema: string, tableName: string)
    requires !(isi.isSchemaUnique || schema == "public") || !HasPrefix(tableName, schema + ".")
    ensures StripSchemaPrefix(schema, isi.GetTableName(schema, tableName)) == tableName
  {
    var stored := isi.GetTableName(schema, tableName);
    if stored != tableName {
      assert HasPrefix(stored, schema + ".");
      assert stored[|schema| + 1..] == tableName;
    }
  }

  /**
   * A table stored under the name `GetTableName` gave it is queried as its
   * own schema and bare name, under the condition of `StripGetTableName`.
   */
  lemma DataQueryTargetRoundTrip(isi: InfoSchema, srcSchema: map<string, SrcTable>, tableId: string, schema: string, tableName: string)
    requires tableId in srcSchema
    requires srcSchema[tableId].schema == schema && srcSchema[tableId].name == isi.GetTableName(schema, tableName)
    requires !(isi.isSchemaUnique || schema == "public") || !HasPrefix(tableName, schema + ".")
    ensures DataQueryTarget(srcSchema, tableId) == SchemaAndName(schema, tableName)
  {
    StripGetTableName(isi, schema, tableName);
  }

  /**
   * The exception: with a single schema "s", a table really named "s.x" is
   * stored bare, and the data query then reads table "x" of schema "s".
   */
  lemma StripDottedBareName(isi: InfoSchema)
    requires isi.isSchemaUnique
    ensures isi.GetTableName("s", "s.x") == "s.x"
    ensures StripSchemaPrefix("s", isi.GetTableName("s", "s.x")) == "x"
  {
    assert HasPrefix("s.x", "s" + ".");
  }
}
