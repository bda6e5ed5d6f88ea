/** Parse trees as DuckDB serialises them, and what they say: which nodes name a table, call a function or declare a
    common table expression. Nothing here depends on the validator. */
module SqlTree {
  import opened Text
  import opened Wrappers

  // ---- Parse trees --------------------------------------------------------------------------

  datatype Json =
    | Null
    | Bool(b: bool)
    | Num(n: int)
    | Str(s: string)
    | Arr(items: seq<Json>)
    | Obj(fields: seq<Field>)

  datatype Field = Field(key: string, value: Json)

  function Size(j: Json): nat {
    match j
    case Arr(items) => 1 + ItemsSize(items)
    case Obj(fields) => 1 + FieldsSize(fields)
    case _ => 0
  }

  function ItemsSize(items: seq<Json>): nat {
    if items == [] then 0 else 1 + Size(items[0]) + ItemsSize(items[1..])
  }

  function FieldsSize(fields: seq<Field>): nat {
    if fields == [] then 0 else 1 + Size(fields[0].value) + FieldsSize(fields[1..])
  }

  /** `node.get(key)`: an absent key reads as null. */
  function Get(fields: seq<Field>, key: string): (r: Json)
    ensures Size(r) <= FieldsSize(fields)
  {
    if fields == [] then Null
    else if fields[0].key == key then fields[0].value
    else Get(fields[1..], key)
  }

  predicate Has(fields: seq<Field>, key: string) {
    exists i :: 0 <= i < |fields| && fields[i].key == key
  }

  lemma {:induction false} GetUnique(fields: seq<Field>, i: nat)
    requires i < |fields|
    requires forall a, b :: 0 <= a < b < |fields| ==> fields[a].key != fields[b].key
    ensures Get(fields, fields[i].key) == fields[i].value
  {
    if i > 0 {
      GetUnique(fields[1..], i - 1);
    }
  }

  lemma {:induction false} GetAbsent(fields: seq<Field>, key: string)
    requires forall i :: 0 <= i < |fields| ==> fields[i].key != key
    ensures Get(fields, key) == Null && !Has(fields, key)
  {
    if fields != [] {
      GetAbsent(fields[1..], key);
    }
  }

  // ---- What a node says ---------------------------------------------------------------------

  predicate NamesTable(fields: seq<Field>) {
    Get(fields, "type") == Str("BASE_TABLE") || exists i :: 0 <= i < |fields| && fields[i].key == "table_name"
  }

  predicate Calls(fields: seq<Field>) { Get(fields, "class") == Str("FUNCTION") && Get(fields, "function_name").Str? }

  predicate CallsAsTable(fields: seq<Field>) { Get(fields, "type") == Str("TABLE_FUNCTION") }

  predicate Nothing(j: Json) { j in [Null, Bool(false), Num(0), Arr([]), Obj([])] }

  /** The text of a field; an empty value of any kind is empty text. */
  function TextAt(fields: seq<Field>, key: string): Option<string> {
    var j := Get(fields, key);
    if j.Str? then Some(j.s) else if Nothing(j) then Some("") else None
  }

  /** A table as the parse tree names it: schema and catalog lower-cased, the name stripped. */
  datatype TableRef = TableRef(catalog: string, schema: string, name: string)

  /** The table a node names, if its three names are text. */
  function TableAt(fields: seq<Field>): Option<TableRef> {
    var name, schema, catalog := TextAt(fields, "table_name"), TextAt(fields, "schema_name"), TextAt(fields, "catalog_name");
    if name.Some? && schema.Some? && catalog.Some?
    then Some(TableRef(Lower(Strip(catalog.value)), Lower(Strip(schema.value)), Strip(name.value)))
    else None
  }

  /** A bare name that is in scope. */
  predicate Bound(r: TableRef, scope: set<string>) { r.catalog == "" && r.schema == "" && Lower(r.name) in scope }

  // ---- Common table expressions -------------------------------------------------------------

  /** What is listed under `cte_map` and `map`. */
  function Expressions(fields: seq<Field>): seq<Json> {
    var m := Get(fields, "cte_map");
    if m.Obj? && Get(m.fields, "map").Arr? then Get(m.fields, "map").items else []
  }

  /** The name an entry declares, if any. */
  function Declared(entry: Json): set<string> {
    if entry.Obj? && Get(entry.fields, "key").Str? && Get(entry.fields, "key").s != ""
    then {Lower(Strip(Get(entry.fields, "key").s))} else {}
  }

  /** The query refers to itself: its node is recursive. */
  predicate Recurs(query: Json) {
    && query.Obj?
    && var q := Get(query.fields, "query");
    && q.Obj?
    && var n := Get(q.fields, "node");
    && n.Obj? && Get(n.fields, "type") == Str("RECURSIVE_CTE_NODE")
  }

  // ---- What a query may touch ---------------------------------------------------------------

  /** Functions that read files, settings, other databases or arbitrary queries. */
  const SEALED: set<string> := {
    "getenv", "current_setting", "duckdb_secrets", "duckdb_settings", "duckdb_variables", "duckdb_extensions",
    "glob", "lsdir", "query", "query_table",
    "read_csv", "read_csv_auto", "read_parquet", "read_parquet_metadata", "read_parquet_schema", "read_json", "read_json_auto",
    "read_json_objects", "read_json_objects_auto", "read_ndjson", "read_ndjson_auto", "read_ndjson_objects", "read_text",
    "read_text_auto", "read_blob", "read_blob_auto", "read_avro",
    "iceberg_scan", "iceberg_metadata", "iceberg_snapshots",
    "parquet_scan", "parquet_metadata", "parquet_schema", "parquet_kv_metadata",
    "sqlite_scan", "sqlite_attach", "postgres_scan", "postgres_attach", "postgres_query",
    "mysql_scan", "mysql_attach", "mysql_query"
  }

  predicate Seals(name: string) {
    "read_" <= name || "parquet_" <= name || "iceberg_" <= name || "duckdb_" <= name || "sniff_" <= name || "glob" <= name
  }

  /** `name` is lower-cased; `tf` are the table functions the engine reports. */
  predicate MayCall(name: string, asTable: bool, tf: set<string>) {
    && name !in SEALED && !Seals(name)
    && (asTable || name in tf ==>
          name in {"generate_series", "range", "repeat", "repeat_row", "unnest", "json_each", "json_tree"})
  }

  /** Names that reach no file and no system table, whatever tables are allowed. */
  predicate MayName(r: TableRef) {
    && (forall i :: 0 <= i < |r.name| ==> r.name[i] != '/' && r.name[i] != '\\' && r.name[i] != '.')
    && !("duckdb_" <= Lower(r.name)) && !("pg_" <= Lower(r.name))
    && r.schema != "information_schema" && r.schema != "pg_catalog" && r.schema != "system"
    && (r.catalog == "" || r.catalog == "main")
  }
}
