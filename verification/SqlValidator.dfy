/** The tree walk of backend/core/sql_validator.py over DuckDB's serialised parse trees, and what
    accepting a tree guarantees about the query's meaning. */
module SqlValidator {
  import opened SqlTree
  import opened Text

  // ---- Per-node checks ----------------------------------------------------------------------

  datatype Reason =
    | Malformed          // a name that is neither text nor empty: the walk raises
    | PathLikeName
    | BlockedTablePrefix
    | BlockedSchema
    | BlockedCatalog
    | ForeignTable
    | BlockedFunction
    | BlockedFunctionPrefix
    | TableFunctionNotAllowed

  datatype Verdict = Accept | Reject(reason: Reason)

  /** The tables a query may read by name; `Anything` when the caller passes no set. */
  datatype Allowed = Anything | Only(tables: set<string>)

  const BLOCKED_TABLE_PREFIXES: set<string> := {"duckdb_", "pg_"}
  const BLOCKED_SCHEMAS: set<string> := {"information_schema", "pg_catalog", "system"}
  const ALLOWED_CATALOG: string := "main"
  const BLOCKED_FUNCTIONS: set<string> := {
    "getenv", "current_setting", "duckdb_secrets", "duckdb_settings", "duckdb_variables",
    "duckdb_extensions", "read_csv", "read_csv_auto", "read_parquet", "read_parquet_metadata",
    "read_parquet_schema", "read_json", "read_json_auto", "read_json_objects",
    "read_json_objects_auto", "read_ndjson", "read_ndjson_auto", "read_ndjson_objects", "read_text",
    "read_text_auto", "read_blob", "read_blob_auto", "read_avro", "iceberg_scan", "iceberg_metadata",
    "iceberg_snapshots", "parquet_scan", "parquet_metadata", "parquet_schema", "parquet_kv_metadata",
    "glob", "lsdir", "sqlite_scan", "sqlite_attach", "postgres_scan", "postgres_attach",
    "postgres_query", "mysql_scan", "mysql_attach", "mysql_query", "query", "query_table"
  }
  const BLOCKED_FUNCTION_PREFIXES: set<string> := {"read_", "parquet_", "iceberg_", "duckdb_", "sniff_", "glob"}
  const ALLOWED_TABLE_FUNCTIONS: set<string> := {
    "generate_series", "range", "repeat", "repeat_row", "unnest", "json_each", "json_tree"
  }

  /** `(value or "")` when that is text. */
  datatype MaybeText = Text(s: string) | NotText

  function TextOrEmpty(j: Json): MaybeText {
    match j
    case Str(s) => Text(s)
    case Null => Text("")
    case Bool(b) => if b then NotText else Text("")
    case Num(n) => if n == 0 then Text("") else NotText
    case Arr(items) => if items == [] then Text("") else NotText
    case Obj(fields) => if fields == [] then Text("") else NotText
  }

  datatype MaybeRef = Ref(ref: TableRef) | BadRef

  function RefOf(fields: seq<Field>): MaybeRef {
    match (TextOrEmpty(Get(fields, "table_name")), TextOrEmpty(Get(fields, "schema_name")),
           TextOrEmpty(Get(fields, "catalog_name")))
    case (Text(t), Text(s), Text(c)) => Ref(TableRef(Lower(Strip(c)), Lower(Strip(s)), Strip(t)))
    case _ => BadRef
  }

  predicate PathLike(name: string) { '/' in name || '\\' in name || '.' in name }

  /** Refers to a common table expression in scope. */
  predicate NamesCte(r: TableRef, aliases: set<string>) {
    Lower(r.name) in aliases && r.schema == "" && r.catalog == ""
  }

  /** `_check_table_reference`. */
  function CheckTable(fields: seq<Field>, allowed: Allowed, aliases: set<string>): Verdict {
    match RefOf(fields)
    case BadRef => Reject(Malformed)
    case Ref(r) =>
      var name := Lower(r.name);
      if PathLike(r.name) then Reject(PathLikeName)
      else if StartsWithAny(name, BLOCKED_TABLE_PREFIXES) then Reject(BlockedTablePrefix)
      else if r.schema in BLOCKED_SCHEMAS then Reject(BlockedSchema)
      else if r.catalog != "" && r.catalog != ALLOWED_CATALOG then Reject(BlockedCatalog)
      else if allowed.Only? && name != "" && name !in allowed.tables && !NamesCte(r, aliases)
      then Reject(ForeignTable)
      else Accept
  }

  /** `_check_function_node`; `tableFunctions` are the table functions the engine reports. */
  function CheckFunction(fields: seq<Field>, tableFunctions: set<string>): Verdict {
    match Get(fields, "function_name")
    case Str(fname) =>
      var name := Lower(fname);
      if name in BLOCKED_FUNCTIONS then Reject(BlockedFunction)
      else if StartsWithAny(name, BLOCKED_FUNCTION_PREFIXES) then Reject(BlockedFunctionPrefix)
      else if (name in tableFunctions || Get(fields, "type") == Str("TABLE_FUNCTION"))
              && name !in ALLOWED_TABLE_FUNCTIONS
      then Reject(TableFunctionNotAllowed)
      else Accept
    case _ => Accept
  }

  predicate IsTableNode(fields: seq<Field>) {
    Get(fields, "type") == Str("BASE_TABLE") || Has(fields, "table_name")
  }

  predicate IsFunctionNode(fields: seq<Field>) { Get(fields, "class") == Str("FUNCTION") }

  function CheckNode(fields: seq<Field>, allowed: Allowed, aliases: set<string>, tf: set<string>): Verdict {
    var table := if IsTableNode(fields) then CheckTable(fields, allowed, aliases) else Accept;
    if table.Reject? then table
    else if IsFunctionNode(fields) then CheckFunction(fields, tf)
    else Accept
  }

  // ---- Common table expressions -------------------------------------------------------------

  /** The entries of `cte_map`, in order; empty when the node has none in the expected shape. */
  function CteEntries(fields: seq<Field>): (r: seq<Json>)
    ensures ItemsSize(r) <= FieldsSize(fields)
  {
    match Get(fields, "cte_map")
    case Obj(inner) =>
      (match Get(inner, "map")
       case Arr(items) => items
       case _ => [])
    case _ => []
  }

  function CteAlias(entry: seq<Field>): set<string> {
    match Get(entry, "key")
    case Str(k) => if k == "" then {} else {Lower(Strip(k))}
    case _ => {}
  }

  function Inner(j: Json, key: string): Json {
    match j
    case Obj(fields) => Get(fields, key)
    case _ => Null
  }

  predicate IsRecursive(value: Json) {
    Inner(Inner(Inner(value, "query"), "node"), "type") == Str("RECURSIVE_CTE_NODE")
  }

  function BodyAliases(entry: seq<Field>, aliases: set<string>): set<string> {
    if IsRecursive(Get(entry, "value")) then aliases + CteAlias(entry) else aliases
  }

  /** The scope after the first entries have been declared. */
  function ScopeAfter(entries: seq<Json>, aliases: set<string>): set<string> {
    if entries == [] then aliases
    else
      ScopeAfter(entries[1..], if entries[0].Obj? then aliases + CteAlias(entries[0].fields) else aliases)
  }

  function NodeScope(fields: seq<Field>, allowed: Allowed, aliases: set<string>): set<string> {
    if allowed.Only? then ScopeAfter(CteEntries(fields), aliases) else aliases
  }

  // ---- The walk -----------------------------------------------------------------------------

  /** `_walk_and_validate`: the first failing check, in the order the code performs them. */
  function Walk(node: Json, allowed: Allowed, aliases: set<string>, tf: set<string>): Verdict
    decreases Size(node), 1
  {
    match node
    case Obj(fields) =>
      var ctes := if allowed.Only? then WalkCtes(CteEntries(fields), allowed, aliases, tf) else Accept;
      if ctes.Reject? then ctes
      else
        var scope := NodeScope(fields, allowed, aliases);
        var own := CheckNode(fields, allowed, scope, tf);
        if own.Reject? then own else WalkFields(fields, allowed, scope, tf)
    case Arr(items) => WalkItems(items, allowed, aliases, tf)
    case _ => Accept
  }

  /** The loop over `cte_map` entries: each sees the entries before it; only a recursive one sees itself. */
  function WalkCtes(entries: seq<Json>, allowed: Allowed, aliases: set<string>, tf: set<string>): Verdict
    decreases ItemsSize(entries), 0
  {
    if entries == [] then Accept
    else if !entries[0].Obj? then WalkCtes(entries[1..], allowed, aliases, tf)
    else
      var entry := entries[0].fields;
      var value := Get(entry, "value");
      assert Size(value) <= FieldsSize(entry) < Size(entries[0]) < ItemsSize(entries);
      var body := if value == Null then Accept else Walk(value, allowed, BodyAliases(entry, aliases), tf);
      if body.Reject? then body else WalkCtes(entries[1..], allowed, aliases + CteAlias(entry), tf)
  }

  predicate Skipped(f: Field, allowed: Allowed) { f.key == "cte_map" && allowed.Only? }

  function WalkFields(fields: seq<Field>, allowed: Allowed, aliases: set<string>, tf: set<string>): Verdict
    decreases FieldsSize(fields), 0
  {
    if fields == [] then Accept
    else
      var first := if Skipped(fields[0], allowed) then Accept else Walk(fields[0].value, allowed, aliases, tf);
      if first.Reject? then first else WalkFields(fields[1..], allowed, aliases, tf)
  }

  function WalkItems(items: seq<Json>, allowed: Allowed, aliases: set<string>, tf: set<string>): Verdict
    decreases ItemsSize(items), 0
  {
    if items == [] then Accept
    else
      var first := Walk(items[0], allowed, aliases, tf);
      if first.Reject? then first else WalkItems(items[1..], allowed, aliases, tf)
  }

  lemma {:induction false} SuffixSizes(items: seq<Json>, fields: seq<Field>, i: nat)
    ensures i < |items| ==> Size(items[i]) < ItemsSize(items)
    ensures i < |fields| ==> Size(fields[i].value) < FieldsSize(fields)
    decreases i
  {
    if i > 0 {
      SuffixSizes(if items == [] then [] else items[1..], if fields == [] then [] else fields[1..], i - 1);
    }
  }

  /** The walk with its loops, as the code runs it. */
  method WalkAndValidate(node: Json, allowed: Allowed, aliases: set<string>, tf: set<string>) returns (v: Verdict)
    ensures v == Walk(node, allowed, aliases, tf)
    decreases Size(node)
  {
    match node
    case Obj(fields) =>
      var scope := aliases;
      if allowed.Only? {
        var entries := CteEntries(fields);
        for i := 0 to |entries|
          invariant WalkCtes(entries, allowed, aliases, tf) == WalkCtes(entries[i..], allowed, scope, tf)
          invariant ScopeAfter(entries, aliases) == ScopeAfter(entries[i..], scope)
        {
          assert entries[i..][0] == entries[i] && entries[i..][1..] == entries[i + 1..];
          if entries[i].Obj? {
            var entry := entries[i].fields;
            var value := Get(entry, "value");
            if value != Null {
              SuffixSizes(entries, [], i);
              v := WalkAndValidate(value, allowed, BodyAliases(entry, scope), tf);
              if v.Reject? {
                return;
              }
            }
            scope := scope + CteAlias(entry);
          }
        }
      }
      v := CheckNode(fields, allowed, scope, tf);
      if v.Reject? {
        return;
      }
      for i := 0 to |fields|
        invariant v == Accept
        invariant WalkFields(fields, allowed, scope, tf) == WalkFields(fields[i..], allowed, scope, tf)
      {
        assert fields[i..][0] == fields[i] && fields[i..][1..] == fields[i + 1..];
        if !Skipped(fields[i], allowed) {
          SuffixSizes([], fields, i);
          v := WalkAndValidate(fields[i].value, allowed, scope, tf);
          if v.Reject? {
            return;
          }
        }
      }
    case Arr(items) =>
      v := Accept;
      for i := 0 to |items|
        invariant v == Accept
        invariant WalkItems(items, allowed, aliases, tf) == WalkItems(items[i..], allowed, aliases, tf)
      {
        assert items[i..][0] == items[i] && items[i..][1..] == items[i + 1..];
        SuffixSizes(items, [], i);
        v := WalkAndValidate(items[i], allowed, aliases, tf);
        if v.Reject? {
          return;
        }
      }
    case _ =>
      v := Accept;
  }
}
