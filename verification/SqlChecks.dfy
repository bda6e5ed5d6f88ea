/** The checks of one node, in terms of what the node says. */
module SqlChecks {
  import opened SqlTree
  import opened SqlValidator
  import opened Text
  import opened Wrappers

  /** A node is in order: what it names is open to the query or bound in scope, and what it calls may be called. */
  predicate InOrder(fields: seq<Field>, allowed: Allowed, scope: set<string>, tf: set<string>) {
    && (NamesTable(fields) ==>
          && TableAt(fields).Some?
          && var r := TableAt(fields).value;
          && MayName(r)
          && (r.name == "" || Lower(r.name) in AllowedNames(allowed, r) || Bound(r, scope)))
    && (Calls(fields) ==> MayCall(Lower(Get(fields, "function_name").s), CallsAsTable(fields), tf))
  }

  /** Without a set of tables every name is open. */
  function AllowedNames(allowed: Allowed, r: TableRef): set<string> {
    match allowed
    case Anything => {Lower(r.name)}
    case Only(tables) => tables
  }

  lemma TextIs(fields: seq<Field>, key: string)
    ensures TextOrEmpty(Get(fields, key)) == match TextAt(fields, key) case Some(t) => MaybeText.Text(t) case None => NotText
  {
  }

  lemma RefIs(fields: seq<Field>)
    ensures RefOf(fields) == match TableAt(fields) case Some(r) => Ref(r) case None => BadRef
  {
    TextIs(fields, "table_name");
    TextIs(fields, "schema_name");
    TextIs(fields, "catalog_name");
  }

  lemma EntriesAre(fields: seq<Field>)
    ensures CteEntries(fields) == Expressions(fields)
  {
  }

  lemma AliasIs(entry: seq<Field>)
    ensures CteAlias(entry) == Declared(Obj(entry))
  {
  }

  lemma RecursiveIs(value: Json)
    ensures IsRecursive(value) <==> Recurs(value)
  {
  }

  lemma BlockedNames(name: string)
    ensures name in BLOCKED_FUNCTIONS <==> name in SEALED
    ensures StartsWithAny(name, BLOCKED_FUNCTION_PREFIXES) <==> Seals(name)
    ensures StartsWithAny(name, BLOCKED_TABLE_PREFIXES) <==> "duckdb_" <= name || "pg_" <= name
  {
  }

  lemma FunctionOk(fields: seq<Field>, tf: set<string>)
    requires Get(fields, "function_name").Str?
    ensures CheckFunction(fields, tf) == Accept <==> MayCall(Lower(Get(fields, "function_name").s), CallsAsTable(fields), tf)
  {
    BlockedNames(Lower(Get(fields, "function_name").s));
  }

  lemma TableOk(fields: seq<Field>, allowed: Allowed, scope: set<string>)
    ensures CheckTable(fields, allowed, scope) == Accept
       <==> (&& TableAt(fields).Some?
             && var r := TableAt(fields).value;
             && MayName(r)
             && (r.name == "" || Lower(r.name) in AllowedNames(allowed, r) || Bound(r, scope)))
  {
    RefIs(fields);
    if TableAt(fields).Some? {
      var r := TableAt(fields).value;
      BlockedNames(Lower(r.name));
      PathLikeIs(r.name);
    }
  }

  lemma PathLikeIs(name: string)
    ensures PathLike(name) <==> !(forall i :: 0 <= i < |name| ==> name[i] != '/' && name[i] != '\\' && name[i] != '.')
  {
  }

  /** Why a call is refused: the first of three reasons. */
  lemma FunctionReason(fields: seq<Field>, tf: set<string>)
    requires Get(fields, "function_name").Str?
    ensures var name := Lower(Get(fields, "function_name").s);
            CheckFunction(fields, tf) ==
            if MayCall(name, CallsAsTable(fields), tf) then Accept
            else if name in SEALED then Reject(BlockedFunction)
            else if Seals(name) then Reject(BlockedFunctionPrefix)
            else Reject(TableFunctionNotAllowed)
  {
    BlockedNames(Lower(Get(fields, "function_name").s));
  }

  /** Why a table is refused: the first of these, in this order. */
  lemma TableReason(fields: seq<Field>, allowed: Allowed, scope: set<string>, r: TableRef)
    requires TableAt(fields) == Some(r)
    ensures var v := CheckTable(fields, allowed, scope);
            && (v == Reject(PathLikeName) <==> exists i :: 0 <= i < |r.name| && r.name[i] in "/\\.")
            && (v == Reject(BlockedTablePrefix) ==> "duckdb_" <= Lower(r.name) || "pg_" <= Lower(r.name))
            && (v == Reject(BlockedSchema) ==> r.schema in {"information_schema", "pg_catalog", "system"})
            && (v == Reject(BlockedCatalog) ==> r.catalog != "" && r.catalog != "main")
            && (v == Reject(ForeignTable) ==> MayName(r) && allowed.Only? && r.name != "" && !Bound(r, scope))
            && v != Reject(Malformed)
  {
    RefIs(fields);
    BlockedNames(Lower(r.name));
    PathLikeIs(r.name);
    assert forall i :: 0 <= i < |r.name| ==> (r.name[i] in "/\\." <==> r.name[i] == '/' || r.name[i] == '\\' || r.name[i] == '.');
  }

  /** The checks accept a node exactly if it is in order. */
  lemma NodeAcceptIff(fields: seq<Field>, allowed: Allowed, scope: set<string>, tf: set<string>)
    ensures CheckNode(fields, allowed, scope, tf) == Accept <==> InOrder(fields, allowed, scope, tf)
  {
    TableOk(fields, allowed, scope);
    if Get(fields, "function_name").Str? {
      FunctionOk(fields, tf);
    }
  }

  /** In particular a bare reference to a common table expression in scope is accepted, whatever tables are allowed. */
  lemma BoundAccepted(fields: seq<Field>, allowed: Allowed, scope: set<string>, tf: set<string>, r: TableRef)
    requires TableAt(fields) == Some(r) && MayName(r) && Bound(r, scope) && !Calls(fields)
    ensures CheckNode(fields, allowed, scope, tf) == Accept
  {
    NodeAcceptIff(fields, allowed, scope, tf);
  }
}
