/** What accepting a parse tree guarantees.

    A query's meaning is given by an arbitrary algebra: the value of a node is any function of its
    syntax, its children's values and whatever it reads from the outside world, namely the table it
    names or the function it calls. Common table expressions are evaluated in order; a recursive one
    is iterated a given number of times. Every result holds for all algebras and all bounds. */
module SqlMeaning {
  import opened Text
  import opened SqlChecks
  import opened SqlTree
  import opened SqlValidator
  import opened Wrappers

  /** What lies outside the query. Functions may behave differently as table functions. */
  datatype World<!V> = World(table: TableRef -> V, func: (string, bool) -> V)

  datatype Algebra<!V> = Algebra(op: (Json, seq<V>) -> V, bottom: V, rounds: nat)

  /** The table a reference reads once no common table expression answers to its name. */
  function Stored(r: TableRef): TableRef { r.(name := Lower(r.name)) }

  function TableReads<V>(fields: seq<Field>, w: World<V>, env: map<string, V>): seq<V> {
    match TableAt(fields)
    case None => []
    case Some(r) =>
      if !NamesTable(fields) || r.name == "" then []
      else if Bound(r, env.Keys) then [env[Lower(r.name)]]
      else [w.table(Stored(r))]
  }

  function FunctionReads<V>(fields: seq<Field>, w: World<V>): seq<V> {
    if Calls(fields) then [w.func(Lower(Get(fields, "function_name").s), CallsAsTable(fields))] else []
  }

  lemma ExpressionsSmaller(fields: seq<Field>)
    ensures ItemsSize(Expressions(fields)) <= FieldsSize(fields)
  {
  }

  function Eval<V>(node: Json, w: World<V>, alg: Algebra<V>, env: map<string, V>): V
    decreases Size(node), 1, 0
  {
    match node
    case Obj(fields) =>
      ExpressionsSmaller(fields);
      var env' := Bind(Expressions(fields), w, alg, env);
      alg.op(node, TableReads(fields, w, env') + FunctionReads(fields, w) + EvalFields(fields, w, alg, env'))
    case Arr(items) => alg.op(node, EvalItems(items, w, alg, env))
    case _ => alg.op(node, [])
  }

  function EvalFields<V>(fields: seq<Field>, w: World<V>, alg: Algebra<V>, env: map<string, V>): seq<V>
    decreases FieldsSize(fields), 0, 0
  {
    if fields == [] then []
    else if fields[0].key == "cte_map" then EvalFields(fields[1..], w, alg, env)
    else [Eval(fields[0].value, w, alg, env)] + EvalFields(fields[1..], w, alg, env)
  }

  function EvalItems<V>(items: seq<Json>, w: World<V>, alg: Algebra<V>, env: map<string, V>): seq<V>
    decreases ItemsSize(items), 0, 0
  {
    if items == [] then [] else [Eval(items[0], w, alg, env)] + EvalItems(items[1..], w, alg, env)
  }

  /** Declares the common table expressions in order. */
  function Bind<V>(entries: seq<Json>, w: World<V>, alg: Algebra<V>, env: map<string, V>): map<string, V>
    decreases ItemsSize(entries), 0, 0
  {
    if entries == [] then env
    else if !entries[0].Obj? then Bind(entries[1..], w, alg, env)
    else
      var entry := entries[0].fields;
      assert Size(Get(entry, "value")) <= FieldsSize(entry) < Size(entries[0]) < ItemsSize(entries);
      var value := Meaning(Get(entry, "value"), Declared(entries[0]), w, alg, env);
      Bind(entries[1..], w, alg, Extend(env, Declared(entries[0]), value))
  }

  function Extend<V>(env: map<string, V>, alias: set<string>, value: V): (r: map<string, V>)
    ensures r.Keys == env.Keys + alias
  {
    env + map a | a in alias :: value
  }

  /** What an expression stands for: a recursive one is iterated. */
  function Meaning<V>(value: Json, alias: set<string>, w: World<V>, alg: Algebra<V>, env: map<string, V>): V
    decreases Size(value), 3, 0
  {
    if Recurs(value) then Iterate(value, alias, w, alg, env, alg.rounds) else Eval(value, w, alg, env)
  }

  function Iterate<V>(value: Json, alias: set<string>, w: World<V>, alg: Algebra<V>, env: map<string, V>, n: nat): V
    decreases Size(value), 2, n
  {
    if n == 0 then alg.bottom
    else Eval(value, w, alg, Extend(env, alias, Iterate(value, alias, w, alg, env, n - 1)))
  }

  // ---- Non-interference ---------------------------------------------------------------------

  /** Tables an accepted query may read from the world. */
  predicate Readable(r: TableRef, tables: set<string>) { MayName(r) && r.name in tables }

  ghost predicate Agree<V>(a: World<V>, b: World<V>, tables: set<string>, tf: set<string>) {
    && (forall r: TableRef :: Readable(r, tables) ==> a.table(r) == b.table(r))
    && (forall f: string, asTable: bool :: MayCall(f, asTable, tf) ==> a.func(f, asTable) == b.func(f, asTable))
  }

  /** Lower-casing keeps path characters out, and lower-casing twice is lower-casing. */
  lemma StoredMayName(r: TableRef)
    requires MayName(r)
    ensures MayName(Stored(r))
  {
    assert Lower(Lower(r.name)) == Lower(r.name);
  }

  lemma ReadsSame<V>(fields: seq<Field>, a: World<V>, b: World<V>, env: map<string, V>, tables: set<string>, tf: set<string>)
    requires Agree(a, b, tables, tf) && InOrder(fields, Only(tables), env.Keys, tf)
    ensures TableReads(fields, a, env) == TableReads(fields, b, env)
    ensures FunctionReads(fields, a) == FunctionReads(fields, b)
  {
    match TableAt(fields)
    case None =>
    case Some(r) =>
      if NamesTable(fields) && r.name != "" && !Bound(r, env.Keys) {
        StoredMayName(r);
        assert Readable(Stored(r), tables);
      }
  }

  lemma {:induction false} EvalSame<V>(node: Json, a: World<V>, b: World<V>, alg: Algebra<V>,
                                       env: map<string, V>, tables: set<string>, tf: set<string>)
    requires Agree(a, b, tables, tf)
    requires Walk(node, Only(tables), env.Keys, tf) == Accept
    ensures Eval(node, a, alg, env) == Eval(node, b, alg, env)
    decreases Size(node), 1, 0
  {
    match node
    case Obj(fields) =>
      ExpressionsSmaller(fields);
      EntriesAre(fields);
      BindSame(Expressions(fields), a, b, alg, env, tables, tf);
      var env' := Bind(Expressions(fields), a, alg, env);
      NodeAcceptIff(fields, Only(tables), env'.Keys, tf);
      ReadsSame(fields, a, b, env', tables, tf);
      FieldsSame(fields, a, b, alg, env', tables, tf);
    case Arr(items) => ItemsSame(items, a, b, alg, env, tables, tf);
    case _ =>
  }

  lemma {:induction false} FieldsSame<V>(fields: seq<Field>, a: World<V>, b: World<V>, alg: Algebra<V>,
                                         env: map<string, V>, tables: set<string>, tf: set<string>)
    requires Agree(a, b, tables, tf)
    requires WalkFields(fields, Only(tables), env.Keys, tf) == Accept
    ensures EvalFields(fields, a, alg, env) == EvalFields(fields, b, alg, env)
    decreases FieldsSize(fields), 0, 0
  {
    if fields != [] {
      if fields[0].key != "cte_map" {
        EvalSame(fields[0].value, a, b, alg, env, tables, tf);
      }
      FieldsSame(fields[1..], a, b, alg, env, tables, tf);
    }
  }

  lemma {:induction false} ItemsSame<V>(items: seq<Json>, a: World<V>, b: World<V>, alg: Algebra<V>,
                                        env: map<string, V>, tables: set<string>, tf: set<string>)
    requires Agree(a, b, tables, tf)
    requires WalkItems(items, Only(tables), env.Keys, tf) == Accept
    ensures EvalItems(items, a, alg, env) == EvalItems(items, b, alg, env)
    decreases ItemsSize(items), 0, 0
  {
    if items != [] {
      EvalSame(items[0], a, b, alg, env, tables, tf);
      ItemsSame(items[1..], a, b, alg, env, tables, tf);
    }
  }

  lemma {:induction false} BindSame<V>(entries: seq<Json>, a: World<V>, b: World<V>, alg: Algebra<V>,
                                       env: map<string, V>, tables: set<string>, tf: set<string>)
    requires Agree(a, b, tables, tf)
    requires WalkCtes(entries, Only(tables), env.Keys, tf) == Accept
    ensures Bind(entries, a, alg, env) == Bind(entries, b, alg, env)
    ensures Bind(entries, a, alg, env).Keys == ScopeAfter(entries, env.Keys)
    decreases ItemsSize(entries), 0, 0
  {
    if entries == [] {
    } else if !entries[0].Obj? {
      BindSame(entries[1..], a, b, alg, env, tables, tf);
    } else {
      var entry := entries[0].fields;
      var value := Get(entry, "value");
      assert Size(value) <= FieldsSize(entry) < Size(entries[0]) < ItemsSize(entries);
      var alias := Declared(entries[0]);
      AliasIs(entry);
      RecursiveIs(value);
      MeaningSame(value, alias, a, b, alg, env, tables, tf);
      BindSame(entries[1..], a, b, alg, Extend(env, alias, Meaning(value, alias, a, alg, env)), tables, tf);
    }
  }

  lemma {:induction false} MeaningSame<V>(value: Json, alias: set<string>, a: World<V>, b: World<V>, alg: Algebra<V>,
                                           env: map<string, V>, tables: set<string>, tf: set<string>)
    requires Agree(a, b, tables, tf)
    requires value == Null
          || Walk(value, Only(tables), if Recurs(value) then env.Keys + alias else env.Keys, tf) == Accept
    ensures Meaning(value, alias, a, alg, env) == Meaning(value, alias, b, alg, env)
    decreases Size(value), 3, 0
  {
    if Recurs(value) {
      IterateSame(value, alias, a, b, alg, env, tables, tf, alg.rounds);
    } else if value != Null {
      EvalSame(value, a, b, alg, env, tables, tf);
    }
  }

  lemma {:induction false} IterateSame<V>(value: Json, alias: set<string>, a: World<V>, b: World<V>, alg: Algebra<V>,
                                          env: map<string, V>, tables: set<string>, tf: set<string>, n: nat)
    requires Agree(a, b, tables, tf)
    requires Walk(value, Only(tables), env.Keys + alias, tf) == Accept
    ensures Iterate(value, alias, a, alg, env, n) == Iterate(value, alias, b, alg, env, n)
    decreases Size(value), 2, n
  {
    if n > 0 {
      IterateSame(value, alias, a, b, alg, env, tables, tf, n - 1);
      EvalSame(value, a, b, alg, Extend(env, alias, Iterate(value, alias, a, alg, env, n - 1)), tables, tf);
    }
  }

  /** Non-interference. A query accepted for a set of tables means the same in any two worlds that
      agree on those tables, in the catalogs and schemas the checks leave open, and on the functions
      the checks leave open: nothing else can influence it, at any depth of nesting. */
  lemma NonInterference<V>(query: Json, a: World<V>, b: World<V>, alg: Algebra<V>, tables: set<string>, tf: set<string>)
    requires Walk(query, Only(tables), {}, tf) == Accept
    requires Agree(a, b, tables, tf)
    ensures Eval(query, a, alg, map[]) == Eval(query, b, alg, map[])
  {
    var none: map<string, V> := map[];
    assert none.Keys == {};
    EvalSame(query, a, b, alg, none, tables, tf);
  }
}
