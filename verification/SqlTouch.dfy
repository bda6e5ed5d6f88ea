/** Non-interference is tight: a query that reads, outside its common table expressions, a table or a function that is not
    open to it means different things in two worlds that agree on all that is. */
module SqlTouch {
  import opened SqlChecks
  import opened SqlMeaning
  import opened SqlScope
  import opened SqlTree
  import opened SqlValidator
  import opened Text
  import opened Wrappers

  /** What a query may touch. */
  datatype Touch = Table(ref: TableRef) | Func(name: string, asTable: bool)

  type Touches = set<Touch>

  function Union(vs: seq<Touches>): Touches { if vs == [] then {} else vs[0] + Union(vs[1..]) }

  /** The meaning of a node as all that was touched for it. */
  function Collecting(): Algebra<Touches> { Algebra((node: Json, vs: seq<Touches>) => Union(vs), {}, 1) }

  /** A world that leaves a trace of everything but `x`. */
  function Without(x: Option<Touch>): World<Touches> {
    World((r: TableRef) => if x == Some(Table(r)) then {} else {Table(r)},
          (f: string, asTable: bool) => if x == Some(Func(f, asTable)) then {} else {Func(f, asTable)})
  }

  lemma {:induction false} InUnion(vs: seq<Touches>, i: nat, x: Touch)
    requires i < |vs| && x in vs[i]
    ensures x in Union(vs)
  {
    if i > 0 {
      InUnion(vs[1..], i - 1, x);
    }
  }

  predicate NoneHas(vs: seq<Touches>, x: Touch) { forall i :: 0 <= i < |vs| ==> x !in vs[i] }

  lemma NoneHasBoth(a: seq<Touches>, b: seq<Touches>, x: Touch)
    requires NoneHas(a, x) && NoneHas(b, x)
    ensures NoneHas(a + b, x)
  {
  }

  lemma {:induction false} NotInUnion(vs: seq<Touches>, x: Touch)
    requires NoneHas(vs, x)
    ensures x !in Union(vs)
  {
    if vs != [] {
      NotInUnion(vs[1..], x);
    }
  }

  // ---- What is never touched ----------------------------------------------------------------

  predicate Clean(env: map<string, Touches>, x: Touch) { forall a :: a in env ==> x !in env[a] }

  lemma ReadsClean(fields: seq<Field>, env: map<string, Touches>, x: Touch)
    requires Clean(env, x)
    ensures NoneHas(TableReads(fields, Without(Some(x)), env) + FunctionReads(fields, Without(Some(x))), x)
  {
  }

  lemma {:induction false} EvalClean(node: Json, env: map<string, Touches>, x: Touch)
    requires Clean(env, x)
    ensures x !in Eval(node, Without(Some(x)), Collecting(), env)
    decreases Size(node), 1, 0
  {
    var w, alg := Without(Some(x)), Collecting();
    match node
    case Obj(fields) =>
      ExpressionsSmaller(fields);
      BindClean(Expressions(fields), env, x);
      var env' := Bind(Expressions(fields), w, alg, env);
      ReadsClean(fields, env', x);
      FieldsClean(fields, env', x);
      NoneHasBoth(TableReads(fields, w, env') + FunctionReads(fields, w), EvalFields(fields, w, alg, env'), x);
      NotInUnion(TableReads(fields, w, env') + FunctionReads(fields, w) + EvalFields(fields, w, alg, env'), x);
    case Arr(items) =>
      ItemsClean(items, env, x);
      NotInUnion(EvalItems(items, w, alg, env), x);
    case _ =>
  }

  lemma {:induction false} FieldsClean(fields: seq<Field>, env: map<string, Touches>, x: Touch)
    requires Clean(env, x)
    ensures NoneHas(EvalFields(fields, Without(Some(x)), Collecting(), env), x)
    decreases FieldsSize(fields), 0, 0
  {
    if fields != [] {
      FieldsClean(fields[1..], env, x);
      if fields[0].key != "cte_map" {
        EvalClean(fields[0].value, env, x);
        NoneHasBoth([Eval(fields[0].value, Without(Some(x)), Collecting(), env)],
                    EvalFields(fields[1..], Without(Some(x)), Collecting(), env), x);
      }
    }
  }

  lemma {:induction false} ItemsClean(items: seq<Json>, env: map<string, Touches>, x: Touch)
    requires Clean(env, x)
    ensures NoneHas(EvalItems(items, Without(Some(x)), Collecting(), env), x)
    decreases ItemsSize(items), 0, 0
  {
    if items != [] {
      EvalClean(items[0], env, x);
      ItemsClean(items[1..], env, x);
      NoneHasBoth([Eval(items[0], Without(Some(x)), Collecting(), env)],
                  EvalItems(items[1..], Without(Some(x)), Collecting(), env), x);
    }
  }

  lemma {:induction false} BindClean(entries: seq<Json>, env: map<string, Touches>, x: Touch)
    requires Clean(env, x)
    ensures Clean(Bind(entries, Without(Some(x)), Collecting(), env), x)
    decreases ItemsSize(entries), 0, 0
  {
    if entries == [] {
    } else if !entries[0].Obj? {
      BindClean(entries[1..], env, x);
    } else {
      var value, alias := Get(entries[0].fields, "value"), Declared(entries[0]);
      assert Size(value) <= FieldsSize(entries[0].fields) < Size(entries[0]) < ItemsSize(entries);
      MeaningClean(value, alias, env, x);
      BindClean(entries[1..], Extend(env, alias, Meaning(value, alias, Without(Some(x)), Collecting(), env)), x);
    }
  }

  lemma {:induction false} MeaningClean(value: Json, alias: set<string>, env: map<string, Touches>, x: Touch)
    requires Clean(env, x)
    ensures x !in Meaning(value, alias, Without(Some(x)), Collecting(), env)
    decreases Size(value), 3, 0
  {
    if Recurs(value) {
      IterateClean(value, alias, env, x, Collecting().rounds);
    } else {
      EvalClean(value, env, x);
    }
  }

  lemma {:induction false} IterateClean(value: Json, alias: set<string>, env: map<string, Touches>, x: Touch, n: nat)
    requires Clean(env, x)
    ensures x !in Iterate(value, alias, Without(Some(x)), Collecting(), env, n)
    decreases Size(value), 2, n
  {
    if n > 0 {
      IterateClean(value, alias, env, x, n - 1);
      EvalClean(value, Extend(env, alias, Iterate(value, alias, Without(Some(x)), Collecting(), env, n - 1)), x);
    }
  }

  // ---- What is touched ----------------------------------------------------------------------

  /** The names bound where an object stands are those of the outer scope and of its own expressions. */
  lemma {:induction false} BindKeys<V>(entries: seq<Json>, n: nat, w: World<V>, alg: Algebra<V>, env: map<string, V>, outer: set<string>)
    requires n <= |entries| && env.Keys == outer + Declares(entries, n)
    ensures Bind(entries[n..], w, alg, env).Keys == outer + Declares(entries, |entries|)
    decreases |entries| - n
  {
    if n < |entries| {
      assert entries[n..][0] == entries[n] && entries[n..][1..] == entries[n + 1..];
      assert outer + Declares(entries, n + 1) == env.Keys + Declared(entries[n]);
      if entries[n].Obj? {
        var alias := Declared(entries[n]);
        BindKeys(entries, n + 1, w, alg, Extend(env, alias, Meaning(Get(entries[n].fields, "value"), alias, w, alg, env)), outer);
      } else {
        BindKeys(entries, n + 1, w, alg, env, outer);
      }
    }
  }

  lemma ScopeBound<V>(fields: seq<Field>, w: World<V>, alg: Algebra<V>, env: map<string, V>)
    ensures var entries := Expressions(fields);
            Bind(entries, w, alg, env).Keys == env.Keys + Declares(entries, |entries|)
  {
    var entries := Expressions(fields);
    assert entries[0..] == entries && env.Keys + Declares(entries, 0) == env.Keys;
    BindKeys(entries, 0, w, alg, env, env.Keys);
  }

  /** The path enters no `cte_map`. */
  predicate Outside(node: Json, path: Path)
    decreases |path|
  {
    path == [] ||
    match node
    case Obj(fields) => path[0] < |fields| && fields[path[0]].key != "cte_map" && Outside(fields[path[0]].value, path[1..])
    case Arr(items) => path[0] < |items| && Outside(items[path[0]], path[1..])
    case _ => false
  }

  /** The position reads `x` from the world: a table it names that is not bound there, or a function it calls. */
  predicate ReadsAt(fields: seq<Field>, scope: set<string>, x: Touch) {
    match x
    case Table(t) =>
      && NamesTable(fields) && TableAt(fields).Some?
      && var r := TableAt(fields).value;
      && r.name != "" && !(r.catalog == "" && r.schema == "" && Lower(r.name) in scope)
      && t == TableRef(r.catalog, r.schema, Lower(r.name))
    case Func(name, asTable) =>
      && Get(fields, "class") == Str("FUNCTION") && Get(fields, "function_name").Str?
      && name == Lower(Get(fields, "function_name").s) && asTable == (Get(fields, "type") == Str("TABLE_FUNCTION"))
  }

  lemma OwnRead(fields: seq<Field>, env: map<string, Touches>, x: Touch)
    requires ReadsAt(fields, env.Keys, x)
    ensures x in Union(TableReads(fields, Without(None), env) + FunctionReads(fields, Without(None))
                       + EvalFields(fields, Without(None), Collecting(), env))
  {
    var w := Without(None);
    var tables, funcs := TableReads(fields, w, env), FunctionReads(fields, w);
    var all := tables + funcs + EvalFields(fields, w, Collecting(), env);
    if x.Table? {
      assert all[0] == tables[0] == {x};
      InUnion(all, 0, x);
    } else {
      assert all[|tables|] == funcs[0] == {x};
      InUnion(all, |tables|, x);
    }
  }

  lemma {:induction false} FieldAt(fields: seq<Field>, i: nat, env: map<string, Touches>, x: Touch) returns (k: nat)
    requires i < |fields| && fields[i].key != "cte_map" && x in Eval(fields[i].value, Without(None), Collecting(), env)
    ensures var vs := EvalFields(fields, Without(None), Collecting(), env); k < |vs| && x in vs[k]
  {
    if i == 0 {
      k := 0;
    } else {
      var rest := FieldAt(fields[1..], i - 1, env, x);
      k := if fields[0].key == "cte_map" then rest else rest + 1;
    }
  }

  lemma {:induction false} ItemAt(items: seq<Json>, i: nat, env: map<string, Touches>)
    requires i < |items|
    ensures var vs := EvalItems(items, Without(None), Collecting(), env);
            i < |vs| && vs[i] == Eval(items[i], Without(None), Collecting(), env)
  {
    if i > 0 {
      ItemAt(items[1..], i - 1, env);
    }
  }

  lemma TouchedBelow(fields: seq<Field>, i: nat, env: map<string, Touches>, x: Touch)
    requires i < |fields| && fields[i].key != "cte_map" && x in Eval(fields[i].value, Without(None), Collecting(), env)
    ensures x in Union(TableReads(fields, Without(None), env) + FunctionReads(fields, Without(None))
                       + EvalFields(fields, Without(None), Collecting(), env))
  {
    var named := TableReads(fields, Without(None), env) + FunctionReads(fields, Without(None));
    var vs := EvalFields(fields, Without(None), Collecting(), env);
    var k := FieldAt(fields, i, env, x);
    assert (named + vs)[|named| + k] == vs[k];
    InUnion(named + vs, |named| + k, x);
  }

  /** What a position outside all common table expressions reads is touched by the query. */
  lemma {:induction false} Touched(node: Json, path: Path, fields: seq<Field>, env: map<string, Touches>, x: Touch)
    requires Outside(node, path) && At(node, path) == Some(Obj(fields)) && ReadsAt(fields, Scope(node, path, env.Keys), x)
    ensures x in Eval(node, Without(None), Collecting(), env)
    decreases |path|
  {
    var w, alg := Without(None), Collecting();
    match node
    case Obj(own) =>
      ExpressionsSmaller(own);
      ScopeBound(own, w, alg, env);
      var env' := Bind(Expressions(own), w, alg, env);
      if path == [] {
        OwnRead(own, env', x);
      } else {
        Touched(own[path[0]].value, path[1..], fields, env', x);
        TouchedBelow(own, path[0], env', x);
      }
    case Arr(items) =>
      Touched(items[path[0]], path[1..], fields, env, x);
      ItemAt(items, path[0], env);
      InUnion(EvalItems(items, w, alg, env), path[0], x);
    case _ =>
  }

  /** Open to a query that may read the given tables. */
  predicate OpenTo(x: Touch, tables: set<string>, tf: set<string>) {
    match x
    case Table(r) => MayName(r) && r.name in tables
    case Func(name, asTable) => MayCall(name, asTable, tf)
  }

  /** Anything read outside the common table expressions that is not open to the query interferes with its meaning. */
  lemma Interferes(query: Json, tables: set<string>, tf: set<string>, path: Path, fields: seq<Field>, x: Touch)
    requires Outside(query, path) && At(query, path) == Some(Obj(fields)) && ReadsAt(fields, Scope(query, path, {}), x)
    requires !OpenTo(x, tables, tf)
    ensures Agree(Without(None), Without(Some(x)), tables, tf)
    ensures Eval(query, Without(None), Collecting(), map[]) != Eval(query, Without(Some(x)), Collecting(), map[])
  {
    var none: map<string, Touches> := map[];
    assert none.Keys == {};
    Touched(query, path, fields, none, x);
    EvalClean(query, none, x);
  }
}
