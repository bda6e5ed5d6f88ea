/** Which references the walk reaches. Positions in a tree are paths from the root, and the names in
    scope at a position are read off the path alone, independently of the walk. */
module SqlScope {
  import opened SqlChecks
  import opened SqlTree
  import opened SqlValidator
  import opened Text
  import opened Wrappers

  /** One step down: the `i`-th field of an object or the `i`-th item of an array. */
  type Path = seq<nat>

  function Child(node: Json, i: nat): Option<Json> {
    match node
    case Obj(fields) => if i < |fields| then Some(fields[i].value) else None
    case Arr(items) => if i < |items| then Some(items[i]) else None
    case _ => None
  }

  function At(node: Json, path: Path): Option<Json> {
    if path == [] then Some(node)
    else match Child(node, path[0])
         case None => None
         case Some(child) => At(child, path[1..])
  }

  /** The shape DuckDB serialises: an object's common table expressions are
      `{"map": [{"key": <name>, "value": <query>}, ...]}` and nothing else. */
  predicate EntryShape(entry: Json) {
    && entry.Obj? && |entry.fields| == 2
    && entry.fields[0].key == "key" && entry.fields[0].value.Str?
    && entry.fields[1].key == "value" && entry.fields[1].value.Obj?
  }

  predicate CteShape(j: Json) {
    && j.Obj? && |j.fields| == 1 && j.fields[0].key == "map" && j.fields[0].value.Arr?
    && (forall i :: 0 <= i < |j.fields[0].value.items| ==> EntryShape(j.fields[0].value.items[i]))
  }

  /** Keys are unique and every `cte_map` has its shape, all the way down. */
  predicate WellFormed(node: Json) {
    match node
    case Obj(fields) =>
      && (forall i, j :: 0 <= i < j < |fields| ==> fields[i].key != fields[j].key)
      && (forall i :: 0 <= i < |fields| ==>
            (fields[i].key == "cte_map" ==> CteShape(fields[i].value)) && WellFormed(fields[i].value))
    case Arr(items) => forall i :: 0 <= i < |items| ==> WellFormed(items[i])
    case _ => true
  }

  /** Names declared by the first `n` entries of a `cte_map`. */
  function Declares(entries: seq<Json>, n: nat): set<string>
    requires n <= |entries|
  {
    if n == 0 then {}
    else Declares(entries, n - 1) + Declared(entries[n - 1])
  }

  /** The names in scope at a position. Inside the `n`-th common table expression these are the outer
      names and the earlier expressions, plus its own when it is recursive; anywhere else inside an
      object they are the outer names and all of the object's expressions. */
  function Scope(node: Json, path: Path, outer: set<string>): set<string>
    decreases |path|
  {
    match node
    case Obj(fields) =>
      var entries := Expressions(fields);
      if path == [] then outer + Declares(entries, |entries|)
      else if path[0] < |fields| && fields[path[0]].key == "cte_map" then
        if |path| >= 4 && path[2] < |entries| && entries[path[2]].Obj? then
          var query := Get(entries[path[2]].fields, "value");
          var own := if Recurs(query) then Declared(entries[path[2]]) else {};
          Scope(query, path[4..], outer + Declares(entries, path[2]) + own)
        else outer
      else if path[0] < |fields| then
        Scope(fields[path[0]].value, path[1..], outer + Declares(entries, |entries|))
      else outer
    case Arr(items) =>
      if path != [] && path[0] < |items| then Scope(items[path[0]], path[1..], outer) else outer
    case _ => outer
  }

  /** Keys are unique, as in any dictionary. */
  predicate UniqueKeys(node: Json) {
    match node
    case Obj(fields) =>
      && (forall i, j :: 0 <= i < j < |fields| ==> fields[i].key != fields[j].key)
      && (forall i :: 0 <= i < |fields| ==> UniqueKeys(fields[i].value))
    case Arr(items) => forall i :: 0 <= i < |items| ==> UniqueKeys(items[i])
    case _ => true
  }

  /** The path leads from an object through its `cte_map`, the list under `map` and an entry to the query
      under `value`. */
  predicate IntoCte(fields: seq<Field>, path: Path) {
    && |path| >= 4 && path[0] < |fields| && fields[path[0]].key == "cte_map"
    && var m := fields[path[0]].value;
    && m.Obj? && path[1] < |m.fields| && m.fields[path[1]].key == "map" && m.fields[path[1]].value.Arr?
    && var items := m.fields[path[1]].value.items;
    && path[2] < |items| && items[path[2]].Obj?
    && path[3] < |items[path[2]].fields| && items[path[2]].fields[path[3]].key == "value"
  }

  function Body(fields: seq<Field>, path: Path): Json
    requires IntoCte(fields, path)
  {
    fields[path[0]].value.fields[path[1]].value.items[path[2]].fields[path[3]].value
  }

  /** The positions the walk reads: all of a tree, but of a `cte_map` only the queries of its entries. */
  predicate Read(node: Json, path: Path)
    decreases |path|
  {
    match node
    case Obj(fields) =>
      if path == [] then true
      else if path[0] >= |fields| then false
      else if fields[path[0]].key != "cte_map" then Read(fields[path[0]].value, path[1..])
      else IntoCte(fields, path) && Read(Body(fields, path), path[4..])
    case Arr(items) => path == [] || (path[0] < |items| && Read(items[path[0]], path[1..]))
    case _ => path == []
  }

  /** What the position names and calls is open to the query, in the scope of the position. */
  predicate OkAt(node: Json, path: Path, outer: set<string>, allowed: Allowed, tf: set<string>) {
    match At(node, path)
    case Some(Obj(fields)) => InOrder(fields, allowed, Scope(node, path, outer), tf)
    case _ => true
  }

  // ---- Lemmas -------------------------------------------------------------------------------

  lemma {:induction false} ScopeAfterDeclares(entries: seq<Json>, n: nat, outer: set<string>)
    requires n <= |entries|
    ensures ScopeAfter(entries[n..], outer + Declares(entries, n)) == outer + Declares(entries, |entries|)
    decreases |entries| - n
  {
    if n < |entries| {
      AliasOfEntry(entries[n]);
      assert entries[n..][0] == entries[n] && entries[n..][1..] == entries[n + 1..];
      var before := outer + Declares(entries, n);
      var after := if entries[n].Obj? then before + CteAlias(entries[n].fields) else before;
      assert outer + Declares(entries, n + 1) == after;
      ScopeAfterDeclares(entries, n + 1, outer);
    }
  }

  lemma AliasOfEntry(entry: Json)
    ensures Declared(entry) == if entry.Obj? then CteAlias(entry.fields) else {}
  {
    if entry.Obj? {
      AliasIs(entry.fields);
    }
  }

  lemma NodeScopeDeclares(fields: seq<Field>, allowed: Allowed, outer: set<string>)
    requires allowed.Only?
    ensures NodeScope(fields, allowed, outer)
         == outer + Declares(Expressions(fields), |Expressions(fields)|)
  {
    var entries := Expressions(fields);
    EntriesAre(fields);
    assert entries[0..] == entries && outer + Declares(entries, 0) == outer;
    ScopeAfterDeclares(entries, 0, outer);
  }

  /** With unique keys, such a path leads to the query the walk visits for that entry. */
  lemma EntryAt(fields: seq<Field>, path: Path)
    requires UniqueKeys(Obj(fields)) && IntoCte(fields, path)
    ensures var entries := CteEntries(fields);
            && path[2] < |entries| && entries[path[2]].Obj? && entries == fields[path[0]].value.fields[path[1]].value.items
            && Get(entries[path[2]].fields, "value") == Body(fields, path)
    ensures UniqueKeys(Body(fields, path))
  {
    var m := fields[path[0]].value;
    GetUnique(fields, path[0]);
    assert UniqueKeys(m);
    GetUnique(m.fields, path[1]);
    var list := m.fields[path[1]].value;
    assert UniqueKeys(list) && UniqueKeys(list.items[path[2]]);
    GetUnique(list.items[path[2]].fields, path[3]);
  }

  lemma AtBody(fields: seq<Field>, path: Path)
    requires IntoCte(fields, path)
    ensures At(Obj(fields), path) == At(Body(fields, path), path[4..])
  {
    var m := fields[path[0]].value;
    var list := m.fields[path[1]].value;
    var entry := list.items[path[2]];
    assert At(Obj(fields), path) == At(m, path[1..]);
    assert path[1..][1..] == path[2..] && path[2..][1..] == path[3..] && path[3..][1..] == path[4..];
    assert At(m, path[1..]) == At(list, path[2..]);
    assert At(list, path[2..]) == At(entry, path[3..]);
    assert At(entry, path[3..]) == At(Body(fields, path), path[4..]);
  }

  lemma {:induction false} CteAccepted(entries: seq<Json>, n: nat, k: nat, allowed: Allowed, outer: set<string>, tf: set<string>)
    requires k <= n < |entries| && entries[n].Obj? && Get(entries[n].fields, "value") != Null
    requires WalkCtes(entries[k..], allowed, outer + Declares(entries, k), tf) == Accept
    ensures Walk(Get(entries[n].fields, "value"), allowed,
                 BodyAliases(entries[n].fields, outer + Declares(entries, n)), tf) == Accept
    decreases n - k
  {
    assert entries[k..][0] == entries[k] && entries[k..][1..] == entries[k + 1..];
    AliasOfEntry(entries[k]);
    if k < n {
      var before := outer + Declares(entries, k);
      var after := if entries[k].Obj? then before + CteAlias(entries[k].fields) else before;
      assert outer + Declares(entries, k + 1) == after;
      CteAccepted(entries, n, k + 1, allowed, outer, tf);
    }
  }

  lemma {:induction false} FieldAccepted(fields: seq<Field>, i: nat, allowed: Allowed, scope: set<string>, tf: set<string>)
    requires i < |fields| && !Skipped(fields[i], allowed)
    requires WalkFields(fields, allowed, scope, tf) == Accept
    ensures Walk(fields[i].value, allowed, scope, tf) == Accept
  {
    if i > 0 {
      FieldAccepted(fields[1..], i - 1, allowed, scope, tf);
    }
  }

  lemma {:induction false} ItemAccepted(items: seq<Json>, i: nat, allowed: Allowed, scope: set<string>, tf: set<string>)
    requires i < |items| && WalkItems(items, allowed, scope, tf) == Accept
    ensures Walk(items[i], allowed, scope, tf) == Accept
  {
    if i > 0 {
      ItemAccepted(items[1..], i - 1, allowed, scope, tf);
    }
  }

  lemma OkInField(fields: seq<Field>, path: Path, outer: set<string>, allowed: Allowed, tf: set<string>)
    requires allowed.Only? && path != [] && path[0] < |fields| && fields[path[0]].key != "cte_map"
    ensures OkAt(Obj(fields), path, outer, allowed, tf)
       <==> OkAt(fields[path[0]].value, path[1..], NodeScope(fields, allowed, outer), allowed, tf)
  {
    NodeScopeDeclares(fields, allowed, outer);
  }

  lemma OkInCte(fields: seq<Field>, path: Path, outer: set<string>, allowed: Allowed, tf: set<string>)
    requires UniqueKeys(Obj(fields)) && IntoCte(fields, path)
    requires path[2] < |CteEntries(fields)| && CteEntries(fields)[path[2]].Obj?
    ensures var entries := CteEntries(fields);
            var entry := entries[path[2]].fields;
            OkAt(Obj(fields), path, outer, allowed, tf)
            <==> OkAt(Body(fields, path), path[4..], BodyAliases(entry, outer + Declares(entries, path[2])), allowed, tf)
  {
    EntryAt(fields, path);
    AtBody(fields, path);
    ScopeInCte(fields, path, outer);
  }

  lemma ScopeInCte(fields: seq<Field>, path: Path, outer: set<string>)
    requires |path| >= 4 && path[0] < |fields| && fields[path[0]].key == "cte_map"
    requires path[2] < |CteEntries(fields)| && CteEntries(fields)[path[2]].Obj?
    ensures var entries := CteEntries(fields);
            var entry := entries[path[2]].fields;
            Scope(Obj(fields), path, outer)
            == Scope(Get(entry, "value"), path[4..], BodyAliases(entry, outer + Declares(entries, path[2])))
  {
    EntriesAre(fields);
    var entries := CteEntries(fields);
    var entry := entries[path[2]].fields;
    var before := outer + Declares(entries, path[2]);
    AliasIs(entry);
    RecursiveIs(Get(entry, "value"));
    assert BodyAliases(entry, before) == before + (if Recurs(Get(entry, "value")) then Declared(entries[path[2]]) else {});
  }

  /** Acceptance covers all that is read: at every such position, however deep, the table named there is
      allowed or bound by an enclosing expression that is in scope there. */
  lemma {:induction false} AcceptedEverywhere(node: Json, path: Path, outer: set<string>, allowed: Allowed, tf: set<string>)
    requires allowed.Only? && UniqueKeys(node) && Walk(node, allowed, outer, tf) == Accept && Read(node, path)
    ensures OkAt(node, path, outer, allowed, tf)
    decreases |path|
  {
    match node
    case Obj(fields) =>
      if path == [] {
        NodeScopeDeclares(fields, allowed, outer);
        NodeAcceptIff(fields, allowed, NodeScope(fields, allowed, outer), tf);
      } else if fields[path[0]].key != "cte_map" {
        FieldAccepted(fields, path[0], allowed, NodeScope(fields, allowed, outer), tf);
        AcceptedEverywhere(fields[path[0]].value, path[1..], NodeScope(fields, allowed, outer), allowed, tf);
        OkInField(fields, path, outer, allowed, tf);
      } else {
        AcceptedInCte(fields, path, outer, allowed, tf);
      }
    case Arr(items) =>
      if path != [] {
        ItemAccepted(items, path[0], allowed, outer, tf);
        AcceptedEverywhere(items[path[0]], path[1..], outer, allowed, tf);
      }
    case _ =>
  }

  lemma {:induction false} AcceptedInCte(fields: seq<Field>, path: Path, outer: set<string>, allowed: Allowed, tf: set<string>)
    requires allowed.Only? && UniqueKeys(Obj(fields)) && Walk(Obj(fields), allowed, outer, tf) == Accept
    requires IntoCte(fields, path) && Read(Body(fields, path), path[4..])
    ensures OkAt(Obj(fields), path, outer, allowed, tf)
    decreases |path|, 0
  {
    EntryAt(fields, path);
    var entries := CteEntries(fields);
    var entry := entries[path[2]].fields;
    OkInCte(fields, path, outer, allowed, tf);
    if Body(fields, path) != Null {
      assert entries[0..] == entries && outer + Declares(entries, 0) == outer;
      CteAccepted(entries, path[2], 0, allowed, outer, tf);
      AcceptedEverywhere(Body(fields, path), path[4..], BodyAliases(entry, outer + Declares(entries, path[2])), allowed, tf);
    }
  }

  // ---- The converse: a rejection points at a failing position ------------------------------

  lemma {:induction false} RejectedCte(entries: seq<Json>, k: nat, allowed: Allowed, outer: set<string>, tf: set<string>) returns (n: nat)
    requires k <= |entries| && WalkCtes(entries[k..], allowed, outer + Declares(entries, k), tf).Reject?
    ensures k <= n < |entries| && entries[n].Obj? && Get(entries[n].fields, "value") != Null
    ensures Walk(Get(entries[n].fields, "value"), allowed,
                 BodyAliases(entries[n].fields, outer + Declares(entries, n)), tf).Reject?
    decreases |entries| - k
  {
    assert entries[k..] != [];
    AliasOfEntry(entries[k]);
    assert entries[k..][0] == entries[k] && entries[k..][1..] == entries[k + 1..];
    var before := outer + Declares(entries, k);
    var after := if entries[k].Obj? then before + CteAlias(entries[k].fields) else before;
    assert outer + Declares(entries, k + 1) == after;
    if entries[k].Obj? && Get(entries[k].fields, "value") != Null
       && Walk(Get(entries[k].fields, "value"), allowed, BodyAliases(entries[k].fields, before), tf).Reject?
    {
      n := k;
    } else {
      n := RejectedCte(entries, k + 1, allowed, outer, tf);
    }
  }

  lemma {:induction false} RejectedField(fields: seq<Field>, allowed: Allowed, scope: set<string>, tf: set<string>) returns (i: nat)
    requires WalkFields(fields, allowed, scope, tf).Reject?
    ensures i < |fields| && !Skipped(fields[i], allowed) && Walk(fields[i].value, allowed, scope, tf).Reject?
  {
    if !Skipped(fields[0], allowed) && Walk(fields[0].value, allowed, scope, tf).Reject? {
      i := 0;
    } else {
      i := RejectedField(fields[1..], allowed, scope, tf);
      i := i + 1;
    }
  }

  lemma {:induction false} RejectedItem(items: seq<Json>, allowed: Allowed, scope: set<string>, tf: set<string>) returns (i: nat)
    requires WalkItems(items, allowed, scope, tf).Reject?
    ensures i < |items| && Walk(items[i], allowed, scope, tf).Reject?
  {
    if Walk(items[0], allowed, scope, tf).Reject? {
      i := 0;
    } else {
      i := RejectedItem(items[1..], allowed, scope, tf);
      i := i + 1;
    }
  }

  lemma {:induction false} GetField(fields: seq<Field>, key: string) returns (i: nat)
    requires Get(fields, key) != Null
    ensures i < |fields| && fields[i].key == key
  {
    if fields[0].key == key {
      i := 0;
    } else {
      i := GetField(fields[1..], key);
      i := i + 1;
    }
  }

  lemma {:induction false} RejectedSomewhere(node: Json, outer: set<string>, allowed: Allowed, tf: set<string>) returns (path: Path)
    requires allowed.Only? && UniqueKeys(node) && Walk(node, allowed, outer, tf).Reject?
    ensures Read(node, path) && !OkAt(node, path, outer, allowed, tf)
    decreases Size(node), 1
  {
    match node
    case Obj(fields) =>
      var entries := CteEntries(fields);
      var scope := NodeScope(fields, allowed, outer);
      if WalkCtes(entries, allowed, outer, tf).Reject? {
        path := RejectedInCte(fields, outer, allowed, tf);
      } else if CheckNode(fields, allowed, scope, tf).Reject? {
        NodeScopeDeclares(fields, allowed, outer);
        NodeAcceptIff(fields, allowed, scope, tf);
        path := [];
      } else {
        var i := RejectedField(fields, allowed, scope, tf);
        SuffixSizes([], fields, i);
        var rest := RejectedSomewhere(fields[i].value, scope, allowed, tf);
        path := [i] + rest;
        assert path[1..] == rest;
        OkInField(fields, path, outer, allowed, tf);
      }
    case Arr(items) =>
      var i := RejectedItem(items, allowed, outer, tf);
      SuffixSizes(items, [], i);
      var rest := RejectedSomewhere(items[i], outer, allowed, tf);
      path := [i] + rest;
      assert path[1..] == rest;
  }

  lemma {:induction false} RejectedInCte(fields: seq<Field>, outer: set<string>, allowed: Allowed, tf: set<string>) returns (path: Path)
    requires allowed.Only? && UniqueKeys(Obj(fields)) && WalkCtes(CteEntries(fields), allowed, outer, tf).Reject?
    ensures Read(Obj(fields), path) && !OkAt(Obj(fields), path, outer, allowed, tf)
    decreases Size(Obj(fields)), 0
  {
    var entries := CteEntries(fields);
    assert entries[0..] == entries && outer + Declares(entries, 0) == outer;
    var n := RejectedCte(entries, 0, allowed, outer, tf);
    var entry := entries[n].fields;
    SuffixSizes(entries, [], n);
    assert Size(Get(entry, "value")) < Size(entries[n]);
    var start := PathToEntry(fields, n);
    EntryAt(fields, start);
    var rest := RejectedSomewhere(Get(entry, "value"), BodyAliases(entry, outer + Declares(entries, n)), allowed, tf);
    path := start + rest;
    assert path[4..] == rest;
    OkInCte(fields, path, outer, allowed, tf);
  }

  /** Where the query of an entry is found. */
  lemma PathToEntry(fields: seq<Field>, n: nat) returns (path: Path)
    requires UniqueKeys(Obj(fields)) && n < |CteEntries(fields)| && CteEntries(fields)[n].Obj?
    requires Get(CteEntries(fields)[n].fields, "value") != Null
    ensures |path| == 4 && path[2] == n && IntoCte(fields, path)
  {
    var f := GetField(fields, "cte_map");
    GetUnique(fields, f);
    var m := fields[f].value;
    assert UniqueKeys(m);
    var i := GetField(m.fields, "map");
    GetUnique(m.fields, i);
    var j := GetField(CteEntries(fields)[n].fields, "value");
    path := [f, i, n, j];
  }

  /** The walk accepts exactly the trees in which every position that it reads is in order. */
  lemma AcceptIff(node: Json, tables: set<string>, tf: set<string>)
    requires UniqueKeys(node)
    ensures Walk(node, Only(tables), {}, tf) == Accept
       <==> forall path: Path :: Read(node, path) ==> OkAt(node, path, {}, Only(tables), tf)
  {
    if Walk(node, Only(tables), {}, tf) == Accept {
      forall path: Path | Read(node, path) ensures OkAt(node, path, {}, Only(tables), tf) {
        AcceptedEverywhere(node, path, {}, Only(tables), tf);
      }
    } else {
      var path := RejectedSomewhere(node, {}, Only(tables), tf);
    }
  }

  /** Without a set of tables the walk reads every position, a `cte_map` like any other field. */
  lemma AcceptAnythingIff(node: Json, tf: set<string>)
    ensures Walk(node, Anything, {}, tf) == Accept
       <==> forall path: Path, fields :: At(node, path) == Some(Obj(fields)) ==> InOrder(fields, Anything, {}, tf)
  {
    if Walk(node, Anything, {}, tf) == Accept {
      forall path: Path, fields | At(node, path) == Some(Obj(fields)) ensures InOrder(fields, Anything, {}, tf) {
        AnythingAccepted(node, path, fields, tf);
      }
    } else {
      var path, fields := AnythingRejected(node, tf);
    }
  }

  lemma {:induction false} AnythingAccepted(node: Json, path: Path, fields: seq<Field>, tf: set<string>)
    requires Walk(node, Anything, {}, tf) == Accept && At(node, path) == Some(Obj(fields))
    ensures InOrder(fields, Anything, {}, tf)
    decreases |path|
  {
    match node
    case Obj(own) =>
      if path == [] {
        NodeAcceptIff(own, Anything, {}, tf);
      } else {
        FieldAccepted(own, path[0], Anything, {}, tf);
        AnythingAccepted(own[path[0]].value, path[1..], fields, tf);
      }
    case Arr(items) =>
      ItemAccepted(items, path[0], Anything, {}, tf);
      AnythingAccepted(items[path[0]], path[1..], fields, tf);
    case _ =>
  }

  lemma {:induction false} AnythingRejected(node: Json, tf: set<string>) returns (path: Path, fields: seq<Field>)
    requires Walk(node, Anything, {}, tf).Reject?
    ensures At(node, path) == Some(Obj(fields)) && !InOrder(fields, Anything, {}, tf)
    decreases Size(node)
  {
    match node
    case Obj(own) =>
      if CheckNode(own, Anything, {}, tf).Reject? {
        NodeAcceptIff(own, Anything, {}, tf);
        path, fields := [], own;
      } else {
        var i := RejectedField(own, Anything, {}, tf);
        SuffixSizes([], own, i);
        var rest;
        rest, fields := AnythingRejected(own[i].value, tf);
        path := [i] + rest;
        assert path[1..] == rest;
      }
    case Arr(items) =>
      var i := RejectedItem(items, Anything, {}, tf);
      SuffixSizes(items, [], i);
      var rest;
      rest, fields := AnythingRejected(items[i], tf);
      path := [i] + rest;
      assert path[1..] == rest;
  }

  // ---- Trees of the serialised shape --------------------------------------------------------

  lemma {:induction false} WellFormedUnique(node: Json)
    requires WellFormed(node)
    ensures UniqueKeys(node)
  {
    match node
    case Obj(fields) =>
      forall i | 0 <= i < |fields| ensures UniqueKeys(fields[i].value) {
        WellFormedUnique(fields[i].value);
      }
    case Arr(items) =>
      forall i | 0 <= i < |items| ensures UniqueKeys(items[i]) {
        WellFormedUnique(items[i]);
      }
    case _ =>
  }

  predicate Names(node: Json) { node.Obj? && (NamesTable(node.fields) || Calls(node.fields)) }

  /** The objects that only give a `cte_map` its shape name no table and no function. */
  lemma ShapeNode(fields: seq<Field>)
    requires forall i :: 0 <= i < |fields| ==> fields[i].key == "map" || fields[i].key == "key" || fields[i].key == "value"
    ensures !Names(Obj(fields))
  {
    GetAbsent(fields, "type");
    GetAbsent(fields, "table_name");
    GetAbsent(fields, "class");
  }

  /** Inside a `cte_map` of the expected shape, whatever names a table or a function is in an entry's query. */
  lemma NamesInBody(fields: seq<Field>, path: Path)
    requires WellFormed(Obj(fields)) && path != [] && path[0] < |fields| && fields[path[0]].key == "cte_map"
    requires At(Obj(fields), path).Some? && Names(At(Obj(fields), path).value)
    ensures IntoCte(fields, path) && WellFormed(Body(fields, path))
  {
    var m := fields[path[0]].value;
    var list := m.fields[0].value;
    assert At(Obj(fields), path) == At(m, path[1..]);
    if |path| == 1 {
      ShapeNode(m.fields);
    } else {
      assert path[1] == 0 && path[1..][1..] == path[2..];
      assert At(m, path[1..]) == At(list, path[2..]);
      assert |path| > 2 && path[2] < |list.items|;
      var entry := list.items[path[2]];
      assert EntryShape(entry);
      assert path[2..][1..] == path[3..] && At(list, path[2..]) == At(entry, path[3..]);
      if |path| == 3 {
        ShapeNode(entry.fields);
      } else {
        assert path[3..][1..] == path[4..] && At(entry, path[3..]) == At(entry.fields[path[3]].value, path[4..]);
        assert path[3] == 1;
        assert WellFormed(m) && WellFormed(list) && WellFormed(entry);
      }
    }
  }

  /** In a tree of the serialised shape the walk reads every position that names a table or a function. */
  lemma {:induction false} NamesRead(node: Json, path: Path)
    requires WellFormed(node) && At(node, path).Some? && Names(At(node, path).value)
    ensures Read(node, path)
    decreases |path|
  {
    match node
    case Obj(fields) =>
      if path != [] {
        if fields[path[0]].key != "cte_map" {
          NamesRead(fields[path[0]].value, path[1..]);
        } else {
          NamesInBody(fields, path);
          AtBody(fields, path);
          NamesRead(Body(fields, path), path[4..]);
        }
      }
    case Arr(items) =>
      if path != [] {
        NamesRead(items[path[0]], path[1..]);
      }
    case _ =>
  }

  /** In an accepted tree of that shape every table named at any depth is either bound by a common table
      expression in scope there, or one of the allowed tables. */
  lemma AllowedAtEveryDepth(node: Json, tables: set<string>, tf: set<string>, path: Path, fields: seq<Field>, r: TableRef)
    requires WellFormed(node) && Walk(node, Only(tables), {}, tf) == Accept
    requires At(node, path) == Some(Obj(fields)) && NamesTable(fields) && TableAt(fields) == Some(r) && r.name != ""
    ensures MayName(r) && (Bound(r, Scope(node, path, {})) || Lower(r.name) in tables)
  {
    NamesRead(node, path);
    WellFormedUnique(node);
    AcceptedEverywhere(node, path, {}, Only(tables), tf);
  }

  /** And every function called at any depth is one the query may call. */
  lemma CallableAtEveryDepth(node: Json, tables: set<string>, tf: set<string>, path: Path, fields: seq<Field>)
    requires WellFormed(node) && Walk(node, Only(tables), {}, tf) == Accept
    requires At(node, path) == Some(Obj(fields)) && Calls(fields)
    ensures MayCall(Lower(Get(fields, "function_name").s), CallsAsTable(fields), tf)
  {
    NamesRead(node, path);
    WellFormedUnique(node);
    AcceptedEverywhere(node, path, {}, Only(tables), tf);
  }

  function Foreign(): Json { Obj([Field("table_name", Str("t"))]) }

  lemma ForeignRejected(scope: set<string>, tf: set<string>)
    requires scope == {}
    ensures !InOrder(Foreign().fields, Only({}), scope, tf)
  {
    var fields := Foreign().fields;
    assert fields[0].key == "table_name";
    assert Get(fields, "table_name") == Str("t");
  }

  /** A tree in which a position that is not read would fail: a `cte_map` that is a list. */
  lemma UnreadFails(tf: set<string>)
    ensures var tree := Obj([Field("cte_map", Arr([Foreign()]))]);
            && UniqueKeys(tree) && Walk(tree, Only({}), {}, tf) == Accept
            && !Read(tree, [0, 0]) && !OkAt(tree, [0, 0], {}, Only({}), tf)
  {
    var fields := [Field("cte_map", Arr([Foreign()]))];
    GetAbsent(fields, "type");
    GetAbsent(fields, "table_name");
    GetAbsent(fields, "class");
    assert CteEntries(fields) == [];
    assert fields[1..] == [] && WalkFields(fields[1..], Only({}), {}, tf) == Accept;
    assert Skipped(fields[0], Only({})) && WalkFields(fields, Only({}), {}, tf) == Accept;
    assert CheckNode(fields, Only({}), {}, tf) == Accept;
    assert [0, 0][1..] == [0] && [0][1..] == [];
    assert At(Obj(fields), [0, 0]) == At(Arr([Foreign()]), [0]) == At(Foreign(), []);
    ForeignRejected(Scope(Obj(fields), [0, 0], {}), tf);
  }

  /** `WITH a AS (...) ... FROM a`: an expression of the serialised shape, and a reference to it. */
  function WithA(): Json {
    Obj([Field("cte_map", Obj([Field("map", Arr([Obj([Field("key", Str("a")), Field("value", Obj([]))])]))])),
         Field("table_name", Str("a"))])
  }

  lemma WithAShape()
    ensures WellFormed(WithA()) && Expressions(WithA().fields) == [Obj([Field("key", Str("a")), Field("value", Obj([]))])]
  {
    var entry := Obj([Field("key", Str("a")), Field("value", Obj([]))]);
    assert WellFormed(Obj([]));
    assert WellFormed(entry);
    var list := Arr([entry]);
    assert WellFormed(list);
    var m := Obj([Field("map", list)]);
    assert WellFormed(m) && EntryShape(entry) && CteShape(m);
    assert Get(m.fields, "map") == list && Get(WithA().fields, "cte_map") == m;
  }

  lemma GetOfTwo(a: Field, b: Field, key: string)
    ensures Get([a, b], key) == if a.key == key then a.value else if b.key == key then b.value else Null
  {
    assert [a, b][1..] == [b] && [b][1..] == [];
    assert Get([b], key) == if b.key == key then b.value else Get([], key);
  }

  lemma WithASays()
    ensures TableAt(WithA().fields) == Some(TableRef("", "", "a")) && !Calls(WithA().fields)
  {
    var a, b := WithA().fields[0], WithA().fields[1];
    assert WithA().fields == [a, b];
    GetOfTwo(a, b, "table_name");
    GetOfTwo(a, b, "schema_name");
    GetOfTwo(a, b, "catalog_name");
    GetOfTwo(a, b, "class");
    ShortWords();
  }

  lemma ShortWords()
    ensures Strip("a") == "a" && Lower("a") == "a" && Strip("") == "" && Lower("") == ""
  {
  }

  lemma WithAAllowed(tf: set<string>)
    ensures CheckNode(WithA().fields, Only({}), {"a"}, tf) == Accept && CheckNode([], Only({}), {}, tf) == Accept
  {
    WithASays();
    ShortWords();
    var r := TableRef("", "", "a");
    assert MayName(r) by {
      assert !("duckdb_" <= "a") && !("pg_" <= "a");
    }
    BoundAccepted(WithA().fields, Only({}), {"a"}, tf, r);
    assert !IsTableNode([]) && !IsFunctionNode([]);
  }

  lemma EmptyAccepted(tf: set<string>)
    ensures Walk(Obj([]), Only({}), {}, tf) == Accept
  {
    assert CteEntries([]) == [];
    assert !IsTableNode([]) && !IsFunctionNode([]);
  }

  lemma OneEntry(entry: Json, tf: set<string>)
    requires entry == Obj([Field("key", Str("a")), Field("value", Obj([]))])
    ensures WalkCtes([entry], Only({}), {}, tf) == Accept && ScopeAfter([entry], {}) == {"a"}
  {
    var fields := entry.fields;
    GetOfTwo(fields[0], fields[1], "key");
    GetOfTwo(fields[0], fields[1], "value");
    assert fields == [fields[0], fields[1]];
    EmptyAccepted(tf);
    ShortWords();
    assert CteAlias(fields) == {"a"};
    assert !IsRecursive(Obj([]));
    assert [entry][1..] == [];
    assert WalkCtes([], Only({}), {} + CteAlias(fields), tf) == Accept;
    assert ScopeAfter([], {} + CteAlias(fields)) == {"a"};
  }

  /** A query that reads only its own expression is accepted although no table is allowed. */
  lemma OwnExpressionAccepted(tf: set<string>)
    ensures Walk(WithA(), Only({}), {}, tf) == Accept
  {
    var fields := WithA().fields;
    WithAShape();
    EntriesAre(fields);
    OneEntry(CteEntries(fields)[0], tf);
    assert CteEntries(fields) == [CteEntries(fields)[0]];
    WithAAllowed(tf);
    assert fields[1..] == [fields[1]] && [fields[1]][1..] == [];
    assert WalkFields([], Only({}), {"a"}, tf) == Accept;
    assert WalkFields([fields[1]], Only({}), {"a"}, tf) == Accept;
    assert Skipped(fields[0], Only({})) && WalkFields(fields, Only({}), {"a"}, tf) == Accept;
  }
}
