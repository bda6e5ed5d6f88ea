/** `request_filter_clauses` of backend/high_scale/_common.py: filter specs compiled to clauses over named
    parameters, and what the clauses mean. */
module Filters {
  import opened Text

  // ---- Filter specs -------------------------------------------------------------------------

  /** A filter value: absent, text, or anything else, known by its text form. */
  datatype Value = Null | Str(text: string) | Other(text: string)

  datatype Spec = Spec(rawKey: string, mode: string, values: seq<Value>)

  predicate Digit(c: char) { '0' <= c <= '9' }

  function DropDigits(s: string): string {
    if s != [] && Digit(s[|s| - 1]) then DropDigits(s[..|s| - 1]) else s
  }

  /** Removes a final `_` and digits. */
  function CutNumber(s: string): string {
    var front := DropDigits(s);
    if |front| < |s| && front != [] && front[|front| - 1] == '_' then front[..|front| - 1] else s
  }

  predicate SafeChar(c: char) { 'a' <= c <= 'z' || 'A' <= c <= 'Z' || Digit(c) || c == '_' }

  function Safe(s: string): string {
    if s == [] then [] else (if SafeChar(s[0]) then [s[0]] else []) + Safe(s[1..])
  }

  /** `normalize_filter_key`; a number before a final line break also counts as final. */
  function NormalKey(raw: string): string {
    var s := if StartsWith(raw, "xfilter_") then raw[8..] else if StartsWith(raw, "filter_") then raw[7..] else raw;
    var cut := if s != [] && s[|s| - 1] == '\n' then CutNumber(s[..|s| - 1]) else CutNumber(s);
    Lower(Safe(cut))
  }

  const COLUMNS := map["client_ip" := "client_ip", "ip" := "client_ip", "country" := "country", "url" := "url"]
  const ROUNDED := {"age", "ttl"}
  const BOOLEAN := {"edge", "is_ipv6", "waf"}
  const UNSUPPORTED := {"_bot_name", "_ngwaf_bot_name", "_tunnel_requests", "waf_sig_ind", "edge_score_reason_ind"}

  function Kept(values: seq<Value>): seq<Value> {
    if values == [] then []
    else if values[0].Str? && Strip(values[0].text) == "" then Kept(values[1..])
    else [values[0]] + Kept(values[1..])
  }

  function Concrete(values: seq<Value>): seq<Value> {
    if values == [] then []
    else if values[0].Null? then Concrete(values[1..])
    else [values[0]] + Concrete(values[1..])
  }

  /** A filter with nothing to look for is skipped, whatever its key. */
  predicate Active(f: Spec) { Kept(f.values) != [] }

  predicate Supported(f: Spec) { NormalKey(f.rawKey) !in UNSUPPORTED && NormalKey(f.rawKey) != "" }

  /** The text a value is compared with. */
  function Canon(key: string, v: Value): string
    requires !v.Null?
  {
    if key in BOOLEAN then
      var lowered := Lower(Strip(v.text));
      if lowered == "true" || lowered == "1" then "true"
      else if lowered == "false" || lowered == "0" then "false"
      else v.text
    else v.text
  }

  // ---- Rows and what a filter should select -------------------------------------------------

  /** A request: three columns and a dictionary whose missing entries read as empty. */
  datatype Row = Row(clientIp: string, country: string, url: string, custom: map<string, string>)

  function Column(row: Row, name: string): string {
    if name == "client_ip" then row.clientIp else if name == "country" then row.country else row.url
  }

  function Custom(row: Row, key: string): string { if key in row.custom then row.custom[key] else "" }

  function Truth(s: string): string {
    if Lower(s) == "true" || Lower(s) == "1" then "true"
    else if Lower(s) == "false" || Lower(s) == "0" then "false"
    else s
  }

  /** The row's value under a key; `rounded` is the database's rounding of numeric text. */
  function Reading(rounded: string -> string, row: Row, key: string): string {
    if key in COLUMNS then Column(row, COLUMNS[key])
    else if key in ROUNDED then rounded(Custom(row, key))
    else if key in BOOLEAN then Truth(Custom(row, key))
    else Custom(row, key)
  }

  /** The row has one of the values; an absent value stands for the empty text. */
  predicate Has(rounded: string -> string, row: Row, key: string, values: seq<Value>) {
    exists i :: 0 <= i < |values| &&
      Reading(rounded, row, key) == if values[i].Null? then "" else Canon(key, values[i])
  }

  /** Include keeps the rows that have a value, exclude the rows that do not. */
  predicate Selects(rounded: string -> string, f: Spec, row: Row) {
    var has := Has(rounded, row, NormalKey(f.rawKey), Kept(f.values));
    if f.mode != "exclude" then has else !has
  }

  // ---- Parameter names ----------------------------------------------------------------------

  function DigitOf(n: nat): char
    requires n < 10
  {
    '0' + n as char
  }

  function Decimal(n: nat): string {
    if n < 10 then [DigitOf(n)] else Decimal(n / 10) + [DigitOf(n % 10)]
  }

  function KeyName(prefix: string, i: nat): string { prefix + "_k" + Decimal(i) }

  function ValueName(prefix: string, i: nat, j: nat): string { prefix + "_" + Decimal(i) + "_" + Decimal(j) }

  lemma {:induction false} DecimalDigits(n: nat)
    ensures Decimal(n) != [] && forall k :: 0 <= k < |Decimal(n)| ==> Digit(Decimal(n)[k])
  {
    if n >= 10 {
      DecimalDigits(n / 10);
    }
  }

  lemma {:induction false} DecimalInjective(m: nat, n: nat)
    requires Decimal(m) == Decimal(n)
    ensures m == n
  {
    if m >= 10 && n >= 10 {
      var a, b := Decimal(m / 10), Decimal(n / 10);
      assert a == Decimal(m)[..|Decimal(m)| - 1] && b == Decimal(n)[..|Decimal(n)| - 1];
      DecimalInjective(m / 10, n / 10);
      assert Decimal(m)[|a|] == Decimal(n)[|b|];
    } else if m >= 10 {
      DecimalDigits(m / 10);
    } else if n >= 10 {
      DecimalDigits(n / 10);
    } else {
      assert Decimal(m)[0] == Decimal(n)[0];
    }
  }

  lemma {:induction false} SplitUnique(a: string, b: string, c: string, d: string)
    requires '_' !in a && '_' !in c && a + "_" + b == c + "_" + d
    ensures a == c && b == d
    decreases |a|
  {
    var s := a + "_" + b;
    assert c != [] ==> s[0] == c[0];
    if a == [] {
      assert s[0] == '_';
      assert s == "_" + b == "_" + d;
      assert b == s[1..] && d == s[1..];
    } else {
      assert s[0] == a[0];
      assert c != [];
      assert s[0] == c[0];
      assert s[1..] == a[1..] + "_" + b == c[1..] + "_" + d;
      SplitUnique(a[1..], b, c[1..], d);
      assert a == [a[0]] + a[1..] && c == [c[0]] + c[1..];
    }
  }

  lemma NoUnderscore(n: nat)
    ensures '_' !in Decimal(n)
  {
    DecimalDigits(n);
  }

  lemma PrefixCancel(p: string, a: string, b: string)
    requires p + a == p + b
    ensures a == b
  {
    assert a == (p + a)[|p|..] && b == (p + b)[|p|..];
  }

  /** No two generated names are the same. */
  lemma NamesDiffer(prefix: string, i: nat, j: nat, i': nat, j': nat)
    ensures KeyName(prefix, i) == KeyName(prefix, i') ==> i == i'
    ensures ValueName(prefix, i, j) == ValueName(prefix, i', j') ==> i == i' && j == j'
    ensures KeyName(prefix, i) != ValueName(prefix, i', j')
  {
    if KeyName(prefix, i) == KeyName(prefix, i') {
      PrefixCancel(prefix + "_k", Decimal(i), Decimal(i'));
      DecimalInjective(i, i');
    }
    if ValueName(prefix, i, j) == ValueName(prefix, i', j') {
      ValueNames(prefix, i, j, i', j');
    }
    KindsDiffer(prefix, i, i', j');
  }

  lemma ValueNames(prefix: string, i: nat, j: nat, i': nat, j': nat)
    requires ValueName(prefix, i, j) == ValueName(prefix, i', j')
    ensures i == i' && j == j'
  {
    var p := prefix + "_";
    assert ValueName(prefix, i, j) == p + (Decimal(i) + "_" + Decimal(j));
    assert ValueName(prefix, i', j') == p + (Decimal(i') + "_" + Decimal(j'));
    PrefixCancel(p, Decimal(i) + "_" + Decimal(j), Decimal(i') + "_" + Decimal(j'));
    NoUnderscore(i);
    NoUnderscore(i');
    SplitUnique(Decimal(i), Decimal(j), Decimal(i'), Decimal(j'));
    DecimalInjective(i, i');
    DecimalInjective(j, j');
  }

  lemma KindsDiffer(prefix: string, i: nat, i': nat, j': nat)
    ensures KeyName(prefix, i) != ValueName(prefix, i', j')
  {
    DecimalDigits(i');
    var k := |prefix| + 1;
    assert KeyName(prefix, i)[k] == 'k';
    assert ValueName(prefix, i', j')[k] == Decimal(i')[0];
  }

  // ---- Clauses ------------------------------------------------------------------------------

  /** A column expression: a plain column, or the dictionary entry whose key is a parameter, rounded or
      read as a truth value where the key asks for it. */
  datatype Expr = Plain(name: string) | Lookup(param: string) | Rounded(param: string) | Boolean(param: string)

  datatype Part = In(column: Expr, names: seq<string>) | Empty(column: Expr)

  /** Include joins its tests by OR, exclude negates each and joins them by AND. */
  datatype Clause = Clause(negated: bool, parts: seq<Part>)

  function EvalExpr(rounded: string -> string, params: map<string, string>, row: Row, e: Expr): string {
    match e
    case Plain(name) => Column(row, name)
    case Lookup(p) => Custom(row, Bound(params, p))
    case Rounded(p) => rounded(Custom(row, Bound(params, p)))
    case Boolean(p) => Truth(Custom(row, Bound(params, p)))
  }

  function Bound(params: map<string, string>, name: string): string { if name in params then params[name] else "" }

  predicate EvalPart(rounded: string -> string, params: map<string, string>, row: Row, part: Part) {
    match part
    case In(e, names) =>
      exists j :: 0 <= j < |names| && EvalExpr(rounded, params, row, e) == Bound(params, names[j])
    case Empty(e) => EvalExpr(rounded, params, row, e) == ""
  }

  predicate EvalClause(rounded: string -> string, params: map<string, string>, row: Row, c: Clause) {
    if c.negated then forall k :: 0 <= k < |c.parts| ==> !EvalPart(rounded, params, row, c.parts[k])
    else exists k :: 0 <= k < |c.parts| && EvalPart(rounded, params, row, c.parts[k])
  }

  // ---- The compiler -------------------------------------------------------------------------

  function ColumnOf(key: string, param: string): Expr {
    if key in COLUMNS then Plain(COLUMNS[key])
    else if key in ROUNDED then Rounded(param)
    else if key in BOOLEAN then Boolean(param)
    else Lookup(param)
  }

  function Names(prefix: string, i: nat, n: nat): seq<string> { seq(n, j requires 0 <= j < n => ValueName(prefix, i, j)) }

  function ClauseOf(prefix: string, i: nat, f: Spec): Clause {
    var key := NormalKey(f.rawKey);
    var values := Kept(f.values);
    var column := ColumnOf(key, KeyName(prefix, i));
    var n := |Concrete(values)|;
    Clause(f.mode == "exclude",
           (if n == 0 then [] else [In(column, Names(prefix, i, n))])
           + (if n == |values| then [] else [Empty(column)]))
  }

  function ClausesOf(prefix: string, filters: seq<Spec>, n: nat): seq<Clause>
    requires n <= |filters|
    decreases n
  {
    if n == 0 then []
    else ClausesOf(prefix, filters, n - 1) + if Active(filters[n - 1]) then [ClauseOf(prefix, n - 1, filters[n - 1])] else []
  }

  /** The parameters hold what filter `i` put there. */
  predicate Binds(params: map<string, string>, prefix: string, i: nat, f: Spec) {
    var key := NormalKey(f.rawKey);
    var concrete := Concrete(Kept(f.values));
    && (key !in COLUMNS ==> Bound(params, KeyName(prefix, i)) == key)
    && forall j :: 0 <= j < |concrete| ==> Bound(params, ValueName(prefix, i, j)) == CanonOf(key, concrete[j])
  }

  function CanonOf(key: string, v: Value): string { if v.Null? then "" else Canon(key, v) }

  lemma {:induction false} ConcreteMembers(values: seq<Value>)
    ensures |Concrete(values)| <= |values|
    ensures |Concrete(values)| == |values| <==> forall i :: 0 <= i < |values| ==> !values[i].Null?
    ensures forall v :: v in Concrete(values) <==> v in values && !v.Null?
  {
    if values != [] {
      ConcreteMembers(values[1..]);
      assert values == [values[0]] + values[1..];
    }
  }

  datatype Result = Clauses(clauses: seq<Clause>, params: map<string, string>) | Unsupported(rawKey: string)

  /** All active filters before `n` are supported. */
  predicate AllSupported(filters: seq<Spec>, n: nat)
    requires n <= |filters|
  {
    forall i :: 0 <= i < n && Active(filters[i]) ==> Supported(filters[i])
  }

  ghost predicate AllBound(params: map<string, string>, prefix: string, filters: seq<Spec>, n: nat)
    requires n <= |filters|
  {
    forall i :: 0 <= i < n && Active(filters[i]) ==> Binds(params, prefix, i, filters[i])
  }

  /** Parameters of other filters keep their values. */
  ghost predicate Keeps(before: map<string, string>, after: map<string, string>, prefix: string, i: nat) {
    && (forall k: nat :: k != i ==> Bound(after, KeyName(prefix, k)) == Bound(before, KeyName(prefix, k)))
    && (forall k: nat, j: nat :: k != i ==> Bound(after, ValueName(prefix, k, j)) == Bound(before, ValueName(prefix, k, j)))
  }

  predicate Prefixed(params: map<string, string>, prefix: string) {
    forall x :: x in params ==> StartsWith(x, prefix + "_")
  }

  lemma SetKey(params: map<string, string>, prefix: string, i: nat, v: string)
    requires Prefixed(params, prefix)
    ensures var now := params[KeyName(prefix, i) := v];
            Prefixed(now, prefix) && Keeps(params, now, prefix, i) && Bound(now, KeyName(prefix, i)) == v
  {
    var name := KeyName(prefix, i);
    forall k: nat | k != i ensures KeyName(prefix, k) != name {
      NamesDiffer(prefix, k, 0, i, 0);
    }
    forall k: nat, j: nat ensures ValueName(prefix, k, j) != name {
      NamesDiffer(prefix, i, 0, k, j);
    }
    assert name == prefix + "_" + ("k" + Decimal(i));
  }

  lemma SetValue(params: map<string, string>, prefix: string, i: nat, j: nat, v: string)
    requires Prefixed(params, prefix)
    ensures var now := params[ValueName(prefix, i, j) := v];
            && Prefixed(now, prefix) && Keeps(params, now, prefix, i)
            && Bound(now, KeyName(prefix, i)) == Bound(params, KeyName(prefix, i))
            && (forall m: nat :: Bound(now, ValueName(prefix, i, m)) == if m == j then v else Bound(params, ValueName(prefix, i, m)))
  {
    var name := ValueName(prefix, i, j);
    forall k: nat ensures KeyName(prefix, k) != name {
      NamesDiffer(prefix, k, 0, i, j);
    }
    forall k: nat, m: nat | k != i || m != j ensures ValueName(prefix, k, m) != name {
      NamesDiffer(prefix, k, m, i, j);
    }
    assert name == prefix + "_" + (Decimal(i) + "_" + Decimal(j));
  }

  lemma KeepsBinds(before: map<string, string>, after: map<string, string>, prefix: string, i: nat, k: nat, f: Spec)
    requires Keeps(before, after, prefix, i) && k != i && Binds(before, prefix, k, f)
    ensures Binds(after, prefix, k, f)
  {
  }

  lemma BoundOne(before: map<string, string>, after: map<string, string>, prefix: string, filters: seq<Spec>, i: nat)
    requires i < |filters| && AllBound(before, prefix, filters, i) && Keeps(before, after, prefix, i)
    requires Binds(after, prefix, i, filters[i])
    ensures AllBound(after, prefix, filters, i + 1)
  {
    forall k | 0 <= k < i && Active(filters[k]) ensures Binds(after, prefix, k, filters[k]) {
      KeepsBinds(before, after, prefix, i, k, filters[k]);
    }
  }

  /** The values of one filter become parameters. */
  method BindValues(before: map<string, string>, prefix: string, i: nat, key: string, concrete: seq<Value>)
      returns (params: map<string, string>, names: seq<string>)
    requires Prefixed(before, prefix)
    ensures Prefixed(params, prefix) && Keeps(before, params, prefix, i)
    ensures Bound(params, KeyName(prefix, i)) == Bound(before, KeyName(prefix, i))
    ensures names == Names(prefix, i, |concrete|)
    ensures forall j :: 0 <= j < |concrete| ==> Bound(params, ValueName(prefix, i, j)) == CanonOf(key, concrete[j])
  {
    params, names := before, [];
    for j := 0 to |concrete|
      invariant Prefixed(params, prefix) && Keeps(before, params, prefix, i)
      invariant Bound(params, KeyName(prefix, i)) == Bound(before, KeyName(prefix, i))
      invariant names == Names(prefix, i, j)
      invariant forall m :: 0 <= m < j ==> Bound(params, ValueName(prefix, i, m)) == CanonOf(key, concrete[m])
    {
      SetValue(params, prefix, i, j, CanonOf(key, concrete[j]));
      params := params[ValueName(prefix, i, j) := CanonOf(key, concrete[j])];
      names := names + [ValueName(prefix, i, j)];
    }
  }

  /** One turn of the loop, for a filter that is not skipped. */
  method CompileOne(before: map<string, string>, prefix: string, i: nat, f: Spec)
      returns (params: map<string, string>, clause: Clause)
    requires Prefixed(before, prefix)
    ensures Prefixed(params, prefix) && Keeps(before, params, prefix, i)
    ensures Binds(params, prefix, i, f) && clause == ClauseOf(prefix, i, f)
  {
    var key := NormalKey(f.rawKey);
    var values := Kept(f.values);
    params := before;
    var column := ColumnOf(key, KeyName(prefix, i));
    if key !in COLUMNS {
      SetKey(params, prefix, i, key);
      params := params[KeyName(prefix, i) := key];
    }
    var concrete := Concrete(values);
    var names;
    params, names := BindValues(params, prefix, i, key, concrete);
    var parts := [];
    if names != [] {
      parts := parts + [In(column, names)];
    }
    if |concrete| != |values| {
      parts := parts + [Empty(column)];
    }
    clause := Clause(f.mode == "exclude", parts);
  }

  /** `request_filter_clauses`: fails exactly on an active filter that is not supported, and then names
      the first such. */
  method Compile(filters: seq<Spec>, prefix: string) returns (r: Result)
    ensures r.Unsupported? <==> !AllSupported(filters, |filters|)
    ensures r.Unsupported? <==> exists i :: 0 <= i < |filters| && Active(filters[i]) && !Supported(filters[i])
    ensures r.Unsupported? ==> exists i :: 0 <= i < |filters| && AllSupported(filters, i)
                                 && Active(filters[i]) && !Supported(filters[i]) && r.rawKey == filters[i].rawKey
    ensures r.Clauses? ==> r.clauses == ClausesOf(prefix, filters, |filters|)
                           && AllBound(r.params, prefix, filters, |filters|) && Prefixed(r.params, prefix)
  {
    var clauses: seq<Clause>, params: map<string, string> := [], map[];
    for i := 0 to |filters|
      invariant AllSupported(filters, i) && Prefixed(params, prefix)
      invariant clauses == ClausesOf(prefix, filters, i) && AllBound(params, prefix, filters, i)
    {
      var f := filters[i];
      if Active(f) {
        if !Supported(f) {
          return Unsupported(f.rawKey);
        }
        ghost var before := params;
        var clause;
        params, clause := CompileOne(params, prefix, i, f);
        clauses := clauses + [clause];
        BoundOne(before, params, prefix, filters, i);
      }
    }
    r := Clauses(clauses, params);
  }

  // ---- Meaning ------------------------------------------------------------------------------

  lemma ColumnReads(rounded: string -> string, params: map<string, string>, row: Row, key: string, param: string)
    requires key !in COLUMNS ==> Bound(params, param) == key
    ensures EvalExpr(rounded, params, row, ColumnOf(key, param)) == Reading(rounded, row, key)
  {
  }

  /** The tests of a clause together ask whether the row has one of the values. */
  lemma PartsMean(rounded: string -> string, params: map<string, string>, row: Row, key: string, values: seq<Value>,
                  column: Expr, names: seq<string>)
    requires EvalExpr(rounded, params, row, column) == Reading(rounded, row, key)
    requires |names| == |Concrete(values)|
    requires forall j :: 0 <= j < |names| ==> Bound(params, names[j]) == CanonOf(key, Concrete(values)[j])
    ensures Has(rounded, row, key, values) <==>
            (names != [] && EvalPart(rounded, params, row, In(column, names)))
            || (|names| != |values| && EvalPart(rounded, params, row, Empty(column)))
  {
    ConcreteMembers(values);
    var reading := Reading(rounded, row, key);
    if i :| 0 <= i < |values| && reading == CanonOf(key, values[i]) && !values[i].Null? {
      assert values[i] in Concrete(values);
      var j :| 0 <= j < |names| && Concrete(values)[j] == values[i];
      assert Bound(params, names[j]) == reading;
    }
    if j :| 0 <= j < |names| && Bound(params, names[j]) == reading {
      assert Concrete(values)[j] in values;
    }
  }

  /** A clause under its parameters selects exactly what its filter asks for. */
  lemma ClauseMeans(rounded: string -> string, params: map<string, string>, prefix: string, i: nat, f: Spec, row: Row)
    requires Active(f) && Binds(params, prefix, i, f)
    ensures EvalClause(rounded, params, row, ClauseOf(prefix, i, f)) <==> Selects(rounded, f, row)
  {
    var key := NormalKey(f.rawKey);
    var values := Kept(f.values);
    var column := ColumnOf(key, KeyName(prefix, i));
    var names := Names(prefix, i, |Concrete(values)|);
    ColumnReads(rounded, params, row, key, KeyName(prefix, i));
    PartsMean(rounded, params, row, key, values, column, names);
    ClauseParts(rounded, params, row, f.mode == "exclude", column, names, |values|);
  }

  lemma ClauseParts(rounded: string -> string, params: map<string, string>, row: Row, negated: bool, column: Expr,
                    names: seq<string>, n: nat)
    ensures var parts := (if |names| == 0 then [] else [In(column, names)]) + (if |names| == n then [] else [Empty(column)]);
            var any := (names != [] && EvalPart(rounded, params, row, In(column, names)))
                       || (|names| != n && EvalPart(rounded, params, row, Empty(column)));
            EvalClause(rounded, params, row, Clause(negated, parts)) <==> (if negated then !any else any)
  {
    var parts := (if |names| == 0 then [] else [In(column, names)]) + (if |names| == n then [] else [Empty(column)]);
    if |names| != n {
      assert parts[|parts| - 1] == Empty(column);
    }
    if |names| != 0 {
      assert parts[0] == In(column, names);
    }
  }

  predicate EvalAll(rounded: string -> string, params: map<string, string>, row: Row, clauses: seq<Clause>) {
    forall k :: 0 <= k < |clauses| ==> EvalClause(rounded, params, row, clauses[k])
  }

  /** Every active filter among the first `n` selects the row. */
  predicate AllSelect(rounded: string -> string, filters: seq<Spec>, n: nat, row: Row)
    requires n <= |filters|
  {
    forall i :: 0 <= i < n && Active(filters[i]) ==> Selects(rounded, filters[i], row)
  }

  /** Every clause is that of an active filter. */
  lemma {:induction false} ClauseFrom(prefix: string, filters: seq<Spec>, n: nat, k: nat) returns (i: nat)
    requires n <= |filters| && k < |ClausesOf(prefix, filters, n)|
    ensures i < n && Active(filters[i]) && ClausesOf(prefix, filters, n)[k] == ClauseOf(prefix, i, filters[i])
    decreases n
  {
    if k < |ClausesOf(prefix, filters, n - 1)| {
      i := ClauseFrom(prefix, filters, n - 1, k);
    } else {
      i := n - 1;
    }
  }

  /** Every active filter has its clause. */
  lemma {:induction false} ClauseAt(prefix: string, filters: seq<Spec>, n: nat, i: nat) returns (k: nat)
    requires i < n <= |filters| && Active(filters[i])
    ensures k < |ClausesOf(prefix, filters, n)| && ClausesOf(prefix, filters, n)[k] == ClauseOf(prefix, i, filters[i])
    decreases n
  {
    if i < n - 1 {
      k := ClauseAt(prefix, filters, n - 1, i);
    } else {
      k := |ClausesOf(prefix, filters, n - 1)|;
    }
  }

  lemma ClauseHolds(rounded: string -> string, params: map<string, string>, prefix: string, filters: seq<Spec>, n: nat,
                    row: Row, k: nat)
    requires n <= |filters| && AllBound(params, prefix, filters, n) && AllSelect(rounded, filters, n, row)
    requires k < |ClausesOf(prefix, filters, n)|
    ensures EvalClause(rounded, params, row, ClausesOf(prefix, filters, n)[k])
  {
    var i := ClauseFrom(prefix, filters, n, k);
    ClauseMeans(rounded, params, prefix, i, filters[i], row);
  }

  lemma FilterHolds(rounded: string -> string, params: map<string, string>, prefix: string, filters: seq<Spec>, n: nat,
                    row: Row, i: nat)
    requires n <= |filters| && AllBound(params, prefix, filters, n)
    requires EvalAll(rounded, params, row, ClausesOf(prefix, filters, n)) && i < n && Active(filters[i])
    ensures Selects(rounded, filters[i], row)
  {
    var k := ClauseAt(prefix, filters, n, i);
    ClauseMeans(rounded, params, prefix, i, filters[i], row);
  }

  /** The compiled filters together select a row exactly if every active filter does. */
  lemma FiltersMean(rounded: string -> string, params: map<string, string>, prefix: string, filters: seq<Spec>, n: nat, row: Row)
    requires n <= |filters| && AllBound(params, prefix, filters, n)
    ensures EvalAll(rounded, params, row, ClausesOf(prefix, filters, n)) <==> AllSelect(rounded, filters, n, row)
  {
    if AllSelect(rounded, filters, n, row) {
      forall k | 0 <= k < |ClausesOf(prefix, filters, n)|
        ensures EvalClause(rounded, params, row, ClausesOf(prefix, filters, n)[k])
      {
        ClauseHolds(rounded, params, prefix, filters, n, row, k);
      }
    } else if EvalAll(rounded, params, row, ClausesOf(prefix, filters, n)) {
      forall i | 0 <= i < n && Active(filters[i]) ensures Selects(rounded, filters[i], row) {
        FilterHolds(rounded, params, prefix, filters, n, row, i);
      }
    }
  }

  /** Excluding is the complement of including, absent values included. */
  lemma ExcludeComplements(rounded: string -> string, params: map<string, string>, prefix: string, i: nat, f: Spec, row: Row)
    requires Active(f) && Binds(params, prefix, i, f)
    ensures EvalClause(rounded, params, row, ClauseOf(prefix, i, f.(mode := "exclude"))) <==>
            !EvalClause(rounded, params, row, ClauseOf(prefix, i, f.(mode := "include")))
  {
    ClauseMeans(rounded, params, prefix, i, f.(mode := "exclude"), row);
    ClauseMeans(rounded, params, prefix, i, f.(mode := "include"), row);
  }

  predicate IsTrue(s: string) { Lower(s) == "true" || Lower(s) == "1" }

  predicate IsFalse(s: string) { Lower(s) == "false" || Lower(s) == "0" }

  lemma LowerSpace(s: string, i: nat)
    requires i < |s| && IsSpace(s[i])
    ensures Lower(s)[i] == s[i]
  {
  }

  /** Truth values have nothing to strip. */
  lemma TruthStripped(s: string)
    requires IsTrue(s) || IsFalse(s)
    ensures Strip(s) == s
  {
    if IsSpace(s[0]) {
      LowerSpace(s, 0);
    } else if IsSpace(s[|s| - 1]) {
      LowerSpace(s, |s| - 1);
    }
  }

  predicate SameTruth(text: string, asked: string) {
    if IsTrue(Strip(asked)) then IsTrue(text) else if IsFalse(Strip(asked)) then IsFalse(text) else text == asked
  }

  lemma TruthCompared(text: string, asked: string)
    ensures SameTruth(text, asked) <==>
            Truth(text) == if IsTrue(Strip(asked)) then "true" else if IsFalse(Strip(asked)) then "false" else asked
  {
    if IsTrue(asked) || IsFalse(asked) {
      TruthStripped(asked);
    }
    Spelled("true");
    Spelled("false");
  }

  lemma Spelled(s: string)
    requires s == "true" || s == "false"
    ensures Lower(s) == s
  {
  }

  lemma HasOne(rounded: string -> string, row: Row, key: string, v: Value)
    ensures Has(rounded, row, key, [v]) <==> Reading(rounded, row, key) == CanonOf(key, v)
  {
    assert [v][0] == v;
  }

  /** On a truth-valued key every spelling of true, spaces and case aside, finds every spelling of true,
      likewise false, and any other value finds only itself. */
  lemma TruthFilter(rounded: string -> string, row: Row, key: string, v: Value)
    requires key in BOOLEAN && key !in COLUMNS && key !in ROUNDED && !v.Null?
    ensures Has(rounded, row, key, [v]) <==> SameTruth(Custom(row, key), v.text)
  {
    HasOne(rounded, row, key, v);
    TruthCompared(Custom(row, key), v.text);
  }
}
