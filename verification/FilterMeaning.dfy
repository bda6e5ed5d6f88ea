/** What a filter asks for, said of its key, its values and the row alone (backend/high_scale/_common.py and
    backend/repositories/utils/filters.py). */
module FilterMeaning {
  import opened Filters
  import opened Text

  // ---- Values and rows ----------------------------------------------------------------------

  /** Text of nothing but spaces asks for nothing. */
  predicate Blank(v: Value) { v.Str? && forall c <- v.text :: c in " \t\n\U{0b}\U{0c}\r\U{1c}\U{1d}\U{1e}\U{1f}" }

  predicate Yes(s: string) { s == "1" || (|s| == 4 && s[0] in "tT" && s[1] in "rR" && s[2] in "uU" && s[3] in "eE") }

  predicate No(s: string) {
    s == "0" || (|s| == 5 && s[0] in "fF" && s[1] in "aA" && s[2] in "lL" && s[3] in "sS" && s[4] in "eE")
  }

  predicate TruthKey(key: string) { key == "edge" || key == "is_ipv6" || key == "waf" }

  /** What a row says under a key: one of its three columns, or else its own field, rounded or read as a truth value. */
  function Says(rounded: string -> string, row: Row, key: string): string {
    if key == "ip" || key == "client_ip" then row.clientIp
    else if key == "country" then row.country
    else if key == "url" then row.url
    else
      var text := if key in row.custom then row.custom[key] else "";
      if key == "age" || key == "ttl" then rounded(text)
      else if TruthKey(key) && Yes(text) then "true"
      else if TruthKey(key) && No(text) then "false"
      else text
  }

  /** What a value asks for; an absent one asks for the empty text. */
  function Sought(key: string, v: Value): string {
    if v.Null? then ""
    else if TruthKey(key) && Yes(Strip(v.text)) then "true"
    else if TruthKey(key) && No(Strip(v.text)) then "false"
    else v.text
  }

  /** The filter has something to look for. */
  predicate Looks(f: Spec) { exists i :: 0 <= i < |f.values| && !Blank(f.values[i]) }

  predicate Finds(rounded: string -> string, f: Spec, row: Row) {
    var key := NormalKey(f.rawKey);
    exists i :: 0 <= i < |f.values| && !Blank(f.values[i]) && Says(rounded, row, key) == Sought(key, f.values[i])
  }

  /** A row passes a filter that includes if it is found, and one that excludes if not. */
  predicate Passes(rounded: string -> string, f: Spec, row: Row) { Finds(rounded, f, row) != (f.mode == "exclude") }

  lemma BlankIs(s: string)
    ensures Strip(s) == "" <==> forall c <- s :: c in " \t\n\U{0b}\U{0c}\r\U{1c}\U{1d}\U{1e}\U{1f}"
  {
    var before, after := StripIs(s);
    if Strip(s) != "" {
      assert s[|before|] == Strip(s)[0] && s[|before|] in s;
    }
  }

  lemma TruthWords(s: string)
    ensures Lower(s) == "true" || Lower(s) == "1" <==> Yes(s)
    ensures Lower(s) == "false" || Lower(s) == "0" <==> No(s)
  {
    var t := Lower(s);
    assert t == "true" <==> |t| == 4 && t[0] == 't' && t[1] == 'r' && t[2] == 'u' && t[3] == 'e';
    assert t == "false" <==> |t| == 5 && t[0] == 'f' && t[1] == 'a' && t[2] == 'l' && t[3] == 's' && t[4] == 'e';
    assert (t == "1" <==> s == "1") && (t == "0" <==> s == "0") by {
      assert t == "1" <==> |t| == 1 && t[0] == '1';
      assert t == "0" <==> |t| == 1 && t[0] == '0';
    }
  }

  lemma ReadingIs(rounded: string -> string, row: Row, key: string)
    ensures Reading(rounded, row, key) == Says(rounded, row, key)
  {
    TruthWords(Custom(row, key));
  }

  lemma CanonIs(key: string, v: Value)
    ensures CanonOf(key, v) == Sought(key, v)
  {
    if !v.Null? {
      TruthWords(Strip(v.text));
    }
  }

  lemma {:induction false} KeptMembers(values: seq<Value>, v: Value)
    ensures v in Kept(values) <==> v in values && !Blank(v)
  {
    if values != [] {
      KeptMembers(values[1..], v);
      assert values == [values[0]] + values[1..];
      if values[0].Str? {
        BlankIs(values[0].text);
      }
    }
  }

  lemma ActiveIs(f: Spec)
    ensures Active(f) <==> Looks(f)
  {
    if Active(f) {
      KeptMembers(f.values, Kept(f.values)[0]);
    }
    forall i | 0 <= i < |f.values| && !Blank(f.values[i]) ensures f.values[i] in Kept(f.values) {
      KeptMembers(f.values, f.values[i]);
    }
  }

  lemma HasIs(rounded: string -> string, f: Spec, row: Row)
    ensures Has(rounded, row, NormalKey(f.rawKey), Kept(f.values)) <==> Finds(rounded, f, row)
  {
    var key, kept := NormalKey(f.rawKey), Kept(f.values);
    ReadingIs(rounded, row, key);
    if Has(rounded, row, key, kept) {
      var i :| 0 <= i < |kept| && Reading(rounded, row, key) == if kept[i].Null? then "" else Canon(key, kept[i]);
      KeptMembers(f.values, kept[i]);
      CanonIs(key, kept[i]);
      var j :| 0 <= j < |f.values| && f.values[j] == kept[i];
    }
    if Finds(rounded, f, row) {
      var i :| 0 <= i < |f.values| && !Blank(f.values[i]) && Says(rounded, row, key) == Sought(key, f.values[i]);
      KeptMembers(f.values, f.values[i]);
      CanonIs(key, f.values[i]);
      var j :| 0 <= j < |kept| && kept[j] == f.values[i];
    }
  }

  /** Compiled filters keep exactly the rows that pass every filter that has something to look for. */
  lemma CompiledMeans(rounded: string -> string, params: map<string, string>, prefix: string, filters: seq<Spec>, row: Row)
    requires AllBound(params, prefix, filters, |filters|)
    ensures EvalAll(rounded, params, row, ClausesOf(prefix, filters, |filters|))
       <==> forall i :: 0 <= i < |filters| && Looks(filters[i]) ==> Passes(rounded, filters[i], row)
  {
    FiltersMean(rounded, params, prefix, filters, |filters|, row);
    forall i | 0 <= i < |filters|
      ensures Active(filters[i]) <==> Looks(filters[i])
      ensures Selects(rounded, filters[i], row) <==> Passes(rounded, filters[i], row)
    {
      ActiveIs(filters[i]);
      HasIs(rounded, filters[i], row);
    }
  }

  /** A filter is refused exactly for an empty key or one of five that the table does not have. */
  lemma SupportedIs(f: Spec)
    ensures Supported(f) <==>
            NormalKey(f.rawKey) !in ["", "_bot_name", "_ngwaf_bot_name", "_tunnel_requests", "waf_sig_ind", "edge_score_reason_ind"]
  {
  }

  // ---- Keys ---------------------------------------------------------------------------------

  predicate KeyChar(c: char) { 'a' <= c <= 'z' || '0' <= c <= '9' || c == '_' }

  predicate AllDigits(s: string) { forall i :: 0 <= i < |s| ==> '0' <= s[i] <= '9' }

  predicate KeyText(s: string) { forall i :: 0 <= i < |s| ==> KeyChar(s[i]) }

  /** The text ends in an underscore and digits. */
  predicate Numbered(s: string) { exists k :: 0 <= k < |s| - 1 && s[k] == '_' && AllDigits(s[k + 1..]) }

  /** A key as columns are named: no prefix to take off and no number at the end. */
  predicate Column(name: string) {
    && KeyText(name) && !("filter_" <= name) && !("xfilter_" <= name) && !Numbered(name)
  }

  lemma {:induction false} SafeKeeps(s: string)
    requires KeyText(s)
    ensures Safe(s) == s && Lower(s) == s
  {
    if s != [] {
      SafeKeeps(s[1..]);
      assert s == [s[0]] + s[1..];
      assert KeyChar(s[0]);
    }
  }

  lemma {:induction false} SafeConcat(a: string, b: string)
    ensures Safe(a + b) == Safe(a) + Safe(b)
  {
    if a == [] {
      assert a + b == b;
    } else {
      SafeConcat(a[1..], b);
      assert (a + b)[1..] == a[1..] + b;
    }
  }

  lemma {:induction false} DropDigitsIs(s: string)
    ensures DropDigits(s) <= s && AllDigits(s[|DropDigits(s)|..])
    ensures DropDigits(s) != [] ==> !Digit(DropDigits(s)[|DropDigits(s)| - 1])
  {
    if s != [] && Digit(s[|s| - 1]) {
      var front := s[..|s| - 1];
      DropDigitsIs(front);
      var n := |DropDigits(front)|;
      assert s[n..] == front[n..] + [s[|s| - 1]];
    }
  }

  lemma CutMeansNumbered(s: string)
    requires CutNumber(s) != s
    ensures Numbered(s)
  {
    DropDigitsIs(s);
    var k := |DropDigits(s)| - 1;
    assert s[k] == '_' && AllDigits(s[k + 1..]);
  }

  lemma NotNumbered(s: string)
    requires !Numbered(s)
    ensures CutNumber(s) == s
  {
    if CutNumber(s) != s {
      CutMeansNumbered(s);
    }
  }

  lemma {:induction false} DigitsDropped(s: string, digits: string)
    requires AllDigits(digits)
    ensures DropDigits(s + digits) == DropDigits(s)
    decreases |digits|
  {
    if digits == [] {
      assert s + digits == s;
    } else {
      var n := |digits| - 1;
      DigitsDropped(s, digits[..n]);
      assert (s + digits)[..|s + digits| - 1] == s + digits[..n];
    }
  }

  lemma NumberCut(name: string, digits: string)
    requires digits != "" && AllDigits(digits)
    ensures CutNumber(name + "_" + digits) == name
  {
    DigitsDropped(name + "_", digits);
    assert DropDigits(name + "_") == name + "_";
  }

  /** What is left of a raw key once its prefix is off. */
  function Rest(s: string): string {
    Lower(Safe(if s != [] && s[|s| - 1] == '\n' then CutNumber(s[..|s| - 1]) else CutNumber(s)))
  }

  lemma PrefixOff(rest: string)
    ensures NormalKey("filter_" + rest) == Rest(rest) && NormalKey("xfilter_" + rest) == Rest(rest)
  {
    var f, x := "filter_" + rest, "xfilter_" + rest;
    assert f[..7] == "filter_" && x[..8] == "xfilter_";
    assert StartsWith(f, "filter_") && StartsWith(x, "xfilter_");
    assert f[0] == 'f' && !StartsWith(f, "xfilter_");
    assert f[7..] == rest && x[8..] == rest;
  }

  lemma RestIs(name: string, digits: string)
    requires Column(name) && digits != "" && AllDigits(digits)
    ensures Rest(name) == name && Rest(name + "_" + digits) == name
  {
    SafeKeeps(name);
    NotNumbered(name);
    NumberCut(name, digits);
    EndsPlain(name);
    var s := name + "_" + digits;
    assert s[|s| - 1] == digits[|digits| - 1];
  }

  /** A column's key may come with either prefix and with a number, and is understood all the same. */
  lemma KeyUnderstood(name: string, digits: string)
    requires Column(name) && digits != "" && AllDigits(digits)
    ensures NormalKey(name) == name && NormalKey("filter_" + name) == name && NormalKey("xfilter_" + name) == name
    ensures NormalKey("filter_" + (name + "_" + digits)) == name && NormalKey("xfilter_" + (name + "_" + digits)) == name
  {
    RestIs(name, digits);
    PrefixOff(name);
    PrefixOff(name + "_" + digits);
    assert NormalKey(name) == Rest(name);
  }

  lemma EndsPlain(s: string)
    requires KeyText(s)
    ensures s == [] || s[|s| - 1] != '\n'
  {
  }

  /** Characters that are not letters, digits or underscores do not matter, nor does the case of letters. */
  lemma {:induction false} SafeIs(s: string)
    ensures KeyText(Lower(Safe(s)))
  {
    if s != [] {
      SafeIs(s[1..]);
      var first := if SafeChar(s[0]) then [s[0]] else [];
      assert Lower(Safe(s)) == Lower(first) + Lower(Safe(s[1..]));
    }
  }

  lemma KeyCleaned(a: string, c: char, b: string)
    requires !('a' <= c <= 'z') && !('A' <= c <= 'Z') && !('0' <= c <= '9') && c != '_'
    ensures Safe(a + [c] + b) == Safe(a + b)
    ensures KeyText(NormalKey(a))
  {
    SafeConcat(a + [c], b);
    SafeConcat(a, [c]);
    SafeConcat(a, b);
    assert Safe([c]) == [] + Safe([c][1..]) && [c][1..] == [];
    KeyChars(a);
  }

  lemma KeyChars(raw: string)
    ensures KeyText(NormalKey(raw))
  {
    var s := if StartsWith(raw, "xfilter_") then raw[8..] else if StartsWith(raw, "filter_") then raw[7..] else raw;
    SafeIs(if s != [] && s[|s| - 1] == '\n' then CutNumber(s[..|s| - 1]) else CutNumber(s));
  }
}
