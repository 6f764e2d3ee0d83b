// What the built-in functions of value items promise their users: laws that relate several of
// them, and what the declared types of fields and variables stand for.
module Builtins {
  import opened Values
  import opened Filling
  import opened Functions
  import opened Items

  // ---------------------------------------------------------------- arrays

  /** The positions of an array begin with 0, and the first element is at the first one. */
  lemma GetCounts(h: Host, first: Data, rest: seq<Data>, key: Data)
    requires key.IsValue()
    ensures Apply(h, "get", Array([]), [key]) == None
    ensures Apply(h, "get", Array([first] + rest), [key]) ==
      if key == Int(0) then Some(first)
      else if key.Int? then Apply(h, "get", Array(rest), [Int(key.i - 1)])
      else None
  {}

  /** get at the size before append gives the appended item, all other positions keep theirs;
      each append adds one to the size, which begins with 0. */
  lemma AppendGetSize(h: Host, a: Data, d: Data, key: Data)
    requires a.Array? && key.IsValue()
    ensures Apply(h, "size", Array([]), []) == Some(Int(0))
    ensures var size, longer := Apply(h, "size", a, []), Apply(h, "append", a, [d]);
      size.Some? && size.value.Int? && longer.Some? && longer.value.Array? &&
      Apply(h, "size", longer.value, []) == Some(Int(size.value.i + 1)) &&
      Apply(h, "get", longer.value, [key]) ==
        if key == size.value then Some(d) else Apply(h, "get", a, [key])
  {}

  /** contains on an array that is not too long: true iff get finds an item with that text. */
  lemma ContainsGets(h: Host, a: Data, key: Data)
    requires a.Array? && key.IsValue() && |a.a| < U32
    ensures var found := Apply(h, "contains", a, [key]);
      found.Some? && found.value.Bool? &&
      (found.value.b <==>
        exists i :: var d := Apply(h, "get", a, [Int(i)]); d.Some? && h.ToString(d.value) == h.ToString(key))
  {
    assert forall i :: Apply(h, "get", a, [Int(i)]).Some? <==> 0 <= i < |a.a|;
    assert forall i :: 0 <= i < |a.a| ==> Apply(h, "get", a, [Int(i)]) == Some(a.a[i]);
  }

  /** clear_empty gives the items with text, as often as they occur and nothing else, and only
      where its loop returns. */
  lemma ClearEmptyKeeps(h: Host, a: Data, d: Data)
    requires a.Array?
    ensures var cleared := Apply(h, "clear_empty", a, []);
      (cleared.Some? <==> exists n :: ClearRun(h, a.a, 0, n).None?) &&
      (cleared.Some? ==>
        cleared.value.Array? &&
        multiset(cleared.value.a)[d] == if h.ToString(d) == "" then 0 else multiset(a.a)[d])
  {
    ClearEmptyEndsExactly(h, a.a);
    NonEmptyKeeps(h, a.a, d);
  }

  // ---------------------------------------------------------------- maps

  /** get after insert: the new value at that key, the old ones at all keys with another text;
      the map grows by one if the key was not contained and keeps its size if it was. */
  lemma InsertGetSize(h: Host, m: Data, key: Data, value: Data, other: Data)
    requires m.Map? && key.IsValue() && other.IsValue()
    ensures Apply(h, "size", Map(map[]), []) == Some(Int(0))
    ensures var size, longer := Apply(h, "size", m, []), Apply(h, "insert", m, [key, value]);
      size.Some? && size.value.Int? && longer.Some? && longer.value.Map? &&
      Apply(h, "get", longer.value, [key]) == Some(value) &&
      (h.ToString(other) != h.ToString(key) ==>
        Apply(h, "get", longer.value, [other]) == Apply(h, "get", m, [other])) &&
      Apply(h, "size", longer.value, []) ==
        Some(Int(size.value.i + if Apply(h, "contains", m, [key]) == Some(Bool(true)) then 0 else 1))
  {
    MapGrows(m.m, h.ToString(key), value);
  }

  lemma MapGrows(m: map<string, Data>, k: string, value: Data)
    ensures |m[k := value]| == |m| + if k in m then 0 else 1
  {
    if k in m {
      assert m[k := value].Keys == m.Keys;
    } else {
      assert m[k := value].Keys == m.Keys + {k};
    }
  }

  /** On a map contains says whether get succeeds, and an empty map contains nothing. */
  lemma ContainsIsGet(h: Host, m: Data, key: Data)
    requires m.Map? && key.IsValue()
    ensures Apply(h, "get", Map(map[]), [key]) == None
    ensures Apply(h, "contains", m, [key]) == Some(Bool(Apply(h, "get", m, [key]).Some?))
  {}

  // ---------------------------------------------------------------- scalars

  /** The text of a text is itself, so a text is the key it names, and the number of an integer is
      itself. */
  lemma PlainScalars(h: Host, m: map<string, Data>, k: string, i: int)
    ensures Apply(h, "get", Map(m), [Str(k)]) == if k in m then Some(m[k]) else None
    ensures h.ToString(Str(k)) == k && h.ToLong(Int(i)) == i
  {}

  /** split gives the parts of the text as texts, in their order, at the first character of the
      delimiter; the two characters for a line break stand for a line break. */
  lemma SplitGets(h: Host, d: Data, delimiter: Data, i: int)
    requires d.IsValue() && delimiter.IsValue()
    ensures h.ToString(delimiter) == "" ==> Apply(h, "split", d, [delimiter]) == None
    ensures h.ToString(delimiter) != "" ==>
      var c := if h.ToString(delimiter) == "\\n" then '\n' else h.ToString(delimiter)[0];
      var parts, result := h.split(h.ToString(d), c), Apply(h, "split", d, [delimiter]);
      result.Some? && Apply(h, "size", result.value, []) == Some(Int(|parts|)) &&
      Apply(h, "get", result.value, [Int(i)]) == if 0 <= i < |parts| then Some(Str(parts[i])) else None
  {}

  /** On a scalar contains looks for the text of the key in the text of the item, size is the
      size of the scalar and parse_json reads its text. */
  lemma ScalarFunctions(h: Host, d: Data, key: Data)
    requires d.IsValue() && key.IsValue()
    ensures Apply(h, "contains", d, [key]) == Some(Bool(h.substring(h.ToString(d), h.ToString(key))))
    ensures Apply(h, "size", d, []) == Some(Int(h.scalarSize(d)))
    ensures Apply(h, "parse_json", d, []) == h.json(h.ToString(d))
    ensures Apply(h, "get", d, [key]) == None && Apply(h, "append", d, [key]) == None
    ensures Apply(h, "insert", d, [key, key]) == None && Apply(h, "clear_empty", d, []) == None
  {}

  /** A map or an array is no key, no delimiter and nothing to split or to parse. */
  lemma OnlyScalarKeys(h: Host, d: Data, key: Data, value: Data)
    requires !key.IsValue()
    ensures Apply(h, "get", d, [key]) == Apply(h, "contains", d, [key]) == Apply(h, "split", d, [key]) == None
    ensures Apply(h, "insert", d, [key, value]) == None
    ensures Apply(h, "split", key, [d]) == Apply(h, "parse_json", key, []) == None
  {}

  // ---------------------------------------------------------------- calls

  /** The names of the functions; any other one is unknown. */
  lemma KnownFunctions(name: string)
    ensures Arity(name).Some? <==>
      name in {"get", "split", "contains", "size", "append", "insert", "clear_empty", "parse_json"}
  {}

  lemma {:induction false} SameChain(h: Host, env: Env, fs: seq<FunctionItem>, gs: seq<FunctionItem>, n: nat,
                                     item: Data)
    requires n <= |fs| <= |gs| && gs[..|fs|] == fs
    ensures Chain(h, env, gs, n, item) == Chain(h, env, fs, n, item)
    decreases n
  {
    if n > 0 {
      SameChain(h, env, fs, gs, n - 1, item);
      assert gs[n - 1] == fs[n - 1];
    }
  }

  // the arguments of a call are filled one by one, each for itself
  lemma {:induction false} ArgumentsFilled(h: Host, env: Env, f: FunctionItem, n: nat)
    requires n <= |f.arguments|
    ensures var args := FillArguments(h, env, f, n);
      (args.Some? <==> forall i :: 0 <= i < n ==> FillItem(h, env, f.arguments[i]).Some?) &&
      (args.Some? ==>
        |args.value| == n &&
        forall i :: 0 <= i < n ==>
          FillItem(h, env, f.arguments[i]).Some? && args.value[i] == FillItem(h, env, f.arguments[i]).value.item)
    decreases n
  {
    hide FillItem;
    if n > 0 { ArgumentsFilled(h, env, f, n - 1); }
  }

  /** The functions of an item are applied from left to right: with one more at the end it is that
      one applied to what came out before, with its arguments filled in the same environment. An
      unknown name, a number of arguments it does not take or an argument that cannot be filled
      is an error. */
  lemma LastFunction(h: Host, env: Env, v: ValueItem, f: FunctionItem, args: seq<Data>)
    requires !v.kind.Output? && (v.isIdentifier || !v.item.Str?) && |args| == |f.arguments|
    requires forall i :: 0 <= i < |args| ==>
      var arg := FillItem(h, env, f.arguments[i]);
      arg.Some? ==> args[i] == arg.value.item
    ensures var before, after := FillItem(h, env, v), FillItem(h, env, v.(functions := v.functions + [f]));
      if before.None? || Arity(f.name) != Some(|args|) ||
         (exists i :: 0 <= i < |args| && FillItem(h, env, f.arguments[i]).None?) then after == None
      else
        var d := Apply(h, f.name, before.value.item, args);
        if d.None? then after == None
        else after == Some(v.(item := d.value, isIdentifier := false, functions := v.functions + [f]))
  {
    var fs := v.functions + [f];
    ArgumentsFilled(h, env, f, |f.arguments|);
    if !v.isIdentifier || h.ToString(v.item) in env {
      var start := if v.isIdentifier then env[h.ToString(v.item)] else v.item;
      SameChain(h, env, v.functions, fs, |v.functions|, start);
      var filled := FillArguments(h, env, f, |f.arguments|);
      if filled.Some? { assert filled.value == args; }
      LastCall(h, env, fs, start);
      hide Apply, Chain;
    }
  }

  lemma LastCall(h: Host, env: Env, fs: seq<FunctionItem>, item: Data)
    requires fs != []
    ensures var before, f := Chain(h, env, fs, |fs| - 1, item), fs[|fs| - 1];
      Chain(h, env, fs, |fs|, item) ==
        if before.None? || Arity(f.name) != Some(|f.arguments|) then None
        else
          var args := FillArguments(h, env, f, |f.arguments|);
          if args.Some? then Apply(h, f.name, before.value, args.value) else None
  {
    hide FillArguments, Apply;
  }

  /** Without functions: an identifier becomes the value of its variable, a text is rendered, any
      other item and all outputs stay as they are. */
  lemma FillsPlain(h: Host, env: Env, v: ValueItem)
    requires v.functions == []
    ensures v.kind.Output? ==> FillItem(h, env, v) == Some(v)
    ensures !v.kind.Output? && v.isIdentifier ==>
      FillItem(h, env, v) ==
        if h.ToString(v.item) in env then Some(v.(item := env[h.ToString(v.item)], isIdentifier := false)) else None
    ensures !v.kind.Output? && !v.isIdentifier && v.item.Str? ==>
      FillItem(h, env, v) ==
        if h.jinja(v.item.s, env).Some? then Some(v.(item := Str(h.jinja(v.item.s, env).value))) else None
    ensures !v.kind.Output? && !v.isIdentifier && !v.item.Str? ==> FillItem(h, env, v) == Some(v)
  {}

  // ---------------------------------------------------------------- types

  /** Each item has exactly one type, and that is never the undefined one. */
  lemma OneType(d: Data, t: FieldType, t': FieldType)
    ensures HasType(d, t) && HasType(d, t') ==> t == t'
    ensures !HasType(d, UndefinedType) && exists u :: HasType(d, u)
  {
    var types := [IntType, FloatType, BoolType, StringType, ArrayType, MapType];
    assert HasType(d, types[0]) || HasType(d, types[1]) || HasType(d, types[2]) || HasType(d, types[3]) ||
           HasType(d, types[4]) || HasType(d, types[5]);
  }

  /** What a declared type lets a tree do with a variable: an array can be appended to, a map
      takes scalar keys, an integer is a position of an array and a text is rendered. */
  lemma TypesMean(h: Host, env: Env, d: Data, key: Data, value: Data, a: seq<Data>)
    requires key.IsValue()
    ensures HasType(d, ArrayType) <==> Apply(h, "append", d, [value]).Some?
    ensures HasType(d, MapType) <==> Apply(h, "insert", d, [key, value]).Some?
    ensures d.IsValue() <==> !HasType(d, ArrayType) && !HasType(d, MapType)
    ensures Apply(h, "get", Array(a), [d]).Some? <==> HasType(d, IntType) && 0 <= d.i < |a|
    ensures HasType(d, StringType) <==> d == Str(d.GetString())
    ensures HasType(d, BoolType) <==> d in {Bool(true), Bool(false)}
    ensures HasType(d, FloatType) <==> d.Float?
  {}

  /** The types of what the functions give. */
  lemma ResultTypes(h: Host, d: Data, key: Data, value: Data)
    ensures var r := Apply(h, "size", d, []); r.Some? && HasType(r.value, IntType)
    ensures var r := Apply(h, "contains", d, [key]); r.Some? ==> HasType(r.value, BoolType)
    ensures var r := Apply(h, "split", d, [key]); r.Some? ==> HasType(r.value, ArrayType)
    ensures var r := Apply(h, "append", d, [value]); r.Some? ==> HasType(r.value, ArrayType)
    ensures var r := Apply(h, "clear_empty", d, []); r.Some? ==> HasType(r.value, ArrayType)
    ensures var r := Apply(h, "insert", d, [key, value]); r.Some? ==> HasType(r.value, MapType)
  {}

  // ---------------------------------------------------------------- fields of blossoms

  /** The border of a field without a pattern and a fixed value: two zeros are no border, numbers
      are bound by their value and texts by their length, anything else by nothing. */
  lemma BorderMeans(h: Host, def: FieldDef, d: Data)
    requires HasType(d, def.fieldType) && def.regex == "" && def.match_.None?
    ensures def.lower == 0 && def.upper == 0 ==> FieldOk(h, def, d)
    ensures (def.lower != 0 || def.upper != 0) && d.Int? ==> (FieldOk(h, def, d) <==> def.lower <= d.i <= def.upper)
    ensures (def.lower != 0 || def.upper != 0) && d.Str? ==> (FieldOk(h, def, d) <==> def.lower <= |d.s| <= def.upper)
    ensures !d.Int? && !d.Str? ==> FieldOk(h, def, d)
  {}

  /** A pattern and a fixed value only forbid more: a text has to match the whole pattern, and the
      texts of the item and of the fixed value have to be equal. */
  lemma FieldRestricts(h: Host, def: FieldDef, d: Data)
    ensures FieldOk(h, def, d) <==>
      FieldOk(h, def.(regex := "", match_ := None), d) &&
      (def.regex != "" ==> h.regex("^" + def.regex + "$", if d.Str? then d.s else "")) &&
      (def.match_.Some? ==> h.ToString(def.match_.value) == h.ToString(d))
    ensures FieldOk(h, def, d) ==> HasType(d, def.fieldType)
  {}
}
