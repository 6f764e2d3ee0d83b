// Filling of value items: identifiers and jinja2-strings are resolved in an
// environment and the function calls of the item are applied one after another.
module Filling {
  import opened Values

  const U32: int := 0x1_0000_0000

  // ---------------------------------------------------------------- built-in functions

  // toValue() of the argument is null for maps and arrays
  function GetValue(h: Host, item: Data, key: Data): Option<Data> {
    if !key.IsValue() then None
    else match item
      case Map(m) => if h.ToString(key) in m then Some(m[h.ToString(key)]) else None
      case Array(a) => if key.Int? && 0 <= key.i < |a| then Some(a[key.i]) else None
      case _ => None
  }

  function Strings(parts: seq<string>): (r: seq<Data>) {
    seq(|parts|, i requires 0 <= i < |parts| => Str(parts[i]))
  }

  function SplitValue(h: Host, item: Data, delimiter: Data): Option<Data> {
    if !item.IsValue() || !delimiter.IsValue() then None
    else
      var text := h.ToString(delimiter);
      if text == "" then None
      else Some(Array(Strings(h.split(h.ToString(item), if text == "\\n" then '\n' else text[0]))))
  }

  predicate Matches(h: Host, a: seq<Data>, key: Data) {
    exists i :: 0 <= i < |a| && h.ToString(a[i]) == h.ToString(key)
  }

  // The search index has 32 bit: elements from 2^32 on are never inspected, and a
  // search that fails in an array of at least that size does not return (None).
  function ContainsValue(h: Host, item: Data, key: Data): Option<Data> {
    if !key.IsValue() then None
    else match item
      case Map(m) => Some(Bool(h.ToString(key) in m))
      case Array(a) =>
        if Matches(h, if |a| < U32 then a else a[..U32], key) then Some(Bool(true))
        else if |a| < U32 then Some(Bool(false)) else None
      case _ => Some(Bool(h.substring(h.ToString(item), h.ToString(key))))
  }

  function SizeValue(h: Host, item: Data): Data {
    match item
    case Map(m) => Int(|m|)
    case Array(a) => Int(|a|)
    case _ => Int(h.scalarSize(item))
  }

  function InsertValue(h: Host, item: Data, key: Data, value: Data): Option<Data> {
    if item.Map? && key.IsValue() then Some(Map(item.m[h.ToString(key) := value])) else None
  }

  function AppendValue(item: Data, value: Data): Option<Data> {
    if item.Array? then Some(Array(item.a + [value])) else None
  }

  function NonEmpty(h: Host, a: seq<Data>): (r: seq<Data>)
    ensures |r| <= |a|
  {
    if a == [] then []
    else (if h.ToString(a[0]) == "" then [] else [a[0]]) + NonEmpty(h, a[1..])
  }

  // None also stands for the call that does not return, see ClearEmpty below
  function ClearedValue(h: Host, item: Data): Option<Data> {
    if item.Array? && |NonEmpty(h, item.a)| < U32 then Some(Array(NonEmpty(h, item.a))) else None
  }

  function ParseJson(h: Host, item: Data): Option<Data> {
    if item.IsValue() then h.json(h.ToString(item)) else None
  }

  // the number of arguments of each known function
  function Arity(name: string): Option<nat> {
    if name == "get" || name == "split" || name == "contains" || name == "append" then Some(1)
    else if name == "size" || name == "clear_empty" || name == "parse_json" then Some(0)
    else if name == "insert" then Some(2)
    else None
  }

  function Apply(h: Host, name: string, item: Data, args: seq<Data>): Option<Data>
    requires Arity(name) == Some(|args|)
  {
    if name == "get" then GetValue(h, item, args[0])
    else if name == "split" then SplitValue(h, item, args[0])
    else if name == "contains" then ContainsValue(h, item, args[0])
    else if name == "append" then AppendValue(item, args[0])
    else if name == "insert" then InsertValue(h, item, args[0], args[1])
    else if name == "size" then Some(SizeValue(h, item))
    else if name == "clear_empty" then ClearedValue(h, item)
    else ParseJson(h, item)
  }

  // ---------------------------------------------------------------- specification of filling

  // the arguments of one call, each filled as a copy in the same environment
  function FillArguments(h: Host, env: Env, f: FunctionItem, n: nat): (r: Option<seq<Data>>)
    requires n <= |f.arguments|
    ensures r.Some? ==> |r.value| == n
    decreases f, n
  {
    if n == 0 then Some([])
    else
      var front := FillArguments(h, env, f, n - 1);
      var last := FillItem(h, env, f.arguments[n - 1]);
      if front.Some? && last.Some? then Some(front.value + [last.value.item]) else None
  }

  function Call(h: Host, env: Env, f: FunctionItem, item: Data): Option<Data>
    decreases f, |f.arguments| + 1
  {
    if Arity(f.name) != Some(|f.arguments|) then None
    else
      var args := FillArguments(h, env, f, |f.arguments|);
      if args.Some? then Apply(h, f.name, item, args.value) else None
  }

  /** Left fold of the first n function calls of an item over a starting value. */
  function Chain(h: Host, env: Env, fs: seq<FunctionItem>, n: nat, item: Data): Option<Data>
    requires n <= |fs|
    decreases fs, n
  {
    if n == 0 then Some(item)
    else
      var before := Chain(h, env, fs, n - 1, item);
      if before.Some? then Call(h, env, fs[n - 1], before.value) else None
  }

  function FillItem(h: Host, env: Env, v: ValueItem): (r: Option<ValueItem>)
    ensures r.Some? && !v.kind.Output? ==> !r.value.isIdentifier
    ensures r.Some? ==> r.value.kind == v.kind && r.value.functions == v.functions
    decreases v
  {
    if v.kind.Output? then Some(v)
    else if !v.isIdentifier && v.item.Str? then
      var text := h.jinja(v.item.s, env);
      if text.Some? then Some(v.(item := Str(text.value))) else None
    else if v.isIdentifier && h.ToString(v.item) !in env then None
    else
      var start := if v.isIdentifier then env[h.ToString(v.item)] else v.item;
      var item := Chain(h, env, v.functions, |v.functions|, start);
      if item.Some? then Some(v.(item := item.value, isIdentifier := false)) else None
  }

  predicate Fillable(h: Host, env: Env, m: ValueItemMap) {
    (forall k :: k in m.values ==> FillItem(h, env, m.values[k]).Some?) &&
    (forall k :: k in m.childs ==> Fillable(h, env, m.childs[k]))
  }

  /** All entries at once: each one sees the environment only, never another entry. */
  function FillMap(h: Host, env: Env, m: ValueItemMap): (r: ValueItemMap)
    requires Fillable(h, env, m)
    ensures r.values.Keys == m.values.Keys && r.childs.Keys == m.childs.Keys
  {
    ValueItemMap(
      map k | k in m.values :: FillItem(h, env, m.values[k]).value,
      map k | k in m.childs :: FillMap(h, env, m.childs[k]))
  }

  lemma FilledAt(h: Host, env: Env, m: ValueItemMap)
    requires Fillable(h, env, m)
    ensures forall k :: k in m.values ==>
      FillItem(h, env, m.values[k]).Some? && FillMap(h, env, m).values[k] == FillItem(h, env, m.values[k]).value
    ensures forall k :: k in m.childs ==>
      Fillable(h, env, m.childs[k]) && FillMap(h, env, m).childs[k] == FillMap(h, env, m.childs[k])
  {
    hide FillItem;
  }

  // ---------------------------------------------------------------- in-place filling

  method FillArgumentCopies(h: Host, f: FunctionItem, env: Env) returns (ok: bool, args: seq<Data>)
    ensures ok <==> FillArguments(h, env, f, |f.arguments|).Some?
    ensures ok ==> args == FillArguments(h, env, f, |f.arguments|).value
    decreases f, 0
  {
    args := [];
    for n := 0 to |f.arguments|
      invariant FillArguments(h, env, f, n) == Some(args)
    {
      var one, arg := FillValueItem(h, f.arguments[n], env);
      if !one {
        ArgumentFails(h, env, f, n, |f.arguments|);
        return false, [];
      }
      args := args + [arg.item];
    }
    ok := true;
  }

  lemma {:induction false} ArgumentFails(h: Host, env: Env, f: FunctionItem, n: nat, m: nat)
    requires n < m <= |f.arguments| && FillItem(h, env, f.arguments[n]).None?
    ensures FillArguments(h, env, f, m).None?
    decreases m
  {
    if n + 1 < m { ArgumentFails(h, env, f, n, m - 1); }
  }

  lemma {:induction false} ChainFails(h: Host, env: Env, fs: seq<FunctionItem>, n: nat, m: nat, item: Data)
    requires n <= m <= |fs| && Chain(h, env, fs, n, item).None?
    ensures Chain(h, env, fs, m, item).None?
    decreases m
  {
    if n < m { ChainFails(h, env, fs, n, m - 1, item); }
  }

  /** getProcessedItem: the loop that replaces the item by the result of each call. */
  method GetProcessedItem(h: Host, valueItem: ValueItem, env: Env) returns (ok: bool, result: ValueItem)
    ensures ok <==> Chain(h, env, valueItem.functions, |valueItem.functions|, valueItem.item).Some?
    ensures ok ==> result == valueItem.(item :=
      Chain(h, env, valueItem.functions, |valueItem.functions|, valueItem.item).value)
    decreases valueItem.functions, 1
  {
    result := valueItem;
    var fs := valueItem.functions;
    for n := 0 to |fs|
      invariant Chain(h, env, fs, n, valueItem.item) == Some(result.item)
      invariant result == valueItem.(item := result.item)
    {
      var f := fs[n];
      var tempItem := None;
      if Arity(f.name) == Some(|f.arguments|) {
        var filled, args := FillArgumentCopies(h, f, env);
        if filled { tempItem := Apply(h, f.name, result.item, args); }
      }
      assert tempItem == Call(h, env, f, result.item);
      if tempItem.None? {
        ChainFails(h, env, fs, n + 1, |fs|, valueItem.item);
        return false, result;
      }
      result := result.(item := tempItem.value);
    }
    ok := true;
  }

  /** fillValueItem with fillIdentifierItem and fillJinja2Template: afterwards the
      identifier is gone, its value has taken the place. */
  method FillValueItem(h: Host, valueItem: ValueItem, env: Env) returns (ok: bool, result: ValueItem)
    ensures ok <==> FillItem(h, env, valueItem).Some?
    ensures ok ==> result == FillItem(h, env, valueItem).value
    decreases valueItem, 2
  {
    result := valueItem;
    if !valueItem.isIdentifier && !valueItem.kind.Output? && valueItem.item.Str? {
      var converted := h.jinja(valueItem.item.s, env);
      if converted.None? { return false, result; }
      result := result.(item := Str(converted.value));
      ok := true;
    } else if valueItem.isIdentifier && !valueItem.kind.Output? {
      var key := h.ToString(valueItem.item);
      if key !in env { return false, result; }
      result := result.(item := env[key], isIdentifier := false);
      ok, result := GetProcessedItem(h, result, env);
    } else if !valueItem.kind.Output? {
      ok, result := GetProcessedItem(h, result, env);
    } else {
      ok := true;
    }
  }

  /** First loop of fillInputValueItemMap: the entries, in key order. */
  method FillEntries(h: Host, values: map<string, ValueItem>, env: Env)
    returns (ok: bool, filled: map<string, ValueItem>)
    ensures ok <==> forall k :: k in values ==> FillItem(h, env, values[k]).Some?
    ensures ok ==> filled.Keys == values.Keys
    ensures ok ==> forall k :: k in values ==> filled[k] == FillItem(h, env, values[k]).value
  {
    filled := values;
    var todo := values.Keys;
    while todo != {}
      invariant todo <= values.Keys == filled.Keys
      invariant forall k :: k in todo ==> filled[k] == values[k]
      invariant forall k :: k in values && k !in todo ==> FillItem(h, env, values[k]) == Some(filled[k])
      decreases todo
    {
      LeastKeyExists(todo);
      var k :| IsLeastKey(k, todo);
      todo := todo - {k};
      var one, item := FillValueItem(h, filled[k], env);
      if !one { return false, filled; }
      filled := filled[k := item];
    }
    ok := true;
  }

  /** Second loop of fillInputValueItemMap: the child maps, in key order. */
  method FillChilds(h: Host, items: ValueItemMap, env: Env)
    returns (ok: bool, filled: map<string, ValueItemMap>)
    ensures ok <==> forall k :: k in items.childs ==> Fillable(h, env, items.childs[k])
    ensures ok ==> filled.Keys == items.childs.Keys
    ensures ok ==> forall k :: k in items.childs ==> filled[k] == FillMap(h, env, items.childs[k])
    decreases items, 0
  {
    var childs := items.childs;
    filled := childs;
    var todo := childs.Keys;
    while todo != {}
      invariant todo <= childs.Keys == filled.Keys
      invariant forall k :: k in todo ==> filled[k] == childs[k]
      invariant forall k :: k in childs && k !in todo ==>
        Fillable(h, env, childs[k]) && filled[k] == FillMap(h, env, childs[k])
      decreases todo
    {
      LeastKeyExists(todo);
      var k :| IsLeastKey(k, todo);
      todo := todo - {k};
      var one, child := FillInputValueItemMap(h, childs[k], env);
      if !one { return false, filled; }
      filled := filled[k := child];
    }
    ok := true;
  }

  method FillInputValueItemMap(h: Host, items: ValueItemMap, env: Env) returns (ok: bool, result: ValueItemMap)
    ensures ok <==> Fillable(h, env, items)
    ensures ok ==> result == FillMap(h, env, items)
    decreases items, 1
  {
    var values, childs;
    ok, values := FillEntries(h, items.values, env);
    if ok { ok, childs := FillChilds(h, items, env); }
    result := if ok then ValueItemMap(values, childs) else items;
  }
}
