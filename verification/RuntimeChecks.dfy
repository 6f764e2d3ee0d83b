// The loops that check, convert and complete value maps while trees and blossoms run. They
// walk their maps in key order and stop at the first entry that does not fit.
module RuntimeChecks {
  import opened Values
  import opened Items
  import opened Semantics

  /** checkBlossomValues, with checkType, the regular expression, the borders and the match */
  method CheckBlossomValues(h: Host, defs: map<string, FieldDef>, values: Env, io: IOType) returns (ok: bool)
    ensures ok <==> BlossomValuesOk(h, defs, values, io)
  {
    var todo := defs.Keys;
    while todo != {}
      invariant todo <= defs.Keys
      invariant forall k :: k in defs && k !in todo && defs[k].io == io && k in values ==>
        FieldOk(h, defs[k], values[k])
      decreases todo
    {
      LeastKeyExists(todo);
      var k :| IsLeastKey(k, todo);
      todo := todo - {k};
      var def := defs[k];
      if def.io != io || k !in values { continue; }
      var item := values[k];
      if !HasType(item, def.fieldType) { return false; }
      if |def.regex| > 0 && !h.regex("^" + def.regex + "$", item.GetString()) { return false; }
      if def.upper != 0 || def.lower != 0 {
        if item.Int? && (item.i < def.lower || item.i > def.upper) { return false; }
        if item.Str? && (|item.s| < def.lower || |item.s| > def.upper) { return false; }
      }
      if def.match_.Some? && h.ToString(def.match_.value) != h.ToString(item) { return false; }
    }
    ok := true;
  }

  /** Declared entries of one kind that are present have their declared type. */
  predicate TreeValuesOk(defs: map<string, ValueItem>, values: Env, io: PairType) {
    forall k :: k in defs && defs[k].kind == io && k in values ==> HasType(values[k], defs[k].fieldType)
  }

  method CheckTreeValues(defs: ValueItemMap, values: Env, io: PairType) returns (ok: bool)
    ensures ok <==> TreeValuesOk(defs.values, values, io)
  {
    var todo := defs.values.Keys;
    while todo != {}
      invariant todo <= defs.values.Keys
      invariant forall k :: k in defs.values && k !in todo && defs.values[k].kind == io && k in values ==>
        HasType(values[k], defs.values[k].fieldType)
      decreases todo
    {
      LeastKeyExists(todo);
      var k :| IsLeastKey(k, todo);
      todo := todo - {k};
      if defs.values[k].kind == io && k in values && !HasType(values[k], defs.values[k].fieldType) { return false; }
    }
    ok := true;
  }

  predicate Ascending(keys: seq<string>) {
    forall i, j :: 0 <= i < j < |keys| ==> KeyLe(keys[i], keys[j]) && keys[i] != keys[j]
  }

  /** checkInput: the given keys that are not declared, in key order */
  method CheckInput(declared: ValueItemMap, given: Env) returns (failed: seq<string>)
    ensures forall k :: k in failed <==> k in given && k !in declared.values && k !in declared.childs
    ensures Ascending(failed)
  {
    failed := [];
    var todo := given.Keys;
    while todo != {}
      invariant todo <= given.Keys && Ascending(failed)
      invariant forall k :: k in failed <==> k in given && k !in todo && k !in declared.values && k !in declared.childs
      invariant forall done, k :: done in failed && k in todo ==> KeyLe(done, k)
      decreases todo
    {
      LeastKeyExists(todo);
      var k :| IsLeastKey(k, todo);
      todo := todo - {k};
      if k !in declared.values && k !in declared.childs { failed := failed + [k]; }
    }
  }

  /** checkItems: the keys that still hold the mark of an input without a value */
  method CheckItems(items: Env) returns (uninitialized: seq<string>)
    ensures forall k :: k in uninitialized <==> k in items && items[k].GetString() == "?"
    ensures uninitialized == [] <==> Initialized(items)
  {
    uninitialized := [];
    var todo := items.Keys;
    while todo != {}
      invariant todo <= items.Keys
      invariant forall k :: k in uninitialized <==> k in items && k !in todo && items[k].GetString() == "?"
      decreases todo
    {
      LeastKeyExists(todo);
      var k :| IsLeastKey(k, todo);
      todo := todo - {k};
      if items[k].GetString() == "?" { uninitialized := uninitialized + [k]; }
    }
    if uninitialized != [] { assert uninitialized[0] in uninitialized; }
  }

  /** convertValueMap: values first, child maps do not replace them */
  method ConvertValueMap(input: ValueItemMap) returns (result: Env)
    ensures result == Convert(input)
    decreases input
  {
    result := ItemsOf(input.values);
    var todo := input.childs.Keys;
    while todo != {}
      invariant todo <= input.childs.Keys
      invariant result.Keys == input.values.Keys + (input.childs.Keys - todo)
      invariant forall k :: k in result ==>
        result[k] == if k in input.values then input.values[k].item else Map(Convert(input.childs[k]))
      decreases todo
    {
      LeastKeyExists(todo);
      var k :| IsLeastKey(k, todo);
      todo := todo - {k};
      var internal := ConvertValueMap(input.childs[k]);
      if k !in result { result := result[k := Map(internal)]; }
    }
  }

  /** fillDefaultValues: a default is only inserted where no value is given */
  method FillDefaultValues(defs: map<string, FieldDef>, values: Env) returns (result: Env)
    ensures result == FillDefaults(defs, values)
  {
    result := values;
    var todo := defs.Keys;
    while todo != {}
      invariant todo <= defs.Keys
      invariant forall k :: k in result <==> k in values || (k in defs && k !in todo && defs[k].default_.Some?)
      invariant forall k :: k in result ==> result[k] == if k in values then values[k] else defs[k].default_.value
      decreases todo
    {
      LeastKeyExists(todo);
      var k :| IsLeastKey(k, todo);
      todo := todo - {k};
      if defs[k].default_.Some? && k !in result { result := result[k := defs[k].default_.value]; }
    }
  }
}
