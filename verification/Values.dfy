// The value layer: data items, value items with their function calls, and the
// override operations on string-keyed maps.
module Values {

  datatype Option<+T> = None | Some(value: T)

  /** A data item. `copy()` of the program is the identity on these values. */
  datatype Data =
    | Map(m: map<string, Data>)
    | Array(a: seq<Data>)
    | Int(i: int)
    | Float(f: real)
    | Bool(b: bool)
    | Str(s: string)
  {
    predicate IsValue() { !Map? && !Array? }

    // getString() of a data item: the text of a string value, else empty
    function GetString(): string { if Str? then s else "" }
  }

  type Env = map<string, Data>

  /** Foreign code the library calls, as deterministic functions. */
  datatype Host = Host(
    render: Data -> string,
    scalarSize: Data -> int,
    scalarLong: Data -> int,
    substring: (string, string) -> bool,
    split: (string, char) -> seq<string>,
    json: string -> Option<Data>,
    jinja: (string, Env) -> Option<string>,
    regex: (string, string) -> bool
  ) {
    function ToString(d: Data): string { if d.Str? then d.s else render(d) }

    // getLong() of a scalar
    function ToLong(d: Data): int { if d.Int? then d.i else scalarLong(d) }
  }

  datatype PairType = Undefined | Input | Output | CompareEqual | CompareUnequal
  datatype FieldType = UndefinedType | IntType | FloatType | BoolType | StringType | ArrayType | MapType

  datatype FunctionItem = FunctionItem(name: string, arguments: seq<ValueItem>)

  datatype ValueItem = ValueItem(
    item: Data,
    kind: PairType,
    isIdentifier: bool,
    fieldType: FieldType,
    functions: seq<FunctionItem>)

  datatype ValueItemMap = ValueItemMap(values: map<string, ValueItem>, childs: map<string, ValueItemMap>)

  const EMPTY_MAP := ValueItemMap(map[], map[])

  // ---------------------------------------------------------------- overriding

  datatype OverrideType = All | OnlyExisting | OnlyNonExisting

  function Override<T>(original: map<string, T>, other: map<string, T>, kind: OverrideType): map<string, T> {
    match kind
    case All => original + other
    case OnlyNonExisting => other + original
    case OnlyExisting => map k | k in original :: if k in other then other[k] else original[k]
  }

  // the data items of the entries of a value map (its child maps are not used)
  function ItemsOf(values: map<string, ValueItem>): Env {
    map k | k in values :: values[k].item
  }

  // the value an override leaves at a key that one of the two maps has
  predicate Overrides<T>(original: map<string, T>, other: map<string, T>, kind: OverrideType, key: string) {
    key in other && (kind.OnlyExisting? ==> key in original) && (kind.OnlyNonExisting? ==> key !in original)
  }

  /** overrideItems: one pass over the overriding map, in any order of its keys. */
  method OverrideItems<T>(original: map<string, T>, other: map<string, T>, kind: OverrideType)
    returns (result: map<string, T>)
    ensures result == Override(original, other, kind)
  {
    result := original;
    var todo := other.Keys;
    while todo != {}
      invariant todo <= other.Keys
      invariant forall k :: k in result <==> k in original || (Overrides(original, other, kind, k) && k !in todo)
      invariant forall k :: k in result ==>
        result[k] == if Overrides(original, other, kind, k) && k !in todo then other[k] else original[k]
      decreases todo
    {
      var k :| k in todo;
      todo := todo - {k};
      if kind.All? || (kind.OnlyExisting? && k in original) || (kind.OnlyNonExisting? && k !in original) {
        result := result[k := other[k]];
      }
    }
  }

  // ---------------------------------------------------------------- key order of std::map

  predicate KeyLe(a: string, b: string) {
    a == [] || (b != [] && (a[0] < b[0] || (a[0] == b[0] && KeyLe(a[1..], b[1..]))))
  }

  lemma {:induction false} KeyLeTotal(a: string, b: string)
    ensures KeyLe(a, b) || KeyLe(b, a)
    ensures KeyLe(a, b) && KeyLe(b, a) ==> a == b
  {
    if a != [] && b != [] {
      KeyLeTotal(a[1..], b[1..]);
      if a[0] == b[0] && a[1..] == b[1..] {
        assert a == [a[0]] + a[1..] && b == [b[0]] + b[1..];
      }
    }
  }

  lemma {:induction false} KeyLeTransitive(a: string, b: string, c: string)
    requires KeyLe(a, b) && KeyLe(b, c)
    ensures KeyLe(a, c)
  {
    if a != [] && b != [] && c != [] && a[0] == b[0] == c[0] {
      KeyLeTransitive(a[1..], b[1..], c[1..]);
    }
  }

  /** It is the order of a dictionary: a text comes before its continuations, a common beginning does
      not matter, and after it the smaller character decides. */
  lemma KeyOrder(a: string, b: string, p: string, c: char, d: char)
    ensures KeyLe(a, a + b)
    ensures KeyLe(p + a, p + b) <==> KeyLe(a, b)
    ensures c < d ==> KeyLe([c] + a, [d] + b) && !KeyLe([d] + b, [c] + a)
  {
    LongerIsLater(a, b);
    SameBeginning(a, b, p);
  }

  lemma {:induction false} LongerIsLater(a: string, b: string)
    ensures KeyLe(a, a + b)
  {
    if a != [] {
      LongerIsLater(a[1..], b);
      assert (a + b)[1..] == a[1..] + b;
    }
  }

  lemma {:induction false} SameBeginning(a: string, b: string, p: string)
    ensures KeyLe(p + a, p + b) <==> KeyLe(a, b)
    decreases |p|
  {
    if p == [] {
      assert p + a == a && p + b == b;
    } else {
      SameBeginning(a, b, p[1..]);
      assert (p + a)[1..] == p[1..] + a && (p + b)[1..] == p[1..] + b;
    }
  }

  predicate IsLeastKey(k: string, keys: set<string>) {
    k in keys && forall other :: other in keys ==> KeyLe(k, other)
  }

  /** std::map hands out its keys in ascending order; every non-empty rest has a next one. */
  lemma {:induction false} LeastKeyExists(keys: set<string>)
    requires keys != {}
    ensures exists k :: IsLeastKey(k, keys)
    decreases |keys|
  {
    var k :| k in keys;
    KeyLeTotal(k, k);
    if keys == {k} {
      assert IsLeastKey(k, keys);
    } else {
      var rest := keys - {k};
      assert keys == rest + {k};
      LeastKeyExists(rest);
      var m :| IsLeastKey(m, rest);
      KeyLeTotal(k, m);
      if KeyLe(k, m) {
        forall other | other in keys ensures KeyLe(k, other) {
          if other != k { KeyLeTransitive(k, m, other); }
        }
        assert IsLeastKey(k, keys);
      } else {
        assert IsLeastKey(m, keys);
      }
    }
  }
}
