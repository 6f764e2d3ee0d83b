// Syntax trees, blossoms and the registry the interpreter looks things up in.
module Items {
  import opened Values

  datatype Text = NoText | ValidationText | TaskText(text: string)
  datatype Status = Status(code: nat, text: Text)

  // only the place an error was raised at is kept, not its text
  datatype Error =
    | NoError | BlossomValues | UnknownBlossom | BadInput | BadOutput | TaskFailed(message: string)
    | GroupName | Uninitialized | UnknownTree | CallValues | IfValues | ForValues | ForEachValues
    | AggregationValues | UndeclaredInput | BadType
    | NullAccess  // the program would dereference null or hit assert(false)
    | Endless     // the program would not return

  // ---------------------------------------------------------------- blossoms

  datatype IOType = InputField | OutputField

  datatype FieldDef = FieldDef(
    io: IOType, fieldType: FieldType, isRequired: bool,
    match_: Option<Data>, default_: Option<Data>, regex: string, lower: int, upper: int)

  datatype TaskInput = TaskInput(
    input: Env, parentValues: Env, path: string, names: seq<string>, context: Env, status: Status)

  datatype TaskResult = TaskResult(ok: bool, output: Env, status: Status, message: string)

  datatype BlossomDef = BlossomDef(
    inputs: map<string, FieldDef>, outputs: map<string, FieldDef>, allowUnmatched: bool,
    run: TaskInput -> TaskResult)

  // ---------------------------------------------------------------- syntax trees

  datatype BlossomItem = BlossomItem(name: string, kind: string, groupType: string, values: ValueItemMap)

  datatype Compare = Equal | GreaterEqual | Greater | SmallerEqual | Smaller | Unequal

  datatype Head =
    | Blossom(blossom: BlossomItem)
    | Group(id: string, groupType: string, values: ValueItemMap, blossoms: seq<BlossomItem>)
    | Tree(id: string, rootPath: string, relativePath: string, values: ValueItemMap)
    | Subtree(nameOrPath: string, values: ValueItemMap)
    | If(left: ValueItem, op: Compare, right: ValueItem)
    | ForEach(tempVar: string, iterate: ValueItemMap, values: ValueItemMap, parallel: bool)
    | For(tempVar: string, start: ValueItem, end: ValueItem, values: ValueItemMap, parallel: bool)
    | Sequential
    | Parallel
  {
    // the same node with other values
    function WithValues(values: ValueItemMap): Head
      requires Tree? || Subtree? || Group?
    {
      match this
      case Tree(id, rootPath, relativePath, _) => Tree(id, rootPath, relativePath, values)
      case Subtree(nameOrPath, _) => Subtree(nameOrPath, values)
      case Group(id, groupType, _, blossoms) => Group(id, groupType, values, blossoms)
    }
  }

  /** A node with its branches: two for If (then, else), one for Tree, loops and
      Parallel (a Sequential holding the branches), any number for Sequential. */
  datatype Item = Item(head: Head, childs: seq<Item>) {
    function Path(): string
      requires head.Tree?
    {
      head.rootPath + "/" + head.relativePath
    }
  }

  // ---------------------------------------------------------------- registry

  datatype World = World(
    host: Host,
    trees: map<string, Item>,
    resources: map<string, Item>,
    relative: (string, string) -> string,
    blossoms: map<string, map<string, BlossomDef>>,
    context: Env
  ) {
    function GetBlossom(group: string, kind: string): Option<BlossomDef> {
      if group in blossoms && kind in blossoms[group] then Some(blossoms[group][kind]) else None
    }

    // getTree: the empty name stands for the root file
    function GetTree(id: string): Option<Item> {
      var key := if id == "" then "root.sakura" else id;
      if key in trees then Some(trees[key]) else None
    }

    // the tree a subtree-call in the file at path refers to
    function Callee(path: string, nameOrPath: string): Option<Item> {
      GetTree(relative(path, nameOrPath))
    }
  }

  // ---------------------------------------------------------------- conversion and checks

  function Convert(m: ValueItemMap): Env {
    map k | k in m.values.Keys + m.childs.Keys ::
      if k in m.values then m.values[k].item else Map(Convert(m.childs[k]))
  }

  function FillDefaults(defs: map<string, FieldDef>, input: Env): Env {
    (map k | k in defs && defs[k].default_.Some? :: defs[k].default_.value) + input
  }

  predicate HasType(d: Data, t: FieldType) {
    match d
    case Array(_) => t.ArrayType?
    case Map(_) => t.MapType?
    case Int(_) => t.IntType?
    case Float(_) => t.FloatType?
    case Bool(_) => t.BoolType?
    case Str(_) => t.StringType?
  }

  predicate InBorder(def: FieldDef, d: Data) {
    (def.lower == 0 && def.upper == 0) ||
    ((d.Int? ==> def.lower <= d.i <= def.upper) && (d.Str? ==> def.lower <= |d.s| <= def.upper))
  }

  predicate FieldOk(h: Host, def: FieldDef, d: Data) {
    HasType(d, def.fieldType) &&
    (def.regex != "" ==> h.regex("^" + def.regex + "$", d.GetString())) &&
    InBorder(def, d) &&
    (def.match_.Some? ==> h.ToString(def.match_.value) == h.ToString(d))
  }

  predicate BlossomValuesOk(h: Host, defs: map<string, FieldDef>, values: Env, io: IOType) {
    forall k :: k in defs && defs[k].io == io && k in values ==> FieldOk(h, defs[k], values[k])
  }
}
