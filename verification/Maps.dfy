// Value maps as the program holds them: each map owns its entries and its child maps.
module Maps {
  import opened Values
  import opened Filling
  import opened Cells

  // all objects of the entries of a map
  ghost function EntryNodes(entries: map<string, ValueCell>): set<object> {
    set k, o | k in entries && o in entries[k].Repr :: o
  }

  // no two entries share an object
  ghost predicate EntriesApart(entries: map<string, ValueCell>) {
    (forall k, l :: k in entries && l in entries && k != l ==> entries[k].Repr !! entries[l].Repr) &&
    (forall k :: k in entries ==> entries[k].Repr <= EntryNodes(entries) && entries[k].Shape())
  }

  ghost function EntryValues(entries: map<string, ValueCell>): map<string, ValueItem>
    requires EntriesApart(entries)
    reads EntryNodes(entries)
  {
    map k | k in entries :: entries[k].Value()
  }

  lemma EntryValuesAt(entries: map<string, ValueCell>)
    requires EntriesApart(entries)
    ensures EntryValues(entries).Keys == entries.Keys
    ensures forall k :: k in entries ==> entries[k].Shape() && EntryValues(entries)[k] == entries[k].Value()
  {
    hide ValueCell.Shape, ValueCell.Value;
  }

  lemma NoEntries()
    ensures EntriesApart(map[]) && EntryValues(map[]) == map[] && EntryNodes(map[]) == {}
  {}

  lemma MoreEntries(entries: map<string, ValueCell>, k: string, cell: ValueCell)
    requires EntriesApart(entries) && k !in entries && cell.Shape() && cell.Repr !! EntryNodes(entries)
    ensures EntriesApart(entries[k := cell]) && EntryNodes(entries[k := cell]) == EntryNodes(entries) + cell.Repr
  {
    hide ValueCell.Shape;
    var more := entries[k := cell];
    forall o ensures o in EntryNodes(more) <==> o in EntryNodes(entries) || o in cell.Repr {
      if o in cell.Repr { assert k in more && o in more[k].Repr; }
      if o in EntryNodes(entries) {
        var l :| l in entries && o in entries[l].Repr;
        assert l in more && o in more[l].Repr;
      }
    }
  }

  lemma Without(entries: map<string, ValueCell>, key: string, rest: map<string, ValueCell>)
    requires EntriesApart(entries) && rest == map k | k in entries && k != key :: entries[k]
    ensures EntriesApart(rest) && EntryNodes(rest) <= EntryNodes(entries)
  {
    hide ValueCell.Shape;
    forall k | k in rest ensures rest[k].Repr <= EntryNodes(rest) {
      forall o | o in rest[k].Repr ensures o in EntryNodes(rest) {}
    }
  }

  lemma OneMoreValue(entries: map<string, ValueCell>, rest: map<string, ValueCell>, key: string, cell: ValueCell)
    requires EntriesApart(entries) && rest == map k | k in entries && k != key :: entries[k]
    requires EntriesApart(rest[key := cell]) && cell.Shape()
    ensures entries[key := cell] == rest[key := cell]
    ensures EntryValues(entries[key := cell]) == EntryValues(entries)[key := cell.Value()]
  {
    hide ValueCell.Shape, ValueCell.Value;
    assert entries[key := cell] == rest[key := cell];
  }

  // an entry is added or takes the place of another one
  lemma Put(entries: map<string, ValueCell>, key: string, cell: ValueCell)
    requires EntriesApart(entries) && cell.Shape() && cell.Repr !! EntryNodes(entries)
    ensures EntriesApart(entries[key := cell])
    ensures EntryNodes(entries[key := cell]) <= EntryNodes(entries) + cell.Repr
    ensures EntryValues(entries[key := cell]) == EntryValues(entries)[key := cell.Value()]
  {
    hide ValueCell.Shape, ValueCell.Value, EntriesApart, EntryValues, EntryNodes;
    var rest := map k | k in entries && k != key :: entries[k];
    Without(entries, key, rest);
    MoreEntries(rest, key, cell);
    OneMoreValue(entries, rest, key, cell);
  }

  lemma EntryAt(entries: map<string, ValueCell>, k: string)
    requires EntriesApart(entries) && k in entries
    ensures entries[k].Shape() && entries[k].Repr <= EntryNodes(entries)
    ensures entries[k] in entries[k].Repr && entries[k].box in entries[k].Repr
    ensures forall l :: l in entries && l != k ==> entries[l].Repr !! entries[k].Repr
  {
    entries[k].Unfold();
  }

  /** The entries of a copied map are copies. */
  method CopyEntries(entries: map<string, ValueCell>, ghost items: map<string, ValueItem>)
    returns (copies: map<string, ValueCell>, ghost used: set<object>)
    requires EntriesApart(entries) && items == EntryValues(entries)
    ensures EntriesApart(copies) && EntryValues(copies) == items && used == EntryNodes(copies) && fresh(used)
  {
    hide ValueCell.Shape, ValueCell.Value, EntryNodes;
    copies, used := map[], {};
    NoEntries();
    var todo := entries.Keys;
    while todo != {}
      invariant todo <= entries.Keys && copies.Keys == entries.Keys - todo
      invariant EntriesApart(copies) && used == EntryNodes(copies) && fresh(used)
      invariant forall k :: k in copies ==> copies[k].Value() == items[k]
      decreases todo
    {
      LeastKeyExists(todo);
      var k :| IsLeastKey(k, todo);
      todo := todo - {k};
      EntryAt(entries, k);
      var copy := entries[k].Copy();
      MoreEntries(copies, k, copy);
      copies, used := copies[k := copy], used + copy.Repr;
    }
  }

  method FillEntry(h: Host, entries: map<string, ValueCell>, k: string, ghost item: ValueItem, env: Env)
    returns (ok: bool)
    requires EntriesApart(entries) && k in entries && entries[k].Shape() && entries[k].Value() == item
    modifies EntryNodes(entries)
    ensures ok <==> FillItem(h, env, item).Some?
    ensures ok ==> entries[k].Value() == FillItem(h, env, item).value
    ensures forall l :: l in entries && l != k ==>
      entries[l].Shape() && entries[l].Value() == old(entries[l].Value())
  {
    hide ValueCell.Shape, ValueCell.Value, EntryNodes, FillItem;
    EntryAt(entries, k);
    ok := FillValueCell(h, entries[k], env);
  }

  /** First loop of fillInputValueItemMap on the entries themselves. */
  method FillEntryCells(h: Host, entries: map<string, ValueCell>, ghost items: map<string, ValueItem>, env: Env)
    returns (ok: bool)
    requires EntriesApart(entries) && items == EntryValues(entries)
    modifies EntryNodes(entries)
    ensures ok <==> forall k :: k in items ==> FillItem(h, env, items[k]).Some?
    ensures ok ==> forall k :: k in items ==> entries[k].Value() == FillItem(h, env, items[k]).value
  {
    hide ValueCell.Shape, ValueCell.Value, EntryNodes, FillItem;
    var todo := entries.Keys;
    while todo != {}
      invariant todo <= entries.Keys
      invariant forall k :: k in todo ==> entries[k].Value() == items[k]
      invariant forall k :: k in entries && k !in todo ==> FillItem(h, env, items[k]) == Some(entries[k].Value())
      decreases todo
    {
      LeastKeyExists(todo);
      var k :| IsLeastKey(k, todo);
      todo := todo - {k};
      ok := FillEntry(h, entries, k, items[k], env);
      if !ok { return; }
    }
    ok := true;
  }

  // ---------------------------------------------------------------- maps

  class MapCell {
    var valueMap: map<string, ValueCell>
    var childMaps: map<string, MapCell>
    ghost var Maps: set<MapCell>
    ghost var Cells: set<object>

    ghost function Inner(): set<object>
      reads this
    {
      Cells - EntryNodes(valueMap)
    }

    // the map owns its entries and child maps; Maps are the maps, Cells all other objects
    ghost predicate Valid()
      reads this, Maps
      decreases Maps, 0
    {
      this in Maps && (forall m :: m in Maps ==> m !in Cells) &&
      EntriesApart(valueMap) && EntryNodes(valueMap) <= Cells && ChildsWithin(childMaps, Maps - {this}, Inner())
    }

    /** The value map the objects stand for at the moment. */
    ghost function Value(): ValueItemMap
      requires Valid()
      reads this, Maps, Cells
      decreases Maps, 0
    {
      ValueItemMap(EntryValues(valueMap), ChildValues(childMaps, Maps - {this}, Inner()))
    }

    constructor (entries: map<string, ValueCell>, childs: map<string, MapCell>,
                 ghost maps: set<MapCell>, ghost cells: set<object>)
      requires EntriesApart(entries) && ChildsWithin(childs, maps, cells) && EntryNodes(entries) !! cells
      requires forall m :: m in maps ==> m !in cells && m !in EntryNodes(entries)
      ensures valueMap == entries && childMaps == childs
      ensures Maps == {this} + maps && Cells == EntryNodes(entries) + cells && this !in maps && Valid()
      ensures Value() == ValueItemMap(EntryValues(entries), ChildValues(childs, maps, cells))
    {
      valueMap, childMaps := entries, childs;
      Maps, Cells := {this} + maps, EntryNodes(entries) + cells;
      new;
      assert Maps - {this} == maps && Inner() == cells;
    }

    // copies of all entries and child maps, on new objects only
    method CopyParts() returns (entries: map<string, ValueCell>, childs: map<string, MapCell>,
                                ghost maps: set<MapCell>, ghost cells: set<object>, ghost used: set<object>)
      requires Valid()
      ensures EntriesApart(entries) && ChildsWithin(childs, maps, cells) && used == EntryNodes(entries)
      ensures fresh(maps) && fresh(cells) && fresh(used) && used !! cells
      ensures forall m :: m in maps ==> m !in cells && m !in used
      ensures old(Value()) == ValueItemMap(EntryValues(entries), ChildValues(childs, maps, cells))
      decreases Maps, 1
    {
      hide MapCell.Valid, MapCell.Value, EntriesApart, EntryNodes, EntryValues, ChildsWithin, ChildValues;
      Unfold();
      ghost var entryValues, childValues := EntryValues(valueMap), ChildValues(childMaps, Maps - {this}, Inner());
      entries, used := CopyEntries(valueMap, entryValues);
      childs, maps, cells := CopyChilds(childMaps, Maps - {this}, Inner(), childValues);
    }

    /** The copy-constructor: an equal map on new objects only. */
    method Copy() returns (copy: MapCell)
      requires Valid()
      ensures copy.Valid() && fresh(copy.Maps) && fresh(copy.Cells) && copy.Value() == old(Value())
      decreases Maps, 2
    {
      hide MapCell.Valid, MapCell.Value, EntriesApart, EntryNodes, EntryValues, ChildsWithin, ChildValues;
      ghost var maps, cells, used;
      var entries, childs;
      entries, childs, maps, cells, used := CopyParts();
      copy := new MapCell(entries, childs, maps, cells);
    }

    /** The assignment-operator: the old entries and child maps are given up, those of the
        other map are copied. */
    method Assign(other: MapCell)
      requires Valid() && other.Valid() && (this != other ==> Maps !! other.Maps && this !in other.Cells)
      modifies this
      ensures Valid() && Value() == old(other.Value())
      ensures this != other ==> fresh(Maps - {this}) && fresh(Cells)
    {
      hide MapCell.Valid, MapCell.Value, ChildsWithin, ChildValues, EntriesApart, EntryNodes, EntryValues;
      if this != other {
        ghost var maps, cells, used;
        var entries, childs;
        entries, childs, maps, cells, used := other.CopyParts();
        Take(entries, childs, maps, cells, used);
      }
    }

    // gives up the old parts for new ones
    method Take(entries: map<string, ValueCell>, childs: map<string, MapCell>,
                ghost maps: set<MapCell>, ghost cells: set<object>, ghost used: set<object>)
      requires EntriesApart(entries) && ChildsWithin(childs, maps, cells) && used == EntryNodes(entries)
      requires used !! cells && forall m :: m in maps ==> m !in cells && m !in used
      requires this !in maps && this !in cells && this !in used
      modifies this
      ensures Maps == {this} + maps && Cells == used + cells && Valid()
      ensures Value() == old(ValueItemMap(EntryValues(entries), ChildValues(childs, maps, cells)))
    {
      hide MapCell.Valid, MapCell.Value, ChildsWithin, ChildValues, EntriesApart, EntryNodes, EntryValues;
      ghost var parts := ValueItemMap(EntryValues(entries), ChildValues(childs, maps, cells));
      valueMap, childMaps, Maps, Cells := entries, childs, {this} + maps, used + cells;
      assert EntryValues(entries) == parts.values;
      assert ChildValues(childs, maps, cells) == parts.childs;
      Rebuilt(maps, cells);
    }

    lemma Rebuilt(maps: set<MapCell>, cells: set<object>)
      requires EntriesApart(valueMap) && ChildsWithin(childMaps, maps, cells) && EntryNodes(valueMap) !! cells
      requires Maps == {this} + maps && Cells == EntryNodes(valueMap) + cells && this !in maps
      requires forall m :: m in Maps ==> m !in Cells
      ensures Valid() && Value() == ValueItemMap(EntryValues(valueMap), ChildValues(childMaps, maps, cells))
    {
      hide EntriesApart, EntryNodes, ChildsWithin, ChildValues, EntryValues;
      assert Maps - {this} == maps && Inner() == cells;
    }

    /** insert() of a value item: the map keeps a copy of its own. */
    method Insert(key: string, value: ValueCell, force: bool) returns (inserted: bool)
      requires Valid() && value.Shape()
      modifies this
      ensures Valid() && fresh(Cells - old(Cells)) && Maps == old(Maps)
      ensures inserted <==> force || key !in old(valueMap)
      ensures Value() ==
        if inserted then old(Value()).(values := old(Value()).values[key := old(value.Value())]) else old(Value())
    {
      hide MapCell.Valid, MapCell.Value, ChildsWithin, ChildValues, EntriesApart, EntryNodes, EntryValues;
      hide ValueCell.Shape, ValueCell.Value;
      Unfold();
      inserted := force || key !in valueMap;
      if inserted {
        ghost var maps, cells := Maps - {this}, Inner();
        ghost var item := value.Value();
        ghost var entryValues := EntryValues(valueMap);
        var copy := value.Copy();
        Put(valueMap, key, copy);
        valueMap := valueMap[key := copy];
        Cells := EntryNodes(valueMap) + cells;
        Rebuilt(maps, cells);
      }
    }

    lemma Unfold()
      requires Valid()
      ensures this in Maps && EntriesApart(valueMap) && EntryNodes(valueMap) <= Cells
      ensures ChildsWithin(childMaps, Maps - {this}, Inner()) && forall m :: m in Maps ==> m !in Cells
      ensures Value() == ValueItemMap(EntryValues(valueMap), ChildValues(childMaps, Maps - {this}, Inner()))
    {}
  }

  // child maps that share nothing, within these maps and other objects
  ghost predicate ChildsWithin(childs: map<string, MapCell>, maps: set<MapCell>, cells: set<object>)
    reads maps
    decreases maps, 1
  {
    (forall k :: k in childs ==>
      childs[k] in maps && childs[k].Maps <= maps && childs[k].Cells <= cells && childs[k].Valid()) &&
    (forall k, l :: k in childs && l in childs && k != l ==>
      childs[k].Maps !! childs[l].Maps && childs[k].Cells !! childs[l].Cells)
  }

  ghost function ChildValues(childs: map<string, MapCell>, maps: set<MapCell>, cells: set<object>)
    : (values: map<string, ValueItemMap>)
    requires ChildsWithin(childs, maps, cells)
    reads maps, cells
    ensures values.Keys == childs.Keys && forall k :: k in childs ==> values[k] == childs[k].Value()
    decreases maps, 1
  {
    map k | k in childs :: childs[k].Value()
  }

  lemma ChildAt(childs: map<string, MapCell>, maps: set<MapCell>, cells: set<object>, k: string)
    requires ChildsWithin(childs, maps, cells) && k in childs
    ensures childs[k] in maps && childs[k].Maps <= maps && childs[k].Cells <= cells && childs[k].Valid()
    ensures forall l :: l in childs && l != k ==>
      childs[k].Maps !! childs[l].Maps && childs[k].Cells !! childs[l].Cells
  {}

  lemma Within(childs: map<string, MapCell>, maps: set<MapCell>, cells: set<object>)
    requires forall k :: k in childs ==>
      childs[k] in maps && childs[k].Maps <= maps && childs[k].Cells <= cells && childs[k].Valid()
    requires forall k, l :: k in childs && l in childs && k != l ==>
      childs[k].Maps !! childs[l].Maps && childs[k].Cells !! childs[l].Cells
    ensures ChildsWithin(childs, maps, cells)
  {
    hide MapCell.Valid;
  }

  lemma MoreChilds(childs: map<string, MapCell>, maps: set<MapCell>, cells: set<object>, k: string, child: MapCell)
    requires ChildsWithin(childs, maps, cells) && k !in childs && child.Valid()
    requires child.Maps !! maps && child.Cells !! cells
    ensures ChildsWithin(childs[k := child], maps + child.Maps, cells + child.Cells)
  {
    hide MapCell.Valid, ChildsWithin;
    child.Unfold();
    forall l | l in childs
      ensures childs[l] in maps && childs[l].Maps <= maps && childs[l].Cells <= cells && childs[l].Valid()
      ensures forall o :: o in childs && o != l ==>
        childs[l].Maps !! childs[o].Maps && childs[l].Cells !! childs[o].Cells
    {
      ChildAt(childs, maps, cells, l);
    }
    Within(childs[k := child], maps + child.Maps, cells + child.Cells);
  }

  lemma MoreValues(childs: map<string, MapCell>, maps: set<MapCell>, cells: set<object>, k: string, child: MapCell)
    requires ChildsWithin(childs, maps, cells) && k !in childs && child.Valid() && child in child.Maps
    requires ChildsWithin(childs[k := child], maps + child.Maps, cells + child.Cells)
    ensures ChildValues(childs[k := child], maps + child.Maps, cells + child.Cells) ==
      ChildValues(childs, maps, cells)[k := child.Value()]
  {
    hide MapCell.Valid, MapCell.Value, ChildsWithin;
  }

  // copies of child maps with these values
  ghost predicate Copied(copies: map<string, MapCell>, maps: set<MapCell>, cells: set<object>,
                         values: map<string, ValueItemMap>)
    reads maps, cells
  {
    ChildsWithin(copies, maps, cells) && values == ChildValues(copies, maps, cells) &&
    forall m :: m in maps ==> m !in cells
  }

  lemma NoneCopied()
    ensures Copied(map[], {}, {}, map[])
  {}

  // one more child map, its copy on new objects
  lemma MoreCopied(copies: map<string, MapCell>, maps: set<MapCell>, cells: set<object>,
                   values: map<string, ValueItemMap>, k: string, child: MapCell)
    requires Copied(copies, maps, cells, values) && k !in copies && child.Valid()
    requires child.Maps !! maps && child.Cells !! cells
    requires forall m :: m in maps ==> m !in child.Cells
    requires forall m :: m in child.Maps ==> m !in cells
    ensures Copied(copies[k := child], maps + child.Maps, cells + child.Cells, values[k := child.Value()])
  {
    hide MapCell.Valid, MapCell.Value, ChildsWithin, ChildValues;
    child.Unfold();
    MoreChilds(copies, maps, cells, k, child);
    MoreValues(copies, maps, cells, k, child);
  }

  /** The child maps of a copied map are copies. */
  method CopyChilds(childs: map<string, MapCell>, ghost maps: set<MapCell>, ghost cells: set<object>,
                    ghost values: map<string, ValueItemMap>)
    returns (copies: map<string, MapCell>, ghost newMaps: set<MapCell>, ghost newCells: set<object>)
    requires ChildsWithin(childs, maps, cells) && values == ChildValues(childs, maps, cells)
    ensures ChildsWithin(copies, newMaps, newCells) && ChildValues(copies, newMaps, newCells) == values
    ensures fresh(newMaps) && fresh(newCells) && forall m :: m in newMaps ==> m !in newCells
    decreases maps, 4
  {
    hide MapCell.Valid, MapCell.Value, ChildsWithin, ChildValues, Copied;
    ghost var done: map<string, ValueItemMap> := map[];
    copies, newMaps, newCells := map[], {}, {};
    NoneCopied();
    var todo := childs.Keys;
    while todo != {}
      invariant todo <= childs.Keys && copies.Keys == childs.Keys - todo == done.Keys
      invariant Copied(copies, newMaps, newCells, done) && fresh(newMaps) && fresh(newCells)
      invariant forall k :: k in done ==> done[k] == values[k]
      decreases todo
    {
      LeastKeyExists(todo);
      var k :| IsLeastKey(k, todo);
      todo := todo - {k};
      var child := CopyChild(childs, maps, cells, values, k);
      MoreCopied(copies, newMaps, newCells, done, k, child);
      copies, newMaps, newCells := copies[k := child], newMaps + child.Maps, newCells + child.Cells;
      done := done[k := values[k]];
    }
    CopiedAll(copies, newMaps, newCells, done);
  }

  lemma CopiedAll(copies: map<string, MapCell>, maps: set<MapCell>, cells: set<object>,
                  values: map<string, ValueItemMap>)
    requires Copied(copies, maps, cells, values)
    ensures ChildsWithin(copies, maps, cells) && values == ChildValues(copies, maps, cells)
    ensures forall m :: m in maps ==> m !in cells
  {}

  method CopyChild(childs: map<string, MapCell>, ghost maps: set<MapCell>, ghost cells: set<object>,
                   ghost values: map<string, ValueItemMap>, k: string) returns (copy: MapCell)
    requires ChildsWithin(childs, maps, cells) && k in childs && values == ChildValues(childs, maps, cells)
    ensures copy.Valid() && fresh(copy.Maps) && fresh(copy.Cells) && copy.Value() == values[k]
    decreases maps, 3
  {
    hide MapCell.Valid, MapCell.Value, ChildsWithin;
    ChildAt(childs, maps, cells, k);
    copy := childs[k].Copy();
  }

  // ---------------------------------------------------------------- filling in place

  method FillChild(h: Host, childs: map<string, MapCell>, k: string, ghost maps: set<MapCell>, ghost cells: set<object>,
                   ghost values: map<string, ValueItemMap>, env: Env)
    returns (ok: bool)
    requires ChildsWithin(childs, maps, cells) && values == ChildValues(childs, maps, cells) && k in childs
    requires forall m :: m in maps ==> m !in cells
    modifies childs[k].Cells
    ensures ChildsWithin(childs, maps, cells) && (ok <==> Fillable(h, env, values[k]))
    ensures ok ==> ChildValues(childs, maps, cells) == values[k := FillMap(h, env, values[k])]
    decreases maps, 3
  {
    hide MapCell.Valid, MapCell.Value, ChildsWithin, ChildValues, Fillable, FillMap;
    ChildAt(childs, maps, cells, k);
    forall l | l in childs ensures childs[l] in maps && childs[l].Maps <= maps && childs[l].Valid() {
      ChildAt(childs, maps, cells, l);
    }
    ok := FillMapCell(h, childs[k], env);
    if ok {
      forall l | l in childs ensures childs[l].Valid() { ChildAt(childs, maps, cells, l); }
      forall l | l in childs ensures childs[l].Value() == if l == k then FillMap(h, env, values[k]) else values[l] {
        assert l != k ==> childs[l].Value() == old(childs[l].Value());
      }
    }
  }

  /** Second loop of fillInputValueItemMap on the child maps themselves. */
  method FillChildCells(h: Host, childs: map<string, MapCell>, ghost maps: set<MapCell>, ghost cells: set<object>,
                        ghost values: map<string, ValueItemMap>, env: Env)
    returns (ok: bool)
    requires ChildsWithin(childs, maps, cells) && values == ChildValues(childs, maps, cells)
    requires forall m :: m in maps ==> m !in cells
    modifies cells
    ensures ChildsWithin(childs, maps, cells)
    ensures ok <==> forall k :: k in values ==> Fillable(h, env, values[k])
    ensures ok ==> forall k :: k in values ==> ChildValues(childs, maps, cells)[k] == FillMap(h, env, values[k])
    decreases maps, 4
  {
    hide MapCell.Valid, MapCell.Value, ChildsWithin, ChildValues, Fillable, FillMap;
    ghost var now := values;
    var todo := childs.Keys;
    while todo != {}
      invariant todo <= childs.Keys && ChildsWithin(childs, maps, cells) && now == ChildValues(childs, maps, cells)
      invariant forall k :: k in todo ==> now[k] == values[k]
      invariant forall k :: k in childs && k !in todo ==>
        Fillable(h, env, values[k]) && now[k] == FillMap(h, env, values[k])
      decreases todo
    {
      LeastKeyExists(todo);
      var k :| IsLeastKey(k, todo);
      todo := todo - {k};
      ChildAt(childs, maps, cells, k);
      ok := FillChild(h, childs, k, maps, cells, now, env);
      if !ok { return; }
      now := now[k := FillMap(h, env, values[k])];
    }
    ok := true;
  }

  lemma FillableParts(h: Host, env: Env, m: ValueItemMap)
    ensures Fillable(h, env, m) <==>
      (forall k :: k in m.values ==> FillItem(h, env, m.values[k]).Some?) &&
      (forall k :: k in m.childs ==> Fillable(h, env, m.childs[k]))
  {
    hide FillItem;
  }

  lemma FilledValues(h: Host, env: Env, m: ValueItemMap, values: map<string, ValueItem>)
    requires Fillable(h, env, m) && values.Keys == m.values.Keys
    requires forall k :: k in m.values ==>
      FillItem(h, env, m.values[k]).Some? && values[k] == FillItem(h, env, m.values[k]).value
    ensures FillMap(h, env, m).values == values
  {
    hide FillItem, Fillable, FillMap;
    FilledAt(h, env, m);
  }

  lemma FilledChilds(h: Host, env: Env, m: ValueItemMap, childs: map<string, ValueItemMap>)
    requires Fillable(h, env, m) && childs.Keys == m.childs.Keys
    requires forall k :: k in m.childs ==>
      Fillable(h, env, m.childs[k]) && childs[k] == FillMap(h, env, m.childs[k])
    ensures FillMap(h, env, m).childs == childs
  {
    hide FillItem, Fillable, FillMap;
    FilledAt(h, env, m);
  }

  /** fillInputValueItemMap in place: it changes entries and their data items, in all child
      maps too, and nothing the map does not own. */
  method FillMapCell(h: Host, items: MapCell, env: Env) returns (ok: bool)
    requires items.Valid()
    modifies items.Cells
    ensures items.Valid() && (ok <==> Fillable(h, env, old(items.Value())))
    ensures ok ==> items.Value() == FillMap(h, env, old(items.Value()))
    decreases items.Maps, 2
  {
    hide MapCell.Valid, MapCell.Value, EntriesApart, EntryNodes, EntryValues, ChildsWithin, ChildValues;
    hide FillItem, Fillable, FillMap;
    items.Unfold();
    ghost var maps, cells, m := items.Maps - {items}, items.Inner(), items.Value();
    EntryValuesAt(items.valueMap);
    ok := FillEntryCells(h, items.valueMap, m.values, env);
    items.Rebuilt(maps, cells);
    if ok { ok := FillChildCells(h, items.childMaps, maps, cells, m.childs, env); }
    items.Rebuilt(maps, cells);
    EntryValuesAt(items.valueMap);
    FillableParts(h, env, m);
    if ok {
      FilledValues(h, env, m, items.Value().values);
      FilledChilds(h, env, m, items.Value().childs);
    }
  }

  /** A copy is filled in place, the original keeps its value: the program copies the body of a
      loop, a stored tree or the subtree of a child plan before it is processed. */
  method FillCopy(h: Host, original: MapCell, env: Env) returns (ok: bool, copy: MapCell)
    requires original.Valid()
    ensures original.Valid() && original.Value() == old(original.Value())
    ensures copy.Valid() && fresh(copy.Maps) && fresh(copy.Cells)
    ensures ok <==> Fillable(h, env, original.Value())
    ensures ok ==> copy.Value() == FillMap(h, env, original.Value())
  {
    hide MapCell.Valid, MapCell.Value, Fillable, FillMap;
    hide MapCell.Inner, EntriesApart, EntryNodes, EntryValues, ChildsWithin, ChildValues;
    copy := original.Copy();
    copy.Unfold();
    ok := FillMapCell(h, copy, env);
  }

  /** Filling one map leaves every other one alone it shares no object with. */
  method FillBeside(h: Host, items: MapCell, other: MapCell, env: Env) returns (ok: bool)
    requires items.Valid() && other.Valid() && items.Cells !! other.Cells
    requires forall m :: m in other.Maps ==> m !in items.Cells
    modifies items.Cells
    ensures other.Valid() && other.Value() == old(other.Value())
    ensures items.Valid() && (ok <==> Fillable(h, env, old(items.Value())))
    ensures ok ==> items.Value() == FillMap(h, env, old(items.Value()))
  {
    hide MapCell.Valid, MapCell.Value, Fillable, FillMap;
    hide MapCell.Inner, EntriesApart, EntryNodes, EntryValues, ChildsWithin, ChildValues;
    other.Unfold();
    ok := FillMapCell(h, items, env);
  }
}
