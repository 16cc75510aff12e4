/**
 * The store: `LoadMemory`, the reads of `MemoryBlob`, and `bundle_item`.
 *
 * `MemoryBlob` only holds its parent store, so its two reads, `__getter` (a
 * read by table name) and `__call__` (a read by instructions), are methods of
 * the store here.
 */
module Interface {
  import opened Errors
  import opened Records
  import opened Location
  import opened Storage
  import opened DataMapper

  // ---- bundle_item ----

  /**
   * `bundle_item(item)`: scans the fields in order; every field whose
   * metadata holds `"key"` rebinds `"key"` to its name.
   */
  method BundleItem(item: Item) returns (meta: map<string, string>)
    ensures meta.Keys <= {"key"}
    ensures "key" in meta <==> exists i | 0 <= i < |item.cls.fields| :: "key" in item.cls.fields[i].metadata
    ensures "key" in meta ==>
              exists j | 0 <= j < |item.cls.fields| ::
                meta["key"] == item.cls.fields[j].name && "key" in item.cls.fields[j].metadata
                && forall k | j < k < |item.cls.fields| :: "key" !in item.cls.fields[k].metadata
    ensures KeyField(item.cls.fields) == if "key" in meta then Some(meta["key"]) else None
  {
    var fields := item.cls.fields;
    meta := map[];
    for i := 0 to |fields|
      invariant meta.Keys <= {"key"}
      invariant KeyField(fields[..i]) == if "key" in meta then Some(meta["key"]) else None
    {
      if "key" in fields[i].metadata {
        meta := meta["key" := fields[i].name];
      }
      assert fields[..i + 1][..i] == fields[..i];
    }
    assert fields[..|fields|] == fields;
    KeyFieldSpec(fields);
  }

  // ---- Read instructions ----

  /** An argument of `MemoryBlob.__call__`: a table name, or a `(table, comparison)` pair. */
  datatype Instruction = Name(name: string) | Compare(table: Handle, comparison: Comparison)

  /** What the instruction loop of `__call__` ends with. */
  datatype Resolution =
    | Resolved(name: string, table: Handle, filtering: seq<Comparison>)
    | Unnamed
    | Failed(error: Error)

  /** The table name an instruction stands for; a table without a name stands for `""`. */
  function Named(x: Instruction): string
  {
    match x
    case Name(n) => n
    case Compare(h, _) => h.name
  }

  /** The table an instruction leaves in `sql_table`. */
  function HandleOf(x: Instruction, meta: map<string, set<string>>): Handle
  {
    match x
    case Name(n) => Handle(n, if n in meta then meta[n] else {})
    case Compare(h, _) => h
  }

  /** The comparisons among the instructions, in order. */
  function Comparisons(ins: seq<Instruction>): seq<Comparison>
  {
    if ins == [] then []
    else (if ins[0].Compare? then [ins[0].comparison] else []) + Comparisons(ins[1..])
  }

  /**
   * The instruction loop from a given point: `previous` is the name seen so
   * far (`""` for none), `table` the current `sql_table`, `filtering` the
   * comparisons collected.
   */
  function ResolveFrom(ins: seq<Instruction>, meta: map<string, set<string>>,
                       previous: string, table: Handle, filtering: seq<Comparison>): Resolution
    decreases |ins|
  {
    if ins == [] then Resolved(previous, table, filtering)
    else match ins[0]
      case Compare(h, c) =>
        if h.name == "" then Unnamed
        else if previous != "" && previous != h.name then Failed(MemoryFilteringError(h.name, previous))
        else ResolveFrom(ins[1..], meta, h.name, h, filtering + [c])
      case Name(n) =>
        if n !in meta then Failed(GeneralMemoryError(NoSuchTable(n)))
        else if previous != "" && previous != n then Failed(MemoryFilteringError(n, previous))
        else ResolveFrom(ins[1..], meta, n, Handle(n, meta[n]), filtering)
  }

  /** The instruction loop of `__call__` over the metadata's tables `meta`. */
  function Resolve(ins: seq<Instruction>, meta: map<string, set<string>>): (r: Resolution)
    ensures ins == [] ==> r == Failed(GeneralMemoryError(NoComparison))
  {
    if ins == [] then Failed(GeneralMemoryError(NoComparison))
    else ResolveFrom(ins, meta, "", Handle("", {}), [])
  }

  /** Every table name is looked up, and every comparison has a named table. */
  predicate Answerable(ins: seq<Instruction>, meta: map<string, set<string>>)
  {
    forall i | 0 <= i < |ins| :: (ins[i].Name? ==> ins[i].name in meta) && (ins[i].Compare? ==> ins[i].table.name != "")
  }

  /** What a resolved read filters by, and on which table. */
  lemma {:induction false} ResolveFromSound(ins: seq<Instruction>, meta: map<string, set<string>>,
                                            previous: string, table: Handle, filtering: seq<Comparison>)
    requires ResolveFrom(ins, meta, previous, table, filtering).Resolved?
    ensures var r := ResolveFrom(ins, meta, previous, table, filtering);
            && r.filtering == filtering + Comparisons(ins)
            && r.table == if ins == [] then table else HandleOf(ins[|ins| - 1], meta)
    decreases |ins|
  {
    if ins != [] {
      match ins[0] {
        case Compare(h, c) =>
          ResolveFromSound(ins[1..], meta, h.name, h, filtering + [c]);
        case Name(n) =>
          ResolveFromSound(ins[1..], meta, n, Handle(n, meta[n]), filtering);
      }
      if |ins| > 1 {
        assert ins[|ins| - 1] == ins[1..][|ins[1..]| - 1];
      }
    }
  }

  /** Which names a resolved read's instructions carry. */
  lemma {:induction false} ResolveFromNames(ins: seq<Instruction>, meta: map<string, set<string>>,
                                            previous: string, table: Handle, filtering: seq<Comparison>)
    requires ResolveFrom(ins, meta, previous, table, filtering).Resolved?
    ensures var r := ResolveFrom(ins, meta, previous, table, filtering);
            && (previous == "" || previous == r.name)
            && (forall i | 0 <= i < |ins| :: Named(ins[i]) == "" || Named(ins[i]) == r.name)
            && (forall i | 0 <= i < |ins| :: ins[i].Name? ==> ins[i].name in meta)
    decreases |ins|
  {
    if ins != [] {
      assert forall i | 1 <= i < |ins| :: ins[i] == ins[1..][i - 1];
      match ins[0] {
        case Compare(h, c) =>
          ResolveFromNames(ins[1..], meta, h.name, h, filtering + [c]);
        case Name(n) =>
          ResolveFromNames(ins[1..], meta, n, Handle(n, meta[n]), filtering);
      }
    }
  }

  /** Instructions that all name one table are accepted, for that table. */
  lemma {:induction false} ResolveFromComplete(ins: seq<Instruction>, meta: map<string, set<string>>, name: string,
                                               previous: string, table: Handle, filtering: seq<Comparison>)
    requires name != "" && (previous == "" || previous == name)
    requires forall i | 0 <= i < |ins| :: Named(ins[i]) == name
    requires Answerable(ins, meta)
    ensures var r := ResolveFrom(ins, meta, previous, table, filtering);
            r.Resolved? && r.name == if ins == [] then previous else name
    decreases |ins|
  {
    if ins != [] {
      assert Named(ins[0]) == name;
      assert forall i | 1 <= i < |ins| :: ins[i] == ins[1..][i - 1];
      match ins[0] {
        case Compare(h, c) =>
          ResolveFromComplete(ins[1..], meta, name, name, h, filtering + [c]);
        case Name(n) =>
          ResolveFromComplete(ins[1..], meta, name, name, Handle(n, meta[n]), filtering);
      }
    }
  }

  lemma {:induction false} ResolveFromAnswerable(ins: seq<Instruction>, meta: map<string, set<string>>,
                                                 previous: string, table: Handle, filtering: seq<Comparison>)
    requires Answerable(ins, meta)
    ensures var r := ResolveFrom(ins, meta, previous, table, filtering);
            r.Resolved? || (r.Failed? && r.error.MemoryFilteringError?)
    decreases |ins|
  {
    if ins != [] {
      assert Answerable(ins[1..], meta) by {
        assert forall i | 1 <= i < |ins| :: ins[i] == ins[1..][i - 1];
      }
      match ins[0]
      case Compare(h, c) =>
        ResolveFromAnswerable(ins[1..], meta, h.name, h, filtering + [c]);
      case Name(n) =>
        ResolveFromAnswerable(ins[1..], meta, n, Handle(n, meta[n]), filtering);
    }
  }

  /**
   * Instructions that all name one table resolve to that table, the last
   * instruction's `sql_table` and all their comparisons in order.
   */
  lemma ResolveComplete(ins: seq<Instruction>, meta: map<string, set<string>>, name: string)
    requires ins != [] && name != ""
    requires forall i | 0 <= i < |ins| :: Named(ins[i]) == name
    requires Answerable(ins, meta)
    ensures Resolve(ins, meta) == Resolved(name, HandleOf(ins[|ins| - 1], meta), Comparisons(ins))
  {
    ResolveFromComplete(ins, meta, name, "", Handle("", {}), []);
    ResolveFromSound(ins, meta, "", Handle("", {}), []);
  }

  /**
   * A resolved read filters by exactly the instructions' comparisons, on the
   * last instruction's table, and every instruction names that table (or,
   * before any name was seen, a table called `""`).
   */
  lemma ResolveSound(ins: seq<Instruction>, meta: map<string, set<string>>)
    requires Resolve(ins, meta).Resolved?
    ensures var r := Resolve(ins, meta);
            && ins != []
            && r.filtering == Comparisons(ins)
            && r.table == HandleOf(ins[|ins| - 1], meta)
            && (forall i | 0 <= i < |ins| :: Named(ins[i]) == "" || Named(ins[i]) == r.name)
            && (forall i | 0 <= i < |ins| :: ins[i].Name? ==> ins[i].name in meta)
  {
    ResolveFromSound(ins, meta, "", Handle("", {}), []);
    ResolveFromNames(ins, meta, "", Handle("", {}), []);
  }

  /** Two instructions naming different tables make the read fail with `MemoryFilteringError`. */
  lemma ResolveMismatch(ins: seq<Instruction>, meta: map<string, set<string>>, i: nat, j: nat)
    requires Answerable(ins, meta)
    requires i < |ins| && j < |ins| && Named(ins[i]) != "" && Named(ins[j]) != "" && Named(ins[i]) != Named(ins[j])
    ensures Resolve(ins, meta).Failed? && Resolve(ins, meta).error.MemoryFilteringError?
  {
    ResolveFromAnswerable(ins, meta, "", Handle("", {}), []);
    if Resolve(ins, meta).Resolved? {
      ResolveSound(ins, meta);
    }
  }

  /** Reading the instructions `a + b` is reading `a`, then carrying on with `b`. */
  lemma {:induction false} ResolveAppend(a: seq<Instruction>, b: seq<Instruction>, meta: map<string, set<string>>,
                                         previous: string, table: Handle, filtering: seq<Comparison>)
    ensures ResolveFrom(a + b, meta, previous, table, filtering)
            == match ResolveFrom(a, meta, previous, table, filtering)
               case Resolved(n, h, f) => ResolveFrom(b, meta, n, h, f)
               case other => other
    decreases |a|
  {
    if a == [] {
      assert a + b == b;
    } else {
      assert (a + b)[0] == a[0];
      assert (a + b)[1..] == a[1..] + b;
      match a[0]
      case Compare(h, c) =>
        ResolveAppend(a[1..], b, meta, h.name, h, filtering + [c]);
      case Name(n) =>
        ResolveAppend(a[1..], b, meta, n, Handle(n, if n in meta then meta[n] else {}), filtering);
    }
  }

  /**
   * A comparison whose table has no name ends the read with no rows, whatever
   * instructions follow it, once the instructions before it were accepted.
   */
  lemma UnnamedStopsTheRead(prefix: seq<Instruction>, rest: seq<Instruction>, meta: map<string, set<string>>,
                            columns: set<string>, c: Comparison)
    requires prefix == [] || Resolve(prefix, meta).Resolved?
    ensures Resolve(prefix + [Compare(Handle("", columns), c)] + rest, meta) == Unnamed
  {
    var unnamed := [Compare(Handle("", columns), c)] + rest;
    assert prefix + [Compare(Handle("", columns), c)] + rest == prefix + unnamed;
    assert unnamed[0] == Compare(Handle("", columns), c);
    ResolveAppend(prefix, unnamed, meta, "", Handle("", {}), []);
  }

  // ---- The store ----

  /**
   * `dir(store)` of a `LoadMemory` (Python 3.11): the names `put` refuses for a
   * new table.
   */
  const StoreAttributes: set<string> := {
    "_LoadMemory__dataclass", "_LoadMemory__engine", "_LoadMemory__metadata", "_LoadMemory__refresh_state",
    "__class__", "__delattr__", "__dict__", "__dir__", "__doc__", "__eq__", "__format__", "__ge__",
    "__getattr__", "__getattribute__", "__getstate__", "__gt__", "__hash__", "__init__", "__init_subclass__",
    "__le__", "__lt__", "__module__", "__ne__", "__new__", "__reduce__", "__reduce_ex__", "__repr__",
    "__setattr__", "__sizeof__", "__str__", "__subclasshook__", "__weakref__",
    "_get_class", "_get_engine", "_get_sql_table", "_put_class",
    "clean_all_data", "delete", "get", "put", "reset", "sync"
  }

  /** Putting the same item twice stores what putting it once stores. */
  lemma PutTwiceStoresOnce(rows: seq<Row>, item: Item)
    ensures var key := KeyField(item.cls.fields);
            UpdateRows(UpdateRows(rows, key, ItemRow(item)), key, ItemRow(item)) == UpdateRows(rows, key, ItemRow(item))
  {
    KeyFieldIsField(item.cls);
    UpdateRowsIdempotent(rows, KeyField(item.cls.fields), ItemRow(item));
  }

  /** The tables a database opened on `stored` holds once its registry is bootstrapped. */
  function Bootstrapped(stored: map<string, Table>): map<string, Table>
  {
    if Registry in stored then stored else stored[Registry := Table(Columns(TableClassDef), [])]
  }

  /**
   * Writing an item into the empty table just created and registered for it
   * leaves that table holding the item's row alone.
   */
  lemma WriteIntoNewTable(tables: map<string, Table>, item: Item, key: Option<string>)
    requires Registry in tables && TableName(item.cls) != Registry
    ensures var t := TableName(item.cls);
            var created := Registered(tables[t := Table(Columns(item.cls), [])], t, item.cls);
            Written(created, t, key, item) == Registered(tables[t := Table(Columns(item.cls), [ItemRow(item)])], t, item.cls)
  {
    assert UpdateRows([], key, ItemRow(item)) == [ItemRow(item)];
  }

  /** A registry table the database already holds has the columns of `TableClass`. */
  predicate RegistryReadable(stored: map<string, Table>)
  {
    Registry in stored ==> FieldNames(TableClassDef) <= stored[Registry].columns
  }

  /** `LoadMemory`: the database path, its engine, the reflected metadata and the registry. */
  class Memory {
    const database: string
    const engine: Engine
    var metadata: Metadata
    var dataclass: Mapper

    /**
     * The metadata reflects the engine's tables, and the registry is bound to
     * this engine with its table in place.
     */
    ghost predicate Valid()
      reads this, engine, metadata, dataclass, dataclass.engine
    {
      && dataclass.engine == engine
      && dataclass.Valid()
      && metadata.tables == Reflected(engine.tables)
    }

    /** `put` refuses table `t`: the registry's name, or a new table named like an attribute of the store. */
    predicate Refused(t: string)
      reads this, metadata
    {
      (t !in metadata.tables || t == Registry) && (t in StoreAttributes || t == Registry)
    }

    /**
     * The store on database `database`, which already holds the tables
     * `stored`: reflects them, then bootstraps the registry.
     */
    constructor (database: string, stored: map<string, Table>)
      requires RegistryReadable(stored)
      ensures Valid()
      ensures this.database == database
      ensures fresh(engine) && engine.tables == Bootstrapped(stored) && engine.migrated == []
      ensures fresh(metadata) && fresh(dataclass) && dataclass.metadata == metadata
    {
      this.database := database;
      var e := new Engine(stored);
      var m := new Metadata();
      m.Reflect(e);
      assert m.tables == Reflected(stored);
      var mapper := new Mapper(e, m);
      assert m.tables == Reflected(e.tables);
      engine := e;
      metadata := m;
      dataclass := mapper;
    }

    /** `__refresh_state`: a new metadata reflected from the engine. */
    method Refresh()
      modifies this
      ensures fresh(metadata) && metadata.tables == Reflected(engine.tables)
      ensures dataclass == old(dataclass)
    {
      var m := new Metadata();
      m.Reflect(engine);
      assert m.tables == Reflected(engine.tables);
      metadata := m;
    }

    /** `_get_sql_table(name)`: the reflected table, or an error when the metadata does not know it. */
    function GetSqlTable(name: string): (r: Result<Handle>)
      reads this, metadata
      ensures r.Ok? <==> name in metadata.tables
      ensures r.Ok? ==> r.value == Handle(name, metadata.tables[name])
      ensures r.Err? ==> r.error == GeneralMemoryError(NoSuchTable(name))
    {
      if name !in metadata.tables then Err(GeneralMemoryError(NoSuchTable(name)))
      else Ok(Handle(name, metadata.tables[name]))
    }

    /**
     * `sync(obj)`: registers `obj` under its table name, then adds its
     * fields to that table, or raises `KeyError` when the metadata does not
     * know the table.
     */
    method Sync(obj: ClassDef) returns (r: Outcome)
      requires Valid()
      modifies this, engine
      ensures Valid() && dataclass == old(dataclass)
      ensures var t := TableName(obj);
              && (r.Fail? <==> t !in old(metadata.tables))
              && (r.Fail? ==> r == Fail(KeyError(t)) && engine.tables == Registered(old(engine.tables), t, obj)
                              && engine.migrated == old(engine.migrated) && metadata == old(metadata))
              && (r.Pass? ==> engine.tables == Widened(Registered(old(engine.tables), t, obj), t, obj)
                              && engine.migrated == old(engine.migrated) + [t])
      ensures dataclass.GetClass(TableName(obj)) == Ok(obj)
      ensures engine.tables.Keys == old(engine.tables).Keys
      ensures forall n | n in engine.tables && n != Registry :: engine.tables[n].rows == old(engine.tables)[n].rows
      ensures r.Pass? ==> FieldNames(obj) <= metadata.tables[TableName(obj)]
    {
      var t := TableName(obj);
      dataclass.PutClass(t, obj);
      if t !in metadata.tables {
        assert Reflected(engine.tables) == Reflected(old(engine.tables));
        return Fail(KeyError(t));
      }
      var table := Handle(t, metadata.tables[t]);
      engine.SyncTable(table, obj);
      Refresh();
      r := Pass;
    }

    /**
     * The new-table branch of `put`: creates the table of `item`'s class,
     * registers the class under the table's name, and refreshes the metadata.
     */
    method CreateTableFor(item: Item)
      requires Valid()
      requires TableName(item.cls) !in metadata.tables && TableName(item.cls) != Registry
      modifies this, engine
      ensures Valid() && dataclass == old(dataclass)
      ensures engine.tables == Registered(old(engine.tables)[TableName(item.cls) := Table(Columns(item.cls), [])],
                                          TableName(item.cls), item.cls)
      ensures dataclass.GetClass(TableName(item.cls)) == Ok(item.cls)
      ensures engine.migrated == old(engine.migrated)
    {
      var t := TableName(item.cls);
      engine.CreateTable(t, item.cls);
      dataclass.PutClass(t, item.cls);
      Refresh();
    }

    /**
     * The `except MemoryOutOfSyncError` branch of `put`: syncs `cls`, then one
     * more `update_item` on the refreshed table `t`, whose error is not caught.
     */
    method SyncAndRewrite(t: string, item: Item, key: Option<string>, cls: ClassDef) returns (r: Outcome)
      requires Valid() && t in metadata.tables && t != Registry
      modifies this, engine
      ensures Valid() && dataclass == old(dataclass)
      ensures t in metadata.tables
      ensures r.Pass? ==> engine.tables[t].rows == UpdateRows(old(engine.tables)[t].rows, key, ItemRow(item))
      ensures r.Fail? ==> engine.tables[t].rows == old(engine.tables)[t].rows
      ensures dataclass.GetClass(TableName(cls)) == Ok(cls)
      ensures var u := TableName(cls);
              u !in old(metadata.tables) ==>
                r == Fail(KeyError(u)) && engine.migrated == old(engine.migrated)
                && engine.tables == Registered(old(engine.tables), u, cls)
      ensures var u := TableName(cls);
              u in old(metadata.tables) ==>
                var synced := Widened(Registered(old(engine.tables), u, cls), u, cls);
                && engine.migrated == old(engine.migrated) + [u]
                && r == (if OutOfSync(Handle(t, metadata.tables[t]), item.cls) then Fail(MemoryOutOfSyncError) else Pass)
                && engine.tables == if r.Pass? then Written(synced, t, key, item) else synced
      ensures TableName(cls) == t && FieldNames(item.cls) <= FieldNames(cls) ==> r == Pass
    {
      r := Sync(cls);
      if r.Fail? {
        return;
      }
      var table := GetSqlTable(t).value;
      r := engine.UpdateItem(table, item, key);
    }

    /**
     * The write of `put` into table `t`: `update_item` on the key field
     * `bundle_item` finds, and on
     * `MemoryOutOfSyncError` one sync of the class registered for `t` and one
     * more `update_item` on the refreshed table, whose error is not caught.
     */
    method WriteRetrying(t: string, item: Item) returns (r: Outcome)
      requires Valid() && t in metadata.tables && t != Registry
      modifies this, engine
      ensures Valid() && dataclass == old(dataclass)
      ensures t in metadata.tables
      ensures r.Pass? ==> engine.tables[t].rows == UpdateRows(old(engine.tables)[t].rows, KeyField(item.cls.fields), ItemRow(item))
      ensures r.Fail? ==> engine.tables[t].rows == old(engine.tables)[t].rows
      ensures !OutOfSync(Handle(t, old(metadata.tables)[t]), item.cls) ==>
                r == Pass && engine.migrated == old(engine.migrated)
                && engine.tables == Written(old(engine.tables), t, KeyField(item.cls.fields), item)
      ensures OutOfSync(Handle(t, old(metadata.tables)[t]), item.cls) ==>
                var registered := old(dataclass.GetClass(t));
                && (registered.Err? ==> r == Fail(registered.error) && engine.tables == old(engine.tables)
                                        && engine.migrated == old(engine.migrated))
                && (registered.Ok? ==> dataclass.GetClass(TableName(registered.value)) == Ok(registered.value))
                && (registered.Ok? && TableName(registered.value) !in old(metadata.tables) ==>
                      r == Fail(KeyError(TableName(registered.value))) && engine.migrated == old(engine.migrated)
                      && engine.tables == Registered(old(engine.tables), TableName(registered.value), registered.value))
                && (registered.Ok? && TableName(registered.value) in old(metadata.tables) ==>
                      var u := TableName(registered.value);
                      var synced := Widened(Registered(old(engine.tables), u, registered.value), u, registered.value);
                      && engine.migrated == old(engine.migrated) + [u]
                      && r == (if OutOfSync(Handle(t, metadata.tables[t]), item.cls) then Fail(MemoryOutOfSyncError) else Pass)
                      && engine.tables == if r.Pass? then Written(synced, t, KeyField(item.cls.fields), item) else synced)
                && (registered.Ok? && TableName(registered.value) == t && FieldNames(item.cls) <= FieldNames(registered.value) ==>
                      r == Pass)
    {
      var meta := BundleItem(item);
      var key := if "key" in meta then Some(meta["key"]) else None;
      var table := GetSqlTable(t).value;
      r := engine.UpdateItem(table, item, key);
      if r.Fail? {
        var registered := dataclass.GetClass(t);
        if registered.Err? {
          return Fail(registered.error);
        }
        r := SyncAndRewrite(t, item, key, registered.value);
      }
    }

    /**
     * `put(item)` of a class whose table does not exist yet: the table is
     * created and the class registered, then the item is written.
     */
    method PutNew(item: Item) returns (r: Outcome)
      requires Valid()
      requires TableName(item.cls) !in metadata.tables && TableName(item.cls) != Registry
      modifies this, engine
      ensures Valid() && dataclass == old(dataclass)
      ensures var t := TableName(item.cls);
              && r == Pass && t in metadata.tables && engine.migrated == old(engine.migrated)
              && engine.tables == Registered(old(engine.tables)[t := Table(Columns(item.cls), [ItemRow(item)])], t, item.cls)
              && dataclass.GetClass(t) == Ok(item.cls)
              && forall other | other != t :: dataclass.GetClass(other) == old(dataclass.GetClass(other))
    {
      var t := TableName(item.cls);
      CreateTableFor(item);
      assert !OutOfSync(Handle(t, metadata.tables[t]), item.cls);
      var meta := BundleItem(item);
      var key := if "key" in meta then Some(meta["key"]) else None;
      // The new table has a column for every field, so this write is never
      // out of sync and the `except` branch of `put` is not reached.
      r := engine.UpdateItem(GetSqlTable(t).value, item, key);
      WriteIntoNewTable(old(engine.tables), item, key);
      assert engine.tables[Registry].rows == PutRows(old(engine.tables)[Registry].rows, t, item.cls);
      forall other | other != t
        ensures dataclass.GetClass(other) == old(dataclass.GetClass(other))
      {
        LookupOtherAfterPut(old(engine.tables)[Registry].rows, t, item.cls, other);
      }
    }

    /**
     * `put(item)`: refuses reserved names; creates and registers the table of a
     * new class; then upserts the item on its key field, and on
     * `MemoryOutOfSyncError` syncs the registered class once and writes once more.
     */
    method Put(item: Item) returns (r: Outcome)
      requires Valid()
      modifies this, engine
      ensures Valid() && dataclass == old(dataclass)
      ensures var t := TableName(item.cls);
              old(Refused(t)) ==>
                r == Fail(GeneralMemoryError(ReservedName(t))) && engine.tables == old(engine.tables)
                && engine.migrated == old(engine.migrated) && metadata == old(metadata)
      ensures var t := TableName(item.cls);
              !old(Refused(t)) ==> t in metadata.tables
      ensures var t := TableName(item.cls);
              !old(Refused(t)) && t !in old(metadata.tables) ==>
                && r == Pass && engine.migrated == old(engine.migrated)
                && engine.tables == Registered(old(engine.tables)[t := Table(Columns(item.cls), [ItemRow(item)])], t, item.cls)
                && dataclass.GetClass(t) == Ok(item.cls)
                && forall other | other != t :: dataclass.GetClass(other) == old(dataclass.GetClass(other))
      ensures var t := TableName(item.cls);
              !old(Refused(t)) && t in old(metadata.tables) && !OutOfSync(Handle(t, old(metadata.tables)[t]), item.cls) ==>
                r == Pass && engine.migrated == old(engine.migrated)
                && engine.tables == Written(old(engine.tables), t, KeyField(item.cls.fields), item)
      ensures var t := TableName(item.cls);
              !old(Refused(t)) && t in old(metadata.tables) && OutOfSync(Handle(t, old(metadata.tables)[t]), item.cls) ==>
                var registered := old(dataclass.GetClass(t));
                && (registered.Err? ==> r == Fail(registered.error) && engine.tables == old(engine.tables)
                                        && engine.migrated == old(engine.migrated))
                && (registered.Ok? ==> dataclass.GetClass(TableName(registered.value)) == Ok(registered.value))
                && (registered.Ok? && TableName(registered.value) !in old(metadata.tables) ==>
                      r == Fail(KeyError(TableName(registered.value))) && engine.migrated == old(engine.migrated)
                      && engine.tables == Registered(old(engine.tables), TableName(registered.value), registered.value))
                && (registered.Ok? && TableName(registered.value) in old(metadata.tables) ==>
                      var u := TableName(registered.value);
                      var synced := Widened(Registered(old(engine.tables), u, registered.value), u, registered.value);
                      && engine.migrated == old(engine.migrated) + [u]
                      && t in metadata.tables
                      && r == (if OutOfSync(Handle(t, metadata.tables[t]), item.cls) then Fail(MemoryOutOfSyncError) else Pass)
                      && engine.tables == if r.Pass? then Written(synced, t, KeyField(item.cls.fields), item) else synced)
                && (registered.Ok? && TableName(registered.value) == t && FieldNames(item.cls) <= FieldNames(registered.value) ==>
                      r == Pass)
    {
      var t := TableName(item.cls);
      if t !in metadata.tables || t == Registry {
        if t in StoreAttributes || t == Registry {
          return Fail(GeneralMemoryError(ReservedName(t)));
        }
        r := PutNew(item);
        return;
      }
      r := WriteRetrying(t, item);
    }

    /**
     * `delete(item)`: removes the rows that agree with the item on each of its
     * fields from its table, or raises when the metadata does not know the
     * table. An out-of-sync table is not retried.
     */
    method Delete(item: Item) returns (r: Outcome)
      requires Valid()
      modifies engine
      ensures Valid()
      ensures engine.migrated == old(engine.migrated)
      ensures var t := TableName(item.cls);
              (r == Fail(GeneralMemoryError(CannotDelete(t))) <==> t !in metadata.tables)
      ensures var t := TableName(item.cls);
              t !in metadata.tables ==> engine.tables == old(engine.tables)
      ensures var t := TableName(item.cls);
              t in metadata.tables ==>
                && r == (if OutOfSync(Handle(t, metadata.tables[t]), item.cls) then Fail(MemoryOutOfSyncError) else Pass)
                && (r.Fail? ==> engine.tables == old(engine.tables))
                && (r.Pass? ==> engine.tables == old(engine.tables)[t := Table(old(engine.tables)[t].columns,
                                                                              Without(old(engine.tables)[t].rows, ItemRow(item)))])
    {
      var t := TableName(item.cls);
      if t !in metadata.tables {
        return Fail(GeneralMemoryError(CannotDelete(t)));
      }
      var table := Handle(t, metadata.tables[t]);
      r := engine.DeleteItem(table, item);
    }

    /** `reset()`: drops every table; the registry is bootstrapped afresh, empty. */
    method Reset()
      requires Valid()
      modifies this, engine, metadata
      ensures Valid()
      ensures engine.tables == map[Registry := Table(Columns(TableClassDef), [])]
      ensures engine.migrated == old(engine.migrated)
      ensures metadata == old(metadata) && fresh(dataclass) && dataclass.metadata == metadata
      ensures forall t :: dataclass.GetClass(t) == Err(AttributeError("classload"))
    {
      metadata.DropAll(engine, metadata.tables.Keys);
      assert engine.tables == map[];
      metadata.Clear();
      dataclass := new Mapper(engine, metadata);
    }

    /**
     * `clean_all_data()`: drops every table but the registry and creates them
     * again, empty and with the columns the metadata knows.
     */
    method CleanAllData()
      requires Valid()
      modifies engine
      ensures Valid()
      ensures engine.tables.Keys == old(engine.tables).Keys
      ensures engine.tables[Registry] == old(engine.tables)[Registry]
      ensures forall n | n in engine.tables && n != Registry :: engine.tables[n] == Table(old(engine.tables)[n].columns, [])
      ensures forall t :: dataclass.GetClass(t) == old(dataclass.GetClass(t))
      ensures engine.migrated == old(engine.migrated)
    {
      var toDrop := metadata.tables.Keys - {Registry};
      metadata.DropAll(engine, toDrop);
      metadata.CreateAll(engine);
      assert engine.tables.Keys == old(engine.tables).Keys;
    }

    /**
     * `MemoryBlob.__getter(name, **kw)`: the most recent row of table `name`
     * matching `pattern`, read as its registered class; on
     * `MemoryOutOfSyncError` the class is synced once and the read is made
     * once more on the refreshed table.
     */
    method GetNamed(name: string, pattern: Row) returns (r: Result<Option<Item>>)
      requires Valid()
      modifies this, engine
      ensures Valid() && dataclass == old(dataclass)
      ensures old(GetSqlTable(name)).Err? ==>
                r == Err(old(GetSqlTable(name)).error)
                && engine.tables == old(engine.tables) && engine.migrated == old(engine.migrated) && metadata == old(metadata)
      ensures old(GetSqlTable(name)).Ok? && old(dataclass.GetClass(name)).Err? ==>
                r == Err(old(dataclass.GetClass(name)).error)
                && engine.tables == old(engine.tables) && engine.migrated == old(engine.migrated) && metadata == old(metadata)
      ensures old(GetSqlTable(name)).Ok? && old(dataclass.GetClass(name)).Ok? ==>
                var table := old(GetSqlTable(name)).value;
                var cls := old(dataclass.GetClass(name)).value;
                && (!OutOfSync(table, cls) ==>
                      r == old(engine.GetItem(table, cls, pattern))
                      && engine.tables == old(engine.tables) && engine.migrated == old(engine.migrated) && metadata == old(metadata))
                && (OutOfSync(table, cls) ==> dataclass.GetClass(TableName(cls)) == Ok(cls))
                && (OutOfSync(table, cls) && TableName(cls) !in old(metadata.tables) ==>
                      r == Err(KeyError(TableName(cls))) && engine.migrated == old(engine.migrated)
                      && engine.tables == Registered(old(engine.tables), TableName(cls), cls))
                && (OutOfSync(table, cls) && TableName(cls) in old(metadata.tables) ==>
                      && engine.migrated == old(engine.migrated) + [TableName(cls)]
                      && engine.tables == Widened(Registered(old(engine.tables), TableName(cls), cls), TableName(cls), cls)
                      && name in metadata.tables
                      && r == engine.GetItem(Handle(name, metadata.tables[name]), cls, pattern))
                && (OutOfSync(table, cls) && TableName(cls) == name ==> r.Ok?)
    {
      var table := GetSqlTable(name);
      if table.Err? {
        return Err(table.error);
      }
      var cls := dataclass.GetClass(name);
      if cls.Err? {
        return Err(cls.error);
      }
      r := engine.GetItem(table.value, cls.value, pattern);
      if r == Err(MemoryOutOfSyncError) {
        var synced := Sync(cls.value);
        if synced.Fail? {
          return Err(synced.error);
        }
        table := GetSqlTable(name);
        r := engine.GetItem(table.value, cls.value, pattern);
      }
    }

    /** The instruction loop of `MemoryBlob.__call__`. */
    method ResolveInstructions(instructions: seq<Instruction>) returns (r: Resolution)
      ensures r == Resolve(instructions, metadata.tables)
    {
      if |instructions| == 0 {
        return Failed(GeneralMemoryError(NoComparison));
      }
      var filtering: seq<Comparison> := [];
      var previous := "";
      var table := Handle("", {});
      for i := 0 to |instructions|
        invariant Resolve(instructions, metadata.tables)
                  == ResolveFrom(instructions[i..], metadata.tables, previous, table, filtering)
      {
        assert instructions[i..][0] == instructions[i] && instructions[i..][1..] == instructions[i + 1..];
        var name: string;
        match instructions[i] {
          case Compare(h, c) =>
            if h.name == "" {
              return Unnamed;
            }
            filtering := filtering + [c];
            name := h.name;
            table := h;
          case Name(n) =>
            var found := GetSqlTable(n);
            if found.Err? {
              return Failed(found.error);
            }
            name := n;
            table := found.value;
        }
        if previous != "" && previous != name {
          return Failed(MemoryFilteringError(name, previous));
        }
        previous := name;
      }
      return Resolved(previous, table, filtering);
    }

    /**
     * `MemoryBlob.__call__(*instructions, **kw)`: the rows of the one table the
     * instructions name that pass their comparisons and match `pattern`, read
     * as its registered class; on `MemoryOutOfSyncError` the class is synced once
     * and the read is made once more on the refreshed table.
     */
    method Get(instructions: seq<Instruction>, pattern: Row) returns (r: Result<seq<Item>>)
      requires Valid()
      modifies this, engine
      ensures Valid() && dataclass == old(dataclass)
      ensures var res := Resolve(instructions, old(metadata.tables));
              !(res.Resolved? && old(dataclass.GetClass(res.name)).Ok? && OutOfSync(res.table, old(dataclass.GetClass(res.name)).value)) ==>
                engine.tables == old(engine.tables) && engine.migrated == old(engine.migrated) && metadata == old(metadata)
      ensures instructions == [] ==> r == Err(GeneralMemoryError(NoComparison))
      ensures var res := Resolve(instructions, old(metadata.tables));
              && (res.Failed? ==> r == Err(res.error))
              && (res.Unnamed? ==> r == Ok([]))
              && (res.Resolved? && old(dataclass.GetClass(res.name)).Err? ==> r == Err(old(dataclass.GetClass(res.name)).error))
      ensures var res := Resolve(instructions, old(metadata.tables));
              res.Resolved? && old(dataclass.GetClass(res.name)).Ok? ==>
                var cls := old(dataclass.GetClass(res.name)).value;
                && (!OutOfSync(res.table, cls) ==> r == old(engine.GetList(res.table, cls, res.filtering, pattern)))
                && (OutOfSync(res.table, cls) ==> dataclass.GetClass(TableName(cls)) == Ok(cls))
                && (OutOfSync(res.table, cls) && TableName(cls) !in old(metadata.tables) ==>
                      r == Err(KeyError(TableName(cls))) && engine.migrated == old(engine.migrated)
                      && engine.tables == Registered(old(engine.tables), TableName(cls), cls))
                && (OutOfSync(res.table, cls) && TableName(cls) in old(metadata.tables) ==>
                      && engine.migrated == old(engine.migrated) + [TableName(cls)]
                      && engine.tables == Widened(Registered(old(engine.tables), TableName(cls), cls), TableName(cls), cls)
                      && (res.name !in metadata.tables ==> r == Err(GeneralMemoryError(NoSuchTable(res.name))))
                      && (res.name in metadata.tables ==>
                            r == engine.GetList(Handle(res.name, metadata.tables[res.name]), cls, res.filtering, pattern)))
                && (OutOfSync(res.table, cls) && TableName(cls) == res.name && res.name in old(metadata.tables) ==> r.Ok?)
    {
      var res := ResolveInstructions(instructions);
      match res {
        case Failed(e) =>
          return Err(e);
        case Unnamed =>
          return Ok([]);
        case Resolved(name, table, filtering) =>
          var cls := dataclass.GetClass(name);
          if cls.Err? {
            return Err(cls.error);
          }
          r := engine.GetList(table, cls.value, filtering, pattern);
          if r == Err(MemoryOutOfSyncError) {
            var synced := Sync(cls.value);
            if synced.Fail? {
              return Err(synced.error);
            }
            var refreshed := GetSqlTable(name);
            if refreshed.Err? {
              return Err(refreshed.error);
            }
            r := engine.GetList(refreshed.value, cls.value, filtering, pattern);
          }
      }
    }
  }

  /**
   * `LoadMemory(url)`: the store on the database the url names, or the error
   * the scheme check or `assert_path` raises. `stored` is what that database
   * already holds.
   */
  method Open(url: string, parse: string -> Url, fs: FileSystem, stored: map<string, Table>) returns (r: Result<Memory>)
    requires RegistryReadable(stored)
    ensures r.Err? <==> DatabasePath(url, parse, fs).Err?
    ensures r.Err? ==> r.error == DatabasePath(url, parse, fs).error
    ensures r.Ok? ==> && fresh(r.value) && r.value.Valid()
                      && r.value.database == DatabasePath(url, parse, fs).value
                      && r.value.engine.tables == Bootstrapped(stored)
  {
    var path := DatabasePath(url, parse, fs);
    if path.Err? {
      return Err(path.error);
    }
    var memory := new Memory(path.value, stored);
    return Ok(memory);
  }
}
