/**
 * The database underneath the store: an engine holding named tables, the
 * reflected metadata cache, and the row operations of `membank.datamethods`.
 *
 * `membank.datamethods` is not part of this model; its operations are given
 * here the behaviour their call sites rely on: `update_item` with a key is an
 * upsert, `sync_table` adds the class's fields to the table's columns, and a
 * read or write whose dataclass has a field the reflected table lacks raises
 * `MemoryOutOfSyncError`.
 */
module Storage {
  import opened Errors
  import opened Records

  /** A table as the engine holds it: its columns and its rows in insertion order. */
  datatype Table = Table(columns: set<string>, rows: seq<Row>)

  /** A reflected `sqlalchemy.Table`: its name and the columns it had when reflected. */
  datatype Handle = Handle(name: string, columns: set<string>)

  datatype Op = Eq | Ne | Lt | Le | Gt | Ge

  /** A filter built by `FilterOperator`: `column op operand`. */
  datatype Comparison = Comparison(column: string, op: Op, operand: Value)

  predicate Compares(v: Value, op: Op, w: Value)
  {
    match op
    case Eq => v == w
    case Ne => v != w
    case Lt => v.Number? && w.Number? && v.number < w.number
    case Le => v.Number? && w.Number? && v.number <= w.number
    case Gt => v.Number? && w.Number? && v.number > w.number
    case Ge => v.Number? && w.Number? && v.number >= w.number
  }

  predicate Holds(c: Comparison, row: Row)
  {
    c.column in row && Compares(row[c.column], c.op, c.operand)
  }

  /** What `MetaData.reflect` reads from an engine: each table's name and columns. */
  function Reflected(tables: map<string, Table>): map<string, set<string>>
  {
    map n | n in tables :: tables[n].columns
  }

  /** The columns `create_table` gives a dataclass: one per field, plus `id` when no field is the key. */
  function Columns(cls: ClassDef): set<string>
  {
    FieldNames(cls) + (if KeyField(cls.fields).None? then {"id"} else {})
  }

  /** The dataclass has a field the reflected table lacks: the table has drifted from the class. */
  predicate OutOfSync(h: Handle, cls: ClassDef)
  {
    !(FieldNames(cls) <= h.columns)
  }

  /** `row` holds every column of `pattern` with the same value. */
  predicate Matches(row: Row, pattern: Row)
  {
    forall k | k in pattern :: k in row && row[k] == pattern[k]
  }

  predicate SameKey(row: Row, key: string, v: Value)
  {
    key in row && row[key] == v
  }

  /** The most recent row matching `pattern`. */
  function Find(rows: seq<Row>, pattern: Row): Option<Row>
    decreases |rows|
  {
    if rows == [] then None
    else if Matches(rows[|rows| - 1], pattern) then Some(rows[|rows| - 1])
    else Find(rows[..|rows| - 1], pattern)
  }

  /** `row` matches `pattern` and passes every comparison. */
  predicate Passes(row: Row, filters: seq<Comparison>, pattern: Row)
  {
    Matches(row, pattern) && forall i | 0 <= i < |filters| :: Holds(filters[i], row)
  }

  /** No row matches `pattern`. */
  predicate NoMatch(rows: seq<Row>, pattern: Row)
  {
    forall i | 0 <= i < |rows| :: !Matches(rows[i], pattern)
  }

  /** `rows[i]` is the last row matching `pattern`. */
  predicate LastMatch(rows: seq<Row>, pattern: Row, i: int)
  {
    0 <= i < |rows| && Matches(rows[i], pattern) && forall k | i < k < |rows| :: !Matches(rows[k], pattern)
  }

  /** The rows matching `pattern` and every comparison, in insertion order. */
  function Select(rows: seq<Row>, filters: seq<Comparison>, pattern: Row): seq<Row>
  {
    if rows == [] then []
    else
      (if Passes(rows[0], filters, pattern) then [rows[0]] else []) + Select(rows[1..], filters, pattern)
  }

  /** Every row with the key value of `row` replaced by `row`. */
  function Replace(rows: seq<Row>, key: string, row: Row): seq<Row>
    requires key in row
  {
    seq(|rows|, i requires 0 <= i < |rows| => if SameKey(rows[i], key, row[key]) then row else rows[i])
  }

  /** An update of the rows with the key of `row`, or an insert of `row` when there is none. */
  function Upsert(rows: seq<Row>, key: string, row: Row): seq<Row>
  {
    if key in row && exists i | 0 <= i < |rows| :: SameKey(rows[i], key, row[key])
    then Replace(rows, key, row)
    else rows + [row]
  }

  /**
   * `update_item(table, engine, item, key)`: an upsert on `key`; without a key the
   * record's identity is its content, so a row already stored is not stored twice.
   */
  function UpdateRows(rows: seq<Row>, key: Option<string>, row: Row): seq<Row>
  {
    match key
    case Some(k) => Upsert(rows, k, row)
    case None => if row in rows then rows else rows + [row]
  }

  /** `delete_item`: the rows that do not match `pattern`. */
  function Without(rows: seq<Row>, pattern: Row): seq<Row>
  {
    if rows == [] then []
    else (if Matches(rows[0], pattern) then [] else [rows[0]]) + Without(rows[1..], pattern)
  }

  function Count(rows: seq<Row>, key: string, v: Value): nat
  {
    if rows == [] then 0 else (if SameKey(rows[0], key, v) then 1 else 0) + Count(rows[1..], key, v)
  }

  function DecodeAll(rows: seq<Row>, cls: ClassDef): seq<Item>
  {
    seq(|rows|, i requires 0 <= i < |rows| => Decode(rows[i], cls))
  }

  /** The tables once `update_item` has written `item` into table `name` on `key`. */
  function Written(tables: map<string, Table>, name: string, key: Option<string>, item: Item): map<string, Table>
    requires name in tables
  {
    tables[name := Table(tables[name].columns, UpdateRows(tables[name].rows, key, ItemRow(item)))]
  }

  /** The tables once `sync_table` has given table `name` the fields of `cls` as columns. */
  function Widened(tables: map<string, Table>, name: string, cls: ClassDef): map<string, Table>
    requires name in tables
  {
    tables[name := Table(tables[name].columns + FieldNames(cls), tables[name].rows)]
  }

  /** `MetaData.create_all`: every table of the metadata the engine lacks is created empty. */
  function CreateMissing(tables: map<string, Table>, meta: map<string, set<string>>): map<string, Table>
  {
    map n | n in tables.Keys + meta.Keys :: if n in tables then tables[n] else Table(meta[n], [])
  }

  // ---- Properties of the row operations ----

  /** Reflection sees columns only: replacing a table's rows leaves it unchanged. */
  lemma ReflectedIgnoresRows(tables: map<string, Table>, name: string, rows: seq<Row>)
    requires name in tables
    ensures Reflected(tables[name := Table(tables[name].columns, rows)]) == Reflected(tables)
  {
  }


  /** `Find` returns a matching row of the table, and nothing only when no row matches. */
  lemma {:induction false} FindSpec(rows: seq<Row>, pattern: Row)
    ensures Find(rows, pattern).Some? ==>
              Find(rows, pattern).value in rows && Matches(Find(rows, pattern).value, pattern)
    ensures Find(rows, pattern).None? <==> forall i | 0 <= i < |rows| :: !Matches(rows[i], pattern)
    decreases |rows|
  {
    if rows != [] {
      var init := rows[..|rows| - 1];
      FindSpec(init, pattern);
      assert forall i | 0 <= i < |init| :: init[i] == rows[i];
      if !Matches(rows[|rows| - 1], pattern) && Find(init, pattern).Some? {
        assert Find(init, pattern).value in rows;
      }
    }
  }

  /** The row `Find` returns is the last stored row matching `pattern`. */
  lemma {:induction false} FindLast(rows: seq<Row>, pattern: Row)
    ensures Find(rows, pattern).Some? ==>
              exists i | 0 <= i < |rows| ::
                rows[i] == Find(rows, pattern).value && Matches(rows[i], pattern)
                && forall k | i < k < |rows| :: !Matches(rows[k], pattern)
    decreases |rows|
  {
    if rows != [] && !Matches(rows[|rows| - 1], pattern) {
      var init := rows[..|rows| - 1];
      FindLast(init, pattern);
      if Find(init, pattern).Some? {
        var i :| 0 <= i < |init| && init[i] == Find(init, pattern).value && Matches(init[i], pattern)
                 && forall k | i < k < |init| :: !Matches(init[k], pattern);
        assert rows[i] == init[i];
        assert forall k | i < k < |rows| - 1 :: rows[k] == init[k];
      }
    }
  }

  lemma KeyPattern(row: Row, key: string, v: Value)
    ensures Matches(row, map[key := v]) <==> SameKey(row, key, v)
  {
  }

  /** After an upsert, looking the key up finds exactly the row upserted. */
  lemma FindAfterUpsert(rows: seq<Row>, key: string, row: Row)
    requires key in row
    ensures Find(Upsert(rows, key, row), map[key := row[key]]) == Some(row)
  {
    var pattern := map[key := row[key]];
    var after := Upsert(rows, key, row);
    KeyPattern(row, key, row[key]);
    if exists i | 0 <= i < |rows| :: SameKey(rows[i], key, row[key]) {
      var i :| 0 <= i < |rows| && SameKey(rows[i], key, row[key]);
      assert after[i] == row;
      FindSpec(after, pattern);
      var found := Find(after, pattern).value;
      var j :| 0 <= j < |after| && after[j] == found;
      KeyPattern(rows[j], key, row[key]);
      KeyPattern(found, key, row[key]);
    } else {
      assert after[..|after| - 1] == rows;
    }
  }

  lemma {:induction false} FindReplaced(rows: seq<Row>, key: string, row: Row, v: Value)
    requires key in row && v != row[key]
    ensures Find(Replace(rows, key, row), map[key := v]) == Find(rows, map[key := v])
    decreases |rows|
  {
    if rows != [] {
      var init := rows[..|rows| - 1];
      var replaced := Replace(rows, key, row);
      assert replaced[..|replaced| - 1] == Replace(init, key, row);
      KeyPattern(rows[|rows| - 1], key, v);
      KeyPattern(row, key, v);
      KeyPattern(replaced[|replaced| - 1], key, v);
      FindReplaced(init, key, row, v);
    }
  }

  /** An upsert leaves the lookup of every other key value unchanged. */
  lemma FindOtherAfterUpsert(rows: seq<Row>, key: string, row: Row, v: Value)
    requires key in row && v != row[key]
    ensures Find(Upsert(rows, key, row), map[key := v]) == Find(rows, map[key := v])
  {
    if exists i | 0 <= i < |rows| :: SameKey(rows[i], key, row[key]) {
      FindReplaced(rows, key, row, v);
    } else {
      var after := rows + [row];
      KeyPattern(row, key, v);
      assert after[..|after| - 1] == rows;
    }
  }

  /** Upserting the same row twice stores what upserting it once stores. */
  lemma UpsertIdempotent(rows: seq<Row>, key: string, row: Row)
    requires key in row
    ensures Upsert(Upsert(rows, key, row), key, row) == Upsert(rows, key, row)
  {
    var once := Upsert(rows, key, row);
    assert SameKey(row, key, row[key]);
    if exists i | 0 <= i < |rows| :: SameKey(rows[i], key, row[key]) {
      var i :| 0 <= i < |rows| && SameKey(rows[i], key, row[key]);
      assert SameKey(once[i], key, row[key]);
      assert Replace(once, key, row) == once;
    } else {
      assert SameKey(once[|rows|], key, row[key]);
      assert Replace(once, key, row) == once;
    }
  }

  /** `update_item` is idempotent: writing the same item twice stores what writing it once stores. */
  lemma UpdateRowsIdempotent(rows: seq<Row>, key: Option<string>, row: Row)
    requires key.Some? ==> key.value in row
    ensures UpdateRows(UpdateRows(rows, key, row), key, row) == UpdateRows(rows, key, row)
  {
    match key
    case Some(k) => UpsertIdempotent(rows, k, row);
    case None =>
  }

  lemma {:induction false} CountReplaced(rows: seq<Row>, key: string, row: Row)
    requires key in row
    ensures Count(Replace(rows, key, row), key, row[key]) == Count(rows, key, row[key])
    decreases |rows|
  {
    if rows != [] {
      assert Replace(rows, key, row)[1..] == Replace(rows[1..], key, row);
      CountReplaced(rows[1..], key, row);
    }
  }

  lemma {:induction false} CountAppend(rows: seq<Row>, row: Row, key: string, v: Value)
    ensures Count(rows + [row], key, v) == Count(rows, key, v) + (if SameKey(row, key, v) then 1 else 0)
    decreases |rows|
  {
    if rows != [] {
      assert (rows + [row])[1..] == rows[1..] + [row];
      CountAppend(rows[1..], row, key, v);
    } else {
      assert ([] + [row])[1..] == [];
    }
  }

  lemma {:induction false} CountZero(rows: seq<Row>, key: string, v: Value)
    requires forall i | 0 <= i < |rows| :: !SameKey(rows[i], key, v)
    ensures Count(rows, key, v) == 0
    decreases |rows|
  {
    if rows != [] {
      CountZero(rows[1..], key, v);
    }
  }

  /** A key held by at most one row is held by exactly one row after an upsert on it. */
  lemma UpsertKeepsOneRow(rows: seq<Row>, key: string, row: Row)
    requires key in row && Count(rows, key, row[key]) <= 1
    ensures Count(Upsert(rows, key, row), key, row[key]) == 1
  {
    if exists i | 0 <= i < |rows| :: SameKey(rows[i], key, row[key]) {
      CountReplaced(rows, key, row);
      CountPositive(rows, key, row[key]);
    } else {
      CountZero(rows, key, row[key]);
      CountAppend(rows, row, key, row[key]);
    }
  }

  lemma {:induction false} CountPositive(rows: seq<Row>, key: string, v: Value)
    requires exists i | 0 <= i < |rows| :: SameKey(rows[i], key, v)
    ensures Count(rows, key, v) >= 1
    decreases |rows|
  {
    if !SameKey(rows[0], key, v) {
      var i :| 0 <= i < |rows| && SameKey(rows[i], key, v);
      assert SameKey(rows[1..][i - 1], key, v);
      CountPositive(rows[1..], key, v);
    }
  }

  /** Selecting from `a + b` selects from `a`, then from `b`: the selection keeps insertion order. */
  lemma {:induction false} SelectAppend(a: seq<Row>, b: seq<Row>, filters: seq<Comparison>, pattern: Row)
    ensures Select(a + b, filters, pattern) == Select(a, filters, pattern) + Select(b, filters, pattern)
    decreases |a|
  {
    if a == [] {
      assert a + b == b;
    } else {
      assert (a + b)[0] == a[0];
      assert (a + b)[1..] == a[1..] + b;
      SelectAppend(a[1..], b, filters, pattern);
    }
  }

  /** The rows `delete_item` keeps are exactly the stored rows that do not match. */
  lemma {:induction false} WithoutSpec(rows: seq<Row>, pattern: Row, x: Row)
    ensures x in Without(rows, pattern) <==> x in rows && !Matches(x, pattern)
    decreases |rows|
  {
    if rows != [] {
      WithoutSpec(rows[1..], pattern, x);
      assert rows == [rows[0]] + rows[1..];
    }
  }

  /** The rows a list returns are exactly the stored rows that pass every filter. */
  lemma {:induction false} SelectSpec(rows: seq<Row>, filters: seq<Comparison>, pattern: Row, x: Row)
    ensures x in Select(rows, filters, pattern) <==>
              x in rows && Matches(x, pattern) && forall i | 0 <= i < |filters| :: Holds(filters[i], x)
    decreases |rows|
  {
    if rows != [] {
      SelectSpec(rows[1..], filters, pattern, x);
      assert rows == [rows[0]] + rows[1..];
    }
  }

  /**
   * The database engine: its tables by name. `migrated` records, in order, the
   * tables `sync_table` has been applied to.
   */
  class Engine {
    var tables: map<string, Table>
    ghost var migrated: seq<string>

    constructor (stored: map<string, Table>)
      ensures tables == stored && migrated == []
    {
      tables := stored;
      migrated := [];
    }

    /** `create_table(name, cls, engine)`: a new empty table with the class's columns. */
    method CreateTable(name: string, cls: ClassDef)
      requires name !in tables
      modifies this
      ensures tables == old(tables)[name := Table(Columns(cls), [])]
      ensures migrated == old(migrated)
    {
      tables := tables[name := Table(Columns(cls), [])];
    }

    /** `update_item(h, engine, item, key)`. */
    method UpdateItem(h: Handle, item: Item, key: Option<string>) returns (r: Outcome)
      requires h.name in tables
      modifies this
      ensures r == (if OutOfSync(h, item.cls) then Fail(MemoryOutOfSyncError) else Pass)
      ensures r.Fail? ==> tables == old(tables)
      ensures r.Pass? ==> tables == Written(old(tables), h.name, key, item)
      ensures migrated == old(migrated)
      ensures Reflected(tables) == Reflected(old(tables))
    {
      if OutOfSync(h, item.cls) {
        return Fail(MemoryOutOfSyncError);
      }
      var t := tables[h.name];
      ReflectedIgnoresRows(tables, h.name, UpdateRows(t.rows, key, ItemRow(item)));
      tables := tables[h.name := Table(t.columns, UpdateRows(t.rows, key, ItemRow(item)))];
      r := Pass;
    }

    /** `get_item(h, engine, cls, **pattern)`: the most recent matching row as an instance of `cls`. */
    function GetItem(h: Handle, cls: ClassDef, pattern: Row): (r: Result<Option<Item>>)
      reads this
      ensures r == Err(MemoryOutOfSyncError) <==> OutOfSync(h, cls)
      ensures !OutOfSync(h, cls) && h.name !in tables ==> r == Err(OperationalError(h.name))
    {
      if OutOfSync(h, cls) then Err(MemoryOutOfSyncError)
      else if h.name !in tables then Err(OperationalError(h.name))
      else match Find(tables[h.name].rows, pattern)
        case None => Ok(None)
        case Some(row) => Ok(Some(Decode(row, cls)))
    }

    /** `get_list(h, engine, cls, *filters, **pattern)`: the matching rows as instances of `cls`. */
    function GetList(h: Handle, cls: ClassDef, filters: seq<Comparison>, pattern: Row): (r: Result<seq<Item>>)
      reads this
      ensures r == Err(MemoryOutOfSyncError) <==> OutOfSync(h, cls)
      ensures !OutOfSync(h, cls) && h.name !in tables ==> r == Err(OperationalError(h.name))
      ensures !OutOfSync(h, cls) && h.name in tables ==>
                var rows := tables[h.name].rows;
                && r.Ok?
                && (forall x | x in rows && Passes(x, filters, pattern) :: Decode(x, cls) in r.value)
                && (forall y | y in r.value :: exists x | x in rows && Passes(x, filters, pattern) :: y == Decode(x, cls))
    {
      if OutOfSync(h, cls) then Err(MemoryOutOfSyncError)
      else if h.name !in tables then Err(OperationalError(h.name))
      else
        var selected := Select(tables[h.name].rows, filters, pattern);
        assert forall x | x in tables[h.name].rows && Passes(x, filters, pattern) :: x in selected by {
          forall x | x in tables[h.name].rows && Passes(x, filters, pattern) ensures x in selected {
            SelectSpec(tables[h.name].rows, filters, pattern, x);
          }
        }
        assert forall x | x in selected :: x in tables[h.name].rows && Passes(x, filters, pattern) by {
          forall x | x in selected ensures x in tables[h.name].rows && Passes(x, filters, pattern) {
            SelectSpec(tables[h.name].rows, filters, pattern, x);
          }
        }
        var items := DecodeAll(selected, cls);
        assert forall x | x in selected :: Decode(x, cls) in items by {
          forall x | x in selected ensures Decode(x, cls) in items {
            var i :| 0 <= i < |selected| && selected[i] == x;
            assert items[i] == Decode(x, cls);
          }
        }
        assert forall y | y in items :: exists x | x in selected :: y == Decode(x, cls) by {
          forall y | y in items ensures exists x | x in selected :: y == Decode(x, cls) {
            var i :| 0 <= i < |items| && items[i] == y;
            assert selected[i] in selected;
          }
        }
        Ok(items)
    }

    /** `delete_item(h, engine, **asdict(item))`: removes the rows that agree with the item. */
    method DeleteItem(h: Handle, item: Item) returns (r: Outcome)
      requires h.name in tables
      modifies this
      ensures r == (if OutOfSync(h, item.cls) then Fail(MemoryOutOfSyncError) else Pass)
      ensures r.Fail? ==> tables == old(tables)
      ensures r.Pass? ==> tables == old(tables)[h.name := Table(old(tables)[h.name].columns,
                                                               Without(old(tables)[h.name].rows, ItemRow(item)))]
      ensures migrated == old(migrated)
      ensures Reflected(tables) == Reflected(old(tables))
    {
      if OutOfSync(h, item.cls) {
        return Fail(MemoryOutOfSyncError);
      }
      var t := tables[h.name];
      ReflectedIgnoresRows(tables, h.name, Without(t.rows, ItemRow(item)));
      tables := tables[h.name := Table(t.columns, Without(t.rows, ItemRow(item)))];
      r := Pass;
    }

    /** `sync_table(h, engine, cls)`: the table gains the class's missing columns; rows are kept. */
    method SyncTable(h: Handle, cls: ClassDef)
      requires h.name in tables
      modifies this
      ensures tables == Widened(old(tables), h.name, cls)
      ensures migrated == old(migrated) + [h.name]
    {
      var t := tables[h.name];
      tables := tables[h.name := Table(t.columns + FieldNames(cls), t.rows)];
      migrated := migrated + [h.name];
    }
  }

  /**
   * `get_item` on a table in sync with `cls`: the last row matching `pattern`,
   * read as `cls`, or nothing exactly when no row matches.
   */
  lemma GetItemLatest(engine: Engine, h: Handle, cls: ClassDef, pattern: Row)
    requires !OutOfSync(h, cls) && h.name in engine.tables
    ensures var r := engine.GetItem(h, cls, pattern);
            var rows := engine.tables[h.name].rows;
            && r.Ok?
            && (r.value.None? <==> NoMatch(rows, pattern))
            && (r.value.Some? ==> exists i | LastMatch(rows, pattern, i) :: r.value.value == Decode(rows[i], cls))
  {
    FindSpec(engine.tables[h.name].rows, pattern);
    FindLast(engine.tables[h.name].rows, pattern);
  }

  /** An `sqlalchemy.MetaData`: the tables it has reflected, by name, with their columns. */
  class Metadata {
    var tables: map<string, set<string>>

    constructor ()
      ensures tables == map[]
    {
      tables := map[];
    }

    /** `reflect(bind=engine)`: adds the engine's tables; tables already known are kept as they are. */
    method Reflect(engine: Engine)
      modifies this
      ensures tables == Reflected(engine.tables) + old(tables)
    {
      tables := Reflected(engine.tables) + tables;
    }

    /** `clear()`. */
    method Clear()
      modifies this
      ensures tables == map[]
    {
      tables := map[];
    }

    /** `drop_all(bind=engine, tables=names)`: drops the named tables the engine holds. */
    method DropAll(engine: Engine, names: set<string>)
      modifies engine
      ensures engine.tables == old(engine.tables) - names
      ensures engine.migrated == old(engine.migrated)
    {
      engine.tables := engine.tables - names;
    }

    /** `create_all(bind=engine)`: creates, empty, every known table the engine lacks. */
    method CreateAll(engine: Engine)
      modifies engine
      ensures engine.tables == CreateMissing(old(engine.tables), tables)
      ensures engine.migrated == old(engine.migrated)
    {
      engine.tables := CreateMissing(engine.tables, tables);
    }
  }
}
