/**
 * The schema registry: a reserved table `__meta_dataclasses__` that maps each
 * table name to the serialised dataclass stored in it.
 */
module DataMapper {
  import opened Errors
  import opened Records
  import opened Storage
  import Pickle

  /** The name of the registry's own table. */
  const Registry: string := "__meta_dataclasses__"

  /** The dataclass of a registry row: `table: str = ""` and `classload: bytes = b""`. */
  const TableClassDef: ClassDef := ClassDef("TableClass", [Field("table", []), Field("classload", [])])

  /** A registry row. */
  datatype TableClass = TableClass(table: string, classload: bytes)

  /** `TableClass()`, the row whose shape bootstraps the registry table. */
  const DefaultTableClass: TableClass := TableClass("", [])

  function TableClassItem(tc: TableClass): Item
  {
    Item(TableClassDef, map["table" := Text(tc.table), "classload" := Blob(tc.classload)])
  }

  /** The registry row an instance of `TableClass` read from the registry table stands for. */
  function FromItem(item: Item): Option<TableClass>
  {
    if "table" in item.values && item.values["table"].Text?
       && "classload" in item.values && item.values["classload"].Blob?
    then Some(TableClass(item.values["table"].text, item.values["classload"].blob))
    else None
  }

  /** The pattern `get_item(..., **{"table": table})` looks a registry row up by. */
  function KeyOf(table: string): Row
  {
    map["table" := Text(table)]
  }

  /** The row `put_class(table, cls)` writes. */
  function RegistryRow(table: string, cls: ClassDef): Row
  {
    ItemRow(TableClassItem(TableClass(table, Pickle.Dumps(cls))))
  }

  /** The registry rows after `put_class(table, cls)`: an upsert keyed on `table`. */
  function PutRows(rows: seq<Row>, table: string, cls: ClassDef): seq<Row>
  {
    Upsert(rows, "table", RegistryRow(table, cls))
  }

  /** The tables once `put_class(table, cls)` has upserted its row into the registry table. */
  function Registered(tables: map<string, Table>, table: string, cls: ClassDef): map<string, Table>
    requires Registry in tables
  {
    tables[Registry := Table(tables[Registry].columns, PutRows(tables[Registry].rows, table, cls))]
  }

  /** What `get_class` makes of the result of its `get_item`. */
  function ClassFrom(found: Result<Option<Item>>): Result<ClassDef>
  {
    match found
    case Err(e) => Err(e)
    case Ok(None) => Err(AttributeError("classload"))
    case Ok(Some(item)) =>
      match FromItem(item)
      case None => Err(UnpicklingError)
      case Some(tc) =>
        match Pickle.Loads(tc.classload)
        case None => Err(UnpicklingError)
        case Some(cls) => Ok(cls)
  }

  /** The class the registry rows hold for `table`. */
  function Lookup(rows: seq<Row>, table: string): Result<ClassDef>
  {
    ClassFrom(Ok(match Find(rows, KeyOf(table))
                 case None => None
                 case Some(row) => Some(Decode(row, TableClassDef))))
  }

  lemma TableClassFields()
    ensures FieldNames(TableClassDef) == {"table", "classload"}
  {
    var fs := TableClassDef.fields;
    assert fs[0].name == "table" && fs[1].name == "classload";
    assert forall n | n in FieldNames(TableClassDef) :: n == "table" || n == "classload";
  }

  /**
   * A registry row has exactly the two columns `table` and `classload`, and
   * reading one back gives the row that was written.
   */
  lemma TableClassRow(tc: TableClass)
    ensures ItemRow(TableClassItem(tc)) == map["table" := Text(tc.table), "classload" := Blob(tc.classload)]
    ensures FromItem(Decode(ItemRow(TableClassItem(tc)), TableClassDef)) == Some(tc)
  {
    TableClassFields();
    var row := ItemRow(TableClassItem(tc));
    assert row.Keys == {"table", "classload"};
  }

  /** After `put_class(t, c)`, `get_class(t)` returns `c`. */
  lemma LookupAfterPut(rows: seq<Row>, table: string, cls: ClassDef)
    ensures Lookup(PutRows(rows, table, cls), table) == Ok(cls)
  {
    var tc := TableClass(table, Pickle.Dumps(cls));
    var row := RegistryRow(table, cls);
    TableClassRow(tc);
    assert row["table"] == Text(table);
    FindAfterUpsert(rows, "table", row);
    assert KeyOf(table) == map["table" := row["table"]];
    Pickle.LoadsDumps(cls);
  }

  /** `put_class(t, c)` leaves the class of every other table as it was. */
  lemma LookupOtherAfterPut(rows: seq<Row>, table: string, cls: ClassDef, other: string)
    requires other != table
    ensures Lookup(PutRows(rows, table, cls), other) == Lookup(rows, other)
  {
    var row := RegistryRow(table, cls);
    TableClassRow(TableClass(table, Pickle.Dumps(cls)));
    FindOtherAfterUpsert(rows, "table", row, Text(other));
  }

  /** Registering the same class twice stores the same rows as registering it once. */
  lemma PutRowsIdempotent(rows: seq<Row>, table: string, cls: ClassDef)
    ensures PutRows(PutRows(rows, table, cls), table, cls) == PutRows(rows, table, cls)
  {
    TableClassRow(TableClass(table, Pickle.Dumps(cls)));
    UpsertIdempotent(rows, "table", RegistryRow(table, cls));
  }

  /**
   * Two registrations under one name leave one row for it, holding the later
   * class (when the registry held at most one row for it before).
   */
  lemma LaterPutWins(rows: seq<Row>, table: string, first: ClassDef, second: ClassDef)
    requires Count(rows, "table", Text(table)) <= 1
    ensures Lookup(PutRows(PutRows(rows, table, first), table, second), table) == Ok(second)
    ensures Count(PutRows(PutRows(rows, table, first), table, second), "table", Text(table)) == 1
  {
    TableClassRow(TableClass(table, Pickle.Dumps(first)));
    TableClassRow(TableClass(table, Pickle.Dumps(second)));
    UpsertKeepsOneRow(rows, "table", RegistryRow(table, first));
    UpsertKeepsOneRow(PutRows(rows, table, first), "table", RegistryRow(table, second));
    LookupAfterPut(PutRows(rows, table, first), table, second);
  }

  /** What `get_class` is handed: a table name, or an object with a `name` attribute. */
  datatype ClassKey = ByName(name: string) | TableObject(table: Handle)

  /** `Mapper`: the registry's engine, the metadata it was built with, and its table. */
  class Mapper {
    const engine: Engine
    const metadata: Metadata
    const sqlTable: Handle

    /** The registry table exists and its reflection has the columns of `TableClass`. */
    ghost predicate Valid()
      reads this, engine
    {
      sqlTable.name == Registry && Registry in engine.tables && FieldNames(TableClassDef) <= sqlTable.columns
    }

    /**
     * `Mapper(engine, metadata)`: creates the registry table only when the
     * metadata does not know it, then reflects into `metadata`.
     */
    constructor (engine: Engine, metadata: Metadata)
      requires (Registry in metadata.tables) == (Registry in engine.tables)
      requires Registry in metadata.tables ==> FieldNames(TableClassDef) <= metadata.tables[Registry]
      modifies engine, metadata
      ensures this.engine == engine && this.metadata == metadata
      ensures Valid()
      ensures engine.tables == if Registry in old(engine.tables) then old(engine.tables)
                               else old(engine.tables)[Registry := Table(Columns(TableClassDef), [])]
      ensures metadata.tables == Reflected(engine.tables) + old(metadata.tables)
      ensures sqlTable == Handle(Registry, metadata.tables[Registry])
      ensures engine.migrated == old(engine.migrated)
    {
      this.engine := engine;
      this.metadata := metadata;
      if Registry !in metadata.tables {
        engine.CreateTable(Registry, TableClassItem(DefaultTableClass).cls);
      }
      metadata.Reflect(engine);
      sqlTable := Handle(Registry, metadata.tables[Registry]);
      new;
      TableClassFields();
    }

    /** `get_class(table)`, with the table given by name. */
    function GetClass(table: string): (r: Result<ClassDef>)
      requires Valid()
      reads this, engine
      ensures r == Lookup(engine.tables[Registry].rows, table)
    {
      ClassFrom(engine.GetItem(sqlTable, TableClassDef, KeyOf(table)))
    }

    /** `get_class(table)` as written: it reads `table.name`. */
    function GetClassAsWritten(table: ClassKey): (r: Result<ClassDef>)
      requires Valid()
      reads this, engine
      ensures table.ByName? ==> r == Err(AttributeError("name"))
      ensures table.TableObject? ==> r == GetClass(table.table.name)
    {
      match table
      case ByName(_) => Err(AttributeError("name"))
      case TableObject(h) => GetClass(h.name)
    }

    /**
     * The class `put_class(t, c)` has just stored is found by the corrected
     * lookup, and missed by the lookup as written.
     */
    lemma AsWrittenMissesRegisteredClass(rows: seq<Row>, t: string, c: ClassDef)
      requires Valid() && engine.tables[Registry].rows == PutRows(rows, t, c)
      ensures GetClass(t) == Ok(c)
      ensures GetClassAsWritten(ByName(t)) == Err(AttributeError("name"))
    {
      LookupAfterPut(rows, t, c);
    }

    /** `put_class(table, cls)`: upserts the serialised class keyed on `table`. */
    method PutClass(table: string, cls: ClassDef)
      requires Valid()
      modifies engine
      ensures Valid()
      ensures engine.tables == Registered(old(engine.tables), table, cls)
      ensures engine.migrated == old(engine.migrated)
      ensures GetClass(table) == Ok(cls)
      ensures forall other | other != table :: GetClass(other) == old(GetClass(other))
      ensures Reflected(engine.tables) == Reflected(old(engine.tables))
    {
      var classload := Pickle.Dumps(cls);
      TableClassFields();
      var r := engine.UpdateItem(sqlTable, TableClassItem(TableClass(table, classload)), Some("table"));
      LookupAfterPut(old(engine.tables)[Registry].rows, table, cls);
      forall other | other != table
        ensures GetClass(other) == old(GetClass(other))
      {
        LookupOtherAfterPut(old(engine.tables)[Registry].rows, table, cls, other);
      }
    }
  }
}
