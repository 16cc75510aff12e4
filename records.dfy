/**
 * The shapes the store works with: dataclasses (as field lists), their
 * instances, and table rows.
 */
module Records {

  newtype byte = x: int | 0 <= x < 256
  type bytes = seq<byte>

  /** A value stored in a column. */
  datatype Value = Null | Text(text: string) | Number(number: int) | Blob(blob: bytes)

  /** A dataclass field: its name and the keys of its `metadata` mapping, in order. */
  datatype Field = Field(name: string, metadata: seq<string>)

  /** A dataclass: its class name and its fields in declaration order. */
  datatype ClassDef = ClassDef(name: string, fields: seq<Field>)

  /** An instance of a dataclass: a value for each field. */
  datatype Item = Item(cls: ClassDef, values: map<string, Value>)

  /** A table row: column name to value. */
  type Row = map<string, Value>

  /** The names of a dataclass's fields. */
  function FieldNames(cls: ClassDef): set<string>
  {
    set i | 0 <= i < |cls.fields| :: cls.fields[i].name
  }

  /** `dataclasses.asdict(item)`: every field of the item's class with its value. */
  function ItemRow(item: Item): Row
  {
    map n | n in FieldNames(item.cls) :: if n in item.values then item.values[n] else Null
  }

  /** An instance of `cls` built from a stored row; a column the row lacks reads as NULL. */
  function Decode(row: Row, cls: ClassDef): Item
  {
    Item(cls, map n | n in FieldNames(cls) :: if n in row then row[n] else Null)
  }

  /** The name of the last field whose metadata holds `"key"`, the natural key of a dataclass. */
  function KeyField(fields: seq<Field>): Option<string>
    decreases |fields|
  {
    if fields == [] then None
    else if "key" in fields[|fields| - 1].metadata then Some(fields[|fields| - 1].name)
    else KeyField(fields[..|fields| - 1])
  }

  /** `KeyField` finds nothing exactly when no field carries `"key"`. */
  lemma {:induction false} KeyFieldNone(fields: seq<Field>)
    ensures KeyField(fields).None? <==> forall i | 0 <= i < |fields| :: "key" !in fields[i].metadata
    decreases |fields|
  {
    if fields != [] {
      var init := fields[..|fields| - 1];
      KeyFieldNone(init);
      assert forall i | 0 <= i < |init| :: init[i] == fields[i];
    }
  }

  /** What `KeyField` finds is a field that carries `"key"`, with no later field carrying it. */
  lemma {:induction false} KeyFieldLast(fields: seq<Field>)
    ensures KeyField(fields).Some? ==>
              exists j | 0 <= j < |fields| ::
                fields[j].name == KeyField(fields).value && "key" in fields[j].metadata
                && forall k | j < k < |fields| :: "key" !in fields[k].metadata
    decreases |fields|
  {
    if fields != [] && "key" !in fields[|fields| - 1].metadata {
      var init := fields[..|fields| - 1];
      KeyFieldLast(init);
      if KeyField(init).Some? {
        var j :| 0 <= j < |init| && init[j].name == KeyField(init).value && "key" in init[j].metadata
                 && forall k | j < k < |init| :: "key" !in init[k].metadata;
        assert fields[j] == init[j];
        assert forall k | j < k < |fields| - 1 :: fields[k] == init[k];
      }
    }
  }

  /**
   * `KeyField` finds nothing exactly when no field carries `"key"`, and otherwise
   * names a field that carries it with no later field carrying it.
   */
  lemma KeyFieldSpec(fields: seq<Field>)
    ensures KeyField(fields).None? <==> forall i | 0 <= i < |fields| :: "key" !in fields[i].metadata
    ensures KeyField(fields).Some? ==>
              exists j | 0 <= j < |fields| ::
                fields[j].name == KeyField(fields).value && "key" in fields[j].metadata
                && forall k | j < k < |fields| :: "key" !in fields[k].metadata
  {
    KeyFieldNone(fields);
    KeyFieldLast(fields);
  }

  /** The natural key of a dataclass is one of its fields. */
  lemma KeyFieldIsField(cls: ClassDef)
    ensures KeyField(cls.fields).Some? ==> KeyField(cls.fields).value in FieldNames(cls)
  {
    KeyFieldSpec(cls.fields);
  }

  /** Reading back the row of an instance that has every field gives the instance. */
  lemma DecodeItemRow(item: Item)
    requires item.values.Keys == FieldNames(item.cls)
    ensures Decode(ItemRow(item), item.cls) == item
  {
  }

  datatype Option<T> = None | Some(value: T)

  function LowerChar(c: char): char
  {
    if 'A' <= c <= 'Z' then (c as int - 'A' as int + 'a' as int) as char else c
  }

  /** Lower-cases the ASCII letters of `s`. */
  function Lower(s: string): string
  {
    seq(|s|, i requires 0 <= i < |s| => LowerChar(s[i]))
  }

  /** The table a dataclass is stored in: its class name, lower-cased. */
  function TableName(cls: ClassDef): string
  {
    Lower(cls.name)
  }
}
