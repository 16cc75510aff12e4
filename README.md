# membank store core in Dafny

This project models the bookkeeping core of membank, a persistence layer that
stores Python dataclass instances in relational tables named after the
lower-cased class name. The model covers the store `LoadMemory`, its reads
through `MemoryBlob`, the key-field scan `bundle_item`, the location checks
`assert_path` and the scheme check of `LoadMemory.__init__`, and the schema
registry `Mapper` with its `TableClass` rows.

The database engine is a map from table name to a table (its column set and its
rows in insertion order). The SQLAlchemy `MetaData` is a separate object
holding the reflected column sets. The store keeps its own metadata object and
replaces it on every refresh, while the registry keeps the one it was built
with, and the model keeps that aliasing.

The registry is a reserved table `__meta_dataclasses__` whose rows are
`TableClass(table, classload)`. `classload` is a byte snapshot of the
dataclass. The snapshot is a concrete, injective byte encoding with a proved
round trip, standing in for `pickle`.

An out-of-sync table is modelled concretely. A read or write fails with
`MemoryOutOfSyncError` when the dataclass has a field that the reflected table
lacks, and `sync_table` adds the class's fields to the table's columns. The
engine keeps a ghost log of the tables `sync_table` was applied to, so the
contracts can state that the retry-once protocol syncs at most once.

Modules, one file each:

- `Errors`: the raised errors.
- `Records`: dataclasses, instances, rows, and the key field.
- `Pickle`: the snapshot encoding.
- `Location`: `assert_path`, `dirname` and the url check.
- `Storage`: the engine, the metadata, and the row operations.
- `DataMapper`: the registry.
- `Interface`: `bundle_item`, read instructions, and the store.

Three behaviours of the code worth noting:

- `reset` re-bootstraps an empty registry table (membank/interface.py:219).
- An out-of-sync error on the retry propagates as `MemoryOutOfSyncError` (membank/interface.py:205).
- Reserved names raise `GeneralMemoryError` (membank/interface.py:191-193).

The reads and the retry of `put` are modelled on the corrected registry
lookup `DataMapper.Mapper.GetClass`. In the code as written, every
`_get_class` call (membank/interface.py:44, 79, 203) raises `AttributeError`;
see "## Findings".

## Model

| member | source | states |
|---|---|---|
| Interface.BundleItem | membank/interface.py:14-23 | the result maps `"key"` exactly when some field's metadata holds `"key"`, and then to the name of the last such field; the map has no other entry; the result agrees with `Records.KeyField`, the key the store writes under |
| Records.KeyFieldSpec | membank/interface.py:20-22 | the key field is absent iff no field carries `"key"`, else it is a field carrying `"key"` with no later field carrying it |
| Records.KeyFieldNone | membank/interface.py:20-22 | no key field iff no field's metadata holds `"key"` |
| Records.KeyFieldLast | membank/interface.py:20-22 | a key field found is the last field carrying `"key"` |
| Records.KeyFieldIsField | membank/interface.py:20-22 | the key field is one of the class's fields |
| Records.DecodeItemRow | tests/test_interface.py:82-87 | reading back the row of an instance with every field set gives the instance |
| Interface.Resolve | membank/interface.py:63-65 | zero instructions give `GeneralMemoryError` before any table is looked up |
| Interface.Memory.ResolveInstructions | membank/interface.py:61-78 | the instruction loop computes exactly the resolution `Resolve` defines over the store's metadata |
| Interface.ResolveSound | membank/interface.py:66-78 | a resolved read has at least one instruction, filters by exactly the instructions' comparisons in order, uses the last instruction's table, every instruction names that table or `""`, and every named table is in the metadata |
| Interface.ResolveComplete | membank/interface.py:66-78 | instructions that all name one table, with every name known and every comparison's table named, resolve to that table with all their comparisons |
| Interface.ResolveMismatch | membank/interface.py:76-77 | when every name is known and every comparison's table is named, two instructions naming different tables make the read fail with `MemoryFilteringError` |
| Interface.UnnamedStopsTheRead | membank/interface.py:68-73 | a comparison whose table has no name ends the read with no rows, whatever follows, once the instructions before it were accepted |
| Interface.ResolveAppend | membank/interface.py:66-78 | the loop over `a + b` continues from where the loop over `a` stopped |
| Interface.ResolveFromSound | membank/interface.py:66-78 | from any loop state, a resolved read's filters are the collected ones plus the instructions' comparisons, on the last instruction's table |
| Interface.ResolveFromNames | membank/interface.py:66-78 | from any loop state, a resolved read keeps a non-empty previous name and every instruction names the result or `""` |
| Interface.ResolveFromComplete | membank/interface.py:66-78 | from a compatible loop state, instructions naming one table are accepted for it |
| Interface.ResolveFromAnswerable | membank/interface.py:66-78 | when every name is known and every comparison's table is named, the only failure is `MemoryFilteringError` |
| Location.AssertPath | membank/interface.py:93-107 | `:memory:` passes iff the database type is sqlite; any other path passes iff its directory (`.` when empty) exists and is writable; each failure is the matching `GeneralMemoryError` |
| Location.FileNameChecksWorkingDirectory | membank/interface.py:100-101 | a path without `/` is checked against `.` |
| Location.JoinedPathChecksItsDirectory | membank/interface.py:100-101 | the directory checked for `dir/file` is `dir` |
| Location.DatabasePath | membank/interface.py:127-146 | the url opens iff its scheme is sqlite and `netloc + path` passes `assert_path`; the path handed on is `netloc + path`; another scheme is refused with `GeneralMemoryError`; an `assert_path` error is raised unchanged |
| Location.DefaultIsInMemorySqlite | membank/interface.py:127-128 | no url opens sqlite in memory |
| Location.MissingDirectoryIsRejected | tests/test_interface.py:123-124 | `sqlite://www.zoozl.net/gibberish` is refused when that directory is missing |
| Location.RelativeFileIsInWorkingDirectory | tests/test_interface.py:103-106 | `sqlite://test_database.db` opens the file in the working directory |
| Interface.Open | membank/interface.py:113-149 | `LoadMemory(url)` yields a store exactly when the url checks pass, with the error otherwise; the store is valid, on the path checked, over the stored tables plus a bootstrapped registry |
| Interface.Memory.constructor | membank/interface.py:147-149 | the metadata reflects the engine and the registry is bootstrapped on the same metadata object |
| Interface.Memory.Refresh | membank/interface.py:151-154 | the store's metadata becomes a new object reflecting the engine |
| Interface.Memory.GetSqlTable | membank/interface.py:160-164 | the table is returned iff the metadata knows it, else `GeneralMemoryError` |
| Interface.Memory.Put | membank/interface.py:187-205 | refused names raise before any table or class is written; a new table is created, registered and holds exactly the item, and every other table and registered class is unchanged; on an in-sync table the only change is the item upserted on its key field; on an out-of-sync table the class registered for it is re-registered and its table widened by one sync, then the write is retried once: every other table is unchanged, the retry's error propagates, and the retry succeeds when the class registered for the table is that table's own class (its lower-cased name is the table's name) and has the item's fields; a failed registry lookup leaves every table unchanged, and a `KeyError` from the sync leaves the registry upsert as the only change (operations built on the corrected lookup `DataMapper.Mapper.GetClass`) |
| Interface.Memory.PutNew | membank/interface.py:190-201 | for a new table: the write succeeds, the engine gains the table holding only the item's row and the registry row for its class, and nothing else changes |
| Interface.WriteIntoNewTable | membank/interface.py:194-201 | writing the item into its freshly created and registered table leaves that table holding just the item's row |
| Interface.Memory.CreateTableFor | membank/interface.py:194-196 | the new table has the class's columns and no rows, the class is registered under its name, and no other table changes |
| Interface.Memory.WriteRetrying | membank/interface.py:197-205 | one write on the key field `bundle_item` finds; in sync, only that upsert; out of sync, exactly one sync of the registered class (registry upsert, table widened, other tables unchanged) and one more write whose outcome is returned |
| Interface.Memory.SyncAndRewrite | membank/interface.py:202-205 | the class is re-registered; `KeyError` leaves only the registry changed; otherwise its table is widened, the sync logged once, and the second write's out-of-sync error is returned, not retried; every other table is unchanged |
| Interface.PutTwiceStoresOnce | tests/test_interface.py:84 | putting an item twice stores what putting it once stores |
| Interface.Memory.Sync | membank/interface.py:207-213 | the class is registered first; `KeyError` iff its table is unknown; else the table gains the class's columns, keeps its rows, and the sync is logged |
| Interface.Memory.Delete | membank/interface.py:178-185 | `GeneralMemoryError` iff the table is unknown; otherwise exactly the rows that agree with the item on each of its fields go, and an out-of-sync error is not retried |
| Interface.Memory.Reset | membank/interface.py:215-219 | afterwards the only table is an empty registry table, and no class is registered |
| Interface.Memory.CleanAllData | membank/interface.py:221-226 | the same tables remain; the registry table is untouched, so every registered class is still found; every other table is empty with its columns kept |
| Interface.Memory.GetNamed | membank/interface.py:39-51 | the table lookup fails first, then the class lookup; an in-sync read changes nothing; on out-of-sync the class is re-registered, and a `KeyError` leaves that as the only change; otherwise the class's table is widened, every other table and all rows are unchanged, and the read made once more on the refreshed table is returned, succeeding when the class is the table's own (operations built on the corrected lookup `DataMapper.Mapper.GetClass`) |
| Interface.Memory.Get | membank/interface.py:56-90 | the read follows the instruction resolution (empty, unnamed, mismatched); the class of the resolved table is read; an in-sync read changes nothing; on out-of-sync the class is re-registered, and a `KeyError` leaves that as the only change; otherwise its table is widened, every other table is unchanged, and the read is made once more on the refreshed table (operations built on the corrected lookup `DataMapper.Mapper.GetClass`) |
| DataMapper.Mapper.constructor | membank/datamapper.py:24-30 | the registry table is created only when the metadata lacks it; afterwards it exists and `sql_table` is its reflected handle |
| DataMapper.Mapper.PutClass | membank/datamapper.py:44-54 | an upsert of the snapshot keyed on `table`; afterwards `get_class` of that name gives the class and of every other name what it gave before |
| DataMapper.Mapper.GetClass | membank/datamapper.py:32-42 | the registered class is the snapshot in the registry row for the name |
| DataMapper.Mapper.GetClassAsWritten | membank/datamapper.py:40 | handed a plain name, as every caller does, the lookup raises `AttributeError` |
| DataMapper.Mapper.AsWrittenMissesRegisteredClass | membank/interface.py:170-172 | a class just registered is found by the corrected lookup and missed by the lookup as written |
| DataMapper.LookupAfterPut | membank/datamapper.py:42-48 | `get_class(t)` after `put_class(t, c)` gives `c` |
| DataMapper.LookupOtherAfterPut | membank/datamapper.py:49-54 | `put_class(t, c)` leaves every other name's class unchanged |
| DataMapper.PutRowsIdempotent | membank/datamapper.py:48-54 | repeating `put_class(t, c)` stores the same rows |
| DataMapper.LaterPutWins | membank/datamapper.py:49-54 | two registrations under one name, onto a registry holding at most one row for it, leave one row, holding the later class |
| DataMapper.TableClassRow | membank/datamapper.py:11-16 | a registry row has exactly the columns `table` and `classload`, and reads back as written |
| DataMapper.TableClassFields | membank/datamapper.py:11-16 | `TableClass` has exactly the fields `table` and `classload` |
| Pickle.LoadsDumps | membank/datamapper.py:42-48 | deserialising a snapshot gives the class serialised |
| Pickle.DumpsInjective | membank/datamapper.py:48 | different classes have different snapshots |
| Storage.Engine.GetItem | membank/interface.py:47-51 | out-of-sync iff the class has a field the handle lacks; an unknown table is an `OperationalError` |
| Storage.GetItemLatest | membank/interface.py:47-51 | on an in-sync table, `get_item` returns the last matching row read as the class, or nothing exactly when no row matches |
| Storage.FindLast | membank/interface.py:47 | the row found is the last stored row matching the pattern |
| Storage.Engine.GetList | membank/interface.py:86-90 | out-of-sync iff the class has a field the handle lacks; otherwise every stored row that matches and passes every comparison is returned, read as the class, and nothing else |
| Storage.SelectAppend | membank/interface.py:86 | selecting from `a + b` is selecting from `a` then from `b`, so `get_list` keeps insertion order |
| Storage.Engine.UpdateItem | membank/interface.py:201 | out-of-sync iff the class has a field the table lacks; otherwise the rows are upserted on the key and the columns kept |
| Storage.Engine.DeleteItem | membank/interface.py:185 | out-of-sync iff the class has a field the table lacks; otherwise exactly the matching rows go |
| Storage.Engine.SyncTable | membank/interface.py:212 | the table gains the class's fields as columns and keeps its rows; the sync is logged |
| Storage.Engine.CreateTable | membank/interface.py:194 | a new empty table with one column per field, plus `id` when no field is the key |
| Storage.Metadata.Reflect | membank/datamapper.py:29 | the engine's tables are added; tables already known keep their reflection |
| Storage.Metadata.DropAll | membank/interface.py:217 | the named tables leave the engine, the rest stay |
| Storage.Metadata.CreateAll | membank/interface.py:226 | every known table the engine lacks is created empty, with its known columns |
| Storage.Metadata.Clear | membank/interface.py:218 | the metadata knows no table |
| Storage.FindAfterUpsert | membank/datamapper.py:49-54 | after an upsert, looking the key up finds exactly the upserted row |
| Storage.FindOtherAfterUpsert | membank/datamapper.py:49-54 | an upsert leaves the lookup of any other key value unchanged |
| Storage.UpsertIdempotent | membank/datamapper.py:49-54 | upserting a row twice equals upserting it once |
| Storage.UpdateRowsIdempotent | membank/interface.py:201 | `update_item` with the same item twice equals once |
| Storage.UpsertKeepsOneRow | membank/datamapper.py:49-54 | a key held by at most one row is held by exactly one after an upsert |
| Storage.FindSpec | membank/interface.py:47 | `get_item` returns a stored matching row, and nothing only when no row matches |
| Storage.SelectSpec | membank/interface.py:86 | `get_list` returns exactly the stored rows that match and pass every comparison |
| Storage.WithoutSpec | membank/interface.py:185 | `delete_item` keeps exactly the stored rows that do not match |
| Storage.ReflectedIgnoresRows | membank/interface.py:154 | reflection sees only columns, so writing rows leaves it unchanged |

## Left out

- The SQLAlchemy engine, SQL generation and column types are out of scope: tables are maps from names to column sets and row sequences.
- `membank.datamethods` is not part of this model. Its operations have only the behaviour their call sites here rely on:
  - `update_item` upserts on the key field;
  - without a key, it stores the row unless an identical row is stored;
  - `get_item` returns the most recent matching row;
  - a missing column is the out-of-sync signal;
  - `sync_table` adds missing columns.
- Identifier generation for classes without a key field is out of scope: `create_table` adds an `id` column, but no identifier is assigned or written back.
- Ordering comparisons hold only between numbers. Other column types and their SQL ordering are not modelled.
- `membank.utils` is not part of this model. `assert_table_name` and `get_class_name` are modelled as the ASCII lower-cased class name, without the argument checks `assert_table_name` makes.
- `pickle` stores a class by reference, so `get_class` returns the class as currently defined. The model stores the field list by value at registration time. This is why the retry's success is stated only when the class registered for the table is that table's own class (its lower-cased name is the table's name) and has the item's fields; by-reference storage makes this true for an item of the registered class.
- `urllib.parse.urlparse` is the parameter `parse`; its `AttributeError` on a malformed url (membank/interface.py:131-132) has no counterpart, since `parse` is total.
- `os.path.isdir` and `os.access` are the two sets of existing and writable directories in `FileSystem`.
- The engine's `debug`/echo logging is out of scope.
- The dynamic `__getattr__` dispatch (membank/interface.py:53-54, 156-158) is replaced by explicit parameters: a read by table name takes the name, and `FilterOperator` comparisons arrive as `Compare` instructions.
- The `MemoryBlob` object itself is not modelled: its two reads are methods of the store.
- `_get_engine` and `_put_class` are direct accessors, inlined where they are called.
- `StoreAttributes` is `dir()` of a store under Python 3.11; Python 3.10 lacks `__getstate__`.
- Interface.Open: it requires a registry table that the database already holds to have the columns of `TableClass`. A stored registry of another shape is not modelled.
- `clean_all_data` raises `KeyError` when the metadata lacks the registry table; the store's invariant excludes that state.
- The tests that call `memory.create` and `memory.put.<table>` exercise an interface the modelled `interface.py` does not have. Only their path, scheme and idempotent-put expectations are modelled.

## Findings

| source | as written | input that shows it | evidently intended | confidence | as-written member | corrected member |
|---|---|---|---|---|---|---|
| membank/datamapper.py:40 | `get_class` looks the row up by `table.name`, but `_get_class` (membank/interface.py:172) and so every read and retry pass the table name as a string | `put(item)` then `get.<name>()`: the read raises `AttributeError` because a `str` has no `name` | look the registry row up by the table-name string | high (not executed) | DataMapper.Mapper.GetClassAsWritten | DataMapper.Mapper.GetClass |
