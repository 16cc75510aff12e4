/**
 * The exceptions membank raises, and the result types that carry them.
 * A Python `raise` becomes an `Err`/`Fail` value returned to the caller.
 */
module Errors {

  /** Why a `GeneralMemoryError` was raised. */
  datatype Reason =
    | NoComparison                               // `get()` called with no instruction
    | InMemoryOnlyForSqlite(path: string)        // `:memory:` asked of another database type
    | MissingDirectory(directory: string)        // the database file's directory does not exist
    | ReadOnlyDirectory(directory: string)       // ... or is not writable
    | UnsupportedDatabase(scheme: string)        // url scheme other than sqlite
    | NoSuchTable(table: string)                 // `_get_sql_table` of a table not in the metadata
    | CannotDelete(table: string)                // `delete` of an item whose table does not exist
    | ReservedName(table: string)                // `put` of a name membank keeps for itself

  datatype Error =
    | GeneralMemoryError(reason: Reason)
    | MemoryFilteringError(tableName: string, previousName: string)
    | MemoryOutOfSyncError
      /** Python's KeyError from a dictionary lookup of `key`. */
    | KeyError(key: string)
      /** Python's AttributeError for `attribute` missing from an object. */
    | AttributeError(attribute: string)
      /** The engine refused a statement on a table it does not hold. */
    | OperationalError(table: string)
      /** The stored bytes are not a serialised class. */
    | UnpicklingError

  datatype Result<T> = Ok(value: T) | Err(error: Error)

  /** The result of an operation that returns nothing in Python. */
  datatype Outcome = Pass | Fail(error: Error)
}
