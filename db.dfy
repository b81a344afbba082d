/**
 * What the relational store can throw at the repositories, and the
 * optimistic-locking conflict both repositories raise
 * (commons/db/OptimisticLockingException.kt).
 */
module Db {
  import opened RawMediaKeys

  /**
   * An exception escaping a `JdbcTemplate` call, as the service's catch
   * clauses tell them apart. A duplicate primary key is a
   * `DuplicateKeyException`, which is non-transient.
   */
  datatype StoreFailure =
    | NonTransientDataAccess(reason: string)
    | OtherDataAccess(reason: string)
    | NotDataAccess(reason: string)

  const DUPLICATE_KEY: StoreFailure := NonTransientDataAccess("duplicate key")

  /** A conditional update that matched no row. */
  datatype OptimisticLockingException =
    OptimisticLockingException(entity: string, key: Uuid, previousVersion: int, nextVersion: int)
}
