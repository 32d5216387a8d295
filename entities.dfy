/** The records the tracker exchanges with its clients, the rows of its three
    tables, and the outcome of a store operation. */
module Entities {

  datatype Option<T> = None | Some(value: T)

  /** A kind of in-game item; `id` is assigned by the store. */
  datatype ResourceType = ResourceType(id: Option<nat>, name: string)

  /** An amount of one resource type obtained from one activity. */
  datatype Resource = Resource(id: Option<nat>, typeId: nat, amount: nat, activityId: nat)

  /** A repeatable task: `count` runs recorded, `consume` stamina spent in all. */
  datatype Activity = Activity(id: Option<nat>, name: string, count: nat, consume: nat)

  /** One batched submission: several resource lines from one run of an activity. */
  datatype BatchResourceRequest = BatchResourceRequest(records: seq<Resource>, staminaCost: nat)

  /** A row of the `resource_types` table. */
  datatype TypeRow = TypeRow(id: nat, name: string)

  /** A row of the `activities` table. */
  datatype ActivityRow = ActivityRow(id: nat, name: string, count: nat, consume: nat)

  /** A row of the `resources` table. */
  datatype ResourceRow = ResourceRow(id: nat, typeId: nat, amount: nat, activityId: nat)

  /** Why a store operation did not complete: the store rejected the SQL
      statement with this index (counted from 0 in execution order), or a
      batch had no record whose activity could be charged. */
  datatype StoreError = StatementFailed(statement: nat) | NoRecords

  datatype Outcome<T> = Ok(value: T) | Err(error: StoreError)

  /** Which SQL statement of an operation the store rejects, if any. The
      store's own failures (a locked or unwritable database file) are not
      visible in the program, so each write path takes this as a parameter. */
  type Fault = Option<nat>

  predicate Fails(fault: Fault, statement: nat)
  {
    fault == Some(statement)
  }
}
