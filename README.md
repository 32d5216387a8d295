# Drop-statistics store, modelled in Dafny

The tracker's back end keeps three SQLite tables: `resource_types`, `activities` and
`resources`. Its HTTP handlers read and write these tables. This project models the
store as an in-memory database. Each table is a sequence of rows, and a counter gives
the next AUTOINCREMENT id. Every SQL statement is modelled by what it does to the rows.

- `entities.dfy` (module `Entities`): the records the API exchanges (`ResourceType`,
  `Resource`, `Activity`, `BatchResourceRequest`), the row of each table, and the
  `Outcome` of a store operation.
- `tables.dfy` (module `Tables`): the row-level effect of the statements as functions.
  This covers the pair lookup, the accumulating update, one batch record, a whole
  batch and the activity charge. It also proves what a batch does to every
  (type, activity) pair and what a charge does to the run and stamina totals.
- `queries.dfy` (module `Queries`): the four read paths as functions over the
  tables. Each one is a filter, a join or a projection.
- `store.dfy` (module `Store`): class `Database` holds the tables. The four write
  paths are methods on it, and each method's postcondition gives the whole new
  state. The module also has a set-up method (`NewDungeon`) and two client methods. They derive the daily-dungeon
  walk-through (batches accumulate into one row; single adds duplicate rows) from
  the method contracts alone.

Store failures are a parameter. The program aborts a request whenever the store
reports an error (a locked or unwritable file, for example). Nothing in the program
decides when that happens. So each write method takes `fault: Option<nat>`, which
names the SQL statement of that call that the store rejects. The abort becomes an
`Err` outcome.

- Single-statement and two-statement paths run in autocommit mode. A failure in
  their second statement leaves the first one committed.
- The batch path runs inside a transaction. Any failure rolls back every table, its
  counter included. An empty batch also rolls back (`NoRecords`).

The model follows what the code does, including where that is surprising:

- The code turns on no foreign-key enforcement. Registering a type under a missing
  activity therefore succeeds, and charging a missing activity changes nothing.
- `add_resource` is not atomic. It charges the resource's *amount* as stamina, and it
  never merges with an existing row for the same pair.
- The accumulating update of the batch path raises *every* row of the pair. That
  includes duplicates the single path created.

## Model

| member | source | states |
|---|---|---|
| `Tables.RowsOfMembers` | back/src/main.rs:217 | The pair selection holds exactly the stored rows whose type id and activity id both match. |
| `Tables.Lookup` | back/src/main.rs:215-224 | The batch's existence check gives a value exactly when the pair has at least one row. The value is the amount of one of the pair's rows; the query does not say which. |
| `Tables.AddToPairKeepsIds` | back/src/main.rs:226-230 | The accumulating update keeps the resources table's ids unique, increasing and below the next id. |
| `Tables.AddToPairRows` | back/src/main.rs:226-230 | After the update, the pair's rows are its old rows, each raised by the amount, duplicates included. Every other pair's rows are exactly as before. |
| `Tables.ApplyRecordRows` | back/src/main.rs:215-238 | A record for another pair leaves the pair's rows alone. A record for a pair with rows raises all of them by its amount. A record for a pair without rows creates exactly one row, with the next id and the record's amount. |
| `Tables.ApplyBatchKeepsIds` | back/src/main.rs:213-239 | A whole batch keeps ids unique, increasing and below the next id, and never lowers the next id. |
| `Tables.BatchAccumulates` | back/src/main.rs:213-239 | For every pair: existing rows each gain the batch's total for that pair. With no prior rows, a mentioned pair gets exactly one row holding that total, and an unmentioned pair still has none. |
| `Tables.BatchAddsToExistingRows` | back/src/main.rs:224-230 | A pair that had rows ends with the same rows, each raised by the sum of the batch's amounts for it. |
| `Tables.BatchCreatesOneRow` | back/src/main.rs:231-238 | A pair without rows that the batch mentions k times ends with exactly one row, whose amount is the sum of those k amounts. |
| `Tables.BatchLeavesOtherPairs` | back/src/main.rs:213-239 | A pair the batch does not mention keeps exactly the rows it had. |
| `Tables.BatchKeepsOneRowPerPair` | back/src/main.rs:213-239 | If every pair has at most one row before a batch, that still holds after it. |
| `Tables.ApplyBatchConcat` | back/src/main.rs:213-239 | Two batches in a row leave the table exactly as one batch holding the records of both. |
| `Tables.BatchSumConcat` | back/src/main.rs:213-239 | A pair's total over two batches is the sum of its totals in each. |
| `Tables.TwoBatchesAccumulate` | back/src/main.rs:213-239 | A pair with one row that goes through two batches keeps that single row (same id). Its amount becomes the old amount plus everything both batches submitted for the pair. |
| `Tables.SingleAddNeverMerges` | back/src/main.rs:186-190 | The single-add insert adds exactly one row to the pair's rows and keeps the rows already there. |
| `Tables.SingleAddDuplicates` | back/src/main.rs:186-190 | When the pair already has a row, the single-add insert breaks the one-row-per-pair property that the batch path keeps. |
| `Tables.Charge` | back/src/main.rs:193-197 | The activity update keeps every row's id and name. The row with the given id gets count + 1 and consume + cost. Every other row is unchanged. When no row has the id, the table is unchanged. |
| `Tables.FindActivity` | back/src/main.rs:194 | Describes which row the activity update's `WHERE id = ?2` matches (the update itself selects rows through `ChargeRow`): a row is found exactly when the table holds an activity with that id, and the row found has that id. `Queries.ActivitiesRoundTrip` uses it. |
| `Tables.ChargeTotals` | back/src/main.rs:241-245 | With unique ids, one charge raises the total runs over all activities by exactly 1 and the total stamina by exactly the cost. When no activity has the id, neither total changes. |
| `Tables.FindActivityById` | back/src/main.rs:85-90 | With AUTOINCREMENT's unique ids, looking an activity up by its own id returns that same row. |
| `Queries.TypesWithId` | back/src/main.rs:135-138 | The join's type side holds exactly the stored types whose id equals the resource row's type id. |
| `Queries.ActivityRows` | back/src/main.rs:138 | The activity filter holds exactly the resource rows whose activity id matches. |
| `Queries.GetResourceTypes` | back/src/main.rs:129-151 | An entry (id, name) is returned exactly when some resource row of the activity joins a stored type with that id and name. The result is empty when the activity has no resource rows. |
| `Queries.GetActivityResources` | back/src/main.rs:273-295 | An entry (name, amount) is returned exactly when some resource row of the activity, with that amount, joins a stored type of that name. The result is empty when the activity has no resource rows. |
| `Queries.TypesWithIdUnique` | back/src/main.rs:78-81 | With unique type ids, a type id names at most one stored type, and exactly one when some type has it. |
| `Queries.JoinedRows` | back/src/main.rs:137-138 | The rows the inner join keeps are exactly the activity's resource rows whose type is stored. A row whose type is missing is dropped. |
| `Queries.JoinsOnePerRow` | back/src/main.rs:129-151 | With the unique type ids of the primary key, the type join returns, as a multiset, exactly one (type id, type name) entry per kept row. The amount join of lines 273-295 returns exactly one (type name, amount) entry per kept row. |
| `Queries.GetActivities` | back/src/main.rs:162-182 | The list has one entry per stored row. An entry is in it exactly when it carries some stored activity's id, name, run count and stamina total. No order is promised. |
| `Queries.FetchStatistics` | back/src/main.rs:251-271 | The statistics read has the same length and the same entries as the activity list. |
| `Queries.ActivitiesDistinct` | back/src/main.rs:162-182 | With unique activity ids, no activity is listed twice. With the length and membership facts, the list is a rearrangement of the stored activities. |
| `Queries.ActivitiesRoundTrip` | back/src/main.rs:162-182 | Every activity the list returns, looked up by its id, has identical fields. |
| `Store.Database.constructor` | back/src/main.rs:76-105 | A fresh schema: three empty tables whose first ids are 1, satisfying the id invariant. |
| `Store.Database.AddResourceType` | back/src/main.rs:107-127 | On success, exactly one type (new id, given name) and exactly one resource row (that type, amount 0, given activity) are appended, and the new type is returned with its id. If the first statement fails, nothing changes. If the second fails, the type stays without its row. Activities never change. |
| `Store.Database.AddActivity` | back/src/main.rs:153-160 | On success, exactly one activity (fresh id, given name, count 0, consume 0) is appended and returned, whatever count and consume were sent. The other tables never change. |
| `Store.Database.AddResource` | back/src/main.rs:184-206 | A new row is always appended, never merged, and returned with its id. Then the matching activity is charged one run and the resource's amount. If the charge fails, the inserted row stays. If the insert fails, nothing changes. |
| `Store.Database.Accumulate` | back/src/main.rs:215-238 | One record's lookup-then-update-or-insert leaves the resources table as `ApplyRecord` describes. |
| `Store.Database.AccumulateAll` | back/src/main.rs:213-239 | The loop fails exactly when the store rejects one of its statements, and then reports that statement. Otherwise the resources table ends as `ApplyBatch` of the records. |
| `Store.Database.AddResources` | back/src/main.rs:208-249 | The call fails exactly when the batch is empty or a statement is rejected. A failure leaves every table as before. A success leaves the resources as `ApplyBatch` of the records and charges the first record's activity exactly once. The types table and the type and activity id counters do not change; the resource id counter ends as `ApplyBatch` gives it on success and as before on failure. |

## Left out

- The HTTP layer (axum routing, extraction, JSON, the CORS layer, the socket and the
  tokio runtime): it is plumbing around the store.
- Opening `game_resources.db` and the SQL text itself: the schema is an initially
  empty state, and each statement is modelled by its effect on the rows.
- Concurrency between requests and SQLite's locking: requests are modelled one at a
  time, and the batch transaction becomes "apply all, or restore the old tables".
- Store failures: which statement fails is the `fault` parameter, since no code in
  the program decides it. On the four write paths, every `.expect`/`.unwrap` abort is
  an `Err` outcome, not a process exit.
- Failed reads: the four read paths always succeed in the model. The code aborts a
  read when the store fails or a stored value does not convert (main.rs lines 140,
  146-147, 166, 177-178, 255, 266-267, 284, 290-291). A failed read changes no table.
- Integer widths: ids, amounts, counts and stamina are unbounded `nat`s. The model
  does not capture u32 overflow in the request payloads, the `as u32` truncation of
  `last_insert_rowid`, or a failed u32 conversion when a stored amount is read back.
- Row order: the model's reads and its batch lookup use table order, but SQL promises
  no order without `ORDER BY`. The read members' own contracts and
  `Queries.JoinsOnePerRow` therefore state length, membership and multiplicity, never
  position. The helper lemmas `Queries.TypesFollowRows`, `Queries.AmountsFollowRows`,
  `Queries.TypeJoinStep` and `Queries.AmountJoinStep` do state the model's table order.
  They serve only to prove the multiset fact of `Queries.JoinsOnePerRow`, and are not
  a promise of the program.
- Queries.GetResourceTypes: its own contract states membership only. Multiplicity (one
  entry per kept row) is in `Queries.JoinsOnePerRow`, which needs the unique type ids
  of the table invariant.
- Queries.GetActivityResources: the same as GetResourceTypes; multiplicity is in
  `Queries.JoinsOnePerRow`.
- Referential checks: the code never turns on foreign-key enforcement, so no check
  rejects a missing activity or type, and no `NotFound` error exists.
- `vue3-frontend/vite.config.ts`: development-server proxy configuration with no
  logic.
