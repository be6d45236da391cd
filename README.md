# Insert loader of php-etl, modelled in Dafny

This project models `Marquine\Etl\Loaders\Insert`, the loader of the php-etl
pipeline that writes rows into a database table. `handler($pipeline, $table)`
builds a closure. When the closure is called with a row and a partition key
("meta"), it writes a transformed copy of the row and returns the original row.

The loader's implementation file is not part of this model. Its behaviour is
taken from its test suite, `tests/Loaders/InsertTest.php`. That suite pins the
behaviour down through mocks of the database manager, the statement builder,
the prepared statement and the transaction. The model therefore describes a run
of the loader as the log of calls it makes on those collaborators.

Files:

- `rows.dfy` (module `Rows`): rows as PHP string-keyed arrays. A row is an
  ordered list of `(key, value)` entries. `Put` is PHP's `$row[$k] = $v`: an
  existing key keeps its position and a new key goes at the end.
- `columns.dfy` (module `Columns`): the `columns` option, which is unset, a
  list of names to keep, or a source-to-target rename map. From it come the
  column list given to the statement builder's `insert` (`InsertColumns`) and
  the parameters given to `execute` for each row (`Params`). `Params` projects
  the row through the option and, when `timestamps` is on, appends
  `created_at` and `updated_at`.
- `protocol.dfy` (module `Protocol`): the collaborator calls (`statement`,
  `insert`, `prepare`, `transaction`, `size`, `run` with what its callback
  did, `execute`). It also gives the views of a call log used to state the
  protocol: the rows executed, the set-up calls, the `run` keys, and the
  executes made outside any transaction.
- `insert.dfy` (module `Loaders`): the loader class `Insert`. Its public
  options are `columns`, `connection`, `transaction`, `commitSize` and
  `timestamps`, with the defaults unset, `"default"`, true, 100 and false. It
  also keeps the log of calls made so far. `Handler` builds the handler,
  `Handle` calls it with one row, and `Load` builds it and calls it with a
  sequence of rows.
- `insert_test.dfy` (module `InsertScenarios`): the seven scenarios of the
  test suite. Each is a method that sets the options, builds the handler and
  calls it once. `ReturnsTheRow` states that the row comes back unchanged; the
  other six state the exact call log that results.

The clock is a parameter: each row's `now` string is the timestamp written
into `created_at` and `updated_at`. The pipeline is represented by the row its
`sample()` returns.

## Model

| member | source | states |
|---|---|---|
| `Rows.Put` | tests/Loaders/InsertTest.php:110 | assigning a key gives it the new value and leaves every other key's value alone; the key list is unchanged if the key was present and gains the key at the end otherwise |
| `Rows.PutWellFormed` | tests/Loaders/InsertTest.php:110 | assigning a key to a row without repeated keys leaves a row without repeated keys |
| `Rows.PutAbsent` | tests/Loaders/InsertTest.php:110 | assigning a key the row lacks appends exactly that one entry at the end |
| `Columns.InsertColumns` | tests/Loaders/InsertTest.php:53-111 | the column list given to `insert` is the option's names (the sample's keys with no option, the filter's names, the rename map's targets), followed by `created_at` and `updated_at` exactly when timestamps are on: two more entries than the option names, the last two being the stamps. `Columns.ParamsMatchColumns` ties it to the executed row |
| `Columns.Stamp` | tests/Loaders/InsertTest.php:110 | assigning the time to `created_at` then `updated_at`, each as `Put` does, leaves both holding that time and every other key's value unchanged. `Columns.StampKeys` and `Columns.TimestampParams` state where the stamps go |
| `Columns.Params` | tests/Loaders/InsertTest.php:52-110 | the row given to `execute` is the row itself with no option, otherwise its projection through the option's pairs, then stamped when timestamps are on; with timestamps on, both stamps hold the time. Its content for each option is stated by `Columns.UnsetParams`, `Columns.FilterParams`, `Columns.RenameParams` and `Columns.TimestampParams`, and its keys by `Columns.ParamsMatchColumns` |
| `Columns.Project` | tests/Loaders/InsertTest.php:62-89 | projecting a row through (source, target) pairs gives a row with no repeated key, all of whose keys are targets of the pairs |
| `Columns.ProjectSpec` | tests/Loaders/InsertTest.php:62-89 | with distinct targets, the projection's keys are the targets whose source the row has, in pair order; each target holds its source's value; every other key is absent |
| `Columns.ProjectKeepsAll` | tests/Loaders/InsertTest.php:62-89 | when the row has every source and the targets are distinct, the projection's keys are all the targets, in mapping order |
| `Columns.FilterParams` | tests/Loaders/InsertTest.php:62-73 | a list of distinct names keeps exactly the listed keys the row has, in list order, with unchanged values; every unlisted key is dropped |
| `Columns.RenameParams` | tests/Loaders/InsertTest.php:75-89 | a rename map with distinct targets yields, in map order, the target of each source the row has, carrying the source's value; keys that are not targets of the map are dropped |
| `Columns.UnsetParams` | tests/Loaders/InsertTest.php:52 | with no column option and no timestamps, execute receives the row exactly as given |
| `Columns.TimestampParams` | tests/Loaders/InsertTest.php:107-118 | with timestamps on, `created_at` and `updated_at` both hold the same time; when the columns the option keeps (the projected row, or the whole row when no option is set) do not include them, they are appended after all other columns, `created_at` first |
| `Columns.StampKeys` | tests/Loaders/InsertTest.php:110-111 | stamping a row that lacks both stamp columns appends `created_at` then `updated_at` to its keys |
| `Columns.ParamsMatchColumns` | tests/Loaders/InsertTest.php:62-89 | when the names the option yields are distinct, the row has every source column the option names (with no option: exactly the sample's keys, in the sample's order), and, with timestamps on, neither `created_at` nor `updated_at` is among those names, the executed row's keys are exactly the insert statement's column list, in order, timestamps included |
| `Loaders.Insert.constructor` | tests/Loaders/InsertTest.php:47-60 | a new loader has no column option, connection `default`, transactions on, commit size 100, timestamps off, and has made no call |
| `Loaders.Insert.Handler` | tests/Loaders/InsertTest.php:47-60 | building the handler asks the manager for a statement builder for the connection, calls `insert` with the table and the derived column list, then `prepare`; with transactions on, it then asks for a transaction for the same connection and sizes it to the commit size; with them off, no transaction call is made |
| `Loaders.Insert.Handle` | tests/Loaders/InsertTest.php:40-45 | calling the handler returns the row unchanged and records one `execute` with the transformed row, wrapped in a `run` for the row's partition key when transactions are on |
| `Loaders.HandlerSession` | tests/Loaders/InsertTest.php:47-105 | for any number of rows: the set-up calls (statement, insert, prepare, transaction, size) are exactly those made when the handler was built and happen once; each row is executed once, in order, with its transformed parameters; the calls after set-up are one per row, in order, and the i-th is row i's execute, inside a `run` for row i's own partition key when transactions are on and made directly (with no `run` at all) when they are off |
| `Loaders.HandleAll` | tests/Loaders/InsertTest.php:40-45 | calling a built handler with each of a sequence of rows returns each row unchanged and appends to the loader's log exactly the calls of those rows, in order |
| `Loaders.Load` | tests/Loaders/InsertTest.php:47-60 | a loader that builds its handler and then calls it with each of a sequence of rows returns every row and ends with the log `HandlerSession` describes: the set-up calls for its options, then one call per row, in order |
| `InsertScenarios.ReturnsTheRow` | tests/Loaders/InsertTest.php:40-45 | whatever the column option, timestamp flag or transaction flag, the handler returns the row it was called with |
| `InsertScenarios.DefaultOptions` | tests/Loaders/InsertTest.php:47-60 | default options give the log statement(`default`), insert(`table`, [id, name, email]), prepare, transaction(`default`), size(100), run(`meta`, execute(whole row)); the row is returned |
| `InsertScenarios.FilteringColumns` | tests/Loaders/InsertTest.php:62-73 | `columns = [id, name]` inserts columns [id, name] and executes {id: 1, name: Jane Doe} |
| `InsertScenarios.MappingColumns` | tests/Loaders/InsertTest.php:75-89 | `columns = {id: user_id, name: full_name}` inserts columns [user_id, full_name] and executes {user_id: 1, full_name: Jane Doe}; email is dropped |
| `InsertScenarios.WithoutTransactions` | tests/Loaders/InsertTest.php:91-105 | `transaction = false` gives the log statement, insert with the full column list, prepare, execute(whole row), with no transaction, size or run |
| `InsertScenarios.WithTimestamps` | tests/Loaders/InsertTest.php:107-118 | `timestamps = true` adds created_at and updated_at after the other columns, in the column list and in the executed row, both holding the same time |
| `InsertScenarios.CustomCommitSize` | tests/Loaders/InsertTest.php:120-130 | `commitSize = 50` sizes the transaction with 50 and changes nothing else in the log |

## Left out

- The source file of `Marquine\Etl\Loaders\Insert` is not part of this model. The model obtains the statement and the transaction once, when the handler is built, in the order statement, insert, prepare, transaction, size. The test suite fixes only how often and with what arguments each of these is called, not their order, nor whether they happen when the handler is built or on the first row. Statements built lazily per partition are not modelled.
- The options are read once, when the handler is built (`RowHandler` is that snapshot). Changing an option on the loader after building a handler has no effect on that handler in the model.
- With no column option, the executed row is the row as given. It is not projected onto the sample's keys. `Columns.ParamsMatchColumns` assumes the row has exactly the sample's keys in the sample's order; for a row with other keys (say sample `[id]`, row `[id, age]`), the model executes `[id, age]` against the column list `[id]` and claims nothing about the mismatch.
- Columns.ParamsMatchColumns: no claim for column options that repeat a name or a target, for rows missing a named column, or, with timestamps on, for options that name `created_at` or `updated_at` themselves (the stamp then overwrites that column in place rather than being appended). The model still computes what is executed in those cases.
- `Database\Transaction` is not part of this model. What `size` and `run` do inside the transaction (commit every N rows, final commit, rollback, per-partition bookkeeping) is left out. The mocks stand in for it, and nothing in the suite asserts commit counts. Each call is a log entry; `run` records the calls its callback made.
- The PDO connection, `PDOStatement` and SQL text generation (`Database\Statement`) are not modelled. `insert`, `prepare` and `execute` are log entries.
- The clock: `date('Y-m-d G:i:s')` and its formatting are replaced by the `now` parameter.
- The pipeline: only the row returned by `sample()` is used, passed as a parameter.
- Failure paths (unknown connection, statement or write errors, commit errors) are left out, because every collaborator in the suite is a mock that never fails.
- An empty `columns` option: PHP's `[]` is a single falsy value, but the model has two (`Filter([])` and `Rename([])`), neither treated as unset. The model then inserts no columns and executes an empty row. How the loader treats an empty option, and any configuration error for it, is not modelled.
- Loaders.Insert.Handle: accepts any `RowHandler` value, including one no `Handler` call produced, so the model admits a log with an `execute` and nothing prepared. In PHP the closure exists only once `handler()` has returned.
- Values are strings, integers or null; floats and booleans are not modelled.
- Concurrency and multiple workers are left out.
