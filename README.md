# Sharp.Data's DataClient, modelled in Dafny

Sharp.Data's `DataClient` is the statement orchestrator of a schema-migration
library. It turns schema operations and data operations into calls on two
collaborators. The schema operations are create and drop table, keys, indexes,
columns, comments, renames and column changes. The data operations are select,
insert, insert-returning, update, delete, count and the table-existence probe.
The two collaborators are:

- a `Dialect`, which renders SQL text and named parameters for one database
  product;
- an `IDatabase`, which executes the SQL.

The client itself decides:
- the order and number of statements;
- the auto-generated primary-key name;
- the row of nulls used when no values are given;
- how the parameter list of an UPDATE is assembled: SET parameters first, then
  WHERE parameters numbered from an offset, minus those whose value is null or
  `DBNull`;
- the offset-0 WHERE clause of DELETE and COUNT;
- whether SELECT passes parameters at all;
- the extra output slot of a returning INSERT;
- the `> 0` existence test;
- the null-guarded lifecycle calls.

The project has five modules:

- `SchemaModel` (schema.dfy) holds the value types: tables, columns, filters and
  boxed values.
- `Databases` (databases.dfy) holds the execution contract. `Database` is a class
  that appends every call it receives, and what it answered, to two ghost
  traces (`Calls`, `Replies`). Its answers are arbitrary with one exception:
  an execution reports exactly one value per `Out` slot in its parameter list.
- `Dialects` (dialects.dfy) holds the dialect contract. A `Dialect` is a record
  of arbitrary total functions, so nothing is assumed about the SQL text. Two
  predicates describe well-behaved dialects:
  - `ConvertsInOrder`: one parameter per value, in order;
  - `NumbersSequentially`: placeholders are numbered from the offset, with
    distinct names.

  Some lemmas assume these. The client itself never relies on them.
- `Statements` (statements.dfy) states on values what each operation issues,
  and proves its properties as lemmas.
- `DataClients` (data_client.dfy) holds the `DataClient` class. Each method
  has a postcondition that gives the database's new trace exactly. The
  multi-statement, select, insert, update, delete and count methods state it
  with the `Statements` functions. The single-statement schema methods and the
  lifecycle methods state it directly: the dialect function applied to the
  arguments, or the literal lifecycle call.

The client's nullable arguments are `Option` values: the filter, and the values
of an insert or update. The C# arrays are references, but `DataClient` never writes into an array it
receives: it reassigns the local `values` and builds new arrays for the
parameter lists. So the model can use sequences for them. `Convert.ToInt32`
on a scalar is the identity on `int`.

## Model

| member | source | states |
|---|---|---|
| `DataClients.DataClient.constructor` | Sharp.Data/DataClient.cs:19-26 | stores the database and dialect, sets `ThrowException`; the instance `Schema` stays unset whatever schema is passed |
| `DataClients.DataClient.ExecuteSqls` | Sharp.Data/DataClient.cs:73-77 | appends exactly `ExecuteEach(sqls)` to the database's calls: each statement once, in order, with no parameter list, and nothing else |
| `Statements.ExecuteEach` | Sharp.Data/DataClient.cs:73-77 | one call per statement, the i-th executing `sqls[i]` with no parameter list |
| `DataClients.DataClient.AddTable` | Sharp.Data/DataClient.cs:64-71 | the loop builds a table named `tableName` whose columns are exactly the given columns' objects in argument order; the dialect's create statements for it are each issued once, in order |
| `Statements.ColumnObjects` | Sharp.Data/DataClient.cs:65-68 | same length as the fluent columns, the i-th being the i-th argument's wrapped column |
| `DataClients.DataClient.RemoveTable` | Sharp.Data/DataClient.cs:79-82 | issues the dialect's drop statements for the table, each once, in order, without parameters |
| `DataClients.DataClient.RemoveColumn` | Sharp.Data/DataClient.cs:135-140 | the indexed loop issues the dialect's drop-column statements, each once, in array order, without parameters |
| `DataClients.DataClient.AddPrimaryKey` | Sharp.Data/DataClient.cs:84-87 | one parameterless execution of the dialect's primary-key statement for a key named `PrimaryKeyName(tableName)` |
| `Statements.PrimaryKeyName` | Sharp.Data/DataClient.cs:85 | the auto-generated key name is `pk_` followed by the unchanged table name |
| `DataClients.DataClient.AddNamedPrimaryKey` | Sharp.Data/DataClient.cs:89-92 | one parameterless execution, the caller's key name passed to the dialect unchanged |
| `DataClients.DataClient.AddForeignKey` | Sharp.Data/DataClient.cs:94-98 | one parameterless execution of the dialect's foreign-key statement for exactly the given arguments |
| `DataClients.DataClient.RemovePrimaryKey` | Sharp.Data/DataClient.cs:100-103 | one parameterless execution of the dialect's drop-primary-key statement |
| `DataClients.DataClient.RemoveForeignKey` | Sharp.Data/DataClient.cs:105-108 | one parameterless execution of the dialect's drop-foreign-key statement |
| `DataClients.DataClient.AddUniqueKey` | Sharp.Data/DataClient.cs:110-113 | one parameterless execution of the dialect's unique-key statement |
| `DataClients.DataClient.RemoveUniqueKey` | Sharp.Data/DataClient.cs:115-118 | one parameterless execution of the dialect's drop-unique-key statement |
| `DataClients.DataClient.AddIndex` | Sharp.Data/DataClient.cs:120-123 | one parameterless execution of the dialect's create-index statement |
| `DataClients.DataClient.RemoveIndex` | Sharp.Data/DataClient.cs:125-128 | one parameterless execution of the dialect's drop-index statement |
| `DataClients.DataClient.AddColumn` | Sharp.Data/DataClient.cs:130-133 | one parameterless execution of the dialect's add-column statement |
| `DataClients.DataClient.AddTableComment` | Sharp.Data/DataClient.cs:142-145 | one parameterless execution of the dialect's table-comment statement |
| `DataClients.DataClient.AddColumnComment` | Sharp.Data/DataClient.cs:147-150 | one parameterless execution of the dialect's column-comment statement |
| `DataClients.DataClient.RemoveTableComment` | Sharp.Data/DataClient.cs:152-155 | one parameterless execution of the dialect's remove-table-comment statement |
| `DataClients.DataClient.RemoveColumnComment` | Sharp.Data/DataClient.cs:157-160 | one parameterless execution of the dialect's remove-column-comment statement |
| `DataClients.DataClient.RenameTable` | Sharp.Data/DataClient.cs:162-165 | one parameterless execution of the dialect's rename-table statement |
| `DataClients.DataClient.RenameColumn` | Sharp.Data/DataClient.cs:167-170 | one parameterless execution of the dialect's rename-column statement |
| `DataClients.DataClient.ModifyColumn` | Sharp.Data/DataClient.cs:172-174 | one parameterless execution of the dialect's modify-column statement |
| `DataClients.DataClient.SelectSql` | Sharp.Data/DataClient.cs:176-188 | one query, `SelectCall` of what the builder built; returns the database's result set |
| `Statements.SelectCall` | Sharp.Data/DataClient.cs:183-187 | a query on the built text that carries a parameter list if and only if the builder reports a filter, and then exactly the builder's parameters |
| `DataClients.DataClient.InsertSql` | Sharp.Data/DataClient.cs:190-196 | one execution of the dialect's insert over `ValuesOrNulls`, with exactly the converted values as parameters; returns the database's affected-row count |
| `Statements.ValuesOrNulls` | Sharp.Data/DataClient.cs:191-193 | given values are used unchanged; absent values become one null per column |
| `DataClients.DataClient.InsertReturningSql` | Sharp.Data/DataClient.cs:198-206 | one execution with `InsertReturningParameters`; the dialect is told the output slot's name; returns the value the database wrote into that slot |
| `Statements.InsertReturningParameters` | Sharp.Data/DataClient.cs:199-204 | the converted values in order, then exactly one output slot named `returning_` + column with size 4000, the only output slot in the list |
| `Statements.ReturningName` | Sharp.Data/DataClient.cs:199 | the output slot's name is `returning_` followed by the unchanged column name |
| `DataClients.DataClient.UpdateSql` | Sharp.Data/DataClient.cs:208-225 | one execution of exactly `UpdateRequest`'s statement and parameters; returns the affected-row count |
| `Statements.UpdateRequest` | Sharp.Data/DataClient.cs:208-222 | the SET parameters are a prefix; without a filter the base statement with only the SET parameters; with one, the WHERE clause rendered at offset k = number of SET parameters, and after the prefix exactly `Survivors` of the parameters converted from offset k: the bound ones, in their order |
| `Statements.Survivors` | Sharp.Data/DataClient.cs:219 | keeps exactly the parameters whose value is neither null nor `DBNull`, never adding any |
| `Statements.SurvivorsAppend` | Sharp.Data/DataClient.cs:219-220 | the filtering keeps relative order: it distributes over concatenation |
| `Statements.SurvivorsBindBoundValues` | Sharp.Data/DataClient.cs:217-219 | parameters that bind values in order keep, after filtering, exactly the bound values in order |
| `Statements.UpdateBindsSetThenBoundFilterValues` | Sharp.Data/DataClient.cs:209-220 | with an in-order dialect, the UPDATE binds the SET values (or nulls) first, then exactly the filter's bound values in order, and nothing else |
| `Statements.NullConditionTakesNoSlot` | Sharp.Data/DataClient.cs:215-220 | a filter with values null and v adds exactly one parameter, holding v, right after all SET parameters |
| `Statements.SurvivorsKeepDistinctNames` | Sharp.Data/DataClient.cs:219 | dropping parameters never creates a name clash |
| `Statements.UpdateNamesDistinct` | Sharp.Data/DataClient.cs:214-220 | with sequential numbering, the offset threading gives every UPDATE parameter a distinct name |
| `DataClients.DataClient.DeleteSql` | Sharp.Data/DataClient.cs:227-238 | one execution of `FilteredRequest` on the dialect's delete text; returns the affected-row count |
| `Statements.FilteredRequest` | Sharp.Data/DataClient.cs:228-237 | without a filter, the base text with no parameter list; with one, base + " " + WHERE at offset 0, with every filter value converted from offset 0 |
| `Statements.FilteredRequestKeepsNulls` | Sharp.Data/DataClient.cs:231-233 | with a well-behaved dialect, a filtered DELETE or COUNT binds every filter value, null ones included, named from 0 onwards, with no clash |
| `Statements.NullConditionKeepsSlotOnlyInFilteredRequest` | Sharp.Data/DataClient.cs:216-219 | filter values null and v give a DELETE or COUNT two parameters, null first and then v, but give an UPDATE only one |
| `DataClients.DataClient.CountSql` | Sharp.Data/DataClient.cs:240-254 | one scalar query of `FilteredRequest` on the dialect's count text; returns that scalar |
| `DataClients.DataClient.TableExists` | Sharp.Data/DataClient.cs:256-259 | one parameterless scalar query of the dialect's probe; true if and only if the scalar is greater than 0 |
| `DataClients.DataClient.Commit` | Sharp.Data/DataClient.cs:261-265 | forwards one commit when there is a database, and does nothing otherwise |
| `DataClients.DataClient.RollBack` | Sharp.Data/DataClient.cs:267-271 | forwards one rollback when there is a database, and does nothing otherwise |
| `DataClients.DataClient.Close` | Sharp.Data/DataClient.cs:273-277 | forwards one close when there is a database, and does nothing otherwise |
| `DataClients.DataClient.Dispose` | Sharp.Data/DataClient.cs:279-281 | exactly the effect of `Close` |

## Left out

- The static `DefaultSchema` (Sharp.Data/DataClient.cs:12, 24) is process-wide mutable state and is not modelled. When no schema is given, the constructor copies the still-unset instance `Schema` into it. This is the reverse of propagating a configured default. The constructor also never stores its `schema` argument. Both behaviours are kept as written: `Schema` is `None` after construction.
- The fluent-builder properties `Add`, `Remove`, `Rename`, `Modify`, `Insert`, `Update`, `Select`, `Delete` and `Count` (Sharp.Data/DataClient.cs:28-62) only wrap the client in a new builder object.
- Database implementations: connections, execution and result sets are I/O. `Database` only records calls and returns arbitrary replies. It never throws, so the model does not capture that an exception from the database stops the statements still to come.
- Concrete dialects: their SQL text, placeholder naming and pagination are not modelled. A `Dialect` is a record of arbitrary functions. `SelectBuilder`, the filter tree and `GetAllValueParameters` are not part of this model either. They appear as `Dialect.buildSelect` and as the value list a `Filter` carries.
- The `Out` parameter is an object that the database mutates. The model uses a value instead: the database reports one value per output slot, and `InsertReturningSql` returns the value for its only slot.
- `InsertReturningSql` does not replace absent values with nulls, unlike `InsertSql` and `UpdateSql`. So its `values` argument is not optional in the model.
- `ThrowException` is only set by the constructor; nothing in this class reads it.
- Sharp.Migrations/IVersionRepository.cs is an interface without behaviour, and the migration engine is not part of this model.
- Sharp.Tests.ReversableMigrations/003_Rename_table_rev_to_revbar.cs only declares an `Up` body that renames a table. Its reversal lives in a base class that is not part of this model.
- Transactions and concurrency belong to the database collaborator.
- Every `DataClient` method except `Commit`, `RollBack`, `Close` and `Dispose` requires a non-null `Database`, although the constructor accepts a null one. The source does not check this. When `Database` is null, the single-statement methods, `SelectSql`, `InsertSql`, `InsertReturningSql`, `UpdateSql`, `DeleteSql`, `CountSql` and `TableExists` first call the dialect and then throw `NullReferenceException`. `ExecuteSqls`, `AddTable`, `RemoveTable` and `RemoveColumn` return normally without touching `Database` when the dialect gives them no statements, and throw otherwise. The model leaves out both behaviours.
- Null arrays are also outside the model. A null statement array from the dialect makes `ExecuteSqls` and `RemoveColumn` throw. So do null `columns` together with null `values` in `InsertSql` and `UpdateSql`, at `columns.Length`. The model's sequences are never null.
